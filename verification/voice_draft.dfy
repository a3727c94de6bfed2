/**
 The decoded snapshot that a mutation edits in place, with the program's loops over its maps.
 Go visits a map in no fixed order, so each loop here takes any key that is left.
 */
module VoiceDraft {
  import opened Outcomes
  import opened VoiceDomain

  /** voiceRoomWithID: the first room with the id. */
  method FindRoom(rooms: seq<Room>, id: string) returns (found: Option<Room>)
    ensures found.None? <==> id !in Ids(rooms)
    ensures found.Some? ==> found.value in rooms && found.value.id == id
    ensures found.Some? && DistinctIds(rooms) ==> forall x :: x in rooms && x.id == id ==> x == found.value
  {
    var i := 0;
    while i < |rooms|
      invariant 0 <= i <= |rooms|
      invariant forall k :: 0 <= k < i ==> rooms[k].id != id
    {
      if rooms[i].id == id {
        return Some(rooms[i]);
      }
      i := i + 1;
    }
    return None;
  }

  /** userVoiceRoom: a room the user is in, or "" for none. */
  method UserRoom(p: Presence, user: string) returns (room: string)
    ensures room != "" ==> IsIn(p, user, room)
    ensures Exclusive(p) ==> forall r :: r != "" ==> (room == r <==> IsIn(p, user, r))
  {
    var todo := p.Keys;
    while todo != {}
      invariant todo <= p.Keys
      invariant forall r :: r in p && r !in todo ==> user !in p[r]
      decreases |todo|
    {
      var r :| r in todo;
      todo := todo - {r};
      if user in p[r] {
        assert IsIn(p, user, r);
        return r;
      }
    }
    return "";
  }

  /** activeVoiceRoomParticipants: the users of a room whose entry has not lapsed. */
  method ActiveParticipants(p: Presence, room: string, now: int) returns (participants: seq<string>)
    ensures forall u :: u in participants <==> u in Live(Occupants(p, room), now)
    ensures forall i, j :: 0 <= i < j < |participants| ==> participants[i] != participants[j]
  {
    var users := if room in p then p[room] else map[];
    var todo := users.Keys;
    participants := [];
    while todo != {}
      invariant todo <= users.Keys
      invariant forall u :: u in participants <==> u in users && u !in todo && users[u].expiresAt > now
      invariant forall i, j :: 0 <= i < j < |participants| ==> participants[i] != participants[j]
      decreases |todo|
    {
      var u :| u in todo;
      if users[u].expiresAt > now {
        participants := participants + [u];
      }
      todo := todo - {u};
    }
  }

  /** The inner loop of prunePresence. */
  method PruneUsers(users: Users, now: int) returns (kept: Users, changed: bool)
    ensures kept == Live(users, now)
    ensures changed <==> kept != users
  {
    kept, changed := users, false;
    var todo := users.Keys;
    while todo != {}
      invariant todo <= users.Keys
      invariant kept == map u | u in users && (u in todo || users[u].expiresAt > now) :: users[u]
      invariant changed <==> exists u :: u in users && u !in todo && users[u].expiresAt <= now
      decreases |todo|
    {
      var u :| u in todo;
      if users[u].expiresAt <= now {
        kept := kept - {u};
        changed := true;
      }
      todo := todo - {u};
    }
    if changed {
      var u :| u in users && users[u].expiresAt <= now;
      assert u in users && u !in kept;
    }
  }

  /** The user ids of a room, in map order. */
  method KeysOf(users: Users) returns (ids: seq<string>)
    ensures forall u :: u in ids <==> u in users
  {
    var todo := users.Keys;
    ids := [];
    while todo != {}
      invariant todo <= users.Keys
      invariant forall u :: u in ids <==> u in users && u !in todo
      decreases |todo|
    {
      var u :| u in todo;
      ids := ids + [u];
      todo := todo - {u};
    }
  }

  /** A map being rewritten room by room into `target`: the rooms in `todo` still hold what they held at the start. */
  ghost function Progress(start: Presence, todo: set<string>, target: Presence): Presence {
    map r | r in start && (r in todo || r in target) :: if r in todo then start[r] else target[r]
  }

  lemma ProgressEnds(start: Presence, target: Presence)
    requires target.Keys <= start.Keys
    ensures Progress(start, start.Keys, target) == start
    ensures Progress(start, {}, target) == target
  {
  }

  lemma ProgressAt(start: Presence, todo: set<string>, target: Presence, r: string)
    requires r in todo && todo <= start.Keys
    ensures r in Progress(start, todo, target) && Progress(start, todo, target)[r] == start[r]
  {
  }

  lemma ProgressStep(start: Presence, todo: set<string>, target: Presence, r: string, users: Users)
    requires r in todo && todo <= start.Keys
    requires r in target ==> target[r] == users
    ensures var p := Progress(start, todo, target)[r := users];
            Progress(start, todo - {r}, target) == if r in target then p else p - {r}
  {
  }

  /** The outer loop of prunePresence. */
  method PruneRooms(start: Presence, now: int) returns (presence: Presence, changed: bool)
    ensures presence == Pruned(start, now)
    ensures changed <==> presence != start
  {
    ghost var target := Pruned(start, now);
    ProgressEnds(start, target);
    presence, changed := start, false;
    var todo := presence.Keys;
    while todo != {}
      invariant todo <= start.Keys
      invariant presence == Progress(start, todo, target)
      invariant changed <==> exists r :: r in start && r !in todo && Touched(start, target, r)
      decreases |todo|
    {
      var r :| r in todo;
      ProgressAt(start, todo, target, r);
      var users, lapsed := PruneUsers(presence[r], now);
      ProgressStep(start, todo, target, r, users);
      presence := presence[r := users];
      changed := changed || lapsed;
      if |users| == 0 {
        presence := presence - {r};
        changed := true;
      }
      todo := todo - {r};
    }
    SameUnlessTouched(start, target);
  }

  /** The loop of setPresence: take the user out of every other room, noting the room they were in. */
  method VacateRooms(start: Presence, user: string, room: string) returns (presence: Presence, change: Change)
    ensures presence == Vacated(start, user, room)
    ensures IsPrevious(start, user, change)
  {
    ghost var target := Vacated(start, user, room);
    ProgressEnds(start, target);
    presence, change := start, NO_CHANGE;
    var todo := presence.Keys;
    while todo != {}
      invariant todo <= start.Keys
      invariant presence == Progress(start, todo, target)
      invariant change.had ==> IsPrevious(start, user, change)
      invariant !change.had ==> change == NO_CHANGE && forall r :: r in start && r !in todo ==> user !in start[r]
      decreases |todo|
    {
      var r :| r in todo;
      ProgressAt(start, todo, target, r);
      var users := presence[r];
      if user in users {
        change := Change(r, users[user].audioOn, true);
      }
      if r != room {
        users := users - {user};
      }
      ProgressStep(start, todo, target, r, users);
      presence := presence[r := users];
      if |users| == 0 {
        presence := presence - {r};
      }
      todo := todo - {r};
    }
  }

  /** The loop of deleteRoom: everything but `room`, unless the caller may not delete it. */
  method RemainingRooms(rooms: seq<Room>, user: string, room: string, canManageAny: bool) returns (next: Option<seq<Room>>)
    ensures next.None? <==> !canManageAny && exists x :: x in rooms && x.id == room && x.creator != user
    ensures next.Some? ==> next.value == Without(rooms, room)
  {
    var kept: seq<Room> := [];
    var i := 0;
    while i < |rooms|
      invariant 0 <= i <= |rooms|
      invariant kept + Without(rooms[i..], room) == Without(rooms, room)
      invariant forall k :: 0 <= k < i && rooms[k].id == room ==> rooms[k].creator == user || canManageAny
    {
      assert rooms[i..][1..] == rooms[i + 1..];
      if rooms[i].id != room {
        kept := kept + [rooms[i]];
      } else if rooms[i].creator != user && !canManageAny {
        return None;
      }
      i := i + 1;
    }
    return Some(kept);
  }

  ghost predicate Touched(start: Presence, target: Presence, r: string) {
    r in start && !(r in target && target[r] == start[r])
  }

  lemma SameUnlessTouched(start: Presence, target: Presence)
    requires target.Keys <= start.Keys
    ensures target != start <==> exists r :: r in start && Touched(start, target, r)
  {
    if forall r :: r in start ==> !Touched(start, target, r) {
      assert target == start;
    }
  }

  class Draft {
    var rooms: seq<Room>
    var presence: Presence

    function Value(): Snapshot
      reads this
    {
      Snapshot(rooms, presence)
    }

    constructor (s: Snapshot)
      ensures Value() == s
    {
      rooms := s.rooms;
      presence := s.presence;
    }

    /** prunePresence. */
    method Prune(now: int) returns (changed: bool)
      modifies this`presence
      ensures Value() == PrunedSnapshot(old(Value()), now)
      ensures changed <==> presence != old(presence)
    {
      presence, changed := PruneRooms(presence, now);
    }

    /** The closure of createRoom. */
    method CreateRoom(user: string, room: string, name: string, stamp: Stamp) returns (err: Option<Failure>)
      modifies this`rooms
      ensures match VoiceDomain.CreateRoom(old(Value()), user, room, name, stamp)
              case Ok(next) => err == None && Value() == next
              case Err(e) => err == Some(e) && Value() == old(Value())
    {
      var found := FindRoom(rooms, room);
      if found.Some? {
        return None;
      }
      if |rooms| >= MAX_ROOMS {
        return Some(RoomsFull);
      }
      rooms := rooms + [Room(room, name, user, stamp.at, stamp.generation)];
      return None;
    }

    /** The closure of deleteRoom; `departed` lists the users who were still in the room. */
    method DeleteRoom(user: string, room: string, canManageAny: bool) returns (err: Option<Failure>, departed: seq<string>)
      modifies this
      ensures match VoiceDomain.DeleteRoom(old(Value()), user, room, canManageAny)
              case Ok(next) => err == None && Value() == next
              case Err(e) => err == Some(e) && Value() == old(Value())
      ensures err == None ==> forall u :: u in departed <==> u in Occupants(old(presence), room)
      ensures err == None ==> room !in Ids(rooms) && room !in presence
    {
      var kept := RemainingRooms(rooms, user, room, canManageAny);
      if kept.None? {
        return Some(Forbidden), [];
      }
      var users := if room in presence then presence[room] else map[];
      departed := KeysOf(users);
      WithoutMembers(rooms, room);
      rooms := kept.value;
      presence := presence - {room};
      return None, departed;
    }

    /** The closure of setPresence. A refused move leaves a half-edited draft, which is never written. */
    method SetPresence(user: string, room: string, audioOn: bool, now: int) returns (err: Option<Failure>, change: Change)
      modifies this`presence
      ensures match VoiceDomain.SetPresence(old(Value()), user, room, audioOn, now)
              case Ok(next) => err == None && Value() == next
              case Err(e) => err == Some(e)
      ensures err == None ==> IsPrevious(old(presence), user, change)
    {
      if room != "" {
        var found := FindRoom(rooms, room);
        if found.None? {
          return Some(RoomNotFound), NO_CHANGE;
        }
      }
      presence, change := VacateRooms(presence, user, room);
      if room == "" {
        return None, change;
      }
      var users := if room in presence then presence[room] else map[];
      if user !in users && |users| >= MAX_PER_ROOM {
        return Some(RoomsFull), change;
      }
      presence := presence[room := users[user := Entry(now + PRESENCE_TTL, audioOn)]];
      return None, change;
    }

    lemma RefusedAsSaid(s: Snapshot, op: Op, stamp: Stamp)
      ensures RefusalOf(s, op, stamp.pruneAt) == match Apply(s, op, stamp) case Ok(_) => None case Err(e) => Some(e)
    {
      var refusal := RefusalOf(s, op, stamp.pruneAt);
      RefusedExactly(s, op, stamp, if refusal.Some? then refusal.value else StoreFailure);
      if Apply(s, op, stamp).Err? {
        RefusedExactly(s, op, stamp, Apply(s, op, stamp).error);
      }
    }

    /** One pass of the mutation loop's body, up to the value it offers for the compare-and-set. */
    method Attempt(op: Op, stamp: Stamp) returns (err: Option<Failure>, change: Change, departed: seq<string>)
      modifies this
      ensures match Apply(old(Value()), op, stamp)
              case Ok(next) => err == None && Value() == next
              case Err(e) => err == Some(e)
      ensures err == RefusalOf(old(Value()), op, stamp.pruneAt)
      ensures err == None && op.Move? ==> IsPrevious(Pruned(old(presence), stamp.pruneAt), op.user, change)
      ensures err == None && op.Delete? ==>
                forall u :: u in departed <==> u in Occupants(Pruned(old(presence), stamp.pruneAt), op.room)
    {
      RefusedAsSaid(Value(), op, stamp);
      change, departed := NO_CHANGE, [];
      var _ := Prune(stamp.pruneAt);
      match op {
        case Create(user, room, name) => err := CreateRoom(user, room, name, stamp);
        case Delete(user, room, any) => err, departed := DeleteRoom(user, room, any);
        case Move(user, room, audioOn) => err, change := SetPresence(user, room, audioOn, stamp.at);
      }
      if err == None {
        rooms := SortedRooms(rooms);
      }
    }
  }
}
