/** The voice-channel snapshot and what each operation does to it, as functions on values. */
module VoiceDomain {
  import opened Outcomes
  import Text
  import opened Finite
  import Sorting

  const PRESENCE_TTL := 45_000
  const MAX_ROOMS := 200
  const MAX_PER_ROOM := 100

  datatype Room = Room(id: string, name: string, creator: string, createAt: int, generation: string)

  datatype Entry = Entry(expiresAt: int, audioOn: bool)

  type Users = map<string, Entry>

  /** Room id to the users in it. */
  type Presence = map<string, Users>

  datatype Snapshot = Snapshot(rooms: seq<Room>, presence: Presence)

  datatype Failure =
    | RoomsFull
    | Forbidden
    | RoomNotFound
    | Contended
    | Corrupt
    | StoreFailure

  datatype Op =
    | Create(user: string, room: string, name: string)
    | Delete(user: string, room: string, canManageAny: bool)
    | Move(user: string, room: string, audioOn: bool)

  /** The clock readings and the generated id one attempt of a mutation uses. */
  datatype Stamp = Stamp(pruneAt: int, at: int, generation: string)

  datatype Change = Change(room: string, audioOn: bool, had: bool)

  const NO_CHANGE := Change("", false, false)

  // ---------- rooms ----------

  function Ids(rooms: seq<Room>): set<string> {
    set room | room in rooms :: room.id
  }

  predicate DistinctIds(rooms: seq<Room>) {
    forall i, j :: 0 <= i < j < |rooms| ==> rooms[i].id != rooms[j].id
  }

  /** The rooms other than `id`, in order. */
  function Without(rooms: seq<Room>, id: string): seq<Room> {
    if rooms == [] then
      []
    else
      (if rooms[0].id == id then [] else [rooms[0]]) + Without(rooms[1..], id)
  }

  lemma {:induction false} WithoutMembers(rooms: seq<Room>, id: string)
    ensures |Without(rooms, id)| <= |rooms|
    ensures forall x :: x in Without(rooms, id) <==> x in rooms && x.id != id
  {
    if rooms != [] {
      assert rooms == [rooms[0]] + rooms[1..];
      WithoutMembers(rooms[1..], id);
    }
  }

  lemma {:induction false} WithoutDistinct(rooms: seq<Room>, id: string)
    requires DistinctIds(rooms)
    ensures DistinctIds(Without(rooms, id))
  {
    if rooms != [] {
      var rest := Without(rooms[1..], id);
      WithoutDistinct(rooms[1..], id);
      WithoutMembers(rooms[1..], id);
      forall j | 0 <= j < |rest| ensures rest[j].id != rooms[0].id {
        assert rest[j] in rooms[1..];
      }
    }
  }

  predicate RoomLe(a: Room, b: Room) {
    var (la, lb) := (Text.Lower(a.name), Text.Lower(b.name));
    if la == lb then Text.Le(a.id, b.id) else Text.Le(la, lb)
  }

  lemma RoomLeOrder()
    ensures Sorting.TotalPreorder(RoomLe)
  {
    forall a, b ensures RoomLe(a, b) || RoomLe(b, a) {
      Text.LeTotal(a.id, b.id);
      Text.LeTotal(Text.Lower(a.name), Text.Lower(b.name));
    }
    forall a, b, c | RoomLe(a, b) && RoomLe(b, c) ensures RoomLe(a, c) {
      var (la, lb, lc) := (Text.Lower(a.name), Text.Lower(b.name), Text.Lower(c.name));
      if la == lb && lb == lc {
        Text.LeTransitive(a.id, b.id, c.id);
      } else {
        if la == lc {
          Text.LeAntisymmetric(la, lb);
        }
        if la != lb && lb != lc {
          Text.LeTransitive(la, lb, lc);
        }
      }
    }
  }

  function SortedRooms(rooms: seq<Room>): seq<Room> {
    Sorting.Sort(RoomLe, rooms)
  }

  lemma {:induction false} InsertDistinct(x: Room, rooms: seq<Room>)
    requires DistinctIds(rooms) && forall y :: y in rooms ==> y.id != x.id
    ensures DistinctIds(Sorting.Insert(RoomLe, x, rooms))
  {
    if rooms != [] && !RoomLe(x, rooms[0]) {
      var rest := Sorting.Insert(RoomLe, x, rooms[1..]);
      InsertDistinct(x, rooms[1..]);
      forall j | 0 <= j < |rest| ensures rest[j].id != rooms[0].id {
        assert rest[j] in multiset(rest);
        assert rest[j] == x || rest[j] in rooms[1..];
      }
    }
  }

  /** Sorting keeps the rooms, their number and the distinctness of their ids, and orders them. */
  lemma {:induction false} SortKeeps(rooms: seq<Room>)
    ensures |SortedRooms(rooms)| == |rooms|
    ensures forall x :: x in SortedRooms(rooms) <==> x in rooms
    ensures Ids(SortedRooms(rooms)) == Ids(rooms)
    ensures Sorting.Sorted(RoomLe, SortedRooms(rooms))
    ensures DistinctIds(rooms) ==> DistinctIds(SortedRooms(rooms))
  {
    forall x ensures x in SortedRooms(rooms) <==> x in rooms {
      Sorting.SameElements(SortedRooms(rooms), rooms, x);
    }
    RoomLeOrder();
    Sorting.SortSorted(RoomLe, rooms);
    if DistinctIds(rooms) && rooms != [] {
      SortKeeps(rooms[1..]);
      forall y | y in SortedRooms(rooms[1..]) ensures y.id != rooms[0].id {
        assert y in rooms[1..];
      }
      InsertDistinct(rooms[0], SortedRooms(rooms[1..]));
    }
  }

  // ---------- presence ----------

  function Live(users: Users, now: int): Users {
    map u | u in users && users[u].expiresAt > now :: users[u]
  }

  function Pruned(p: Presence, now: int): Presence {
    map r | r in p && Live(p[r], now) != map[] :: Live(p[r], now)
  }

  function Occupants(p: Presence, room: string): Users {
    if room in p then p[room] else map[]
  }

  /** What the move loop leaves of one room's users: only the destination keeps the mover. */
  function Kept(p: Presence, user: string, room: string, r: string): Users
    requires r in p
  {
    if r == room then p[r] else p[r] - {user}
  }

  function Vacated(p: Presence, user: string, room: string): Presence {
    map r | r in p && Kept(p, user, room, r) != map[] :: Kept(p, user, room, r)
  }

  predicate IsIn(p: Presence, user: string, room: string) {
    room in p && user in p[room]
  }

  /** `change` names a room the user was in, or says that there was none. */
  predicate IsPrevious(p: Presence, user: string, change: Change) {
    if change.had then
      IsIn(p, user, change.room) && p[change.room][user].audioOn == change.audioOn
    else
      change == NO_CHANGE && forall r :: r in p ==> user !in p[r]
  }

  ghost predicate Exclusive(p: Presence) {
    forall r1, r2, u :: IsIn(p, u, r1) && IsIn(p, u, r2) ==> r1 == r2
  }

  // ---------- mutations ----------

  function CreateRoom(s: Snapshot, user: string, room: string, name: string, stamp: Stamp): Result<Snapshot, Failure> {
    if room in Ids(s.rooms) then
      Ok(s)
    else if |s.rooms| >= MAX_ROOMS then
      Err(RoomsFull)
    else
      Ok(s.(rooms := s.rooms + [Room(room, name, user, stamp.at, stamp.generation)]))
  }

  function DeleteRoom(s: Snapshot, user: string, room: string, canManageAny: bool): Result<Snapshot, Failure> {
    if !canManageAny && exists x :: x in s.rooms && x.id == room && x.creator != user then
      Err(Forbidden)
    else
      Ok(Snapshot(Without(s.rooms, room), s.presence - {room}))
  }

  function SetPresence(s: Snapshot, user: string, room: string, audioOn: bool, now: int): Result<Snapshot, Failure> {
    var p := Vacated(s.presence, user, room);
    var users := Occupants(p, room);
    if room != "" && room !in Ids(s.rooms) then
      Err(RoomNotFound)
    else if room == "" then
      Ok(s.(presence := p))
    else if user !in users && |users| >= MAX_PER_ROOM then
      Err(RoomsFull)
    else
      Ok(s.(presence := p[room := users[user := Entry(now + PRESENCE_TTL, audioOn)]]))
  }

  function Mutated(s: Snapshot, op: Op, stamp: Stamp): Result<Snapshot, Failure> {
    match op
    case Create(user, room, name) => CreateRoom(s, user, room, name, stamp)
    case Delete(user, room, any) => DeleteRoom(s, user, room, any)
    case Move(user, room, audioOn) => SetPresence(s, user, room, audioOn, stamp.at)
  }

  function PrunedSnapshot(s: Snapshot, now: int): Snapshot {
    s.(presence := Pruned(s.presence, now))
  }

  /** One whole mutation: prune, run the closure, sort the rooms. */
  function Apply(s: Snapshot, op: Op, stamp: Stamp): Result<Snapshot, Failure> {
    match Mutated(PrunedSnapshot(s, stamp.pruneAt), op, stamp)
    case Ok(next) => Ok(next.(rooms := SortedRooms(next.rooms)))
    case Err(e) => Err(e)
  }

  // ---------- the whole-snapshot invariant ----------

  ghost predicate Consistent(s: Snapshot) {
    && DistinctIds(s.rooms)
    && |s.rooms| <= MAX_ROOMS
    && Exclusive(s.presence)
    && forall r :: r in s.presence ==>
         && r in Ids(s.rooms)
         && s.presence[r] != map[]
         && |s.presence[r]| <= MAX_PER_ROOM
  }

  lemma SubmapSize(a: Users, b: Users)
    requires a.Keys <= b.Keys
    ensures |a| <= |b|
  {
    SubsetSize(a.Keys, b.Keys);
  }

  lemma PruneKeepsConsistent(s: Snapshot, now: int)
    requires Consistent(s)
    ensures Consistent(PrunedSnapshot(s, now))
  {
    var p := Pruned(s.presence, now);
    forall r | r in p ensures |p[r]| <= MAX_PER_ROOM {
      SubmapSize(p[r], s.presence[r]);
    }
    forall r1, r2, u | IsIn(p, u, r1) && IsIn(p, u, r2) ensures r1 == r2 {
      assert IsIn(s.presence, u, r1) && IsIn(s.presence, u, r2);
    }
  }

  lemma VacatedMembers(p: Presence, user: string, room: string, u: string, r: string)
    ensures IsIn(Vacated(p, user, room), u, r) <==> IsIn(p, u, r) && (u != user || r == room)
  {
    if r in p && u in Kept(p, user, room, r) {
      assert Kept(p, user, room, r) != map[];
    }
  }

  lemma VacateKeepsConsistent(s: Snapshot, user: string, room: string)
    requires Consistent(s)
    ensures Consistent(s.(presence := Vacated(s.presence, user, room)))
  {
    var p := Vacated(s.presence, user, room);
    forall r | r in p ensures |p[r]| <= MAX_PER_ROOM {
      SubmapSize(p[r], s.presence[r]);
    }
    forall r1, r2, u | IsIn(p, u, r1) && IsIn(p, u, r2) ensures r1 == r2 {
      VacatedMembers(s.presence, user, room, u, r1);
      VacatedMembers(s.presence, user, room, u, r2);
    }
  }

  /** Putting a user who is in no other room into a room that has a place for them. */
  lemma EnterKeepsConsistent(s: Snapshot, user: string, room: string, entry: Entry)
    requires Consistent(s) && room in Ids(s.rooms)
    requires forall r :: IsIn(s.presence, user, r) ==> r == room
    requires user in Occupants(s.presence, room) || |Occupants(s.presence, room)| < MAX_PER_ROOM
    ensures Consistent(s.(presence := s.presence[room := Occupants(s.presence, room)[user := entry]]))
  {
    var users := Occupants(s.presence, room);
    var q := s.presence[room := users[user := entry]];
    assert users[user := entry].Keys == users.Keys + {user};
    forall r1, r2, u | IsIn(q, u, r1) && IsIn(q, u, r2) ensures r1 == r2 {
      assert u != user ==> IsIn(s.presence, u, r1) && IsIn(s.presence, u, r2);
      assert u == user && r1 != room ==> IsIn(s.presence, user, r1);
      assert u == user && r2 != room ==> IsIn(s.presence, user, r2);
    }
  }

  lemma MoveKeepsConsistent(s: Snapshot, user: string, room: string, audioOn: bool, now: int)
    requires Consistent(s) && SetPresence(s, user, room, audioOn, now).Ok?
    ensures Consistent(SetPresence(s, user, room, audioOn, now).value)
  {
    VacateKeepsConsistent(s, user, room);
    if room != "" {
      var t := s.(presence := Vacated(s.presence, user, room));
      forall r | IsIn(t.presence, user, r) ensures r == room {
        VacatedMembers(s.presence, user, room, user, r);
      }
      EnterKeepsConsistent(t, user, room, Entry(now + PRESENCE_TTL, audioOn));
    }
  }

  lemma DeleteKeepsConsistent(s: Snapshot, user: string, room: string, any: bool)
    requires Consistent(s) && DeleteRoom(s, user, room, any).Ok?
    ensures Consistent(DeleteRoom(s, user, room, any).value)
  {
    WithoutDistinct(s.rooms, room);
    WithoutMembers(s.rooms, room);
    var t := DeleteRoom(s, user, room, any).value;
    forall r1, r2, u | IsIn(t.presence, u, r1) && IsIn(t.presence, u, r2) ensures r1 == r2 {
      assert IsIn(s.presence, u, r1) && IsIn(s.presence, u, r2);
    }
    forall r | r in t.presence ensures r in Ids(t.rooms) {
      var x :| x in s.rooms && x.id == r;
      assert x in t.rooms;
    }
  }

  /** A move is refused exactly when it names an unknown room, or a full one the user is not already in. */
  lemma RefusalExact(s: Snapshot, user: string, room: string, audioOn: bool, now: int)
    ensures SetPresence(s, user, room, audioOn, now) == Err(RoomNotFound) <==> room != "" && room !in Ids(s.rooms)
    ensures SetPresence(s, user, room, audioOn, now) == Err(RoomsFull) <==>
              && room != "" && room in Ids(s.rooms)
              && user !in Occupants(s.presence, room) && |Occupants(s.presence, room)| >= MAX_PER_ROOM
  {
    var users := Occupants(s.presence, room);
    if users != map[] {
      assert Occupants(Vacated(s.presence, user, room), room) == users;
    }
  }

  /**
   A move that is not refused: the mover is in the room they named and in no other, with a fresh expiry and the
   microphone they announced; everybody else is where they were, and the rooms are the same.
   */
  lemma MoveExact(s: Snapshot, user: string, room: string, audioOn: bool, now: int, u: string, r: string)
    requires SetPresence(s, user, room, audioOn, now).Ok? && r != ""
    ensures var next := SetPresence(s, user, room, audioOn, now).value;
            && next.rooms == s.rooms
            && (IsIn(next.presence, u, r) <==> if u == user then r == room else IsIn(s.presence, u, r))
            && (IsIn(next.presence, u, r) ==>
                  next.presence[r][u] == if u == user then Entry(now + PRESENCE_TTL, audioOn) else s.presence[r][u])
  {
    VacatedMembers(s.presence, user, room, u, r);
  }

  /** A create that is not refused lists the room it names, once; a room that was there already stays as it is. */
  lemma CreateExact(s: Snapshot, user: string, room: string, name: string, stamp: Stamp)
    ensures var made := CreateRoom(s, user, room, name, stamp);
            && (made == Err(RoomsFull) <==> room !in Ids(s.rooms) && |s.rooms| >= MAX_ROOMS)
            && (made.Ok? ==>
                  && made.value.presence == s.presence && Ids(made.value.rooms) == Ids(s.rooms) + {room}
                  && (room in Ids(s.rooms) ==> made.value == s)
                  && forall x :: x in made.value.rooms <==>
                       x in s.rooms || (room !in Ids(s.rooms) && x == Room(room, name, user, stamp.at, stamp.generation)))
  {
  }

  /** A delete is refused exactly when somebody else's room may not be managed; else the room and its users are gone and the rest stays. */
  lemma DeleteExact(s: Snapshot, user: string, room: string, any: bool)
    ensures var made := DeleteRoom(s, user, room, any);
            && (made == Err(Forbidden) <==> !any && exists x :: x in s.rooms && x.id == room && x.creator != user)
            && (made.Ok? ==>
                  && (forall x :: x in made.value.rooms <==> x in s.rooms && x.id != room)
                  && room !in made.value.presence
                  && forall r :: r != room ==> (r in made.value.presence <==> r in s.presence)
                                               && (r in s.presence ==> made.value.presence[r] == s.presence[r]))
  {
    WithoutMembers(s.rooms, room);
  }

  lemma MutatedKeepsConsistent(s: Snapshot, op: Op, stamp: Stamp)
    requires Consistent(s) && Mutated(s, op, stamp).Ok?
    ensures Consistent(Mutated(s, op, stamp).value)
  {
    match op {
      case Create(user, room, name) => CreateKeepsConsistent(s, user, room, name, stamp);
      case Delete(user, room, any) => DeleteKeepsConsistent(s, user, room, any);
      case Move(user, room, audioOn) => MoveKeepsConsistent(s, user, room, audioOn, stamp.at);
    }
  }

  lemma CreateKeepsConsistent(s: Snapshot, user: string, room: string, name: string, stamp: Stamp)
    requires Consistent(s) && CreateRoom(s, user, room, name, stamp).Ok?
    ensures Consistent(CreateRoom(s, user, room, name, stamp).value)
  {
    var next := CreateRoom(s, user, room, name, stamp).value;
    assert forall x :: x in s.rooms ==> x in next.rooms;
    assert Ids(s.rooms) <= Ids(next.rooms);
  }

  lemma SortKeepsConsistent(s: Snapshot)
    requires Consistent(s)
    ensures Consistent(s.(rooms := SortedRooms(s.rooms)))
  {
    SortKeeps(s.rooms);
  }

  /** Every operation, on every consistent snapshot and at any times, stores a consistent and sorted one. */
  lemma ApplyKeepsConsistent(s: Snapshot, op: Op, stamp: Stamp)
    requires Consistent(s) && Apply(s, op, stamp).Ok?
    ensures Consistent(Apply(s, op, stamp).value)
    ensures Sorting.Sorted(RoomLe, Apply(s, op, stamp).value.rooms)
  {
    PruneKeepsConsistent(s, stamp.pruneAt);
    var s1 := PrunedSnapshot(s, stamp.pruneAt);
    MutatedKeepsConsistent(s1, op, stamp);
    var s2 := Mutated(s1, op, stamp).value;
    SortKeepsConsistent(s2);
    SortKeeps(s2.rooms);
  }

  // ---------- what a whole mutation does ----------

  /** `user` is in `room` with an entry that has not lapsed. */
  predicate IsLive(p: Presence, user: string, room: string, now: int) {
    IsIn(p, user, room) && p[room][user].expiresAt > now
  }

  /** Why the operation is refused on `s`, lapsed entries aside, if it is. */
  function RefusalOf(s: Snapshot, op: Op, now: int): Option<Failure> {
    match op
    case Create(_, room, _) =>
      if |s.rooms| >= 200 && forall x :: x in s.rooms ==> x.id != room then Some(RoomsFull) else None
    case Delete(user, room, any) =>
      if !any && exists x :: x in s.rooms && x.id == room && x.creator != user then Some(Forbidden) else None
    case Move(user, room, _) =>
      if room == "" then None
      else if forall x :: x in s.rooms ==> x.id != room then Some(RoomNotFound)
      else
        var live := set u | u in Occupants(s.presence, room) && IsLive(s.presence, u, room, now);
        if user !in live && |live| >= 100 then Some(RoomsFull) else None
  }

  lemma PrunedMembers(p: Presence, now: int, u: string, r: string)
    ensures IsIn(Pruned(p, now), u, r) <==> IsLive(p, u, r, now)
    ensures IsIn(Pruned(p, now), u, r) ==> Pruned(p, now)[r][u] == p[r][u]
  {
    if r in p && u in Live(p[r], now) {
      assert Live(p[r], now) != map[];
    }
  }

  lemma LiveOccupants(p: Presence, now: int, room: string)
    ensures Occupants(Pruned(p, now), room).Keys == set u | u in Occupants(p, room) && IsLive(p, u, room, now)
  {
    forall u ensures u in Occupants(Pruned(p, now), room) <==> u in Occupants(p, room) && IsLive(p, u, room, now) {
      PrunedMembers(p, now, u, room);
    }
  }

  /**
   A mutation is refused exactly when: it creates a room whose id is new while 200 are listed; it deletes somebody else's
   room without the right to manage any; or it moves into a room that is not listed, or that has 100 live users and not
   the mover among them.
   */
  lemma RefusedExactly(s: Snapshot, op: Op, stamp: Stamp, e: Failure)
    ensures Apply(s, op, stamp) == Err(e) <==> RefusalOf(s, op, stamp.pruneAt) == Some(e)
  {
    var s1 := PrunedSnapshot(s, stamp.pruneAt);
    match op {
      case Create(user, room, name) => CreateExact(s1, user, room, name, stamp);
      case Delete(user, room, any) => DeleteExact(s1, user, room, any);
      case Move(user, room, audioOn) =>
        RefusalExact(s1, user, room, audioOn, stamp.at);
        LiveOccupants(s.presence, stamp.pruneAt, room);
    }
  }

  /** Presence as it is left by an operation that only prunes it. */
  ghost predicate OnlyPruned(before: Presence, after: Presence, now: int) {
    forall u, r ::
      && (IsIn(after, u, r) <==> IsLive(before, u, r, now))
      && (IsIn(after, u, r) ==> after[r][u] == before[r][u])
  }

  /** A create that is not refused: the listed rooms are those there were and, if its id was new, the room as it was asked for. */
  lemma Created(s: Snapshot, user: string, room: string, name: string, stamp: Stamp)
    requires Apply(s, Create(user, room, name), stamp).Ok?
    ensures var next := Apply(s, Create(user, room, name), stamp).value;
            && OnlyPruned(s.presence, next.presence, stamp.pruneAt)
            && |next.rooms| == |s.rooms| + (if room in Ids(s.rooms) then 0 else 1)
            && forall x :: x in next.rooms <==>
                 x in s.rooms || (room !in Ids(s.rooms) && x == Room(room, name, user, stamp.at, stamp.generation))
  {
    var s1 := PrunedSnapshot(s, stamp.pruneAt);
    CreateExact(s1, user, room, name, stamp);
    SortKeeps(CreateRoom(s1, user, room, name, stamp).value.rooms);
    forall u, r ensures IsIn(s1.presence, u, r) <==> IsLive(s.presence, u, r, stamp.pruneAt) {
      PrunedMembers(s.presence, stamp.pruneAt, u, r);
    }
  }

  /** A delete that is not refused: the room is gone with everybody in it, and every other room and live entry stays. */
  lemma Deleted(s: Snapshot, user: string, room: string, any: bool, stamp: Stamp, u: string, r: string)
    requires Apply(s, Delete(user, room, any), stamp).Ok?
    ensures var next := Apply(s, Delete(user, room, any), stamp).value;
            && (forall x :: x in next.rooms <==> x in s.rooms && x.id != room)
            && (IsIn(next.presence, u, r) <==> r != room && IsLive(s.presence, u, r, stamp.pruneAt))
            && (IsIn(next.presence, u, r) ==> next.presence[r][u] == s.presence[r][u])
  {
    var s1 := PrunedSnapshot(s, stamp.pruneAt);
    DeleteExact(s1, user, room, any);
    SortKeeps(DeleteRoom(s1, user, room, any).value.rooms);
    PrunedMembers(s.presence, stamp.pruneAt, u, r);
  }

  /**
   A move that is not refused: the mover is in the room they named and in no other, for 45 seconds more and with the
   microphone they announced; everybody else's live entries, and the rooms, are the same.
   */
  lemma Moved(s: Snapshot, user: string, room: string, audioOn: bool, stamp: Stamp, u: string, r: string)
    requires Apply(s, Move(user, room, audioOn), stamp).Ok? && r != ""
    ensures var next := Apply(s, Move(user, room, audioOn), stamp).value;
            && |next.rooms| == |s.rooms| && (forall x :: x in next.rooms <==> x in s.rooms)
            && (IsIn(next.presence, u, r) <==> if u == user then r == room else IsLive(s.presence, u, r, stamp.pruneAt))
            && (IsIn(next.presence, u, r) ==>
                  next.presence[r][u] == if u == user then Entry(stamp.at + 45_000, audioOn) else s.presence[r][u])
  {
    var s1 := PrunedSnapshot(s, stamp.pruneAt);
    MoveExact(s1, user, room, audioOn, stamp.at, u, r);
    SortKeeps(s1.rooms);
    PrunedMembers(s.presence, stamp.pruneAt, u, r);
  }
}
