/**
 The presence and room handlers, one request at a time: the mutation of the voice channels and then
 the update of the signalling sessions that belong to them. Presence times are in milliseconds,
 session times in nanoseconds.
 */
module PresenceHandler {
  import opened Outcomes
  import opened VoiceDomain
  import opened VoiceDraft
  import Signals = SignalSessions
  import opened SignalStore
  import History = SessionHistory

  datatype State = State(domain: Snapshot, store: Signals.Store)

  // ---------- what a request leaves ----------

  /** syncVoiceRoomParticipants reads only which users it is given. */
  function Synced(st: Signals.Store, room: string, users: set<string>): Signals.Store {
    var id := Signals.RoomSession(st, room);
    if id == "" then st
    else if id !in st.sessions then st.(rooms := st.rooms - {room})
    else if users == {} then Signals.Store(st.sessions - {id}, st.rooms - {room})
    else st.(sessions := st.sessions[id := st.sessions[id].(participants := users)])
  }

  lemma SyncReadsMembers(st: Signals.Store, room: string, participants: seq<string>, users: set<string>)
    requires forall u :: u in participants <==> u in users
    ensures Signals.SyncVoiceRoom(st, room, participants) == Synced(st, room, users)
  {
    assert Signals.Members(participants) == users;
    if participants != [] {
      assert participants[0] in users;
    } else {
      assert users == {};
    }
  }

  function LiveUsers(p: Presence, room: string, now: int): set<string> {
    Live(Occupants(p, room), now).Keys
  }

  function SyncLive(st: Signals.Store, p: Presence, room: string, now: int): Signals.Store {
    if room == "" then st else Synced(st, room, LiveUsers(p, room, now))
  }

  /** The room a user is in, or "". */
  ghost function RoomOfUser(p: Presence, user: string): string {
    if exists r :: IsIn(p, user, r) then var r :| IsIn(p, user, r); r else ""
  }

  lemma PreviousIsRoomOfUser(p: Presence, user: string, change: Change)
    requires Exclusive(p) && IsPrevious(p, user, change)
    ensures change.room == RoomOfUser(p, user)
  {
    if exists r :: IsIn(p, user, r) {
      var r := RoomOfUser(p, user);
      assert IsIn(p, user, r);
    }
  }

  ghost function AfterPresence(s: State, user: string, room: string, audioOn: bool, stamp: Stamp, leftAt: int, enteredAt: int): State {
    match Apply(s.domain, Move(user, room, audioOn), stamp)
    case Err(_) => s
    case Ok(next) =>
      var left := RoomOfUser(Pruned(s.domain.presence, stamp.pruneAt), user);
      State(next, SyncLive(SyncLive(s.store, next.presence, left, leftAt), next.presence, room, enteredAt))
  }

  function AfterDelete(s: State, user: string, room: string, canManageAny: bool, stamp: Stamp): State {
    match Apply(s.domain, Delete(user, room, canManageAny), stamp)
    case Err(_) => s
    case Ok(next) => State(next, Synced(s.store, room, {}))
  }

  function AfterRoomSession(s: State, owner: string, room: string, callId: string, id: string, readAt: int, now: int, at: int): State {
    var p := Signals.Prune(s.store, now);
    var found := Signals.RoomSession(p, room);
    var users := LiveUsers(s.domain.presence, room, readAt);
    if owner !in users then
      s
    else if found != "" && found in p.sessions then
      s.(store := p.(sessions := p.sessions[found := p.sessions[found].(participants := users)]))
    else
      var session := Signals.Session(id, callId, owner, at + Signals.SESSION_TTL, users, room);
      s.(store := Signals.Store(p.sessions[id := session], p.rooms[room := id]))
  }

  /** The handlers themselves. The stored snapshot is read and written whole. */
  class Handlers {
    var domain: Snapshot
    const signals: SessionStore

    function Value(): State
      reads this, signals
    {
      State(domain, signals.Value())
    }

    constructor (s: Snapshot)
      ensures Value() == State(s, Signals.EMPTY)
      ensures fresh(signals)
    {
      domain := s;
      signals := new SessionStore();
    }

    method SyncRoom(room: string, now: int)
      modifies signals
      ensures signals.Value() == SyncLive(old(signals.Value()), domain.presence, room, now)
    {
      if room != "" {
        var participants := ActiveParticipants(domain.presence, room, now);
        SyncReadsMembers(signals.Value(), room, participants, LiveUsers(domain.presence, room, now));
        signals.SyncVoiceRoomParticipants(room, participants);
      }
    }

    /** handleVoicePresence; `leftAt` and `enteredAt` are when the two rooms' users are read back. */
    method Presence(user: string, room: string, audioOn: bool, stamp: Stamp, leftAt: int, enteredAt: int)
      returns (err: Option<Failure>)
      requires Consistent(domain)
      modifies this, signals
      ensures Value() == AfterPresence(old(Value()), user, room, audioOn, stamp, leftAt, enteredAt)
      ensures err == RefusalOf(old(domain), Move(user, room, audioOn), stamp.pruneAt)
    {
      PruneKeepsConsistent(domain, stamp.pruneAt);
      var draft := new Draft(domain);
      var change, departed;
      err, change, departed := draft.Attempt(Move(user, room, audioOn), stamp);
      if err != None {
        return;
      }
      PreviousIsRoomOfUser(Pruned(domain.presence, stamp.pruneAt), user, change);
      domain := draft.Value();
      SyncRoom(change.room, leftAt);
      SyncRoom(room, enteredAt);
    }

    /** handleVoiceRoomDelete. */
    method Delete(user: string, room: string, canManageAny: bool, stamp: Stamp) returns (err: Option<Failure>)
      modifies this, signals
      ensures Value() == AfterDelete(old(Value()), user, room, canManageAny, stamp)
      ensures err == if !canManageAny && exists x :: x in old(domain).rooms && x.id == room && x.creator != user
                     then Some(Forbidden) else None
    {
      var draft := new Draft(domain);
      var change, departed;
      err, change, departed := draft.Attempt(VoiceDomain.Delete(user, room, canManageAny), stamp);
      if err != None {
        return;
      }
      domain := draft.Value();
      SyncReadsMembers(signals.Value(), room, [], {});
      signals.SyncVoiceRoomParticipants(room, []);
    }

    /** The voice-room part of handleSignalSessionCreate. */
    method RoomSession(owner: string, room: string, callId: string, id: string, readAt: int, now: int, at: int)
      returns (ok: bool)
      requires Signals.Sound(signals.Value()) && room != ""
      modifies signals
      ensures Value() == AfterRoomSession(old(Value()), owner, room, callId, id, readAt, now, at)
      ensures ok <==> owner in LiveUsers(domain.presence, room, readAt)
    {
      var participants := ActiveParticipants(domain.presence, room, readAt);
      if owner !in participants {
        return false;
      }
      assert Signals.Members(participants) == LiveUsers(domain.presence, room, readAt);
      var r := signals.ForVoiceRoom(owner, room, callId, participants, id, now, at);
      return r.Ok?;
    }
  }

  // ---------- one request ----------

  lemma SyncedSound(st: Signals.Store, room: string, users: set<string>)
    requires Signals.Sound(st)
    ensures Signals.Sound(Synced(st, room, users))
  {
    Signals.FewerBounded(st, Synced(st, room, users));
  }

  /** The index entry of `r` and its session are the same in both stores. */
  ghost predicate SameRoom(a: Signals.Store, b: Signals.Store, r: string) {
    && (r in a.rooms <==> r in b.rooms)
    && (r in a.rooms ==> a.rooms[r] == b.rooms[r])
    && (r in a.rooms && a.rooms[r] in a.sessions ==> a.rooms[r] in b.sessions && a.sessions[a.rooms[r]] == b.sessions[b.rooms[r]])
  }

  /** The session of `r`, if `before` had one, is now exactly `users`', and is gone when there are none. */
  ghost predicate ExactlyFor(before: Signals.Store, after: Signals.Store, r: string, users: set<string>) {
    && (r in after.rooms <==> r in before.rooms && users != {})
    && (r in after.rooms ==>
          && after.rooms[r] == before.rooms[r] && after.rooms[r] in after.sessions
          && after.sessions[after.rooms[r]].participants == users
          && after.rooms[r] in before.sessions
          && after.sessions[after.rooms[r]].expiresAt == before.sessions[after.rooms[r]].expiresAt)
  }

  lemma SyncedExact(st: Signals.Store, room: string, users: set<string>)
    requires Signals.Sound(st)
    ensures ExactlyFor(st, Synced(st, room, users), room, users)
    ensures forall r :: r != room ==> SameRoom(st, Synced(st, room, users), r)
    ensures forall id :: id in st.sessions && st.sessions[id].room != room ==>
                           id in Synced(st, room, users).sessions && Synced(st, room, users).sessions[id] == st.sessions[id]
  {
  }

  lemma LiveShrinks(p: Presence, room: string, t: int, later: int)
    requires t <= later
    ensures LiveUsers(p, room, later) <= LiveUsers(p, room, t)
  {
  }

  /** The room left and the room entered end up authorizing exactly their live users, or with no session. */
  lemma PresenceSyncs(s: State, user: string, room: string, audioOn: bool, stamp: Stamp, leftAt: int, enteredAt: int, r: string)
    requires Signals.Sound(s.store) && leftAt <= enteredAt && r != ""
    requires Apply(s.domain, Move(user, room, audioOn), stamp).Ok?
    requires r == room || r == RoomOfUser(Pruned(s.domain.presence, stamp.pruneAt), user)
    ensures var after := AfterPresence(s, user, room, audioOn, stamp, leftAt, enteredAt);
            && Signals.Sound(after.store)
            && ExactlyFor(s.store, after.store, r, LiveUsers(after.domain.presence, r, if r == room then enteredAt else leftAt))
  {
    var p := Apply(s.domain, Move(user, room, audioOn), stamp).value.presence;
    var left := RoomOfUser(Pruned(s.domain.presence, stamp.pruneAt), user);
    var mid := SyncLive(s.store, p, left, leftAt);
    SyncedSound(s.store, left, LiveUsers(p, left, leftAt));
    SyncedExact(s.store, left, LiveUsers(p, left, leftAt));
    SyncedSound(mid, room, LiveUsers(p, room, enteredAt));
    SyncedExact(mid, room, LiveUsers(p, room, enteredAt));
    LiveShrinks(p, room, leftAt, enteredAt);
  }

  /** A presence request touches no other room's session and no direct-call session. */
  lemma PresenceFrame(s: State, user: string, room: string, audioOn: bool, stamp: Stamp, leftAt: int, enteredAt: int, r: string)
    requires Signals.Sound(s.store) && r != room && r != RoomOfUser(Pruned(s.domain.presence, stamp.pruneAt), user)
    ensures var after := AfterPresence(s, user, room, audioOn, stamp, leftAt, enteredAt);
            && SameRoom(s.store, after.store, r)
            && forall id :: id in s.store.sessions && s.store.sessions[id].room == r ==>
                              id in after.store.sessions && after.store.sessions[id] == s.store.sessions[id]
  {
    var result := Apply(s.domain, Move(user, room, audioOn), stamp);
    if result.Ok? {
      var p := result.value.presence;
      var left := RoomOfUser(Pruned(s.domain.presence, stamp.pruneAt), user);
      var mid := SyncLive(s.store, p, left, leftAt);
      SyncedSound(s.store, left, LiveUsers(p, left, leftAt));
      SyncedExact(s.store, left, LiveUsers(p, left, leftAt));
      SyncedExact(mid, room, LiveUsers(p, room, enteredAt));
    }
  }

  /** A deleted room has no session, and the other rooms keep theirs. */
  lemma DeleteSyncs(s: State, user: string, room: string, canManageAny: bool, stamp: Stamp)
    requires Signals.Sound(s.store) && room != ""
    requires Apply(s.domain, Delete(user, room, canManageAny), stamp).Ok?
    ensures var after := AfterDelete(s, user, room, canManageAny, stamp);
            && Signals.Sound(after.store)
            && room !in Ids(after.domain.rooms) && room !in after.store.rooms
            && (forall id :: id in after.store.sessions ==> after.store.sessions[id].room != room)
            && forall r :: r != room ==> SameRoom(s.store, after.store, r)
  {
    var pruned := PrunedSnapshot(s.domain, stamp.pruneAt);
    SyncedSound(s.store, room, {});
    SyncedExact(s.store, room, {});
    WithoutMembers(pruned.rooms, room);
    SortKeeps(Without(pruned.rooms, room));
  }

  /**
   Asking for a room's session: refused without a trace unless the caller is live in the room; else the room has an
   unexpired session whose participants are exactly its live users, and every other unexpired session stays as it is.
   */
  lemma RoomSessionExactly(s: State, owner: string, room: string, callId: string, id: string, readAt: int, now: int, at: int)
    requires Signals.Sound(s.store) && room != "" && id != "" && id !in s.store.sessions && now <= at
    ensures var (after, users) := (AfterRoomSession(s, owner, room, callId, id, readAt, now, at), LiveUsers(s.domain.presence, room, readAt));
            && after.domain == s.domain
            && (if owner !in users then after == s
                else && room in after.store.rooms && after.store.rooms[room] in after.store.sessions
                     && after.store.sessions[after.store.rooms[room]].participants == users
                     && after.store.sessions[after.store.rooms[room]].expiresAt > now
                     && (after.store.rooms[room] != id ==> room in s.store.rooms && s.store.rooms[room] == after.store.rooms[room])
                     && forall x :: x in s.store.sessions && s.store.sessions[x].room != room && s.store.sessions[x].expiresAt > now ==>
                          x in after.store.sessions && after.store.sessions[x] == s.store.sessions[x])
  {
    Signals.PruneSound(s.store, now);
  }

  /** What the synchronised participants mean: an unexpired session lets in those users and nobody else. */
  lemma AuthorizesExactly(st: Signals.Store, r: string, user: string, now: int)
    requires Signals.Sound(st) && r in st.rooms && st.sessions[st.rooms[r]].expiresAt > now
    ensures Signals.Authorize(st, st.rooms[r], "", user, now).1 <==> user in st.sessions[st.rooms[r]].participants
  {
  }

  // ---------- runs of requests ----------

  datatype Request =
    | PresenceRequest(user: string, room: string, audioOn: bool, stamp: Stamp, leftAt: int, enteredAt: int)
    | DeleteRequest(user: string, room: string, canManageAny: bool, stamp: Stamp)
    | CreateRequest(user: string, room: string, name: string, stamp: Stamp)
    | SessionRequest(owner: string, room: string, callId: string, id: string, readAt: int, now: int, at: int)
    | DirectRequest(call: History.Call)

  ghost function Serve(s: State, q: Request): State {
    match q
    case PresenceRequest(user, room, audioOn, stamp, leftAt, enteredAt) => AfterPresence(s, user, room, audioOn, stamp, leftAt, enteredAt)
    case DeleteRequest(user, room, any, stamp) => AfterDelete(s, user, room, any, stamp)
    case CreateRequest(user, room, name, stamp) =>
      var r := Apply(s.domain, Create(user, room, name), stamp);
      if r.Ok? then s.(domain := r.value) else s
    case SessionRequest(owner, room, callId, id, readAt, now, at) => AfterRoomSession(s, owner, room, callId, id, readAt, now, at)
    case DirectRequest(call) => s.(store := History.Next(s.store, call))
  }

  /** What the handlers check and the generators promise, for a request served between `from` and `to`. */
  ghost predicate Served(s: State, q: Request, from: int, to: int) {
    from <= to && match q
    case PresenceRequest(_, _, _, stamp, leftAt, enteredAt) => from <= stamp.pruneAt <= stamp.at <= leftAt <= enteredAt <= to
    case DeleteRequest(_, room, _, stamp) => room != "" && from <= stamp.pruneAt <= stamp.at <= to
    case CreateRequest(_, room, _, stamp) => room != "" && from <= stamp.pruneAt <= stamp.at <= to
    case SessionRequest(_, room, _, id, readAt, _, _) => room != "" && id != "" && id !in s.store.sessions && from <= readAt <= to
    case DirectRequest(call) => !call.RoomCall? && !call.SyncCall? && (call.CreateCall? ==> call.id != "" && call.id !in s.store.sessions)
  }

  /** The session of `r`, if there is one, belongs to a listed room and lets in every user live there. */
  ghost predicate AdmitsAt(s: State, r: string, now: int) {
    r in s.store.rooms ==>
      && r in Ids(s.domain.rooms) && s.store.rooms[r] in s.store.sessions
      && LiveUsers(s.domain.presence, r, now) <= s.store.sessions[s.store.rooms[r]].participants
  }

  ghost predicate Admits(s: State, now: int) {
    forall r :: AdmitsAt(s, r, now)
  }

  ghost predicate Inv(s: State, now: int) {
    Consistent(s.domain) && Signals.Sound(s.store) && Admits(s, now)
  }

  /** A room whose session is untouched, and whose users are only fewer, still admits them. */
  lemma AdmitsLater(s: State, next: State, r: string, from: int, to: int)
    requires AdmitsAt(s, r, from)
    requires r in next.store.rooms ==> r in s.store.rooms && SameRoom(s.store, next.store, r) && r in Ids(next.domain.rooms)
    requires LiveUsers(next.domain.presence, r, to) <= LiveUsers(s.domain.presence, r, from)
    ensures AdmitsAt(next, r, to)
  {
  }

  lemma SetElsewhere(s: Snapshot, user: string, room: string, audioOn: bool, now: int, r: string)
    requires r != room && SetPresence(s, user, room, audioOn, now).Ok?
    ensures var (p, vacated) := (SetPresence(s, user, room, audioOn, now).value.presence, Vacated(s.presence, user, room));
            (r in p <==> r in vacated) && (r in p ==> p[r] == vacated[r])
  {
  }

  lemma MoveElsewherePresence(s: Snapshot, user: string, room: string, audioOn: bool, stamp: Stamp, r: string)
    requires r != room && Apply(s, Move(user, room, audioOn), stamp).Ok?
    ensures var (p, vacated) := (Apply(s, Move(user, room, audioOn), stamp).value.presence, Vacated(Pruned(s.presence, stamp.pruneAt), user, room));
            (r in p <==> r in vacated) && (r in p ==> p[r] == vacated[r])
  {
    var pruned := PrunedSnapshot(s, stamp.pruneAt);
    SetElsewhere(pruned, user, room, audioOn, stamp.at, r);
    assert Mutated(pruned, Move(user, room, audioOn), stamp) == SetPresence(pruned, user, room, audioOn, stamp.at);
    assert Apply(s, Move(user, room, audioOn), stamp).value.presence == SetPresence(pruned, user, room, audioOn, stamp.at).value.presence;
  }

  lemma VacatedElsewhere(p: Presence, user: string, room: string, at: int, r: string, u: string)
    requires r != room
    ensures var vacated := Vacated(Pruned(p, at), user, room);
            && (IsIn(vacated, u, r) <==> u != user && IsIn(Pruned(p, at), u, r))
            && (IsIn(vacated, u, r) ==> IsIn(p, u, r) && vacated[r][u] == p[r][u])
  {
    VacatedMembers(Pruned(p, at), user, room, u, r);
  }

  /** A move adds nobody to a room other than its destination, and takes only the mover out of the others. */
  lemma MoveElsewhere(s: Snapshot, user: string, room: string, audioOn: bool, stamp: Stamp, r: string, u: string)
    requires r != room && Apply(s, Move(user, room, audioOn), stamp).Ok?
    ensures var p := Apply(s, Move(user, room, audioOn), stamp).value.presence;
            && (IsIn(p, u, r) <==> u != user && IsIn(Pruned(s.presence, stamp.pruneAt), u, r))
            && (IsIn(p, u, r) ==> IsIn(s.presence, u, r) && p[r][u] == s.presence[r][u])
  {
    MoveElsewherePresence(s, user, room, audioOn, stamp, r);
    VacatedElsewhere(s.presence, user, room, stamp.pruneAt, r, u);
  }

  lemma MoveElsewhereLive(s: Snapshot, user: string, room: string, audioOn: bool, stamp: Stamp, r: string, from: int, to: int)
    requires r != room && Apply(s, Move(user, room, audioOn), stamp).Ok? && from <= to
    ensures LiveUsers(Apply(s, Move(user, room, audioOn), stamp).value.presence, r, to) <= LiveUsers(s.presence, r, from)
  {
    var p := Apply(s, Move(user, room, audioOn), stamp).value.presence;
    forall u | u in LiveUsers(p, r, to) ensures u in LiveUsers(s.presence, r, from) {
      MoveElsewhere(s, user, room, audioOn, stamp, r, u);
    }
  }

  lemma MoveKeepsRooms(s: Snapshot, user: string, room: string, audioOn: bool, stamp: Stamp)
    requires Apply(s, Move(user, room, audioOn), stamp).Ok?
    ensures Ids(Apply(s, Move(user, room, audioOn), stamp).value.rooms) == Ids(s.rooms)
  {
    SortKeeps(s.rooms);
  }

  lemma PresenceSound(s: State, user: string, room: string, audioOn: bool, stamp: Stamp, leftAt: int, enteredAt: int)
    requires Signals.Sound(s.store)
    ensures Signals.Sound(AfterPresence(s, user, room, audioOn, stamp, leftAt, enteredAt).store)
  {
    var result := Apply(s.domain, Move(user, room, audioOn), stamp);
    if result.Ok? {
      var p := result.value.presence;
      var left := RoomOfUser(Pruned(s.domain.presence, stamp.pruneAt), user);
      SyncedSound(s.store, left, LiveUsers(p, left, leftAt));
      SyncedSound(SyncLive(s.store, p, left, leftAt), room, LiveUsers(p, room, enteredAt));
    }
  }

  lemma PresenceAdmits(s: State, user: string, room: string, audioOn: bool, stamp: Stamp, leftAt: int, enteredAt: int, from: int, to: int, r: string)
    requires Signals.Sound(s.store) && AdmitsAt(s, r, from)
    requires Served(s, PresenceRequest(user, room, audioOn, stamp, leftAt, enteredAt), from, to)
    requires Apply(s.domain, Move(user, room, audioOn), stamp).Ok?
    ensures AdmitsAt(AfterPresence(s, user, room, audioOn, stamp, leftAt, enteredAt), r, to)
  {
    var after := AfterPresence(s, user, room, audioOn, stamp, leftAt, enteredAt);
    var left := RoomOfUser(Pruned(s.domain.presence, stamp.pruneAt), user);
    PresenceSound(s, user, room, audioOn, stamp, leftAt, enteredAt);
    MoveKeepsRooms(s.domain, user, room, audioOn, stamp);
    if r in after.store.rooms {
      if r == room || r == left {
        PresenceSyncs(s, user, room, audioOn, stamp, leftAt, enteredAt, r);
        LiveShrinks(after.domain.presence, r, if r == room then enteredAt else leftAt, to);
      } else {
        PresenceFrame(s, user, room, audioOn, stamp, leftAt, enteredAt, r);
        MoveElsewhereLive(s.domain, user, room, audioOn, stamp, r, from, to);
        AdmitsLater(s, after, r, from, to);
      }
    }
  }

  lemma PresenceKeeps(s: State, user: string, room: string, audioOn: bool, stamp: Stamp, leftAt: int, enteredAt: int, from: int, to: int)
    requires Inv(s, from) && Served(s, PresenceRequest(user, room, audioOn, stamp, leftAt, enteredAt), from, to)
    ensures Inv(AfterPresence(s, user, room, audioOn, stamp, leftAt, enteredAt), to)
  {
    var after := AfterPresence(s, user, room, audioOn, stamp, leftAt, enteredAt);
    if Apply(s.domain, Move(user, room, audioOn), stamp).Ok? {
      ApplyKeepsConsistent(s.domain, Move(user, room, audioOn), stamp);
      PresenceSound(s, user, room, audioOn, stamp, leftAt, enteredAt);
      forall r ensures AdmitsAt(after, r, to) {
        PresenceAdmits(s, user, room, audioOn, stamp, leftAt, enteredAt, from, to, r);
      }
    } else {
      StillAdmits(s, from, to);
    }
  }

  lemma StillAdmits(s: State, from: int, to: int)
    requires Admits(s, from) && from <= to
    ensures Admits(s, to)
  {
    forall r ensures AdmitsAt(s, r, to) {
      LiveShrinks(s.domain.presence, r, from, to);
      AdmitsLater(s, s, r, from, to);
    }
  }

  lemma DeleteRooms(s: Snapshot, user: string, room: string, any: bool, stamp: Stamp, r: string)
    requires Apply(s, Delete(user, room, any), stamp).Ok?
    ensures var next := Apply(s, Delete(user, room, any), stamp).value;
            && (r in Ids(next.rooms) <==> r in Ids(s.rooms) && r != room)
            && next.presence == Pruned(s.presence, stamp.pruneAt) - {room}
  {
    WithoutMembers(s.rooms, room);
    SortKeeps(Without(s.rooms, room));
    if r in Ids(s.rooms) && r != room {
      var x :| x in s.rooms && x.id == r;
      assert x in Without(s.rooms, room);
    }
  }

  lemma DeleteAdmits(s: State, user: string, room: string, any: bool, stamp: Stamp, from: int, to: int, r: string)
    requires Signals.Sound(s.store) && AdmitsAt(s, r, from) && room != "" && from <= to
    requires Apply(s.domain, Delete(user, room, any), stamp).Ok?
    ensures AdmitsAt(AfterDelete(s, user, room, any, stamp), r, to)
  {
    var after := AfterDelete(s, user, room, any, stamp);
    SyncedExact(s.store, room, {});
    DeleteRooms(s.domain, user, room, any, stamp, r);
    if r in after.store.rooms {
      AdmitsLater(s, after, r, from, to);
    }
  }

  lemma DeleteKeeps(s: State, user: string, room: string, any: bool, stamp: Stamp, from: int, to: int)
    requires Inv(s, from) && Served(s, DeleteRequest(user, room, any, stamp), from, to)
    ensures Inv(AfterDelete(s, user, room, any, stamp), to)
  {
    var after := AfterDelete(s, user, room, any, stamp);
    if Apply(s.domain, Delete(user, room, any), stamp).Ok? {
      ApplyKeepsConsistent(s.domain, Delete(user, room, any), stamp);
      DeleteSyncs(s, user, room, any, stamp);
      forall r ensures AdmitsAt(after, r, to) {
        DeleteAdmits(s, user, room, any, stamp, from, to, r);
      }
    } else {
      StillAdmits(s, from, to);
    }
  }

  lemma CreateAdmits(s: State, user: string, room: string, name: string, stamp: Stamp, from: int, to: int, r: string)
    requires AdmitsAt(s, r, from) && from <= to
    requires Apply(s.domain, Create(user, room, name), stamp).Ok?
    ensures AdmitsAt(Serve(s, CreateRequest(user, room, name, stamp)), r, to)
  {
    var after := Serve(s, CreateRequest(user, room, name, stamp));
    var edited := Mutated(PrunedSnapshot(s.domain, stamp.pruneAt), Create(user, room, name), stamp).value;
    SortKeeps(edited.rooms);
    if r in after.store.rooms {
      var x :| x in s.domain.rooms && x.id == r;
      assert x in edited.rooms;
      AdmitsLater(s, after, r, from, to);
    }
  }

  lemma CreateKeeps(s: State, user: string, room: string, name: string, stamp: Stamp, from: int, to: int)
    requires Inv(s, from) && Served(s, CreateRequest(user, room, name, stamp), from, to)
    ensures Inv(Serve(s, CreateRequest(user, room, name, stamp)), to)
  {
    if Apply(s.domain, Create(user, room, name), stamp).Ok? {
      ApplyKeepsConsistent(s.domain, Create(user, room, name), stamp);
      forall r ensures AdmitsAt(Serve(s, CreateRequest(user, room, name, stamp)), r, to) {
        CreateAdmits(s, user, room, name, stamp, from, to, r);
      }
    } else {
      StillAdmits(s, from, to);
    }
  }

  /** A change to the store that leaves every remaining room's session as it was. */
  lemma StoreChangeKeeps(s: State, next: State, from: int, to: int)
    requires Inv(s, from) && from <= to && next.domain == s.domain && Signals.Sound(next.store)
    requires forall r :: r in next.store.rooms ==> r in s.store.rooms && SameRoom(s.store, next.store, r)
    ensures Inv(next, to)
  {
    forall r ensures AdmitsAt(next, r, to) {
      assert AdmitsAt(s, r, from);
      LiveShrinks(s.domain.presence, r, from, to);
    }
  }

  lemma SessionKeeps(s: State, owner: string, room: string, callId: string, id: string, readAt: int, now: int, at: int, from: int, to: int)
    requires Inv(s, from) && Served(s, SessionRequest(owner, room, callId, id, readAt, now, at), from, to)
    ensures Inv(AfterRoomSession(s, owner, room, callId, id, readAt, now, at), to)
  {
    var users := LiveUsers(s.domain.presence, room, readAt);
    var after := AfterRoomSession(s, owner, room, callId, id, readAt, now, at);
    if owner !in users {
      StillAdmits(s, from, to);
    } else {
      var pruned := s.(store := Signals.Prune(s.store, now));
      Signals.PruneSound(s.store, now);
      StoreChangeKeeps(s, pruned, from, to);
      SessionSound(s, owner, room, callId, id, readAt, now, at);
      forall r ensures AdmitsAt(after, r, to) {
        assert AdmitsAt(pruned, r, to);
        if r == room {
          LiveShrinks(s.domain.presence, room, readAt, to);
          assert IsIn(s.domain.presence, owner, room);
        }
      }
    }
  }

  lemma SessionSound(s: State, owner: string, room: string, callId: string, id: string, readAt: int, now: int, at: int)
    requires Signals.Sound(s.store) && room != "" && id != "" && id !in s.store.sessions
    ensures Signals.Sound(AfterRoomSession(s, owner, room, callId, id, readAt, now, at).store)
  {
    if owner in LiveUsers(s.domain.presence, room, readAt) {
      var p := Signals.Prune(s.store, now);
      Signals.PruneSound(s.store, now);
      assert Signals.RoomSession(p, room) != "" ==> p.sessions[Signals.RoomSession(p, room)].room == room;
      Signals.FewerBounded(p, AfterRoomSession(s, owner, room, callId, id, readAt, now, at).store);
    }
  }

  lemma DirectKeeps(s: State, call: History.Call, from: int, to: int)
    requires Inv(s, from) && Served(s, DirectRequest(call), from, to)
    ensures Inv(Serve(s, DirectRequest(call)), to)
  {
    match call {
      case CreateCall(owner, callId, participants, id, at, now) =>
        Signals.CreateSound(s.store, owner, callId, participants, id, at, now);
      case AuthorizeCall(_, _, _, now) =>
        Signals.PruneSound(s.store, now);
      case CloseCall(id, owner) =>
        Signals.CloseSound(s.store, id, owner);
    }
    StoreChangeKeeps(s, Serve(s, DirectRequest(call)), from, to);
  }

  lemma ServeKeeps(s: State, q: Request, from: int, to: int)
    requires Inv(s, from) && Served(s, q, from, to)
    ensures Inv(Serve(s, q), to)
  {
    match q {
      case PresenceRequest(user, room, audioOn, stamp, leftAt, enteredAt) =>
        PresenceKeeps(s, user, room, audioOn, stamp, leftAt, enteredAt, from, to);
      case DeleteRequest(user, room, any, stamp) => DeleteKeeps(s, user, room, any, stamp, from, to);
      case CreateRequest(user, room, name, stamp) => CreateKeeps(s, user, room, name, stamp, from, to);
      case SessionRequest(owner, room, callId, id, readAt, now, at) => SessionKeeps(s, owner, room, callId, id, readAt, now, at, from, to);
      case DirectRequest(call) => DirectKeeps(s, call, from, to);
    }
  }

  /** A run of requests, one at a time: request `k` is served between `times[k]` and `times[k + 1]`. */
  ghost predicate Run(s: State, qs: seq<Request>, times: seq<int>)
    requires |times| == |qs| + 1
    decreases |qs|
  {
    qs == [] || (Served(s, qs[0], times[0], times[1]) && Run(Serve(s, qs[0]), qs[1..], times[1..]))
  }

  ghost function AfterRun(s: State, qs: seq<Request>): State
    decreases |qs|
  {
    if qs == [] then s else AfterRun(Serve(s, qs[0]), qs[1..])
  }

  /**
   After every run, a voice-room session belongs to a room that is still listed, is found through the
   index, and lets in every user who is live in that room.
   */
  lemma {:induction false} LiveUsersAreAdmitted(s: State, qs: seq<Request>, times: seq<int>)
    requires |times| == |qs| + 1 && Inv(s, times[0]) && Run(s, qs, times)
    ensures Inv(AfterRun(s, qs), times[|qs|])
    decreases |qs|
  {
    if qs != [] {
      ServeKeeps(s, qs[0], times[0], times[1]);
      LiveUsersAreAdmitted(Serve(s, qs[0]), qs[1..], times[1..]);
    }
  }

  // ---------- who is let in without being live ----------

  /** A participant of the session of `r` who is not live in the room. */
  ghost predicate Stranded(s: State, r: string, user: string, now: int) {
    && r in s.store.rooms && s.store.rooms[r] in s.store.sessions
    && user in s.store.sessions[s.store.rooms[r]].participants
    && user !in LiveUsers(s.domain.presence, r, now)
  }

  lemma PreviousUnique(s: Snapshot, at: int, user: string, r: string)
    requires Consistent(s) && IsIn(Pruned(s.presence, at), user, r)
    ensures RoomOfUser(Pruned(s.presence, at), user) == r
  {
    PruneKeepsConsistent(s, at);
    var q :| IsIn(Pruned(s.presence, at), user, q) && q == RoomOfUser(Pruned(s.presence, at), user);
  }

  predicate HasLapsed(p: Presence, r: string, user: string, now: int) {
    IsIn(p, user, r) && p[r][user].expiresAt <= now
  }

  /** In the two rooms that are synchronised, only an entry that lapses after the read can strand its user. */
  lemma SyncedStrands(s: State, user: string, room: string, audioOn: bool, stamp: Stamp, leftAt: int, enteredAt: int, to: int, r: string, u: string)
    requires Signals.Sound(s.store) && leftAt <= enteredAt && r != ""
    requires Apply(s.domain, Move(user, room, audioOn), stamp).Ok?
    requires r == room || r == RoomOfUser(Pruned(s.domain.presence, stamp.pruneAt), user)
    requires Stranded(AfterPresence(s, user, room, audioOn, stamp, leftAt, enteredAt), r, u, to)
    ensures HasLapsed(AfterPresence(s, user, room, audioOn, stamp, leftAt, enteredAt).domain.presence, r, u, to)
  {
    PresenceSyncs(s, user, room, audioOn, stamp, leftAt, enteredAt, r);
  }

  lemma PresenceStrands(s: State, user: string, room: string, audioOn: bool, stamp: Stamp, leftAt: int, enteredAt: int,
                        from: int, to: int, r: string, u: string)
    requires Inv(s, from) && Served(s, PresenceRequest(user, room, audioOn, stamp, leftAt, enteredAt), from, to)
    requires Apply(s.domain, Move(user, room, audioOn), stamp).Ok?
    requires Stranded(AfterPresence(s, user, room, audioOn, stamp, leftAt, enteredAt), r, u, to)
    ensures || HasLapsed(AfterPresence(s, user, room, audioOn, stamp, leftAt, enteredAt).domain.presence, r, u, to)
            || HasLapsed(s.domain.presence, r, u, to)
            || Stranded(s, r, u, from)
  {
    var after := AfterPresence(s, user, room, audioOn, stamp, leftAt, enteredAt);
    var pruned := Pruned(s.domain.presence, stamp.pruneAt);
    PresenceSound(s, user, room, audioOn, stamp, leftAt, enteredAt);
    assert r != "";
    if r == room || r == RoomOfUser(pruned, user) {
      SyncedStrands(s, user, room, audioOn, stamp, leftAt, enteredAt, to, r, u);
    } else {
      PresenceFrame(s, user, room, audioOn, stamp, leftAt, enteredAt, r);
      MoveElsewhere(s.domain, user, room, audioOn, stamp, r, u);
      if IsIn(pruned, user, r) {
        PreviousUnique(s.domain, stamp.pruneAt, user, r);
      }
      assert AdmitsAt(s, r, from);
      UntouchedStrands(s, after, from, to, r, u);
    }
  }

  /** Where the room's session is untouched and nobody who is live has been taken out. */
  lemma UntouchedStrands(s: State, next: State, from: int, to: int, r: string, u: string)
    requires from <= to && Stranded(next, r, u, to)
    requires r in s.store.rooms && s.store.rooms[r] in s.store.sessions && SameRoom(s.store, next.store, r)
    requires u in LiveUsers(s.domain.presence, r, to) ==> u in LiveUsers(next.domain.presence, r, to)
    ensures HasLapsed(s.domain.presence, r, u, to) || Stranded(s, r, u, from)
  {
    assert IsIn(s.domain.presence, u, r) || u !in LiveUsers(s.domain.presence, r, from);
  }

  lemma DeleteStrands(s: State, user: string, room: string, any: bool, stamp: Stamp, from: int, to: int, r: string, u: string)
    requires Inv(s, from) && Served(s, DeleteRequest(user, room, any, stamp), from, to)
    requires Stranded(AfterDelete(s, user, room, any, stamp), r, u, to)
    ensures HasLapsed(s.domain.presence, r, u, to) || Stranded(s, r, u, from)
  {
    assert AdmitsAt(s, r, from);
    if Apply(s.domain, Delete(user, room, any), stamp).Ok? {
      SyncedExact(s.store, room, {});
      DeleteRooms(s.domain, user, room, any, stamp, r);
    }
    UntouchedStrands(s, AfterDelete(s, user, room, any, stamp), from, to, r, u);
  }

  lemma PrunedLive(p: Presence, at: int, r: string, to: int)
    requires at <= to
    ensures LiveUsers(Pruned(p, at), r, to) == LiveUsers(p, r, to)
  {
  }

  lemma CreateStrands(s: State, user: string, room: string, name: string, stamp: Stamp, from: int, to: int, r: string, u: string)
    requires AdmitsAt(s, r, from) && from <= stamp.pruneAt <= to
    requires Stranded(Serve(s, CreateRequest(user, room, name, stamp)), r, u, to)
    ensures HasLapsed(s.domain.presence, r, u, to) || Stranded(s, r, u, from)
  {
    PrunedLive(s.domain.presence, stamp.pruneAt, r, to);
    CreatePresence(s, user, room, name, stamp);
    UntouchedStrands(s, Serve(s, CreateRequest(user, room, name, stamp)), from, to, r, u);
  }

  lemma CreatePresence(s: State, user: string, room: string, name: string, stamp: Stamp)
    ensures var after := Serve(s, CreateRequest(user, room, name, stamp));
            && after.store == s.store
            && (after.domain.presence == Pruned(s.domain.presence, stamp.pruneAt) || after.domain.presence == s.domain.presence)
  {
  }

  lemma SessionStrands(s: State, owner: string, room: string, callId: string, id: string, readAt: int, now: int, at: int,
                       from: int, to: int, r: string, u: string)
    requires Inv(s, from) && Served(s, SessionRequest(owner, room, callId, id, readAt, now, at), from, to)
    requires Stranded(AfterRoomSession(s, owner, room, callId, id, readAt, now, at), r, u, to)
    ensures HasLapsed(s.domain.presence, r, u, to) || Stranded(s, r, u, from)
  {
    var after := AfterRoomSession(s, owner, room, callId, id, readAt, now, at);
    assert AdmitsAt(s, r, from);
    Signals.PruneSound(s.store, now);
    SessionSound(s, owner, room, callId, id, readAt, now, at);
    if r == room && owner in LiveUsers(s.domain.presence, room, readAt) {
      assert u in LiveUsers(s.domain.presence, room, readAt);
    } else {
      SessionElsewhere(s, owner, room, callId, id, readAt, now, at, r);
      UntouchedStrands(s, after, from, to, r, u);
    }
  }

  /** Opening a room's session leaves the sessions of the other rooms as they are, unless they have run out. */
  lemma SessionElsewhere(s: State, owner: string, room: string, callId: string, id: string, readAt: int, now: int, at: int, r: string)
    requires Signals.Sound(s.store) && id !in s.store.sessions
    requires r != room || owner !in LiveUsers(s.domain.presence, room, readAt)
    requires r in AfterRoomSession(s, owner, room, callId, id, readAt, now, at).store.rooms
    ensures r in s.store.rooms && SameRoom(s.store, AfterRoomSession(s, owner, room, callId, id, readAt, now, at).store, r)
  {
    Signals.PruneSound(s.store, now);
  }

  lemma DirectStrands(s: State, call: History.Call, from: int, to: int, r: string, u: string)
    requires Inv(s, from) && Served(s, DirectRequest(call), from, to) && Stranded(Serve(s, DirectRequest(call)), r, u, to)
    ensures HasLapsed(s.domain.presence, r, u, to) || Stranded(s, r, u, from)
  {
    assert AdmitsAt(s, r, from);
    UntouchedStrands(s, Serve(s, DirectRequest(call)), from, to, r, u);
  }

  /**
   No request strands anybody: leaving or moving takes the user out of the session, deleting ends it, and
   opening one refreshes it. Whoever is stranded afterwards either was before, or had an entry in that room
   that lapsed with time.
   */
  lemma OnlyLapsingStrands(s: State, q: Request, from: int, to: int, r: string, u: string)
    requires Inv(s, from) && Served(s, q, from, to) && Stranded(Serve(s, q), r, u, to)
    ensures HasLapsed(Serve(s, q).domain.presence, r, u, to) || HasLapsed(s.domain.presence, r, u, to) || Stranded(s, r, u, from)
  {
    match q {
      case PresenceRequest(user, room, audioOn, stamp, leftAt, enteredAt) =>
        if Apply(s.domain, Move(user, room, audioOn), stamp).Ok? {
          PresenceStrands(s, user, room, audioOn, stamp, leftAt, enteredAt, from, to, r, u);
        } else {
          UntouchedStrands(s, s, from, to, r, u);
        }
      case DeleteRequest(user, room, any, stamp) => DeleteStrands(s, user, room, any, stamp, from, to, r, u);
      case CreateRequest(user, room, name, stamp) =>
        assert AdmitsAt(s, r, from);
        CreateStrands(s, user, room, name, stamp, from, to, r, u);
      case SessionRequest(owner, room, callId, id, readAt, now, at) =>
        SessionStrands(s, owner, room, callId, id, readAt, now, at, from, to, r, u);
      case DirectRequest(call) => DirectStrands(s, call, from, to, r, u);
    }
  }

  /** At some point of the run, `user` had an entry in `r` that has lapsed by the end of the request being served there. */
  ghost predicate LapsedIn(s: State, qs: seq<Request>, times: seq<int>, r: string, user: string)
    requires |times| == |qs| + 1
  {
    exists k: nat, at: nat :: LapsedAt(s, qs, times, r, user, k, at)
  }

  ghost predicate LapsedAt(s: State, qs: seq<Request>, times: seq<int>, r: string, user: string, k: nat, at: nat)
    requires |times| == |qs| + 1
  {
    && k <= |qs| && k <= at <= k + 1 && at <= |qs|
    && HasLapsed(AfterRun(s, qs[..k]).domain.presence, r, user, times[at])
  }

  lemma LapsedLater(s: State, qs: seq<Request>, times: seq<int>, r: string, user: string)
    requires qs != [] && |times| == |qs| + 1 && LapsedIn(Serve(s, qs[0]), qs[1..], times[1..], r, user)
    ensures LapsedIn(s, qs, times, r, user)
  {
    var k: nat, at: nat :| LapsedAt(Serve(s, qs[0]), qs[1..], times[1..], r, user, k, at);
    assert qs[..k + 1][0] == qs[0] && qs[..k + 1][1..] == qs[1..][..k];
    assert LapsedAt(s, qs, times, r, user, k + 1, at + 1);
  }

  /**
   In every run, whoever is stranded at its end was stranded at its beginning, or had an entry in that room which
   lapsed with time at some point of the run: no request ever strands anybody.
   */
  lemma {:induction false} OnlyLapsingStrandsInRuns(s: State, qs: seq<Request>, times: seq<int>, r: string, u: string)
    requires |times| == |qs| + 1 && Inv(s, times[0]) && Run(s, qs, times)
    requires Stranded(AfterRun(s, qs), r, u, times[|qs|])
    ensures LapsedIn(s, qs, times, r, u) || Stranded(s, r, u, times[0])
    decreases |qs|
  {
    if qs != [] {
      var next := Serve(s, qs[0]);
      ServeKeeps(s, qs[0], times[0], times[1]);
      OnlyLapsingStrandsInRuns(next, qs[1..], times[1..], r, u);
      if LapsedIn(next, qs[1..], times[1..], r, u) {
        LapsedLater(s, qs, times, r, u);
      } else {
        OnlyLapsingStrands(s, qs[0], times[0], times[1], r, u);
        assert qs[..0] == [] && qs[..1] == [qs[0]] && AfterRun(s, [qs[0]]) == next;
        if HasLapsed(next.domain.presence, r, u, times[1]) {
          assert LapsedAt(s, qs, times, r, u, 1, 1);
        } else if HasLapsed(s.domain.presence, r, u, times[1]) {
          assert LapsedAt(s, qs, times, r, u, 0, 1);
        }
      }
    }
  }

  /**
   When a presence request leaves a room without live users, that room's session is gone exactly when
   the room is the one entered or the one the user was still live in at the prune.
   */
  lemma EmptiedRoomLosesItsSession(s: State, user: string, room: string, audioOn: bool, stamp: Stamp, leftAt: int, enteredAt: int,
                                   from: int, to: int, r: string)
    requires Inv(s, from) && Served(s, PresenceRequest(user, room, audioOn, stamp, leftAt, enteredAt), from, to)
    requires Apply(s.domain, Move(user, room, audioOn), stamp).Ok?
    requires r != "" && r in s.store.rooms
    requires LiveUsers(AfterPresence(s, user, room, audioOn, stamp, leftAt, enteredAt).domain.presence, r, leftAt) == {}
    ensures r !in AfterPresence(s, user, room, audioOn, stamp, leftAt, enteredAt).store.rooms <==>
            r == room || IsIn(Pruned(s.domain.presence, stamp.pruneAt), user, r)
  {
    var p := AfterPresence(s, user, room, audioOn, stamp, leftAt, enteredAt).domain.presence;
    LiveShrinks(p, r, leftAt, enteredAt);
    var left := RoomOfUser(Pruned(s.domain.presence, stamp.pruneAt), user);
    if IsIn(Pruned(s.domain.presence, stamp.pruneAt), user, r) {
      PreviousUnique(s.domain, stamp.pruneAt, user, r);
    }
    if r == room || r == left {
      PresenceSyncs(s, user, room, audioOn, stamp, leftAt, enteredAt, r);
    } else {
      PresenceFrame(s, user, room, audioOn, stamp, leftAt, enteredAt, r);
    }
  }

  // Rooms "a" and "b"; only "ann" is present, in "a", until the very millisecond she enters "b".

  const ANNS_ROOMS := [Room("a", "a", "", 0, "g1"), Room("b", "b", "", 0, "g2")]
  const ANN_IN_A := Snapshot(ANNS_ROOMS, map["a" := map["ann" := Entry(PRESENCE_TTL, true)]])
  const ANNS_SESSION := Signals.Session("s1", "", "ann", Signals.SESSION_TTL, {"ann"}, "a")
  const ANNS_STATE := State(ANN_IN_A, Signals.Store(map["s1" := ANNS_SESSION], map["a" := "s1"]))
  const ENTER_B := PresenceRequest("ann", "b", true, Stamp(PRESENCE_TTL, PRESENCE_TTL, "g3"), PRESENCE_TTL, PRESENCE_TTL)

  lemma AnnsStateSound()
    ensures Inv(ANNS_STATE, 0)
  {
    assert ANNS_ROOMS[0].id == "a";
    forall owner ensures |Signals.DirectOf(Signals.EMPTY, owner)| <= Signals.MAX_PER_OWNER {
      assert Signals.DirectOf(Signals.EMPTY, owner) == {};
    }
    Signals.FewerBounded(Signals.EMPTY, ANNS_STATE.store);
  }

  lemma AnnHasLapsed()
    ensures Pruned(ANN_IN_A.presence, PRESENCE_TTL) == map[] && RoomOfUser(Pruned(ANN_IN_A.presence, PRESENCE_TTL), "ann") == ""
  {
    var pruned := Pruned(ANN_IN_A.presence, PRESENCE_TTL);
    assert Live(ANN_IN_A.presence["a"], PRESENCE_TTL) == map[];
    assert pruned == map[];
    assert !exists r :: IsIn(pruned, "ann", r);
  }

  lemma EntersAlone(rooms: seq<Room>, user: string, room: string, audioOn: bool, now: int)
    requires room != "" && room in Ids(rooms)
    ensures SetPresence(Snapshot(rooms, map[]), user, room, audioOn, now)
         == Ok(Snapshot(rooms, map[room := map[user := Entry(now + PRESENCE_TTL, audioOn)]]))
  {
    assert Vacated(map[], user, room) == map[];
  }

  lemma AnnEntersB()
    ensures var r := Apply(ANN_IN_A, Move("ann", "b", true), ENTER_B.stamp);
            && r.Ok? && RoomOfUser(Pruned(ANN_IN_A.presence, PRESENCE_TTL), "ann") == ""
            && r.value.presence == map["b" := map["ann" := Entry(2 * PRESENCE_TTL, true)]]
  {
    AnnHasLapsed();
    assert ANNS_ROOMS[1].id == "b" && ANNS_ROOMS[1] in ANNS_ROOMS;
    EntersAlone(ANNS_ROOMS, "ann", "b", true, PRESENCE_TTL);
  }

  /**
   A room that empties because its last heartbeat lapsed keeps its session, and the user it had stays
   authorized there even after entering another room.
   */
  lemma LapsedUserKeepsAccess()
    ensures Inv(ANNS_STATE, 0) && Served(ANNS_STATE, ENTER_B, 0, PRESENCE_TTL)
    ensures var after := Serve(ANNS_STATE, ENTER_B);
            && "a" !in after.domain.presence && IsIn(after.domain.presence, "ann", "b")
            && Stranded(after, "a", "ann", PRESENCE_TTL)
            && Signals.Authorize(after.store, "s1", "", "ann", 45 * Signals.SECOND).1
  {
    AnnsStateSound();
    AnnEntersB();
    SyncedExact(ANNS_STATE.store, "b", LiveUsers(Serve(ANNS_STATE, ENTER_B).domain.presence, "b", PRESENCE_TTL));
  }
}
