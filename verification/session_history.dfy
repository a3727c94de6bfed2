/** Who may use a session, read off the whole history of calls, with no pruning and no index. */
module SessionHistory {
  import opened Outcomes
  import Text
  import opened SignalSessions

  /** `id` is the fresh identifier a creating call would use; `now` is when it prunes, `at` when it stamps the session. */
  datatype Call =
    | CreateCall(owner: string, callId: string, participants: seq<string>, id: string, at: int, now: int)
    | RoomCall(owner: string, room: string, callId: string, participants: seq<string>, id: string, now: int, at: int)
    | SyncCall(room: string, participants: seq<string>)
    | AuthorizeCall(id: string, callId: string, user: string, now: int)
    | CloseCall(id: string, owner: string)

  function Next(st: Store, c: Call): Store {
    match c
    case CreateCall(owner, callId, participants, id, at, now) => Create(st, owner, callId, participants, id, at, now).0
    case RoomCall(owner, room, callId, participants, id, now, at) => ForVoiceRoom(st, owner, room, callId, participants, id, now, at).0
    case SyncCall(room, participants) => SyncVoiceRoom(st, room, participants)
    case AuthorizeCall(id, callId, user, now) => Authorize(st, id, callId, user, now).0
    case CloseCall(id, owner) => Close(st, id, owner).0
  }

  /** The session a call handed out, if it was a creating call that succeeded. */
  function Given(st: Store, c: Call): Option<Session> {
    match c
    case CreateCall(owner, callId, participants, id, at, now) =>
      var r := Create(st, owner, callId, participants, id, at, now).1;
      if r.Ok? then Some(r.value) else None
    case RoomCall(owner, room, callId, participants, id, now, at) =>
      var r := ForVoiceRoom(st, owner, room, callId, participants, id, now, at).1;
      if r.Ok? then Some(r.value) else None
    case _ => None
  }

  function After(calls: seq<Call>): Store
    decreases |calls|
  {
    if calls == [] then EMPTY else Next(After(calls[..|calls| - 1]), calls[|calls| - 1])
  }

  predicate NewId(c: Call, id: string) {
    (c.CreateCall? || c.RoomCall?) && c.id == id
  }

  /** What the handlers guarantee: room ids are not blank, and generated identifiers are new. */
  ghost predicate WellFormed(calls: seq<Call>) {
    && (forall k :: 0 <= k < |calls| ==>
          (calls[k].RoomCall? || calls[k].SyncCall? ==> calls[k].room != "") && !NewId(calls[k], ""))
    && (forall j, k, id :: 0 <= j < k < |calls| && NewId(calls[j], id) ==> !NewId(calls[k], id))
  }

  /** No call pruned later than `t`. */
  ghost predicate PrunedBy(calls: seq<Call>, t: int) {
    forall k :: 0 <= k < |calls| ==>
      ((calls[k].CreateCall? || calls[k].RoomCall? || calls[k].AuthorizeCall?) ==> calls[k].now <= t)
  }

  // ---------- the history's own account ----------

  /** Call `k` created session `id`: it is the call that generated the id, and it handed out that session. */
  ghost predicate Creates(calls: seq<Call>, k: nat, id: string) {
    && k < |calls| && NewId(calls[k], id)
    && Given(After(calls[..k]), calls[k]).Some? && Given(After(calls[..k]), calls[k]).value.id == id
  }

  function RoomOf(c: Call): string {
    if c.RoomCall? then c.room else ""
  }

  function CallIdOf(c: Call): string
    requires c.CreateCall? || c.RoomCall?
  {
    if c.RoomCall? then c.callId else Text.Trim(c.callId)
  }

  /** The participants a call installs. */
  function Installed(c: Call): set<string>
    requires !c.AuthorizeCall? && !c.CloseCall?
  {
    if c.CreateCall? then {c.owner} + Trimmed(c.participants) else Members(c.participants)
  }

  /** The call closes the session created by `creator`, or empties its room. */
  predicate Ends(c: Call, creator: Call)
    requires creator.CreateCall? || creator.RoomCall?
  {
    || (c.CloseCall? && c.id == creator.id && c.owner == creator.owner)
    || (c.SyncCall? && c.room == RoomOf(creator) && c.participants == [])
  }

  /** The call installs a participant list for the room. */
  predicate Installs(c: Call, room: string) {
    (c.SyncCall? && c.room == room && c.participants != []) || (c.RoomCall? && c.room == room)
  }

  /** Session `id` was created by call `i` and not ended since, and call `k` was the last to install its participants. */
  ghost predicate Holds(calls: seq<Call>, id: string, i: nat, k: nat) {
    && i <= k < |calls|
    && Creates(calls, i, id)
    && (k == i || Installs(calls[k], RoomOf(calls[i])))
    && (forall j :: i < j < |calls| ==> !Ends(calls[j], calls[i]))
    && (forall j :: k < j < |calls| ==> !Installs(calls[j], RoomOf(calls[i])))
  }

  ghost predicate MayUse(calls: seq<Call>, id: string, callId: string, user: string, t: int, i: nat, k: nat) {
    && Holds(calls, id, i, k)
    && t < calls[i].at + SESSION_TTL
    && (callId == "" || callId == CallIdOf(calls[i]))
    && user in Installed(calls[k])
  }

  /** The session the history describes. */
  ghost function Described(calls: seq<Call>, i: nat, k: nat): Session
    requires i <= k < |calls| && (calls[i].CreateCall? || calls[i].RoomCall?)
    requires !calls[k].AuthorizeCall? && !calls[k].CloseCall?
  {
    Session(calls[i].id, CallIdOf(calls[i]), calls[i].owner, calls[i].at + SESSION_TTL, Installed(calls[k]), RoomOf(calls[i]))
  }

  // ---------- the store follows the history ----------

  lemma {:induction false} AfterSound(calls: seq<Call>)
    requires WellFormed(calls)
    ensures Sound(After(calls))
    ensures forall id :: id in After(calls).sessions ==> exists k :: 0 <= k < |calls| && NewId(calls[k], id)
    decreases |calls|
  {
    if calls == [] {
      EmptySound();
    } else {
      var front, c := calls[..|calls| - 1], calls[|calls| - 1];
      AfterSound(front);
      var st := After(front);
      if c.CreateCall? {
        CreateSound(st, c.owner, c.callId, c.participants, c.id, c.at, c.now);
      } else if c.RoomCall? {
        ForVoiceRoomSound(st, c.owner, c.room, c.callId, c.participants, c.id, c.now, c.at);
      } else if c.SyncCall? {
        SyncSound(st, c.room, c.participants);
      } else if c.AuthorizeCall? {
        PruneSound(st, c.now);
      } else {
        CloseSound(st, c.id, c.owner);
      }
      forall id | id in After(calls).sessions ensures exists k :: 0 <= k < |calls| && NewId(calls[k], id) {
        NewSessions(st, c, id);
        if id in st.sessions {
          var k :| 0 <= k < |front| && NewId(front[k], id);
          assert NewId(calls[k], id);
        } else {
          assert NewId(calls[|calls| - 1], id);
        }
      }
    }
  }

  lemma EmptySound()
    ensures Sound(EMPTY)
  {
    forall owner ensures |DirectOf(EMPTY, owner)| <= MAX_PER_OWNER {
      assert DirectOf(EMPTY, owner) == {};
    }
  }

  lemma NewSessions(st: Store, c: Call, id: string)
    requires Sound(st) && id in Next(st, c).sessions
    ensures id in st.sessions || NewId(c, id)
  {
    if c.RoomCall? {
      PruneSound(st, c.now);
    }
  }

  /** What one call does to one session that was there before. */
  lemma OldSession(st: Store, c: Call, id: string, creator: Call)
    requires Sound(st) && id in st.sessions && !NewId(c, id)
    requires creator.CreateCall? || creator.RoomCall?
    requires creator.id == id && st.sessions[id].owner == creator.owner && st.sessions[id].room == RoomOf(creator)
    requires c.RoomCall? || c.SyncCall? ==> c.room != ""
    ensures Ends(c, creator) ==> id !in Next(st, c).sessions
    ensures !Ends(c, creator) ==>
              if id in Next(st, c).sessions then
                Next(st, c).sessions[id] == (
                  if Installs(c, RoomOf(creator)) then st.sessions[id].(participants := Installed(c)) else st.sessions[id])
              else
                (c.CreateCall? || c.RoomCall? || c.AuthorizeCall?) && st.sessions[id].expiresAt <= c.now
  {
    if c.RoomCall? {
      PruneSound(st, c.now);
    }
  }

  lemma Fresh(calls: seq<Call>, c: Call, id: string)
    requires WellFormed(calls + [c]) && NewId(c, id)
    ensures WellFormed(calls) && id !in After(calls).sessions
    ensures forall k :: !Creates(calls, k, id)
  {
    var all := calls + [c];
    forall k | 0 <= k < |calls| ensures !NewId(calls[k], id) {
      assert all[k] == calls[k] && all[|calls|] == c;
    }
    FrontWellFormed(calls, c);
    AfterSound(calls);
  }

  lemma FrontWellFormed(calls: seq<Call>, c: Call)
    requires WellFormed(calls + [c])
    ensures WellFormed(calls)
  {
    var all := calls + [c];
    forall k | 0 <= k < |calls| ensures all[k] == calls[k] {
    }
    forall j, k, id | 0 <= j < k < |calls| && NewId(calls[j], id) ensures !NewId(calls[k], id) {
      assert NewId(all[j], id);
      assert !NewId(all[k], id);
    }
  }

  lemma CreatesNext(calls: seq<Call>, c: Call, k: nat, id: string)
    ensures Creates(calls + [c], k, id) <==>
              if k < |calls| then Creates(calls, k, id)
              else k == |calls| && NewId(c, id) && Given(After(calls), c).Some? && Given(After(calls), c).value.id == id
  {
    if k <= |calls| {
      assert (calls + [c])[..k] == calls[..k];
      assert calls[..|calls|] == calls;
    }
  }

  /** How the history's account of one session moves when one more call is made. */
  lemma HoldsNext(calls: seq<Call>, c: Call, id: string, i: nat, k: nat)
    ensures Holds(calls + [c], id, i, k) <==>
              && Creates(calls + [c], i, id)
              && (if i == |calls| then k == i
                  else if i < |calls| then
                    && !Ends(c, calls[i])
                    && (if Installs(c, RoomOf(calls[i])) then
                          k == |calls| && (forall j :: i < j < |calls| ==> !Ends(calls[j], calls[i]))
                        else Holds(calls, id, i, k))
                  else false)
  {
    var all := calls + [c];
    CreatesNext(calls, c, i, id);
    assert forall j :: 0 <= j < |calls| ==> all[j] == calls[j];
    assert all[|calls|] == c;
  }

  lemma CreatorUnique(calls: seq<Call>, id: string, i: nat, j: nat)
    requires WellFormed(calls) && Creates(calls, i, id) && Creates(calls, j, id)
    ensures i == j
  {
  }

  /** A session that was created and not ended has a last installing call. */
  lemma {:induction false} SomeHolds(calls: seq<Call>, id: string, i: nat) returns (k: nat)
    requires Creates(calls, i, id) && forall j :: i < j < |calls| ==> !Ends(calls[j], calls[i])
    ensures Holds(calls, id, i, k)
    decreases |calls|
  {
    var n := |calls| - 1;
    assert calls == calls[..n] + [calls[n]];
    if i == n || Installs(calls[n], RoomOf(calls[i])) {
      return n;
    }
    CreatesNext(calls[..n], calls[n], i, id);
    k := SomeHolds(calls[..n], id, i);
    HoldsNext(calls[..n], calls[n], id, i, k);
  }

  /** The store holds exactly the session the history describes, unless its time to live ran out by `t`. */
  ghost predicate Follows(calls: seq<Call>, id: string, t: int) {
    && (id in After(calls).sessions ==> exists i: nat, k: nat :: Holds(calls, id, i, k))
    && (forall i: nat, k: nat :: Holds(calls, id, i, k) ==>
          || (id in After(calls).sessions && After(calls).sessions[id] == Described(calls, i, k))
          || (id !in After(calls).sessions && calls[i].at + SESSION_TTL <= t))
  }

  /** A creating call puts its new session into the store, or nothing under the new identifier. */
  lemma NewEntry(st: Store, c: Call, id: string)
    requires Sound(st) && NewId(c, id) && id != "" && id !in st.sessions
    ensures if Given(st, c).Some? && Given(st, c).value.id == id
            then id in Next(st, c).sessions && Next(st, c).sessions[id] == Given(st, c).value
              && Given(st, c).value == Session(id, CallIdOf(c), c.owner, c.at + SESSION_TTL, Installed(c), RoomOf(c))
            else id !in Next(st, c).sessions
  {
    if c.RoomCall? {
      PruneSound(st, c.now);
    }
  }

  lemma FollowsNew(calls: seq<Call>, c: Call, id: string, t: int)
    requires WellFormed(calls + [c]) && NewId(c, id)
    ensures Follows(calls + [c], id, t)
  {
    var all, n := calls + [c], |calls|;
    assert all[n] == c && all[..n] == calls;
    assert id != "" by {
      assert !NewId(all[n], "");
    }
    Fresh(calls, c, id);
    AfterSound(calls);
    NewEntry(After(calls), c, id);
    CreatesNext(calls, c, n, id);
    HoldsNext(calls, c, id, n, n);
    forall i: nat, k: nat | Holds(all, id, i, k) ensures i == k == n {
      HoldsNext(calls, c, id, i, k);
      CreatesNext(calls, c, i, id);
    }
  }

  lemma FollowsAbsent(calls: seq<Call>, c: Call, id: string, t: int)
    requires WellFormed(calls + [c]) && !NewId(c, id)
    requires Follows(calls, id, t) && id !in After(calls).sessions
    ensures Follows(calls + [c], id, t)
  {
    var all := calls + [c];
    FrontWellFormed(calls, c);
    AfterSound(calls);
    assert all[..|calls|] == calls;
    if id in After(all).sessions {
      NewSessions(After(calls), c, id);
    }
    forall i: nat, k: nat | Holds(all, id, i, k) ensures all[i].at + SESSION_TTL <= t {
      HoldsNext(calls, c, id, i, k);
      CreatesNext(calls, c, i, id);
      assert forall j :: i < j < |calls| ==> calls[j] == all[j];
      var k0 := SomeHolds(calls, id, i);
    }
  }

  /** With one more call the account of a session that is there moves to the last installing call, or ends. */
  lemma AccountNext(calls: seq<Call>, c: Call, id: string, i: nat, k: nat) returns (k1: nat)
    requires WellFormed(calls + [c]) && !NewId(c, id) && Holds(calls, id, i, k)
    ensures k1 == if Installs(c, RoomOf(calls[i])) then |calls| else k
    ensures !Ends(c, calls[i]) ==> Holds(calls + [c], id, i, k1)
    ensures forall i2: nat, k2: nat :: Holds(calls + [c], id, i2, k2) ==> i2 == i && k2 == k1 && !Ends(c, calls[i])
  {
    FrontWellFormed(calls, c);
    k1 := if Installs(c, RoomOf(calls[i])) then |calls| else k;
    CreatesNext(calls, c, i, id);
    HoldsNext(calls, c, id, i, k1);
    forall i2: nat, k2: nat | Holds(calls + [c], id, i2, k2)
      ensures i2 == i && k2 == k1 && !Ends(c, calls[i])
    {
      HoldsNext(calls, c, id, i2, k2);
      CreatesNext(calls, c, i2, id);
      CreatorUnique(calls, id, i, i2);
    }
  }

  /** What the store does meanwhile to that session. */
  lemma EntryNext(calls: seq<Call>, c: Call, id: string, i: nat, k: nat, t: int)
    requires WellFormed(calls + [c]) && !NewId(c, id) && PrunedBy(calls + [c], t) && Holds(calls, id, i, k)
    requires id in After(calls).sessions && After(calls).sessions[id] == Described(calls, i, k)
    ensures var (next, k1) := (Next(After(calls), c), if Installs(c, RoomOf(calls[i])) then |calls| else k);
            if Ends(c, calls[i]) then id !in next.sessions
            else if id in next.sessions then next.sessions[id] == Described(calls + [c], i, k1)
            else calls[i].at + SESSION_TTL <= t
  {
    DescribedLater(calls, c, i, k);
    FrontWellFormed(calls, c);
    AfterSound(calls);
    OldSession(After(calls), c, id, calls[i]);
  }

  /** One more call, which may install participants for the room, changes what the history says of a session accordingly. */
  lemma DescribedLater(calls: seq<Call>, c: Call, i: nat, k: nat)
    requires i <= k < |calls| && (calls[i].CreateCall? || calls[i].RoomCall?) && !calls[k].AuthorizeCall? && !calls[k].CloseCall?
    ensures Described(calls + [c], i, k) == Described(calls, i, k)
    ensures Installs(c, RoomOf(calls[i])) ==> Described(calls + [c], i, |calls|) == Described(calls, i, k).(participants := Installed(c))
    ensures (calls + [c])[|calls|] == c
  {
    var all := calls + [c];
    assert all[i] == calls[i] && all[k] == calls[k] && all[|calls|] == c;
  }

  lemma FollowsPresent(calls: seq<Call>, c: Call, id: string, t: int)
    requires WellFormed(calls + [c]) && !NewId(c, id) && PrunedBy(calls + [c], t)
    requires Follows(calls, id, t) && id in After(calls).sessions
    ensures Follows(calls + [c], id, t)
  {
    var all := calls + [c];
    var i: nat, k: nat :| Holds(calls, id, i, k);
    EntryNext(calls, c, id, i, k, t);
    var k1 := AccountNext(calls, c, id, i, k);
    assert After(all) == Next(After(calls), c) by {
      assert all[..|calls|] == calls && all[|calls|] == c;
    }
    assert all[i] == calls[i];
  }

  lemma {:induction false} StoreFollows(calls: seq<Call>, id: string, t: int)
    requires WellFormed(calls) && PrunedBy(calls, t)
    ensures Follows(calls, id, t)
    decreases |calls|
  {
    if calls != [] {
      var front, c := calls[..|calls| - 1], calls[|calls| - 1];
      assert calls == front + [c];
      FrontWellFormed(front, c);
      if NewId(c, id) {
        FollowsNew(front, c, id, t);
      } else {
        StoreFollows(front, id, t);
        if id in After(front).sessions {
          FollowsPresent(front, c, id, t);
        } else {
          FollowsAbsent(front, c, id, t);
        }
      }
    }
  }

  /**
   authorize agrees with the full history: whatever was pruned when, it succeeds at `t` exactly when the
   session was created less than thirty minutes before, has not been closed or emptied, the call id is
   blank or matches, and the user is in the participant list installed last.
   */
  lemma AuthorizeMatchesHistory(calls: seq<Call>, id: string, callId: string, user: string, t: int)
    requires WellFormed(calls) && PrunedBy(calls, t)
    ensures Authorize(After(calls), id, callId, user, t).1 <==> exists i: nat, k: nat :: MayUse(calls, id, callId, user, t, i, k)
  {
    StoreFollows(calls, id, t);
    if Authorize(After(calls), id, callId, user, t).1 {
      var i: nat, k: nat :| Holds(calls, id, i, k);
      assert MayUse(calls, id, callId, user, t, i, k);
    }
    if i: nat, k: nat :| MayUse(calls, id, callId, user, t, i, k) {
      assert Holds(calls, id, i, k);
    }
  }

  /** After any calls the two maps agree and the direct-call bounds hold. */
  lemma EveryStoreSound(calls: seq<Call>)
    requires WellFormed(calls)
    ensures Indexed(After(calls)) && DirectCallsBounded(After(calls))
  {
    AfterSound(calls);
  }
}
