/** Which calls create a session, judged by the calls alone: no store, no index, no pruning. */
module SessionAnswers {
  import opened Outcomes
  import opened SignalSessions
  import opened SessionHistory

  predicate Creating(c: Call) {
    c.CreateCall? || c.RoomCall?
  }

  /** After `calls`, the session that call `i` opened is neither closed, nor emptied, nor thirty minutes old at `now`. */
  ghost predicate Stands(calls: seq<Call>, i: nat, now: int)
    decreases |calls|, 0
  {
    && i < |calls| && Creating(calls[i])
    && Opens(calls[..i], calls[i])
    && (forall j :: i < j < |calls| ==> !Ends(calls[j], calls[i]))
    && now < calls[i].at + SESSION_TTL
  }

  /** The calls whose session stands at `now` and belongs to `owner`. */
  ghost function Owned(calls: seq<Call>, owner: string, now: int): set<nat>
    decreases |calls|, 1
  {
    set i: nat | i < |calls| && Creating(calls[i]) && calls[i].owner == owner && Stands(calls, i, now)
  }

  /**
   A creating call made after `before` opens a session: a direct call when it is well formed and its owner has fewer than
   five that stand, a room's call when the room has none that stands and the caller is on the list it gives.
   */
  ghost predicate Opens(before: seq<Call>, c: Call)
    requires Creating(c)
    decreases |before|, 2
  {
    match c
    case CreateCall(owner, callId, participants, _, _, now) =>
      !Malformed(owner, callId, participants) && |Owned(before, owner, now)| < 5
    case RoomCall(owner, room, _, participants, _, now, _) =>
      owner in participants && forall i: nat :: i < |before| && before[i].RoomCall? && before[i].room == room ==> !Stands(before, i, now)
  }

  /** The clock does not run backwards between the calls that look at it and the calls that create. */
  ghost predicate InOrder(calls: seq<Call>) {
    forall j, k :: 0 <= j < k < |calls| && (Creating(calls[j]) || calls[j].AuthorizeCall?) && Creating(calls[k]) ==> calls[j].now <= calls[k].now
  }

  // ---------- the store agrees ----------

  lemma PrefixFits(calls: seq<Call>, k: nat)
    requires WellFormed(calls) && InOrder(calls) && k <= |calls|
    ensures WellFormed(calls[..k]) && InOrder(calls[..k])
    ensures k < |calls| && Creating(calls[k]) ==> PrunedBy(calls[..k], calls[k].now)
  {
  }

  /** As `Stands`, with the store's own account of who created a session. */
  ghost predicate Kept(calls: seq<Call>, i: nat, now: int) {
    && i < |calls| && Creating(calls[i]) && Creates(calls, i, calls[i].id)
    && (forall j :: i < j < |calls| ==> !Ends(calls[j], calls[i]))
    && now < calls[i].at + SESSION_TTL
  }

  /** An unexpired session is stored exactly if its creating call is kept, and is that call's. */
  lemma StoredIsKept(calls: seq<Call>, i: nat, now: int)
    requires WellFormed(calls) && PrunedBy(calls, now) && i < |calls| && Creating(calls[i])
    ensures var (p, id) := (Prune(After(calls), now), calls[i].id);
            && (id in p.sessions <==> Kept(calls, i, now))
            && (id in p.sessions ==> p.sessions[id].owner == calls[i].owner && p.sessions[id].room == RoomOf(calls[i]))
  {
    var id := calls[i].id;
    StoreFollows(calls, id, now);
    if id in Prune(After(calls), now).sessions {
      var i2: nat, k: nat :| Holds(calls, id, i2, k);
      assert NewId(calls[i], id) && NewId(calls[i2], id);
      assert i2 == i;
    }
    if Kept(calls, i, now) {
      var k := SomeHolds(calls, id, i);
    }
  }

  /** Whatever is stored was created by some call. */
  lemma StoredHasCreator(calls: seq<Call>, now: int, id: string) returns (i: nat)
    requires WellFormed(calls) && PrunedBy(calls, now) && id in Prune(After(calls), now).sessions
    ensures i < |calls| && Creating(calls[i]) && calls[i].id == id && Kept(calls, i, now)
  {
    AfterSound(calls);
    var k :| 0 <= k < |calls| && NewId(calls[k], id);
    i := k;
    StoredIsKept(calls, i, now);
  }

  ghost function IdsOf(calls: seq<Call>, s: set<nat>): set<string>
    requires forall i :: i in s ==> i < |calls| && Creating(calls[i])
  {
    set i | i in s && Creating(calls[i]) :: calls[i].id
  }

  lemma {:induction false} IdsSize(calls: seq<Call>, s: set<nat>)
    requires WellFormed(calls) && forall i :: i in s ==> i < |calls| && Creating(calls[i])
    ensures |IdsOf(calls, s)| == |s|
    decreases |s|
  {
    if s != {} {
      var i :| i in s;
      var rest := s - {i};
      IdsSize(calls, rest);
      assert IdsOf(calls, s) == IdsOf(calls, rest) + {calls[i].id};
      forall j | j in rest ensures calls[j].id != calls[i].id {
        assert NewId(calls[j], calls[j].id) && NewId(calls[i], calls[i].id);
      }
    }
  }

  /** The calls kept at `now` for `owner`. */
  ghost function KeptOf(calls: seq<Call>, owner: string, now: int): set<nat> {
    set i: nat | i < |calls| && Creating(calls[i]) && calls[i].owner == owner && Kept(calls, i, now)
  }

  /** The store counts as many sessions of an owner as there are calls kept. */
  lemma CountedIsKept(calls: seq<Call>, owner: string, now: int)
    requires WellFormed(calls) && PrunedBy(calls, now)
    ensures |LiveOf(After(calls), owner, now)| == |KeptOf(calls, owner, now)|
  {
    var kept := KeptOf(calls, owner, now);
    forall id ensures id in LiveOf(After(calls), owner, now) <==> id in IdsOf(calls, kept) {
      if id in LiveOf(After(calls), owner, now) {
        var i := StoredHasCreator(calls, now, id);
        StoredIsKept(calls, i, now);
        assert i in kept;
      }
      if id in IdsOf(calls, kept) {
        var i :| i in kept && calls[i].id == id;
        StoredIsKept(calls, i, now);
      }
    }
    assert LiveOf(After(calls), owner, now) == IdsOf(calls, kept);
    IdsSize(calls, kept);
  }

  /** A room has a session exactly if some call for it is kept. */
  lemma RoomIsKept(calls: seq<Call>, room: string, now: int)
    requires WellFormed(calls) && PrunedBy(calls, now) && room != ""
    ensures (exists id :: IsSessionOf(After(calls), room, now, id)) <==>
            (exists i: nat :: i < |calls| && calls[i].RoomCall? && calls[i].room == room && Kept(calls, i, now))
  {
    if id :| IsSessionOf(After(calls), room, now, id) {
      var i := StoredHasCreator(calls, now, id);
      StoredIsKept(calls, i, now);
      assert calls[i].RoomCall? && calls[i].room == room && Kept(calls, i, now);
    }
    if i: nat :| i < |calls| && calls[i].RoomCall? && calls[i].room == room && Kept(calls, i, now) {
      StoredIsKept(calls, i, now);
      assert IsSessionOf(After(calls), room, now, calls[i].id);
    }
  }

  /** What one creating call does, in terms of the calls kept before it. */
  lemma GivenIs(before: seq<Call>, c: Call)
    requires WellFormed(before + [c]) && Creating(c) && PrunedBy(before, c.now)
    ensures (Given(After(before), c).Some? && Given(After(before), c).value.id == c.id) <==>
            if c.CreateCall? then !Malformed(c.owner, c.callId, c.participants) && |KeptOf(before, c.owner, c.now)| < 5
            else c.owner in c.participants &&
                 forall i: nat :: i < |before| && before[i].RoomCall? && before[i].room == c.room ==> !Kept(before, i, c.now)
  {
    Fresh(before, c, c.id);
    AfterSound(before);
    var st := After(before);
    if c.CreateCall? {
      CreateAnswers(st, c.owner, c.callId, c.participants, c.id, c.at, c.now);
      CountedIsKept(before, c.owner, c.now);
    } else {
      assert (before + [c])[|before|] == c;
      ForVoiceRoomAnswers(st, c.owner, c.room, c.callId, c.participants, c.id, c.now, c.at);
      RoomIsKept(before, c.room, c.now);
      if x :| IsSessionOf(st, c.room, c.now, x) {
        assert st.sessions[x].id == x;
      }
    }
  }

  /** The calls alone tell which of them create a session: the store's account of it is the same. */
  lemma {:induction false} CreatesByCalls(calls: seq<Call>, k: nat, id: string)
    requires WellFormed(calls) && InOrder(calls) && k < |calls| && NewId(calls[k], id)
    ensures Creates(calls, k, id) <==> Opens(calls[..k], calls[k])
    decreases k
  {
    var (before, c) := (calls[..k], calls[k]);
    PrefixFits(calls, k);
    PrefixFits(calls, k + 1);
    assert calls[..k + 1] == before + [c];
    forall i: nat | i < k && Creating(before[i]) ensures Kept(before, i, c.now) <==> Stands(before, i, c.now) {
      CreatesByCalls(before, i, before[i].id);
    }
    GivenIs(before, c);
    if c.CreateCall? {
      assert KeptOf(before, c.owner, c.now) == Owned(before, c.owner, c.now);
    }
  }

  // ---------- authorization from the calls alone ----------

  /** By the calls alone: call `i` opened the session, nothing ended it since, and call `k` installed its participants last. */
  ghost predicate Admits(calls: seq<Call>, id: string, callId: string, user: string, t: int, i: nat, k: nat) {
    && i <= k < |calls| && NewId(calls[i], id)
    && Stands(calls, i, t)
    && (k == i || Installs(calls[k], RoomOf(calls[i])))
    && (forall j :: k < j < |calls| ==> !Installs(calls[j], RoomOf(calls[i])))
    && (callId == "" || callId == CallIdOf(calls[i]))
    && user in Installed(calls[k])
  }

  /**
   authorize agrees with what the calls alone say, the refused ones among them: the session was opened less than thirty
   minutes ago by a call that had to succeed, nothing ended it since, the call id is blank or matches, and the user is in
   the participant list installed last.
   */
  lemma AuthorizeByCalls(calls: seq<Call>, id: string, callId: string, user: string, t: int)
    requires WellFormed(calls) && InOrder(calls) && PrunedBy(calls, t)
    ensures Authorize(After(calls), id, callId, user, t).1 <==> exists i: nat, k: nat :: Admits(calls, id, callId, user, t, i, k)
  {
    AuthorizeMatchesHistory(calls, id, callId, user, t);
    forall i: nat, k: nat ensures MayUse(calls, id, callId, user, t, i, k) <==> Admits(calls, id, callId, user, t, i, k) {
      if i < |calls| && NewId(calls[i], id) {
        CreatesByCalls(calls, i, id);
      }
    }
  }
}
