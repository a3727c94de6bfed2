/** Who is listed in a room, read off the history of committed requests alone. */
module PresenceHistory {
  import opened Outcomes
  import opened VoiceDomain
  import opened DomainProtocol

  predicate IsMoveBy(e: Event, user: string) {
    e.Commit? && e.op.Move? && e.op.user == user
  }

  predicate IsDeleteOf(e: Event, room: string) {
    e.Commit? && e.op.Delete? && e.op.room == room
  }

  /** Event `k` is the last committed presence request of `user`. */
  ghost predicate LastMove(log: seq<Event>, user: string, k: nat) {
    && k < |log| && IsMoveBy(log[k], user)
    && forall j :: k < j < |log| ==> !IsMoveBy(log[j], user)
  }

  /** The last request of `user` named `room`, is less than the time to live old at `t`, and the room was not deleted since. */
  ghost predicate LastRequestHolds(log: seq<Event>, user: string, room: string, t: int, k: nat) {
    && LastMove(log, user, k)
    && log[k].op.room == room
    && t < log[k].stamp.at + PRESENCE_TTL
    && forall j :: k < j < |log| ==> !IsDeleteOf(log[j], room)
  }

  /** What the room list shows at time `t`. */
  ghost predicate Listed(s: Snapshot, user: string, room: string, t: int) {
    IsIn(Pruned(s.presence, t), user, room)
  }

  lemma ListedMeans(s: Snapshot, user: string, room: string, t: int)
    ensures Listed(s, user, room, t) <==> IsIn(s.presence, user, room) && s.presence[room][user].expiresAt > t
  {
    if room in s.presence && user in Live(s.presence[room], t) {
      assert Live(s.presence[room], t) != map[];
    }
  }

  lemma PruneListing(s: Snapshot, pruneAt: int, user: string, room: string, t: int)
    requires pruneAt <= t
    ensures Listed(PrunedSnapshot(s, pruneAt), user, room, t) <==> Listed(s, user, room, t)
  {
    ListedMeans(s, user, room, t);
    ListedMeans(s, user, room, pruneAt);
    ListedMeans(PrunedSnapshot(s, pruneAt), user, room, t);
  }

  lemma MoveListing(s: Snapshot, mover: string, to: string, audioOn: bool, now: int, user: string, room: string, t: int)
    requires SetPresence(s, mover, to, audioOn, now).Ok? && room != ""
    ensures Listed(SetPresence(s, mover, to, audioOn, now).value, user, room, t) <==>
              if mover == user then to == room && t < now + PRESENCE_TTL else Listed(s, user, room, t)
  {
    ListedMeans(s, user, room, t);
    ListedMeans(SetPresence(s, mover, to, audioOn, now).value, user, room, t);
    VacatedMembers(s.presence, mover, to, user, room);
  }

  lemma DeleteListing(s: Snapshot, deleter: string, gone: string, any: bool, user: string, room: string, t: int)
    requires DeleteRoom(s, deleter, gone, any).Ok?
    ensures Listed(DeleteRoom(s, deleter, gone, any).value, user, room, t) <==> room != gone && Listed(s, user, room, t)
  {
    ListedMeans(s, user, room, t);
    ListedMeans(DeleteRoom(s, deleter, gone, any).value, user, room, t);
  }

  /** What one operation does to one user's listing in one room at any later time. */
  lemma ApplyListing(s: Snapshot, op: Op, stamp: Stamp, user: string, room: string, t: int)
    requires Apply(s, op, stamp).Ok? && stamp.pruneAt <= t && room != ""
    ensures Listed(Apply(s, op, stamp).value, user, room, t) <==>
              if op.Move? && op.user == user then op.room == room && t < stamp.at + PRESENCE_TTL
              else if op.Delete? && op.room == room then false
              else Listed(s, user, room, t)
  {
    PruneListing(s, stamp.pruneAt, user, room, t);
    var s1 := PrunedSnapshot(s, stamp.pruneAt);
    match op {
      case Create(_, _, _) =>
      case Delete(deleter, gone, any) => DeleteListing(s1, deleter, gone, any, user, room, t);
      case Move(mover, to, audioOn) => MoveListing(s1, mover, to, audioOn, stamp.at, user, room, t);
    }
  }

  /** Older values that list nobody. */
  ghost predicate NobodyImported(log: seq<Event>) {
    forall k :: 0 <= k < |log| && log[k].Import? ==> OldPresence(log[k].presence) == map[]
  }

  ghost predicate PrunedBy(log: seq<Event>, t: int) {
    forall k :: 0 <= k < |log| && log[k].Commit? ==> log[k].stamp.pruneAt <= t
  }

  lemma EventListing(log: seq<Event>, e: Event, user: string, room: string, t: int)
    requires Legal(None, log + [e]) && NobodyImported(log + [e]) && PrunedBy(log + [e], t) && room != ""
    requires e.Import? ==> log == []
    ensures Readable(None, log + [e])
    ensures e.Commit? ==> Readable(None, log)
    ensures Listed(SnapshotAfter(None, log + [e]), user, room, t) <==>
              if e.Import? then false
              else if IsMoveBy(e, user) then e.op.room == room && t < e.stamp.at + PRESENCE_TTL
              else if IsDeleteOf(e, room) then false
              else Listed(SnapshotAfter(None, log), user, room, t)
  {
    assert (log + [e])[..|log|] == log && (log + [e])[|log|] == e;
    assert LegalEvent(None, log + [e], |log|);
    match e {
      case Import(_, rooms, presence, at) => ImportReadable(rooms, presence, at);
      case Commit(_, op, stamp) =>
        RoundTrip(Apply(SnapshotAfter(None, log), op, stamp).value, Replay(None, log + [e]).value);
        ApplyListing(SnapshotAfter(None, log), op, stamp, user, room, t);
    }
  }

  lemma SomethingStored(log: seq<Event>)
    requires Legal(None, log) && log != []
    ensures Replay(None, log).Some?
  {
    assert LegalEvent(None, log, |log| - 1);
  }

  /** The import happens at most once, before everything else. */
  lemma ImportComesFirst(log: seq<Event>, k: nat)
    requires Legal(None, log) && k < |log| && log[k].Import?
    ensures k == 0
  {
    assert LegalEvent(None, log, k);
    LegalPrefix(None, log, k);
    if k > 0 {
      SomethingStored(log[..k]);
    }
  }

  /** Along every legal log the listing is decided by the user's last request and the deletions since. */
  lemma {:induction false} ListedIsLastRequest(log: seq<Event>, user: string, room: string, t: int)
    requires log != [] && Legal(None, log) && NobodyImported(log) && PrunedBy(log, t) && room != ""
    ensures Readable(None, log)
    ensures Listed(SnapshotAfter(None, log), user, room, t) <==> exists k :: LastRequestHolds(log, user, room, t, k)
    decreases |log|
  {
    var front, e := log[..|log| - 1], log[|log| - 1];
    assert log == front + [e];
    if e.Import? {
      ImportComesFirst(log, |log| - 1);
    }
    EventListing(front, e, user, room, t);
    if front != [] {
      LegalPrefix(None, log, |front|);
      ListedIsLastRequest(front, user, room, t);
      HoldsNext(front, e, user, room, t);
    }
  }

  lemma HoldsNext(log: seq<Event>, e: Event, user: string, room: string, t: int)
    requires !e.Import?
    ensures (exists k :: LastRequestHolds(log + [e], user, room, t, k)) <==>
              if IsMoveBy(e, user) then e.op.room == room && t < e.stamp.at + PRESENCE_TTL
              else if IsDeleteOf(e, room) then false
              else exists k :: LastRequestHolds(log, user, room, t, k)
  {
    var next := log + [e];
    if IsMoveBy(e, user) {
      assert LastMove(next, user, |log|);
      assert LastRequestHolds(next, user, room, t, |log|) <==> e.op.room == room && t < e.stamp.at + PRESENCE_TTL;
      forall k: nat | LastRequestHolds(next, user, room, t, k) ensures k == |log| {
        assert IsMoveBy(next[|log|], user);
      }
    } else {
      forall k: nat ensures LastRequestHolds(next, user, room, t, k) <==> LastRequestHolds(log, user, room, t, k) && !IsDeleteOf(e, room) {
        if LastRequestHolds(next, user, room, t, k) {
          assert k < |log| && log[k] == next[k];
          assert !IsDeleteOf(next[|log|], room);
          forall j | k < j < |log| ensures !IsMoveBy(log[j], user) && !IsDeleteOf(log[j], room) {
            assert log[j] == next[j];
          }
        }
        if LastRequestHolds(log, user, room, t, k) && !IsDeleteOf(e, room) {
          forall j | k < j < |next| ensures !IsMoveBy(next[j], user) && !IsDeleteOf(next[j], room) {
            assert j < |log| ==> next[j] == log[j];
          }
        }
      }
    }
  }

  // ---------- in every run ----------

  /** No time in use is ahead of the clock, and the older values list nobody. */
  ghost predicate Timely(s: Sys) {
    && PrunedBy(s.log, s.clock) && NobodyImported(s.log)
    && OldPresence(s.presence) == map[]
    && forall id :: id in s.requests ==> TimelyPhase(s, s.requests[id].phase)
  }

  ghost predicate TimelyPhase(s: Sys, phase: Phase) {
    match phase
    case Normalize(_, _, _, presence) => OldPresence(presence) == map[]
    case ImportCas(_, _, _, presence, _) => OldPresence(presence) == map[]
    case Edit(_, _, _, pruneAt) => pruneAt <= s.clock
    case WriteCas(_, _, _, _, stamp) => stamp.pruneAt <= s.clock
    case _ => true
  }

  ghost predicate NobodyListed(step: Step) {
    step.OldBuildWrites? ==> OldPresence(step.presence) == map[]
  }

  lemma StepTimely(s: Sys, step: Step)
    requires Timely(s) && Enabled(s, step) && NobodyListed(step)
    ensures Timely(Post(s, step)) && s.clock <= Post(s, step).clock
  {
    var t := Post(s, step);
    forall id | id in t.requests ensures TimelyPhase(t, t.requests[id].phase) {
      if id in s.requests {
        assert TimelyPhase(s, s.requests[id].phase);
      }
    }
  }

  lemma {:induction false} RunTimely(s: Sys, steps: seq<Step>)
    requires Timely(s) && Run(s, steps) && forall step :: step in steps ==> NobodyListed(step)
    ensures Timely(After(s, steps)) && s.clock <= After(s, steps).clock
    decreases |steps|
  {
    if steps != [] {
      StepTimely(s, steps[0]);
      RunTimely(Post(s, steps[0]), steps[1..]);
    }
  }

  ghost predicate ListedIn(s: Sys, user: string, room: string, t: int) {
    s.domain.Some? && Decode(s.domain.value).Ok? && Listed(Decode(s.domain.value).value, user, room, t)
  }

  /**
   From an empty store, in every interleaving: a user is listed in a room at any time from now on exactly
   when their last committed presence request named it, is less than 45 seconds old, and the room has
   not been deleted since.
   */
  lemma PresenceIsLastRequest(s: Sys, steps: seq<Step>, user: string, room: string, t: int)
    requires Init(s) && s.domain == None && OldPresence(s.presence) == map[]
    requires Run(s, steps) && forall step :: step in steps ==> NobodyListed(step)
    requires room != "" && After(s, steps).clock <= t
    ensures ListedIn(After(s, steps), user, room, t) <==> exists k :: LastRequestHolds(After(s, steps).log, user, room, t, k)
  {
    RunKeeps(None, s, steps);
    RunTimely(s, steps);
    var z := After(s, steps);
    if z.log != [] {
      ListedIsLastRequest(z.log, user, room, t);
    }
  }
}
