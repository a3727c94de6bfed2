/** Room incarnations: a generation is never used twice, so a room that was deleted never comes back. */
module Incarnations {
  import opened Outcomes
  import opened VoiceDomain
  import opened DomainProtocol

  datatype Incarnation = Incarnation(id: string, createAt: int, generation: string)

  function Of(room: Room): Incarnation {
    Incarnation(room.id, room.createAt, room.generation)
  }

  ghost predicate Alive(s: Snapshot, i: Incarnation) {
    exists room :: room in s.rooms && Of(room) == i
  }

  /** A generation that was in use before the run, or none at all as in the oldest values. */
  predicate OldGeneration(prior: set<string>, generation: string) {
    generation == "" || generation in prior
  }

  predicate OldGenerations(prior: set<string>, rooms: seq<Room>) {
    forall room :: room in rooms ==> OldGeneration(prior, room.generation)
  }

  ghost predicate OldBase(prior: set<string>, base: Option<Raw>) {
    base.Some? && Decode(base.value).Ok? ==> OldGenerations(prior, Decode(base.value).value.rooms)
  }

  /** Every committed stamp carries a generation of its own, unlike any from before the run. */
  ghost predicate FreshLog(prior: set<string>, log: seq<Event>) {
    && (forall k :: 0 <= k < |log| && log[k].Import? ==> OldGenerations(prior, OldRooms(log[k].rooms)))
    && (forall k :: 0 <= k < |log| && log[k].Commit? ==> !OldGeneration(prior, log[k].stamp.generation))
    && (forall j, k :: 0 <= j < k < |log| && log[j].Commit? && log[k].Commit? ==>
          log[j].stamp.generation != log[k].stamp.generation)
  }

  lemma ApplyAlive(s: Snapshot, op: Op, stamp: Stamp, i: Incarnation)
    requires Apply(s, op, stamp).Ok? && Alive(Apply(s, op, stamp).value, i)
    ensures Alive(s, i) || i.generation == stamp.generation
  {
    var s1 := PrunedSnapshot(s, stamp.pruneAt);
    var s2 := VoiceDomain.Mutated(s1, op, stamp).value;
    SortKeeps(s2.rooms);
    WithoutMembers(s1.rooms, op.room);
    var room :| room in s2.rooms && Of(room) == i;
  }

  lemma StaysReadable(base: Option<Raw>, log: seq<Event>)
    requires log != [] && Legal(base, log) && Readable(base, log[..|log| - 1])
    ensures log[|log| - 1].Commit? && Readable(base, log)
    ensures var (e, before) := (log[|log| - 1], SnapshotAfter(base, log[..|log| - 1]));
            Apply(before, e.op, e.stamp) == Ok(SnapshotAfter(base, log))
  {
    var e := log[|log| - 1];
    assert LegalEvent(base, log, |log| - 1);
    RoundTrip(Apply(SnapshotAfter(base, log[..|log| - 1]), e.op, e.stamp).value, Replay(base, log).value);
  }

  ghost predicate UsedIn(log: seq<Event>, lo: nat, hi: nat, generation: string) {
    exists m :: lo <= m < hi && m < |log| && log[m].Commit? && log[m].stamp.generation == generation
  }

  /** A room of the current snapshot is as old as the run, or some earlier event used its generation. */
  lemma {:induction false} AliveOrigin(prior: set<string>, base: Option<Raw>, log: seq<Event>, i: Incarnation)
    requires Legal(base, log) && FreshLog(prior, log) && OldBase(prior, base)
    requires Readable(base, log) && Alive(SnapshotAfter(base, log), i)
    ensures OldGeneration(prior, i.generation) || UsedIn(log, 0, |log|, i.generation)
    decreases |log|
  {
    if log != [] {
      var front, e := log[..|log| - 1], log[|log| - 1];
      assert LegalEvent(base, log, |log| - 1);
      if e.Import? {
        ImportReadable(e.rooms, e.presence, e.at);
        RoundTrip(ImportedSnapshot(e.rooms, e.presence, e.at), Replay(base, log).value);
      } else {
        StaysReadable(base, log);
        ApplyAlive(SnapshotAfter(base, front), e.op, e.stamp, i);
        if Alive(SnapshotAfter(base, front), i) {
          LegalPrefix(base, log, |front|);
          AliveOrigin(prior, base, front, i);
          if UsedIn(front, 0, |front|, i.generation) {
            var m :| 0 <= m < |front| && front[m].Commit? && front[m].stamp.generation == i.generation;
            assert log[m] == front[m];
          }
        } else {
          assert log[|log| - 1].stamp.generation == i.generation;
        }
      }
    }
  }

  /** A room that is alive after the whole log but was not after its first `j` events came with one of the later ones. */
  lemma {:induction false} AppearedSince(base: Option<Raw>, log: seq<Event>, j: nat, i: Incarnation)
    requires Legal(base, log) && j <= |log|
    requires Readable(base, log[..j]) && !Alive(SnapshotAfter(base, log[..j]), i)
    ensures Readable(base, log)
    ensures Alive(SnapshotAfter(base, log), i) ==> UsedIn(log, j, |log|, i.generation)
    decreases |log|
  {
    if j == |log| {
      assert log[..j] == log;
    } else {
      var front, e := log[..|log| - 1], log[|log| - 1];
      LegalPrefix(base, log, |front|);
      assert front[..j] == log[..j];
      AppearedSince(base, front, j, i);
      StaysReadable(base, log);
      if Alive(SnapshotAfter(base, log), i) {
        ApplyAlive(SnapshotAfter(base, front), e.op, e.stamp, i);
        UsedLater(log, j, i.generation, Alive(SnapshotAfter(base, front), i));
      }
    }
  }

  /** The generation was used by an event of the front, or by the last event. */
  lemma UsedLater(log: seq<Event>, j: nat, generation: string, before: bool)
    requires log != [] && j < |log|
    requires if before then UsedIn(log[..|log| - 1], j, |log| - 1, generation)
             else log[|log| - 1].Commit? && log[|log| - 1].stamp.generation == generation
    ensures UsedIn(log, j, |log|, generation)
  {
    if before {
      var front := log[..|log| - 1];
      var m :| j <= m < |front| && front[m].Commit? && front[m].stamp.generation == generation;
      assert log[m] == front[m];
    } else {
      assert log[|log| - 1].stamp.generation == generation;
    }
  }

  /** An incarnation seen at two moments was alive at every moment between them. */
  lemma NoRevival(prior: set<string>, base: Option<Raw>, log: seq<Event>, i: nat, j: nat, k: nat, room: Incarnation)
    requires Legal(base, log) && FreshLog(prior, log) && OldBase(prior, base)
    requires i <= j <= k <= |log|
    requires Readable(base, log[..i]) && Alive(SnapshotAfter(base, log[..i]), room)
    requires Readable(base, log[..k]) && Alive(SnapshotAfter(base, log[..k]), room)
    ensures Readable(base, log[..j]) && Alive(SnapshotAfter(base, log[..j]), room)
  {
    var upto := log[..k];
    LegalPrefix(base, log, i);
    LegalPrefix(base, log, k);
    assert upto[..i] == log[..i] && upto[..j] == log[..j];
    ReadableLater(base, log, i, j);
    if !Alive(SnapshotAfter(base, upto[..j]), room) {
      AliveOrigin(prior, base, log[..i], room);
      AppearedSince(base, upto, j, room);
    }
  }

  lemma {:induction false} ReadableLater(base: Option<Raw>, log: seq<Event>, i: nat, j: nat)
    requires Legal(base, log) && i <= j <= |log| && Readable(base, log[..i])
    ensures Readable(base, log[..j])
    decreases j
  {
    if i < j {
      ReadableLater(base, log, i, j - 1);
      LegalPrefix(base, log, j);
      assert log[..j][..j - 1] == log[..j - 1];
      StaysReadable(base, log[..j]);
    }
  }

  // ---------- in every run ----------

  ghost predicate FreshPhase(prior: set<string>, s: Sys, phase: Phase) {
    match phase
    case GetPresence(_, _, rooms) => OldGenerations(prior, OldRooms(rooms))
    case Normalize(_, _, rooms, _) => OldGenerations(prior, OldRooms(rooms))
    case ImportCas(_, _, rooms, _, _) => OldGenerations(prior, OldRooms(rooms))
    case WriteCas(_, _, _, _, stamp) =>
      && stamp.generation in s.issued && !OldGeneration(prior, stamp.generation)
      && forall k :: 0 <= k < |s.log| && s.log[k].Commit? ==> s.log[k].stamp.generation != stamp.generation
    case _ => true
  }

  /** Generations are handed out once: those in the log and those about to be written are all different. */
  ghost predicate FreshIds(prior: set<string>, s: Sys) {
    && prior <= s.issued
    && FreshLog(prior, s.log)
    && OldGenerations(prior, OldRooms(s.rooms))
    && (forall k :: 0 <= k < |s.log| && s.log[k].Commit? ==> s.log[k].stamp.generation in s.issued)
    && (forall id :: id in s.requests ==> FreshPhase(prior, s, s.requests[id].phase))
    && (forall a, b :: Writing(s, a) && Writing(s, b) && a != b ==>
          s.requests[a].phase.stamp.generation != s.requests[b].phase.stamp.generation)
  }

  predicate Writing(s: Sys, id: nat) {
    id in s.requests && s.requests[id].phase.WriteCas?
  }

  ghost predicate OldWriter(prior: set<string>, step: Step) {
    step.OldBuildWrites? ==> OldGenerations(prior, OldRooms(step.rooms))
  }

  lemma EditFresh(prior: set<string>, s: Sys, id: nat, generation: string)
    requires FreshIds(prior, s) && Enabled(s, Advance(id, generation)) && s.requests[id].phase.Edit?
    ensures FreshIds(prior, Advanced(s, id, generation))
  {
    var t := Advanced(s, id, generation);
    forall other | other in t.requests ensures FreshPhase(prior, t, t.requests[other].phase) {
      assert FreshPhase(prior, s, s.requests[other].phase);
    }
  }

  lemma CommitFreshLog(prior: set<string>, log: seq<Event>, e: Event)
    requires FreshLog(prior, log) && e.Commit? && !OldGeneration(prior, e.stamp.generation)
    requires forall k :: 0 <= k < |log| && log[k].Commit? ==> log[k].stamp.generation != e.stamp.generation
    ensures FreshLog(prior, log + [e])
  {
  }

  lemma CommitFresh(prior: set<string>, s: Sys, id: nat)
    requires FreshIds(prior, s) && id in s.requests && s.requests[id].phase.WriteCas?
    ensures FreshIds(prior, Advanced(s, id, ""))
  {
    var t := Advanced(s, id, "");
    assert FreshPhase(prior, s, s.requests[id].phase);
    if t.log != s.log {
      CommitFreshLog(prior, s.log, t.log[|s.log|]);
    }
    forall other | other in t.requests ensures FreshPhase(prior, t, t.requests[other].phase) {
      assert FreshPhase(prior, s, s.requests[other].phase);
    }
  }

  /** A step that hands out no id, commits nothing and leaves one request not writing. */
  lemma FreshFrame(prior: set<string>, s: Sys, t: Sys, id: nat)
    requires FreshIds(prior, s)
    requires t.issued == s.issued && OldGenerations(prior, OldRooms(t.rooms))
    requires t.log == s.log || (|t.log| == |s.log| + 1 && t.log[..|s.log|] == s.log && t.log[|s.log|].Import?)
    requires FreshLog(prior, t.log)
    requires id in t.requests && FreshPhase(prior, t, t.requests[id].phase) && !t.requests[id].phase.WriteCas?
    requires forall other :: other in t.requests && other != id ==> other in s.requests && t.requests[other] == s.requests[other]
    ensures FreshIds(prior, t)
  {
    forall other | other in t.requests ensures FreshPhase(prior, t, t.requests[other].phase) {
      if other != id {
        assert FreshPhase(prior, s, s.requests[other].phase);
      }
    }
    assert forall a :: Writing(t, a) ==> Writing(s, a) && t.requests[a] == s.requests[a];
  }

  lemma AdvanceFresh(prior: set<string>, s: Sys, id: nat, generation: string)
    requires FreshIds(prior, s) && Enabled(s, Advance(id, generation))
    requires !s.requests[id].phase.Edit? && !s.requests[id].phase.WriteCas?
    ensures FreshIds(prior, Advanced(s, id, generation))
  {
    assert FreshPhase(prior, s, s.requests[id].phase);
    FreshFrame(prior, s, Advanced(s, id, generation), id);
  }

  /** A step of any other kind hands out no id and commits nothing. */
  lemma OtherStepFresh(prior: set<string>, s: Sys, step: Step)
    requires FreshIds(prior, s) && Enabled(s, step) && OldWriter(prior, step) && !step.Advance?
    ensures FreshIds(prior, Post(s, step))
  {
    var t := Post(s, step);
    if step.Begin? || step.StoreFails? {
      FreshFrame(prior, s, t, step.id);
    } else {
      forall other | other in t.requests ensures FreshPhase(prior, t, t.requests[other].phase) {
        assert FreshPhase(prior, s, s.requests[other].phase);
      }
      assert forall a :: Writing(t, a) ==> Writing(s, a);
    }
  }

  lemma StepFresh(prior: set<string>, s: Sys, step: Step)
    requires FreshIds(prior, s) && Enabled(s, step) && OldWriter(prior, step)
    ensures FreshIds(prior, Post(s, step))
  {
    if step.Advance? && s.requests[step.id].phase.Edit? {
      EditFresh(prior, s, step.id, step.generation);
    } else if step.Advance? && s.requests[step.id].phase.WriteCas? {
      CommitFresh(prior, s, step.id);
    } else if step.Advance? {
      AdvanceFresh(prior, s, step.id, step.generation);
    } else {
      OtherStepFresh(prior, s, step);
    }
  }
}
