/**
 When a request answers, and what. Every answer is due: a refusal to the snapshot stored at some moment of the request,
 a corrupt value to an unreadable one, contention to twenty writes of others; and every request answers after a bounded
 number of its own steps, whatever the others do.
 */
module DomainAnswers {
  import opened Outcomes
  import opened VoiceDomain
  import opened LegacyImport
  import opened DomainProtocol

  /** How many of the events are not request `id`'s. */
  function ByOthers(log: seq<Event>, id: nat): nat {
    if log == [] then 0 else
    var n := |log| - 1;
    ByOthers(log[..n], id) + if log[n].id == id then 0 else 1
  }

  lemma ByOthersNext(log: seq<Event>, from: nat, e: Event, id: nat)
    requires from <= |log|
    ensures ByOthers((log + [e])[from..], id) == ByOthers(log[from..], id) + if e.id == id then 0 else 1
  {
    assert (log + [e])[from..] == log[from..] + [e];
    assert (log[from..] + [e])[..|log| - from] == log[from..];
  }

  /** When all events after the first `k` are others', each of them counts. */
  lemma {:induction false} ByOthersLater(log: seq<Event>, from: nat, k: nat, id: nat)
    requires from <= k <= |log| && forall j :: k <= j < |log| ==> log[j].id != id
    ensures ByOthers(log[from..], id) == ByOthers(log[from..k], id) + |log| - k
    decreases |log| - k
  {
    if k < |log| {
      var front := log[..|log| - 1];
      ByOthersLater(front, from, k, id);
      assert front[from..k] == log[from..k];
      ByOthersNext(front, from, log[|log| - 1], id);
      assert front + [log[|log| - 1]] == log;
    } else {
      assert log[from..k] == log[from..];
    }
  }

  /** The value `raw` a request works on was stored after `k` events, at least `outer` of them others', and it has logged nothing since. */
  ghost predicate ReadAt(base: Option<Raw>, log: seq<Event>, id: nat, begun: nat, outer: nat, raw: Raw, k: nat) {
    && begun <= k <= |log|
    && Replay(base, log[..k]) == Some(raw)
    && ByOthers(log[begun..k], id) >= outer
    && forall j :: k <= j < |log| ==> log[j].id != id
  }

  ghost predicate HasRead(base: Option<Raw>, log: seq<Event>, id: nat, begun: nat, outer: nat, raw: Raw) {
    exists k: nat :: ReadAt(base, log, id, begun, outer, raw, k)
  }

  /** The clock readings were made between `since` and `until`, in order. */
  predicate Within(stamp: Stamp, since: int, until: int) {
    since <= stamp.pruneAt <= stamp.at <= until
  }

  /** After `k` events the stored value was there and unreadable. */
  predicate UnreadableAt(base: Option<Raw>, log: seq<Event>, k: nat) {
    k <= |log| && Replay(base, log[..k]).Some? && Decode(Replay(base, log[..k]).value).Err?
  }

  /** The snapshot stored after `k` events refuses the operation with `e`. */
  predicate RefusedBy(base: Option<Raw>, log: seq<Event>, k: nat, op: Op, stamp: Stamp, e: Failure) {
    k <= |log| && Readable(base, log[..k]) && Apply(SnapshotAfter(base, log[..k]), op, stamp) == Err(e)
  }

  /**
   The answer is one that the stored values of that time call for: the effect of the operation, its refusal by a snapshot
   stored during the request, at times the clock showed during it, an unreadable value, or twenty writes of others.
   */
  ghost predicate Due(base: Option<Raw>, log: seq<Event>, id: nat, r: Request)
    requires r.phase.Done? && r.begun <= r.ended <= |log|
  {
    match r.phase.reply
    case Loaded(_) => r.task.Read?
    case Mutated(prior, next) =>
      r.task.Mutate? &&
      exists k :: r.begun <= k < r.ended && TookEffect(base, log, k, id, r.task.op, prior, next) && Within(log[k].stamp, r.since, r.until)
    case Failed(StoreFailure) => true
    case Failed(Corrupt) => exists k :: r.begun <= k <= r.ended && UnreadableAt(base, log, k)
    case Failed(Contended) => r.task.Mutate? && ByOthers(log[r.begun..r.ended], id) >= 20
    case Failed(e) => r.task.Mutate? && RefusalDue(base, log, r, e)
  }

  ghost predicate RefusalDue(base: Option<Raw>, log: seq<Event>, r: Request, e: Failure)
    requires r.task.Mutate?
  {
    exists k: nat, stamp :: r.begun <= k <= r.ended && RefusedBy(base, log, k, r.task.op, stamp, e) && Within(stamp, r.since, r.until)
  }

  /** What a request's phase says of how it got there. */
  ghost predicate AnswerOk(base: Option<Raw>, log: seq<Event>, clock: int, id: nat, r: Request) {
    && r.begun <= |log| && r.since <= clock
    && match r.phase
       case GetDomain(outer, inner) =>
         && ByOthers(log[r.begun..], id) >= outer && outer <= 19 && inner <= 1
         && (inner == 1 ==> Replay(base, log).Some?) && (r.task.Read? ==> outer == 0)
       case GetRooms(outer, inner) => ByOthers(log[r.begun..], id) >= outer && outer <= 19 && inner == 0 && (r.task.Read? ==> outer == 0)
       case GetPresence(outer, inner, _) => ByOthers(log[r.begun..], id) >= outer && outer <= 19 && inner == 0 && (r.task.Read? ==> outer == 0)
       case Normalize(outer, inner, _, _) => ByOthers(log[r.begun..], id) >= outer && outer <= 19 && inner == 0 && (r.task.Read? ==> outer == 0)
       case ImportCas(outer, inner, _, _, at) =>
         && ByOthers(log[r.begun..], id) >= outer && outer <= 19 && inner == 0 && (r.task.Read? ==> outer == 0)
         && r.since <= at <= clock
       case Prune(outer, _, raw) => outer <= 19 && HasRead(base, log, id, r.begun, outer, raw)
       case Edit(outer, _, raw, pruneAt) => outer <= 19 && HasRead(base, log, id, r.begun, outer, raw) && r.since <= pruneAt <= clock
       case WriteCas(outer, raw, _, _, stamp) => outer <= 19 && HasRead(base, log, id, r.begun, outer, raw) && Within(stamp, r.since, clock)
       case Done(_) => r.begun <= r.ended <= |log| && r.since <= r.until <= clock && Due(base, log, id, r)
  }

  ghost predicate AnswersInv(base: Option<Raw>, s: Sys) {
    && Inv(base, s)
    && forall id :: id in s.requests ==> AnswerOk(base, s.log, s.clock, id, s.requests[id])
  }

  // ---------- every step keeps it ----------

  lemma StoredStays(base: Option<Raw>, log: seq<Event>, e: Event)
    requires Replay(base, log).Some?
    ensures Replay(base, log + [e]).Some?
  {
    assert (log + [e])[..|log|] == log;
  }

  lemma HasReadKept(base: Option<Raw>, log: seq<Event>, e: Event, id: nat, begun: nat, outer: nat, raw: Raw)
    requires HasRead(base, log, id, begun, outer, raw) && e.id != id
    ensures HasRead(base, log + [e], id, begun, outer, raw)
  {
    var k: nat :| ReadAt(base, log, id, begun, outer, raw, k);
    assert (log + [e])[..k] == log[..k] && (log + [e])[begun..k] == log[begun..k];
    assert ReadAt(base, log + [e], id, begun, outer, raw, k);
  }

  lemma DueKept(base: Option<Raw>, log: seq<Event>, e: Event, id: nat, r: Request)
    requires r.phase.Done? && r.begun <= r.ended <= |log| && Due(base, log, id, r)
    ensures Due(base, log + [e], id, r)
  {
    var next := log + [e];
    assert next[r.begun..r.ended] == log[r.begun..r.ended];
    assert forall k :: 0 <= k <= |log| ==> next[..k] == log[..k];
    match r.phase.reply {
      case Mutated(prior, value) =>
        var k :| r.begun <= k < r.ended && TookEffect(base, log, k, id, r.task.op, prior, value) && Within(log[k].stamp, r.since, r.until);
        assert TookEffect(base, next, k, id, r.task.op, prior, value);
      case Failed(f) =>
        if f.Corrupt? {
          var k :| r.begun <= k <= r.ended && UnreadableAt(base, log, k);
          assert UnreadableAt(base, next, k);
        } else if !f.StoreFailure? && !f.Contended? {
          var k: nat, stamp :| r.begun <= k <= r.ended && RefusedBy(base, log, k, r.task.op, stamp, f) && Within(stamp, r.since, r.until);
          assert RefusedBy(base, next, k, r.task.op, stamp, f);
        }
      case _ =>
    }
  }

  /** Another request's event, and time, leave a request's account in order. */
  lemma AnswerKept(base: Option<Raw>, log: seq<Event>, e: Event, clock: int, id: nat, r: Request)
    requires AnswerOk(base, log, clock, id, r) && e.id != id
    ensures AnswerOk(base, log + [e], clock, id, r)
  {
    ByOthersNext(log, r.begun, e, id);
    match r.phase {
      case GetDomain(_, inner) => if inner == 1 { StoredStays(base, log, e); }
      case Prune(outer, _, raw) => HasReadKept(base, log, e, id, r.begun, outer, raw);
      case Edit(outer, _, raw, _) => HasReadKept(base, log, e, id, r.begun, outer, raw);
      case WriteCas(outer, raw, _, _, _) => HasReadKept(base, log, e, id, r.begun, outer, raw);
      case Done(_) => DueKept(base, log, e, id, r);
      case _ =>
    }
  }

  /** A value read just now. */
  lemma JustRead(base: Option<Raw>, log: seq<Event>, id: nat, begun: nat, outer: nat, raw: Raw)
    requires begun <= |log| && Replay(base, log) == Some(raw) && ByOthers(log[begun..], id) >= outer
    ensures HasRead(base, log, id, begun, outer, raw)
  {
    assert log[..|log|] == log && log[begun..|log|] == log[begun..];
    assert ReadAt(base, log, id, begun, outer, raw, |log|);
  }

  /** A write that finds another value has been overtaken once more. */
  lemma Overtaken(base: Option<Raw>, log: seq<Event>, id: nat, begun: nat, outer: nat, raw: Raw)
    requires HasRead(base, log, id, begun, outer, raw) && Replay(base, log) != Some(raw)
    ensures begun <= |log| && ByOthers(log[begun..], id) >= outer + 1
  {
    var k: nat :| ReadAt(base, log, id, begun, outer, raw, k);
    ReadBeforeEnd(base, log, raw, k);
    ByOthersLater(log, begun, k, id);
  }

  lemma ReadBeforeEnd(base: Option<Raw>, log: seq<Event>, raw: Raw, k: nat)
    requires k <= |log| && Replay(base, log[..k]) == Some(raw) && Replay(base, log) != Some(raw)
    ensures k < |log|
  {
    assert log[..|log|] == log;
  }

  lemma ImportStepAnswers(base: Option<Raw>, s: Sys, id: nat)
    requires AnswersInv(base, s) && id in s.requests && s.requests[id].phase.ImportCas? && s.domain.None?
    ensures AnswersInv(base, Advanced(s, id, ""))
  {
    ImportStepKeeps(base, s, id);
    var r, t := s.requests[id], Advanced(s, id, "");
    var ImportCas(outer, inner, rooms, presence, at) := r.phase;
    var e := Import(id, rooms, presence, at);
    assert t.log == s.log + [e];
    forall other | other in t.requests ensures AnswerOk(base, t.log, t.clock, other, t.requests[other]) {
      if other != id {
        AnswerKept(base, s.log, e, s.clock, other, s.requests[other]);
      } else if r.task.Mutate? {
        assert RequestOk(base, s.log, id, r);
        ImportReadable(rooms, presence, at);
        ByOthersNext(s.log, r.begun, e, id);
        JustRead(base, t.log, id, r.begun, outer, Encode(ImportedSnapshot(rooms, presence, at)));
      }
    }
  }

  /** A write that found the value it had read. */
  lemma CommittedDue(base: Option<Raw>, log: seq<Event>, clock: int, id: nat, r: Request, prior: Snapshot, next: Snapshot, stamp: Stamp)
    requires r.task.Mutate? && r.phase == Done(Mutated(prior, next)) && r.begun < |log| == r.ended && r.until == clock
    requires Within(stamp, r.since, clock) && log[|log| - 1] == Commit(id, r.task.op, stamp)
    requires TookEffect(base, log, |log| - 1, id, r.task.op, prior, next)
    ensures AnswerOk(base, log, clock, id, r)
  {
  }

  lemma CommitStepAnswers(base: Option<Raw>, s: Sys, id: nat)
    requires AnswersInv(base, s) && id in s.requests && s.requests[id].phase.WriteCas? && s.domain == Some(s.requests[id].phase.raw)
    ensures AnswersInv(base, Advanced(s, id, ""))
  {
    CommitStepKeeps(base, s, id);
    var r, t := s.requests[id], Advanced(s, id, "");
    var WriteCas(outer, raw, prior, next, stamp) := r.phase;
    var e := Commit(id, r.task.op, stamp);
    CommitStepIs(base, s, id);
    assert t.log[..|s.log|] == s.log;
    CommittedDue(base, t.log, s.clock, id, t.requests[id], prior, next, stamp);
    forall other | other in t.requests && other != id ensures AnswerOk(base, t.log, t.clock, other, t.requests[other]) {
      AnswerKept(base, s.log, e, s.clock, other, s.requests[other]);
    }
  }

  lemma CommitStepIs(base: Option<Raw>, s: Sys, id: nat)
    requires Inv(base, s) && id in s.requests && s.requests[id].phase.WriteCas? && s.domain == Some(s.requests[id].phase.raw)
    ensures var (r, t) := (s.requests[id], Advanced(s, id, ""));
            var WriteCas(outer, raw, prior, next, stamp) := r.phase;
            && r.task.Mutate? && t.clock == s.clock && t.log == s.log + [Commit(id, r.task.op, stamp)]
            && t.requests == s.requests[id := r.(phase := Done(Mutated(prior, next)), ended := |t.log|, until := s.clock)]
            && TookEffect(base, t.log, |s.log|, id, r.task.op, prior, next)
  {
    assert RequestOk(base, s.log, id, s.requests[id]);
    assert Advanced(s, id, "").log[..|s.log|] == s.log;
  }

  /** The read of the canonical key. */
  lemma GetDomainAnswers(base: Option<Raw>, s: Sys, id: nat)
    requires AnswersInv(base, s) && id in s.requests && s.requests[id].phase.GetDomain?
    ensures id in Advanced(s, id, "").requests && AnswerOk(base, s.log, s.clock, id, Advanced(s, id, "").requests[id])
  {
    var r := s.requests[id];
    assert s.log[..|s.log|] == s.log;
    if s.domain.Some? {
      JustRead(base, s.log, id, r.begun, r.phase.outer, s.domain.value);
      if Decode(s.domain.value).Err? {
        assert UnreadableAt(base, s.log, |s.log|);
      }
    }
  }

  /** A refusal by a snapshot that was read is due. */
  lemma RefusedFromRead(base: Option<Raw>, log: seq<Event>, id: nat, r: Request, outer: nat, raw: Raw, stamp: Stamp, e: Failure)
    requires r.task.Mutate? && r.ended == |log| && HasRead(base, log, id, r.begun, outer, raw)
    requires Decode(raw).Ok? && Apply(Decode(raw).value, r.task.op, stamp) == Err(e) && Within(stamp, r.since, r.until)
    ensures RefusalDue(base, log, r, e)
  {
    var k: nat :| ReadAt(base, log, id, r.begun, outer, raw, k);
    assert RefusedBy(base, log, k, r.task.op, stamp, e);
  }

  lemma RefusalKinds(s: Snapshot, op: Op, stamp: Stamp)
    requires VoiceDomain.Mutated(s, op, stamp).Err?
    ensures VoiceDomain.Mutated(s, op, stamp).error in {RoomsFull, Forbidden, RoomNotFound}
  {
  }

  lemma EditAnswers(base: Option<Raw>, s: Sys, id: nat, generation: string)
    requires AnswersInv(base, s) && Enabled(s, Advance(id, generation)) && s.requests[id].phase.Edit?
    ensures id in Advanced(s, id, generation).requests && AnswerOk(base, s.log, s.clock, id, Advanced(s, id, generation).requests[id])
  {
    var r, t := s.requests[id], Advanced(s, id, generation).requests[id];
    assert RequestOk(base, s.log, id, r) && AnswerOk(base, s.log, s.clock, id, r);
    var Edit(outer, prior, raw, pruneAt) := r.phase;
    var stamp := Stamp(pruneAt, s.clock, generation);
    var edited := VoiceDomain.Mutated(prior, r.task.op, stamp);
    if edited.Err? {
      assert Apply(Decode(raw).value, r.task.op, stamp) == Err(edited.error);
      assert t == r.(phase := Done(Failed(edited.error)), ended := |s.log|, until := s.clock);
      RefusalKinds(prior, r.task.op, stamp);
      RefusedFromRead(base, s.log, id, t, outer, raw, stamp, edited.error);
    }
  }

  /** A write that found another value. */
  lemma LostAnswers(base: Option<Raw>, s: Sys, id: nat)
    requires AnswersInv(base, s) && id in s.requests && s.requests[id].phase.WriteCas? && s.domain != Some(s.requests[id].phase.raw)
    ensures id in Advanced(s, id, "").requests && AnswerOk(base, s.log, s.clock, id, Advanced(s, id, "").requests[id])
  {
    var r := s.requests[id];
    assert AnswerOk(base, s.log, s.clock, id, r);
    Overtaken(base, s.log, id, r.begun, r.phase.outer, r.phase.raw);
    TriedAgain(base, s.log, s.clock, id, r, r.phase.outer);
    LostPhase(base, s, id);
  }

  lemma LostPhase(base: Option<Raw>, s: Sys, id: nat)
    requires Inv(base, s) && id in s.requests && s.requests[id].phase.WriteCas? && s.domain != Some(s.requests[id].phase.raw)
    ensures id in Advanced(s, id, "").requests
    ensures Advanced(s, id, "").requests[id] == Retried(s.requests[id], s.requests[id].phase.outer, |s.log|, s.clock)
  {
    assert RequestOk(base, s.log, id, s.requests[id]);
  }

  /** The request after its write was lost. */
  function Retried(r: Request, outer: nat, events: nat, clock: int): Request {
    if outer + 1 >= 20 then r.(phase := Done(Failed(Contended)), ended := events, until := clock)
    else r.(phase := GetDomain(outer + 1, 0), ended := 0, until := 0)
  }

  lemma TriedAgain(base: Option<Raw>, log: seq<Event>, clock: int, id: nat, r: Request, outer: nat)
    requires r.task.Mutate? && r.begun <= |log| && r.since <= clock && outer <= 19 && ByOthers(log[r.begun..], id) >= outer + 1
    ensures AnswerOk(base, log, clock, id, Retried(r, outer, |log|, clock))
  {
    assert log[r.begun..|log|] == log[r.begun..];
  }

  /** The reads of the older keys, the clock readings, and an import that came too late. */
  lemma QuietAnswers(base: Option<Raw>, s: Sys, id: nat)
    requires AnswersInv(base, s) && id in s.requests
    requires var phase := s.requests[id].phase;
             phase.GetRooms? || phase.GetPresence? || phase.Normalize? || phase.Prune? || (phase.ImportCas? && s.domain.Some?)
    ensures id in Advanced(s, id, "").requests && AnswerOk(base, s.log, s.clock, id, Advanced(s, id, "").requests[id])
  {
    assert AnswerOk(base, s.log, s.clock, id, s.requests[id]);
  }

  /** The phase a step leads to, when it writes nothing. */
  lemma LocalAnswers(base: Option<Raw>, s: Sys, id: nat, generation: string)
    requires AnswersInv(base, s) && Enabled(s, Advance(id, generation))
    requires !(s.requests[id].phase.ImportCas? && s.domain.None?)
    requires !(s.requests[id].phase.WriteCas? && s.domain == Some(s.requests[id].phase.raw))
    ensures id in Advanced(s, id, generation).requests && AnswerOk(base, s.log, s.clock, id, Advanced(s, id, generation).requests[id])
  {
    var phase := s.requests[id].phase;
    if phase.GetDomain? {
      GetDomainAnswers(base, s, id);
    } else if phase.Edit? {
      EditAnswers(base, s, id, generation);
    } else if phase.WriteCas? {
      LostAnswers(base, s, id);
    } else {
      QuietAnswers(base, s, id);
    }
  }

  /** Everybody else's account, when nothing is written and time does not run back. */
  lemma OthersAnswer(base: Option<Raw>, s: Sys, t: Sys, id: nat)
    requires AnswersInv(base, s) && Inv(base, t) && t.log == s.log && s.clock <= t.clock
    requires forall other :: other in t.requests && other != id ==> other in s.requests && t.requests[other] == s.requests[other]
    requires id in t.requests ==> AnswerOk(base, t.log, t.clock, id, t.requests[id])
    ensures AnswersInv(base, t)
  {
    forall other | other in t.requests ensures AnswerOk(base, t.log, t.clock, other, t.requests[other]) {
      if other != id {
        assert AnswerOk(base, s.log, s.clock, other, s.requests[other]);
        Later(base, s.log, s.clock, t.clock, other, s.requests[other]);
      }
    }
  }

  lemma Later(base: Option<Raw>, log: seq<Event>, clock: int, later: int, id: nat, r: Request)
    requires AnswerOk(base, log, clock, id, r) && clock <= later
    ensures AnswerOk(base, log, later, id, r)
  {
  }

  /** Only an edit takes a generated id. */
  lemma GenerationUnused(s: Sys, id: nat, generation: string)
    requires id in s.requests && !s.requests[id].phase.Done? && !s.requests[id].phase.Edit?
    ensures Advanced(s, id, generation) == Advanced(s, id, "")
  {
  }

  lemma AdvanceTakesNoTime(s: Sys, id: nat, generation: string)
    requires id in s.requests && !s.requests[id].phase.Done?
    ensures Advanced(s, id, generation).clock == s.clock
  {
  }

  lemma LocalStepAnswers(base: Option<Raw>, s: Sys, id: nat, generation: string)
    requires AnswersInv(base, s) && Enabled(s, Advance(id, generation)) && Inv(base, Advanced(s, id, generation))
    requires !(s.requests[id].phase.ImportCas? && s.domain.None?)
    requires !(s.requests[id].phase.WriteCas? && s.domain == Some(s.requests[id].phase.raw))
    ensures AnswersInv(base, Advanced(s, id, generation))
  {
    LocalPhaseOk(base, s, id, generation);
    LocalAnswers(base, s, id, generation);
    AdvanceTakesNoTime(s, id, generation);
    OthersAnswer(base, s, Advanced(s, id, generation), id);
  }

  lemma AdvanceAnswers(base: Option<Raw>, s: Sys, id: nat, generation: string)
    requires AnswersInv(base, s) && Enabled(s, Advance(id, generation)) && Inv(base, Advanced(s, id, generation))
    ensures AnswersInv(base, Advanced(s, id, generation))
  {
    var phase := s.requests[id].phase;
    if phase.ImportCas? && s.domain.None? {
      GenerationUnused(s, id, generation);
      ImportStepAnswers(base, s, id);
    } else if phase.WriteCas? && s.domain == Some(phase.raw) {
      GenerationUnused(s, id, generation);
      CommitStepAnswers(base, s, id);
    } else {
      LocalStepAnswers(base, s, id, generation);
    }
  }

  lemma StepAnswers(base: Option<Raw>, s: Sys, step: Step)
    requires AnswersInv(base, s) && Enabled(s, step)
    ensures AnswersInv(base, Post(s, step))
  {
    StepKeeps(base, s, step);
    match step {
      case Tick(_) => TimeAnswers(base, s, Post(s, step));
      case OldBuildWrites(_, _) => TimeAnswers(base, s, Post(s, step));
      case Begin(id, _) => OthersAnswer(base, s, Post(s, step), id);
      case StoreFails(id) => OthersAnswer(base, s, Post(s, step), id);
      case Advance(id, generation) => AdvanceAnswers(base, s, id, generation);
    }
  }

  lemma TimeAnswers(base: Option<Raw>, s: Sys, t: Sys)
    requires AnswersInv(base, s) && Inv(base, t) && t.log == s.log && s.clock <= t.clock && t.requests == s.requests
    ensures AnswersInv(base, t)
  {
    forall id | id in t.requests ensures AnswerOk(base, t.log, t.clock, id, t.requests[id]) {
      Later(base, s.log, s.clock, t.clock, id, s.requests[id]);
    }
  }

  lemma {:induction false} RunAnswers(base: Option<Raw>, s: Sys, steps: seq<Step>)
    requires AnswersInv(base, s) && Run(s, steps)
    ensures AnswersInv(base, After(s, steps))
    decreases |steps|
  {
    if steps != [] {
      StepAnswers(base, s, steps[0]);
      RunAnswers(base, Post(s, steps[0]), steps[1..]);
    }
  }

  // ---------- every answer is due ----------

  lemma FailsOnlyIfCallsFail(s: Sys, step: Step, id: nat)
    requires Enabled(s, step) && id in Post(s, step).requests && Post(s, step).requests[id].phase == Done(Failed(StoreFailure))
    requires id in s.requests ==> s.requests[id].phase != Done(Failed(StoreFailure))
    requires forall k :: k in s.requests && s.requests[k].phase.GetDomain? && s.domain.Some? ==> Decode(s.domain.value) != Err(StoreFailure)
    ensures step == StoreFails(id)
  {
    if step.Advance? && s.requests[step.id].phase.Edit? && s.requests[step.id].task.Mutate? {
      var phase := s.requests[step.id].phase;
      if VoiceDomain.Mutated(phase.prior, s.requests[step.id].task.op, Stamp(phase.pruneAt, s.clock, step.generation)).Err? {
        RefusalKinds(phase.prior, s.requests[step.id].task.op, Stamp(phase.pruneAt, s.clock, step.generation));
      }
    }
  }

  /** A request answers with a failed call only if one of its calls failed. */
  lemma {:induction false} FailedCalls(s: Sys, steps: seq<Step>, id: nat)
    requires Run(s, steps) && id in After(s, steps).requests && After(s, steps).requests[id].phase == Done(Failed(StoreFailure))
    requires id in s.requests ==> s.requests[id].phase != Done(Failed(StoreFailure))
    ensures StoreFails(id) in steps
    decreases |steps|
  {
    if steps != [] {
      var t := Post(s, steps[0]);
      if id in t.requests && t.requests[id].phase == Done(Failed(StoreFailure)) {
        FailsOnlyIfCallsFail(s, steps[0], id);
      } else {
        FailedCalls(t, steps[1..], id);
      }
    }
  }

  /**
   Every answer is due, in every interleaving. A refused operation was refused by the snapshot stored at some moment of
   the request, at times the clock showed meanwhile; an unreadable value was stored at some moment; a failed call failed;
   and a mutation gives up only when others have written twenty times since it began. A read is never refused and never
   gives up.
   */
  lemma EveryAnswerIsDue(s: Sys, steps: seq<Step>, id: nat)
    requires Init(s) && Run(s, steps)
    requires id in After(s, steps).requests && After(s, steps).requests[id].phase.Done?
    ensures var (log, r) := (After(s, steps).log, After(s, steps).requests[id]);
            && r.begun <= r.ended <= |log| && r.since <= r.until
            && Due(s.domain, log, id, r)
            && (r.phase.reply == Failed(StoreFailure) ==> StoreFails(id) in steps)
  {
    RunAnswers(s.domain, s, steps);
    var t := After(s, steps);
    assert AnswerOk(s.domain, t.log, t.clock, id, t.requests[id]);
    if t.requests[id].phase.reply == Failed(StoreFailure) {
      FailedCalls(s, steps, id);
    }
  }

  // ---------- a mutation that nobody overtakes ----------

  /** The reply that applying `op` to `v` calls for. */
  predicate Answers(reply: Reply, v: Snapshot, op: Op, stamp: Stamp) {
    match Apply(v, op, stamp)
    case Ok(next) => reply == Mutated(PrunedSnapshot(v, stamp.pruneAt), next)
    case Err(e) => reply == Failed(e)
  }

  /** The reply is what some clock readings made during the request call for. */
  ghost predicate AnswersWithin(r: Request, v: Snapshot, op: Op)
    requires r.phase.Done?
  {
    exists stamp :: Within(stamp, r.since, r.until) && Answers(r.phase.reply, v, op, stamp)
  }

  lemma {:induction false} OnlyOwn(log: seq<Event>, id: nat, j: nat)
    requires ByOthers(log, id) == 0 && j < |log|
    ensures log[j].id == id
    decreases |log|
  {
    var n := |log| - 1;
    if j < n {
      OnlyOwn(log[..n], id, j);
    }
  }

  lemma StoredAfterImport(base: Option<Raw>, log: seq<Event>, k: nat)
    requires k < |log| && log[k].Import?
    ensures Replay(base, log[..k + 1]) == Some(ImportedRaw(log[k].rooms, log[k].presence, log[k].at))
  {
    assert log[..k + 1][..k] == log[..k];
  }

  /** While only `id` writes, and commits nothing, the one thing that can happen is its import of an empty key. */
  lemma OwnStretch(base: Option<Raw>, log: seq<Event>, id: nat, begun: nat, m: nat)
    requires Legal(base, log) && begun <= m <= |log|
    requires forall j :: begun <= j < m ==> log[j].id == id && !log[j].Commit?
    ensures Replay(base, log[..begun]).Some? ==> m == begun
    ensures m <= begun + 1
    ensures m == begun + 1 ==> log[begun].Import? && WithinLimits(log[begun].rooms, log[begun].presence)
  {
    forall j | begun <= j < m ensures Replay(base, log[..j]) == None && WithinLimits(log[j].rooms, log[j].presence) {
      assert LegalEvent(base, log, j);
    }
    if begun < m {
      StoredAfterImport(base, log, begun);
    }
  }

  lemma OwnStretchOf(base: Option<Raw>, log: seq<Event>, id: nat, r: Request, m: nat)
    requires Legal(base, log) && r.begun <= m <= r.ended <= |log| && ByOthers(log[r.begun..r.ended], id) == 0
    requires forall k :: r.begun <= k < m ==> !Committed(log, id, k)
    ensures Replay(base, log[..r.begun]).Some? ==> m == r.begun
    ensures m <= r.begun + 1
    ensures m == r.begun + 1 ==> log[r.begun].Import? && log[r.begun].id == id && WithinLimits(log[r.begun].rooms, log[r.begun].presence)
  {
    var own := log[r.begun..r.ended];
    forall j | r.begun <= j < m ensures log[j].id == id && !log[j].Commit? {
      OnlyOwn(own, id, j - r.begun);
      assert own[j - r.begun] == log[j];
      assert !Committed(log, id, j);
    }
    OwnStretch(base, log, id, r.begun, m);
  }

  /** The snapshot a request works on after its own import. */
  lemma ImportedIs(base: Option<Raw>, log: seq<Event>, k: nat)
    requires k < |log| && log[k].Import? && WithinLimits(log[k].rooms, log[k].presence)
    ensures Readable(base, log[..k + 1]) && SnapshotAfter(base, log[..k + 1]) == ImportedSnapshot(log[k].rooms, log[k].presence, log[k].at)
  {
    StoredAfterImport(base, log, k);
    ImportReadable(log[k].rooms, log[k].presence, log[k].at);
  }

  /** The value stored when the request began, or the one it imported. */
  ghost predicate WorkedOn(base: Option<Raw>, log: seq<Event>, id: nat, r: Request, v: Snapshot)
    requires r.begun <= r.ended <= |log|
  {
    if Replay(base, log[..r.begun]).Some? then
      Readable(base, log[..r.begun]) && v == SnapshotAfter(base, log[..r.begun])
    else
      && r.begun < r.ended && log[r.begun].Import? && log[r.begun].id == id
      && v == ImportedSnapshot(log[r.begun].rooms, log[r.begun].presence, log[r.begun].at)
  }

  /** A snapshot read at a moment up to which only the request itself wrote. */
  lemma WorkedOnAt(base: Option<Raw>, log: seq<Event>, id: nat, r: Request, k: nat)
    requires Legal(base, log) && r.begun <= k <= r.ended <= |log| && ByOthers(log[r.begun..r.ended], id) == 0
    requires forall j :: r.begun <= j < k ==> !Committed(log, id, j)
    requires Readable(base, log[..k])
    ensures WorkedOn(base, log, id, r, SnapshotAfter(base, log[..k]))
  {
    OwnStretchOf(base, log, id, r, k);
    if Replay(base, log[..r.begun]).None? {
      ImportedIs(base, log, r.begun);
    }
  }

  lemma UnovertakenEffect(base: Option<Raw>, log: seq<Event>, id: nat, r: Request, prior: Snapshot, next: Snapshot, k: nat)
    requires Legal(base, log) && r.begun <= k < r.ended <= |log| && ByOthers(log[r.begun..r.ended], id) == 0 && r.task.Mutate?
    requires r.phase == Done(Mutated(prior, next)) && TookEffect(base, log, k, id, r.task.op, prior, next) && Within(log[k].stamp, r.since, r.until)
    requires forall j, i :: Committed(log, id, j) && Committed(log, id, i) ==> j == i
    ensures exists v :: WorkedOn(base, log, id, r, v) && AnswersWithin(r, v, r.task.op)
  {
    assert Committed(log, id, k);
    WorkedOnAt(base, log, id, r, k);
    assert Answers(r.phase.reply, SnapshotAfter(base, log[..k]), r.task.op, log[k].stamp);
  }

  lemma UnovertakenRefusal(base: Option<Raw>, log: seq<Event>, id: nat, r: Request, e: Failure)
    requires Legal(base, log) && r.begun <= r.ended <= |log| && ByOthers(log[r.begun..r.ended], id) == 0 && r.task.Mutate?
    requires r.phase == Done(Failed(e)) && RefusalDue(base, log, r, e)
    requires forall k :: !Committed(log, id, k)
    ensures exists v :: WorkedOn(base, log, id, r, v) && AnswersWithin(r, v, r.task.op)
  {
    var k: nat, stamp :| r.begun <= k <= r.ended && RefusedBy(base, log, k, r.task.op, stamp, e) && Within(stamp, r.since, r.until);
    WorkedOnAt(base, log, id, r, k);
    assert Answers(r.phase.reply, SnapshotAfter(base, log[..k]), r.task.op, stamp);
  }

  lemma UnovertakenCorrupt(base: Option<Raw>, log: seq<Event>, id: nat, r: Request)
    requires Legal(base, log) && r.begun <= r.ended <= |log| && ByOthers(log[r.begun..r.ended], id) == 0
    requires r.phase == Done(Failed(Corrupt)) && Due(base, log, id, r)
    requires forall k :: !Committed(log, id, k)
    ensures UnreadableAt(base, log, r.begun)
  {
    var k :| r.begun <= k <= r.ended && UnreadableAt(base, log, k);
    OwnStretchOf(base, log, id, r, k);
    if k == r.begun + 1 {
      ImportedIs(base, log, r.begun);
    }
  }

  /**
   A mutation none of whose calls fail, while nobody else writes: on a readable value it answers with the outcome of its
   operation on that value, on an empty key with the outcome on the value it imported, and on an unreadable value, and
   only then, that the value is corrupt.
   */
  lemma UnovertakenAnswer(s: Sys, steps: seq<Step>, id: nat)
    requires Init(s) && Run(s, steps) && StoreFails(id) !in steps
    requires id in After(s, steps).requests && After(s, steps).requests[id].phase.Done? && After(s, steps).requests[id].task.Mutate?
    requires var (log, r) := (After(s, steps).log, After(s, steps).requests[id]);
             r.begun <= r.ended <= |log| && ByOthers(log[r.begun..r.ended], id) == 0
    ensures var (log, r) := (After(s, steps).log, After(s, steps).requests[id]);
            if UnreadableAt(s.domain, log, r.begun) then r.phase.reply == Failed(Corrupt)
            else exists v :: WorkedOn(s.domain, log, id, r, v) && AnswersWithin(r, v, r.task.op)
  {
    RunKeeps(s.domain, s, steps);
    EveryAnswerIsDue(s, steps, id);
    UnovertakenDue(s.domain, After(s, steps).log, id, After(s, steps).requests[id]);
  }

  lemma UnovertakenDue(base: Option<Raw>, log: seq<Event>, id: nat, r: Request)
    requires Legal(base, log) && RequestOk(base, log, id, r)
    requires r.phase.Done? && r.task.Mutate? && r.begun <= r.ended <= |log| && ByOthers(log[r.begun..r.ended], id) == 0
    requires Due(base, log, id, r) && r.phase.reply != Failed(StoreFailure)
    ensures if UnreadableAt(base, log, r.begun) then r.phase.reply == Failed(Corrupt)
            else exists v :: WorkedOn(base, log, id, r, v) && AnswersWithin(r, v, r.task.op)
  {
    match r.phase.reply {
      case Mutated(prior, next) =>
        var k :| r.begun <= k < r.ended && TookEffect(base, log, k, id, r.task.op, prior, next) && Within(log[k].stamp, r.since, r.until);
        UnovertakenEffect(base, log, id, r, prior, next, k);
      case Failed(e) =>
        if e.Corrupt? {
          UnovertakenCorrupt(base, log, id, r);
        } else {
          UnovertakenRefusal(base, log, id, r, e);
        }
    }
  }

  // ---------- what an import reads ----------

  /** The older values in sight are among `rs` and `ps`, and each import was made by its request while it ran. */
  ghost predicate OldIn(s: Sys, rs: set<Legacy<seq<Room>>>, ps: set<Legacy<Presence>>) {
    && s.rooms in rs && s.presence in ps
    && (forall id :: id in s.requests ==> OldPhase(s, s.requests[id], rs, ps))
    && (forall k :: 0 <= k < |s.log| && s.log[k].Import? ==> OldImport(s, s.log[k], k, rs, ps))
  }

  ghost predicate OldPhase(s: Sys, r: Request, rs: set<Legacy<seq<Room>>>, ps: set<Legacy<Presence>>) {
    && r.begun <= |s.log| && r.since <= s.clock
    && match r.phase
       case GetPresence(_, _, rooms) => rooms in rs
       case Normalize(_, _, rooms, presence) => rooms in rs && presence in ps
       case ImportCas(_, _, rooms, presence, at) => rooms in rs && presence in ps && r.since <= at <= s.clock
       case _ => true
  }

  ghost predicate OldImport(s: Sys, e: Event, k: nat, rs: set<Legacy<seq<Room>>>, ps: set<Legacy<Presence>>)
    requires e.Import?
  {
    && e.rooms in rs && e.presence in ps
    && e.id in s.requests
    && var r := s.requests[e.id];
       && r.begun <= k && r.since <= e.at <= s.clock
       && (r.phase.Done? ==> k < r.ended && e.at <= r.until)
  }

  predicate WritesAmong(step: Step, rs: set<Legacy<seq<Room>>>, ps: set<Legacy<Presence>>) {
    step.OldBuildWrites? ==> step.rooms in rs && step.presence in ps
  }

  lemma PhaseReadsOld(s: Sys, step: Step, rs: set<Legacy<seq<Room>>>, ps: set<Legacy<Presence>>, id: nat)
    requires OldIn(s, rs, ps) && Enabled(s, step) && id in Post(s, step).requests
    ensures OldPhase(Post(s, step), Post(s, step).requests[id], rs, ps)
  {
    if id in s.requests {
      assert OldPhase(s, s.requests[id], rs, ps);
    }
  }

  lemma LogReadsOld(s: Sys, step: Step, rs: set<Legacy<seq<Room>>>, ps: set<Legacy<Presence>>, k: nat)
    requires OldIn(s, rs, ps) && Enabled(s, step) && k < |Post(s, step).log| && Post(s, step).log[k].Import?
    ensures OldImport(Post(s, step), Post(s, step).log[k], k, rs, ps)
  {
    if k < |s.log| {
      assert OldImport(s, s.log[k], k, rs, ps);
    } else {
      assert OldPhase(s, s.requests[step.id], rs, ps);
    }
  }

  lemma StepReadsOld(s: Sys, step: Step, rs: set<Legacy<seq<Room>>>, ps: set<Legacy<Presence>>)
    requires OldIn(s, rs, ps) && Enabled(s, step) && WritesAmong(step, rs, ps)
    ensures OldIn(Post(s, step), rs, ps)
  {
    var t := Post(s, step);
    forall id | id in t.requests ensures OldPhase(t, t.requests[id], rs, ps) {
      PhaseReadsOld(s, step, rs, ps, id);
    }
    forall k | 0 <= k < |t.log| && t.log[k].Import? ensures OldImport(t, t.log[k], k, rs, ps) {
      LogReadsOld(s, step, rs, ps, k);
    }
  }

  lemma {:induction false} RunReadsOld(s: Sys, steps: seq<Step>, rs: set<Legacy<seq<Room>>>, ps: set<Legacy<Presence>>)
    requires OldIn(s, rs, ps) && Run(s, steps) && forall step :: step in steps ==> WritesAmong(step, rs, ps)
    ensures OldIn(After(s, steps), rs, ps)
    decreases |steps|
  {
    if steps != [] {
      StepReadsOld(s, steps[0], rs, ps);
      RunReadsOld(Post(s, steps[0]), steps[1..], rs, ps);
    }
  }

  /**
   What an import takes over are the two older values as they stood before the run or as an old build wrote them, and it
   prunes them by a clock reading made during its request, which is the one in the log.
   */
  lemma ImportReadsTheOldKeys(s: Sys, steps: seq<Step>, rs: set<Legacy<seq<Room>>>, ps: set<Legacy<Presence>>, k: nat)
    requires Init(s) && Run(s, steps) && s.rooms in rs && s.presence in ps
    requires forall step :: step in steps ==> WritesAmong(step, rs, ps)
    requires k < |After(s, steps).log| && After(s, steps).log[k].Import?
    ensures var (t, e) := (After(s, steps), After(s, steps).log[k]);
            && e.rooms in rs && e.presence in ps && e.id in t.requests
            && var r := t.requests[e.id];
               && r.begun <= k && r.since <= e.at
               && (r.phase.Done? ==> k < r.ended && e.at <= r.until)
  {
    RunReadsOld(s, steps, rs, ps);
    assert OldImport(After(s, steps), After(s, steps).log[k], k, rs, ps);
  }

  // ---------- every request answers ----------

  /** How many more of its own steps a request can take. */
  function Left(phase: Phase): int {
    match phase
    case GetDomain(outer, inner) => (19 - outer) * 9 + if inner == 0 then 9 else 4
    case GetRooms(outer, _) => (19 - outer) * 9 + 8
    case GetPresence(outer, _, _) => (19 - outer) * 9 + 7
    case Normalize(outer, _, _, _) => (19 - outer) * 9 + 6
    case ImportCas(outer, _, _, _, _) => (19 - outer) * 9 + 5
    case Prune(outer, _, _) => (19 - outer) * 9 + 3
    case Edit(outer, _, _, _) => (19 - outer) * 9 + 2
    case WriteCas(outer, _, _, _, _) => (19 - outer) * 9 + 1
    case Done(_) => 0
  }

  function LeftOf(s: Sys, id: nat): int {
    if id in s.requests then Left(s.requests[id].phase) else 180
  }

  predicate OwnStep(step: Step, id: nat) {
    (step.Advance? || step.StoreFails?) && step.id == id
  }

  function OwnSteps(steps: seq<Step>, id: nat): nat {
    if steps == [] then 0 else (if OwnStep(steps[0], id) then 1 else 0) + OwnSteps(steps[1..], id)
  }

  /** What the account of a request says of its attempts. */
  predicate Attempts(r: Request, stored: bool) {
    match r.phase
    case GetDomain(outer, inner) => outer <= 19 && inner <= 1 && (inner == 1 ==> stored)
    case GetRooms(outer, inner) => outer <= 19 && inner == 0
    case GetPresence(outer, inner, _) => outer <= 19 && inner == 0
    case Normalize(outer, inner, _, _) => outer <= 19 && inner == 0
    case ImportCas(outer, inner, _, _, _) => outer <= 19 && inner == 0
    case Prune(outer, _, _) => outer <= 19
    case Edit(outer, _, _, _) => outer <= 19 && r.task.Mutate?
    case WriteCas(outer, _, _, _, _) => outer <= 19 && r.task.Mutate?
    case Done(_) => true
  }

  lemma AttemptsBounded(base: Option<Raw>, s: Sys, id: nat)
    requires AnswersInv(base, s) && id in s.requests
    ensures Attempts(s.requests[id], s.domain.Some?)
  {
    assert AnswerOk(base, s.log, s.clock, id, s.requests[id]) && RequestOk(base, s.log, id, s.requests[id]);
  }

  lemma OwnStepCounts(s: Sys, step: Step, id: nat)
    requires id in s.requests && Attempts(s.requests[id], s.domain.Some?) && Enabled(s, step) && OwnStep(step, id)
    ensures 0 <= LeftOf(Post(s, step), id) < LeftOf(s, id)
  {
  }

  lemma OtherStepCounts(s: Sys, step: Step, id: nat)
    requires Enabled(s, step) && !OwnStep(step, id)
    ensures LeftOf(Post(s, step), id) == LeftOf(s, id)
  {
  }

  lemma {:induction false} OwnStepsBounded(base: Option<Raw>, s: Sys, steps: seq<Step>, id: nat)
    requires AnswersInv(base, s) && Run(s, steps) && 0 <= LeftOf(s, id)
    ensures OwnSteps(steps, id) + LeftOf(After(s, steps), id) <= LeftOf(s, id) && 0 <= LeftOf(After(s, steps), id)
    decreases |steps|
  {
    if steps != [] {
      StepAnswers(base, s, steps[0]);
      if OwnStep(steps[0], id) {
        AttemptsBounded(base, s, id);
        OwnStepCounts(s, steps[0], id);
      } else {
        OtherStepCounts(s, steps[0], id);
      }
      OwnStepsBounded(base, Post(s, steps[0]), steps[1..], id);
    }
  }

  /**
   Every request answers: until it has, its next step can be taken, and it never takes more than 180 of them, whatever
   the others do in between.
   */
  lemma EveryRequestAnswers(s: Sys, steps: seq<Step>, id: nat)
    requires Init(s) && Run(s, steps)
    ensures OwnSteps(steps, id) <= 180
    ensures var t := After(s, steps);
            id in t.requests && !t.requests[id].phase.Done? ==>
              forall generation :: generation !in t.issued && generation != "" ==> Enabled(t, Advance(id, generation))
  {
    OwnStepsBounded(s.domain, s, steps, id);
  }
}
