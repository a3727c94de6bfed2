/**
 Any number of requests, on any number of nodes, run the read / prune / mutate / compare-and-set loop
 over one stored value. A step is one call to the key-value store, one clock reading or one local
 computation; the steps of different requests interleave freely.
 */
module DomainProtocol {
  import opened Outcomes
  import opened VoiceDomain
  import opened LegacyImport

  const VERSION := 1
  const WRITE_ATTEMPTS := 20

  // ---------- the stored value ----------

  /** What the canonical key can hold; a field is None when the JSON holds null or nothing there. */
  datatype Raw =
    | Json(version: int, rooms: Option<seq<Room>>, presence: Option<Presence>)
    | Unparsable(text: string)

  function Encode(s: Snapshot): Raw {
    Json(VERSION, Some(s.rooms), Some(s.presence))
  }

  function Decode(raw: Raw): Result<Snapshot, Failure> {
    match raw
    case Unparsable(_) => Err(Corrupt)
    case Json(version, rooms, presence) =>
      if version != VERSION || rooms.None? || presence.None? then Err(Corrupt)
      else Ok(Snapshot(rooms.value, presence.value))
  }

  /** Decoding inverts encoding, and nothing else decodes: a readable value is the encoding of its snapshot. */
  lemma RoundTrip(s: Snapshot, raw: Raw)
    ensures Decode(raw) == Ok(s) <==> raw == Encode(s)
  {
  }

  /** One of the two older keys. */
  datatype Legacy<T> =
    | Absent
    | Unreadable
    | Null
    | Stored(value: T)

  function OldRooms(legacy: Legacy<seq<Room>>): seq<Room> {
    if legacy.Stored? then legacy.value else []
  }

  function OldPresence(legacy: Legacy<Presence>): Presence {
    if legacy.Stored? then legacy.value else map[]
  }

  /** The value the first read writes; a literal JSON null stays null. */
  function ImportedRaw(rooms: Legacy<seq<Room>>, presence: Legacy<Presence>, now: int): Raw {
    Json(VERSION,
         if rooms.Null? then None else Some(OldRooms(rooms)),
         if presence.Null? then None else Some(Imported(OldRooms(rooms), OldPresence(presence), now)))
  }

  function ImportedSnapshot(rooms: Legacy<seq<Room>>, presence: Legacy<Presence>, now: int): Snapshot {
    Snapshot(OldRooms(rooms), Imported(OldRooms(rooms), OldPresence(presence), now))
  }

  /** The import leaves a readable value exactly when neither older key holds a literal null. */
  lemma ImportReadable(rooms: Legacy<seq<Room>>, presence: Legacy<Presence>, now: int)
    ensures Decode(ImportedRaw(rooms, presence, now)).Ok? <==> !rooms.Null? && !presence.Null?
    ensures !rooms.Null? && !presence.Null? ==> ImportedRaw(rooms, presence, now) == Encode(ImportedSnapshot(rooms, presence, now))
  {
  }

  predicate WithinLimits(rooms: Legacy<seq<Room>>, presence: Legacy<Presence>) {
    && !rooms.Null? && !presence.Null?
    && DistinctIds(OldRooms(rooms)) && |OldRooms(rooms)| <= MAX_ROOMS
    && forall r :: r in OldPresence(presence) ==> |OldPresence(presence)[r]| <= MAX_PER_ROOM
  }

  // ---------- requests ----------

  datatype Task = Read | Mutate(op: Op)

  datatype Reply =
    | Loaded(s: Snapshot)
    | Mutated(prior: Snapshot, next: Snapshot)
    | Failed(error: Failure)

  /** `outer` counts attempts of the mutation loop, `inner` those of the read loop. */
  datatype Phase =
    | GetDomain(outer: nat, inner: nat)
    | GetRooms(outer: nat, inner: nat)
    | GetPresence(outer: nat, inner: nat, rooms: Legacy<seq<Room>>)
    | Normalize(outer: nat, inner: nat, rooms: Legacy<seq<Room>>, presence: Legacy<Presence>)
    | ImportCas(outer: nat, inner: nat, rooms: Legacy<seq<Room>>, presence: Legacy<Presence>, at: int)
    | Prune(outer: nat, s: Snapshot, raw: Raw)
    | Edit(outer: nat, prior: Snapshot, raw: Raw, pruneAt: int)
    | WriteCas(outer: nat, raw: Raw, prior: Snapshot, next: Snapshot, stamp: Stamp)
    | Done(reply: Reply)

  /**
   `begun` is the number of events that had happened when the request started, `ended` when it answered; `since` and
   `until` are what the clock showed then.
   */
  datatype Request = Request(task: Task, begun: nat, ended: nat, since: int, until: int, phase: Phase)

  datatype Event =
    | Import(id: nat, rooms: Legacy<seq<Room>>, presence: Legacy<Presence>, at: int)
    | Commit(id: nat, op: Op, stamp: Stamp)

  datatype Sys = Sys(
    domain: Option<Raw>, rooms: Legacy<seq<Room>>, presence: Legacy<Presence>,
    clock: int, issued: set<string>, requests: map<nat, Request>, log: seq<Event>)

  datatype Step =
    | Tick(to: int)
    | OldBuildWrites(rooms: Legacy<seq<Room>>, presence: Legacy<Presence>)
    | Begin(id: nat, task: Task)
    | StoreFails(id: nat)
    | Advance(id: nat, generation: string)

  predicate CallsStore(phase: Phase) {
    phase.GetDomain? || phase.GetRooms? || phase.GetPresence? || phase.ImportCas? || phase.WriteCas?
  }

  ghost predicate Enabled(s: Sys, step: Step) {
    match step
    case Tick(to) => s.clock <= to
    case OldBuildWrites(rooms, presence) => WithinLimits(rooms, presence)
    case Begin(id, _) => id !in s.requests
    case StoreFails(id) => id in s.requests && CallsStore(s.requests[id].phase)
    case Advance(id, generation) =>
      && id in s.requests && !s.requests[id].phase.Done?
      && (s.requests[id].phase.Edit? ==> generation !in s.issued && generation != "")
  }

  function To(s: Sys, id: nat, phase: Phase): Sys
    requires id in s.requests
  {
    s.(requests := s.requests[id := s.requests[id].(
         phase := phase, ended := if phase.Done? then |s.log| else 0, until := if phase.Done? then s.clock else 0)])
  }

  /** What a request does with a value it has read. */
  function AfterRead(task: Task, outer: nat, s: Snapshot, raw: Raw): Phase {
    if task.Read? then Done(Loaded(s)) else Prune(outer, s, raw)
  }

  function Advanced(s: Sys, id: nat, generation: string): Sys
    requires id in s.requests && !s.requests[id].phase.Done?
  {
    var task := s.requests[id].task;
    match s.requests[id].phase
    case GetDomain(outer, inner) =>
      if inner >= WRITE_ATTEMPTS then
        To(s, id, Done(Failed(Contended)))
      else if s.domain.None? then
        To(s, id, GetRooms(outer, inner))
      else (
        match Decode(s.domain.value)
        case Ok(value) => To(s, id, AfterRead(task, outer, value, s.domain.value))
        case Err(e) => To(s, id, Done(Failed(e))))
    case GetRooms(outer, inner) => To(s, id, GetPresence(outer, inner, s.rooms))
    case GetPresence(outer, inner, rooms) => To(s, id, Normalize(outer, inner, rooms, s.presence))
    case Normalize(outer, inner, rooms, presence) => To(s, id, ImportCas(outer, inner, rooms, presence, s.clock))
    case ImportCas(outer, inner, rooms, presence, at) =>
      if s.domain.Some? then
        To(s, id, GetDomain(outer, inner + 1))
      else
        var next := ImportedSnapshot(rooms, presence, at);
        To(s.(domain := Some(ImportedRaw(rooms, presence, at)), log := s.log + [Import(id, rooms, presence, at)]),
           id, AfterRead(task, outer, next, Encode(next)))
    case Prune(outer, value, raw) =>
      To(s, id, Edit(outer, PrunedSnapshot(value, s.clock), raw, s.clock))
    case Edit(outer, prior, raw, pruneAt) =>
      if task.Read? then s else
      var stamp := Stamp(pruneAt, s.clock, generation);
      var t := s.(issued := s.issued + {generation});
      (match VoiceDomain.Mutated(prior, task.op, stamp)
       case Ok(next) => To(t, id, WriteCas(outer, raw, prior, next.(rooms := SortedRooms(next.rooms)), stamp))
       case Err(e) => To(t, id, Done(Failed(e))))
    case WriteCas(outer, raw, prior, next, stamp) =>
      if task.Read? then s
      else if s.domain == Some(raw) then
        To(s.(domain := Some(Encode(next)), log := s.log + [Commit(id, task.op, stamp)]), id, Done(Mutated(prior, next)))
      else if outer + 1 >= WRITE_ATTEMPTS then
        To(s, id, Done(Failed(Contended)))
      else
        To(s, id, GetDomain(outer + 1, 0))
  }

  ghost function Post(s: Sys, step: Step): Sys
    requires Enabled(s, step)
  {
    match step
    case Tick(to) => s.(clock := to)
    case OldBuildWrites(rooms, presence) => s.(rooms := rooms, presence := presence)
    case Begin(id, task) => s.(requests := s.requests[id := Request(task, |s.log|, 0, s.clock, 0, GetDomain(0, 0))])
    case StoreFails(id) => To(s, id, Done(Failed(StoreFailure)))
    case Advance(id, generation) => Advanced(s, id, generation)
  }

  /** A system in which nothing has run yet; the canonical key may hold anything. */
  ghost predicate Init(s: Sys) {
    s.requests == map[] && s.log == [] && WithinLimits(s.rooms, s.presence)
  }

  /** `steps` can be taken one after the other from `s`. */
  ghost predicate Run(s: Sys, steps: seq<Step>)
    decreases |steps|
  {
    steps == [] || (Enabled(s, steps[0]) && Run(Post(s, steps[0]), steps[1..]))
  }

  ghost function After(s: Sys, steps: seq<Step>): Sys
    requires Run(s, steps)
    decreases |steps|
  {
    if steps == [] then s else After(Post(s, steps[0]), steps[1..])
  }

  // ---------- the sequential run ----------

  /** The stored value after the events of `log`, taken one at a time from `base`. */
  function Replay(base: Option<Raw>, log: seq<Event>): Option<Raw>
    decreases |log|
  {
    if log == [] then
      base
    else
      var before := Replay(base, log[..|log| - 1]);
      match log[|log| - 1]
      case Import(_, rooms, presence, at) => Some(ImportedRaw(rooms, presence, at))
      case Commit(_, op, stamp) =>
        if before.None? || Decode(before.value).Err? then before
        else
          match Apply(Decode(before.value).value, op, stamp)
          case Ok(next) => Some(Encode(next))
          case Err(_) => before
  }

  /** The snapshot an event finds. */
  predicate Readable(base: Option<Raw>, log: seq<Event>) {
    Replay(base, log).Some? && Decode(Replay(base, log).value).Ok?
  }

  function SnapshotAfter(base: Option<Raw>, log: seq<Event>): Snapshot
    requires Readable(base, log)
  {
    Decode(Replay(base, log).value).value
  }

  /** Each event could happen where it stands: an import on an empty key, an operation that succeeds on a readable one. */
  predicate LegalEvent(base: Option<Raw>, log: seq<Event>, k: nat)
    requires k < |log|
  {
    match log[k]
    case Import(_, rooms, presence, _) => Replay(base, log[..k]) == None && WithinLimits(rooms, presence)
    case Commit(_, op, stamp) => Readable(base, log[..k]) && Apply(SnapshotAfter(base, log[..k]), op, stamp).Ok?
  }

  predicate Legal(base: Option<Raw>, log: seq<Event>) {
    forall k :: 0 <= k < |log| ==> LegalEvent(base, log, k)
  }

  /** Event `k` is request `id` doing `op`, with the prior and next snapshots it reports. */
  ghost predicate TookEffect(base: Option<Raw>, log: seq<Event>, k: nat, id: nat, op: Op, prior: Snapshot, next: Snapshot) {
    && k < |log|
    && log[k].Commit? && log[k].id == id && log[k].op == op
    && Readable(base, log[..k])
    && prior == PrunedSnapshot(SnapshotAfter(base, log[..k]), log[k].stamp.pruneAt)
    && Apply(SnapshotAfter(base, log[..k]), op, log[k].stamp) == Ok(next)
  }

  ghost predicate Committed(log: seq<Event>, id: nat, k: nat) {
    k < |log| && log[k].Commit? && log[k].id == id
  }

  /** What a request's phase promises about the values it holds and about the log. */
  ghost predicate RequestOk(base: Option<Raw>, log: seq<Event>, id: nat, r: Request) {
    && r.begun <= |log|
    && (r.phase.Done? ==> r.begun <= r.ended <= |log|)
    && (match r.phase
        case GetPresence(_, _, rooms) => WithinLimits(rooms, Absent)
        case Normalize(_, _, rooms, presence) => WithinLimits(rooms, presence)
        case ImportCas(_, _, rooms, presence, _) => WithinLimits(rooms, presence)
        case Prune(_, s, raw) => r.task.Mutate? && Decode(raw) == Ok(s)
        case Edit(_, prior, raw, pruneAt) =>
          r.task.Mutate? && Decode(raw).Ok? && prior == PrunedSnapshot(Decode(raw).value, pruneAt)
        case WriteCas(_, raw, prior, next, stamp) =>
          && r.task.Mutate? && Decode(raw).Ok?
          && prior == PrunedSnapshot(Decode(raw).value, stamp.pruneAt)
          && Apply(Decode(raw).value, r.task.op, stamp) == Ok(next)
        case Done(Mutated(prior, next)) =>
          r.task.Mutate? && exists k :: r.begun <= k < r.ended && TookEffect(base, log, k, id, r.task.op, prior, next)
        case Done(Loaded(s)) =>
          exists k :: r.begun <= k <= r.ended && Replay(base, log[..k]) == Some(Encode(s))
        case _ => true)
    && (if r.phase.Done? && r.phase.reply.Mutated?
        then forall j, k :: Committed(log, id, j) && Committed(log, id, k) ==> j == k
        else forall k :: !Committed(log, id, k))
  }

  ghost predicate Inv(base: Option<Raw>, s: Sys) {
    && WithinLimits(s.rooms, s.presence)
    && s.domain == Replay(base, s.log)
    && Legal(base, s.log)
    && (forall id :: id in s.requests ==> RequestOk(base, s.log, id, s.requests[id]))
    && (forall k :: 0 <= k < |s.log| ==> s.log[k].id in s.requests)
  }

  lemma LegalAppend(base: Option<Raw>, log: seq<Event>, e: Event)
    requires Legal(base, log) && LegalEvent(base, log + [e], |log|)
    ensures Legal(base, log + [e])
  {
    forall k | 0 <= k < |log| ensures LegalEvent(base, log + [e], k) {
      assert (log + [e])[..k] == log[..k];
      assert LegalEvent(base, log, k);
    }
  }

  /** Other requests' events do not disturb what a request holds. */
  lemma RequestKept(base: Option<Raw>, log: seq<Event>, e: Event, id: nat, r: Request)
    requires RequestOk(base, log, id, r)
    requires e.Commit? ==> e.id != id
    ensures RequestOk(base, log + [e], id, r)
  {
    forall k: nat ensures Committed(log + [e], id, k) <==> Committed(log, id, k) {
    }
    match r.phase {
      case Done(Mutated(prior, next)) =>
        var k :| r.begun <= k < r.ended && TookEffect(base, log, k, id, r.task.op, prior, next);
        assert (log + [e])[..k] == log[..k];
        assert TookEffect(base, log + [e], k, id, r.task.op, prior, next);
      case Done(Loaded(s)) =>
        var k :| r.begun <= k <= r.ended && Replay(base, log[..k]) == Some(Encode(s));
        assert (log + [e])[..k] == log[..k];
      case _ =>
    }
  }

  lemma ReadKeeps(base: Option<Raw>, log: seq<Event>, id: nat, r: Request, outer: nat, s: Snapshot, raw: Raw, until: int)
    requires r.begun <= |log| && forall k :: !Committed(log, id, k)
    requires Replay(base, log) == Some(raw) && Decode(raw) == Ok(s)
    ensures RequestOk(base, log, id, r.(phase := AfterRead(r.task, outer, s, raw), ended := if r.task.Read? then |log| else 0, until := until))
  {
    assert log[..|log|] == log;
    RoundTrip(s, raw);
  }

  lemma ImportStepKeeps(base: Option<Raw>, s: Sys, id: nat)
    requires Inv(base, s) && id in s.requests && s.requests[id].phase.ImportCas? && s.domain.None?
    ensures Inv(base, Advanced(s, id, ""))
  {
    var r := s.requests[id];
    var ImportCas(outer, inner, rooms, presence, at) := r.phase;
    var e := Import(id, rooms, presence, at);
    var log := s.log + [e];
    var t := Advanced(s, id, "");
    assert log[..|log| - 1] == s.log;
    assert LegalEvent(base, log, |s.log|);
    LegalAppend(base, s.log, e);
    ImportReadable(rooms, presence, at);
    forall k: nat ensures !Committed(log, id, k) {
      assert !Committed(s.log, id, k);
    }
    var next := ImportedSnapshot(rooms, presence, at);
    ReadKeeps(base, log, id, r, outer, next, Encode(next), if r.task.Read? then s.clock else 0);
    forall other | other in t.requests ensures RequestOk(base, log, other, t.requests[other]) {
      if other != id {
        RequestKept(base, s.log, e, other, s.requests[other]);
      }
    }
  }

  lemma CommitStepKeeps(base: Option<Raw>, s: Sys, id: nat)
    requires Inv(base, s) && id in s.requests && s.requests[id].phase.WriteCas? && s.domain == Some(s.requests[id].phase.raw)
    ensures Inv(base, Advanced(s, id, ""))
  {
    var r := s.requests[id];
    var WriteCas(outer, raw, prior, next, stamp) := r.phase;
    var e := Commit(id, r.task.op, stamp);
    var log := s.log + [e];
    var t := Advanced(s, id, "");
    assert log[..|log| - 1] == s.log == log[..|s.log|];
    assert LegalEvent(base, log, |s.log|);
    LegalAppend(base, s.log, e);
    assert TookEffect(base, log, |s.log|, id, r.task.op, prior, next);
    forall k: nat | Committed(log, id, k) ensures k == |s.log| {
      assert !Committed(s.log, id, k);
    }
    forall other | other in t.requests ensures RequestOk(base, log, other, t.requests[other]) {
      if other != id {
        RequestKept(base, s.log, e, other, s.requests[other]);
      }
    }
  }

  lemma PhaseChangeKeeps(base: Option<Raw>, s: Sys, t: Sys, id: nat, r: Request)
    requires Inv(base, s) && id in s.requests
    requires t.requests == s.requests[id := r]
    requires t.log == s.log && t.domain == s.domain && t.rooms == s.rooms && t.presence == s.presence
    requires RequestOk(base, s.log, id, r)
    ensures Inv(base, t)
  {
    forall other | other in t.requests ensures RequestOk(base, t.log, other, t.requests[other]) {
      if other != id {
        assert RequestOk(base, s.log, other, s.requests[other]);
      }
    }
  }

  /** The phase a step leads to, when it writes nothing. */
  lemma LocalPhaseOk(base: Option<Raw>, s: Sys, id: nat, generation: string)
    requires Inv(base, s) && Enabled(s, Advance(id, generation))
    requires !(s.requests[id].phase.ImportCas? && s.domain.None?)
    requires !(s.requests[id].phase.WriteCas? && s.domain == Some(s.requests[id].phase.raw))
    ensures var t := Advanced(s, id, generation);
            && id in t.requests && t.requests == s.requests[id := t.requests[id]]
            && t.log == s.log && t.domain == s.domain && t.rooms == s.rooms && t.presence == s.presence
            && RequestOk(base, s.log, id, t.requests[id])
  {
    var r := s.requests[id];
    assert RequestOk(base, s.log, id, r);
    match r.phase {
      case GetDomain(outer, inner) =>
        if inner < WRITE_ATTEMPTS && s.domain.Some? && Decode(s.domain.value).Ok? {
          ReadKeeps(base, s.log, id, r, outer, Decode(s.domain.value).value, s.domain.value, if r.task.Read? then s.clock else 0);
        }
      case Edit(outer, prior, raw, pruneAt) =>
        EditPhaseOk(base, s, id, generation);
      case _ =>
    }
  }

  lemma EditPhaseOk(base: Option<Raw>, s: Sys, id: nat, generation: string)
    requires Inv(base, s) && Enabled(s, Advance(id, generation)) && s.requests[id].phase.Edit?
    ensures var t := Advanced(s, id, generation);
            && id in t.requests && t.requests == s.requests[id := t.requests[id]]
            && t.log == s.log && t.domain == s.domain && t.rooms == s.rooms && t.presence == s.presence
            && RequestOk(base, s.log, id, t.requests[id])
  {
    var r := s.requests[id];
    assert RequestOk(base, s.log, id, r);
    var Edit(outer, prior, raw, pruneAt) := r.phase;
    var stamp := Stamp(pruneAt, s.clock, generation);
    if VoiceDomain.Mutated(prior, r.task.op, stamp).Ok? {
      assert Apply(Decode(raw).value, r.task.op, stamp).Ok?;
    }
  }

  lemma StepKeeps(base: Option<Raw>, s: Sys, step: Step)
    requires Inv(base, s) && Enabled(s, step)
    ensures Inv(base, Post(s, step))
  {
    match step {
      case Advance(id, generation) =>
        if s.requests[id].phase.ImportCas? && s.domain.None? {
          ImportStepKeeps(base, s, id);
        } else if s.requests[id].phase.WriteCas? && s.domain == Some(s.requests[id].phase.raw) {
          CommitStepKeeps(base, s, id);
        } else {
          LocalPhaseOk(base, s, id, generation);
          var t := Advanced(s, id, generation);
          PhaseChangeKeeps(base, s, t, id, t.requests[id]);
        }
      case Begin(id, task) =>
        assert forall k :: !Committed(s.log, id, k);
      case _ =>
    }
  }

  lemma {:induction false} RunKeeps(base: Option<Raw>, s: Sys, steps: seq<Step>)
    requires Inv(base, s) && Run(s, steps)
    ensures Inv(base, After(s, steps))
    decreases |steps|
  {
    if steps != [] {
      StepKeeps(base, s, steps[0]);
      RunKeeps(base, Post(s, steps[0]), steps[1..]);
    }
  }

  // ---------- serializability ----------

  /**
   In every interleaving the stored value is that of a sequential run of the logged events; a mutation
   that answered took effect exactly once, between its beginning and its answer, from the snapshot it reports; one
   that failed is not in the log; and a read answered with a value that was stored while it ran.
   */
  lemma Serializable(s: Sys, steps: seq<Step>)
    requires Init(s) && Run(s, steps)
    ensures var t := After(s, steps);
            && Legal(s.domain, t.log)
            && t.domain == Replay(s.domain, t.log)
            && forall id :: id in t.requests && t.requests[id].phase.Done? ==>
                 var r := t.requests[id];
                 r.begun <= r.ended <= |t.log| &&
                 match r.phase.reply
                 case Mutated(prior, next) =>
                   && r.task.Mutate?
                   && (exists k :: r.begun <= k < r.ended && TookEffect(s.domain, t.log, k, id, r.task.op, prior, next))
                   && forall j, k :: Committed(t.log, id, j) && Committed(t.log, id, k) ==> j == k
                 case Loaded(value) =>
                   && (exists k :: r.begun <= k <= r.ended && Replay(s.domain, t.log[..k]) == Some(Encode(value)))
                   && forall k :: !Committed(t.log, id, k)
                 case Failed(_) => forall k :: !Committed(t.log, id, k)
  {
    RunKeeps(s.domain, s, steps);
    var t := After(s, steps);
    forall id | id in t.requests && t.requests[id].phase.Done?
      ensures RequestOk(s.domain, t.log, id, t.requests[id])
    {
    }
  }

  lemma CommittedWithin(base: Option<Raw>, log: seq<Event>, id: nat, r: Request, i: nat)
    requires RequestOk(base, log, id, r) && r.phase.Done? && r.phase.reply.Mutated? && Committed(log, id, i)
    ensures r.begun <= i < r.ended
  {
    var k :| r.begun <= k < r.ended && TookEffect(base, log, k, id, r.task.op, r.phase.reply.prior, r.phase.reply.next);
    assert Committed(log, id, k);
  }

  /** The sequential run respects real time: of two mutations that answered, one that ended before the other began took effect before it. */
  lemma RealTimeOrder(s: Sys, steps: seq<Step>, a: nat, b: nat, i: nat, j: nat)
    requires Init(s) && Run(s, steps)
    requires var t := After(s, steps);
             && a in t.requests && t.requests[a].phase.Done? && t.requests[a].phase.reply.Mutated?
             && b in t.requests && t.requests[b].phase.Done? && t.requests[b].phase.reply.Mutated?
             && t.requests[a].ended <= t.requests[b].begun
             && Committed(t.log, a, i) && Committed(t.log, b, j)
    ensures i < j
  {
    RunKeeps(s.domain, s, steps);
    var t := After(s, steps);
    CommittedWithin(s.domain, t.log, a, t.requests[a], i);
    CommittedWithin(s.domain, t.log, b, t.requests[b], j);
  }

  /** The step on which a request fails, a refused move among them, leaves the stored value as it was. */
  lemma FailureWritesNothing(s: Sys, step: Step, id: nat)
    requires Enabled(s, step)
    requires id in Post(s, step).requests && Post(s, step).requests[id].phase.Done? && Post(s, step).requests[id].phase.reply.Failed?
    requires id in s.requests && !s.requests[id].phase.Done?
    ensures Post(s, step).domain == s.domain && Post(s, step).log == s.log
  {
  }

  // ---------- the whole-snapshot invariant ----------

  ghost predicate ConsistentRaw(raw: Option<Raw>) {
    raw.Some? && Decode(raw.value).Ok? ==> Consistent(Decode(raw.value).value)
  }

  lemma EventConsistent(base: Option<Raw>, log: seq<Event>, e: Event)
    requires ConsistentRaw(Replay(base, log)) && LegalEvent(base, log + [e], |log|)
    ensures ConsistentRaw(Replay(base, log + [e]))
  {
    assert (log + [e])[..|log|] == log;
    match e {
      case Import(_, rooms, presence, at) =>
        ImportReadable(rooms, presence, at);
        ImportIsConsistent(OldRooms(rooms), OldPresence(presence), at);
      case Commit(_, op, stamp) =>
        ApplyKeepsConsistent(SnapshotAfter(base, log), op, stamp);
    }
  }

  lemma LegalLast(base: Option<Raw>, log: seq<Event>)
    requires Legal(base, log) && log != []
    ensures var (front, e) := (log[..|log| - 1], log[|log| - 1]); Legal(base, front) && LegalEvent(base, front + [e], |front|)
  {
    LegalPrefix(base, log, |log| - 1);
    assert log == log[..|log| - 1] + [log[|log| - 1]];
    assert LegalEvent(base, log, |log| - 1);
  }

  lemma {:induction false} LegalLogConsistent(base: Option<Raw>, log: seq<Event>)
    requires ConsistentRaw(base) && Legal(base, log)
    ensures ConsistentRaw(Replay(base, log))
    decreases |log|
  {
    if log != [] {
      var (front, e) := (log[..|log| - 1], log[|log| - 1]);
      LegalLast(base, log);
      LegalLogConsistent(base, front);
      EventConsistent(base, front, e);
      assert log == front + [e];
    }
  }

  lemma LegalPrefix(base: Option<Raw>, log: seq<Event>, n: nat)
    requires Legal(base, log) && n <= |log|
    ensures Legal(base, log[..n])
  {
    forall k | 0 <= k < n ensures LegalEvent(base, log[..n], k) {
      assert log[..n][..k] == log[..k];
      assert LegalEvent(base, log, k);
    }
  }

  /** Every value ever stored is consistent, in every run from a consistent (or empty, or unreadable) store. */
  lemma EveryStoredSnapshotConsistent(s: Sys, steps: seq<Step>, n: nat)
    requires Init(s) && Run(s, steps) && ConsistentRaw(s.domain)
    requires n <= |After(s, steps).log|
    ensures ConsistentRaw(Replay(s.domain, After(s, steps).log[..n]))
    ensures ConsistentRaw(After(s, steps).domain)
  {
    RunKeeps(s.domain, s, steps);
    var log := After(s, steps).log;
    LegalPrefix(s.domain, log, n);
    LegalLogConsistent(s.domain, log[..n]);
    LegalLogConsistent(s.domain, log);
  }
}
