/**
 Answering an invitation on any number of nodes while rooms are created, deleted and entered elsewhere:
 check, write the post, check again, compensate. Each clock reading and write is a step of its own; each read of the
 rooms is a request of the domain protocol, with all its steps, the import of an empty key among them.
 */
module InviteProtocol {
  import opened Outcomes
  import VoiceDomain
  import DomainProtocol
  import opened Incarnations
  import opened VoiceInvites

  type Snapshot = VoiceDomain.Snapshot

  type Sys = DomainProtocol.Sys

  /** `readBy` and `wroteAt` are numbers of domain events that had happened: by the end of the first read, and at the write. */
  datatype Phase =
    | Start
    | GotPost(post: Post, i: Invite)
    | NotExpired(post: Post, i: Invite)
    | RoomFound(post: Post, i: Invite)
    | ReadBefore(post: Post, i: Invite, s: Snapshot, readBy: nat)
    | MayWrite(post: Post, i: Invite, readBy: nat)
    | Wrote(updated: Post, answered: Invite, readBy: nat, wroteAt: nat)
    | ReadAfter(updated: Post, answered: Invite, s: Snapshot, readBy: nat, wroteAt: nat)
    | Undo(updated: Post, answered: Invite)
    | Recorded(answered: Invite, wroteAt: nat)
    | Ended(error: Option<InviteError>)

  /** `reading` is the domain request whose answer the responder waits for. */
  datatype Responder = Responder(
    user: string, postId: string, inviteId: string, decision: string, phase: Phase, reading: Option<nat>)

  datatype World = World(sys: Sys, posts: map<string, Post>, responders: map<nat, Responder>)

  datatype Step =
    | Domain(step: DomainProtocol.Step)
    | PostAppears(postId: string, post: Post)
    | Ask(id: nat, user: string, postId: string, inviteId: string, decision: string)
    | CallFails(id: nat, error: InviteError)
    | StartRead(id: nat, request: nat)
    | Turn(id: nat)

  predicate Finished(phase: Phase) {
    phase.Recorded? || phase.Ended?
  }

  predicate Reads(phase: Phase) {
    phase.NotExpired? || phase.RoomFound? || phase.Wrote?
  }

  /** What the domain request answered: a snapshot, or the store's failure. */
  function Reading(w: World, r: Responder): Result<Snapshot, VoiceDomain.Failure>
    requires Answered(w, r)
  {
    match w.sys.requests[r.reading.value].phase.reply
    case Loaded(s) => Ok(s)
    case Mutated(_, s) => Ok(s)
    case Failed(e) => Err(e)
  }

  predicate Answered(w: World, r: Responder) {
    r.reading.Some? && r.reading.value in w.sys.requests && w.sys.requests[r.reading.value].phase.Done?
  }

  ghost predicate Enabled(w: World, step: Step) {
    match step
    case Domain(d) => DomainProtocol.Enabled(w.sys, d)
    case PostAppears(postId, _) => postId !in w.posts
    case Ask(id, _, _, _, _) => id !in w.responders
    case CallFails(id, _) => id in w.responders && !Finished(w.responders[id].phase)
    case StartRead(id, request) =>
      && id in w.responders && Reads(w.responders[id].phase) && w.responders[id].reading.None?
      && request !in w.sys.requests
    case Turn(id) =>
      && id in w.responders && !Finished(w.responders[id].phase)
      && (Reads(w.responders[id].phase) ==> Answered(w, w.responders[id]))
  }

  /** What one turn of a responder leads to, and the post it writes, if any. */
  function Taken(w: World, r: Responder): (Phase, Option<Post>)
    requires Reads(r.phase) ==> Answered(w, r)
  {
    var now := w.sys.clock;
    match r.phase
    case Start =>
      if r.postId !in w.posts then (Ended(Some(PostNotFound)), None) else
      var post := w.posts[r.postId];
      var found := FromPost(post);
      if found.None? || found.value.inviteId != r.inviteId then (Ended(Some(PostInvalid)), None)
      else if found.value.targetId != r.user then (Ended(Some(WrongTarget)), None)
      else (GotPost(post, found.value), None)
    case GotPost(post, i) =>
      if i.expiresAt <= now then (Ended(Some(Expired)), None) else (NotExpired(post, i), None)
    case NotExpired(post, i) =>
      var check := CheckRoom(i, Reading(w, r));
      if check.Some? then (Ended(check), None) else (RoomFound(post, i), None)
    case RoomFound(post, i) =>
      if i.status != PENDING then (Ended(if i.status == r.decision then None else Some(AlreadyAnswered)), None)
      else if Reading(w, r).Err? then (Ended(Some(Store(Reading(w, r).error))), None)
      else (ReadBefore(post, i, Reading(w, r).value, w.sys.requests[r.reading.value].ended), None)
    case ReadBefore(post, i, s, readBy) =>
      var check := CheckResponse(i, Ok(s), now);
      if check.Some? then (Ended(check), None) else (MayWrite(post, i, readBy), None)
    case MayWrite(post, i, readBy) =>
      var answered := i.(status := r.decision);
      var updated := WithInvite(post, answered);
      (Wrote(updated, answered, readBy, |w.sys.log|), Some(updated))
    case Wrote(updated, answered, readBy, wroteAt) =>
      if Reading(w, r).Err? then (Ended(Some(Store(Reading(w, r).error))), None)
      else (ReadAfter(updated, answered, Reading(w, r).value, readBy, wroteAt), None)
    case ReadAfter(updated, answered, s, readBy, wroteAt) =>
      if CheckResponse(answered, Ok(s), now).Some? then (Undo(updated, answered), None) else (Recorded(answered, wroteAt), None)
    case Undo(updated, answered) => (Ended(Some(Expired)), Some(Withdrawn(updated, answered, now)))
    case Recorded(_, _) => (r.phase, None)
    case Ended(_) => (r.phase, None)
  }

  ghost function Post(w: World, step: Step): World
    requires Enabled(w, step)
  {
    match step
    case Domain(d) => w.(sys := DomainProtocol.Post(w.sys, d))
    case PostAppears(postId, post) => w.(posts := w.posts[postId := post])
    case Ask(id, user, postId, inviteId, decision) =>
      w.(responders := w.responders[id := Responder(user, postId, inviteId, decision, Start, None)])
    case CallFails(id, error) =>
      w.(responders := w.responders[id := w.responders[id].(phase := Ended(Some(error)))])
    case StartRead(id, request) =>
      w.(sys := DomainProtocol.Post(w.sys, DomainProtocol.Begin(request, DomainProtocol.Read)),
         responders := w.responders[id := w.responders[id].(reading := Some(request))])
    case Turn(id) =>
      var r := w.responders[id];
      var (phase, write) := Taken(w, r);
      w.(responders := w.responders[id := r.(phase := phase, reading := None)],
         posts := if write.Some? then w.posts[r.postId := write.value] else w.posts)
  }

  // ---------- the responder, step by step, is respond ----------

  /** What is still to be written and answered, in terms of respond, by a responder in a given phase. */
  function Remaining(post: Option<VoiceInvites.Post>, r: Responder, phase: Phase, w: RespondWorld): Answer {
    match phase
    case Start => Respond(post, r.user, r.inviteId, r.decision, w)
    case GotPost(p, i) => if i.expiresAt <= w.now then Answer([], Some(Expired)) else RoomToCheck(p, i, r.decision, w)
    case NotExpired(p, i) => RoomToCheck(p, i, r.decision, w)
    case RoomFound(p, i) => StatusToCheck(p, i, r.decision, w)
    case ReadBefore(p, i, _, _) => ResponseToCheck(p, i, r.decision, w)
    case MayWrite(p, i, _) => Record(p, i.(status := r.decision), w)
    case Wrote(updated, answered, _, _) => WrittenToCheck(updated, answered, w)
    case ReadAfter(updated, answered, _, _, _) => WrittenToCheck(updated, answered, w)
    case Undo(updated, answered) =>
      if w.undone then Answer([Withdrawn(updated, answered, w.undoAt)], Some(Expired)) else Answer([], Some(UpdateFailed))
    case Recorded(_, _) => Answer([], None)
    case Ended(error) => Answer([], error)
  }

  function RoomToCheck(post: VoiceInvites.Post, i: Invite, decision: string, w: RespondWorld): Answer {
    if CheckRoom(i, w.room).Some? then Answer([], CheckRoom(i, w.room)) else StatusToCheck(post, i, decision, w)
  }

  function StatusToCheck(post: VoiceInvites.Post, i: Invite, decision: string, w: RespondWorld): Answer {
    if i.status != PENDING then Answer([], if i.status == decision then None else Some(AlreadyAnswered))
    else ResponseToCheck(post, i, decision, w)
  }

  function ResponseToCheck(post: VoiceInvites.Post, i: Invite, decision: string, w: RespondWorld): Answer {
    if CheckResponse(i, w.before, w.beforeAt).Some? then Answer([], CheckResponse(i, w.before, w.beforeAt))
    else Record(post, i.(status := decision), w)
  }

  function WrittenToCheck(updated: VoiceInvites.Post, answered: Invite, w: RespondWorld): Answer {
    var again := CheckResponse(answered, w.after, w.afterAt);
    if again != Some(Expired) then Answer([], again)
    else if !w.undone then Answer([], Some(UpdateFailed))
    else Answer([Withdrawn(updated, answered, w.undoAt)], Some(Expired))
  }

  /** `given` is what the turn meets: the reading that was answered, the clock, or a write that works. */
  predicate Meets(w: World, r: Responder, given: RespondWorld)
    requires Reads(r.phase) ==> Answered(w, r)
  {
    match r.phase
    case GotPost(_, _) => given.now == w.sys.clock
    case NotExpired(_, _) => given.room == Reading(w, r)
    case RoomFound(_, _) => given.before == Reading(w, r)
    case ReadBefore(_, _, s, _) => given.before == Ok(s) && given.beforeAt == w.sys.clock
    case MayWrite(_, _, _) => given.saved
    case Wrote(_, _, _, _) => given.after == Reading(w, r)
    case ReadAfter(_, _, s, _, _) => given.after == Ok(s) && given.afterAt == w.sys.clock
    case Undo(_, _) => given.undone && given.undoAt == w.sys.clock
    case _ => true
  }

  /** The phase's part of respond is what the turn writes, and then the next phase's part. */
  predicate InParts(whole: Answer, write: Option<VoiceInvites.Post>, rest: Answer) {
    whole.error == rest.error && whole.writes == (if write.Some? then [write.value] else []) + rest.writes
  }

  /** Each turn of a responder writes and answers the next part of what respond does, given what the turns meet. */
  lemma TurnRefinesRespond(w: World, r: Responder, given: RespondWorld)
    requires (Reads(r.phase) ==> Answered(w, r)) && Meets(w, r, given) && !Finished(r.phase)
    ensures var post := if r.postId in w.posts then Some(w.posts[r.postId]) else None;
            InParts(Remaining(post, r, r.phase, given), Taken(w, r).1, Remaining(post, r, Taken(w, r).0, given))
  {
    if r.phase.Start? {
      StartRefinesRespond(w, r, given);
    } else if r.phase.MayWrite? {
      RecordInParts(r.phase.post, r.phase.i.(status := r.decision), given);
    }
  }

  /** What respond does with an invitation that is addressed to the user. */
  lemma RespondBegins(post: VoiceInvites.Post, i: Invite, user: string, decision: string, w: RespondWorld)
    requires FromPost(post) == Some(i) && i.targetId == user
    ensures Respond(Some(post), user, i.inviteId, decision, w) ==
            if i.expiresAt <= w.now then Answer([], Some(Expired)) else RoomToCheck(post, i, decision, w)
  {
  }

  lemma StartRefinesRespond(w: World, r: Responder, given: RespondWorld)
    requires r.phase.Start?
    ensures var post := if r.postId in w.posts then Some(w.posts[r.postId]) else None;
            InParts(Respond(post, r.user, r.inviteId, r.decision, given), Taken(w, r).1, Remaining(post, r, Taken(w, r).0, given))
  {
    if r.postId in w.posts {
      var post := w.posts[r.postId];
      var found := FromPost(post);
      if found.Some? && found.value.inviteId == r.inviteId && found.value.targetId == r.user {
        RespondBegins(post, found.value, r.user, r.decision, given);
        assert Taken(w, r) == (GotPost(post, found.value), None);
      }
    }
  }

  lemma RecordInParts(post: VoiceInvites.Post, answered: Invite, w: RespondWorld)
    requires w.saved
    ensures var (whole, rest) := (Record(post, answered, w), WrittenToCheck(WithInvite(post, answered), answered, w));
            whole.error == rest.error && whole.writes == [WithInvite(post, answered)] + rest.writes
  {
  }

  function Invited(i: Invite): Incarnation {
    Incarnation(i.roomId, i.roomCreateAt, i.roomGeneration)
  }

  ghost predicate AliveAt(base: Option<DomainProtocol.Raw>, log: seq<DomainProtocol.Event>, k: nat, i: Invite) {
    && k <= |log|
    && DomainProtocol.Readable(base, log[..k])
    && Alive(DomainProtocol.SnapshotAfter(base, log[..k]), Invited(i))
  }

  ghost predicate IsAt(base: Option<DomainProtocol.Raw>, log: seq<DomainProtocol.Event>, k: nat, s: Snapshot) {
    && k <= |log|
    && DomainProtocol.Readable(base, log[..k])
    && DomainProtocol.SnapshotAfter(base, log[..k]) == s
  }

  ghost predicate AliveBy(base: Option<DomainProtocol.Raw>, log: seq<DomainProtocol.Event>, to: nat, i: Invite) {
    exists k: nat :: k <= to && AliveAt(base, log, k, i)
  }

  ghost predicate IsBy(base: Option<DomainProtocol.Raw>, log: seq<DomainProtocol.Event>, to: nat, s: Snapshot) {
    exists k: nat :: k <= to && IsAt(base, log, k, s)
  }

  ghost predicate IsSince(base: Option<DomainProtocol.Raw>, log: seq<DomainProtocol.Event>, from: nat, s: Snapshot) {
    exists k: nat :: from <= k && IsAt(base, log, k, s)
  }

  /** What a responder knows about the invited room, phase by phase. */
  ghost predicate ResponderOk(base: Option<DomainProtocol.Raw>, log: seq<DomainProtocol.Event>, phase: Phase) {
    match phase
    case ReadBefore(_, i, s, readBy) => readBy <= |log| && IsBy(base, log, readBy, s)
    case MayWrite(_, i, readBy) => readBy <= |log| && AliveBy(base, log, readBy, i)
    case Wrote(_, i, readBy, wroteAt) => readBy <= wroteAt <= |log| && AliveBy(base, log, readBy, i)
    case ReadAfter(_, i, s, readBy, wroteAt) => readBy <= wroteAt && AliveBy(base, log, readBy, i) && IsSince(base, log, wroteAt, s)
    case Recorded(i, wroteAt) => exists readAt: nat, againAt: nat ::
      readAt <= wroteAt <= againAt && AliveAt(base, log, readAt, i) && AliveAt(base, log, againAt, i)
    case _ => true
  }

  /** The read a responder waits for is a read, and the one after the write began after it. */
  ghost predicate ReadingOk(sys: Sys, r: Responder) {
    r.reading.Some? ==>
      && r.reading.value in sys.requests && sys.requests[r.reading.value].task.Read?
      && (r.phase.Wrote? ==> r.phase.wroteAt <= sys.requests[r.reading.value].begun)
  }

  ghost predicate Inv(base: Option<DomainProtocol.Raw>, prior: set<string>, w: World) {
    && DomainProtocol.Inv(base, w.sys)
    && FreshIds(prior, w.sys) && OldBase(prior, base)
    && forall id :: id in w.responders ==> ResponderOk(base, w.sys.log, w.responders[id].phase) && ReadingOk(w.sys, w.responders[id])
  }

  ghost predicate OldStep(prior: set<string>, step: Step) {
    step.Domain? ==> OldWriter(prior, step.step)
  }

  lemma CheckedIsAlive(i: Invite, s: Snapshot)
    requires CheckRoom(i, Ok(s)) == None
    ensures Alive(s, Invited(i))
  {
    FirstFound(s.rooms, i.roomId);
    assert Of(First(s.rooms, i.roomId).value) == Invited(i);
  }

  lemma MomentKept(base: Option<DomainProtocol.Raw>, log: seq<DomainProtocol.Event>, more: seq<DomainProtocol.Event>, k: nat, i: Invite, s: Snapshot)
    requires log <= more
    ensures AliveAt(base, log, k, i) ==> AliveAt(base, more, k, i)
    ensures IsAt(base, log, k, s) ==> IsAt(base, more, k, s)
  {
    if k <= |log| {
      assert log[..k] == more[..k];
    }
  }

  lemma AliveByKept(base: Option<DomainProtocol.Raw>, log: seq<DomainProtocol.Event>, more: seq<DomainProtocol.Event>, to: nat, i: Invite)
    requires log <= more && AliveBy(base, log, to, i)
    ensures AliveBy(base, more, to, i)
  {
    var k: nat :| k <= to && AliveAt(base, log, k, i);
    MomentKept(base, log, more, k, i, VoiceDomain.Snapshot([], map[]));
  }

  lemma ResponderKept(base: Option<DomainProtocol.Raw>, log: seq<DomainProtocol.Event>, more: seq<DomainProtocol.Event>, phase: Phase)
    requires log <= more && ResponderOk(base, log, phase)
    ensures ResponderOk(base, more, phase)
  {
    if phase.ReadBefore? {
      var k: nat :| k <= phase.readBy && IsAt(base, log, k, phase.s);
      MomentKept(base, log, more, k, phase.i, phase.s);
    } else if phase.MayWrite? {
      AliveByKept(base, log, more, phase.readBy, phase.i);
    } else if phase.Wrote? {
      AliveByKept(base, log, more, phase.readBy, phase.answered);
    } else if phase.ReadAfter? {
      AliveByKept(base, log, more, phase.readBy, phase.answered);
      var k: nat :| phase.wroteAt <= k && IsAt(base, log, k, phase.s);
      MomentKept(base, log, more, k, phase.answered, phase.s);
    } else if phase.Recorded? {
      var nothing := VoiceDomain.Snapshot([], map[]);
      var readAt: nat, againAt: nat :| readAt <= phase.wroteAt <= againAt
        && AliveAt(base, log, readAt, phase.answered) && AliveAt(base, log, againAt, phase.answered);
      MomentKept(base, log, more, readAt, phase.answered, nothing);
      MomentKept(base, log, more, againAt, phase.answered, nothing);
    }
  }

  lemma LogGrows(s: Sys, step: DomainProtocol.Step)
    requires DomainProtocol.Enabled(s, step)
    ensures s.log <= DomainProtocol.Post(s, step).log
  {
  }

  /** A read that answered gives a snapshot that was stored between its beginning and its end. */
  lemma ReadWasStored(base: Option<DomainProtocol.Raw>, w: World, r: Responder)
    requires DomainProtocol.Inv(base, w.sys) && ReadingOk(w.sys, r) && Answered(w, r) && Reading(w, r).Ok?
    ensures var q := w.sys.requests[r.reading.value];
            && q.ended <= |w.sys.log| && q.phase.reply == DomainProtocol.Loaded(Reading(w, r).value)
            && exists k: nat :: q.begun <= k <= q.ended && IsAt(base, w.sys.log, k, Reading(w, r).value)
  {
    var q := w.sys.requests[r.reading.value];
    var s := Reading(w, r).value;
    assert DomainProtocol.RequestOk(base, w.sys.log, r.reading.value, q);
    var k :| q.begun <= k <= q.ended && DomainProtocol.Replay(base, w.sys.log[..k]) == Some(DomainProtocol.Encode(s));
    DomainProtocol.RoundTrip(s, DomainProtocol.Encode(s));
    assert IsAt(base, w.sys.log, k, s);
  }

  lemma FirstReadOk(base: Option<DomainProtocol.Raw>, w: World, r: Responder)
    requires r.phase.ReadBefore? && ResponderOk(base, w.sys.log, r.phase)
    ensures ResponderOk(base, w.sys.log, Taken(w, r).0)
  {
    if CheckResponse(r.phase.i, Ok(r.phase.s), w.sys.clock).None? {
      CheckedIsAlive(r.phase.i, r.phase.s);
      var k: nat :| k <= r.phase.readBy && IsAt(base, w.sys.log, k, r.phase.s);
      assert AliveAt(base, w.sys.log, k, r.phase.i);
    }
  }

  lemma SecondReadOk(base: Option<DomainProtocol.Raw>, w: World, r: Responder)
    requires r.phase.ReadAfter? && ResponderOk(base, w.sys.log, r.phase)
    ensures ResponderOk(base, w.sys.log, Taken(w, r).0)
  {
    if CheckResponse(r.phase.answered, Ok(r.phase.s), w.sys.clock).None? {
      CheckedIsAlive(r.phase.answered, r.phase.s);
      var k: nat :| k <= r.phase.readBy && AliveAt(base, w.sys.log, k, r.phase.answered);
      var m: nat :| r.phase.wroteAt <= m && IsAt(base, w.sys.log, m, r.phase.s);
      assert AliveAt(base, w.sys.log, m, r.phase.answered);
    }
  }

  lemma WriteOk(base: Option<DomainProtocol.Raw>, w: World, r: Responder)
    requires r.phase.MayWrite? && ResponderOk(base, w.sys.log, r.phase)
    ensures ResponderOk(base, w.sys.log, Taken(w, r).0)
  {
    var k: nat :| k <= r.phase.readBy && AliveAt(base, w.sys.log, k, r.phase.i);
    assert Invited(r.phase.i.(status := r.decision)) == Invited(r.phase.i);
    assert AliveAt(base, w.sys.log, k, r.phase.i.(status := r.decision));
  }

  lemma LoadedOk(base: Option<DomainProtocol.Raw>, w: World, r: Responder)
    requires DomainProtocol.Inv(base, w.sys) && ReadingOk(w.sys, r) && ResponderOk(base, w.sys.log, r.phase)
    requires (r.phase.RoomFound? || r.phase.Wrote?) && Answered(w, r)
    ensures ResponderOk(base, w.sys.log, Taken(w, r).0)
  {
    if Reading(w, r).Ok? {
      ReadWasStored(base, w, r);
    }
  }

  lemma TurnOk(base: Option<DomainProtocol.Raw>, w: World, r: Responder)
    requires DomainProtocol.Inv(base, w.sys) && ReadingOk(w.sys, r) && ResponderOk(base, w.sys.log, r.phase)
    requires Reads(r.phase) ==> Answered(w, r)
    ensures ResponderOk(base, w.sys.log, Taken(w, r).0)
  {
    if r.phase.ReadBefore? {
      FirstReadOk(base, w, r);
    } else if r.phase.ReadAfter? {
      SecondReadOk(base, w, r);
    } else if r.phase.MayWrite? {
      WriteOk(base, w, r);
    } else if r.phase.RoomFound? || r.phase.Wrote? {
      LoadedOk(base, w, r);
    }
  }

  /** A request keeps its task and its beginning. */
  lemma RequestsStay(s: Sys, step: DomainProtocol.Step, q: nat)
    requires DomainProtocol.Enabled(s, step) && q in s.requests
    ensures var t := DomainProtocol.Post(s, step);
            q in t.requests && t.requests[q].task == s.requests[q].task && t.requests[q].begun == s.requests[q].begun
  {
  }

  /** A step of the domain, with the responders as they were. */
  lemma DomainKeeps(base: Option<DomainProtocol.Raw>, prior: set<string>, w: World, d: DomainProtocol.Step)
    requires Inv(base, prior, w) && DomainProtocol.Enabled(w.sys, d) && OldWriter(prior, d)
    ensures Inv(base, prior, w.(sys := DomainProtocol.Post(w.sys, d)))
    ensures w.sys.log <= DomainProtocol.Post(w.sys, d).log
  {
    var sys := DomainProtocol.Post(w.sys, d);
    DomainProtocol.StepKeeps(base, w.sys, d);
    StepFresh(prior, w.sys, d);
    LogGrows(w.sys, d);
    forall id | id in w.responders
      ensures ResponderOk(base, sys.log, w.responders[id].phase) && ReadingOk(sys, w.responders[id])
    {
      ResponderKept(base, w.sys.log, sys.log, w.responders[id].phase);
      if w.responders[id].reading.Some? {
        RequestsStay(w.sys, d, w.responders[id].reading.value);
      }
    }
  }

  lemma StepKeeps(base: Option<DomainProtocol.Raw>, prior: set<string>, w: World, step: Step)
    requires Inv(base, prior, w) && Enabled(w, step) && OldStep(prior, step)
    ensures Inv(base, prior, Post(w, step))
    ensures w.sys.log <= Post(w, step).sys.log
  {
    if step.Domain? {
      DomainKeeps(base, prior, w, step.step);
    } else if step.StartRead? {
      StartReadKeeps(base, prior, w, step.id, step.request);
    } else if step.Turn? {
      TurnOk(base, w, w.responders[step.id]);
      ResponderStepKeeps(base, prior, w, Post(w, step), step.id);
    } else if step.Ask? || step.CallFails? {
      ResponderStepKeeps(base, prior, w, Post(w, step), step.id);
    }
  }

  lemma StartReadKeeps(base: Option<DomainProtocol.Raw>, prior: set<string>, w: World, id: nat, request: nat)
    requires Inv(base, prior, w) && Enabled(w, StartRead(id, request))
    ensures Inv(base, prior, Post(w, StartRead(id, request))) && Post(w, StartRead(id, request)).sys.log == w.sys.log
  {
    var begin := DomainProtocol.Begin(request, DomainProtocol.Read);
    DomainKeeps(base, prior, w, begin);
    ResponderStepKeeps(base, prior, w.(sys := DomainProtocol.Post(w.sys, begin)), Post(w, StartRead(id, request)), id);
  }

  /** A step of one responder, with the domain as it was. */
  lemma ResponderStepKeeps(base: Option<DomainProtocol.Raw>, prior: set<string>, w: World, v: World, id: nat)
    requires Inv(base, prior, w) && v.sys == w.sys
    requires id in v.responders && ResponderOk(base, w.sys.log, v.responders[id].phase) && ReadingOk(w.sys, v.responders[id])
    requires forall other :: other in v.responders && other != id ==> other in w.responders && v.responders[other] == w.responders[other]
    ensures Inv(base, prior, v)
  {
  }

  /** `steps` can be taken one after the other, old builds writing only rooms without a new generation. */
  ghost predicate Run(prior: set<string>, w: World, steps: seq<Step>)
    decreases |steps|
  {
    steps == [] || (Enabled(w, steps[0]) && OldStep(prior, steps[0]) && Run(prior, Post(w, steps[0]), steps[1..]))
  }

  ghost function After(prior: set<string>, w: World, steps: seq<Step>): World
    requires Run(prior, w, steps)
    decreases |steps|
  {
    if steps == [] then w else After(prior, Post(w, steps[0]), steps[1..])
  }

  ghost predicate Init(prior: set<string>, w: World) {
    && DomainProtocol.Init(w.sys) && w.responders == map[]
    && w.sys.issued == prior && OldBase(prior, w.sys.domain)
    && OldGenerations(prior, DomainProtocol.OldRooms(w.sys.rooms))
  }

  lemma {:induction false} RunKeeps(base: Option<DomainProtocol.Raw>, prior: set<string>, w: World, steps: seq<Step>)
    requires Inv(base, prior, w) && Run(prior, w, steps)
    ensures Inv(base, prior, After(prior, w, steps))
    decreases |steps|
  {
    if steps != [] {
      StepKeeps(base, prior, w, steps[0]);
      RunKeeps(base, prior, Post(w, steps[0]), steps[1..]);
    }
  }

  /**
   In every interleaving, an answer that was recorded and acknowledged was written at a moment when the
   very incarnation of the room that the invitation names was alive.
   */
  lemma AnsweredWhileAlive(prior: set<string>, w: World, steps: seq<Step>, id: nat)
    requires Init(prior, w) && Run(prior, w, steps)
    requires id in After(prior, w, steps).responders && After(prior, w, steps).responders[id].phase.Recorded?
    ensures var v := After(prior, w, steps);
            AliveAt(w.sys.domain, v.sys.log, v.responders[id].phase.wroteAt, v.responders[id].phase.answered)
  {
    var base := w.sys.domain;
    RunKeeps(base, prior, w, steps);
    var v := After(prior, w, steps);
    var Recorded(i, wroteAt) := v.responders[id].phase;
    assert ResponderOk(base, v.sys.log, v.responders[id].phase);
    var readAt: nat, againAt: nat :| readAt <= wroteAt <= againAt
      && AliveAt(base, v.sys.log, readAt, i) && AliveAt(base, v.sys.log, againAt, i);
    NoRevival(prior, base, v.sys.log, readAt, wroteAt, againAt, Invited(i));
  }

  /** A room deleted and recreated under the same id never satisfies an old invitation: once gone, the incarnation invited to is gone. */
  lemma DeletedRoomNeverAnswers(prior: set<string>, w: World, steps: seq<Step>, id: nat, was: nat, gone: nat)
    requires Init(prior, w) && Run(prior, w, steps)
    requires id in After(prior, w, steps).responders && After(prior, w, steps).responders[id].phase.Recorded?
    requires var v := After(prior, w, steps);
             && was <= gone <= |v.sys.log|
             && AliveAt(w.sys.domain, v.sys.log, was, v.responders[id].phase.answered)
             && !AliveAt(w.sys.domain, v.sys.log, gone, v.responders[id].phase.answered)
    ensures After(prior, w, steps).responders[id].phase.wroteAt < gone
  {
    var v := After(prior, w, steps);
    var Recorded(i, wroteAt) := v.responders[id].phase;
    RunKeeps(w.sys.domain, prior, w, steps);
    AnsweredWhileAlive(prior, w, steps, id);
    if gone <= wroteAt {
      NoRevival(prior, w.sys.domain, v.sys.log, was, gone, wroteAt, Invited(i));
    }
  }
}
