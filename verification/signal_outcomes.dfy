/** What becomes of a signalling request: who is refused, and whom a published message reaches. */
module SignalOutcomes {
  import opened Outcomes
  import Text
  import opened SignalSessions
  import opened SignalMessages
  import opened SessionHistory
  import opened SignalDelivery
  import Broker = BrokerProtocol

  /** Call `k` is the authorization the handler needed next, made after it arrived, and it failed. */
  ghost predicate RefusedAt(calls: seq<Call>, h: Handler, k: nat) {
    && |h.passes| < Needs(h.request) && h.since <= k < |calls|
    && calls[k].AuthorizeCall? && !Accepts(calls[..k], calls[k])
    && calls[k].id == Ask(h, |h.passes|, 0).id && calls[k].callId == Ask(h, |h.passes|, 0).callId
    && calls[k].user == Ask(h, |h.passes|, 0).user
  }

  /** What a handler's phase says has happened. */
  ghost predicate OutcomeOk(w: World, id: nat)
    requires id in w.handlers
  {
    var h := w.handlers[id];
    && h.since <= |w.calls| && Acceptable(h)
    && match h.phase
       case Serving => true
       case Refused(k) => RefusedAt(w.calls, h, k)
       case Published(p) =>
         && !h.request.Stream? && p < |w.hub.pubs| && w.hub.pubs[p].publisher == id
         && w.hub.pubs[p].topic == TopicOf(h) && w.hub.pubs[p].payload == Message(h)
       case Subscribed(j) =>
         h.request.Stream? && j < |w.hub.subs| && j < |w.openers| && w.openers[j] == id && w.hub.subs[j].topic == TopicOf(h)
  }

  ghost predicate OutcomesOk(w: World) {
    |w.openers| == |w.hub.subs| && forall id :: id in w.handlers ==> OutcomeOk(w, id)
  }

  lemma OutcomeLater(w: World, n: World, id: nat)
    requires id in w.handlers && OutcomeOk(w, id) && id in n.handlers && n.handlers[id] == w.handlers[id]
    requires w.calls <= n.calls && w.openers <= n.openers && |w.hub.pubs| <= |n.hub.pubs| && |w.hub.subs| <= |n.hub.subs|
    requires forall p :: 0 <= p < |w.hub.pubs| ==>
               && n.hub.pubs[p].publisher == w.hub.pubs[p].publisher && n.hub.pubs[p].topic == w.hub.pubs[p].topic
               && n.hub.pubs[p].payload == w.hub.pubs[p].payload
    requires forall j :: 0 <= j < |w.hub.subs| ==> n.hub.subs[j].topic == w.hub.subs[j].topic
    ensures OutcomeOk(n, id)
  {
    if w.handlers[id].phase.Refused? {
      assert n.calls[..w.handlers[id].phase.call] == w.calls[..w.handlers[id].phase.call];
    }
  }

  lemma StepOutcomes(w: World, step: Step)
    requires OutcomesOk(w) && Enabled(w, step)
    ensures OutcomesOk(Post(w, step))
  {
    var n := Post(w, step);
    if step.HubStep? {
      HubFrame(w.hub, step.step);
    }
    forall id | id in n.handlers ensures OutcomeOk(n, id) {
      if id in w.handlers && n.handlers[id] == w.handlers[id] {
        OutcomeLater(w, n, id);
      } else if step.Turn? && !Ready(w.handlers[id]) {
        AskedOutcome(w, id);
      }
    }
  }

  lemma AskedOutcome(w: World, id: nat)
    requires id in w.handlers && OutcomeOk(w, id) && w.handlers[id].phase == Serving && !Ready(w.handlers[id])
    ensures OutcomeOk(Asked(w, id), id)
  {
    assert Asked(w, id).calls[..|w.calls|] == w.calls;
  }

  lemma {:induction false} RunOutcomes(w: World, steps: seq<Step>)
    requires OutcomesOk(w) && Run(w, steps)
    ensures OutcomesOk(Final(w, steps))
    decreases |steps|
  {
    if steps != [] {
      StepOutcomes(w, steps[0]);
      RunOutcomes(Post(w, steps[0]), steps[1..]);
    }
  }

  /**
   A request is refused only by an authorization it made itself after it arrived, of a user it had to authorize, at a
   moment when by the history of calls that user could not use the session.
   */
  lemma RefusedWasNoParticipant(steps: seq<Step>, id: nat)
    requires Run(EMPTY_WORLD, steps) && id in Final(EMPTY_WORLD, steps).handlers && Final(EMPTY_WORLD, steps).handlers[id].phase.Refused?
    ensures var w := Final(EMPTY_WORLD, steps);
            var (h, k) := (w.handlers[id], w.handlers[id].phase.call);
            && RefusedAt(w.calls, h, k)
            && forall i: nat, last: nat :: !UsedAt(w.calls, k, w.calls[k].id, w.calls[k].callId, w.calls[k].user, i, last)
  {
    RunOutcomes(EMPTY_WORLD, steps);
    RunKeeps(EMPTY_WORLD, steps);
    OrderedRun(EMPTY_WORLD, steps);
    var w := Final(EMPTY_WORLD, steps);
    var k := w.handlers[id].phase.call;
    assert OutcomeOk(w, id);
    PrefixFits(w.calls, k);
    AuthorizeMatchesHistory(w.calls[..k], w.calls[k].id, w.calls[k].callId, w.calls[k].user, w.calls[k].now);
  }

  /** A request that is being served can always take its next turn, and needs at most three. */
  lemma ServedGoesOn(steps: seq<Step>, id: nat)
    requires Run(EMPTY_WORLD, steps) && id in Final(EMPTY_WORLD, steps).handlers && Final(EMPTY_WORLD, steps).handlers[id].phase == Serving
    ensures var w := Final(EMPTY_WORLD, steps);
            && Enabled(w, Turn(id))
            && var (h, next) := (w.handlers[id], Post(w, Turn(id)).handlers[id]);
               && |h.passes| <= Needs(h.request) <= 2
               && (next.phase == Serving ==> |next.passes| == |h.passes| + 1 && |next.passes| <= Needs(h.request))
               && (|h.passes| == Needs(h.request) ==> next.phase.Published? || next.phase.Subscribed?)
  {
    RunKeeps(EMPTY_WORLD, steps);
    var w := Final(EMPTY_WORLD, steps);
    assert HandlerOk(w, w.handlers[id]);
    if !w.handlers[id].request.Stream? {
      PublishNeverBlocked(steps, id);
    }
  }

  /**
   Every message in a session stream is well formed: version 1, a call id and a kind that are not blank and at most 128 and
   64 long, and a payload.
   */
  lemma StreamMessagesAreValid(steps: seq<Step>, j: nat, a: nat, sid: string)
    requires Run(EMPTY_WORLD, steps)
    requires var w := Final(EMPTY_WORLD, steps);
             j < |w.hub.subs| && w.hub.subs[j].topic == SessionTopic(sid) && a < |w.hub.subs[j].sent|
    ensures var e := Final(EMPTY_WORLD, steps).hub.subs[j].sent[a].payload;
            && e.version == 1 && Text.Trim(e.sessionId) != ""
            && Text.Trim(e.callId) != "" && |e.callId| <= 128
            && Text.Trim(e.kind) != "" && |e.kind| <= 64 && e.payload != ""
  {
    RunOutcomes(EMPTY_WORLD, steps);
    var h, g := Causes(steps, j, a);
    var w := Final(EMPTY_WORLD, steps);
    TopicsApart(sid, if h.request.Invite? then h.request.target else h.request.body.sessionId);
    assert OutcomeOk(w, w.hub.pubs[w.hub.subs[j].sent[a].pub].publisher);
  }

  // ---------- whom a message reaches ----------

  /** What the broker does meanwhile. */
  ghost function HubSteps(w: World, steps: seq<Step>): seq<Broker.Step>
    requires Run(w, steps)
    decreases |steps|
  {
    if steps == [] then [] else HubStepsOf(w, steps[0]) + HubSteps(Post(w, steps[0]), steps[1..])
  }

  ghost function HubStepsOf(w: World, step: Step): seq<Broker.Step>
    requires Enabled(w, step)
  {
    match step
    case HubStep(s) => [s]
    case Turn(id) =>
      var h := w.handlers[id];
      if !Ready(h) then []
      else if h.request.Stream? then [Broker.Subscribe(TopicOf(h))]
      else [Broker.Snapshot(id, TopicOf(h), Message(h))]
    case _ => []
  }

  lemma HubStep1(w: World, step: Step)
    requires Enabled(w, step)
    ensures var hs := HubStepsOf(w, step);
            |hs| <= 1 && Broker.Run(w.hub, hs) && Broker.After(w.hub, hs) == Post(w, step).hub
  {
    var hs := HubStepsOf(w, step);
    if |hs| == 1 {
      assert hs[1..] == [] && Broker.Enabled(w.hub, hs[0]);
      assert Broker.After(Broker.Post(w.hub, hs[0]), []) == Broker.Post(w.hub, hs[0]);
    }
  }

  lemma {:induction false} HubRuns(w: World, steps: seq<Step>)
    requires Run(w, steps)
    ensures Broker.Run(w.hub, HubSteps(w, steps)) && Broker.After(w.hub, HubSteps(w, steps)) == Final(w, steps).hub
    decreases |steps|
  {
    if steps != [] {
      var (first, rest) := (HubStepsOf(w, steps[0]), HubSteps(Post(w, steps[0]), steps[1..]));
      HubStep1(w, steps[0]);
      HubRuns(Post(w, steps[0]), steps[1..]);
      if first == [] {
        assert first + rest == rest;
      } else {
        assert (first + rest)[0] == first[0] && (first + rest)[1..] == rest && first[1..] == [];
      }
    }
  }

  /** The step at which the handler's message was published: those then listening on its topic get it, and nobody else. */
  ghost predicate ReachesListeners(hs: seq<Broker.Step>, id: nat, h: Handler, pub: nat, n: nat) {
    && Broker.Run(Broker.EMPTY, hs) && n < |hs| && Broker.Run(Broker.EMPTY, hs[..n])
    && !h.request.Stream? && hs[n] == Broker.Snapshot(id, TopicOf(h), Message(h))
    && forall sub: nat ::
         (sub < |Broker.After(Broker.EMPTY, hs).subs| && Broker.Came(Broker.After(Broker.EMPTY, hs).subs[sub], pub)) <==>
         Broker.IsListening(Broker.After(Broker.EMPTY, hs[..n]), sub, TopicOf(h)) && forall m: nat :: !Broker.DroppedAt(hs, m, pub, sub)
  }

  /**
   A message whose publish has finished is in the stream of exactly those who listened on its topic when its request
   published it, but for streams that were closed or held 64 messages when their turn came.
   */
  lemma PublishedReachesListeners(steps: seq<Step>, id: nat)
    requires Run(EMPTY_WORLD, steps) && id in Final(EMPTY_WORLD, steps).handlers && Final(EMPTY_WORLD, steps).handlers[id].phase.Published?
    requires var w := Final(EMPTY_WORLD, steps);
             w.handlers[id].phase.pub < |w.hub.pubs| && Broker.Finished(w.hub.pubs[w.handlers[id].phase.pub])
    ensures Broker.Run(Broker.EMPTY, HubSteps(EMPTY_WORLD, steps))
    ensures Broker.After(Broker.EMPTY, HubSteps(EMPTY_WORLD, steps)) == Final(EMPTY_WORLD, steps).hub
    ensures var h := Final(EMPTY_WORLD, steps).handlers[id];
            exists n: nat :: ReachesListeners(HubSteps(EMPTY_WORLD, steps), id, h, h.phase.pub, n)
  {
    RunOutcomes(EMPTY_WORLD, steps);
    HubRuns(EMPTY_WORLD, steps);
    var (w, hs) := (Final(EMPTY_WORLD, steps), HubSteps(EMPTY_WORLD, steps));
    var h := w.handlers[id];
    assert OutcomeOk(w, id);
    var n := Broker.BeganAt(hs, h.phase.pub);
    Broker.SnapshotHasListeners(hs, n);
    forall sub: nat
      ensures (sub < |w.hub.subs| && Broker.Came(w.hub.subs[sub], h.phase.pub)) <==>
              Broker.IsListening(Broker.After(Broker.EMPTY, hs[..n]), sub, TopicOf(h)) && forall m: nat :: !Broker.DroppedAt(hs, m, h.phase.pub, sub)
    {
      Broker.ListenersAreServed(hs, n, sub);
    }
    assert ReachesListeners(hs, id, h, h.phase.pub, n);
  }
}
