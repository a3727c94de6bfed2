/**
 The signalling handlers over the session store and the broker, every action of every request a step:
 who a message can have come from and whom it can reach.
 */
module SignalDelivery {
  import opened Outcomes
  import Text
  import opened SignalSessions
  import opened SignalMessages
  import opened SessionHistory
  import Broker = BrokerProtocol

  /** What a client asks for. The body of a publish is an envelope whose sender is whatever the client wrote there. */
  datatype Request =
    | Publish(body: Envelope)
    | Invite(target: string, sessionId: string, callId: string, payload: string)
    | Stream(inbox: bool, sessionId: string)

  /** `Refused` holds the place in the store's history of the authorization that failed. */
  datatype Phase = Serving | Published(pub: nat) | Subscribed(sub: nat) | Refused(call: nat)

  /**
   A request being served for its authenticated user. `since` is the length of the store's history when it arrived;
   `passes` are the places in that history of its own authorizations, all of which passed.
   */
  datatype Handler = Handler(user: string, request: Request, since: nat, passes: seq<nat>, phase: Phase)

  /**
   `calls` is the history of the session store. `marks` and `joins` hold the length of that history when
   each publish and each subscription began; `openers` holds the handler of each stream.
   */
  datatype World = World(
    hub: Broker.Hub, calls: seq<Call>, clock: int, handlers: map<nat, Handler>,
    marks: seq<nat>, joins: seq<nat>, openers: seq<nat>)

  const EMPTY_WORLD := World(Broker.EMPTY, [], 0, map[], [], [], [])

  datatype Step =
    | Tick(to: int)
    | Arrive(id: nat, user: string, request: Request)
    | StoreCall(c: Call)
    | HubStep(step: Broker.Step)
    | Turn(id: nat)

  /** What is published: the sender is the authenticated user, whatever the body says. */
  function Message(h: Handler): Envelope
    requires !h.request.Stream?
  {
    match h.request
    case Publish(body) => body.(sender := h.user)
    case Invite(_, sessionId, callId, payload) => Envelope(PROTOCOL_VERSION, sessionId, callId, "invite", h.user, payload)
  }

  function TopicOf(h: Handler): string {
    match h.request
    case Publish(body) => SessionTopic(body.sessionId)
    case Invite(target, _, _, _) => InboxTopic(target)
    case Stream(inbox, sessionId) => if inbox then InboxTopic(h.user) else SessionTopic(sessionId)
  }

  /** What the handler checks before it authorizes anyone. */
  predicate Acceptable(h: Handler) {
    match h.request
    case Publish(_) => ValidEnvelope(Message(h))
    case Invite(target, _, _, _) => Text.Trim(target) != ""
    case Stream(inbox, sessionId) => inbox <==> sessionId == ""
  }

  /** How many authorizations a request needs. */
  function Needs(r: Request): nat {
    if r.Invite? then 2 else if r.Stream? && r.inbox then 0 else 1
  }

  /** The `k`-th of them: an invitation authorizes its sender and then its target. */
  function Ask(h: Handler, k: nat, now: int): Call {
    match h.request
    case Publish(body) => AuthorizeCall(body.sessionId, body.callId, h.user, now)
    case Invite(target, sessionId, callId, _) => AuthorizeCall(sessionId, callId, if k == 0 then h.user else target, now)
    case Stream(_, sessionId) => AuthorizeCall(sessionId, "", h.user, now)
  }

  ghost predicate Enabled(w: World, step: Step) {
    match step
    case Tick(to) => w.clock <= to
    case Arrive(id, user, request) => id !in w.handlers && Acceptable(Handler(user, request, |w.calls|, [], Serving))
    case StoreCall(c) => !c.AuthorizeCall? && WellFormed(w.calls + [c]) && (c.CreateCall? || c.RoomCall? ==> c.now <= w.clock)
    case HubStep(step) => !step.Subscribe? && !step.Snapshot? && Broker.Enabled(w.hub, step)
    case Turn(id) =>
      && id in w.handlers && w.handlers[id].phase == Serving
      && (Ready(w.handlers[id]) && !w.handlers[id].request.Stream? ==>
            Broker.Enabled(w.hub, Broker.Snapshot(id, TopicOf(w.handlers[id]), Message(w.handlers[id]))))
  }

  predicate Ready(h: Handler) {
    |h.passes| >= Needs(h.request)
  }

  predicate Accepts(calls: seq<Call>, c: Call)
    requires c.AuthorizeCall?
  {
    Authorize(After(calls), c.id, c.callId, c.user, c.now).1
  }

  function Asked(w: World, id: nat): World
    requires id in w.handlers
  {
    var h := w.handlers[id];
    var c := Ask(h, |h.passes|, w.clock);
    w.(calls := w.calls + [c],
       handlers := w.handlers[id := if Accepts(w.calls, c) then h.(passes := h.passes + [|w.calls|]) else h.(phase := Refused(|w.calls|))])
  }

  function Opened(w: World, id: nat): World
    requires id in w.handlers
  {
    w.(hub := Broker.Post(w.hub, Broker.Subscribe(TopicOf(w.handlers[id]))),
       handlers := w.handlers[id := w.handlers[id].(phase := Subscribed(|w.hub.subs|))],
       joins := w.joins + [|w.calls|], openers := w.openers + [id])
  }

  function Sent(w: World, id: nat): World
    requires id in w.handlers && !w.handlers[id].request.Stream?
    requires Broker.Enabled(w.hub, Broker.Snapshot(id, TopicOf(w.handlers[id]), Message(w.handlers[id])))
  {
    w.(hub := Broker.Post(w.hub, Broker.Snapshot(id, TopicOf(w.handlers[id]), Message(w.handlers[id]))),
       handlers := w.handlers[id := w.handlers[id].(phase := Published(|w.hub.pubs|))],
       marks := w.marks + [|w.calls|])
  }

  ghost function Post(w: World, step: Step): World
    requires Enabled(w, step)
  {
    match step
    case Tick(to) => w.(clock := to)
    case Arrive(id, user, request) => w.(handlers := w.handlers[id := Handler(user, request, |w.calls|, [], Serving)])
    case StoreCall(c) => w.(calls := w.calls + [c])
    case HubStep(step) => w.(hub := Broker.Post(w.hub, step))
    case Turn(id) =>
      if !Ready(w.handlers[id]) then Asked(w, id)
      else if w.handlers[id].request.Stream? then Opened(w, id)
      else Sent(w, id)
  }

  // ---------- what the history knows ----------

  /** Call `k` of the history is an authorization of `user` for the session and call id, and it passed. */
  ghost predicate PassedAt(calls: seq<Call>, k: nat, sessionId: string, callId: string, user: string) {
    && k < |calls| && calls[k].AuthorizeCall?
    && calls[k].id == sessionId && calls[k].callId == callId && calls[k].user == user
    && Accepts(calls[..k], calls[k])
  }

  /** The handler's `k`-th authorization is a call of its own, made after it arrived and before the `n`-th call, and it passed. */
  ghost predicate Own(calls: seq<Call>, n: nat, h: Handler, k: nat)
    requires k < |h.passes|
  {
    && h.since <= h.passes[k] < n
    && PassedAt(calls, h.passes[k], Ask(h, k, 0).id, Ask(h, k, 0).callId, Ask(h, k, 0).user)
  }

  ghost predicate AllOwn(calls: seq<Call>, n: nat, h: Handler) {
    forall k: nat :: k < |h.passes| ==> Own(calls, n, h, k)
  }

  /** Everyone the handler needed has passed, in its own calls, before the `n`-th. */
  ghost predicate Cleared(calls: seq<Call>, n: nat, h: Handler) {
    |h.passes| == Needs(h.request) && AllOwn(calls, n, h)
  }

  ghost predicate HandlerOk(w: World, h: Handler) {
    && h.since <= |w.calls| && |h.passes| <= Needs(h.request)
    && AllOwn(w.calls, |w.calls|, h)
  }

  /** No authorization belongs to two handlers. */
  ghost predicate Disjoint(w: World) {
    forall a, b, i: nat, j: nat :: a in w.handlers && b in w.handlers && a != b && i < |w.handlers[a].passes| && j < |w.handlers[b].passes| ==>
      w.handlers[a].passes[i] != w.handlers[b].passes[j]
  }

  /** A publish was begun by a handler whose checks had passed, with that handler's message on its topic. */
  ghost predicate PubCaused(w: World, p: nat)
    requires p < |w.hub.pubs| && p < |w.marks|
  {
    var pub := w.hub.pubs[p];
    && pub.publisher in w.handlers
    && var h := w.handlers[pub.publisher];
       && !h.request.Stream? && h.phase == Published(p)
       && pub.topic == TopicOf(h) && pub.payload == Message(h)
       && Cleared(w.calls, w.marks[p], h)
  }

  /** A subscription was begun by a handler whose checks had passed, on that handler's topic. */
  ghost predicate SubCaused(w: World, j: nat)
    requires j < |w.hub.subs| && j < |w.joins| && j < |w.openers|
  {
    && w.openers[j] in w.handlers
    && var h := w.handlers[w.openers[j]];
       && h.request.Stream? && h.phase == Subscribed(j)
       && w.hub.subs[j].topic == TopicOf(h)
       && Cleared(w.calls, w.joins[j], h)
  }

  ghost predicate Inv(w: World) {
    && Broker.Inv(w.hub)
    && WellFormed(w.calls) && PrunedBy(w.calls, w.clock)
    && (forall id :: id in w.handlers ==> HandlerOk(w, w.handlers[id]))
    && Disjoint(w)
    && |w.marks| == |w.hub.pubs| && |w.joins| == |w.openers| == |w.hub.subs|
    && (forall p :: 0 <= p < |w.hub.pubs| ==> PubCaused(w, p))
    && (forall j :: 0 <= j < |w.hub.subs| ==> SubCaused(w, j))
  }

  // ---------- each step keeps it ----------

  /** A broker step other than the two that begin something leaves every topic, publisher and payload as it was. */
  lemma HubFrame(h: Broker.Hub, step: Broker.Step)
    requires Broker.Enabled(h, step) && !step.Subscribe? && !step.Snapshot?
    ensures var n := Broker.Post(h, step);
            && |n.pubs| == |h.pubs| && |n.subs| == |h.subs|
            && (forall p :: 0 <= p < |h.pubs| ==>
                  && n.pubs[p].publisher == h.pubs[p].publisher && n.pubs[p].topic == h.pubs[p].topic
                  && n.pubs[p].payload == h.pubs[p].payload)
            && (forall j :: 0 <= j < |h.subs| ==> n.subs[j].topic == h.subs[j].topic)
  {
  }

  lemma OwnLater(calls: seq<Call>, more: seq<Call>, n: nat, m: nat, h: Handler)
    requires calls <= more && n <= m && AllOwn(calls, n, h)
    ensures AllOwn(more, m, h)
  {
    forall k: nat | k < |h.passes| ensures Own(more, m, h, k) {
      assert Own(calls, n, h, k);
      assert more[..h.passes[k]] == calls[..h.passes[k]];
    }
  }

  /** What was begun before a step stays accounted for, as long as finished handlers are left alone. */
  lemma CausesLater(w: World, n: World)
    requires Inv(w) && w.calls <= n.calls && w.marks <= n.marks && w.joins <= n.joins && w.openers <= n.openers
    requires |w.hub.pubs| <= |n.hub.pubs| && |w.hub.subs| <= |n.hub.subs|
    requires |n.hub.pubs| == |n.marks| && |n.hub.subs| == |n.joins| == |n.openers|
    requires forall p :: 0 <= p < |w.hub.pubs| ==>
               && n.hub.pubs[p].publisher == w.hub.pubs[p].publisher && n.hub.pubs[p].topic == w.hub.pubs[p].topic
               && n.hub.pubs[p].payload == w.hub.pubs[p].payload
    requires forall j :: 0 <= j < |w.hub.subs| ==> n.hub.subs[j].topic == w.hub.subs[j].topic
    requires forall id :: id in w.handlers && w.handlers[id].phase != Serving ==> id in n.handlers && n.handlers[id] == w.handlers[id]
    ensures forall p :: 0 <= p < |w.hub.pubs| ==> PubCaused(n, p)
    ensures forall j :: 0 <= j < |w.hub.subs| ==> SubCaused(n, j)
  {
    forall p | 0 <= p < |w.hub.pubs| ensures PubCaused(n, p) {
      assert PubCaused(w, p);
      OwnLater(w.calls, n.calls, w.marks[p], n.marks[p], w.handlers[w.hub.pubs[p].publisher]);
    }
    forall j | 0 <= j < |w.hub.subs| ensures SubCaused(n, j) {
      assert SubCaused(w, j);
      OwnLater(w.calls, n.calls, w.joins[j], n.joins[j], w.handlers[w.openers[j]]);
    }
  }

  /** Handlers whose own calls are as they were stay in order. */
  lemma HandlersLater(w: World, n: World)
    requires w.calls <= n.calls && (forall id :: id in w.handlers ==> HandlerOk(w, w.handlers[id])) && Disjoint(w)
    requires forall id :: id in n.handlers ==>
               if id in w.handlers then n.handlers[id] == w.handlers[id].(phase := n.handlers[id].phase)
               else n.handlers[id].passes == [] && n.handlers[id].since <= |n.calls|
    ensures (forall id :: id in n.handlers ==> HandlerOk(n, n.handlers[id])) && Disjoint(n)
  {
    forall id | id in n.handlers ensures HandlerOk(n, n.handlers[id]) {
      if id in w.handlers {
        OwnLater(w.calls, n.calls, |w.calls|, |n.calls|, w.handlers[id]);
        forall k: nat | k < |n.handlers[id].passes| ensures Own(n.calls, |n.calls|, n.handlers[id], k) {
          assert Own(n.calls, |n.calls|, w.handlers[id], k);
        }
      }
    }
  }

  lemma AuthorizeFits(calls: seq<Call>, c: Call)
    requires WellFormed(calls) && c.AuthorizeCall?
    ensures WellFormed(calls + [c])
  {
    var all := calls + [c];
    forall j, k, id | 0 <= j < k < |all| && NewId(all[j], id) ensures !NewId(all[k], id) {
    }
  }

  lemma JustPassed(calls: seq<Call>, c: Call)
    requires c.AuthorizeCall? && Accepts(calls, c)
    ensures PassedAt(calls + [c], |calls|, c.id, c.callId, c.user)
  {
    assert (calls + [c])[..|calls|] == calls;
  }

  /** The handler whose turn it was, with one more authorization of its own. */
  lemma AskedHandler(w: World, id: nat)
    requires id in w.handlers && HandlerOk(w, w.handlers[id]) && !Ready(w.handlers[id])
    ensures HandlerOk(Asked(w, id), Asked(w, id).handlers[id])
  {
    var (n, h) := (Asked(w, id), w.handlers[id]);
    var (g, c) := (n.handlers[id], Ask(h, |h.passes|, w.clock));
    OwnLater(w.calls, n.calls, |w.calls|, |n.calls|, h);
    forall k: nat | k < |g.passes| ensures Own(n.calls, |n.calls|, g, k) {
      if k < |h.passes| {
        assert Own(n.calls, |n.calls|, h, k);
      } else {
        JustPassed(w.calls, c);
      }
    }
  }

  lemma AskedDisjoint(w: World, id: nat)
    requires id in w.handlers && Disjoint(w) && forall other :: other in w.handlers ==> HandlerOk(w, w.handlers[other])
    ensures Disjoint(Asked(w, id))
  {
    var n := Asked(w, id);
    forall a, b, i: nat, j: nat | a in n.handlers && b in n.handlers && a != b && i < |n.handlers[a].passes| && j < |n.handlers[b].passes|
      ensures n.handlers[a].passes[i] != n.handlers[b].passes[j]
    {
      assert i < |w.handlers[a].passes| ==> Own(w.calls, |w.calls|, w.handlers[a], i);
      assert j < |w.handlers[b].passes| ==> Own(w.calls, |w.calls|, w.handlers[b], j);
    }
  }

  lemma AskKeeps(w: World, id: nat)
    requires Inv(w) && Enabled(w, Turn(id)) && !Ready(w.handlers[id])
    ensures Inv(Post(w, Turn(id)))
  {
    var n := Asked(w, id);
    forall other | other in n.handlers ensures HandlerOk(n, n.handlers[other]) {
      if other != id {
        OwnLater(w.calls, n.calls, |w.calls|, |n.calls|, w.handlers[other]);
      } else {
        AskedHandler(w, id);
      }
    }
    AskedDisjoint(w, id);
    CausesLater(w, n);
    AuthorizeFits(w.calls, Ask(w.handlers[id], |w.handlers[id].passes|, w.clock));
  }

  lemma PublishKeeps(w: World, id: nat)
    requires Inv(w) && Enabled(w, Turn(id)) && Ready(w.handlers[id]) && !w.handlers[id].request.Stream?
    ensures Inv(Post(w, Turn(id)))
  {
    var n := Sent(w, id);
    var h := w.handlers[id];
    Broker.StepKeeps(w.hub, Broker.Snapshot(id, TopicOf(h), Message(h)));
    HandlersLater(w, n);
    CausesLater(w, n);
    assert TopicOf(n.handlers[id]) == TopicOf(h) && Message(n.handlers[id]) == Message(h);
    assert AllOwn(n.calls, n.marks[|w.hub.pubs|], n.handlers[id]);
    assert PubCaused(n, |w.hub.pubs|);
  }

  lemma SubscribeKeeps(w: World, id: nat)
    requires Inv(w) && Enabled(w, Turn(id)) && Ready(w.handlers[id]) && w.handlers[id].request.Stream?
    ensures Inv(Post(w, Turn(id)))
  {
    var n := Opened(w, id);
    Broker.StepKeeps(w.hub, Broker.Subscribe(TopicOf(w.handlers[id])));
    HandlersLater(w, n);
    CausesLater(w, n);
    assert AllOwn(n.calls, n.joins[|w.hub.subs|], n.handlers[id]);
    assert SubCaused(n, |w.hub.subs|);
  }

  lemma QuietKeeps(w: World, step: Step)
    requires Inv(w) && Enabled(w, step) && !step.Turn?
    ensures Inv(Post(w, step))
  {
    var n := Post(w, step);
    if step.HubStep? {
      Broker.StepKeeps(w.hub, step.step);
      HubFrame(w.hub, step.step);
    }
    HandlersLater(w, n);
    CausesLater(w, n);
  }

  lemma StepKeeps(w: World, step: Step)
    requires Inv(w) && Enabled(w, step)
    ensures Inv(Post(w, step))
  {
    if !step.Turn? {
      QuietKeeps(w, step);
    } else if !Ready(w.handlers[step.id]) {
      AskKeeps(w, step.id);
    } else if w.handlers[step.id].request.Stream? {
      SubscribeKeeps(w, step.id);
    } else {
      PublishKeeps(w, step.id);
    }
  }

  ghost predicate Run(w: World, steps: seq<Step>)
    decreases |steps|
  {
    steps == [] || (Enabled(w, steps[0]) && Run(Post(w, steps[0]), steps[1..]))
  }

  ghost function Final(w: World, steps: seq<Step>): World
    requires Run(w, steps)
    decreases |steps|
  {
    if steps == [] then w else Final(Post(w, steps[0]), steps[1..])
  }

  lemma {:induction false} RunKeeps(w: World, steps: seq<Step>)
    requires Inv(w) && Run(w, steps)
    ensures Inv(Final(w, steps))
    decreases |steps|
  {
    if steps != [] {
      StepKeeps(w, steps[0]);
      RunKeeps(Post(w, steps[0]), steps[1..]);
    }
  }

  // ---------- end to end ----------

  /** A handler that has passed its checks is never held up by the broker. */
  lemma PublishNeverBlocked(steps: seq<Step>, id: nat)
    requires Run(EMPTY_WORLD, steps) && id in Final(EMPTY_WORLD, steps).handlers
    requires var h := Final(EMPTY_WORLD, steps).handlers[id]; h.phase == Serving && !h.request.Stream?
    ensures var w := Final(EMPTY_WORLD, steps);
            Broker.Enabled(w.hub, Broker.Snapshot(id, TopicOf(w.handlers[id]), Message(w.handlers[id])))
  {
    RunKeeps(EMPTY_WORLD, steps);
    var w := Final(EMPTY_WORLD, steps);
    forall p | 0 <= p < |w.hub.pubs| ensures w.hub.pubs[p].publisher != id {
      assert PubCaused(w, p);
    }
  }

  /** The publish of message `a` of stream `j`, the handler that began it, and the handler that opened the stream. */
  lemma Causes(steps: seq<Step>, j: nat, a: nat) returns (h: Handler, g: Handler)
    requires Run(EMPTY_WORLD, steps) && j < |Final(EMPTY_WORLD, steps).hub.subs| && a < |Final(EMPTY_WORLD, steps).hub.subs[j].sent|
    ensures var w := Final(EMPTY_WORLD, steps);
            var item := w.hub.subs[j].sent[a];
            && item.pub < |w.hub.pubs| && item.pub < |w.marks| && j < |w.joins| && j < |w.openers|
            && w.hub.pubs[item.pub].publisher in w.handlers && h == w.handlers[w.hub.pubs[item.pub].publisher]
            && w.openers[j] in w.handlers && g == w.handlers[w.openers[j]]
            && !h.request.Stream? && TopicOf(h) == w.hub.subs[j].topic == TopicOf(g) && item.payload == Message(h)
            && g.request.Stream?
            && Cleared(w.calls, w.marks[item.pub], h) && Cleared(w.calls, w.joins[j], g)
  {
    RunKeeps(EMPTY_WORLD, steps);
    var w := Final(EMPTY_WORLD, steps);
    assert Broker.SubOk(w.hub, j);
    assert PubCaused(w, w.hub.subs[j].sent[a].pub) && SubCaused(w, j);
    h := w.handlers[w.hub.pubs[w.hub.subs[j].sent[a].pub].publisher];
    g := w.handlers[w.openers[j]];
  }

  /**
   Every message ever put into a session stream names that session and, as its sender, the authenticated user of the
   request that published it; that request itself authorized that user for the session and call id after it arrived
   and before it published. The request that opened the stream authorized its own user before it subscribed.
   */
  lemma SessionStreamsAreAuthorized(steps: seq<Step>, j: nat, a: nat, sid: string)
    requires Run(EMPTY_WORLD, steps)
    requires var w := Final(EMPTY_WORLD, steps);
             j < |w.hub.subs| && w.hub.subs[j].topic == SessionTopic(sid) && a < |w.hub.subs[j].sent|
    ensures var w := Final(EMPTY_WORLD, steps);
            var item := w.hub.subs[j].sent[a];
            && item.pub < |w.hub.pubs| && item.pub < |w.marks| && j < |w.joins| && j < |w.openers|
            && w.hub.pubs[item.pub].publisher in w.handlers && w.openers[j] in w.handlers
            && var (h, g) := (w.handlers[w.hub.pubs[item.pub].publisher], w.handlers[w.openers[j]]);
            && item.payload.sessionId == sid && item.payload.sender == h.user
            && |h.passes| == 1 && h.since <= h.passes[0] < w.marks[item.pub]
            && PassedAt(w.calls, h.passes[0], sid, item.payload.callId, h.user)
            && |g.passes| == 1 && g.since <= g.passes[0] < w.joins[j]
            && PassedAt(w.calls, g.passes[0], sid, "", g.user)
  {
    var h, g := Causes(steps, j, a);
    var w := Final(EMPTY_WORLD, steps);
    TopicsApart(sid, if h.request.Invite? then h.request.target else h.request.body.sessionId);
    TopicsApart(sid, if g.request.inbox then g.user else g.request.sessionId);
    assert Own(w.calls, w.marks[w.hub.subs[j].sent[a].pub], h, 0) && Own(w.calls, w.joins[j], g, 0);
  }

  /**
   Every message ever put into an inbox is an invitation, reaches only that inbox's user, and names as its sender the
   authenticated user of the request that published it; that request itself authorized first its sender and then the
   inbox's user for the session and call id, after it arrived and before it published.
   */
  lemma InboxesAreAuthorized(steps: seq<Step>, j: nat, a: nat, user: string)
    requires Run(EMPTY_WORLD, steps)
    requires var w := Final(EMPTY_WORLD, steps);
             j < |w.hub.subs| && w.hub.subs[j].topic == InboxTopic(user) && a < |w.hub.subs[j].sent|
    ensures var w := Final(EMPTY_WORLD, steps);
            var item := w.hub.subs[j].sent[a];
            && item.pub < |w.hub.pubs| && item.pub < |w.marks| && j < |w.openers|
            && w.hub.pubs[item.pub].publisher in w.handlers && w.openers[j] in w.handlers
            && var (h, e) := (w.handlers[w.hub.pubs[item.pub].publisher], item.payload);
            && w.handlers[w.openers[j]].user == user
            && e.kind == "invite" && e.sender == h.user
            && |h.passes| == 2 && h.since <= h.passes[0] < w.marks[item.pub] && h.since <= h.passes[1] < w.marks[item.pub]
            && PassedAt(w.calls, h.passes[0], e.sessionId, e.callId, h.user)
            && PassedAt(w.calls, h.passes[1], e.sessionId, e.callId, user)
  {
    var h, g := Causes(steps, j, a);
    var w := Final(EMPTY_WORLD, steps);
    TopicsApart(if h.request.Publish? then h.request.body.sessionId else h.request.target, user);
    TopicsApart(if g.request.inbox then g.user else g.request.sessionId, user);
    assert h.request.Invite? && h.request.target == user;
    var n := w.marks[w.hub.subs[j].sent[a].pub];
    assert Own(w.calls, n, h, 0) && Own(w.calls, n, h, 1);
  }

  /** No two requests share an authorization. */
  lemma AuthorizationsAreOwn(steps: seq<Step>, a: nat, b: nat, i: nat, j: nat)
    requires Run(EMPTY_WORLD, steps)
    requires var w := Final(EMPTY_WORLD, steps);
             && a in w.handlers && b in w.handlers && i < |w.handlers[a].passes| && j < |w.handlers[b].passes|
             && w.handlers[a].passes[i] == w.handlers[b].passes[j]
    ensures a == b
  {
    RunKeeps(EMPTY_WORLD, steps);
  }

  /** When call `k` was made, the history said that the user may use the session. */
  ghost predicate UsedAt(calls: seq<Call>, k: nat, sessionId: string, callId: string, user: string, i: nat, last: nat) {
    k < |calls| && calls[k].AuthorizeCall? && MayUse(calls[..k], sessionId, callId, user, calls[k].now, i, last)
  }

  /** To have passed is to have been, at that moment, a participant of a session that was created, was not ended and had not run out. */
  lemma PassedWasParticipant(steps: seq<Step>, k: nat, sessionId: string, callId: string, user: string)
    requires Run(EMPTY_WORLD, steps) && PassedAt(Final(EMPTY_WORLD, steps).calls, k, sessionId, callId, user)
    ensures exists i: nat, last: nat :: UsedAt(Final(EMPTY_WORLD, steps).calls, k, sessionId, callId, user, i, last)
  {
    RunKeeps(EMPTY_WORLD, steps);
    OrderedRun(EMPTY_WORLD, steps);
    var calls := Final(EMPTY_WORLD, steps).calls;
    PrefixFits(calls, k);
    AuthorizeMatchesHistory(calls[..k], sessionId, callId, user, calls[k].now);
    var i: nat, last: nat :| MayUse(calls[..k], sessionId, callId, user, calls[k].now, i, last);
    assert UsedAt(calls, k, sessionId, callId, user, i, last);
  }

  lemma PrefixFits(calls: seq<Call>, k: nat)
    requires WellFormed(calls) && AuthorizesInOrder(calls) && k < |calls| && calls[k].AuthorizeCall?
    ensures WellFormed(calls[..k]) && PrunedBy(calls[..k], calls[k].now)
  {
  }

  /** An authorize never prunes earlier than a call before it: the clock only moves on. */
  ghost predicate AuthorizesInOrder(calls: seq<Call>) {
    forall j, k :: 0 <= j < k < |calls| && calls[k].AuthorizeCall? && (calls[j].AuthorizeCall? || calls[j].CreateCall? || calls[j].RoomCall?) ==>
      calls[j].now <= calls[k].now
  }

  lemma {:induction false} OrderedRun(w: World, steps: seq<Step>)
    requires Run(w, steps) && PrunedBy(w.calls, w.clock) && AuthorizesInOrder(w.calls)
    ensures AuthorizesInOrder(Final(w, steps).calls)
    decreases |steps|
  {
    if steps != [] {
      OrderedRun(Post(w, steps[0]), steps[1..]);
    }
  }
}
