/**
 The broker under every interleaving. A publish takes its snapshot under the broker lock and then, one
 subscriber at a time, takes that subscriber's lock, looks at the flag, and offers the payload to the
 channel; an unsubscribe leaves the list and then, under the subscriber's lock, sets the flag and closes
 the channel. Every one of those actions is a step.
 */
module BrokerProtocol {
  import opened Outcomes
  import opened SignalMessages

  const BUFFER_SIZE := 64

  datatype Holder = Publishing(pub: nat) | Leaving

  datatype Exit = Listening | Removed | Locked | FlagSet | Gone

  /** One payload put into a channel, with the publish it came from. */
  datatype Item = Item(pub: nat, payload: Envelope)

  /** `sent` is everything ever put into the channel; the first `taken` have been read. */
  datatype Sub = Sub(topic: string, lock: Option<Holder>, closed: bool, shut: bool, exit: Exit, sent: seq<Item>, taken: nat)

  datatype Outcome = Delivered | DroppedFull | DroppedClosed

  datatype Turn = Between | Holding | Sending

  /** A publish: the subscribers in its snapshot, how many it has dealt with and how, and where it is with the next. */
  datatype Pub = Pub(publisher: nat, topic: string, payload: Envelope, targets: seq<nat>, turn: Turn, outcomes: seq<Outcome>)

  datatype Hub = Hub(subs: seq<Sub>, lists: map<string, seq<nat>>, pubs: seq<Pub>, panicked: bool)

  const EMPTY := Hub([], map[], [], false)

  datatype Step =
    | Subscribe(topic: string)
    | Snapshot(publisher: nat, topic: string, payload: Envelope)
    | LockNext(pub: nat)
    | Look(pub: nat)
    | Offer(pub: nat)
    | Receive(sub: nat)
    | LeaveList(sub: nat)
    | LockLeaving(sub: nat)
    | SetFlag(sub: nat)
    | ShutChannel(sub: nat)

  function ListOf(h: Hub, topic: string): seq<nat> {
    if topic in h.lists then h.lists[topic] else []
  }

  /** The list without the first occurrence of `sub`. */
  function WithoutFirst(list: seq<nat>, sub: nat): seq<nat> {
    if list == [] then [] else if list[0] == sub then list[1..] else [list[0]] + WithoutFirst(list[1..], sub)
  }

  predicate Finished(p: Pub) {
    |p.outcomes| == |p.targets|
  }

  function Waiting(s: Sub): int {
    |s.sent| - s.taken
  }

  /** The subscriber a publish is dealing with. */
  function Target(p: Pub): nat
    requires |p.outcomes| < |p.targets|
  {
    p.targets[|p.outcomes|]
  }

  predicate OnTarget(h: Hub, pub: nat, turn: Turn) {
    && pub < |h.pubs| && h.pubs[pub].turn == turn
    && |h.pubs[pub].outcomes| < |h.pubs[pub].targets| && Target(h.pubs[pub]) < |h.subs|
  }

  predicate Enabled(h: Hub, step: Step) {
    match step
    case Subscribe(_) => true
    case Snapshot(publisher, _, _) => forall p | 0 <= p < |h.pubs| :: h.pubs[p].publisher == publisher ==> Finished(h.pubs[p])
    case LockNext(pub) => OnTarget(h, pub, Between) && h.subs[Target(h.pubs[pub])].lock.None?
    case Look(pub) => OnTarget(h, pub, Holding)
    case Offer(pub) => OnTarget(h, pub, Sending)
    case Receive(sub) => sub < |h.subs| && Waiting(h.subs[sub]) > 0
    case LeaveList(sub) => sub < |h.subs| && h.subs[sub].exit == Listening
    case LockLeaving(sub) => sub < |h.subs| && h.subs[sub].exit == Removed && h.subs[sub].lock.None?
    case SetFlag(sub) => sub < |h.subs| && h.subs[sub].exit == Locked
    case ShutChannel(sub) => sub < |h.subs| && h.subs[sub].exit == FlagSet
  }

  function Settle(h: Hub, pub: nat, sub: Sub, outcome: Outcome): Hub
    requires OnTarget(h, pub, Holding) || OnTarget(h, pub, Sending)
  {
    var p := h.pubs[pub];
    h.(subs := h.subs[Target(p) := sub.(lock := None)],
       pubs := h.pubs[pub := p.(turn := Between, outcomes := p.outcomes + [outcome])])
  }

  function Post(h: Hub, step: Step): Hub
    requires Enabled(h, step)
  {
    match step
    case Subscribe(topic) =>
      h.(subs := h.subs + [Sub(topic, None, false, false, Listening, [], 0)],
         lists := h.lists[topic := ListOf(h, topic) + [|h.subs|]])
    case Snapshot(publisher, topic, payload) =>
      h.(pubs := h.pubs + [Pub(publisher, topic, payload, ListOf(h, topic), Between, [])])
    case LockNext(pub) =>
      var p := h.pubs[pub];
      h.(subs := h.subs[Target(p) := h.subs[Target(p)].(lock := Some(Publishing(pub)))],
         pubs := h.pubs[pub := p.(turn := Holding)])
    case Look(pub) =>
      var s := h.subs[Target(h.pubs[pub])];
      if s.closed then Settle(h, pub, s, DroppedClosed)
      else h.(pubs := h.pubs[pub := h.pubs[pub].(turn := Sending)])
    case Offer(pub) =>
      var s := h.subs[Target(h.pubs[pub])];
      if s.shut then h.(panicked := true)
      else if Waiting(s) < BUFFER_SIZE then
        Settle(h, pub, s.(sent := s.sent + [Item(pub, h.pubs[pub].payload)]), Delivered)
      else
        Settle(h, pub, s, DroppedFull)
    case Receive(sub) => h.(subs := h.subs[sub := h.subs[sub].(taken := h.subs[sub].taken + 1)])
    case LeaveList(sub) =>
      var s := h.subs[sub];
      var rest := WithoutFirst(ListOf(h, s.topic), sub);
      h.(subs := h.subs[sub := s.(exit := Removed)],
         lists := if sub !in ListOf(h, s.topic) then h.lists else if rest == [] then h.lists - {s.topic} else h.lists[s.topic := rest])
    case LockLeaving(sub) => h.(subs := h.subs[sub := h.subs[sub].(exit := Locked, lock := Some(Leaving))])
    case SetFlag(sub) =>
      var s := h.subs[sub];
      if s.closed then h.(subs := h.subs[sub := s.(exit := Gone, lock := None)])
      else h.(subs := h.subs[sub := s.(exit := FlagSet, closed := true)])
    case ShutChannel(sub) =>
      var s := h.subs[sub];
      if s.shut then h.(panicked := true)
      else h.(subs := h.subs[sub := s.(exit := Gone, shut := true, lock := None)])
  }

  // ---------- the invariant ----------

  /** The flag, the channel and the lock as the way out leaves them. */
  predicate ExitOk(s: Sub) {
    && (s.closed <==> s.exit == FlagSet || s.exit == Gone)
    && (s.shut <==> s.exit == Gone)
    && (s.lock == Some(Leaving) <==> s.exit == Locked || s.exit == FlagSet)
  }

  predicate Came(s: Sub, pub: nat) {
    exists a | 0 <= a < |s.sent| :: s.sent[a].pub == pub
  }

  /** At most a full buffer waits, and everything sent is a publish of the topic, each publisher's in order. */
  predicate ChannelOk(h: Hub, s: Sub) {
    && s.taken <= |s.sent| <= s.taken + BUFFER_SIZE
    && (forall a | 0 <= a < |s.sent| ::
          && s.sent[a].pub < |h.pubs|
          && h.pubs[s.sent[a].pub].topic == s.topic && h.pubs[s.sent[a].pub].payload == s.sent[a].payload)
    && (forall a, b | 0 <= a < b < |s.sent| ::
          h.pubs[s.sent[a].pub].publisher == h.pubs[s.sent[b].pub].publisher ==> s.sent[a].pub < s.sent[b].pub)
  }

  predicate LockOk(h: Hub, sub: nat)
    requires sub < |h.subs|
  {
    match h.subs[sub].lock
    case Some(Publishing(pub)) =>
      && pub < |h.pubs| && h.pubs[pub].turn != Between
      && |h.pubs[pub].outcomes| < |h.pubs[pub].targets| && Target(h.pubs[pub]) == sub
    case _ => true
  }

  predicate SubOk(h: Hub, sub: nat)
    requires sub < |h.subs|
  {
    ExitOk(h.subs[sub]) && ChannelOk(h, h.subs[sub]) && LockOk(h, sub)
  }

  /** The snapshot holds distinct subscribers of the topic. */
  predicate TargetsOk(h: Hub, p: Pub) {
    && |p.outcomes| <= |p.targets|
    && (forall k | 0 <= k < |p.targets| :: p.targets[k] < |h.subs| && h.subs[p.targets[k]].topic == p.topic)
    && (forall j, k | 0 <= j < k < |p.targets| :: p.targets[j] != p.targets[k])
  }

  predicate TurnOk(h: Hub, pub: nat)
    requires pub < |h.pubs| && TargetsOk(h, h.pubs[pub])
  {
    var p := h.pubs[pub];
    && (p.turn != Between ==> |p.outcomes| < |p.targets| && h.subs[Target(p)].lock == Some(Publishing(pub)))
    && (p.turn == Sending ==> !h.subs[Target(p)].closed)
  }

  /** A payload is in exactly the channels where its publish recorded a delivery. */
  predicate ReachOk(h: Hub, pub: nat)
    requires pub < |h.pubs| && TargetsOk(h, h.pubs[pub])
  {
    var p := h.pubs[pub];
    forall sub | 0 <= sub < |h.subs| ::
      Came(h.subs[sub], pub) <==> exists k | 0 <= k < |p.outcomes| :: p.targets[k] == sub && p.outcomes[k] == Delivered
  }

  predicate PubOk(h: Hub, pub: nat)
    requires pub < |h.pubs|
  {
    TargetsOk(h, h.pubs[pub]) && TurnOk(h, pub) && ReachOk(h, pub)
  }

  /** The subscriber is on the topic and has not begun to leave. */
  predicate IsListening(h: Hub, sub: nat, topic: string) {
    sub < |h.subs| && h.subs[sub].topic == topic && h.subs[sub].exit == Listening
  }

  /** A topic's list holds exactly the subscribers listening on it, each once. */
  ghost predicate ListOk(h: Hub, topic: string) {
    var list := ListOf(h, topic);
    && (forall sub: nat :: sub in list <==> IsListening(h, sub, topic))
    && (forall j, k | 0 <= j < k < |list| :: list[j] != list[k])
  }

  /** A publisher starts a publish only when its earlier ones are done. */
  predicate OneAtATime(h: Hub) {
    forall p, q | 0 <= p < q < |h.pubs| :: h.pubs[p].publisher == h.pubs[q].publisher ==> Finished(h.pubs[p])
  }

  ghost predicate Inv(h: Hub) {
    && !h.panicked
    && (forall sub | 0 <= sub < |h.subs| :: SubOk(h, sub))
    && (forall pub | 0 <= pub < |h.pubs| :: PubOk(h, pub))
    && (forall topic :: ListOk(h, topic))
    && OneAtATime(h)
  }

  // ---------- each step keeps it ----------

  lemma SubscribeKeeps(h: Hub, topic: string)
    requires Inv(h)
    ensures Inv(Post(h, Subscribe(topic)))
  {
    var n := Post(h, Subscribe(topic));
    forall sub | 0 <= sub < |n.subs| ensures SubOk(n, sub) {
      if sub < |h.subs| {
        assert SubOk(h, sub);
      }
    }
    forall pub | 0 <= pub < |n.pubs| ensures PubOk(n, pub) {
      assert PubOk(h, pub);
    }
    forall t ensures ListOk(n, t) {
      assert ListOk(h, t);
      forall sub: nat ensures sub in ListOf(n, t) <==> IsListening(n, sub, t) {
        assert sub in ListOf(h, t) <==> IsListening(h, sub, t);
      }
      forall k | 0 <= k < |ListOf(h, t)| ensures ListOf(h, t)[k] < |h.subs| {
        assert ListOf(h, t)[k] in ListOf(h, t);
      }
    }
  }

  lemma SnapshotKeeps(h: Hub, publisher: nat, topic: string, payload: Envelope)
    requires Inv(h) && Enabled(h, Snapshot(publisher, topic, payload))
    ensures Inv(Post(h, Snapshot(publisher, topic, payload)))
  {
    var n := Post(h, Snapshot(publisher, topic, payload));
    assert ListOk(h, topic);
    forall k | 0 <= k < |ListOf(h, topic)| ensures IsListening(h, ListOf(h, topic)[k], topic) {
      assert ListOf(h, topic)[k] in ListOf(h, topic);
    }
    forall sub | 0 <= sub < |n.subs| ensures SubOk(n, sub) && !Came(n.subs[sub], |h.pubs|) {
      assert SubOk(h, sub);
    }
    forall pub | 0 <= pub < |n.pubs| ensures PubOk(n, pub) {
      if pub < |h.pubs| {
        assert PubOk(h, pub);
      }
    }
    forall t ensures ListOk(n, t) {
      assert ListOk(h, t);
      SameLists(h, n, t);
    }
  }

  /** A step on one subscriber that leaves its topic and what was sent alone, and takes no publisher's lock away. */
  lemma SubChangeKeeps(h: Hub, n: Hub, sub: nat)
    requires Inv(h) && sub < |h.subs|
    requires n.pubs == h.pubs && !n.panicked && |n.subs| == |h.subs| && n.subs == h.subs[sub := n.subs[sub]]
    requires n.subs[sub].topic == h.subs[sub].topic && n.subs[sub].sent == h.subs[sub].sent
    requires h.subs[sub].taken <= n.subs[sub].taken <= |h.subs[sub].sent|
    requires ExitOk(n.subs[sub])
    requires n.subs[sub].lock == h.subs[sub].lock
          || (n.subs[sub].lock in {None, Some(Leaving)} && h.subs[sub].lock in {None, Some(Leaving)})
    requires h.subs[sub].lock.Some? && h.subs[sub].lock.value.Publishing? ==> n.subs[sub].closed == h.subs[sub].closed
    requires forall topic :: ListOk(n, topic)
    ensures Inv(n)
  {
    forall other | 0 <= other < |n.subs| ensures SubOk(n, other) {
      assert SubOk(h, other);
    }
    forall pub | 0 <= pub < |n.pubs| ensures PubOk(n, pub) {
      assert PubOk(h, pub);
      forall other | 0 <= other < |n.subs| ensures Came(n.subs[other], pub) == Came(h.subs[other], pub) {
      }
    }
  }

  lemma {:induction false} WithoutFirstKeeps(list: seq<nat>, sub: nat)
    ensures forall x :: x in WithoutFirst(list, sub) ==> x in list
    ensures forall x :: x in list && x != sub ==> x in WithoutFirst(list, sub)
    ensures (forall j, k | 0 <= j < k < |list| :: list[j] != list[k]) ==> sub !in WithoutFirst(list, sub)
    ensures (forall j, k | 0 <= j < k < |list| :: list[j] != list[k]) ==>
              forall j, k | 0 <= j < k < |WithoutFirst(list, sub)| :: WithoutFirst(list, sub)[j] != WithoutFirst(list, sub)[k]
  {
    if list != [] {
      WithoutFirstKeeps(list[1..], sub);
      assert list == [list[0]] + list[1..];
      if list[0] != sub && forall j, k | 0 <= j < k < |list| :: list[j] != list[k] {
        var rest := WithoutFirst(list[1..], sub);
        forall k | 0 <= k < |rest| ensures rest[k] != list[0] {
          assert rest[k] in list[1..];
        }
      }
    }
  }

  lemma LeaveListKeeps(h: Hub, sub: nat)
    requires Inv(h) && Enabled(h, LeaveList(sub))
    ensures Inv(Post(h, LeaveList(sub)))
  {
    var n := Post(h, LeaveList(sub));
    var topic := h.subs[sub].topic;
    assert SubOk(h, sub);
    WithoutFirstKeeps(ListOf(h, topic), sub);
    forall t ensures ListOk(n, t) {
      assert ListOk(h, t);
      forall x: nat ensures x in ListOf(n, t) <==> IsListening(n, x, t) {
        assert x in ListOf(h, t) <==> IsListening(h, x, t);
      }
    }
    SubChangeKeeps(h, n, sub);
  }

  /** A list stays right while the same subscribers listen. */
  lemma SameLists(h: Hub, n: Hub, topic: string)
    requires ListOk(h, topic) && n.lists == h.lists
    requires forall sub: nat :: IsListening(n, sub, topic) <==> IsListening(h, sub, topic)
    ensures ListOk(n, topic)
  {
    assert ListOf(n, topic) == ListOf(h, topic);
    forall sub: nat ensures sub in ListOf(n, topic) <==> IsListening(n, sub, topic) {
      assert sub in ListOf(h, topic) <==> IsListening(h, sub, topic);
    }
  }

  lemma ExitKeeps(h: Hub, step: Step)
    requires Inv(h) && Enabled(h, step)
    requires step.Receive? || step.LockLeaving? || step.SetFlag? || step.ShutChannel?
    ensures Inv(Post(h, step))
  {
    assert SubOk(h, step.sub);
    var n := Post(h, step);
    assert n.lists == h.lists && (n.subs[step.sub].exit == Listening <==> h.subs[step.sub].exit == Listening);
    forall t ensures ListOk(n, t) {
      assert ListOk(h, t);
      SameLists(h, n, t);
    }
    SubChangeKeeps(h, n, step.sub);
  }

  /** The publishes and subscribers that a publisher's step does not concern. */
  lemma PublisherFrame(h: Hub, n: Hub, pub: nat)
    requires Inv(h) && pub < |h.pubs| && |h.pubs[pub].outcomes| < |h.pubs[pub].targets|
    requires var sub := Target(h.pubs[pub]);
             && sub < |h.subs| && |n.subs| == |h.subs| && n.subs == h.subs[sub := n.subs[sub]]
             && n.subs[sub].topic == h.subs[sub].topic && n.subs[sub].closed == h.subs[sub].closed && n.subs[sub].exit == h.subs[sub].exit
             && h.subs[sub].lock in {None, Some(Publishing(pub))}
             && (forall other | 0 <= other < |h.pubs| && other != pub :: Came(n.subs[sub], other) == Came(h.subs[sub], other))
             && SubOk(n, sub)
    requires |n.pubs| == |h.pubs| && n.pubs == h.pubs[pub := n.pubs[pub]] && n.lists == h.lists && !n.panicked
    requires n.pubs[pub].publisher == h.pubs[pub].publisher && n.pubs[pub].topic == h.pubs[pub].topic
    requires n.pubs[pub].payload == h.pubs[pub].payload && n.pubs[pub].targets == h.pubs[pub].targets
    requires PubOk(n, pub)
    requires OneAtATime(n)
    ensures Inv(n)
  {
    var sub := Target(h.pubs[pub]);
    forall other | 0 <= other < |n.subs| ensures SubOk(n, other) {
      assert SubOk(h, other);
      if other != sub {
        assert h.subs[other].lock != Some(Publishing(pub));
      }
    }
    forall other | 0 <= other < |n.pubs| ensures PubOk(n, other) {
      assert PubOk(h, other);
    }
    forall t ensures ListOk(n, t) {
      assert ListOk(h, t);
      SameLists(h, n, t);
    }
  }

  lemma LockNextKeeps(h: Hub, pub: nat)
    requires Inv(h) && Enabled(h, LockNext(pub))
    ensures Inv(Post(h, LockNext(pub)))
  {
    var n := Post(h, LockNext(pub));
    assert PubOk(h, pub) && SubOk(h, Target(h.pubs[pub]));
    forall sub | 0 <= sub < |h.subs| ensures Came(n.subs[sub], pub) == Came(h.subs[sub], pub) {
    }
    PublisherFrame(h, n, pub);
  }

  lemma LookOpenKeeps(h: Hub, pub: nat)
    requires Inv(h) && Enabled(h, Look(pub)) && !h.subs[Target(h.pubs[pub])].closed
    ensures Inv(Post(h, Look(pub)))
  {
    var n := Post(h, Look(pub));
    assert PubOk(h, pub) && SubOk(h, Target(h.pubs[pub]));
    assert n.subs == h.subs;
    PublisherFrame(h, n, pub);
  }

  /** Letting go of a subscriber after dealing with it, whatever came of it. */
  lemma SettleKeeps(h: Hub, pub: nat, sent: seq<Item>, outcome: Outcome)
    requires Inv(h) && (OnTarget(h, pub, Holding) || OnTarget(h, pub, Sending))
    requires var s := h.subs[Target(h.pubs[pub])];
             if outcome == Delivered then sent == s.sent + [Item(pub, h.pubs[pub].payload)] && Waiting(s) < BUFFER_SIZE
             else sent == s.sent
    ensures Inv(Settle(h, pub, h.subs[Target(h.pubs[pub])].(sent := sent), outcome))
  {
    var p, sub := h.pubs[pub], Target(h.pubs[pub]);
    var n := Settle(h, pub, h.subs[sub].(sent := sent), outcome);
    assert PubOk(h, pub) && SubOk(h, sub);
    SentIsOk(h, pub, sent, outcome);
    CameNext(h, pub, sent, outcome);
    assert LockOk(n, sub);
    forall a, b | 0 <= a < b < |n.pubs| && n.pubs[a].publisher == n.pubs[b].publisher ensures Finished(n.pubs[a]) {
      assert h.pubs[a].publisher == h.pubs[b].publisher;
    }
    ReachNext(h, n, pub, sent, outcome);
    PublisherFrame(h, n, pub);
  }

  lemma SentIsOk(h: Hub, pub: nat, sent: seq<Item>, outcome: Outcome)
    requires Inv(h) && (OnTarget(h, pub, Holding) || OnTarget(h, pub, Sending))
    requires var s := h.subs[Target(h.pubs[pub])];
             if outcome == Delivered then sent == s.sent + [Item(pub, h.pubs[pub].payload)] && Waiting(s) < BUFFER_SIZE
             else sent == s.sent
    ensures ChannelOk(Settle(h, pub, h.subs[Target(h.pubs[pub])].(sent := sent), outcome),
                      h.subs[Target(h.pubs[pub])].(sent := sent, lock := None))
  {
    var p, sub := h.pubs[pub], Target(h.pubs[pub]);
    assert PubOk(h, pub) && SubOk(h, sub);
    var s := h.subs[sub];
    assert !Came(s, pub) by {
      assert ReachOk(h, pub);
    }
    forall a | 0 <= a < |s.sent| && h.pubs[s.sent[a].pub].publisher == p.publisher ensures s.sent[a].pub < pub {
      assert s.sent[a].pub != pub;
      assert !Finished(p);
    }
  }

  lemma CameNext(h: Hub, pub: nat, sent: seq<Item>, outcome: Outcome)
    requires OnTarget(h, pub, Holding) || OnTarget(h, pub, Sending)
    requires var s := h.subs[Target(h.pubs[pub])];
             if outcome == Delivered then sent == s.sent + [Item(pub, h.pubs[pub].payload)] else sent == s.sent
    ensures var s := h.subs[Target(h.pubs[pub])];
            forall other: nat :: Came(s.(sent := sent, lock := None), other) <==> Came(s, other) || (other == pub && outcome == Delivered)
  {
    var s := h.subs[Target(h.pubs[pub])];
    var t := s.(sent := sent, lock := None);
    forall other: nat ensures Came(t, other) <==> Came(s, other) || (other == pub && outcome == Delivered) {
      if a :| 0 <= a < |s.sent| && s.sent[a].pub == other {
        assert t.sent[a].pub == other;
      }
      if outcome == Delivered {
        assert t.sent[|s.sent|].pub == pub;
      }
    }
  }

  lemma ReachNext(h: Hub, n: Hub, pub: nat, sent: seq<Item>, outcome: Outcome)
    requires Inv(h) && (OnTarget(h, pub, Holding) || OnTarget(h, pub, Sending))
    requires var s := h.subs[Target(h.pubs[pub])];
             if outcome == Delivered then sent == s.sent + [Item(pub, h.pubs[pub].payload)] else sent == s.sent
    requires n == Settle(h, pub, h.subs[Target(h.pubs[pub])].(sent := sent), outcome)
    ensures TargetsOk(n, n.pubs[pub]) && ReachOk(n, pub)
  {
    var p, q, sub := h.pubs[pub], n.pubs[pub], Target(h.pubs[pub]);
    assert PubOk(h, pub);
    CameNext(h, pub, sent, outcome);
    forall other | 0 <= other < |n.subs|
      ensures Came(n.subs[other], pub) <==> exists k | 0 <= k < |q.outcomes| :: q.targets[k] == other && q.outcomes[k] == Delivered
    {
      assert Came(h.subs[other], pub) <==> exists k | 0 <= k < |p.outcomes| :: p.targets[k] == other && p.outcomes[k] == Delivered;
      if k :| 0 <= k < |p.outcomes| && p.targets[k] == other && p.outcomes[k] == Delivered {
        assert q.targets[k] == other && q.outcomes[k] == Delivered;
      }
      if k :| 0 <= k < |q.outcomes| && q.targets[k] == other && q.outcomes[k] == Delivered {
        assert k < |p.outcomes| ==> p.targets[k] == other && p.outcomes[k] == Delivered;
      }
      if outcome == Delivered && other == sub {
        assert q.targets[|p.outcomes|] == sub && q.outcomes[|p.outcomes|] == Delivered;
      }
    }
  }

  lemma StepKeeps(h: Hub, step: Step)
    requires Inv(h) && Enabled(h, step)
    ensures Inv(Post(h, step))
  {
    if step.Subscribe? {
      SubscribeKeeps(h, step.topic);
    } else if step.Snapshot? {
      SnapshotKeeps(h, step.publisher, step.topic, step.payload);
    } else if step.LockNext? {
      LockNextKeeps(h, step.pub);
    } else if step.Look? {
      var s := h.subs[Target(h.pubs[step.pub])];
      if s.closed {
        assert s.(sent := s.sent) == s;
        SettleKeeps(h, step.pub, s.sent, DroppedClosed);
      } else {
        LookOpenKeeps(h, step.pub);
      }
    } else if step.Offer? {
      var sub := Target(h.pubs[step.pub]);
      var s := h.subs[sub];
      assert PubOk(h, step.pub) && SubOk(h, sub);
      if Waiting(s) < BUFFER_SIZE {
        SettleKeeps(h, step.pub, s.sent + [Item(step.pub, h.pubs[step.pub].payload)], Delivered);
      } else {
        assert s.(sent := s.sent) == s;
        SettleKeeps(h, step.pub, s.sent, DroppedFull);
      }
    } else if step.LeaveList? {
      LeaveListKeeps(h, step.sub);
    } else {
      ExitKeeps(h, step);
    }
  }

  // ---------- every run ----------

  predicate Run(h: Hub, steps: seq<Step>)
    decreases |steps|
  {
    steps == [] || (Enabled(h, steps[0]) && Run(Post(h, steps[0]), steps[1..]))
  }

  function After(h: Hub, steps: seq<Step>): Hub
    requires Run(h, steps)
    decreases |steps|
  {
    if steps == [] then h else After(Post(h, steps[0]), steps[1..])
  }

  lemma {:induction false} RunKeeps(h: Hub, steps: seq<Step>)
    requires Inv(h) && Run(h, steps)
    ensures Inv(After(h, steps))
    decreases |steps|
  {
    if steps != [] {
      StepKeeps(h, steps[0]);
      RunKeeps(Post(h, steps[0]), steps[1..]);
    }
  }

  /**
   In every interleaving: no send and no close ever hits a closed channel; at most 64 payloads wait in a
   channel; and what was put into it are payloads of its topic, each publish at most once, and each
   publisher's in the order it published them.
   */
  lemma SafeDelivery(steps: seq<Step>, sub: nat)
    requires Run(EMPTY, steps) && sub < |After(EMPTY, steps).subs|
    ensures var (h, s) := (After(EMPTY, steps), After(EMPTY, steps).subs[sub]);
            && !h.panicked
            && 0 <= Waiting(s) <= BUFFER_SIZE
            && (forall a :: 0 <= a < |s.sent| ==>
                  && s.sent[a].pub < |h.pubs| && h.pubs[s.sent[a].pub].topic == s.topic
                  && h.pubs[s.sent[a].pub].payload == s.sent[a].payload)
            && (forall a, b :: 0 <= a < b < |s.sent| ==>
                  && s.sent[a].pub != s.sent[b].pub
                  && (h.pubs[s.sent[a].pub].publisher == h.pubs[s.sent[b].pub].publisher ==> s.sent[a].pub < s.sent[b].pub))
  {
    RunKeeps(EMPTY, steps);
    assert SubOk(After(EMPTY, steps), sub);
  }

  /** A publish that has dealt with a subscriber of its snapshot delivered to it exactly when it says so. */
  lemma DeliveredMeansSent(steps: seq<Step>, pub: nat, k: nat)
    requires Run(EMPTY, steps) && pub < |After(EMPTY, steps).pubs| && k < |After(EMPTY, steps).pubs[pub].outcomes|
    ensures var (h, p) := (After(EMPTY, steps), After(EMPTY, steps).pubs[pub]);
            && k < |p.targets| && p.targets[k] < |h.subs|
            && (Came(h.subs[p.targets[k]], pub) <==> p.outcomes[k] == Delivered)
  {
    RunKeeps(EMPTY, steps);
    var h := After(EMPTY, steps);
    assert PubOk(h, pub);
    var p := h.pubs[pub];
    if j :| 0 <= j < |p.outcomes| && p.targets[j] == p.targets[k] && p.outcomes[j] == Delivered {
      assert j == k;
    }
  }

  /** Whenever a publish deals with a subscriber, it drops the payload only if the subscriber is closed or has a full buffer. */
  lemma DroppedOnlyWhenFullOrClosed(h: Hub, step: Step, pub: nat)
    requires Inv(h) && Enabled(h, step) && pub < |h.pubs| && |Post(h, step).pubs[pub].outcomes| > |h.pubs[pub].outcomes|
    ensures |Post(h, step).pubs[pub].outcomes| == |h.pubs[pub].outcomes| + 1
    ensures var (p, s) := (h.pubs[pub], h.subs[Target(h.pubs[pub])]);
            match Post(h, step).pubs[pub].outcomes[|p.outcomes|]
            case Delivered => Post(h, step).subs[Target(p)].sent == s.sent + [Item(pub, p.payload)] && !s.closed && Waiting(s) < BUFFER_SIZE
            case DroppedFull => Waiting(s) == BUFFER_SIZE && !s.closed
            case DroppedClosed => s.closed
  {
    assert PubOk(h, pub) && SubOk(h, Target(h.pubs[pub]));
  }

  // ---------- who is served ----------

  lemma {:induction false} RunSplit(h: Hub, steps: seq<Step>, m: nat)
    requires Run(h, steps) && m <= |steps|
    ensures Run(h, steps[..m]) && Run(After(h, steps[..m]), steps[m..])
    ensures After(After(h, steps[..m]), steps[m..]) == After(h, steps)
    decreases m
  {
    if m > 0 {
      RunSplit(Post(h, steps[0]), steps[1..], m - 1);
      assert steps[..m][0] == steps[0] && steps[..m][1..] == steps[1..][..m - 1];
      assert steps[1..][m - 1..] == steps[m..];
    } else {
      assert steps[0..] == steps;
    }
  }

  /** The hub before and after step `m` of a run. */
  lemma RunAt(steps: seq<Step>, m: nat)
    requires Run(EMPTY, steps) && m < |steps|
    ensures Run(EMPTY, steps[..m]) && Run(EMPTY, steps[..m + 1]) && Enabled(After(EMPTY, steps[..m]), steps[m])
    ensures After(EMPTY, steps[..m + 1]) == Post(After(EMPTY, steps[..m]), steps[m])
  {
    RunSplit(EMPTY, steps, m + 1);
    RunSplit(EMPTY, steps[..m + 1], m);
    assert steps[..m + 1][..m] == steps[..m] && steps[..m + 1][m..] == [steps[m]];
  }

  /** A publish stays what it was when it took its snapshot. */
  lemma {:induction false} PubStays(h: Hub, steps: seq<Step>, pub: nat)
    requires Run(h, steps) && pub < |h.pubs|
    ensures pub < |After(h, steps).pubs|
    ensures var (p, q) := (h.pubs[pub], After(h, steps).pubs[pub]);
            q.publisher == p.publisher && q.topic == p.topic && q.payload == p.payload && q.targets == p.targets
    decreases |steps|
  {
    if steps != [] {
      PubStays(Post(h, steps[0]), steps[1..], pub);
    }
  }

  /** The step ends the turn of subscriber `sub` in publish `pub` with a drop: it was closed, or held 64 payloads. */
  predicate Drops(h: Hub, step: Step, pub: nat, sub: nat) {
    match step
    case Look(p) => p == pub && OnTarget(h, pub, Holding) && Target(h.pubs[pub]) == sub && h.subs[sub].closed
    case Offer(p) => p == pub && OnTarget(h, pub, Sending) && Target(h.pubs[pub]) == sub && Waiting(h.subs[sub]) == 64
    case _ => false
  }

  ghost predicate DroppedAt(steps: seq<Step>, m: nat, pub: nat, sub: nat) {
    m < |steps| && Run(EMPTY, steps[..m]) && Drops(After(EMPTY, steps[..m]), steps[m], pub, sub)
  }

  /** The publish has recorded that it did not deliver to `sub`. */
  predicate Missed(h: Hub, pub: nat, sub: nat) {
    pub < |h.pubs| && exists k | 0 <= k < |h.pubs[pub].outcomes| ::
      k < |h.pubs[pub].targets| && h.pubs[pub].targets[k] == sub && h.pubs[pub].outcomes[k] != Delivered
  }

  /** A step that records nothing for the publish. */
  lemma MissedSame(h: Hub, step: Step, pub: nat, sub: nat)
    requires Enabled(h, step) && step != Look(pub) && step != Offer(pub)
    ensures Missed(Post(h, step), pub, sub) <==> Missed(h, pub, sub)
  {
    var n := Post(h, step);
    assert pub < |h.pubs| ==> n.pubs[pub].outcomes == h.pubs[pub].outcomes && n.pubs[pub].targets == h.pubs[pub].targets;
  }

  lemma MissedNext(h: Hub, step: Step, pub: nat, sub: nat)
    requires Inv(h) && Enabled(h, step)
    ensures Missed(Post(h, step), pub, sub) <==> Missed(h, pub, sub) || Drops(h, step, pub, sub)
  {
    if step == Look(pub) || step == Offer(pub) {
      var (p, q) := (h.pubs[pub], Post(h, step).pubs[pub]);
      LastOutcome(h, step, pub, sub);
      assert q.outcomes == p.outcomes || q.outcomes[..|p.outcomes|] == p.outcomes;
      if k :| 0 <= k < |p.outcomes| && k < |p.targets| && p.targets[k] == sub && p.outcomes[k] != Delivered {
        assert q.outcomes[k] != Delivered;
      }
    } else {
      MissedSame(h, step, pub, sub);
    }
  }

  lemma LastOutcome(h: Hub, step: Step, pub: nat, sub: nat)
    requires Inv(h) && Enabled(h, step) && pub < |h.pubs| && (step == Look(pub) || step == Offer(pub))
    ensures var (p, q) := (h.pubs[pub], Post(h, step).pubs[pub]);
            && |p.outcomes| < |p.targets| && q.targets == p.targets
            && p.outcomes <= q.outcomes && |q.outcomes| <= |p.outcomes| + 1
            && (Drops(h, step, pub, sub) <==>
                  |q.outcomes| == |p.outcomes| + 1 && p.targets[|p.outcomes|] == sub && q.outcomes[|p.outcomes|] != Delivered)
  {
    assert PubOk(h, pub) && SubOk(h, Target(h.pubs[pub]));
  }

  lemma DroppedLater(steps: seq<Step>, pub: nat, sub: nat)
    requires steps != []
    ensures var n := |steps| - 1;
            (exists m: nat :: DroppedAt(steps, m, pub, sub)) <==>
            (exists m: nat :: DroppedAt(steps[..n], m, pub, sub)) || DroppedAt(steps, n, pub, sub)
  {
    var n := |steps| - 1;
    if m: nat :| m < n && DroppedAt(steps, m, pub, sub) {
      DroppedInFront(steps, n, m, pub, sub);
      assert DroppedAt(steps[..n], m, pub, sub);
    }
    if m: nat :| DroppedAt(steps[..n], m, pub, sub) {
      DroppedInFront(steps, n, m, pub, sub);
      assert DroppedAt(steps, m, pub, sub);
    }
    assert forall m: nat :: DroppedAt(steps, m, pub, sub) ==> m < n || m == n;
  }

  lemma DroppedInFront(steps: seq<Step>, n: nat, m: nat, pub: nat, sub: nat)
    requires m < n <= |steps|
    ensures DroppedAt(steps, m, pub, sub) <==> DroppedAt(steps[..n], m, pub, sub)
  {
    assert steps[..n][..m] == steps[..m];
  }

  /** What a publish missed are the turns that ended with a drop. */
  lemma {:induction false} MissedIsDropped(steps: seq<Step>, pub: nat, sub: nat)
    requires Run(EMPTY, steps)
    ensures Missed(After(EMPTY, steps), pub, sub) <==> exists m: nat :: DroppedAt(steps, m, pub, sub)
    decreases |steps|
  {
    if steps != [] {
      var n := |steps| - 1;
      RunAt(steps, n);
      RunKeeps(EMPTY, steps[..n]);
      MissedIsDropped(steps[..n], pub, sub);
      MissedNext(After(EMPTY, steps[..n]), steps[n], pub, sub);
      assert steps[..n + 1] == steps;
      DroppedLater(steps, pub, sub);
    }
  }

  /** The step at which a publish began. */
  lemma {:induction false} BeganAt(steps: seq<Step>, pub: nat) returns (n: nat)
    requires Run(EMPTY, steps) && pub < |After(EMPTY, steps).pubs|
    ensures n < |steps| && steps[n].Snapshot? && Run(EMPTY, steps[..n]) && |After(EMPTY, steps[..n]).pubs| == pub
    decreases |steps|
  {
    assert steps != [];
    n := |steps| - 1;
    RunAt(steps, n);
    assert steps[..n + 1] == steps;
    if pub < |After(EMPTY, steps[..n]).pubs| {
      var last := n;
      n := BeganAt(steps[..last], pub);
      assert steps[..last][..n] == steps[..n];
    }
  }

  /** The publish has just the step's message, and in its snapshot exactly those who listen on its topic in `h`, each once. */
  ghost predicate Takes(h: Hub, step: Step, p: Pub)
    requires step.Snapshot?
  {
    && p.publisher == step.publisher && p.topic == step.topic && p.payload == step.payload
    && (forall sub: nat :: sub in p.targets <==> IsListening(h, sub, step.topic))
    && (forall j, k :: 0 <= j < k < |p.targets| ==> p.targets[j] != p.targets[k])
  }

  /** A publish takes its snapshot of exactly those who listen on its topic at that moment, each once, and keeps it. */
  lemma SnapshotHasListeners(steps: seq<Step>, n: nat)
    requires Run(EMPTY, steps) && n < |steps| && steps[n].Snapshot?
    ensures Run(EMPTY, steps[..n])
    ensures var (h, t) := (After(EMPTY, steps[..n]), After(EMPTY, steps));
            |h.pubs| < |t.pubs| && Takes(h, steps[n], t.pubs[|h.pubs|])
  {
    RunAt(steps, n);
    RunKeeps(EMPTY, steps[..n]);
    SnapshotTakes(After(EMPTY, steps[..n]), steps[n]);
    LaterPub(steps, n + 1, |After(EMPTY, steps[..n]).pubs|);
  }

  /** What a publish was in the middle of a run, it is at its end. */
  lemma LaterPub(steps: seq<Step>, n: nat, pub: nat)
    requires Run(EMPTY, steps) && n <= |steps| && Run(EMPTY, steps[..n]) && pub < |After(EMPTY, steps[..n]).pubs|
    ensures pub < |After(EMPTY, steps).pubs|
    ensures var (p, q) := (After(EMPTY, steps[..n]).pubs[pub], After(EMPTY, steps).pubs[pub]);
            q.publisher == p.publisher && q.topic == p.topic && q.payload == p.payload && q.targets == p.targets
  {
    RunSplit(EMPTY, steps, n);
    PubStays(After(EMPTY, steps[..n]), steps[n..], pub);
  }

  lemma SnapshotTakes(h: Hub, step: Step)
    requires Inv(h) && Enabled(h, step) && step.Snapshot?
    ensures |Post(h, step).pubs| == |h.pubs| + 1 && Takes(h, step, Post(h, step).pubs[|h.pubs|])
  {
    assert ListOk(h, step.topic);
  }

  /**
   A finished publish has put its payload into the channel of exactly those who listened on its topic when it took its
   snapshot, but for the ones that were closed or held 64 payloads when their turn came.
   */
  lemma ListenersAreServed(steps: seq<Step>, n: nat, sub: nat)
    requires Run(EMPTY, steps) && n < |steps| && steps[n].Snapshot? && Run(EMPTY, steps[..n])
    requires var pub := |After(EMPTY, steps[..n]).pubs|;
             pub < |After(EMPTY, steps).pubs| && Finished(After(EMPTY, steps).pubs[pub])
    ensures var (h, t) := (After(EMPTY, steps[..n]), After(EMPTY, steps));
            sub < |t.subs| && Came(t.subs[sub], |h.pubs|) <==>
              IsListening(h, sub, steps[n].topic) && forall m: nat :: !DroppedAt(steps, m, |h.pubs|, sub)
  {
    SnapshotHasListeners(steps, n);
    var (h, t) := (After(EMPTY, steps[..n]), After(EMPTY, steps));
    var pub := |h.pubs|;
    var p := t.pubs[pub];
    RunKeeps(EMPTY, steps);
    MissedIsDropped(steps, pub, sub);
    assert PubOk(t, pub);
    if sub in p.targets {
      var k :| 0 <= k < |p.targets| && p.targets[k] == sub;
      DeliveredMeansSent(steps, pub, k);
      forall j | 0 <= j < |p.outcomes| && p.targets[j] == sub ensures j == k {
      }
      assert p.outcomes[k] != Delivered <==> Missed(t, pub, sub);
    } else if sub < |t.subs| {
      assert !Came(t.subs[sub], pub);
    }
  }

  /** The step that the holder of a subscriber's lock takes next. */
  function HolderStep(h: Hub, sub: nat): Option<Step>
    requires sub < |h.subs|
  {
    match h.subs[sub].lock
    case None => None
    case Some(Leaving) => Some(if h.subs[sub].exit == Locked then SetFlag(sub) else ShutChannel(sub))
    case Some(Publishing(pub)) => Some(if pub < |h.pubs| && h.pubs[pub].turn == Holding then Look(pub) else Offer(pub))
  }

  /** Nobody ever waits for ever: an unfinished publish can take its next step, or whoever holds the lock it waits for can take theirs. */
  lemma PublishGoesOn(steps: seq<Step>, pub: nat)
    requires Run(EMPTY, steps) && pub < |After(EMPTY, steps).pubs| && !Finished(After(EMPTY, steps).pubs[pub])
    ensures var (h, p) := (After(EMPTY, steps), After(EMPTY, steps).pubs[pub]);
            && |p.outcomes| < |p.targets| && Target(p) < |h.subs|
            && match p.turn
               case Holding => Enabled(h, Look(pub))
               case Sending => Enabled(h, Offer(pub))
               case Between =>
                 match HolderStep(h, Target(p))
                 case None => Enabled(h, LockNext(pub))
                 case Some(step) => Enabled(h, step)
  {
    RunKeeps(EMPTY, steps);
    var h := After(EMPTY, steps);
    assert PubOk(h, pub);
    assert SubOk(h, Target(h.pubs[pub]));
  }
}
