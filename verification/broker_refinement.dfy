/** A pass of the broker's objects under their locks does what the steps of the protocol do when nothing comes between them. */
module BrokerRefinement {
  import opened Outcomes
  import opened SignalMessages
  import opened BrokerProtocol
  import Objects = SignalBroker

  function Payloads(items: seq<Item>): seq<Envelope> {
    seq(|items|, i requires 0 <= i < |items| => items[i].payload)
  }

  /** A subscriber of the protocol as the object has it: what waits in the channel, the flag, and whether it is closed. */
  function Seen(s: Sub): Objects.Channel
    requires s.taken <= |s.sent|
  {
    Objects.Channel(Payloads(s.sent[s.taken..]), s.closed, s.shut)
  }

  /** The steps of one turn of a publish. */
  function TurnSteps(h: Hub, pub: nat): seq<Step>
    requires OnTarget(h, pub, Between)
  {
    if h.subs[Target(h.pubs[pub])].closed then [LockNext(pub), Look(pub)] else [LockNext(pub), Look(pub), Offer(pub)]
  }

  lemma RunTwo(h: Hub, a: Step, b: Step)
    requires Enabled(h, a) && Enabled(Post(h, a), b)
    ensures Run(h, [a, b]) && After(h, [a, b]) == Post(Post(h, a), b)
  {
    assert [a, b][1..] == [b] && [b][1..] == [];
    assert Run(Post(Post(h, a), b), []);
    assert Run(Post(h, a), [b]);
    assert After(Post(h, a), [b]) == After(Post(Post(h, a), b), []);
  }

  lemma RunThree(h: Hub, a: Step, b: Step, c: Step)
    requires Enabled(h, a) && Enabled(Post(h, a), b) && Enabled(Post(Post(h, a), b), c)
    ensures Run(h, [a, b, c]) && After(h, [a, b, c]) == Post(Post(Post(h, a), b), c)
  {
    RunTwo(Post(h, a), b, c);
    assert [a, b, c][1..] == [b, c];
  }

  /** The turn of an open subscriber: the lock, the look at the flag, the offer. */
  lemma OpenTurn(h: Hub, pub: nat)
    requires Inv(h) && OnTarget(h, pub, Between) && h.subs[Target(h.pubs[pub])].lock.None? && !h.subs[Target(h.pubs[pub])].closed
    ensures Run(h, TurnSteps(h, pub))
    ensures var (sub, next) := (Target(h.pubs[pub]), After(h, TurnSteps(h, pub)));
            var s := h.subs[sub];
            && next.subs == h.subs[sub := if Waiting(s) < BUFFER_SIZE then s.(sent := s.sent + [Item(pub, h.pubs[pub].payload)]) else s]
            && |next.pubs| == |h.pubs| && next.pubs[pub].turn == Between && |next.pubs[pub].outcomes| == |h.pubs[pub].outcomes| + 1
  {
    var sub := Target(h.pubs[pub]);
    assert SubOk(h, sub);
    var g := Post(h, LockNext(pub));
    var k := Post(g, Look(pub));
    assert g.subs[sub] == h.subs[sub].(lock := Some(Publishing(pub)));
    assert k.subs == g.subs;
    RunThree(h, LockNext(pub), Look(pub), Offer(pub));
  }

  lemma ClosedTurn(h: Hub, pub: nat)
    requires Inv(h) && OnTarget(h, pub, Between) && h.subs[Target(h.pubs[pub])].lock.None? && h.subs[Target(h.pubs[pub])].closed
    ensures Run(h, TurnSteps(h, pub))
    ensures var next := After(h, TurnSteps(h, pub));
            && next.subs == h.subs
            && |next.pubs| == |h.pubs| && next.pubs[pub].turn == Between && |next.pubs[pub].outcomes| == |h.pubs[pub].outcomes| + 1
  {
    var g := Post(h, LockNext(pub));
    assert g.subs[Target(h.pubs[pub])] == h.subs[Target(h.pubs[pub])].(lock := Some(Publishing(pub)));
    RunTwo(h, LockNext(pub), Look(pub));
  }

  /** One turn of a publish, taken without interruption, delivers as the object does, and touches no other subscriber. */
  lemma DeliverRefines(h: Hub, pub: nat)
    requires Inv(h) && OnTarget(h, pub, Between) && h.subs[Target(h.pubs[pub])].lock.None?
    ensures Run(h, TurnSteps(h, pub))
    ensures var (sub, next) := (Target(h.pubs[pub]), After(h, TurnSteps(h, pub)));
            && |next.subs| == |h.subs| && next.subs == h.subs[sub := next.subs[sub]]
            && h.subs[sub].taken <= |h.subs[sub].sent| && next.subs[sub].taken <= |next.subs[sub].sent|
            && Seen(next.subs[sub]) == Objects.Delivered(Seen(h.subs[sub]), h.pubs[pub].payload)
            && |next.pubs| == |h.pubs| && |next.pubs[pub].outcomes| == |h.pubs[pub].outcomes| + 1 && next.pubs[pub].turn == Between
  {
    var sub := Target(h.pubs[pub]);
    assert SubOk(h, sub);
    var s := h.subs[sub];
    if s.closed {
      ClosedTurn(h, pub);
    } else {
      OpenTurn(h, pub);
      SeenAfterOffer(s, Item(pub, h.pubs[pub].payload));
    }
  }

  lemma SeenAfterOffer(s: Sub, item: Item)
    requires s.taken <= |s.sent| && !s.closed
    ensures Seen(if Waiting(s) < BUFFER_SIZE then s.(sent := s.sent + [item]) else s) == Objects.Delivered(Seen(s), item.payload)
  {
    var sent := s.sent + [item];
    assert sent[s.taken..] == s.sent[s.taken..] + [item];
    assert Payloads(sent[s.taken..]) == Payloads(s.sent[s.taken..]) + [item.payload];
  }

  /** Closing a subscriber that has left its list, without interruption, closes it as the object does. */
  lemma CloseRefines(h: Hub, sub: nat)
    requires Inv(h) && sub < |h.subs| && h.subs[sub].exit == Removed && h.subs[sub].lock.None?
    ensures Run(h, [LockLeaving(sub), SetFlag(sub), ShutChannel(sub)])
    ensures var next := After(h, [LockLeaving(sub), SetFlag(sub), ShutChannel(sub)]);
            && |next.subs| == |h.subs| && next.subs == h.subs[sub := next.subs[sub]] && next.pubs == h.pubs && next.lists == h.lists
            && h.subs[sub].taken <= |h.subs[sub].sent| && next.subs[sub].taken <= |next.subs[sub].sent|
            && Seen(next.subs[sub]) == Seen(h.subs[sub]).(closed := true, shut := true)
  {
    assert SubOk(h, sub);
    var g := Post(h, LockLeaving(sub));
    var k := Post(g, SetFlag(sub));
    assert g.subs[sub] == h.subs[sub].(exit := Locked, lock := Some(Leaving));
    assert k.subs[sub] == g.subs[sub].(exit := FlagSet, closed := true);
    RunThree(h, LockLeaving(sub), SetFlag(sub), ShutChannel(sub));
  }
}
