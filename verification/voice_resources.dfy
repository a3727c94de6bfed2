/** What a voice session holds and lets go of, read off what it was given: the other half of its release of resources. */
module VoiceResources {
  import opened Outcomes
  import opened VoiceSessions

  lemma {:induction false} RunPrefix(steps: seq<Step>, n: nat)
    requires IsRun(steps) && n <= |steps|
    ensures IsRun(steps[..n])
    ensures n < |steps| ==> Enabled(After(steps[..n]), steps[n])
    decreases |steps|
  {
    var last := |steps| - 1;
    if n == |steps| {
      assert steps[..n] == steps;
    } else if n < last {
      RunPrefix(steps[..last], n);
      assert steps[..last][..n] == steps[..n];
    }
  }

  lemma RunNext(steps: seq<Step>, step: Step)
    requires IsRun(steps) && Enabled(After(steps), step)
    ensures IsRun(steps + [step]) && After(steps + [step]) == Post(After(steps), step)
  {
    assert (steps + [step])[..|steps|] == steps;
  }

  // ---------- the state, by what happened ----------

  /**
   A session is in a room exactly while it is active, and closing exactly while its last close is unfinished. Starting an
   idle session in a room makes it active there; starting any other, or without a room, changes nothing.
   */
  lemma StartsOnlyIdle(steps: seq<Step>, room: string)
    requires IsRun(steps)
    ensures var s := After(steps);
            && (s.mode == Active <==> s.room != "")
            && (s.mode == Closing <==> s.closes != [] && !s.closes[|s.closes| - 1].completed)
    ensures IsRun(steps + [Start(room)])
    ensures var (s, next) := (After(steps), After(steps + [Start(room)]));
            if s.mode == Idle && room != "" then IsActive(next, room) && next == s.(mode := Active, room := room) else next == s
    ensures Started(After(steps), room).1 <==> After(steps).mode == Idle && room != ""
  {
    RunKeepsInv(steps);
    RunNext(steps, Start(room));
  }

  lemma CompletionFinishes(s: Session)
    requires Inv(s) && s.mode == Closing
    ensures s.closes != [] && Enabled(s, Complete(|s.closes| - 1))
    ensures var (next, c) := (Post(s, Complete(|s.closes| - 1)), |s.closes| - 1);
            && next.mode == Idle && |next.closes| == |s.closes| && next.closes[c] == s.closes[c].(completed := true)
            && next.due == s.cleanup + s.due
  {
  }

  /** The completion of the close in progress finishes it: the session can be started again, and every callback it had is due. */
  lemma CompletionFrees(steps: seq<Step>)
    requires IsRun(steps) && After(steps).mode == Closing
    ensures After(steps).closes != []
    ensures var c := |After(steps).closes| - 1; IsRun(steps + [Complete(c)])
    ensures var (s, c) := (After(steps), |After(steps).closes| - 1);
            var next := After(steps + [Complete(c)]);
            && next.mode == Idle && |next.closes| == |s.closes| && next.closes[c] == s.closes[c].(completed := true)
            && next.due == s.cleanup + s.due
  {
    RunKeepsInv(steps);
    CompletionFinishes(After(steps));
    RunNext(steps, Complete(|After(steps).closes| - 1));
  }

  // ---------- what it holds ----------

  datatype Holding = Holding(stream: Option<Handle>, hub: Option<Handle>, swarm: Option<Handle>)

  const NOTHING := Holding(None, None, None)

  /** What a step leaves of what a session holds: only something for the room it is active in is taken, and a close takes all away. */
  function HeldNext(s: Session, held: Holding, step: Step): Holding {
    match step
    case SetStream(room, stream) => if s.mode == Active && s.room == room then held.(stream := stream) else held
    case SetConnection(room, hub, swarm) =>
      if s.mode == Active && s.room == room then held.(hub := hub, swarm := swarm) else held
    case Connect(room, hub, current, arrival) =>
      if s.mode == Active && s.room == room && current && arrival.Ready? then held.(hub := Some(hub), swarm := Some(arrival.swarm)) else held
    case Close => NOTHING
    case _ => held
  }

  /** What a run leaves the session holding: what it was given last for the room it was active in, since its last close. */
  function Held(steps: seq<Step>): Holding
    requires IsRun(steps)
    decreases |steps|
  {
    if steps == [] then NOTHING
    else HeldNext(After(steps[..|steps| - 1]), Held(steps[..|steps| - 1]), steps[|steps| - 1])
  }

  lemma HoldStep(s: Session, step: Step)
    requires Enabled(s, step) && (s.mode == Closing ==> s.stream.None? && s.hub.None? && s.swarm.None?)
    ensures var next := Post(s, step);
            Holding(next.stream, next.hub, next.swarm) == HeldNext(s, Holding(s.stream, s.hub, s.swarm), step)
  {
  }

  lemma {:induction false} HoldsWhatItWasGiven(steps: seq<Step>)
    requires IsRun(steps)
    ensures var s := After(steps); Holding(s.stream, s.hub, s.swarm) == Held(steps)
    decreases |steps|
  {
    if steps != [] {
      var front := steps[..|steps| - 1];
      HoldsWhatItWasGiven(front);
      RunKeepsInv(front);
      HoldStep(After(front), steps[|steps| - 1]);
    }
  }

  lemma StepKeepsCapture(s: Session, step: Step, c: nat)
    requires Enabled(s, step) && c < |s.closes|
    ensures c < |Post(s, step).closes|
    ensures var (was, now) := (s.closes[c], Post(s, step).closes[c]);
            now.stream == was.stream && now.hub == was.hub && now.swarm == was.swarm && (was.completed ==> now.completed)
  {
  }

  /** A close never forgets or changes what it captured. */
  lemma {:induction false} CaptureStays(steps: seq<Step>, n: nat, c: nat)
    requires IsRun(steps) && n <= |steps| && IsRun(steps[..n]) && c < |After(steps[..n]).closes|
    ensures c < |After(steps).closes|
    ensures var (was, now) := (After(steps[..n]).closes[c], After(steps).closes[c]);
            now.stream == was.stream && now.hub == was.hub && now.swarm == was.swarm && (was.completed ==> now.completed)
    decreases |steps|
  {
    if n == |steps| {
      assert steps[..n] == steps;
    } else {
      var front := steps[..|steps| - 1];
      assert front[..n] == steps[..n];
      CaptureStays(front, n, c);
      StepKeepsCapture(After(front), steps[|steps| - 1], c);
    }
  }

  /**
   A close of a session that is not closing already stops the stream and closes the swarm that the session was last given
   for its room, once each, and its hub once on completion; whatever happens later, it releases nothing else and nothing
   twice.
   */
  lemma CloseReleasesWhatWasGiven(steps: seq<Step>, n: nat)
    requires IsRun(steps) && n < |steps| && steps[n] == Close
    requires IsRun(steps[..n]) && After(steps[..n]).mode != Closing
    ensures var (held, c, s) := (Held(steps[..n]), |After(steps[..n]).closes|, After(steps));
            && c < |s.closes|
            && Releases(ActsOf(s.effects, c), Capture(held.stream, held.hub, held.swarm, s.closes[c].completed), HubCloses(s.closes[c]))
  {
    var front := steps[..n];
    RunPrefix(steps, n + 1);
    assert steps[..n + 1] == front + [Close];
    RunNext(front, Close);
    HoldsWhatItWasGiven(front);
    RunKeepsInv(front);
    CaptureIsWhatWasHeld(After(front));
    CaptureStays(steps, n + 1, |After(front).closes|);
    CaptureReleasedOnce(steps, |After(front).closes|);
  }

  /** Until a close, or until it is given another, a session goes on holding the stream it was given. */
  lemma {:induction false} StreamGivenIsHeld(steps: seq<Step>, n: nat)
    requires IsRun(steps) && n < |steps| && IsRun(steps[..n])
    requires steps[n].SetStream? && IsActive(After(steps[..n]), steps[n].room)
    requires forall k :: n < k < |steps| ==> !steps[k].Close? && !(steps[k].SetStream? && steps[k].room == steps[n].room)
    ensures IsActive(After(steps), steps[n].room) && |After(steps).closes| == |After(steps[..n]).closes|
    ensures Held(steps).stream == steps[n].stream
    decreases |steps|
  {
    var front := steps[..|steps| - 1];
    RunKeepsInv(front);
    if n < |steps| - 1 {
      assert front[..n] == steps[..n] && front[n] == steps[n];
      StreamGivenIsHeld(front, n);
    } else {
      assert front == steps[..n];
    }
  }

  /** A stream given to a session that is active in its room, and not replaced there, is stopped once by the close that follows. */
  lemma StreamGivenIsStopped(steps: seq<Step>, n: nat, m: nat, h: Handle)
    requires IsRun(steps) && n < m < |steps| && IsRun(steps[..n]) && steps[m] == Close
    requires steps[n].SetStream? && steps[n].stream == Some(h) && h.closable && IsActive(After(steps[..n]), steps[n].room)
    requires forall k :: n < k < m ==> !steps[k].Close? && !(steps[k].SetStream? && steps[k].room == steps[n].room)
    ensures Times(ActsOf(After(steps).effects, |After(steps[..n]).closes|), StopStream(h)) == 1
  {
    RunPrefix(steps, m);
    var front := steps[..m];
    assert front[..n] == steps[..n];
    StreamGivenIsHeld(front, n);
    CloseReleasesWhatWasGiven(steps, m);
    var (held, c, s) := (Held(front), |After(front).closes|, After(steps));
    assert ReleasesHandle(ActsOf(s.effects, c), Capture(held.stream, held.hub, held.swarm, s.closes[c].completed), HubCloses(s.closes[c]), h);
  }

  /** The step gives the session a connection for its room. */
  predicate Connects(s: Session, step: Step, hub: Handle, swarm: Handle) {
    match step
    case SetConnection(room, h, w) => IsActive(s, room) && h == Some(hub) && w == Some(swarm)
    case Connect(room, h, current, arrival) => IsActive(s, room) && current && h == hub && arrival.Ready? && arrival.swarm == swarm
    case _ => false
  }

  lemma {:induction false} ConnectionGivenIsHeld(steps: seq<Step>, n: nat, hub: Handle, swarm: Handle)
    requires IsRun(steps) && n < |steps| && IsRun(steps[..n]) && Connects(After(steps[..n]), steps[n], hub, swarm)
    requires forall k :: n < k < |steps| ==> !steps[k].Close? && !steps[k].SetConnection? && !steps[k].Connect?
    ensures After(steps).mode == Active && |After(steps).closes| == |After(steps[..n]).closes|
    ensures Held(steps).hub == Some(hub) && Held(steps).swarm == Some(swarm)
    decreases |steps|
  {
    var front := steps[..|steps| - 1];
    RunKeepsInv(front);
    if n < |steps| - 1 {
      assert front[..n] == steps[..n] && front[n] == steps[n];
      ConnectionGivenIsHeld(front, n, hub, swarm);
    } else {
      assert front == steps[..n];
    }
  }

  /**
   A hub and swarm given to a session that is active in their room, and not replaced, are closed once each by the close
   that follows: the swarm at once, the hub on completion.
   */
  lemma ConnectionGivenIsClosed(steps: seq<Step>, n: nat, m: nat, hub: Handle, swarm: Handle)
    requires IsRun(steps) && n < m < |steps| && IsRun(steps[..n]) && steps[m] == Close
    requires Connects(After(steps[..n]), steps[n], hub, swarm) && hub.closable && swarm.closable
    requires forall k :: n < k < m ==> !steps[k].Close? && !steps[k].SetConnection? && !steps[k].Connect?
    ensures var (c, s) := (|After(steps[..n]).closes|, After(steps));
            && c < |s.closes|
            && Times(ActsOf(s.effects, c), CloseSwarm(swarm)) == 1
            && Times(ActsOf(s.effects, c), CloseHub(hub)) == if s.closes[c].completed then 1 else 0
  {
    RunPrefix(steps, m);
    var front := steps[..m];
    assert front[..n] == steps[..n];
    ConnectionGivenIsHeld(front, n, hub, swarm);
    CloseReleasesWhatWasGiven(steps, m);
    var (held, c, s) := (Held(front), |After(front).closes|, After(steps));
    var capture := Capture(held.stream, held.hub, held.swarm, s.closes[c].completed);
    assert ReleasesHandle(ActsOf(s.effects, c), capture, HubCloses(s.closes[c]), swarm);
    assert ReleasesHandle(ActsOf(s.effects, c), capture, HubCloses(s.closes[c]), hub);
  }

  // ---------- what it does not take ----------

  /** What the session was offered and released without holding it, in order. */
  function Refused(effects: seq<Effect>): seq<Act> {
    if effects == [] then [] else
    var last := effects[|effects| - 1];
    Refused(effects[..|effects| - 1]) + if last.Refusal? then [last.act] else []
  }

  lemma {:induction false} RefusedRead(acts: seq<Act>)
    ensures Refused(Refusals(acts)) == acts
  {
    if acts != [] {
      var n := |acts| - 1;
      RefusedRead(acts[..n]);
      assert Refusals(acts)[..n] == Refusals(acts[..n]);
    }
  }

  /** What a step offers the session. */
  function Offered(step: Step): Holding {
    match step
    case SetStream(_, stream) => Holding(stream, None, None)
    case SetConnection(_, hub, swarm) => Holding(None, hub, swarm)
    case Connect(_, hub, _, _) => Holding(None, Some(hub), None)
    case _ => NOTHING
  }

  /** The step offers something for a room that the session is not active in, or a hub that came too late or without a swarm. */
  predicate TooLate(s: Session, step: Step) {
    match step
    case SetStream(room, _) => !IsActive(s, room)
    case SetConnection(room, _, _) => !IsActive(s, room)
    case Connect(room, _, current, arrival) => !IsActive(s, room) || !current || arrival.NoSwarm?
    case _ => false
  }

  lemma OfferTimes(held: Holding, act: Act)
    ensures Times(StopOf(held.stream) + (HubOf(held.hub) + SwarmOf(held.swarm)), act) ==
            (if Closable(held.stream) && act == StopStream(held.stream.value) then 1 else 0)
            + (if Closable(held.hub) && act == CloseHub(held.hub.value) then 1 else 0)
            + (if Closable(held.swarm) && act == CloseSwarm(held.swarm.value) then 1 else 0)
  {
    TimesAppend(StopOf(held.stream), HubOf(held.hub) + SwarmOf(held.swarm), act);
    TimesAppend(HubOf(held.hub), SwarmOf(held.swarm), act);
    PartTimes(Capture(held.stream, held.hub, None, false), act);
    if Closable(held.swarm) {
      TimesOne(CloseSwarm(held.swarm.value), act);
    }
  }

  lemma OfferReleases(offer: Holding)
    ensures Releases(StopOf(offer.stream) + (HubOf(offer.hub) + SwarmOf(offer.swarm)), Capture(offer.stream, offer.hub, offer.swarm, false), 1)
  {
    forall h ensures ReleasesHandle(StopOf(offer.stream) + (HubOf(offer.hub) + SwarmOf(offer.swarm)),
                                    Capture(offer.stream, offer.hub, offer.swarm, false), 1, h) {
      OfferTimes(offer, StopStream(h));
      OfferTimes(offer, CloseSwarm(h));
      OfferTimes(offer, CloseHub(h));
    }
  }

  lemma TooLateStep(s: Session, step: Step)
    requires Enabled(s, step) && TooLate(s, step)
    ensures var offer := Offered(step);
            Post(s, step) == s.(effects := s.effects + Refusals(StopOf(offer.stream) + (HubOf(offer.hub) + SwarmOf(offer.swarm))))
  {
    var offer := Offered(step);
    assert StopOf(offer.stream) + [] == StopOf(offer.stream);
    assert HubOf(offer.hub) + [] == HubOf(offer.hub);
    assert [] + (HubOf(offer.hub) + SwarmOf(offer.swarm)) == HubOf(offer.hub) + SwarmOf(offer.swarm);
  }

  /** What is offered too late is released at once, each part once, and nothing else changes. */
  lemma TooLateIsReleased(steps: seq<Step>, step: Step)
    requires IsRun(steps) && TooLate(After(steps), step)
    ensures IsRun(steps + [step])
    ensures var (s, next, offer) := (After(steps), After(steps + [step]), Offered(step));
            && next == s.(effects := next.effects) && s.effects <= next.effects
            && Releases(Refused(next.effects[|s.effects|..]), Capture(offer.stream, offer.hub, offer.swarm, false), 1)
  {
    RunNext(steps, step);
    var (s, offer) := (After(steps), Offered(step));
    var acts := StopOf(offer.stream) + (HubOf(offer.hub) + SwarmOf(offer.swarm));
    TooLateStep(s, step);
    assert (s.effects + Refusals(acts))[|s.effects|..] == Refusals(acts);
    RefusedRead(acts);
    OfferReleases(offer);
  }

  /** What is offered in time is taken, and the session says so unless the swarm breaks at once, when the hub is closed under it. */
  lemma InTimeIsHeld(steps: seq<Step>, step: Step)
    requires IsRun(steps) && (step.SetStream? || step.SetConnection? || step.Connect?) && !TooLate(After(steps), step)
    ensures IsRun(steps + [step])
    ensures var (s, next) := (After(steps), After(steps + [step]));
            && Held(steps + [step]) == Holding(next.stream, next.hub, next.swarm)
            && next == s.(stream := next.stream, hub := next.hub, swarm := next.swarm, effects := next.effects)
            && next.effects == s.effects + (if step.Connect? && step.arrival.broken && step.arrived.closable then [Refusal(CloseHub(step.arrived))] else [])
  {
    RunNext(steps, step);
    HoldsWhatItWasGiven(steps + [step]);
    if step.Connect? && step.arrival.broken && step.arrived.closable {
      assert Refusals([CloseHub(step.arrived)]) == [Refusal(CloseHub(step.arrived))];
    }
  }

  /** The answers of the three operations. */
  lemma Answers(s: Session, room: string, given: Option<Handle>, other: Option<Handle>, hub: Handle, current: bool, arrival: Arrival)
    ensures StreamSet(s, room, given).1 <==> s.mode == Active && s.room == room
    ensures ConnectionSet(s, room, given, other).1 <==> s.mode == Active && s.room == room
    ensures Connected(s, room, hub, current, arrival).1 <==>
              s.mode == Active && s.room == room && current && arrival.Ready? && !arrival.broken
  {
  }
}
