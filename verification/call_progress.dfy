/** What each event of a call achieves: when a call begins, connects and ends, in every run, and that nothing else does. */
module CallProgress {
  import opened Outcomes
  import opened CallSessions
  import opened CallRedux
  import opened CallFlow

  /** A call shown in one direction, in a phase, by the session and the store alike. */
  predicate InCall(w: World, incoming: bool, peerId: string, callId: string, phase: Phase) {
    && w.store.modalVisible && w.store.callIncoming == incoming && w.store.callOutgoing == !incoming
    && w.store.callPeerId == peerId && w.store.activeCallId == callId && w.store.callSessionState == phase
    && (!incoming ==> !w.store.outgoingCallDeclined)
    && w.call.phase == phase && w.call.callId == callId
  }

  /** Placing a call to somebody else while none is shown starts it ringing, with its delivery under way; otherwise nothing happens. */
  lemma PlacesExactly(me: string, events: seq<Event>, peerId: string, callId: string)
    requires IsRun(me, events) && Enabled(After(me, events), Place(peerId, callId))
    ensures IsRun(me, events + [Place(peerId, callId)])
    ensures var (w, next) := (After(me, events), After(me, events + [Place(peerId, callId)]));
            if peerId == me || w.store.modalVisible then next == w
            else
              && InCall(next, false, peerId, callId, Ringing) && next.call.peerId == peerId && !next.store.peerAccepted
              && next.deliveries == w.deliveries[callId := Waiting] && next.placed == w.placed[callId := peerId]
  {
    RunKeepsInv(me, events);
    RunGrows(me, events, Place(peerId, callId));
  }

  /** A declined call is shown until it is put away. */
  lemma DeclinedIsShown(w: World)
    requires Inv(w) && !w.store.modalVisible
    ensures !w.store.callIncoming && !w.store.callOutgoing && w.call.phase == Idle
  {
  }

  lemma RingStep(w: World, peerId: string, callId: string, signalSessionId: string)
    requires Inv(w) && peerId != w.me && !w.store.modalVisible && callId != "" && signalSessionId != "" && peerId != ""
    ensures var next := Received(w, peerId, callId, signalSessionId);
            && next.store == Reduce(w.store, ReceiveVideoCall(peerId, callId, signalSessionId))
            && next.call == w.call.(phase := Ringing, callId := callId, peerId := peerId, hubs := w.call.hubs + [w.hubs])
            && next.cancel == Some(Listener(w.hubs, callId))
  {
  }

  /** An invitation from somebody else, with its session and call ids, rings exactly when no call is shown, and can be cancelled by its caller. */
  lemma RingsExactly(me: string, events: seq<Event>, peerId: string, callId: string, signalSessionId: string)
    requires IsRun(me, events) && Enabled(After(me, events), Ring(peerId, callId, signalSessionId))
    ensures IsRun(me, events + [Ring(peerId, callId, signalSessionId)])
    ensures var (w, next) := (After(me, events), After(me, events + [Ring(peerId, callId, signalSessionId)]));
            if peerId == me || w.store.modalVisible || callId == "" || signalSessionId == "" then next == w
            else
              && InCall(next, true, peerId, callId, Ringing) && next.call.peerId == peerId
              && next.store.activeSignalSessionId == signalSessionId
              && next.cancel == Some(Listener(w.hubs, callId)) && w.hubs in next.call.hubs
  {
    RunKeepsInv(me, events);
    RunGrows(me, events, Ring(peerId, callId, signalSessionId));
    var w := After(me, events);
    if !(peerId == me || w.store.modalVisible || callId == "" || signalSessionId == "") {
      RingStep(w, peerId, callId, signalSessionId);
      DeclinedIsShown(w);
    }
  }

  /** Accepting an incoming call always starts it connecting, with one more swarm, and its caller can no longer cancel it. */
  lemma AcceptingConnects(me: string, events: seq<Event>)
    requires IsRun(me, events) && After(me, events).store.callIncoming
    ensures IsRun(me, events + [ClickAccept])
    ensures var (w, next) := (After(me, events), After(me, events + [ClickAccept]));
            && next.call.phase == Connecting && next.store.callSessionState == Connecting
            && next.call.callId == w.call.callId && next.store.callIncoming && next.store.callAccepted
            && next.store.activeSignalSessionId == w.store.activeSignalSessionId != ""
            && |next.call.swarms| == |w.call.swarms| + 1 && next.cancel.None?
  {
    RunKeepsInv(me, events);
    RunGrows(me, events, ClickAccept);
  }

  /** A peer connects exactly the call it was found for, while that is connecting. */
  lemma PeerConnectsExactly(me: string, events: seq<Event>, callId: string)
    requires IsRun(me, events)
    ensures IsRun(me, events + [Peer(callId)])
    ensures var (w, next) := (After(me, events), After(me, events + [Peer(callId)]));
            if w.call.phase == Connecting && callId == w.call.callId
            then next == w.(call := w.call.(phase := Connected), store := next.store) && next.store == w.store.(callSessionState := Connected)
            else next == w
  {
    RunKeepsInv(me, events);
    RunGrows(me, events, Peer(callId));
  }

  lemma ReadyEvents(w: World, callId: string, signalSessionId: string)
    requires Inv(w) && callId in w.deliveries && w.deliveries[callId] == Waiting && Outgoing(w, callId) && signalSessionId != ""
    ensures Enabled(w, HubReady(callId)) && Enabled(Post(w, HubReady(callId)), UseHub(callId, signalSessionId))
    ensures Enabled(Post(Post(w, HubReady(callId)), UseHub(callId, signalSessionId)), InviteSent(callId))
    ensures var n := Post(Post(Post(w, HubReady(callId)), UseHub(callId, signalSessionId)), InviteSent(callId));
            && n.store == w.store.(activeSignalSessionId := signalSessionId)
            && n.call == w.call.(hubs := w.call.hubs + [w.hubs])
            && Listener(w.hubs, callId) in n.accepts && n.decline == Some(Listener(w.hubs, callId))
            && callId !in n.deliveries && n.closed == w.closed
  {
  }

  /** While a placed call is still ringing, its hub is opened and tracked, both answers are listened for on it, and the invitation goes out. */
  lemma DeliveryListens(me: string, events: seq<Event>, callId: string, signalSessionId: string)
    requires IsRun(me, events) && signalSessionId != ""
    requires var w := After(me, events); callId in w.deliveries && w.deliveries[callId] == Waiting && Outgoing(w, callId)
    ensures IsRun(me, events + [HubReady(callId)] + [UseHub(callId, signalSessionId)] + [InviteSent(callId)])
    ensures var w := After(me, events);
            var n := After(me, events + [HubReady(callId)] + [UseHub(callId, signalSessionId)] + [InviteSent(callId)]);
            && n.store == w.store.(activeSignalSessionId := signalSessionId)
            && n.call == w.call.(hubs := w.call.hubs + [w.hubs])
            && Listener(w.hubs, callId) in n.accepts && n.decline == Some(Listener(w.hubs, callId))
            && callId !in n.deliveries && n.closed == w.closed
  {
    RunKeepsInv(me, events);
    ReadyEvents(After(me, events), callId, signalSessionId);
    RunGrows(me, events, HubReady(callId));
    RunGrows(me, events + [HubReady(callId)], UseHub(callId, signalSessionId));
    RunGrows(me, events + [HubReady(callId)] + [UseHub(callId, signalSessionId)], InviteSent(callId));
  }

  /** A call that is over by the time its hub arrives has that hub closed, and is given up without a trace. */
  lemma LateHubIsClosed(me: string, events: seq<Event>, callId: string, signalSessionId: string)
    requires IsRun(me, events) && Enabled(After(me, events), UseHub(callId, signalSessionId)) && !Outgoing(After(me, events), callId)
    ensures IsRun(me, events + [UseHub(callId, signalSessionId)])
    ensures var (w, next) := (After(me, events), After(me, events + [UseHub(callId, signalSessionId)]));
            && next == w.(closed := w.closed + {w.deliveries[callId].hub}, deliveries := w.deliveries[callId := Failing])
    ensures forall lost :: Post(After(me, events + [UseHub(callId, signalSessionId)]), GiveUp(callId, lost)).store == After(me, events).store
                           && Post(After(me, events + [UseHub(callId, signalSessionId)]), GiveUp(callId, lost)).call == After(me, events).call
  {
    RunGrows(me, events, UseHub(callId, signalSessionId));
  }

  /** The events that end the current call. */
  predicate Hangs(w: World, e: Event) {
    match e
    case ClickEnd(_) => true
    case ClickReject(_) => true
    case Cancel(_) => true
    case Disconnect(_) => true
    case Decline(_) => true
    case GiveUp(callId, _) => Outgoing(w, callId)
    case _ => false
  }

  /** No session, nothing tracked, every hub tracked before closed, and no listener that could still be heard. */
  ghost predicate Over(w: World, next: World) {
    && next.call.phase == Idle && next.call.callId == "" && next.call.hubs == [] && next.call.swarms == []
    && next.store.callSessionState == Idle && next.store.activeCallId == "" && next.store.activeSignalSessionId == ""
    && (forall h :: h in w.call.hubs ==> h in next.closed)
    && !Hears(next, next.decline) && next.cancel.None?
  }

  predicate Hidden(r: Redux) {
    !r.modalVisible && !r.callIncoming && !r.callOutgoing
  }

  /**
   Whatever ends a call leaves no session, nothing tracked, every hub tracked before closed and no listener that could
   still be heard; the dialog goes away, but for an outgoing call that was declined, which it goes on showing as such.
   */
  lemma EveryEndReleasesAll(me: string, events: seq<Event>, e: Event)
    requires IsRun(me, events) && Enabled(After(me, events), e) && Hangs(After(me, events), e)
    ensures IsRun(me, events + [e])
    ensures Over(After(me, events), After(me, events + [e]))
    ensures var (w, next) := (After(me, events), After(me, events + [e]));
            if e.Decline? && !e.lost then next.store.callOutgoing && next.store.outgoingCallDeclined && next.store.callPeerId == w.store.callPeerId
            else Hidden(next.store)
  {
    var w := After(me, events);
    RunKeepsInv(me, events);
    RunGrows(me, events, e);
    EndingReleases(w, e);
  }

  lemma EndingReleases(w: World, e: Event)
    requires Inv(w) && Enabled(w, e) && Hangs(w, e)
    ensures Over(w, Post(w, e))
    ensures if e.Decline? && !e.lost then Post(w, e).store.callOutgoing && Post(w, e).store.outgoingCallDeclined && Post(w, e).store.callPeerId == w.store.callPeerId
            else Hidden(Post(w, e).store)
  {
    if e.ClickReject? {
      RejectReleases(w, e.lost);
    } else if e.Decline? {
      DeclineReleases(w, e.lost);
    } else if e.GiveUp? {
      GiveUpReleases(w, e.callId, e.lost);
    } else if e.Disconnect? {
      EndReleases(Dispatch(w, PeerLost), e.lost);
    } else {
      EndReleases(w, e.lost);
    }
  }

  lemma EndReleases(w: World, lost: bool)
    requires Mirrors(w)
    ensures Over(w, Ended(w, lost)) && Hidden(Ended(w, lost).store)
  {
    var told := Silenced(CancelSent(w));
    assert forall h :: h in w.call.hubs ==> h in told.call.hubs;
    ReleaseEnds(told, w.store.activeCallId, lost);
  }

  lemma RejectReleases(w: World, lost: bool)
    requires Mirrors(w)
    ensures Over(w, Rejected(w, lost)) && Hidden(Rejected(w, lost).store)
  {
    var told := if w.store.callIncoming && w.store.callPeerId != "" && w.store.activeSignalSessionId != "" && w.store.activeCallId != ""
                then HubTracked(w.(cancel := None)) else w.(cancel := None);
    assert forall h :: h in w.call.hubs ==> h in told.call.hubs;
    ReleaseEnds(told.(decline := None), w.store.activeCallId, lost);
  }

  lemma DeclineReleases(w: World, lost: bool)
    requires Inv(w) && Hears(w, w.decline)
    ensures Over(w, DeclineHeard(w, w.decline.value.callId, lost))
    ensures var r := DeclineHeard(w, w.decline.value.callId, lost).store;
            if lost then Hidden(r) else r.callOutgoing && r.outgoingCallDeclined && r.callPeerId == w.store.callPeerId
  {
    ReleaseEnds(w.(decline := None), w.decline.value.callId, lost);
  }

  lemma GiveUpReleases(w: World, callId: string, lost: bool)
    requires Inv(w) && callId in w.deliveries && Outgoing(w, callId)
    ensures Over(w, DeliveryFailed(w, callId, lost)) && Hidden(DeliveryFailed(w, callId, lost).store)
  {
    var done := Delivered(w, callId, None);
    var failed := Dispatch(done.(call := Moved(w.call, callId, Failed).0), SessionTransition(Failed));
    ReleaseEnds(failed, callId, lost);
  }

  /** Ending a placed call that nobody has answered opens one more hub, on which the callee is told, exactly when its session is ready. */
  lemma EndTellsCallee(me: string, events: seq<Event>)
    requires IsRun(me, events)
    ensures IsRun(me, events + [ClickEnd(false)])
    ensures var (w, next) := (After(me, events), After(me, events + [ClickEnd(false)]));
            next.hubs == w.hubs + if w.store.callOutgoing && !w.store.peerAccepted && w.store.callPeerId != "" && w.store.activeSignalSessionId != ""
                                     && w.call.phase != Idle then 1 else 0
  {
    RunKeepsInv(me, events);
    RunGrows(me, events, ClickEnd(false));
  }

  /** Rejecting an incoming call opens one more hub, on which its caller is told. */
  lemma RejectTellsCaller(me: string, events: seq<Event>)
    requires IsRun(me, events) && After(me, events).store.callIncoming && After(me, events).store.callPeerId != ""
    ensures IsRun(me, events + [ClickReject(false)])
    ensures After(me, events + [ClickReject(false)]).hubs == After(me, events).hubs + 1
  {
    RunKeepsInv(me, events);
    RunGrows(me, events, ClickReject(false));
  }
}
