/** The call thunks as the object they share: the call session, the store and the two listeners. */
module CallClients {
  import opened Outcomes
  import opened CallSessions
  import opened CallRedux
  import opened CallFlow

  class CallClient {
    const me: string
    const session: CallSession
    var store: Redux
    var decline: Option<Listener>
    var cancel: Option<Listener>
    var accepts: set<Listener>
    var hubs: nat
    var swarms: nat
    var closed: set<nat>
    var deliveries: map<string, Delivery>
    var placed: map<string, string>

    function Value(): World
      reads this, session
    {
      World(me, session.Value(), store, decline, cancel, accepts, hubs, swarms, closed, deliveries, placed)
    }

    constructor (user: string)
      ensures Value() == Fresh(user) && fresh(session)
    {
      me := user;
      session := new CallSession();
      store := INITIAL;
      decline, cancel, accepts := None, None, {};
      hubs, swarms, closed, deliveries, placed := 0, 0, {}, map[], map[];
    }

    method Send(a: Action)
      modifies this`store
      ensures Value() == Dispatch(old(Value()), a)
    {
      store := Reduce(store, a);
    }

    method OpenHub() returns (hub: nat)
      modifies this`hubs, session
      ensures Value() == HubTracked(old(Value())) && hub == old(hubs)
    {
      hub := hubs;
      hubs := hubs + 1;
      session.TrackHub(hub);
    }

    method OpenSwarm()
      modifies this`swarms, session
      ensures Value() == SwarmTracked(old(Value()))
    {
      session.TrackSwarm(swarms);
      swarms := swarms + 1;
    }

    method CloseHubs()
      modifies this`closed, session
      ensures Value() == HubsClosed(old(Value()))
    {
      var taken := session.TakeHubs();
      var i := 0;
      while i < |taken|
        invariant 0 <= i <= |taken|
        invariant closed == old(closed) + set k | 0 <= k < i :: taken[k]
        invariant Value() == old(Value()).(closed := closed, call := old(Value()).call.(hubs := []))
      {
        closed := closed + {taken[i]};
        i := i + 1;
      }
      assert (set h | h in taken) == set k | 0 <= k < |taken| :: taken[k];
    }

    /** releaseCallResources while closing the swarms reports nothing. */
    method ReleaseQuietly(callId: string)
      modifies this`closed, session
      ensures Value() == QuietRelease(old(Value()), callId)
    {
      var ending := session.BeginEnd(callId);
      var _ := session.TakeSwarms();
      CloseHubs();
      if ending {
        session.FinishEnd();
      }
    }

    method TellCallee()
      modifies this`hubs, session
      ensures Value() == CancelSent(old(Value()))
    {
      if store.callOutgoing && !store.peerAccepted && store.callPeerId != "" {
        if store.activeSignalSessionId != "" && store.activeCallId != "" {
          var _ := OpenHub();
        }
      }
    }

    method Silence()
      modifies this`decline, this`cancel
      ensures Value() == Silenced(old(Value()))
    {
      decline := None;
      cancel := None;
    }

    /** endCall, called from inside a release. */
    method EndQuietly()
      modifies this, session
      ensures Value() == QuietEnd(old(Value()))
    {
      var active := store.activeCallId;
      TellCallee();
      Silence();
      ReleaseQuietly(active);
      Send(EndCall);
    }

    /** releaseCallResources; a swarm that is closed may report its peer as lost. */
    method Release(callId: string, lost: bool)
      modifies this, session
      ensures Value() == Released(old(Value()), callId, lost)
    {
      var ending := session.BeginEnd(callId);
      var _ := session.TakeSwarms();
      if lost {
        Send(PeerLost);
        EndQuietly();
      }
      CloseHubs();
      if ending {
        session.FinishEnd();
      }
    }

    /** endCall. */
    method End(lost: bool)
      modifies this, session
      ensures Value() == Ended(old(Value()), lost)
    {
      var active := store.activeCallId;
      TellCallee();
      Silence();
      Release(active, lost);
      Send(EndCall);
    }

    method Reject(lost: bool)
      modifies this, session
      ensures Value() == Rejected(old(Value()), lost)
    {
      cancel := None;
      var active := store.activeCallId;
      if store.callIncoming && store.callPeerId != "" && store.activeSignalSessionId != "" && store.activeCallId != "" {
        var _ := OpenHub();
      }
      decline := None;
      Release(active, lost);
      Send(RejectCall);
    }

    method MakeCall(peerId: string, callId: string)
      modifies this, session
      ensures Value() == Made(old(Value()), peerId, callId)
    {
      if peerId == me {
        return;
      }
      if store.callIncoming {
        return;
      }
      if store.callOutgoing {
        return;
      }
      placed := placed[callId := peerId];
      var ok := session.Start(callId, peerId);
      if !ok {
        return;
      }
      Send(MakeVideoCall(peerId, callId));
      deliveries := deliveries[callId := Waiting];
    }

    method ReceiveCall(peerId: string, callId: string, signalSessionId: string)
      modifies this, session
      ensures Value() == Received(old(Value()), peerId, callId, signalSessionId)
    {
      if peerId == me {
        return;
      }
      if store.callIncoming || store.callOutgoing {
        return;
      }
      if signalSessionId == "" || callId == "" {
        return;
      }
      var ok := session.Start(callId, peerId);
      if !ok {
        return;
      }
      Send(ReceiveVideoCall(peerId, callId, signalSessionId));
      var hub := OpenHub();
      cancel := Some(Listener(hub, callId));
    }

    /** onHub. */
    method UseHub(callId: string, hub: nat, signalSessionId: string)
      modifies this
      ensures Value() == HubUsed(old(Value()), callId, hub, signalSessionId)
    {
      if !store.callOutgoing || store.activeCallId != callId {
        closed := closed + {hub};
        deliveries := deliveries[callId := Failing];
        return;
      }
      Send(SignalSessionReady(signalSessionId));
      accepts := accepts + {Listener(hub, callId)};
      decline := Some(Listener(hub, callId));
      deliveries := deliveries[callId := Sending(hub)];
    }

    /** What makeVideoCall does when the delivery has failed. */
    method GiveUp(callId: string, lost: bool)
      modifies this, session
      ensures Value() == DeliveryFailed(old(Value()), callId, lost)
    {
      deliveries := deliveries - {callId};
      if store.callOutgoing && store.activeCallId == callId {
        var _ := session.Fail(callId);
        Send(SessionTransition(Failed));
        Release(callId, lost);
        Send(EndCall);
      }
    }

    method OnAccepted(callId: string, acceptedUserId: string)
      modifies this, session
      ensures Value() == AnswerHeard(old(Value()), callId, acceptedUserId)
    {
      if acceptedUserId != me {
        return;
      }
      if store.peerAccepted {
        return;
      }
      var ok := session.BeginConnecting(callId);
      if !ok {
        return;
      }
      Send(SessionTransition(Connecting));
      OpenSwarm();
      Send(PeerAccepted);
      decline := None;
    }

    method OnDeclined(callId: string, lost: bool)
      modifies this, session
      ensures Value() == DeclineHeard(old(Value()), callId, lost)
    {
      decline := None;
      Release(callId, lost);
      Send(OutgoingCallDeclined);
    }

    method OnPeer(callId: string)
      modifies this, session
      ensures Value() == PeerFound(old(Value()), callId)
    {
      var ok := session.MarkConnected(callId);
      if ok {
        Send(SessionTransition(Connected));
      }
    }

    method Accept()
      modifies this, session
      ensures Value() == Accepted(old(Value()))
    {
      cancel := None;
      if store.activeSignalSessionId == "" || store.activeCallId == "" {
        Send(EndCall);
        return;
      }
      var ok := session.BeginConnecting(store.activeCallId);
      if !ok {
        Send(EndCall);
        return;
      }
      Send(SessionTransition(Connecting));
      var _ := OpenHub();
      OpenSwarm();
      Send(AcceptCall);
    }
  }
}
