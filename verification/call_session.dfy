/** The one-to-one call of a browser tab. No call id is the empty string. */
module CallSessions {
  datatype Phase = Idle | Ringing | Connecting | Connected | Ending | Failed

  datatype Call = Call(phase: Phase, callId: string, peerId: string, hubs: seq<nat>, swarms: seq<nat>)

  const NO_CALL := Call(Idle, "", "", [], [])

  function Started(s: Call, callId: string, peerId: string): (Call, bool) {
    if callId == "" || peerId == "" || s.phase != Idle then
      (s, false)
    else
      (s.(callId := callId, peerId := peerId, phase := Ringing), true)
  }

  /** Whether `callId` names the call, and the call is neither over nor ending. */
  predicate Live(s: Call, callId: string) {
    callId == s.callId && s.phase != Idle && s.phase != Ending
  }

  function Moved(s: Call, callId: string, phase: Phase): (Call, bool) {
    if Live(s, callId) then (s.(phase := phase), true) else (s, false)
  }

  function PeerConnected(s: Call, callId: string): (Call, bool) {
    if s.phase != Connecting then (s, false) else Moved(s, callId, Connected)
  }

  /** `end` up to the release, and after it; the release in between calls swarms and hubs, which may call back. */
  function EndBegun(s: Call, callId: string): (Call, bool) {
    Moved(s, callId, Ending)
  }

  function EndFinished(s: Call): Call {
    s.(phase := Idle, callId := "", peerId := "")
  }

  class CallSession {
    var phase: Phase
    var callId: string
    var peerId: string
    var hubs: seq<nat>
    var swarms: seq<nat>

    function Value(): Call
      reads this
    {
      Call(phase, callId, peerId, hubs, swarms)
    }

    constructor ()
      ensures Value() == NO_CALL
    {
      phase, callId, peerId, hubs, swarms := Idle, "", "", [], [];
    }

    method Start(id: string, peer: string) returns (ok: bool)
      modifies this
      ensures (Value(), ok) == Started(old(Value()), id, peer)
    {
      if id == "" || peer == "" || phase != Idle {
        return false;
      }
      callId := id;
      peerId := peer;
      phase := Ringing;
      return true;
    }

    method Transition(id: string, to: Phase) returns (ok: bool)
      modifies this
      ensures (Value(), ok) == Moved(old(Value()), id, to)
    {
      if id != callId || phase == Idle || phase == Ending {
        return false;
      }
      phase := to;
      return true;
    }

    method BeginConnecting(id: string) returns (ok: bool)
      modifies this
      ensures (Value(), ok) == Moved(old(Value()), id, Connecting)
    {
      ok := Transition(id, Connecting);
    }

    method MarkConnected(id: string) returns (ok: bool)
      modifies this
      ensures (Value(), ok) == PeerConnected(old(Value()), id)
    {
      if phase != Connecting {
        return false;
      }
      ok := Transition(id, Connected);
    }

    method Fail(id: string) returns (ok: bool)
      modifies this
      ensures (Value(), ok) == Moved(old(Value()), id, Failed)
    {
      ok := Transition(id, Failed);
    }

    method TrackHub(hub: nat)
      modifies this
      ensures Value() == old(Value()).(hubs := old(hubs) + [hub])
    {
      hubs := hubs + [hub];
    }

    method TrackSwarm(swarm: nat)
      modifies this
      ensures Value() == old(Value()).(swarms := old(swarms) + [swarm])
    {
      swarms := swarms + [swarm];
    }

    method BeginEnd(id: string) returns (ok: bool)
      modifies this
      ensures (Value(), ok) == EndBegun(old(Value()), id)
    {
      if id != callId || phase == Idle || phase == Ending {
        return false;
      }
      phase := Ending;
      return true;
    }

    /** The swarms to close, taken off the list before the first is closed. */
    method TakeSwarms() returns (taken: seq<nat>)
      modifies this
      ensures taken == old(swarms) && Value() == old(Value()).(swarms := [])
    {
      taken, swarms := swarms, [];
    }

    method TakeHubs() returns (taken: seq<nat>)
      modifies this
      ensures taken == old(hubs) && Value() == old(Value()).(hubs := [])
    {
      taken, hubs := hubs, [];
    }

    method FinishEnd()
      modifies this
      ensures Value() == EndFinished(old(Value()))
    {
      phase := Idle;
      callId := "";
      peerId := "";
    }
  }
}
