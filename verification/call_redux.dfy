/** The store slices that describe a call, as the reducers update them. Null is the empty string. */
module CallRedux {
  import opened CallSessions

  datatype Action =
    | MakeVideoCall(peerId: string, callId: string)
    | ReceiveVideoCall(peerId: string, callId: string, signalSessionId: string)
    | SignalSessionReady(signalSessionId: string)
    | SessionTransition(phase: Phase)
    | PeerAccepted
    | AcceptCall
    | OutgoingCallDeclined
    | RejectCall
    | EndCall
    | PeerLost

  datatype Redux = Redux(
    modalVisible: bool, callIncoming: bool, callOutgoing: bool, callAccepted: bool, peerAccepted: bool,
    callPeerId: string, activeCallId: string, activeSignalSessionId: string,
    callSessionState: Phase, outgoingCallDeclined: bool)

  const INITIAL := Redux(false, false, false, false, false, "", "", "", Idle, false)

  predicate Ends(a: Action) {
    a.RejectCall? || a.EndCall?
  }

  predicate Begins(a: Action) {
    a.MakeVideoCall? || a.ReceiveVideoCall?
  }

  function ModalVisible(state: bool, a: Action): bool {
    if Begins(a) then true else if Ends(a) then false else state
  }

  function CallIncoming(state: bool, a: Action): bool {
    if a.ReceiveVideoCall? then true else if Ends(a) then false else state
  }

  function CallOutgoing(state: bool, a: Action): bool {
    if a.MakeVideoCall? then true else if Ends(a) then false else state
  }

  function CallAccepted(state: bool, a: Action): bool {
    if a.MakeVideoCall? || a.AcceptCall? then true else if Ends(a) then false else state
  }

  function PeerHasAccepted(state: bool, a: Action): bool {
    if a.PeerAccepted? then true
    else if a.MakeVideoCall? || a.OutgoingCallDeclined? || Ends(a) then false
    else state
  }

  function CallPeerId(state: string, a: Action): string {
    if Begins(a) then a.peerId else if Ends(a) then "" else state
  }

  function ActiveCallId(state: string, a: Action): string {
    if Begins(a) then a.callId else if a.OutgoingCallDeclined? || Ends(a) then "" else state
  }

  function ActiveSignalSessionId(state: string, a: Action): string {
    match a
    case SignalSessionReady(id) => id
    case MakeVideoCall(_, _) => ""
    case ReceiveVideoCall(_, _, id) => id
    case _ => if a.OutgoingCallDeclined? || Ends(a) then "" else state
  }

  function CallSessionState(state: Phase, a: Action): Phase {
    if Begins(a) then Ringing
    else if a.SessionTransition? then a.phase
    else if a.OutgoingCallDeclined? || Ends(a) then Idle
    else state
  }

  function Declined(state: bool, a: Action): bool {
    if a.OutgoingCallDeclined? then true else if a.MakeVideoCall? || Ends(a) then false else state
  }

  function Reduce(r: Redux, a: Action): Redux {
    Redux(ModalVisible(r.modalVisible, a), CallIncoming(r.callIncoming, a), CallOutgoing(r.callOutgoing, a),
          CallAccepted(r.callAccepted, a), PeerHasAccepted(r.peerAccepted, a),
          CallPeerId(r.callPeerId, a), ActiveCallId(r.activeCallId, a), ActiveSignalSessionId(r.activeSignalSessionId, a),
          CallSessionState(r.callSessionState, a), Declined(r.outgoingCallDeclined, a))
  }
}
