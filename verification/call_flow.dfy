/**
 The call thunks over the one call session and the store, each event run to its end. A swarm that is closed may
 report its peer as lost within the call, which ends the call from inside the release.
 */
module CallFlow {
  import opened Outcomes
  import opened CallSessions
  import opened CallRedux

  /** A subscription on a hub for one call. It is silent once the hub is closed. */
  datatype Listener = Listener(hub: nat, callId: string)

  /** How far the delivery of an outgoing call's invitation has come. */
  datatype Delivery =
    | Waiting
    | Arrived(hub: nat)
    | Sending(hub: nat)
    | Failing

  /**
   `me` is the user of this browser. `hubs` numbers the hubs opened so far, `swarms` the swarms; `placed` maps each
   call id generated here to the user called.
   */
  datatype World = World(
    me: string, call: Call, store: Redux, decline: Option<Listener>, cancel: Option<Listener>, accepts: set<Listener>,
    hubs: nat, swarms: nat, closed: set<nat>, deliveries: map<string, Delivery>, placed: map<string, string>)

  function Fresh(me: string): World {
    World(me, NO_CALL, INITIAL, None, None, {}, 0, 0, {}, map[], map[])
  }

  // ---------- the thunks, on values ----------

  function Dispatch(w: World, a: Action): World {
    w.(store := Reduce(w.store, a))
  }

  function HubTracked(w: World): World {
    w.(call := w.call.(hubs := w.call.hubs + [w.hubs]), hubs := w.hubs + 1)
  }

  function SwarmTracked(w: World): World {
    w.(call := w.call.(swarms := w.call.swarms + [w.swarms]), swarms := w.swarms + 1)
  }

  function HubsClosed(w: World): World {
    w.(closed := w.closed + (set h | h in w.call.hubs), call := w.call.(hubs := []))
  }

  /** releaseCallResources when no swarm reports a lost peer. */
  function QuietRelease(w: World, callId: string): World {
    var (call, ending) := EndBegun(w.call, callId);
    var released := HubsClosed(w.(call := call.(swarms := [])));
    if ending then released.(call := EndFinished(released.call)) else released
  }

  /** The hub endCall opens to tell a callee who is still being rung. */
  function CancelSent(w: World): World {
    if w.store.callOutgoing && !w.store.peerAccepted && w.store.callPeerId != ""
       && w.store.activeSignalSessionId != "" && w.store.activeCallId != ""
    then HubTracked(w)
    else w
  }

  function Silenced(w: World): World {
    w.(decline := None, cancel := None)
  }

  function QuietEnd(w: World): World {
    Dispatch(QuietRelease(Silenced(CancelSent(w)), w.store.activeCallId), EndCall)
  }

  /** releaseCallResources; `lost` is whether a swarm reports a lost peer while it is closed. */
  function Released(w: World, callId: string, lost: bool): World {
    var (call, ending) := EndBegun(w.call, callId);
    var closing := w.(call := call.(swarms := []));
    var after := HubsClosed(if lost then QuietEnd(Dispatch(closing, PeerLost)) else closing);
    if ending then after.(call := EndFinished(after.call)) else after
  }

  function Ended(w: World, lost: bool): World {
    Dispatch(Released(Silenced(CancelSent(w)), w.store.activeCallId, lost), EndCall)
  }

  function Rejected(w: World, lost: bool): World {
    var told := if w.store.callIncoming && w.store.callPeerId != "" && w.store.activeSignalSessionId != "" && w.store.activeCallId != ""
                then HubTracked(w.(cancel := None)) else w.(cancel := None);
    Dispatch(Released(told.(decline := None), w.store.activeCallId, lost), RejectCall)
  }

  function Made(w: World, peerId: string, callId: string): World {
    if peerId == w.me || w.store.callIncoming || w.store.callOutgoing then
      w
    else
      var (call, ok) := Started(w.call, callId, peerId);
      var placed := w.(placed := w.placed[callId := peerId]);
      if !ok then placed
      else Dispatch(placed.(call := call, deliveries := w.deliveries[callId := Waiting]), MakeVideoCall(peerId, callId))
  }

  function Received(w: World, peerId: string, callId: string, signalSessionId: string): World {
    if peerId == w.me || w.store.callIncoming || w.store.callOutgoing || signalSessionId == "" || callId == "" then
      w
    else
      var (call, ok) := Started(w.call, callId, peerId);
      if !ok then w
      else HubTracked(Dispatch(w.(call := call), ReceiveVideoCall(peerId, callId, signalSessionId))).(
             cancel := Some(Listener(w.hubs, callId)))
  }

  predicate Outgoing(w: World, callId: string) {
    w.store.callOutgoing && w.store.activeCallId == callId
  }

  function Delivered(w: World, callId: string, d: Option<Delivery>): World {
    w.(deliveries := if d.Some? then w.deliveries[callId := d.value] else w.deliveries - {callId})
  }

  function HubArrived(w: World, callId: string): World {
    Delivered(HubTracked(w), callId, Some(Arrived(w.hubs)))
  }

  /** onHub: the call must still be the one it was opened for. */
  function HubUsed(w: World, callId: string, hub: nat, signalSessionId: string): World {
    if !Outgoing(w, callId) then
      Delivered(w.(closed := w.closed + {hub}), callId, Some(Failing))
    else
      Delivered(Dispatch(w, SignalSessionReady(signalSessionId)).(
                  accepts := w.accepts + {Listener(hub, callId)}, decline := Some(Listener(hub, callId))),
                callId, Some(Sending(hub)))
  }

  function InviteFailed(w: World, callId: string, hub: nat): World {
    Delivered(w.(closed := w.closed + {hub}), callId, Some(Failing))
  }

  function DeliveryFailed(w: World, callId: string, lost: bool): World {
    var done := Delivered(w, callId, None);
    if !Outgoing(w, callId) then
      done
    else
      var failed := Dispatch(done.(call := Moved(w.call, callId, Failed).0), SessionTransition(Failed));
      Dispatch(Released(failed, callId, lost), EndCall)
  }

  /** An acceptance on the hub of `callId`; it is compared with the id of the listener's own user. */
  function AnswerHeard(w: World, callId: string, acceptedUserId: string): World {
    if acceptedUserId != w.me || w.store.peerAccepted then
      w
    else
      var (call, ok) := Moved(w.call, callId, Connecting);
      if !ok then w
      else Dispatch(SwarmTracked(Dispatch(w.(call := call), SessionTransition(Connecting))), PeerAccepted).(decline := None)
  }

  function DeclineHeard(w: World, callId: string, lost: bool): World {
    Dispatch(Released(w.(decline := None), callId, lost), OutgoingCallDeclined)
  }

  function PeerFound(w: World, callId: string): World {
    var (call, ok) := PeerConnected(w.call, callId);
    if ok then Dispatch(w.(call := call), SessionTransition(Connected)) else w
  }

  function Accepted(w: World): World {
    var quiet := w.(cancel := None);
    if w.store.activeSignalSessionId == "" || w.store.activeCallId == "" then
      Dispatch(quiet, EndCall)
    else
      var (call, ok) := Moved(w.call, w.store.activeCallId, Connecting);
      if !ok then Dispatch(quiet, EndCall)
      else Dispatch(SwarmTracked(HubTracked(Dispatch(quiet.(call := call), SessionTransition(Connecting)))), AcceptCall)
  }

  // ---------- events ----------

  datatype Event =
    | Place(peerId: string, callId: string)
    | Ring(peerId: string, callId: string, signalSessionId: string)
    | HubReady(callId: string)
    | HubRefused(callId: string)
    | UseHub(callId: string, signalSessionId: string)
    | InviteSent(callId: string)
    | InviteRefused(callId: string)
    | GiveUp(callId: string, lost: bool)
    | Answer(listener: Listener, acceptedUserId: string)
    | Decline(lost: bool)
    | Cancel(lost: bool)
    | Peer(callId: string)
    | Disconnect(lost: bool)
    | ClickAccept
    | ClickReject(lost: bool)
    | ClickEnd(lost: bool)

  /** A listener that has not been destroyed, and whose hub is open. */
  predicate Hears(w: World, l: Option<Listener>) {
    l.Some? && l.value.hub !in w.closed
  }

  predicate Enabled(w: World, e: Event) {
    match e
    case Place(peerId, callId) => peerId != "" && callId != "" && callId !in w.placed
    case Ring(peerId, _, _) => peerId != ""
    case HubReady(callId) => callId in w.deliveries && w.deliveries[callId].Waiting?
    case HubRefused(callId) => callId in w.deliveries && w.deliveries[callId].Waiting?
    case UseHub(callId, signalSessionId) => signalSessionId != "" && callId in w.deliveries && w.deliveries[callId].Arrived?
    case InviteSent(callId) => callId in w.deliveries && w.deliveries[callId].Sending?
    case InviteRefused(callId) => callId in w.deliveries && w.deliveries[callId].Sending?
    case GiveUp(callId, _) => callId in w.deliveries && w.deliveries[callId].Failing?
    case Answer(l, _) => l in w.accepts && Hears(w, Some(l))
    case Decline(_) => Hears(w, w.decline)
    case Cancel(_) => Hears(w, w.cancel)
    case ClickAccept => w.store.callIncoming
    case _ => true
  }

  function Post(w: World, e: Event): World
    requires Enabled(w, e)
  {
    match e
    case Place(peerId, callId) => Made(w, peerId, callId)
    case Ring(peerId, callId, signalSessionId) => Received(w, peerId, callId, signalSessionId)
    case HubReady(callId) => HubArrived(w, callId)
    case HubRefused(callId) => Delivered(w, callId, Some(Failing))
    case UseHub(callId, signalSessionId) => HubUsed(w, callId, w.deliveries[callId].hub, signalSessionId)
    case InviteSent(callId) => Delivered(w, callId, None)
    case InviteRefused(callId) => InviteFailed(w, callId, w.deliveries[callId].hub)
    case GiveUp(callId, lost) => DeliveryFailed(w, callId, lost)
    case Answer(l, id) => AnswerHeard(w, l.callId, id)
    case Decline(lost) => DeclineHeard(w, w.decline.value.callId, lost)
    case Cancel(lost) => Ended(w, lost)
    case Peer(callId) => PeerFound(w, callId)
    case Disconnect(lost) => Ended(Dispatch(w, PeerLost), lost)
    case ClickAccept => Accepted(w)
    case ClickReject(lost) => Rejected(w, lost)
    case ClickEnd(lost) => Ended(w, lost)
  }

  // ---------- the invariant ----------

  /** The store shows the session's state and call id; between events the session is not half-way through anything. */
  predicate Mirrors(w: World) {
    && w.store.callSessionState == w.call.phase && w.store.activeCallId == w.call.callId
    && w.call.phase != Ending && w.call.phase != Failed
    && (w.call.phase == Idle <==> w.call.callId == "")
  }

  /** A call is incoming or outgoing, not both; only a declined one is shown without a session. */
  predicate OneCall(w: World) {
    var r := w.store;
    && !(r.callIncoming && r.callOutgoing)
    && (r.modalVisible <==> r.callIncoming || r.callOutgoing)
    && (r.callIncoming ==> w.call.phase != Idle && r.activeSignalSessionId != "")
    && (r.callOutgoing ==> (w.call.phase == Idle <==> r.outgoingCallDeclined))
    && (w.call.phase != Idle ==> r.callIncoming || r.callOutgoing)
  }

  /** A decline that can still be heard is for the outgoing call of the session, whose release will close its hub. */
  ghost predicate Listens(w: World) {
    && (w.cancel.Some? ==> w.store.callIncoming && w.cancel.value.callId == w.call.callId)
    && (Hears(w, w.decline) ==> w.call.phase != Idle && Outgoing(w, w.decline.value.callId) && w.decline.value.hub in w.call.hubs)
    && forall c :: c in w.deliveries ==>
         && c in w.placed && c != ""
         && (Outgoing(w, c) && w.deliveries[c].Arrived? ==> w.deliveries[c].hub in w.call.hubs)
  }

  /** Nobody calls themselves, and an acceptance is listened for only on a call that was placed here. */
  ghost predicate CallsOthers(w: World) {
    && (forall c :: c in w.placed ==> w.placed[c] != w.me)
    && (forall l :: l in w.accepts ==> l.callId in w.placed)
  }

  ghost predicate Inv(w: World) {
    Mirrors(w) && OneCall(w) && Listens(w) && CallsOthers(w)
  }

  // ---------- every event keeps the invariant ----------

  /** What a release never touches. */
  predicate SameBooks(w: World, r: World) {
    && r.me == w.me && r.deliveries == w.deliveries && r.placed == w.placed && r.accepts == w.accepts
    && w.closed <= r.closed && forall h :: h in w.call.hubs ==> h in r.closed
  }

  /** endCall from inside a release, or without a call, closes what is left and clears the store. */
  lemma NestedEnd(w: World)
    requires w.call.phase == Ending || (w.call.phase == Idle && w.call.callId == "")
    ensures var r := QuietEnd(w);
            && r.call == w.call.(hubs := [], swarms := []) && r.store == Reduce(w.store, EndCall)
            && r.decline == None && r.cancel == None && SameBooks(w, r)
  {
  }

  /** Releasing the current call leaves no session, no tracked resource and every tracked hub closed. */
  lemma ReleaseEnds(w: World, callId: string, lost: bool)
    requires callId == w.call.callId && w.call.phase != Ending && (w.call.phase == Idle <==> w.call.callId == "")
    ensures var r := Released(w, callId, lost);
            && r.call == (if w.call.phase == Idle then Call(Idle, "", w.call.peerId, [], []) else NO_CALL)
            && r.store == (if lost then Reduce(Reduce(w.store, PeerLost), EndCall) else w.store)
            && r.decline == (if lost then None else w.decline) && r.cancel == (if lost then None else w.cancel)
            && SameBooks(w, r)
  {
    if lost {
      NestedEnd(Dispatch(w.(call := EndBegun(w.call, callId).0.(swarms := [])), PeerLost));
    }
  }

  lemma EndedKeeps(w: World, lost: bool)
    requires Mirrors(w) && Listens(w) && CallsOthers(w)
    ensures Inv(Ended(w, lost))
    ensures Ended(w, lost).call.phase == Idle && !Ended(w, lost).store.modalVisible
  {
    ReleaseEnds(Silenced(CancelSent(w)), w.store.activeCallId, lost);
  }

  lemma RejectedKeeps(w: World, lost: bool)
    requires Inv(w)
    ensures Inv(Rejected(w, lost))
  {
    var told := if w.store.callIncoming && w.store.callPeerId != "" && w.store.activeSignalSessionId != "" && w.store.activeCallId != ""
                then HubTracked(w.(cancel := None)) else w.(cancel := None);
    ReleaseEnds(told.(decline := None), w.store.activeCallId, lost);
  }

  lemma DeclineKeeps(w: World, lost: bool)
    requires Inv(w) && Hears(w, w.decline)
    ensures Inv(DeclineHeard(w, w.decline.value.callId, lost))
  {
    ReleaseEnds(w.(decline := None), w.decline.value.callId, lost);
  }

  lemma GiveUpKeeps(w: World, callId: string, lost: bool)
    requires Inv(w) && callId in w.deliveries
    ensures Inv(DeliveryFailed(w, callId, lost))
  {
    var done := Delivered(w, callId, None);
    if Outgoing(w, callId) {
      var failed := Dispatch(done.(call := Moved(w.call, callId, Failed).0), SessionTransition(Failed));
      ReleaseEnds(failed, callId, lost);
    }
  }

  lemma PlacedKeeps(w: World, peerId: string, callId: string)
    requires Inv(w) && Enabled(w, Place(peerId, callId))
    ensures Inv(Made(w, peerId, callId))
  {
  }

  lemma RungKeeps(w: World, peerId: string, callId: string, signalSessionId: string)
    requires Inv(w) && peerId != ""
    ensures Inv(Received(w, peerId, callId, signalSessionId))
  {
  }

  lemma DeliveryKeeps(w: World, e: Event)
    requires Inv(w) && Enabled(w, e) && (e.HubReady? || e.HubRefused? || e.UseHub? || e.InviteSent? || e.InviteRefused?)
    ensures Inv(Post(w, e))
  {
  }

  lemma AnswerKeeps(w: World, callId: string, acceptedUserId: string)
    requires Inv(w)
    ensures Inv(AnswerHeard(w, callId, acceptedUserId))
  {
  }

  lemma AcceptKeeps(w: World)
    requires Inv(w) && w.store.callIncoming
    ensures Inv(Accepted(w))
  {
  }

  lemma PeerKeeps(w: World, callId: string)
    requires Inv(w)
    ensures Inv(PeerFound(w, callId))
  {
  }

  lemma PostKeeps(w: World, e: Event)
    requires Inv(w) && Enabled(w, e)
    ensures Inv(Post(w, e))
  {
    match e {
      case Place(peerId, callId) => PlacedKeeps(w, peerId, callId);
      case Ring(peerId, callId, id) => RungKeeps(w, peerId, callId, id);
      case GiveUp(callId, lost) => GiveUpKeeps(w, callId, lost);
      case Decline(lost) => DeclineKeeps(w, lost);
      case Cancel(lost) => EndedKeeps(w, lost);
      case Disconnect(lost) => EndedKeeps(Dispatch(w, PeerLost), lost);
      case ClickReject(lost) => RejectedKeeps(w, lost);
      case ClickEnd(lost) => EndedKeeps(w, lost);
      case Answer(l, id) => AnswerKeeps(w, l.callId, id);
      case Peer(callId) => PeerKeeps(w, callId);
      case ClickAccept => AcceptKeeps(w);
      case _ => DeliveryKeeps(w, e);
    }
  }

  predicate IsRun(me: string, events: seq<Event>)
    decreases |events|, 0
  {
    events == [] || var n := |events| - 1; IsRun(me, events[..n]) && Enabled(After(me, events[..n]), events[n])
  }

  /** The world after a run in the browser of `me`. */
  function After(me: string, events: seq<Event>): World
    requires IsRun(me, events)
    decreases |events|, 1
  {
    if events == [] then Fresh(me) else Post(After(me, events[..|events| - 1]), events[|events| - 1])
  }

  lemma {:induction false} RunKeepsInv(me: string, events: seq<Event>)
    requires IsRun(me, events)
    ensures Inv(After(me, events)) && After(me, events).me == me
    decreases |events|
  {
    if events != [] {
      var n := |events| - 1;
      RunKeepsInv(me, events[..n]);
      PostKeeps(After(me, events[..n]), events[n]);
      PostKeepsUser(After(me, events[..n]), events[n]);
    }
  }

  lemma ReleaseKeepsUser(w: World, callId: string, lost: bool)
    ensures Released(w, callId, lost).me == w.me
  {
  }

  lemma PostKeepsUser(w: World, e: Event)
    requires Enabled(w, e)
    ensures Post(w, e).me == w.me
  {
    match e {
      case GiveUp(callId, lost) => GiveUpKeepsUser(w, callId, lost);
      case Decline(lost) => ReleaseKeepsUser(w.(decline := None), w.decline.value.callId, lost);
      case Cancel(lost) => EndKeepsUser(w, lost);
      case Disconnect(lost) => EndKeepsUser(Dispatch(w, PeerLost), lost);
      case ClickReject(lost) => RejectKeepsUser(w, lost);
      case ClickEnd(lost) => EndKeepsUser(w, lost);
      case _ =>
    }
  }

  lemma GiveUpKeepsUser(w: World, callId: string, lost: bool)
    ensures DeliveryFailed(w, callId, lost).me == w.me
  {
  }

  lemma EndKeepsUser(w: World, lost: bool)
    ensures Ended(w, lost).me == w.me
  {
    ReleaseKeepsUser(Silenced(CancelSent(w)), w.store.activeCallId, lost);
  }

  lemma RejectKeepsUser(w: World, lost: bool)
    ensures Rejected(w, lost).me == w.me
  {
    var told := if w.store.callIncoming && w.store.callPeerId != "" && w.store.activeSignalSessionId != "" && w.store.activeCallId != ""
                then HubTracked(w.(cancel := None)) else w.(cancel := None);
    ReleaseKeepsUser(told.(decline := None), w.store.activeCallId, lost);
  }

  lemma RunGrows(me: string, events: seq<Event>, e: Event)
    requires IsRun(me, events) && Enabled(After(me, events), e)
    ensures IsRun(me, events + [e]) && After(me, events + [e]) == Post(After(me, events), e)
  {
    assert (events + [e])[..|events|] == events;
  }

  // ---------- what every run keeps ----------

  /** Between events the store and the session agree, and the session is never left ending or failed. */
  lemma StoreMirrorsSession(me: string, events: seq<Event>)
    requires IsRun(me, events)
    ensures var w := After(me, events);
            && w.store.callSessionState == w.call.phase && w.store.activeCallId == w.call.callId
            && w.call.phase in {Idle, Ringing, Connecting, Connected}
  {
    RunKeepsInv(me, events);
  }

  /** The dialog shows an incoming or an outgoing call, never both; a session always has one of them. */
  lemma NeverBothDirections(me: string, events: seq<Event>)
    requires IsRun(me, events)
    ensures var (r, call) := (After(me, events).store, After(me, events).call);
            && !(r.callIncoming && r.callOutgoing)
            && (r.modalVisible <==> r.callIncoming || r.callOutgoing)
            && (r.callIncoming ==> call.phase != Idle)
            && (r.callOutgoing ==> (call.phase == Idle <==> r.outgoingCallDeclined))
            && (call.phase != Idle ==> r.modalVisible)
  {
    RunKeepsInv(me, events);
  }

  /** Events of a call that is not the current one: its listeners, its peers and its delivery. */
  predicate Concerns(w: World, e: Event, callId: string) {
    match e
    case HubReady(c) => c == callId
    case HubRefused(c) => c == callId
    case UseHub(c, _) => c == callId
    case InviteSent(c) => c == callId
    case InviteRefused(c) => c == callId
    case GiveUp(c, _) => c == callId
    case Answer(l, _) => l.callId == callId
    case Decline(_) => w.decline.Some? && w.decline.value.callId == callId
    case Cancel(_) => w.cancel.Some? && w.cancel.value.callId == callId
    case Peer(c) => c == callId
    case _ => false
  }

  /** A late event of an earlier call changes neither the session's call nor what the store shows; a late decline or cancel is never heard. */
  lemma LateEventsAreIgnored(me: string, events: seq<Event>, e: Event, callId: string)
    requires IsRun(me, events) && Enabled(After(me, events), e) && Concerns(After(me, events), e, callId) && callId != ""
    requires callId != After(me, events).call.callId
    ensures var (w, next) := (After(me, events), Post(After(me, events), e));
            && !e.Decline? && !e.Cancel? && next.store == w.store
            && next.call.phase == w.call.phase && next.call.callId == w.call.callId && next.call.peerId == w.call.peerId
  {
    RunKeepsInv(me, events);
  }

  /** Hanging up, from whatever state, leaves no session, nothing tracked, every tracked hub closed and nothing shown. */
  lemma HangingUpReleasesAll(me: string, events: seq<Event>, lost: bool)
    requires IsRun(me, events)
    ensures var (w, next) := (After(me, events), Ended(After(me, events), lost));
            && next.call.phase == Idle && next.call.hubs == [] && next.call.swarms == []
            && (forall h :: h in w.call.hubs ==> h in next.closed)
            && !next.store.modalVisible && next.store.activeCallId == ""
            && next.decline.None? && next.cancel.None?
  {
    RunKeepsInv(me, events);
    var w := After(me, events);
    ReleaseEnds(Silenced(CancelSent(w)), w.store.activeCallId, lost);
    EndedKeeps(w, lost);
  }

  /**
   acceptCall assumes an incoming call. Run at any other time it leaves store and session in agreement exactly when
   no call is in progress or the call has its signal session; otherwise it ends the call in the store only.
   */
  lemma AcceptExact(w: World)
    requires Inv(w)
    ensures Mirrors(Accepted(w)) <==> w.call.phase == Idle || w.store.activeSignalSessionId != ""
  {
    assert Reduce(w.store, EndCall).callSessionState == Idle;
  }

  /**
   Such a moment is one event away: place a call, and accept before its signal session is ready. The dialog shows the
   accept button for an incoming call only, so no click leads here.
   */
  lemma AcceptingAPlacedCallBreaks(me: string, peerId: string, callId: string)
    requires peerId != "" && peerId != me && callId != ""
    ensures IsRun(me, [Place(peerId, callId)])
    ensures var w := After(me, [Place(peerId, callId)]); !w.store.callIncoming && !Mirrors(Accepted(w))
  {
    RunGrows(me, [], Place(peerId, callId));
    assert [] + [Place(peerId, callId)] == [Place(peerId, callId)];
    RunKeepsInv(me, [Place(peerId, callId)]);
    AcceptExact(After(me, [Place(peerId, callId)]));
  }

  // ---------- who can accept a call ----------

  /**
   An acceptance is taken, and the call starts connecting, exactly when the call it was listened for is live, no
   acceptance was taken before, and the id it carries is the caller's own.
   */
  lemma AnswerTakenExactly(w: World, callId: string, acceptedUserId: string)
    ensures var next := AnswerHeard(w, callId, acceptedUserId);
            && (next != w <==> Live(w.call, callId) && !w.store.peerAccepted && acceptedUserId == w.me)
            && (next != w ==> next.call.phase == Connecting && next.store.callSessionState == Connecting
                              && next.store.peerAccepted && next.decline.None?
                              && next.call.callId == callId && |next.call.swarms| == |w.call.swarms| + 1)
  {
    var next := AnswerHeard(w, callId, acceptedUserId);
    assert next != w ==> next.store.peerAccepted;
  }

  /** No acceptance in the run carries the id of this browser's own user. */
  predicate NoneIsOwn(me: string, events: seq<Event>) {
    forall k :: 0 <= k < |events| && events[k].Answer? ==> events[k].acceptedUserId != me
  }

  /** Every acceptance in the run carries the id of the user that the call was placed to, as acceptCall sends it. */
  predicate Honest(me: string, events: seq<Event>)
    requires IsRun(me, events)
    decreases |events|
  {
    events == [] ||
    var (front, e) := (events[..|events| - 1], events[|events| - 1]);
    && Honest(me, front)
    && (e.Answer? ==> e.listener.callId in After(me, front).placed && e.acceptedUserId == After(me, front).placed[e.listener.callId])
  }

  lemma {:induction false} HonestIsNotOwn(me: string, events: seq<Event>)
    requires IsRun(me, events) && Honest(me, events)
    ensures NoneIsOwn(me, events)
    decreases |events|
  {
    if events != [] {
      var front := events[..|events| - 1];
      HonestIsNotOwn(me, front);
      RunKeepsInv(me, front);
      forall k | 0 <= k < |events| && events[k].Answer? ensures events[k].acceptedUserId != me {
        assert k < |front| ==> events[k] == front[k];
      }
    }
  }

  /** An outgoing call is still ringing, or over. */
  predicate OnlyRings(w: World) {
    w.store.callOutgoing ==> (w.call.phase == Ringing || w.call.phase == Idle) && !w.store.peerAccepted
  }

  lemma PostOnlyRings(w: World, e: Event)
    requires Inv(w) && OnlyRings(w) && Enabled(w, e) && (e.Answer? ==> e.acceptedUserId != w.me)
    ensures OnlyRings(Post(w, e))
  {
    match e {
      case GiveUp(callId, lost) => GiveUpEnds(w, callId, lost);
      case Cancel(lost) => EndedKeeps(w, lost);
      case ClickEnd(lost) => EndedKeeps(w, lost);
      case Disconnect(lost) => EndedKeeps(Dispatch(w, PeerLost), lost);
      case ClickReject(lost) => RejectEnds(w, lost);
      case Decline(lost) => DeclineEnds(w, lost);
      case _ => TalkOnlyRings(w, e);
    }
  }

  lemma TalkOnlyRings(w: World, e: Event)
    requires Inv(w) && OnlyRings(w) && Enabled(w, e) && (e.Answer? ==> e.acceptedUserId != w.me)
    requires !e.GiveUp? && !e.Cancel? && !e.ClickEnd? && !e.Disconnect? && !e.ClickReject? && !e.Decline?
    ensures OnlyRings(Post(w, e))
  {
  }

  lemma RejectEnds(w: World, lost: bool)
    ensures !Rejected(w, lost).store.callOutgoing
  {
  }

  lemma DeclineEnds(w: World, lost: bool)
    requires Inv(w) && Hears(w, w.decline)
    ensures DeclineHeard(w, w.decline.value.callId, lost).call.phase == Idle
    ensures !DeclineHeard(w, w.decline.value.callId, lost).store.peerAccepted
  {
    ReleaseEnds(w.(decline := None), w.decline.value.callId, lost);
  }

  lemma GiveUpEnds(w: World, callId: string, lost: bool)
    requires Inv(w)
    ensures Outgoing(w, callId) ==> !DeliveryFailed(w, callId, lost).store.callOutgoing
    ensures !Outgoing(w, callId) ==> DeliveryFailed(w, callId, lost) == Delivered(w, callId, None)
  {
  }

  /** An outgoing call gets beyond ringing only in a run in which some acceptance carries the caller's own id. */
  lemma {:induction false} ConnectingNeedsOwnId(me: string, events: seq<Event>)
    requires IsRun(me, events) && NoneIsOwn(me, events)
    ensures OnlyRings(After(me, events))
    decreases |events|
  {
    if events != [] {
      var n := |events| - 1;
      ConnectingNeedsOwnId(me, events[..n]);
      RunKeepsInv(me, events[..n]);
      PostOnlyRings(After(me, events[..n]), events[n]);
    }
  }

  /** So as long as every acceptance carries the callee's id, no outgoing call ever starts connecting. */
  lemma HonestAnswersNeverConnect(me: string, events: seq<Event>)
    requires IsRun(me, events) && Honest(me, events)
    ensures var w := After(me, events);
            w.store.callOutgoing ==> w.call.phase == Ringing || w.call.phase == Idle
  {
    HonestIsNotOwn(me, events);
    ConnectingNeedsOwnId(me, events);
  }

  /** The call "c" is placed, its hub arrives and is listened on. */
  function ListeningRun(peerId: string): seq<Event> {
    [Place(peerId, "c"), HubReady("c"), UseHub("c", "s")]
  }

  lemma ListeningRuns(me: string, peerId: string)
    requires peerId != "" && peerId != me
    ensures IsRun(me, ListeningRun(peerId))
    ensures var w := After(me, ListeningRun(peerId));
            && w.call.phase == Ringing && w.call.callId == "c" && w.store.callOutgoing && !w.store.peerAccepted
            && w.me == me && w.placed == map["c" := peerId] && w.accepts == {Listener(0, "c")} && w.closed == {}
  {
    RunGrows(me, [], Place(peerId, "c"));
    var one := [] + [Place(peerId, "c")];
    RunGrows(me, one, HubReady("c"));
    var two := one + [HubReady("c")];
    RunGrows(me, two, UseHub("c", "s"));
    assert two + [UseHub("c", "s")] == ListeningRun(peerId);
  }

  /** The callee accepts, with their own id as acceptCall sends it: nothing happens. The caller's own id would be taken. */
  lemma CalleesAnswerIsIgnored(me: string, peerId: string)
    requires peerId != "" && peerId != me
    ensures IsRun(me, ListeningRun(peerId))
    ensures var (w, l) := (After(me, ListeningRun(peerId)), Listener(0, "c"));
            && Enabled(w, Answer(l, peerId)) && Enabled(w, Answer(l, me)) && w.placed == map["c" := peerId]
            && Post(w, Answer(l, peerId)) == w && w.call.phase == Ringing
            && Post(w, Answer(l, me)).call.phase == Connecting
  {
    ListeningRuns(me, peerId);
    AnswerTakenExactly(After(me, ListeningRun(peerId)), "c", peerId);
    AnswerTakenExactly(After(me, ListeningRun(peerId)), "c", me);
  }
}
