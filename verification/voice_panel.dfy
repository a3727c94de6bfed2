/**
 The voice panel of one browser tab: joining, leaving and being moved away, over a voice session whose close may
 finish at once or much later. An event runs to its end, callbacks included, before the next one starts.
 */
module VoicePanels {
  import opened Outcomes
  import VS = VoiceSessions

  /** What a callback handed to the session's close does when it runs. */
  datatype Continuation =
    | FinishJoin(transition: nat, room: string)
    | FinishLeave
    | FinishDisconnect

  /** The one request for a microphone: for which room it was made, and whether that room was active when it was answered. */
  datatype MediaRequest =
    | NoRequest
    | Asked(room: string)
    | Answered(room: string, active: bool)

  /** `continuations[k]` is the callback of the k-th close; `announced` the presence sent to the server, "" for leaving. */
  datatype Panel = Panel(
    activeRoom: Option<string>, audioOn: bool, speakerOn: bool, media: MediaRequest,
    transition: nat, connectPending: bool, heartbeat: Option<string>,
    session: VS.Session, continuations: seq<Continuation>, announced: seq<string>)

  const FRESH := Panel(None, false, true, NoRequest, 0, false, None, VS.FRESH, [], [])

  // ---------- the handlers, on values ----------

  /** The callback of a join: nothing if another transition has begun since. */
  function Joined(p: Panel, transition: nat, room: string): Panel {
    if transition != p.transition then
      p
    else
      var (session, ok) := VS.Started(p.session, room);
      if !ok then p.(connectPending := false)
      else p.(connectPending := false, session := session, activeRoom := Some(room), audioOn := true, speakerOn := true,
              heartbeat := Some(room), announced := p.announced + [room])
  }

  function Continued(p: Panel, c: Continuation): Panel {
    match c
    case FinishJoin(transition, room) => Joined(p, transition, room)
    case FinishLeave => p
    case FinishDisconnect => p.(connectPending := false)
  }

  /** Every callback that is due has its continuation. */
  predicate Known(p: Panel) {
    && |p.continuations| == |p.session.owner|
    && forall i :: 0 <= i < |p.session.due| ==> p.session.due[i] < |p.continuations|
  }

  function RunOne(p: Panel): (next: Panel)
    requires Known(p) && p.session.due != []
    ensures Known(next) && next.session.due == p.session.due[1..]
  {
    Continued(p.(session := VS.Ran(p.session)), p.continuations[p.session.due[0]])
  }

  function Drained(p: Panel): (next: Panel)
    requires Known(p)
    ensures Known(next) && next.session.due == []
    decreases |p.session.due|
  {
    if p.session.due == [] then p else Drained(RunOne(p))
  }

  predicate CanClose(p: Panel) {
    && Known(p) && p.session.due == []
    && (p.session.mode == VS.Closing ==> p.session.closes != [])
    && forall i :: 0 <= i < |p.session.cleanup| ==> p.session.cleanup[i] < |p.continuations|
  }

  /** `sync` is whether the swarm finishes closing, or fails to close, within the call. */
  function SessionClosed(s: VS.Session, sync: bool): VS.Session
    requires s.mode == VS.Closing ==> s.closes != []
  {
    var closed := VS.Closed(s);
    if sync && s.mode != VS.Closing then VS.Finished(closed, |s.closes|) else closed
  }

  function CleanedUp(p: Panel, c: Continuation, sync: bool): (next: Panel)
    requires CanClose(p)
    ensures Known(next) && next.session.due == []
  {
    Drained(p.(session := SessionClosed(p.session, sync), continuations := p.continuations + [c]))
  }

  /** resetActiveRoomState. */
  function Forgotten(p: Panel): Panel {
    p.(activeRoom := None, audioOn := false, speakerOn := false)
  }

  function Join(p: Panel, room: string, sync: bool): Panel
    requires CanClose(p)
  {
    if p.activeRoom == Some(room) then
      p
    else
      CleanedUp(p.(transition := p.transition + 1, heartbeat := None, connectPending := true),
                FinishJoin(p.transition + 1, room), sync)
  }

  function Leave(p: Panel, sync: bool): Panel
    requires CanClose(p)
  {
    Forgotten(CleanedUp(p.(transition := p.transition + 1, heartbeat := None, connectPending := false, announced := p.announced + [""]),
                        FinishLeave, sync))
  }

  function Disconnect(p: Panel, sync: bool): Panel
    requires CanClose(p)
  {
    Forgotten(CleanedUp(p.(transition := p.transition + 1, heartbeat := None, connectPending := true),
                        FinishDisconnect, sync))
  }

  /** Whether a presence event says that this user has been moved out of the panel's room. */
  predicate MovedAway(p: Panel, mine: bool, previous: string, room: string) {
    mine && p.activeRoom == Some(previous) && room != previous
  }

  function ConnectToSwarm(p: Panel, configured: bool): Panel {
    if !configured || p.activeRoom.None? || p.session.swarm.Some? || p.connectPending then
      p
    else if VS.IsActive(p.session, p.activeRoom.value) then
      p.(connectPending := true)
    else
      var (session, ok) := VS.Started(p.session, p.activeRoom.value);
      if ok then p.(session := session, connectPending := true) else p
  }

  /** The heartbeat timer firing. */
  function Beat(p: Panel): Panel {
    if p.heartbeat.Some? then p.(announced := p.announced + [p.heartbeat.value]) else p
  }

  function Announced(p: Panel): Panel {
    if p.activeRoom.Some? then p.(announced := p.announced + [p.activeRoom.value]) else p
  }

  function MicrophoneToggled(p: Panel): Panel {
    Announced(p.(audioOn := !p.audioOn))
  }

  /** Turning the speaker off also turns the microphone off, and only then is anything announced. */
  function SpeakerToggled(p: Panel): Panel {
    if p.speakerOn && p.audioOn then Announced(p.(speakerOn := false, audioOn := false)) else p.(speakerOn := !p.speakerOn)
  }

  function MediaAsked(p: Panel): Panel {
    if !p.media.NoRequest? || p.activeRoom.None? || !p.audioOn then p else p.(media := Asked(p.activeRoom.value))
  }

  /** The browser answers: with a stream, which the session takes if the room is active, or not. */
  function MediaAnswered(p: Panel, granted: bool, stream: Option<VS.Handle>): Panel
    requires p.media.Asked?
  {
    p.(session := if granted then VS.StreamSet(p.session, p.media.room, stream).0 else p.session,
       media := Answered(p.media.room, VS.IsActive(p.session, p.media.room)))
  }

  /** The request goes on after the answer: it announces the room if that is still shown and the microphone is still on. */
  function MediaResumed(p: Panel): Panel
    requires p.media.Answered?
  {
    var q := p.(media := NoRequest);
    if p.media.active && p.activeRoom == Some(p.media.room) && p.audioOn then Announced(q) else q
  }

  // ---------- the object ----------

  class VoicePanel {
    var activeRoom: Option<string>
    var audioOn: bool
    var speakerOn: bool
    var media: MediaRequest
    var transition: nat
    var connectPending: bool
    var heartbeat: Option<string>
    var continuations: seq<Continuation>
    var announced: seq<string>
    const session: VS.VoiceSession

    function Value(): Panel
      reads this, session
    {
      Panel(activeRoom, audioOn, speakerOn, media, transition, connectPending, heartbeat, session.Value(), continuations, announced)
    }

    constructor ()
      ensures Value() == FRESH && fresh(session)
    {
      audioOn, speakerOn, media := false, true, NoRequest;
      activeRoom, transition, connectPending, heartbeat, continuations, announced := None, 0, false, None, [], [];
      session := new VS.VoiceSession();
    }

    /** startPresence: one timer at a time, with a first announcement at once. */
    method StartPresence(room: string)
      modifies this`heartbeat, this`announced
      ensures heartbeat == Some(room) && announced == old(announced) + [room]
    {
      StopPresence();
      announced := announced + [room];
      heartbeat := Some(room);
    }

    method StopPresence()
      modifies this`heartbeat
      ensures heartbeat == None
    {
      if heartbeat.Some? {
        heartbeat := None;
      }
    }

    method ClearPresence()
      modifies this`heartbeat, this`announced
      ensures heartbeat == None && announced == old(announced) + [""]
    {
      StopPresence();
      announced := announced + [""];
    }

    method Continue(c: Continuation)
      modifies this, session
      ensures Value() == Continued(old(Value()), c)
    {
      match c {
        case FinishJoin(t, room) =>
          if t != transition {
            return;
          }
          connectPending := false;
          var ok := session.Start(room);
          if !ok {
            return;
          }
          activeRoom, audioOn, speakerOn := Some(room), true, true;
          StartPresence(room);
        case FinishLeave =>
        case FinishDisconnect => connectPending := false;
      }
    }

    /** The loop of a finished close over its callbacks. */
    method RunCallbacks()
      requires Known(Value())
      modifies this, session
      ensures Value() == Drained(old(Value()))
    {
      ghost var start := Value();
      while session.due != []
        invariant Known(Value()) && Drained(Value()) == Drained(start)
        decreases |session.due|
      {
        var k := session.RunNext();
        Continue(continuations[k]);
      }
    }

    method Cleanup(c: Continuation, sync: bool)
      requires CanClose(Value())
      modifies this, session
      ensures Value() == CleanedUp(old(Value()), c, sync)
    {
      var wasClosing := session.mode == VS.Closing;
      var n := |session.closes|;
      continuations := continuations + [c];
      session.Close();
      if sync && !wasClosing {
        session.Finish(n);
      }
      RunCallbacks();
    }

    method ResetActiveRoomState()
      modifies this
      ensures Value() == Forgotten(old(Value()))
    {
      activeRoom, audioOn, speakerOn := None, false, false;
    }

    method HandleJoinRoom(room: string, sync: bool)
      requires CanClose(Value())
      modifies this, session
      ensures Value() == Join(old(Value()), room, sync)
    {
      if activeRoom == Some(room) {
        return;
      }
      transition := transition + 1;
      StopPresence();
      connectPending := true;
      Cleanup(FinishJoin(transition, room), sync);
    }

    method LeaveRoom(sync: bool)
      requires CanClose(Value())
      modifies this, session
      ensures Value() == Leave(old(Value()), sync)
    {
      transition := transition + 1;
      connectPending := false;
      ClearPresence();
      Cleanup(FinishLeave, sync);
      ResetActiveRoomState();
    }

    method DisconnectLocalRoom(sync: bool)
      requires CanClose(Value())
      modifies this, session
      ensures Value() == Disconnect(old(Value()), sync)
    {
      transition := transition + 1;
      StopPresence();
      connectPending := true;
      Cleanup(FinishDisconnect, sync);
      ResetActiveRoomState();
    }

    method HandleExclusivePresenceChange(mine: bool, previous: string, room: string, sync: bool)
      requires CanClose(Value())
      modifies this, session
      ensures Value() == if MovedAway(old(Value()), mine, previous, room) then Disconnect(old(Value()), sync) else old(Value())
    {
      if mine && activeRoom.Some? && previous == activeRoom.value && room != activeRoom.value {
        DisconnectLocalRoom(sync);
      }
    }

    method HandleAudioToggle()
      modifies this
      ensures Value() == MicrophoneToggled(old(Value()))
    {
      audioOn := !audioOn;
      if activeRoom.Some? {
        announced := announced + [activeRoom.value];
      }
    }

    method HandleSpeakerToggle()
      modifies this
      ensures Value() == SpeakerToggled(old(Value()))
    {
      var microphoneWillBeDisabled := speakerOn && audioOn;
      speakerOn := !speakerOn;
      if microphoneWillBeDisabled {
        audioOn := false;
        if activeRoom.Some? {
          announced := announced + [activeRoom.value];
        }
      }
    }

    /** handleRequestPerms, up to its wait. */
    method RequestMedia()
      modifies this
      ensures Value() == MediaAsked(old(Value()))
    {
      if media != NoRequest {
        return;
      }
      if activeRoom.None? || !audioOn {
        return;
      }
      media := Asked(activeRoom.value);
    }

    /** acquireAudio, when the browser has answered. */
    method AcquireAudio(granted: bool, stream: Option<VS.Handle>)
      requires media.Asked?
      modifies this, session
      ensures Value() == MediaAnswered(old(Value()), granted, stream)
    {
      var active := session.mode == VS.Active && session.room == media.room;
      if granted {
        var _ := session.SetStream(media.room, stream);
      }
      media := Answered(media.room, active);
    }

    /** handleRequestPerms, after its wait. */
    method ResumeMedia()
      requires media.Answered?
      modifies this
      ensures Value() == MediaResumed(old(Value()))
    {
      if media.active && activeRoom == Some(media.room) && audioOn {
        announced := announced + [media.room];
      }
      media := NoRequest;
    }

    method Connect(configured: bool)
      modifies this, session
      ensures Value() == ConnectToSwarm(old(Value()), configured)
    {
      if !configured || activeRoom.None? || session.swarm.Some? || connectPending {
        return;
      }
      if session.mode != VS.Active || session.room != activeRoom.value {
        var ok := session.Start(activeRoom.value);
        if !ok {
          return;
        }
      }
      connectPending := true;
    }
  }

  // ---------- runs ----------

  datatype Event =
    | ClickJoin(room: string, sync: bool)
    | ClickLeave(sync: bool)
    | PresenceChanged(mine: bool, previous: string, room: string, sync: bool)
    | Completion(close: nat)
    | TryConnect(configured: bool)
    | ConnectEnds
    | Connection(step: VS.Step)
    | Heartbeat
    | ClickMicrophone
    | ClickSpeaker
    | AskMedia
    | MediaAnswers(granted: bool, stream: Option<VS.Handle>)
    | MediaResumes

  /** The directory lists no room with a blank id; the session's own steps are the arrival of a connection. */
  predicate Enabled(p: Panel, e: Event) {
    && CanClose(p)
    && (e.ClickJoin? ==> e.room != "")
    && (e.Completion? ==> e.close < |p.session.closes|)
    && (e.Connection? ==> e.step.SetConnection? || e.step.Connect?)
    && (e.MediaAnswers? ==> p.media.Asked?)
    && (e.MediaResumes? ==> p.media.Answered?)
  }

  function Completed(p: Panel, c: nat): Panel
    requires CanClose(p) && c < |p.session.closes|
  {
    Drained(p.(session := VS.Finished(p.session, c)))
  }

  function Post(p: Panel, e: Event): Panel
    requires Enabled(p, e)
  {
    match e
    case ClickJoin(room, sync) => Join(p, room, sync)
    case ClickLeave(sync) => Leave(p, sync)
    case PresenceChanged(mine, previous, room, sync) => if MovedAway(p, mine, previous, room) then Disconnect(p, sync) else p
    case Completion(c) => Completed(p, c)
    case TryConnect(configured) => ConnectToSwarm(p, configured)
    case ConnectEnds => p.(connectPending := false)
    case Connection(step) => p.(session := VS.Post(p.session, step))
    case Heartbeat => Beat(p)
    case ClickMicrophone => MicrophoneToggled(p)
    case ClickSpeaker => SpeakerToggled(p)
    case AskMedia => MediaAsked(p)
    case MediaAnswers(granted, stream) => MediaAnswered(p, granted, stream)
    case MediaResumes => MediaResumed(p)
  }

  /** The room the user asks for: a click on a room asks for it, leaving or being moved away for none. */
  function AskedFor(p: Panel, e: Event, before: Option<string>): Option<string> {
    match e
    case ClickJoin(room, _) => Some(room)
    case ClickLeave(_) => None
    case PresenceChanged(mine, previous, room, _) => if MovedAway(p, mine, previous, room) then None else before
    case _ => before
  }

  /** The room the panel is bound for: a click on the room that is shown changes nothing. */
  function BoundFor(p: Panel, e: Event, before: Option<string>): Option<string> {
    if e.ClickJoin? && p.activeRoom == Some(e.room) then before else AskedFor(p, e, before)
  }

  /** The guard that loses a click: the panel is leaving the very room that is clicked. */
  predicate LeavingIt(p: Panel, room: string) {
    p.session.mode == VS.Closing && p.activeRoom == Some(room)
  }

  // ---------- the invariant ----------

  /** The panel, its session and its heartbeat are all in `want`, or all in no room. */
  predicate Settled(p: Panel, want: Option<string>) {
    && p.activeRoom == want && p.heartbeat == want
    && match want
       case None => p.session.mode == VS.Idle
       case Some(room) => p.session.mode == VS.Active && p.session.room == room
  }

  /** Callback `k` is the one that joins for the current transition. */
  predicate Current(p: Panel, k: nat) {
    k < |p.continuations| && p.continuations[k].FinishJoin? && p.continuations[k].transition == p.transition
  }

  /** Running `ks` will bring an idle panel to `want`. */
  ghost predicate Leads(p: Panel, ks: seq<nat>, want: Option<string>) {
    && p.heartbeat == None && p.activeRoom != Some("")
    && (want.None? ==> p.activeRoom.None? && forall k :: k in ks ==> !Current(p, k))
    && (want.Some? ==>
          && want.value != "" && p.activeRoom != want
          && (exists k :: k in ks && Current(p, k))
          && forall k :: k in ks && Current(p, k) ==> p.continuations[k].room == want.value)
  }

  /** Joins are numbered up to the current transition. */
  ghost predicate Joins(p: Panel) {
    forall k: nat :: k < |p.continuations| && p.continuations[k].FinishJoin? ==> p.continuations[k].transition <= p.transition
  }

  ghost predicate Inv(p: Panel, want: Option<string>) {
    && VS.Inv(p.session) && CanClose(p)
    && Joins(p)
    && if p.session.mode == VS.Closing then Leads(p, p.session.cleanup, want) else Settled(p, want)
  }

  // ---------- running the callbacks ----------

  /** Nothing but the record of what has run, and `connectPending`, differs. */
  predicate Unmoved(p: Panel, q: Panel) {
    && q.activeRoom == p.activeRoom && q.audioOn == p.audioOn && q.speakerOn == p.speakerOn && q.media == p.media && q.transition == p.transition && q.heartbeat == p.heartbeat
    && q.continuations == p.continuations && q.announced == p.announced
    && q.session == p.session.(due := q.session.due, effects := q.session.effects)
    && (q.connectPending ==> p.connectPending)
  }

  /** The room has just been entered: microphone and speaker are on, and nothing stands in the way of a connection attempt. */
  predicate Entered(p: Panel) {
    p.audioOn && p.speakerOn && !p.connectPending && p.session.swarm.None?
  }

  lemma QuietContinues(p: Panel, c: Continuation)
    requires p.session.mode != VS.Idle || !(c.FinishJoin? && c.transition == p.transition)
    ensures Continued(p, c) == p || Continued(p, c) == p.(connectPending := false)
  {
  }

  lemma QuietOne(p: Panel)
    requires Known(p) && p.session.due != [] && VS.Inv(p.session)
    requires p.session.mode != VS.Idle || !Current(p, p.session.due[0])
    ensures Unmoved(p, RunOne(p)) && VS.Inv(RunOne(p).session)
  {
    VS.RunKeeps(p.session);
    QuietContinues(p.(session := VS.Ran(p.session)), p.continuations[p.session.due[0]]);
  }

  /** Callbacks that are not the current join's, or that find the session in use, move nothing. */
  lemma {:induction false} QuietDrain(p: Panel)
    requires Known(p) && VS.Inv(p.session)
    requires p.session.mode != VS.Idle || forall k :: k in p.session.due ==> !Current(p, k)
    ensures Unmoved(p, Drained(p)) && VS.Inv(Drained(p).session)
    decreases |p.session.due|
  {
    if p.session.due != [] {
      QuietOne(p);
      forall k | k in RunOne(p).session.due && p.session.mode == VS.Idle ensures !Current(RunOne(p), k) {
        assert k in p.session.due;
      }
      QuietDrain(RunOne(p));
    }
  }

  /** The current join's callback, run on an idle session, enters its room. */
  lemma JoinRuns(p: Panel, room: string)
    requires Known(p) && p.session.due != [] && VS.Inv(p.session) && p.session.mode == VS.Idle && room != ""
    requires Current(p, p.session.due[0]) && p.continuations[p.session.due[0]].room == room
    ensures var q := RunOne(p);
            && Settled(q, Some(room)) && VS.Inv(q.session) && q.announced == p.announced + [room] && Entered(q)
            && q.transition == p.transition && q.continuations == p.continuations && q.session.owner == p.session.owner
  {
    VS.RunKeeps(p.session);
    VS.HandleKeeps(VS.Ran(p.session), VS.Start(room));
  }

  /** Running what leads an idle panel to `want` settles it there. */
  lemma {:induction false} LedDrain(p: Panel, want: Option<string>)
    requires Known(p) && VS.Inv(p.session) && p.session.mode == VS.Idle && Leads(p, p.session.due, want)
    ensures var q := Drained(p);
            && Settled(q, want) && VS.Inv(q.session)
            && q.transition == p.transition && q.continuations == p.continuations && q.session.owner == p.session.owner
            && q.announced == p.announced + (if want.Some? then [want.value] else [])
            && (want.Some? ==> Entered(q))
    decreases |p.session.due|
  {
    if want.None? {
      QuietDrain(p);
    } else {
      var k := p.session.due[0];
      assert p.session.due == [k] + p.session.due[1..];
      if Current(p, k) {
        JoinRuns(p, want.value);
        QuietDrain(RunOne(p));
      } else {
        QuietOne(p);
        LedDrain(RunOne(p), want);
      }
    }
  }

  // ---------- events keep the invariant ----------

  /** The callback of a close that starts now waits for it, or is due at once. */
  lemma SessionClosedKeeps(s: VS.Session, sync: bool)
    requires VS.Inv(s) && s.due == []
    ensures var t := SessionClosed(s, sync);
            && VS.Inv(t) && |t.owner| == |s.owner| + 1 && t.mode != VS.Active
            && (if t.mode == VS.Closing then t.due == [] && |s.owner| in t.cleanup else |s.owner| in t.due)
            && forall k :: k in t.cleanup || k in t.due ==> k < |t.owner|
  {
    VS.CloseKeeps(s);
    var closed := VS.Closed(s);
    if sync && s.mode != VS.Closing {
      VS.CompleteKeeps(closed, |s.closes|);
    }
    var t := SessionClosed(s, sync);
    forall k | k in t.due ensures k < |t.owner| {
      VS.DueIsFinished(t, k);
    }
  }

  /** What a handler passes to the session's close when it begins a transition to `want`. */
  predicate Asks(p: Panel, c: Continuation, want: Option<string>) {
    match want
    case None => !c.FinishJoin?
    case Some(room) => room != "" && c == FinishJoin(p.transition, room)
  }

  ghost predicate Begun(p: Panel) {
    && VS.Inv(p.session) && CanClose(p) && p.heartbeat == None && p.activeRoom != Some("")
    && forall k: nat :: k < |p.continuations| && p.continuations[k].FinishJoin? ==> p.continuations[k].transition < p.transition
  }

  lemma AskLeads(p: Panel, c: Continuation, ks: seq<nat>, want: Option<string>)
    requires Begun(p) && Asks(p, c, want) && |p.continuations| in ks && (want.None? <==> p.activeRoom == want)
    ensures Leads(p.(continuations := p.continuations + [c]), ks, want)
  {
    var q := p.(continuations := p.continuations + [c]);
    assert want.Some? ==> Current(q, |p.continuations|);
  }

  lemma CleanupWaits(p: Panel, c: Continuation, sync: bool, want: Option<string>)
    requires Begun(p) && Asks(p, c, want) && (want.None? <==> p.activeRoom == want)
    requires SessionClosed(p.session, sync).mode == VS.Closing
    ensures Inv(CleanedUp(p, c, sync), want)
    ensures CleanedUp(p, c, sync) == p.(session := SessionClosed(p.session, sync), continuations := p.continuations + [c])
  {
    SessionClosedKeeps(p.session, sync);
    AskLeads(p, c, SessionClosed(p.session, sync).cleanup, want);
  }

  /** What leads to `want` does not depend on the session. */
  lemma LeadsAnyway(p: Panel, session: VS.Session, ks: seq<nat>, want: Option<string>)
    requires Leads(p, ks, want)
    ensures Leads(p.(session := session), ks, want)
  {
    if want.Some? {
      var k :| k in ks && Current(p, k);
      assert Current(p.(session := session), k);
    }
  }

  lemma ClosedIdle(p: Panel, c: Continuation, sync: bool)
    requires Begun(p) && (c.FinishJoin? ==> c.transition <= p.transition)
    requires SessionClosed(p.session, sync).mode != VS.Closing
    ensures var q := p.(session := SessionClosed(p.session, sync), continuations := p.continuations + [c]);
            Known(q) && VS.Inv(q.session) && q.session.mode == VS.Idle && Joins(q)
    ensures |p.continuations| in SessionClosed(p.session, sync).due
  {
    SessionClosedKeeps(p.session, sync);
  }

  lemma ClosedLeads(p: Panel, c: Continuation, sync: bool, want: Option<string>)
    requires Begun(p) && Asks(p, c, want) && (want.None? <==> p.activeRoom == want)
    requires SessionClosed(p.session, sync).mode != VS.Closing
    ensures var q := p.(session := SessionClosed(p.session, sync), continuations := p.continuations + [c]);
            && Known(q) && VS.Inv(q.session) && q.session.mode == VS.Idle && Leads(q, q.session.due, want)
            && Joins(q)
  {
    ClosedIdle(p, c, sync);
    var (session, ks) := (SessionClosed(p.session, sync), SessionClosed(p.session, sync).due);
    AskLeads(p, c, ks, want);
    LeadsAnyway(p.(continuations := p.continuations + [c]), session, ks, want);
  }

  lemma SettledKeeps(p: Panel, want: Option<string>)
    requires VS.Inv(p.session) && Known(p) && p.session.due == [] && Settled(p, want) && Joins(p)
    ensures Inv(p, want)
  {
  }

  lemma CleanupSettles(p: Panel, c: Continuation, sync: bool, want: Option<string>)
    requires Begun(p) && Asks(p, c, want) && (want.None? <==> p.activeRoom == want)
    requires SessionClosed(p.session, sync).mode != VS.Closing
    ensures Inv(CleanedUp(p, c, sync), want) && Settled(CleanedUp(p, c, sync), want)
    ensures CleanedUp(p, c, sync).announced == p.announced + (if want.Some? then [want.value] else [])
    ensures want.Some? ==> Entered(CleanedUp(p, c, sync))
  {
    var q := p.(session := SessionClosed(p.session, sync), continuations := p.continuations + [c]);
    ClosedLeads(p, c, sync, want);
    LedDrain(q, want);
    SettledKeeps(Drained(q), want);
  }

  lemma CleanupKeeps(p: Panel, c: Continuation, sync: bool, want: Option<string>)
    requires Begun(p) && Asks(p, c, want) && (want.None? <==> p.activeRoom == want)
    ensures Inv(CleanedUp(p, c, sync), want)
    ensures var q := CleanedUp(p, c, sync);
            && (q.session.mode == VS.Closing <==> SessionClosed(p.session, sync).mode == VS.Closing)
            && q.announced == p.announced + (if want.Some? && q.session.mode != VS.Closing then [want.value] else [])
            && (want.Some? && q.session.mode != VS.Closing ==> Settled(q, want) && Entered(q))
  {
    if SessionClosed(p.session, sync).mode == VS.Closing {
      CleanupWaits(p, c, sync, want);
    } else {
      CleanupSettles(p, c, sync, want);
    }
  }

  /** The room is forgotten after the cleanup; forgetting it before would come to the same. */
  lemma ForgetEarly(p: Panel, c: Continuation, sync: bool)
    requires Begun(p) && !c.FinishJoin?
    ensures Forgotten(CleanedUp(p, c, sync)) == CleanedUp(Forgotten(p), c, sync)
  {
    SessionClosedKeeps(p.session, sync);
    var q := p.(session := SessionClosed(p.session, sync), continuations := p.continuations + [c]);
    ForgetDrain(q);
  }

  lemma {:induction false} ForgetDrain(p: Panel)
    requires Known(p) && forall k :: k in p.session.due ==> !Current(p, k)
    ensures Forgotten(Drained(p)) == Drained(Forgotten(p))
    decreases |p.session.due|
  {
    if p.session.due != [] {
      var q := RunOne(p);
      assert !Current(p, p.session.due[0]);
      assert RunOne(Forgotten(p)) == Forgotten(q);
      forall k | k in q.session.due ensures !Current(q, k) {
        assert k in p.session.due;
      }
      ForgetDrain(q);
    }
  }

  /** A transition that begins: its number is new, and no heartbeat runs. */
  lemma TransitionBegins(p: Panel, pending: bool, want: Option<string>)
    requires Inv(p, want)
    ensures Begun(p.(transition := p.transition + 1, heartbeat := None, connectPending := pending))
  {
  }

  lemma LeaveKeeps(p: Panel, sync: bool, want: Option<string>)
    requires Inv(p, want)
    ensures Inv(Leave(p, sync), None) && Leave(p, sync).announced == p.announced + [""]
  {
    var q := p.(transition := p.transition + 1, heartbeat := None, connectPending := false, announced := p.announced + [""]);
    ForgetEarly(q, FinishLeave, sync);
    CleanupKeeps(Forgotten(q), FinishLeave, sync, None);
  }

  lemma DisconnectKeeps(p: Panel, sync: bool, want: Option<string>)
    requires Inv(p, want)
    ensures Inv(Disconnect(p, sync), None) && Disconnect(p, sync).announced == p.announced
  {
    var q := p.(transition := p.transition + 1, heartbeat := None, connectPending := true);
    TransitionBegins(p, true, want);
    ForgetEarly(q, FinishDisconnect, sync);
    CleanupKeeps(Forgotten(q), FinishDisconnect, sync, None);
  }

  lemma JoinBegins(p: Panel, room: string, sync: bool, want: Option<string>)
    requires Inv(p, want) && room != "" && p.activeRoom != Some(room)
    ensures var q := p.(transition := p.transition + 1, heartbeat := None, connectPending := true);
            && Begun(q) && Asks(q, FinishJoin(q.transition, room), Some(room))
            && Join(p, room, sync) == CleanedUp(q, FinishJoin(q.transition, room), sync)
  {
    TransitionBegins(p, true, want);
  }

  lemma JoinKeeps(p: Panel, room: string, sync: bool, want: Option<string>)
    requires Inv(p, want) && room != "" && p.activeRoom != Some(room)
    ensures Inv(Join(p, room, sync), Some(room))
    ensures var q := Join(p, room, sync);
            && (q.session.mode == VS.Closing <==> SessionClosed(p.session, sync).mode == VS.Closing)
            && q.announced == p.announced + (if q.session.mode != VS.Closing then [room] else [])
            && (q.session.mode != VS.Closing ==> Settled(q, Some(room)) && Entered(q))
  {
    JoinBegins(p, room, sync, want);
    var q := p.(transition := p.transition + 1, heartbeat := None, connectPending := true);
    CleanupKeeps(q, FinishJoin(q.transition, room), sync, Some(room));
  }

  lemma CompletionKeeps(p: Panel, c: nat, want: Option<string>)
    requires Inv(p, want) && c < |p.session.closes|
    ensures Inv(Completed(p, c), want)
    ensures !p.session.closes[c].completed ==> Settled(Completed(p, c), want)
    ensures var q := Completed(p, c);
            if p.session.closes[c].completed then q == p
            else q.announced == p.announced + (if want.Some? then [want.value] else []) && (want.Some? ==> Entered(q))
  {
    if !p.session.closes[c].completed {
      VS.CompleteKeeps(p.session, c);
      var q := p.(session := VS.Finished(p.session, c));
      assert q.session.due == p.session.cleanup;
      LeadsAnyway(p, q.session, p.session.cleanup, want);
      LedDrain(q, want);
      SettledKeeps(Drained(q), want);
    }
  }

  lemma ConnectionKeeps(p: Panel, step: VS.Step, want: Option<string>)
    requires Inv(p, want) && (step.SetStream? || step.SetConnection? || step.Connect?)
    ensures Inv(p.(session := VS.Post(p.session, step)), want)
  {
    VS.HandleKeeps(p.session, step);
  }

  /** What does not touch the session, the room or the transitions. */
  lemma AsideKeeps(p: Panel, q: Panel, want: Option<string>)
    requires Inv(p, want) && q.session == p.session && q.activeRoom == p.activeRoom && q.heartbeat == p.heartbeat
    requires q.transition == p.transition && q.continuations == p.continuations
    ensures Inv(q, want)
  {
    if p.session.mode == VS.Closing && want.Some? {
      var k :| k in p.session.cleanup && Current(p, k);
      assert Current(q, k);
    }
  }

  lemma MediaKeeps(p: Panel, granted: bool, stream: Option<VS.Handle>, want: Option<string>)
    requires Inv(p, want) && p.media.Asked?
    ensures Inv(MediaAnswered(p, granted, stream), want)
  {
    var q := if granted then p.(session := VS.Post(p.session, VS.SetStream(p.media.room, stream))) else p;
    if granted {
      ConnectionKeeps(p, VS.SetStream(p.media.room, stream), want);
    }
    AsideKeeps(q, MediaAnswered(p, granted, stream), want);
  }

  /** A connection attempt never has to start the session: whenever a room is shown, it is active or closing. */
  lemma ConnectStartsNothing(p: Panel, configured: bool, want: Option<string>)
    requires Inv(p, want)
    ensures ConnectToSwarm(p, configured).session == p.session
    ensures Inv(ConnectToSwarm(p, configured), want)
  {
  }

  lemma TransitionKeeps(p: Panel, e: Event, want: Option<string>)
    requires Inv(p, want) && Enabled(p, e) && (e.ClickJoin? || e.ClickLeave? || e.PresenceChanged? || e.Completion?)
    ensures Inv(Post(p, e), BoundFor(p, e, want))
  {
    match e {
      case ClickJoin(room, sync) =>
        if p.activeRoom != Some(room) {
          JoinKeeps(p, room, sync, want);
        }
      case ClickLeave(sync) => LeaveKeeps(p, sync, want);
      case PresenceChanged(mine, previous, room, sync) =>
        if MovedAway(p, mine, previous, room) {
          DisconnectKeeps(p, sync, want);
        }
      case Completion(c) => CompletionKeeps(p, c, want);
    }
  }

  lemma PostKeeps(p: Panel, e: Event, want: Option<string>)
    requires Inv(p, want) && Enabled(p, e)
    ensures Inv(Post(p, e), BoundFor(p, e, want))
  {
    if e.ClickJoin? || e.ClickLeave? || e.PresenceChanged? || e.Completion? {
      TransitionKeeps(p, e, want);
    } else if e.TryConnect? {
      ConnectStartsNothing(p, e.configured, want);
    } else if e.Connection? {
      ConnectionKeeps(p, e.step, want);
    } else if e.MediaAnswers? {
      MediaKeeps(p, e.granted, e.stream, want);
    } else {
      AsideKeeps(p, Post(p, e), want);
    }
  }

  predicate IsRun(events: seq<Event>)
    decreases |events|, 0
  {
    events == [] || var n := |events| - 1; IsRun(events[..n]) && Enabled(After(events[..n]), events[n])
  }

  function After(events: seq<Event>): Panel
    requires IsRun(events)
    decreases |events|, 1
  {
    if events == [] then FRESH else Post(After(events[..|events| - 1]), events[|events| - 1])
  }

  /** The room the panel is bound for after a run. */
  function LastBound(events: seq<Event>): Option<string>
    requires IsRun(events)
    decreases |events|
  {
    if events == [] then None else
    var n := |events| - 1;
    BoundFor(After(events[..n]), events[n], LastBound(events[..n]))
  }

  lemma {:induction false} RunKeepsInv(events: seq<Event>)
    requires IsRun(events)
    ensures Inv(After(events), LastBound(events))
    decreases |events|
  {
    if events != [] {
      var n := |events| - 1;
      RunKeepsInv(events[..n]);
      PostKeeps(After(events[..n]), events[n], LastBound(events[..n]));
    } else {
      FreshInv();
    }
  }

  lemma FreshInv()
    ensures Inv(FRESH, None)
  {
    assert VS.IsRun([]);
    VS.RunKeepsInv([]);
  }

  lemma RunGrows(events: seq<Event>, e: Event)
    requires IsRun(events) && Enabled(After(events), e)
    ensures IsRun(events + [e])
    ensures After(events + [e]) == Post(After(events), e)
    ensures LastBound(events + [e]) == BoundFor(After(events), e, LastBound(events))
    ensures LastAsked(events + [e]) == AskedFor(After(events), e, LastAsked(events))
  {
    assert (events + [e])[..|events|] == events;
  }

  // ---------- where a run leaves the panel ----------

  /** The room the last request of a run asked for. */
  function LastAsked(events: seq<Event>): Option<string>
    requires IsRun(events)
    decreases |events|
  {
    if events == [] then None else
    var n := |events| - 1;
    AskedFor(After(events[..n]), events[n], LastAsked(events[..n]))
  }

  /** Whether the last request of a run was a click on the room that the panel was leaving. */
  predicate LastClickLost(events: seq<Event>)
    requires IsRun(events)
    decreases |events|
  {
    events != [] &&
    var (front, e) := (events[..|events| - 1], events[|events| - 1]);
    match e
    case ClickJoin(room, _) => LeavingIt(After(front), room)
    case ClickLeave(_) => false
    case PresenceChanged(mine, previous, room, _) => !MovedAway(After(front), mine, previous, room) && LastClickLost(front)
    case _ => LastClickLost(front)
  }

  /** The panel is at `want`, or the completion of the close that is pending will bring it there. */
  predicate SettlesAt(p: Panel, want: Option<string>)
    requires CanClose(p)
  {
    if p.session.mode == VS.Closing then Settled(Completed(p, |p.session.closes| - 1), want) else Settled(p, want)
  }

  lemma InvSettles(p: Panel, want: Option<string>)
    requires Inv(p, want)
    ensures SettlesAt(p, want)
  {
    if p.session.mode == VS.Closing {
      CompletionKeeps(p, |p.session.closes| - 1, want);
    }
  }

  lemma SettledOnce(p: Panel, a: Option<string>, b: Option<string>)
    requires CanClose(p) && SettlesAt(p, a)
    ensures SettlesAt(p, b) <==> a == b
  {
  }

  /** The room shown while a close is in progress is not the one it will lead to. */
  lemma ShownIsNotBound(p: Panel, want: Option<string>, room: string)
    requires Inv(p, want) && LeavingIt(p, room)
    ensures want.Some? && want.value != room
  {
  }

  /** The panel is bound for what was asked, unless the last click was lost. */
  lemma {:induction false} BoundIsAsked(events: seq<Event>)
    requires IsRun(events)
    ensures LastBound(events) == LastAsked(events) <==> !LastClickLost(events)
    decreases |events|
  {
    if events != [] {
      var (front, e) := (events[..|events| - 1], events[|events| - 1]);
      RunKeepsInv(front);
      if e.ClickJoin? && LeavingIt(After(front), e.room) {
        ShownIsNotBound(After(front), LastBound(front), e.room);
      } else if !e.ClickJoin? {
        BoundIsAsked(front);
      }
    }
  }

  /**
   In every run, the room shown, the session and the heartbeat are all in the room that the last request asked for, or
   all in none (at once, or when the pending close completes), exactly when that request was not a click on the room
   being left. So a superseded join is never the one that activates its room.
   */
  lemma PanelFollowsLastRequest(events: seq<Event>)
    requires IsRun(events)
    ensures CanClose(After(events)) && SettlesAt(After(events), LastBound(events))
    ensures SettlesAt(After(events), LastAsked(events)) <==> !LastClickLost(events)
  {
    RunKeepsInv(events);
    InvSettles(After(events), LastBound(events));
    SettledOnce(After(events), LastBound(events), LastAsked(events));
    BoundIsAsked(events);
  }

  /** While a close is in progress nothing is active and no heartbeat runs, and its completion settles the last request unless that click was lost. */
  lemma ClosingSettlesLastRequest(events: seq<Event>)
    requires IsRun(events) && After(events).session.mode == VS.Closing
    ensures var p := After(events);
            && p.heartbeat.None? && p.session.closes != [] && CanClose(p)
            && (Settled(Completed(p, |p.session.closes| - 1), LastAsked(events)) <==> !LastClickLost(events))
  {
    RunKeepsInv(events);
    PanelFollowsLastRequest(events);
  }

  /**
   A click on a room takes the panel there, at once or when the pending close completes, exactly when the panel is not
   just leaving that room. A click back to the room being left is lost.
   */
  lemma ClickBackIsLost(events: seq<Event>, room: string, sync: bool)
    requires IsRun(events) && room != "" && CanClose(After(events))
    ensures Enabled(After(events), ClickJoin(room, sync)) && CanClose(Join(After(events), room, sync))
    ensures SettlesAt(Join(After(events), room, sync), Some(room)) <==> !LeavingIt(After(events), room)
  {
    var (p, want) := (After(events), LastBound(events));
    RunKeepsInv(events);
    if p.activeRoom != Some(room) {
      JoinKeeps(p, room, sync, want);
      InvSettles(Join(p, room, sync), Some(room));
    } else {
      InvSettles(p, want);
      SettledOnce(p, want, Some(room));
      if LeavingIt(p, room) {
        ShownIsNotBound(p, want, room);
      }
    }
  }

  // A run that loses a click: join "a", connect, and click "b" while the swarm of "a" takes its time to close.

  const JOIN_A := ClickJoin("a", false)
  const CONNECT_A := Connection(VS.SetConnection("a", None, Some(VS.Handle(1, true))))
  const JOIN_B := ClickJoin("b", false)

  lemma InA()
    ensures IsRun([JOIN_A]) && After([JOIN_A]).session.mode == VS.Active && After([JOIN_A]).session.room == "a"
    ensures After([JOIN_A]).activeRoom == Some("a") && LastBound([JOIN_A]) == Some("a") && Inv(After([JOIN_A]), Some("a"))
  {
    FreshInv();
    RunGrows([], JOIN_A);
    assert [] + [JOIN_A] == [JOIN_A];
    assert SessionClosed(FRESH.session, false).mode == VS.Idle;
    JoinKeeps(FRESH, "a", false, None);
  }

  lemma ConnectedInA()
    ensures IsRun([JOIN_A, CONNECT_A])
    ensures var p := After([JOIN_A, CONNECT_A]);
            && Inv(p, Some("a")) && p.activeRoom == Some("a") && p.session.mode == VS.Active
            && p.session.swarm == Some(VS.Handle(1, true))
    ensures LastBound([JOIN_A, CONNECT_A]) == Some("a")
  {
    InA();
    RunGrows([JOIN_A], CONNECT_A);
    assert [JOIN_A] + [CONNECT_A] == [JOIN_A, CONNECT_A];
    ConnectionKeeps(After([JOIN_A]), CONNECT_A.step, Some("a"));
  }

  lemma SwitchingKeepsA(p: Panel)
    requires Inv(p, Some("a")) && p.activeRoom == Some("a") && p.session.mode == VS.Active && p.session.swarm == Some(VS.Handle(1, true))
    ensures Join(p, "b", false).session.mode == VS.Closing && Join(p, "b", false).activeRoom == Some("a")
  {
    JoinKeeps(p, "b", false, Some("a"));
    var q := p.(transition := p.transition + 1, heartbeat := None, connectPending := true);
    CleanupWaits(q, FinishJoin(q.transition, "b"), false, Some("b"));
  }

  /** At its end "a" is still shown, while "b" was asked for and will be entered. */
  lemma SwitchingStillShowsTheOldRoom()
    ensures IsRun([JOIN_A, CONNECT_A, JOIN_B])
    ensures LeavingIt(After([JOIN_A, CONNECT_A, JOIN_B]), "a") && LastBound([JOIN_A, CONNECT_A, JOIN_B]) == Some("b")
  {
    ConnectedInA();
    SwitchingKeepsA(After([JOIN_A, CONNECT_A]));
    RunGrows([JOIN_A, CONNECT_A], JOIN_B);
    assert [JOIN_A, CONNECT_A] + [JOIN_B] == [JOIN_A, CONNECT_A, JOIN_B];
  }

  // ---------- which rooms are announced ----------

  /** Every room announced between `before` and `after` is `want`. */
  predicate AnnouncesOnly(before: seq<string>, after: seq<string>, want: Option<string>) {
    before <= after && forall i :: |before| <= i < |after| ==> after[i] == "" || want == Some(after[i])
  }

  /** The event announces whatever room is shown: a toggled microphone, or a microphone that was just granted. */
  predicate Speaks(p: Panel, e: Event) {
    match e
    case ClickMicrophone => true
    case ClickSpeaker => p.speakerOn && p.audioOn
    case MediaResumes => p.media.Answered? && p.media.active && p.activeRoom == Some(p.media.room) && p.audioOn
    case _ => false
  }

  lemma TransitionAnnounces(p: Panel, e: Event, want: Option<string>)
    requires Inv(p, want) && Enabled(p, e) && (e.ClickJoin? || e.ClickLeave? || e.PresenceChanged? || e.Completion?)
    ensures AnnouncesOnly(p.announced, Post(p, e).announced, BoundFor(p, e, want))
  {
    if e.ClickJoin? && p.activeRoom != Some(e.room) {
      JoinKeeps(p, e.room, e.sync, want);
    } else if e.ClickLeave? {
      LeaveKeeps(p, e.sync, want);
    } else if e.PresenceChanged? && MovedAway(p, e.mine, e.previous, e.room) {
      DisconnectKeeps(p, e.sync, want);
    } else if e.Completion? {
      CompletionKeeps(p, e.close, want);
    }
  }

  /** An event that speaks announces the room that is shown, which is another one exactly while that room is being left. */
  lemma SpeakingAnnounces(p: Panel, e: Event, want: Option<string>)
    requires Inv(p, want) && Enabled(p, e) && Speaks(p, e)
    ensures Post(p, e).announced == p.announced + if p.activeRoom.Some? then [p.activeRoom.value] else []
    ensures AnnouncesOnly(p.announced, Post(p, e).announced, want) <==> !(p.session.mode == VS.Closing && p.activeRoom.Some?)
  {
    var after := Post(p, e).announced;
    if p.activeRoom.Some? {
      assert after[|p.announced|] == p.activeRoom.value;
      if p.session.mode == VS.Closing {
        ShownIsNotBound(p, want, p.activeRoom.value);
      }
    }
  }

  lemma OthersAnnounce(p: Panel, e: Event, want: Option<string>)
    requires Inv(p, want) && Enabled(p, e) && !Speaks(p, e)
    requires !e.ClickJoin? && !e.ClickLeave? && !e.PresenceChanged? && !e.Completion?
    ensures AnnouncesOnly(p.announced, Post(p, e).announced, want)
  {
  }

  /**
   A step announces a room other than the one the panel is bound for (the one last asked for, unless that click was
   lost) exactly when it toggles the microphone or takes up
   a granted one while the panel is still leaving another room; then it announces that room.
   */
  lemma AnnouncesOnlyWanted(events: seq<Event>, e: Event)
    requires IsRun(events) && Enabled(After(events), e)
    ensures IsRun(events + [e])
    ensures var p := After(events);
            AnnouncesOnly(p.announced, After(events + [e]).announced, LastBound(events + [e])) <==>
            !(Speaks(p, e) && p.session.mode == VS.Closing && p.activeRoom.Some?)
    ensures !LastClickLost(events + [e]) ==> LastBound(events + [e]) == LastAsked(events + [e])
    ensures Speaks(After(events), e) && After(events).activeRoom.Some? ==>
              After(events + [e]).announced == After(events).announced + [After(events).activeRoom.value]
  {
    var (p, want) := (After(events), LastBound(events));
    RunKeepsInv(events);
    RunGrows(events, e);
    BoundIsAsked(events + [e]);
    if Speaks(p, e) {
      SpeakingAnnounces(p, e, want);
    } else if e.ClickJoin? || e.ClickLeave? || e.PresenceChanged? || e.Completion? {
      TransitionAnnounces(p, e, want);
    } else {
      OthersAnnounce(p, e, want);
    }
  }

  /**
   Every announcement there is. A click that enters a room at once announces it, as does the completion that enters the
   room the panel is bound for; leaving announces no room; a heartbeat announces the room the panel is settled in; an
   event that speaks announces the room that is shown; and nothing else announces anything.
   */
  lemma AnnouncesExactly(events: seq<Event>, e: Event)
    requires IsRun(events) && Enabled(After(events), e)
    ensures IsRun(events + [e])
    ensures var (p, next, want) := (After(events), After(events + [e]), LastBound(events));
            next.announced == p.announced +
              (match e
               case ClickJoin(room, _) => if p.activeRoom == Some(room) || next.session.mode == VS.Closing then [] else [room]
               case ClickLeave(_) => [""]
               case Completion(c) => if p.session.mode == VS.Closing && c == |p.session.closes| - 1 && want.Some? then [want.value] else []
               case Heartbeat => if p.session.mode == VS.Closing || want.None? then [] else [want.value]
               case _ => if Speaks(p, e) && p.activeRoom.Some? then [p.activeRoom.value] else [])
  {
    RunKeepsInv(events);
    RunGrows(events, e);
    StepAnnounces(After(events), e, LastBound(events));
  }

  lemma StepAnnounces(p: Panel, e: Event, want: Option<string>)
    requires Inv(p, want) && Enabled(p, e)
    ensures Post(p, e).announced == p.announced +
              (match e
               case ClickJoin(room, _) => if p.activeRoom == Some(room) || Post(p, e).session.mode == VS.Closing then [] else [room]
               case ClickLeave(_) => [""]
               case Completion(c) => if p.session.mode == VS.Closing && c == |p.session.closes| - 1 && want.Some? then [want.value] else []
               case Heartbeat => if p.session.mode == VS.Closing || want.None? then [] else [want.value]
               case _ => if Speaks(p, e) && p.activeRoom.Some? then [p.activeRoom.value] else [])
  {
    if e.ClickJoin? {
      if p.activeRoom != Some(e.room) {
        JoinKeeps(p, e.room, e.sync, want);
      }
    } else if e.ClickLeave? {
      LeaveKeeps(p, e.sync, want);
    } else if e.PresenceChanged? {
      if MovedAway(p, e.mine, e.previous, e.room) {
        DisconnectKeeps(p, e.sync, want);
      }
    } else if e.Completion? {
      CompletionKeeps(p, e.close, want);
    }
  }

  /** The event enters a room: a click that does so at once, or the completion of the close that a click was waiting for. */
  predicate Enters(p: Panel, e: Event, want: Option<string>)
    requires Enabled(p, e)
  {
    || (e.ClickJoin? && p.activeRoom != Some(e.room) && Post(p, e).session.mode != VS.Closing)
    || (e.Completion? && p.session.mode == VS.Closing && e.close == |p.session.closes| - 1 && want.Some?)
  }

  /** A room that has just been entered has its microphone and speaker on, holds no swarm yet and waits for nothing, so the next attempt to connect goes ahead. */
  lemma EnteredCanConnect(events: seq<Event>, e: Event)
    requires IsRun(events) && Enabled(After(events), e) && Enters(After(events), e, LastBound(events))
    ensures IsRun(events + [e]) && IsRun(events + [e] + [TryConnect(true)])
    ensures var (next, tried) := (After(events + [e]), After(events + [e] + [TryConnect(true)]));
            && next.activeRoom == LastBound(events + [e]) && next.activeRoom.Some? && !next.connectPending
            && next.audioOn && next.speakerOn
            && tried == next.(connectPending := true)
  {
    var (p, want) := (After(events), LastBound(events));
    RunKeepsInv(events);
    RunGrows(events, e);
    RunKeepsInv(events + [e]);
    var next := After(events + [e]);
    if e.ClickJoin? {
      JoinKeeps(p, e.room, e.sync, want);
    } else {
      CompletionKeeps(p, e.close, want);
    }
    RunGrows(events + [e], TryConnect(true));
  }

  /**
   A presence event takes the panel out of its room, without announcing anything, exactly when it says that this user has
   gone from that room to another or to none; any other changes nothing.
   */
  lemma MovedAwayExactly(events: seq<Event>, mine: bool, previous: string, room: string, sync: bool)
    requires IsRun(events) && Enabled(After(events), PresenceChanged(mine, previous, room, sync))
    ensures IsRun(events + [PresenceChanged(mine, previous, room, sync)])
    ensures var (p, next) := (After(events), After(events + [PresenceChanged(mine, previous, room, sync)]));
            if mine && p.activeRoom == Some(previous) && room != previous
            then next.activeRoom.None? && next.heartbeat.None? && next.session.mode != VS.Active && next.announced == p.announced
            else next == p
  {
    RunKeepsInv(events);
    RunGrows(events, PresenceChanged(mine, previous, room, sync));
    if mine && After(events).activeRoom == Some(previous) && room != previous {
      DisconnectKeeps(After(events), sync, LastBound(events));
    }
  }

  /** In a room that is active with its microphone on, asking for the microphone and being granted it gives the session the stream and announces the room. */
  lemma GrantedIsHeard(events: seq<Event>, room: string, h: VS.Handle)
    requires IsRun(events)
    requires var p := After(events);
             p.activeRoom == Some(room) && p.session.mode == VS.Active && p.audioOn && p.media == NoRequest
    ensures var asked := events + [AskMedia];
            && IsRun(asked) && IsRun(asked + [MediaAnswers(true, Some(h))]) && IsRun(asked + [MediaAnswers(true, Some(h))] + [MediaResumes])
            && var (p, next) := (After(events), After(asked + [MediaAnswers(true, Some(h))] + [MediaResumes]));
               next == p.(session := p.session.(stream := Some(h)), announced := p.announced + [room])
  {
    var p := After(events);
    RunKeepsInv(events);
    RunGrows(events, AskMedia);
    AskStep(p, room);
    var asked := events + [AskMedia];
    AnswerStep(After(asked), room, h);
    RunGrows(asked, MediaAnswers(true, Some(h)));
    ResumeStep(After(asked + [MediaAnswers(true, Some(h))]), room);
    RunGrows(asked + [MediaAnswers(true, Some(h))], MediaResumes);
  }

  lemma AskStep(p: Panel, room: string)
    requires Enabled(p, AskMedia) && p.activeRoom == Some(room) && p.audioOn && p.media == NoRequest
    ensures Post(p, AskMedia) == p.(media := Asked(room)) && CanClose(Post(p, AskMedia))
  {
  }

  lemma AnswerStep(p: Panel, room: string, h: VS.Handle)
    requires CanClose(p) && p.session.mode == VS.Active && p.session.room == room && p.media == Asked(room)
    ensures Enabled(p, MediaAnswers(true, Some(h)))
    ensures Post(p, MediaAnswers(true, Some(h))) == p.(session := p.session.(stream := Some(h)), media := Answered(room, true))
    ensures CanClose(Post(p, MediaAnswers(true, Some(h))))
  {
  }

  lemma ResumeStep(p: Panel, room: string)
    requires CanClose(p) && p.activeRoom == Some(room) && p.audioOn && p.media == Answered(room, true)
    ensures Enabled(p, MediaResumes)
    ensures Post(p, MediaResumes) == p.(media := NoRequest, announced := p.announced + [room])
  {
  }

  /** Such a step: the microphone button, pressed while the panel switches from "a" to "b", announces "a". */
  lemma MicrophoneAnnouncesTheOldRoom()
    ensures IsRun([JOIN_A, CONNECT_A, JOIN_B]) && IsRun([JOIN_A, CONNECT_A, JOIN_B] + [ClickMicrophone])
    ensures LastAsked([JOIN_A, CONNECT_A, JOIN_B]) == Some("b")
    ensures After([JOIN_A, CONNECT_A, JOIN_B] + [ClickMicrophone]).announced == After([JOIN_A, CONNECT_A, JOIN_B]).announced + ["a"]
  {
    SwitchingStillShowsTheOldRoom();
    RunKeepsInv([JOIN_A, CONNECT_A, JOIN_B]);
    AnnouncesOnlyWanted([JOIN_A, CONNECT_A, JOIN_B], ClickMicrophone);
  }
}
