/**
 The browser's voice session: one room at a time, and a close that may finish late, twice, or through its
 timer. A closure made by one close is the index of that close; a callback handed to the k-th close call is `k`.
 Every call made on an outside object, and every callback run, is recorded in `effects`.
 */
module VoiceSessions {
  import opened Outcomes

  datatype Mode = Idle | Active | Closing

  /** A stream, hub or swarm; `closable` is whether it has the function that releases it. */
  datatype Handle = Handle(id: nat, closable: bool)

  datatype Act =
    | StopStream(h: Handle)
    | SetTimer
    | CloseSwarm(h: Handle)
    | ClearTimer
    | CloseHub(h: Handle)

  datatype Effect =
    | ByClose(close: nat, act: Act)
    | Refusal(act: Act)
    | Run(callback: nat)

  /** What one close captured; its timer is set exactly when its swarm can be closed. */
  datatype Capture = Capture(stream: Option<Handle>, hub: Option<Handle>, swarm: Option<Handle>, completed: bool)

  /**
   `due` holds the callbacks a finished close is still running, innermost first; `owner[k]` is the close that
   callback `k` waits for. No room is the empty string.
   */
  datatype Session = Session(
    mode: Mode, room: string, stream: Option<Handle>, hub: Option<Handle>, swarm: Option<Handle>,
    cleanup: seq<nat>, closes: seq<Capture>, owner: seq<nat>, due: seq<nat>, effects: seq<Effect>)

  const FRESH := Session(Idle, "", None, None, None, [], [], [], [], [])

  // ---------- the methods, on values ----------

  predicate IsActive(s: Session, room: string) {
    s.mode == Active && s.room == room
  }

  function Started(s: Session, room: string): (Session, bool) {
    if room == "" || s.mode != Idle then (s, false) else (s.(room := room, mode := Active), true)
  }

  predicate Closable(h: Option<Handle>) {
    h.Some? && h.value.closable
  }

  function StopOf(stream: Option<Handle>): seq<Act> {
    if Closable(stream) then [StopStream(stream.value)] else []
  }

  function HubOf(hub: Option<Handle>): seq<Act> {
    if Closable(hub) then [CloseHub(hub.value)] else []
  }

  function SwarmOf(swarm: Option<Handle>): seq<Act> {
    if Closable(swarm) then [CloseSwarm(swarm.value)] else []
  }

  function Refusals(acts: seq<Act>): seq<Effect> {
    seq(|acts|, i requires 0 <= i < |acts| => Refusal(acts[i]))
  }

  function Acts(c: nat, acts: seq<Act>): seq<Effect> {
    seq(|acts|, i requires 0 <= i < |acts| => ByClose(c, acts[i]))
  }

  function StreamSet(s: Session, room: string, stream: Option<Handle>): (Session, bool) {
    if !IsActive(s, room) then
      (s.(effects := s.effects + Refusals(StopOf(stream))), false)
    else
      (s.(stream := stream), true)
  }

  function ConnectionSet(s: Session, room: string, hub: Option<Handle>, swarm: Option<Handle>): (Session, bool) {
    if !IsActive(s, room) then
      (s.(effects := s.effects + Refusals(HubOf(hub) + SwarmOf(swarm))), false)
    else
      (s.(hub := hub, swarm := swarm), true)
  }

  /** What became of a hub that connect waited for. */
  datatype Arrival =
    | NoSwarm
    | Ready(swarm: Handle, broken: bool)

  /**
   connect once its hub has arrived: it is given back unless the session is still active in the room. A swarm
   that breaks after it was installed has its hub closed under it.
   */
  function Connected(s: Session, room: string, hub: Handle, current: bool, arrival: Arrival): (Session, bool) {
    var refused := s.(effects := s.effects + Refusals(HubOf(Some(hub))));
    if !IsActive(s, room) || !current || arrival.NoSwarm? then
      (refused, false)
    else
      var (next, ok) := ConnectionSet(s, room, Some(hub), Some(arrival.swarm));
      if arrival.broken then (next.(effects := next.effects + Refusals(HubOf(Some(hub)))), false) else (next, ok)
  }

  /** The acts of one close: those it makes at once, and those its completion makes. */
  function AtOnce(c: Capture): seq<Act> {
    StopOf(c.stream) + if Closable(c.swarm) then [SetTimer, CloseSwarm(c.swarm.value)] else []
  }

  function OnCompletion(c: Capture): seq<Act> {
    (if Closable(c.swarm) then [ClearTimer] else []) + HubOf(c.hub)
  }

  /** close, up to the call on the swarm. */
  function CloseBegun(s: Session): Session
    requires s.mode == Closing ==> s.closes != []
  {
    var k := |s.owner|;
    if s.mode == Closing then
      s.(cleanup := s.cleanup + [k], owner := s.owner + [|s.closes| - 1])
    else
      var capture := Capture(s.stream, s.hub, s.swarm, false);
      s.(mode := Closing, room := "", stream := None, hub := None, swarm := None,
         cleanup := [k], owner := s.owner + [|s.closes|],
         closes := s.closes + [capture],
         effects := s.effects + Acts(|s.closes|, AtOnce(capture)))
  }

  /** The finish closure of close `c`, up to the running of the callbacks. */
  function Finished(s: Session, c: nat): Session
    requires c < |s.closes|
  {
    if s.closes[c].completed then
      s
    else
      s.(closes := s.closes[c := s.closes[c].(completed := true)],
         effects := s.effects + Acts(c, OnCompletion(s.closes[c])),
         mode := Idle, cleanup := [], due := s.cleanup + s.due)
  }

  /** close, with the completion it makes itself when there is no swarm that can be closed. */
  function Closed(s: Session): Session
    requires s.mode == Closing ==> s.closes != []
  {
    var begun := CloseBegun(s);
    if s.mode != Closing && !Closable(s.swarm) then Finished(begun, |s.closes|) else begun
  }

  function Ran(s: Session): Session
    requires s.due != []
  {
    s.(due := s.due[1..], effects := s.effects + [Run(s.due[0])])
  }

  // ---------- the object ----------

  class VoiceSession {
    var mode: Mode
    var room: string
    var stream: Option<Handle>
    var hub: Option<Handle>
    var swarm: Option<Handle>
    var cleanup: seq<nat>
    var closes: seq<Capture>
    var owner: seq<nat>
    var due: seq<nat>
    var effects: seq<Effect>

    function Value(): Session
      reads this
    {
      Session(mode, room, stream, hub, swarm, cleanup, closes, owner, due, effects)
    }

    constructor ()
      ensures Value() == FRESH
    {
      mode, room := Idle, "";
      stream, hub, swarm := None, None, None;
      cleanup, closes, owner, due, effects := [], [], [], [], [];
    }

    method Start(roomId: string) returns (ok: bool)
      modifies this
      ensures (Value(), ok) == Started(old(Value()), roomId)
    {
      if roomId == "" || mode != Idle {
        return false;
      }
      room := roomId;
      mode := Active;
      return true;
    }

    method Refuse(acts: seq<Act>)
      modifies this`effects
      ensures effects == old(effects) + Refusals(acts)
    {
      effects := effects + Refusals(acts);
    }

    method SetStream(roomId: string, s: Option<Handle>) returns (ok: bool)
      modifies this
      ensures (Value(), ok) == StreamSet(old(Value()), roomId, s)
    {
      if mode != Active || room != roomId {
        Refuse(StopOf(s));
        return false;
      }
      stream := s;
      return true;
    }

    method SetConnection(roomId: string, h: Option<Handle>, w: Option<Handle>) returns (ok: bool)
      modifies this
      ensures (Value(), ok) == ConnectionSet(old(Value()), roomId, h, w)
    {
      if mode != Active || room != roomId {
        Refuse(HubOf(h) + SwarmOf(w));
        return false;
      }
      hub := h;
      swarm := w;
      return true;
    }

    /** connect, from the arrival of its hub. */
    method Connect(roomId: string, h: Handle, current: bool, arrival: Arrival) returns (ok: bool)
      modifies this
      ensures (Value(), ok) == Connected(old(Value()), roomId, h, current, arrival)
    {
      if mode != Active || room != roomId || !current || arrival.NoSwarm? {
        Refuse(HubOf(Some(h)));
        return false;
      }
      ok := SetConnection(roomId, Some(h), Some(arrival.swarm));
      if arrival.broken {
        Refuse(HubOf(Some(h)));
        return false;
      }
    }

    /** close; the swarm and the timer call `Finish` later. */
    method Close()
      requires mode == Closing ==> closes != []
      modifies this
      ensures Value() == Closed(old(Value()))
    {
      var k := |owner|;
      if mode == Closing {
        cleanup := cleanup + [k];
        owner := owner + [|closes| - 1];
        return;
      }
      mode := Closing;
      cleanup := [k];
      var capture := Capture(stream, hub, swarm, false);
      var c := |closes|;
      stream, hub, swarm, room := None, None, None, "";
      owner := owner + [c];
      closes := closes + [capture];
      effects := effects + Acts(c, AtOnce(capture));
      if !Closable(capture.swarm) {
        Finish(c);
      }
    }

    /** The finish closure of close `c`. */
    method Finish(c: nat)
      requires c < |closes|
      modifies this
      ensures Value() == Finished(old(Value()), c)
    {
      if closes[c].completed {
        return;
      }
      effects := effects + Acts(c, OnCompletion(closes[c]));
      closes := closes[c := closes[c].(completed := true)];
      mode := Idle;
      var callbacks := cleanup;
      cleanup := [];
      due := callbacks + due;
    }

    /** The next turn of the loop over a finished close's callbacks. */
    method RunNext() returns (k: nat)
      requires due != []
      modifies this
      ensures Value() == Ran(old(Value())) && k == old(due[0])
    {
      k := due[0];
      due := due[1..];
      effects := effects + [Run(k)];
    }
  }

  // ---------- reading the record ----------

  /** What close `c` did, in order. */
  function ActsOf(effects: seq<Effect>, c: nat): seq<Act> {
    if effects == [] then [] else
    var last := effects[|effects| - 1];
    ActsOf(effects[..|effects| - 1], c) + if last.ByClose? && last.close == c then [last.act] else []
  }

  /** The callbacks that have run, in order. */
  function Runs(effects: seq<Effect>): seq<nat> {
    if effects == [] then [] else
    var last := effects[|effects| - 1];
    Runs(effects[..|effects| - 1]) + if last.Run? then [last.callback] else []
  }

  lemma {:induction false} AppendReads(e: seq<Effect>, f: seq<Effect>, c: nat)
    ensures ActsOf(e + f, c) == ActsOf(e, c) + ActsOf(f, c)
    ensures Runs(e + f) == Runs(e) + Runs(f)
  {
    if f == [] {
      assert e + f == e;
    } else {
      var n := |f| - 1;
      AppendReads(e, f[..n], c);
      assert (e + f)[..|e + f| - 1] == e + f[..n];
    }
  }

  lemma {:induction false} ActsRead(c: nat, acts: seq<Act>, d: nat)
    ensures ActsOf(Acts(c, acts), d) == if c == d then acts else []
    ensures Runs(Acts(c, acts)) == []
  {
    if acts != [] {
      var n := |acts| - 1;
      ActsRead(c, acts[..n], d);
      assert Acts(c, acts)[..n] == Acts(c, acts[..n]);
    }
  }

  lemma {:induction false} RefusalsRead(acts: seq<Act>, d: nat)
    ensures ActsOf(Refusals(acts), d) == [] && Runs(Refusals(acts)) == []
  {
    if acts != [] {
      var n := |acts| - 1;
      RefusalsRead(acts[..n], d);
      assert Refusals(acts)[..n] == Refusals(acts[..n]);
    }
  }

  // ---------- the invariant ----------

  /** Outside a room nothing is held; only the last close can be unfinished, and it is exactly while closing. */
  ghost predicate WellFormed(s: Session) {
    && (s.mode == Active <==> s.room != "")
    && (s.mode != Active ==> s.stream.None? && s.hub.None? && s.swarm.None?)
    && (s.mode == Closing ==> s.closes != [] && Closable(s.closes[|s.closes| - 1].swarm))
    && (s.mode != Closing ==> s.cleanup == [])
    && (forall c: nat :: c < |s.closes| ==> (s.closes[c].completed <==> s.mode != Closing || c < |s.closes| - 1))
  }

  /** How often callback `k` waits, is due or has run. */
  function Places(s: Session, k: nat): nat {
    multiset(Runs(s.effects))[k] + multiset(s.due)[k] + multiset(s.cleanup)[k]
  }

  /** Each callback is in one place. */
  ghost predicate Counted(s: Session) {
    forall k: nat :: Places(s, k) == if k < |s.owner| then 1 else 0
  }

  /** A callback waits exactly while the close it was handed to is unfinished. */
  ghost predicate Owned(s: Session) {
    && (forall k: nat :: k < |s.owner| ==> s.owner[k] < |s.closes|)
    && (forall k: nat :: k in s.cleanup ==> k < |s.owner|)
    && (forall k: nat :: k < |s.owner| ==> (k in s.cleanup <==> !s.closes[s.owner[k]].completed))
  }

  /** All that close `c` has done so far. */
  function Made(c: Capture): seq<Act> {
    AtOnce(c) + if c.completed then OnCompletion(c) else []
  }

  /** Close `c`, if there is one yet, did what it had to, once each and in order; no other close is recorded. */
  ghost predicate RecordedAt(s: Session, c: nat) {
    ActsOf(s.effects, c) == if c < |s.closes| then Made(s.closes[c]) else []
  }

  ghost predicate Recorded(s: Session) {
    forall c: nat :: RecordedAt(s, c)
  }

  /** The close that callback `k` waited for is finished, and had released all it captured before effect `j`. */
  ghost predicate ReleasedBefore(s: Session, j: nat, k: nat)
    requires j <= |s.effects|
  {
    && k < |s.owner| && s.owner[k] < |s.closes| && s.closes[s.owner[k]].completed
    && ActsOf(s.effects[..j], s.owner[k]) == Made(s.closes[s.owner[k]])
  }

  /** A callback runs only after its close has released all it captured. */
  ghost predicate ReleasedFirst(s: Session) {
    forall j: nat :: j < |s.effects| && s.effects[j].Run? ==> ReleasedBefore(s, j, s.effects[j].callback)
  }

  ghost predicate Inv(s: Session) {
    WellFormed(s) && Counted(s) && Owned(s) && Recorded(s) && ReleasedFirst(s)
  }

  // ---------- runs ----------

  datatype Step =
    | Start(room: string)
    | SetStream(room: string, stream: Option<Handle>)
    | SetConnection(room: string, hub: Option<Handle>, swarm: Option<Handle>)
    | Connect(room: string, arrived: Handle, current: bool, arrival: Arrival)
    | Close
    | Complete(close: nat)
    | RunCallback

  predicate Enabled(s: Session, step: Step) {
    && (step.Complete? ==> step.close < |s.closes|)
    && (step.RunCallback? ==> s.due != [])
    && (step.Close? && s.mode == Closing ==> s.closes != [])
  }

  function Post(s: Session, step: Step): Session
    requires Enabled(s, step)
  {
    match step
    case Start(room) => Started(s, room).0
    case SetStream(room, stream) => StreamSet(s, room, stream).0
    case SetConnection(room, hub, swarm) => ConnectionSet(s, room, hub, swarm).0
    case Connect(room, hub, current, arrival) => Connected(s, room, hub, current, arrival).0
    case Close => Closed(s)
    case Complete(c) => Finished(s, c)
    case RunCallback => Ran(s)
  }

  /** Effects that are no close's and run nothing. */
  lemma RefusalKeeps(s: Session, next: Session, acts: seq<Act>)
    requires Inv(s) && WellFormed(next) && next.closes == s.closes && next.owner == s.owner
    requires next.due == s.due && next.cleanup == s.cleanup && next.effects == s.effects + Refusals(acts)
    ensures Inv(next)
  {
    RefusalCounted(s, next, acts);
    Appended(s, next);
    forall c: nat ensures RecordedAt(next, c) {
      assert RecordedAt(s, c);
      AppendReads(s.effects, Refusals(acts), c);
      RefusalsRead(acts, c);
    }
  }

  lemma RefusalCounted(s: Session, next: Session, acts: seq<Act>)
    requires Counted(s) && next.owner == s.owner
    requires next.due == s.due && next.cleanup == s.cleanup && next.effects == s.effects + Refusals(acts)
    ensures Counted(next)
  {
    AppendReads(s.effects, Refusals(acts), 0);
    RefusalsRead(acts, 0);
    forall k: nat ensures Places(next, k) == if k < |next.owner| then 1 else 0 {
      assert Places(s, k) == if k < |s.owner| then 1 else 0;
    }
  }

  /** Adding effects that run nothing, and finishing closes that had run nothing, keeps what was released first. */
  lemma Appended(s: Session, next: Session)
    requires ReleasedFirst(s) && s.effects <= next.effects && s.owner <= next.owner
    requires forall j: nat :: |s.effects| <= j < |next.effects| ==> !next.effects[j].Run?
    requires forall c: nat :: c < |s.closes| && s.closes[c].completed ==> c < |next.closes| && next.closes[c] == s.closes[c]
    ensures ReleasedFirst(next)
  {
    forall j: nat | j < |next.effects| && next.effects[j].Run? ensures ReleasedBefore(next, j, next.effects[j].callback) {
      assert s.effects[j] == next.effects[j];
      assert ReleasedBefore(s, j, s.effects[j].callback);
      assert next.effects[..j] == s.effects[..j];
    }
  }

  lemma QueuedKeeps(s: Session)
    requires Inv(s) && s.mode == Closing
    ensures Inv(CloseBegun(s))
  {
    var next := CloseBegun(s);
    QueuedCounted(s);
    Appended(s, next);
    forall c: nat ensures RecordedAt(next, c) {
      assert RecordedAt(s, c);
    }
  }

  lemma QueuedCounted(s: Session)
    requires Counted(s) && s.mode == Closing && s.closes != []
    ensures Counted(CloseBegun(s))
  {
    forall k: nat ensures Places(CloseBegun(s), k) == if k < |CloseBegun(s).owner| then 1 else 0 {
      assert Places(s, k) == if k < |s.owner| then 1 else 0;
    }
  }

  /** One close's acts, added to the record. */
  lemma ActsAdded(effects: seq<Effect>, c: nat, acts: seq<Act>, d: nat)
    ensures ActsOf(effects + Acts(c, acts), d) == ActsOf(effects, d) + if c == d then acts else []
    ensures Runs(effects + Acts(c, acts)) == Runs(effects)
  {
    AppendReads(effects, Acts(c, acts), d);
    ActsRead(c, acts, d);
  }

  lemma BegunRecordedAt(s: Session, c: nat)
    requires RecordedAt(s, c) && s.mode != Closing
    requires c == |s.closes| ==> ActsOf(s.effects, c) == []
    ensures RecordedAt(CloseBegun(s), c)
  {
    var n := |s.closes|;
    ActsAdded(s.effects, n, AtOnce(CloseBegun(s).closes[n]), c);
  }

  lemma BegunRuns(s: Session)
    requires s.mode != Closing
    ensures Runs(CloseBegun(s).effects) == Runs(s.effects)
  {
    ActsAdded(s.effects, |s.closes|, AtOnce(CloseBegun(s).closes[|s.closes|]), 0);
  }

  /** What a close that starts from an open or idle session records. */
  lemma BegunRecorded(s: Session)
    requires Recorded(s) && s.mode != Closing
    ensures Recorded(CloseBegun(s))
  {
    forall c: nat ensures RecordedAt(CloseBegun(s), c) {
      assert RecordedAt(s, c);
      BegunRecordedAt(s, c);
    }
  }

  lemma BegunReleased(s: Session)
    requires ReleasedFirst(s) && s.mode != Closing
    ensures ReleasedFirst(CloseBegun(s))
  {
    Appended(s, CloseBegun(s));
  }

  lemma BegunCounted(s: Session)
    requires WellFormed(s) && Counted(s) && s.mode != Closing && Runs(CloseBegun(s).effects) == Runs(s.effects)
    ensures Counted(CloseBegun(s))
  {
    var next := CloseBegun(s);
    forall k: nat ensures Places(next, k) == if k < |next.owner| then 1 else 0 {
      assert Places(s, k) == if k < |s.owner| then 1 else 0;
    }
  }

  lemma BegunOwned(s: Session)
    requires WellFormed(s) && Owned(s) && s.mode != Closing
    ensures Owned(CloseBegun(s))
  {
  }

  lemma FinishedRecordedAt(s: Session, c: nat, d: nat)
    requires c < |s.closes| && !s.closes[c].completed && RecordedAt(s, d)
    ensures RecordedAt(Finished(s, c), d)
  {
    ActsAdded(s.effects, c, OnCompletion(s.closes[c]), d);
  }

  lemma FinishedRuns(s: Session, c: nat)
    requires c < |s.closes|
    ensures Runs(Finished(s, c).effects) == Runs(s.effects)
  {
    if !s.closes[c].completed {
      ActsAdded(s.effects, c, OnCompletion(s.closes[c]), 0);
    }
  }

  lemma FinishedRecorded(s: Session, c: nat)
    requires c < |s.closes| && !s.closes[c].completed && Recorded(s)
    ensures Recorded(Finished(s, c))
  {
    forall d: nat ensures RecordedAt(Finished(s, c), d) {
      assert RecordedAt(s, d);
      FinishedRecordedAt(s, c, d);
    }
  }

  lemma FinishedReleased(s: Session, c: nat)
    requires c < |s.closes| && !s.closes[c].completed && ReleasedFirst(s)
    ensures ReleasedFirst(Finished(s, c))
  {
    Appended(s, Finished(s, c));
  }

  lemma FinishedCounted(s: Session, c: nat)
    requires c < |s.closes| && !s.closes[c].completed && Counted(s) && Runs(Finished(s, c).effects) == Runs(s.effects)
    ensures Counted(Finished(s, c))
  {
    var next := Finished(s, c);
    forall k: nat ensures Places(next, k) == if k < |next.owner| then 1 else 0 {
      assert Places(s, k) == if k < |s.owner| then 1 else 0;
      assert multiset(next.due) == multiset(s.cleanup) + multiset(s.due);
    }
  }

  lemma FinishedOwned(s: Session, c: nat)
    requires c < |s.closes| && !s.closes[c].completed && Owned(s)
    requires forall d: nat :: d < |s.closes| && d != c ==> s.closes[d].completed
    ensures Owned(Finished(s, c))
  {
  }

  lemma BegunKeeps(s: Session)
    requires Inv(s) && s.mode != Closing
    ensures var next := CloseBegun(s); Counted(next) && Owned(next) && Recorded(next) && ReleasedFirst(next)
  {
    BegunRuns(s);
    BegunCounted(s);
    BegunOwned(s);
    BegunRecorded(s);
    BegunReleased(s);
  }

  /** Finishing the only close that is unfinished. */
  lemma FinishedKeeps(s: Session, c: nat)
    requires c < |s.closes| && !s.closes[c].completed && Counted(s) && Owned(s) && Recorded(s) && ReleasedFirst(s)
    requires forall d: nat :: d < |s.closes| && d != c ==> s.closes[d].completed
    ensures var next := Finished(s, c); Counted(next) && Owned(next) && Recorded(next) && ReleasedFirst(next)
  {
    FinishedRuns(s, c);
    FinishedCounted(s, c);
    FinishedOwned(s, c);
    FinishedRecorded(s, c);
    FinishedReleased(s, c);
  }

  lemma CloseKeeps(s: Session)
    requires Inv(s)
    ensures Inv(Closed(s))
  {
    if s.mode == Closing {
      QueuedKeeps(s);
    } else {
      BegunKeeps(s);
      if !Closable(s.swarm) {
        FinishedKeeps(CloseBegun(s), |s.closes|);
      }
    }
  }

  lemma CompleteKeeps(s: Session, c: nat)
    requires Inv(s) && c < |s.closes|
    ensures Inv(Finished(s, c))
  {
    if !s.closes[c].completed {
      FinishedKeeps(s, c);
    }
  }

  /** Of the callbacks that have run or are due, each one's close is finished. */
  lemma DueIsFinished(s: Session, k: nat)
    requires Counted(s) && Owned(s) && k in s.due
    ensures k < |s.owner| && s.closes[s.owner[k]].completed
  {
    assert Places(s, k) == if k < |s.owner| then 1 else 0;
    assert multiset(s.due)[k] > 0;
    assert k in s.cleanup ==> multiset(s.cleanup)[k] > 0;
  }

  lemma RanRecorded(s: Session)
    requires s.due != []
    ensures forall c: nat :: ActsOf(Ran(s).effects, c) == ActsOf(s.effects, c)
    ensures Runs(Ran(s).effects) == Runs(s.effects) + [s.due[0]]
  {
    forall c: nat ensures ActsOf(Ran(s).effects, c) == ActsOf(s.effects, c) {
      AppendReads(s.effects, [Run(s.due[0])], c);
    }
    AppendReads(s.effects, [Run(s.due[0])], 0);
    assert Runs([Run(s.due[0])]) == [s.due[0]];
  }

  lemma RanCounted(s: Session)
    requires s.due != [] && Counted(s)
    ensures Counted(Ran(s))
  {
    RanRecorded(s);
    assert s.due == [s.due[0]] + s.due[1..];
    forall k: nat ensures Places(Ran(s), k) == if k < |s.owner| then 1 else 0 {
      assert Places(s, k) == if k < |s.owner| then 1 else 0;
    }
  }

  lemma RanReleased(s: Session)
    requires s.due != [] && Inv(s)
    ensures ReleasedFirst(Ran(s))
  {
    var (next, k) := (Ran(s), s.due[0]);
    DueIsFinished(s, k);
    assert RecordedAt(s, s.owner[k]);
    forall j: nat | j < |next.effects| && next.effects[j].Run? ensures ReleasedBefore(next, j, next.effects[j].callback) {
      assert next.effects[..j] == s.effects[..j];
      if j == |s.effects| {
        assert s.effects[..j] == s.effects;
      } else {
        assert ReleasedBefore(s, j, s.effects[j].callback);
      }
    }
  }

  lemma RunKeeps(s: Session)
    requires Inv(s) && s.due != []
    ensures Inv(Ran(s))
  {
    RanRecorded(s);
    RanCounted(s);
    RanReleased(s);
    forall c: nat ensures RecordedAt(Ran(s), c) {
      assert RecordedAt(s, c);
    }
  }

  lemma RefusalKeepsNone(s: Session, next: Session)
    requires Inv(s) && WellFormed(next) && next.closes == s.closes && next.owner == s.owner
    requires next.due == s.due && next.cleanup == s.cleanup && next.effects == s.effects
    ensures Inv(next)
  {
    RefusalKeeps(s, next, []);
  }

  lemma HandleKeeps(s: Session, step: Step)
    requires Inv(s) && !step.Close? && !step.Complete? && !step.RunCallback?
    ensures Inv(Post(s, step))
  {
    var next := Post(s, step);
    match step {
      case Start(_) => RefusalKeepsNone(s, next);
      case SetStream(room, stream) =>
        if IsActive(s, room) { RefusalKeepsNone(s, next); } else { RefusalKeeps(s, next, StopOf(stream)); }
      case SetConnection(room, hub, swarm) =>
        if IsActive(s, room) { RefusalKeepsNone(s, next); } else { RefusalKeeps(s, next, HubOf(hub) + SwarmOf(swarm)); }
      case Connect(room, hub, current, arrival) =>
        if IsActive(s, room) && current && arrival.Ready? && !arrival.broken {
          RefusalKeepsNone(s, next);
        } else {
          RefusalKeeps(s, next, HubOf(Some(hub)));
        }
    }
  }

  lemma StepKeeps(s: Session, step: Step)
    requires Inv(s) && Enabled(s, step)
    ensures Inv(Post(s, step))
  {
    if step.Close? {
      CloseKeeps(s);
    } else if step.Complete? {
      CompleteKeeps(s, step.close);
    } else if step.RunCallback? {
      RunKeeps(s);
    } else {
      HandleKeeps(s, step);
    }
  }

  predicate IsRun(steps: seq<Step>)
    decreases |steps|, 0
  {
    steps == [] || var n := |steps| - 1; IsRun(steps[..n]) && Enabled(After(steps[..n]), steps[n])
  }

  /** The session after a run from a new one. */
  function After(steps: seq<Step>): Session
    requires IsRun(steps)
    decreases |steps|, 1
  {
    if steps == [] then FRESH else Post(After(steps[..|steps| - 1]), steps[|steps| - 1])
  }

  lemma {:induction false} RunKeepsInv(steps: seq<Step>)
    requires IsRun(steps)
    ensures Inv(After(steps))
    decreases |steps|
  {
    if steps != [] {
      var n := |steps| - 1;
      RunKeepsInv(steps[..n]);
      StepKeeps(After(steps[..n]), steps[n]);
    }
  }

  // ---------- what every run keeps ----------

  /** Outside an active room the session holds no stream, hub, swarm or room. */
  lemma InactiveHoldsNothing(steps: seq<Step>)
    requires IsRun(steps)
    ensures var s := After(steps);
            s.mode != Active ==> s.room == "" && s.stream.None? && s.hub.None? && s.swarm.None?
  {
    RunKeepsInv(steps);
  }

  /** Each callback given to close has run exactly once when its close is finished and nothing is due, and never before. */
  lemma CallbacksRunOnce(steps: seq<Step>, k: nat)
    requires IsRun(steps) && k < |After(steps).owner|
    ensures var s := After(steps);
            && s.owner[k] < |s.closes|
            && multiset(Runs(s.effects))[k] + multiset(s.due)[k] == (if s.closes[s.owner[k]].completed then 1 else 0)
            && (s.due == [] ==> multiset(Runs(s.effects))[k] == if s.closes[s.owner[k]].completed then 1 else 0)
  {
    RunKeepsInv(steps);
    var s := After(steps);
    assert Places(s, k) == 1;
    assert k in s.cleanup <==> multiset(s.cleanup)[k] > 0;
  }

  /** How often `acts` does `act`. */
  function Times(acts: seq<Act>, act: Act): nat {
    if acts == [] then 0 else Times(acts[..|acts| - 1], act) + if acts[|acts| - 1] == act then 1 else 0
  }

  lemma {:induction false} TimesAppend(a: seq<Act>, b: seq<Act>, act: Act)
    ensures Times(a + b, act) == Times(a, act) + Times(b, act)
  {
    if b == [] {
      assert a + b == a;
    } else {
      var n := |b| - 1;
      TimesAppend(a, b[..n], act);
      assert (a + b)[..|a + b| - 1] == a + b[..n];
    }
  }

  lemma TimesOne(a: Act, act: Act)
    ensures Times([a], act) == if a == act then 1 else 0
  {
    assert [a][..0] == [];
  }

  lemma TimesTwo(a: Act, b: Act, act: Act)
    ensures Times([a, b], act) == (if a == act then 1 else 0) + (if b == act then 1 else 0)
  {
    TimesAppend([a], [b], act);
    TimesOne(a, act);
    TimesOne(b, act);
    assert [a] + [b] == [a, b];
  }

  /** How `acts` releases one handle: as a captured stream or swarm once, as a captured hub `hubs` times, else never. */
  ghost predicate ReleasesHandle(acts: seq<Act>, c: Capture, hubs: nat, h: Handle) {
    && Times(acts, StopStream(h)) == (if c.stream == Some(h) && h.closable then 1 else 0)
    && Times(acts, CloseSwarm(h)) == (if c.swarm == Some(h) && h.closable then 1 else 0)
    && Times(acts, CloseHub(h)) == (if c.hub == Some(h) && h.closable then hubs else 0)
  }

  ghost predicate Releases(acts: seq<Act>, c: Capture, hubs: nat) {
    forall h :: ReleasesHandle(acts, c, hubs, h)
  }

  lemma MadeTimes(c: Capture, act: Act)
    ensures Times(Made(c), act) ==
            Times(StopOf(c.stream), act)
            + (if Closable(c.swarm) then Times([SetTimer, CloseSwarm(c.swarm.value)], act) else 0)
            + (if c.completed then (if Closable(c.swarm) then Times([ClearTimer], act) else 0) + Times(HubOf(c.hub), act) else 0)
  {
    TimesAppend(AtOnce(c), if c.completed then OnCompletion(c) else [], act);
    TimesAppend(StopOf(c.stream), if Closable(c.swarm) then [SetTimer, CloseSwarm(c.swarm.value)] else [], act);
    TimesAppend(if Closable(c.swarm) then [ClearTimer] else [], HubOf(c.hub), act);
  }

  lemma PartTimes(c: Capture, act: Act)
    ensures Times(StopOf(c.stream), act) == if Closable(c.stream) && act == StopStream(c.stream.value) then 1 else 0
    ensures Times(HubOf(c.hub), act) == if Closable(c.hub) && act == CloseHub(c.hub.value) then 1 else 0
    ensures Times([ClearTimer], act) == if act == ClearTimer then 1 else 0
    ensures Closable(c.swarm) ==>
              Times([SetTimer, CloseSwarm(c.swarm.value)], act) == if act == SetTimer || act == CloseSwarm(c.swarm.value) then 1 else 0
  {
    TimesOne(ClearTimer, act);
    if Closable(c.stream) {
      TimesOne(StopStream(c.stream.value), act);
    }
    if Closable(c.hub) {
      TimesOne(CloseHub(c.hub.value), act);
    }
    if Closable(c.swarm) {
      TimesTwo(SetTimer, CloseSwarm(c.swarm.value), act);
    }
  }

  function HubCloses(c: Capture): nat {
    if c.completed then 1 else 0
  }

  lemma MadeReleases(c: Capture)
    ensures Releases(Made(c), c, HubCloses(c))
  {
    var hubs := HubCloses(c);
    forall h ensures ReleasesHandle(Made(c), c, hubs, h) {
      MadeTimes(c, StopStream(h));
      PartTimes(c, StopStream(h));
      MadeTimes(c, CloseSwarm(h));
      PartTimes(c, CloseSwarm(h));
      MadeTimes(c, CloseHub(h));
      PartTimes(c, CloseHub(h));
    }
  }

  /**
   Close `c` stops the stream it captured and closes the swarm it captured exactly once, and closes the hub it
   captured exactly once when it completes; it releases nothing else.
   */
  lemma CaptureReleasedOnce(steps: seq<Step>, c: nat)
    requires IsRun(steps) && c < |After(steps).closes|
    ensures var capture := After(steps).closes[c];
            Releases(ActsOf(After(steps).effects, c), capture, HubCloses(capture))
  {
    RunKeepsInv(steps);
    assert RecordedAt(After(steps), c);
    MadeReleases(After(steps).closes[c]);
  }

  /** What a close captures is what the session held, and the session lets go of it. */
  lemma CaptureIsWhatWasHeld(s: Session)
    requires Inv(s) && s.mode != Closing
    ensures var (next, c) := (Closed(s), |s.closes|);
            && |next.closes| == c + 1 && next.owner == s.owner + [c]
            && next.closes[c].stream == s.stream && next.closes[c].hub == s.hub && next.closes[c].swarm == s.swarm
            && next.stream.None? && next.hub.None? && next.swarm.None? && next.room == ""
            && (next.mode == Closing <==> Closable(s.swarm))
  {
    CloseKeeps(s);
  }

  /** A session that is closing has its timer set and not cleared, so its close can always finish. */
  lemma ClosingHasTimer(steps: seq<Step>)
    requires IsRun(steps) && After(steps).mode == Closing
    ensures var s := After(steps);
            s.closes != [] && SetTimer in ActsOf(s.effects, |s.closes| - 1) && ClearTimer !in ActsOf(s.effects, |s.closes| - 1)
  {
    RunKeepsInv(steps);
    var s := After(steps);
    var c := s.closes[|s.closes| - 1];
    assert RecordedAt(s, |s.closes| - 1);
    assert Made(c) == StopOf(c.stream) + [SetTimer, CloseSwarm(c.swarm.value)];
    assert (StopOf(c.stream) + [SetTimer, CloseSwarm(c.swarm.value)])[|StopOf(c.stream)|] == SetTimer;
  }

  /** Unless the session is still in that very close, its completion arriving (again) changes nothing. */
  lemma LateCompletionIsNoOp(steps: seq<Step>, c: nat)
    requires IsRun(steps) && c < |After(steps).closes|
    requires After(steps).mode != Closing || c != |After(steps).closes| - 1
    ensures Finished(After(steps), c) == After(steps)
  {
    RunKeepsInv(steps);
  }

  /** By the time a callback runs, its close has stopped the stream and closed the swarm and the hub. */
  lemma CallbackRunsAfterRelease(steps: seq<Step>, j: nat)
    requires IsRun(steps) && j < |After(steps).effects| && After(steps).effects[j].Run?
    ensures var (s, k) := (After(steps), After(steps).effects[j].callback);
            && k < |s.owner| && s.owner[k] < |s.closes|
            && Releases(ActsOf(s.effects[..j], s.owner[k]), s.closes[s.owner[k]], 1)
  {
    RunKeepsInv(steps);
    var (s, k) := (After(steps), After(steps).effects[j].callback);
    assert ReleasedBefore(s, j, k);
    MadeReleases(s.closes[s.owner[k]]);
  }
}
