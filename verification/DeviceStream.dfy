/**
 * The device stream client of frontend/src/DevicePane.tsx: sockets, the reconnect backoff, decoder
 * generations with a failure budget, and one forwarded touch pointer. Every callback of the browser
 * is an event; the order of events is arbitrary.
 */
module DeviceStream {
  import opened Text

  const MAX_RECONNECT_ATTEMPTS: nat := 6
  const RECONNECT_BASE_DELAY_MS: nat := 500
  const RECONNECT_MAX_DELAY_MS: nat := 8000
  const MAX_DECODER_FAILURES: nat := 3
  const HEALTHY_PACKETS_TO_FORGIVE: nat := 120

  datatype ReadyState = Connecting | Open | Closing | Closed

  datatype Status = ShowConnecting | ShowOpen | ShowReconnecting | ShowFailed

  datatype Frame = Frame(width: nat, height: nat)

  datatype Point = Point(x: real, y: real)

  /** A pointer position in the page, with the canvas rectangle it is measured against. */
  datatype Pointer = Pointer(clientX: real, clientY: real, left: real, top: real, width: real, height: real)

  datatype Kind = TouchDown | TouchMove | TouchUp

  /** A touch message. `gesture` numbers the pointerdown it belongs to; it is not sent. */
  datatype Touch = Touch(kind: Kind, at: Point, frame: Frame, gesture: nat)

  /** A packet handed to the writer of one decoder generation by one socket, not settled yet. */
  datatype Write = Write(socket: nat, generation: nat, keyframe: bool)

  /** What the pointer handlers read and write, with the record of what was handed to an open socket. */
  datatype Hand = Hand(
    video: Frame,
    canvas: Frame,
    active: Option<int>,
    lastPoint: Point,
    pending: Option<Touch>,
    sent: seq<Touch>,
    gestures: seq<Frame>  // the video size at each pointerdown
  )

  datatype State = State(
    destroyed: bool,
    ws: Option<nat>,
    sockets: seq<ReadyState>,
    timer: bool,
    attempt: nat,
    dead: bool,
    failures: nat,
    healthy: nat,
    generation: nat,
    writes: multiset<Write>,
    status: Status,
    hasFrame: bool,
    hand: Hand,
    connects: nat,  // since the last open or retry
    delay: nat  // milliseconds of backoff since then
  )

  datatype Event =
    | SocketOpened(id: nat)
    | SocketClosed(id: nat)
    | ServerFailed(id: nat)  // an `exited` or `error` control message
    | VideoPacket(id: nat, keyframe: bool)
    | WriteDone(write: Write)
    | WriteFailed(write: Write)
    | TimerFired
    | Retry
    | PointerDown(pointer: int, primary: bool, position: Pointer)
    | PointerMove(pointer: int, position: Pointer)
    | PointerEnd(pointer: int, position: Pointer)  // pointerup, pointercancel, lostpointercapture
    | WindowBlur
    | SizeChanged(frame: Frame)
    | CanvasResized(frame: Frame)
    | Unmount

  // ----- The event handlers as functions of the state -----

  function StateOf(sockets: seq<ReadyState>, id: nat): ReadyState {
    if id < |sockets| then sockets[id] else Closed
  }

  predicate CurrentOpen(s: State) {
    s.ws.Some? && StateOf(s.sockets, s.ws.value) == Open
  }

  /** No current socket, or one that `close` was called on or that has gone. */
  predicate CurrentDown(s: State) {
    s.ws.None? || StateOf(s.sockets, s.ws.value) in {Closing, Closed}
  }

  /** `close()` on a socket. */
  function Hangup(sockets: seq<ReadyState>, id: nat): (r: seq<ReadyState>)
    ensures |r| == |sockets|
    ensures forall i :: 0 <= i < |sockets| && i != id ==> r[i] == sockets[i]
    ensures StateOf(r, id) in {Closing, Closed}
  {
    if id < |sockets| && sockets[id] != Closed then sockets[id := Closing] else sockets
  }

  function TouchFrame(h: Hand): Frame {
    Frame(if h.video.width != 0 then h.video.width else h.canvas.width,
          if h.video.height != 0 then h.video.height else h.canvas.height)
  }

  function Clamp(v: real, size: nat): (r: real)
    ensures size >= 1 ==> 0.0 <= r <= size as real - 1.0
  {
    var low := if v < size as real - 1.0 then v else size as real - 1.0;
    if low > 0.0 then low else 0.0
  }

  function CanvasPoint(h: Hand, p: Pointer): Point {
    var f := TouchFrame(h);
    Point(OnAxis(p.clientX - p.left, p.width, f.width), OnAxis(p.clientY - p.top, p.height, f.height))
  }

  /** The offset `v` in an extent of the page, scaled to the frame and kept inside it. */
  function OnAxis(v: real, extent: real, size: nat): (r: real)
    ensures size >= 1 ==> 0.0 <= r <= size as real - 1.0
  {
    var scale := if extent > 0.0 then size as real / extent else 1.0;
    Clamp(v * scale, size)
  }

  function MakeTouch(h: Hand, kind: Kind, at: Point): Touch {
    Touch(kind, at, TouchFrame(h), if h.gestures == [] then 0 else |h.gestures| - 1)
  }

  function SendTouch(h: Hand, open: bool, kind: Kind, at: Point): (r: Hand)
    ensures r.video == h.video && r.canvas == h.canvas
  {
    var touch := MakeTouch(h, kind, at);
    if open then h.(sent := h.sent + [touch], pending := if kind == TouchUp then None else h.pending)
    else if kind == TouchUp then h.(pending := Some(touch))
    else h
  }

  function ReleaseAt(h: Hand, open: bool, at: Point): (r: Hand)
    ensures r.video == h.video && r.canvas == h.canvas
  {
    if h.active.None? then h else SendTouch(h.(active := None, lastPoint := at), open, TouchUp, at)
  }

  function Release(h: Hand, open: bool): Hand {
    ReleaseAt(h, open, h.lastPoint)
  }

  /** Hand over the deferred touchUp when the current socket opens. */
  function Flush(h: Hand): Hand {
    if h.pending.Some? then h.(sent := h.sent + [h.pending.value], pending := None) else h
  }

  /** The part of `connect` that runs while the previous socket is not closed. */
  function DropSocket(s: State): State {
    if s.ws.Some? && StateOf(s.sockets, s.ws.value) != Closed then
      s.(hand := Release(s.hand, CurrentOpen(s)), sockets := Hangup(s.sockets, s.ws.value))
    else s
  }

  function Connect(s: State): State {
    if s.destroyed then s
    else
      var r := DropSocket(s);
      r.(generation := if r.dead then r.generation + 1 else r.generation,
         dead := false,
         hasFrame := false,
         status := if r.attempt == 0 then ShowConnecting else ShowReconnecting,
         sockets := r.sockets + [Connecting],
         ws := Some(|r.sockets|),
         connects := r.connects + 1)
  }

  function Backoff(attempt: nat): nat {
    var d := RECONNECT_BASE_DELAY_MS * Pow2(attempt);
    if d < RECONNECT_MAX_DELAY_MS then d else RECONNECT_MAX_DELAY_MS
  }

  function OnOpen(s0: State, id: nat): State
    requires id < |s0.sockets|
  {
    var s := s0.(sockets := s0.sockets[id := Open], attempt := 0, connects := 1, delay := 0);
    if s.ws != Some(id) then s else s.(hand := Flush(s.hand), status := ShowOpen)
  }

  function OnClose(s0: State, id: nat): State
    requires id < |s0.sockets|
  {
    var s := s0.(sockets := s0.sockets[id := Closed]);
    if s.ws != Some(id) then s
    else
      var r := s.(hand := Release(s.hand, CurrentOpen(s)));
      if r.destroyed then r
      else if r.attempt >= MAX_RECONNECT_ATTEMPTS then r.(status := ShowFailed)
      else r.(timer := true, attempt := r.attempt + 1, delay := r.delay + Backoff(r.attempt))
  }

  function OnServerFailed(s: State, id: nat): State {
    if s.ws != Some(id) then s else s.(status := ShowFailed, sockets := Hangup(s.sockets, id))
  }

  function OnVideoPacket(s: State, id: nat, keyframe: bool): State {
    if s.ws != Some(id) || s.dead then s
    else s.(writes := Issue(s.writes, Write(id, s.generation, keyframe)))
  }

  function Settle(writes: multiset<Write>, w: Write): multiset<Write> {
    writes - multiset{w}
  }

  function Issue(writes: multiset<Write>, w: Write): multiset<Write> {
    writes + multiset{w}
  }

  function OnWriteDone(s0: State, w: Write): State {
    var s := s0.(writes := Settle(s0.writes, w));
    if s.destroyed || s.ws != Some(w.socket) || w.generation != s.generation || s.dead then s
    else
      var forgiven := s.healthy + 1 >= HEALTHY_PACKETS_TO_FORGIVE;
      s.(healthy := if forgiven then 0 else s.healthy + 1,
         failures := if forgiven then 0 else s.failures,
         hasFrame := s.hasFrame || w.keyframe)
  }

  /** The rejection is not ignored: it comes from the live decoder of a mounted pane. */
  predicate Counts(s: State, w: Write) {
    !s.destroyed && w.generation == s.generation && !s.dead
  }

  function OnWriteFailed(s0: State, w: Write): State {
    var s := s0.(writes := Settle(s0.writes, w));
    if !Counts(s, w) then s
    else
      var r := s.(dead := true, healthy := 0, failures := s.failures + 1, hasFrame := false,
                  sockets := Hangup(s.sockets, w.socket));
      if r.failures >= MAX_DECODER_FAILURES then r.(ws := None, status := ShowFailed) else r
  }

  function OnRetry(s: State): State {
    if s.destroyed then s
    else Connect(s.(timer := false, attempt := 0, failures := 0, connects := 0, delay := 0))
  }

  function OnPointerDown(h: Hand, open: bool, pointer: int, primary: bool, p: Pointer): Hand {
    if h.active.Some? || !primary then h
    else
      var r := h.(active := Some(pointer), gestures := h.gestures + [h.video], lastPoint := CanvasPoint(h, p));
      SendTouch(r, open, TouchDown, r.lastPoint)
  }

  function OnPointerMove(h: Hand, open: bool, pointer: int, p: Pointer): Hand {
    if h.active != Some(pointer) then h
    else
      var r := h.(lastPoint := CanvasPoint(h, p));
      SendTouch(r, open, TouchMove, r.lastPoint)
  }

  function OnPointerEnd(h: Hand, open: bool, pointer: int, p: Pointer): Hand {
    if h.active != Some(pointer) then h else ReleaseAt(h, open, CanvasPoint(h, p))
  }

  function OnSizeChanged(h: Hand, open: bool, f: Frame): Hand {
    (if h.video != f then Release(h, open) else h).(video := f)
  }

  /** Events that only concern the pointer and the sizes it is scaled by. */
  function OnInput(h: Hand, open: bool, e: Event): Hand
    requires IsInput(e)
  {
    match e
    case PointerDown(pointer, primary, p) => OnPointerDown(h, open, pointer, primary, p)
    case PointerMove(pointer, p) => OnPointerMove(h, open, pointer, p)
    case PointerEnd(pointer, p) => OnPointerEnd(h, open, pointer, p)
    case WindowBlur => Release(h, open)
    case SizeChanged(f) => OnSizeChanged(h, open, f)
    case CanvasResized(f) => h.(canvas := f)
  }

  predicate IsInput(e: Event) {
    e.PointerDown? || e.PointerMove? || e.PointerEnd? || e.WindowBlur? || e.SizeChanged? || e.CanvasResized?
  }

  /** Unmounting removes these listeners. */
  predicate IsListener(e: Event) {
    e.PointerDown? || e.PointerMove? || e.PointerEnd? || e.WindowBlur?
  }

  function OnUnmount(s: State): State {
    if s.destroyed then s
    else
      var r := s.(destroyed := true, timer := false, hand := Release(s.hand, CurrentOpen(s)));
      if r.ws.Some? then r.(sockets := Hangup(r.sockets, r.ws.value)) else r
  }

  /** Which events the browser can deliver. */
  predicate Enabled(s: State, e: Event) {
    match e
    case SocketOpened(id) => id < |s.sockets| && s.sockets[id] == Connecting
    case SocketClosed(id) => id < |s.sockets| && s.sockets[id] != Closed
    case ServerFailed(id) => StateOf(s.sockets, id) == Open
    case VideoPacket(id, _) => StateOf(s.sockets, id) == Open
    case WriteDone(w) => w in s.writes
    case WriteFailed(w) => w in s.writes
    case TimerFired => s.timer
    case _ => true
  }

  function Step(s: State, e: Event): State
    requires Enabled(s, e)
  {
    match e
    case SocketOpened(id) => OnOpen(s, id)
    case SocketClosed(id) => OnClose(s, id)
    case ServerFailed(id) => OnServerFailed(s, id)
    case VideoPacket(id, keyframe) => OnVideoPacket(s, id, keyframe)
    case WriteDone(w) => OnWriteDone(s, w)
    case WriteFailed(w) => OnWriteFailed(s, w)
    case TimerFired => Connect(s.(timer := false))
    case Retry => OnRetry(s)
    case Unmount => OnUnmount(s)
    case _ => if s.destroyed && IsListener(e) then s else s.(hand := OnInput(s.hand, CurrentOpen(s), e))
  }

  /** The state right after mounting: a fresh decoder and the first connect. */
  function Mounted(canvas: Frame): State {
    var hand := Hand(Frame(0, 0), canvas, None, Point(0.0, 0.0), None, [], []);
    Connect(State(false, None, [], false, 0, false, 0, 0, 0, multiset{}, ShowConnecting, false, hand, 0, 0))
  }

  predicate Legal(s: State, es: seq<Event>)
    decreases |es|
  {
    es == [] || (Enabled(s, es[0]) && Legal(Step(s, es[0]), es[1..]))
  }

  function Run(s: State, es: seq<Event>): State
    requires Legal(s, es)
    decreases |es|
  {
    if es == [] then s else Run(Step(s, es[0]), es[1..])
  }

  lemma {:induction false} RunAppend(s: State, es: seq<Event>, e: Event)
    requires Legal(s, es) && Enabled(Run(s, es), e)
    ensures Legal(s, es + [e]) && Run(s, es + [e]) == Step(Run(s, es), e)
    decreases |es|
  {
    hide Step, Enabled;
    if es == [] {
      assert es + [e] == [e];
    } else {
      assert (es + [e])[1..] == es[1..] + [e];
      RunAppend(Step(s, es[0]), es[1..], e);
    }
  }

  // ----- No stuck finger, and one frame per gesture -----

  predicate DownsSeparated(sent: seq<Touch>) {
    forall i, j :: 0 <= i < j < |sent| && sent[i].kind == TouchDown && sent[j].kind == TouchDown ==>
      exists k :: i < k < j && sent[k].kind == TouchUp
  }

  predicate FingerUp(sent: seq<Touch>) {
    sent == [] || sent[|sent| - 1].kind == TouchUp
  }

  predicate KnownFrame(f: Frame) { f.width >= 1 && f.height >= 1 }

  predicate Inside(at: Point, f: Frame) {
    0.0 <= at.x <= f.width as real - 1.0 && 0.0 <= at.y <= f.height as real - 1.0
  }

  /** The touch has the frame size of its gesture's pointerdown and lies inside it, if that size was known. */
  predicate TouchFits(t: Touch, gestures: seq<Frame>) {
    t.gesture < |gestures| &&
    (KnownFrame(gestures[t.gesture]) ==> t.frame == gestures[t.gesture] && Inside(t.at, t.frame))
  }

  /** Touches of different gestures never interleave. */
  predicate InGestureOrder(sent: seq<Touch>) {
    forall i, j :: 0 <= i < j < |sent| ==> sent[i].gesture <= sent[j].gesture
  }

  /** The point `at` may be sent now as part of the latest gesture. */
  predicate FitsNow(h: Hand, at: Point) {
    h.gestures != [] &&
    (KnownFrame(h.gestures[|h.gestures| - 1]) ==> h.video == h.gestures[|h.gestures| - 1] && Inside(at, h.video))
  }

  /** What holds of the touches already sent. */
  predicate SentInv(sent: seq<Touch>, gestures: seq<Frame>) {
    && DownsSeparated(sent)
    && InGestureOrder(sent)
    && forall i :: 0 <= i < |sent| ==> TouchFits(sent[i], gestures)
  }

  /** `t` may be the next touch sent. */
  predicate MayFollow(sent: seq<Touch>, t: Touch) {
    (t.kind == TouchDown ==> FingerUp(sent)) && (sent != [] ==> sent[|sent| - 1].gesture <= t.gesture)
  }

  predicate HandInv(h: Hand, open: bool) {
    && SentInv(h.sent, h.gestures)
    && (h.pending.Some? ==>
          !open && h.pending.value.kind == TouchUp && TouchFits(h.pending.value, h.gestures) &&
          MayFollow(h.sent, h.pending.value))
    && (h.active.Some? ==> FitsNow(h, h.lastPoint))
    && (!FingerUp(h.sent) ==> h.active.Some? || h.pending.Some?)
  }

  lemma SentInvExtends(sent: seq<Touch>, t: Touch, gestures: seq<Frame>)
    requires SentInv(sent, gestures) && TouchFits(t, gestures) && MayFollow(sent, t)
    ensures SentInv(sent + [t], gestures)
  {
    hide TouchFits;
    var r := sent + [t];
    forall i, j | 0 <= i < j < |r| && r[i].kind == TouchDown && r[j].kind == TouchDown
      ensures exists k :: i < k < j && r[k].kind == TouchUp
    {
      if j == |sent| {
        assert i < |sent| - 1 < j && r[|sent| - 1].kind == TouchUp;
      } else {
        assert sent[i] == r[i] && sent[j] == r[j];
        var k :| i < k < j && sent[k].kind == TouchUp;
        assert r[k].kind == TouchUp;
      }
    }
  }

  /** Sending anything that fits: a touchDown only from a raised finger, a move only while active. */
  lemma SendKeepsHandInv(h: Hand, open: bool, kind: Kind, at: Point)
    requires SentInv(h.sent, h.gestures) && FitsNow(h, at)
    requires h.active.Some? ==> FitsNow(h, h.lastPoint)
    requires h.pending.Some? ==>
               !open && h.pending.value.kind == TouchUp && TouchFits(h.pending.value, h.gestures) &&
               MayFollow(h.sent, h.pending.value)
    requires kind == TouchDown && open ==> FingerUp(h.sent)
    requires kind != TouchUp ==> h.active.Some?
    ensures HandInv(SendTouch(h, open, kind, at), open)
  {
    hide DownsSeparated, InGestureOrder;
    var t := MakeTouch(h, kind, at);
    assert TouchFits(t, h.gestures);
    if h.sent != [] {
      assert TouchFits(h.sent[|h.sent| - 1], h.gestures);
    }
    if open { SentInvExtends(h.sent, t, h.gestures); }
  }

  lemma ReleaseKeepsHandInv(h: Hand, open: bool, at: Point)
    requires HandInv(h, open) && (h.active.Some? ==> FitsNow(h, at))
    ensures HandInv(ReleaseAt(h, open, at), open) && ReleaseAt(h, open, at).active.None?
  {
    hide SentInv, TouchFits, MayFollow, FingerUp;
    if h.active.Some? {
      SendKeepsHandInv(h.(active := None, lastPoint := at), open, TouchUp, at);
    }
  }

  lemma PointerDownKeepsHandInv(h: Hand, open: bool, pointer: int, p: Pointer)
    requires HandInv(h, open) && h.active.None?
    ensures HandInv(OnPointerDown(h, open, pointer, true, p), open)
  {
    var at := CanvasPoint(h, p);
    var r := h.(active := Some(pointer), gestures := h.gestures + [h.video], lastPoint := at);
    assert FitsNow(r, at);
    assert SentInv(r.sent, r.gestures) by {
      forall i | 0 <= i < |r.sent| ensures TouchFits(r.sent[i], r.gestures) {
        assert TouchFits(h.sent[i], h.gestures);
      }
    }
    hide SentInv, FitsNow, CanvasPoint, FingerUp, SendTouch, MayFollow;
    SendKeepsHandInv(r, open, TouchDown, at);
  }

  lemma InputKeepsHandInv(h: Hand, open: bool, e: Event)
    requires HandInv(h, open) && IsInput(e)
    ensures HandInv(OnInput(h, open, e), open)
  {
    hide SentInv, TouchFits, MayFollow, FingerUp, SendTouch, ReleaseAt;
    match e
    case PointerDown(pointer, primary, p) =>
      if h.active.None? && primary { PointerDownKeepsHandInv(h, open, pointer, p); }
    case PointerMove(pointer, p) =>
      if h.active == Some(pointer) {
        var at := CanvasPoint(h, p);
        SendKeepsHandInv(h.(lastPoint := at), open, TouchMove, at);
      }
    case PointerEnd(pointer, p) =>
      if h.active == Some(pointer) { ReleaseKeepsHandInv(h, open, CanvasPoint(h, p)); }
    case CanvasResized(f) =>
    case _ => ReleaseKeepsHandInv(h, open, h.lastPoint);
  }

  lemma FlushKeepsHandInv(h: Hand)
    requires HandInv(h, false)
    ensures HandInv(Flush(h), true)
  {
    hide TouchFits;
    if h.pending.Some? { SentInvExtends(h.sent, h.pending.value, h.gestures); }
  }

  /** Nothing about the hand depends on the socket staying open. */
  lemma HandInvWithoutSocket(h: Hand, open: bool)
    requires HandInv(h, open)
    ensures HandInv(h, false)
  {}

  lemma ConnectKeepsHandInv(s: State)
    requires HandInv(s.hand, CurrentOpen(s))
    ensures HandInv(Connect(s).hand, CurrentOpen(Connect(s)))
  {
    hide HandInv;
    ReleaseKeeps(s.hand, CurrentOpen(s));
    HandInvWithoutSocket(Connect(s).hand, CurrentOpen(s));
  }

  lemma ReleaseKeeps(h: Hand, open: bool)
    requires HandInv(h, open)
    ensures HandInv(Release(h, open), open) && HandInv(Release(h, open), false)
  {
    hide SentInv, TouchFits, MayFollow, FingerUp, FitsNow, ReleaseAt;
    ReleaseKeepsHandInv(h, open, h.lastPoint);
  }

  predicate StateHandInv(s: State) {
    HandInv(s.hand, CurrentOpen(s))
  }

  lemma SocketEventsKeepHandInv(s: State, id: nat)
    requires StateHandInv(s) && id < |s.sockets|
    ensures s.sockets[id] == Connecting ==> StateHandInv(OnOpen(s, id))
    ensures s.sockets[id] != Closed ==> StateHandInv(OnClose(s, id))
  {
    hide HandInv, Release, Flush, Backoff;
    HandInvWithoutSocket(s.hand, CurrentOpen(s));
    FlushKeepsHandInv(s.hand);
    ReleaseKeeps(s.hand, false);
  }

  lemma HangupsKeepHandInv(s: State, id: nat, w: Write)
    requires StateHandInv(s)
    ensures StateHandInv(OnServerFailed(s, id))
    ensures StateHandInv(OnWriteFailed(s, w))
  {
    hide HandInv, Settle;
    HandInvWithoutSocket(s.hand, CurrentOpen(s));
  }

  lemma UnmountKeepsHandInv(s: State)
    requires StateHandInv(s)
    ensures StateHandInv(OnUnmount(s))
  {
    hide HandInv, Release;
    ReleaseKeeps(s.hand, CurrentOpen(s));
  }

  lemma StepKeepsHandInv(s: State, e: Event)
    requires StateHandInv(s) && Enabled(s, e)
    ensures StateHandInv(Step(s, e))
  {
    hide HandInv, OnOpen, OnClose, OnServerFailed, OnWriteFailed, OnUnmount, OnInput, Connect, IsListener;
    match e
    case SocketOpened(id) => SocketEventsKeepHandInv(s, id);
    case SocketClosed(id) => SocketEventsKeepHandInv(s, id);
    case ServerFailed(id) => HangupsKeepHandInv(s, id, Write(0, 0, false));
    case WriteFailed(w) => HangupsKeepHandInv(s, 0, w);
    case Unmount => UnmountKeepsHandInv(s);
    case TimerFired => ConnectKeepsHandInv(s.(timer := false));
    case Retry => ConnectKeepsHandInv(s.(timer := false, attempt := 0, failures := 0, connects := 0, delay := 0));
    case VideoPacket(id, keyframe) =>
    case WriteDone(w) =>
    case _ => InputKeepsHandInv(s.hand, CurrentOpen(s), e);
  }

  lemma {:induction false} RunKeepsHandInv(s: State, es: seq<Event>)
    requires StateHandInv(s) && Legal(s, es)
    ensures StateHandInv(Run(s, es))
    decreases |es|
  {
    hide StateHandInv, Step, Enabled;
    if es != [] {
      StepKeepsHandInv(s, es[0]);
      RunKeepsHandInv(Step(s, es[0]), es[1..]);
    }
  }

  /**
   * In every run across sockets, reconnects and retries: a finger left down on the device is still
   * held or has its touchUp waiting, a waiting touchUp never coexists with an open socket, and two
   * touchDowns always have a touchUp between them.
   */
  lemma NoStuckFinger(canvas: Frame, es: seq<Event>)
    requires Legal(Mounted(canvas), es)
    ensures var s := Run(Mounted(canvas), es);
            && (!FingerUp(s.hand.sent) ==> s.hand.active.Some? || s.hand.pending.Some?)
            && (s.hand.pending.Some? ==> !CurrentOpen(s))
            && (CurrentOpen(s) && s.hand.active.None? ==> FingerUp(s.hand.sent))
            && DownsSeparated(s.hand.sent)
  {
    RunKeepsHandInv(Mounted(canvas), es);
  }

  /**
   * In every run, each touch sent carries the frame size seen at its gesture's pointerdown and lies
   * inside it, provided that size was known, and gestures do not interleave.
   */
  lemma OneFramePerGesture(canvas: Frame, es: seq<Event>)
    requires Legal(Mounted(canvas), es)
    ensures var h := Run(Mounted(canvas), es).hand;
            && InGestureOrder(h.sent)
            && forall i :: 0 <= i < |h.sent| ==>
                 && h.sent[i].gesture < |h.gestures|
                 && var frame := h.gestures[h.sent[i].gesture];
                    KnownFrame(frame) ==> h.sent[i].frame == frame && Inside(h.sent[i].at, frame)
  {
    RunKeepsHandInv(Mounted(canvas), es);
  }
}
