/**
 * Where touches land: what the device is sent follows the pointer, on every run of the device stream
 * client, whatever happens to the sockets in between.
 */
module DeviceTouches {
  import opened Text
  import opened DeviceStream

  // ----- From the page to the frame -----

  /**
   * On one axis, `x` is the place in a frame of `size` that corresponds to the offset `v` in an extent:
   * in proportion, within the frame. Without an extent there is nothing to scale by.
   */
  predicate AxisLands(v: real, extent: real, size: nat, x: real) {
    var last := size as real - 1.0;
    if size == 0 || v < 0.0 then x == 0.0
    else if extent > 0.0 then
      (if v * size as real <= last * extent then x * extent == v * size as real else x == last)
    else (if v <= last then x == v else x == last)
  }

  predicate Lands(frame: Frame, p: Pointer, at: Point) {
    && AxisLands(p.clientX - p.left, p.width, frame.width, at.x)
    && AxisLands(p.clientY - p.top, p.height, frame.height, at.y)
  }

  lemma ClampLands(v: real, extent: real, size: nat)
    ensures AxisLands(v, extent, size, OnAxis(v, extent, size))
  {
    if extent > 0.0 {
      var scaled := v * (size as real / extent);
      Unscale(v, size as real, extent);
      CompareScaled(scaled, size as real - 1.0, extent);
      if v < 0.0 { NegativeStays(v, size as real / extent); }
      if v >= 0.0 { PositiveStays(v, size as real / extent); }
    }
  }

  lemma Unscale(v: real, size: real, extent: real)
    requires extent > 0.0
    ensures v * (size / extent) * extent == v * size
  {
    assert size / extent * extent == size;
  }

  lemma CompareScaled(a: real, b: real, extent: real)
    requires extent > 0.0
    ensures a <= b <==> a * extent <= b * extent
  {}

  lemma NegativeStays(v: real, scale: real)
    requires v < 0.0 && scale >= 0.0
    ensures v * scale <= 0.0
  {}

  lemma PositiveStays(v: real, scale: real)
    requires v >= 0.0 && scale >= 0.0
    ensures v * scale >= 0.0
  {}

  lemma CanvasPointLands(h: Hand, p: Pointer)
    ensures Lands(TouchFrame(h), p, CanvasPoint(h, p))
  {
    hide OnAxis, AxisLands, TouchFrame;
    var frame := TouchFrame(h);
    ClampLands(p.clientX - p.left, p.width, frame.width);
    ClampLands(p.clientY - p.top, p.height, frame.height);
  }

  // ----- The sizes in force -----

  /** The video size of the last size change, unknown before the first one. */
  function VideoSize(es: seq<Event>): Frame {
    if es == [] then Frame(0, 0)
    else match es[|es| - 1] case SizeChanged(f) => f case _ => VideoSize(es[..|es| - 1])
  }

  function CanvasSize(canvas: Frame, es: seq<Event>): Frame {
    if es == [] then canvas
    else match es[|es| - 1] case CanvasResized(f) => f case _ => CanvasSize(canvas, es[..|es| - 1])
  }

  /** The frame touches are measured in: each dimension of the video, or of the canvas while unknown. */
  function FrameInForce(canvas: Frame, es: seq<Event>): Frame {
    var video, size := VideoSize(es), CanvasSize(canvas, es);
    Frame(if video.width > 0 then video.width else size.width, if video.height > 0 then video.height else size.height)
  }

  lemma {:induction false} RunSplitLast(s: State, es: seq<Event>)
    requires Legal(s, es) && es != []
    ensures Legal(s, es[..|es| - 1]) && Enabled(Run(s, es[..|es| - 1]), es[|es| - 1])
    ensures Run(s, es) == Step(Run(s, es[..|es| - 1]), es[|es| - 1])
    decreases |es|
  {
    hide Step, Enabled;
    if |es| > 1 {
      RunSplitLast(Step(s, es[0]), es[1..]);
      assert es[1..][..|es| - 2] == es[..|es| - 1][1..];
    } else {
      assert es[..0] == [];
      assert Legal(Step(s, es[0]), es[1..]) && es[1..] == [];
    }
  }

  lemma StepSizes(s: State, e: Event)
    requires Enabled(s, e)
    ensures Step(s, e).hand.video == if e.SizeChanged? then e.frame else s.hand.video
    ensures Step(s, e).hand.canvas == if e.CanvasResized? then e.frame else s.hand.canvas
  {
    hide CanvasPoint, MakeTouch, SendTouch, ReleaseAt, Hangup, Backoff, Settle, Issue, TouchFrame, StateOf;
  }

  lemma {:induction false} SizesFollow(canvas: Frame, es: seq<Event>)
    requires Legal(Mounted(canvas), es)
    ensures Run(Mounted(canvas), es).hand.video == VideoSize(es)
    ensures Run(Mounted(canvas), es).hand.canvas == CanvasSize(canvas, es)
    decreases |es|
  {
    if es != [] {
      hide Step, Enabled, Mounted, Legal, Run;
      RunSplitLast(Mounted(canvas), es);
      var before := es[..|es| - 1];
      SizesFollow(canvas, before);
      StepSizes(Run(Mounted(canvas), before), es[|es| - 1]);
    }
  }

  // ----- One step of a run -----

  /** A primary pointer goes down on an idle pane, or the pointer that is down moves or ends. */
  predicate Accepts(s: State, e: Event) {
    match e
    case PointerDown(_, primary, _) => !s.destroyed && primary && s.hand.active.None?
    case PointerMove(pointer, _) => !s.destroyed && s.hand.active == Some(pointer)
    case PointerEnd(pointer, _) => !s.destroyed && s.hand.active == Some(pointer)
    case _ => false
  }

  function KindOf(e: Event): Kind
    requires e.PointerDown? || e.PointerMove? || e.PointerEnd?
  {
    if e.PointerDown? then TouchDown else if e.PointerMove? then TouchMove else TouchUp
  }

  /** The touch is handed over when the socket is open; otherwise a touchUp waits and others are lost. */
  predicate HandsOver(h: Hand, r: Hand, open: bool, t: Touch) {
    if open then r.sent == h.sent + [t] && r.pending == (if t.kind == TouchUp then None else h.pending)
    else r.sent == h.sent && r.pending == if t.kind == TouchUp then Some(t) else h.pending
  }

  /** The gesture a touch belongs to: a pointerdown begins the next one. */
  function GestureOf(h: Hand, e: Event): nat {
    if e.PointerDown? then |h.gestures| else if h.gestures == [] then 0 else |h.gestures| - 1
  }

  /** An accepted pointer event is sent on as a touch of its kind, at the image of its own position. */
  predicate FollowsPointer(s: State, r: State, e: Event, frame: Frame)
    requires Accepts(s, e)
  {
    && Lands(frame, e.position, r.hand.lastPoint)
    && r.hand.active == (if e.PointerEnd? then None else Some(e.pointer))
    && HandsOver(s.hand, r.hand, CurrentOpen(s), Touch(KindOf(e), r.hand.lastPoint, frame, GestureOf(s.hand, e)))
  }

  /** Without one, a held pointer stays as it is, or is released where it last was; a closing socket takes nothing. */
  predicate KeepsOrReleases(s: State, r: State, e: Event, frame: Frame) {
    var h, g := s.hand, r.hand;
    if h.active.Some? && g.active.None? then
      g.lastPoint == h.lastPoint && HandsOver(h, g, CurrentOpen(s) && !e.SocketClosed?, Touch(TouchUp, h.lastPoint, frame, GestureOf(h, e)))
    else
      && g.active == h.active && g.lastPoint == h.lastPoint
      && (if e.SocketOpened? && s.ws == Some(e.id) && h.pending.Some? then
            g.sent == h.sent + [h.pending.value] && g.pending == None
          else g.sent == h.sent && g.pending == h.pending)
  }

  /** What loses the pointer: the socket, the window, the frame it is measured in, or the pane itself. */
  predicate Loses(s: State, e: Event) {
    match e
    case SocketClosed(id) => s.ws == Some(id)
    case TimerFired => !s.destroyed && s.ws.Some? && StateOf(s.sockets, s.ws.value) != Closed
    case Retry => !s.destroyed && s.ws.Some? && StateOf(s.sockets, s.ws.value) != Closed
    case WindowBlur => !s.destroyed
    case SizeChanged(f) => f != s.hand.video
    case Unmount => !s.destroyed
    case _ => false
  }

  lemma InputFollows(s: State, e: Event)
    requires Accepts(s, e)
    ensures FollowsPointer(s, Step(s, e), e, TouchFrame(s.hand))
  {
    CanvasPointLands(s.hand, e.position);
    StepIsInput(s, e);
    hide CanvasPoint, Lands, Step, TouchFrame;
  }

  lemma StepIsInput(s: State, e: Event)
    requires Accepts(s, e)
    ensures Step(s, e) == s.(hand := OnInput(s.hand, CurrentOpen(s), e))
  {
    hide OnInput;
  }

  lemma OthersKeepOrRelease(s: State, e: Event)
    requires Enabled(s, e) && !Accepts(s, e)
    ensures KeepsOrReleases(s, Step(s, e), e, TouchFrame(s.hand))
    ensures s.hand.active.Some? ==> (Step(s, e).hand.active.None? <==> Loses(s, e))
  {
    hide CanvasPoint, Hangup, Backoff, Settle, Issue, TouchFrame;
    if IsInput(e) {
      InputKeepsOrReleases(s, e);
    } else if e.SocketClosed? || e.TimerFired? || e.Retry? || e.Unmount? {
      LossKeepsOrReleases(s, e);
    }
    hide SendTouch;
  }

  lemma InputKeepsOrReleases(s: State, e: Event)
    requires Enabled(s, e) && !Accepts(s, e) && IsInput(e)
    ensures KeepsOrReleases(s, Step(s, e), e, TouchFrame(s.hand))
    ensures s.hand.active.Some? ==> (Step(s, e).hand.active.None? <==> Loses(s, e))
  {
    hide CanvasPoint;
  }

  lemma LossKeepsOrReleases(s: State, e: Event)
    requires Enabled(s, e) && (e.SocketClosed? || e.TimerFired? || e.Retry? || e.Unmount?)
    ensures KeepsOrReleases(s, Step(s, e), e, TouchFrame(s.hand))
    ensures s.hand.active.Some? ==> (Step(s, e).hand.active.None? <==> Loses(s, e))
  {
    ReleaseReleases(s.hand, CurrentOpen(s) && !e.SocketClosed?, e);
    hide CanvasPoint, Hangup, Backoff, Settle, Issue, SendTouch, HandsOver, TouchFrame, ReleaseAt;
  }

  /** Giving up a held pointer where it last was. */
  lemma ReleaseReleases(h: Hand, open: bool, e: Event)
    ensures Release(h, open).active == None && Release(h, open).lastPoint == h.lastPoint
    ensures h.active.None? ==> Release(h, open) == h
    ensures h.active.Some? && !e.PointerDown? ==>
              HandsOver(h, Release(h, open), open, Touch(TouchUp, h.lastPoint, TouchFrame(h), GestureOf(h, e)))
  {}

  /**
   * Touches follow the pointer, in every run: an accepted pointerdown, move or end is sent as a touch at
   * the image of its own position in the frame then in force; anything else leaves a held pointer where
   * it was, or releases it there, and which of the two depends on the event alone; and nothing else is sent.
   */
  lemma TouchesFollowPointer(canvas: Frame, es: seq<Event>, e: Event)
    requires Legal(Mounted(canvas), es) && Enabled(Run(Mounted(canvas), es), e)
    ensures var s := Run(Mounted(canvas), es);
            var r := Step(s, e);
            && (Accepts(s, e) ==> FollowsPointer(s, r, e, FrameInForce(canvas, es)))
            && (!Accepts(s, e) ==> KeepsOrReleases(s, r, e, FrameInForce(canvas, es)))
            && (!Accepts(s, e) && s.hand.active.Some? ==> (r.hand.active.None? <==> Loses(s, e)))
  {
    var s := Run(Mounted(canvas), es);
    SizesFollow(canvas, es);
    assert TouchFrame(s.hand) == FrameInForce(canvas, es);
    if Accepts(s, e) { InputFollows(s, e); } else { OthersKeepOrRelease(s, e); }
  }
}
