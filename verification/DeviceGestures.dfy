/**
 * A finger that went down through one socket of the device stream leaves with that socket: when it
 * closes or is replaced, the pointer is released before anything can be sent through another one.
 */
module DeviceGestures {
  import opened Text
  import opened DeviceStream

  /** The stream with an observer who notes the socket that the held pointer's touchDown went through. */
  datatype Watched = Watched(s: State, downOn: Option<nat>)

  function Watch(w: Watched, e: Event): Watched
    requires Enabled(w.s, e)
  {
    var r := Step(w.s, e);
    Watched(r, if r.hand.active.None? then None
               else if w.s.hand.active.None? then (if CurrentOpen(w.s) then w.s.ws else None)
               else w.downOn)
  }

  /** The socket the finger went down through is still the current one, and has not gone. */
  predicate HeldInv(w: Watched) {
    w.downOn.Some? ==>
      w.s.hand.active.Some? && w.s.ws == w.downOn && StateOf(w.s.sockets, w.downOn.value) in {Open, Closing}
  }

  /** The decoder fails for the third time while the finger is down, which detaches the socket without a close. */
  predicate DetachesFinger(w: Watched, e: Event) {
    e.WriteFailed? && Counts(w.s, e.write) && w.s.failures + 1 >= MAX_DECODER_FAILURES && w.downOn.Some?
  }

  lemma ReleaseEmpties(h: Hand, open: bool, at: Point)
    ensures ReleaseAt(h, open, at).active.None?
  {}

  lemma ConnectReleases(s: State)
    requires s.ws.Some? && StateOf(s.sockets, s.ws.value) != Closed && !s.destroyed
    ensures Connect(s).hand.active.None?
  {
    ReleaseEmpties(s.hand, CurrentOpen(s), s.hand.lastPoint);
  }

  lemma CloseReleases(w: Watched, id: nat)
    requires HeldInv(w) && Enabled(w.s, SocketClosed(id))
    ensures HeldInv(Watch(w, SocketClosed(id)))
  {
    hide ReleaseAt, Backoff;
    ReleaseEmpties(w.s.hand, false, w.s.hand.lastPoint);
  }

  lemma RejectionKeepsHeldInvIff(w: Watched, write: Write)
    requires HeldInv(w) && Enabled(w.s, WriteFailed(write))
    ensures HeldInv(Watch(w, WriteFailed(write))) <==> !DetachesFinger(w, WriteFailed(write))
  {
    hide Settle;
  }

  lemma ConnectsKeepHeldInv(w: Watched, e: Event)
    requires HeldInv(w) && Enabled(w.s, e) && (e == TimerFired || e == Retry)
    ensures HeldInv(Watch(w, e))
  {
    if w.downOn.Some? && !w.s.destroyed {
      ConnectReleases(w.s.(timer := false));
      ConnectReleases(w.s.(timer := false, attempt := 0, failures := 0, connects := 0, delay := 0));
    }
    hide ReleaseAt;
  }

  lemma InputKeepsHeldInv(w: Watched, e: Event)
    requires HeldInv(w) && Enabled(w.s, e) && IsInput(e)
    ensures HeldInv(Watch(w, e))
  {
    hide CanvasPoint, SendTouch, ReleaseAt;
  }

  lemma OtherKeepsHeldInv(w: Watched, e: Event)
    requires HeldInv(w) && Enabled(w.s, e)
    requires e.SocketOpened? || e.ServerFailed? || e.VideoPacket? || e.WriteDone? || e.Unmount?
    ensures HeldInv(Watch(w, e))
  {
    ReleaseEmpties(w.s.hand, CurrentOpen(w.s), w.s.hand.lastPoint);
    hide ReleaseAt, Settle, Issue;
  }

  /** Every step keeps finger and socket together, except exactly the third decoder failure of a held finger. */
  lemma StepKeepsHeldInvIff(w: Watched, e: Event)
    requires HeldInv(w) && Enabled(w.s, e)
    ensures HeldInv(Watch(w, e)) <==> !DetachesFinger(w, e)
  {
    hide HeldInv, Watch, Enabled;
    match e
    case SocketClosed(id) => CloseReleases(w, id);
    case WriteFailed(write) => RejectionKeepsHeldInvIff(w, write);
    case TimerFired => ConnectsKeepHeldInv(w, e);
    case Retry => ConnectsKeepHeldInv(w, e);
    case _ =>
      if IsInput(e) { InputKeepsHeldInv(w, e); } else { OtherKeepsHeldInv(w, e); }
  }

  predicate Legal(w: Watched, es: seq<Event>)
    decreases |es|
  {
    es == [] || (Enabled(w.s, es[0]) && Legal(Watch(w, es[0]), es[1..]))
  }

  function Run(w: Watched, es: seq<Event>): Watched
    requires Legal(w, es)
    decreases |es|
  {
    if es == [] then w else Run(Watch(w, es[0]), es[1..])
  }

  predicate NeverDetaches(w: Watched, es: seq<Event>)
    requires Legal(w, es)
    decreases |es|
  {
    es == [] || (!DetachesFinger(w, es[0]) && NeverDetaches(Watch(w, es[0]), es[1..]))
  }

  /**
   * In every run without a third decoder failure under a held finger, a finger that went down
   * through a socket is held only while that socket is current and has not closed.
   */
  lemma {:induction false} FingerLeavesWithSocket(w: Watched, es: seq<Event>)
    requires HeldInv(w) && Legal(w, es) && NeverDetaches(w, es)
    ensures var r := Run(w, es);
            r.downOn.Some? ==>
              r.s.hand.active.Some? && r.s.ws == r.downOn &&
              StateOf(r.s.sockets, r.downOn.value) in {Open, Closing}
    decreases |es|
  {
    if es == [] {
      assert Run(w, es) == w;
    } else {
      StepKeepsHeldInvIff(w, es[0]);
      hide Watch, Enabled, DetachesFinger, HeldInv;
      FingerLeavesWithSocket(Watch(w, es[0]), es[1..]);
    }
  }

  // ----- The run in which finger and socket come apart -----

  lemma {:induction false} RunAppend(w: Watched, es: seq<Event>, e: Event)
    requires Legal(w, es) && Enabled(Run(w, es).s, e)
    ensures Legal(w, es + [e]) && Run(w, es + [e]) == Watch(Run(w, es), e)
    decreases |es|
  {
    hide Watch, Enabled;
    if es == [] {
      assert es + [e] == [e];
    } else {
      assert (es + [e])[1..] == es[1..] + [e];
      RunAppend(Watch(w, es[0]), es[1..], e);
    }
  }

  /** Socket `i` is connecting to a decoder of its own, and `i` decoders have failed before it. */
  predicate AboutToOpen(w: Watched, i: nat) {
    && w.s.ws == Some(i) && |w.s.sockets| == i + 1 && w.s.sockets[i] == Connecting
    && w.s.generation == i && w.s.failures == i && !w.s.dead && !w.s.destroyed
    && w.s.hand.active.None? && w.downOn.None?
  }

  /** One decoder failure and the reconnect it causes. */
  lemma FailOnce(m: Watched, es: seq<Event>, i: nat) returns (r: seq<Event>)
    requires Legal(m, es) && AboutToOpen(Run(m, es), i) && i < 2
    ensures Legal(m, r) && AboutToOpen(Run(m, r), i + 1)
  {
    hide Legal, Run, SendTouch, Backoff, OnInput, OnUnmount;
    var write := Write(i, i, true);
    r := es;
    RunAppend(m, r, SocketOpened(i)); r := r + [SocketOpened(i)];
    RunAppend(m, r, VideoPacket(i, true)); r := r + [VideoPacket(i, true)];
    RunAppend(m, r, WriteFailed(write)); r := r + [WriteFailed(write)];
    RunAppend(m, r, SocketClosed(i)); r := r + [SocketClosed(i)];
    RunAppend(m, r, TimerFired); r := r + [TimerFired];
  }

  /**
   * From mounting: two decoders fail, the third socket opens, a finger goes down, and the third decoder
   * fails. The pointer is still held, the device was never sent a touchUp, and there is no socket.
   */
  lemma ThirdFailureDetachesFinger(canvas: Frame, pointer: int, p: Pointer) returns (es: seq<Event>)
    ensures var m := Watched(Mounted(canvas), None);
            && Legal(m, es)
            && var r := Run(m, es);
               && !HeldInv(r) && r.downOn == Some(2) && r.s.ws == None && r.s.status == ShowFailed
               && r.s.hand.active == Some(pointer) && r.s.hand.pending.None? && !FingerUp(r.s.hand.sent)
  {
    var m := Watched(Mounted(canvas), None);
    FirstAboutToOpen(canvas);
    hide Legal, Run, Mounted, HeldInv, AboutToOpen;
    es := FailOnce(m, [], 0);
    es := FailOnce(m, es, 1);
    es := HoldAndFail(m, es, pointer, p);
  }

  lemma FirstAboutToOpen(canvas: Frame)
    ensures var m := Watched(Mounted(canvas), None);
            Legal(m, []) && Run(m, []) == m && AboutToOpen(m, 0) && m.s.hand.pending.None?
  {}

  lemma HoldAndFail(m: Watched, es: seq<Event>, pointer: int, p: Pointer) returns (r: seq<Event>)
    requires Legal(m, es) && AboutToOpen(Run(m, es), 2)
    ensures Legal(m, r)
    ensures var w := Run(m, r);
            && !HeldInv(w) && w.downOn == Some(2) && w.s.ws == None && w.s.status == ShowFailed
            && w.s.hand.active == Some(pointer) && w.s.hand.pending.None? && !FingerUp(w.s.hand.sent)
  {
    hide Legal, Run, CanvasPoint, TouchFrame, Backoff, OnUnmount;
    var write := Write(2, 2, true);
    r := es;
    RunAppend(m, r, SocketOpened(2)); r := r + [SocketOpened(2)];
    RunAppend(m, r, PointerDown(pointer, true, p)); r := r + [PointerDown(pointer, true, p)];
    assert Run(m, r).downOn == Some(2);
    RunAppend(m, r, VideoPacket(2, true)); r := r + [VideoPacket(2, true)];
    RunAppend(m, r, WriteFailed(write)); r := r + [WriteFailed(write)];
  }
}
