/** Sockets, backoff and the decoder's failure budget: what every run of the device stream keeps. */
module DeviceSockets {
  import opened Text
  import opened DeviceStream

  /** Backoff delays of the first `n` reconnects, in milliseconds. */
  function TotalBackoff(n: nat): nat {
    if n == 0 then 0 else TotalBackoff(n - 1) + Backoff(n - 1)
  }

  /** No attempt is under way: nothing is connected, connecting, closing or scheduled. */
  predicate Idle(s: State) {
    !s.timer && (s.ws.None? || StateOf(s.sockets, s.ws.value) == Closed)
  }

  predicate OthersClosed(s: State) {
    forall i :: 0 <= i < |s.sockets| && s.ws != Some(i) ==> s.sockets[i] == Closing || s.sockets[i] == Closed
  }

  predicate SocketInv(s: State) {
    && (s.ws.Some? ==> s.ws.value < |s.sockets|)
    && OthersClosed(s)
    && (s.dead ==> CurrentDown(s))
    && (s.timer ==> s.ws.Some? && StateOf(s.sockets, s.ws.value) == Closed && !s.destroyed)
    && s.failures <= MAX_DECODER_FAILURES
    && (s.failures == MAX_DECODER_FAILURES ==> s.ws.None? && s.dead)
    && (s.ws.None? ==> s.failures == MAX_DECODER_FAILURES && !s.timer)
    && s.healthy < HEALTHY_PACKETS_TO_FORGIVE
    && (s.hasFrame ==> s.ws.Some? && !s.dead)
    && s.attempt <= MAX_RECONNECT_ATTEMPTS
    && (!s.destroyed ==> s.connects == s.attempt + (if s.timer then 0 else 1) && s.delay == TotalBackoff(s.attempt))
    && (!s.destroyed && Idle(s) ==>
          s.status == ShowFailed && (s.ws.Some? ==> s.attempt == MAX_RECONNECT_ATTEMPTS))
  }

  /**
   * The rejected write may be acted on: the current socket is the write's own or is already down,
   * and a third failure does not find a reconnect scheduled.
   */
  predicate SafeToFail(s: State, w: Write) {
    Counts(s, w) ==>
      && (CurrentDown(s) || s.ws == Some(w.socket))
      && (s.failures + 1 >= MAX_DECODER_FAILURES ==> !s.timer)
  }

  lemma ConnectKeepsSocketInv(s: State)
    requires s.ws.Some? ==> s.ws.value < |s.sockets|
    requires OthersClosed(s) && !s.timer && s.failures < MAX_DECODER_FAILURES
    requires s.healthy < HEALTHY_PACKETS_TO_FORGIVE && s.attempt <= MAX_RECONNECT_ATTEMPTS && !s.destroyed
    requires s.connects == s.attempt && s.delay == TotalBackoff(s.attempt)
    ensures SocketInv(Connect(s))
  {
    hide TotalBackoff, Release;
  }

  lemma OpenKeepsSocketInv(s: State, id: nat)
    requires SocketInv(s) && id < |s.sockets| && s.sockets[id] == Connecting
    ensures SocketInv(OnOpen(s, id))
  {
    hide Flush;
  }

  lemma CloseKeepsSocketInv(s: State, id: nat)
    requires SocketInv(s) && id < |s.sockets| && s.sockets[id] != Closed
    ensures SocketInv(OnClose(s, id))
  {
    hide Release, Backoff;
  }

  lemma MessagesKeepSocketInv(s: State, id: nat, keyframe: bool)
    requires SocketInv(s) && StateOf(s.sockets, id) == Open
    ensures SocketInv(OnServerFailed(s, id)) && SocketInv(OnVideoPacket(s, id, keyframe))
  {
    hide TotalBackoff;
  }

  lemma WriteDoneKeepsSocketInv(s: State, w: Write)
    requires SocketInv(s)
    ensures SocketInv(OnWriteDone(s, w))
  {
    hide TotalBackoff;
  }

  lemma SafeFailureKeepsSocketInv(s: State, w: Write)
    requires SocketInv(s) && SafeToFail(s, w)
    ensures SocketInv(OnWriteFailed(s, w))
  {
    hide TotalBackoff;
  }

  lemma UnsafeFailureBreaksSocketInv(s: State, w: Write)
    requires SocketInv(s) && !SafeToFail(s, w)
    ensures !SocketInv(OnWriteFailed(s, w))
  {
    hide TotalBackoff;
    var r := OnWriteFailed(s, w);
    if !CurrentDown(s) && s.ws != Some(w.socket) {
      assert r.sockets[s.ws.value] == s.sockets[s.ws.value];
    }
  }

  /** Acting on a rejected write keeps the invariant exactly when it is safe to. */
  lemma WriteFailedKeepsSocketInvIff(s: State, w: Write)
    requires SocketInv(s)
    ensures SocketInv(OnWriteFailed(s, w)) <==> SafeToFail(s, w)
  {
    hide SocketInv, SafeToFail, OnWriteFailed;
    if SafeToFail(s, w) {
      SafeFailureKeepsSocketInv(s, w);
    } else {
      UnsafeFailureBreaksSocketInv(s, w);
    }
  }

  lemma UnmountKeepsSocketInv(s: State)
    requires SocketInv(s)
    ensures SocketInv(OnUnmount(s))
  {
    hide TotalBackoff, Release;
  }

  lemma StepKeepsSocketInv(s: State, e: Event)
    requires SocketInv(s) && Enabled(s, e) && (e.WriteFailed? ==> SafeToFail(s, e.write))
    ensures SocketInv(Step(s, e))
  {
    assert TotalBackoff(0) == 0;
    hide TotalBackoff, OnOpen, OnClose, OnServerFailed, OnVideoPacket;
    hide OnWriteDone, OnWriteFailed, OnUnmount, Connect, OnInput;
    match e
    case SocketOpened(id) => OpenKeepsSocketInv(s, id);
    case SocketClosed(id) => CloseKeepsSocketInv(s, id);
    case ServerFailed(id) => MessagesKeepSocketInv(s, id, false);
    case VideoPacket(id, keyframe) => MessagesKeepSocketInv(s, id, keyframe);
    case WriteDone(w) => WriteDoneKeepsSocketInv(s, w);
    case WriteFailed(w) => WriteFailedKeepsSocketInvIff(s, w);
    case TimerFired => ConnectKeepsSocketInv(s.(timer := false));
    case Retry =>
      if !s.destroyed {
        ConnectKeepsSocketInv(s.(timer := false, attempt := 0, failures := 0, connects := 0, delay := 0));
      }
    case Unmount => UnmountKeepsSocketInv(s);
    case _ =>
  }

  // ----- Whole runs -----

  /** Every rejection in the run arrives when it is safe to act on. */
  predicate Settled(s: State, es: seq<Event>)
    requires Legal(s, es)
    decreases |es|
  {
    es == [] ||
    ((es[0].WriteFailed? ==> SafeToFail(s, es[0].write)) && Settled(Step(s, es[0]), es[1..]))
  }

  lemma {:induction false} RunKeepsSocketInv(s: State, es: seq<Event>)
    requires SocketInv(s) && Legal(s, es) && Settled(s, es)
    ensures SocketInv(Run(s, es))
    decreases |es|
  {
    hide SocketInv, Step, Enabled, SafeToFail;
    if es != [] {
      StepKeepsSocketInv(s, es[0]);
      RunKeepsSocketInv(Step(s, es[0]), es[1..]);
    }
  }

  lemma BackoffBound(n: nat)
    requires n <= MAX_RECONNECT_ATTEMPTS
    ensures TotalBackoff(n) <= TotalBackoff(MAX_RECONNECT_ATTEMPTS) == 23500
  {
    assert Pow2(1) == 2 && Pow2(2) == 4 && Pow2(3) == 8;
    assert Pow2(4) == 16 && Pow2(5) == 32;
    assert TotalBackoff(1) == 500 && TotalBackoff(2) == 1500 && TotalBackoff(3) == 3500;
    assert TotalBackoff(4) == 7500 && TotalBackoff(5) == 15500 && TotalBackoff(6) == 23500;
  }

  /**
   * In every settled run: only the current socket can be alive; a dead decoder never has a live
   * socket; a backoff chain without an open makes at most 7 connects and waits at most 23.5 s; the
   * failure budget is 3; and a mounted pane that has stopped trying says so.
   */
  lemma BoundedRecovery(canvas: Frame, es: seq<Event>)
    requires Legal(Mounted(canvas), es) && Settled(Mounted(canvas), es)
    ensures var s := Run(Mounted(canvas), es);
            && (forall i :: 0 <= i < |s.sockets| && s.ws != Some(i) ==> s.sockets[i] == Closing || s.sockets[i] == Closed)
            && (s.dead ==> CurrentDown(s) && !s.hasFrame)
            && s.failures <= 3
            && (s.failures == 3 ==> Idle(s))
            && (!s.destroyed ==> s.connects <= 7 && s.delay <= 23500)
            && (!s.destroyed && Idle(s) ==> s.status == ShowFailed)
  {
    ConnectKeepsSocketInv(Mounted(canvas).(ws := None, sockets := [], connects := 0));
    RunKeepsSocketInv(Mounted(canvas), es);
    var s := Run(Mounted(canvas), es);
    BackoffBound(s.attempt);
  }

  /** Once it has stopped trying, nothing but Retry makes the pane connect or change what it shows. */
  lemma {:induction false} StoppedUntilRetry(s: State, es: seq<Event>)
    requires SocketInv(s) && Idle(s) && Legal(s, es) && Retry !in es
    ensures var r := Run(s, es);
            Idle(r) && |r.sockets| == |s.sockets| && r.status == s.status
    decreases |es|
  {
    hide TotalBackoff, OnInput, Release;
    if es != [] {
      StepKeepsIdle(s, es[0]);
      StepKeepsSocketInv(s, es[0]);
      StoppedUntilRetry(Step(s, es[0]), es[1..]);
    }
  }

  lemma StepKeepsIdle(s: State, e: Event)
    requires SocketInv(s) && Idle(s) && Enabled(s, e) && e != Retry
    ensures var r := Step(s, e);
            Idle(r) && |r.sockets| == |s.sockets| && r.status == s.status
    ensures e.WriteFailed? ==> SafeToFail(s, e.write)
  {
    hide TotalBackoff, OnInput, Release, Flush, Backoff;
  }

  // ----- The failure budget, counted over a run -----

  /** The event forgives past failures: the 120th clean packet in a row, or a retry. */
  predicate Pardons(s: State, e: Event)
    requires Enabled(s, e)
  {
    Step(s, e).failures < s.failures
  }

  predicate NoPardon(s: State, es: seq<Event>)
    requires Legal(s, es)
    decreases |es|
  {
    es == [] || (!Pardons(s, es[0]) && NoPardon(Step(s, es[0]), es[1..]))
  }

  /** How many rejections of a live decoder the run acts on. */
  function FailureCount(s: State, es: seq<Event>): nat
    requires Legal(s, es)
    decreases |es|
  {
    if es == [] then 0
    else (if es[0].WriteFailed? && Counts(s, es[0].write) then 1 else 0) + FailureCount(Step(s, es[0]), es[1..])
  }

  lemma {:induction false} FailureBudget(s: State, es: seq<Event>)
    requires SocketInv(s) && Legal(s, es) && Settled(s, es) && NoPardon(s, es)
    ensures FailureCount(s, es) + s.failures == Run(s, es).failures <= MAX_DECODER_FAILURES
    decreases |es|
  {
    if es != [] {
      FailureStep(s, es[0]);
      hide SocketInv, Step, Enabled, SafeToFail;
      StepKeepsSocketInv(s, es[0]);
      FailureBudget(Step(s, es[0]), es[1..]);
    }
  }

  lemma FailureStep(s: State, e: Event)
    requires Enabled(s, e) && !Pardons(s, e)
    ensures Step(s, e).failures == s.failures + (if e.WriteFailed? && Counts(s, e.write) then 1 else 0)
  {
    hide OnInput, Release, Flush, Backoff, Settle, Issue, Hangup;
  }

  /** Failures are forgiven by a retry, or by the last of 120 packets that all decoded cleanly. */
  lemma PardonIff(s: State, e: Event)
    requires SocketInv(s) && Enabled(s, e)
    ensures Pardons(s, e) <==>
            && s.failures > 0
            && !s.destroyed
            && (e == Retry || (&& e.WriteDone?
                               && s.ws == Some(e.write.socket)
                               && Counts(s, e.write)
                               && s.healthy + 1 == HEALTHY_PACKETS_TO_FORGIVE))
  {
    hide TotalBackoff, OnInput, Release, Flush, Backoff;
  }

  // ----- What goes wrong when a stale rejection is acted on -----

  /** A packet of a closed socket, rejected after the reconnect, leaves the open socket on a dead decoder. */
  lemma StaleRejectionFreezesStream(canvas: Frame) returns (es: seq<Event>)
    ensures Legal(Mounted(canvas), es)
    ensures Run(Mounted(canvas), es).dead && CurrentOpen(Run(Mounted(canvas), es))
  {
    es := LostPacketAfterReconnect(canvas);
    hide Legal, Run, Mounted, Release, Flush;
    var s := Run(Mounted(canvas), es);
    RunAppend(Mounted(canvas), es, SocketOpened(1));
    es := es + [SocketOpened(1)];
    RunAppend(Mounted(canvas), es, WriteFailed(Write(0, 0, true)));
    es := es + [WriteFailed(Write(0, 0, true))];
  }

  lemma LostPacketAfterReconnect(canvas: Frame) returns (es: seq<Event>)
    ensures Legal(Mounted(canvas), es)
    ensures var s := Run(Mounted(canvas), es);
            && s.ws == Some(1) && s.sockets == [Closed, Connecting] && Write(0, 0, true) in s.writes
            && !s.destroyed && !s.dead && s.generation == 0 && s.failures == 0
  {
    es := PacketInFlight(canvas);
    var m := Mounted(canvas);
    hide Legal, Run, Mounted, Release, Flush, Backoff, OnInput, OnUnmount;
    RunAppend(m, es, SocketClosed(0));
    es := es + [SocketClosed(0)];
    RunAppend(m, es, TimerFired);
    es := es + [TimerFired];
  }

  lemma PacketInFlight(canvas: Frame) returns (es: seq<Event>)
    ensures Legal(Mounted(canvas), es)
    ensures var s := Run(Mounted(canvas), es);
            && s.ws == Some(0) && s.sockets == [Open] && Write(0, 0, true) in s.writes && s.attempt == 0
            && !s.destroyed && !s.dead && s.generation == 0 && s.failures == 0
  {
    var m := Mounted(canvas);
    es := [];
    assert Run(m, es) == m && m.sockets == [Connecting] && m.ws == Some(0) && m.attempt == 0;
    assert !m.destroyed && !m.dead && m.generation == 0 && m.failures == 0;
    hide Legal, Run, Mounted, Release, Flush, Backoff, OnInput, OnUnmount;
    RunAppend(m, es, SocketOpened(0));
    es := es + [SocketOpened(0)];
    RunAppend(m, es, VideoPacket(0, true));
    es := es + [VideoPacket(0, true)];
  }
}
