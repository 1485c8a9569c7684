/**
 * What the device stream client counts and shows, read off its history: each figure is a fact about the
 * events so far, not about the variables that keep it.
 */
module DeviceHistory {
  import opened Text
  import opened DeviceStream
  import opened DeviceTouches

  /** Milliseconds before the first, second, … reconnect in a row. */
  const DELAYS: seq<nat> := [500, 1000, 2000, 4000, 8000, 8000]

  // ----- What happens, as an observer sees it -----

  /** The current socket drops while the pane is mounted. */
  predicate Drops(s: State, e: Event) {
    e.SocketClosed? && s.ws == Some(e.id) && !s.destroyed
  }

  /** A packet of the current socket comes out of the current decoder, which is alive. */
  predicate Decodes(s: State, e: Event) {
    e.WriteDone? && s.ws == Some(e.write.socket) && e.write.generation == s.generation && !s.dead && !s.destroyed
  }

  /** A packet breaks the current decoder, which was alive. */
  predicate Breaks(s: State, e: Event) {
    e.WriteFailed? && e.write.generation == s.generation && !s.dead && !s.destroyed
  }

  predicate Retries(s: State, e: Event) { e.Retry? && !s.destroyed }

  predicate Connects(s: State, e: Event) { (e.TimerFired? && !s.destroyed) || Retries(s, e) }

  // ----- The figures -----

  datatype Figures = Figures(
    row: nat,  // reconnects scheduled in a row: since the last socket that opened, or Retry
    waited: nat,  // the delays they waited, together
    scheduled: bool,  // the last one has neither fired nor been called off
    clean: nat,  // packets decoded in a row, since the last failure and every 120th
    failures: nat,  // since the last Retry, or the last time 120 packets in a row decoded
    picture: bool,  // a keyframe has decoded since the last connect and the last failure
    says: Status,
    made: nat  // sockets made
  )

  function Next(s: State, e: Event, h: Figures): Figures {
    if Drops(s, e) && h.row < 6 then h.(row := h.row + 1, waited := h.waited + DELAYS[h.row], scheduled := true)
    else if Drops(s, e) then h.(says := ShowFailed)
    else if Retries(s, e) then
      h.(row := 0, waited := 0, scheduled := false, failures := 0, picture := false, says := ShowConnecting, made := h.made + 1)
    else if Connects(s, e) then
      h.(scheduled := false, picture := false, says := if h.row == 0 then ShowConnecting else ShowReconnecting, made := h.made + 1)
    else if Decodes(s, e) then
      h.(clean := if h.clean == 119 then 0 else h.clean + 1,
         failures := if h.clean == 119 then 0 else h.failures,
         picture := h.picture || e.write.keyframe)
    else if Breaks(s, e) then
      h.(clean := 0, failures := h.failures + 1, picture := false, says := if h.failures >= 2 then ShowFailed else h.says)
    else match e
      case SocketOpened(id) => h.(row := 0, waited := 0, says := if s.ws == Some(id) then ShowOpen else h.says)
      case ServerFailed(id) => if s.ws == Some(id) then h.(says := ShowFailed) else h
      case TimerFired => h.(scheduled := false)
      case Unmount => if s.destroyed then h else h.(scheduled := false)
      case _ => h
  }

  /** The figures of a run from mounting, which makes the first socket. */
  function History(canvas: Frame, es: seq<Event>): Figures
    requires Legal(Mounted(canvas), es)
    decreases |es|
  {
    if es == [] then Figures(0, 0, false, 0, 0, false, ShowConnecting, 1)
    else
      RunSplitLast(Mounted(canvas), es);
      var before := es[..|es| - 1];
      Next(Run(Mounted(canvas), before), es[|es| - 1], History(canvas, before))
  }

  /** The variables hold the figures. */
  predicate Holds(s: State, h: Figures) {
    && s.attempt == h.row <= 6 && s.delay == h.waited && s.timer == h.scheduled && s.healthy == h.clean < 120
    && s.failures == h.failures && s.hasFrame == h.picture && s.status == h.says && |s.sockets| == h.made
  }

  lemma BackoffTable(n: nat)
    requires n < 6
    ensures Backoff(n) == DELAYS[n]
  {
    assert Pow2(1) == 2 && Pow2(2) == 4 && Pow2(3) == 8;
    assert Pow2(4) == 16 && Pow2(5) == 32;
  }

  lemma CloseKeepsFigures(s: State, id: nat, h: Figures)
    requires Holds(s, h) && Enabled(s, SocketClosed(id))
    ensures Holds(OnClose(s, id), Next(s, SocketClosed(id), h))
  {
    if h.row < 6 { BackoffTable(h.row); }
    hide Backoff, Release, DELAYS;
  }

  /** One more socket, no picture, and the status of a first or later attempt. */
  lemma ConnectMakes(s: State)
    requires !s.destroyed
    ensures var r := Connect(s);
            && r == s.(hand := r.hand, sockets := r.sockets, ws := r.ws, connects := r.connects, generation := r.generation,
                       dead := r.dead, hasFrame := false,
                       status := if s.attempt == 0 then ShowConnecting else ShowReconnecting)
            && |r.sockets| == |s.sockets| + 1
  {
    hide Release;
  }

  lemma ConnectKeepsFigures(s: State, e: Event, h: Figures)
    requires Holds(s, h) && Enabled(s, e) && (e.TimerFired? || e.Retry?)
    ensures Holds(Step(s, e), Next(s, e, h))
  {
    if !s.destroyed {
      ConnectMakes(if e.Retry? then s.(timer := false, attempt := 0, failures := 0, connects := 0, delay := 0) else s.(timer := false));
    }
    hide Connect;
    assert e.TimerFired? && s.destroyed ==> Connect(s.(timer := false)) == s.(timer := false) by { ConnectDestroyed(s.(timer := false)); }
    hide DELAYS;
  }

  lemma ConnectDestroyed(s: State)
    ensures s.destroyed ==> Connect(s) == s
  {}

  lemma SocketsKeepFigures(s: State, e: Event, h: Figures)
    requires Holds(s, h) && Enabled(s, e)
    requires e.SocketOpened? || e.SocketClosed? || e.ServerFailed? || e.TimerFired? || e.Retry? || e.Unmount?
    ensures Holds(Step(s, e), Next(s, e, h))
  {
    match e
    case SocketClosed(id) => CloseKeepsFigures(s, id, h);
    case TimerFired => ConnectKeepsFigures(s, e, h);
    case Retry => ConnectKeepsFigures(s, e, h);
    case _ =>
      hide ReleaseAt, Flush, DELAYS, Connect, OnClose, OnInput;
  }

  lemma PacketsKeepFigures(s: State, e: Event, h: Figures)
    requires Holds(s, h) && Enabled(s, e) && (e.VideoPacket? || e.WriteDone? || e.WriteFailed? || IsInput(e))
    ensures Holds(Step(s, e), Next(s, e, h))
  {
    hide Backoff, OnInput, ReleaseAt, Flush, Settle, Issue, DELAYS;
  }

  /**
   * In every run: the attempt number, the delay before each reconnect, whether one is scheduled, the clean
   * streak, the failure count, whether a picture is up, what the pane says and how many sockets it has
   * made are what the history makes them.
   */
  lemma {:induction false} HistoryDecides(canvas: Frame, es: seq<Event>)
    requires Legal(Mounted(canvas), es)
    ensures Holds(Run(Mounted(canvas), es), History(canvas, es))
    decreases |es|
  {
    if es == [] {
      assert Run(Mounted(canvas), es) == Mounted(canvas);
    } else {
      hide Step, Enabled, Holds, Next, Mounted, Legal, Run;
      RunSplitLast(Mounted(canvas), es);
      var before, e := es[..|es| - 1], es[|es| - 1];
      var s := Run(Mounted(canvas), before);
      HistoryDecides(canvas, before);
      if e.VideoPacket? || e.WriteDone? || e.WriteFailed? || IsInput(e) {
        PacketsKeepFigures(s, e, History(canvas, before));
      } else {
        SocketsKeepFigures(s, e, History(canvas, before));
      }
    }
  }

  // ----- Sockets and packets -----

  /** The client gives up socket `i`: it connects anew, was told that the stream ended, or broke on its packet. */
  predicate GivesUp(s: State, e: Event, i: nat) {
    || (Connects(s, e) && s.ws == Some(i))
    || (e == ServerFailed(i) && s.ws == Some(i))
    || (Breaks(s, e) && e.write.socket == i)
    || (e.Unmount? && !s.destroyed && s.ws == Some(i))
  }

  /** What an event makes of the sockets. */
  predicate SocketLaw(s: State, e: Event, r: State) {
    && |s.sockets| <= |r.sockets|
    && (forall i :: 0 <= i < |s.sockets| ==>
          r.sockets[i] ==
          if e == SocketOpened(i) then Open
          else if e == SocketClosed(i) then Closed
          else if GivesUp(s, e, i) && s.sockets[i] != Closed then Closing
          else s.sockets[i])
    && |r.sockets| == |s.sockets| + (if Connects(s, e) then 1 else 0)
    && (Connects(s, e) ==> r.sockets[|s.sockets|] == Connecting)
    && r.ws == (if Connects(s, e) then Some(|s.sockets|) else if Breaks(s, e) && s.failures >= 2 then None else s.ws)
    && r.destroyed == (s.destroyed || e.Unmount?)
  }

  /** And of the packets and the decoder they go to. */
  predicate PacketLaw(s: State, e: Event, r: State) {
    && r.dead == (if Connects(s, e) then false else s.dead || Breaks(s, e))
    && r.generation == s.generation + (if Connects(s, e) && s.dead then 1 else 0)
    && r.writes ==
       match e
       case VideoPacket(id, keyframe) =>
         if s.ws == Some(id) && !s.dead then s.writes + multiset{Write(id, s.generation, keyframe)} else s.writes
       case WriteDone(w) => s.writes - multiset{w}
       case WriteFailed(w) => s.writes - multiset{w}
       case _ => s.writes
  }

  lemma ConnectFollows(s: State, e: Event)
    requires Enabled(s, e) && (e.TimerFired? || e.Retry?)
    ensures SocketLaw(s, e, Step(s, e)) && PacketLaw(s, e, Step(s, e))
  {
    hide ReleaseAt;
  }

  lemma OpenFollows(s: State, id: nat)
    requires Enabled(s, SocketOpened(id))
    ensures SocketLaw(s, SocketOpened(id), OnOpen(s, id)) && PacketLaw(s, SocketOpened(id), OnOpen(s, id))
  {
    hide Flush;
  }

  lemma CloseFollows(s: State, id: nat)
    requires Enabled(s, SocketClosed(id))
    ensures SocketLaw(s, SocketClosed(id), OnClose(s, id)) && PacketLaw(s, SocketClosed(id), OnClose(s, id))
  {
    hide Release, Backoff;
  }

  lemma ServerFailureFollows(s: State, id: nat)
    requires Enabled(s, ServerFailed(id))
    ensures SocketLaw(s, ServerFailed(id), OnServerFailed(s, id)) && PacketLaw(s, ServerFailed(id), OnServerFailed(s, id))
  {}

  lemma UnmountFollows(s: State)
    ensures SocketLaw(s, Unmount, OnUnmount(s)) && PacketLaw(s, Unmount, OnUnmount(s))
  {
    hide Release;
  }

  lemma VideoFollows(s: State, id: nat, keyframe: bool)
    ensures SocketLaw(s, VideoPacket(id, keyframe), OnVideoPacket(s, id, keyframe))
    ensures PacketLaw(s, VideoPacket(id, keyframe), OnVideoPacket(s, id, keyframe))
  {}

  lemma DoneFollows(s: State, w: Write)
    ensures SocketLaw(s, WriteDone(w), OnWriteDone(s, w)) && PacketLaw(s, WriteDone(w), OnWriteDone(s, w))
  {}

  lemma FailureFollows(s: State, w: Write)
    ensures SocketLaw(s, WriteFailed(w), OnWriteFailed(s, w)) && PacketLaw(s, WriteFailed(w), OnWriteFailed(s, w))
  {}

  lemma InputLeavesSockets(s: State, e: Event)
    requires IsInput(e)
    ensures SocketLaw(s, e, Step(s, e)) && PacketLaw(s, e, Step(s, e))
  {
    hide OnInput;
  }

  /**
   * What an event does to the sockets and the packets: a socket is closed by the client exactly when it is
   * given up; connecting makes the next one current, and the third failure leaves none; a packet
   * reaches the decoder exactly when it is from the current socket and the decoder is alive; and a
   * dead decoder is replaced by the next connect.
   */
  lemma SocketsFollow(s: State, e: Event)
    requires Enabled(s, e)
    ensures SocketLaw(s, e, Step(s, e)) && PacketLaw(s, e, Step(s, e))
  {
    hide SocketLaw, PacketLaw, OnOpen, OnClose, OnServerFailed, OnVideoPacket, OnWriteDone, OnWriteFailed, OnUnmount, OnRetry;
    hide Connect, OnInput;
    match e
    case SocketOpened(id) => OpenFollows(s, id);
    case SocketClosed(id) => CloseFollows(s, id);
    case ServerFailed(id) => ServerFailureFollows(s, id);
    case VideoPacket(id, keyframe) => VideoFollows(s, id, keyframe);
    case WriteDone(w) => DoneFollows(s, w);
    case WriteFailed(w) => FailureFollows(s, w);
    case TimerFired => ConnectFollows(s, e);
    case Retry => ConnectFollows(s, e);
    case Unmount => UnmountFollows(s);
    case _ => InputLeavesSockets(s, e);
  }
}
