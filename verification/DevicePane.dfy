/**
 * The mount effect of frontend/src/DevicePane.tsx as an object: one field per captured variable, one
 * method per callback. `trace` is the run the object has been through: each callback adds its event,
 * and `Valid` says that the fields are what that run of `DeviceStream` gives from mounting.
 */
module DevicePane {
  import opened Text
  import opened DeviceStream
  import DeviceSockets
  import DeviceTouches

  class Pane {
    var destroyed: bool
    var ws: Option<nat>
    var sockets: seq<ReadyState>  // the readyState of every socket created so far
    var reconnectTimer: bool
    var reconnectAttempt: nat
    var hand: Hand  // videoWidth, videoHeight, hand.active, lastTouchPoint, pendingTouchUp
    var decoderDead: bool
    var decoderFailures: nat
    var healthyPackets: nat
    var generation: nat  // identifies the current decoder and its writer
    var writes: multiset<Write>
    var status: Status
    var hasFrame: bool
    ghost var connects: nat
    ghost var delay: nat
    ghost const canvas: Frame  // the canvas at mounting
    ghost var trace: seq<Event>

    ghost function Snapshot(): State
      reads this
    {
      State(destroyed, ws, sockets, reconnectTimer, reconnectAttempt, decoderDead, decoderFailures, healthyPackets,
            generation, writes, status, hasFrame, hand, connects, delay)
    }

    ghost predicate Valid()
      reads this
    {
      Legal(Mounted(canvas), trace) && Snapshot() == Run(Mounted(canvas), trace)
    }

    constructor (canvas: Frame)
      ensures Valid() && this.canvas == canvas && trace == []
    {
      this.canvas, trace := canvas, [];
      destroyed, ws, sockets, reconnectTimer, reconnectAttempt := false, None, [], false, 0;
      hand := Hand(Frame(0, 0), canvas, None, Point(0.0, 0.0), None, [], []);
      decoderDead, decoderFailures, healthyPackets, generation, writes := false, 0, 0, 0, multiset{};
      status, hasFrame := ShowConnecting, false;
      connects, delay := 0, 0;
      new;
      Reconnect();
    }

    /** The callback for `e` begins. */
    ghost method Record(e: Event)
      requires Legal(Mounted(canvas), trace) && Enabled(Run(Mounted(canvas), trace), e)
      modifies this`trace
      ensures trace == old(trace) + [e] && Legal(Mounted(canvas), trace)
      ensures Run(Mounted(canvas), trace) == Step(Run(Mounted(canvas), old(trace)), e)
    {
      RunAppend(Mounted(canvas), trace, e);
      trace := trace + [e];
    }

    method SendControl(message: Touch) returns (ok: bool)
      modifies this`hand
      ensures ok <==> IsOpen()
      ensures hand == if ok then old(hand).(sent := old(hand).sent + [message]) else old(hand)
    {
      if ws.None? || StateOf(sockets, ws.value) != Open {
        return false;
      }
      hand := hand.(sent := hand.sent + [message]);
      return true;
    }

    predicate IsOpen()
      reads this
    {
      ws.Some? && StateOf(sockets, ws.value) == Open
    }

    method SendTouch(kind: Kind, point: Point)
      modifies this`hand
      ensures hand == DeviceStream.SendTouch(old(hand), IsOpen(), kind, point)
    {
      var message := MakeTouch(hand, kind, point);
      var ok := SendControl(message);
      if kind == TouchUp {
        hand := hand.(pending := if ok then None else Some(message));
      }
    }

    method ReleaseActivePointer(point: Point)
      modifies this`hand
      ensures hand == ReleaseAt(old(hand), IsOpen(), point)
    {
      if hand.active == None {
        return;
      }
      hand := hand.(active := None, lastPoint := point);
      SendTouch(TouchUp, point);
    }

    /** `close()` on a socket. */
    method CloseSocket(id: nat)
      modifies this`sockets
      ensures sockets == Hangup(old(sockets), id)
    {
      if id < |sockets| && sockets[id] != Closed {
        sockets := sockets[id := Closing];
      }
    }

    /** The part of `connect` that gives up a previous socket which is not closed yet. */
    method DropCurrent()
      modifies this`hand, this`sockets
      ensures Snapshot() == DropSocket(old(Snapshot()))
    {
      hide ReleaseAt;
      if ws.Some? && StateOf(sockets, ws.value) != Closed {
        ReleaseActivePointer(hand.lastPoint);
        CloseSocket(ws.value);
      }
    }

    /** `disposeDecoder` and `createDecoder`, when the current decoder is dead. */
    method SwapDeadDecoder()
      modifies this`generation, this`decoderDead
      ensures !decoderDead && generation == old(generation) + (if old(decoderDead) then 1 else 0)
    {
      if decoderDead {
        generation := generation + 1;
        decoderDead := false;
      }
    }

    method NewSocket()
      modifies this`hasFrame, this`status, this`sockets, this`ws, this`connects
      ensures Snapshot() == old(Snapshot()).(
                hasFrame := false, status := if reconnectAttempt == 0 then ShowConnecting else ShowReconnecting,
                sockets := old(sockets) + [Connecting], ws := Some(|old(sockets)|), connects := old(connects) + 1)
    {
      hasFrame := false;
      status := if reconnectAttempt == 0 then ShowConnecting else ShowReconnecting;
      ws := Some(|sockets|);
      sockets := sockets + [Connecting];
      connects := connects + 1;
    }

    /** `connect`. */
    method Reconnect()
      modifies this`hand, this`sockets, this`generation, this`decoderDead, this`hasFrame, this`status, this`ws, this`connects
      ensures Snapshot() == Connect(old(Snapshot()))
    {
      hide DropSocket;
      if !destroyed {
        DropCurrent();
        SwapDeadDecoder();
        NewSocket();
      }
    }

    method FlushPending()
      requires IsOpen()
      modifies this`hand
      ensures hand == Flush(old(hand))
    {
      if hand.pending.Some? {
        var _ := SendControl(hand.pending.value);
        hand := hand.(pending := None);
      }
    }

    method ForgetAttempts()
      modifies this`reconnectAttempt, this`connects, this`delay
      ensures Snapshot() == old(Snapshot()).(attempt := 0, connects := 1, delay := 0)
    {
      reconnectAttempt := 0;
      connects, delay := 1, 0;
    }

    method HandleOpen(id: nat)
      requires id < |sockets| && sockets[id] == Connecting
      modifies this
      ensures Snapshot() == OnOpen(old(Snapshot()), id)
      ensures trace == old(trace)
    {
      hide Flush;
      sockets := sockets[id := Open];
      ForgetAttempts();
      if ws == Some(id) {
        FlushPending();
        status := ShowOpen;
      }
    }

    method OnSocketOpen(id: nat)
      requires Valid() && id < |sockets| && sockets[id] == Connecting
      modifies this
      ensures Valid() && trace == old(trace) + [SocketOpened(id)]
    {
      hide Run, Legal, OnOpen;
      Record(SocketOpened(id));
      HandleOpen(id);
    }

    method ScheduleReconnect()
      modifies this`delay, this`reconnectAttempt, this`reconnectTimer
      ensures Snapshot() == old(Snapshot()).(
                timer := true, attempt := old(reconnectAttempt) + 1, delay := old(delay) + Backoff(old(reconnectAttempt)))
    {
      delay := delay + Backoff(reconnectAttempt);
      reconnectAttempt := reconnectAttempt + 1;
      reconnectTimer := true;
    }

    method HandleClose(id: nat)
      requires id < |sockets| && sockets[id] != Closed
      modifies this
      ensures Snapshot() == OnClose(old(Snapshot()), id)
      ensures trace == old(trace)
    {
      hide ReleaseAt, Backoff;
      sockets := sockets[id := Closed];
      if ws != Some(id) {
        return;
      }
      ReleaseActivePointer(hand.lastPoint);
      if destroyed {
        return;
      } else if reconnectAttempt >= MAX_RECONNECT_ATTEMPTS {
        status := ShowFailed;
      } else {
        ScheduleReconnect();
      }
    }

    method OnSocketClose(id: nat)
      requires Valid() && id < |sockets| && sockets[id] != Closed
      modifies this
      ensures Valid() && trace == old(trace) + [SocketClosed(id)]
    {
      hide Run, Legal, OnClose;
      Record(SocketClosed(id));
      HandleClose(id);
    }

    /** An `exited` or `error` control message. */
    method OnServerFailure(id: nat)
      requires Valid() && StateOf(sockets, id) == Open
      modifies this
      ensures Valid() && trace == old(trace) + [ServerFailed(id)]
    {
      hide Run, Legal;
      Record(ServerFailed(id));
      if ws != Some(id) {
        return;
      }
      status := ShowFailed;
      CloseSocket(id);
    }

    method OnVideo(id: nat, keyframe: bool)
      requires Valid() && StateOf(sockets, id) == Open
      modifies this
      ensures Valid() && trace == old(trace) + [VideoPacket(id, keyframe)]
    {
      hide Run, Legal;
      Record(VideoPacket(id, keyframe));
      if ws != Some(id) || decoderDead {
        return;
      }
      writes := Issue(writes, Write(id, generation, keyframe));
    }

    method HandleResolved(w: Write)
      requires w in writes
      modifies this
      ensures Snapshot() == OnWriteDone(old(Snapshot()), w)
      ensures trace == old(trace)
    {
      hide Settle;
      writes := Settle(writes, w);
      if destroyed || ws != Some(w.socket) || w.generation != generation || decoderDead {
        return;
      }
      healthyPackets := healthyPackets + 1;
      if healthyPackets >= HEALTHY_PACKETS_TO_FORGIVE {
        decoderFailures := 0;
        healthyPackets := 0;
      }
      if w.keyframe {
        hasFrame := true;
      }
    }

    method OnWriteResolved(w: Write)
      requires Valid() && w in writes
      modifies this
      ensures Valid() && trace == old(trace) + [WriteDone(w)]
    {
      hide Run, Legal, OnWriteDone;
      Record(WriteDone(w));
      HandleResolved(w);
    }

    method MarkDead()
      modifies this`decoderDead, this`healthyPackets, this`decoderFailures, this`hasFrame
      ensures Snapshot() == old(Snapshot()).(
                dead := true, healthy := 0, failures := old(decoderFailures) + 1, hasFrame := false)
    {
      decoderDead := true;
      healthyPackets := 0;
      decoderFailures := decoderFailures + 1;
      hasFrame := false;
    }

    /** Close the socket of a failed write; at the cap, detach it first so that its close is ignored. */
    method GiveUpSocket(id: nat)
      modifies this`sockets, this`ws, this`status
      ensures sockets == Hangup(old(sockets), id)
      ensures ws == if decoderFailures >= MAX_DECODER_FAILURES then None else old(ws)
      ensures status == if decoderFailures >= MAX_DECODER_FAILURES then ShowFailed else old(status)
    {
      if decoderFailures >= MAX_DECODER_FAILURES {
        ws := None;
        CloseSocket(id);
        status := ShowFailed;
      } else {
        CloseSocket(id);
      }
    }

    method HandleRejected(w: Write)
      requires w in writes
      modifies this
      ensures Snapshot() == OnWriteFailed(old(Snapshot()), w)
      ensures trace == old(trace)
    {
      hide Settle;
      writes := Settle(writes, w);
      if destroyed || w.generation != generation || decoderDead {
        return;
      }
      MarkDead();
      GiveUpSocket(w.socket);
    }

    method OnWriteRejected(w: Write)
      requires Valid() && w in writes
      modifies this
      ensures Valid() && trace == old(trace) + [WriteFailed(w)]
    {
      hide Run, Legal, OnWriteFailed;
      Record(WriteFailed(w));
      HandleRejected(w);
    }

    method OnTimer()
      requires Valid() && reconnectTimer
      modifies this
      ensures Valid() && trace == old(trace) + [TimerFired]
    {
      hide Run, Legal;
      Record(TimerFired);
      reconnectTimer := false;
      Reconnect();
    }

    method StartOver()
      modifies this`reconnectTimer, this`reconnectAttempt, this`decoderFailures, this`connects, this`delay
      ensures Snapshot() == old(Snapshot()).(timer := false, attempt := 0, failures := 0, connects := 0, delay := 0)
    {
      reconnectTimer := false;
      reconnectAttempt := 0;
      decoderFailures := 0;
      connects, delay := 0, 0;
    }

    method RetryNow()
      requires Valid()
      modifies this
      ensures Valid() && trace == old(trace) + [Retry]
    {
      hide Run, Legal;
      Record(Retry);
      hide Connect;
      if !destroyed {
        StartOver();
        Reconnect();
      }
    }

    method OnDown(pointer: int, primary: bool, p: Pointer)
      requires Valid()
      modifies this`hand, this`trace
      ensures Valid() && trace == old(trace) + [PointerDown(pointer, primary, p)]
    {
      hide Run, Legal;
      Record(PointerDown(pointer, primary, p));
      if destroyed || hand.active != None || !primary {
        return;
      }
      hand := hand.(active := Some(pointer), gestures := hand.gestures + [hand.video], lastPoint := CanvasPoint(hand, p));
      SendTouch(TouchDown, hand.lastPoint);
    }

    method OnMove(pointer: int, p: Pointer)
      requires Valid()
      modifies this`hand, this`trace
      ensures Valid() && trace == old(trace) + [PointerMove(pointer, p)]
    {
      hide Run, Legal;
      Record(PointerMove(pointer, p));
      if destroyed || hand.active != Some(pointer) {
        return;
      }
      hand := hand.(lastPoint := CanvasPoint(hand, p));
      SendTouch(TouchMove, hand.lastPoint);
    }

    /** `onPointerUp` and `onPointerCancel`. */
    method OnEnd(pointer: int, p: Pointer)
      requires Valid()
      modifies this`hand, this`trace
      ensures Valid() && trace == old(trace) + [PointerEnd(pointer, p)]
    {
      hide Run, Legal;
      Record(PointerEnd(pointer, p));
      if destroyed || hand.active != Some(pointer) {
        return;
      }
      var point := CanvasPoint(hand, p);
      ReleaseActivePointer(point);
    }

    method OnBlur()
      requires Valid()
      modifies this`hand, this`trace
      ensures Valid() && trace == old(trace) + [WindowBlur]
    {
      hide Run, Legal;
      Record(WindowBlur);
      if !destroyed {
        ReleaseActivePointer(hand.lastPoint);
      }
    }

    method OnVideoSize(frame: Frame)
      requires Valid()
      modifies this`hand, this`trace
      ensures Valid() && trace == old(trace) + [SizeChanged(frame)]
    {
      hide Run, Legal;
      Record(SizeChanged(frame));
      if hand.video != frame {
        ReleaseActivePointer(hand.lastPoint);
      }
      hand := hand.(video := frame);
    }

    method Dismantle()
      modifies this`destroyed, this`reconnectTimer, this`hand, this`sockets
      ensures Snapshot() == OnUnmount(old(Snapshot()))
      ensures trace == old(trace)
    {
      if destroyed {
        return;
      }
      hide ReleaseAt, Hangup;
      destroyed := true;
      reconnectTimer := false;
      ReleaseActivePointer(hand.lastPoint);
      if ws.Some? {
        CloseSocket(ws.value);
      }
    }

    method Teardown()
      requires Valid()
      modifies this
      ensures Valid() && trace == old(trace) + [Unmount]
    {
      hide Run, Legal, OnUnmount;
      Record(Unmount);
      Dismantle();
    }

    method OnCanvasResized(frame: Frame)
      requires Valid()
      modifies this`hand, this`trace
      ensures Valid() && trace == old(trace) + [CanvasResized(frame)]
    {
      hide Run, Legal;
      Record(CanvasResized(frame));
      hand := hand.(canvas := frame);
    }
  }

  /**
   * Whatever callbacks the object has been through, in whatever order: a finger left down on the device is
   * still held or has its touchUp waiting, and each touch sent fits its gesture.
   */
  lemma PaneLeavesNoFinger(pane: Pane)
    requires pane.Valid()
    ensures !FingerUp(pane.hand.sent) ==> pane.hand.active.Some? || pane.hand.pending.Some?
    ensures pane.IsOpen() ==> pane.hand.pending.None?
    ensures DownsSeparated(pane.hand.sent) && InGestureOrder(pane.hand.sent)
    ensures forall i :: 0 <= i < |pane.hand.sent| ==> TouchFits(pane.hand.sent[i], pane.hand.gestures)
  {
    NoStuckFinger(pane.canvas, pane.trace);
    OneFramePerGesture(pane.canvas, pane.trace);
  }

  /**
   * What the last callback made of the pointer, on any object: an accepted pointer event went out, or was
   * deferred, as a touch at the image of its own position; any other left a held pointer where it was or
   * released it there.
   */
  lemma PaneFollowsPointer(pane: Pane)
    requires pane.Valid() && pane.trace != []
    ensures var before, e := pane.trace[..|pane.trace| - 1], pane.trace[|pane.trace| - 1];
            && Legal(Mounted(pane.canvas), before)
            && var s := Run(Mounted(pane.canvas), before);
               var frame := DeviceTouches.FrameInForce(pane.canvas, before);
               && (DeviceTouches.Accepts(s, e) ==> DeviceTouches.FollowsPointer(s, pane.Snapshot(), e, frame))
               && (!DeviceTouches.Accepts(s, e) ==> DeviceTouches.KeepsOrReleases(s, pane.Snapshot(), e, frame))
  {
    hide Run, Legal, Step, Enabled, Mounted;
    var before, e := pane.trace[..|pane.trace| - 1], pane.trace[|pane.trace| - 1];
    DeviceTouches.RunSplitLast(Mounted(pane.canvas), pane.trace);
    DeviceTouches.TouchesFollowPointer(pane.canvas, before, e);
  }

  /** And when no decoder failure among them came too late, its attempts, failures and sockets are bounded. */
  lemma PaneRecovers(pane: Pane)
    requires pane.Valid() && DeviceSockets.Settled(Mounted(pane.canvas), pane.trace)
    ensures pane.decoderFailures <= 3 && (pane.decoderDead ==> !pane.IsOpen() && !pane.hasFrame)
    ensures forall i :: 0 <= i < |pane.sockets| && pane.ws != Some(i) ==> pane.sockets[i] in {Closing, Closed}
    ensures !pane.destroyed && DeviceSockets.Idle(pane.Snapshot()) ==> pane.status == ShowFailed
  {
    DeviceSockets.BoundedRecovery(pane.canvas, pane.trace);
  }
}
