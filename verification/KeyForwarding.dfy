/** Key forwarding of frontend/src/BrowserPane.tsx: clipboard and Cmd chords are intercepted, and so is their keyup. */
module KeyForwarding {
  import opened Text

  /** `press` is the Cmd chord mapping of the event, when it has one. */
  datatype Key = Key(
    code: string, key: string,
    ctrl: bool, meta: bool, alt: bool, shift: bool, altGraph: bool,
    press: Option<string>
  )

  /** `open` says whether the socket is open when the event fires; `sendControl` drops what it cannot send. */
  datatype Event = Down(k: Key, open: bool) | Up(k: Key, open: bool)

  datatype Message = SendDown(key: string) | SendUp(key: string) | SendPress(key: string) | SendCopy | SendCut

  function PhysicalKey(k: Key): string {
    if k.code != "" then k.code else k.key
  }

  predicate Chord(k: Key) {
    (k.ctrl || k.meta) && !k.alt && !k.shift && !k.altGraph
  }

  /** The keydown is not forwarded as a key. */
  predicate Intercepts(mac: bool, k: Key) {
    || (mac && k.key == "Meta")
    || (Chord(k) && (k.key in {"v", "V"} || k.key in {"c", "C"} || k.key in {"x", "X"}))
    || (mac && k.press.Some?)
  }

  /** What is sent instead of, or for, a keydown. */
  function DownMessage(mac: bool, k: Key): Option<Message> {
    if mac && k.key == "Meta" then None
    else if Chord(k) && k.key in {"v", "V"} then None
    else if Chord(k) && k.key in {"c", "C"} then Some(SendCopy)
    else if Chord(k) && k.key in {"x", "X"} then Some(SendCut)
    else if mac && k.press.Some? then Some(SendPress(k.press.value))
    else Some(SendDown(k.key))
  }

  /** The set of intercepted physical keys after a trace. */
  function Held(mac: bool, es: seq<Event>): set<string> {
    if es == [] then {} else HeldAfter(mac, Held(mac, es[..|es| - 1]), es[|es| - 1])
  }

  function HeldAfter(mac: bool, held: set<string>, e: Event): set<string> {
    match e
    case Down(k, _) => if Intercepts(mac, k) then held + {PhysicalKey(k)} else held
    case Up(k, _) => held - {PhysicalKey(k)}
  }

  /** What the last event of a trace sends. */
  function Sends(mac: bool, es: seq<Event>): Option<Message>
    requires es != []
  {
    SendsAfter(mac, Held(mac, es[..|es| - 1]), es[|es| - 1])
  }

  function SendsAfter(mac: bool, held: set<string>, e: Event): Option<Message> {
    match e
    case Down(k, open) => if open then DownMessage(mac, k) else None
    case Up(k, open) => if PhysicalKey(k) in held || !open then None else Some(SendUp(k.key))
  }

  /** Everything a trace sends, in order. */
  function AllSent(mac: bool, es: seq<Event>): seq<Message> {
    if es == [] then []
    else AllSent(mac, es[..|es| - 1]) + (if Sends(mac, es).Some? then [Sends(mac, es).value] else [])
  }

  lemma AfterEvent(mac: bool, es: seq<Event>, e: Event)
    ensures Held(mac, es + [e]) == HeldAfter(mac, Held(mac, es), e)
    ensures Sends(mac, es + [e]) == SendsAfter(mac, Held(mac, es), e)
    ensures AllSent(mac, es + [e]) ==
            AllSent(mac, es) + (if Sends(mac, es + [e]).Some? then [Sends(mac, es + [e]).value] else [])
  {
    hide HeldAfter, SendsAfter;
    assert (es + [e])[..|es + [e]| - 1] == es;
  }

  /** Ctrl or Cmd with no other modifier, and one of the two letters. */
  predicate Clipboard(k: Key, lower: string, upper: string) {
    (k.ctrl || k.meta) && !k.alt && !k.shift && !k.altGraph && (k.key == lower || k.key == upper)
  }

  /**
   * What a keydown sends after any trace, from its fields alone: the Cmd key itself and a paste chord
   * send nothing, copy and cut send their message, a mapped Cmd chord its press, and any other key itself.
   */
  lemma KeyDownSends(mac: bool, es: seq<Event>, k: Key, open: bool)
    ensures var sent := Sends(mac, es + [Down(k, open)]);
            var swallowed := mac && k.key == "Meta";
            && (sent == Some(SendCopy) <==> open && !swallowed && Clipboard(k, "c", "C"))
            && (sent == Some(SendCut) <==> open && !swallowed && Clipboard(k, "x", "X"))
            && (forall t :: sent == Some(SendPress(t)) <==>
                  open && !swallowed && mac && k.press == Some(t) &&
                  !Clipboard(k, "v", "V") && !Clipboard(k, "c", "C") && !Clipboard(k, "x", "X"))
            && (forall t :: sent == Some(SendDown(t)) <==>
                  open && !swallowed && !(mac && k.press.Some?) && t == k.key &&
                  !Clipboard(k, "v", "V") && !Clipboard(k, "c", "C") && !Clipboard(k, "x", "X"))
            && (sent == None <==> !open || swallowed || Clipboard(k, "v", "V"))
  {
    AfterEvent(mac, es, Down(k, open));
    hide Held, Sends;
  }

  class Forwarder {
    const mac: bool
    var interceptedKeys: set<string>
    var sent: seq<Message>
    ghost var trace: seq<Event>

    ghost predicate Valid()
      reads this
    {
      interceptedKeys == Held(mac, trace) && sent == AllSent(mac, trace)
    }

    constructor (mac: bool)
      ensures Valid() && this.mac == mac && trace == [] && sent == []
    {
      this.mac := mac;
      interceptedKeys, sent, trace := {}, [], [];
    }

    /** `sendControl`: nothing is sent on a socket that is not open. */
    method SendControl(message: Message, open: bool)
      modifies this`sent
      ensures sent == if open then old(sent) + [message] else old(sent)
    {
      if open {
        sent := sent + [message];
      }
    }

    method OnKeyDown(k: Key, open: bool)
      requires Valid()
      modifies this
      ensures Valid() && trace == old(trace) + [Down(k, open)]
      ensures sent == old(sent) + (if Sends(mac, trace).Some? then [Sends(mac, trace).value] else [])
      ensures var swallowed := mac && k.key == "Meta";
              var clipboard := Clipboard(k, "v", "V") || Clipboard(k, "c", "C") || Clipboard(k, "x", "X");
              && (open && !swallowed && Clipboard(k, "c", "C") ==> sent == old(sent) + [SendCopy])
              && (open && !swallowed && Clipboard(k, "x", "X") ==> sent == old(sent) + [SendCut])
              && (open && !swallowed && !clipboard ==>
                    sent == old(sent) + [if mac && k.press.Some? then SendPress(k.press.value) else SendDown(k.key)])
              && (!open || swallowed || Clipboard(k, "v", "V") ==> sent == old(sent))
    {
      KeyDownSends(mac, trace, k, open);
      AfterEvent(mac, trace, Down(k, open));
      hide Held, Sends, AllSent, PhysicalKey;
      trace := trace + [Down(k, open)];
      if mac && k.key == "Meta" {
        interceptedKeys := interceptedKeys + {PhysicalKey(k)};
        return;
      }
      if (k.ctrl || k.meta) && !k.alt && !k.shift && !k.altGraph {
        if k.key in {"v", "V"} {
          interceptedKeys := interceptedKeys + {PhysicalKey(k)};
          return;
        }
        if k.key in {"c", "C"} || k.key in {"x", "X"} {
          interceptedKeys := interceptedKeys + {PhysicalKey(k)};
          SendControl(if k.key in {"c", "C"} then SendCopy else SendCut, open);
          return;
        }
      }
      if mac && k.press.Some? {
        interceptedKeys := interceptedKeys + {PhysicalKey(k)};
        SendControl(SendPress(k.press.value), open);
        return;
      }
      SendControl(SendDown(k.key), open);
    }

    method OnKeyUp(k: Key, open: bool)
      requires Valid()
      modifies this
      ensures Valid() && trace == old(trace) + [Up(k, open)]
      ensures sent == old(sent) + (if Sends(mac, trace).Some? then [Sends(mac, trace).value] else [])
    {
      AfterEvent(mac, trace, Up(k, open));
      hide Held, Sends, AllSent, PhysicalKey;
      trace := trace + [Up(k, open)];
      if PhysicalKey(k) in interceptedKeys {
        interceptedKeys := interceptedKeys - {PhysicalKey(k)};
        return;
      }
      SendControl(SendUp(k.key), open);
    }
  }

  // ----- Which keyups are forwarded -----

  predicate IsDown(e: Event, p: string) { e.Down? && PhysicalKey(e.k) == p }
  predicate IsUp(e: Event, p: string) { e.Up? && PhysicalKey(e.k) == p }

  /** A keydown of `p` was intercepted, and `p` has not come up since. */
  predicate InterceptedSince(mac: bool, es: seq<Event>, p: string) {
    exists i :: 0 <= i < |es| && IsDown(es[i], p) && Intercepts(mac, es[i].k) && NoUpAfter(es, i, p)
  }

  predicate NoUpAfter(es: seq<Event>, i: nat, p: string) {
    forall m :: i < m < |es| ==> !IsUp(es[m], p)
  }

  lemma {:induction false} HeldIff(mac: bool, es: seq<Event>, p: string)
    ensures p in Held(mac, es) <==> InterceptedSince(mac, es, p)
    decreases |es|
  {
    hide Intercepts;
    if es != [] {
      var n := |es| - 1;
      var before, last := es[..n], es[n];
      HeldIff(mac, before, p);
      assert forall i :: 0 <= i < n ==> before[i] == es[i];
      if InterceptedSince(mac, before, p) && !IsUp(last, p) {
        var i :| 0 <= i < |before| && IsDown(before[i], p) && Intercepts(mac, before[i].k) && NoUpAfter(before, i, p);
        assert NoUpAfter(es, i, p);
      }
      if IsDown(last, p) && Intercepts(mac, last.k) {
        assert NoUpAfter(es, n, p);
      }
      if InterceptedSince(mac, es, p) {
        var i :| 0 <= i < |es| && IsDown(es[i], p) && Intercepts(mac, es[i].k) && NoUpAfter(es, i, p);
        if i < n {
          assert NoUpAfter(before, i, p);
          assert InterceptedSince(mac, before, p);
        }
      }
    }
  }

  /**
   * In every trace a keyup is forwarded exactly when the socket is open and no keydown of its key
   * since the last keyup was intercepted.
   */
  lemma KeyUpForwardedIff(mac: bool, es: seq<Event>, k: Key, open: bool)
    ensures Sends(mac, es + [Up(k, open)]) ==
            if open && !InterceptedSince(mac, es, PhysicalKey(k)) then Some(SendUp(k.key)) else None
  {
    var whole := es + [Up(k, open)];
    assert whole[..|whole| - 1] == es;
    HeldIff(mac, es, PhysicalKey(k));
  }

  // ----- Pairing -----

  /** The events of `p` go down, up, down, up. `down` says whether `p` ends pressed. */
  predicate Alternates(es: seq<Event>, p: string, down: bool)
    decreases |es|
  {
    if es == [] then !down
    else
      var before, last := es[..|es| - 1], es[|es| - 1];
      if IsDown(last, p) then down && Alternates(before, p, false)
      else if IsUp(last, p) then !down && Alternates(before, p, true)
      else Alternates(before, p, down)
  }

  predicate IsSendDown(m: Option<Message>) { m.Some? && m.value.SendDown? }
  predicate IsSendUp(m: Option<Message>) { m.Some? && m.value.SendUp? }

  function ForwardedDowns(mac: bool, es: seq<Event>, p: string): nat
    decreases |es|
  {
    if es == [] then 0
    else ForwardedDowns(mac, es[..|es| - 1], p) +
         (if IsDown(es[|es| - 1], p) && IsSendDown(Sends(mac, es)) then 1 else 0)
  }

  function ForwardedUps(mac: bool, es: seq<Event>, p: string): nat
    decreases |es|
  {
    if es == [] then 0
    else ForwardedUps(mac, es[..|es| - 1], p) +
         (if IsUp(es[|es| - 1], p) && IsSendUp(Sends(mac, es)) then 1 else 0)
  }

  /** The last keydown of `p` in the trace. */
  function LastDown(es: seq<Event>, p: string): Option<Event>
    decreases |es|
  {
    if es == [] then None
    else if IsDown(es[|es| - 1], p) then Some(es[|es| - 1])
    else LastDown(es[..|es| - 1], p)
  }

  /** The page was sent the last keydown of `p`. */
  predicate DownSent(mac: bool, es: seq<Event>, p: string)
    decreases |es|
  {
    es != [] &&
    (if IsDown(es[|es| - 1], p) then IsSendDown(Sends(mac, es)) else DownSent(mac, es[..|es| - 1], p))
  }

  /** Every keyup of `p` is sent exactly when the keydown before it was. */
  predicate AllPaired(mac: bool, es: seq<Event>, p: string)
    decreases |es|
  {
    es != [] ==>
      && AllPaired(mac, es[..|es| - 1], p)
      && (IsUp(es[|es| - 1], p) ==> (IsSendUp(Sends(mac, es)) <==> DownSent(mac, es[..|es| - 1], p)))
  }

  /** Over every press of `p` that is not intercepted, the socket is open at both ends or at neither. */
  predicate SteadySocket(mac: bool, es: seq<Event>, p: string)
    decreases |es|
  {
    es != [] ==>
      var before, last := es[..|es| - 1], es[|es| - 1];
      && SteadySocket(mac, before, p)
      && (IsUp(last, p) && LastDown(before, p).Some? ==>
            Intercepts(mac, LastDown(before, p).value.k) || LastDown(before, p).value.open == last.open)
  }

  /** While `p` alternates, what is held and what was sent is decided by its last keydown. */
  lemma {:induction false} LastDownDecides(mac: bool, es: seq<Event>, p: string, down: bool)
    requires Alternates(es, p, down)
    ensures !down ==> p !in Held(mac, es)
    ensures down ==> LastDown(es, p).Some?
    ensures LastDown(es, p).Some? ==>
              && (down ==> (p in Held(mac, es) <==> Intercepts(mac, LastDown(es, p).value.k)))
              && (DownSent(mac, es, p) <==> LastDown(es, p).value.open && !Intercepts(mac, LastDown(es, p).value.k))
    decreases |es|
  {
    if es != [] {
      var before, last := es[..|es| - 1], es[|es| - 1];
      if IsDown(last, p) {
        LastDownDecides(mac, before, p, false);
      } else if IsUp(last, p) {
        LastDownDecides(mac, before, p, true);
      } else {
        LastDownDecides(mac, before, p, down);
      }
    }
  }

  /**
   * When a physical key strictly alternates, its forwarded downs and ups pair one to one, whatever the
   * modifiers do, exactly when the socket is steady over every press that is not intercepted.
   */
  lemma {:induction false} PairedIffSteady(mac: bool, es: seq<Event>, p: string, down: bool)
    requires Alternates(es, p, down)
    ensures AllPaired(mac, es, p) <==> SteadySocket(mac, es, p)
    decreases |es|
  {
    if es != [] {
      hide Intercepts, DownMessage;
      var before, last := es[..|es| - 1], es[|es| - 1];
      if IsDown(last, p) {
        PairedIffSteady(mac, before, p, false);
      } else if IsUp(last, p) {
        PairedIffSteady(mac, before, p, true);
        LastDownDecides(mac, before, p, true);
      } else {
        PairedIffSteady(mac, before, p, down);
      }
    }
  }

  /** Paired keys are counted: one more down than ups exactly while a sent keydown has not come up. */
  lemma {:induction false} ForwardedKeysPair(mac: bool, es: seq<Event>, p: string, down: bool)
    requires Alternates(es, p, down) && AllPaired(mac, es, p)
    ensures ForwardedDowns(mac, es, p) ==
            ForwardedUps(mac, es, p) + (if down && DownSent(mac, es, p) then 1 else 0)
    decreases |es|
  {
    if es != [] {
      hide Intercepts, Held;
      var before, last := es[..|es| - 1], es[|es| - 1];
      if IsDown(last, p) {
        ForwardedKeysPair(mac, before, p, false);
      } else if IsUp(last, p) {
        ForwardedKeysPair(mac, before, p, true);
      } else {
        ForwardedKeysPair(mac, before, p, down);
      }
    }
  }

  /** A key pressed while the socket is open and released after it dropped stays down on the page. */
  lemma DroppedSocketLeavesKeyDown(mac: bool, k: Key) returns (es: seq<Event>)
    requires !Intercepts(mac, k)
    ensures Alternates(es, PhysicalKey(k), false) && !SteadySocket(mac, es, PhysicalKey(k))
    ensures ForwardedDowns(mac, es, PhysicalKey(k)) == 1 && ForwardedUps(mac, es, PhysicalKey(k)) == 0
  {
    var p := PhysicalKey(k);
    var first := [Down(k, true)];
    es := first + [Up(k, false)];
    assert es[..1] == first && first[..0] == [];
    assert IsDown(first[0], p) && IsUp(es[1], p);
    assert LastDown(first, p) == Some(Down(k, true));
    assert ForwardedDowns(mac, first, p) == 1 && ForwardedUps(mac, first, p) == 0;
  }

  // ----- The text of a pair -----

  /** What was sent for the last keydown of `p`. */
  function LastDownMessage(mac: bool, es: seq<Event>, p: string): Option<Message>
    decreases |es|
  {
    if es == [] then None
    else if IsDown(es[|es| - 1], p) then Sends(mac, es)
    else LastDownMessage(mac, es[..|es| - 1], p)
  }

  /** A keyup of `p` that is sent after its keydown was carries the text of that keydown. */
  predicate TextsMatch(mac: bool, es: seq<Event>, p: string)
    decreases |es|
  {
    es != [] ==>
      var before, last := es[..|es| - 1], es[|es| - 1];
      && TextsMatch(mac, before, p)
      && (IsUp(last, p) && IsSendUp(Sends(mac, es)) && IsSendDown(LastDownMessage(mac, before, p)) ==>
            Sends(mac, es).value.key == LastDownMessage(mac, before, p).value.key)
  }

  /** Over every press of `p` that is not intercepted and open at both ends, `key` is the same at both. */
  predicate SteadyKey(mac: bool, es: seq<Event>, p: string)
    decreases |es|
  {
    es != [] ==>
      var before, last := es[..|es| - 1], es[|es| - 1];
      && SteadyKey(mac, before, p)
      && (IsUp(last, p) && LastDown(before, p).Some? ==>
            var down := LastDown(before, p).value;
            Intercepts(mac, down.k) || !down.open || !last.open || down.k.key == last.k.key)
  }

  lemma {:induction false} LastDownText(mac: bool, es: seq<Event>, p: string)
    ensures LastDownMessage(mac, es, p) ==
            if LastDown(es, p).Some? && LastDown(es, p).value.open then DownMessage(mac, LastDown(es, p).value.k) else None
    decreases |es|
  {
    hide DownMessage;
    if es != [] { LastDownText(mac, es[..|es| - 1], p); }
  }

  lemma SentAsKey(mac: bool, k: Key)
    ensures IsSendDown(DownMessage(mac, k)) <==> !Intercepts(mac, k)
    ensures IsSendDown(DownMessage(mac, k)) ==> DownMessage(mac, k) == Some(SendDown(k.key))
  {}

  /** Downs and ups that pair by physical key pair by text exactly when no modifier changes `key` in between. */
  lemma {:induction false} TextsMatchIff(mac: bool, es: seq<Event>, p: string, down: bool)
    requires Alternates(es, p, down)
    ensures TextsMatch(mac, es, p) <==> SteadyKey(mac, es, p)
    decreases |es|
  {
    if es != [] {
      var before, last := es[..|es| - 1], es[|es| - 1];
      if IsDown(last, p) {
        TextsMatchIff(mac, before, p, false);
      } else if IsUp(last, p) {
        TextsMatchIff(mac, before, p, true);
        LastDownDecides(mac, before, p, true);
        LastDownText(mac, before, p);
        SentAsKey(mac, LastDown(before, p).value.k);
        hide Intercepts, DownMessage, LastDown, LastDownMessage, Held, DownSent;
      } else {
        TextsMatchIff(mac, before, p, down);
      }
    }
  }

  /** Shift is released before the letter: the page is sent down "Z" and up "z". */
  lemma ShiftReleasedFirst(mac: bool) returns (es: seq<Event>)
    ensures var upper := Key("KeyZ", "Z", false, false, false, true, false, None);
            var lower := Key("KeyZ", "z", false, false, false, false, false, None);
            es == [Down(upper, true), Up(lower, true)] && AllSent(mac, es) == [SendDown("Z"), SendUp("z")]
    ensures Alternates(es, "KeyZ", false) && SteadySocket(mac, es, "KeyZ") && !TextsMatch(mac, es, "KeyZ")
  {
    var upper := Key("KeyZ", "Z", false, false, false, true, false, None);
    var lower := Key("KeyZ", "z", false, false, false, false, false, None);
    var p := "KeyZ";
    var first := [Down(upper, true)];
    es := first + [Up(lower, true)];
    assert es[..1] == first && first[..0] == [];
    assert IsDown(first[0], p) && IsUp(es[1], p);
    assert LastDown(first, p) == Some(Down(upper, true));
    assert Alternates(first, p, true);
    AfterEvent(mac, [], Down(upper, true));
    AfterEvent(mac, first, Up(lower, true));
    assert [] + [Down(upper, true)] == first;
    assert "Z"[0] != "z"[0];
    TextsMatchIff(mac, es, p, false);
  }

  /**
   * On a Mac, Cmd+Shift+Z is sent as one press; that its key is "z" again when Shift is released first does
   * not let its keyup through, because it is the key on the keyboard that counts.
   */
  lemma ChordSwallowsKeyUp() returns (es: seq<Event>)
    ensures es == [Down(Key("KeyZ", "Z", false, true, false, true, false, Some("Control+Shift+Z")), true),
                   Up(Key("KeyZ", "z", false, true, false, false, false, None), true)]
    ensures AllSent(true, es) == [SendPress("Control+Shift+Z")]
  {
    var a := Down(Key("KeyZ", "Z", false, true, false, true, false, Some("Control+Shift+Z")), true);
    var b := Up(Key("KeyZ", "z", false, true, false, false, false, None), true);
    AfterEvent(true, [], a);
    AfterEvent(true, [a], b);
    assert [] + [a] == [a] && [a] + [b] == [a, b];
    es := [a, b];
  }

  /** Where the browser gives no such code, it is the key itself: another one is not held back. */
  lemma KeyWithoutCode() returns (es: seq<Event>)
    ensures es == [Down(Key("", "v", true, false, false, false, false, None), true),
                   Up(Key("", "q", false, false, false, false, false, None), true)]
    ensures AllSent(false, es) == [SendUp("q")]
  {
    var a := Down(Key("", "v", true, false, false, false, false, None), true);
    var b := Up(Key("", "q", false, false, false, false, false, None), true);
    AfterEvent(false, [], a);
    AfterEvent(false, [a], b);
    assert [] + [a] == [a] && [a] + [b] == [a, b];
    assert "v"[0] != "q"[0];
    es := [a, b];
  }
}
