/** `urlBase64ToUint8Array` of frontend/public/push-sw.js, against the encodings of RFC 4648. */
module Base64Url {
  import opened Text

  type Byte = b: int | 0 <= b < 256
  type Digit = v: int | 0 <= v < 64

  // ----- The alphabets -----

  /** The base64 alphabet of section 4 of RFC 4648. */
  function Symbol(v: Digit): char {
    if v < 26 then 'A' + v as char
    else if v < 52 then 'a' + (v - 26) as char
    else if v < 62 then '0' + (v - 52) as char
    else if v == 62 then '+'
    else '/'
  }

  function ValueOf(c: char): Option<Digit> {
    if 'A' <= c <= 'Z' then Some((c - 'A') as int)
    else if 'a' <= c <= 'z' then Some((c - 'a') as int + 26)
    else if '0' <= c <= '9' then Some((c - '0') as int + 52)
    else if c == '+' then Some(62)
    else if c == '/' then Some(63)
    else None
  }

  /** The URL and filename safe alphabet of section 5. */
  function UrlSymbol(v: Digit): char {
    if v == 62 then '-' else if v == 63 then '_' else Symbol(v)
  }

  lemma SymbolValue(v: Digit)
    ensures ValueOf(Standard(UrlSymbol(v))) == Some(v)
    ensures Standard(UrlSymbol(v)) != '='
  {}

  // ----- Encoding without padding, section 5 -----

  function UrlEncode(b: seq<Byte>): string {
    if b == [] then ""
    else if |b| == 1 then OneByte(b[0])
    else if |b| == 2 then TwoBytes(b[0], b[1])
    else ThreeBytes(b[0], b[1], b[2]) + UrlEncode(b[3..])
  }

  function OneByte(b0: Byte): (s: string)
    ensures |s| == 2
  {
    [UrlSymbol(b0 / 4), UrlSymbol(b0 % 4 * 16)]
  }

  function TwoBytes(b0: Byte, b1: Byte): (s: string)
    ensures |s| == 3
  {
    [UrlSymbol(b0 / 4), UrlSymbol(b0 % 4 * 16 + b1 / 16), UrlSymbol(b1 % 16 * 4)]
  }

  function ThreeBytes(b0: Byte, b1: Byte, b2: Byte): (s: string)
    ensures |s| == 4
  {
    [UrlSymbol(b0 / 4), UrlSymbol(b0 % 4 * 16 + b1 / 16), UrlSymbol(b1 % 16 * 4 + b2 / 64), UrlSymbol(b2 % 64)]
  }

  // ----- Decoding -----

  /** The bytes of four symbols, the last of which may be padding. */
  function DecodeQuad(q: string): Option<seq<Byte>>
    requires |q| == 4
  {
    var v0, v1, v2, v3 := ValueOf(q[0]), ValueOf(q[1]), ValueOf(q[2]), ValueOf(q[3]);
    if v0.None? || v1.None? then None
    else
      var b0 := v0.value * 4 + v1.value / 16;
      if q[2] == '=' && q[3] == '=' then Some([b0])
      else if v2.None? then None
      else
        var b1 := v1.value % 16 * 16 + v2.value / 4;
        if q[3] == '=' then Some([b0, b1])
        else if v3.None? then None
        else Some([b0, b1, v2.value % 4 * 64 + v3.value])
  }

  /** Decoding of padded text, section 4: padding is only allowed in the last four symbols. */
  function DecodePadded(s: string): Option<seq<Byte>>
    decreases |s|
  {
    if s == "" then Some([])
    else if |s| < 4 then None
    else
      var first := DecodeQuad(s[..4]);
      if first.None? || (|s| > 4 && |first.value| != 3) then None
      else
        var rest := DecodePadded(s[4..]);
        if rest.None? then None else Some(first.value + rest.value)
  }

  // ----- `atob` -----

  /** ASCII white space, which `atob` skips. */
  predicate IsBlank(c: char) {
    c == ' ' || c == '\t' || c == '\n' || c == '\U{000C}' || c == '\r'
  }

  function NoBlanks(s: string): (r: string)
    ensures |r| <= |s|
  {
    if s == "" then ""
    else if IsBlank(s[0]) then NoBlanks(s[1..])
    else [s[0]] + NoBlanks(s[1..])
  }

  /** The padding that completes a text of length `n` to whole groups. */
  function Padding(n: nat): (pad: string)
    ensures |pad| == (4 - n % 4) % 4 && forall i :: 0 <= i < |pad| ==> pad[i] == '='
  {
    Repeat('=', (4 - n % 4) % 4)
  }

  /** Blanks aside, the text is padded to whole groups or not padded at all. */
  function Atob(s: string): Option<seq<Byte>> {
    DecodeText(NoBlanks(s))
  }

  function DecodeText(t: string): Option<seq<Byte>> {
    if |t| % 4 == 0 then DecodePadded(t)
    else if |t| % 4 == 1 || !Free(t, '=') then None
    else DecodePadded(t + Padding(|t|))
  }

  // ----- The function under study -----

  /** `.replace(/-/g, "+").replace(/_/g, "/")` on one character. */
  function Standard(c: char): char {
    if c == '-' then '+' else if c == '_' then '/' else c
  }

  function ReplaceAllIn(s: string): (r: string)
    ensures |r| == |s|
    ensures forall i :: 0 <= i < |s| ==> r[i] == Standard(s[i])
  {
    if s == "" then "" else [Standard(s[0])] + ReplaceAllIn(s[1..])
  }

  function Repeat(c: char, n: nat): (r: string)
    ensures |r| == n && forall i :: 0 <= i < n ==> r[i] == c
  {
    if n == 0 then "" else [c] + Repeat(c, n - 1)
  }

  function Prepare(base64Url: string): string {
    ReplaceAllIn(base64Url + Padding(|base64Url|))
  }

  /** Fills a fresh byte array from what `atob` returned, or fails as `atob` throws. */
  method UrlBase64ToUint8Array(base64Url: string) returns (bytes: Option<array<Byte>>)
    ensures bytes.Some? <==> Atob(Prepare(base64Url)).Some?
    ensures bytes.Some? ==> bytes.value[..] == Atob(Prepare(base64Url)).value
  {
    hide Atob, ReplaceAllIn, Padding;
    var padding := Padding(|base64Url|);
    var base64 := ReplaceAllIn(base64Url + padding);
    var raw := Atob(base64);
    if raw.None? {
      return None;
    }
    var filled := new Byte[|raw.value|];
    for i := 0 to |raw.value|
      invariant filled[..i] == raw.value[..i]
    {
      filled[i] := raw.value[i];
    }
    return Some(filled);
  }

  // ----- Round trip -----

  lemma ReplaceConcat(a: string, b: string)
    ensures ReplaceAllIn(a + b) == ReplaceAllIn(a) + ReplaceAllIn(b)
  {
    assert forall i :: 0 <= i < |a + b| ==> ReplaceAllIn(a + b)[i] == (ReplaceAllIn(a) + ReplaceAllIn(b))[i];
  }

  /** Preparing text of at least one full group leaves its first four symbols a group of their own. */
  lemma PrepareGroup(head: string, tail: string)
    requires |head| == 4
    ensures Prepare(head + tail) == ReplaceAllIn(head) + Prepare(tail)
  {
    hide ReplaceAllIn, Repeat;
    var pad := Padding(|tail|);
    assert |head + tail| % 4 == |tail| % 4;
    assert head + tail + pad == head + (tail + pad);
    ReplaceConcat(head, tail + pad);
  }

  lemma LastByte(b0: Byte)
    ensures DecodePadded(Prepare(OneByte(b0))) == Some([b0])
  {
    hide ValueOf, Symbol, UrlSymbol, Standard, Prepare, DecodePadded;
    var q := PreparedQuad(OneByte(b0));
    SymbolValue(b0 / 4);
    SymbolValue(b0 % 4 * 16);
    OneQuad(q);
  }

  lemma LastTwoBytes(b0: Byte, b1: Byte)
    ensures DecodePadded(Prepare(TwoBytes(b0, b1))) == Some([b0, b1])
  {
    hide ValueOf, Symbol, UrlSymbol, Standard, Prepare, DecodePadded;
    var q := PreparedQuad(TwoBytes(b0, b1));
    SymbolValue(b0 / 4);
    SymbolValue(b0 % 4 * 16 + b1 / 16);
    SymbolValue(b1 % 16 * 4);
    OneQuad(q);
  }

  lemma OneQuad(q: string)
    requires |q| == 4
    ensures DecodePadded(q) == DecodeQuad(q)
  {
    hide DecodeQuad;
    assert q[..4] == q && q[4..] == "";
    assert DecodeQuad(q).Some? ==> DecodeQuad(q).value + [] == DecodeQuad(q).value;
  }

  /** Two or three symbols are padded to one group. */
  lemma PreparedQuad(text: string) returns (q: string)
    requires 1 <= |text| <= 3
    ensures q == Prepare(text) && |q| == 4 && q[..4] == q && q[4..] == ""
    ensures forall i :: 0 <= i < |text| ==> q[i] == Standard(text[i])
    ensures forall i :: |text| <= i < 4 ==> q[i] == '='
  {
    q := Prepare(text);
    assert Standard('=') == '=';
  }

  lemma FullGroup(b0: Byte, b1: Byte, b2: Byte)
    ensures DecodeQuad(ReplaceAllIn(ThreeBytes(b0, b1, b2))) == Some([b0, b1, b2])
  {
    hide ValueOf, Symbol, UrlSymbol, Standard, ReplaceAllIn;
    var d0: Digit, d1: Digit, d2: Digit, d3: Digit := b0 / 4, b0 % 4 * 16 + b1 / 16, b1 % 16 * 4 + b2 / 64, b2 % 64;
    assert d0 * 4 + d1 / 16 == b0 && d1 % 16 * 16 + d2 / 4 == b1 && d2 % 4 * 64 + d3 == b2;
    SymbolValue(d0);
    SymbolValue(d1);
    SymbolValue(d2);
    SymbolValue(d3);
    var q := ReplaceAllIn(ThreeBytes(b0, b1, b2));
    assert ValueOf(q[0]) == Some(d0) && ValueOf(q[1]) == Some(d1);
    assert ValueOf(q[2]) == Some(d2) && ValueOf(q[3]) == Some(d3) && q[3] != '=';
  }

  lemma {:induction false} PaddedInvertsEncode(b: seq<Byte>)
    ensures DecodePadded(Prepare(UrlEncode(b))) == Some(b)
    decreases |b|
  {
    hide OneByte, TwoBytes, ThreeBytes, Prepare, DecodeQuad, ReplaceAllIn, DecodePadded;
    if b == [] {
      EmptyText();
    } else if |b| == 1 {
      LastByte(b[0]);
      assert b == [b[0]];
    } else if |b| == 2 {
      LastTwoBytes(b[0], b[1]);
      assert b == [b[0], b[1]];
    } else {
      var q := ThreeBytes(b[0], b[1], b[2]);
      PrepareGroup(q, UrlEncode(b[3..]));
      FullGroup(b[0], b[1], b[2]);
      PaddedInvertsEncode(b[3..]);
      GroupFirst(ReplaceAllIn(q), Prepare(UrlEncode(b[3..])));
      assert [b[0], b[1], b[2]] + b[3..] == b;
    }
  }

  lemma EmptyText()
    ensures Prepare("") == "" && DecodePadded("") == Some([])
  {}

  lemma GroupFirst(head: string, tail: string)
    requires |head| == 4 && DecodeQuad(head).Some? && |DecodeQuad(head).value| == 3
    ensures DecodePadded(head + tail) ==
            if DecodePadded(tail).None? then None else Some(DecodeQuad(head).value + DecodePadded(tail).value)
  {
    hide DecodeQuad;
    var whole := head + tail;
    assert whole[..4] == head && whole[4..] == tail;
  }

  // ----- Which texts decode -----

  predicate InUrlAlphabet(s: string) {
    forall i :: 0 <= i < |s| ==> ValueOf(Standard(s[i])).Some?
  }

  /** Text in the alphabet decodes exactly when its length can be that of an encoding. */
  lemma {:induction false} PaddedDecodesIff(s: string)
    requires InUrlAlphabet(s)
    ensures DecodePadded(Prepare(s)).Some? <==> |s| % 4 != 1
    decreases |s|
  {
    hide Prepare, DecodePadded, ValueOf, Standard, DecodeQuad, ReplaceAllIn;
    if s == "" {
      EmptyText();
    } else if |s| < 4 {
      ShortDecodesIff(s);
    } else {
      var head, tail := s[..4], s[4..];
      assert s == head + tail;
      PrepareGroup(head, tail);
      assert InUrlAlphabet(tail) by { assert forall i :: 0 <= i < |tail| ==> tail[i] == s[i + 4]; }
      PaddedDecodesIff(tail);
      FullQuad(head);
      GroupFirst(ReplaceAllIn(head), Prepare(tail));
    }
  }

  lemma ShortDecodesIff(s: string)
    requires InUrlAlphabet(s) && 1 <= |s| <= 3
    ensures DecodePadded(Prepare(s)).Some? <==> |s| != 1
  {
    assert ValueOf('=') == None;
    hide Prepare, DecodePadded, ValueOf, Standard;
    var q := PreparedQuad(s);
    OneQuad(q);
    assert ValueOf(q[0]).Some?;
    assert |s| > 1 ==> ValueOf(q[1]).Some?;
    assert |s| > 2 ==> ValueOf(q[2]).Some?;
  }

  lemma FullQuad(head: string)
    requires |head| == 4 && InUrlAlphabet(head)
    ensures DecodeQuad(ReplaceAllIn(head)).Some? && |DecodeQuad(ReplaceAllIn(head)).value| == 3
  {
    var q := ReplaceAllIn(head);
    assert forall i :: 0 <= i < 4 ==> q[i] == Standard(head[i]);
    assert ValueOf('=') == None;
    assert ValueOf(q[0]).Some? && ValueOf(q[1]).Some? && ValueOf(q[2]).Some? && ValueOf(q[3]).Some?;
  }

  // ----- With blanks -----

  lemma Prepend(c: char, a: string, b: string)
    ensures [c] + (a + b) == [c] + a + b
  {}

  lemma {:induction false} NoBlanksConcat(a: string, b: string)
    ensures NoBlanks(a + b) == NoBlanks(a) + NoBlanks(b)
  {
    hide IsBlank;
    if a == "" {
      assert a + b == b;
    } else {
      NoBlanksConcat(a[1..], b);
      assert (a + b)[1..] == a[1..] + b;
      Prepend(a[0], NoBlanks(a[1..]), NoBlanks(b));
    }
  }

  lemma {:induction false} NothingBlank(s: string)
    requires forall i :: 0 <= i < |s| ==> !IsBlank(s[i])
    ensures NoBlanks(s) == s
  {
    if s != "" { NothingBlank(s[1..]); }
  }

  lemma {:induction false} BlanksStay(s: string)
    ensures NoBlanks(ReplaceAllIn(s)) == ReplaceAllIn(NoBlanks(s))
  {
    if s != "" {
      BlanksStay(s[1..]);
      assert IsBlank(Standard(s[0])) <==> IsBlank(s[0]);
    }
  }

  lemma PaddingStays(n: nat)
    ensures ReplaceAllIn(Padding(n)) == Padding(n) && NoBlanks(Padding(n)) == Padding(n)
  {
    hide NoBlanks, Repeat;
    var pad := Padding(n);
    NothingBlank(pad);
    assert Standard('=') == '=';
    assert forall i :: 0 <= i < |pad| ==> ReplaceAllIn(pad)[i] == pad[i];
  }

  /** Preparing pads for the length with blanks, and taking the blanks out leaves the padding. */
  lemma PreparedWithoutBlanks(s: string)
    ensures NoBlanks(Prepare(s)) == ReplaceAllIn(NoBlanks(s)) + Padding(|s|)
  {
    PaddingStays(|s|);
    hide ReplaceAllIn, NoBlanks, Padding;
    ReplaceConcat(s, Padding(|s|));
    NoBlanksConcat(ReplaceAllIn(s), Padding(|s|));
    BlanksStay(s);
  }

  lemma PreparedIs(u: string)
    ensures Prepare(u) == ReplaceAllIn(u) + Padding(|u|)
  {
    PaddingStays(|u|);
    hide ReplaceAllIn, Padding;
    ReplaceConcat(u, Padding(|u|));
  }

  /** Symbols of the alphabet, and any blanks between them. */
  predicate InUrlAlphabetWithBlanks(s: string) {
    forall i :: 0 <= i < |s| ==> IsBlank(s[i]) || ValueOf(Standard(s[i])).Some?
  }

  lemma {:induction false} SymbolsRemain(s: string)
    requires InUrlAlphabetWithBlanks(s)
    ensures InUrlAlphabet(NoBlanks(s)) && Free(ReplaceAllIn(NoBlanks(s)), '=')
  {
    assert ValueOf('=') == None;
    hide ValueOf, Standard;
    if s != "" { SymbolsRemain(s[1..]); }
  }

  /** Whether `text`, written with blanks or not, is accepted. */
  predicate Accepted(length: nat, symbols: nat) {
    if length % 4 == 0 then symbols % 4 != 1 else length % 4 != 1 && symbols % 4 == length % 4
  }

  /**
   * Text in the alphabet with blanks anywhere decodes exactly when its number of symbols can be that
   * of an encoding and, unless its whole length is a multiple of four, so is the number of its
   * blanks; what it decodes to does not depend on the blanks.
   */
  lemma DecodesIff(s: string)
    requires InUrlAlphabetWithBlanks(s)
    ensures Atob(Prepare(s)).Some? <==> Accepted(|s|, |NoBlanks(s)|)
    ensures Atob(Prepare(s)).Some? ==> Atob(Prepare(s)) == DecodePadded(Prepare(NoBlanks(s)))
  {
    hide DecodePadded, DecodeText, ReplaceAllIn, NoBlanks, Padding, Prepare, InUrlAlphabetWithBlanks, InUrlAlphabet, Free;
    var u := NoBlanks(s);
    PreparedWithoutBlanks(s);
    SymbolsRemain(s);
    PreparedIs(u);
    PaddedDecodesIff(u);
    PaddedText(ReplaceAllIn(u), |s|);
  }

  lemma WholeGroups(v: string, pad: string, n: nat)
    requires |pad| == (4 - n % 4) % 4
    ensures n % 4 != 0 ==> (|v + pad| % 4 == 0 <==> |v| % 4 == n % 4)
    ensures n % 4 == 0 ==> v + pad == v
  {}

  lemma NotFree(v: string, pad: string)
    requires pad != "" && pad[0] == '='
    ensures !Free(v + pad, '=')
  {
    assert (v + pad)[|v|] == '=';
  }

  lemma SamePadding(m: nat, n: nat)
    requires m % 4 == n % 4
    ensures Padding(m) == Padding(n)
  {}

  lemma UnpaddedText(v: string)
    requires Free(v, '=')
    ensures DecodeText(v) == if |v| % 4 == 1 then None else DecodePadded(v + Padding(|v|))
  {
    hide DecodePadded, Padding;
    WholeGroups(v, Padding(|v|), |v|);
  }

  /** Symbols padded as a text of length `n` would be: accepted when that padding is theirs, or empty. */
  lemma PaddedText(v: string, n: nat)
    requires Free(v, '=')
    ensures DecodeText(v + Padding(n)) ==
            if (if n % 4 == 0 then |v| % 4 == 1 else |v| % 4 != n % 4) then None else DecodePadded(v + Padding(|v|))
  {
    hide DecodePadded, Padding, Free;
    WholeGroups(v, Padding(n), n);
    if n % 4 == 0 {
      UnpaddedText(v);
    } else {
      NotFree(v, Padding(n));
      if |v| % 4 == n % 4 {
        SamePadding(|v|, n);
      }
    }
  }

  /** Decoding the unpadded base64url text of any byte sequence gives back the same bytes. */
  lemma DecodeInvertsEncode(b: seq<Byte>)
    ensures Atob(Prepare(UrlEncode(b))) == Some(b)
  {
    hide DecodePadded, ReplaceAllIn, Padding, Prepare, Atob;
    var text := UrlEncode(b);
    PaddedInvertsEncode(b);
    EncodedInAlphabet(b);
    NothingBlank(text);
    DecodesIff(text);
  }

  predicate Clean(c: char) {
    ValueOf(Standard(c)).Some? && !IsBlank(c)
  }

  lemma SymbolsAreClean()
    ensures forall v: Digit :: Clean(UrlSymbol(v))
  {
    forall v: Digit ensures Clean(UrlSymbol(v)) { SymbolValue(v); }
  }

  lemma {:induction false} EncodedIsClean(b: seq<Byte>)
    ensures |UrlEncode(b)| % 4 != 1 && forall i :: 0 <= i < |UrlEncode(b)| ==> Clean(UrlEncode(b)[i])
    decreases |b|
  {
    SymbolsAreClean();
    hide Clean, UrlSymbol;
    if |b| >= 3 {
      EncodedIsClean(b[3..]);
      var head, tail := ThreeBytes(b[0], b[1], b[2]), UrlEncode(b[3..]);
      assert forall i :: 0 <= i < 4 ==> Clean(head[i]);
      assert UrlEncode(b) == head + tail;
    }
  }

  lemma EncodedInAlphabet(b: seq<Byte>)
    ensures InUrlAlphabetWithBlanks(UrlEncode(b)) && |UrlEncode(b)| % 4 != 1
    ensures forall i :: 0 <= i < |UrlEncode(b)| ==> !IsBlank(UrlEncode(b)[i])
  {
    EncodedIsClean(b);
    hide ValueOf, Standard, IsBlank, UrlEncode;
    assert forall i :: 0 <= i < |UrlEncode(b)| ==> Clean(UrlEncode(b)[i]);
  }

  // ----- Known encodings -----

  /** "foobar", the longest test vector of section 10 of RFC 4648, and the two symbols of section 5. */
  lemma TestVectors()
    ensures Atob(Prepare("Zm9vYmFy")) == Some([102, 111, 111, 98, 97, 114])
    ensures Atob(Prepare("-_8")) == Some([251, 255])
  {
    var foobar: seq<Byte> := [102, 111, 111, 98, 97, 114];
    var two: seq<Byte> := [251, 255];
    assert UrlEncode(foobar) == "Zm9vYmFy" by {
      assert foobar[3..] == [98, 97, 114] && foobar[3..][3..] == [];
      assert ThreeBytes(102, 111, 111) == "Zm9v" && ThreeBytes(98, 97, 114) == "YmFy";
    }
    assert UrlEncode(two) == "-_8";
    hide UrlEncode, Atob, Prepare;
    DecodeInvertsEncode(foobar);
    DecodeInvertsEncode(two);
  }
}
