/** String operations of the source language that several modules rely on. */
module Text {

  datatype Option<+T> = None | Some(value: T)

  /** The characters that `trim` and `\s` treat as white space. */
  predicate IsSpace(c: char) {
    c == ' ' || '\t' <= c <= '\r' || c == '\U{00A0}' || c == '\U{1680}' || '\U{2000}' <= c <= '\U{200A}' ||
    c == '\U{2028}' || c == '\U{2029}' || c == '\U{202F}' || c == '\U{205F}' || c == '\U{3000}' || c == '\U{FEFF}'
  }

  function Trim(s: string): (t: string)
    ensures |t| <= |s|
  {
    if s == "" then ""
    else if IsSpace(s[0]) then Trim(s[1..])
    else if IsSpace(s[|s| - 1]) then Trim(s[..|s| - 1])
    else s
  }

  /** `indexOf` of a single character; -1 when it does not occur. */
  function IndexOf(s: string, c: char): (i: int)
    ensures -1 <= i < |s|
    ensures i >= 0 ==> s[i] == c
    ensures forall k :: 0 <= k < (if i < 0 then |s| else i) ==> s[k] != c
  {
    if s == "" then -1
    else if s[0] == c then 0
    else
      var r := IndexOf(s[1..], c);
      if r < 0 then -1 else r + 1
  }

  /** `lastIndexOf` of a single character; -1 when it does not occur. */
  function LastIndexOf(s: string, c: char): (i: int)
    ensures -1 <= i < |s|
    ensures i >= 0 ==> s[i] == c
    ensures forall k :: i < k < |s| ==> s[k] != c
  {
    if s == "" then -1
    else if s[|s| - 1] == c then |s| - 1
    else LastIndexOf(s[..|s| - 1], c)
  }

  /** `c` does not occur in `s`. */
  predicate Free(s: string, c: char) {
    forall k :: 0 <= k < |s| ==> s[k] != c
  }

  /** `s` has neither kind of brace. */
  predicate BraceFree(s: string) {
    Free(s, '{') && Free(s, '}')
  }

  predicate StartsWith(s: string, prefix: string) {
    |prefix| <= |s| && s[..|prefix|] == prefix
  }

  /** `split` at a single character. */
  function SplitOn(s: string, sep: char): (parts: seq<string>)
    ensures parts != []
    decreases |s|
  {
    var i := IndexOf(s, sep);
    if i < 0 then [s] else [s[..i]] + SplitOn(s[i + 1..], sep)
  }

  lemma SplitOnFirst(head: string, sep: char, rest: string)
    requires Free(head, sep)
    ensures SplitOn(head + [sep] + rest, sep) == [head] + SplitOn(rest, sep)
  {
    var whole := head + [sep] + rest;
    assert whole[|head|] == sep && forall k :: 0 <= k < |head| ==> whole[k] == head[k];
    assert whole[..|head|] == head && whole[|head| + 1..] == rest;
  }

  lemma {:induction false} SplitOnBoth(x: string, sep: char, y: string)
    ensures SplitOn(x + [sep] + y, sep) == SplitOn(x, sep) + SplitOn(y, sep)
    decreases |x|
  {
    hide SplitOn;
    var i := IndexOf(x, sep);
    if i < 0 {
      SplitOnWhole(x, sep);
      SplitOnFirst(x, sep, y);
    } else {
      var head, tail := x[..i], x[i + 1..];
      SplitOnBoth(tail, sep, y);
      SplitOnFirst(head, sep, tail);
      SplitOnFirst(head, sep, tail + [sep] + y);
      assert x == head + [sep] + tail;
      assert x + [sep] + y == head + [sep] + (tail + [sep] + y);
      assert [head] + (SplitOn(tail, sep) + SplitOn(y, sep)) == [head] + SplitOn(tail, sep) + SplitOn(y, sep);
    }
  }

  lemma SplitOnWhole(x: string, sep: char)
    requires Free(x, sep)
    ensures SplitOn(x, sep) == [x]
  {}

  /** `join` with a single character. */
  function JoinWith(parts: seq<string>, sep: char): string {
    if parts == [] then ""
    else if |parts| == 1 then parts[0]
    else parts[0] + [sep] + JoinWith(parts[1..], sep)
  }

  /** Splitting gives pieces without the separator that put together give back the text. */
  lemma {:induction false} SplitOnMeans(s: string, sep: char)
    ensures JoinWith(SplitOn(s, sep), sep) == s && forall p :: p in SplitOn(s, sep) ==> Free(p, sep)
    decreases |s|
  {
    hide SplitOn;
    var i := IndexOf(s, sep);
    if i < 0 {
      SplitOnWhole(s, sep);
    } else {
      var head, tail := s[..i], s[i + 1..];
      SplitOnFirst(head, sep, tail);
      SplitOnMeans(tail, sep);
      assert s == head + [sep] + tail;
      var parts := [head] + SplitOn(tail, sep);
      assert parts[1..] == SplitOn(tail, sep);
    }
  }

  /** And pieces without the separator are what splitting them put together gives. */
  lemma {:induction false} SplitOnJoined(parts: seq<string>, sep: char)
    requires parts != [] && forall p :: p in parts ==> Free(p, sep)
    ensures SplitOn(JoinWith(parts, sep), sep) == parts
  {
    hide SplitOn;
    if |parts| == 1 {
      SplitOnWhole(parts[0], sep);
    } else {
      SplitOnJoined(parts[1..], sep);
      SplitOnFirst(parts[0], sep, JoinWith(parts[1..], sep));
      assert parts == [parts[0]] + parts[1..];
    }
  }

  /** The non-empty strings of a list, in order. */
  function NonEmpty(parts: seq<string>): (r: seq<string>)
    ensures forall q :: q in r <==> q in parts && q != ""
  {
    if parts == [] then []
    else if parts[0] == "" then NonEmpty(parts[1..])
    else [parts[0]] + NonEmpty(parts[1..])
  }

  function Pow2(n: nat): nat { if n == 0 then 1 else 2 * Pow2(n - 1) }

  // ----- What trimming means -----

  predicate Blank(s: string) {
    forall k :: 0 <= k < |s| ==> IsSpace(s[k])
  }

  /** Neither end is white space. */
  predicate Tight(s: string) {
    s != "" ==> !IsSpace(s[0]) && !IsSpace(s[|s| - 1])
  }

  /** `t` is what is left of `s` without the white space at its ends. */
  ghost predicate IsTrimOf(t: string, s: string) {
    Tight(t) && exists a, b :: Blank(a) && Blank(b) && s == a + t + b
  }

  lemma {:induction false} TrimParts(s: string) returns (a: string, b: string)
    ensures Blank(a) && Blank(b) && s == a + Trim(s) + b && Tight(Trim(s))
    decreases |s|
  {
    hide IsSpace;
    a, b := "", "";
    if s != "" && IsSpace(s[0]) {
      a, b := TrimParts(s[1..]);
      hide Trim;
      a := BlankFront(s, a, Trim(s), b);
    } else if s != "" && IsSpace(s[|s| - 1]) {
      a, b := TrimParts(s[..|s| - 1]);
      hide Trim;
      b := BlankBack(s, a, Trim(s), b);
    }
  }

  lemma BlankFront(s: string, a: string, t: string, b: string) returns (r: string)
    requires s != "" && IsSpace(s[0]) && Blank(a) && s[1..] == a + t + b
    ensures Blank(r) && s == r + t + b
  {
    hide IsSpace;
    r := [s[0]] + a;
    assert s == [s[0]] + s[1..];
  }

  lemma BlankBack(s: string, a: string, t: string, b: string) returns (r: string)
    requires s != "" && IsSpace(s[|s| - 1]) && Blank(b) && s[..|s| - 1] == a + t + b
    ensures Blank(r) && s == a + t + r
  {
    hide IsSpace;
    r := b + [s[|s| - 1]];
    assert s == s[..|s| - 1] + [s[|s| - 1]];
  }

  lemma {:induction false} TrimDrops(a: string, t: string, b: string)
    requires Blank(a) && Blank(b) && Tight(t)
    ensures Trim(a + t + b) == t
    decreases |a| + |b|
  {
    hide IsSpace;
    var s := a + t + b;
    if a != "" {
      assert s[1..] == a[1..] + t + b && s[0] == a[0];
      TrimDrops(a[1..], t, b);
    } else if b != "" {
      var n := |b| - 1;
      assert s[..|s| - 1] == a + t + b[..n] && s[|s| - 1] == b[n];
      TrimDrops(a, t, b[..n]);
      if t == "" {
        assert s == b && s[1..] == "" + "" + b[1..];
        TrimDrops("", "", b[1..]);
      } else {
        assert s[0] == t[0];
      }
    } else {
      assert s == t;
    }
  }

  /** Trimming takes off all the white space at both ends and nothing else. */
  lemma TrimIff(t: string, s: string)
    ensures IsTrimOf(t, s) <==> t == Trim(s)
  {
    var x, y := TrimParts(s);
    hide Blank, Tight, Trim;
    if IsTrimOf(t, s) {
      var a, b :| Blank(a) && Blank(b) && s == a + t + b;
      TrimDrops(a, t, b);
    }
  }

  /** Trimming leaves nothing exactly of a text made of white space. */
  lemma {:induction false} TrimBlank(s: string)
    ensures Trim(s) == "" <==> Blank(s)
  {
    hide IsSpace;
    if s == "" {
    } else if IsSpace(s[0]) {
      TrimBlank(s[1..]);
      assert forall k :: 0 < k < |s| ==> s[k] == s[1..][k - 1];
    } else if IsSpace(s[|s| - 1]) {
      TrimBlank(s[..|s| - 1]);
      assert s[..|s| - 1][0] == s[0];
    }
  }

  /** `String(n)` of a natural number. */
  function Decimal(n: nat): (s: string)
    ensures s != "" && forall k :: 0 <= k < |s| ==> '0' <= s[k] <= '9'
  {
    if n < 10 then [DigitChar(n)] else Decimal(n / 10) + [DigitChar(n % 10)]
  }

  function DigitChar(d: nat): (c: char)
    requires d < 10
    ensures '0' <= c <= '9' && c as int == d + 48
  {
    '0' + d as char
  }

  /** The number a text of digits stands for. */
  function ValueOfDigits(s: string): int {
    if s == "" then 0 else 10 * ValueOfDigits(s[..|s| - 1]) + (s[|s| - 1] as int - 48)
  }

  /** A number is written in decimal, without leading zeros. */
  lemma {:induction false} DecimalMeans(n: nat)
    ensures ValueOfDigits(Decimal(n)) == n && (Decimal(n)[0] == '0' ==> n == 0)
  {
    var s := Decimal(n);
    if n < 10 {
      assert s[..0] == "";
    } else {
      DecimalMeans(n / 10);
      assert s[..|s| - 1] == Decimal(n / 10) && s[|s| - 1] == DigitChar(n % 10);
    }
  }

  /** Different numbers are written differently. */
  lemma {:induction false} DecimalInjective(a: nat, b: nat)
    requires Decimal(a) == Decimal(b)
    ensures a == b
  {
    var s := Decimal(a);
    if a < 10 && b < 10 {
      assert DigitChar(a) == DigitChar(b);
    } else if a >= 10 && b >= 10 {
      assert s[|s| - 1] == DigitChar(a % 10) == DigitChar(b % 10);
      assert s[..|s| - 1] == Decimal(a / 10) == Decimal(b / 10);
      DecimalInjective(a / 10, b / 10);
    }
  }
}
