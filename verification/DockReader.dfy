/** What the regular expressions of scripts/check-dock-availability.ts read off a selector, a body and a condition. */
module DockReader {
  import opened Text
  import opened CssScanner
  import opened DockCheck

  // ----- Pieces of the regular expressions -----

  function Lower(c: char): char {
    if 'A' <= c <= 'Z' then c - 'A' + 'a' else c
  }

  /** `s` starts with `word`, which is in lower case, whatever the case of `s`. */
  predicate StartsWithWord(s: string, word: string) {
    |word| <= |s| && forall i :: 0 <= i < |word| ==> Lower(s[i]) == word[i]
  }

  /** `\s*` */
  function SkipSpaces(s: string): (r: string)
    ensures |r| <= |s| && (r != "" ==> !IsSpace(r[0]))
  {
    if s != "" && IsSpace(s[0]) then SkipSpaces(s[1..]) else s
  }

  /** How many characters the leading word of `s` has. */
  function WordLength(s: string): (n: nat)
    ensures n <= |s| && (s != "" && !IsSpace(s[0]) ==> n > 0)
  {
    if s == "" || IsSpace(s[0]) then 0 else 1 + WordLength(s[1..])
  }

  /** `trim().split(/\s+/)` without empty pieces. */
  function Words(s: string): seq<string> {
    if s == "" then []
    else if IsSpace(s[0]) then Words(s[1..])
    else [s[..WordLength(s)]] + Words(s[WordLength(s)..])
  }

  /** The length of a match of `\s+word\s+` at the start of `s`, 0 for none. */
  function Joint(s: string, word: string): (n: nat)
    ensures n <= |s|
  {
    var a := SkipSpaces(s);
    if |a| == |s| || !StartsWithWord(a, word) then 0
    else
      var b := SkipSpaces(a[|word|..]);
      if |b| + |word| == |a| then 0 else |s| - |b|
  }

  /** `split(/\s+word\s+/i)`; `piece` is what has been read of the first piece. */
  function SplitAtWord(piece: string, s: string, word: string): (parts: seq<string>)
    ensures parts != []
    decreases |s|
  {
    if s == "" then [piece]
    else if Joint(s, word) > 0 then [piece] + SplitAtWord("", s[Joint(s, word)..], word)
    else SplitAtWord(piece + [s[0]], s[1..], word)
  }

  predicate WordChar(c: char) {
    'a' <= c <= 'z' || 'A' <= c <= 'Z' || '0' <= c <= '9' || c == '_'
  }

  /** `\bnot\b` */
  predicate HasNot(s: string) {
    exists i :: 0 <= i <= |s| && NotAt(s, i)
  }

  predicate NotAt(s: string, i: nat)
    requires i <= |s|
  {
    StartsWithWord(s[i..], "not") && (i == 0 || !WordChar(s[i - 1])) && (i + 3 == |s| || !WordChar(s[i + 3]))
  }

  /** `\(pointer:\s*coarse\)` */
  predicate HasCoarse(s: string) {
    exists i :: 0 <= i <= |s| && CoarseAt(s[i..])
  }

  predicate CoarseAt(s: string) {
    StartsWith(s, "(pointer:") && StartsWith(SkipSpaces(s[9..]), "coarse)")
  }

  /** `\[data-tier="phone"\]` */
  predicate HasPhone(s: string) {
    exists i :: 0 <= i <= |s| && StartsWith(s[i..], "[data-tier=\"phone\"]")
  }

  // ----- Conditions -----

  function ReadFeature(s: string): Feature {
    if HasNot(s) then Negated(s)
    else if HasCoarse(s) then Known(CoarsePointer, s)
    else if HasPhone(s) then Known(PhoneTier, s)
    else Other(s)
  }

  function FeaturesOf(term: string): Term {
    var parts := SplitAtWord("", term, "and");
    seq(|parts|, i requires 0 <= i < |parts| => ReadFeature(parts[i]))
  }

  function TermsOf(arm: string): Arm {
    var parts := SplitAtWord("", arm, "or");
    seq(|parts|, i requires 0 <= i < |parts| => FeaturesOf(parts[i]))
  }

  function ConditionOf(text: string): Condition {
    var parts := SplitOn(text, ',');
    seq(|parts|, i requires 0 <= i < |parts| => TermsOf(parts[i]))
  }

  // ----- Selectors -----

  /** How many letters and hyphens `s` starts with. */
  function NameLength(s: string): (n: nat)
    ensures n <= |s|
  {
    if s != "" && ('a' <= Lower(s[0]) <= 'z' || s[0] == '-') then 1 + NameLength(s[1..]) else 0
  }

  /** `::?[a-z-]+(\([^)]*\))?$` from the start of `s`. */
  predicate IsPseudo(s: string) {
    s != "" && s[0] == ':' &&
    var name := if |s| > 1 && s[1] == ':' then s[2..] else s[1..];
    var rest := name[NameLength(name)..];
    NameLength(name) > 0 &&
    (rest == "" || (rest[0] == '(' && rest[|rest| - 1] == ')' && Free(rest[..|rest| - 1], ')')))
  }

  /** The first place at which the compound ends in a pseudo-class or pseudo-element is cut off. */
  function WithoutPseudo(s: string): string {
    if s == "" || IsPseudo(s) then "" else [s[0]] + WithoutPseudo(s[1..])
  }

  /** `subjectIsDock`: `:where(…)` and `:is(…)` are unwrapped. */
  predicate SubjectIsDock(compound: string)
    decreases |compound|
  {
    var prefix := if StartsWith(compound, ":where(") then 7 else if StartsWith(compound, ":is(") then 4 else 0;
    if prefix > 0 && |compound| > prefix && compound[|compound| - 1] == ')' then
      SubjectIsDock(Trim(compound[prefix..|compound| - 1]))
    else WithoutPseudo(compound) == ".dock"
  }

  /** The qualifier of one part of a selector list, if its subject is the Dock. */
  function PartQualifier(part: string): seq<string> {
    var compounds := Words(part);
    if compounds == [] || !SubjectIsDock(compounds[|compounds| - 1]) then []
    else [JoinWith(compounds[..|compounds| - 1], ' ')]
  }

  function PartQualifiers(parts: seq<string>): seq<string> {
    if parts == [] then [] else PartQualifier(parts[0]) + PartQualifiers(parts[1..])
  }

  /** `dockQualifiers` */
  function QualifiersOf(selector: string): seq<string> {
    PartQualifiers(SplitOn(selector, ','))
  }

  // ----- Bodies -----

  /** `\s*property\s*:\s*value\s*(!important\s*)?`, all of `s`. */
  predicate Declares(s: string, property: string, value: string) {
    var a := SkipSpaces(s);
    StartsWithWord(a, property) &&
    var b := SkipSpaces(a[|property|..]);
    b != "" && b[0] == ':' &&
    var c := SkipSpaces(b[1..]);
    StartsWithWord(c, value) &&
    var d := SkipSpaces(c[|value|..]);
    d == "" || (StartsWithWord(d, "!important") && SkipSpaces(d[10..]) == "")
  }

  predicate HidesIn(s: string) {
    Declares(s, "display", "none") || Declares(s, "visibility", "hidden") || Declares(s, "opacity", "0") ||
    Declares(s, "content-visibility", "hidden")
  }

  /** `HIDES`: some declaration of the body is one of the four. */
  predicate HidesBody(body: string) {
    exists s :: s in SplitOn(body, ';') && HidesIn(s)
  }

  /** The script's own reading. */
  function ScriptReader(): Reader {
    Reader(QualifiersOf, HidesBody, ConditionOf)
  }

  // ----- Conditions that are one feature -----

  /** Nowhere does white space, the word and white space follow. */
  predicate Unjoined(text: string, word: string) {
    forall i :: 0 <= i < |text| ==> Joint(text[i..], word) == 0
  }

  lemma {:induction false} UnjoinedIsWhole(piece: string, s: string, word: string)
    requires Unjoined(s, word)
    ensures SplitAtWord(piece, s, word) == [piece + s]
    decreases |s|
  {
    hide Joint;
    if s == "" {
      assert piece + s == piece;
    } else {
      assert s[0..] == s;
      forall i | 0 <= i < |s| - 1 ensures Joint(s[1..][i..], word) == 0 { assert s[1..][i..] == s[i + 1..]; }
      UnjoinedIsWhole(piece + [s[0]], s[1..], word);
      assert piece + [s[0]] + s[1..] == piece + s;
    }
  }

  /** A text without a comma and without the words `or` and `and` is read as one feature. */
  lemma OnePiece(text: string)
    requires Free(text, ',') && Unjoined(text, "or") && Unjoined(text, "and")
    ensures ConditionOf(text) == [[[ReadFeature(text)]]]
  {
    SplitOnWhole(text, ',');
    hide SplitOn, SplitAtWord, ReadFeature, Unjoined, Free;
    UnjoinedIsWhole("", text, "or");
    UnjoinedIsWhole("", text, "and");
    assert "" + text == text;
    assert FeaturesOf(text) == [ReadFeature(text)];
    assert TermsOf(text) == [FeaturesOf(text)];
  }
}
