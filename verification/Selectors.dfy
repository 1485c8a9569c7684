/**
 * Selectors as a browser reads them: a list is split at the commas outside parentheses and brackets, a
 * part at the white space outside them, and `:where(…)` and `:is(…)` hold when one of their arguments does.
 * What the text of anything else means is left open: `ReadFeature` only says which known pattern it has.
 */
module Selectors {
  import opened Text
  import opened DockCheck
  import opened DockReader

  // ----- Trees -----

  /** Simple selectors that all have to hold: plain text, and lists of which one argument has to. */
  datatype Compound =
    | End
    | AtomThen(text: string, rest: Compound)
    | ListThen(arguments: List, rest: Compound)

  /** Compounds with white space between them; the last one is the subject. */
  datatype Complex = Subject(compound: Compound) | Then(compound: Compound, rest: Complex)

  datatype List = Single(part: Complex) | Or(part: Complex, rest: List)

  // ----- Reading text -----

  function Deeper(depth: nat, c: char): nat {
    if c == '(' || c == '[' then depth + 1
    else if (c == ')' || c == ']') && depth > 0 then depth - 1
    else depth
  }

  /** The first place outside parentheses and brackets where the rest of the text makes `stop` true, or the end. */
  function Until(s: string, depth: nat, stop: string -> bool): (i: nat)
    ensures i <= |s| && (i < |s| ==> stop(s[i..]))
  {
    if s == "" || (depth == 0 && stop(s)) then 0 else 1 + Until(s[1..], Deeper(depth, s[0]), stop)
  }

  function AtComma(): string -> bool { s => s != "" && s[0] == ',' }

  function AtBlank(): string -> bool { s => s != "" && IsSpace(s[0]) }

  function AtClose(): string -> bool { s => s != "" && s[0] == ')' }

  function AtList(): string -> bool { s => Opener(s) > 0 }

  /** The length of `:where(` or `:is(` at the start of `s`, 0 for none. */
  function Opener(s: string): (n: nat)
    ensures n <= |s| && (n > 0 ==> s[0] == ':' && s[n - 1] == '(' && n <= 7)
  {
    if StartsWithWord(s, ":where(") then 7 else if StartsWithWord(s, ":is(") then 4 else 0
  }

  function ParseCompound(s: string): Compound
    decreases |s|, 0
  {
    if s == "" then End
    else
      var i := Until(s, 0, AtList());
      if i > 0 then AtomThen(s[..i], ParseCompound(s[i..]))
      else
        var n := Opener(s);
        var m := Until(s[n..], 0, AtClose());
        ListThen(ParseList(s[n..n + m]), ParseCompound(if n + m < |s| then s[n + m + 1..] else ""))
  }

  function ParseComplex(s: string): Complex
    decreases |s|, 1
  {
    var t := SkipSpaces(s);
    var i := Until(t, 0, AtBlank());
    var rest := SkipSpaces(t[i..]);
    if rest == "" then Subject(ParseCompound(t[..i])) else Then(ParseCompound(t[..i]), ParseComplex(rest))
  }

  function ParseList(s: string): List
    decreases |s|, 2
  {
    var i := Until(s, 0, AtComma());
    if i == |s| then Single(ParseComplex(s)) else Or(ParseComplex(s[..i]), ParseList(s[i + 1..]))
  }

  /** The parts of a selector list, as text. */
  function Parts(s: string): (parts: seq<string>)
    decreases |s|
  {
    var i := Until(s, 0, AtComma());
    if i == |s| then [s] else [s[..i]] + Parts(s[i + 1..])
  }

  /** The compounds of a part, as text. */
  function Compounds(s: string): (words: seq<string>)
    ensures words != []
    decreases |s|
  {
    var t := SkipSpaces(s);
    var i := Until(t, 0, AtBlank());
    var rest := SkipSpaces(t[i..]);
    if rest == "" then [t[..i]] else [t[..i]] + Compounds(rest)
  }

  // ----- What selectors mean, given which texts hold -----

  predicate HoldsCompound(c: Compound, on: Feature -> bool) {
    match c
    case End => true
    case AtomThen(text, rest) => on(ReadFeature(text)) && HoldsCompound(rest, on)
    case ListThen(arguments, rest) => HoldsList(arguments, on) && HoldsCompound(rest, on)
  }

  predicate HoldsComplex(x: Complex, on: Feature -> bool) {
    match x
    case Subject(c) => HoldsCompound(c, on)
    case Then(c, rest) => HoldsCompound(c, on) && HoldsComplex(rest, on)
  }

  predicate HoldsList(l: List, on: Feature -> bool) {
    match l
    case Single(part) => HoldsComplex(part, on)
    case Or(part, rest) => HoldsComplex(part, on) || HoldsList(rest, on)
  }

  /** The compound matches the Dock, of which `.dock` alone always holds. */
  predicate MatchesCompound(c: Compound, on: Feature -> bool) {
    match c
    case End => true
    case AtomThen(text, rest) => (text == ".dock" || on(ReadFeature(text))) && MatchesCompound(rest, on)
    case ListThen(arguments, rest) => MatchesList(arguments, on) && MatchesCompound(rest, on)
  }

  predicate MatchesComplex(x: Complex, on: Feature -> bool) {
    match x
    case Subject(c) => MatchesCompound(c, on)
    case Then(c, rest) => HoldsCompound(c, on) && MatchesComplex(rest, on)
  }

  predicate MatchesList(l: List, on: Feature -> bool) {
    match l
    case Single(part) => MatchesComplex(part, on)
    case Or(part, rest) => MatchesComplex(part, on) || MatchesList(rest, on)
  }

  predicate NameChar(c: char) {
    WordChar(c) || c == '-' || c >= '\U{0080}'
  }

  /** The class `.dock` occurs outside parentheses and brackets: not `.dock-header`, not `:not(.dock)`. */
  predicate HasDockClass(s: string, depth: nat) {
    s != "" &&
    ((depth == 0 && StartsWith(s, ".dock") && (|s| == 5 || !NameChar(s[5]))) ||
     HasDockClass(s[1..], Deeper(depth, s[0])))
  }

  predicate CompoundNamesDock(c: Compound) {
    match c
    case End => false
    case AtomThen(text, rest) => HasDockClass(text, 0) || CompoundNamesDock(rest)
    case ListThen(arguments, rest) => ListNamesDock(arguments) || CompoundNamesDock(rest)
  }

  /** The subject is the Dock, at least by one argument of a list. */
  predicate NamesDock(x: Complex) {
    match x
    case Subject(c) => CompoundNamesDock(c)
    case Then(_, rest) => NamesDock(rest)
  }

  predicate ListNamesDock(l: List) {
    match l
    case Single(part) => NamesDock(part)
    case Or(part, rest) => NamesDock(part) || ListNamesDock(rest)
  }

  // ----- Known selectors -----

  predicate KnownText(s: string) { ReadFeature(s).Known? }

  /** Some text has a known pattern; a list counts when every argument does. */
  predicate KnownCompound(c: Compound) {
    match c
    case End => false
    case AtomThen(text, rest) => KnownText(text) || KnownCompound(rest)
    case ListThen(arguments, rest) => KnownList(arguments) || KnownCompound(rest)
  }

  predicate KnownComplex(x: Complex) {
    match x
    case Subject(c) => KnownCompound(c)
    case Then(c, rest) => KnownCompound(c) || KnownComplex(rest)
  }

  predicate KnownList(l: List) {
    match l
    case Single(part) => KnownComplex(part)
    case Or(part, rest) => KnownComplex(part) && KnownList(rest)
  }

  /** Everything holds that has no known pattern. */
  function Unread(): Feature -> bool { (f: Feature) => !f.Known? }

  lemma DockIsUnread()
    ensures !KnownText(".dock")
  {}

  lemma {:induction false} KnownCompoundIff(c: Compound)
    ensures KnownCompound(c) <==> !HoldsCompound(c, Unread())
    ensures KnownCompound(c) <==> !MatchesCompound(c, Unread())
  {
    DockIsUnread();
    hide ReadFeature;
    match c
    case End =>
    case AtomThen(_, rest) => KnownCompoundIff(rest);
    case ListThen(arguments, rest) =>
      KnownListIff(arguments);
      KnownCompoundIff(rest);
  }

  lemma {:induction false} KnownComplexIff(x: Complex)
    ensures KnownComplex(x) <==> !HoldsComplex(x, Unread())
    ensures KnownComplex(x) <==> !MatchesComplex(x, Unread())
  {
    KnownCompoundIff(x.compound);
    if x.Then? { KnownComplexIff(x.rest); }
  }

  /** A list is known exactly when it cannot hold by texts without a known pattern alone. */
  lemma {:induction false} KnownListIff(l: List)
    ensures KnownList(l) <==> !HoldsList(l, Unread())
    ensures KnownList(l) <==> !MatchesList(l, Unread())
  {
    KnownComplexIff(l.part);
    if l.Or? { KnownListIff(l.rest); }
  }

  // ----- The more texts hold, the more selectors do -----

  lemma {:induction false} CompoundGrows(c: Compound, on: Feature -> bool, more: Feature -> bool)
    requires forall f :: on(f) ==> more(f)
    ensures HoldsCompound(c, on) ==> HoldsCompound(c, more)
    ensures MatchesCompound(c, on) ==> MatchesCompound(c, more)
  {
    hide ReadFeature;
    match c
    case End =>
    case AtomThen(_, rest) => CompoundGrows(rest, on, more);
    case ListThen(arguments, rest) =>
      ListGrows(arguments, on, more);
      CompoundGrows(rest, on, more);
  }

  lemma {:induction false} ComplexGrows(x: Complex, on: Feature -> bool, more: Feature -> bool)
    requires forall f :: on(f) ==> more(f)
    ensures HoldsComplex(x, on) ==> HoldsComplex(x, more)
    ensures MatchesComplex(x, on) ==> MatchesComplex(x, more)
  {
    CompoundGrows(x.compound, on, more);
    if x.Then? { ComplexGrows(x.rest, on, more); }
  }

  lemma {:induction false} ListGrows(l: List, on: Feature -> bool, more: Feature -> bool)
    requires forall f :: on(f) ==> more(f)
    ensures HoldsList(l, on) ==> HoldsList(l, more)
    ensures MatchesList(l, on) ==> MatchesList(l, more)
  {
    ComplexGrows(l.part, on, more);
    if l.Or? { ListGrows(l.rest, on, more); }
  }
}
