/** Selectors written out, and read back as the trees they were written from. */
module SelectorTexts {
  import opened Text
  import opened DockReader
  import opened DockReading
  import opened Selectors

  // ----- Scanning for the end of something -----

  predicate Ordinary(c: char) {
    c != ',' && c != '(' && c != ')' && c != ':' && !IsSpace(c)
  }

  /** Nothing stops at an ordinary character. */
  ghost predicate Skipping(stop: string -> bool) {
    forall s: string :: s != "" && Ordinary(s[0]) ==> !stop(s)
  }

  /** Nor at a colon or an opening parenthesis. */
  ghost predicate PassesOpening(stop: string -> bool) {
    Skipping(stop) && forall s: string :: s != "" && (s[0] == ':' || s[0] == '(') ==> !stop(s)
  }

  lemma StopsSkip()
    ensures Skipping(AtComma()) && Skipping(AtBlank()) && Skipping(AtClose()) && Skipping(AtList())
  {
    hide StartsWithWord, IsSpace;
  }

  lemma StopsPassOpening()
    ensures PassesOpening(AtBlank()) && PassesOpening(AtComma())
  {
    StopsSkip();
    assert !IsSpace(':') && !IsSpace('(');
    hide Skipping, IsSpace;
  }

  /** Ordinary characters, with `d` brackets to close. */
  predicate Balanced(w: string, d: nat) {
    if w == "" then d == 0
    else Ordinary(w[0]) && (w[0] == ']' ==> d > 0) && Balanced(w[1..], Deeper(d, w[0]))
  }

  lemma Skipped(c: char, b: string, stop: string -> bool)
    requires Ordinary(c) && Skipping(stop)
    ensures !stop([c] + b)
  {}

  lemma UntilStep(c: char, b: string, depth: nat, stop: string -> bool)
    requires depth > 0 || !stop([c] + b)
    ensures Until([c] + b, depth, stop) == 1 + Until(b, Deeper(depth, c), stop)
  {
    assert ([c] + b)[1..] == b;
  }

  lemma {:induction false} UntilWord(w: string, d: nat, b: string, depth: nat, stop: string -> bool)
    requires Balanced(w, d) && Skipping(stop)
    ensures Until(w + b, depth + d, stop) == |w| + Until(b, depth, stop)
  {
    hide IsSpace, Until, Skipping;
    if w == "" {
      assert w + b == b;
    } else {
      var c, tail := w[0], w[1..];
      assert w + b == [c] + (tail + b);
      Skipped(c, tail + b, stop);
      UntilStep(c, tail + b, depth + d, stop);
      UntilWord(tail, Deeper(d, c), b, depth, stop);
      assert Deeper(depth + d, c) == depth + Deeper(d, c);
    }
  }

  // ----- Closed texts -----

  /** Every parenthesis and bracket that closes was opened, and after `d` more none is left open. */
  predicate Closed(s: string, d: nat) {
    if s == "" then d == 0
    else if s[0] == ')' || s[0] == ']' then d > 0 && Closed(s[1..], d - 1)
    else Closed(s[1..], Deeper(d, s[0]))
  }

  lemma {:induction false} BalancedIsClosed(w: string, d: nat)
    requires Balanced(w, d)
    ensures Closed(w, d)
  {
    hide IsSpace;
    if w != "" { BalancedIsClosed(w[1..], Deeper(d, w[0])); }
  }

  lemma {:induction false} ClosedConcat(a: string, d: nat, b: string)
    requires Closed(a, d) && Closed(b, 0)
    ensures Closed(a + b, d)
  {
    if a == "" {
      assert a + b == b;
    } else {
      assert (a + b)[1..] == a[1..] + b && (a + b)[0] == a[0];
      ClosedConcat(a[1..], if a[0] == ')' || a[0] == ']' then d - 1 else Deeper(d, a[0]), b);
    }
  }

  /** `(…)` around a closed text. */
  lemma {:induction false} ClosedInside(s: string, d: nat)
    requires Closed(s, d)
    ensures Closed(s + ")", d + 1)
  {
    if s == "" {
      assert s + ")" == ")" && ")"[1..] == "";
    } else {
      assert (s + ")")[1..] == s[1..] + ")" && (s + ")")[0] == s[0];
      ClosedInside(s[1..], if s[0] == ')' || s[0] == ']' then d - 1 else Deeper(d, s[0]));
    }
  }

  function Left(d: nat, c: char): nat
    requires c == ')' || c == ']' ==> d > 0
  {
    if c == ')' || c == ']' then d - 1 else Deeper(d, c)
  }

  lemma OneDeeper(d: nat, c: char)
    requires c == ')' || c == ']' ==> d > 0
    ensures Deeper(1 + d, c) == 1 + Left(d, c)
  {}

  lemma ClosedTail(s: string, d: nat)
    requires Closed(s, d) && s != ""
    ensures (s[0] == ')' || s[0] == ']' ==> d > 0) && Closed(s[1..], Left(d, s[0]))
  {}

  /** Inside parentheses no scan stops before they close. */
  lemma {:induction false} UntilClosed(s: string, d: nat, b: string, stop: string -> bool)
    requires Closed(s, d)
    ensures Until(s + b, 1 + d, stop) == |s| + Until(b, 1, stop)
  {
    if s == "" {
      assert s + b == b;
    } else {
      ClosedTail(s, d);
      var c, tail := s[0], s[1..];
      OneDeeper(d, c);
      hide Until, Closed, Deeper, Left;
      assert s + b == [c] + (tail + b);
      UntilStep(c, tail + b, 1 + d, stop);
      UntilClosed(tail, Left(d, c), b, stop);
    }
  }

  /** The parenthesis that closes is found behind a closed text. */
  lemma {:induction false} CloseFound(s: string, d: nat, r: string)
    requires Closed(s, d)
    ensures Until(s + (")" + r), d, AtClose()) == |s|
  {
    if s == "" {
      assert s + (")" + r) == ")" + r && (")" + r)[0] == ')';
    } else {
      var c, tail := s[0], s[1..];
      assert s + (")" + r) == [c] + (tail + (")" + r));
      assert d == 0 ==> c != ')';
      assert !AtClose()([c] + (tail + (")" + r))) || d > 0;
      hide Until;
      UntilStep(c, tail + (")" + r), d, AtClose());
      CloseFound(tail, if c == ')' || c == ']' then d - 1 else Deeper(d, c), r);
    }
  }

  // ----- Selectors written out -----

  /** `:where(` or `:is(`, in any case. */
  predicate ListOpener(s: string) { Spells(s, ":where(") || Spells(s, ":is(") }

  /** A compound: words and lists one after the other, two words never side by side. */
  ghost predicate WritesCompound(s: string, c: Compound)
    decreases c
  {
    match c
    case End => s == ""
    case AtomThen(t, rest) => t != "" && Balanced(t, 0) && !rest.AtomThen? && exists r :: WritesCompound(r, rest) && s == t + r
    case ListThen(arguments, rest) =>
      exists opener, inner, r ::
        ListOpener(opener) && WritesList(inner, arguments) && WritesCompound(r, rest) && s == opener + inner + ")" + r
  }

  /** Compounds with white space between them. */
  ghost predicate WritesComplex(s: string, x: Complex)
    decreases x
  {
    match x
    case Subject(c) => c != End && WritesCompound(s, c)
    case Then(c, rest) =>
      c != End && exists a, gap, b ::
        WritesCompound(a, c) && gap != "" && Blank(gap) && WritesComplex(b, rest) && s == a + gap + b
  }

  /** Parts with commas between them. */
  ghost predicate WritesList(s: string, l: List)
    decreases l
  {
    match l
    case Single(x) => WritesComplex(s, x)
    case Or(x, rest) => exists a, b :: WritesComplex(a, x) && WritesList(b, rest) && s == a + "," + b
  }

  // ----- Written texts are closed, and scans go past them -----

  lemma OpenerShape(opener: string) returns (name: string)
    requires ListOpener(opener)
    ensures opener == ":" + (name + "(") && Balanced(name, 0) && |opener| <= 7
  {
    name := opener[1..|opener| - 1];
    assert opener == ":" + (name + "(");
    LettersBalanced(name);
  }

  lemma {:induction false} LettersBalanced(name: string)
    requires forall i :: 0 <= i < |name| ==> 'a' <= name[i] <= 'z' || 'A' <= name[i] <= 'Z'
    ensures Balanced(name, 0)
  {
    if name != "" { LettersBalanced(name[1..]); }
  }

  lemma Assoc(x: string, y: string, z: string)
    ensures x + y + z == x + (y + z)
  {}

  /** `:`, the name, `(`, the inside, `)`, the rest. */
  lemma Unfold(name: string, inner: string, r: string)
    ensures ":" + (name + "(") + inner + ")" + r == ":" + (name + ("(" + (inner + (")" + r))))
  {
    Assoc(":", name + "(", inner);
    Assoc(name, "(", inner);
    Assoc(":" + (name + ("(" + inner)), ")", r);
    Assoc(":", name + ("(" + inner), ")" + r);
    Assoc(name, "(" + inner, ")" + r);
    Assoc("(", inner, ")" + r);
  }

  lemma ListTextClosed(name: string, inner: string, r: string)
    requires Balanced(name, 0) && Closed(inner, 0) && Closed(r, 0)
    ensures Closed(":" + (name + ("(" + (inner + (")" + r)))), 0)
  {
    hide Balanced, Closed;
    ClosedInside(inner, 0);
    ClosedConcat(inner + ")", 1, r);
    Assoc(inner, ")", r);
    Opened(inner + (")" + r));
    BalancedIsClosed(name, 0);
    ClosedConcat(name, 0, "(" + (inner + (")" + r)));
    Coloned(name + ("(" + (inner + (")" + r))));
  }

  lemma Opened(s: string)
    requires Closed(s, 1)
    ensures Closed("(" + s, 0)
  {
    assert ("(" + s)[1..] == s;
  }

  lemma Coloned(s: string)
    requires Closed(s, 0)
    ensures Closed(":" + s, 0)
  {
    assert (":" + s)[1..] == s;
  }

  lemma {:induction false} CompoundClosed(s: string, c: Compound)
    requires WritesCompound(s, c)
    ensures Closed(s, 0)
    decreases c
  {
    hide Balanced, Spells;
    match c
    case End =>
    case AtomThen(t, rest) =>
      var r :| WritesCompound(r, rest) && s == t + r;
      CompoundClosed(r, rest);
      BalancedIsClosed(t, 0);
      ClosedConcat(t, 0, r);
    case ListThen(arguments, rest) =>
      var opener, inner, r :|
        ListOpener(opener) && WritesList(inner, arguments) && WritesCompound(r, rest) && s == opener + inner + ")" + r;
      ListClosed(inner, arguments);
      CompoundClosed(r, rest);
      var name := OpenerShape(opener);
      Unfold(name, inner, r);
      ListTextClosed(name, inner, r);
  }

  lemma {:induction false} ComplexClosed(s: string, x: Complex)
    requires WritesComplex(s, x)
    ensures Closed(s, 0)
    decreases x
  {
    hide Blank;
    match x
    case Subject(c) => CompoundClosed(s, c);
    case Then(c, rest) =>
      var a, gap, b :| WritesCompound(a, c) && gap != "" && Blank(gap) && WritesComplex(b, rest) && s == a + gap + b;
      CompoundClosed(a, c);
      ComplexClosed(b, rest);
      BlankClosed(gap);
      ClosedConcat(a, 0, gap);
      ClosedConcat(a + gap, 0, b);
  }

  lemma {:induction false} BlankClosed(gap: string)
    requires Blank(gap)
    ensures Closed(gap, 0)
  {
    assert !IsSpace('(') && !IsSpace('[') && !IsSpace(')') && !IsSpace(']');
    hide IsSpace;
    if gap != "" { BlankClosed(gap[1..]); }
  }

  lemma {:induction false} ListClosed(s: string, l: List)
    requires WritesList(s, l)
    ensures Closed(s, 0)
    decreases l
  {
    match l
    case Single(x) => ComplexClosed(s, x);
    case Or(x, rest) =>
      var a, b :| WritesComplex(a, x) && WritesList(b, rest) && s == a + "," + b;
      ComplexClosed(a, x);
      ListClosed(b, rest);
      assert ","[1..] == "" && Closed(",", 0);
      ClosedConcat(a, 0, ",");
      ClosedConcat(a + ",", 0, b);
  }

  lemma Opening(c: char, b: string, stop: string -> bool)
    requires PassesOpening(stop) && (c == ':' || c == '(')
    ensures Skipping(stop) && Until([c] + b, 0, stop) == 1 + Until(b, Deeper(0, c), stop)
  {
    var s := [c] + b;
    assert s[0] == c;
    hide Skipping, Until;
    UntilStep(c, b, 0, stop);
  }

  lemma PastInside(inner: string, r: string, stop: string -> bool)
    requires Closed(inner, 0)
    ensures Until(inner + (")" + r), 1, stop) == |inner| + 1 + Until(r, 0, stop)
  {
    hide Closed, Until;
    UntilClosed(inner, 0, ")" + r, stop);
    UntilStep(')', r, 1, stop);
  }

  lemma PastListText(name: string, inner: string, r: string, stop: string -> bool)
    requires Balanced(name, 0) && Closed(inner, 0) && PassesOpening(stop)
    ensures Until(":" + (name + ("(" + (inner + (")" + r)))), 0, stop) == 3 + |name| + |inner| + Until(r, 0, stop)
  {
    hide Balanced, Closed, Skipping, PassesOpening, Until;
    var t := inner + (")" + r);
    PastInside(inner, r, stop);
    PastName(name, t, stop);
  }

  lemma PastColon(b: string, stop: string -> bool)
    requires PassesOpening(stop)
    ensures Until(":" + b, 0, stop) == 1 + Until(b, 0, stop)
  {
    hide PassesOpening, Skipping, Until;
    Opening(':', b, stop);
  }

  lemma PastParenthesis(b: string, stop: string -> bool)
    requires PassesOpening(stop)
    ensures Skipping(stop) && Until("(" + b, 0, stop) == 1 + Until(b, 1, stop)
  {
    hide PassesOpening, Skipping, Until;
    Opening('(', b, stop);
  }

  lemma PastName(name: string, t: string, stop: string -> bool)
    requires Balanced(name, 0) && PassesOpening(stop)
    ensures Until(":" + (name + ("(" + t)), 0, stop) == 2 + |name| + Until(t, 1, stop)
  {
    hide Balanced, Skipping, PassesOpening, Until, Deeper;
    var u := "(" + t;
    PastParenthesis(t, stop);
    PastWord(name, u, stop);
    PastColon(name + u, stop);
  }

  lemma PastWord(w: string, b: string, stop: string -> bool)
    requires Balanced(w, 0) && Skipping(stop)
    ensures Until(w + b, 0, stop) == |w| + Until(b, 0, stop)
  {
    hide Balanced, Skipping, Until;
    UntilWord(w, 0, b, 0, stop);
  }

  /** A scan for something outside a compound goes past it. */
  lemma {:induction false} PastCompound(s: string, c: Compound, b: string, stop: string -> bool)
    requires WritesCompound(s, c) && PassesOpening(stop)
    ensures Until(s + b, 0, stop) == |s| + Until(b, 0, stop)
    decreases c
  {
    hide Balanced, Spells, Until, Skipping;
    match c
    case End => assert s + b == b;
    case AtomThen(t, rest) =>
      var r :| WritesCompound(r, rest) && s == t + r;
      PastCompound(r, rest, b, stop);
      UntilWord(t, 0, r + b, 0, stop);
      Assoc(t, r, b);
    case ListThen(arguments, rest) =>
      var opener, inner, r :|
        ListOpener(opener) && WritesList(inner, arguments) && WritesCompound(r, rest) && s == opener + inner + ")" + r;
      ListClosed(inner, arguments);
      PastCompound(r, rest, b, stop);
      var name := OpenerShape(opener);
      PastListText(name, inner, r + b, stop);
      Unfold(name, inner, r);
      Append(name, inner, r, b);
  }

  lemma Append(name: string, inner: string, r: string, b: string)
    ensures ":" + (name + ("(" + (inner + (")" + r)))) + b == ":" + (name + ("(" + (inner + (")" + (r + b)))))
  {
    Assoc(")", r, b);
    Assoc(inner, ")" + r, b);
    Assoc("(", inner + (")" + r), b);
    Assoc(name, "(" + (inner + (")" + r)), b);
    Assoc(":", name + ("(" + (inner + (")" + r))), b);
  }

  // ----- Reading back -----

  lemma AtomReads(t: string, r: string)
    requires t != "" && Balanced(t, 0) && Until(r, 0, AtList()) == 0
    ensures ParseCompound(t + r) == AtomThen(t, ParseCompound(r))
  {
    hide Balanced, Until, Skipping, AtList;
    StopsSkip();
    UntilWord(t, 0, r, 0, AtList());
    assert (t + r)[..|t|] == t && (t + r)[|t|..] == r;
  }

  lemma OpensList(s: string, opener: string, rest: string)
    requires ListOpener(opener) && s == opener + rest
    ensures Opener(s) == |opener| > 0 && Until(s, 0, AtList()) == 0 && s[|opener|..] == rest
  {
    assert LowerCase(":where(") && LowerCase(":is(");
    SpelledStart(s, ":where(");
    SpelledStart(s, ":is(");
    assert s[..|opener|] == opener;
    if Spells(opener, ":is(") {
      assert SameLetter(s[1], 'i') && !SameLetter(s[1], 'w');
      assert |s| >= 7 ==> s[..7][1] == s[1];
    }
  }

  lemma ListReadsAt(opener: string, inner: string, r: string)
    requires ListOpener(opener) && Closed(inner, 0)
    ensures ParseCompound(opener + (inner + (")" + r))) == ListThen(ParseList(inner), ParseCompound(r))
  {
    var s := opener + (inner + (")" + r));
    hide Closed, Until, Spells, AtList, AtClose, Opener, ParseCompound, ParseList;
    OpensList(s, opener, inner + (")" + r));
    CloseFound(inner, 0, r);
    ListTextParts(opener, inner, r);
    CompoundOpensList(s, |opener|, inner, r);
  }

  lemma ListTextParts(opener: string, inner: string, r: string)
    ensures var s, n := opener + (inner + (")" + r)), |opener|;
            && |s| == n + |inner| + 1 + |r|
            && s[n..n + |inner|] == inner && s[n + |inner| + 1..] == r
  {}

  lemma CompoundOpensList(s: string, n: nat, inner: string, r: string)
    requires n == Opener(s) > 0 && Until(s, 0, AtList()) == 0 && |inner| == Until(s[n..], 0, AtClose())
    requires n + |inner| < |s| && s[n..n + |inner|] == inner && s[n + |inner| + 1..] == r
    ensures ParseCompound(s) == ListThen(ParseList(inner), ParseCompound(r))
  {
    CompoundUnfolds(s);
    hide Until, AtList, AtClose, Opener, ParseList, ParseCompound;
  }

  lemma CompoundUnfolds(s: string)
    requires s != "" && Until(s, 0, AtList()) == 0
    ensures var n := Opener(s);
            var m := Until(s[n..], 0, AtClose());
            n + m < |s| ==> ParseCompound(s) == ListThen(ParseList(s[n..n + m]), ParseCompound(s[n + m + 1..]))
  {
    hide Until, AtList, AtClose, Opener, ParseList;
  }

  lemma {:induction false} CompoundReads(s: string, c: Compound)
    requires WritesCompound(s, c)
    ensures ParseCompound(s) == c
    decreases c
  {
    hide Balanced, Spells, Until, ParseCompound, ParseList;
    match c
    case End => EmptyReads();
    case AtomThen(t, rest) =>
      var r :| WritesCompound(r, rest) && s == t + r;
      CompoundReads(r, rest);
      NextIsList(r, rest);
      AtomReads(t, r);
    case ListThen(arguments, rest) =>
      var opener, inner, r :|
        ListOpener(opener) && WritesList(inner, arguments) && WritesCompound(r, rest) && s == opener + inner + ")" + r;
      ListClosed(inner, arguments);
      ListReads(inner, arguments);
      CompoundReads(r, rest);
      ListReadsAt(opener, inner, r);
      Assoc(opener, inner, ")");
      Assoc(opener, inner + ")", r);
      Assoc(inner, ")", r);
  }

  lemma EmptyReads()
    ensures ParseCompound("") == End
  {}

  lemma NextIsList(r: string, rest: Compound)
    requires WritesCompound(r, rest) && !rest.AtomThen?
    ensures Until(r, 0, AtList()) == 0
  {
    hide Spells;
    if rest.ListThen? {
      var opener, inner, q :|
        ListOpener(opener) && WritesList(inner, rest.arguments) && WritesCompound(q, rest.rest) && r == opener + inner + ")" + q;
      OpensList(r, opener, inner + ")" + q);
      Assoc(opener, inner, ")");
      Assoc(opener, inner + ")", q);
    }
  }

  lemma CompoundStarts(s: string, c: Compound)
    requires WritesCompound(s, c) && c != End
    ensures s != "" && !IsSpace(s[0])
  {
    if c.ListThen? {
      hide WritesList;
      var opener, inner, r :|
        ListOpener(opener) && WritesList(inner, c.arguments) && WritesCompound(r, c.rest) && s == opener + inner + ")" + r;
      assert s[0] == opener[0] == ':' && !IsSpace(':');
    }
  }

  lemma ComplexStarts(s: string, x: Complex)
    requires WritesComplex(s, x)
    ensures s != "" && !IsSpace(s[0])
  {
    hide IsSpace, Blank, WritesCompound;
    match x
    case Subject(c) => CompoundStarts(s, c);
    case Then(c, rest) =>
      var a, gap, b :| WritesCompound(a, c) && gap != "" && Blank(gap) && WritesComplex(b, rest) && s == a + gap + b;
      CompoundStarts(a, c);
      assert s[0] == a[0];
  }

  /** Blanks are no commas. */
  lemma {:induction false} PastBlank(gap: string, b: string)
    requires Blank(gap)
    ensures Until(gap + b, 0, AtComma()) == |gap| + Until(b, 0, AtComma())
  {
    if gap == "" {
      assert gap + b == b;
    } else {
      var c := gap[0];
      assert IsSpace(c) && c != ',' && Deeper(0, c) == 0;
      hide IsSpace, Until;
      assert gap + b == [c] + (gap[1..] + b);
      UntilStep(c, gap[1..] + b, 0, AtComma());
      PastBlank(gap[1..], b);
    }
  }

  lemma {:induction false} PastComplex(s: string, x: Complex, b: string)
    requires WritesComplex(s, x)
    ensures Until(s + b, 0, AtComma()) == |s| + Until(b, 0, AtComma())
    decreases x
  {
    StopsPassOpening();
    hide Until, Blank, WritesCompound, PassesOpening, Skipping, AtComma;
    match x
    case Subject(c) => PastCompound(s, c, b, AtComma());
    case Then(c, rest) =>
      var a, gap, q :| WritesCompound(a, c) && gap != "" && Blank(gap) && WritesComplex(q, rest) && s == a + gap + q;
      PastComplex(q, rest, b);
      PastBlank(gap, q + b);
      PastCompound(a, c, gap + (q + b), AtComma());
      Regrouped(a, gap, q, b);
  }

  lemma Regrouped(a: string, gap: string, q: string, b: string)
    ensures a + gap + q + b == a + (gap + (q + b))
  {
    Assoc(a, gap, q);
    Assoc(a, gap + q, b);
    Assoc(gap, q, b);
  }

  lemma AtEnd(stop: string -> bool)
    ensures Until("", 0, stop) == 0
  {}

  lemma BlankStops(gap: string, b: string)
    requires gap != "" && Blank(gap)
    ensures Until(gap + b, 0, AtBlank()) == 0
  {
    assert (gap + b)[0] == gap[0];
  }

  lemma SubjectReadsAt(s: string)
    requires s != "" && !IsSpace(s[0]) && Until(s, 0, AtBlank()) == |s|
    ensures ParseComplex(s) == Subject(ParseCompound(s))
  {
    hide IsSpace, Until, ParseCompound;
    assert s[..|s|] == s && s[|s|..] == "";
  }

  lemma ThenReadsAt(a: string, gap: string, b: string)
    requires a != "" && !IsSpace(a[0]) && b != "" && !IsSpace(b[0]) && Blank(gap)
    requires Until(a + (gap + b), 0, AtBlank()) == |a|
    ensures ParseComplex(a + (gap + b)) == Then(ParseCompound(a), ParseComplex(b))
  {
    hide IsSpace, Until, ParseCompound;
    var s := a + (gap + b);
    assert s[0] == a[0] && s[..|a|] == a && s[|a|..] == gap + b;
    SkipBlank(gap, b);
  }

  lemma {:induction false} ComplexReads(s: string, x: Complex)
    requires WritesComplex(s, x)
    ensures ParseComplex(s) == x
    decreases x, 0
  {
    StopsPassOpening();
    hide IsSpace, Until, Blank, WritesCompound, PassesOpening, Skipping, AtBlank, ParseCompound, ParseComplex;
    match x
    case Subject(c) =>
      CompoundStarts(s, c);
      PastCompound(s, c, "", AtBlank());
      assert s + "" == s;
      AtEnd(AtBlank());
      SubjectReadsAt(s);
      CompoundReads(s, c);
    case Then(c, rest) =>
      var a, gap, b :| WritesCompound(a, c) && gap != "" && Blank(gap) && WritesComplex(b, rest) && s == a + gap + b;
      CompoundStarts(a, c);
      ComplexStarts(b, rest);
      PastCompound(a, c, gap + b, AtBlank());
      BlankStops(gap, b);
      Assoc(a, gap, b);
      ThenReadsAt(a, gap, b);
      CompoundReads(a, c);
      ComplexReads(b, rest);
  }

  lemma SingleReadsAt(s: string)
    requires Until(s, 0, AtComma()) == |s|
    ensures ParseList(s) == Single(ParseComplex(s)) && Parts(s) == [s]
  {
    hide Until, ParseComplex;
  }

  lemma OrReadsAt(a: string, b: string)
    requires Until(a + ("," + b), 0, AtComma()) == |a|
    ensures ParseList(a + ("," + b)) == Or(ParseComplex(a), ParseList(b)) && Parts(a + ("," + b)) == [a] + Parts(b)
  {
    hide Until, ParseComplex;
    var s := a + ("," + b);
    assert s[..|a|] == a && s[|a| + 1..] == b;
  }

  lemma CommaStops(b: string)
    ensures Until("," + b, 0, AtComma()) == 0
  {}

  /**
   * Round trip: a selector list written with any spacing and any letter case of `:where` and `:is` is read
   * as the tree it was written from.
   */
  lemma {:induction false} ListReads(s: string, l: List)
    requires WritesList(s, l)
    ensures ParseList(s) == l
    decreases l
  {
    hide Until, WritesComplex, AtComma, ParseList, ParseComplex, Parts;
    match l
    case Single(x) => PartReads(s, x);
    case Or(x, rest) =>
      var a, b :| WritesComplex(a, x) && WritesList(b, rest) && s == a + "," + b;
      PastComplex(a, x, "," + b);
      CommaStops(b);
      Assoc(a, ",", b);
      OrReadsAt(a, b);
      ComplexReads(a, x);
      ListReads(b, rest);
  }

  /** One part alone. */
  lemma PartReads(s: string, x: Complex)
    requires WritesComplex(s, x)
    ensures ParseComplex(s) == x && Parts(s) == [s] && ParseList(s) == Single(x)
    decreases x, 1
  {
    hide Until, WritesComplex, AtComma, ParseComplex, ParseList, Parts;
    PastComplex(s, x, "");
    assert s + "" == s;
    AtEnd(AtComma());
    SingleReadsAt(s);
    ComplexReads(s, x);
  }

  /** The first part is up to the first comma. */
  lemma FirstPart(a: string, x: Complex, b: string)
    requires WritesComplex(a, x)
    ensures Parts(a + ("," + b)) == [a] + Parts(b)
  {
    hide Until, WritesComplex, AtComma, ParseComplex, ParseList, Parts;
    PastComplex(a, x, "," + b);
    CommaStops(b);
    OrReadsAt(a, b);
  }

  // ----- Writing -----

  lemma WriteWord(w: string)
    requires w != "" && Balanced(w, 0)
    ensures WritesCompound(w, AtomThen(w, End)) && WritesComplex(w, Subject(AtomThen(w, End)))
  {
    assert w == w + "";
    assert WritesCompound("", End);
    hide Balanced;
  }

  lemma WriteList(opener: string, inner: string, l: List)
    requires ListOpener(opener) && WritesList(inner, l)
    ensures WritesCompound(opener + inner + ")", ListThen(l, End)) && WritesComplex(opener + inner + ")", Subject(ListThen(l, End)))
  {
    hide Spells, WritesList;
    assert WritesCompound("", End);
    assert opener + inner + ")" == opener + inner + ")" + "";
  }

  lemma WriteOr(a: string, x: Complex, b: string, y: Complex)
    requires WritesComplex(a, x) && WritesComplex(b, y)
    ensures WritesList(a + "," + b, Or(x, Single(y)))
  {
    hide WritesComplex;
    assert WritesList(b, Single(y));
  }

  lemma WriteThen(a: string, c: Compound, b: string, x: Complex)
    requires c != End && WritesCompound(a, c) && WritesComplex(b, x)
    ensures WritesComplex(a + " " + b, Then(c, x))
  {
    assert Blank(" ");
    hide Blank, WritesCompound;
    var gap := " ";
    assert WritesCompound(a, c) && gap != "" && Blank(gap) && WritesComplex(b, x) && a + " " + b == a + gap + b;
  }

  // ----- The Dock's class -----

  /** Ends of a text that no name goes on across. */
  predicate NameEnds(b: string) { b == "" || !NameChar(b[0]) }

  /** The brackets left open behind `a`. */
  function DepthAfter(a: string, depth: nat): nat {
    if a == "" then depth else DepthAfter(a[1..], Deeper(depth, a[0]))
  }

  ghost predicate DockAfter(a: string, b: string, s: string, depth: nat) {
    s == a + (".dock" + b) && NameEnds(b) && DepthAfter(a, depth) == 0
  }

  lemma DockHere(s: string)
    ensures StartsWith(s, ".dock") && (|s| == 5 || !NameChar(s[5])) <==> exists b :: DockAfter("", b, s, 0)
  {
    hide NameChar;
    if StartsWith(s, ".dock") && (|s| == 5 || !NameChar(s[5])) {
      var b := s[5..];
      assert s == s[..5] + b;
      assert DockAfter("", b, s, 0);
    }
    if exists b :: DockAfter("", b, s, 0) {
      var b :| DockAfter("", b, s, 0);
      assert s == ".dock" + b && s[..5] == ".dock" && s[5..] == b;
    }
  }

  lemma DockLater(c: char, t: string, depth: nat)
    ensures (exists a, b :: DockAfter(a, b, t, Deeper(depth, c))) ==> exists a, b :: DockAfter(a, b, [c] + t, depth)
  {
    hide NameEnds;
    if exists a, b :: DockAfter(a, b, t, Deeper(depth, c)) {
      var a, b :| DockAfter(a, b, t, Deeper(depth, c));
      var a' := [c] + a;
      assert a'[1..] == a && [c] + t == a' + (".dock" + b);
      assert DockAfter(a', b, [c] + t, depth);
    }
  }

  lemma DockSooner(a: string, b: string, s: string, depth: nat)
    requires DockAfter(a, b, s, depth) && a != ""
    ensures s != "" && DockAfter(a[1..], b, s[1..], Deeper(depth, s[0]))
  {
    hide NameEnds;
    assert s[0] == a[0] && s[1..] == a[1..] + (".dock" + b);
  }

  /** The class is there iff `.dock` occurs where no bracket is open and the name ends. */
  lemma {:induction false} DockClassIff(s: string, depth: nat)
    ensures HasDockClass(s, depth) <==> exists a, b :: DockAfter(a, b, s, depth)
    decreases |s|
  {
    hide NameChar, NameEnds, DockAfter;
    if s == "" {
      NoDockInNothing(depth);
    } else {
      DockHere(s);
      DockClassIff(s[1..], Deeper(depth, s[0]));
      DockLater(s[0], s[1..], depth);
      assert s == [s[0]] + s[1..];
      if exists a, b :: DockAfter(a, b, s, depth) {
        var a, b :| DockAfter(a, b, s, depth);
        if a == "" { NothingOpen(b, s, depth); } else { DockSooner(a, b, s, depth); }
      }
    }
  }

  lemma NoDockInNothing(depth: nat)
    ensures forall a, b :: !DockAfter(a, b, "", depth)
  {
    forall a, b ensures !DockAfter(a, b, "", depth) {
      assert |a + (".dock" + b)| >= 5;
    }
  }

  lemma NothingOpen(b: string, s: string, depth: nat)
    requires DockAfter("", b, s, depth)
    ensures depth == 0
  {}
}
