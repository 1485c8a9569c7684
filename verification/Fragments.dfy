/**
 * The check cuts a condition at every comma, also at those between the arguments of a list. Still, when
 * every fragment has the phone pattern and no `not`, every way for the selector to hold does.
 */
module Fragments {
  import opened Text
  import opened DockCheck
  import opened DockReader
  import opened Selectors

  const PATTERN := "[data-tier=\"phone\"]"

  /** The fragment says that the tier is phone. */
  predicate Tells(f: string) {
    HasPhone(f) && !HasNot(f)
  }

  /** Some fragment does not. */
  predicate Lacks(s: string) {
    exists f :: f in SplitOn(s, ',') && !Tells(f)
  }

  /** Not part of the pattern or of a word. */
  predicate Break(c: char) {
    !WordChar(c) && c != '[' && c != '-' && c != '=' && c != '"' && c != ']'
  }

  /** Where `x` and `y` meet, neither the pattern nor a word runs across. */
  predicate Apart(x: string, y: string) {
    x == "" || y == "" || Break(x[|x| - 1]) || Break(y[0])
  }

  // ----- Putting fragments together -----

  lemma PatternHasNoBreak()
    ensures |PATTERN| == 19 && forall i :: 0 <= i < 19 ==> !Break(PATTERN[i])
  {}

  lemma PhoneAt(s: string, i: nat)
    requires i <= |s| && StartsWith(s[i..], PATTERN)
    ensures HasPhone(s) && i + 19 <= |s| && s[i..i + 19] == PATTERN
  {
    assert |PATTERN| == 19;
    assert s[i..][..19] == s[i..i + 19];
  }

  lemma PhoneRunsNotAcross(u: string, v: string)
    requires Apart(u, v) && HasPhone(u + v)
    ensures HasPhone(u) || HasPhone(v)
  {
    PatternHasNoBreak();
    var s := u + v;
    var i :| 0 <= i <= |s| && StartsWith(s[i..], PATTERN);
    PhoneAt(s, i);
    forall k | i <= k < i + 19 ensures !Break(s[k]) { assert s[k] == s[i..i + 19][k - i]; }
    assert u != "" ==> u[|u| - 1] == s[|u| - 1];
    assert v != "" ==> v[0] == s[|u|];
    hide PATTERN, HasPhone, Break;
    if i + 19 <= |u| {
      assert u[i..][..19] == s[i..i + 19];
      PhoneAt(u, i);
    } else {
      assert i >= |u|;
      assert v[i - |u|..][..19] == s[i..i + 19];
      PhoneAt(v, i - |u|);
    }
  }

  lemma NotStays(u: string, v: string)
    requires Apart(u, v) && (HasNot(u) || HasNot(v))
    ensures HasNot(u + v)
  {
    var s := u + v;
    if HasNot(u) {
      var i :| 0 <= i <= |u| && NotAt(u, i);
      assert u[i..][2] == u[i + 2] && forall k :: 0 <= k < 3 ==> s[i..][k] == u[i..][k];
      assert NotAt(s, i);
    } else {
      var i :| 0 <= i <= |v| && NotAt(v, i);
      assert v[i..][0] == v[i];
      assert s[|u| + i..] == v[i..];
      assert NotAt(s, |u| + i);
    }
  }

  lemma TellsNotAcross(u: string, v: string)
    requires Apart(u, v) && !Tells(u) && !Tells(v)
    ensures !Tells(u + v)
  {
    hide HasPhone, HasNot, Apart;
    if HasNot(u) || HasNot(v) {
      NotStays(u, v);
    } else if HasPhone(u + v) {
      PhoneRunsNotAcross(u, v);
    }
  }

  /** The first fragment starts the text, and the last one ends it. */
  lemma {:induction false} FragmentsAtEnds(s: string)
    ensures var fs := SplitOn(s, ','); StartsWith(s, fs[0])
    ensures var fs := SplitOn(s, ','); |fs[|fs| - 1]| <= |s| && s[|s| - |fs[|fs| - 1]|..] == fs[|fs| - 1]
    decreases |s|
  {
    hide SplitOn;
    var i := IndexOf(s, ',');
    if i < 0 {
      SplitOnWhole(s, ',');
    } else {
      var head, tail := s[..i], s[i + 1..];
      FragmentsAtEnds(tail);
      SplitOnFirst(head, ',', tail);
      assert s == head + [','] + tail;
      var gs := SplitOn(tail, ',');
      var last := gs[|gs| - 1];
      assert s[|s| - |last|..] == tail[|tail| - |last|..];
    }
  }

  /** Splitting two texts put together: the last fragment of one and the first of the other become one. */
  lemma {:induction false} FragmentsMeet(x: string, y: string)
    ensures var fs, gs := SplitOn(x, ','), SplitOn(y, ',');
            SplitOn(x + y, ',') == fs[..|fs| - 1] + [fs[|fs| - 1] + gs[0]] + gs[1..]
    decreases |x|
  {
    hide SplitOn;
    var i := IndexOf(x, ',');
    if i >= 0 {
      var head, tail := x[..i], x[i + 1..];
      FragmentsMeet(tail, y);
      SplitOnFirst(head, ',', tail);
      SplitOnFirst(head, ',', tail + y);
      assert x == head + [','] + tail && x + y == head + [','] + (tail + y);
      var fs, gs := SplitOn(tail, ','), SplitOn(y, ',');
      var all := [head] + fs;
      assert all[..|all| - 1] == [head] + fs[..|fs| - 1];
    } else {
      SplitOnWhole(x, ',');
      FirstFragment(x, y);
    }
  }

  lemma FirstFragment(x: string, y: string)
    requires Free(x, ',')
    ensures var gs := SplitOn(y, ','); SplitOn(x + y, ',') == [x + gs[0]] + gs[1..]
  {
    hide SplitOn;
    var j := IndexOf(y, ',');
    if j < 0 {
      SplitOnWhole(y, ',');
      SplitOnWhole(x + y, ',');
    } else {
      var head, tail := y[..j], y[j + 1..];
      SplitOnFirst(head, ',', tail);
      SplitOnFirst(x + head, ',', tail);
      assert y == head + [','] + tail && x + y == x + head + [','] + tail;
    }
  }

  /** Two texts that each lack a telling fragment still do when put together. */
  lemma LacksTogether(x: string, y: string)
    requires Lacks(x) && Lacks(y) && Apart(x, y)
    ensures Lacks(x + y)
  {
    FragmentsMeet(x, y);
    FragmentsAtEnds(x);
    FragmentsAtEnds(y);
    hide SplitOn, Tells, StartsWith;
    var fs, gs, all := SplitOn(x, ','), SplitOn(y, ','), SplitOn(x + y, ',');
    var f :| f in fs && !Tells(f);
    var g :| g in gs && !Tells(g);
    var i :| 0 <= i < |fs| && fs[i] == f;
    var j :| 0 <= j < |gs| && gs[j] == g;
    if i < |fs| - 1 {
      assert all[i] == f;
    } else if j > 0 {
      assert all[|fs| - 1 + j] == g;
    } else {
      assert Apart(f, g) by { LastAndFirst(x, y, f, g); }
      TellsNotAcross(f, g);
      assert all[|fs| - 1] == f + g;
    }
  }

  lemma LastAndFirst(x: string, y: string, f: string, g: string)
    requires Apart(x, y) && |f| <= |x| && x[|x| - |f|..] == f && StartsWith(y, g)
    ensures Apart(f, g)
  {
    hide Break;
    if f != "" { assert f[|f| - 1] == x[|x| - 1]; }
    if g != "" { assert g[0] == y[..|g|][0] == y[0]; }
  }

  lemma LacksInList(x: string, y: string)
    requires Lacks(x) || Lacks(y)
    ensures Lacks(x + "," + y)
  {
    hide SplitOn, Tells;
    SplitOnBoth(x, ',', y);
  }

  // ----- Texts that lack -----

  lemma ShortLacks(s: string)
    requires |s| < 19
    ensures Lacks(s)
  {
    FragmentsAtEnds(s);
    var f := SplitOn(s, ',')[0];
    assert |f| < 19 == |PATTERN|;
    assert !HasPhone(f);
    assert f in SplitOn(s, ',');
  }

  lemma {:induction false} NotInFragment(s: string)
    requires HasNot(s)
    ensures exists f :: f in SplitOn(s, ',') && HasNot(f)
    decreases |s|
  {
    var i := IndexOf(s, ',');
    if i < 0 {
      SplitOnWhole(s, ',');
      assert s in SplitOn(s, ',');
    } else {
      var head, tail := s[..i], s[i + 1..];
      assert s == head + [','] + tail;
      SplitOnFirst(head, ',', tail);
      NotOnOneSide(head, tail);
      if HasNot(head) {
        assert head in SplitOn(s, ',');
      } else {
        NotInFragment(tail);
        var f :| f in SplitOn(tail, ',') && HasNot(f);
        assert f in SplitOn(s, ',');
      }
    }
  }

  lemma NotOnOneSide(head: string, tail: string)
    requires HasNot(head + [','] + tail)
    ensures HasNot(head) || HasNot(tail)
  {
    var s := head + [','] + tail;
    var i :| 0 <= i <= |s| && NotAt(s, i);
    assert forall k :: 0 <= k < 3 ==> s[i..][k] == s[i + k];
    assert Lower(s[i]) == 'n' && Lower(s[i + 1]) == 'o' && Lower(s[i + 2]) == 't';
    assert s[|head|] == ',';
    if i + 3 <= |head| {
      assert forall k :: 0 <= k < 3 ==> head[i..][k] == s[i + k];
      assert NotAt(head, i);
    } else {
      assert i > |head|;
      var j := i - |head| - 1;
      assert tail[j..] == s[i..];
      assert NotAt(tail, j);
    }
  }

  lemma PhoneOfStart(s: string, f: string)
    requires StartsWith(s, f) && HasPhone(f)
    ensures HasPhone(s)
  {
    var i :| 0 <= i <= |f| && StartsWith(f[i..], PATTERN);
    PhoneAt(f, i);
    assert s[i..][..19] == f[i..i + 19];
    assert StartsWith(s[i..], PATTERN);
  }

  lemma UnknownTextLacks(s: string)
    requires !KnownText(s)
    ensures Lacks(s)
  {
    if HasNot(s) {
      NotInFragment(s);
      var f :| f in SplitOn(s, ',') && HasNot(f);
      assert !Tells(f);
    } else {
      assert !HasPhone(s);
      FragmentsAtEnds(s);
      var f := SplitOn(s, ',')[0];
      if HasPhone(f) { PhoneOfStart(s, f); }
      assert f in SplitOn(s, ',') && !Tells(f);
    }
  }

  // ----- Selectors that are not known lack -----

  lemma {:induction false} UnknownCompoundLacks(s: string)
    requires !KnownCompound(ParseCompound(s))
    ensures Lacks(s)
    decreases |s|, 0
  {
    hide Lacks, ReadFeature, StartsWithWord;
    if s == "" {
      ShortLacks(s);
    } else {
      var i := Until(s, 0, AtList());
      if i > 0 {
        UnknownTextLacks(s[..i]);
        UnknownCompoundLacks(s[i..]);
        AtomTextLacks(s, i);
      } else {
        var n := Opener(s);
        var m := Until(s[n..], 0, AtClose());
        UnknownListLacks(s[n..n + m]);
        UnknownCompoundLacks(if n + m < |s| then s[n + m + 1..] else "");
        assert n + m < |s| ==> s[n..][m] == s[n + m];
        ListTextLacks(s, n, m);
      }
    }
  }

  lemma AtomTextLacks(s: string, i: nat)
    requires i == Until(s, 0, AtList()) && Lacks(s[..i]) && Lacks(s[i..])
    ensures Lacks(s)
  {
    hide Lacks, Until;
    assert Apart(s[..i], s[i..]);
    LacksTogether(s[..i], s[i..]);
    assert s == s[..i] + s[i..];
  }

  /** `:where(` or `:is(`, the arguments, and what follows. */
  lemma ListTextLacks(s: string, n: nat, m: nat)
    requires 0 < n <= 7 && n + m <= |s| && s[n - 1] == '(' && (n + m < |s| ==> s[n + m] == ')')
    requires Lacks(s[n..n + m]) && Lacks(if n + m < |s| then s[n + m + 1..] else "")
    ensures Lacks(s)
  {
    hide Lacks;
    var opener, inner := s[..n], s[n..n + m];
    assert opener[n - 1] == '(';
    ShortLacks(opener);
    LacksTogether(opener, inner);
    if n + m < |s| {
      var close, rest := s[n + m..n + m + 1], s[n + m + 1..];
      ShortLacks(close);
      CloseBreaks(opener + inner, close, rest, s);
    } else {
      assert s == opener + inner;
    }
  }

  /** A bracket that closes: `)` keeps its two sides apart. */
  lemma CloseBreaks(before: string, close: string, rest: string, s: string)
    requires Lacks(before) && Lacks(close) && Lacks(rest) && close == ")" && s == before + close + rest
    ensures Lacks(s)
  {
    hide Lacks;
    LacksTogether(before, close);
    assert (before + close)[|before + close| - 1] == ')';
    LacksTogether(before + close, rest);
  }

  lemma SpaceBreaks(c: char)
    requires IsSpace(c)
    ensures Break(c) && c != ','
  {}

  lemma {:induction false} SkippedSpaces(s: string)
    ensures var r := SkipSpaces(s);
            s == s[..|s| - |r|] + r && forall i :: 0 <= i < |s| - |r| ==> IsSpace(s[i])
  {
    hide IsSpace;
    if s != "" && IsSpace(s[0]) {
      SkippedSpaces(s[1..]);
      var r := SkipSpaces(s[1..]);
      assert forall i :: 0 < i < |s| - |r| ==> s[i] == s[1..][i - 1];
      assert s == s[..|s| - |r|] + r;
    }
  }

  lemma BlankLacks(s: string)
    requires forall i :: 0 <= i < |s| ==> IsSpace(s[i])
    ensures Lacks(s)
  {
    forall i | 0 <= i < |s| ensures s[i] != ',' && Break(s[i]) { SpaceBreaks(s[i]); }
    SplitOnWhole(s, ',');
    PatternHasNoBreak();
    hide IsSpace, Break;
    forall i | 0 <= i <= |s| ensures !StartsWith(s[i..], PATTERN) {
      assert |s[i..]| >= 19 ==> s[i..][..19][0] == s[i];
    }
    assert s in SplitOn(s, ',') && !HasPhone(s);
  }

  /** White space in front adds nothing. */
  lemma SkippedLacks(s: string)
    requires Lacks(SkipSpaces(s))
    ensures Lacks(s)
  {
    var r := SkipSpaces(s);
    SkippedSpaces(s);
    var lead := s[..|s| - |r|];
    hide Lacks, IsSpace, Break, SkipSpaces;
    assert forall i :: 0 <= i < |lead| ==> lead[i] == s[i];
    BlankLacks(lead);
    if lead != "" { SpaceBreaks(lead[|lead| - 1]); }
    LacksTogether(lead, r);
  }

  /** Two words with white space between them. */
  lemma WordsLack(word: string, gap: string)
    requires Lacks(word) && Lacks(SkipSpaces(gap)) && (gap != "" ==> IsSpace(gap[0]))
    ensures Lacks(word + gap)
  {
    hide Lacks, IsSpace, Break, SkipSpaces;
    SkippedLacks(gap);
    if gap != "" { SpaceBreaks(gap[0]); }
    LacksTogether(word, gap);
  }

  lemma {:induction false} UnknownComplexLacks(s: string)
    requires !KnownComplex(ParseComplex(s))
    ensures Lacks(s)
    decreases |s|, 1
  {
    hide Lacks, ReadFeature, IsSpace, SkipSpaces;
    var t := SkipSpaces(s);
    var i := Until(t, 0, AtBlank());
    var word, gap := t[..i], t[i..];
    var rest := SkipSpaces(gap);
    UnknownCompoundLacks(word);
    if rest == "" {
      ShortLacks(rest);
    } else {
      UnknownComplexLacks(rest);
    }
    WordsLack(word, gap);
    assert t == word + gap;
    SkippedLacks(s);
  }

  lemma ListAtComma(s: string, i: nat)
    requires i < |s| && s[i] == ',' && (Lacks(s[..i]) || Lacks(s[i + 1..]))
    ensures Lacks(s)
  {
    hide Lacks;
    LacksInList(s[..i], s[i + 1..]);
    assert s == s[..i] + "," + s[i + 1..];
  }

  /** A list with an argument that is not known has a fragment that does not tell. */
  lemma {:induction false} UnknownListLacks(s: string)
    requires !KnownList(ParseList(s))
    ensures Lacks(s)
    decreases |s|, 2
  {
    hide Lacks, ReadFeature, KnownComplex, ParseComplex;
    var i := Until(s, 0, AtComma());
    if i == |s| {
      UnknownComplexLacks(s);
    } else {
      if !KnownComplex(ParseComplex(s[..i])) { UnknownComplexLacks(s[..i]); } else { UnknownListLacks(s[i + 1..]); }
      ListAtComma(s, i);
    }
  }

  // ----- What the check accepts tells -----

  /** White space, the word, white space. */
  lemma JointShape(s: string, word: string) returns (a: nat)
    requires Joint(s, word) > 0
    ensures 0 < a && a + |word| < Joint(s, word)
    ensures forall k :: 0 <= k < a ==> IsSpace(s[k])
    ensures forall k :: 0 <= k < |word| ==> Lower(s[a + k]) == word[k]
    ensures forall k :: a + |word| <= k < Joint(s, word) ==> IsSpace(s[k])
  {
    var t := SkipSpaces(s);
    a := |s| - |t|;
    SkippedSpaces(s);
    var u := t[|word|..];
    SkippedSpaces(u);
    hide IsSpace, SkipSpaces, Lower;
    assert forall k :: 0 <= k < |t| ==> t[k] == s[a + k];
    assert forall k :: 0 <= k < |u| ==> u[k] == s[a + |word| + k];
  }

  lemma NotAcrossJoint(u: string, s: string, word: string)
    requires Joint(s, word) > 0 && (word == "or" || word == "and") && HasNot(u + s)
    ensures HasNot(u) || HasNot(s[Joint(s, word)..])
  {
    var n, whole := Joint(s, word), u + s;
    var a := JointShape(s, word);
    var i :| 0 <= i <= |whole| && NotAt(whole, i);
    NotLetters(whole, i);
    hide Joint;
    if i + 3 <= |u| {
      assert forall k :: 0 <= k < 3 ==> u[i..][k] == whole[i + k];
      assert NotAt(u, i);
    } else {
      forall k | |u| <= k < |u| + n && !(a <= k - |u| < a + |word|) ensures IsSpace(whole[k]) {
        assert whole[k] == s[k - |u|];
      }
      assert whole[|u| + a] == s[a];
      assert i >= |u| + n;
      var j := i - |u| - n;
      assert s[n..][j..] == whole[i..];
      assert NotAt(s[n..], j);
    }
  }

  lemma NotLetters(s: string, i: nat)
    requires i <= |s| && NotAt(s, i)
    ensures i + 3 <= |s| && Lower(s[i]) == 'n' && Lower(s[i + 1]) == 'o' && Lower(s[i + 2]) == 't'
    ensures !IsSpace(s[i]) && !IsSpace(s[i + 1]) && !IsSpace(s[i + 2])
  {
    assert forall k :: 0 <= k < 3 ==> s[i..][k] == s[i + k];
  }

  lemma {:induction false} NotInPiece(piece: string, s: string, word: string)
    requires (word == "or" || word == "and") && HasNot(piece + s)
    ensures exists p :: p in SplitAtWord(piece, s, word) && HasNot(p)
    decreases |s|
  {
    hide Joint, HasNot;
    var parts := SplitAtWord(piece, s, word);
    if s == "" {
      assert piece + s == piece && piece in parts;
    } else if Joint(s, word) > 0 {
      NotAcrossJoint(piece, s, word);
      if HasNot(piece) {
        assert piece in parts;
      } else {
        var rest := s[Joint(s, word)..];
        assert "" + rest == rest;
        NotInPiece("", rest, word);
        var p :| p in SplitAtWord("", rest, word) && HasNot(p);
        assert p in parts;
      }
    } else {
      assert piece + [s[0]] + s[1..] == piece + s;
      NotInPiece(piece + [s[0]], s[1..], word);
    }
  }

  lemma {:induction false} FirstPieceStarts(piece: string, s: string, word: string)
    ensures StartsWith(piece + s, SplitAtWord(piece, s, word)[0])
    decreases |s|
  {
    hide Joint;
    if s != "" && Joint(s, word) == 0 {
      FirstPieceStarts(piece + [s[0]], s[1..], word);
      assert piece + [s[0]] + s[1..] == piece + s;
    }
  }

  /** Every feature of the condition is known. */
  lemma FeatureKnown(s: string, arm: string, term: string, piece: string)
    requires !ConditionUnknown(ConditionOf(s)) && arm in SplitOn(s, ',')
    requires term in SplitAtWord("", arm, "or") && piece in SplitAtWord("", term, "and")
    ensures ReadFeature(piece).Known?
  {
    hide SplitOn, SplitAtWord, ReadFeature;
    var i :| 0 <= i < |SplitOn(s, ',')| && SplitOn(s, ',')[i] == arm;
    assert ConditionOf(s)[i] == TermsOf(arm) && TermsOf(arm) in ConditionOf(s);
    var j :| 0 <= j < |SplitAtWord("", arm, "or")| && SplitAtWord("", arm, "or")[j] == term;
    assert TermsOf(arm)[j] == FeaturesOf(term) && FeaturesOf(term) in TermsOf(arm);
    var k :| 0 <= k < |SplitAtWord("", term, "and")| && SplitAtWord("", term, "and")[k] == piece;
    assert FeaturesOf(term)[k] == ReadFeature(piece) && ReadFeature(piece) in FeaturesOf(term);
  }

  lemma DropFromBoth(f: string, v: string, i: nat)
    requires i <= |f|
    ensures (f + v)[i..] == f[i..] + v
  {}

  lemma CoarseOfStart(s: string, f: string)
    requires StartsWith(s, f) && HasCoarse(f)
    ensures HasCoarse(s)
  {
    var i :| 0 <= i <= |f| && CoarseAt(f[i..]);
    var v := s[|f|..];
    assert s == f + v;
    DropFromBoth(f, v, i);
    CoarseWithMore(f[i..], v);
    assert CoarseAt(s[i..]);
  }

  lemma CoarseWithMore(s: string, v: string)
    requires CoarseAt(s)
    ensures CoarseAt(s + v)
  {
    hide IsSpace;
    assert (s + v)[..9] == s[..9] && (s + v)[9..] == s[9..] + v;
    SkipsSame(s[9..], v);
    var t := SkipSpaces(s[9..]);
    assert (t + v)[..7] == t[..7];
  }

  lemma {:induction false} SkipsSame(s: string, v: string)
    requires SkipSpaces(s) != ""
    ensures SkipSpaces(s + v) == SkipSpaces(s) + v
  {
    hide IsSpace;
    if s != "" && IsSpace(s[0]) {
      SkipsSame(s[1..], v);
      assert (s + v)[1..] == s[1..] + v;
    }
  }

  lemma CoarseOfEnd(u: string, f: string)
    requires HasCoarse(f)
    ensures HasCoarse(u + f)
  {
    var i :| 0 <= i <= |f| && CoarseAt(f[i..]);
    assert (u + f)[|u| + i..] == f[i..];
  }

  lemma {:induction false} CoarseOfFragment(s: string, f: string)
    requires f in SplitOn(s, ',') && HasCoarse(f)
    ensures HasCoarse(s)
    decreases |s|
  {
    hide HasCoarse, SplitOn;
    var i := IndexOf(s, ',');
    if i < 0 {
      SplitOnWhole(s, ',');
    } else {
      var head, tail := s[..i], s[i + 1..];
      SplitOnFirst(head, ',', tail);
      assert s == head + [','] + tail;
      if f == head {
        CoarseOfStart(s, f);
      } else {
        CoarseOfFragment(tail, f);
        CoarseOfEnd(head + [','], tail);
      }
    }
  }

  lemma ArmHasPhone(s: string, arm: string)
    requires !ConditionUnknown(ConditionOf(s)) && !HasCoarse(s) && arm in SplitOn(s, ',')
    ensures HasPhone(arm)
  {
    hide ConditionOf, ConditionUnknown, SplitOn, HasCoarse, HasPhone, HasNot, SplitAtWord;
    var term := SplitAtWord("", arm, "or")[0];
    var piece := SplitAtWord("", term, "and")[0];
    assert "" + arm == arm && "" + term == term;
    FirstPieceStarts("", arm, "or");
    FirstPieceStarts("", term, "and");
    FeatureKnown(s, arm, term, piece);
    if HasCoarse(piece) {
      CoarseOfStart(term, piece);
      CoarseOfStart(arm, term);
      CoarseOfFragment(s, arm);
    } else {
      PhoneOfStart(term, piece);
      PhoneOfStart(arm, term);
    }
  }

  lemma ArmHasNoNot(s: string, arm: string)
    requires !ConditionUnknown(ConditionOf(s)) && arm in SplitOn(s, ',')
    ensures !HasNot(arm)
  {
    hide ConditionOf, ConditionUnknown, SplitOn, HasCoarse, HasPhone, HasNot, SplitAtWord;
    if HasNot(arm) {
      assert "" + arm == arm;
      NotInPiece("", arm, "or");
      var term :| term in SplitAtWord("", arm, "or") && HasNot(term);
      assert "" + term == term;
      NotInPiece("", term, "and");
      var piece :| piece in SplitAtWord("", term, "and") && HasNot(piece);
      FeatureKnown(s, arm, term, piece);
    }
  }

  /**
   * A selector whose every fragment the check reads as known is known as a browser reads it: whichever
   * argument of each list is the one that holds, some text with the pattern has to hold with it.
   */
  lemma AcceptedIsKnown(s: string)
    requires !ConditionUnknown(ConditionOf(s)) && !HasCoarse(s)
    ensures KnownList(ParseList(s))
  {
    hide ConditionOf, ConditionUnknown, HasCoarse, ParseList, HasPhone, HasNot, SplitOn;
    if !KnownList(ParseList(s)) {
      UnknownListLacks(s);
      var f :| f in SplitOn(s, ',') && !Tells(f);
      ArmHasPhone(s, f);
      ArmHasNoNot(s, f);
    }
  }

  // ----- The qualifier of a part -----

  /** What stands in front of the subject. */
  function Qualifier(part: string): string {
    var compounds := Compounds(part);
    JoinWith(compounds[..|compounds| - 1], ' ')
  }

  lemma {:induction false} KnownByCompound(s: string, i: nat)
    requires i < |Compounds(s)| && KnownCompound(ParseCompound(Compounds(s)[i]))
    ensures KnownComplex(ParseComplex(s))
    decreases |s|
  {
    hide IsSpace, ParseCompound, KnownCompound, Until, SkipSpaces;
    var t := SkipSpaces(s);
    var k := Until(t, 0, AtBlank());
    var rest := SkipSpaces(t[k..]);
    if i > 0 {
      assert Compounds(s) == [t[..k]] + Compounds(rest);
      KnownByCompound(rest, i - 1);
    }
  }

  lemma {:induction false} UnknownWordsLack(words: seq<string>)
    requires forall i :: 0 <= i < |words| ==> !KnownCompound(ParseCompound(words[i]))
    ensures Lacks(JoinWith(words, ' '))
  {
    hide Lacks, KnownCompound, ParseCompound;
    if words == [] {
      ShortLacks("");
    } else {
      var word := words[0];
      UnknownCompoundLacks(word);
      if |words| > 1 {
        UnknownWordsLack(words[1..]);
        var rest := JoinWith(words[1..], ' ');
        ShortLacks(" ");
        LacksTogether(word, " ");
        assert (word + " ")[|word|] == ' ';
        LacksTogether(word + " ", rest);
      }
    }
  }

  /** When the check would read the whole qualifier as known, the part is. */
  lemma AcceptedQualifierIsKnown(part: string)
    requires !ConditionUnknown(ConditionOf(Qualifier(part))) && !HasCoarse(Qualifier(part))
    ensures KnownComplex(ParseComplex(part))
  {
    hide ConditionOf, ConditionUnknown, HasCoarse, ParseComplex, HasPhone, HasNot, SplitOn, KnownCompound, ParseCompound;
    var compounds := Compounds(part);
    var front := compounds[..|compounds| - 1];
    if forall i :: 0 <= i < |front| ==> !KnownCompound(ParseCompound(front[i])) {
      UnknownWordsLack(front);
      var f :| f in SplitOn(Qualifier(part), ',') && !Tells(f);
      ArmHasPhone(Qualifier(part), f);
      ArmHasNoNot(Qualifier(part), f);
    } else {
      var i :| 0 <= i < |front| && KnownCompound(ParseCompound(front[i]));
      KnownByCompound(part, i);
    }
  }
}
