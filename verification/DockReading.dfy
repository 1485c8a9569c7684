/**
 * What the regular expressions of scripts/check-dock-availability.ts accept, said with texts put together
 * instead of by scanning.
 */
module DockReading {
  import opened Text
  import opened DockCheck
  import opened DockReader

  /** The letter `l`, which is in lower case, in either case; any other character is itself. */
  predicate SameLetter(c: char, l: char) {
    c == l || ('a' <= l <= 'z' && 'A' <= c <= 'Z' && l as int - c as int == 32)
  }

  /** `s` is `word`, which is in lower case, in any case. */
  predicate Spells(s: string, word: string) {
    |s| == |word| && forall i :: 0 <= i < |s| ==> SameLetter(s[i], word[i])
  }

  /** `word` has no upper case letters. */
  predicate LowerCase(word: string) {
    forall i :: 0 <= i < |word| ==> !('A' <= word[i] <= 'Z')
  }

  lemma {:induction false} SkippedParts(s: string) returns (a: string)
    ensures Blank(a) && s == a + SkipSpaces(s)
  {
    hide IsSpace;
    if s != "" && IsSpace(s[0]) {
      a := SkippedParts(s[1..]);
      var r := SkipSpaces(s[1..]);
      assert s == [s[0]] + s[1..] == [s[0]] + a + r;
      a := [s[0]] + a;
    } else {
      a := "";
    }
  }

  lemma {:induction false} SkipBlank(a: string, x: string)
    requires Blank(a) && (x != "" ==> !IsSpace(x[0]))
    ensures SkipSpaces(a + x) == x
  {
    hide IsSpace;
    if a == "" {
      assert a + x == x;
    } else {
      assert (a + x)[1..] == a[1..] + x && (a + x)[0] == a[0];
      SkipBlank(a[1..], x);
    }
  }

  // ----- Bodies that hide -----

  /** White space, or `!important` with white space around it. */
  ghost predicate Importance(s: string) {
    Blank(s) || exists d, i, e :: Blank(d) && Spells(i, "!important") && Blank(e) && s == d + i + e
  }

  /** The declaration of `value` for `property`, with white space anywhere between its parts. */
  ghost predicate Declaration(s: string, property: string, value: string) {
    exists a, p, b, c, v, tail ::
      Blank(a) && Spells(p, property) && Blank(b) && Blank(c) && Spells(v, value) && Importance(tail) &&
      s == a + p + b + ":" + c + v + tail
  }

  lemma SpelledStart(s: string, word: string)
    requires LowerCase(word)
    ensures StartsWithWord(s, word) <==> |word| <= |s| && Spells(s[..|word|], word)
  {}

  lemma ImportanceIff(tail: string)
    ensures var d := SkipSpaces(tail);
            Importance(tail) <==> d == "" || (StartsWithWord(d, "!important") && SkipSpaces(d[10..]) == "")
  {
    var d := SkipSpaces(tail);
    var white := SkippedParts(tail);
    SpelledStart(d, "!important");
    hide IsSpace, SkipSpaces, StartsWithWord, Spells, Blank;
    if d == "" {
      assert tail == white;
    } else if |d| >= 10 && Spells(d[..10], "!important") && SkipSpaces(d[10..]) == "" {
      var e := SkippedParts(d[10..]);
      assert d[10..] == e;
      assert tail == white + d[..10] + e;
    }
    if Importance(tail) {
      if Blank(tail) {
        SkipBlank(tail, "");
        assert tail + "" == tail;
      } else {
        var x, i, e :| Blank(x) && Spells(i, "!important") && Blank(e) && tail == x + i + e;
        ImportantRead(x, i, e, tail);
      }
    }
  }

  lemma ImportantRead(x: string, i: string, e: string, tail: string)
    requires Blank(x) && Spells(i, "!important") && Blank(e) && tail == x + i + e
    ensures var d := SkipSpaces(tail); StartsWithWord(d, "!important") && SkipSpaces(d[10..]) == ""
  {
    assert Lower(i[0]) == '!' && !IsSpace(i[0]);
    hide IsSpace;
    assert tail == x + (i + e) && (i + e)[0] == i[0];
    SkipBlank(x, i + e);
    assert (i + e)[10..] == e + "";
    SkipBlank(e, "");
  }

  /** A lower-case word that begins with a letter. */
  predicate Name(word: string) {
    word != "" && 'a' <= word[0] <= 'z' && LowerCase(word)
  }

  lemma NotSpaceAtStart(s: string, word: string)
    requires Spells(s, word) && word != "" && ('a' <= word[0] <= 'z' || '0' <= word[0] <= '9')
    ensures s != "" && !IsSpace(s[0])
  {}

  lemma DeclaresIff(s: string, property: string, value: string)
    requires Name(property) && (Name(value) || value == "0")
    ensures Declares(s, property, value) <==> Declaration(s, property, value)
  {
    if Declares(s, property, value) { DeclaresParts(s, property, value); }
    if Declaration(s, property, value) {
      var a, p, b, c, v, tail :|
        Blank(a) && Spells(p, property) && Blank(b) && Blank(c) && Spells(v, value) && Importance(tail) &&
        s == a + p + b + ":" + c + v + tail;
      PartsDeclare(a, p, b, c, v, tail, property, value);
    }
  }

  lemma DeclaresParts(s: string, property: string, value: string)
    requires LowerCase(property) && LowerCase(value) && Declares(s, property, value)
    ensures Declaration(s, property, value)
  {
    var s1 := SkipSpaces(s);
    var a := SkippedParts(s);
    var s2 := s1[|property|..];
    var s3 := SkipSpaces(s2);
    var b := SkippedParts(s2);
    var s4 := s3[1..];
    var s5 := SkipSpaces(s4);
    var c := SkippedParts(s4);
    var tail := s5[|value|..];
    SpelledStart(s1, property);
    SpelledStart(s5, value);
    ImportanceIff(tail);
    hide IsSpace, SkipSpaces, StartsWithWord, Spells, Blank, Importance;
    var p, v := s1[..|property|], s5[..|value|];
    Cut(s1, |property|);
    Cut(s5, |value|);
    Cut(s3, 1);
    assert s3[..1] == ":";
    Chain(s, s1, s2, s3, s4, s5, a, p, b, c, v, tail);
  }

  lemma Cut(s: string, n: nat)
    requires n <= |s|
    ensures s == s[..n] + s[n..]
  {}

  lemma Chain(s: string, s1: string, s2: string, s3: string, s4: string, s5: string,
              a: string, p: string, b: string, c: string, v: string, tail: string)
    requires s == a + s1 && s1 == p + s2 && s2 == b + s3 && s3 == ":" + s4 && s4 == c + s5 && s5 == v + tail
    ensures s == a + p + b + ":" + c + v + tail
  {
    Gather(a, p, b, c, v, tail);
  }

  lemma Gather(a: string, p: string, b: string, c: string, v: string, tail: string)
    ensures a + (p + (b + (":" + (c + (v + tail))))) == a + p + b + ":" + c + v + tail
  {}

  lemma PartsDeclare(a: string, p: string, b: string, c: string, v: string, tail: string, property: string, value: string)
    requires Blank(a) && Spells(p, property) && Blank(b) && Blank(c) && Spells(v, value) && Importance(tail)
    requires Name(property) && (Name(value) || value == "0")
    ensures Declares(a + p + b + ":" + c + v + tail, property, value)
  {
    NotSpaceAtStart(p, property);
    NotSpaceAtStart(v, value);
    ImportanceIff(tail);
    assert !IsSpace(':');
    var s5 := v + tail;
    var s3 := ":" + (c + s5);
    var s1 := p + (b + s3);
    SpelledStart(s1, property);
    SpelledStart(s5, value);
    hide IsSpace, SkipSpaces, StartsWithWord, Spells, Blank, Importance;
    Gather(a, p, b, c, v, tail);
    assert s1[0] == p[0] && s5[0] == v[0] && s3[0] == ':';
    SkipBlank(a, s1);
    SkipBlank(b, s3);
    SkipBlank(c, s5);
    assert s1[..|p|] == p && s1[|p|..] == b + s3 && s3[1..] == c + s5 && s5[..|v|] == v && s5[|v|..] == tail;
    assert |p| == |property| && |v| == |value| by { SameLength(p, property); SameLength(v, value); }
  }

  lemma SameLength(s: string, word: string)
    requires Spells(s, word)
    ensures |s| == |word|
  {}

  /** One of the four ways to take the Dock away. */
  ghost predicate Hiding(s: string) {
    Declaration(s, "display", "none") || Declaration(s, "visibility", "hidden") || Declaration(s, "opacity", "0") ||
    Declaration(s, "content-visibility", "hidden")
  }

  /**
   * A body hides exactly when one of its pieces between semicolons is one of the four declarations, in any
   * case, with any white space around its parts, important or not.
   */
  lemma HidesBodyIff(body: string)
    ensures HidesBody(body) <==> exists s :: s in SplitOn(body, ';') && Hiding(s)
    ensures JoinWith(SplitOn(body, ';'), ';') == body && forall s :: s in SplitOn(body, ';') ==> Free(s, ';')
  {
    SplitOnMeans(body, ';');
    hide Declares, Declaration, SplitOn, JoinWith, Free;
    forall s ensures HidesIn(s) <==> Hiding(s) {
      DeclaresIff(s, "display", "none");
      DeclaresIff(s, "visibility", "hidden");
      DeclaresIff(s, "opacity", "0");
      DeclaresIff(s, "content-visibility", "hidden");
    }
  }

  // ----- Features -----

  /** The word, in any case, with no letter, digit or underscore on either side. */
  ghost predicate HasWholeWord(s: string, word: string) {
    exists a, w, b ::
      Spells(w, word) && Open(a, b) && s == a + w + b
  }

  /** What stands before and after a whole word. */
  predicate Open(a: string, b: string) {
    (a != "" ==> !WordChar(a[|a| - 1])) && (b != "" ==> !WordChar(b[0]))
  }

  lemma HasNotIff(s: string)
    ensures HasNot(s) <==> HasWholeWord(s, "not")
  {
    hide WordChar;
    if HasNot(s) {
      var i :| 0 <= i <= |s| && NotAt(s, i);
      var a, w, b := s[..i], s[i..][..3], s[i + 3..];
      assert w == s[i..i + 3] && s == a + w + b;
      assert Spells(w, "not") && Open(a, b);
    }
    if HasWholeWord(s, "not") {
      var a, w, b :| Spells(w, "not") && Open(a, b) && s == a + w + b;
      assert s[|a|..] == w + b;
      assert NotAt(s, |a|);
    }
  }

  predicate Around(a: string, middle: string, b: string, s: string) {
    s == a + middle + b
  }

  /** `(pointer:`, white space, `coarse)`, somewhere. */
  ghost predicate SaysCoarse(s: string) {
    exists a, c, b :: Blank(c) && Around(a, "(pointer:" + c + "coarse)", b, s)
  }

  /** `[data-tier="phone"]`, somewhere. */
  ghost predicate SaysPhone(s: string) {
    exists a, b :: Around(a, "[data-tier=\"phone\"]", b, s)
  }

  lemma CoarseSpelled(x: string)
    requires CoarseAt(x)
    ensures exists c, b :: Blank(c) && Around("", "(pointer:" + c + "coarse)", b, x)
  {
    var t := x[9..];
    var c := SkippedParts(t);
    var u := SkipSpaces(t);
    hide IsSpace, SkipSpaces, Blank;
    Cut(x, 9);
    Cut(u, 7);
    var b := u[7..];
    assert x == "(pointer:" + t && u == "coarse)" + b;
    Regroup(c, b);
    assert Around("", "(pointer:" + c + "coarse)", b, x);
  }

  lemma Regroup(c: string, b: string)
    ensures "(pointer:" + (c + ("coarse)" + b)) == "" + ("(pointer:" + c + "coarse)") + b
  {}

  lemma CoarseFound(c: string, b: string)
    requires Blank(c)
    ensures CoarseAt("" + ("(pointer:" + c + "coarse)") + b)
  {
    var u := "coarse)" + b;
    assert !IsSpace('c') && u[0] == 'c';
    hide IsSpace, SkipSpaces, Blank;
    Regroup(c, b);
    var x := "(pointer:" + (c + u);
    SkipBlank(c, u);
    assert x[..9] == "(pointer:" && x[9..] == c + u && u[..7] == "coarse)";
  }

  lemma CoarseAtIff(x: string)
    ensures CoarseAt(x) <==> exists c, b :: Blank(c) && Around("", "(pointer:" + c + "coarse)", b, x)
  {
    hide CoarseAt, Blank;
    if CoarseAt(x) { CoarseSpelled(x); }
    if exists c, b :: Blank(c) && Around("", "(pointer:" + c + "coarse)", b, x) {
      var c, b :| Blank(c) && Around("", "(pointer:" + c + "coarse)", b, x);
      CoarseFound(c, b);
    }
  }

  lemma HasCoarseIff(s: string)
    ensures HasCoarse(s) <==> SaysCoarse(s)
  {
    hide CoarseAt, Blank, Around;
    if HasCoarse(s) {
      var i :| 0 <= i <= |s| && CoarseAt(s[i..]);
      CoarseAtIff(s[i..]);
      var c, b :| Blank(c) && Around("", "(pointer:" + c + "coarse)", b, s[i..]);
      MoveIn(s, i, "(pointer:" + c + "coarse)", b);
    }
    if SaysCoarse(s) {
      var a, c, b :| Blank(c) && Around(a, "(pointer:" + c + "coarse)", b, s);
      MoveOut(s, a, "(pointer:" + c + "coarse)", b);
      CoarseAtIff(s[|a|..]);
    }
  }

  lemma MoveIn(s: string, i: nat, middle: string, b: string)
    requires i <= |s| && Around("", middle, b, s[i..])
    ensures Around(s[..i], middle, b, s)
  {
    assert s == s[..i] + s[i..];
  }

  lemma MoveOut(s: string, a: string, middle: string, b: string)
    requires Around(a, middle, b, s)
    ensures |a| <= |s| && Around("", middle, b, s[|a|..])
  {
    assert s[|a|..] == middle + b;
  }

  lemma HasPhoneIff(s: string)
    ensures HasPhone(s) <==> SaysPhone(s)
  {
    var pattern := "[data-tier=\"phone\"]";
    if HasPhone(s) {
      var i :| 0 <= i <= |s| && StartsWith(s[i..], pattern);
      assert s == s[..i] + s[i..][..|pattern|] + s[i + |pattern|..];
      assert Around(s[..i], pattern, s[i + |pattern|..], s);
    }
    if SaysPhone(s) {
      var a, b :| Around(a, pattern, b, s);
      assert s[|a|..] == pattern + b && (pattern + b)[..|pattern|] == pattern;
      assert StartsWith(s[|a|..], pattern);
    }
  }

  /**
   * A feature is negated when it has the word `not`; otherwise known by the coarse pattern, or else by
   * that of the phone tier; otherwise nothing is known of it.
   */
  lemma ReadFeatureIff(s: string)
    ensures ReadFeature(s) ==
            if HasWholeWord(s, "not") then Negated(s)
            else if SaysCoarse(s) then Known(CoarsePointer, s)
            else if SaysPhone(s) then Known(PhoneTier, s)
            else Other(s)
  {
    HasNotIff(s);
    HasCoarseIff(s);
    HasPhoneIff(s);
    hide HasNot, HasCoarse, HasPhone;
  }

  // ----- Conditions written out -----

  function JoinText(parts: seq<string>, between: string): string {
    if parts == [] then "" else if |parts| == 1 then parts[0] else parts[0] + between + JoinText(parts[1..], between)
  }

  /** Nowhere in `s` does `word` stand between white space, or between it and an end of `s`. */
  predicate Wordless(s: string, word: string) {
    forall i :: 0 <= i <= |s| && (i == 0 || IsSpace(s[i - 1])) && StartsWithWord(s[i..], word) ==>
      i + |word| < |s| && !IsSpace(s[i + |word|])
  }

  /** The same, but for a word at the very start. */
  predicate NoneInside(s: string, word: string) {
    forall i :: 0 < i <= |s| && IsSpace(s[i - 1]) && StartsWithWord(s[i..], word) ==>
      i + |word| < |s| && !IsSpace(s[i + |word|])
  }

  /** Ends in something other than white space. */
  predicate Ended(s: string) { s != "" && !IsSpace(s[|s| - 1]) }

  predicate IsJointWord(word: string) { word == "or" || word == "and" }

  lemma NoneInsideTail(s: string, word: string)
    requires NoneInside(s, word) && s != ""
    ensures NoneInside(s[1..], word)
  {
    hide IsSpace, StartsWithWord;
    var t := s[1..];
    forall i | 0 < i <= |t| && IsSpace(t[i - 1]) && StartsWithWord(t[i..], word)
      ensures i + |word| < |t| && !IsSpace(t[i + |word|])
    {
      assert t[i..] == s[i + 1..] && t[i - 1] == s[i];
    }
  }

  /** Inside a text without the word there is no joint, also when a joint follows the text. */
  lemma NoJointInside(s: string, next: string, word: string)
    requires Ended(s) && NoneInside(s, word) && IsJointWord(word) && (next != "" ==> next[0] == ' ')
    ensures Joint(s + next, word) == 0
  {
    var whole := s + next;
    if IsSpace(s[0]) {
      var a := SkippedParts(s);
      var t := SkipSpaces(s);
      var k := |a|;
      assert s == a + t && a != "" && a[|a| - 1] == s[k - 1];
      assert forall i :: 0 <= i < |a| ==> s[i] == a[i] && IsSpace(s[i]);
      assert t != "";
      assert whole == a + (t + next);
      assert !IsSpace((t + next)[0]);
      SkipBlank(a, t + next);
      assert SkipSpaces(whole) == t + next;
      assert s[k..] == t && IsSpace(s[k - 1]);
      AfterWord(t, next, word);
    }
  }

  lemma AfterWord(t: string, next: string, word: string)
    requires t != "" && IsJointWord(word) && (next != "" ==> next[0] == ' ')
    requires StartsWithWord(t, word) ==> |word| < |t| && !IsSpace(t[|word|])
    ensures StartsWithWord(t + next, word) ==> SkipSpaces((t + next)[|word|..]) == (t + next)[|word|..]
  {
    var u := t + next;
    if StartsWithWord(u, word) {
      assert |word| <= |t| || word[|t|] == Lower(u[|t|]);
      assert |word| <= |t|;
      assert forall i :: 0 <= i < |word| ==> t[i] == u[i];
      assert StartsWithWord(t, word);
      assert u[|word|..][0] == t[|word|];
    }
  }

  lemma ReadOn(piece: string, c: char, tail: string, word: string)
    requires Joint([c] + tail, word) == 0
    ensures SplitAtWord(piece, [c] + tail, word) == SplitAtWord(piece + [c], tail, word)
  {
    hide Joint;
    assert ([c] + tail)[1..] == tail;
  }

  lemma CutHere(piece: string, s: string, word: string)
    requires Joint(s, word) > 0
    ensures SplitAtWord(piece, s, word) == [piece] + SplitAtWord("", s[Joint(s, word)..], word)
  {
    hide Joint;
  }

  lemma Shift(piece: string, s: string, next: string)
    requires s != ""
    ensures piece + [s[0]] + s[1..] == piece + s && [s[0]] + (s[1..] + next) == s + next
  {}

  /** The text up to the joint is one piece, and splitting goes on behind the joint. */
  lemma {:induction false} SplitAtJoint(piece: string, s: string, word: string, rest: string)
    requires (s == "" || Ended(s)) && NoneInside(s, word) && IsJointWord(word) && rest != "" && !IsSpace(rest[0])
    ensures SplitAtWord(piece, s + (" " + word + " " + rest), word) == [piece + s] + SplitAtWord("", rest, word)
    decreases |s|
  {
    var next := " " + word + " " + rest;
    assert next[0] == ' ';
    hide IsSpace, NoneInside, SplitAtWord, Joint;
    if s == "" {
      assert s + next == next && piece + s == piece;
      JointRead(word, rest);
      CutHere(piece, next, word);
    } else {
      NoJointInside(s, next, word);
      NoneInsideTail(s, word);
      Shift(piece, s, next);
      ReadOn(piece, s[0], s[1..] + next, word);
      SplitAtJoint(piece + [s[0]], s[1..], word, rest);
    }
  }

  lemma JointRead(word: string, rest: string)
    requires IsJointWord(word) && rest != "" && !IsSpace(rest[0])
    ensures var s := " " + word + " " + rest; Joint(s, word) == |word| + 2 && s[|word| + 2..] == rest
  {
    var s := " " + word + " " + rest;
    var t := word + (" " + rest);
    assert s == " " + t && t[0] == word[0];
    assert !IsSpace('o') && !IsSpace('a') && Blank(" ");
    SkipBlank(" ", t);
    SkipBlank(" ", rest);
    assert t[|word|..] == " " + rest;
  }

  lemma {:induction false} SplitAtEnd(piece: string, s: string, word: string)
    requires (s == "" || Ended(s)) && NoneInside(s, word) && IsJointWord(word)
    ensures SplitAtWord(piece, s, word) == [piece + s]
    decreases |s|
  {
    hide IsSpace, NoneInside, Joint;
    if s == "" {
      assert piece + s == piece;
    } else {
      assert s + "" == s;
      NoJointInside(s, "", word);
      NoneInsideTail(s, word);
      SplitAtEnd(piece + [s[0]], s[1..], word);
      assert piece + [s[0]] + s[1..] == piece + s;
    }
  }

  /** A text that can stand on either side of a joint. */
  predicate Joinable(s: string, word: string) {
    s != "" && Tight(s) && NoneInside(s, word)
  }

  lemma {:induction false} SplitAtJoints(parts: seq<string>, word: string)
    requires parts != [] && IsJointWord(word) && forall p :: p in parts ==> Joinable(p, word)
    ensures SplitAtWord("", JoinText(parts, " " + word + " "), word) == parts
    ensures var s := JoinText(parts, " " + word + " "); s != "" && parts[0] != "" && s[0] == parts[0][0]
  {
    hide IsSpace, NoneInside, SplitAtWord;
    var first := parts[0];
    assert "" + first == first && first in parts;
    if |parts| == 1 {
      SplitAtEnd("", first, word);
    } else {
      assert forall p :: p in parts[1..] ==> p in parts;
      SplitAtJoints(parts[1..], word);
      var rest := JoinText(parts[1..], " " + word + " ");
      assert parts[1..][0] in parts;
      SplitAtJoint("", first, word, rest);
      assert first + (" " + word + " ") + rest == first + (" " + word + " " + rest);
      assert parts == [first] + parts[1..];
    }
  }

  /** A feature as it may be written: without commas, and without `or` or `and` as a word of its own. */
  predicate Writable(f: string) {
    f != "" && Tight(f) && Free(f, ',') && Wordless(f, "or") && Wordless(f, "and")
  }

  /** Features, the terms made of them, the arms made of terms: none of them empty. */
  predicate WritableTerm(t: seq<string>) { t != [] && forall f :: f in t ==> Writable(f) }
  predicate WritableArm(a: seq<seq<string>>) { a != [] && forall t :: t in a ==> WritableTerm(t) }
  predicate WritableCondition(c: seq<seq<seq<string>>>) { c != [] && forall a :: a in c ==> WritableArm(a) }

  function TermText(t: seq<string>): string { JoinText(t, " and ") }

  function TermTexts(a: seq<seq<string>>): seq<string> { seq(|a|, i requires 0 <= i < |a| => TermText(a[i])) }

  function ArmText(a: seq<seq<string>>): string { JoinText(TermTexts(a), " or ") }

  function ArmTexts(c: seq<seq<seq<string>>>): seq<string> { seq(|c|, i requires 0 <= i < |c| => ArmText(c[i])) }

  function ConditionText(c: seq<seq<seq<string>>>): string { JoinWith(ArmTexts(c), ',') }

  lemma WordlessAfterAnd(x: string, y: string)
    requires x != "" && y != "" && Tight(x) && Tight(y) && Wordless(x, "or") && Wordless(y, "or")
    ensures Wordless(x + " and " + y, "or") && Tight(x + " and " + y)
  {
    var s := x + " and " + y;
    assert s[0] == x[0] && s[|s| - 1] == y[|y| - 1];
    hide IsSpace;
    forall i | 0 <= i <= |s| && (i == 0 || IsSpace(s[i - 1])) && StartsWithWord(s[i..], "or")
      ensures i + 2 < |s| && !IsSpace(s[i + 2])
    {
      assert Lower(s[i..][0]) == 'o' && Lower(s[i..][1]) == 'r' && s[i..][0] == s[i] && s[i..][1] == s[i + 1];
      NotInTheMiddle(x, y, i);
      if i + 2 <= |x| {
        assert x[i..][0] == s[i] && x[i..][1] == s[i + 1] && StartsWithWord(x[i..], "or");
      } else {
        var j := i - |x| - 5;
        assert y[j..] == s[i..] && (j > 0 ==> y[j - 1] == s[i - 1]);
      }
    }
  }

  lemma NotInTheMiddle(x: string, y: string, i: nat)
    requires var s := x + " and " + y; i + 1 < |s| && Lower(s[i]) == 'o' && Lower(s[i + 1]) == 'r'
    ensures i + 2 <= |x| || i >= |x| + 5
  {
    var s := x + " and " + y;
    assert s[|x|] == ' ' && s[|x| + 1] == 'a' && s[|x| + 2] == 'n' && s[|x| + 3] == 'd' && s[|x| + 4] == ' ';
  }

  lemma FreeJoin(x: string, between: string, y: string)
    requires Free(x, ',') && Free(between, ',') && Free(y, ',')
    ensures Free(x + between + y, ',')
  {}

  lemma {:induction false} TermIsJoinable(t: seq<string>)
    requires WritableTerm(t)
    ensures var s := TermText(t); s != "" && Tight(s) && Wordless(s, "or") && Free(s, ',')
  {
    hide IsSpace, Tight, Wordless, Free;
    assert t[0] in t;
    if |t| > 1 {
      assert forall f :: f in t[1..] ==> f in t;
      TermIsJoinable(t[1..]);
      WordlessAfterAnd(t[0], TermText(t[1..]));
      assert Free(" and ", ',') by { CommaFree(); }
      FreeJoin(t[0], " and ", TermText(t[1..]));
    }
  }

  lemma CommaFree()
    ensures Free(" and ", ',') && Free(" or ", ',')
  {}

  lemma {:induction false} ArmIsFree(parts: seq<string>)
    requires parts != [] && forall p :: p in parts ==> Free(p, ',')
    ensures Free(JoinText(parts, " or "), ',')
  {
    hide Free;
    assert parts[0] in parts;
    if |parts| > 1 {
      assert forall p :: p in parts[1..] ==> p in parts;
      ArmIsFree(parts[1..]);
      CommaFree();
      FreeJoin(parts[0], " or ", JoinText(parts[1..], " or "));
    }
  }

  lemma WordlessInside(s: string, word: string)
    requires Wordless(s, word)
    ensures NoneInside(s, word)
  {}

  lemma TermRead(t: seq<string>)
    requires WritableTerm(t)
    ensures |FeaturesOf(TermText(t))| == |t| && forall k :: 0 <= k < |t| ==> FeaturesOf(TermText(t))[k] == ReadFeature(t[k])
  {
    hide IsSpace, NoneInside, Wordless, Tight, Free, ReadFeature, SplitAtWord;
    forall f | f in t ensures Joinable(f, "and") { WordlessInside(f, "and"); }
    SplitAtJoints(t, "and");
    assert " " + "and" + " " == " and ";
  }

  lemma ArmRead(a: seq<seq<string>>)
    requires WritableArm(a)
    ensures |TermsOf(ArmText(a))| == |a| && forall j :: 0 <= j < |a| ==> TermsOf(ArmText(a))[j] == FeaturesOf(TermText(a[j]))
    ensures Free(ArmText(a), ',')
  {
    hide IsSpace, NoneInside, Wordless, Tight, Free, SplitAtWord, FeaturesOf, WritableTerm, TermText;
    var parts := TermTexts(a);
    forall p | p in parts ensures Joinable(p, "or") && Free(p, ',') {
      var j :| 0 <= j < |a| && parts[j] == p;
      assert a[j] in a;
      TermIsJoinable(a[j]);
      WordlessInside(p, "or");
    }
    SplitAtJoints(parts, "or");
    ArmIsFree(parts);
    assert " " + "or" + " " == " or ";
  }

  /**
   * Round trip: a condition written as arms with commas between them, terms with `or` and features with
   * `and`, is read back as just that, each feature by itself.
   */
  lemma ConditionInvertsText(c: seq<seq<seq<string>>>)
    requires WritableCondition(c)
    ensures var r := ConditionOf(ConditionText(c));
            && |r| == |c|
            && (forall i :: 0 <= i < |c| ==> |r[i]| == |c[i]|)
            && (forall i, j :: 0 <= i < |c| && 0 <= j < |c[i]| ==> |r[i][j]| == |c[i][j]|)
            && forall i, j, k :: 0 <= i < |c| && 0 <= j < |c[i]| && 0 <= k < |c[i][j]| ==>
                 r[i][j][k] == ReadFeature(c[i][j][k])
  {
    hide Free, ReadFeature, SplitOn, JoinWith, TermsOf, FeaturesOf, ArmText, TermText, WritableTerm;
    var parts := ArmTexts(c);
    forall p | p in parts ensures Free(p, ',') {
      var i :| 0 <= i < |c| && parts[i] == p;
      assert c[i] in c;
      ArmRead(c[i]);
    }
    SplitOnJoined(parts, ',');
    var r := ConditionOf(ConditionText(c));
    assert |r| == |c| && forall i :: 0 <= i < |c| ==> r[i] == TermsOf(ArmText(c[i]));
    forall i | 0 <= i < |c|
      ensures |r[i]| == |c[i]| && forall j :: 0 <= j < |c[i]| ==> r[i][j] == FeaturesOf(TermText(c[i][j]))
    {
      assert c[i] in c;
      ArmRead(c[i]);
    }
    forall i, j | 0 <= i < |c| && 0 <= j < |c[i]|
      ensures |r[i][j]| == |c[i][j]| && forall k :: 0 <= k < |c[i][j]| ==> r[i][j][k] == ReadFeature(c[i][j][k])
    {
      assert c[i] in c && c[i][j] in c[i];
      TermRead(c[i][j]);
    }
  }

  // ----- Subjects -----

  predicate NameChars(s: string) {
    forall i :: 0 <= i < |s| ==> 'a' <= s[i] <= 'z' || 'A' <= s[i] <= 'Z' || s[i] == '-'
  }

  /** Nothing, or an argument list without a closing parenthesis inside. */
  ghost predicate Arguments(s: string) {
    s == "" || exists inner :: Free(inner, ')') && s == "(" + inner + ")"
  }

  /** One colon or two, a name, and arguments if there are any. */
  ghost predicate Pseudo(s: string) {
    exists colons, name, args ::
      (colons == ":" || colons == "::") && name != "" && NameChars(name) && Arguments(args) && s == colons + name + args
  }

  lemma {:induction false} NameStops(name: string, rest: string)
    requires NameChars(name) && (rest != "" ==> rest[0] == '(')
    ensures NameLength(name + rest) == |name|
  {
    if name == "" {
      assert name + rest == rest;
    } else {
      assert (name + rest)[1..] == name[1..] + rest;
      NameStops(name[1..], rest);
    }
  }

  lemma {:induction false} NameTaken(s: string)
    ensures NameChars(s[..NameLength(s)])
  {
    if s != "" && ('a' <= Lower(s[0]) <= 'z' || s[0] == '-') {
      NameTaken(s[1..]);
      assert forall i :: 0 < i < NameLength(s) ==> s[i] == s[1..][i - 1];
    }
  }

  lemma PseudoIff(s: string)
    ensures IsPseudo(s) <==> Pseudo(s)
  {
    if IsPseudo(s) { PseudoParts(s); }
    if Pseudo(s) {
      var colons, name, args :|
        (colons == ":" || colons == "::") && name != "" && NameChars(name) && Arguments(args) && s == colons + name + args;
      PartsPseudo(colons, name, args);
    }
  }

  lemma PseudoParts(s: string)
    requires IsPseudo(s)
    ensures Pseudo(s)
  {
    hide NameChars, Arguments, NameLength;
    var n := if |s| > 1 && s[1] == ':' then 2 else 1;
    var tail := s[n..];
    var k := NameLength(tail);
    NameTaken(tail);
    ArgumentsTaken(tail[k..]);
    hide Free;
    var colons, name, args := s[..n], tail[..k], tail[k..];
    assert colons == ":" || colons == "::";
    assert s == colons + name + args;
  }

  lemma ArgumentsTaken(args: string)
    ensures args == "" || (args[0] == '(' && args[|args| - 1] == ')' && Free(args[..|args| - 1], ')')) ==> Arguments(args)
  {
    if args != "" && args[0] == '(' && args[|args| - 1] == ')' {
      var inner := args[1..|args| - 1];
      assert args == "(" + inner + ")";
      assert forall i :: 0 <= i < |inner| ==> inner[i] == args[..|args| - 1][i + 1];
    }
  }

  lemma ArgumentsShape(args: string)
    requires Arguments(args) && args != ""
    ensures args[0] == '(' && args[|args| - 1] == ')' && Free(args[..|args| - 1], ')')
  {
    var inner :| Free(inner, ')') && args == "(" + inner + ")";
    assert args[..|args| - 1] == "(" + inner;
  }

  lemma PartsPseudo(colons: string, name: string, args: string)
    requires (colons == ":" || colons == "::") && name != "" && NameChars(name) && Arguments(args)
    ensures IsPseudo(colons + name + args)
  {
    if args != "" { ArgumentsShape(args); }
    hide Arguments, Free;
    var s := colons + name + args;
    NameStops(name, args);
    assert s[|colons|] == name[0] && s[|colons|..] == name + args;
    assert (name + args)[|name|..] == args;
    assert name[0] != ':';
    hide NameChars, NameLength;
  }

  /** What is left is the text before the first pseudo-class or pseudo-element that ends it. */
  lemma {:induction false} CutsPseudo(s: string)
    ensures var t := WithoutPseudo(s);
            StartsWith(s, t) && (|t| < |s| ==> IsPseudo(s[|t|..])) && forall i :: 0 <= i < |t| ==> !IsPseudo(s[i..])
  {
    hide IsPseudo;
    assert s[0..] == s;
    if s != "" && !IsPseudo(s) {
      CutsPseudo(s[1..]);
      var t := WithoutPseudo(s[1..]);
      assert WithoutPseudo(s) == [s[0]] + t && s[1..][|t|..] == s[1 + |t|..];
      assert s[..1 + |t|] == [s[0]] + s[1..][..|t|];
      forall i | 0 <= i < |t| + 1 ensures !IsPseudo(s[i..]) {
        if i > 0 { assert s[1..][i - 1..] == s[i..]; }
      }
    }
  }

  /** `.dock`, with a pseudo-class or pseudo-element behind it or not. */
  ghost predicate PlainDock(s: string) {
    s == ".dock" || exists p :: Pseudo(p) && s == ".dock" + p
  }

  lemma PlainDockIff(s: string)
    ensures WithoutPseudo(s) == ".dock" <==> PlainDock(s)
  {
    CutsPseudo(s);
    hide IsPseudo, Pseudo, WithoutPseudo;
    if WithoutPseudo(s) == ".dock" {
      if |s| > 5 { PseudoIff(s[5..]); }
      assert s == ".dock" + s[5..];
    }
    if PlainDock(s) {
      assert forall i :: 0 <= i < 5 ==> s[i] == ".dock"[i];
      forall i | 0 <= i < 5 ensures !IsPseudo(s[i..]) { NoColon(s[i..]); }
      DockStays(s);
    }
  }

  lemma NoColon(s: string)
    requires s != "" && s[0] != ':'
    ensures !IsPseudo(s)
  {}

  lemma DockStays(s: string)
    requires PlainDock(s) && forall i :: 0 <= i < 5 ==> !IsPseudo(s[i..])
    ensures WithoutPseudo(s) == ".dock"
  {
    CutsPseudo(s);
    var t := WithoutPseudo(s);
    hide WithoutPseudo, IsPseudo, Pseudo;
    if s != ".dock" {
      var p :| Pseudo(p) && s == ".dock" + p;
      assert s[5..] == p;
      PseudoIff(p);
      assert IsPseudo(s[5..]);
    }
    assert |t| >= 5;
    assert |t| <= 5;
    assert t == s[..|t|] && s[..5] == ".dock";
  }

  /**
   * Which compounds are taken for the Dock: `:where(…)` or `:is(…)` around one that is, with any white
   * space, and otherwise `.dock` itself, with at most one pseudo-class or pseudo-element.
   */
  lemma SubjectIff(c: string)
    ensures forall opener, inner, t ::
              (opener == ":where(" || opener == ":is(") && c == opener + inner + ")" && IsTrimOf(t, inner) ==>
                (SubjectIsDock(c) <==> SubjectIsDock(t))
    ensures (forall opener, inner :: (opener == ":where(" || opener == ":is(") ==> c != opener + inner + ")") ==>
              (SubjectIsDock(c) <==> PlainDock(c))
  {
    hide IsTrimOf, WithoutPseudo, PlainDock, Trim;
    forall opener, inner, t |
      (opener == ":where(" || opener == ":is(") && c == opener + inner + ")" && IsTrimOf(t, inner)
      ensures SubjectIsDock(c) <==> SubjectIsDock(t)
    {
      TrimIff(t, inner);
      Wrapped(c, opener, inner);
    }
    if forall opener, inner :: (opener == ":where(" || opener == ":is(") ==> c != opener + inner + ")" {
      PlainDockIff(c);
      NotWrapped(c);
    }
  }

  lemma Wrapped(c: string, opener: string, inner: string)
    requires (opener == ":where(" || opener == ":is(") && c == opener + inner + ")"
    ensures SubjectIsDock(c) <==> SubjectIsDock(Trim(inner))
  {
    hide WithoutPseudo, Trim;
    assert c[|opener|..|c| - 1] == inner && c[|c| - 1] == ')';
    assert c[..|opener|] == opener;
    assert opener == ":is(" ==> c[1] == 'i';
  }

  lemma Rebuild(c: string, n: nat)
    requires n <= |c|
    ensures |c| > n && c[|c| - 1] == ')' ==> c == c[..n] + c[n..|c| - 1] + ")"
  {}

  lemma NotWrapped(c: string)
    requires forall opener, inner :: (opener == ":where(" || opener == ":is(") ==> c != opener + inner + ")"
    ensures SubjectIsDock(c) <==> WithoutPseudo(c) == ".dock"
  {
    hide WithoutPseudo, Trim;
    var n := if StartsWith(c, ":where(") then 7 else if StartsWith(c, ":is(") then 4 else 0;
    if n > 0 {
      var opener := c[..n];
      assert opener == ":where(" || opener == ":is(";
      Rebuild(c, n);
    }
  }

  // ----- Selectors written out -----

  /** A compound as it may be written: without white space and without commas. */
  predicate Compoundable(w: string) {
    w != "" && (forall i :: 0 <= i < |w| ==> !IsSpace(w[i])) && Free(w, ',')
  }

  predicate WritablePart(p: seq<string>) { p != [] && forall w :: w in p ==> Compoundable(w) }

  function PartText(p: seq<string>): string { JoinWith(p, ' ') }

  function PartTexts(ps: seq<seq<string>>): seq<string> { seq(|ps|, i requires 0 <= i < |ps| => PartText(ps[i])) }

  /** The qualifiers of the parts whose last compound is the Dock. */
  function Picked(ps: seq<seq<string>>): seq<string> {
    if ps == [] then []
    else (if ps[0] != [] && SubjectIsDock(ps[0][|ps[0]| - 1]) then [JoinWith(ps[0][..|ps[0]| - 1], ' ')] else []) + Picked(ps[1..])
  }

  lemma {:induction false} WordEnds(w: string, rest: string)
    requires (forall i :: 0 <= i < |w| ==> !IsSpace(w[i])) && (rest != "" ==> rest[0] == ' ')
    ensures WordLength(w + rest) == |w|
  {
    assert IsSpace(' ');
    hide IsSpace;
    if w == "" {
      assert w + rest == rest;
    } else {
      assert (w + rest)[1..] == w[1..] + rest;
      WordEnds(w[1..], rest);
    }
  }

  lemma {:induction false} WordsOfPart(p: seq<string>)
    requires WritablePart(p)
    ensures Words(PartText(p)) == p && PartText(p) != "" && !IsSpace(PartText(p)[0])
  {
    assert IsSpace(' ');
    var w := p[0];
    assert w in p && Compoundable(w);
    hide IsSpace, Free;
    if |p| == 1 {
      assert w + "" == w && w[..|w|] == w && w[|w|..] == "";
      WordEnds(w, "");
      assert Words("") == [];
    } else {
      assert forall x :: x in p[1..] ==> x in p;
      WordsOfPart(p[1..]);
      var rest := PartText(p[1..]);
      var s := w + [' '] + rest;
      assert s == w + ([' '] + rest) && s[0] == w[0] && s[..|w|] == w && s[|w|..] == [' '] + rest;
      WordEnds(w, [' '] + rest);
      assert ([' '] + rest)[1..] == rest;
      assert Words([' '] + rest) == Words(rest);
      assert p == [w] + p[1..];
    }
  }

  lemma {:induction false} PartIsFree(p: seq<string>)
    requires WritablePart(p)
    ensures Free(PartText(p), ',')
  {
    assert p[0] in p && Compoundable(p[0]);
    if |p| > 1 {
      assert forall x :: x in p[1..] ==> x in p;
      PartIsFree(p[1..]);
      FreeJoin(p[0], " ", PartText(p[1..]));
    }
  }

  lemma {:induction false} PartsPicked(ps: seq<seq<string>>)
    requires forall p :: p in ps ==> WritablePart(p)
    ensures PartQualifiers(PartTexts(ps)) == Picked(ps)
  {
    hide WritablePart, PartText, SubjectIsDock, Words, JoinWith;
    if ps != [] {
      assert ps[0] in ps && forall p :: p in ps[1..] ==> p in ps;
      OnePicked(ps[0]);
      PartsPicked(ps[1..]);
      assert PartTexts(ps)[0] == PartText(ps[0]) && PartTexts(ps)[1..] == PartTexts(ps[1..]);
    }
  }

  lemma OnePicked(p: seq<string>)
    requires WritablePart(p)
    ensures p != []
    ensures PartQualifier(PartText(p)) ==
            if SubjectIsDock(p[|p| - 1]) then [JoinWith(p[..|p| - 1], ' ')] else []
  {
    hide SubjectIsDock, JoinWith, Words;
    WordsOfPart(p);
  }

  /** Round trip: from a list written with commas between its parts and a space between compounds. */
  lemma QualifiersInvertText(ps: seq<seq<string>>)
    requires ps != [] && forall p :: p in ps ==> WritablePart(p)
    ensures QualifiersOf(JoinWith(PartTexts(ps), ',')) == Picked(ps)
  {
    var parts := PartTexts(ps);
    hide Free, JoinWith, SplitOn, WritablePart, PartText, Picked, PartQualifiers;
    forall x | x in parts ensures Free(x, ',') {
      var i :| 0 <= i < |ps| && parts[i] == x;
      assert ps[i] in ps;
      PartIsFree(ps[i]);
    }
    SplitOnJoined(parts, ',');
    PartsPicked(ps);
  }
}
