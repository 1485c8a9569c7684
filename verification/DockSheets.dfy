/** Stylesheets read character by character: the repository's own Dock rules, and three the check passes although they are wrong. */
module DockSheets {
  import opened Text
  import opened CssScanner
  import opened DockCheck
  import opened DockReader
  import opened DockReading
  import opened Selectors
  import opened SelectorTexts
  import opened Fragments
  import opened DockMeaning

  lemma PassesWhenNamed(rules: seq<LeafRule>, rd: Reader, phone: LeafRule, coarse: LeafRule)
    requires phone in rules && HidesDock(phone, rd) && Names(phone, rd, PhoneTier)
    requires coarse in rules && HidesDock(coarse, rd) && Names(coarse, rd, CoarsePointer)
    requires forall rule :: rule in rules ==> !Unknown(rule, rd)
    ensures CheckPasses(rules, rd)
  {
    hide Unknown, Names, HidesDock;
    forall r: Reason ensures r in PredicateReasonSet() && SomeNames(rules, rd, r) {
      match r
      case PhoneTier =>
        assert phone in rules && HidesDock(phone, rd) && Names(phone, rd, r);
      case CoarsePointer =>
        assert coarse in rules && HidesDock(coarse, rd) && Names(coarse, rd, r);
    }
  }

  lemma ReadsAs(c: Condition, r: Reason, text: string)
    requires c == [[[Known(r, text)]]]
    ensures !ConditionUnknown(c) && ConditionNames(c, r)
  {
    var t: Term := [Known(r, text)];
    var a: Arm := [t];
    assert Known(r, text) in t && t in a && a in c;
    assert TermNames(t, r) && ArmNames(a, r);
  }
  // ----- The strings -----

  const MEDIA := "@media (pointer: coarse)"
  const PHONE := ".app[data-tier=\"phone\"]"
  const TABLET := ".app[data-tier=\"tablet\"]"
  const HIDE := "display:none"

  lemma NoNot(s: string)
    requires forall i :: 0 <= i < |s| - 1 && Lower(s[i]) == 'n' ==> Lower(s[i + 1]) != 'o'
    ensures !HasNot(s)
  {
    forall i | 0 <= i <= |s| ensures !NotAt(s, i) {
      assert |s[i..]| >= 3 ==> s[i..][0] == s[i] && s[i..][1] == s[i + 1];
    }
  }

  lemma CoarseRead()
    ensures CoarseAt("(pointer: coarse)")
  {
    var s := "(pointer: coarse)";
    assert s[..9] == "(pointer:" && s[9..] == " coarse)";
    assert " coarse)"[1..] == "coarse)";
    assert SkipSpaces("coarse)") == "coarse)";
  }

  lemma VisibleIsNotSpace()
    ensures forall c :: '!' <= c <= '~' ==> !IsSpace(c)
  {}

  lemma MediaChars()
    ensures |MEDIA| == 24
    ensures forall i :: 0 <= i < 24 ==> if i == 6 || i == 16 then MEDIA[i] == ' ' else '!' <= MEDIA[i] <= '~' && MEDIA[i] != ','
  {}

  lemma MediaNot()
    ensures forall i :: 0 <= i < 23 && Lower(MEDIA[i]) == 'n' ==> Lower(MEDIA[i + 1]) != 'o'
  {}

  lemma PhoneChars()
    ensures |PHONE| == 23
    ensures forall i :: 0 <= i < 23 ==> '!' <= PHONE[i] <= '~' && PHONE[i] != ',' && PHONE[i] != '(' && PHONE[i] != ':'
  {}

  lemma PhoneNot()
    ensures forall i :: 0 <= i < 22 && Lower(PHONE[i]) == 'n' ==> Lower(PHONE[i + 1]) != 'o'
  {}

  lemma PhonePattern()
    ensures HasPhone(PHONE)
  {
    assert PHONE[4..] == PATTERN;
    assert StartsWith(PHONE[4..], PATTERN);
  }

  /** No white space is followed by white space or by the beginning of `or` or `and`. */
  predicate Loose(text: string) {
    forall i :: 0 <= i < |text| - 1 && IsSpace(text[i]) ==>
      !IsSpace(text[i + 1]) && Lower(text[i + 1]) != 'o' && Lower(text[i + 1]) != 'a'
  }

  lemma NoJoint(s: string, word: string)
    requires word == "or" || word == "and"
    requires |s| > 1 && IsSpace(s[0]) ==> !IsSpace(s[1]) && Lower(s[1]) != 'o' && Lower(s[1]) != 'a'
    ensures Joint(s, word) == 0
  {
    hide IsSpace;
    if s != "" && IsSpace(s[0]) {
      assert SkipSpaces(s[1..]) == s[1..];
    }
  }

  lemma LooseIsOnePiece(text: string)
    requires Free(text, ',') && Loose(text)
    ensures ConditionOf(text) == [[[ReadFeature(text)]]]
  {
    hide IsSpace, ConditionOf, ReadFeature, Free, Joint;
    forall i | 0 <= i < |text| ensures Joint(text[i..], "or") == 0 && Joint(text[i..], "and") == 0 {
      var s := text[i..];
      assert s[0] == text[i] && (|s| > 1 ==> s[1] == text[i + 1]);
      NoJoint(s, "or");
      NoJoint(s, "and");
    }
    OnePiece(text);
  }

  lemma MediaFeature()
    ensures !HasNot(MEDIA) && HasCoarse(MEDIA)
  {
    MediaNot();
    NoNot(MEDIA);
    assert MEDIA[7..] == "(pointer: coarse)";
    CoarseRead();
    assert CoarseAt(MEDIA[7..]);
  }

  lemma MediaJoints()
    ensures Free(MEDIA, ',')
    ensures Loose(MEDIA)
  {
    VisibleIsNotSpace();
    MediaChars();
    assert MEDIA[7] == '(' && MEDIA[17] == 'c';
    hide IsSpace;
  }

  lemma MediaIsCoarse()
    ensures ConditionOf(MEDIA) == [[[Known(CoarsePointer, MEDIA)]]]
  {
    hide IsSpace, HasNot, HasCoarse, HasPhone, ConditionOf, Lower, MEDIA;
    MediaFeature();
    MediaJoints();
    LooseIsOnePiece(MEDIA);
  }

  /** The phone selector, followed by nothing else to read. */
  predicate PhoneText(text: string) {
    && StartsWith(text, PHONE) && Free(text, ',') && Free(text, '(')
    && (forall i :: 0 <= i < |text| ==> '!' <= text[i] <= '~')
    && (forall i :: 0 <= i < |text| - 1 && Lower(text[i]) == 'n' ==> Lower(text[i + 1]) != 'o')
  }

  lemma ClosedPhoneText(text: string)
    requires PhoneText(text)
    ensures PhoneText(text + ")")
  {
    hide PHONE;
    var t := text + ")";
    assert t[..|PHONE|] == text[..|PHONE|];
    forall i | 0 <= i < |t| - 1 && Lower(t[i]) == 'n' ensures Lower(t[i + 1]) != 'o' {
      assert t[i] == text[i];
      if i + 1 < |text| { assert t[i + 1] == text[i + 1]; } else { assert t[i + 1] == ')'; }
    }
  }

  lemma PhoneReads(text: string)
    requires PhoneText(text)
    ensures ReadFeature(text) == Known(PhoneTier, text) && ConditionOf(text) == [[[Known(PhoneTier, text)]]]
  {
    VisibleIsNotSpace();
    NoNot(text);
    PhonePattern();
    PhoneOfStart(text, PHONE);
    NoCoarse(text);
    assert Loose(text) by { hide IsSpace, Lower; }
    hide IsSpace, HasNot, HasCoarse, HasPhone, ConditionOf, Lower, PHONE, Loose;
    LooseIsOnePiece(text);
  }

  lemma NoCoarse(text: string)
    requires Free(text, '(')
    ensures !HasCoarse(text)
  {
    forall i | 0 <= i <= |text| ensures !CoarseAt(text[i..]) {
      hide SkipSpaces;
      assert |text[i..]| >= 9 ==> text[i..][..9][0] == text[i];
    }
  }

  lemma TierIsPhone()
    ensures ReadFeature(PHONE) == Known(PhoneTier, PHONE) && ConditionOf(PHONE) == [[[Known(PhoneTier, PHONE)]]]
    ensures ConditionOf(PHONE + ")") == [[[Known(PhoneTier, PHONE + ")")]]]
  {
    PhoneIsText();
    hide PHONE, ConditionOf, PhoneText;
    ClosedPhoneText(PHONE);
    PhoneReads(PHONE);
    PhoneReads(PHONE + ")");
  }

  lemma PhoneIsText()
    ensures PhoneText(PHONE)
  {
    PhoneChars();
    PhoneNot();
    assert PHONE[..23] == PHONE;
  }

  lemma TabletIsUnread()
    ensures ReadFeature(TABLET) == Other(TABLET)
  {
    TabletChars();
    NoNot(TABLET);
    NoCoarse(TABLET);
    hide HasNot, HasCoarse, SkipSpaces;
    forall i | 0 <= i <= |TABLET| ensures !StartsWith(TABLET[i..], PATTERN) {
      if i == 4 {
        assert TABLET[4..][12] == 't' && PATTERN[12] == 'p';
        assert TABLET[4..][..19][12] == TABLET[4..][12];
      } else {
        assert |TABLET[i..]| >= 19 ==> TABLET[i..][..19][0] == TABLET[i];
        assert PATTERN[0] == '[';
      }
    }
  }

  lemma TabletChars()
    ensures |TABLET| == 24
    ensures forall i :: 0 <= i < 24 ==> '!' <= TABLET[i] <= '~' && TABLET[i] != ',' && TABLET[i] != '(' && (TABLET[i] == '[' <==> i == 4)
    ensures forall i :: 0 <= i < 23 ==> Lower(TABLET[i]) != 'n'
  {}

  predicate Spaceless(w: string) {
    w != "" && forall i :: 0 <= i < |w| ==> !IsSpace(w[i])
  }

  lemma {:induction false} WordEnds(w: string, rest: string)
    requires forall i :: 0 <= i < |w| ==> !IsSpace(w[i])
    requires rest != "" ==> IsSpace(rest[0])
    ensures WordLength(w + rest) == |w|
  {
    hide IsSpace;
    if w != "" {
      WordEnds(w[1..], rest);
      assert (w + rest)[1..] == w[1..] + rest;
    } else {
      assert w + rest == rest;
    }
  }

  lemma TwoWords(a: string, b: string)
    requires Spaceless(a) && Spaceless(b)
    ensures Words(a + " " + b) == [a, b]
  {
    var whole := a + " " + b;
    assert IsSpace(' ');
    hide IsSpace;
    WordEnds(a, " " + b);
    assert whole == a + (" " + b) && whole[0] == a[0];
    assert whole[..|a|] == a && whole[|a|..] == " " + b && (" " + b)[1..] == b;
    assert Words(" " + b) == Words(b);
    OneWord(b);
  }

  lemma OneWord(b: string)
    requires Spaceless(b)
    ensures Words(b) == [b]
  {
    hide IsSpace;
    WordEnds(b, "");
    assert b + "" == b && b[..|b|] == b && b[|b|..] == "";
    assert Words("") == [];
  }

  lemma {:induction false} NoPseudo(s: string)
    requires Free(s, ':')
    ensures WithoutPseudo(s) == s
  {
    if s != "" {
      assert !IsPseudo(s);
      NoPseudo(s[1..]);
    }
  }

  lemma DockIsDock()
    ensures SubjectIsDock(".dock") && Spaceless(".dock")
  {
    NoPseudo(".dock");
    VisibleIsNotSpace();
    assert ".dock"[0] != ":where("[0] && ".dock"[0] != ":is("[0];
    assert !StartsWith(".dock", ":where(");
    assert !StartsWith(".dock", ":is(");
    hide IsSpace;
  }

  lemma SkipsNothing(s: string)
    requires s == "" || '!' <= s[0] <= '~'
    ensures SkipSpaces(s) == s
  {}

  /** A declaration written without white space. */
  lemma Declared(property: string, value: string)
    requires property != "" && forall i :: 0 <= i < |property| ==> '!' <= property[i] <= '~' && Lower(property[i]) == property[i]
    requires value != "" && forall i :: 0 <= i < |value| ==> '!' <= value[i] <= '~' && Lower(value[i]) == value[i]
    ensures Declares(property + ":" + value, property, value)
  {
    var s := property + ":" + value;
    assert StartsWithWord(s, property) && StartsWithWord(value, value);
    assert s[|property|..] == ":" + value && (":" + value)[1..] == value && value[|value|..] == "";
    SkipsNothing(s);
    SkipsNothing(":" + value);
    SkipsNothing(value);
    SkipsNothing("");
    hide SkipSpaces, StartsWithWord;
  }

  lemma OneDeclaration(s: string)
    requires Free(s, ';') && HidesIn(s)
    ensures HidesBody(s)
  {
    hide HidesIn;
    assert IndexOf(s, ';') < 0;
    assert s in SplitOn(s, ';');
  }

  lemma HideHides()
    ensures HidesBody(HIDE)
  {
    Declared("display", "none");
    assert HIDE == "display" + ":" + "none";
    assert Free(HIDE, ';');
    hide Declares, HIDE;
    OneDeclaration(HIDE);
  }

  // ----- Two shapes of stylesheet -----

  lemma TrimNothing(s: string)
    requires s != "" && '!' <= s[0] <= '~' && '!' <= s[|s| - 1] <= '~'
    ensures Trim(s) == s
  {}

  /** What can be the prelude of a block, without white space around it. */
  predicate PreludeText(s: string) {
    BraceFree(s) && Free(s, ';') && s != "" && '!' <= s[0] <= '~' && '!' <= s[|s| - 1] <= '~'
  }

  function OneRule(selector: string): Body {
    More("", Node(selector, Last(HIDE)), Last(""))
  }

  /** A rule outside every block, and the Dock hidden for coarse pointers. */
  function TopSheet(selector: string): Body {
    More("", Node(selector, Last(HIDE)), More("", Node(MEDIA, OneRule(".dock")), Last("")))
  }

  /** A rule inside the block for coarse pointers. */
  function BlockSheet(selector: string): Body {
    More("", Node(MEDIA, OneRule(selector)), Last(""))
  }

  lemma Preludes()
    ensures PreludeText(MEDIA) && PreludeText(".dock") && WellFormed(Last(HIDE)) && WellFormed(Last(""))
  {}

  lemma BlockWellFormed(prelude: string, inside: Body, rest: Body)
    requires PreludeText(prelude) && WellFormed(inside) && WellFormed(rest)
    ensures WellFormed(More("", Node(prelude, inside), rest))
  {
    TrimNothing(prelude);
    hide Trim;
  }

  lemma PrintedBlock(prelude: string, inside: Body, rest: Body)
    ensures PrintBody(More("", Node(prelude, inside), rest)) == prelude + "{" + PrintBody(inside) + "}" + PrintBody(rest)
  {
    assert "" + PrintNode(Node(prelude, inside)) == PrintNode(Node(prelude, inside));
  }

  lemma NoOwnRule(conditions: seq<string>)
    ensures OwnRule("", conditions) == []
  {}

  lemma RuleFlattens(selector: string, conditions: seq<string>)
    requires PreludeText(selector)
    ensures Flatten(OneRule(selector), conditions) == [LeafRule(conditions, selector, HIDE)]
  {
    TrimNothing(selector);
    NoOwnRule(conditions);
    hide HIDE, Trim, OwnRule;
  }

  lemma BlockFlattens(selector: string)
    requires PreludeText(selector)
    ensures Flatten(BlockSheet(selector), []) == [LeafRule([MEDIA], selector, HIDE)]
  {
    Preludes();
    TrimNothing(MEDIA);
    NoOwnRule([]);
    RuleFlattens(selector, [MEDIA]);
    hide HIDE, MEDIA, Trim, OwnRule;
    assert FlattenNode(Node(MEDIA, OneRule(selector)), []) == Flatten(OneRule(selector), [] + [MEDIA]);
    assert [] + [MEDIA] == [MEDIA];
  }

  lemma TopFlattens(selector: string)
    requires PreludeText(selector)
    ensures Flatten(TopSheet(selector), []) == [LeafRule([], selector, HIDE), LeafRule([MEDIA], ".dock", HIDE)]
  {
    Preludes();
    TrimNothing(selector);
    NoOwnRule([]);
    BlockFlattens(".dock");
    hide HIDE, MEDIA, Trim, OwnRule, PreludeText;
    assert FlattenNode(Node(selector, Last(HIDE)), []) == [LeafRule([], selector, HIDE)];
  }

  lemma OneSheet(sheet: Body)
    requires WellFormed(sheet)
    ensures RulesOf([PrintBody(sheet)]) == Flatten(sheet, [])
  {
    hide WellFormed, Flatten, PrintBody, Scan;
    ScanInvertsPrint(sheet, []);
    var files := [PrintBody(sheet)];
    assert files[..0] == [] && RulesOf([]) == [];
  }

  lemma TopWellFormed(selector: string)
    requires PreludeText(selector)
    ensures WellFormed(TopSheet(selector))
  {
    Preludes();
    hide HIDE, MEDIA, PreludeText, WellFormed;
    BlockWellFormed(".dock", Last(HIDE), Last(""));
    BlockWellFormed(MEDIA, OneRule(".dock"), Last(""));
    BlockWellFormed(selector, Last(HIDE), More("", Node(MEDIA, OneRule(".dock")), Last("")));
  }

  lemma TopText(selector: string)
    ensures PrintBody(TopSheet(selector)) == selector + "{" + HIDE + "}" + (MEDIA + "{" + (".dock{" + HIDE + "}") + "}")
  {
    EmptyText();
    BlockText(".dock");
    hide HIDE, MEDIA, PrintBody;
    PrintedBlock(selector, Last(HIDE), BlockSheet(".dock"));
    assert ".dock" + "{" + HIDE + "}" == ".dock{" + HIDE + "}" by { assert ".dock" + "{" == ".dock{"; }
  }

  /** The text of such a sheet, and the rules found in it. */
  lemma TopSheetReads(selector: string) returns (css: string)
    requires PreludeText(selector)
    ensures css == selector + "{" + HIDE + "}" + (MEDIA + "{" + (".dock{" + HIDE + "}") + "}")
    ensures RulesOf([css]) == [LeafRule([], selector, HIDE), LeafRule([MEDIA], ".dock", HIDE)]
  {
    css := PrintBody(TopSheet(selector));
    hide HIDE, MEDIA, PreludeText, WellFormed, PrintBody, Flatten, RulesOf, TopSheet;
    TopWellFormed(selector);
    TopText(selector);
    TopFlattens(selector);
    OneSheet(TopSheet(selector));
  }

  lemma BlockText(selector: string)
    ensures PrintBody(BlockSheet(selector)) == MEDIA + "{" + (selector + "{" + HIDE + "}") + "}"
  {
    EmptyText();
    hide HIDE, MEDIA, PrintBody;
    PrintedBlock(selector, Last(HIDE), Last(""));
    PrintedBlock(MEDIA, OneRule(selector), Last(""));
    assert selector + "{" + HIDE + "}" + "" == selector + "{" + HIDE + "}";
    var rule := selector + "{" + HIDE + "}";
    assert MEDIA + "{" + rule + "}" + "" == MEDIA + "{" + rule + "}";
  }

  lemma EmptyText()
    ensures PrintBody(Last("")) == "" && PrintBody(Last(HIDE)) == HIDE
  {}

  lemma BlockSheetReads(selector: string) returns (css: string)
    requires PreludeText(selector)
    ensures css == MEDIA + "{" + (selector + "{" + HIDE + "}") + "}"
    ensures RulesOf([css]) == [LeafRule([MEDIA], selector, HIDE)]
  {
    css := PrintBody(BlockSheet(selector));
    Preludes();
    BlockFlattens(selector);
    BlockText(selector);
    hide HIDE, MEDIA, PreludeText, WellFormed, PrintBody, Flatten, RulesOf;
    BlockWellFormed(selector, Last(HIDE), Last(""));
    BlockWellFormed(MEDIA, OneRule(selector), Last(""));
    OneSheet(BlockSheet(selector));
  }

  // ----- Single words -----

  predicate Plain(a: string) {
    forall i :: 0 <= i < |a| ==> Ordinary(a[i]) && a[i] != '[' && a[i] != ']'
  }

  lemma {:induction false} BalancedPlain(a: string, d: nat, b: string)
    requires Plain(a) && Balanced(b, d)
    ensures Balanced(a + b, d)
  {
    hide IsSpace;
    if a == "" {
      assert a + b == b;
    } else {
      assert Ordinary(a[0]);
      BalancedPlain(a[1..], d, b);
      assert (a + b)[1..] == a[1..] + b;
    }
  }

  /** `a[b]` */
  lemma BalancedAttribute(a: string, b: string)
    requires Plain(a) && Plain(b)
    ensures Balanced(a + ("[" + (b + "]")), 0)
  {
    assert Ordinary('[') && Ordinary(']');
    hide Ordinary, Plain;
    assert "]"[1..] == "" && Balanced("]", 1);
    BalancedPlain(b, 1, "]");
    assert ("[" + (b + "]"))[1..] == b + "]";
    assert Balanced("[" + (b + "]"), 0);
    BalancedPlain(a, 0, "[" + (b + "]"));
  }

  // ----- What the check reads off the three selectors -----

  function MixedSelector(): string { ".dock" + "," + (PHONE + " .dock") }

  function NestedSelector(): string { PHONE + " .dock" }

  function ListedSelector(): string { ":where(" + TABLET + "," + (PHONE + ")" + " .dock") }

  lemma BareDock()
    ensures PartQualifier(".dock") == [""]
  {
    DockIsDock();
    OneWord(".dock");
    hide SubjectIsDock, Words, Spaceless;
    assert [".dock"][..0] == [];
  }

  lemma QualifiedDock(q: string)
    requires Spaceless(q)
    ensures PartQualifier(q + " .dock") == [q]
  {
    DockIsDock();
    hide SubjectIsDock, Words, Spaceless;
    assert q + " .dock" == q + " " + ".dock";
    TwoWords(q, ".dock");
    assert [q, ".dock"][..1] == [q];
  }

  /** `:where(` with nothing to close it is not taken for the Dock. */
  lemma OpenListIsNotDock(w: string)
    requires Spaceless(w) && w[0] == ':' && w[|w| - 1] != ')' && |WithoutPseudo(w)| != 0
    ensures PartQualifier(w) == []
  {
    OneWord(w);
    assert WithoutPseudo(w) != ".dock" by {
      assert WithoutPseudo(w)[0] == ':';
    }
    hide Words, Spaceless;
  }

  lemma OnePart(part: string)
    requires Free(part, ',')
    ensures SplitOn(part, ',') == [part] && QualifiersOf(part) == PartQualifier(part)
  {
    SplitOnWhole(part, ',');
    hide PartQualifier;
    assert [part][1..] == [];
    assert PartQualifiers([part]) == PartQualifier(part) + PartQualifiers([]) == PartQualifier(part);
  }

  lemma TwoParts(a: string, b: string)
    requires Free(a, ',') && Free(b, ',')
    ensures QualifiersOf(a + "," + b) == PartQualifier(a) + PartQualifier(b)
  {
    hide PartQualifier, SplitOn, Free;
    OnePart(b);
    SplitOnFirst(a, ',', b);
    var parts := [a] + [b];
    assert SplitOn(a + "," + b, ',') == parts;
    assert parts[1..] == [b];
    assert PartQualifiers(parts) == PartQualifier(a) + PartQualifiers([b]);
  }

  lemma FreeWithDock(q: string)
    requires Free(q, ',')
    ensures Free(q + " .dock", ',')
  {
    var s := q + " .dock";
    forall k | 0 <= k < |s| ensures s[k] != ',' {
      if k >= |q| { assert s[k] == " .dock"[k - |q|]; }
    }
  }

  lemma PhoneTextIsWord(text: string)
    requires PhoneText(text)
    ensures Spaceless(text) && Free(text, ',')
  {
    assert |PHONE| == 23;
    VisibleIsNotSpace();
    hide IsSpace, PHONE, Lower;
  }

  lemma OpenTablet()
    ensures PartQualifier(":where(" + TABLET) == [] && Free(":where(" + TABLET, ',')
  {
    var w := ":where(" + TABLET;
    TabletChars();
    VisibleIsNotSpace();
    assert w[|w| - 1] == TABLET[23] == ']';
    assert Spaceless(w) && Free(w, ',') by {
      hide IsSpace, TABLET, Lower;
      forall i | 0 <= i < |w| ensures '!' <= w[i] <= '~' && w[i] != ',' {
        if i >= 7 { assert w[i] == TABLET[i - 7]; } else { assert w[i] == ":where("[i]; }
      }
    }
    NotAPseudo(w);
    OpenListIsNotDock(w);
  }

  lemma NotAPseudo(w: string)
    requires w != "" && w[|w| - 1] == ']'
    ensures WithoutPseudo(w) != ""
  {
    hide Free;
    NameHasNoBracket(if |w| > 1 && w[1] == ':' then w[2..] else w[1..]);
  }

  lemma {:induction false} NameHasNoBracket(name: string)
    ensures forall i :: 0 <= i < NameLength(name) ==> name[i] != ']'
  {
    if name != "" && ('a' <= Lower(name[0]) <= 'z' || name[0] == '-') {
      NameHasNoBracket(name[1..]);
      assert forall i :: 0 < i < |name| ==> name[i] == name[1..][i - 1];
    }
  }

  lemma DockFree()
    ensures Free(".dock", ',')
  {}

  lemma PhoneParts()
    ensures PartQualifier(PHONE + " .dock") == [PHONE] && Free(PHONE + " .dock", ',')
    ensures PartQualifier(PHONE + ")" + " .dock") == [PHONE + ")"] && Free(PHONE + ")" + " .dock", ',')
  {
    PhoneIsText();
    hide PHONE, PhoneText, Free, PartQualifier, Spaceless;
    ClosedPhoneText(PHONE);
    PhoneTextIsWord(PHONE);
    PhoneTextIsWord(PHONE + ")");
    FreeWithDock(PHONE);
    FreeWithDock(PHONE + ")");
    QualifiedDock(PHONE);
    QualifiedDock(PHONE + ")");
  }

  lemma QualifiersAre()
    ensures QualifiersOf(".dock") == [""]
    ensures QualifiersOf(MixedSelector()) == ["", PHONE]
    ensures QualifiersOf(NestedSelector()) == [PHONE]
    ensures QualifiersOf(ListedSelector()) == [PHONE + ")"]
  {
    hide PHONE, TABLET, Free, PartQualifier, QualifiersOf;
    OpenTablet();
    BareDock();
    DockFree();
    PhoneParts();
    OnePart(".dock");
    OnePart(PHONE + " .dock");
    TwoParts(".dock", PHONE + " .dock");
    TwoParts(":where(" + TABLET, PHONE + ")" + " .dock");
  }

  lemma SelectorsArePreludes()
    ensures PreludeText(MixedSelector()) && PreludeText(NestedSelector()) && PreludeText(ListedSelector())
  {
    assert Brace(PHONE) && Brace(TABLET) && Brace(".dock") && Brace(" .dock") && Brace(",") && Brace(":where(") && Brace(")");
    var phone, tablet := PHONE, TABLET;
    assert phone[0] == '.';
    hide PHONE, TABLET;
    BraceConcat(PHONE, " .dock");
    BraceConcat(".dock", ",");
    BraceConcat(".dock" + ",", PHONE + " .dock");
    BraceConcat(":where(", TABLET);
    BraceConcat(":where(" + TABLET, ",");
    BraceConcat(PHONE, ")");
    BraceConcat(PHONE + ")", " .dock");
    BraceConcat(":where(" + TABLET + ",", PHONE + ")" + " .dock");
  }

  predicate Brace(s: string) { BraceFree(s) && Free(s, ';') && s != "" }

  lemma BraceConcat(a: string, b: string)
    requires Brace(a) && Brace(b)
    ensures Brace(a + b) && (a + b)[0] == a[0] && (a + b)[|a + b| - 1] == b[|b| - 1]
  {}

  // ----- Passing the check -----

  lemma ReadText(rule: LeafRule, text: string, reason: Reason)
    requires text in ConditionTexts(rule, ScriptReader()) && ConditionOf(text) == [[[Known(reason, text)]]]
    ensures !ConditionUnknown(ScriptReader().condition(text)) && Names(rule, ScriptReader(), reason)
  {
    hide ConditionTexts, ConditionOf, QualifiersOf, HidesBody, ConditionNames, ConditionUnknown;
    assert ScriptReader().condition(text) == ConditionOf(text);
    ReadsAs(ConditionOf(text), reason, text);
  }

  lemma SeenByCheck(selector: string, conditions: seq<string>)
    requires QualifiersOf(selector) != []
    ensures HidesDock(LeafRule(conditions, selector, HIDE), ScriptReader())
  {
    HideHides();
    hide QualifiersOf, HidesBody, ConditionOf, HIDE;
    assert ScriptReader().qualifiers(selector) == QualifiersOf(selector) && ScriptReader().hides(HIDE) == HidesBody(HIDE);
  }

  lemma TextsOf(rule: LeafRule)
    ensures ConditionTexts(rule, ScriptReader()) == rule.conditions + NonEmpty(QualifiersOf(rule.selector))
  {
    hide QualifiersOf, HidesBody, ConditionOf;
  }

  /** A rule with a single condition, which is read as one reason. */
  lemma OneTextPasses(rule: LeafRule, text: string, reason: Reason)
    requires rule.body == HIDE && QualifiersOf(rule.selector) != []
    requires rule.conditions + NonEmpty(QualifiersOf(rule.selector)) == [text]
    requires ConditionOf(text) == [[[Known(reason, text)]]]
    ensures HidesDock(rule, ScriptReader()) && !Unknown(rule, ScriptReader()) && Names(rule, ScriptReader(), reason)
  {
    hide QualifiersOf, HidesBody, ConditionOf, HIDE, Names, ConditionUnknown, HidesDock;
    SeenByCheck(rule.selector, rule.conditions);
    TextsOf(rule);
    ReadText(rule, text, reason);
    hide ConditionTexts;
  }

  lemma NoQualifier(c: string)
    ensures [c] + NonEmpty([""]) == [c]
  {
    assert [""][1..] == [] && NonEmpty([""]) == [];
  }

  /** A rule outside every block with one qualifier that reads as the phone tier, and the block for coarse pointers. */
  lemma TopSheetPasses(selector: string, text: string)
    requires NonEmpty(QualifiersOf(selector)) == [text] && ConditionOf(text) == [[[Known(PhoneTier, text)]]]
    ensures CheckPasses([LeafRule([], selector, HIDE), LeafRule([MEDIA], ".dock", HIDE)], ScriptReader())
  {
    hide QualifiersOf, HidesBody, ConditionOf, HIDE, MEDIA, PHONE, TABLET, Names, ConditionUnknown, Unknown, HidesDock;
    var rule, block := LeafRule([], selector, HIDE), LeafRule([MEDIA], ".dock", HIDE);
    MediaIsCoarse();
    QualifiersAre();
    NoQualifier(MEDIA);
    OneTextPasses(block, MEDIA, CoarsePointer);
    assert text in NonEmpty(QualifiersOf(selector));
    assert [] + [text] == [text];
    OneTextPasses(rule, text, PhoneTier);
    PassesWhenNamed([rule, block], ScriptReader(), rule, block);
  }

  // ----- What a browser makes of the three selectors -----

  lemma PlainWhen(a: string)
    requires forall i :: 0 <= i < |a| ==> '!' <= a[i] <= '~'
    requires Free(a, ',') && Free(a, '(') && Free(a, ')') && Free(a, ':') && Free(a, '[') && Free(a, ']')
    ensures Plain(a)
  {
    VisibleIsNotSpace();
    hide IsSpace;
  }

  lemma PlainWords()
    ensures Plain(".app") && Plain(".dock")
  {
    PlainWhen(".app");
    PlainWhen(".dock");
  }

  lemma PlainPhone()
    ensures Plain("data-tier=\"phone\"")
  {
    PlainWhen("data-tier=\"phone\"");
  }

  lemma PlainTablet()
    ensures Plain("data-tier=\"tablet\"")
  {
    PlainWhen("data-tier=\"tablet\"");
  }

  lemma PhoneSpelled()
    ensures ".app" + ("[" + ("data-tier=\"phone\"" + "]")) == PHONE
  {}

  lemma TabletSpelled()
    ensures ".app" + ("[" + ("data-tier=\"tablet\"" + "]")) == TABLET
  {}

  lemma WordsBalanced()
    ensures Balanced(PHONE, 0) && Balanced(TABLET, 0) && Balanced(".dock", 0)
  {
    assert Balanced("", 0) && ".dock" + "" == ".dock";
    hide Plain, Balanced, PHONE, TABLET;
    PlainWords();
    PlainPhone();
    PlainTablet();
    PhoneSpelled();
    TabletSpelled();
    BalancedAttribute(".app", "data-tier=\"phone\"");
    BalancedAttribute(".app", "data-tier=\"tablet\"");
    BalancedPlain(".dock", 0, "");
  }

  const DOCK := Subject(AtomThen(".dock", End))

  lemma DockParses()
    ensures ParseComplex(".dock") == DOCK && NamesDock(DOCK) && Parts(".dock") == [".dock"]
    ensures WritesComplex(".dock", DOCK)
  {
    WordsBalanced();
    hide Balanced, WritesComplex, ParseComplex, Parts;
    WriteWord(".dock");
    PartReads(".dock", DOCK);
  }

  /** A compound in front of the Dock. */
  lemma BeforeDock(w: string, c: Compound)
    requires c != End && WritesCompound(w, c)
    ensures Parts(w + " .dock") == [w + " .dock"] && ParseComplex(w + " .dock") == Then(c, DOCK)
  {
    DockParses();
    hide WritesCompound, WritesComplex, ParseComplex, Parts;
    WriteThen(w, c, ".dock", DOCK);
    assert w + " " + ".dock" == w + " .dock";
    PartReads(w + " .dock", Then(c, DOCK));
  }

  lemma MixedParses()
    ensures ".dock" in Parts(MixedSelector())
  {
    DockParses();
    hide Parts, ParseComplex, WritesComplex, PHONE;
    var rest := PHONE + " .dock";
    assert MixedSelector() == ".dock" + ("," + rest);
    FirstPart(".dock", DOCK, rest);
  }

  lemma OpensWhere()
    ensures ListOpener(":where(")
  {}

  // ----- The three stylesheets -----

  /**
   * `.dock,.app[data-tier="phone"] .dock{display:none}@media (pointer: coarse){.dock{display:none}}`
   * passes, and its first rule hides the Dock in every browser.
   */
  lemma MixedListPassesButHidesEverywhere(on: Feature -> bool) returns (css: string)
    ensures css == ".dock" + "," + (PHONE + " .dock") + "{" + HIDE + "}" + (MEDIA + "{" + (".dock{" + HIDE + "}") + "}")
    ensures CheckPasses(RulesOf([css]), ScriptReader())
    ensures RulesOf([css]) != [] && Applies(RulesOf([css])[0], on)
  {
    hide PHONE, MEDIA, HIDE, PreludeText, RulesOf, QualifiersOf, ConditionOf, HidesBody, Parts, ParseComplex, CheckPasses;
    var selector := MixedSelector();
    SelectorsArePreludes();
    css := TopSheetReads(selector);
    QualifiersAre();
    TierIsPhone();
    EmptyThenPhone();
    TopSheetPasses(selector, PHONE);
    HideHides();
    MixedParses();
    DockParses();
    var rule := LeafRule([], selector, HIDE);
    assert ".dock" in Parts(rule.selector) && DockPart(".dock") && MatchesComplex(ParseComplex(".dock"), on);
  }

  /** A bare Dock part makes a rule unsafe, whatever else is in its list. */
  lemma BareDockIsUnsafe(rule: LeafRule)
    requires HidesBody(rule.body) && rule.conditions == [] && ".dock" in Parts(rule.selector)
    ensures !SafeEverywhere(rule)
  {
    DockParses();
    DockIsUnread();
    hide HidesBody, Parts, ParseComplex, SafeEverywhere, ReadFeature;
    assert DockPart(".dock") && !KnownComplex(ParseComplex(".dock"));
    RuleSafeIff(rule);
  }

  lemma OneNonEmpty(s: string)
    requires s != ""
    ensures NonEmpty([s]) == [s]
  {
    assert [s][1..] == [] && NonEmpty([]) == [];
  }

  lemma EmptyThenPhone()
    ensures NonEmpty(["", PHONE]) == [PHONE] && NonEmpty([PHONE]) == [PHONE] && NonEmpty([PHONE + ")"]) == [PHONE + ")"]
  {
    assert PHONE != "";
    hide PHONE;
    assert ["", PHONE][1..] == [PHONE];
    OneNonEmpty(PHONE);
    OneNonEmpty(PHONE + ")");
  }

  /** A tablet with a fine pointer. */
  function FineTablet(): Env { Env(Tablet, false, (f: Feature) => f == Other(TABLET)) }

  /**
   * `:where(.app[data-tier="tablet"],.app[data-tier="phone"]) .dock{display:none}` beside the block for
   * coarse pointers passes: the check drops everything in front of the first comma. On a tablet with a
   * fine pointer, which the predicate does not report, it hides the Dock.
   */
  lemma ListPassesButHidesOnTablet() returns (css: string)
    ensures css == ":where(" + TABLET + "," + (PHONE + ")" + " .dock") + "{" + HIDE + "}" + (MEDIA + "{" + (".dock{" + HIDE + "}") + "}")
    ensures CheckPasses(RulesOf([css]), ScriptReader())
    ensures Faithful(FineTablet()) && !ReportsUnavailable(FineTablet())
    ensures RulesOf([css]) != [] && Applies(RulesOf([css])[0], FineTablet().on)
    ensures !MixedTopLevel(RulesOf([css])[0]) && !DockPartsKnown(RulesOf([css])[0].selector)
  {
    hide PHONE, TABLET, MEDIA, HIDE, PreludeText, RulesOf, QualifiersOf, ConditionOf, HidesBody, CheckPasses, Applies, DockPartsKnown;
    var selector := ListedSelector();
    SelectorsArePreludes();
    css := TopSheetReads(selector);
    QualifiersAre();
    TierIsPhone();
    EmptyThenPhone();
    TopSheetPasses(selector, PHONE + ")");
    ListedApplies();
    ListedUnknown();
  }

  function Word(w: string): Complex { Subject(AtomThen(w, End)) }

  /** The selector is a list, seen by a browser, in front of the Dock. */
  lemma ListedParses()
    ensures Parts(ListedSelector()) == [ListedSelector()]
    ensures ParseComplex(ListedSelector()) == Then(ListThen(Or(Word(TABLET), Single(Word(PHONE))), End), DOCK)
  {
    assert TABLET != "" && PHONE != "";
    hide PHONE, TABLET, Balanced, Parts, ParseComplex, WritesComplex, WritesCompound, WritesList, ListOpener;
    WordsBalanced();
    OpensWhere();
    WriteWord(TABLET);
    WriteWord(PHONE);
    WriteOr(TABLET, Word(TABLET), PHONE, Word(PHONE));
    WriteList(":where(", TABLET + "," + PHONE, Or(Word(TABLET), Single(Word(PHONE))));
    BeforeDock(":where(" + (TABLET + "," + PHONE) + ")", ListThen(Or(Word(TABLET), Single(Word(PHONE))), End));
    Spelled(TABLET, PHONE);
  }

  lemma Spelled(t: string, p: string)
    ensures ":where(" + (t + "," + p) + ")" + " .dock" == ":where(" + t + "," + (p + ")" + " .dock")
  {
    Assoc(":where(", t, "," + p);
    Assoc(t, ",", p);
    Assoc(":where(" + t, ",", p);
    Assoc(":where(" + t + ",", p, ")");
    Assoc(":where(" + t + ",", p + ")", " .dock");
  }

  lemma ListedApplies()
    ensures Applies(LeafRule([], ListedSelector(), HIDE), FineTablet().on)
  {
    HideHides();
    TabletIsUnread();
    ListedParses();
    DockParses();
    hide PHONE, TABLET, HIDE, HidesBody, Parts, ParseComplex, ParseList, ReadFeature, ListedSelector;
    var s := ListedSelector();
    assert s in Parts(s) && DockPart(s) && MatchesComplex(ParseComplex(s), FineTablet().on);
  }

  lemma ListedUnknown()
    ensures !DockPartsKnown(ListedSelector())
  {
    TabletIsUnread();
    ListedParses();
    DockParses();
    DockIsUnread();
    hide PHONE, TABLET, Parts, ParseComplex, ParseList, ReadFeature, ListedSelector;
    var s := ListedSelector();
    assert s in Parts(s) && DockPart(s) && !KnownComplex(ParseComplex(s));
  }

  /**
   * `@media (pointer: coarse){.app[data-tier="phone"] .dock{display:none}}` passes on its own, yet a
   * coarse desktop, which the predicate reports, shows the Dock.
   */
  lemma NestedPassesButShowsDock() returns (css: string)
    ensures css == MEDIA + "{" + (PHONE + " .dock" + "{" + HIDE + "}") + "}"
    ensures CheckPasses(RulesOf([css]), ScriptReader()) && !HiddenWheneverReported(RulesOf([css]))
    ensures ReportsUnavailable(OnlyReason(CoarsePointer)) && OnlyReason(CoarsePointer).tier == Desktop
    ensures forall rule :: rule in RulesOf([css]) ==> !Applies(rule, OnlyReason(CoarsePointer).on)
  {
    hide PHONE, MEDIA, HIDE, PreludeText, RulesOf, QualifiersOf, ConditionOf, HidesBody, CheckPasses, Applies, HiddenWheneverReported;
    SelectorsArePreludes();
    css := BlockSheetReads(NestedSelector());
    var rule := LeafRule([MEDIA], NestedSelector(), HIDE);
    NestedPasses(rule);
    NestedShows(rule);
    HiddenWheneverReportedIff([rule]);
    assert !SomeHidesUnderAlone([rule], CoarsePointer);
  }

  lemma NestedPasses(rule: LeafRule)
    requires rule == LeafRule([MEDIA], NestedSelector(), HIDE)
    ensures CheckPasses([rule], ScriptReader())
  {
    hide PHONE, TABLET, MEDIA, HIDE, QualifiersOf, ConditionOf, HidesBody, Names, ConditionUnknown, NonEmpty;
    QualifiersAre();
    MediaIsCoarse();
    TierIsPhone();
    EmptyThenPhone();
    SeenByCheck(NestedSelector(), [MEDIA]);
    TextsOf(rule);
    var texts := ConditionTexts(rule, ScriptReader());
    assert texts == [MEDIA] + [PHONE];
    assert MEDIA in texts && PHONE in texts;
    ReadText(rule, MEDIA, CoarsePointer);
    ReadText(rule, PHONE, PhoneTier);
    assert !Unknown(rule, ScriptReader()) by { hide ConditionTexts; }
    hide Unknown, HidesDock, ConditionTexts;
    PassesWhenNamed([rule], ScriptReader(), rule, rule);
  }

  lemma WordMustHold(w: string, on: Feature -> bool)
    requires w != "" && Balanced(w, 0) && !on(ReadFeature(w))
    ensures forall part :: part in Parts(w + " .dock") ==> !MatchesComplex(ParseComplex(part), on)
  {
    hide Parts, ParseComplex, ReadFeature, Balanced, WritesCompound;
    WriteWord(w);
    BeforeDock(w, AtomThen(w, End));
  }

  lemma NestedShows(rule: LeafRule)
    requires rule == LeafRule([MEDIA], NestedSelector(), HIDE)
    ensures !Applies(rule, Only(CoarsePointer))
  {
    assert PHONE != "";
    hide PHONE, TABLET, MEDIA, HIDE, HidesBody, Parts, ParseComplex, ReadFeature, Balanced, BlockHolds, ConditionOf, MatchesComplex, DockPart;
    TierIsPhone();
    WordsBalanced();
    WordMustHold(PHONE, Only(CoarsePointer));
  }

  // ----- The repository's own rules -----

  const TIER := ":where(.app[data-tier=\"phone\"])"
  const BODY := "\n    display: none !important;\n  "

  /** `{ .dock { display: none !important; } }` under a prelude, laid out as in mobile.css and tablet.css. */
  function RealSheet(prelude: string): Body {
    More("", Node(prelude + " ", More("", Node("\n  .dock ", Last(BODY)), Last("\n"))), Last("\n"))
  }

  const PIECE := "\n    display: none !important"

  lemma PieceParts()
    ensures Blank("\n    ") && Blank("") && Blank(" ") && Spells("display", "display") && Spells("none", "none")
    ensures Importance(" !important")
  {
    assert Spells("!important", "!important") && Blank(" ") && Blank("");
    assert " !important" == " " + "!important" + "";
    hide IsSpace, Blank, Spells;
  }

  lemma PieceText()
    ensures "\n    " + "display" + "" + ":" + " " + "none" + " !important" == PIECE
  {}

  lemma PieceDeclares()
    ensures Declares(PIECE, "display", "none")
  {
    hide PIECE, Declares, Blank, Spells, Importance;
    PieceParts();
    PieceText();
    PartsDeclare("\n    ", "display", "", " ", "none", " !important", "display", "none");
  }

  lemma PieceOfBody()
    ensures PIECE in SplitOn(BODY, ';')
  {
    assert Free(PIECE, ';');
    assert PIECE + ";" + "\n  " == BODY;
    hide PIECE, BODY, SplitOn;
    SplitOnFirst(PIECE, ';', "\n  ");
  }

  lemma BodyHides()
    ensures HidesBody(BODY)
  {
    hide PIECE, BODY, Declares, SplitOn;
    PieceDeclares();
    PieceOfBody();
    assert HidesIn(PIECE);
  }

  lemma BlankTexts()
    ensures Blank(" ") && Blank("\n") && Blank("\n  ") && Blank("")
  {}

  lemma RealFlattens(prelude: string)
    requires PreludeText(prelude)
    ensures Flatten(RealSheet(prelude), []) == [LeafRule([prelude], ".dock", BODY)]
  {
    hide BODY, PreludeText;
    TrimmedPreludes(prelude);
    NoOwnRule([]);
    NoOwnRule([prelude]);
    BlankOwnRule([]);
    BlankOwnRule([prelude]);
    hide Trim, OwnRule;
    var inside := More("", Node("\n  .dock ", Last(BODY)), Last("\n"));
    assert FlattenNode(Node("\n  .dock ", Last(BODY)), [prelude]) == [LeafRule([prelude], ".dock", BODY)];
    assert Flatten(inside, [prelude]) == [LeafRule([prelude], ".dock", BODY)];
    assert FlattenNode(Node(prelude + " ", inside), []) == Flatten(inside, [] + [prelude]);
    assert [] + [prelude] == [prelude];
  }

  lemma BlankOwnRule(conditions: seq<string>)
    ensures OwnRule("\n", conditions) == []
  {
    BlankTexts();
    TrimBlank("\n");
    hide Trim;
  }

  lemma RealTexts()
    ensures BraceFree(BODY) && BraceFree("\n") && BraceFree("\n  .dock ") && Free("\n  .dock ", ';') && Brace(" ")
  {}

  lemma TrimmedPreludes(prelude: string)
    requires PreludeText(prelude)
    ensures Trim(prelude + " ") == prelude && Trim("\n  .dock ") == ".dock"
  {
    BlankTexts();
    VisibleIsNotSpace();
    assert Tight(prelude) && Tight(".dock");
    hide Blank, IsSpace, PreludeText, Tight, Trim;
    TrimDrops("", prelude, " ");
    TrimDrops("\n  ", ".dock", " ");
    assert "" + prelude + " " == prelude + " " && "\n  " + ".dock" + " " == "\n  .dock ";
  }

  lemma RealWellFormed(prelude: string)
    requires PreludeText(prelude)
    ensures WellFormed(RealSheet(prelude))
  {
    assert Brace(prelude);
    hide BODY, PreludeText, Trim;
    RealTexts();
    TrimmedPreludes(prelude);
    BraceConcat(prelude, " ");
    hide BraceFree, Free;
    var inside := More("", Node("\n  .dock ", Last(BODY)), Last("\n"));
    assert WellFormed(Last(BODY)) && WellFormed(Last("\n"));
    assert WellFormed(inside);
  }

  lemma RealText(prelude: string)
    ensures PrintBody(RealSheet(prelude)) == prelude + (" {" + ("\n  .dock {" + BODY + "}" + "\n") + "}" + "\n")
  {
    hide BODY, PrintBody;
    var inside := More("", Node("\n  .dock ", Last(BODY)), Last("\n"));
    PrintedBlock("\n  .dock ", Last(BODY), Last("\n"));
    PrintedBlock(prelude + " ", inside, Last("\n"));
    LastText("\n");
    LastText(BODY);
    assert "\n  .dock " + "{" == "\n  .dock {" && " " + "{" == " {";
    var block := "\n  .dock {" + BODY + "}" + "\n";
    assert PrintBody(inside) == block;
    assert prelude + " " + "{" + block + "}" + "\n" == prelude + (" {" + block + "}" + "\n");
  }

  lemma LastText(d: string)
    ensures PrintBody(Last(d)) == d
  {}

  // ----- `:where(.app[data-tier="phone"])` -----

  lemma TierChars()
    ensures |TIER| == 31
    ensures forall i :: 0 <= i < 31 ==> '!' <= TIER[i] <= '~' && TIER[i] != ',' && TIER[i] != '{' && TIER[i] != '}' && TIER[i] != ';'
  {}

  lemma TierNot()
    ensures forall i :: 0 <= i < |TIER| - 1 && Lower(TIER[i]) == 'n' ==> Lower(TIER[i + 1]) != 'o'
  {}

  lemma TierOpens()
    ensures forall i :: 0 <= i < |TIER| - 1 && TIER[i] == '(' ==> TIER[i + 1] != 'p'
  {}

  lemma NoCoarseUnless(text: string)
    requires forall i :: 0 <= i < |text| - 1 && text[i] == '(' ==> text[i + 1] != 'p'
    ensures !HasCoarse(text)
  {
    forall i | 0 <= i <= |text| ensures !CoarseAt(text[i..]) {
      hide SkipSpaces;
      assert |text[i..]| >= 9 ==> text[i..][..9][0] == text[i] && text[i..][..9][1] == text[i + 1];
    }
  }

  lemma TierNoCoarse()
    ensures !HasCoarse(TIER)
  {
    hide HasCoarse;
    TierOpens();
    NoCoarseUnless(TIER);
  }

  lemma TierReads()
    ensures ReadFeature(TIER) == Known(PhoneTier, TIER)
  {
    TierNot();
    NoNot(TIER);
    TierNoCoarse();
    assert TIER[11..][..19] == PATTERN;
    assert StartsWith(TIER[11..], PATTERN);
    assert HasPhone(TIER);
    hide HasNot, HasCoarse, HasPhone;
  }

  lemma TierIsKnown()
    ensures ConditionOf(TIER) == [[[Known(PhoneTier, TIER)]]] && PreludeText(TIER)
  {
    TierChars();
    VisibleIsNotSpace();
    hide TIER, IsSpace, Lower, ConditionOf, ReadFeature;
    TierReads();
    LooseIsOnePiece(TIER);
  }

  /** A browser reads a list with one argument. */
  lemma TierParses()
    ensures ParseList(TIER) == Single(Subject(ListThen(Single(Word(PHONE)), End)))
  {
    assert PHONE != "";
    TierSpelled();
    hide TIER, PHONE, Balanced, ParseList, WritesComplex, WritesCompound, WritesList, ListOpener;
    WordsBalanced();
    OpensWhere();
    WriteWord(PHONE);
    OneOfOne(PHONE, Word(PHONE));
    WriteList(":where(", PHONE, Single(Word(PHONE)));
    PartReads(TIER, Subject(ListThen(Single(Word(PHONE)), End)));
  }

  lemma OneOfOne(s: string, x: Complex)
    requires WritesComplex(s, x)
    ensures WritesList(s, Single(x))
  {}

  lemma TierSpelled()
    ensures TIER == ":where(" + PHONE + ")"
  {}

  // ----- The real rules pass, and are right -----

  lemma RealRule(prelude: string, reason: Reason) returns (css: string)
    requires PreludeText(prelude) && ConditionOf(prelude) == [[[Known(reason, prelude)]]]
    ensures css == prelude + (" {" + ("\n  .dock {" + BODY + "}" + "\n") + "}" + "\n")
    ensures Scan(css, "", []) == [LeafRule([prelude], ".dock", BODY)]
    ensures var rule := LeafRule([prelude], ".dock", BODY);
            HidesDock(rule, ScriptReader()) && !Unknown(rule, ScriptReader()) && Names(rule, ScriptReader(), reason)
  {
    css := PrintBody(RealSheet(prelude));
    var rule := LeafRule([prelude], ".dock", BODY);
    hide BODY, PHONE, TABLET, PreludeText, ConditionOf, HidesBody, QualifiersOf, Names, ConditionUnknown, Scan, Flatten, PrintBody, WellFormed, RealSheet;
    RealText(prelude);
    RealWellFormed(prelude);
    RealFlattens(prelude);
    ScanInvertsPrint(RealSheet(prelude), []);
    BodyHides();
    QualifiersAre();
    NoQualifier(prelude);
    TextsOf(rule);
    ReadText(rule, prelude, reason);
    assert ScriptReader().qualifiers(".dock") == QualifiersOf(".dock") && ScriptReader().hides(BODY) == HidesBody(BODY);
    hide ConditionTexts;
  }

  lemma RealIsSafe(rule: LeafRule)
    requires Accepted(rule) && rule.conditions != [] && rule.selector == ".dock"
    requires forall c :: c in rule.conditions ==> AtRule(c) || !HasCoarse(c)
    ensures SafeEverywhere(rule)
  {
    WordsBalanced();
    hide Accepted, SafeEverywhere, HasCoarse, Parts, Balanced, Compounds;
    DockAlone();
    AcceptedRuleSafeIff(rule);
  }

  lemma DockAlone()
    ensures Parts(".dock") == [".dock"] && !HasCoarse(Qualifier(".dock"))
  {
    WordsBalanced();
    DockParses();
    StopsSkip();
    hide Balanced, Until, Parts, WritesComplex, ParseComplex, Skipping;
    assert ".dock" + "" == ".dock";
    PastWord(".dock", "", AtBlank());
    AtEnd(AtBlank());
    assert Compounds(".dock") == [".dock"] by { assert SkipSpaces("") == ""; }
    assert [".dock"][..0] == [] && Qualifier(".dock") == "";
    NoCoarse("");
  }

  lemma RealApplies(prelude: string, r: Reason)
    requires BlockHolds(prelude, Only(r))
    ensures Applies(LeafRule([prelude], ".dock", BODY), Only(r))
  {
    BodyHides();
    DockAlone();
    DockParses();
    hide BODY, HidesBody, Parts, ParseComplex, BlockHolds;
    assert ".dock" in Parts(".dock") && DockPart(".dock") && MatchesComplex(ParseComplex(".dock"), Only(r));
  }

  lemma OneWordHolds(t: string, on: Feature -> bool)
    requires on(ReadFeature(t))
    ensures HoldsList(Single(Subject(ListThen(Single(Word(t)), End))), on)
  {
    hide ReadFeature;
    var word := Word(t);
    assert HoldsCompound(End, on) && HoldsComplex(word, on) && HoldsList(Single(word), on);
    assert HoldsCompound(ListThen(Single(word), End), on);
  }

  lemma TierHolds()
    ensures BlockHolds(TIER, Only(PhoneTier)) && !AtRule(TIER)
  {
    assert TIER[0] == ':';
    hide TIER, PHONE, ReadFeature, ParseList, ConditionOf, HoldsList;
    TierParses();
    PhoneHolds();
  }

  lemma PhoneHolds()
    ensures Only(PhoneTier)(ReadFeature(PHONE))
    ensures HoldsList(Single(Subject(ListThen(Single(Word(PHONE)), End))), Only(PhoneTier))
  {
    hide PHONE, ReadFeature, ConditionOf, HoldsList;
    TierIsPhone();
    OneWordHolds(PHONE, Only(PhoneTier));
  }

  lemma OneTermHolds(q: Condition, f: Feature, on: Feature -> bool)
    requires q == [[[f]]] && on(f)
    ensures QueryHolds(q, on)
  {
    var t: Term := [f];
    var a: Arm := [t];
    assert t in a && a in q;
  }

  lemma MediaHolds()
    ensures BlockHolds(MEDIA, Only(CoarsePointer)) && AtRule(MEDIA)
  {
    assert MEDIA[0] == '@';
    hide MEDIA, ConditionOf, ParseList, QueryHolds;
    MediaIsCoarse();
    OneTermHolds(ConditionOf(MEDIA), Known(CoarsePointer, MEDIA), Only(CoarsePointer));
  }

  /**
   * `.dock { display: none !important; }`, once under the phone tier and once for coarse pointers, passes;
   * and rightly so: neither rule hides the Dock where it is reported available, and it is hidden
   * wherever it is reported unavailable.
   */
  lemma RealRulesPassAndAreRight() returns (phone: string, coarse: string)
    ensures phone == TIER + (" {" + ("\n  .dock {" + BODY + "}" + "\n") + "}" + "\n")
    ensures coarse == MEDIA + (" {" + ("\n  .dock {" + BODY + "}" + "\n") + "}" + "\n")
    ensures CheckPasses(RulesOf([phone, coarse]), ScriptReader())
    ensures forall rule :: rule in RulesOf([phone, coarse]) ==> SafeEverywhere(rule)
    ensures HiddenWheneverReported(RulesOf([phone, coarse]))
  {
    hide TIER, MEDIA, BODY, PreludeText, ConditionOf, Scan, SafeEverywhere, HiddenWheneverReported, Names, Unknown, HidesDock;
    hide CheckPasses, Applies, BlockHolds, HasCoarse, AtRule;
    TierIsKnown();
    MediaIsCoarse();
    Preludes();
    phone := RealRule(TIER, PhoneTier);
    coarse := RealRule(MEDIA, CoarsePointer);
    var one, two := LeafRule([TIER], ".dock", BODY), LeafRule([MEDIA], ".dock", BODY);
    assert RulesOf([phone, coarse]) == [one, two] by { TwoFiles(phone, coarse); }
    PassesWhenNamed([one, two], ScriptReader(), one, two);
    TierNoCoarse();
    TierHolds();
    MediaHolds();
    RealIsSafe(one);
    RealIsSafe(two);
    RealApplies(TIER, PhoneTier);
    RealApplies(MEDIA, CoarsePointer);
    forall r: Reason ensures SomeHidesUnderAlone([one, two], r) {
      match r
      case PhoneTier => assert one in [one, two] && Applies(one, Only(r));
      case CoarsePointer => assert two in [one, two] && Applies(two, Only(r));
    }
    HiddenWheneverReportedIff([one, two]);
  }

  lemma TwoFiles(a: string, b: string)
    ensures RulesOf([a, b]) == Scan(a, "", []) + Scan(b, "", [])
  {
    hide Scan;
    assert [a, b][..1] == [a] && [a][..0] == [] && RulesOf([]) == [];
    assert RulesOf([a]) == [] + Scan(a, "", []) == Scan(a, "", []);
  }
}
