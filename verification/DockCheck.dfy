/**
 * The availability check of scripts/check-dock-availability.ts: every rule that hides the Dock must
 * hang under a condition that the app's predicate (frontend/src/lib/dockAvailability.ts) knows.
 */
module DockCheck {
  import opened Text
  import opened CssScanner

  // ----- The app's predicate -----

  datatype Reason = PhoneTier | CoarsePointer

  datatype Tier = Phone | Tablet | Desktop

  function DockUnavailableReason(tier: Tier, coarsePointer: bool): Option<Reason> {
    if tier == Phone then Some(PhoneTier)
    else if coarsePointer then Some(CoarsePointer)
    else None
  }

  /** On a phone it is the tier, whatever the pointer; elsewhere a coarse pointer; otherwise the Dock is there. */
  lemma ReasonIff(tier: Tier, coarsePointer: bool)
    ensures var r := DockUnavailableReason(tier, coarsePointer);
            && (r == Some(PhoneTier) <==> tier == Phone)
            && (r == Some(CoarsePointer) <==> tier in {Tablet, Desktop} && coarsePointer)
            && (r == None <==> tier in {Tablet, Desktop} && !coarsePointer)
  {}

  /** The reasons the predicate can return, collected over every tier and both pointers. */
  method PredicateReasons() returns (reasons: set<Reason>)
    ensures reasons == PredicateReasonSet()
    ensures forall r :: r in reasons <==> exists tier, coarse :: DockUnavailableReason(tier, coarse) == Some(r)
  {
    reasons := {};
    var tiers := [Phone, Tablet, Desktop];
    var pointers := [false, true];
    for i := 0 to |tiers|
      invariant reasons == set k, j | 0 <= k < i && 0 <= j < 2 && DockUnavailableReason(tiers[k], pointers[j]).Some?
                             :: DockUnavailableReason(tiers[k], pointers[j]).value
    {
      ghost var before := reasons;
      for j := 0 to |pointers|
        invariant reasons == before + set m | 0 <= m < j && DockUnavailableReason(tiers[i], pointers[m]).Some?
                                        :: DockUnavailableReason(tiers[i], pointers[m]).value
      {
        var reason := DockUnavailableReason(tiers[i], pointers[j]);
        if reason.Some? {
          reasons := reasons + {reason.value};
        }
      }
    }
    assert DockUnavailableReason(tiers[0], pointers[0]) == Some(PhoneTier);
    assert DockUnavailableReason(tiers[1], pointers[1]) == Some(CoarsePointer);
  }

  function PredicateReasonSet(): set<Reason> {
    {PhoneTier, CoarsePointer}
  }

  // ----- Conditions as the check reads them -----

  /** One feature of a condition: a known pattern, a feature under `not`, or anything else. */
  datatype Feature = Known(reason: Reason, text: string) | Negated(text: string) | Other(text: string)

  // Splitting a string always gives at least one piece.
  type Term = t: seq<Feature> | |t| > 0 witness [Other("")]  // joined by `and`
  type Arm = a: seq<Term> | |a| > 0 witness [[Other("")]]  // terms joined by `or`
  type Condition = c: seq<Arm> | |c| > 0 witness [[[Other("")]]]  // arms separated by commas

  /**
   * What the regular expressions of the script read off a string: the qualifier in front of each
   * Dock subject of a selector, whether a body hides its subject, and the shape of a condition.
   */
  datatype Reader = Reader(qualifiers: string -> seq<string>, hides: string -> bool, condition: string -> Condition)

  predicate TermUnknown(t: Term) { exists f :: f in t && !f.Known? }
  predicate ArmUnknown(a: Arm) { exists t :: t in a && TermUnknown(t) }
  predicate ConditionUnknown(c: Condition) { exists a :: a in c && ArmUnknown(a) }

  predicate TermNames(t: Term, r: Reason) { exists f :: f in t && f.Known? && f.reason == r }
  predicate ArmNames(a: Arm, r: Reason) { exists t :: t in a && TermNames(t, r) }
  predicate ConditionNames(c: Condition, r: Reason) { exists a :: a in c && ArmNames(a, r) }

  // ----- The classification loops -----

  method ReadTerm(term: Term, reasons0: seq<Reason>, unknown0: bool) returns (reasons: seq<Reason>, unknown: bool)
    ensures unknown <==> unknown0 || TermUnknown(term)
    ensures forall r :: r in reasons <==> r in reasons0 || TermNames(term, r)
  {
    reasons, unknown := reasons0, unknown0;
    for i := 0 to |term|
      invariant unknown <==> unknown0 || exists f :: f in term[..i] && !f.Known?
      invariant forall r :: r in reasons <==> r in reasons0 || exists f :: f in term[..i] && f.Known? && f.reason == r
    {
      assert term[..i + 1] == term[..i] + [term[i]] && term[i] in term[..i + 1];
      match term[i] {
        case Known(reason, _) =>
          if reason !in reasons {
            reasons := reasons + [reason];
          }
        case Negated(_) => unknown := true;
        case Other(_) => unknown := true;
      }
    }
    assert term[..|term|] == term;
  }

  method ReadArm(arm: Arm, reasons0: seq<Reason>, unknown0: bool) returns (reasons: seq<Reason>, unknown: bool)
    ensures unknown <==> unknown0 || ArmUnknown(arm)
    ensures forall r :: r in reasons <==> r in reasons0 || ArmNames(arm, r)
  {
    hide TermUnknown, TermNames;
    reasons, unknown := reasons0, unknown0;
    for i := 0 to |arm|
      invariant unknown <==> unknown0 || exists t :: t in arm[..i] && TermUnknown(t)
      invariant forall r :: r in reasons <==> r in reasons0 || exists t :: t in arm[..i] && TermNames(t, r)
    {
      assert arm[..i + 1] == arm[..i] + [arm[i]];
      reasons, unknown := ReadTerm(arm[i], reasons, unknown);
    }
    assert arm[..|arm|] == arm;
  }

  method ReadCondition(c: Condition, reasons0: seq<Reason>, unknown0: bool) returns (reasons: seq<Reason>, unknown: bool)
    ensures unknown <==> unknown0 || ConditionUnknown(c)
    ensures forall r :: r in reasons <==> r in reasons0 || ConditionNames(c, r)
  {
    hide ArmUnknown, ArmNames;
    reasons, unknown := reasons0, unknown0;
    for i := 0 to |c|
      invariant unknown <==> unknown0 || exists a :: a in c[..i] && ArmUnknown(a)
      invariant forall r :: r in reasons <==> r in reasons0 || exists a :: a in c[..i] && ArmNames(a, r)
    {
      assert c[..i + 1] == c[..i] + [c[i]];
      reasons, unknown := ReadArm(c[i], reasons, unknown);
    }
    assert c[..|c|] == c;
  }

  predicate HidesDock(rule: LeafRule, rd: Reader) {
    rd.qualifiers(rule.selector) != [] && rd.hides(rule.body)
  }

  /** The enclosing blocks and the selector's own qualifiers. */
  function ConditionTexts(rule: LeafRule, rd: Reader): seq<string> {
    rule.conditions + NonEmpty(rd.qualifiers(rule.selector))
  }

  predicate Unknown(rule: LeafRule, rd: Reader) {
    ConditionTexts(rule, rd) == [] || exists c :: c in ConditionTexts(rule, rd) && ConditionUnknown(rd.condition(c))
  }

  predicate Names(rule: LeafRule, rd: Reader, r: Reason) {
    exists c :: c in ConditionTexts(rule, rd) && ConditionNames(rd.condition(c), r)
  }

  datatype Verdict = Verdict(reasons: seq<Reason>, unknown: bool)

  method Classify(rule: LeafRule, rd: Reader) returns (v: Verdict)
    ensures v.unknown <==> Unknown(rule, rd)
    ensures forall r :: r in v.reasons <==> Names(rule, rd, r)
  {
    hide ConditionUnknown, ConditionNames;
    var conditions := ConditionTexts(rule, rd);
    var reasons, unknown := [], conditions == [];
    for i := 0 to |conditions|
      invariant unknown <==> conditions == [] || exists c :: c in conditions[..i] && ConditionUnknown(rd.condition(c))
      invariant forall r :: r in reasons <==> exists c :: c in conditions[..i] && ConditionNames(rd.condition(c), r)
    {
      assert conditions[..i + 1] == conditions[..i] + [conditions[i]];
      reasons, unknown := ReadCondition(rd.condition(conditions[i]), reasons, unknown);
    }
    assert conditions[..|conditions|] == conditions;
    v := Verdict(reasons, unknown);
  }

  predicate SomeUnknown(rules: seq<LeafRule>, rd: Reader) {
    exists rule :: rule in rules && HidesDock(rule, rd) && Unknown(rule, rd)
  }

  predicate SomeNames(rules: seq<LeafRule>, rd: Reader, r: Reason) {
    exists rule :: rule in rules && HidesDock(rule, rd) && Names(rule, rd, r)
  }

  /** The check passes: no hiding rule is unknown, and the CSS names exactly the predicate's reasons. */
  predicate CheckPasses(rules: seq<LeafRule>, rd: Reader) {
    !SomeUnknown(rules, rd) && forall r :: r in PredicateReasonSet() <==> SomeNames(rules, rd, r)
  }

  /** The leaf rules of all stylesheets, file by file. */
  function RulesOf(files: seq<string>): seq<LeafRule> {
    if files == [] then [] else RulesOf(files[..|files| - 1]) + Scan(files[|files| - 1], "", [])
  }

  /** The inner loop of `dockHidingRules`: one stylesheet, on top of what the ones before it gave. */
  method ReadSheet(css: string, rd: Reader, ghost before: seq<LeafRule>, unknown0: bool, reasons0: set<Reason>)
      returns (unknown: bool, reasons: set<Reason>)
    requires unknown0 <==> SomeUnknown(before, rd)
    requires forall r :: r in reasons0 <==> SomeNames(before, rd, r)
    ensures unknown <==> SomeUnknown(before + Scan(css, "", []), rd)
    ensures forall r :: r in reasons <==> SomeNames(before + Scan(css, "", []), rd, r)
  {
    hide Unknown, Names, HidesDock, SomeUnknown, SomeNames, Scan;
    var rules := LeafRules(css, []);
    unknown, reasons := unknown0, reasons0;
    assert before + rules[..0] == before;
    for i := 0 to |rules|
      invariant unknown <==> SomeUnknown(before + rules[..i], rd)
      invariant forall r :: r in reasons <==> SomeNames(before + rules[..i], rd, r)
    {
      OneMoreRule(before + rules[..i], rules[i], rd);
      assert before + rules[..i + 1] == before + rules[..i] + [rules[i]];
      if HidesDock(rules[i], rd) {
        var v := Classify(rules[i], rd);
        unknown := unknown || v.unknown;
        reasons := reasons + set r | r in v.reasons;
      }
    }
    assert rules[..|rules|] == rules;
  }

  /** `dockHidingRules` over every stylesheet, followed by the two comparisons. */
  method Check(files: seq<string>, rd: Reader) returns (ok: bool)
    ensures ok <==> CheckPasses(RulesOf(files), rd)
  {
    hide SomeUnknown, SomeNames, Scan, PredicateReasonSet;
    var unknown := false;
    var cssReasons: set<Reason> := {};
    NoRules(rd);
    for i := 0 to |files|
      invariant unknown <==> SomeUnknown(RulesOf(files[..i]), rd)
      invariant forall r :: r in cssReasons <==> SomeNames(RulesOf(files[..i]), rd, r)
    {
      assert files[..i + 1][..i] == files[..i];
      unknown, cssReasons := ReadSheet(files[i], rd, RulesOf(files[..i]), unknown, cssReasons);
    }
    assert files[..|files|] == files;
    var known := PredicateReasons();
    ok := !unknown && known == cssReasons;
  }

  /**
   * The check passes exactly when no rule that hides the Dock has a condition it does not know, every
   * reason the predicate can return is named by a hiding rule, and no other is.
   */
  lemma PassesIff(rules: seq<LeafRule>, rd: Reader)
    ensures CheckPasses(rules, rd) <==>
            && (forall rule :: rule in rules && HidesDock(rule, rd) ==> !Unknown(rule, rd))
            && forall r :: (exists tier, coarse :: DockUnavailableReason(tier, coarse) == Some(r)) <==>
                 (exists rule :: rule in rules && HidesDock(rule, rd) && Names(rule, rd, r))
  {
    hide Unknown, Names, HidesDock;
    assert DockUnavailableReason(Phone, false) == Some(PhoneTier);
    assert DockUnavailableReason(Desktop, true) == Some(CoarsePointer);
    forall r: Reason ensures r in PredicateReasonSet() {
      match r
      case PhoneTier =>
      case CoarsePointer =>
    }
    forall r: Reason ensures exists tier, coarse :: DockUnavailableReason(tier, coarse) == Some(r) {
      match r
      case PhoneTier =>
      case CoarsePointer =>
    }
    forall r ensures SomeNames(rules, rd, r) <==> exists rule :: rule in rules && HidesDock(rule, rd) && Names(rule, rd, r) {}
  }

  lemma NoRules(rd: Reader)
    ensures !SomeUnknown([], rd) && forall r :: !SomeNames([], rd, r)
  {}

  lemma OneMoreRule(rules: seq<LeafRule>, rule: LeafRule, rd: Reader)
    ensures SomeUnknown(rules + [rule], rd) <==> SomeUnknown(rules, rd) || (HidesDock(rule, rd) && Unknown(rule, rd))
    ensures forall r :: SomeNames(rules + [rule], rd, r) <==>
            SomeNames(rules, rd, r) || (HidesDock(rule, rd) && Names(rule, rd, r))
  {
    hide Unknown, Names, HidesDock;
  }

  // ----- Stylesheets as trees -----

  /** The text of each stylesheet. */
  function Texts(sheets: seq<Body>): (files: seq<string>)
    ensures |files| == |sheets|
  {
    seq(|sheets|, i requires 0 <= i < |sheets| => PrintBody(sheets[i]))
  }

  lemma {:induction false} RulesOfSheets(sheets: seq<Body>, i: nat)
    requires i < |sheets| && forall j :: 0 <= j < |sheets| ==> WellFormed(sheets[j])
    ensures forall rule :: rule in Flatten(sheets[i], []) ==> rule in RulesOf(Texts(sheets))
    decreases |sheets|
  {
    hide Scan, Flatten, PrintBody, WellFormed;
    var n := |sheets| - 1;
    assert Texts(sheets)[..n] == Texts(sheets[..n]);
    if i == n {
      ScanInvertsPrint(sheets[n], []);
    } else {
      RulesOfSheets(sheets[..n], i);
    }
  }
}
