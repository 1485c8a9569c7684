/**
 * What the Dock check is worth in a browser: when the rules it accepts hide the Dock, and whether the
 * app's predicate then reports it. Selectors mean what `Selectors` says, not what the check reads.
 */
module DockMeaning {
  import opened Text
  import opened CssScanner
  import opened DockCheck
  import opened DockReader
  import opened Selectors
  import opened Fragments

  // ----- Rules in a browser -----

  /** A browser at some tier and pointer, and which texts hold in it. */
  datatype Env = Env(tier: Tier, coarse: bool, on: Feature -> bool)

  predicate ReasonHolds(r: Reason, env: Env) {
    match r
    case PhoneTier => env.tier == Phone
    case CoarsePointer => env.coarse
  }

  /**
   * A text with a known pattern and without the word `not` holds only where the pattern's reason does,
   * whatever else the text says. Nothing is assumed of other texts.
   */
  ghost predicate Faithful(env: Env) {
    forall f: Feature :: env.on(f) && f.Known? ==> ReasonHolds(f.reason, env)
  }

  predicate ReportsUnavailable(env: Env) {
    DockUnavailableReason(env.tier, env.coarse).Some?
  }

  predicate AtRule(prelude: string) { prelude != "" && prelude[0] == '@' }

  /** A query is a list of alternatives, each a conjunction of features. */
  predicate QueryHolds(q: Condition, on: Feature -> bool) {
    exists a :: a in q && exists t :: t in a && forall f :: f in t ==> on(f)
  }

  /** A block applies when its query does, or when an element matches its selector. */
  predicate BlockHolds(prelude: string, on: Feature -> bool) {
    if AtRule(prelude) then QueryHolds(ConditionOf(prelude), on) else HoldsList(ParseList(prelude), on)
  }

  /** A part of a selector list whose subject is the Dock. */
  predicate DockPart(part: string) { NamesDock(ParseComplex(part)) }

  /** The rule hides the Dock: all its blocks apply, and a part of its selector matches the Dock. */
  predicate Applies(rule: LeafRule, on: Feature -> bool) {
    && HidesBody(rule.body)
    && (forall c :: c in rule.conditions ==> BlockHolds(c, on))
    && exists part :: part in Parts(rule.selector) && DockPart(part) && MatchesComplex(ParseComplex(part), on)
  }

  /** In every browser where the rule hides the Dock, the predicate reports it. */
  ghost predicate SafeEverywhere(rule: LeafRule) {
    forall env: Env :: Faithful(env) && Applies(rule, env.on) ==> ReportsUnavailable(env)
  }

  // ----- Exactly which rules are safe -----

  /** Every alternative of a query has a feature with a known pattern. */
  predicate KnownQuery(q: Condition) {
    forall a, t :: a in q && t in a ==> exists f :: f in t && f.Known?
  }

  predicate KnownBlock(prelude: string) {
    if AtRule(prelude) then KnownQuery(ConditionOf(prelude)) else KnownList(ParseList(prelude))
  }

  predicate DockPartsKnown(selector: string) {
    forall part :: part in Parts(selector) && DockPart(part) ==> KnownComplex(ParseComplex(part))
  }

  /** Some block around the rule is known, or every Dock part is. */
  predicate Guarded(rule: LeafRule) {
    (exists c :: c in rule.conditions && KnownBlock(c)) || DockPartsKnown(rule.selector)
  }

  lemma KnownBlockIff(prelude: string)
    ensures KnownBlock(prelude) <==> !BlockHolds(prelude, Unread())
  {
    hide ConditionOf, ParseList;
    KnownListIff(ParseList(prelude));
    var q := ConditionOf(prelude);
    assert KnownQuery(q) <==> !QueryHolds(q, Unread()) by {
      if QueryHolds(q, Unread()) {
        var a :| a in q && exists t :: t in a && forall f :: f in t ==> Unread()(f);
        var t :| t in a && forall f :: f in t ==> Unread()(f);
        assert !exists f :: f in t && f.Known?;
      }
      if !KnownQuery(q) {
        var a, t :| a in q && t in a && !exists f :: f in t && f.Known?;
        assert forall f :: f in t ==> Unread()(f);
      }
    }
  }

  lemma BlockGrows(prelude: string, on: Feature -> bool, more: Feature -> bool)
    requires forall f :: on(f) ==> more(f)
    ensures BlockHolds(prelude, on) ==> BlockHolds(prelude, more)
  {
    hide ConditionOf, ParseList;
    ListGrows(ParseList(prelude), on, more);
    var q := ConditionOf(prelude);
    if QueryHolds(q, on) {
      var a :| a in q && exists t :: t in a && forall f :: f in t ==> on(f);
      var t :| t in a && forall f :: f in t ==> on(f);
      assert forall f :: f in t ==> more(f);
    }
  }

  lemma AppliesGrows(rule: LeafRule, on: Feature -> bool, more: Feature -> bool)
    requires Applies(rule, on) && forall f :: on(f) ==> more(f)
    ensures Applies(rule, more)
  {
    hide BlockHolds, HidesBody, DockPart, ParseComplex;
    forall c | c in rule.conditions ensures BlockHolds(c, more) { BlockGrows(c, on, more); }
    var part :| part in Parts(rule.selector) && DockPart(part) && MatchesComplex(ParseComplex(part), on);
    ComplexGrows(ParseComplex(part), on, more);
  }

  lemma GuardedIff(rule: LeafRule)
    requires HidesBody(rule.body)
    ensures Guarded(rule) <==> !Applies(rule, Unread())
  {
    hide KnownBlock, BlockHolds, HidesBody, DockPart, ParseComplex;
    forall c ensures KnownBlock(c) <==> !BlockHolds(c, Unread()) { KnownBlockIff(c); }
    forall part ensures KnownComplex(ParseComplex(part)) <==> !MatchesComplex(ParseComplex(part), Unread()) {
      KnownComplexIff(ParseComplex(part));
    }
  }

  /** Any rule that hides what it matches, accepted or not, is safe exactly when it is guarded. */
  lemma RuleSafeIff(rule: LeafRule)
    requires HidesBody(rule.body)
    ensures SafeEverywhere(rule) <==> Guarded(rule)
  {
    GuardedIff(rule);
    hide Guarded, Applies, HidesBody;
    if Applies(rule, Unread()) {
      var env := Env(Desktop, false, Unread());
      assert Faithful(env) && Applies(rule, env.on) && !ReportsUnavailable(env);
    } else {
      forall env: Env | Faithful(env) && Applies(rule, env.on) ensures ReportsUnavailable(env) {
        if !ReportsUnavailable(env) {
          assert forall f: Feature :: env.on(f) ==> Unread()(f);
          AppliesGrows(rule, env.on, Unread());
        }
      }
    }
  }

  // ----- What the check's acceptance adds -----

  predicate Accepted(rule: LeafRule) {
    HidesDock(rule, ScriptReader()) && !Unknown(rule, ScriptReader())
  }

  /** No media feature is written into a selector. */
  predicate NoQueryInSelectors(rule: LeafRule) {
    && (forall c :: c in rule.conditions ==> AtRule(c) || !HasCoarse(c))
    && (forall part :: part in Parts(rule.selector) ==> !HasCoarse(Qualifier(part)))
  }

  lemma AcceptedQueryIsKnown(q: Condition)
    requires !ConditionUnknown(q)
    ensures KnownQuery(q)
  {
    forall a, t | a in q && t in a ensures exists f :: f in t && f.Known? {
      assert !ArmUnknown(a) && !TermUnknown(t);
      assert t[0] in t && t[0].Known?;
    }
  }

  lemma AcceptedBlockIsKnown(rule: LeafRule, c: string)
    requires Accepted(rule) && NoQueryInSelectors(rule) && c in rule.conditions
    ensures KnownBlock(c)
  {
    hide ConditionOf, ConditionUnknown, ParseList, HasCoarse, HidesBody, QualifiersOf, NonEmpty, KnownQuery;
    assert c in ConditionTexts(rule, ScriptReader());
    assert !ConditionUnknown(ConditionOf(c));
    if AtRule(c) { AcceptedQueryIsKnown(ConditionOf(c)); } else { AcceptedIsKnown(c); }
  }

  /**
   * A hiding rule the check accepts is safe in every browser exactly when it is inside some block, or
   * each part of its list whose subject is the Dock has a known pattern in front of it, a `:where` or
   * `:is` list counting only when every argument has one.
   */
  lemma AcceptedRuleSafeIff(rule: LeafRule)
    requires Accepted(rule) && NoQueryInSelectors(rule)
    ensures SafeEverywhere(rule) <==> rule.conditions != [] || DockPartsKnown(rule.selector)
  {
    hide Accepted, NoQueryInSelectors, KnownBlock, DockPartsKnown, SafeEverywhere, HidesBody, QualifiersOf;
    assert HidesBody(rule.body) by { AcceptedHides(rule); }
    RuleSafeIff(rule);
    if rule.conditions != [] {
      AcceptedBlockIsKnown(rule, rule.conditions[0]);
    }
  }

  lemma AcceptedHides(rule: LeafRule)
    requires Accepted(rule)
    ensures HidesBody(rule.body)
  {}

  /** Every comma fragment in front of each Dock part is one that the check reads as known. */
  predicate QualifiersRead(selector: string) {
    forall part :: part in Parts(selector) && DockPart(part) ==> !ConditionUnknown(ConditionOf(Qualifier(part)))
  }

  lemma ReadPartsAreKnown(rule: LeafRule)
    requires QualifiersRead(rule.selector) && NoQueryInSelectors(rule)
    ensures DockPartsKnown(rule.selector)
  {
    hide ConditionOf, ConditionUnknown, HasCoarse, ParseComplex, KnownComplex, Qualifier, DockPart;
    forall part | part in Parts(rule.selector) && DockPart(part) ensures KnownComplex(ParseComplex(part)) {
      AcceptedQualifierIsKnown(part);
    }
  }

  /**
   * The check cuts the list where a browser does, and sees every Dock part: no comma inside parentheses
   * or brackets, and for each Dock part no white space there and a subject it takes for the Dock.
   */
  predicate SplitsAlike(selector: string) {
    && SplitOn(selector, ',') == Parts(selector)
    && forall part :: part in Parts(selector) && DockPart(part) ==>
         Words(part) == Compounds(part) && SubjectIsDock(Words(part)[|Words(part)| - 1])
  }

  /** A selector list, outside every block, with both a bare Dock part and a qualified one. */
  predicate MixedTopLevel(rule: LeafRule) {
    var qs := QualifiersOf(rule.selector);
    rule.conditions == [] && "" in qs && exists q :: q in qs && q != ""
  }

  lemma {:induction false} QualifierOfPart(parts: seq<string>, part: string)
    requires part in parts && Words(part) == Compounds(part) && SubjectIsDock(Words(part)[|Words(part)| - 1])
    ensures Qualifier(part) in PartQualifiers(parts)
  {
    hide Words, Compounds, SubjectIsDock;
    if part == parts[0] {
      assert PartQualifier(part) == [Qualifier(part)];
    } else {
      assert part in parts[1..];
      QualifierOfPart(parts[1..], part);
    }
  }

  /** Where the check splits as a browser does, it has read every qualifier, mixed lists aside. */
  lemma AlikeIsRead(rule: LeafRule)
    requires Accepted(rule) && rule.conditions == []
    ensures SplitsAlike(rule.selector) && !MixedTopLevel(rule) ==> QualifiersRead(rule.selector)
  {
    hide ConditionOf, ConditionUnknown, DockPart, Words, Compounds, SubjectIsDock, HidesBody, PartQualifiers, Qualifier, NonEmpty;
    var rd := ScriptReader();
    var qs := QualifiersOf(rule.selector);
    assert rd.qualifiers(rule.selector) == qs;
    forall part | SplitsAlike(rule.selector) && !MixedTopLevel(rule) && part in Parts(rule.selector) && DockPart(part)
      ensures !ConditionUnknown(ConditionOf(Qualifier(part)))
    {
      QualifierOfPart(Parts(rule.selector), part);
      var q := Qualifier(part);
      assert q in qs;
      SomeQualified(rule);
      assert q != "" && q in NonEmpty(qs);
      assert q in ConditionTexts(rule, rd) && rd.condition(q) == ConditionOf(q);
    }
  }

  lemma SomeQualified(rule: LeafRule)
    requires Accepted(rule) && rule.conditions == []
    ensures exists q :: q in QualifiersOf(rule.selector) && q != ""
  {
    hide ConditionOf, QualifiersOf, HidesBody, NonEmpty, ConditionUnknown;
    var texts := ConditionTexts(rule, ScriptReader());
    assert texts == NonEmpty(QualifiersOf(rule.selector));
    assert texts[0] in texts;
  }

  /** When an accepted rule is in a block, or is a list that the check reads as a browser does and not mixed, it is safe. */
  lemma UnmixedRuleIsSafe(rule: LeafRule)
    requires Accepted(rule) && NoQueryInSelectors(rule)
    requires rule.conditions != [] || (SplitsAlike(rule.selector) && !MixedTopLevel(rule)) || QualifiersRead(rule.selector)
    ensures SafeEverywhere(rule)
  {
    hide Accepted, NoQueryInSelectors, SplitsAlike, MixedTopLevel, QualifiersRead, DockPartsKnown, SafeEverywhere;
    AcceptedRuleSafeIff(rule);
    if rule.conditions == [] {
      if !QualifiersRead(rule.selector) { AlikeIsRead(rule); }
      ReadPartsAreKnown(rule);
    }
  }

  /**
   * Soundness of the whole check on the text of the stylesheets: when it passes, the predicate reports
   * the Dock unavailable wherever a rule that the check sees hides it, if the rule is in a block or has
   * known Dock parts.
   */
  lemma CheckSound(sheets: seq<Body>, i: nat, rule: LeafRule, env: Env)
    requires forall j :: 0 <= j < |sheets| ==> WellFormed(sheets[j])
    requires CheckPasses(RulesOf(Texts(sheets)), ScriptReader())
    requires i < |sheets| && rule in Flatten(sheets[i], []) && HidesDock(rule, ScriptReader())
    requires NoQueryInSelectors(rule) && (rule.conditions != [] || DockPartsKnown(rule.selector))
    requires Faithful(env) && Applies(rule, env.on)
    ensures ReportsUnavailable(env)
  {
    hide RulesOf, Texts, Flatten, Unknown, WellFormed, Names, HidesDock, DockPartsKnown, NoQueryInSelectors, Applies, Faithful;
    RulesOfSheets(sheets, i);
    AcceptedRuleSafeIff(rule);
  }

  /** A rule that the check does not take for a Dock rule makes no difference to it, safe or not. */
  lemma UnseenRuleIsIgnored(rules: seq<LeafRule>, rule: LeafRule)
    requires !HidesDock(rule, ScriptReader())
    ensures CheckPasses(rules + [rule], ScriptReader()) <==> CheckPasses(rules, ScriptReader())
  {
    hide HidesDock, Unknown, Names, SomeUnknown, SomeNames;
    OneMoreRule(rules, rule, ScriptReader());
  }

  // ----- The converse: every reason really hides the Dock -----

  /** Texts with a known pattern hold exactly when its reason does. */
  ghost predicate Exact(env: Env) {
    forall f: Feature :: f.Known? ==> (env.on(f) <==> ReasonHolds(f.reason, env))
  }

  ghost predicate HiddenWheneverReported(rules: seq<LeafRule>) {
    forall env: Env :: Exact(env) && ReportsUnavailable(env) ==>
      exists rule :: rule in rules && Applies(rule, env.on)
  }

  /** Nothing holds but the texts with a pattern for `r`. */
  function Only(r: Reason): Feature -> bool { (f: Feature) => f.Known? && f.reason == r }

  function OnlyReason(r: Reason): Env {
    Env(if r == PhoneTier then Phone else Desktop, r == CoarsePointer, Only(r))
  }

  predicate SomeHidesUnderAlone(rules: seq<LeafRule>, r: Reason) {
    exists rule :: rule in rules && Applies(rule, Only(r))
  }

  /**
   * The Dock is hidden in every browser the predicate reports exactly when each reason has a rule that it
   * triggers alone, by texts with its own pattern and nothing else. Passing the check is not enough: see
   * `DockSheets.NestedPassesButShowsDock`.
   */
  lemma HiddenWheneverReportedIff(rules: seq<LeafRule>)
    ensures HiddenWheneverReported(rules) <==> forall r: Reason :: SomeHidesUnderAlone(rules, r)
  {
    hide Applies;
    if HiddenWheneverReported(rules) {
      forall r: Reason ensures SomeHidesUnderAlone(rules, r) {
        var env := OnlyReason(r);
        assert Exact(env) && ReportsUnavailable(env);
        var rule :| rule in rules && Applies(rule, env.on);
        assert Applies(rule, Only(r));
      }
    }
    if forall r: Reason :: SomeHidesUnderAlone(rules, r) {
      forall env: Env | Exact(env) && ReportsUnavailable(env)
        ensures exists rule :: rule in rules && Applies(rule, env.on)
      {
        var r := DockUnavailableReason(env.tier, env.coarse).value;
        assert SomeHidesUnderAlone(rules, r);
        var rule :| rule in rules && Applies(rule, Only(r));
        AppliesGrows(rule, Only(r), env.on);
      }
    }
  }
}
