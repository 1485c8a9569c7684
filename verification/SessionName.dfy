/** `expandSessionNamePattern` of frontend/src/CommandPalette.tsx: three `replaceAll` passes and a trim. */
module SessionName {
  import opened Text

  // ----- `String.prototype.replaceAll` with string arguments -----

  /** The replacement text with its `$` patterns filled in. */
  function FillIn(value: string, matched: string, before: string, after: string): string {
    if |value| < 2 then value
    else if value[0] != '$' then [value[0]] + FillIn(value[1..], matched, before, after)
    else if value[1] == '$' then "$" + FillIn(value[2..], matched, before, after)
    else if value[1] == '&' then matched + FillIn(value[2..], matched, before, after)
    else if value[1] == '`' then before + FillIn(value[2..], matched, before, after)
    else if value[1] == '\'' then after + FillIn(value[2..], matched, before, after)
    else "$" + FillIn(value[1..], matched, before, after)
  }

  /** The result for the part `rest` of a string, when `before` comes in front of it. */
  function ReplaceFrom(before: string, rest: string, needle: string, value: string): string
    requires needle != ""
    decreases |rest|
  {
    if |rest| < |needle| then rest
    else if StartsWith(rest, needle) then
      FillIn(value, needle, before, rest[|needle|..]) +
      ReplaceFrom(before + needle, rest[|needle|..], needle, value)
    else [rest[0]] + ReplaceFrom(before + [rest[0]], rest[1..], needle, value)
  }

  function ReplaceAll(s: string, needle: string, value: string): string
    requires needle != ""
  {
    ReplaceFrom("", s, needle, value)
  }

  /** The name to use, or nothing when the expanded pattern is blank. */
  function ExpandSessionNamePattern(pattern: string, agent: string, project: string, n: nat): Option<string> {
    var expanded :=
      Trim(ReplaceAll(ReplaceAll(ReplaceAll(pattern, "{agent}", agent), "{project}", project), "{n}", Decimal(n)));
    if |expanded| > 0 then Some(expanded) else None
  }

  // ----- Patterns as pieces -----

  datatype Token = AgentToken | ProjectToken | NumberToken

  datatype Piece = Literal(text: string) | Slot(token: Token)

  function TokenText(t: Token): (s: string)
    ensures |s| >= 3 && s[0] == '{' && Free(s[1..], '{')
  {
    match t
    case AgentToken => "{agent}"
    case ProjectToken => "{project}"
    case NumberToken => "{n}"
  }

  function PieceText(p: Piece): string {
    match p
    case Literal(text) => text
    case Slot(t) => TokenText(t)
  }

  function Print(ps: seq<Piece>): string {
    if ps == [] then "" else PieceText(ps[0]) + Print(ps[1..])
  }

  /** One simultaneous substitution: every slot at once, inserted text never looked at again. */
  function Substitute(ps: seq<Piece>, value: Token -> string): string {
    if ps == [] then ""
    else (match ps[0] case Literal(text) => text case Slot(t) => value(t)) + Substitute(ps[1..], value)
  }

  predicate WellFormed(ps: seq<Piece>) {
    forall i :: 0 <= i < |ps| && ps[i].Literal? ==> Free(ps[i].text, '{')
  }

  /** The pieces after the pass that replaces `token`. */
  function Fill(ps: seq<Piece>, token: Token, value: string): (r: seq<Piece>)
    ensures |r| == |ps|
    ensures forall i :: 0 <= i < |ps| ==> r[i] == if ps[i] == Slot(token) then Literal(value) else ps[i]
  {
    if ps == [] then []
    else [if ps[0] == Slot(token) then Literal(value) else ps[0]] + Fill(ps[1..], token, value)
  }

  // ----- Which names are safe to insert -----

  predicate SpecialAfterDollar(c: char) { c == '$' || c == '&' || c == '`' || c == '\'' }

  /** None of `$$`, `$&`, `` $` `` and `$'` occurs. */
  predicate NoSpecials(v: string) {
    forall i :: 0 <= i < |v| - 1 && v[i] == '$' ==> !SpecialAfterDollar(v[i + 1])
  }

  predicate Contains(s: string, t: string) {
    exists i :: 0 <= i <= |s| && StartsWith(s[i..], t)
  }

  /** `t` does not occur in `s`, and no end of `s` could be the beginning of a `t`. */
  predicate Inert(s: string, t: string) {
    && !Contains(s, t)
    && forall j :: 0 <= j < |s| && |s| - j < |t| ==> s[j..] != t[..|s| - j]
  }

  predicate AgentOk(agent: string) {
    NoSpecials(agent) && Inert(agent, "{project}") && Inert(agent, "{n}")
  }

  predicate ProjectOk(project: string) {
    NoSpecials(project) && Inert(project, "{n}")
  }

  // ----- One pass -----

  /** How many `$` patterns are filled in. */
  function Specials(v: string): nat {
    if |v| < 2 then 0
    else if v[0] == '$' && SpecialAfterDollar(v[1]) then 1 + Specials(v[2..])
    else Specials(v[1..])
  }

  lemma {:induction false} SpecialsIff(v: string)
    ensures Specials(v) == 0 <==> NoSpecials(v)
  {
    if |v| >= 2 {
      if v[0] == '$' && SpecialAfterDollar(v[1]) {
        assert !NoSpecials(v);
      } else {
        SpecialsIff(v[1..]);
        assert forall i :: 0 <= i < |v| - 1 ==> v[1..][i] == v[i + 1];
        if NoSpecials(v[1..]) {
          forall i | 0 <= i < |v| - 1 && v[i] == '$' ensures !SpecialAfterDollar(v[i + 1]) {
            if i > 0 { assert v[1..][i - 1] == '$'; }
          }
        }
      }
    }
  }

  lemma {:induction false} NothingToFillIn(value: string, matched: string, before: string, after: string)
    requires NoSpecials(value)
    ensures FillIn(value, matched, before, after) == value
  {
    if |value| >= 2 {
      assert forall i :: 0 <= i < |value| - 1 ==> value[1..][i] == value[i + 1];
      assert NoSpecials(value[1..]);
      NothingToFillIn(value[1..], matched, before, after);
      assert value == [value[0]] + value[1..];
    }
  }

  lemma InertTail(s: string, t: string)
    requires Inert(s, t) && s != ""
    ensures Inert(s[1..], t)
  {
    var r := s[1..];
    forall i | 0 <= i <= |r| ensures !StartsWith(r[i..], t) {
      assert r[i..] == s[i + 1..];
    }
    forall j | 0 <= j < |r| && |r| - j < |t| ensures r[j..] != t[..|r| - j] {
      assert s[j + 1..] == r[j..];
    }
  }

  /** An inert text is never the start of a match, whatever follows it. */
  lemma InertStart(s: string, rest: string, t: string)
    requires Inert(s, t) && s != ""
    ensures !StartsWith(s + rest, t)
  {
    assert s[0..] == s;
    if |t| <= |s| {
      assert (s + rest)[..|t|] == s[..|t|];
    } else {
      assert s != t[..|s|];
      assert |s + rest| >= |t| ==> (s + rest)[..|t|][..|s|] == s;
    }
  }

  lemma ShortIsCopied(before: string, rest: string, needle: string, value: string)
    requires |rest| < |needle|
    ensures ReplaceFrom(before, rest, needle, value) == rest
  {}

  lemma SkipChar(before: string, c: char, rest: string, needle: string, value: string)
    requires needle != "" && !StartsWith([c] + rest, needle)
    ensures ReplaceFrom(before, [c] + rest, needle, value) == [c] + ReplaceFrom(before + [c], rest, needle, value)
  {
    hide FillIn;
    var whole := [c] + rest;
    assert whole[1..] == rest;
    if |whole| < |needle| {
      ShortIsCopied(before + [c], rest, needle, value);
    }
  }

  /** Inert text is copied. */
  lemma {:induction false} SkipInert(before: string, text: string, rest: string, needle: string, value: string)
    requires Inert(text, needle) && needle != ""
    ensures ReplaceFrom(before, text + rest, needle, value) == text + ReplaceFrom(before + text, rest, needle, value)
    decreases |text|
  {
    hide ReplaceFrom, Inert;
    if text == "" {
      assert text + rest == rest && before + text == before;
    } else {
      var c, tail := text[0], text[1..];
      InertStart(text, rest, needle);
      assert text + rest == [c] + (tail + rest);
      SkipChar(before, c, tail + rest, needle, value);
      InertTail(text, needle);
      SkipInert(before + [c], tail, rest, needle, value);
      assert before + text == before + [c] + tail;
      var r := ReplaceFrom(before + text, rest, needle, value);
      assert text + r == [c] + (tail + r);
    }
  }

  lemma BraceFreeIsInert(text: string, token: Token)
    requires Free(text, '{')
    ensures Inert(text, TokenText(token))
  {
    var t := TokenText(token);
    forall i | 0 <= i <= |text| ensures !StartsWith(text[i..], t) {
      assert |t| <= |text[i..]| ==> text[i..][..|t|][0] == text[i];
    }
    forall j | 0 <= j < |text| && |text| - j < |t| ensures text[j..] != t[..|text| - j] {
      assert text[j..][0] == text[j] && t[..|text| - j][0] == '{';
    }
  }

  lemma SlotIsInert(other: Token, token: Token)
    requires other != token
    ensures Inert(TokenText(other), TokenText(token))
  {
    var s, t := TokenText(other), TokenText(token);
    assert s[1] != t[1];
    assert forall i :: 0 < i < |s| ==> s[i] == s[1..][i - 1] && s[i] != '{';
    forall i | 0 <= i <= |s| ensures !StartsWith(s[i..], t) {
      assert |t| <= |s[i..]| ==> s[i..][..|t|][0] == s[i] && s[i..][..|t|][1] == s[i + 1];
    }
    forall j | 0 <= j < |s| && |s| - j < |t| ensures s[j..] != t[..|s| - j] {
      assert s[j..][0] == s[j] && t[..|s| - j][0] == '{';
      if j == 0 { assert s[0..][1] == s[1] && t[..|s|][1] == t[1]; }
    }
  }

  /** A slot of the token itself is replaced by what the value fills in to. */
  lemma FillSlot(before: string, token: Token, rest: string, value: string)
    ensures ReplaceFrom(before, TokenText(token) + rest, TokenText(token), value) ==
            FillIn(value, TokenText(token), before, rest) +
            ReplaceFrom(before + TokenText(token), rest, TokenText(token), value)
  {
    hide TokenText, FillIn;
    var needle := TokenText(token);
    var whole := needle + rest;
    assert whole[..|needle|] == needle && whole[|needle|..] == rest;
  }

  predicate AllInert(ps: seq<Piece>, token: Token) {
    forall i :: 0 <= i < |ps| && ps[i].Literal? ==> Inert(ps[i].text, TokenText(token))
  }

  lemma {:induction false} OnePass(before: string, ps: seq<Piece>, token: Token, value: string)
    requires AllInert(ps, token) && NoSpecials(value)
    ensures ReplaceFrom(before, Print(ps), TokenText(token), value) == Print(Fill(ps, token, value))
    decreases |ps|
  {
    hide TokenText, FillIn, ReplaceFrom, Fill, Inert, NoSpecials;
    if ps == [] {
      ShortIsCopied(before, "", TokenText(token), value);
    } else {
      var rest := Print(ps[1..]);
      match ps[0] {
        case Literal(text) => SkipInert(before, text, rest, TokenText(token), value);
        case Slot(t) =>
          if t == token {
            FillSlot(before, token, rest, value);
            NothingToFillIn(value, TokenText(token), before, rest);
          } else {
            SlotIsInert(t, token);
            SkipInert(before, TokenText(t), rest, TokenText(token), value);
          }
      }
      OnePass(before + PieceText(ps[0]), ps[1..], token, value);
      assert Fill(ps, token, value)[1..] == Fill(ps[1..], token, value);
    }
  }

  // ----- Three passes are one substitution -----

  function Values(agent: string, project: string, n: nat): Token -> string {
    (t: Token) => match t case AgentToken => agent case ProjectToken => project case NumberToken => Decimal(n)
  }

  /** What one simultaneous substitution gives: the trimmed text, or nothing when it is blank. */
  function Expected(ps: seq<Piece>, agent: string, project: string, n: nat): Option<string> {
    var text := Trim(Substitute(ps, Values(agent, project, n)));
    if text != "" then Some(text) else None
  }

  predicate Correct(ps: seq<Piece>, agent: string, project: string, n: nat) {
    ExpandSessionNamePattern(Print(ps), agent, project, n) == Expected(ps, agent, project, n)
  }

  lemma {:induction false} AllFilled(ps: seq<Piece>, value: Token -> string)
    ensures Print(Fill(Fill(Fill(ps, AgentToken, value(AgentToken)), ProjectToken, value(ProjectToken)),
                       NumberToken, value(NumberToken))) == Substitute(ps, value)
    decreases |ps|
  {
    if ps != [] {
      AllFilled(ps[1..], value);
    }
  }

  lemma DigitsAreSafe(n: nat)
    ensures NoSpecials(Decimal(n))
  {}

  lemma WellFormedIsInert(ps: seq<Piece>, token: Token)
    requires WellFormed(ps)
    ensures AllInert(ps, token)
  {
    forall i | 0 <= i < |ps| && ps[i].Literal? ensures Inert(ps[i].text, TokenText(token)) {
      BraceFreeIsInert(ps[i].text, token);
    }
  }

  /**
   * For every well-formed pattern and every pair of safe names, the three passes give one
   * simultaneous substitution without the white space at its ends, and nothing is returned exactly when
   * the substituted text is blank.
   */
  lemma ThreePassesAreOne(ps: seq<Piece>, agent: string, project: string, n: nat)
    requires WellFormed(ps) && AgentOk(agent) && ProjectOk(project)
    ensures Correct(ps, agent, project, n)
    ensures ExpandSessionNamePattern(Print(ps), agent, project, n).None? <==>
            Blank(Substitute(ps, Values(agent, project, n)))
    ensures var name := ExpandSessionNamePattern(Print(ps), agent, project, n);
            name.Some? ==> IsTrimOf(name.value, Substitute(ps, Values(agent, project, n)))
  {
    assert TokenText(ProjectToken) == "{project}" && TokenText(NumberToken) == "{n}" && TokenText(AgentToken) == "{agent}";
    hide Trim, ReplaceFrom, IsSpace, Print, Substitute, Decimal, FillIn, Inert, NoSpecials, TokenText, WellFormed, Blank, IsTrimOf;
    var value := Values(agent, project, n);
    DigitsAreSafe(n);
    WellFormedIsInert(ps, AgentToken);
    WellFormedIsInert(ps, ProjectToken);
    WellFormedIsInert(ps, NumberToken);
    OnePass("", ps, AgentToken, agent);
    var ps1 := Fill(ps, AgentToken, agent);
    OnePass("", ps1, ProjectToken, project);
    var ps2 := Fill(ps1, ProjectToken, project);
    OnePass("", ps2, NumberToken, Decimal(n));
    AllFilled(ps, value);
    var text := Substitute(ps, value);
    TrimBlank(text);
    TrimIff(Trim(text), text);
  }

  // ----- No other name is safe: each pass can only use up braces and dollar signs -----

  function Count(s: string, c: char): nat {
    if s == "" then 0 else (if s[0] == c then 1 else 0) + Count(s[1..], c)
  }

  lemma {:induction false} CountConcat(a: string, b: string, c: char)
    ensures Count(a + b, c) == Count(a, c) + Count(b, c)
  {
    if a == "" {
      assert a + b == b;
    } else {
      CountConcat(a[1..], b, c);
      assert (a + b)[1..] == a[1..] + b;
    }
  }

  lemma {:induction false} CountFree(s: string, c: char)
    ensures Count(s, c) == 0 <==> Free(s, c)
  {
    if s != "" {
      CountFree(s[1..], c);
      assert forall k :: 0 < k < |s| ==> s[k] == s[1..][k - 1];
    }
  }

  lemma {:induction false} CountTrim(s: string, c: char)
    requires !IsSpace(c)
    ensures Count(Trim(s), c) == Count(s, c)
  {
    hide IsSpace;
    if s == "" {
    } else if IsSpace(s[0]) {
      CountTrim(s[1..], c);
    } else if IsSpace(s[|s| - 1]) {
      CountTrim(s[..|s| - 1], c);
      assert s == s[..|s| - 1] + [s[|s| - 1]];
      CountConcat(s[..|s| - 1], [s[|s| - 1]], c);
    }
  }

  /** Every `$` pattern loses its `$`. */
  lemma {:induction false} FillInCounts(v: string, matched: string, before: string, after: string)
    requires Count(matched, '$') == Count(before, '$') == Count(after, '$') == 0
    ensures Count(FillIn(v, matched, before, after), '$') == Count(v, '$') - Specials(v)
  {
    if |v| >= 2 {
      if v[0] == '$' && SpecialAfterDollar(v[1]) {
        var filled := FillIn(v[2..], matched, before, after);
        FillInCounts(v[2..], matched, before, after);
        assert v[1..][1..] == v[2..];
        CountConcat(matched, filled, '$');
        CountConcat(before, filled, '$');
        CountConcat(after, filled, '$');
        CountConcat("$", filled, '$');
      } else {
        var filled := FillIn(v[1..], matched, before, after);
        FillInCounts(v[1..], matched, before, after);
        CountConcat([v[0]], filled, '$');
      }
    }
  }

  lemma ContainsTail(s: string, t: string)
    requires s != "" && !StartsWith(s, t)
    ensures Contains(s[1..], t) == Contains(s, t)
  {
    assert s[0..] == s;
    forall i | 0 < i <= |s| ensures s[i..] == s[1..][i - 1..] {}
    if Contains(s, t) {
      var i :| 0 <= i <= |s| && StartsWith(s[i..], t);
      assert StartsWith(s[1..][i - 1..], t);
    }
    if Contains(s[1..], t) {
      var i :| 0 <= i <= |s[1..]| && StartsWith(s[1..][i..], t);
      assert s[1..][i..] == s[i + 1..];
    }
  }

  lemma ContainsNeedsLength(s: string, t: string)
    requires |s| < |t|
    ensures !Contains(s, t)
  {}

  /**
   * Replacing by a plain value without `c` never adds a `c`; it removes some when the needle has one
   * and occurs, and a needle that does not occur changes nothing.
   */
  lemma {:induction false} ReplaceCounts(before: string, rest: string, needle: string, value: string, c: char)
    requires needle != "" && NoSpecials(value) && Count(value, c) == 0
    ensures var r := ReplaceFrom(before, rest, needle, value);
            && Count(r, c) <= Count(rest, c)
            && (Contains(rest, needle) && Count(needle, c) > 0 ==> Count(r, c) < Count(rest, c))
            && (!Contains(rest, needle) ==> r == rest)
    decreases |rest|
  {
    hide FillIn, Contains, NoSpecials;
    if |rest| < |needle| {
      ContainsNeedsLength(rest, needle);
    } else if StartsWith(rest, needle) {
      StartContains(rest, needle);
      var tail := rest[|needle|..];
      NothingToFillIn(value, needle, before, tail);
      ReplaceCounts(before + needle, tail, needle, value, c);
      CountConcat(value, ReplaceFrom(before + needle, tail, needle, value), c);
      assert rest == needle + tail;
      CountConcat(needle, tail, c);
    } else {
      ReplaceCounts(before + [rest[0]], rest[1..], needle, value, c);
      ContainsTail(rest, needle);
      CountConcat([rest[0]], ReplaceFrom(before + [rest[0]], rest[1..], needle, value), c);
      assert rest == [rest[0]] + rest[1..];
    }
  }

  lemma StartContains(s: string, t: string)
    requires StartsWith(s, t)
    ensures Contains(s, t)
  {
    assert s[0..] == s;
  }

  /** What follows a text that is not inert can complete a token without writing a brace. */
  lemma Completion(s: string, token: Token) returns (r: string)
    requires !Inert(s, TokenText(token))
    ensures Free(r, '{') && Contains(s + r, TokenText(token))
  {
    var t := TokenText(token);
    if Contains(s, t) {
      r := "";
      assert s + r == s;
    } else {
      var j :| 0 <= j < |s| && |s| - j < |t| && s[j..] == t[..|s| - j];
      r := t[|s| - j..];
      assert forall k :: 0 <= k < |r| ==> r[k] == t[1..][|s| - j - 1 + k];
      assert (s + r)[j..] == t;
    }
  }

  function Shown(o: Option<string>): string { if o.Some? then o.value else "" }

  /** A wrong result is recognised by a character, not white space, of which the passes left too few. */
  lemma WrongByCount(ps: seq<Piece>, agent: string, project: string, n: nat, c: char)
    requires !IsSpace(c)
    requires Count(ReplaceAll(ReplaceAll(ReplaceAll(Print(ps), "{agent}", agent), "{project}", project),
                              "{n}", Decimal(n)), c) <
             Count(Substitute(ps, Values(agent, project, n)), c)
    ensures !Correct(ps, agent, project, n)
  {
    hide ReplaceFrom, Substitute, Print, Decimal, Trim, IsSpace;
    CountTrim(ReplaceAll(ReplaceAll(ReplaceAll(Print(ps), "{agent}", agent), "{project}", project),
                         "{n}", Decimal(n)), c);
    CountTrim(Substitute(ps, Values(agent, project, n)), c);
    assert Shown(ExpandSessionNamePattern(Print(ps), agent, project, n)) ==
           Trim(ReplaceAll(ReplaceAll(ReplaceAll(Print(ps), "{agent}", agent), "{project}", project), "{n}", Decimal(n)));
    assert Shown(Expected(ps, agent, project, n)) == Trim(Substitute(ps, Values(agent, project, n)));
  }

  /** The passes after the first, on a text without slots of the agent. */
  lemma LaterPasses(text: string, c: char)
    requires c == '$' || c == '{'
    ensures var two := ReplaceAll(text, "{project}", "");
            var three := ReplaceAll(two, "{n}", Decimal(0));
            && Count(three, c) <= Count(two, c) <= Count(text, c)
            && (c == '{' && (Contains(text, "{project}") || Contains(text, "{n}")) ==> Count(three, c) < Count(text, c))
  {
    hide ReplaceFrom, Contains;
    assert Count("{project}", '{') > 0;
    ReplaceCounts("", text, "{project}", "", c);
    NumberPass(ReplaceAll(text, "{project}", ""), c);
  }

  /** The two pieces of the witness patterns, written and substituted. */
  lemma SlotThenText(token: Token, text: string, value: Token -> string)
    ensures Print([Slot(token), Literal(text)]) == TokenText(token) + text
    ensures Substitute([Slot(token), Literal(text)], value) == value(token) + text
  {
    var ps := [Slot(token), Literal(text)];
    assert ps[1..] == [Literal(text)] && ps[1..][1..] == [];
    assert Print(ps[1..]) == text && Substitute(ps[1..], value) == text;
  }

  /** The pass for `token` on its slot followed by brace-free text. */
  lemma FirstPass(token: Token, value: string, text: string)
    requires Free(text, '{') && (text == "" || NoSpecials(value))
    ensures var r := ReplaceAll(TokenText(token) + text, TokenText(token), value);
            && (NoSpecials(value) ==> r == value + text)
            && (!NoSpecials(value) ==> Count(r, '$') < Count(value + text, '$'))
  {
    hide ReplaceFrom, FillIn, NoSpecials;
    var needle := TokenText(token);
    FillSlot("", token, text, value);
    BraceFreeIsInert(text, token);
    SkipInert("" + needle, text, "", needle, value);
    assert text + "" == text;
    ShortIsCopied("" + needle + text, "", needle, value);
    assert ReplaceFrom("" + needle, text, needle, value) == text;
    if NoSpecials(value) {
      NothingToFillIn(value, needle, "", text);
    } else {
      SpecialsIff(value);
      assert Count(needle, '$') == 0 by { CountFree(needle, '$'); }
      FillInCounts(value, needle, "", "");
      assert value + text == value;
      var filled := FillIn(value, needle, "", "");
      assert filled + text == filled;
    }
  }

  /** A pattern that goes wrong for an agent name that is not safe. */
  lemma UnsafeAgent(agent: string) returns (ps: seq<Piece>)
    requires !AgentOk(agent)
    ensures WellFormed(ps) && !Correct(ps, agent, "", 0)
  {
    assert TokenText(ProjectToken) == "{project}" && TokenText(NumberToken) == "{n}" && TokenText(AgentToken) == "{agent}";
    hide ReplaceFrom, Inert, Contains, NoSpecials, Substitute, Print, TokenText, Decimal, Correct;
    var r, c := "", '$';
    if NoSpecials(agent) {
      r := Completion(agent, if Inert(agent, "{project}") then NumberToken else ProjectToken);
      c := '{';
    }
    ps := [Slot(AgentToken), Literal(r)];
    SlotThenText(AgentToken, r, Values(agent, "", 0));
    var one := ReplaceAll(Print(ps), "{agent}", agent);
    FirstPass(AgentToken, agent, r);
    LaterPasses(one, c);
    WrongByCount(ps, agent, "", 0, c);
  }

  /** The agent's pass leaves a pattern with only a project slot as it is. */
  lemma NoAgentSlot(text: string)
    requires Free(text, '{')
    ensures ReplaceAll(TokenText(ProjectToken) + text, "{agent}", "") == TokenText(ProjectToken) + text
  {
    assert TokenText(AgentToken) == "{agent}";
    hide ReplaceFrom, TokenText, Inert, Print;
    var slot := TokenText(ProjectToken);
    SlotIsInert(ProjectToken, AgentToken);
    SkipInert("", slot, text, "{agent}", "");
    BraceFreeIsInert(text, AgentToken);
    SkipInert("" + slot, text, "", "{agent}", "");
    assert text + "" == text;
    ShortIsCopied("" + slot + text, "", "{agent}", "");
  }

  /** The pass for the number loses a character of the kind the names leave too few of. */
  lemma NumberPass(text: string, c: char)
    requires c == '$' || c == '{'
    ensures var three := ReplaceAll(text, "{n}", Decimal(0));
            && Count(three, c) <= Count(text, c)
            && (c == '{' && Contains(text, "{n}") ==> Count(three, c) < Count(text, c))
  {
    hide ReplaceFrom, Contains;
    CountFree(Decimal(0), c);
    assert Count("{n}", '{') > 0;
    ReplaceCounts("", text, "{n}", Decimal(0), c);
  }

  /** A pattern that goes wrong for a project name that is not safe. */
  lemma UnsafeProject(project: string) returns (ps: seq<Piece>)
    requires !ProjectOk(project)
    ensures WellFormed(ps) && !Correct(ps, "", project, 0)
  {
    assert TokenText(ProjectToken) == "{project}" && TokenText(NumberToken) == "{n}";
    hide ReplaceFrom, Inert, Contains, NoSpecials, Substitute, Print, TokenText, Decimal, Correct;
    var r, c := "", '$';
    if NoSpecials(project) {
      r := Completion(project, NumberToken);
      c := '{';
    }
    ps := [Slot(ProjectToken), Literal(r)];
    SlotThenText(ProjectToken, r, Values("", project, 0));
    NoAgentSlot(r);
    FirstPass(ProjectToken, project, r);
    NumberPass(ReplaceAll(Print(ps), "{project}", project), c);
    WrongByCount(ps, "", project, 0, c);
  }

  /**
   * An agent name comes out right in every pattern, beside every safe project name and with every
   * number, exactly when it has no `$` pattern, contains neither `{project}` nor `{n}`, and ends in
   * no proper prefix of either.
   */
  lemma AgentSafeIff(agent: string)
    ensures (forall ps, project, n: nat :: WellFormed(ps) && ProjectOk(project) ==> Correct(ps, agent, project, n)) <==>
            AgentOk(agent)
  {
    hide AgentOk, Correct, WellFormed, ProjectOk;
    if AgentOk(agent) {
      forall ps, project, n: nat | WellFormed(ps) && ProjectOk(project) ensures Correct(ps, agent, project, n) {
        ThreePassesAreOne(ps, agent, project, n);
      }
    } else {
      EmptyIsSafe();
      var ps := UnsafeAgent(agent);
      assert WellFormed(ps) && ProjectOk("") && !Correct(ps, agent, "", 0);
    }
  }

  /** The same for a project name, with `{n}` the only token replaced after it. */
  lemma ProjectSafeIff(project: string)
    ensures (forall ps, agent, n: nat :: WellFormed(ps) && AgentOk(agent) ==> Correct(ps, agent, project, n)) <==>
            ProjectOk(project)
  {
    hide AgentOk, Correct, WellFormed, ProjectOk;
    if ProjectOk(project) {
      forall ps, agent, n: nat | WellFormed(ps) && AgentOk(agent) ensures Correct(ps, agent, project, n) {
        ThreePassesAreOne(ps, agent, project, n);
      }
    } else {
      EmptyIsSafe();
      var ps := UnsafeProject(project);
      assert WellFormed(ps) && AgentOk("") && !Correct(ps, "", project, 0);
    }
  }

  lemma EmptyIsSafe()
    ensures AgentOk("") && ProjectOk("")
  {}

  // ----- What an unsafe name does -----

  /** The pieces of a replacement text: plain text, and the four patterns. */
  datatype Ref = Plain(text: string) | Dollar | Whole | Before | After

  function RefText(r: Ref): string {
    match r
    case Plain(text) => text
    case Dollar => "$$"
    case Whole => "$&"
    case Before => "$`"
    case After => "$'"
  }

  function RefTexts(rs: seq<Ref>): string {
    if rs == [] then "" else RefText(rs[0]) + RefTexts(rs[1..])
  }

  /** What each piece stands for: `$$` a dollar sign, `$&` the match, and the text around the match. */
  function Meaning(rs: seq<Ref>, matched: string, before: string, after: string): string {
    if rs == [] then ""
    else (match rs[0]
          case Plain(text) => text
          case Dollar => "$"
          case Whole => matched
          case Before => before
          case After => after) + Meaning(rs[1..], matched, before, after)
  }

  lemma CopyChar(c: char, rest: string, matched: string, before: string, after: string)
    requires c != '$'
    ensures FillIn([c] + rest, matched, before, after) == [c] + FillIn(rest, matched, before, after)
  {
    assert ([c] + rest)[1..] == rest;
    if rest == "" { assert [c] + rest == [c]; }
  }

  lemma {:induction false} PlainCopied(text: string, rest: string, matched: string, before: string, after: string)
    requires Free(text, '$')
    ensures FillIn(text + rest, matched, before, after) == text + FillIn(rest, matched, before, after)
  {
    hide FillIn;
    if text == "" {
      assert text + rest == rest;
    } else {
      var c, tail := text[0], text[1..];
      assert text == [c] + tail && text + rest == [c] + (tail + rest);
      CopyChar(c, tail + rest, matched, before, after);
      PlainCopied(tail, rest, matched, before, after);
      var filled := FillIn(rest, matched, before, after);
      assert [c] + (tail + filled) == text + filled;
    }
  }

  /** The patterns of a replacement text are filled in, each with what it stands for. */
  lemma {:induction false} FillInMeans(rs: seq<Ref>, matched: string, before: string, after: string)
    requires forall r :: r in rs ==> r.Plain? ==> Free(r.text, '$')
    ensures FillIn(RefTexts(rs), matched, before, after) == Meaning(rs, matched, before, after)
  {
    if rs != [] {
      assert rs[0] in rs && forall r :: r in rs[1..] ==> r in rs;
      FillInMeans(rs[1..], matched, before, after);
      var rest := RefTexts(rs[1..]);
      match rs[0]
      case Plain(text) => PlainCopied(text, rest, matched, before, after);
      case _ =>
        var whole := RefText(rs[0]) + rest;
        assert whole[0] == '$' && whole[1] == RefText(rs[0])[1] && whole[2..] == rest;
    }
  }

  /**
   * Replacing the one occurrence of a needle: what comes before and after it is kept, and is what the
   * patterns of the value refer to.
   */
  lemma ReplaceOnce(a: string, needle: string, b: string, rs: seq<Ref>)
    requires needle != "" && Inert(a, needle) && !Contains(b, needle)
    requires forall r :: r in rs ==> r.Plain? ==> Free(r.text, '$')
    ensures ReplaceAll(a + (needle + b), needle, RefTexts(rs)) == a + (Meaning(rs, needle, a, b) + b)
  {
    hide ReplaceFrom, FillIn, Inert, Contains, RefTexts, Meaning;
    var value := RefTexts(rs);
    SkipInert("", a, needle + b, needle, value);
    assert "" + a == a;
    MatchHere(a, needle, b, value);
    FillInMeans(rs, needle, a, b);
    NoMatch(a + needle, b, needle, value);
  }

  lemma MatchHere(before: string, needle: string, b: string, value: string)
    requires needle != ""
    ensures ReplaceFrom(before, needle + b, needle, value) ==
            FillIn(value, needle, before, b) + ReplaceFrom(before + needle, b, needle, value)
  {
    hide FillIn;
    var whole := needle + b;
    assert whole[..|needle|] == needle && whole[|needle|..] == b;
  }

  lemma {:induction false} NoMatch(before: string, b: string, needle: string, value: string)
    requires needle != "" && !Contains(b, needle)
    ensures ReplaceFrom(before, b, needle, value) == b
    decreases |b|
  {
    hide FillIn, Contains;
    if |b| >= |needle| {
      if StartsWith(b, needle) { StartContains(b, needle); }
      ContainsTail(b, needle);
      NoMatch(before + [b[0]], b[1..], needle, value);
    }
  }
}
