/** The nested-CSS scanner of scripts/check-dock-availability.ts: `matchBrace` and `leafRules`. */
module CssScanner {
  import opened Text

  /** A rule that holds declarations, with the preludes of the blocks around it, outermost first. */
  datatype LeafRule = LeafRule(conditions: seq<string>, selector: string, body: string)

  // ----- Finding the brace that closes a block -----

  /** How much deeper the nesting is at `to` than at `from`. */
  function Nesting(css: string, from: nat, to: nat): int
    requires from <= to <= |css|
  {
    if from == to then 0
    else Nesting(css, from, to - 1) + (if css[to - 1] == '{' then 1 else if css[to - 1] == '}' then -1 else 0)
  }

  /** Where `text` first closes `depth` open blocks, or its length if it never does. */
  function Close(text: string, depth: int): (n: nat)
    ensures n <= |text|
  {
    if text == "" then 0
    else if text[0] == '}' && depth == 1 then 0
    else 1 + Close(text[1..], if text[0] == '{' then depth + 1 else if text[0] == '}' then depth - 1 else depth)
  }

  /**
   * The loop of `matchBrace`. The result is the first position whose brace brings the nesting
   * that started at `open` back to zero, or the end of the text when there is none.
   */
  method MatchBrace(css: string, open: nat) returns (close: nat)
    requires open < |css| && css[open] == '{'
    ensures open < close <= |css|
    ensures forall k :: open < k <= close ==> Nesting(css, open, k) > 0
    ensures close < |css| ==> css[close] == '}' && Nesting(css, open, close + 1) == 0
    ensures close == open + 1 + Close(css[open + 1..], 1)
  {
    var depth := 0;
    var i := open;
    while i < |css|
      invariant open <= i <= |css|
      invariant depth == Nesting(css, open, i)
      invariant forall k :: open < k <= i ==> Nesting(css, open, k) > 0
      invariant i > open ==> i + Close(css[i..], depth) == open + 1 + Close(css[open + 1..], 1)
    {
      assert css[i..][1..] == css[i + 1..];
      if css[i] == '{' {
        depth := depth + 1;
      } else if css[i] == '}' {
        depth := depth - 1;
        if depth == 0 {
          return i;
        }
      }
      i := i + 1;
    }
    return |css|;
  }

  // ----- Flattening a stylesheet into its leaf rules -----

  /** The declarations of a block itself; text outside every block is dropped. */
  function OwnRule(pending: string, conditions: seq<string>): seq<LeafRule> {
    if Trim(pending) != "" && conditions != [] then
      [LeafRule(conditions[..|conditions| - 1], conditions[|conditions| - 1], pending)]
    else []
  }

  /** Where the selector starts in the text before a brace: after the last `;` or `}`. */
  function Cut(head: string): (cut: int)
    ensures -1 <= cut < |head|
    ensures cut >= 0 ==> head[cut] == ';' || head[cut] == '}'
    ensures forall k :: cut < k < |head| ==> head[k] != ';' && head[k] != '}'
  {
    var semicolon, brace := LastIndexOf(head, ';'), LastIndexOf(head, '}');
    if semicolon < brace then brace else semicolon
  }

  /** One step of the scanner: text before a selector, the selector, its block, and what follows. */
  datatype Chunk = Chunk(before: string, selector: string, body: string, next: string)

  function ChunkAt(head: string, after: string): (c: Chunk)
    ensures |c.body| <= |after| && |c.next| <= |after|
  {
    var cut := Cut(head);
    var close := Close(after, 1);
    Chunk(head[..cut + 1], Trim(head[cut + 1..]), after[..close], if close < |after| then after[close + 1..] else "")
  }

  function FirstChunk(rest: string): (c: Option<Chunk>)
    ensures c.None? <==> '{' !in rest
    ensures c.Some? ==> |c.value.body| < |rest| && |c.value.next| < |rest|
  {
    var brace := IndexOf(rest, '{');
    if brace < 0 then None else Some(ChunkAt(rest[..brace], rest[brace + 1..]))
  }

  /** The text is split at its first opening brace. */
  lemma FirstChunkSplits(head: string, after: string)
    requires '{' !in head
    ensures FirstChunk(head + "{" + after) == Some(ChunkAt(head, after))
  {
    hide IndexOf, ChunkAt;
    var rest := head + "{" + after;
    assert rest[|head|] == '{';
    assert forall k :: 0 <= k < |head| ==> rest[k] == head[k];
    assert rest[..|head|] == head && rest[|head| + 1..] == after;
  }

  /** What `leafRules` finds in `rest`, when `pending` was read in the same block before it. */
  function Scan(rest: string, pending: string, conditions: seq<string>): seq<LeafRule>
    decreases |rest|, 0
  {
    match FirstChunk(rest)
    case None => OwnRule(pending + rest, conditions)
    case Some(c) =>
      if c.selector == "" then Scan(c.next, pending + c.before, conditions)
      else OwnRule(pending + c.before, conditions) + ScanBlock(c, conditions) + Scan(c.next, "", conditions)
  }

  /** The leaf rules of one block: itself, or those nested in it. */
  function ScanBlock(c: Chunk, conditions: seq<string>): seq<LeafRule>
    decreases |c.body|, 1
  {
    if '{' in c.body then Scan(c.body, "", conditions + [c.selector])
    else [LeafRule(conditions, c.selector, c.body)]
  }

  /** The head, brace and close computed by one turn of the loop at `i` are those of `FirstChunk`. */
  method NextChunk(css: string, i: nat, brace: nat) returns (c: Chunk, next: nat)
    requires i <= brace < |css| && css[brace] == '{' && '{' !in css[i..brace]
    ensures FirstChunk(css[i..]) == Some(c)
    ensures i < next <= |css| && css[next..] == c.next
  {
    hide Trim, Close, Cut, FirstChunk, Nesting;
    var head := css[i..brace];
    var cut := Cut(head);
    var selector := Trim(head[cut + 1..]);
    var close := MatchBrace(css, brace);
    next := if close < |css| then close + 1 else |css|;
    c := Chunk(head[..cut + 1], selector, css[brace + 1..close], css[next..]);
    ChunkSlices(css, i, brace, close);
  }

  /** The chunk of a suffix, in terms of positions in the whole text. */
  lemma ChunkSlices(css: string, i: nat, brace: nat, close: nat)
    requires i <= brace < close <= |css| && css[brace] == '{' && '{' !in css[i..brace]
    requires close == brace + 1 + Close(css[brace + 1..], 1)
    ensures var head := css[i..brace];
            var cut := Cut(head);
            FirstChunk(css[i..]) == Some(Chunk(head[..cut + 1], Trim(head[cut + 1..]), css[brace + 1..close],
                                               css[if close < |css| then close + 1 else |css|..]))
  {
    hide Trim, Close, Cut, FirstChunk;
    var head, after := css[i..brace], css[brace + 1..];
    assert css[i..] == head + "{" + after;
    FirstChunkSplits(head, after);
    assert after[..Close(after, 1)] == css[brace + 1..close];
    assert if close < |css| then after[Close(after, 1) + 1..] == css[close + 1..] else css[|css|..] == "";
  }

  /** Appending what one block contributes leaves the rest of the scan to do. */
  lemma ScanStep(found: seq<LeafRule>, rest: string, pending: string, c: Chunk, conditions: seq<string>)
    requires FirstChunk(rest) == Some(c) && c.selector != ""
    ensures found + OwnRule(pending + c.before, conditions) + ScanBlock(c, conditions) + Scan(c.next, "", conditions)
         == found + Scan(rest, pending, conditions)
  {
    hide FirstChunk, OwnRule, ScanBlock;
    var own, block, tail :=
      OwnRule(pending + c.before, conditions), ScanBlock(c, conditions), Scan(c.next, "", conditions);
    assert Scan(rest, pending, conditions) == own + block + tail;
  }

  /** Neither blank nor with white space at an end, and nothing of the declarations before it. */
  predicate Prelude(s: string) {
    s != "" && Tight(s) && Free(s, ';') && Free(s, '}') && Free(s, '{')
  }

  predicate AllPreludes(ss: seq<string>) {
    forall s :: s in ss ==> Prelude(s)
  }

  lemma TrimmedPrelude(tail: string)
    requires Free(tail, ';') && Free(tail, '}') && Free(tail, '{')
    ensures Trim(tail) != "" ==> Prelude(Trim(tail))
  {
    var a, b := TrimParts(tail);
    hide Trim, Tight, Blank;
    assert forall k :: 0 <= k < |Trim(tail)| ==> Trim(tail)[k] == tail[|a| + k];
  }

  lemma AfterCut(head: string)
    requires Free(head, '{')
    ensures var tail := head[Cut(head) + 1..]; Free(tail, ';') && Free(tail, '}') && Free(tail, '{')
  {
    hide Cut;
  }

  lemma ChunkHasPrelude(rest: string)
    ensures FirstChunk(rest).Some? && FirstChunk(rest).value.selector != "" ==> Prelude(FirstChunk(rest).value.selector)
  {
    var brace := IndexOf(rest, '{');
    if brace >= 0 {
      var head := rest[..brace];
      assert Free(head, '{');
      hide IndexOf, Cut, Close, Trim, Prelude, Free;
      AfterCut(head);
      TrimmedPrelude(head[Cut(head) + 1..]);
    }
  }

  /** On any text, balanced or not: every selector found and every block around it is a prelude. */
  lemma {:induction false} ScanFindsPreludes(rest: string, pending: string, conditions: seq<string>)
    ensures AllPreludes(conditions) ==>
              forall leaf :: leaf in Scan(rest, pending, conditions) ==> AllPreludes(leaf.conditions + [leaf.selector])
    decreases |rest|
  {
    if AllPreludes(conditions) {
      ChunkHasPrelude(rest);
      hide FirstChunk, Prelude;
      match FirstChunk(rest)
      case None =>
      case Some(c) =>
        if c.selector == "" {
          ScanFindsPreludes(c.next, pending + c.before, conditions);
        } else {
          assert AllPreludes(conditions + [c.selector]);
          ScanFindsPreludes(c.body, "", conditions + [c.selector]);
          ScanFindsPreludes(c.next, "", conditions);
        }
    }
  }

  /** `leafRules`: an index loop that calls itself on the body of every block with nested rules. */
  method LeafRules(css: string, conditions: seq<string>) returns (found: seq<LeafRule>)
    ensures found == Scan(css, "", conditions)
    ensures AllPreludes(conditions) ==> forall leaf :: leaf in found ==> AllPreludes(leaf.conditions + [leaf.selector])
    decreases |css|
  {
    ScanFindsPreludes(css, "", conditions);
    hide FirstChunk, OwnRule, IndexOf, AllPreludes;
    found := [];
    var i := 0;
    var pending := "";
    while i < |css|
      invariant 0 <= i <= |css|
      invariant found + Scan(css[i..], pending, conditions) == Scan(css, "", conditions)
    {
      var offset := IndexOf(css[i..], '{');
      if offset < 0 {
        pending := pending + css[i..];
        i := |css|;
        break;
      }
      var c, next := NextChunk(css, i, i + offset);
      if c.selector != "" {
        ScanStep(found, css[i..], pending, c, conditions);
      }
      pending := pending + c.before;
      if c.selector != "" {
        found := found + OwnRule(pending, conditions);
        pending := "";
        if '{' in c.body {
          var inner := LeafRules(c.body, conditions + [c.selector]);
          found := found + inner;
        } else {
          found := found + [LeafRule(conditions, c.selector, c.body)];
        }
      }
      i := next;
    }
    assert pending + css[i..] == pending;
    found := found + OwnRule(pending, conditions);
  }

  // ----- Well-formed stylesheets, their text and their flattening -----

  /** The inside of a block: runs of declarations around nested rules. */
  datatype Body = Last(decls: string) | More(before: string, rule: Node, rest: Body)

  /** A block: its prelude (selector or at-rule, with any white space around it) and its inside. */
  datatype Node = Node(prelude: string, body: Body)

  function PrintNode(n: Node): string {
    n.prelude + "{" + PrintBody(n.body) + "}"
  }

  function PrintBody(b: Body): string {
    match b
    case Last(d) => d
    case More(d, n, rest) => d + PrintNode(n) + PrintBody(rest)
  }

  predicate WellFormedNode(n: Node) {
    Trim(n.prelude) != "" && BraceFree(n.prelude) && Free(n.prelude, ';') && WellFormed(n.body)
  }

  predicate WellFormed(b: Body) {
    match b
    case Last(d) => BraceFree(d)
    case More(d, n, rest) =>
      BraceFree(d) && (d != "" ==> d[|d| - 1] == ';') && WellFormedNode(n) && WellFormed(rest)
  }

  /** The leaf rules of a well-formed inside, read off the tree. */
  function Flatten(b: Body, conditions: seq<string>): seq<LeafRule> {
    match b
    case Last(d) => OwnRule(d, conditions)
    case More(d, n, rest) => OwnRule(d, conditions) + FlattenNode(n, conditions) + Flatten(rest, conditions)
  }

  function FlattenNode(n: Node, conditions: seq<string>): seq<LeafRule> {
    match n.body
    case Last(d) => [LeafRule(conditions, Trim(n.prelude), d)]
    case More(_, _, _) => Flatten(n.body, conditions + [Trim(n.prelude)])
  }

  // ----- The scanner inverts printing -----

  lemma {:induction false} CloseSkipsText(t: string, u: string, depth: int)
    requires BraceFree(t)
    ensures Close(t + u, depth) == |t| + Close(u, depth)
  {
    if t == "" {
      assert t + u == u;
    } else {
      assert (t + u)[1..] == t[1..] + u;
      CloseSkipsText(t[1..], u, depth);
    }
  }

  lemma {:induction false} CloseSkipsNode(n: Node, u: string, depth: int)
    requires WellFormedNode(n) && depth >= 1
    ensures Close(PrintNode(n) + u, depth) == |PrintNode(n)| + Close(u, depth)
    decreases n, 0
  {
    hide Close, Trim, PrintBody;
    var inside := PrintBody(n.body);
    var tail := "}" + u;
    assert PrintNode(n) + u == n.prelude + ("{" + (inside + tail));
    CloseSkipsText(n.prelude, "{" + (inside + tail), depth);
    CloseAtBrace('{', inside + tail, depth);
    CloseSkipsBody(n.body, tail, depth + 1);
    CloseAtBrace('}', u, depth + 1);
  }

  lemma CloseAtBrace(c: char, u: string, depth: int)
    requires c == '{' || (c == '}' && depth > 1)
    ensures Close([c] + u, depth) == 1 + Close(u, if c == '{' then depth + 1 else depth - 1)
  {
    assert ([c] + u)[1..] == u;
  }

  lemma {:induction false} CloseSkipsBody(b: Body, u: string, depth: int)
    requires WellFormed(b) && depth >= 1
    ensures Close(PrintBody(b) + u, depth) == |PrintBody(b)| + Close(u, depth)
    decreases b, 1
  {
    match b
    case Last(d) => CloseSkipsText(d, u, depth);
    case More(d, n, rest) =>
      assert PrintBody(b) + u == d + (PrintNode(n) + (PrintBody(rest) + u));
      CloseSkipsText(d, PrintNode(n) + (PrintBody(rest) + u), depth);
      CloseSkipsNode(n, PrintBody(rest) + u, depth);
      CloseSkipsBody(rest, u, depth);
  }

  /** A brace-free run that ends in `;`, followed by a block, is read back as that run and block. */
  lemma PrintedChunk(d: string, n: Node, u: string)
    requires BraceFree(d) && (d != "" ==> d[|d| - 1] == ';') && WellFormedNode(n)
    ensures FirstChunk(d + PrintNode(n) + u) == Some(Chunk(d, Trim(n.prelude), PrintBody(n.body), u))
  {
    assert Close("}" + u, 1) == 0;
    assert '{' !in d + n.prelude;
    assert PrintNode(n) == n.prelude + "{" + PrintBody(n.body) + "}";
    hide *;
    var inside := PrintBody(n.body);
    CloseSkipsBody(n.body, "}" + u, 1);
    PrintedChunkAt(d, n.prelude, inside, u);
    Regroup(d, n.prelude, inside, u);
    FirstChunkSplits(d + n.prelude, inside + ("}" + u));
  }

  lemma PrintedChunkAt(d: string, prelude: string, inside: string, u: string)
    requires BraceFree(d) && (d != "" ==> d[|d| - 1] == ';') && BraceFree(prelude) && Free(prelude, ';')
    requires Close(inside + ("}" + u), 1) == |inside|
    ensures ChunkAt(d + prelude, inside + ("}" + u)) == Chunk(d, Trim(prelude), inside, u)
  {
    hide Trim, Close, Cut;
    var head, after := d + prelude, inside + ("}" + u);
    SelectorStart(d, prelude);
    assert head[..|d|] == d && head[|d|..] == prelude;
    assert after[..|inside|] == inside && after[|inside| + 1..] == u;
  }

  lemma Regroup(d: string, prelude: string, inside: string, u: string)
    ensures d + (prelude + "{" + inside + "}") + u == (d + prelude) + "{" + (inside + ("}" + u))
  {}

  /** The selector of a printed block starts after the declarations in front of it. */
  lemma SelectorStart(d: string, prelude: string)
    requires BraceFree(d) && (d != "" ==> d[|d| - 1] == ';') && BraceFree(prelude) && Free(prelude, ';')
    ensures Cut(d + prelude) == |d| - 1
  {
    var head := d + prelude;
    assert forall k :: |d| <= k < |head| ==> head[k] == prelude[k - |d|];
    assert d != "" ==> head[|d| - 1] == ';';
  }

  /**
   * Round trip: scanning the text of any well-formed stylesheet, at any nesting, gives back
   * exactly the flattening of its tree.
   */
  lemma {:induction false} ScanInvertsPrint(b: Body, conditions: seq<string>)
    requires WellFormed(b)
    ensures Scan(PrintBody(b), "", conditions) == Flatten(b, conditions)
    decreases b
  {
    hide FirstChunk, OwnRule, Trim, PrintNode;
    match b
    case Last(d) =>
      assert "" + d == d;
    case More(d, n, rest) =>
      PrintedChunk(d, n, PrintBody(rest));
      assert "" + d == d;
      match n.body {
        case Last(_) =>
        case More(d', n', rest') => PrintedChunk(d', n', PrintBody(rest'));
      }
      ScanInvertsPrint(n.body, conditions + [Trim(n.prelude)]);
      ScanInvertsPrint(rest, conditions);
  }

  // ----- What the flattening keeps -----

  /** Every declaration run that belongs to some block, in document order. */
  function Runs(b: Body, insideBlock: bool): seq<string> {
    match b
    case Last(d) => OwnRun(d, insideBlock)
    case More(d, n, rest) =>
      OwnRun(d, insideBlock) + (if n.body.Last? then [n.body.decls] else Runs(n.body, true)) + Runs(rest, insideBlock)
  }

  function OwnRun(d: string, insideBlock: bool): seq<string> {
    if Trim(d) != "" && insideBlock then [d] else []
  }

  function BodiesOf(rules: seq<LeafRule>): (r: seq<string>)
    ensures |r| == |rules|
  {
    seq(|rules|, i requires 0 <= i < |rules| => rules[i].body)
  }

  lemma BodiesOfConcat(a: seq<LeafRule>, b: seq<LeafRule>)
    ensures BodiesOf(a + b) == BodiesOf(a) + BodiesOf(b)
  {}

  lemma {:induction false} FlattenConservesDeclarations(b: Body, conditions: seq<string>)
    ensures BodiesOf(Flatten(b, conditions)) == Runs(b, conditions != [])
  {
    hide Trim, BodiesOf;
    match b
    case Last(d) => OwnConserved(d, conditions);
    case More(d, n, rest) =>
      OwnConserved(d, conditions);
      var own, inner, tail := OwnRule(d, conditions), FlattenNode(n, conditions), Flatten(rest, conditions);
      BodiesOfConcat(own, inner);
      BodiesOfConcat(own + inner, tail);
      FlattenConservesDeclarations(rest, conditions);
      match n.body {
        case Last(e) => BodiesOfOne(inner[0]);
        case More(_, _, _) => FlattenConservesDeclarations(n.body, conditions + [Trim(n.prelude)]);
      }
  }

  lemma BodiesOfOne(leaf: LeafRule)
    ensures BodiesOf([leaf]) == [leaf.body]
  {}

  lemma OwnConserved(d: string, conditions: seq<string>)
    ensures BodiesOf(OwnRule(d, conditions)) == OwnRun(d, conditions != [])
  {}

  /** Conservation: the scanner's leaf bodies are the blocks' declaration runs, none lost or repeated. */
  lemma ScanConservesDeclarations(b: Body, conditions: seq<string>)
    requires WellFormed(b)
    ensures BodiesOf(Scan(PrintBody(b), "", conditions)) == Runs(b, conditions != [])
  {
    ScanInvertsPrint(b, conditions);
    FlattenConservesDeclarations(b, conditions);
  }

  // ----- Where each leaf sits in the tree -----

  /** `body` is a non-blank declaration run written directly in this inside. */
  predicate DirectRun(b: Body, body: string) {
    match b
    case Last(d) => body == d && !Blank(d)
    case More(d, n, rest) => (body == d && !Blank(d)) || DirectRun(rest, body)
  }

  /**
   * Read off the tree alone: going down the blocks whose preludes are `path`, one reaches a block
   * `selector` that holds the declarations `body`.
   */
  ghost predicate SitsIn(b: Body, path: seq<string>, selector: string, body: string)
    decreases b, 0
  {
    match b
    case Last(d) => false
    case More(d, n, rest) => SitsInNode(n, path, selector, body) || SitsIn(rest, path, selector, body)
  }

  ghost predicate SitsInNode(n: Node, path: seq<string>, selector: string, body: string)
    decreases n, 0
  {
    if path == [] then
      IsTrimOf(selector, n.prelude) && (if n.body.Last? then n.body.decls == body else DirectRun(n.body, body))
    else
      n.body.More? && IsTrimOf(path[0], n.prelude) && SitsIn(n.body, path[1..], selector, body)
  }

  /** The leaf is a run of the surrounding block itself, or sits below it along the rest of its path. */
  ghost predicate SitsBelow(b: Body, conditions: seq<string>, leaf: LeafRule) {
    || (conditions != [] && leaf.conditions + [leaf.selector] == conditions && DirectRun(b, leaf.body))
    || (conditions <= leaf.conditions && SitsIn(b, leaf.conditions[|conditions|..], leaf.selector, leaf.body))
  }

  lemma OwnRuleIff(d: string, conditions: seq<string>, leaf: LeafRule)
    ensures leaf in OwnRule(d, conditions) <==>
            conditions != [] && leaf.conditions + [leaf.selector] == conditions && leaf.body == d && !Blank(d)
  {
    TrimBlank(d);
    hide Trim, Blank;
    if conditions != [] {
      var n := |conditions| - 1;
      assert conditions[..n] + [conditions[n]] == conditions;
      if leaf.conditions + [leaf.selector] == conditions {
        assert leaf.conditions == conditions[..n] && leaf.selector == conditions[n];
      }
    }
  }

  lemma {:induction false} FlattenNodeIff(n: Node, conditions: seq<string>, leaf: LeafRule)
    ensures leaf in FlattenNode(n, conditions) <==>
            conditions <= leaf.conditions &&
            SitsInNode(n, leaf.conditions[|conditions|..], leaf.selector, leaf.body)
    decreases n, 1
  {
    forall t ensures IsTrimOf(t, n.prelude) <==> t == Trim(n.prelude) { TrimIff(t, n.prelude); }
    hide Trim, IsTrimOf, Blank;
    if n.body.More? {
      var inner := conditions + [Trim(n.prelude)];
      FlattenIff(n.body, inner, leaf);
      PathStep(conditions, Trim(n.prelude), leaf);
    } else if conditions <= leaf.conditions && leaf.conditions[|conditions|..] == [] {
      assert leaf.conditions == conditions;
    }
  }

  /** Going one block down: the path either stops there or goes on through it. */
  lemma PathStep(conditions: seq<string>, prelude: string, leaf: LeafRule)
    ensures var inner := conditions + [prelude];
            && (leaf.conditions + [leaf.selector] == inner <==>
                  conditions <= leaf.conditions && leaf.conditions[|conditions|..] == [] && leaf.selector == prelude)
            && (inner <= leaf.conditions <==>
                  && conditions <= leaf.conditions && |leaf.conditions| > |conditions|
                  && leaf.conditions[|conditions|] == prelude)
            && (inner <= leaf.conditions ==>
                  leaf.conditions[|conditions|..][1..] == leaf.conditions[|inner|..])
  {
    var inner := conditions + [prelude];
    if conditions <= leaf.conditions && |leaf.conditions| > |conditions| && leaf.conditions[|conditions|] == prelude {
      assert leaf.conditions[..|inner|] == inner;
    }
    if leaf.conditions + [leaf.selector] == inner {
      assert (leaf.conditions + [leaf.selector])[..|conditions|] == conditions;
      assert leaf.conditions == conditions;
    }
    if conditions <= leaf.conditions && leaf.conditions[|conditions|..] == [] {
      assert leaf.conditions == conditions;
    }
  }

  lemma {:induction false} FlattenIff(b: Body, conditions: seq<string>, leaf: LeafRule)
    ensures leaf in Flatten(b, conditions) <==> SitsBelow(b, conditions, leaf)
    decreases b, 0
  {
    hide Trim, OwnRule, FlattenNode, SitsInNode, Blank;
    match b
    case Last(d) => OwnRuleIff(d, conditions, leaf);
    case More(d, n, rest) =>
      OwnRuleIff(d, conditions, leaf);
      FlattenNodeIff(n, conditions, leaf);
      FlattenIff(rest, conditions, leaf);
  }

  /**
   * The leaves the scanner finds in a stylesheet are exactly the declarations of its blocks, each
   * with the trimmed preludes of all its ancestors, outermost first, as its conditions.
   */
  lemma LeavesCarryAncestors(b: Body, leaf: LeafRule)
    requires WellFormed(b)
    ensures leaf in Scan(PrintBody(b), "", []) <==> SitsIn(b, leaf.conditions, leaf.selector, leaf.body)
  {
    hide Scan, Flatten, SitsIn, PrintBody, WellFormed;
    ScanInvertsPrint(b, []);
    FlattenIff(b, [], leaf);
    assert leaf.conditions[0..] == leaf.conditions;
  }
}
