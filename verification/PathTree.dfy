/**
 * Paths in frontend/src/FileEditorPanel.tsx are strings, and the folder tree is worked out with string
 * tests. This module proves that on normalized paths those tests agree with the segments.
 */
module PathTree {
  import opened Text

  /** `joinPath`. */
  function JoinPath(dir: string, name: string): string {
    if dir == "" then name else dir + "/" + name
  }

  /** `parentDir`. */
  function ParentDir(path: string): string {
    var i := LastIndexOf(path, '/');
    if i == -1 then "" else path[..i]
  }

  /** The test of `forgetSubtree` and `openFileUnder`. */
  predicate Under(k: string, path: string) {
    k == path || StartsWith(k, path + "/")
  }

  /** `split("/")`. */
  function Split(s: string): (parts: seq<string>)
    ensures parts != []
  {
    SplitOn(s, '/')
  }

  /** `join("/")`. */
  function Join(parts: seq<string>): string {
    JoinWith(parts, '/')
  }

  /** The segments of a normalized path. The project root has none. */
  predicate Segments(parts: seq<string>) {
    forall i :: 0 <= i < |parts| ==> parts[i] != "" && Free(parts[i], '/')
  }

  // ----- Splitting and joining -----

  lemma SplitConcat(x: string, rest: string)
    ensures Split(x + "/" + rest) == Split(x) + Split(rest)
  {
    SplitOnBoth(x, '/', rest);
  }

  lemma SplitJoin(parts: seq<string>)
    requires Segments(parts) && parts != []
    ensures Split(Join(parts)) == parts
  {
    SplitOnJoined(parts, '/');
  }

  lemma {:induction false} JoinConcat(a: seq<string>, b: seq<string>)
    requires a != [] && b != []
    ensures Join(a + b) == Join(a) + "/" + Join(b)
  {
    if |a| == 1 {
      assert (a + b)[1..] == b;
    } else {
      assert (a + b)[1..] == a[1..] + b;
      JoinConcat(a[1..], b);
    }
  }

  lemma JoinNonEmpty(parts: seq<string>)
    requires Segments(parts) && parts != []
    ensures Join(parts) != ""
  {
    assert parts[0] != "";
  }

  // ----- The string test is the segment relation -----

  /**
   * For every pair of normalized paths, `k === p || k.startsWith(p + "/")` says that the segments of
   * `p` start those of `k`; the root is the one path it finds nothing else under.
   */
  lemma UnderIsSegmentPrefix(k: seq<string>, p: seq<string>)
    requires Segments(k) && Segments(p)
    ensures Under(Join(k), Join(p)) <==> p <= k && (p == [] ==> k == [])
  {
    var ks, ps := Join(k), Join(p);
    assert Join([]) == "";
    if p != [] { JoinNonEmpty(p); }
    if k != [] { JoinNonEmpty(k); }
    hide Join, Segments;
    if StartsWith(ks, ps + "/") {
      StartsWithGivesPrefix(k, p);
    }
    if ks == ps {
      JoinInjective(k, p);
    }
    if p < k && p != [] {
      PrefixGivesStartsWith(k, p);
    }
    if p <= k && |p| == |k| {
      assert p == k;
    }
  }

  lemma StartsWithSplits(ks: string, ps: string)
    requires StartsWith(ks, ps + "/")
    ensures Split(ps) <= Split(ks)
  {
    hide Split;
    var rest := ks[|ps| + 1..];
    assert ks == ps + "/" + rest;
    SplitConcat(ps, rest);
  }

  lemma StartsWithGivesPrefix(k: seq<string>, p: seq<string>)
    requires Segments(k) && Segments(p) && StartsWith(Join(k), Join(p) + "/")
    ensures p <= k && p != []
  {
    assert k != [];
    assert Split("") == [""];
    SplitJoin(k);
    StartsWithSplits(Join(k), Join(p));
    if p != [] {
      SplitJoin(p);
    }
  }

  lemma PrefixGivesStartsWith(k: seq<string>, p: seq<string>)
    requires p < k && p != []
    ensures StartsWith(Join(k), Join(p) + "/")
  {
    hide Join;
    var rest := k[|p|..];
    assert k == p + rest;
    JoinConcat(p, rest);
    assert Join(k)[..|Join(p)| + 1] == Join(p) + "/";
  }

  lemma JoinInjective(a: seq<string>, b: seq<string>)
    requires Segments(a) && Segments(b) && Join(a) == Join(b)
    ensures a == b
  {
    if a != [] { JoinNonEmpty(a); SplitJoin(a); }
    if b != [] { JoinNonEmpty(b); SplitJoin(b); }
  }

  lemma JoinPathAppends(dir: seq<string>, name: string)
    requires Segments(dir)
    ensures JoinPath(Join(dir), name) == Join(dir + [name])
  {
    if dir == [] {
      assert dir + [name] == [name];
    } else {
      JoinNonEmpty(dir);
      JoinConcat(dir, [name]);
    }
  }

  /** `parentDir` undoes `joinPath`. */
  lemma ParentOfJoin(dir: seq<string>, name: string)
    requires Segments(dir + [name])
    ensures ParentDir(JoinPath(Join(dir), name)) == Join(dir)
  {
    assert (dir + [name])[|dir|] == name;
    assert Segments(dir) by { assert forall i :: 0 <= i < |dir| ==> (dir + [name])[i] == dir[i]; }
    var path := JoinPath(Join(dir), name);
    if dir == [] {
      assert LastIndexOf(path, '/') == -1;
    } else {
      JoinNonEmpty(dir);
      var i := |Join(dir)|;
      assert path[i] == '/';
      assert forall k :: i < k < |path| ==> path[k] == name[k - i - 1];
      assert LastIndexOf(path, '/') == i;
    }
  }

  // ----- Revealing a file -----

  /** The folders `revealFile` loads and expands, in the order it loads them. */
  method Ancestors(path: string) returns (ancestors: seq<string>)
    ensures ancestors == AncestorsOf(path)
  {
    var parts := NonEmpty(Split(ParentDir(path)));
    ancestors := [];
    for i := 0 to |parts|
      invariant ancestors == seq(i, j requires 0 <= j < i => Join(parts[..j + 1]))
    {
      ancestors := ancestors + [Join(parts[..i + 1])];
    }
  }

  function AncestorsOf(path: string): seq<string> {
    var parts := NonEmpty(Split(ParentDir(path)));
    seq(|parts|, j requires 0 <= j < |parts| => Join(parts[..j + 1]))
  }

  lemma {:induction false} NonEmptySegments(parts: seq<string>)
    requires Segments(parts)
    ensures NonEmpty(parts) == parts
  {
    if parts != [] {
      NonEmptySegments(parts[1..]);
    }
  }

  lemma AncestorsListed(dir: seq<string>, name: string)
    requires Segments(dir + [name])
    ensures var path := Join(dir + [name]);
            |AncestorsOf(path)| == |dir| && forall i :: 0 <= i < |dir| ==> AncestorsOf(path)[i] == Join(dir[..i + 1])
  {
    assert Segments(dir) by { assert forall i :: 0 <= i < |dir| ==> (dir + [name])[i] == dir[i]; }
    assert NonEmpty(Split("")) == [] && Join([]) == "";
    hide Join, Split, NonEmpty, ParentDir;
    JoinPathAppends(dir, name);
    ParentOfJoin(dir, name);
    if dir != [] {
      SplitJoin(dir);
      NonEmptySegments(dir);
    }
  }

  /** `revealFile` opens precisely the folders above the file, parents first. */
  lemma AncestorsAreFolders(dir: seq<string>, name: string, k: seq<string>)
    requires Segments(dir + [name]) && Segments(k)
    ensures var path := Join(dir + [name]);
            && |AncestorsOf(path)| == |dir|
            && (forall i :: 0 <= i < |dir| ==> AncestorsOf(path)[i] == Join(dir[..i + 1]))
            && (Join(k) in AncestorsOf(path) <==> k != [] && k <= dir)
  {
    assert Segments(dir) by { assert forall i :: 0 <= i < |dir| ==> (dir + [name])[i] == dir[i]; }
    hide Join, AncestorsOf;
    AncestorsListed(dir, name);
    var ancestors := AncestorsOf(Join(dir + [name]));
    if Join(k) in ancestors {
      var i :| 0 <= i < |ancestors| && ancestors[i] == Join(k);
      JoinInjective(k, dir[..i + 1]);
    }
    if k != [] && k <= dir {
      assert ancestors[|k| - 1] == Join(dir[..|k|]) && dir[..|k|] == k;
    }
  }

  // ----- Renaming and moving -----

  /** The path reopened after a rename or move of `from` to `to`. */
  function MovedPath(open: string, from: string, to: string): string
  {
    to + if |from| <= |open| then open[|from|..] else ""
  }

  lemma SuffixMoves(from: string, below: string, to: string)
    ensures var open := from + "/" + below;
            Under(open, from) && MovedPath(open, from, to) == to + "/" + below
  {
    var open := from + "/" + below;
    assert open[|from|..] == "/" + below;
    assert open[..|from| + 1] == from + "/";
  }

  /** The reopened path has the moved folder's new segments followed by the old ones below it. */
  lemma MovedPathIsSegmentImage(from: seq<string>, below: seq<string>, to: seq<string>)
    requires Segments(from) && Segments(below) && Segments(to) && from != [] && to != []
    ensures var open := Join(from + below);
            && Under(open, Join(from))
            && |Join(from)| <= |open|
            && MovedPath(open, Join(from), Join(to)) == Join(to + below)
  {
    hide Join, Segments;
    if below == [] {
      assert from + below == from && to + below == to;
    } else {
      JoinConcat(from, below);
      JoinConcat(to, below);
      SuffixMoves(Join(from), Join(below), Join(to));
    }
  }

  /** Moving a folder and moving it back reopens the original path. */
  lemma MoveBackRestores(from: seq<string>, below: seq<string>, to: seq<string>)
    requires Segments(from) && Segments(below) && Segments(to) && from != [] && to != []
    ensures var open := Join(from + below);
            var moved := Join(to + below);
            && |Join(from)| <= |open| && |Join(to)| <= |moved|
            && MovedPath(open, Join(from), Join(to)) == moved
            && MovedPath(moved, Join(to), Join(from)) == open
  {
    MovedPathIsSegmentImage(from, below, to);
    MovedPathIsSegmentImage(to, below, from);
  }

  // ----- The cached tree -----

  /** The panel's cached listings, expanded folders and selected folder. */
  class Tree<Listing> {
    var dirs: map<string, Listing>
    var expanded: set<string>
    var selectedDir: string

    constructor ()
      ensures dirs == map[] && expanded == {""} && selectedDir == ""
    {
      dirs, expanded, selectedDir := map[], {""}, "";
    }

    /** Exactly the folders whose segments start with those of the entry are forgotten. */
    method ForgetSubtree(entry: string)
      modifies this`dirs, this`expanded
      ensures forall p, k :: Segments(p) && p != [] && entry == Join(p) && Segments(k) ==>
                && (Join(k) in dirs <==> Join(k) in old(dirs) && !(p <= k))
                && (Join(k) in expanded <==> Join(k) in old(expanded) && !(p <= k))
      ensures forall d :: d in dirs ==> d in old(dirs) && dirs[d] == old(dirs)[d]
    {
      hide Join, Segments, Outside;
      ghost var before, open := dirs.Keys, expanded;
      var kept := Outside(dirs.Keys, entry);
      dirs := map k | k in dirs && k in kept :: dirs[k];
      expanded := Outside(expanded, entry);
      forall p, k | Segments(p) && p != [] && entry == Join(p) && Segments(k)
        ensures Join(k) in kept <==> Join(k) in before && !(p <= k)
        ensures Join(k) in expanded <==> Join(k) in open && !(p <= k)
      {
        OutsideDropsSubtree(before, p, k);
        OutsideDropsSubtree(open, p, k);
      }
    }

    /** `loadDir` for one folder after the other; a failed listing changes nothing. */
    method LoadAll(folders: seq<string>, answers: map<string, Listing>)
      modifies this`dirs
      ensures dirs == old(dirs) + AnswersFor(answers, folders)
    {
      hide AnswersFor;
      ghost var before := dirs;
      NoAnswers(answers);
      for i := 0 to |folders|
        invariant dirs == before + AnswersFor(answers, folders[..i])
      {
        NextAnswer(answers, folders[..i], folders[i]);
        assert folders[..i + 1] == folders[..i] + [folders[i]];
        if folders[i] in answers {
          dirs := dirs[folders[i] := answers[folders[i]]];
        }
      }
      assert folders[..|folders|] == folders;
    }

    /**
     * `revealFile`: lists the folders above the file one after the other, as far as the server answers,
     * then shows them all open and selects the one the file is in.
     */
    method Reveal(path: string, answers: map<string, Listing>)
      modifies this
      ensures dirs == old(dirs) + AnswersFor(answers, AncestorsOf(path))
      ensures expanded == old(expanded) + set k | k in AncestorsOf(path)
      ensures selectedDir == ParentDir(path)
    {
      hide ParentDir, AncestorsOf, AnswersFor;
      var ancestors := Ancestors(path);
      LoadAll(ancestors, answers);
      expanded := expanded + set k | k in ancestors;
      selectedDir := ParentDir(path);
    }
  }

  function AnswersFor<Listing>(answers: map<string, Listing>, folders: seq<string>): map<string, Listing> {
    map k | k in answers && k in folders :: answers[k]
  }

  lemma NoAnswers<Listing>(answers: map<string, Listing>)
    ensures AnswersFor(answers, []) == map[]
  {}

  lemma NextAnswer<Listing>(answers: map<string, Listing>, folders: seq<string>, dir: string)
    ensures AnswersFor(answers, folders + [dir]) ==
            if dir in answers then AnswersFor(answers, folders)[dir := answers[dir]] else AnswersFor(answers, folders)
  {}

  /** The paths that `forgetSubtree` keeps. */
  function Outside(paths: set<string>, entry: string): set<string> {
    set k | k in paths && !Under(k, entry)
  }

  /** Forgetting an entry drops it and everything below it, and keeps every other path. */
  lemma OutsideDropsSubtree(paths: set<string>, entry: seq<string>, k: seq<string>)
    requires Segments(entry) && entry != [] && Segments(k)
    ensures Join(k) in Outside(paths, Join(entry)) <==> Join(k) in paths && !(entry <= k)
  {
    UnderIsSegmentPrefix(k, entry);
  }
}
