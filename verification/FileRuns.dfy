/**
 * Whole runs of the file editor: answers to superseded opens make no difference, and three runs show
 * what captured state costs (a save answered after a switch, and a delete answered too late, twice).
 */
module FileRuns {
  import opened Text
  import opened PathTree
  import opened ProjectDisk
  import opened FileEditor
  import opened FileEdits

  // ----- Answers to superseded opens -----

  /** The answer to an open that is no longer the latest. */
  predicate Stale(w: World, e: Event) {
    e.DeliverRead? && e.openSeq != w.panel.openSeq
  }

  /** The run without the answers to superseded opens. */
  function WithoutStale(w: World, es: seq<Event>): seq<Event>
    requires Legal(w, es)
    decreases |es|
  {
    if es == [] then []
    else (if Stale(w, es[0]) then [] else [es[0]]) + WithoutStale(Step(w, es[0]), es[1..])
  }

  /** `v` is `w` with some superseded opens still unanswered. */
  predicate SameButOpens(w: World, v: World) {
    && v == w.(opens := v.opens)
    && (forall k :: k in w.opens ==> k in v.opens && v.opens[k] == w.opens[k] && k <= w.panel.openSeq)
    && (forall k :: k in v.opens && k !in w.opens ==> k < w.panel.openSeq)
  }

  lemma StaleChangesNothing(w: World, v: World, e: Event)
    requires SameButOpens(w, v) && Enabled(w, e) && Stale(w, e)
    ensures SameButOpens(Step(w, e), v)
  {
    hide Dirty, SetFile;
  }

  lemma OpenInBoth(w: World, v: World, path: string, onlyIfClean: bool)
    requires SameButOpens(w, v)
    ensures SameButOpens(IssueOpen(w, path, onlyIfClean), IssueOpen(v, path, onlyIfClean))
  {}

  lemma ReadsInBoth(w: World, v: World, e: Event)
    requires SameButOpens(w, v) && Enabled(w, e) && !Stale(w, e) && (e.ServeRead? || e.DeliverRead?)
    ensures Enabled(v, e) && SameButOpens(Step(w, e), Step(v, e))
  {
    hide Dirty, ReadNow, SamePollKey;
  }

  lemma StatInBoth(w: World, v: World, id: nat)
    requires SameButOpens(w, v) && Enabled(w, DeliverStat(id))
    ensures Enabled(v, DeliverStat(id)) && SameButOpens(StatArrives(w, id), StatArrives(v, id))
  {
    hide IssueOpen, StatReloads;
    OpenInBoth(w.(stats := w.stats - {id}), v.(stats := v.stats - {id}), w.stats[id].path, true);
  }

  lemma OpInBoth(w: World, v: World, id: nat)
    requires SameButOpens(w, v) && Enabled(w, DeliverOp(id))
    ensures Enabled(v, DeliverOp(id)) && SameButOpens(OpArrives(w, id), OpArrives(v, id))
  {
    hide IssueOpen, SamePollKey, MovedPath;
    var w', v' := w.(ops := w.ops - {id}), v.(ops := v.ops - {id});
    match w.ops[id].change
    case Create(path) => OpenInBoth(w', v', path, false);
    case Delete(_, _) =>
    case Move(from, to, follows) =>
      if follows.Some? {
        OpenInBoth(w', v', MovedPath(follows.value, from, to), false);
      }
  }

  predicate LooksAtOpens(e: Event) {
    e.OpenFile? || e.ServeRead? || e.DeliverRead? || e.DeliverStat? || e.DeliverOp?
  }

  /** Every other event leaves the opens alone, their number too. */
  lemma OpensLeftAlone(w: World, e: Event)
    requires Enabled(w, e) && !LooksAtOpens(e)
    ensures Step(w, e).opens == w.opens && Step(w, e).panel.openSeq == w.panel.openSeq
  {
    hide PutFile, MoveFiles, RemoveFile, CanMove, CanDo, Done, SamePollKey, Shown, ShownUnder, Under, Dirty;
  }

  /** And it does not depend on them. */
  lemma OpensNotRead(w: World, opens: map<nat, Open>, e: Event)
    requires Enabled(w, e) && !LooksAtOpens(e)
    ensures Enabled(w.(opens := opens), e) && Step(w.(opens := opens), e) == Step(w, e).(opens := opens)
  {
    if AboutSaves(e) {
      SavesReadNoOpens(w, opens, e);
      hide Step, Enabled;
    } else {
      hide PutFile, MoveFiles, RemoveFile, CanMove, CanDo, Done, SetFile, SaveWritten, Discarded, Shown, ShownUnder, Under, Dirty;
      hide DeleteOf, MoveOf, StatChanged;
    }
  }

  predicate AboutSaves(e: Event) { e.PressSave? || e.ServeWrite? || e.DeliverWrite? }

  lemma SavesReadNoOpens(w: World, opens: map<nat, Open>, e: Event)
    requires Enabled(w, e) && AboutSaves(e)
    ensures Enabled(w.(opens := opens), e) && Step(w.(opens := opens), e) == Step(w, e).(opens := opens)
  {
    hide PutFile, SetFile, SaveWritten, Under;
  }

  lemma OthersInBoth(w: World, v: World, e: Event)
    requires SameButOpens(w, v) && Enabled(w, e) && !LooksAtOpens(e)
    ensures Enabled(v, e) && SameButOpens(Step(w, e), Step(v, e))
  {
    OpensLeftAlone(w, e);
    OpensNotRead(w, v.opens, e);
    assert v == w.(opens := v.opens);
    hide Step, Enabled;
  }

  lemma StepInBoth(w: World, v: World, e: Event)
    requires SameButOpens(w, v) && Enabled(w, e) && !Stale(w, e)
    ensures Enabled(v, e) && SameButOpens(Step(w, e), Step(v, e))
  {
    hide SameButOpens, IssueOpen, ReadArrives, StatArrives, OpArrives, ServeReadNow, Under, CanMove;
    match e
    case OpenFile(path) => OpenInBoth(w, v, path, false);
    case ServeRead(_, _, _) => ReadsInBoth(w, v, e);
    case DeliverRead(_) => ReadsInBoth(w, v, e);
    case DeliverStat(id) => StatInBoth(w, v, id);
    case DeliverOp(id) => OpInBoth(w, v, id);
    case _ => OthersInBoth(w, v, e);
  }

  lemma {:induction false} RunInBoth(w: World, v: World, es: seq<Event>)
    requires SameButOpens(w, v) && Legal(w, es)
    ensures Legal(v, WithoutStale(w, es)) && SameButOpens(Run(w, es), Run(v, WithoutStale(w, es)))
    decreases |es|
  {
    hide SameButOpens, Step, Enabled, Stale;
    if es != [] {
      var w' := Step(w, es[0]);
      if Stale(w, es[0]) {
        StaleChangesNothing(w, v, es[0]);
        RunInBoth(w', v, es[1..]);
        assert WithoutStale(w, es) == WithoutStale(w', es[1..]);
      } else {
        StepInBoth(w, v, es[0]);
        RunInBoth(w', Step(v, es[0]), es[1..]);
        var rest := WithoutStale(w', es[1..]);
        assert WithoutStale(w, es) == [es[0]] + rest;
        assert ([es[0]] + rest)[1..] == rest;
      }
    }
  }

  /**
   * Only the latest open counts, whatever happens in between: take the answers to superseded opens
   * out of any run, and what is left is a run that ends with the same panel, disk and requests.
   */
  lemma OnlyLatestOpenCounts(es: seq<Event>)
    requires Legal(Start(), es)
    ensures Legal(Start(), WithoutStale(Start(), es))
    ensures var kept := Run(Start(), WithoutStale(Start(), es));
            kept == Run(Start(), es).(opens := kept.opens)
  {
    RunInBoth(Start(), Start(), es);
  }

  // ----- Three runs from two files on disk -----

  function TwoFiles(): Disk {
    Disk([Version("a", "1"), Version("b", "2")], map["a" := 0, "b" := 1], {})
  }

  lemma OpeningA() returns (es: seq<Event>)
    ensures Legal(Start(), es)
    ensures Run(Start(), es) ==
            World(Panel(None, "", NoNote, false, 1, 0), TwoFiles(), map[1 := Open("a", false, None)], map[], map[], map[], 0, [])
  {
    var w := Start();
    es := [];
    assert Legal(w, es) && Run(w, es) == w;
    hide Legal, Run;
    RunAppend(w, es, OtherWrites("a", "1")); es := es + [OtherWrites("a", "1")];
    RunAppend(w, es, OtherWrites("b", "2")); es := es + [OtherWrites("b", "2")];
    assert Run(w, es).disk == TwoFiles();
    RunAppend(w, es, OpenFile("a")); es := es + [OpenFile("a")];
  }

  lemma OpenedA() returns (es: seq<Event>)
    ensures Legal(Start(), es)
    ensures Run(Start(), es) ==
            World(Panel(Some(File("a", "1", 0)), "1", NoNote, false, 1, 1), TwoFiles(), map[], map[], map[], map[], 0, [])
  {
    es := OpeningA();
    var w := Start();
    hide Legal, Run, Start;
    RunAppend(w, es, ServeRead(1, false, false)); es := es + [ServeRead(1, false, false)];
    RunAppend(w, es, DeliverRead(1)); es := es + [DeliverRead(1)];
    assert Run(w, es).opens == map[];
  }

  /** File "a" is open and saved as "x"; the answer is on its way, and the draft is back at "1". */
  lemma SavedA() returns (es: seq<Event>)
    ensures Legal(Start(), es)
    ensures var w := Run(Start(), es);
            && w.panel == Panel(Some(File("a", "1", 0)), "1", NoNote, false, 1, 1)
            && w.disk.history == TwoFiles().history + [Version("a", "x")] && w.disk.moved == {}
            && "b" in w.disk.files && w.disk.files["b"] == 1 && w.opens == map[]
            && 0 in w.saves && w.saves[0] == Save("a", "x", Some(0), "1", Some(Written(2)))
  {
    es := OpenedA();
    var w := Start();
    hide Legal, Run, Start;
    RunAppend(w, es, Type("x")); es := es + [Type("x")];
    RunAppend(w, es, PressSave(false)); es := es + [PressSave(false)];
    RunAppend(w, es, ServeWrite(0, false)); es := es + [ServeWrite(0, false)];
    RunAppend(w, es, Type("1")); es := es + [Type("1")];
  }

  lemma OpenedB() returns (es: seq<Event>)
    ensures Legal(Start(), es)
    ensures var w := Run(Start(), es);
            && w.panel.file == Some(File("b", "2", 1)) && w.panel.draft == "2"
            && w.disk.history == TwoFiles().history + [Version("a", "x")] && w.disk.moved == {}
            && "b" in w.disk.files && w.disk.files["b"] == 1
            && 0 in w.saves && w.saves[0] == Save("a", "x", Some(0), "1", Some(Written(2)))
  {
    es := SavedA();
    var w := Start();
    hide Legal, Run, Start;
    RunAppend(w, es, OpenFile("b")); es := es + [OpenFile("b")];
    RunAppend(w, es, ServeRead(2, false, false)); es := es + [ServeRead(2, false, false)];
    RunAppend(w, es, DeliverRead(2)); es := es + [DeliverRead(2)];
  }

  /**
   * The answer of the save of "a" is patched into the record of "b": the panel then shows "b" as
   * edited although its draft is what "b" holds on disk.
   */
  lemma SwitchDuringSaveCorruptsRecord() returns (es: seq<Event>)
    ensures Legal(Start(), es)
    ensures var w := Run(Start(), es);
            && w.panel.file == Some(File("b", "x", 2)) && !Genuine(w.disk, w.panel.file.value) && Dirty(w.panel)
            && "b" in w.disk.files && w.disk.files["b"] < |w.disk.history|
            && w.disk.history[w.disk.files["b"]] == Version("b", w.panel.draft)
  {
    es := OpenedB();
    var w := Start();
    hide Legal, Run, Start;
    RunAppend(w, es, DeliverWrite(0)); es := es + [DeliverWrite(0)];
  }

  /** Delete of "a" is confirmed while "a" is open and clean. */
  lemma DeletingA() returns (es: seq<Event>)
    ensures Legal(Start(), es)
    ensures Run(Start(), es) ==
            World(Panel(Some(File("a", "1", 0)), "1", NoNote, false, 1, 1), TwoFiles(), map[], map[], map[],
                  map[0 := Op(Delete("a", true), None)], 1, [])
  {
    es := OpenedA();
    var w := Start();
    hide Legal, Run, Start;
    RunAppend(w, es, PressDelete("a")); es := es + [PressDelete("a")];
    assert Run(w, es).ops == map[0 := Op(Delete("a", true), None)];
  }

  /**
   * Delete is confirmed on the clean open file and its text is edited while the request is under way:
   * the answer closes the file, and the edits are neither in the panel nor anywhere on the disk.
   */
  lemma DeleteInFlightTakesEdits() returns (before: seq<Event>, last: Event)
    ensures Legal(Start(), before) && Legal(Start(), before + [last]) && last.DeliverOp?
    ensures var w := Run(Start(), before);
            && Enabled(w, last) && TakesEdits(w, last)
            && w.panel.file.Some? && w.panel.draft == "edited" && Dirty(w.panel) && w.opens == map[]
    ensures var w := Run(Start(), before + [last]);
            && w.panel.file == None && w.panel.draft == ""
            && forall i :: 0 <= i < |w.disk.history| ==> w.disk.history[i].content != "edited"
  {
    var es := DeletingA();
    var w := Start();
    hide Legal, Run, Start;
    RunAppend(w, es, Type("edited")); es := es + [Type("edited")];
    RunAppend(w, es, ServeOp(0, false)); es := es + [ServeOp(0, false)];
    before, last := es, DeliverOp(0);
    RunAppend(w, es, last);
  }

  lemma DeletingASwitchedToB() returns (es: seq<Event>)
    ensures Legal(Start(), es)
    ensures Run(Start(), es) ==
            World(Panel(Some(File("b", "2", 1)), "2", NoNote, false, 2, 2), TwoFiles(), map[], map[], map[],
                  map[0 := Op(Delete("a", true), None)], 1, [])
  {
    es := DeletingA();
    var w := Start();
    hide Legal, Run, Start;
    RunAppend(w, es, OpenFile("b")); es := es + [OpenFile("b")];
    RunAppend(w, es, ServeRead(2, false, false)); es := es + [ServeRead(2, false, false)];
    RunAppend(w, es, DeliverRead(2)); es := es + [DeliverRead(2)];
    assert Run(w, es).opens == map[];
  }

  /**
   * The same delete, but "b" is opened and edited before its answer: the answer closes "b", which is
   * still on the disk as it was, and its edits are gone.
   */
  lemma DeleteClosesAnotherFile() returns (before: seq<Event>, last: Event)
    ensures Legal(Start(), before) && Legal(Start(), before + [last]) && last.DeliverOp?
    ensures var w := Run(Start(), before);
            && Enabled(w, last) && TakesEdits(w, last)
            && w.panel.file == Some(File("b", "2", 1)) && w.panel.draft == "edited" && w.opens == map[]
            && w.ops[last.id].change == Delete("a", true)
    ensures var w := Run(Start(), before + [last]);
            && w.panel.file == None && w.panel.draft == ""
            && w.disk.files == map["b" := 1]
            && forall i :: 0 <= i < |w.disk.history| ==> w.disk.history[i].content != "edited"
  {
    var es := DeletingASwitchedToB();
    var w := Start();
    hide Legal, Run, Start;
    RunAppend(w, es, Type("edited")); es := es + [Type("edited")];
    RunAppend(w, es, ServeOp(0, false)); es := es + [ServeOp(0, false)];
    assert Run(w, es).disk.files == map["b" := 1];
    before, last := es, DeliverOp(0);
    RunAppend(w, es, last);
  }
}
