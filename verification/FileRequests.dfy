/** Whole runs of an open and of a change in the tree: what is asked, what is done, and what the answer does. */
module FileRequests {
  import opened Text
  import opened PathTree
  import opened ProjectDisk
  import opened FileEditor
  import opened FileSaves

  // ----- Opening a file -----

  predicate AsksOpen(w: World, k: nat, path: string) {
    k <= w.panel.openSeq && (k in w.opens ==> w.opens[k].path == path && !w.opens[k].onlyIfClean)
  }

  lemma StepKeepsOpen(w: World, e: Event, k: nat, path: string)
    requires AsksOpen(w, k, path) && Enabled(w, e)
    ensures AsksOpen(Step(w, e), k, path)
  {
    hide ReadNow, Dirty, Under, CanMove, CanDo, Done, MoveFiles, PutFile, MovedPath, Shown, ShownUnder, SamePollKey;
    hide StatReloads, StatChanged;
  }

  lemma {:induction false} RunKeepsOpen(w: World, es: seq<Event>, k: nat, path: string)
    requires AsksOpen(w, k, path) && Legal(w, es)
    ensures AsksOpen(Run(w, es), k, path)
    decreases |es|
  {
    hide AsksOpen, Step, Enabled;
    if es != [] {
      StepKeepsOpen(w, es[0], k, path);
      RunKeepsOpen(Step(w, es[0]), es[1..], k, path);
    }
  }

  predicate Opened(es: seq<Event>, i: nat, path: string) {
    Legal(Start(), es) && i < |es| && es[i] == OpenFile(path)
  }

  lemma OpenedAsks(es: seq<Event>, i: nat, path: string)
    requires Opened(es, i, path)
    ensures AsksOpen(Run(Start(), es), At(es, i).panel.openSeq + 1, path)
  {
    RunSplit(Start(), es, i);
    var m, rest := At(es, i), es[i..];
    assert rest[0] == OpenFile(path) && Legal(Step(m, rest[0]), rest[1..]);
    var k := m.panel.openSeq + 1;
    assert AsksOpen(Step(m, rest[0]), k, path);
    hide AsksOpen, Step, Enabled;
    RunKeepsOpen(Step(m, rest[0]), rest[1..], k, path);
  }

  /** The server reads the file as it is when it gets to it. */
  lemma OpenServed(es: seq<Event>, i: nat, path: string, fails: bool, nonText: bool)
    requires Opened(es, i, path)
    requires Enabled(Run(Start(), es), ServeRead(At(es, i).panel.openSeq + 1, fails, nonText))
    ensures var k := At(es, i).panel.openSeq + 1;
            var w := Run(Start(), es);
            var r := Step(w, ServeRead(k, fails, nonText));
            && r.panel == w.panel && r.disk == w.disk && k in r.opens
            && (fails || path !in w.disk.files ==> r.opens[k].answer == Some(Unreadable(nonText)))
            && (!fails && path in w.disk.files ==>
                  var m := w.disk.files[path];
                  m < |w.disk.history| && r.opens[k].answer == Some(Loaded(w.disk.history[m].content, m)))
  {
    OpenedAsks(es, i, path);
    RunKeepsInv(Start(), es);
    assert DiskInv(Run(Start(), es).disk);
    hide Legal, Run, At, Inv;
  }

  /**
   * The answer to an open: it counts only while no other open has started since, and then the file is
   * the one asked for, with what was read as its content and draft, or none with a note that says why.
   */
  lemma OpenAnswered(es: seq<Event>, i: nat, path: string)
    requires Opened(es, i, path) && Enabled(Run(Start(), es), DeliverRead(At(es, i).panel.openSeq + 1))
    ensures var k := At(es, i).panel.openSeq + 1;
            var w := Run(Start(), es);
            var p := Step(w, DeliverRead(k)).panel;
            && (k != w.panel.openSeq ==> p == w.panel)
            && (k == w.panel.openSeq ==>
                  && p.openSeq == w.panel.openSeq && p.conflict == w.panel.conflict
                  && match w.opens[k].answer.value
                     case Loaded(content, mtime) =>
                       p.file == Some(File(path, content, mtime)) && p.draft == content && p.note == NoNote
                     case Unreadable(nonText) =>
                       p.file == None && p.draft == "" && p.note == if nonText then NonText(path) else OpenFailed(path))
  {
    OpenedAsks(es, i, path);
    hide Legal, Run, At, Dirty, SamePollKey;
  }

  // ----- Changes in the tree -----

  predicate AsksOp(w: World, id: nat, change: Change) {
    id < w.ticket && (id in w.ops ==> w.ops[id].change == change)
  }

  lemma StepKeepsOp(w: World, e: Event, id: nat, change: Change)
    requires AsksOp(w, id, change) && Enabled(w, e)
    ensures AsksOp(Step(w, e), id, change)
  {
    hide ReadNow, Dirty, Under, CanMove, CanDo, Done, MoveFiles, PutFile, MovedPath, Shown, ShownUnder;
    hide SetFile, StartOpen, ReadLoaded, ReadFailed, SaveWritten, StatArrived, StatReloads;
  }

  lemma {:induction false} RunKeepsOp(w: World, es: seq<Event>, id: nat, change: Change)
    requires AsksOp(w, id, change) && Legal(w, es)
    ensures AsksOp(Run(w, es), id, change)
    decreases |es|
  {
    hide AsksOp, Step, Enabled;
    if es != [] {
      StepKeepsOp(w, es[0], id, change);
      RunKeepsOp(Step(w, es[0]), es[1..], id, change);
    }
  }

  /** The panel shows this file, or says of it that it is not text. */
  predicate Shows(p: Panel, path: string) {
    (p.file.Some? && p.file.value.path == path) || (p.file.None? && p.note == NonText(path))
  }

  predicate Pressed(es: seq<Event>, i: nat) {
    Legal(Start(), es) && i < |es| && (es[i].PressCreate? || es[i].PressDelete? || es[i].PressMove?)
  }

  /** The change asked for: whether it concerns the open file is decided when it is pressed. */
  lemma PressedAsks(es: seq<Event>, i: nat) returns (change: Change)
    requires Pressed(es, i)
    ensures AsksOp(Run(Start(), es), At(es, i).ticket, change)
    ensures es[i].PressCreate? ==> change == Create(es[i].path)
    ensures es[i].PressDelete? ==> change == Delete(es[i].path, Shows(At(es, i).panel, es[i].path))
    ensures es[i].PressMove? ==>
              && change.Move? && change.from == es[i].from && change.to == es[i].to
              && (change.follows.Some? ==>
                    change.follows.value != "" && Under(change.follows.value, es[i].from) &&
                    Shows(At(es, i).panel, change.follows.value))
              && (change.follows.None? ==>
                    forall o :: Shows(At(es, i).panel, o) && o != "" ==> !Under(o, es[i].from))
  {
    RunSplit(Start(), es, i);
    var m, rest := At(es, i), es[i..];
    assert rest[0] == es[i] && Enabled(m, rest[0]) && Legal(Step(m, rest[0]), rest[1..]);
    change := match es[i]
      case PressCreate(path) => Create(path)
      case PressDelete(path) => DeleteOf(m.panel, path)
      case PressMove(from, to) => MoveOf(m.panel, from, to)
      case _ => Create("");
    assert AsksOp(Step(m, rest[0]), m.ticket, change) by { hide Under; }
    assert Run(Start(), es) == Run(Step(m, rest[0]), rest[1..]);
    hide AsksOp, Step, Enabled, Under;
    RunKeepsOp(Step(m, rest[0]), rest[1..], m.ticket, change);
  }

  /**
   * The answer to a change in the tree, whatever happened since it was pressed: a created file is opened;
   * a deleted one closes what is open if it was the one shown when Delete was pressed; and the file that
   * was shown then, at the moved place or below it, is opened where it went. A change that failed does
   * nothing.
   */
  lemma ChangeAnswered(es: seq<Event>, i: nat)
    requires Pressed(es, i) && Enabled(Run(Start(), es), DeliverOp(At(es, i).ticket))
    ensures var id := At(es, i).ticket;
            var shown := At(es, i).panel;
            var w := Run(Start(), es);
            var r := Step(w, DeliverOp(id));
            var done := w.ops[id].answer == Some(true);
            var closes := es[i].PressDelete? && Shows(shown, es[i].path);
            && r.disk == w.disk && id !in r.ops
            && (!done ==> r.panel == w.panel && r.opens == w.opens)
            && (done && es[i].PressCreate? ==> Opens(w, r, es[i].path))
            && (done && closes ==>
                  && r.panel.file == None && r.panel.draft == "" && r.panel.note == Deleted(es[i].path)
                  && r.panel.conflict == w.panel.conflict && r.opens == w.opens)
            && (done && es[i].PressDelete? && !closes ==> r.panel == w.panel && r.opens == w.opens)
            && (done && es[i].PressMove? ==>
                  && (forall o :: Shows(shown, o) && o != "" && Under(o, es[i].from) ==>
                        Opens(w, r, MovedPath(o, es[i].from, es[i].to)))
                  && ((forall o :: Shows(shown, o) && o != "" ==> !Under(o, es[i].from)) ==>
                        r.panel == w.panel && r.opens == w.opens))
  {
    var change := PressedAsks(es, i);
    hide Legal, Run, At, Under, MovedPath, SamePollKey;
    assert change == Run(Start(), es).ops[At(es, i).ticket].change;
    var shown := At(es, i).panel;
    forall o, q | Shows(shown, o) && Shows(shown, q) ensures o == q {}
  }

  /** A foreground read of `path` starts, and supersedes every other. */
  predicate Opens(w: World, r: World, path: string) {
    && r.panel == w.panel.(conflict := false, openSeq := w.panel.openSeq + 1)
    && r.opens == w.opens[w.panel.openSeq + 1 := Open(path, false, None)]
  }

  /**
   * What the server does with the change when it comes: nothing is created or moved onto what is there,
   * nothing moves into itself, and no folder with files is deleted; otherwise it is done as asked.
   */
  lemma ChangeServed(es: seq<Event>, i: nat, fails: bool)
    requires Pressed(es, i) && Enabled(Run(Start(), es), ServeOp(At(es, i).ticket, fails))
    ensures var id := At(es, i).ticket;
            var w := Run(Start(), es);
            var r := Step(w, ServeOp(id, fails));
            && id in r.ops && r.panel == w.panel && r.opens == w.opens
            && (r.ops[id].answer == Some(!fails && Free(w.disk.files, es[i])))
            && (r.ops[id].answer == Some(false) ==> r.disk == w.disk)
            && (r.ops[id].answer == Some(true) && r.disk.files != w.disk.files ==>
                  ChangedAs(w.ops[id].change, w.disk, r.disk))
  {
    var change := PressedAsks(es, i);
    var w := Run(Start(), es);
    assert change == w.ops[At(es, i).ticket].change;
    hide Legal, Run, At, Under, MoveFiles, ChangedAs, Shows;
    if CanDo(w.disk, change) && Done(w.disk, change).files != w.disk.files {
      DoneAsAsked(w.disk, change);
    }
    hide Done;
  }

  /** Nothing on the disk is in the way of the change. */
  predicate Free(files: map<string, nat>, e: Event)
    requires e.PressCreate? || e.PressDelete? || e.PressMove?
  {
    match e
    case PressCreate(path) => forall k :: k in files ==> !Under(k, path)
    case PressDelete(path) => forall k :: k in files && k != path ==> !Under(k, path)
    case PressMove(from, to) => !Under(to, from) && forall k :: k in files ==> !Under(k, to)
  }

  // ----- Edits -----

  /** Typing changes the draft, and Discard brings back the loaded content; neither touches anything else. */
  lemma EditsAndDiscard(w: World, text: string)
    requires w.panel.file.Some?
    ensures Step(w, Type(text)) == w.(panel := w.panel.(draft := text))
    ensures Step(w, Discard) == w.(panel := w.panel.(draft := w.panel.file.value.content, conflict := false))
    ensures !Dirty(Step(w, Discard).panel) && (Dirty(Step(w, Type(text)).panel) <==> text != w.panel.file.value.content)
  {}
}
