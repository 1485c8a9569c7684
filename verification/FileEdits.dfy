/** What becomes of unsaved edits in the file editor: the steps that take them, and the runs that do not. */
module FileEdits {
  import opened Text
  import opened PathTree
  import opened ProjectDisk
  import opened FileEditor

  /**
   * Exactly the steps that take unsaved edits away: Discard, a foreground open, a failed read, and
   * the answer to a delete that was confirmed while the file it names was the open one.
   */
  predicate TakesEdits(w: World, e: Event)
    requires Enabled(w, e)
  {
    match e
    case Discard => true
    case DeliverRead(k) =>
      k == w.panel.openSeq &&
      (match w.opens[k].answer.value
       case Loaded(content, _) => !w.opens[k].onlyIfClean && content != w.panel.draft
       case Unreadable(_) => w.panel.draft != "")
    case DeliverOp(id) =>
      w.ops[id].answer == Some(true) && w.ops[id].change.Delete? && w.ops[id].change.hit && w.panel.draft != ""
    case _ => false
  }

  lemma EditsLostIff(w: World, e: Event)
    requires Enabled(w, e) && Dirty(w.panel) && !e.Type?
    ensures Step(w, e).panel.draft != w.panel.draft <==> TakesEdits(w, e)
  {
    if OfServer(e) {
      ServerLeavesPanel(w, e);
    } else {
      hide ReadNow, StatReloads, StatChanged, CanDo, Done, Under, MovedPath, CanMove, MoveFiles, PutFile, Shown, ShownUnder;
      hide ServeReadNow, StatNow, WriteNow, OpNow;
    }
  }

  predicate OfServer(e: Event) {
    e.ServeRead? || e.ServeWrite? || e.ServeStat? || e.ServeOp? || ByOthers(e)
  }

  lemma ServerLeavesPanel(w: World, e: Event)
    requires Enabled(w, e) && OfServer(e)
    ensures Step(w, e).panel == w.panel
  {
    hide CanDo, Done, MoveFiles, PutFile, ReadNow, CanMove, Under;
  }

  // ----- One file open, and nothing under way that would replace it -----

  predicate OnDisk(d: Disk, path: string, text: string) {
    exists m :: 0 <= m < |d.history| && d.history[m].content == text && Lived(d, path, m)
  }

  /** The answer leaves the panel alone. */
  predicate Harmless(change: Change) {
    match change
    case Create(_) => false
    case Delete(_, hit) => !hit
    case Move(_, _, follows) => follows.None?
  }

  /** The panel has `path` open, and no request under way is about to put another file in its place. */
  predicate OnePath(w: World, path: string) {
    && w.panel.file.Some? && w.panel.file.value.path == path && Genuine(w.disk, w.panel.file.value)
    && (forall k :: k in w.opens ==> w.opens[k].path == path && w.opens[k].onlyIfClean)
    && (forall id :: id in w.saves ==> w.saves[id].path == path)
    && (forall id :: id in w.stats ==> w.stats[id].path == path)
    && (forall id :: id in w.ops ==> Harmless(w.ops[id].change))
  }

  /** No foreground open, no Discard, no tree change that concerns the open file, no failed read. */
  predicate Calm(w: World, e: Event)
    requires Enabled(w, e)
  {
    match e
    case OpenFile(_) => false
    case Discard => false
    case PressCreate(_) => false
    case PressDelete(path) => Shown(w.panel) != Some(path)
    case PressMove(from, _) => ShownUnder(w.panel, from).None?
    case DeliverRead(k) => w.opens[k].answer.value.Loaded?
    case _ => true
  }

  predicate CalmRun(w: World, es: seq<Event>)
    requires Legal(w, es)
    decreases |es|
  {
    es == [] || (Calm(w, es[0]) && CalmRun(Step(w, es[0]), es[1..]))
  }

  lemma ReadKeepsOnePath(w: World, k: nat, path: string)
    requires Inv(w) && OnePath(w, path) && Enabled(w, DeliverRead(k)) && Calm(w, DeliverRead(k))
    ensures OnePath(ReadArrives(w, k), path)
  {
    assert OpenInv(w.disk, w.opens[k]);
    hide Inv, Dirty, Harmless;
  }

  lemma WriteKeepsOnePath(w: World, id: nat, path: string)
    requires Inv(w) && OnePath(w, path) && Enabled(w, DeliverWrite(id))
    ensures OnePath(WriteArrives(w, id), path)
  {
    assert SaveInv(w.disk, w.saves[id]);
    hide Inv, Harmless;
  }

  lemma StatKeepsOnePath(w: World, id: nat, path: string)
    requires OnePath(w, path) && Enabled(w, DeliverStat(id))
    ensures OnePath(StatArrives(w, id), path)
  {
    hide Dirty, Genuine, Harmless;
  }

  /** The disk grows by versions and moves; nothing else in `OnePath` is about it. */
  lemma DiskKeepsOnePath(w: World, d: Disk, path: string)
    requires OnePath(w, path) && Extends(w.disk, d)
    ensures OnePath(w.(disk := d), path)
  {
    ExtendsKeeps(w.disk, d);
    hide Harmless, Extends, Lived, Remembers;
  }

  lemma ServeWriteKeepsOnePath(w: World, id: nat, fails: bool, path: string)
    requires OnePath(w, path) && id in w.saves
    ensures OnePath(WriteNow(w, id, fails), path) && Extends(w.disk, WriteNow(w, id, fails).disk)
  {
    hide Genuine, Harmless;
    DiskKeepsOnePath(w, PutFile(w.disk, w.saves[id].path, w.saves[id].text), path);
  }

  lemma ServeOpKeepsOnePath(w: World, id: nat, fails: bool, path: string)
    requires Inv(w) && OnePath(w, path) && id in w.ops
    ensures OnePath(OpNow(w, id, fails), path) && Extends(w.disk, OpNow(w, id, fails).disk)
  {
    hide Genuine, Harmless, Done, CanDo;
    if CanDo(w.disk, w.ops[id].change) {
      DoneKeepsDiskInv(w.disk, w.ops[id].change);
      DiskKeepsOnePath(w, Done(w.disk, w.ops[id].change), path);
    }
  }

  lemma OthersKeepOnePath(w: World, e: Event, path: string)
    requires Inv(w) && OnePath(w, path) && Enabled(w, e) && ByOthers(e)
    ensures OnePath(Step(w, e), path) && Extends(w.disk, Step(w, e).disk)
  {
    hide OnePath, MoveFiles, CanMove;
    match e {
      case OtherWrites(other, content) => PutKeepsDiskInv(w.disk, other, content);
      case OtherDeletes(other) => RemoveKeepsDiskInv(w.disk, other);
      case OtherMoves(from, to) => MoveKeepsDiskInv(w.disk, from, to);
    }
    hide Extends, PutFile, RemoveFile;
    DiskKeepsOnePath(w, Step(w, e).disk, path);
  }

  /** Every step that changes neither the disk nor the open file. */
  lemma RequestsKeepOnePath(w: World, e: Event, path: string)
    requires OnePath(w, path) && Enabled(w, e) && Calm(w, e)
    requires e.Type? || e.PressSave? || e.Poll? || e.PressDelete? || e.PressMove? || e.ServeRead? || e.ServeStat? || e.DeliverOp?
    ensures OnePath(Step(w, e), path) && Step(w, e).disk == w.disk
  {
    hide Genuine, ReadNow, ReadArrives, WriteArrives, StatArrives, WriteNow, OpNow, CanMove, Under, MovedPath, Shown, ShownUnder;
    hide Dirty, PutFile, MoveFiles, RemoveFile;
    if e.DeliverOp? { assert Harmless(w.ops[e.id].change); }
  }

  lemma CalmStepKeepsOnePath(w: World, e: Event, path: string)
    requires Inv(w) && OnePath(w, path) && Enabled(w, e) && Calm(w, e)
    ensures OnePath(Step(w, e), path)
    ensures Extends(w.disk, Step(w, e).disk)
  {
    hide OnePath, Inv, PutFile, MoveFiles, RemoveFile, Under, CanMove, MovedPath, WriteNow, OpNow, Shown, ShownUnder;
    match e
    case DeliverRead(k) => ReadKeepsOnePath(w, k, path);
    case DeliverWrite(id) => WriteKeepsOnePath(w, id, path);
    case DeliverStat(id) => StatKeepsOnePath(w, id, path);
    case OtherWrites(_, _) => OthersKeepOnePath(w, e, path);
    case OtherDeletes(_) => OthersKeepOnePath(w, e, path);
    case OtherMoves(_, _) => OthersKeepOnePath(w, e, path);
    case ServeWrite(id, fails) => ServeWriteKeepsOnePath(w, id, fails, path);
    case ServeOp(id, fails) => ServeOpKeepsOnePath(w, id, fails, path);
    case _ => RequestsKeepOnePath(w, e, path);
  }

  // ----- What such runs keep -----

  /** The draft changes only when the panel was clean, by a reload. */
  lemma CalmStepKeepsDraft(w: World, e: Event, path: string)
    requires OnePath(w, path) && Enabled(w, e) && Calm(w, e) && !e.Type?
    ensures Step(w, e).panel.draft == w.panel.draft || !Dirty(w.panel)
    ensures !e.DeliverWrite? && Dirty(w.panel) ==> Step(w, e).panel.file == w.panel.file
  {
    hide Step, Enabled;
    if Dirty(w.panel) {
      EditsLostIff(w, e);
      CalmTakesNothing(w, e, path);
      if !e.DeliverWrite? { FileStays(w, e, path); }
    }
  }

  lemma CalmTakesNothing(w: World, e: Event, path: string)
    requires OnePath(w, path) && Enabled(w, e) && Calm(w, e)
    ensures !TakesEdits(w, e)
  {
    hide Genuine;
    if e.DeliverOp? { assert Harmless(w.ops[e.id].change); }
  }

  lemma FileStays(w: World, e: Event, path: string)
    requires OnePath(w, path) && Enabled(w, e) && Calm(w, e) && !e.Type? && !e.DeliverWrite? && Dirty(w.panel)
    ensures Step(w, e).panel.file == w.panel.file
  {
    hide Genuine, Under, CanMove, MovedPath, Shown, ShownUnder, MoveFiles, PutFile, RemoveFile, CanDo, Done, ReadNow;
    if OfServer(e) { ServerLeavesPanel(w, e); }
    hide ServeReadNow, StatNow, WriteNow, OpNow, OfServer;
  }

  /**
   * Unsaved edits stay: over any run of background reloads, polls, other writers and changes elsewhere
   * in the tree, with no save, the draft and the record it was edited from are the same.
   */
  lemma {:induction false} EditsStay(w: World, es: seq<Event>, path: string)
    requires Inv(w) && OnePath(w, path) && Legal(w, es) && CalmRun(w, es) && Dirty(w.panel) && w.saves == map[]
    requires forall i :: 0 <= i < |es| ==> !es[i].Type? && !es[i].PressSave?
    ensures Run(w, es).panel.file == w.panel.file && Run(w, es).panel.draft == w.panel.draft
    decreases |es|
  {
    hide Inv, OnePath, Step, Enabled, Calm;
    if es != [] {
      var w' := Step(w, es[0]);
      NoSaveAppears(w, es[0]);
      CalmStepKeepsDraft(w, es[0], path);
      CalmStepKeepsOnePath(w, es[0], path);
      StepKeepsInv(w, es[0]);
      EditsStay(w', es[1..], path);
    }
  }

  /** The step finds that the file has changed on disk: the latest read arrives, or a poll sees another version. */
  predicate Notices(w: World, e: Event)
    requires Enabled(w, e)
  {
    match e
    case DeliverRead(k) => k == w.panel.openSeq
    case DeliverStat(id) =>
      StatChanged(w.panel, w.stats[id].epoch, w.stats[id].answer.value.0, w.stats[id].answer.value.1)
    case _ => false
  }

  predicate SomeNotices(w: World, es: seq<Event>)
    requires Legal(w, es)
    decreases |es|
  {
    es != [] && (Notices(w, es[0]) || SomeNotices(Step(w, es[0]), es[1..]))
  }

  lemma NoticeRaisesConflict(w: World, e: Event, path: string)
    requires OnePath(w, path) && Enabled(w, e) && Calm(w, e) && !e.Type? && !e.DeliverWrite? && Dirty(w.panel)
    ensures Step(w, e).panel.conflict == (w.panel.conflict || Notices(w, e))
  {
    hide Genuine, Under, CanMove, MovedPath, Shown, ShownUnder, MoveFiles, PutFile, RemoveFile, CanDo, Done, ReadNow;
    if OfServer(e) { ServerLeavesPanel(w, e); }
    if e.DeliverOp? { assert Harmless(w.ops[e.id].change); }
    hide ServeReadNow, StatNow, WriteNow, OpNow, OfServer;
  }

  /**
   * And the change is not passed over: in such a run the conflict flag is up at the end exactly when it
   * was up before, or some read or poll on the way found that the file had changed.
   */
  lemma {:induction false} ConflictRaisedIff(w: World, es: seq<Event>, path: string)
    requires Inv(w) && OnePath(w, path) && Legal(w, es) && CalmRun(w, es) && Dirty(w.panel) && w.saves == map[]
    requires forall i :: 0 <= i < |es| ==> !es[i].Type? && !es[i].PressSave?
    ensures Run(w, es).panel.conflict == (w.panel.conflict || SomeNotices(w, es))
    decreases |es|
  {
    hide Inv, OnePath, Step, Enabled, Calm, Notices;
    if es != [] {
      var w' := Step(w, es[0]);
      NoSaveAppears(w, es[0]);
      NoticeRaisesConflict(w, es[0], path);
      CalmStepKeepsDraft(w, es[0], path);
      CalmStepKeepsOnePath(w, es[0], path);
      StepKeepsInv(w, es[0]);
      ConflictRaisedIff(w', es[1..], path);
    }
  }

  lemma NoSaveAppears(w: World, e: Event)
    requires Enabled(w, e) && w.saves == map[] && !e.PressSave?
    ensures Step(w, e).saves == map[] && !e.DeliverWrite?
  {
    hide StartOpen, SetFile, ReadLoaded, ReadFailed, SaveWritten, StatArrived, StatReloads, ReadNow, MoveFiles, Under, CanMove;
    hide Shown, ShownUnder, Dirty, MovedPath, CanDo, Done;
  }

  lemma CleanDraftIsOnDisk(w: World, path: string)
    requires OnePath(w, path) && !Dirty(w.panel)
    ensures OnDisk(w.disk, path, w.panel.draft)
  {
    var f := w.panel.file.value;
    assert w.disk.history[f.mtime].content == f.content;
  }

  lemma OnDiskStays(d: Disk, e: Disk, path: string, text: string)
    requires OnDisk(d, path, text) && Extends(d, e)
    ensures OnDisk(e, path, text)
  {
    var m :| 0 <= m < |d.history| && d.history[m].content == text && Lived(d, path, m);
    assert e.history[m] == d.history[m];
  }

  /**
   * Typed text is never dropped unseen: over any run of background work, saves, other writers and
   * changes elsewhere in the tree, the draft is still the draft, or it has been the file's content.
   */
  lemma {:induction false} TypedTextSurvives(w: World, es: seq<Event>, path: string)
    requires Inv(w) && OnePath(w, path) && Legal(w, es) && CalmRun(w, es)
    requires forall i :: 0 <= i < |es| ==> !es[i].Type?
    ensures Run(w, es).panel.draft == w.panel.draft || OnDisk(Run(w, es).disk, path, w.panel.draft)
    ensures Extends(w.disk, Run(w, es).disk)
    decreases |es|
  {
    hide Inv, OnePath, Step, Enabled, Calm, OnDisk, Dirty;
    if es != [] {
      var w' := Step(w, es[0]);
      CalmStepKeepsDraft(w, es[0], path);
      CalmStepKeepsOnePath(w, es[0], path);
      StepKeepsInv(w, es[0]);
      TypedTextSurvives(w', es[1..], path);
      if !Dirty(w.panel) {
        CleanDraftIsOnDisk(w, path);
        OnDiskStays(w.disk, Run(w, es).disk, path, w.panel.draft);
      }
    }
  }
}
