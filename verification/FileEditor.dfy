/**
 * The protocol of frontend/src/FileEditorPanel.tsx (open, save, poll, and the tree's create, delete,
 * rename and move), run against a server that refuses a write whose expected mtime is not the current
 * one, with other writers on the same disk. A request is handled by the server at one moment and its
 * answer reaches the panel at a later one; everything else can happen in between.
 */
module FileEditor {
  import opened Text
  import opened PathTree
  import opened ProjectDisk

  // ----- The panel -----

  /** The open file as loaded. Its size is the length of its content. */
  datatype File = File(path: string, content: string, mtime: nat)

  datatype Note = NoNote | NonText(path: string) | OpenFailed(path: string) | Deleted(path: string)

  /** `epoch` counts changes of the open file's path, mtime or size: the instances of the change poll. */
  datatype Panel = Panel(file: Option<File>, draft: string, note: Note, conflict: bool, openSeq: nat, epoch: nat)

  predicate Dirty(p: Panel) {
    p.file.Some? && p.draft != p.file.value.content
  }

  predicate SamePollKey(a: Option<File>, b: Option<File>) {
    match (a, b)
    case (None, None) => true
    case (Some(f), Some(g)) => f.path == g.path && f.mtime == g.mtime && |f.content| == |g.content|
    case (_, _) => false
  }

  function SetFile(p: Panel, file: Option<File>): Panel {
    p.(file := file, epoch := if SamePollKey(p.file, file) then p.epoch else p.epoch + 1)
  }

  /** The part of `openFile` before its await. */
  function StartOpen(p: Panel): Panel {
    p.(openSeq := p.openSeq + 1, conflict := false)
  }

  /** The rest of `openFile` when the read succeeds. */
  function ReadLoaded(p: Panel, openSeq: nat, onlyIfClean: bool, loaded: File): Panel {
    if openSeq != p.openSeq then p
    else if onlyIfClean && Dirty(p) then p.(conflict := true)
    else SetFile(p, Some(loaded)).(draft := loaded.content, note := NoNote)
  }

  /** The rest of `openFile` when the read fails. */
  function ReadFailed(p: Panel, openSeq: nat, path: string, nonText: bool): Panel {
    if openSeq != p.openSeq then p
    else SetFile(p, None).(draft := "", note := if nonText then NonText(path) else OpenFailed(path))
  }

  /** The rest of `handleSave` when the write succeeds. */
  function SaveWritten(p: Panel, saved: string, mtime: nat): Panel {
    (if p.file.Some? then SetFile(p, Some(p.file.value.(content := saved, mtime := mtime))) else p).(conflict := false)
  }

  function SaveRefused(p: Panel): Panel {
    p.(conflict := true)
  }

  /** The poll saw the file change: with edits that is a conflict, otherwise a background reload starts. */
  function StatArrived(p: Panel, epoch: nat, mtime: nat, size: nat): Panel {
    if !StatChanged(p, epoch, mtime, size) then p
    else if Dirty(p) then p.(conflict := true)
    else StartOpen(p)
  }

  predicate StatChanged(p: Panel, epoch: nat, mtime: nat, size: nat) {
    p.file.Some? && epoch == p.epoch && !(mtime == p.file.value.mtime && size == |p.file.value.content|)
  }

  predicate StatReloads(p: Panel, epoch: nat, mtime: nat, size: nat) {
    StatChanged(p, epoch, mtime, size) && !Dirty(p)
  }

  function Discarded(p: Panel): Panel {
    if p.file.Some? then p.(draft := p.file.value.content, conflict := false) else p
  }

  /** The rest of `handleDelete` when the deleted file is the one it was pressed on with. */
  function DeletedHere(p: Panel, path: string): Panel {
    SetFile(p, None).(draft := "", note := Deleted(path))
  }

  /** The open file, text or not, as `handleDelete` and `openFileUnder` see it. */
  function Shown(p: Panel): Option<string> {
    if p.file.Some? then Some(p.file.value.path)
    else match p.note case NonText(path) => Some(path) case _ => None
  }

  /** Renaming or moving `from` takes the open file along. */
  function ShownUnder(p: Panel, from: string): Option<string> {
    match Shown(p)
    case Some(open) => if open != "" && Under(open, from) then Some(open) else None
    case None => None
  }

  // ----- The panel, its requests, and the disk -----

  datatype ReadAnswer = Loaded(content: string, mtime: nat) | Unreadable(nonText: bool)

  datatype WriteAnswer = Written(mtime: nat) | Refused | WriteError

  datatype Open = Open(path: string, onlyIfClean: bool, answer: Option<ReadAnswer>)

  /** `held` is the content the panel had loaded when Save was pressed. */
  datatype Save = Save(path: string, text: string, expected: Option<nat>, held: string, answer: Option<WriteAnswer>)

  datatype Stat = Stat(path: string, epoch: nat, answer: Option<(nat, nat)>)

  /**
   * What the tree asks for. `hit` and `follows` are decided by what was open when it was asked, not
   * when the answer arrives.
   */
  datatype Change =
    | Create(path: string)
    | Delete(path: string, hit: bool)
    | Move(from: string, to: string, follows: Option<string>)

  /** `answer` tells whether the server did it. */
  datatype Op = Op(change: Change, answer: Option<bool>)

  /** A write that went through: the number of the save, the save, and the version it replaced. */
  datatype Replaced = Replaced(id: nat, save: Save, version: nat)

  datatype World = World(
    panel: Panel,
    disk: Disk,
    opens: map<nat, Open>,
    saves: map<nat, Save>,
    stats: map<nat, Stat>,
    ops: map<nat, Op>,
    ticket: nat,
    replaced: seq<Replaced>
  )

  datatype Event =
    | Type(text: string)
    | PressSave(overwrite: bool)
    | Discard
    | OpenFile(path: string)
    | Poll
    | PressCreate(path: string)
    | PressDelete(path: string)
    | PressMove(from: string, to: string)
    | OtherWrites(path: string, content: string)
    | OtherDeletes(path: string)
    | OtherMoves(from: string, to: string)
    | ServeRead(openSeq: nat, fails: bool, nonText: bool)
    | ServeWrite(id: nat, fails: bool)
    | ServeStat(id: nat)
    | ServeOp(id: nat, fails: bool)
    | DeliverRead(openSeq: nat)
    | DeliverWrite(id: nat)
    | DeliverStat(id: nat)
    | DeliverOp(id: nat)

  /** Delete is disabled while the file, or one below the folder, has unsaved edits. */
  predicate Enabled(w: World, e: Event) {
    match e
    case Type(_) => w.panel.file.Some?
    case PressSave(_) => w.panel.file.Some?
    case Poll => w.panel.file.Some?
    case PressDelete(path) => !(Dirty(w.panel) && Under(w.panel.file.value.path, path))
    case OtherMoves(from, to) => CanMove(w.disk, from, to)
    case ServeRead(k, _, _) => k in w.opens && w.opens[k].answer.None?
    case ServeWrite(id, _) => id in w.saves && w.saves[id].answer.None?
    case ServeStat(id) => id in w.stats && w.stats[id].answer.None?
    case ServeOp(id, _) => id in w.ops && w.ops[id].answer.None?
    case DeliverRead(k) => k in w.opens && w.opens[k].answer.Some?
    case DeliverWrite(id) => id in w.saves && w.saves[id].answer.Some?
    case DeliverStat(id) => id in w.stats && w.stats[id].answer.Some?
    case DeliverOp(id) => id in w.ops && w.ops[id].answer.Some?
    case _ => true
  }

  function IssueOpen(w: World, path: string, onlyIfClean: bool): World {
    var p := StartOpen(w.panel);
    w.(panel := p, opens := w.opens[p.openSeq := Open(path, onlyIfClean, None)])
  }

  function IssueSave(w: World, overwrite: bool): World
    requires w.panel.file.Some?
  {
    var f := w.panel.file.value;
    w.(saves := w.saves[w.ticket := Save(f.path, w.panel.draft, if overwrite then None else Some(f.mtime), f.content, None)],
       ticket := w.ticket + 1)
  }

  function IssuePoll(w: World): World
    requires w.panel.file.Some?
  {
    w.(stats := w.stats[w.ticket := Stat(w.panel.file.value.path, w.panel.epoch, None)], ticket := w.ticket + 1)
  }

  function IssueOp(w: World, change: Change): World {
    w.(ops := w.ops[w.ticket := Op(change, None)], ticket := w.ticket + 1)
  }

  function DeleteOf(p: Panel, path: string): Change { Delete(path, Shown(p) == Some(path)) }

  function MoveOf(p: Panel, from: string, to: string): Change { Move(from, to, ShownUnder(p, from)) }

  function ReadNow(d: Disk, path: string, fails: bool, nonText: bool): ReadAnswer {
    if fails || path !in d.files || d.files[path] >= |d.history| then Unreadable(nonText)
    else Loaded(d.history[d.files[path]].content, d.files[path])
  }

  function ServeReadNow(w: World, k: nat, fails: bool, nonText: bool): World
    requires k in w.opens
  {
    w.(opens := w.opens[k := w.opens[k].(answer := Some(ReadNow(w.disk, w.opens[k].path, fails, nonText)))])
  }

  /** The server's write: no file is an error, a stale expected mtime is a conflict. */
  function WriteNow(w: World, id: nat, fails: bool): World
    requires id in w.saves
  {
    var s := w.saves[id];
    if fails || s.path !in w.disk.files then w.(saves := w.saves[id := s.(answer := Some(WriteError))])
    else if s.expected.Some? && s.expected.value != w.disk.files[s.path] then
      w.(saves := w.saves[id := s.(answer := Some(Refused))])
    else
      w.(disk := PutFile(w.disk, s.path, s.text),
         saves := w.saves[id := s.(answer := Some(Written(|w.disk.history|)))],
         replaced := w.replaced + [Replaced(id, s, w.disk.files[s.path])])
  }

  function StatNow(w: World, id: nat): World
    requires id in w.stats
  {
    var s := w.stats[id];
    if s.path in w.disk.files && w.disk.files[s.path] < |w.disk.history| then
      var m := w.disk.files[s.path];
      w.(stats := w.stats[id := s.(answer := Some((m, |w.disk.history[m].content|)))])
    else w.(stats := w.stats - {id})
  }

  /** The server can do it: nothing is in the way, and no folder with files is deleted. */
  predicate CanDo(d: Disk, change: Change) {
    match change
    case Create(path) => !Taken(d.files, path)
    case Delete(path, _) => !NotEmpty(d.files, path)
    case Move(from, to, _) => CanMove(d, from, to)
  }

  function Done(d: Disk, change: Change): Disk {
    match change
    case Create(path) => PutFile(d, path, "")
    case Delete(path, _) => RemoveFile(d, path)
    case Move(from, to, _) => MoveFiles(d, from, to)
  }

  function OpNow(w: World, id: nat, fails: bool): World
    requires id in w.ops
  {
    var op := w.ops[id];
    if fails || !CanDo(w.disk, op.change) then w.(ops := w.ops[id := op.(answer := Some(false))])
    else w.(disk := Done(w.disk, op.change), ops := w.ops[id := op.(answer := Some(true))])
  }

  function ReadArrives(w: World, k: nat): World
    requires k in w.opens && w.opens[k].answer.Some?
  {
    var o := w.opens[k];
    w.(opens := w.opens - {k},
       panel := match o.answer.value
                case Loaded(content, mtime) => ReadLoaded(w.panel, k, o.onlyIfClean, File(o.path, content, mtime))
                case Unreadable(nonText) => ReadFailed(w.panel, k, o.path, nonText))
  }

  function WriteArrives(w: World, id: nat): World
    requires id in w.saves && w.saves[id].answer.Some?
  {
    var s := w.saves[id];
    w.(saves := w.saves - {id},
       panel := match s.answer.value
                case Written(mtime) => SaveWritten(w.panel, s.text, mtime)
                case Refused => SaveRefused(w.panel)
                case WriteError => w.panel)
  }

  function StatArrives(w0: World, id: nat): World
    requires id in w0.stats && w0.stats[id].answer.Some?
  {
    var s := w0.stats[id];
    var w := w0.(stats := w0.stats - {id});
    var (mtime, size) := s.answer.value;
    if StatReloads(w.panel, s.epoch, mtime, size) then IssueOpen(w, s.path, true)
    else w.(panel := StatArrived(w.panel, s.epoch, mtime, size))
  }

  /** A created file is opened, a deleted one closed, and a moved one opened where it went. */
  function OpArrives(w0: World, id: nat): World
    requires id in w0.ops && w0.ops[id].answer.Some?
  {
    var op := w0.ops[id];
    var w := w0.(ops := w0.ops - {id});
    if !op.answer.value then w
    else match op.change
      case Create(path) => IssueOpen(w, path, false)
      case Delete(path, hit) => if hit then w.(panel := DeletedHere(w.panel, path)) else w
      case Move(from, to, follows) =>
        if follows.Some? then IssueOpen(w, MovedPath(follows.value, from, to), false) else w
  }

  function Step(w: World, e: Event): World
    requires Enabled(w, e)
  {
    match e
    case Type(text) => w.(panel := w.panel.(draft := text))
    case PressSave(overwrite) => IssueSave(w, overwrite)
    case Discard => w.(panel := Discarded(w.panel))
    case OpenFile(path) => IssueOpen(w, path, false)
    case Poll => IssuePoll(w)
    case PressCreate(path) => IssueOp(w, Create(path))
    case PressDelete(path) => IssueOp(w, DeleteOf(w.panel, path))
    case PressMove(from, to) => IssueOp(w, MoveOf(w.panel, from, to))
    case OtherWrites(path, content) => w.(disk := PutFile(w.disk, path, content))
    case OtherDeletes(path) => w.(disk := RemoveFile(w.disk, path))
    case OtherMoves(from, to) => w.(disk := MoveFiles(w.disk, from, to))
    case ServeRead(k, fails, nonText) => ServeReadNow(w, k, fails, nonText)
    case ServeWrite(id, fails) => WriteNow(w, id, fails)
    case ServeStat(id) => StatNow(w, id)
    case ServeOp(id, fails) => OpNow(w, id, fails)
    case DeliverRead(k) => ReadArrives(w, k)
    case DeliverWrite(id) => WriteArrives(w, id)
    case DeliverStat(id) => StatArrives(w, id)
    case DeliverOp(id) => OpArrives(w, id)
  }

  predicate Legal(w: World, es: seq<Event>)
    decreases |es|
  {
    es == [] || (Enabled(w, es[0]) && Legal(Step(w, es[0]), es[1..]))
  }

  function Run(w: World, es: seq<Event>): World
    requires Legal(w, es)
    decreases |es|
  {
    if es == [] then w else Run(Step(w, es[0]), es[1..])
  }

  /** Nothing open, nothing requested, an empty disk; `OtherWrites` puts files on it. */
  function Start(): World {
    World(Panel(None, "", NoNote, false, 0, 0), Disk([], map[], {}), map[], map[], map[], map[], 0, [])
  }

  lemma {:induction false} RunAppend(w: World, es: seq<Event>, e: Event)
    requires Legal(w, es) && Enabled(Run(w, es), e)
    ensures Legal(w, es + [e]) && Run(w, es + [e]) == Step(Run(w, es), e)
    decreases |es|
  {
    hide Step, Enabled;
    if es == [] {
      assert es + [e] == [e];
    } else {
      assert (es + [e])[1..] == es[1..] + [e];
      RunAppend(Step(w, es[0]), es[1..], e);
    }
  }

  // ----- What every run keeps -----

  predicate OpenInv(d: Disk, o: Open) {
    match o.answer
    case Some(Loaded(content, mtime)) => Remembers(d, mtime, content) && Lived(d, o.path, mtime)
    case _ => true
  }

  predicate SaveInv(d: Disk, s: Save) {
    && (s.expected.Some? ==> Remembers(d, s.expected.value, s.held))
    && (s.answer.Some? && s.answer.value.Written? ==>
          Remembers(d, s.answer.value.mtime, s.text) && d.history[s.answer.value.mtime].path == s.path)
  }

  /** A save that was not an overwrite replaced exactly the version the panel held. */
  predicate ReplacedInv(d: Disk, r: Replaced) {
    r.save.expected.Some? ==>
      r.version == r.save.expected.value && Lived(d, r.save.path, r.version) && Remembers(d, r.version, r.save.held)
  }

  predicate Inv(w: World) {
    && DiskInv(w.disk)
    && (w.panel.file.Some? ==> Remembers(w.disk, w.panel.file.value.mtime, w.panel.file.value.content))
    && (forall k :: k in w.opens ==> OpenInv(w.disk, w.opens[k]) && k <= w.panel.openSeq)
    && (forall id :: id in w.saves ==> SaveInv(w.disk, w.saves[id]))
    && (forall i :: 0 <= i < |w.replaced| ==> ReplacedInv(w.disk, w.replaced[i]))
  }

  lemma ExtendsKeepsInv(w: World, d: Disk)
    requires Inv(w) && Extends(w.disk, d) && DiskInv(d)
    ensures Inv(w.(disk := d))
  {
    ExtendsKeeps(w.disk, d);
    hide DiskInv, Lived, Remembers;
    forall k | k in w.opens ensures OpenInv(d, w.opens[k]) { assert OpenInv(w.disk, w.opens[k]); }
    forall id | id in w.saves ensures SaveInv(d, w.saves[id]) {
      assert SaveInv(w.disk, w.saves[id]);
      SameVersion(w.disk, d, w.saves[id]);
    }
    forall i | 0 <= i < |w.replaced| ensures ReplacedInv(d, w.replaced[i]) { assert ReplacedInv(w.disk, w.replaced[i]); }
  }

  lemma SameVersion(d: Disk, e: Disk, s: Save)
    requires SaveInv(d, s) && Extends(d, e)
    ensures SaveInv(e, s)
  {}

  lemma OpNowKeepsInv(w: World, id: nat, fails: bool)
    requires Inv(w) && id in w.ops
    ensures Inv(OpNow(w, id, fails))
  {
    hide OpenInv, SaveInv, ReplacedInv, Remembers;
    var change := w.ops[id].change;
    if !fails && CanDo(w.disk, change) {
      DoneKeepsDiskInv(w.disk, change);
      hide DiskInv, Extends, Done, CanDo;
      ExtendsKeepsInv(w, Done(w.disk, change));
    } else {
      hide DiskInv;
    }
  }

  lemma DoneKeepsDiskInv(d: Disk, change: Change)
    requires DiskInv(d) && CanDo(d, change)
    ensures DiskInv(Done(d, change)) && Extends(d, Done(d, change))
  {
    hide CanMove, MoveFiles, RemoveFile, PutFile, DiskInv;
    match change
    case Create(path) => PutKeepsDiskInv(d, path, "");
    case Delete(path, _) => RemoveKeepsDiskInv(d, path);
    case Move(from, to, _) => MoveKeepsDiskInv(d, from, to);
  }

  lemma IssueOpenKeepsInv(w: World, path: string, onlyIfClean: bool)
    requires Inv(w)
    ensures Inv(IssueOpen(w, path, onlyIfClean))
  {
    hide SaveInv, ReplacedInv, DiskInv, Remembers;
  }

  lemma ServeReadKeepsInv(w: World, k: nat, fails: bool, nonText: bool)
    requires Inv(w) && k in w.opens
    ensures Inv(ServeReadNow(w, k, fails, nonText))
  {
    hide SaveInv, ReplacedInv;
  }

  lemma IssueSaveKeepsInv(w: World, overwrite: bool)
    requires Inv(w) && w.panel.file.Some?
    ensures Inv(IssueSave(w, overwrite))
  {
    hide OpenInv, ReplacedInv, DiskInv, Remembers;
  }

  /** The heart of it: the expected mtime is current, so the version replaced is the one held. */
  lemma WriteNowKeepsInv(w: World, id: nat, fails: bool)
    requires Inv(w) && id in w.saves
    ensures Inv(WriteNow(w, id, fails))
  {
    var s := w.saves[id];
    assert SaveInv(w.disk, s);
    if fails || s.path !in w.disk.files || (s.expected.Some? && s.expected.value != w.disk.files[s.path]) {
      hide OpenInv, ReplacedInv, DiskInv, Remembers;
    } else {
      var d := PutFile(w.disk, s.path, s.text);
      PutKeepsDiskInv(w.disk, s.path, s.text);
      ExtendsKeeps(w.disk, d);
      ExtendsKeepsInv(w, d);
      assert SaveInv(d, s.(answer := Some(Written(|w.disk.history|))));
      assert ReplacedInv(d, Replaced(id, s, w.disk.files[s.path]));
      hide OpenInv, ReplacedInv, DiskInv, Remembers, SaveInv, PutFile;
    }
  }

  lemma ReadArrivesKeepsInv(w: World, k: nat)
    requires Inv(w) && k in w.opens && w.opens[k].answer.Some?
    ensures Inv(ReadArrives(w, k))
  {
    assert OpenInv(w.disk, w.opens[k]);
    hide SaveInv, ReplacedInv, DiskInv, Remembers, Lived;
  }

  lemma WriteArrivesKeepsInv(w: World, id: nat)
    requires Inv(w) && id in w.saves && w.saves[id].answer.Some?
    ensures Inv(WriteArrives(w, id))
  {
    assert SaveInv(w.disk, w.saves[id]);
    hide OpenInv, ReplacedInv, DiskInv, Remembers;
  }

  lemma StatArrivesKeepsInv(w: World, id: nat)
    requires Inv(w) && id in w.stats && w.stats[id].answer.Some?
    ensures Inv(StatArrives(w, id))
  {
    hide IssueOpen, OpenInv, SaveInv, ReplacedInv, DiskInv, Remembers;
    IssueOpenKeepsInv(w.(stats := w.stats - {id}), w.stats[id].path, true);
  }

  lemma OpArrivesKeepsInv(w: World, id: nat)
    requires Inv(w) && id in w.ops && w.ops[id].answer.Some?
    ensures Inv(OpArrives(w, id))
  {
    hide IssueOpen, OpenInv, SaveInv, ReplacedInv, DiskInv, Remembers, MovedPath;
    var w' := w.(ops := w.ops - {id});
    match w.ops[id].change
    case Create(path) => IssueOpenKeepsInv(w', path, false);
    case Delete(_, _) =>
    case Move(from, to, follows) =>
      if follows.Some? {
        IssueOpenKeepsInv(w', MovedPath(follows.value, from, to), false);
      }
  }

  lemma OtherWriterKeepsInv(w: World, e: Event)
    requires Inv(w) && Enabled(w, e) && (e.OtherWrites? || e.OtherDeletes? || e.OtherMoves?)
    ensures Inv(Step(w, e))
  {
    hide OpenInv, SaveInv, ReplacedInv, Remembers, DiskInv, CanMove, MoveFiles, RemoveFile, PutFile, Extends;
    match e {
      case OtherWrites(path, content) => PutKeepsDiskInv(w.disk, path, content);
      case OtherDeletes(path) => RemoveKeepsDiskInv(w.disk, path);
      case OtherMoves(from, to) => MoveKeepsDiskInv(w.disk, from, to);
    }
    ExtendsKeepsInv(w, Step(w, e).disk);
  }

  lemma StepKeepsInv(w: World, e: Event)
    requires Inv(w) && Enabled(w, e)
    ensures Inv(Step(w, e))
  {
    hide IssueOpen, IssueSave, WriteNow, ReadArrives, WriteArrives, StatArrives, OpNow, OpArrives, ServeReadNow;
    hide PutFile, RemoveFile, MoveFiles, CanMove, Under, DeleteOf, MoveOf;
    hide OpenInv, SaveInv, ReplacedInv, Remembers, DiskInv;
    match e
    case PressSave(overwrite) => IssueSaveKeepsInv(w, overwrite);
    case OpenFile(path) => IssueOpenKeepsInv(w, path, false);
    case OtherWrites(_, _) => OtherWriterKeepsInv(w, e);
    case OtherDeletes(_) => OtherWriterKeepsInv(w, e);
    case OtherMoves(_, _) => OtherWriterKeepsInv(w, e);
    case ServeRead(k, fails, nonText) => ServeReadKeepsInv(w, k, fails, nonText);
    case ServeWrite(id, fails) => WriteNowKeepsInv(w, id, fails);
    case ServeOp(id, fails) => OpNowKeepsInv(w, id, fails);
    case DeliverRead(k) => ReadArrivesKeepsInv(w, k);
    case DeliverWrite(id) => WriteArrivesKeepsInv(w, id);
    case DeliverStat(id) => StatArrivesKeepsInv(w, id);
    case DeliverOp(id) => OpArrivesKeepsInv(w, id);
    case _ =>
  }

  lemma {:induction false} RunKeepsInv(w: World, es: seq<Event>)
    requires Inv(w) && Legal(w, es)
    ensures Inv(Run(w, es))
    decreases |es|
  {
    hide Inv, Step, Enabled;
    if es != [] {
      StepKeepsInv(w, es[0]);
      RunKeepsInv(Step(w, es[0]), es[1..]);
    }
  }

  /**
   * No lost update: in every run, a save that was not an overwrite replaced the version the panel
   * held when Save was pressed, with that mtime and that content, and nothing newer.
   */
  lemma NoLostUpdate(es: seq<Event>)
    requires Legal(Start(), es)
    ensures var w := Run(Start(), es);
            forall i :: 0 <= i < |w.replaced| && w.replaced[i].save.expected.Some? ==>
              var r := w.replaced[i];
              r.version == r.save.expected.value && r.version < |w.disk.history| &&
              w.disk.history[r.version].content == r.save.held && Lived(w.disk, r.save.path, r.version)
  {
    RunKeepsInv(Start(), es);
    var w := Run(Start(), es);
    assert forall i :: 0 <= i < |w.replaced| ==> ReplacedInv(w.disk, w.replaced[i]);
  }

  // ----- What the panel does to the disk -----

  predicate ByOthers(e: Event) {
    e.OtherWrites? || e.OtherDeletes? || e.OtherMoves?
  }

  /** The versions known after a change, and how the files before and after correspond. */
  predicate ChangedAs(change: Change, d: Disk, e: Disk) {
    match change
    case Create(path) =>
      path !in d.files && e.files == d.files[path := |d.history|] && e.history == d.history + [Version(path, "")]
    case Delete(path, _) =>
      path in d.files && e.files == d.files - {path} && e.history == d.history
    case Move(from, to, _) =>
      && e.history == d.history
      && (forall k :: k in d.files ==>
            Destination(k, from, to) in e.files && e.files[Destination(k, from, to)] == d.files[k])
      && (forall q :: q in e.files ==>
            Destination(q, to, from) in d.files && Destination(Destination(q, to, from), from, to) == q)
  }

  /** Done as asked: a create replaces nothing, a delete takes one file, a move changes no version. */
  lemma DoneAsAsked(d: Disk, change: Change)
    requires CanDo(d, change) && Done(d, change).files != d.files
    ensures ChangedAs(change, d, Done(d, change))
  {
    hide Destination, CanMove, Under;
    match change
    case Create(path) => assert Under(path, path) by { UnderSelf(path); }
    case Delete(path, _) => assert path !in d.files ==> d.files - {path} == d.files;
    case Move(from, to, _) => MoveKeepsFiles(d, from, to);
  }

  lemma UnderSelf(path: string)
    ensures Under(path, path)
  {}

  /**
   * Apart from other writers, the files change only when a save reaches the server, and then that
   * save is on record with the version it replaced, or when a create, delete or move does, and then
   * as asked.
   */
  lemma DiskChangesAreRecorded(w: World, e: Event)
    requires Enabled(w, e)
    ensures Step(w, e).disk.files != w.disk.files && !ByOthers(e) ==>
            || (&& e.ServeWrite?
                && w.saves[e.id].path in w.disk.files
                && Step(w, e).replaced == w.replaced + [Replaced(e.id, w.saves[e.id], w.disk.files[w.saves[e.id].path])]
                && Step(w, e).disk.files == w.disk.files[w.saves[e.id].path := |w.disk.history|]
                && Step(w, e).disk.history == w.disk.history + [Version(w.saves[e.id].path, w.saves[e.id].text)])
            || (&& e.ServeOp?
                && Step(w, e).replaced == w.replaced
                && Step(w, e).ops[e.id].answer == Some(true)
                && ChangedAs(w.ops[e.id].change, w.disk, Step(w, e).disk))
  {
    hide ReadLoaded, ReadFailed, SaveWritten, StatArrived, StatReloads, ReadNow;
    hide ChangedAs, CanDo, Done, MoveFiles, Under, CanMove, Shown, ShownUnder, StartOpen;
    match e
    case ServeOp(id, fails) =>
      if !fails && CanDo(w.disk, w.ops[id].change) && Done(w.disk, w.ops[id].change).files != w.disk.files {
        DoneAsAsked(w.disk, w.ops[id].change);
      }
    case _ =>
  }

  /** Asking for this could put a file at `path`. */
  predicate Brings(change: Change, path: string) {
    match change
    case Create(target) => target == path
    case Delete(_, _) => false
    case Move(_, to, _) => Under(path, to)
  }

  /** Neither another writer nor a create, rename or move puts a file at `path`. */
  predicate BringsNot(e: Event, path: string) {
    match e
    case OtherWrites(target, _) => target != path
    case OtherMoves(_, to) => !Under(path, to)
    case PressCreate(target) => target != path
    case PressMove(_, to) => !Under(path, to)
    case _ => true
  }

  predicate Gone(w: World, path: string) {
    path !in w.disk.files && forall id :: id in w.ops ==> !Brings(w.ops[id].change, path)
  }

  lemma MoveElsewhere(d: Disk, from: string, to: string, path: string)
    requires path !in d.files && !Under(path, to)
    ensures path !in MoveFiles(d, from, to).files
  {}

  lemma OpKeepsGone(w: World, id: nat, fails: bool, path: string)
    requires Gone(w, path) && id in w.ops
    ensures Gone(OpNow(w, id, fails), path)
  {
    hide MoveFiles, Under, CanDo;
    assert !Brings(w.ops[id].change, path);
    if w.ops[id].change.Move? { MoveElsewhere(w.disk, w.ops[id].change.from, w.ops[id].change.to, path); }
  }

  lemma StepKeepsGone(w: World, e: Event, path: string)
    requires Gone(w, path) && Enabled(w, e) && BringsNot(e, path)
    ensures Gone(Step(w, e), path)
  {
    hide StartOpen, SetFile, ReadLoaded, ReadFailed, SaveWritten, StatArrived, StatReloads, ReadNow, MoveFiles, Under, CanMove, CanDo;
    hide Shown, ShownUnder, Dirty, MovedPath, OpNow;
    match e
    case OtherMoves(from, to) => MoveElsewhere(w.disk, from, to, path);
    case ServeOp(id, fails) => OpKeepsGone(w, id, fails, path);
    case _ =>
  }

  /**
   * A file gone from the disk stays gone however often it is saved, overwriting or not: it takes
   * another writer, a create, or a rename or move onto it.
   */
  lemma {:induction false} SavingNeverRecreates(w: World, es: seq<Event>, path: string)
    requires Legal(w, es) && Gone(w, path)
    requires forall i :: 0 <= i < |es| ==> BringsNot(es[i], path)
    ensures path !in Run(w, es).disk.files
    decreases |es|
  {
    if es != [] {
      hide Step, Enabled, Gone, BringsNot;
      StepKeepsGone(w, es[0], path);
      SavingNeverRecreates(Step(w, es[0]), es[1..], path);
    }
  }

  // ----- The panel after a successful save -----

  /** The loaded record is a version its own path has had. */
  predicate Genuine(d: Disk, f: File) {
    Remembers(d, f.mtime, f.content) && Lived(d, f.path, f.mtime)
  }

  /**
   * After a successful save the panel is dirty exactly when the live draft differs from the saved
   * text. Its record is genuine exactly when the open file is the saved one, or the saved version has
   * been moved to where the open file is.
   */
  lemma AfterSave(w: World, id: nat)
    requires Inv(w) && Enabled(w, DeliverWrite(id)) && w.saves[id].answer.value.Written? && w.panel.file.Some?
    ensures var p := WriteArrives(w, id).panel;
            var open := w.panel.file.value.path;
            && p.file.Some? && !p.conflict && p.draft == w.panel.draft
            && (Dirty(p) <==> w.panel.draft != w.saves[id].text)
            && (Genuine(w.disk, p.file.value) <==>
                  open == w.saves[id].path || (open, w.saves[id].answer.value.mtime) in w.disk.moved)
  {
    assert SaveInv(w.disk, w.saves[id]);
  }

  // ----- The change poll -----

  /** A stat of the live poll instance is about the open file. */
  predicate PollInv(w: World) {
    forall id :: id in w.stats ==>
      && w.stats[id].epoch <= w.panel.epoch
      && (w.stats[id].epoch == w.panel.epoch ==> w.panel.file.Some? && w.panel.file.value.path == w.stats[id].path)
  }

  /** The panel moves on: the poll starts anew unless the file is the same to it. */
  predicate PollMovesOn(p: Panel, q: Panel) {
    p.epoch <= q.epoch && (p.epoch == q.epoch ==> SamePollKey(p.file, q.file))
  }

  lemma StepMovesPollOn(w: World, e: Event)
    requires Enabled(w, e)
    ensures PollMovesOn(w.panel, Step(w, e).panel)
  {
    hide ReadNow, Dirty, Under, CanMove, CanDo, Done, MoveFiles, PutFile, MovedPath, Shown, ShownUnder;
    hide ServeReadNow, WriteNow, StatChanged, StatReloads;
    if e.ServeWrite? { assert Step(w, e).panel == w.panel by { WriteLeavesPanel(w, e.id, e.fails); } }
    if e.ServeRead? { assert Step(w, e).panel == w.panel by { ReadLeavesPanel(w, e.openSeq, e.fails, e.nonText); } }
  }

  lemma WriteLeavesPanel(w: World, id: nat, fails: bool)
    requires id in w.saves
    ensures WriteNow(w, id, fails).panel == w.panel
  {}

  lemma ReadLeavesPanel(w: World, k: nat, fails: bool, nonText: bool)
    requires k in w.opens
    ensures ServeReadNow(w, k, fails, nonText).panel == w.panel
  {}

  /** No stat changes what it is about, and a new one is about the open file. */
  lemma StepKeepsStats(w: World, e: Event)
    requires Enabled(w, e)
    ensures forall id :: id in Step(w, e).stats ==>
              var s := Step(w, e).stats[id];
              || (id in w.stats && s.path == w.stats[id].path && s.epoch == w.stats[id].epoch)
              || (e.Poll? && s.path == w.panel.file.value.path && s.epoch == w.panel.epoch)
  {
    hide ReadNow, Dirty, Under, CanMove, CanDo, Done, MoveFiles, PutFile, MovedPath, Shown, ShownUnder;
    hide SetFile, StartOpen, ReadLoaded, ReadFailed, SaveWritten, StatArrived, StatReloads;
  }

  lemma StepKeepsPollInv(w: World, e: Event)
    requires PollInv(w) && Enabled(w, e)
    ensures PollInv(Step(w, e))
  {
    StepMovesPollOn(w, e);
    StepKeepsStats(w, e);
    assert e.Poll? ==> Step(w, e).panel == w.panel;
    hide Step, Enabled;
  }

  lemma {:induction false} RunKeepsPollInv(w: World, es: seq<Event>)
    requires PollInv(w) && Legal(w, es)
    ensures PollInv(Run(w, es))
    decreases |es|
  {
    hide PollInv, Step, Enabled;
    if es != [] {
      StepKeepsPollInv(w, es[0]);
      RunKeepsPollInv(Step(w, es[0]), es[1..]);
    }
  }

  /** In every run, a background reload is of the file that is open when it starts, and finds no edits then. */
  lemma ReloadTargetsOpenFile(es: seq<Event>, id: nat)
    requires Legal(Start(), es) && Enabled(Run(Start(), es), DeliverStat(id))
    ensures var w := Run(Start(), es);
            var w' := StatArrives(w, id);
            w'.opens != w.opens ==>
              && w.panel.file.Some? && !Dirty(w.panel)
              && w'.panel.openSeq in w'.opens
              && w'.opens[w'.panel.openSeq] == Open(w.panel.file.value.path, true, None)
  {
    hide Run, Legal, Step;
    RunKeepsPollInv(Start(), es);
  }
}
