/** Whole runs of the change poll and of an open: which answers count, and what the panel does with them. */
module FilePolls {
  import opened Text
  import opened PathTree
  import opened ProjectDisk
  import opened FileEditor
  import opened FileSaves

  /** The open file is the same to a poll: none in both, or the same path, mtime and size. */
  predicate SameFile(a: Option<File>, b: Option<File>) {
    && (a.Some? <==> b.Some?)
    && (a.Some? ==> a.value.path == b.value.path && a.value.mtime == b.value.mtime && |a.value.content| == |b.value.content|)
  }

  /** How often the open file became another one to a poll. */
  function Changes(w: World, es: seq<Event>): nat
    requires Legal(w, es)
    decreases |es|
  {
    if es == [] then 0
    else (if SameFile(w.panel.file, Step(w, es[0]).panel.file) then 0 else 1) + Changes(Step(w, es[0]), es[1..])
  }

  lemma StepCountsChange(w: World, e: Event)
    requires Enabled(w, e)
    ensures Step(w, e).panel.epoch == w.panel.epoch + (if SameFile(w.panel.file, Step(w, e).panel.file) then 0 else 1)
  {
    hide ReadNow, Dirty, Under, CanMove, CanDo, Done, MoveFiles, PutFile, MovedPath, Shown, ShownUnder;
    hide ServeReadNow, WriteNow, StatChanged, StatReloads;
    if e.ServeWrite? { WriteLeavesPanel(w, e.id, e.fails); }
    if e.ServeRead? { ReadLeavesPanel(w, e.openSeq, e.fails, e.nonText); }
  }

  lemma {:induction false} RunCountsChanges(w: World, es: seq<Event>)
    requires Legal(w, es)
    ensures Run(w, es).panel.epoch == w.panel.epoch + Changes(w, es)
    ensures Changes(w, es) == 0 ==> SameFile(w.panel.file, Run(w, es).panel.file)
    decreases |es|
  {
    hide Step, Enabled;
    if es != [] {
      StepCountsChange(w, es[0]);
      RunCountsChanges(Step(w, es[0]), es[1..]);
    }
  }

  /** A stat under way asks about `path` for the poll started at `epoch`. */
  predicate AsksStat(w: World, id: nat, path: string, epoch: nat) {
    id < w.ticket && (id in w.stats ==> w.stats[id].path == path && w.stats[id].epoch == epoch)
  }

  lemma StepKeepsStat(w: World, e: Event, id: nat, path: string, epoch: nat)
    requires AsksStat(w, id, path, epoch) && Enabled(w, e)
    ensures AsksStat(Step(w, e), id, path, epoch)
  {
    hide ReadNow, Dirty, Under, CanMove, CanDo, Done, MoveFiles, PutFile, MovedPath, Shown, ShownUnder;
    hide SetFile, StartOpen, ReadLoaded, ReadFailed, SaveWritten, StatArrived, StatReloads;
  }

  lemma {:induction false} RunKeepsStat(w: World, es: seq<Event>, id: nat, path: string, epoch: nat)
    requires AsksStat(w, id, path, epoch) && Legal(w, es)
    ensures AsksStat(Run(w, es), id, path, epoch)
    decreases |es|
  {
    hide AsksStat, Step, Enabled;
    if es != [] {
      StepKeepsStat(w, es[0], id, path, epoch);
      RunKeepsStat(Step(w, es[0]), es[1..], id, path, epoch);
    }
  }

  predicate Polled(es: seq<Event>, i: nat) {
    Legal(Start(), es) && i < |es| && es[i] == Poll
  }

  /** The open file has been the same to the poll since step `i`. */
  predicate UnchangedSince(es: seq<Event>, i: nat)
    requires Polled(es, i)
  {
    RunSplit(Start(), es, i);
    Changes(At(es, i), es[i..]) == 0
  }

  lemma PolledFile(es: seq<Event>, i: nat)
    requires Polled(es, i)
    ensures var m := At(es, i);
            && m.panel.file.Some?
            && AsksStat(Run(Start(), es), m.ticket, m.panel.file.value.path, m.panel.epoch)
            && (Run(Start(), es).panel.epoch == m.panel.epoch <==> UnchangedSince(es, i))
            && (UnchangedSince(es, i) ==> SameFile(m.panel.file, Run(Start(), es).panel.file))
  {
    RunSplit(Start(), es, i);
    var m, rest := At(es, i), es[i..];
    assert rest[0] == Poll && Enabled(m, Poll) && Legal(Step(m, rest[0]), rest[1..]);
    RunCountsChanges(m, rest);
    assert AsksStat(Step(m, rest[0]), m.ticket, m.panel.file.value.path, m.panel.epoch);
    hide AsksStat, Step, Enabled;
    RunKeepsStat(Step(m, rest[0]), rest[1..], m.ticket, m.panel.file.value.path, m.panel.epoch);
  }

  /**
   * The answer to a poll, whatever happened since it was sent: it counts only while the open file has
   * been the same. Then another mtime or size raises the conflict on a panel with edits, and starts a
   * background read of the file on one without; the same mtime and size change nothing.
   */
  lemma PollAnswered(es: seq<Event>, i: nat)
    requires Polled(es, i) && Enabled(Run(Start(), es), DeliverStat(At(es, i).ticket))
    ensures At(es, i).panel.file.Some?
    ensures var m := At(es, i);
            var f := m.panel.file.value;
            var w := Run(Start(), es);
            var (mtime, size) := w.stats[m.ticket].answer.value;
            var r := Step(w, DeliverStat(m.ticket));
            var news := UnchangedSince(es, i) && (mtime != f.mtime || size != |f.content|);
            && (!news ==> r.panel == w.panel && r.opens == w.opens)
            && (news && Dirty(w.panel) ==> r.panel == w.panel.(conflict := true) && r.opens == w.opens)
            && (news && !Dirty(w.panel) ==>
                  && r.panel == w.panel.(conflict := false, openSeq := w.panel.openSeq + 1)
                  && r.opens == w.opens[w.panel.openSeq + 1 := Open(f.path, true, None)])
  {
    PolledFile(es, i);
    hide Legal, Run, At, UnchangedSince, Dirty;
  }

  /** What the server puts into the answer: the current version of the file, or nothing when it is gone. */
  lemma StatServed(es: seq<Event>, i: nat)
    requires Polled(es, i) && Enabled(Run(Start(), es), ServeStat(At(es, i).ticket))
    ensures At(es, i).panel.file.Some?
    ensures var path := At(es, i).panel.file.value.path;
            var id := At(es, i).ticket;
            var w := Run(Start(), es);
            var r := Step(w, ServeStat(id));
            && r.panel == w.panel && r.disk == w.disk
            && (id in r.stats <==> path in w.disk.files)
            && (path in w.disk.files ==>
                  var m := w.disk.files[path];
                  m < |w.disk.history| && r.stats[id].answer == Some((m, |w.disk.history[m].content|)))
  {
    PolledFile(es, i);
    RunKeepsInv(Start(), es);
    assert DiskInv(Run(Start(), es).disk);
    hide Legal, Run, At, UnchangedSince, Inv;
  }

  // ----- The answer to a save -----

  /** A refused save raises the conflict and keeps everything else; a failed one changes nothing. */
  lemma SaveAnswered(w: World, id: nat)
    requires Enabled(w, DeliverWrite(id))
    ensures var p := Step(w, DeliverWrite(id)).panel;
            && (w.saves[id].answer == Some(Refused) ==> p == w.panel.(conflict := true))
            && (w.saves[id].answer == Some(WriteError) ==> p == w.panel)
            && (w.saves[id].answer.value.Written? && w.panel.file.None? ==> p == w.panel.(conflict := false))
            && (w.saves[id].answer.value.Written? && w.panel.file.Some? ==>
                  && p.file == Some(File(w.panel.file.value.path, w.saves[id].text, w.saves[id].answer.value.mtime))
                  && p.draft == w.panel.draft && p.note == w.panel.note && !p.conflict && p.openSeq == w.panel.openSeq)
    ensures id !in Step(w, DeliverWrite(id)).saves
  {}
}
