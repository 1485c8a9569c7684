/** Whole runs of one save: what is sent, what the server does with it, and what the panel makes of the answer. */
module FileSaves {
  import opened Text
  import opened PathTree
  import opened ProjectDisk
  import opened FileEditor

  lemma {:induction false} RunSplit(w: World, es: seq<Event>, i: nat)
    requires Legal(w, es) && i <= |es|
    ensures Legal(w, es[..i]) && Legal(Run(w, es[..i]), es[i..])
    ensures Run(w, es) == Run(Run(w, es[..i]), es[i..])
    decreases i
  {
    hide Step, Enabled;
    if i == 0 {
      assert es[..0] == [] && es[0..] == es;
    } else {
      assert es[..i][1..] == es[1..][..i - 1] && es[1..][i - 1..] == es[i..];
      RunSplit(Step(w, es[0]), es[1..], i - 1);
    }
  }

  /** Save numbers are new. */
  predicate Fresh(w: World) {
    && (forall id :: id in w.saves ==> id < w.ticket)
    && (forall i :: 0 <= i < |w.replaced| ==> w.replaced[i].id < w.ticket)
  }

  /** What the save `id` asks for, whether it is under way or has gone through. */
  predicate Asks(w: World, id: nat, request: Save) {
    && (id in w.saves ==> w.saves[id].(answer := None) == request)
    && (forall i :: 0 <= i < |w.replaced| && w.replaced[i].id == id ==> w.replaced[i].save.(answer := None) == request)
    && id < w.ticket
  }

  /** Apart from Save itself and the server's write, a step only takes saves away. */
  lemma SavesOnlyGo(w: World, e: Event)
    requires Enabled(w, e) && !e.PressSave? && !e.ServeWrite?
    ensures var r := Step(w, e);
            && r.replaced == w.replaced && w.ticket <= r.ticket
            && forall id :: id in r.saves ==> id in w.saves && r.saves[id] == w.saves[id]
  {
    hide StartOpen, SetFile, ReadLoaded, ReadFailed, SaveWritten, StatArrived, StatReloads, ReadNow, MoveFiles, PutFile;
    hide Shown, ShownUnder, Dirty, MovedPath, CanDo, Done, Under, CanMove;
  }

  lemma StepKeepsFresh(w: World, e: Event)
    requires Fresh(w) && Enabled(w, e)
    ensures Fresh(Step(w, e))
  {
    if !e.PressSave? && !e.ServeWrite? {
      SavesOnlyGo(w, e);
      hide Step, Enabled;
    } else {
      hide PutFile;
    }
  }

  lemma {:induction false} RunKeepsFresh(w: World, es: seq<Event>)
    requires Fresh(w) && Legal(w, es)
    ensures Fresh(Run(w, es))
    decreases |es|
  {
    hide Fresh, Step, Enabled;
    if es != [] {
      StepKeepsFresh(w, es[0]);
      RunKeepsFresh(Step(w, es[0]), es[1..]);
    }
  }

  lemma StepKeepsAsks(w: World, e: Event, id: nat, request: Save)
    requires Asks(w, id, request) && Enabled(w, e)
    ensures Asks(Step(w, e), id, request)
  {
    if !e.PressSave? && !e.ServeWrite? {
      SavesOnlyGo(w, e);
      hide Step, Enabled;
    } else {
      hide PutFile;
    }
  }

  lemma {:induction false} RunKeepsAsks(w: World, es: seq<Event>, id: nat, request: Save)
    requires Asks(w, id, request) && Legal(w, es)
    ensures Asks(Run(w, es), id, request)
    decreases |es|
  {
    hide Asks, Step, Enabled;
    if es != [] {
      StepKeepsAsks(w, es[0], id, request);
      RunKeepsAsks(Step(w, es[0]), es[1..], id, request);
    }
  }

  /** The save pressed at step `i` of a run. */
  predicate Pressed(es: seq<Event>, i: nat, overwrite: bool) {
    Legal(Start(), es) && i < |es| && es[i] == PressSave(overwrite)
  }

  /** The world in which step `i` of a run is taken. */
  function At(es: seq<Event>, i: nat): World
    requires Legal(Start(), es) && i <= |es|
  {
    RunSplit(Start(), es, i);
    Run(Start(), es[..i])
  }

  lemma PressedAsks(es: seq<Event>, i: nat, overwrite: bool)
    requires Pressed(es, i, overwrite)
    ensures var m := At(es, i);
            && m.panel.file.Some?
            && Asks(Run(Start(), es), m.ticket,
                    Save(m.panel.file.value.path, m.panel.draft, if overwrite then None else Some(m.panel.file.value.mtime),
                         m.panel.file.value.content, None))
  {
    RunSplit(Start(), es, i);
    var m, rest := At(es, i), es[i..];
    assert rest[0] == PressSave(overwrite) && Enabled(m, PressSave(overwrite)) && Legal(Step(m, rest[0]), rest[1..]);
    RunKeepsFresh(Start(), es[..i]);
    var f := m.panel.file.value;
    var request := Save(f.path, m.panel.draft, if overwrite then None else Some(f.mtime), f.content, None);
    assert Asks(Step(m, rest[0]), m.ticket, request);
    hide Asks, Step, Enabled;
    RunKeepsAsks(Step(m, rest[0]), rest[1..], m.ticket, request);
  }

  /**
   * Whatever a run does after Save is pressed: the request under way has the path, draft, mtime and
   * content that the panel had then, and what it replaces is exactly that version. Overwriting sends
   * the same without the mtime.
   */
  lemma SavedAsPressed(es: seq<Event>, i: nat, overwrite: bool)
    requires Pressed(es, i, overwrite)
    ensures At(es, i).panel.file.Some?
    ensures var m := At(es, i);
            var f := m.panel.file.value;
            var w := Run(Start(), es);
            && (m.ticket in w.saves ==>
                  var s := w.saves[m.ticket];
                  s.path == f.path && s.text == m.panel.draft && s.held == f.content &&
                  s.expected == if overwrite then None else Some(f.mtime))
            && (forall k :: 0 <= k < |w.replaced| && w.replaced[k].id == m.ticket ==>
                  var r := w.replaced[k];
                  && r.save.path == f.path && r.save.text == m.panel.draft
                  && (!overwrite ==>
                        r.version == f.mtime && Remembers(w.disk, r.version, f.content) && Lived(w.disk, f.path, r.version)))
  {
    PressedAsks(es, i, overwrite);
    RunKeepsInv(Start(), es);
    hide Legal, Run, At, Remembers, Lived;
    var w := Run(Start(), es);
    assert forall k :: 0 <= k < |w.replaced| ==> ReplacedInv(w.disk, w.replaced[k]);
  }

  /**
   * What the server does with it when it comes: a plain Save goes through exactly when the file is there
   * with the mtime the panel had when it was pressed, and is refused when it is there with another; an
   * overwriting one goes through whenever the file is there. It writes the draft of that moment, and
   * otherwise leaves the disk alone.
   */
  lemma SaveServed(es: seq<Event>, i: nat, overwrite: bool, fails: bool)
    requires Pressed(es, i, overwrite) && Enabled(Run(Start(), es), ServeWrite(At(es, i).ticket, fails))
    ensures At(es, i).panel.file.Some?
    ensures var m := At(es, i);
            var f := m.panel.file.value;
            var w := Run(Start(), es);
            var r := Step(w, ServeWrite(m.ticket, fails));
            var there := !fails && f.path in w.disk.files;
            && m.ticket in r.saves
            && (r.saves[m.ticket].answer == Some(Written(|w.disk.history|)) <==>
                  there && (overwrite || w.disk.files[f.path] == f.mtime))
            && (r.saves[m.ticket].answer == Some(Refused) <==> there && !overwrite && w.disk.files[f.path] != f.mtime)
            && (r.saves[m.ticket].answer == Some(WriteError) <==> !there)
            && (if there && (overwrite || w.disk.files[f.path] == f.mtime) then
                  r.disk.history == w.disk.history + [Version(f.path, m.panel.draft)] &&
                  r.disk.files == w.disk.files[f.path := |w.disk.history|]
                else r.disk == w.disk)
            && r.panel == w.panel
  {
    PressedAsks(es, i, overwrite);
    hide Legal, Run, At;
  }
}
