/**
 * The state of frontend/src/FileEditorPanel.tsx that `openFile`, `handleSave`, the change poll and the
 * tree's mutations update, as an object. Each asynchronous function is cut at its await: one method
 * sends the request, another handles its answer. `trace` is the run the object has been through: each
 * method adds its event, and `Valid` says that the fields are what that run of `FileEditor` gives.
 */
module EditorPanel {
  import opened Text
  import opened PathTree
  import opened ProjectDisk
  import opened FileEditor
  import opened FileEdits
  import FileSaves

  class Editor {
    var file: Option<File>
    var draft: string
    var note: Note
    var conflict: bool
    var openSeq: nat
    var epoch: nat  // which instance of the change poll is live
    ghost var trace: seq<Event>

    ghost function Now(): Panel
      reads this
    {
      Panel(file, draft, note, conflict, openSeq, epoch)
    }

    ghost predicate Valid()
      reads this
    {
      Legal(Start(), trace) && Now() == Run(Start(), trace).panel
    }

    /** The panel with its requests and the disk. */
    ghost function Around(): World
      reads this
      requires Valid()
    {
      Run(Start(), trace)
    }

    constructor ()
      ensures Valid() && trace == []
    {
      file, draft, note, conflict, openSeq, epoch := None, "", NoNote, false, 0, 0;
      trace := [];
    }

    ghost method Record(e: Event)
      requires Legal(Start(), trace) && Enabled(Run(Start(), trace), e)
      modifies this`trace
      ensures trace == old(trace) + [e]
      ensures Legal(Start(), trace) && Run(Start(), trace) == Step(Run(Start(), old(trace)), e)
    {
      RunAppend(Start(), trace, e);
      trace := trace + [e];
    }

    /** The server, or another writer, does something. */
    ghost method Elsewhere(e: Event)
      requires Valid() && Enabled(Around(), e) && OfServer(e)
      modifies this`trace
      ensures Valid() && trace == old(trace) + [e]
    {
      ServerLeavesPanel(Around(), e);
      Record(e);
    }

    predicate IsDirty()
      reads this
      ensures IsDirty() <==> Dirty(Now())
    {
      file.Some? && draft != file.value.content
    }

    /** `setFile`: a new path, mtime or size restarts the change poll. */
    method AssignFile(next: Option<File>)
      modifies this`file, this`epoch
      ensures Now() == SetFile(old(Now()), next)
    {
      if !SamePollKey(file, next) {
        epoch := epoch + 1;
      }
      file := next;
    }

    // ----- openFile -----

    method StartOpening() returns (started: nat)
      modifies this`openSeq, this`conflict
      ensures Now() == StartOpen(old(Now())) && started == openSeq
    {
      openSeq := openSeq + 1;
      conflict := false;
      return openSeq;
    }

    method BeginOpen(path: string) returns (started: nat)
      requires Valid()
      modifies this
      ensures Valid() && trace == old(trace) + [OpenFile(path)]
      ensures Around().opens == old(Around().opens)[started := Open(path, false, None)]
    {
      hide Run, Legal;
      started := StartOpening();
      Record(OpenFile(path));
    }

    method ShowLoaded(started: nat, onlyIfClean: bool, loaded: File)
      modifies this`file, this`epoch, this`draft, this`note, this`conflict
      ensures Now() == ReadLoaded(old(Now()), started, onlyIfClean, loaded)
    {
      if started != openSeq {
        return;
      }
      if onlyIfClean && IsDirty() {
        conflict := true;
        return;
      }
      AssignFile(Some(loaded));
      draft := loaded.content;
      note := NoNote;
    }

    method OpenLoaded(started: nat, onlyIfClean: bool, loaded: File)
      requires Valid() && started in Around().opens
      requires Around().opens[started] == Open(loaded.path, onlyIfClean, Some(Loaded(loaded.content, loaded.mtime)))
      modifies this
      ensures Valid() && trace == old(trace) + [DeliverRead(started)]
    {
      hide Run, Legal, ReadLoaded;
      ShowLoaded(started, onlyIfClean, loaded);
      Record(DeliverRead(started));
    }

    method ShowFailure(started: nat, path: string, nonText: bool)
      modifies this`file, this`epoch, this`draft, this`note
      ensures Now() == ReadFailed(old(Now()), started, path, nonText)
    {
      if started != openSeq {
        return;
      }
      AssignFile(None);
      draft := "";
      note := if nonText then NonText(path) else OpenFailed(path);
    }

    method OpenRejected(started: nat, path: string, nonText: bool)
      requires Valid() && started in Around().opens
      requires Around().opens[started].path == path && Around().opens[started].answer == Some(Unreadable(nonText))
      modifies this
      ensures Valid() && trace == old(trace) + [DeliverRead(started)]
    {
      hide Run, Legal, ReadFailed;
      ShowFailure(started, path, nonText);
      Record(DeliverRead(started));
    }

    // ----- handleSave -----

    /** Save: the request sent is the one the run then has under way, under the next number. */
    method BeginSave(overwrite: bool) returns (request: Option<Save>)
      requires Valid()
      modifies this`trace
      ensures Valid() && (request.None? <==> file.None?)
      ensures request.None? ==> trace == old(trace)
      ensures request.Some? ==>
                && trace == old(trace) + [PressSave(overwrite)]
                && Around().saves == old(Around().saves)[old(Around().ticket) := request.value]
                && request.value.path == file.value.path && request.value.text == draft
                && request.value.held == file.value.content
                && (request.value.expected.Some? <==> !overwrite)
                && (!overwrite ==> request.value.expected.value == file.value.mtime)
    {
      hide Run, Legal;
      if file.None? {
        return None;
      }
      request := Some(Save(file.value.path, draft, if overwrite then None else Some(file.value.mtime),
                           file.value.content, None));
      Record(PressSave(overwrite));
    }

    method PatchSaved(saved: string, mtime: nat)
      modifies this`file, this`epoch, this`conflict
      ensures Now() == SaveWritten(old(Now()), saved, mtime)
    {
      if file.Some? {
        AssignFile(Some(file.value.(content := saved, mtime := mtime)));
      }
      conflict := false;
    }

    method SaveSucceeded(id: nat, saved: string, mtime: nat)
      requires Valid() && id in Around().saves
      requires Around().saves[id].text == saved && Around().saves[id].answer == Some(Written(mtime))
      modifies this
      ensures Valid() && trace == old(trace) + [DeliverWrite(id)]
    {
      hide Run, Legal, SaveWritten;
      PatchSaved(saved, mtime);
      Record(DeliverWrite(id));
    }

    method SaveFailed(id: nat, refused: bool)
      requires Valid() && id in Around().saves
      requires Around().saves[id].answer == Some(if refused then Refused else WriteError)
      modifies this
      ensures Valid() && trace == old(trace) + [DeliverWrite(id)]
    {
      hide Run, Legal;
      if refused {
        conflict := true;
      }
      Record(DeliverWrite(id));
    }

    // ----- The change poll -----

    method BeginPoll()
      requires Valid() && file.Some?
      modifies this`trace
      ensures Valid() && trace == old(trace) + [Poll]
    {
      hide Run, Legal;
      Record(Poll);
    }

    method CompareStat(started: nat, mtime: nat, size: nat) returns (reload: bool)
      modifies this`openSeq, this`conflict
      ensures Now() == StatArrived(old(Now()), started, mtime, size)
      ensures reload <==> StatReloads(old(Now()), started, mtime, size)
    {
      if file.None? || started != epoch || (mtime == file.value.mtime && size == |file.value.content|) {
        return false;
      }
      if IsDirty() {
        conflict := true;
        return false;
      }
      var _ := StartOpening();
      return true;
    }

    /** The poll's answer; `reload` tells that a read of the polled file was sent, to keep edits if there are any. */
    method StatReturned(id: nat, path: string, started: nat, mtime: nat, size: nat) returns (reload: bool)
      requires Valid() && id in Around().stats && Around().stats[id] == Stat(path, started, Some((mtime, size)))
      modifies this
      ensures Valid() && trace == old(trace) + [DeliverStat(id)]
      ensures Around().opens == if reload then old(Around().opens)[openSeq := Open(path, true, None)] else old(Around().opens)
    {
      hide Run, Legal, StatChanged;
      reload := CompareStat(started, mtime, size);
      Record(DeliverStat(id));
    }

    // ----- Edits -----

    method Type(text: string)
      requires Valid() && file.Some?
      modifies this
      ensures Valid() && trace == old(trace) + [Event.Type(text)]
    {
      hide Run, Legal;
      draft := text;
      Record(Event.Type(text));
    }

    method DiscardEdits()
      requires Valid()
      modifies this
      ensures Valid() && trace == old(trace) + [Discard]
    {
      hide Run, Legal;
      if file.Some? {
        draft := file.value.content;
        conflict := false;
      }
      Record(Discard);
    }

    // ----- The tree -----

    /** `file` and `nonText` as the handlers capture them. */
    function Captured(): (open: Option<string>)
      reads this
      ensures open == Shown(Now())
    {
      if file.Some? then Some(file.value.path)
      else match note case NonText(path) => Some(path) case _ => None
    }

    method PressCreate(path: string) returns (asked: Change)
      requires Valid()
      modifies this`trace
      ensures Valid() && trace == old(trace) + [Event.PressCreate(path)]
      ensures Around().ops == old(Around().ops)[old(Around().ticket) := Op(asked, None)]
    {
      hide Run, Legal;
      asked := Create(path);
      Record(Event.PressCreate(path));
    }

    method PressDelete(path: string) returns (asked: Change)
      requires Valid() && (IsDirty() ==> !Under(file.value.path, path))
      modifies this`trace
      ensures Valid() && trace == old(trace) + [Event.PressDelete(path)]
      ensures Around().ops == old(Around().ops)[old(Around().ticket) := Op(asked, None)]
    {
      hide Run, Legal, Under;
      asked := Delete(path, Captured() == Some(path));
      Record(Event.PressDelete(path));
    }

    method PressMove(from: string, to: string) returns (asked: Change)
      requires Valid()
      modifies this`trace
      ensures Valid() && trace == old(trace) + [Event.PressMove(from, to)]
      ensures Around().ops == old(Around().ops)[old(Around().ticket) := Op(asked, None)]
    {
      hide Run, Legal, Under;
      var open := Captured();
      asked := Move(from, to, if open.Some? && open.value != "" && Under(open.value, from) then open else None);
      Record(Event.PressMove(from, to));
    }

    method CloseDeleted(path: string)
      modifies this`file, this`epoch, this`draft, this`note
      ensures Now() == DeletedHere(old(Now()), path)
    {
      AssignFile(None);
      draft := "";
      note := Deleted(path);
    }

    method DeleteAnswered(id: nat, path: string, hit: bool, ok: bool)
      requires Valid() && id in Around().ops && Around().ops[id] == Op(Delete(path, hit), Some(ok))
      modifies this
      ensures Valid() && trace == old(trace) + [DeliverOp(id)]
    {
      hide Run, Legal, DeletedHere;
      if ok && hit {
        CloseDeleted(path);
      }
      Record(DeliverOp(id));
    }

    method CreateAnswered(id: nat, path: string, ok: bool)
      requires Valid() && id in Around().ops && Around().ops[id] == Op(Create(path), Some(ok))
      modifies this
      ensures Valid() && trace == old(trace) + [DeliverOp(id)]
      ensures Around().opens == if ok then old(Around().opens)[openSeq := Open(path, false, None)] else old(Around().opens)
    {
      hide Run, Legal;
      if ok {
        var _ := StartOpening();
      }
      Record(DeliverOp(id));
    }

    method MoveAnswered(id: nat, from: string, to: string, follows: Option<string>, ok: bool)
      requires Valid() && id in Around().ops && Around().ops[id] == Op(Move(from, to, follows), Some(ok))
      modifies this
      ensures Valid() && trace == old(trace) + [DeliverOp(id)]
      ensures Around().opens ==
              if ok && follows.Some? then old(Around().opens)[openSeq := Open(MovedPath(follows.value, from, to), false, None)]
              else old(Around().opens)
    {
      hide Run, Legal, MovedPath;
      if ok && follows.Some? {
        var _ := StartOpening();
      }
      Record(DeliverOp(id));
    }
  }

  /**
   * Any editor object, after any calls in any order: what it holds is what the disk had under the
   * loaded mtime, and no save it sent without overwriting replaced anything newer.
   */
  lemma EditorIsSafe(editor: Editor)
    requires editor.Valid()
    ensures var w := Run(Start(), editor.trace);
            && (editor.file.Some? ==> Remembers(w.disk, editor.file.value.mtime, editor.file.value.content))
            && forall i :: 0 <= i < |w.replaced| && w.replaced[i].save.expected.Some? ==>
                 Remembers(w.disk, w.replaced[i].version, w.replaced[i].save.held) &&
                 w.replaced[i].version == w.replaced[i].save.expected.value
  {
    RunKeepsInv(Start(), editor.trace);
    NoLostUpdate(editor.trace);
  }

  /** And whichever calls they were: what a plain Save pressed at step `i` replaced is the version the panel had then. */
  lemma EditorSavesAsPressed(editor: Editor, i: nat)
    requires editor.Valid() && i < |editor.trace| && editor.trace[i] == PressSave(false)
    ensures var m := FileSaves.At(editor.trace, i);
            && m.panel.file.Some?
            && forall k :: 0 <= k < |editor.Around().replaced| && editor.Around().replaced[k].id == m.ticket ==>
                 var r := editor.Around().replaced[k];
                 && r.save.path == m.panel.file.value.path && r.save.text == m.panel.draft
                 && r.version == m.panel.file.value.mtime
                 && Remembers(editor.Around().disk, r.version, m.panel.file.value.content)
  {
    hide Run, Legal, Remembers, Lived;
    FileSaves.SavedAsPressed(editor.trace, i, false);
  }
}
