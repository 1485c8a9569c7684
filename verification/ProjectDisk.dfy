/**
 * The files of a project as src/services/project-files.ts changes them: a write gives a file a new
 * mtime, a rename or move keeps it and refuses to replace anything, only an empty folder is deleted.
 */
module ProjectDisk {
  import opened Text
  import opened PathTree

  /** A file's content as of one write; its place in the history is its mtime. */
  datatype Version = Version(path: string, content: string)

  /**
   * `files` gives each existing file's current version, and `moved` every pair of a path and a
   * version that came together by a rename or move.
   */
  datatype Disk = Disk(history: seq<Version>, files: map<string, nat>, moved: set<(string, nat)>)

  function PutFile(d: Disk, path: string, content: string): Disk {
    d.(history := d.history + [Version(path, content)], files := d.files[path := |d.history|])
  }

  function RemoveFile(d: Disk, path: string): Disk {
    d.(files := d.files - {path})
  }

  /** There is a file at `path` or somewhere below it. */
  predicate Taken(files: map<string, nat>, path: string) {
    exists k :: k in files && Under(k, path)
  }

  predicate NotEmpty(files: map<string, nat>, path: string) {
    exists k :: k in files && k != path && Under(k, path)
  }

  /** Where a rename of `from` to `to` puts the file at `k`. */
  function Destination(k: string, from: string, to: string): string {
    if Under(k, from) then MovedPath(k, from, to) else k
  }

  function MoveFiles(d: Disk, from: string, to: string): Disk {
    var places := set k | k in d.files :: Destination(k, from, to);
    Disk(d.history,
         map q | q in places && Destination(q, to, from) in d.files :: d.files[Destination(q, to, from)],
         d.moved + set k | k in d.files && Under(k, from) :: (Destination(k, from, to), d.files[k]))
  }

  /** The file at `from`, or every file below it, goes to a place of its own outside of itself. */
  predicate CanMove(d: Disk, from: string, to: string) {
    !Taken(d.files, to) && !Under(to, from)
  }

  lemma MovedAndBack(k: string, from: string, to: string)
    requires Under(k, from)
    ensures Under(MovedPath(k, from, to), to) && MovedPath(MovedPath(k, from, to), to, from) == k
  {
    var q := MovedPath(k, from, to);
    if k == from {
      assert k[|from|..] == "" && q == to;
    } else {
      assert k[|from|..][..1] == "/" by { assert k[..|from + "/"|] == from + "/"; assert k[|from|] == '/'; }
      assert q[..|to| + 1] == to + k[|from|..][..1] == to + "/";
    }
    assert q[|to|..] == k[|from|..];
    assert k[..|from|] == from by { if k != from { assert k[..|from + "/"|] == from + "/"; } }
  }

  lemma DestinationBack(d: Disk, k: string, from: string, to: string)
    requires CanMove(d, from, to) && k in d.files
    ensures Destination(Destination(k, from, to), to, from) == k
  {
    hide Under, MovedPath;
    assert !Under(k, to);
    if Under(k, from) {
      MovedAndBack(k, from, to);
    }
  }

  /** A move takes every file along with its version, and adds, drops and replaces none. */
  lemma MoveKeepsFiles(d: Disk, from: string, to: string)
    requires CanMove(d, from, to)
    ensures forall k :: k in d.files ==>
              Destination(k, from, to) in MoveFiles(d, from, to).files &&
              MoveFiles(d, from, to).files[Destination(k, from, to)] == d.files[k]
    ensures forall q :: q in MoveFiles(d, from, to).files ==>
              Destination(q, to, from) in d.files && Destination(Destination(q, to, from), from, to) == q &&
              MoveFiles(d, from, to).files[q] == d.files[Destination(q, to, from)]
  {
    hide CanMove, Destination;
    var m := MoveFiles(d, from, to);
    forall k | k in d.files
      ensures Destination(k, from, to) in m.files && m.files[Destination(k, from, to)] == d.files[k]
    {
      DestinationBack(d, k, from, to);
    }
    forall q | q in m.files
      ensures Destination(q, to, from) in d.files && Destination(Destination(q, to, from), from, to) == q
    {
      var k :| k in d.files && q == Destination(k, from, to);
      DestinationBack(d, k, from, to);
    }
  }

  // ----- What is on the disk, and what has been -----

  /** `path` has been on the disk with version `m`. */
  predicate Lived(d: Disk, path: string, m: nat) {
    m < |d.history| && (d.history[m].path == path || (path, m) in d.moved)
  }

  /** The version with this mtime has this content. */
  predicate Remembers(d: Disk, m: nat, content: string) {
    m < |d.history| && d.history[m].content == content
  }

  predicate DiskInv(d: Disk) {
    forall path :: path in d.files ==> Lived(d, path, d.files[path])
  }

  predicate Extends(d: Disk, e: Disk) {
    d.history <= e.history && d.moved <= e.moved
  }

  lemma ExtendsKeeps(d: Disk, e: Disk)
    requires Extends(d, e)
    ensures forall path, m :: Lived(d, path, m) ==> Lived(e, path, m)
    ensures forall m, content :: Remembers(d, m, content) ==> Remembers(e, m, content)
  {}

  lemma PutKeepsDiskInv(d: Disk, path: string, content: string)
    requires DiskInv(d)
    ensures DiskInv(PutFile(d, path, content)) && Extends(d, PutFile(d, path, content))
    ensures Lived(PutFile(d, path, content), path, |d.history|)
  {}

  lemma RemoveKeepsDiskInv(d: Disk, path: string)
    requires DiskInv(d)
    ensures DiskInv(RemoveFile(d, path)) && Extends(d, RemoveFile(d, path))
  {}

  lemma MoveKeepsDiskInv(d: Disk, from: string, to: string)
    requires DiskInv(d) && CanMove(d, from, to)
    ensures DiskInv(MoveFiles(d, from, to)) && Extends(d, MoveFiles(d, from, to))
  {
    hide CanMove, Under, MovedPath;
    MoveKeepsFiles(d, from, to);
    var e := MoveFiles(d, from, to);
    forall q | q in e.files ensures Lived(e, q, e.files[q]) {
      var k := Destination(q, to, from);
      assert k in d.files && Lived(d, k, d.files[k]) && q == Destination(k, from, to);
    }
  }
}
