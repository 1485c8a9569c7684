/** The per-host paths that saving the project dialog sends, from frontend/src/CreateProjectModal.tsx. */
module HostPaths {
  import opened Text

  type Paths = map<string, string>

  /** `normalizeHostPaths`: the non-blank entries, trimmed. */
  method NormalizeHostPaths(paths: Paths) returns (out: Paths)
    ensures out == Normalized(paths)
    ensures forall h :: h in out <==> h in paths && !Blank(paths[h])
    ensures forall h :: h in out ==> IsTrimOf(out[h], paths[h])
  {
    NormalizedMeans(paths);
    hide Trim, Blank, IsTrimOf;
    out := map[];
    var rest := paths.Keys;
    while rest != {}
      invariant rest <= paths.Keys
      invariant out == Normalized(map h | h in paths && h !in rest :: paths[h])
      decreases rest
    {
      var h :| h in rest;
      var trimmed := Trim(paths[h]);
      if trimmed != "" {
        out := out[h := trimmed];
      }
      rest := rest - {h};
    }
    assert (map h | h in paths && h !in rest :: paths[h]) == paths;
  }

  function Normalized(paths: Paths): Paths {
    map h | h in paths && Trim(paths[h]) != "" :: Trim(paths[h])
  }

  /** The blank entries go, and the others lose exactly the white space at their ends. */
  lemma NormalizedMeans(paths: Paths)
    ensures forall h :: h in Normalized(paths) <==> h in paths && !Blank(paths[h])
    ensures forall h :: h in Normalized(paths) ==> IsTrimOf(Normalized(paths)[h], paths[h])
  {
    hide Trim, Blank, IsTrimOf;
    forall h | h in paths ensures Trim(paths[h]) != "" <==> !Blank(paths[h]) { TrimBlank(paths[h]); }
    forall h | h in paths ensures IsTrimOf(Trim(paths[h]), paths[h]) { TrimIff(Trim(paths[h]), paths[h]); }
  }

  /** `sameHostPaths`. */
  predicate SameHostPaths(a: Paths, b: Paths) {
    |a.Keys| == |b.Keys| && forall h :: h in a.Keys ==> h in b && a[h] == b[h]
  }

  /** Counting keys and comparing one way is enough for equality. */
  lemma SameIsEqual(a: Paths, b: Paths)
    ensures SameHostPaths(a, b) <==> a == b
  {
    if SameHostPaths(a, b) {
      assert a.Keys <= b.Keys;
      assert b.Keys == a.Keys + (b.Keys - a.Keys);
      assert |b.Keys - a.Keys| == 0;
      assert b.Keys == a.Keys;
      assert forall h :: h in a ==> a[h] == b[h];
    }
  }

  /** What the dialog knows when Save is pressed. */
  datatype Dialog = Dialog(
    isEdit: bool,
    hosts: set<string>,
    projectHost: string,
    autoDetected: set<string>,
    initial: Paths,
    edited: Paths
  )

  function Known(d: Dialog): set<string> {
    d.hosts - {d.projectHost}
  }

  /** The user's paths on hosts that still exist. */
  function UserPaths(d: Dialog): Paths {
    Normalized(map h | h in d.edited && h in Known(d) :: d.edited[h])
  }

  predicate VisibleFlag(d: Dialog) {
    d.autoDetected * Known(d) != {}
  }

  predicate Changed(d: Dialog) {
    d.isEdit && d.hosts != {} && (VisibleFlag(d) || !SameHostPaths(UserPaths(d), Normalized(d.initial)))
  }

  /** A host the project gained after the dialog opened and the user did not set. */
  predicate Gained(d: Dialog, latest: Paths, h: string) {
    h in latest && latest[h] != "" && h in Known(d) && h !in d.initial && h !in UserPaths(d)
  }

  /**
   * The host part of `confirm`: the map to send, if any. `latest` is the project as read again just
   * before sending, or nothing when that read failed.
   */
  method PathsToSend(d: Dialog, latest: Option<Paths>) returns (send: Option<Paths>)
    ensures send.Some? <==> Changed(d)
    ensures send.Some? && latest.None? ==> send.value == UserPaths(d)
    ensures send.Some? && latest.Some? ==> send.value == Merged(d, latest.value)
  {
    hide Normalized, SameHostPaths;
    if !Changed(d) {
      return None;
    }
    var user := NormalizeHostPaths(map h | h in d.edited && h in Known(d) :: d.edited[h]);
    if latest.None? {
      return Some(user);
    }
    var out := user;
    var rest := latest.value.Keys;
    while rest != {}
      invariant rest <= latest.value.Keys
      invariant forall h :: h in out <==> h in user || (h !in rest && Gained(d, latest.value, h))
      invariant forall h :: h in out ==> out[h] == if h in user then user[h] else latest.value[h]
      decreases rest
    {
      var h :| h in rest;
      var path := latest.value[h];
      if path != "" && h in Known(d) && h !in d.initial && h !in user {
        out := out[h := path];
      }
      rest := rest - {h};
    }
    send := Some(out);
  }

  function Merged(d: Dialog, latest: Paths): Paths {
    map h | h in UserPaths(d).Keys + latest.Keys && (h in UserPaths(d) || Gained(d, latest, h)) ::
      if h in UserPaths(d) then UserPaths(d)[h] else latest[h]
  }

  /**
   * Host by host: a known host gets the user's non-blank path without the white space at its ends, else
   * a path gained meanwhile, else nothing; known are the hosts listed other than the project's own; so gained hosts survive, blanked hosts stay removed, and unknown hosts are never sent.
   */
  lemma SentPerHost(d: Dialog, latest: Paths, h: string)
    ensures var sent := Merged(d, latest);
            var typed := h in d.edited && !Blank(d.edited[h]);
            var known := h in d.hosts && h != d.projectHost;
            && (!known ==> h !in sent)
            && (known && typed ==> h in sent && IsTrimOf(sent[h], d.edited[h]))
            && (known && !typed && h in d.initial ==> h !in sent)
            && (known && !typed && h !in d.initial ==>
                  if h in latest && latest[h] != "" then h in sent && sent[h] == latest[h] else h !in sent)
  {
    var kept := map k | k in d.edited && k in Known(d) :: d.edited[k];
    NormalizedMeans(kept);
    hide Trim, Blank, IsTrimOf, Normalized;
    assert h in kept ==> kept[h] == d.edited[h];
  }

  /** The path given for a host, blank for none. */
  function PathFor(paths: Paths, h: string): string {
    if h in paths then Trim(paths[h]) else ""
  }

  /** The path the dialog would send for a host differs from the one it opened with. */
  predicate Differs(d: Dialog, h: string) {
    (if h in d.hosts && h != d.projectHost then PathFor(d.edited, h) else "") != PathFor(d.initial, h)
  }

  /** A host shown in the dialog has a path that was detected. */
  predicate Flagged(d: Dialog, h: string) {
    h in d.autoDetected && h in d.hosts && h != d.projectHost
  }

  lemma DifferSomewhere(a: Paths, b: Paths)
    requires a != b
    ensures exists h :: (h in a) != (h in b) || (h in a && a[h] != b[h])
  {
    if a.Keys == b.Keys {
      assert exists h :: h in a && a[h] != b[h];
    } else {
      assert exists h :: (h in a.Keys) != (h in b.Keys);
    }
  }

  /** The user's paths and the original ones differ at some host, shown or not. */
  lemma PathsDifferIff(d: Dialog)
    ensures UserPaths(d) != Normalized(d.initial) <==> exists h :: Differs(d, h)
  {
    hide Trim;
    var user, was := UserPaths(d), Normalized(d.initial);
    if user == was {
      forall h ensures !Differs(d, h) {
        assert h in user <==> h in was;
      }
    } else {
      DifferSomewhere(user, was);
      var h :| (h in user) != (h in was) || (h in user && user[h] != was[h]);
      assert Differs(d, h);
    }
  }

  lemma FlaggedIff(d: Dialog)
    ensures VisibleFlag(d) <==> exists h :: Flagged(d, h)
  {
    if VisibleFlag(d) {
      var h :| h in d.autoDetected * Known(d);
      assert Flagged(d, h);
    }
    if exists h :: Flagged(d, h) {
      var h :| Flagged(d, h);
      assert h in d.autoDetected * Known(d);
    }
  }

  /**
   * The map is sent exactly when a project with hosts is edited and a visible host is flagged, or some
   * host, shown or not, would get another path than it had: key counts and order play no part.
   */
  lemma ChangedIff(d: Dialog)
    ensures Changed(d) <==>
            d.isEdit && d.hosts != {} && (exists h :: Flagged(d, h) || Differs(d, h))
  {
    SameIsEqual(UserPaths(d), Normalized(d.initial));
    hide Trim, UserPaths, Normalized, VisibleFlag, SameHostPaths, Differs, Flagged;
    PathsDifferIff(d);
    FlaggedIff(d);
  }

  /** Some path the dialog opened with is for a host that is no longer shown. */
  predicate LostHost(d: Dialog) {
    exists h :: h in d.initial && h !in Known(d) && Trim(d.initial[h]) != ""
  }

  /**
   * Saving without touching a path sends the map exactly when a visible host is flagged
   * auto-detected, or when a path is for a host the dialog no longer shows.
   */
  lemma UneditedSendsIff(d: Dialog)
    requires d.isEdit && d.hosts != {} && d.edited == d.initial
    ensures Changed(d) <==> VisibleFlag(d) || LostHost(d)
  {
    hide Trim;
    var user, was := UserPaths(d), Normalized(d.initial);
    SameIsEqual(user, was);
    if LostHost(d) {
      var h :| h in d.initial && h !in Known(d) && Trim(d.initial[h]) != "";
      assert h in was && h !in user;
    } else {
      assert user == was;
    }
  }

  /** An unedited save can drop a path: the host "b" has gone from the list. */
  lemma UneditedSaveDropsLostHost() returns (d: Dialog)
    ensures d.edited == d.initial && !VisibleFlag(d) && Changed(d)
    ensures "b" in Normalized(d.initial) && "b" !in Merged(d, d.initial)
  {
    d := Dialog(true, {"a"}, "home", {}, map["b" := "/srv"], map["b" := "/srv"]);
    assert Trim("/srv") == "/srv";
    assert "b" in d.initial && "b" !in Known(d);
    UneditedSendsIff(d);
  }
}
