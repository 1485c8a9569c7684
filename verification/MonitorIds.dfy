/** `addSuggestion` of frontend/src/DockConfigPanel.tsx: a new monitor gets the first free id. */
module MonitorIds {
  import opened Text

  datatype Control = Control(id: string, title: string, command: string)

  /** The ids tried, in order: the name, then `name-2`, `name-3` and so on. */
  function Candidate(name: string, k: nat): string {
    if k == 0 then name else name + "-" + Decimal(k + 1)
  }

  predicate Taken(controls: seq<Control>, id: string) {
    exists i :: 0 <= i < |controls| && controls[i].id == id
  }

  predicate DistinctIds(controls: seq<Control>) {
    forall i, j :: 0 <= i < j < |controls| ==> controls[i].id != controls[j].id
  }

  lemma CandidatesDiffer(name: string, a: nat, b: nat)
    requires a < b
    ensures Candidate(name, a) != Candidate(name, b)
  {
    var tail := "-" + Decimal(b + 1);
    assert Candidate(name, b) == name + tail;
    if a > 0 && Candidate(name, a) == Candidate(name, b) {
      assert Candidate(name, a)[|name| + 1..] == Decimal(a + 1);
      assert Candidate(name, b)[|name| + 1..] == Decimal(b + 1);
      DecimalInjective(a + 1, b + 1);
    }
  }

  ghost function Ids(controls: seq<Control>): set<string> {
    if controls == [] then {} else {controls[0].id} + Ids(controls[1..])
  }

  lemma {:induction false} IdsAreTaken(controls: seq<Control>, id: string)
    ensures id in Ids(controls) <==> Taken(controls, id)
  {
    if controls != [] {
      IdsAreTaken(controls[1..], id);
      assert forall i :: 0 < i < |controls| ==> controls[i] == controls[1..][i - 1];
      if Taken(controls[1..], id) {
        var i :| 0 <= i < |controls[1..]| && controls[1..][i].id == id;
        assert controls[i + 1].id == id;
      }
    }
  }

  lemma {:induction false} FewerIdsThanControls(controls: seq<Control>)
    ensures |Ids(controls)| <= |controls|
  {
    if controls != [] {
      FewerIdsThanControls(controls[1..]);
    }
  }

  ghost function Tried(name: string, k: nat): set<string> {
    if k == 0 then {} else Tried(name, k - 1) + {Candidate(name, k - 1)}
  }

  lemma {:induction false} TriedCount(name: string, k: nat)
    ensures |Tried(name, k)| == k
    ensures forall id :: id in Tried(name, k) ==> exists j :: 0 <= j < k && id == Candidate(name, j)
  {
    hide Candidate;
    if k > 0 {
      TriedCount(name, k - 1);
      forall j | 0 <= j < k - 1 ensures Candidate(name, j) != Candidate(name, k - 1) {
        CandidatesDiffer(name, j, k - 1);
      }
    }
  }

  /** Pigeonhole: candidates that are all taken cannot outnumber the controls. */
  lemma TakenAtMost(controls: seq<Control>, name: string, k: nat)
    requires forall j :: 0 <= j < k ==> Taken(controls, Candidate(name, j))
    ensures k <= |controls|
  {
    hide Candidate;
    TriedCount(name, k);
    forall id | id in Tried(name, k) ensures id in Ids(controls) {
      IdsAreTaken(controls, id);
    }
    SubsetIsSmaller(Tried(name, k), Ids(controls));
    FewerIdsThanControls(controls);
  }

  lemma SubsetIsSmaller(a: set<string>, b: set<string>)
    requires a <= b
    ensures |a| <= |b|
  {
    assert b == a + (b - a);
  }

  /**
   * The `for` loop. It stops after at most one more candidate than there are controls, at the first
   * id that is free.
   */
  method FreshId(existing: seq<Control>, name: string) returns (id: string, ghost k: nat)
    ensures id == Candidate(name, k) && k <= |existing|
    ensures !Taken(existing, id)
    ensures forall j :: 0 <= j < k ==> Taken(existing, Candidate(name, j))
  {
    id := name;
    k := 0;
    var n := 2;
    while Taken(existing, id)
      invariant n == k + 2 && id == Candidate(name, k)
      invariant forall j :: 0 <= j < k ==> Taken(existing, Candidate(name, j))
      decreases |existing| - k
    {
      TakenAtMost(existing, name, k + 1);
      id := name + "-" + Decimal(n);
      n := n + 1;
      k := k + 1;
    }
    TakenAtMost(existing, name, k);
  }

  /** Every number from 2 on that is below `k` is taken. */
  predicate FirstFree(controls: seq<Control>, name: string, k: nat) {
    forall j: nat :: 2 <= j < k ==> Taken(controls, name + "-" + Decimal(j))
  }

  class ConfigPanel {
    var controls: Option<seq<Control>>  // nothing until the configuration has loaded

    constructor (controls: Option<seq<Control>>)
      ensures this.controls == controls
    {
      this.controls := controls;
    }

    method AddSuggestion(name: string, command: string)
      modifies this
      ensures controls.Some?
      ensures var existing := if old(controls).Some? then old(controls).value else [];
              |controls.value| == |existing| + 1 &&
              var id := controls.value[|existing|].id;
              && (!Taken(existing, name) ==> id == name)
              && (Taken(existing, name) ==>
                    exists k :: 2 <= k <= |existing| + 1 && id == name + "-" + Decimal(k) && FirstFree(existing, name, k))
      ensures var existing := if old(controls).Some? then old(controls).value else [];
              && |controls.value| == |existing| + 1
              && controls.value[..|existing|] == existing
              && controls.value[|existing|].title == name && controls.value[|existing|].command == command
              && !Taken(existing, controls.value[|existing|].id)
              && (DistinctIds(existing) ==> DistinctIds(controls.value))
    {
      var existing := if controls.Some? then controls.value else [];
      var id, k := FreshId(existing, name);
      assert Candidate(name, 0) == name;
      assert k > 0 ==> id == name + "-" + Decimal(k + 1);
      forall j: nat | 2 <= j < k + 1 ensures Taken(existing, name + "-" + Decimal(j)) {
        assert Taken(existing, Candidate(name, j - 1)) && Candidate(name, j - 1) == name + "-" + Decimal(j);
      }
      assert FirstFree(existing, name, k + 1);
      controls := Some(existing + [Control(id, name, command)]);
    }
  }
}
