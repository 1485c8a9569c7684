/**
 * Loading the workspace list and creating the default workspace, from frontend/src/App.tsx: an effect
 * that retries a bounded number of times and re-arms on wake-up events, and a second effect that
 * creates "Default" when the loaded list is empty.
 */
module WorkspaceLoader {
  import opened Text

  const WORKSPACE_LOAD_MAX_ATTEMPTS: nat := 5
  const WORKSPACE_LOAD_RETRY_BASE_MS: nat := 500

  // ----- One instance of the load effect -----

  /**
   * `inFlight` lists the attempt numbers of unanswered requests and `timer` the attempt a pending
   * timeout will make. `requests` and `waited` count the current round.
   */
  datatype Effect = Effect(
    cancelled: bool,
    inFlight: seq<nat>,
    timer: Option<nat>,
    rearmed: bool,
    loaded: bool,
    requests: nat,
    waited: nat
  )

  function Load(e: Effect, attempt: nat): Effect {
    e.(inFlight := e.inFlight + [attempt],
       requests := if attempt == 0 then 1 else e.requests + 1,
       waited := if attempt == 0 then 0 else e.waited)
  }

  function Mounted(): Effect {
    Load(Effect(false, [], None, false, false, 0, 0), 0)
  }

  function Resolved(e: Effect): Effect
    requires e.inFlight != []
  {
    var r := e.(inFlight := e.inFlight[1..]);
    if e.cancelled then r else r.(loaded := true)
  }

  /** The rejection of the oldest request ends the round. */
  predicate GivesUp(e: Effect)
    requires e.inFlight != []
  {
    !e.cancelled && e.inFlight[0] + 1 >= WORKSPACE_LOAD_MAX_ATTEMPTS
  }

  function Rejected(e: Effect): Effect
    requires e.inFlight != []
  {
    var attempt := e.inFlight[0];
    var r := e.(inFlight := e.inFlight[1..]);
    if e.cancelled then r
    else if attempt + 1 >= WORKSPACE_LOAD_MAX_ATTEMPTS then r.(rearmed := true)
    else r.(timer := Some(attempt + 1), waited := r.waited + WORKSPACE_LOAD_RETRY_BASE_MS * Pow2(attempt))
  }

  function TimerFired(e: Effect): Effect
    requires e.timer.Some?
  {
    Load(e.(timer := None), e.timer.value)
  }

  /** The `online` and `visibilitychange` listener. */
  function Wake(e: Effect, hidden: bool): Effect {
    if e.cancelled || !e.rearmed || hidden then e else Load(e.(rearmed := false), 0)
  }

  function Cleanup(e: Effect): Effect {
    e.(cancelled := true, timer := None, rearmed := false)
  }

  /** The effect as an object: its three captured variables, and the requests it is waiting for. */
  class LoadEffect {
    var cancelled: bool
    var retryTimer: Option<nat>
    var rearmed: bool
    var inFlight: seq<nat>
    var loaded: bool
    ghost var requests: nat
    ghost var waited: nat

    ghost function Now(): Effect
      reads this
    {
      Effect(cancelled, inFlight, retryTimer, rearmed, loaded, requests, waited)
    }

    /** One phase at a time, and a bounded round; every method keeps this. */
    ghost predicate Valid()
      reads this
    {
      EffectInv(Now())
    }

    constructor ()
      ensures Valid() && Now() == Mounted()
    {
      cancelled, retryTimer, rearmed, inFlight, loaded := false, None, false, [], false;
      requests, waited := 0, 0;
      new;
      Request(0);
      BackoffGrows(0);
    }

    /** `load`. */
    method Request(attempt: nat)
      modifies this`inFlight, this`requests, this`waited
      ensures Now() == Load(old(Now()), attempt)
    {
      inFlight := inFlight + [attempt];
      if attempt == 0 {
        requests, waited := 1, 0;
      } else {
        requests := requests + 1;
      }
    }

    method OnResolved()
      requires Valid() && inFlight != []
      modifies this
      ensures Valid() && Now() == Resolved(old(Now()))
    {
      EffectStepsKeepInv(Now(), false);
      inFlight := inFlight[1..];
      if !cancelled {
        loaded := true;
      }
    }

    method OnRejected()
      requires Valid() && inFlight != []
      modifies this
      ensures Valid() && Now() == Rejected(old(Now()))
    {
      EffectStepsKeepInv(Now(), false);
      hide EffectInv;
      var attempt := inFlight[0];
      inFlight := inFlight[1..];
      if cancelled {
        return;
      }
      if attempt + 1 >= WORKSPACE_LOAD_MAX_ATTEMPTS {
        rearmed := true;
        return;
      }
      retryTimer := Some(attempt + 1);
      waited := waited + WORKSPACE_LOAD_RETRY_BASE_MS * Pow2(attempt);
    }

    method OnTimer()
      requires Valid() && retryTimer.Some?
      modifies this
      ensures Valid() && Now() == TimerFired(old(Now()))
    {
      EffectStepsKeepInv(Now(), false);
      hide EffectInv;
      var attempt := retryTimer.value;
      retryTimer := None;
      Request(attempt);
    }

    method Rearm(hidden: bool)
      requires Valid()
      modifies this
      ensures Valid() && Now() == Wake(old(Now()), hidden)
    {
      EffectStepsKeepInv(Now(), hidden);
      hide EffectInv;
      if cancelled || !rearmed || hidden {
        return;
      }
      rearmed := false;
      Request(0);
    }

    method Dispose()
      requires Valid()
      modifies this
      ensures Valid() && Now() == Cleanup(old(Now()))
    {
      EffectStepsKeepInv(Now(), false);
      hide EffectInv;
      cancelled := true;
      retryTimer := None;
      rearmed := false;
    }
  }

  // ----- The app: all instances, the list, and the bootstrap effect -----

  /** What an observer sees happen, in order. */
  datatype Mark = LoadSucceeded | SawWorkspaces | CreatedDefault

  datatype App = App(
    effects: seq<Effect>,
    workspacesLoaded: bool,
    loadFailed: bool,
    workspaces: nat,
    bootstrapped: bool,
    marks: seq<Mark>
  )

  datatype Event =
    | LoadResolves(i: nat, count: nat)
    | LoadRejects(i: nat)
    | RetryTimer(i: nat)
    | WakeUp(hidden: bool)
    | RetryClicked
    | ListChanges(count: nat)
    | BootstrapRuns

  predicate Enabled(a: App, e: Event) {
    match e
    case LoadResolves(i, _) => i < |a.effects| && a.effects[i].inFlight != []
    case LoadRejects(i) => i < |a.effects| && a.effects[i].inFlight != []
    case RetryTimer(i) => i < |a.effects| && a.effects[i].timer.Some?
    case _ => true
  }

  /** Cleaning up the live instance and mounting the next one. */
  function Remount(effects: seq<Effect>): seq<Effect> {
    if effects == [] then [Mounted()]
    else effects[|effects| - 1 := Cleanup(effects[|effects| - 1])] + [Mounted()]
  }

  /** One run of the bootstrap effect. */
  function Bootstrap(a: App): App {
    if !a.workspacesLoaded then a
    else if a.workspaces > 0 then a.(bootstrapped := false, marks := a.marks + [SawWorkspaces])
    else if a.bootstrapped then a
    else a.(bootstrapped := true, marks := a.marks + [CreatedDefault])
  }

  function Step(a: App, e: Event): App
    requires Enabled(a, e)
  {
    match e
    case LoadResolves(i, count) =>
      var r := a.(workspaces := count, effects := a.effects[i := Resolved(a.effects[i])]);
      if a.effects[i].cancelled then r
      else r.(workspacesLoaded := true, loadFailed := false, marks := r.marks + [LoadSucceeded])
    case LoadRejects(i) =>
      a.(effects := a.effects[i := Rejected(a.effects[i])], loadFailed := a.loadFailed || GivesUp(a.effects[i]))
    case RetryTimer(i) => a.(effects := a.effects[i := TimerFired(a.effects[i])])
    case WakeUp(hidden) =>
      a.(effects := seq(|a.effects|, i requires 0 <= i < |a.effects| => Wake(a.effects[i], hidden)))
    case RetryClicked => a.(effects := Remount(a.effects))
    case ListChanges(count) => a.(workspaces := count)
    case BootstrapRuns => Bootstrap(a)
  }

  predicate Legal(a: App, es: seq<Event>)
    decreases |es|
  {
    es == [] || (Enabled(a, es[0]) && Legal(Step(a, es[0]), es[1..]))
  }

  function Run(a: App, es: seq<Event>): App
    requires Legal(a, es)
    decreases |es|
  {
    if es == [] then a else Run(Step(a, es[0]), es[1..])
  }

  function Start(): App {
    App([Mounted()], false, false, 0, false, [])
  }

  // ----- Single flight -----

  function Count(b: bool): nat { if b then 1 else 0 }

  /** Exactly one of: a request in flight, a retry timer, armed for wake-up, loaded. */
  predicate ExactlyOne(e: Effect) {
    |e.inFlight| + Count(e.timer.Some?) + Count(e.rearmed) + Count(e.loaded) == 1
  }

  /** Milliseconds of backoff before attempt `n` of a round. */
  function BackoffBefore(n: nat): nat {
    if n == 0 then 0 else BackoffBefore(n - 1) + WORKSPACE_LOAD_RETRY_BASE_MS * Pow2(n - 1)
  }

  predicate EffectInv(e: Effect) {
    if e.cancelled then e.timer.None? && !e.rearmed
    else
      && ExactlyOne(e)
      && 1 <= e.requests <= WORKSPACE_LOAD_MAX_ATTEMPTS
      && (e.inFlight != [] ==> e.requests == e.inFlight[0] + 1 && e.waited == BackoffBefore(e.inFlight[0]))
      && (e.timer.Some? ==>
            && e.timer.value < WORKSPACE_LOAD_MAX_ATTEMPTS
            && e.requests == e.timer.value
            && e.waited == BackoffBefore(e.timer.value))
      && e.waited <= BackoffBefore(WORKSPACE_LOAD_MAX_ATTEMPTS - 1)
  }

  lemma BackoffGrows(n: nat)
    requires n < WORKSPACE_LOAD_MAX_ATTEMPTS
    ensures BackoffBefore(n) <= BackoffBefore(WORKSPACE_LOAD_MAX_ATTEMPTS - 1) == 7500
  {
    assert Pow2(1) == 2 && Pow2(2) == 4 && Pow2(3) == 8;
    assert BackoffBefore(1) == 500 && BackoffBefore(2) == 1500 && BackoffBefore(3) == 3500 && BackoffBefore(4) == 7500;
  }

  lemma WaitTable()
    ensures forall n: nat :: n < 5 ==> BackoffBefore(n) == [0, 500, 1500, 3500, 7500][n]
  {
    assert Pow2(1) == 2 && Pow2(2) == 4 && Pow2(3) == 8;
    assert BackoffBefore(1) == 500 && BackoffBefore(2) == 1500 && BackoffBefore(3) == 3500 && BackoffBefore(4) == 7500;
    forall n: nat | n < 5 ensures BackoffBefore(n) == [0, 500, 1500, 3500, 7500][n] {
      if n == 0 {} else if n == 1 {} else if n == 2 {} else if n == 3 {} else {}
    }
  }

  lemma EffectStepsKeepInv(e: Effect, hidden: bool)
    requires EffectInv(e)
    ensures e.inFlight != [] ==> EffectInv(Resolved(e)) && EffectInv(Rejected(e))
    ensures e.timer.Some? ==> EffectInv(TimerFired(e))
    ensures EffectInv(Wake(e, hidden)) && EffectInv(Cleanup(e)) && EffectInv(Mounted())
  {
    if !e.cancelled && e.inFlight != [] && e.inFlight[0] + 1 < WORKSPACE_LOAD_MAX_ATTEMPTS {
      BackoffGrows(e.inFlight[0] + 1);
    }
    BackoffGrows(0);
  }

  /** At any moment of its life an instance is in exactly one phase, and its round is bounded. */
  lemma LoadsOnceAtATime(effect: LoadEffect)
    requires effect.Valid()
    ensures !effect.cancelled ==> ExactlyOne(effect.Now()) && effect.requests <= 5 && effect.waited <= 7500
    ensures effect.cancelled ==> effect.retryTimer.None? && !effect.rearmed
  {
    BackoffGrows(0);
  }

  /** The banner offers Retry while the live instance has given up, and not once it has loaded. */
  predicate FlagsInv(live: Effect, workspacesLoaded: bool, loadFailed: bool) {
    (live.rearmed ==> loadFailed) && (live.loaded ==> workspacesLoaded && !loadFailed)
  }

  /** All instances but the last are cancelled. */
  predicate Inv(a: App) {
    && a.effects != []
    && (forall i :: 0 <= i < |a.effects| ==> EffectInv(a.effects[i]))
    && (forall i :: 0 <= i < |a.effects| ==> (a.effects[i].cancelled <==> i < |a.effects| - 1))
    && FlagsInv(a.effects[|a.effects| - 1], a.workspacesLoaded, a.loadFailed)
  }

  lemma RemountKeepsInv(a: App)
    requires Inv(a)
    ensures Inv(a.(effects := Remount(a.effects)))
  {
    EffectStepsKeepInv(a.effects[|a.effects| - 1], true);
    hide EffectInv;
  }

  /** Replacing one instance by a later state of it. */
  lemma UpdateKeepsInv(a: App, i: nat, e: Effect, loaded: bool, failed: bool)
    requires Inv(a) && i < |a.effects| && EffectInv(e) && e.cancelled == a.effects[i].cancelled
    requires FlagsInv(if e.cancelled then a.effects[|a.effects| - 1] else e, loaded, failed)
    ensures Inv(a.(effects := a.effects[i := e], workspacesLoaded := loaded, loadFailed := failed))
  {
    hide EffectInv, FlagsInv;
  }

  lemma ResolveKeepsInv(a: App, i: nat, count: nat)
    requires Inv(a) && Enabled(a, LoadResolves(i, count))
    ensures Inv(Step(a, LoadResolves(i, count)))
  {
    var e := a.effects[i];
    EffectStepsKeepInv(e, true);
    assert !e.cancelled ==> !e.rearmed;
    hide EffectInv;
    UpdateKeepsInv(a, i, Resolved(e), a.workspacesLoaded || !e.cancelled, a.loadFailed && e.cancelled);
  }

  lemma RejectKeepsInv(a: App, i: nat)
    requires Inv(a) && Enabled(a, LoadRejects(i))
    ensures Inv(Step(a, LoadRejects(i)))
  {
    var e := a.effects[i];
    EffectStepsKeepInv(e, true);
    assert !e.cancelled ==> !e.rearmed && !e.loaded;
    hide EffectInv, Pow2;
    UpdateKeepsInv(a, i, Rejected(e), a.workspacesLoaded, a.loadFailed || GivesUp(e));
  }

  lemma WakeKeepsInv(a: App, hidden: bool)
    requires Inv(a)
    ensures Inv(Step(a, WakeUp(hidden)))
  {
    forall i | 0 <= i < |a.effects| ensures EffectInv(Wake(a.effects[i], hidden)) {
      EffectStepsKeepInv(a.effects[i], hidden);
    }
    hide EffectInv;
  }

  lemma StepKeepsInv(a: App, e: Event)
    requires Inv(a) && Enabled(a, e)
    ensures Inv(Step(a, e))
  {
    match e
    case LoadResolves(i, count) => ResolveKeepsInv(a, i, count);
    case LoadRejects(i) => RejectKeepsInv(a, i);
    case RetryTimer(i) =>
      EffectStepsKeepInv(a.effects[i], true);
      hide EffectInv;
      UpdateKeepsInv(a, i, TimerFired(a.effects[i]), a.workspacesLoaded, a.loadFailed);
    case WakeUp(hidden) => WakeKeepsInv(a, hidden);
    case RetryClicked => RemountKeepsInv(a);
    case _ =>
      hide EffectInv;
  }

  lemma {:induction false} RunKeepsInv(a: App, es: seq<Event>)
    requires Inv(a) && Legal(a, es)
    ensures Inv(Run(a, es))
    decreases |es|
  {
    hide Inv, Step, Enabled;
    if es != [] {
      StepKeepsInv(a, es[0]);
      RunKeepsInv(Step(a, es[0]), es[1..]);
    }
  }

  /**
   * In every run exactly one instance is live, and of a live instance exactly one of in-flight,
   * retry-timer, armed and loaded holds; a round makes at most 5 requests and waits at most 7.5 s.
   */
  lemma SingleFlight(es: seq<Event>, i: nat)
    requires Legal(Start(), es) && i < |Run(Start(), es).effects|
    ensures var a := Run(Start(), es);
            var e := a.effects[i];
            && (!e.cancelled <==> i == |a.effects| - 1)
            && (!e.cancelled ==>
                  |e.inFlight| + Count(e.timer.Some?) + Count(e.rearmed) + Count(e.loaded) == 1 &&
                  e.requests <= 5 && e.waited <= 7500 &&
                  (e.inFlight != [] ==> e.inFlight[0] < 5 && e.waited == [0, 500, 1500, 3500, 7500][e.inFlight[0]]) &&
                  (e.timer.Some? ==> e.timer.value < 5 && e.waited == [0, 500, 1500, 3500, 7500][e.timer.value]) &&
                  (e.rearmed ==> a.loadFailed) && (e.loaded ==> a.workspacesLoaded && !a.loadFailed))
            && (e.cancelled ==> e.timer.None? && !e.rearmed)
  {
    EffectStepsKeepInv(Mounted().(cancelled := true), false);
    RunKeepsInv(Start(), es);
    BackoffGrows(0);
    WaitTable();
    assert EffectInv(Run(Start(), es).effects[i]);
  }

  // ----- The default workspace -----

  /** No two creations without the list having been seen non-empty in between. */
  predicate CreationsSeparated(marks: seq<Mark>) {
    forall i, j :: 0 <= i < j < |marks| && marks[i] == CreatedDefault && marks[j] == CreatedDefault ==>
      exists k :: i < k < j && marks[k] == SawWorkspaces
  }

  predicate SeenSinceCreation(marks: seq<Mark>) {
    forall i :: 0 <= i < |marks| && marks[i] == CreatedDefault ==>
      exists k :: i < k < |marks| && marks[k] == SawWorkspaces
  }

  /** If no sighting followed the last creation, the bootstrap latch is set. */
  predicate LatchInv(a: App) {
    && CreationsSeparated(a.marks)
    && (!a.bootstrapped ==> SeenSinceCreation(a.marks))
  }

  lemma MarkKeepsLatch(a: App, mark: Mark)
    requires LatchInv(a) && (mark == CreatedDefault ==> !a.bootstrapped)
    ensures var marks := a.marks + [mark];
            var bootstrapped := mark == CreatedDefault || (mark != SawWorkspaces && a.bootstrapped);
            LatchInv(a.(marks := marks, bootstrapped := bootstrapped))
  {
    var marks := a.marks + [mark];
    forall i, j | 0 <= i < j < |marks| && marks[i] == CreatedDefault && marks[j] == CreatedDefault
      ensures exists k :: i < k < j && marks[k] == SawWorkspaces
    {
      if j < |a.marks| {
        assert a.marks[i] == CreatedDefault && a.marks[j] == CreatedDefault;
        var k :| i < k < j && a.marks[k] == SawWorkspaces;
        assert marks[k] == SawWorkspaces;
      } else {
        assert a.marks[i] == CreatedDefault;
        var k :| i < k < |a.marks| && a.marks[k] == SawWorkspaces;
        assert marks[k] == SawWorkspaces;
      }
    }
    if mark == SawWorkspaces {
      assert marks[|a.marks|] == SawWorkspaces;
    } else if !a.bootstrapped && mark == LoadSucceeded {
      forall i | 0 <= i < |marks| && marks[i] == CreatedDefault
        ensures exists k :: i < k < |marks| && marks[k] == SawWorkspaces
      {
        assert a.marks[i] == CreatedDefault;
        var k :| i < k < |a.marks| && a.marks[k] == SawWorkspaces;
        assert marks[k] == SawWorkspaces;
      }
    }
  }

  lemma StepKeepsLatch(a: App, e: Event)
    requires LatchInv(a) && Enabled(a, e)
    ensures LatchInv(Step(a, e))
  {
    hide CreationsSeparated, SeenSinceCreation;
    MarkKeepsLatch(a, LoadSucceeded);
    MarkKeepsLatch(a, SawWorkspaces);
    if !a.bootstrapped { MarkKeepsLatch(a, CreatedDefault); }
  }

  lemma {:induction false} RunKeepsLatch(a: App, es: seq<Event>)
    requires LatchInv(a) && Legal(a, es)
    ensures LatchInv(Run(a, es))
    decreases |es|
  {
    if es != [] {
      StepKeepsLatch(a, es[0]);
      hide LatchInv, Step, Enabled;
      RunKeepsLatch(Step(a, es[0]), es[1..]);
    }
  }

  /**
   * The default workspace is created only after a load has succeeded, and at most once between two
   * sightings of a non-empty list, in every run.
   */
  lemma DefaultCreatedOnce(es: seq<Event>)
    requires Legal(Start(), es)
    ensures var marks := Run(Start(), es).marks;
            && CreationsSeparated(marks)
            && forall j :: 0 <= j < |marks| && marks[j] == CreatedDefault ==>
                 exists i :: 0 <= i < j && marks[i] == LoadSucceeded
  {
    RunKeepsLatch(Start(), es);
    CreatedAfterLoad(Start(), es);
  }

  predicate LoadBeforeCreate(a: App) {
    && (a.workspacesLoaded ==> exists i :: 0 <= i < |a.marks| && a.marks[i] == LoadSucceeded)
    && forall j :: 0 <= j < |a.marks| && a.marks[j] == CreatedDefault ==>
         exists i :: 0 <= i < j && a.marks[i] == LoadSucceeded
  }

  lemma {:induction false} CreatedAfterLoad(a: App, es: seq<Event>)
    requires LoadBeforeCreate(a) && Legal(a, es)
    ensures LoadBeforeCreate(Run(a, es))
    decreases |es|
  {
    if es != [] {
      StepKeepsOrder(a, es[0]);
      CreatedAfterLoad(Step(a, es[0]), es[1..]);
    }
  }

  lemma StepKeepsOrder(a: App, e: Event)
    requires LoadBeforeCreate(a) && Enabled(a, e)
    ensures LoadBeforeCreate(Step(a, e))
  {
    var r := Step(a, e);
    assert a.marks <= r.marks;
    if r.workspacesLoaded {
      if a.workspacesLoaded {
        var i :| 0 <= i < |a.marks| && a.marks[i] == LoadSucceeded;
        assert r.marks[i] == LoadSucceeded;
      } else {
        assert r.marks[|a.marks|] == LoadSucceeded;
      }
    }
    forall j | 0 <= j < |r.marks| && r.marks[j] == CreatedDefault
      ensures exists i :: 0 <= i < j && r.marks[i] == LoadSucceeded
    {
      if j < |a.marks| {
        assert a.marks[j] == CreatedDefault;
        var i :| 0 <= i < j && a.marks[i] == LoadSucceeded;
        assert r.marks[i] == LoadSucceeded;
      } else {
        var i :| 0 <= i < |a.marks| && a.marks[i] == LoadSucceeded;
        assert r.marks[i] == LoadSucceeded;
      }
    }
  }

  // ----- When the default workspace is created -----

  /** The size of the list as last reported. */
  function ListSize(es: seq<Event>): nat {
    if es == [] then 0
    else match es[|es| - 1]
      case LoadResolves(_, count) => count
      case ListChanges(count) => count
      case _ => ListSize(es[..|es| - 1])
  }

  /** What the latch and the list stand for. */
  predicate Tells(a: App, size: nat) {
    && a.workspaces == size
    && (a.bootstrapped <==> !SeenSinceCreation(a.marks))
    && (a.workspacesLoaded <==> LoadSucceeded in a.marks)
  }

  lemma {:induction false} RunSplitLast(a: App, es: seq<Event>)
    requires Legal(a, es) && es != []
    ensures Legal(a, es[..|es| - 1]) && Enabled(Run(a, es[..|es| - 1]), es[|es| - 1])
    ensures Run(a, es) == Step(Run(a, es[..|es| - 1]), es[|es| - 1])
    decreases |es|
  {
    hide Step, Enabled;
    if |es| > 1 {
      RunSplitLast(Step(a, es[0]), es[1..]);
      assert es[1..][..|es| - 2] == es[..|es| - 1][1..];
    } else {
      assert es[..0] == [];
      assert Legal(Step(a, es[0]), es[1..]) && es[1..] == [];
    }
  }

  /** A sighting ends the wait, a creation begins it, and a load does neither. */
  lemma SeenAfter(marks: seq<Mark>, mark: Mark)
    ensures SeenSinceCreation(marks + [mark]) <==>
            mark == SawWorkspaces || (mark == LoadSucceeded && SeenSinceCreation(marks))
  {
    var r := marks + [mark];
    if mark == CreatedDefault {
      assert r[|marks|] == CreatedDefault;
    } else if mark == SawWorkspaces {
      assert r[|marks|] == SawWorkspaces;
    } else if SeenSinceCreation(marks) {
      forall i | 0 <= i < |r| && r[i] == CreatedDefault ensures exists k :: i < k < |r| && r[k] == SawWorkspaces {
        assert marks[i] == CreatedDefault;
        var k :| i < k < |marks| && marks[k] == SawWorkspaces;
        assert r[k] == SawWorkspaces;
      }
    } else {
      var i :| 0 <= i < |marks| && marks[i] == CreatedDefault && !exists k :: i < k < |marks| && marks[k] == SawWorkspaces;
      assert r[i] == CreatedDefault && forall k :: i < k < |r| ==> r[k] != SawWorkspaces;
    }
  }

  lemma StepTells(a: App, e: Event, size: nat)
    requires Tells(a, size) && Enabled(a, e)
    ensures Tells(Step(a, e), match e case LoadResolves(_, count) => count case ListChanges(count) => count case _ => size)
  {
    SeenAfter(a.marks, LoadSucceeded);
    SeenAfter(a.marks, SawWorkspaces);
    SeenAfter(a.marks, CreatedDefault);
    hide SeenSinceCreation;
  }

  lemma {:induction false} RunTells(es: seq<Event>)
    requires Legal(Start(), es)
    ensures Tells(Run(Start(), es), ListSize(es))
    decreases |es|
  {
    if es != [] {
      hide Tells, Step, Enabled, Start, Legal, Run;
      RunSplitLast(Start(), es);
      RunTells(es[..|es| - 1]);
      StepTells(Run(Start(), es[..|es| - 1]), es[|es| - 1], ListSize(es[..|es| - 1]));
    }
  }

  /**
   * A run of the bootstrap effect creates the default workspace exactly when a load has succeeded, the
   * list is empty, and it has been seen non-empty since the last creation, if there was one.
   */
  lemma CreatesIff(es: seq<Event>)
    requires Legal(Start(), es)
    ensures var a := Run(Start(), es);
            var r := Step(a, BootstrapRuns);
            var creates := LoadSucceeded in a.marks && ListSize(es) == 0 && SeenSinceCreation(a.marks);
            && (creates <==> r.marks == a.marks + [CreatedDefault])
            && (LoadSucceeded in a.marks && ListSize(es) > 0 <==> r.marks == a.marks + [SawWorkspaces])
            && (!creates && !(LoadSucceeded in a.marks && ListSize(es) > 0) ==> r == a)
  {
    RunTells(es);
    hide Run, Legal, SeenSinceCreation;
    var marks := Run(Start(), es).marks;
    assert (marks + [CreatedDefault])[|marks|] == CreatedDefault && (marks + [SawWorkspaces])[|marks|] == SawWorkspaces;
    assert |marks + [CreatedDefault]| == |marks + [SawWorkspaces]| == |marks| + 1;
  }

  // ----- What each event does to the loading -----

  /** Another try after attempt `n` failed, and the time until then. */
  const DELAYS: seq<nat> := [500, 1000, 2000, 4000]

  /** The instance at `i` of a run is the live one. */
  predicate Live(a: App, i: nat) { i + 1 == |a.effects| }

  /** One instance after an event of its own. */
  predicate InstanceFollows(e: Event, live: bool, before: Effect, after: Effect) {
    match e
    case LoadResolves(_, _) =>
      before.inFlight != [] && after == before.(inFlight := before.inFlight[1..], loaded := before.loaded || live)
    case LoadRejects(_) =>
      before.inFlight != [] &&
      var n := before.inFlight[0];
      if !live then after == before.(inFlight := before.inFlight[1..])
      else if n < 4 then
        after == before.(inFlight := before.inFlight[1..], timer := Some(n + 1), waited := before.waited + DELAYS[n])
      else after == before.(inFlight := before.inFlight[1..], rearmed := true)
    case RetryTimer(_) =>
      before.timer.Some? && before.timer.value > 0 &&
      after == before.(timer := None, inFlight := before.inFlight + [before.timer.value], requests := before.requests + 1)
    case _ => after == before
  }

  /** The event is about the instance at `i`. */
  predicate Concerns(e: Event, i: nat) {
    match e
    case LoadResolves(j, _) => i == j
    case LoadRejects(j) => i == j
    case RetryTimer(j) => i == j
    case _ => false
  }

  /** Waking up: only the live instance, once it has given up, and only when the page is visible. */
  predicate Wakes(a: App, e: Event, i: nat) {
    e == WakeUp(false) && Live(a, i) && a.effects[i].rearmed
  }

  /**
   * In every run: an answer or a timer changes its own instance alone, and a success counts for the live one
   * only; waking up starts a fresh round of the live instance exactly when it has given up and the
   * page is visible; Retry cancels the live instance and starts a new one with its first request; and
   * nothing else touches them.
   */
  lemma LoaderFollows(es: seq<Event>, e: Event)
    requires Legal(Start(), es) && Enabled(Run(Start(), es), e)
    ensures var a := Run(Start(), es);
            var r := Step(a, e);
            && (e.RetryClicked? ==>
                  var n := |a.effects|;
                  && n > 0 && |r.effects| == n + 1
                  && (forall i :: 0 <= i < n - 1 ==> r.effects[i] == a.effects[i])
                  && r.effects[n - 1] == a.effects[n - 1].(cancelled := true, timer := None, rearmed := false)
                  && r.effects[n] == Effect(false, [0], None, false, false, 1, 0))
            && (!e.RetryClicked? ==>
                  && |r.effects| == |a.effects|
                  && forall i :: 0 <= i < |a.effects| ==>
                       if Concerns(e, i) then InstanceFollows(e, Live(a, i), a.effects[i], r.effects[i])
                       else if Wakes(a, e, i) then
                         r.effects[i] == a.effects[i].(rearmed := false, inFlight := [0], requests := 1, waited := 0)
                       else r.effects[i] == a.effects[i])
  {
    RunKeepsInv(Start(), es);
    var a := Run(Start(), es);
    hide Legal, Run;
    forall i | 0 <= i < |a.effects| ensures a.effects[i].cancelled <==> !Live(a, i) {}
    if e.RetryClicked? {
      RemountFollows(a);
    } else {
      forall i | 0 <= i < |a.effects| ensures EffectInv(a.effects[i]) {}
      hide Inv;
      TimesTable();
      hide DELAYS;
      if e.WakeUp? { WakeFollows(a, e.hidden); }
    }
  }

  lemma TimesTable()
    ensures forall n: nat :: n < 4 ==> WORKSPACE_LOAD_RETRY_BASE_MS * Pow2(n) == DELAYS[n]
  {
    assert Pow2(1) == 2 && Pow2(2) == 4 && Pow2(3) == 8;
    forall n: nat | n < 4 ensures WORKSPACE_LOAD_RETRY_BASE_MS * Pow2(n) == DELAYS[n] {
      if n == 0 {} else if n == 1 {} else if n == 2 {} else {}
    }
  }

  lemma RemountFollows(a: App)
    requires a.effects != []
    ensures var n := |a.effects|;
            var r := Step(a, RetryClicked);
            && |r.effects| == n + 1
            && (forall i :: 0 <= i < n - 1 ==> r.effects[i] == a.effects[i])
            && r.effects[n - 1] == a.effects[n - 1].(cancelled := true, timer := None, rearmed := false)
            && r.effects[n] == Effect(false, [0], None, false, false, 1, 0)
  {}

  lemma WakeFollows(a: App, hidden: bool)
    requires forall i :: 0 <= i < |a.effects| ==> EffectInv(a.effects[i]) && (a.effects[i].cancelled <==> !Live(a, i))
    ensures var r := Step(a, WakeUp(hidden));
            && |r.effects| == |a.effects|
            && forall i :: 0 <= i < |a.effects| ==>
                 r.effects[i] ==
                 if Wakes(a, WakeUp(hidden), i) then
                   a.effects[i].(rearmed := false, inFlight := [0], requests := 1, waited := 0)
                 else a.effects[i]
  {}

  /** And the banner: up from giving up to the next success of a live instance, which also marks the list as loaded. */
  lemma BannerFollows(es: seq<Event>, e: Event)
    requires Legal(Start(), es) && Enabled(Run(Start(), es), e)
    ensures var a := Run(Start(), es);
            var r := Step(a, e);
            var succeeds := e.LoadResolves? && Live(a, e.i);
            var fails := e.LoadRejects? && Live(a, e.i) && a.effects[e.i].inFlight[0] >= 4;
            && r.loadFailed == (if succeeds then false else a.loadFailed || fails)
            && r.workspacesLoaded == (a.workspacesLoaded || succeeds)
  {
    RunKeepsInv(Start(), es);
    var a := Run(Start(), es);
    hide Legal, Run;
    forall i | 0 <= i < |a.effects| ensures a.effects[i].cancelled <==> !Live(a, i) {}
  }
}
