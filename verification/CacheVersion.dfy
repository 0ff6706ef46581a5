/**
 * The version part of the API's cache keys (apps/api/src/timeline/service.ts, apps/api/src/main.ts) beside the version
 * lifecycle. A poll reads the status view and publishes its version later, perhaps after a younger poll; a request
 * takes its key from the published version, and its query reads the timeline view some time after that.
 */
module CacheVersion {
  import opened Options
  import L = Lifecycle

  /**
   * A request being built: the version in its key (absent while unknown), and the version its rows came from once read.
   */
  datatype Build = Build(key: Option<nat>, rows: Option<nat>)

  /**
   * `answers` are the status reads not yet published, and `builds` the requests being built. Two fields are histories:
   * `highest` is the highest version ever switched to, `cache` the responses cached so far.
   */
  datatype State = State(
    life: L.State, highest: nat, answers: multiset<nat>, status: Option<nat>, builds: seq<Build>, cache: seq<Build>)

  datatype Action =
    | Life(step: L.Action)
    | PollRead
    | PollPublish(version: nat)
    | Begin
    | ReadRows(i: nat)
    | Finish(i: nat)

  ghost predicate Next(s: State, a: Action, s': State) {
    match a
    case Life(step) =>
      && L.Next(s.life, step, s'.life)
      && s' == s.(life := s'.life,
                  highest := if step.SwitchStart? && step.version > s.highest then step.version else s.highest)
    case PollRead =>
      && s.life.views[L.STATUS].Some?
      && s' == s.(answers := s.answers + multiset{s.life.views[L.STATUS].value})
    case PollPublish(v) => v in s.answers && s' == s.(answers := s.answers - multiset{v}, status := Some(v))
    case Begin => s' == s.(builds := s.builds + [Build(s.status, None)])
    case ReadRows(i) =>
      && i < |s.builds| && s.builds[i].rows.None? && s.life.views[L.TIMELINE].Some?
      && s' == s.(builds := s.builds[i := s.builds[i].(rows := s.life.views[L.TIMELINE])])
    case Finish(i) =>
      && i < |s.builds| && s.builds[i].rows.Some?
      && s' == s.(builds := s.builds[..i] + s.builds[i + 1..], cache := s.cache + [s.builds[i]])
  }

  ghost predicate Init(s: State) { L.Init(s.life) && s == State(s.life, 0, multiset{}, None, [], []) }

  ghost predicate StepTo(s: State, s': State) { exists a: Action :: Next(s, a, s') }

  ghost predicate StepAt(run: seq<State>, i: nat)
    requires i + 1 < |run|
  {
    StepTo(run[i], run[i + 1])
  }

  ghost predicate Run(run: seq<State>) {
    |run| >= 1 && Init(run[0]) && forall i | 0 <= i < |run| - 1 :: StepAt(run, i)
  }

  function LastOf(run: seq<State>): State
    requires |run| >= 1
  {
    run[|run| - 1]
  }

  /**
   * The step starts no switch to a version lower than one switched to before (running the same switch again is fine).
   */
  predicate Climbs(s: State, s': State) {
    s'.life.switching.Some? && s'.life.switching.value.at.RetirePrevious? ==>
      s'.life.switching.value.target >= s.highest
  }

  ghost predicate Ascending(run: seq<State>) {
    forall i | 0 <= i < |run| - 1 :: Climbs(run[i], run[i + 1])
  }

  /** The timeline view names `n` or a newer version. */
  predicate TimelineFrom(s: L.State, n: nat) { s.views[L.TIMELINE].Some? && s.views[L.TIMELINE].value >= n }

  predicate KeyCovered(s: State, key: Option<nat>) { key.Some? ==> TimelineFrom(s.life, key.value) }

  /** Rows no older than the version in the key. */
  predicate NoOlder(b: Build) { b.key.Some? && b.rows.Some? ==> b.rows.value >= b.key.value }

  ghost predicate Inv(s: State) {
    && L.Inv(s.life)
    && (s.life.switching.Some? ==> s.life.switching.value.target == s.highest)
    && (s.life.views[L.TIMELINE].Some? ==> s.life.views[L.TIMELINE].value <= s.highest)
    && KeyCovered(s, s.life.views[L.STATUS])
    && (forall v | v in s.answers :: TimelineFrom(s.life, v))
    && KeyCovered(s, s.status)
    && (forall i | 0 <= i < |s.builds| :: KeyCovered(s, s.builds[i].key) && NoOlder(s.builds[i]))
    && (forall b | b in s.cache :: NoOlder(b))
  }

  /** It moves the status view only to a target the timeline view already names. */
  lemma {:induction false} StatusFollows(s: L.State, a: L.Action, s': L.State)
    requires L.Inv(s) && L.Next(s, a, s')
    ensures s'.views[L.STATUS] == s.views[L.STATUS]
         || (s.switching.Some? && s'.views[L.STATUS] == s'.views[L.TIMELINE] == Some(s.switching.value.target))
  {
  }

  /** The timeline view too is moved only to the target, which stays what it was until the next switch starts. */
  lemma {:induction false} TimelineFollows(s: L.State, a: L.Action, s': L.State)
    requires L.Inv(s) && L.Next(s, a, s')
    ensures s'.views[L.TIMELINE] == s.views[L.TIMELINE]
         || (s.switching.Some? && s'.views[L.TIMELINE] == Some(s.switching.value.target))
    ensures s'.switching.Some? ==>
      if a.SwitchStart? then s'.switching.value.at.RetirePrevious? && s'.switching.value.target == a.version
      else s.switching.Some? && s'.switching.value.target == s.switching.value.target
    ensures a.SwitchStart? ==> s'.switching.Some?
  {
  }

  lemma {:induction false} LifeKeepsInv(s: State, a: L.Action, s': State)
    requires Inv(s) && Next(s, Life(a), s') && Climbs(s, s')
    ensures Inv(s')
  {
    L.NextKeepsInv(s.life, a, s'.life);
    StatusFollows(s.life, a, s'.life);
    TimelineFollows(s.life, a, s'.life);
    hide L.Inv, L.Next;
    forall n: nat | TimelineFrom(s.life, n) ensures TimelineFrom(s'.life, n) {}
  }

  lemma {:induction false} NextKeepsInv(s: State, a: Action, s': State)
    requires Inv(s) && Next(s, a, s') && Climbs(s, s')
    ensures Inv(s')
  {
    match a
    case Life(step) => LifeKeepsInv(s, step, s');
    case PollRead => PollKeepsInv(s, a, s');
    case PollPublish(_) => PollKeepsInv(s, a, s');
    case _ => BuildKeepsInv(s, a, s');
  }

  lemma {:induction false} PollKeepsInv(s: State, a: Action, s': State)
    requires Inv(s) && Next(s, a, s') && (a.PollRead? || a.PollPublish?)
    ensures Inv(s')
  {
    hide L.Inv, L.Next;
    assert forall v | v in s'.answers :: v in s.answers || s.life.views[L.STATUS] == Some(v);
  }

  lemma {:induction false} BuildKeepsInv(s: State, a: Action, s': State)
    requires Inv(s) && Next(s, a, s') && (a.Begin? || a.ReadRows? || a.Finish?)
    ensures Inv(s')
  {
    hide L.Inv, L.Next;
    forall i | 0 <= i < |s'.builds| ensures KeyCovered(s', s'.builds[i].key) && NoOlder(s'.builds[i]) {
      if a.Finish? {
        assert s'.builds[i] == s.builds[if i < a.i then i else i + 1];
      }
    }
  }

  lemma {:induction false} RunInv(run: seq<State>, i: nat)
    requires Run(run) && Ascending(run) && i < |run|
    ensures Inv(run[i])
  {
    if i > 0 {
      RunInv(run, i - 1);
      assert StepAt(run, i - 1);
      var a :| Next(run[i - 1], a, run[i]);
      assert Climbs(run[i - 1], run[i]);
      NextKeepsInv(run[i - 1], a, run[i]);
    }
  }

  /**
   * While switches only go up, no cached response keyed by version N was built from rows of a version older than N, and
   * none will be: each build under a key of version N finds the timeline view at N or newer.
   */
  lemma {:induction false} CachedNeverOlder(run: seq<State>, i: nat)
    requires Run(run) && Ascending(run) && i < |run|
    ensures forall b | b in run[i].cache :: NoOlder(b)
    ensures forall j | 0 <= j < |run[i].builds| :: KeyCovered(run[i], run[i].builds[j].key)
  {
    RunInv(run, i);
  }

  /* ---------------------------------------------------------------- switching back */

  lemma {:induction false} Extend(run: seq<State>, a: Action, s: State)
    requires Run(run) && Next(LastOf(run), a, s)
    ensures Run(run + [s])
  {
    var longer := run + [s];
    forall i | 0 <= i < |longer| - 1 ensures StepAt(longer, i) {
      if i < |run| - 1 { assert StepAt(run, i); }
    }
  }

  /** One more lifecycle step, with the state it leads to. */
  lemma {:induction false} ExtendLife(run: seq<State>, a: L.Action, life: L.State) returns (longer: seq<State>)
    requires Run(run) && L.Next(LastOf(run).life, a, life) && !a.SwitchStart?
    ensures Run(longer) && LastOf(longer) == LastOf(run).(life := life)
  {
    var s := LastOf(run).(life := life);
    assert Next(LastOf(run), Life(a), s);
    Extend(run, Life(a), s);
    longer := run + [s];
  }

  /** Two versions, of which the lower one has the first state. */
  function Both(n: nat, m: nat, low: L.DeploymentState, high: L.DeploymentState): map<nat, L.Deployment> {
    map[n := L.Deployment(low, false), m := L.Deployment(high, false)]
  }

  function Naming(n: nat, m: nat, low: L.DeploymentState, high: L.DeploymentState, views: L.Views, w: Option<L.Switch>)
    : L.State
  {
    L.State(Both(n, m, low, high), {n, m}, {}, views, L.NO_VIEWS, w, {})
  }

  function AllOf(v: nat): L.Views { [Some(v), Some(v), Some(v)] }

  lemma {:induction false} ExtendStart(run: seq<State>, v: nat, life: L.State) returns (longer: seq<State>)
    requires Run(run) && v in LastOf(run).life.deployments
    requires LastOf(run).life.switching.None? && L.MayTarget(LastOf(run).life, v, true)
    requires life == L.SwitchStarted(LastOf(run).life, v)
    ensures Run(longer)
    ensures var s := LastOf(run);
      LastOf(longer) == s.(life := life, highest := if v > s.highest then v else s.highest)
  {
    var s := LastOf(run);
    var s' := s.(life := life, highest := if v > s.highest then v else s.highest);
    var start := L.SwitchStart(v, true, L.UNREADABLE);
    assert L.Next(s.life, start, life);
    assert Next(s, Life(start), s');
    Extend(run, Life(start), s');
    longer := run + [s'];
  }

  /** Versions n and m deployed, and the first switch, to m, begun. */
  lemma {:induction false} FirstSwitch(n: nat, m: nat) returns (run: seq<State>)
    requires n < m
    ensures Run(run)
    ensures LastOf(run) == State(
      Naming(n, m, L.Building, L.Active, L.NO_VIEWS, Some(L.Switch(m, {}, {}, L.Swap(0, L.DropNext)))),
      m, multiset{}, None, [], [])
  {
    run := [State(L.State(map[], {}, {}, L.NO_VIEWS, L.NO_VIEWS, None, {}), 0, multiset{}, None, [], [])];
    var one := run[0].life.(deployments := map[n := L.Deployment(L.Building, false)], tables := {n});
    run := ExtendLife(run, L.Deploy(n), one);
    assert {n} + {m} == {n, m};
    assert one.deployments[m := L.Deployment(L.Building, false)] == Both(n, m, L.Building, L.Building);
    run := ExtendLife(run, L.Deploy(m), Naming(n, m, L.Building, L.Building, L.NO_VIEWS, None));
    var life := LastOf(run).life;
    assert L.ActiveVersions(life) - {m} == {};
    assert Both(n, m, L.Building, L.Building)[m := L.Deployment(L.Active, false)] == Both(n, m, L.Building, L.Active);
    var started := Naming(n, m, L.Building, L.Active, L.NO_VIEWS, Some(L.Switch(m, {}, {}, L.RetirePrevious)));
    run := ExtendStart(run, m, started);
    run := ExtendLife(run, L.SwitchStep(0), started.(switching := Some(L.Switch(m, {}, {}, L.ReadViews))));
    assert (set i | 0 <= i < L.VIEWS && started.views[i].Some?) == {};
    run := ExtendLife(run, L.SwitchStep(0), started.(switching := Some(L.Switch(m, {}, {}, L.Swap(0, L.DropNext)))));
  }

  /** The first switch completed, and its version published. */
  lemma {:induction false} HighPublished(n: nat, m: nat) returns (run: seq<State>)
    requires n < m
    ensures Run(run)
    ensures LastOf(run)
         == State(Naming(n, m, L.Building, L.Active, AllOf(m), None), m, multiset{}, Some(m), [], [])
  {
    run := FirstSwitch(n, m);
    var life := LastOf(run).life;
    run := ExtendLife(run, L.SwitchStep(0), life.(
      views := [Some(m), None, None], switching := Some(L.Switch(m, {}, {}, L.Swap(1, L.DropNext)))));
    run := ExtendLife(run, L.SwitchStep(0), life.(
      views := [Some(m), Some(m), None], switching := Some(L.Switch(m, {}, {}, L.Swap(2, L.DropNext)))));
    run := ExtendLife(run, L.SwitchStep(0), life.(
      views := AllOf(m), switching := Some(L.Switch(m, {}, {}, L.Completed))));
    run := ExtendLife(run, L.SwitchStep(0), life.(views := AllOf(m), switching := None));
    var s := LastOf(run).(answers := multiset{m});
    Extend(run, PollRead, s);
    run := run + [s];
    Extend(run, PollPublish(m), s.(answers := multiset{}, status := Some(m)));
    run := run + [s.(answers := multiset{}, status := Some(m))];
  }

  /** A switch back to n, stopped once the timeline view names n and the status view still names m. */
  lemma {:induction false} BackToLow(n: nat, m: nat) returns (run: seq<State>)
    requires n < m
    ensures Run(run)
    ensures var s := LastOf(run);
      s.status == Some(m) && s.builds == [] && s.cache == [] && s.life.views == [Some(n), Some(m), Some(m)]
  {
    run := HighPublished(n, m);
    var life := LastOf(run).life;
    assert L.ActiveVersions(life) - {n} == {m};
    assert Both(n, m, L.Building, L.Active)[n := L.Deployment(L.Active, false)] == Both(n, m, L.Active, L.Active);
    var started := Naming(n, m, L.Active, L.Active, AllOf(m), Some(L.Switch(n, {m}, {}, L.RetirePrevious)));
    run := ExtendStart(run, n, started);
    assert Both(n, m, L.Active, L.Active)[m := L.Deployment(L.Retired, false)] == Both(n, m, L.Active, L.Retired);
    assert {m} - {m} == {};
    var retired := Naming(n, m, L.Active, L.Retired, AllOf(m), Some(L.Switch(n, {}, {}, L.RetirePrevious)));
    run := ExtendLife(run, L.SwitchStep(m), retired);
    run := SwappedBack(run, n, m);
  }

  lemma {:induction false} SwappedBack(before: seq<State>, n: nat, m: nat) returns (run: seq<State>)
    requires Run(before) && n < m
    requires LastOf(before).life
          == Naming(n, m, L.Active, L.Retired, AllOf(m), Some(L.Switch(n, {}, {}, L.RetirePrevious)))
    ensures Run(run)
    ensures exists life ::
      LastOf(run) == LastOf(before).(life := life) && life.views == [Some(n), Some(m), Some(m)]
  {
    var life := LastOf(before).life;
    var there := set i | 0 <= i < L.VIEWS && life.views[i].Some?;
    run := ExtendLife(before, L.SwitchStep(0), life.(switching := Some(L.Switch(n, {}, {}, L.ReadViews))));
    run := ExtendLife(run, L.SwitchStep(0), life.(switching := Some(L.Switch(n, {}, there, L.Swap(0, L.DropNext)))));
    run := ExtendLife(run, L.SwitchStep(0), life.(switching := Some(L.Switch(n, {}, there, L.Swap(0, L.CreateNext)))));
    run := ExtendLife(run, L.SwitchStep(0), life.(
      next := [Some(n), None, None], switching := Some(L.Switch(n, {}, there, L.Swap(0, L.Exchange)))));
    run := ExtendLife(run, L.SwitchStep(0), life.(
      views := [Some(n), Some(m), Some(m)], next := [Some(m), None, None],
      switching := Some(L.Switch(n, {}, there, L.Swap(0, L.DropReplaced)))));
  }

  /* ---------------------------------------------------------------- exactly when */

  predicate Higher(n: Option<nat>, v: nat) { n.Some? && n.value > v }

  /** Rows of `v` under the key of a newer version. */
  predicate OlderRows(b: Build, v: nat) { b.rows == Some(v) && Higher(b.key, v) }

  /** A build that has such rows or can still read them. */
  predicate MayReadOlder(b: Build, v: nat) { Higher(b.key, v) && (b.rows.None? || b.rows == Some(v)) }

  /** A version above `v` in the status view, in a status read not published yet, published, or in a build's key. */
  ghost predicate Above(s: State, v: nat) {
    || Higher(s.life.views[L.STATUS], v)
    || (exists n :: n in s.answers && n > v)
    || Higher(s.status, v)
    || (exists i :: 0 <= i < |s.builds| && MayReadOlder(s.builds[i], v))
  }

  /** What follows for as long as the timeline view names `v`. */
  ghost predicate NamingFrom(s: State, v: nat, later: seq<State>) {
    && |later| >= 1 && later[0] == s
    && (forall i | 0 <= i < |later| :: later[i].life.views[L.TIMELINE] == Some(v))
    && (forall i | 0 <= i < |later| - 1 :: StepAt(later, i))
  }

  /** Since `s`, a response of `v`'s rows was cached under the key of a newer version. */
  ghost predicate CachesOlder(s: State, t: State, v: nat) {
    exists k :: |s.cache| <= k < |t.cache| && OlderRows(t.cache[k], v)
  }

  /** None above, and none cached since `s`. */
  ghost predicate NoneAbove(s: State, t: State, v: nat) {
    L.Inv(t.life) && !Above(t, v) && |s.cache| <= |t.cache| && !CachesOlder(s, t, v)
  }

  lemma {:induction false} NoneAboveLife(s: State, t: State, a: L.Action, t': State, v: nat)
    requires NoneAbove(s, t, v) && Next(t, Life(a), t') && t'.life.views[L.TIMELINE] == Some(v)
    ensures NoneAbove(s, t', v)
  {
    L.NextKeepsInv(t.life, a, t'.life);
    StatusFollows(t.life, a, t'.life);
    hide L.Inv, L.Next;
  }

  lemma {:induction false} NoneAboveStep(s: State, t: State, a: Action, t': State, v: nat)
    requires NoneAbove(s, t, v) && Next(t, a, t') && t'.life.views[L.TIMELINE] == Some(v)
    ensures NoneAbove(s, t', v)
  {
    if a.Life? {
      NoneAboveLife(s, t, a.step, t', v);
    } else if a.PollRead? || a.PollPublish? {
      NoneAbovePoll(s, t, a, t', v);
    } else {
      NoneAboveBuild(s, t, a, t', v);
    }
  }

  lemma {:induction false} NoneAbovePoll(s: State, t: State, a: Action, t': State, v: nat)
    requires NoneAbove(s, t, v) && Next(t, a, t') && (a.PollRead? || a.PollPublish?)
    ensures NoneAbove(s, t', v)
  {
    hide L.Inv, L.Next, OlderRows, MayReadOlder;
    assert forall n | n in t'.answers :: n in t.answers || t.life.views[L.STATUS] == Some(n);
  }

  lemma {:induction false} NoneAboveBuild(s: State, t: State, a: Action, t': State, v: nat)
    requires NoneAbove(s, t, v) && Next(t, a, t') && t'.life.views[L.TIMELINE] == Some(v)
    requires a.Begin? || a.ReadRows? || a.Finish?
    ensures NoneAbove(s, t', v)
  {
    hide L.Inv, L.Next;
    forall i | 0 <= i < |t'.builds| ensures !MayReadOlder(t'.builds[i], v) {
      if i < |t.builds| { assert !MayReadOlder(t.builds[i], v); }
      if a.Finish? && i + 1 < |t.builds| { assert !MayReadOlder(t.builds[i + 1], v); }
    }
    if a.Finish? { assert !MayReadOlder(t.builds[a.i], v); }
  }

  lemma {:induction false} NoneAboveThrough(s: State, later: seq<State>, v: nat, j: nat)
    requires NamingFrom(s, v, later) && NoneAbove(s, s, v) && j < |later|
    ensures NoneAbove(s, later[j], v)
  {
    if j > 0 {
      NoneAboveThrough(s, later, v, j - 1);
      assert StepAt(later, j - 1);
      var a :| Next(later[j - 1], a, later[j]);
      NoneAboveStep(s, later[j - 1], a, later[j], v);
    }
  }

  predicate Names(s: State, v: nat) { s.life.views[L.TIMELINE] == Some(v) }

  /** One step before a continuation that caches such a response. */
  lemma {:induction false} StepBefore(s: State, a: Action, s': State, v: nat, rest: seq<State>)
    returns (later: seq<State>)
    requires Names(s, v) && Next(s, a, s') && s'.cache == s.cache
    requires NamingFrom(s', v, rest) && CachesOlder(s', LastOf(rest), v)
    ensures NamingFrom(s, v, later) && CachesOlder(s, LastOf(later), v)
  {
    later := [s] + rest;
    assert StepTo(s, s');
    forall i | 0 <= i < |later| - 1 ensures StepAt(later, i) {
      if i > 0 { assert StepAt(rest, i - 1); }
    }
  }

  lemma {:induction false} BuildCaches(s: State, v: nat, i: nat) returns (later: seq<State>)
    requires Names(s, v) && i < |s.builds| && MayReadOlder(s.builds[i], v)
    ensures NamingFrom(s, v, later) && CachesOlder(s, LastOf(later), v)
    decreases s.builds[i].rows.None?
  {
    if s.builds[i].rows.None? {
      var s' := s.(builds := s.builds[i := s.builds[i].(rows := Some(v))]);
      var rest := BuildCaches(s', v, i);
      later := StepBefore(s, ReadRows(i), s', v, rest);
    } else {
      var s' := s.(builds := s.builds[..i] + s.builds[i + 1..], cache := s.cache + [s.builds[i]]);
      assert Next(s, Finish(i), s');
      later := [s, s'];
      assert StepAt(later, 0) && OlderRows(s'.cache[|s.cache|], v);
    }
  }

  lemma {:induction false} PublishedCaches(s: State, v: nat) returns (later: seq<State>)
    requires Names(s, v) && Higher(s.status, v)
    ensures NamingFrom(s, v, later) && CachesOlder(s, LastOf(later), v)
  {
    var s' := s.(builds := s.builds + [Build(s.status, None)]);
    var rest := BuildCaches(s', v, |s.builds|);
    later := StepBefore(s, Begin, s', v, rest);
  }

  lemma {:induction false} AnswerCaches(s: State, v: nat, n: nat) returns (later: seq<State>)
    requires Names(s, v) && n in s.answers && n > v
    ensures NamingFrom(s, v, later) && CachesOlder(s, LastOf(later), v)
  {
    var s' := s.(answers := s.answers - multiset{n}, status := Some(n));
    var rest := PublishedCaches(s', v);
    later := StepBefore(s, PollPublish(n), s', v, rest);
  }

  lemma {:induction false} StatusCaches(s: State, v: nat) returns (later: seq<State>)
    requires Names(s, v) && Higher(s.life.views[L.STATUS], v)
    ensures NamingFrom(s, v, later) && CachesOlder(s, LastOf(later), v)
  {
    var n := s.life.views[L.STATUS].value;
    var s' := s.(answers := s.answers + multiset{n});
    var rest := AnswerCaches(s', v, n);
    later := StepBefore(s, PollRead, s', v, rest);
  }

  lemma {:induction false} AboveCaches(s: State, v: nat) returns (later: seq<State>)
    requires Names(s, v) && Above(s, v)
    ensures NamingFrom(s, v, later) && CachesOlder(s, LastOf(later), v)
  {
    if i: nat :| i < |s.builds| && MayReadOlder(s.builds[i], v) {
      later := BuildCaches(s, v, i);
    } else if Higher(s.status, v) {
      later := PublishedCaches(s, v);
    } else if n :| n in s.answers && n > v {
      later := AnswerCaches(s, v, n);
    } else {
      later := StatusCaches(s, v);
    }
  }

  lemma {:induction false} LifeInv(run: seq<State>, i: nat)
    requires Run(run) && i < |run|
    ensures L.Inv(run[i].life)
  {
    if i > 0 {
      LifeInv(run, i - 1);
      assert StepAt(run, i - 1);
      var a :| Next(run[i - 1], a, run[i]);
      if a.Life? { L.NextKeepsInv(run[i - 1].life, a.step, run[i].life); }
    }
  }

  /**
   * Exactly when, in any run and whatever was switched to before: while the timeline view names v, a response of v's
   * rows can be cached under a newer version's key if and only if the status view, a status read not published yet, the
   * published version or the key of a build is newer than v.
   */
  lemma {:induction false} OlderRowsExactly(run: seq<State>, i: nat, v: nat)
    requires Run(run) && i < |run| && Names(run[i], v)
    ensures (exists later | NamingFrom(run[i], v, later) :: CachesOlder(run[i], LastOf(later), v)) <==> Above(run[i], v)
  {
    var s := run[i];
    if Above(s, v) {
      var later := AboveCaches(s, v);
    } else {
      LifeInv(run, i);
      forall later | NamingFrom(s, v, later) ensures !CachesOlder(s, LastOf(later), v) {
        NoneAboveThrough(s, later, v, |later| - 1);
      }
    }
  }

  /**
   * A switch back breaks it, whatever the two versions: from m back to a lower n, a request between the swaps of the
   * timeline view and of the status view takes its key from m and its rows from n, and the response is cached under m.
   * So switches that only go up are needed for `CachedNeverOlder`, as they are enough.
   */
  lemma {:induction false} SwitchingBackCachesOlder(n: nat, m: nat) returns (run: seq<State>)
    requires n < m
    ensures Run(run) && !Ascending(run)
    ensures Build(Some(m), Some(n)) in LastOf(run).cache && !NoOlder(Build(Some(m), Some(n)))
  {
    run := BackToLow(n, m);
    var s, b := LastOf(run), Build(Some(m), Some(n));
    var begun, read := s.(builds := [Build(Some(m), None)]), s.(builds := [b]);
    var done := read.(builds := [], cache := [b]);
    Extend(run, Begin, begun);
    run := run + [begun];
    Extend(run, ReadRows(0), read);
    run := run + [read];
    assert read.builds[..0] + read.builds[1..] == [] && read.cache + [b] == [b];
    Extend(run, Finish(0), done);
    run := run + [done];
    assert b in LastOf(run).cache && !NoOlder(b);
    if Ascending(run) {
      CachedNeverOlder(run, |run| - 1);
      assert false;
    }
  }
}
