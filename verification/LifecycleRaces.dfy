/**
 * Cleanup beside a switch, read by read: a switch reads the deployment rows and its gate's events some time before it
 * marks its target active, and a cleanup reads a version's state and the views some time before it drops the version's
 * tables. `Lifecycle` takes each of these pairs as one step. Here they are two, and exactly when a version whose tables
 * were dropped can come to be named by a view is the state the drop lands in.
 */
module LifecycleRaces {
  import opened Options
  import L = Lifecycle

  /** What a switch has read of its target and of the versions active before it. */
  datatype Read = Read(target: nat, previous: set<nat>, wasActive: bool)

  /** `reading` is the switch that has not marked its target yet; `checked` the versions a cleanup found it may drop. */
  datatype State = State(life: L.State, reading: Option<Read>, checked: set<nat>)

  datatype Action =
    | Life(step: L.Action)
    | SwitchRead(version: nat, force: bool, facts: L.Facts)
    | SwitchMark
    | SwitchGiveUp
    | SweepCheck(version: nat)
    | SweepDrop(version: nat)
    | SweepGiveUp(version: nat)

  /** The target is marked as it was read: whatever its state has become. */
  function Marked(s: L.State, r: Read): L.State
    requires r.target in s.deployments
  {
    (if r.wasActive then s else L.SetState(s, r.target, L.Active)).(
      switching := Some(L.Switch(r.target, r.previous, {}, L.RetirePrevious)))
  }

  /** The tables go, and the row says so. */
  function Dropped(s: L.State, v: nat): L.State
    requires v in s.deployments
  {
    s.(tables := s.tables - {v}, deployments := s.deployments[v := s.deployments[v].(tablesDropped := true)],
       sweeping := s.sweeping + {v})
  }

  ghost predicate Next(s: State, a: Action, s': State) {
    match a
    case Life(step) =>
      && !step.SwitchStart? && !step.SweepTables?
      && L.Next(s.life, step, s'.life) && s' == s.(life := s'.life)
    case SwitchRead(v, force, f) =>
      && s.reading.None? && s.life.switching.None? && L.Accepts(s.life, v, force, f)
      && s' == s.(reading := Some(Read(v, L.ActiveVersions(s.life) - {v}, L.StateOf(s.life, v) == Some(L.Active))))
    case SwitchMark =>
      && s.reading.Some? && s.reading.value.target in s.life.deployments
      && s' == s.(life := Marked(s.life, s.reading.value), reading := None)
    case SwitchGiveUp => s' == s.(reading := None)
    case SweepCheck(v) =>
      && L.StateOf(s.life, v) == Some(L.Retired) && !L.Named(s.life, v)
      && s' == if L.TablesDropped(s.life, v) then s.(life := s.life.(sweeping := s.life.sweeping + {v}))
               else s.(checked := s.checked + {v})
    case SweepDrop(v) =>
      && v in s.checked && v in s.life.deployments
      && s' == s.(life := Dropped(s.life, v), checked := s.checked - {v})
    case SweepGiveUp(v) => s' == s.(checked := s.checked - {v})
  }

  ghost predicate Init(s: State) { L.Init(s.life) && s == State(s.life, None, {}) }

  ghost predicate StepTo(s: State, s': State) { exists a: Action :: Next(s, a, s') }

  ghost predicate StepAt(run: seq<State>, i: nat)
    requires i + 1 < |run|
  {
    StepTo(run[i], run[i + 1])
  }

  ghost predicate From(s: State, run: seq<State>) {
    |run| >= 1 && run[0] == s && forall i | 0 <= i < |run| - 1 :: StepAt(run, i)
  }

  ghost predicate Run(run: seq<State>) { |run| >= 1 && Init(run[0]) && From(run[0], run) }

  function LastOf(run: seq<State>): State
    requires |run| >= 1
  {
    run[|run| - 1]
  }

  /** The drop of a version's tables. */
  ghost predicate Drops(s: State, s': State, v: nat) { Next(s, SweepDrop(v), s') }

  predicate SwitchingTo(s: State, v: nat) {
    (s.reading.Some? && s.reading.value.target == v) || (s.life.switching.Some? && s.life.switching.value.target == v)
  }

  /** A drop that lands here meets a view or a switch. */
  predicate Exposed(s: State, v: nat) { L.Named(s.life, v) || SwitchingTo(s, v) }

  /* ---------------------------------------------------------------- what holds in any case */

  /** The running switch's place fits the views, whatever has become of its target. */
  predicate PlaceOk(s: L.State, w: L.Switch) {
    && w.target in s.deployments && (forall v | v in w.previous :: v in s.deployments)
    && match w.at
       case Swap(i, step) =>
         && i < L.VIEWS
         && (forall j | 0 <= j < i :: s.views[j] == Some(w.target))
         && (step == L.Exchange ==> s.next[i] == Some(w.target))
         && (step == L.DropReplaced ==> s.views[i] == Some(w.target))
       case Completed => forall j | 0 <= j < L.VIEWS :: s.views[j] == Some(w.target)
       case _ => true
  }

  ghost predicate Inv(s: State) {
    && (s.life.switching.Some? ==> PlaceOk(s.life, s.life.switching.value))
    && (s.reading.Some? ==>
          s.reading.value.target in s.life.deployments
          && forall v | v in s.reading.value.previous :: v in s.life.deployments)
    && (forall v | v in s.checked :: v in s.life.deployments)
    && (forall v: nat | L.Named(s.life, v) :: v in s.life.deployments)
    && (forall v | v in s.life.deployments && !s.life.deployments[v].tablesDropped :: v in s.life.tables)
  }

  lemma {:induction false} SwitchNames(s: L.State, w: L.Switch, retire: nat, s': L.State, v: nat)
    requires s.switching == Some(w) && PlaceOk(s, w) && L.Switches(s, w, retire, s') && L.Named(s', v)
    ensures L.Named(s, v) || v == w.target
  {
    var i :| 0 <= i < L.VIEWS && (s'.views[i] == Some(v) || s'.next[i] == Some(v));
    assert v == w.target || s.views[i] == Some(v) || s.next[i] == Some(v);
  }

  lemma {:induction false} SwitchKeeps(s: L.State, w: L.Switch, retire: nat, s': L.State)
    requires s.switching == Some(w) && PlaceOk(s, w) && L.Switches(s, w, retire, s')
    ensures s'.deployments.Keys == s.deployments.Keys && s'.tables == s.tables
    ensures forall v | v in s.deployments :: s'.deployments[v].tablesDropped == s.deployments[v].tablesDropped
    ensures s'.switching.Some? ==> s'.switching.value.target == w.target && PlaceOk(s', s'.switching.value)
  {
  }

  /** The other steps of the lifecycle leave the views, the running switch and what is recorded as dropped. */
  lemma {:induction false} OthersKeep(s: L.State, step: L.Action, s': L.State)
    requires L.Next(s, step, s') && !step.SwitchStart? && !step.SweepTables? && !step.SwitchStep?
    ensures s'.views == s.views && s'.next == s.next && (s'.switching == s.switching || s'.switching.None?)
    ensures s.deployments.Keys <= s'.deployments.Keys && s.tables <= s'.tables
    ensures forall v | v in s.deployments :: s'.deployments[v].tablesDropped == s.deployments[v].tablesDropped
    ensures forall v | v in s'.deployments && v !in s.deployments :: v in s'.tables
  {
  }

  lemma {:induction false} SameNames(s: L.State, s': L.State, v: nat)
    requires s'.views == s.views && s'.next == s.next
    ensures L.Named(s', v) == L.Named(s, v)
  {
    if i :| 0 <= i < L.VIEWS && (s.views[i] == Some(v) || s.next[i] == Some(v)) {
      assert s'.views[i] == Some(v) || s'.next[i] == Some(v);
    }
    if i :| 0 <= i < L.VIEWS && (s'.views[i] == Some(v) || s'.next[i] == Some(v)) {
      assert s.views[i] == Some(v) || s.next[i] == Some(v);
    }
  }

  /** A name that is new is the running switch's target. */
  lemma {:induction false} NamesNew(s: State, a: Action, s': State, v: nat)
    requires Inv(s) && Next(s, a, s') && L.Named(s'.life, v)
    ensures L.Named(s.life, v) || (a.Life? && s.life.switching.Some? && s.life.switching.value.target == v)
  {
    if a.Life? && a.step.SwitchStep? {
      SwitchNames(s.life, s.life.switching.value, a.step.retire, s'.life, v);
    } else {
      if a.Life? { OthersKeep(s.life, a.step, s'.life); }
      SameNames(s.life, s'.life, v);
    }
  }

  lemma {:induction false} NextKeepsInv(s: State, a: Action, s': State)
    requires Inv(s) && Next(s, a, s')
    ensures Inv(s')
  {
    if a.Life? {
      if a.step.SwitchStep? { SwitchKeeps(s.life, s.life.switching.value, a.step.retire, s'.life); }
      else { OthersKeep(s.life, a.step, s'.life); }
    }
    forall v: nat | L.Named(s'.life, v) ensures v in s'.life.deployments { NamesNew(s, a, s', v); }
  }

  lemma {:induction false} RunInv(run: seq<State>, i: nat)
    requires Run(run) && i < |run|
    ensures Inv(run[i])
  {
    if i > 0 {
      RunInv(run, i - 1);
      assert StepAt(run, i - 1);
      var a :| Next(run[i - 1], a, run[i]);
      NextKeepsInv(run[i - 1], a, run[i]);
    }
  }

  /* ---------------------------------------------------------------- not exposed: never named again */

  ghost predicate Gone(s: State, v: nat) { Inv(s) && L.TablesDropped(s.life, v) && !Exposed(s, v) }

  lemma {:induction false} GoneStays(s: State, a: Action, s': State, v: nat)
    requires Gone(s, v) && Next(s, a, s')
    ensures Gone(s', v)
  {
    NextKeepsInv(s, a, s');
    if L.Named(s'.life, v) { NamesNew(s, a, s', v); }
    if a.Life? {
      if a.step.SwitchStep? { SwitchKeeps(s.life, s.life.switching.value, a.step.retire, s'.life); }
      else { OthersKeep(s.life, a.step, s'.life); }
    }
  }

  lemma {:induction false} GoneThrough(later: seq<State>, j: nat, v: nat)
    requires |later| >= 1 && From(later[0], later) && Gone(later[0], v) && j < |later|
    ensures Gone(later[j], v)
  {
    if j > 0 {
      GoneThrough(later, j - 1, v);
      assert StepAt(later, j - 1);
      var a :| Next(later[j - 1], a, later[j]);
      GoneStays(later[j - 1], a, later[j], v);
    }
  }

  lemma {:induction false} DropGone(s: State, s': State, v: nat)
    requires Inv(s) && Drops(s, s', v) && !Exposed(s, v)
    ensures Gone(s', v)
  {
    NextKeepsInv(s, SweepDrop(v), s');
    SameNames(s.life, s'.life, v);
  }

  /** In the step from `j` a cleanup checks the version, and until `i` it has not dropped it nor given up. */
  ghost predicate CheckedSince(run: seq<State>, j: nat, i: nat, v: nat)
    requires i < |run|
  {
    j < i && v !in run[j].checked && forall k | j < k <= i :: v in run[k].checked
  }

  /** What a cleanup checked stays clear, unless a switch to it is underway somewhere before its drop. */
  lemma {:induction false} CheckedStaysClear(run: seq<State>, j: nat, i: nat, v: nat)
    requires Run(run) && i < |run| && CheckedSince(run, j, i, v)
    requires forall k | j <= k <= i :: !SwitchingTo(run[k], v)
    ensures !Exposed(run[i], v)
    decreases i
  {
    RunInv(run, i - 1);
    assert StepAt(run, i - 1);
    var a :| Next(run[i - 1], a, run[i]);
    if j < i - 1 {
      CheckedStaysClear(run, j, i - 1, v);
    } else {
      CheckFindsClear(run[j], a, run[i], v);
    }
    if L.Named(run[i].life, v) { NamesNew(run[i - 1], a, run[i], v); }
  }

  lemma {:induction false} CheckFindsClear(s: State, a: Action, s': State, v: nat)
    requires Next(s, a, s') && v !in s.checked && v in s'.checked
    ensures L.StateOf(s.life, v) == Some(L.Retired) && !L.Named(s.life, v)
  {
    assert a == SweepCheck(v) by { hide L.Next, L.Named, L.Accepts; }
  }

  /* ---------------------------------------------------------------- exposed: a view can name it */

  lemma {:induction false} Prepend(s: State, s': State, later: seq<State>)
    requires StepTo(s, s') && From(s', later)
    ensures From(s, [s] + later)
  {
    var all := [s] + later;
    forall i | 0 <= i < |all| - 1 ensures StepAt(all, i) {
      if i > 0 { assert StepAt(later, i - 1); }
    }
  }

  lemma {:induction false} CompletedNames(s: L.State, w: L.Switch)
    requires PlaceOk(s, w) && w.at == L.Completed
    ensures L.Named(s, w.target)
  {
    assert s.views[0] == Some(w.target);
  }

  /** The running switch has a next statement, or its target is named. */
  lemma {:induction false} HasStatement(s: L.State, w: L.Switch) returns (retire: nat, s': L.State)
    requires s.switching == Some(w) && PlaceOk(s, w) && !L.Named(s, w.target)
    ensures L.Next(s, L.SwitchStep(retire), s') && s'.switching.Some? && s'.switching.value.target == w.target
    ensures L.StatementsLeft(s'.switching.value) < L.StatementsLeft(w)
  {
    retire := 0;
    if w.at == L.Completed { CompletedNames(s, w); }
    match w.at
    case RetirePrevious =>
      if w.previous == {} {
        s' := s.(switching := Some(w.(at := L.ReadViews)));
      } else {
        retire :| retire in w.previous;
        s' := L.SetState(s, retire, L.Retired).(switching := Some(w.(previous := w.previous - {retire})));
      }
    case ReadViews =>
      s' := s.(switching := Some(w.(existing := (set i | 0 <= i < L.VIEWS && s.views[i].Some?),
                                    at := L.Swap(0, L.DropNext))));
    case Swap(i, step) =>
      if i !in w.existing {
        s' := s.(views := s.views[i := Some(w.target)], switching := Some(w.(at := L.NextSwap(i))));
      } else if step.DropNext? {
        s' := s.(next := s.next[i := None], switching := Some(w.(at := L.Swap(i, L.CreateNext))));
      } else {
        assert step != L.Exchange && step != L.DropReplaced;
        s' := s.(next := s.next[i := Some(w.target)], switching := Some(w.(at := L.Swap(i, L.Exchange))));
      }
    case Completed =>
  }

  lemma {:induction false} SwitchNamesTarget(s: State, w: L.Switch) returns (later: seq<State>)
    requires Inv(s) && s.life.switching == Some(w)
    ensures From(s, later) && L.Named(LastOf(later).life, w.target)
    decreases L.StatementsLeft(w)
  {
    if L.Named(s.life, w.target) {
      later := [s];
    } else {
      var retire, life := HasStatement(s.life, w);
      var s' := s.(life := life);
      assert Next(s, Life(L.SwitchStep(retire)), s');
      NextKeepsInv(s, Life(L.SwitchStep(retire)), s');
      var rest := SwitchNamesTarget(s', life.switching.value);
      later := [s] + rest;
      Prepend(s, s', rest);
    }
  }

  lemma {:induction false} ExposedNames(s: State, s': State, v: nat) returns (later: seq<State>)
    requires Inv(s) && Drops(s, s', v) && Exposed(s, v)
    ensures From(s', later) && L.Named(LastOf(later).life, v)
  {
    NextKeepsInv(s, SweepDrop(v), s');
    if L.Named(s.life, v) {
      SameNames(s.life, s'.life, v);
      later := [s'];
    } else if s.life.switching.Some? && s.life.switching.value.target == v {
      later := SwitchNamesTarget(s', s'.life.switching.value);
    } else {
      var s'' := s'.(life := Marked(s'.life, s'.reading.value), reading := None);
      assert Next(s', SwitchMark, s'');
      NextKeepsInv(s', SwitchMark, s'');
      var rest := SwitchNamesTarget(s'', s''.life.switching.value);
      later := [s'] + rest;
      Prepend(s', s'', rest);
    }
  }

  /**
   * Exactly when dropped tables can come to be named: from where a cleanup's drop of a version's tables lands, some
   * continuation has a view that names the version, if and only if when it lands a view names it already or a switch to
   * it is underway, between its read and its end.
   */
  lemma {:induction false} NamedAfterDropExactly(run: seq<State>, i: nat, v: nat)
    requires Run(run) && i + 1 < |run| && Drops(run[i], run[i + 1], v)
    ensures (exists later | From(run[i + 1], later) :: L.Named(LastOf(later).life, v)) <==> Exposed(run[i], v)
  {
    RunInv(run, i);
    if Exposed(run[i], v) {
      var later := ExposedNames(run[i], run[i + 1], v);
    } else {
      DropGone(run[i], run[i + 1], v);
      forall later | From(run[i + 1], later) ensures !L.Named(LastOf(later).life, v) {
        GoneThrough(later, |later| - 1, v);
      }
    }
  }

  ghost predicate DropsClear(run: seq<State>, v: nat) {
    forall i | 0 <= i < |run| - 1 && Drops(run[i], run[i + 1], v) :: !Exposed(run[i], v)
  }

  ghost predicate Safe(s: State, v: nat) {
    Inv(s) && (L.TablesDropped(s.life, v) ==> !Exposed(s, v))
  }

  lemma {:induction false} SafeStep(s: State, a: Action, s': State, v: nat)
    requires Safe(s, v) && Next(s, a, s') && (a == SweepDrop(v) ==> !Exposed(s, v))
    ensures Safe(s', v)
  {
    NextKeepsInv(s, a, s');
    if L.TablesDropped(s.life, v) {
      GoneStays(s, a, s', v);
    } else if a == SweepDrop(v) {
      DropGone(s, s', v);
    } else if a.Life? {
      if a.step.SwitchStep? { SwitchKeeps(s.life, s.life.switching.value, a.step.retire, s'.life); }
      else { OthersKeep(s.life, a.step, s'.life); }
    }
  }

  /** Where every drop of a version lands clear of views and switches, what a view names of it always has its tables. */
  lemma {:induction false} ClearDropsAreSafe(run: seq<State>, i: nat, v: nat)
    requires Run(run) && i < |run| && DropsClear(run, v)
    ensures Safe(run[i], v)
    ensures L.Named(run[i].life, v) ==> !L.TablesDropped(run[i].life, v) && v in run[i].life.tables
  {
    if i > 0 {
      ClearDropsAreSafe(run, i - 1, v);
      assert StepAt(run, i - 1);
      var a :| Next(run[i - 1], a, run[i]);
      SafeStep(run[i - 1], a, run[i], v);
    }
  }

  /* ---------------------------------------------------------------- a run to each */

  lemma {:induction false} Extend(run: seq<State>, a: Action, s': State)
    requires Run(run) && Next(LastOf(run), a, s')
    ensures Run(run + [s'])
  {
    var longer := run + [s'];
    forall i | 0 <= i < |longer| - 1 ensures StepAt(longer, i) {
      if i < |run| - 1 { assert StepAt(run, i); }
    }
  }

  /** A version that was switched to and back from. */
  lemma {:induction false} RetiredVersion() returns (run: seq<State>, two: map<nat, L.Deployment>)
    ensures Run(run) && two == map[1 := L.Deployment(L.Retired, false), 2 := L.Deployment(L.Active, false)]
    ensures LastOf(run) == State(L.State(two, {1, 2}, {}, L.NO_VIEWS, L.NO_VIEWS, None, {}), None, {})
  {
    var none := L.State(map[], {}, {}, L.NO_VIEWS, L.NO_VIEWS, None, {});
    run := [State(none, None, {})];
    var one := none.(deployments := map[1 := L.Deployment(L.Building, false)], tables := {1});
    Extend(run, Life(L.Deploy(1)), State(one, None, {}));
    run := run + [State(one, None, {})];
    run := ForcedSwitch(run, one, 1, {});
    var active := one.(deployments := map[1 := L.Deployment(L.Active, false)]);
    assert one.deployments[1 := L.Deployment(L.Active, false)] == active.deployments;
    var both := active.(deployments := map[1 := L.Deployment(L.Active, false), 2 := L.Deployment(L.Building, false)],
                        tables := {1, 2});
    assert active.deployments[2 := L.Deployment(L.Building, false)] == both.deployments && {1} + {2} == {1, 2};
    Extend(run, Life(L.Deploy(2)), State(both, None, {}));
    run := run + [State(both, None, {})];
    two := map[1 := L.Deployment(L.Retired, false), 2 := L.Deployment(L.Active, false)];
    run := SwitchedAway(run, both, two);
  }

  /** A forced switch to a building version, stopped once it has marked it, or once it has retired the one before. */
  lemma {:induction false} ForcedSwitch(run: seq<State>, life: L.State, v: nat, previous: set<nat>)
    returns (longer: seq<State>)
    requires Run(run) && LastOf(run) == State(life, None, {}) && life.switching.None?
    requires L.StateOf(life, v) == Some(L.Building) && !life.deployments[v].tablesDropped
    requires L.ActiveVersions(life) - {v} == previous
    ensures Run(longer) && LastOf(longer) == State(L.SetState(life, v, L.Active), None, {})
  {
    longer := Marks(run, life, v, previous);
    var stopped := State(L.SetState(life, v, L.Active), None, {});
    Extend(longer, Life(L.SwitchStop), stopped);
    longer := longer + [stopped];
  }

  lemma {:induction false} Marks(run: seq<State>, life: L.State, v: nat, previous: set<nat>)
    returns (longer: seq<State>)
    requires Run(run) && LastOf(run) == State(life, None, {}) && life.switching.None?
    requires L.StateOf(life, v) == Some(L.Building) && !life.deployments[v].tablesDropped
    requires L.ActiveVersions(life) - {v} == previous
    ensures Run(longer)
    ensures LastOf(longer) == State(
      L.SetState(life, v, L.Active).(switching := Some(L.Switch(v, previous, {}, L.RetirePrevious))), None, {})
  {
    var read := State(life, Some(Read(v, previous, false)), {});
    Extend(run, SwitchRead(v, true, L.UNREADABLE), read);
    longer := run + [read];
    var marked := State(
      L.SetState(life, v, L.Active).(switching := Some(L.Switch(v, previous, {}, L.RetirePrevious))), None, {});
    Extend(longer, SwitchMark, marked);
    longer := longer + [marked];
  }

  lemma {:induction false} SwitchedAway(run: seq<State>, both: L.State, two: map<nat, L.Deployment>)
    returns (longer: seq<State>)
    requires Run(run) && LastOf(run) == State(both, None, {})
    requires both == L.State(map[1 := L.Deployment(L.Active, false), 2 := L.Deployment(L.Building, false)], {1, 2}, {},
                             L.NO_VIEWS, L.NO_VIEWS, None, {})
    requires two == map[1 := L.Deployment(L.Retired, false), 2 := L.Deployment(L.Active, false)]
    ensures Run(longer) && LastOf(longer) == State(both.(deployments := two), None, {})
  {
    assert L.ActiveVersions(both) - {2} == {1};
    longer := Marks(run, both, 2, {1});
    var life := LastOf(longer).life;
    assert life.deployments[1 := L.Deployment(L.Retired, false)] == two;
    assert {1} - {1} == {};
    var retired := life.(deployments := two, switching := Some(L.Switch(2, {}, {}, L.RetirePrevious)));
    Extend(longer, Life(L.SwitchStep(1)), State(retired, None, {}));
    longer := longer + [State(retired, None, {})];
    Extend(longer, Life(L.SwitchStop), State(both.(deployments := two), None, {}));
    longer := longer + [State(both.(deployments := two), None, {})];
  }

  /**
   * A cleanup that checked the retired version 1 drops its tables while a forced switch back to it is between its read
   * and its mark, or just after its mark: a view comes to name the dropped version.
   */
  lemma {:induction false} SwitchBackLosesTables(marked: bool) returns (run: seq<State>, i: nat, later: seq<State>)
    ensures Run(run) && i + 1 < |run| && Drops(run[i], run[i + 1], 1)
    ensures if marked then L.StateOf(run[i].life, 1) == Some(L.Active) else run[i].reading.Some?
    ensures From(run[i + 1], later) && L.Named(LastOf(later).life, 1) && 1 !in run[i + 1].life.tables
  {
    var two;
    run, two := RetiredVersion();
    var life := LastOf(run).life;
    Extend(run, SweepCheck(1), State(life, None, {1}));
    run := run + [State(life, None, {1})];
    assert L.ActiveVersions(life) - {1} == {2};
    var read := State(life, Some(Read(1, {2}, false)), {1});
    Extend(run, SwitchRead(1, true, L.UNREADABLE), read);
    run := run + [read];
    if marked {
      var back := State(Marked(life, read.reading.value), None, {1});
      Extend(run, SwitchMark, back);
      run := run + [back];
    }
    i := |run| - 1;
    var dropped := run[i].(life := Dropped(run[i].life, 1), checked := {});
    assert {1} - {1} == {};
    Extend(run, SweepDrop(1), dropped);
    run := run + [dropped];
    NamedAfterDropExactly(run, i, 1);
    later :| From(run[i + 1], later) && L.Named(LastOf(later).life, 1);
  }
}
