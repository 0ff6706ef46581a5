/**
 * What each statement of the version lifecycle does (packages/clickhouse/src/deployments.ts): how a version's state
 * moves, when the gate lets it, and what a cleanup takes away.
 */
module LifecycleSteps {
  import opened Options
  import opened Lifecycle

  /* ---------------------------------------------------------------- how states move */

  predicate Moves(s: State, s': State, v: nat) {
    var x, y := StateOf(s, v), StateOf(s', v);
    || (x == None && y == Some(Building))
    || (x == Some(Building) && y == Some(Ready))
    || (x.Some? && x != Some(Dropped) && x != Some(Active) && !TablesDropped(s, v) && y == Some(Active))
    || (x == Some(Active) && y == Some(Retired))
    || (x == Some(Retired) && TablesDropped(s, v) && y == Some(Dropped))
  }

  /**
   * In every run a version's state only moves along building, ready, active, retired and dropped, but for switches,
   * which make any version that still has its tables active; and its tables are dropped only while it is retired and
   * no view names it.
   */
  lemma {:induction false} StatesMove(run: seq<State>, i: nat, v: nat)
    requires Run(run) && i + 1 < |run|
    ensures StateOf(run[i], v) == StateOf(run[i + 1], v) || Moves(run[i], run[i + 1], v)
    ensures TablesDropped(run[i + 1], v) && !TablesDropped(run[i], v) ==>
      StateOf(run[i], v) == Some(Retired) && !Named(run[i], v)
  {
    RunInv(run, i);
    assert StepAt(run, i);
    var a :| Next(run[i], a, run[i + 1]);
    StateMoves(run[i], a, run[i + 1], v);
  }

  lemma {:induction false} StateMoves(s: State, a: Action, s': State, v: nat)
    requires Inv(s) && Next(s, a, s')
    ensures StateOf(s, v) == StateOf(s', v) || Moves(s, s', v)
    ensures TablesDropped(s', v) && !TablesDropped(s, v) ==> StateOf(s, v) == Some(Retired) && !Named(s, v)
  {
    hide Named;
    if a.SwitchStep? { assert SwitchOk(s, s.switching.value); }
  }

  /* ---------------------------------------------------------------- how views move */

  /** A switch creates in place only views that were not there. */
  ghost predicate CreatesMissing(s: State) {
    s.switching.Some? && s.switching.value.at.Swap? ==>
      forall j: nat | s.switching.value.at.i <= j < VIEWS && j !in s.switching.value.existing :: s.views[j] == None
  }

  lemma {:induction false} CreatesMissingStays(s: State, a: Action, s': State)
    requires CreatesMissing(s) && Next(s, a, s')
    ensures CreatesMissing(s')
  {
    hide Named, Unservable;
  }

  lemma {:induction false} CreatesMissingIn(run: seq<State>, i: nat)
    requires Run(run) && i < |run|
    ensures CreatesMissing(run[i])
  {
    if i > 0 {
      CreatesMissingIn(run, i - 1);
      assert StepAt(run, i - 1);
      var a :| Next(run[i - 1], a, run[i]);
      CreatesMissingStays(run[i - 1], a, run[i]);
    }
  }

  /**
   * A view changes only to the target of the switch underway; one that is there is never missing in between, but
   * exchanged for a view built aside for the target, which then stands aside in its place.
   */
  lemma {:induction false} ViewsAreExchanged(run: seq<State>, i: nat, k: nat)
    requires Run(run) && i + 1 < |run| && k < VIEWS && run[i].views[k] != run[i + 1].views[k]
    ensures var s, s' := run[i], run[i + 1];
      && s.switching.Some? && s'.views[k] == Some(s.switching.value.target)
      && (s.views[k].Some? ==> s.next[k] == s'.views[k] && s'.next[k] == s.views[k])
  {
    CreatesMissingIn(run, i);
    RunInv(run, i);
    assert StepAt(run, i);
    var a :| Next(run[i], a, run[i + 1]);
    hide Named, Unservable;
    assert a.SwitchStep?;
    assert SwitchOk(run[i], run[i].switching.value);
  }

  /* ---------------------------------------------------------------- the gate */

  predicate EnoughOn(f: Facts, chain: nat)
    requires chain in f.activeEvents
  {
    10 * (if chain in f.events then f.events[chain] else 0) >= 9 * f.activeEvents[chain]
  }

  /** Nine tenths of the events of each chain of the current active version, if that is another one. */
  ghost predicate HasEnough(s: State, v: nat, f: Facts) {
    forall u: nat, chain: nat | IsCurrent(s, u) && u != v && chain in f.activeEvents ::
      EnoughOn(f, chain)
  }

  /** The active version, the lowest should a switch have stopped between two. */
  ghost predicate IsCurrent(s: State, u: nat) {
    StateOf(s, u) == Some(Active) && forall t: nat | StateOf(s, t) == Some(Active) :: u <= t
  }

  /** The API can serve the version. */
  ghost predicate Servable(s: State, v: nat, f: Facts) {
    && f.headColumns && f.pending == 0 && HasEnough(s, v, f)
    && (f.watermark.Some? ==> f.target - f.watermark.value <= 86_400_000)
  }

  lemma {:induction false} Shares(events: nat, active: nat)
    ensures events as real < active as real * MIN_EVENTS_SHARE <==> 10 * events < 9 * active
  {
    assert (10 * events) as real == 10.0 * events as real && (9 * active) as real == 9.0 * active as real;
  }

  lemma {:induction false} CurrentIs(s: State, v: nat)
    ensures OtherCurrent(s, v) <==> exists u: nat :: IsCurrent(s, u) && u != v
  {
    forall t: nat ensures t in ActiveVersions(s) <==> StateOf(s, t) == Some(Active) {}
    hide ActiveVersions, StateOf;
    if OtherCurrent(s, v) {
      var u: nat :| u in ActiveVersions(s) && u != v && forall t | t in ActiveVersions(s) :: u <= t;
      assert IsCurrent(s, u);
    }
    if u: nat :| IsCurrent(s, u) && u != v {
      assert u in ActiveVersions(s);
    }
  }

  lemma {:induction false} ServableIs(s: State, v: nat, f: Facts)
    ensures Servable(s, v, f) <==> !Unservable(s, v, f)
  {
    CurrentIs(s, v);
    forall chain: nat | chain in f.activeEvents
      ensures ShortChain(f, chain) <==> !EnoughOn(f, chain)
    {
      Shares(if chain in f.events then f.events[chain] else 0, f.activeEvents[chain]);
    }
    hide OtherCurrent, IsCurrent;
    if !Servable(s, v, f) && f.headColumns && f.pending == 0 && !HasEnough(s, v, f) {
      var u: nat, chain: nat :| IsCurrent(s, u) && u != v && chain in f.activeEvents
        && !EnoughOn(f, chain);
      assert ShortChain(f, chain);
    }
  }

  /**
   * Exactly when a version can be marked ready or switched to: ready, when it is building; active, when it has its
   * tables and is ready or active; and in both cases, unless forced, only when the API can serve it.
   */
  lemma {:induction false} GateExactly(s: State, v: nat, force: bool, f: Facts)
    ensures (exists s' :: Next(s, MarkReady(v, force, f), s') && StateOf(s', v) == Some(Ready))
       <==> StateOf(s, v) == Some(Building) && (force || Servable(s, v, f))
    ensures (exists s' :: Next(s, SwitchStart(v, force, f), s') && StateOf(s', v) == Some(Active))
       <==> && s.switching.None? && v in s.deployments && StateOf(s, v) != Some(Dropped) && !TablesDropped(s, v)
            && (force || (StateOf(s, v) in {Some(Ready), Some(Active)} && Servable(s, v, f)))
  {
    ServableIs(s, v, f);
    hide Servable, Unservable;
    if v in s.deployments {
      assert Next(s, MarkReady(v, force, f), SetState(s, v, Ready))
        <==> StateOf(s, v) == Some(Building) && (force || Servable(s, v, f));
      assert Next(s, SwitchStart(v, force, f), SwitchStarted(s, v)) <==> s.switching.None? && Accepts(s, v, force, f);
    }
  }

  /* ---------------------------------------------------------------- what deploys and cleanups do */

  /**
   * A cleanup takes away the tables of its version and then, unless it is shared, its database, and nothing of another
   * version.
   */
  lemma {:induction false} CleanupTakes(s: State, a: Action, s': State, v: nat)
    requires Next(s, a, s')
    ensures a.SweepTables? ==>
      && s'.tables == (if TablesDropped(s, a.version) then s.tables else s.tables - {a.version})
      && TablesDropped(s', a.version) && s'.databases == s.databases
    ensures a.SweepDatabase? ==>
      && StateOf(s', a.version) == Some(Dropped) && s'.tables == s.tables
      && s'.databases == s.databases - (if a.shared then {} else {a.version})
    ensures !a.SweepTables? ==> s.tables <= s'.tables
    ensures !a.SweepDatabase? ==> s.databases <= s'.databases
    ensures v in s'.tables && v !in s.tables ==> a == Deploy(v) && StateOf(s, v) != Some(Dropped)
    ensures v in s'.databases && v !in s.databases ==> a == EnvioStarts(v)
  {
    hide Named, Unservable;
  }

  /**
   * A deploy makes the tables of a version that is not dropped, as a building one when it is new, and changes no state
   * when it is not; Envio makes the database.
   */
  lemma {:induction false} DeployMakes(s: State, a: Action, s': State, v: nat)
    requires Next(s, a, s') && (a == Deploy(v) || a == EnvioStarts(v))
    ensures a.Deploy? && StateOf(s, v) != Some(Dropped) ==> s'.tables == s.tables + {v}
    ensures a.Deploy? && v !in s.deployments ==> s'.deployments == s.deployments[v := Deployment(Building, false)]
    ensures a.Deploy? && v in s.deployments ==> s'.deployments == s.deployments
    ensures a.EnvioStarts? ==> s'.databases == s.databases + {v} && s'.deployments == s.deployments
    ensures s'.views == s.views && s'.next == s.next && s'.switching == s.switching && s'.sweeping == s.sweeping
  {
  }
}
