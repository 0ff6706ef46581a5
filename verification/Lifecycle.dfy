/**
 * Versions side by side (packages/clickhouse/src/deployments.ts): deploy, mark ready, switch, cleanup. Switches run one
 * at a time and may stop anywhere; cleanups run beside them. A switch reads `deployments` and marks its target in one
 * step; a cleanup reads a version's state again, checks the views, drops its tables and records it in one step.
 */
module Lifecycle {
  import opened Options

  datatype DeploymentState = Building | Ready | Active | Retired | Dropped
  datatype Deployment = Deployment(state: DeploymentState, tablesDropped: bool)

  /**
   * The views by position: `user_timeline_api`, `product_contracts_api`, `api_status`, the order a switch swaps them
   * in.
   */
  const TIMELINE := 0
  const STATUS := 2
  const VIEWS := 3

  /** The version each view names, if it exists. */
  type Views = v: seq<Option<nat>> | |v| == 3 witness [None, None, None]

  const NO_VIEWS: Views := [None, None, None]

  datatype Step = DropNext | CreateNext | Exchange | DropReplaced
  datatype Place = RetirePrevious | ReadViews | Swap(i: nat, step: Step) | Completed
  datatype Switch = Switch(target: nat, previous: set<nat>, existing: set<nat>, at: Place)

  /**
   * `tables` and `databases` are the versions whose tables and Envio database exist; `sweeping` the versions a cleanup
   * has dropped the tables of and whose database it goes on to drop.
   */
  datatype State = State(
    deployments: map<nat, Deployment>, tables: set<nat>, databases: set<nat>,
    views: Views, next: Views, switching: Option<Switch>, sweeping: set<nat>)

  /**
   * What the gate reads of a version before it becomes ready or active: whether its events have the indexer's price
   * columns, its pending events, its events per chain beside those of the current active version, its watermark and
   * where the price sources allow the watermark to be.
   */
  datatype Facts = Facts(
    headColumns: bool, pending: nat, events: map<nat, nat>, activeEvents: map<nat, nat>, watermark: Option<int>,
    target: int)

  /** Events no gate lets through: a forced switch asks nothing of them. */
  const UNREADABLE := Facts(false, 0, map[], map[], None, 0)

  const MAX_LAG_MS := 86400000
  const MIN_EVENTS_SHARE := 0.9

  /** `retire` is the previous version a switch's next statement retires; a `shared` database outlives its version. */
  datatype Action =
    | Deploy(version: nat)
    | EnvioStarts(version: nat)
    | MarkReady(version: nat, force: bool, facts: Facts)
    | SwitchStart(version: nat, force: bool, facts: Facts)
    | SwitchStep(retire: nat)
    | SwitchStop
    | SweepTables(version: nat)
    | SweepDatabase(version: nat, shared: bool)
    | SweepStop(version: nat)

  function StateOf(s: State, v: nat): Option<DeploymentState> {
    if v in s.deployments then Some(s.deployments[v].state) else None
  }

  predicate TablesDropped(s: State, v: nat) { v in s.deployments && s.deployments[v].tablesDropped }

  function SetState(s: State, v: nat, state: DeploymentState): State
    requires v in s.deployments
  {
    s.(deployments := s.deployments[v := s.deployments[v].(state := state)])
  }

  /** A view of ours, or one being built aside, names the version's tables or database. */
  predicate Named(s: State, v: nat) {
    exists i | 0 <= i < VIEWS :: s.views[i] == Some(v) || s.next[i] == Some(v)
  }

  function ActiveVersions(s: State): set<nat> {
    set v | v in s.deployments && s.deployments[v].state == Active
  }

  /** `deploy`: refused for a dropped version; tables are created if missing. */
  function Deployed(s: State, v: nat): State {
    if StateOf(s, v) == Some(Dropped) then s
    else if v in s.deployments then s.(tables := s.tables + {v})
    else s.(tables := s.tables + {v}, deployments := s.deployments[v := Deployment(Building, false)])
  }

  /** What the deployment rows say of a switch's target. */
  predicate MayTarget(s: State, v: nat, force: bool) {
    && v in s.deployments && s.deployments[v].state != Dropped && !s.deployments[v].tablesDropped
    && (s.deployments[v].state == Ready || s.deployments[v].state == Active || force)
  }

  /** The chain has too small a share of the active version's events. */
  predicate ShortChain(f: Facts, chain: nat) {
    && chain in f.activeEvents
    && (if chain in f.events then f.events[chain] else 0) as real < f.activeEvents[chain] as real * MIN_EVENTS_SHARE
  }

  /** The current version, the first active one in the order of versions, is another one. */
  ghost predicate OtherCurrent(s: State, v: nat) {
    exists u: nat | u in ActiveVersions(s) :: u != v && forall t | t in ActiveVersions(s) :: u <= t
  }

  /** The gate: why the API could not serve the version, from its events. */
  ghost predicate Unservable(s: State, v: nat, f: Facts) {
    || !f.headColumns
    || f.pending > 0
    || (OtherCurrent(s, v) && exists chain: nat :: ShortChain(f, chain))
    || (f.watermark.Some? && f.target - f.watermark.value > MAX_LAG_MS)
  }

  ghost predicate Accepts(s: State, v: nat, force: bool, f: Facts) {
    MayTarget(s, v, force) && (force || !Unservable(s, v, f))
  }

  function SwitchStarted(s: State, v: nat): State
    requires v in s.deployments
  {
    SetState(s, v, Active).(switching := Some(Switch(v, ActiveVersions(s) - {v}, {}, RetirePrevious)))
  }

  function NextSwap(i: nat): Place { if i + 1 == VIEWS then Completed else Swap(i + 1, DropNext) }

  /** One statement of the running switch. */
  ghost predicate Switches(s: State, w: Switch, retire: nat, s': State) {
    match w.at
    case RetirePrevious =>
      if w.previous == {} then s' == s.(switching := Some(w.(at := ReadViews)))
      else retire in w.previous && retire in s.deployments
           && s' == SetState(s, retire, Retired).(switching := Some(w.(previous := w.previous - {retire})))
    case ReadViews =>
      s' == s.(switching := Some(w.(existing := (set i | 0 <= i < VIEWS && s.views[i].Some?), at := Swap(0, DropNext))))
    case Swap(i, step) =>
      i < VIEWS &&
      if i !in w.existing then
        s' == s.(views := s.views[i := Some(w.target)], switching := Some(w.(at := NextSwap(i))))
      else (match step
        case DropNext => s' == s.(next := s.next[i := None], switching := Some(w.(at := Swap(i, CreateNext))))
        case CreateNext => s' == s.(next := s.next[i := Some(w.target)], switching := Some(w.(at := Swap(i, Exchange))))
        case Exchange => s' == s.(views := s.views[i := s.next[i]], next := s.next[i := s.views[i]],
                                  switching := Some(w.(at := Swap(i, DropReplaced))))
        case DropReplaced => s' == s.(next := s.next[i := None], switching := Some(w.(at := NextSwap(i)))))
    case Completed => s' == s.(switching := None)
  }

  ghost predicate Next(s: State, a: Action, s': State) {
    match a
    case Deploy(v) => s' == Deployed(s, v)
    case EnvioStarts(v) => s' == s.(databases := s.databases + {v})
    case MarkReady(v, force, f) =>
      StateOf(s, v) == Some(Building) && (force || !Unservable(s, v, f)) && s' == SetState(s, v, Ready)
    case SwitchStart(v, force, f) => s.switching.None? && Accepts(s, v, force, f) && s' == SwitchStarted(s, v)
    case SwitchStep(retire) => s.switching.Some? && Switches(s, s.switching.value, retire, s')
    case SwitchStop => s' == s.(switching := None)
    case SweepTables(v) =>
      && StateOf(s, v) == Some(Retired) && !Named(s, v)
      && s' == s.(tables := if s.deployments[v].tablesDropped then s.tables else s.tables - {v},
                  deployments := s.deployments[v := s.deployments[v].(tablesDropped := true)],
                  sweeping := s.sweeping + {v})
    case SweepDatabase(v, shared) =>
      && v in s.sweeping && v in s.deployments
      && s' == SetState(s, v, Dropped).(databases := if shared then s.databases else s.databases - {v},
                                        sweeping := s.sweeping - {v})
    case SweepStop(v) => s' == s.(sweeping := s.sweeping - {v})
  }

  ghost predicate Init(s: State) {
    s == State(map[], {}, {}, NO_VIEWS, NO_VIEWS, None, {})
  }

  ghost predicate Run(run: seq<State>) {
    |run| >= 1 && Init(run[0]) && forall i | 0 <= i < |run| - 1 :: StepAt(run, i)
  }

  ghost predicate StepTo(s: State, s': State) { exists a: Action :: Next(s, a, s') }

  ghost predicate StepAt(run: seq<State>, i: nat)
    requires i + 1 < |run|
  {
    StepTo(run[i], run[i + 1])
  }

  /* ---------------------------------------------------------------- the invariant */

  /** A version the API may read: deployed, not dropped in any part, its tables there. */
  predicate Intact(s: State, v: nat) {
    v in s.deployments && s.deployments[v].state != Dropped && !s.deployments[v].tablesDropped && v in s.tables
  }

  /** The views before the one being swapped already name the target; the one created aside names it too. */
  predicate SwitchOk(s: State, w: Switch) {
    && StateOf(s, w.target) == Some(Active)
    && ActiveVersions(s) <= {w.target} + w.previous && w.target !in w.previous && w.previous <= ActiveVersions(s)
    && (match w.at
        case RetirePrevious => true
        case ReadViews => w.previous == {}
        case Swap(i, step) =>
          && i < VIEWS && w.previous == {}
          && (forall j | 0 <= j < i :: s.views[j] == Some(w.target))
          && (step == Exchange ==> s.next[i] == Some(w.target))
          && (step == DropReplaced ==> s.views[i] == Some(w.target))
        case Completed => w.previous == {} && forall j | 0 <= j < VIEWS :: s.views[j] == Some(w.target))
  }

  ghost predicate Inv(s: State) {
    && (forall v: nat | Named(s, v) :: Intact(s, v))
    && (forall v | v in s.deployments && !s.deployments[v].tablesDropped :: v in s.tables)
    && (forall v | v in s.deployments && s.deployments[v].state == Active :: !s.deployments[v].tablesDropped)
    && (forall v | v in s.deployments && s.deployments[v].state == Dropped :: s.deployments[v].tablesDropped)
    && (forall v | v in s.sweeping :: v in s.deployments && s.deployments[v] == Deployment(Retired, true))
    && (s.switching.Some? ==> SwitchOk(s, s.switching.value))
  }

  /** The switch's own statements. */
  lemma {:induction false} SwitchKeepsInv(s: State, retire: nat, s': State)
    requires Inv(s) && Next(s, SwitchStep(retire), s')
    ensures Inv(s')
  {
    var w := s.switching.value;
    if w.at.Swap? {
      SwapKeepsInv(s, w, retire, s');
    } else {
      assert s'.views == s.views && s'.next == s.next;
      forall v: nat | Named(s', v) ensures Intact(s', v) { assert Named(s, v); }
      if w.at.ReadViews? {
        assert ActiveVersions(s') == ActiveVersions(s);
      } else if w.at.RetirePrevious? && w.previous != {} {
        assert ActiveVersions(s') == ActiveVersions(s) - {retire};
      }
    }
  }

  lemma {:induction false} SwapKeepsInv(s: State, w: Switch, retire: nat, s': State)
    requires Inv(s) && s.switching == Some(w) && w.at.Swap? && Switches(s, w, retire, s')
    ensures Inv(s')
  {
    var t := w.target;
    assert Intact(s, t);
    assert s'.deployments == s.deployments && s'.tables == s.tables && ActiveVersions(s') == ActiveVersions(s);
    forall v: nat | Named(s', v) ensures Intact(s', v) {
      var i :| 0 <= i < VIEWS && (s'.views[i] == Some(v) || s'.next[i] == Some(v));
      if v != t { assert Named(s, v); }
    }
  }

  lemma {:induction false} NextKeepsInv(s: State, a: Action, s': State)
    requires Inv(s) && Next(s, a, s')
    ensures Inv(s')
  {
    if a.SwitchStep? {
      SwitchKeepsInv(s, a.retire, s');
    } else {
      assert s'.views == s.views && s'.next == s.next;
      forall v: nat | Named(s', v) ensures Intact(s', v) { assert Named(s, v); }
      OthersKeepSwitch(s, a, s');
    }
  }

  /** No other step disturbs the running switch, whose target stays active. */
  lemma {:induction false} OthersKeepSwitch(s: State, a: Action, s': State)
    requires Inv(s) && Next(s, a, s') && !a.SwitchStep?
    ensures s'.switching.Some? ==> SwitchOk(s', s'.switching.value)
  {
    if a.SwitchStart? {
      assert ActiveVersions(s') == ActiveVersions(s) + {a.version};
    } else if !a.SwitchStop? {
      assert ActiveVersions(s') == ActiveVersions(s);
    }
  }

  lemma {:induction false} RunInv(run: seq<State>, i: nat)
    requires Run(run) && i < |run|
    ensures Inv(run[i])
  {
    if i > 0 {
      RunInv(run, i - 1);
      assert StepAt(run, i - 1);
      var a :| Next(run[i - 1], a, run[i]);
      NextKeepsInv(run[i - 1], a, run[i]);
    }
  }

  /* ---------------------------------------------------------------- the theorems */

  /**
   * In every run: what a view names is there, and no step drops the tables or the database of a version a view names.
   */
  lemma {:induction false} NamedNeverDropped(run: seq<State>, i: nat, v: nat)
    requires Run(run) && i < |run| && Named(run[i], v)
    ensures Intact(run[i], v)
    ensures i + 1 < |run| ==> v in run[i + 1].tables && (v in run[i].databases ==> v in run[i + 1].databases)
  {
    RunInv(run, i);
    if i + 1 < |run| {
      assert StepAt(run, i);
      var a :| Next(run[i], a, run[i + 1]);
      assert Intact(run[i], v);
    }
  }

  /** `dropped` is terminal, dropped tables stay recorded, and a version with dropped tables is never active again. */
  lemma {:induction false} DroppedForever(run: seq<State>, i: nat, j: nat, v: nat)
    requires Run(run) && i <= j < |run|
    ensures StateOf(run[i], v) == Some(Dropped) ==> StateOf(run[j], v) == Some(Dropped)
    ensures TablesDropped(run[i], v) ==>
      TablesDropped(run[j], v) && StateOf(run[j], v) != Some(Active) && !Named(run[j], v)
    decreases j
  {
    RunInv(run, j);
    if i < j {
      DroppedForever(run, i, j - 1, v);
      RunInv(run, j - 1);
      assert StepAt(run, j - 1);
      var a :| Next(run[j - 1], a, run[j]);
      DroppedStays(run[j - 1], a, run[j], v);
    }
  }

  lemma {:induction false} DroppedStays(s: State, a: Action, s': State, v: nat)
    requires Inv(s) && Next(s, a, s')
    ensures StateOf(s, v) == Some(Dropped) ==> StateOf(s', v) == Some(Dropped)
    ensures TablesDropped(s, v) ==> TablesDropped(s', v)
  {
    if a.SwitchStep? {
      var w := s.switching.value;
      if w.at.RetirePrevious? && w.previous != {} {
        assert a.retire in ActiveVersions(s);
      }
    }
  }

  /** All of it is done: the target is the one active version and every view names it. */
  predicate Switched(s: State, t: nat) {
    ActiveVersions(s) == {t} && s.views == [Some(t), Some(t), Some(t)] && Intact(s, t)
  }

  lemma {:induction false} CompletedIsSwitched(s: State, w: Switch)
    requires Inv(s) && s.switching == Some(w) && w.at == Completed
    ensures Switched(s, w.target)
  {
    var t := w.target;
    assert s.views[0] == s.views[1] == s.views[2] == Some(t);
    assert Named(s, t);
    assert t in ActiveVersions(s);
  }

  /** A switch that completes leaves exactly one active version, its target, named by all three views. */
  lemma {:induction false} CompletedSwitch(run: seq<State>, i: nat)
    requires Run(run) && i < |run| && run[i].switching.Some? && run[i].switching.value.at == Completed
    ensures Switched(run[i], run[i].switching.value.target)
  {
    RunInv(run, i);
    CompletedIsSwitched(run[i], run[i].switching.value);
  }

  /**
   * A switch that stopped can be run again: neither the state nor the tables of an active version refuse it, whatever
   * ran meanwhile. It needs force exactly when its events do not pass the gate, as those of a version once forced may
   * not; once the versions before it are retired, they are not compared with another version's.
   */
  lemma {:induction false} RerunAccepted(run: seq<State>, i: nat, v: nat, f: Facts)
    requires Run(run) && i < |run| && StateOf(run[i], v) == Some(Active)
    ensures Accepts(run[i], v, true, f)
    ensures Accepts(run[i], v, false, f) <==> !Unservable(run[i], v, f)
    ensures ActiveVersions(run[i]) == {v} ==>
      (Unservable(run[i], v, f)
       <==> !f.headColumns || f.pending > 0 || (f.watermark.Some? && f.target - f.watermark.value > MAX_LAG_MS))
  {
    RunInv(run, i);
  }

  /* ---------------------------------------------------------------- a switch that is left alone completes */

  function StepsInSwap(step: Step): nat {
    match step case DropNext => 4 case CreateNext => 3 case Exchange => 2 case DropReplaced => 1
  }

  /** The statements a switch has left, at most. */
  function StatementsLeft(w: Switch): nat {
    match w.at
    case RetirePrevious => |w.previous| + 4 * VIEWS + 2
    case ReadViews => 4 * VIEWS + 1
    case Swap(i, step) => if i < VIEWS then 4 * (VIEWS - 1 - i) + StepsInSwap(step) else 0
    case Completed => 0
  }

  /** It has a next statement, whatever state it finds, and one less after it. */
  lemma {:induction false} HasStatement(s: State, w: Switch) returns (retire: nat, s': State, w': Switch)
    requires Inv(s) && s.switching == Some(w) && w.at != Completed
    ensures Switches(s, w, retire, s') && s'.switching == Some(w') && w'.target == w.target
    ensures StatementsLeft(w') < StatementsLeft(w)
  {
    retire, w' := 0, w;
    match w.at
    case RetirePrevious =>
      if w.previous == {} {
        w' := w.(at := ReadViews);
        s' := s.(switching := Some(w'));
      } else {
        retire :| retire in w.previous;
        assert retire in ActiveVersions(s);
        w' := w.(previous := w.previous - {retire});
        s' := SetState(s, retire, Retired).(switching := Some(w'));
      }
    case ReadViews =>
      w' := w.(existing := (set i | 0 <= i < VIEWS && s.views[i].Some?), at := Swap(0, DropNext));
      s' := s.(switching := Some(w'));
    case Swap(i, step) =>
      s', w' := HasSwapStatement(s, w, i, step);
    case Completed =>
  }

  lemma {:induction false} HasSwapStatement(s: State, w: Switch, i: nat, step: Step) returns (s': State, w': Switch)
    requires Inv(s) && s.switching == Some(w) && w.at == Swap(i, step)
    ensures Switches(s, w, 0, s') && s'.switching == Some(w') && w'.target == w.target
    ensures StatementsLeft(w') < StatementsLeft(w)
  {
    w' := w.(at := NextSwap(i));
    if i !in w.existing {
      s' := s.(views := s.views[i := Some(w.target)], switching := Some(w'));
    } else {
      match step
      case DropNext =>
        w' := w.(at := Swap(i, CreateNext));
        s' := s.(next := s.next[i := None], switching := Some(w'));
      case CreateNext =>
        w' := w.(at := Swap(i, Exchange));
        s' := s.(next := s.next[i := Some(w.target)], switching := Some(w'));
      case Exchange =>
        w' := w.(at := Swap(i, DropReplaced));
        s' := s.(views := s.views[i := s.next[i]], next := s.next[i := s.views[i]], switching := Some(w'));
      case DropReplaced =>
        s' := s.(next := s.next[i := None], switching := Some(w'));
    }
  }

  /** The states from one to another by the running switch's statements only. */
  ghost predicate Switching(path: seq<State>) {
    |path| >= 1 && forall i | 0 <= i < |path| - 1 :: SwitchesAt(path, i)
  }

  ghost predicate SwitchesAt(path: seq<State>, i: nat)
    requires i + 1 < |path|
  {
    exists retire: nat :: Next(path[i], SwitchStep(retire), path[i + 1])
  }

  /**
   * Running a switch again converges: from any state that keeps the invariant, with anything left half done by the
   * switches that stopped before, a switch whose statements all succeed comes to the end with everything done.
   */
  lemma {:induction false} SwitchConverges(s: State, w: Switch) returns (path: seq<State>)
    requires Inv(s) && s.switching == Some(w)
    ensures Switching(path) && path[0] == s && |path| <= StatementsLeft(w) + 1
    ensures var last := path[|path| - 1];
      Inv(last) && last.switching.Some? && last.switching.value.at == Completed && Switched(last, w.target)
    decreases StatementsLeft(w)
  {
    if w.at == Completed {
      path := [s];
      CompletedIsSwitched(s, w);
    } else {
      var retire, s', w' := HasStatement(s, w);
      assert Next(s, SwitchStep(retire), s');
      NextKeepsInv(s, SwitchStep(retire), s');
      var rest := SwitchConverges(s', w');
      path := [s] + rest;
      forall i | 0 <= i < |path| - 1 ensures SwitchesAt(path, i) {
        if i > 0 { assert SwitchesAt(rest, i - 1); }
      }
    }
  }
}
