/**
 * The watermark's promise whatever the server's clock does: here it may stand still between steps, as statements within
 * one microsecond see it. The runs of `Watermark` are those in which it does not.
 */
module WatermarkSound {
  import opened Options
  import opened Events
  import opened Ranges
  import opened Reprice
  import opened Watermark

  ghost predicate LooseNext(s: State, a: Action, s': State) { s'.clock >= s.clock && Moves(s, a, s') }

  ghost predicate LooseStepTo(s: State, s': State) { exists a :: LooseNext(s, a, s') }

  ghost predicate LooseStepAt(run: seq<State>, i: nat)
    requires i + 1 < |run|
  {
    LooseStepTo(run[i], run[i + 1])
  }

  /** Steps from a state on. */
  ghost predicate LooseFrom(s: State, run: seq<State>) {
    |run| >= 1 && run[0] == s && forall i | 0 <= i < |run| - 1 :: LooseStepAt(run, i)
  }

  ghost predicate LooseRun(run: seq<State>) { |run| >= 1 && Init(run[0]) && LooseFrom(run[0], run) }

  lemma {:induction false} StrictIsLoose(run: seq<State>)
    requires Run(run)
    ensures LooseRun(run)
  {
    forall i | 0 <= i < |run| - 1 ensures LooseStepAt(run, i) {
      assert StepAt(run, i);
      var a :| Next(run[i], a, run[i + 1]);
      assert LooseNext(run[i], a, run[i + 1]);
    }
  }

  /* ---------------------------------------------------------------- the invariant */

  ghost predicate ReadSound(s: State, cps: Frontier, current: Option<Base>) {
    Leq(cps, s.frontier) && (current.Some? ==> Sound(s, current.value))
  }

  /** The late rows are stored up to the part to come. */
  ghost predicate LateSound(s: State, v: Vars, plan: seq<Planned>, i: nat) {
    && ReadSound(s, v.cps, v.current) && v.current.Some? && i <= |plan|
    && (v.current.value.watermark > 0 ==>
          Complete(s.history, v.cps, 0, Some(v.current.value.watermark), Some(v.current.value.checkpoints), plan))
    && LateStored(s, v.cps, v.current.value.checkpoints,
                  if i < |plan| then Min(plan[i].from, v.current.value.watermark) else v.current.value.watermark)
  }

  /** Everything committed at the frontier is stored below a time. */
  ghost predicate SoundTo(s: State, cps: Frontier, t: int) { Leq(cps, s.frontier) && StoredBelow(s, cps, t) }

  /** What a client's place promises. */
  ghost predicate PlaceSound(s: State, p: Proc) {
    match p
    case ReadMark(_, cps) => Leq(cps, s.frontier)
    case ReadTarget(_, cps, current) => ReadSound(s, cps, current)
    case PlanLate(v) => ReadSound(s, v.cps, v.current)
    case Late(v, plan, i) => LateSound(s, v, plan, i)
    case Retry(v) => v.current.Some? && SoundTo(s, v.cps, v.current.value.watermark)
    case FindStart(v) => Leq(v.cps, s.frontier) && (v.current.Some? ==> SoundTo(s, v.cps, v.current.value.watermark))
    case PlanMove(v, start) => SoundTo(s, v.cps, start)
    case Store(v, plan, i) => PlanOk(s, v, plan) && i < |plan| && SoundTo(s, v.cps, plan[i].from)
    case Check(v, _, to, rest) => SoundTo(s, v.cps, to) && RestOk(s, v, to, rest)
    case Write(v, _, to, rest, _) => SoundTo(s, v.cps, to) && RestOk(s, v, to, rest)
    case RewindWrite(b) => Sound(s, b)
    case _ => true
  }

  ghost predicate SoundInv(s: State) {
    && WellFormed(s.history)
    && (forall m | m in s.marks :: Sound(s, m.base))
    && (forall pid | pid in s.procs :: PlaceSound(s, s.procs[pid]))
  }

  lemma {:induction false} PlaceKept(s: State, s': State, p: Proc)
    requires Kept(s, s') && PlaceSound(s, p)
    ensures PlaceSound(s', p)
  {
    match p
    case ReadMark(_, cps) => LeqTrans(cps, s.frontier, s'.frontier);
    case ReadTarget(_, cps, current) => ReadKept(s, s', cps, current);
    case PlanLate(v) => ReadKept(s, s', v.cps, v.current);
    case Late(v, plan, i) => LateSoundKept(s, s', v, plan, i);
    case Retry(v) => SoundToKept(s, s', v.cps, v.current.value.watermark);
    case FindStart(v) =>
      LeqTrans(v.cps, s.frontier, s'.frontier);
      if v.current.Some? { SoundToKept(s, s', v.cps, v.current.value.watermark); }
    case PlanMove(v, start) => SoundToKept(s, s', v.cps, start);
    case Store(v, plan, i) => SoundToKept(s, s', v.cps, plan[i].from); PlanKept(s, s', v, plan);
    case Check(v, _, to, rest) => SoundToKept(s, s', v.cps, to); RestKept(s, s', v, to, rest);
    case Write(v, _, to, rest, _) => SoundToKept(s, s', v.cps, to); RestKept(s, s', v, to, rest);
    case RewindWrite(b) => SoundKept(s, s', b);
    case _ =>
  }

  lemma {:induction false} ReadKept(s: State, s': State, cps: Frontier, current: Option<Base>)
    requires Kept(s, s') && ReadSound(s, cps, current)
    ensures ReadSound(s', cps, current)
  {
    LeqTrans(cps, s.frontier, s'.frontier);
    if current.Some? { SoundKept(s, s', current.value); }
  }

  lemma {:induction false} SoundToKept(s: State, s': State, cps: Frontier, t: int)
    requires Kept(s, s') && SoundTo(s, cps, t)
    ensures SoundTo(s', cps, t)
  {
    LeqTrans(cps, s.frontier, s'.frontier);
    StoredBelowKept(s, s', cps, t);
  }

  lemma {:induction false} LateSoundKept(s: State, s': State, v: Vars, plan: seq<Planned>, i: nat)
    requires Kept(s, s') && LateSound(s, v, plan, i)
    ensures LateSound(s', v, plan, i)
  {
    var b := v.current.value;
    ReadKept(s, s', v.cps, v.current);
    if b.watermark > 0 {
      CompleteKept(s, s', v.cps, 0, Some(b.watermark), Some(b.checkpoints), plan);
    }
    LateKept(s, s', v.cps, b.checkpoints, if i < |plan| then Min(plan[i].from, b.watermark) else b.watermark);
  }

  /* ---------------------------------------------------------------- the calls */

  lemma {:induction false} CallKeeps(s: State, pid: nat, p: Proc, p': Proc, stored': Stored, marks': set<Mark>,
                                     clock': int)
    requires WellFormed(s.history) && Calls(s, pid, p, p', stored', marks')
    ensures Kept(s, After(s, pid, p', stored', marks', clock'))
  {
    hide PlanFor, IsFirstDay, IsFinal, IsLatestMove, NextMove;
    LeqRefl(s.frontier);
  }

  lemma {:induction false} ReadCall(s: State, pid: nat, p: Proc, p': Proc, stored': Stored, marks': set<Mark>)
    requires SoundInv(s) && PlaceSound(s, p) && Calls(s, pid, p, p', stored', marks') && p' != Stopped(Failed)
    requires p.ReadMoves? || p.ReadFrontier? || p.ReadMark? || p.ReadTarget? || p.RewindRead?
    ensures PlaceSound(s, p') && marks' == s.marks
  {
    hide PlanFor, RunPart;
    match p
    case ReadMoves =>
    case ReadFrontier(_) => LeqRefl(s.frontier);
    case ReadMark(_, _) =>
      if p'.current.Some? {
        var f :| IsFinal(s.marks, f) && f.base == p'.current.value;
        assert Sound(s, f.base);
      }
    case ReadTarget(_, _, _) =>
    case RewindRead(time) =>
      if s.marks != {} {
        var f :| IsFinal(s.marks, f) && p' == RewindFrom(f.base, time);
        assert Sound(s, f.base);
      }
  }

  lemma {:induction false} PlanCall(s: State, pid: nat, p: Proc, p': Proc, stored': Stored, marks': set<Mark>)
    requires SoundInv(s) && PlaceSound(s, p) && Calls(s, pid, p, p', stored', marks') && p' != Stopped(Failed)
    requires p.PlanLate? || p.FindStart? || p.PlanMove?
    ensures PlaceSound(s, p') && marks' == s.marks
  {
    hide RunPart, PlanFor, IsFirstDay;
    match p
    case PlanLate(v) =>
      if v.current.Some? && v.current.value.checkpoints != v.cps {
        var b := v.current.value;
        PlansAreComplete(s.history, v.cps, 0, Some(b.watermark), Some(b.checkpoints), p'.plan);
      }
    case FindStart(v) =>
      if v.current.None? && p'.PlanMove? { FirstDaySound(s, v.cps, p'.start); }
    case PlanMove(v, start) =>
      if p'.Store? { PlansAreComplete(s.history, v.cps, start, Some(v.target), None, p'.plan); }
  }

  lemma {:induction false} FirstDaySound(s: State, cps: Frontier, start: int)
    requires IsFirstDay(s.history, cps, start) && Leq(cps, s.frontier)
    ensures SoundTo(s, cps, start)
  {
    var first :| first in Visible(s.history, cps) && start == first.ts / DAY_MS * DAY_MS
                 && forall o | o in Visible(s.history, cps) :: first.ts <= o.ts;
    assert forall r | r in s.history && Committed(cps, r) :: r in Visible(s.history, cps);
  }

  lemma {:induction false} StoringCall(s: State, pid: nat, p: Proc, p': Proc, stored': Stored, marks': set<Mark>,
                                       s': State)
    requires SoundInv(s) && PlaceSound(s, p) && Calls(s, pid, p, p', stored', marks') && p' != Stopped(Failed)
    requires p.Late? || p.Retry? || p.Store?
    requires s'.history == s.history && s'.frontier == s.frontier && s'.stored == stored' && Kept(s, s')
    ensures PlaceSound(s', p') && marks' == s.marks
  {
    hide PlanFor;
    match p
    case Late(v, plan, i) => LatePart(s, v, plan, i, s');
    case Retry(v) => SoundToKept(s, s', v.cps, v.current.value.watermark);
    case Store(v, plan, i) => StorePart(s, v, plan, i, s');
  }

  lemma {:induction false} LatePart(s: State, v: Vars, plan: seq<Planned>, i: nat, s': State)
    requires WellFormed(s.history) && LateSound(s, v, plan, i) && Kept(s, s')
    requires s'.history == s.history && s'.frontier == s.frontier
    requires i < |plan| ==>
      s'.stored == RunPart(s.history, v.cps, Some(v.current.value.checkpoints), plan[i], s.stored, s.clock)
    ensures if i < |plan| then LateSound(s', v, plan, i + 1) else SoundTo(s', v.cps, v.current.value.watermark)
  {
    var b := v.current.value;
    LateSoundKept(s, s', v, plan, i);
    if i < |plan| {
      var t := if i + 1 < |plan| then Min(plan[i + 1].from, b.watermark) else b.watermark;
      forall r | r in s'.history && Committed(v.cps, r) && !Committed(b.checkpoints, r) && r.ts < t
        ensures KeyOf(r) in s'.stored
      {
        LatePartStored(s, v.cps, b, plan, i, s'.stored, r);
      }
    }
  }

  lemma {:induction false} StorePart(s: State, v: Vars, plan: seq<Planned>, i: nat, s': State)
    requires WellFormed(s.history) && PlanOk(s, v, plan) && i < |plan| && SoundTo(s, v.cps, plan[i].from)
    requires Kept(s, s') && s'.history == s.history && s'.frontier == s.frontier && plan[i].to.Some?
    requires s'.stored == RunPart(s.history, v.cps, None, plan[i], s.stored, s.clock)
    ensures SoundTo(s', v.cps, plan[i].to.value) && PlanOk(s', v, plan)
  {
    SoundToKept(s, s', v.cps, plan[i].from);
    PlanKept(s, s', v, plan);
    PlanBounds(plan[0].from, Some(v.target), plan, i);
    forall r | r in s'.history && Committed(v.cps, r) && r.ts < plan[i].to.value ensures KeyOf(r) in s'.stored {
      if r.ts >= plan[i].from {
        PartStores(s.history, v.cps, plan[0].from, Some(v.target), None, plan, i, s.stored, s.clock, r);
      }
    }
  }

  lemma {:induction false} WritingCall(s: State, pid: nat, p: Proc, p': Proc, stored': Stored, marks': set<Mark>)
    requires SoundInv(s) && PlaceSound(s, p) && Calls(s, pid, p, p', stored', marks') && p' != Stopped(Failed)
    requires p.Check? || p.Write? || p.Provisional? || p.RewindWrite?
    ensures PlaceSound(s, p') && forall m | m in marks' :: Sound(s, m.base)
  {
    hide PlanFor, RunPart, IsLatestMove;
    if p'.Store? { assert p'.plan[p'.i].from == p.to; }
  }

  /** Any call of a client: its new place, and each row, keeps the promise. */
  lemma {:induction false} CallSound(s: State, pid: nat, p: Proc, p': Proc, stored': Stored, marks': set<Mark>,
                                     s': State)
    requires SoundInv(s) && PlaceSound(s, p) && Calls(s, pid, p, p', stored', marks')
    requires s'.history == s.history && s'.frontier == s.frontier && s'.stored == stored' && Kept(s, s')
    ensures PlaceSound(s', p') && forall m | m in marks' :: Sound(s', m.base)
  {
    hide PlanFor, RunPart, IsFirstDay, IsFinal, IsLatestMove, NextMove, Grown;
    if p' == Stopped(Failed) {
    } else if p.ReadMoves? || p.ReadFrontier? || p.ReadMark? || p.ReadTarget? || p.RewindRead? {
      ReadCall(s, pid, p, p', stored', marks');
      PlaceKept(s, s', p');
    } else if p.PlanLate? || p.FindStart? || p.PlanMove? {
      PlanCall(s, pid, p, p', stored', marks');
      PlaceKept(s, s', p');
    } else if p.Late? || p.Retry? || p.Store? {
      StoringCall(s, pid, p, p', stored', marks', s');
    } else {
      WritingCall(s, pid, p, p', stored', marks');
      PlaceKept(s, s', p');
    }
    forall m | m in marks' ensures Sound(s', m.base) { SoundKept(s, s', m.base); }
  }

  lemma {:induction false} LooseKeepsSound(s: State, a: Action, s': State)
    requires SoundInv(s) && LooseNext(s, a, s')
    ensures SoundInv(s')
  {
    LeqRefl(s.frontier);
    if a.Call? { CallKeeps(s, a.pid, s.procs[a.pid], a.after, a.stored, a.marks, s'.clock); }
    assert Kept(s, s');
    if a.Call? { CallSound(s, a.pid, s.procs[a.pid], a.after, a.stored, a.marks, s'); }
    forall pid | pid in s'.procs ensures PlaceSound(s', s'.procs[pid]) {
      if pid in s.procs && s'.procs[pid] == s.procs[pid] { PlaceKept(s, s', s.procs[pid]); }
    }
    forall m | m in s'.marks ensures Sound(s', m.base) {
      if m in s.marks { SoundKept(s, s', m.base); }
    }
  }

  lemma {:induction false} LooseSound(run: seq<State>, i: nat)
    requires LooseRun(run) && i < |run|
    ensures SoundInv(run[i])
  {
    if i > 0 {
      LooseSound(run, i - 1);
      assert LooseStepAt(run, i - 1);
      var a :| LooseNext(run[i - 1], a, run[i]);
      LooseKeepsSound(run[i - 1], a, run[i]);
    }
  }

  /**
   * In every interleaving, whatever the server's clock does, every watermark row ever written keeps its promise: each
   * event committed at or below its recorded checkpoints, with a timestamp before its watermark, has a stored row. A
   * rewind may be lost when the clock stands still; a stored price never is.
   */
  lemma {:induction false} EveryMarkSound(run: seq<State>, i: nat, m: Mark, r: HistoryRow)
    requires LooseRun(run) && i < |run| && m in run[i].marks
    requires r in run[i].history && Committed(m.base.checkpoints, r) && r.ts < m.base.watermark
    ensures KeyOf(r) in run[i].stored
  {
    LooseSound(run, i);
  }
}
