/**
 * What the rows of the watermark table hold: a rewind's row is the one asked for, and an advance that gets to its last
 * step has moved the watermark to its target, with the frontier it read as it began.
 */
module WatermarkWrites {
  import opened Options
  import opened Events
  import opened Ranges
  import opened Reprice
  import opened Watermark

  /* ---------------------------------------------------------------- what a rewind writes */

  predicate Reads(s: State, pid: nat, time: int) { pid in s.procs && s.procs[pid] == RewindRead(time) }

  predicate Writes(s: State, pid: nat, base: Base) { pid in s.procs && s.procs[pid] == RewindWrite(base) }

  /** In `s` a row is final whose frontier `base` has, and whose watermark is not below it. */
  ghost predicate MovesBack(s: State, base: Base) {
    exists f :: IsFinal(s.marks, f) && base.checkpoints == f.base.checkpoints && base.watermark <= f.base.watermark
  }

  /** The step from `k` is the read of this client's rewind, to the watermark and from the row that `base` is of. */
  ghost predicate ReadAt(run: seq<State>, k: nat, pid: nat, base: Base)
    requires k + 1 < |run|
  {
    Reads(run[k], pid, base.watermark) && Writes(run[k + 1], pid, base) && MovesBack(run[k], base)
  }

  lemma {:induction false} RewindReads(s: State, a: Action, s': State, pid: nat, base: Base)
    requires Next(s, a, s') && Writes(s', pid, base) && !Writes(s, pid, base)
    ensures Reads(s, pid, base.watermark) && MovesBack(s, base)
  {
    hide PlanFor, RunPart, Grown, IsFirstDay, WellFormed;
    assert a.Call? && a.pid == pid;
  }

  /** A rewind about to write writes the time asked for, with the frontier of the row final at its read. */
  lemma {:induction false} RewindIsAsAsked(run: seq<State>, i: nat, pid: nat, base: Base) returns (k: nat)
    requires Run(run) && i < |run| && Writes(run[i], pid, base)
    ensures k < i && ReadAt(run, k, pid, base)
  {
    hide Inv, Next, MovesBack;
    if i == 0 {
      assert false;
    } else {
      var a := RunStep(run, i - 1);
      if Writes(run[i - 1], pid, base) {
        k := RewindIsAsAsked(run, i - 1, pid, base);
      } else {
        RewindReads(run[i - 1], a, run[i], pid, base);
        k := i - 1;
      }
    }
  }

  lemma {:induction false} InsertIsBase(s: State, a: Action, s': State, m: Mark)
    requires Next(s, a, s') && m in s'.marks && m !in s.marks && m.author.ByRewind?
    ensures Writes(s, m.author.pid, m.base) && m.movedAt == s.clock
  {
    hide PlanFor, RunPart, Grown, IsFirstDay, WellFormed;
  }

  /**
   * Every row of a rewind, in every run: its client had been asked to rewind to exactly that watermark, and read a row
   * then final, not below it, whose frontier the row keeps.
   */
  lemma {:induction false} RewindRowIsAsAsked(run: seq<State>, i: nat, m: Mark) returns (k: nat)
    requires Run(run) && i < |run| && m in run[i].marks && m.author.ByRewind?
    ensures k < i && ReadAt(run, k, m.author.pid, m.base)
  {
    hide Inv, Next, ReadAt;
    if i == 0 {
      assert false;
    } else {
      var a := RunStep(run, i - 1);
      if m in run[i - 1].marks {
        k := RewindRowIsAsAsked(run, i - 1, m);
      } else {
        InsertIsBase(run[i - 1], a, run[i], m);
        k := RewindIsAsAsked(run, i - 1, m.author.pid, m.base);
      }
    }
  }

  /** Nothing to move back, or a time after the final watermark. */
  ghost predicate MustRefuse(s: State, time: int) {
    s.marks == {} || exists f :: IsFinal(s.marks, f) && time > f.base.watermark
  }

  /**
   * What the read of a rewind leads to, unless the call fails: refused exactly when it must be, else about to write.
   */
  lemma {:induction false} RewindRefusedExactly(run: seq<State>, i: nat, pid: nat, time: int)
    requires Run(run) && i + 1 < |run| && Reads(run[i], pid, time) && !Reads(run[i + 1], pid, time)
    requires pid in run[i + 1].procs && run[i + 1].procs[pid] != Stopped(Failed)
    ensures run[i + 1].procs[pid] == Stopped(Refused) <==> MustRefuse(run[i], time)
    ensures !MustRefuse(run[i], time) <==> exists base :: Writes(run[i + 1], pid, base) && base.watermark == time
  {
    var a := RunStep(run, i);
    var s := run[i];
    hide PlanFor, RunPart, Grown, IsFirstDay, WellFormed, MarkOk, ProcOk, PendingApart;
    assert a.Call? && a.pid == pid;
    if s.marks != {} {
      var f :| IsFinal(s.marks, f) && a.after == RewindFrom(f.base, time);
      forall g | IsFinal(s.marks, g) ensures g == f { assert g.movedAt == f.movedAt; }
      assert a.after.RewindWrite? ==> Writes(run[i + 1], pid, a.after.base);
    }
  }

  /* ---------------------------------------------------------------- what an advance writes */

  /** The frontier an advance works with. */
  function FrontierOf(p: Proc): Option<Frontier> {
    match p
    case ReadMark(_, cps) => Some(cps)
    case ReadTarget(_, cps, _) => Some(cps)
    case PlanLate(v) => Some(v.cps)
    case Late(v, _, _) => Some(v.cps)
    case Retry(v) => Some(v.cps)
    case FindStart(v) => Some(v.cps)
    case PlanMove(v, _) => Some(v.cps)
    case Store(v, _, _) => Some(v.cps)
    case Check(v, _, _, _) => Some(v.cps)
    case Write(v, _, _, _, _) => Some(v.cps)
    case Provisional(v, _) => Some(v.cps)
    case _ => None
  }

  ghost predicate WorksWith(s: State, pid: nat, cps: Frontier) {
    pid in s.procs && FrontierOf(s.procs[pid]) == Some(cps)
  }

  lemma {:induction false} FrontierRead(s: State, a: Action, s': State, pid: nat, cps: Frontier)
    requires Next(s, a, s') && WorksWith(s', pid, cps) && !WorksWith(s, pid, cps)
    ensures pid in s.procs && s.procs[pid].ReadFrontier? && s.frontier == cps
  {
    hide PlanFor, RunPart, Grown, IsFirstDay, WellFormed, IsFinal, IsLatestMove;
    assert (a.Call? && a.pid == pid) || a.Launch?;
  }

  /** All of an advance's statements use the frontier committed as it read it, at its second call. */
  lemma {:induction false} OneFrontier(run: seq<State>, i: nat, pid: nat, cps: Frontier) returns (k: nat)
    requires Run(run) && i < |run| && WorksWith(run[i], pid, cps)
    ensures k < i && pid in run[k].procs && run[k].procs[pid].ReadFrontier? && run[k].frontier == cps
  {
    hide Inv, Next;
    if i == 0 {
      assert false;
    } else {
      var a := RunStep(run, i - 1);
      if WorksWith(run[i - 1], pid, cps) {
        k := OneFrontier(run, i - 1, pid, cps);
      } else {
        FrontierRead(run[i - 1], a, run[i], pid, cps);
        k := i - 1;
      }
    }
  }

  /** The place its watermark step starts from, for an advance. */
  ghost predicate StartsAt(s: State, v: Vars, start: int) {
    match v.current
    case Some(b) => start == b.watermark
    case None =>
      && start % DAY_MS == 0
      && (forall r | r in s.history && Committed(v.cps, r) :: start <= r.ts)
      && exists r :: r in s.history && Committed(v.cps, r) && r.ts < start + DAY_MS
  }

  lemma {:induction false} DayStart(ts: nat)
    ensures var day := ts / DAY_MS * DAY_MS; day % DAY_MS == 0 && day <= ts < day + DAY_MS
  {
  }

  /** Its watermark step starts at the watermark it read, or at the day of the first event when there was none. */
  lemma {:induction false} StartIs(run: seq<State>, i: nat, pid: nat, v: Vars, start: int)
    requires Run(run) && i + 1 < |run| && pid in run[i].procs && pid in run[i + 1].procs
    requires run[i].procs[pid] == FindStart(v) && run[i + 1].procs[pid] == PlanMove(v, start)
    ensures StartsAt(run[i], v, start)
  {
    var a := RunStep(run, i);
    hide Inv, PlanFor, RunPart, Grown;
    assert a.Call? && a.pid == pid;
    if v.current.None? {
      var r :| r in Visible(run[i].history, v.cps) && start == r.ts / DAY_MS * DAY_MS
               && forall o | o in Visible(run[i].history, v.cps) :: r.ts <= o.ts;
      DayStart(r.ts);
      forall o | o in run[i].history && Committed(v.cps, o) ensures start <= o.ts {
        assert o in Visible(run[i].history, v.cps);
      }
    }
  }

  /** Within its target: no part ends beyond it, and a step with nothing to move starts beyond it. */
  predicate InTarget(p: Proc) {
    match p
    case Check(v, from, to, rest) => if rest.Last? then v.target <= from == to else to <= v.target
    case Write(v, from, to, rest, _) => if rest.Last? then v.target <= from == to else to <= v.target
    case Store(v, plan, i) => i < |plan| && plan[i].to.Some? && plan[i].to.value <= v.target
    case _ => true
  }

  /** The row an advance inserted last is there. */
  ghost predicate Inserted(s: State, pid: nat, v: Vars, reached: int) {
    exists m :: m in s.marks && m.base == Base(reached, v.cps) && v.movedAt == Some(m.movedAt)
                && m.author.ByAdvance? && m.author.pid == pid
  }

  ghost predicate Reached(s: State, pid: nat) {
    pid in s.procs ==>
      && InTarget(s.procs[pid])
      && (s.procs[pid].Provisional? ==>
            s.procs[pid].v.target <= s.procs[pid].reached && Inserted(s, pid, s.procs[pid].v, s.procs[pid].reached))
  }

  lemma {:induction false} PartEnds(h: set<HistoryRow>, cps: Frontier, lo: int, target: int, plan: seq<Planned>, i: nat)
    requires Complete(h, cps, lo, Some(target), None, plan) && lo < target && i < |plan|
    ensures plan[i].to.Some? && plan[i].to.value <= target
    ensures i == |plan| - 1 ==> plan[i].to == Some(target)
    decreases |plan| - i
  {
    if i < |plan| - 1 {
      PartEnds(h, cps, lo, target, plan, i + 1);
      assert NonEmpty(plan[i + 1]) && plan[i].to == Some(plan[i + 1].from);
    }
  }

  lemma {:induction false} CallInTarget(s: State, pid: nat, p: Proc, p': Proc, stored': Stored, marks': set<Mark>)
    requires Inv(s) && ProcOk(s, p) && InTarget(p) && Calls(s, pid, p, p', stored', marks')
    ensures InTarget(p')
    ensures p'.Provisional? ==>
      && p'.v.target <= p'.reached
      && exists m :: m in marks' && m.base == Base(p'.reached, p'.v.cps) && p'.v.movedAt == Some(m.movedAt)
                     && m.author.ByAdvance? && m.author.pid == pid
  {
    if p' == Stopped(Failed) { return; }
    match p
    case PlanMove(v, start) =>
      if p'.Store? {
        PlansAreComplete(s.history, v.cps, start, Some(v.target), None, p'.plan);
        PartEnds(s.history, v.cps, start, v.target, p'.plan, 0);
      }
    case Write(v, from, to, rest, next) => WriteInTarget(s, pid, p, p', stored', marks');
    case _ => hide Inv, ProcOk, PlanFor, RunPart, Grown, IsFirstDay, IsFinal, IsLatestMove;
  }

  lemma {:induction false} WriteInTarget(s: State, pid: nat, p: Proc, p': Proc, stored': Stored, marks': set<Mark>)
    requires ProcOk(s, p) && p.Write? && InTarget(p) && Calls(s, pid, p, p', stored', marks') && p' != Stopped(Failed)
    ensures InTarget(p')
    ensures p'.Provisional? ==>
      && p'.v.target <= p'.reached
      && exists m :: m in marks' && m.base == Base(p'.reached, p'.v.cps) && p'.v.movedAt == Some(m.movedAt)
                     && m.author.ByAdvance? && m.author.pid == pid
  {
    assert PendingMark(pid, p) in marks';
    if p.rest.Part? {
      PartEnds(s.history, p.v.cps, p.rest.plan[0].from, p.v.target, p.rest.plan, p.rest.i);
      if p.rest.i + 1 < |p.rest.plan| {
        PartEnds(s.history, p.v.cps, p.rest.plan[0].from, p.v.target, p.rest.plan, p.rest.i + 1);
      }
    }
  }

  lemma {:induction false} InsertedStays(s: State, s': State, pid: nat, v: Vars, reached: int)
    requires Inserted(s, pid, v, reached) && s.marks <= s'.marks
    ensures Inserted(s', pid, v, reached)
  {
    var m :| m in s.marks && m.base == Base(reached, v.cps) && v.movedAt == Some(m.movedAt)
             && m.author.ByAdvance? && m.author.pid == pid;
    assert m in s'.marks;
  }

  lemma {:induction false} StepReached(s: State, a: Action, s': State, pid: nat)
    requires Inv(s) && Next(s, a, s') && Reached(s, pid)
    ensures Reached(s', pid)
  {
    NextKeepsInv(s, a, s');
    if a.Call? && a.pid == pid {
      assert ProcOk(s, s.procs[pid]);
      CallInTarget(s, pid, s.procs[pid], a.after, a.stored, a.marks);
      hide Inv, Calls;
    } else if pid in s.procs {
      hide Inv, Calls, InTarget;
      if s.procs[pid].Provisional? { InsertedStays(s, s', pid, s.procs[pid].v, s.procs[pid].reached); }
    }
  }

  /**
   * An advance that has its provisional rows left to price, its last act before it is done, has brought the watermark
   * to its target, or found it there: its row is in, with that watermark and the frontier it read; and no row of an
   * advance goes beyond the target but one that moves nothing.
   */
  lemma {:induction false} DoneReaches(run: seq<State>, i: nat, pid: nat)
    requires Run(run) && i < |run|
    ensures Reached(run[i], pid)
  {
    if i > 0 {
      DoneReaches(run, i - 1, pid);
      hide Inv, Next, Reached;
      var a := RunStep(run, i - 1);
      StepReached(run[i - 1], a, run[i], pid);
    }
  }

  /** And it is done only so. */
  lemma {:induction false} DoneFromLast(run: seq<State>, i: nat, pid: nat)
    requires Run(run) && i + 1 < |run| && pid in run[i].procs && pid in run[i + 1].procs
    requires run[i + 1].procs[pid] == Stopped(Done) != run[i].procs[pid]
    ensures run[i].procs[pid].Provisional? || run[i].procs[pid].RewindWrite?
  {
    var a := RunStep(run, i);
    hide Inv, PlanFor, RunPart, Grown, IsFirstDay, IsFinal, IsLatestMove;
  }
}
