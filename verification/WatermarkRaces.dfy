/**
 * Exactly when a rewind can be lost to an advance, and exactly how an advance that a rewind passes can end. Here the
 * server's clock may stand still between steps, as two statements within a microsecond see it; the runs of `Watermark`
 * are those in which it does not.
 */
module WatermarkRaces {
  import opened Options
  import opened Events
  import opened Ranges
  import opened Reprice
  import opened Watermark
  import opened WatermarkSound

  function LastOf(run: seq<State>): State
    requires |run| >= 1
  {
    run[|run| - 1]
  }

  /* ---------------------------------------------------------------- every plan can be made */

  lemma {:induction false} MaxOf(s: set<nat>) returns (m: nat)
    requires s != {}
    ensures m in s && forall x | x in s :: x <= m
    decreases |s|
  {
    m :| m in s;
    if s != {m} {
      var rest := s - {m};
      assert s == rest + {m};
      var n := MaxOf(rest);
      if n > m { m := n; }
    }
  }

  lemma {:induction false} InOrder(s: set<nat>) returns (q: seq<nat>)
    ensures (forall i, j | 0 <= i < j < |q| :: q[i] < q[j]) && forall x :: x in q <==> x in s
    decreases |s|
  {
    if s == {} {
      q := [];
    } else {
      var m := MaxOf(s);
      q := InOrder(s - {m});
      forall i | 0 <= i < |q| ensures q[i] < m { assert q[i] in q; }
      q := q + [m];
    }
  }

  function Hour(r: HistoryRow): nat { HourOf(r.ts) }

  lemma {:induction false} CountsExist(rows: set<HistoryRow>) returns (buckets: seq<Bucket>)
    ensures HourlyCounts(rows, buckets)
  {
    var hours := InOrder(set r | r in rows :: Hour(r));
    buckets := seq(|hours|, i requires 0 <= i < |hours| =>
      Bucket(hours[i], |set r | r in rows && HourOf(r.ts) == hours[i]|));
    forall i | 0 <= i < |buckets| ensures IsHour(rows, buckets[i]) {
      assert hours[i] in hours;
      var r :| r in rows && Hour(r) == hours[i];
      var there := set o | o in rows && HourOf(o.ts) == hours[i];
      assert r in there && |there| > 0;
    }
    forall r | r in rows ensures exists i :: 0 <= i < |buckets| && buckets[i].startMs == HourOf(r.ts) {
      assert Hour(r) in hours;
      var i :| 0 <= i < |hours| && hours[i] == Hour(r);
      assert buckets[i].startMs == HourOf(r.ts);
    }
  }

  lemma {:induction false} WholeCut(atoms: seq<Atom>, lo: int, hi: int, limits: Limits)
    requires SumEvents(atoms) <= limits.maxEvents && limits.maxSpanMs == hi - lo
    requires forall i | 0 <= i < |atoms| :: lo <= atoms[i].startMs && atoms[i].endMs <= hi
    ensures GreedyCut(atoms, [|atoms|], limits)
  {
    assert atoms[0..|atoms|] == atoms;
    if atoms != [] { assert GroupAt(atoms, [|atoms|], 0, limits); }
  }

  lemma {:induction false} WholePlanOf(atoms: seq<Atom>, lo: int, hi: int)
    ensures PlanOf(atoms, [|atoms|], lo, Some(hi), [Planned(lo, Some(hi), SumEvents(atoms))])
  {
    assert atoms[0..|atoms|] == atoms;
  }

  /** With limits wide enough, the whole range in one part. */
  lemma {:induction false} WholePlan(lo: int, hi: int, buckets: seq<Bucket>) returns (limits: Limits,
                                     plan: seq<Planned>)
    requires Disjoint(buckets, HOUR_MS)
    ensures LimitsOk(limits) && limits.bucketMs == HOUR_MS
    ensures exists ends :: IsPlan(lo, Some(hi), buckets, limits, plan, ends)
  {
    hide Sorted, AllAtoms, PlanOf, GreedyCut, SumEvents, MetEvents;
    limits := Limits(Max(1, MetEvents(buckets, lo, Some(hi), HOUR_MS)), hi - lo, HOUR_MS);
    var atoms := AllAtoms(Sorted(buckets), lo, Some(hi), limits);
    SortedAtoms(buckets, lo, Some(hi), limits);
    WholeCut(atoms, lo, hi, limits);
    WholePlanOf(atoms, lo, hi);
    plan := [Planned(lo, Some(hi), SumEvents(atoms))];
    assert IsPlan(lo, Some(hi), buckets, limits, plan, [|atoms|]);
  }

  lemma {:induction false} PlanExists(h: set<HistoryRow>, cps: Frontier, lo: int, hi: int, above: Option<Frontier>)
    returns (plan: seq<Planned>)
    ensures PlanFor(h, cps, lo, Some(hi), above, plan)
  {
    var buckets := CountsExist(Counted(h, cps, lo, Some(hi), above));
    HourlyDisjoint(Counted(h, cps, lo, Some(hi), above), buckets);
    var limits;
    limits, plan := WholePlan(lo, hi, buckets);
  }

  /* ---------------------------------------------------------------- what holds without a moving clock */

  /** What an underway advance compares with. */
  function Seen(p: Proc): Option<int> {
    match p
    case ReadFrontier(m) => m
    case ReadMark(m, _) => m
    case ReadTarget(m, _, _) => m
    case PlanLate(v) => v.movedAt
    case Late(v, _, _) => v.movedAt
    case Retry(v) => v.movedAt
    case FindStart(v) => v.movedAt
    case PlanMove(v, _) => v.movedAt
    case Store(v, _, _) => v.movedAt
    case Check(v, _, _, _) => v.movedAt
    case Write(v, _, _, _, _) => v.movedAt
    case _ => None
  }

  ghost predicate HasMove(s: State, m: Option<int>) { m.Some? ==> exists w :: w in s.marks && w.movedAt == m.value }

  predicate Bounded(plan: seq<Planned>) { forall k | 0 <= k < |plan| :: plan[k].to.Some? }

  predicate RestShape(rest: Rest) { rest.Part? ==> rest.i < |rest.plan| && Bounded(rest.plan) }

  predicate Shape(p: Proc) {
    match p
    case ReadTarget(m, _, current) => m.Some? ==> current.Some?
    case PlanLate(v) => v.movedAt.Some? ==> v.current.Some?
    case Late(v, plan, i) => v.current.Some? && i <= |plan|
    case Retry(v) => v.movedAt.Some? ==> v.current.Some?
    case FindStart(v) => v.movedAt.Some? ==> v.current.Some?
    case Store(v, plan, i) => i < |plan| && Bounded(plan)
    case Check(v, _, _, rest) => RestShape(rest)
    case Write(v, _, _, rest, next) => RestShape(rest) && (v.movedAt.Some? ==> next > v.movedAt.value)
    case _ => true
  }

  ghost predicate ByUnderway(s: State, m: Mark) {
    m.author.ByAdvance? ==> m.author.pid in s.procs && Underway(s.procs[m.author.pid])
  }

  ghost predicate LooseInv(s: State) {
    && WellFormed(s.history)
    && (forall m | m in s.marks :: ByUnderway(s, m) && (m.author.ByRewind? ==> m.movedAt <= s.clock))
    && (forall pid | pid in s.procs :: Shape(s.procs[pid]) && HasMove(s, Seen(s.procs[pid])))
  }

  lemma {:induction false} PlanIsBounded(h: set<HistoryRow>, cps: Frontier, lo: int, hi: int, above: Option<Frontier>,
                                         plan: seq<Planned>)
    requires PlanFor(h, cps, lo, Some(hi), above, plan)
    ensures |plan| >= 1 && Bounded(plan)
  {
    PlansAreComplete(h, cps, lo, Some(hi), above, plan);
    forall k | 0 <= k < |plan| ensures plan[k].to.Some? {
      if k < |plan| - 1 { assert plan[k].to == Some(plan[k + 1].from); }
    }
  }

  lemma {:induction false} CallShape(s: State, pid: nat, p: Proc, p': Proc, stored': Stored, marks': set<Mark>)
    requires LooseInv(s) && Shape(p) && HasMove(s, Seen(p)) && Calls(s, pid, p, p', stored', marks')
    ensures Shape(p') && s.marks <= marks'
  {
    if p.PlanMove? || p.Store? || p.Check? || p.Write? {
      StepShape(s, pid, p, p', stored', marks');
    } else {
      hide PlanFor, RunPart, Grown, IsFirstDay, IsFinal, IsLatestMove, Visible, LooseInv, NextMove;
      if p' != Stopped(Failed) {
        match p
        case ReadMark(m, cps) =>
          if m.Some? { assert s.marks != {}; }
        case _ =>
      }
    }
  }

  /** The watermark step. */
  lemma {:induction false} StepShape(s: State, pid: nat, p: Proc, p': Proc, stored': Stored, marks': set<Mark>)
    requires Shape(p) && Calls(s, pid, p, p', stored', marks') && (p.PlanMove? || p.Store? || p.Check? || p.Write?)
    ensures Shape(p') && s.marks <= marks'
  {
    hide PlanFor, RunPart, Grown, IsFirstDay, IsFinal, IsLatestMove, Visible, RewindFrom;
    if p.PlanMove? && p'.Store? { PlanIsBounded(s.history, p.v.cps, p.start, p.v.target, None, p'.plan); }
  }

  lemma {:induction false} CallSeen(s: State, pid: nat, p: Proc, p': Proc, stored': Stored, marks': set<Mark>)
    requires Shape(p) && HasMove(s, Seen(p)) && Calls(s, pid, p, p', stored', marks')
    ensures Seen(p').Some? ==> exists w :: w in marks' && w.movedAt == Seen(p').value
  {
    hide PlanFor, RunPart, Grown, IsFirstDay, IsFinal;
    if p.Write? {
      if p' != Stopped(Failed) { assert PendingMark(pid, p) in marks'; }
    } else if Seen(p).Some? {
      var w :| w in s.marks && w.movedAt == Seen(p).value;
      assert w in marks';
    }
  }

  lemma {:induction false} CallMarks(s: State, pid: nat, p: Proc, p': Proc, stored': Stored, marks': set<Mark>, m: Mark)
    requires Calls(s, pid, p, p', stored', marks') && m in marks' && m !in s.marks
    ensures if m.author.ByRewind? then p.RewindWrite? && m.movedAt == s.clock && m.author.pid == pid
            else p.Write? && m == PendingMark(pid, p) && Underway(p')
  {
  }

  lemma {:induction false} LooseKeeps(s: State, a: Action, s': State)
    requires LooseInv(s) && LooseNext(s, a, s')
    ensures LooseInv(s') && s.marks <= s'.marks
  {
    if a.Call? {
      var p := s.procs[a.pid];
      CallShape(s, a.pid, p, a.after, a.stored, a.marks);
      CallSeen(s, a.pid, p, a.after, a.stored, a.marks);
      forall m | m in s'.marks ensures ByUnderway(s', m) && (m.author.ByRewind? ==> m.movedAt <= s'.clock) {
        if m !in s.marks { CallMarks(s, a.pid, p, a.after, a.stored, a.marks, m); }
        else { StaysUnderway(s, a, s', m); }
      }
    }
    forall pid | pid in s'.procs ensures Shape(s'.procs[pid]) && HasMove(s', Seen(s'.procs[pid])) {
      if pid in s.procs && s'.procs[pid] == s.procs[pid] { KeepsMove(s, s', Seen(s.procs[pid])); }
    }
  }

  lemma {:induction false} KeepsMove(s: State, s': State, m: Option<int>)
    requires HasMove(s, m) && s.marks <= s'.marks
    ensures HasMove(s', m)
  {
    if m.Some? {
      var w :| w in s.marks && w.movedAt == m.value;
      assert w in s'.marks;
    }
  }

  lemma {:induction false} StaysUnderway(s: State, a: Action, s': State, m: Mark)
    requires LooseNext(s, a, s') && a.Call? && ByUnderway(s, m)
    ensures ByUnderway(s', m)
  {
  }

  /* ---------------------------------------------------------------- exactly when a rewind can be lost */

  /** A rewind's row is inserted. */
  ghost predicate Lands(s: State, s': State, rewind: Mark) {
    rewind in s'.marks && rewind !in s.marks && rewind.author.ByRewind?
  }

  /** A row of an advance that was underway already. */
  ghost predicate FromBefore(start: State, m: Mark) {
    m.author.ByAdvance? && m.author.pid in start.procs && Underway(start.procs[m.author.pid])
  }

  /** `FINAL` may show a row of an advance that had read the latest move before the rewind landed. */
  ghost predicate LostIn(start: State, s: State) { exists f :: IsFinal(s.marks, f) && FromBefore(start, f) }

  /** A checked write no older than `at`, or a comparison with a row no older. */
  predicate Overtakes(p: Proc, at: int) {
    if p.Write? then p.next >= at else Seen(p).Some? && Seen(p).value >= at
  }

  /** What can lose a rewind that lands at `at`: a row of an advance no older, or an advance that can write one. */
  ghost predicate Exposed(s: State, at: int) {
    || (exists m :: m in s.marks && m.author.ByAdvance? && m.movedAt >= at)
    || (exists pid :: pid in s.procs && Overtakes(s.procs[pid], at))
  }

  lemma {:induction false} LandsIs(s: State, a: Action, s': State, rewind: Mark)
    requires LooseNext(s, a, s') && Lands(s, s', rewind)
    ensures a.Call? && a.pid in s.procs && s.procs[a.pid].RewindWrite? && rewind.movedAt == s.clock
    ensures s'.marks == s.marks + {rewind} && s'.procs == s.procs[a.pid := Stopped(Done)]
    ensures s'.history == s.history && s'.frontier == s.frontier
  {
    CallMarks(s, a.pid, s.procs[a.pid], a.after, a.stored, a.marks, rewind);
  }

  /* not exposed: never lost */

  lemma {:induction false} NotOvertaking(p: Proc, at: int)
    requires Shape(p) && Underway(p) && !Overtakes(p, at)
    ensures Behind(p, at)
  {
  }

  /** The advances that were underway are behind the rewind, and their rows older. */
  ghost predicate Passed(start: State, s: State, rewind: Mark) {
    && rewind in s.marks
    && (forall pid | pid in start.procs && Underway(start.procs[pid]) ::
          pid in s.procs && Behind(s.procs[pid], rewind.movedAt))
    && (forall m | m in s.marks && FromBefore(start, m) :: m.movedAt < rewind.movedAt)
  }

  lemma {:induction false} PassedBegins(s: State, a: Action, s': State, rewind: Mark)
    requires LooseInv(s) && LooseNext(s, a, s') && Lands(s, s', rewind) && !Exposed(s, rewind.movedAt)
    ensures Passed(s, s', rewind)
  {
    LandsIs(s, a, s', rewind);
    forall pid | pid in s.procs && Underway(s.procs[pid]) ensures Behind(s'.procs[pid], rewind.movedAt) {
      assert s'.procs[pid] == s.procs[pid];
      NotOvertaking(s.procs[pid], rewind.movedAt);
    }
  }

  lemma {:induction false} PassedStays(start: State, s: State, a: Action, s': State, rewind: Mark)
    requires Passed(start, s, rewind) && LooseNext(s, a, s')
    ensures Passed(start, s', rewind)
  {
    forall pid | pid in start.procs && Underway(start.procs[pid])
      ensures pid in s'.procs && Behind(s'.procs[pid], rewind.movedAt)
      ensures forall m | m in s'.marks && m !in s.marks && m.author.ByAdvance? && m.author.pid == pid ::
        m.movedAt < rewind.movedAt
    {
      BehindStep(s, a, s', rewind, pid);
    }
    if a.Call? { MarksGrow(s, a.pid, s.procs[a.pid], a.after, a.stored, a.marks); }
  }

  lemma {:induction false} MarksGrow(s: State, pid: nat, p: Proc, p': Proc, stored': Stored, marks': set<Mark>)
    requires Calls(s, pid, p, p', stored', marks')
    ensures s.marks <= marks'
  {
    hide PlanFor, RunPart, Grown, IsFirstDay, IsFinal;
  }

  lemma {:induction false} PassedThrough(start: State, later: seq<State>, rewind: Mark, j: nat)
    requires |later| >= 1 && Passed(start, later[0], rewind) && LooseFrom(later[0], later) && j < |later|
    ensures Passed(start, later[j], rewind)
  {
    if j > 0 {
      PassedThrough(start, later, rewind, j - 1);
      assert LooseStepAt(later, j - 1);
      var a :| LooseNext(later[j - 1], a, later[j]);
      PassedStays(start, later[j - 1], a, later[j], rewind);
    }
  }

  lemma {:induction false} PassedNotLost(start: State, s: State, rewind: Mark)
    requires Passed(start, s, rewind)
    ensures !LostIn(start, s)
  {
    forall f | IsFinal(s.marks, f) ensures !FromBefore(start, f) {
      assert rewind.movedAt <= f.movedAt;
    }
  }

  /* exposed: can be lost */

  lemma {:induction false} FinalExists(marks: set<Mark>) returns (f: Mark)
    requires marks != {}
    ensures IsFinal(marks, f)
    decreases |marks|
  {
    f :| f in marks;
    if marks != {f} {
      var rest := marks - {f};
      assert marks == rest + {f};
      var g := FinalExists(rest);
      if g.movedAt > f.movedAt { f := g; }
    }
  }

  /** A row of an advance that is no older than the rewind: it is lost as it lands. */
  lemma {:induction false} LostAtOnce(s: State, a: Action, s': State, rewind: Mark, m: Mark)
    requires LooseInv(s) && LooseNext(s, a, s') && Lands(s, s', rewind)
    requires m in s.marks && m.author.ByAdvance? && m.movedAt >= rewind.movedAt
    ensures LostIn(s, s')
  {
    LandsIs(s, a, s', rewind);
    assert ByUnderway(s, m);
    var f := FinalExists(s'.marks);
    if f.author.ByRewind? {
      assert f.movedAt <= rewind.movedAt && m.movedAt <= f.movedAt;
      assert IsFinal(s'.marks, m) && FromBefore(s, m);
    } else {
      assert ByUnderway(s, f);
      assert FromBefore(s, f);
    }
  }

  lemma {:induction false} HistoryOk(s: State)
    requires LooseInv(s)
    ensures WellFormed(s.history)
  {
  }

  lemma {:induction false} OneStep(s: State, pid: nat, p': Proc, stored': Stored, marks': set<Mark>) returns (s': State)
    requires LooseInv(s) && pid in s.procs && Calls(s, pid, s.procs[pid], p', stored', marks')
    ensures s' == After(s, pid, p', stored', marks', s.clock) && LooseStepTo(s, s') && LooseInv(s')
  {
    hide Calls, LooseInv, WellFormed;
    s' := After(s, pid, p', stored', marks', s.clock);
    assert WellFormed(s.history) by { HistoryOk(s); }
    assert LooseNext(s, Call(pid, p', stored', marks'), s');
    LooseKeeps(s, Call(pid, p', stored', marks'), s');
  }

  lemma {:induction false} Prepend(s: State, s': State, later: seq<State>)
    requires LooseStepTo(s, s') && LooseFrom(s', later)
    ensures LooseFrom(s, [s] + later)
  {
    var all := [s] + later;
    forall i | 0 <= i < |all| - 1 ensures LooseStepAt(all, i) {
      if i > 0 { assert LooseStepAt(later, i - 1); }
    }
  }

  /** A checked write that no row is later than: its insert loses the rewind. */
  lemma {:induction false} InsertLoses(start: State, s: State, pid: nat) returns (later: seq<State>)
    requires LooseInv(s) && pid in s.procs && s.procs[pid].Write?
    requires forall m | m in s.marks :: m.movedAt <= s.procs[pid].next
    requires pid in start.procs && Underway(start.procs[pid])
    ensures LooseFrom(s, later) && LostIn(start, LastOf(later))
  {
    var p := s.procs[pid];
    var m := PendingMark(pid, p);
    var p' := if p.rest.Part? && p.rest.i + 1 < |p.rest.plan|
              then Store(p.v.(movedAt := Some(p.next)), p.rest.plan, p.rest.i + 1)
              else Provisional(p.v.(movedAt := Some(p.next)), p.to);
    var s' := OneStep(s, pid, p', s.stored, s.marks + {m});
    later := [s, s'];
    assert LooseStepAt(later, 0);
    assert IsFinal(s'.marks, m) && FromBefore(start, m);
  }

  /** How far an advance is from its write. */
  function CallsLeft(p: Proc): nat {
    match p
    case ReadFrontier(_) => 10
    case ReadMark(_, _) => 9
    case ReadTarget(_, _, _) => 8
    case PlanLate(_) => 7
    case Late(_, _, _) => 6
    case Retry(_) => 5
    case FindStart(_) => 4
    case PlanMove(_, _) => 3
    case Store(_, _, _) => 2
    case Check(_, _, _, _) => 1
    case _ => 0
  }

  function PartsLeft(p: Proc): nat { if p.Late? && p.i <= |p.plan| then |p.plan| - p.i else 0 }

  predicate Nearer(p: Proc, p': Proc) {
    CallsLeft(p') < CallsLeft(p) || (CallsLeft(p') == CallsLeft(p) && PartsLeft(p') < PartsLeft(p))
  }

  /** An advance that compares with the latest row has a next call that keeps it so: what it reads first. */
  lemma {:induction false} HasRead(s: State, pid: nat, p: Proc) returns (p': Proc)
    requires Seen(p).Some? && IsLatestMove(s.marks, Seen(p)) && (p.ReadFrontier? || p.ReadMark? || p.ReadTarget?)
    ensures Calls(s, pid, p, p', s.stored, s.marks) && Seen(p') == Seen(p) && Nearer(p, p') && !p'.Write?
  {
    match p
    case ReadFrontier(m) => p' := ReadMark(m, s.frontier);
    case ReadMark(m, cps) =>
      var f :| f in s.marks && f.movedAt == m.value;
      assert IsFinal(s.marks, f);
      p' := ReadTarget(m, cps, Some(f.base));
    case ReadTarget(m, cps, current) => p' := PlanLate(Vars(m, cps, current, 0));
  }

  /** The late rows and the retry. */
  lemma {:induction false} HasLate(s: State, pid: nat, p: Proc) returns (p': Proc, stored': Stored)
    requires Seen(p).Some? && Shape(p) && (p.PlanLate? || p.Late? || p.Retry?)
    ensures Calls(s, pid, p, p', stored', s.marks) && Seen(p') == Seen(p) && Nearer(p, p') && !p'.Write?
  {
    hide PlanFor, RunPart;
    stored' := s.stored;
    match p
    case PlanLate(v) =>
      var b := v.current.value;
      if b.checkpoints == v.cps {
        p' := Retry(v);
      } else {
        var plan := PlanExists(s.history, v.cps, 0, b.watermark, Some(b.checkpoints));
        p' := Late(v, plan, 0);
      }
    case Late(v, plan, i) =>
      if i < |plan| {
        p' := Late(v, plan, i + 1);
        stored' := RunPart(s.history, v.cps, Some(v.current.value.checkpoints), plan[i], s.stored, s.clock);
      } else {
        p' := Retry(v);
      }
    case Retry(v) => p' := FindStart(v);
  }

  /** The watermark step, up to its check. */
  lemma {:induction false} HasStore(s: State, pid: nat, p: Proc) returns (p': Proc, stored': Stored)
    requires Seen(p).Some? && Shape(p) && (p.FindStart? || p.PlanMove? || p.Store?)
    ensures Calls(s, pid, p, p', stored', s.marks) && Seen(p') == Seen(p) && Nearer(p, p') && !p'.Write?
  {
    hide PlanFor, RunPart;
    stored' := s.stored;
    match p
    case FindStart(v) => p' := PlanMove(v, v.current.value.watermark);
    case PlanMove(v, start) =>
      if start < v.target {
        var plan := PlanExists(s.history, v.cps, start, v.target, None);
        p' := Store(v, plan, 0);
      } else {
        p' := Check(v, start, start, Last);
      }
    case Store(v, plan, i) =>
      p' := Check(v, plan[i].from, plan[i].to.value, Part(plan, i));
      stored' := RunPart(s.history, v.cps, None, plan[i], s.stored, s.clock);
  }

  lemma {:induction false} HasCall(s: State, pid: nat, p: Proc) returns (p': Proc, stored': Stored)
    requires Shape(p) && Seen(p).Some? && IsLatestMove(s.marks, Seen(p)) && !p.Write?
    ensures Calls(s, pid, p, p', stored', s.marks) && Seen(p') == Seen(p) && Nearer(p, p')
    ensures p'.Write? ==> p'.next > Seen(p).value
  {
    if p.ReadFrontier? || p.ReadMark? || p.ReadTarget? {
      p' := HasRead(s, pid, p);
      stored' := s.stored;
    } else if p.PlanLate? || p.Late? || p.Retry? {
      p', stored' := HasLate(s, pid, p);
    } else if p.Check? {
      p', stored' := Write(p.v, p.from, p.to, p.rest, NextMove(s.clock, p.v.movedAt)), s.stored;
    } else {
      p', stored' := HasStore(s, pid, p);
    }
  }

  lemma {:induction false} ShapeOf(s: State, pid: nat)
    requires LooseInv(s) && pid in s.procs
    ensures Shape(s.procs[pid])
  {
  }

  /** So it comes to a write no row is later than. */
  lemma {:induction false} OnwardLoses(start: State, s: State, pid: nat) returns (later: seq<State>)
    requires LooseInv(s) && pid in s.procs && Seen(s.procs[pid]).Some? && IsLatestMove(s.marks, Seen(s.procs[pid]))
    requires s.procs[pid].Write? ==> s.procs[pid].next > Seen(s.procs[pid]).value
    requires pid in start.procs && Underway(start.procs[pid])
    ensures LooseFrom(s, later) && LostIn(start, LastOf(later))
    decreases CallsLeft(s.procs[pid]), PartsLeft(s.procs[pid])
  {
    hide Calls, Underway, LostIn;
    if s.procs[pid].Write? {
      assert forall m | m in s.marks :: m.movedAt <= s.procs[pid].next;
      later := InsertLoses(start, s, pid);
    } else {
      ShapeOf(s, pid);
      hide LooseInv, IsLatestMove, Seen;
      var p', stored' := HasCall(s, pid, s.procs[pid]);
      var s' := OneStep(s, pid, p', stored', s.marks);
      var rest := OnwardLoses(start, s', pid);
      later := [s] + rest;
      Prepend(s, s', rest);
    }
  }

  lemma {:induction false} ExposedLoses(s: State, a: Action, s': State, rewind: Mark) returns (later: seq<State>)
    requires LooseInv(s) && LooseNext(s, a, s') && Lands(s, s', rewind) && Exposed(s, rewind.movedAt)
    ensures LooseFrom(s', later) && LostIn(s, LastOf(later))
  {
    hide LooseInv, LooseNext, Lands, Overtakes, LooseFrom, LostIn;
    if m :| m in s.marks && m.author.ByAdvance? && m.movedAt >= rewind.movedAt {
      LostAtOnce(s, a, s', rewind, m);
      LooseAlone(s');
      later := [s'];
    } else {
      var pid :| pid in s.procs && Overtakes(s.procs[pid], rewind.movedAt);
      later := OvertakenLoses(s, a, s', rewind, pid);
    }
  }

  lemma {:induction false} LooseAlone(s: State)
    ensures LooseFrom(s, [s])
  {
  }

  /** No row is later than the rewind as it lands, where no advance's row is no older. */
  lemma {:induction false} NoneLater(s: State, a: Action, s': State, rewind: Mark)
    requires LooseInv(s) && LooseNext(s, a, s') && Lands(s, s', rewind)
    requires forall m | m in s.marks && m.author.ByAdvance? :: m.movedAt < rewind.movedAt
    ensures forall m | m in s'.marks :: m.movedAt <= rewind.movedAt
  {
    LandsIs(s, a, s', rewind);
    forall m | m in s.marks ensures m.movedAt <= rewind.movedAt { assert ByUnderway(s, m); }
  }

  lemma {:induction false} OvertakingIs(s: State, pid: nat, at: int)
    requires LooseInv(s) && pid in s.procs && Overtakes(s.procs[pid], at)
    ensures Underway(s.procs[pid]) && HasMove(s, Seen(s.procs[pid]))
  {
  }

  /** An advance that compares with a row no older, or has a checked write no older, goes on to lose the rewind. */
  lemma {:induction false} OvertakenLoses(s: State, a: Action, s': State, rewind: Mark, pid: nat)
    returns (later: seq<State>)
    requires LooseInv(s) && LooseNext(s, a, s') && Lands(s, s', rewind)
    requires pid in s.procs && Overtakes(s.procs[pid], rewind.movedAt)
    requires forall m | m in s.marks && m.author.ByAdvance? :: m.movedAt < rewind.movedAt
    ensures LooseFrom(s', later) && LostIn(s, LastOf(later))
  {
    LandsIs(s, a, s', rewind);
    LooseKeeps(s, a, s');
    NoneLater(s, a, s', rewind);
    OvertakingIs(s, pid, rewind.movedAt);
    assert s'.procs[pid] == s.procs[pid];
    hide LooseInv, LooseNext, Lands, LooseFrom, LostIn, Underway, HasMove, Seen;
    if s.procs[pid].Write? {
      later := InsertLoses(s, s', pid);
    } else {
      KeepsMove(s, s', Seen(s.procs[pid]));
      SeenIsLatest(s', s'.procs[pid], rewind.movedAt);
      later := OnwardLoses(s, s', pid);
    }
  }

  lemma {:induction false} SeenIsLatest(s: State, p: Proc, at: int)
    requires HasMove(s, Seen(p)) && Seen(p).Some? && Seen(p).value >= at
    requires forall m | m in s.marks :: m.movedAt <= at
    ensures IsLatestMove(s.marks, Seen(p))
  {
    var w :| w in s.marks && w.movedAt == Seen(p).value;
  }

  lemma {:induction false} LooseRunInv(run: seq<State>, i: nat)
    requires LooseRun(run) && i < |run|
    ensures LooseInv(run[i])
  {
    if i > 0 {
      LooseRunInv(run, i - 1);
      assert LooseStepAt(run, i - 1);
      var a :| LooseNext(run[i - 1], a, run[i]);
      LooseKeeps(run[i - 1], a, run[i]);
    }
  }

  lemma {:induction false} UnexposedStays(s: State, a: Action, s': State, rewind: Mark, later: seq<State>)
    requires LooseInv(s) && LooseNext(s, a, s') && Lands(s, s', rewind) && !Exposed(s, rewind.movedAt)
    requires LooseFrom(s', later)
    ensures !LostIn(s, LastOf(later))
  {
    hide LooseInv, Lands, LooseNext, Exposed, LostIn, Passed;
    PassedBegins(s, a, s', rewind);
    PassedThrough(s, later, rewind, |later| - 1);
    PassedNotLost(s, LastOf(later), rewind);
  }

  /**
   * Exactly when a rewind can be lost: from where it lands, in some continuation, `FINAL` may show a row of an advance
   * that was underway before, if and only if such an advance has a row or a checked write no older than the rewind, or
   * compares with a row no older.
   */
  lemma {:induction false} LostExactly(run: seq<State>, i: nat, rewind: Mark)
    requires LooseRun(run) && i + 1 < |run| && Lands(run[i], run[i + 1], rewind)
    ensures (exists later | LooseFrom(run[i + 1], later) :: LostIn(run[i], LastOf(later)))
       <==> Exposed(run[i], rewind.movedAt)
  {
    LooseRunInv(run, i);
    hide LooseInv, Lands, LooseNext, Exposed, LostIn;
    assert LooseStepAt(run, i);
    var a :| LooseNext(run[i], a, run[i + 1]);
    if Exposed(run[i], rewind.movedAt) {
      var later := ExposedLoses(run[i], a, run[i + 1], rewind);
    } else {
      forall later | LooseFrom(run[i + 1], later) ensures !LostIn(run[i], LastOf(later)) {
        UnexposedStays(run[i], a, run[i + 1], rewind, later);
      }
    }
  }

  /** With a clock that moves, nothing is: the rewind is later than every row and every checked write. */
  lemma {:induction false} StrictNotExposed(run: seq<State>, i: nat, rewind: Mark)
    requires Run(run) && i + 1 < |run| && Lands(run[i], run[i + 1], rewind)
    ensures !Exposed(run[i], rewind.movedAt)
  {
    var s := run[i];
    var a := RunStep(run, i);
    LandsIs(s, a, run[i + 1], rewind);
    forall m | m in s.marks ensures m.movedAt < s.clock { assert MarkOk(s, m); }
    forall pid | pid in s.procs ensures !Overtakes(s.procs[pid], s.clock) {
      assert ProcOk(s, s.procs[pid]);
      if Underway(s.procs[pid]) { SeenBeforeClock(s, s.procs[pid]); }
    }
  }

  /** So with a clock that moves until a rewind lands, it is never lost, even if the clock stands still from then on. */
  lemma {:induction false} StrictNeverLost(run: seq<State>, i: nat, rewind: Mark, later: seq<State>)
    requires Run(run) && i + 1 < |run| && Lands(run[i], run[i + 1], rewind) && LooseFrom(run[i + 1], later)
    ensures !LostIn(run[i], LastOf(later))
  {
    StrictIsLoose(run);
    StrictNotExposed(run, i, rewind);
    LostExactly(run, i, rewind);
  }

  /* ---------------------------------------------------------------- exactly how a passed advance can end */

  ghost predicate StrictFrom(s: State, run: seq<State>) {
    |run| >= 1 && run[0] == s && forall i | 0 <= i < |run| - 1 :: StepAt(run, i)
  }

  predicate EndedAs(s: State, pid: nat, o: Outcome) { pid in s.procs && s.procs[pid] == Stopped(o) }

  predicate MoreParts(rest: Rest) { rest.Part? && rest.i + 1 < |rest.plan| }

  /** No watermark when it looked, and no event committed at its frontier. */
  predicate NoEvents(s: State, current: Option<Base>, cps: Frontier) {
    current.None? && Visible(s.history, cps) == {}
  }

  /** How an advance can still end once a rewind has landed, other than superseded or failed. */
  predicate MayEnd(s: State, p: Proc, o: Outcome) {
    match o
    case Done => p.Provisional? || (p.Write? && !MoreParts(p.rest))
    case Paused => p.Write? && MoreParts(p.rest) && p.to < p.v.target
    case Waiting =>
      || (p.ReadTarget? && NoEvents(s, p.current, p.cps))
      || ((p.PlanLate? || p.FindStart?) && NoEvents(s, p.v.current, p.v.cps))
    case _ => false
  }

  /** Behind a rewind, and past ending so. */
  ghost predicate Cannot(s: State, pid: nat, o: Outcome, rewind: Mark) {
    && Inv(s) && rewind in s.marks && pid in s.procs && Behind(s.procs[pid], rewind.movedAt)
    && !MayEnd(s, s.procs[pid], o) && s.procs[pid] != Stopped(o)
  }

  lemma {:induction false} OwnCallCannot(s: State, pid: nat, p: Proc, p': Proc, stored': Stored, marks': set<Mark>,
                                         o: Outcome, rewind: Mark)
    requires Inv(s) && ProcOk(s, p) && rewind in s.marks && Behind(p, rewind.movedAt)
    requires Calls(s, pid, p, p', stored', marks') && !MayEnd(s, p, o) && !o.Superseded? && !o.Failed?
    ensures !MayEnd(s, p', o) && p' != Stopped(o)
  {
    if o.Waiting? {
      NotWaiting(s, pid, p, p', stored', marks', rewind);
    } else {
      hide PlanFor, RunPart, Grown, IsFirstDay, IsFinal, IsLatestMove, Visible, Inv, ProcOk;
      BehindCall(s, pid, p, p', stored', marks', rewind);
    }
  }

  lemma {:induction false} NotWaiting(s: State, pid: nat, p: Proc, p': Proc, stored': Stored, marks': set<Mark>,
                                      rewind: Mark)
    requires ProcOk(s, p) && rewind in s.marks && Behind(p, rewind.movedAt)
    requires Calls(s, pid, p, p', stored', marks') && !MayEnd(s, p, Waiting)
    ensures !MayEnd(s, p', Waiting) && p' != Stopped(Waiting)
  {
    hide PlanFor, RunPart, Grown, IsFirstDay, Visible, VarsOk, MoveOk, PlanOk, RestOk, WriteOk, StoredSince,
         StoredBelow;
    if p' != Stopped(Failed) {
      match p
      case ReadMark(_, _) => assert s.marks != {};
      case _ =>
    }
  }

  lemma {:induction false} SameVisible(s: State, s': State, cps: Frontier)
    requires Grew(s, s') && Leq(cps, s.frontier)
    ensures Visible(s'.history, cps) == Visible(s.history, cps)
  {
    forall r ensures r in Visible(s'.history, cps) <==> r in Visible(s.history, cps) {
      if Committed(cps, r) { CommittedMono(cps, s.frontier, r); }
    }
  }

  lemma {:induction false} OthersCannot(s: State, s': State, p: Proc, o: Outcome)
    requires Grew(s, s') && ProcOk(s, p) && !MayEnd(s, p, o)
    ensures !MayEnd(s', p, o)
  {
    match p
    case ReadTarget(_, cps, _) => SameVisible(s, s', cps);
    case PlanLate(v) => SameVisible(s, s', v.cps);
    case FindStart(v) => SameVisible(s, s', v.cps);
    case _ =>
  }

  lemma {:induction false} CannotStays(s: State, a: Action, s': State, pid: nat, o: Outcome, rewind: Mark)
    requires Cannot(s, pid, o, rewind) && Next(s, a, s') && !o.Superseded? && !o.Failed?
    ensures Cannot(s', pid, o, rewind)
  {
    hide Inv, ProcOk, Calls, Behind, MayEnd;
    NextKeepsInv(s, a, s');
    BehindStep(s, a, s', rewind, pid);
    ProcIsOk(s, pid);
    if a.Call? && a.pid == pid {
      OwnCallCannot(s, pid, s.procs[pid], a.after, a.stored, a.marks, o, rewind);
      SameHistory(s, s', a.after, o);
    } else {
      OthersCannot(s, s', s.procs[pid], o);
    }
  }

  lemma {:induction false} ProcIsOk(s: State, pid: nat)
    requires Inv(s) && pid in s.procs
    ensures ProcOk(s, s.procs[pid])
  {
  }

  lemma {:induction false} SameHistory(s: State, s': State, p: Proc, o: Outcome)
    requires s'.history == s.history
    ensures MayEnd(s', p, o) == MayEnd(s, p, o)
  {
  }

  lemma {:induction false} CannotThrough(later: seq<State>, j: nat, pid: nat, o: Outcome, rewind: Mark)
    requires |later| >= 1 && StrictFrom(later[0], later) && j < |later| && !o.Superseded? && !o.Failed?
    requires Cannot(later[0], pid, o, rewind)
    ensures Cannot(later[j], pid, o, rewind)
  {
    if j > 0 {
      CannotThrough(later, j - 1, pid, o, rewind);
      assert StepAt(later, j - 1);
      var a :| Next(later[j - 1], a, later[j]);
      CannotStays(later[j - 1], a, later[j], pid, o, rewind);
    }
  }

  lemma {:induction false} StrictStep(s: State, pid: nat, p': Proc, marks': set<Mark>) returns (s': State)
    requires WellFormed(s.history) && pid in s.procs && Calls(s, pid, s.procs[pid], p', s.stored, marks')
    ensures s' == After(s, pid, p', s.stored, marks', s.clock + 1) && StepTo(s, s')
  {
    s' := After(s, pid, p', s.stored, marks', s.clock + 1);
    assert Next(s, Call(pid, p', s.stored, marks'), s');
  }

  lemma {:induction false} StrictPrepend(s: State, s': State, later: seq<State>)
    requires StepTo(s, s') && StrictFrom(s', later)
    ensures StrictFrom(s, [s] + later)
  {
    var all := [s] + later;
    forall i | 0 <= i < |all| - 1 ensures StepAt(all, i) {
      if i > 0 { assert StepAt(later, i - 1); }
    }
  }

  function CallsToEnd(p: Proc): nat {
    match p
    case ReadTarget(_, _, _) => 3
    case PlanLate(_) => 2
    case Write(_, _, _, _, _) => 2
    case Stopped(_) => 0
    case _ => 1
  }

  /** The next call on the way there. */
  lemma {:induction false} EndingCall(s: State, pid: nat, p: Proc, o: Outcome) returns (p': Proc, marks': set<Mark>)
    requires MayEnd(s, p, o)
    ensures Calls(s, pid, p, p', s.stored, marks') && (p' == Stopped(o) || MayEnd(s, p', o))
    ensures CallsToEnd(p') < CallsToEnd(p)
  {
    marks' := s.marks;
    match p
    case Provisional(_, _) => p' := Stopped(Done);
    case Write(v, from, to, rest, next) =>
      marks' := s.marks + {PendingMark(pid, p)};
      p' := if o.Paused? then Stopped(Paused) else Provisional(v.(movedAt := Some(next)), to);
    case ReadTarget(m, cps, current) => p' := PlanLate(Vars(m, cps, current, 0));
    case PlanLate(v) => p' := FindStart(v);
    case FindStart(v) => p' := Stopped(Waiting);
  }

  lemma {:induction false} CanEnd(s: State, pid: nat, o: Outcome) returns (later: seq<State>)
    requires WellFormed(s.history) && pid in s.procs && MayEnd(s, s.procs[pid], o)
    ensures StrictFrom(s, later) && EndedAs(LastOf(later), pid, o)
    decreases CallsToEnd(s.procs[pid])
  {
    hide Calls, MayEnd;
    var p', marks' := EndingCall(s, pid, s.procs[pid], o);
    var s' := StrictStep(s, pid, p', marks');
    var rest;
    if p' == Stopped(o) {
      rest := [s'];
    } else {
      SameHistory(s, s', p', o);
      rest := CanEnd(s', pid, o);
    }
    later := [s] + rest;
    StrictPrepend(s, s', rest);
  }

  /**
   * Exactly how an advance can end once a rewind lands while it is underway: superseded or failed; done, if it had only
   * its provisional rows left or was inserting its last row; paused, if it was inserting another row below its target;
   * waiting, if it had looked before the first mark and its frontier has no event.
   */
  lemma {:induction false} EndsExactly(run: seq<State>, i: nat, rewind: Mark, pid: nat, o: Outcome)
    requires Run(run) && i + 1 < |run| && Lands(run[i], run[i + 1], rewind)
    requires pid in run[i].procs && Underway(run[i].procs[pid]) && !run[i].procs[pid].Stopped?
    requires !o.Superseded? && !o.Failed?
    ensures (exists later | StrictFrom(run[i + 1], later) :: EndedAs(LastOf(later), pid, o))
       <==> MayEnd(run[i], run[i].procs[pid], o)
  {
    hide Run, Inv, Next, Lands, Underway, MayEnd, Cannot, EndedAs;
    var a := RunStep(run, i);
    var s, s' := run[i], run[i + 1];
    LandedStays(s, a, s', rewind, pid, o);
    if MayEnd(s, s.procs[pid], o) {
      var later := CanEnd(s', pid, o);
    } else {
      forall later | StrictFrom(s', later) ensures !EndedAs(LastOf(later), pid, o) {
        CannotEnd(s', later, pid, o, rewind);
      }
    }
  }

  /** As the rewind lands, the advance stays where it was, with what it can end as. */
  lemma {:induction false} LandedStays(s: State, a: Action, s': State, rewind: Mark, pid: nat, o: Outcome)
    requires Inv(s) && Next(s, a, s') && Lands(s, s', rewind)
    requires pid in s.procs && Underway(s.procs[pid]) && !s.procs[pid].Stopped?
    ensures WellFormed(s'.history) && pid in s'.procs
    ensures MayEnd(s', s'.procs[pid], o) == MayEnd(s, s.procs[pid], o)
    ensures !MayEnd(s, s.procs[pid], o) ==> Cannot(s', pid, o, rewind)
  {
    LandsIs(s, a, s', rewind);
    RewindLandsAhead(s, a, s', rewind, pid);
    NextKeepsInv(s, a, s');
    hide Inv, Lands, Underway, MayEnd;
    SameHistory(s, s', s.procs[pid], o);
  }

  lemma {:induction false} CannotEnd(s: State, later: seq<State>, pid: nat, o: Outcome, rewind: Mark)
    requires StrictFrom(s, later) && Cannot(s, pid, o, rewind) && !o.Superseded? && !o.Failed?
    ensures !EndedAs(LastOf(later), pid, o)
  {
    hide Inv, Behind, MayEnd;
    CannotThrough(later, |later| - 1, pid, o, rewind);
  }

  /* ---------------------------------------------------------------- a run to each */

  lemma {:induction false} Extended(run: seq<State>, a: Action, s': State)
    requires Run(run) && Next(LastOf(run), a, s')
    ensures Run(run + [s'])
  {
    var longer := run + [s'];
    forall i | 0 <= i < |longer| - 1 ensures StepAt(longer, i) {
      if i < |run| - 1 { assert StepAt(run, i); }
    }
  }

  const FIRST := HistoryRow(1, 1, 1, 2 * DAY_MS, 1, true, false)
  const COMMITTED: Frontier := map[1 := 1]
  const DAY := 2 * DAY_MS

  /** One event, committed; a client in its place among others. */
  function Scene(marks: set<Mark>, clock: int, others: map<nat, Proc>, pid: nat, p: Proc): State {
    State({FIRST}, COMMITTED, map[], marks, clock, others[pid := p])
  }

  ghost predicate Reaches(run: seq<State>, s: State) { Run(run) && LastOf(run) == s }

  /** One more call of the client, that stores nothing. */
  lemma {:induction false} Called(run: seq<State>, marks: set<Mark>, clock: int, others: map<nat, Proc>, pid: nat,
                                  p: Proc,
                                  p': Proc, marks': set<Mark>) returns (longer: seq<State>)
    requires Reaches(run, Scene(marks, clock, others, pid, p))
    requires Calls(Scene(marks, clock, others, pid, p), pid, p, p', map[], marks')
    ensures Reaches(longer, Scene(marks', clock + 1, others, pid, p'))
  {
    hide Calls;
    var s, s' := Scene(marks, clock, others, pid, p), Scene(marks', clock + 1, others, pid, p');
    assert s'.procs == s.procs[pid := p'];
    assert Next(s, Call(pid, p', map[], marks'), s');
    Extended(run, Call(pid, p', map[], marks'), s');
    longer := run + [s'];
  }

  /** Two calls that only read. */
  lemma {:induction false} CalledTwice(run: seq<State>, marks: set<Mark>, clock: int, others: map<nat, Proc>, pid: nat,
                                       p: Proc, p': Proc, p'': Proc) returns (longer: seq<State>)
    requires Reaches(run, Scene(marks, clock, others, pid, p))
    requires Calls(Scene(marks, clock, others, pid, p), pid, p, p', map[], marks)
    requires Calls(Scene(marks, clock + 1, others, pid, p'), pid, p', p'', map[], marks)
    ensures Reaches(longer, Scene(marks, clock + 2, others, pid, p''))
  {
    hide Calls, Scene;
    longer := Called(run, marks, clock, others, pid, p, p', marks);
    longer := Called(longer, marks, clock + 1, others, pid, p', p'', marks);
  }

  lemma {:induction false} Launched(run: seq<State>, marks: set<Mark>, clock: int, others: map<nat, Proc>, pid: nat,
                                    first: Proc) returns (longer: seq<State>)
    requires Reaches(run, State({FIRST}, COMMITTED, map[], marks, clock, others)) && pid !in others
    requires first.ReadMoves? || first.RewindRead?
    ensures Reaches(longer, Scene(marks, clock + 1, others, pid, first))
  {
    var s' := Scene(marks, clock + 1, others, pid, first);
    assert Next(LastOf(run), Launch(pid, first), s');
    Extended(run, Launch(pid, first), s');
    longer := run + [s'];
  }

  lemma {:induction false} EventCommitted() returns (run: seq<State>)
    ensures Reaches(run, State({FIRST}, COMMITTED, map[], {}, 2, map[]))
  {
    var s0, s1 := State({}, map[], map[], {}, 0, map[]), State({FIRST}, map[], map[], {}, 1, map[]);
    run := [s0];
    assert {} + {FIRST} == {FIRST};
    assert Next(s0, EnvioWrite(FIRST), s1);
    Extended(run, EnvioWrite(FIRST), s1);
    run := run + [s1];
    assert Leq(map[], COMMITTED);
    Extended(run, EnvioCommit(COMMITTED), State({FIRST}, COMMITTED, map[], {}, 2, map[]));
    run := run + [State({FIRST}, COMMITTED, map[], {}, 2, map[])];
  }

  const FIRST_VARS := Vars(None, COMMITTED, None, 0)

  /** The reads of the first advance. */
  lemma {:induction false} FirstReads() returns (run: seq<State>)
    ensures Reaches(run, Scene({}, 7, map[], 0, PlanLate(FIRST_VARS)))
  {
    hide PlanFor, RunPart, Grown;
    run := EventCommitted();
    run := Launched(run, {}, 2, map[], 0, ReadMoves);
    hide Reaches;
    run := CalledTwice(run, {}, 3, map[], 0, ReadMoves, ReadFrontier(None), ReadMark(None, COMMITTED));
    run := CalledTwice(run, {}, 5, map[], 0, ReadMark(None, COMMITTED), ReadTarget(None, COMMITTED, None),
                       PlanLate(FIRST_VARS));
  }

  lemma {:induction false} FirstStart() returns (run: seq<State>)
    ensures Reaches(run, Scene({}, 9, map[], 0, PlanMove(FIRST_VARS, DAY)))
  {
    hide PlanFor, RunPart, Grown, Reaches;
    run := FirstReads();
    assert FIRST in Visible({FIRST}, COMMITTED);
    assert IsFirstDay({FIRST}, COMMITTED, DAY);
    run := CalledTwice(run, {}, 7, map[], 0, PlanLate(FIRST_VARS), FindStart(FIRST_VARS), PlanMove(FIRST_VARS, DAY));
  }

  const MARK := Mark(Base(DAY, COMMITTED), 10, ByAdvance(0, None))

  /** With nowhere to move to yet, its mark is at the event's day. */
  lemma {:induction false} FirstMark() returns (run: seq<State>, p: Proc)
    ensures Reaches(run, Scene({MARK}, 12, map[], 0, p))
  {
    hide PlanFor, RunPart, Grown, Reaches;
    run := FirstStart();
    run := CalledTwice(run, {}, 9, map[], 0, PlanMove(FIRST_VARS, DAY), Check(FIRST_VARS, DAY, DAY, Last),
                       Write(FIRST_VARS, DAY, DAY, Last, 10));
    p := Provisional(FIRST_VARS.(movedAt := Some(10)), DAY);
    assert {} + {MARK} == {MARK};
    run := Called(run, {}, 11, map[], 0, Write(FIRST_VARS, DAY, DAY, Last, 10), p, {MARK});
  }

  /** A rewind about to write. */
  lemma {:induction false} RewindReady() returns (run: seq<State>, first: map<nat, Proc>)
    ensures first.Keys == {0} && Reaches(run, Scene({MARK}, 14, first, 2, RewindWrite(Base(0, COMMITTED))))
  {
    var p;
    run, p := FirstMark();
    first := map[0 := p];
    run := Launched(run, {MARK}, 12, first, 2, RewindRead(0));
    assert IsFinal({MARK}, MARK);
    run := Called(run, {MARK}, 13, first, 2, RewindRead(0), RewindWrite(Base(0, COMMITTED)), {MARK});
  }

  const SEEN := Vars(Some(10), COMMITTED, Some(Base(DAY, COMMITTED)), 0)

  /** And a second advance about to check. */
  lemma {:induction false} BothReady() returns (run: seq<State>, others: map<nat, Proc>)
    ensures others.Keys == {0, 2} && others[2] == RewindWrite(Base(0, COMMITTED))
    ensures Reaches(run, Scene({MARK}, 23, others, 1, Check(SEEN, DAY, DAY, Last)))
  {
    var first;
    run, first := RewindReady();
    others := first[2 := RewindWrite(Base(0, COMMITTED))];
    run := Launched(run, {MARK}, 14, others, 1, ReadMoves);
    assert IsLatestMove({MARK}, Some(10)) && IsFinal({MARK}, MARK);
    run := CalledTwice(run, {MARK}, 15, others, 1, ReadMoves, ReadFrontier(Some(10)), ReadMark(Some(10), COMMITTED));
    run := SecondReads(run, others);
    run := SecondPlans(run, others);
  }

  lemma {:induction false} SecondReads(before: seq<State>, others: map<nat, Proc>) returns (run: seq<State>)
    requires Reaches(before, Scene({MARK}, 17, others, 1, ReadMark(Some(10), COMMITTED)))
    ensures Reaches(run, Scene({MARK}, 19, others, 1, PlanLate(SEEN)))
  {
    hide PlanFor, RunPart, Grown;
    assert IsFinal({MARK}, MARK);
    run := CalledTwice(before, {MARK}, 17, others, 1, ReadMark(Some(10), COMMITTED),
                       ReadTarget(Some(10), COMMITTED, SEEN.current), PlanLate(SEEN));
  }

  lemma {:induction false} SecondPlans(before: seq<State>, others: map<nat, Proc>) returns (run: seq<State>)
    requires Reaches(before, Scene({MARK}, 19, others, 1, PlanLate(SEEN)))
    ensures Reaches(run, Scene({MARK}, 23, others, 1, Check(SEEN, DAY, DAY, Last)))
  {
    hide PlanFor, RunPart, Reaches;
    run := SecondRetry(before, others);
    run := CalledTwice(run, {MARK}, 21, others, 1, FindStart(SEEN), PlanMove(SEEN, DAY), Check(SEEN, DAY, DAY, Last));
  }

  lemma {:induction false} SecondRetry(before: seq<State>, others: map<nat, Proc>) returns (run: seq<State>)
    requires Reaches(before, Scene({MARK}, 19, others, 1, PlanLate(SEEN)))
    ensures Reaches(run, Scene({MARK}, 21, others, 1, FindStart(SEEN)))
  {
    hide PlanFor, RunPart, Reaches;
    run := CalledTwice(before, {MARK}, 19, others, 1, PlanLate(SEEN), Retry(SEEN), FindStart(SEEN));
  }

  const CHECKED := Write(SEEN, DAY, DAY, Last, 23)

  function Rewind(gap: nat): Mark { Mark(Base(0, COMMITTED), 23 + gap, ByRewind(2)) }

  /** The check, and the rewind's insert `gap` microseconds later. */
  lemma {:induction false} CheckThenRewind(others: map<nat, Proc>, gap: nat) returns (checked: State, landed: State)
    requires others.Keys == {0, 2} && others[2] == RewindWrite(Base(0, COMMITTED))
    ensures var s := Scene({MARK}, 23, others, 1, Check(SEEN, DAY, DAY, Last));
      LooseStepTo(s, checked) && (gap > 0 ==> StepTo(s, checked))
    ensures StepTo(checked, landed) && Lands(checked, landed, Rewind(gap))
    ensures 1 in checked.procs && checked.procs[1] == CHECKED
  {
    var s := Scene({MARK}, 23, others, 1, Check(SEEN, DAY, DAY, Last));
    assert IsLatestMove({MARK}, Some(10));
    checked := Scene({MARK}, 23 + gap, others, 1, CHECKED);
    var check := Call(1, CHECKED, map[], {MARK});
    assert checked.procs == s.procs[1 := CHECKED];
    assert Moves(s, check, checked);
    assert LooseNext(s, check, checked);
    assert gap > 0 ==> Next(s, check, checked);
    landed := StrictStep(checked, 2, Stopped(Done), {MARK} + {Rewind(gap)});
  }

  lemma {:induction false} TwoMore(run: seq<State>, checked: State, landed: State)
    requires Run(run) && StepTo(LastOf(run), checked) && StepTo(checked, landed)
    ensures Run(run + [checked, landed])
  {
    var longer := run + [checked, landed];
    forall i | 0 <= i < |longer| - 1 ensures StepAt(longer, i) {
      if i < |run| - 1 { assert StepAt(run, i); }
    }
  }

  lemma {:induction false} TwoMoreLoose(run: seq<State>, checked: State, landed: State)
    requires LooseRun(run) && LooseStepTo(LastOf(run), checked) && StepTo(checked, landed)
    ensures LooseRun(run + [checked, landed])
  {
    var longer := run + [checked, landed];
    var a :| Next(checked, a, landed);
    assert LooseNext(checked, a, landed);
    forall i | 0 <= i < |longer| - 1 ensures LooseStepAt(longer, i) {
      if i < |run| - 1 { assert LooseStepAt(run, i); }
    }
  }

  /** A run in which the check and the rewind's insert fall in one microsecond, and the rewind is lost. */
  lemma {:induction false} TieLosesRewind() returns (run: seq<State>, i: nat, rewind: Mark, later: seq<State>)
    ensures LooseRun(run) && i + 1 < |run| && Lands(run[i], run[i + 1], rewind)
    ensures LooseFrom(run[i + 1], later) && LostIn(run[i], LastOf(later))
  {
    var others;
    run, others := BothReady();
    var checked, landed := CheckThenRewind(others, 0);
    StrictIsLoose(run);
    TwoMoreLoose(run, checked, landed);
    i, rewind := |run|, Rewind(0);
    run := run + [checked, landed];
    assert Overtakes(checked.procs[1], 23);
    LostExactly(run, i, rewind);
    later :| LooseFrom(run[i + 1], later) && LostIn(run[i], LastOf(later));
  }

  /** A run of the moving clock in which an advance ends as done although a rewind landed before its insert. */
  lemma {:induction false} DoneAfterRewind() returns (run: seq<State>, i: nat, rewind: Mark, later: seq<State>)
    ensures Run(run) && i + 1 < |run| && Lands(run[i], run[i + 1], rewind)
    ensures 1 in run[i].procs && run[i].procs[1].Write?
    ensures StrictFrom(run[i + 1], later) && EndedAs(LastOf(later), 1, Done)
  {
    var others;
    run, others := BothReady();
    var checked, landed := CheckThenRewind(others, 1);
    TwoMore(run, checked, landed);
    i, rewind := |run|, Rewind(1);
    run := run + [checked, landed];
    EndsExactly(run, i, rewind, 1, Done);
    later :| StrictFrom(run[i + 1], later) && EndedAs(LastOf(later), 1, Done);
  }
}
