/**
 * The price watermark of one version (packages/clickhouse/src/deployments.ts): any number of advances and rewinds
 * interleaved, call by call, with Envio writing and committing rows. Each client call is one atomic step of the server,
 * whose clock is later at every step.
 */
module Watermark {
  import opened Options
  import opened Events
  import opened Ranges
  import opened Reprice

  const DAY_MS := 86_400_000

  /** The columns of a watermark row that are read back. */
  datatype Base = Base(watermark: int, checkpoints: Frontier)

  /** Who wrote a row; an advance also says which `moved_at` it compared with (`''` is None). */
  datatype Author = ByRewind(pid: nat) | ByAdvance(pid: nat, seen: Option<int>)

  datatype Mark = Mark(base: Base, movedAt: int, author: Author)

  /** What an advance has read: the latest `moved_at`, the frontier, the watermark row, the target. */
  datatype Vars = Vars(movedAt: Option<int>, cps: Frontier, current: Option<Base>, target: int)

  /** After a write: the next part of the watermark step, or nothing (the step had nothing to move). */
  datatype Rest = Last | Part(plan: seq<Planned>, i: nat)

  datatype Outcome = Done | Superseded | Paused | Waiting | Refused | Failed

  /** Where a client is. The first ten are `advanceVersion`'s calls in order, the next two `rewind`'s. */
  datatype Proc =
    | ReadMoves
    | ReadFrontier(movedAt: Option<int>)
    | ReadMark(movedAt: Option<int>, cps: Frontier)
    | ReadTarget(movedAt: Option<int>, cps: Frontier, current: Option<Base>)
    | PlanLate(v: Vars)
    | Late(v: Vars, plan: seq<Planned>, i: nat)
    | Retry(v: Vars)
    | FindStart(v: Vars)
    | PlanMove(v: Vars, start: int)
    | Store(v: Vars, plan: seq<Planned>, i: nat)
    | Check(v: Vars, from: int, to: int, rest: Rest)
    | Write(v: Vars, from: int, to: int, rest: Rest, next: int)
    | Provisional(v: Vars, reached: int)
    | RewindRead(time: int)
    | RewindWrite(base: Base)
    | Stopped(outcome: Outcome)

  datatype State = State(
    history: set<HistoryRow>, frontier: Frontier, stored: Stored, marks: set<Mark>, clock: int, procs: map<nat, Proc>)

  datatype Action =
    | EnvioWrite(row: HistoryRow)
    | EnvioDiscard(row: HistoryRow)
    | EnvioCommit(frontier: Frontier)
    | Reprice(stored: Stored)
    | Launch(pid: nat, first: Proc)
    | Call(pid: nat, after: Proc, stored: Stored, marks: set<Mark>)

  /* ---------------------------------------------------------------- the statements */

  /** `max(moved_at)`, `''` when there is no row. */
  ghost predicate IsLatestMove(marks: set<Mark>, m: Option<int>) {
    match m
    case None => marks == {}
    case Some(at) => (exists w :: w in marks && w.movedAt == at) && forall w | w in marks :: w.movedAt <= at
  }

  /** The row `FINAL` shows. */
  ghost predicate IsFinal(marks: set<Mark>, f: Mark) {
    f in marks && forall w | w in marks :: w.movedAt <= f.movedAt
  }

  /** `greatest(now, max(moved_at) + 1 microsecond)`. */
  function NextMove(clock: int, m: Option<int>): int {
    match m
    case None => clock
    case Some(at) => Max(clock, at + 1)
  }

  /** The day of the first committed event. */
  ghost predicate IsFirstDay(h: set<HistoryRow>, cps: Frontier, start: int) {
    exists r :: r in Visible(h, cps) && start == r.ts / DAY_MS * DAY_MS
                && forall o | o in Visible(h, cps) :: r.ts <= o.ts
  }

  /** A rewind only moves the watermark back; it keeps the recorded frontier. */
  function RewindFrom(b: Base, time: int): Proc {
    if time > b.watermark then Stopped(Refused) else RewindWrite(Base(time, b.checkpoints))
  }

  /** One call of a client: its next place, and what it leaves stored. */
  ghost predicate Calls(s: State, pid: nat, p: Proc, p': Proc, stored': Stored, marks': set<Mark>) {
    || (!p.Stopped? && p' == Stopped(Failed) && stored' == s.stored && marks' == s.marks)
    || match p
       case ReadMoves =>
         && p'.ReadFrontier? && IsLatestMove(s.marks, p'.movedAt)
         && stored' == s.stored && marks' == s.marks
       case ReadFrontier(m) =>
         p' == ReadMark(m, s.frontier) && stored' == s.stored && marks' == s.marks
       case ReadMark(m, cps) =>
         && p'.ReadTarget? && p'.movedAt == m && p'.cps == cps
         && (match p'.current
             case None => s.marks == {}
             case Some(b) => exists f :: IsFinal(s.marks, f) && f.base == b)
         && stored' == s.stored && marks' == s.marks
       case ReadTarget(m, cps, current) =>
         && p'.PlanLate? && p'.v == Vars(m, cps, current, p'.v.target)
         && stored' == s.stored && marks' == s.marks
       case PlanLate(v) =>
         && stored' == s.stored && marks' == s.marks
         && (match v.current
             case None => p' == FindStart(v)
             case Some(b) =>
               if b.checkpoints == v.cps then p' == Retry(v)
               else p'.Late? && p' == Late(v, p'.plan, 0)
                    && PlanFor(s.history, v.cps, 0, Some(b.watermark), Some(b.checkpoints), p'.plan))
       case Late(v, plan, i) =>
         && marks' == s.marks && v.current.Some?
         && (if i < |plan|
             then p' == Late(v, plan, i + 1)
                  && stored' == RunPart(s.history, v.cps, Some(v.current.value.checkpoints), plan[i], s.stored, s.clock)
             else p' == Retry(v) && stored' == s.stored)
       case Retry(v) =>
         // which rows are not final, or changed, depends on prices that are not modelled here
         p' == FindStart(v) && Grown(s.stored, stored', s.clock) && marks' == s.marks
       case FindStart(v) =>
         && stored' == s.stored && marks' == s.marks
         && (match v.current
             case Some(b) => p' == PlanMove(v, b.watermark)
             case None =>
               if Visible(s.history, v.cps) == {} then p' == Stopped(Waiting)
               else p'.PlanMove? && p'.v == v && IsFirstDay(s.history, v.cps, p'.start))
       case PlanMove(v, start) =>
         && stored' == s.stored && marks' == s.marks
         && (if start < v.target
             then p'.Store? && p' == Store(v, p'.plan, 0)
                  && PlanFor(s.history, v.cps, start, Some(v.target), None, p'.plan)
             else p' == Check(v, start, start, Last))
       case Store(v, plan, i) =>
         && marks' == s.marks && i < |plan| && plan[i].to.Some?
         && p' == Check(v, plan[i].from, plan[i].to.value, Part(plan, i))
         && stored' == RunPart(s.history, v.cps, None, plan[i], s.stored, s.clock)
       case Check(v, from, to, rest) =>
         && stored' == s.stored && marks' == s.marks
         && (if IsLatestMove(s.marks, v.movedAt) then p' == Write(v, from, to, rest, NextMove(s.clock, v.movedAt))
             else p' == Stopped(Superseded))
       case Write(v, from, to, rest, next) =>
         && stored' == s.stored
         && marks' == s.marks + {Mark(Base(to, v.cps), next, ByAdvance(pid, v.movedAt))}
         && (if rest.Part? && rest.i + 1 < |rest.plan|
             then p' == Store(v.(movedAt := Some(next)), rest.plan, rest.i + 1)
                  || (p' == Stopped(Paused) && to < v.target)
             else p' == Provisional(v.(movedAt := Some(next)), to))
       case Provisional(v, reached) =>
         p' == Stopped(Done) && Grown(s.stored, stored', s.clock) && marks' == s.marks
       case RewindRead(time) =>
         && stored' == s.stored && marks' == s.marks
         && (if s.marks == {} then p' == Stopped(Refused)
             else exists f :: IsFinal(s.marks, f) && p' == RewindFrom(f.base, time))
       case RewindWrite(base) =>
         && p' == Stopped(Done) && stored' == s.stored
         && marks' == s.marks + {Mark(base, s.clock, ByRewind(pid))}
       case Stopped(_) => false
  }

  /* ---------------------------------------------------------------- steps and runs */

  ghost predicate Init(s: State) {
    && WellFormed(s.history) && (forall r | r in s.history :: !Committed(s.frontier, r))
    && s.stored == map[] && s.marks == {} && s.procs == map[]
  }

  ghost predicate Next(s: State, a: Action, s': State) { s'.clock > s.clock && Moves(s, a, s') }

  /** A step, whatever the clock does. */
  ghost predicate Moves(s: State, a: Action, s': State) {
    WellFormed(s'.history) &&
    match a
    case EnvioWrite(row) =>
      // a batch in progress: above what is committed
      && !Committed(s.frontier, row)
      && s' == s.(history := s.history + {row}, clock := s'.clock)
    case EnvioDiscard(row) =>
      && !Committed(s.frontier, row)
      && s' == s.(history := s.history - {row}, clock := s'.clock)
    case EnvioCommit(frontier) =>
      Leq(s.frontier, frontier) && s' == s.(frontier := frontier, clock := s'.clock)
    case Reprice(stored) =>
      Grown(s.stored, stored, s.clock) && s' == s.(stored := stored, clock := s'.clock)
    case Launch(pid, first) =>
      && pid !in s.procs && (first.ReadMoves? || first.RewindRead?)
      && s' == s.(procs := s.procs[pid := first], clock := s'.clock)
    case Call(pid, after, stored, marks) =>
      && pid in s.procs && Calls(s, pid, s.procs[pid], after, stored, marks)
      && s' == s.(stored := stored, marks := marks, procs := s.procs[pid := after], clock := s'.clock)
  }

  ghost predicate Run(run: seq<State>) {
    && |run| >= 1 && Init(run[0])
    && forall i | 0 <= i < |run| - 1 :: StepAt(run, i)
  }

  ghost predicate StepAt(run: seq<State>, i: nat)
    requires i + 1 < |run|
  {
    StepTo(run[i], run[i + 1])
  }

  ghost predicate StepTo(s: State, s': State) { exists a :: Next(s, a, s') }

  /* ---------------------------------------------------------------- the invariant */

  /** Every row committed at `cps` before `t` is stored. */
  ghost predicate StoredBelow(s: State, cps: Frontier, t: int) {
    forall r | r in s.history && Committed(cps, r) && r.ts < t :: KeyOf(r) in s.stored
  }

  /** The same for the rows above another frontier only. */
  ghost predicate LateStored(s: State, cps: Frontier, above: Frontier, t: int) {
    forall r | r in s.history && Committed(cps, r) && !Committed(above, r) && r.ts < t :: KeyOf(r) in s.stored
  }

  /** Every row committed at `cps` in `[from, to)` was stored later than `since`. */
  ghost predicate StoredSince(s: State, cps: Frontier, from: int, to: int, since: int) {
    forall r | r in s.history && Committed(cps, r) && from <= r.ts < to ::
      KeyOf(r) in s.stored && s.stored[KeyOf(r)] > since
  }

  /** What a watermark row promises: each event committed at its checkpoints, older than it, has a stored row. */
  ghost predicate Sound(s: State, b: Base) {
    Leq(b.checkpoints, s.frontier) && StoredBelow(s, b.checkpoints, b.watermark)
  }

  /**
   * What an advance's row keeps of the row it replaced (the one whose `moved_at` it compared): it never moves the
   * watermark nor the recorded frontier back, and every event in between was stored again after that row was written.
   */
  ghost predicate BuildsOn(s: State, m: Mark, c: Mark) {
    && m.author.ByAdvance? && m.author.seen == Some(c.movedAt) && c.movedAt < m.movedAt
    && c.base.watermark <= m.base.watermark && Leq(c.base.checkpoints, m.base.checkpoints)
    && StoredSince(s, m.base.checkpoints, c.base.watermark, m.base.watermark, c.movedAt)
  }

  /** A rewind is either among what a writer saw, or written after it. */
  ghost predicate SawRewinds(s: State, seen: Option<int>, at: int) {
    forall w | w in s.marks && w.author.ByRewind? :: (seen.Some? && w.movedAt <= seen.value) || w.movedAt > at
  }

  ghost predicate MarkOk(s: State, m: Mark) {
    && Sound(s, m.base) && m.movedAt < s.clock
    && (m.author.ByAdvance? ==>
          && SawRewinds(s, m.author.seen, m.movedAt)
          && (m.author.seen.Some? ==> exists c :: c in s.marks && BuildsOn(s, m, c)))
  }

  /** The row whose `moved_at` was read is there, and its frontier is no newer than `f`. */
  ghost predicate Observed(s: State, m: Option<int>, f: Frontier) {
    m.Some? ==> m.value < s.clock && exists c :: c in s.marks && c.movedAt == m.value && Leq(c.base.checkpoints, f)
  }

  /** Some row with watermark `from` was there when `m` or a later one was the latest. */
  ghost predicate Basis(s: State, m: Option<int>, from: int) {
    m.Some? ==> exists b :: b in s.marks && m.value <= b.movedAt && b.base.watermark == from
  }

  ghost predicate VarsOk(s: State, v: Vars) {
    && Leq(v.cps, s.frontier) && Observed(s, v.movedAt, v.cps)
    && (match v.current
        case None => v.movedAt.None?
        case Some(b) => Sound(s, b) && Basis(s, v.movedAt, b.watermark))
  }

  /** In the watermark step: the row compared with ends where this part starts. */
  ghost predicate MoveOk(s: State, v: Vars, from: int) {
    && Leq(v.cps, s.frontier) && Observed(s, v.movedAt, v.cps) && Basis(s, v.movedAt, from)
    && StoredBelow(s, v.cps, from)
  }

  ghost predicate PlanOk(s: State, v: Vars, plan: seq<Planned>) {
    && |plan| > 0 && plan[0].from < v.target
    && Complete(s.history, v.cps, plan[0].from, Some(v.target), None, plan)
  }

  ghost predicate RestOk(s: State, v: Vars, to: int, rest: Rest) {
    match rest
    case Last => true
    case Part(plan, i) => PlanOk(s, v, plan) && i < |plan| && plan[i].to == Some(to)
  }

  ghost predicate ProcOk(s: State, p: Proc) {
    match p
    case ReadMoves => true
    case ReadFrontier(m) => Observed(s, m, s.frontier)
    case ReadMark(m, cps) => Leq(cps, s.frontier) && Observed(s, m, cps)
    case ReadTarget(m, cps, current) => VarsOk(s, Vars(m, cps, current, 0))
    case PlanLate(v) => VarsOk(s, v)
    case Late(v, plan, i) =>
      && VarsOk(s, v) && v.current.Some? && i <= |plan|
      && (v.current.value.watermark > 0 ==>
            Complete(s.history, v.cps, 0, Some(v.current.value.watermark), Some(v.current.value.checkpoints), plan))
      && LateStored(s, v.cps, v.current.value.checkpoints,
                    if i < |plan| then Min(plan[i].from, v.current.value.watermark) else v.current.value.watermark)
    case Retry(v) => VarsOk(s, v) && v.current.Some? && StoredBelow(s, v.cps, v.current.value.watermark)
    case FindStart(v) => VarsOk(s, v) && (v.current.Some? ==> StoredBelow(s, v.cps, v.current.value.watermark))
    case PlanMove(v, start) => MoveOk(s, v, start)
    case Store(v, plan, i) => PlanOk(s, v, plan) && i < |plan| && MoveOk(s, v, plan[i].from)
    case Check(v, from, to, rest) =>
      && MoveOk(s, v, from) && from <= to && RestOk(s, v, to, rest)
      && (v.movedAt.Some? ==> StoredSince(s, v.cps, from, to, v.movedAt.value))
      && StoredBelow(s, v.cps, to)
    case Write(v, from, to, rest, next) =>
      && Leq(v.cps, s.frontier) && from <= to && RestOk(s, v, to, rest)
      && StoredBelow(s, v.cps, to)
      && WriteOk(s, v, from, to, next)
    case Provisional(_, _) => true
    case RewindRead(_) => true
    case RewindWrite(b) => Sound(s, b)
    case Stopped(_) => true
  }

  /** A checked write not inserted yet: what its row will say. */
  ghost predicate WriteOk(s: State, v: Vars, from: int, to: int, next: int) {
    && next < s.clock && SawRewinds(s, v.movedAt, next)
    && (forall w | w in s.marks :: w.movedAt != next)
    && (v.movedAt.Some? ==> exists c :: c in s.marks && c.movedAt == v.movedAt.value && c.movedAt < next
                              && c.base.watermark == from && Leq(c.base.checkpoints, v.cps)
                              && StoredSince(s, v.cps, from, to, c.movedAt))
  }

  ghost predicate PendingApart(s: State) {
    forall p, q | p in s.procs && q in s.procs && p != q && s.procs[p].Write? && s.procs[q].Write? ::
      s.procs[p].next != s.procs[q].next
  }

  ghost predicate Inv(s: State) {
    && WellFormed(s.history)
    && (forall k | k in s.stored :: s.stored[k] < s.clock)
    && (forall m | m in s.marks :: MarkOk(s, m))
    && (forall m, n | m in s.marks && n in s.marks && m.movedAt == n.movedAt :: m == n)
    && (forall pid | pid in s.procs :: ProcOk(s, s.procs[pid]))
    && PendingApart(s)
  }

  /* ---------------------------------------------------------------- what no step undoes */

  /** What every step keeps: committed rows, stored keys, written marks. */
  ghost predicate Kept(s: State, s': State) {
    && WellFormed(s.history) && WellFormed(s'.history)
    && Leq(s.frontier, s'.frontier)
    && (forall r | Committed(s.frontier, r) :: r in s.history <==> r in s'.history)
    && s.stored.Keys <= s'.stored.Keys && s.marks <= s'.marks
  }

  /** And with a moving clock: what it stores, and a new rewind, is later than all there is. */
  ghost predicate Grew(s: State, s': State) {
    && Kept(s, s') && s.clock < s'.clock
    && Grown(s.stored, s'.stored, s.clock) && (forall k | k in s.stored :: s.stored[k] < s.clock)
    && (forall w | w in s'.marks && w !in s.marks && w.author.ByRewind? :: w.movedAt == s.clock)
  }

  lemma {:induction false} CommittedMono(f: Frontier, g: Frontier, r: HistoryRow)
    requires Leq(f, g) && Committed(f, r)
    ensures Committed(g, r)
  {
    assert At(f, r.chain) <= At(g, r.chain);
  }

  lemma {:induction false} StoredBelowKept(s: State, s': State, cps: Frontier, t: int)
    requires Kept(s, s') && Leq(cps, s.frontier) && StoredBelow(s, cps, t)
    ensures StoredBelow(s', cps, t)
  {
    forall r | r in s'.history && Committed(cps, r) && r.ts < t ensures KeyOf(r) in s'.stored {
      CommittedMono(cps, s.frontier, r);
      assert r in s.history;
    }
  }

  lemma {:induction false} LateKept(s: State, s': State, cps: Frontier, above: Frontier, t: int)
    requires Kept(s, s') && Leq(cps, s.frontier) && LateStored(s, cps, above, t)
    ensures LateStored(s', cps, above, t)
  {
    forall r | r in s'.history && Committed(cps, r) && !Committed(above, r) && r.ts < t ensures KeyOf(r) in s'.stored {
      CommittedMono(cps, s.frontier, r);
      assert r in s.history;
    }
  }

  lemma {:induction false} SinceKept(s: State, s': State, cps: Frontier, from: int, to: int, since: int)
    requires Grew(s, s') && Leq(cps, s.frontier) && StoredSince(s, cps, from, to, since)
    ensures StoredSince(s', cps, from, to, since)
  {
    forall r | r in s'.history && Committed(cps, r) && from <= r.ts < to
      ensures KeyOf(r) in s'.stored && s'.stored[KeyOf(r)] > since
    {
      CommittedMono(cps, s.frontier, r);
      assert r in s.history && s.stored[KeyOf(r)] < s.clock;
    }
  }

  lemma {:induction false} LeqTrans(f: Frontier, g: Frontier, h: Frontier)
    requires Leq(f, g) && Leq(g, h)
    ensures Leq(f, h)
  {
    forall c: Chain ensures At(f, c) <= At(h, c) {
      assert At(f, c) <= At(g, c) <= At(h, c);
    }
  }

  lemma {:induction false} SoundKept(s: State, s': State, b: Base)
    requires Kept(s, s') && Sound(s, b)
    ensures Sound(s', b)
  {
    StoredBelowKept(s, s', b.checkpoints, b.watermark);
    LeqTrans(b.checkpoints, s.frontier, s'.frontier);
  }

  lemma {:induction false} CompleteKept(s: State, s': State, cps: Frontier, lo: int, to: Option<int>,
                                        above: Option<Frontier>, plan: seq<Planned>)
    requires Kept(s, s') && Leq(cps, s.frontier) && Complete(s.history, cps, lo, to, above, plan)
    ensures Complete(s'.history, cps, lo, to, above, plan)
  {
    forall k, r | 0 <= k < |plan| && r in s'.history && Committed(cps, r) && Where(lo, to, above)(r)
      ensures plan[k].events > 0
    {
      CommittedMono(cps, s.frontier, r);
      assert r in s.history;
    }
  }

  lemma {:induction false} ObservedKept(s: State, s': State, m: Option<int>, f: Frontier, f': Frontier)
    requires Grew(s, s') && Observed(s, m, f) && Leq(f, f')
    ensures Observed(s', m, f')
  {
    if m.Some? {
      var c :| c in s.marks && c.movedAt == m.value && Leq(c.base.checkpoints, f);
      LeqTrans(c.base.checkpoints, f, f');
      assert c in s'.marks;
    }
  }

  lemma {:induction false} BasisKept(s: State, s': State, m: Option<int>, from: int)
    requires s.marks <= s'.marks && Basis(s, m, from)
    ensures Basis(s', m, from)
  {
    if m.Some? {
      var b :| b in s.marks && m.value <= b.movedAt && b.base.watermark == from;
      assert b in s'.marks;
    }
  }

  lemma {:induction false} LeqRefl(f: Frontier)
    ensures Leq(f, f)
  {}

  lemma {:induction false} VarsKept(s: State, s': State, v: Vars)
    requires Grew(s, s') && VarsOk(s, v)
    ensures VarsOk(s', v)
  {
    LeqRefl(v.cps);
    LeqTrans(v.cps, s.frontier, s'.frontier);
    ObservedKept(s, s', v.movedAt, v.cps, v.cps);
    if v.current.Some? {
      SoundKept(s, s', v.current.value);
      BasisKept(s, s', v.movedAt, v.current.value.watermark);
    }
  }

  lemma {:induction false} MoveKept(s: State, s': State, v: Vars, from: int)
    requires Grew(s, s') && MoveOk(s, v, from)
    ensures MoveOk(s', v, from)
  {
    LeqRefl(v.cps);
    LeqTrans(v.cps, s.frontier, s'.frontier);
    ObservedKept(s, s', v.movedAt, v.cps, v.cps);
    BasisKept(s, s', v.movedAt, from);
    StoredBelowKept(s, s', v.cps, from);
  }

  lemma {:induction false} PlanKept(s: State, s': State, v: Vars, plan: seq<Planned>)
    requires Kept(s, s') && Leq(v.cps, s.frontier) && PlanOk(s, v, plan)
    ensures PlanOk(s', v, plan)
  {
    CompleteKept(s, s', v.cps, plan[0].from, Some(v.target), None, plan);
  }

  lemma {:induction false} RestKept(s: State, s': State, v: Vars, to: int, rest: Rest)
    requires Kept(s, s') && Leq(v.cps, s.frontier) && RestOk(s, v, to, rest)
    ensures RestOk(s', v, to, rest)
  {
    if rest.Part? { PlanKept(s, s', v, rest.plan); }
  }

  lemma {:induction false} SawKept(s: State, s': State, seen: Option<int>, at: int)
    requires Grew(s, s') && at < s.clock && SawRewinds(s, seen, at)
    ensures SawRewinds(s', seen, at)
  {}

  lemma {:induction false} MarkKept(s: State, s': State, m: Mark)
    requires Grew(s, s') && m in s.marks && MarkOk(s, m)
    ensures MarkOk(s', m)
  {
    SoundKept(s, s', m.base);
    if m.author.ByAdvance? {
      SawKept(s, s', m.author.seen, m.movedAt);
      if m.author.seen.Some? {
        var c :| c in s.marks && BuildsOn(s, m, c);
        SinceKept(s, s', m.base.checkpoints, c.base.watermark, m.base.watermark, c.movedAt);
        assert BuildsOn(s', m, c);
      }
    }
  }

  lemma {:induction false} WriteKept(s: State, s': State, v: Vars, from: int, to: int, next: int)
    requires Grew(s, s') && Leq(v.cps, s.frontier) && WriteOk(s, v, from, to, next)
    requires forall w | w in s'.marks && w !in s.marks :: w.movedAt != next
    ensures WriteOk(s', v, from, to, next)
  {
    SawKept(s, s', v.movedAt, next);
    if v.movedAt.Some? {
      var c :| c in s.marks && c.movedAt == v.movedAt.value && c.movedAt < next
               && c.base.watermark == from && Leq(c.base.checkpoints, v.cps)
               && StoredSince(s, v.cps, from, to, c.movedAt);
      SinceKept(s, s', v.cps, from, to, c.movedAt);
      assert c in s'.marks;
    }
  }

  /** A client in place stays in place while others step. */
  lemma {:induction false} ProcKept(s: State, s': State, p: Proc)
    requires Grew(s, s') && ProcOk(s, p)
    requires p.Write? ==> forall w | w in s'.marks && w !in s.marks :: w.movedAt != p.next
    ensures ProcOk(s', p)
  {
    match p
    case ReadFrontier(m) => ObservedKept(s, s', m, s.frontier, s'.frontier);
    case ReadMark(m, cps) =>
      LeqRefl(cps); LeqTrans(cps, s.frontier, s'.frontier);
      ObservedKept(s, s', m, cps, cps);
    case ReadTarget(m, cps, current) => VarsKept(s, s', Vars(m, cps, current, 0));
    case PlanLate(v) => VarsKept(s, s', v);
    case Late(v, plan, i) => LateProcKept(s, s', p);
    case Retry(v) => VarsKept(s, s', v); StoredBelowKept(s, s', v.cps, v.current.value.watermark);
    case FindStart(v) =>
      VarsKept(s, s', v);
      if v.current.Some? { StoredBelowKept(s, s', v.cps, v.current.value.watermark); }
    case PlanMove(v, start) => MoveKept(s, s', v, start);
    case Store(v, plan, i) => MoveKept(s, s', v, plan[i].from); PlanKept(s, s', v, plan);
    case Check(v, from, to, rest) =>
      MoveKept(s, s', v, from); RestKept(s, s', v, to, rest);
      StoredBelowKept(s, s', v.cps, to);
      if v.movedAt.Some? { SinceKept(s, s', v.cps, from, to, v.movedAt.value); }
    case Write(v, from, to, rest, next) =>
      LeqTrans(v.cps, s.frontier, s'.frontier);
      RestKept(s, s', v, to, rest);
      StoredBelowKept(s, s', v.cps, to);
      WriteKept(s, s', v, from, to, next);
    case RewindWrite(b) => SoundKept(s, s', b);
    case _ =>
  }

  lemma {:induction false} LateProcKept(s: State, s': State, p: Proc)
    requires Grew(s, s') && p.Late? && ProcOk(s, p)
    ensures ProcOk(s', p)
  {
    var v, b := p.v, p.v.current.value;
    VarsKept(s, s', v);
    if b.watermark > 0 {
      CompleteKept(s, s', v.cps, 0, Some(b.watermark), Some(b.checkpoints), p.plan);
    }
    LateKept(s, s', v.cps, b.checkpoints,
             if p.i < |p.plan| then Min(p.plan[p.i].from, b.watermark) else b.watermark);
  }

  /* ---------------------------------------------------------------- each call keeps the invariant */

  /** The state after a call. */
  function After(s: State, pid: nat, p': Proc, stored': Stored, marks': set<Mark>, clock': int): State {
    s.(stored := stored', marks := marks', procs := s.procs[pid := p'], clock := clock')
  }

  /** The row a `moved_at` belongs to, once it is the latest and the basis is still there. */
  lemma {:induction false} ReplacedRow(s: State, v: Vars, from: int) returns (c: Mark)
    requires Inv(s) && v.movedAt.Some? && IsLatestMove(s.marks, v.movedAt)
    requires Observed(s, v.movedAt, v.cps) && Basis(s, v.movedAt, from)
    ensures c in s.marks && c.movedAt == v.movedAt.value && c.base.watermark == from
    ensures Leq(c.base.checkpoints, v.cps)
  {
    c :| c in s.marks && c.movedAt == v.movedAt.value && Leq(c.base.checkpoints, v.cps);
    var b :| b in s.marks && v.movedAt.value <= b.movedAt && b.base.watermark == from;
    assert b.movedAt == c.movedAt;
  }

  /** The calls that only read: the client's new place holds before the clock moves. */
  lemma {:induction false} ReadingCall(s: State, pid: nat, p: Proc, p': Proc)
    requires Inv(s) && ProcOk(s, p) && Calls(s, pid, p, p', s.stored, s.marks)
    requires p.ReadMoves? || p.ReadFrontier? || p.ReadMark? || p.ReadTarget? || p.RewindRead?
    ensures ProcOk(s, p') && !p'.Write?
  {
    if p' == Stopped(Failed) {
      return;
    }
    hide PlanFor, RunPart, Grown, IsFirstDay, StoredBelow, LateStored, StoredSince, SawRewinds, BuildsOn, PlanOk,
         MoveOk, WriteOk;
    match p
    case ReadMoves =>
      var m := p'.movedAt;
      if m.Some? {
        var w :| w in s.marks && w.movedAt == m.value;
        assert MarkOk(s, w);
      }
    case ReadFrontier(m) => LeqRefl(s.frontier);
    case ReadMark(m, cps) =>
      if p'.current.Some? {
        var f :| IsFinal(s.marks, f) && f.base == p'.current.value;
        assert MarkOk(s, f);
      }
    case ReadTarget(m, cps, current) =>
    case RewindRead(time) =>
      if s.marks != {} {
        var f :| IsFinal(s.marks, f) && p' == RewindFrom(f.base, time);
        assert MarkOk(s, f);
      }
  }

  lemma {:induction false} PlanLateCall(s: State, pid: nat, p: Proc, p': Proc)
    requires Inv(s) && p.PlanLate? && ProcOk(s, p) && Calls(s, pid, p, p', s.stored, s.marks)
    ensures ProcOk(s, p') && !p'.Write?
  {
    var v := p.v;
    if p' != Stopped(Failed) && v.current.Some? && v.current.value.checkpoints != v.cps {
      var b := v.current.value;
      PlansAreComplete(s.history, v.cps, 0, Some(b.watermark), Some(b.checkpoints), p'.plan);
    }
  }

  lemma {:induction false} FindStartCall(s: State, pid: nat, p: Proc, p': Proc)
    requires Inv(s) && p.FindStart? && ProcOk(s, p) && Calls(s, pid, p, p', s.stored, s.marks)
    ensures ProcOk(s, p') && !p'.Write?
  {
    var v := p.v;
    if p'.PlanMove? && v.current.None? {
      var first :| first in Visible(s.history, v.cps) && p'.start == first.ts / DAY_MS * DAY_MS
                   && forall o | o in Visible(s.history, v.cps) :: first.ts <= o.ts;
      assert forall r | r in s.history && Committed(v.cps, r) :: r in Visible(s.history, v.cps);
      assert StoredBelow(s, v.cps, p'.start);
    }
  }

  lemma {:induction false} PlanMoveCall(s: State, pid: nat, p: Proc, p': Proc)
    requires Inv(s) && p.PlanMove? && ProcOk(s, p) && Calls(s, pid, p, p', s.stored, s.marks)
    ensures ProcOk(s, p') && !p'.Write?
  {
    if p'.Store? {
      PlansAreComplete(s.history, p.v.cps, p.start, Some(p.v.target), None, p'.plan);
    }
  }

  lemma {:induction false} LateCall(s: State, pid: nat, p: Proc, p': Proc, stored': Stored, clock': int)
    requires Inv(s) && p.Late? && ProcOk(s, p) && Calls(s, pid, p, p', stored', s.marks) && s.clock < clock'
    requires p' != Stopped(Failed)
    ensures Grown(s.stored, stored', s.clock)
    ensures ProcOk(After(s, pid, p', stored', s.marks, clock'), p')
  {
    var s' := After(s, pid, p', stored', s.marks, clock');
    var v, plan, i, b := p.v, p.plan, p.i, p.v.current.value;
    var above := Some(b.checkpoints);
    if i < |plan| {
      PartGrows(s.history, v.cps, above, plan[i], s.stored, s.clock);
    }
    LeqReflAll();
    assert Grew(s, s');
    LateProcKept(s, s', p);
    if i < |plan| {
      var t := if i + 1 < |plan| then Min(plan[i + 1].from, b.watermark) else b.watermark;
      forall r | r in s'.history && Committed(v.cps, r) && !Committed(b.checkpoints, r) && r.ts < t
        ensures KeyOf(r) in s'.stored
      {
        LatePartStored(s, v.cps, b, plan, i, stored', r);
      }
    } else {
      LateDone(s', v);
    }
  }

  lemma {:induction false} LeqReflAll()
    ensures forall f: Frontier :: Leq(f, f)
  {
    forall f: Frontier ensures Leq(f, f) { LeqRefl(f); }
  }

  /** A late row is below the parts already run, or in this one. */
  lemma {:induction false} LatePartStored(s: State, cps: Frontier, b: Base, plan: seq<Planned>, i: nat, stored': Stored,
                                          r: HistoryRow)
    requires WellFormed(s.history) && i < |plan|
    requires b.watermark > 0 ==> Complete(s.history, cps, 0, Some(b.watermark), Some(b.checkpoints), plan)
    requires LateStored(s, cps, b.checkpoints, Min(plan[i].from, b.watermark))
    requires stored' == RunPart(s.history, cps, Some(b.checkpoints), plan[i], s.stored, s.clock)
    requires r in s.history && Committed(cps, r) && !Committed(b.checkpoints, r)
    requires r.ts < if i + 1 < |plan| then Min(plan[i + 1].from, b.watermark) else b.watermark
    ensures KeyOf(r) in stored'
  {
    PlanBounds(0, Some(b.watermark), plan, i);
    if r.ts >= plan[i].from {
      PartStores(s.history, cps, 0, Some(b.watermark), Some(b.checkpoints), plan, i, s.stored, s.clock, r);
    }
  }

  /** Late rows stored, and the old row's promise: everything below the old watermark is stored at the new frontier. */
  lemma {:induction false} LateDone(s: State, v: Vars)
    requires VarsOk(s, v) && v.current.Some?
    requires LateStored(s, v.cps, v.current.value.checkpoints, v.current.value.watermark)
    ensures StoredBelow(s, v.cps, v.current.value.watermark)
  {}

  lemma {:induction false} StoreCall(s: State, pid: nat, p: Proc, p': Proc, stored': Stored, clock': int)
    requires Inv(s) && p.Store? && ProcOk(s, p) && Calls(s, pid, p, p', stored', s.marks) && s.clock < clock'
    requires p' != Stopped(Failed)
    ensures Grown(s.stored, stored', s.clock)
    ensures ProcOk(After(s, pid, p', stored', s.marks, clock'), p')
  {
    var s' := After(s, pid, p', stored', s.marks, clock');
    var v, plan, i := p.v, p.plan, p.i;
    PartGrows(s.history, v.cps, None, plan[i], s.stored, s.clock);
    LeqReflAll();
    assert Grew(s, s');
    MoveKept(s, s', v, plan[i].from);
    PlanKept(s, s', v, plan);
    PlanBounds(plan[0].from, Some(v.target), plan, i);
    forall r | r in s'.history && Committed(v.cps, r) && plan[i].from <= r.ts < plan[i].to.value
      ensures KeyOf(r) in stored' && stored'[KeyOf(r)] == s.clock
    {
      PartStores(s.history, v.cps, plan[0].from, Some(v.target), None, plan, i, s.stored, s.clock, r);
    }
  }

  lemma {:induction false} CheckCall(s: State, pid: nat, p: Proc, p': Proc, clock': int)
    requires Inv(s) && p.Check? && ProcOk(s, p) && Calls(s, pid, p, p', s.stored, s.marks) && s.clock < clock'
    requires p'.Write?
    ensures ProcOk(After(s, pid, p', s.stored, s.marks, clock'), p') && p'.next == s.clock
  {
    var s' := After(s, pid, p', s.stored, s.marks, clock');
    var v := p.v;
    assert p'.next == s.clock;
    LeqReflAll();
    assert Grew(s, s');
    forall w | w in s.marks ensures w.movedAt != s.clock && v.movedAt.Some? && w.movedAt <= v.movedAt.value {
      assert MarkOk(s, w);
    }
    RestKept(s, s', v, p.to, p.rest);
    StoredBelowKept(s, s', v.cps, p.to);
    if v.movedAt.Some? {
      var c := ReplacedRow(s, v, p.from);
      SinceKept(s, s', v.cps, p.from, p.to, v.movedAt.value);
    }
  }

  /** The insert of a checked write: its row is sound and builds on the row it replaces. */
  lemma {:induction false} WriteCall(s: State, pid: nat, p: Proc, p': Proc, marks': set<Mark>, clock': int)
    requires Inv(s) && p.Write? && ProcOk(s, p) && Calls(s, pid, p, p', s.stored, marks') && s.clock < clock'
    requires p' != Stopped(Failed)
    ensures var m := Mark(Base(p.to, p.v.cps), p.next, ByAdvance(pid, p.v.movedAt));
      var s' := After(s, pid, p', s.stored, marks', clock');
      && marks' == s.marks + {m} && MarkOk(s', m) && ProcOk(s', p') && !p'.Write?
  {
    var s' := After(s, pid, p', s.stored, marks', clock');
    var v, m := p.v, Mark(Base(p.to, p.v.cps), p.next, ByAdvance(pid, p.v.movedAt));
    LeqReflAll();
    assert Grew(s, s');
    StoredBelowKept(s, s', v.cps, p.to);
    RestKept(s, s', v, p.to, p.rest);
    SawKept(s, s', v.movedAt, p.next);
    if v.movedAt.Some? {
      var c :| c in s.marks && c.movedAt == v.movedAt.value && c.movedAt < p.next
               && c.base.watermark == p.from && Leq(c.base.checkpoints, v.cps)
               && StoredSince(s, v.cps, p.from, p.to, c.movedAt);
      SinceKept(s, s', v.cps, p.from, p.to, c.movedAt);
      assert BuildsOn(s', m, c);
    }
    if p'.Store? {
      assert p'.plan[p'.i].from == p.to;
    }
  }

  lemma {:induction false} RewindCall(s: State, pid: nat, p: Proc, marks': set<Mark>, clock': int)
    requires Inv(s) && p.RewindWrite? && ProcOk(s, p) && s.clock < clock'
    requires Calls(s, pid, p, Stopped(Done), s.stored, marks')
    ensures var m := Mark(p.base, s.clock, ByRewind(pid));
      marks' == s.marks + {m} && MarkOk(After(s, pid, Stopped(Done), s.stored, marks', clock'), m)
  {
    var s' := After(s, pid, Stopped(Done), s.stored, marks', clock');
    LeqReflAll();
    assert Grew(s, s');
    SoundKept(s, s', p.base);
  }

  /* ---------------------------------------------------------------- every step keeps the invariant */

  /** The calls that store nothing and write no row. */
  predicate Quiet(p: Proc) {
    p.ReadMoves? || p.ReadFrontier? || p.ReadMark? || p.ReadTarget? || p.RewindRead? || p.PlanLate? || p.FindStart?
    || p.PlanMove?
  }

  lemma {:induction false} QuietCall(s: State, pid: nat, p: Proc, p': Proc, stored': Stored, marks': set<Mark>)
    requires Inv(s) && Quiet(p) && ProcOk(s, p) && Calls(s, pid, p, p', stored', marks')
    ensures stored' == s.stored && marks' == s.marks && ProcOk(s, p') && !p'.Write?
  {
    if p.PlanLate? { PlanLateCall(s, pid, p, p'); }
    else if p.FindStart? { FindStartCall(s, pid, p, p'); }
    else if p.PlanMove? { PlanMoveCall(s, pid, p, p'); }
    else { ReadingCall(s, pid, p, p'); }
  }

  lemma {:induction false} SameGrew(s: State, s': State)
    requires Inv(s) && s.history == s'.history && s.frontier == s'.frontier && s.clock < s'.clock
    requires Grown(s.stored, s'.stored, s.clock) && s'.marks == s.marks
    ensures Grew(s, s')
  {
    LeqRefl(s.frontier);
  }

  /** A new row's `moved_at`: the checked one of its writer, or the clock for a rewind. */
  ghost predicate NewMove(s: State, pid: nat, m: Mark)
    requires pid in s.procs
  {
    match s.procs[pid]
    case Write(_, _, _, _, next) => m.movedAt == next && m.author.ByAdvance?
    case RewindWrite(_) => m.movedAt == s.clock && m.author.ByRewind?
    case _ => false
  }

  /** A call: the state grows, the new row if any is sound, and the client's new place holds. */
  lemma {:induction false} CallStep(s: State, pid: nat, p': Proc, stored': Stored, marks': set<Mark>, clock': int)
    requires Inv(s) && pid in s.procs && s.clock < clock'
    requires Calls(s, pid, s.procs[pid], p', stored', marks')
    ensures var s' := After(s, pid, p', stored', marks', clock');
      && Grew(s, s') && ProcOk(s', p')
      && (forall m | m in marks' && m !in s.marks :: MarkOk(s', m) && NewMove(s, pid, m))
      && (p'.Write? ==> p'.next == s.clock && s.procs[pid].Check?)
  {
    var p := s.procs[pid];
    assert ProcOk(s, p);
    hide Inv, ProcOk, Calls, Grew, MarkOk, NewMove;
    if p.Write? && p' != Stopped(Failed) {
      WriteStep(s, pid, p', stored', marks', clock');
    } else if p.RewindWrite? && p' != Stopped(Failed) {
      RewindStep(s, pid, p', stored', marks', clock');
    } else {
      StoringStep(s, pid, p, p', stored', marks', clock');
    }
  }

  /** The insert of a checked write. */
  lemma {:induction false} WriteStep(s: State, pid: nat, p': Proc, stored': Stored, marks': set<Mark>, clock': int)
    requires Inv(s) && pid in s.procs && s.clock < clock' && ProcOk(s, s.procs[pid])
    requires Calls(s, pid, s.procs[pid], p', stored', marks') && s.procs[pid].Write? && p' != Stopped(Failed)
    ensures var s' := After(s, pid, p', stored', marks', clock');
      && Grew(s, s') && ProcOk(s', p') && !p'.Write?
      && (forall m | m in marks' && m !in s.marks :: MarkOk(s', m) && NewMove(s, pid, m))
  {
    hide ProcOk, MarkOk;
    WriteCall(s, pid, s.procs[pid], p', marks', clock');
    LeqRefl(s.frontier);
  }

  /** The insert of a rewind. */
  lemma {:induction false} RewindStep(s: State, pid: nat, p': Proc, stored': Stored, marks': set<Mark>, clock': int)
    requires Inv(s) && pid in s.procs && s.clock < clock' && ProcOk(s, s.procs[pid])
    requires Calls(s, pid, s.procs[pid], p', stored', marks') && s.procs[pid].RewindWrite? && p' != Stopped(Failed)
    ensures var s' := After(s, pid, p', stored', marks', clock');
      && Grew(s, s') && ProcOk(s', p') && !p'.Write?
      && (forall m | m in marks' && m !in s.marks :: MarkOk(s', m) && NewMove(s, pid, m))
  {
    hide MarkOk;
    RewindCall(s, pid, s.procs[pid], marks', clock');
    LeqRefl(s.frontier);
  }

  /** A call that writes no row: the state grows, and the client's new place holds. */
  ghost predicate Fits(s: State, pid: nat, p: Proc, p': Proc, stored': Stored, marks': set<Mark>, clock': int) {
    var s' := After(s, pid, p', stored', marks', clock');
    && Grew(s, s') && ProcOk(s', p') && marks' == s.marks
    && (p'.Write? ==> p'.next == s.clock && p.Check?)
  }

  /** The calls that write no row. */
  lemma {:induction false} StoringStep(s: State, pid: nat, p: Proc, p': Proc, stored': Stored, marks': set<Mark>,
                                       clock': int)
    requires Inv(s) && ProcOk(s, p) && s.clock < clock' && Calls(s, pid, p, p', stored', marks')
    requires p' == Stopped(Failed) || !(p.Write? || p.RewindWrite?)
    ensures Fits(s, pid, p, p', stored', marks', clock')
  {
    hide Inv, ProcOk, Calls, Fits;
    if p' == Stopped(Failed) {
      FailedStep(s, pid, p, stored', marks', clock');
    } else if Quiet(p) {
      QuietStep(s, pid, p, p', stored', marks', clock');
    } else if p.Retry? || p.Provisional? {
      PricingStep(s, pid, p, p', stored', marks', clock');
    } else if p.Late? || p.Store? {
      PartStep(s, pid, p, p', stored', marks', clock');
    } else {
      CheckStep(s, pid, p, p', stored', marks', clock');
    }
  }

  lemma {:induction false} FailedStep(s: State, pid: nat, p: Proc, stored': Stored, marks': set<Mark>, clock': int)
    requires Inv(s) && s.clock < clock' && Calls(s, pid, p, Stopped(Failed), stored', marks')
    ensures Fits(s, pid, p, Stopped(Failed), stored', marks', clock')
  {
    SameGrew(s, After(s, pid, Stopped(Failed), stored', marks', clock'));
  }

  lemma {:induction false} QuietStep(s: State, pid: nat, p: Proc, p': Proc, stored': Stored, marks': set<Mark>,
                                     clock': int)
    requires Inv(s) && ProcOk(s, p) && s.clock < clock' && Calls(s, pid, p, p', stored', marks') && Quiet(p)
    ensures Fits(s, pid, p, p', stored', marks', clock')
  {
    hide ProcOk, Calls;
    var s' := After(s, pid, p', stored', marks', clock');
    QuietCall(s, pid, p, p', stored', marks');
    SameGrew(s, s');
    ProcKept(s, s', p');
  }

  lemma {:induction false} PricingStep(s: State, pid: nat, p: Proc, p': Proc, stored': Stored, marks': set<Mark>,
                                       clock': int)
    requires Inv(s) && ProcOk(s, p) && s.clock < clock' && Calls(s, pid, p, p', stored', marks')
    requires p.Retry? || p.Provisional?
    ensures Fits(s, pid, p, p', stored', marks', clock')
  {
    var s' := After(s, pid, p', stored', marks', clock');
    SameGrew(s, s');
    ProcKept(s, s', p');
  }

  lemma {:induction false} PartStep(s: State, pid: nat, p: Proc, p': Proc, stored': Stored, marks': set<Mark>,
                                    clock': int)
    requires Inv(s) && ProcOk(s, p) && s.clock < clock' && Calls(s, pid, p, p', stored', marks')
    requires p' != Stopped(Failed) && (p.Late? || p.Store?)
    ensures Fits(s, pid, p, p', stored', marks', clock')
  {
    hide ProcOk, PlanFor, RunPart;
    if p.Late? {
      LateCall(s, pid, p, p', stored', clock');
    } else {
      StoreCall(s, pid, p, p', stored', clock');
    }
    SameGrew(s, After(s, pid, p', stored', marks', clock'));
  }

  lemma {:induction false} CheckStep(s: State, pid: nat, p: Proc, p': Proc, stored': Stored, marks': set<Mark>,
                                     clock': int)
    requires Inv(s) && ProcOk(s, p) && s.clock < clock' && Calls(s, pid, p, p', stored', marks')
    requires p' != Stopped(Failed) && (p.Check? || p.Stopped?)
    ensures Fits(s, pid, p, p', stored', marks', clock')
  {
    SameGrew(s, After(s, pid, p', stored', marks', clock'));
    if p'.Write? { CheckCall(s, pid, p, p', clock'); }
  }

  lemma {:induction false} CallKeepsInv(s: State, pid: nat, p': Proc, stored': Stored, marks': set<Mark>, clock': int)
    requires Inv(s) && pid in s.procs && s.clock < clock'
    requires Calls(s, pid, s.procs[pid], p', stored', marks')
    ensures Inv(After(s, pid, p', stored', marks', clock'))
  {
    hide Calls, ProcOk, MarkOk, NewMove;
    var s' := After(s, pid, p', stored', marks', clock');
    CallStep(s, pid, p', stored', marks', clock');
    forall m | m in s'.marks ensures MarkOk(s', m) {
      if m in s.marks { MarkKept(s, s', m); }
    }
    forall m, n | m in s'.marks && n in s'.marks && m.movedAt == n.movedAt ensures m == n {
      NewMovesApart(s, pid, p', stored', marks', m, n);
    }
    forall q | q in s'.procs ensures ProcOk(s', s'.procs[q]) {
      if q != pid { OtherKept(s, s', pid, q); }
    }
    WritesApart(s, s', pid);
  }

  /** Another client stays in place, even with a checked write while a row is inserted. */
  lemma {:induction false} OtherKept(s: State, s': State, pid: nat, q: nat)
    requires Inv(s) && Grew(s, s') && pid in s.procs && q in s.procs && q != pid
    requires forall m | m in s'.marks && m !in s.marks :: NewMove(s, pid, m)
    ensures ProcOk(s', s.procs[q])
  {
    hide Grew;
    assert ProcOk(s, s.procs[q]);
    hide ProcOk;
    if s.procs[q].Write? && s.procs[pid].Write? {
      assert s.procs[q].next != s.procs[pid].next;
    }
    if s.procs[q].Write? { WriteBeforeClock(s, q); }
    ProcKept(s, s', s.procs[q]);
  }

  lemma {:induction false} WriteBeforeClock(s: State, q: nat)
    requires Inv(s) && q in s.procs && s.procs[q].Write?
    ensures s.procs[q].next < s.clock
  {
    assert ProcOk(s, s.procs[q]);
  }

  lemma {:induction false} WritesApart(s: State, s': State, pid: nat)
    requires Inv(s) && pid in s.procs && s'.procs.Keys == s.procs.Keys
    requires forall q | q in s.procs && q != pid :: s'.procs[q] == s.procs[q]
    requires s'.procs[pid].Write? ==> s'.procs[pid].next == s.clock
    ensures PendingApart(s')
  {
    forall q | q in s.procs && s.procs[q].Write? ensures s.procs[q].next < s.clock { WriteBeforeClock(s, q); }
  }

  lemma {:induction false} NewMovesApart(s: State, pid: nat, p': Proc, stored': Stored, marks': set<Mark>, m: Mark,
                                         n: Mark)
    requires Inv(s) && pid in s.procs && Calls(s, pid, s.procs[pid], p', stored', marks')
    requires m in marks' && n in marks' && m.movedAt == n.movedAt
    ensures m == n
  {
    assert ProcOk(s, s.procs[pid]);
    forall w | w in s.marks ensures w.movedAt < s.clock { assert MarkOk(s, w); }
  }

  lemma {:induction false} EnvKeepsInv(s: State, s': State)
    requires Inv(s) && Grew(s, s') && s'.marks == s.marks
    requires forall pid | pid in s'.procs :: (pid in s.procs && s'.procs[pid] == s.procs[pid])
                                          || s'.procs[pid].ReadMoves? || s'.procs[pid].RewindRead?
    ensures Inv(s')
  {
    forall m | m in s'.marks ensures MarkOk(s', m) { MarkKept(s, s', m); }
    forall pid | pid in s'.procs ensures ProcOk(s', s'.procs[pid]) {
      if pid in s.procs && s'.procs[pid] == s.procs[pid] { ProcKept(s, s', s.procs[pid]); }
    }
  }

  lemma {:induction false} InitInv(s: State)
    requires Init(s)
    ensures Inv(s)
  {}

  lemma {:induction false} NextKeepsInv(s: State, a: Action, s': State)
    requires Inv(s) && Next(s, a, s')
    ensures Inv(s') && Grew(s, s')
  {
    LeqReflAll();
    match a
    case EnvioWrite(row) => EnvKeepsInv(s, s');
    case EnvioDiscard(row) => EnvKeepsInv(s, s');
    case EnvioCommit(frontier) => EnvKeepsInv(s, s');
    case Reprice(stored) => EnvKeepsInv(s, s');
    case Launch(pid, first) => EnvKeepsInv(s, s');
    case Call(pid, after, stored, marks) =>
      CallKeepsInv(s, pid, after, stored, marks, s'.clock);
      CallStep(s, pid, after, stored, marks, s'.clock);
      assert s' == After(s, pid, after, stored, marks, s'.clock);
  }

  lemma {:induction false} RunInv(run: seq<State>, i: nat)
    requires Run(run) && i < |run|
    ensures Inv(run[i])
  {
    if i == 0 {
      InitInv(run[0]);
    } else {
      RunInv(run, i - 1);
      assert StepAt(run, i - 1);
      var a :| Next(run[i - 1], a, run[i]);
      NextKeepsInv(run[i - 1], a, run[i]);
    }
  }

  lemma {:induction false} RunStep(run: seq<State>, i: nat) returns (a: Action)
    requires Run(run) && i + 1 < |run|
    ensures Inv(run[i]) && Next(run[i], a, run[i + 1])
  {
    RunInv(run, i);
    assert StepAt(run, i);
    a :| Next(run[i], a, run[i + 1]);
  }

  /* ---------------------------------------------------------------- the theorems */

  /**
   * A rewind is never lost to a running advance: the row `FINAL` shows is at least as late as every rewind, and when an
   * advance wrote it, the row that advance compared with is at least as late as every rewind too.
   */
  lemma {:induction false} RewindNeverLost(run: seq<State>, i: nat, rewind: Mark, final: Mark)
    requires Run(run) && i < |run|
    requires rewind in run[i].marks && rewind.author.ByRewind? && IsFinal(run[i].marks, final)
    ensures final == rewind
         || (final.author.ByRewind? && rewind.movedAt < final.movedAt)
         || (final.author.ByAdvance? && final.author.seen.Some?
             && rewind.movedAt <= final.author.seen.value < final.movedAt)
  {
    RunInv(run, i);
    assert MarkOk(run[i], final);
    if final.author.ByAdvance? {
      assert rewind.movedAt <= final.movedAt;
      var c :| c in run[i].marks && BuildsOn(run[i], final, c);
    }
  }

  /**
   * What an advance's row replaces: the row it compared with, which is there; it moves neither the watermark nor the
   * frontier back, and it stored again, after that row, every event in between. So after a rewind the watermark only
   * comes back over events priced again since.
   */
  lemma {:induction false} AdvanceBuildsOnSeen(run: seq<State>, i: nat, m: Mark) returns (c: Mark)
    requires Run(run) && i < |run| && m in run[i].marks && m.author.ByAdvance? && m.author.seen.Some?
    ensures c in run[i].marks && BuildsOn(run[i], m, c)
    ensures forall w | w in run[i].marks && w.movedAt == m.author.seen.value :: w == c
  {
    RunInv(run, i);
    assert MarkOk(run[i], m);
    c :| c in run[i].marks && BuildsOn(run[i], m, c);
  }

  /* ---------------------------------------------------------------- a rewind stops the advances it passes */

  /** An advance that compares with a row older than `at`; with a checked write, that write is older too. */
  ghost predicate Behind(p: Proc, at: int) {
    match p
    case ReadMoves => false
    case ReadFrontier(m) => Before(m, at)
    case ReadMark(m, _) => Before(m, at)
    case ReadTarget(m, _, _) => Before(m, at)
    case PlanLate(v) => Before(v.movedAt, at)
    case Late(v, _, _) => Before(v.movedAt, at)
    case Retry(v) => Before(v.movedAt, at)
    case FindStart(v) => Before(v.movedAt, at)
    case PlanMove(v, _) => Before(v.movedAt, at)
    case Store(v, _, _) => Before(v.movedAt, at)
    case Check(v, _, _, _) => Before(v.movedAt, at)
    case Write(v, _, _, _, next) => Before(v.movedAt, at) && next < at
    case Provisional(_, _) => true
    case RewindRead(_) => false
    case RewindWrite(_) => false
    case Stopped(_) => true
  }

  predicate Before(m: Option<int>, at: int) { m.None? || m.value < at }

  /** An advance past its first read: it compares with what it has seen. */
  predicate Underway(p: Proc) { !p.ReadMoves? && !p.RewindRead? && !p.RewindWrite? }

  /** The row a checked write inserts. */
  ghost function PendingMark(pid: nat, p: Proc): Mark
    requires p.Write?
  {
    Mark(Base(p.to, p.v.cps), p.next, ByAdvance(pid, p.v.movedAt))
  }

  /** When a rewind lands, every advance underway is behind it, even one that has checked and not inserted yet. */
  lemma {:induction false} RewindLandsAhead(s: State, a: Action, s': State, rewind: Mark, pid: nat)
    requires Inv(s) && Next(s, a, s')
    requires rewind in s'.marks && rewind !in s.marks && rewind.author.ByRewind?
    requires pid in s.procs && Underway(s.procs[pid])
    ensures s'.procs[pid] == s.procs[pid] && Behind(s'.procs[pid], rewind.movedAt)
  {
    NextKeepsInv(s, a, s');
    var p := s.procs[pid];
    assert ProcOk(s, p);
    assert rewind.movedAt == s.clock;
    assert a.Call? && a.pid != pid;
    SeenBeforeClock(s, p);
  }

  lemma {:induction false} SeenBeforeClock(s: State, p: Proc)
    requires ProcOk(s, p) && Underway(p)
    requires forall w | w in s.marks :: w.movedAt < s.clock
    ensures Behind(p, s.clock)
  {
  }

  /** Its own call keeps it behind: it inserts only a write it had already checked, and checks no other. */
  lemma {:induction false} BehindCall(s: State, pid: nat, p: Proc, p': Proc, stored': Stored, marks': set<Mark>,
                                      rewind: Mark)
    requires Behind(p, rewind.movedAt) && rewind in s.marks && Calls(s, pid, p, p', stored', marks')
    ensures Behind(p', rewind.movedAt) && !p'.Write?
    ensures marks' == if p.Write? && p' != Stopped(Failed) then s.marks + {PendingMark(pid, p)} else s.marks
    ensures p.Check? ==> p' == Stopped(Superseded) || p' == Stopped(Failed)
  {
    if p' != Stopped(Failed) {
      match p
      case Check(v, from, to, rest) => assert !IsLatestMove(s.marks, v.movedAt);
      case _ =>
    }
  }

  /** A step of anyone keeps it behind; it inserts only a write it had already checked. */
  lemma {:induction false} BehindStep(s: State, a: Action, s': State, rewind: Mark, pid: nat)
    requires Moves(s, a, s') && rewind in s.marks
    requires pid in s.procs && Behind(s.procs[pid], rewind.movedAt)
    ensures pid in s'.procs && Behind(s'.procs[pid], rewind.movedAt)
    ensures s'.procs[pid].Write? ==> s'.procs[pid] == s.procs[pid]
    ensures forall m | m in s'.marks && m !in s.marks && m.author.ByAdvance? && m.author.pid == pid ::
      s.procs[pid].Write? && m == PendingMark(pid, s.procs[pid]) && !s'.procs[pid].Write?
    ensures a.Call? && a.pid == pid && s.procs[pid].Check? ==>
      s'.procs[pid] == Stopped(Superseded) || s'.procs[pid] == Stopped(Failed)
  {
    if a.Call? && a.pid == pid {
      BehindCall(s, pid, s.procs[pid], a.after, a.stored, a.marks, rewind);
    }
  }

  /**
   * Since `start`: the advance is behind the rewind, and inserted nothing but the write it had already checked, which
   * is older than the rewind.
   */
  ghost predicate Stopping(start: State, s: State, rewind: Mark, pid: nat) {
    && pid in start.procs && pid in s.procs && Behind(s.procs[pid], rewind.movedAt) && rewind in s.marks
    && (s.procs[pid].Write? ==> s.procs[pid] == start.procs[pid])
    && (forall m | m in s.marks && m !in start.marks && m.author.ByAdvance? && m.author.pid == pid ::
          start.procs[pid].Write? && m == PendingMark(pid, start.procs[pid]) && m.movedAt < rewind.movedAt)
  }

  lemma {:induction false} StoppingStep(start: State, s: State, a: Action, s': State, rewind: Mark, pid: nat)
    requires Inv(s) && Next(s, a, s') && Stopping(start, s, rewind, pid)
    ensures Stopping(start, s', rewind, pid)
  {
    BehindStep(s, a, s', rewind, pid);
    NextKeepsInv(s, a, s');
  }

  lemma {:induction false} StoppingBegins(s: State, a: Action, s': State, rewind: Mark, pid: nat)
    requires Inv(s) && Next(s, a, s')
    requires rewind in s'.marks && rewind !in s.marks && rewind.author.ByRewind?
    requires pid in s.procs && Underway(s.procs[pid])
    ensures Stopping(s, s', rewind, pid)
  {
    RewindLandsAhead(s, a, s', rewind, pid);
    assert forall m | m in s'.marks && m !in s.marks :: m.author.ByRewind?;
  }

  /**
   * From the moment a rewind lands (the step after `i`), an advance underway inserts at most the one row it had already
   * checked, older than the rewind.
   */
  lemma {:induction false} RewindStopsAdvance(run: seq<State>, i: nat, j: nat, rewind: Mark, pid: nat)
    requires Run(run) && i < j < |run|
    requires rewind in run[i + 1].marks && rewind !in run[i].marks && rewind.author.ByRewind?
    requires pid in run[i].procs && Underway(run[i].procs[pid])
    ensures Stopping(run[i], run[j], rewind, pid)
  {
    var start, s, s' := run[i], run[j - 1], run[j];
    var a := RunStep(run, j - 1);
    if j == i + 1 {
      StoppingBegins(s, a, s', rewind, pid);
    } else {
      RewindStopsAdvance(run, i, j - 1, rewind, pid);
      StoppingStep(start, s, a, s', rewind, pid);
    }
  }

  /** And its next check finds it superseded. */
  lemma {:induction false} NextCheckSuperseded(run: seq<State>, i: nat, j: nat, rewind: Mark, pid: nat)
    requires Run(run) && i < j < |run| - 1
    requires rewind in run[i + 1].marks && rewind !in run[i].marks && rewind.author.ByRewind?
    requires pid in run[i].procs && Underway(run[i].procs[pid])
    requires pid in run[j].procs && run[j].procs[pid].Check?
    ensures pid in run[j + 1].procs
    ensures run[j + 1].procs[pid] in {run[j].procs[pid], Stopped(Superseded), Stopped(Failed)}
  {
    RewindStopsAdvance(run, i, j, rewind, pid);
    var a := RunStep(run, j);
    BehindStep(run[j], a, run[j + 1], rewind, pid);
  }
}
