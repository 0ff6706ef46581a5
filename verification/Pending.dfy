/**
 * The switch gate's count of events with no price (`pendingEvents` in packages/clickhouse/src/deployments.ts): never
 * one statement over the whole history, yet the number it returns is that of the whole period.
 */
module Pending {
  import opened Options
  import opened Events
  import opened Ranges
  import opened Reprice
  import Watermark
  import WatermarkSound

  /** What the count reads: history, the committed frontier, the stored keys, the watermark row. */
  datatype Snapshot = Snapshot(
    history: set<HistoryRow>, frontier: Frontier, stored: set<Key>, mark: Option<Watermark.Base>)

  /** The watermark's promise, as `WatermarkSound.EveryMarkSound` gives it. */
  ghost predicate Sound(s: Snapshot) {
    && WellFormed(s.history)
    && (s.mark.Some? ==>
          forall r | r in s.history && Committed(s.mark.value.checkpoints, r) && r.ts < s.mark.value.watermark ::
            KeyOf(r) in s.stored)
  }

  /** The events in `[lo, hi)` the API would show with no price: current, not stored, not priced by the indexer. */
  function PendingSet(s: Snapshot, lo: int, hi: int): set<HistoryRow> {
    set e | e in Latest(Visible(s.history, s.frontier)) && e.isSet && !e.indexerPriced && lo <= e.ts < hi
            && KeyOf(e) !in s.stored
  }

  /** The filter of one counting statement, before the deduplication. */
  function Unstored(s: Snapshot, lo: int, hi: int, cut: int, above: Option<Frontier>): HistoryRow -> bool {
    (r: HistoryRow) =>
      && lo <= r.ts < hi && r.ts < cut && !(lo <= KeyOf(r).ts < hi && KeyOf(r) in s.stored)
      && (above.Some? ==> r.checkpoint > At(above.value, r.chain))
  }

  /** The number one statement returns. */
  function StatementCount(s: Snapshot, lo: int, hi: int, cut: int, above: Option<Frontier>): nat {
    |EventsOf(s.history, s.frontier, Unstored(s, lo, hi, cut, above), (r: HistoryRow) => !r.indexerPriced)|
  }

  /** The rows a statement may leave out by checkpoint are all stored. */
  ghost predicate AboveIsEnough(s: Snapshot, hi: int, above: Option<Frontier>) {
    above.Some? ==>
      s.mark.Some? && above.value == s.mark.value.checkpoints && hi <= s.mark.value.watermark
  }

  /** One statement counts exactly the pending events of its range that are old enough for the server (before `cut`). */
  lemma {:induction false} StatementExact(s: Snapshot, lo: int, hi: int, cut: int, above: Option<Frontier>)
    requires Sound(s) && AboveIsEnough(s, hi, above)
    ensures EventsOf(s.history, s.frontier, Unstored(s, lo, hi, cut, above), (r: HistoryRow) => !r.indexerPriced)
         == PendingSet(s, lo, Min(hi, cut))
  {
    var where := Unstored(s, lo, hi, cut, above);
    var rows := Visible(s.history, s.frontier);
    var priced := (r: HistoryRow) => !r.indexerPriced;
    forall r, l | r in rows && where(r) && l in Latest(rows) && SameEvent(l, r) ensures where(l) {
      assert r.ts == l.ts && KeyOf(l) == KeyOf(r);
    }
    FilterBeforeDedup(rows, where);
    SameRead(s.history, s.frontier, where, priced);
    forall e | e in Latest(rows) ensures where(e) <==> lo <= e.ts < Min(hi, cut) && KeyOf(e) !in s.stored {
    }
  }

  /** Two neighbouring ranges, cut off where the server finds events too young. */
  lemma {:induction false} PendingSplit(s: Snapshot, lo: int, mid: int, hi: int, cut: int)
    requires lo <= mid <= hi
    ensures |PendingSet(s, lo, Min(hi, cut))| == |PendingSet(s, lo, Min(mid, cut))| + |PendingSet(s, mid, Min(hi, cut))|
  {
    assert PendingSet(s, lo, Min(hi, cut)) == PendingSet(s, lo, Min(mid, cut)) + PendingSet(s, mid, Min(hi, cut));
    assert PendingSet(s, lo, Min(mid, cut)) !! PendingSet(s, mid, Min(hi, cut));
  }

  /** A part planned with no event has none pending. */
  lemma {:induction false} SkippedNonePending(s: Snapshot, lo: int, hi: int, above: Option<Frontier>,
                                              plan: seq<Planned>, i: nat)
    requires Sound(s) && lo < hi && AboveIsEnough(s, hi, above)
    requires Complete(s.history, s.frontier, lo, Some(hi), above, plan) && i < |plan| && plan[i].events == 0
    ensures plan[i].to.Some? && PendingSet(s, plan[i].from, plan[i].to.value) == {}
  {
    PlanBounds(lo, Some(hi), plan, i);
    assert forall e | e in s.history && lo <= e.ts < hi && KeyOf(e) !in s.stored :: Where(lo, Some(hi), above)(e) by {
      forall e | e in s.history && lo <= e.ts < hi && KeyOf(e) !in s.stored ensures Where(lo, Some(hi), above)(e) {
      }
    }
  }

  ghost predicate CountedTo(s: Snapshot, lo: int, to: int, cut: int, pending: nat) {
    pending == |PendingSet(s, lo, Min(to, cut))|
  }

  /** One part more. */
  lemma {:induction false} CountStep(s: Snapshot, lo: int, hi: int, cut: int, above: Option<Frontier>,
                                     plan: seq<Planned>, i: nat, pending: nat)
    requires Sound(s) && lo < hi && AboveIsEnough(s, hi, above)
    requires Complete(s.history, s.frontier, lo, Some(hi), above, plan) && i < |plan|
    requires CountedTo(s, lo, plan[i].from, cut, pending)
    ensures plan[i].to.Some? && plan[i].to.value == if i + 1 < |plan| then plan[i + 1].from else hi
    ensures var from, to := plan[i].from, plan[i].to.value;
      CountedTo(s, lo, to, cut, pending + if plan[i].events == 0 then 0 else StatementCount(s, from, to, cut, above))
  {
    PlanBounds(lo, Some(hi), plan, i);
    var from, to := plan[i].from, plan[i].to.value;
    PendingSplit(s, lo, from, to, cut);
    if plan[i].events == 0 {
      SkippedNonePending(s, lo, hi, above, plan, i);
      assert PendingSet(s, from, Min(to, cut)) <= PendingSet(s, from, to);
    } else {
      StatementExact(s, from, to, cut, above);
    }
  }

  lemma {:induction false} NoneCounted(s: Snapshot, lo: int, cut: int)
    ensures CountedTo(s, lo, lo, cut, 0)
  {
    assert PendingSet(s, lo, Min(lo, cut)) == {};
  }

  /** The loop over the planned parts of one step (`late` or `recent`). */
  method CountPart(s: Snapshot, lo: int, hi: int, cut: int, above: Option<Frontier>, buckets: seq<Bucket>,
                   limits: Limits)
    returns (pending: nat)
    requires Sound(s) && lo < hi && AboveIsEnough(s, hi, above)
    requires LimitsOk(limits) && limits.bucketMs == HOUR_MS
    requires HourlyCounts(Counted(s.history, s.frontier, lo, Some(hi), above), buckets)
    ensures pending == |PendingSet(s, lo, Min(hi, cut))|
  {
    var plan := PlannedRanges(s.history, s.frontier, lo, Some(hi), above, buckets, limits);
    pending := 0;
    NoneCounted(s, lo, cut);
    for i := 0 to |plan|
      invariant CountedTo(s, lo, if i < |plan| then plan[i].from else hi, cut, pending)
    {
      CountStep(s, lo, hi, cut, above, plan, i, pending);
      if plan[i].events == 0 { continue; }
      pending := pending + StatementCount(s, plan[i].from, plan[i].to.value, cut, above);
    }
  }

  /**
   * The time the whole rows are looked at from: `retryDays` before the watermark, or always before the first advance.
   */
  function RecentFrom(s: Snapshot, retryDays: nat): int {
    match s.mark
    case None => 0
    case Some(b) => b.watermark - retryDays * Watermark.DAY_MS
  }

  /** The rows `late` looks at: above the recorded frontier. */
  function Recorded(s: Snapshot): Option<Frontier> {
    match s.mark
    case None => None
    case Some(b) => Some(b.checkpoints)
  }

  /**
   * The chunked count: rows above the recorded frontier before the recent window, every row after it. `until` is the
   * client's age limit and `cut` the server's own, by its own clock: the count is up to the earlier of the two.
   * `lateCounts` and `recentCounts` are the answers of the count statements.
   */
  method PendingEvents(s: Snapshot, since: nat, until: int, cut: int, retryDays: nat, limits: Limits,
                       lateCounts: seq<Bucket>, recentCounts: seq<Bucket>)
    returns (pending: nat)
    requires Sound(s) && LimitsOk(limits) && limits.bucketMs == HOUR_MS
    requires s.mark.Some? ==>
      HourlyCounts(
        Counted(s.history, s.frontier, since, Some(Min(RecentFrom(s, retryDays), until)), Recorded(s)), lateCounts)
    requires HourlyCounts(
      Counted(s.history, s.frontier, Max(since, RecentFrom(s, retryDays)), Some(until), None), recentCounts)
    ensures pending == |PendingSet(s, since, Min(until, cut))|
  {
    pending := 0;
    var recent := RecentFrom(s, retryDays);
    var lateTo, recentFrom := Min(recent, until), Max(since, recent);
    if s.mark.Some? && since < lateTo {
      var late := CountPart(s, since, lateTo, cut, Recorded(s), lateCounts, limits);
      pending := pending + late;
    }
    if recentFrom < until {
      var rest := CountPart(s, recentFrom, until, cut, None, recentCounts, limits);
      pending := pending + rest;
    }
    PeriodCovered(s, since, until, cut, retryDays);
  }

  /** The two steps cover the period, without overlap. */
  lemma {:induction false} PeriodCovered(s: Snapshot, since: nat, until: int, cut: int, retryDays: nat)
    ensures var recent := RecentFrom(s, retryDays);
      |PendingSet(s, since, Min(until, cut))|
        == (if s.mark.Some? && since < Min(recent, until) then |PendingSet(s, since, Min(Min(recent, until), cut))|
            else 0)
         + (if Max(since, recent) < until then |PendingSet(s, Max(since, recent), Min(until, cut))| else 0)
  {
    var recent := RecentFrom(s, retryDays);
    if since < recent < until {
      PendingSplit(s, since, recent, until, cut);
    } else if until <= since {
      assert PendingSet(s, since, Min(until, cut)) == {};
    }
  }

  /** In every run of the watermark protocol, the row a count reads keeps the promise the count relies on. */
  lemma {:induction false} SnapshotSound(run: seq<Watermark.State>, i: nat, m: Watermark.Mark)
    requires WatermarkSound.LooseRun(run) && i < |run| && m in run[i].marks
    ensures Sound(Snapshot(run[i].history, run[i].frontier, run[i].stored.Keys, Some(m.base)))
  {
    WatermarkSound.LooseSound(run, i);
    forall r | r in run[i].history && Committed(m.base.checkpoints, r) && r.ts < m.base.watermark
      ensures KeyOf(r) in run[i].stored.Keys
    {
      WatermarkSound.EveryMarkSound(run, i, m, r);
    }
  }

  /** Without that promise the count can miss events: one never stored below the watermark is not looked at. */
  lemma {:induction false} UnsoundMarkHides() returns (s: Snapshot, lo: int, hi: int)
    ensures s.mark.Some? && s.frontier == s.mark.value.checkpoints && hi <= s.mark.value.watermark
    ensures PendingSet(s, lo, hi) != {} && StatementCount(s, lo, hi, hi, Recorded(s)) == 0
  {
    var r := HistoryRow(1, 1, 1, 5, 1, true, false);
    s := Snapshot({r}, map[1 := 1], {}, Some(Watermark.Base(10, map[1 := 1])));
    lo, hi := 0, 10;
    assert r in PendingSet(s, lo, hi);
    var where := Unstored(s, lo, hi, hi, Recorded(s));
    assert !where(r);
    assert Filter(Visible(s.history, s.frontier), where) == {};
    assert EventsOf(s.history, s.frontier, Unstored(s, lo, hi, hi, Recorded(s)), (r: HistoryRow) => !r.indexerPriced)
        == {};
  }
}
