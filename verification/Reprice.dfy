/**
 * The counting and storing statements of the reprice job over one time range: history rows counted per hour, the range
 * cut by the counts, one statement for each part that counts events.
 */
module Reprice {
  import opened Options
  import opened Events
  import opened Ranges

  const HOUR_MS := 3_600_000

  /** When each key was last stored (`version` of its row). */
  type Stored = map<Key, int>

  function HourOf(ts: int): int { ts / HOUR_MS * HOUR_MS }

  /** The filter of a statement: a time range, and only the rows above a frontier when one is given. */
  function Where(lo: int, to: Option<int>, above: Option<Frontier>): HistoryRow -> bool {
    (r: HistoryRow) =>
      lo <= r.ts && (to.Some? ==> r.ts < to.value) && (above.Some? ==> r.checkpoint > At(above.value, r.chain))
  }

  /** The history rows a count statement counts (before any deduplication). */
  function Counted(h: set<HistoryRow>, cps: Frontier, lo: int, to: Option<int>, above: Option<Frontier>)
    : set<HistoryRow>
  {
    Filter(Visible(h, cps), Where(lo, to, above))
  }

  /** One bucket for each hour that has rows, in order. */
  ghost predicate HourlyCounts(rows: set<HistoryRow>, buckets: seq<Bucket>) {
    && (forall i, j | 0 <= i < j < |buckets| :: buckets[i].startMs < buckets[j].startMs)
    && (forall i | 0 <= i < |buckets| :: IsHour(rows, buckets[i]))
    && (forall r | r in rows :: exists i :: 0 <= i < |buckets| && buckets[i].startMs == HourOf(r.ts))
  }

  ghost predicate IsHour(rows: set<HistoryRow>, b: Bucket) {
    && b.startMs == HourOf(b.startMs) && b.events > 0
    && b.events == |set r | r in rows && HourOf(r.ts) == b.startMs|
  }

  /** The parts planned for the rows of a filter. */
  ghost predicate PlanFor(h: set<HistoryRow>, cps: Frontier, lo: int, to: Option<int>, above: Option<Frontier>,
                          plan: seq<Planned>)
  {
    exists buckets, limits: Limits, ends ::
      && LimitsOk(limits) && limits.bucketMs == HOUR_MS
      && HourlyCounts(Counted(h, cps, lo, to, above), buckets)
      && IsPlan(lo, to, buckets, limits, plan, ends)
  }

  /** What makes a plan complete: it covers the range, and a part that runs no statement has no row to store. */
  ghost predicate Complete(h: set<HistoryRow>, cps: Frontier, lo: int, to: Option<int>, above: Option<Frontier>,
                           plan: seq<Planned>)
  {
    && ExactCover(lo, to, plan)
    && (forall k, r | 0 <= k < |plan| && r in h && Committed(cps, r) && Where(lo, to, above)(r) :: plan[k].events > 0)
  }

  lemma {:induction false} HourlyDisjoint(rows: set<HistoryRow>, buckets: seq<Bucket>)
    requires HourlyCounts(rows, buckets)
    ensures Disjoint(buckets, HOUR_MS)
  {
    forall i, j | 0 <= i < j < |buckets| ensures buckets[i].startMs + HOUR_MS <= buckets[j].startMs {
      assert IsHour(rows, buckets[i]) && IsHour(rows, buckets[j]);
      HoursApart(buckets[i].startMs, buckets[j].startMs);
    }
  }

  lemma {:induction false} HoursApart(a: int, b: int)
    requires a == HourOf(a) && b == HourOf(b) && a < b
    ensures a + HOUR_MS <= b
  {}

  /** Every plan made from the counts is complete. */
  lemma {:induction false} PlansAreComplete(h: set<HistoryRow>, cps: Frontier, lo: int, to: Option<int>,
                                            above: Option<Frontier>, plan: seq<Planned>)
    requires PlanFor(h, cps, lo, to, above, plan)
    ensures Complete(h, cps, lo, to, above, plan)
  {
    var buckets: seq<Bucket>, limits: Limits, ends :|
      && LimitsOk(limits) && limits.bucketMs == HOUR_MS
      && HourlyCounts(Counted(h, cps, lo, to, above), buckets)
      && IsPlan(lo, to, buckets, limits, plan, ends);
    var rows := Counted(h, cps, lo, to, above);
    HourlyDisjoint(rows, buckets);
    SortedAtoms(buckets, lo, to, limits);
    PlanCovers(AllAtoms(Sorted(buckets), lo, to, limits), ends, lo, to, plan);
    forall k, r | 0 <= k < |plan| && r in h && Committed(cps, r) && Where(lo, to, above)(r) ensures plan[k].events > 0 {
      assert r in rows;
      var i :| 0 <= i < |buckets| && buckets[i].startMs == HourOf(r.ts);
      CountedHourMeets(rows, buckets, lo, to, r, i);
      EveryRangeHasEvents(lo, to, buckets, limits, plan, ends, buckets[i]);
    }
  }

  lemma {:induction false} CountedHourMeets(rows: set<HistoryRow>, buckets: seq<Bucket>, lo: int, to: Option<int>,
                                            r: HistoryRow, i: int)
    requires HourlyCounts(rows, buckets) && r in rows && lo <= r.ts && (to.Some? ==> r.ts < to.value)
    requires 0 <= i < |buckets| && buckets[i].startMs == HourOf(r.ts)
    ensures Meets(buckets[i], lo, to, HOUR_MS)
  {
    assert IsHour(rows, buckets[i]);
    assert buckets[i].startMs <= r.ts < buckets[i].startMs + HOUR_MS;
  }

  /* ---------------------------------------------------------------- statements */

  /** The keys one statement reads. */
  function StatementKeys(h: set<HistoryRow>, cps: Frontier, lo: int, to: Option<int>, above: Option<Frontier>)
    : set<Key>
  {
    set e | e in EventsOf(h, cps, Where(lo, to, above), (r: HistoryRow) => true) :: KeyOf(e)
  }

  function StoreAt(stored: Stored, keys: set<Key>, now: int): Stored {
    stored + map k | k in keys :: now
  }

  /** The effect of one statement of a plan at time `now`: nothing for a part that counted no event. */
  function RunPart(h: set<HistoryRow>, cps: Frontier, above: Option<Frontier>, part: Planned, stored: Stored, now: int)
    : Stored
  {
    if part.events > 0 then StoreAt(stored, StatementKeys(h, cps, part.from, part.to, above), now) else stored
  }

  /** Stored rows are only added or replaced by newer ones. */
  ghost predicate Grown(stored: Stored, stored': Stored, now: int) {
    && stored.Keys <= stored'.Keys
    && forall k | k in stored' :: (k in stored && stored'[k] == stored[k]) || stored'[k] == now
  }

  /** A statement reads every committed row of its filter, whichever of an event's rows it keeps. */
  lemma {:induction false} StatementStores(h: set<HistoryRow>, cps: Frontier, lo: int, to: Option<int>,
                                           above: Option<Frontier>, r: HistoryRow)
    requires WellFormed(h) && r in h && Committed(cps, r) && Where(lo, to, above)(r)
    ensures KeyOf(r) in StatementKeys(h, cps, lo, to, above)
  {
    StoredKeys(h, cps, Where(lo, to, above), r);
  }

  /** One part of a complete plan stores every row of the range in that part's time. */
  lemma {:induction false} PartStores(h: set<HistoryRow>, cps: Frontier, lo: int, to: Option<int>,
                                      above: Option<Frontier>, plan: seq<Planned>, i: nat, stored: Stored, now: int,
                                      r: HistoryRow)
    requires WellFormed(h) && Complete(h, cps, lo, to, above, plan) && i < |plan|
    requires r in h && Committed(cps, r) && Where(lo, to, above)(r) && Where(plan[i].from, plan[i].to, above)(r)
    ensures var stored' := RunPart(h, cps, above, plan[i], stored, now);
      KeyOf(r) in stored' && stored'[KeyOf(r)] == now
  {
    assert plan[i].events > 0;
    StatementStores(h, cps, plan[i].from, plan[i].to, above, r);
  }

  lemma {:induction false} PartGrows(h: set<HistoryRow>, cps: Frontier, above: Option<Frontier>, part: Planned,
                                     stored: Stored, now: int)
    ensures Grown(stored, RunPart(h, cps, above, part, stored, now), now)
  {
  }

  /** The keys of a statement are those of the committed rows of its filter. */
  lemma {:induction false} KeysOfRows(h: set<HistoryRow>, cps: Frontier, lo: int, to: Option<int>,
                                      above: Option<Frontier>, k: Key)
    requires WellFormed(h)
    ensures k in StatementKeys(h, cps, lo, to, above)
       <==> exists r :: r in h && Committed(cps, r) && Where(lo, to, above)(r) && KeyOf(r) == k
  {
    if r :| r in h && Committed(cps, r) && Where(lo, to, above)(r) && KeyOf(r) == k {
      StatementStores(h, cps, lo, to, above, r);
    }
  }

  lemma {:induction false} KeysSplit(h: set<HistoryRow>, cps: Frontier, lo: int, mid: int, to: Option<int>,
                                     above: Option<Frontier>)
    requires WellFormed(h) && lo <= mid && (to.Some? ==> mid <= to.value)
    ensures StatementKeys(h, cps, lo, to, above)
         == StatementKeys(h, cps, lo, Some(mid), above) + StatementKeys(h, cps, mid, to, above)
    ensures forall k | k in StatementKeys(h, cps, mid, to, above) :: k !in StatementKeys(h, cps, lo, Some(mid), above)
  {
    forall k ensures k in StatementKeys(h, cps, lo, to, above)
                <==> k in StatementKeys(h, cps, lo, Some(mid), above) + StatementKeys(h, cps, mid, to, above)
    {
      KeysOfRows(h, cps, lo, to, above, k);
      KeysOfRows(h, cps, lo, Some(mid), above, k);
      KeysOfRows(h, cps, mid, to, above, k);
    }
  }

  /** A part that runs no statement has nothing to store. */
  lemma {:induction false} SkippedPartEmpty(h: set<HistoryRow>, cps: Frontier, lo: int, to: Option<int>,
                                            above: Option<Frontier>, plan: seq<Planned>, i: nat)
    requires WellFormed(h) && Complete(h, cps, lo, to, above, plan) && i < |plan|
    requires lo <= plan[i].from && EndsIn(plan[i], to) && plan[i].events <= 0
    ensures StatementKeys(h, cps, plan[i].from, plan[i].to, above) == {}
  {
    var part := Where(plan[i].from, plan[i].to, above);
    assert forall r | r in h && Committed(cps, r) && part(r) :: Where(lo, to, above)(r);
    forall k ensures k !in StatementKeys(h, cps, plan[i].from, plan[i].to, above) {
      KeysOfRows(h, cps, plan[i].from, plan[i].to, above, k);
    }
  }

  /** A part of a range ends within it; only one that ends with an open-ended range is open-ended. */
  predicate EndsIn(part: Planned, to: Option<int>) {
    to.Some? ==> part.to.Some? && part.to.value <= to.value
  }

  lemma {:induction false} PlanBounds(lo: int, to: Option<int>, plan: seq<Planned>, i: nat)
    requires ExactCover(lo, to, plan) && (to.Some? ==> lo < to.value) && i < |plan|
    ensures lo <= plan[i].from && NonEmpty(plan[i]) && EndsIn(plan[i], to)
    decreases |plan| - i
  {
    assert NonEmpty(plan[i]);
    if i < |plan| - 1 {
      PlanBounds(lo, to, plan, i + 1);
    }
    PlanFrom(lo, to, plan, i);
  }

  lemma {:induction false} PlanFrom(lo: int, to: Option<int>, plan: seq<Planned>, i: nat)
    requires ExactCover(lo, to, plan) && (to.Some? ==> lo < to.value) && i < |plan|
    ensures lo <= plan[i].from
  {
    if i > 0 {
      PlanFrom(lo, to, plan, i - 1);
      assert NonEmpty(plan[i - 1]);
      assert plan[i - 1].to == Some(plan[i].from);
    }
  }

  /* ---------------------------------------------------------------- the chunked loop */

  /**
   * Whether a statement writes a key again, which may depend on what is stored under it: a row that is not final, an
   * event the indexer did not price, a result that changed.
   */
  type Due = (Key, Option<int>) -> bool

  function Held(stored: Stored, k: Key): Option<int> { if k in stored then Some(stored[k]) else None }

  /** The keys that are due, as stored. */
  function DueOf(keys: set<Key>, due: Due, stored: Stored): set<Key> {
    set k | k in keys && due(k, Held(stored, k))
  }

  /** What one statement over the range leaves stored. */
  function Repriced(h: set<HistoryRow>, cps: Frontier, lo: int, to: Option<int>, above: Option<Frontier>, due: Due,
                    stored: Stored, now: int): Stored
  {
    StoreAt(stored, DueOf(StatementKeys(h, cps, lo, to, above), due, stored), now)
  }

  /**
   * Key by key: a statement writes a key, at its own time, exactly when a committed row of the range, above the lower
   * bound if there is one, has it and it is due as stored; it leaves every other key as it was.
   */
  lemma {:induction false} RepricedExactly(h: set<HistoryRow>, cps: Frontier, lo: int, to: Option<int>,
                                           above: Option<Frontier>, due: Due, stored: Stored, now: int, k: Key)
    requires WellFormed(h)
    ensures var read := exists r :: r in h && r.checkpoint <= At(cps, r.chain) && KeyOf(r) == k && lo <= r.ts
                              && (to.Some? ==> r.ts < to.value)
                              && (above.Some? ==> At(above.value, r.chain) < r.checkpoint);
      Held(Repriced(h, cps, lo, to, above, due, stored, now), k)
      == if read && due(k, Held(stored, k)) then Some(now) else Held(stored, k)
  {
    KeysOfRows(h, cps, lo, to, above, k);
    var keys := StatementKeys(h, cps, lo, to, above);
    hide StatementKeys;
    assert k in DueOf(keys, due, stored) <==> k in keys && due(k, Held(stored, k));
  }

  /** Two writes of keys apart, the second reading what the first has stored, are one write. */
  lemma {:induction false} TwoWrites(stored: Stored, a: set<Key>, b: set<Key>, due: Due, now: int)
    requires a !! b
    ensures var first := StoreAt(stored, DueOf(a, due, stored), now);
      StoreAt(first, DueOf(b, due, first), now) == StoreAt(stored, DueOf(a + b, due, stored), now)
  {
    var first := StoreAt(stored, DueOf(a, due, stored), now);
    forall k | k in b ensures Held(first, k) == Held(stored, k) {
      assert k !in DueOf(a, due, stored);
    }
    assert DueOf(b, due, first) == DueOf(b, due, stored);
    assert DueOf(a + b, due, stored) == DueOf(a, due, stored) + DueOf(b, due, stored);
  }

  /** So are two statements over neighbouring ranges. */
  lemma {:induction false} RepricedSplit(h: set<HistoryRow>, cps: Frontier, lo: int, mid: int, to: Option<int>,
                                         above: Option<Frontier>, due: Due, before: Stored, now: int)
    requires WellFormed(h) && lo <= mid && (to.Some? ==> mid <= to.value)
    ensures Repriced(h, cps, mid, to, above, due, Repriced(h, cps, lo, Some(mid), above, due, before, now), now)
         == Repriced(h, cps, lo, to, above, due, before, now)
  {
    KeysSplit(h, cps, lo, mid, to, above);
    TwoWrites(before, StatementKeys(h, cps, lo, Some(mid), above), StatementKeys(h, cps, mid, to, above), due, now);
  }

  /** An empty range stores nothing. */
  lemma {:induction false} EmptyRangeStores(h: set<HistoryRow>, cps: Frontier, lo: int, hi: int,
                                            above: Option<Frontier>,
                                            due: Due, before: Stored, now: int)
    requires hi <= lo
    ensures Repriced(h, cps, lo, Some(hi), above, due, before, now) == before
  {
    assert EventsOf(h, cps, Where(lo, Some(hi), above), (r: HistoryRow) => true) == {};
  }

  lemma {:induction false} NothingDue(stored: Stored, due: Due, now: int)
    ensures StoreAt(stored, DueOf({}, due, stored), now) == stored
  {
    assert DueOf({}, due, stored) == {};
  }

  /** One part more: what is stored so far, and what one statement would have stored up to here. */
  lemma {:induction false} LoopStep(h: set<HistoryRow>, cps: Frontier, lo: int, to: Option<int>,
                                    above: Option<Frontier>, due: Due, plan: seq<Planned>, i: nat, before: Stored,
                                    now: int)
    requires WellFormed(h) && (to.Some? ==> lo < to.value) && Complete(h, cps, lo, to, above, plan) && i < |plan|
    ensures var sofar := Repriced(h, cps, lo, Some(plan[i].from), above, due, before, now);
      (if plan[i].events > 0 then Repriced(h, cps, plan[i].from, plan[i].to, above, due, sofar, now) else sofar)
        == Repriced(h, cps, lo, plan[i].to, above, due, before, now)
  {
    hide WellFormed, StatementKeys, DueOf, StoreAt;
    PlanBounds(lo, to, plan, i);
    RepricedSplit(h, cps, lo, plan[i].from, plan[i].to, above, due, before, now);
    if plan[i].events <= 0 {
      SkippedPartEmpty(h, cps, lo, to, above, plan, i);
      NothingDue(Repriced(h, cps, lo, Some(plan[i].from), above, due, before, now), due, now);
    }
  }

  /** An empty range comes back whole and counts nothing. */
  lemma {:induction false} EmptyRangePlan(lo: int, hi: int, buckets: seq<Bucket>, limits: Limits, plan: seq<Planned>,
                                          ends: seq<nat>)
    requires hi <= lo && LimitsOk(limits) && Disjoint(buckets, limits.bucketMs)
    requires IsPlan(lo, Some(hi), buckets, limits, plan, ends)
    ensures plan == [Planned(lo, Some(hi), 0)]
  {
    assert forall b | b in buckets :: !Meets(b, lo, Some(hi), limits.bucketMs);
    EmptyRangeWhole(lo, Some(hi), buckets, limits, plan, ends);
  }

  /** `plannedRanges`: the parts of the range, from the counts of its hours. */
  method PlannedRanges(h: set<HistoryRow>, cps: Frontier, lo: int, to: Option<int>, above: Option<Frontier>,
                       buckets: seq<Bucket>, limits: Limits)
    returns (plan: seq<Planned>)
    requires LimitsOk(limits) && limits.bucketMs == HOUR_MS
    requires HourlyCounts(Counted(h, cps, lo, to, above), buckets)
    ensures PlanFor(h, cps, lo, to, above, plan) && Complete(h, cps, lo, to, above, plan)
    ensures to.Some? && to.value <= lo ==> plan == [Planned(lo, to, 0)]
  {
    ghost var ends;
    HourlyDisjoint(Counted(h, cps, lo, to, above), buckets);
    plan, ends := PlanRanges(lo, to, buckets, limits);
    PlansAreComplete(h, cps, lo, to, above, plan);
    if to.Some? && to.value <= lo { EmptyRangePlan(lo, to.value, buckets, limits, plan, ends); }
  }

  /**
   * The loop of `repriceRanges`, nothing else running: however the range is cut, open-ended or not, what is stored is
   * what one statement over the whole range would store, though each statement reads what those before it have stored.
   */
  method RepriceRanges(h: set<HistoryRow>, cps: Frontier, lo: int, to: Option<int>, above: Option<Frontier>, due: Due,
                       buckets: seq<Bucket>, limits: Limits, before: Stored, now: int)
    returns (stored: Stored, statements: nat)
    requires WellFormed(h) && LimitsOk(limits) && limits.bucketMs == HOUR_MS
    requires HourlyCounts(Counted(h, cps, lo, to, above), buckets)
    ensures stored == Repriced(h, cps, lo, to, above, due, before, now)
    ensures statements == 0 ==> stored == before
  {
    var plan := PlannedRanges(h, cps, lo, to, above, buckets, limits);
    stored, statements := before, 0;
    EmptyRangeStores(h, cps, lo, lo, above, due, before, now);
    if to.Some? && to.value <= lo {
      EmptyRangeStores(h, cps, lo, to.value, above, due, before, now);
    }
    for i := 0 to |plan|
      invariant stored == Repriced(h, cps, lo, if i < |plan| then Some(plan[i].from) else to, above, due, before, now)
      invariant statements == 0 ==> stored == before
    {
      if to.None? || lo < to.value {
        LoopStep(h, cps, lo, to, above, due, plan, i, before, now);
      }
      if plan[i].events > 0 {
        stored := Repriced(h, cps, plan[i].from, plan[i].to, above, due, stored, now);
        statements := statements + 1;
      }
    }
  }
}
