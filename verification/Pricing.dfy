/**
 * The price of an event (packages/clickhouse/src/pricing.ts). The statement reads only the prices of the events' assets
 * on the days around the events, gives each price point its successor, adds a sentinel before the first, and finds both
 * sides of an event with one ASOF match. The reference is a direct search of the whole price table.
 *
 * Times are whole seconds, as ClickHouse's `DateTime`; a price source is its rank in the order of the names.
 */
module Pricing {
  import opened Options
  import Reals

  const REACH_SECONDS := 48 * 3600
  const STALE_SECONDS := 6 * 3600
  const DAY_SECONDS := 86_400
  const REACH_DAYS := 2

  datatype PriceRow = PriceRow(asset: nat, at: nat, price: real, source: nat)
  datatype Point = Point(at: nat, price: real, source: nat)
  /** An event to price: asset 0 stands for a product with no asset. */
  datatype Event = Event(id: nat, asset: nat, timestampMs: nat)
  /** The two prices an event is priced from. */
  datatype Sides = Sides(before: Option<Point>, after: Option<Point>)
  datatype Flag = OK | STALE | EXTRAPOLATED | MISSING
  datatype Priced = Priced(
    flag: Flag, shareToUsd: real, source: Option<nat>, beforeAt: Option<nat>, afterAt: Option<nat>)

  function Seconds(e: Event): nat { e.timestampMs / 1000 }
  function Day(t: int): int { t / DAY_SECONDS }

  /** One price per asset, time and source. */
  ghost predicate OnePricePerSource(table: set<PriceRow>) {
    forall a, b | a in table && b in table && a.asset == b.asset && a.at == b.at && a.source == b.source :: a == b
  }

  /* ---------------------------------------------------------------- points */

  /** Where two rows share a time, the larger source wins. */
  predicate Wins(table: set<PriceRow>, r: PriceRow) {
    r in table && forall o | o in table :: o.asset == r.asset && o.at == r.at ==> o.source <= r.source
  }

  function Points(table: set<PriceRow>, asset: nat): set<Point> {
    set r | r in table && Wins(table, r) && r.asset == asset :: Point(r.at, r.price, r.source)
  }

  ghost predicate DistinctTimes(points: set<Point>) {
    forall p, q | p in points && q in points && p.at == q.at :: p == q
  }

  /* ---------------------------------------------------------------- the direct search */

  /** The last point at or before `ts`, if it is within reach. */
  ghost predicate IsBefore(points: set<Point>, ts: nat, o: Option<Point>) {
    match o
    case None => forall q | q in points && q.at <= ts :: ts - q.at > REACH_SECONDS
    case Some(p) =>
      && p in points && p.at <= ts && ts - p.at <= REACH_SECONDS
      && forall q | q in points && q.at <= ts :: q.at <= p.at
  }

  /** The first point at or after `ts`, if it is within reach. */
  ghost predicate IsAfter(points: set<Point>, ts: nat, o: Option<Point>) {
    match o
    case None => forall q | q in points && q.at >= ts :: q.at - ts > REACH_SECONDS
    case Some(p) =>
      && p in points && p.at >= ts && p.at - ts <= REACH_SECONDS
      && forall q | q in points && q.at >= ts :: q.at >= p.at
  }

  ghost predicate Direct(table: set<PriceRow>, e: Event, sides: Sides) {
    var points := if e.asset == 0 then {} else Points(table, e.asset);
    IsBefore(points, Seconds(e), sides.before) && IsAfter(points, Seconds(e), sides.after)
  }

  /* ---------------------------------------------------------------- the statement */

  function Assets(chunk: set<Event>): set<nat> {
    set e | e in chunk && e.asset != 0 :: e.asset
  }

  /** The days around the events' days. */
  predicate InDays(chunk: set<Event>, day: int) {
    exists e | e in chunk :: e.asset != 0 && -REACH_DAYS <= day - Day(Seconds(e)) <= REACH_DAYS
  }

  /** The price rows read: by two sets, the assets and the days, not by their pairs. */
  function Pruned(table: set<PriceRow>, chunk: set<Event>): set<PriceRow> {
    set r | r in table && r.asset in Assets(chunk) && InDays(chunk, Day(r.at))
  }

  /** A point with its successor, or the sentinel: no point, and the first one as its successor. */
  datatype Slice = Slice(keyAt: nat, point: Option<Point>, next: Option<Point>)

  ghost predicate IsNext(points: set<Point>, p: Point, next: Option<Point>) {
    match next
    case None => forall q | q in points :: q.at <= p.at
    case Some(n) => n in points && n.at > p.at && forall q | q in points && q.at > p.at :: q.at >= n.at
  }

  ghost predicate IsFirst(points: set<Point>, p: Point) {
    p in points && forall q | q in points :: p.at <= q.at
  }

  ghost predicate IsSlice(points: set<Point>, s: Slice) {
    match s.point
    case None => s.keyAt == 0 && s.next.Some? && IsFirst(points, s.next.value)
    case Some(p) => p in points && s.keyAt == p.at && IsNext(points, p, s.next)
  }

  /** `ASOF LEFT JOIN ... ON ts >= key_at`: a slice with the largest key at or before `ts`, or no match. */
  ghost predicate IsAsof(points: set<Point>, ts: nat, m: Option<Slice>) {
    match m
    case None => forall s: Slice | IsSlice(points, s) :: s.keyAt > ts
    case Some(s) => IsSlice(points, s) && s.keyAt <= ts
                    && forall t: Slice | IsSlice(points, t) && t.keyAt <= ts :: t.keyAt <= s.keyAt
  }

  /** The 48 hour cut on each side; a point at the event's own time is both sides. */
  function SidesOf(m: Option<Slice>, ts: nat): Sides {
    match m
    case None => Sides(None, None)
    case Some(s) =>
      var before := if s.point.Some? && ts - s.point.value.at <= REACH_SECONDS then s.point else None;
      var candidate := if s.point.Some? && s.point.value.at == ts then s.point else s.next;
      var after := if candidate.Some? && candidate.value.at - ts <= REACH_SECONDS then candidate else None;
      Sides(before, after)
  }

  function Part(difference: real, part: real, whole: real): real
    requires whole != 0.0
  {
    difference * part / whole
  }

  function PriceOf(sides: Sides, ts: nat): Priced {
    match sides
    case Sides(Some(b), Some(a)) =>
      var price := if a.at == b.at then b.price
                   else b.price + Part(a.price - b.price, (ts - b.at) as real, (a.at - b.at) as real);
      Priced(if a.at - b.at > STALE_SECONDS then STALE else OK, price, Some(b.source), Some(b.at), Some(a.at))
    case Sides(Some(b), None) => Priced(EXTRAPOLATED, b.price, Some(b.source), Some(b.at), None)
    case Sides(None, Some(a)) => Priced(EXTRAPOLATED, a.price, Some(a.source), None, Some(a.at))
    case Sides(None, None) => Priced(MISSING, 0.0, None, None, None)
  }

  /** What a statement may store for one event of its chunk. */
  ghost predicate Stores(table: set<PriceRow>, chunk: set<Event>, e: Event, priced: Priced) {
    exists m :: IsAsof(Points(Pruned(table, chunk), e.asset), Seconds(e), m)
             && priced == PriceOf(SidesOf(m, Seconds(e)), Seconds(e))
  }

  /* ---------------------------------------------------------------- pruning loses nothing within reach */

  lemma {:induction false} PointsDistinct(table: set<PriceRow>, asset: nat)
    requires OnePricePerSource(table)
    ensures DistinctTimes(Points(table, asset))
  {
    forall p, q | p in Points(table, asset) && q in Points(table, asset) && p.at == q.at ensures p == q {
      var r :| Wins(table, r) && r.asset == asset && p == Point(r.at, r.price, r.source);
      var t :| Wins(table, t) && t.asset == asset && q == Point(t.at, t.price, t.source);
      assert r.source == t.source;
    }
  }

  lemma {:induction false} PrunedIsPart(table: set<PriceRow>, chunk: set<Event>, asset: nat, p: Point)
    requires p in Points(Pruned(table, chunk), asset)
    ensures p in Points(table, asset)
  {
    var r :| Wins(Pruned(table, chunk), r) && r.asset == asset && p == Point(r.at, r.price, r.source);
    forall o | o in table && o.asset == r.asset && o.at == r.at ensures o.source <= r.source {
      assert o in Pruned(table, chunk);
    }
    assert Wins(table, r);
  }

  lemma {:induction false} DayNear(t: int, ts: int)
    requires -REACH_SECONDS <= t - ts <= REACH_SECONDS
    ensures -REACH_DAYS <= Day(t) - Day(ts) <= REACH_DAYS
  {
  }

  /** Every point of an event's asset within reach of it is read, whatever the rest of the chunk. */
  lemma {:induction false} WithinReachRead(table: set<PriceRow>, chunk: set<Event>, e: Event, p: Point)
    requires e in chunk && e.asset != 0 && p in Points(table, e.asset)
    requires -REACH_SECONDS <= p.at - Seconds(e) <= REACH_SECONDS
    ensures p in Points(Pruned(table, chunk), e.asset)
  {
    var r :| Wins(table, r) && r.asset == e.asset && p == Point(r.at, r.price, r.source);
    DayNear(p.at, Seconds(e));
    assert InDays(chunk, Day(r.at));
    assert r.asset in Assets(chunk);
    assert r in Pruned(table, chunk) && Wins(Pruned(table, chunk), r);
  }

  /** So the direct search of what is read is the direct search of the whole table. */
  lemma {:induction false} SearchPruned(table: set<PriceRow>, chunk: set<Event>, e: Event, sides: Sides)
    requires e in chunk
    requires IsBefore(Points(Pruned(table, chunk), e.asset), Seconds(e), sides.before)
    requires IsAfter(Points(Pruned(table, chunk), e.asset), Seconds(e), sides.after)
    ensures Direct(table, e, sides)
  {
    var ts, read := Seconds(e), Points(Pruned(table, chunk), e.asset);
    if e.asset == 0 {
      assert read == {};
      return;
    }
    var all := Points(table, e.asset);
    forall q | q in all && -REACH_SECONDS <= q.at - ts <= REACH_SECONDS ensures q in read {
      WithinReachRead(table, chunk, e, q);
    }
    forall q | q in read ensures q in all {
      PrunedIsPart(table, chunk, e.asset, q);
    }
  }

  /* ---------------------------------------------------------------- the ASOF match is the direct search */

  lemma {:induction false} FirstExists(points: set<Point>) returns (p: Point)
    requires points != {}
    ensures IsFirst(points, p)
    decreases |points|
  {
    var any :| any in points;
    if points == {any} {
      p := any;
    } else {
      var least := FirstExists(points - {any});
      p := if any.at <= least.at then any else least;
    }
  }

  lemma {:induction false} NextExists(points: set<Point>, p: Point) returns (next: Option<Point>)
    requires p in points
    ensures IsNext(points, p, next)
  {
    var later := set q | q in points && q.at > p.at;
    if later == {} {
      assert forall q | q in points :: q.at <= p.at by {
        forall q | q in points ensures q.at <= p.at {
          assert q !in later;
        }
      }
      next := None;
    } else {
      var n := FirstExists(later);
      next := Some(n);
    }
  }

  /** Every point is the key of a slice. */
  lemma {:induction false} PointHasSlice(points: set<Point>, p: Point) returns (s: Slice)
    requires p in points
    ensures IsSlice(points, s) && s.keyAt == p.at && s.point == Some(p)
  {
    var next := NextExists(points, p);
    s := Slice(p.at, Some(p), next);
  }

  lemma {:induction false} SentinelExists(points: set<Point>) returns (s: Slice)
    requires points != {}
    ensures IsSlice(points, s) && s.keyAt == 0 && s.point == None
  {
    var p := FirstExists(points);
    s := Slice(0, None, Some(p));
  }

  /** The one case the sentinel gets wrong: the event's last point is at the epoch, where the sentinel's key is. */
  ghost predicate LastIsEpoch(points: set<Point>, ts: nat) {
    exists p :: p in points && p.at == 0 && forall q | q in points && q.at <= ts :: q.at == 0
  }

  /** A match gives the two sides of the direct search. */
  lemma {:induction false} AsofIsSearch(points: set<Point>, ts: nat, m: Option<Slice>)
    requires DistinctTimes(points) && IsAsof(points, ts, m) && !LastIsEpoch(points, ts)
    ensures IsBefore(points, ts, SidesOf(m, ts).before) && IsAfter(points, ts, SidesOf(m, ts).after)
  {
    if m.None? {
      if points != {} {
        var s := SentinelExists(points);
      }
    } else {
      LastPoint(points, ts, m.value);
      var s := m.value;
      if s.point.Some? {
        assert IsNext(points, s.point.value, s.next);
      }
    }
  }

  /** The matched slice is that of the last point at or before `ts`, or the sentinel when there is none. */
  lemma {:induction false} LastPoint(points: set<Point>, ts: nat, s: Slice)
    requires IsAsof(points, ts, Some(s)) && !LastIsEpoch(points, ts)
    ensures s.point.Some? ==> forall q | q in points && q.at <= ts :: q.at <= s.point.value.at
    ensures s.point.None? ==> forall q | q in points :: q.at > ts
  {
    forall q | q in points && q.at <= ts ensures q.at <= s.keyAt {
      var t := PointHasSlice(points, q);
    }
    if s.point.None? {
      assert forall q | q in points && q.at <= ts :: q.at == 0;
    }
  }

  /** There the sentinel is a match too, and it is not what the search finds. */
  lemma {:induction false} EpochTieWrong(points: set<Point>, ts: nat) returns (m: Option<Slice>)
    requires LastIsEpoch(points, ts)
    ensures IsAsof(points, ts, m)
    ensures !(IsBefore(points, ts, SidesOf(m, ts).before) && IsAfter(points, ts, SidesOf(m, ts).after))
  {
    var s := SentinelExists(points);
    m := Some(s);
    forall t: Slice | IsSlice(points, t) && t.keyAt <= ts ensures t.keyAt <= 0 {
    }
  }

  /** A match answers the search, whichever slice ClickHouse picks, exactly when the last point is not at the epoch. */
  lemma {:induction false} AsofExact(points: set<Point>, ts: nat)
    requires DistinctTimes(points)
    ensures !LastIsEpoch(points, ts)
       <==> forall m | IsAsof(points, ts, m) ::
              IsBefore(points, ts, SidesOf(m, ts).before) && IsAfter(points, ts, SidesOf(m, ts).after)
  {
    if LastIsEpoch(points, ts) {
      var m := EpochTieWrong(points, ts);
    } else {
      forall m | IsAsof(points, ts, m)
        ensures IsBefore(points, ts, SidesOf(m, ts).before) && IsAfter(points, ts, SidesOf(m, ts).after)
      {
        AsofIsSearch(points, ts, m);
      }
    }
  }

  /* ---------------------------------------------------------------- the theorems */

  ghost predicate NoPriceAtEpoch(table: set<PriceRow>) { forall r | r in table :: r.at > 0 }

  lemma {:induction false} PrunedOnePrice(table: set<PriceRow>, chunk: set<Event>)
    requires OnePricePerSource(table)
    ensures OnePricePerSource(Pruned(table, chunk))
  {}

  /** What a statement stores for an event is the price of a direct search of the whole table. */
  lemma {:induction false} StoredIsDirect(table: set<PriceRow>, chunk: set<Event>, e: Event, priced: Priced)
    returns (sides: Sides)
    requires OnePricePerSource(table) && NoPriceAtEpoch(table) && e in chunk && Stores(table, chunk, e, priced)
    ensures Direct(table, e, sides) && priced == PriceOf(sides, Seconds(e))
  {
    var points, ts := Points(Pruned(table, chunk), e.asset), Seconds(e);
    var m :| IsAsof(points, ts, m) && priced == PriceOf(SidesOf(m, ts), ts);
    PrunedOnePrice(table, chunk);
    PointsDistinct(Pruned(table, chunk), e.asset);
    assert !LastIsEpoch(points, ts);
    AsofIsSearch(points, ts, m);
    sides := SidesOf(m, ts);
    SearchPruned(table, chunk, e, sides);
  }

  /** The last price row of the asset up to `ts`, the larger source of two at one time, within 48 hours. */
  ghost predicate IsLastRow(table: set<PriceRow>, asset: nat, ts: nat, o: Option<Point>) {
    match o
    case None => forall r | r in table && r.asset == asset && r.at <= ts :: ts - r.at > 172_800
    case Some(p) =>
      && p.at <= ts && ts - p.at <= 172_800 && PriceRow(asset, p.at, p.price, p.source) in table
      && forall r | r in table && r.asset == asset && r.at <= ts ::
           r.at < p.at || (r.at == p.at && r.source <= p.source)
  }

  /** The first one from `ts` on. */
  ghost predicate IsFirstRow(table: set<PriceRow>, asset: nat, ts: nat, o: Option<Point>) {
    match o
    case None => forall r | r in table && r.asset == asset && r.at >= ts :: r.at - ts > 172_800
    case Some(p) =>
      && p.at >= ts && p.at - ts <= 172_800 && PriceRow(asset, p.at, p.price, p.source) in table
      && forall r | r in table && r.asset == asset && r.at >= ts ::
           r.at > p.at || (r.at == p.at && r.source <= p.source)
  }

  /** What the direct search finds, in the rows of the price table: at the event's second, cut off. */
  ghost predicate FoundIn(table: set<PriceRow>, e: Event, sides: Sides) {
    var ts := e.timestampMs / 1000;
    if e.asset == 0 then sides == Sides(None, None)
    else IsLastRow(table, e.asset, ts, sides.before) && IsFirstRow(table, e.asset, ts, sides.after)
  }

  /** Of the rows of one asset and time one has the largest source. */
  lemma {:induction false} WinnerAt(table: set<PriceRow>, r: PriceRow) returns (w: PriceRow)
    requires r in table
    ensures Wins(table, w) && w.asset == r.asset && w.at == r.at && w.source >= r.source
    decreases |set o | o in table && o.source > r.source|
  {
    if o :| o in table && o.asset == r.asset && o.at == r.at && o.source > r.source {
      var above, aboveO := set x | x in table && x.source > r.source, set x | x in table && x.source > o.source;
      assert aboveO < above by { assert o in above && o !in aboveO; }
      Smaller(aboveO, above);
      w := WinnerAt(table, o);
    } else {
      w := r;
    }
  }

  lemma {:induction false} Smaller(a: set<PriceRow>, b: set<PriceRow>)
    requires a < b
    ensures |a| < |b|
  {
    assert b == a + (b - a);
  }

  lemma {:induction false} RowHasPoint(table: set<PriceRow>, r: PriceRow) returns (p: Point)
    requires r in table
    ensures p in Points(table, r.asset) && p.at == r.at && p.source >= r.source
  {
    var w := WinnerAt(table, r);
    p := Point(w.at, w.price, w.source);
  }

  lemma {:induction false} PointIsRow(table: set<PriceRow>, asset: nat, p: Point)
    requires p in Points(table, asset)
    ensures PriceRow(asset, p.at, p.price, p.source) in table
    ensures forall r | r in table && r.asset == asset && r.at == p.at :: r.source <= p.source
  {
    var r :| Wins(table, r) && r.asset == asset && p == Point(r.at, r.price, r.source);
    assert r == PriceRow(asset, p.at, p.price, p.source);
  }

  lemma {:induction false} BeforeFinds(table: set<PriceRow>, asset: nat, ts: nat, o: Option<Point>)
    requires IsBefore(Points(table, asset), ts, o)
    ensures IsLastRow(table, asset, ts, o)
  {
    hide Points;
    if o.Some? { PointIsRow(table, asset, o.value); }
    forall r | r in table && r.asset == asset && r.at <= ts
      ensures if o.Some? then r.at < o.value.at || (r.at == o.value.at && r.source <= o.value.source)
              else ts - r.at > REACH_SECONDS
    {
      var p := RowHasPoint(table, r);
    }
  }

  lemma {:induction false} AfterFinds(table: set<PriceRow>, asset: nat, ts: nat, o: Option<Point>)
    requires IsAfter(Points(table, asset), ts, o)
    ensures IsFirstRow(table, asset, ts, o)
  {
    hide Points;
    if o.Some? { PointIsRow(table, asset, o.value); }
    forall r | r in table && r.asset == asset && r.at >= ts
      ensures if o.Some? then r.at > o.value.at || (r.at == o.value.at && r.source <= o.value.source)
              else r.at - ts > REACH_SECONDS
    {
      var p := RowHasPoint(table, r);
    }
  }

  lemma {:induction false} DirectFinds(table: set<PriceRow>, e: Event, sides: Sides)
    requires Direct(table, e, sides)
    ensures FoundIn(table, e, sides)
  {
    if e.asset != 0 {
      BeforeFinds(table, e.asset, Seconds(e), sides.before);
      AfterFinds(table, e.asset, Seconds(e), sides.after);
      hide IsBefore, IsAfter, IsLastRow, IsFirstRow, Points;
    }
  }

  /** The price lies on the line through the two points: it is `b`'s at its time, and `a`'s at `a`'s. */
  ghost predicate OnLine(b: Point, a: Point, ts: nat, price: real) {
    if a.at == b.at then price == b.price
    else (price - b.price) * (a.at - b.at) as real == (a.price - b.price) * (ts - b.at) as real
  }

  /**
   * What the two sides of an event say of its price: both, the line between them, stale when they are further apart
   * than six hours; one, its price carried flat; none, nothing. The source is the side before, if there is one.
   */
  ghost predicate PricedFrom(sides: Sides, ts: nat, priced: Priced) {
    && priced.beforeAt == (if sides.before.Some? then Some(sides.before.value.at) else None)
    && priced.afterAt == (if sides.after.Some? then Some(sides.after.value.at) else None)
    && (priced.flag.MISSING? <==> sides.before.None? && sides.after.None?)
    && (priced.flag.EXTRAPOLATED? <==> sides.before.Some? != sides.after.Some?)
    && (priced.flag.STALE? <==>
          sides.before.Some? && sides.after.Some? && sides.after.value.at - sides.before.value.at > 21_600)
    && (sides.before.Some? && sides.after.Some? ==>
          OnLine(sides.before.value, sides.after.value, ts, priced.shareToUsd))
    && (sides.before.Some? && sides.after.None? ==> priced.shareToUsd == sides.before.value.price)
    && (sides.before.None? && sides.after.Some? ==> priced.shareToUsd == sides.after.value.price)
    && (sides.before.None? && sides.after.None? ==> priced.shareToUsd == 0.0)
    && priced.source == (if sides.before.Some? then Some(sides.before.value.source)
                         else if sides.after.Some? then Some(sides.after.value.source) else None)
  }

  lemma {:induction false} PartIsShare(difference: real, part: real, whole: real)
    requires whole != 0.0
    ensures Part(difference, part, whole) * whole == difference * part
  {}

  lemma {:induction false} PriceOfIs(sides: Sides, ts: nat)
    ensures PricedFrom(sides, ts, PriceOf(sides, ts))
  {
    if sides.before.Some? && sides.after.Some? && sides.after.value.at != sides.before.value.at {
      var b, a := sides.before.value, sides.after.value;
      PartIsShare(a.price - b.price, (ts - b.at) as real, (a.at - b.at) as real);
    }
  }

  /**
   * So the stored price, flag, source and times are those of the price table's rows next to the event: on the line
   * between the two, or one carried flat, or missing.
   */
  lemma {:induction false} StoredPrice(table: set<PriceRow>, chunk: set<Event>, e: Event, priced: Priced)
    returns (sides: Sides)
    requires OnePricePerSource(table) && NoPriceAtEpoch(table) && e in chunk && Stores(table, chunk, e, priced)
    ensures FoundIn(table, e, sides) && PricedFrom(sides, e.timestampMs / 1000, priced)
  {
    sides := StoredIsDirect(table, chunk, e, priced);
    DirectFinds(table, e, sides);
    PriceOfIs(sides, Seconds(e));
  }

  /** At a point's own time the price is the point's. */
  lemma {:induction false} PriceAtPoint(sides: Sides, ts: nat, priced: Priced)
    requires PricedFrom(sides, ts, priced) && sides.before.Some? && sides.after.Some?
    ensures ts == sides.before.value.at ==> priced.shareToUsd == sides.before.value.price
    ensures ts == sides.after.value.at != sides.before.value.at ==> priced.shareToUsd == sides.after.value.price
  {
    var b, a, p := sides.before.value, sides.after.value, priced.shareToUsd;
    if a.at != b.at {
      var whole := (a.at - b.at) as real;
      if ts == b.at { SameShare(p - b.price, 0.0, whole); }
      if ts == a.at { SameShare(p - b.price, a.price - b.price, whole); }
    }
  }

  lemma {:induction false} SameShare(x: real, y: real, whole: real)
    requires whole != 0.0 && x * whole == y * whole
    ensures x == y
  {}

  /** The direct search has one answer. */
  lemma {:induction false} DirectUnique(table: set<PriceRow>, e: Event, a: Sides, b: Sides)
    requires OnePricePerSource(table) && Direct(table, e, a) && Direct(table, e, b)
    ensures a == b
  {
    PointsDistinct(table, e.asset);
  }

  /** So the price of an event does not depend on which other events are priced with it. */
  lemma {:induction false} AnyChunkSamePrice(table: set<PriceRow>, chunk: set<Event>, other: set<Event>, e: Event,
                                             a: Priced, b: Priced)
    requires OnePricePerSource(table) && NoPriceAtEpoch(table) && e in chunk && e in other
    requires Stores(table, chunk, e, a) && Stores(table, other, e, b)
    ensures a == b
  {
    var x := StoredIsDirect(table, chunk, e, a);
    var y := StoredIsDirect(table, other, e, b);
    DirectUnique(table, e, x, y);
  }

  /** Every event of a chunk gets a row: a match always exists. */
  lemma {:induction false} EveryEventStored(table: set<PriceRow>, chunk: set<Event>, e: Event) returns (priced: Priced)
    requires e in chunk
    ensures Stores(table, chunk, e, priced)
  {
    var points, ts := Points(Pruned(table, chunk), e.asset), Seconds(e);
    var m := AsofExists(points, ts);
    priced := PriceOf(SidesOf(m, ts), ts);
  }

  lemma {:induction false} LastExists(points: set<Point>) returns (p: Point)
    requires points != {}
    ensures p in points && forall q | q in points :: q.at <= p.at
    decreases |points|
  {
    var any :| any in points;
    if points == {any} {
      p := any;
    } else {
      var most := LastExists(points - {any});
      p := if any.at >= most.at then any else most;
    }
  }

  lemma {:induction false} AsofExists(points: set<Point>, ts: nat) returns (m: Option<Slice>)
    ensures IsAsof(points, ts, m)
  {
    var upTo := set p | p in points && p.at <= ts;
    if upTo != {} {
      var p := LastExists(upTo);
      var s := PointHasSlice(points, p);
      m := Some(s);
    } else if points != {} {
      var s := SentinelExists(points);
      m := Some(s);
      assert forall p | p in points :: p in upTo || p.at > ts;
    } else {
      m := None;
    }
  }

  /** An interpolated price lies between the two prices it is made of. */
  lemma {:induction false} PriceBetween(table: set<PriceRow>, e: Event, sides: Sides)
    requires Direct(table, e, sides) && sides.before.Some? && sides.after.Some?
    ensures var p, b, a := PriceOf(sides, Seconds(e)).shareToUsd, sides.before.value.price, sides.after.value.price;
      (b <= a ==> b <= p <= a) && (a <= b ==> a <= p <= b)
  {
    var b, a, ts := sides.before.value, sides.after.value, Seconds(e);
    if a.at != b.at {
      PartBetween(a.price - b.price, (ts - b.at) as real, (a.at - b.at) as real);
    }
  }

  /** A part of a whole of a difference is between nothing and the difference. */
  lemma {:induction false} PartBetween(d: real, part: real, whole: real)
    requires 0.0 <= part <= whole && whole > 0.0
    ensures (d >= 0.0 ==> 0.0 <= Part(d, part, whole) <= d) && (d <= 0.0 ==> d <= Part(d, part, whole) <= 0.0)
  {
    if d >= 0.0 {
      PartOf(d, part, whole);
    } else {
      PartOf(-d, part, whole);
      assert d * part == -(-d * part);
      NegDiv(-d * part, whole);
    }
  }

  lemma {:induction false} PartOf(d: real, part: real, whole: real)
    requires d >= 0.0 && 0.0 <= part <= whole && whole > 0.0
    ensures 0.0 <= d * part / whole <= d
  {
    Reals.MulLe(d, 0.0, part);
    Reals.MulLe(d, part, whole);
    Reals.DivBounds(d * part, d * whole, d, whole);
  }

  lemma {:induction false} NegDiv(x: real, whole: real)
    requires whole > 0.0
    ensures (-x) / whole == -(x / whole)
  {}
}
