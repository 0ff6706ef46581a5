/**
 * How a reprice cuts a time range into statements (packages/clickhouse/src/ranges.ts): hourly event counts are cut into
 * atoms, and a greedy pass groups consecutive atoms within a number of events and a span.
 */
module Ranges {
  import opened Options

  datatype Bucket = Bucket(startMs: int, events: int)
  datatype Atom = Atom(startMs: int, endMs: int, events: int)
  datatype Limits = Limits(maxEvents: int, maxSpanMs: int, bucketMs: int)
  /** `[from, to)`, open-ended without `to`. */
  datatype Planned = Planned(from: int, to: Option<int>, events: int)

  predicate LimitsOk(limits: Limits) { limits.maxEvents >= 1 && limits.bucketMs >= 1 }

  function Max(a: int, b: int): int { if a > b then a else b }
  function Min(a: int, b: int): int { if a < b then a else b }
  function CeilDiv(a: int, b: int): int requires b > 0 { (a + b - 1) / b }

  /* ---------------------------------------------------------------- atoms */

  function ClipStart(b: Bucket, from: int): int { Max(b.startMs, from) }

  function ClipEnd(b: Bucket, to: Option<int>, bucketMs: int): int {
    match to
    case None => b.startMs + bucketMs
    case Some(end) => Min(b.startMs + bucketMs, end)
  }

  /** The bucket has events and a moment inside the range. */
  predicate Meets(b: Bucket, from: int, to: Option<int>, bucketMs: int) {
    b.events > 0 && ClipStart(b, from) < ClipEnd(b, to, bucketMs)
  }

  function Parts(b: Bucket, from: int, to: Option<int>, limits: Limits): (parts: int)
    requires LimitsOk(limits) && Meets(b, from, to, limits.bucketMs)
  {
    Min(CeilDiv(b.events, limits.maxEvents), ClipEnd(b, to, limits.bucketMs) - ClipStart(b, from))
  }

  function AtomAt(start: int, len: int, events: int, parts: int, i: int): Atom
    requires parts > 0
  {
    Atom(start + i * len / parts, start + (i + 1) * len / parts, (i + 1) * events / parts - i * events / parts)
  }

  function AtomsOf(b: Bucket, from: int, to: Option<int>, limits: Limits): seq<Atom>
    requires LimitsOk(limits)
  {
    if !Meets(b, from, to, limits.bucketMs) then []
    else
      var start, end := ClipStart(b, from), ClipEnd(b, to, limits.bucketMs);
      var parts := Parts(b, from, to, limits);
      PartsBounds(b, from, to, limits);
      seq(parts, i => AtomAt(start, end - start, b.events, parts, i))
  }

  function AllAtoms(buckets: seq<Bucket>, from: int, to: Option<int>, limits: Limits): seq<Atom>
    requires LimitsOk(limits)
  {
    if buckets == [] then []
    else AtomsOf(buckets[0], from, to, limits) + AllAtoms(buckets[1..], from, to, limits)
  }

  function SumEvents(atoms: seq<Atom>): int {
    if atoms == [] then 0 else SumEvents(atoms[..|atoms| - 1]) + atoms[|atoms| - 1].events
  }

  /** The counted events of the buckets that meet the range. */
  function MetEvents(buckets: seq<Bucket>, from: int, to: Option<int>, bucketMs: int): int {
    if buckets == [] then 0
    else
      var first := if Meets(buckets[0], from, to, bucketMs) then buckets[0].events else 0;
      first + MetEvents(buckets[1..], from, to, bucketMs)
  }

  /** Consecutive, apart, each at least a millisecond long and holding an event. */
  ghost predicate Chain(atoms: seq<Atom>) {
    && (forall i | 0 <= i < |atoms| :: atoms[i].startMs < atoms[i].endMs && atoms[i].events >= 1)
    && (forall i, j | 0 <= i < j < |atoms| :: atoms[i].endMs <= atoms[j].startMs)
  }

  /** Holds more events than the limit only when it cannot be cut any shorter. */
  ghost predicate SmallAtoms(atoms: seq<Atom>, limits: Limits) {
    forall i | 0 <= i < |atoms| ::
      atoms[i].events <= limits.maxEvents || atoms[i].endMs - atoms[i].startMs == 1
  }

  ghost predicate Inside(atoms: seq<Atom>, lo: int, hi: int) {
    forall i | 0 <= i < |atoms| :: lo <= atoms[i].startMs && atoms[i].endMs <= hi
  }

  lemma {:induction false} DivAtLeast(a: int, m: int, q: int)
    requires m > 0 && a >= q * m
    ensures a / m >= q
  {
    assert a == m * (a / m) + a % m;
    if a / m < q {
      MulMono(a / m + 1, q, m);
    }
  }

  lemma {:induction false} MulMono(a: int, b: int, m: int)
    requires a <= b && m >= 0
    ensures a * m <= b * m
  {}

  lemma {:induction false} DivAtMost(a: int, m: int, q: int)
    requires m > 0 && a < (q + 1) * m
    ensures a / m <= q
  {
    assert a == m * (a / m) + a % m;
    if a / m > q {
      MulMono(q + 1, a / m, m);
    }
  }

  lemma {:induction false} PartsBounds(b: Bucket, from: int, to: Option<int>, limits: Limits)
    requires LimitsOk(limits) && Meets(b, from, to, limits.bucketMs)
    ensures var parts := Parts(b, from, to, limits);
      var len := ClipEnd(b, to, limits.bucketMs) - ClipStart(b, from);
      1 <= parts <= len && parts <= b.events
      && (b.events <= limits.maxEvents * parts || parts == len)
  {
    var m, c := limits.maxEvents, CeilDiv(b.events, limits.maxEvents);
    DivAtLeast(b.events + m - 1, m, 1);
    assert b.events + m - 1 < (b.events + 1) * m by {
      assert (b.events + 1) * m == b.events * m + m;
      MulMono(1, m, b.events);
    }
    DivAtMost(b.events + m - 1, m, b.events);
    assert b.events + m - 1 == m * c + (b.events + m - 1) % m;
  }

  /** One part more is at least one unit more, when there are no more parts than units. */
  lemma {:induction false} PartStep(len: int, parts: int, i: int)
    requires 1 <= parts <= len && 0 <= i
    ensures i * len / parts + 1 <= (i + 1) * len / parts
  {
    var q := i * len / parts;
    assert i * len == parts * q + i * len % parts;
    assert (i + 1) * len == i * len + len;
    assert (q + 1) * parts == parts * q + parts;
    DivAtLeast((i + 1) * len, parts, q + 1);
  }

  /** One part more is at most `m` events more, when `m` per part is enough. */
  lemma {:induction false} PartEvents(events: int, parts: int, m: int, i: int)
    requires parts >= 1 && 0 <= events <= m * parts && 0 <= i
    ensures (i + 1) * events / parts - i * events / parts <= m
  {
    var q := i * events / parts;
    assert i * events == parts * q + i * events % parts;
    assert (i + 1) * events == i * events + events;
    assert (q + m + 1) * parts == parts * q + parts + m * parts;
    DivAtMost((i + 1) * events, parts, q + m);
  }

  /** The part starts never decrease. */
  lemma {:induction false} PartOrder(len: int, parts: int, i: int, j: int)
    requires 1 <= parts <= len && 0 <= i <= j
    ensures i * len / parts <= j * len / parts
    decreases j - i
  {
    if i < j {
      PartStep(len, parts, i);
      PartOrder(len, parts, i + 1, j);
    }
  }

  lemma {:induction false} PartsSum(start: int, len: int, events: int, parts: int, k: nat)
    requires parts >= 1
    ensures SumEvents(seq(k, i => AtomAt(start, len, events, parts, i))) == k * events / parts
  {
    var atoms := seq(k, i => AtomAt(start, len, events, parts, i));
    if k > 0 {
      assert atoms[..k - 1] == seq(k - 1, i => AtomAt(start, len, events, parts, i));
      PartsSum(start, len, events, parts, k - 1);
    }
  }

  lemma {:induction false} PartTime(len: int, parts: int, i: nat)
    requires 1 <= parts <= len && i < parts
    ensures 0 <= i * len / parts < (i + 1) * len / parts <= len
  {
    PartStep(len, parts, i);
    PartOrder(len, parts, 0, i);
    PartOrder(len, parts, i + 1, parts);
    DivExact(parts, len);
  }

  lemma {:induction false} OneMillisecond(len: int, i: nat)
    requires len >= 1
    ensures (i + 1) * len / len - i * len / len == 1
  {
    DivExact(len, i);
    DivExact(len, i + 1);
  }

  /** One part of a bucket: at least a millisecond and an event; over the limit only when it is a single millisecond. */
  lemma {:induction false} PartOk(start: int, len: int, events: int, parts: int, m: int, i: nat)
    requires 1 <= parts <= len && parts <= events && i < parts && (events <= m * parts || parts == len)
    ensures var a := AtomAt(start, len, events, parts, i);
      && start <= a.startMs < a.endMs <= start + len && a.events >= 1
      && (a.events <= m || a.endMs - a.startMs == 1)
  {
    PartTime(len, parts, i);
    PartTime(events, parts, i);
    if parts == len {
      OneMillisecond(len, i);
    } else {
      PartEvents(events, parts, m, i);
    }
  }

  /**
   * The atoms of one bucket: a chain inside the clipped bucket, holding exactly its events, small where they can be.
   */
  lemma {:induction false} BucketAtoms(b: Bucket, from: int, to: Option<int>, limits: Limits)
    requires LimitsOk(limits)
    ensures var atoms := AtomsOf(b, from, to, limits);
      && Chain(atoms) && SmallAtoms(atoms, limits)
      && Inside(atoms, ClipStart(b, from), ClipEnd(b, to, limits.bucketMs))
      && SumEvents(atoms) == (if Meets(b, from, to, limits.bucketMs) then b.events else 0)
      && (Meets(b, from, to, limits.bucketMs) ==> |atoms| >= 1)
  {
    if Meets(b, from, to, limits.bucketMs) {
      var start, len := ClipStart(b, from), ClipEnd(b, to, limits.bucketMs) - ClipStart(b, from);
      var parts, atoms := Parts(b, from, to, limits), AtomsOf(b, from, to, limits);
      PartsBounds(b, from, to, limits);
      forall i | 0 <= i < parts
        ensures start <= atoms[i].startMs < atoms[i].endMs <= start + len && atoms[i].events >= 1
        ensures atoms[i].events <= limits.maxEvents || atoms[i].endMs - atoms[i].startMs == 1
      {
        PartOk(start, len, b.events, parts, limits.maxEvents, i);
      }
      forall i, j | 0 <= i < j < parts ensures atoms[i].endMs <= atoms[j].startMs {
        PartOrder(len, parts, i + 1, j);
      }
      PartsSum(start, len, b.events, parts, parts);
      DivExact(parts, b.events);
    }
  }

  lemma {:induction false} DivStep(x: int, e: int, p: int)
    requires p > 0
    ensures e / p <= (x + e) / p - x / p <= e / p + 1
  {
    var q, s := x / p, e / p;
    assert x == p * q + x % p && e == p * s + e % p;
    assert (q + s) * p == p * q + p * s && (q + s + 2) * p == p * q + p * s + 2 * p;
    DivAtLeast(x + e, p, q + s);
    DivAtMost(x + e, p, q + s + 1);
  }

  /** An atom has its even share of the time and of the events, to within one. */
  predicate EvenShare(a: Atom, len: int, events: int, parts: int)
    requires parts > 0
  {
    len / parts <= a.endMs - a.startMs <= len / parts + 1 && events / parts <= a.events <= events / parts + 1
  }

  lemma {:induction false} AtomIsEven(start: int, len: int, events: int, parts: int, i: int)
    requires parts > 0
    ensures EvenShare(AtomAt(start, len, events, parts, i), len, events, parts)
  {
    DivStep(i * len, len, parts);
    DivStep(i * events, events, parts);
    assert (i + 1) * len == i * len + len && (i + 1) * events == i * events + events;
  }

  /** The atoms of a bucket tile its clipped part, evenly. */
  lemma {:induction false} AtomsTile(b: Bucket, from: int, to: Option<int>, limits: Limits)
    requires LimitsOk(limits) && Meets(b, from, to, limits.bucketMs)
    ensures var atoms := AtomsOf(b, from, to, limits);
      && |atoms| >= 1 && atoms[0].startMs == ClipStart(b, from)
      && atoms[|atoms| - 1].endMs == ClipEnd(b, to, limits.bucketMs)
      && (forall i | 0 <= i < |atoms| - 1 :: atoms[i].endMs == atoms[i + 1].startMs)
      && forall i | 0 <= i < |atoms| ::
           EvenShare(atoms[i], ClipEnd(b, to, limits.bucketMs) - ClipStart(b, from), b.events, |atoms|)
  {
    var start, len := ClipStart(b, from), ClipEnd(b, to, limits.bucketMs) - ClipStart(b, from);
    var parts := Parts(b, from, to, limits);
    PartsBounds(b, from, to, limits);
    DivExact(parts, len);
    DivExact(parts, 0);
    forall i | 0 <= i < parts ensures EvenShare(AtomAt(start, len, b.events, parts, i), len, b.events, parts) {
      AtomIsEven(start, len, b.events, parts, i);
    }
  }

  lemma {:induction false} DivExact(m: int, q: int)
    requires m > 0
    ensures m * q / m == q && q * m / m == q
  {
    var p := q * m;
    assert p == m * q && (q + 1) * m == p + m;
    DivAtLeast(p, m, q);
    DivAtMost(p, m, q);
  }

  /* ---------------------------------------------------------------- the sorted buckets */

  ghost predicate Disjoint(buckets: seq<Bucket>, bucketMs: int) {
    forall i, j | 0 <= i < j < |buckets| ::
      buckets[i].startMs + bucketMs <= buckets[j].startMs || buckets[j].startMs + bucketMs <= buckets[i].startMs
  }

  ghost predicate Spaced(buckets: seq<Bucket>, bucketMs: int) {
    forall i, j | 0 <= i < j < |buckets| :: buckets[i].startMs + bucketMs <= buckets[j].startMs
  }

  function Insert(b: Bucket, sorted: seq<Bucket>): (r: seq<Bucket>)
    ensures multiset(r) == multiset{b} + multiset(sorted)
  {
    if sorted == [] || b.startMs <= sorted[0].startMs then [b] + sorted
    else
      assert sorted == [sorted[0]] + sorted[1..];
      [sorted[0]] + Insert(b, sorted[1..])
  }

  /** `[...buckets].sort((a, b) => a.startMs - b.startMs)`, stable. */
  function Sorted(buckets: seq<Bucket>): (r: seq<Bucket>)
    ensures multiset(r) == multiset(buckets)
  {
    if buckets == [] then []
    else
      assert buckets == [buckets[0]] + buckets[1..];
      Insert(buckets[0], Sorted(buckets[1..]))
  }

  lemma {:induction false} SameElements<T>(a: seq<T>, b: seq<T>, x: T)
    requires multiset(a) == multiset(b)
    ensures x in a <==> x in b
  {
    assert x in a <==> x in multiset(a);
    assert x in b <==> x in multiset(b);
  }

  lemma {:induction false} InsertedFrom(b: Bucket, sorted: seq<Bucket>, x: Bucket)
    requires x in Insert(b, sorted)
    ensures x == b || x in sorted
  {
    assert x in multiset(Insert(b, sorted));
  }

  lemma {:induction false} InsertSpaced(b: Bucket, sorted: seq<Bucket>, bucketMs: int)
    requires bucketMs >= 1 && Spaced(sorted, bucketMs)
    requires forall x | x in sorted :: b.startMs + bucketMs <= x.startMs || x.startMs + bucketMs <= b.startMs
    ensures Spaced(Insert(b, sorted), bucketMs)
  {
    if sorted == [] {
    } else if b.startMs <= sorted[0].startMs {
      forall x | x in sorted ensures b.startMs + bucketMs <= x.startMs {
        var k :| 0 <= k < |sorted| && sorted[k] == x;
        assert k == 0 || sorted[0].startMs + bucketMs <= sorted[k].startMs;
      }
      SpacedFrom(b, sorted, bucketMs);
    } else {
      assert sorted[0] in sorted;
      forall x | x in sorted[1..] ensures x in sorted && sorted[0].startMs + bucketMs <= x.startMs {
        var k :| 1 <= k < |sorted| && sorted[k] == x;
      }
      InsertSpaced(b, sorted[1..], bucketMs);
      var rest := Insert(b, sorted[1..]);
      forall x | x in rest ensures sorted[0].startMs + bucketMs <= x.startMs {
        InsertedFrom(b, sorted[1..], x);
      }
      SpacedFrom(sorted[0], rest, bucketMs);
    }
  }

  lemma {:induction false} SpacedFrom(b: Bucket, rest: seq<Bucket>, bucketMs: int)
    requires Spaced(rest, bucketMs) && forall x | x in rest :: b.startMs + bucketMs <= x.startMs
    ensures Spaced([b] + rest, bucketMs)
  {
  }

  lemma {:induction false} SortedSpaced(buckets: seq<Bucket>, bucketMs: int)
    requires bucketMs >= 1 && Disjoint(buckets, bucketMs)
    ensures Spaced(Sorted(buckets), bucketMs)
  {
    if buckets != [] {
      SortedSpaced(buckets[1..], bucketMs);
      var rest := Sorted(buckets[1..]);
      forall x | x in rest
        ensures buckets[0].startMs + bucketMs <= x.startMs || x.startMs + bucketMs <= buckets[0].startMs
      {
        SameElements(rest, buckets[1..], x);
      }
      InsertSpaced(buckets[0], rest, bucketMs);
    }
  }

  lemma {:induction false} InsertMet(b: Bucket, sorted: seq<Bucket>, from: int, to: Option<int>, bucketMs: int)
    ensures MetEvents(Insert(b, sorted), from, to, bucketMs)
         == MetEvents([b], from, to, bucketMs) + MetEvents(sorted, from, to, bucketMs)
  {
    if sorted == [] || b.startMs <= sorted[0].startMs {
      assert ([b] + sorted)[1..] == sorted;
    } else {
      InsertMet(b, sorted[1..], from, to, bucketMs);
      assert ([sorted[0]] + Insert(b, sorted[1..]))[1..] == Insert(b, sorted[1..]);
    }
  }

  lemma {:induction false} SortedMet(buckets: seq<Bucket>, from: int, to: Option<int>, bucketMs: int)
    ensures MetEvents(Sorted(buckets), from, to, bucketMs) == MetEvents(buckets, from, to, bucketMs)
  {
    if buckets != [] {
      SortedMet(buckets[1..], from, to, bucketMs);
      InsertMet(buckets[0], Sorted(buckets[1..]), from, to, bucketMs);
    }
  }

  lemma {:induction false} SumConcat(a: seq<Atom>, b: seq<Atom>)
    ensures SumEvents(a + b) == SumEvents(a) + SumEvents(b)
  {
    if b == [] {
      assert a + b == a;
    } else {
      assert (a + b)[..|a + b| - 1] == a + b[..|b| - 1];
      SumConcat(a, b[..|b| - 1]);
    }
  }

  lemma {:induction false} ChainConcat(a: seq<Atom>, b: seq<Atom>, limits: Limits)
    requires Chain(a) && Chain(b) && SmallAtoms(a, limits) && SmallAtoms(b, limits)
    requires forall i, j | 0 <= i < |a| && 0 <= j < |b| :: a[i].endMs <= b[j].startMs
    ensures Chain(a + b) && SmallAtoms(a + b, limits)
  {
    var c := a + b;
    forall i, j | 0 <= i < j < |c| ensures c[i].endMs <= c[j].startMs {
      if i < |a| <= j {
        assert c[i] == a[i] && c[j] == b[j - |a|];
      }
    }
  }

  /** An upper bound of the ends of the atoms: the end of the range, or of the last bucket. */
  function LastEnd(sorted: seq<Bucket>, to: Option<int>, bucketMs: int): int
    requires sorted != []
  {
    var end := sorted[|sorted| - 1].startMs + bucketMs;
    match to
    case None => end
    case Some(t) => Min(end, t)
  }

  lemma {:induction false} AtomsSum(sorted: seq<Bucket>, from: int, to: Option<int>, limits: Limits)
    requires LimitsOk(limits)
    ensures SumEvents(AllAtoms(sorted, from, to, limits)) == MetEvents(sorted, from, to, limits.bucketMs)
  {
    if sorted != [] {
      BucketAtoms(sorted[0], from, to, limits);
      AtomsSum(sorted[1..], from, to, limits);
      SumConcat(AtomsOf(sorted[0], from, to, limits), AllAtoms(sorted[1..], from, to, limits));
    }
  }

  lemma {:induction false} SumAtMost(cut: seq<Atom>, most: int)
    requires forall i | 0 <= i < |cut| :: cut[i].events <= most
    ensures SumEvents(cut) <= |cut| * most
    decreases |cut|
  {
    if cut != [] {
      SumAtMost(cut[..|cut| - 1], most);
      assert |cut| * most == (|cut| - 1) * most + most;
    }
  }

  /** No fewer atoms hold the bucket's events within the limit. */
  lemma {:induction false} FewestAtoms(b: Bucket, from: int, to: Option<int>, limits: Limits, cut: seq<Atom>)
    requires LimitsOk(limits) && Meets(b, from, to, limits.bucketMs) && SumEvents(cut) == b.events
    requires forall i | 0 <= i < |cut| :: cut[i].events <= limits.maxEvents
    ensures |cut| >= |AtomsOf(b, from, to, limits)|
  {
    SumAtMost(cut, limits.maxEvents);
    PartsNeeded(b.events, limits.maxEvents, |cut|);
  }

  lemma {:induction false} PartsNeeded(events: int, most: int, n: int)
    requires most >= 1 && events <= n * most
    ensures CeilDiv(events, most) <= n
  {
    var c := CeilDiv(events, most);
    assert events + most - 1 == most * c + (events + most - 1) % most;
    assert (n + 1) * most == n * most + most;
    if c > n { MulMono(n + 1, c, most); }
  }

  lemma {:induction false} AtomsOfMet(sorted: seq<Bucket>, from: int, to: Option<int>, limits: Limits, b: Bucket)
    requires LimitsOk(limits) && b in sorted && Meets(b, from, to, limits.bucketMs)
    ensures AllAtoms(sorted, from, to, limits) != []
  {
    if b == sorted[0] {
      BucketAtoms(b, from, to, limits);
    } else {
      AtomsOfMet(sorted[1..], from, to, limits, b);
    }
  }

  lemma {:induction false} SpacedTail(sorted: seq<Bucket>, to: Option<int>, bucketMs: int)
    requires bucketMs >= 1 && Spaced(sorted, bucketMs) && |sorted| > 1
    ensures Spaced(sorted[1..], bucketMs)
    ensures sorted[0].startMs + bucketMs <= sorted[1].startMs
    ensures LastEnd(sorted[1..], to, bucketMs) == LastEnd(sorted, to, bucketMs)
    ensures sorted[0].startMs + bucketMs <= sorted[|sorted| - 1].startMs
  {
  }

  /** All the atoms: one chain inside the range. */
  lemma {:induction false} AtomsChain(sorted: seq<Bucket>, from: int, to: Option<int>, limits: Limits)
    requires LimitsOk(limits) && Spaced(sorted, limits.bucketMs)
    ensures var atoms := AllAtoms(sorted, from, to, limits);
      && Chain(atoms) && SmallAtoms(atoms, limits)
      && (sorted != [] ==> Inside(atoms, Max(sorted[0].startMs, from), LastEnd(sorted, to, limits.bucketMs)))
  {
    if sorted == [] {
    } else if |sorted| == 1 {
      BucketAtoms(sorted[0], from, to, limits);
      var head, rest := AtomsOf(sorted[0], from, to, limits), AllAtoms(sorted[1..], from, to, limits);
      assert rest == [] && head + rest == head;
    } else {
      var head, rest := AtomsOf(sorted[0], from, to, limits), AllAtoms(sorted[1..], from, to, limits);
      SpacedTail(sorted, to, limits.bucketMs);
      BucketAtoms(sorted[0], from, to, limits);
      AtomsChain(sorted[1..], from, to, limits);
      JoinAtoms(head, rest, Max(sorted[0].startMs, from), ClipEnd(sorted[0], to, limits.bucketMs),
                Max(sorted[1].startMs, from), LastEnd(sorted, to, limits.bucketMs), limits);
    }
  }

  lemma {:induction false} JoinAtoms(a: seq<Atom>, b: seq<Atom>, lo: int, mid: int, mid': int, hi: int, limits: Limits)
    requires Chain(a) && Chain(b) && SmallAtoms(a, limits) && SmallAtoms(b, limits)
    requires Inside(a, lo, mid) && Inside(b, mid', hi) && lo <= mid' && mid <= mid' && mid <= hi
    ensures Chain(a + b) && SmallAtoms(a + b, limits) && Inside(a + b, lo, hi)
  {
    forall i, j | 0 <= i < |a| && 0 <= j < |b| ensures a[i].endMs <= b[j].startMs {
      assert a[i].endMs <= mid <= mid' <= b[j].startMs;
    }
    ChainConcat(a, b, limits);
  }

  /* ---------------------------------------------------------------- cuts */

  /** A cut of `n` atoms into consecutive groups, as the index each group ends at (one empty group when `n` is 0). */
  ghost predicate IsCut(n: nat, ends: seq<nat>) {
    && |ends| >= 1 && ends[|ends| - 1] == n
    && (forall i, j | 0 <= i < j < |ends| :: ends[i] < ends[j])
    && (n > 0 ==> ends[0] > 0)
  }

  function Begin(ends: seq<nat>, i: nat): nat
    requires i <= |ends|
  {
    if i == 0 then 0 else ends[i - 1]
  }

  ghost predicate WithinLimits(atoms: seq<Atom>, lo: nat, hi: nat, limits: Limits)
    requires lo < hi <= |atoms|
  {
    SumEvents(atoms[lo..hi]) <= limits.maxEvents && atoms[hi - 1].endMs - atoms[lo].startMs <= limits.maxSpanMs
  }

  /** A group of two atoms or more is within the limits; one atom is always allowed. */
  ghost predicate GroupOk(atoms: seq<Atom>, lo: nat, hi: nat, limits: Limits) {
    lo < hi <= |atoms| && (hi - lo == 1 || WithinLimits(atoms, lo, hi, limits))
  }

  ghost predicate GroupAt(atoms: seq<Atom>, ends: seq<nat>, i: nat, limits: Limits)
    requires i < |ends|
  {
    GroupOk(atoms, Begin(ends, i), ends[i], limits)
  }

  /** The group could not have taken the next atom. */
  ghost predicate FullAt(atoms: seq<Atom>, ends: seq<nat>, i: nat, limits: Limits)
    requires i < |ends|
  {
    && GroupAt(atoms, ends, i, limits) && ends[i] < |atoms|
    && !WithinLimits(atoms, Begin(ends, i), ends[i] + 1, limits)
  }

  ghost predicate FeasibleCut(atoms: seq<Atom>, ends: seq<nat>, limits: Limits) {
    && IsCut(|atoms|, ends)
    && (atoms != [] ==> forall i | 0 <= i < |ends| :: GroupAt(atoms, ends, i, limits))
  }

  ghost predicate GreedyCut(atoms: seq<Atom>, ends: seq<nat>, limits: Limits) {
    && FeasibleCut(atoms, ends, limits)
    && forall i | 0 <= i < |ends| - 1 :: FullAt(atoms, ends, i, limits)
  }

  lemma {:induction false} SumMono(atoms: seq<Atom>, lo: nat, lo': nat, hi': nat, hi: nat)
    requires Chain(atoms) && lo <= lo' <= hi' <= hi <= |atoms|
    ensures 0 <= SumEvents(atoms[lo'..hi']) <= SumEvents(atoms[lo..hi])
  {
    SumNonNeg(atoms[lo..lo']);
    SumNonNeg(atoms[lo'..hi']);
    SumNonNeg(atoms[hi'..hi]);
    assert atoms[lo..hi] == atoms[lo..lo'] + (atoms[lo'..hi'] + atoms[hi'..hi]);
    SumConcat(atoms[lo..lo'], atoms[lo'..hi'] + atoms[hi'..hi]);
    SumConcat(atoms[lo'..hi'], atoms[hi'..hi]);
  }

  lemma {:induction false} SumNonNeg(atoms: seq<Atom>)
    requires forall i | 0 <= i < |atoms| :: atoms[i].events >= 1
    ensures SumEvents(atoms) >= |atoms|
  {
    if atoms != [] { SumNonNeg(atoms[..|atoms| - 1]); }
  }

  /** A part of a group within the limits is within the limits. */
  lemma {:induction false} LimitsShrink(atoms: seq<Atom>, lo: nat, lo': nat, hi': nat, hi: nat, limits: Limits)
    requires Chain(atoms) && lo <= lo' < hi' <= hi <= |atoms|
    requires WithinLimits(atoms, lo, hi, limits)
    ensures WithinLimits(atoms, lo', hi', limits)
  {
    SumMono(atoms, lo, lo', hi', hi);
  }

  /** A group that reaches further than a greedy one, starting no later, would be over the limits. */
  lemma {:induction false} CannotReachFurther(atoms: seq<Atom>, a: nat, b: nat, c: nat, d: nat, limits: Limits)
    requires Chain(atoms) && c <= a < b < d <= |atoms|
    requires !WithinLimits(atoms, a, b + 1, limits)
    ensures !GroupOk(atoms, c, d, limits)
  {
    if WithinLimits(atoms, c, d, limits) {
      LimitsShrink(atoms, c, a, b + 1, d, limits);
    }
  }

  /**
   * The greedy cut stays ahead: its first k groups cover at least what the first k groups of any feasible cut cover.
   */
  lemma {:induction false} GreedyAhead(atoms: seq<Atom>, greedy: seq<nat>, other: seq<nat>, limits: Limits, k: nat)
    requires Chain(atoms) && atoms != [] && GreedyCut(atoms, greedy, limits) && FeasibleCut(atoms, other, limits)
    requires k <= |greedy| && k <= |other|
    ensures Begin(greedy, k) >= Begin(other, k)
  {
    if k > 0 {
      GreedyAhead(atoms, greedy, other, limits, k - 1);
      var a, b, c, d := Begin(greedy, k - 1), greedy[k - 1], Begin(other, k - 1), other[k - 1];
      assert GroupAt(atoms, greedy, k - 1, limits) && GroupAt(atoms, other, k - 1, limits);
      if b < d {
        assert FullAt(atoms, greedy, k - 1, limits);
        CannotReachFurther(atoms, a, b, c, d, limits);
      }
    }
  }

  /** So no feasible cut of the same atoms has fewer groups. */
  lemma {:induction false} GreedyIsFewest(atoms: seq<Atom>, greedy: seq<nat>, other: seq<nat>, limits: Limits)
    requires Chain(atoms) && GreedyCut(atoms, greedy, limits) && FeasibleCut(atoms, other, limits)
    ensures |greedy| <= |other|
  {
    if |other| < |greedy| {
      assert greedy[|other| - 1] < greedy[|greedy| - 1] == |atoms|;
      if atoms != [] {
        GreedyAhead(atoms, greedy, other, limits, |other|);
      }
    }
  }

  /* ---------------------------------------------------------------- plans */

  /**
   * The ranges of a cut: each starts at its first atom (the first one at `from`) and ends where the next one starts.
   */
  ghost function RangeAt(atoms: seq<Atom>, ends: seq<nat>, from: int, to: Option<int>, i: nat): Planned
    requires IsCut(|atoms|, ends) && i < |ends|
  {
    Planned(
      if i == 0 then from else atoms[ends[i - 1]].startMs,
      if i == |ends| - 1 then to else Some(atoms[ends[i]].startMs),
      SumEvents(atoms[Begin(ends, i)..ends[i]]))
  }

  ghost predicate PlanOf(atoms: seq<Atom>, ends: seq<nat>, from: int, to: Option<int>, planned: seq<Planned>) {
    && IsCut(|atoms|, ends) && |planned| == |ends|
    && forall i | 0 <= i < |ends| :: planned[i] == RangeAt(atoms, ends, from, to, i)
  }

  /** What `PlanRanges` returns: the plan of a greedy cut of the atoms. */
  ghost predicate IsPlan(from: int, to: Option<int>, buckets: seq<Bucket>, limits: Limits, planned: seq<Planned>,
                         ends: seq<nat>)
    requires LimitsOk(limits)
  {
    var atoms := AllAtoms(Sorted(buckets), from, to, limits);
    PlanOf(atoms, ends, from, to, planned) && GreedyCut(atoms, ends, limits)
  }

  function TotalEvents(planned: seq<Planned>): int {
    if planned == [] then 0 else TotalEvents(planned[..|planned| - 1]) + planned[|planned| - 1].events
  }

  predicate NonEmpty(p: Planned) { p.to.None? || p.from < p.to.value }

  /** Consecutive ranges from `from` to `to`, none empty when the range itself is not. */
  ghost predicate ExactCover(from: int, to: Option<int>, planned: seq<Planned>) {
    && |planned| >= 1 && planned[0].from == from && planned[|planned| - 1].to == to
    && (forall i | 0 <= i < |planned| - 1 :: planned[i].to == Some(planned[i + 1].from))
    && (to.None? || from < to.value ==> forall i | 0 <= i < |planned| :: NonEmpty(planned[i]))
  }

  /** The groups closed so far, and their ranges: each is over the limits with the next atom. */
  ghost predicate Closed(atoms: seq<Atom>, ends: seq<nat>, planned: seq<Planned>, from: int, limits: Limits) {
    && |ends| == |planned|
    && (forall i, j | 0 <= i < j < |ends| :: ends[i] < ends[j])
    && (forall i | 0 <= i < |ends| :: ClosedAt(atoms, ends, planned, from, limits, i))
  }

  ghost predicate ClosedAt(atoms: seq<Atom>, ends: seq<nat>, planned: seq<Planned>, from: int, limits: Limits, i: nat)
    requires i < |ends| == |planned|
  {
    && FullAt(atoms, ends, i, limits)
    && planned[i] == Planned(StartOf(atoms, ends, from, i), Some(atoms[ends[i]].startMs),
                             SumEvents(atoms[Begin(ends, i)..ends[i]]))
  }

  function StartOf(atoms: seq<Atom>, ends: seq<nat>, from: int, i: nat): int
    requires i <= |ends|
  {
    if i == 0 then from else if ends[i - 1] < |atoms| then atoms[ends[i - 1]].startMs else from
  }

  /** A group closed before stays so when another one is. */
  lemma {:induction false} ClosedBefore(atoms: seq<Atom>, ends: seq<nat>, planned: seq<Planned>, from: int,
                                        limits: Limits, k: nat, part: Planned, i: nat)
    requires i < |ends| == |planned| && ClosedAt(atoms, ends, planned, from, limits, i)
    ensures ClosedAt(atoms, ends + [k], planned + [part], from, limits, i)
  {
  }

  lemma {:induction false} ClosedNow(atoms: seq<Atom>, ends: seq<nat>, planned: seq<Planned>, from: int,
                                     limits: Limits, k: nat, part: Planned)
    requires |ends| == |planned| && k < |atoms| && GroupOk(atoms, Begin(ends, |ends|), k, limits)
    requires !WithinLimits(atoms, Begin(ends, |ends|), k + 1, limits)
    requires part == Planned(StartOf(atoms, ends, from, |ends|), Some(atoms[k].startMs),
                             SumEvents(atoms[Begin(ends, |ends|)..k]))
    ensures ClosedAt(atoms, ends + [k], planned + [part], from, limits, |ends|)
  {
    assert Begin(ends + [k], |ends|) == Begin(ends, |ends|);
  }

  lemma {:induction false} CloseGroup(atoms: seq<Atom>, ends: seq<nat>, planned: seq<Planned>, from: int,
                                      limits: Limits, k: nat)
    requires Closed(atoms, ends, planned, from, limits)
    requires k < |atoms| && GroupOk(atoms, Begin(ends, |ends|), k, limits)
    requires !WithinLimits(atoms, Begin(ends, |ends|), k + 1, limits)
    ensures Closed(atoms, ends + [k],
                   planned + [Planned(StartOf(atoms, ends, from, |ends|), Some(atoms[k].startMs),
                                      SumEvents(atoms[Begin(ends, |ends|)..k]))], from, limits)
  {
    var part := Planned(StartOf(atoms, ends, from, |ends|), Some(atoms[k].startMs),
                        SumEvents(atoms[Begin(ends, |ends|)..k]));
    forall i | 0 <= i < |ends| + 1 ensures ClosedAt(atoms, ends + [k], planned + [part], from, limits, i) {
      if i < |ends| {
        ClosedBefore(atoms, ends, planned, from, limits, k, part, i);
      } else {
        ClosedNow(atoms, ends, planned, from, limits, k, part);
      }
    }
    AppendAscending(ends, k);
  }

  lemma {:induction false} AppendAscending(ends: seq<nat>, k: nat)
    requires forall i, j | 0 <= i < j < |ends| :: ends[i] < ends[j]
    requires Begin(ends, |ends|) < k || ends == []
    ensures var e := ends + [k]; forall i, j | 0 <= i < j < |e| :: e[i] < e[j]
  {
    var e := ends + [k];
    forall i, j | 0 <= i < j < |e| ensures e[i] < e[j] {
      if j == |ends| && i < |ends| - 1 {
        assert ends[i] < ends[|ends| - 1];
      }
    }
  }

  lemma {:induction false} AddAtom(atoms: seq<Atom>, lo: nat, k: nat)
    requires lo <= k < |atoms|
    ensures SumEvents(atoms[lo..k + 1]) == SumEvents(atoms[lo..k]) + atoms[k].events
  {
    assert atoms[lo..k + 1][..k - lo] == atoms[lo..k];
  }

  /** The loop of `planRanges`. The ghost result is the cut the ranges come from. */
  method PlanRanges(from: int, to: Option<int>, buckets: seq<Bucket>, limits: Limits)
    returns (planned: seq<Planned>, ghost ends: seq<nat>)
    requires LimitsOk(limits) && Disjoint(buckets, limits.bucketMs)
    ensures IsPlan(from, to, buckets, limits, planned, ends)
    ensures ExactCover(from, to, planned)
    ensures TotalEvents(planned) == MetEvents(buckets, from, to, limits.bucketMs)
  {
    var atoms := AllAtoms(Sorted(buckets), from, to, limits);
    SortedAtoms(buckets, from, to, limits);
    planned, ends := PlanAtoms(atoms, from, to, limits);
    PlanCovers(atoms, ends, from, to, planned);
    PlanSums(atoms, ends, from, to, planned);
  }

  lemma {:induction false} PlanSums(atoms: seq<Atom>, ends: seq<nat>, from: int, to: Option<int>,
                                    planned: seq<Planned>)
    requires PlanOf(atoms, ends, from, to, planned)
    ensures TotalEvents(planned) == SumEvents(atoms)
  {
    PlanTotal(atoms, ends, from, to, planned, |planned|);
    assert atoms[..|atoms|] == atoms && planned[..|planned|] == planned;
  }

  /** The atoms of all the buckets, in order. */
  lemma {:induction false} SortedAtoms(buckets: seq<Bucket>, from: int, to: Option<int>, limits: Limits)
    requires LimitsOk(limits) && Disjoint(buckets, limits.bucketMs)
    ensures var atoms := AllAtoms(Sorted(buckets), from, to, limits);
      && Chain(atoms) && SmallAtoms(atoms, limits)
      && (forall i | 0 <= i < |atoms| :: from <= atoms[i].startMs && (to.Some? ==> atoms[i].endMs <= to.value))
      && SumEvents(atoms) == MetEvents(buckets, from, to, limits.bucketMs)
  {
    var sorted := Sorted(buckets);
    SortedSpaced(buckets, limits.bucketMs);
    AtomsChain(sorted, from, to, limits);
    AtomsSum(sorted, from, to, limits);
    SortedMet(buckets, from, to, limits.bucketMs);
  }

  method PlanAtoms(atoms: seq<Atom>, from: int, to: Option<int>, limits: Limits)
    returns (planned: seq<Planned>, ghost ends: seq<nat>)
    requires Chain(atoms)
    ensures PlanOf(atoms, ends, from, to, planned) && GreedyCut(atoms, ends, limits)
  {
    planned := [];
    ends := [];
    var start, events, firstMs: Option<int> := from, 0, None;
    for k := 0 to |atoms|
      invariant Progress(atoms, ends, planned, from, limits, k, start, events, firstMs)
    {
      var atom := atoms[k];
      if events > 0 && (events + atom.events > limits.maxEvents
                        || (firstMs.Some? && atom.endMs - firstMs.value > limits.maxSpanMs)) {
        CutStep(atoms, ends, planned, from, limits, k, start, events, firstMs);
        var cut := atom.startMs;
        planned := planned + [Planned(start, Some(cut), events)];
        ends := ends + [k];
        start, events, firstMs := cut, 0, None;
      }
      KeepStep(atoms, ends, planned, from, limits, k, start, events, firstMs);
      events := events + atom.events;
      firstMs := if firstMs.None? then Some(atom.startMs) else firstMs;
    }
    LastGroup(atoms, ends, planned, from, to, limits, start, events, firstMs);
    planned := planned + [Planned(start, to, events)];
    ends := ends + [|atoms|];
  }

  /** The loop's invariant before atom `k`: the closed groups, then the one being filled, empty right after a cut. */
  ghost predicate Progress(atoms: seq<Atom>, ends: seq<nat>, planned: seq<Planned>, from: int, limits: Limits, k: nat,
                           start: int, events: int, firstMs: Option<int>)
  {
    && Closed(atoms, ends, planned, from, limits)
    && start == StartOf(atoms, ends, from, |ends|)
    && (if k == Begin(ends, |ends|) then firstMs == None && events == 0
        else OpenGroup(atoms, Begin(ends, |ends|), k, events, firstMs, limits))
  }

  lemma {:induction false} CutStep(atoms: seq<Atom>, ends: seq<nat>, planned: seq<Planned>, from: int, limits: Limits,
                                   k: nat,
                start: int, events: int, firstMs: Option<int>)
    requires Progress(atoms, ends, planned, from, limits, k, start, events, firstMs) && k < |atoms| && events > 0
    requires events + atoms[k].events > limits.maxEvents
          || (firstMs.Some? && atoms[k].endMs - firstMs.value > limits.maxSpanMs)
    ensures Progress(atoms, ends + [k], planned + [Planned(start, Some(atoms[k].startMs), events)], from, limits, k,
                     atoms[k].startMs, 0, None)
  {
    AddAtom(atoms, Begin(ends, |ends|), k);
    CloseGroup(atoms, ends, planned, from, limits, k);
  }

  lemma {:induction false} KeepStep(atoms: seq<Atom>, ends: seq<nat>, planned: seq<Planned>, from: int, limits: Limits,
                                    k: nat,
                 start: int, events: int, firstMs: Option<int>)
    requires Chain(atoms) && Progress(atoms, ends, planned, from, limits, k, start, events, firstMs) && k < |atoms|
    requires !(events > 0 && (events + atoms[k].events > limits.maxEvents
                              || (firstMs.Some? && atoms[k].endMs - firstMs.value > limits.maxSpanMs)))
    ensures Progress(atoms, ends, planned, from, limits, k + 1, start, events + atoms[k].events,
                     if firstMs.None? then Some(atoms[k].startMs) else firstMs)
  {
    ExtendGroup(atoms, Begin(ends, |ends|), k, events, firstMs, limits);
  }

  /** The group being filled. */
  ghost predicate OpenGroup(atoms: seq<Atom>, lo: nat, k: nat, events: int, firstMs: Option<int>, limits: Limits) {
    && lo < k <= |atoms| && GroupOk(atoms, lo, k, limits)
    && events == SumEvents(atoms[lo..k]) && events > 0 && firstMs == Some(atoms[lo].startMs)
  }

  lemma {:induction false} ExtendGroup(atoms: seq<Atom>, lo: nat, k: nat, events: int, firstMs: Option<int>,
                                       limits: Limits)
    requires Chain(atoms) && k < |atoms|
    requires (lo == k && events == 0 && firstMs == None)
          || (OpenGroup(atoms, lo, k, events, firstMs, limits)
              && events + atoms[k].events <= limits.maxEvents
              && atoms[k].endMs - atoms[lo].startMs <= limits.maxSpanMs)
    ensures OpenGroup(atoms, lo, k + 1, events + atoms[k].events, Some(atoms[lo].startMs), limits)
  {
    AddAtom(atoms, lo, k);
    assert atoms[k..k] == [];
  }

  /** A closed group as a range of the whole cut. */
  lemma {:induction false} ClosedRange(atoms: seq<Atom>, ends: seq<nat>, planned: seq<Planned>, from: int,
                                       to: Option<int>, limits: Limits, i: nat)
    requires Closed(atoms, ends, planned, from, limits) && i < |ends| && IsCut(|atoms|, ends + [|atoms|])
    ensures planned[i] == RangeAt(atoms, ends + [|atoms|], from, to, i)
    ensures FullAt(atoms, ends + [|atoms|], i, limits)
  {
    assert ClosedAt(atoms, ends, planned, from, limits, i);
    if i > 0 { assert ClosedAt(atoms, ends, planned, from, limits, i - 1); }
  }

  /** The group being filled, as the last range. */
  lemma {:induction false} OpenRange(atoms: seq<Atom>, ends: seq<nat>, planned: seq<Planned>, from: int,
                                     to: Option<int>, limits: Limits, start: int, events: int, firstMs: Option<int>)
    requires Progress(atoms, ends, planned, from, limits, |atoms|, start, events, firstMs)
    requires IsCut(|atoms|, ends + [|atoms|])
    ensures Planned(start, to, events) == RangeAt(atoms, ends + [|atoms|], from, to, |ends|)
    ensures atoms != [] ==> GroupAt(atoms, ends + [|atoms|], |ends|, limits)
  {
    if ends != [] { assert ClosedAt(atoms, ends, planned, from, limits, |ends| - 1); }
    assert atoms[Begin(ends, |ends|)..|atoms|] == atoms[Begin(ends, |ends|)..];
  }

  lemma {:induction false} LastEnds(atoms: seq<Atom>, ends: seq<nat>, planned: seq<Planned>, from: int,
                                    limits: Limits, start: int, events: int, firstMs: Option<int>)
    requires Progress(atoms, ends, planned, from, limits, |atoms|, start, events, firstMs)
    ensures IsCut(|atoms|, ends + [|atoms|])
  {
    if ends != [] {
      assert ClosedAt(atoms, ends, planned, from, limits, 0);
      assert ClosedAt(atoms, ends, planned, from, limits, |ends| - 1);
    }
    AppendAscending(ends, |atoms|);
  }

  lemma {:induction false} LastGroup(atoms: seq<Atom>, ends: seq<nat>, planned: seq<Planned>, from: int,
                                     to: Option<int>, limits: Limits, start: int, events: int, firstMs: Option<int>)
    requires Progress(atoms, ends, planned, from, limits, |atoms|, start, events, firstMs)
    ensures GreedyCut(atoms, ends + [|atoms|], limits)
    ensures PlanOf(atoms, ends + [|atoms|], from, to, planned + [Planned(start, to, events)])
  {
    var ends', planned' := ends + [|atoms|], planned + [Planned(start, to, events)];
    LastEnds(atoms, ends, planned, from, limits, start, events, firstMs);
    OpenRange(atoms, ends, planned, from, to, limits, start, events, firstMs);
    forall i | 0 <= i < |ends|
      ensures planned'[i] == RangeAt(atoms, ends', from, to, i) && FullAt(atoms, ends', i, limits)
    {
      ClosedRange(atoms, ends, planned, from, to, limits, i);
    }
    forall i | 0 <= i < |ends'| && atoms != [] ensures GroupAt(atoms, ends', i, limits) {
      assert i < |ends| ==> FullAt(atoms, ends', i, limits);
    }
  }

  lemma {:induction false} PlanCovers(atoms: seq<Atom>, ends: seq<nat>, from: int, to: Option<int>,
                                      planned: seq<Planned>)
    requires Chain(atoms) && PlanOf(atoms, ends, from, to, planned)
    requires forall i | 0 <= i < |atoms| :: from <= atoms[i].startMs && (to.Some? ==> atoms[i].endMs <= to.value)
    ensures ExactCover(from, to, planned)
  {
    forall i | 0 <= i < |planned| && (to.None? || from < to.value) ensures NonEmpty(planned[i]) {
      assert planned[i] == RangeAt(atoms, ends, from, to, i);
      if i < |ends| - 1 {
        assert ends[i] < ends[|ends| - 1];
        if i == 0 {
          assert atoms[0].endMs <= atoms[ends[0]].startMs;
        } else {
          assert ends[i - 1] < ends[i];
        }
      } else if i > 0 {
        assert ends[i - 1] < ends[i];
      }
    }
    forall i | 0 <= i < |planned| - 1 ensures planned[i].to == Some(planned[i + 1].from) {
      assert planned[i] == RangeAt(atoms, ends, from, to, i);
      assert planned[i + 1] == RangeAt(atoms, ends, from, to, i + 1);
    }
  }

  lemma {:induction false} PlanTotal(atoms: seq<Atom>, ends: seq<nat>, from: int, to: Option<int>,
                                     planned: seq<Planned>, k: nat)
    requires PlanOf(atoms, ends, from, to, planned) && k <= |planned|
    ensures TotalEvents(planned[..k]) == SumEvents(atoms[..Begin(ends, k)])
  {
    if k > 0 {
      PlanTotal(atoms, ends, from, to, planned, k - 1);
      var lo, hi := Begin(ends, k - 1), ends[k - 1];
      assert lo <= hi <= |atoms| by {
        if k - 1 > 0 { assert ends[k - 2] < ends[k - 1]; }
        if k < |ends| { assert ends[k - 1] < ends[|ends| - 1]; }
      }
      assert planned[k - 1] == RangeAt(atoms, ends, from, to, k - 1);
      SumUpTo(atoms, lo, hi);
      TotalUpTo(planned, k);
    }
  }

  lemma {:induction false} SumUpTo(atoms: seq<Atom>, lo: nat, hi: nat)
    requires lo <= hi <= |atoms|
    ensures SumEvents(atoms[..hi]) == SumEvents(atoms[..lo]) + SumEvents(atoms[lo..hi])
  {
    assert atoms[..hi] == atoms[..lo] + atoms[lo..hi];
    SumConcat(atoms[..lo], atoms[lo..hi]);
  }

  lemma {:induction false} TotalUpTo(planned: seq<Planned>, k: nat)
    requires 0 < k <= |planned|
    ensures TotalEvents(planned[..k]) == TotalEvents(planned[..k - 1]) + planned[k - 1].events
  {
    assert planned[..k][..k - 1] == planned[..k - 1];
  }

  /**
   * A planned range goes over a limit only when it holds a single atom; and over the number of events only when that
   * atom is one millisecond long, so no cut could make it smaller.
   */
  lemma {:induction false} RangesWithinLimits(from: int, to: Option<int>, buckets: seq<Bucket>, limits: Limits,
                                              planned: seq<Planned>,
                           ends: seq<nat>, i: nat)
    requires LimitsOk(limits) && Disjoint(buckets, limits.bucketMs)
    requires IsPlan(from, to, buckets, limits, planned, ends) && i < |planned|
    ensures var atoms := AllAtoms(Sorted(buckets), from, to, limits);
      var lo, hi := Begin(ends, i), ends[i];
      atoms != [] ==>
        && lo < hi <= |atoms|
        && (planned[i].events > limits.maxEvents ==> hi == lo + 1 && atoms[lo].endMs - atoms[lo].startMs == 1)
        && (atoms[hi - 1].endMs - atoms[lo].startMs > limits.maxSpanMs ==> hi == lo + 1)
  {
    var atoms := AllAtoms(Sorted(buckets), from, to, limits);
    SortedAtoms(buckets, from, to, limits);
    if atoms != [] {
      RangeWithinLimits(atoms, ends, from, to, limits, planned, i);
    }
  }

  lemma {:induction false} RangeWithinLimits(atoms: seq<Atom>, ends: seq<nat>, from: int, to: Option<int>,
                                             limits: Limits,
                          planned: seq<Planned>, i: nat)
    requires atoms != [] && SmallAtoms(atoms, limits)
    requires PlanOf(atoms, ends, from, to, planned) && GreedyCut(atoms, ends, limits) && i < |planned|
    ensures var lo, hi := Begin(ends, i), ends[i];
      && lo < hi <= |atoms|
      && (planned[i].events > limits.maxEvents ==> hi == lo + 1 && atoms[lo].endMs - atoms[lo].startMs == 1)
      && (atoms[hi - 1].endMs - atoms[lo].startMs > limits.maxSpanMs ==> hi == lo + 1)
  {
    var lo, hi := Begin(ends, i), ends[i];
    assert GroupAt(atoms, ends, i, limits);
    assert planned[i] == RangeAt(atoms, ends, from, to, i);
    AddAtom(atoms, lo, lo);
    assert atoms[lo..lo] == [];
  }

  /** No cut of the same atoms within the limits has fewer ranges. */
  lemma {:induction false} FewestRanges(from: int, to: Option<int>, buckets: seq<Bucket>, limits: Limits,
                                        planned: seq<Planned>,
                     ends: seq<nat>, other: seq<nat>)
    requires LimitsOk(limits) && Disjoint(buckets, limits.bucketMs)
    requires IsPlan(from, to, buckets, limits, planned, ends)
    requires FeasibleCut(AllAtoms(Sorted(buckets), from, to, limits), other, limits)
    ensures |planned| <= |other|
  {
    SortedAtoms(buckets, from, to, limits);
    GreedyIsFewest(AllAtoms(Sorted(buckets), from, to, limits), ends, other, limits);
  }

  /**
   * A range planned with no event runs no statement: that is safe, because as soon as one counted bucket meets the
   * range, every planned range counts events.
   */
  lemma {:induction false} NoRangeSkipped(from: int, to: Option<int>, buckets: seq<Bucket>, limits: Limits,
                                          planned: seq<Planned>,
                       ends: seq<nat>)
    requires LimitsOk(limits) && Disjoint(buckets, limits.bucketMs)
    requires IsPlan(from, to, buckets, limits, planned, ends)
    ensures (exists i :: 0 <= i < |planned| && planned[i].events <= 0)
       <==> (forall b | b in buckets :: !Meets(b, from, to, limits.bucketMs))
  {
    if b :| b in buckets && Meets(b, from, to, limits.bucketMs) {
      EveryRangeHasEvents(from, to, buckets, limits, planned, ends, b);
    } else {
      EmptyRangeWhole(from, to, buckets, limits, planned, ends);
      assert planned[0].events <= 0;
    }
  }

  lemma {:induction false} EveryRangeHasEvents(from: int, to: Option<int>, buckets: seq<Bucket>, limits: Limits,
                                               planned: seq<Planned>,
                            ends: seq<nat>, b: Bucket)
    requires LimitsOk(limits) && Disjoint(buckets, limits.bucketMs)
    requires IsPlan(from, to, buckets, limits, planned, ends)
    requires b in buckets && Meets(b, from, to, limits.bucketMs)
    ensures forall i | 0 <= i < |planned| :: planned[i].events > 0
  {
    var atoms := AllAtoms(Sorted(buckets), from, to, limits);
    SortedAtoms(buckets, from, to, limits);
    SameElements(Sorted(buckets), buckets, b);
    AtomsOfMet(Sorted(buckets), from, to, limits, b);
    forall i | 0 <= i < |planned| ensures planned[i].events > 0 {
      RangeHasEvents(atoms, ends, from, to, limits, planned, i);
    }
  }

  lemma {:induction false} EmptyCut(ends: seq<nat>)
    requires IsCut(0, ends)
    ensures |ends| == 1
  {
    var first, last := ends[0], ends[|ends| - 1];
  }

  /** A range with no event comes back once, whole. */
  lemma {:induction false} EmptyRangeWhole(from: int, to: Option<int>, buckets: seq<Bucket>, limits: Limits,
                                           planned: seq<Planned>,
                        ends: seq<nat>)
    requires LimitsOk(limits) && Disjoint(buckets, limits.bucketMs)
    requires IsPlan(from, to, buckets, limits, planned, ends)
    requires forall b | b in buckets :: !Meets(b, from, to, limits.bucketMs)
    ensures planned == [Planned(from, to, 0)]
  {
    var atoms := AllAtoms(Sorted(buckets), from, to, limits);
    SortedAtoms(buckets, from, to, limits);
    NoneMet(buckets, from, to, limits.bucketMs);
    SumNonNeg(atoms);
    EmptyCut(ends);
    assert planned[0] == RangeAt(atoms, ends, from, to, 0);
    assert atoms[0..0] == [];
  }

  lemma {:induction false} RangeHasEvents(atoms: seq<Atom>, ends: seq<nat>, from: int, to: Option<int>, limits: Limits,
                       planned: seq<Planned>, i: nat)
    requires Chain(atoms) && atoms != []
    requires PlanOf(atoms, ends, from, to, planned) && GreedyCut(atoms, ends, limits) && i < |planned|
    ensures planned[i].events > 0
  {
    assert GroupAt(atoms, ends, i, limits);
    assert planned[i] == RangeAt(atoms, ends, from, to, i);
    SumNonNeg(atoms[Begin(ends, i)..ends[i]]);
  }

  lemma {:induction false} NoneMet(buckets: seq<Bucket>, from: int, to: Option<int>, bucketMs: int)
    requires forall b | b in buckets :: !Meets(b, from, to, bucketMs)
    ensures MetEvents(buckets, from, to, bucketMs) == 0
  {
    if buckets != [] {
      forall b | b in buckets[1..] ensures b in buckets {}
      NoneMet(buckets[1..], from, to, bucketMs);
    }
  }
}
