/**
 * Token buckets per key (apps/api/src/http/rateLimit.ts). Times are real milliseconds of a clock that does not run
 * backwards; tokens are reals.
 */
module RateLimiter {
  import opened InsertionMap
  import Reals

  datatype Limits = Limits(perMs: real, burst: real, maxKeys: nat)
  datatype Bucket = Bucket(tokens: real, at: real)
  datatype Take = Take(key: string, time: real)

  function PerMinute(rate: real, burst: real, maxKeys: nat): Limits { Limits(rate / 60000.0, burst, maxKeys) }

  predicate ValidLimits(l: Limits) { l.perMs > 0.0 && l.burst >= 1.0 }

  /** The tokens added over a time. */
  function Refill(ms: real, l: Limits): real { ms * l.perMs }

  lemma {:induction false} RefillPerMinute(ms: real, rate: real, l: Limits)
    requires l.perMs == rate / 60000.0
    ensures Refill(ms, l) == ms * rate / 60000.0
  {}

  /** Two times one after the other refill what both together do. */
  lemma {:induction false} RefillAdds(x: real, y: real, l: Limits)
    ensures Refill(x, l) + Refill(y, l) == Refill(x + y, l)
  {}

  function Refilled(b: Bucket, time: real, l: Limits): Bucket {
    var tokens := b.tokens + Refill(time - b.at, l);
    Bucket(if tokens < l.burst then tokens else l.burst, time)
  }

  /** The bucket a take finds: the key's own, refilled, or a full one. */
  function Found(buckets: seq<Slot<string, Bucket>>, take: Take, l: Limits): Bucket {
    var i := IndexOf(buckets, take.key);
    if i < |buckets| then Refilled(buckets[i].held, take.time, l) else Bucket(l.burst, take.time)
  }

  predicate Allowed(buckets: seq<Slot<string, Bucket>>, take: Take, l: Limits) { Found(buckets, take, l).tokens >= 1.0 }

  /** The other keys' buckets, less the least recently used one when a new key finds the table full. */
  function Others(buckets: seq<Slot<string, Bucket>>, key: string, maxKeys: nat): seq<Slot<string, Bucket>> {
    if Has(buckets, key) then Without(buckets, key)
    else if |buckets| >= maxKeys && buckets != [] then buckets[1..]
    else buckets
  }

  function Spent(b: Bucket): Bucket { if b.tokens >= 1.0 then b.(tokens := b.tokens - 1.0) else b }

  function After(buckets: seq<Slot<string, Bucket>>, take: Take, l: Limits): seq<Slot<string, Bucket>> {
    Others(buckets, take.key, l.maxKeys) + [Slot(take.key, Spent(Found(buckets, take, l)))]
  }

  function Ceil(x: real): int { 0 - (0.0 - x).Floor }

  function RetryAfterSeconds(tokens: real, l: Limits): int
    requires l.perMs > 0.0
  {
    var s := Ceil((1.0 - tokens) / l.perMs / 1000.0);
    if s > 1 then s else 1
  }

  /** A run of takes: `tables[i]` is the table before the take at `i`, empty at first. */
  datatype History = History(takes: seq<Take>, tables: seq<seq<Slot<string, Bucket>>>)

  ghost predicate StepAt(h: History, l: Limits, i: nat)
    requires i < |h.takes| && i + 1 < |h.tables|
  {
    h.tables[i + 1] == After(h.tables[i], h.takes[i], l)
  }

  ghost predicate InOrder(h: History, i: nat)
    requires i < |h.takes|
  {
    forall j | i <= j < |h.takes| :: h.takes[i].time <= h.takes[j].time
  }

  ghost predicate IsRun(h: History, l: Limits) {
    && |h.tables| == |h.takes| + 1 && h.tables[0] == []
    && (forall i | 0 <= i < |h.takes| :: StepAt(h, l, i))
    && (forall i | 0 <= i < |h.takes| :: InOrder(h, i))
  }

  function Extended(h: History, take: Take, after: seq<Slot<string, Bucket>>): History {
    History(h.takes + [take], h.tables + [after])
  }

  /** A run goes on with a take no earlier than its others. */
  lemma {:induction false} ExtendedRun(h: History, l: Limits, take: Take)
    requires IsRun(h, l) && forall i | 0 <= i < |h.takes| :: h.takes[i].time <= take.time
    ensures IsRun(Extended(h, take, After(h.tables[|h.takes|], take, l)), l)
  {
    var h' := Extended(h, take, After(h.tables[|h.takes|], take, l));
    forall i | 0 <= i < |h'.takes| ensures StepAt(h', l, i) && InOrder(h', i) {
      if i < |h.takes| { assert StepAt(h, l, i) && InOrder(h, i); }
    }
  }

  predicate AllowedAt(h: History, l: Limits, i: nat)
    requires i < |h.takes| && i < |h.tables|
  {
    Allowed(h.tables[i], h.takes[i], l)
  }

  /** The takes of the key allowed among those from `i` to before `j`. */
  function Granted(h: History, l: Limits, key: string, i: nat, j: nat): nat
    requires i <= j <= |h.takes| < |h.tables|
    decreases j
  {
    if i == j then 0
    else Granted(h, l, key, i, j - 1) + if h.takes[j - 1].key == key && AllowedAt(h, l, j - 1) then 1 else 0
  }

  /* ---------------------------------------------------------------- the table */

  lemma {:induction false} AfterDistinct(buckets: seq<Slot<string, Bucket>>, take: Take, l: Limits)
    requires DistinctKeys(buckets)
    ensures DistinctKeys(After(buckets, take, l))
  {
    WithoutKeys(buckets, take.key);
    Appended(Others(buckets, take.key, l.maxKeys), Slot(take.key, Spent(Found(buckets, take, l))));
  }

  lemma {:induction false} TableBounded(h: History, l: Limits, i: nat)
    requires IsRun(h, l) && i <= |h.takes|
    ensures DistinctKeys(h.tables[i])
    ensures l.maxKeys >= 1 ==> |h.tables[i]| <= l.maxKeys
  {
    if i > 0 {
      TableBounded(h, l, i - 1);
      assert StepAt(h, l, i - 1);
      AfterDistinct(h.tables[i - 1], h.takes[i - 1], l);
    }
  }

  /** The key's bucket is in the table after each of the takes from `i` to before `j`. */
  ghost predicate Kept(h: History, key: string, i: nat, j: nat)
    requires j < |h.tables|
  {
    forall m | i < m <= j :: Has(h.tables[m], key)
  }

  function BucketOf(buckets: seq<Slot<string, Bucket>>, key: string): Bucket
    requires Has(buckets, key)
  {
    buckets[IndexOf(buckets, key)].held
  }

  /** A take of the key leaves its bucket last, spent. */
  lemma {:induction false} OwnTake(buckets: seq<Slot<string, Bucket>>, take: Take, l: Limits)
    requires DistinctKeys(buckets)
    ensures var after := After(buckets, take, l);
      Has(after, take.key) && BucketOf(after, take.key) == Spent(Found(buckets, take, l))
  {
    var after := After(buckets, take, l);
    assert after[|after| - 1].key == take.key;
  }

  /** A take of another key leaves a bucket that is still there as it was. */
  lemma {:induction false} OtherTake(buckets: seq<Slot<string, Bucket>>, take: Take, l: Limits, key: string)
    requires DistinctKeys(buckets) && key != take.key && Has(After(buckets, take, l), key)
    ensures Has(buckets, key) && BucketOf(After(buckets, take, l), key) == BucketOf(buckets, key)
  {
    WithoutKeys(buckets, take.key);
    var slot := After(buckets, take, l)[IndexOf(After(buckets, take, l), key)];
    assert slot in Others(buckets, take.key, l.maxKeys) && slot in buckets;
    var j :| 0 <= j < |buckets| && buckets[j] == slot;
    assert IndexOf(buckets, key) == j;
  }

  /* ---------------------------------------------------------------- the window bound */

  predicate Sane(b: Bucket, time: real, l: Limits) { 0.0 <= b.tokens <= l.burst && b.at <= time }

  lemma {:induction false} FoundSane(buckets: seq<Slot<string, Bucket>>, take: Take, l: Limits)
    requires ValidLimits(l) && AllSane(buckets, take.time, l)
    ensures Sane(Found(buckets, take, l), take.time, l) && Found(buckets, take, l).at == take.time
  {
    var i := IndexOf(buckets, take.key);
    if i < |buckets| {
      assert buckets[i] in buckets;
      Slower(0.0, take.time - buckets[i].held.at, l);
    }
  }

  lemma {:induction false} SaneAfter(buckets: seq<Slot<string, Bucket>>, take: Take, l: Limits)
    requires DistinctKeys(buckets) && ValidLimits(l) && AllSane(buckets, take.time, l)
    ensures AllSane(After(buckets, take, l), take.time, l)
  {
    FoundSane(buckets, take, l);
    WithoutKeys(buckets, take.key);
  }

  ghost predicate AllSane(buckets: seq<Slot<string, Bucket>>, time: real, l: Limits) {
    forall s | s in buckets :: Sane(s.held, time, l)
  }

  lemma {:induction false} RunSane(h: History, l: Limits, i: nat)
    requires ValidLimits(l) && IsRun(h, l) && i < |h.takes|
    ensures DistinctKeys(h.tables[i]) && AllSane(h.tables[i], h.takes[i].time, l)
  {
    TableBounded(h, l, i);
    if i > 0 {
      RunSane(h, l, i - 1);
      assert StepAt(h, l, i - 1) && InOrder(h, i - 1);
      SaneAfter(h.tables[i - 1], h.takes[i - 1], l);
    }
  }

  /** What the take before `j` does: finds a bucket, spends from it, is granted or not. */
  lemma {:induction false} LastTake(h: History, l: Limits, j: nat)
    requires ValidLimits(l) && IsRun(h, l) && 0 < j <= |h.takes|
    ensures var b := Found(h.tables[j - 1], h.takes[j - 1], l);
      && Has(h.tables[j], h.takes[j - 1].key)
      && BucketOf(h.tables[j], h.takes[j - 1].key) == Spent(b)
      && AllowedAt(h, l, j - 1) == (b.tokens >= 1.0)
      && Sane(b, h.takes[j - 1].time, l) && b.at == h.takes[j - 1].time
  {
    assert StepAt(h, l, j - 1);
    RunSane(h, l, j - 1);
    FoundSane(h.tables[j - 1], h.takes[j - 1], l);
    OwnTake(h.tables[j - 1], h.takes[j - 1], l);
  }

  /** One take from a bucket: what is granted and left is within what was left plus the refill. */
  lemma {:induction false} Spends(granted: nat, b: Bucket, since: real, time: real, l: Limits)
    requires ValidLimits(l) && since <= b.at <= time
    requires granted as real + b.tokens <= l.burst + Refill(b.at - since, l)
    ensures var f := Refilled(b, time, l);
      granted as real + (if f.tokens >= 1.0 then 1.0 else 0.0) + Spent(f).tokens <= l.burst + Refill(time - since, l)
  {
    RefillAdds(b.at - since, time - b.at, l);
    assert b.at - since + (time - b.at) == time - since;
  }

  predicate Within(granted: nat, b: Bucket, since: real, time: real, l: Limits) {
    && since <= b.at <= time && b.tokens >= 0.0
    && granted as real + b.tokens <= l.burst + Refill(b.at - since, l)
  }

  /** Tokens left plus tokens granted since the window opened never exceed a full bucket and the window's refill. */
  ghost predicate BudgetAt(h: History, l: Limits, key: string, i: nat, j: nat)
    requires i < j <= |h.takes| < |h.tables|
  {
    && Has(h.tables[j], key)
    && Within(Granted(h, l, key, i, j), BucketOf(h.tables[j], key), h.takes[i].time, h.takes[j - 1].time, l)
  }

  lemma {:induction false} Budget(h: History, l: Limits, key: string, i: nat, j: nat)
    requires ValidLimits(l) && IsRun(h, l) && i < j <= |h.takes| && h.takes[i].key == key && Kept(h, key, i, j)
    ensures BudgetAt(h, l, key, i, j)
    decreases j
  {
    if j == i + 1 {
      BudgetFirst(h, l, i);
    } else {
      Budget(h, l, key, i, j - 1);
      if h.takes[j - 1].key == key {
        BudgetOwn(h, l, key, i, j);
      } else {
        BudgetOther(h, l, key, i, j);
      }
    }
  }

  lemma {:induction false} BudgetFirst(h: History, l: Limits, i: nat)
    requires ValidLimits(l) && IsRun(h, l) && i < |h.takes|
    ensures BudgetAt(h, l, h.takes[i].key, i, i + 1)
  {
    LastTake(h, l, i + 1);
    assert Refill(0.0, l) == 0.0;
    assert Granted(h, l, h.takes[i].key, i, i + 1) == if AllowedAt(h, l, i) then 1 else 0;
  }

  lemma {:induction false} BudgetOwn(h: History, l: Limits, key: string, i: nat, j: nat)
    requires ValidLimits(l) && IsRun(h, l) && i < j - 1 < |h.takes| && h.takes[j - 1].key == key
    requires BudgetAt(h, l, key, i, j - 1)
    ensures BudgetAt(h, l, key, i, j)
  {
    LastTake(h, l, j);
    assert InOrder(h, j - 2) && InOrder(h, i);
    var b, since, time := BucketOf(h.tables[j - 1], key), h.takes[i].time, h.takes[j - 1].time;
    assert Found(h.tables[j - 1], h.takes[j - 1], l) == Refilled(b, time, l);
    assert since <= b.at <= h.takes[j - 2].time <= time;
    var before, f := Granted(h, l, key, i, j - 1), Refilled(b, time, l);
    Spends(before, b, since, time, l);
    hide Refill, Refilled, Found, IsRun;
    assert Granted(h, l, key, i, j) == before + if f.tokens >= 1.0 then 1 else 0;
    assert Granted(h, l, key, i, j) as real == before as real + if f.tokens >= 1.0 then 1.0 else 0.0;
    assert BucketOf(h.tables[j], key) == Spent(f);
  }

  lemma {:induction false} BudgetOther(h: History, l: Limits, key: string, i: nat, j: nat)
    requires IsRun(h, l) && i < j - 1 < |h.takes| && h.takes[j - 1].key != key && Has(h.tables[j], key)
    requires BudgetAt(h, l, key, i, j - 1)
    ensures BudgetAt(h, l, key, i, j)
  {
    assert StepAt(h, l, j - 1) && InOrder(h, j - 2);
    TableBounded(h, l, j - 1);
    OtherTake(h.tables[j - 1], h.takes[j - 1], l, key);
    hide Refill, After, Found;
    assert Granted(h, l, key, i, j) == Granted(h, l, key, i, j - 1);
  }

  /** The takes granted to the key from `i` to before `j` are no more than its burst plus its rate over their time. */
  predicate Bounded(h: History, l: Limits, key: string, i: nat, j: nat)
    requires i < j <= |h.takes| < |h.tables|
  {
    Granted(h, l, key, i, j) as real <= l.burst + Refill(h.takes[j - 1].time - h.takes[i].time, l)
  }

  /** Over any stretch of takes that keeps the key's bucket, the takes granted to it are bounded. */
  lemma {:induction false} WindowBound(h: History, l: Limits, key: string, i: nat, j: nat)
    requires ValidLimits(l) && IsRun(h, l) && i < j <= |h.takes| && Kept(h, key, i, j - 1)
    ensures Bounded(h, l, key, i, j)
    decreases j - i
  {
    if h.takes[i].key == key == h.takes[j - 1].key {
      OwnWindow(h, l, key, i, j);
    } else if j > i + 1 {
      if h.takes[j - 1].key != key {
        WindowBound(h, l, key, i, j - 1);
        LongerRight(h, l, key, i, j);
      } else {
        WindowBound(h, l, key, i + 1, j);
        LongerLeft(h, l, key, i, j);
      }
    }
  }

  lemma {:induction false} LongerRight(h: History, l: Limits, key: string, i: nat, j: nat)
    requires ValidLimits(l) && IsRun(h, l) && i < j - 1 < |h.takes| && h.takes[j - 1].key != key
    requires Bounded(h, l, key, i, j - 1)
    ensures Bounded(h, l, key, i, j)
  {
    assert InOrder(h, j - 2);
    Slower(h.takes[j - 2].time - h.takes[i].time, h.takes[j - 1].time - h.takes[i].time, l);
  }

  lemma {:induction false} LongerLeft(h: History, l: Limits, key: string, i: nat, j: nat)
    requires ValidLimits(l) && IsRun(h, l) && i + 1 < j <= |h.takes| && h.takes[i].key != key
    requires Bounded(h, l, key, i + 1, j)
    ensures Bounded(h, l, key, i, j)
  {
    assert InOrder(h, i);
    GrantedFrom(h, l, key, i, j);
    Slower(h.takes[j - 1].time - h.takes[i + 1].time, h.takes[j - 1].time - h.takes[i].time, l);
  }

  lemma {:induction false} OwnWindow(h: History, l: Limits, key: string, i: nat, j: nat)
    requires ValidLimits(l) && IsRun(h, l) && i < j <= |h.takes| && Kept(h, key, i, j - 1)
    requires h.takes[i].key == key == h.takes[j - 1].key
    ensures Bounded(h, l, key, i, j)
  {
    LastTake(h, l, j);
    Budget(h, l, key, i, j);
  }

  lemma {:induction false} Slower(x: real, y: real, l: Limits)
    requires x <= y && l.perMs >= 0.0
    ensures Refill(x, l) <= Refill(y, l)
  {
    Reals.MulLe(l.perMs, x, y);
  }

  lemma {:induction false} GrantedFrom(h: History, l: Limits, key: string, i: nat, j: nat)
    requires i < j <= |h.takes| < |h.tables| && h.takes[i].key != key
    ensures Granted(h, l, key, i, j) == Granted(h, l, key, i + 1, j)
    decreases j
  {
    if i + 1 < j { GrantedFrom(h, l, key, i, j - 1); }
  }

  /* ---------------------------------------------------------------- exactly which takes are granted */

  /** One more grant at `j` keeps the window from `i` within the burst and the rate. */
  predicate Room(h: History, l: Limits, key: string, i: nat, j: nat)
    requires i <= j < |h.takes| < |h.tables|
  {
    Granted(h, l, key, i, j) as real + 1.0 <= l.burst + Refill(h.takes[j].time - h.takes[i].time, l)
  }

  ghost predicate CreatedAt(h: History, key: string, i: nat)
    requires i < |h.takes| < |h.tables|
  {
    h.takes[i].key == key && !Has(h.tables[i], key)
  }

  /** A window whose bound the bucket meets exactly: it opened when the bucket was last full. */
  ghost predicate Tight(h: History, l: Limits, key: string, i: nat, j: nat)
    requires i < j <= |h.takes| < |h.tables|
  {
    h.takes[i].key == key && Has(h.tables[j], key) &&
    var b := BucketOf(h.tables[j], key);
    && b.at <= h.takes[j - 1].time
    && b.tokens == l.burst + Refill(b.at - h.takes[i].time, l) - Granted(h, l, key, i, j) as real
  }

  lemma {:induction false} TightWindow(h: History, l: Limits, key: string, i0: nat, j: nat) returns (i: nat)
    requires ValidLimits(l) && IsRun(h, l) && i0 < j <= |h.takes| && CreatedAt(h, key, i0) && Kept(h, key, i0, j)
    ensures i0 <= i < j && Tight(h, l, key, i, j)
    decreases j
  {
    LastTake(h, l, j);
    if j == i0 + 1 {
      i := i0;
    } else {
      i := TightWindow(h, l, key, i0, j - 1);
      if h.takes[j - 1].key != key {
        BudgetOtherTight(h, l, key, i, j);
      } else {
        i := TightOwn(h, l, key, i, j);
      }
    }
  }

  lemma {:induction false} BudgetOtherTight(h: History, l: Limits, key: string, i: nat, j: nat)
    requires IsRun(h, l) && i < j - 1 < |h.takes| && h.takes[j - 1].key != key && Has(h.tables[j], key)
    requires Tight(h, l, key, i, j - 1)
    ensures Tight(h, l, key, i, j)
  {
    assert StepAt(h, l, j - 1) && InOrder(h, j - 2);
    TableBounded(h, l, j - 1);
    OtherTake(h.tables[j - 1], h.takes[j - 1], l, key);
    hide Refill, After, Found;
    assert Granted(h, l, key, i, j) == Granted(h, l, key, i, j - 1);
  }

  lemma {:induction false} TightOwn(h: History, l: Limits, key: string, i: nat, j: nat) returns (i': nat)
    requires ValidLimits(l) && IsRun(h, l) && i < j - 1 < |h.takes| && h.takes[j - 1].key == key
    requires Tight(h, l, key, i, j - 1)
    ensures i <= i' < j && Tight(h, l, key, i', j)
  {
    LastTake(h, l, j);
    var b := BucketOf(h.tables[j - 1], key);
    var time := h.takes[j - 1].time;
    assert Found(h.tables[j - 1], h.takes[j - 1], l) == Refilled(b, time, l);
    if Refilled(b, time, l).tokens == l.burst {
      i' := j - 1;
      assert Granted(h, l, key, i', i') == 0 && Refill(0.0, l) == 0.0;
    } else {
      i' := i;
      RefillAdds(b.at - h.takes[i].time, time - b.at, l);
      assert b.at - h.takes[i].time + (time - b.at) == time - h.takes[i].time;
    }
  }

  /**
   * Which takes are granted, exactly: from the take that created the key's bucket on, while it is kept, a take is
   * granted if and only if one more grant would keep every window that ends with it, from any earlier take of the key,
   * in bounds.
   */
  lemma {:induction false} AllowedExactly(h: History, l: Limits, key: string, i0: nat, j: nat)
    requires ValidLimits(l) && IsRun(h, l) && i0 < j < |h.takes| && h.takes[j].key == key
    requires CreatedAt(h, key, i0) && Kept(h, key, i0, j)
    ensures AllowedAt(h, l, j) <==> forall i | i0 <= i <= j && h.takes[i].key == key :: Room(h, l, key, i, j)
  {
    if AllowedAt(h, l, j) {
      forall i | i0 <= i <= j && h.takes[i].key == key ensures Room(h, l, key, i, j) {
        WindowBound(h, l, key, i, j + 1);
        assert Granted(h, l, key, i, j + 1) == Granted(h, l, key, i, j) + 1;
      }
    } else {
      var i := TightWindow(h, l, key, i0, j);
      NoRoom(h, l, key, i, j);
    }
  }

  lemma {:induction false} NoRoom(h: History, l: Limits, key: string, i: nat, j: nat)
    requires ValidLimits(l) && IsRun(h, l) && i < j < |h.takes| && h.takes[j].key == key && Tight(h, l, key, i, j)
    requires !AllowedAt(h, l, j)
    ensures !Room(h, l, key, i, j)
  {
    LastTake(h, l, j + 1);
    var b, since, time := BucketOf(h.tables[j], key), h.takes[i].time, h.takes[j].time;
    assert Found(h.tables[j], h.takes[j], l) == Refilled(b, time, l);
    RefillAdds(b.at - since, time - b.at, l);
    assert b.at - since + (time - b.at) == time - since;
  }

  /* ---------------------------------------------------------------- the wait a refusal asks for */

  /**
   * After the wait a refusal asks for, the bucket has a token; a second less, unless that is no wait, is not enough.
   */
  lemma {:induction false} WaitIsRight(b: Bucket, l: Limits, time: real)
    requires ValidLimits(l) && 0.0 <= b.tokens < 1.0
    ensures time >= b.at + 1000.0 * RetryAfterSeconds(b.tokens, l) as real ==> Refilled(b, time, l).tokens >= 1.0
    ensures var r := RetryAfterSeconds(b.tokens, l);
      r > 1 && time <= b.at + 1000.0 * (r - 1) as real ==> Refilled(b, time, l).tokens < 1.0
  {
    var exact := (1.0 - b.tokens) / l.perMs;
    assert Refill(exact, l) == 1.0 - b.tokens;
    var r := RetryAfterSeconds(b.tokens, l);
    assert exact / 1000.0 <= r as real;
    if time >= b.at + 1000.0 * r as real {
      Slower(exact, time - b.at, l);
    } else if r > 1 && time <= b.at + 1000.0 * (r - 1) as real {
      assert time - b.at < exact;
    }
  }

  /* ---------------------------------------------------------------- eviction */

  /** The other keys that take after `i` and before `j`. */
  function OtherKeys(h: History, key: string, i: nat, j: nat): set<string>
    requires j <= |h.takes|
  {
    set m | i < m < j && h.takes[m].key != key :: h.takes[m].key
  }

  function KeysOf(slots: seq<Slot<string, Bucket>>): set<string> { set s | s in slots :: s.key }

  lemma {:induction false} DistinctCount(slots: seq<Slot<string, Bucket>>)
    requires DistinctKeys(slots)
    ensures |KeysOf(slots)| == |slots|
  {
    if slots != [] {
      DistinctCount(slots[1..]);
      assert KeysOf(slots) == {slots[0].key} + KeysOf(slots[1..]);
      assert slots[0].key !in KeysOf(slots[1..]);
    }
  }

  lemma {:induction false} Subset(a: set<string>, b: set<string>)
    requires a <= b
    ensures |a| <= |b|
  {
    assert b == a + (b - a);
  }

  /** What was used after the key's bucket: the keys that took since. */
  ghost predicate Younger(h: History, key: string, i: nat, j: nat)
    requires j <= |h.takes| < |h.tables|
  {
    Has(h.tables[j], key) &&
    forall p | IndexOf(h.tables[j], key) < p < |h.tables[j]| :: h.tables[j][p].key in OtherKeys(h, key, i, j)
  }

  /** The slot at `q` is one of the table's beyond `p'`. */
  ghost predicate BeyondAt(rest: seq<Slot<string, Bucket>>, buckets: seq<Slot<string, Bucket>>, p': nat, q: nat)
    requires q < |rest|
  {
    exists q' | p' < q' < |buckets| :: rest[q] == buckets[q']
  }

  /** The place of an old slot in the table after another key's take, and that those after it were after it. */
  lemma {:induction false} OthersAt(buckets: seq<Slot<string, Bucket>>, key: string, maxKeys: nat, p: nat)
    returns (p': nat)
    requires p < |Others(buckets, key, maxKeys)|
    ensures p' < |buckets| && Others(buckets, key, maxKeys)[p] == buckets[p'] && p <= p' <= p + 1
    ensures var rest := Others(buckets, key, maxKeys);
      forall q | p < q < |rest| :: BeyondAt(rest, buckets, p', q)
  {
    var rest := Others(buckets, key, maxKeys);
    if Has(buckets, key) {
      p' := WithoutAt(buckets, key, p);
      forall q | p < q < |rest| ensures BeyondAt(rest, buckets, p', q) {
        var q' := WithoutAt(buckets, key, q);
        assert p' < q' && rest[q] == buckets[q'];
      }
    } else {
      var cut := if |buckets| >= maxKeys && buckets != [] then 1 else 0;
      p' := p + cut;
      forall q | p < q < |rest| ensures BeyondAt(rest, buckets, p', q) {
        assert p' < q + cut && rest[q] == buckets[q + cut];
      }
    }
  }

  lemma {:induction false} YoungerStep(h: History, l: Limits, key: string, i: nat, j: nat)
    requires IsRun(h, l) && i < j < |h.takes| && h.takes[j].key != key && Younger(h, key, i, j)
    requires Has(h.tables[j + 1], key)
    ensures Younger(h, key, i, j + 1)
  {
    assert StepAt(h, l, j);
    TableBounded(h, l, j);
    var table, after := h.tables[j], h.tables[j + 1];
    var others := Others(table, h.takes[j].key, l.maxKeys);
    var k := IndexOf(after, key);
    assert k < |others| && after[k] == others[k];
    var k' := OthersAt(table, h.takes[j].key, l.maxKeys, k);
    forall p | k < p < |after| ensures after[p].key in OtherKeys(h, key, i, j + 1) {
      if p < |others| {
        assert BeyondAt(others, table, k', p);
        var p' :| k' < p' < |table| && others[p] == table[p'];
      }
    }
  }

  lemma {:induction false} Evicts(h: History, l: Limits, key: string, i: nat, j: nat)
    requires IsRun(h, l) && i < j < |h.takes| && h.takes[j].key != key && Younger(h, key, i, j)
    requires !Has(h.tables[j + 1], key)
    ensures |OtherKeys(h, key, i, j + 1)| >= l.maxKeys
  {
    assert StepAt(h, l, j);
    TableBounded(h, l, j);
    var table := h.tables[j];
    var first, taking := table[0], h.takes[j].key;
    KeptUnlessFirst(table, h.takes[j], l, key);
    DistinctCount(table[1..]);
    assert taking !in KeysOf(table[1..]);
    assert {taking} + KeysOf(table[1..]) <= OtherKeys(h, key, i, j + 1);
    Subset({taking} + KeysOf(table[1..]), OtherKeys(h, key, i, j + 1));
  }

  /**
   * A take drops another key's bucket only when the table is full, that bucket is the first, and the taker has none.
   */
  lemma {:induction false} KeptUnlessFirst(table: seq<Slot<string, Bucket>>, take: Take, l: Limits, key: string)
    requires DistinctKeys(table) && Has(table, key) && take.key != key && !Has(After(table, take, l), key)
    ensures !Has(table, take.key) && |table| >= l.maxKeys && table[0].key == key
  {
    WithoutKeys(table, take.key);
    var slot := table[IndexOf(table, key)];
    var others := Others(table, take.key, l.maxKeys);
    var at := IndexOf(table, key);
    assert at > 0 ==> table[1..][at - 1] == slot;
    forall k | 0 <= k < |others| ensures others[k] != slot {
      assert After(table, take, l)[k] == others[k];
    }
    assert slot !in others;
  }

  /** A client's bucket is forgotten, and its budget so renewed, only after at least `maxKeys` other keys have taken. */
  lemma {:induction false} ForgottenOnlyAfter(h: History, l: Limits, key: string, i: nat, j: nat)
    requires IsRun(h, l) && i < j <= |h.takes| && h.takes[i].key == key && forall m | i < m < j :: h.takes[m].key != key
    ensures Younger(h, key, i, j) || |OtherKeys(h, key, i, j)| >= l.maxKeys
    decreases j
  {
    if j == i + 1 {
      assert StepAt(h, l, i);
      TableBounded(h, l, i);
      OwnTake(h.tables[i], h.takes[i], l);
    } else {
      ForgottenOnlyAfter(h, l, key, i, j - 1);
      if !Younger(h, key, i, j - 1) {
        Subset(OtherKeys(h, key, i, j - 1), OtherKeys(h, key, i, j));
      } else if Has(h.tables[j], key) {
        YoungerStep(h, l, key, i, j - 1);
      } else {
        Evicts(h, l, key, i, j - 1);
      }
    }
  }

  /* ---------------------------------------------------------------- the limiter itself */

  datatype Result = Permitted | Refused(retryAfterSeconds: int)

  class Limiter {
    const limits: Limits
    var buckets: seq<Slot<string, Bucket>>

    constructor (limits: Limits)
      ensures this.limits == limits && buckets == []
    {
      this.limits := limits;
      buckets := [];
    }

    method TakeOne(key: string, time: real) returns (result: Result)
      requires ValidLimits(limits) && DistinctKeys(buckets)
      modifies this
      ensures buckets == After(old(buckets), Take(key, time), limits) && DistinctKeys(buckets)
      ensures result == if Allowed(old(buckets), Take(key, time), limits) then Permitted
                        else Refused(RetryAfterSeconds(Found(old(buckets), Take(key, time), limits).tokens, limits))
    {
      AfterDistinct(buckets, Take(key, time), limits);
      var bucket: Bucket;
      var i := IndexOf(buckets, key);
      if i == |buckets| {
        if |buckets| >= limits.maxKeys && buckets != [] {
          buckets := buckets[1..];
        }
        bucket := Bucket(limits.burst, time);
      } else {
        bucket := Refilled(buckets[i].held, time, limits);
        buckets := Without(buckets, key);
      }
      assert bucket == Found(old(buckets), Take(key, time), limits);
      assert buckets == Others(old(buckets), key, limits.maxKeys);
      if bucket.tokens >= 1.0 {
        buckets := buckets + [Slot(key, bucket.(tokens := bucket.tokens - 1.0))];
        return Permitted;
      }
      buckets := buckets + [Slot(key, bucket)];
      return Refused(RetryAfterSeconds(bucket.tokens, limits));
    }
  }
}
