/**
 * The order the repository gives a timeline's rows in (`chronological` in apps/api/src/timeline/repository.ts), and
 * exactly when the running balances built from rows in some order run: time, chain and log index order the rows, not
 * the block.
 */
module Chronology {
  import opened Build
  import opened InsertionMap

  /* ---------------------------------------------------------------- the sort */

  predicate Earlier(a: Row, b: Row) {
    || a.place.time < b.place.time
    || (a.place.time == b.place.time && a.chain < b.chain)
    || (a.place.time == b.place.time && a.chain == b.chain && a.place.log < b.place.log)
  }

  /** The row after those it is not earlier than. */
  function Placed(sorted: seq<Row>, row: Row): seq<Row> {
    if sorted == [] then [row] else
    var n := |sorted| - 1;
    if Earlier(row, sorted[n]) then Placed(sorted[..n], row) + [sorted[n]] else sorted + [row]
  }

  /** The stable sort. */
  function Chronological(rows: seq<Row>): seq<Row> {
    if rows == [] then [] else Placed(Chronological(rows[..|rows| - 1]), rows[|rows| - 1])
  }

  predicate Ordered(rows: seq<Row>) { forall i, j | 0 <= i < j < |rows| :: !Earlier(rows[j], rows[i]) }

  lemma {:induction false} OrderedAnd(rows: seq<Row>, row: Row)
    requires Ordered(rows) && (rows != [] ==> !Earlier(row, rows[|rows| - 1]))
    ensures Ordered(rows + [row])
  {
    var more := rows + [row];
    forall i, j | 0 <= i < j < |more| ensures !Earlier(more[j], more[i]) {
      if j == |rows| && i < j - 1 { assert !Earlier(rows[j - 1], rows[i]); }
    }
  }

  lemma {:induction false} PlacedSame(sorted: seq<Row>, row: Row)
    ensures multiset(Placed(sorted, row)) == multiset(sorted) + multiset{row}
    decreases |sorted|
  {
    if sorted != [] {
      var n := |sorted| - 1;
      assert sorted == sorted[..n] + [sorted[n]];
      PlacedSame(sorted[..n], row);
    }
  }

  lemma {:induction false} PlacedLast(sorted: seq<Row>, row: Row)
    ensures |Placed(sorted, row)| == |sorted| + 1
    ensures var last := Placed(sorted, row)[|sorted|];
      last == row || (sorted != [] && last == sorted[|sorted| - 1])
    decreases |sorted|
  {
    if sorted != [] { PlacedLast(sorted[..|sorted| - 1], row); }
  }

  lemma {:induction false} PlacedOrdered(sorted: seq<Row>, row: Row)
    requires Ordered(sorted)
    ensures Ordered(Placed(sorted, row))
    decreases |sorted|
  {
    if sorted == [] {
    } else if Earlier(row, sorted[|sorted| - 1]) {
      var n := |sorted| - 1;
      PlacedOrdered(sorted[..n], row);
      PlacedLast(sorted[..n], row);
      assert n > 0 ==> !Earlier(sorted[n], sorted[n - 1]);
      OrderedAnd(Placed(sorted[..n], row), sorted[n]);
    } else {
      OrderedAnd(sorted, row);
    }
  }

  /** The rows in order, each as often as before. */
  lemma {:induction false} ChronologicalOk(rows: seq<Row>)
    ensures Ordered(Chronological(rows)) && multiset(Chronological(rows)) == multiset(rows)
    decreases |rows|
  {
    if rows != [] {
      var n := |rows| - 1;
      ChronologicalOk(rows[..n]);
      PlacedSame(Chronological(rows[..n]), rows[n]);
      PlacedOrdered(Chronological(rows[..n]), rows[n]);
      assert rows == rows[..n] + [rows[n]];
    }
  }

  /** By time first, then chain, then log index; and rows equal in all three stay in the order they were given. */
  lemma {:induction false} SortedBy(rows: seq<Row>, i: nat, j: nat)
    requires i < j < |rows|
    ensures |Chronological(rows)| == |rows|
    ensures var a, b := Chronological(rows)[i], Chronological(rows)[j];
      && a.place.time <= b.place.time
      && (a.place.time == b.place.time ==> a.chain <= b.chain)
      && (a.place.time == b.place.time && a.chain == b.chain ==> a.place.log <= b.place.log)
  {
    ChronologicalOk(rows);
    assert |Chronological(rows)| == |multiset(Chronological(rows))| == |rows|;
    assert !Earlier(Chronological(rows)[j], Chronological(rows)[i]);
  }

  /** The rows that share a place in the order, as they were given. */
  function SamePlace(rows: seq<Row>, row: Row): seq<Row> {
    if rows == [] then [] else
    var last := rows[|rows| - 1];
    SamePlace(rows[..|rows| - 1], row)
    + if last.place.time == row.place.time && last.chain == row.chain && last.place.log == row.place.log then [last]
      else []
  }

  lemma {:induction false} SamePlaceMore(rows: seq<Row>, last: Row, row: Row)
    ensures SamePlace(rows + [last], row) == SamePlace(rows, row) + SamePlace([last], row)
  {
    assert (rows + [last])[..|rows|] == rows && [last][..0] == [];
  }

  lemma {:induction false} PlacedStable(sorted: seq<Row>, row: Row, other: Row)
    ensures SamePlace(Placed(sorted, row), other) == SamePlace(sorted, other) + SamePlace([row], other)
    decreases |sorted|
  {
    if sorted == [] {
      assert [row][..0] == [];
    } else {
      var n := |sorted| - 1;
      var before, last := sorted[..n], sorted[n];
      assert before + [last] == sorted;
      if Earlier(row, last) {
        PlacedStable(before, row, other);
        SamePlaceMore(Placed(before, row), last, other);
        SamePlaceMore(before, last, other);
        assert [last][..0] == [] && [row][..0] == [];
      } else {
        SamePlaceMore(sorted, row, other);
      }
    }
  }

  lemma {:induction false} SortStable(rows: seq<Row>, row: Row)
    ensures SamePlace(Chronological(rows), row) == SamePlace(rows, row)
    decreases |rows|
  {
    if rows != [] {
      var n := |rows| - 1;
      SortStable(rows[..n], row);
      PlacedStable(Chronological(rows[..n]), rows[n], row);
      SamePlaceMore(rows[..n], rows[n], row);
      assert rows[..n] + [rows[n]] == rows;
    }
  }

  lemma {:induction false} SameRows(rows: seq<Row>, row: Row)
    ensures row in Chronological(rows) <==> row in rows
  {
    ChronologicalOk(rows);
    assert row in Chronological(rows) <==> row in multiset(Chronological(rows));
    assert row in rows <==> row in multiset(rows);
  }

  /* ---------------------------------------------------------------- rows of a chain */

  predicate TwoFromChain(a: Row, b: Row) {
    a.chain == b.chain ==>
      && (a.place.block == b.place.block ==> a.place.time == b.place.time)
      && (a.place.block < b.place.block ==> a.place.time <= b.place.time)
      && (a.tx == b.tx ==> a.place.block == b.place.block)
  }

  /** A transaction's logs in its block are not interleaved with another's. */
  predicate NotBetween(a: Row, b: Row, c: Row) {
    a.chain == b.chain == c.chain && a.place.block == b.place.block == c.place.block && a.tx == c.tx
    && a.place.log <= b.place.log <= c.place.log ==>
      b.tx == a.tx
  }

  /**
   * What a chain gives: blocks with a time each, never earlier than before, transactions each in one block and
   * together.
   */
  ghost predicate FromChain(rows: seq<Row>) {
    && (forall a, b | a in rows && b in rows :: TwoFromChain(a, b))
    && (forall a, b, c | a in rows && b in rows && c in rows :: NotBetween(a, b, c))
  }

  /** No two blocks of a chain have the same time. */
  ghost predicate TimesDiffer(rows: seq<Row>) {
    forall a, b | a in rows && b in rows && a.chain == b.chain && a.place.time == b.place.time ::
      a.place.block == b.place.block
  }

  /** Where a chain's blocks have different times, the sort keeps transactions together. */
  lemma {:induction false} SortedContiguous(rows: seq<Row>)
    requires FromChain(rows) && TimesDiffer(rows)
    ensures Contiguous(Chronological(rows))
  {
    var sorted := Chronological(rows);
    ChronologicalOk(rows);
    forall i, j, k | 0 <= i < j < k < |sorted| && KeyOf(sorted[i]) == KeyOf(sorted[k])
                     && ProductOf(sorted[j]) == ProductOf(sorted[i])
      ensures KeyOf(sorted[j]) == KeyOf(sorted[i])
    {
      var a, b, c := sorted[i], sorted[j], sorted[k];
      SameRows(rows, a);
      SameRows(rows, b);
      SameRows(rows, c);
      assert TwoFromChain(a, c) && !Earlier(b, a) && !Earlier(c, b);
      assert NotBetween(a, b, c);
    }
  }

  /** A row of another transaction of the product, logged in the same millisecond between two rows of one. */
  predicate Crosses(a: Row, b: Row, c: Row) {
    && KeyOf(a) == KeyOf(c) && ProductOf(b) == ProductOf(a) && b.tx != a.tx
    && a.place.time == b.place.time == c.place.time && a.place.log < b.place.log < c.place.log
  }

  lemma {:induction false} EarlierStandsBefore(sorted: seq<Row>, i: nat, j: nat)
    requires Ordered(sorted) && i < |sorted| && j < |sorted| && Earlier(sorted[i], sorted[j])
    ensures i < j
  {
  }

  /** Two blocks of one time: where their logs cross, the sort takes a transaction apart. */
  lemma {:induction false} CrossingSplits(rows: seq<Row>, a: Row, b: Row, c: Row)
    requires a in rows && b in rows && c in rows && Crosses(a, b, c)
    ensures !Contiguous(Chronological(rows))
  {
    var sorted := Chronological(rows);
    ChronologicalOk(rows);
    SameRows(rows, a);
    SameRows(rows, b);
    SameRows(rows, c);
    var i :| 0 <= i < |sorted| && sorted[i] == a;
    var j :| 0 <= j < |sorted| && sorted[j] == b;
    var k :| 0 <= k < |sorted| && sorted[k] == c;
    EarlierStandsBefore(sorted, i, j);
    EarlierStandsBefore(sorted, j, k);
    hide Ordered, Chronological;
  }

  /* ---------------------------------------------------------------- exactly when balances run */

  /** The same rows but for what kind they are of and how much they move. */
  predicate SameButAmount(a: Row, b: Row) { b == a.(kind := b.kind, delta := b.delta) }

  ghost predicate SameButAmounts(rows: seq<Row>, other: seq<Row>) {
    |rows| == |other| && forall i | 0 <= i < |rows| :: SameButAmount(rows[i], other[i])
  }

  ghost predicate BalancesRunIn(rows: seq<Row>) { forall m: nat | m < |Timeline(rows)| :: RunsAt(Timeline(rows), m) }

  lemma {:induction false} ContiguousToo(rows: seq<Row>, other: seq<Row>)
    requires SameButAmounts(rows, other) && Contiguous(rows)
    ensures Contiguous(other)
  {
    forall i, j, k | 0 <= i < j < k < |other| && KeyOf(other[i]) == KeyOf(other[k])
                     && ProductOf(other[j]) == ProductOf(other[i])
      ensures KeyOf(other[j]) == KeyOf(other[i])
    {
      assert SameButAmount(rows[i], other[i]) && SameButAmount(rows[j], other[j]) && SameButAmount(rows[k], other[k]);
    }
  }

  /** The groups have the same keys in the same order. */
  ghost predicate SameKeys(groups: Groups, other: Groups) {
    |groups| == |other| && forall i | 0 <= i < |groups| :: groups[i].key == other[i].key
  }

  lemma {:induction false} SameIndex(groups: Groups, other: Groups, key: Key)
    requires SameKeys(groups, other)
    ensures IndexOf(groups, key) == IndexOf(other, key)
    decreases |groups|
  {
    if groups != [] && groups[0].key != key {
      assert SameKeys(groups[1..], other[1..]);
      SameIndex(groups[1..], other[1..], key);
    }
  }

  lemma {:induction false} SameKeysAfterPut(groups: Groups, other: Groups, key: Key, a: Group, b: Group)
    requires SameKeys(groups, other)
    ensures SameKeys(Put(groups, key, a), Put(other, key, b))
  {
    SameIndex(groups, other, key);
  }

  lemma {:induction false} SameKeysAfterAdded(g: Grouping, h: Grouping, a: Row, b: Row)
    requires SameKeys(g.groups, h.groups) && SameButAmount(a, b)
    ensures SameKeys(Added(g, a).groups, Added(h, b).groups)
  {
    var key := KeyOf(a);
    assert KeyOf(b) == key;
    var i := IndexOf(g.groups, key);
    SameIndex(g.groups, h.groups, key);
    AddedPuts(g, a);
    AddedPuts(h, b);
    hide Added, SameButAmount, SameKeys;
    SameKeysAfterPut(g.groups, h.groups, key, Added(g, a).groups[i].held, Added(h, b).groups[i].held);
  }

  lemma {:induction false} SameGroups(rows: seq<Row>, other: seq<Row>)
    requires SameButAmounts(rows, other)
    ensures SameKeys(Grouped(rows).groups, Grouped(other).groups)
    decreases |rows|
  {
    hide Added, SameButAmount;
    if rows != [] {
      var n := |rows| - 1;
      forall i | 0 <= i < n ensures SameButAmount(rows[..n][i], other[..n][i]) {
        assert SameButAmount(rows[i], other[i]);
      }
      SameGroups(rows[..n], other[..n]);
      assert SameButAmount(rows[n], other[n]);
      SameKeysAfterAdded(Grouped(rows[..n]), Grouped(other[..n]), rows[n], other[n]);
    }
  }

  lemma {:induction false} AddedPuts(g: Grouping, row: Row)
    ensures var i := IndexOf(g.groups, KeyOf(row));
      i < |Added(g, row).groups| && Added(g, row).groups == Put(g.groups, KeyOf(row), Added(g, row).groups[i].held)
  {
  }

  /* one balance row that moves anything, in a later group and before the last row of an earlier one */

  /** One balance row, of one share, at `p`; the others are claims, which move no balance. */
  function Spike(rows: seq<Row>, p: nat): seq<Row> {
    seq(|rows|, i requires 0 <= i < |rows| =>
      if i == p then rows[i].(kind := Balance, delta := 1) else rows[i].(kind := Claim, delta := 0))
  }

  lemma {:induction false} SpikeTotal(rows: seq<Row>, p: nat, n: nat)
    requires p < |rows| && n <= |rows|
    ensures Total(Spike(rows, p)[..n], ProductOf(rows[p])) == if p < n then 1 else 0
  {
    if n > 0 {
      SpikeTotal(rows, p, n - 1);
      assert Spike(rows, p)[..n][..n - 1] == Spike(rows, p)[..n - 1];
    }
  }

  lemma {:induction false} SpikeAfter(rows: seq<Row>, p: nat, q: nat, n: nat)
    requires p < q < n <= |rows| && ProductOf(rows[q]) == ProductOf(rows[p])
    ensures TotalAfter(Spike(rows, p)[..n], KeyOf(rows[q])) == 1
  {
    var spiked := Spike(rows, p)[..n];
    assert spiked[..n - 1] == Spike(rows, p)[..n - 1];
    assert KeyOf(Spike(rows, p)[q]) == KeyOf(rows[q]);
    if KeyOf(spiked[n - 1]) == KeyOf(rows[q]) {
      SpikeTotal(rows, p, n);
    } else {
      SpikeAfter(rows, p, q, n - 1);
    }
  }

  lemma {:induction false} NoDiff(rows: seq<Row>)
    requires forall r | r in rows :: DeltaOf(r) == 0
    ensures Diff(rows) == 0
    decreases |rows|
  {
    if rows != [] {
      forall r | r in rows[..|rows| - 1] ensures DeltaOf(r) == 0 { assert r in rows; }
      NoDiff(rows[..|rows| - 1]);
    }
  }

  /** Other groups move nothing. */
  lemma {:induction false} SpikeRows(rows: seq<Row>, p: nat, n: nat, key: Key)
    requires p < |rows| && n <= |rows| && KeyOf(rows[p]) != key
    ensures forall r | r in RowsOf(Spike(rows, p)[..n], key) :: DeltaOf(r) == 0
  {
    if n > 0 {
      SpikeRows(rows, p, n - 1, key);
      assert Spike(rows, p)[..n][..n - 1] == Spike(rows, p)[..n - 1];
    }
  }

  /** Where groups move nothing and run, their balances are 0. */
  lemma {:induction false} NothingYet(groups: Groups, n: nat, product: Product)
    requires n <= |groups|
    requires forall i | 0 <= i < n && groups[i].key.product == product ::
      LinkAt(groups, i) && Diff(groups[i].held.rows) == 0
    ensures Previous(groups, n, product) == 0
  {
    if n > 0 { NothingYet(groups, n - 1, product); }
  }

  lemma {:induction false} LinkedIfRuns(items: seq<Item>, groups: Groups, i: nat)
    requires Mirrors(items, groups) && i < |groups| && |Reversed(items)| == |items|
    requires RunsAt(Reversed(items), |groups| - 1 - i)
    ensures LinkAt(groups, i)
  {
    RunsAsLinked(items, groups, |groups| - 1 - i);
  }

  lemma {:induction false} AllLinked(rows: seq<Row>, i: nat)
    requires BalancesRunIn(rows) && i < |Grouped(rows).groups|
    ensures LinkAt(Grouped(rows).groups, i)
  {
    TimelineCount(rows);
    ItemsMirror(rows);
    assert RunsAt(Timeline(rows), |Grouped(rows).groups| - 1 - i);
    LinkedIfRuns(Items(Grouped(rows).groups), Grouped(rows).groups, i);
  }

  /** A row of a later group before the last row of an earlier one, of the same product: some amounts do not run. */
  lemma {:induction false} SpikeBreaks(rows: seq<Row>, p: nat, q: nat)
    requires p < q < |rows| && ProductOf(rows[p]) == ProductOf(rows[q])
    requires IndexOf(Grouped(rows).groups, KeyOf(rows[q])) < IndexOf(Grouped(rows).groups, KeyOf(rows[p]))
    ensures SameButAmounts(rows, Spike(rows, p)) && !BalancesRunIn(Spike(rows, p))
  {
    var spiked := Spike(rows, p);
    var groups, product := Grouped(spiked).groups, ProductOf(rows[p]);
    SameGroups(rows, spiked);
    SameIndex(Grouped(rows).groups, groups, KeyOf(rows[q]));
    SameIndex(Grouped(rows).groups, groups, KeyOf(rows[p]));
    var g := IndexOf(groups, KeyOf(rows[q]));
    GroupIs(spiked, g);
    SpikeAfter(rows, p, q, |rows|);
    assert spiked[..|rows|] == spiked;
    if BalancesRunIn(spiked) {
      forall i | 0 <= i <= g && groups[i].key.product == product
        ensures LinkAt(groups, i) && Diff(groups[i].held.rows) == 0
      {
        AllLinked(spiked, i);
        GroupMovesNothing(rows, p, i);
      }
      NothingYet(groups, g, product);
      assert false;
    }
  }

  lemma {:induction false} GroupMovesNothing(rows: seq<Row>, p: nat, i: nat)
    requires p < |rows| && i < |Grouped(Spike(rows, p)).groups|
    requires Grouped(Spike(rows, p)).groups[i].key != KeyOf(rows[p])
    ensures Diff(Grouped(Spike(rows, p)).groups[i].held.rows) == 0
  {
    var spiked := Spike(rows, p);
    GroupIs(spiked, i);
    SpikeRows(rows, p, |rows|, Grouped(spiked).groups[i].key);
    assert spiked[..|rows|] == spiked;
    NoDiff(Grouped(spiked).groups[i].held.rows);
  }

  /** Rows taken apart: some amounts do not run. */
  lemma {:induction false} SplitBreaks(rows: seq<Row>) returns (other: seq<Row>)
    requires !Contiguous(rows)
    ensures SameButAmounts(rows, other) && !BalancesRunIn(other)
  {
    var i, j, k :| 0 <= i < j < k < |rows| && KeyOf(rows[i]) == KeyOf(rows[k])
                   && ProductOf(rows[j]) == ProductOf(rows[i]) && KeyOf(rows[j]) != KeyOf(rows[i]);
    other := SplitBreaksAt(rows, i, j, k);
  }

  lemma {:induction false} SplitBreaksAt(rows: seq<Row>, i: nat, j: nat, k: nat) returns (other: seq<Row>)
    requires i < j < k < |rows| && KeyOf(rows[i]) == KeyOf(rows[k])
    requires ProductOf(rows[j]) == ProductOf(rows[i]) && KeyOf(rows[j]) != KeyOf(rows[i])
    ensures SameButAmounts(rows, other) && !BalancesRunIn(other)
  {
    hide SameButAmounts, BalancesRunIn, Spike, Grouped, DistinctKeys;
    var groups := Grouped(rows).groups;
    HasGroup(rows, i);
    HasGroup(rows, j);
    if IndexOf(groups, KeyOf(rows[i])) < IndexOf(groups, KeyOf(rows[j])) {
      SpikeBreaks(rows, j, k);
      other := Spike(rows, j);
    } else {
      assert groups[IndexOf(groups, KeyOf(rows[j]))].key != groups[IndexOf(groups, KeyOf(rows[i]))].key;
      SpikeBreaks(rows, i, j);
      other := Spike(rows, i);
    }
  }

  /**
   * Exactly when balances run: for the keys of any rows in any order, every item's balance is the next older one's of
   * its product plus its own diff whatever the rows move, if and only if the rows of each transaction and product stand
   * together among the product's.
   */
  lemma {:induction false} BalancesRunExactly(rows: seq<Row>)
    ensures Contiguous(rows) <==> forall other | SameButAmounts(rows, other) :: BalancesRunIn(other)
  {
    if Contiguous(rows) {
      forall other | SameButAmounts(rows, other) ensures BalancesRunIn(other) {
        ContiguousToo(rows, other);
        forall m: nat | m < |Timeline(other)| ensures RunsAt(Timeline(other), m) { BalancesRun(other, m); }
      }
    } else {
      var other := SplitBreaks(rows);
    }
  }

  /** So the timelines built from what the repository returns run where a chain's blocks have different times. */
  lemma {:induction false} SortedBalancesRun(rows: seq<Row>)
    requires FromChain(rows) && TimesDiffer(rows)
    ensures BalancesRunIn(Chronological(rows))
  {
    SortedContiguous(rows);
    forall m: nat | m < |Timeline(Chronological(rows))| ensures RunsAt(Timeline(Chronological(rows)), m) {
      BalancesRun(Chronological(rows), m);
    }
  }

  lemma {:induction false} SortedStays(rows: seq<Row>)
    requires Ordered(rows)
    ensures Chronological(rows) == rows
    decreases |rows|
  {
    if rows != [] {
      var n := |rows| - 1;
      SortedStays(rows[..n]);
      assert n > 0 ==> !Earlier(rows[n], rows[n - 1]);
      assert rows == rows[..n] + [rows[n]];
    }
  }

  lemma {:induction false} OrderedToo(rows: seq<Row>, other: seq<Row>)
    requires SameButAmounts(rows, other) && Ordered(rows)
    ensures Ordered(other)
  {
    forall i, j | 0 <= i < j < |other| ensures !Earlier(other[j], other[i]) {
      assert SameButAmount(rows[i], other[i]) && SameButAmount(rows[j], other[j]) && !Earlier(rows[j], rows[i]);
    }
  }

  lemma {:induction false} RowBehind(rows: seq<Row>, other: seq<Row>, b: Row) returns (a: Row)
    requires SameButAmounts(Chronological(rows), other) && b in other
    ensures a in rows && SameButAmount(a, b)
  {
    var sorted := Chronological(rows);
    var i :| 0 <= i < |other| && other[i] == b;
    assert SameButAmount(sorted[i], other[i]) && sorted[i] in sorted;
    a := sorted[i];
    SameRows(rows, a);
  }

  lemma {:induction false} FromChainToo(rows: seq<Row>, other: seq<Row>)
    requires FromChain(rows) && SameButAmounts(Chronological(rows), other)
    ensures FromChain(other)
  {
    forall a, b | a in other && b in other ensures TwoFromChain(a, b) {
      var x := RowBehind(rows, other, a);
      var y := RowBehind(rows, other, b);
      assert TwoFromChain(x, y);
    }
    forall a, b, c | a in other && b in other && c in other ensures NotBetween(a, b, c) {
      var x := RowBehind(rows, other, a);
      var y := RowBehind(rows, other, b);
      var z := RowBehind(rows, other, c);
      assert NotBetween(x, y, z);
    }
  }

  /** And where the logs of two blocks of one time cross, the chain can give amounts whose timeline does not run. */
  lemma {:induction false} CrossingBreaks(rows: seq<Row>, a: Row, b: Row, c: Row) returns (other: seq<Row>)
    requires FromChain(rows) && a in rows && b in rows && c in rows && Crosses(a, b, c)
    ensures SameButAmounts(Chronological(rows), other) && FromChain(other)
    ensures !BalancesRunIn(Chronological(other))
  {
    CrossingSplits(rows, a, b, c);
    ChronologicalOk(rows);
    other := SplitBreaks(Chronological(rows));
    FromChainToo(rows, other);
    OrderedToo(Chronological(rows), other);
    SortedStays(other);
  }

  /** A transfer of one share in, as the indexer writes it. */
  function TransferIn(block: nat, log: nat, tx: string, sharesAfter: int): Row {
    Row(42161, Place(1700000000000, block, log), tx, Balance, "0xa", "TRANSFER", 1, sharesAfter, 0, 0, "", "VAULT")
  }

  lemma {:induction false} AddedLast(rows: seq<Row>, row: Row)
    ensures Grouped(rows + [row]) == Added(Grouped(rows), row)
  {
    assert (rows + [row])[..|rows|] == rows;
  }

  predicate OneShare(row: Row) { row.kind.Balance? && row.delta == 1 }

  lemma {:induction false} AddedToNew(g: Grouping, row: Row, total: int)
    requires OneShare(row) && BalanceOf(g.balances, ProductOf(row)) == total
    requires forall i | 0 <= i < |g.groups| :: g.groups[i].key != KeyOf(row)
    ensures Added(g, row).groups == g.groups + [Slot(KeyOf(row), Group([row], total + 1))]
    ensures BalanceOf(Added(g, row).balances, ProductOf(row)) == total + 1
  {
    assert [] + [row] == [row];
  }

  lemma {:induction false} AddedToFirst(g: Grouping, row: Row, total: int)
    requires OneShare(row) && BalanceOf(g.balances, ProductOf(row)) == total
    requires g.groups != [] && g.groups[0].key == KeyOf(row)
    ensures Added(g, row).groups == g.groups[0 := Slot(KeyOf(row), Group(g.groups[0].held.rows + [row], total + 1))]
  {
  }

  lemma {:induction false} OneGrouped(a: Row)
    requires OneShare(a)
    ensures Grouped([a]).groups == [Slot(KeyOf(a), Group([a], 1))]
    ensures BalanceOf(Grouped([a]).balances, ProductOf(a)) == 1
  {
    AddedLast([], a);
    assert [] + [a] == [a] && Grouped([]) == Grouping([], map[]);
    AddedToNew(Grouped([]), a, 0);
  }

  lemma {:induction false} TwoGrouped(a: Row, b: Row)
    requires OneShare(a) && OneShare(b) && ProductOf(b) == ProductOf(a) && KeyOf(b) != KeyOf(a)
    ensures Grouped([a, b]).groups == [Slot(KeyOf(a), Group([a], 1)), Slot(KeyOf(b), Group([b], 2))]
    ensures BalanceOf(Grouped([a, b]).balances, ProductOf(a)) == 2
  {
    hide Grouped, Added, BalanceOf, KeyOf, ProductOf;
    OneGrouped(a);
    AddedLast([a], b);
    assert [a] + [b] == [a, b];
    AddedToNew(Grouped([a]), b, 1);
  }

  lemma {:induction false} ThreeGrouped(a: Row, b: Row, c: Row)
    requires OneShare(a) && OneShare(b) && OneShare(c)
    requires KeyOf(a) == KeyOf(c) && ProductOf(b) == ProductOf(a) && KeyOf(b) != KeyOf(a)
    ensures Grouped([a, b, c]).groups == [Slot(KeyOf(a), Group([a, c], 3)), Slot(KeyOf(b), Group([b], 2))]
  {
    assert ProductOf(c) == ProductOf(a);
    hide Grouped, Added, BalanceOf, KeyOf, ProductOf;
    TwoGrouped(a, b);
    AddedLast([a, b], c);
    assert [a, b] + [c] == [a, b, c] && [a] + [c] == [a, c];
    AddedToFirst(Grouped([a, b]), c, 2);
  }

  /** The groups of two transactions taken apart, the later ending at 2 and the earlier at 3, do not run. */
  lemma {:induction false} ThreeSharesApart(a: Row, b: Row, c: Row)
    requires OneShare(a) && OneShare(b) && OneShare(c)
    requires KeyOf(a) == KeyOf(c) && ProductOf(b) == ProductOf(a) && KeyOf(b) != KeyOf(a)
    ensures !BalancesRunIn([a, b, c])
  {
    hide Grouped, BalancesRunIn;
    var rows := [a, b, c];
    ThreeGrouped(a, b, c);
    assert Diff([b]) == 1 by { assert [b][..0] == []; }
    assert Previous(Grouped(rows).groups, 1, ProductOf(b)) == 3;
    if BalancesRunIn(rows) {
      AllLinked(rows, 1);
      assert false;
    }
  }

  lemma {:induction false} SortedThree(a: Row, c: Row, b: Row)
    requires !Earlier(c, a) && Earlier(b, c) && !Earlier(b, a)
    ensures Chronological([a, c, b]) == [a, b, c]
  {
    assert [a, c, b][..2] == [a, c] && [a, c][..1] == [a] && [a][..0] == [];
    assert Chronological([a]) == [a];
    assert Chronological([a, c]) == [a, c];
    assert Placed([a], b) == [a, b];
  }

  /**
   * A chain with two blocks a second gives such rows: logs 3 and 10 of one block, log 5 of the next, a share each, with
   * the balances 1, 2 and 3 as they ran on the chain. Their timeline does not run.
   */
  lemma {:induction false} TwoBlocksInASecond(rows: seq<Row>)
    requires rows == [TransferIn(1, 3, "t", 1), TransferIn(1, 10, "t", 2), TransferIn(2, 5, "u", 3)]
    ensures FromChain(rows) && !TimesDiffer(rows) && !BalancesRunIn(Chronological(rows))
  {
    hide Chronological, BalancesRunIn;
    var a, c, b := rows[0], rows[1], rows[2];
    assert a.tx[0] != b.tx[0];
    assert a in rows && b in rows;
    SortedThree(a, c, b);
    ThreeSharesApart(a, b, c);
  }
}
