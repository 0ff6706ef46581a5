/**
 * Reads of Envio's history table `envio_history_TimelineEvent`.
 *
 * A read keeps the history rows at or below a frontier, applies its filter, and only then keeps the latest row of each
 * event. Envio's own entity view deduplicates first. The two agree exactly when the filter, wherever it holds of a row
 * of an event, also holds of the event's latest row.
 */
module Events {
  type Chain = nat
  /** The committed checkpoint of each chain; a chain that is missing reads as 0, as a ClickHouse map does. */
  type Frontier = map<Chain, nat>

  datatype HistoryRow = HistoryRow(
    id: nat, chain: Chain, account: nat, ts: nat, checkpoint: nat, isSet: bool, indexerPriced: bool)

  /** What a stored price row is looked up by. */
  datatype Key = Key(account: nat, id: nat, ts: nat)

  function KeyOf(r: HistoryRow): Key { Key(r.account, r.id, r.ts) }

  function At(f: Frontier, chain: Chain): nat { if chain in f then f[chain] else 0 }

  ghost predicate Leq(f: Frontier, g: Frontier) { forall c: Chain :: At(f, c) <= At(g, c) }

  predicate SameEvent(a: HistoryRow, b: HistoryRow) { a.id == b.id && a.chain == b.chain }

  /**
   * The indexer's side of the contract: an event keeps its account and timestamp, has one row per checkpoint, and is
   * never deleted. An id carries its chain id and transaction, so it belongs to one chain.
   */
  ghost predicate WellFormed(h: set<HistoryRow>) {
    && (forall a, b :: a in h && b in h && a.id == b.id ==>
          a.chain == b.chain && a.account == b.account && a.ts == b.ts)
    && (forall a, b :: a in h && b in h && a.id == b.id && a.checkpoint == b.checkpoint ==> a == b)
    && (forall a :: a in h ==> a.isSet)
  }

  predicate Committed(f: Frontier, r: HistoryRow) { r.checkpoint <= At(f, r.chain) }

  function Visible(h: set<HistoryRow>, f: Frontier): set<HistoryRow> {
    set r | r in h && Committed(f, r)
  }

  function Filter(rows: set<HistoryRow>, where: HistoryRow -> bool): set<HistoryRow> {
    set r | r in rows && where(r)
  }

  predicate IsLatest(rows: set<HistoryRow>, r: HistoryRow) {
    r in rows && forall o | o in rows :: SameEvent(o, r) ==> o.checkpoint <= r.checkpoint
  }

  function Latest(rows: set<HistoryRow>): set<HistoryRow> {
    set r | r in rows && IsLatest(rows, r)
  }

  /** The events CTE: committed rows, filtered, latest per event, `SET` only, then filtered on the latest row. */
  function EventsOf(h: set<HistoryRow>, f: Frontier, where: HistoryRow -> bool, latest: HistoryRow -> bool)
    : set<HistoryRow>
  {
    set r | r in Latest(Filter(Visible(h, f), where)) && r.isSet && latest(r)
  }

  /** Envio's entity view, filtered afterwards. */
  function EntityView(h: set<HistoryRow>, f: Frontier, where: HistoryRow -> bool, latest: HistoryRow -> bool)
    : set<HistoryRow>
  {
    set r | r in Latest(Visible(h, f)) && r.isSet && where(r) && latest(r)
  }

  /** Every row has a latest row of its event. */
  lemma {:induction false} LatestRow(rows: set<HistoryRow>, r: HistoryRow) returns (l: HistoryRow)
    requires r in rows
    ensures l in Latest(rows) && SameEvent(l, r) && r.checkpoint <= l.checkpoint
    decreases |set o | o in rows && o.checkpoint > r.checkpoint|
  {
    if o :| o in rows && SameEvent(o, r) && o.checkpoint > r.checkpoint {
      var above := set x | x in rows && x.checkpoint > o.checkpoint;
      var aboveR := set x | x in rows && x.checkpoint > r.checkpoint;
      assert o in aboveR && o !in above;
      SubsetSmaller(above, aboveR);
      l := LatestRow(rows, o);
    } else {
      l := r;
    }
  }

  lemma {:induction false} SubsetSmaller<T>(a: set<T>, b: set<T>)
    requires a < b
    ensures |a| < |b|
  {
    assert b == a + (b - a);
    assert |b| == |a| + |b - a|;
  }

  /** Where the filter holds of some row of an event, it holds of the event's latest row. */
  ghost predicate HoldsOfLatest(rows: set<HistoryRow>, where: HistoryRow -> bool) {
    forall r, l :: r in rows && where(r) && l in Latest(rows) && SameEvent(l, r) ==> where(l)
  }

  /** An event has one row per checkpoint: the latest is unique. */
  ghost predicate OneRowPerCheckpoint(rows: set<HistoryRow>) {
    forall a, b | a in rows && b in rows && SameEvent(a, b) && a.checkpoint == b.checkpoint :: a == b
  }

  /**
   * The read, row by row: of the committed rows that match, each event, an id on a chain, gives the one of the highest
   * checkpoint and no other, unless that one is a deletion or fails the filter on latest rows.
   */
  lemma {:induction false} OneRowPerEvent(h: set<HistoryRow>, f: Frontier, where: HistoryRow -> bool,
                                          latest: HistoryRow -> bool, r: HistoryRow)
    returns (l: HistoryRow)
    requires forall a, b | a in h && b in h && a.id == b.id && a.chain == b.chain && a.checkpoint == b.checkpoint ::
      a == b
    requires r in h && r.checkpoint <= At(f, r.chain) && where(r)
    ensures l in h && l.id == r.id && l.chain == r.chain && l.checkpoint <= At(f, l.chain) && where(l)
    ensures forall o | o in h && o.id == r.id && o.chain == r.chain && o.checkpoint <= At(f, o.chain) && where(o) ::
      o.checkpoint <= l.checkpoint
    ensures l in EventsOf(h, f, where, latest) <==> l.isSet && latest(l)
    ensures forall e | e in EventsOf(h, f, where, latest) && e.id == r.id && e.chain == r.chain :: e == l
  {
    var rows := Filter(Visible(h, f), where);
    l := LatestRow(rows, r);
    forall o | o in h && o.id == r.id && o.chain == r.chain && o.checkpoint <= At(f, o.chain) && where(o)
      ensures o.checkpoint <= l.checkpoint
    {
      assert o in rows && SameEvent(o, l);
    }
    forall e | e in EventsOf(h, f, where, latest) && e.id == r.id && e.chain == r.chain ensures e == l {
      assert SameEvent(l, e) && e in Latest(rows) && l in rows;
    }
  }

  /**
   * Filtering before the deduplication is the same as filtering after it, exactly under that condition, for events that
   * may move to another account or time and may be deleted.
   */
  lemma {:induction false} FilterBeforeDedup(rows: set<HistoryRow>, where: HistoryRow -> bool)
    requires OneRowPerCheckpoint(rows)
    ensures Latest(Filter(rows, where)) == Filter(Latest(rows), where) <==> HoldsOfLatest(rows, where)
  {
    var before, after := Latest(Filter(rows, where)), Filter(Latest(rows), where);
    if HoldsOfLatest(rows, where) {
      forall r | r in before ensures r in after {
        var l := LatestRow(rows, r);
        assert l in Filter(rows, where);
      }
      assert before == after;
    }
    if before == after {
      forall r, l | r in rows && where(r) && l in Latest(rows) && SameEvent(l, r) ensures where(l) {
        var m := LatestRow(Filter(rows, where), r);
        assert m in after;
      }
    }
  }

  /** The API view's filter: an account. */
  lemma {:induction false} AccountRead(h: set<HistoryRow>, f: Frontier, account: nat, latest: HistoryRow -> bool)
    requires WellFormed(h)
    ensures EventsOf(h, f, (r: HistoryRow) => r.account == account, latest)
         == EntityView(h, f, (r: HistoryRow) => r.account == account, latest)
  {
    var where := (r: HistoryRow) => r.account == account;
    assert HoldsOfLatest(Visible(h, f), where);
    FilterBeforeDedup(Visible(h, f), where);
    SameRead(h, f, where, latest);
  }

  /** The reprice job's filter: a time range and a lower bound on the checkpoint of each chain. */
  lemma {:induction false} RangeAboveRead(h: set<HistoryRow>, f: Frontier, lo: int, hi: int, above: Frontier,
                                          latest: HistoryRow -> bool)
    requires WellFormed(h)
    ensures EventsOf(h, f, (r: HistoryRow) => lo <= r.ts < hi && r.checkpoint > At(above, r.chain), latest)
         == EntityView(h, f, (r: HistoryRow) => lo <= r.ts < hi && r.checkpoint > At(above, r.chain), latest)
  {
    var where := (r: HistoryRow) => lo <= r.ts < hi && r.checkpoint > At(above, r.chain);
    assert HoldsOfLatest(Visible(h, f), where);
    FilterBeforeDedup(Visible(h, f), where);
    SameRead(h, f, where, latest);
  }

  lemma {:induction false} SameRead(h: set<HistoryRow>, f: Frontier, where: HistoryRow -> bool,
                                    latest: HistoryRow -> bool)
    requires Latest(Filter(Visible(h, f), where)) == Filter(Latest(Visible(h, f)), where)
    ensures EventsOf(h, f, where, latest) == EntityView(h, f, where, latest)
  {
    var a, b := EventsOf(h, f, where, latest), EntityView(h, f, where, latest);
    forall r ensures r in a <==> r in b {
      assert r in Filter(Latest(Visible(h, f)), where) <==> r in Latest(Visible(h, f)) && where(r);
    }
  }

  /** No row of the account belongs to an event that has moved away since. */
  ghost predicate StayWith(rows: set<HistoryRow>, account: nat) {
    forall r, l | r in rows && r.account == account && l in Latest(rows) && SameEvent(l, r) :: l.account == account
  }

  /** Reading by account is exact if and only if no event of the account has moved to another one. */
  lemma {:induction false} AccountReadExactly(rows: set<HistoryRow>, account: nat)
    requires OneRowPerCheckpoint(rows)
    ensures var where := (r: HistoryRow) => r.account == account;
      Latest(Filter(rows, where)) == Filter(Latest(rows), where) <==> StayWith(rows, account)
  {
    var where := (r: HistoryRow) => r.account == account;
    FilterBeforeDedup(rows, where);
    if HoldsOfLatest(rows, where) {
      forall r, l | r in rows && r.account == account && l in Latest(rows) && SameEvent(l, r)
        ensures l.account == account
      {
        assert where(r) && where(l);
      }
    }
  }

  /** The failing half: of an event that has moved away, some old row stays visible to the account. */
  lemma {:induction false} MovedEventStaysVisible(rows: set<HistoryRow>, account: nat, r: HistoryRow, l: HistoryRow)
    returns (stale: HistoryRow)
    requires OneRowPerCheckpoint(rows) && r in rows && r.account == account
    requires l in Latest(rows) && SameEvent(l, r) && l.account != account
    ensures stale in Latest(Filter(rows, (x: HistoryRow) => x.account == account))
    ensures stale !in Latest(rows) && SameEvent(stale, r)
  {
    stale := LatestRow(Filter(rows, (x: HistoryRow) => x.account == account), r);
    assert l in rows && stale in rows;
  }

  /**
   * What a statement stores: the keys of the events it reads. Under the contract they are the keys of every matching
   * row, latest or not.
   */
  lemma {:induction false} StoredKeys(h: set<HistoryRow>, f: Frontier, where: HistoryRow -> bool, r: HistoryRow)
    requires WellFormed(h)
    requires r in h && Committed(f, r) && where(r)
    ensures exists e :: e in EventsOf(h, f, where, (x: HistoryRow) => true) && KeyOf(e) == KeyOf(r)
  {
    var l := LatestRow(Filter(Visible(h, f), where), r);
    assert l in EventsOf(h, f, where, (x: HistoryRow) => true) && KeyOf(l) == KeyOf(r);
  }
}
