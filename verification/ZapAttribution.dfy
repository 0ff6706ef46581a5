/**
 * The MINT and BURN rows of share token transfers (apps/indexer/src/lib/timeline.ts). The handler sees one transfer at
 * a time and keeps one `ShareFlow` per token: the legs of the token's current transaction. The rule it implements
 * speaks of a whole transaction.
 */
module ZapAttribution {
  /** A token stands for a chain and a token address; account 0 is the zero address. */
  datatype Transfer = Transfer(token: nat, tx: nat, log: nat, from: nat, to: nat, value: nat)
  datatype Kind = MINT | BURN
  /** A timeline row: its id is the transaction, log index, account and kind. */
  datatype Row = Row(token: nat, tx: nat, log: nat, account: nat, kind: Kind)
  datatype Leg = Leg(from: nat, to: nat, value: nat, log: nat)
  datatype Flow = Flow(tx: nat, legs: seq<Leg>)
  type Flows = map<nat, Flow>

  predicate IsMint(t: Transfer) { t.from == 0 }
  predicate IsBurn(t: Transfer) { t.to == 0 }

  /* ---------------------------------------------------------------- the handler */

  function LegOf(t: Transfer): Leg { Leg(t.from, t.to, t.value, t.log) }

  /** The legs kept for this transfer's token: a flow of another transaction is over. */
  function LegsFor(flows: Flows, t: Transfer): seq<Leg> {
    if t.token in flows && flows[t.token].tx == t.tx then flows[t.token].legs else []
  }

  /** The rows of one transfer, given the legs kept. */
  function RowsOf(legs: seq<Leg>, t: Transfer): set<Row> {
    var direct := (if IsMint(t) then {Row(t.token, t.tx, t.log, t.to, MINT)} else {})
                + (if IsBurn(t) then {Row(t.token, t.tx, t.log, t.from, BURN)} else {});
    if IsMint(t) && IsBurn(t) then direct
    else if IsBurn(t) then
      direct + set leg | leg in legs && leg.from != 0 && leg.to == t.from && leg.value == t.value ::
        Row(t.token, t.tx, leg.log, leg.from, BURN)
    else if !IsMint(t) && exists leg | leg in legs :: leg.from == 0 && leg.to == t.from && leg.value == t.value then
      direct + {Row(t.token, t.tx, t.log, t.to, MINT)}
    else direct
  }

  /** The flow after it: burns are not kept. */
  function FlowsAfter(flows: Flows, t: Transfer): Flows {
    if IsBurn(t) then flows else flows[t.token := Flow(t.tx, LegsFor(flows, t) + [LegOf(t)])]
  }

  function FlowsOf(run: seq<Transfer>): Flows {
    if run == [] then map[] else FlowsAfter(FlowsOf(run[..|run| - 1]), run[|run| - 1])
  }

  /** Every row written over a run, transfer by transfer. */
  function Written(run: seq<Transfer>): set<Row> {
    if run == [] then {}
    else
      var before, t := run[..|run| - 1], run[|run| - 1];
      Written(before) + RowsOf(LegsFor(FlowsOf(before), t), t)
  }

  /* ---------------------------------------------------------------- the rule */

  predicate SameFlow(a: Transfer, b: Transfer) { a.token == b.token && a.tx == b.tx }
  predicate Ordinary(t: Transfer) { !IsMint(t) && !IsBurn(t) }

  /** `b` passes on the shares `a` moved: same value, out of the account that received them. */
  predicate PassesOn(a: Transfer, b: Transfer) { SameFlow(a, b) && a.to == b.from && a.value == b.value }

  /** A transfer from the zero address marks the receiver, one to it the sender. */
  ghost predicate Direct(run: seq<Transfer>, i: nat, row: Row)
    requires i < |run|
  {
    var t := run[i];
    (IsMint(t) && row == Row(t.token, t.tx, t.log, t.to, MINT))
    || (IsBurn(t) && row == Row(t.token, t.tx, t.log, t.from, BURN))
  }

  /** Shares minted to an account and forwarded later mark the receiver of the forward. */
  ghost predicate RoutedMint(run: seq<Transfer>, i: nat, j: nat, row: Row)
    requires i < j < |run|
  {
    IsMint(run[i]) && !IsBurn(run[i]) && Ordinary(run[j]) && PassesOn(run[i], run[j])
    && row == Row(run[j].token, run[j].tx, run[j].log, run[j].to, MINT)
  }

  /** Shares received by an account and burned by it later mark the sender. */
  ghost predicate RoutedBurn(run: seq<Transfer>, i: nat, j: nat, row: Row)
    requires i < j < |run|
  {
    Ordinary(run[i]) && IsBurn(run[j]) && !IsMint(run[j]) && PassesOn(run[i], run[j])
    && row == Row(run[i].token, run[i].tx, run[i].log, run[i].from, BURN)
  }

  ghost predicate Routed(run: seq<Transfer>, i: nat, j: nat, row: Row)
    requires i < j < |run|
  {
    RoutedMint(run, i, j, row) || RoutedBurn(run, i, j, row)
  }

  ghost predicate InRule(run: seq<Transfer>, row: Row) {
    || (exists i :: 0 <= i < |run| && Direct(run, i, row))
    || (exists i, j :: 0 <= i < j < |run| && Routed(run, i, j, row))
  }

  /** A token's transfers of one transaction are not interleaved with its transfers of another. */
  ghost predicate Contiguous(run: seq<Transfer>) {
    forall i, k, j | 0 <= i < k < j < |run| && SameFlow(run[i], run[j]) && run[k].token == run[i].token ::
      run[k].tx == run[i].tx
  }

  /* ---------------------------------------------------------------- the flow is the transaction so far */

  ghost predicate KeptLeg(run: seq<Transfer>, token: nat, tx: nat, i: nat)
    requires i < |run|
  {
    run[i].token == token && run[i].tx == tx && !IsBurn(run[i])
  }

  /** The legs of a flow are those of its transaction's transfers so far, without the burns. */
  ghost predicate LegsAre(run: seq<Transfer>, token: nat, tx: nat, legs: seq<Leg>) {
    && (forall leg | leg in legs :: exists i :: 0 <= i < |run| && KeptLeg(run, token, tx, i) && leg == LegOf(run[i]))
    && (forall i | 0 <= i < |run| && KeptLeg(run, token, tx, i) :: LegOf(run[i]) in legs)
  }

  predicate Keeps(t: Transfer, token: nat) { t.token == token && !IsBurn(t) }

  /** The token's last transfer that is not a burn, and its transaction. */
  ghost predicate LastKept(run: seq<Transfer>, token: nat, tx: nat, k: nat)
    requires k < |run|
  {
    KeptLeg(run, token, tx, k) && forall i | k < i < |run| :: !Keeps(run[i], token)
  }

  /** The flow kept for a token is that of its last transfer that is not a burn. */
  ghost predicate FlowIsLast(run: seq<Transfer>, token: nat, flows: Flows) {
    if token in flows then
      && LegsAre(run, token, flows[token].tx, flows[token].legs)
      && (exists k :: 0 <= k < |run| && LastKept(run, token, flows[token].tx, k))
    else forall i | 0 <= i < |run| :: !Keeps(run[i], token)
  }

  lemma {:induction false} ContiguousPrefix(run: seq<Transfer>)
    requires Contiguous(run) && run != []
    ensures Contiguous(run[..|run| - 1])
  {
    var before := run[..|run| - 1];
    forall i, k, j | 0 <= i < k < j < |before| && SameFlow(before[i], before[j]) && before[k].token == before[i].token
      ensures before[k].tx == before[i].tx
    {
      assert run[i] == before[i] && run[k] == before[k] && run[j] == before[j];
    }
  }

  /** A transaction that comes back after another one of the token is not contiguous. */
  lemma {:induction false} NoneBefore(before: seq<Transfer>, t: Transfer, tx: nat, k: nat, i: nat)
    requires k < |before| && LastKept(before, t.token, tx, k) && tx != t.tx
    requires i < |before| && KeptLeg(before, t.token, t.tx, i)
    ensures !Contiguous(before + [t])
  {
    var run := before + [t];
    assert Keeps(before[i], t.token) && i < k;
    assert run[i] == before[i] && run[k] == before[k] && run[|before|] == t;
    assert SameFlow(run[i], run[|before|]) && run[k].tx != run[i].tx;
  }

  /** What the next transfer finds: the legs of its own transaction, all of them and no other. */
  lemma {:induction false} LegsFound(before: seq<Transfer>, t: Transfer, flows: Flows)
    requires Contiguous(before + [t]) && FlowIsLast(before, t.token, flows)
    ensures LegsAre(before, t.token, t.tx, LegsFor(flows, t))
  {
    if t.token in flows {
      if flows[t.token].tx != t.tx {
        var k :| 0 <= k < |before| && LastKept(before, t.token, flows[t.token].tx, k);
        forall i | 0 <= i < |before| ensures !KeptLeg(before, t.token, t.tx, i) {
          if KeptLeg(before, t.token, t.tx, i) {
            NoneBefore(before, t, flows[t.token].tx, k, i);
          }
        }
      }
    } else {
      assert forall i | 0 <= i < |before| :: KeptLeg(before, t.token, t.tx, i) ==> Keeps(before[i], t.token);
    }
  }

  lemma {:induction false} FlowsKept(run: seq<Transfer>, token: nat)
    requires Contiguous(run)
    ensures FlowIsLast(run, token, FlowsOf(run))
  {
    if run != [] {
      var before, t := run[..|run| - 1], run[|run| - 1];
      assert run == before + [t];
      ContiguousPrefix(run);
      FlowsKept(before, token);
      FlowStep(before, t, token, FlowsOf(before));
    }
  }

  lemma {:induction false} FlowStep(before: seq<Transfer>, t: Transfer, token: nat, flows: Flows)
    requires Contiguous(before + [t]) && FlowIsLast(before, token, flows)
    ensures FlowIsLast(before + [t], token, FlowsAfter(flows, t))
  {
    var run := before + [t];
    if Keeps(t, token) {
      LegsFound(before, t, flows);
      LegsExtend(before, t, LegsFor(flows, t));
      assert LastKept(run, token, t.tx, |before|);
    } else if token in flows {
      LegsSame(before, t, token, flows[token].tx, flows[token].legs);
      var k :| 0 <= k < |before| && LastKept(before, token, flows[token].tx, k);
      StillLast(before, t, token, flows[token].tx, k);
    } else {
      forall i | 0 <= i < |run| ensures !Keeps(run[i], token) {
        if i < |before| { assert run[i] == before[i]; }
      }
    }
  }

  lemma {:induction false} StillLast(before: seq<Transfer>, t: Transfer, token: nat, tx: nat, k: nat)
    requires k < |before| && LastKept(before, token, tx, k) && !Keeps(t, token)
    ensures LastKept(before + [t], token, tx, k)
  {
    var run := before + [t];
    assert run[k] == before[k];
    forall i | k < i < |run| ensures !Keeps(run[i], token) {
      if i < |before| { assert run[i] == before[i]; }
    }
  }

  lemma {:induction false} LegsExtend(before: seq<Transfer>, t: Transfer, legs: seq<Leg>)
    requires LegsAre(before, t.token, t.tx, legs) && !IsBurn(t)
    ensures LegsAre(before + [t], t.token, t.tx, legs + [LegOf(t)])
  {
    var run, all := before + [t], legs + [LegOf(t)];
    forall leg | leg in all
      ensures exists i :: 0 <= i < |run| && KeptLeg(run, t.token, t.tx, i) && leg == LegOf(run[i])
    {
      if leg in legs {
        var i :| 0 <= i < |before| && KeptLeg(before, t.token, t.tx, i) && leg == LegOf(before[i]);
        assert KeptLeg(run, t.token, t.tx, i);
      } else {
        assert KeptLeg(run, t.token, t.tx, |before|);
      }
    }
    forall i | 0 <= i < |run| && KeptLeg(run, t.token, t.tx, i) ensures LegOf(run[i]) in all {
      if i < |before| { assert KeptLeg(before, t.token, t.tx, i); }
    }
  }

  lemma {:induction false} LegsSame(before: seq<Transfer>, t: Transfer, token: nat, tx: nat, legs: seq<Leg>)
    requires LegsAre(before, token, tx, legs) && (t.token != token || IsBurn(t))
    ensures LegsAre(before + [t], token, tx, legs)
  {
    var run := before + [t];
    forall leg | leg in legs
      ensures exists i :: 0 <= i < |run| && KeptLeg(run, token, tx, i) && leg == LegOf(run[i])
    {
      var i :| 0 <= i < |before| && KeptLeg(before, token, tx, i) && leg == LegOf(before[i]);
      assert KeptLeg(run, token, tx, i);
    }
    forall i | 0 <= i < |run| && KeptLeg(run, token, tx, i) ensures LegOf(run[i]) in legs {
      assert i < |before| && KeptLeg(before, token, tx, i);
    }
  }

  /* ---------------------------------------------------------------- the rows are those of the rule */

  /** The rows a transfer adds to the rule: its own, and those of the pairs it completes. */
  ghost predicate Completes(before: seq<Transfer>, t: Transfer, row: Row) {
    var run := before + [t];
    Direct(run, |before|, row) || exists i :: 0 <= i < |before| && Routed(run, i, |before|, row)
  }

  lemma {:induction false} RuleStep(before: seq<Transfer>, t: Transfer, row: Row)
    ensures InRule(before + [t], row) <==> InRule(before, row) || Completes(before, t, row)
  {
    var run := before + [t];
    forall i | 0 <= i < |before| ensures run[i] == before[i] {}
    if InRule(before, row) {
      if i :| 0 <= i < |before| && Direct(before, i, row) {
        assert Direct(run, i, row);
      } else {
        var i, j :| 0 <= i < j < |before| && Routed(before, i, j, row);
        assert Routed(run, i, j, row);
      }
    }
    if InRule(run, row) && !Completes(before, t, row) {
      if i :| 0 <= i < |run| && Direct(run, i, row) {
        assert Direct(before, i, row);
      } else {
        var i, j :| 0 <= i < j < |run| && Routed(run, i, j, row);
        assert Routed(before, i, j, row);
      }
    }
  }

  lemma {:induction false} RowsComplete(before: seq<Transfer>, t: Transfer, legs: seq<Leg>, row: Row)
    requires LegsAre(before, t.token, t.tx, legs)
    ensures row in RowsOf(legs, t) <==> Completes(before, t, row)
  {
    var run := before + [t];
    forall i | 0 <= i < |before| ensures run[i] == before[i] {}
    if row in RowsOf(legs, t) && !Direct(run, |before|, row) {
      var leg :| leg in legs && leg.to == t.from && leg.value == t.value
                 && (if IsBurn(t) then leg.from != 0 && row == Row(t.token, t.tx, leg.log, leg.from, BURN)
                     else leg.from == 0 && row == Row(t.token, t.tx, t.log, t.to, MINT));
      var i :| 0 <= i < |before| && KeptLeg(before, t.token, t.tx, i) && leg == LegOf(before[i]);
      assert Routed(run, i, |before|, row);
    }
    if i :| 0 <= i < |before| && Routed(run, i, |before|, row) {
      assert KeptLeg(before, t.token, t.tx, i);
      assert LegOf(before[i]) in legs;
    }
  }

  /** For every run where a transaction's logs are contiguous, the rows written are exactly those of the rule. */
  lemma {:induction false} WrittenIsRule(run: seq<Transfer>, row: Row)
    requires Contiguous(run)
    ensures row in Written(run) <==> InRule(run, row)
  {
    if run != [] {
      var before, t := run[..|run| - 1], run[|run| - 1];
      assert run == before + [t];
      ContiguousPrefix(run);
      WrittenIsRule(before, row);
      FlowsKept(before, t.token);
      LegsFound(before, t, FlowsOf(before));
      RowsComplete(before, t, LegsFor(FlowsOf(before), t), row);
      RuleStep(before, t, row);
    }
  }

  /* ---------------------------------------------------------------- the rule as the source words it */

  /**
   * The source's comment has the forward go to another account, and the handler does not look: a transfer of the minted
   * value from the account to itself.
   */
  ghost predicate SelfForward(run: seq<Transfer>, i: nat, j: nat)
    requires i < j < |run|
  {
    IsMint(run[i]) && !IsBurn(run[i]) && Ordinary(run[j]) && PassesOn(run[i], run[j]) && run[j].from == run[j].to
  }

  ghost predicate WordedRoute(run: seq<Transfer>, i: nat, j: nat, row: Row)
    requires i < j < |run|
  {
    (RoutedMint(run, i, j, row) && run[j].from != run[j].to) || RoutedBurn(run, i, j, row)
  }

  ghost predicate InWordedRule(run: seq<Transfer>, row: Row) {
    || (exists i :: 0 <= i < |run| && Direct(run, i, row))
    || (exists i, j :: 0 <= i < j < |run| && WordedRoute(run, i, j, row))
  }

  /** A log index of a transaction is one transfer of the token. */
  ghost predicate DistinctLogs(run: seq<Transfer>) {
    forall i, j | 0 <= i < j < |run| && SameFlow(run[i], run[j]) :: run[i].log != run[j].log
  }

  lemma {:induction false} WordedIsRule(run: seq<Transfer>, row: Row)
    requires forall i, j | 0 <= i < j < |run| :: !SelfForward(run, i, j)
    ensures InWordedRule(run, row) <==> InRule(run, row)
  {
    if i, j :| 0 <= i < j < |run| && Routed(run, i, j, row) {
      assert !SelfForward(run, i, j);
      assert WordedRoute(run, i, j, row);
    }
    if i, j :| 0 <= i < j < |run| && WordedRoute(run, i, j, row) {
      assert Routed(run, i, j, row);
    }
  }

  /** The row a self-forward adds is in the handler's rule and not in the worded one. */
  lemma {:induction false} SelfForwardDiffers(run: seq<Transfer>, i: nat, j: nat) returns (row: Row)
    requires DistinctLogs(run) && i < j < |run| && SelfForward(run, i, j)
    ensures InRule(run, row) && !InWordedRule(run, row)
  {
    row := Row(run[j].token, run[j].tx, run[j].log, run[j].to, MINT);
    assert Routed(run, i, j, row);
    forall k: nat | k < |run| ensures !Direct(run, k, row) {
      assert k != j ==> !SameFlow(run[k], run[j]) || run[k].log != run[j].log;
    }
    forall k: nat, l: nat | k < l < |run| ensures !WordedRoute(run, k, l, row) {
      assert l != j ==> !SameFlow(run[l], run[j]) || run[l].log != run[j].log;
    }
  }

  /**
   * The rows written are those of the rule as the source words it if and only if no account that was minted a value
   * passes that value to itself later in the transaction.
   */
  lemma {:induction false} WrittenIsWorded(run: seq<Transfer>)
    requires Contiguous(run) && DistinctLogs(run)
    ensures (forall row :: row in Written(run) <==> InWordedRule(run, row))
       <==> (forall i, j | 0 <= i < j < |run| :: !SelfForward(run, i, j))
  {
    if i, j :| 0 <= i < j < |run| && SelfForward(run, i, j) {
      var row := SelfForwardDiffers(run, i, j);
      WrittenIsRule(run, row);
    } else {
      forall row ensures row in Written(run) <==> InWordedRule(run, row) {
        WrittenIsRule(run, row);
        WordedIsRule(run, row);
      }
    }
  }

  /** Such a run: an account is minted a value and transfers it to itself, and is marked at both logs. */
  lemma {:induction false} SelfForwardIsMarked() returns (run: seq<Transfer>, row: Row)
    ensures Contiguous(run) && DistinctLogs(run) && row in Written(run) && !InWordedRule(run, row)
  {
    run := [Transfer(1, 1, 0, 0, 5, 10), Transfer(1, 1, 1, 5, 5, 10)];
    assert SelfForward(run, 0, 1);
    row := SelfForwardDiffers(run, 0, 1);
    WrittenIsRule(run, row);
  }

  /* ---------------------------------------------------------------- what contiguity is for */

  /**
   * Not an input the indexer can receive, since a chain's logs come in order: with interleaved transactions the flow of
   * the first is dropped when the second mints, so contiguity is needed.
   */
  lemma {:induction false} InterleavingLosesMint() returns (run: seq<Transfer>, row: Row)
    ensures !Contiguous(run) && InRule(run, row) && row !in Written(run)
  {
    var mint, other, forward := Transfer(1, 1, 0, 0, 5, 10), Transfer(1, 2, 0, 0, 6, 20), Transfer(1, 1, 1, 5, 7, 10);
    run := [mint, other, forward];
    row := Row(1, 1, 1, 7, MINT);
    assert Routed(run, 0, 2, row);
    assert SameFlow(run[0], run[2]);
    assert run[..2] == [mint, other] && [mint, other][..1] == [mint] && [mint][..0] == [];
    assert LegsFor(FlowsOf([]), mint) == [] && [] + [LegOf(mint)] == [LegOf(mint)];
    assert FlowsOf([mint]) == map[1 := Flow(1, [LegOf(mint)])];
    assert LegsFor(FlowsOf([mint]), other) == [] && [] + [LegOf(other)] == [LegOf(other)];
    assert FlowsOf([mint, other]) == map[1 := Flow(2, [LegOf(other)])];
    assert Written([mint]) == {Row(1, 1, 0, 5, MINT)};
    assert Written([mint, other]) == {Row(1, 1, 0, 5, MINT), Row(1, 2, 0, 6, MINT)};
  }
}
