/** The indexer's store, as the share token handlers read and set its rows. */
module IndexerStore {
  import opened Options
  import L = Ledger
  import Z = ZapAttribution

  /** `ShareTransfer`: the supply after a mint or a burn, nothing for the other transfers. */
  datatype ShareTransfer = ShareTransfer(transfer: Z.Transfer, totalSupplyAfter: Option<int>)

  /** `BoostStake`: a stake or an unstake, as the boost reports it. */
  datatype BoostStake = BoostStake(boost: nat, tx: nat, log: nat, user: nat, amount: nat, stakes: bool)

  /** A chain's events, in log order. */
  datatype Event = Share(transfer: Z.Transfer) | Boost(stake: BoostStake)

  class Store {
    var balances: map<(nat, nat), int>
    var supplies: map<nat, int>
    var rows: seq<L.BalanceRow>
    var flows: Z.Flows
    var marks: set<Z.Row>
    var transfers: seq<ShareTransfer>
    var stakes: seq<BoostStake>

    constructor ()
      ensures Holds([])
    {
      balances, supplies, rows := map[], map[], [];
      flows, marks, transfers, stakes := map[], {}, [], [];
    }

    /** What the rules say of a whole run of events. */
    ghost predicate Holds(run: seq<Event>)
      reads this
    {
      && Book() == L.Replay(Ops(run)) && flows == Z.FlowsOf(Transfers(run)) && marks == Z.Written(Transfers(run))
      && stakes == Stakes(run) && |transfers| == |Transfers(run)|
      && (forall i | 0 <= i < |transfers| :: transfers[i].transfer == Transfers(run)[i])
    }

    function Book(): L.Book
      reads this
    {
      L.Book(balances, supplies, rows)
    }

    method ApplyBalanceDeltas(token: nat, source: L.Source, deltas: seq<L.Delta>)
      modifies this`balances, this`rows
      ensures Book() == L.ApplyDeltas(old(Book()), token, source, deltas)
    {
      var tracked := L.TrackedOf(deltas);
      var before := balances;
      for i := 0 to |tracked|
        invariant supplies == old(supplies)
        invariant L.WriteDeltas(Book(), before, token, source, tracked[i..])
               == L.ApplyDeltas(old(Book()), token, source, deltas)
      {
        var d := tracked[i];
        assert tracked[i..][0] == d && tracked[i..][1..] == tracked[i + 1..];
        var balanceAfter := L.BalanceIn(before, token, d.account) + d.delta;
        balances := balances[(token, d.account) := balanceAfter];
        rows := rows + [L.BalanceRow(token, d.account, source, d.delta, balanceAfter)];
      }
    }

    method ApplySupplyDelta(token: nat, delta: int) returns (totalSupply: int)
      modifies this`supplies
      ensures Book() == L.ApplySupply(old(Book()), token, delta) && totalSupply == L.SupplyOf(Book(), token)
    {
      totalSupply := (if token in supplies then supplies[token] else 0) + delta;
      supplies := supplies[token := totalSupply];
    }

    method WriteTransferTimeline(t: Z.Transfer)
      modifies this`flows, this`marks
      ensures flows == Z.FlowsAfter(old(flows), t)
      ensures marks == old(marks) + Z.RowsOf(Z.LegsFor(old(flows), t), t)
    {
      var isMint, isBurn := t.from == 0, t.to == 0;
      var flow := if t.token in flows && flows[t.token].tx == t.tx then flows[t.token] else Z.Flow(t.tx, []);
      var legs := flow.legs;
      if isMint { marks := marks + {Z.Row(t.token, t.tx, t.log, t.to, Z.MINT)}; }
      if isBurn { marks := marks + {Z.Row(t.token, t.tx, t.log, t.from, Z.BURN)}; }
      if isMint && isBurn { return; }
      if isBurn {
        marks := marks + set leg | leg in legs && leg.from != 0 && leg.to == t.from && leg.value == t.value ::
          Z.Row(t.token, t.tx, leg.log, leg.from, Z.BURN);
        return;
      }
      if !isMint && exists leg | leg in legs :: leg.from == 0 && leg.to == t.from && leg.value == t.value {
        marks := marks + {Z.Row(t.token, t.tx, t.log, t.to, Z.MINT)};
      }
      flows := flows[t.token := Z.Flow(flow.tx, legs + [Z.Leg(t.from, t.to, t.value, t.log)])];
    }

    /** A share token `Transfer`: supply, both balance sides, timeline, and the transfer's own row. */
    method HandleShareTransfer(t: Z.Transfer)
      modifies this`balances, this`rows, this`supplies, this`flows, this`marks, this`transfers
      ensures Book() == L.Apply(old(Book()), L.Send(t.token, t.from, t.to, t.value))
      ensures forall token, account ::
        L.BalanceIn(balances, token, account)
        == L.BalanceIn(old(balances), token, account) + L.Gain(L.Send(t.token, t.from, t.to, t.value), token, account)
      ensures flows == Z.FlowsAfter(old(flows), t)
      ensures marks == old(marks) + Z.RowsOf(Z.LegsFor(old(flows), t), t)
      ensures transfers == old(transfers) + [ShareTransfer(t,
        if L.MovesSupply(t.from, t.to) then Some(L.SupplyOf(Book(), t.token)) else None)]
    {
      var after: Option<int> := None;
      if (t.from == 0) != (t.to == 0) {
        var total := ApplySupplyDelta(t.token, if t.from == 0 then t.value else 0 - t.value);
        after := Some(total);
      }
      if t.from != t.to {
        SuppliesKept(Book(), t.token, L.TRANSFER, L.TransferDeltas(t.from, t.to, t.value));
        ApplyBalanceDeltas(t.token, L.TRANSFER, L.TransferDeltas(t.from, t.to, t.value));
      }
      WriteTransferTimeline(t);
      transfers := transfers + [ShareTransfer(t, after)];
      forall token, account
        ensures L.BalanceIn(balances, token, account) == L.BalanceIn(old(balances), token, account)
                + L.Gain(L.Send(t.token, t.from, t.to, t.value), token, account)
      {
        L.ApplyBalance(old(Book()), L.Send(t.token, t.from, t.to, t.value), token, account);
      }
    }

    /** Boost `Staked` and `Withdrawn`: the boost is treated as a share token. */
    method HandleBoostStake(s: BoostStake)
      modifies this`balances, this`rows, this`supplies, this`stakes
      ensures Book() == L.Apply(old(Book()), OpOf(Boost(s))) && stakes == old(stakes) + [s]
      ensures forall token, account ::
        L.BalanceIn(balances, token, account)
        == L.BalanceIn(old(balances), token, account)
           + if token == s.boost && account == s.user != 0 then (if s.stakes then s.amount else 0 - s.amount) else 0
    {
      var delta := if s.stakes then s.amount else 0 - s.amount;
      var total := ApplySupplyDelta(s.boost, delta);
      ApplyBalanceDeltas(s.boost, L.BOOST_STAKE, [L.Delta(s.user, delta)]);
      stakes := stakes + [s];
      forall token, account
        ensures L.BalanceIn(balances, token, account) == L.BalanceIn(old(balances), token, account)
                + L.Gain(OpOf(Boost(s)), token, account)
      {
        L.ApplyBalance(old(Book()), OpOf(Boost(s)), token, account);
      }
    }

    /** One event of either kind. */
    method HandleEvent(run: seq<Event>, e: Event)
      requires Holds(run)
      modifies this
      ensures Holds(run + [e])
    {
      hide L.Apply, L.Replay, L.Gain, L.BalanceIn, L.SupplyOf, L.MovesSupply;
      hide Z.FlowsAfter, Z.FlowsOf, Z.Written, Z.RowsOf, Z.LegsFor;
      LastEvent(run, e);
      match e {
        case Share(t) => HandleShareTransfer(t);
        case Boost(s) => HandleBoostStake(s);
      }
    }

    /** A chain's events, one after the other: what the store holds is what the rules say of the whole run. */
    method HandleEvents(run: seq<Event>)
      requires Holds([])
      modifies this
      ensures Holds(run)
      ensures forall token ::
        L.SupplyOf(Book(), token) == L.Sum(balances, token) + L.ZeroStaked(Ops(run), token)
      ensures forall token, account ::
        && L.BalanceIn(balances, token, account) == L.Holding(Ops(run), token, account)
        && L.StepsIn(rows, token, account) == L.Gains(Ops(run), token, account)
      ensures L.StepFunction(Book())
      ensures Z.Contiguous(Transfers(run)) ==> forall row :: row in marks <==> Z.InRule(Transfers(run), row)
    {
      for i := 0 to |run|
        invariant Holds(run[..i])
      {
        assert run[..i + 1] == run[..i] + [run[i]];
        HandleEvent(run[..i], run[i]);
      }
      assert run[..|run|] == run;
      forall token
        ensures L.SupplyOf(Book(), token) == L.Sum(balances, token) + L.ZeroStaked(Ops(run), token)
      {
        L.SupplyIsSum(Ops(run), token);
      }
      forall token, account
        ensures L.BalanceIn(balances, token, account) == L.Holding(Ops(run), token, account)
        ensures L.StepsIn(rows, token, account) == L.Gains(Ops(run), token, account)
      {
        L.BalanceIsHolding(Ops(run), token, account);
        L.RowsAreGains(Ops(run), token, account);
      }
      L.RowsAreSteps(Ops(run));
      if Z.Contiguous(Transfers(run)) {
        forall row ensures row in marks <==> Z.InRule(Transfers(run), row) {
          Z.WrittenIsRule(Transfers(run), row);
        }
      }
    }
  }

  /** What an event is to the ledger. */
  function OpOf(e: Event): L.Op {
    match e
    case Share(t) => L.Send(t.token, t.from, t.to, t.value)
    case Boost(s) => if s.stakes then L.Stake(s.boost, s.user, s.amount) else L.Unstake(s.boost, s.user, s.amount)
  }

  function Ops(run: seq<Event>): seq<L.Op> {
    if run == [] then [] else Ops(run[..|run| - 1]) + [OpOf(run[|run| - 1])]
  }

  function Transfers(run: seq<Event>): seq<Z.Transfer> {
    if run == [] then [] else
    var last := run[|run| - 1];
    Transfers(run[..|run| - 1]) + if last.Share? then [last.transfer] else []
  }

  function Stakes(run: seq<Event>): seq<BoostStake> {
    if run == [] then [] else
    var last := run[|run| - 1];
    Stakes(run[..|run| - 1]) + if last.Boost? then [last.stake] else []
  }

  /** What one more event adds to each replay. */
  lemma {:induction false} LastEvent(run: seq<Event>, e: Event)
    ensures L.Replay(Ops(run + [e])) == L.Apply(L.Replay(Ops(run)), OpOf(e))
    ensures Transfers(run + [e]) == if e.Share? then Transfers(run) + [e.transfer] else Transfers(run)
    ensures Stakes(run + [e]) == if e.Boost? then Stakes(run) + [e.stake] else Stakes(run)
    ensures e.Share? ==>
      var before, t := Transfers(run), e.transfer;
      && Z.FlowsOf(before + [t]) == Z.FlowsAfter(Z.FlowsOf(before), t)
      && Z.Written(before + [t]) == Z.Written(before) + Z.RowsOf(Z.LegsFor(Z.FlowsOf(before), t), t)
  {
    assert (run + [e])[..|run|] == run;
    assert Transfers(run) + [] == Transfers(run) && Stakes(run) + [] == Stakes(run);
    assert (Ops(run) + [OpOf(e)])[..|Ops(run)|] == Ops(run);
    if e.Share? { assert (Transfers(run) + [e.transfer])[..|Transfers(run)|] == Transfers(run); }
  }

  /** Writing balances leaves the supplies alone. */
  lemma {:induction false} SuppliesKept(b: L.Book, token: nat, source: L.Source, deltas: seq<L.Delta>)
    ensures L.ApplyDeltas(b, token, source, deltas).supplies == b.supplies
  {
    WritesKeepSupplies(b, b.balances, token, source, L.TrackedOf(deltas));
  }

  lemma {:induction false} WritesKeepSupplies(b: L.Book, before: map<(nat, nat), int>, token: nat, source: L.Source,
                                              deltas: seq<L.Delta>)
    ensures L.WriteDeltas(b, before, token, source, deltas).supplies == b.supplies
    decreases |deltas|
  {
    if deltas != [] {
      var d := deltas[0];
      var after := L.BalanceIn(before, token, d.account) + d.delta;
      WritesKeepSupplies(b.(balances := b.balances[(token, d.account) := after],
                            rows := b.rows + [L.BalanceRow(token, d.account, source, d.delta, after)]),
                         before, token, source, deltas[1..]);
    }
  }
}
