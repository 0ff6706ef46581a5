/**
 * The running sums of share tokens (apps/indexer/src/lib/balances.ts): balances, supplies, and the balance step
 * function as BALANCE timeline rows. Account 0 is the zero address; a token stands for a chain and a token address.
 */
module Ledger {

  datatype Source = TRANSFER | BOOST_STAKE
  datatype BalanceRow = BalanceRow(token: nat, account: nat, source: Source, delta: int, sharesAfter: int)
  datatype Delta = Delta(account: nat, delta: int)

  /** `Balance` by (token, account), `TokenSupply` by token, and the BALANCE rows in the order they are written. */
  datatype Book = Book(balances: map<(nat, nat), int>, supplies: map<nat, int>, rows: seq<BalanceRow>)

  datatype Op =
    | Send(token: nat, from: nat, to: nat, value: nat)
    | Stake(token: nat, user: nat, amount: nat)
    | Unstake(token: nat, user: nat, amount: nat)

  function BalanceIn(balances: map<(nat, nat), int>, token: nat, account: nat): int {
    if (token, account) in balances then balances[(token, account)] else 0
  }

  function BalanceOf(b: Book, token: nat, account: nat): int { BalanceIn(b.balances, token, account) }

  function SupplyOf(b: Book, token: nat): int { if token in b.supplies then b.supplies[token] else 0 }

  /* ---------------------------------------------------------------- the handlers */

  predicate Tracked(d: Delta) { d.delta != 0 && d.account != 0 }

  function TrackedOf(deltas: seq<Delta>): seq<Delta> {
    if deltas == [] then []
    else
      var rest := TrackedOf(deltas[1..]);
      if Tracked(deltas[0]) then [deltas[0]] + rest else rest
  }

  /** The writes, in order, from the balances read before any of them. */
  function WriteDeltas(b: Book, before: map<(nat, nat), int>, token: nat, source: Source, deltas: seq<Delta>): Book
    decreases |deltas|
  {
    if deltas == [] then b
    else
      var d := deltas[0];
      var after := BalanceIn(before, token, d.account) + d.delta;
      WriteDeltas(b.(balances := b.balances[(token, d.account) := after],
                     rows := b.rows + [BalanceRow(token, d.account, source, d.delta, after)]),
                  before, token, source, deltas[1..])
  }

  function ApplyDeltas(b: Book, token: nat, source: Source, deltas: seq<Delta>): Book {
    WriteDeltas(b, b.balances, token, source, TrackedOf(deltas))
  }

  function ApplySupply(b: Book, token: nat, delta: int): Book {
    b.(supplies := b.supplies[token := SupplyOf(b, token) + delta])
  }

  function TransferDeltas(from: nat, to: nat, value: nat): seq<Delta> { [Delta(from, 0 - value), Delta(to, value)] }

  /** Mint or burn, not both: the supply moves. */
  predicate MovesSupply(from: nat, to: nat) { (from == 0) != (to == 0) }

  function Apply(b: Book, op: Op): Book {
    match op
    case Send(token, from, to, value) =>
      var supplied :=
        if MovesSupply(from, to) then ApplySupply(b, token, if from == 0 then value else 0 - value) else b;
      if from == to then supplied else ApplyDeltas(supplied, token, TRANSFER, TransferDeltas(from, to, value))
    case Stake(token, user, amount) =>
      ApplyDeltas(ApplySupply(b, token, amount), token, BOOST_STAKE, [Delta(user, amount)])
    case Unstake(token, user, amount) =>
      ApplyDeltas(ApplySupply(b, token, 0 - amount), token, BOOST_STAKE, [Delta(user, 0 - amount)])
  }

  function Replay(run: seq<Op>): Book {
    if run == [] then Book(map[], map[], []) else Apply(Replay(run[..|run| - 1]), run[|run| - 1])
  }

  /* ---------------------------------------------------------------- sums */

  /** The sum of a token's balances. */
  ghost function Sum(balances: map<(nat, nat), int>, token: nat): int {
    if balances == map[] then 0
    else
      var k :| k in balances;
      (if k.0 == token then balances[k] else 0) + Sum(balances - {k}, token)
  }

  /** The sum does not depend on the order. */
  lemma {:induction false} SumPick(balances: map<(nat, nat), int>, token: nat, k: (nat, nat))
    requires k in balances
    ensures Sum(balances, token) == (if k.0 == token then balances[k] else 0) + Sum(balances - {k}, token)
    decreases |balances|
  {
    var p :| p in balances
      && Sum(balances, token) == (if p.0 == token then balances[p] else 0) + Sum(balances - {p}, token);
    if p != k {
      SumPick(balances - {p}, token, k);
      SumPick(balances - {k}, token, p);
      assert balances - {p} - {k} == balances - {k} - {p};
    }
  }

  lemma {:induction false} SumSet(balances: map<(nat, nat), int>, token: nat, key: (nat, nat), value: int)
    ensures Sum(balances[key := value], token)
         == Sum(balances, token) + (if key.0 == token then value - BalanceIn(balances, token, key.1) else 0)
  {
    var after := balances[key := value];
    SumPick(after, token, key);
    if key in balances {
      SumPick(balances, token, key);
      assert after - {key} == balances - {key};
    } else {
      assert after - {key} == balances;
    }
  }

  /** The total of the tracked deltas. */
  function Total(deltas: seq<Delta>): int { if deltas == [] then 0 else deltas[0].delta + Total(deltas[1..]) }

  ghost predicate DistinctAccounts(deltas: seq<Delta>) {
    forall i, j | 0 <= i < j < |deltas| :: deltas[i].account != deltas[j].account
  }

  lemma {:induction false} WriteSum(b: Book, before: map<(nat, nat), int>, token: nat, source: Source,
                                    deltas: seq<Delta>, other: nat)
    requires DistinctAccounts(deltas)
    requires forall i | 0 <= i < |deltas| ::
      BalanceIn(before, token, deltas[i].account) == BalanceIn(b.balances, token, deltas[i].account)
    ensures Sum(WriteDeltas(b, before, token, source, deltas).balances, other)
         == Sum(b.balances, other) + (if other == token then Total(deltas) else 0)
    ensures WriteDeltas(b, before, token, source, deltas).supplies == b.supplies
    decreases |deltas|
  {
    if deltas != [] {
      var d := deltas[0];
      var after := BalanceIn(before, token, d.account) + d.delta;
      var next := b.(balances := b.balances[(token, d.account) := after],
                     rows := b.rows + [BalanceRow(token, d.account, source, d.delta, after)]);
      SumSet(b.balances, other, (token, d.account), after);
      WriteSum(next, before, token, source, deltas[1..], other);
    }
  }

  /* ---------------------------------------------------------------- supply and balances */

  /** What a run staked, net, for the zero address: a boost's supply counts it, no balance does. */
  function ZeroStaked(run: seq<Op>, token: nat): int {
    if run == [] then 0
    else
      var op := run[|run| - 1];
      ZeroStaked(run[..|run| - 1], token)
      + (match op
         case Stake(t, user, amount) => if t == token && user == 0 then amount else 0
         case Unstake(t, user, amount) => if t == token && user == 0 then 0 - amount else 0
         case Send(_, _, _, _) => 0)
  }

  lemma {:induction false} TrackedPair(from: nat, to: nat, value: nat)
    requires from != to
    ensures var tracked := TrackedOf(TransferDeltas(from, to, value));
      && DistinctAccounts(tracked)
      && Total(tracked) == (if from == 0 then value else if to == 0 then 0 - value else 0)
  {
    var deltas := TransferDeltas(from, to, value);
    assert deltas[1..] == [Delta(to, value)] && deltas[1..][1..] == [];
    assert TrackedOf(deltas[1..]) == if Tracked(deltas[1]) then [deltas[1]] else [];
    TotalUpToTwo(TrackedOf(deltas));
  }

  lemma {:induction false} TotalUpToTwo(deltas: seq<Delta>)
    requires |deltas| <= 2
    ensures Total(deltas) == if |deltas| == 2 then deltas[0].delta + deltas[1].delta
                             else if |deltas| == 1 then deltas[0].delta else 0
  {
    if |deltas| == 2 {
      assert deltas[1..] == [deltas[1]];
      TotalUpToTwo(deltas[1..]);
    } else if |deltas| == 1 {
      assert deltas[1..] == [];
    }
  }

  lemma {:induction false} TrackedOne(user: nat, delta: int)
    ensures var tracked := TrackedOf([Delta(user, delta)]);
      DistinctAccounts(tracked) && Total(tracked) == if user == 0 then 0 else delta
  {
    var deltas := [Delta(user, delta)];
    assert deltas[1..] == [];
    assert TrackedOf(deltas) == if Tracked(deltas[0]) then deltas else [];
  }

  lemma {:induction false} ApplySum(b: Book, op: Op, token: nat)
    ensures SupplyOf(Apply(b, op), token) - Sum(Apply(b, op).balances, token)
         == SupplyOf(b, token) - Sum(b.balances, token) + ZeroStaked([op], token)
  {
    assert [op][..0] == [];
    match op
    case Send(t, from, to, value) =>
      var supplied := if MovesSupply(from, to) then ApplySupply(b, t, if from == 0 then value else 0 - value) else b;
      if from != to {
        TrackedPair(from, to, value);
        WriteSum(supplied, supplied.balances, t, TRANSFER, TrackedOf(TransferDeltas(from, to, value)), token);
      }
    case Stake(t, user, amount) =>
      TrackedOne(user, amount);
      var supplied := ApplySupply(b, t, amount);
      WriteSum(supplied, supplied.balances, t, BOOST_STAKE, TrackedOf([Delta(user, amount)]), token);
    case Unstake(t, user, amount) =>
      TrackedOne(user, 0 - amount);
      var supplied := ApplySupply(b, t, 0 - amount);
      WriteSum(supplied, supplied.balances, t, BOOST_STAKE, TrackedOf([Delta(user, 0 - amount)]), token);
  }

  /** After every run, a token's supply is the sum of its balances plus what was staked for the zero address. */
  lemma {:induction false} SupplyIsSum(run: seq<Op>, token: nat)
    ensures SupplyOf(Replay(run), token) == Sum(Replay(run).balances, token) + ZeroStaked(run, token)
  {
    if run != [] {
      SupplyIsSum(run[..|run| - 1], token);
      ApplySum(Replay(run[..|run| - 1]), run[|run| - 1], token);
      assert [run[|run| - 1]][..0] == [];
    }
  }

  /** So they are equal exactly when that is nothing. */
  lemma {:induction false} SupplyIsSumExactly(run: seq<Op>, token: nat)
    ensures SupplyOf(Replay(run), token) == Sum(Replay(run).balances, token) <==> ZeroStaked(run, token) == 0
  {
    SupplyIsSum(run, token);
  }

  /**
   * They do come apart: after any run in which they are equal, a stake for the zero address adds to the supply and to
   * no balance.
   */
  lemma {:induction false} ZeroStakeParts(run: seq<Op>, token: nat, amount: nat)
    requires SupplyOf(Replay(run), token) == Sum(Replay(run).balances, token) && amount > 0
    ensures var after := Replay(run + [Stake(token, 0, amount)]);
      && SupplyOf(after, token) == Sum(after.balances, token) + amount
      && forall account :: BalanceOf(after, token, account) == BalanceOf(Replay(run), token, account)
  {
    var op := Stake(token, 0, amount);
    var longer := run + [op];
    assert longer[..|run|] == run;
    SupplyIsSum(run, token);
    SupplyIsSum(longer, token);
    TrackedOne(0, amount);
    assert TrackedOf([Delta(0, amount)]) == [] by { assert [Delta(0, amount)][1..] == []; }
  }

  /* ---------------------------------------------------------------- who holds what */

  /** What transfers sent to the account. */
  function Received(run: seq<Op>, token: nat, account: nat): nat {
    if run == [] then 0 else
    var op := run[|run| - 1];
    Received(run[..|run| - 1], token, account)
    + if op.Send? && op.token == token && op.to == account then op.value else 0
  }

  /** What transfers sent from it. */
  function SentBy(run: seq<Op>, token: nat, account: nat): nat {
    if run == [] then 0 else
    var op := run[|run| - 1];
    SentBy(run[..|run| - 1], token, account)
    + if op.Send? && op.token == token && op.from == account then op.value else 0
  }

  /** What it staked, and unstaked: the boost is the token. */
  function Staked(run: seq<Op>, token: nat, account: nat): nat {
    if run == [] then 0 else
    var op := run[|run| - 1];
    Staked(run[..|run| - 1], token, account)
    + if op.Stake? && op.token == token && op.user == account then op.amount else 0
  }

  function Unstaked(run: seq<Op>, token: nat, account: nat): nat {
    if run == [] then 0 else
    var op := run[|run| - 1];
    Unstaked(run[..|run| - 1], token, account)
    + if op.Unstake? && op.token == token && op.user == account then op.amount else 0
  }

  /** What the run left the account with; the zero address holds nothing. */
  function Holding(run: seq<Op>, token: nat, account: nat): int {
    if account == 0 then 0
    else Received(run, token, account) - SentBy(run, token, account) + Staked(run, token, account)
         - Unstaked(run, token, account)
  }

  /** The delta of the account among the deltas of an event. */
  function DeltaIn(deltas: seq<Delta>, account: nat): int {
    if deltas == [] then 0
    else (if deltas[0].account == account then deltas[0].delta else 0) + DeltaIn(deltas[1..], account)
  }

  lemma {:induction false} NotAmong(deltas: seq<Delta>, account: nat)
    requires forall i | 0 <= i < |deltas| :: deltas[i].account != account
    ensures DeltaIn(deltas, account) == 0
  {
    if deltas != [] { NotAmong(deltas[1..], account); }
  }

  /** Writing deltas of different accounts changes each account's balance by its delta, and no other. */
  lemma {:induction false} WriteBalance(b: Book, before: map<(nat, nat), int>, token: nat, source: Source,
                                        deltas: seq<Delta>, other: nat, account: nat)
    requires DistinctAccounts(deltas)
    requires forall i | 0 <= i < |deltas| ::
      BalanceIn(before, token, deltas[i].account) == BalanceIn(b.balances, token, deltas[i].account)
    ensures BalanceOf(WriteDeltas(b, before, token, source, deltas), other, account)
         == BalanceOf(b, other, account) + (if other == token then DeltaIn(deltas, account) else 0)
    decreases |deltas|
  {
    if deltas != [] {
      var d := deltas[0];
      var after := BalanceIn(before, token, d.account) + d.delta;
      var next := b.(balances := b.balances[(token, d.account) := after],
                     rows := b.rows + [BalanceRow(token, d.account, source, d.delta, after)]);
      WriteBalance(next, before, token, source, deltas[1..], other, account);
      if d.account == account { NotAmong(deltas[1..], account); }
    }
  }

  lemma {:induction false} TrackedDelta(deltas: seq<Delta>, account: nat)
    ensures DeltaIn(TrackedOf(deltas), account) == if account == 0 then 0 else DeltaIn(deltas, account)
  {
    if deltas != [] { TrackedDelta(deltas[1..], account); }
  }

  /** What one operation leaves the account with more. */
  function Gain(op: Op, token: nat, account: nat): int {
    if op.token != token || account == 0 then 0 else
    match op
    case Send(_, from, to, value) => (if to == account then value else 0) - (if from == account then value else 0)
    case Stake(_, user, amount) => if user == account then amount else 0
    case Unstake(_, user, amount) => if user == account then 0 - amount else 0
  }

  lemma {:induction false} PairDelta(from: nat, to: nat, value: nat, account: nat)
    ensures DeltaIn(TransferDeltas(from, to, value), account)
         == (if to == account then value else 0) - (if from == account then value else 0)
  {
    var deltas := TransferDeltas(from, to, value);
    assert deltas[1..] == [deltas[1]] && deltas[1..][1..] == [];
    assert DeltaIn(deltas[1..], account) == if deltas[1].account == account then deltas[1].delta else 0;
  }

  lemma {:induction false} ApplyBalance(b: Book, op: Op, token: nat, account: nat)
    ensures BalanceOf(Apply(b, op), token, account) == BalanceOf(b, token, account) + Gain(op, token, account)
  {
    match op
    case Send(t, from, to, value) =>
      var deltas := TransferDeltas(from, to, value);
      var supplied := if MovesSupply(from, to) then ApplySupply(b, t, if from == 0 then value else 0 - value) else b;
      if from != to {
        TrackedPair(from, to, value);
        WriteBalance(supplied, supplied.balances, t, TRANSFER, TrackedOf(deltas), token, account);
        TrackedDelta(deltas, account);
        PairDelta(from, to, value, account);
      }
    case Stake(t, user, amount) =>
      StakeBalance(b, t, user, amount, token, account);
    case Unstake(t, user, amount) =>
      StakeBalance(b, t, user, 0 - amount, token, account);
  }

  lemma {:induction false} StakeBalance(b: Book, boost: nat, user: nat, delta: int, token: nat, account: nat)
    ensures
      BalanceOf(ApplyDeltas(ApplySupply(b, boost, delta), boost, BOOST_STAKE, [Delta(user, delta)]), token, account)
         == BalanceOf(b, token, account) + if boost == token && user == account != 0 then delta else 0
  {
    var supplied, deltas := ApplySupply(b, boost, delta), [Delta(user, delta)];
    TrackedOne(user, delta);
    WriteBalance(supplied, supplied.balances, boost, BOOST_STAKE, TrackedOf(deltas), token, account);
    TrackedDelta(deltas, account);
    assert deltas[1..] == [];
  }

  /**
   * After every run, every account's balance of every token is what transfers sent to it less what they sent from it,
   * plus what it staked less what it unstaked.
   */
  lemma {:induction false} BalanceIsHolding(run: seq<Op>, token: nat, account: nat)
    ensures BalanceOf(Replay(run), token, account) == Holding(run, token, account)
  {
    if run != [] {
      var before, op := run[..|run| - 1], run[|run| - 1];
      BalanceIsHolding(before, token, account);
      ApplyBalance(Replay(before), op, token, account);
    }
  }

  /* ---------------------------------------------------------------- what its rows say it gained */

  /** A gain, and the source the row gives it. */
  datatype Step = Step(source: Source, delta: int)

  /** The rows of an account, in order. */
  function StepsIn(rows: seq<BalanceRow>, token: nat, account: nat): seq<Step> {
    if rows == [] then [] else
    var last := rows[|rows| - 1];
    StepsIn(rows[..|rows| - 1], token, account)
    + if last.token == token && last.account == account then [Step(last.source, last.delta)] else []
  }

  /** The operations that left the account with more or less, in order. */
  function Gains(run: seq<Op>, token: nat, account: nat): seq<Step> {
    if run == [] then [] else
    var op := run[|run| - 1];
    Gains(run[..|run| - 1], token, account)
    + if Gain(op, token, account) == 0 then [] else
      [Step(if op.Send? then TRANSFER else BOOST_STAKE, Gain(op, token, account))]
  }

  lemma {:induction false} OneMoreStep(rows: seq<BalanceRow>, row: BalanceRow, token: nat, account: nat)
    ensures StepsIn(rows + [row], token, account)
         == StepsIn(rows, token, account)
            + if row.token == token && row.account == account then [Step(row.source, row.delta)] else []
  {
    assert (rows + [row])[..|rows|] == rows;
  }

  function StepOf(source: Source, delta: int): seq<Step> { if delta == 0 then [] else [Step(source, delta)] }

  lemma {:induction false} WriteStepsIn(b: Book, before: map<(nat, nat), int>, token: nat, source: Source,
                                        deltas: seq<Delta>, other: nat, account: nat)
    requires DistinctAccounts(deltas) && forall i | 0 <= i < |deltas| :: Tracked(deltas[i])
    ensures StepsIn(WriteDeltas(b, before, token, source, deltas).rows, other, account)
         == StepsIn(b.rows, other, account)
            + if other == token then StepOf(source, DeltaIn(deltas, account)) else []
    decreases |deltas|
  {
    if deltas != [] {
      var d := deltas[0];
      var after := BalanceIn(before, token, d.account) + d.delta;
      var row := BalanceRow(token, d.account, source, d.delta, after);
      var next := b.(balances := b.balances[(token, d.account) := after], rows := b.rows + [row]);
      WriteStepsIn(next, before, token, source, deltas[1..], other, account);
      assert WriteDeltas(b, before, token, source, deltas) == WriteDeltas(next, before, token, source, deltas[1..]);
      hide WriteDeltas, StepsIn, BalanceIn, DistinctAccounts;
      OneMoreStep(b.rows, row, other, account);
      if d.account == account { OnlyDelta(deltas, account); }
    }
  }

  lemma {:induction false} OnlyDelta(deltas: seq<Delta>, account: nat)
    requires deltas != [] && DistinctAccounts(deltas) && deltas[0].account == account
    ensures DeltaIn(deltas[1..], account) == 0 && DeltaIn(deltas, account) == deltas[0].delta
  {
    NotAmong(deltas[1..], account);
  }

  lemma {:induction false} ApplyStepsIn(b: Book, op: Op, token: nat, account: nat)
    ensures StepsIn(Apply(b, op).rows, token, account)
         == StepsIn(b.rows, token, account)
            + StepOf(if op.Send? then TRANSFER else BOOST_STAKE, Gain(op, token, account))
  {
    hide WriteDeltas, StepsIn, TrackedOf;
    match op
    case Send(t, from, to, value) =>
      var deltas := TransferDeltas(from, to, value);
      var supplied := if MovesSupply(from, to) then ApplySupply(b, t, if from == 0 then value else 0 - value) else b;
      if from != to {
        TrackedPair(from, to, value);
        TrackedAre(deltas);
        WriteStepsIn(supplied, supplied.balances, t, TRANSFER, TrackedOf(deltas), token, account);
        TrackedDelta(deltas, account);
        PairDelta(from, to, value, account);
      }
    case Stake(t, user, amount) =>
      StakeStepsIn(b, t, user, amount, token, account);
    case Unstake(t, user, amount) =>
      StakeStepsIn(b, t, user, 0 - amount, token, account);
  }

  lemma {:induction false} StakeStepsIn(b: Book, boost: nat, user: nat, delta: int, token: nat, account: nat)
    ensures StepsIn(ApplyDeltas(ApplySupply(b, boost, delta), boost, BOOST_STAKE, [Delta(user, delta)]).rows, token,
                    account)
         == StepsIn(b.rows, token, account)
            + if boost == token && user == account != 0 then StepOf(BOOST_STAKE, delta) else []
  {
    var supplied, deltas := ApplySupply(b, boost, delta), [Delta(user, delta)];
    TrackedOne(user, delta);
    TrackedAre(deltas);
    WriteStepsIn(supplied, supplied.balances, boost, BOOST_STAKE, TrackedOf(deltas), token, account);
    TrackedDelta(deltas, account);
    assert deltas[1..] == [];
  }

  /**
   * After every run, an account's BALANCE rows of a token are its gains and losses, one row for each operation that
   * changed what it holds, in order, marked as a transfer or a stake.
   */
  lemma {:induction false} RowsAreGains(run: seq<Op>, token: nat, account: nat)
    ensures StepsIn(Replay(run).rows, token, account) == Gains(run, token, account)
  {
    if run != [] {
      var before, op := run[..|run| - 1], run[|run| - 1];
      RowsAreGains(before, token, account);
      ApplyStepsIn(Replay(before), op, token, account);
    }
  }

  /* ---------------------------------------------------------------- the step function */

  /** `sharesAfter` of the account's latest row, 0 before the first. */
  function LastShares(rows: seq<BalanceRow>, token: nat, account: nat): int {
    if rows == [] then 0
    else
      var last := rows[|rows| - 1];
      if last.token == token && last.account == account then last.sharesAfter
      else LastShares(rows[..|rows| - 1], token, account)
  }

  ghost predicate IsStep(rows: seq<BalanceRow>, i: nat)
    requires i < |rows|
  {
    var row := rows[i];
    row.account != 0 && row.delta != 0
    && row.sharesAfter == LastShares(rows[..i], row.token, row.account) + row.delta
  }

  ghost predicate StepFunction(b: Book) {
    && (forall i | 0 <= i < |b.rows| :: IsStep(b.rows, i))
    && (forall token, account :: BalanceOf(b, token, account) == LastShares(b.rows, token, account))
  }

  lemma {:induction false} AppendStep(rows: seq<BalanceRow>, row: BalanceRow)
    requires forall i | 0 <= i < |rows| :: IsStep(rows, i)
    requires row.account != 0 && row.delta != 0
    requires row.sharesAfter == LastShares(rows, row.token, row.account) + row.delta
    ensures forall i | 0 <= i < |rows + [row]| :: IsStep(rows + [row], i)
  {
    var all := rows + [row];
    forall i | 0 <= i < |all| ensures IsStep(all, i) {
      if i < |rows| {
        assert all[..i] == rows[..i] && IsStep(rows, i);
      } else {
        assert all[..i] == rows;
      }
    }
  }

  lemma {:induction false} WriteSteps(b: Book, before: map<(nat, nat), int>, token: nat, source: Source,
                                      deltas: seq<Delta>)
    requires StepFunction(b) && DistinctAccounts(deltas)
    requires forall i | 0 <= i < |deltas| :: Tracked(deltas[i])
    requires forall i | 0 <= i < |deltas| ::
      BalanceIn(before, token, deltas[i].account) == BalanceIn(b.balances, token, deltas[i].account)
    ensures StepFunction(WriteDeltas(b, before, token, source, deltas))
    decreases |deltas|
  {
    if deltas != [] {
      var d := deltas[0];
      var after := BalanceIn(before, token, d.account) + d.delta;
      var row := BalanceRow(token, d.account, source, d.delta, after);
      var next := b.(balances := b.balances[(token, d.account) := after], rows := b.rows + [row]);
      assert BalanceOf(b, token, d.account) == LastShares(b.rows, token, d.account);
      AppendStep(b.rows, row);
      forall t, a ensures BalanceOf(next, t, a) == LastShares(next.rows, t, a) {
        assert next.rows[..|next.rows| - 1] == b.rows;
        assert BalanceOf(b, t, a) == LastShares(b.rows, t, a);
      }
      WriteSteps(next, before, token, source, deltas[1..]);
    }
  }

  lemma {:induction false} TrackedAre(deltas: seq<Delta>)
    ensures forall i | 0 <= i < |TrackedOf(deltas)| :: Tracked(TrackedOf(deltas)[i])
  {
    if deltas != [] { TrackedAre(deltas[1..]); }
  }

  lemma {:induction false} ApplySteps(b: Book, op: Op)
    requires StepFunction(b)
    ensures StepFunction(Apply(b, op))
  {
    match op
    case Send(t, from, to, value) =>
      var supplied := if MovesSupply(from, to) then ApplySupply(b, t, if from == 0 then value else 0 - value) else b;
      assert StepFunction(supplied);
      if from != to {
        TrackedPair(from, to, value);
        TrackedAre(TransferDeltas(from, to, value));
        WriteSteps(supplied, supplied.balances, t, TRANSFER, TrackedOf(TransferDeltas(from, to, value)));
      }
    case Stake(t, user, amount) =>
      StakeSteps(b, t, user, amount);
    case Unstake(t, user, amount) =>
      StakeSteps(b, t, user, 0 - amount);
  }

  lemma {:induction false} StakeSteps(b: Book, token: nat, user: nat, delta: int)
    requires StepFunction(b)
    ensures StepFunction(ApplyDeltas(ApplySupply(b, token, delta), token, BOOST_STAKE, [Delta(user, delta)]))
  {
    var supplied := ApplySupply(b, token, delta);
    TrackedOne(user, delta);
    TrackedAre([Delta(user, delta)]);
    WriteSteps(supplied, supplied.balances, token, BOOST_STAKE, TrackedOf([Delta(user, delta)]));
  }

  /**
   * After every run, each account's BALANCE rows are a step function: each row is the previous one plus its own
   * non-zero delta, the last one is the account's balance, and the zero address has none.
   */
  lemma {:induction false} RowsAreSteps(run: seq<Op>)
    ensures StepFunction(Replay(run))
  {
    if run != [] {
      RowsAreSteps(run[..|run| - 1]);
      ApplySteps(Replay(run[..|run| - 1]), run[|run| - 1]);
    }
  }
}
