/**
 * Building a user's timeline (apps/api/src/timeline/build.ts): one account's rows, oldest first, into one item per
 * transaction and product, newest first. A text key `chain:address:hash` of the source is here its parts.
 */
module Build {
  import opened InsertionMap
  import opened Options

  datatype Kind = Balance | ClmDeposit | ClmWithdraw | Claim | Mint | Burn
  /** Where a row stands in its chain; the time is its block's, in milliseconds. */
  datatype Place = Place(time: nat, block: nat, log: nat)

  datatype Row = Row(
    chain: nat, place: Place, tx: string, kind: Kind, contract: string, source: string, delta: int, sharesAfter: int,
    amount0: int, amount1: int, productAddress: string, contractKind: string)

  datatype Product = Product(chain: nat, address: string)
  datatype Key = Key(product: Product, tx: string)
  datatype Group = Group(rows: seq<Row>, balanceAfter: int)

  function ProductOf(row: Row): Product {
    Product(row.chain, if row.productAddress == "" then row.contract else row.productAddress)
  }

  function KeyOf(row: Row): Key { Key(ProductOf(row), row.tx) }

  function DeltaOf(row: Row): int { if row.kind.Balance? then row.delta else 0 }

  /* ---------------------------------------------------------------- what the groups should hold */

  /** The rows of one transaction and product, in order. */
  function RowsOf(rows: seq<Row>, key: Key): seq<Row> {
    if rows == [] then []
    else
      var last := rows[|rows| - 1];
      RowsOf(rows[..|rows| - 1], key) + if KeyOf(last) == key then [last] else []
  }

  /** All the share changes of a product. */
  function Total(rows: seq<Row>, product: Product): int {
    if rows == [] then 0
    else
      var last := rows[|rows| - 1];
      Total(rows[..|rows| - 1], product) + if ProductOf(last) == product then DeltaOf(last) else 0
  }

  /** The product's total once the last row of the key is in. */
  function TotalAfter(rows: seq<Row>, key: Key): int {
    if rows == [] then 0
    else if KeyOf(rows[|rows| - 1]) == key then Total(rows, key.product)
    else TotalAfter(rows[..|rows| - 1], key)
  }

  function Diff(rows: seq<Row>): int {
    if rows == [] then 0 else Diff(rows[..|rows| - 1]) + DeltaOf(rows[|rows| - 1])
  }

  /* ---------------------------------------------------------------- the grouping loop */

  type Groups = seq<Slot<Key, Group>>
  datatype Grouping = Grouping(groups: Groups, balances: map<Product, int>)

  function BalanceOf(balances: map<Product, int>, product: Product): int {
    if product in balances then balances[product] else 0
  }

  function Added(g: Grouping, row: Row): Grouping {
    var product, key := ProductOf(row), KeyOf(row);
    var i := IndexOf(g.groups, key);
    var before := if i < |g.groups| then g.groups[i].held.rows else [];
    var balances :=
      if row.kind.Balance? then g.balances[product := BalanceOf(g.balances, product) + row.delta] else g.balances;
    Grouping(Put(g.groups, key, Group(before + [row], BalanceOf(balances, product))), balances)
  }

  predicate NoneEmpty(groups: Groups) { forall i | 0 <= i < |groups| :: groups[i].held.rows != [] }

  function Grouped(rows: seq<Row>): (g: Grouping)
    ensures NoneEmpty(g.groups)
  {
    if rows == [] then Grouping([], map[]) else Added(Grouped(rows[..|rows| - 1]), rows[|rows| - 1])
  }

  /** A group holds exactly its key's rows and the product's total after the last of them. */
  ghost predicate GroupOk(rows: seq<Row>, slot: Slot<Key, Group>) {
    && slot.held.rows == RowsOf(rows, slot.key) && slot.held.rows != []
    && slot.held.balanceAfter == TotalAfter(rows, slot.key)
  }

  ghost predicate GroupingOk(rows: seq<Row>, g: Grouping) {
    && DistinctKeys(g.groups)
    && (forall product :: BalanceOf(g.balances, product) == Total(rows, product))
    && (forall i | 0 <= i < |g.groups| :: GroupOk(rows, g.groups[i]))
    && (forall i | 0 <= i < |rows| :: Has(g.groups, KeyOf(rows[i])))
  }

  /** Where no row has the key, there is nothing to hold. */
  lemma {:induction false} NoRows(rows: seq<Row>, key: Key)
    requires forall i | 0 <= i < |rows| :: KeyOf(rows[i]) != key
    ensures RowsOf(rows, key) == []
    decreases |rows|
  {
    if rows != [] { NoRows(rows[..|rows| - 1], key); }
  }

  lemma {:induction false} AddedOk(rows: seq<Row>, row: Row, g: Grouping)
    requires GroupingOk(rows, g)
    ensures GroupingOk(rows + [row], Added(g, row))
  {
    var more, g', key := rows + [row], Added(g, row), KeyOf(row);
    var n := |rows|;
    assert more[..n] == rows && more[n] == row;
    var i := IndexOf(g.groups, key);
    var slot := g'.groups[i];
    PutKeys(g.groups, key, slot.held);
    assert slot.key == key;
    if i == |g.groups| {
      forall j | 0 <= j < n ensures KeyOf(rows[j]) != key { assert Has(g.groups, KeyOf(rows[j])); }
      NoRows(rows, key);
    } else {
      assert GroupOk(rows, g.groups[i]);
    }
    forall product ensures BalanceOf(g'.balances, product) == Total(more, product) {}
    forall j | 0 <= j < |g'.groups| ensures GroupOk(more, g'.groups[j]) {
      if j != i { OtherGroup(rows, row, g.groups[j]); }
    }
    forall j | 0 <= j < |more| ensures Has(g'.groups, KeyOf(more[j])) {
      if j < n { assert Has(g.groups, KeyOf(rows[j])); }
    }
  }

  lemma {:induction false} OtherGroup(rows: seq<Row>, row: Row, slot: Slot<Key, Group>)
    requires GroupOk(rows, slot) && slot.key != KeyOf(row)
    ensures GroupOk(rows + [row], slot)
  {
    assert (rows + [row])[..|rows|] == rows;
  }

  /**
   * Every row is in exactly one group: keys are distinct, each row's key has a group, and a group holds its key's rows,
   * all of them, in order, with the product's total after the last.
   */
  lemma {:induction false} GroupedOk(rows: seq<Row>)
    ensures GroupingOk(rows, Grouped(rows))
    decreases |rows|
  {
    if rows != [] {
      var before, last := rows[..|rows| - 1], rows[|rows| - 1];
      GroupedOk(before);
      AddedOk(before, last, Grouped(before));
      assert before + [last] == rows;
    }
  }

  /* ---------------------------------------------------------------- the moves of a group's contracts */

  datatype Move = Move(kind: string, diff: int, balance: int)
  type Moves = seq<Slot<string, Move>>

  function MoveOf(moves: Moves, row: Row): Move {
    var i := IndexOf(moves, row.contract);
    if i < |moves| then moves[i].held else Move(row.contractKind, 0, 0)
  }

  /** A balance row adds to its contract's move and sets its balance; other rows are left out. */
  function Moved(moves: Moves, row: Row): Moves {
    if !row.kind.Balance? then moves else
    var m := MoveOf(moves, row);
    Put(moves, row.contract, Move(m.kind, m.diff + row.delta, row.sharesAfter))
  }

  function MovesOf(rows: seq<Row>): Moves {
    if rows == [] then [] else Moved(MovesOf(rows[..|rows| - 1]), rows[|rows| - 1])
  }

  function ContractDiff(rows: seq<Row>, contract: string): int {
    if rows == [] then 0
    else
      var last := rows[|rows| - 1];
      ContractDiff(rows[..|rows| - 1], contract) + if last.contract == contract then DeltaOf(last) else 0
  }

  /** The balance the contract's last balance row gives. */
  function LastShares(rows: seq<Row>, contract: string): int {
    if rows == [] then 0
    else
      var last := rows[|rows| - 1];
      if last.kind.Balance? && last.contract == contract then last.sharesAfter
      else LastShares(rows[..|rows| - 1], contract)
  }

  function SumOfMoves(moves: Moves): int { if moves == [] then 0 else moves[0].held.diff + SumOfMoves(moves[1..]) }

  lemma {:induction false} SumAfterPut(moves: Moves, contract: string, m: Move)
    ensures var i := IndexOf(moves, contract);
      SumOfMoves(Put(moves, contract, m))
        == SumOfMoves(moves) + m.diff - (if i < |moves| then moves[i].held.diff else 0)
    decreases |moves|
  {
    if moves == [] {
      assert Put(moves, contract, m) == [Slot(contract, m)];
      assert SumOfMoves([Slot(contract, m)]) == m.diff;
    } else if moves[0].key != contract {
      SumAfterPut(moves[1..], contract, m);
      assert Put(moves, contract, m)[1..] == Put(moves[1..], contract, m);
      assert Put(moves, contract, m)[0] == moves[0];
    } else {
      assert Put(moves, contract, m) == [Slot(contract, m)] + moves[1..];
    }
  }

  /** The kind the contract's first balance row gives it. */
  function FirstKind(rows: seq<Row>, contract: string): Option<string> {
    if rows == [] then None else
    var last, before := rows[|rows| - 1], FirstKind(rows[..|rows| - 1], contract);
    if before.None? && last.kind.Balance? && last.contract == contract then Some(last.contractKind) else before
  }

  ghost predicate MoveOk(rows: seq<Row>, slot: Slot<string, Move>) {
    && slot.held.diff == ContractDiff(rows, slot.key) && slot.held.balance == LastShares(rows, slot.key)
    && FirstKind(rows, slot.key) == Some(slot.held.kind)
  }

  ghost predicate MovesOk(rows: seq<Row>, moves: Moves) {
    && DistinctKeys(moves) && SumOfMoves(moves) == Diff(rows)
    && (forall i | 0 <= i < |moves| :: MoveOk(rows, moves[i]))
    && (forall i | 0 <= i < |rows| && rows[i].kind.Balance? :: Has(moves, rows[i].contract))
  }

  lemma {:induction false} NoMoves(rows: seq<Row>, contract: string)
    requires forall i | 0 <= i < |rows| && rows[i].kind.Balance? :: rows[i].contract != contract
    ensures ContractDiff(rows, contract) == 0 && FirstKind(rows, contract) == None
    decreases |rows|
  {
    if rows != [] { NoMoves(rows[..|rows| - 1], contract); }
  }

  lemma {:induction false} MovedOk(rows: seq<Row>, row: Row, moves: Moves)
    requires MovesOk(rows, moves)
    ensures MovesOk(rows + [row], Moved(moves, row))
  {
    var more, n := rows + [row], |rows|;
    assert more[..n] == rows && more[n] == row;
    if row.kind.Balance? {
      BalanceMoved(rows, row, moves);
    } else {
      forall j | 0 <= j < |moves| ensures MoveOk(more, moves[j]) { assert MoveOk(rows, moves[j]); }
    }
    BalanceRowsMoved(rows, row, moves);
  }

  lemma {:induction false} BalanceRowsMoved(rows: seq<Row>, row: Row, moves: Moves)
    requires MovesOk(rows, moves)
    ensures forall j | 0 <= j < |rows + [row]| && (rows + [row])[j].kind.Balance? ::
      Has(Moved(moves, row), (rows + [row])[j].contract)
  {
    if row.kind.Balance? {
      var m := MoveOf(moves, row);
      PutKeys(moves, row.contract, Move(m.kind, m.diff + row.delta, row.sharesAfter));
    }
    forall j | 0 <= j < |rows + [row]| && (rows + [row])[j].kind.Balance?
      ensures Has(Moved(moves, row), (rows + [row])[j].contract)
    {
      if j < |rows| { assert (rows + [row])[j] == rows[j] && Has(moves, rows[j].contract); }
    }
  }

  lemma {:induction false} BalanceMoved(rows: seq<Row>, row: Row, moves: Moves)
    requires MovesOk(rows, moves) && row.kind.Balance?
    ensures var more, moves' := rows + [row], Moved(moves, row);
      && DistinctKeys(moves') && SumOfMoves(moves') == Diff(more)
      && forall j | 0 <= j < |moves'| :: MoveOk(more, moves'[j])
  {
    var more, moves' := rows + [row], Moved(moves, row);
    var i, m := IndexOf(moves, row.contract), MoveOf(moves, row);
    var put := Move(m.kind, m.diff + row.delta, row.sharesAfter);
    assert more[..|rows|] == rows;
    PutKeys(moves, row.contract, put);
    SumAfterPut(moves, row.contract, put);
    RowMoved(rows, row, moves);
    forall j | 0 <= j < |moves'| ensures MoveOk(more, moves'[j]) {
      if j != i { OtherMove(rows, row, moves[j]); }
    }
  }

  lemma {:induction false} OtherMove(rows: seq<Row>, row: Row, slot: Slot<string, Move>)
    requires MoveOk(rows, slot) && slot.key != row.contract
    ensures MoveOk(rows + [row], slot)
  {
    assert (rows + [row])[..|rows|] == rows;
  }

  lemma {:induction false} RowMoved(rows: seq<Row>, row: Row, moves: Moves)
    requires MovesOk(rows, moves) && row.kind.Balance?
    ensures var m := MoveOf(moves, row);
      MoveOk(rows + [row], Slot(row.contract, Move(m.kind, m.diff + row.delta, row.sharesAfter)))
  {
    var i := IndexOf(moves, row.contract);
    assert (rows + [row])[..|rows|] == rows;
    if i == |moves| {
      forall j | 0 <= j < |rows| && rows[j].kind.Balance? ensures rows[j].contract != row.contract {
        assert Has(moves, rows[j].contract);
      }
      NoMoves(rows, row.contract);
    } else {
      assert MoveOk(rows, moves[i]);
    }
  }

  /**
   * A group's contracts: one move per contract with a balance row, its diff the sum of its changes, its balance the
   * last one given and its kind the first; together they sum to the group's diff, so moves between a product's own
   * contracts cancel.
   */
  lemma {:induction false} MovesOfOk(rows: seq<Row>)
    ensures MovesOk(rows, MovesOf(rows))
    decreases |rows|
  {
    if rows != [] {
      var before, last := rows[..|rows| - 1], rows[|rows| - 1];
      MovesOfOk(before);
      MovedOk(before, last, MovesOf(before));
      assert before + [last] == rows;
    }
  }

  /* ---------------------------------------------------------------- actions */

  datatype Action = Deposit | Withdraw | Claimed | Stake | Unstake | TransferIn | TransferOut

  /** What one row is an action of, if any. */
  function ActionsOfRow(row: Row): seq<Action> {
    match row.kind
    case ClmDeposit => [Deposit]
    case Mint => [Deposit]
    case ClmWithdraw => [Withdraw]
    case Burn => [Withdraw]
    case Claim => [Claimed]
    case Balance =>
      if row.delta == 0 then []
      else if row.source == "BOOST_STAKE" then (if row.delta > 0 then [Stake] else [Unstake])
      else if row.delta > 0 then [TransferIn] else [TransferOut]
  }

  /* what the rows' own fields say */

  ghost predicate AnyDeposit(rows: seq<Row>) {
    exists i | 0 <= i < |rows| :: rows[i].kind.ClmDeposit? || rows[i].kind.Mint?
  }

  ghost predicate AnyWithdraw(rows: seq<Row>) {
    exists i | 0 <= i < |rows| :: rows[i].kind.ClmWithdraw? || rows[i].kind.Burn?
  }

  ghost predicate AnyClaim(rows: seq<Row>) { exists i | 0 <= i < |rows| :: rows[i].kind.Claim? }

  ghost predicate AnyStake(rows: seq<Row>) {
    exists i | 0 <= i < |rows| :: rows[i].kind.Balance? && rows[i].source == "BOOST_STAKE" && rows[i].delta > 0
  }

  ghost predicate AnyUnstake(rows: seq<Row>) {
    exists i | 0 <= i < |rows| :: rows[i].kind.Balance? && rows[i].source == "BOOST_STAKE" && rows[i].delta < 0
  }

  ghost predicate AnyTransferIn(rows: seq<Row>) {
    exists i | 0 <= i < |rows| :: rows[i].kind.Balance? && rows[i].source != "BOOST_STAKE" && rows[i].delta > 0
  }

  ghost predicate AnyTransferOut(rows: seq<Row>) {
    exists i | 0 <= i < |rows| :: rows[i].kind.Balance? && rows[i].source != "BOOST_STAKE" && rows[i].delta < 0
  }

  /**
   * The actions of an item's rows: each kind of action that a row is, but for a transfer in beside a deposit or an
   * unstake and a transfer out beside a withdrawal or a stake.
   */
  ghost predicate ActionsAre(rows: seq<Row>, actions: seq<Action>) {
    && (Deposit in actions <==> AnyDeposit(rows)) && (Withdraw in actions <==> AnyWithdraw(rows))
    && (Claimed in actions <==> AnyClaim(rows))
    && (Stake in actions <==> AnyStake(rows)) && (Unstake in actions <==> AnyUnstake(rows))
    && (TransferIn in actions <==> AnyTransferIn(rows) && !AnyDeposit(rows) && !AnyUnstake(rows))
    && (TransferOut in actions <==> AnyTransferOut(rows) && !AnyWithdraw(rows) && !AnyStake(rows))
  }

  ghost predicate Acts(rows: seq<Row>, action: Action) { exists i | 0 <= i < |rows| :: action in ActionsOfRow(rows[i]) }

  /** The transfer that another action already stands for. */
  predicate Explained(seen: seq<Action>, action: Action) {
    || (action.TransferIn? && (Deposit in seen || Unstake in seen))
    || (action.TransferOut? && (Withdraw in seen || Stake in seen))
  }

  /** The rows' actions, each at its first occurrence. */
  function FirstActions(rows: seq<Row>): seq<Action> {
    if rows == [] then [] else
    var before, mine := FirstActions(rows[..|rows| - 1]), ActionsOfRow(rows[|rows| - 1]);
    if mine != [] && mine[0] !in before then before + mine else before
  }

  predicate Distinct(actions: seq<Action>) { forall i, j | 0 <= i < j < |actions| :: actions[i] != actions[j] }

  function Kept(actions: seq<Action>, seen: seq<Action>): seq<Action> {
    if actions == [] then [] else
    var rest := Kept(actions[..|actions| - 1], seen);
    if Explained(seen, actions[|actions| - 1]) then rest else rest + [actions[|actions| - 1]]
  }

  lemma {:induction false} KeptOk(actions: seq<Action>, seen: seq<Action>)
    ensures forall a :: a in Kept(actions, seen) <==> a in actions && !Explained(seen, a)
    ensures Distinct(actions) ==> Distinct(Kept(actions, seen))
    decreases |actions|
  {
    if actions != [] { KeptOk(actions[..|actions| - 1], seen); }
  }

  lemma {:induction false} ActsAs(rows: seq<Row>)
    ensures (Acts(rows, Deposit) <==> AnyDeposit(rows)) && (Acts(rows, Withdraw) <==> AnyWithdraw(rows))
    ensures (Acts(rows, Claimed) <==> AnyClaim(rows))
    ensures (Acts(rows, Stake) <==> AnyStake(rows)) && (Acts(rows, Unstake) <==> AnyUnstake(rows))
    ensures (Acts(rows, TransferIn) <==> AnyTransferIn(rows)) && (Acts(rows, TransferOut) <==> AnyTransferOut(rows))
  {
    forall i | 0 <= i < |rows| ensures ActsByFields(rows[i]) { RowActs(rows[i]); }
    hide ActionsOfRow;
  }

  predicate ActsByFields(row: Row) {
    var actions := ActionsOfRow(row);
    var (moved, boost) := (if row.kind.Balance? then row.delta else 0, row.source == "BOOST_STAKE");
    && (Deposit in actions <==> row.kind.ClmDeposit? || row.kind.Mint?)
    && (Withdraw in actions <==> row.kind.ClmWithdraw? || row.kind.Burn?)
    && (Claimed in actions <==> row.kind.Claim?)
    && (Stake in actions <==> boost && moved > 0) && (Unstake in actions <==> boost && moved < 0)
    && (TransferIn in actions <==> !boost && moved > 0) && (TransferOut in actions <==> !boost && moved < 0)
  }

  lemma {:induction false} RowActs(row: Row)
    ensures ActsByFields(row)
  {
  }

  /** What the loop and its filter keep, in terms of the rows' own fields. */
  lemma {:induction false} KeptActions(rows: seq<Row>)
    ensures ActionsAre(rows, Kept(FirstActions(rows), FirstActions(rows)))
    ensures Distinct(Kept(FirstActions(rows), FirstActions(rows)))
  {
    FirstActionsOk(rows);
    KeptOk(FirstActions(rows), FirstActions(rows));
    ActsAs(rows);
    hide Acts, AnyDeposit, AnyWithdraw, AnyClaim, AnyStake, AnyUnstake, AnyTransferIn, AnyTransferOut,
         FirstActions, Kept;
  }

  /** The actions of an item, each once. */
  method ActionsOf(rows: seq<Row>) returns (actions: seq<Action>)
    ensures actions == Kept(FirstActions(rows), FirstActions(rows)) && Distinct(actions)
    ensures ActionsAre(rows, actions)
  {
    var unique: seq<Action> := [];
    var i := 0;
    while i < |rows|
      invariant 0 <= i <= |rows| && unique == FirstActions(rows[..i])
    {
      assert rows[..i + 1][..i] == rows[..i];
      var mine := ActionsOfRow(rows[i]);
      if mine != [] && mine[0] !in unique {
        unique := unique + mine;
      }
      i := i + 1;
    }
    assert rows[..i] == rows;
    KeptActions(rows);
    actions := Kept(unique, unique);
  }

  lemma {:induction false} FirstActionsOk(rows: seq<Row>)
    ensures Distinct(FirstActions(rows)) && forall a :: a in FirstActions(rows) <==> Acts(rows, a)
    decreases |rows|
  {
    if rows != [] {
      var n := |rows| - 1;
      FirstActionsOk(rows[..n]);
      ActsOneMore(rows, n);
      assert rows[..n + 1] == rows;
      var mine := ActionsOfRow(rows[n]);
      assert |mine| <= 1;
      assert mine != [] ==> mine == [mine[0]];
    }
  }

  lemma {:induction false} ActsOneMore(rows: seq<Row>, i: nat)
    requires i < |rows|
    ensures forall a :: Acts(rows[..i + 1], a) <==> Acts(rows[..i], a) || a in ActionsOfRow(rows[i])
  {
    forall a ensures Acts(rows[..i + 1], a) <==> Acts(rows[..i], a) || a in ActionsOfRow(rows[i]) {
      if Acts(rows[..i], a) {
        var j :| 0 <= j < |rows[..i]| && a in ActionsOfRow(rows[..i][j]);
        assert rows[..i + 1][j] == rows[..i][j];
      }
      if Acts(rows[..i + 1], a) {
        var j :| 0 <= j < |rows[..i + 1]| && a in ActionsOfRow(rows[..i + 1][j]);
        if j < i { assert rows[..i][j] == rows[..i + 1][j]; }
      }
      assert rows[..i + 1][i] == rows[i];
    }
  }

  /* ---------------------------------------------------------------- the sum of a product's items */

  /** The diffs of the product's groups. */
  function SumOfDiffs(groups: Groups, product: Product): int {
    if groups == [] then 0
    else (if groups[0].key.product == product then Diff(groups[0].held.rows) else 0) + SumOfDiffs(groups[1..], product)
  }

  lemma {:induction false} DiffsAfterPut(groups: Groups, key: Key, value: Group, product: Product)
    ensures var i := IndexOf(groups, key);
      var old_ := if i < |groups| then Diff(groups[i].held.rows) else 0;
      SumOfDiffs(Put(groups, key, value), product)
        == SumOfDiffs(groups, product) + if key.product == product then Diff(value.rows) - old_ else 0
    decreases |groups|
  {
    var after := Put(groups, key, value);
    if groups == [] {
      assert after == [Slot(key, value)];
      assert after[1..] == [];
    } else if groups[0].key != key {
      DiffsAfterPut(groups[1..], key, value, product);
      assert after[1..] == Put(groups[1..], key, value) && after[0] == groups[0];
    } else {
      assert after == [Slot(key, value)] + groups[1..];
    }
  }

  lemma {:induction false} DiffsSum(rows: seq<Row>, product: Product)
    ensures SumOfDiffs(Grouped(rows).groups, product) == Total(rows, product)
    decreases |rows|
  {
    if rows != [] {
      var before, last := rows[..|rows| - 1], rows[|rows| - 1];
      DiffsSum(before, product);
      var g := Grouped(before);
      var i := IndexOf(g.groups, KeyOf(last));
      var held := Grouped(rows).groups[i].held;
      var mine := if i < |g.groups| then g.groups[i].held.rows else [];
      assert (mine + [last])[..|mine|] == mine;
      DiffsAfterPut(g.groups, KeyOf(last), held, product);
    }
  }

  /* ---------------------------------------------------------------- running balances */

  /** Each transaction's rows of a product stand together among the product's rows. */
  ghost predicate Contiguous(rows: seq<Row>) {
    forall i, j, k | 0 <= i < j < k < |rows| && KeyOf(rows[i]) == KeyOf(rows[k])
                     && ProductOf(rows[j]) == ProductOf(rows[i]) ::
      KeyOf(rows[j]) == KeyOf(rows[i])
  }

  /** The balance of the product's last group before the `i`th, or 0. */
  function Previous(groups: Groups, i: nat, product: Product): int
    requires i <= |groups|
  {
    if i == 0 then 0
    else if groups[i - 1].key.product == product then groups[i - 1].held.balanceAfter
    else Previous(groups, i - 1, product)
  }

  /** The key of the product's last row. */
  ghost predicate IsLastKey(rows: seq<Row>, key: Key) {
    exists i | 0 <= i < |rows| ::
      KeyOf(rows[i]) == key && forall j | i < j < |rows| :: ProductOf(rows[j]) != key.product
  }

  predicate IsNewest(groups: Groups, i: nat)
    requires i < |groups|
  {
    forall j | i < j < |groups| :: groups[j].key.product != groups[i].key.product
  }

  predicate LinkAt(groups: Groups, i: nat)
    requires i < |groups|
  {
    groups[i].held.balanceAfter == Previous(groups, i, groups[i].key.product) + Diff(groups[i].held.rows)
  }

  /** Each balance is the one before plus the group's diff, and a product's newest group holds its last row. */
  ghost predicate Linked(rows: seq<Row>, groups: Groups) {
    && (forall i | 0 <= i < |groups| :: LinkAt(groups, i))
    && (forall i | 0 <= i < |groups| && IsNewest(groups, i) ::
          IsLastKey(rows, groups[i].key) && groups[i].held.balanceAfter == Total(rows, groups[i].key.product))
  }

  lemma {:induction false} PreviousFrame(groups: Groups, after: Groups, i: nat, product: Product)
    requires i <= |groups| <= |after|
    requires forall j | 0 <= j < i && (groups[j].key.product == product || after[j].key.product == product) ::
      after[j] == groups[j]
    ensures Previous(after, i, product) == Previous(groups, i, product)
  {
    if i > 0 { PreviousFrame(groups, after, i - 1, product); }
  }

  /** Where the product's last group is, or that it has none. */
  lemma {:induction false} NewestOf(groups: Groups, n: nat, product: Product) returns (i: int)
    requires n <= |groups|
    ensures -1 <= i < n
    ensures i >= 0 ==> groups[i].key.product == product && Previous(groups, n, product) == groups[i].held.balanceAfter
    ensures i < 0 ==> Previous(groups, n, product) == 0
    ensures forall j | i < j < n :: groups[j].key.product != product
  {
    if n == 0 {
      i := -1;
    } else if groups[n - 1].key.product == product {
      i := n - 1;
    } else {
      i := NewestOf(groups, n - 1, product);
    }
  }

  /** With contiguous rows, a row of a key already seen has the key of its product's last row. */
  lemma {:induction false} SeenIsLast(rows: seq<Row>, row: Row, last: Key, a: nat)
    requires Contiguous(rows + [row]) && IsLastKey(rows, last) && last.product == ProductOf(row)
    requires a < |rows| && KeyOf(rows[a]) == KeyOf(row)
    ensures last == KeyOf(row)
  {
    var b :| 0 <= b < |rows| && KeyOf(rows[b]) == last
             && forall j | b < j < |rows| :: ProductOf(rows[j]) != last.product;
    var more := rows + [row];
    assert more[a] == rows[a] && more[b] == rows[b] && more[|rows|] == row;
    assert a <= b;
  }

  lemma {:induction false} SeenIsNewest(rows: seq<Row>, row: Row, g: Grouping, i: nat)
    requires GroupingOk(rows, g) && Linked(rows, g.groups) && Contiguous(rows + [row])
    requires i < |g.groups| && g.groups[i].key == KeyOf(row)
    ensures IsNewest(g.groups, i)
  {
    var newest := NewestOf(g.groups, |g.groups|, ProductOf(row));
    assert IsNewest(g.groups, newest);
    assert GroupOk(rows, g.groups[i]);
    var a := HasRow(rows, KeyOf(row));
    SeenIsLast(rows, row, g.groups[newest].key, a);
  }

  lemma {:induction false} HasRow(rows: seq<Row>, key: Key) returns (a: nat)
    requires RowsOf(rows, key) != []
    ensures a < |rows| && KeyOf(rows[a]) == key
    decreases |rows|
  {
    if KeyOf(rows[|rows| - 1]) == key {
      a := |rows| - 1;
    } else {
      a := HasRow(rows[..|rows| - 1], key);
    }
  }

  /** A new transaction of the product: its group follows the product's newest. */
  lemma {:induction false} LinkNew(rows: seq<Row>, row: Row, g: Grouping)
    requires GroupingOk(rows, g) && Linked(rows, g.groups) && !Has(g.groups, KeyOf(row))
    ensures Linked(rows + [row], Added(g, row).groups)
  {
    NewGroupLinks(rows, row, g);
    OthersLinked(rows, row, g.groups, Added(g, row).groups, |g.groups|);
  }

  /** The other groups stay linked when one of the row's product, its newest, is added or changed. */
  lemma {:induction false} OthersLinked(rows: seq<Row>, row: Row, groups: Groups, after: Groups, n: nat)
    requires Linked(rows, groups) && n <= |groups|
    requires |after| == if n == |groups| then n + 1 else |groups|
    requires (forall i | 0 <= i < |groups| && i != n :: after[i] == groups[i]) && after[n].key == KeyOf(row)
    requires n < |groups| ==> groups[n].key == KeyOf(row)
    requires forall i | n < i < |after| :: after[i].key.product != ProductOf(row)
    requires LinkAt(after, n) && IsLastKey(rows + [row], KeyOf(row))
    requires after[n].held.balanceAfter == Total(rows + [row], ProductOf(row))
    ensures Linked(rows + [row], after)
  {
    forall i | 0 <= i < |after| ensures LinkAt(after, i) {
      if i != n {
        assert LinkAt(groups, i);
        PreviousFrame(groups, after, i, groups[i].key.product);
      }
    }
    forall i | 0 <= i < |after| && IsNewest(after, i)
      ensures IsLastKey(rows + [row], after[i].key)
      ensures after[i].held.balanceAfter == Total(rows + [row], after[i].key.product)
    {
      if i != n { OtherNewest(rows, row, groups, after, i); }
    }
  }

  lemma {:induction false} LastRowLast(rows: seq<Row>, row: Row)
    ensures IsLastKey(rows + [row], KeyOf(row))
    ensures Total(rows + [row], ProductOf(row)) == Total(rows, ProductOf(row)) + DeltaOf(row)
  {
    var more := rows + [row];
    assert more[..|rows|] == rows && KeyOf(more[|rows|]) == KeyOf(row);
  }

  lemma {:induction false} NewGroupLinks(rows: seq<Row>, row: Row, g: Grouping)
    requires GroupingOk(rows, g) && Linked(rows, g.groups) && !Has(g.groups, KeyOf(row))
    ensures var after := Added(g, row).groups;
      && |after| == |g.groups| + 1 && after[|g.groups|].key == KeyOf(row) && LinkAt(after, |g.groups|)
      && IsLastKey(rows + [row], KeyOf(row))
      && after[|g.groups|].held.balanceAfter == Total(rows + [row], ProductOf(row))
  {
    var after, n, product := Added(g, row).groups, |g.groups|, ProductOf(row);
    LastRowLast(rows, row);
    PreviousFrame(g.groups, after, n, product);
    PreviousIsTotal(rows, g, product);
    assert Diff([row]) == DeltaOf(row) by { assert [row][..0] == []; }
    assert after[n].held.rows == [row];
  }

  /** What a product's groups before any new one end at is its total. */
  lemma {:induction false} PreviousIsTotal(rows: seq<Row>, g: Grouping, product: Product)
    requires GroupingOk(rows, g) && Linked(rows, g.groups)
    ensures Previous(g.groups, |g.groups|, product) == Total(rows, product)
  {
    var i := NewestOf(g.groups, |g.groups|, product);
    if i >= 0 {
      assert IsNewest(g.groups, i);
    } else {
      forall j | 0 <= j < |rows| ensures ProductOf(rows[j]) != product {
        assert Has(g.groups, KeyOf(rows[j]));
        assert g.groups[IndexOf(g.groups, KeyOf(rows[j]))].key == KeyOf(rows[j]);
      }
      NoTotal(rows, product);
    }
  }

  lemma {:induction false} NoTotal(rows: seq<Row>, product: Product)
    requires forall j | 0 <= j < |rows| :: ProductOf(rows[j]) != product
    ensures Total(rows, product) == 0
    decreases |rows|
  {
    if rows != [] { NoTotal(rows[..|rows| - 1], product); }
  }

  /** The newest group of another product stays as it was. */
  lemma {:induction false} OtherNewest(rows: seq<Row>, row: Row, groups: Groups, after: Groups, i: nat)
    requires Linked(rows, groups) && i < |groups| <= |after| && after[i] == groups[i] && IsNewest(after, i)
    requires forall j | 0 <= j < |groups| :: after[j].key == groups[j].key
    requires groups[i].key.product != ProductOf(row)
    ensures IsLastKey(rows + [row], after[i].key)
    ensures after[i].held.balanceAfter == Total(rows + [row], after[i].key.product)
  {
    var more := rows + [row];
    assert more[..|rows|] == rows;
    forall j | i < j < |groups| ensures groups[j].key.product != groups[i].key.product {
      assert after[j].key == groups[j].key;
    }
    assert IsNewest(groups, i);
    var b :| 0 <= b < |rows| && KeyOf(rows[b]) == groups[i].key
          && forall j | b < j < |rows| :: ProductOf(rows[j]) != groups[i].key.product;
    assert KeyOf(more[b]) == after[i].key;
  }

  /** Another row of the product's newest transaction: its balance and its diff grow alike. */
  lemma {:induction false} LinkSeen(rows: seq<Row>, row: Row, g: Grouping, n: nat)
    requires GroupingOk(rows, g) && Linked(rows, g.groups) && n < |g.groups| && g.groups[n].key == KeyOf(row)
    requires IsNewest(g.groups, n)
    ensures Linked(rows + [row], Added(g, row).groups)
  {
    var after := Added(g, row).groups;
    SeenGroup(rows, row, g, n);
    assert LinkAt(g.groups, n);
    PreviousFrame(g.groups, after, n, ProductOf(row));
    OthersLinked(rows, row, g.groups, after, n);
  }

  lemma {:induction false} SeenGroup(rows: seq<Row>, row: Row, g: Grouping, n: nat)
    requires GroupingOk(rows, g) && Linked(rows, g.groups) && n < |g.groups| && g.groups[n].key == KeyOf(row)
    requires IsNewest(g.groups, n)
    ensures var after := Added(g, row).groups;
      && |after| == |g.groups| && after[n].key == KeyOf(row)
      && (forall i | 0 <= i < |after| && i != n :: after[i] == g.groups[i])
      && after[n].held.balanceAfter == g.groups[n].held.balanceAfter + DeltaOf(row)
      && Diff(after[n].held.rows) == Diff(g.groups[n].held.rows) + DeltaOf(row)
      && IsLastKey(rows + [row], KeyOf(row)) && after[n].held.balanceAfter == Total(rows + [row], ProductOf(row))
  {
    var more := rows + [row];
    assert more[..|rows|] == rows && KeyOf(more[|rows|]) == KeyOf(row);
    assert IndexOf(g.groups, KeyOf(row)) == n;
    var mine := g.groups[n].held.rows;
    assert (mine + [row])[..|mine|] == mine;
  }

  lemma {:induction false} ContiguousBefore(rows: seq<Row>, row: Row)
    requires Contiguous(rows + [row])
    ensures Contiguous(rows)
  {
    var more := rows + [row];
    forall i, j, k | 0 <= i < j < k < |rows| && KeyOf(rows[i]) == KeyOf(rows[k])
                     && ProductOf(rows[j]) == ProductOf(rows[i])
      ensures KeyOf(rows[j]) == KeyOf(rows[i])
    {
      assert more[i] == rows[i] && more[j] == rows[j] && more[k] == rows[k];
    }
  }

  lemma {:induction false} GroupedLinked(rows: seq<Row>)
    requires Contiguous(rows)
    ensures Linked(rows, Grouped(rows).groups)
    decreases |rows|
  {
    if rows != [] {
      var before, last := rows[..|rows| - 1], rows[|rows| - 1];
      assert before + [last] == rows;
      ContiguousBefore(before, last);
      GroupedLinked(before);
      GroupedOk(before);
      var g := Grouped(before);
      var i := IndexOf(g.groups, KeyOf(last));
      if i < |g.groups| {
        SeenIsNewest(before, last, g, i);
        LinkSeen(before, last, g, i);
      } else {
        LinkNew(before, last, g);
      }
    }
  }

  /* ---------------------------------------------------------------- items */

  /** An item, less its formatting and its prices: `priced` is the row it takes its price from. */
  datatype Item = Item(
    product: Product, tx: string, actions: seq<Action>, balance: int, diff: int, contracts: Moves,
    underlying: Option<(int, int)>, claims: seq<Row>, priced: Row)

  function LastBalanceRow(rows: seq<Row>): Option<Row> {
    if rows == [] then None
    else if rows[|rows| - 1].kind.Balance? then Some(rows[|rows| - 1])
    else LastBalanceRow(rows[..|rows| - 1])
  }

  /** The signed token amounts of the CLM deposits and withdrawals, if any. */
  function Underlying(rows: seq<Row>): Option<(int, int)> {
    if rows == [] then None else
    var before, last := Underlying(rows[..|rows| - 1]), rows[|rows| - 1];
    var sum := before.GetOr((0, 0));
    match last.kind
    case ClmDeposit => Some((sum.0 + last.amount0, sum.1 + last.amount1))
    case ClmWithdraw => Some((sum.0 - last.amount0, sum.1 - last.amount1))
    case _ => before
  }

  function Claims(rows: seq<Row>): seq<Row> {
    if rows == [] then []
    else Claims(rows[..|rows| - 1]) + if rows[|rows| - 1].kind.Claim? then [rows[|rows| - 1]] else []
  }

  function ItemFrom(rows: seq<Row>, balanceAfter: int): Item
    requires rows != []
  {
    var last := rows[|rows| - 1];
    Item(ProductOf(last), last.tx, Kept(FirstActions(rows), FirstActions(rows)), balanceAfter,
         Diff(rows), MovesOf(rows), Underlying(rows), Claims(rows), LastBalanceRow(rows).GetOr(last))
  }

  /** One item per group. */
  function Items(groups: Groups): seq<Item>
    requires NoneEmpty(groups)
  {
    seq(|groups|, i requires 0 <= i < |groups| => ItemFrom(groups[i].held.rows, groups[i].held.balanceAfter))
  }

  function Reversed<T>(s: seq<T>): seq<T> {
    if s == [] then [] else [s[|s| - 1]] + Reversed(s[..|s| - 1])
  }

  /** The items, newest first. */
  function Timeline(rows: seq<Row>): seq<Item> { Reversed(Items(Grouped(rows).groups)) }

  predicate IsItem(item: Item, held: Group) { held.rows != [] && item == ItemFrom(held.rows, held.balanceAfter) }

  /** What the loop over a group's rows has after the first `i`. */
  ghost predicate ReadTo(rows: seq<Row>, i: nat, moves: Moves, diff: int, claims: seq<Row>,
                         underlying: Option<(int, int)>, priced: Option<Row>)
  {
    && i <= |rows| && moves == MovesOf(rows[..i]) && diff == Diff(rows[..i]) && claims == Claims(rows[..i])
    && underlying == Underlying(rows[..i]) && priced == LastBalanceRow(rows[..i])
  }

  lemma {:induction false} ReadOneMore(rows: seq<Row>, i: nat, moves: Moves, diff: int, claims: seq<Row>,
                                       underlying: Option<(int, int)>, priced: Option<Row>)
    requires i < |rows| && ReadTo(rows, i, moves, diff, claims, underlying, priced)
    ensures var row, sum := rows[i], underlying.GetOr((0, 0));
      match row.kind
      case Balance =>
        var m := MoveOf(moves, row);
        ReadTo(rows, i + 1, Put(moves, row.contract, Move(m.kind, m.diff + row.delta, row.sharesAfter)),
               diff + row.delta, claims, underlying, Some(row))
      case ClmDeposit =>
        ReadTo(rows, i + 1, moves, diff, claims, Some((sum.0 + row.amount0, sum.1 + row.amount1)), priced)
      case ClmWithdraw =>
        ReadTo(rows, i + 1, moves, diff, claims, Some((sum.0 - row.amount0, sum.1 - row.amount1)), priced)
      case Claim => ReadTo(rows, i + 1, moves, diff, claims + [row], underlying, priced)
      case _ => ReadTo(rows, i + 1, moves, diff, claims, underlying, priced)
  {
    hide Put, MoveOf;
    assert rows[..i + 1][..i] == rows[..i] && rows[..i + 1][i] == rows[i];
  }

  lemma {:induction false} ReadAll(held: Group, moves: Moves, diff: int, claims: seq<Row>,
                                   underlying: Option<(int, int)>, priced: Option<Row>)
    requires held.rows != [] && ReadTo(held.rows, |held.rows|, moves, diff, claims, underlying, priced)
    ensures var last := held.rows[|held.rows| - 1];
      IsItem(Item(ProductOf(last), last.tx, Kept(FirstActions(held.rows), FirstActions(held.rows)), held.balanceAfter,
                  diff, moves, underlying, claims, priced.GetOr(last)), held)
  {
    hide MovesOf, Diff, Claims, Underlying, LastBalanceRow, Kept, FirstActions;
    assert held.rows[..|held.rows|] == held.rows;
  }

  method BuildItem(held: Group) returns (item: Item)
    requires held.rows != []
    ensures IsItem(item, held)
  {
    var rows := held.rows;
    var moves: Moves, diff, claims: seq<Row>, underlying: Option<(int, int)> := [], 0, [], None;
    var last, priced: Option<Row> := rows[|rows| - 1], None;
    var i := 0;
    assert ReadTo(rows, 0, moves, diff, claims, underlying, priced);
    hide ReadTo, Put, MoveOf, IsItem, Kept, FirstActions;
    while i < |rows|
      invariant 0 <= i <= |rows| && ReadTo(rows, i, moves, diff, claims, underlying, priced)
    {
      ReadOneMore(rows, i, moves, diff, claims, underlying, priced);
      var row := rows[i];
      match row.kind {
        case Balance =>
          var m := MoveOf(moves, row);
          moves := Put(moves, row.contract, Move(m.kind, m.diff + row.delta, row.sharesAfter));
          diff := diff + row.delta;
          priced := Some(row);
        case ClmDeposit =>
          var sum := underlying.GetOr((0, 0));
          underlying := Some((sum.0 + row.amount0, sum.1 + row.amount1));
        case ClmWithdraw =>
          var sum := underlying.GetOr((0, 0));
          underlying := Some((sum.0 - row.amount0, sum.1 - row.amount1));
        case Claim => claims := claims + [row];
        case _ =>
      }
      i := i + 1;
    }
    var actions := ActionsOf(rows);
    ReadAll(held, moves, diff, claims, underlying, priced);
    item := Item(ProductOf(last), last.tx, actions, held.balanceAfter, diff, moves, underlying,
                 claims, priced.GetOr(last));
  }

  lemma {:induction false} GroupedMore(rows: seq<Row>, i: nat)
    requires i < |rows|
    ensures Grouped(rows[..i + 1]) == Added(Grouped(rows[..i]), rows[i])
  {
    assert rows[..i + 1][..i] == rows[..i];
  }

  ghost predicate GroupedTo(rows: seq<Row>, i: nat, groups: Groups, balances: map<Product, int>) {
    i <= |rows| && Grouping(groups, balances) == Grouped(rows[..i])
  }

  /** One row more: its group, found or new, with the row and the product's balance after it. */
  lemma {:induction false} GroupOneMore(rows: seq<Row>, i: nat, groups: Groups, balances: map<Product, int>)
    requires i < |rows| && GroupedTo(rows, i, groups, balances)
    ensures var row := rows[i];
      var product, key := ProductOf(row), KeyOf(row);
      var at := IndexOf(groups, key);
      var group := if at < |groups| then groups[at].held else Group([], BalanceOf(balances, product));
      var balances' :=
        if row.kind.Balance? then balances[product := BalanceOf(balances, product) + row.delta] else balances;
      var group' := group.(rows := group.rows + [row], balanceAfter := BalanceOf(balances', product));
      GroupedTo(rows, i + 1, Put(groups, key, group'), balances')
  {
    hide Grouped, Put, BalanceOf, KeyOf, ProductOf;
    GroupedMore(rows, i);
  }

  lemma {:induction false} AllGrouped(rows: seq<Row>, groups: Groups, balances: map<Product, int>)
    requires GroupedTo(rows, |rows|, groups, balances)
    ensures groups == Grouped(rows).groups
  {
    assert rows[..|rows|] == rows;
  }

  /** The first loop: the groups. */
  method GroupRows(rows: seq<Row>) returns (groups: Groups)
    ensures groups == Grouped(rows).groups
  {
    var balances: map<Product, int> := map[];
    groups := [];
    var i := 0;
    assert GroupedTo(rows, 0, groups, balances);
    hide GroupedTo, Put, BalanceOf, KeyOf, ProductOf;
    while i < |rows|
      invariant 0 <= i <= |rows| && GroupedTo(rows, i, groups, balances)
    {
      GroupOneMore(rows, i, groups, balances);
      var row := rows[i];
      var product, key := ProductOf(row), KeyOf(row);
      var at := IndexOf(groups, key);
      var group := if at < |groups| then groups[at].held else Group([], BalanceOf(balances, product));
      group := group.(rows := group.rows + [row]);
      if row.kind.Balance? {
        balances := balances[product := BalanceOf(balances, product) + row.delta];
      }
      groups := Put(groups, key, group.(balanceAfter := BalanceOf(balances, product)));
      i := i + 1;
    }
    AllGrouped(rows, groups, balances);
  }

  ghost predicate BuiltUpTo(items: seq<Item>, groups: Groups, j: nat) {
    |items| == j <= |groups| && forall i | 0 <= i < j :: IsItem(items[i], groups[i].held)
  }

  lemma {:induction false} BuiltOneMore(items: seq<Item>, groups: Groups, item: Item)
    requires |items| < |groups| && BuiltUpTo(items, groups, |items|) && IsItem(item, groups[|items|].held)
    ensures BuiltUpTo(items + [item], groups, |items| + 1)
  {
    forall i | 0 <= i < |items| + 1 ensures IsItem((items + [item])[i], groups[i].held) {
      if i < |items| { assert IsItem(items[i], groups[i].held); }
    }
  }

  /** The second loop: an item per group. */
  method BuildItems(groups: Groups) returns (items: seq<Item>)
    requires NoneEmpty(groups)
    ensures BuiltUpTo(items, groups, |groups|)
  {
    items := [];
    var j := 0;
    while j < |groups|
      invariant BuiltUpTo(items, groups, j)
    {
      var item := BuildItem(groups[j].held);
      BuiltOneMore(items, groups, item);
      items := items + [item];
      j := j + 1;
    }
  }

  /** The items, newest first. */
  method BuildTimeline(rows: seq<Row>) returns (timeline: seq<Item>)
    ensures timeline == Timeline(rows)
  {
    var groups := GroupRows(rows);
    var items := BuildItems(groups);
    ItemsBuilt(groups, items);
    timeline := Reversed(items);
  }

  lemma {:induction false} ItemsBuilt(groups: Groups, items: seq<Item>)
    requires NoneEmpty(groups) && BuiltUpTo(items, groups, |groups|)
    ensures items == Items(groups)
  {
    forall i | 0 <= i < |groups| ensures items[i] == Items(groups)[i] {
      assert IsItem(items[i], groups[i].held);
    }
  }

  /* ---------------------------------------------------------------- the theorems */

  function ItemKey(item: Item): Key { Key(item.product, item.tx) }

  lemma {:induction false} RowsOfKey(rows: seq<Row>, key: Key)
    ensures forall row | row in RowsOf(rows, key) :: KeyOf(row) == key
    decreases |rows|
  {
    if rows != [] { RowsOfKey(rows[..|rows| - 1], key); }
  }

  lemma {:induction false} GroupIs(rows: seq<Row>, i: nat)
    requires i < |Grouped(rows).groups|
    ensures var slot := Grouped(rows).groups[i];
      var mine := RowsOf(rows, slot.key);
      mine != [] && slot.held == Group(mine, TotalAfter(rows, slot.key)) && KeyOf(mine[|mine| - 1]) == slot.key
  {
    GroupedOk(rows);
    var slot := Grouped(rows).groups[i];
    assert GroupOk(rows, slot);
    RowsOfKey(rows, slot.key);
    assert slot.held.rows[|slot.held.rows| - 1] in RowsOf(rows, slot.key);
  }

  /** Counted from the newest, the `m`th is counted from the oldest the `|s| - 1 - m`th, and what follows is older. */
  lemma {:induction false} ReversedAt<T>(s: seq<T>, m: nat)
    requires m < |s|
    ensures |Reversed(s)| == |s| && Reversed(s)[m] == s[|s| - 1 - m]
    ensures Reversed(s)[m + 1..] == Reversed(s[..|s| - 1 - m])
    decreases |s|
  {
    var n := |s| - 1;
    if m > 0 {
      ReversedAt(s[..n], m - 1);
      assert s[..n][..n - m] == s[..n - m];
      assert Reversed(s)[m + 1..] == Reversed(s[..n])[m..];
    } else {
      ReversedCount(s[..n]);
      assert Reversed(s)[1..] == Reversed(s[..n]);
    }
  }

  lemma {:induction false} ReversedCount<T>(s: seq<T>)
    ensures |Reversed(s)| == |s|
    decreases |s|
  {
    if s != [] { ReversedCount(s[..|s| - 1]); }
  }

  predicate ItemOf(item: Item, slot: Slot<Key, Group>) { IsItem(item, slot.held) && ItemKey(item) == slot.key }

  ghost predicate ItemsOf(items: seq<Item>, groups: Groups) {
    |items| == |groups| && forall i | 0 <= i < |groups| :: ItemOf(items[i], groups[i])
  }

  lemma {:induction false} SlotItem(slot: Slot<Key, Group>)
    requires slot.held.rows != [] && KeyOf(slot.held.rows[|slot.held.rows| - 1]) == slot.key
    ensures ItemOf(ItemFrom(slot.held.rows, slot.held.balanceAfter), slot)
  {
  }

  lemma {:induction false} GroupedItems(rows: seq<Row>)
    ensures ItemsOf(Items(Grouped(rows).groups), Grouped(rows).groups)
  {
    var groups := Grouped(rows).groups;
    forall i | 0 <= i < |groups| ensures ItemOf(Items(groups)[i], groups[i]) {
      GroupIs(rows, i);
      SlotItem(groups[i]);
    }
  }

  lemma {:induction false} ReversedItems(items: seq<Item>, groups: Groups, m: nat)
    requires ItemsOf(items, groups) && m < |groups|
    ensures |Reversed(items)| == |groups| && ItemOf(Reversed(items)[m], groups[|groups| - 1 - m])
  {
    ReversedAt(items, m);
  }

  /** Counted from the newest item and from the oldest group. */
  lemma {:induction false} TimelineAt(rows: seq<Row>, groups: Groups, m: nat)
    requires groups == Grouped(rows).groups && m < |groups|
    ensures |Timeline(rows)| == |groups| && ItemOf(Timeline(rows)[m], groups[|groups| - 1 - m])
  {
    GroupedItems(rows);
    ReversedItems(Items(groups), groups, m);
  }

  lemma {:induction false} ItemsSlot(rows: seq<Row>, m: nat) returns (slot: Slot<Key, Group>)
    requires m < |Grouped(rows).groups|
    ensures |Timeline(rows)| == |Grouped(rows).groups| && slot == Grouped(rows).groups[|Timeline(rows)| - 1 - m]
    ensures ItemOf(Timeline(rows)[m], slot)
  {
    hide *;
    slot := Grouped(rows).groups[|Grouped(rows).groups| - 1 - m];
    TimelineAt(rows, Grouped(rows).groups, m);
  }

  lemma {:induction false} SlotHolds(rows: seq<Row>, m: nat) returns (slot: Slot<Key, Group>)
    requires m < |Grouped(rows).groups|
    ensures slot == Grouped(rows).groups[|Grouped(rows).groups| - 1 - m]
    ensures slot.held == Group(RowsOf(rows, slot.key), TotalAfter(rows, slot.key))
  {
    hide *;
    slot := Grouped(rows).groups[|Grouped(rows).groups| - 1 - m];
    GroupIs(rows, |Grouped(rows).groups| - 1 - m);
  }

  /**
   * An item in terms of the rows alone: it is that of a key's rows, all of them, in order, and the product's total
   * after the last of them.
   */
  lemma {:induction false} ItemIs(rows: seq<Row>, m: nat)
    requires m < |Timeline(rows)|
    ensures |Timeline(rows)| == |Grouped(rows).groups|
    ensures var slot := Grouped(rows).groups[|Timeline(rows)| - 1 - m];
      slot.held == Group(RowsOf(rows, slot.key), TotalAfter(rows, slot.key)) && ItemOf(Timeline(rows)[m], slot)
  {
    hide *;
    TimelineCount(rows);
    var holds := SlotHolds(rows, m);
    var slot := ItemsSlot(rows, m);
  }

  /* what an item says of its rows */

  function Amounts0(rows: seq<Row>, kind: Kind): int {
    if rows == [] then 0 else
    Amounts0(rows[..|rows| - 1], kind) + if rows[|rows| - 1].kind == kind then rows[|rows| - 1].amount0 else 0
  }

  function Amounts1(rows: seq<Row>, kind: Kind): int {
    if rows == [] then 0 else
    Amounts1(rows[..|rows| - 1], kind) + if rows[|rows| - 1].kind == kind then rows[|rows| - 1].amount1 else 0
  }

  /** Deposited less withdrawn of each token, given exactly when a row deposits or withdraws. */
  ghost predicate UnderlyingOk(rows: seq<Row>, underlying: Option<(int, int)>) {
    && (underlying.Some? <==> exists i | 0 <= i < |rows| :: rows[i].kind.ClmDeposit? || rows[i].kind.ClmWithdraw?)
    && (underlying.Some? ==>
          && underlying.value.0 == Amounts0(rows, ClmDeposit) - Amounts0(rows, ClmWithdraw)
          && underlying.value.1 == Amounts1(rows, ClmDeposit) - Amounts1(rows, ClmWithdraw))
  }

  lemma {:induction false} UnderlyingIs(rows: seq<Row>)
    ensures UnderlyingOk(rows, Underlying(rows))
    ensures Underlying(rows).None? ==>
      && Amounts0(rows, ClmDeposit) == Amounts0(rows, ClmWithdraw) == 0
      && Amounts1(rows, ClmDeposit) == Amounts1(rows, ClmWithdraw) == 0
    decreases |rows|
  {
    if rows != [] {
      var n := |rows| - 1;
      UnderlyingIs(rows[..n]);
      if i :| 0 <= i < n && (rows[i].kind.ClmDeposit? || rows[i].kind.ClmWithdraw?) { assert rows[..n][i] == rows[i]; }
    }
  }

  /** The claims are the rows at these places: all the claim rows, in order. */
  ghost predicate ClaimsAt(rows: seq<Row>, claims: seq<Row>, places: seq<nat>) {
    && |places| == |claims|
    && (forall k | 0 <= k < |places| :: places[k] < |rows| && rows[places[k]] == claims[k])
    && (forall j, k | 0 <= j < k < |places| :: places[j] < places[k])
    && (forall i | 0 <= i < |rows| :: rows[i].kind.Claim? <==> i in places)
  }

  lemma {:induction false} ClaimsAre(rows: seq<Row>) returns (places: seq<nat>)
    ensures ClaimsAt(rows, Claims(rows), places)
    decreases |rows|
  {
    if rows == [] {
      places := [];
    } else {
      var n := |rows| - 1;
      var before := ClaimsAre(rows[..n]);
      places := before + if rows[n].kind.Claim? then [n] else [];
      OneMoreClaim(rows[..n], rows[n], Claims(rows[..n]), before);
      assert rows[..n] + [rows[n]] == rows;
      assert Claims(rows) == Claims(rows[..n]) + if rows[n].kind.Claim? then [rows[n]] else [];
    }
  }

  lemma {:induction false} OneMoreClaim(rows: seq<Row>, row: Row, claims: seq<Row>, places: seq<nat>)
    requires ClaimsAt(rows, claims, places)
    ensures var n := |rows|;
      if row.kind.Claim? then ClaimsAt(rows + [row], claims + [row], places + [n])
      else ClaimsAt(rows + [row], claims, places)
  {
    var more, n := rows + [row], |rows|;
    forall i | 0 <= i < |more|
      ensures more[i].kind.Claim? <==> i in (if row.kind.Claim? then places + [n] else places)
    {
      if i < n { assert more[i] == rows[i]; }
      assert (places + [n])[|places|] == n;
    }
  }

  ghost predicate NoBalanceFrom(rows: seq<Row>, i: nat) {
    forall j | i <= j < |rows| :: !rows[j].kind.Balance?
  }

  ghost predicate LastBalanceAt(rows: seq<Row>, i: nat, row: Row) {
    i < |rows| && rows[i] == row && row.kind.Balance? && NoBalanceFrom(rows, i + 1)
  }

  /** The row an item takes its price from: its last balance row, or else its last row. */
  ghost predicate PricedBy(rows: seq<Row>, row: Row)
    requires rows != []
  {
    (exists i :: LastBalanceAt(rows, i, row)) || (NoBalanceFrom(rows, 0) && row == rows[|rows| - 1])
  }

  lemma {:induction false} LastBalanceIs(rows: seq<Row>) returns (i: nat)
    ensures if LastBalanceRow(rows).None? then NoBalanceFrom(rows, 0)
            else LastBalanceAt(rows, i, LastBalanceRow(rows).value)
  {
    var n := |rows| - 1;
    if rows == [] {
      i := 0;
    } else if rows[n].kind.Balance? {
      i := n;
    } else {
      i := LastBalanceIs(rows[..n]);
      NoBalanceLater(rows, if LastBalanceRow(rows).None? then 0 else i + 1);
    }
  }

  lemma {:induction false} NoBalanceLater(rows: seq<Row>, i: nat)
    requires rows != [] && !rows[|rows| - 1].kind.Balance? && NoBalanceFrom(rows[..|rows| - 1], i)
    ensures NoBalanceFrom(rows, i)
  {
    var n := |rows| - 1;
    forall j | i <= j < |rows| ensures !rows[j].kind.Balance? {
      if j < n { assert rows[..n][j] == rows[j]; }
    }
  }

  /** An item of these rows, in terms of their own fields. */
  ghost predicate Says(item: Item, rows: seq<Row>, balance: int)
    requires rows != []
  {
    && item.tx == rows[|rows| - 1].tx && item.product == ProductOf(rows[|rows| - 1])
    && ActionsAre(rows, item.actions) && Distinct(item.actions)
    && item.balance == balance && item.diff == Diff(rows) && MovesOk(rows, item.contracts)
    && UnderlyingOk(rows, item.underlying) && (exists places :: ClaimsAt(rows, item.claims, places))
    && PricedBy(rows, item.priced)
  }

  lemma {:induction false} ItemSaysIt(item: Item, held: Group)
    requires IsItem(item, held)
    ensures Says(item, held.rows, held.balanceAfter)
  {
    var rows := held.rows;
    KeptActions(rows);
    MovesOfOk(rows);
    UnderlyingIs(rows);
    var places := ClaimsAre(rows);
    var i := LastBalanceIs(rows);
    assert PricedBy(rows, item.priced);
    hide ActionsAre, Distinct, Diff, MovesOk, UnderlyingOk, ClaimsAt, PricedBy, Claims, Underlying, MovesOf;
  }

  /**
   * Every item says of its transaction's and product's rows what they say: what was done, what each contract moved, the
   * underlying tokens, the claims, the row it is priced by.
   */
  lemma {:induction false} ItemSays(rows: seq<Row>, m: nat)
    requires m < |Timeline(rows)|
    ensures var item := Timeline(rows)[m];
      var mine := RowsOf(rows, ItemKey(item));
      mine != [] && Says(item, mine, TotalAfter(rows, ItemKey(item)))
  {
    ItemIs(rows, m);
    hide Timeline, Grouped, Says, RowsOf, TotalAfter;
    var slot := Grouped(rows).groups[|Timeline(rows)| - 1 - m];
    ItemSaysIt(Timeline(rows)[m], slot.held);
  }

  /** Two rows are told by the same item exactly when they are of one transaction and product of a chain. */
  lemma {:induction false} SameItem(rows: seq<Row>, i: nat, j: nat, m: nat)
    requires i < |rows| && j < |rows| && m < |Timeline(rows)| && rows[i] in RowsOf(rows, ItemKey(Timeline(rows)[m]))
    ensures var a, b := rows[i], rows[j];
      b in RowsOf(rows, ItemKey(Timeline(rows)[m]))
      <==> a.chain == b.chain && a.tx == b.tx
           && (if a.productAddress == "" then a.contract else a.productAddress)
              == (if b.productAddress == "" then b.contract else b.productAddress)
  {
    hide Timeline, Grouped;
    var key := ItemKey(Timeline(rows)[m]);
    RowsOfKey(rows, key);
    if KeyOf(rows[j]) == key { InRowsOf(rows, j); }
  }

  lemma {:induction false} InRowsOf(rows: seq<Row>, j: nat)
    requires j < |rows|
    ensures rows[j] in RowsOf(rows, KeyOf(rows[j]))
    decreases |rows|
  {
    var n := |rows| - 1;
    if j < n { InRowsOf(rows[..n], j); }
  }

  /* items are newest first */

  /** The place of the key's first row, past the end if it has none. */
  function FirstAt(rows: seq<Row>, key: Key): (n: nat)
    ensures n <= |rows|
  {
    if rows == [] then 0
    else if FirstAt(rows[..|rows| - 1], key) < |rows| - 1 then FirstAt(rows[..|rows| - 1], key)
    else if KeyOf(rows[|rows| - 1]) == key then |rows| - 1
    else |rows|
  }

  lemma {:induction false} FirstAtIs(rows: seq<Row>, key: Key)
    ensures var n := FirstAt(rows, key);
      && (n < |rows| ==> KeyOf(rows[n]) == key)
      && forall i | 0 <= i < n :: KeyOf(rows[i]) != key
    decreases |rows|
  {
    if rows != [] { FirstAtIs(rows[..|rows| - 1], key); }
  }

  ghost predicate InFirstOrder(rows: seq<Row>, groups: Groups) {
    && (forall i | 0 <= i < |groups| :: FirstAt(rows, groups[i].key) < |rows|)
    && (forall i, j | 0 <= i < j < |groups| :: FirstAt(rows, groups[i].key) < FirstAt(rows, groups[j].key))
  }

  lemma {:induction false} GroupedInOrder(rows: seq<Row>)
    ensures InFirstOrder(rows, Grouped(rows).groups)
    decreases |rows|
  {
    if rows != [] {
      var n := |rows| - 1;
      var before, after, key := Grouped(rows[..n]).groups, Grouped(rows).groups, KeyOf(rows[n]);
      GroupedInOrder(rows[..n]);
      HasGroupOf(rows[..n], key);
      KeysAfterAdded(Grouped(rows[..n]), rows[n]);
      assert after == Added(Grouped(rows[..n]), rows[n]).groups;
      hide Grouped, Added, Has, KeyOf;
      forall i | 0 <= i < |before| ensures FirstAt(rows, after[i].key) == FirstAt(rows[..n], before[i].key) < n {
      }
      if |after| > |before| { assert FirstAt(rows, key) == n; }
    }
  }

  lemma {:induction false} KeysAfterAdded(g: Grouping, row: Row)
    ensures var after := Added(g, row).groups;
      && |after| == |g.groups| + (if Has(g.groups, KeyOf(row)) then 0 else 1)
      && (forall i | 0 <= i < |g.groups| :: after[i].key == g.groups[i].key)
      && (!Has(g.groups, KeyOf(row)) ==> after[|g.groups|].key == KeyOf(row))
  {
  }

  lemma {:induction false} HasGroupOf(before: seq<Row>, key: Key)
    ensures Has(Grouped(before).groups, key) <==> FirstAt(before, key) < |before|
  {
    GroupedOk(before);
    FirstAtIs(before, key);
    if Has(Grouped(before).groups, key) {
      assert GroupOk(before, Grouped(before).groups[IndexOf(Grouped(before).groups, key)]);
      var a := HasRow(before, key);
    }
  }

  /** Items stand in the order of their first rows, the last first. */
  lemma {:induction false} NewestFirst(rows: seq<Row>, m: nat, k: nat)
    requires m < k < |Timeline(rows)|
    ensures FirstAt(rows, ItemKey(Timeline(rows)[k])) < FirstAt(rows, ItemKey(Timeline(rows)[m])) < |rows|
  {
    ItemIs(rows, m);
    ItemIs(rows, k);
    GroupedInOrder(rows);
    hide Timeline, Grouped, FirstAt, IsItem;
  }

  /** What an item takes from its group. */
  ghost predicate Mirrors(items: seq<Item>, groups: Groups) {
    |items| == |groups| && forall i | 0 <= i < |items| :: MirrorsAt(items[i], groups[i])
  }

  predicate MirrorsAt(item: Item, slot: Slot<Key, Group>) {
    ItemKey(item) == slot.key && item.balance == slot.held.balanceAfter && item.diff == Diff(slot.held.rows)
  }

  lemma {:induction false} ItemsMirror(rows: seq<Row>)
    ensures Mirrors(Items(Grouped(rows).groups), Grouped(rows).groups)
  {
    var groups := Grouped(rows).groups;
    forall i | 0 <= i < |groups| ensures MirrorsAt(Items(groups)[i], groups[i]) {
      GroupIs(rows, i);
      ItemMirrors(groups[i]);
    }
  }

  lemma {:induction false} ItemMirrors(slot: Slot<Key, Group>)
    requires slot.held.rows != [] && KeyOf(slot.held.rows[|slot.held.rows| - 1]) == slot.key
    ensures MirrorsAt(ItemFrom(slot.held.rows, slot.held.balanceAfter), slot)
  {
  }

  lemma {:induction false} TimelineCount(rows: seq<Row>)
    ensures |Timeline(rows)| == |Grouped(rows).groups|
  {
    ReversedCount(Items(Grouped(rows).groups));
  }

  lemma {:induction false} HasGroup(rows: seq<Row>, i: nat)
    requires i < |rows|
    ensures DistinctKeys(Grouped(rows).groups) && Has(Grouped(rows).groups, KeyOf(rows[i]))
  {
    GroupedOk(rows);
  }

  /** Every transaction and product with a row has exactly one item. */
  lemma {:induction false} OneItemPerKey(rows: seq<Row>, i: nat) returns (m: nat)
    requires i < |rows|
    ensures m < |Timeline(rows)| && ItemKey(Timeline(rows)[m]) == KeyOf(rows[i])
    ensures forall k: nat | k < |Timeline(rows)| && k != m :: ItemKey(Timeline(rows)[k]) != KeyOf(rows[i])
  {
    hide Timeline, Grouped;
    HasGroup(rows, i);
    TimelineCount(rows);
    m := |Timeline(rows)| - 1 - IndexOf(Grouped(rows).groups, KeyOf(rows[i]));
    var slot := ItemsSlot(rows, m);
    forall k: nat | k < |Timeline(rows)| && k != m ensures ItemKey(Timeline(rows)[k]) != KeyOf(rows[i]) {
      OtherItem(rows, KeyOf(rows[i]), k);
    }
  }

  lemma {:induction false} OtherItem(rows: seq<Row>, key: Key, k: nat)
    requires k < |Grouped(rows).groups| && DistinctKeys(Grouped(rows).groups) && Has(Grouped(rows).groups, key)
    requires |Grouped(rows).groups| - 1 - k != IndexOf(Grouped(rows).groups, key)
    ensures k < |Timeline(rows)| && ItemKey(Timeline(rows)[k]) != key
  {
    hide Timeline, Grouped;
    var slot := ItemsSlot(rows, k);
    OtherKeyAt(Grouped(rows).groups, key, |Grouped(rows).groups| - 1 - k);
  }

  lemma {:induction false} OtherKeyAt(groups: Groups, key: Key, j: nat)
    requires DistinctKeys(groups) && Has(groups, key) && j < |groups| && j != IndexOf(groups, key)
    ensures groups[j].key != key
  {
  }

  lemma {:induction false} RowThere(rows: seq<Row>, i: nat)
    requires i < |rows|
    ensures rows[i] in RowsOf(rows, KeyOf(rows[i]))
    decreases |rows|
  {
    if i < |rows| - 1 { RowThere(rows[..|rows| - 1], i); }
  }

  /** So every row is in exactly one item. */
  lemma {:induction false} EachRowInOneItem(rows: seq<Row>, i: nat) returns (m: nat)
    requires i < |rows|
    ensures m < |Timeline(rows)| && rows[i] in RowsOf(rows, ItemKey(Timeline(rows)[m]))
    ensures forall k: nat | k < |Timeline(rows)| && k != m :: rows[i] !in RowsOf(rows, ItemKey(Timeline(rows)[k]))
  {
    m := OneItemPerKey(rows, i);
    RowThere(rows, i);
    forall k: nat | k < |Timeline(rows)| && k != m ensures rows[i] !in RowsOf(rows, ItemKey(Timeline(rows)[k])) {
      RowsOfKey(rows, ItemKey(Timeline(rows)[k]));
    }
  }

  /** The diffs of a product's items. */
  function SumOfItems(items: seq<Item>, product: Product): int {
    if items == [] then 0
    else (if items[0].product == product then items[0].diff else 0) + SumOfItems(items[1..], product)
  }

  lemma {:induction false} SumsAgree(items: seq<Item>, groups: Groups, product: Product)
    requires Mirrors(items, groups)
    ensures SumOfItems(items, product) == SumOfDiffs(groups, product)
    decreases |items|
  {
    if items != [] {
      assert MirrorsAt(items[0], groups[0]);
      forall i | 0 <= i < |items[1..]| ensures MirrorsAt(items[1..][i], groups[1..][i]) {
        assert MirrorsAt(items[i + 1], groups[i + 1]);
      }
      SumsAgree(items[1..], groups[1..], product);
    }
  }

  lemma {:induction false} SumAppended(items: seq<Item>, last: Item, product: Product)
    ensures SumOfItems(items + [last], product)
         == SumOfItems(items, product) + if last.product == product then last.diff else 0
    decreases |items|
  {
    if items == [] {
      assert ([] + [last])[1..] == [];
    } else {
      SumAppended(items[1..], last, product);
      assert (items + [last])[1..] == items[1..] + [last];
    }
  }

  lemma {:induction false} SumReversed(items: seq<Item>, product: Product)
    ensures SumOfItems(Reversed(items), product) == SumOfItems(items, product)
    decreases |items|
  {
    if items != [] {
      var before, last := items[..|items| - 1], items[|items| - 1];
      SumReversed(before, product);
      SumAppended(before, last, product);
      assert before + [last] == items;
      assert Reversed(items)[1..] == Reversed(before);
    }
  }

  /** The diffs of a product's items sum to the total of its balance rows. */
  lemma {:induction false} ItemsSum(rows: seq<Row>, product: Product)
    ensures SumOfItems(Timeline(rows), product) == Total(rows, product)
  {
    var groups := Grouped(rows).groups;
    ItemsMirror(rows);
    SumReversed(Items(groups), product);
    SumsAgree(Items(groups), groups, product);
    DiffsSum(rows, product);
  }

  predicate Balanced(item: Item) { item.diff == SumOfMoves(item.contracts) }

  lemma {:induction false} ItemBalanced(item: Item, held: Group)
    requires IsItem(item, held)
    ensures Balanced(item)
  {
    MovesOfOk(held.rows);
  }

  /**
   * An item's diff is the sum of its contracts' moves: what one of a product's contracts gains from another is no
   * change.
   */
  lemma {:induction false} MovesCancel(rows: seq<Row>, m: nat)
    requires m < |Timeline(rows)|
    ensures Balanced(Timeline(rows)[m])
  {
    TimelineCount(rows);
    hide Timeline, Grouped;
    var groups := Grouped(rows).groups;
    TimelineAt(rows, groups, m);
    ItemBalanced(Timeline(rows)[m], groups[|groups| - 1 - m].held);
  }

  /** The balance of the product's newest item, or 0: items newest first. */
  function NewestBalance(items: seq<Item>, product: Product): int {
    if items == [] then 0
    else if items[0].product == product then items[0].balance
    else NewestBalance(items[1..], product)
  }

  lemma {:induction false} BalancesAgree(items: seq<Item>, groups: Groups, i: nat, product: Product)
    requires Mirrors(items, groups) && i <= |items|
    ensures NewestBalance(Reversed(items[..i]), product) == Previous(groups, i, product)
  {
    if i > 0 {
      BalancesAgree(items, groups, i - 1, product);
      assert MirrorsAt(items[i - 1], groups[i - 1]);
      assert items[..i][..i - 1] == items[..i - 1];
      assert Reversed(items[..i])[1..] == Reversed(items[..i - 1]);
    }
  }

  /** The item's balance is the next older item's of its product plus its own diff. */
  predicate RunsAt(items: seq<Item>, m: nat)
    requires m < |items|
  {
    items[m].balance == NewestBalance(items[m + 1..], items[m].product) + items[m].diff
  }

  /** An item's balance runs exactly when its group's does. */
  lemma {:induction false} RunsAsLinked(items: seq<Item>, groups: Groups, m: nat)
    requires Mirrors(items, groups) && m < |items|
    ensures |Reversed(items)| == |items| && Reversed(items)[m].product == groups[|items| - 1 - m].key.product
    ensures RunsAt(Reversed(items), m) <==> LinkAt(groups, |items| - 1 - m)
  {
    var i := |items| - 1 - m;
    assert MirrorsAt(items[i], groups[i]);
    ReversedAt(items, m);
    BalancesAgree(items, groups, i, items[i].product);
  }

  lemma {:induction false} NewestIsTotal(items: seq<Item>, rows: seq<Row>, groups: Groups, i: nat)
    requires Contiguous(rows) && groups == Grouped(rows).groups && Mirrors(items, groups) && i < |items|
    ensures LinkAt(groups, i)
    ensures NewestBalance(Reversed(items), groups[i].key.product) == Total(rows, groups[i].key.product)
  {
    hide Grouped, Contiguous, MirrorsAt, GroupOk;
    GroupedOk(rows);
    GroupedLinked(rows);
    PreviousIsTotal(rows, Grouped(rows), groups[i].key.product);
    BalancesAgree(items, groups, |items|, groups[i].key.product);
    assert items[..|items|] == items;
  }

  lemma {:induction false} ItemRuns(rows: seq<Row>, items: seq<Item>, groups: Groups, m: nat)
    requires Contiguous(rows) && groups == Grouped(rows).groups && Mirrors(items, groups) && m < |items|
    ensures |Reversed(items)| == |items| && RunsAt(Reversed(items), m)
    ensures NewestBalance(Reversed(items), Reversed(items)[m].product) == Total(rows, Reversed(items)[m].product)
  {
    hide *;
    RunsAsLinked(items, groups, m);
    NewestIsTotal(items, rows, groups, |items| - 1 - m);
  }

  /**
   * When each transaction's rows of a product stand together, every item's balance is the next older item's of its
   * product plus its own diff, and the product's newest balance is its total.
   */
  lemma {:induction false} BalancesRun(rows: seq<Row>, m: nat)
    requires Contiguous(rows) && m < |Timeline(rows)|
    ensures RunsAt(Timeline(rows), m)
    ensures NewestBalance(Timeline(rows), Timeline(rows)[m].product) == Total(rows, Timeline(rows)[m].product)
  {
    TimelineCount(rows);
    ItemsMirror(rows);
    hide Grouped, RunsAt;
    ItemRuns(rows, Items(Grouped(rows).groups), Grouped(rows).groups, m);
  }
}
