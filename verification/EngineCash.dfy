/**
 Money is conserved: what one contestant pays in a trade another receives, so
 over every run the reported profits of all contestants add up to the residues
 of rounding and reversals alone.
 */
module EngineCash {
  import opened SortedBook
  import opened LevelBook
  import opened BookTheory
  import opened BookRefinement
  import opened Pnl
  import opened Engine
  import opened EngineTheory

  // ----- Cash of a list of trades -----

  lemma {:induction false} CashShift(cash: int, ts: seq<Trade>)
    ensures CashAfter(cash, ts) == cash + CashAfter(0, ts)
    decreases |ts|
  {
    if ts != [] {
      var paid := Signed(ts[0]) * ts[0].price;
      CashShift(cash - paid, ts[1..]);
      CashShift(0 - paid, ts[1..]);
    }
  }

  lemma {:induction false} CashConcat(x: seq<Trade>, y: seq<Trade>)
    ensures CashAfter(0, x + y) == CashAfter(0, x) + CashAfter(0, y)
    decreases |x|
  {
    if x == [] {
      assert x + y == y;
    } else {
      var paid := Signed(x[0]) * x[0].price;
      assert (x + y)[1..] == x[1..] + y;
      CashConcat(x[1..], y);
      CashShift(0 - paid, x[1..] + y);
      CashShift(0 - paid, x[1..]);
    }
  }

  lemma CashOne(t: Trade)
    ensures CashAfter(0, [t]) == -(Signed(t) * t.price) && CashAfter(0, []) == 0
  {
    assert [t][1..] == [];
    assert CashAfter(0 - Signed(t) * t.price, []) == 0 - Signed(t) * t.price;
  }

  // ----- One order -----

  // The cash of the first n contestants from the fills of one order.
  ghost function FillsCash(pool: seq<Order>, taker: nat, side: Side, fills: seq<Fill<nat>>, n: nat): (r: int) {
    if n == 0 then 0
    else FillsCash(pool, taker, side, fills, n - 1) + CashAfter(0, TradesOf(pool, taker, side, fills, n - 1))
  }

  // What a buyer of f pays, or its seller receives.
  function Worth(side: Side, f: Fill<nat>): (x: int) {
    if side == Buy then -(f.qty * f.price) else f.qty * f.price
  }

  lemma FirstCash(pool: seq<Order>, taker: nat, side: Side, fills: seq<Fill<nat>>, c: nat)
    requires fills != [] && fills[0].id < |pool| && pool[fills[0].id].side == Opposite(side)
    ensures CashAfter(0, TradesOf(pool, taker, side, fills, c)) ==
      (if pool[fills[0].id].owner == c then -Worth(side, fills[0]) else 0)
      + (if taker == c then Worth(side, fills[0]) else 0)
      + CashAfter(0, TradesOf(pool, taker, side, fills[1..], c))
  {
    hide CashAfter;
    var f := fills[0];
    var maker, t := Trade(pool[f.id].side, f.price, f.qty), Trade(side, f.price, f.qty);
    var x := if pool[f.id].owner == c then [maker] else [];
    var y := if taker == c then [t] else [];
    CashConcat(x + y, TradesOf(pool, taker, side, fills[1..], c));
    CashConcat(x, y);
    CashOne(maker);
    CashOne(t);
  }

  lemma {:induction false} FirstFillCash(pool: seq<Order>, taker: nat, side: Side, fills: seq<Fill<nat>>, n: nat)
    requires fills != [] && fills[0].id < |pool| && pool[fills[0].id].side == Opposite(side)
    ensures FillsCash(pool, taker, side, fills, n) ==
      (if pool[fills[0].id].owner < n then -Worth(side, fills[0]) else 0)
      + (if taker < n then Worth(side, fills[0]) else 0)
      + FillsCash(pool, taker, side, fills[1..], n)
    decreases n
  {
    hide TradesOf; hide CashAfter; hide Worth;
    if n > 0 {
      FirstFillCash(pool, taker, side, fills, n - 1);
      FirstCash(pool, taker, side, fills, n - 1);
    }
  }

  lemma {:induction false} NoFillsCash(pool: seq<Order>, taker: nat, side: Side, n: nat)
    ensures FillsCash(pool, taker, side, [], n) == 0
    decreases n
  {
    if n > 0 {
      NoFillsCash(pool, taker, side, n - 1);
    }
  }

  lemma {:induction false} FillsCashZero(pool: seq<Order>, taker: nat, side: Side, fills: seq<Fill<nat>>, n: nat)
    requires taker < n && MakersKnown(pool, n, side, fills)
    ensures FillsCash(pool, taker, side, fills, n) == 0
    decreases |fills|
  {
    hide FillsCash; hide Worth;
    if fills == [] {
      NoFillsCash(pool, taker, side, n);
    } else {
      FirstFillCash(pool, taker, side, fills, n);
      FillsCashZero(pool, taker, side, fills[1..], n);
    }
  }

  // ----- Runs -----

  // Totals over the first n contestants: cash received less paid, and residues.
  ghost function RunCash(e: State, ops: seq<Op>, n: nat): (r: int)
    requires Runs(e, ops)
  {
    if n == 0 then 0 else RunCash(e, ops, n - 1) + CashAfter(0, RunTrades(e, ops, n - 1))
  }

  ghost function StepCash(e: State, op: Op, n: nat): (r: int) {
    if n == 0 then 0 else StepCash(e, op, n - 1) + CashAfter(0, StepTrades(e, op, n - 1))
  }

  lemma {:induction false} RunCashStep(e: State, ops: seq<Op>, n: nat)
    requires ops != [] && Runs(e, ops)
    ensures RunCash(e, ops, n) == StepCash(e, ops[0], n) + RunCash(Step(e, ops[0]), ops[1..], n)
    decreases n
  {
    hide Step; hide StepTrades; hide CashAfter;
    if n > 0 {
      RunCashStep(e, ops, n - 1);
      CashConcat(StepTrades(e, ops[0], n - 1), RunTrades(Step(e, ops[0]), ops[1..], n - 1));
    }
  }

  lemma {:induction false} StepCashIs(e: State, op: Op, n: nat)
    ensures StepCash(e, op, n) ==
      if op.Submit? && Verdict(e, op.cid, op.request) == Accepted
      then FillsCash(Fills(e, op.request).book.pool, op.cid, op.request.side, Fills(e, op.request).fills, n) else 0
    decreases n
  {
    hide Fills; hide TradesOf;
    if n > 0 {
      StepCashIs(e, op, n - 1);
    }
  }

  lemma StepCashZero(e: State, op: Op)
    requires EngineInv(e)
    ensures StepCash(e, op, |e.accounts|) == 0
  {
    hide EngineInv; hide Fills; hide FillsCash; hide StepCash;
    StepCashIs(e, op, |e.accounts|);
    if op.Submit? && Verdict(e, op.cid, op.request) == Accepted {
      var m := Fills(e, op.request);
      FillsKnown(e, op.request);
      FillsCashZero(m.book.pool, op.cid, op.request.side, m.fills, |e.accounts|);
    }
  }

  // Over every run all payments cancel out.
  lemma {:induction false} CashZero(e: State, ops: seq<Op>)
    requires EngineInv(e) && Runs(e, ops)
    ensures RunCash(e, ops, |e.accounts|) == 0
    decreases |ops|
  {
    hide EngineInv; hide Step; hide StepCash; hide Allowed; hide RunCash;
    if ops == [] {
      NoCash(e, |e.accounts|);
    } else {
      StepInv(e, ops[0]);
      StepCashZero(e, ops[0]);
      RunCashStep(e, ops, |e.accounts|);
      StepSize(e, ops[0]);
      CashZero(Step(e, ops[0]), ops[1..]);
    }
  }

  lemma {:induction false} NoCash(e: State, n: nat)
    ensures Runs(e, []) && RunCash(e, [], n) == 0
    decreases n
  {
    if n > 0 {
      NoCash(e, n - 1);
    }
  }

  lemma StepSize(e: State, op: Op)
    requires Allowed(e, op)
    ensures |Step(e, op).accounts| == |e.accounts|
  {
    hide Fills; hide BookAfterFills; hide BookFills; hide AddOrder; hide CancelOrder; hide Live; hide Refreshed;
    if op.Submit? {
      var m := Fills(e, op.request);
      BookFillsLength(e.accounts, m.book.pool, op.cid, op.request.side, m.fills);
    }
  }

  // ----- Profits -----

  ghost function ProfitSum(accounts: seq<Account>, mid: int): (r: int) {
    if accounts == [] then 0 else ProfitSum(accounts[..|accounts| - 1], mid) + TotalPnl(accounts[|accounts| - 1], mid)
  }

  ghost function ResidueSum(e: State, ops: seq<Op>, n: nat): (r: int)
    requires Runs(e, ops)
  {
    if n == 0 then 0 else ResidueSum(e, ops, n - 1) + Residues(Account(0, 0, 0, 0), RunTrades(e, ops, n - 1))
  }

  ghost function NetSum(accounts: seq<Account>): (r: int) {
    if accounts == [] then 0 else NetSum(accounts[..|accounts| - 1]) + accounts[|accounts| - 1].position
  }

  lemma {:induction false} NetSumIs(accounts: seq<Account>)
    ensures NetSum(accounts) == PositionSum(accounts)
  {
    if |accounts| == 1 {
      assert accounts[..0] == [] && accounts[1..] == [];
    } else if |accounts| > 1 {
      var front, back := accounts[..|accounts| - 1], accounts[1..];
      NetSumIs(front);
      NetSumIs(back);
      NetSumIs(front[1..]);
      assert front[1..] == back[..|back| - 1];
    }
  }

  lemma {:induction false} ProfitParts(e: State, ops: seq<Op>, n: nat, mid: int)
    requires IsInitial(e) && Runs(e, ops) && n <= |e.accounts| == |After(e, ops).accounts|
    ensures ProfitSum(After(e, ops).accounts[..n], mid) ==
      RunCash(e, ops, n) + NetSum(After(e, ops).accounts[..n]) * mid + ResidueSum(e, ops, n)
    decreases n
  {
    hide Runs; hide After; hide RunTrades; hide CashAfter; hide Residues; hide TotalPnl; hide IsInitial;
    var accounts := After(e, ops).accounts;
    if n > 0 {
      ProfitParts(e, ops, n - 1, mid);
      ReportedProfit(e, ops, n - 1, mid);
      assert accounts[..n][..n - 1] == accounts[..n - 1] && accounts[..n][n - 1] == accounts[n - 1];
      Distributes(NetSum(accounts[..n - 1]), accounts[n - 1].position, mid);
    }
  }

  lemma Distributes(a: int, b: int, mid: int)
    ensures (a + b) * mid == a * mid + b * mid
  {
  }

  // From the start, in every run that never needs a level when none is left: at
  // every mid price the reported profits of all contestants together are the
  // residues of their trades, and zero if there are none.
  lemma ProfitsCancel(e: State, ops: seq<Op>, mid: int)
    requires IsInitial(e) && NeverShort(e, ops)
    ensures Runs(e, ops) && RunCash(e, ops, |e.accounts|) == 0
    ensures ProfitSum(After(e, ops).accounts, mid) == ResidueSum(e, ops, |e.accounts|)
  {
    hide Runs; hide After; hide RunCash; hide ResidueSum; hide ProfitSum; hide NetSum; hide PositionSum; hide EngineInv;
    hide NeverShort; hide IsInitial; hide RunTally; hide Clean; hide View;
    RunsClean(e, ops);
    InitialEngine(e);
    CashZero(e, ops);
    RunPositions(e, ops);
    RunSize(e, ops);
    var accounts := After(e, ops).accounts;
    NetSumIs(accounts);
    ProfitParts(e, ops, |e.accounts|, mid);
    assert accounts[..|e.accounts|] == accounts;
  }

  lemma {:induction false} RunSize(e: State, ops: seq<Op>)
    requires Runs(e, ops)
    ensures |After(e, ops).accounts| == |e.accounts|
    decreases |ops|
  {
    hide Step; hide Allowed;
    if ops != [] {
      StepSize(e, ops[0]);
      RunSize(Step(e, ops[0]), ops[1..]);
    }
  }
}
