/**
 Contestant accounts: average-entry profit and loss, and how far it drifts from
 the cash value of the same trades.
 */
module Pnl {
  import opened SortedBook

  datatype Account = Account(position: int, realized: int, avgEntry: int, totalFills: nat)

  datatype Trade = Trade(side: Side, price: int, qty: int)

  function Abs(x: int): (r: int) {
    if x >= 0 then x else -x
  }

  function Max(a: int, b: int): (r: int) {
    if a > b then a else b
  }

  // Integer division rounding toward zero.
  function TruncDiv(a: int, b: int): (r: int)
    requires b > 0
  {
    if a >= 0 then a / b else -(-a / b)
  }

  function Signed(t: Trade): (r: int) {
    if t.side == Buy then t.qty else -t.qty
  }

  predicate Closes(position: int, signed: int) {
    (position > 0 && signed < 0) || (position < 0 && signed > 0)
  }

  predicate Extends(position: int, signed: int) {
    (position >= 0 && signed > 0) || (position <= 0 && signed < 0)
  }

  // The trade takes the position through zero and out on the other side.
  predicate Reverses(position: int, signed: int) {
    Closes(position, signed) && Abs(signed) > Abs(position)
  }

  function ApplyFill(a: Account, t: Trade): (r: Account) {
    var signed := Signed(t);
    var pos := a.position;
    var realized :=
      if Closes(pos, signed) then
        var closeQty := if signed > 0 then Min(signed, -pos) else Max(signed, -pos);
        if pos > 0 then a.realized + Abs(closeQty) * (t.price - a.avgEntry)
        else a.realized + Abs(closeQty) * (a.avgEntry - t.price)
      else a.realized;
    var avg :=
      if Extends(pos, signed) && Abs(pos) + Abs(signed) > 0 then
        TruncDiv(a.avgEntry * Abs(pos) + t.price * Abs(signed), Abs(pos) + Abs(signed))
      else a.avgEntry;
    Account(pos + signed, realized, avg, a.totalFills + 1)
  }

  function UnrealizedPnl(a: Account, mid: int): (r: int) {
    if a.position == 0 then 0
    else if a.position > 0 then a.position * (mid - a.avgEntry)
    else -a.position * (a.avgEntry - mid)
  }

  function TotalPnl(a: Account, mid: int): (r: int) {
    a.realized + UnrealizedPnl(a, mid)
  }

  // ----- Drift from the cash value -----

  // By how much the reported total exceeds cash plus position at mid; the same
  // for every mid.
  function Drift(a: Account, cash: int): (r: int) {
    a.realized - a.position * a.avgEntry - cash
  }

  lemma DriftIsTheError(a: Account, cash: int, mid: int)
    ensures TotalPnl(a, mid) - (cash + a.position * mid) == Drift(a, cash)
  {
    assert a.position * (mid - a.avgEntry) == a.position * mid - a.position * a.avgEntry;
    assert -a.position * (a.avgEntry - mid) == a.position * mid - a.position * a.avgEntry;
  }

  // What one trade adds to the drift: the remainder of the averaging division
  // when it extends, nothing when it closes, and the part beyond zero at the
  // stale average when it reverses.
  function Residue(a: Account, t: Trade): (r: int) {
    var signed, pos := Signed(t), a.position;
    if Extends(pos, signed) then
      var n := Abs(pos) + Abs(signed);
      var cost := a.avgEntry * Abs(pos) + t.price * Abs(signed);
      if n > 0 then (if signed > 0 then 1 else -1) * (cost - n * TruncDiv(cost, n)) else 0
    else if Reverses(pos, signed) then
      (if pos > 0 then 1 else -1) * (Abs(signed) - Abs(pos)) * (a.avgEntry - t.price)
    else 0
  }

  lemma ExtendResidue(a: Account, t: Trade, cash: int)
    requires Extends(a.position, Signed(t))
    ensures Drift(ApplyFill(a, t), cash - Signed(t) * t.price) == Drift(a, cash) + Residue(a, t)
  {
    var signed, pos := Signed(t), a.position;
    var n := Abs(pos) + Abs(signed);
    var cost := a.avgEntry * Abs(pos) + t.price * Abs(signed);
    var avg := TruncDiv(cost, n);
    assert ApplyFill(a, t) == Account(pos + signed, a.realized, avg, a.totalFills + 1);
    if signed > 0 {
      assert (pos + signed) * avg == n * avg;
      assert cost == pos * a.avgEntry + signed * t.price;
    } else {
      assert (pos + signed) * avg == -(n * avg);
      assert cost == -(pos * a.avgEntry) - signed * t.price;
    }
  }

  lemma CloseResidue(a: Account, t: Trade, cash: int)
    requires Closes(a.position, Signed(t))
    ensures Drift(ApplyFill(a, t), cash - Signed(t) * t.price) == Drift(a, cash) + Residue(a, t)
  {
    var signed, pos, avg := Signed(t), a.position, a.avgEntry;
    var closed := Min(Abs(signed), Abs(pos));
    var a' := ApplyFill(a, t);
    assert a'.avgEntry == avg;
    assert (pos + signed) * avg == pos * avg + signed * avg;
    if pos > 0 {
      assert a'.realized == a.realized + closed * (t.price - avg);
      assert closed * (t.price - avg) == closed * t.price - closed * avg;
      assert (-signed - pos) * (avg - t.price) == -(signed * avg) + signed * t.price - pos * avg + pos * t.price;
    } else {
      assert a'.realized == a.realized + closed * (avg - t.price);
      assert closed * (avg - t.price) == closed * avg - closed * t.price;
      assert -(signed + pos) * (avg - t.price) == -(signed * avg) + signed * t.price - pos * avg + pos * t.price;
    }
  }

  // Every trade moves the drift by exactly its residue.
  lemma DriftStep(a: Account, t: Trade, cash: int)
    ensures Drift(ApplyFill(a, t), cash - Signed(t) * t.price) == Drift(a, cash) + Residue(a, t)
  {
    if Extends(a.position, Signed(t)) {
      ExtendResidue(a, t, cash);
    } else if Closes(a.position, Signed(t)) {
      CloseResidue(a, t, cash);
    } else {
      assert Signed(t) == 0;
    }
  }

  // ----- Sequences of trades -----

  function Run(a: Account, ts: seq<Trade>): (r: Account)
    decreases |ts|
  {
    if ts == [] then a else Run(ApplyFill(a, ts[0]), ts[1..])
  }

  function CashAfter(cash: int, ts: seq<Trade>): (r: int)
    decreases |ts|
  {
    if ts == [] then cash else CashAfter(cash - Signed(ts[0]) * ts[0].price, ts[1..])
  }

  function Residues(a: Account, ts: seq<Trade>): (r: int)
    decreases |ts|
  {
    if ts == [] then 0 else Residue(a, ts[0]) + Residues(ApplyFill(a, ts[0]), ts[1..])
  }

  lemma {:induction false} RunDrift(a: Account, cash: int, ts: seq<Trade>)
    ensures Drift(Run(a, ts), CashAfter(cash, ts)) == Drift(a, cash) + Residues(a, ts)
    decreases |ts|
  {
    if ts != [] {
      DriftStep(a, ts[0], cash);
      RunDrift(ApplyFill(a, ts[0]), cash - Signed(ts[0]) * ts[0].price, ts[1..]);
    }
  }

  lemma DriftFlat()
    ensures Drift(Account(0, 0, 0, 0), 0) == 0
  {
  }

  // The reported profit of any trades from a flat account is their cash value
  // plus the sum of their residues.
  lemma PnlIsCashPlusResidues(ts: seq<Trade>, mid: int)
    ensures var a := Run(Account(0, 0, 0, 0), ts);
      TotalPnl(a, mid) == CashAfter(0, ts) + a.position * mid + Residues(Account(0, 0, 0, 0), ts)
  {
    hide *;
    RunDrift(Account(0, 0, 0, 0), 0, ts);
    DriftFlat();
    DriftIsTheError(Run(Account(0, 0, 0, 0), ts), CashAfter(0, ts), mid);
  }

  ghost predicate RealTrades(ts: seq<Trade>) {
    forall i | 0 <= i < |ts| :: ts[i].price > 0 && ts[i].qty > 0
  }

  ghost predicate NeverReverses(a: Account, ts: seq<Trade>)
    decreases |ts|
  {
    ts == [] || (!Reverses(a.position, Signed(ts[0])) && NeverReverses(ApplyFill(a, ts[0]), ts[1..]))
  }

  // For each extending trade, the size of the position it leads to, less one.
  function ExtendBound(a: Account, ts: seq<Trade>): (r: int)
    decreases |ts|
  {
    if ts == [] then 0
    else
      var a' := ApplyFill(a, ts[0]);
      (if Extends(a.position, Signed(ts[0])) then Abs(a'.position) - 1 else 0) + ExtendBound(a', ts[1..])
  }

  lemma TruncDivBounds(x: int, n: int)
    requires x >= 0 && n > 0
    ensures TruncDiv(x, n) >= 0 && 0 <= x - n * TruncDiv(x, n) < n
  {
  }

  lemma ResidueBound(a: Account, t: Trade)
    requires a.avgEntry >= 0 && t.price > 0 && t.qty > 0 && !Reverses(a.position, Signed(t))
    ensures ApplyFill(a, t).avgEntry >= 0
    ensures Extends(a.position, Signed(t)) ==> Abs(Residue(a, t)) <= Abs(ApplyFill(a, t).position) - 1
    ensures !Extends(a.position, Signed(t)) ==> Residue(a, t) == 0
  {
    if Extends(a.position, Signed(t)) {
      var n := Abs(a.position) + Abs(Signed(t));
      assert a.avgEntry * Abs(a.position) >= 0 && t.price * Abs(Signed(t)) >= 0;
      TruncDivBounds(a.avgEntry * Abs(a.position) + t.price * Abs(Signed(t)), n);
    }
  }

  lemma {:induction false} ResiduesBound(a: Account, ts: seq<Trade>)
    requires a.avgEntry >= 0 && RealTrades(ts) && NeverReverses(a, ts)
    ensures Abs(Residues(a, ts)) <= ExtendBound(a, ts)
    decreases |ts|
  {
    if ts != [] {
      ResidueBound(a, ts[0]);
      ResiduesBound(ApplyFill(a, ts[0]), ts[1..]);
    }
  }

  // Without reversals the reported profit is off by rounding only: each trade
  // that extends the position adds less than one unit per unit held.
  lemma PnlWithinRounding(ts: seq<Trade>, mid: int)
    requires RealTrades(ts) && NeverReverses(Account(0, 0, 0, 0), ts)
    ensures var a := Run(Account(0, 0, 0, 0), ts);
      Abs(TotalPnl(a, mid) - (CashAfter(0, ts) + a.position * mid)) <= ExtendBound(Account(0, 0, 0, 0), ts)
  {
    hide Run; hide CashAfter; hide Residues; hide TotalPnl; hide ExtendBound; hide NeverReverses;
    PnlIsCashPlusResidues(ts, mid);
    ResiduesBound(Account(0, 0, 0, 0), ts);
  }

  // A reversal that ends k units past zero shifts the drift by k times the
  // difference between the stale average and the trade price, so it is exact
  // just when the two are equal.
  lemma ReversalShift(a: Account, t: Trade, cash: int)
    requires Reverses(a.position, Signed(t))
    ensures var k := Abs(ApplyFill(a, t).position);
      var shift := if a.position > 0 then k * (a.avgEntry - t.price) else k * (t.price - a.avgEntry);
      && k > 0 && Drift(ApplyFill(a, t), cash - Signed(t) * t.price) == Drift(a, cash) + shift
      && (shift == 0 <==> a.avgEntry == t.price)
  {
    CloseResidue(a, t, cash);
    var k := Abs(ApplyFill(a, t).position);
    assert k == Abs(Signed(t)) - Abs(a.position);
    if a.position <= 0 {
      assert -1 * k * (a.avgEntry - t.price) == k * (t.price - a.avgEntry);
      NonzeroProduct(k, t.price - a.avgEntry);
    } else {
      NonzeroProduct(k, a.avgEntry - t.price);
    }
  }

  lemma NonzeroProduct(k: int, x: int)
    requires k > 0
    ensures k * x == 0 <==> x == 0
  {
  }

  // The reported profit is not the cash value: buy 1 at 10, sell 2 at 20.
  lemma ReversalCounterexample()
    ensures var ts := [Trade(Buy, 10, 1), Trade(Sell, 20, 2)];
      var a := Run(Account(0, 0, 0, 0), ts);
      RealTrades(ts) && TotalPnl(a, 20) == 0 && CashAfter(0, ts) + a.position * 20 == 10
  {
    var ts := [Trade(Buy, 10, 1), Trade(Sell, 20, 2)];
    var a0 := Account(0, 0, 0, 0);
    assert ts[1..] == [Trade(Sell, 20, 2)] && ts[1..][1..] == [];
    assert ApplyFill(a0, ts[0]) == Account(1, 0, 10, 1);
    assert ApplyFill(Account(1, 0, 10, 1), ts[1]) == Account(-1, 10, 10, 2);
    assert Run(a0, ts) == Run(Account(-1, 10, 10, 2), []);
    assert CashAfter(0, ts) == CashAfter(-10 + 40, []);
  }

  // ----- The account on the trade list alone -----

  // Units of the position that a trade takes off.
  function Closed(position: int, signed: int): (n: int) {
    if position > 0 && signed < 0 then Min(-signed, position)
    else if position < 0 && signed > 0 then Min(signed, -position)
    else 0
  }

  // A trade that takes nothing off realizes nothing; one that does realizes
  // exactly the units taken off, each at the distance from the entry price, and
  // leaves the entry price alone.
  lemma FillExact(a: Account, t: Trade)
    ensures var r, n := ApplyFill(a, t), Closed(a.position, Signed(t));
      && r.position == a.position + Signed(t) && r.totalFills == a.totalFills + 1
      && r.realized == a.realized + n * (if a.position > 0 then t.price - a.avgEntry else a.avgEntry - t.price)
      && (n > 0 || Signed(t) == 0 ==> r.avgEntry == a.avgEntry)
      && (n == 0 && Signed(t) != 0 ==>
            var size := Abs(a.position) + Abs(Signed(t));
            r.avgEntry == TruncDiv(Abs(a.position) * a.avgEntry + Abs(Signed(t)) * t.price, size))
  {
    hide TruncDiv;
    var signed, pos := Signed(t), a.position;
    assert Abs(pos) * a.avgEntry == a.avgEntry * Abs(pos) && Abs(signed) * t.price == t.price * Abs(signed);
  }

  function Net(ts: seq<Trade>): (n: int) {
    if ts == [] then 0 else Net(ts[..|ts| - 1]) + Signed(ts[|ts| - 1])
  }

  // The running average, rounded toward zero, over the trades that built up the
  // position; it outlives a position that is closed or reversed.
  function EntryPrice(ts: seq<Trade>): (p: int) {
    if ts == [] then 0
    else
      var before, t := ts[..|ts| - 1], ts[|ts| - 1];
      var held, size := Net(before), Abs(Net(before)) + Abs(Signed(t));
      if size == 0 || Signed(t) == 0 || Closed(held, Signed(t)) > 0 then EntryPrice(before)
      else TruncDiv(Abs(held) * EntryPrice(before) + Abs(Signed(t)) * t.price, size)
  }

  // The units each trade takes off, at their distance from the entry price then.
  function RealizedProfit(ts: seq<Trade>): (n: int) {
    if ts == [] then 0
    else
      var before, t := ts[..|ts| - 1], ts[|ts| - 1];
      var gain := if Net(before) > 0 then t.price - EntryPrice(before) else EntryPrice(before) - t.price;
      RealizedProfit(before) + Closed(Net(before), Signed(t)) * gain
  }

  lemma {:induction false} RunConcat(a: Account, x: seq<Trade>, y: seq<Trade>)
    ensures Run(a, x + y) == Run(Run(a, x), y)
    decreases |x|
  {
    if x == [] {
      assert x + y == y;
    } else {
      assert (x + y)[1..] == x[1..] + y;
      RunConcat(ApplyFill(a, x[0]), x[1..], y);
    }
  }

  lemma RunOne(a: Account, t: Trade)
    ensures Run(a, [t]) == ApplyFill(a, t) && Run(a, []) == a
  {
    assert [t][1..] == [];
  }

  // The account after any trades from flat: net position, realized profit and
  // entry price are those of the list.
  lemma {:induction false} RunIs(ts: seq<Trade>)
    ensures Run(Account(0, 0, 0, 0), ts) == Account(Net(ts), RealizedProfit(ts), EntryPrice(ts), |ts|)
    decreases |ts|
  {
    hide Run; hide ApplyFill; hide TruncDiv;
    var flat := Account(0, 0, 0, 0);
    if ts == [] {
      RunOne(flat, Trade(Buy, 0, 0));
    } else {
      var before, t := ts[..|ts| - 1], ts[|ts| - 1];
      assert ts == before + [t];
      RunIs(before);
      RunConcat(flat, before, [t]);
      RunOne(Run(flat, before), t);
      FillExact(Run(flat, before), t);
    }
  }

  // The entry price lies between the lowest and the highest price traded.
  lemma {:induction false} EntryBetween(ts: seq<Trade>, lo: int, hi: int)
    requires 0 <= lo <= hi && forall i | 0 <= i < |ts| :: ts[i].qty > 0 && lo <= ts[i].price <= hi
    ensures ts != [] ==> lo <= EntryPrice(ts) <= hi
    decreases |ts|
  {
    hide TruncDiv;
    if ts != [] {
      var before, t := ts[..|ts| - 1], ts[|ts| - 1];
      EntryBetween(before, lo, hi);
      var held, x := Abs(Net(before)), Abs(Signed(t));
      if Closed(Net(before), Signed(t)) == 0 {
        var entry := if before == [] then lo else EntryPrice(before);
        assert before == [] ==> held == 0;
        assert held * EntryPrice(before) == held * entry;
        Averages(held, entry, x, t.price, lo, hi);
      }
    }
  }

  lemma Averages(m: nat, a: int, n: nat, b: int, lo: int, hi: int)
    requires n > 0 && 0 <= lo <= a <= hi && lo <= b <= hi
    ensures lo <= TruncDiv(m * a + n * b, m + n) <= hi
  {
    var x, d := m * a + n * b, m + n;
    Scaled(m, lo, a);
    Scaled(m, a, hi);
    Scaled(n, lo, b);
    Scaled(n, b, hi);
    Summed(m, n, lo);
    Summed(m, n, hi);
    Quotient(x, d, lo, hi);
  }

  lemma Scaled(k: nat, a: int, b: int)
    requires a <= b
    ensures k * a <= k * b
  {
  }

  lemma Summed(m: nat, n: nat, x: int)
    ensures (m + n) * x == m * x + n * x
  {
  }

  lemma Unscaled(k: nat, a: int, b: int)
    requires k * a < k * b
    ensures a < b
  {
  }

  lemma Quotient(x: int, d: nat, lo: int, hi: int)
    requires d > 0 && 0 <= lo && d * lo <= x <= d * hi
    ensures lo <= TruncDiv(x, d) <= hi
  {
    Scaled(d, 0, lo);
    var q := x / d;
    assert x == d * q + x % d;
    Unscaled(d, lo, q + 1) by {
      assert d * (q + 1) == d * q + d;
    }
    Unscaled(d, q, hi + 1) by {
      assert d * (hi + 1) == d * hi + d;
    }
  }
}
