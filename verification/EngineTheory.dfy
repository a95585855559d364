/**
 What every run of the matching engine keeps: the book's invariant, positions
 that sum to zero, conserved quantity, right caches and an uncrossed book.
 */
module EngineTheory {
  import opened SortedBook
  import opened LevelBook
  import opened BookTheory
  import opened BookRefinement
  import opened Pnl
  import opened Engine
  import BookSnapshots
  import CancelMap

  // ----- Asking for both best prices -----

  lemma RefreshedKeeps(b: Book)
    requires Inv(b)
    ensures var r := Refreshed(b);
      && Inv(r) && r.pool == b.pool && r.free == b.free && r.nextId == b.nextId
      && r.bids.queues == b.bids.queues && r.asks.queues == b.asks.queues
      && View(r, Buy) == View(b, Buy) && View(r, Sell) == View(b, Sell)
      && (CachesOk(b) ==> AllFresh(r))
  {
    hide Inv; hide View; hide Clean; hide Scan;
    QueriedKeeps(b, Buy);
    QueriedKeeps(Queried(b, Buy), Sell);
  }

  // ----- The engine's invariant -----

  lemma SameOwners(pool: seq<Order>, pool': seq<Order>)
    requires SameRecords(pool, pool')
    ensures |pool'| == |pool|
    ensures forall s | 0 <= s < |pool| :: pool'[s].owner == pool[s].owner && pool'[s].side == pool[s].side
  {
  }

  // The state after the fills of an order have been booked and reported.
  ghost function Filled(e: State, cid: nat, r: Request): (s: State) {
    var m := Fills(e, r);
    e.(book := BookAfterFills(e, r), accounts := BookFills(e.accounts, m.book.pool, cid, r.side, m.fills))
  }

  lemma {:induction false} BookFillsLength(accounts: seq<Account>, pool: seq<Order>, taker: nat, side: Side,
                                           fills: seq<Fill<nat>>)
    ensures |BookFills(accounts, pool, taker, side, fills)| == |accounts|
    decreases |fills|
  {
    if fills != [] {
      var f := fills[0];
      var rest := if f.id < |pool|
        then ApplyTo(ApplyTo(accounts, pool[f.id].owner, Trade(pool[f.id].side, f.price, f.qty)), taker,
          Trade(side, f.price, f.qty))
        else accounts;
      BookFillsLength(rest, pool, taker, side, fills[1..]);
    }
  }

  lemma AfterFillsKeeps(e: State, r: Request)
    requires Inv(e.book)
    ensures var b := BookAfterFills(e, r);
      && Inv(b) && SameRecords(e.book.pool, b.pool) && e.book.free <= b.free && b.nextId == e.book.nextId
      && View(b, r.side) == View(e.book, r.side)
      && View(b, Opposite(r.side)) == View(Fills(e, r).book, Opposite(r.side))
      && LadderOf(b, r.side).queues == LadderOf(e.book, r.side).queues
      && b.bids.created == e.book.bids.created && b.asks.created == e.book.asks.created
  {
    hide Inv; hide View; hide Clean; hide SameRecords; hide Match; hide Total; hide FillTotal;
    MatchKeeps(e.book, r.side, Some(r.price), r.qty, FILL_BUFFER);
    RefreshedKeeps(Fills(e, r).book);
  }

  lemma FilledInv(e: State, cid: nat, r: Request)
    requires EngineInv(e)
    ensures EngineInv(Filled(e, cid, r))
  {
    hide Inv; hide View; hide SameRecords; hide BookAfterFills; hide Live; hide BookFills;
    AfterFillsKeeps(e, r);
    var b, b' := e.book, BookAfterFills(e, r);
    SameOwners(b.pool, b'.pool);
    BookFillsLength(e.accounts, Fills(e, r).book.pool, cid, r.side, Fills(e, r).fills);
    forall s | 0 <= s < |b'.pool| && Live(b', s)
      ensures b'.pool[s].owner < e.count
    {
      LiveBefore(b, b', s);
    }
  }

  lemma AddOwners(e: State, cid: nat, r: Request, qty: int)
    requires EngineInv(e) && cid < e.count && qty > 0
    ensures var a := AddOrder(e.book, cid, r.clientId, r.side, r.price, qty);
      EngineInv(e.(book := a.book)) && (a.slot.Some? ==> a.slot.value < |a.book.pool|)
  {
    hide Inv; hide Live; hide AddOrder;
    var b := e.book;
    var a := AddOrder(b, cid, r.clientId, r.side, r.price, qty);
    AddKeeps(b, cid, r.clientId, r.side, r.price, qty);
    if b.free == [] {
      AddFull(b, cid, r.clientId, r.side, r.price, qty);
    } else {
      AddShape(b, cid, r.clientId, r.side, r.price, qty);
      AddLive(b, cid, r.clientId, r.side, r.price, qty);
    }
  }

  lemma ProcessOrderInv(e: State, cid: nat, r: Request, placed: bool)
    requires EngineInv(e)
    ensures EngineInv(ProcessOrder(e, cid, r, placed))
  {
    hide EngineInv; hide AddOrder; hide BookFills; hide BookAfterFills; hide Fills;
    if Verdict(e, cid, r) == Accepted {
      FilledInv(e, cid, r);
      if Rests(r, Fills(e, r).left) {
        AddOwners(Filled(e, cid, r), cid, r, Fills(e, r).left);
        CancelsInv(Filled(e, cid, r), cid, r, Fills(e, r).left);
      }
    }
  }

  lemma CancelsInv(e: State, cid: nat, r: Request, qty: int)
    requires var a := AddOrder(e.book, cid, r.clientId, r.side, r.price, qty);
      EngineInv(e.(book := a.book)) && (a.slot.Some? ==> a.slot.value < |a.book.pool|)
    ensures var a := AddOrder(e.book, cid, r.clientId, r.side, r.price, qty);
      a.slot.Some? ==>
        EngineInv(e.(book := a.book, cancels := e.cancels[CancelMap.MakeKey(cid, r.clientId) := a.slot.value]))
  {
    hide Inv; hide Live; hide AddOrder; hide CancelMap.MakeKey;
  }

  lemma ProcessCancelInv(e: State, cid: nat, clientId: nat, next: Option<nat>)
    requires EngineInv(e) && Allowed(e, Cancel(cid, clientId, next))
    ensures EngineInv(ProcessCancel(e, cid, clientId, next))
  {
    hide Inv; hide Live; hide CancelOrder;
    var c := CancelSlot(e, cid, clientId);
    if c.Some? {
      CancelKeeps(e.book, c.value);
      CancelLive(e.book, c.value);
    }
  }

  lemma StepInv(e: State, op: Op)
    requires EngineInv(e) && Allowed(e, op)
    ensures EngineInv(Step(e, op))
  {
    hide EngineInv; hide ProcessOrder; hide ProcessCancel; hide Tick;
    match op
    case Submit(cid, r, placed) => ProcessOrderInv(e, cid, r, placed);
    case Cancel(cid, clientId, next) => ProcessCancelInv(e, cid, clientId, next);
    case TickOp => TickInv(e);
  }

  lemma TickInv(e: State)
    requires EngineInv(e)
    ensures EngineInv(Tick(e))
  {
    hide Inv; hide View;
    RefreshedKeeps(e.book);
    assert forall s: nat :: Live(Tick(e).book, s) <==> Live(e.book, s);
  }

  lemma {:induction false} RunInv(e: State, ops: seq<Op>)
    requires EngineInv(e) && Runs(e, ops)
    ensures EngineInv(After(e, ops))
    decreases |ops|
  {
    hide EngineInv; hide Step;
    if ops != [] {
      StepInv(e, ops[0]);
      RunInv(Step(e, ops[0]), ops[1..]);
    }
  }

  // ----- Positions sum to zero -----

  ghost function PositionSum(accounts: seq<Account>): (r: int) {
    if accounts == [] then 0 else accounts[0].position + PositionSum(accounts[1..])
  }

  lemma {:induction false} PositionSumAt(accounts: seq<Account>, i: nat, a: Account)
    requires i < |accounts|
    ensures PositionSum(accounts[i := a]) == PositionSum(accounts) - accounts[i].position + a.position
  {
    if i == 0 {
      assert accounts[0 := a][1..] == accounts[1..];
    } else {
      assert accounts[i := a][1..] == accounts[1..][i - 1 := a];
      PositionSumAt(accounts[1..], i - 1, a);
    }
  }

  lemma ApplyToSum(accounts: seq<Account>, cid: nat, t: Trade)
    requires cid < |accounts|
    ensures PositionSum(ApplyTo(accounts, cid, t)) == PositionSum(accounts) + Signed(t)
    ensures |ApplyTo(accounts, cid, t)| == |accounts|
  {
    PositionSumAt(accounts, cid, ApplyFill(accounts[cid], t));
  }

  // The makers of the fills are on the other side and have accounts.
  ghost predicate MakersKnown(pool: seq<Order>, n: nat, side: Side, fills: seq<Fill<nat>>) {
    forall i | 0 <= i < |fills| ::
      fills[i].id < |pool| && pool[fills[i].id].side == Opposite(side) && pool[fills[i].id].owner < n
  }

  lemma {:induction false} BookFillsSum(accounts: seq<Account>, pool: seq<Order>, taker: nat, side: Side,
                                        fills: seq<Fill<nat>>)
    requires taker < |accounts| && MakersKnown(pool, |accounts|, side, fills)
    ensures PositionSum(BookFills(accounts, pool, taker, side, fills)) == PositionSum(accounts)
    decreases |fills|
  {
    hide PositionSum; hide ApplyTo;
    if fills != [] {
      var f := fills[0];
      var maker := pool[f.id];
      var one := ApplyTo(accounts, maker.owner, Trade(maker.side, f.price, f.qty));
      ApplyToSum(accounts, maker.owner, Trade(maker.side, f.price, f.qty));
      ApplyToSum(one, taker, Trade(side, f.price, f.qty));
      BookFillsSum(ApplyTo(one, taker, Trade(side, f.price, f.qty)), pool, taker, side, fills[1..]);
    }
  }

  lemma FillsKnown(e: State, r: Request)
    requires EngineInv(e)
    ensures MakersKnown(Fills(e, r).book.pool, |e.accounts|, r.side, Fills(e, r).fills)
  {
    hide Inv; hide View; hide Match; hide SameRecords; hide Total; hide FillTotal; hide Live; hide Clean;
    var m := Fills(e, r);
    MatchKeeps(e.book, r.side, Some(r.price), r.qty, FILL_BUFFER);
    MatchFillsOk(e.book, r.side, Some(r.price), r.qty, FILL_BUFFER);
    MatchMakersLive(e.book, r.side, Some(r.price), r.qty, FILL_BUFFER);
    SameOwners(e.book.pool, m.book.pool);
    forall i | 0 <= i < |m.fills|
      ensures m.book.pool[m.fills[i].id].owner < |e.accounts|
    {
      assert Live(e.book, m.fills[i].id);
    }
  }

  lemma StepPositions(e: State, op: Op)
    requires EngineInv(e) && Allowed(e, op)
    ensures PositionSum(Step(e, op).accounts) == PositionSum(e.accounts)
  {
    hide EngineInv; hide AddOrder; hide BookFills; hide BookAfterFills; hide Fills; hide PositionSum; hide CancelOrder;
    if op.Submit? && Verdict(e, op.cid, op.request) == Accepted {
      var m := Fills(e, op.request);
      FillsKnown(e, op.request);
      BookFillsSum(e.accounts, m.book.pool, op.cid, op.request.side, m.fills);
    }
  }

  // What one contestant gains another loses, in every run.
  lemma {:induction false} RunPositions(e: State, ops: seq<Op>)
    requires EngineInv(e) && Runs(e, ops)
    ensures PositionSum(After(e, ops).accounts) == PositionSum(e.accounts)
    decreases |ops|
  {
    hide EngineInv; hide Step; hide PositionSum;
    if ops != [] {
      StepInv(e, ops[0]);
      StepPositions(e, ops[0]);
      RunPositions(Step(e, ops[0]), ops[1..]);
    }
  }

  // ----- The sender stays within the position limit -----

  // Between the old position and the old one moved by n in the order's direction.
  predicate Towards(side: Side, before: int, after: int, n: int) {
    if side == Buy then before <= after <= before + n else before - n <= after <= before
  }

  // Fills move the taker by at most their quantity; fills against the taker's
  // own orders cancel out.
  lemma {:induction false} TakerMoves(accounts: seq<Account>, pool: seq<Order>, taker: nat, side: Side,
                                      fills: seq<Fill<nat>>)
    requires taker < |accounts| && MakersKnown(pool, |accounts|, side, fills)
    requires forall i | 0 <= i < |fills| :: fills[i].qty > 0
    ensures var r := BookFills(accounts, pool, taker, side, fills);
      |r| == |accounts| && Towards(side, accounts[taker].position, r[taker].position, FillTotal(fills))
    decreases |fills|
  {
    if fills != [] {
      var f := fills[0];
      var maker := pool[f.id];
      var one := ApplyTo(accounts, maker.owner, Trade(maker.side, f.price, f.qty));
      var two := ApplyTo(one, taker, Trade(side, f.price, f.qty));
      TakerMoves(two, pool, taker, side, fills[1..]);
    }
  }

  // An accepted order takes its sender in its own direction only, by at most
  // its quantity, and never past the position limit.
  lemma TakerWithinLimit(e: State, cid: nat, r: Request, placed: bool)
    requires EngineInv(e) && Verdict(e, cid, r) == Accepted
    ensures var after := ProcessOrder(e, cid, r, placed).accounts;
      && 0 < r.qty <= e.cfg.maxOrderSize && |after| == |e.accounts|
      && Towards(r.side, e.accounts[cid].position, after[cid].position, r.qty)
      && (r.side == Buy ==> after[cid].position <= e.cfg.maxPosition)
      && (r.side == Sell ==> after[cid].position >= -e.cfg.maxPosition)
  {
    hide Inv; hide View; hide Match; hide SameRecords; hide Total; hide FillTotal; hide Live; hide Clean; hide AddOrder;
    hide BookAfterFills; hide BookFills;
    var m := Fills(e, r);
    FillsKnown(e, r);
    MatchKeeps(e.book, r.side, Some(r.price), r.qty, FILL_BUFFER);
    MatchFillsOk(e.book, r.side, Some(r.price), r.qty, FILL_BUFFER);
    TakerMoves(e.accounts, m.book.pool, cid, r.side, m.fills);
  }

  // ----- Each account follows its own trades -----

  // The trades that a list of fills means for contestant c, as maker and taker.
  function TradesOf(pool: seq<Order>, taker: nat, side: Side, fills: seq<Fill<nat>>, c: nat): (ts: seq<Trade>)
    decreases |fills|
  {
    if fills == [] then []
    else
      var f := fills[0];
      var rest := TradesOf(pool, taker, side, fills[1..], c);
      (if f.id < |pool| && pool[f.id].owner == c then [Trade(pool[f.id].side, f.price, f.qty)] else [])
      + (if f.id < |pool| && taker == c then [Trade(side, f.price, f.qty)] else []) + rest
  }

  lemma ApplyToAccount(accounts: seq<Account>, cid: nat, t: Trade, c: nat)
    requires c < |accounts|
    ensures |ApplyTo(accounts, cid, t)| == |accounts|
    ensures ApplyTo(accounts, cid, t)[c] == Run(accounts[c], if cid == c then [t] else [])
  {
    RunOne(accounts[c], t);
  }

  lemma {:induction false} BookFillsAccount(accounts: seq<Account>, pool: seq<Order>, taker: nat, side: Side,
                                            fills: seq<Fill<nat>>, c: nat)
    requires c < |accounts|
    ensures |BookFills(accounts, pool, taker, side, fills)| == |accounts|
    ensures BookFills(accounts, pool, taker, side, fills)[c] == Run(accounts[c], TradesOf(pool, taker, side, fills, c))
    decreases |fills|
  {
    hide Run; hide ApplyTo; hide ApplyFill;
    if fills == [] {
      RunOne(accounts[c], Trade(side, 0, 0));
    } else {
      var f := fills[0];
      var rest := TradesOf(pool, taker, side, fills[1..], c);
      if f.id < |pool| {
        var maker, t := Trade(pool[f.id].side, f.price, f.qty), Trade(side, f.price, f.qty);
        var x := if pool[f.id].owner == c then [maker] else [];
        var y := if taker == c then [t] else [];
        var one := ApplyTo(accounts, pool[f.id].owner, maker);
        ApplyToAccount(accounts, pool[f.id].owner, maker, c);
        ApplyToAccount(one, taker, t, c);
        BookFillsAccount(ApplyTo(one, taker, t), pool, taker, side, fills[1..], c);
        RunConcat(accounts[c], x, y);
        RunConcat(accounts[c], x + y, rest);
      } else {
        BookFillsAccount(accounts, pool, taker, side, fills[1..], c);
        assert [] + [] + rest == rest;
      }
    }
  }

  ghost function StepTrades(e: State, op: Op, c: nat): (ts: seq<Trade>) {
    if op.Submit? && Verdict(e, op.cid, op.request) == Accepted
    then TradesOf(Fills(e, op.request).book.pool, op.cid, op.request.side, Fills(e, op.request).fills, c) else []
  }

  ghost function RunTrades(e: State, ops: seq<Op>, c: nat): (ts: seq<Trade>)
    requires Runs(e, ops)
    decreases |ops|
  {
    if ops == [] then [] else StepTrades(e, ops[0], c) + RunTrades(Step(e, ops[0]), ops[1..], c)
  }

  lemma StepAccount(e: State, op: Op, c: nat)
    requires Allowed(e, op) && c < |e.accounts|
    ensures |Step(e, op).accounts| == |e.accounts|
      && Step(e, op).accounts[c] == Run(e.accounts[c], StepTrades(e, op, c))
  {
    hide AddOrder; hide BookFills; hide BookAfterFills; hide Fills; hide CancelOrder; hide Run; hide TradesOf;
    if op.Submit? && Verdict(e, op.cid, op.request) == Accepted {
      var m := Fills(e, op.request);
      BookFillsAccount(e.accounts, m.book.pool, op.cid, op.request.side, m.fills, c);
    } else {
      RunOne(e.accounts[c], Trade(Buy, 0, 0));
    }
  }

  // After any run a contestant's account is what the contestant's own trades,
  // in order, make of it.
  lemma {:induction false} AccountsFollowTrades(e: State, ops: seq<Op>, c: nat)
    requires Runs(e, ops) && c < |e.accounts|
    ensures |After(e, ops).accounts| == |e.accounts|
    ensures After(e, ops).accounts[c] == Run(e.accounts[c], RunTrades(e, ops, c))
    decreases |ops|
  {
    hide Step; hide Run; hide StepTrades;
    if ops == [] {
      RunOne(e.accounts[c], Trade(Buy, 0, 0));
    } else {
      var e1 := Step(e, ops[0]);
      StepAccount(e, ops[0], c);
      AccountsFollowTrades(e1, ops[1..], c);
      RunConcat(e.accounts[c], StepTrades(e, ops[0], c), RunTrades(e1, ops[1..], c));
    }
  }

  // So from the start the profit reported for a contestant is the cash value of
  // those trades plus their residues.
  lemma ReportedProfit(e: State, ops: seq<Op>, c: nat, mid: int)
    requires IsInitial(e) && Runs(e, ops) && c < |e.accounts|
    ensures |After(e, ops).accounts| == |e.accounts|
    ensures var a, ts := After(e, ops).accounts[c], RunTrades(e, ops, c);
      TotalPnl(a, mid) == CashAfter(0, ts) + a.position * mid + Residues(Account(0, 0, 0, 0), ts)
  {
    hide Runs; hide After; hide RunTrades; hide Run; hide CashAfter; hide Residues; hide TotalPnl;
    AccountsFollowTrades(e, ops, c);
    PnlIsCashPlusResidues(RunTrades(e, ops, c), mid);
  }

  // The account itself, on the contestant's trades alone.
  lemma ReportedAccount(e: State, ops: seq<Op>, c: nat)
    requires IsInitial(e) && Runs(e, ops) && c < |e.accounts|
    ensures |After(e, ops).accounts| == |e.accounts|
    ensures var ts := RunTrades(e, ops, c);
      After(e, ops).accounts[c] == Account(Net(ts), RealizedProfit(ts), EntryPrice(ts), |ts|)
  {
    hide Runs; hide After; hide RunTrades; hide Run; hide RealizedProfit; hide EntryPrice; hide Net;
    AccountsFollowTrades(e, ops, c);
    RunIs(RunTrades(e, ops, c));
  }

  // ----- Conserved quantity -----

  datatype Tally = Tally(accepted: int, matched: int, cancelled: int, discarded: int)

  ghost function Add(a: Tally, c: Tally): (r: Tally) {
    Tally(a.accepted + c.accepted, a.matched + c.matched, a.cancelled + c.cancelled, a.discarded + c.discarded)
  }

  ghost function AddRemainder(e: State, cid: nat, r: Request): (a: Added) {
    AddOrder(BookAfterFills(e, r), cid, r.clientId, r.side, r.price, Fills(e, r).left)
  }

  // The remainder is discarded unless it rests.
  ghost predicate RestsIn(e: State, cid: nat, r: Request) {
    Rests(r, Fills(e, r).left) && AddRemainder(e, cid, r).slot.Some?
  }

  // What one operation accepts, matches, cancels and discards.
  ghost function StepTally(e: State, op: Op): (t: Tally) {
    match op
    case Submit(cid, r, placed) =>
      if Verdict(e, cid, r) != Accepted then Tally(0, 0, 0, 0)
      else
        Tally(r.qty, FillTotal(Fills(e, r).fills), 0, if RestsIn(e, cid, r) then 0 else Fills(e, r).left)
    case Cancel(cid, clientId, next) =>
      var c := CancelSlot(e, cid, clientId);
      Tally(0, 0, if c.Some? && c.value < |e.book.pool| then e.book.pool[c.value].remaining else 0, 0)
    case TickOp => Tally(0, 0, 0, 0)
  }

  ghost function RunTally(e: State, ops: seq<Op>): (t: Tally)
    requires Runs(e, ops)
    decreases |ops|
  {
    if ops == [] then Tally(0, 0, 0, 0) else Add(StepTally(e, ops[0]), RunTally(Step(e, ops[0]), ops[1..]))
  }

  ghost function OpenInterest(b: Book): (r: int) {
    Total(View(b, Buy)) + Total(View(b, Sell))
  }

  // The units taken in are matched twice over, resting, cancelled or discarded.
  ghost predicate Balances(before: Book, after: Book, t: Tally) {
    t.accepted == 2 * t.matched + (OpenInterest(after) - OpenInterest(before)) + t.cancelled + t.discarded
  }

  lemma RemoveTotal<T>(l: seq<Resting<T>>, k: nat)
    requires k < |l|
    ensures Total(RemoveAt(l, k)) == Total(l) - l[k].qty
  {
    TotalConcat(l[..k], l[k + 1..]);
    TotalConcat(l[..k], l[k..]);
    assert l[..k] + l[k..] == l;
    assert l[k..][1..] == l[k + 1..];
  }

  lemma SideSum(b: Book, side: Side)
    ensures OpenInterest(b) == Total(View(b, side)) + Total(View(b, Opposite(side)))
  {
  }

  lemma MatchBalance(e: State, r: Request)
    requires Inv(e.book)
    ensures OpenInterest(BookAfterFills(e, r)) == OpenInterest(e.book) - FillTotal(Fills(e, r).fills)
    ensures r.qty == Fills(e, r).left + FillTotal(Fills(e, r).fills)
  {
    hide Inv; hide View; hide Match; hide Total; hide FillTotal; hide OpenInterest; hide SameRecords; hide Clean;
    hide BookAfterFills;
    MatchKeeps(e.book, r.side, Some(r.price), r.qty, FILL_BUFFER);
    AfterFillsKeeps(e, r);
    SideSum(e.book, r.side);
    SideSum(BookAfterFills(e, r), r.side);
  }

  lemma AddBalance(b: Book, cid: nat, clientId: nat, side: Side, price: int, qty: int)
    requires Inv(b) && qty > 0
    ensures var a := AddOrder(b, cid, clientId, side, price, qty);
      OpenInterest(a.book) == OpenInterest(b) + (if a.slot.Some? then qty else 0)
  {
    hide View; hide Total; hide AddOrder; hide OpenInterest; hide Insert; hide LadderOk; hide Partition;
    var a := AddOrder(b, cid, clientId, side, price, qty);
    AddRefines(b, cid, clientId, side, price, qty);
    ViewSorted(b, side);
    SideSum(b, side);
    SideSum(a.book, side);
    if a.slot.Some? {
      InsertTotal(side, View(b, side), Resting(Key(a.slot.value, b.nextId, cid, clientId), price, qty));
    }
  }

  lemma SubmitBalance(e: State, cid: nat, r: Request, placed: bool)
    requires EngineInv(e)
    ensures Balances(e.book, ProcessOrder(e, cid, r, placed).book, StepTally(e, Submit(cid, r, placed)))
  {
    hide Inv; hide View; hide Match; hide Total; hide FillTotal; hide OpenInterest; hide AddOrder; hide BookFills;
    hide BookAfterFills; hide Fills;
    if Verdict(e, cid, r) == Accepted {
      MatchBalance(e, r);
      AfterFillsKeeps(e, r);
      if Rests(r, Fills(e, r).left) {
        AddBalance(BookAfterFills(e, r), cid, r.clientId, r.side, r.price, Fills(e, r).left);
      }
    }
  }

  lemma CancelBalance(b: Book, s: nat)
    requires Inv(b) && Live(b, s)
    ensures OpenInterest(CancelOrder(b, s).0) == OpenInterest(b) - b.pool[s].remaining
  {
    hide Inv; hide View; hide Total; hide OpenInterest; hide CancelOrder;
    var k := CancelRefines(b, s);
    LiveInPool(b, s);
    var side := b.pool[s].side;
    SideSum(b, side);
    SideSum(CancelOrder(b, s).0, side);
    RemoveTotal(View(b, side), k);
  }

  lemma StepBalance(e: State, op: Op)
    requires EngineInv(e) && Allowed(e, op)
    ensures Balances(e.book, Step(e, op).book, StepTally(e, op))
  {
    hide Inv; hide View; hide Match; hide Total; hide FillTotal; hide AddOrder; hide BookFills; hide BookAfterFills;
    hide Fills; hide CancelOrder; hide ProcessOrder; hide Refreshed; hide Live; hide OpenInterest;
    match op
    case Submit(cid, r, placed) => SubmitBalance(e, cid, r, placed);
    case Cancel(cid, clientId, next) =>
      var c := CancelSlot(e, cid, clientId);
      if c.Some? {
        CancelBalance(e.book, c.value);
        LiveInPool(e.book, c.value);
      }
    case TickOp =>
      RefreshedKeeps(e.book);
      SideSum(e.book, Buy);
      SideSum(Refreshed(e.book), Buy);
  }

  // Accepted quantity is matched (on both sides), resting, cancelled or
  // discarded, over every run and whatever the caches say.
  lemma {:induction false} RunBalance(e: State, ops: seq<Op>)
    requires EngineInv(e) && Runs(e, ops)
    ensures Balances(e.book, After(e, ops).book, RunTally(e, ops))
    decreases |ops|
  {
    hide EngineInv; hide Step; hide OpenInterest; hide StepTally;
    if ops != [] {
      StepInv(e, ops[0]);
      StepBalance(e, ops[0]);
      RunBalance(Step(e, ops[0]), ops[1..]);
    }
  }

  // ----- Free slots and cancels -----

  // While free slots hold no quantity, quantity left means a resting order, so
  // every cancel is safe.
  lemma CleanAllows(e: State, op: Op)
    requires Inv(e.book) && Clean(e.book)
    ensures Allowed(e, op)
    ensures forall s | 0 <= s < |e.book.pool| :: e.book.pool[s].remaining > 0 <==> Live(e.book, s)
  {
    hide LadderOk; hide Live;
    forall s | 0 <= s < |e.book.pool| && Live(e.book, s)
      ensures e.book.pool[s].remaining > 0
    {
      LiveRemaining(e.book, s);
    }
  }

  lemma LiveRemaining(b: Book, s: nat)
    requires Inv(b) && Live(b, s)
    ensures b.pool[s].remaining > 0
  {
    var k := LiveQueue(b, s);
  }

  // The order needs a new price level and none is left.
  ghost predicate OutOfLevels(e: State, op: Op) {
    && op.Submit? && Verdict(e, op.cid, op.request) == Accepted && Rests(op.request, Fills(e, op.request).left)
    && BookAfterFills(e, op.request).free != []
    && NoLevel(LadderOf(BookAfterFills(e, op.request), op.request.side), op.request.price)
  }

  lemma AfterFillsClean(e: State, r: Request)
    requires Inv(e.book) && Clean(e.book)
    ensures Clean(BookAfterFills(e, r))
  {
    hide Inv; hide View; hide SameRecords; hide Match; hide Total; hide FillTotal; hide Refreshed;
    MatchKeeps(e.book, r.side, Some(r.price), r.qty, FILL_BUFFER);
    RefreshedKeeps(Fills(e, r).book);
  }

  // Free slots stay empty until an order finds no level, and not after.
  lemma StepClean(e: State, op: Op)
    requires EngineInv(e) && Clean(e.book) && Allowed(e, op)
    ensures Clean(Step(e, op).book) <==> !OutOfLevels(e, op)
  {
    hide Inv; hide View; hide BookAfterFills; hide Fills; hide AddOrder; hide BookFills; hide CancelOrder;
    hide Refreshed; hide Live; hide Clean; hide NoLevel;
    match op
    case Submit(cid, r, placed) =>
      if Verdict(e, cid, r) == Accepted {
        AfterFillsKeeps(e, r);
        AfterFillsClean(e, r);
        if Rests(r, Fills(e, r).left) {
          AddClean(BookAfterFills(e, r), cid, r.clientId, r.side, r.price, Fills(e, r).left);
        }
      }
    case Cancel(cid, clientId, next) =>
      if CancelSlot(e, cid, clientId).Some? {
        CancelKeeps(e.book, CancelSlot(e, cid, clientId).value);
      }
    case TickOp =>
      RefreshedKeeps(e.book);
      SameClean(e.book, Refreshed(e.book));
  }

  lemma SameClean(b: Book, b': Book)
    requires b'.pool == b.pool && b'.free == b.free
    ensures Clean(b') == Clean(b)
  {
  }

  // ----- Which runs are safe -----

  // No order of the run needs a level when none is left.
  ghost predicate NeverShort(e: State, ops: seq<Op>)
    decreases |ops|
  {
    ops == [] || (Allowed(e, ops[0]) ==> !OutOfLevels(e, ops[0]) && NeverShort(Step(e, ops[0]), ops[1..]))
  }

  lemma {:induction false} StaysClean(e: State, ops: seq<Op>)
    requires EngineInv(e) && Clean(e.book) && NeverShort(e, ops)
    ensures Runs(e, ops) && Clean(After(e, ops).book)
    decreases |ops|
  {
    hide EngineInv; hide Step; hide Clean; hide OutOfLevels; hide Allowed;
    if ops != [] {
      CleanAllowed(e, ops[0]);
      StepInv(e, ops[0]);
      StepClean(e, ops[0]);
      StaysClean(Step(e, ops[0]), ops[1..]);
    }
  }

  lemma CleanAllowed(e: State, op: Op)
    requires EngineInv(e) && Clean(e.book)
    ensures Allowed(e, op)
  {
    hide Inv; hide OwnersOk; hide Clean; hide Allowed; hide Live;
    CleanAllows(e, op);
  }

  // The levels handed out on a side are at most the orders submitted there.
  function Submits(ops: seq<Op>, side: Side): (n: nat) {
    if ops == [] then 0 else (if ops[0].Submit? && ops[0].request.side == side then 1 else 0) + Submits(ops[1..], side)
  }

  lemma AddCreated(b: Book, cid: nat, r: Request, qty: int, side: Side)
    requires Inv(b)
    ensures var b' := AddOrder(b, cid, r.clientId, r.side, r.price, qty).book;
      LadderOf(b', side).created <= LadderOf(b, side).created + if side == r.side then 1 else 0
  {
    hide Inv;
  }

  lemma StepCreated(e: State, op: Op, side: Side)
    requires EngineInv(e) && Allowed(e, op)
    ensures LadderOf(Step(e, op).book, side).created <=
      LadderOf(e.book, side).created + if op.Submit? && op.request.side == side then 1 else 0
  {
    hide Inv; hide View; hide BookAfterFills; hide Fills; hide AddOrder; hide BookFills; hide Live; hide SameRecords;
    hide OwnersOk;
    match op
    case Submit(cid, r, placed) =>
      AfterFillsKeeps(e, r);
      AddCreated(BookAfterFills(e, r), cid, r, Fills(e, r).left, side);
    case Cancel(cid, clientId, next) =>
    case TickOp => RefreshedKeeps(e.book);
  }

  lemma {:induction false} FewSubmitsSuffice(e: State, ops: seq<Op>)
    requires EngineInv(e)
    requires forall side :: LadderOf(e.book, side).created + Submits(ops, side) <= MAX_PRICE_LEVELS
    ensures NeverShort(e, ops)
    decreases |ops|
  {
    hide EngineInv; hide Step; hide Allowed; hide OutOfLevels;
    if ops != [] && Allowed(e, ops[0]) {
      LevelsLeft(e, ops);
      StepInv(e, ops[0]);
      forall side
        ensures LadderOf(Step(e, ops[0]).book, side).created + Submits(ops[1..], side) <= MAX_PRICE_LEVELS
      {
        StepCreated(e, ops[0], side);
      }
      FewSubmitsSuffice(Step(e, ops[0]), ops[1..]);
    }
  }

  lemma LevelsLeft(e: State, ops: seq<Op>)
    requires EngineInv(e) && ops != []
    requires forall side :: LadderOf(e.book, side).created + Submits(ops, side) <= MAX_PRICE_LEVELS
    ensures !OutOfLevels(e, ops[0])
  {
    hide Inv; hide View; hide BookAfterFills; hide Fills; hide SameRecords; hide OwnersOk;
    if ops[0].Submit? {
      AfterFillsKeeps(e, ops[0].request);
      assert LadderOf(e.book, ops[0].request.side).created + Submits(ops, ops[0].request.side) <= MAX_PRICE_LEVELS;
    }
  }

  // ----- From the start -----

  ghost predicate IsInitial(e: State) {
    && BookSnapshots.IsInitial(e.book) && e.cancels == map[] && e.count <= |e.accounts|
    && forall i | 0 <= i < |e.accounts| :: e.accounts[i] == Account(0, 0, 0, 0)
  }

  lemma {:induction false} ZeroSum(accounts: seq<Account>)
    requires forall i | 0 <= i < |accounts| :: accounts[i].position == 0
    ensures PositionSum(accounts) == 0
  {
    if accounts != [] {
      ZeroSum(accounts[1..]);
    }
  }

  lemma InitialEngine(e: State)
    requires IsInitial(e)
    ensures EngineInv(e) && Clean(e.book) && AllFresh(e.book)
    ensures PositionSum(e.accounts) == 0 && View(e.book, Buy) == [] && View(e.book, Sell) == []
  {
    hide Inv; hide Clean; hide AllFresh; hide PositionSum;
    BookSnapshots.InitialInv(e.book);
    ZeroSum(e.accounts);
    FlatEmpty(Buy, e.book.bids.queues);
    FlatEmpty(Sell, e.book.asks.queues);
    assert forall s: nat :: !Live(e.book, s);
  }

  // Every run that never needs a level when none is left is one the book can
  // follow, and leaves no quantity in free slots.
  lemma RunsClean(e: State, ops: seq<Op>)
    requires IsInitial(e) && NeverShort(e, ops)
    ensures Runs(e, ops) && Clean(After(e, ops).book)
  {
    hide EngineInv; hide IsInitial; hide NeverShort; hide Runs; hide After; hide Clean;
    InitialEngine(e);
    StaysClean(e, ops);
  }

  // In particular every run of at most 4096 orders a side.
  lemma FewOrdersRun(e: State, ops: seq<Op>)
    requires IsInitial(e) && Submits(ops, Buy) <= MAX_PRICE_LEVELS && Submits(ops, Sell) <= MAX_PRICE_LEVELS
    ensures NeverShort(e, ops)
  {
    hide EngineInv; hide NeverShort; hide Submits;
    InitialEngine(e);
    forall side
      ensures LadderOf(e.book, side).created + Submits(ops, side) <= MAX_PRICE_LEVELS
    {
    }
    FewSubmitsSuffice(e, ops);
  }

  // Then positions sum to zero, and what was accepted is matched on both sides,
  // resting, cancelled or discarded.
  lemma Conservation(e: State, ops: seq<Op>)
    requires IsInitial(e) && NeverShort(e, ops)
    ensures Runs(e, ops) && EngineInv(After(e, ops)) && PositionSum(After(e, ops).accounts) == 0
    ensures var t := RunTally(e, ops);
      t.accepted == 2 * t.matched + OpenInterest(After(e, ops).book) + t.cancelled + t.discarded
  {
    hide EngineInv; hide Step; hide StepTally; hide View; hide PositionSum; hide RunTally; hide Runs; hide After;
    hide IsInitial; hide NeverShort; hide Clean;
    RunsClean(e, ops);
    InitialEngine(e);
    RunInv(e, ops);
    RunPositions(e, ops);
    RunBalance(e, ops);
  }
}
