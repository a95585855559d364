/**
 Runs from the start that end in the states the engine's promises exclude, each
 for every engine with enough contestants, slots and limits.
 */
module EngineCases {
  import opened SortedBook
  import opened LevelBook
  import opened BookTheory
  import opened BookRefinement
  import opened Pnl
  import opened Engine
  import opened EngineTheory
  import opened EngineSafety
  import opened EngineCancels
  import CancelMap

  // ----- Building runs -----

  lemma {:induction false} RunSnoc(e: State, ops: seq<Op>, op: Op)
    requires Runs(e, ops) && Allowed(After(e, ops), op)
    ensures Runs(e, ops + [op]) && After(e, ops + [op]) == Step(After(e, ops), op)
    decreases |ops|
  {
    hide Step; hide Allowed;
    if ops == [] {
      assert ops + [op] == [op] && [op][1..] == [];
      assert Runs(Step(e, op), []);
    } else {
      assert (ops + [op])[1..] == ops[1..] + [op];
      RunSnoc(Step(e, ops[0]), ops[1..], op);
    }
  }

  function Ask(clientId: nat, price: int): (r: Request) {
    Request(clientId, Sell, Limit, price, 1)
  }

  function Bid(price: int, qty: int): (r: Request) {
    Request(1, Buy, Limit, price, qty)
  }

  const NO_ORDERS := Ladder(map[], None, 0)

  // Contestant 0 may sell one unit, there are no bids and a slot is free.
  ghost predicate CanAsk(e: State) {
    && EngineInv(e) && e.book.bids == NO_ORDERS && e.count > 0 && e.cfg.maxOrderSize >= 1
    && e.accounts[0].position - 1 >= -e.cfg.maxPosition && e.book.free != []
  }

  // With nothing on the other side an order is not filled.
  lemma NotFilled(e: State, r: Request)
    requires Inv(e.book) && LadderOf(e.book, Opposite(r.side)) == NO_ORDERS && r.qty > 0
    ensures Fills(e, r) == Matched(e.book, [], r.qty) && BookAfterFills(e, r) == e.book
  {
    MatchStuck(e.book, r.side, Some(r.price), r.qty, FILL_BUFFER);
  }

  // The state after contestant 0 asks for a price.
  ghost function Asked(e: State, clientId: nat, price: int): (s: State) {
    ProcessOrder(e, 0, Ask(clientId, price), true)
  }

  lemma AskRests(e: State, clientId: nat, price: int)
    requires CanAsk(e) && (price in e.book.asks.queues || e.book.asks.created < MAX_PRICE_LEVELS)
    ensures var e1, s := Asked(e, clientId, price), Top(e.book);
      && EngineInv(e1) && e1 == e.(book := e1.book, cancels := e.cancels[CancelMap.MakeKey(0, clientId) := s])
      && e1.book.bids == NO_ORDERS && e1.book.free == e.book.free[..|e.book.free| - 1] && s < |e.book.pool|
      && e1.book.pool == e.book.pool[s := Order(e.book.nextId, clientId, 0, price, 1, Sell)]
      && e1.book.asks.queues == Joined(e.book.asks, s, price).queues
      && e1.book.asks.best == Improve(Sell, e.book.asks.best, price)
      && e1.book.asks.created == e.book.asks.created + (if price in e.book.asks.queues then 0 else 1)
      && RestsIn(e, 0, Ask(clientId, price)) && Fills(e, Ask(clientId, price)).fills == []
      && Verdict(e, 0, Ask(clientId, price)) == Accepted
      && View(e1.book, Sell) == Insert(Sell, View(e.book, Sell), Resting(Key(s, e.book.nextId, 0, clientId), price, 1))
  {
    hide Inv; hide Match; hide AddOrder; hide Joined; hide Live; hide View; hide Insert;
    var r := Ask(clientId, price);
    NotFilled(e, r);
    AddShape(e.book, 0, clientId, Sell, price, 1);
    AddRefines(e.book, 0, clientId, Sell, price, 1);
    ProcessOrderInv(e, 0, r, true);
  }

  function PriceAt(first: int, rising: bool, i: nat): (p: int) {
    if rising then first + i else first
  }

  // The slot s holds contestant 0's first ask, still resting and found by its key.
  ghost predicate FirstAsk(e: State, s: nat, price: int) {
    && s < |e.book.pool| && e.book.pool[s].(exchangeId := 0) == Order(0, 1, 0, price, 1, Sell) && s !in e.book.free
    && price in e.book.asks.queues && e.book.asks.best == Some(price)
    && CancelMap.MakeKey(0, 1) in e.cancels && e.cancels[CancelMap.MakeKey(0, 1)] == s
  }

  // What n asks of contestant 0 made of e: n orders of one unit, at one price or
  // at rising prices.
  ghost predicate Standing(e: State, f: State, n: nat, first: int, rising: bool) {
    && EngineInv(f) && f == e.(book := f.book, cancels := f.cancels) && f.book.bids == NO_ORDERS
    && |f.book.free| == |e.book.free| - n
    && (forall p | p in f.book.asks.queues :: first <= p < first + n)
    && (rising ==> forall p | first <= p < first + n :: p in f.book.asks.queues)
    && f.book.asks.created <= n && (rising ==> f.book.asks.created == n)
    && (n > 0 ==> e.book.free != [] && FirstAsk(f, Top(e.book), first)
                  && (n == 1 || rising ==> f.book.asks.queues[first] == [Top(e.book)]))
  }

  ghost predicate OneUnitEach(l: seq<Resting<Key>>, n: nat, first: int, rising: bool) {
    |l| == n && forall i | 0 <= i < n :: l[i].price == PriceAt(first, rising, i) && l[i].qty == 1
  }

  // One ask more.
  lemma AskOnceMore(e: State, f: State, n: nat, first: int, rising: bool)
    requires Standing(e, f, n, first, rising) && CanAsk(f) && n < MAX_PRICE_LEVELS && e.book.free != []
    requires n == 0 ==> f == e && e.book.asks == NO_ORDERS
    ensures Standing(e, Asked(f, n + 1, PriceAt(first, rising, n)), n + 1, first, rising)
  {
    hide Inv; hide View; hide Insert; hide ProcessOrder; hide CancelMap.MakeKey; hide OwnersOk; hide FirstAsk;
    hide Improve;
    var price := PriceAt(first, rising, n);
    AskRests(f, n + 1, price);
    if n == 0 {
      AskFirst(f, first);
    } else {
      AskAfter(f, Top(e.book), n + 1, first, price);
    }
  }

  lemma AskFirst(e: State, price: int)
    requires CanAsk(e) && e.book.asks == NO_ORDERS
    ensures FirstAsk(Asked(e, 1, price), Top(e.book), price)
  {
    hide Inv; hide View; hide Insert; hide ProcessOrder; hide CancelMap.MakeKey; hide OwnersOk;
    AskRests(e, 1, price);
    TopTaken(e.book);
  }

  lemma AskAfter(e: State, s: nat, clientId: nat, first: int, price: int)
    requires CanAsk(e) && FirstAsk(e, s, first) && clientId != 1 && price >= first
    requires price in e.book.asks.queues || e.book.asks.created < MAX_PRICE_LEVELS
    ensures FirstAsk(Asked(e, clientId, price), s, first)
  {
    hide Inv; hide View; hide Insert; hide ProcessOrder; hide CancelMap.MakeKey; hide OwnersOk;
    AskRests(e, clientId, price);
    TopFree(e.book);
    KeysApart(1, clientId);
  }

  lemma TopFree(b: Book)
    requires b.free != []
    ensures Top(b) in b.free
  {
  }

  lemma TopTaken(b: Book)
    requires Inv(b) && b.free != []
    ensures Top(b) !in b.free[..|b.free| - 1]
  {
    hide LadderOk; hide Live;
  }

  lemma AskOnceMoreView(f: State, n: nat, first: int, rising: bool)
    requires CanAsk(f) && f.book.asks.created < MAX_PRICE_LEVELS
    requires OneUnitEach(View(f.book, Sell), n, first, rising)
    ensures OneUnitEach(View(Asked(f, n + 1, PriceAt(first, rising, n)).book, Sell), n + 1, first, rising)
  {
    hide Inv; hide View; hide Insert; hide ProcessOrder; hide CancelMap.MakeKey; hide OwnersOk;
    var price, l := PriceAt(first, rising, n), View(f.book, Sell);
    AskRests(f, n + 1, price);
    InvSorted(f.book, Sell);
    var o := Resting(Key(Top(f.book), f.book.nextId, 0, n + 1), price, 1);
    var k := InsertPosition(Sell, l, o);
    assert k < |l| ==> !Better(Sell, price, l[k].price);
    assert l[..k] == l && l[k..] == [];
  }

  function Asks(n: nat, first: int, rising: bool): (ops: seq<Op>) {
    if n == 0 then [] else Asks(n - 1, first, rising) + [Submit(0, Ask(n, PriceAt(first, rising, n - 1)), true)]
  }

  // Contestants 0 and 1 are registered and may trade, and there are more slots
  // than price levels.
  ghost predicate Roomy(e: State) {
    && IsInitial(e) && e.count >= 2 && e.cfg.maxOrderSize >= 1 && e.cfg.maxPosition >= 1
    && |e.book.pool| > MAX_PRICE_LEVELS
  }

  lemma {:induction false} AsksStand(e: State, n: nat, first: int, rising: bool)
    requires Roomy(e) && n <= MAX_PRICE_LEVELS
    ensures Runs(e, Asks(n, first, rising))
    ensures var f := After(e, Asks(n, first, rising));
      Standing(e, f, n, first, rising) && OneUnitEach(View(f.book, Sell), n, first, rising)
  {
    hide Inv; hide View; hide ProcessOrder; hide Runs; hide After; hide CancelMap.MakeKey; hide Live;
    if n == 0 {
      Started(e);
    } else {
      AsksStand(e, n - 1, first, rising);
      var ops := Asks(n - 1, first, rising);
      var f := After(e, ops);
      if n == 1 {
        Started(e);
      }
      AskOnceMore(e, f, n - 1, first, rising);
      AskOnceMoreView(f, n - 1, first, rising);
      RunSnoc(e, ops, Submit(0, Ask(n, PriceAt(first, rising, n - 1)), true));
    }
  }

  lemma Started(e: State)
    requires Roomy(e)
    ensures CanAsk(e) && e.book.asks == NO_ORDERS && Runs(e, []) && After(e, []) == e && View(e.book, Sell) == []
  {
    hide Inv;
    InitialEngine(e);
  }

  lemma KeysApart(a: nat, c: nat)
    requires a != c
    ensures CancelMap.MakeKey(0, a) != CancelMap.MakeKey(0, c)
  {
  }

  // ----- A wrong best price -----

  // Cancelling the only order at the best ask empties the cache.
  lemma BestCancelled(e: State, s: nat, price: int)
    requires EngineInv(e) && FirstAsk(e, s, price) && e.book.asks.queues[price] == [s]
    ensures Allowed(e, Cancel(0, 1, None)) && CancelSlot(e, 0, 1) == Some(s) && Live(e.book, s)
    ensures var f := ProcessCancel(e, 0, 1, None);
      && EngineInv(f) && f == e.(book := f.book, cancels := e.cancels - {CancelMap.MakeKey(0, 1)})
      && f.book.bids == e.book.bids && f.book.free == e.book.free + [s]
      && f.book.asks == e.book.asks.(queues := e.book.asks.queues - {price}, best := None)
  {
    hide Inv; hide CancelMap.MakeKey; hide OwnersOk;
    CancelShape(e.book, s);
    ProcessCancelInv(e, 0, 1, None);
  }

  function StaleRun(): (ops: seq<Op>) {
    Asks(2, 100, true) + [Cancel(0, 1, None)] + [Submit(0, Ask(3, 105), true)]
  }

  // Asks at 100 and 101, the better one cancelled, and one at 105: now 105 is
  // reported as the best ask although 101 rests.
  lemma StaleCacheReachable(e: State)
    requires Roomy(e)
    ensures Runs(e, StaleRun())
    ensures var asks := After(e, StaleRun()).book.asks;
      101 in asks.queues && FindBest(Sell, asks) == Some(105) && !CacheOk(Sell, asks)
  {
    hide ProcessOrder; hide ProcessCancel; hide EngineInv; hide CacheOk; hide FindBest; hide Runs; hide After;
    hide View; hide CancelMap.MakeKey;
    AsksStand(e, 2, 100, true);
    var e2 := After(e, Asks(2, 100, true));
    BestCancelled(e2, Top(e.book), 100);
    RunSnoc(e, Asks(2, 100, true), Cancel(0, 1, None));
    var e3 := After(e, Asks(2, 100, true) + [Cancel(0, 1, None)]);
    WorseAsk(e3);
    RunSnoc(e, Asks(2, 100, true) + [Cancel(0, 1, None)], Submit(0, Ask(3, 105), true));
  }

  lemma WorseAsk(e: State)
    requires CanAsk(e) && e.book.asks.best == None && 101 in e.book.asks.queues
      && e.book.asks.created < MAX_PRICE_LEVELS
    ensures var asks := Asked(e, 3, 105).book.asks;
      101 in asks.queues && FindBest(Sell, asks) == Some(105) && !CacheOk(Sell, asks)
  {
    hide Inv; hide ProcessOrder; hide BestOf; hide View; hide Insert; hide OwnersOk; hide CancelMap.MakeKey;
    AskRests(e, 3, 105);
    var asks := Asked(e, 3, 105).book.asks;
    assert 101 in asks.queues && Better(Sell, 101, 105);
  }

  // ----- A crossed book -----

  // Sixty-five asks of one unit at 100 and a buy of 66 there: 64 units are
  // filled and the remaining bid at 100 faces the last ask.
  lemma CrossedReachable(e: State)
    requires Roomy(e) && e.cfg.maxOrderSize >= 66 && e.cfg.maxPosition >= 66
    ensures var ops := Asks(65, 100, false) + [Submit(1, Bid(100, 66), true)];
      Runs(e, ops) && !Uncrossed(After(e, ops).book)
  {
    hide ProcessOrder; hide EngineInv; hide Runs; hide After; hide View; hide CancelMap.MakeKey; hide Asks;
    hide FirstAsk;
    var ops, bid := Asks(65, 100, false), Bid(100, 66);
    AsksStand(e, 65, 100, false);
    var f := After(e, ops);
    OnlyAsks(f.book);
    AsksFresh(e, ops, 65, 100, false);
    OneUnitTotal(View(f.book, Sell)[..FILL_BUFFER]);
    assert CutShort(f, 1, bid);
    OrderUncrossed(f, 1, bid, true);
    RunSnoc(e, ops, Submit(1, bid, true));
  }

  lemma OnlyAsks(b: Book)
    requires b.bids == NO_ORDERS
    ensures View(b, Buy) == [] && Uncrossed(b)
  {
    FlatEmpty(Buy, b.bids.queues);
  }

  lemma {:induction false} OneUnitTotal(l: seq<Resting<Key>>)
    requires forall i | 0 <= i < |l| :: l[i].qty == 1
    ensures Total(l) == |l|
  {
    if l != [] {
      OneUnitTotal(l[1..]);
    }
  }

  lemma AsksFresh(e: State, ops: seq<Op>, n: nat, first: int, rising: bool)
    requires IsInitial(e) && ops == Asks(n, first, rising) && Runs(e, ops)
    ensures CachesOk(After(e, ops).book)
  {
    hide Runs; hide After; hide EngineInv; hide AllFresh; hide CachesOk; hide View;
    InitialEngine(e);
    AsksSettled(n, first, rising);
    RunFresh(e, ops);
    CacheSides(After(e, ops).book, Buy);
  }

  lemma {:induction false} AsksSettled(n: nat, first: int, rising: bool)
    ensures forall i | 0 <= i < |Asks(n, first, rising)| :: Asks(n, first, rising)[i].Submit?
    ensures Settled(Asks(n, first, rising))
  {
    if n > 0 {
      AsksSettled(n - 1, first, rising);
    }
  }

  // ----- Buying the best ask -----

  // The match of one unit against the only order at the best ask.
  lemma OneFill(b: Book, s: nat, price: int)
    requires Inv(b) && s < |b.pool| && b.pool[s].price == price && b.pool[s].remaining == 1
    requires b.asks.best == Some(price) && price in b.asks.queues && b.asks.queues[price] == [s]
    ensures Match(b, Buy, Some(price), 1, FILL_BUFFER) ==
      Matched(b.(pool := b.pool[s := b.pool[s].(remaining := 0)], free := b.free + [s],
                 asks := b.asks.(queues := b.asks.queues - {price}, best := None)), [Fill(s, price, 1)], 0)
  {
    hide Match; hide Inv; hide Walk; hide Scan;
    assert Queried(b, Sell) == b;
    var hit := Hit(b.pool, s, 1);
    WalkStep(b.pool, [s], 1, FILL_BUFFER);
    assert [s][1..] == [];
    WalkStop(hit, [], 0, FILL_BUFFER - 1);
    assert [s] + [] == [s];
    MatchStep(b, Buy, Some(price), 1, FILL_BUFFER);
    var m := TakeLevel(b, Sell, price, 1, FILL_BUFFER);
    assert m.fills == [Fill(s, price, 1)] && m.left == 0;
    MatchDone(m.book, Buy, Some(price), 0, FILL_BUFFER - 1);
  }

  // The slot s holds contestant 0's ask, alone at the best price.
  ghost predicate BestAsk(e: State, s: nat, price: int) {
    && s < |e.book.pool| && e.book.pool[s].price == price && e.book.pool[s].remaining == 1
    && e.book.pool[s].owner == 0 && e.book.pool[s].side == Sell
    && e.book.asks.best == Some(price) && price in e.book.asks.queues && e.book.asks.queues[price] == [s]
  }

  // Contestant c buys it.
  lemma BuyBest(e: State, c: nat, s: nat, price: int)
    requires EngineInv(e) && 0 < c < e.count && e.cfg.maxOrderSize >= 1
    requires e.accounts[c].position + 1 <= e.cfg.maxPosition && BestAsk(e, s, price) && e.book.bids == NO_ORDERS
    ensures var f := ProcessOrder(e, c, Bid(price, 1), true);
      && EngineInv(f) && f == e.(book := f.book, accounts := f.accounts) && f.book.bids == NO_ORDERS
      && f.book.pool == e.book.pool[s := e.book.pool[s].(remaining := 0)] && f.book.free == e.book.free + [s]
      && f.book.asks.queues == e.book.asks.queues - {price} && f.book.asks.created == e.book.asks.created
      && f.book.asks.best == Scan(Sell, f.book.asks)
      && |f.accounts| == |e.accounts| && f.accounts[0].position == e.accounts[0].position - 1
      && forall x | 0 < x < |e.accounts| && x != c :: f.accounts[x] == e.accounts[x]
  {
    hide Inv; hide Match; hide CancelMap.MakeKey; hide Live; hide BestOf;
    ProcessOrderInv(e, c, Bid(price, 1), true);
    OneFill(e.book, s, price);
    OneBooked(e.accounts, Fills(e, Bid(price, 1)).book.pool, c, s, price);
  }

  lemma OneBooked(accounts: seq<Account>, pool: seq<Order>, c: nat, s: nat, price: int)
    requires s < |pool| && 0 < c < |accounts| && pool[s].owner == 0 && pool[s].side == Sell
    ensures var a := BookFills(accounts, pool, c, Buy, [Fill(s, price, 1)]);
      && |a| == |accounts| && a[0].position == accounts[0].position - 1
      && forall x | 0 < x < |accounts| && x != c :: a[x] == accounts[x]
  {
    assert [Fill(s, price, 1)][1..] == [];
  }

  // ----- A position past its limit -----

  function PastRun(): (ops: seq<Op>) {
    Asks(2, 100, true) + [Submit(1, Bid(100, 1), true)] + [Submit(2, Bid(101, 1), true)]
  }

  // Two asks of contestant 0, one of them the best.
  lemma SecondAsk(e: State) returns (f: State, s: nat)
    requires Roomy(e)
    ensures Runs(e, Asks(2, 100, true)) && f == After(e, Asks(2, 100, true))
    ensures EngineInv(f) && f == e.(book := f.book, cancels := f.cancels) && f.book.bids == NO_ORDERS
    ensures BestAsk(f, Top(e.book), 100) && f.book.asks.queues.Keys == {100, 101} && f.book.asks.queues[101] == [s]
    ensures s < |f.book.pool| && s != Top(e.book) && f.book.pool[s].(exchangeId := 0) == Order(0, 2, 0, 101, 1, Sell)
  {
    hide Inv; hide ProcessOrder; hide Runs; hide After; hide View; hide CancelMap.MakeKey; hide Insert; hide OwnersOk;
    AsksStand(e, 1, 100, true);
    var e1 := After(e, Asks(1, 100, true));
    s := Top(e1.book);
    var q := e1.book.asks.queues;
    assert forall p | p in q.Keys :: p in q && p == 100;
    assert 100 in q && q.Keys == {100};
    TopFree(e1.book);
    AskRests(e1, 2, 101);
    RunSnoc(e, Asks(1, 100, true), Submit(0, Ask(2, 101), true));
    f := After(e, Asks(2, 100, true));
  }

  lemma OnlyBest(l: Ladder, p: int)
    requires l.queues.Keys == {p}
    ensures Scan(Sell, l) == Some(p)
  {
    hide BestOf;
    assert IsBest(Sell, l.queues.Keys, BestOf(Sell, l.queues.Keys));
  }

  // Orders are checked one by one: with a limit of 1 a contestant may rest two
  // asks, and when two others buy them its position is -2.
  lemma LimitPassed(e: State)
    requires Roomy(e) && e.count >= 3 && e.cfg.maxPosition == 1
    ensures Runs(e, PastRun()) && After(e, PastRun()).accounts != []
    ensures After(e, PastRun()).accounts[0].position == -2
  {
    hide Inv; hide ProcessOrder; hide Runs; hide After; hide View; hide CancelMap.MakeKey; hide Asks; hide Live;
    var f, s := SecondAsk(e);
    BuyBest(f, 1, Top(e.book), 100);
    RunSnoc(e, Asks(2, 100, true), Submit(1, Bid(100, 1), true));
    var g := After(e, Asks(2, 100, true) + [Submit(1, Bid(100, 1), true)]);
    assert g.book.asks.queues.Keys == {101};
    OnlyBest(g.book.asks, 101);
    BuyBest(g, 2, s, 101);
    RunSnoc(e, Asks(2, 100, true) + [Submit(1, Bid(100, 1), true)], Submit(2, Bid(101, 1), true));
  }

  // ----- Quantity in a free slot -----

  function LostRun(): (ops: seq<Op>) {
    Asks(MAX_PRICE_LEVELS, 1, true) + [Submit(1, Bid(1, 1), true)] + [Submit(0, Ask(5000, 5000), true)]
  }

  // An ask that finds no level leaves its record in the slot on top of the
  // free stack.
  lemma AskLost(e: State, clientId: nat, price: int)
    requires CanAsk(e) && NoLevel(e.book.asks, price)
    ensures var f := Asked(e, clientId, price);
      && f == e.(book := f.book) && f.book.free == e.book.free && Top(e.book) < |e.book.pool|
      && !Live(f.book, Top(e.book))
      && f.book.pool == e.book.pool[Top(e.book) := Order(e.book.nextId, clientId, 0, price, 1, Sell)]
  {
    hide Inv; hide Match; hide AddOrder; hide Live;
    NotFilled(e, Ask(clientId, price));
    AddShape(e.book, 0, clientId, Sell, price, 1);
    AddLive(e.book, 0, clientId, Sell, price, 1);
  }

  // Asks at 4096 prices, the best one bought, and one more ask at a new price:
  // the bought order's slot is free and holds a unit, and a cancel of the bought
  // order would take it for a resting order.
  lemma QuantityLost(e: State)
    requires Roomy(e) && e.cfg.maxPosition >= 2
    ensures Runs(e, LostRun())
    ensures var f := After(e, LostRun()); !Clean(f.book) && !Allowed(f, Cancel(0, 1, None))
  {
    hide ProcessOrder; hide Inv; hide OwnersOk; hide Runs; hide After; hide View; hide CancelMap.MakeKey; hide Asks;
    hide Live;
    var s, bid := Top(e.book), Submit(1, Bid(1, 1), true);
    var ops := Asks(MAX_PRICE_LEVELS, 1, true);
    AsksStand(e, MAX_PRICE_LEVELS, 1, true);
    var f := After(e, ops);
    BuyBest(f, 1, s, 1);
    RunSnoc(e, ops, bid);
    var g := After(e, ops + [bid]);
    AskLost(g, 5000, 5000);
    RunSnoc(e, ops + [bid], Submit(0, Ask(5000, 5000), true));
    var h := After(e, LostRun());
    assert h.book.free[|h.book.free| - 1] == s;
    assert CancelSlot(h, 0, 1) == Some(s);
  }

  // ----- A cancel of another order -----

  function WrongRun(): (ops: seq<Op>) {
    Asks(1, 100, true) + [Submit(1, Bid(100, 1), true)] + [Submit(0, Ask(2, 100), true)]
  }

  // Contestant 0's ask 1 is bought and ask 2 rests in its slot: a cancel of ask
  // 1 takes ask 2 off the book.
  lemma WrongOrderCancelled(e: State)
    requires Roomy(e) && e.cfg.maxPosition >= 2
    ensures Runs(e, WrongRun())
    ensures var f, s := After(e, WrongRun()), Top(e.book);
      && CancelSlot(f, 0, 1) == Some(s) && Live(f.book, s) && f.book.pool[s].clientId == 2
      && !Live(ProcessCancel(f, 0, 1, None).book, s)
  {
    hide ProcessOrder; hide Inv; hide OwnersOk; hide Runs; hide After; hide View; hide CancelMap.MakeKey; hide Asks;
    hide CancelOrder; hide Insert;
    var s, bid := Top(e.book), Submit(1, Bid(100, 1), true);
    AsksStand(e, 1, 100, true);
    var f := After(e, Asks(1, 100, true));
    BuyBest(f, 1, s, 100);
    RunSnoc(e, Asks(1, 100, true), bid);
    var g := After(e, Asks(1, 100, true) + [bid]);
    AskRests(g, 2, 100);
    RunSnoc(e, Asks(1, 100, true) + [bid], Submit(0, Ask(2, 100), true));
    KeysApart(1, 2);
    var h := After(e, WrongRun());
    CancelLive(h.book, s);
  }
}
