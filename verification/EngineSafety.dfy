/**
 When the engine's best-price caches are right, when its book can be crossed,
 and what a cancel removes.
 */
module EngineSafety {
  import opened SortedBook
  import opened LevelBook
  import opened BookTheory
  import opened BookRefinement
  import opened Engine
  import opened EngineTheory
  import CancelMap

  // ----- Caches -----

  lemma CacheSides(b: Book, side: Side)
    ensures CachesOk(b) <==> CacheOk(side, LadderOf(b, side)) && CacheOk(Opposite(side), LadderOf(b, Opposite(side)))
    ensures AllFresh(b) <==> Fresh(side, LadderOf(b, side)) && Fresh(Opposite(side), LadderOf(b, Opposite(side)))
    ensures AllFresh(b) ==> CachesOk(b)
  {
    hide Scan;
  }

  // A match without fills does no more than ask for the opposite best price.
  lemma NoFillsStuck(b: Book, aggressor: Side, limit: Option<int>, qty: int, max: nat)
    requires Inv(b) && qty > 0 && max > 0 && Match(b, aggressor, limit, qty, max).fills == []
    ensures Match(b, aggressor, limit, qty, max).book == Queried(b, Opposite(aggressor))
  {
    hide Match; hide Inv; hide TakeLevel; hide Queried; hide Conserved; hide FindBest;
    var side := Opposite(aggressor);
    var best := FindBest(side, LadderOf(b, side));
    if best.None? || !Crosses(aggressor, limit, best.value) {
      MatchStuck(b, aggressor, limit, qty, max);
    } else {
      var b1 := Queried(b, side);
      QueriedKept(b, side, qty);
      KeptInv(b, aggressor, Matched(b1, [], qty));
      TakeLevelKeeps(b1, side, best.value, qty, max);
      ConservedParts(b1, side, qty, max, TakeLevel(b1, side, best.value, qty, max));
      MatchStep(b, aggressor, limit, qty, max);
      assert false;
    }
  }

  // After the fills are reported, the opposite cache is right, and both are
  // fresh if there was a fill.
  lemma AfterFillsCaches(e: State, r: Request)
    requires Inv(e.book) && CachesOk(e.book) && r.qty > 0
    ensures var b := BookAfterFills(e, r);
      && CachesOk(b) && (Fills(e, r).fills != [] || AllFresh(e.book) ==> AllFresh(b))
      && (Fills(e, r).fills == [] ==> LadderOf(b, r.side) == LadderOf(e.book, r.side))
  {
    hide Inv; hide View; hide Match; hide Take; hide Named; hide Scan; hide Clean; hide SameRecords; hide Total;
    hide FillTotal;
    var side, m := r.side, Fills(e, r);
    CacheSides(e.book, side);
    MatchRefines(e.book, side, Some(r.price), r.qty, FILL_BUFFER);
    MatchKeeps(e.book, side, Some(r.price), r.qty, FILL_BUFFER);
    CacheSides(m.book, side);
    CacheSides(BookAfterFills(e, r), side);
    RefreshedKeeps(m.book);
    if m.fills == [] {
      NoFillsStuck(e.book, side, Some(r.price), r.qty, FILL_BUFFER);
      QueriedKeeps(e.book, Opposite(side));
    }
  }

  // The remainder of an unfilled order joins its own side while that side's
  // cache is empty, although a better price rests there.
  ghost predicate Misleads(e: State, cid: nat, r: Request) {
    && Verdict(e, cid, r) == Accepted && Fills(e, r).fills == [] && RestsIn(e, cid, r)
    && var l := LadderOf(e.book, r.side);
      l.best.None? && exists p | p in l.queues :: Better(r.side, p, r.price)
  }

  lemma NotRestingKeeps(e: State, cid: nat, r: Request)
    requires Inv(e.book) && Fills(e, r).left > 0 && !AddRemainder(e, cid, r).slot.Some?
    ensures AddRemainder(e, cid, r).book.bids == BookAfterFills(e, r).bids
    ensures AddRemainder(e, cid, r).book.asks == BookAfterFills(e, r).asks
  {
    hide Inv; hide View; hide Match; hide Fills; hide BookAfterFills; hide AddOrder;
    AfterFillsKeeps(e, r);
    var b := BookAfterFills(e, r);
    AddKeeps(b, cid, r.clientId, r.side, r.price, Fills(e, r).left);
    if b.free == [] {
      AddFull(b, cid, r.clientId, r.side, r.price, Fills(e, r).left);
    } else {
      AddShape(b, cid, r.clientId, r.side, r.price, Fills(e, r).left);
    }
  }

  lemma RestingCaches(e: State, cid: nat, r: Request)
    requires Inv(e.book) && CachesOk(e.book) && r.qty > 0 && RestsIn(e, cid, r) && Verdict(e, cid, r) == Accepted
    ensures var b := AddRemainder(e, cid, r).book;
      && (CachesOk(b) <==> !Misleads(e, cid, r))
      && (AllFresh(e.book) ==> AllFresh(b))
  {
    hide Inv; hide View; hide Match; hide Fills; hide BookAfterFills; hide AddOrder; hide Scan;
    AfterFillsKeeps(e, r);
    AfterFillsCaches(e, r);
    var side, b, qty := r.side, BookAfterFills(e, r), Fills(e, r).left;
    CacheSides(b, side);
    AddKeeps(b, cid, r.clientId, side, r.price, qty);
    AddCache(b, cid, r.clientId, side, r.price, qty);
    CacheSides(AddRemainder(e, cid, r).book, side);
    if Fills(e, r).fills != [] {
      FreshBest(b, side);
    }
  }

  // A fresh empty cache means an empty side.
  lemma FreshBest(b: Book, side: Side)
    requires Fresh(side, LadderOf(b, side))
    ensures LadderOf(b, side).best.Some? || forall p :: p !in LadderOf(b, side).queues
  {
  }

  // From right caches, an order leaves them right except in exactly one case;
  // from fresh caches it leaves them fresh.
  lemma OrderCaches(e: State, cid: nat, r: Request, placed: bool)
    requires EngineInv(e) && CachesOk(e.book)
    ensures var b := ProcessOrder(e, cid, r, placed).book;
      && (CachesOk(b) <==> !Misleads(e, cid, r))
      && (AllFresh(e.book) ==> AllFresh(b) && !Misleads(e, cid, r))
  {
    hide Inv; hide View; hide Match; hide Fills; hide BookAfterFills; hide AddOrder; hide BookFills; hide CacheOk;
    hide Fresh;
    if Verdict(e, cid, r) == Accepted {
      AfterFillsCaches(e, r);
      if Rests(r, Fills(e, r).left) {
        if AddRemainder(e, cid, r).slot.Some? {
          RestingCaches(e, cid, r);
          CacheSides(AddRemainder(e, cid, r).book, Buy);
        } else {
          NotRestingKeeps(e, cid, r);
        }
      }
    }
  }

  // An order joining an empty cache while a better price rests on its side
  // leaves the book answering with the wrong best price.
  lemma AddMisleads(b: Book, owner: nat, clientId: nat, side: Side, price: int, qty: int, p: int)
    requires Inv(b) && qty > 0 && AddOrder(b, owner, clientId, side, price, qty).slot.Some?
    requires LadderOf(b, side).best.None? && p in LadderOf(b, side).queues && Better(side, p, price)
    ensures var l := LadderOf(AddOrder(b, owner, clientId, side, price, qty).book, side);
      FindBest(side, l) == Some(price) && FindBest(side, l) != Scan(side, l)
  {
    hide Inv; hide AddOrder; hide BestOf;
    AddCache(b, owner, clientId, side, price, qty);
    AddFullOrShape(b, owner, clientId, side, price, qty);
  }

  // The next order that crosses is then filled at the worse price first.
  lemma MisledFill(b: Book, aggressor: Side, limit: Option<int>, qty: int, max: nat, price: int)
    requires Inv(b) && qty > 0 && max > 0
    requires var side := Opposite(aggressor);
      FindBest(side, LadderOf(b, side)) == Some(price) && price in LadderOf(b, side).queues
    requires Crosses(aggressor, limit, price)
    ensures var f := Match(b, aggressor, limit, qty, max).fills; f != [] && f[0].price == price
  {
    hide Inv; hide View; hide Match; hide TakeLevel; hide Queried; hide FindBest; hide Walk;
    var side, b1 := Opposite(aggressor), Queried(b, Opposite(aggressor));
    QueriedKept(b, side, qty);
    KeptInv(b, aggressor, Matched(b1, [], qty));
    var m := TakeLevel(b1, side, price, qty, max);
    TakeLevelKeeps(b1, side, price, qty, max);
    LevelFillPrice(b1, side, price, qty, max);
    MatchStep(b, aggressor, limit, qty, max);
  }

  lemma LevelFillPrice(b: Book, side: Side, p: int, qty: int, max: nat)
    requires Inv(b) && p in LadderOf(b, side).queues
    ensures var f := TakeLevel(b, side, p, qty, max).fills; forall i | 0 <= i < |f| :: f[i].price == p
  {
    hide Walk; hide Partition;
    var q := LadderOf(b, side).queues[p];
    WalkFillsOk(b.pool, side, p, None, q, qty, max);
  }

  // ----- Runs -----

  // Every cancel is followed by a tick.
  ghost predicate Settled(ops: seq<Op>) {
    forall i | 0 <= i < |ops| :: ops[i].Cancel? ==> i + 1 < |ops| && ops[i + 1].TickOp?
  }

  lemma CancelCaches(e: State, cid: nat, clientId: nat, next: Option<nat>)
    requires EngineInv(e) && CachesOk(e.book) && Allowed(e, Cancel(cid, clientId, next))
    ensures CachesOk(ProcessCancel(e, cid, clientId, next).book)
  {
    hide Inv; hide Live; hide CancelOrder; hide CacheOk;
    var c := CancelSlot(e, cid, clientId);
    if c.Some? {
      CancelKeeps(e.book, c.value);
    }
  }

  lemma StepCaches(e: State, op: Op)
    requires EngineInv(e) && Allowed(e, op) && AllFresh(e.book)
    ensures CachesOk(Step(e, op).book) && (!op.Cancel? ==> AllFresh(Step(e, op).book))
  {
    hide Inv; hide View; hide ProcessOrder; hide ProcessCancel; hide Fresh; hide CacheOk; hide Refreshed;
    CacheSides(e.book, Buy);
    match op
    case Submit(cid, r, placed) =>
      OrderCaches(e, cid, r, placed);
      CacheSides(ProcessOrder(e, cid, r, placed).book, Buy);
    case Cancel(cid, clientId, next) => CancelCaches(e, cid, clientId, next);
    case TickOp =>
      RefreshedKeeps(e.book);
      CacheSides(Refreshed(e.book), Buy);
  }

  lemma TickFresh(e: State)
    requires EngineInv(e) && CachesOk(e.book)
    ensures AllFresh(Tick(e).book)
  {
    hide Inv; hide View; hide Fresh; hide CacheOk; hide Refreshed;
    RefreshedKeeps(e.book);
  }

  // In every run whose cancels are each followed by a tick, both caches equal
  // the linear scan at the end.
  lemma {:induction false} RunFresh(e: State, ops: seq<Op>)
    requires EngineInv(e) && AllFresh(e.book) && Runs(e, ops) && Settled(ops)
    ensures AllFresh(After(e, ops).book)
    decreases |ops|
  {
    hide EngineInv; hide Step; hide AllFresh; hide CachesOk;
    if ops != [] {
      var e1 := Step(e, ops[0]);
      StepInv(e, ops[0]);
      StepCaches(e, ops[0]);
      if ops[0].Cancel? {
        assert ops[1].TickOp? && ops[1..][0] == ops[1];
        TickAfter(e1);
        StepInv(e1, TickOp);
        assert ops[1..][1..] == ops[2..];
        SettledTail(ops, 2);
        RunFresh(Step(e1, TickOp), ops[2..]);
      } else {
        SettledTail(ops, 1);
        RunFresh(e1, ops[1..]);
      }
    }
  }

  lemma TickAfter(e: State)
    requires EngineInv(e) && CachesOk(e.book)
    ensures Allowed(e, TickOp) && AllFresh(Step(e, TickOp).book)
  {
    hide EngineInv; hide AllFresh; hide CachesOk; hide Tick;
    TickFresh(e);
  }

  lemma SettledTail(ops: seq<Op>, k: nat)
    requires Settled(ops) && k <= |ops|
    ensures Settled(ops[k..])
  {
    var t := ops[k..];
    forall i | 0 <= i < |t| && t[i].Cancel?
      ensures i + 1 < |t| && t[i + 1].TickOp?
    {
      assert ops[i + k].Cancel? && ops[i + k + 1] == t[i + 1];
    }
  }

  // ----- The book is not crossed -----

  ghost predicate Uncrossed(b: Book) {
    forall i, j | 0 <= i < |View(b, Buy)| && 0 <= j < |View(b, Sell)| :: View(b, Buy)[i].price < View(b, Sell)[j].price
  }

  // The same, seen from either side.
  ghost predicate Apart(side: Side, own: seq<Resting<Key>>, other: seq<Resting<Key>>) {
    forall i, j | 0 <= i < |own| && 0 <= j < |other| :: !Crosses(side, Some(own[i].price), other[j].price)
  }

  lemma UncrossedSides(b: Book, side: Side)
    ensures Uncrossed(b) <==> Apart(side, View(b, side), View(b, Opposite(side)))
  {
    hide View;
    if side == Buy {
      assert forall i, j | 0 <= i < |View(b, Buy)| && 0 <= j < |View(b, Sell)| ::
        View(b, Buy)[i].price < View(b, Sell)[j].price <==>
          !Crosses(side, Some(View(b, Buy)[i].price), View(b, Sell)[j].price);
    } else {
      assert forall i, j | 0 <= i < |View(b, Buy)| && 0 <= j < |View(b, Sell)| ::
        View(b, Buy)[i].price < View(b, Sell)[j].price <==>
          !Crosses(side, Some(View(b, Sell)[j].price), View(b, Buy)[i].price);
    }
  }

  // Every price of `l` is one of `was`.
  ghost predicate PricesFrom(l: seq<Resting<Key>>, was: seq<Resting<Key>>) {
    forall i | 0 <= i < |l| :: HasPrice(was, l[i].price)
  }

  ghost predicate HasPrice(l: seq<Resting<Key>>, p: int) {
    exists k | 0 <= k < |l| :: l[k].price == p
  }

  lemma ApartFrom(side: Side, own: seq<Resting<Key>>, other: seq<Resting<Key>>, own': seq<Resting<Key>>,
                  other': seq<Resting<Key>>)
    requires Apart(side, own, other) && PricesFrom(own', own) && PricesFrom(other', other)
    ensures Apart(side, own', other')
  {
    forall i, j | 0 <= i < |own'| && 0 <= j < |other'|
      ensures !Crosses(side, Some(own'[i].price), other'[j].price)
    {
      assert HasPrice(own, own'[i].price) && HasPrice(other, other'[j].price);
      var k :| 0 <= k < |own| && own[k].price == own'[i].price;
      var m :| 0 <= m < |other| && other[m].price == other'[j].price;
      assert !Crosses(side, Some(own[k].price), other[m].price);
    }
  }

  lemma PricesSelf(l: seq<Resting<Key>>)
    ensures PricesFrom(l, l)
  {
  }

  lemma SuffixPrices(l: seq<Resting<Key>>, t: Taken<Key>)
    requires RestIsSuffix(l, t)
    ensures PricesFrom(t.rest, l)
  {
    var n := |t.fills|;
    forall i | 0 <= i < |t.rest|
      ensures HasPrice(l, t.rest[i].price)
    {
      if t.rest == l[n..] {
        assert l[n + i].price == t.rest[i].price;
      } else if i == 0 {
        assert l[n - 1].price == t.rest[i].price;
      } else {
        assert l[n + i - 1].price == t.rest[i].price;
      }
    }
  }

  lemma RemovePrices(l: seq<Resting<Key>>, k: nat)
    requires k < |l|
    ensures PricesFrom(RemoveAt(l, k), l)
  {
    var r := RemoveAt(l, k);
    forall i | 0 <= i < |r|
      ensures HasPrice(l, r[i].price)
    {
      assert l[if i < k then i else i + 1] == r[i];
    }
  }

  // An order joining one side keeps the sides apart just if it crosses nothing.
  lemma ApartInsert(side: Side, own: seq<Resting<Key>>, other: seq<Resting<Key>>, o: Resting<Key>)
    requires Sorted(side, own) && Apart(side, own, other)
    ensures Apart(side, Insert(side, own, o), other) <==>
      forall j | 0 <= j < |other| :: !Crosses(side, Some(o.price), other[j].price)
  {
    hide Insert; hide Crosses;
    var k := InsertPosition(side, own, o);
    var r := Insert(side, own, o);
    assert forall i | 0 <= i < |r| :: r[i] == if i < k then own[i] else if i == k then o else own[i - 1];
    assert r[k] == o;
  }

  // What stays on the other side after an order's fills, on the sorted list.
  ghost function TakenBy(e: State, r: Request): (t: Taken<Key>) {
    Take(View(e.book, Opposite(r.side)), r.side, Some(r.price), r.qty, FILL_BUFFER)
  }

  lemma AfterFillsView(e: State, r: Request)
    requires Inv(e.book) && CachesOk(e.book)
    ensures var b := BookAfterFills(e, r);
      && Inv(b) && View(b, r.side) == View(e.book, r.side) && View(b, Opposite(r.side)) == TakenBy(e, r).rest
      && Fills(e, r).left == TakenBy(e, r).left && |Fills(e, r).fills| == |TakenBy(e, r).fills|
      && Named(e.book.pool, Fills(e, r).fills) == TakenBy(e, r).fills
  {
    hide Inv; hide View; hide Match; hide Take; hide Scan;
    CacheSides(e.book, r.side);
    MatchRefines(e.book, r.side, Some(r.price), r.qty, FILL_BUFFER);
    AfterFillsKeeps(e, r);
    NamedShape(e.book.pool, Fills(e, r).fills);
  }

  lemma AfterFillsUncrossed(e: State, r: Request)
    requires Inv(e.book) && CachesOk(e.book) && Uncrossed(e.book)
    ensures Uncrossed(BookAfterFills(e, r))
  {
    hide Inv; hide View; hide BookAfterFills; hide Fills; hide Take; hide CachesOk; hide Uncrossed; hide Apart;
    hide PricesFrom;
    var side, b := r.side, BookAfterFills(e, r);
    AfterFillsView(e, r);
    UncrossedSides(e.book, side);
    UncrossedSides(b, side);
    InvSorted(e.book, Opposite(side));
    TakeLeavesSuffix(View(e.book, Opposite(side)), side, Some(r.price), r.qty, FILL_BUFFER);
    SuffixPrices(View(e.book, Opposite(side)), TakenBy(e, r));
    PricesSelf(View(e.book, side));
    ApartFrom(side, View(e.book, side), View(e.book, Opposite(side)), View(b, side), View(b, Opposite(side)));
  }

  // A limit order larger than the 64 best orders of the other side together,
  // with the next one crossing it too, at a price that has or can get a level.
  ghost predicate CutShort(e: State, cid: nat, r: Request) {
    var l := View(e.book, Opposite(r.side));
    && Verdict(e, cid, r) == Accepted && r.orderType == Limit
    && |l| > FILL_BUFFER && Total(l[..FILL_BUFFER]) < r.qty && Crosses(r.side, Some(r.price), l[FILL_BUFFER].price)
    && !NoLevel(LadderOf(e.book, r.side), r.price)
  }

  lemma RestUncrossed(e: State, cid: nat, r: Request)
    requires Inv(e.book) && CachesOk(e.book) && Uncrossed(e.book) && Fills(e, r).left > 0
    ensures var a := AddRemainder(e, cid, r);
      Uncrossed(a.book) <==> a.slot.None? || !AnyCrosses(TakenBy(e, r).rest, r.side, Some(r.price))
  {
    hide Inv; hide View; hide BookAfterFills; hide Fills; hide Take; hide CachesOk; hide Uncrossed; hide Apart;
    hide AddOrder; hide Insert; hide Crosses;
    var side, b, a := r.side, BookAfterFills(e, r), AddRemainder(e, cid, r);
    AfterFillsView(e, r);
    AfterFillsUncrossed(e, r);
    AddRefines(b, cid, r.clientId, side, r.price, Fills(e, r).left);
    UncrossedSides(b, side);
    UncrossedSides(a.book, side);
    if a.slot.Some? {
      InvSorted(b, side);
      ApartInsert(side, View(b, side), View(b, Opposite(side)),
                  Resting(Key(a.slot.value, b.nextId, cid, r.clientId), r.price, Fills(e, r).left));
    }
  }

  // The list the order meets, cut at the fill buffer.
  lemma CutList(e: State, r: Request)
    requires Inv(e.book)
    ensures var l := View(e.book, Opposite(r.side));
      TakenBy(e, r).left > 0 && AnyCrosses(TakenBy(e, r).rest, r.side, Some(r.price)) <==>
      |l| > FILL_BUFFER && Total(l[..FILL_BUFFER]) < r.qty && Crosses(r.side, Some(r.price), l[FILL_BUFFER].price)
  {
    hide Inv; hide View; hide Take; hide Total; hide Crosses; hide AnyCrosses;
    InvSorted(e.book, Opposite(r.side));
    TakeCut(View(e.book, Opposite(r.side)), r.side, Some(r.price), r.qty, FILL_BUFFER);
  }

  // If something still crosses, there were fills.
  lemma CutFilled(e: State, r: Request)
    requires Inv(e.book) && TakenBy(e, r).left > 0 && AnyCrosses(TakenBy(e, r).rest, r.side, Some(r.price))
    ensures TakenBy(e, r).fills != []
  {
    hide Inv; hide View; hide Take; hide Crosses; hide AnyCrosses;
    var l := View(e.book, Opposite(r.side));
    InvSorted(e.book, Opposite(r.side));
    if r.qty <= 0 || l == [] || !Crosses(r.side, Some(r.price), l[0].price) {
      TakeNone(l, r.side, Some(r.price), r.qty, FILL_BUFFER);
      NoneCrosses(l, r.side, Some(r.price));
    } else {
      TakeStep(l, r.side, Some(r.price), r.qty, FILL_BUFFER);
    }
  }

  lemma NoneCrosses(l: seq<Resting<Key>>, side: Side, limit: Option<int>)
    requires Sorted(Opposite(side), l) && (l == [] || !Crosses(side, limit, l[0].price))
    ensures !AnyCrosses(l, side, limit)
  {
    hide Crosses; hide Sorted;
    if l != [] {
      HeadBlocks(l, side, limit);
    }
  }

  // The remainder of an order that was cut short finds the slot of a filled
  // maker, so it rests unless its price has no level.
  lemma CutRests(e: State, cid: nat, r: Request)
    requires Inv(e.book) && CachesOk(e.book) && Fills(e, r).left > 0
    requires AnyCrosses(TakenBy(e, r).rest, r.side, Some(r.price))
    ensures AddRemainder(e, cid, r).slot.Some? <==> !NoLevel(LadderOf(e.book, r.side), r.price)
  {
    hide Inv; hide View; hide Match; hide Take; hide AddOrder; hide AnyCrosses; hide CachesOk; hide SameRecords;
    AfterFillsView(e, r);
    CutFilled(e, r);
    MatchFrees(e.book, r.side, Some(r.price), r.qty, FILL_BUFFER);
    AfterFillsKeeps(e, r);
    RefreshedFree(Fills(e, r).book);
    AddKeeps(BookAfterFills(e, r), cid, r.clientId, r.side, r.price, Fills(e, r).left);
  }

  lemma RefreshedFree(b: Book)
    ensures Refreshed(b).free == b.free
  {
  }

  // An order leaves an uncrossed book uncrossed if and only if it is not cut
  // short by the fill buffer.
  lemma OrderUncrossed(e: State, cid: nat, r: Request, placed: bool)
    requires EngineInv(e) && CachesOk(e.book) && Uncrossed(e.book)
    ensures Uncrossed(ProcessOrder(e, cid, r, placed).book) <==> !CutShort(e, cid, r)
  {
    hide Inv; hide View; hide BookAfterFills; hide Fills; hide Take; hide CachesOk; hide Uncrossed; hide AddOrder;
    hide BookFills; hide AnyCrosses; hide Crosses; hide NoLevel; hide Total; hide OwnersOk;
    if Verdict(e, cid, r) == Accepted {
      AfterFillsView(e, r);
      AfterFillsUncrossed(e, r);
      CutList(e, r);
      if Rests(r, Fills(e, r).left) {
        RestUncrossed(e, cid, r);
        if AnyCrosses(TakenBy(e, r).rest, r.side, Some(r.price)) {
          CutRests(e, cid, r);
        }
      }
    }
  }

  // The 64 best orders together have at least 64 units, so no order of at most
  // 64 units is cut short.
  lemma SmallNotCut(e: State, cid: nat, r: Request)
    requires EngineInv(e) && e.cfg.maxOrderSize <= FILL_BUFFER
    ensures !CutShort(e, cid, r)
  {
    hide Inv; hide View; hide Crosses; hide Total; hide NoLevel;
    var l := View(e.book, Opposite(r.side));
    InvSorted(e.book, Opposite(r.side));
    if |l| > FILL_BUFFER {
      TotalAtLeast(l[..FILL_BUFFER]);
    }
  }

  lemma CancelUncrossed(e: State, cid: nat, clientId: nat, next: Option<nat>)
    requires EngineInv(e) && Allowed(e, Cancel(cid, clientId, next)) && Uncrossed(e.book)
    ensures Uncrossed(ProcessCancel(e, cid, clientId, next).book)
  {
    hide Inv; hide Live; hide CancelOrder; hide View; hide Uncrossed; hide Apart; hide PricesFrom;
    var c := CancelSlot(e, cid, clientId);
    if c.Some? {
      var k := CancelRefines(e.book, c.value);
      var side, b := e.book.pool[c.value].side, CancelOrder(e.book, c.value).0;
      UncrossedSides(e.book, side);
      UncrossedSides(b, side);
      RemovePrices(View(e.book, side), k);
      PricesSelf(View(e.book, Opposite(side)));
      ApartFrom(side, View(e.book, side), View(e.book, Opposite(side)), View(b, side), View(b, Opposite(side)));
    }
  }

  lemma StepUncrossed(e: State, op: Op)
    requires EngineInv(e) && Allowed(e, op) && Uncrossed(e.book)
    requires CachesOk(e.book) && e.cfg.maxOrderSize <= FILL_BUFFER
    ensures Uncrossed(Step(e, op).book) && Step(e, op).cfg == e.cfg
  {
    hide Inv; hide View; hide BookAfterFills; hide Fills; hide AddOrder; hide BookFills; hide CancelOrder;
    hide CachesOk; hide Refreshed; hide Live;
    match op
    case Submit(cid, r, placed) =>
      OrderUncrossed(e, cid, r, placed);
      SmallNotCut(e, cid, r);
    case Cancel(cid, clientId, next) => CancelUncrossed(e, cid, clientId, next);
    case TickOp => RefreshedKeeps(e.book);
  }

  // The book is never crossed in a run whose orders fit the fill buffer and
  // whose cancels are each followed by a tick.
  lemma {:induction false} RunUncrossed(e: State, ops: seq<Op>)
    requires EngineInv(e) && AllFresh(e.book) && Runs(e, ops) && Settled(ops)
    requires Uncrossed(e.book) && e.cfg.maxOrderSize <= FILL_BUFFER
    ensures Uncrossed(After(e, ops).book)
    decreases |ops|
  {
    hide EngineInv; hide Step; hide AllFresh; hide CachesOk; hide Uncrossed;
    if ops != [] {
      var e1 := Step(e, ops[0]);
      CacheSides(e.book, Buy);
      StepInv(e, ops[0]);
      StepCaches(e, ops[0]);
      StepUncrossed(e, ops[0]);
      if ops[0].Cancel? {
        assert ops[1].TickOp? && ops[1..][0] == ops[1];
        TickAfter(e1);
        StepInv(e1, TickOp);
        StepUncrossed(e1, TickOp);
        assert ops[1..][1..] == ops[2..];
        SettledTail(ops, 2);
        RunUncrossed(Step(e1, TickOp), ops[2..]);
      } else {
        SettledTail(ops, 1);
        RunUncrossed(e1, ops[1..]);
      }
    }
  }

  // From the start, in every run that never needs a level when none is left and
  // has a tick after every cancel: caches equal to the scan and, with orders of
  // at most 64 units, no crossed book.
  lemma FromTheStart(e: State, ops: seq<Op>)
    requires IsInitial(e) && NeverShort(e, ops) && Settled(ops)
    ensures Runs(e, ops) && AllFresh(After(e, ops).book)
    ensures e.cfg.maxOrderSize <= FILL_BUFFER ==> Uncrossed(After(e, ops).book)
  {
    hide EngineInv; hide AllFresh; hide IsInitial; hide Runs; hide After; hide View; hide Settled; hide NeverShort;
    hide Clean;
    RunsClean(e, ops);
    InitialEngine(e);
    RunFresh(e, ops);
    if e.cfg.maxOrderSize <= FILL_BUFFER {
      RunUncrossed(e, ops);
    }
  }
}
