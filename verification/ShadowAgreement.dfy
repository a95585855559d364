/**
 The reference book behind the score against the plain book: when the fills it
 expects of a contestant are the right ones, and a stream on which they are not.
 */
module ShadowAgreement {
  import opened SortedBook
  import opened LevelBook
  import opened BookTheory
  import opened BookRefinement
  import opened SimpleBook
  import opened BookAgreement
  import BookSnapshots
  import EngineCases
  import EngineSafety
  import Shadow

  datatype Incoming = Incoming(id: nat, side: Side, orderType: OrderType, price: int, qty: int)

  // ----- Both books on one order -----

  ghost function ShadowMatch(b: Book, o: Incoming): (m: Matched) {
    Match(b, o.side, Some(Shadow.MatchPrice(o.orderType, o.side, o.price)), o.qty, FILL_BUFFER)
  }

  ghost predicate ShadowRests(b: Book, o: Incoming) {
    ShadowMatch(b, o).left > 0 && o.orderType == Limit
  }

  ghost function ShadowAdd(b: Book, o: Incoming): (a: Added) {
    AddOrder(ShadowMatch(b, o).book, 0, o.id, o.side, o.price, ShadowMatch(b, o).left)
  }

  ghost function ShadowBook(b: Book, o: Incoming): (r: Book) {
    if ShadowRests(b, o) then ShadowAdd(b, o).book else ShadowMatch(b, o).book
  }

  function PlainOf(p: Plain, o: Incoming): (r: Outcome) {
    PlainOrder(p, o.id, o.side, o.orderType, o.price, o.qty)
  }

  function ExpectedBy(o: Incoming, fills: seq<Fill<nat>>): (r: seq<Shadow.Expected>) {
    Shadow.ExpectedOf(o.id, o.side, fills)
  }

  // ----- The fills of one order -----

  // A market order to sell is matched at a limit of 0 and one to buy at the
  // largest 64-bit price: these reach every order it could meet.
  ghost predicate Reaches(p: Plain, o: Incoming) {
    o.orderType == Market ==>
      && (o.side == Sell ==> forall i | 0 <= i < |p.bids| :: p.bids[i].price >= 0)
      && (o.side == Buy ==> forall i | 0 <= i < |p.asks| :: p.asks[i].price <= 0x7FFF_FFFF_FFFF_FFFF)
  }

  lemma ReachesAll(p: Plain, o: Incoming)
    requires Reaches(p, o) && o.orderType == Market
    ensures var l := ListOf(p, Opposite(o.side));
      forall i | 0 <= i < |l| :: Crosses(o.side, Some(Shadow.MatchPrice(o.orderType, o.side, o.price)), l[i].price)
  {
  }

  lemma {:induction false} TakeReached<T>(l: seq<Resting<T>>, side: Side, limit: int, qty: int, max: nat)
    requires forall i | 0 <= i < |l| :: Crosses(side, Some(limit), l[i].price)
    ensures Take(l, side, Some(limit), qty, max) == Take(l, side, None, qty, max)
    decreases max
  {
    hide Take; hide Crosses;
    if qty > 0 && max > 0 && l != [] {
      NoLimit(side, l[0].price);
      TakeStep(l, side, Some(limit), qty, max);
      TakeStep(l, side, None, qty, max);
      var f := Min(qty, l[0].qty);
      TakeReached(DropFilled(l, f), side, limit, qty - f, max - 1);
    } else {
      TakeNone(l, side, Some(limit), qty, max);
      TakeNone(l, side, None, qty, max);
    }
  }

  lemma NoLimit(side: Side, price: int)
    ensures Crosses(side, None, price)
  {
  }

  // What the plain book makes of the order, cut at the fill buffer.
  function Cut(p: Plain, o: Incoming): (t: Taken<nat>) {
    Take(ListOf(p, Opposite(o.side)), o.side, LimitOf(o.orderType, o.price), o.qty, FILL_BUFFER)
  }

  lemma MatchIsCut(b: Book, p: Plain, o: Incoming)
    requires Ready(b, p) && Reaches(p, o)
    ensures var m, t := ShadowMatch(b, o), Cut(p, o);
      && Inv(m.book) && CachesOk(m.book) && NamedFills(b, m.fills) == t.fills && m.left == t.left
      && |m.fills| <= FILL_BUFFER
      && LadderOf(m.book, o.side) == LadderOf(b, o.side) && View(m.book, o.side) == View(b, o.side)
      && Rename(View(m.book, Opposite(o.side)), ClientOf) == t.rest
  {
    hide Inv; hide View; hide Match; hide Take; hide Rename; hide Named; hide RenameFills; hide Scan; hide Clean;
    hide SameRecords; hide Total; hide FillTotal; hide Crosses;
    var side, limit := o.side, Shadow.MatchPrice(o.orderType, o.side, o.price);
    var l, other := View(b, Opposite(side)), ListOf(p, Opposite(side));
    AgreesSides(b, p, side);
    MatchKeeps(b, side, Some(limit), o.qty, FILL_BUFFER);
    MatchRefines(b, side, Some(limit), o.qty, FILL_BUFFER);
    TakeRename(l, ClientOf, side, Some(limit), o.qty, FILL_BUFFER);
    if o.orderType == Market {
      ReachesAll(p, o);
      TakeReached(other, side, limit, o.qty, FILL_BUFFER);
    }
  }

  // The same prices and quantities, whoever the makers are.
  lemma NamedExpected(b: Book, o: Incoming, fills: seq<Fill<nat>>)
    ensures ExpectedBy(o, NamedFills(b, fills)) == ExpectedBy(o, fills)
  {
    NamedShape(b.pool, fills);
  }

  // The fills expected of an order are those of the plain book exactly if there
  // are at most 64 of them.
  lemma FillsExact(b: Book, p: Plain, o: Incoming)
    requires Ready(b, p) && Reaches(p, o)
    ensures ExpectedBy(o, ShadowMatch(b, o).fills) == ExpectedBy(o, PlainOf(p, o).fills) <==>
      |PlainOf(p, o).fills| <= FILL_BUFFER
  {
    hide Inv; hide View; hide Match; hide Take; hide Rename; hide NamedFills; hide CachesOk; hide Reaches;
    var other := ListOf(p, Opposite(o.side));
    MatchIsCut(b, p, o);
    NamedExpected(b, o, ShadowMatch(b, o).fills);
    if |PlainOf(p, o).fills| <= FILL_BUFFER {
      PlainPositive(b, p, Opposite(o.side));
      TakeCapEnough(other, o.side, LimitOf(o.orderType, o.price), o.qty, |other|, FILL_BUFFER);
    } else {
      assert |ExpectedBy(o, PlainOf(p, o).fills)| == |PlainOf(p, o).fills|;
      assert |ExpectedBy(o, ShadowMatch(b, o).fills)| == |ShadowMatch(b, o).fills|;
    }
  }

  lemma PlainPositive(b: Book, p: Plain, side: Side)
    requires Ready(b, p)
    ensures Positive(ListOf(p, side)) && Sorted(side, ListOf(p, side))
  {
    hide Inv; hide View; hide CachesOk;
    InvSorted(b, side);
    AgreesSides(b, p, side);
  }

  // ----- The books after one order -----

  // There are slots, levels and list places for the remainder.
  ghost predicate Places(b: Book, p: Plain, o: Incoming) {
    ShadowMatch(b, o).left > 0 && o.orderType != Market ==>
      ShadowAdd(b, o).slot.Some? && |ListOf(p, o.side)| < MAX_ORDERS
  }

  ghost predicate FitsShadow(b: Book, p: Plain, o: Incoming) {
    Reaches(p, o) && |PlainOf(p, o).fills| <= FILL_BUFFER && Places(b, p, o)
  }

  // The remainder of a limit order leaves its side's cache right, and an
  // immediate order, which only the plain book would rest, has no remainder.
  ghost predicate StaysRight(b: Book, o: Incoming) {
    ShadowMatch(b, o).left > 0 ==>
      o.orderType != Ioc && (o.orderType == Limit ==> JoinsWell(o.side, LadderOf(b, o.side), o.price))
  }

  lemma CutIsAll(b: Book, p: Plain, o: Incoming)
    requires Ready(b, p) && FitsShadow(b, p, o)
    ensures Cut(p, o) == Take(ListOf(p, Opposite(o.side)), o.side, LimitOf(o.orderType, o.price), o.qty,
      |ListOf(p, Opposite(o.side))|)
  {
    hide Take; hide Ready; hide Places; hide Reaches;
    PlainPositive(b, p, Opposite(o.side));
    var other := ListOf(p, Opposite(o.side));
    TakeCapEnough(other, o.side, LimitOf(o.orderType, o.price), o.qty, |other|, FILL_BUFFER);
  }

  lemma RestExact(b: Book, p: Plain, o: Incoming)
    requires Ready(b, p) && FitsShadow(b, p, o) && ShadowRests(b, o)
    ensures Inv(ShadowBook(b, o)) && Agrees(ShadowBook(b, o), PlainOf(p, o).book)
    ensures CachesOk(ShadowBook(b, o)) <==> JoinsWell(o.side, LadderOf(b, o.side), o.price)
  {
    hide Inv; hide View; hide Take; hide Rename; hide NamedFills; hide AddOrder; hide Insert; hide Scan;
    hide ShadowMatch; hide Reaches;
    var m, a := ShadowMatch(b, o), ShadowAdd(b, o);
    MatchIsCut(b, p, o);
    CutIsAll(b, p, o);
    AgreesSides(b, p, o.side);
    AddKeeps(m.book, 0, o.id, o.side, o.price, m.left);
    AddCache(m.book, 0, o.id, o.side, o.price, m.left);
    AddRefines(m.book, 0, o.id, o.side, o.price, m.left);
    InsertRename(o.side, View(b, o.side), Resting(Key(a.slot.value, m.book.nextId, 0, o.id), o.price, m.left),
      ClientOf);
    AgreesSides(a.book, PlainOf(p, o).book, o.side);
  }

  lemma GoneExact(b: Book, p: Plain, o: Incoming)
    requires Ready(b, p) && FitsShadow(b, p, o) && !ShadowRests(b, o)
    ensures Inv(ShadowBook(b, o)) && CachesOk(ShadowBook(b, o))
    ensures Agrees(ShadowBook(b, o), PlainOf(p, o).book) <==> !(ShadowMatch(b, o).left > 0 && o.orderType == Ioc)
  {
    hide Inv; hide View; hide Take; hide Rename; hide NamedFills; hide AddOrder; hide CachesOk; hide ShadowMatch;
    hide Reaches;
    var m := ShadowMatch(b, o);
    MatchIsCut(b, p, o);
    CutIsAll(b, p, o);
    AgreesSides(b, p, o.side);
    AgreesSides(m.book, PlainOf(p, o).book, o.side);
    if m.left > 0 && o.orderType == Ioc {
      PlainPositive(b, p, o.side);
      Longer(o.side, ListOf(p, o.side), Resting(o.id, o.price, m.left));
    }
  }

  lemma Longer(side: Side, l: seq<Resting<nat>>, o: Resting<nat>)
    requires Sorted(side, l)
    ensures |Insert(side, l, o)| == |l| + 1
  {
    hide Insert;
    var k := InsertPosition(side, l, o);
  }

  // Within the limits, the books agree and the caches are right after an order
  // exactly if its remainder leaves them so.
  lemma OrderExact(b: Book, p: Plain, o: Incoming)
    requires Ready(b, p) && FitsShadow(b, p, o)
    ensures Ready(ShadowBook(b, o), PlainOf(p, o).book) <==> StaysRight(b, o)
  {
    hide Inv; hide Agrees; hide CachesOk; hide ShadowMatch; hide FitsShadow; hide ShadowBook; hide JoinsWell;
    if ShadowRests(b, o) {
      RestExact(b, p, o);
    } else {
      GoneExact(b, p, o);
    }
  }

  // ----- The next order after a wrong cache -----

  // A resting price is on the sorted list.
  lemma PriceListed(b: Book, side: Side, x: int) returns (k: nat)
    requires Inv(b) && x in LadderOf(b, side).queues
    ensures k < |View(b, side)| && View(b, side)[k].price == x
  {
    hide View; hide Partition;
    QueueLive(b, side, x);
    var s := LadderOf(b, side).queues[x][0];
    k := CancelRefines(b, s);
  }

  // Otherwise the next order against that remainder is expected to trade with
  // it, although the plain book fills it at a better price.
  lemma MisledNext(b: Book, p: Plain, o: Incoming, next: Incoming)
    requires Ready(b, p) && FitsShadow(b, p, o) && ShadowRests(b, o) && !StaysRight(b, o)
    requires next == Incoming(next.id, Opposite(o.side), Limit, o.price, next.qty) && next.qty > 0
    ensures var f, g := ShadowMatch(ShadowBook(b, o), next).fills, PlainOf(PlainOf(p, o).book, next).fills;
      f != [] && g != [] && f[0].price == o.price && Better(o.side, g[0].price, o.price)
  {
    hide Inv; hide Agrees; hide CachesOk; hide View; hide AddOrder; hide Match; hide Insert; hide Take; hide Reaches;
    hide Scan;
    RestExact(b, p, o);
    var m, b1 := ShadowMatch(b, o), ShadowBook(b, o);
    MatchIsCut(b, p, o);
    var x :| x in LadderOf(b, o.side).queues && Better(o.side, x, o.price);
    EngineSafety.AddMisleads(m.book, 0, o.id, o.side, o.price, m.left, x);
    AddFullOrShape(m.book, 0, o.id, o.side, o.price, m.left);
    EngineSafety.MisledFill(b1, next.side, Some(o.price), next.qty, FILL_BUFFER, o.price);
    PlainFirst(b1, PlainOf(p, o).book, next, x);
  }

  // The plain book fills an order first at the best price resting.
  lemma PlainFirst(b: Book, p: Plain, o: Incoming, x: int)
    requires Inv(b) && Agrees(b, p) && x in LadderOf(b, Opposite(o.side)).queues
    requires o.orderType == Limit && o.qty > 0 && Better(Opposite(o.side), x, o.price)
    ensures var g := PlainOf(p, o).fills; g != [] && Better(Opposite(o.side), g[0].price, o.price)
  {
    hide Inv; hide View; hide Take; hide Insert;
    var l, view := ListOf(p, Opposite(o.side)), View(b, Opposite(o.side));
    var k := PriceListed(b, Opposite(o.side), x);
    InvSorted(b, Opposite(o.side));
    AgreesSides(b, p, o.side);
    assert l[k].price == x && (k == 0 || !Better(Opposite(o.side), view[k].price, view[0].price));
    TakeStep(l, o.side, Some(o.price), o.qty, |l|);
  }

  // ----- Streams -----

  // Orders as both see them, and fills as the contestant reports them.
  datatype Feed = Place(order: Incoming) | Tell(id: nat, price: int, qty: int)

  ghost function ShadowEvents(b: Book, feed: seq<Feed>): (evs: seq<Shadow.Event>)
    decreases |feed|
  {
    if feed == [] then []
    else
      match feed[0]
      case Place(o) =>
        [Shadow.Ordered(ExpectedBy(o, ShadowMatch(b, o).fills))] + ShadowEvents(ShadowBook(b, o), feed[1..])
      case Tell(id, price, qty) => [Shadow.Reported(id, price, qty)] + ShadowEvents(b, feed[1..])
  }

  // The same with the fills of the plain book.
  function PlainEvents(p: Plain, feed: seq<Feed>): (evs: seq<Shadow.Event>)
    decreases |feed|
  {
    if feed == [] then []
    else
      match feed[0]
      case Place(o) => [Shadow.Ordered(ExpectedBy(o, PlainOf(p, o).fills))] + PlainEvents(PlainOf(p, o).book, feed[1..])
      case Tell(id, price, qty) => [Shadow.Reported(id, price, qty)] + PlainEvents(p, feed[1..])
  }

  ghost predicate Follows(b: Book, p: Plain, feed: seq<Feed>)
    decreases |feed|
  {
    feed == [] ||
    match feed[0]
    case Place(o) => FitsShadow(b, p, o) && StaysRight(b, o) && Follows(ShadowBook(b, o), PlainOf(p, o).book, feed[1..])
    case Tell(id, price, qty) => Follows(b, p, feed[1..])
  }

  lemma {:induction false} EventsAgree(b: Book, p: Plain, feed: seq<Feed>)
    requires Ready(b, p) && Follows(b, p, feed)
    ensures ShadowEvents(b, feed) == PlainEvents(p, feed)
    decreases |feed|
  {
    hide Ready; hide StaysRight; hide ShadowBook; hide ShadowMatch; hide PlainOf; hide ExpectedBy; hide Places;
    hide Reaches;
    if feed != [] {
      match feed[0]
      case Place(o) =>
        FillsExact(b, p, o);
        OrderExact(b, p, o);
        EventsAgree(ShadowBook(b, o), PlainOf(p, o).book, feed[1..]);
      case Tell(id, price, qty) => EventsAgree(b, p, feed[1..]);
    }
  }

  lemma ShadowInv(b: Book, o: Incoming)
    requires Inv(b)
    ensures Inv(ShadowBook(b, o))
  {
    hide Inv; hide View; hide Match; hide Total; hide FillTotal; hide Clean; hide SameRecords; hide AddOrder;
    var m := ShadowMatch(b, o);
    MatchKeeps(b, o.side, Some(Shadow.MatchPrice(o.orderType, o.side, o.price)), o.qty, FILL_BUFFER);
    if ShadowRests(b, o) {
      AddKeeps(m.book, 0, o.id, o.side, o.price, m.left);
    }
  }

  // Expected fills are of at least one unit, on every stream.
  lemma {:induction false} EventsReal(b: Book, feed: seq<Feed>)
    requires Inv(b)
    ensures Shadow.Real(ShadowEvents(b, feed))
    decreases |feed|
  {
    hide Inv; hide ShadowBook; hide Match; hide Shadow.AllOpen;
    if feed != [] {
      match feed[0]
      case Place(o) =>
        Shadow.ExpectedReal(b, o.id, o.side, Shadow.MatchPrice(o.orderType, o.side, o.price), o.qty);
        ShadowInv(b, o);
        EventsReal(ShadowBook(b, o), feed[1..]);
      case Tell(id, price, qty) => EventsReal(b, feed[1..]);
    }
  }

  lemma InitialReady(b: Book)
    requires BookSnapshots.IsInitial(b)
    ensures Ready(b, Plain([], []))
  {
    hide Inv; hide Clean;
    BookSnapshots.InitialInv(b);
    FlatEmpty(Buy, b.bids.queues);
    FlatEmpty(Sell, b.asks.queues);
  }

  // On every stream whose orders fit and keep the caches right, the score is one
  // exactly if the contestant reported the plain book's fills of each order, in
  // order and none before it was due (or there were none to report).
  lemma RightContestant(b: Book, feed: seq<Feed>)
    requires BookSnapshots.IsInitial(b) && Follows(b, Plain([], []), feed)
    requires Shadow.FillCount(PlainEvents(Plain([], []), feed)) <= Shadow.SHADOW_MAX_FILLS
    ensures var right := PlainEvents(Plain([], []), feed);
      Shadow.Score(Shadow.Finalize(Shadow.Run(ShadowEvents(b, feed))).tallies) == 1.0 <==>
      Shadow.FillCount(right) == 0 || (Shadow.InOrder(right) && Shadow.Complete(right))
  {
    hide BookSnapshots.IsInitial; hide Follows; hide PlainEvents; hide ShadowEvents; hide Shadow.Run; hide Shadow.Score;
    hide Shadow.InOrder; hide Shadow.Complete; hide Shadow.FillCount; hide Ready; hide Shadow.Real;
    InitialReady(b);
    EventsAgree(b, Plain([], []), feed);
    ReadyInv(b, Plain([], []));
    EventsReal(b, feed);
    Shadow.PerfectScore(ShadowEvents(b, feed));
  }

  lemma ReadyInv(b: Book, p: Plain)
    requires Ready(b, p)
    ensures Inv(b)
  {
  }

  // ----- A stream on which the right contestant loses -----

  function Ask(id: nat, price: int): (o: Incoming) {
    Incoming(id, Sell, Limit, price, 1)
  }

  function Bid(id: nat, price: int): (o: Incoming) {
    Incoming(id, Buy, Limit, price, 1)
  }

  // An ask on a book without bids, at a new price.
  lemma AskJoins(b: Book, id: nat, price: int)
    requires Inv(b) && b.bids == EmptyLadder() && b.free != [] && price !in b.asks.queues
      && b.asks.created < MAX_PRICE_LEVELS
    ensures var b1, s := ShadowBook(b, Ask(id, price)), Top(b);
      && ShadowMatch(b, Ask(id, price)) == Matched(b, [], 1) && ShadowAdd(b, Ask(id, price)).slot.Some?
      && Inv(b1) && b1.bids == b.bids && b1.free == b.free[..|b.free| - 1] && s < |b.pool| && s !in b1.free
      && b1.pool == b.pool[s := Order(b.nextId, id, 0, price, 1, Sell)]
      && b1.asks == Ladder(b.asks.queues[price := [s]], Improve(Sell, b.asks.best, price), b.asks.created + 1)
  {
    hide Inv; hide Match; hide AddOrder; hide Live;
    MatchStuck(b, Sell, Some(price), 1, FILL_BUFFER);
    AddShape(b, 0, id, Sell, price, 1);
    AddKeeps(b, 0, id, Sell, price, 1);
    EngineCases.TopTaken(b);
    assert [] + [Top(b)] == [Top(b)];
  }

  // Asks at 100 and 101, and a bid that takes the first: the cache is empty
  // while 101 rests.
  lemma CacheEmptied(b: Book)
    requires BookSnapshots.IsInitial(b) && |b.pool| >= 3
    ensures var b1 := ShadowBook(b, Ask(1, 100));
      var b2 := ShadowBook(b1, Ask(2, 101));
      var b3 := ShadowBook(b2, Bid(3, 100));
      && ShadowMatch(b, Ask(1, 100)) == Matched(b, [], 1) && ShadowAdd(b, Ask(1, 100)).slot.Some?
      && ShadowMatch(b1, Ask(2, 101)) == Matched(b1, [], 1) && ShadowAdd(b1, Ask(2, 101)).slot.Some?
      && ShadowMatch(b2, Bid(3, 100)) == Matched(b3, [Fill(Top(b), 100, 1)], 0)
      && b1.asks.best == Some(100) && Inv(b3) && b3.bids == EmptyLadder() && b3.free != []
      && b3.asks.best == None && b3.asks.queues.Keys == {101} && b3.asks.created == 2
  {
    hide Inv; hide Match; hide ShadowMatch; hide ShadowBook; hide ShadowAdd;
    BookSnapshots.InitialInv(b);
    AskJoins(b, 1, 100);
    var b1, s := ShadowBook(b, Ask(1, 100)), Top(b);
    assert Top(b1) in b1.free;
    AskJoins(b1, 2, 101);
    BidTakes(ShadowBook(b1, Ask(2, 101)), s, 3, 100);
  }

  lemma BidTakes(b: Book, s: nat, id: nat, price: int)
    requires Inv(b) && s < |b.pool| && b.pool[s].price == price && b.pool[s].remaining == 1
    requires b.asks.best == Some(price) && price in b.asks.queues && b.asks.queues[price] == [s]
    ensures var b1 := ShadowBook(b, Bid(id, price));
      && ShadowMatch(b, Bid(id, price)) == Matched(b1, [Fill(s, price, 1)], 0) && Inv(b1)
      && b1 == b.(pool := b1.pool, free := b.free + [s],
                  asks := b.asks.(queues := b.asks.queues - {price}, best := None))
  {
    hide Inv; hide Match;
    EngineCases.OneFill(b, s, price);
    ShadowInv(b, Bid(id, price));
  }

  // One more ask at 105 and a bid for it: the reference book expects 105.
  lemma BidMisled(b: Book)
    requires Inv(b) && b.bids == EmptyLadder() && b.free != []
    requires b.asks.best == None && b.asks.queues.Keys == {101} && b.asks.created == 2
    ensures ShadowMatch(b, Ask(4, 105)).fills == []
    ensures ShadowMatch(ShadowBook(b, Ask(4, 105)), Bid(5, 105)).fills == [Fill(Top(b), 105, 1)]
  {
    hide Inv; hide ShadowMatch; hide ShadowBook; hide ShadowAdd;
    AskJoins(b, 4, 105);
    BidTakes(ShadowBook(b, Ask(4, 105)), Top(b), 5, 105);
  }

  lemma PlainSteps()
    ensures PlainOf(Plain([], []), Ask(1, 100)) == Outcome(Plain([], [Resting(1, 100, 1)]), [], 1)
    ensures PlainOf(Plain([], [Resting(1, 100, 1)]), Ask(2, 101)) ==
      Outcome(Plain([], [Resting(1, 100, 1), Resting(2, 101, 1)]), [], 1)
    ensures PlainOf(Plain([], [Resting(1, 100, 1), Resting(2, 101, 1)]), Bid(3, 100)) ==
      Outcome(Plain([], [Resting(2, 101, 1)]), [Fill(1, 100, 1)], 0)
    ensures PlainOf(Plain([], [Resting(2, 101, 1)]), Ask(4, 105)) ==
      Outcome(Plain([], [Resting(2, 101, 1), Resting(4, 105, 1)]), [], 1)
    ensures PlainOf(Plain([], [Resting(2, 101, 1), Resting(4, 105, 1)]), Bid(5, 105)).fills == [Fill(2, 101, 1)]
  {
    hide Take;
    var none: seq<Resting<nat>> := [];
    TakeNone(none, Sell, Some(100), 1, 0);
    TakeNone(none, Sell, Some(101), 1, 0);
    TakeNone(none, Sell, Some(105), 1, 0);
    FirstTaken(Resting(1, 100, 1), Resting(2, 101, 1), 100);
    FirstTaken(Resting(2, 101, 1), Resting(4, 105, 1), 105);
  }

  lemma FirstTaken(a: Resting<nat>, c: Resting<nat>, limit: int)
    requires a.qty == 1 && a.price <= limit
    ensures Take([a, c], Buy, Some(limit), 1, 2) == Taken([Fill(a.id, a.price, 1)], [c], 0)
  {
    hide Take;
    TakeStep([a, c], Buy, Some(limit), 1, 2);
    assert DropFilled([a, c], 1) == [c];
    TakeNone([c], Buy, Some(limit), 0, 1);
  }

  // The five orders, with the fills of the plain book reported at once.
  function RightFeed(): (feed: seq<Feed>) {
    [Place(Ask(1, 100)), Place(Ask(2, 101)), Place(Bid(3, 100)), Tell(3, 100, 1),
     Place(Ask(4, 105)), Place(Bid(5, 105)), Tell(5, 101, 1)]
  }

  // What is scored if the last order is expected to fill at `price`.
  function Scored(price: int): (evs: seq<Shadow.Event>) {
    [Shadow.Ordered([])] + ([Shadow.Ordered([])] + ([Shadow.Ordered([Shadow.Expected(3, 100, 1, Buy)])]
    + ([Shadow.Reported(3, 100, 1)] + ([Shadow.Ordered([])] + ([Shadow.Ordered([Shadow.Expected(5, price, 1, Buy)])]
    + ([Shadow.Reported(5, 101, 1)] + []))))))
  }

  lemma ExpectedFew(o: Incoming, maker: nat, price: int)
    ensures ExpectedBy(o, []) == []
      && ExpectedBy(o, [Fill(maker, price, 1)]) == [Shadow.Expected(o.id, price, 1, o.side)]
  {
  }

  lemma ShadowPlaces(b: Book, o: Incoming, rest: seq<Feed>)
    ensures ShadowEvents(b, [Place(o)] + rest) ==
      [Shadow.Ordered(ExpectedBy(o, ShadowMatch(b, o).fills))] + ShadowEvents(ShadowBook(b, o), rest)
  {
    assert ([Place(o)] + rest)[1..] == rest;
  }

  lemma ShadowTells(b: Book, id: nat, price: int, qty: int, rest: seq<Feed>)
    ensures ShadowEvents(b, [Tell(id, price, qty)] + rest) == [Shadow.Reported(id, price, qty)] + ShadowEvents(b, rest)
  {
    assert ([Tell(id, price, qty)] + rest)[1..] == rest;
  }

  lemma PlainPlaces(p: Plain, o: Incoming, rest: seq<Feed>)
    ensures PlainEvents(p, [Place(o)] + rest) ==
      [Shadow.Ordered(ExpectedBy(o, PlainOf(p, o).fills))] + PlainEvents(PlainOf(p, o).book, rest)
  {
    assert ([Place(o)] + rest)[1..] == rest;
  }

  lemma PlainTells(p: Plain, id: nat, price: int, qty: int, rest: seq<Feed>)
    ensures PlainEvents(p, [Tell(id, price, qty)] + rest) == [Shadow.Reported(id, price, qty)] + PlainEvents(p, rest)
  {
    assert ([Tell(id, price, qty)] + rest)[1..] == rest;
  }

  lemma FeedTails()
    ensures var f := RightFeed();
      && f == [Place(Ask(1, 100))] + f[1..] && f[1..] == [Place(Ask(2, 101))] + f[2..]
      && f[2..] == [Place(Bid(3, 100))] + f[3..] && f[3..] == [Tell(3, 100, 1)] + f[4..]
      && f[4..] == [Place(Ask(4, 105))] + f[5..] && f[5..] == [Place(Bid(5, 105))] + f[6..]
      && f[6..] == [Tell(5, 101, 1)] + []
  {
  }

  lemma ShadowScored(b: Book)
    requires BookSnapshots.IsInitial(b) && |b.pool| >= 3
    ensures ShadowEvents(b, RightFeed()) == Scored(105)
  {
    hide ShadowMatch; hide ShadowBook; hide ShadowAdd; hide Inv; hide ShadowEvents; hide RightFeed; hide ExpectedBy;
    var f := RightFeed();
    FeedTails();
    CacheEmptied(b);
    var b1 := ShadowBook(b, Ask(1, 100));
    var b2 := ShadowBook(b1, Ask(2, 101));
    var b3 := ShadowBook(b2, Bid(3, 100));
    var b4 := ShadowBook(b3, Ask(4, 105));
    BidMisled(b3);
    ExpectedFew(Ask(1, 100), 0, 0);
    ExpectedFew(Ask(2, 101), 0, 0);
    ExpectedFew(Bid(3, 100), Top(b), 100);
    ExpectedFew(Ask(4, 105), 0, 0);
    ExpectedFew(Bid(5, 105), Top(b3), 105);
    ShadowPlaces(b, Ask(1, 100), f[1..]);
    ShadowPlaces(b1, Ask(2, 101), f[2..]);
    ShadowPlaces(b2, Bid(3, 100), f[3..]);
    ShadowTells(b3, 3, 100, 1, f[4..]);
    ShadowPlaces(b3, Ask(4, 105), f[5..]);
    ShadowPlaces(b4, Bid(5, 105), f[6..]);
    ShadowTells(ShadowBook(b4, Bid(5, 105)), 5, 101, 1, []);
    NoEvents(ShadowBook(b4, Bid(5, 105)));
  }

  lemma NoEvents(b: Book)
    ensures ShadowEvents(b, []) == []
  {
  }

  lemma NoPlainEvents(p: Plain)
    ensures PlainEvents(p, []) == []
  {
  }

  lemma PlainScored()
    ensures PlainEvents(Plain([], []), RightFeed()) == Scored(101)
  {
    hide PlainOf; hide PlainEvents; hide RightFeed; hide ExpectedBy;
    var f := RightFeed();
    FeedTails();
    PlainSteps();
    var p5 := PlainOf(Plain([], [Resting(2, 101, 1), Resting(4, 105, 1)]), Bid(5, 105)).book;
    PlainPlaces(Plain([], []), Ask(1, 100), f[1..]);
    PlainPlaces(Plain([], [Resting(1, 100, 1)]), Ask(2, 101), f[2..]);
    PlainPlaces(Plain([], [Resting(1, 100, 1), Resting(2, 101, 1)]), Bid(3, 100), f[3..]);
    PlainTells(Plain([], [Resting(2, 101, 1)]), 3, 100, 1, f[4..]);
    PlainPlaces(Plain([], [Resting(2, 101, 1)]), Ask(4, 105), f[5..]);
    PlainPlaces(Plain([], [Resting(2, 101, 1), Resting(4, 105, 1)]), Bid(5, 105), f[6..]);
    PlainTells(p5, 5, 101, 1, []);
    NoPlainEvents(p5);
    ExpectedFew(Ask(1, 100), 0, 0);
    ExpectedFew(Ask(2, 101), 0, 0);
    ExpectedFew(Bid(3, 100), 1, 100);
    ExpectedFew(Ask(4, 105), 0, 0);
    ExpectedFew(Bid(5, 105), 2, 101);
  }

  lemma RunLast(evs: seq<Shadow.Event>, ev: Shadow.Event)
    ensures Shadow.Run(evs + [ev]) == Shadow.Step(Shadow.Run(evs), ev)
  {
    assert (evs + [ev])[..|evs|] == evs;
  }

  lemma OrderedNone(s: Shadow.Scoring)
    ensures Shadow.Step(s, Shadow.Ordered([])) == s.(tallies := s.tallies.(orders := s.tallies.orders + 1))
  {
  }

  lemma OrderedOne(s: Shadow.Scoring, x: Shadow.Expected)
    requires |s.entries| < Shadow.SHADOW_MAX_FILLS
    ensures var t := s.tallies;
      Shadow.Step(s, Shadow.Ordered([x])) ==
      Shadow.Scoring(s.entries + [x], t.(orders := t.orders + 1, expected := t.expected + 1))
  {
    Shadow.RecordAppends(s.(tallies := s.tallies.(orders := s.tallies.orders + 1)), [x]);
  }

  // A report against the last entry, the only open one.
  lemma ReportLast(s: Shadow.Scoring, x: Shadow.Expected, price: int)
    requires x.qty == 1 && s.entries != [] && s.entries[|s.entries| - 1] == x
    requires forall i | 0 <= i < |s.entries| - 1 :: s.entries[i].orderId != x.orderId
    ensures var r, t := Shadow.Step(s, Shadow.Reported(x.orderId, price, 1)),
      s.tallies.(actual := s.tallies.actual + 1);
      && r.entries == s.entries[..|s.entries| - 1] + [x.(qty := 0)]
      && r.tallies == if x.price == price then t.(correct := t.correct + 1) else t.(wrongPrice := t.wrongPrice + 1)
  {
    hide Shadow.FirstOpen;
    Shadow.FirstOpenIs(s.entries, x.orderId, |s.entries| - 1);
  }

  // The scorer on these events, one by one.
  lemma ScoredRun(price: int)
    ensures var t := Shadow.Finalize(Shadow.Run(Scored(price))).tallies;
      t.expected == 2 && t.extra == 0 && t.missing == 0 && t.priorityErrors == 0
        && t.correct == if price == 101 then 2 else 1
  {
    hide Shadow.Run; hide Shadow.Step; hide Scored; hide Shadow.OpenCount;
    var e := Scored(price);
    var three, five := Shadow.Expected(3, 100, 1, Buy), Shadow.Expected(5, price, 1, Buy);
    ScoredAt(price);
    RunNone();
    RunLast([], e[0]);
    OrderedNone(Shadow.START);
    RunLast([] + [e[0]], e[1]);
    OrderedNone(Shadow.Run([] + [e[0]]));
    RunLast([] + [e[0]] + [e[1]], e[2]);
    OrderedOne(Shadow.Run([] + [e[0]] + [e[1]]), three);
    var s3 := Shadow.Run([] + [e[0]] + [e[1]] + [e[2]]);
    RunLast([] + [e[0]] + [e[1]] + [e[2]], e[3]);
    ReportLast(s3, three, 100);
    RunLast([] + [e[0]] + [e[1]] + [e[2]] + [e[3]], e[4]);
    var s4 := Shadow.Run([] + [e[0]] + [e[1]] + [e[2]] + [e[3]]);
    OrderedNone(s4);
    RunLast([] + [e[0]] + [e[1]] + [e[2]] + [e[3]] + [e[4]], e[5]);
    var s5 := Shadow.Run([] + [e[0]] + [e[1]] + [e[2]] + [e[3]] + [e[4]]);
    OrderedOne(s5, five);
    RunLast([] + [e[0]] + [e[1]] + [e[2]] + [e[3]] + [e[4]] + [e[5]], e[6]);
    var s6 := Shadow.Run([] + [e[0]] + [e[1]] + [e[2]] + [e[3]] + [e[4]] + [e[5]]);
    ReportLast(s6, five, 101);
    NoneOpen(three.(qty := 0), five.(qty := 0));
    assert Shadow.Run(e).entries == [three.(qty := 0), five.(qty := 0)];
  }

  lemma NoneOpen(x: Shadow.Expected, y: Shadow.Expected)
    requires x.qty == y.qty == 0
    ensures Shadow.OpenCount([x, y]) == 0
  {
    assert [x, y] == [x] + [y];
    Shadow.OpenConcat([x], [y]);
  }

  lemma ScoredAt(price: int)
    ensures var e := Scored(price);
      && |e| == 7 && e == [] + [e[0]] + [e[1]] + [e[2]] + [e[3]] + [e[4]] + [e[5]] + [e[6]]
      && e[0] == e[1] == e[4] == Shadow.Ordered([]) && e[2] == Shadow.Ordered([Shadow.Expected(3, 100, 1, Buy)])
      && e[3] == Shadow.Reported(3, 100, 1) && e[5] == Shadow.Ordered([Shadow.Expected(5, price, 1, Buy)])
      && e[6] == Shadow.Reported(5, 101, 1)
  {
  }

  lemma RunNone()
    ensures Shadow.Run([]) == Shadow.START
  {
  }

  // The contestant who reports exactly the plain book's fills, each at once,
  // would score 1 against them and scores a half against the reference book.
  lemma RightScoresHalf(b: Book)
    requires BookSnapshots.IsInitial(b) && |b.pool| >= 3
    ensures Shadow.Score(Shadow.Finalize(Shadow.Run(PlainEvents(Plain([], []), RightFeed()))).tallies) == 1.0
    ensures Shadow.Score(Shadow.Finalize(Shadow.Run(ShadowEvents(b, RightFeed()))).tallies) == 0.5
  {
    hide Shadow.Run; hide Scored; hide RightFeed; hide PlainEvents; hide ShadowEvents; hide Shadow.Finalize;
    ShadowScored(b);
    PlainScored();
    ScoredRun(101);
    ScoredRun(105);
  }
}
