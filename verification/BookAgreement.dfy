/**
 The fast book and the plain book agree: over any stream of orders and cancels
 they give the same fills and end with the same resting orders.
 */
module BookAgreement {
  import opened SortedBook
  import opened LevelBook
  import opened BookTheory
  import opened BookRefinement
  import opened SimpleBook

  // The plain book names orders by client id only.
  function ClientOf(k: Key): (id: nat) {
    k.clientId
  }

  ghost predicate Agrees(b: Book, p: Plain) {
    p == Plain(Rename(View(b, Buy), ClientOf), Rename(View(b, Sell), ClientOf))
  }

  lemma AgreesSides(b: Book, p: Plain, side: Side)
    ensures Agrees(b, p) <==>
      p == WithLists(side, Rename(View(b, side), ClientOf), Rename(View(b, Opposite(side)), ClientOf))
  {
    hide View; hide Rename;
  }

  datatype Event =
    | Arrive(owner: nat, clientId: nat, side: Side, orderType: OrderType, price: int, qty: int)
    | Withdraw(slot: nat, clientId: nat)

  // ----- Both books on one event -----

  ghost function MatchOf(b: Book, ev: Event, max: nat): (m: Matched)
    requires ev.Arrive?
  {
    Match(b, ev.side, LimitOf(ev.orderType, ev.price), ev.qty, max)
  }

  ghost predicate Rests(b: Book, ev: Event, max: nat)
    requires ev.Arrive?
  {
    MatchOf(b, ev, max).left > 0 && ev.orderType != Market
  }

  ghost function AddOf(b: Book, ev: Event, max: nat): (a: Added)
    requires ev.Arrive?
  {
    var m := MatchOf(b, ev, max);
    AddOrder(m.book, ev.owner, ev.clientId, ev.side, ev.price, m.left)
  }

  // Match, then rest the remainder; or cancel the order in a slot.
  ghost function BookStep(b: Book, ev: Event, max: nat): (r: Matched)
    requires ev.Withdraw? ==> Live(b, ev.slot)
  {
    if ev.Withdraw? then Matched(CancelOrder(b, ev.slot).0, [], 0)
    else if Rests(b, ev, max) then MatchOf(b, ev, max).(book := AddOf(b, ev, max).book)
    else MatchOf(b, ev, max)
  }

  function PlainStep(p: Plain, ev: Event): (r: Outcome) {
    match ev
    case Arrive(owner, clientId, side, orderType, price, qty) => PlainOrder(p, clientId, side, orderType, price, qty)
    case Withdraw(slot, clientId) => Outcome(PlainCancel(p, clientId).0, [], 0)
  }

  // ----- Where they are comparable -----

  // At most one resting order has this id.
  ghost predicate OnlyOne(p: Plain, id: nat) {
    var l := p.bids + p.asks;
    forall i, j | 0 <= i < j < |l| :: l[i].id != id || l[j].id != id
  }

  // An order joining this side leaves its cache right: the cache names a price,
  // or no better price rests.
  ghost predicate JoinsWell(side: Side, l: Ladder, price: int) {
    l.best.Some? || forall x | x in l.queues :: !Better(side, x, price)
  }

  // Below the fill cap and both capacities, with the cache kept right; a cancel
  // names a resting order by slot and by its id, which no other resting order has.
  ghost predicate Fits(b: Book, p: Plain, ev: Event, max: nat) {
    match ev
    case Arrive(owner, clientId, side, orderType, price, qty) =>
      && |PlainOrder(p, clientId, side, orderType, price, qty).fills| <= max
      && (Rests(b, ev, max) ==>
            JoinsWell(side, LadderOf(b, side), price) && AddOf(b, ev, max).slot.Some? && |ListOf(p, side)| < MAX_ORDERS)
    case Withdraw(slot, clientId) => Live(b, slot) && b.pool[slot].clientId == clientId && OnlyOne(p, clientId)
  }

  ghost predicate Ready(b: Book, p: Plain) {
    Inv(b) && CachesOk(b) && Agrees(b, p)
  }

  ghost function NamedFills(b: Book, fills: seq<Fill<nat>>): (r: seq<Fill<nat>>) {
    RenameFills(Named(b.pool, fills), ClientOf)
  }

  // The two books give the same fills and remainder, and agree afterwards.
  ghost predicate Same(b: Book, m: Matched, o: Outcome) {
    NamedFills(b, m.fills) == o.fills && m.left == o.left && Ready(m.book, o.book)
  }

  // ----- One event -----

  lemma PositiveRename(l: seq<Resting<Key>>)
    requires Positive(l)
    ensures Positive(Rename(l, ClientOf))
  {
  }

  // Matching takes the same orders off both books.
  lemma MatchAgrees(b: Book, p: Plain, ev: Event, max: nat)
    requires Ready(b, p) && ev.Arrive? && Fits(b, p, ev, max)
    ensures var m := MatchOf(b, ev, max);
      var other := ListOf(p, Opposite(ev.side));
      var t := Take(other, ev.side, LimitOf(ev.orderType, ev.price), ev.qty, |other|);
      && Inv(m.book) && NamedFills(b, m.fills) == t.fills && m.left == t.left
      && LadderOf(m.book, ev.side) == LadderOf(b, ev.side)
      && CachesOk(m.book) && View(m.book, ev.side) == View(b, ev.side)
      && Rename(View(m.book, Opposite(ev.side)), ClientOf) == t.rest
  {
    hide Inv; hide View; hide Match; hide Take; hide Rename; hide Named; hide RenameFills; hide Scan; hide Insert;
    hide Positive; hide Clean; hide SameRecords; hide Total; hide FillTotal; hide AddOf; hide Rests; hide MakersInOrder;
    var side, limit := ev.side, LimitOf(ev.orderType, ev.price);
    var l, other := View(b, Opposite(side)), ListOf(p, Opposite(side));
    AgreesSides(b, p, side);
    MatchKeeps(b, side, limit, ev.qty, max);
    MatchRefines(b, side, limit, ev.qty, max);
    TakeRename(l, ClientOf, side, limit, ev.qty, max);
    InvSorted(b, Opposite(side));
    PositiveRename(l);
    TakeCapEnough(other, side, limit, ev.qty, |other|, max);
  }

  lemma ArriveAgrees(b: Book, p: Plain, ev: Event, max: nat)
    requires Ready(b, p) && ev.Arrive? && Fits(b, p, ev, max)
    ensures Same(b, BookStep(b, ev, max), PlainStep(p, ev))
  {
    hide Inv; hide View; hide Match; hide Take; hide Rename; hide NamedFills; hide AddOrder; hide Insert; hide Scan;
    hide MatchOf;
    var m, side := MatchOf(b, ev, max), ev.side;
    MatchAgrees(b, p, ev, max);
    AgreesSides(b, p, side);
    AgreesSides(m.book, PlainStep(p, ev).book, side);
    if Rests(b, ev, max) {
      var a := AddOf(b, ev, max);
      AddKeeps(m.book, ev.owner, ev.clientId, side, ev.price, m.left);
      AddCache(m.book, ev.owner, ev.clientId, side, ev.price, m.left);
      AddRefines(m.book, ev.owner, ev.clientId, side, ev.price, m.left);
      InsertRename(side, View(b, side),
        Resting(Key(a.slot.value, m.book.nextId, ev.owner, ev.clientId), ev.price, m.left), ClientOf);
      AgreesSides(a.book, PlainStep(p, ev).book, side);
    }
  }

  lemma RemoveRename(l: seq<Resting<Key>>, k: nat)
    requires k < |l|
    ensures RemoveAt(Rename(l, ClientOf), k) == Rename(RemoveAt(l, k), ClientOf)
  {
  }

  // A cancel by id removes the one order of that id.
  lemma CancelOnly(p: Plain, side: Side, k: nat, id: nat)
    requires OnlyOne(p, id) && k < |ListOf(p, side)| && ListOf(p, side)[k].id == id
    ensures PlainCancel(p, id).0 == WithLists(side, RemoveAt(ListOf(p, side), k), ListOf(p, Opposite(side)))
  {
    var l := p.bids + p.asks;
    if side == Buy {
      assert l[k].id == id;
      FirstWithIs(p.bids, id, k) by {
        assert forall i | 0 <= i < k :: l[i].id == p.bids[i].id;
      }
    } else {
      assert l[|p.bids| + k].id == id;
      FirstWithIs(p.bids, id, |p.bids|) by {
        assert forall i | 0 <= i < |p.bids| :: l[i].id == p.bids[i].id;
      }
      FirstWithIs(p.asks, id, k) by {
        assert forall i | 0 <= i < k :: l[|p.bids| + i].id == p.asks[i].id;
      }
    }
  }

  lemma WithdrawAgrees(b: Book, p: Plain, ev: Event, max: nat)
    requires Ready(b, p) && ev.Withdraw? && Fits(b, p, ev, max)
    ensures Same(b, BookStep(b, ev, max), PlainStep(p, ev))
  {
    hide Inv; hide View; hide CancelOrder; hide Rename; hide Live; hide CachesOk; hide PlainCancel; hide OnlyOne;
    var s, b' := ev.slot, CancelOrder(b, ev.slot).0;
    LiveInPool(b, s);
    var side := b.pool[s].side;
    var k := CancelRefines(b, s);
    CancelKeeps(b, s);
    AgreesSides(b, p, side);
    RenameAt(View(b, side), k);
    CancelOnly(p, side, k, ev.clientId);
    RemoveRename(View(b, side), k);
    AgreesSides(b', PlainStep(p, ev).book, side);
    assert NamedFills(b, []) == [];
  }

  lemma RenameAt(l: seq<Resting<Key>>, k: nat)
    requires k < |l|
    ensures |Rename(l, ClientOf)| == |l| && Rename(l, ClientOf)[k].id == l[k].id.clientId
  {
  }

  // ----- Streams -----

  ghost predicate AllFit(b: Book, p: Plain, evs: seq<Event>, max: nat)
    decreases |evs|
  {
    evs == [] ||
    (Fits(b, p, evs[0], max) && AllFit(BookStep(b, evs[0], max).book, PlainStep(p, evs[0]).book, evs[1..], max))
  }

  // The fills of each event, with the makers named by client id.
  ghost function BookTrace(b: Book, p: Plain, evs: seq<Event>, max: nat): (r: seq<seq<Fill<nat>>>)
    requires AllFit(b, p, evs, max)
    decreases |evs|
  {
    if evs == [] then []
    else
      var m := BookStep(b, evs[0], max);
      [NamedFills(b, m.fills)] + BookTrace(m.book, PlainStep(p, evs[0]).book, evs[1..], max)
  }

  ghost function BookEnd(b: Book, p: Plain, evs: seq<Event>, max: nat): (r: Book)
    requires AllFit(b, p, evs, max)
    decreases |evs|
  {
    if evs == [] then b else BookEnd(BookStep(b, evs[0], max).book, PlainStep(p, evs[0]).book, evs[1..], max)
  }

  function PlainTrace(p: Plain, evs: seq<Event>): (r: seq<seq<Fill<nat>>>)
    decreases |evs|
  {
    if evs == [] then [] else [PlainStep(p, evs[0]).fills] + PlainTrace(PlainStep(p, evs[0]).book, evs[1..])
  }

  function PlainEnd(p: Plain, evs: seq<Event>): (r: Plain)
    decreases |evs|
  {
    if evs == [] then p else PlainEnd(PlainStep(p, evs[0]).book, evs[1..])
  }

  // On every stream within the limits both books report the same fills, event
  // by event, and end with the same lists of resting orders.
  lemma {:induction false} BooksAgree(b: Book, p: Plain, evs: seq<Event>, max: nat)
    requires Ready(b, p) && AllFit(b, p, evs, max)
    ensures BookTrace(b, p, evs, max) == PlainTrace(p, evs)
    ensures Ready(BookEnd(b, p, evs, max), PlainEnd(p, evs))
    decreases |evs|
  {
    hide Fits; hide BookStep; hide PlainStep; hide Ready; hide NamedFills;
    if evs != [] {
      EventAgrees(b, p, evs[0], max);
      BooksAgree(BookStep(b, evs[0], max).book, PlainStep(p, evs[0]).book, evs[1..], max);
    }
  }

  lemma EventAgrees(b: Book, p: Plain, ev: Event, max: nat)
    requires Ready(b, p) && Fits(b, p, ev, max)
    ensures ev.Withdraw? ==> Live(b, ev.slot)
    ensures Same(b, BookStep(b, ev, max), PlainStep(p, ev))
  {
    hide Ready; hide Same; hide BookStep; hide PlainStep;
    if ev.Arrive? {
      ArriveAgrees(b, p, ev, max);
    } else {
      WithdrawAgrees(b, p, ev, max);
    }
  }

  // ----- Priority of fills -----

  // The prices of an order's fills never improve for it from one fill to the
  // next, and makers at one price are filled in the order of their exchange ids.
  lemma FillPriority(b: Book, aggressor: Side, limit: Option<int>, qty: int, max: nat, i: nat, j: nat)
    requires Inv(b) && CacheOk(Opposite(aggressor), LadderOf(b, Opposite(aggressor)))
    requires i < j < |Match(b, aggressor, limit, qty, max).fills|
    ensures var f := Match(b, aggressor, limit, qty, max).fills;
      && f[i].id < |b.pool| && f[j].id < |b.pool|
      && !Better(Opposite(aggressor), f[j].price, f[i].price)
      && (f[i].price == f[j].price ==> b.pool[f[i].id].exchangeId < b.pool[f[j].id].exchangeId)
  {
    hide View; hide Match; hide Take; hide QueueOk; hide Partition; hide Scan; hide Named; hide Better; hide CacheOk;
    hide FillTotal;
    var side, m := Opposite(aggressor), Match(b, aggressor, limit, qty, max);
    MatchRefines(b, aggressor, limit, qty, max);
    MatchFillsOk(b, aggressor, limit, qty, max);
    ViewSorted(b, side);
    TakePriority(View(b, side), aggressor, limit, qty, max);
    NamedShape(b.pool, m.fills);
    assert KeyOf(b.pool, m.fills[i].id) == View(b, side)[i].id;
    assert KeyOf(b.pool, m.fills[j].id) == View(b, side)[j].id;
  }
}
