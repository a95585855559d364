/**
 The reference order book of the SDK: each side a sorted array, shifted in
 place.  The four copies of the fill loop (two sides, limit and market) and the
 two copies of insertion and removal appear here once, by side.
 */
module SimpleBook {
  import opened SortedBook

  const MAX_ORDERS: nat := 8192

  datatype RestingOrder = RestingOrder(orderId: nat, price: int, quantity: int, sequence: nat)

  ghost function Listing(s: seq<RestingOrder>): (r: seq<Resting<nat>>)
    ensures |r| == |s| && forall i | 0 <= i < |s| :: r[i] == Resting(s[i].orderId, s[i].price, s[i].quantity)
  {
    seq(|s|, i requires 0 <= i < |s| => Resting(s[i].orderId, s[i].price, s[i].quantity))
  }

  ghost predicate AllPositive(s: seq<RestingOrder>) {
    forall i | 0 <= i < |s| :: s[i].quantity > 0
  }

  // Every order arrived before sequence number n.
  ghost predicate AllOlder(s: seq<RestingOrder>, n: nat) {
    forall i | 0 <= i < |s| :: s[i].sequence < n
  }

  lemma ShiftedListing(raw: seq<RestingOrder>, pos: nat, o: RestingOrder)
    requires pos <= |raw|
    ensures var raw' := raw[..pos] + [o] + raw[pos..];
      && Listing(raw') == Listing(raw)[..pos] + [Resting(o.orderId, o.price, o.quantity)] + Listing(raw)[pos..]
      && (AllPositive(raw) && o.quantity > 0 ==> AllPositive(raw'))
      && (AllOlder(raw, o.sequence) ==> AllOlder(raw', o.sequence + 1))
  {
  }

  lemma RemovedListing(raw: seq<RestingOrder>, k: nat)
    requires k < |raw|
    ensures var raw' := RemoveAt(raw, k);
      && Listing(raw') == RemoveAt(Listing(raw), k)
      && (AllPositive(raw) ==> AllPositive(raw')) && (forall n: nat :: AllOlder(raw, n) ==> AllOlder(raw', n))
  {
  }

  lemma ReducedListing(raw: seq<RestingOrder>, f: int)
    requires raw != [] && f < raw[0].quantity
    ensures var raw' := raw[0 := raw[0].(quantity := raw[0].quantity - f)];
      && Listing(raw') == [Listing(raw)[0].(qty := raw[0].quantity - f)] + Listing(raw)[1..]
      && (AllPositive(raw) ==> AllPositive(raw')) && (forall n: nat :: AllOlder(raw, n) ==> AllOlder(raw', n))
  {
  }

  // ----- The book as two lists -----

  datatype Plain = Plain(bids: seq<Resting<nat>>, asks: seq<Resting<nat>>)

  function ListOf(p: Plain, side: Side): (l: seq<Resting<nat>>) {
    if side == Buy then p.bids else p.asks
  }

  function WithLists(side: Side, own: seq<Resting<nat>>, other: seq<Resting<nat>>): (p: Plain) {
    if side == Buy then Plain(own, other) else Plain(other, own)
  }

  datatype Outcome = Outcome(book: Plain, fills: seq<Fill<nat>>, left: int)

  // A market order has no limit.
  function LimitOf(orderType: OrderType, price: int): (l: Option<int>) {
    if orderType == Market then None else Some(price)
  }

  // A market order only matches; any other order rests what is left, unless
  // its side is full.
  function PlainOrder(p: Plain, id: nat, side: Side, orderType: OrderType, price: int, qty: int): (r: Outcome) {
    var own, other := ListOf(p, side), ListOf(p, Opposite(side));
    var t := Take(other, side, LimitOf(orderType, price), qty, |other|);
    var own' := if t.left > 0 && orderType != Market && |own| < MAX_ORDERS
      then Insert(side, own, Resting(id, price, t.left)) else own;
    Outcome(WithLists(side, own', t.rest), t.fills, t.left)
  }

  // An order's units are filled, rest or are discarded: only a market order, or
  // one whose side is full, discards what it cannot fill.
  lemma PlainBalance(p: Plain, id: nat, side: Side, orderType: OrderType, price: int, qty: int)
    requires qty >= 0 && Sorted(side, ListOf(p, side)) && Positive(ListOf(p, Opposite(side)))
    ensures var r := PlainOrder(p, id, side, orderType, price, qty);
      && qty == FillTotal(r.fills) + r.left && r.left >= 0
      && Total(ListOf(r.book, Opposite(side))) == Total(ListOf(p, Opposite(side))) - FillTotal(r.fills)
      && Total(ListOf(r.book, side)) ==
           Total(ListOf(p, side)) + if orderType == Market || |ListOf(p, side)| >= MAX_ORDERS then 0 else r.left
  {
    hide Take; hide Insert; hide Total; hide FillTotal;
    var own, other := ListOf(p, side), ListOf(p, Opposite(side));
    var t := Take(other, side, LimitOf(orderType, price), qty, |other|);
    TakeConserves(other, side, LimitOf(orderType, price), qty, |other|);
    TakeFillCount(other, side, LimitOf(orderType, price), qty, |other|);
    InsertTotal(side, own, Resting(id, price, t.left));
  }

  // Where the first order of that id stands.
  function FirstWith(l: seq<Resting<nat>>, id: nat): (k: nat)
    ensures k <= |l| && (k < |l| ==> l[k].id == id) && forall i | 0 <= i < k :: l[i].id != id
  {
    if l == [] || l[0].id == id then 0 else 1 + FirstWith(l[1..], id)
  }

  // Takes the first order of that id off the bids, or else off the asks, and
  // gives the quantity it had left.
  function PlainCancel(p: Plain, id: nat): (r: (Plain, Option<int>)) {
    var i, j := FirstWith(p.bids, id), FirstWith(p.asks, id);
    if i < |p.bids| then (p.(bids := RemoveAt(p.bids, i)), Some(p.bids[i].qty))
    else if j < |p.asks| then (p.(asks := RemoveAt(p.asks, j)), Some(p.asks[j].qty))
    else (p, None)
  }

  // One side of the book.
  class SideArray {
    const orders: array<RestingOrder>
    var count: nat

    ghost predicate Valid()
      reads this, orders
    {
      orders.Length == MAX_ORDERS && count <= MAX_ORDERS && AllPositive(orders[..count])
    }

    ghost function List(): (r: seq<Resting<nat>>)
      requires Valid()
      reads this, orders
    {
      Listing(orders[..count])
    }

    ghost predicate OlderThan(n: nat)
      requires Valid()
      reads this, orders
    {
      AllOlder(orders[..count], n)
    }

    constructor ()
      ensures Valid() && List() == [] && OlderThan(0) && fresh(orders)
    {
      orders := new RestingOrder[MAX_ORDERS](_ => RestingOrder(0, 0, 0, 0));
      count := 0;
    }

    // Closes the gap left by entry idx.
    method Remove(idx: nat)
      requires Valid() && idx < count
      modifies this, orders
      ensures Valid() && List() == RemoveAt(old(List()), idx)
      ensures forall n: nat :: old(OlderThan(n)) ==> OlderThan(n)
    {
      ghost var raw := orders[..count];
      forall i | idx <= i < count - 1 {
        orders[i] := orders[i + 1];
      }
      count := count - 1;
      assert orders[..count] == RemoveAt(raw, idx);
      RemovedListing(raw, idx);
    }

    // The first entry of that id, or count.
    method IndexOf(id: nat) returns (i: nat)
      requires Valid()
      ensures i == FirstWith(List(), id) && |List()| == count
    {
      hide AllPositive; hide FirstWith;
      i := 0;
      while i < count && orders[i].orderId != id
        invariant i <= count
        invariant forall j | 0 <= j < i :: List()[j].id != id
      {
        i := i + 1;
      }
      FirstWithIs(List(), id, i);
    }

    // Fills the head of the side by f units.
    method HitHead(f: int)
      requires Valid() && count > 0 && f <= orders[0].quantity
      modifies this, orders
      ensures Valid() && List() == DropFilled(old(List()), f)
      ensures forall n: nat :: old(OlderThan(n)) ==> OlderThan(n)
    {
      hide AllPositive; hide AllOlder;
      ghost var raw, was := orders[..count], List();
      if orders[0].quantity - f <= 0 {
        Remove(0);
        assert RemoveAt(was, 0) == was[1..];
      } else {
        orders[0] := orders[0].(quantity := orders[0].quantity - f);
        assert orders[..count] == raw[0 := orders[0]];
        ReducedListing(raw, f);
      }
    }

    // Insertion before the first worse price; a full side drops the order.
    method InsertResting(side: Side, id: nat, price: int, qty: int, seqNo: nat) returns (placed: bool)
      requires Valid() && OlderThan(seqNo) && qty > 0
      modifies this, orders
      ensures Valid() && placed == (old(count) < MAX_ORDERS)
      ensures placed ==> List() == Insert(side, old(List()), Resting(id, price, qty)) && OlderThan(seqNo + 1)
      ensures !placed ==> List() == old(List()) && OlderThan(seqNo)
    {
      hide AllPositive; hide Insert;
      if count >= MAX_ORDERS {
        return false;
      }
      ghost var raw, was, o := orders[..count], List(), Resting(id, price, qty);
      var pos := 0;
      while pos < count && !Better(side, price, orders[pos].price)
            && !(price == orders[pos].price && seqNo < orders[pos].sequence)
        invariant pos <= count
        invariant forall i | 0 <= i < pos :: !Better(side, price, was[i].price)
      {
        pos := pos + 1;
      }
      assert pos < count ==> raw[pos].sequence < seqNo && was[pos..][0] == was[pos];
      assert was == was[..pos] + was[pos..];
      InsertSplit(side, was[..pos], was[pos..], o);
      var r := RestingOrder(id, price, qty, seqNo);
      assert raw[..pos] == orders[..pos] && raw[pos..] == orders[pos..count];
      ShiftAndPut(pos, r);
      ShiftedListing(raw, pos, r);
      return true;
    }

    method ShiftAndPut(pos: nat, o: RestingOrder)
      requires Valid() && pos <= count < MAX_ORDERS
      modifies this, orders
      ensures count == old(count) + 1
      ensures orders[..count] == old(orders[..pos]) + [o] + old(orders[pos..count])
    {
      forall i | pos < i <= count {
        orders[i] := orders[i - 1];
      }
      orders[pos] := o;
      count := count + 1;
    }

    // Matches until the order is used up, the side is empty or the head does
    // not cross.
    method TakeFrom(aggressor: Side, limit: Option<int>, qty: int) returns (fills: seq<Fill<nat>>, left: int)
      requires Valid()
      modifies this, orders
      ensures Valid()
      ensures Taken(fills, List(), left) == Take(old(List()), aggressor, limit, qty, |old(List())|)
      ensures forall n: nat :: old(OlderThan(n)) ==> OlderThan(n)
    {
      hide Take; hide DropFilled; hide AllOlder; hide Crosses;
      ghost var l := List();
      fills, left := [], qty;
      while left > 0 && count > 0 && Crosses(aggressor, limit, orders[0].price)
        invariant Valid()
        invariant forall n: nat :: old(OlderThan(n)) ==> OlderThan(n)
        invariant Take(l, aggressor, limit, qty, |l|) == Prepend(fills, Take(List(), aggressor, limit, left, |List()|))
        decreases left
      {
        var head := orders[0];
        var f := Min(left, head.quantity);
        TakeHead(List(), aggressor, limit, left);
        fills := fills + [Fill(head.orderId, head.price, f)];
        left := left - f;
        HitHead(f);
      }
      TakeNone(List(), aggressor, limit, left, |List()|);
    }
  }

  lemma FirstWithIs(l: seq<Resting<nat>>, id: nat, k: nat)
    requires k <= |l| && (k < |l| ==> l[k].id == id) && forall i | 0 <= i < k :: l[i].id != id
    ensures FirstWith(l, id) == k
  {
    hide FirstWith;
  }

  // One fill, with the list's own length as the cap.
  lemma TakeHead(l: seq<Resting<nat>>, aggressor: Side, limit: Option<int>, qty: int)
    requires qty > 0 && l != [] && l[0].qty > 0 && Crosses(aggressor, limit, l[0].price)
    ensures var f := Min(qty, l[0].qty);
      var d := DropFilled(l, f);
      Take(l, aggressor, limit, qty, |l|) ==
        Prepend([Fill(l[0].id, l[0].price, f)], Take(d, aggressor, limit, qty - f, |d|))
  {
    TakeStep(l, aggressor, limit, qty, |l|);
    var f := Min(qty, l[0].qty);
    if f < l[0].qty {
      TakeNone(DropFilled(l, f), aggressor, limit, 0, |l| - 1);
      TakeNone(DropFilled(l, f), aggressor, limit, 0, |l|);
    }
  }

  class SimpleOrderbook {
    const bids: SideArray
    const asks: SideArray
    var seqNo: nat

    ghost predicate Valid()
      reads this, bids, asks, bids.orders, asks.orders
    {
      && bids != asks && bids.orders != asks.orders
      && bids.Valid() && asks.Valid() && bids.OlderThan(seqNo) && asks.OlderThan(seqNo)
    }

    function SideOf(side: Side): (s: SideArray) {
      if side == Buy then bids else asks
    }

    ghost function Book(): (p: Plain)
      requires Valid()
      reads this, bids, asks, bids.orders, asks.orders
    {
      Plain(bids.List(), asks.List())
    }

    constructor ()
      ensures Valid() && Book() == Plain([], [])
      ensures fresh(bids) && fresh(asks) && fresh(bids.orders) && fresh(asks.orders)
    {
      bids := new SideArray();
      asks := new SideArray();
      seqNo := 0;
    }

    method OnOrder(id: nat, side: Side, orderType: OrderType, price: int, qty: int)
      returns (fills: seq<Fill<nat>>, left: int)
      requires Valid()
      modifies this, bids, asks, bids.orders, asks.orders
      ensures Valid()
      ensures Outcome(Book(), fills, left) == PlainOrder(old(Book()), id, side, orderType, price, qty)
    {
      hide Take; hide Insert; hide Listing;
      ghost var was := Book();
      fills, left := SideOf(Opposite(side)).TakeFrom(side, LimitOf(orderType, price), qty);
      assert SideOf(side).List() == ListOf(was, side);
      if left > 0 && orderType != Market {
        var placed := SideOf(side).InsertResting(side, id, price, left, seqNo);
        if placed {
          seqNo := seqNo + 1;
        }
      }
    }

    // The quantity cancelled, or None for an id that does not rest.
    method OnCancel(id: nat) returns (cancelled: Option<int>)
      requires Valid()
      modifies this, bids, asks, bids.orders, asks.orders
      ensures Valid()
      ensures (Book(), cancelled) == PlainCancel(old(Book()), id)
    {
      hide FirstWith; hide Listing;
      ghost var was := Book();
      var i := bids.IndexOf(id);
      if i < bids.count {
        cancelled := Some(bids.orders[i].quantity);
        assert was.bids[i].qty == bids.orders[i].quantity;
        bids.Remove(i);
        return;
      }
      i := asks.IndexOf(id);
      if i < asks.count {
        cancelled := Some(asks.orders[i].quantity);
        assert was.asks[i].qty == asks.orders[i].quantity;
        asks.Remove(i);
        return;
      }
      cancelled := None;
    }
  }
}
