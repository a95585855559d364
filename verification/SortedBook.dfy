/**
 Sides, prices and the plain book: each side one list of resting orders, best
 price first and earliest first at equal price.  Everything the exchange does
 with a book is stated here once, on such lists.
 */
module SortedBook {

  datatype Side = Buy | Sell

  datatype OrderType = Limit | Market | Ioc

  datatype Option<+T> = None | Some(value: T)

  function Opposite(side: Side): (r: Side) {
    if side == Buy then Sell else Buy
  }

  // p is a strictly better resting price than q on this side.
  predicate Better(side: Side, p: int, q: int) {
    if side == Buy then p > q else p < q
  }

  // An order of side `aggressor` with this limit (None: any price) trades with
  // an order resting at p.
  predicate Crosses(aggressor: Side, limit: Option<int>, p: int) {
    limit.None? || !Better(aggressor, p, limit.value)
  }

  // `id` identifies the order: whatever the book at hand needs to name it.
  datatype Resting<+T> = Resting(id: T, price: int, qty: int)

  datatype Fill<+T> = Fill(id: T, price: int, qty: int)

  ghost predicate Sorted<T>(side: Side, l: seq<Resting<T>>) {
    forall i, j | 0 <= i < j < |l| :: !Better(side, l[j].price, l[i].price)
  }

  ghost predicate Positive<T>(l: seq<Resting<T>>) {
    forall i | 0 <= i < |l| :: l[i].qty > 0
  }

  function Min(a: int, b: int): (r: int) {
    if a < b then a else b
  }

  ghost function Total<T>(l: seq<Resting<T>>): (r: int) {
    if l == [] then 0 else l[0].qty + Total(l[1..])
  }

  ghost function FillTotal<T>(f: seq<Fill<T>>): (r: int) {
    if f == [] then 0 else f[0].qty + FillTotal(f[1..])
  }

  // ----- Taking liquidity -----

  datatype Taken<+T> = Taken(fills: seq<Fill<T>>, rest: seq<Resting<T>>, left: int)

  // What remains of the list after `f` units are taken from its head.
  function DropFilled<T>(l: seq<Resting<T>>, f: int): (r: seq<Resting<T>>)
    requires l != []
  {
    if l[0].qty - f <= 0 then l[1..] else [l[0].(qty := l[0].qty - f)] + l[1..]
  }

  // Fill from the head while it crosses, at most max times.
  function Take<T>(l: seq<Resting<T>>, aggressor: Side, limit: Option<int>, qty: int, max: nat): (r: Taken<T>)
    decreases max
  {
    if qty <= 0 || max == 0 || l == [] || !Crosses(aggressor, limit, l[0].price) then
      Taken([], l, qty)
    else
      var f := Min(qty, l[0].qty);
      var t := Take(DropFilled(l, f), aggressor, limit, qty - f, max - 1);
      t.(fills := [Fill(l[0].id, l[0].price, f)] + t.fills)
  }

  function Prepend<T>(f: seq<Fill<T>>, t: Taken<T>): (r: Taken<T>) {
    t.(fills := f + t.fills)
  }

  lemma TakeStep<T>(l: seq<Resting<T>>, aggressor: Side, limit: Option<int>, qty: int, max: nat)
    requires qty > 0 && max > 0 && l != [] && Crosses(aggressor, limit, l[0].price)
    ensures var f := Min(qty, l[0].qty);
      Take(l, aggressor, limit, qty, max) ==
        Prepend([Fill(l[0].id, l[0].price, f)], Take(DropFilled(l, f), aggressor, limit, qty - f, max - 1))
  {
  }

  lemma TakeNone<T>(l: seq<Resting<T>>, aggressor: Side, limit: Option<int>, qty: int, max: nat)
    requires qty <= 0 || max == 0 || l == [] || !Crosses(aggressor, limit, l[0].price)
    ensures Take(l, aggressor, limit, qty, max) == Taken([], l, qty)
  {
  }

  // Every unit taken comes off the list and off the incoming order.
  lemma {:induction false} TakeConserves<T>(l: seq<Resting<T>>, aggressor: Side, limit: Option<int>, qty: int, max: nat)
    requires Positive(l)
    ensures var t := Take(l, aggressor, limit, qty, max);
      && Total(l) == Total(t.rest) + FillTotal(t.fills)
      && qty == t.left + FillTotal(t.fills)
      && Positive(t.rest)
    decreases max
  {
    hide Take; hide DropFilled; hide Total; hide FillTotal; hide Positive;
    if qty > 0 && max > 0 && l != [] && Crosses(aggressor, limit, l[0].price) {
      var f := Min(qty, l[0].qty);
      TakeStep(l, aggressor, limit, qty, max);
      DropFilledTotal(l, f);
      TakeConserves(DropFilled(l, f), aggressor, limit, qty - f, max - 1);
      var t := Take(DropFilled(l, f), aggressor, limit, qty - f, max - 1);
      FillTotalCons(Fill(l[0].id, l[0].price, f), t.fills);
    } else {
      TakeNone(l, aggressor, limit, qty, max);
      NoFillTotal<T>();
    }
  }

  lemma DropFilledTotal<T>(l: seq<Resting<T>>, f: int)
    requires l != [] && Positive(l) && f <= l[0].qty
    ensures Positive(DropFilled(l, f)) && Total(l) == f + Total(DropFilled(l, f))
  {
    assert l[0].qty - f > 0 ==> DropFilled(l, f)[1..] == l[1..];
  }

  lemma FillTotalCons<T>(x: Fill<T>, f: seq<Fill<T>>)
    ensures FillTotal([x] + f) == x.qty + FillTotal(f)
  {
    assert ([x] + f)[1..] == f;
  }

  lemma FillTotalStep<T>(f: seq<Fill<T>>, i: nat)
    requires i < |f|
    ensures FillTotal(f[i..]) == f[i].qty + FillTotal(f[i + 1..])
  {
    assert f[i..][0] == f[i] && f[i..][1..] == f[i + 1..];
  }

  lemma NoFillTotal<T>()
    ensures FillTotal<T>([]) == 0
  {
  }

  // Every fill is of at least one unit, so an order never has more fills than units.
  lemma {:induction false} TakeFillCount<T>(l: seq<Resting<T>>, aggressor: Side, limit: Option<int>, qty: int, max: nat)
    requires Positive(l) && qty >= 0
    ensures var t := Take(l, aggressor, limit, qty, max);
      && 0 <= |t.fills| <= FillTotal(t.fills) && |t.fills| <= max && 0 <= t.left
      && forall i | 0 <= i < |t.fills| :: t.fills[i].qty > 0
    decreases max
  {
    hide Take; hide DropFilled; hide FillTotal;
    if qty > 0 && max > 0 && l != [] && Crosses(aggressor, limit, l[0].price) {
      var f := Min(qty, l[0].qty);
      TakeStep(l, aggressor, limit, qty, max);
      DropFilledTotal(l, f);
      TakeFillCount(DropFilled(l, f), aggressor, limit, qty - f, max - 1);
      var t := Take(DropFilled(l, f), aggressor, limit, qty - f, max - 1);
      FillTotalCons(Fill(l[0].id, l[0].price, f), t.fills);
    } else {
      TakeNone(l, aggressor, limit, qty, max);
      NoFillTotal<T>();
    }
  }

  // Unless the fill cap cut it short, an order with quantity left has met
  // everything it crosses.
  lemma {:induction false} TakeExhausts<T>(l: seq<Resting<T>>, aggressor: Side, limit: Option<int>, qty: int, max: nat)
    requires Sorted(Opposite(aggressor), l)
    ensures var t := Take(l, aggressor, limit, qty, max);
      && Sorted(Opposite(aggressor), t.rest)
      && (t.left > 0 && |t.fills| < max ==>
            forall i | 0 <= i < |t.rest| :: !Crosses(aggressor, limit, t.rest[i].price))
    decreases max
  {
    hide Take; hide DropFilled; hide Better;
    if qty > 0 && max > 0 && l != [] && Crosses(aggressor, limit, l[0].price) {
      var f := Min(qty, l[0].qty);
      TakeStep(l, aggressor, limit, qty, max);
      DropFilledSorted(Opposite(aggressor), l, f);
      TakeExhausts(DropFilled(l, f), aggressor, limit, qty - f, max - 1);
    } else {
      TakeNone(l, aggressor, limit, qty, max);
      if l != [] && !Crosses(aggressor, limit, l[0].price) {
        HeadBlocks(l, aggressor, limit);
      }
    }
  }

  lemma DropFilledSorted<T>(side: Side, l: seq<Resting<T>>, f: int)
    requires l != [] && Sorted(side, l)
    ensures Sorted(side, DropFilled(l, f))
  {
    hide Better;
  }

  // If the best price does not cross, none does.
  lemma HeadBlocks<T>(l: seq<Resting<T>>, aggressor: Side, limit: Option<int>)
    requires l != [] && Sorted(Opposite(aggressor), l) && !Crosses(aggressor, limit, l[0].price)
    ensures forall i | 0 <= i < |l| :: !Crosses(aggressor, limit, l[i].price)
  {
    forall i | 0 <= i < |l|
      ensures !Crosses(aggressor, limit, l[i].price)
    {
      assert i > 0 ==> !Better(Opposite(aggressor), l[i].price, l[0].price);
    }
  }

  // Price-time priority: the makers are a prefix of the list in list order, and
  // each but the last is filled completely.
  ghost predicate MakersInOrder<T>(l: seq<Resting<T>>, aggressor: Side, limit: Option<int>, fills: seq<Fill<T>>) {
    && |fills| <= |l|
    && (forall i | 0 <= i < |fills| ::
          fills[i].id == l[i].id && fills[i].price == l[i].price && Crosses(aggressor, limit, l[i].price))
    && (forall i | 0 <= i < |fills| - 1 :: fills[i].qty == l[i].qty)
  }

  // The rest is what follows the makers; only the last maker may keep a part of
  // its quantity, and then the incoming order is used up.
  ghost predicate RestIsSuffix<T>(l: seq<Resting<T>>, t: Taken<T>) {
    var n := |t.fills|;
    && n <= |l|
    && (t.rest == l[n..] ||
        (n > 0 && t.left == 0 && t.rest == [l[n - 1].(qty := l[n - 1].qty - t.fills[n - 1].qty)] + l[n..]))
  }

  lemma {:induction false} TakePriority<T>(l: seq<Resting<T>>, aggressor: Side, limit: Option<int>, qty: int, max: nat)
    requires Positive(l)
    ensures MakersInOrder(l, aggressor, limit, Take(l, aggressor, limit, qty, max).fills)
    decreases max
  {
    hide Take; hide MakersInOrder; hide DropFilled;
    NoMakers(l, aggressor, limit);
    if qty > 0 && max > 0 && l != [] && Crosses(aggressor, limit, l[0].price) {
      var f := Min(qty, l[0].qty);
      TakeStep(l, aggressor, limit, qty, max);
      if f == l[0].qty {
        DropFilledAll(l);
        TakePriority(l[1..], aggressor, limit, qty - f, max - 1);
        MakersCons(l, aggressor, limit, Take(l[1..], aggressor, limit, qty - f, max - 1).fills);
      } else {
        TakeNone(DropFilled(l, f), aggressor, limit, 0, max - 1);
        OneMaker(l, aggressor, limit, f);
      }
    } else {
      TakeNone(l, aggressor, limit, qty, max);
    }
  }

  lemma NoMakers<T>(l: seq<Resting<T>>, aggressor: Side, limit: Option<int>)
    ensures MakersInOrder(l, aggressor, limit, [])
  {
  }

  lemma OneMaker<T>(l: seq<Resting<T>>, aggressor: Side, limit: Option<int>, f: int)
    requires l != [] && Crosses(aggressor, limit, l[0].price)
    ensures MakersInOrder(l, aggressor, limit, [Fill(l[0].id, l[0].price, f)] + [])
  {
  }

  lemma DropFilledAll<T>(l: seq<Resting<T>>)
    requires l != [] && l[0].qty > 0
    ensures DropFilled(l, l[0].qty) == l[1..]
  {
  }

  lemma MakersCons<T>(l: seq<Resting<T>>, aggressor: Side, limit: Option<int>, fills: seq<Fill<T>>)
    requires l != [] && MakersInOrder(l[1..], aggressor, limit, fills)
    requires Crosses(aggressor, limit, l[0].price)
    ensures MakersInOrder(l, aggressor, limit, [Fill(l[0].id, l[0].price, l[0].qty)] + fills)
  {
    assert forall i | 0 < i <= |fills| :: l[i] == l[1..][i - 1];
  }

  lemma {:induction false} TakeLeavesSuffix<T>(l: seq<Resting<T>>, aggressor: Side, limit: Option<int>, qty: int,
                                               max: nat)
    requires Positive(l)
    ensures RestIsSuffix(l, Take(l, aggressor, limit, qty, max))
    decreases max
  {
    hide Take; hide DropFilled; hide RestIsSuffix;
    if qty > 0 && max > 0 && l != [] && Crosses(aggressor, limit, l[0].price) {
      var f := Min(qty, l[0].qty);
      TakeStep(l, aggressor, limit, qty, max);
      if f == l[0].qty {
        DropFilledAll(l);
        TakeLeavesSuffix(l[1..], aggressor, limit, qty - f, max - 1);
        SuffixCons(l, Fill(l[0].id, l[0].price, f), Take(l[1..], aggressor, limit, qty - f, max - 1));
      } else {
        TakeNone(DropFilled(l, f), aggressor, limit, 0, max - 1);
        PartSuffix(l, f);
      }
    } else {
      TakeNone(l, aggressor, limit, qty, max);
      NoneSuffix(l, qty);
    }
  }

  lemma NoneSuffix<T>(l: seq<Resting<T>>, qty: int)
    ensures RestIsSuffix(l, Taken([], l, qty))
  {
  }

  lemma PartSuffix<T>(l: seq<Resting<T>>, f: int)
    requires l != [] && f < l[0].qty
    ensures RestIsSuffix(l, Prepend([Fill(l[0].id, l[0].price, f)], Taken([], DropFilled(l, f), 0)))
  {
  }

  lemma SuffixCons<T>(l: seq<Resting<T>>, f: Fill<T>, t: Taken<T>)
    requires l != [] && RestIsSuffix(l[1..], t)
    ensures RestIsSuffix(l, Prepend([f], t))
  {
    assert l[1..][|t.fills|..] == l[|t.fills| + 1..];
  }

  // A cap that is at least the number of fills wanted changes nothing.
  lemma {:induction false} TakeCapEnough<T>(l: seq<Resting<T>>, aggressor: Side, limit: Option<int>, qty: int, n: nat,
                                            max: nat)
    requires |l| <= n && Positive(l) && |Take(l, aggressor, limit, qty, n).fills| <= max
    ensures Take(l, aggressor, limit, qty, max) == Take(l, aggressor, limit, qty, n)
    decreases n
  {
    hide Take;
    if qty <= 0 || l == [] || !Crosses(aggressor, limit, l[0].price) {
      TakeNone(l, aggressor, limit, qty, n);
      TakeNone(l, aggressor, limit, qty, max);
    } else {
      var f := Min(qty, l[0].qty);
      var d := DropFilled(l, f);
      TakeStep(l, aggressor, limit, qty, n);
      TakeStep(l, aggressor, limit, qty, max);
      if f == l[0].qty {
        TakeCapEnough(d, aggressor, limit, qty - f, n - 1, max - 1);
      } else {
        TakeNone(d, aggressor, limit, 0, n - 1);
        TakeNone(d, aggressor, limit, 0, max - 1);
      }
    }
  }

  ghost predicate AnyCrosses<T>(l: seq<Resting<T>>, aggressor: Side, limit: Option<int>) {
    exists j | 0 <= j < |l| :: Crosses(aggressor, limit, l[j].price)
  }

  lemma {:induction false} TotalAtLeast<T>(l: seq<Resting<T>>)
    requires Positive(l)
    ensures Total(l) >= |l|
  {
    if l != [] {
      TotalAtLeast(l[1..]);
    }
  }

  // The fill cap stops an order that still has quantity and something to cross
  // exactly if it is larger than the first `max` orders together and the one
  // after them crosses.
  lemma {:induction false} TakeCut<T>(l: seq<Resting<T>>, aggressor: Side, limit: Option<int>, qty: int, max: nat)
    requires Positive(l) && Sorted(Opposite(aggressor), l)
    ensures var t := Take(l, aggressor, limit, qty, max);
      t.left > 0 && AnyCrosses(t.rest, aggressor, limit) <==>
      |l| > max && Total(l[..max]) < qty && Crosses(aggressor, limit, l[max].price)
    decreases max
  {
    hide Take; hide Sorted; hide Total; hide AnyCrosses; hide Crosses;
    if max == 0 || qty <= 0 || l == [] || !Crosses(aggressor, limit, l[0].price) {
      TakeNone(l, aggressor, limit, qty, max);
      CutNone(l, aggressor, limit, qty, max);
    } else {
      var f := Min(qty, l[0].qty);
      TakeStep(l, aggressor, limit, qty, max);
      if f == l[0].qty {
        DropFilledAll(l);
        DropFilledSorted(Opposite(aggressor), l, f);
        TakeCut(l[1..], aggressor, limit, qty - f, max - 1);
        FrontTotal(l, max);
      } else {
        TakeNone(DropFilled(l, f), aggressor, limit, 0, max - 1);
        FrontTotal(l, max);
      }
    }
  }

  lemma CutNone<T>(l: seq<Resting<T>>, aggressor: Side, limit: Option<int>, qty: int, max: nat)
    requires Positive(l) && Sorted(Opposite(aggressor), l)
    requires max == 0 || qty <= 0 || l == [] || !Crosses(aggressor, limit, l[0].price)
    ensures qty > 0 && AnyCrosses(l, aggressor, limit) <==>
      |l| > max && Total(l[..max]) < qty && Crosses(aggressor, limit, l[max].price)
  {
    hide Crosses; hide Sorted;
    if l != [] && !Crosses(aggressor, limit, l[0].price) {
      HeadBlocks(l, aggressor, limit);
    } else if l != [] && |l| > max {
      TotalAtLeast(l[..max]);
      assert Crosses(aggressor, limit, l[0].price);
    }
  }

  lemma FrontTotal<T>(l: seq<Resting<T>>, max: nat)
    requires l != [] && max > 0 && Positive(l)
    ensures |l| > max ==> Total(l[..max]) == l[0].qty + Total(l[1..][..max - 1]) && Total(l[1..][..max - 1]) >= 0
    ensures |l| > max ==> l[1..][max - 1] == l[max]
  {
    if |l| > max {
      assert l[..max][1..] == l[1..][..max - 1];
      TotalAtLeast(l[1..][..max - 1]);
    }
  }

  // ----- Resting an order -----

  // Before the first strictly worse price, so behind its equals.
  function Insert<T>(side: Side, l: seq<Resting<T>>, o: Resting<T>): (r: seq<Resting<T>>) {
    if l == [] then [o]
    else if Better(side, o.price, l[0].price) then [o] + l
    else [l[0]] + Insert(side, l[1..], o)
  }

  lemma {:induction false} InsertSplit<T>(side: Side, a: seq<Resting<T>>, c: seq<Resting<T>>, o: Resting<T>)
    requires forall i | 0 <= i < |a| :: !Better(side, o.price, a[i].price)
    requires c == [] || Better(side, o.price, c[0].price)
    ensures Insert(side, a + c, o) == a + [o] + c
  {
    if a == [] {
      assert a + c == c;
    } else {
      assert (a + c)[1..] == a[1..] + c;
      InsertSplit(side, a[1..], c, o);
    }
  }

  // Where the order lands in a sorted list.
  lemma InsertPosition<T>(side: Side, l: seq<Resting<T>>, o: Resting<T>) returns (k: nat)
    requires Sorted(side, l)
    ensures k <= |l| && Insert(side, l, o) == l[..k] + [o] + l[k..]
    ensures forall i | 0 <= i < k :: !Better(side, o.price, l[i].price)
    ensures forall i | k <= i < |l| :: Better(side, o.price, l[i].price)
  {
    hide Insert;
    k := 0;
    while k < |l| && !Better(side, o.price, l[k].price)
      invariant k <= |l|
      invariant forall i | 0 <= i < k :: !Better(side, o.price, l[i].price)
    {
      k := k + 1;
    }
    assert l == l[..k] + l[k..];
    InsertSplit(side, l[..k], l[k..], o);
    forall i | k <= i < |l|
      ensures Better(side, o.price, l[i].price)
    {
      assert i > k ==> !Better(side, l[i].price, l[k].price);
    }
  }

  lemma InsertSorted<T>(side: Side, l: seq<Resting<T>>, o: Resting<T>)
    requires Sorted(side, l)
    ensures Sorted(side, Insert(side, l, o))
  {
    hide Insert;
    var k := InsertPosition(side, l, o);
    var r := Insert(side, l, o);
    assert forall i | 0 <= i < |r| :: r[i] == if i < k then l[i] else if i == k then o else l[i - 1];
  }

  lemma {:induction false} TotalConcat<T>(a: seq<Resting<T>>, c: seq<Resting<T>>)
    ensures Total(a + c) == Total(a) + Total(c)
  {
    if a == [] {
      assert a + c == c;
    } else {
      assert (a + c)[1..] == a[1..] + c;
      TotalConcat(a[1..], c);
    }
  }

  lemma {:induction false} FillTotalConcat<T>(a: seq<Fill<T>>, c: seq<Fill<T>>)
    ensures FillTotal(a + c) == FillTotal(a) + FillTotal(c)
  {
    if a == [] {
      assert a + c == c;
    } else {
      assert (a + c)[1..] == a[1..] + c;
      FillTotalConcat(a[1..], c);
    }
  }

  // The sum only depends on the quantities.
  lemma {:induction false} FillTotalSame<T, U>(a: seq<Fill<T>>, c: seq<Fill<U>>)
    requires |a| == |c| && forall i | 0 <= i < |a| :: a[i].qty == c[i].qty
    ensures FillTotal(a) == FillTotal(c)
  {
    if a != [] {
      FillTotalSame(a[1..], c[1..]);
    }
  }

  function RemoveAt<T>(l: seq<T>, k: nat): (r: seq<T>)
    requires k < |l|
  {
    l[..k] + l[k + 1..]
  }

  lemma InsertTotal<T>(side: Side, l: seq<Resting<T>>, o: Resting<T>)
    requires Sorted(side, l)
    ensures Total(Insert(side, l, o)) == Total(l) + o.qty
  {
    hide Insert;
    var k := InsertPosition(side, l, o);
    TotalConcat(l[..k] + [o], l[k..]);
    TotalConcat(l[..k], [o]);
    TotalConcat(l[..k], l[k..]);
    assert l[..k] + l[k..] == l;
  }

  // ----- Renaming orders -----

  function Rename<T, U>(l: seq<Resting<T>>, f: T -> U): (r: seq<Resting<U>>)
    ensures |r| == |l| && forall i | 0 <= i < |l| :: r[i] == Resting(f(l[i].id), l[i].price, l[i].qty)
  {
    seq(|l|, i requires 0 <= i < |l| => Resting(f(l[i].id), l[i].price, l[i].qty))
  }

  function RenameFills<T, U>(l: seq<Fill<T>>, f: T -> U): (r: seq<Fill<U>>)
    ensures |r| == |l| && forall i | 0 <= i < |l| :: r[i] == Fill(f(l[i].id), l[i].price, l[i].qty)
  {
    seq(|l|, i requires 0 <= i < |l| => Fill(f(l[i].id), l[i].price, l[i].qty))
  }

  lemma DropFilledRename<T, U>(l: seq<Resting<T>>, f: T -> U, n: int)
    requires l != []
    ensures DropFilled(Rename(l, f), n) == Rename(DropFilled(l, n), f)
  {
  }

  lemma RenameFillsCons<T, U>(x: Fill<T>, l: seq<Fill<T>>, f: T -> U)
    ensures RenameFills([x] + l, f) == [Fill(f(x.id), x.price, x.qty)] + RenameFills(l, f)
  {
  }

  // Matching does not look at identities.
  lemma {:induction false} TakeRename<T, U>(l: seq<Resting<T>>, f: T -> U, aggressor: Side, limit: Option<int>,
                                            qty: int, max: nat)
    ensures var t := Take(l, aggressor, limit, qty, max);
      Take(Rename(l, f), aggressor, limit, qty, max) == Taken(RenameFills(t.fills, f), Rename(t.rest, f), t.left)
    decreases max
  {
    hide Take; hide DropFilled; hide Rename; hide RenameFills;
    var r := Rename(l, f);
    if qty > 0 && max > 0 && l != [] && Crosses(aggressor, limit, l[0].price) {
      var n := Min(qty, l[0].qty);
      var d := DropFilled(l, n);
      TakeStep(l, aggressor, limit, qty, max);
      TakeStep(r, aggressor, limit, qty, max);
      DropFilledRename(l, f, n);
      TakeRename(d, f, aggressor, limit, qty - n, max - 1);
      RenameFillsCons(Fill(l[0].id, l[0].price, n), Take(d, aggressor, limit, qty - n, max - 1).fills, f);
    } else {
      TakeNone(l, aggressor, limit, qty, max);
      TakeNone(r, aggressor, limit, qty, max);
      assert RenameFills<T, U>([], f) == [];
    }
  }

  lemma {:induction false} InsertRename<T, U>(side: Side, l: seq<Resting<T>>, o: Resting<T>, f: T -> U)
    ensures Insert(side, Rename(l, f), Resting(f(o.id), o.price, o.qty)) == Rename(Insert(side, l, o), f)
  {
    if l != [] && !Better(side, o.price, l[0].price) {
      InsertRename(side, l[1..], o, f);
      assert Rename(l, f)[1..] == Rename(l[1..], f);
    }
  }
}
