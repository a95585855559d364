/**
 The price levels of one side in parallel arrays, with the price map in front
 of them and the cached index of the best level.
 */
module LevelPool {
  import opened SortedBook
  import opened LevelBook
  import opened BookLinks
  import opened BookSnapshots
  import opened PriceMap
  import RobinHood

  const INT64_MIN: int := -0x8000_0000_0000_0000
  const INT64_MAX: int := 0x7FFF_FFFF_FFFF_FFFF

  // Prices that can rest: 0 is the map's sentinel, and the two extremes are
  // where the scans for the best price start.
  predicate Restable(price: int) {
    price != 0 && INT64_MIN < price < INT64_MAX
  }

  // An injective map into [0, n) has at most n keys.
  lemma {:induction false} InjectionBound<K>(m: map<K, nat>, n: nat)
    requires forall k | k in m :: m[k] < n
    requires forall k, k' | k in m && k' in m && m[k] == m[k'] :: k == k'
    ensures |m| <= n
  {
    if n == 0 {
      assert m.Keys == {};
    } else if k :| k in m && m[k] == n - 1 {
      InjectionBound(m - {k}, n - 1);
      assert (m - {k}).Keys == m.Keys - {k};
    } else {
      InjectionBound(m, n - 1);
    }
  }

  class PriceLevelPool {
    const prices: array<int>
    const totalQty: array<int>
    const orderCount: array<nat>
    const head: array<nat>
    const tail: array<nat>
    const active: array<bool>
    const priceMap: PriceHashMap
    var count: nat
    var bestIdx: nat

    ghost const Repr: set<object>

    // The arrays have the right lengths and no two of them are the same.
    ghost predicate Layout() {
      && Repr == {this, prices, totalQty, orderCount, head, tail, active, priceMap, priceMap.keys, priceMap.values,
                  priceMap.distances}
      && prices.Length == totalQty.Length == orderCount.Length == MAX_PRICE_LEVELS
      && head.Length == tail.Length == active.Length == MAX_PRICE_LEVELS
      && prices != totalQty && prices != priceMap.keys && totalQty != priceMap.keys
      && orderCount != head && orderCount != tail && head != tail
      && orderCount != priceMap.values && head != priceMap.values && tail != priceMap.values
      && orderCount != priceMap.distances && head != priceMap.distances && tail != priceMap.distances
    }

    ghost function Snapshot(): (lv: Levels)
      requires Layout()
      reads Repr
    {
      Levels(prices[..], totalQty[..], orderCount[..], head[..], tail[..], active[..], count, bestIdx,
        priceMap.contents)
    }

    ghost predicate PricesOk(lv: Levels) {
      lv.used <= |lv.prices| && forall i | 0 <= i < lv.used :: Restable(lv.prices[i])
    }

    ghost predicate Valid()
      reads Repr
    {
      Layout() && priceMap.Valid() && Indexed(Snapshot()) && PricesOk(Snapshot())
    }

    // The price map can take another price without a probe distance overflowing.
    ghost predicate Headroom()
      requires Layout()
      reads Repr
    {
      priceMap.Headroom()
    }

    constructor ()
      ensures Valid() && Headroom() && fresh(Repr)
      ensures count == 0 && bestIdx == NULL && priceMap.contents == map[]
    {
      hide PriceHashMap.Valid; hide PriceHashMap.Headroom; hide Indexed; hide PricesOk; hide Snapshot;
      var p, q, c, h, t, a := Allocate();
      var levelOf := new PriceHashMap();
      prices, totalQty, orderCount, head, tail, active := p, q, c, h, t, a;
      priceMap, count, bestIdx := levelOf, 0, NULL;
      Repr := {this, p, q, c, h, t, a, levelOf, levelOf.keys, levelOf.values, levelOf.distances};
      new;
      EmptySnapshot();
    }

    // Fresh arrays; entries from `count` on are never read, so their contents do
    // not matter.
    static method Allocate()
      returns (p: array<int>, q: array<int>, c: array<nat>, h: array<nat>, t: array<nat>, a: array<bool>)
      ensures fresh(p) && fresh(q) && fresh(c) && fresh(h) && fresh(t) && fresh(a)
      ensures p.Length == q.Length == c.Length == h.Length == t.Length == a.Length == MAX_PRICE_LEVELS
      ensures p != q && c != h && c != t && h != t
    {
      p, q := new int[MAX_PRICE_LEVELS], new int[MAX_PRICE_LEVELS];
      c, h, t := new nat[MAX_PRICE_LEVELS], new nat[MAX_PRICE_LEVELS], new nat[MAX_PRICE_LEVELS];
      a := new bool[MAX_PRICE_LEVELS];
    }

    lemma EmptySnapshot()
      requires Layout() && count == 0 && priceMap.contents == map[]
      ensures Indexed(Snapshot()) && PricesOk(Snapshot())
    {
      EmptyIndexed(Snapshot());
    }

    lemma ValidLayout()
      requires Valid()
      ensures Layout()
    {
      hide PriceHashMap.Valid; hide Indexed;
    }

    lemma FewActive()
      requires Valid() && |priceMap.contents| < MAX_DISTANCE
      ensures Headroom()
    {
      hide Indexed; hide PricesOk;
      priceMap.FewPrices();
    }

    lemma EmptyIndexed(lv: Levels)
      requires Shape(lv) && lv.used == 0 && lv.index == map[]
      ensures Indexed(lv) && PricesOk(lv)
    {
    }

    lemma EmptyRep(nodes: seq<Node>)
      requires Valid() && count == 0 && bestIdx == NULL && priceMap.contents == map[]
      ensures Rep(Snapshot(), nodes, EmptyLadder())
    {
      hide PriceHashMap.Valid; hide LevelRep;
    }

    // The active levels are no more than the levels handed out.
    lemma IndexSize(lv: Levels)
      requires Indexed(lv)
      ensures |lv.index| <= lv.used
    {
      assert forall p, p' | p in lv.index && p' in lv.index && lv.index[p] == lv.index[p'] :: p == p';
      InjectionBound(lv.index, lv.used);
    }

    lemma CreatedIndexed(lv: Levels, price: int)
      requires Indexed(lv) && PricesOk(lv) && price !in lv.index && lv.used < MAX_PRICE_LEVELS && Restable(price)
      ensures Indexed(Created(lv, price)) && PricesOk(Created(lv, price))
    {
    }

    method FindOrCreate(price: int) returns (idx: nat)
      requires Valid() && Restable(price) && (price in priceMap.contents || count >= MAX_PRICE_LEVELS || Headroom())
      modifies Repr
      ensures Valid()
      ensures var lv := old(Snapshot());
        if price !in lv.index && lv.used >= MAX_PRICE_LEVELS then idx == NULL && Snapshot() == lv
        else Snapshot() == LevelsWith(lv, price) && idx == Snapshot().index[price]
    {
      hide PriceHashMap.Valid; hide PriceHashMap.Headroom;
      var existing := priceMap.Find(price);
      if existing != NULL_INDEX && active[existing] {
        return existing;
      }
      if count >= MAX_PRICE_LEVELS {
        return NULL_INDEX;
      }
      idx := count;
      Create(price);
    }

    method Create(price: int)
      requires Valid() && Restable(price) && Headroom() && price !in priceMap.contents && count < MAX_PRICE_LEVELS
      modifies Repr
      ensures Valid() && Snapshot() == Created(old(Snapshot()), price)
    {
      hide PriceHashMap.Valid; hide PriceHashMap.Headroom; hide Indexed;
      ghost var lv := Snapshot();
      IndexSize(lv);
      CreatedIndexed(lv, price);
      priceMap.Insert(price, count);
      prices[count] := price;
      totalQty[count] := 0;
      orderCount[count] := 0;
      head[count] := NULL_INDEX;
      tail[count] := NULL_INDEX;
      active[count] := true;
      count := count + 1;
      assert Snapshot() == Created(lv, price);
    }

    // The linear scan over the levels, from a start no price is worse than.
    method Rebuild(side: Side) returns (best: nat)
      requires Valid()
      modifies Repr
      ensures Valid() && Snapshot() == old(Snapshot()).(best := best) && IsScan(side, Snapshot(), best)
      ensures Headroom() == old(Headroom())
    {
      hide PriceHashMap.Valid; hide Indexed;
      best := NULL_INDEX;
      var bestPrice := if side == Buy then INT64_MIN else INT64_MAX;
      var i := 0;
      while i < count
        invariant i <= count
        invariant best == NULL ==> bestPrice == if side == Buy then INT64_MIN else INT64_MAX
        invariant best != NULL ==> best < i && active[best] && totalQty[best] > 0 && bestPrice == prices[best]
        invariant forall j | 0 <= j < i && active[j] && totalQty[j] > 0 ::
          best != NULL && !Better(side, prices[j], bestPrice)
      {
        if active[i] && totalQty[i] > 0 && Better(side, prices[i], bestPrice) {
          bestPrice := prices[i];
          best := i;
        } else if active[i] && totalQty[i] > 0 {
          assert Restable(Snapshot().prices[i]);
        }
        i := i + 1;
      }
      ghost var lv := Snapshot();
      bestIdx := best;
      IndexedBest(lv, best);
      ScanIs(side, Snapshot(), best);
    }

    lemma IndexedBest(lv: Levels, best: nat)
      requires Indexed(lv)
      ensures Indexed(lv.(best := best))
    {
    }

    lemma ScanIs(side: Side, lv: Levels, r: nat)
      requires Shape(lv)
      requires r != NULL ==> r < lv.used && lv.active[r] && lv.total[r] > 0
      requires forall j | 0 <= j < lv.used && lv.active[j] && lv.total[j] > 0 ::
        r != NULL && !Better(side, lv.prices[j], lv.prices[r])
      ensures IsScan(side, lv, r)
    {
    }

    method FindBest(side: Side) returns (best: nat)
      requires Valid() && (bestIdx == NULL || bestIdx < count)
      modifies Repr
      ensures Valid() && Snapshot() == old(Snapshot()).(best := best)
      ensures Headroom() == old(Headroom())
      ensures if old(Offered(Snapshot(), bestIdx)) then best == old(bestIdx) else IsScan(side, Snapshot(), best)
    {
      hide PriceHashMap.Valid; hide Indexed; hide IsScan;
      if bestIdx != NULL_INDEX && active[bestIdx] && totalQty[bestIdx] > 0 {
        return bestIdx;
      }
      best := Rebuild(side);
    }

    method UpdateBest(side: Side, idx: nat)
      requires Valid() && idx < count && (bestIdx == NULL || bestIdx < count)
      modifies Repr
      ensures Valid() && Headroom() == old(Headroom())
      ensures Snapshot() == BestUpdated(side, old(Snapshot()), idx)
    {
      hide PriceHashMap.Valid; hide Indexed;
      ghost var lv := Snapshot();
      if bestIdx == NULL_INDEX || Better(side, prices[idx], prices[bestIdx]) {
        bestIdx := idx;
      }
      IndexedBest(lv, bestIdx);
    }

    method Deactivate(idx: nat)
      requires Valid() && idx < count && active[idx]
      modifies Repr
      ensures Valid() && Snapshot() == Deactivated(old(Snapshot()), idx)
      ensures old(Headroom()) ==> Headroom()
    {
      hide PriceHashMap.Valid; hide Indexed; hide RobinHood.Within;
      ghost var lv := Snapshot();
      DeactivatedIndexed(lv, idx);
      priceMap.Remove(prices[idx]);
      active[idx] := false;
      if bestIdx == idx {
        bestIdx := NULL_INDEX;
      }
      assert Snapshot() == Deactivated(lv, idx);
    }

    lemma DeactivatedIndexed(lv: Levels, idx: nat)
      requires Indexed(lv) && PricesOk(lv) && idx < lv.used && lv.active[idx]
      ensures lv.prices[idx] != 0 && lv.prices[idx] in lv.index
      ensures Indexed(Deactivated(lv, idx)) && PricesOk(Deactivated(lv, idx))
    {
    }

    // ----- The list ends and totals of a level -----

    ghost predicate LevelAt(idx: nat)
      reads this
    {
      idx < count && idx < MAX_PRICE_LEVELS
    }

    // Slot s with qty units becomes the new tail of level idx.
    method Append(idx: nat, s: nat, qty: int)
      requires Valid() && LevelAt(idx)
      modifies Repr
      ensures Valid() && Snapshot() == Appended(old(Snapshot()), idx, s, qty)
      ensures Headroom() == old(Headroom())
    {
      hide PriceHashMap.Valid; hide PriceHashMap.Headroom;
      if tail[idx] == NULL_INDEX {
        head[idx] := s;
      }
      tail[idx] := s;
      totalQty[idx] := totalQty[idx] + qty;
      orderCount[idx] := orderCount[idx] + 1;
    }

    // An entry of level idx with these links and qty units leaves its list.
    method Unlink(idx: nat, n: Node, qty: int)
      requires Valid() && LevelAt(idx) && orderCount[idx] > 0
      modifies Repr
      ensures Valid() && Snapshot() == Unlinked(old(Snapshot()), idx, n, qty)
      ensures Headroom() == old(Headroom())
    {
      hide PriceHashMap.Valid; hide PriceHashMap.Headroom;
      if n.prev == NULL_INDEX {
        head[idx] := n.next;
      }
      if n.next == NULL_INDEX {
        tail[idx] := n.prev;
      }
      totalQty[idx] := totalQty[idx] - qty;
      orderCount[idx] := orderCount[idx] - 1;
    }

    method Reduce(idx: nat, qty: int)
      requires Valid() && LevelAt(idx)
      modifies Repr
      ensures Valid()
      ensures Snapshot() == old(Snapshot()).(total := old(Snapshot()).total[idx := old(Snapshot()).total[idx] - qty])
      ensures Headroom() == old(Headroom())
    {
      hide PriceHashMap.Valid; hide PriceHashMap.Headroom;
      totalQty[idx] := totalQty[idx] - qty;
    }
  }
}
