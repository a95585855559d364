/**
 The limit order book over its arrays: order pool with a free stack, two pools
 of price levels, intrusive lists.  Each operation is proved equal to the
 operation of the same name on book values.
 */
module Orderbook {
  import opened SortedBook
  import opened LevelBook
  import opened BookTheory
  import opened BookRefinement
  import opened BookLinks
  import opened BookSnapshots
  import opened LevelPool
  import opened OrderPools
  import PriceMap

  // One entry of the caller's fill buffer.
  datatype MatchResult = MatchResult(maker: nat, taker: nat, price: int, qty: int)

  ghost function Results(taker: nat, fills: seq<Fill<nat>>): (r: seq<MatchResult>) {
    seq(|fills|, i requires 0 <= i < |fills| => MatchResult(fills[i].id, taker, fills[i].price, fills[i].qty))
  }

  class OrderBook {
    const bids: PriceLevelPool
    const asks: PriceLevelPool
    const pool: OrderPool
    var nextId: nat
    ghost var book: Book

    ghost function Repr(): (r: set<object>) {
      {this} + bids.Repr + asks.Repr + pool.Repr
    }

    // The parts share no memory.
    ghost predicate Layout() {
      && bids.Repr !! asks.Repr && bids.Repr !! pool.Repr && asks.Repr !! pool.Repr
      && this !in bids.Repr && this !in asks.Repr && this !in pool.Repr
      && bids.Layout() && asks.Layout() && pool.Layout()
    }

    function LevelsOf(side: Side): (l: PriceLevelPool) {
      if side == Buy then bids else asks
    }

    ghost predicate Parts()
      reads Repr()
    {
      Layout() && pool.Valid() && bids.Valid() && asks.Valid()
    }

    ghost predicate Represents(b: Book)
      reads Repr()
    {
      && Layout() && pool.Valid()
      && BookRep(Buy, bids.Snapshot(), asks.Snapshot(), pool.Nodes(), pool.Free(), nextId, b)
      && Parts()
    }

    ghost predicate Valid()
      reads Repr()
    {
      Represents(book) && Inv(book)
    }

    constructor ()
      ensures Valid() && IsInitial(book) && fresh(Repr()) && Room(Buy) && Room(Sell)
    {
      hide PriceLevelPool.Valid; hide PriceLevelPool.Headroom; hide PriceLevelPool.Layout; hide Inv; hide IsInitial;
      hide Represents; hide StartBook;
      var b := new PriceLevelPool();
      b.ValidLayout();
      var a := new PriceLevelPool();
      a.ValidLayout();
      var p := new OrderPool();
      bids, asks, pool, nextId := b, a, p, 1;
      new;
      book := StartBook();
      StartsEmpty();
    }

    ghost predicate Empty(l: PriceLevelPool)
      reads l.Repr
    {
      l.Layout() && l.Valid() && l.count == 0 && l.bestIdx == NULL && l.priceMap.contents == map[]
    }

    ghost function StartBook(): (b: Book)
      requires pool.Valid()
      reads pool.Repr
    {
      Book(Orders(pool.Nodes()), pool.Free(), EmptyLadder(), EmptyLadder(), 1)
    }

    lemma StartsEmpty()
      requires Layout() && pool.Valid() && Empty(bids) && Empty(asks) && nextId == 1 && book == StartBook()
      requires forall i | 0 <= i < POOL_CAPACITY :: pool.Nodes()[i] == Node(Order(0, 0, 0, 0, 0, Buy), 0, 0, 0)
      requires |pool.Free()| == POOL_CAPACITY
        && forall i | 0 <= i < POOL_CAPACITY :: pool.Free()[i] == POOL_CAPACITY - 1 - i
      ensures Represents(book) && Inv(book) && IsInitial(book)
    {
      hide PriceLevelPool.Valid; hide PriceLevelPool.Layout; hide Inv; hide Clean; hide AllFresh; hide Rep;
      bids.EmptyRep(pool.Nodes());
      asks.EmptyRep(pool.Nodes());
      InitialInv(book);
    }

    // Another level can be added to this side without a probe distance
    // outgrowing its byte.
    ghost predicate Room(side: Side)
      reads Repr()
    {
      LevelsOf(side).Layout() && LevelsOf(side).Headroom()
    }

    // An order at this price either finds no free slot, or its price is one the
    // level index can hold and needs no new level or finds room for one.
    ghost predicate CanRest(side: Side, price: int)
      reads Repr()
    {
      book.free != [] ==> Restable(price) && (NeedsLevel(LadderOf(book, side), price) ==> Room(side))
    }

    // A side with fewer than 254 price levels has room for another.
    lemma FewLevels(side: Side)
      requires Valid() && |LadderOf(book, side).queues| < PriceMap.MAX_DISTANCE
      ensures Room(side)
    {
      hide PriceLevelPool.Valid; hide PriceLevelPool.Headroom; hide PriceLevelPool.Layout; hide LevelRep; hide Indexed;
      hide Inv;
      var levels := LevelsOf(side);
      levels.ValidLayout();
      LevelPrices(side);
      levels.FewActive();
    }

    lemma LevelPrices(side: Side)
      requires Represents(book)
      ensures LevelsOf(side).Layout() && |LevelsOf(side).priceMap.contents| == |LadderOf(book, side).queues|
    {
      hide PriceLevelPool.Valid; hide LevelRep; hide Indexed;
      var levels := LevelsOf(side);
      assert levels.Snapshot().index == levels.priceMap.contents;
      assert levels.priceMap.contents.Keys == LadderOf(book, side).queues.Keys;
      assert |levels.priceMap.contents| == |levels.priceMap.contents.Keys|;
      assert |LadderOf(book, side).queues| == |LadderOf(book, side).queues.Keys|;
    }

    // The arrays are exactly these snapshots.
    ghost predicate Holds(side: Side, lv: Levels, ov: Levels, nodes: seq<Node>, free: seq<nat>, id: nat)
      reads Repr()
    {
      && Layout() && pool.Valid()
      && LevelsOf(side).Snapshot() == lv && LevelsOf(Opposite(side)).Snapshot() == ov
      && pool.Nodes() == nodes && pool.Free() == free && nextId == id
      && Parts()
    }

    // ----- Resting an order -----

    // Links the order in slot oidx to the end of level lidx.
    method LinkNew(side: Side, lidx: nat, oidx: nat, qty: int,
                   ghost lv: Levels, ghost ov: Levels, ghost nodes: seq<Node>, ghost free: seq<nat>, ghost id: nat)
      requires Holds(side, lv, ov, nodes, free, id) && CanLink(lv, lidx, nodes, oidx)
      modifies LevelsOf(side).Repr, pool.Repr
      ensures Holds(side, LinkedLevels(side, lv, lidx, nodes, oidx, qty), ov,
                    LinkedNodes(lv, lidx, nodes, oidx), free, id)
      ensures LevelsOf(side).Headroom() == old(LevelsOf(side).Headroom())
    {
      hide PriceLevelPool.Valid; hide PriceLevelPool.Headroom; hide AppendNodes; hide BestUpdated;
      var levels := LevelsOf(side);
      pool.LinkBehind(levels.tail[lidx], oidx, lidx);
      levels.Append(lidx, oidx, qty);
      levels.UpdateBest(side, lidx);
    }

    // Takes a slot from the free stack and writes the order into it.
    method TakeSlot(o: Order, ghost lv: Levels, ghost ov: Levels, ghost nodes: seq<Node>, ghost free: seq<nat>,
                    ghost id: nat)
      returns (oidx: nat)
      requires Holds(o.side, lv, ov, nodes, free, id)
      requires free != [] ==> free[|free| - 1] < POOL_CAPACITY
      modifies this`nextId, pool.Repr
      ensures if free == [] then oidx == NULL && Holds(o.side, lv, ov, nodes, free, id)
              else oidx == free[|free| - 1] && oidx < |nodes| &&
                   Holds(o.side, lv, ov, nodes[oidx := NewNode(nodes, oidx, o)], free[..|free| - 1], id + 1)
    {
      hide PriceLevelPool.Valid; hide PriceLevelPool.Layout; hide PriceLevelPool.Snapshot;
      oidx := pool.Alloc();
      if oidx != NULL {
        pool.Put(oidx, Node(o, NULL, NULL, pool.nodes[oidx].level));
        nextId := nextId + 1;
      }
    }

    method LevelFor(side: Side, price: int, ghost lv: Levels, ghost ov: Levels, ghost nodes: seq<Node>,
                    ghost free: seq<nat>, ghost id: nat)
      returns (lidx: nat)
      requires Holds(side, lv, ov, nodes, free, id) && Shape(lv)
      requires Restable(price) && (price in lv.index || lv.used >= MAX_PRICE_LEVELS || LevelsOf(side).Headroom())
      modifies LevelsOf(side).Repr
      ensures if Exhausted(lv, price)
              then lidx == NULL && Holds(side, lv, ov, nodes, free, id)
              else price in LevelsWith(lv, price).index && lidx == LevelsWith(lv, price).index[price]
                   && Holds(side, LevelsWith(lv, price), ov, nodes, free, id)
    {
      hide PriceLevelPool.Valid; hide PriceLevelPool.Headroom;
      lidx := LevelsOf(side).FindOrCreate(price);
    }

    lemma ToHolds(side: Side)
      requires Represents(book)
      ensures Layout() && pool.Valid()
      ensures var lv, ov, nodes := LevelsOf(side).Snapshot(), LevelsOf(Opposite(side)).Snapshot(), pool.Nodes();
        Holds(side, lv, ov, nodes, book.free, nextId) && BookRep(side, lv, ov, nodes, book.free, nextId, book)
      ensures nextId == book.nextId && |pool.Nodes()| == |book.pool| == POOL_CAPACITY
    {
      hide PriceLevelPool.Valid; hide Rep;
    }

    lemma PoolSize()
      requires Valid()
      ensures |book.pool| == POOL_CAPACITY
    {
      hide Represents; hide Inv;
      ToHolds(Buy);
    }

    // Records the book value that the arrays stand for.
    ghost method Commit(side: Side, lv: Levels, ov: Levels, nodes: seq<Node>, free: seq<nat>, id: nat, b: Book)
      requires Holds(side, lv, ov, nodes, free, id) && BookRep(side, lv, ov, nodes, free, id, b) && Inv(b)
      modifies this`book
      ensures Valid() && book == b && Holds(side, lv, ov, nodes, free, id)
    {
      hide PriceLevelPool.Valid; hide Rep; hide Inv;
      book := b;
    }

    method FreeSlot(side: Side, oidx: nat,
                    ghost lv: Levels, ghost ov: Levels, ghost nodes: seq<Node>, ghost free: seq<nat>, ghost id: nat)
      requires Holds(side, lv, ov, nodes, free, id) && |free| < POOL_CAPACITY
      modifies pool.Repr
      ensures Holds(side, lv, ov, nodes, free + [oidx], id)
    {
      hide PriceLevelPool.Valid;
      pool.Release(oidx);
    }

    // Finds the level and links the order there; without one, frees the slot again.
    method PlaceNew(side: Side, price: int, qty: int, oidx: nat,
                    ghost lv: Levels, ghost ov: Levels, ghost nodes: seq<Node>, ghost free: seq<nat>, ghost id: nat)
      returns (placed: bool)
      requires Holds(side, lv, ov, nodes, free, id) && Shape(lv) && |free| < POOL_CAPACITY
      requires Restable(price) && (price in lv.index || lv.used >= MAX_PRICE_LEVELS || LevelsOf(side).Headroom())
      requires !Exhausted(lv, price) ==>
        var lv1 := LevelsWith(lv, price);
        price in lv1.index && lv1.index[price] < MAX_PRICE_LEVELS && CanLink(lv1, lv1.index[price], nodes, oidx)
      modifies LevelsOf(side).Repr, pool.Repr
      ensures placed <==> !Exhausted(lv, price)
      ensures !placed ==> Holds(side, lv, ov, nodes, free + [oidx], id)
      ensures placed ==>
        var lv1 := LevelsWith(lv, price);
        Holds(side, LinkedLevels(side, lv1, lv1.index[price], nodes, oidx, qty), ov,
              LinkedNodes(lv1, lv1.index[price], nodes, oidx), free, id)
    {
      hide PriceLevelPool.Valid; hide PriceLevelPool.Headroom; hide PriceLevelPool.Layout; hide Holds; hide LinkedNodes;
      hide LinkedLevels; hide LevelsWith; hide Shape;
      var lidx := LevelFor(side, price, lv, ov, nodes, free, id);
      if lidx == NULL {
        FreeSlot(side, oidx, lv, ov, nodes, free, id);
        return false;
      }
      LinkNew(side, lidx, oidx, qty, LevelsWith(lv, price), ov, nodes, free, id);
      return true;
    }

    // Returns the order's slot, or NULL when no slot or no level is left.
    method AddOrder(owner: nat, clientId: nat, side: Side, price: int, qty: int) returns (oidx: nat)
      requires Valid() && qty > 0 && CanRest(side, price)
      modifies this, LevelsOf(side).Repr, pool.Repr
      ensures Valid() && book == LevelBook.AddOrder(old(book), owner, clientId, side, price, qty).book
      ensures LevelBook.AddOrder(old(book), owner, clientId, side, price, qty).slot ==
        if oidx == NULL then None else Some(oidx)
    {
      hide PriceLevelPool.Valid; hide PriceLevelPool.Headroom; hide PriceLevelPool.Layout; hide Holds; hide Represents;
      hide BookRep; hide Rep; hide Inv; hide LevelBook.AddOrder; hide LinkedNodes; hide LinkedLevels; hide LevelsWith;
      hide Shape; hide CanLink;
      ToHolds(side);
      ghost var b := book;
      ghost var lv, ov, nodes := LevelsOf(side).Snapshot(), LevelsOf(Opposite(side)).Snapshot(), pool.Nodes();
      BookRepIndex(side, lv, ov, nodes, b);
      AddPlan(side, lv, ov, nodes, b, owner, clientId, price, qty);
      var o := Order(nextId, clientId, owner, price, qty, side);
      ghost var b' := LevelBook.AddOrder(b, owner, clientId, side, price, qty).book;
      oidx := TakeSlot(o, lv, ov, nodes, b.free, b.nextId);
      if oidx == NULL {
        Commit(side, lv, ov, nodes, b.free, b.nextId, b');
        return;
      }
      ghost var nodes1, free1 := nodes[oidx := NewNode(nodes, oidx, o)], b.free[..|b.free| - 1];
      var placed := PlaceNew(side, price, qty, oidx, lv, ov, nodes1, free1, b.nextId + 1);
      if placed {
        ghost var lv1 := LevelsWith(lv, price);
        ghost var lidx := lv1.index[price];
        Commit(side, LinkedLevels(side, lv1, lidx, nodes1, oidx, qty), ov, LinkedNodes(lv1, lidx, nodes1, oidx), free1,
          b.nextId + 1, b');
      } else {
        assert free1 + [oidx] == b.free;
        Commit(side, lv, ov, nodes1, b.free, b.nextId + 1, b');
        oidx := NULL;
      }
    }

    // ----- Cancelling -----

    // Takes slot s out of the list q of its level.
    method UnlinkSlot(side: Side, s: nat, qty: int, ghost q: seq<nat>, ghost k: nat,
                      ghost lv: Levels, ghost ov: Levels, ghost nodes: seq<Node>, ghost free: seq<nat>, ghost id: nat)
      requires Holds(side, lv, ov, nodes, free, id) && Shape(lv) && InNodes(nodes, q) && k < |q| && q[k] == s
      requires nodes[s].level < lv.used && lv.count[nodes[s].level] > 0 && LinkOk(nodes, nodes[s].level, q, k)
      modifies LevelsOf(side).Repr, pool.Repr
      ensures Holds(side, Unlinked(lv, nodes[s].level, nodes[s], qty), ov, UnlinkNodes(nodes, q, k), free, id)
      ensures LevelsOf(side).Headroom() == old(LevelsOf(side).Headroom())
    {
      hide PriceLevelPool.Valid; hide PriceLevelPool.Headroom; hide PriceLevelPool.Layout; hide UnlinkNodes;
      hide Unlinked;
      var n := pool.nodes[s];
      pool.Unlink(s, q, k);
      LevelsOf(side).Unlink(n.level, n, qty);
    }

    // Deactivates the level if no order is left on it.
    method DropIfEmpty(side: Side, idx: nat,
                       ghost lv: Levels, ghost ov: Levels, ghost nodes: seq<Node>, ghost free: seq<nat>, ghost id: nat)
      requires Holds(side, lv, ov, nodes, free, id) && Shape(lv) && idx < lv.used
      requires lv.count[idx] == 0 ==> lv.active[idx]
      modifies LevelsOf(side).Repr
      ensures Holds(side, DroppedIfEmpty(lv, idx), ov, nodes, free, id)
      ensures old(LevelsOf(side).Headroom()) ==> LevelsOf(side).Headroom()
    {
      hide PriceLevelPool.Valid; hide PriceLevelPool.Headroom; hide Deactivated;
      if LevelsOf(side).orderCount[idx] == 0 {
        LevelsOf(side).Deactivate(idx);
      }
    }

    method ZeroSlot(side: Side, s: nat,
                    ghost lv: Levels, ghost ov: Levels, ghost nodes: seq<Node>, ghost free: seq<nat>, ghost id: nat)
      requires Holds(side, lv, ov, nodes, free, id) && s < |nodes|
      modifies pool.Repr
      ensures Holds(side, lv, ov, Zeroed(nodes, s), free, id)
    {
      hide PriceLevelPool.Valid; hide PriceLevelPool.Layout; hide PriceLevelPool.Snapshot;
      pool.Put(s, pool.nodes[s].(order := pool.nodes[s].order.(remaining := 0)));
    }

    lemma NodeAt(s: nat)
      requires Represents(book) && s < POOL_CAPACITY
      ensures Layout() && pool.nodes.Length == POOL_CAPACITY == |book.pool| && pool.nodes[s].order == book.pool[s]
    {
      hide PriceLevelPool.Valid; hide Rep;
    }

    // The array steps of a cancel, on the plan worked out for slot s.
    method RemoveSlot(side: Side, s: nat, ghost q: seq<nat>, ghost k: nat,
                      ghost lv: Levels, ghost ov: Levels, ghost nodes: seq<Node>, ghost free: seq<nat>, ghost id: nat)
      requires Holds(side, lv, ov, nodes, free, id) && Shape(lv) && InNodes(nodes, q) && k < |q| && q[k] == s
      requires nodes[s].level < lv.used && lv.count[nodes[s].level] > 0 && LinkOk(nodes, nodes[s].level, q, k)
      requires s < |UnlinkNodes(nodes, q, k)| && |free| < POOL_CAPACITY
      requires var lv1 := Unlinked(lv, nodes[s].level, nodes[s], nodes[s].order.remaining);
        Shape(lv1) && lv1.used == lv.used && (lv1.count[nodes[s].level] == 0 ==> lv1.active[nodes[s].level])
      modifies LevelsOf(side).Repr, pool.Repr
      ensures Holds(side, DroppedIfEmpty(Unlinked(lv, nodes[s].level, nodes[s], nodes[s].order.remaining),
        nodes[s].level),
                    ov, Zeroed(UnlinkNodes(nodes, q, k), s), free + [s], id)
      ensures old(LevelsOf(side).Headroom()) ==> LevelsOf(side).Headroom()
    {
      hide PriceLevelPool.Valid; hide PriceLevelPool.Headroom; hide PriceLevelPool.Layout; hide UnlinkNodes;
      hide Unlinked; hide Zeroed; hide DroppedIfEmpty; hide PriceLevelPool.Snapshot;
      var n := pool.nodes[s];
      ghost var lv1, nodes1 := Unlinked(lv, n.level, n, n.order.remaining), UnlinkNodes(nodes, q, k);
      UnlinkSlot(side, s, n.order.remaining, q, k, lv, ov, nodes, free, id);
      DropIfEmpty(side, n.level, lv1, ov, nodes1, free, id);
      ZeroSlot(side, s, DroppedIfEmpty(lv1, n.level), ov, nodes1, free, id);
      FreeSlot(side, s, DroppedIfEmpty(lv1, n.level), ov, Zeroed(nodes1, s), free, id);
    }

    // Refused for an index out of range or an order with nothing left; else the
    // slot must hold a resting order.
    method CancelOrder(idx: nat) returns (ok: bool)
      requires Valid() && (idx < |book.pool| && book.pool[idx].remaining > 0 ==> Live(book, idx))
      modifies Repr()
      ensures Valid() && (book, ok) == LevelBook.CancelOrder(old(book), idx)
      ensures old(bids.Headroom()) ==> bids.Headroom()
      ensures old(asks.Headroom()) ==> asks.Headroom()
    {
      hide PriceLevelPool.Valid; hide PriceLevelPool.Headroom; hide PriceLevelPool.Layout; hide Holds; hide Represents;
      hide BookRep; hide Rep; hide Inv; hide Live; hide UnlinkNodes; hide Unlinked; hide Zeroed; hide DroppedIfEmpty;
      hide Shape; hide LinkOk;
      ToHolds(Buy);
      if idx >= POOL_CAPACITY {
        return false;
      }
      NodeAt(idx);
      if pool.nodes[idx].order.remaining <= 0 {
        return false;
      }
      var side := pool.nodes[idx].order.side;
      ToHolds(side);
      ghost var b := book;
      ghost var lv, ov, nodes := LevelsOf(side).Snapshot(), LevelsOf(Opposite(side)).Snapshot(), pool.Nodes();
      ghost var q, k := CancelPlan(side, lv, ov, nodes, b, idx);
      ghost var lidx := nodes[idx].level;
      UnlinkedIndex(lv, lidx, nodes[idx]);
      RemoveSlot(side, idx, q, k, lv, ov, nodes, b.free, b.nextId);
      Commit(side, DroppedIfEmpty(Unlinked(lv, lidx, nodes[idx], nodes[idx].order.remaining), lidx), ov,
             Zeroed(UnlinkNodes(nodes, q, k), idx), b.free + [idx], b.nextId, LevelBook.CancelOrder(b, idx).0);
      return true;
    }

    // ----- Matching -----

    // Takes f units off the order in slot oidx and off its level's total.
    method HitSlot(side: Side, idx: nat, oidx: nat, f: int,
                   ghost lv: Levels, ghost ov: Levels, ghost nodes: seq<Node>, ghost free: seq<nat>, ghost id: nat)
      returns (left: int)
      requires Holds(side, lv, ov, nodes, free, id) && Shape(lv) && idx < lv.used && oidx < |nodes|
      modifies LevelsOf(side).Repr, pool.Repr
      ensures Holds(side, lv.(total := lv.total[idx := lv.total[idx] - f]), ov, HitNodes(nodes, oidx, f), free, id)
      ensures left == nodes[oidx].order.remaining - f
      ensures LevelsOf(side).Headroom() == old(LevelsOf(side).Headroom())
    {
      hide PriceLevelPool.Valid; hide PriceLevelPool.Headroom; hide PriceLevelPool.Layout;
      var n := pool.nodes[oidx];
      left := n.order.remaining - f;
      pool.Put(oidx, n.(order := n.order.(remaining := left)));
      LevelsOf(side).Reduce(idx, f);
    }

    // Fills f units of the first order of level idx; a used-up order is
    // unlinked and its slot freed.
    method FillHead(side: Side, idx: nat, oidx: nat, f: int, ghost c: Cursor, ghost ov: Levels, ghost id: nat)
      requires Holds(side, c.lv, ov, c.nodes, c.free, id) && ReadyToFill(c, idx)
      requires oidx == c.queue[0] && |c.free| < POOL_CAPACITY
      modifies LevelsOf(side).Repr, pool.Repr
      ensures var c' := Advance(c, idx, f); Holds(side, c'.lv, ov, c'.nodes, c'.free, id)
      ensures LevelsOf(side).Headroom() == old(LevelsOf(side).Headroom())
    {
      hide PriceLevelPool.Valid; hide PriceLevelPool.Headroom; hide UnlinkNodes; hide Unlinked; hide HitNodes;
      hide LinkOk; hide InNodes; hide PriceLevelPool.Snapshot;
      var left := HitSlot(side, idx, oidx, f, c.lv, ov, c.nodes, c.free, id);
      LinkHit(c.nodes, idx, c.queue, f);
      if left == 0 {
        ghost var lv, nodes := c.lv.(total := c.lv.total[idx := c.lv.total[idx] - f]), HitNodes(c.nodes, oidx, f);
        LinkLevel(nodes, idx, c.queue, 0);
        UnlinkSlot(side, oidx, 0, c.queue, 0, lv, ov, nodes, c.free, id);
        FreeSlot(side, oidx, Unlinked(lv, idx, nodes[oidx], 0), ov, UnlinkNodes(nodes, c.queue, 0), c.free, id);
      }
    }

    lemma LinkLevel(nodes: seq<Node>, idx: nat, q: seq<nat>, k: nat)
      requires k < |q| && LinkOk(nodes, idx, q, k)
      ensures q[k] < |nodes| && nodes[q[k]].level == idx
    {
    }

    method HeadOf(side: Side, idx: nat,
                  ghost lv: Levels, ghost ov: Levels, ghost nodes: seq<Node>, ghost free: seq<nat>, ghost id: nat)
      returns (oidx: nat)
      requires Holds(side, lv, ov, nodes, free, id) && Shape(lv) && idx < lv.used
      ensures oidx == lv.head[idx]
    {
      hide PriceLevelPool.Valid;
      oidx := LevelsOf(side).head[idx];
    }

    // The link, the fill quantity and the price of the order in slot oidx.
    method NextFill(side: Side, oidx: nat, left: int,
                    ghost lv: Levels, ghost ov: Levels, ghost nodes: seq<Node>, ghost free: seq<nat>, ghost id: nat)
      returns (next: nat, f: int, price: int)
      requires Holds(side, lv, ov, nodes, free, id) && oidx < |nodes|
      ensures next == nodes[oidx].next && f == Min(left, nodes[oidx].order.remaining)
        && price == nodes[oidx].order.price
    {
      hide PriceLevelPool.Valid;
      next := pool.nodes[oidx].next;
      f := Min(left, pool.nodes[oidx].order.remaining);
      price := pool.nodes[oidx].order.price;
    }

    // Fills from level idx in list order until the order is used up, the list
    // ends or the buffer is full.
    method WalkLevel(side: Side, idx: nat, qty: int, taker: nat, outFills: array<MatchResult>, n0: nat, max: nat,
                     ghost c0: Cursor, ghost ov: Levels, ghost l: Ladder, ghost lo: Ladder, ghost p: int, ghost id: nat)
      returns (left: int, n: nat, ghost c: Cursor)
      requires Holds(side, c0.lv, ov, c0.nodes, c0.free, id) && Walking(c0, ov, side, l, lo, p) && c0.fills == []
      requires p in c0.lv.index && c0.lv.index[p] == idx
      requires Layout() && outFills !in Repr() && n0 <= max <= outFills.Length
      modifies LevelsOf(side).Repr, pool.Repr, outFills
      ensures Holds(side, c.lv, ov, c.nodes, c.free, id) && Walking(c, ov, side, l, lo, p)
      ensures p in c.lv.index && c.lv.index[p] == idx
      ensures Finish(c0, qty, max - n0) == Walked(Orders(c.nodes), c.queue, c.free, c.fills, left)
      ensures n == n0 + |c.fills| <= max
      ensures outFills[..n] == old(outFills[..n0]) + Results(taker, c.fills)
      ensures LevelsOf(side).Headroom() == old(LevelsOf(side).Headroom())
    {
      hide PriceLevelPool.Valid; hide PriceLevelPool.Headroom; hide PriceLevelPool.Layout; hide Walking; hide Finish;
      hide Advance; hide Holds;
      left, n, c := qty, n0, c0;
      WalkingReady(c, ov, side, l, lo, p);
      var oidx := HeadOf(side, idx, c.lv, ov, c.nodes, c.free, id);
      while oidx != NULL && left > 0 && n < max
        invariant Holds(side, c.lv, ov, c.nodes, c.free, id) && Walking(c, ov, side, l, lo, p)
        invariant p in c.lv.index && c.lv.index[p] == idx
        invariant left > 0 ==> oidx == First(c.queue)
        invariant n == n0 + |c.fills| <= max
        invariant Finish(c, left, max - n) == Finish(c0, qty, max - n0)
        invariant outFills[..n] == old(outFills[..n0]) + Results(taker, c.fills)
        invariant LevelsOf(side).Headroom() == old(LevelsOf(side).Headroom())
        decreases max - n
      {
        FillPlan(c, ov, side, l, lo, p, idx, left, max - n);
        var next, f, price := NextFill(side, oidx, left, c.lv, ov, c.nodes, c.free, id);
        outFills[n] := MatchResult(oidx, taker, price, f);
        n := n + 1;
        left := left - f;
        FillHead(side, idx, oidx, f, c, ov, id);
        c := Advance(c, idx, f);
        oidx := next;
      }
      WalkOver(c, ov, side, l, lo, p, left, max - n);
    }

    // Level idx of the side is the one of price p.
    ghost predicate LevelIs(side: Side, idx: nat, p: int)
      reads Repr()
    {
      Layout() && p in LevelsOf(side).Snapshot().index && LevelsOf(side).Snapshot().index[p] == idx
    }

    method AskBest(side: Side, ghost lv: Levels, ghost ov: Levels, ghost nodes: seq<Node>, ghost free: seq<nat>,
                   ghost id: nat)
      returns (r: nat, price: int)
      requires Holds(side, lv, ov, nodes, free, id) && Shape(lv) && (lv.best == NULL || lv.best < lv.used)
      modifies LevelsOf(side).Repr
      ensures Holds(side, lv.(best := r), ov, nodes, free, id)
      ensures if Offered(lv, lv.best) then r == lv.best else IsScan(side, lv.(best := r), r)
      ensures r == NULL ==> price == 0
      ensures r < lv.used ==> price == lv.prices[r]
      ensures LevelsOf(side).Headroom() == old(LevelsOf(side).Headroom())
    {
      hide PriceLevelPool.Valid; hide PriceLevelPool.Headroom; hide IsScan;
      r := LevelsOf(side).FindBest(side);
      price := if r < LevelsOf(side).count then LevelsOf(side).prices[r] else 0;
    }

    lemma HoldsIndex(side: Side, lv: Levels, ov: Levels, nodes: seq<Node>, free: seq<nat>, id: nat, p: int)
      requires Holds(side, lv, ov, nodes, free, id) && p in lv.index
      ensures LevelIs(side, lv.index[p], p)
    {
      hide PriceLevelPool.Valid; hide PriceLevelPool.Layout;
    }

    // Asks for the best level of a side and its price (0 if there is none),
    // filling the cache.
    method QueryBest(side: Side) returns (r: nat, price: int)
      requires Valid()
      modifies this`book, LevelsOf(side).Repr
      ensures Valid() && book == Queried(old(book), side)
      ensures match FindBest(side, LadderOf(old(book), side))
        case None => r == NULL && price == 0
        case Some(p) => r != NULL && price == p && p in LadderOf(book, side).queues && LevelIs(side, r, p)
      ensures LevelsOf(side).Headroom() == old(LevelsOf(side).Headroom())
    {
      hide PriceLevelPool.Valid; hide PriceLevelPool.Headroom; hide Rep; hide Inv; hide IsScan; hide Offered;
      hide BestOf; hide Holds; hide BookRep; hide Represents; hide LevelIs; hide PriceLevelPool.Layout; hide Shape;
      ToHolds(side);
      ghost var b := book;
      ghost var lv, ov, nodes := LevelsOf(side).Snapshot(), LevelsOf(Opposite(side)).Snapshot(), pool.Nodes();
      BookRepShape(side, lv, ov, nodes, b);
      CacheInRange(side, lv, ov, nodes, b);
      r, price := AskBest(side, lv, ov, nodes, b.free, b.nextId);
      QueryPlan(side, lv, ov, nodes, b, r);
      QueriedKeeps(b, side);
      BestQueued(b, side);
      Commit(side, lv.(best := r), ov, nodes, b.free, b.nextId, Queried(b, side));
      if r != NULL {
        HoldsIndex(side, lv.(best := r), ov, nodes, b.free, b.nextId, price);
      }
    }

    // The total kept for a level is what rests there.
    lemma LevelTotal(side: Side, idx: nat, p: int)
      requires Valid() && LevelIs(side, idx, p) && p in LadderOf(book, side).queues
      ensures LevelsOf(side).Layout() && idx < MAX_PRICE_LEVELS
      ensures LevelsOf(side).totalQty[idx] == RestingAt(book, side, p)
    {
      hide PriceLevelPool.Valid; hide Inv; hide Indexed; hide Threaded; hide QtySum; hide RestingAt;
      ToHolds(side);
      var lv := LevelsOf(side).Snapshot();
      assert LevelRep(lv, pool.Nodes(), lv.index[p], p, LadderOf(book, side).queues[p]);
      QtySumTotal(pool.Nodes(), LadderOf(book, side).queues[p]);
      RestingAtIs(book, side, p);
    }

    // The quantity at the best price of a side, 0 if there is none.
    method BestQty(side: Side) returns (qty: int)
      requires Valid()
      modifies this`book, LevelsOf(side).Repr
      ensures Valid() && book == Queried(old(book), side)
      ensures qty ==
        match FindBest(side, LadderOf(old(book), side)) case None => 0 case Some(p) => RestingAt(book, side, p)
    {
      hide PriceLevelPool.Valid; hide PriceLevelPool.Headroom; hide PriceLevelPool.Layout; hide Represents; hide Inv;
      hide LevelIs; hide FindBest; hide RestingAt; hide Queried;
      ToHolds(side);
      var r, p := QueryBest(side);
      if r == NULL {
        return 0;
      }
      LevelTotal(side, r, p);
      qty := LevelsOf(side).totalQty[r];
    }

    // The record in a slot, live or not.
    method OrderAt(idx: nat) returns (o: Order)
      requires Valid() && idx < |book.pool|
      ensures o == book.pool[idx]
    {
      hide PriceLevelPool.Valid; hide PriceLevelPool.Layout; hide Represents; hide Inv;
      ToHolds(Buy);
      NodeAt(idx);
      o := pool.nodes[idx].order;
    }

    // Asks for both best prices.
    method QueryBoth() returns (bid: int, ask: int)
      requires Valid()
      modifies this`book, bids.Repr, asks.Repr
      ensures Valid() && book == Queried(Queried(old(book), Buy), Sell)
      ensures bid == (match FindBest(Buy, old(book).bids) case None => 0 case Some(p) => p)
      ensures ask == (match FindBest(Sell, old(book).asks) case None => 0 case Some(p) => p)
      ensures Room(Buy) == old(Room(Buy)) && Room(Sell) == old(Room(Sell))
    {
      hide PriceLevelPool.Valid; hide PriceLevelPool.Headroom; hide PriceLevelPool.Layout; hide Represents; hide Inv;
      hide LevelIs; hide FindBest;
      ToHolds(Buy);
      var r;
      r, bid := QueryBest(Buy);
      ToHolds(Sell);
      r, ask := QueryBest(Sell);
    }

    // Takes liquidity from the level of price p and drops it if it is emptied.
    method MatchLevel(side: Side, idx: nat, qty: int, taker: nat, outFills: array<MatchResult>, n0: nat, max: nat,
                      ghost p: int)
      returns (left: int, n: nat)
      requires Valid() && p in LadderOf(book, side).queues && LevelIs(side, idx, p)
      requires outFills !in Repr() && n0 <= max <= outFills.Length
      modifies this`book, LevelsOf(side).Repr, pool.Repr, outFills
      ensures Valid()
      ensures var m := TakeLevel(old(book), side, p, qty, max - n0);
        book == m.book && left == m.left && n == n0 + |m.fills| <= max
        && outFills[..n] == old(outFills[..n0]) + Results(taker, m.fills)
      ensures old(LevelsOf(side).Headroom()) ==> LevelsOf(side).Headroom()
    {
      hide PriceLevelPool.Valid; hide PriceLevelPool.Headroom; hide PriceLevelPool.Layout; hide Rep; hide Inv;
      hide Holds; hide BookRep; hide Represents; hide Walking; hide Finish; hide TakeLevel; hide DroppedIfEmpty;
      ToHolds(side);
      ghost var b := book;
      ghost var lv, ov, nodes := LevelsOf(side).Snapshot(), LevelsOf(Opposite(side)).Snapshot(), pool.Nodes();
      ghost var l, lo := LadderOf(b, side), LadderOf(b, Opposite(side));
      StartWalking(side, lv, ov, nodes, b, p);
      ghost var c;
      left, n, c := WalkLevel(side, idx, qty, taker, outFills, n0, max, Start(lv, nodes, b.free, l.queues[p]), ov, l,
        lo, p, b.nextId);
      EndWalking(side, lv, nodes, ov, b, p, c, qty, max - n0, left);
      DropIfEmpty(side, idx, c.lv, ov, c.nodes, c.free, b.nextId);
      Commit(side, DroppedIfEmpty(c.lv, idx), ov, c.nodes, c.free, b.nextId, TakeLevel(b, side, p, qty, max - n0).book);
    }

    // One round of matching: asks for the best level and, if it crosses, takes it.
    method MatchRound(aggressor: Side, limit: int, qty: int, taker: nat, outFills: array<MatchResult>, n0: nat,
                      max: nat)
      returns (left: int, n: nat, stop: bool, ghost fills: seq<Fill<nat>>)
      requires Valid() && outFills !in Repr() && n0 < max <= outFills.Length && qty > 0
      modifies this`book, LevelsOf(Opposite(aggressor)).Repr, pool.Repr, outFills
      ensures Valid() && n0 <= n == n0 + |fills| <= max && outFills[..n] == old(outFills[..n0]) + Results(taker, fills)
      ensures var goal := LevelBook.Match(old(book), aggressor, Some(limit), qty, max - n0);
        if stop then goal == Matched(book, fills, left)
        else fills != [] && goal == Continued(fills, LevelBook.Match(book, aggressor, Some(limit), left, max - n))
      ensures old(LevelsOf(Opposite(aggressor)).Headroom()) ==> LevelsOf(Opposite(aggressor)).Headroom()
    {
      hide PriceLevelPool.Valid; hide PriceLevelPool.Headroom; hide PriceLevelPool.Layout; hide Rep; hide Inv;
      hide LevelIs; hide TakeLevel; hide LevelBook.Match; hide Queried; hide FindBest; hide Results; hide Represents;
      var side := Opposite(aggressor);
      ToHolds(side);
      ghost var b := book;
      var best, price := QueryBest(side);
      left, n, fills := qty, n0, [];
      if best == NULL || !Crosses(aggressor, Some(limit), price) {
        MatchStuck(b, aggressor, Some(limit), qty, max - n0);
        ResultsNone(taker);
        stop := true;
      } else {
        fills := TakeLevel(book, side, price, qty, max - n0).fills;
        MatchPlan(b, aggressor, limit, qty, max - n0);
        left, n := MatchLevel(side, best, qty, taker, outFills, n0, max, price);
        stop := false;
      }
    }

    // Matches an incoming order; the fills go to the front of outFills.
    method Match(aggressor: Side, limit: int, qty: int, taker: nat, outFills: array<MatchResult>, max: nat)
      returns (n: nat)
      requires Valid() && outFills !in Repr() && max <= outFills.Length
      modifies this`book, LevelsOf(Opposite(aggressor)).Repr, pool.Repr, outFills
      ensures Valid()
      ensures var m := LevelBook.Match(old(book), aggressor, Some(limit), qty, max);
        book == m.book && n == |m.fills| <= max && outFills[..n] == Results(taker, m.fills)
      ensures old(LevelsOf(Opposite(aggressor)).Headroom()) ==> LevelsOf(Opposite(aggressor)).Headroom()
      ensures Room(aggressor) == old(Room(aggressor))
    {
      hide PriceLevelPool.Valid; hide PriceLevelPool.Headroom; hide PriceLevelPool.Layout; hide Rep; hide Inv;
      hide LevelBook.Match; hide Results; hide Represents; hide Toward;
      var side := Opposite(aggressor);
      ToHolds(side);
      ghost var goal := LevelBook.Match(book, aggressor, Some(limit), qty, max);
      ghost var done: seq<Fill<nat>> := [];
      var left, stop := qty, false;
      n := 0;
      ResultsNone(taker);
      TowardStart(book, aggressor, limit, qty, max);
      while left > 0 && n < max && !stop
        invariant Valid() && n == |done| <= max
        invariant outFills[..n] == Results(taker, done)
        invariant Toward(goal, book, aggressor, limit, done, left, max - n, stop)
        invariant old(LevelsOf(side).Headroom()) ==> LevelsOf(side).Headroom()
        decreases max - n, !stop
      {
        ghost var b, fills := book, [];
        ghost var left0, n0 := left, n;
        left, n, stop, fills := MatchRound(aggressor, limit, left, taker, outFills, n, max);
        ResultsConcat(taker, done, fills);
        TowardStep(goal, b, aggressor, limit, done, left0, max - n0, book, fills, left, max - n, stop);
        done := done + fills;
      }
      TowardEnd(goal, book, aggressor, limit, done, left, max - n, stop);
    }
  }

  predicate NeedsLevel(l: Ladder, price: int) {
    price !in l.queues && l.created < MAX_PRICE_LEVELS
  }

  ghost function Continued(done: seq<Fill<nat>>, m: Matched): (r: Matched) {
    m.(fills := done + m.fills)
  }

  // `done` and what is still to be matched make up the goal.
  ghost predicate Toward(goal: Matched, b: Book, aggressor: Side, limit: int, done: seq<Fill<nat>>, left: int,
                         max: nat, stop: bool) {
    goal ==
      if stop then Matched(b, done, left) else Continued(done, LevelBook.Match(b, aggressor, Some(limit), left, max))
  }

  lemma TowardStart(b: Book, aggressor: Side, limit: int, qty: int, max: nat)
    ensures Toward(LevelBook.Match(b, aggressor, Some(limit), qty, max), b, aggressor, limit, [], qty, max, false)
  {
    hide LevelBook.Match;
    assert forall f: seq<Fill<nat>> :: [] + f == f;
  }

  // One more round.
  lemma TowardStep(goal: Matched, b: Book, aggressor: Side, limit: int, done: seq<Fill<nat>>, left: int, max: nat,
                   b': Book, fills: seq<Fill<nat>>, left': int, max': nat, stop: bool)
    requires Toward(goal, b, aggressor, limit, done, left, max, false)
    requires var m := LevelBook.Match(b, aggressor, Some(limit), left, max);
      if stop then m == Matched(b', fills, left')
      else m == Continued(fills, LevelBook.Match(b', aggressor, Some(limit), left', max'))
    ensures Toward(goal, b', aggressor, limit, done + fills, left', max', stop)
  {
    hide LevelBook.Match;
    var rest := LevelBook.Match(b', aggressor, Some(limit), left', max').fills;
    assert done + (fills + rest) == done + fills + rest;
  }

  lemma TowardEnd(goal: Matched, b: Book, aggressor: Side, limit: int, done: seq<Fill<nat>>, left: int, max: nat,
                  stop: bool)
    requires Toward(goal, b, aggressor, limit, done, left, max, stop) && (left <= 0 || max == 0 || stop)
    ensures goal == Matched(b, done, left)
  {
    hide LevelBook.Match;
    if !stop {
      MatchDone(b, aggressor, Some(limit), left, max);
      assert done + [] == done;
    }
  }

  lemma ResultsNone(taker: nat)
    ensures Results(taker, []) == []
  {
  }

  lemma ResultsConcat(taker: nat, a: seq<Fill<nat>>, c: seq<Fill<nat>>)
    ensures Results(taker, a + c) == Results(taker, a) + Results(taker, c)
  {
  }

  // One round of matching: the best level is taken and yields a fill.
  lemma MatchPlan(b: Book, aggressor: Side, limit: int, qty: int, max: nat)
    requires Inv(b) && qty > 0 && max > 0
    requires var best := FindBest(Opposite(aggressor), LadderOf(b, Opposite(aggressor)));
      best.Some? && Crosses(aggressor, Some(limit), best.value)
    ensures var side := Opposite(aggressor);
      var m := TakeLevel(Queried(b, side), side, FindBest(side, LadderOf(b, side)).value, qty, max);
      && 0 < |m.fills| <= max
      && LevelBook.Match(b, aggressor, Some(limit), qty, max) ==
           Continued(m.fills, LevelBook.Match(m.book, aggressor, Some(limit), m.left, max - |m.fills|))
  {
    hide Inv; hide TakeLevel; hide LevelBook.Match; hide Queried; hide FindBest; hide Conserved; hide View;
    var side := Opposite(aggressor);
    var p := FindBest(side, LadderOf(b, side)).value;
    QueriedKept(b, side, qty);
    KeptInv(b, aggressor, Matched(Queried(b, side), [], qty));
    TakeLevelKeeps(Queried(b, side), side, p, qty, max);
    ConservedParts(Queried(b, side), side, qty, max, TakeLevel(Queried(b, side), side, p, qty, max));
    MatchStep(b, aggressor, Some(limit), qty, max);
  }
}
