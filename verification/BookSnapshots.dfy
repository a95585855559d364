/**
 The order book's operations on snapshots of its arrays: each takes arrays that
 stand for a book value to arrays that stand for the operation's result.
 */
module BookSnapshots {
  import opened Counting
  import opened SortedBook
  import opened LevelBook
  import opened BookTheory
  import opened BookRefinement
  import opened BookLinks

  ghost predicate IsInitial(b: Book) {
    && |b.pool| == |b.free| && b.nextId == 1 && b.bids == EmptyLadder() && b.asks == EmptyLadder()
    && (forall i | 0 <= i < |b.pool| :: b.pool[i] == Order(0, 0, 0, 0, 0, Buy))
    && (forall i | 0 <= i < |b.free| :: b.free[i] == |b.free| - 1 - i)
  }

  lemma InitialInv(b: Book)
    requires IsInitial(b)
    ensures Inv(b) && Clean(b) && AllFresh(b)
  {
    forall s | 0 <= s < |b.pool|
      ensures s in b.free
    {
      assert b.free[|b.free| - 1 - s] == s;
    }
  }

  // The arrays stand for the book value b: lv are the levels of `side`, ov
  // those of the other side.
  ghost predicate BookRep(side: Side, lv: Levels, ov: Levels, nodes: seq<Node>, free: seq<nat>, nextId: nat, b: Book) {
    && |nodes| == POOL_CAPACITY && b.pool == Orders(nodes) && b.free == free && b.nextId == nextId
    && Rep(lv, nodes, LadderOf(b, side)) && Rep(ov, nodes, LadderOf(b, Opposite(side)))
  }

  // ----- Adding an order, on snapshots -----

  lemma RepWithLevel(lv: Levels, nodes: seq<Node>, l: Ladder, price: int)
    requires Rep(lv, nodes, l) && (price !in l.queues ==> l.created < MAX_PRICE_LEVELS)
    requires l.best.Some? ==> l.best.value in l.queues
    ensures Rep(LevelsWith(lv, price), nodes, WithLevel(l, price)) && price in LevelsWith(lv, price).index
  {
    hide Rep;
    RepShape(lv, nodes, l);
    if price !in l.queues {
      RepCreate(lv, nodes, l, price);
    }
    RepShape(LevelsWith(lv, price), nodes, WithLevel(l, price));
  }

  lemma IndexedAt(lv: Levels, p: int)
    requires Indexed(lv) && p in lv.index
    ensures lv.index[p] < lv.used && lv.active[lv.index[p]] && lv.prices[lv.index[p]] == p
  {
  }

  lemma RepShape(lv: Levels, nodes: seq<Node>, l: Ladder)
    requires Rep(lv, nodes, l)
    ensures Indexed(lv) && lv.index.Keys == l.queues.Keys && lv.used == l.created
    ensures lv.best == NULL || lv.best < lv.used
    ensures lv.best == NULL <==> l.best.None? || l.best.value !in l.queues
  {
    if l.best.Some? && l.best.value in lv.index {
      IndexedAt(lv, l.best.value);
    }
  }

  lemma RepBest(side: Side, lv: Levels, nodes: seq<Node>, l: Ladder, p: int)
    requires Rep(lv, nodes, l) && p in l.queues && (l.best.Some? ==> l.best.value in l.queues)
    ensures lv.best == NULL || lv.best < MAX_PRICE_LEVELS
    ensures Rep(BestUpdated(side, lv, lv.index[p]), nodes, l.(best := Improve(side, l.best, p)))
  {
    hide LevelRep;
    RepShape(lv, nodes, l);
    var lv' := BestUpdated(side, lv, lv.index[p]);
    var l' := l.(best := Improve(side, l.best, p));
    forall x | x in l.queues
      ensures LevelRep(lv', nodes, lv'.index[x], x, l.queues[x])
    {
      SameNodesSelf(nodes, l.queues[x]);
      LevelFrame(lv, lv', nodes, nodes, lv.index[x], x, l.queues[x]);
    }
  }

  lemma SameNodesSelf(nodes: seq<Node>, q: seq<nat>)
    ensures SameNodes(nodes, nodes, q)
  {
  }

  lemma UnqueuedDisjoint(l: Ladder, s: nat)
    requires Unqueued(l, s)
    ensures forall x | x in l.queues :: Disjoint([s], l.queues[x])
  {
  }

  // The queue of the price and the new slot meet no other queue.
  lemma JoinDisjoint(b: Book, side: Side, price: int, s: nat)
    requires Inv(b) && Unqueued(b.bids, s) && Unqueued(b.asks, s)
    ensures var q := At(LadderOf(b, side).queues, price);
      && Distinct(q) && s !in q
      && (forall x | x in LadderOf(b, side).queues && x != price :: Disjoint(q + [s], LadderOf(b, side).queues[x]))
      && (forall x | x in LadderOf(b, Opposite(side)).queues ::
         Disjoint(q + [s], LadderOf(b, Opposite(side)).queues[x]))
  {
    hide QueueOk; hide Partition;
    var l, o := LadderOf(b, side), LadderOf(b, Opposite(side));
    var q := At(l.queues, price);
    EmptyQueueOk(b.pool, side, price);
    QueueDistinct(b.pool, side, price, q, []);
    assert q + [] == q;
    forall x | x in l.queues && x != price
      ensures Disjoint(q + [s], l.queues[x])
    {
      QueuesDisjoint(b.pool, side, price, q, side, x, l.queues[x]);
    }
    forall x | x in o.queues
      ensures Disjoint(q + [s], o.queues[x])
    {
      QueuesDisjoint(b.pool, side, price, q, Opposite(side), x, o.queues[x]);
    }
  }

  // The record the add writes into its slot, before it is linked.
  ghost function NewNode(nodes: seq<Node>, s: nat, o: Order): (n: Node)
    requires s < |nodes|
  {
    Node(o, NULL, NULL, nodes[s].level)
  }

  lemma PutRep(lv: Levels, nodes: seq<Node>, l: Ladder, s: nat, n: Node)
    requires Rep(lv, nodes, l) && s < |nodes| && Unqueued(l, s)
    ensures Rep(lv, nodes[s := n], l)
  {
    hide Rep;
    UnqueuedDisjoint(l, s);
    assert NodesOutside(nodes, nodes[s := n], [s]);
    RepNodes(lv, nodes, nodes[s := n], l, [s]);
  }

  lemma PutOrders(nodes: seq<Node>, s: nat, n: Node)
    requires s < |nodes|
    ensures Orders(nodes[s := n]) == Orders(nodes)[s := n.order]
  {
  }

  // The slot on top of the stack: in range and in no queue.
  lemma TopFacts(b: Book)
    requires Inv(b) && b.free != []
    ensures Top(b) < |b.pool| && Unqueued(b.bids, Top(b)) && Unqueued(b.asks, Top(b))
  {
    hide QueueOk;
    AddShape(b, 0, 0, Buy, 1, 1);
  }

  // No level could be had: the slot is overwritten, the ladders are as before.
  lemma AddRepFail(side: Side, lv: Levels, ov: Levels, nodes: seq<Node>, b: Book, owner: nat, clientId: nat,
                   price: int, qty: int)
    requires BookRep(side, lv, ov, nodes, b.free, b.nextId, b) && Inv(b) && b.free != []
    requires NoLevel(LadderOf(b, side), price) && Top(b) < |nodes|
    ensures var o := Order(b.nextId, clientId, owner, price, qty, side);
      BookRep(side, lv, ov, nodes[Top(b) := NewNode(nodes, Top(b), o)], b.free, b.nextId + 1,
              AddOrder(b, owner, clientId, side, price, qty).book)
  {
    hide Rep; hide Inv; hide AddOrder;
    var o := Order(b.nextId, clientId, owner, price, qty, side);
    var n := NewNode(nodes, Top(b), o);
    AddShape(b, owner, clientId, side, price, qty);
    PutRep(lv, nodes, LadderOf(b, side), Top(b), n);
    PutRep(ov, nodes, LadderOf(b, Opposite(side)), Top(b), n);
    PutOrders(nodes, Top(b), n);
  }

  lemma BestInLadder(b: Book, side: Side)
    requires Inv(b)
    ensures var l := LadderOf(b, side); l.best.Some? ==> l.best.value in l.queues
  {
  }

  // A slot linked to the end of the list of its level, the best updated: the
  // ladder has it at the end of its queue.
  lemma LinkRep(side: Side, lv: Levels, nodes: seq<Node>, l: Ladder, price: int, q: seq<nat>, s: nat, qty: int)
    requires Rep(lv, nodes, l) && price in l.queues && l.queues[price] == q
      && (l.best.Some? ==> l.best.value in l.queues)
    requires s < |nodes| < NULL && nodes[s].next == NULL && nodes[s].order.remaining == qty && Distinct(q) && s !in q
    requires forall x | x in l.queues && x != price :: Disjoint(q + [s], l.queues[x])
    ensures price in lv.index && CanLink(lv, lv.index[price], nodes, s) && lv.index[price] < MAX_PRICE_LEVELS
    ensures var idx := lv.index[price];
      var nodes' := LinkedNodes(lv, idx, nodes, s);
      && Rep(LinkedLevels(side, lv, idx, nodes, s, qty), nodes',
             l.(queues := l.queues[price := q + [s]], best := Improve(side, l.best, price)))
      && NodesOutside(nodes, nodes', q + [s]) && Orders(nodes') == Orders(nodes)
  {
    hide Rep; hide LevelRep; hide Distinct; hide Disjoint; hide OnlyLevel; hide NodesOutside; hide AppendNodes;
    hide BestUpdated; hide Improve;
    RepShape(lv, nodes, l);
    RepAt(lv, nodes, l, price);
    var idx := lv.index[price];
    AppendLevel(lv, nodes, idx, price, q, s);
    var lv2, nodes2 := Appended(lv, idx, s, qty), AppendNodes(nodes, lv.tail[idx], s, idx);
    RepLevel(lv, lv2, nodes, nodes2, l, price, q + [s], q + [s]);
    var l2 := l.(queues := l.queues[price := q + [s]]);
    RepShape(lv2, nodes2, l2);
    RepBest(side, lv2, nodes2, l2, price);
  }

  // The ladder of an add, as the level code builds it.
  lemma AddLadder(b: Book, owner: nat, clientId: nat, side: Side, price: int, qty: int)
    requires Inv(b) && b.free != [] && !NoLevel(LadderOf(b, side), price)
    ensures var r, l1 := AddOrder(b, owner, clientId, side, price, qty).book, WithLevel(LadderOf(b, side), price);
      && LadderOf(r, side) ==
           l1.(queues := l1.queues[price := At(LadderOf(b, side).queues, price) + [Top(b)]],
               best := Improve(side, l1.best, price))
      && LadderOf(r, Opposite(side)) == LadderOf(b, Opposite(side)) && r.nextId == b.nextId + 1
      && Top(b) < |b.pool| && r.pool == b.pool[Top(b) := Order(b.nextId, clientId, owner, price, qty, side)]
      && r.free == b.free[..|b.free| - 1]
  {
    hide Inv; hide Improve;
    AddShape(b, owner, clientId, side, price, qty);
  }

  // The order joins the list of its level, the side's best is updated.
  lemma AddRepOk(side: Side, lv: Levels, ov: Levels, nodes: seq<Node>, b: Book, owner: nat, clientId: nat, price: int,
                 qty: int)
    requires BookRep(side, lv, ov, nodes, b.free, b.nextId, b) && Inv(b) && b.free != []
    requires !NoLevel(LadderOf(b, side), price) && Top(b) < |nodes|
    ensures Shape(lv) && (price !in lv.index ==> lv.used < MAX_PRICE_LEVELS)
    ensures price in LevelsWith(lv, price).index
    ensures var o := Order(b.nextId, clientId, owner, price, qty, side);
      var s, lv1, nodes1 := Top(b), LevelsWith(lv, price), nodes[Top(b) := NewNode(nodes, Top(b), o)];
      var idx := lv1.index[price];
      && CanLink(lv1, idx, nodes1, s) && idx < MAX_PRICE_LEVELS
      && BookRep(side, LinkedLevels(side, lv1, idx, nodes1, s, qty), ov, LinkedNodes(lv1, idx, nodes1, s),
                 b.free[..|b.free| - 1], b.nextId + 1, AddOrder(b, owner, clientId, side, price, qty).book)
  {
    hide Rep; hide Inv; hide AddOrder; hide Distinct; hide Disjoint; hide NodesOutside; hide LevelsWith; hide CanLink;
    hide LinkedLevels; hide LinkedNodes; hide Improve;
    var o := Order(b.nextId, clientId, owner, price, qty, side);
    var s, l, l' := Top(b), LadderOf(b, side), LadderOf(b, Opposite(side));
    var n := NewNode(nodes, s, o);
    var nodes1 := nodes[s := n];
    TopFacts(b);
    BestInLadder(b, side);
    RepShape(lv, nodes, l);
    PutRep(lv, nodes, l, s, n);
    PutRep(ov, nodes, l', s, n);
    PutOrders(nodes, s, n);
    var lv1, l1, q := LevelsWith(lv, price), WithLevel(l, price), At(l.queues, price);
    RepWithLevel(lv, nodes1, l, price);
    JoinDisjoint(b, side, price, s);
    LinkRep(side, lv1, nodes1, l1, price, q, s, qty);
    RepNodes(ov, nodes1, LinkedNodes(lv1, lv1.index[price], nodes1, s), l', q + [s]);
    OrdersLength(LinkedNodes(lv1, lv1.index[price], nodes1, s));
    AddLadder(b, owner, clientId, side, price, qty);
  }

  lemma RepAt(lv: Levels, nodes: seq<Node>, l: Ladder, p: int)
    requires Rep(lv, nodes, l) && p in l.queues
    ensures p in lv.index && lv.index[p] < lv.used && LevelRep(lv, nodes, lv.index[p], p, l.queues[p])
  {
  }

  lemma BookRepShape(side: Side, lv: Levels, ov: Levels, nodes: seq<Node>, b: Book)
    requires BookRep(side, lv, ov, nodes, b.free, b.nextId, b) && Inv(b)
    ensures Shape(lv) && Shape(ov) && lv.used == LadderOf(b, side).created
    ensures lv.index.Keys == LadderOf(b, side).queues.Keys && |b.free| <= |nodes| == |b.pool|
  {
    hide LevelRep; hide QueueOk;
    DistinctBound(b.free, |b.pool|);
  }

  lemma BookRepIndex(side: Side, lv: Levels, ov: Levels, nodes: seq<Node>, b: Book)
    requires BookRep(side, lv, ov, nodes, b.free, b.nextId, b)
    ensures lv.index.Keys == LadderOf(b, side).queues.Keys && lv.used == LadderOf(b, side).created
  {
    hide LevelRep; hide Indexed;
  }

  // No level can be had for the price.
  ghost predicate Exhausted(lv: Levels, price: int) {
    price !in lv.index && lv.used >= MAX_PRICE_LEVELS
  }

  // Everything the array code needs to know about adding an order.
  lemma AddPlan(side: Side, lv: Levels, ov: Levels, nodes: seq<Node>, b: Book, owner: nat, clientId: nat, price: int,
                qty: int)
    requires BookRep(side, lv, ov, nodes, b.free, b.nextId, b) && Inv(b) && qty > 0
    ensures var r := AddOrder(b, owner, clientId, side, price, qty);
      var o := Order(b.nextId, clientId, owner, price, qty, side);
      && Inv(r.book) && Shape(lv) && |b.free| <= |nodes|
      && if b.free == [] then r == Added(b, None)
         else
           && Top(b) < |nodes| && (Exhausted(lv, price) <==> r.slot == None)
           && (r.slot.Some? ==> r.slot.value == Top(b))
           && var nodes1 := nodes[Top(b) := NewNode(nodes, Top(b), o)];
              if Exhausted(lv, price) then
                BookRep(side, lv, ov, nodes1, b.free, b.nextId + 1, r.book)
              else
                var lv1 := LevelsWith(lv, price);
                && price in lv1.index && lv1.index[price] < MAX_PRICE_LEVELS
                && CanLink(lv1, lv1.index[price], nodes1, Top(b))
                && BookRep(side, LinkedLevels(side, lv1, lv1.index[price], nodes1, Top(b), qty), ov,
                           LinkedNodes(lv1, lv1.index[price], nodes1, Top(b)), b.free[..|b.free| - 1], b.nextId + 1,
                             r.book)
  {
    hide Rep; hide Inv; hide AddOrder; hide LevelsWith; hide LinkedLevels; hide LinkedNodes;
    BookRepShape(side, lv, ov, nodes, b);
    AddKeeps(b, owner, clientId, side, price, qty);
    if b.free == [] {
      AddFull(b, owner, clientId, side, price, qty);
    } else {
      TopFacts(b);
      AddShape(b, owner, clientId, side, price, qty);
      if Exhausted(lv, price) {
        AddRepFail(side, lv, ov, nodes, b, owner, clientId, price, qty);
      } else {
        AddRepOk(side, lv, ov, nodes, b, owner, clientId, price, qty);
      }
    }
  }

  // ----- Working on one level -----

  // q, the queue of price p, shares no slot with any other queue of either side.
  ghost predicate Apart(q: seq<nat>, l: Ladder, p: int, lo: Ladder) {
    && (forall x | x in l.queues && x != p :: Disjoint(q, l.queues[x]))
    && (forall x | x in lo.queues :: Disjoint(q, lo.queues[x]))
  }

  // Both sides' arrays stand for these ladders; a level may be empty.
  ghost predicate Mid(lv: Levels, ov: Levels, nodes: seq<Node>, l: Ladder, lo: Ladder) {
    |nodes| == POOL_CAPACITY && Rep(lv, nodes, l) && Rep(ov, nodes, lo)
  }

  lemma MidLevel(lv: Levels, ov: Levels, nodes: seq<Node>, l: Ladder, lo: Ladder, p: int)
    requires Mid(lv, ov, nodes, l, lo) && p in l.queues
    ensures Shape(lv) && p in lv.index && lv.index[p] < lv.used
    ensures LevelRep(lv, nodes, lv.index[p], p, l.queues[p])
  {
    hide LevelRep;
    RepAt(lv, nodes, l, p);
  }

  lemma MidSet(lv: Levels, lv': Levels, ov: Levels, nodes: seq<Node>, nodes': seq<Node>, l: Ladder, lo: Ladder,
               p: int, q: seq<nat>, q': seq<nat>)
    requires Mid(lv, ov, nodes, l, lo) && p in l.queues && Apart(q, l, p, lo) && p in lv.index
    requires OnlyLevel(lv, lv', lv.index[p]) && NodesOutside(nodes, nodes', q)
      && LevelRep(lv', nodes', lv.index[p], p, q')
    ensures Mid(lv', ov, nodes', l.(queues := l.queues[p := q']), lo)
  {
    hide Rep; hide Disjoint; hide OnlyLevel; hide LevelRep;
    RepLevel(lv, lv', nodes, nodes', l, p, q', q);
    RepNodes(ov, nodes, nodes', lo, q);
    OutsideLength(nodes, nodes', q);
  }

  lemma OutsideLength(nodes: seq<Node>, nodes': seq<Node>, q: seq<nat>)
    requires NodesOutside(nodes, nodes', q)
    ensures |nodes'| == |nodes|
  {
  }

  // Unlinking the k-th order of the level.
  lemma UnlinkMid(lv: Levels, ov: Levels, nodes: seq<Node>, l: Ladder, lo: Ladder, p: int, k: nat)
    requires Mid(lv, ov, nodes, l, lo) && p in l.queues && Apart(l.queues[p], l, p, lo)
    requires Distinct(l.queues[p]) && k < |l.queues[p]|
    ensures Shape(lv) && p in lv.index && lv.index[p] < lv.used && lv.count[lv.index[p]] == |l.queues[p]|
    ensures InNodes(nodes, l.queues[p]) && LinkOk(nodes, lv.index[p], l.queues[p], k)
    ensures var q, idx := l.queues[p], lv.index[p];
      Mid(Unlinked(lv, idx, nodes[q[k]], nodes[q[k]].order.remaining), ov, UnlinkNodes(nodes, q, k),
          l.(queues := l.queues[p := RemoveAt(q, k)]), lo)
    ensures Orders(UnlinkNodes(nodes, l.queues[p], k)) == Orders(nodes)
  {
    hide Rep; hide Disjoint; hide OnlyLevel; hide Distinct; hide Threaded; hide UnlinkNodes; hide RemoveAt; hide QtySum;
    hide NodesOutside;
    var q := l.queues[p];
    MidLevel(lv, ov, nodes, l, lo, p);
    var idx := lv.index[p];
    ThreadedParts(nodes, idx, q, k);
    UnlinkLevel(lv, nodes, idx, p, q, k);
    UnlinkOrders(nodes, q, k);
    MidSet(lv, Unlinked(lv, idx, nodes[q[k]], nodes[q[k]].order.remaining), ov, nodes, UnlinkNodes(nodes, q, k), l, lo,
      p, q, RemoveAt(q, k));
  }

  lemma UnlinkOrders(nodes: seq<Node>, q: seq<nat>, k: nat)
    requires InNodes(nodes, q) && k < |q|
    ensures Orders(UnlinkNodes(nodes, q, k)) == Orders(nodes)
  {
  }

  // Filling f units of the first order of the level.
  lemma HitMid(lv: Levels, ov: Levels, nodes: seq<Node>, l: Ladder, lo: Ladder, p: int, f: int)
    requires Mid(lv, ov, nodes, l, lo) && p in l.queues && Apart(l.queues[p], l, p, lo)
    requires Distinct(l.queues[p]) && l.queues[p] != []
    ensures Shape(lv) && p in lv.index && lv.index[p] < lv.used && l.queues[p][0] < |nodes|
    ensures var q, idx := l.queues[p], lv.index[p];
      && Mid(lv.(total := lv.total[idx := lv.total[idx] - f]), ov, HitNodes(nodes, q[0], f), l, lo)
      && Orders(HitNodes(nodes, q[0], f)) == Hit(Orders(nodes), q[0], f)
  {
    hide Rep; hide Disjoint; hide OnlyLevel; hide Distinct; hide Threaded; hide QtySum; hide HitNodes;
    hide NodesOutside; hide Hit;
    var q := l.queues[p];
    MidLevel(lv, ov, nodes, l, lo, p);
    var idx := lv.index[p];
    HitLevel(lv, nodes, idx, p, q, f);
    MidSet(lv, lv.(total := lv.total[idx := lv.total[idx] - f]), ov, nodes, HitNodes(nodes, q[0], f), l, lo, p, q, q);
    assert l.queues[p := q] == l.queues;
  }

  // Dropping an empty level.
  lemma DropMid(lv: Levels, ov: Levels, nodes: seq<Node>, l: Ladder, lo: Ladder, p: int)
    requires Mid(lv, ov, nodes, l, lo) && p in l.queues && (l.best.Some? ==> l.best.value in l.queues)
    ensures Shape(lv) && p in lv.index && lv.index[p] < lv.used && lv.active[lv.index[p]]
    ensures lv.count[lv.index[p]] == |l.queues[p]|
    ensures Mid(Deactivated(lv, lv.index[p]), ov, nodes, Deactivate(l, p), lo)
  {
    hide Rep;
    MidLevel(lv, ov, nodes, l, lo, p);
    RepDeactivate(lv, nodes, l, p);
  }

  // The queue of a live price is apart from all others.
  lemma QueueApart(b: Book, side: Side, p: int)
    requires Inv(b) && p in LadderOf(b, side).queues
    ensures var q := LadderOf(b, side).queues[p];
      Distinct(q) && Apart(q, LadderOf(b, side), p, LadderOf(b, Opposite(side)))
  {
    hide QueueOk; hide Partition;
    var l, o := LadderOf(b, side), LadderOf(b, Opposite(side));
    var q := l.queues[p];
    assert q + [] == q;
    QueueDistinct(b.pool, side, p, q, []);
    forall x | x in l.queues && x != p
      ensures Disjoint(q, l.queues[x])
    {
      QueuesDisjoint(b.pool, side, p, q, side, x, l.queues[x]);
    }
    forall x | x in o.queues
      ensures Disjoint(q, o.queues[x])
    {
      QueuesDisjoint(b.pool, side, p, q, Opposite(side), x, o.queues[x]);
    }
  }

  // ----- Cancelling, on snapshots -----

  ghost function Zeroed(nodes: seq<Node>, s: nat): (r: seq<Node>)
    requires s < |nodes|
  {
    nodes[s := nodes[s].(order := nodes[s].order.(remaining := 0))]
  }

  // The levels after one level has been dropped if it became empty.
  ghost function DroppedIfEmpty(lv: Levels, idx: nat): (r: Levels)
    requires Shape(lv) && idx < MAX_PRICE_LEVELS
  {
    if lv.count[idx] == 0 then Deactivated(lv, idx) else lv
  }

  // The slot's price has a level; taking the slot out of it gives this ladder.
  lemma DropRep(lv: Levels, ov: Levels, nodes: seq<Node>, l: Ladder, lo: Ladder, p: int)
    requires Mid(lv, ov, nodes, l, lo) && p in l.queues && (l.best.Some? ==> l.best.value in l.queues)
    ensures Shape(lv) && p in lv.index && lv.index[p] < lv.used && lv.active[lv.index[p]]
    ensures Mid(DroppedIfEmpty(lv, lv.index[p]), ov, nodes, SetQueue(l, p, l.queues[p]), lo)
  {
    hide Rep; hide Mid;
    DropMid(lv, ov, nodes, l, lo, p);
    assert l.queues[p := l.queues[p]] == l.queues;
  }

  lemma ZeroRep(lv: Levels, ov: Levels, nodes: seq<Node>, l: Ladder, lo: Ladder, s: nat)
    requires Mid(lv, ov, nodes, l, lo) && s < |nodes| && Unqueued(l, s) && Unqueued(lo, s)
    ensures Mid(lv, ov, Zeroed(nodes, s), l, lo)
  {
    hide Rep; hide Unqueued;
    PutRep(lv, nodes, l, s, Zeroed(nodes, s)[s]);
    PutRep(ov, nodes, lo, s, Zeroed(nodes, s)[s]);
  }

  // Everything the array code needs to know about cancelling a live order.
  lemma CancelPlan(side: Side, lv: Levels, ov: Levels, nodes: seq<Node>, b: Book, s: nat) returns (q: seq<nat>, k: nat)
    requires BookRep(side, lv, ov, nodes, b.free, b.nextId, b) && Inv(b) && Live(b, s) && b.pool[s].side == side
    ensures s < |nodes| && |b.free| < |nodes| && Inv(CancelOrder(b, s).0) && CancelOrder(b, s).1
    ensures k < |q| && q[k] == s && InNodes(nodes, q) && LinkOk(nodes, nodes[s].level, q, k)
    ensures var n := nodes[s];
      && Shape(lv) && n.level < lv.used && lv.count[n.level] > 0
      && var lv1 := Unlinked(lv, n.level, n, n.order.remaining);
         && (lv1.count[n.level] == 0 ==> lv1.active[n.level]) && s < |UnlinkNodes(nodes, q, k)|
         && BookRep(side, DroppedIfEmpty(lv1, n.level), ov, Zeroed(UnlinkNodes(nodes, q, k), s), b.free + [s], b.nextId,
                    CancelOrder(b, s).0)
  {
    hide Rep; hide Inv; hide CancelOrder; hide Apart; hide Distinct; hide UnlinkNodes; hide LinkOk; hide Unlinked;
    hide DroppedIfEmpty; hide InNodes; hide Without; hide RemoveAt; hide QueueOk; hide Live; hide Shape;
    LiveInPool(b, s);
    CancelKeeps(b, s);
    CancelShape(b, s);
    k := LiveQueue(b, s);
    var o, l, lo := b.pool[s], LadderOf(b, side), LadderOf(b, Opposite(side));
    q := l.queues[o.price];
    QueueApart(b, side, o.price);
    UnlinkMid(lv, ov, nodes, l, lo, o.price, k);
    LevelOfSlot(lv, nodes, l, o.price, k);
    var idx, n := lv.index[o.price], nodes[s];
    var lv1, nodes1, l1 := Unlinked(lv, idx, n, n.order.remaining), UnlinkNodes(nodes, q, k),
      l.(queues := l.queues[o.price := RemoveAt(q, k)]);
    BestInLadder(b, side);
    DropRep(lv1, ov, nodes1, l1, lo, o.price);
    UnlinkedIndex(lv, idx, n);
    SetQueueTwice(l, o.price, RemoveAt(q, k));
    var l2 := SetQueue(l, o.price, RemoveAt(q, k));
    CancelUnqueued(b, s);
    OrdersLength(nodes1);
    ZeroRep(DroppedIfEmpty(lv1, idx), ov, nodes1, l2, lo, s);
    ZeroOrders(nodes1, s);
    FreeRoom(b, s);
  }

  lemma LevelOfSlot(lv: Levels, nodes: seq<Node>, l: Ladder, p: int, k: nat)
    requires Rep(lv, nodes, l) && p in l.queues && k < |l.queues[p]|
    ensures l.queues[p][k] < |nodes| && p in lv.index && nodes[l.queues[p][k]].level == lv.index[p] < MAX_PRICE_LEVELS
  {
    RepAt(lv, nodes, l, p);
    assert LinkOk(nodes, lv.index[p], l.queues[p], k);
  }

  lemma UnlinkedIndex(lv: Levels, idx: nat, n: Node)
    requires Shape(lv) && idx < lv.used && lv.count[idx] > 0
    ensures var lv1 := Unlinked(lv, idx, n, n.order.remaining);
      lv1.index == lv.index && lv1.used == lv.used && Shape(lv1)
  {
  }

  lemma SetQueueTwice(l: Ladder, p: int, q: seq<nat>)
    ensures var l1 := l.(queues := l.queues[p := q]); SetQueue(l1, p, l1.queues[p]) == SetQueue(l, p, q)
  {
    var l1 := l.(queues := l.queues[p := q]);
    assert l1.queues - {p} == l.queues - {p};
    assert l1.queues[p := q] == l.queues[p := q];
  }

  lemma CancelUnqueued(b: Book, s: nat)
    requires Inv(b) && Live(b, s)
    ensures Unqueued(LadderOf(CancelOrder(b, s).0, Buy), s) && Unqueued(LadderOf(CancelOrder(b, s).0, Sell), s)
  {
    hide QueueOk; hide Live; hide Partition; hide CancelOrder;
    var b' := CancelOrder(b, s).0;
    CancelKeeps(b, s);
    CancelLive(b, s);
    forall p | p in b'.bids.queues {
      NotQueued(b', s, Buy, p);
    }
    forall p | p in b'.asks.queues {
      NotQueued(b', s, Sell, p);
    }
  }

  lemma OrdersLength(nodes: seq<Node>)
    ensures |Orders(nodes)| == |nodes|
  {
  }

  lemma ZeroOrders(nodes: seq<Node>, s: nat)
    requires s < |nodes|
    ensures Orders(Zeroed(nodes, s)) == Orders(nodes)[s := Orders(nodes)[s].(remaining := 0)]
  {
  }

  // While a slot is live the free stack is not full.
  lemma FreeRoom(b: Book, s: nat)
    requires Inv(b) && Live(b, s)
    ensures |b.free| < |b.pool|
  {
    hide QueueOk;
    assert s !in b.free;
    DistinctBound(b.free + [s], |b.pool|);
  }

  // What rests at a price.
  ghost function RestingAt(b: Book, side: Side, p: int): (q: int) {
    Total(Listed(b.pool, At(LadderOf(b, side).queues, p)))
  }

  lemma RestingAtIs(b: Book, side: Side, p: int)
    requires p in LadderOf(b, side).queues
    ensures RestingAt(b, side, p) == Total(Listed(b.pool, LadderOf(b, side).queues[p]))
  {
  }

  lemma {:induction false} QtySumTotal(nodes: seq<Node>, q: seq<nat>)
    ensures QtySum(nodes, q) == Total(Listed(Orders(nodes), q))
  {
    hide Listed;
    if q == [] {
      ListedNone(Orders(nodes));
    } else {
      ListedCons(Orders(nodes), q);
      QtySumTotal(nodes, q[1..]);
      assert Listed(Orders(nodes), q)[1..] == Listed(Orders(nodes), q[1..]);
    }
  }

  // ----- Asking for the best price, on snapshots -----

  // A level that a scan for the best price considers.
  ghost predicate Offered(lv: Levels, i: nat) {
    Shape(lv) && i < lv.used && lv.active[i] && lv.total[i] > 0
  }

  // r is the best level offered, or there is none.
  ghost predicate IsScan(side: Side, lv: Levels, r: nat) {
    if r == NULL then forall i: nat :: !Offered(lv, i)
    else Offered(lv, r) && forall i: nat | Offered(lv, i) :: !Better(side, lv.prices[i], lv.prices[r])
  }

  lemma {:induction false} SumPositive(nodes: seq<Node>, q: seq<nat>)
    requires forall i | 0 <= i < |q| :: q[i] < |nodes| && nodes[q[i]].order.remaining > 0
    ensures QtySum(nodes, q) >= 0 && (q != [] ==> QtySum(nodes, q) > 0)
  {
    if q != [] {
      SumPositive(nodes, q[1..]);
    }
  }

  // On a valid book every level of the map is offered, and no other.
  lemma OfferedLevels(side: Side, lv: Levels, nodes: seq<Node>, b: Book)
    requires Rep(lv, nodes, LadderOf(b, side)) && Inv(b) && b.pool == Orders(nodes)
    ensures forall p | p in lv.index :: Offered(lv, lv.index[p])
    ensures forall i: nat | Offered(lv, i) :: lv.prices[i] in lv.index && lv.index[lv.prices[i]] == i
  {
    hide Partition;
    var l := LadderOf(b, side);
    forall p | p in lv.index
      ensures Offered(lv, lv.index[p])
    {
      RepAt(lv, nodes, l, p);
      QueueRemaining(b.pool, side, p, l.queues[p]);
      SumPositive(nodes, l.queues[p]);
    }
  }

  lemma QueryPlan(side: Side, lv: Levels, ov: Levels, nodes: seq<Node>, b: Book, r: nat)
    requires BookRep(side, lv, ov, nodes, b.free, b.nextId, b) && Inv(b)
    requires if Offered(lv, lv.best) then r == lv.best else IsScan(side, lv.(best := r), r)
    ensures BookRep(side, lv.(best := r), ov, nodes, b.free, b.nextId, Queried(b, side))
    ensures var best := FindBest(side, LadderOf(b, side));
      && (r == NULL <==> best.None?)
      && (best.Some? ==>
            && Shape(lv) && r < lv.used && lv.prices[r] == best.value
            && best.value in lv.index && lv.index[best.value] == r)
  {
    hide LevelRep; hide Partition; hide QueueOk;
    var l := LadderOf(b, side);
    BestInLadder(b, side);
    RepShape(lv, nodes, l);
    OfferedLevels(side, lv, nodes, b);
    if l.best.Some? {
      IndexedAt(lv, l.best.value);
    } else {
      assert forall i: nat :: Offered(lv.(best := r), i) <==> Offered(lv, i);
      if r == NULL {
        NoKeys(lv, l);
      } else {
        var p := lv.prices[r];
        ScanBest(side, lv, l, r, p);
      }
    }
    RepWithBest(lv, nodes, l, r, FindBest(side, l));
  }

  lemma NoKeys(lv: Levels, l: Ladder)
    requires lv.index.Keys == l.queues.Keys
    requires (forall p | p in lv.index :: Offered(lv, lv.index[p])) && forall i: nat :: !Offered(lv, i)
    ensures l.queues.Keys == {}
  {
    if l.queues.Keys != {} {
      var p := Element(l.queues.Keys);
      assert false;
    }
  }

  lemma ScanBest(side: Side, lv: Levels, l: Ladder, r: nat, p: int)
    requires lv.index.Keys == l.queues.Keys && Indexed(lv) && Offered(lv, r) && p == lv.prices[r]
    requires forall x | x in lv.index :: Offered(lv, lv.index[x])
    requires forall i: nat | Offered(lv, i) :: !Better(side, lv.prices[i], p)
    ensures p in l.queues && lv.index[p] == r && Scan(side, l) == Some(p)
  {
    forall x | x in l.queues
      ensures !Better(side, x, p)
    {
      assert Offered(lv, lv.index[x]);
    }
    BestUnique(side, l.queues.Keys, p);
  }

  lemma RepWithBest(lv: Levels, nodes: seq<Node>, l: Ladder, r: nat, best: Option<int>)
    requires Rep(lv, nodes, l)
    requires r == if best.Some? && best.value in lv.index then lv.index[best.value] else NULL
    ensures Rep(lv.(best := r), nodes, l.(best := best))
  {
    hide LevelRep;
    var lv' := lv.(best := r);
    forall x | x in l.queues
      ensures LevelRep(lv', nodes, lv'.index[x], x, l.queues[x])
    {
      SameNodesSelf(nodes, l.queues[x]);
      LevelFrame(lv, lv', nodes, nodes, lv.index[x], x, l.queues[x]);
    }
  }

  // ----- Filling from one level, on snapshots -----

  // Where a walk along level idx stands: the arrays, the orders still queued
  // and the fills so far.
  datatype Cursor = Cursor(lv: Levels, nodes: seq<Node>, free: seq<nat>, queue: seq<nat>, fills: seq<Fill<nat>>)

  ghost predicate Walking(c: Cursor, ov: Levels, side: Side, l: Ladder, lo: Ladder, p: int) {
    && p in l.queues && Mid(c.lv, ov, c.nodes, l.(queues := l.queues[p := c.queue]), lo)
    && QueueOk(Orders(c.nodes), side, p, c.queue) && Apart(c.queue, l, p, lo)
    && |c.free| + |c.queue| <= POOL_CAPACITY
  }

  // The cursor after f units of the first order are filled.
  ghost function Advance(c: Cursor, idx: nat, f: int): (r: Cursor)
    requires Shape(c.lv) && idx < c.lv.used && c.lv.count[idx] > 0 && c.queue != [] && InNodes(c.nodes, c.queue)
  {
    var s := c.queue[0];
    var nodes := HitNodes(c.nodes, s, f);
    var lv := c.lv.(total := c.lv.total[idx := c.lv.total[idx] - f]);
    var fills := c.fills + [Fill(s, c.nodes[s].order.price, f)];
    if nodes[s].order.remaining == 0
    then Cursor(Unlinked(lv, idx, nodes[s], 0), UnlinkNodes(nodes, c.queue, 0), c.free + [s], c.queue[1..], fills)
    else Cursor(lv, nodes, c.free, c.queue, fills)
  }

  ghost predicate ReadyToFill(c: Cursor, idx: nat) {
    && Shape(c.lv) && idx < c.lv.used && c.lv.count[idx] > 0 && c.lv.head[idx] == First(c.queue)
    && c.queue != [] && InNodes(c.nodes, c.queue) && LinkOk(c.nodes, idx, c.queue, 0)
    && c.queue[0] < |c.nodes| && c.nodes[c.queue[0]].order.remaining > 0
  }

  lemma WalkingReady(c: Cursor, ov: Levels, side: Side, l: Ladder, lo: Ladder, p: int)
    requires Walking(c, ov, side, l, lo, p)
    ensures Shape(c.lv) && p in c.lv.index && c.lv.index[p] < c.lv.used && c.lv.active[c.lv.index[p]]
    ensures c.lv.count[c.lv.index[p]] == |c.queue| && |c.nodes| == POOL_CAPACITY
    ensures c.lv.head[c.lv.index[p]] == First(c.queue)
    ensures c.queue != [] ==> ReadyToFill(c, c.lv.index[p])
  {
    hide Rep; hide Apart; hide QueueOk; hide Threaded; hide QtySum;
    MidLevel(c.lv, ov, c.nodes, l.(queues := l.queues[p := c.queue]), lo, p);
    if c.queue != [] {
      ThreadedParts(c.nodes, c.lv.index[p], c.queue, 0);
      QueueHead(Orders(c.nodes), side, p, c.queue);
    }
  }

  lemma ApartTail(q: seq<nat>, l: Ladder, p: int, lo: Ladder)
    requires Apart(q, l, p, lo) && q != []
    ensures Apart(q[1..], l, p, lo)
  {
    assert forall s | s in q[1..] :: s in q;
  }

  lemma ApartSet(q: seq<nat>, l: Ladder, p: int, lo: Ladder, x: seq<nat>)
    requires Apart(q, l, p, lo)
    ensures Apart(q, l.(queues := l.queues[p := x]), p, lo)
  {
  }

  // The head of the list before and after the fill.
  lemma UnlinkFirst(nodes: seq<Node>, q: seq<nat>)
    requires q != []
    ensures RemoveAt(q, 0) == q[1..]
  {
  }

  lemma AdvanceKeeps(c: Cursor, ov: Levels, side: Side, l: Ladder, lo: Ladder, p: int, f: int)
    requires Walking(c, ov, side, l, lo, p) && c.queue != []
    requires c.queue[0] < |c.nodes| && 0 < f <= c.nodes[c.queue[0]].order.remaining
    ensures ReadyToFill(c, c.lv.index[p]) && p in c.lv.index
    ensures var c' := Advance(c, c.lv.index[p], f);
      Walking(c', ov, side, l, lo, p) && c'.lv.index == c.lv.index && c'.lv.used == c.lv.used
      && Orders(c'.nodes) == Hit(Orders(c.nodes), c.queue[0], f)
  {
    hide Rep; hide Apart; hide QueueOk; hide Hit; hide HitNodes; hide UnlinkNodes; hide Distinct; hide Unlinked;
    WalkingReady(c, ov, side, l, lo, p);
    var idx, s, l1 := c.lv.index[p], c.queue[0], l.(queues := l.queues[p := c.queue]);
    ApartSet(c.queue, l, p, lo, c.queue);
    assert c.queue + [] == c.queue;
    QueueDistinct(Orders(c.nodes), side, p, c.queue, []);
    HitMid(c.lv, ov, c.nodes, l1, lo, p, f);
    var lv, nodes := c.lv.(total := c.lv.total[idx := c.lv.total[idx] - f]), HitNodes(c.nodes, s, f);
    HitQueue(Orders(c.nodes), side, p, c.queue, f);
    HitNodesAt(c.nodes, s, f);
    if nodes[s].order.remaining == 0 {
      UnlinkMid(lv, ov, nodes, l1, lo, p, 0);
      UnlinkFirst(nodes, c.queue);
      ApartTail(c.queue, l, p, lo);
      UnlinkedIndex(lv, idx, nodes[s]);
      assert l1.(queues := l1.queues[p := c.queue[1..]]) == l.(queues := l.queues[p := c.queue[1..]]);
    }
  }

  lemma HitNodesAt(nodes: seq<Node>, s: nat, f: int)
    requires s < |nodes|
    ensures |HitNodes(nodes, s, f)| == |nodes|
    ensures HitNodes(nodes, s, f)[s].order.remaining == nodes[s].order.remaining - f
  {
  }

  // Where the walk ends: free stack and fills include what the cursor has done.
  ghost function Finish(c: Cursor, left: int, max: nat): (r: Walked) {
    var w := Walk(Orders(c.nodes), c.queue, left, max);
    Walked(w.pool, w.queue, c.free + w.freed, c.fills + w.fills, w.left)
  }

  // One fill brings the cursor nearer to the same end.
  lemma AdvanceWalks(c: Cursor, idx: nat, left: int, max: nat)
    requires ReadyToFill(c, idx) && left > 0 && max > 0
    requires Orders(Advance(c, idx, Min(left, c.nodes[c.queue[0]].order.remaining)).nodes) ==
      Hit(Orders(c.nodes), c.queue[0], Min(left, c.nodes[c.queue[0]].order.remaining))
    ensures var f := Min(left, c.nodes[c.queue[0]].order.remaining);
      Finish(Advance(c, idx, f), left - f, max - 1) == Finish(c, left, max)
  {
    hide Walk; hide Hit; hide UnlinkNodes; hide LinkOk; hide Shape; hide InNodes; hide Unlinked; hide HitNodes;
    var pool, q := Orders(c.nodes), c.queue;
    var f := Min(left, c.nodes[q[0]].order.remaining);
    HitNodesAt(c.nodes, q[0], f);
    var c', pool' := Advance(c, idx, f), Hit(pool, q[0], f);
    var fill := Fill(q[0], pool[q[0]].price, f);
    if f == pool[q[0]].remaining {
      WalkStep(pool, q, left, max);
      var w := Walk(pool', q[1..], left - f, max - 1);
      assert c.free + ([q[0]] + w.freed) == c.free + [q[0]] + w.freed;
      assert c.fills + ([fill] + w.fills) == c.fills + [fill] + w.fills;
    } else {
      WalkLast(pool, q, left, max);
      WalkStop(pool', q, 0, max - 1);
    }
  }

  lemma FinishDone(c: Cursor, left: int, max: nat)
    requires Stops(Orders(c.nodes), c.queue, left, max)
    ensures Finish(c, left, max) == Walked(Orders(c.nodes), c.queue, c.free, c.fills, left)
  {
  }

  // A walk over the best level of a book starts here.
  ghost function Start(lv: Levels, nodes: seq<Node>, free: seq<nat>, q: seq<nat>): (c: Cursor) {
    Cursor(lv, nodes, free, q, [])
  }

  lemma StartWalking(side: Side, lv: Levels, ov: Levels, nodes: seq<Node>, b: Book, p: int)
    requires BookRep(side, lv, ov, nodes, b.free, b.nextId, b) && Inv(b) && p in LadderOf(b, side).queues
    ensures var l, lo := LadderOf(b, side), LadderOf(b, Opposite(side));
      Walking(Start(lv, nodes, b.free, l.queues[p]), ov, side, l, lo, p)
  {
    hide Rep; hide QueueOk; hide Apart; hide Partition;
    var l := LadderOf(b, side);
    QueueApart(b, side, p);
    assert l.queues[p := l.queues[p]] == l.queues;
    FreeAndQueue(b, side, p);
  }

  // The free stack and a queue together fit in the pool.
  lemma FreeAndQueue(b: Book, side: Side, p: int)
    requires Inv(b) && p in LadderOf(b, side).queues
    ensures |b.free| + |LadderOf(b, side).queues[p]| <= |b.pool|
  {
    hide QueueOk;
    var q := LadderOf(b, side).queues[p];
    QueueLive(b, side, p);
    QueueApart(b, side, p);
    QueueInPool(b.pool, side, p, q);
    var x := b.free + q;
    assert Distinct(x);
    DistinctBound(x, |b.pool|);
  }

  // When the walk is over and an empty level dropped, the arrays stand for the
  // book after the level was taken.
  lemma EndWalking(side: Side, lv: Levels, nodes: seq<Node>, ov: Levels, b: Book, p: int, c: Cursor, qty: int,
                   max: nat, left: int)
    requires BookRep(side, lv, ov, nodes, b.free, b.nextId, b) && Inv(b) && p in LadderOf(b, side).queues
    requires Walking(c, ov, side, LadderOf(b, side), LadderOf(b, Opposite(side)), p)
    requires Finish(Start(lv, nodes, b.free, LadderOf(b, side).queues[p]), qty, max) ==
      Walked(Orders(c.nodes), c.queue, c.free, c.fills, left)
    ensures Shape(c.lv) && p in c.lv.index && c.lv.index[p] < c.lv.used
      && (c.lv.count[c.lv.index[p]] == 0 ==> c.lv.active[c.lv.index[p]])
    ensures var m := TakeLevel(b, side, p, qty, max);
      && BookRep(side, DroppedIfEmpty(c.lv, c.lv.index[p]), ov, c.nodes, c.free, b.nextId, m.book)
      && m.fills == c.fills && m.left == left && Inv(m.book)
  {
    hide Rep; hide QueueOk; hide Apart; hide Inv; hide Walk; hide DroppedIfEmpty; hide SetQueue;
    var l, lo := LadderOf(b, side), LadderOf(b, Opposite(side));
    WalkingReady(c, ov, side, l, lo, p);
    BestInLadder(b, side);
    DropRep(c.lv, ov, c.nodes, l.(queues := l.queues[p := c.queue]), lo, p);
    SetQueueTwice(l, p, c.queue);
    TakeLevelInv(b, side, p, qty, max);
    assert [] + c.fills == c.fills;
  }

  lemma LinkHit(nodes: seq<Node>, idx: nat, q: seq<nat>, f: int)
    requires q != [] && InNodes(nodes, q) && LinkOk(nodes, idx, q, 0)
    ensures var nodes' := HitNodes(nodes, q[0], f);
      && InNodes(nodes', q) && LinkOk(nodes', idx, q, 0) && |nodes'| == |nodes|
      && nodes'[q[0]] == nodes[q[0]].(order := nodes[q[0]].order.(remaining := nodes[q[0]].order.remaining - f))
  {
  }

  // Everything the loop along a level needs to know about its next fill.
  lemma FillPlan(c: Cursor, ov: Levels, side: Side, l: Ladder, lo: Ladder, p: int, idx: nat, left: int, max: nat)
    requires Walking(c, ov, side, l, lo, p) && c.queue != [] && left > 0 && max > 0
    requires p in c.lv.index && c.lv.index[p] == idx
    ensures ReadyToFill(c, idx) && |c.free| < POOL_CAPACITY && |c.nodes| == POOL_CAPACITY
    ensures var n := c.nodes[c.queue[0]];
      var f := Min(left, n.order.remaining);
      var c' := Advance(c, idx, f);
      && 0 < f <= left && c'.fills == c.fills + [Fill(c.queue[0], n.order.price, f)]
      && Walking(c', ov, side, l, lo, p) && p in c'.lv.index && c'.lv.index[p] == idx
      && (left - f > 0 ==> n.next == First(c'.queue))
      && Finish(c', left - f, max - 1) == Finish(c, left, max)
  {
    hide Walking; hide Finish; hide Hit; hide UnlinkNodes; hide Unlinked; hide HitNodes;
    WalkingReady(c, ov, side, l, lo, p);
    var f := Min(left, c.nodes[c.queue[0]].order.remaining);
    AdvanceKeeps(c, ov, side, l, lo, p, f);
    AdvanceWalks(c, idx, left, max);
    HitNodesAt(c.nodes, c.queue[0], f);
    WalkingRoom(c, ov, side, l, lo, p);
  }

  lemma WalkingRoom(c: Cursor, ov: Levels, side: Side, l: Ladder, lo: Ladder, p: int)
    requires Walking(c, ov, side, l, lo, p)
    ensures |c.free| + |c.queue| <= POOL_CAPACITY
  {
  }

  lemma WalkOver(c: Cursor, ov: Levels, side: Side, l: Ladder, lo: Ladder, p: int, left: int, max: nat)
    requires Walking(c, ov, side, l, lo, p) && (left <= 0 || max == 0 || First(c.queue) == NULL)
    ensures Finish(c, left, max) == Walked(Orders(c.nodes), c.queue, c.free, c.fills, left)
  {
    hide Walking; hide Finish;
    WalkingReady(c, ov, side, l, lo, p);
    FinishDone(c, left, max);
  }

  lemma CacheInRange(side: Side, lv: Levels, ov: Levels, nodes: seq<Node>, b: Book)
    requires BookRep(side, lv, ov, nodes, b.free, b.nextId, b)
    ensures lv.best == NULL || lv.best < lv.used
  {
    hide Rep;
    RepShape(lv, nodes, LadderOf(b, side));
  }

  lemma BestQueued(b: Book, side: Side)
    requires Inv(b)
    ensures var best := FindBest(side, LadderOf(b, side));
      best.Some? ==> best.value in LadderOf(Queried(b, side), side).queues
  {
    hide QueueOk; hide Partition;
  }
}
