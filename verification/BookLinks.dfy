/**
 How the arrays of the order book stand for a ladder: parallel arrays of price
 levels, and a doubly linked list of pool slots per level.
 */
module BookLinks {
  import opened Counting
  import opened SortedBook
  import opened LevelBook
  import opened BookTheory
  import PriceMap

  const NULL: nat := PriceMap.NULL_INDEX
  const POOL_CAPACITY: nat := 131072

  // An order record of the pool with its list links.
  datatype Node = Node(order: Order, next: nat, prev: nat, level: nat)

  // A snapshot of the level arrays of one side; `index` is the price map.
  datatype Levels = Levels(prices: seq<int>, total: seq<int>, count: seq<nat>, head: seq<nat>, tail: seq<nat>,
                           active: seq<bool>, used: nat, best: nat, index: map<int, nat>)

  ghost predicate Shape(lv: Levels) {
    && |lv.prices| == |lv.total| == |lv.count| == |lv.head| == |lv.tail| == |lv.active| == MAX_PRICE_LEVELS
    && lv.used <= MAX_PRICE_LEVELS
  }

  ghost function Orders(nodes: seq<Node>): (r: seq<Order>)
    ensures |r| == |nodes| && forall i | 0 <= i < |r| :: r[i] == nodes[i].order
  {
    seq(|nodes|, i requires 0 <= i < |nodes| => nodes[i].order)
  }

  ghost function QtySum(nodes: seq<Node>, q: seq<nat>): (r: int) {
    if q == [] then 0
    else (if q[0] < |nodes| then nodes[q[0]].order.remaining else 0) + QtySum(nodes, q[1..])
  }

  function First(q: seq<nat>): (r: nat) {
    if q == [] then NULL else q[0]
  }

  function Last(q: seq<nat>): (r: nat) {
    if q == [] then NULL else q[|q| - 1]
  }

  ghost predicate LinkOk(nodes: seq<Node>, idx: nat, q: seq<nat>, i: nat)
    requires i < |q|
  {
    && q[i] < |nodes| && nodes[q[i]].level == idx
    && nodes[q[i]].next == (if i + 1 < |q| then q[i + 1] else NULL)
    && nodes[q[i]].prev == (if i > 0 then q[i - 1] else NULL)
  }

  // The queue is the list threaded through the nodes.
  ghost predicate Threaded(nodes: seq<Node>, idx: nat, q: seq<nat>) {
    && InNodes(nodes, q)
    && forall i | 0 <= i < |q| :: LinkOk(nodes, idx, q, i)
  }

  ghost predicate InNodes(nodes: seq<Node>, q: seq<nat>) {
    forall i | 0 <= i < |q| :: q[i] < |nodes|
  }

  // Level idx is the active level of price p, and q its queue.
  ghost predicate LevelRep(lv: Levels, nodes: seq<Node>, idx: nat, p: int, q: seq<nat>) {
    && Shape(lv) && idx < lv.used && lv.active[idx] && lv.prices[idx] == p
    && lv.count[idx] == |q| && lv.total[idx] == QtySum(nodes, q)
    && lv.head[idx] == First(q) && lv.tail[idx] == Last(q)
    && Threaded(nodes, idx, q)
  }

  // The price map names exactly the active levels.
  ghost predicate Indexed(lv: Levels) {
    && Shape(lv)
    && (forall p | p in lv.index :: lv.index[p] < lv.used && lv.active[lv.index[p]] && lv.prices[lv.index[p]] == p)
    && (forall i | 0 <= i < lv.used && lv.active[i] :: lv.prices[i] in lv.index && lv.index[lv.prices[i]] == i)
  }

  ghost predicate Rep(lv: Levels, nodes: seq<Node>, l: Ladder) {
    && Indexed(lv) && lv.index.Keys == l.queues.Keys && lv.used == l.created
    && (forall p | p in l.queues :: LevelRep(lv, nodes, lv.index[p], p, l.queues[p]))
    && lv.best == (if l.best.Some? && l.best.value in lv.index then lv.index[l.best.value] else NULL)
  }

  // ----- Frames -----

  // Entry idx is the same in both snapshots.
  ghost predicate SameLevel(lv: Levels, lv': Levels, idx: nat) {
    && Shape(lv) && Shape(lv') && idx < MAX_PRICE_LEVELS
    && lv'.prices[idx] == lv.prices[idx] && lv'.total[idx] == lv.total[idx] && lv'.count[idx] == lv.count[idx]
    && lv'.head[idx] == lv.head[idx] && lv'.tail[idx] == lv.tail[idx] && lv'.active[idx] == lv.active[idx]
  }

  ghost predicate SameNodes(nodes: seq<Node>, nodes': seq<Node>, q: seq<nat>) {
    |nodes'| == |nodes| && forall i | 0 <= i < |q| && q[i] < |nodes| :: nodes'[q[i]] == nodes[q[i]]
  }

  lemma {:induction false} QtySumFrame(nodes: seq<Node>, nodes': seq<Node>, q: seq<nat>)
    requires SameNodes(nodes, nodes', q)
    ensures QtySum(nodes', q) == QtySum(nodes, q)
  {
    if q != [] {
      assert SameNodes(nodes, nodes', q[1..]) by {
        assert forall i | 0 <= i < |q[1..]| :: q[1..][i] == q[i + 1];
      }
      QtySumFrame(nodes, nodes', q[1..]);
      assert q[0] < |nodes| ==> nodes'[q[0]] == nodes[q[0]];
    }
  }

  lemma LevelFrame(lv: Levels, lv': Levels, nodes: seq<Node>, nodes': seq<Node>, idx: nat, p: int, q: seq<nat>)
    requires LevelRep(lv, nodes, idx, p, q) && SameLevel(lv, lv', idx) && SameNodes(nodes, nodes', q)
    requires idx < lv'.used
    ensures LevelRep(lv', nodes', idx, p, q)
  {
    QtySumFrame(nodes, nodes', q);
    ThreadedFrame(nodes, nodes', idx, q);
  }

  lemma ThreadedFrame(nodes: seq<Node>, nodes': seq<Node>, idx: nat, q: seq<nat>)
    requires Threaded(nodes, idx, q) && SameNodes(nodes, nodes', q)
    ensures Threaded(nodes', idx, q)
  {
    forall i | 0 <= i < |q|
      ensures LinkOk(nodes', idx, q, i)
    {
      assert LinkOk(nodes, idx, q, i);
    }
  }

  // ----- Sums -----

  lemma {:induction false} QtySumConcat(nodes: seq<Node>, a: seq<nat>, c: seq<nat>)
    ensures QtySum(nodes, a + c) == QtySum(nodes, a) + QtySum(nodes, c)
  {
    if a == [] {
      assert a + c == c;
    } else {
      assert (a + c)[1..] == a[1..] + c;
      QtySumConcat(nodes, a[1..], c);
    }
  }

  // ----- The list operations on one level -----

  // Appending slot s behind the tail t (NULL: the list is empty) of level idx.
  ghost function AppendNodes(nodes: seq<Node>, t: nat, s: nat, idx: nat): (r: seq<Node>)
    requires s < |nodes| && (t == NULL || t < |nodes|)
  {
    var nodes1 := nodes[s := nodes[s].(level := idx, prev := t)];
    if t == NULL then nodes1 else nodes1[t := nodes1[t].(next := s)]
  }

  lemma AppendThreaded(nodes: seq<Node>, q: seq<nat>, s: nat, idx: nat)
    requires Threaded(nodes, idx, q) && s < |nodes| < NULL && s !in q && Distinct(q) && nodes[s].next == NULL
    ensures q != [] ==> Last(q) < |nodes|
    ensures Threaded(AppendNodes(nodes, Last(q), s, idx), idx, q + [s])
  {
    var r, nodes' := q + [s], AppendNodes(nodes, Last(q), s, idx);
    forall i | 0 <= i < |r|
      ensures LinkOk(nodes', idx, r, i)
    {
      if i < |q| {
        assert LinkOk(nodes, idx, q, i);
        assert q[i] != s;
      }
    }
  }

  lemma AppendSum(nodes: seq<Node>, q: seq<nat>, s: nat, idx: nat)
    requires s < |nodes| < NULL && s !in q && (q != [] ==> Last(q) < |nodes|)
    ensures QtySum(AppendNodes(nodes, Last(q), s, idx), q + [s]) == QtySum(nodes, q) + nodes[s].order.remaining
  {
    var nodes' := AppendNodes(nodes, Last(q), s, idx);
    QtySumConcat(nodes', q, [s]);
    SumSameOrders(nodes, nodes', q);
  }

  lemma {:induction false} SumSameOrders(nodes: seq<Node>, nodes': seq<Node>, q: seq<nat>)
    requires |nodes'| == |nodes|
    requires forall i | 0 <= i < |q| && q[i] < |nodes| :: nodes'[q[i]].order.remaining == nodes[q[i]].order.remaining
    ensures QtySum(nodes', q) == QtySum(nodes, q)
  {
    if q != [] {
      assert forall i | 0 <= i < |q[1..]| :: q[1..][i] == q[i + 1];
      SumSameOrders(nodes, nodes', q[1..]);
    }
  }

  // Unlinking the k-th slot of the list.
  ghost function UnlinkNodes(nodes: seq<Node>, q: seq<nat>, k: nat): (r: seq<Node>)
    requires k < |q| && InNodes(nodes, q)
  {
    var nodes1 := if k > 0 then nodes[q[k - 1] := nodes[q[k - 1]].(next := nodes[q[k]].next)] else nodes;
    if k + 1 < |q| then nodes1[q[k + 1] := nodes1[q[k + 1]].(prev := nodes[q[k]].prev)] else nodes1
  }

  // Only the neighbours of the unlinked slot change, each in one link.
  lemma UnlinkAt(nodes: seq<Node>, q: seq<nat>, k: nat, j: nat)
    requires k < |q| && j < |q| && j != k && Distinct(q) && InNodes(nodes, q)
    ensures var n := UnlinkNodes(nodes, q, k)[q[j]];
      && n.order == nodes[q[j]].order && n.level == nodes[q[j]].level
      && n.next == (if j + 1 == k then nodes[q[k]].next else nodes[q[j]].next)
      && n.prev == (if j == k + 1 then nodes[q[k]].prev else nodes[q[j]].prev)
  {
  }

  lemma UnlinkThreaded(nodes: seq<Node>, idx: nat, q: seq<nat>, k: nat)
    requires Threaded(nodes, idx, q) && Distinct(q) && k < |q|
    ensures Threaded(UnlinkNodes(nodes, q, k), idx, RemoveAt(q, k))
  {
    hide UnlinkNodes;
    var r, nodes' := RemoveAt(q, k), UnlinkNodes(nodes, q, k);
    UnlinkLength(nodes, q, k);
    forall i | 0 <= i < |r|
      ensures LinkOk(nodes', idx, r, i)
    {
      var j := if i < k then i else i + 1;
      UnlinkAt(nodes, q, k, j);
      assert LinkOk(nodes, idx, q, j) && LinkOk(nodes, idx, q, k);
      assert r[i] == q[j];
      assert i + 1 < |r| ==> r[i + 1] == if i + 1 < k then q[i + 1] else q[i + 2];
      assert i > 0 ==> r[i - 1] == if i - 1 < k then q[i - 1] else q[i];
    }
  }

  lemma UnlinkLength(nodes: seq<Node>, q: seq<nat>, k: nat)
    requires k < |q| && InNodes(nodes, q)
    ensures |UnlinkNodes(nodes, q, k)| == |nodes|
  {
  }

  lemma UnlinkSum(nodes: seq<Node>, idx: nat, q: seq<nat>, k: nat)
    requires Threaded(nodes, idx, q) && Distinct(q) && k < |q|
    ensures QtySum(UnlinkNodes(nodes, q, k), RemoveAt(q, k)) == QtySum(nodes, q) - nodes[q[k]].order.remaining
  {
    var nodes' := UnlinkNodes(nodes, q, k);
    SumSameOrders(nodes, nodes', RemoveAt(q, k));
    assert q == q[..k] + ([q[k]] + q[k + 1..]);
    QtySumConcat(nodes, q[..k], [q[k]] + q[k + 1..]);
    QtySumConcat(nodes, [q[k]], q[k + 1..]);
    QtySumConcat(nodes, q[..k], q[k + 1..]);
  }

  // ----- The ladder as a whole -----

  // Nodes outside `touched` are the same.
  ghost predicate NodesOutside(nodes: seq<Node>, nodes': seq<Node>, touched: seq<nat>) {
    |nodes'| == |nodes| && forall x | 0 <= x < |nodes| && x !in touched :: nodes'[x] == nodes[x]
  }

  lemma OutsideSame(nodes: seq<Node>, nodes': seq<Node>, touched: seq<nat>, q: seq<nat>)
    requires NodesOutside(nodes, nodes', touched) && Disjoint(touched, q)
    ensures SameNodes(nodes, nodes', q)
  {
  }

  // Nodes of no queue of this ladder changed.
  lemma RepNodes(lv: Levels, nodes: seq<Node>, nodes': seq<Node>, l: Ladder, touched: seq<nat>)
    requires Rep(lv, nodes, l) && NodesOutside(nodes, nodes', touched)
    requires forall x | x in l.queues :: Disjoint(touched, l.queues[x])
    ensures Rep(lv, nodes', l)
  {
    hide LevelRep; hide NodesOutside; hide Disjoint; hide SameNodes;
    forall x | x in l.queues
      ensures LevelRep(lv, nodes', lv.index[x], x, l.queues[x])
    {
      OutsideSame(nodes, nodes', touched, l.queues[x]);
      LevelFrame(lv, lv, nodes, nodes', lv.index[x], x, l.queues[x]);
    }
  }

  // Only the totals, counts, heads and tails of level idx may differ.
  ghost predicate OnlyLevel(lv: Levels, lv': Levels, idx: nat) {
    && Shape(lv) && Shape(lv') && idx < MAX_PRICE_LEVELS
    && lv'.prices == lv.prices && lv'.active == lv.active && lv'.used == lv.used
    && lv'.best == lv.best && lv'.index == lv.index
    && forall j | 0 <= j < MAX_PRICE_LEVELS && j != idx :: SameLevel(lv, lv', j)
  }

  lemma RepLevel(lv: Levels, lv': Levels, nodes: seq<Node>, nodes': seq<Node>, l: Ladder, p: int, q: seq<nat>,
                 touched: seq<nat>)
    requires Rep(lv, nodes, l) && p in l.queues && OnlyLevel(lv, lv', lv.index[p])
    requires LevelRep(lv', nodes', lv.index[p], p, q)
    requires NodesOutside(nodes, nodes', touched)
    requires forall x | x in l.queues && x != p :: Disjoint(touched, l.queues[x])
    ensures Rep(lv', nodes', l.(queues := l.queues[p := q]))
  {
    hide LevelRep; hide NodesOutside; hide Disjoint; hide SameNodes;
    forall x | x in l.queues && x != p
      ensures LevelRep(lv', nodes', lv'.index[x], x, l.queues[x])
    {
      OutsideSame(nodes, nodes', touched, l.queues[x]);
      assert lv.index[x] != lv.index[p];
      LevelFrame(lv, lv', nodes, nodes', lv.index[x], x, l.queues[x]);
    }
  }

  // The snapshot after a level for p is created at the next index.
  ghost function Created(lv: Levels, p: int): (r: Levels)
    requires Shape(lv) && lv.used < MAX_PRICE_LEVELS
  {
    var i := lv.used;
    Levels(lv.prices[i := p], lv.total[i := 0], lv.count[i := 0], lv.head[i := NULL], lv.tail[i := NULL],
           lv.active[i := true], i + 1, lv.best, lv.index[p := i])
  }

  lemma RepCreate(lv: Levels, nodes: seq<Node>, l: Ladder, p: int)
    requires Rep(lv, nodes, l) && p !in l.queues && lv.used < MAX_PRICE_LEVELS
    requires l.best.Some? ==> l.best.value in l.queues
    ensures Rep(Created(lv, p), nodes, l.(queues := l.queues[p := []], created := l.created + 1))
  {
    hide LevelRep;
    var lv' := Created(lv, p);
    forall x | x in l.queues
      ensures LevelRep(lv', nodes, lv'.index[x], x, l.queues[x])
    {
      LevelFrame(lv, lv', nodes, nodes, lv.index[x], x, l.queues[x]);
    }
    CreatedLevel(lv, nodes, p);
  }

  lemma CreatedLevel(lv: Levels, nodes: seq<Node>, p: int)
    requires Shape(lv) && lv.used < MAX_PRICE_LEVELS
    ensures LevelRep(Created(lv, p), nodes, lv.used, p, [])
  {
  }

  // The snapshot after level idx is deactivated.
  ghost function Deactivated(lv: Levels, idx: nat): (r: Levels)
    requires Shape(lv) && idx < MAX_PRICE_LEVELS
  {
    lv.(active := lv.active[idx := false], index := lv.index - {lv.prices[idx]},
        best := if lv.best == idx then NULL else lv.best)
  }

  lemma RepDeactivate(lv: Levels, nodes: seq<Node>, l: Ladder, p: int)
    requires Rep(lv, nodes, l) && p in l.queues && (l.best.Some? ==> l.best.value in l.queues)
    ensures Rep(Deactivated(lv, lv.index[p]), nodes, Deactivate(l, p))
  {
    hide LevelRep;
    var lv' := Deactivated(lv, lv.index[p]);
    forall x | x in l.queues && x != p
      ensures LevelRep(lv', nodes, lv'.index[x], x, l.queues[x])
    {
      assert lv.index[x] != lv.index[p];
      LevelFrame(lv, lv', nodes, nodes, lv.index[x], x, l.queues[x]);
    }
    assert lv.index[p] < MAX_PRICE_LEVELS < NULL;
  }

  // ----- What each operation does to its level -----

  // Level idx after slot s with qty units joins its list.
  ghost function Appended(lv: Levels, idx: nat, s: nat, qty: int): (r: Levels)
    requires Shape(lv) && idx < MAX_PRICE_LEVELS
  {
    lv.(head := if lv.tail[idx] == NULL then lv.head[idx := s] else lv.head, tail := lv.tail[idx := s],
        total := lv.total[idx := lv.total[idx] + qty], count := lv.count[idx := lv.count[idx] + 1])
  }

  lemma AppendLevel(lv: Levels, nodes: seq<Node>, idx: nat, p: int, q: seq<nat>, s: nat)
    requires LevelRep(lv, nodes, idx, p, q) && Distinct(q) && s < |nodes| < NULL && s !in q && nodes[s].next == NULL
    ensures lv.tail[idx] == Last(q) && (q != [] ==> Last(q) < |nodes|)
    ensures var lv', nodes' := Appended(lv, idx, s, nodes[s].order.remaining), AppendNodes(nodes, Last(q), s, idx);
      && LevelRep(lv', nodes', idx, p, q + [s]) && OnlyLevel(lv, lv', idx)
      && NodesOutside(nodes, nodes', q + [s]) && Orders(nodes') == Orders(nodes)
  {
    hide Threaded; hide QtySum;
    AppendThreaded(nodes, q, s, idx);
    AppendSum(nodes, q, s, idx);
    AppendOutside(nodes, q, s, idx);
    TailNull(lv, nodes, idx, p, q);
  }

  lemma AppendOutside(nodes: seq<Node>, q: seq<nat>, s: nat, idx: nat)
    requires s < |nodes| && (q != [] ==> Last(q) < |nodes|)
    ensures var nodes' := AppendNodes(nodes, Last(q), s, idx);
      NodesOutside(nodes, nodes', q + [s]) && Orders(nodes') == Orders(nodes)
  {
    assert q != [] ==> Last(q) in q;
  }

  lemma TailNull(lv: Levels, nodes: seq<Node>, idx: nat, p: int, q: seq<nat>)
    requires LevelRep(lv, nodes, idx, p, q) && |nodes| < NULL
    ensures lv.tail[idx] == NULL <==> q == []
  {
  }

  // Level idx after a list entry with these links is taken out; the entry had
  // qty units.
  ghost function Unlinked(lv: Levels, idx: nat, n: Node, qty: int): (r: Levels)
    requires Shape(lv) && idx < MAX_PRICE_LEVELS && lv.count[idx] > 0
  {
    lv.(head := if n.prev == NULL then lv.head[idx := n.next] else lv.head,
        tail := if n.next == NULL then lv.tail[idx := n.prev] else lv.tail,
        total := lv.total[idx := lv.total[idx] - qty], count := lv.count[idx := lv.count[idx] - 1])
  }

  lemma UnlinkLevel(lv: Levels, nodes: seq<Node>, idx: nat, p: int, q: seq<nat>, k: nat)
    requires LevelRep(lv, nodes, idx, p, q) && Distinct(q) && k < |q| && |nodes| < NULL
    ensures InNodes(nodes, q) && lv.count[idx] > 0
    ensures var lv' := Unlinked(lv, idx, nodes[q[k]], nodes[q[k]].order.remaining);
      LevelRep(lv', UnlinkNodes(nodes, q, k), idx, p, RemoveAt(q, k)) && OnlyLevel(lv, lv', idx)
    ensures NodesOutside(nodes, UnlinkNodes(nodes, q, k), q)
  {
    hide Threaded; hide QtySum; hide UnlinkNodes; hide RemoveAt; hide First; hide Last; hide InNodes; hide NodesOutside;
    ThreadedParts(nodes, idx, q, k);
    UnlinkThreaded(nodes, idx, q, k);
    UnlinkSum(nodes, idx, q, k);
    UnlinkOutside(nodes, q, k);
    UnlinkEnds(nodes, idx, q, k);
  }

  lemma ThreadedParts(nodes: seq<Node>, idx: nat, q: seq<nat>, k: nat)
    requires Threaded(nodes, idx, q) && k < |q|
    ensures InNodes(nodes, q) && LinkOk(nodes, idx, q, k)
  {
  }

  lemma UnlinkEnds(nodes: seq<Node>, idx: nat, q: seq<nat>, k: nat)
    requires k < |q| && InNodes(nodes, q) && LinkOk(nodes, idx, q, k) && |nodes| < NULL
    ensures |RemoveAt(q, k)| == |q| - 1
    ensures First(RemoveAt(q, k)) == if nodes[q[k]].prev == NULL then nodes[q[k]].next else First(q)
    ensures Last(RemoveAt(q, k)) == if nodes[q[k]].next == NULL then nodes[q[k]].prev else Last(q)
  {
  }

  lemma UnlinkOutside(nodes: seq<Node>, q: seq<nat>, k: nat)
    requires k < |q| && InNodes(nodes, q)
    ensures NodesOutside(nodes, UnlinkNodes(nodes, q, k), q)
  {
  }

  // A partial or full fill of f units of the order in slot q[0].
  ghost function HitNodes(nodes: seq<Node>, s: nat, f: int): (r: seq<Node>)
    requires s < |nodes|
  {
    nodes[s := nodes[s].(order := nodes[s].order.(remaining := nodes[s].order.remaining - f))]
  }

  lemma HitLevel(lv: Levels, nodes: seq<Node>, idx: nat, p: int, q: seq<nat>, f: int)
    requires LevelRep(lv, nodes, idx, p, q) && Distinct(q) && q != []
    ensures q[0] < |nodes|
    ensures var lv' := lv.(total := lv.total[idx := lv.total[idx] - f]);
      LevelRep(lv', HitNodes(nodes, q[0], f), idx, p, q) && OnlyLevel(lv, lv', idx)
    ensures NodesOutside(nodes, HitNodes(nodes, q[0], f), q)
    ensures Orders(HitNodes(nodes, q[0], f)) == Hit(Orders(nodes), q[0], f)
  {
    var nodes' := HitNodes(nodes, q[0], f);
    SumSameOrders(nodes, nodes', q[1..]);
    forall i | 0 <= i < |q|
      ensures LinkOk(nodes', idx, q, i)
    {
      assert LinkOk(nodes, idx, q, i);
    }
  }

  // The ladder once a level for the price exists.
  ghost function WithLevel(l: Ladder, price: int): (r: Ladder) {
    if price in l.queues then l else l.(queues := l.queues[price := []], created := l.created + 1)
  }

  ghost function LevelsWith(lv: Levels, price: int): (r: Levels)
    requires Shape(lv) && (price !in lv.index ==> lv.used < MAX_PRICE_LEVELS)
  {
    if price in lv.index then lv else Created(lv, price)
  }

  ghost function BestUpdated(side: Side, lv: Levels, idx: nat): (r: Levels)
    requires Shape(lv) && idx < MAX_PRICE_LEVELS && (lv.best == NULL || lv.best < MAX_PRICE_LEVELS)
  {
    lv.(best := if lv.best == NULL || Better(side, lv.prices[idx], lv.prices[lv.best]) then idx else lv.best)
  }

  // Slot s can be linked to the end of level idx.
  ghost predicate CanLink(lv: Levels, idx: nat, nodes: seq<Node>, s: nat) {
    && Shape(lv) && idx < lv.used && s < |nodes| && (lv.tail[idx] == NULL || lv.tail[idx] < |nodes|)
    && (lv.best == NULL || lv.best < lv.used)
  }

  // The levels and the nodes after slot s has been linked.
  ghost function LinkedLevels(side: Side, lv: Levels, idx: nat, nodes: seq<Node>, s: nat, qty: int): (r: Levels)
    requires CanLink(lv, idx, nodes, s)
  {
    BestUpdated(side, Appended(lv, idx, s, qty), idx)
  }

  ghost function LinkedNodes(lv: Levels, idx: nat, nodes: seq<Node>, s: nat): (r: seq<Node>)
    requires CanLink(lv, idx, nodes, s)
  {
    AppendNodes(nodes, lv.tail[idx], s, idx)
  }
}
