/**
 The limit order book as values: a pool of order records, a stack of free
 slots and, for each side, a FIFO queue of slots per price together with the
 cached best price.  The functions are the book's operations; the array code
 is proved equal to them elsewhere.
 */
module LevelBook {
  import opened SortedBook

  const MAX_PRICE_LEVELS: nat := 4096

  // The size of the fill buffer of one incoming order.
  const FILL_BUFFER: nat := 64

  datatype Order = Order(exchangeId: nat, clientId: nat, owner: nat, price: int, remaining: int, side: Side)

  // `created` counts the level indices handed out; they are never reused.
  datatype Ladder = Ladder(queues: map<int, seq<nat>>, best: Option<int>, created: nat)

  datatype Book = Book(pool: seq<Order>, free: seq<nat>, bids: Ladder, asks: Ladder, nextId: nat)

  function EmptyLadder(): (l: Ladder) {
    Ladder(map[], None, 0)
  }

  function LadderOf(b: Book, side: Side): (l: Ladder) {
    if side == Buy then b.bids else b.asks
  }

  function WithLadder(b: Book, side: Side, l: Ladder): (r: Book) {
    if side == Buy then b.(bids := l) else b.(asks := l)
  }

  // ----- Best prices -----

  ghost predicate IsBest(side: Side, ps: set<int>, p: int) {
    p in ps && forall q | q in ps :: !Better(side, q, p)
  }

  lemma Element<T>(ps: set<T>) returns (p: T)
    requires ps != {}
    ensures p in ps
  {
    p :| p in ps;
  }

  lemma {:induction false} BestExists(side: Side, ps: set<int>)
    requires ps != {}
    ensures exists p :: IsBest(side, ps, p)
    decreases |ps|
  {
    var p := Element(ps);
    if ps == {p} {
      assert IsBest(side, ps, p);
    } else {
      BestExists(side, ps - {p});
      var q :| IsBest(side, ps - {p}, q);
      var r := if Better(side, q, p) then q else p;
      assert forall x | x in ps :: x == p || x in ps - {p};
      assert IsBest(side, ps, r);
    }
  }

  ghost function BestOf(side: Side, ps: set<int>): (p: int)
    requires ps != {}
    ensures IsBest(side, ps, p)
  {
    BestExists(side, ps);
    var p :| IsBest(side, ps, p);
    p
  }

  // The linear scan over the levels.
  ghost function Scan(side: Side, l: Ladder): (r: Option<int>) {
    if l.queues.Keys == {} then None else Some(BestOf(side, l.queues.Keys))
  }

  // The best price as the book answers it: the cache, or a scan that fills it.
  ghost function FindBest(side: Side, l: Ladder): (r: Option<int>) {
    if l.best.Some? then l.best else Scan(side, l)
  }

  ghost function Refresh(side: Side, l: Ladder): (r: Ladder) {
    l.(best := FindBest(side, l))
  }

  // The cache never names a price that is not the best.
  ghost predicate CacheOk(side: Side, l: Ladder) {
    l.best.Some? ==> l.best == Scan(side, l)
  }

  // The cache is also not empty unless the side is.
  ghost predicate Fresh(side: Side, l: Ladder) {
    l.best == Scan(side, l)
  }

  // ----- Operations -----

  // Removing the (emptied) level of price p clears the cache if it named p.
  function Deactivate(l: Ladder, p: int): (r: Ladder) {
    l.(queues := l.queues - {p}, best := if l.best == Some(p) then None else l.best)
  }

  function SetQueue(l: Ladder, p: int, q: seq<nat>): (r: Ladder) {
    if q == [] then Deactivate(l, p) else l.(queues := l.queues[p := q])
  }

  function Improve(side: Side, best: Option<int>, p: int): (r: Option<int>) {
    if best.None? || Better(side, p, best.value) then Some(p) else best
  }

  datatype Added = Added(book: Book, slot: Option<nat>)

  // Rests an order; fails when no slot is free or no level can be created.  A
  // failure for lack of a level has already overwritten the slot on top of the
  // free stack and used up an exchange id.
  function AddOrder(b: Book, owner: nat, clientId: nat, side: Side, price: int, qty: int): (r: Added) {
    if b.free == [] || b.free[|b.free| - 1] >= |b.pool| then Added(b, None)
    else
      var s := b.free[|b.free| - 1];
      var l := LadderOf(b, side);
      var b1 := b.(pool := b.pool[s := Order(b.nextId, clientId, owner, price, qty, side)], nextId := b.nextId + 1);
      if price !in l.queues && l.created >= MAX_PRICE_LEVELS then Added(b1, None)
      else
        var l1 := if price in l.queues
                  then l.(queues := l.queues[price := l.queues[price] + [s]])
                  else l.(queues := l.queues[price := [s]], created := l.created + 1);
        Added(WithLadder(b1.(free := b.free[..|b.free| - 1]), side, l1.(best := Improve(side, l.best, price))), Some(s))
  }

  function At(q: map<int, seq<nat>>, p: int): (r: seq<nat>) {
    if p in q then q[p] else []
  }

  // The slot holds a resting order.
  predicate Live(b: Book, s: nat) {
    s < |b.pool| && s in At(LadderOf(b, b.pool[s].side).queues, b.pool[s].price)
  }

  predicate InPool(pool: seq<Order>, q: seq<nat>) {
    forall i | 0 <= i < |q| :: q[i] < |pool|
  }

  function Without(q: seq<nat>, s: nat): (r: seq<nat>) {
    if q == [] then [] else if q[0] == s then q[1..] else [q[0]] + Without(q[1..], s)
  }

  // Unlinks a live order; an index out of range or a slot with no quantity is refused.
  function CancelOrder(b: Book, s: nat): (r: (Book, bool))
    requires s < |b.pool| && b.pool[s].remaining > 0 ==> Live(b, s)
  {
    if s >= |b.pool| || b.pool[s].remaining <= 0 then (b, false)
    else
      var o := b.pool[s];
      var l := LadderOf(b, o.side);
      var l1 := SetQueue(l, o.price, Without(At(l.queues, o.price), s));
      (WithLadder(b.(pool := b.pool[s := o.(remaining := 0)], free := b.free + [s]), o.side, l1), true)
  }

  datatype Walked = Walked(pool: seq<Order>, queue: seq<nat>, freed: seq<nat>, fills: seq<Fill<nat>>, left: int)

  // The pool after f units of the order in slot s are filled.
  function Hit(pool: seq<Order>, s: nat, f: int): (r: seq<Order>) {
    if s < |pool| then pool[s := pool[s].(remaining := pool[s].remaining - f)] else pool
  }

  predicate Stops(pool: seq<Order>, q: seq<nat>, qty: int, max: nat) {
    q == [] || q[0] >= |pool| || qty <= 0 || max == 0
  }

  // Fills from one level's queue; makers are named by their slots.
  function Walk(pool: seq<Order>, q: seq<nat>, qty: int, max: nat): (r: Walked)
    decreases max
  {
    if Stops(pool, q, qty, max) then Walked(pool, q, [], [], qty)
    else
      var o := pool[q[0]];
      var f := Min(qty, o.remaining);
      var fill := Fill(q[0], o.price, f);
      if f == o.remaining then
        var w := Walk(Hit(pool, q[0], f), q[1..], qty - f, max - 1);
        w.(freed := [q[0]] + w.freed, fills := [fill] + w.fills)
      else
        Walked(Hit(pool, q[0], f), q, [], [fill], qty - f)
  }

  datatype Matched = Matched(book: Book, fills: seq<Fill<nat>>, left: int)

  // One level: fills from its queue and drops the level if that empties it.
  function TakeLevel(b: Book, side: Side, p: int, qty: int, max: nat): (r: Matched) {
    var l := LadderOf(b, side);
    var w := Walk(b.pool, At(l.queues, p), qty, max);
    Matched(WithLadder(b.(pool := w.pool, free := b.free + w.freed), side, SetQueue(l, p, w.queue)), w.fills, w.left)
  }

  // The book after the best price of a side has been asked for.
  ghost function Queried(b: Book, side: Side): (r: Book) {
    WithLadder(b, side, Refresh(side, LadderOf(b, side)))
  }

  // Fills level by level, best first, while the price crosses.  A level always
  // yields a fill, as its queue is not empty.
  ghost function Match(b: Book, aggressor: Side, limit: Option<int>, qty: int, max: nat): (r: Matched)
    decreases max
  {
    var side := Opposite(aggressor);
    if qty <= 0 || max == 0 then Matched(b, [], qty)
    else
      var b1 := Queried(b, side);
      var best := LadderOf(b1, side).best;
      if best.None? || !Crosses(aggressor, limit, best.value) then Matched(b1, [], qty)
      else
        var m := TakeLevel(b1, side, best.value, qty, max);
        if 0 < |m.fills| <= max then
          var r := Match(m.book, aggressor, limit, m.left, max - |m.fills|);
          r.(fills := m.fills + r.fills)
        else m
  }
}
