/**
 What the level book means: flattened best price first it is a sorted book, and
 its operations are the sorted book's.
 */
module BookTheory {
  import opened Counting
  import opened SortedBook
  import opened LevelBook

  // ----- The invariant -----

  // One price: its orders carry that price and side, have quantity left, and
  // stand in the order they arrived.
  ghost predicate QueueOk(pool: seq<Order>, side: Side, p: int, q: seq<nat>) {
    && InPool(pool, q)
    && (forall i | 0 <= i < |q| :: pool[q[i]].price == p && pool[q[i]].side == side && pool[q[i]].remaining > 0)
    && (forall i, j | 0 <= i < j < |q| :: pool[q[i]].exchangeId < pool[q[j]].exchangeId)
  }

  // Levels are not empty, and the cache names one of them.
  ghost predicate LadderOk(pool: seq<Order>, side: Side, l: Ladder) {
    && (l.best.Some? ==> l.best.value in l.queues)
    && forall p | p in l.queues :: l.queues[p] != [] && QueueOk(pool, side, p, l.queues[p])
  }

  // The free stack and the queues share the pool out between them.
  ghost predicate Partition(b: Book) {
    && InPool(b.pool, b.free) && Distinct(b.free)
    && (forall i | 0 <= i < |b.free| :: !Live(b, b.free[i]))
    && (forall s | 0 <= s < |b.pool| :: Live(b, s) || s in b.free)
  }

  ghost predicate Inv(b: Book) {
    && LadderOk(b.pool, Buy, b.bids)
    && LadderOk(b.pool, Sell, b.asks)
    && (forall s | 0 <= s < |b.pool| :: b.pool[s].exchangeId < b.nextId)
    && Partition(b)
  }

  ghost predicate CachesOk(b: Book) {
    CacheOk(Buy, b.bids) && CacheOk(Sell, b.asks)
  }

  ghost predicate AllFresh(b: Book) {
    Fresh(Buy, b.bids) && Fresh(Sell, b.asks)
  }

  // ----- Flattening a ladder -----

  ghost function Flat(side: Side, q: map<int, seq<nat>>): (r: seq<nat>)
    decreases |q.Keys|
  {
    if q.Keys == {} then [] else
      var p := BestOf(side, q.Keys);
      assert (q - {p}).Keys == q.Keys - {p};
      q[p] + Flat(side, q - {p})
  }

  ghost function Above(side: Side, q: map<int, seq<nat>>, p: int): (r: map<int, seq<nat>>) {
    map x | x in q && Better(side, x, p) :: q[x]
  }

  ghost function Below(side: Side, q: map<int, seq<nat>>, p: int): (r: map<int, seq<nat>>) {
    map x | x in q && Better(side, p, x) :: q[x]
  }

  lemma BestUnique(side: Side, ps: set<int>, p: int)
    requires ps != {} && IsBest(side, ps, p)
    ensures BestOf(side, ps) == p
  {
  }

  lemma FlatBest(side: Side, q: map<int, seq<nat>>, b: int)
    requires IsBest(side, q.Keys, b)
    ensures Flat(side, q) == q[b] + Flat(side, q - {b})
  {
    BestUnique(side, q.Keys, b);
  }

  lemma FlatEmpty(side: Side, q: map<int, seq<nat>>)
    requires q.Keys == {}
    ensures Flat(side, q) == []
  {
  }

  // The best price better than p heads the part above p.
  lemma AboveBest(side: Side, q: map<int, seq<nat>>, p: int, b: int)
    requires IsBest(side, q.Keys, b) && Better(side, b, p)
    ensures Flat(side, Above(side, q, p)) == q[b] + Flat(side, Above(side, q - {b}, p))
    ensures Below(side, q - {b}, p) == Below(side, q, p) && At(q - {b}, p) == At(q, p)
  {
    var a := Above(side, q, p);
    assert a - {b} == Above(side, q - {b}, p);
    FlatBest(side, a, b);
  }

  // Nothing is above a price that the best does not beat.
  lemma FlatSplitTop(side: Side, q: map<int, seq<nat>>, p: int)
    requires forall x | x in q :: !Better(side, x, p)
    ensures Flat(side, q) == Flat(side, Above(side, q, p)) + At(q, p) + Flat(side, Below(side, q, p))
  {
    FlatEmpty(side, Above(side, q, p));
    if p in q {
      FlatBest(side, q, p);
      assert Below(side, q, p) == q - {p};
    } else {
      assert Below(side, q, p) == q;
    }
  }

  // Any price cuts the flattened ladder in two around its own queue.
  lemma {:induction false} FlatSplit(side: Side, q: map<int, seq<nat>>, p: int)
    ensures Flat(side, q) == Flat(side, Above(side, q, p)) + At(q, p) + Flat(side, Below(side, q, p))
    decreases |q.Keys|
  {
    hide Flat; hide Above; hide Below; hide At;
    if q.Keys == {} || !Better(side, BestOf(side, q.Keys), p) {
      FlatSplitTop(side, q, p);
    } else {
      var b := BestOf(side, q.Keys);
      assert (q - {b}).Keys == q.Keys - {b};
      FlatBest(side, q, b);
      FlatSplit(side, q - {b}, p);
      AboveBest(side, q, p, b);
    }
  }

  lemma {:induction false} FlatMembers(side: Side, q: map<int, seq<nat>>, s: nat)
    requires s in Flat(side, q)
    ensures exists p | p in q :: s in q[p]
    decreases |q.Keys|
  {
    var b := BestOf(side, q.Keys);
    if s !in q[b] {
      assert (q - {b}).Keys == q.Keys - {b};
      FlatMembers(side, q - {b}, s);
    }
  }

  // ----- The sorted list of a side -----

  datatype Key = Key(slot: nat, exchangeId: nat, owner: nat, clientId: nat)

  function KeyOf(pool: seq<Order>, s: nat): (k: Key) {
    if s < |pool| then Key(s, pool[s].exchangeId, pool[s].owner, pool[s].clientId) else Key(s, 0, 0, 0)
  }

  function Entry(pool: seq<Order>, s: nat): (r: Resting<Key>) {
    if s < |pool| then Resting(KeyOf(pool, s), pool[s].price, pool[s].remaining) else Resting(KeyOf(pool, s), 0, 0)
  }

  function Listed(pool: seq<Order>, q: seq<nat>): (r: seq<Resting<Key>>) {
    seq(|q|, i requires 0 <= i < |q| => Entry(pool, q[i]))
  }

  // Fills with each maker's slot spelled out as the maker's identity.
  function Named(pool: seq<Order>, f: seq<Fill<nat>>): (r: seq<Fill<Key>>) {
    seq(|f|, i requires 0 <= i < |f| => Fill(KeyOf(pool, f[i].id), f[i].price, f[i].qty))
  }

  ghost function View(b: Book, side: Side): (r: seq<Resting<Key>>) {
    Listed(b.pool, Flat(side, LadderOf(b, side).queues))
  }

  // ----- Walking one level -----

  // Only remaining quantities differ.
  ghost predicate SameRecords(pool: seq<Order>, pool': seq<Order>) {
    |pool'| == |pool| && forall s | 0 <= s < |pool| :: pool'[s] == pool[s].(remaining := pool'[s].remaining)
  }

  ghost predicate SameOutside(pool: seq<Order>, pool': seq<Order>, q: seq<nat>) {
    |pool'| == |pool| && forall s | 0 <= s < |pool| && s !in q :: pool'[s] == pool[s]
  }

  lemma SameSelf(pool: seq<Order>, q: seq<nat>)
    ensures SameRecords(pool, pool) && SameOutside(pool, pool, q)
  {
  }

  lemma HitFrame(pool: seq<Order>, q: seq<nat>, f: int)
    requires q != []
    ensures var pool1 := Hit(pool, q[0], f); SameRecords(pool, pool1) && SameOutside(pool, pool1, q)
  {
  }

  lemma FrameTrans(pool: seq<Order>, pool1: seq<Order>, pool2: seq<Order>, q: seq<nat>)
    requires q != [] && SameRecords(pool, pool1) && SameOutside(pool, pool1, q)
    requires SameRecords(pool1, pool2) && SameOutside(pool1, pool2, q[1..])
    ensures SameRecords(pool, pool2) && SameOutside(pool, pool2, q)
  {
    assert forall x | x !in q :: x !in q[1..];
  }

  lemma WalkStop(pool: seq<Order>, q: seq<nat>, qty: int, max: nat)
    requires Stops(pool, q, qty, max)
    ensures Walk(pool, q, qty, max) == Walked(pool, q, [], [], qty)
  {
  }

  // One fill of a walk that goes on.
  lemma WalkStep(pool: seq<Order>, q: seq<nat>, qty: int, max: nat)
    requires !Stops(pool, q, qty, max) && pool[q[0]].remaining <= qty
    ensures var f := pool[q[0]].remaining;
      var w := Walk(Hit(pool, q[0], f), q[1..], qty - f, max - 1);
      Walk(pool, q, qty, max) ==
        Walked(w.pool, w.queue, [q[0]] + w.freed, [Fill(q[0], pool[q[0]].price, f)] + w.fills, w.left)
  {
  }

  // The last fill of a walk, when the incoming order is used up in mid-order.
  lemma WalkLast(pool: seq<Order>, q: seq<nat>, qty: int, max: nat)
    requires !Stops(pool, q, qty, max) && pool[q[0]].remaining > qty
    ensures Walk(pool, q, qty, max) == Walked(Hit(pool, q[0], qty), q, [], [Fill(q[0], pool[q[0]].price, qty)], 0)
  {
  }

  // A walk changes nothing but the remaining quantities of the level's orders,
  // and takes the freed orders from the front of the queue.
  lemma {:induction false} WalkFrame(pool: seq<Order>, q: seq<nat>, qty: int, max: nat)
    ensures var w := Walk(pool, q, qty, max);
      SameRecords(pool, w.pool) && SameOutside(pool, w.pool, q) && w.freed + w.queue == q
    decreases max
  {
    hide Walk; hide Hit; hide SameRecords; hide SameOutside;
    if Stops(pool, q, qty, max) {
      WalkStop(pool, q, qty, max);
      SameSelf(pool, q);
      return;
    }
    var f := Min(qty, pool[q[0]].remaining);
    HitFrame(pool, q, f);
    if f == pool[q[0]].remaining {
      WalkStep(pool, q, qty, max);
      var pool1 := Hit(pool, q[0], f);
      WalkFrame(pool1, q[1..], qty - f, max - 1);
      FrameTrans(pool, pool1, Walk(pool1, q[1..], qty - f, max - 1).pool, q);
    } else {
      WalkLast(pool, q, qty, max);
    }
  }

  lemma HitQueue(pool: seq<Order>, side: Side, p: int, q: seq<nat>, f: int)
    requires QueueOk(pool, side, p, q) && q != []
    ensures q[0] !in q[1..] && QueueOk(Hit(pool, q[0], f), side, p, q[1..])
    ensures f < pool[q[0]].remaining ==> QueueOk(Hit(pool, q[0], f), side, p, q)
  {
  }

  ghost predicate Spent(pool: seq<Order>, q: seq<nat>) {
    forall i | 0 <= i < |q| :: q[i] < |pool| && pool[q[i]].remaining == 0
  }

  // What stays queued is a well-formed queue; what is freed has no quantity left.
  lemma {:induction false} WalkQueue(pool: seq<Order>, side: Side, p: int, q: seq<nat>, qty: int, max: nat)
    requires QueueOk(pool, side, p, q)
    ensures var w := Walk(pool, q, qty, max); QueueOk(w.pool, side, p, w.queue) && Spent(w.pool, w.freed)
    decreases max
  {
    hide Walk; hide Hit; hide QueueOk; hide SameRecords; hide SameOutside;
    if Stops(pool, q, qty, max) {
      WalkStop(pool, q, qty, max);
      return;
    }
    var f := Min(qty, pool[q[0]].remaining);
    HitQueue(pool, side, p, q, f);
    if f == pool[q[0]].remaining {
      WalkStep(pool, q, qty, max);
      var pool1 := Hit(pool, q[0], f);
      WalkQueue(pool1, side, p, q[1..], qty - f, max - 1);
      WalkFrame(pool1, q[1..], qty - f, max - 1);
      HitAt(pool, q[0], f);
      SameAt(pool1, Walk(pool1, q[1..], qty - f, max - 1).pool, q[1..], q[0]);
    } else {
      WalkLast(pool, q, qty, max);
    }
  }

  lemma HitAt(pool: seq<Order>, s: nat, f: int)
    requires s < |pool|
    ensures |Hit(pool, s, f)| == |pool| && Hit(pool, s, f)[s].remaining == pool[s].remaining - f
  {
  }

  lemma SameAt(pool: seq<Order>, pool': seq<Order>, q: seq<nat>, s: nat)
    requires SameOutside(pool, pool', q) && s < |pool| && s !in q
    ensures s < |pool'| && pool'[s] == pool[s]
  {
  }

  // ----- A walk takes from the head of the sorted list -----

  ghost predicate Disjoint(q: seq<nat>, tail: seq<nat>) {
    forall i | 0 <= i < |tail| :: tail[i] !in q
  }

  // A fill of the head of a list of distinct slots changes the list's head only.
  lemma HitListed(pool: seq<Order>, x: seq<nat>, f: int)
    requires x != [] && x[0] < |pool| && x[0] !in x[1..] && 0 < f <= pool[x[0]].remaining
    ensures var l, pool1 := Listed(pool, x), Hit(pool, x[0], f);
      && l != [] && l[0] == Entry(pool, x[0])
      && DropFilled(l, f) == if f == pool[x[0]].remaining then Listed(pool1, x[1..]) else Listed(pool1, x)
  {
    hide Listed; hide Hit; hide Entry;
    var pool1 := Hit(pool, x[0], f);
    ListedCons(pool, x);
    ListedCons(pool1, x);
    ListedHit(pool, x[1..], x[0], f);
    EntryHit(pool, x[0], f);
  }

  lemma ListedCons(pool: seq<Order>, x: seq<nat>)
    requires x != []
    ensures Listed(pool, x) == [Entry(pool, x[0])] + Listed(pool, x[1..])
  {
    hide Entry;
  }

  lemma ListedNone(pool: seq<Order>)
    ensures Listed(pool, []) == []
  {
  }

  lemma ListedHit(pool: seq<Order>, x: seq<nat>, s: nat, f: int)
    requires s !in x
    ensures Listed(Hit(pool, s, f), x) == Listed(pool, x)
  {
    assert forall i | 0 <= i < |x| :: x[i] != s && Entry(Hit(pool, s, f), x[i]) == Entry(pool, x[i]);
  }

  lemma EntryHit(pool: seq<Order>, s: nat, f: int)
    requires s < |pool|
    ensures Entry(pool, s).qty == pool[s].remaining
    ensures Entry(Hit(pool, s, f), s) == Entry(pool, s).(qty := pool[s].remaining - f)
  {
  }

  lemma HeadDistinct(pool: seq<Order>, side: Side, p: int, q: seq<nat>, tail: seq<nat>)
    requires QueueOk(pool, side, p, q) && q != [] && Disjoint(q, tail)
    ensures (q + tail)[1..] == q[1..] + tail && q[0] !in q[1..] + tail && Disjoint(q[1..], tail)
  {
  }

  lemma NamedSame(pool: seq<Order>, pool': seq<Order>, f: seq<Fill<nat>>)
    requires SameRecords(pool, pool')
    ensures Named(pool', f) == Named(pool, f)
  {
    assert forall s: nat :: KeyOf(pool', s) == KeyOf(pool, s);
  }

  lemma NamedConcat(pool: seq<Order>, a: seq<Fill<nat>>, c: seq<Fill<nat>>)
    ensures Named(pool, a + c) == Named(pool, a) + Named(pool, c)
  {
  }

  lemma {:induction false} WalkTakes(pool: seq<Order>, p: int, q: seq<nat>, tail: seq<nat>,
                                     aggressor: Side, limit: Option<int>, qty: int, max: nat)
    requires QueueOk(pool, Opposite(aggressor), p, q) && Disjoint(q, tail) && Crosses(aggressor, limit, p)
    ensures var w := Walk(pool, q, qty, max);
      && |w.fills| <= max && (q != [] && qty > 0 && max > 0 ==> w.fills != [])
      && Take(Listed(pool, q + tail), aggressor, limit, qty, max) ==
           Prepend(Named(pool, w.fills), Take(Listed(w.pool, w.queue + tail), aggressor, limit, w.left,
             max - |w.fills|))
    decreases max
  {
    hide Walk; hide Hit; hide QueueOk; hide SameRecords; hide SameOutside; hide Disjoint; hide Take; hide Listed;
    hide Named; hide DropFilled;
    QueueHead(pool, Opposite(aggressor), p, q);
    if Stops(pool, q, qty, max) {
      WalkStop(pool, q, qty, max);
      NamedNone(pool);
      return;
    }
    var f := Min(qty, pool[q[0]].remaining);
    HeadDistinct(pool, Opposite(aggressor), p, q, tail);
    HitListed(pool, q + tail, f);
    TakeStep(Listed(pool, q + tail), aggressor, limit, qty, max);
    HitQueue(pool, Opposite(aggressor), p, q, f);
    if f == pool[q[0]].remaining {
      WalkStep(pool, q, qty, max);
      WalkTakes(Hit(pool, q[0], f), p, q[1..], tail, aggressor, limit, qty - f, max - 1);
      HitFrame(pool, q, f);
      NamedCons(pool, Hit(pool, q[0], f), Fill(q[0], p, f), Walk(Hit(pool, q[0], f), q[1..], qty - f, max - 1).fills);
    } else {
      WalkLast(pool, q, qty, max);
      NamedOne(pool, Fill(q[0], p, f));
    }
  }

  lemma NamedNone(pool: seq<Order>)
    ensures Named(pool, []) == []
  {
  }

  lemma NamedOne(pool: seq<Order>, f: Fill<nat>)
    ensures Named(pool, [f]) == [Fill(KeyOf(pool, f.id), f.price, f.qty)]
  {
  }

  lemma NamedCons(pool: seq<Order>, pool1: seq<Order>, f: Fill<nat>, fs: seq<Fill<nat>>)
    requires SameRecords(pool, pool1)
    ensures Named(pool, [f] + fs) == [Fill(KeyOf(pool, f.id), f.price, f.qty)] + Named(pool1, fs)
  {
    NamedSame(pool, pool1, fs);
    NamedConcat(pool, [f], fs);
  }

  lemma QueueHead(pool: seq<Order>, side: Side, p: int, q: seq<nat>)
    requires QueueOk(pool, side, p, q)
    ensures q != [] ==> q[0] < |pool| && pool[q[0]].price == p && pool[q[0]].remaining > 0
  {
  }

  // ----- Taking one level keeps the invariant -----

  lemma AtSetQueue(l: Ladder, p: int, q: seq<nat>, x: int)
    ensures At(SetQueue(l, p, q).queues, x) == if x == p then q else At(l.queues, x)
  {
  }

  lemma QueueFrame(pool: seq<Order>, pool': seq<Order>, side: Side, p: int, q: seq<nat>, touched: seq<nat>)
    requires QueueOk(pool, side, p, q) && SameOutside(pool, pool', touched) && Disjoint(touched, q)
    ensures QueueOk(pool', side, p, q)
  {
  }

  // Queues of different prices or sides share no slot.
  lemma QueuesDisjoint(pool: seq<Order>, side: Side, p: int, q: seq<nat>, side': Side, p': int, q': seq<nat>)
    requires QueueOk(pool, side, p, q) && QueueOk(pool, side', p', q') && (side != side' || p != p')
    ensures Disjoint(q, q')
  {
  }

  // Rewriting the records of one queue leaves the other side's ladder as it was.
  lemma LadderFrame(pool: seq<Order>, pool': seq<Order>, side: Side, l: Ladder, p: int, q: seq<nat>)
    requires LadderOk(pool, side, l) && QueueOk(pool, Opposite(side), p, q) && SameOutside(pool, pool', q)
    ensures LadderOk(pool', side, l)
  {
    hide QueueOk; hide SameOutside; hide Disjoint;
    forall x | x in l.queues
      ensures QueueOk(pool', side, x, l.queues[x])
    {
      QueuesDisjoint(pool, Opposite(side), p, q, side, x, l.queues[x]);
      QueueFrame(pool, pool', side, x, l.queues[x], q);
    }
  }

  // Rewriting one queue and its records keeps the rest of its ladder.
  lemma LadderSet(pool: seq<Order>, pool': seq<Order>, side: Side, l: Ladder, p: int, q: seq<nat>)
    requires LadderOk(pool, side, l) && p in l.queues
    requires SameOutside(pool, pool', l.queues[p]) && QueueOk(pool', side, p, q)
    ensures LadderOk(pool', side, SetQueue(l, p, q))
  {
    hide QueueOk; hide SameOutside; hide Disjoint;
    var l' := SetQueue(l, p, q);
    forall x | x in l'.queues
      ensures l'.queues[x] != [] && QueueOk(pool', side, x, l'.queues[x])
    {
      if x != p {
        QueuesDisjoint(pool, side, p, l.queues[p], side, x, l.queues[x]);
        QueueFrame(pool, pool', side, x, l.queues[x], l.queues[p]);
      }
    }
  }

  lemma QueueDistinct(pool: seq<Order>, side: Side, p: int, a: seq<nat>, c: seq<nat>)
    requires QueueOk(pool, side, p, a + c)
    ensures Distinct(a) && Disjoint(a, c) && InPool(pool, a)
  {
    forall i, j | 0 <= i < j < |a|
      ensures a[i] != a[j]
    {
      assert (a + c)[i] == a[i] && (a + c)[j] == a[j];
    }
    forall j | 0 <= j < |c|
      ensures c[j] !in a
    {
      assert (a + c)[|a| + j] == c[j];
      assert forall i | 0 <= i < |a| :: (a + c)[i] == a[i];
    }
    assert forall i | 0 <= i < |a| :: (a + c)[i] == a[i];
  }

  // Exactly the freed slots stop being live.
  lemma LevelLive(b: Book, b': Book, side: Side, p: int, freed: seq<nat>, queue: seq<nat>)
    requires p in LadderOf(b, side).queues && LadderOf(b, side).queues[p] == freed + queue
    requires QueueOk(b.pool, side, p, freed + queue) && SameRecords(b.pool, b'.pool)
    requires b' == WithLadder(b.(pool := b'.pool, free := b'.free), side, SetQueue(LadderOf(b, side), p, queue))
    ensures forall s: nat :: Live(b', s) <==> Live(b, s) && s !in freed
  {
    QueueDistinct(b.pool, side, p, freed, queue);
    var q := freed + queue;
    assert forall s | s in q :: s < |b.pool| && b.pool[s].price == p && b.pool[s].side == side;
    assert forall s :: s in q <==> s in freed || s in queue;
    forall s: nat
      ensures Live(b', s) <==> Live(b, s) && s !in freed
    {
      if s < |b.pool| {
        AtSetQueue(LadderOf(b, side), p, queue, b.pool[s].price);
      }
    }
  }

  lemma PartitionFreed(b: Book, b': Book, freed: seq<nat>)
    requires Partition(b) && |b'.pool| == |b.pool| && b'.free == b.free + freed
    requires InPool(b.pool, freed) && Distinct(freed)
    requires forall i | 0 <= i < |freed| :: Live(b, freed[i])
    requires forall s: nat :: Live(b', s) <==> Live(b, s) && s !in freed
    ensures Partition(b')
  {
    hide Live;
    forall s | 0 <= s < |b'.pool|
      ensures Live(b', s) || s in b'.free
    {
      assert Live(b, s) || s in b.free;
    }
  }

  lemma QueueLive(b: Book, side: Side, p: int)
    requires p in LadderOf(b, side).queues && QueueOk(b.pool, side, p, LadderOf(b, side).queues[p])
    ensures forall i | 0 <= i < |LadderOf(b, side).queues[p]| :: Live(b, LadderOf(b, side).queues[p][i])
  {
  }

  // Setting the queue of one price changes the flattened ladder in one place.
  lemma FlatSet(side: Side, l: Ladder, p: int, q: seq<nat>)
    ensures Flat(side, SetQueue(l, p, q).queues) ==
      Flat(side, Above(side, l.queues, p)) + q + Flat(side, Below(side, l.queues, p))
  {
    hide Flat;
    var l' := SetQueue(l, p, q);
    FlatSplit(side, l'.queues, p);
    AtSetQueue(l, p, q, p);
    assert Above(side, l'.queues, p) == Above(side, l.queues, p);
    assert Below(side, l'.queues, p) == Below(side, l.queues, p);
  }

  lemma {:induction false} ListedConcat(pool: seq<Order>, a: seq<nat>, c: seq<nat>)
    ensures Listed(pool, a + c) == Listed(pool, a) + Listed(pool, c)
  {
  }

  lemma ListedFrame(pool: seq<Order>, pool': seq<Order>, touched: seq<nat>, q: seq<nat>)
    requires SameOutside(pool, pool', touched) && Disjoint(touched, q)
    ensures Listed(pool', q) == Listed(pool, q)
  {
  }

  // A ladder restricted to some of its prices flattens to slots of those prices.
  lemma FlatPrices(pool: seq<Order>, side: Side, l: Ladder, part: map<int, seq<nat>>)
    requires LadderOk(pool, side, l) && forall x | x in part :: x in l.queues && part[x] == l.queues[x]
    ensures forall i | 0 <= i < |Flat(side, part)| ::
      var s := Flat(side, part)[i]; s < |pool| && pool[s].side == side && pool[s].price in part
  {
    hide Flat;
    forall i | 0 <= i < |Flat(side, part)|
      ensures var s := Flat(side, part)[i]; s < |pool| && pool[s].side == side && pool[s].price in part
    {
      FlatMembers(side, part, Flat(side, part)[i]);
    }
  }

  // The slots above and below a price are not in its queue.
  lemma SplitDisjoint(pool: seq<Order>, side: Side, l: Ladder, p: int, q: seq<nat>)
    requires LadderOk(pool, side, l) && forall s | s in q :: s < |pool| && pool[s].price == p
    ensures Disjoint(q, Flat(side, Above(side, l.queues, p))) && Disjoint(q, Flat(side, Below(side, l.queues, p)))
  {
    hide Flat; hide QueueOk;
    FlatPrices(pool, side, l, Above(side, l.queues, p));
    FlatPrices(pool, side, l, Below(side, l.queues, p));
  }

  // ----- Taking the best level -----

  lemma TakeLevelInv(b: Book, side: Side, p: int, qty: int, max: nat)
    requires Inv(b) && p in LadderOf(b, side).queues
    ensures var m := TakeLevel(b, side, p, qty, max);
      && Inv(m.book) && SameRecords(b.pool, m.book.pool)
      && LadderOf(m.book, Opposite(side)) == LadderOf(b, Opposite(side)) && m.book.nextId == b.nextId
  {
    hide Walk; hide QueueOk; hide SameOutside; hide Live; hide Partition;
    var l := LadderOf(b, side);
    var q := l.queues[p];
    var w := Walk(b.pool, q, qty, max);
    var m := TakeLevel(b, side, p, qty, max);
    WalkFrame(b.pool, q, qty, max);
    WalkQueue(b.pool, side, p, q, qty, max);
    LadderSet(b.pool, w.pool, side, l, p, w.queue);
    LadderFrame(b.pool, w.pool, Opposite(side), LadderOf(b, Opposite(side)), p, q);
    QueueDistinct(b.pool, side, p, w.freed, w.queue);
    LevelLive(b, m.book, side, p, w.freed, w.queue);
    QueueLive(b, side, p);
    assert forall i | 0 <= i < |w.freed| :: w.freed[i] == q[i];
    PartitionFreed(b, m.book, w.freed);
  }

  // The other side's list is not affected.
  lemma OtherView(b: Book, b': Book, side: Side, p: int, q: seq<nat>)
    requires LadderOk(b.pool, Opposite(side), LadderOf(b, Opposite(side))) && QueueOk(b.pool, side, p, q)
    requires SameOutside(b.pool, b'.pool, q) && LadderOf(b', Opposite(side)) == LadderOf(b, Opposite(side))
    ensures View(b', Opposite(side)) == View(b, Opposite(side))
  {
    hide Flat;
    var l := LadderOf(b, Opposite(side));
    FlatPrices(b.pool, Opposite(side), l, l.queues);
    ListedFrame(b.pool, b'.pool, q, Flat(Opposite(side), l.queues));
  }

  lemma TakeLevelView(b: Book, aggressor: Side, limit: Option<int>, p: int, qty: int, max: nat)
    requires Inv(b) && IsBest(Opposite(aggressor), LadderOf(b, Opposite(aggressor)).queues.Keys, p)
    requires Crosses(aggressor, limit, p)
    ensures var m := TakeLevel(b, Opposite(aggressor), p, qty, max);
      && |m.fills| <= max && (qty > 0 && max > 0 ==> m.fills != [])
      && View(m.book, aggressor) == View(b, aggressor)
      && Take(View(b, Opposite(aggressor)), aggressor, limit, qty, max) ==
           Prepend(Named(b.pool, m.fills),
                   Take(View(m.book, Opposite(aggressor)), aggressor, limit, m.left, max - |m.fills|))
  {
    hide Walk; hide Flat; hide QueueOk; hide Live; hide Partition; hide Take; hide Named; hide Listed; hide SameOutside;
    hide SameRecords;
    var side := Opposite(aggressor);
    var l := LadderOf(b, side);
    var q := l.queues[p];
    assert Above(side, l.queues, p).Keys == {};
    FlatEmpty(side, Above(side, l.queues, p));
    var tail := Flat(side, Below(side, l.queues, p));
    FlatSplit(side, l.queues, p);
    FlatSet(side, l, p, Walk(b.pool, q, qty, max).queue);
    QueuePrices(b.pool, side, p, q);
    SplitDisjoint(b.pool, side, l, p, q);
    WalkTakes(b.pool, p, q, tail, aggressor, limit, qty, max);
    WalkFrame(b.pool, q, qty, max);
    OtherView(b, TakeLevel(b, side, p, qty, max).book, side, p, q);
    assert [] + q + tail == q + tail;
    var w := Walk(b.pool, q, qty, max);
    assert [] + w.queue + tail == w.queue + tail;
  }

  lemma QueuePrices(pool: seq<Order>, side: Side, p: int, q: seq<nat>)
    requires QueueOk(pool, side, p, q)
    ensures forall s | s in q :: s < |pool| && pool[s].price == p && pool[s].side == side
  {
  }
}
