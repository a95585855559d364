/**
 The level book refines the sorted book: matching, resting and cancelling have
 the sorted book's results, and keep the invariant.
 */
module BookRefinement {
  import opened SortedBook
  import opened LevelBook
  import opened BookTheory

  // Free slots hold no quantity.
  ghost predicate Clean(b: Book) {
    forall i | 0 <= i < |b.free| :: b.free[i] < |b.pool| ==> b.pool[b.free[i]].remaining <= 0
  }

  // ----- Matching -----

  lemma MatchDone(b: Book, aggressor: Side, limit: Option<int>, qty: int, max: nat)
    requires qty <= 0 || max == 0
    ensures Match(b, aggressor, limit, qty, max) == Matched(b, [], qty)
  {
  }

  lemma MatchStuck(b: Book, aggressor: Side, limit: Option<int>, qty: int, max: nat)
    requires qty > 0 && max > 0
    requires var best := FindBest(Opposite(aggressor), LadderOf(b, Opposite(aggressor)));
      best.None? || !Crosses(aggressor, limit, best.value)
    ensures Match(b, aggressor, limit, qty, max) == Matched(Queried(b, Opposite(aggressor)), [], qty)
  {
  }

  lemma MatchStep(b: Book, aggressor: Side, limit: Option<int>, qty: int, max: nat)
    requires qty > 0 && max > 0
    requires var best := FindBest(Opposite(aggressor), LadderOf(b, Opposite(aggressor)));
      best.Some? && Crosses(aggressor, limit, best.value)
    ensures var side := Opposite(aggressor);
      var m := TakeLevel(Queried(b, side), side, FindBest(side, LadderOf(b, side)).value, qty, max);
      0 < |m.fills| <= max ==>
        var r := Match(m.book, aggressor, limit, m.left, max - |m.fills|);
        Match(b, aggressor, limit, qty, max) == Matched(r.book, m.fills + r.fills, r.left)
  {
  }

  // Asking for the best price only fills the cache.
  lemma QueriedKeeps(b: Book, side: Side)
    requires Inv(b)
    ensures var b1 := Queried(b, side);
      && Inv(b1) && (Clean(b) ==> Clean(b1)) && View(b1, Buy) == View(b, Buy) && View(b1, Sell) == View(b, Sell)
      && LadderOf(b1, Opposite(side)) == LadderOf(b, Opposite(side))
      && (CacheOk(side, LadderOf(b, side)) ==> Fresh(side, LadderOf(b1, side)))
  {
    hide QueueOk; hide Flat;
    var b1 := Queried(b, side);
    assert b1.pool == b.pool && b1.free == b.free && b1.nextId == b.nextId;
    assert LadderOf(b1, side).queues == LadderOf(b, side).queues;
    assert forall s: nat :: Live(b1, s) <==> Live(b, s);
  }

  // What matching keeps, whatever the caches say.
  ghost predicate MatchKept(b: Book, aggressor: Side, m: Matched) {
    && Inv(m.book) && (Clean(b) ==> Clean(m.book))
    && SameRecords(b.pool, m.book.pool) && m.book.nextId == b.nextId && b.free <= m.book.free
    && LadderOf(m.book, aggressor) == LadderOf(b, aggressor)
    && LadderOf(m.book, Opposite(aggressor)).created == LadderOf(b, Opposite(aggressor)).created
    && View(m.book, aggressor) == View(b, aggressor)
  }

  // Fills against resting orders of one side, each at its maker's price.
  ghost predicate FillsOk(pool: seq<Order>, side: Side, limit: Option<int>, fills: seq<Fill<nat>>) {
    forall i | 0 <= i < |fills| ::
      && fills[i].id < |pool| && fills[i].qty > 0
      && pool[fills[i].id].side == side && pool[fills[i].id].price == fills[i].price
      && Crosses(Opposite(side), limit, fills[i].price)
  }

  lemma QueueListed(pool: seq<Order>, side: Side, p: int, q: seq<nat>)
    requires QueueOk(pool, side, p, q)
    ensures |Listed(pool, q)| == |q| && Positive(Listed(pool, q))
    ensures forall i | 0 <= i < |q| :: Listed(pool, q)[i] == Entry(pool, q[i]) && Listed(pool, q)[i].price == p
  {
  }

  lemma NamedShape(pool: seq<Order>, f: seq<Fill<nat>>)
    ensures |Named(pool, f)| == |f| && FillTotal(Named(pool, f)) == FillTotal(f)
    ensures forall i | 0 <= i < |f| :: Named(pool, f)[i] == Fill(KeyOf(pool, f[i].id), f[i].price, f[i].qty)
  {
    FillTotalSame(f, Named(pool, f));
  }

  // A walk is conservative: what the fills take leaves both the level and the
  // incoming order.
  lemma WalkConserves(pool: seq<Order>, side: Side, p: int, q: seq<nat>, qty: int, max: nat)
    requires QueueOk(pool, side, p, q)
    ensures var w := Walk(pool, q, qty, max);
      && Total(Listed(pool, q)) == Total(Listed(w.pool, w.queue)) + FillTotal(w.fills)
      && qty == w.left + FillTotal(w.fills) && |w.fills| <= max
      && (q != [] && qty > 0 && max > 0 ==> w.fills != [])
  {
    hide Walk; hide QueueOk; hide Take; hide Listed; hide Named; hide Total; hide FillTotal;
    var aggressor, w := Opposite(side), Walk(pool, q, qty, max);
    WalkTakes(pool, p, q, [], aggressor, None, qty, max);
    assert q + [] == q && w.queue + [] == w.queue;
    QueueListed(pool, side, p, q);
    WalkQueue(pool, side, p, q, qty, max);
    QueueListed(w.pool, side, p, w.queue);
    TakeConserves(Listed(pool, q), aggressor, None, qty, max);
    TakeConserves(Listed(w.pool, w.queue), aggressor, None, w.left, max - |w.fills|);
    FillTotalConcat(Named(pool, w.fills),
      Take(Listed(w.pool, w.queue), aggressor, None, w.left, max - |w.fills|).fills);
    NamedShape(pool, w.fills);
  }

  // The fills of a walk go to the front of the queue, one order each.
  lemma WalkFillsQueue(pool: seq<Order>, side: Side, p: int, limit: Option<int>, q: seq<nat>, qty: int, max: nat)
    requires QueueOk(pool, side, p, q) && Crosses(Opposite(side), limit, p)
    ensures var f := Walk(pool, q, qty, max).fills;
      |f| <= |q| && forall i | 0 <= i < |f| :: f[i].id == q[i] && f[i].price == p && f[i].qty > 0
  {
    hide Walk; hide QueueOk; hide Take; hide Listed; hide Named; hide FillTotal; hide Crosses;
    var aggressor, w := Opposite(side), Walk(pool, q, qty, max);
    if qty <= 0 {
      WalkStop(pool, q, qty, max);
      return;
    }
    WalkTakes(pool, p, q, [], aggressor, limit, qty, max);
    assert q + [] == q && w.queue + [] == w.queue;
    var l := Listed(pool, q);
    var t := Take(l, aggressor, limit, qty, max);
    QueueListed(pool, side, p, q);
    QueuePrices(pool, side, p, q);
    TakePriority(l, aggressor, limit, qty, max);
    TakeFillCount(l, aggressor, limit, qty, max);
    NamedShape(pool, w.fills);
    FrontNamed(pool, side, p, q, w.fills, t.fills, l, aggressor, limit);
  }

  lemma FrontNamed(pool: seq<Order>, side: Side, p: int, q: seq<nat>, f: seq<Fill<nat>>, g: seq<Fill<Key>>,
                   l: seq<Resting<Key>>,
                   aggressor: Side, limit: Option<int>)
    requires MakersInOrder(l, aggressor, limit, g) && |l| == |q| && |f| <= |g|
    requires forall i | 0 <= i < |f| :: g[i] == Fill(KeyOf(pool, f[i].id), f[i].price, f[i].qty) && g[i].qty > 0
    requires forall i | 0 <= i < |q| :: l[i] == Entry(pool, q[i]) && l[i].price == p
    ensures |f| <= |q| && forall i | 0 <= i < |f| :: f[i].id == q[i] && f[i].price == p && f[i].qty > 0
  {
    forall i | 0 <= i < |f|
      ensures f[i].id == q[i] && f[i].price == p && f[i].qty > 0
    {
      assert g[i].id == l[i].id;
    }
  }

  lemma WalkFillsOk(pool: seq<Order>, side: Side, p: int, limit: Option<int>, q: seq<nat>, qty: int, max: nat)
    requires QueueOk(pool, side, p, q) && Crosses(Opposite(side), limit, p)
    ensures FillsOk(pool, side, limit, Walk(pool, q, qty, max).fills)
    ensures forall i | 0 <= i < |Walk(pool, q, qty, max).fills| :: Walk(pool, q, qty, max).fills[i].id in q
  {
    hide Walk; hide Crosses;
    WalkFillsQueue(pool, side, p, limit, q, qty, max);
  }

  // ----- One level, whatever its rank -----

  lemma SpentClean(b: Book, pool': seq<Order>, side: Side, p: int, q: seq<nat>, freed: seq<nat>)
    requires Clean(b) && Inv(b) && p in LadderOf(b, side).queues && q == LadderOf(b, side).queues[p]
    requires SameOutside(b.pool, pool', q) && Spent(pool', freed)
    ensures forall i | 0 <= i < |b.free + freed| ::
      (b.free + freed)[i] < |pool'| ==> pool'[(b.free + freed)[i]].remaining <= 0
  {
    hide QueueOk;
    forall i | 0 <= i < |b.free|
      ensures b.free[i] !in q
    {
      QueueLive(b, side, p);
    }
  }

  // What the fills take leaves both the resting orders and the incoming one.
  ghost predicate Conserved(b: Book, side: Side, qty: int, max: nat, m: Matched) {
    && MatchKept(b, Opposite(side), m)
    && Total(View(b, side)) == Total(View(m.book, side)) + FillTotal(m.fills)
    && qty == m.left + FillTotal(m.fills) && |m.fills| <= max && (qty >= 0 ==> m.left >= 0)
  }

  lemma TotalSplit(pool: seq<Order>, a: seq<nat>, q: seq<nat>, c: seq<nat>)
    ensures Total(Listed(pool, a + q + c)) == Total(Listed(pool, a)) + Total(Listed(pool, q)) + Total(Listed(pool, c))
  {
    ListedConcat(pool, a + q, c);
    ListedConcat(pool, a, q);
    TotalConcat(Listed(pool, a + q), Listed(pool, c));
    TotalConcat(Listed(pool, a), Listed(pool, q));
  }

  lemma LevelTotal(b: Book, side: Side, p: int, qty: int, max: nat)
    requires Inv(b) && p in LadderOf(b, side).queues
    ensures var m := TakeLevel(b, side, p, qty, max);
      Total(View(b, side)) == Total(View(m.book, side)) + FillTotal(m.fills)
  {
    hide Walk; hide Flat; hide QueueOk; hide Live; hide Partition; hide Listed; hide Total; hide FillTotal;
    hide SameOutside; hide SameRecords; hide Above; hide Below;
    var l := LadderOf(b, side);
    var q := l.queues[p];
    var w := Walk(b.pool, q, qty, max);
    var a, c := Flat(side, Above(side, l.queues, p)), Flat(side, Below(side, l.queues, p));
    FlatSplit(side, l.queues, p);
    FlatSet(side, l, p, w.queue);
    TotalSplit(b.pool, a, q, c);
    TotalSplit(w.pool, a, w.queue, c);
    QueuePrices(b.pool, side, p, q);
    SplitDisjoint(b.pool, side, l, p, q);
    WalkFrame(b.pool, q, qty, max);
    ListedFrame(b.pool, w.pool, q, a);
    ListedFrame(b.pool, w.pool, q, c);
    WalkConserves(b.pool, side, p, q, qty, max);
  }

  lemma {:induction false} WalkLeft(pool: seq<Order>, q: seq<nat>, qty: int, max: nat)
    ensures qty >= 0 ==> Walk(pool, q, qty, max).left >= 0
    decreases max
  {
    if !Stops(pool, q, qty, max) && pool[q[0]].remaining <= qty {
      WalkLeft(Hit(pool, q[0], pool[q[0]].remaining), q[1..], qty - pool[q[0]].remaining, max - 1);
    }
  }

  lemma TakeLevelKeeps(b: Book, side: Side, p: int, qty: int, max: nat)
    requires Inv(b) && p in LadderOf(b, side).queues
    ensures Conserved(b, side, qty, max, TakeLevel(b, side, p, qty, max))
    ensures qty > 0 && max > 0 ==> TakeLevel(b, side, p, qty, max).fills != []
  {
    hide Walk; hide Flat; hide QueueOk; hide Live; hide Partition; hide Listed; hide Total; hide FillTotal;
    hide SameOutside; hide SameRecords; hide View; hide Spent;
    var q := LadderOf(b, side).queues[p];
    var m := TakeLevel(b, side, p, qty, max);
    TakeLevelInv(b, side, p, qty, max);
    WalkFrame(b.pool, q, qty, max);
    OtherView(b, m.book, side, p, q);
    LevelTotal(b, side, p, qty, max);
    WalkConserves(b.pool, side, p, q, qty, max);
    WalkLeft(b.pool, q, qty, max);
    WalkQueue(b.pool, side, p, q, qty, max);
    if Clean(b) {
      SpentClean(b, m.book.pool, side, p, q, Walk(b.pool, q, qty, max).freed);
    }
  }

  // ----- Matching keeps the invariant and conserves quantity -----

  lemma SameRecordsTrans(a: seq<Order>, b: seq<Order>, c: seq<Order>)
    requires SameRecords(a, b) && SameRecords(b, c)
    ensures SameRecords(a, c)
  {
  }

  lemma ConservedTrans(b: Book, b1: Book, side: Side, qty: int, max: nat, m: Matched, r: Matched)
    requires Conserved(b1, side, qty, max, m) && Conserved(m.book, side, m.left, max - |m.fills|, r)
    requires MatchKept(b, Opposite(side), Matched(b1, [], qty)) && View(b1, side) == View(b, side)
    ensures Conserved(b, side, qty, max, Matched(r.book, m.fills + r.fills, r.left))
  {
    hide Inv; hide Clean; hide SameRecords; hide View; hide FillTotal; hide Total;
    FillTotalConcat(m.fills, r.fills);
    SameRecordsTrans(b.pool, b1.pool, m.book.pool);
    SameRecordsTrans(b.pool, m.book.pool, r.book.pool);
  }

  lemma QueriedKept(b: Book, side: Side, qty: int)
    requires Inv(b)
    ensures MatchKept(b, Opposite(side), Matched(Queried(b, side), [], qty))
    ensures View(Queried(b, side), side) == View(b, side)
    ensures FindBest(side, LadderOf(b, side)).Some? ==>
      FindBest(side, LadderOf(b, side)).value in LadderOf(Queried(b, side), side).queues
  {
    hide QueueOk; hide Flat; hide View; hide Partition; hide Listed;
    QueriedKeeps(b, side);
    SameSelf(b.pool, []);
  }

  lemma {:induction false} MatchKeeps(b: Book, aggressor: Side, limit: Option<int>, qty: int, max: nat)
    requires Inv(b)
    ensures Conserved(b, Opposite(aggressor), qty, max, Match(b, aggressor, limit, qty, max))
    decreases max
  {
    hide Inv; hide Clean; hide SameRecords; hide View; hide FillTotal; hide Total; hide Match; hide TakeLevel;
    hide Queried; hide FindBest; hide MatchKept; hide Conserved;
    var side := Opposite(aggressor);
    var best := FindBest(side, LadderOf(b, side));
    QueriedKept(b, side, qty);
    if qty <= 0 || max == 0 {
      MatchDone(b, aggressor, limit, qty, max);
      ConservedNone(b, b, side, qty, max);
    } else if best.None? || !Crosses(aggressor, limit, best.value) {
      MatchStuck(b, aggressor, limit, qty, max);
      ConservedNone(b, Queried(b, side), side, qty, max);
    } else {
      var b1 := Queried(b, side);
      var m := TakeLevel(b1, side, best.value, qty, max);
      KeptInv(b, aggressor, Matched(b1, [], qty));
      TakeLevelKeeps(b1, side, best.value, qty, max);
      ConservedParts(b1, side, qty, max, m);
      MatchStep(b, aggressor, limit, qty, max);
      MatchKeeps(m.book, aggressor, limit, m.left, max - |m.fills|);
      ConservedTrans(b, b1, side, qty, max, m, Match(m.book, aggressor, limit, m.left, max - |m.fills|));
    }
  }

  lemma MatchLeft(b: Book, aggressor: Side, limit: Option<int>, qty: int, max: nat)
    requires Inv(b)
    ensures var m := Match(b, aggressor, limit, qty, max); m.left == qty - FillTotal(m.fills) && |m.fills| <= max
  {
    hide Inv; hide View; hide Match; hide MatchKept; hide Total; hide FillTotal;
    MatchKeeps(b, aggressor, limit, qty, max);
  }

  lemma KeptInv(b: Book, aggressor: Side, m: Matched)
    requires MatchKept(b, aggressor, m)
    ensures Inv(m.book)
  {
  }

  lemma ConservedParts(b: Book, side: Side, qty: int, max: nat, m: Matched)
    requires Conserved(b, side, qty, max, m)
    ensures Inv(m.book) && SameRecords(b.pool, m.book.pool) && |m.fills| <= max
    ensures View(m.book, Opposite(side)) == View(b, Opposite(side))
  {
  }

  lemma ConservedNone(b: Book, b1: Book, side: Side, qty: int, max: nat)
    requires Inv(b) && (b1 == b || (MatchKept(b, Opposite(side), Matched(b1, [], qty))
      && View(b1, side) == View(b, side)))
    ensures Conserved(b, side, qty, max, Matched(b1, [], qty))
  {
    SameSelf(b.pool, []);
  }

  // ----- Matching is what the sorted book does -----

  // The cache survives taking the best level.
  lemma TakeLevelCache(b: Book, side: Side, p: int, qty: int, max: nat)
    requires IsBest(side, LadderOf(b, side).queues.Keys, p) && LadderOf(b, side).best == Some(p)
    ensures CacheOk(side, LadderOf(TakeLevel(b, side, p, qty, max).book, side))
  {
    hide Walk;
    var l := LadderOf(TakeLevel(b, side, p, qty, max).book, side);
    if l.best.Some? {
      assert l.queues.Keys == LadderOf(b, side).queues.Keys;
    }
  }

  // The head of the list carries the best price.
  lemma ViewHead(b: Book, side: Side)
    requires LadderOk(b.pool, side, LadderOf(b, side))
    ensures match Scan(side, LadderOf(b, side))
      case None => View(b, side) == []
      case Some(p) => View(b, side) != [] && View(b, side)[0].price == p
  {
    var l := LadderOf(b, side);
    if l.queues.Keys != {} {
      var p := BestOf(side, l.queues.Keys);
      FlatBest(side, l.queues, p);
      assert QueueOk(b.pool, side, p, l.queues[p]);
    }
  }

  ghost predicate Refines(b: Book, aggressor: Side, m: Matched, t: Taken<Key>) {
    && Named(b.pool, m.fills) == t.fills && m.left == t.left
    && View(m.book, Opposite(aggressor)) == t.rest
    && View(m.book, aggressor) == View(b, aggressor)
    && CacheOk(Opposite(aggressor), LadderOf(m.book, Opposite(aggressor)))
  }

  // With a right cache, matching gives the sorted book's fills and residue.
  lemma {:induction false} MatchRefines(b: Book, aggressor: Side, limit: Option<int>, qty: int, max: nat)
    requires Inv(b) && CacheOk(Opposite(aggressor), LadderOf(b, Opposite(aggressor)))
    ensures Refines(b, aggressor, Match(b, aggressor, limit, qty, max),
                    Take(View(b, Opposite(aggressor)), aggressor, limit, qty, max))
    decreases max
  {
    hide Clean; hide SameRecords; hide View; hide Match; hide TakeLevel; hide Take; hide Named; hide LadderOk;
    hide Partition; hide IsBest; hide Queried; hide BestOf; hide Conserved;
    var side := Opposite(aggressor);
    var best := FindBest(side, LadderOf(b, side));
    var b1 := Queried(b, side);
    QueriedKeeps(b, side);
    ViewHead(b, side);
    if qty <= 0 || max == 0 || best.None? || !Crosses(aggressor, limit, best.value) {
      TakeNone(View(b, side), aggressor, limit, qty, max);
      NamedNone(b.pool);
      if qty <= 0 || max == 0 {
        MatchDone(b, aggressor, limit, qty, max);
      } else {
        MatchStuck(b, aggressor, limit, qty, max);
      }
    } else {
      BestIs(b, side);
      var m := TakeLevel(b1, side, best.value, qty, max);
      TakeLevelView(b1, aggressor, limit, best.value, qty, max);
      TakeLevelKeeps(b1, side, best.value, qty, max);
      TakeLevelCache(b1, side, best.value, qty, max);
      ConservedParts(b1, side, qty, max, m);
      MatchStep(b, aggressor, limit, qty, max);
      MatchRefines(m.book, aggressor, limit, m.left, max - |m.fills|);
      var r := Match(m.book, aggressor, limit, m.left, max - |m.fills|);
      NamedSame(b1.pool, m.book.pool, r.fills);
      NamedConcat(b1.pool, m.fills, r.fills);
    }
  }

  lemma BestIs(b: Book, side: Side)
    requires CacheOk(side, LadderOf(b, side)) && FindBest(side, LadderOf(b, side)).Some?
    ensures var b1, p := Queried(b, side), FindBest(side, LadderOf(b, side)).value;
      && b1.pool == b.pool && p in LadderOf(b1, side).queues
      && IsBest(side, LadderOf(b1, side).queues.Keys, p) && LadderOf(b1, side).best == Some(p)
  {
  }

  // ----- Fills and their makers -----

  lemma FillsOkSame(pool: seq<Order>, pool': seq<Order>, side: Side, limit: Option<int>, fills: seq<Fill<nat>>)
    requires SameRecords(pool, pool') && FillsOk(pool', side, limit, fills)
    ensures FillsOk(pool, side, limit, fills)
  {
  }

  lemma FillsOkConcat(pool: seq<Order>, side: Side, limit: Option<int>, a: seq<Fill<nat>>, c: seq<Fill<nat>>)
    requires FillsOk(pool, side, limit, a) && FillsOk(pool, side, limit, c)
    ensures FillsOk(pool, side, limit, a + c)
  {
  }

  // Every fill is against a resting order of the other side, at that order's
  // own price, which crosses the incoming limit.
  lemma {:induction false} MatchFillsOk(b: Book, aggressor: Side, limit: Option<int>, qty: int, max: nat)
    requires Inv(b)
    ensures FillsOk(b.pool, Opposite(aggressor), limit, Match(b, aggressor, limit, qty, max).fills)
    decreases max
  {
    hide SameRecords; hide View; hide Match; hide Partition; hide Walk; hide QueueOk; hide IsBest; hide BestOf;
    hide Conserved; hide FillsOk;
    var side := Opposite(aggressor);
    var best := FindBest(side, LadderOf(b, side));
    FillsOkNone(b.pool, side, limit);
    if qty <= 0 || max == 0 {
      MatchDone(b, aggressor, limit, qty, max);
    } else if best.None? || !Crosses(aggressor, limit, best.value) {
      MatchStuck(b, aggressor, limit, qty, max);
    } else {
      var b1 := Queried(b, side);
      QueriedKept(b, side, qty);
      KeptInv(b, aggressor, Matched(b1, [], qty));
      var m := TakeLevel(b1, side, best.value, qty, max);
      TakeLevelKeeps(b1, side, best.value, qty, max);
      ConservedParts(b1, side, qty, max, m);
      MatchStep(b, aggressor, limit, qty, max);
      MatchFillsOk(m.book, aggressor, limit, m.left, max - |m.fills|);
      var r := Match(m.book, aggressor, limit, m.left, max - |m.fills|);
      WalkFillsOk(b1.pool, side, best.value, limit, LadderOf(b1, side).queues[best.value], qty, max);
      FillsOkSame(b1.pool, m.book.pool, side, limit, r.fills);
      FillsOkConcat(b1.pool, side, limit, m.fills, r.fills);
    }
  }

  // The first order of a level is used up, and its slot freed, by an order with
  // quantity left.
  lemma WalkFrees(pool: seq<Order>, side: Side, p: int, q: seq<nat>, qty: int, max: nat)
    requires QueueOk(pool, side, p, q) && q != [] && qty > 0 && max > 0 && Walk(pool, q, qty, max).left > 0
    ensures Walk(pool, q, qty, max).freed != []
  {
    hide Walk;
    if pool[q[0]].remaining <= qty {
      WalkStep(pool, q, qty, max);
    } else {
      WalkLast(pool, q, qty, max);
    }
  }

  // An order that was filled and has quantity left has freed a slot.
  lemma MatchFrees(b: Book, aggressor: Side, limit: Option<int>, qty: int, max: nat)
    requires Inv(b) && Match(b, aggressor, limit, qty, max).fills != [] && Match(b, aggressor, limit, qty, max).left > 0
    ensures Match(b, aggressor, limit, qty, max).book.free != []
  {
    hide View; hide Match; hide Partition; hide Walk; hide QueueOk; hide IsBest; hide BestOf; hide SameRecords;
    var side := Opposite(aggressor);
    var best := FindBest(side, LadderOf(b, side));
    if qty <= 0 || max == 0 {
      MatchDone(b, aggressor, limit, qty, max);
    } else if best.None? || !Crosses(aggressor, limit, best.value) {
      MatchStuck(b, aggressor, limit, qty, max);
    } else {
      var b1 := Queried(b, side);
      QueriedKept(b, side, qty);
      KeptInv(b, aggressor, Matched(b1, [], qty));
      var m := TakeLevel(b1, side, best.value, qty, max);
      TakeLevelKeeps(b1, side, best.value, qty, max);
      ConservedParts(b1, side, qty, max, m);
      MatchStep(b, aggressor, limit, qty, max);
      if m.left <= 0 {
        MatchDone(m.book, aggressor, limit, m.left, max - |m.fills|);
      } else {
        WalkFrees(b1.pool, side, best.value, LadderOf(b1, side).queues[best.value], qty, max);
        MatchKeeps(m.book, aggressor, limit, m.left, max - |m.fills|);
      }
    }
  }

  // A slot that is live after a match was live before it.
  lemma LiveBefore(b: Book, b': Book, s: nat)
    requires Inv(b) && Inv(b') && |b'.pool| == |b.pool| && b.free <= b'.free && Live(b', s)
    ensures Live(b, s)
  {
    hide Live; hide LadderOk;
    LiveInPool(b', s);
    assert forall i | 0 <= i < |b.free| :: b'.free[i] == b.free[i];
  }

  ghost predicate MakersLive(b: Book, fills: seq<Fill<nat>>) {
    forall i | 0 <= i < |fills| :: Live(b, fills[i].id)
  }

  lemma LevelMakersLive(b: Book, side: Side, p: int, fills: seq<Fill<nat>>)
    requires Inv(b) && p in LadderOf(b, side).queues
    requires forall i | 0 <= i < |fills| :: fills[i].id in LadderOf(b, side).queues[p]
    ensures MakersLive(b, fills)
  {
    QueueLive(b, side, p);
  }

  lemma MakersLiveConcat(b: Book, b': Book, f: seq<Fill<nat>>, g: seq<Fill<nat>>)
    requires MakersLive(b, f) && MakersLive(b', g)
    requires Inv(b) && Inv(b') && |b'.pool| == |b.pool| && b.free <= b'.free
    ensures MakersLive(b, f + g)
  {
    hide Inv; hide Live;
    forall i | 0 <= i < |g|
      ensures Live(b, g[i].id)
    {
      LiveBefore(b, b', g[i].id);
    }
  }

  // Every maker was resting when the order came in.
  lemma {:induction false} MatchMakersLive(b: Book, aggressor: Side, limit: Option<int>, qty: int, max: nat)
    requires Inv(b)
    ensures MakersLive(b, Match(b, aggressor, limit, qty, max).fills)
    decreases max
  {
    hide View; hide Match; hide Partition; hide Walk; hide QueueOk; hide IsBest; hide BestOf; hide Live;
    var side := Opposite(aggressor);
    var best := FindBest(side, LadderOf(b, side));
    if qty <= 0 || max == 0 {
      MatchDone(b, aggressor, limit, qty, max);
    } else if best.None? || !Crosses(aggressor, limit, best.value) {
      MatchStuck(b, aggressor, limit, qty, max);
    } else {
      var b1 := Queried(b, side);
      QueriedKept(b, side, qty);
      var m := TakeLevel(b1, side, best.value, qty, max);
      TakeLevelKeeps(b1, side, best.value, qty, max);
      MatchStep(b, aggressor, limit, qty, max);
      MatchMakersLive(m.book, aggressor, limit, m.left, max - |m.fills|);
      var r := Match(m.book, aggressor, limit, m.left, max - |m.fills|);
      WalkFillsOk(b1.pool, side, best.value, limit, LadderOf(b1, side).queues[best.value], qty, max);
      LevelMakersLive(b1, side, best.value, m.fills);
      MakersLiveConcat(b1, m.book, m.fills, r.fills);
      MakersLiveConcat(b, b1, [], m.fills + r.fills);
      assert [] + (m.fills + r.fills) == m.fills + r.fills;
    }
  }

  lemma FillsOkNone(pool: seq<Order>, side: Side, limit: Option<int>)
    ensures FillsOk(pool, side, limit, [])
  {
  }

  // ----- Resting an order -----

  lemma NotQueued(b: Book, s: nat, side: Side, p: int)
    requires LadderOk(b.pool, side, LadderOf(b, side)) && !Live(b, s) && p in LadderOf(b, side).queues
    ensures s !in LadderOf(b, side).queues[p]
  {
    assert QueueOk(b.pool, side, p, LadderOf(b, side).queues[p]);
  }

  ghost predicate Unqueued(l: Ladder, s: nat) {
    forall p | p in l.queues :: s !in l.queues[p]
  }

  // Overwriting a record that is in no queue leaves a ladder as it was.
  lemma LadderPut(pool: seq<Order>, s: nat, o: Order, side: Side, l: Ladder)
    requires LadderOk(pool, side, l) && s < |pool| && Unqueued(l, s)
    ensures LadderOk(pool[s := o], side, l)
  {
    hide QueueOk;
    forall p | p in l.queues
      ensures QueueOk(pool[s := o], side, p, l.queues[p])
    {
      QueueFrame(pool, pool[s := o], side, p, l.queues[p], [s]);
    }
  }

  lemma QueueAppend(pool: seq<Order>, s: nat, o: Order, side: Side, p: int, q: seq<nat>)
    requires QueueOk(pool, side, p, q) && s < |pool| && s !in q
    requires o.price == p && o.side == side && o.remaining > 0
    requires forall i | 0 <= i < |q| :: pool[q[i]].exchangeId < o.exchangeId
    ensures QueueOk(pool[s := o], side, p, q + [s])
  {
  }

  // The ladder after the order in slot s joins the queue of its price.
  ghost function Joined(l: Ladder, s: nat, p: int): (r: Ladder) {
    SetQueue(l, p, At(l.queues, p) + [s])
  }

  lemma LadderJoin(pool: seq<Order>, s: nat, o: Order, side: Side, l: Ladder)
    requires LadderOk(pool, side, l) && s < |pool| && Unqueued(l, s)
    requires o.side == side && o.remaining > 0
    requires forall x | 0 <= x < |pool| :: pool[x].exchangeId < o.exchangeId
    ensures LadderOk(pool[s := o], side, Joined(l, s, o.price))
  {
    hide QueueOk;
    LadderPut(pool, s, o, side, l);
    EmptyQueueOk(pool, side, o.price);
    QueueInPool(pool, side, o.price, At(l.queues, o.price));
    QueueAppend(pool, s, o, side, o.price, At(l.queues, o.price));
    assert At(l.queues, o.price) + [s] != [];
  }

  lemma EmptyQueueOk(pool: seq<Order>, side: Side, p: int)
    ensures QueueOk(pool, side, p, [])
  {
  }

  lemma QueueInPool(pool: seq<Order>, side: Side, p: int, q: seq<nat>)
    requires QueueOk(pool, side, p, q)
    ensures InPool(pool, q)
  {
  }

  // The slot taken from the stack, and the record put there.
  ghost function Top(b: Book): (s: nat)
    requires b.free != []
  {
    b.free[|b.free| - 1]
  }

  predicate NoLevel(l: Ladder, price: int) {
    price !in l.queues && l.created >= MAX_PRICE_LEVELS
  }

  lemma AddShape(b: Book, owner: nat, clientId: nat, side: Side, price: int, qty: int)
    requires Inv(b) && b.free != []
    ensures Top(b) < |b.pool| && !Live(b, Top(b)) && Unqueued(b.bids, Top(b)) && Unqueued(b.asks, Top(b))
    ensures var r := AddOrder(b, owner, clientId, side, price, qty);
      var o := Order(b.nextId, clientId, owner, price, qty, side);
      var l := LadderOf(b, side);
      && r.book.pool == b.pool[Top(b) := o] && r.book.nextId == b.nextId + 1
      && LadderOf(r.book, Opposite(side)) == LadderOf(b, Opposite(side))
      && if NoLevel(l, price) then
           r.slot == None && r.book.free == b.free && LadderOf(r.book, side) == l
         else
           && r.slot == Some(Top(b)) && r.book.free == b.free[..|b.free| - 1]
           && LadderOf(r.book, side).queues == Joined(l, Top(b), price).queues
           && LadderOf(r.book, side).best == Improve(side, l.best, price)
           && LadderOf(r.book, side).created == if price in l.queues then l.created else l.created + 1
  {
    hide QueueOk; hide Live;
    forall p | p in b.bids.queues {
      NotQueued(b, Top(b), Buy, p);
    }
    forall p | p in b.asks.queues {
      NotQueued(b, Top(b), Sell, p);
    }
    assert [] + [Top(b)] == [Top(b)];
  }

  // Exactly the new slot becomes live, if the order found a level.
  lemma AddLive(b: Book, owner: nat, clientId: nat, side: Side, price: int, qty: int)
    requires Inv(b) && b.free != []
    ensures var r := AddOrder(b, owner, clientId, side, price, qty);
      forall x: nat :: Live(r.book, x) <==> Live(b, x) || (r.slot.Some? && x == Top(b))
  {
    hide QueueOk; hide Partition; hide Live; hide AddOrder;
    AddShape(b, owner, clientId, side, price, qty);
    var r := AddOrder(b, owner, clientId, side, price, qty);
    forall x: nat
      ensures Live(r.book, x) <==> Live(b, x) || (r.slot.Some? && x == Top(b))
    {
      if x < |b.pool| {
        if !NoLevel(LadderOf(b, side), price) {
          JoinedAt(LadderOf(b, side), Top(b), price, b.pool[x].price);
          JoinedAt(LadderOf(b, side), Top(b), price, price);
        }
        LiveSame(b, r.book, x, Top(b));
        if x == Top(b) {
          LiveNew(b, r.book, Top(b), side, price);
        }
      } else {
        LiveInPool(b, x);
        LiveInPool(r.book, x);
      }
    }
  }

  lemma JoinedAt(l: Ladder, s: nat, p: int, x: int)
    ensures At(Joined(l, s, p).queues, x) == if x == p then At(l.queues, p) + [s] else At(l.queues, x)
  {
    AtSetQueue(l, p, At(l.queues, p) + [s], x);
  }

  lemma LiveInPool(b: Book, x: nat)
    ensures Live(b, x) ==> x < |b.pool|
  {
  }

  // A slot other than s is live after its queue gained s just if it was before.
  lemma LiveSame(b: Book, b': Book, x: nat, s: nat)
    requires x < |b.pool| && |b'.pool| == |b.pool| && s < |b.pool| && b'.pool == b.pool[s := b'.pool[s]]
    requires var q, q' := At(LadderOf(b, b.pool[x].side).queues, b.pool[x].price),
      At(LadderOf(b', b.pool[x].side).queues, b.pool[x].price);
      q' == q || q' == q + [s]
    ensures x != s ==> (Live(b', x) <==> Live(b, x))
  {
  }

  lemma LiveNew(b: Book, b': Book, s: nat, side: Side, price: int)
    requires s < |b'.pool| && b'.pool[s].side == side && b'.pool[s].price == price
    ensures Live(b', s) <==> s in At(LadderOf(b', side).queues, price)
  {
  }

  lemma PartitionTaken(b: Book, b': Book)
    requires Partition(b) && b.free != [] && |b'.pool| == |b.pool| && b'.free == b.free[..|b.free| - 1]
    requires forall x: nat :: Live(b', x) <==> Live(b, x) || x == Top(b)
    ensures Partition(b')
  {
    hide Live;
    forall x | 0 <= x < |b'.pool|
      ensures Live(b', x) || x in b'.free
    {
      assert Live(b, x) || x in b.free;
    }
  }

  lemma PartitionSame(b: Book, b': Book)
    requires Partition(b) && |b'.pool| == |b.pool| && b'.free == b.free
    requires forall x: nat :: Live(b', x) <==> Live(b, x)
    ensures Partition(b')
  {
    hide Live;
    forall x | 0 <= x < |b'.pool|
      ensures Live(b', x) || x in b'.free
    {
      assert Live(b, x) || x in b.free;
    }
  }

  // Resting an order keeps the invariant, even when it fails; it fails exactly
  // when no slot is free or the price needs a level and none is left.
  lemma AddKeeps(b: Book, owner: nat, clientId: nat, side: Side, price: int, qty: int)
    requires Inv(b) && qty > 0
    ensures var r := AddOrder(b, owner, clientId, side, price, qty);
      && Inv(r.book) && LadderOf(r.book, Opposite(side)) == LadderOf(b, Opposite(side))
      && (r.slot == None <==> b.free == [] || NoLevel(LadderOf(b, side), price))
      && (Clean(b) && (r.slot.Some? || b.free == []) ==> Clean(r.book))
  {
    hide QueueOk; hide Partition; hide Live; hide AddOrder;
    var r := AddOrder(b, owner, clientId, side, price, qty);
    if b.free == [] {
      AddFull(b, owner, clientId, side, price, qty);
      return;
    }
    AddShape(b, owner, clientId, side, price, qty);
    AddLive(b, owner, clientId, side, price, qty);
    var o := Order(b.nextId, clientId, owner, price, qty, side);
    LadderPut(b.pool, Top(b), o, Opposite(side), LadderOf(b, Opposite(side)));
    if r.slot.Some? {
      LadderJoin(b.pool, Top(b), o, side, LadderOf(b, side));
      PartitionTaken(b, r.book);
      CleanTaken(b, r.book);
    } else {
      LadderPut(b.pool, Top(b), o, side, LadderOf(b, side));
      PartitionSame(b, r.book);
    }
  }

  // A failed add leaves quantity in a free slot exactly when a slot was free.
  lemma AddClean(b: Book, owner: nat, clientId: nat, side: Side, price: int, qty: int)
    requires Inv(b) && Clean(b) && qty > 0
    ensures Clean(AddOrder(b, owner, clientId, side, price, qty).book) <==>
      b.free == [] || !NoLevel(LadderOf(b, side), price)
  {
    hide QueueOk; hide Partition; hide Live; hide AddOrder;
    AddKeeps(b, owner, clientId, side, price, qty);
    if b.free != [] {
      AddShape(b, owner, clientId, side, price, qty);
      assert b.free[|b.free| - 1] == Top(b);
    }
  }

  lemma AddFull(b: Book, owner: nat, clientId: nat, side: Side, price: int, qty: int)
    requires b.free == []
    ensures AddOrder(b, owner, clientId, side, price, qty) == Added(b, None)
  {
  }

  lemma CleanTaken(b: Book, b': Book)
    requires Partition(b) && b.free != [] && b'.free == b.free[..|b.free| - 1]
    requires Top(b) < |b.pool| && |b'.pool| == |b.pool| && b'.pool == b.pool[Top(b) := b'.pool[Top(b)]]
    ensures Clean(b) ==> Clean(b')
  {
    assert forall i | 0 <= i < |b'.free| :: b'.free[i] == b.free[i] && b.free[i] != Top(b);
  }

  // A successful add is an insertion into the sorted list of its side, behind
  // the orders of the same price.
  lemma AddRefines(b: Book, owner: nat, clientId: nat, side: Side, price: int, qty: int)
    requires Inv(b) && qty > 0
    ensures var r := AddOrder(b, owner, clientId, side, price, qty);
      && View(r.book, Opposite(side)) == View(b, Opposite(side))
      && match r.slot
         case None => View(r.book, side) == View(b, side)
         case Some(s) =>
           View(r.book, side) == Insert(side, View(b, side), Resting(Key(s, b.nextId, owner, clientId), price, qty))
  {
    hide QueueOk; hide Partition; hide Live; hide AddOrder; hide Flat; hide Listed; hide Insert; hide Above; hide Below;
    var r := AddOrder(b, owner, clientId, side, price, qty);
    if b.free == [] {
      AddFull(b, owner, clientId, side, price, qty);
      return;
    }
    AddShape(b, owner, clientId, side, price, qty);
    var s, l, pool' := Top(b), LadderOf(b, side), r.book.pool;
    PutListed(b.pool, s, pool'[s], Opposite(side), LadderOf(b, Opposite(side)));
    PutListed(b.pool, s, pool'[s], side, l);
    if r.slot.Some? {
      var a, q, c := Flat(side, Above(side, l.queues, price)), At(l.queues, price),
        Flat(side, Below(side, l.queues, price));
      FlatSplit(side, l.queues, price);
      FlatSet(side, l, price, q + [s]);
      JoinInsert(b.pool, pool', side, l, price, s, a, q, c);
    }
  }

  lemma PutListed(pool: seq<Order>, s: nat, o: Order, side: Side, l: Ladder)
    requires s < |pool| && Unqueued(l, s)
    ensures Listed(pool[s := o], Flat(side, l.queues)) == Listed(pool, Flat(side, l.queues))
  {
    hide Flat; hide Listed;
    var f := Flat(side, l.queues);
    forall i | 0 <= i < |f|
      ensures f[i] != s
    {
      FlatMembers(side, l.queues, f[i]);
    }
    assert Disjoint([s], f);
    assert SameOutside(pool, pool[s := o], [s]);
    ListedFrame(pool, pool[s := o], [s], f);
  }

  lemma JoinInsert(pool: seq<Order>, pool': seq<Order>, side: Side, l: Ladder, price: int, s: nat, a: seq<nat>,
                   q: seq<nat>, c: seq<nat>)
    requires LadderOk(pool, side, l) && s < |pool| == |pool'| && pool' == pool[s := pool'[s]] && pool'[s].price == price
    requires a == Flat(side, Above(side, l.queues, price)) && q == At(l.queues, price)
      && c == Flat(side, Below(side, l.queues, price))
    requires Listed(pool', a + q + c) == Listed(pool, a + q + c)
    ensures Listed(pool', a + (q + [s]) + c) == Insert(side, Listed(pool, a + q + c), Entry(pool', s))
  {
    hide Flat; hide Insert; hide Listed;
    var o := Entry(pool', s);
    ListedConcat(pool', a + q, [s]);
    ListedConcat(pool', a + q + [s], c);
    ListedConcat(pool', a + q, c);
    assert a + q + [s] + c == a + (q + [s]) + c;
    ListedOne(pool', s);
    FlatPrices(pool, side, l, Above(side, l.queues, price));
    FlatPrices(pool, side, l, Below(side, l.queues, price));
    ListedPrices(pool, a + q);
    ListedPrices(pool, c);
    ListedConcat(pool, a + q, c);
    ListedLength(pool, a + q);
    ListedLength(pool', a + q);
    ConcatSame(Listed(pool, a + q), Listed(pool, c), Listed(pool', a + q), Listed(pool', c));
    assert forall i | 0 <= i < |a + q| :: !Better(side, price, Listed(pool, a + q)[i].price);
    InsertSplit(side, Listed(pool, a + q), Listed(pool, c), o);
  }

  lemma ConcatSame<T>(a: seq<T>, c: seq<T>, a': seq<T>, c': seq<T>)
    requires |a| == |a'| && a + c == a' + c'
    ensures a == a' && c == c'
  {
    assert a == (a + c)[..|a|] && c == (a + c)[|a|..];
    assert a' == (a' + c')[..|a|] && c' == (a' + c')[|a|..];
  }

  lemma ListedLength(pool: seq<Order>, q: seq<nat>)
    ensures |Listed(pool, q)| == |q|
  {
  }

  lemma ListedOne(pool: seq<Order>, s: nat)
    ensures Listed(pool, [s]) == [Entry(pool, s)]
  {
  }

  lemma ListedPrices(pool: seq<Order>, q: seq<nat>)
    ensures |Listed(pool, q)| == |q|
    ensures forall i | 0 <= i < |q| && q[i] < |pool| :: Listed(pool, q)[i].price == pool[q[i]].price
  {
  }

  // The cache stays right exactly when it was not empty, or the new price is at
  // least as good as everything resting on its side.
  lemma AddCache(b: Book, owner: nat, clientId: nat, side: Side, price: int, qty: int)
    requires Inv(b) && CacheOk(side, LadderOf(b, side))
    requires AddOrder(b, owner, clientId, side, price, qty).slot.Some?
    ensures var l := LadderOf(b, side);
      var l' := LadderOf(AddOrder(b, owner, clientId, side, price, qty).book, side);
      && (CacheOk(side, l') <==> l.best.Some? || forall x | x in l.queues :: !Better(side, x, price))
      && (Fresh(side, l) ==> Fresh(side, l'))
  {
    hide QueueOk; hide Partition; hide Live; hide AddOrder; hide BestOf;
    AddFullOrShape(b, owner, clientId, side, price, qty);
    var l := LadderOf(b, side);
    var l' := LadderOf(AddOrder(b, owner, clientId, side, price, qty).book, side);
    assert l'.queues.Keys == l.queues.Keys + {price};
    assert l'.best.Some?;
    var best := BestOf(side, l'.queues.Keys);
    if l.best.Some? {
      assert IsBest(side, l'.queues.Keys, l'.best.value);
      BestUnique(side, l'.queues.Keys, l'.best.value);
    } else if forall x | x in l.queues :: !Better(side, x, price) {
      BestUnique(side, l'.queues.Keys, price);
    }
  }

  lemma AddFullOrShape(b: Book, owner: nat, clientId: nat, side: Side, price: int, qty: int)
    requires Inv(b) && AddOrder(b, owner, clientId, side, price, qty).slot.Some?
    ensures var l := LadderOf(b, side);
      var l' := LadderOf(AddOrder(b, owner, clientId, side, price, qty).book, side);
      l'.queues.Keys == l.queues.Keys + {price} && l'.best == Improve(side, l.best, price)
  {
    hide QueueOk; hide Partition; hide Live;
  }

  // ----- Cancelling -----

  lemma {:induction false} WithoutAt(q: seq<nat>, s: nat) returns (k: nat)
    requires s in q
    ensures k < |q| && q[k] == s && s !in q[..k] && Without(q, s) == RemoveAt(q, k)
  {
    if q[0] == s {
      k := 0;
    } else {
      k := WithoutAt(q[1..], s);
      assert q[1..][..k] == q[1..k + 1] && q[1..][k + 1..] == q[k + 2..];
      k := k + 1;
      assert q[..k] == [q[0]] + q[1..k];
    }
  }

  lemma QueueRemove(pool: seq<Order>, side: Side, p: int, q: seq<nat>, k: nat)
    requires QueueOk(pool, side, p, q) && k < |q|
    ensures QueueOk(pool[q[k] := pool[q[k]].(remaining := 0)], side, p, RemoveAt(q, k))
    ensures q[k] !in RemoveAt(q, k)
  {
    var r := RemoveAt(q, k);
    assert forall i | 0 <= i < |r| :: r[i] == if i < k then q[i] else q[i + 1];
  }

  // The queue of a live slot, and the slot's place in it.
  lemma LiveQueue(b: Book, s: nat) returns (k: nat)
    requires Inv(b) && Live(b, s)
    ensures var o := b.pool[s];
      var l := LadderOf(b, o.side);
      && o.price in l.queues && QueueOk(b.pool, o.side, o.price, l.queues[o.price])
      && o.remaining > 0 && At(l.queues, o.price) == l.queues[o.price]
      && k < |l.queues[o.price]| && l.queues[o.price][k] == s
      && Without(l.queues[o.price], s) == RemoveAt(l.queues[o.price], k)
  {
    var o := b.pool[s];
    var l := LadderOf(b, o.side);
    assert QueueOk(b.pool, o.side, o.price, l.queues[o.price]);
    k := WithoutAt(l.queues[o.price], s);
  }

  lemma CancelShape(b: Book, s: nat)
    requires Inv(b) && Live(b, s)
    ensures var o := b.pool[s];
      var l := LadderOf(b, o.side);
      o.price in l.queues && o.remaining > 0 &&
      CancelOrder(b, s) == (WithLadder(b.(pool := b.pool[s := o.(remaining := 0)], free := b.free + [s]), o.side,
                                       SetQueue(l, o.price, Without(l.queues[o.price], s))), true)
  {
    hide Partition;
    var k := LiveQueue(b, s);
  }

  lemma CancelLive(b: Book, s: nat)
    requires Inv(b) && Live(b, s)
    ensures forall x: nat :: Live(CancelOrder(b, s).0, x) <==> Live(b, x) && x != s
  {
    hide QueueOk; hide Partition; hide CancelOrder; hide Without;
    CancelShape(b, s);
    var k := LiveQueue(b, s);
    var o, b' := b.pool[s], CancelOrder(b, s).0;
    var l := LadderOf(b, o.side);
    var q := l.queues[o.price];
    QueueRemove(b.pool, o.side, o.price, q, k);
    RemoveMembers(q, k);
    forall x: nat
      ensures Live(b', x) <==> Live(b, x) && x != s
    {
      if x < |b.pool| {
        AtSetQueue(l, o.price, Without(q, s), b.pool[x].price);
      }
    }
  }

  lemma RemoveMembers(q: seq<nat>, k: nat)
    requires k < |q|
    ensures forall x :: x in q <==> x == q[k] || x in RemoveAt(q, k)
  {
    var r := RemoveAt(q, k);
    assert forall i | 0 <= i < |q| && i != k :: q[i] == if i < k then r[i] else r[i - 1];
    assert forall i | 0 <= i < |r| :: r[i] == if i < k then q[i] else q[i + 1];
  }

  // Cancelling frees exactly that slot and keeps the invariant and the caches.
  lemma CancelKeeps(b: Book, s: nat)
    requires Inv(b) && Live(b, s)
    ensures var b' := CancelOrder(b, s).0;
      && Inv(b') && (Clean(b) ==> Clean(b')) && CancelOrder(b, s).1 && b'.free == b.free + [s]
      && b'.pool == b.pool[s := b.pool[s].(remaining := 0)]
      && LadderOf(b', Opposite(b.pool[s].side)) == LadderOf(b, Opposite(b.pool[s].side))
      && (CachesOk(b) ==> CachesOk(b'))
  {
    hide QueueOk; hide Partition; hide CancelOrder; hide Without; hide Live; hide BestOf; hide CacheOk;
    CancelShape(b, s);
    var k := LiveQueue(b, s);
    LiveInPool(b, s);
    var o, b' := b.pool[s], CancelOrder(b, s).0;
    var l := LadderOf(b, o.side);
    var q := l.queues[o.price];
    QueueRemove(b.pool, o.side, o.price, q, k);
    assert SameOutside(b.pool, b'.pool, q);
    LadderSet(b.pool, b'.pool, o.side, l, o.price, RemoveAt(q, k));
    LadderFrame(b.pool, b'.pool, Opposite(o.side), LadderOf(b, Opposite(o.side)), o.price, q);
    CancelLive(b, s);
    assert [s][0] == s;
    PartitionFreed(b, b', [s]);
    SetQueueCache(o.side, l, o.price, RemoveAt(q, k));
  }

  lemma SetQueueCache(side: Side, l: Ladder, p: int, q: seq<nat>)
    requires p in l.queues
    ensures CacheOk(side, l) ==> CacheOk(side, SetQueue(l, p, q))
  {
    var l' := SetQueue(l, p, q);
    if CacheOk(side, l) && l'.best.Some? {
      assert IsBest(side, l'.queues.Keys, l'.best.value);
      BestUnique(side, l'.queues.Keys, l'.best.value);
    }
  }

  // On the sorted list, cancelling removes the entry of that slot and no other.
  lemma CancelRefines(b: Book, s: nat) returns (k: nat)
    requires Inv(b) && Live(b, s)
    ensures var b', side := CancelOrder(b, s).0, b.pool[s].side;
      && k < |View(b, side)| && View(b, side)[k] == Entry(b.pool, s)
      && View(b', side) == RemoveAt(View(b, side), k)
      && View(b', Opposite(side)) == View(b, Opposite(side))
  {
    hide QueueOk; hide Partition; hide CancelOrder; hide Without; hide Live; hide Flat; hide Listed; hide Above;
    hide Below;
    CancelShape(b, s);
    var i := LiveQueue(b, s);
    LiveInPool(b, s);
    var o, b' := b.pool[s], CancelOrder(b, s).0;
    var l := LadderOf(b, o.side);
    var q := l.queues[o.price];
    var a, c := Flat(o.side, Above(o.side, l.queues, o.price)), Flat(o.side, Below(o.side, l.queues, o.price));
    FlatSplit(o.side, l.queues, o.price);
    FlatSet(o.side, l, o.price, RemoveAt(q, i));
    QueueRemove(b.pool, o.side, o.price, q, i);
    QueuePrices(b.pool, o.side, o.price, q);
    SplitDisjoint(b.pool, o.side, l, o.price, q);
    assert SameOutside(b.pool, b'.pool, q);
    OtherView(b, b', o.side, o.price, q);
    k := |a| + i;
    RemovedListed(b.pool, b'.pool, a, q, c, i);
  }

  lemma RemovedListed(pool: seq<Order>, pool': seq<Order>, a: seq<nat>, q: seq<nat>, c: seq<nat>, i: nat)
    requires i < |q| && q[i] < |pool| && pool' == pool[q[i] := pool[q[i]].(remaining := 0)]
    requires Disjoint(q, a) && Disjoint(q, c) && q[i] !in RemoveAt(q, i)
    ensures var f := Listed(pool, a + q + c);
      && |a| + i < |f| && f[|a| + i] == Entry(pool, q[i])
      && Listed(pool', a + RemoveAt(q, i) + c) == RemoveAt(f, |a| + i)
  {
    var x, y := a + q + c, a + RemoveAt(q, i) + c;
    assert q[i] in q;
    assert y == RemoveAt(x, |a| + i);
    assert q[i] !in y;
    assert forall j | 0 <= j < |y| :: y[j] != q[i] && Entry(pool', y[j]) == Entry(pool, y[j]);
  }

  // ----- Price-time priority of the list -----

  ghost predicate SlotsInOrder(pool: seq<Order>, side: Side, f: seq<nat>) {
    && InPool(pool, f)
    && forall i, j | 0 <= i < j < |f| ::
         && !Better(side, pool[f[j]].price, pool[f[i]].price)
         && (pool[f[i]].price == pool[f[j]].price ==> pool[f[i]].exchangeId < pool[f[j]].exchangeId)
  }

  lemma InOrderConcat(pool: seq<Order>, side: Side, p: int, a: seq<nat>, c: seq<nat>)
    requires QueueOk(pool, side, p, a) && SlotsInOrder(pool, side, c)
    requires forall i | 0 <= i < |c| :: Better(side, p, pool[c[i]].price)
    ensures SlotsInOrder(pool, side, a + c)
  {
  }

  lemma {:induction false} FlatInOrder(pool: seq<Order>, side: Side, l: Ladder, part: map<int, seq<nat>>)
    requires LadderOk(pool, side, l) && forall x | x in part :: x in l.queues && part[x] == l.queues[x]
    ensures SlotsInOrder(pool, side, Flat(side, part))
    decreases |part.Keys|
  {
    hide QueueOk; hide Flat; hide SlotsInOrder;
    if part.Keys == {} {
      FlatEmpty(side, part);
      NoneInOrder(pool, side);
    } else {
      var b := BestOf(side, part.Keys);
      assert (part - {b}).Keys == part.Keys - {b};
      FlatBest(side, part, b);
      FlatInOrder(pool, side, l, part - {b});
      FlatPrices(pool, side, l, part - {b});
      InOrderConcat(pool, side, b, part[b], Flat(side, part - {b}));
    }
  }

  lemma NoneInOrder(pool: seq<Order>, side: Side)
    ensures SlotsInOrder(pool, side, [])
  {
  }

  // The list of a side is sorted by price and, at equal price, by exchange id,
  // so by arrival; every order in it has quantity left.
  lemma ViewSorted(b: Book, side: Side)
    requires LadderOk(b.pool, side, LadderOf(b, side))
    ensures Sorted(side, View(b, side)) && Positive(View(b, side))
    ensures forall i, j | 0 <= i < j < |View(b, side)| ::
      View(b, side)[i].price == View(b, side)[j].price ==>
        View(b, side)[i].id.exchangeId < View(b, side)[j].id.exchangeId
  {
    hide Flat; hide QueueOk;
    var l := LadderOf(b, side);
    FlatInOrder(b.pool, side, l, l.queues);
    var f := Flat(side, l.queues);
    forall i | 0 <= i < |f|
      ensures b.pool[f[i]].remaining > 0
    {
      FlatMembers(side, l.queues, f[i]);
      var p :| p in l.queues && f[i] in l.queues[p];
      QueueRemaining(b.pool, side, p, l.queues[p]);
    }
  }

  lemma QueueRemaining(pool: seq<Order>, side: Side, p: int, q: seq<nat>)
    requires QueueOk(pool, side, p, q)
    ensures forall s | s in q :: s < |pool| && pool[s].remaining > 0
  {
  }

  lemma InvSorted(b: Book, side: Side)
    requires Inv(b)
    ensures Sorted(side, View(b, side)) && Positive(View(b, side))
  {
    hide View; hide QueueOk; hide Partition;
    ViewSorted(b, side);
  }
}
