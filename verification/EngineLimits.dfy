/**
 How far a contestant's position can be taken by others: the position less the
 contestant's resting asks and plus its resting bids.  The order check looks at
 the position alone, so only an order that is also counted against what already
 rests keeps every later position within the limit.
 */
module EngineLimits {
  import opened SortedBook
  import opened LevelBook
  import opened BookTheory
  import opened BookRefinement
  import opened Pnl
  import opened Engine
  import opened EngineTheory
  import CancelMap

  // ----- What one contestant has resting -----

  function Share(l: seq<Resting<Key>>, c: nat): (n: int) {
    if l == [] then 0 else (if l[0].id.owner == c then l[0].qty else 0) + Share(l[1..], c)
  }

  function FillShare(fills: seq<Fill<Key>>, c: nat): (n: int) {
    if fills == [] then 0 else (if fills[0].id.owner == c then fills[0].qty else 0) + FillShare(fills[1..], c)
  }

  lemma {:induction false} ShareConcat(a: seq<Resting<Key>>, d: seq<Resting<Key>>, c: nat)
    ensures Share(a + d, c) == Share(a, c) + Share(d, c)
  {
    if a == [] {
      assert a + d == d;
    } else {
      assert (a + d)[1..] == a[1..] + d;
      ShareConcat(a[1..], d, c);
    }
  }

  lemma {:induction false} FillShareConcat(a: seq<Fill<Key>>, d: seq<Fill<Key>>, c: nat)
    ensures FillShare(a + d, c) == FillShare(a, c) + FillShare(d, c)
  {
    if a == [] {
      assert a + d == d;
    } else {
      assert (a + d)[1..] == a[1..] + d;
      FillShareConcat(a[1..], d, c);
    }
  }

  lemma ShareOne(o: Resting<Key>, c: nat)
    ensures Share([o], c) == if o.id.owner == c then o.qty else 0
  {
    assert [o][1..] == [];
  }

  lemma {:induction false} ShareBounds(l: seq<Resting<Key>>, c: nat)
    requires Positive(l)
    ensures Share(l, c) >= 0
  {
    if l != [] {
      ShareBounds(l[1..], c);
    }
  }

  lemma InsertShare(side: Side, l: seq<Resting<Key>>, o: Resting<Key>, c: nat)
    requires Sorted(side, l)
    ensures Share(Insert(side, l, o), c) == Share(l, c) + if o.id.owner == c then o.qty else 0
  {
    hide Insert; hide Share;
    var k := InsertPosition(side, l, o);
    ShareConcat(l[..k] + [o], l[k..], c);
    ShareConcat(l[..k], [o], c);
    ShareConcat(l[..k], l[k..], c);
    ShareOne(o, c);
    assert l[..k] + l[k..] == l;
  }

  lemma RemoveShare(l: seq<Resting<Key>>, k: nat, c: nat)
    requires k < |l|
    ensures Share(RemoveAt(l, k), c) == Share(l, c) - if l[k].id.owner == c then l[k].qty else 0
  {
    hide Share;
    ShareConcat(l[..k], l[k + 1..], c);
    ShareConcat(l[..k] + [l[k]], l[k + 1..], c);
    ShareConcat(l[..k], [l[k]], c);
    ShareOne(l[k], c);
    assert l[..k] + [l[k]] + l[k + 1..] == l;
  }

  // ----- Fills take from it -----

  lemma {:induction false} TakeShare(l: seq<Resting<Key>>, side: Side, limit: Option<int>, qty: int, max: nat, c: nat)
    ensures var t := Take(l, side, limit, qty, max); Share(l, c) == Share(t.rest, c) + FillShare(t.fills, c)
    decreases max
  {
    hide Take; hide Crosses;
    if qty > 0 && max > 0 && l != [] && Crosses(side, limit, l[0].price) {
      var f := Min(qty, l[0].qty);
      TakeStep(l, side, limit, qty, max);
      var t := Take(DropFilled(l, f), side, limit, qty - f, max - 1);
      TakeShare(DropFilled(l, f), side, limit, qty - f, max - 1, c);
      DropShare(l, f, c);
      assert ([Fill(l[0].id, l[0].price, f)] + t.fills)[1..] == t.fills;
    } else {
      TakeNone(l, side, limit, qty, max);
    }
  }

  lemma DropShare(l: seq<Resting<Key>>, f: int, c: nat)
    requires l != [] && f <= l[0].qty
    ensures Share(l, c) == Share(DropFilled(l, f), c) + if l[0].id.owner == c then f else 0
  {
    var d := [l[0].(qty := l[0].qty - f)] + l[1..];
    assert d[1..] == l[1..];
  }

  lemma WalkShare(pool: seq<Order>, side: Side, p: int, q: seq<nat>, qty: int, max: nat, c: nat)
    requires QueueOk(pool, side, p, q)
    ensures var w := Walk(pool, q, qty, max);
      Share(Listed(pool, q), c) == Share(Listed(w.pool, w.queue), c) + FillShare(Named(pool, w.fills), c)
  {
    hide Walk; hide QueueOk; hide Take; hide Listed; hide Named; hide Share; hide FillShare;
    var aggressor, w := Opposite(side), Walk(pool, q, qty, max);
    WalkTakes(pool, p, q, [], aggressor, None, qty, max);
    assert q + [] == q && w.queue + [] == w.queue;
    TakeShare(Listed(pool, q), aggressor, None, qty, max, c);
    TakeShare(Listed(w.pool, w.queue), aggressor, None, w.left, max - |w.fills|, c);
    FillShareConcat(Named(pool, w.fills),
      Take(Listed(w.pool, w.queue), aggressor, None, w.left, max - |w.fills|).fills, c);
  }

  lemma ShareSplit(pool: seq<Order>, a: seq<nat>, q: seq<nat>, d: seq<nat>, c: nat)
    ensures Share(Listed(pool, a + q + d), c) ==
      Share(Listed(pool, a), c) + Share(Listed(pool, q), c) + Share(Listed(pool, d), c)
  {
    hide Share; hide Listed;
    ListedConcat(pool, a + q, d);
    ListedConcat(pool, a, q);
    ShareConcat(Listed(pool, a + q), Listed(pool, d), c);
    ShareConcat(Listed(pool, a), Listed(pool, q), c);
  }

  lemma LevelShare(b: Book, side: Side, p: int, qty: int, max: nat, c: nat)
    requires Inv(b) && p in LadderOf(b, side).queues
    ensures var m := TakeLevel(b, side, p, qty, max);
      Share(View(b, side), c) == Share(View(m.book, side), c) + FillShare(Named(b.pool, m.fills), c)
  {
    hide Walk; hide Flat; hide QueueOk; hide Live; hide Partition; hide Listed; hide Share; hide FillShare; hide Named;
    hide SameOutside; hide SameRecords; hide Above; hide Below;
    var l := LadderOf(b, side);
    var q := l.queues[p];
    var w := Walk(b.pool, q, qty, max);
    var a, d := Flat(side, Above(side, l.queues, p)), Flat(side, Below(side, l.queues, p));
    FlatSplit(side, l.queues, p);
    FlatSet(side, l, p, w.queue);
    ShareSplit(b.pool, a, q, d, c);
    ShareSplit(w.pool, a, w.queue, d, c);
    QueuePrices(b.pool, side, p, q);
    SplitDisjoint(b.pool, side, l, p, q);
    WalkFrame(b.pool, q, qty, max);
    ListedFrame(b.pool, w.pool, q, a);
    ListedFrame(b.pool, w.pool, q, d);
    WalkShare(b.pool, side, p, q, qty, max, c);
  }

  // What a match takes from a contestant's resting orders is what it fills.
  lemma {:induction false} MatchShare(b: Book, aggressor: Side, limit: Option<int>, qty: int, max: nat, c: nat)
    requires Inv(b)
    ensures var m, side := Match(b, aggressor, limit, qty, max), Opposite(aggressor);
      Share(View(b, side), c) == Share(View(m.book, side), c) + FillShare(Named(b.pool, m.fills), c)
    decreases max
  {
    hide Inv; hide Clean; hide SameRecords; hide View; hide Share; hide FillShare; hide Match; hide TakeLevel;
    hide Queried; hide FindBest; hide Conserved; hide Named;
    var side := Opposite(aggressor);
    var best := FindBest(side, LadderOf(b, side));
    QueriedKept(b, side, qty);
    NoShare(b.pool, c);
    if qty <= 0 || max == 0 {
      MatchDone(b, aggressor, limit, qty, max);
    } else if best.None? || !Crosses(aggressor, limit, best.value) {
      MatchStuck(b, aggressor, limit, qty, max);
    } else {
      var b1 := Queried(b, side);
      var m := TakeLevel(b1, side, best.value, qty, max);
      TakeLevelKeeps(b1, side, best.value, qty, max);
      ConservedParts(b1, side, qty, max, m);
      LevelShare(b1, side, best.value, qty, max, c);
      MatchStep(b, aggressor, limit, qty, max);
      MatchShare(m.book, aggressor, limit, m.left, max - |m.fills|, c);
      var r := Match(m.book, aggressor, limit, m.left, max - |m.fills|);
      NamedSame(b.pool, b1.pool, m.fills);
      NamedSame(b1.pool, m.book.pool, r.fills);
      NamedSame(b.pool, b1.pool, r.fills);
      NamedConcat(b.pool, m.fills, r.fills);
      FillShareConcat(Named(b.pool, m.fills), Named(b.pool, r.fills), c);
    }
  }

  lemma NoShare(pool: seq<Order>, c: nat)
    ensures FillShare(Named(pool, []), c) == 0
  {
  }

  // ----- Positions -----

  // n units in the direction of a side.
  function Toward(side: Side, n: int): (d: int) {
    if side == Buy then n else -n
  }

  // Fills move a maker against the order's direction by its share, and the
  // taker along it by their total.
  lemma {:induction false} BookFillsShift(accounts: seq<Account>, pool: seq<Order>, taker: nat, side: Side,
                                          fills: seq<Fill<nat>>, c: nat)
    requires taker < |accounts| && c < |accounts| && MakersKnown(pool, |accounts|, side, fills)
    ensures var r := BookFills(accounts, pool, taker, side, fills);
      && |r| == |accounts|
      && r[c].position == accounts[c].position - Toward(side, FillShare(Named(pool, fills), c))
                          + if c == taker then Toward(side, FillTotal(fills)) else 0
    decreases |fills|
  {
    hide Named; hide FillShare;
    if fills == [] {
      NoShare(pool, c);
    } else {
      var f := fills[0];
      var maker := pool[f.id];
      var one := ApplyTo(accounts, maker.owner, Trade(maker.side, f.price, f.qty));
      var two := ApplyTo(one, taker, Trade(side, f.price, f.qty));
      BookFillsShift(two, pool, taker, side, fills[1..], c);
      FirstShare(pool, fills, c);
    }
  }

  lemma FirstShare(pool: seq<Order>, fills: seq<Fill<nat>>, c: nat)
    requires fills != [] && fills[0].id < |pool|
    ensures FillShare(Named(pool, fills), c) ==
      (if pool[fills[0].id].owner == c then fills[0].qty else 0) + FillShare(Named(pool, fills[1..]), c)
  {
    assert Named(pool, fills)[1..] == Named(pool, fills[1..]);
  }

  // The lowest and the highest position others can bring c to.
  ghost function Lowest(e: State, c: nat): (n: int)
    requires c < |e.accounts|
  {
    e.accounts[c].position - Share(View(e.book, Sell), c)
  }

  ghost function Highest(e: State, c: nat): (n: int)
    requires c < |e.accounts|
  {
    e.accounts[c].position + Share(View(e.book, Buy), c)
  }

  lemma Between(e: State, c: nat)
    requires Inv(e.book) && c < |e.accounts|
    ensures Lowest(e, c) <= e.accounts[c].position <= Highest(e, c)
  {
    hide Inv; hide View;
    InvSorted(e.book, Buy);
    InvSorted(e.book, Sell);
    ShareBounds(View(e.book, Buy), c);
    ShareBounds(View(e.book, Sell), c);
  }

  // The fills of an order, seen by c.
  ghost function FilledOf(e: State, r: Request, c: nat): (n: int) {
    FillShare(Named(e.book.pool, Fills(e, r).fills), c)
  }

  lemma FilledOfBounds(e: State, r: Request, c: nat)
    requires EngineInv(e) && r.qty > 0
    ensures FilledOf(e, r, c) >= 0 && FillTotal(Fills(e, r).fills) >= 0 && Fills(e, r).left >= 0
    ensures r.qty == Fills(e, r).left + FillTotal(Fills(e, r).fills)
  {
    hide Inv; hide View; hide Match; hide Total; hide Clean; hide SameRecords; hide OwnersOk; hide Named;
    MatchKeeps(e.book, r.side, Some(r.price), r.qty, FILL_BUFFER);
    MatchFillsOk(e.book, r.side, Some(r.price), r.qty, FILL_BUFFER);
    FillSums(e.book.pool, Fills(e, r).fills, c);
  }

  lemma {:induction false} FillSums(pool: seq<Order>, fills: seq<Fill<nat>>, c: nat)
    requires forall i | 0 <= i < |fills| :: fills[i].id < |pool| && fills[i].qty > 0
    ensures FillShare(Named(pool, fills), c) >= 0 && FillTotal(fills) >= 0
    decreases |fills|
  {
    hide Named; hide FillShare;
    if fills == [] {
      NoShare(pool, c);
    } else {
      FirstShare(pool, fills, c);
      FillSums(pool, fills[1..], c);
    }
  }

  // After an order's fills: c's resting orders on the other side shrink by what
  // was filled, and its position moves by as much.
  lemma FilledReach(e: State, cid: nat, r: Request, c: nat)
    requires EngineInv(e) && cid < |e.accounts| && c < |e.accounts|
    ensures var f := Filled(e, cid, r);
      && |f.accounts| == |e.accounts|
      && f.accounts[c].position == e.accounts[c].position - Toward(r.side, FilledOf(e, r, c))
                                   + (if c == cid then Toward(r.side, FillTotal(Fills(e, r).fills)) else 0)
      && Share(View(f.book, Opposite(r.side)), c) == Share(View(e.book, Opposite(r.side)), c) - FilledOf(e, r, c)
      && Share(View(f.book, r.side), c) == Share(View(e.book, r.side), c)
  {
    hide Inv; hide View; hide Match; hide Total; hide Clean; hide SameRecords; hide Live; hide Named; hide Share;
    hide FillShare; hide BookFills; hide BookAfterFills; hide FillTotal; hide OwnersOk; hide MakersKnown;
    var m := Fills(e, r);
    FillsKnown(e, r);
    MatchKeeps(e.book, r.side, Some(r.price), r.qty, FILL_BUFFER);
    NamedSame(e.book.pool, m.book.pool, m.fills);
    BookFillsShift(e.accounts, m.book.pool, cid, r.side, m.fills, c);
    MatchShare(e.book, r.side, Some(r.price), r.qty, FILL_BUFFER, c);
    AfterFillsKeeps(e, r);
  }

  lemma AddShare(b: Book, owner: nat, clientId: nat, side: Side, price: int, qty: int, c: nat)
    requires Inv(b) && qty > 0
    ensures var a := AddOrder(b, owner, clientId, side, price, qty);
      && Share(View(a.book, Opposite(side)), c) == Share(View(b, Opposite(side)), c)
      && Share(View(b, side), c) <= Share(View(a.book, side), c)
      && Share(View(a.book, side), c) <= Share(View(b, side), c) + if owner == c then qty else 0
  {
    hide View; hide Share; hide AddOrder; hide Insert; hide Inv;
    var a := AddOrder(b, owner, clientId, side, price, qty);
    AddRefines(b, owner, clientId, side, price, qty);
    InvSorted(b, side);
    if a.slot.Some? {
      InsertShare(side, View(b, side), Resting(Key(a.slot.value, b.nextId, owner, clientId), price, qty), c);
    }
  }

  lemma SubmitShares(e: State, cid: nat, r: Request, placed: bool, c: nat)
    requires EngineInv(e) && c < |e.accounts| && Verdict(e, cid, r) == Accepted
    ensures var f := ProcessOrder(e, cid, r, placed);
      && |f.accounts| == |e.accounts|
      && f.accounts[c].position == e.accounts[c].position - Toward(r.side, FilledOf(e, r, c))
                                   + (if c == cid then Toward(r.side, FillTotal(Fills(e, r).fills)) else 0)
      && Share(View(f.book, Opposite(r.side)), c) == Share(View(e.book, Opposite(r.side)), c) - FilledOf(e, r, c)
      && Share(View(e.book, r.side), c) <= Share(View(f.book, r.side), c)
      && Share(View(f.book, r.side), c) <= Share(View(e.book, r.side), c) + if c == cid then Fills(e, r).left else 0
  {
    hide Inv; hide View; hide Fills; hide Share; hide FilledOf; hide BookFills; hide BookAfterFills; hide AddOrder;
    hide OwnersOk; hide FillTotal;
    FilledReach(e, cid, r, c);
    FilledOfBounds(e, r, c);
    var left := Fills(e, r).left;
    if Rests(r, left) {
      AfterFillsKeeps(e, r);
      AddShare(BookAfterFills(e, r), cid, r.clientId, r.side, r.price, left, c);
    }
  }

  // An order of another contestant cannot bring c any further than it could be
  // brought before; its own order reaches further by at most its quantity.
  lemma SubmitReach(e: State, cid: nat, r: Request, placed: bool, c: nat)
    requires EngineInv(e) && c < |e.accounts|
    ensures var f := ProcessOrder(e, cid, r, placed);
      && |f.accounts| == |e.accounts|
      && (cid != c || Verdict(e, cid, r) != Accepted ==> Lowest(f, c) >= Lowest(e, c) && Highest(f, c) <= Highest(e, c))
      && (cid == c && r.side == Buy && Verdict(e, cid, r) == Accepted ==>
            Lowest(f, c) >= Lowest(e, c) && Highest(f, c) <= Highest(e, c) + r.qty)
      && (cid == c && r.side == Sell && Verdict(e, cid, r) == Accepted ==>
            Lowest(f, c) >= Lowest(e, c) - r.qty && Highest(f, c) <= Highest(e, c))
  {
    if Verdict(e, cid, r) == Accepted {
      hide Inv; hide View; hide Fills; hide Share; hide FilledOf; hide ProcessOrder; hide FillTotal; hide OwnersOk;
      SubmitShares(e, cid, r, placed, c);
      FilledOfBounds(e, r, c);
    }
  }

  lemma CancelReach(e: State, cid: nat, clientId: nat, next: Option<nat>, c: nat)
    requires EngineInv(e) && c < |e.accounts| && Allowed(e, Cancel(cid, clientId, next))
    ensures var f := ProcessCancel(e, cid, clientId, next);
      f.accounts == e.accounts && Lowest(f, c) >= Lowest(e, c) && Highest(f, c) <= Highest(e, c)
  {
    hide Inv; hide Live; hide CancelOrder; hide View; hide Share; hide CancelMap.MakeKey;
    var s := CancelSlot(e, cid, clientId);
    if s.Some? {
      var k := CancelRefines(e.book, s.value);
      var side := e.book.pool[s.value].side;
      RemoveShare(View(e.book, side), k, c);
      InvSorted(e.book, side);
    }
  }

  // ----- Runs -----

  // Whatever others do, c stays within the limit.
  ghost predicate Covered(e: State, c: nat) {
    c < |e.accounts| && -e.cfg.maxPosition <= Lowest(e, c) && Highest(e, c) <= e.cfg.maxPosition
  }

  // c's order is still covered if all of it and all that rests were filled.
  ghost predicate Affordable(e: State, c: nat, op: Op) {
    op.Submit? && op.cid == c && c < |e.accounts| && Verdict(e, c, op.request) == Accepted ==>
      if op.request.side == Buy then Highest(e, c) + op.request.qty <= e.cfg.maxPosition
      else Lowest(e, c) - op.request.qty >= -e.cfg.maxPosition
  }

  lemma StepCovered(e: State, op: Op, c: nat)
    requires EngineInv(e) && Allowed(e, op) && Covered(e, c) && Affordable(e, c, op)
    ensures Covered(Step(e, op), c)
  {
    hide EngineInv; hide ProcessCancel; hide Lowest; hide Highest; hide BookFills; hide AddOrder; hide BookAfterFills;
    hide Fills; hide Refreshed;
    match op
    case Submit(cid, r, placed) => SubmitReach(e, cid, r, placed, c);
    case Cancel(cid, clientId, next) =>
      CancelReach(e, cid, clientId, next, c);
      CancelKeepsConfig(e, cid, clientId, next);
    case TickOp => TickReach(e, c);
  }

  lemma CancelKeepsConfig(e: State, cid: nat, clientId: nat, next: Option<nat>)
    requires Allowed(e, Cancel(cid, clientId, next))
    ensures ProcessCancel(e, cid, clientId, next).cfg == e.cfg
  {
    hide CancelOrder; hide Live;
  }

  lemma TickReach(e: State, c: nat)
    requires EngineInv(e) && c < |e.accounts|
    ensures Lowest(Tick(e), c) == Lowest(e, c) && Highest(Tick(e), c) == Highest(e, c)
  {
    hide Inv; hide View; hide Share; hide Refreshed;
    RefreshedKeeps(e.book);
  }

  ghost predicate AllAffordable(e: State, ops: seq<Op>, c: nat)
    decreases |ops|
  {
    ops == [] || (Affordable(e, c, ops[0]) && (Allowed(e, ops[0]) ==> AllAffordable(Step(e, ops[0]), ops[1..], c)))
  }

  lemma {:induction false} StaysCovered(e: State, ops: seq<Op>, c: nat)
    requires EngineInv(e) && Runs(e, ops) && Covered(e, c) && AllAffordable(e, ops, c)
    ensures Covered(After(e, ops), c)
    decreases |ops|
  {
    hide EngineInv; hide Step; hide Covered; hide Affordable;
    if ops != [] {
      StepInv(e, ops[0]);
      StepCovered(e, ops[0], c);
      StaysCovered(Step(e, ops[0]), ops[1..], c);
    }
  }

  // From the start: a contestant that counts each of its orders against what it
  // has resting is never taken past the position limit, whatever the others do.
  lemma WithinLimit(e: State, ops: seq<Op>, c: nat)
    requires IsInitial(e) && NeverShort(e, ops) && c < |e.accounts| && e.cfg.maxPosition >= 0
    requires AllAffordable(e, ops, c)
    ensures Runs(e, ops) && After(e, ops).cfg == e.cfg && c < |After(e, ops).accounts|
    ensures -e.cfg.maxPosition <= After(e, ops).accounts[c].position <= e.cfg.maxPosition
  {
    hide EngineInv; hide NeverShort; hide Runs; hide After; hide Clean; hide AllAffordable; hide PositionSum;
    hide Lowest; hide Highest;
    RunsClean(e, ops);
    InitialEngine(e);
    StartReach(e, c);
    StaysCovered(e, ops, c);
    RunInv(e, ops);
    RunConfig(e, ops);
    EngineBook(After(e, ops));
    Between(After(e, ops), c);
  }

  lemma EngineBook(e: State)
    requires EngineInv(e)
    ensures Inv(e.book)
  {
  }

  lemma StartReach(e: State, c: nat)
    requires IsInitial(e) && c < |e.accounts|
    ensures Lowest(e, c) == 0 == Highest(e, c)
  {
    hide Inv; hide View; hide Clean; hide PositionSum; hide OwnersOk;
    InitialEngine(e);
  }

  lemma StepConfig(e: State, op: Op)
    requires Allowed(e, op)
    ensures Step(e, op).cfg == e.cfg
  {
    hide CancelOrder; hide Live; hide BookFills; hide AddOrder; hide BookAfterFills; hide Fills; hide Refreshed;
  }

  lemma {:induction false} RunConfig(e: State, ops: seq<Op>)
    requires Runs(e, ops)
    ensures After(e, ops).cfg == e.cfg
    decreases |ops|
  {
    hide Step; hide Allowed;
    if ops != [] {
      StepConfig(e, ops[0]);
      RunConfig(Step(e, ops[0]), ops[1..]);
    }
  }
}
