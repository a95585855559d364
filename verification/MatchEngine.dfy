/**
 The matching engine over its arrays: the book, the contestants' accounts as
 parallel arrays, and the cancel lookup.  Each operation is proved equal to the
 operation of the same name on engine values.
 */
module MatchingEngine {
  import opened SortedBook
  import opened LevelBook
  import opened BookTheory
  import opened BookRefinement
  import opened Pnl
  import opened Engine
  import opened EngineTheory
  import LevelPool
  import BookLinks
  import BookSnapshots
  import CancelMap
  import Orderbook

  const NULL: nat := BookLinks.NULL

  ghost function Rows(ps: seq<int>, rs: seq<int>, avgs: seq<int>, ns: seq<nat>): (r: seq<Account>)
    requires |ps| == |rs| == |avgs| == |ns|
    ensures |r| == |ps| && forall i | 0 <= i < |r| :: r[i] == Account(ps[i], rs[i], avgs[i], ns[i])
  {
    seq(|ps|, i requires 0 <= i < |ps| => Account(ps[i], rs[i], avgs[i], ns[i]))
  }

  // Accounts as parallel arrays, one entry per contestant.
  class Contestants {
    const position: array<int>
    const realized: array<int>
    const avgEntry: array<int>
    const totalFills: array<nat>
    var count: nat
    ghost const Repr: set<object>

    ghost predicate Valid()
      reads this
    {
      && position.Length == realized.Length == avgEntry.Length == totalFills.Length == MAX_CONTESTANTS
      && position != realized && position != avgEntry && realized != avgEntry
      && count <= MAX_CONTESTANTS && Repr == {this, position, realized, avgEntry, totalFills}
    }

    ghost function Accounts(): (r: seq<Account>)
      requires Valid()
      reads this, Repr
    {
      Rows(position[..], realized[..], avgEntry[..], totalFills[..])
    }

    constructor ()
      ensures Valid() && count == 0 && fresh(Repr) && |Accounts()| == MAX_CONTESTANTS
      ensures forall i | 0 <= i < MAX_CONTESTANTS :: Accounts()[i] == Account(0, 0, 0, 0)
    {
      var p, r := new int[MAX_CONTESTANTS](_ => 0), new int[MAX_CONTESTANTS](_ => 0);
      var a, n := new int[MAX_CONTESTANTS](_ => 0), new nat[MAX_CONTESTANTS](_ => 0);
      position, realized, avgEntry, totalFills, count := p, r, a, n, 0;
      Repr := {this, p, r, a, n};
    }

    method Check(cfg: Config, cid: nat, r: Request) returns (ack: Ack)
      requires Valid()
      ensures ack == Checked(cfg, count, Accounts(), cid, r)
    {
      if cid >= count {
        return Ignored;
      }
      if r.qty <= 0 || r.qty > cfg.maxOrderSize {
        return RejectedSize;
      }
      var pos := position[cid];
      if r.side == Buy && pos + r.qty > cfg.maxPosition {
        return RejectedRisk;
      }
      if r.side == Sell && pos - r.qty < -cfg.maxPosition {
        return RejectedRisk;
      }
      return Accepted;
    }

    // Books one fill: realizes profit on the closed part, averages the entry
    // price of an extended position.
    method ApplyFill(cid: nat, side: Side, price: int, qty: int)
      requires Valid() && cid < MAX_CONTESTANTS
      modifies Repr
      ensures Valid() && count == old(count)
      ensures Accounts() == ApplyTo(old(Accounts()), cid, Trade(side, price, qty))
    {
      var signed := if side == Buy then qty else -qty;
      var oldPos := position[cid];
      if Closes(oldPos, signed) {
        var closeQty := if signed > 0 then Min(signed, -oldPos) else Max(signed, -oldPos);
        if oldPos > 0 {
          realized[cid] := realized[cid] + Abs(closeQty) * (price - avgEntry[cid]);
        } else {
          realized[cid] := realized[cid] + Abs(closeQty) * (avgEntry[cid] - price);
        }
      }
      if Extends(oldPos, signed) {
        var total := Abs(oldPos) + Abs(signed);
        if total > 0 {
          avgEntry[cid] := TruncDiv(avgEntry[cid] * Abs(oldPos) + price * Abs(signed), total);
        }
      }
      position[cid] := position[cid] + signed;
      totalFills[cid] := totalFills[cid] + 1;
    }
  }

  // ----- Booking fills one by one -----

  // Booking the first fill, as the array loop does it.
  lemma BookFillsStep(accounts: seq<Account>, pool: seq<Order>, taker: nat, side: Side, fills: seq<Fill<nat>>, i: nat)
    requires i < |fills| && fills[i].id < |pool|
    ensures var f := fills[i];
      var maker := pool[f.id];
      BookFills(accounts, pool, taker, side, fills[i..]) ==
      BookFills(ApplyTo(ApplyTo(accounts, maker.owner, Trade(maker.side, f.price, f.qty)), taker,
        Trade(side, f.price, f.qty)),
                pool, taker, side, fills[i + 1..])
  {
    assert fills[i..][0] == fills[i] && fills[i..][1..] == fills[i + 1..];
  }

  lemma RefreshedTwice(b: Book)
    ensures Refreshed(Refreshed(b)) == Refreshed(b)
  {
  }

  class MatchEngine {
    const cfg: Config
    const book: Orderbook.OrderBook
    const contestants: Contestants
    const cancels: CancelMap.CancelIndex

    ghost function CancelRepr(): (r: set<object>) {
      {cancels, cancels.keys, cancels.vals}
    }

    ghost function Repr(): (r: set<object>) {
      book.Repr() + contestants.Repr + CancelRepr()
    }

    // The parts share no memory.
    ghost predicate Layout() {
      book.Repr() !! contestants.Repr && book.Repr() !! CancelRepr() && contestants.Repr !! CancelRepr()
    }

    ghost predicate Valid()
      reads contestants, Repr()
    {
      Layout() && book.Valid() && contestants.Valid() && cancels.Valid() && cancels.Below(BookLinks.POOL_CAPACITY)
    }

    ghost function Value(): (e: State)
      requires Valid()
      reads contestants, Repr()
    {
      State(cfg, contestants.count, book.book, contestants.Accounts(), cancels.contents)
    }

    constructor (cfg: Config)
      ensures Valid() && this.cfg == cfg && IsInitial(Value()) && fresh(Repr())
      ensures book.Room(Buy) && book.Room(Sell)
    {
      hide Orderbook.OrderBook.Valid; hide CancelMap.CancelIndex.Valid; hide CancelMap.CancelIndex.Below; hide Rows;
      hide Orderbook.OrderBook.Room; hide BookSnapshots.IsInitial; hide Clean; hide AllFresh;
      this.cfg := cfg;
      var b := new Orderbook.OrderBook();
      var c := new Contestants();
      assert b.Repr() !! c.Repr;
      var x := new CancelMap.CancelIndex();
      assert b.Repr() !! {x, x.keys, x.vals};
      assert c.Repr !! {x, x.keys, x.vals};
      book, contestants, cancels := b, c, x;
    }

    method Register() returns (cid: nat)
      requires Valid() && contestants.count < MAX_CONTESTANTS
      modifies contestants
      ensures Valid() && cid == old(contestants.count)
      ensures Value() == old(Value()).(count := cid + 1)
    {
      hide Orderbook.OrderBook.Valid; hide CancelMap.CancelIndex.Valid; hide CancelMap.CancelIndex.Below; hide Rows;
      hide Orderbook.OrderBook.Repr;
      cid := contestants.count;
      contestants.count := cid + 1;
    }

    // Asks for both best prices, as every fill report and every tick does.
    method AskBoth() returns (bid: int, ask: int)
      requires Valid()
      modifies book.Repr()
      ensures Valid() && Value() == old(Value()).(book := Refreshed(old(book.book)))
      ensures bid == match FindBest(Buy, old(book.book.bids)) case None => 0 case Some(p) => p
      ensures ask == match FindBest(Sell, old(book.book.asks)) case None => 0 case Some(p) => p
      ensures book.Room(Buy) == old(book.Room(Buy)) && book.Room(Sell) == old(book.Room(Sell))
    {
      hide Orderbook.OrderBook.Valid; hide CancelMap.CancelIndex.Valid; hide CancelMap.CancelIndex.Below; hide Rows;
      hide Orderbook.OrderBook.Room; hide Queried; hide FindBest;
      bid, ask := book.QueryBoth();
    }

    // Books one fill to its maker and then to the taker, and reports it.
    method BookOne(cid: nat, side: Side, f: Orderbook.MatchResult)
      requires Valid() && cid < MAX_CONTESTANTS && f.maker < |book.book.pool|
        && book.book.pool[f.maker].owner < MAX_CONTESTANTS
      modifies book.Repr(), contestants.Repr
      ensures Valid()
      ensures var maker := old(book.book).pool[f.maker];
        Value() == old(Value()).(
          book := Refreshed(old(book.book)),
          accounts := ApplyTo(ApplyTo(old(contestants.Accounts()), maker.owner, Trade(maker.side, f.price, f.qty)),
                              cid, Trade(side, f.price, f.qty)))
      ensures book.Room(Buy) == old(book.Room(Buy)) && book.Room(Sell) == old(book.Room(Sell))
    {
      hide Orderbook.OrderBook.Valid; hide CancelMap.CancelIndex.Valid; hide CancelMap.CancelIndex.Below; hide Rows;
      hide Orderbook.OrderBook.Room; hide Queried; hide FindBest; hide ApplyTo;
      var maker := book.OrderAt(f.maker);
      contestants.ApplyFill(maker.owner, maker.side, f.price, f.qty);
      contestants.ApplyFill(cid, side, f.price, f.qty);
      var bid, ask := AskBoth();
    }

    method BookAll(cid: nat, side: Side, buffer: array<Orderbook.MatchResult>, n: nat, ghost fills: seq<Fill<nat>>)
      returns (filled: int)
      requires Valid() && cid < MAX_CONTESTANTS && buffer !in Repr()
      requires n == |fills| <= buffer.Length && buffer[..n] == Orderbook.Results(cid, fills)
      requires MakersKnown(book.book.pool, MAX_CONTESTANTS, side, fills)
      modifies book.Repr(), contestants.Repr
      ensures Valid() && filled == FillTotal(fills)
      ensures Value() == old(Value()).(
        book := if fills == [] then old(book.book) else Refreshed(old(book.book)),
        accounts := BookFills(old(contestants.Accounts()), old(book.book.pool), cid, side, fills))
      ensures book.Room(Buy) == old(book.Room(Buy)) && book.Room(Sell) == old(book.Room(Sell))
    {
      hide Orderbook.OrderBook.Valid; hide CancelMap.CancelIndex.Valid; hide CancelMap.CancelIndex.Below; hide Rows;
      hide Orderbook.OrderBook.Room; hide Orderbook.OrderBook.Repr; hide Refreshed; hide BookFills; hide FillTotal;
      hide ApplyTo;
      ghost var was, accounts := book.book, contestants.Accounts();
      filled := 0;
      assert fills[0..] == fills;
      for i := 0 to n
        invariant Valid() && buffer[..n] == old(buffer[..n])
        invariant book.book == if i == 0 then was else Refreshed(was)
        invariant BookFills(contestants.Accounts(), was.pool, cid, side, fills[i..]) ==
          BookFills(accounts, was.pool, cid, side, fills)
        invariant filled + FillTotal(fills[i..]) == FillTotal(fills)
        invariant contestants.count == old(contestants.count) && cancels.contents == old(cancels.contents)
        invariant book.Room(Buy) == old(book.Room(Buy)) && book.Room(Sell) == old(book.Room(Sell))
      {
        var f := buffer[i];
        assert f == buffer[..n][i] == Orderbook.Results(cid, fills)[i];
        BookFillsStep(contestants.Accounts(), was.pool, cid, side, fills, i);
        FillTotalStep(fills, i);
        RefreshedPool(was);
        RefreshedTwice(was);
        BookOne(cid, side, f);
        filled := filled + f.qty;
      }
      assert fills[n..] == [];
      BookFillsNone(contestants.Accounts(), was.pool, cid, side);
    }

    // The order's key is usable, its price is one the level index can hold, and
    // a new level, if it needs one, finds room.
    ghost predicate CanRest(cid: nat, r: Request)
      reads book.Repr()
    {
      && CancelMap.MakeKey(cid, r.clientId) != 0 && LevelPool.Restable(r.price)
      && (Orderbook.NeedsLevel(LadderOf(book.book, r.side), r.price) ==> book.Room(r.side))
    }

    // Rests the remainder and stores its key; `placed` says whether a lookup of
    // the key finds the order.
    method RestRemainder(cid: nat, r: Request, left: int) returns (ghost placed: bool)
      requires Valid() && left > 0 && CanRest(cid, r)
      modifies book.Repr(), CancelRepr()
      ensures Valid()
      ensures var a := LevelBook.AddOrder(old(book.book), cid, r.clientId, r.side, r.price, left);
        Value() == old(Value()).(
          book := a.book,
          cancels := if a.slot.Some? && placed
            then old(cancels.contents)[CancelMap.MakeKey(cid, r.clientId) := a.slot.value]
                     else old(cancels.contents))
    {
      hide Orderbook.OrderBook.Valid; hide CancelMap.CancelIndex.Valid; hide CancelMap.CancelIndex.Below; hide Rows;
      hide CancelMap.CancelIndex.Once; hide LevelBook.AddOrder; hide CancelMap.MakeKey; hide LevelPool.Restable;
      hide Orderbook.OrderBook.Room; hide Orderbook.NeedsLevel;
      ghost var b := book.book;
      book.PoolSize();
      var oidx := book.AddOrder(cid, r.clientId, r.side, r.price, left);
      placed := false;
      if oidx != NULL {
        SlotInPool(b, cid, r, left);
        var stored;
        stored, placed := cancels.Insert(CancelMap.MakeKey(cid, r.clientId), oidx);
      }
    }

    // Matches an accepted order and books its fills.
    method TakeAndBook(cid: nat, r: Request) returns (filled: int)
      requires Valid() && EngineInv(Value()) && cid < MAX_CONTESTANTS
      modifies book.Repr(), contestants.Repr
      ensures Valid() && Value() == Filled(old(Value()), cid, r) && filled == r.qty - Fills(old(Value()), r).left
      ensures book.Room(r.side) == old(book.Room(r.side))
    {
      hide Orderbook.OrderBook.Valid; hide CancelMap.CancelIndex.Valid; hide CancelMap.CancelIndex.Below; hide Rows;
      hide Inv; hide OwnersOk; hide LevelBook.Match; hide Orderbook.OrderBook.Room; hide BookFills; hide Refreshed;
      hide FillTotal; hide Orderbook.Results; hide MakersKnown;
      ghost var e := Value();
      ghost var m := Fills(e, r);
      MatchLeft(e.book, r.side, Some(r.price), r.qty, FILL_BUFFER);
      FillsKnown(e, r);
      var buffer := new Orderbook.MatchResult[FILL_BUFFER];
      var n := book.Match(r.side, r.price, r.qty, cid, buffer, FILL_BUFFER);
      filled := BookAll(cid, r.side, buffer, n, m.fills);
    }

    // Validates, matches, books the fills and rests the remainder of a limit
    // order.
    method ProcessOrder(cid: nat, r: Request) returns (ack: Ack, ghost placed: bool)
      requires Valid() && EngineInv(Value())
      requires Verdict(Value(), cid, r) == Accepted && Rests(r, Fills(Value(), r).left) ==> CanRest(cid, r)
      modifies Repr()
      ensures Valid() && ack == Verdict(old(Value()), cid, r)
      ensures Value() == Engine.ProcessOrder(old(Value()), cid, r, placed) && EngineInv(Value())
    {
      hide Orderbook.OrderBook.Valid; hide CancelMap.CancelIndex.Valid; hide CancelMap.CancelIndex.Below; hide Rows;
      hide EngineInv; hide LevelBook.AddOrder; hide Layout; hide Orderbook.OrderBook.Room; hide CancelMap.MakeKey;
      hide LevelPool.Restable; hide Fills; hide BookAfterFills; hide BookFills; hide Orderbook.NeedsLevel;
      placed := false;
      ghost var e := Value();
      ack := contestants.Check(cfg, cid, r);
      if ack == Accepted {
        var filled := TakeAndBook(cid, r);
        if r.qty - filled > 0 && r.orderType == Limit {
          SameNeed(e, r);
          placed := RestRemainder(cid, r, r.qty - filled);
        }
      }
      ProcessOrderInv(e, cid, r, placed);
    }

    // Cancels the order stored under the requester's key, if it is theirs and
    // has quantity left.  A key stored once is then forgotten.
    method ProcessCancel(cid: nat, clientId: nat) returns (ack: Ack, ghost next: Option<nat>)
      requires Valid() && EngineInv(Value()) && Allowed(Value(), Cancel(cid, clientId, None))
      modifies Repr()
      ensures Valid() && Value() == Engine.ProcessCancel(old(Value()), cid, clientId, next) && EngineInv(Value())
      ensures ack == if CancelSlot(old(Value()), cid, clientId).Some? then Cancelled else RejectedUnknown
      ensures old(cancels.Once(CancelMap.MakeKey(cid, clientId))) ==> next == None
    {
      hide Orderbook.OrderBook.Valid; hide CancelMap.CancelIndex.Valid; hide CancelMap.CancelIndex.Below; hide Rows;
      hide Inv; hide CancelMap.CancelIndex.Once; hide OwnersOk; hide LevelBook.CancelOrder; hide CancelMap.MakeKey;
      hide Live;
      next := None;
      ghost var e := Value();
      var key := CancelMap.MakeKey(cid, clientId);
      var idx := cancels.Lookup(key);
      if idx == NULL {
        return RejectedUnknown, None;
      }
      var o := book.OrderAt(idx);
      if o.owner != cid || o.remaining <= 0 {
        return RejectedUnknown, None;
      }
      ack := Withdraw(key, idx);
      if key in cancels.contents {
        next := Some(cancels.contents[key]);
      }
      MapBack(e.cancels, cancels.contents, key);
      ProcessCancelInv(e, cid, clientId, next);
    }

    // Takes the order in a slot off the book and forgets its key.
    method Withdraw(key: nat, idx: nat) returns (ack: Ack)
      requires Valid() && key != 0 && Live(book.book, idx)
      modifies Repr()
      ensures Valid() && ack == Cancelled
      ensures Value() ==
        old(Value()).(book := LevelBook.CancelOrder(old(book.book), idx).0, cancels := cancels.contents)
      ensures cancels.contents - {key} == old(cancels.contents) - {key}
      ensures key in cancels.contents ==> cancels.contents[key] < |old(book.book).pool|
      ensures old(cancels.Once(key)) ==> key !in cancels.contents
    {
      hide Orderbook.OrderBook.Valid; hide CancelMap.CancelIndex.Valid; hide CancelMap.CancelIndex.Below; hide Rows;
      hide CancelMap.CancelIndex.Once; hide LevelBook.CancelOrder; hide Live; hide Orderbook.OrderBook.Room;
      book.PoolSize();
      var ok := book.CancelOrder(idx);
      cancels.Remove(key);
      StoredInPool();
      return Cancelled;
    }

    lemma StoredInPool()
      requires cancels.Valid() && cancels.Below(BookLinks.POOL_CAPACITY)
      ensures forall k | k in cancels.contents :: cancels.contents[k] < BookLinks.POOL_CAPACITY
    {
      hide CancelMap.Represents;
      CancelMap.StoredBelow(cancels.Table(), cancels.contents, BookLinks.POOL_CAPACITY);
    }

    // The best prices of the book and the quantities there, 0 for an empty side;
    // quantities are asked for only at positive prices.
    method GenerateTick() returns (bid: int, ask: int, bidQty: int, askQty: int)
      requires Valid()
      modifies book.Repr()
      ensures Valid() && Value() == Tick(old(Value())) && (old(EngineInv(Value())) ==> EngineInv(Value()))
      ensures CachesOk(old(book.book)) ==>
        && bid == (match Scan(Buy, old(book.book.bids)) case None => 0 case Some(p) => p)
        && ask == (match Scan(Sell, old(book.book.asks)) case None => 0 case Some(p) => p)
        && bidQty == (if bid > 0 then BookSnapshots.RestingAt(old(book.book), Buy, bid) else 0)
        && askQty == (if ask > 0 then BookSnapshots.RestingAt(old(book.book), Sell, ask) else 0)
    {
      hide Orderbook.OrderBook.Valid; hide CancelMap.CancelIndex.Valid; hide CancelMap.CancelIndex.Below; hide Rows;
      hide Refreshed; hide EngineInv; hide Queried; hide FindBest; hide CachesOk; hide Orderbook.OrderBook.Room;
      hide BookSnapshots.RestingAt;
      ghost var b := book.book;
      if EngineInv(Value()) {
        TickInv(Value());
      }
      BestAgain(b);
      bid, ask := AskBoth();
      bidQty, askQty := 0, 0;
      if bid > 0 {
        bidQty := book.BestQty(Buy);
      }
      if ask > 0 {
        askQty := book.BestQty(Sell);
      }
    }
  }

  lemma MapBack(m: map<nat, nat>, m': map<nat, nat>, key: nat)
    requires m' - {key} == m - {key}
    ensures m' == if key in m' then m[key := m'[key]] else m - {key}
  {
    forall k | k in m' && k != key
      ensures k in m && m[k] == m'[k]
    {
      assert k in m' - {key};
    }
    forall k | k in m && k != key
      ensures k in m'
    {
      assert k in m - {key};
    }
  }

  // Asking again changes nothing; with right caches the answers are the scan's.
  lemma BestAgain(b: Book)
    ensures var r := Refreshed(b);
      && Queried(r, Buy) == r && Queried(r, Sell) == r
      && FindBest(Buy, r.bids) == FindBest(Buy, b.bids) && FindBest(Sell, r.asks) == FindBest(Sell, b.asks)
      && (CachesOk(b) ==> FindBest(Buy, b.bids) == Scan(Buy, b.bids) && FindBest(Sell, b.asks) == Scan(Sell, b.asks))
      && forall p: int :: BookSnapshots.RestingAt(r, Buy, p) == BookSnapshots.RestingAt(b, Buy, p)
                       && BookSnapshots.RestingAt(r, Sell, p) == BookSnapshots.RestingAt(b, Sell, p)
  {
  }

  lemma SlotInPool(b: Book, cid: nat, r: Request, left: int)
    requires LevelBook.AddOrder(b, cid, r.clientId, r.side, r.price, left).slot.Some?
    ensures LevelBook.AddOrder(b, cid, r.clientId, r.side, r.price, left).slot.value < |b.pool|
  {
  }

  lemma SameNeed(e: State, r: Request)
    requires EngineInv(e)
    ensures Orderbook.NeedsLevel(LadderOf(BookAfterFills(e, r), r.side), r.price) ==
      Orderbook.NeedsLevel(LadderOf(e.book, r.side), r.price)
  {
    hide Inv; hide View; hide BookAfterFills; hide SameRecords; hide OwnersOk;
    AfterFillsKeeps(e, r);
  }

  lemma BookFillsNone(accounts: seq<Account>, pool: seq<Order>, taker: nat, side: Side)
    ensures BookFills(accounts, pool, taker, side, []) == accounts && FillTotal<nat>([]) == 0
  {
  }

  lemma RefreshedPool(b: Book)
    ensures Refreshed(b).pool == b.pool
  {
  }
}
