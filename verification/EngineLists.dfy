/**
 What an order makes of the two sorted lists and of the stored keys, said on the
 lists alone: which orders are accepted, what they take from the other side, and
 which remainders come to rest.
 */
module EngineLists {
  import opened SortedBook
  import opened LevelBook
  import opened BookTheory
  import opened BookRefinement
  import opened Engine
  import opened EngineTheory
  import opened EngineSafety
  import CancelMap

  // An order is accepted exactly if its sender is registered, its size is within
  // bounds and a full fill would leave the sender within the limit; otherwise
  // the first of these that fails is reported and nothing changes.
  lemma AcceptedExact(e: State, cid: nat, r: Request, placed: bool)
    requires EngineInv(e)
    ensures Verdict(e, cid, r) == Accepted <==>
      && cid < e.count && 0 < r.qty <= e.cfg.maxOrderSize
      && (r.side == Buy ==> e.accounts[cid].position + r.qty <= e.cfg.maxPosition)
      && (r.side == Sell ==> -e.cfg.maxPosition <= e.accounts[cid].position - r.qty)
    ensures Verdict(e, cid, r) == Ignored <==> cid >= e.count
    ensures Verdict(e, cid, r) == RejectedSize <==> cid < e.count && !(0 < r.qty <= e.cfg.maxOrderSize)
    ensures Verdict(e, cid, r) != Accepted ==> ProcessOrder(e, cid, r, placed) == e
  {
    hide Inv; hide Live; hide Fills; hide BookAfterFills; hide BookFills; hide AddOrder;
  }

  // The units of an order that no fill has taken.
  ghost function Unfilled(e: State, r: Request): (n: int) {
    r.qty - FillTotal(Fills(e, r).fills)
  }

  // There is a slot for the remainder after the fills, and its price has or can
  // get a level.
  ghost predicate HasPlace(e: State, r: Request) {
    && Fills(e, r).book.free != []
    && (r.price in LadderOf(e.book, r.side).queues || LadderOf(e.book, r.side).created < MAX_PRICE_LEVELS)
  }

  // The remainder of a limit order rests behind its equals, under its sender's
  // key if the key finds it; no other order leaves anything, whatever its type.
  lemma RestsExact(e: State, cid: nat, r: Request, placed: bool)
    requires EngineInv(e) && Verdict(e, cid, r) == Accepted
    ensures var f, own := ProcessOrder(e, cid, r, placed), View(e.book, r.side);
      if r.orderType == Limit && Unfilled(e, r) > 0 && HasPlace(e, r) then
        var s := Top(Fills(e, r).book);
        && View(f.book, r.side) ==
             Insert(r.side, own, Resting(Key(s, e.book.nextId, cid, r.clientId), r.price, Unfilled(e, r)))
        && f.cancels == (if placed then e.cancels[CancelMap.MakeKey(cid, r.clientId) := s] else e.cancels)
      else View(f.book, r.side) == own && f.cancels == e.cancels
    ensures ProcessOrder(e, cid, r, placed).book.nextId == e.book.nextId
      + if r.orderType == Limit && Unfilled(e, r) > 0 && Fills(e, r).book.free != [] then 1 else 0
  {
    hide Inv; hide View; hide Match; hide AddOrder; hide BookFills; hide Insert; hide Total; hide FillTotal; hide Clean;
    hide SameRecords; hide OwnersOk; hide CancelMap.MakeKey;
    var m, b := Fills(e, r), BookAfterFills(e, r);
    MatchKeeps(e.book, r.side, Some(r.price), r.qty, FILL_BUFFER);
    AfterFillsKeeps(e, r);
    RefreshedFree(m.book);
    if m.left > 0 {
      AddRefines(b, cid, r.clientId, r.side, r.price, m.left);
      AddKeeps(b, cid, r.clientId, r.side, r.price, m.left);
      if b.free != [] {
        AddShape(b, cid, r.clientId, r.side, r.price, m.left);
      } else {
        AddFull(b, cid, r.clientId, r.side, r.price, m.left);
      }
    }
  }

  // With right caches the whole outcome is that of the sorted lists: the other
  // side loses what the order takes from its head, its own side gains the rest.
  lemma OrderOnLists(e: State, cid: nat, r: Request, placed: bool)
    requires EngineInv(e) && CachesOk(e.book) && Verdict(e, cid, r) == Accepted
    ensures var f := ProcessOrder(e, cid, r, placed);
      var t := Take(View(e.book, Opposite(r.side)), r.side, Some(r.price), r.qty, FILL_BUFFER);
      && View(f.book, Opposite(r.side)) == t.rest && Unfilled(e, r) == t.left
      && Named(e.book.pool, Fills(e, r).fills) == t.fills
      && Total(View(f.book, r.side)) ==
           Total(View(e.book, r.side)) + if r.orderType == Limit && HasPlace(e, r) then t.left else 0
  {
    hide Inv; hide View; hide Take; hide AddOrder; hide BookFills; hide Insert; hide CachesOk; hide OwnersOk;
    hide Fills; hide BookAfterFills; hide Total; hide HasPlace; hide FillTotal; hide Named;
    AfterFillsView(e, r);
    LeftOver(e, r);
    RestsExact(e, cid, r, placed);
    OtherSide(e, cid, r, placed);
    if r.orderType == Limit && Unfilled(e, r) > 0 && HasPlace(e, r) {
      InvSorted(e.book, r.side);
      PlacedTotal(e, cid, r);
    }
  }

  lemma PlacedTotal(e: State, cid: nat, r: Request)
    requires Inv(e.book) && HasPlace(e, r)
    ensures var own, s := View(e.book, r.side), Top(Fills(e, r).book);
      Total(Insert(r.side, own, Resting(Key(s, e.book.nextId, cid, r.clientId), r.price, Unfilled(e, r)))) ==
      Total(own) + Unfilled(e, r)
  {
    hide Inv; hide View; hide Insert; hide Total; hide Fills;
    InvSorted(e.book, r.side);
    var s := Top(Fills(e, r).book);
    InsertTotal(r.side, View(e.book, r.side),
      Resting(Key(s, e.book.nextId, cid, r.clientId), r.price, Unfilled(e, r)));
  }

  lemma LeftOver(e: State, r: Request)
    requires Inv(e.book) && r.qty > 0
    ensures Fills(e, r).left == Unfilled(e, r) >= 0
  {
    hide Inv; hide View; hide Match; hide Total; hide FillTotal; hide Clean; hide SameRecords;
    MatchKeeps(e.book, r.side, Some(r.price), r.qty, FILL_BUFFER);
  }

  lemma OtherSide(e: State, cid: nat, r: Request, placed: bool)
    requires EngineInv(e) && Verdict(e, cid, r) == Accepted
    ensures View(ProcessOrder(e, cid, r, placed).book, Opposite(r.side)) == View(BookAfterFills(e, r), Opposite(r.side))
  {
    hide Inv; hide View; hide Match; hide AddOrder; hide BookFills; hide SameRecords; hide OwnersOk; hide Fills;
    hide BookAfterFills;
    AfterFillsKeeps(e, r);
    if Fills(e, r).left > 0 {
      AddRefines(BookAfterFills(e, r), cid, r.clientId, r.side, r.price, Fills(e, r).left);
    }
  }
}
