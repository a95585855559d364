/**
 What a cancel request removes: the order it names, as long as keys are not
 reused.
 */
module EngineCancels {
  import opened SortedBook
  import opened LevelBook
  import opened BookTheory
  import opened BookRefinement
  import opened Engine
  import opened EngineTheory
  import CancelMap

  function KeyAt(pool: seq<Order>, s: nat): (k: nat)
    requires s < |pool|
  {
    CancelMap.MakeKey(pool[s].owner, pool[s].clientId)
  }

  // A resting order whose key is stored is found under it, and no two resting
  // orders share a key.
  ghost predicate Tracked(e: State) {
    && (forall s | 0 <= s < |e.book.pool| && Live(e.book, s) ::
          KeyAt(e.book.pool, s) in e.cancels ==> e.cancels[KeyAt(e.book.pool, s)] == s)
    && (forall s, t | 0 <= s < |e.book.pool| && 0 <= t < |e.book.pool| && Live(e.book, s) && Live(e.book, t) ::
          KeyAt(e.book.pool, s) == KeyAt(e.book.pool, t) ==> s == t)
  }

  // An order brings a key that is neither stored nor resting; a cancelled key,
  // stored once, is forgotten.
  ghost predicate NewKey(e: State, op: Op) {
    (op.Cancel? ==> op.next == None) && (op.Submit? ==>
      var k := CancelMap.MakeKey(op.cid, op.request.clientId);
      k !in e.cancels && forall s | 0 <= s < |e.book.pool| && Live(e.book, s) :: KeyAt(e.book.pool, s) != k)
  }

  lemma SameKeys(pool: seq<Order>, pool': seq<Order>)
    requires SameRecords(pool, pool')
    ensures |pool'| == |pool| && forall s | 0 <= s < |pool| :: KeyAt(pool', s) == KeyAt(pool, s)
  {
  }

  lemma FilledTracked(e: State, cid: nat, r: Request)
    requires EngineInv(e) && Tracked(e) && NewKey(e, Submit(cid, r, true))
    ensures var f := Filled(e, cid, r); EngineInv(f) && Tracked(f) && NewKey(f, Submit(cid, r, true))
  {
    hide Inv; hide View; hide SameRecords; hide BookAfterFills; hide Live; hide BookFills; hide KeyAt;
    hide CancelMap.MakeKey;
    FilledInv(e, cid, r);
    AfterFillsKeeps(e, r);
    var b, b' := e.book, BookAfterFills(e, r);
    SameKeys(b.pool, b'.pool);
    forall s | 0 <= s < |b'.pool| && Live(b', s)
      ensures Live(b, s)
    {
      LiveBefore(b, b', s);
    }
  }

  lemma AddTracked(e: State, cid: nat, r: Request, qty: int, placed: bool)
    requires EngineInv(e) && Tracked(e) && NewKey(e, Submit(cid, r, true)) && qty > 0
    ensures var a := AddOrder(e.book, cid, r.clientId, r.side, r.price, qty);
      var k := CancelMap.MakeKey(cid, r.clientId);
      Tracked(if a.slot.Some? && placed then e.(book := a.book, cancels := e.cancels[k := a.slot.value])
        else e.(book := a.book))
  {
    hide Inv; hide Live; hide AddOrder; hide CancelMap.MakeKey;
    var b := e.book;
    if b.free == [] {
      AddFull(b, cid, r.clientId, r.side, r.price, qty);
    } else {
      AddShape(b, cid, r.clientId, r.side, r.price, qty);
      AddLive(b, cid, r.clientId, r.side, r.price, qty);
    }
  }

  lemma OrderTracked(e: State, cid: nat, r: Request, placed: bool)
    requires EngineInv(e) && Tracked(e) && NewKey(e, Submit(cid, r, placed))
    ensures Tracked(ProcessOrder(e, cid, r, placed))
  {
    hide EngineInv; hide Tracked; hide AddOrder; hide BookFills; hide BookAfterFills; hide Fills;
    if Verdict(e, cid, r) == Accepted {
      FilledTracked(e, cid, r);
      if Rests(r, Fills(e, r).left) {
        AddTracked(Filled(e, cid, r), cid, r, Fills(e, r).left, placed);
      }
    }
  }

  lemma CancelTracked(e: State, cid: nat, clientId: nat, next: Option<nat>)
    requires EngineInv(e) && Tracked(e) && Allowed(e, Cancel(cid, clientId, next)) && next == None
    ensures Tracked(ProcessCancel(e, cid, clientId, next))
  {
    hide Inv; hide Live; hide CancelOrder; hide CancelMap.MakeKey;
    var c := CancelSlot(e, cid, clientId);
    if c.Some? {
      CancelKeeps(e.book, c.value);
      CancelLive(e.book, c.value);
    }
  }

  lemma StepTracked(e: State, op: Op)
    requires EngineInv(e) && Tracked(e) && Allowed(e, op) && NewKey(e, op)
    ensures Tracked(Step(e, op))
  {
    hide Inv; hide View; hide ProcessOrder; hide ProcessCancel; hide KeyAt; hide Refreshed;
    match op
    case Submit(cid, r, placed) => OrderTracked(e, cid, r, placed);
    case Cancel(cid, clientId, next) => CancelTracked(e, cid, clientId, next);
    case TickOp =>
      RefreshedKeeps(e.book);
      assert forall s: nat :: Live(Refreshed(e.book), s) <==> Live(e.book, s);
  }

  ghost predicate NewKeys(e: State, ops: seq<Op>)
    decreases |ops|
  {
    ops == [] || (NewKey(e, ops[0]) && (Allowed(e, ops[0]) ==> NewKeys(Step(e, ops[0]), ops[1..])))
  }

  lemma {:induction false} StaysTracked(e: State, ops: seq<Op>)
    requires EngineInv(e) && Tracked(e) && Runs(e, ops) && NewKeys(e, ops)
    ensures Tracked(After(e, ops))
    decreases |ops|
  {
    hide EngineInv; hide Tracked; hide Step; hide NewKey;
    if ops != [] {
      StepInv(e, ops[0]);
      StepTracked(e, ops[0]);
      StaysTracked(Step(e, ops[0]), ops[1..]);
    }
  }

  // An engine that has stored nothing and has no resting order tracks them all.
  lemma InitialTracked(e: State)
    requires IsInitial(e)
    ensures Tracked(e)
  {
    assert forall s: nat :: !Live(e.book, s);
  }

  // From the start, in every run of new keys that never needs a level when none
  // is left, every resting order whose key is stored is found under it.
  lemma RunTracked(e: State, ops: seq<Op>)
    requires IsInitial(e) && NeverShort(e, ops) && NewKeys(e, ops)
    ensures Runs(e, ops) && EngineInv(After(e, ops)) && Tracked(After(e, ops))
  {
    hide EngineInv; hide Tracked; hide IsInitial; hide NeverShort; hide NewKeys; hide Runs; hide After; hide Clean;
    RunsClean(e, ops);
    InitialEngine(e);
    InitialTracked(e);
    RunInv(e, ops);
    StaysTracked(e, ops);
  }

  // A contestant's cancel of its own resting order, stored under its key, takes
  // exactly that order off the book.
  lemma CancelRemoves(e: State, s: nat) returns (k: nat)
    requires EngineInv(e) && Tracked(e) && Live(e.book, s) && KeyAt(e.book.pool, s) in e.cancels
    ensures var o := e.book.pool[s];
      && Allowed(e, Cancel(o.owner, o.clientId, None))
      && var e' := ProcessCancel(e, o.owner, o.clientId, None);
        && k < |View(e.book, o.side)| && View(e.book, o.side)[k] == Entry(e.book.pool, s)
        && View(e'.book, o.side) == RemoveAt(View(e.book, o.side), k)
        && View(e'.book, Opposite(o.side)) == View(e.book, Opposite(o.side))
        && e'.accounts == e.accounts && e'.cancels == e.cancels - {KeyAt(e.book.pool, s)}
  {
    hide Inv; hide Live; hide CancelOrder; hide View; hide CancelMap.MakeKey;
    LiveInPool(e.book, s);
    LiveRemaining(e.book, s);
    var o := e.book.pool[s];
    assert CancelSlot(e, o.owner, o.clientId) == Some(s);
    k := CancelRefines(e.book, s);
  }

  // An honoured cancel only ever hits the requester's own order; it is the order
  // asked for exactly if that order still rests.
  lemma CancelHits(e: State, cid: nat, clientId: nat, next: Option<nat>)
    requires EngineInv(e) && Tracked(e) && Allowed(e, Cancel(cid, clientId, next)) && CancelSlot(e, cid, clientId).Some?
    ensures var s := CancelSlot(e, cid, clientId).value;
      && Live(e.book, s) && s < |e.book.pool| && e.book.pool[s].owner == cid
      && (e.book.pool[s].clientId == clientId <==>
            exists t | 0 <= t < |e.book.pool| && Live(e.book, t) ::
              KeyAt(e.book.pool, t) == CancelMap.MakeKey(cid, clientId))
  {
    hide Inv; hide Live;
    var s := CancelSlot(e, cid, clientId).value;
    LiveInPool(e.book, s);
  }
}
