/**
 The matching engine as values: a book, the contestants' accounts and the
 cancel lookup, with the engine's operations as functions.
 */
module Engine {
  import opened SortedBook
  import opened LevelBook
  import opened BookTheory
  import opened BookRefinement
  import opened Pnl
  import CancelMap

  const MAX_CONTESTANTS: nat := 64

  datatype Config = Config(maxPosition: int, maxOrderSize: int)

  datatype Request = Request(clientId: nat, side: Side, orderType: OrderType, price: int, qty: int)

  // `count` contestants are registered; `cancels` maps order keys to slots.
  datatype State = State(cfg: Config, count: nat, book: Book, accounts: seq<Account>, cancels: map<nat, nat>)

  datatype Ack = Ignored | RejectedSize | RejectedRisk | RejectedUnknown | Accepted | Cancelled

  // ----- Orders -----

  // Size and position checks of an order, before anything else happens.
  function Checked(cfg: Config, count: nat, accounts: seq<Account>, cid: nat, r: Request): (a: Ack) {
    if cid >= count || cid >= |accounts| then Ignored
    else if r.qty <= 0 || r.qty > cfg.maxOrderSize then RejectedSize
    else if r.side == Buy && accounts[cid].position + r.qty > cfg.maxPosition then RejectedRisk
    else if r.side == Sell && accounts[cid].position - r.qty < -cfg.maxPosition then RejectedRisk
    else Accepted
  }

  function Verdict(e: State, cid: nat, r: Request): (a: Ack) {
    Checked(e.cfg, e.count, e.accounts, cid, r)
  }

  function ApplyTo(accounts: seq<Account>, cid: nat, t: Trade): (r: seq<Account>) {
    if cid < |accounts| then accounts[cid := ApplyFill(accounts[cid], t)] else accounts
  }

  // Each fill is booked to its maker, then to the taker.  The makers' records
  // are read after the match, from slots it may already have freed.
  function BookFills(accounts: seq<Account>, pool: seq<Order>, taker: nat, side: Side,
                     fills: seq<Fill<nat>>): (r: seq<Account>)
    decreases |fills|
  {
    if fills == [] then accounts
    else
      var f := fills[0];
      var rest := if f.id < |pool|
        then ApplyTo(ApplyTo(accounts, pool[f.id].owner, Trade(pool[f.id].side, f.price, f.qty)), taker,
          Trade(side, f.price, f.qty))
        else accounts;
      BookFills(rest, pool, taker, side, fills[1..])
  }

  // The book after both best prices have been asked for.
  ghost function Refreshed(b: Book): (r: Book) {
    Queried(Queried(b, Buy), Sell)
  }

  ghost function Fills(e: State, r: Request): (m: Matched) {
    Match(e.book, r.side, Some(r.price), r.qty, FILL_BUFFER)
  }

  // Reporting a fill asks for both best prices.
  ghost function BookAfterFills(e: State, r: Request): (b: Book) {
    if Fills(e, r).fills == [] then Fills(e, r).book else Refreshed(Fills(e, r).book)
  }

  predicate Rests(r: Request, left: int) {
    left > 0 && r.orderType == Limit
  }

  // `placed` says whether a lookup of the order's key finds the order: the
  // table had room for it, and no older entry of the same key comes first.
  ghost function ProcessOrder(e: State, cid: nat, r: Request, placed: bool): (s: State) {
    if Verdict(e, cid, r) != Accepted then e
    else
      var m := Fills(e, r);
      var e1 := e.(book := BookAfterFills(e, r), accounts := BookFills(e.accounts, m.book.pool, cid, r.side, m.fills));
      if !Rests(r, m.left) then e1
      else
        var a := AddOrder(e1.book, cid, r.clientId, r.side, r.price, m.left);
        if a.slot.Some? && placed
        then e1.(book := a.book, cancels := e1.cancels[CancelMap.MakeKey(cid, r.clientId) := a.slot.value])
        else e1.(book := a.book)
  }

  // ----- Cancels and ticks -----

  // The slot a cancel request finds, if the request is honoured.
  ghost function CancelSlot(e: State, cid: nat, clientId: nat): (r: Option<nat>) {
    var key := CancelMap.MakeKey(cid, clientId);
    if key !in e.cancels then None
    else
      var s := e.cancels[key];
      if s >= |e.book.pool| || e.book.pool[s].owner != cid || e.book.pool[s].remaining <= 0 then None else Some(s)
  }

  // `next` is what a lookup of the key finds afterwards: nothing, unless the key
  // was inserted while it was still stored.
  ghost function ProcessCancel(e: State, cid: nat, clientId: nat, next: Option<nat>): (s: State)
    requires CancelSlot(e, cid, clientId).Some? ==> Live(e.book, CancelSlot(e, cid, clientId).value)
  {
    match CancelSlot(e, cid, clientId)
    case None => e
    case Some(s) =>
      e.(book := CancelOrder(e.book, s).0, cancels := Forgotten(e, CancelMap.MakeKey(cid, clientId), next))
  }

  function Forgotten(e: State, key: nat, next: Option<nat>): (m: map<nat, nat>) {
    if next.Some? && next.value < |e.book.pool| then e.cancels[key := next.value] else e.cancels - {key}
  }

  ghost function Tick(e: State): (s: State) {
    e.(book := Refreshed(e.book))
  }

  // ----- The engine's invariant -----

  // Orders belong to registered contestants, who have accounts.
  ghost predicate OwnersOk(e: State) {
    && e.count <= |e.accounts|
    && forall s | 0 <= s < |e.book.pool| && Live(e.book, s) :: e.book.pool[s].owner < e.count
  }

  ghost predicate EngineInv(e: State) {
    Inv(e.book) && OwnersOk(e) && forall k | k in e.cancels :: e.cancels[k] < |e.book.pool|
  }

  // ----- Runs -----

  datatype Op =
    | Submit(cid: nat, request: Request, placed: bool)
    | Cancel(cid: nat, clientId: nat, next: Option<nat>)
    | TickOp

  // A cancel must not reach a free slot that a failed add left with quantity.
  ghost predicate Allowed(e: State, op: Op) {
    op.Cancel? && CancelSlot(e, op.cid, op.clientId).Some? ==> Live(e.book, CancelSlot(e, op.cid, op.clientId).value)
  }

  ghost function Step(e: State, op: Op): (s: State)
    requires Allowed(e, op)
  {
    match op
    case Submit(cid, r, placed) => ProcessOrder(e, cid, r, placed)
    case Cancel(cid, clientId, next) => ProcessCancel(e, cid, clientId, next)
    case TickOp => Tick(e)
  }

  ghost predicate Runs(e: State, ops: seq<Op>)
    decreases |ops|
  {
    ops == [] || (Allowed(e, ops[0]) && Runs(Step(e, ops[0]), ops[1..]))
  }

  ghost function After(e: State, ops: seq<Op>): (s: State)
    requires Runs(e, ops)
    decreases |ops|
  {
    if ops == [] then e else After(Step(e, ops[0]), ops[1..])
  }
}
