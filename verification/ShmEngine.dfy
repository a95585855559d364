/**
 The shared-memory load test: a load generator sends one request at a time for
 each idle bot over one ring and an exchange echoes them over another.  The two
 threads interleave at every load, copy and publish of both rings.
 */
module ShmEngine {
  import opened SpscRing
  import opened RingIndex
  import opened Counting

  datatype Message = Message(bot: nat, seqNum: nat, tsc: nat)

  // What the load generator keeps of a bot.
  datatype Bot = Bot(waiting: bool, seqNum: nat, sendTsc: nat)

  // `hand` holds the request that the exchange has taken and not yet answered.
  datatype State = State(fleet: seq<Bot>, nextSeq: nat, sends: nat, recvs: nat, req: Ring<Message>, resp: Ring<Message>,
                         hand: seq<Message>, processed: nat)

  // ----- Steps -----

  datatype Op =
    // The load generator picks an idle bot, or looks for a response.
    | Send(i: nat, tsc: nat)
    | ReqIn(op: SpscRing.Op<Message>)
    | Recv
    | RespOut(op: SpscRing.Op<Message>)
    // The exchange looks for a request, or answers the one in hand.
    | Take
    | ReqOut(op: SpscRing.Op<Message>)
    | Answer
    | RespIn(op: SpscRing.Op<Message>)

  predicate PushStep(op: SpscRing.Op<Message>) {
    op.StartPush? || op.CopyIn? || op.PublishWrite?
  }

  predicate PopStep(op: SpscRing.Op<Message>) {
    op.StartPop? || op.CopyOut? || op.PublishRead?
  }

  predicate Shape(s: State) {
    SpscRing.Shape(s.req) && SpscRing.Shape(s.resp)
  }

  // Each thread does one thing at a time.
  predicate Enabled(s: State, op: Op) {
    match op
    case Send(i, tsc) => i < |s.fleet| && !s.fleet[i].waiting && s.req.producer.Ready? && s.resp.consumer.Waiting?
    case ReqIn(o) => PushStep(o) && SpscRing.Enabled(s.req, o)
    case Recv => s.req.producer.Ready? && s.resp.consumer.Waiting?
    case RespOut(o) => PopStep(o) && SpscRing.Enabled(s.resp, o)
    case Take => s.hand == [] && s.req.consumer.Waiting? && s.resp.producer.Ready?
    case ReqOut(o) => PopStep(o) && SpscRing.Enabled(s.req, o)
    case Answer => s.hand != [] && s.req.consumer.Waiting? && s.resp.producer.Ready?
    case RespIn(o) => PushStep(o) && SpscRing.Enabled(s.resp, o)
  }

  // A successful send marks the bot as waiting for the message.
  function Sent(fleet: seq<Bot>, m: Message): (r: seq<Bot>) {
    if m.bot < |fleet| then fleet[m.bot := Bot(true, m.seqNum, m.tsc)] else fleet
  }

  function Received(fleet: seq<Bot>, m: Message): (r: seq<Bot>) {
    if m.bot < |fleet| then fleet[m.bot := fleet[m.bot].(waiting := false)] else fleet
  }

  // Publishing an index and the bookkeeping that follows it in the same thread
  // are one step.  A push that found the ring full publishes nothing.
  function Step(s: State, op: Op): (r: State)
    requires Shape(s) && Enabled(s, op)
  {
    match op
    case Send(i, tsc) =>
      s.(nextSeq := s.nextSeq + 1, req := SpscRing.Step(s.req, LoadRead([Message(i, s.nextSeq, tsc)])))
    case ReqIn(o) =>
      var s1 := s.(req := SpscRing.Step(s.req, o));
      if o.PublishWrite? && s.req.producer.items != []
      then s1.(fleet := Sent(s.fleet, s.req.producer.items[0]), sends := s.sends + 1) else s1
    case Recv => s.(resp := SpscRing.Step(s.resp, LoadWrite(1)))
    case RespOut(o) =>
      var s1 := s.(resp := SpscRing.Step(s.resp, o));
      if o.PublishRead? && s.resp.consumer.got != []
      then s1.(fleet := Received(s.fleet, s.resp.consumer.got[0]), recvs := s.recvs + 1) else s1
    case Take => s.(req := SpscRing.Step(s.req, LoadWrite(1)))
    case ReqOut(o) =>
      var s1 := s.(req := SpscRing.Step(s.req, o));
      if o.PublishRead? then s1.(hand := s.req.consumer.got) else s1
    case Answer => s.(resp := SpscRing.Step(s.resp, LoadRead([s.hand[0]])))
    case RespIn(o) =>
      var s1 := s.(resp := SpscRing.Step(s.resp, o));
      if o.PublishWrite? && s.resp.producer.items != [] then s1.(hand := [], processed := s.processed + 1) else s1
  }

  ghost predicate IsInitial(s: State) {
    && SpscRing.IsInitial(s.req) && SpscRing.IsInitial(s.resp) && s.hand == [] && s.sends == s.recvs == 0
    && forall i | 0 <= i < |s.fleet| :: !s.fleet[i].waiting
  }

  // ----- Messages in flight -----

  ghost function Unreceived(r: Ring<Message>): (q: seq<Message>) {
    if r.readPos <= |r.pushed| then r.pushed[r.readPos..] else []
  }

  // Oldest first: responses, the request in the exchange's hand, requests.
  ghost function Flight(s: State): (q: seq<Message>) {
    Unreceived(s.resp) + s.hand + Unreceived(s.req)
  }

  // The message is the latest one of a waiting bot.
  ghost predicate Current(fleet: seq<Bot>, m: Message) {
    m.bot < |fleet| && fleet[m.bot] == Bot(true, m.seqNum, m.tsc)
  }

  ghost predicate Carries(q: seq<Message>, i: nat) {
    exists k | 0 <= k < |q| :: q[k].bot == i
  }

  // The waiting bots are exactly those with a message in flight, which is one
  // message each and their latest.
  ghost predicate FlightOk(fleet: seq<Bot>, q: seq<Message>) {
    && (forall k | 0 <= k < |q| :: Current(fleet, q[k]))
    && (forall k, m | 0 <= k < m < |q| :: q[k].bot != q[m].bot)
    && forall i | 0 <= i < |fleet| && fleet[i].waiting :: Carries(q, i)
  }

  lemma SentOk(fleet: seq<Bot>, q: seq<Message>, m: Message)
    requires FlightOk(fleet, q) && m.bot < |fleet| && !fleet[m.bot].waiting
    ensures FlightOk(Sent(fleet, m), q + [m])
  {
    var fleet', q' := Sent(fleet, m), q + [m];
    forall k | 0 <= k < |q|
      ensures Current(fleet', q'[k]) && q[k].bot != m.bot
    {
      assert Current(fleet, q[k]);
    }
    forall i | 0 <= i < |fleet'| && fleet'[i].waiting
      ensures Carries(q', i)
    {
      if i == m.bot {
        assert q'[|q|].bot == i;
      } else {
        var k :| 0 <= k < |q| && q[k].bot == i;
        assert q'[k].bot == i;
      }
    }
  }

  lemma ReceivedOk(fleet: seq<Bot>, q: seq<Message>)
    requires FlightOk(fleet, q) && q != []
    ensures FlightOk(Received(fleet, q[0]), q[1..])
  {
    var fleet', q' := Received(fleet, q[0]), q[1..];
    assert Current(fleet, q[0]);
    forall k | 0 <= k < |q'|
      ensures Current(fleet', q'[k])
    {
      assert q'[k] == q[k + 1] && Current(fleet, q[k + 1]);
    }
    forall i | 0 <= i < |fleet'| && fleet'[i].waiting
      ensures Carries(q', i)
    {
      assert Carries(q, i);
      var k :| 0 <= k < |q| && q[k].bot == i;
      assert q'[k - 1].bot == i;
    }
  }

  ghost function Bots(q: seq<Message>): (r: seq<nat>)
    ensures |r| == |q| && forall k | 0 <= k < |q| :: r[k] == q[k].bot
  {
    seq(|q|, k requires 0 <= k < |q| => q[k].bot)
  }

  // At most one message per bot, and none for an idle one.
  lemma FlightBound(fleet: seq<Bot>, q: seq<Message>)
    requires FlightOk(fleet, q)
    ensures |q| <= |fleet|
    ensures (exists i | 0 <= i < |fleet| :: !fleet[i].waiting) ==> |q| < |fleet|
  {
    forall k | 0 <= k < |q|
      ensures q[k].bot < |fleet|
    {
      assert Current(fleet, q[k]);
    }
    DistinctBound(Bots(q), |fleet|);
    if i :| 0 <= i < |fleet| && !fleet[i].waiting {
      forall k | 0 <= k < |q|
        ensures q[k].bot != i
      {
        assert Current(fleet, q[k]);
      }
      DistinctBound(Bots(q) + [i], |fleet|);
    }
  }

  // ----- The invariant -----

  // The message that the load generator is pushing.
  ghost function Outgoing(s: State): (xs: seq<Message>) {
    if s.req.producer.Loaded? || s.req.producer.Copying? then s.req.producer.items else []
  }

  // It is for an idle bot.
  ghost predicate OutgoingOk(s: State) {
    && |Outgoing(s)| <= 1
    && forall k | 0 <= k < |Outgoing(s)| :: Outgoing(s)[k].bot < |s.fleet| && !s.fleet[Outgoing(s)[k].bot].waiting
  }

  // The threads follow their code.
  ghost predicate ControlOk(s: State) {
    && (s.req.producer.Loaded? ==> |s.req.producer.items| == 1)
    && (!s.req.producer.Ready? ==> s.resp.consumer.Waiting?)
    && (s.req.consumer.Looked? ==> s.req.consumer.max == 1) && (s.req.consumer.Reading? ==> s.req.consumer.want <= 1)
    && (s.resp.consumer.Looked? ==> s.resp.consumer.max == 1)
    && (s.resp.consumer.Reading? ==> s.resp.consumer.want <= 1)
    && |s.hand| <= 1 && (!s.req.consumer.Waiting? ==> s.hand == [] && s.resp.producer.Ready?)
    && (s.resp.producer.Loaded? ==> |s.hand| == 1 && s.resp.producer.items == s.hand)
    && (s.resp.producer.Copying? ==> |s.hand| == 1 && s.resp.producer.items <= s.hand)
  }

  ghost predicate Inv(s: State) {
    && SpscRing.Inv(s.req) && SpscRing.Inv(s.resp) && ControlOk(s) && OutgoingOk(s)
    && FlightOk(s.fleet, Flight(s)) && s.sends - s.recvs == |Flight(s)|
  }

  lemma InitialInv(s: State)
    requires IsInitial(s)
    ensures Inv(s)
  {
    SpscRing.InitialInv(s.req);
    SpscRing.InitialInv(s.resp);
  }

  // ----- Each step keeps it -----

  predicate Publishes(op: SpscRing.Op<Message>) {
    op.PublishWrite? || op.PublishRead?
  }

  // Only publishing changes what is under way in a ring.
  lemma QuietStep(r: Ring<Message>, op: SpscRing.Op<Message>)
    requires SpscRing.Inv(r) && SpscRing.Enabled(r, op) && !Publishes(op)
    ensures var r' := SpscRing.Step(r, op);
      && SpscRing.Inv(r') && Unreceived(r') == Unreceived(r) && r'.cap == r.cap
      && r'.writePos == r.writePos && r'.readPos == r.readPos
      && (op.LoadRead? || op.StartPush? || op.CopyIn? ==> r'.consumer == r.consumer)
      && (op.LoadWrite? || op.StartPop? || op.CopyOut? ==> r'.producer == r.producer)
      && (op.LoadRead? ==> r'.producer == Loaded(op.items, r.readPos))
      && (op.StartPush? ==> r'.producer == Copying(r.producer.items[..Fits(r, r.producer.seen, |r.producer.items|)], 0))
      && (op.CopyIn? ==> r'.producer == Copying(r.producer.items, r.producer.done + 1))
      && (op.LoadWrite? ==> r'.consumer == Looked(op.max, r.writePos))
      && (op.StartPop? ==> r'.consumer.Reading? && r'.consumer.want <= r.consumer.max)
      && (op.CopyOut? ==> r'.consumer.Reading? && r'.consumer.want == r.consumer.want)
  {
    hide SpscRing.Inv;
    SpscRing.StepInv(r, op);
    RingShape(r);
  }

  lemma RingShape(r: Ring<Message>)
    requires SpscRing.Inv(r)
    ensures SpscRing.Shape(r) && r.readPos <= r.writePos == |r.pushed|
  {
  }

  lemma LoadsInv(s: State, op: Op)
    requires Inv(s) && Enabled(s, op) && (op.Send? || op.Recv? || op.Take? || op.Answer?)
    ensures Inv(Step(s, op))
  {
    hide SpscRing.Inv; hide SpscRing.Step; hide FlightOk; hide Unreceived;
    RingShape(s.req);
    RingShape(s.resp);
    match op
    case Send(i, tsc) => QuietStep(s.req, LoadRead([Message(i, s.nextSeq, tsc)]));
    case Recv => QuietStep(s.resp, LoadWrite(1));
    case Take => QuietStep(s.req, LoadWrite(1));
    case Answer =>
      QuietStep(s.resp, LoadRead([s.hand[0]]));
      assert [s.hand[0]] == s.hand;
  }

  lemma QuietInv(s: State, op: Op)
    requires Inv(s) && Enabled(s, op) && (op.ReqIn? || op.RespOut? || op.ReqOut? || op.RespIn?) && !Publishes(op.op)
    ensures Inv(Step(s, op))
  {
    hide SpscRing.Inv; hide SpscRing.Step; hide FlightOk; hide Unreceived; hide Fits;
    RingShape(s.req);
    RingShape(s.resp);
    QuietStep(if op.ReqIn? || op.ReqOut? then s.req else s.resp, op.op);
  }

  // A push that found room puts its message at the end of what is under way.
  lemma PublishedWrite(r: Ring<Message>)
    requires SpscRing.Inv(r) && SpscRing.Enabled(r, PublishWrite)
    ensures var r' := SpscRing.Step(r, PublishWrite);
      && SpscRing.Inv(r') && Unreceived(r') == Unreceived(r) + r.producer.items && r'.producer == Ready
      && r'.consumer == r.consumer && r'.cap == r.cap
  {
    hide SpscRing.Inv;
    SpscRing.StepInv(r, PublishWrite);
    RingShape(r);
  }

  // A pop takes its messages from the front.
  lemma PublishedRead(r: Ring<Message>)
    requires SpscRing.Inv(r) && SpscRing.Enabled(r, PublishRead)
    ensures var r' := SpscRing.Step(r, PublishRead);
      && SpscRing.Inv(r') && Unreceived(r) == r.consumer.got + Unreceived(r') && r'.consumer == Waiting
      && r'.producer == r.producer && r'.cap == r.cap
  {
    hide Slot; hide Unread; hide ProducerOk;
    var r' := SpscRing.Step(r, PublishRead);
    SpscRing.PublishReadInv(r);
    assert r.pushed[r.readPos..] ==
      r.pushed[r.readPos..r.readPos + r.consumer.want] + r.pushed[r.readPos + r.consumer.want..];
  }

  lemma RequestSent(s: State)
    requires Inv(s) && Enabled(s, ReqIn(PublishWrite))
    ensures Inv(Step(s, ReqIn(PublishWrite)))
  {
    hide SpscRing.Inv; hide SpscRing.Step; hide FlightOk; hide Unreceived; hide Sent;
    RingShape(s.req);
    RingShape(s.resp);
    PublishedWrite(s.req);
    var s', xs := Step(s, ReqIn(PublishWrite)), s.req.producer.items;
    assert Flight(s') == Flight(s) + xs;
    if xs != [] {
      assert xs == [xs[0]] && Outgoing(s)[0] == xs[0];
      SentOk(s.fleet, Flight(s), xs[0]);
    } else {
      assert Flight(s') == Flight(s);
    }
  }

  lemma ResponseReceived(s: State)
    requires Inv(s) && Enabled(s, RespOut(PublishRead))
    ensures Inv(Step(s, RespOut(PublishRead)))
  {
    hide SpscRing.Inv; hide SpscRing.Step; hide FlightOk; hide Unreceived; hide Received;
    RingShape(s.req);
    RingShape(s.resp);
    PublishedRead(s.resp);
    var s', xs := Step(s, RespOut(PublishRead)), s.resp.consumer.got;
    assert Flight(s) == xs + Flight(s');
    if xs != [] {
      assert xs == [xs[0]] && Flight(s)[0] == xs[0] && Flight(s)[1..] == Flight(s');
      ReceivedOk(s.fleet, Flight(s));
    } else {
      assert Flight(s') == Flight(s);
    }
  }

  lemma RequestTaken(s: State)
    requires Inv(s) && Enabled(s, ReqOut(PublishRead))
    ensures Inv(Step(s, ReqOut(PublishRead)))
  {
    hide SpscRing.Inv; hide SpscRing.Step; hide FlightOk; hide Unreceived;
    RingShape(s.req);
    RingShape(s.resp);
    PublishedRead(s.req);
    var s' := Step(s, ReqOut(PublishRead));
    assert Flight(s') == Flight(s);
  }

  lemma ResponseSent(s: State)
    requires Inv(s) && Enabled(s, RespIn(PublishWrite))
    ensures Inv(Step(s, RespIn(PublishWrite)))
  {
    hide SpscRing.Inv; hide SpscRing.Step; hide FlightOk; hide Unreceived;
    RingShape(s.req);
    RingShape(s.resp);
    PublishedWrite(s.resp);
    var s', xs := Step(s, RespIn(PublishWrite)), s.resp.producer.items;
    if xs != [] {
      assert xs == s.hand;
    }
    assert Flight(s') == Flight(s);
  }

  lemma StepInv(s: State, op: Op)
    requires Inv(s) && Enabled(s, op)
    ensures Shape(s) && Inv(Step(s, op))
  {
    hide Step; hide Inv; hide SpscRing.Enabled;
    InvShape(s);
    if op.Send? || op.Recv? || op.Take? || op.Answer? {
      LoadsInv(s, op);
    } else if !Publishes(op.op) {
      QuietInv(s, op);
    } else if op.ReqIn? {
      RequestSent(s);
    } else if op.RespOut? {
      ResponseReceived(s);
    } else if op.ReqOut? {
      RequestTaken(s);
    } else {
      ResponseSent(s);
    }
  }

  lemma InvShape(s: State)
    requires Inv(s)
    ensures Shape(s)
  {
  }

  // ----- No push fails -----

  // The room seen by a push under way.
  ghost predicate Roomy(r: Ring<Message>) {
    && (r.producer.Loaded? ==> r.producer.seen <= r.writePos < r.producer.seen + r.cap && |r.producer.items| == 1)
    && (r.producer.Copying? ==> |r.producer.items| == 1)
  }

  // No more bots than either ring has slots.
  ghost predicate FewBots(s: State) {
    |s.fleet| <= s.req.cap && |s.fleet| <= s.resp.cap
  }

  ghost predicate NeverFull(s: State) {
    FewBots(s) && Roomy(s.req) && Roomy(s.resp)
  }

  lemma RingSizes(s: State)
    requires Inv(s)
    ensures s.req.writePos - s.req.readPos == |Unreceived(s.req)|
      && s.resp.writePos - s.resp.readPos == |Unreceived(s.resp)|
  {
    RingShape(s.req);
    RingShape(s.resp);
  }

  // A new push starts with room: its bot is idle, or its message is in hand.
  lemma LoadsRoom(s: State, op: Op)
    requires Inv(s) && Enabled(s, op) && NeverFull(s) && (op.Send? || op.Recv? || op.Take? || op.Answer?)
    ensures NeverFull(Step(s, op))
  {
    hide FlightOk; hide OutgoingOk; hide Unreceived; hide SpscRing.Inv; hide ControlOk;
    RingSizes(s);
    FlightBound(s.fleet, Flight(s));
    RingShape(s.req);
    RingShape(s.resp);
  }

  lemma OtherRoom(s: State, op: Op)
    requires Inv(s) && Enabled(s, op) && NeverFull(s) && (op.ReqIn? || op.RespOut? || op.ReqOut? || op.RespIn?)
    ensures NeverFull(Step(s, op))
  {
    hide FlightOk; hide OutgoingOk; hide Flight; hide SpscRing.Inv; hide ControlOk; hide SpscRing.Step;
    RingShape(s.req);
    RingShape(s.resp);
    var r := if op.ReqIn? || op.ReqOut? then s.req else s.resp;
    RingRoom(r, op.op);
  }

  lemma RingRoom(r: Ring<Message>, op: SpscRing.Op<Message>)
    requires SpscRing.Shape(r) && SpscRing.Enabled(r, op) && Roomy(r) && !op.LoadRead?
    ensures Roomy(SpscRing.Step(r, op)) && SpscRing.Step(r, op).cap == r.cap
  {
  }

  lemma StepRoom(s: State, op: Op)
    requires Inv(s) && Enabled(s, op) && NeverFull(s)
    ensures Shape(s) && NeverFull(Step(s, op))
  {
    hide Inv; hide Enabled; hide Step; hide NeverFull;
    InvShape(s);
    if op.Send? || op.Recv? || op.Take? || op.Answer? {
      LoadsRoom(s, op);
    } else {
      OtherRoom(s, op);
    }
  }

  // A push of the code never finds its ring full.
  lemma PushFinds(r: Ring<Message>)
    requires SpscRing.Shape(r) && Roomy(r) && SpscRing.Enabled(r, StartPush)
    ensures SpscRing.Step(r, StartPush).producer == Copying(r.producer.items, 0) && |r.producer.items| == 1
  {
  }

  // ----- Runs -----

  ghost predicate Runs(s: State, ops: seq<Op>)
    decreases |ops|
  {
    ops == [] || (Shape(s) && Enabled(s, ops[0]) && Runs(Step(s, ops[0]), ops[1..]))
  }

  ghost function After(s: State, ops: seq<Op>): (r: State)
    requires Runs(s, ops)
    decreases |ops|
  {
    if ops == [] then s else After(Step(s, ops[0]), ops[1..])
  }

  lemma {:induction false} RunInv(s: State, ops: seq<Op>)
    requires Inv(s) && Runs(s, ops)
    ensures Inv(After(s, ops)) && (NeverFull(s) ==> NeverFull(After(s, ops)))
    decreases |ops|
  {
    hide Inv; hide Step; hide Enabled; hide NeverFull;
    if ops != [] {
      StepInv(s, ops[0]);
      if NeverFull(s) {
        StepRoom(s, ops[0]);
      }
      RunInv(Step(s, ops[0]), ops[1..]);
    }
  }

  // In every interleaving the waiting bots are exactly those with one message
  // under way, which carries their latest number and send time; sends less
  // receives is the number of messages under way; and with no more bots than
  // slots every push under way has room.
  lemma InFlight(s: State, ops: seq<Op>)
    requires IsInitial(s) && Runs(s, ops)
    ensures var e := After(s, ops);
      && FlightOk(e.fleet, Flight(e)) && e.sends - e.recvs == |Flight(e)|
      && (FewBots(s) ==> Roomy(e.req) && Roomy(e.resp))
  {
    hide Runs; hide After; hide FlightOk; hide Flight;
    InitialInv(s);
    RunInv(s, ops);
  }
}
