/**
 The order of the messages under way: in every interleaving their numbers rise
 from the oldest response to the newest request, so answers come back in the
 order of sending.
 */
module ShmOrder {
  import SpscRing
  import opened ShmEngine

  ghost predicate Rising(q: seq<Message>) {
    forall j, k | 0 <= j < k < |q| :: q[j].seqNum < q[k].seqNum
  }

  ghost predicate Issued(q: seq<Message>, next: nat) {
    forall k | 0 <= k < |q| :: q[k].seqNum < next
  }

  // The messages under way and the one being sent.
  ghost function Line(s: State): (q: seq<Message>) {
    Flight(s) + Outgoing(s)
  }

  ghost predicate InLine(s: State) {
    && Rising(Line(s)) && Issued(Line(s), s.nextSeq)
    && s.processed == s.recvs + |Unreceived(s.resp)|
  }

  // Dropping messages at either end keeps the line in order.
  lemma Shorter(q: seq<Message>, q': seq<Message>, next: nat)
    requires Rising(q) && Issued(q, next)
    requires q' <= q || (|q'| <= |q| && q' == q[|q| - |q'|..])
    ensures Rising(q') && Issued(q', next)
  {
    if q' <= q {
      assert forall k | 0 <= k < |q'| :: q'[k] == q[k];
    } else {
      var d := |q| - |q'|;
      assert forall k | 0 <= k < |q'| :: q'[k] == q[k + d];
    }
  }

  // A message with the next number goes to the end.
  lemma Longer(q: seq<Message>, m: Message, next: nat)
    requires Rising(q) && Issued(q, next) && m.seqNum == next
    ensures Rising(q + [m]) && Issued(q + [m], next + 1)
  {
  }

  lemma LoadsLine(s: State, op: Op)
    requires Inv(s) && InLine(s) && Enabled(s, op) && (op.Send? || op.Recv? || op.Take? || op.Answer?)
    ensures Shape(s) && InLine(Step(s, op))
  {
    hide SpscRing.Inv; hide SpscRing.Step; hide FlightOk; hide Unreceived; hide Rising; hide Issued; hide OutgoingOk;
    RingShape(s.req);
    RingShape(s.resp);
    match op
    case Send(i, tsc) =>
      QuietStep(s.req, SpscRing.LoadRead([Message(i, s.nextSeq, tsc)]));
      assert Line(s) == Flight(s);
      Longer(Line(s), Message(i, s.nextSeq, tsc), s.nextSeq);
    case Recv => QuietStep(s.resp, SpscRing.LoadWrite(1));
    case Take => QuietStep(s.req, SpscRing.LoadWrite(1));
    case Answer => QuietStep(s.resp, SpscRing.LoadRead([s.hand[0]]));
  }

  lemma QuietLine(s: State, op: Op)
    requires Inv(s) && InLine(s) && Enabled(s, op) && (op.ReqIn? || op.RespOut? || op.ReqOut? || op.RespIn?)
    requires !Publishes(op.op)
    ensures Shape(s) && InLine(Step(s, op))
  {
    hide SpscRing.Inv; hide SpscRing.Step; hide FlightOk; hide Unreceived; hide SpscRing.Fits; hide Rising; hide Issued;
    hide OutgoingOk;
    RingShape(s.req);
    RingShape(s.resp);
    QuietStep(if op.ReqIn? || op.ReqOut? then s.req else s.resp, op.op);
    var s' := Step(s, op);
    assert Flight(s') == Flight(s) && Outgoing(s') <= Outgoing(s);
    assert Line(s') <= Line(s);
    Shorter(Line(s), Line(s'), s.nextSeq);
  }

  lemma SentLine(s: State)
    requires Inv(s) && InLine(s) && Enabled(s, ReqIn(SpscRing.PublishWrite))
    ensures Shape(s) && InLine(Step(s, ReqIn(SpscRing.PublishWrite)))
  {
    hide SpscRing.Inv; hide SpscRing.Step; hide FlightOk; hide Unreceived; hide Rising; hide Issued; hide OutgoingOk;
    hide Sent;
    RingShape(s.req);
    RingShape(s.resp);
    PublishedWrite(s.req);
    var s' := Step(s, ReqIn(SpscRing.PublishWrite));
    assert Line(s') == Line(s);
  }

  lemma ReceivedLine(s: State)
    requires Inv(s) && InLine(s) && Enabled(s, RespOut(SpscRing.PublishRead))
    ensures Shape(s) && InLine(Step(s, RespOut(SpscRing.PublishRead)))
  {
    hide SpscRing.Inv; hide SpscRing.Step; hide FlightOk; hide Unreceived; hide Rising; hide Issued; hide OutgoingOk;
    hide Received;
    RingShape(s.req);
    RingShape(s.resp);
    PublishedRead(s.resp);
    var s', got := Step(s, RespOut(SpscRing.PublishRead)), s.resp.consumer.got;
    assert Line(s) == got + Line(s');
    Shorter(Line(s), Line(s'), s.nextSeq);
  }

  lemma TakenLine(s: State)
    requires Inv(s) && InLine(s) && Enabled(s, ReqOut(SpscRing.PublishRead))
    ensures Shape(s) && InLine(Step(s, ReqOut(SpscRing.PublishRead)))
  {
    hide SpscRing.Inv; hide SpscRing.Step; hide FlightOk; hide Unreceived; hide Rising; hide Issued; hide OutgoingOk;
    RingShape(s.req);
    RingShape(s.resp);
    PublishedRead(s.req);
    var s' := Step(s, ReqOut(SpscRing.PublishRead));
    assert Line(s') == Line(s);
  }

  lemma AnsweredLine(s: State)
    requires Inv(s) && InLine(s) && Enabled(s, RespIn(SpscRing.PublishWrite))
    ensures Shape(s) && InLine(Step(s, RespIn(SpscRing.PublishWrite)))
  {
    hide SpscRing.Inv; hide SpscRing.Step; hide FlightOk; hide Unreceived; hide Rising; hide Issued; hide OutgoingOk;
    RingShape(s.req);
    RingShape(s.resp);
    PublishedWrite(s.resp);
    var s', xs := Step(s, RespIn(SpscRing.PublishWrite)), s.resp.producer.items;
    if xs != [] {
      assert xs == s.hand;
    }
    assert Line(s') == Line(s);
  }

  lemma StepLine(s: State, op: Op)
    requires Inv(s) && InLine(s) && Enabled(s, op)
    ensures Shape(s) && InLine(Step(s, op))
  {
    hide Inv; hide InLine; hide Step; hide SpscRing.Enabled;
    if op.Send? || op.Recv? || op.Take? || op.Answer? {
      LoadsLine(s, op);
    } else if !Publishes(op.op) {
      QuietLine(s, op);
    } else if op.ReqIn? {
      SentLine(s);
    } else if op.RespOut? {
      ReceivedLine(s);
    } else if op.ReqOut? {
      TakenLine(s);
    } else {
      AnsweredLine(s);
    }
  }

  lemma {:induction false} RunLine(s: State, ops: seq<Op>)
    requires Inv(s) && InLine(s) && Runs(s, ops)
    ensures InLine(After(s, ops))
    decreases |ops|
  {
    hide Inv; hide Step; hide Enabled; hide InLine;
    if ops != [] {
      StepInv(s, ops[0]);
      StepLine(s, ops[0]);
      RunLine(Step(s, ops[0]), ops[1..]);
    }
  }

  // In every interleaving from the start the messages under way carry rising
  // numbers below the next one, oldest first, and every request processed has
  // been received or waits in the response ring.
  lemma AnswersInOrder(s: State, ops: seq<Op>)
    requires IsInitial(s) && s.processed == 0 && Runs(s, ops)
    ensures var e := After(s, ops);
      && Rising(Flight(e)) && Issued(Flight(e), e.nextSeq)
      && e.processed == e.recvs + |Unreceived(e.resp)|
  {
    hide Runs; hide After; hide Rising; hide Issued; hide Inv;
    InitialInv(s);
    StartLine(s);
    RunLine(s, ops);
    var e := After(s, ops);
    assert Flight(e) <= Line(e);
    Shorter(Line(e), Flight(e), e.nextSeq);
  }

  lemma StartLine(s: State)
    requires IsInitial(s) && s.processed == 0
    ensures InLine(s)
  {
  }

  // ----- What a bot remembers -----

  // The last message sent for bot i.
  function LastFor(q: seq<Message>, i: nat): (m: seq<Message>)
    ensures |m| <= 1
  {
    if q == [] then []
    else if q[|q| - 1].bot == i then [q[|q| - 1]]
    else LastFor(q[..|q| - 1], i)
  }

  // Number and send time of a bot are those of its last request.
  ghost predicate Remembers(s: State) {
    forall i | 0 <= i < |s.fleet| && LastFor(s.req.pushed, i) != [] ::
      var m := LastFor(s.req.pushed, i)[0]; s.fleet[i].seqNum == m.seqNum && s.fleet[i].sendTsc == m.tsc
  }

  lemma LastSent(q: seq<Message>, m: Message, i: nat)
    ensures LastFor(q + [m], i) == if m.bot == i then [m] else LastFor(q, i)
  {
    assert (q + [m])[..|q|] == q;
  }

  lemma StepRemembers(s: State, op: Op)
    requires Inv(s) && Remembers(s) && Enabled(s, op)
    ensures Shape(s) && Remembers(Step(s, op))
  {
    hide SpscRing.Inv; hide FlightOk; hide Flight; hide ControlOk; hide LastFor;
    RingShape(s.req);
    RingShape(s.resp);
    if op == ReqIn(SpscRing.PublishWrite) {
      var xs := s.req.producer.items;
      assert Outgoing(s) == xs;
      if xs == [] {
        assert s.req.pushed + xs == s.req.pushed;
      } else {
        assert xs == [xs[0]];
        forall i | 0 <= i < |s.fleet|
          ensures LastFor(s.req.pushed + xs, i) == if xs[0].bot == i then [xs[0]] else LastFor(s.req.pushed, i)
        {
          LastSent(s.req.pushed, xs[0], i);
        }
      }
    }
  }

  lemma {:induction false} RunRemembers(s: State, ops: seq<Op>)
    requires Inv(s) && Remembers(s) && Runs(s, ops)
    ensures Remembers(After(s, ops))
    decreases |ops|
  {
    hide Inv; hide Step; hide Enabled; hide Remembers;
    if ops != [] {
      StepInv(s, ops[0]);
      StepRemembers(s, ops[0]);
      RunRemembers(Step(s, ops[0]), ops[1..]);
    }
  }

  // In every interleaving each bot keeps the number and the send time of its
  // last request, also after the answer.
  lemma BotsRemember(s: State, ops: seq<Op>, i: nat)
    requires IsInitial(s) && Runs(s, ops)
    ensures var e := After(s, ops);
      i < |e.fleet| && LastFor(e.req.pushed, i) != [] ==>
        var m := LastFor(e.req.pushed, i)[0]; e.fleet[i] == Bot(e.fleet[i].waiting, m.seqNum, m.tsc)
  {
    hide Runs; hide After; hide Inv; hide LastFor;
    InitialInv(s);
    StartRemembers(s);
    RunRemembers(s, ops);
  }

  lemma StartRemembers(s: State)
    requires IsInitial(s)
    ensures Remembers(s)
  {
  }
}
