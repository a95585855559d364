/**
 Every request can be answered: from every reachable state, with no more bots
 than slots, the two threads can go on until no bot waits.  The proof follows a
 potential that some enabled step of the code always lowers.
 */
module ShmAnswers {
  import SpscRing
  import opened ShmEngine

  // ----- The potential -----

  // A pop that will find nothing costs its steps; one that will take a message
  // has a part of that message's cost behind it.
  ghost function PopCost(r: SpscRing.Ring<Message>): (n: int) {
    match r.consumer
    case Waiting => 0
    case Looked(max, seen) => if max > 0 && r.readPos < seen then -1 else 2
    case Reading(want, got) => if want == 0 then 1 else -2 - |got|
  }

  ghost function AnswerCost(r: SpscRing.Ring<Message>): (n: int) {
    match r.producer
    case Ready => 0
    case Loaded(items, seen) => -1
    case Copying(items, done) => -2 - done
  }

  ghost function SendCost(r: SpscRing.Ring<Message>): (n: int) {
    match r.producer
    case Ready => 0
    case Loaded(items, seen) => 43
    case Copying(items, done) => 42 - done
  }

  // A message costs 40 until it is sent, 30 until it is taken, 20 until it is
  // answered and 10 until it is received.
  ghost function Potential(s: State): (n: int) {
    30 * |Unreceived(s.req)| + 20 * |s.hand| + 10 * |Unreceived(s.resp)|
    + SendCost(s.req) + PopCost(s.req) + AnswerCost(s.resp) + PopCost(s.resp)
  }

  lemma PopCostBounds(r: SpscRing.Ring<Message>)
    requires SpscRing.Inv(r) && (r.consumer.Reading? ==> r.consumer.want <= 1)
    ensures PopCost(r) + 10 * |Unreceived(r)| >= 0
  {
    hide SpscRing.Unread; hide SpscRing.ProducerOk;
  }

  lemma PotentialBound(s: State)
    requires Inv(s) && NeverFull(s)
    ensures Potential(s) >= 0
  {
    hide FlightOk; hide OutgoingOk; hide Flight; hide SpscRing.Inv; hide Unreceived; hide PopCost;
    PopCostBounds(s.req);
    PopCostBounds(s.resp);
    CopiedOne(s.req);
    CopiedOne(s.resp);
  }

  lemma CopiedOne(r: SpscRing.Ring<Message>)
    requires SpscRing.Inv(r)
    ensures r.producer.Copying? ==> r.producer.done <= |r.producer.items|
  {
    hide SpscRing.Unread; hide SpscRing.ConsumerOk; hide SpscRing.Holds;
  }

  // ----- Going on with what was begun -----

  // The next step of a push or pop under way.
  function NextPush(r: SpscRing.Ring<Message>): (op: SpscRing.Op<Message>) {
    if r.producer.Loaded? then SpscRing.StartPush
    else if r.producer.Copying? && r.producer.done < |r.producer.items| then SpscRing.CopyIn
    else SpscRing.PublishWrite
  }

  function NextPop(r: SpscRing.Ring<Message>): (op: SpscRing.Op<Message>) {
    if r.consumer.Looked? then SpscRing.StartPop
    else if r.consumer.Reading? && |r.consumer.got| < r.consumer.want then SpscRing.CopyOut
    else SpscRing.PublishRead
  }

  // A push with room goes on by one step, and then its message is under way.
  lemma PushGoes(r: SpscRing.Ring<Message>)
    requires SpscRing.Inv(r) && Roomy(r) && !r.producer.Ready?
    ensures SpscRing.Shape(r) && SpscRing.Enabled(r, NextPush(r))
    ensures var t := SpscRing.Step(r, NextPush(r));
      && t.consumer == r.consumer && t.readPos == r.readPos
      && if NextPush(r).PublishWrite?
         then |Unreceived(t)| == |Unreceived(r)| + 1 && t.producer == SpscRing.Ready
           && r.producer.done == |r.producer.items| == 1
         else
           && |Unreceived(t)| == |Unreceived(r)| && t.producer.Copying?
           && (r.producer.Loaded? ==> t.producer.done == 0)
           && (r.producer.Copying? ==> t.producer.done == r.producer.done + 1)
  {
    hide SpscRing.Unread; hide SpscRing.Holds;
    RingShape(r);
    if r.producer.Loaded? {
      PushFinds(r);
    }
  }

  // A pop of at most one message goes on by one step.
  lemma PopGoes(r: SpscRing.Ring<Message>)
    requires SpscRing.Inv(r) && !r.consumer.Waiting?
    requires (r.consumer.Looked? ==> r.consumer.max == 1) && (r.consumer.Reading? ==> r.consumer.want <= 1)
    ensures SpscRing.Shape(r) && SpscRing.Enabled(r, NextPop(r))
    ensures var t := SpscRing.Step(r, NextPop(r));
      && t.producer == r.producer
      && if NextPop(r).PublishRead?
         then
           && t.consumer == SpscRing.Waiting && |r.consumer.got| == r.consumer.want <= 1
           && |Unreceived(t)| == |Unreceived(r)| - r.consumer.want
         else Unreceived(t) == Unreceived(r) && PopCost(t) < PopCost(r)
  {
    hide SpscRing.Unread; hide SpscRing.Holds; hide SpscRing.ProducerOk;
    RingShape(r);
  }

  // A pop that begins while a message is there will take it.
  lemma PopBegins(r: SpscRing.Ring<Message>)
    requires SpscRing.Inv(r) && r.consumer.Waiting? && Unreceived(r) != []
    ensures SpscRing.Shape(r)
    ensures var t := SpscRing.Step(r, SpscRing.LoadWrite(1));
      PopCost(t) == -1 && Unreceived(t) == Unreceived(r) && t.producer == r.producer
  {
    hide SpscRing.Unread; hide SpscRing.Holds; hide SpscRing.ProducerOk;
    RingShape(r);
  }

  // ----- Some step always helps -----

  predicate AtRest(s: State) {
    s.req.producer.Ready? && s.req.consumer.Waiting? && s.resp.producer.Ready? && s.resp.consumer.Waiting?
  }

  function NextStep(s: State): (op: Op) {
    if !s.req.producer.Ready? then ReqIn(NextPush(s.req))
    else if !s.resp.consumer.Waiting? then RespOut(NextPop(s.resp))
    else if !s.req.consumer.Waiting? then ReqOut(NextPop(s.req))
    else if !s.resp.producer.Ready? then RespIn(NextPush(s.resp))
    else if s.hand != [] then Answer
    else if s.resp.readPos < |s.resp.pushed| then Recv
    else Take
  }

  lemma SendGoes(s: State)
    requires Inv(s) && NeverFull(s) && !s.req.producer.Ready?
    ensures Shape(s) && Enabled(s, NextStep(s)) && Potential(Step(s, NextStep(s))) < Potential(s)
  {
    hide FlightOk; hide OutgoingOk; hide Flight; hide SpscRing.Inv; hide SpscRing.Step; hide Unreceived; hide ControlOk;
    hide Sent;
    PushGoes(s.req);
    RingShape(s.resp);
  }

  lemma ReceiveGoes(s: State)
    requires Inv(s) && s.req.producer.Ready? && !s.resp.consumer.Waiting?
    ensures Shape(s) && Enabled(s, NextStep(s)) && Potential(Step(s, NextStep(s))) < Potential(s)
  {
    hide FlightOk; hide OutgoingOk; hide Flight; hide SpscRing.Inv; hide SpscRing.Step; hide Unreceived; hide Received;
    PopGoes(s.resp);
    RingShape(s.req);
  }

  lemma TakeGoes(s: State)
    requires Inv(s) && s.req.producer.Ready? && s.resp.consumer.Waiting? && !s.req.consumer.Waiting?
    ensures Shape(s) && Enabled(s, NextStep(s)) && Potential(Step(s, NextStep(s))) < Potential(s)
  {
    hide FlightOk; hide OutgoingOk; hide Flight; hide SpscRing.Inv; hide SpscRing.Step; hide Unreceived;
    PopGoes(s.req);
    RingShape(s.resp);
  }

  lemma AnswerGoes(s: State)
    requires Inv(s) && NeverFull(s) && s.req.producer.Ready? && s.resp.consumer.Waiting? && s.req.consumer.Waiting?
    requires !s.resp.producer.Ready?
    ensures Shape(s) && Enabled(s, NextStep(s)) && Potential(Step(s, NextStep(s))) < Potential(s)
  {
    hide FlightOk; hide OutgoingOk; hide Flight; hide SpscRing.Inv; hide SpscRing.Step; hide Unreceived;
    PushGoes(s.resp);
    RingShape(s.req);
  }

  lemma NextBegins(s: State)
    requires Inv(s) && AtRest(s) && Flight(s) != []
    ensures Shape(s) && Enabled(s, NextStep(s)) && Potential(Step(s, NextStep(s))) < Potential(s)
  {
    hide FlightOk; hide OutgoingOk; hide SpscRing.Inv; hide ControlOk;
    RingShape(s.req);
    RingShape(s.resp);
    if s.hand == [] {
      if s.resp.readPos < |s.resp.pushed| {
        PopBegins(s.resp);
      } else {
        PopBegins(s.req);
      }
    }
  }

  // Unless everything is at rest with no message under way, the next step of
  // the code lowers the potential.
  lemma NextHelps(s: State)
    requires Inv(s) && NeverFull(s) && !(AtRest(s) && Flight(s) == [])
    ensures Shape(s) && Enabled(s, NextStep(s)) && Potential(Step(s, NextStep(s))) < Potential(s)
    ensures !NextStep(s).Send?
  {
    hide Inv; hide NeverFull; hide Potential; hide Step; hide Enabled; hide Flight; hide NextPush; hide NextPop;
    if !s.req.producer.Ready? {
      SendGoes(s);
    } else if !s.resp.consumer.Waiting? {
      ReceiveGoes(s);
    } else if !s.req.consumer.Waiting? {
      TakeGoes(s);
    } else if !s.resp.producer.Ready? {
      AnswerGoes(s);
    } else {
      NextBegins(s);
    }
  }

  // ----- Until nobody waits -----

  lemma {:induction false} SettleAll(s: State) returns (ops: seq<Op>)
    requires Inv(s) && NeverFull(s)
    ensures Runs(s, ops) && (forall i | 0 <= i < |ops| :: !ops[i].Send?)
    ensures var e := After(s, ops); Inv(e) && AtRest(e) && Flight(e) == []
    decreases Potential(s)
  {
    hide Inv; hide NeverFull; hide Potential; hide Step; hide Enabled; hide Flight; hide NextStep; hide AtRest;
    PotentialBound(s);
    ops := [];
    if !(AtRest(s) && Flight(s) == []) {
      NextHelps(s);
      StepInv(s, NextStep(s));
      StepRoom(s, NextStep(s));
      PotentialBound(Step(s, NextStep(s)));
      var rest := SettleAll(Step(s, NextStep(s)));
      ops := [NextStep(s)] + rest;
      assert ops[0] == NextStep(s) && ops[1..] == rest;
      assert Runs(s, ops) && After(s, ops) == After(Step(s, NextStep(s)), rest);
    }
  }

  // After any run from the start, without another send, the threads can go on
  // until every bot has its answer and as many were received as sent.
  lemma AllAnswered(s: State, ops: seq<Op>) returns (more: seq<Op>)
    requires IsInitial(s) && FewBots(s) && Runs(s, ops)
    ensures var e := After(s, ops);
      && Runs(e, more) && (forall i | 0 <= i < |more| :: !more[i].Send?)
      && var f := After(e, more);
        f.sends == f.recvs && forall i | 0 <= i < |f.fleet| :: !f.fleet[i].waiting
  {
    hide Runs; hide After; hide Inv; hide NeverFull; hide Flight; hide AtRest;
    InitialInv(s);
    StartRoomy(s);
    RunInv(s, ops);
    more := SettleAll(After(s, ops));
    NoneWaiting(After(After(s, ops), more));
  }

  lemma StartRoomy(s: State)
    requires IsInitial(s) && FewBots(s)
    ensures NeverFull(s)
  {
  }

  lemma NoneWaiting(s: State)
    requires Inv(s) && Flight(s) == []
    ensures s.sends == s.recvs && forall i | 0 <= i < |s.fleet| :: !s.fleet[i].waiting
  {
    hide SpscRing.Inv; hide ControlOk; hide OutgoingOk; hide Flight;
    forall i | 0 <= i < |s.fleet|
      ensures !s.fleet[i].waiting
    {
      assert s.fleet[i].waiting ==> Carries(Flight(s), i);
    }
  }
}
