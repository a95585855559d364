/**
 Delivery: within the window every number issued and no longer in a producer's
 hands is ready in its slot, so the consumer alone can drain them all.
 */
module SequencerDrain {
  import opened RingIndex
  import opened Sequencer

  // ----- No number is lost -----

  // The producer has a number and has not published its record yet.
  predicate Sending(x: Producer) {
    x.Numbered? || x.Writing?
  }

  // Some producer still has to publish the record of q.
  ghost predicate Underway(s: State, q: nat) {
    exists p | 0 <= p < |s.producers| :: Sending(s.producers[p]) && s.producers[p].seqNo == q
  }

  ghost predicate Ready(s: State, q: nat)
    requires Shape(s)
  {
    s.flags[SlotOf(q)] == READY && s.owner[SlotOf(q)] == q
  }

  ghost predicate AllHeld(s: State)
    requires Shape(s)
  {
    forall q | s.drainPos < q <= s.counter :: Underway(s, q) || Ready(s, q)
  }

  // The producers' numbers under way stay so, and ready slots stay ready.
  lemma HeldKept(s: State, s': State)
    requires Shape(s) && Shape(s') && AllHeld(s) && s'.counter == s.counter && s'.drainPos == s.drainPos
    requires |s'.producers| == |s.producers|
    requires forall p | 0 <= p < |s.producers| && Sending(s.producers[p]) ::
      Sending(s'.producers[p]) && s'.producers[p].seqNo == s.producers[p].seqNo
    requires forall i | 0 <= i < RING && s.flags[i] == READY :: s'.flags[i] == READY && s'.owner[i] == s.owner[i]
    ensures AllHeld(s')
  {
    hide SlotOf;
    forall q | s'.drainPos < q <= s'.counter
      ensures Underway(s', q) || Ready(s', q)
    {
      if Underway(s, q) {
        StillUnderway(s, s', q);
      } else {
        assert Ready(s, q);
      }
    }
  }

  lemma StillUnderway(s: State, s': State, q: nat)
    requires Underway(s, q) && |s'.producers| == |s.producers|
    requires forall p | 0 <= p < |s.producers| && Sending(s.producers[p])
      && s.producers[p].seqNo == q ::
      Sending(s'.producers[p]) && s'.producers[p].seqNo == q
    ensures Underway(s', q)
  {
    var p :| 0 <= p < |s.producers| && Sending(s.producers[p]) && s.producers[p].seqNo == q;
    assert s'.producers[p].seqNo == q;
  }

  lemma IssueHeld(s: State, p: nat, m: Message)
    requires Inv(s) && AllHeld(s) && Enabled(s, Issue(p, m))
    ensures Shape(Step(s, Issue(p, m))) && AllHeld(Step(s, Issue(p, m)))
  {
    hide SlotOf; hide Writers; hide Slots; hide OutOk; hide ConsumerOk; hide Numbers; hide Accounted;
    var s' := Step(s, Issue(p, m));
    forall q | s'.drainPos < q <= s'.counter
      ensures Underway(s', q) || Ready(s', q)
    {
      if q == s.counter + 1 {
        assert s'.producers[p].seqNo == q;
      } else if Underway(s, q) {
        StillUnderway(s, s', q);
      } else {
        assert Ready(s, q);
      }
    }
  }

  lemma PublishHeld(s: State, p: nat)
    requires Inv(s) && AllHeld(s) && Enabled(s, Publish(p))
    ensures Shape(Step(s, Publish(p))) && AllHeld(Step(s, Publish(p)))
  {
    hide SlotOf; hide Record; hide Slots; hide OutOk; hide ConsumerOk; hide Accounted;
    var s', mine := Step(s, Publish(p)), s.producers[p].seqNo;
    assert WriterOk(s, p);
    forall q | s'.drainPos < q <= s'.counter
      ensures Underway(s', q) || Ready(s', q)
    {
      if q == mine {
        assert Ready(s', q);
      } else if Underway(s, q) {
        StillUnderway(s, s', q);
      } else {
        assert Ready(s, q);
      }
    }
  }

  lemma ClearHeld(s: State)
    requires Inv(s) && Pending(s) && InWindow(s) && AllHeld(s) && Enabled(s, Clear)
    ensures Shape(Step(s, Clear)) && AllHeld(Step(s, Clear))
  {
    hide SlotOf; hide Record; hide Slots; hide OutOk; hide Writers; hide Ordered; hide Accounted; hide Numbers;
    var s' := Step(s, Clear);
    forall q | s'.drainPos < q <= s'.counter
      ensures Underway(s', q) || Ready(s', q)
    {
      if Underway(s, q) {
        StillUnderway(s, s', q);
      } else {
        assert Ready(s, q);
        if SlotOf(q) == SlotOf(s.drainPos + 1) {
          SameSlot(s.drainPos, q, s.drainPos + 1);
        }
      }
    }
  }

  lemma StepHeld(s: State, op: Op)
    requires Inv(s) && Pending(s) && InWindow(s) && AllHeld(s) && Enabled(s, op)
    ensures Shape(Step(s, op)) && AllHeld(Step(s, op))
  {
    hide SlotOf; hide Record; hide Slots; hide OutOk; hide Writers; hide Ordered; hide Accounted; hide Numbers;
    hide AllHeld; hide ConsumerOk;
    match op
    case Issue(p, m) => IssueHeld(s, p, m);
    case Publish(p) => PublishHeld(s, p);
    case Clear => ClearHeld(s);
    case Claim(p) => HeldKept(s, Step(s, op));
    case Write(p) => HeldKept(s, Step(s, op));
    case Count(p) => HeldKept(s, Step(s, op));
    case Poll => HeldKept(s, Step(s, op));
    case Copy => HeldKept(s, Step(s, op));
    case Drop(p) =>
  }

  // All that a run within the window keeps.
  ghost predicate Good(s: State) {
    Inv(s) && Pending(s) && InWindow(s) && AllHeld(s)
  }

  lemma StepGood(s: State, op: Op)
    requires Good(s) && Enabled(s, op) && InWindow(Step(s, op))
    ensures Good(Step(s, op))
  {
    hide Inv; hide Pending; hide AllHeld; hide Step; hide Enabled; hide InWindow;
    InvShape(s);
    StepInv(s, op);
    PendingStep(s, op);
    StepHeld(s, op);
  }

  lemma {:induction false} RunGood(s: State, ops: seq<Op>)
    requires Good(s) && Runs(s, ops) && StaysInWindow(s, ops)
    ensures Good(After(s, ops))
    decreases |ops|
  {
    hide Good; hide Step; hide Enabled; hide InWindow;
    if ops != [] {
      WindowHead(Step(s, ops[0]), ops[1..]);
      StepGood(s, ops[0]);
      RunGood(Step(s, ops[0]), ops[1..]);
    }
  }

  lemma InitialGood(s: State)
    requires IsInitial(s)
    ensures Good(s)
  {
    hide Record; hide SlotOf;
    InitialInv(s);
  }

  // ----- Polling -----

  lemma NotReady(s: State)
    requires Inv(s) && Pending(s)
    ensures forall p | 0 <= p < |s.producers| && Sending(s.producers[p]) ::
      s.flags[SlotOf(s.producers[p].seqNo)] != READY
  {
    hide SlotOf; hide Record; hide OutOk; hide Ordered; hide Accounted; hide Numbers; hide Slots;
    forall p | 0 <= p < |s.producers| && Sending(s.producers[p])
      ensures s.flags[SlotOf(s.producers[p].seqNo)] != READY
    {
      if s.producers[p].Writing? {
        assert WriterOk(s, p);
      }
    }
  }

  // A poll moves on exactly if the next number has been issued and its producer
  // has published it, and then its whole record is in the slot.
  lemma PollExact(s: State)
    requires Good(s) && Enabled(s, Poll)
    ensures var q := s.drainPos + 1;
      && (Step(s, Poll).consumer == Copying([]) <==> q <= s.counter && !Underway(s, q))
      && (Step(s, Poll).consumer == Copying([]) ==> s.ring[SlotOf(q)] == Record(q, Stamp(s, q)))
      && (Step(s, Poll).consumer != Copying([]) ==> Step(s, Poll) == s)
  {
    hide SlotOf; hide Record; hide OutOk; hide Ordered; hide Accounted; hide Numbers;
    var q := s.drainPos + 1;
    if s.flags[SlotOf(q)] == READY {
      assert SlotOk(s, SlotOf(q));
      SameSlot(s.drainPos, s.owner[SlotOf(q)], q);
      NotReady(s);
    } else if q <= s.counter {
      assert Underway(s, q) || Ready(s, q);
    }
  }

  // ----- Draining -----

  ghost predicate Reaches(s: State, ops: seq<Op>, t: State) {
    Runs(s, ops) && After(s, ops) == t
  }

  lemma {:induction false} Then(s: State, a: seq<Op>, t: State, b: seq<Op>, u: State)
    requires Reaches(s, a, t) && Reaches(t, b, u)
    ensures Reaches(s, a + b, u)
    decreases |a|
  {
    hide Step; hide Enabled;
    if a == [] {
      assert a + b == b;
    } else {
      assert (a + b)[1..] == a[1..] + b;
      Then(Step(s, a[0]), a[1..], t, b, u);
    }
  }

  lemma Once(s: State, op: Op)
    requires Shape(s) && Enabled(s, op)
    ensures Reaches(s, [op], Step(s, op)) && Reaches(s, [], s)
  {
    hide Step; hide Enabled; hide Shape;
    var one := [op];
    assert one[0] == op && one[1..] == [];
    assert Runs(Step(s, op), []) && Runs(s, one);
    assert After(s, one) == After(Step(s, op), []);
  }

  lemma Nowhere(s: State)
    ensures Reaches(s, [], s)
  {
  }

  function Copies(n: nat): (ops: seq<Op>) {
    if n == 0 then [] else [Copy] + Copies(n - 1)
  }

  // One record: poll, copy its words, clear its slot.
  function Cycle(): (ops: seq<Op>) {
    [Poll] + (Copies(WORDS) + [Clear])
  }

  function Cycles(n: nat): (ops: seq<Op>) {
    if n == 0 then [] else Cycle() + Cycles(n - 1)
  }

  // Nobody is sending.
  predicate AllIdle(s: State) {
    forall p | 0 <= p < |s.producers| :: s.producers[p].Idle?
  }

  // The state after a consumer step but for what the consumer changes.
  ghost predicate Consumed(s: State, t: State) {
    t == s.(consumer := t.consumer, flags := t.flags, drainPos := t.drainPos, out := t.out)
  }

  lemma GoodShape(s: State)
    requires Good(s)
    ensures Inv(s) && Shape(s) && |s.out| == s.drainPos <= s.counter && InWindow(s)
  {
    hide Record; hide SlotOf; hide Slots; hide Writers; hide AllHeld;
    OutLength(s);
  }

  // The rest of the record being copied, and its slot cleared.
  lemma {:induction false} FinishCopy(s: State) returns (t: State)
    requires Inv(s) && s.consumer.Copying? && |s.consumer.got| <= WORDS
    ensures Reaches(s, Copies(WORDS - |s.consumer.got|) + [Clear], t) && Inv(t) && (Good(s) ==> Good(t))
    ensures Consumed(s, t) && t.consumer == Polling && t.drainPos == s.drainPos + 1
    ensures |s.flags| == RING && t.flags == s.flags[SlotOf(s.drainPos + 1) := EMPTY]
    decreases WORDS - |s.consumer.got|
  {
    hide Good; hide Reaches; hide Inv; hide SlotOf;
    InvShape(s);
    if |s.consumer.got| == WORDS {
      t := Step(s, Clear);
      Once(s, Clear);
      assert Copies(0) + [Clear] == [Clear];
      ConsumerStep(s, Clear);
    } else {
      var s1 := Step(s, Copy);
      Once(s, Copy);
      ConsumerStep(s, Copy);
      t := FinishCopy(s1);
      var rest := Copies(WORDS - |s1.consumer.got|) + [Clear];
      Then(s, [Copy], s1, rest, t);
      assert Copies(WORDS - |s.consumer.got|) + [Clear] == [Copy] + rest;
    }
  }

  lemma ConsumerStep(s: State, op: Op)
    requires Inv(s) && Enabled(s, op) && (op.Poll? || op.Copy? || op.Clear?)
    ensures Shape(s) && Inv(Step(s, op)) && (Good(s) ==> Good(Step(s, op)))
  {
    hide Good; hide Inv; hide SlotOf;
    InvShape(s);
    StepInv(s, op);
    if Good(s) {
      GoodShape(s);
      StepGood(s, op);
    }
  }

  lemma DrainOnce(s: State) returns (t: State)
    requires Inv(s) && s.consumer == Polling && |s.flags| == RING && s.flags[SlotOf(s.drainPos + 1)] == READY
    ensures Reaches(s, Cycle(), t) && Inv(t) && (Good(s) ==> Good(t))
    ensures Consumed(s, t) && t.consumer == Polling && t.drainPos == s.drainPos + 1
    ensures t.flags == s.flags[SlotOf(s.drainPos + 1) := EMPTY]
  {
    hide Good; hide Reaches; hide Copies; hide Inv; hide SlotOf;
    InvShape(s);
    Once(s, Poll);
    ConsumerStep(s, Poll);
    t := FinishCopy(Step(s, Poll));
    Then(s, [Poll], Step(s, Poll), Copies(WORDS) + [Clear], t);
  }

  // n records in a row that are ready.
  lemma {:induction false} DrainSome(s: State, n: nat) returns (t: State)
    requires Inv(s) && s.consumer == Polling && n <= RING == |s.flags|
    requires forall q | s.drainPos < q <= s.drainPos + n :: s.flags[SlotOf(q)] == READY
    ensures Reaches(s, Cycles(n), t) && Inv(t) && (Good(s) ==> Good(t))
    ensures Consumed(s, t) && t.consumer == Polling && t.drainPos == s.drainPos + n && |t.flags| == RING
    ensures forall q | s.drainPos < q <= s.drainPos + n :: t.flags[SlotOf(q)] == EMPTY
    ensures forall i | 0 <= i < RING :: t.flags[i] == EMPTY || t.flags[i] == s.flags[i]
    decreases n
  {
    hide Good; hide Reaches; hide Cycle; hide Inv; hide SlotOf;
    if n == 0 {
      t := s;
      Nowhere(s);
    } else {
      var d := s.drainPos;
      var s1 := DrainOnce(s);
      forall q | d + 1 < q <= d + n
        ensures s1.flags[SlotOf(q)] == READY
      {
        if SlotOf(q) == SlotOf(d + 1) {
          SameSlot(d, q, d + 1);
        }
      }
      t := DrainSome(s1, n - 1);
      Then(s, Cycle(), s1, Cycles(n - 1), t);
    }
  }

  lemma IdleReady(s: State)
    requires Good(s) && AllIdle(s)
    ensures Shape(s) && forall q | s.drainPos < q <= s.counter :: s.flags[SlotOf(q)] == READY
  {
    hide SlotOf; hide Record; hide OutOk; hide Ordered; hide Accounted; hide Numbers; hide Writers; hide Slots;
    forall q | s.drainPos < q <= s.counter
      ensures s.flags[SlotOf(q)] == READY
    {
      assert Underway(s, q) || Ready(s, q);
    }
  }

  lemma DrainAll(s: State) returns (t: State)
    requires Good(s) && AllIdle(s) && s.consumer == Polling && s.drainPos <= s.counter
    ensures Reaches(s, Cycles(s.counter - s.drainPos), t)
    ensures Good(t) && Consumed(s, t) && t.drainPos == s.counter
  {
    hide Good; hide Reaches; hide Cycles; hide SlotOf; hide Inv;
    GoodShape(s);
    IdleReady(s);
    t := DrainSome(s, s.counter - s.drainPos);
  }

  function Left(issued: nat, drained: nat): (n: nat) {
    if drained <= issued then issued - drained else 0
  }

  // What the consumer does on its own: finish the record in hand, then one cycle
  // for each record left.
  function Drain(s: State): (ops: seq<Op>)
    requires s.consumer.Copying? ==> |s.consumer.got| <= WORDS
  {
    if s.consumer.Copying?
    then Copies(WORDS - |s.consumer.got|) + [Clear] + Cycles(Left(s.counter, s.drainPos + 1))
    else Cycles(Left(s.counter, s.drainPos))
  }

  lemma DrainsFrom(s: State) returns (t: State)
    requires Good(s) && AllIdle(s) && (s.consumer.Copying? ==> |s.consumer.got| <= WORDS)
    ensures Reaches(s, Drain(s), t) && Good(t) && Consumed(s, t) && t.drainPos == s.counter
  {
    hide Good; hide Reaches; hide Copies; hide Cycles;
    GoodShape(s);
    if s.consumer.Copying? {
      var s1 := FinishCopy(s);
      GoodShape(s1);
      t := DrainAll(s1);
      Then(s, Copies(WORDS - |s.consumer.got|) + [Clear], s1, Cycles(s1.counter - s1.drainPos), t);
    } else {
      t := DrainAll(s);
    }
  }

  lemma CopyBound(s: State)
    requires Good(s)
    ensures s.consumer.Copying? ==> |s.consumer.got| <= WORDS
  {
    hide Record; hide SlotOf; hide Slots; hide Writers; hide AllHeld; hide Pending; hide OutOk;
  }

  // After any run within the window, once the producers are done, the consumer's
  // own loop delivers every record: number after number, with its message.
  lemma Delivers(s: State, ops: seq<Op>)
    requires IsInitial(s) && Runs(s, ops) && StaysInWindow(s, ops) && AllIdle(After(s, ops))
    ensures var e := After(s, ops);
      && (e.consumer.Copying? ==> |e.consumer.got| <= WORDS) && Runs(e, Drain(e)) && e.drops == 0
      && var f := After(e, Drain(e));
        && |f.out| == e.counter == |e.stamps| && f.counter == e.counter && f.producers == e.producers
        && forall i | 0 <= i < |f.out| :: Carries(f.out[i], i + 1, e.stamps[i])
  {
    hide Runs; hide After; hide StaysInWindow; hide Good; hide Drain; hide AllIdle; hide Carries;
    InitialGood(s);
    RunGood(s, ops);
    var e := After(s, ops);
    CopyBound(e);
    var f := DrainsFrom(e);
    AllDelivered(e);
    AllDelivered(f);
  }

  lemma AllDelivered(s: State)
    requires Good(s)
    ensures |s.out| == s.drainPos <= s.counter == |s.stamps| && s.drops == 0
    ensures forall i | 0 <= i < |s.out| :: Carries(s.out[i], i + 1, s.stamps[i])
  {
    hide Record; hide SlotOf; hide Slots; hide Writers; hide AllHeld; hide Carries; hide IsRecord;
    OutLength(s);
    forall i | 0 <= i < |s.out|
      ensures Carries(s.out[i], i + 1, s.stamps[i])
    {
      assert IsRecord(s, s.out[i], i + 1);
      RecordIs(s, s.out[i], i + 1);
    }
  }

  lemma RecordIs(s: State, r: seq<nat>, q: nat)
    requires IsRecord(s, r, q)
    ensures 0 < q <= |s.stamps| && Carries(r, q, s.stamps[q - 1])
  {
    RecordCarries(q, s.stamps[q - 1]);
  }

  // ----- Sending -----

  function Writes(p: nat, n: nat): (ops: seq<Op>) {
    if n == 0 then [] else [Write(p)] + Writes(p, n - 1)
  }

  // One whole stamp call of producer p.
  function Send(p: nat, m: Message): (ops: seq<Op>) {
    [Issue(p, m)] + ([Claim(p)] + (Writes(p, WORDS) + [Publish(p)] + [Count(p)]))
  }

  // The rest of a record, published and counted.
  lemma {:induction false} FinishWrite(s: State, p: nat) returns (t: State)
    requires Inv(s) && p < |s.producers| && s.producers[p].Writing? && s.producers[p].done <= WORDS
    ensures Reaches(s, Writes(p, WORDS - s.producers[p].done) + [Publish(p)] + [Count(p)], t)
    ensures Inv(t) && (Good(s) ==> Good(t)) && |s.flags| == RING
    ensures t == Set(s, p, Idle).(flags := s.flags[SlotOf(s.producers[p].seqNo) := READY], ring := t.ring,
                                  stamped := s.stamped + 1)
    decreases WORDS - s.producers[p].done
  {
    hide Good; hide Reaches; hide SlotOf; hide Inv;
    InvShape(s);
    if s.producers[p].done == WORDS {
      var s1 := Step(s, Publish(p));
      Once(s, Publish(p));
      LocalStep(s, Publish(p));
      InvShape(s1);
      Once(s1, Count(p));
      LocalStep(s1, Count(p));
      t := Step(s1, Count(p));
      Then(s, [Publish(p)], s1, [Count(p)], t);
      assert Writes(p, 0) + [Publish(p)] + [Count(p)] == [Publish(p)] + [Count(p)];
    } else {
      var s1 := Step(s, Write(p));
      Once(s, Write(p));
      LocalStep(s, Write(p));
      t := FinishWrite(s1, p);
      var rest := Writes(p, WORDS - s1.producers[p].done) + [Publish(p)] + [Count(p)];
      Then(s, [Write(p)], s1, rest, t);
      assert Writes(p, WORDS - s.producers[p].done) + [Publish(p)] + [Count(p)] == [Write(p)] + rest;
    }
  }

  lemma LocalStep(s: State, op: Op)
    requires Inv(s) && Enabled(s, op) && (op.Claim? || op.Write? || op.Publish? || op.Count?)
    ensures Shape(s) && Inv(Step(s, op)) && (Good(s) ==> Good(Step(s, op)))
  {
    hide Good; hide Inv; hide SlotOf;
    InvShape(s);
    StepInv(s, op);
    if Good(s) {
      GoodShape(s);
      StepGood(s, op);
    }
  }

  // A producer that runs alone and finds the slot of its number empty gets its
  // message in.
  lemma SendsInto(s: State, p: nat, m: Message) returns (t: State)
    requires Inv(s) && p < |s.producers| && s.producers[p].Idle? && |s.flags| == RING
    requires s.flags[SlotOf(s.counter + 1)] == EMPTY
    ensures Reaches(s, Send(p, m), t) && Inv(t) && |s.owner| == RING
      && (Good(s) && s.counter < s.drainPos + RING ==> Good(t))
    ensures t == s.(counter := s.counter + 1, stamps := s.stamps + [m], stamped := s.stamped + 1,
                    flags := s.flags[SlotOf(s.counter + 1) := READY], ring := t.ring,
                    owner := s.owner[SlotOf(s.counter + 1) := s.counter + 1])
  {
    hide Good; hide Reaches; hide SlotOf; hide Writes; hide Inv;
    InvShape(s);
    var s1 := Step(s, Issue(p, m));
    Once(s, Issue(p, m));
    StepInv(s, Issue(p, m));
    if Good(s) && s.counter < s.drainPos + RING {
      StepGood(s, Issue(p, m));
    }
    InvShape(s1);
    var s2 := Step(s1, Claim(p));
    Once(s1, Claim(p));
    LocalStep(s1, Claim(p));
    t := FinishWrite(s2, p);
    var rest := Writes(p, WORDS) + [Publish(p)] + [Count(p)];
    Then(s1, [Claim(p)], s2, rest, t);
    Then(s, [Issue(p, m)], s1, [Claim(p)] + rest, t);
    assert s.producers[p := Idle] == s.producers;
  }

  // That is so while the window has room.
  lemma SendsAlone(s: State, p: nat, m: Message) returns (t: State)
    requires Good(s) && p < |s.producers| && s.producers[p].Idle? && s.counter < s.drainPos + RING
    ensures Reaches(s, Send(p, m), t) && Good(t) && |s.flags| == |s.owner| == RING
    ensures t == s.(counter := s.counter + 1, stamps := s.stamps + [m], stamped := s.stamped + 1,
                    flags := s.flags[SlotOf(s.counter + 1) := READY], ring := t.ring,
                    owner := s.owner[SlotOf(s.counter + 1) := s.counter + 1])
  {
    hide Good; hide Reaches; hide SlotOf; hide Inv;
    GoodShape(s);
    StepGood(s, Issue(p, m));
    Claimable(Step(s, Issue(p, m)), p);
    t := SendsInto(s, p, m);
  }

  lemma Claimable(s: State, p: nat)
    requires Good(s) && p < |s.producers| && s.producers[p].Numbered?
    ensures Shape(s) && s.flags[SlotOf(s.producers[p].seqNo)] == EMPTY
  {
    hide Record; hide SlotOf; hide Slots; hide Writers; hide AllHeld; hide Ordered; hide OutOk;
  }

  // ----- When a number is dropped -----

  // A claimed slot has its writer.
  ghost predicate Claimants(s: State)
    requires Shape(s)
  {
    forall i | 0 <= i < RING && s.flags[i] != EMPTY && s.flags[i] != READY :: WritesTo(s, i)
  }

  ghost predicate WritesTo(s: State, i: nat) {
    exists p | 0 <= p < |s.producers| :: s.producers[p].Writing? && SlotOf(s.producers[p].seqNo) == i
  }

  lemma StillWrites(s: State, s': State, i: nat)
    requires WritesTo(s, i) && |s'.producers| == |s.producers|
    requires forall p | 0 <= p < |s.producers| && s.producers[p].Writing? && SlotOf(s.producers[p].seqNo) == i ::
      s'.producers[p].Writing? && s'.producers[p].seqNo == s.producers[p].seqNo
    ensures WritesTo(s', i)
  {
    hide SlotOf;
    var p :| 0 <= p < |s.producers| && s.producers[p].Writing? && SlotOf(s.producers[p].seqNo) == i;
    assert s'.producers[p].Writing? && SlotOf(s'.producers[p].seqNo) == i;
  }

  lemma StepClaimants(s: State, op: Op)
    requires Inv(s) && Claimants(s) && Enabled(s, op)
    ensures Shape(Step(s, op)) && Claimants(Step(s, op))
  {
    hide SlotOf; hide Record; hide OutOk; hide Writers; hide Slots; hide Accounted; hide Numbers; hide ConsumerOk;
    hide WritesTo;
    var s' := Step(s, op);
    forall i | 0 <= i < RING && s'.flags[i] != EMPTY && s'.flags[i] != READY
      ensures WritesTo(s', i)
    {
      if op.Claim? && i == SlotOf(s.producers[op.p].seqNo) && s'.producers[op.p].Writing? {
        WritesOwn(s', op.p);
      } else {
        StillWrites(s, s', i);
      }
    }
  }

  lemma WritesOwn(s: State, p: nat)
    requires p < |s.producers| && s.producers[p].Writing?
    ensures WritesTo(s, SlotOf(s.producers[p].seqNo))
  {
  }

  // The slot of q is in use: somebody is writing to it, or it holds the whole
  // record of a number not yet cleared.
  ghost predicate InUse(s: State, q: nat)
    requires Shape(s)
  {
    WritesTo(s, SlotOf(q))
    || exists r: nat ::
         0 < r <= s.counter && Ready(s, r) && SlotOf(r) == SlotOf(q) && s.ring[SlotOf(q)] == Record(r, Stamp(s, r))
  }

  lemma WriterSlots(s: State)
    requires Inv(s)
    ensures forall w | 0 <= w < |s.producers| && s.producers[w].Writing? ::
      s.flags[SlotOf(s.producers[w].seqNo)] == CLAIMED
  {
    hide SlotOf; hide Record; hide OutOk; hide Accounted; hide Numbers; hide ConsumerOk; hide Slots;
    forall w | 0 <= w < |s.producers| && s.producers[w].Writing?
      ensures s.flags[SlotOf(s.producers[w].seqNo)] == CLAIMED
    {
      assert WriterOk(s, w);
    }
  }

  // A claim is refused, and its number then dropped, exactly if its slot is in
  // use; otherwise the producer goes on to write.
  lemma ClaimExact(s: State, p: nat)
    requires Inv(s) && Claimants(s) && Enabled(s, Claim(p))
    ensures var x, q := Step(s, Claim(p)).producers[p], s.producers[p].seqNo;
      && (x == Refused(q) <==> InUse(s, q)) && (x == Writing(q, 0) <==> !InUse(s, q))
  {
    hide SlotOf; hide Record; hide OutOk; hide Accounted; hide Numbers; hide ConsumerOk;
    var q := s.producers[p].seqNo;
    var i := SlotOf(q);
    assert SlotOk(s, i);
    if s.flags[i] == READY {
      assert Ready(s, s.owner[i]);
    }
    WriterSlots(s);
  }

  lemma {:induction false} RunClaimants(s: State, ops: seq<Op>)
    requires Inv(s) && Claimants(s) && Runs(s, ops)
    ensures Inv(After(s, ops)) && Claimants(After(s, ops))
    decreases |ops|
  {
    hide Inv; hide Step; hide Enabled; hide Claimants;
    if ops != [] {
      StepInv(s, ops[0]);
      StepClaimants(s, ops[0]);
      RunClaimants(Step(s, ops[0]), ops[1..]);
    }
  }

  // From the start, in every run and whatever the window.
  lemma DropsExact(s: State, ops: seq<Op>, p: nat)
    requires IsInitial(s) && Runs(s, ops) && Enabled(After(s, ops), Claim(p))
    ensures var e := After(s, ops);
      && Shape(e) && p < |e.producers|
      && (Step(e, Claim(p)).producers[p] == Refused(e.producers[p].seqNo) <==> InUse(e, e.producers[p].seqNo))
  {
    hide Runs; hide After; hide Inv; hide Claimants; hide InUse; hide SlotOf;
    InitialInv(s);
    InitialClaimants(s);
    RunClaimants(s, ops);
    InvShape(After(s, ops));
    ClaimExact(After(s, ops), p);
  }

  lemma InitialClaimants(s: State)
    requires IsInitial(s)
    ensures Claimants(s)
  {
  }

  // ----- Past the window -----

  function Sends(n: nat): (ops: seq<Op>) {
    if n == 0 then [] else Sends(n - 1) + Send(0, [])
  }

  lemma {:induction false} SendMany(s: State, n: nat) returns (t: State)
    requires IsInitial(s) && |s.producers| > 0 && n <= RING
    ensures Reaches(s, Sends(n), t) && Good(t) && AllIdle(t) && t.producers == s.producers && t.consumer == Polling
    ensures t.counter == t.stamped == n && t.drainPos == t.drops == 0
    decreases n
  {
    hide Good; hide Reaches; hide Send; hide SlotOf;
    if n == 0 {
      t := s;
      Nowhere(s);
      InitialGood(s);
    } else {
      var s1 := SendMany(s, n - 1);
      GoodShape(s1);
      t := SendsAlone(s1, 0, []);
      Then(s, Sends(n - 1), s1, Send(0, []), t);
    }
  }

  // A message that finds the ring full, the records before it drained, and one
  // message more.
  function StallRun(): (ops: seq<Op>) {
    Sends(RING) + ([Issue(0, [])] + ([Claim(0)] + ([Drop(0)] + (Cycles(RING) + Send(0, [])))))
  }

  // A dropped number stalls the consumer: it polls the slot of that number, which
  // stays empty, although the next record is whole and ready in the slot after.
  lemma DropStalls(s: State)
    requires IsInitial(s) && |s.producers| > 0
    ensures Runs(s, StallRun())
    ensures var e := After(s, StallRun());
      && Shape(e) && e.drops == 1 && e.stamped == RING + 1 && |e.out| == RING && AllIdle(e)
      && Ready(e, RING + 2) && e.consumer == Polling && Step(e, Poll) == e
  {
    hide Good; hide Runs; hide After; hide SlotOf; hide Send; hide Cycles; hide Sends; hide Inv;
    var s1 := SendMany(s, RING);
    GoodShape(s1);
    IdleReady(s1);
    LapSlot(1, RING);
    LapSlot(2, RING);
    SlotIs(1);
    SlotIs(2);
    var s2 := Step(s1, Issue(0, []));
    Once(s1, Issue(0, []));
    StepInv(s1, Issue(0, []));
    InvShape(s2);
    assert s2.flags[SlotOf(RING + 1)] == READY;
    var s3 := Step(s2, Claim(0));
    Once(s2, Claim(0));
    StepInv(s2, Claim(0));
    InvShape(s3);
    var s4 := Step(s3, Drop(0));
    Once(s3, Drop(0));
    StepInv(s3, Drop(0));
    InvShape(s4);
    var s5 := DrainSome(s4, RING);
    assert s5.flags[SlotOf(1)] == EMPTY && s5.flags[SlotOf(2)] == EMPTY;
    var s6 := SendsInto(s5, 0, []);
    Then(s4, Cycles(RING), s5, Send(0, []), s6);
    Then(s3, [Drop(0)], s4, Cycles(RING) + Send(0, []), s6);
    Then(s2, [Claim(0)], s3, [Drop(0)] + (Cycles(RING) + Send(0, [])), s6);
    Then(s1, [Issue(0, [])], s2, [Claim(0)] + ([Drop(0)] + (Cycles(RING) + Send(0, []))), s6);
    Then(s, Sends(RING), s1, [Issue(0, [])] + ([Claim(0)] + ([Drop(0)] + (Cycles(RING) + Send(0, [])))), s6);
    InvOut(s6);
  }

  lemma InvOut(s: State)
    requires Inv(s)
    ensures Shape(s) && |s.out| == s.drainPos
  {
    hide SlotOf; hide Record; hide Writers; hide Slots;
    OutLength(s);
  }

  lemma SlotIs(q: nat)
    requires q < RING
    ensures SlotOf(q) == q && SlotOf(q + RING) == q
  {
  }
}
