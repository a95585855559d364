/**
 The order sequencer: producers take a number from a shared counter, claim the
 slot of that number by compare-and-swap, write the record word by word and
 publish it; one consumer copies records out word by word.  Every atomic
 operation and every word copied is a step of its own, for any number of
 producers, in any interleaving.
 */
module Sequencer {
  import opened RingIndex

  const RING: nat := 65536

  // Words per record.  The first holds the sequence number.
  const WORDS: nat := 16

  // Flag values of a slot.
  const EMPTY: nat := 0
  const READY: nat := 1
  const CLAIMED: nat := 2

  type Message = seq<nat>

  // A producer's place in stamp_order or stamp_cancel.
  datatype Producer =
    | Idle
    | Numbered(seqNo: nat)
    | Refused(seqNo: nat)
    | Writing(seqNo: nat, done: nat)
    | Published(seqNo: nat)

  // The consumer's place in drain: what it has copied of the current record.
  datatype Consumer = Polling | Copying(got: seq<nat>)

  // `stamps` remembers the message of each number issued and `owner` the last
  // number to have claimed each slot; the code keeps neither.
  datatype State = State(counter: nat, flags: seq<nat>, ring: seq<seq<nat>>, producers: seq<Producer>,
                         consumer: Consumer, drainPos: nat, out: seq<seq<nat>>, stamped: nat, drops: nat,
                         stamps: seq<Message>, owner: seq<nat>)

  // The slot of a number.
  function SlotOf(q: nat): (s: nat)
    ensures s < RING
  {
    Slot(q, RING)
  }

  // Word k of the record of message m under number q.
  function Word(q: nat, m: Message, k: nat): (w: nat) {
    if k == 0 then q else if k <= |m| then m[k - 1] else 0
  }

  function Record(q: nat, m: Message): (r: seq<nat>)
    ensures |r| == WORDS && forall k | 0 <= k < WORDS :: r[k] == Word(q, m, k)
  {
    seq(WORDS, k requires 0 <= k < WORDS => Word(q, m, k))
  }

  // The words of r are the number q, then those of the message m.
  ghost predicate Carries(r: seq<nat>, q: nat, m: Message) {
    |r| == 16 && r[0] == q && forall k | 0 < k < 16 && k <= |m| :: r[k] == m[k - 1]
  }

  lemma RecordCarries(q: nat, m: Message)
    ensures Carries(Record(q, m), q, m)
  {
  }

  // The message issued under number q.
  function Stamp(s: State, q: nat): (m: Message) {
    if 0 < q <= |s.stamps| then s.stamps[q - 1] else []
  }

  // ----- Steps -----

  datatype Op =
    | Issue(p: nat, m: Message)
    | Claim(p: nat)
    | Drop(p: nat)
    | Write(p: nat)
    | Publish(p: nat)
    | Count(p: nat)
    | Poll
    | Copy
    | Clear

  predicate Enabled(s: State, op: Op) {
    match op
    case Issue(p, m) => p < |s.producers| && s.producers[p].Idle?
    case Claim(p) => p < |s.producers| && s.producers[p].Numbered?
    case Drop(p) => p < |s.producers| && s.producers[p].Refused?
    case Write(p) => p < |s.producers| && s.producers[p].Writing? && s.producers[p].done < WORDS
    case Publish(p) => p < |s.producers| && s.producers[p].Writing? && s.producers[p].done == WORDS
    case Count(p) => p < |s.producers| && s.producers[p].Published?
    case Poll => s.consumer.Polling?
    case Copy => s.consumer.Copying? && |s.consumer.got| < WORDS
    case Clear => s.consumer.Copying? && |s.consumer.got| == WORDS
  }

  predicate Shape(s: State) {
    && |s.flags| == |s.ring| == |s.owner| == RING && |s.stamps| == s.counter
    && forall i | 0 <= i < RING :: |s.ring[i]| == WORDS
  }

  function Set(s: State, p: nat, x: Producer): (r: State)
    requires p < |s.producers|
  {
    s.(producers := s.producers[p := x])
  }

  function Step(s: State, op: Op): (r: State)
    requires Shape(s) && Enabled(s, op)
  {
    match op
    case Issue(p, m) => Set(s, p, Numbered(s.counter + 1)).(counter := s.counter + 1, stamps := s.stamps + [m])
    case Claim(p) =>
      var q := s.producers[p].seqNo;
      if s.flags[SlotOf(q)] == EMPTY
      then Set(s, p, Writing(q, 0)).(flags := s.flags[SlotOf(q) := CLAIMED], owner := s.owner[SlotOf(q) := q])
      else Set(s, p, Refused(q))
    case Drop(p) => Set(s, p, Idle).(drops := s.drops + 1)
    case Write(p) =>
      var q, k := s.producers[p].seqNo, s.producers[p].done;
      Set(s, p, Writing(q, k + 1)).(ring := s.ring[SlotOf(q) := Put(s.ring[SlotOf(q)], k, Word(q, Stamp(s, q), k))])
    case Publish(p) =>
      var q := s.producers[p].seqNo;
      Set(s, p, Published(q)).(flags := s.flags[SlotOf(q) := READY])
    case Count(p) => Set(s, p, Idle).(stamped := s.stamped + 1)
    case Poll => if s.flags[SlotOf(s.drainPos + 1)] == READY then s.(consumer := Copying([])) else s
    case Copy =>
      s.(consumer := Copying(s.consumer.got + [s.ring[SlotOf(s.drainPos + 1)][|s.consumer.got|]]))
    case Clear =>
      s.(consumer := Polling, flags := s.flags[SlotOf(s.drainPos + 1) := EMPTY], drainPos := s.drainPos + 1,
         out := s.out + [s.consumer.got])
  }

  ghost predicate IsInitial(s: State) {
    && Shape(s) && s.counter == s.drainPos == s.stamped == s.drops == 0 && s.out == [] && s.consumer == Polling
    && (forall i | 0 <= i < RING :: s.flags[i] == EMPTY) && forall p | 0 <= p < |s.producers| :: s.producers[p] == Idle
  }

  // ----- The invariant -----

  // The number belongs to this producer alone.
  ghost predicate Numbers(s: State) {
    && (forall p | 0 <= p < |s.producers| && !s.producers[p].Idle? :: 0 < s.producers[p].seqNo <= s.counter)
    && forall p, r | 0 <= p < r < |s.producers| && !s.producers[p].Idle? && !s.producers[r].Idle? ::
         s.producers[p].seqNo != s.producers[r].seqNo
  }

  // Each writer has claimed its slot and has written the front of its record.
  ghost predicate WriterOk(s: State, p: nat)
    requires Shape(s) && p < |s.producers| && s.producers[p].Writing?
  {
    var q, k := s.producers[p].seqNo, s.producers[p].done;
    && 0 < q <= s.counter && k <= WORDS
    && s.flags[SlotOf(q)] == CLAIMED && s.owner[SlotOf(q)] == q
    && s.ring[SlotOf(q)][..k] == Record(q, Stamp(s, q))[..k]
  }

  ghost predicate Writers(s: State)
    requires Shape(s)
  {
    forall p | 0 <= p < |s.producers| && s.producers[p].Writing? :: WriterOk(s, p)
  }

  // A slot in use belongs to a number issued for it; a ready one holds the
  // whole record of that number.
  ghost predicate SlotOk(s: State, i: nat)
    requires Shape(s) && i < RING
  {
    s.flags[i] != EMPTY ==>
      var q := s.owner[i];
      0 < q <= s.counter && SlotOf(q) == i && (s.flags[i] == READY ==> s.ring[i] == Record(q, Stamp(s, q)))
  }

  ghost predicate Slots(s: State)
    requires Shape(s)
  {
    forall i | 0 <= i < RING :: SlotOk(s, i)
  }

  // The copy so far is the front of a ready record.
  ghost predicate ConsumerOk(s: State)
    requires Shape(s)
  {
    s.consumer.Copying? ==>
      var i := SlotOf(s.drainPos + 1);
      |s.consumer.got| <= WORDS && s.flags[i] == READY && s.consumer.got == s.ring[i][..|s.consumer.got|]
  }

  // What was drained at position n is a whole record whose number is congruent
  // to n.
  ghost predicate Whole(s: State, r: seq<nat>, n: nat) {
    exists q: nat :: 0 < q <= |s.stamps| && SlotOf(q) == SlotOf(n) && r == Record(q, Stamp(s, q))
  }

  ghost predicate OutOk(s: State) {
    |s.out| == s.drainPos && forall i | 0 <= i < |s.out| :: Whole(s, s.out[i], i + 1)
  }

  function Busy(ps: seq<Producer>): (n: nat) {
    if ps == [] then 0 else (if ps[0].Idle? then 0 else 1) + Busy(ps[1..])
  }

  // Issued numbers are accepted, dropped or still undecided.
  ghost predicate Accounted(s: State) {
    s.counter == s.stamped + s.drops + Busy(s.producers)
  }

  ghost predicate Inv(s: State) {
    Shape(s) && Numbers(s) && Writers(s) && Slots(s) && ConsumerOk(s) && OutOk(s) && Accounted(s)
  }

  lemma {:induction false} BusySet(ps: seq<Producer>, p: nat, x: Producer)
    requires p < |ps|
    ensures Busy(ps[p := x]) == Busy(ps) - (if ps[p].Idle? then 0 else 1) + (if x.Idle? then 0 else 1)
  {
    if p == 0 {
      assert ps[0 := x][1..] == ps[1..];
    } else {
      assert ps[p := x][1..] == ps[1..][p - 1 := x];
      BusySet(ps[1..], p - 1, x);
    }
  }

  lemma {:induction false} NoneBusy(ps: seq<Producer>)
    requires forall p | 0 <= p < |ps| :: ps[p].Idle?
    ensures Busy(ps) == 0
  {
    if ps != [] {
      NoneBusy(ps[1..]);
    }
  }

  lemma InitialInv(s: State)
    requires IsInitial(s)
    ensures Inv(s)
  {
    NoneBusy(s.producers);
  }

  // No slot ever has two writers.
  lemma OneWriter(s: State, p: nat, r: nat)
    requires Inv(s) && p < |s.producers| && r < |s.producers| && s.producers[p].Writing? && s.producers[r].Writing?
    requires SlotOf(s.producers[p].seqNo) == SlotOf(s.producers[r].seqNo)
    ensures p == r
  {
    assert WriterOk(s, p) && WriterOk(s, r);
  }

  // ----- Each step keeps it -----

  lemma WholeLater(s: State, s': State, r: seq<nat>, n: nat)
    requires Whole(s, r, n) && s.stamps <= s'.stamps
    ensures Whole(s', r, n)
  {
    var q: nat :| 0 < q <= |s.stamps| && SlotOf(q) == SlotOf(n) && r == Record(q, Stamp(s, q));
    assert Stamp(s', q) == Stamp(s, q);
  }

  lemma OutLater(s: State, s': State)
    requires OutOk(s) && s.stamps <= s'.stamps && s'.out == s.out && s'.drainPos == s.drainPos
    ensures OutOk(s')
  {
    hide Whole;
    forall i | 0 <= i < |s.out|
      ensures Whole(s', s'.out[i], i + 1)
    {
      WholeLater(s, s', s.out[i], i + 1);
    }
  }

  lemma IssueInv(s: State, p: nat, m: Message)
    requires Inv(s) && Enabled(s, Issue(p, m))
    ensures Inv(Step(s, Issue(p, m)))
  {
    hide OutOk; hide Record;
    var s' := Step(s, Issue(p, m));
    BusySet(s.producers, p, Numbered(s.counter + 1));
    OutLater(s, s');
    assert forall q: nat | 0 < q <= s.counter :: Stamp(s', q) == Stamp(s, q);
    forall r | 0 <= r < |s'.producers| && s'.producers[r].Writing?
      ensures WriterOk(s', r)
    {
      assert WriterOk(s, r);
    }
    forall i | 0 <= i < RING
      ensures SlotOk(s', i)
    {
      assert SlotOk(s, i);
    }
  }

  lemma ClaimInv(s: State, p: nat)
    requires Inv(s) && Enabled(s, Claim(p))
    ensures Inv(Step(s, Claim(p)))
  {
    hide OutOk; hide Record; hide Writers; hide Slots;
    var s', q := Step(s, Claim(p)), s.producers[p].seqNo;
    BusySet(s.producers, p, s'.producers[p]);
    OutLater(s, s');
    ClaimSlots(s, p);
  }

  lemma ClaimSlots(s: State, p: nat)
    requires Inv(s) && Enabled(s, Claim(p))
    ensures Writers(Step(s, Claim(p))) && Slots(Step(s, Claim(p)))
  {
    hide OutOk; hide Record; hide Accounted; hide ConsumerOk;
    var s' := Step(s, Claim(p));
    forall r | 0 <= r < |s'.producers| && s'.producers[r].Writing?
      ensures WriterOk(s', r)
    {
      if r != p {
        assert WriterOk(s, r);
      }
    }
    forall i | 0 <= i < RING
      ensures SlotOk(s', i)
    {
      assert SlotOk(s, i);
    }
  }

  lemma WriteInv(s: State, p: nat)
    requires Inv(s) && Enabled(s, Write(p))
    ensures Inv(Step(s, Write(p)))
  {
    hide OutOk;
    var s', q, k := Step(s, Write(p)), s.producers[p].seqNo, s.producers[p].done;
    var i := SlotOf(q);
    assert WriterOk(s, p);
    BusySet(s.producers, p, s'.producers[p]);
    OutLater(s, s');
    forall r | 0 <= r < |s'.producers| && s'.producers[r].Writing?
      ensures WriterOk(s', r)
    {
      if r != p {
        assert WriterOk(s, r);
      } else {
        assert s'.ring[i][..k + 1] == s.ring[i][..k] + [Word(q, Stamp(s, q), k)];
        assert Record(q, Stamp(s, q))[..k + 1] == Record(q, Stamp(s, q))[..k] + [Word(q, Stamp(s, q), k)];
      }
    }
    forall j | 0 <= j < RING
      ensures SlotOk(s', j)
    {
      assert SlotOk(s, j);
    }
  }

  lemma PublishInv(s: State, p: nat)
    requires Inv(s) && Enabled(s, Publish(p))
    ensures Inv(Step(s, Publish(p)))
  {
    hide OutOk;
    var s', q := Step(s, Publish(p)), s.producers[p].seqNo;
    assert WriterOk(s, p);
    assert s.ring[SlotOf(q)] == s.ring[SlotOf(q)][..WORDS] == Record(q, Stamp(s, q))[..WORDS] == Record(q, Stamp(s, q));
    BusySet(s.producers, p, s'.producers[p]);
    OutLater(s, s');
    forall r | 0 <= r < |s'.producers| && s'.producers[r].Writing?
      ensures WriterOk(s', r)
    {
      assert WriterOk(s, r);
    }
    forall j | 0 <= j < RING
      ensures SlotOk(s', j)
    {
      assert SlotOk(s, j);
    }
  }

  // Leaving with a result touches no slot.
  lemma LeaveInv(s: State, op: Op)
    requires Inv(s) && Enabled(s, op) && (op.Drop? || op.Count?)
    ensures Inv(Step(s, op))
  {
    hide OutOk; hide Record;
    var s' := Step(s, op);
    BusySet(s.producers, op.p, Idle);
    OutLater(s, s');
    forall r | 0 <= r < |s'.producers| && s'.producers[r].Writing?
      ensures WriterOk(s', r)
    {
      assert WriterOk(s, r);
    }
    forall j | 0 <= j < RING
      ensures SlotOk(s', j)
    {
      assert SlotOk(s, j);
    }
  }

  lemma ConsumerInv(s: State, op: Op)
    requires Inv(s) && Enabled(s, op) && (op.Poll? || op.Copy?)
    ensures Inv(Step(s, op))
  {
    hide OutOk; hide Record;
    var s' := Step(s, op);
    OutLater(s, s');
    forall r | 0 <= r < |s'.producers| && s'.producers[r].Writing?
      ensures WriterOk(s', r)
    {
      assert WriterOk(s, r);
    }
    forall j | 0 <= j < RING
      ensures SlotOk(s', j)
    {
      assert SlotOk(s, j);
    }
  }

  lemma ClearInv(s: State)
    requires Inv(s) && Enabled(s, Clear)
    ensures Inv(Step(s, Clear))
    ensures Step(s, Clear).out[s.drainPos] ==
      Record(s.owner[SlotOf(s.drainPos + 1)], Stamp(s, s.owner[SlotOf(s.drainPos + 1)]))
  {
    hide Record; hide Whole;
    var s', i := Step(s, Clear), SlotOf(s.drainPos + 1);
    assert SlotOk(s, i);
    assert s.ring[i][..WORDS] == s.ring[i];
    forall r | 0 <= r < |s'.producers| && s'.producers[r].Writing?
      ensures WriterOk(s', r)
    {
      assert WriterOk(s, r);
    }
    forall j | 0 <= j < RING
      ensures SlotOk(s', j)
    {
      assert SlotOk(s, j);
    }
    WholeRecord(s', s.owner[i], s.drainPos + 1);
    forall j | 0 <= j < |s'.out|
      ensures Whole(s', s'.out[j], j + 1)
    {
      if j < s.drainPos {
        WholeLater(s, s', s.out[j], j + 1);
      }
    }
  }

  lemma WholeRecord(s: State, q: nat, n: nat)
    requires 0 < q <= |s.stamps| && SlotOf(q) == SlotOf(n)
    ensures Whole(s, Record(q, Stamp(s, q)), n)
  {
  }

  lemma StepInv(s: State, op: Op)
    requires Inv(s) && Enabled(s, op)
    ensures Inv(Step(s, op))
  {
    hide Inv; hide Step; hide Enabled;
    InvShape(s);
    match op
    case Issue(p, m) => IssueInv(s, p, m);
    case Claim(p) => ClaimInv(s, p);
    case Drop(p) => LeaveInv(s, op);
    case Write(p) => WriteInv(s, p);
    case Publish(p) => PublishInv(s, p);
    case Count(p) => LeaveInv(s, op);
    case Poll => ConsumerInv(s, op);
    case Copy => ConsumerInv(s, op);
    case Clear => ClearInv(s);
  }

  lemma InvShape(s: State)
    requires Inv(s)
    ensures Shape(s)
  {
  }

  // ----- Runs -----

  ghost predicate Runs(s: State, ops: seq<Op>)
    decreases |ops|
  {
    ops == [] || (Shape(s) && Enabled(s, ops[0]) && Runs(Step(s, ops[0]), ops[1..]))
  }

  ghost function After(s: State, ops: seq<Op>): (r: State)
    requires Runs(s, ops)
    decreases |ops|
  {
    if ops == [] then s else After(Step(s, ops[0]), ops[1..])
  }

  lemma {:induction false} RunInv(s: State, ops: seq<Op>)
    requires Inv(s) && Runs(s, ops)
    ensures Inv(After(s, ops))
    decreases |ops|
  {
    hide Inv; hide Step; hide Enabled;
    if ops != [] {
      StepInv(s, ops[0]);
      RunInv(Step(s, ops[0]), ops[1..]);
    }
  }

  // In every run each drained record is one that was stamped, whole, under a
  // number congruent to its position; and issued = accepted + dropped + undecided.
  lemma Integrity(s: State, ops: seq<Op>)
    requires IsInitial(s) && Runs(s, ops)
    ensures var e := After(s, ops);
      && |e.out| == e.drainPos && (forall i | 0 <= i < |e.out| :: Whole(e, e.out[i], i + 1))
      && e.counter == e.stamped + e.drops + Busy(e.producers)
  {
    hide Runs; hide After; hide Whole; hide Busy;
    InitialInv(s);
    RunInv(s, ops);
  }

  // ----- Within the window -----

  ghost predicate InWindow(s: State) {
    s.counter <= s.drainPos + RING
  }

  // Every number that holds a slot is still to be drained.
  ghost predicate Pending(s: State)
    requires Shape(s)
  {
    && s.drops == 0 && s.drainPos <= s.counter
    && (forall i | 0 <= i < RING && s.flags[i] != EMPTY :: s.drainPos < s.owner[i])
    && (forall p | 0 <= p < |s.producers| && s.producers[p].Numbered? ::
          s.drainPos < s.producers[p].seqNo && s.flags[SlotOf(s.producers[p].seqNo)] == EMPTY)
    && (forall p | 0 <= p < |s.producers| :: !s.producers[p].Refused?)
    && Ordered(s)
  }

  // Position by position, the records of 1, 2, 3, ...
  ghost predicate Ordered(s: State) {
    forall i | 0 <= i < |s.out| :: IsRecord(s, s.out[i], i + 1)
  }

  ghost predicate IsRecord(s: State, r: seq<nat>, q: nat) {
    0 < q <= |s.stamps| && r == Record(q, Stamp(s, q))
  }

  lemma OrderedLater(s: State, s': State)
    requires Ordered(s) && s.stamps <= s'.stamps && s'.out == s.out
    ensures Ordered(s')
  {
    hide IsRecord;
    forall i | 0 <= i < |s'.out|
      ensures IsRecord(s', s'.out[i], i + 1)
    {
      RecordLater(s, s', s.out[i], i + 1);
    }
  }

  lemma RecordLater(s: State, s': State, r: seq<nat>, q: nat)
    requires s.stamps <= s'.stamps && IsRecord(s, r, q)
    ensures IsRecord(s', r, q)
  {
  }

  // Two numbers of one slot within the window are the same.
  lemma SameSlot(d: nat, q: nat, r: nat)
    requires d < q <= d + RING && d < r <= d + RING && SlotOf(q) == SlotOf(r)
    ensures q == r
  {
    if q < r {
      SlotsDiffer(q, r, RING);
    } else if r < q {
      SlotsDiffer(r, q, RING);
    }
  }

  lemma PendingIssue(s: State, p: nat, m: Message)
    requires Inv(s) && Pending(s) && Enabled(s, Issue(p, m)) && InWindow(Step(s, Issue(p, m)))
    ensures Pending(Step(s, Issue(p, m)))
  {
    hide Record; hide OutOk; hide Writers; hide Ordered;
    OrderedLater(s, Step(s, Issue(p, m)));
    var q := s.counter + 1;
    if s.flags[SlotOf(q)] != EMPTY {
      assert SlotOk(s, SlotOf(q));
      SameSlot(s.drainPos, q, s.owner[SlotOf(q)]);
      assert false;
    }
  }

  lemma PendingClaim(s: State, p: nat)
    requires Inv(s) && Pending(s) && Enabled(s, Claim(p)) && InWindow(s)
    ensures Pending(Step(s, Claim(p)))
  {
    hide Record; hide OutOk; hide Writers; hide SlotOf; hide Ordered; hide Slots;
    OrderedLater(s, Step(s, Claim(p)));
    var q := s.producers[p].seqNo;
    forall r | 0 <= r < |s.producers| && r != p && s.producers[r].Numbered?
      ensures SlotOf(s.producers[r].seqNo) != SlotOf(q)
    {
      if SlotOf(s.producers[r].seqNo) == SlotOf(q) {
        SameSlot(s.drainPos, q, s.producers[r].seqNo);
      }
    }
  }

  lemma PendingClear(s: State)
    requires Inv(s) && Pending(s) && Enabled(s, Clear) && InWindow(s)
    ensures Pending(Step(s, Clear))
  {
    hide Record; hide OutOk; hide Writers; hide SlotOf; hide Ordered;
    var s', i := Step(s, Clear), SlotOf(s.drainPos + 1);
    assert SlotOk(s, i);
    SameSlot(s.drainPos, s.owner[i], s.drainPos + 1);
    ClearInv(s);
    OutLength(s);
    OrderedNext(s, s');
    forall j | 0 <= j < RING && s'.flags[j] != EMPTY
      ensures s'.drainPos < s'.owner[j]
    {
      assert SlotOk(s, j);
    }
  }

  lemma OrderedNext(s: State, s': State)
    requires Ordered(s) && s'.stamps == s.stamps && |s'.out| == |s.out| + 1 && s'.out[..|s.out|] == s.out
    requires IsRecord(s, s'.out[|s.out|], |s.out| + 1)
    ensures Ordered(s')
  {
    hide IsRecord;
    forall i | 0 <= i < |s'.out|
      ensures IsRecord(s', s'.out[i], i + 1)
    {
      if i < |s.out| {
        assert s'.out[i] == s'.out[..|s.out|][i];
        RecordLater(s, s', s.out[i], i + 1);
      } else {
        RecordLater(s, s', s'.out[i], i + 1);
      }
    }
  }

  lemma OutLength(s: State)
    requires OutOk(s)
    ensures |s.out| == s.drainPos
  {
  }

  lemma PendingStep(s: State, op: Op)
    requires Inv(s) && Pending(s) && Enabled(s, op) && InWindow(s) && InWindow(Step(s, op))
    ensures Pending(Step(s, op))
  {
    hide Record; hide OutOk; hide Writers; hide Numbers; hide Slots; hide Ordered; hide SlotOf;
    if !op.Clear? {
      OrderedLater(s, Step(s, op));
    }
    match op
    case Issue(p, m) => PendingIssue(s, p, m);
    case Claim(p) => PendingClaim(s, p);
    case Publish(p) => PendingPublish(s, p);
    case Clear => PendingClear(s);
    case _ =>
  }

  lemma PendingPublish(s: State, p: nat)
    requires Inv(s) && Pending(s) && Enabled(s, Publish(p))
    ensures Pending(Step(s, Publish(p)))
  {
    hide Record; hide OutOk; hide SlotOf; hide Ordered;
    OrderedLater(s, Step(s, Publish(p)));
    assert WriterOk(s, p);
  }

  // The counter never leads the drain position by more than the ring size.
  ghost predicate StaysInWindow(s: State, ops: seq<Op>)
    requires Runs(s, ops)
    decreases |ops|
  {
    InWindow(s) && (ops == [] || StaysInWindow(Step(s, ops[0]), ops[1..]))
  }

  lemma {:induction false} RunPending(s: State, ops: seq<Op>)
    requires Inv(s) && Pending(s) && Runs(s, ops) && StaysInWindow(s, ops)
    ensures Shape(After(s, ops)) && Pending(After(s, ops))
    decreases |ops|
  {
    hide Inv; hide Step; hide Enabled; hide Pending; hide InWindow;
    InvShape(s);
    if ops != [] {
      WindowHead(Step(s, ops[0]), ops[1..]);
      StepInv(s, ops[0]);
      PendingStep(s, ops[0]);
      RunPending(Step(s, ops[0]), ops[1..]);
    }
  }

  lemma WindowHead(s: State, ops: seq<Op>)
    requires Runs(s, ops) && StaysInWindow(s, ops)
    ensures InWindow(s)
  {
  }

  // Within the window nothing is dropped, and the drain delivers the records of
  // 1, 2, 3, ... with the stamped messages.
  lemma InSequence(s: State, ops: seq<Op>)
    requires IsInitial(s) && Runs(s, ops) && StaysInWindow(s, ops)
    ensures var e := After(s, ops);
      && e.drops == 0 && |e.out| == e.drainPos <= |e.stamps|
      && forall i | 0 <= i < |e.out| ::
        e.out[i] == Record(i + 1, e.stamps[i]) && Carries(e.out[i], i + 1, e.stamps[i])
  {
    hide Runs; hide After; hide StaysInWindow; hide Record; hide Numbers; hide Writers; hide Slots;
    InitialInv(s);
    RunInv(s, ops);
    RunPending(s, ops);
    var e := After(s, ops);
    forall i | 0 <= i < |e.out|
      ensures e.out[i] == Record(i + 1, e.stamps[i]) && Carries(e.out[i], i + 1, e.stamps[i])
    {
      assert IsRecord(e, e.out[i], i + 1);
      RecordCarries(i + 1, e.stamps[i]);
    }
  }
}
