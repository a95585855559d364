/**
 The multi-producer single-consumer queue: producers claim the head index by
 compare-and-swap after a check against the tail, fill the slot word by word
 and raise its flag; the consumer waits for the flag of the tail slot.  Every
 load, store, compare-and-swap and word copied is one step, for any number of
 producers and any capacity, in any interleaving.
 */
module MpscQueue {
  import opened RingIndex

  // Words per item.
  const WORDS: nat := 8

  type Item = seq<nat>

  // A producer's place in try_push.  `since` is the number of claims made when
  // it last read the head; the code knows only the index.
  datatype Producer =
    | Idle
    | Loaded(item: Item, index: nat, since: nat)
    | Checked(item: Item, index: nat, since: nat)
    | Writing(item: Item, claim: nat, done: nat)

  // The consumer's place in try_pop.
  datatype Consumer = Resting | Spinning | Copying(got: seq<nat>) | Cleared(got: seq<nat>)

  // `items` remembers the item of every claim and `out` what was popped.
  datatype State = State(cap: nat, head: nat, tail: nat, filled: seq<bool>, buffer: seq<seq<nat>>,
                         producers: seq<Producer>, consumer: Consumer, items: seq<Item>, out: seq<Item>)

  // ----- Steps -----

  datatype Op =
    | Load(p: nat, item: Item)
    | Check(p: nat)
    | Cas(p: nat, spurious: bool)
    | Write(p: nat)
    | Fill(p: nat)
    | Look
    | Spin
    | Copy
    | Unfill
    | Advance

  predicate Enabled(s: State, op: Op) {
    match op
    case Load(p, item) => p < |s.producers| && s.producers[p].Idle? && |item| == WORDS
    case Check(p) => p < |s.producers| && s.producers[p].Loaded?
    case Cas(p, spurious) => p < |s.producers| && s.producers[p].Checked?
    case Write(p) => p < |s.producers| && s.producers[p].Writing? && s.producers[p].done < WORDS
    case Fill(p) => p < |s.producers| && s.producers[p].Writing? && s.producers[p].done == WORDS
    case Look => s.consumer.Resting?
    case Spin => s.consumer.Spinning?
    case Copy => s.consumer.Copying? && |s.consumer.got| < WORDS
    case Unfill => s.consumer.Copying? && |s.consumer.got| == WORDS
    case Advance => s.consumer.Cleared?
  }

  ghost predicate Shape(s: State) {
    && s.cap >= 2 && s.head < s.cap && s.tail < s.cap && |s.filled| == |s.buffer| == s.cap
    && (forall i | 0 <= i < s.cap :: |s.buffer[i]| == WORDS)
    && (forall n | 0 <= n < |s.items| :: |s.items[n]| == WORDS)
    && forall p | 0 <= p < |s.producers| && !s.producers[p].Idle? :: |s.producers[p].item| == WORDS
  }

  ghost function Set(s: State, p: nat, x: Producer): (r: State)
    requires p < |s.producers|
  {
    s.(producers := s.producers[p := x])
  }

  ghost function Step(s: State, op: Op): (r: State)
    requires Shape(s) && Enabled(s, op)
  {
    match op
    case Load(p, item) => Set(s, p, Loaded(item, s.head, |s.items|))
    case Check(p) =>
      var x := s.producers[p];
      // The full queue makes the push fail.
      if Next(x.index, s.cap) == s.tail then Set(s, p, Idle) else Set(s, p, Checked(x.item, x.index, x.since))
    case Cas(p, spurious) =>
      var x := s.producers[p];
      if s.head == x.index && !spurious
      then Set(s, p, Writing(x.item, |s.items|, 0)).(head := Next(x.index, s.cap), items := s.items + [x.item])
      else Set(s, p, Loaded(x.item, s.head, |s.items|))
    case Write(p) =>
      var x := s.producers[p];
      var i := Slot(x.claim, s.cap);
      var row := Put(s.buffer[i], x.done, x.item[x.done]);
      Set(s, p, Writing(x.item, x.claim, x.done + 1)).(buffer := s.buffer[i := row])
    case Fill(p) => Set(s, p, Idle).(filled := s.filled[Slot(s.producers[p].claim, s.cap) := true])
    case Look => if s.tail == s.head then s else s.(consumer := Spinning)
    case Spin => if s.filled[s.tail] then s.(consumer := Copying([])) else s
    case Copy => s.(consumer := Copying(s.consumer.got + [s.buffer[s.tail][|s.consumer.got|]]))
    case Unfill => s.(consumer := Cleared(s.consumer.got), filled := s.filled[s.tail := false])
    case Advance => s.(consumer := Resting, tail := Next(s.tail, s.cap), out := s.out + [s.consumer.got])
  }

  // Fewer than a lap of claims were made since the producer read the head.
  ghost predicate Timely(s: State, op: Op)
    requires Enabled(s, op)
  {
    op.Cas? ==> |s.items| - s.producers[op.p].since < s.cap
  }

  ghost predicate IsInitial(s: State) {
    && Shape(s) && s.head == s.tail == 0 && s.items == [] && s.out == [] && s.consumer == Resting
    && (forall i | 0 <= i < s.cap :: !s.filled[i]) && forall p | 0 <= p < |s.producers| :: s.producers[p] == Idle
  }

  // ----- The invariant -----

  // Head and tail are claims and pops modulo the capacity, less than a lap apart.
  ghost predicate Indices(s: State) {
    && s.cap > 0 && |s.out| <= |s.items| < |s.out| + s.cap
    && s.head == Slot(|s.items|, s.cap) && s.tail == Slot(|s.out|, s.cap)
  }

  // What a producer knows from its loads.
  ghost predicate Knows(s: State, x: Producer) {
    match x
    case Idle => true
    case Loaded(item, index, since) => s.cap > 0 && since <= |s.items| && index == Slot(since, s.cap)
    case Checked(item, index, since) =>
      s.cap > 0 && since <= |s.items| && index == Slot(since, s.cap) && since + 1 < |s.out| + s.cap
    case Writing(item, claim, done) => |s.out| <= claim < |s.items| && done <= WORDS && s.items[claim] == item
  }

  // A writer's slot is not yet raised and holds the front of its item.
  ghost predicate WriterOk(s: State, p: nat)
    requires Shape(s) && p < |s.producers| && s.producers[p].Writing?
  {
    var x := s.producers[p];
    var i := Slot(x.claim, s.cap);
    x.done <= WORDS && !s.filled[i] && s.buffer[i][..x.done] == x.item[..x.done]
    && (s.consumer.Cleared? ==> x.claim != |s.out|)
  }

  ghost predicate Producers(s: State)
    requires Shape(s)
  {
    && (forall p | 0 <= p < |s.producers| :: Knows(s, s.producers[p]))
    && (forall p | 0 <= p < |s.producers| && s.producers[p].Writing? :: WriterOk(s, p))
    && forall p, r | 0 <= p < r < |s.producers| && s.producers[p].Writing? && s.producers[r].Writing? ::
         s.producers[p].claim != s.producers[r].claim
  }

  // A raised slot holds the whole item of a claim not yet popped.
  ghost predicate Raised(s: State, n: nat)
    requires Shape(s) && n < |s.items|
  {
    s.filled[Slot(n, s.cap)] ==> s.buffer[Slot(n, s.cap)] == s.items[n]
  }

  ghost predicate Claims(s: State)
    requires Shape(s)
  {
    && (forall n | |s.out| <= n < |s.items| :: Raised(s, n))
    && forall n | |s.items| <= n < |s.out| + s.cap :: !s.filled[Slot(n, s.cap)]
  }

  ghost predicate ConsumerOk(s: State)
    requires Shape(s)
  {
    match s.consumer
    case Resting => true
    case Spinning => |s.out| < |s.items|
    case Copying(got) =>
      |s.out| < |s.items| && |got| <= WORDS && s.filled[s.tail] && got == s.items[|s.out|][..|got|]
    case Cleared(got) => |s.out| < |s.items| && !s.filled[s.tail] && got == s.items[|s.out|]
  }

  // What was popped is what was claimed, in claim order.
  ghost predicate Inv(s: State) {
    Shape(s) && Indices(s) && Producers(s) && Claims(s) && ConsumerOk(s) && s.out <= s.items
  }

  lemma InitialInv(s: State)
    requires IsInitial(s)
    ensures Inv(s)
  {
  }

  // ----- Each step keeps it -----

  // Claims of the current lap have slots of their own.
  lemma Apart(s: State, a: nat, b: nat)
    requires s.cap > 0 && |s.out| <= a < |s.out| + s.cap && |s.out| <= b < |s.out| + s.cap && a != b
    ensures Slot(a, s.cap) != Slot(b, s.cap)
  {
    if a < b {
      SlotsDiffer(a, b, s.cap);
    } else {
      SlotsDiffer(b, a, s.cap);
    }
  }

  // A producer that only changes what it knows.
  lemma LocalInv(s: State, p: nat, x: Producer)
    requires Inv(s) && p < |s.producers| && Knows(s, x) && !x.Writing? && (x.Idle? || |x.item| == WORDS)
    ensures Inv(Set(s, p, x))
  {
    hide Slot; hide Indices; hide Claims; hide ConsumerOk;
    var s' := Set(s, p, x);
    forall r | 0 <= r < |s'.producers|
      ensures Knows(s', s'.producers[r])
    {
      assert r != p ==> Knows(s, s.producers[r]);
    }
    forall r | 0 <= r < |s'.producers| && s'.producers[r].Writing?
      ensures WriterOk(s', r)
    {
      assert WriterOk(s, r);
    }
    SameClaims(s, s');
  }

  lemma SameClaims(s: State, s': State)
    requires Shape(s) && Shape(s') && s' == s.(producers := s'.producers)
    ensures Claims(s) == Claims(s') && ConsumerOk(s) == ConsumerOk(s') && Indices(s) == Indices(s')
  {
    hide Slot;
    assert forall n | 0 <= n < |s.items| :: Raised(s, n) == Raised(s', n);
  }

  lemma CheckInv(s: State, p: nat)
    requires Inv(s) && Enabled(s, Check(p))
    ensures Inv(Step(s, Check(p)))
  {
    hide Slot; hide Claims; hide ConsumerOk;
    var x := s.producers[p];
    assert Knows(s, x);
    if Next(x.index, s.cap) == s.tail {
      LocalInv(s, p, Idle);
    } else {
      if x.since + 1 >= |s.out| + s.cap {
        SlotNext(x.since, s.cap);
        LapSlot(|s.out|, s.cap);
        assert false;
      }
      LocalInv(s, p, Checked(x.item, x.index, x.since));
    }
  }

  // A timely compare-and-swap succeeds only if nobody claimed in between.
  lemma CasNoLap(s: State, p: nat)
    requires Inv(s) && p < |s.producers| && s.producers[p].Checked? && |s.items| - s.producers[p].since < s.cap
    ensures s.head == s.producers[p].index <==> s.producers[p].since == |s.items|
  {
    hide Slot; hide Claims; hide ConsumerOk;
    var x := s.producers[p];
    assert Knows(s, x);
    if x.since < |s.items| {
      SlotsDiffer(x.since, |s.items|, s.cap);
    }
  }

  // The compare-and-swap of this producer would succeed.
  ghost predicate CanClaim(s: State, p: nat) {
    p < |s.producers| && s.producers[p].Checked? && s.head == s.producers[p].index
  }

  lemma ClaimInv(s: State, p: nat)
    requires Inv(s) && CanClaim(s, p) && |s.items| + 1 < |s.out| + s.cap
    ensures Shape(s) && Inv(Step(s, Cas(p, false)))
  {
    hide Slot; hide ConsumerOk; hide Claims; hide Producers;
    var x, s' := s.producers[p], Step(s, Cas(p, false));
    ProducerKnows(s, p);
    SlotNext(|s.items|, s.cap);
    ClaimClaims(s, p);
    ClaimProducers(s, p);
    ClaimConsumer(s, s');
  }

  lemma ProducerKnows(s: State, p: nat)
    requires Shape(s) && Producers(s) && p < |s.producers|
    ensures Knows(s, s.producers[p])
  {
  }

  lemma ClaimConsumer(s: State, s': State)
    requires Shape(s) && ConsumerOk(s) && Shape(s') && s.items <= s'.items
    requires s'.consumer == s.consumer && s'.out == s.out && s'.tail == s.tail && s'.filled == s.filled
    ensures ConsumerOk(s')
  {
  }

  lemma ClaimClaims(s: State, p: nat)
    requires Inv(s) && CanClaim(s, p) && |s.items| + 1 < |s.out| + s.cap
    ensures Shape(Step(s, Cas(p, false))) && Claims(Step(s, Cas(p, false)))
  {
    hide Slot; hide ConsumerOk;
    var s' := Step(s, Cas(p, false));
    ProducerKnows(s, p);
    assert !s.filled[Slot(|s.items|, s.cap)];
    forall n | |s'.out| <= n < |s'.items|
      ensures Raised(s', n)
    {
      if n < |s.items| {
        assert Raised(s, n);
      }
    }
  }

  lemma ClaimProducers(s: State, p: nat)
    requires Inv(s) && CanClaim(s, p) && |s.items| + 1 < |s.out| + s.cap
    ensures Shape(Step(s, Cas(p, false))) && Producers(Step(s, Cas(p, false)))
  {
    hide Slot;
    var s' := Step(s, Cas(p, false));
    ProducerKnows(s, p);
    assert !s.filled[Slot(|s.items|, s.cap)];
    forall r | 0 <= r < |s'.producers|
      ensures Knows(s', s'.producers[r])
    {
      if r != p {
        assert Knows(s, s.producers[r]);
      }
    }
    forall r | 0 <= r < |s'.producers| && s'.producers[r].Writing?
      ensures WriterOk(s', r) && (r != p ==> s'.producers[r].claim < |s.items|)
    {
      if r != p {
        assert WriterOk(s, r) && Knows(s, s.producers[r]);
      }
    }
  }

  // The test a producer makes, on the current indices.
  predicate Full(s: State) {
    Next(s.head, s.cap) == s.tail
  }

  // The queue looks empty to the consumer although claimed items are in it.
  ghost predicate Lost(s: State) {
    s.head == s.tail && |s.out| < |s.items|
  }

  lemma FullCount(s: State)
    requires Shape(s) && Indices(s)
    ensures Full(s) <==> |s.items| + 1 == |s.out| + s.cap
  {
    hide Slot;
    SlotNext(|s.items|, s.cap);
    if |s.items| + 1 < |s.out| + s.cap {
      SlotsDiffer(|s.out|, |s.items| + 1, s.cap);
    } else {
      LapSlot(|s.out|, s.cap);
    }
  }

  // Equal slots are a whole number of laps apart.
  lemma {:induction false} WholeLaps(a: nat, b: nat, cap: nat)
    requires cap > 0 && a <= b && Slot(a, cap) == Slot(b, cap)
    ensures Slot(b - a, cap) == 0
    decreases b
  {
    if b - a >= cap {
      WholeLaps(a, b - cap, cap);
    } else if a < b {
      SlotsDiffer(a, b, cap);
    }
  }

  // A successful claim loses items exactly if the queue is full by then.  That
  // takes one or more whole laps of claims since the producer read the head: the
  // index is then the same again, although the check was made long ago.  In
  // every other case a slot stays free and the claim keeps the invariant.
  lemma ClaimSafe(s: State, p: nat)
    requires Inv(s) && CanClaim(s, p)
    ensures var s', since := Step(s, Cas(p, false)), s.producers[p].since;
      && (Lost(s') <==> Full(s)) && (Inv(s') <==> !Full(s)) && (!Full(s) ==> s'.head != s'.tail)
      && (Full(s) ==> since < |s.items| && Slot(|s.items| - since, s.cap) == 0)
      && (Full(s) && s'.consumer.Resting? ==> Step(s', Look) == s')
  {
    hide Slot; hide Producers; hide Claims; hide ConsumerOk;
    FullCount(s);
    ProducerKnows(s, p);
    SlotNext(|s.items|, s.cap);
    if Full(s) {
      WholeLaps(s.producers[p].since, |s.items|, s.cap);
      LapSlot(|s.out|, s.cap);
    } else {
      ClaimInv(s, p);
      SlotsDiffer(|s.out|, |s.items| + 1, s.cap);
    }
  }

  lemma CasInv(s: State, p: nat, spurious: bool)
    requires Inv(s) && Enabled(s, Cas(p, spurious)) && Timely(s, Cas(p, spurious))
    ensures Inv(Step(s, Cas(p, spurious)))
  {
    hide Slot; hide Producers; hide Claims; hide ConsumerOk;
    CasNoLap(s, p);
    ProducerKnows(s, p);
    if s.head == s.producers[p].index && !spurious {
      ClaimInv(s, p);
    } else {
      LocalInv(s, p, Loaded(s.producers[p].item, s.head, |s.items|));
    }
  }

  lemma WriteInv(s: State, p: nat)
    requires Inv(s) && Enabled(s, Write(p))
    ensures Inv(Step(s, Write(p)))
  {
    hide Slot; hide Claims; hide Producers;
    var s' := Step(s, Write(p));
    WriteProducers(s, p);
    WriteClaims(s, p);
  }

  lemma WriteClaims(s: State, p: nat)
    requires Inv(s) && Enabled(s, Write(p))
    ensures Shape(Step(s, Write(p))) && Claims(Step(s, Write(p)))
  {
    hide Slot; hide ConsumerOk;
    var s', x := Step(s, Write(p)), s.producers[p];
    assert WriterOk(s, p) && Knows(s, x);
    forall n | |s'.out| <= n < |s'.items|
      ensures Raised(s', n)
    {
      assert Raised(s, n);
      if n != x.claim {
        Apart(s, n, x.claim);
      }
    }
  }

  lemma WriteProducers(s: State, p: nat)
    requires Inv(s) && Enabled(s, Write(p))
    ensures Shape(Step(s, Write(p))) && Producers(Step(s, Write(p)))
  {
    hide Slot; hide ConsumerOk; hide Claims;
    var s', x := Step(s, Write(p)), s.producers[p];
    var i := Slot(x.claim, s.cap);
    assert WriterOk(s, p) && Knows(s, x);
    forall r | 0 <= r < |s'.producers|
      ensures Knows(s', s'.producers[r])
    {
      assert Knows(s, s.producers[r]);
    }
    forall r | 0 <= r < |s'.producers| && s'.producers[r].Writing?
      ensures WriterOk(s', r)
    {
      if r != p {
        assert WriterOk(s, r) && Knows(s, s.producers[r]);
        Apart(s, s.producers[r].claim, x.claim);
      } else {
        assert s'.buffer[i][..x.done + 1] == s.buffer[i][..x.done] + [x.item[x.done]];
        assert x.item[..x.done + 1] == x.item[..x.done] + [x.item[x.done]];
      }
    }
  }

  lemma FillClaims(s: State, p: nat)
    requires Inv(s) && Enabled(s, Fill(p))
    ensures Shape(Step(s, Fill(p))) && Claims(Step(s, Fill(p))) && ConsumerOk(Step(s, Fill(p)))
  {
    hide Slot;
    var s', x := Step(s, Fill(p)), s.producers[p];
    var i := Slot(x.claim, s.cap);
    assert WriterOk(s, p) && Knows(s, x);
    assert s.buffer[i] == s.buffer[i][..WORDS] && x.item[..WORDS] == x.item;
    forall n | |s'.out| <= n < |s'.items|
      ensures Raised(s', n)
    {
      assert Raised(s, n);
      if n != x.claim {
        Apart(s, n, x.claim);
      }
    }
    forall n | |s'.items| <= n < |s'.out| + s.cap
      ensures !s'.filled[Slot(n, s.cap)]
    {
      Apart(s, n, x.claim);
    }
    if s.consumer.Cleared? {
      Apart(s, |s.out|, x.claim);
    }
  }

  lemma FillProducers(s: State, p: nat)
    requires Inv(s) && Enabled(s, Fill(p))
    ensures Shape(Step(s, Fill(p))) && Producers(Step(s, Fill(p)))
  {
    hide Slot; hide Claims; hide ConsumerOk;
    var s', x := Step(s, Fill(p)), s.producers[p];
    assert WriterOk(s, p) && Knows(s, x);
    forall r | 0 <= r < |s'.producers|
      ensures Knows(s', s'.producers[r])
    {
      assert Knows(s, s.producers[r]);
    }
    forall r | 0 <= r < |s'.producers| && s'.producers[r].Writing?
      ensures WriterOk(s', r)
    {
      assert WriterOk(s, r) && Knows(s, s.producers[r]);
      Apart(s, s.producers[r].claim, x.claim);
    }
  }

  lemma FillInv(s: State, p: nat)
    requires Inv(s) && Enabled(s, Fill(p))
    ensures Inv(Step(s, Fill(p)))
  {
    hide Slot; hide Claims; hide ConsumerOk; hide Producers;
    ProducerClaims(s, p);
    FillProducers(s, p);
    FillClaims(s, p);
  }

  lemma ProducerClaims(s: State, p: nat)
    requires Inv(s) && p < |s.producers| && s.producers[p].Writing?
    ensures s.producers[p].claim < |s.items|
  {
    assert Knows(s, s.producers[p]);
  }

  // The consumer looking, spinning or copying changes nothing shared.
  lemma ReadInv(s: State, op: Op)
    requires Inv(s) && Enabled(s, op) && (op.Look? || op.Spin? || op.Copy?)
    ensures Inv(Step(s, op))
  {
    hide Slot; hide Producers; hide Claims;
    var s' := Step(s, op);
    if op.Copy? {
      CopyWord(s);
    }
    SameProducers(s, s');
  }

  lemma CopyWord(s: State)
    requires Inv(s) && Enabled(s, Copy)
    ensures s.buffer[s.tail] == s.items[|s.out|]
    ensures var g := s.consumer.got; g + [s.items[|s.out|][|g|]] == s.items[|s.out|][..|g| + 1]
  {
    assert Raised(s, |s.out|);
  }

  lemma SameProducers(s: State, s': State)
    requires Shape(s) && Shape(s') && s' == s.(consumer := s'.consumer) && !s'.consumer.Cleared?
    ensures Producers(s) ==> Producers(s')
    ensures Claims(s) ==> Claims(s')
  {
    hide Slot;
    if Producers(s) {
      forall r | 0 <= r < |s'.producers|
        ensures Knows(s', s'.producers[r])
      {
        assert Knows(s, s.producers[r]);
      }
      forall r | 0 <= r < |s'.producers| && s'.producers[r].Writing?
        ensures WriterOk(s', r)
      {
        assert WriterOk(s, r);
      }
    }
    assert forall n | 0 <= n < |s.items| :: Raised(s, n) == Raised(s', n);
  }

  lemma UnfillInv(s: State)
    requires Inv(s) && Enabled(s, Unfill)
    ensures Inv(Step(s, Unfill))
  {
    hide Slot;
    var s' := Step(s, Unfill);
    assert s.items[|s.out|][..WORDS] == s.items[|s.out|];
    forall r | 0 <= r < |s'.producers|
      ensures Knows(s', s'.producers[r])
    {
      assert Knows(s, s.producers[r]);
    }
    forall r | 0 <= r < |s'.producers| && s'.producers[r].Writing?
      ensures WriterOk(s', r)
    {
      assert WriterOk(s, r);
    }
    forall n | |s'.out| <= n < |s'.items|
      ensures Raised(s', n)
    {
      assert Raised(s, n);
    }
  }

  lemma AdvanceInv(s: State)
    requires Inv(s) && Enabled(s, Advance)
    ensures Inv(Step(s, Advance))
  {
    hide Slot;
    var s' := Step(s, Advance);
    SlotNext(|s.out|, s.cap);
    LapSlot(|s.out|, s.cap);
    forall r | 0 <= r < |s'.producers|
      ensures Knows(s', s'.producers[r])
    {
      assert Knows(s, s.producers[r]);
      if s.producers[r].Writing? {
        assert WriterOk(s, r);
      }
    }
    forall r | 0 <= r < |s'.producers| && s'.producers[r].Writing?
      ensures WriterOk(s', r)
    {
      assert WriterOk(s, r);
    }
    forall n | |s'.out| <= n < |s'.items|
      ensures Raised(s', n)
    {
      assert Raised(s, n);
    }
  }

  lemma StepInv(s: State, op: Op)
    requires Inv(s) && Enabled(s, op) && Timely(s, op)
    ensures Inv(Step(s, op))
  {
    hide Indices; hide Producers; hide Claims; hide ConsumerOk;
    match op
    case Load(p, item) => LoadInv(s, p, item);
    case Check(p) => CheckInv(s, p);
    case Cas(p, spurious) => CasInv(s, p, spurious);
    case Write(p) => WriteInv(s, p);
    case Fill(p) => FillInv(s, p);
    case Look => ReadInv(s, op);
    case Spin => ReadInv(s, op);
    case Copy => ReadInv(s, op);
    case Unfill => UnfillInv(s);
    case Advance => AdvanceInv(s);
  }

  lemma LoadInv(s: State, p: nat, item: Item)
    requires Inv(s) && Enabled(s, Load(p, item))
    ensures Inv(Step(s, Load(p, item)))
  {
    hide Producers; hide Claims; hide ConsumerOk; hide Slot;
    LocalInv(s, p, Loaded(item, s.head, |s.items|));
  }

  // ----- Runs -----

  ghost predicate Runs(s: State, ops: seq<Op>)
    decreases |ops|
  {
    ops == [] || (Shape(s) && Enabled(s, ops[0]) && Runs(Step(s, ops[0]), ops[1..]))
  }

  ghost function After(s: State, ops: seq<Op>): (r: State)
    requires Runs(s, ops)
    decreases |ops|
  {
    if ops == [] then s else After(Step(s, ops[0]), ops[1..])
  }

  // Every compare-and-swap of the run comes within a lap of its load.
  ghost predicate InTime(s: State, ops: seq<Op>)
    requires Runs(s, ops)
    decreases |ops|
  {
    ops == [] || (Timely(s, ops[0]) && InTime(Step(s, ops[0]), ops[1..]))
  }

  lemma {:induction false} RunInv(s: State, ops: seq<Op>)
    requires Inv(s) && Runs(s, ops) && InTime(s, ops)
    ensures Inv(After(s, ops))
    decreases |ops|
  {
    hide Inv; hide Step; hide Enabled; hide Timely;
    if ops != [] {
      StepInv(s, ops[0]);
      RunInv(Step(s, ops[0]), ops[1..]);
    }
  }

  // In every run whose producers claim within a lap, the items popped are the
  // items claimed, whole and in claim order, and no unread slot is claimed again.
  lemma PopsInClaimOrder(s: State, ops: seq<Op>)
    requires IsInitial(s) && Runs(s, ops) && InTime(s, ops)
    ensures var e := After(s, ops); e.out <= e.items && |e.items| < |e.out| + e.cap && !Lost(e)
  {
    hide Runs; hide After; hide InTime; hide Slot; hide Producers; hide Claims; hide ConsumerOk;
    InitialInv(s);
    RunInv(s, ops);
    var e := After(s, ops);
    if |e.out| < |e.items| {
      SlotsDiffer(|e.out|, |e.items|, e.cap);
    }
  }

  // ----- A producer that sleeps for a lap -----

  ghost predicate Reaches(s: State, ops: seq<Op>, t: State) {
    Runs(s, ops) && After(s, ops) == t
  }

  lemma {:induction false} Then(s: State, a: seq<Op>, t: State, b: seq<Op>, u: State)
    requires Reaches(s, a, t) && Reaches(t, b, u)
    ensures Reaches(s, a + b, u)
    decreases |a|
  {
    hide Step; hide Enabled;
    if a == [] {
      assert a + b == b;
    } else {
      assert (a + b)[1..] == a[1..] + b;
      Then(Step(s, a[0]), a[1..], t, b, u);
    }
  }

  lemma ThenStep(s: State, a: seq<Op>, t: State, op: Op)
    requires Reaches(s, a, t) && Shape(t) && Enabled(t, op)
    ensures Reaches(s, a + [op], Step(t, op))
  {
    hide Step; hide Enabled; hide Shape;
    var one := [op];
    assert one[0] == op && one[1..] == [];
    assert Runs(Step(t, op), []) && Runs(t, one);
    assert After(t, one) == After(Step(t, op), []);
    Then(s, a, t, [op], Step(t, op));
  }

  // The rest of a producer's words.
  lemma {:induction false} WriteRest(s: State, p: nat) returns (ops: seq<Op>, t: State)
    requires Inv(s) && p < |s.producers| && s.producers[p].Writing? && s.producers[p].done <= WORDS
    ensures Reaches(s, ops, t) && Inv(t)
    ensures t == Set(s, p, s.producers[p].(done := WORDS)).(buffer := t.buffer)
    decreases WORDS - s.producers[p].done
  {
    hide Inv; hide Slot; hide Reaches;
    ops, t := [], s;
    Nowhere(s);
    if s.producers[p].done < WORDS {
      InvShape(s);
      StepInv(s, Write(p));
      ThenStep(s, [], s, Write(p));
      var rest, u := WriteRest(Step(s, Write(p)), p);
      Then(s, [] + [Write(p)], Step(s, Write(p)), rest, u);
      ops, t := [] + [Write(p)] + rest, u;
    }
  }

  lemma Nowhere(s: State)
    ensures Reaches(s, [], s)
  {
  }

  lemma InvShape(s: State)
    requires Inv(s)
    ensures Shape(s) && Indices(s) && s.out <= s.items
  {
  }

  // Producer 1 pushes an item.
  lemma PushOnce(s: State) returns (ops: seq<Op>, t: State)
    requires Inv(s) && |s.producers| >= 2 && s.producers[1].Idle? && |s.items| + 1 < |s.out| + s.cap
    ensures Reaches(s, ops, t) && Inv(t) && |t.items| == |s.items| + 1 && |t.filled| == s.cap > 0
    ensures t == s.(head := t.head, items := t.items, filled := t.filled, buffer := t.buffer)
    ensures t.filled[Slot(|s.items|, s.cap)]
  {
    hide Inv; hide Slot; hide Reaches; hide Next;
    Nowhere(s);
    InvShape(s);
    FullCount(s);
    var item := seq(WORDS, i => 0);
    StepInv(s, Load(1, item));
    ThenStep(s, [], s, Load(1, item));
    var s1 := Step(s, Load(1, item));
    InvShape(s1);
    StepInv(s1, Check(1));
    ThenStep(s, [] + [Load(1, item)], s1, Check(1));
    var s2 := Step(s1, Check(1));
    InvShape(s2);
    ClaimInv(s2, 1);
    ThenStep(s, [] + [Load(1, item)] + [Check(1)], s2, Cas(1, false));
    var s3 := Step(s2, Cas(1, false));
    var words, s4 := WriteRest(s3, 1);
    Then(s, [] + [Load(1, item)] + [Check(1)] + [Cas(1, false)], s3, words, s4);
    InvShape(s4);
    StepInv(s4, Fill(1));
    ThenStep(s, [] + [Load(1, item)] + [Check(1)] + [Cas(1, false)] + words, s4, Fill(1));
    t := Step(s4, Fill(1));
    ops := [] + [Load(1, item)] + [Check(1)] + [Cas(1, false)] + words + [Fill(1)];
  }

  lemma {:induction false} PushMany(s: State, k: nat) returns (ops: seq<Op>, t: State)
    requires Inv(s) && |s.producers| >= 2 && s.producers[1].Idle? && |s.items| + k < |s.out| + s.cap
    ensures Reaches(s, ops, t) && Inv(t) && |t.items| == |s.items| + k
    ensures t == s.(head := t.head, items := t.items, filled := t.filled, buffer := t.buffer)
    decreases k
  {
    hide Inv; hide Slot; hide Reaches;
    Nowhere(s);
    ops, t := [], s;
    if k > 0 {
      var one, s1 := PushOnce(s);
      var rest, u := PushMany(s1, k - 1);
      Then(s, one, s1, rest, u);
      ops, t := one + rest, u;
    }
  }

  // The rest of the words of the item being read.
  lemma {:induction false} CopyRest(s: State) returns (ops: seq<Op>, t: State)
    requires Inv(s) && s.consumer.Copying? && |s.consumer.got| <= WORDS
    ensures Reaches(s, ops, t) && Inv(t)
    ensures t == s.(consumer := t.consumer) && t.consumer.Copying? && |t.consumer.got| == WORDS
    decreases WORDS - |s.consumer.got|
  {
    hide Inv; hide Slot; hide Reaches;
    ops, t := [], s;
    Nowhere(s);
    if |s.consumer.got| < WORDS {
      InvShape(s);
      StepInv(s, Copy);
      ThenStep(s, [], s, Copy);
      var rest, u := CopyRest(Step(s, Copy));
      Then(s, [] + [Copy], Step(s, Copy), rest, u);
      ops, t := [] + [Copy] + rest, u;
    }
  }

  // The consumer pops a raised item.
  lemma PopOnce(s: State) returns (ops: seq<Op>, t: State)
    requires Inv(s) && s.consumer.Resting? && |s.out| < |s.items| && |s.filled| == s.cap > 0
      && s.filled[Slot(|s.out|, s.cap)]
    ensures Reaches(s, ops, t) && Inv(t) && |t.out| == |s.out| + 1
    ensures t == s.(tail := t.tail, filled := t.filled, out := t.out)
  {
    hide Inv; hide Slot; hide Reaches; hide Next;
    Nowhere(s);
    InvShape(s);
    SlotsDiffer(|s.out|, |s.items|, s.cap);
    StepInv(s, Look);
    ThenStep(s, [], s, Look);
    var s1 := Step(s, Look);
    InvShape(s1);
    StepInv(s1, Spin);
    ThenStep(s, [] + [Look], s1, Spin);
    var s2 := Step(s1, Spin);
    var words, s3 := CopyRest(s2);
    Then(s, [] + [Look] + [Spin], s2, words, s3);
    InvShape(s3);
    StepInv(s3, Unfill);
    ThenStep(s, [] + [Look] + [Spin] + words, s3, Unfill);
    var s4 := Step(s3, Unfill);
    InvShape(s4);
    StepInv(s4, Advance);
    ThenStep(s, [] + [Look] + [Spin] + words + [Unfill], s4, Advance);
    t := Step(s4, Advance);
    ops := [] + [Look] + [Spin] + words + [Unfill] + [Advance];
  }

  // Producer 0 has made its check.
  lemma Sleeps(s: State) returns (ops: seq<Op>, t: State)
    requires IsInitial(s) && |s.producers| >= 2
    ensures Reaches(s, ops, t) && Inv(t) && t.items == [] && t.out == [] && t.cap == s.cap && t.consumer == Resting
    ensures |t.producers| >= 2 && t.producers[1] == Idle && t.producers[0].Checked? && t.producers[0].index == 0
  {
    hide Inv; hide Slot; hide Reaches;
    Nowhere(s);
    InitialInv(s);
    var item := seq(WORDS, i => 0);
    StepInv(s, Load(0, item));
    ThenStep(s, [], s, Load(0, item));
    var s1 := Step(s, Load(0, item));
    InvShape(s1);
    StepInv(s1, Check(0));
    ThenStep(s, [] + [Load(0, item)], s1, Check(0));
    t := Step(s1, Check(0));
    ops := [] + [Load(0, item)] + [Check(0)];
  }

  // With two producers every queue can lose items: one checks and sleeps while
  // the other pushes a lap and the consumer pops one item; its compare-and-swap
  // then succeeds on the full queue, and all cap items left in it look popped.
  lemma LapLosesItems(s: State) returns (ops: seq<Op>)
    requires IsInitial(s) && |s.producers| >= 2
    ensures Runs(s, ops)
    ensures var e := After(s, ops);
      Lost(e) && |e.items| == s.cap + 1 && |e.out| == 1 && e.consumer.Resting? && Shape(e) && Step(e, Look) == e
  {
    hide Inv; hide Slot; hide Runs; hide After; hide Next; hide Shape;
    var a, s1 := Sleeps(s);
    InvShape(s1);
    AtLeastTwo(s1);
    var b, s2 := PushOnce(s1);
    Then(s, a, s1, b, s2);
    var c, s3 := PopOnce(s2);
    Then(s, a + b, s2, c, s3);
    var d, s4 := PushMany(s3, s.cap - 1);
    Then(s, a + b + c, s3, d, s4);
    InvShape(s4);
    AtLeastTwo(s4);
    FullCount(s4);
    LapSlot(0, s.cap);
    SlotZero(s.cap);
    ClaimSafe(s4, 0);
    ThenStep(s, a + b + c + d, s4, Cas(0, false));
    ops := a + b + c + d + [Cas(0, false)];
    ClaimShape(s4, 0);
  }

  lemma AtLeastTwo(s: State)
    requires Shape(s)
    ensures s.cap >= 2
  {
  }

  lemma SlotZero(cap: nat)
    requires cap > 0
    ensures Slot(0, cap) == 0
  {
  }

  lemma ClaimShape(s: State, p: nat)
    requires Shape(s) && CanClaim(s, p)
    ensures Shape(Step(s, Cas(p, false)))
  {
  }
}
