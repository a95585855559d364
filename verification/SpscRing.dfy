/**
 The single-producer single-consumer ring: each side loads the other's index,
 copies items and then publishes its own index, in separate steps that
 interleave freely.
 */
module SpscRing {
  import opened RingIndex

  // Where the producer is in a push of `items`: it has loaded the read index
  // `seen`, or has copied the first `done` of the items it can fit.
  datatype Producer<T> = Ready | Loaded(items: seq<T>, seen: nat) | Copying(items: seq<T>, done: nat)

  // Where the consumer is in a pop of up to `max` items.
  datatype Consumer<T> = Waiting | Looked(max: nat, seen: nat) | Reading(want: nat, got: seq<T>)

  // `pushed` and `popped` remember every item published and taken.
  datatype Ring<T> = Ring(cap: nat, writePos: nat, readPos: nat, data: seq<T>, producer: Producer<T>,
                          consumer: Consumer<T>, pushed: seq<T>, popped: seq<T>)

  function Min(a: nat, b: nat): (r: nat) {
    if a < b then a else b
  }

  // How many of `count` items fit, by the loaded read index.
  function Fits<T>(r: Ring<T>, seen: nat, count: nat): (n: nat)
    ensures n <= count && n <= r.cap
  {
    if seen <= r.writePos <= seen + r.cap then Min(count, r.cap - (r.writePos - seen)) else 0
  }

  function Available<T>(r: Ring<T>, seen: nat, max: nat): (n: nat)
    ensures n <= max && r.readPos + n <= (if seen < r.readPos then r.readPos else seen)
  {
    if r.readPos <= seen then Min(max, seen - r.readPos) else 0
  }

  // ----- Steps -----

  datatype Op<T> = LoadRead(items: seq<T>) | StartPush | CopyIn | PublishWrite
                 | LoadWrite(max: nat) | StartPop | CopyOut | PublishRead

  predicate Enabled<T>(r: Ring<T>, op: Op<T>) {
    match op
    case LoadRead(items) => r.producer.Ready?
    case StartPush => r.producer.Loaded?
    case CopyIn => r.producer.Copying? && r.producer.done < |r.producer.items|
    case PublishWrite => r.producer.Copying? && r.producer.done == |r.producer.items|
    case LoadWrite(max) => r.consumer.Waiting?
    case StartPop => r.consumer.Looked?
    case CopyOut => r.consumer.Reading? && |r.consumer.got| < r.consumer.want
    case PublishRead => r.consumer.Reading? && |r.consumer.got| == r.consumer.want
  }

  predicate Shape<T>(r: Ring<T>) {
    r.cap > 0 && |r.data| == r.cap
  }

  function Step<T>(r: Ring<T>, op: Op<T>): (r': Ring<T>)
    requires Shape(r) && Enabled(r, op)
  {
    match op
    case LoadRead(items) => r.(producer := Loaded(items, r.readPos))
    case StartPush => r.(producer := Copying(r.producer.items[..Fits(r, r.producer.seen, |r.producer.items|)], 0))
    case CopyIn =>
      var p := r.producer;
      r.(producer := Copying(p.items, p.done + 1), data := r.data[Slot(r.writePos + p.done, r.cap) := p.items[p.done]])
    case PublishWrite =>
      r.(producer := Ready, writePos := r.writePos + |r.producer.items|, pushed := r.pushed + r.producer.items)
    case LoadWrite(max) => r.(consumer := Looked(max, r.writePos))
    case StartPop => r.(consumer := Reading(Available(r, r.consumer.seen, r.consumer.max), []))
    case CopyOut =>
      var c := r.consumer;
      r.(consumer := Reading(c.want, c.got + [r.data[Slot(r.readPos + |c.got|, r.cap)]]))
    case PublishRead =>
      r.(consumer := Waiting, readPos := r.readPos + r.consumer.want, popped := r.popped + r.consumer.got)
  }

  ghost predicate IsInitial<T>(r: Ring<T>) {
    Shape(r) && r.writePos == r.readPos == 0 && r.pushed == r.popped == [] && r.producer == Ready
      && r.consumer == Waiting
  }

  // ----- The invariant -----

  // Occupancy is between 0 and the capacity, and what was popped is the front
  // of what was pushed.
  ghost predicate Counts<T>(r: Ring<T>) {
    && r.readPos == |r.popped| <= r.writePos == |r.pushed| <= r.readPos + r.cap
    && r.popped <= r.pushed
  }

  ghost predicate Holds<T>(r: Ring<T>, n: nat, x: T)
    requires Shape(r)
  {
    r.data[Slot(n, r.cap)] == x
  }

  // Every unread item is still in its slot.
  ghost predicate Unread<T>(r: Ring<T>)
    requires Shape(r)
  {
    forall n | r.readPos <= n < |r.pushed| :: Holds(r, n, r.pushed[n])
  }

  ghost predicate ProducerOk<T>(r: Ring<T>)
    requires Shape(r)
  {
    match r.producer
    case Ready => true
    case Loaded(items, seen) => seen <= r.readPos
    case Copying(items, done) =>
      && done <= |items| && r.writePos + |items| <= r.readPos + r.cap
      && forall k | 0 <= k < done :: Holds(r, r.writePos + k, items[k])
  }

  ghost predicate ConsumerOk<T>(r: Ring<T>) {
    match r.consumer
    case Waiting => true
    case Looked(max, seen) => seen <= r.writePos
    case Reading(want, got) =>
      && |got| <= want && r.readPos + want <= r.writePos <= |r.pushed|
      && got == r.pushed[r.readPos..r.readPos + |got|]
  }

  ghost predicate Inv<T>(r: Ring<T>) {
    Shape(r) && Counts(r) && Unread(r) && ProducerOk(r) && ConsumerOk(r)
  }

  lemma InitialInv<T>(r: Ring<T>)
    requires IsInitial(r)
    ensures Inv(r)
  {
  }

  lemma CopyInInv<T>(r: Ring<T>)
    requires Inv(r) && Enabled(r, CopyIn)
    ensures Inv(Step(r, CopyIn))
  {
    hide Slot;
    var r', p := Step(r, CopyIn), r.producer;
    forall n | r'.readPos <= n < |r'.pushed|
      ensures Holds(r', n, r'.pushed[n])
    {
      assert Holds(r, n, r.pushed[n]);
      SlotsDiffer(n, r.writePos + p.done, r.cap);
    }
    forall k | 0 <= k < p.done + 1
      ensures Holds(r', r'.writePos + k, p.items[k])
    {
      if k < p.done {
        assert Holds(r, r.writePos + k, p.items[k]);
        SlotsDiffer(r.writePos + k, r.writePos + p.done, r.cap);
      }
    }
  }

  lemma PublishWriteInv<T>(r: Ring<T>)
    requires Inv(r) && Enabled(r, PublishWrite)
    ensures Inv(Step(r, PublishWrite))
  {
    hide Slot;
    var r', p := Step(r, PublishWrite), r.producer;
    forall n | r'.readPos <= n < |r'.pushed|
      ensures Holds(r', n, r'.pushed[n])
    {
      if n < |r.pushed| {
        assert Holds(r, n, r.pushed[n]);
      } else {
        var k: nat := n - |r.pushed|;
        assert Holds(r, r.writePos + k, p.items[k]);
      }
    }
    assert r.consumer.Reading? ==>
      r'.pushed[r.readPos..r.readPos + |r.consumer.got|] == r.pushed[r.readPos..r.readPos + |r.consumer.got|];
  }

  lemma CopyOutInv<T>(r: Ring<T>)
    requires Inv(r) && Enabled(r, CopyOut)
    ensures Inv(Step(r, CopyOut))
  {
    hide Slot;
    var r', n := Step(r, CopyOut), r.readPos + |r.consumer.got|;
    assert Holds(r, n, r.pushed[n]);
    assert r.pushed[r.readPos..n + 1] == r.pushed[r.readPos..n] + [r.pushed[n]];
    SameUnread(r, r');
  }

  // Steps that write no slot.
  lemma SameUnread<T>(r: Ring<T>, r': Ring<T>)
    requires Shape(r) && Unread(r) && r'.cap == r.cap && r'.data == r.data && r'.pushed == r.pushed
      && r.readPos <= r'.readPos
    ensures Unread(r')
  {
    hide Slot;
    forall n | r'.readPos <= n < |r'.pushed|
      ensures Holds(r', n, r'.pushed[n])
    {
      assert Holds(r, n, r.pushed[n]);
    }
  }

  lemma SameProducer<T>(r: Ring<T>, r': Ring<T>)
    requires Shape(r) && Shape(r') && ProducerOk(r) && r'.producer == r.producer && r'.data == r.data && r'.cap == r.cap
    requires r'.writePos == r.writePos && r.readPos <= r'.readPos
    ensures ProducerOk(r')
  {
    hide Slot;
    if r.producer.Copying? {
      forall k | 0 <= k < r.producer.done
        ensures Holds(r', r'.writePos + k, r.producer.items[k])
      {
        assert Holds(r, r.writePos + k, r.producer.items[k]);
      }
    }
  }

  lemma PublishReadInv<T>(r: Ring<T>)
    requires Inv(r) && Enabled(r, PublishRead)
    ensures Inv(Step(r, PublishRead))
  {
    hide Slot; hide Unread; hide ProducerOk;
    var r' := Step(r, PublishRead);
    SameUnread(r, r');
    SameProducer(r, r');
    assert r.popped + r.pushed[r.readPos..r.readPos + r.consumer.want] == r.pushed[..r.readPos + r.consumer.want];
  }

  // Loading an index or sizing the copy from it.
  lemma LookInv<T>(r: Ring<T>, op: Op<T>)
    requires Inv(r) && Enabled(r, op) && (op.LoadRead? || op.StartPush? || op.LoadWrite? || op.StartPop?)
    ensures Inv(Step(r, op))
  {
    hide Slot; hide Unread;
    var r' := Step(r, op);
    SameUnread(r, r');
    if op.LoadWrite? || op.StartPop? {
      SameProducer(r, r');
    }
  }

  lemma StepInv<T>(r: Ring<T>, op: Op<T>)
    requires Inv(r) && Enabled(r, op)
    ensures Inv(Step(r, op))
  {
    hide Slot; hide Unread; hide Counts; hide ProducerOk; hide ConsumerOk;
    match op
    case LoadRead(items) => LookInv(r, op);
    case StartPush => LookInv(r, op);
    case CopyIn => CopyInInv(r);
    case PublishWrite => PublishWriteInv(r);
    case LoadWrite(max) => LookInv(r, op);
    case StartPop => LookInv(r, op);
    case CopyOut => CopyOutInv(r);
    case PublishRead => PublishReadInv(r);
  }

  // ----- Runs -----

  ghost predicate Runs<T>(r: Ring<T>, ops: seq<Op<T>>)
    decreases |ops|
  {
    ops == [] || (Shape(r) && Enabled(r, ops[0]) && Runs(Step(r, ops[0]), ops[1..]))
  }

  ghost function After<T>(r: Ring<T>, ops: seq<Op<T>>): (e: Ring<T>)
    requires Runs(r, ops)
    decreases |ops|
  {
    if ops == [] then r else After(Step(r, ops[0]), ops[1..])
  }

  lemma {:induction false} RunInv<T>(r: Ring<T>, ops: seq<Op<T>>)
    requires Inv(r) && Runs(r, ops)
    ensures Inv(After(r, ops))
    decreases |ops|
  {
    hide Inv; hide Step; hide Enabled;
    if ops != [] {
      StepInv(r, ops[0]);
      RunInv(Step(r, ops[0]), ops[1..]);
    }
  }

  // In every interleaving the popped items are a prefix of the pushed ones, the
  // occupancy stays within the capacity, and every unread item is in its slot.
  lemma FifoAndBounded<T>(r: Ring<T>, ops: seq<Op<T>>)
    requires IsInitial(r) && Runs(r, ops)
    ensures var e := After(r, ops);
      && e.popped <= e.pushed && |e.popped| == e.readPos <= e.writePos == |e.pushed| <= e.readPos + e.cap
      && Shape(e) && Unread(e)
  {
    hide Runs; hide After; hide Unread;
    InitialInv(r);
    RunInv(r, ops);
  }

  // ----- One item at a time, on one pair of indices -----

  datatype Pushed<T> = Pushed(data: seq<T>, writePos: nat, count: nat)

  function PushOne<T>(data: seq<T>, w: nat, r: nat, x: T): (p: Pushed<T>) {
    if |data| == 0 || w - r >= |data| then Pushed(data, w, 0) else Pushed(data[Slot(w, |data|) := x], w + 1, 1)
  }

  // Single pushes of the items in turn, all against the same read index.
  function PushEach<T>(data: seq<T>, w: nat, r: nat, xs: seq<T>): (p: Pushed<T>)
    decreases |xs|
  {
    if xs == [] then Pushed(data, w, 0)
    else
      var one := PushOne(data, w, r, xs[0]);
      var rest := PushEach(one.data, one.writePos, r, xs[1..]);
      rest.(count := one.count + rest.count)
  }

  datatype Popped<T> = Popped(items: seq<T>, readPos: nat)

  function PopOne<T>(data: seq<T>, r: nat, w: nat): (p: Popped<T>) {
    if |data| == 0 || r >= w then Popped([], r) else Popped([data[Slot(r, |data|)]], r + 1)
  }

  // Up to `max` single pops, all against the same write index.
  function PopEach<T>(data: seq<T>, r: nat, w: nat, max: nat): (p: Popped<T>)
    decreases max
  {
    if max == 0 then Popped([], r)
    else
      var one := PopOne(data, r, w);
      var rest := PopEach(data, one.readPos, w, max - 1);
      rest.(items := one.items + rest.items)
  }

  // A full ring takes nothing more.
  lemma {:induction false} PushEachFull<T>(data: seq<T>, w: nat, r: nat, xs: seq<T>)
    requires w - r >= |data| > 0
    ensures PushEach(data, w, r, xs) == Pushed(data, w, 0)
    decreases |xs|
  {
    if xs != [] {
      PushEachFull(data, w, r, xs[1..]);
    }
  }

  lemma {:induction false} PopEachEmpty<T>(data: seq<T>, r: nat, w: nat, max: nat)
    requires r >= w
    ensures PopEach(data, r, w, max) == Popped([], r)
    decreases max
  {
    if max > 0 {
      PopEachEmpty(data, r, w, max - 1);
    }
  }

  // ----- The items between two positions -----

  function Span<T>(data: seq<T>, r: nat, w: nat): (q: seq<T>)
    requires |data| > 0 && r <= w
  {
    seq(w - r, i requires 0 <= i < w - r => data[Slot(r + i, |data|)])
  }

  lemma SpanPush<T>(data: seq<T>, r: nat, w: nat, x: T)
    requires r <= w < r + |data|
    ensures Span(data[Slot(w, |data|) := x], r, w + 1) == Span(data, r, w) + [x]
  {
    hide Slot;
    var was, now := Span(data, r, w), Span(data[Slot(w, |data|) := x], r, w + 1);
    forall i | 0 <= i < w - r
      ensures now[i] == was[i]
    {
      SlotsDiffer(r + i, w, |data|);
    }
  }

  lemma SpanPop<T>(data: seq<T>, r: nat, w: nat)
    requires |data| > 0 && r < w
    ensures Span(data, r, w) == [data[Slot(r, |data|)]] + Span(data, r + 1, w)
  {
    hide Slot;
  }

  // Single pushes append as many of the items as there is room for.
  lemma {:induction false} PushEachAppends<T>(data: seq<T>, w: nat, r: nat, xs: seq<T>)
    requires |data| > 0 && r <= w <= r + |data|
    ensures var p, n := PushEach(data, w, r, xs), Min(|xs|, |data| - (w - r));
      && |p.data| == |data| && p.count == n && p.writePos == w + n
      && Span(p.data, r, p.writePos) == Span(data, r, w) + xs[..n]
    decreases |xs|
  {
    hide Slot; hide Span; hide PushEach;
    if xs == [] {
      PushEachNone(data, w, r);
      assert Span(data, r, w) + [] == Span(data, r, w);
    } else if w - r == |data| {
      PushEachFull(data, w, r, xs);
      assert Span(data, r, w) + xs[..0] == Span(data, r, w);
    } else {
      assert xs[0..] == xs;
      PushEachStep(data, w, r, xs, 0);
      SpanPush(data, r, w, xs[0]);
      PushEachAppends(data[Slot(w, |data|) := xs[0]], w + 1, r, xs[1..]);
      var n := Min(|xs|, |data| - (w - r));
      assert [xs[0]] + xs[1..][..n - 1] == xs[..n];
    }
  }

  // Single pops take items off the front.
  lemma {:induction false} PopEachTakes<T>(data: seq<T>, r: nat, w: nat, max: nat)
    requires |data| > 0 && r <= w
    ensures var p, n := PopEach(data, r, w, max), Min(max, w - r);
      && p.readPos == r + n && |Span(data, r, w)| == w - r
      && p.items == Span(data, r, w)[..n] && Span(data, p.readPos, w) == Span(data, r, w)[n..]
    decreases max
  {
    hide Slot; hide PopEach;
    if max == 0 {
      PopEachNone(data, r, w);
    } else if r == w {
      PopEachEmpty(data, r, w, max);
    } else {
      PopEachStep(data, r, w, max);
      SpanPop(data, r, w);
      PopEachTakes(data, r + 1, w, max - 1);
    }
  }

  class RingBuffer<T(0)> {
    const data: array<T>
    var writePos: nat
    var readPos: nat

    ghost predicate Valid()
      reads this
    {
      data.Length > 0 && readPos <= writePos <= readPos + data.Length
    }

    // The queued items, oldest first.
    ghost function Contents(): (q: seq<T>)
      requires Valid()
      reads this, data
    {
      Span(data[..], readPos, writePos)
    }

    constructor (capacity: nat)
      requires capacity > 0
      ensures Valid() && data.Length == capacity && readPos == writePos == 0 && fresh(data) && Contents() == []
    {
      data := new T[capacity];
      readPos, writePos := 0, 0;
    }

    // Joins the end of the queue unless the ring is full.
    method TryPush(x: T) returns (ok: bool)
      requires Valid()
      modifies this, data
      ensures Valid() && readPos == old(readPos)
      ensures ok <==> |old(Contents())| < data.Length
      ensures Contents() == if ok then old(Contents()) + [x] else old(Contents())
      ensures Pushed(data[..], writePos, if ok then 1 else 0) == PushOne(old(data[..]), old(writePos), readPos, x)
    {
      hide Slot;
      var w, r := writePos, readPos;
      if w - r >= data.Length {
        return false;
      }
      SpanPush(data[..], r, w, x);
      data[Slot(w, data.Length)] := x;
      writePos := w + 1;
      return true;
    }

    // Takes the oldest item unless the ring is empty.
    method TryPop() returns (ok: bool, x: T)
      requires Valid()
      modifies this
      ensures Valid() && writePos == old(writePos)
      ensures ok <==> old(Contents()) != []
      ensures old(Contents()) == if ok then [x] + Contents() else Contents()
      ensures Popped(if ok then [x] else [], readPos) == PopOne(data[..], old(readPos), writePos)
    {
      hide Slot;
      var r, w := readPos, writePos;
      x := data[Slot(r, data.Length)];
      if r >= w {
        return false, x;
      }
      SpanPop(data[..], r, w);
      readPos := r + 1;
      return true, x;
    }

    // Copies as many items as fit and publishes the index once: the same as
    // pushing them one by one.
    method TryPushBatch(items: seq<T>) returns (n: nat)
      requires Valid()
      modifies this, data
      ensures Valid() && readPos == old(readPos)
      ensures Pushed(data[..], writePos, n) == PushEach(old(data[..]), old(writePos), readPos, items)
      ensures n == Min(|items|, data.Length - |old(Contents())|) && Contents() == old(Contents()) + items[..n]
    {
      hide Slot; hide PushEach;
      var w, r := writePos, readPos;
      var available := data.Length - (w - r);
      n := Min(|items|, available);
      ghost var goal := PushEach(data[..], w, r, items);
      PushEachAppends(data[..], w, r, items);
      assert items[0..] == items;
      for i := 0 to n
        invariant goal == Pushed(PushEach(data[..], w + i, r, items[i..]).data,
                                 PushEach(data[..], w + i, r, items[i..]).writePos,
                                 i + PushEach(data[..], w + i, r, items[i..]).count)
        invariant writePos == w && readPos == r
      {
        PushEachStep(data[..], w + i, r, items, i);
        data[Slot(w + i, data.Length)] := items[i];
      }
      if n < |items| {
        PushEachFull(data[..], w + n, r, items[n..]);
      } else {
        assert items[n..] == [];
        PushEachNone(data[..], w + n, r);
      }
      writePos := w + n;
    }

    // Copies out as many items as there are, up to `max`: the same as popping
    // them one by one.
    method TryPopBatch(max: nat) returns (items: seq<T>)
      requires Valid()
      modifies this
      ensures Valid() && writePos == old(writePos)
      ensures Popped(items, readPos) == PopEach(data[..], old(readPos), writePos, max)
      ensures |items| == Min(max, |old(Contents())|) && old(Contents()) == items + Contents()
    {
      hide Slot; hide PopEach;
      var r, w := readPos, writePos;
      var n := Min(max, w - r);
      ghost var goal := PopEach(data[..], r, w, max);
      PopEachTakes(data[..], r, w, max);
      items := [];
      for i := 0 to n
        invariant |items| == i
        invariant goal ==
          Popped(items + PopEach(data[..], r + i, w, max - i).items, PopEach(data[..], r + i, w, max - i).readPos)
        invariant writePos == w && readPos == r
      {
        PopEachStep(data[..], r + i, w, max - i);
        items := items + [data[Slot(r + i, data.Length)]];
      }
      if n < max {
        PopEachEmpty(data[..], r + n, w, max - n);
      } else {
        PopEachNone(data[..], r + n, w);
      }
      assert items + [] == items;
      readPos := r + n;
    }
  }

  lemma PushEachStep<T>(data: seq<T>, w: nat, r: nat, xs: seq<T>, i: nat)
    requires |data| > 0 && w - r < |data| && i < |xs|
    ensures var rest := PushEach(data[Slot(w, |data|) := xs[i]], w + 1, r, xs[i + 1..]);
      PushEach(data, w, r, xs[i..]) == rest.(count := 1 + rest.count)
  {
    assert xs[i..][0] == xs[i] && xs[i..][1..] == xs[i + 1..];
  }

  lemma PushEachNone<T>(data: seq<T>, w: nat, r: nat)
    ensures PushEach(data, w, r, []) == Pushed(data, w, 0)
  {
  }

  lemma PopEachStep<T>(data: seq<T>, r: nat, w: nat, max: nat)
    requires |data| > 0 && r < w && max > 0
    ensures var rest := PopEach(data, r + 1, w, max - 1);
      PopEach(data, r, w, max) == rest.(items := [data[Slot(r, |data|)]] + rest.items)
  {
  }

  lemma PopEachNone<T>(data: seq<T>, r: nat, w: nat)
    ensures PopEach(data, r, w, 0) == Popped([], r)
  {
  }
}
