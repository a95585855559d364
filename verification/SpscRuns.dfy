/**
 One side of the ring on its own: from every reachable state, wherever the other
 side stands, a whole push puts in what fits and a whole pop takes what is there.
 */
module SpscRuns {
  import opened RingIndex
  import opened SpscRing

  ghost predicate Reaches<T>(r: Ring<T>, ops: seq<Op<T>>, t: Ring<T>) {
    Runs(r, ops) && After(r, ops) == t
  }

  lemma {:induction false} Then<T>(r: Ring<T>, a: seq<Op<T>>, t: Ring<T>, b: seq<Op<T>>, u: Ring<T>)
    requires Reaches(r, a, t) && Reaches(t, b, u)
    ensures Reaches(r, a + b, u)
    decreases |a|
  {
    hide Step; hide Enabled;
    if a == [] {
      assert a + b == b;
    } else {
      assert (a + b)[1..] == a[1..] + b;
      Then(Step(r, a[0]), a[1..], t, b, u);
    }
  }

  lemma Once<T>(r: Ring<T>, op: Op<T>)
    requires Shape(r) && Enabled(r, op)
    ensures Reaches(r, [op], Step(r, op))
  {
    hide Step; hide Enabled; hide Shape;
    var one := [op];
    assert one[0] == op && one[1..] == [];
    assert Runs(Step(r, op), []) && Runs(r, one);
    assert After(r, one) == After(Step(r, op), []);
  }

  function Repeat<T>(op: Op<T>, n: nat): (ops: seq<Op<T>>) {
    if n == 0 then [] else [op] + Repeat(op, n - 1)
  }

  lemma RingFacts<T>(r: Ring<T>)
    requires Inv(r)
    ensures Shape(r) && r.readPos == |r.popped| <= r.writePos == |r.pushed| <= r.readPos + r.cap && r.popped <= r.pushed
  {
  }

  // The rest of a copy in, published.
  lemma {:induction false} FinishPush<T>(r: Ring<T>) returns (t: Ring<T>)
    requires Inv(r) && r.producer.Copying? && r.producer.done <= |r.producer.items|
    ensures Reaches(r, Repeat(CopyIn, |r.producer.items| - r.producer.done) + [PublishWrite], t) && Inv(t)
    ensures t == r.(producer := Ready, writePos := t.writePos, data := t.data, pushed := r.pushed + r.producer.items)
    decreases |r.producer.items| - r.producer.done
  {
    hide Inv; hide Slot; hide Reaches;
    RingFacts(r);
    if r.producer.done == |r.producer.items| {
      Once(r, PublishWrite);
      StepInv(r, PublishWrite);
      t := Step(r, PublishWrite);
      assert Repeat<T>(CopyIn, 0) + [PublishWrite] == [PublishWrite];
    } else {
      var r1 := Step(r, CopyIn);
      Once(r, CopyIn);
      StepInv(r, CopyIn);
      t := FinishPush(r1);
      var rest := Repeat<T>(CopyIn, |r1.producer.items| - r1.producer.done) + [PublishWrite];
      Then(r, [CopyIn], r1, rest, t);
      assert Repeat<T>(CopyIn, |r.producer.items| - r.producer.done) + [PublishWrite] == [CopyIn] + rest;
    }
  }

  // A push puts in as many of its items as there are free slots, in order.
  lemma PushAlone<T>(r: Ring<T>, items: seq<T>) returns (t: Ring<T>)
    requires Inv(r) && r.producer.Ready?
    ensures var room := r.cap - (|r.pushed| - |r.popped|);
      && 0 <= room
      && var n := Min(|items|, room);
        && Reaches(r, [LoadRead(items)] + ([StartPush] + (Repeat(CopyIn, n) + [PublishWrite])), t) && Inv(t)
        && t == r.(writePos := t.writePos, data := t.data, pushed := r.pushed + items[..n])
  {
    hide Inv; hide Slot; hide Reaches; hide Repeat;
    RingFacts(r);
    var r1 := Step(r, LoadRead(items));
    Once(r, LoadRead(items));
    StepInv(r, LoadRead(items));
    var r2 := Step(r1, StartPush);
    Once(r1, StartPush);
    StepInv(r1, StartPush);
    t := FinishPush(r2);
    var rest := Repeat<T>(CopyIn, |r2.producer.items|) + [PublishWrite];
    Then(r1, [StartPush], r2, rest, t);
    Then(r, [LoadRead(items)], r1, [StartPush] + rest, t);
  }

  // The rest of a copy out, published.
  lemma {:induction false} FinishPop<T>(r: Ring<T>) returns (t: Ring<T>)
    requires Inv(r) && r.consumer.Reading? && |r.consumer.got| <= r.consumer.want
    ensures Reaches(r, Repeat(CopyOut, r.consumer.want - |r.consumer.got|) + [PublishRead], t) && Inv(t)
    ensures t == r.(consumer := Waiting, readPos := r.readPos + r.consumer.want, popped := t.popped)
    decreases r.consumer.want - |r.consumer.got|
  {
    hide Inv; hide Slot; hide Reaches;
    RingFacts(r);
    if |r.consumer.got| == r.consumer.want {
      Once(r, PublishRead);
      StepInv(r, PublishRead);
      t := Step(r, PublishRead);
      assert Repeat<T>(CopyOut, 0) + [PublishRead] == [PublishRead];
    } else {
      var r1 := Step(r, CopyOut);
      Once(r, CopyOut);
      StepInv(r, CopyOut);
      t := FinishPop(r1);
      var rest := Repeat<T>(CopyOut, r1.consumer.want - |r1.consumer.got|) + [PublishRead];
      Then(r, [CopyOut], r1, rest, t);
      assert Repeat<T>(CopyOut, r.consumer.want - |r.consumer.got|) + [PublishRead] == [CopyOut] + rest;
    }
  }

  // A pop takes as many unread items as there are, up to the maximum, oldest
  // first.
  lemma PopAlone<T>(r: Ring<T>, max: nat) returns (t: Ring<T>)
    requires Inv(r) && r.consumer.Waiting?
    ensures |r.popped| <= |r.pushed|
    ensures var n := Min(max, |r.pushed| - |r.popped|);
      && Reaches(r, [LoadWrite(max)] + ([StartPop] + (Repeat(CopyOut, n) + [PublishRead])), t) && Inv(t)
      && t == r.(readPos := t.readPos, popped := r.pushed[..|r.popped| + n])
  {
    hide Inv; hide Slot; hide Reaches; hide Repeat;
    RingFacts(r);
    var r1 := Step(r, LoadWrite(max));
    Once(r, LoadWrite(max));
    StepInv(r, LoadWrite(max));
    var r2 := Step(r1, StartPop);
    Once(r1, StartPop);
    StepInv(r1, StartPop);
    t := FinishPop(r2);
    RingFacts(t);
    var rest := Repeat<T>(CopyOut, r2.consumer.want) + [PublishRead];
    Then(r1, [StartPop], r2, rest, t);
    Then(r, [LoadWrite(max)], r1, [StartPop] + rest, t);
    assert t.popped == t.pushed[..|t.popped|];
  }
}
