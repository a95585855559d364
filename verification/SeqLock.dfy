/**
 The sequence lock: one writer makes the counter odd, changes the data word by
 word and makes the counter even again; readers copy the words between two
 reads of the counter.  Any number of readers, in any interleaving.
 */
module SeqLock {
  import opened Counting

  datatype Writer = Idle | Writing(value: seq<nat>, done: nat)

  // A reader has the counter it began with and the words copied so far.
  datatype Reader = Out | Reading(start: nat, got: seq<nat>)

  // `versions` remembers every value the data has had, `accepted` what
  // validated reads returned.  The counter is unbounded; readers compare words.
  datatype State = State(seqNo: nat, data: seq<nat>, writer: Writer, readers: seq<Reader>, versions: seq<seq<nat>>,
                         accepted: seq<seq<nat>>)

  // ----- Steps -----

  datatype Op =
    | WriteLock(value: seq<nat>) | WriteWord | WriteUnlock
    | ReadBegin(p: nat) | ReadWord(p: nat) | ReadValid(p: nat)

  predicate Enabled(s: State, op: Op) {
    match op
    case WriteLock(value) => s.writer.Idle? && |value| == |s.data|
    case WriteWord => s.writer.Writing? && s.writer.done < |s.data| <= |s.writer.value|
    case WriteUnlock => s.writer.Writing? && s.writer.done == |s.data|
    case ReadBegin(p) => p < |s.readers| && s.readers[p].Out?
    case ReadWord(p) => p < |s.readers| && s.readers[p].Reading? && |s.readers[p].got| < |s.data|
    case ReadValid(p) => p < |s.readers| && s.readers[p].Reading? && |s.readers[p].got| == |s.data|
  }

  function Step(s: State, op: Op): (r: State)
    requires Enabled(s, op)
  {
    match op
    case WriteLock(value) => s.(seqNo := s.seqNo + 1, writer := Writing(value, 0))
    case WriteWord =>
      s.(data := s.data[s.writer.done := s.writer.value[s.writer.done]], writer := s.writer.(done := s.writer.done + 1))
    case WriteUnlock => s.(seqNo := s.seqNo + 1, writer := Idle, versions := s.versions + [s.writer.value])
    case ReadBegin(p) =>
      // An odd counter makes the reader look again.
      if Low(s.seqNo) % 2 == 1 then s else s.(readers := s.readers[p := Reading(s.seqNo, [])])
    case ReadWord(p) =>
      var r := s.readers[p];
      s.(readers := s.readers[p := Reading(r.start, r.got + [s.data[|r.got|]])])
    case ReadValid(p) =>
      var r := s.readers[p];
      if Low(s.seqNo) == Low(r.start) then s.(readers := s.readers[p := Out], accepted := s.accepted + [r.got])
      else s.(readers := s.readers[p := Out])
  }

  // Fewer counter values passed than its word can tell apart.
  ghost predicate Timely(s: State, op: Op)
    requires Enabled(s, op)
  {
    op.ReadValid? ==> s.seqNo - s.readers[op.p].start < WIDTH
  }

  ghost predicate IsInitial(s: State) {
    && s.seqNo == 0 && s.writer == Idle && s.versions == [s.data] && s.accepted == []
    && forall p | 0 <= p < |s.readers| :: s.readers[p] == Out
  }

  // ----- The invariant -----

  // Even counter: the data is the latest version.  Odd: the words before `done`
  // are new and the others old.
  ghost predicate WriterOk(s: State) {
    match s.writer
    case Idle => s.seqNo == 2 * (|s.versions| - 1) && s.versions != [] && s.data == s.versions[|s.versions| - 1]
    case Writing(value, done) =>
      && s.seqNo == 2 * (|s.versions| - 1) + 1 && s.versions != [] && |value| == |s.data| && done <= |s.data|
      && s.data[..done] == value[..done]
  }

  // While the counter has not moved since, the copy is of that version.
  ghost predicate ReaderOk(s: State, r: Reader) {
    r.Reading? ==>
      && r.start % 2 == 0 && r.start <= s.seqNo && |r.got| <= |s.data|
      && r.start / 2 < |s.versions|
      && (r.start == s.seqNo ==> r.got <= s.versions[r.start / 2])
  }

  ghost predicate Inv(s: State) {
    && WriterOk(s)
    && (forall v | 0 <= v < |s.versions| :: |s.versions[v]| == |s.data|)
    && (forall p | 0 <= p < |s.readers| :: ReaderOk(s, s.readers[p]))
    && forall i | 0 <= i < |s.accepted| :: s.accepted[i] in s.versions
  }

  lemma InitialInv(s: State)
    requires IsInitial(s)
    ensures Inv(s)
  {
  }

  lemma WriterInv(s: State, op: Op)
    requires Inv(s) && Enabled(s, op) && (op.WriteLock? || op.WriteWord? || op.WriteUnlock?)
    ensures Inv(Step(s, op))
  {
    var s' := Step(s, op);
    if op.WriteWord? {
      var k, v := s.writer.done, s.writer.value;
      assert s'.data[..k + 1] == s.data[..k] + [v[k]] && v[..k + 1] == v[..k] + [v[k]];
    }
    if op.WriteUnlock? {
      assert s.data[..|s.data|] == s.data && s.writer.value[..|s.data|] == s.writer.value;
    }
    forall p | 0 <= p < |s'.readers|
      ensures ReaderOk(s', s'.readers[p])
    {
      assert ReaderOk(s, s.readers[p]);
    }
    forall i | 0 <= i < |s'.accepted|
      ensures s'.accepted[i] in s'.versions
    {
      assert s.accepted[i] in s.versions;
    }
  }

  lemma LowParity(n: nat)
    ensures Low(n) % 2 == n % 2
  {
  }

  lemma ReadInv(s: State, op: Op)
    requires Inv(s) && Enabled(s, op) && (op.ReadBegin? || op.ReadWord?)
    ensures Inv(Step(s, op))
  {
    hide Low;
    var s' := Step(s, op);
    LowParity(s.seqNo);
    assert ReaderOk(s, s.readers[op.p]);
    forall p | 0 <= p < |s'.readers|
      ensures ReaderOk(s', s'.readers[p])
    {
      if p != op.p {
        assert ReaderOk(s, s.readers[p]);
      }
    }
  }

  // A read that validates has words of one version, unless whole laps of the
  // counter passed since it began; within a lap it validates exactly if the
  // counter has not moved.
  lemma ValidExact(s: State, p: nat)
    requires Inv(s) && Enabled(s, ReadValid(p))
    ensures var r := s.readers[p];
      && (Timely(s, ReadValid(p)) ==> (Low(s.seqNo) == Low(r.start) <==> s.seqNo == r.start))
      && (Low(s.seqNo) == Low(r.start) ==>
            if s.seqNo == r.start then r.start / 2 < |s.versions| && r.got == s.versions[r.start / 2]
            else r.start + WIDTH <= s.seqNo && Low(s.seqNo - r.start) == 0)
  {
    hide Low;
    var r := s.readers[p];
    assert ReaderOk(s, r);
    if s.seqNo == r.start {
      assert |s.versions[r.start / 2]| == |s.data|;
    } else if Low(s.seqNo) == Low(r.start) {
      WholeLaps(r.start, s.seqNo);
    }
  }

  lemma ValidInv(s: State, p: nat)
    requires Inv(s) && Enabled(s, ReadValid(p)) && Timely(s, ReadValid(p))
    ensures Inv(Step(s, ReadValid(p)))
  {
    hide Low;
    var s' := Step(s, ReadValid(p));
    ValidExact(s, p);
    forall r | 0 <= r < |s'.readers|
      ensures ReaderOk(s', s'.readers[r])
    {
      assert ReaderOk(s, s.readers[r]);
    }
  }

  lemma StepInv(s: State, op: Op)
    requires Inv(s) && Enabled(s, op) && Timely(s, op)
    ensures Inv(Step(s, op))
  {
    hide Inv; hide Step;
    if op.ReadBegin? || op.ReadWord? {
      ReadInv(s, op);
    } else if op.ReadValid? {
      ValidInv(s, op.p);
    } else {
      WriterInv(s, op);
    }
  }

  // ----- Runs -----

  ghost predicate Runs(s: State, ops: seq<Op>)
    decreases |ops|
  {
    ops == [] || (Enabled(s, ops[0]) && Runs(Step(s, ops[0]), ops[1..]))
  }

  ghost function After(s: State, ops: seq<Op>): (r: State)
    requires Runs(s, ops)
    decreases |ops|
  {
    if ops == [] then s else After(Step(s, ops[0]), ops[1..])
  }

  ghost predicate InTime(s: State, ops: seq<Op>)
    requires Runs(s, ops)
    decreases |ops|
  {
    ops == [] || (Timely(s, ops[0]) && InTime(Step(s, ops[0]), ops[1..]))
  }

  lemma {:induction false} RunInv(s: State, ops: seq<Op>)
    requires Inv(s) && Runs(s, ops) && InTime(s, ops)
    ensures Inv(After(s, ops))
    decreases |ops|
  {
    hide Step; hide Enabled; hide Timely; hide Inv;
    if ops != [] {
      StepInv(s, ops[0]);
      RunInv(Step(s, ops[0]), ops[1..]);
    }
  }

  // In every timely run, every validated read returned a value that the writer
  // had completed, never a mixture.
  lemma NoTornRead(s: State, ops: seq<Op>)
    requires IsInitial(s) && Runs(s, ops) && InTime(s, ops)
    ensures var e := After(s, ops); forall i | 0 <= i < |e.accepted| :: e.accepted[i] in e.versions
  {
    hide Runs; hide After; hide InTime;
    InitialInv(s);
    RunInv(s, ops);
  }

  // ----- A reader that sleeps for a lap -----

  ghost predicate Reaches(s: State, ops: seq<Op>, t: State) {
    Runs(s, ops) && After(s, ops) == t
  }

  lemma {:induction false} Then(s: State, a: seq<Op>, t: State, b: seq<Op>, u: State)
    requires Reaches(s, a, t) && Reaches(t, b, u)
    ensures Reaches(s, a + b, u)
    decreases |a|
  {
    hide Step; hide Enabled;
    if a == [] {
      assert a + b == b;
    } else {
      assert (a + b)[1..] == a[1..] + b;
      Then(Step(s, a[0]), a[1..], t, b, u);
    }
  }

  lemma Once(s: State, op: Op)
    requires Enabled(s, op)
    ensures Reaches(s, [op], Step(s, op)) && Reaches(s, [], s)
  {
    hide Step; hide Enabled;
    var one := [op];
    assert one[0] == op && one[1..] == [];
    assert Runs(Step(s, op), []) && Runs(s, one);
    assert After(s, one) == After(Step(s, op), []);
  }

  // The writer's remaining words.
  lemma {:induction false} WriteRest(s: State) returns (ops: seq<Op>, t: State)
    requires s.writer.Writing? && |s.writer.value| == |s.data| && s.writer.done <= |s.data|
    requires s.data[..s.writer.done] == s.writer.value[..s.writer.done]
    ensures Reaches(s, ops, t) && t == s.(data := s.writer.value, writer := s.writer.(done := |s.data|))
    decreases |s.data| - s.writer.done
  {
    hide Reaches;
    ops, t := [], s;
    var k, v := s.writer.done, s.writer.value;
    if k < |s.data| {
      Once(s, WriteWord);
      var s1 := Step(s, WriteWord);
      assert s1.data[..k + 1] == s.data[..k] + [v[k]] && v[..k + 1] == v[..k] + [v[k]];
      var rest, u := WriteRest(s1);
      Then(s, [WriteWord], s1, rest, u);
      ops, t := [WriteWord] + rest, u;
    } else {
      Nowhere(s);
      assert s.data[..k] == s.data && v[..k] == v;
    }
  }

  lemma Nowhere(s: State)
    ensures Reaches(s, [], s)
  {
  }

  // One write of v.
  lemma WriteOnce(s: State, v: seq<nat>) returns (ops: seq<Op>, t: State)
    requires s.writer.Idle? && |v| == |s.data|
    ensures Reaches(s, ops, t) && t == s.(seqNo := s.seqNo + 2, data := v, versions := s.versions + [v])
  {
    hide Reaches;
    Once(s, WriteLock(v));
    var s1 := Step(s, WriteLock(v));
    var words, s2 := WriteRest(s1);
    Then(s, [WriteLock(v)], s1, words, s2);
    Once(s2, WriteUnlock);
    t := Step(s2, WriteUnlock);
    Then(s, [WriteLock(v)] + words, s2, [WriteUnlock], t);
    ops := [WriteLock(v)] + words + [WriteUnlock];
  }

  // No value but v was written.
  ghost predicate Only(versions: seq<seq<nat>>, was: seq<seq<nat>>, v: seq<nat>) {
    forall i | 0 <= i < |versions| :: versions[i] in was || versions[i] == v
  }

  // k writes of v.
  lemma {:induction false} WriteMany(s: State, v: seq<nat>, k: nat) returns (ops: seq<Op>, t: State)
    requires s.writer.Idle? && |v| == |s.data|
    ensures Reaches(s, ops, t) && Only(t.versions, s.versions, v)
    ensures t == s.(seqNo := s.seqNo + 2 * k, data := if k == 0 then s.data else v, versions := t.versions)
    decreases k
  {
    hide Reaches;
    Nowhere(s);
    ops, t := [], s;
    if k > 0 {
      var one, s1 := WriteOnce(s, v);
      var rest, u := WriteMany(s1, v, k - 1);
      Then(s, one, s1, rest, u);
      ops, t := one + rest, u;
    }
  }

  // A reader's remaining words.
  lemma {:induction false} ReadRest(s: State, p: nat) returns (ops: seq<Op>, t: State)
    requires p < |s.readers| && s.readers[p].Reading? && |s.readers[p].got| <= |s.data|
    ensures var r := s.readers[p];
      Reaches(s, ops, t) && t == s.(readers := s.readers[p := Reading(r.start, r.got + s.data[|r.got|..])])
    decreases |s.data| - |s.readers[p].got|
  {
    hide Reaches;
    var r := s.readers[p];
    ops, t := [], s;
    if |r.got| < |s.data| {
      Once(s, ReadWord(p));
      var s1 := Step(s, ReadWord(p));
      var rest, u := ReadRest(s1, p);
      Then(s, [ReadWord(p)], s1, rest, u);
      ops, t := [ReadWord(p)] + rest, u;
      assert [s.data[|r.got|]] + s.data[|r.got| + 1..] == s.data[|r.got|..];
      assert u.readers[p].got == r.got + s.data[|r.got|..];
    } else {
      Nowhere(s);
      assert r.got + s.data[|r.got|..] == r.got;
    }
  }

  // A reader that runs while no write is under way, from any reachable state,
  // gets the latest value.
  lemma QuietRead(s: State, p: nat) returns (ops: seq<Op>, t: State)
    requires Inv(s) && s.writer.Idle? && p < |s.readers| && s.readers[p].Out?
    ensures s.versions != [] && Reaches(s, ops, t) && t == s.(accepted := s.accepted + [s.versions[|s.versions| - 1]])
  {
    hide Reaches; hide Low; hide ReaderOk;
    LowParity(s.seqNo);
    Once(s, ReadBegin(p));
    var s1 := Step(s, ReadBegin(p));
    var words, s2 := ReadRest(s1, p);
    assert [] + s.data[0..] == s.data;
    Then(s, [ReadBegin(p)], s1, words, s2);
    Once(s2, ReadValid(p));
    t := Step(s2, ReadValid(p));
    Then(s, [ReadBegin(p)] + words, s2, [ReadValid(p)], t);
    ops := [ReadBegin(p)] + words + [ReadValid(p)];
    assert s.readers[p := Out] == s.readers;
  }

  // A reader that copies a word, sleeps while 2^31 writes bring the counter
  // around, and copies the rest validates a value that was never written.
  lemma LapTearsRead(s: State, v: seq<nat>) returns (ops: seq<Op>)
    requires IsInitial(s) && |s.readers| > 0 && |v| == |s.data| >= 2 && v[0] != s.data[0] && v[1] != s.data[1]
    ensures Runs(s, ops)
    ensures var e := After(s, ops); e.accepted == [[s.data[0]] + v[1..]] && e.accepted[0] !in e.versions
  {
    hide Runs; hide After; hide Low;
    LapShows();
    Once(s, ReadBegin(0));
    var s1 := Step(s, ReadBegin(0));
    Once(s1, ReadWord(0));
    var s2 := Step(s1, ReadWord(0));
    assert s2.readers[0] == Reading(0, [s.data[0]]);
    Then(s, [ReadBegin(0)], s1, [ReadWord(0)], s2);
    var laps, s3 := WriteMany(s2, v, WIDTH / 2);
    Then(s, [ReadBegin(0)] + [ReadWord(0)], s2, laps, s3);
    assert s3.seqNo == WIDTH;
    var words, s4 := ReadRest(s3, 0);
    assert s4.readers[0] == Reading(0, [s.data[0]] + v[1..]);
    Then(s, [ReadBegin(0)] + [ReadWord(0)] + laps, s3, words, s4);
    Once(s4, ReadValid(0));
    var s5 := Step(s4, ReadValid(0));
    Then(s, [ReadBegin(0)] + [ReadWord(0)] + laps + words, s4, [ReadValid(0)], s5);
    ops := [ReadBegin(0)] + [ReadWord(0)] + laps + words + [ReadValid(0)];
    Mixed(s, v, s5.versions);
  }

  lemma Mixed(s: State, v: seq<nat>, versions: seq<seq<nat>>)
    requires |v| == |s.data| >= 2 && v[0] != s.data[0] && v[1] != s.data[1] && Only(versions, [s.data], v)
    ensures [s.data[0]] + v[1..] !in versions
  {
    var x := [s.data[0]] + v[1..];
    assert x[0] != v[0] && x[1] == v[1] && x[1] != s.data[1];
  }
}
