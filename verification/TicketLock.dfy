/**
 The ticket spinlock: a counter of tickets issued and a counter of tickets
 served, both 32 bits wide, for any number of threads.  The model counts
 without bound and compares modulo the width, as the code's words do.
 */
module TicketLock {
  import opened Counting

  // A thread waits or holds with its ticket; in try_lock it has loaded the
  // served counter.
  datatype Thread = Out | Waiting(ticket: nat) | Holding(ticket: nat) | Trying(served: nat)

  // `entered` remembers the tickets in the order their threads got the lock.
  datatype State = State(issued: nat, served: nat, threads: seq<Thread>, entered: seq<nat>)

  // ----- Steps -----

  datatype Op = TakeTicket(p: nat) | Spin(p: nat) | Unlock(p: nat) | TryLoad(p: nat) | TrySwap(p: nat)

  predicate Enabled(s: State, op: Op) {
    && op.p < |s.threads|
    && match op
       case TakeTicket(p) => s.threads[p].Out?
       case Spin(p) => s.threads[p].Waiting?
       case Unlock(p) => s.threads[p].Holding?
       case TryLoad(p) => s.threads[p].Out?
       case TrySwap(p) => s.threads[p].Trying?
  }

  function Set(s: State, p: nat, t: Thread): (r: State)
    requires p < |s.threads|
  {
    s.(threads := s.threads[p := t])
  }

  // The compare-and-swap of try_lock compares the issued counter with the value
  // loaded from the served counter.
  predicate Swaps(s: State, p: nat) {
    p < |s.threads| && s.threads[p].Trying? && Low(s.issued) == Low(s.threads[p].served)
  }

  function Step(s: State, op: Op): (r: State)
    requires Enabled(s, op)
  {
    match op
    case TakeTicket(p) => Set(s, p, Waiting(s.issued)).(issued := s.issued + 1)
    case Spin(p) =>
      var t := s.threads[p].ticket;
      if Low(s.served) == Low(t) then Set(s, p, Holding(t)).(entered := s.entered + [t]) else s
    case Unlock(p) => Set(s, p, Out).(served := s.served + 1)
    case TryLoad(p) => Set(s, p, Trying(s.served))
    case TrySwap(p) =>
      if Swaps(s, p) then Set(s, p, Holding(s.issued)).(issued := s.issued + 1, entered := s.entered + [s.issued])
      else Set(s, p, Out)
  }

  // Fewer tickets are out than the counters can tell apart, and a try_lock
  // swaps before a whole lap of tickets has been issued since its load.
  ghost predicate Timely(s: State, op: Op)
    requires Enabled(s, op)
  {
    match op
    case TakeTicket(p) => s.issued - s.served < WIDTH
    case TrySwap(p) => s.issued - s.threads[p].served < WIDTH
    case _ => true
  }

  ghost predicate IsInitial(s: State) {
    s.issued == s.served == 0 && s.entered == [] && forall p | 0 <= p < |s.threads| :: s.threads[p] == Out
  }

  // ----- The invariant -----

  predicate HasTicket(t: Thread) {
    t.Waiting? || t.Holding?
  }

  // Waiting threads hold tickets not yet served; a holder's is being served.
  ghost predicate ThreadOk(s: State, t: Thread) {
    match t
    case Out => true
    case Waiting(n) => s.served <= n < s.issued && |s.entered| <= n
    case Holding(n) => n == s.served < s.issued && |s.entered| == n + 1
    case Trying(n) => n <= s.served
  }

  // Ticket n is some thread's.
  ghost predicate Held(s: State, n: nat) {
    exists p | 0 <= p < |s.threads| :: HasTicket(s.threads[p]) && s.threads[p].ticket == n
  }

  ghost predicate Inv(s: State) {
    && s.served <= s.issued <= s.served + WIDTH
    && (forall n | s.served <= n < s.issued :: Held(s, n))
    && (forall p | 0 <= p < |s.threads| :: ThreadOk(s, s.threads[p]))
    && (forall p, r | 0 <= p < r < |s.threads| && HasTicket(s.threads[p]) && HasTicket(s.threads[r]) ::
          s.threads[p].ticket != s.threads[r].ticket)
    && s.served <= |s.entered| <= s.served + 1
    && (|s.entered| == s.served + 1 ==> exists p | 0 <= p < |s.threads| :: s.threads[p].Holding?)
    && forall i | 0 <= i < |s.entered| :: s.entered[i] == i
  }

  lemma InitialInv(s: State)
    requires IsInitial(s)
    ensures Inv(s)
  {
  }

  // At most one thread holds the lock.
  lemma OneHolder(s: State, p: nat, r: nat)
    requires Inv(s) && p < |s.threads| && r < |s.threads| && s.threads[p].Holding? && s.threads[r].Holding?
    ensures p == r
  {
    assert ThreadOk(s, s.threads[p]) && ThreadOk(s, s.threads[r]);
  }

  // ----- Each step keeps it -----

  // If the last entry has not been served yet, its ticket was issued.
  lemma EnteredIssued(s: State)
    requires Inv(s)
    ensures |s.entered| <= s.issued
  {
    if |s.entered| == s.served + 1 {
      var p :| 0 <= p < |s.threads| && s.threads[p].Holding?;
      assert ThreadOk(s, s.threads[p]);
    }
  }

  // Tickets stay with their threads.
  lemma HeldKeeps(s: State, s': State, n: nat)
    requires Held(s, n) && |s'.threads| == |s.threads|
    requires forall r | 0 <= r < |s.threads| && HasTicket(s.threads[r]) && s.threads[r].ticket == n ::
      HasTicket(s'.threads[r]) && s'.threads[r].ticket == n
    ensures Held(s', n)
  {
    var r :| 0 <= r < |s.threads| && HasTicket(s.threads[r]) && s.threads[r].ticket == n;
    assert HasTicket(s'.threads[r]) && s'.threads[r].ticket == n;
  }

  lemma AllHeld(s: State, s': State)
    requires forall n | s.served <= n < s.issued :: Held(s, n)
    requires |s'.threads| == |s.threads| && s.served <= s'.served && s'.issued == s.issued
    requires forall r | 0 <= r < |s.threads| && HasTicket(s.threads[r]) && s.threads[r].ticket >= s'.served ::
      HasTicket(s'.threads[r]) && s'.threads[r].ticket == s.threads[r].ticket
    ensures forall n | s'.served <= n < s'.issued :: Held(s', n)
  {
    forall n | s'.served <= n < s'.issued
      ensures Held(s', n)
    {
      HeldKeeps(s, s', n);
    }
  }

  lemma NewTicket(s: State, s': State, p: nat)
    requires forall n | s.served <= n < s.issued :: Held(s, n)
    requires p < |s.threads| == |s'.threads| && !HasTicket(s.threads[p]) && s'.served == s.served
      && s'.issued == s.issued + 1
    requires s'.threads == s.threads[p := s'.threads[p]] && HasTicket(s'.threads[p]) && s'.threads[p].ticket == s.issued
    ensures forall n | s'.served <= n < s'.issued :: Held(s', n)
  {
    forall n | s'.served <= n < s'.issued
      ensures Held(s', n)
    {
      if n < s.issued {
        HeldKeeps(s, s', n);
      }
    }
  }

  lemma TakeTicketInv(s: State, p: nat)
    requires Inv(s) && Enabled(s, TakeTicket(p)) && Timely(s, TakeTicket(p))
    ensures Inv(Step(s, TakeTicket(p)))
  {
    hide Held;
    var s' := Step(s, TakeTicket(p));
    EnteredIssued(s);
    NewTicket(s, s', p);
    forall r | 0 <= r < |s'.threads|
      ensures ThreadOk(s', s'.threads[r])
    {
      assert ThreadOk(s, s.threads[r]);
    }
    if |s.entered| == s.served + 1 {
      var h :| 0 <= h < |s.threads| && s.threads[h].Holding?;
      assert s'.threads[h].Holding?;
    }
  }

  // A waiting thread gets in exactly when its ticket is being served.
  lemma SpinExact(s: State, p: nat)
    requires Inv(s) && Enabled(s, Spin(p))
    ensures Low(s.served) == Low(s.threads[p].ticket) <==> s.threads[p].ticket == s.served
  {
    hide Low;
    assert ThreadOk(s, s.threads[p]);
    if Low(s.served) == Low(s.threads[p].ticket) {
      LowDiffers(s.served, s.threads[p].ticket);
    }
  }

  // While tickets are out and nobody holds the lock, some waiting thread gets it
  // with its next look: the one whose ticket is the lowest.
  lemma NextEnters(s: State) returns (p: nat)
    requires Inv(s) && s.served < s.issued && forall r | 0 <= r < |s.threads| :: !s.threads[r].Holding?
    ensures p < |s.threads| && s.threads[p].Waiting?
    ensures Step(s, Spin(p)).threads[p] == Holding(s.served) && Step(s, Spin(p)).entered == s.entered + [s.served]
    ensures forall r | 0 <= r < |s.threads| && r != p && s.threads[r].Waiting? ::
      s.threads[p].ticket < s.threads[r].ticket && Step(s, Spin(r)) == s
  {
    hide Low;
    assert Held(s, s.served);
    p :| 0 <= p < |s.threads| && HasTicket(s.threads[p]) && s.threads[p].ticket == s.served;
    SpinExact(s, p);
    forall r | 0 <= r < |s.threads| && r != p && s.threads[r].Waiting?
      ensures s.threads[p].ticket < s.threads[r].ticket && Step(s, Spin(r)) == s
    {
      assert ThreadOk(s, s.threads[r]);
      SpinExact(s, r);
    }
  }

  lemma SpinInv(s: State, p: nat)
    requires Inv(s) && Enabled(s, Spin(p))
    ensures Inv(Step(s, Spin(p)))
  {
    hide Low; hide Held;
    var s' := Step(s, Spin(p));
    SpinExact(s, p);
    AllHeld(s, s');
    assert ThreadOk(s, s.threads[p]);
    if s.threads[p].ticket == s.served {
      forall r | 0 <= r < |s'.threads|
        ensures ThreadOk(s', s'.threads[r])
      {
        assert ThreadOk(s, s.threads[r]);
      }
      assert s'.threads[p].Holding?;
    }
  }

  lemma UnlockInv(s: State, p: nat)
    requires Inv(s) && Enabled(s, Unlock(p))
    ensures Inv(Step(s, Unlock(p)))
  {
    hide Held;
    var s' := Step(s, Unlock(p));
    assert ThreadOk(s, s.threads[p]);
    AllHeld(s, s');
    forall r | 0 <= r < |s'.threads|
      ensures ThreadOk(s', s'.threads[r])
    {
      assert ThreadOk(s, s.threads[r]);
    }
  }

  // A thread that only leaves or loads.
  lemma IdleInv(s: State, p: nat, t: Thread)
    requires Inv(s) && p < |s.threads| && !HasTicket(s.threads[p]) && !HasTicket(t) && ThreadOk(s, t)
    ensures Inv(Set(s, p, t))
  {
    hide Held;
    var s' := Set(s, p, t);
    AllHeld(s, s');
    forall r | 0 <= r < |s'.threads|
      ensures ThreadOk(s', s'.threads[r])
    {
      assert ThreadOk(s, s.threads[r]);
    }
    if |s.entered| == s.served + 1 {
      var h :| 0 <= h < |s.threads| && s.threads[h].Holding?;
      assert s'.threads[h].Holding?;
    }
  }

  // Nobody holds or waits.
  predicate Alone(s: State) {
    forall r | 0 <= r < |s.threads| :: !HasTicket(s.threads[r])
  }

  // That is so exactly if every ticket has been served.
  lemma NobodyIn(s: State)
    requires Inv(s)
    ensures Alone(s) <==> s.served == s.issued
    ensures Alone(s) ==> |s.entered| == s.served
  {
    if s.served == s.issued {
      forall r | 0 <= r < |s.threads|
        ensures !HasTicket(s.threads[r])
      {
        assert ThreadOk(s, s.threads[r]);
      }
    } else {
      assert Held(s, s.served);
    }
  }

  lemma SwapInv(s: State, p: nat)
    requires Inv(s) && Swaps(s, p) && Alone(s)
    ensures Inv(Step(s, TrySwap(p)))
  {
    hide Low; hide Held;
    var s' := Step(s, TrySwap(p));
    NobodyIn(s);
    NewTicket(s, s', p);
    forall r | 0 <= r < |s'.threads|
      ensures ThreadOk(s', s'.threads[r])
    {
      assert ThreadOk(s, s.threads[r]);
    }
    assert s'.threads[p].Holding?;
  }

  // A thread other than p holds the lock or gets it with its next look.
  ghost predicate AnotherIn(s: State, p: nat) {
    exists r | 0 <= r < |s.threads| && r != p ::
      s.threads[r].Holding? || (s.threads[r].Waiting? && Low(s.served) == Low(s.threads[r].ticket))
  }

  // A try_lock that swaps shares the lock with another thread exactly if
  // somebody held or waited at that moment.  That takes one or more whole laps
  // of 2^32 tickets since its load, after which the issued counter shows the
  // loaded value again.  In every other case the lock stays sound.
  lemma SwapExact(s: State, p: nat)
    requires Inv(s) && Swaps(s, p)
    ensures var s', n := Step(s, TrySwap(p)), s.threads[p].served;
      && s'.threads[p].Holding? && (AnotherIn(s', p) <==> !Alone(s)) && (Inv(s') <==> Alone(s))
      && (!Alone(s) ==> n + WIDTH <= s.issued && Low(s.issued - n) == 0)
  {
    hide Low;
    var s', n := Step(s, TrySwap(p)), s.threads[p].served;
    assert ThreadOk(s, s.threads[p]);
    NobodyIn(s);
    if Alone(s) {
      SwapInv(s, p);
    } else {
      assert Held(s, s.served);
      var r :| 0 <= r < |s.threads| && HasTicket(s.threads[r]) && s.threads[r].ticket == s.served;
      assert s'.threads[r] == s.threads[r];
      assert s'.threads[p] == Holding(s.issued);
      WholeLaps(n, s.issued);
    }
  }

  // Within a lap of its load, try_lock succeeds only when nobody holds or waits.
  lemma TryAlone(s: State, p: nat)
    requires Inv(s) && Swaps(s, p) && Timely(s, TrySwap(p))
    ensures s.served == s.issued && Alone(s)
  {
    hide Low;
    assert ThreadOk(s, s.threads[p]);
    LowDiffers(s.threads[p].served, s.issued);
    NobodyIn(s);
  }

  lemma StepInv(s: State, op: Op)
    requires Inv(s) && Enabled(s, op) && Timely(s, op)
    ensures Inv(Step(s, op))
  {
    hide Inv; hide Low;
    match op
    case TakeTicket(p) => TakeTicketInv(s, p);
    case Spin(p) => SpinInv(s, p);
    case Unlock(p) => UnlockInv(s, p);
    case TryLoad(p) => IdleInv(s, p, Trying(s.served));
    case TrySwap(p) =>
      if Swaps(s, p) {
        TryAlone(s, p);
        SwapInv(s, p);
      } else {
        IdleInv(s, p, Out);
      }
  }

  // ----- Runs -----

  ghost predicate Runs(s: State, ops: seq<Op>)
    decreases |ops|
  {
    ops == [] || (Enabled(s, ops[0]) && Runs(Step(s, ops[0]), ops[1..]))
  }

  ghost function After(s: State, ops: seq<Op>): (r: State)
    requires Runs(s, ops)
    decreases |ops|
  {
    if ops == [] then s else After(Step(s, ops[0]), ops[1..])
  }

  ghost predicate InTime(s: State, ops: seq<Op>)
    requires Runs(s, ops)
    decreases |ops|
  {
    ops == [] || (Timely(s, ops[0]) && InTime(Step(s, ops[0]), ops[1..]))
  }

  lemma {:induction false} RunInv(s: State, ops: seq<Op>)
    requires Inv(s) && Runs(s, ops) && InTime(s, ops)
    ensures Inv(After(s, ops))
    decreases |ops|
  {
    hide Inv; hide Step; hide Enabled; hide Timely;
    if ops != [] {
      StepInv(s, ops[0]);
      RunInv(Step(s, ops[0]), ops[1..]);
    }
  }

  // In every timely run at most one thread holds the lock, and threads have
  // entered in ticket order 0, 1, 2, ...
  lemma MutualExclusion(s: State, ops: seq<Op>)
    requires IsInitial(s) && Runs(s, ops) && InTime(s, ops)
    ensures var e := After(s, ops);
      && (forall p, r | 0 <= p < |e.threads| && 0 <= r < |e.threads| ::
            e.threads[p].Holding? && e.threads[r].Holding? ==> p == r)
      && forall i | 0 <= i < |e.entered| :: e.entered[i] == i
  {
    hide Runs; hide After; hide InTime; hide Held;
    InitialInv(s);
    RunInv(s, ops);
    var e := After(s, ops);
    forall p, r | 0 <= p < |e.threads| && 0 <= r < |e.threads| && e.threads[p].Holding? && e.threads[r].Holding?
      ensures p == r
    {
      OneHolder(e, p, r);
    }
  }

  // ----- A try_lock that sleeps for a lap -----

  lemma {:induction false} RunSnoc(s: State, ops: seq<Op>, op: Op)
    requires Runs(s, ops) && Enabled(After(s, ops), op)
    ensures Runs(s, ops + [op]) && After(s, ops + [op]) == Step(After(s, ops), op)
    decreases |ops|
  {
    hide Step; hide Enabled;
    if ops == [] {
      assert ops + [op] == [op] && [op][1..] == [];
      assert Runs(Step(s, op), []);
    } else {
      assert (ops + [op])[1..] == ops[1..] + [op];
      RunSnoc(Step(s, ops[0]), ops[1..], op);
    }
  }

  // Thread 0 loads the counter and sleeps; thread 1 locks and unlocks k times.
  function Laps(k: nat): (ops: seq<Op>) {
    if k == 0 then [TryLoad(0)] else Laps(k - 1) + [TakeTicket(1)] + [Spin(1)] + [Unlock(1)]
  }

  lemma {:induction false} LapsRun(s: State, k: nat)
    requires IsInitial(s) && |s.threads| >= 2
    ensures Runs(s, Laps(k))
    ensures var e := After(s, Laps(k));
      e.issued == e.served == k && e.threads == s.threads[0 := Trying(0)]
  {
    hide Runs; hide After; hide Low;
    if k == 0 {
      Loads(s);
    } else {
      LapsRun(s, k - 1);
      var ops := Laps(k - 1);
      RunSnoc(s, ops, TakeTicket(1));
      RunSnoc(s, ops + [TakeTicket(1)], Spin(1));
      RunSnoc(s, ops + [TakeTicket(1)] + [Spin(1)], Unlock(1));
    }
  }

  lemma Loads(s: State)
    requires IsInitial(s) && |s.threads| >= 2
    ensures Runs(s, [TryLoad(0)]) && After(s, [TryLoad(0)]) == Set(s, 0, Trying(0))
  {
    RunSnoc(s, [], TryLoad(0));
    assert [] + [TryLoad(0)] == [TryLoad(0)];
  }

  // After 2^32 - 1 of these and one more lock, the swap of thread 0 succeeds
  // while thread 1 holds the lock.
  lemma TwoHolders(s: State)
    requires IsInitial(s) && |s.threads| >= 2
    ensures var ops := Laps(WIDTH - 1) + [TakeTicket(1)] + [Spin(1)] + [TrySwap(0)];
      && Runs(s, ops) && |After(s, ops).threads| == |s.threads|
      && After(s, ops).threads[..2] == [Holding(WIDTH), Holding(WIDTH - 1)]
  {
    hide Runs; hide After; hide Low; hide Laps;
    var ops := Laps(WIDTH - 1);
    LapsRun(s, WIDTH - 1);
    RunSnoc(s, ops, TakeTicket(1));
    RunSnoc(s, ops + [TakeTicket(1)], Spin(1));
    LapShows();
    RunSnoc(s, ops + [TakeTicket(1)] + [Spin(1)], TrySwap(0));
  }
}
