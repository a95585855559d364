/**
 Unbounded positions in a ring of fixed capacity.
 */
module RingIndex {

  // The slot of position n: n modulo the capacity.
  function Slot(n: nat, cap: nat): (i: nat)
    requires cap > 0
    ensures i < cap
  {
    if n < cap then n else Slot(n - cap, cap)
  }

  function Next(i: nat, cap: nat): (j: nat) {
    if i + 1 < cap then i + 1 else 0
  }

  lemma {:induction false} SlotNext(n: nat, cap: nat)
    requires cap > 0
    ensures Slot(n + 1, cap) == Next(Slot(n, cap), cap)
    decreases n
  {
    if n >= cap {
      SlotNext(n - cap, cap);
    }
  }

  // Less than a lap apart, different positions have different slots.
  lemma {:induction false} SlotsDiffer(a: nat, b: nat, cap: nat)
    requires cap > 0 && a < b < a + cap
    ensures Slot(a, cap) != Slot(b, cap)
    decreases a
  {
    if a >= cap {
      SlotsDiffer(a - cap, b - cap, cap);
    }
  }

  lemma LapSlot(n: nat, cap: nat)
    requires cap > 0
    ensures Slot(n + cap, cap) == Slot(n, cap)
  {
  }

  // For a power of two this is what masking with capacity - 1 gives.
  lemma {:induction false} SlotIsModulo(n: nat, cap: nat)
    requires cap > 0
    ensures Slot(n, cap) == n % cap
    decreases n
  {
    if n >= cap {
      SlotIsModulo(n - cap, cap);
      ModuloLap(n - cap, cap);
    }
  }

  lemma ModuloLap(n: nat, cap: nat)
    requires cap > 0
    ensures (n + cap) % cap == n % cap
  {
    var d := (n + cap) / cap - n / cap;
    Distribute((n + cap) / cap, n / cap, cap);
    if d < 1 {
      AtMost(d, 0, cap);
    } else if d > 1 {
      AtMost(2, d, cap);
    }
  }

  lemma Distribute(a: int, c: int, cap: nat)
    ensures (a - c) * cap == a * cap - c * cap
  {
  }

  lemma AtMost(a: int, c: int, cap: nat)
    requires a <= c
    ensures a * cap <= c * cap
  {
  }

  // One word of a row replaced.
  function Put(row: seq<nat>, k: nat, w: nat): (r: seq<nat>)
    requires k < |row|
    ensures |r| == |row|
  {
    row[k := w]
  }
}
