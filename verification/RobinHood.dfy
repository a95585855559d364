/**
 The theory of Robin Hood probing shared by the price map and the flat map.

 A table is a sequence of cells seen as a cycle.  A cell whose `dist` is 0 is
 empty; an occupied cell at probe position `p` (counted from its home slot)
 stores `dist == p + 1`.  Everything here is about values, so the classes that
 keep the table in arrays only have to show which cell each step rewrites.
 */
module RobinHood {

  datatype Cell<+K, +V> = Cell(key: K, val: V, dist: nat)

  // ----- Positions on the cycle of n slots -----

  function Next(s: nat, n: nat): (r: nat)
    requires s < n
  {
    if s + 1 == n then 0 else s + 1
  }

  function Prev(s: nat, n: nat): (r: nat)
    requires s < n
  {
    if s == 0 then n - 1 else s - 1
  }

  // The slot j steps before s.
  function Back(s: nat, j: nat, n: nat): (r: nat)
    requires s < n && j < n
  {
    if j <= s then s - j else s + n - j
  }

  // The number of steps from s forward to e.
  function Gap(s: nat, e: nat, n: nat): (r: nat)
    requires s < n && e < n
  {
    if s <= e then e - s else e + n - s
  }

  // ----- Well-formed tables -----

  ghost predicate Holds<K, V>(t: seq<Cell<K, V>>, s: int, k: K) {
    0 <= s < |t| && t[s].dist > 0 && t[s].key == k
  }

  // Every entry knows how far it is from its home slot.
  ghost predicate Placed<K, V>(t: seq<Cell<K, V>>, home: K -> nat) {
    forall s | 0 <= s < |t| && t[s].dist > 0 ::
      t[s].dist <= |t| && home(t[s].key) == Back(s, t[s].dist - 1, |t|)
  }

  // The Robin Hood order: a probe distance never rises by more than one.
  ghost predicate Ordered<K, V>(t: seq<Cell<K, V>>) {
    forall s | 0 <= s < |t| :: t[Next(s, |t|)].dist <= t[s].dist + 1
  }

  ghost predicate Distinct<K, V>(t: seq<Cell<K, V>>) {
    forall i, j | 0 <= i < |t| && 0 <= j < |t| && i != j && t[i].dist > 0 && t[j].dist > 0 ::
      t[i].key != t[j].key
  }

  ghost predicate Represents<K, V>(t: seq<Cell<K, V>>, m: map<K, V>) {
    && (forall s | 0 <= s < |t| && t[s].dist > 0 :: t[s].key in m && m[t[s].key] == t[s].val)
    && (forall k | k in m :: exists s :: Holds(t, s, k))
  }

  // No probe distance exceeds b.
  ghost predicate Within<K, V>(t: seq<Cell<K, V>>, b: nat) {
    forall s | 0 <= s < |t| :: t[s].dist <= b
  }

  // The entries, with distinct keys, are exactly those of m.
  ghost predicate Entries<K, V>(t: seq<Cell<K, V>>, m: map<K, V>) {
    Distinct(t) && Represents(t, m)
  }

  ghost predicate Table<K, V>(t: seq<Cell<K, V>>, home: K -> nat, m: map<K, V>) {
    Placed(t, home) && Ordered(t) && Entries(t, m)
  }

  // ----- Distances along a chain -----

  // Going back j slots loses at most j of the distance: the slots between an
  // entry and its home are all occupied, by entries at least as far from home.
  lemma {:induction false} Chain<K, V>(t: seq<Cell<K, V>>, s: nat, j: nat)
    requires Ordered(t) && s < |t| && j < |t|
    ensures t[Back(s, j, |t|)].dist >= t[s].dist - j
  {
    if j > 0 {
      Chain(t, s, j - 1);
      assert Next(Back(s, j, |t|), |t|) == Back(s, j - 1, |t|);
    }
  }

  // With an empty slot e, no distance exceeds the number of steps from e.
  lemma {:induction false} DistanceFromGap<K, V>(t: seq<Cell<K, V>>, e: nat, s: nat)
    requires Ordered(t) && e < |t| && s < |t| && t[e].dist == 0
    ensures t[s].dist <= Gap(e, s, |t|)
  {
    Chain(t, s, Gap(e, s, |t|));
    assert Back(s, Gap(e, s, |t|), |t|) == e;
  }

  // Every slot on the way to an entry is taken by an entry at least as far out.
  lemma ProbeChain<K, V>(t: seq<Cell<K, V>>, home: K -> nat, k: K, s: nat, slot: nat, p: nat)
    requires Placed(t, home) && Ordered(t) && Holds(t, s, k) && p < t[s].dist
    requires slot < |t| && p < |t| && home(k) == Back(slot, p, |t|)
    ensures t[slot].dist > p
  {
    var j := t[s].dist - 1 - p;
    assert slot == Back(s, j, |t|);
    Chain(t, s, j);
  }

  // A probe that has passed p slots without meeting k is entitled to stop at
  // an empty slot, or at one whose entry is nearer to home than the probe.
  lemma ProbeMayStop<K, V>(t: seq<Cell<K, V>>, home: K -> nat, k: K, slot: nat, p: nat)
    requires Placed(t, home) && Ordered(t)
    requires slot < |t| && p < |t| && home(k) == Back(slot, p, |t|)
    requires forall s :: Holds(t, s, k) ==> t[s].dist > p
    requires t[slot].dist <= p
    ensures forall s :: !Holds(t, s, k)
  {
    forall s | Holds(t, s, k)
      ensures false
    {
      ProbeChain(t, home, k, s, slot, p);
    }
  }

  // A slot that does not hold k pushes every possible place of k further out.
  lemma ProbeAdvance<K, V>(t: seq<Cell<K, V>>, home: K -> nat, k: K, slot: nat, p: nat)
    requires Placed(t, home)
    requires slot < |t| && p < |t| && home(k) == Back(slot, p, |t|)
    requires forall s :: Holds(t, s, k) ==> t[s].dist > p
    requires !Holds(t, slot, k)
    ensures forall s :: Holds(t, s, k) ==> t[s].dist > p + 1
  {
    forall s | Holds(t, s, k)
      ensures t[s].dist > p + 1
    {
      assert t[s].dist == p + 1 ==> s == slot;
    }
  }

  lemma NotHeld<K, V>(t: seq<Cell<K, V>>, m: map<K, V>, k: K)
    requires Entries(t, m) && forall s :: !Holds(t, s, k)
    ensures k !in m
  {
  }

  // ----- An empty slot exists below capacity -----

  lemma {:induction false} KeysOfPrefix<K, V>(t: seq<Cell<K, V>>, n: nat) returns (ks: set<K>)
    requires n <= |t| && Distinct(t)
    requires forall s | 0 <= s < n :: t[s].dist > 0
    ensures |ks| == n
    ensures forall k | k in ks :: exists s | 0 <= s < n :: t[s].key == k
  {
    if n == 0 {
      ks := {};
    } else {
      var before := KeysOfPrefix(t, n - 1);
      assert t[n - 1].key !in before;
      ks := before + {t[n - 1].key};
    }
  }

  lemma SubsetSize<K>(a: set<K>, b: set<K>)
    requires a <= b
    ensures |a| <= |b|
  {
    assert b == a + (b - a);
  }

  lemma EmptySlotExists<K, V>(t: seq<Cell<K, V>>, m: map<K, V>) returns (e: nat)
    requires Entries(t, m) && |m| < |t|
    ensures e < |t| && t[e].dist == 0
  {
    if forall s | 0 <= s < |t| :: t[s].dist > 0 {
      var ks := KeysOfPrefix(t, |t|);
      SubsetSize(ks, m.Keys);
      assert false;
    }
    e :| 0 <= e < |t| && t[e].dist == 0;
  }

  // No entry is further from home than there are entries.
  lemma DistanceAtMostCount<K, V>(t: seq<Cell<K, V>>, home: K -> nat, m: map<K, V>, s: nat)
    requires Table(t, home, m) && s < |t|
    ensures t[s].dist <= |m|
  {
    if t[s].dist > 0 {
      var ks := KeysBehind(t, s, t[s].dist);
      SubsetSize(ks, m.Keys);
    }
  }

  lemma {:induction false} KeysBehind<K, V>(t: seq<Cell<K, V>>, s: nat, n: nat) returns (ks: set<K>)
    requires Ordered(t) && Distinct(t) && s < |t| && n <= t[s].dist && n <= |t|
    ensures |ks| == n
    ensures forall k | k in ks :: exists j | 0 <= j < n :: Holds(t, Back(s, j, |t|), k)
  {
    if n == 0 {
      ks := {};
    } else {
      var before := KeysBehind(t, s, n - 1);
      Chain(t, s, n - 1);
      var x := Back(s, n - 1, |t|);
      assert Holds(t, Back(s, n - 1, |t|), t[x].key);
      ks := before + {t[x].key};
    }
  }

  // ----- Rewriting one cell -----

  lemma SetPlaced<K, V>(t: seq<Cell<K, V>>, home: K -> nat, s: nat, c: Cell<K, V>)
    requires Placed(t, home) && s < |t|
    requires c.dist > 0 ==> c.dist <= |t| && home(c.key) == Back(s, c.dist - 1, |t|)
    ensures Placed(t[s := c], home)
  {
  }

  lemma SetOrdered<K, V>(t: seq<Cell<K, V>>, s: nat, c: Cell<K, V>)
    requires Ordered(t) && s < |t|
    requires c.dist <= t[Prev(s, |t|)].dist + 1 && t[Next(s, |t|)].dist <= c.dist + 1
    ensures Ordered(t[s := c])
  {
    var u := t[s := c];
    forall x | 0 <= x < |u|
      ensures u[Next(x, |u|)].dist <= u[x].dist + 1
    {
      assert t[Next(x, |t|)].dist <= t[x].dist + 1;
      assert Next(x, |t|) == s ==> x == Prev(s, |t|);
    }
  }

  lemma AddEntry<K, V>(t: seq<Cell<K, V>>, m: map<K, V>, s: nat, c: Cell<K, V>)
    requires s < |t| && t[s].dist == 0 && c.dist > 0
    requires c.key in m && m[c.key] == c.val
    requires Entries(t, m - {c.key})
    ensures Entries(t[s := c], m)
  {
    var u := t[s := c];
    forall k | k in m
      ensures exists x :: Holds(u, x, k)
    {
      if k == c.key {
        assert Holds(u, s, k);
      } else {
        assert k in m - {c.key};
        var x :| Holds(t, x, k);
        assert Holds(u, x, k);
      }
    }
  }

  lemma DropEntry<K, V>(t: seq<Cell<K, V>>, m: map<K, V>, s: nat, c: Cell<K, V>)
    requires s < |t| && t[s].dist > 0 && c.dist == 0
    requires Entries(t, m)
    ensures Entries(t[s := c], m - {t[s].key})
  {
    var u := t[s := c];
    forall k | k in m - {t[s].key}
      ensures exists x :: Holds(u, x, k)
    {
      var x :| Holds(t, x, k);
      assert Holds(u, x, k);
    }
  }

  // ----- Insertion -----

  // t together with the carried cell c, which has reached `slot`, holds m.
  ghost predicate Carrying<K, V>(t: seq<Cell<K, V>>, home: K -> nat, m: map<K, V>, slot: nat, c: Cell<K, V>) {
    && Placed(t, home) && Ordered(t)
    && slot < |t| && 1 <= c.dist <= |t|
    && home(c.key) == Back(slot, c.dist - 1, |t|)
    && c.dist <= t[Prev(slot, |t|)].dist + 1
    && c.key in m && m[c.key] == c.val
    && Entries(t, m - {c.key})
  }

  // Distances from `slot` up to the empty slot e are still at most b - 1, the
  // rest and the carried cell at most b.
  ghost predicate Bounded<K, V>(t: seq<Cell<K, V>>, slot: nat, c: Cell<K, V>, e: nat, b: nat) {
    && slot < |t| && e < |t| && t[e].dist == 0 && b >= 1
    && Within(t, b) && c.dist <= b
    && (forall s | 0 <= s < |t| && Gap(slot, s, |t|) <= Gap(slot, e, |t|) :: t[s].dist <= b - 1)
  }

  lemma InsertStart<K, V>(t: seq<Cell<K, V>>, home: K -> nat, m: map<K, V>, k: K, v: V, e: nat, b: nat)
    requires Table(t, home, m) && k !in m && home(k) < |t|
    requires e < |t| && t[e].dist == 0 && Within(t, b)
    ensures Carrying(t, home, m[k := v], home(k), Cell(k, v, 1))
    ensures Bounded(t, home(k), Cell(k, v, 1), e, b + 1)
  {
    assert m[k := v] - {k} == m;
  }

  // The carried cell fits in the empty slot, and m is then in the table.
  lemma InsertPlace<K, V>(t: seq<Cell<K, V>>, home: K -> nat, m: map<K, V>, slot: nat, c: Cell<K, V>, e: nat, b: nat)
    requires Carrying(t, home, m, slot, c) && Bounded(t, slot, c, e, b)
    requires t[slot].dist == 0
    ensures Table(t[slot := c], home, m) && Within(t[slot := c], b)
  {
    SetPlaced(t, home, slot, c);
    SetOrdered(t, slot, c);
    AddEntry(t, m, slot, c);
  }

  // Moving past an entry at least as far from home as the carried cell.
  lemma InsertSkip<K, V>(t: seq<Cell<K, V>>, home: K -> nat, m: map<K, V>, slot: nat, c: Cell<K, V>, e: nat, b: nat)
    requires Carrying(t, home, m, slot, c) && Bounded(t, slot, c, e, b)
    requires slot != e && t[slot].dist >= c.dist
    ensures Carrying(t, home, m, Next(slot, |t|), c.(dist := c.dist + 1))
    ensures Bounded(t, Next(slot, |t|), c.(dist := c.dist + 1), e, b)
    ensures Gap(Next(slot, |t|), e, |t|) < Gap(slot, e, |t|)
  {
    DistanceFromGap(t, e, slot);
    assert Prev(Next(slot, |t|), |t|) == slot;
    assert Gap(slot, slot, |t|) == 0;
  }

  // Taking the slot of an entry that is nearer to its home: that entry is
  // carried on instead.
  lemma InsertSwap<K, V>(t: seq<Cell<K, V>>, home: K -> nat, m: map<K, V>, slot: nat, c: Cell<K, V>, e: nat, b: nat)
    requires Carrying(t, home, m, slot, c) && Bounded(t, slot, c, e, b)
    requires 0 < t[slot].dist < c.dist
    ensures Carrying(t[slot := c], home, m, Next(slot, |t|), t[slot].(dist := t[slot].dist + 1))
    ensures Bounded(t[slot := c], Next(slot, |t|), t[slot].(dist := t[slot].dist + 1), e, b)
    ensures Gap(Next(slot, |t|), e, |t|) < Gap(slot, e, |t|)
  {
    var d := t[slot].(dist := t[slot].dist + 1);
    DistanceFromGap(t, e, slot);
    SetPlaced(t, home, slot, c);
    SetOrdered(t, slot, c);
    assert Prev(Next(slot, |t|), |t|) == slot;
    SwapEntry(t, m, slot, c);
    SwapBounded(t, slot, c, e, b);
  }

  lemma SwapEntry<K, V>(t: seq<Cell<K, V>>, m: map<K, V>, slot: nat, c: Cell<K, V>)
    requires slot < |t| && t[slot].dist > 0 && c.dist > 0
    requires c.key in m && m[c.key] == c.val
    requires Entries(t, m - {c.key})
    ensures t[slot].key in m && m[t[slot].key] == t[slot].val
    ensures Entries(t[slot := c], m - {t[slot].key})
  {
    var gone := t[slot].(dist := 0);
    var v := t[slot := gone];
    DropEntry(t, m - {c.key}, slot, gone);
    assert m - {c.key} - {t[slot].key} == (m - {t[slot].key}) - {c.key};
    AddEntry(v, m - {t[slot].key}, slot, c);
    assert v[slot := c] == t[slot := c];
  }

  lemma SwapBounded<K, V>(t: seq<Cell<K, V>>, slot: nat, c: Cell<K, V>, e: nat, b: nat)
    requires Bounded(t, slot, c, e, b) && 0 < t[slot].dist
    ensures Bounded(t[slot := c], Next(slot, |t|), t[slot].(dist := t[slot].dist + 1), e, b)
    ensures Gap(Next(slot, |t|), e, |t|) < Gap(slot, e, |t|)
  {
    assert Gap(slot, slot, |t|) == 0;
    var n := Next(slot, |t|);
    forall s | 0 <= s < |t| && Gap(n, s, |t|) <= Gap(n, e, |t|)
      ensures t[slot := c][s].dist <= b - 1
    {
      assert Gap(slot, s, |t|) <= Gap(slot, e, |t|) && s != slot;
    }
  }

  // ----- Removal by backward shift -----

  // The cell at `hole` is stale: without it the table holds m.
  ghost predicate Shifting<K, V>(t: seq<Cell<K, V>>, home: K -> nat, m: map<K, V>, hole: nat) {
    && Placed(t, home) && Ordered(t)
    && hole < |t| && t[hole].dist > 0
    && Entries(t[hole := t[hole].(dist := 0)], m)
  }

  lemma RemoveStart<K, V>(t: seq<Cell<K, V>>, home: K -> nat, m: map<K, V>, hole: nat)
    requires Table(t, home, m) && hole < |t| && t[hole].dist > 0
    ensures Shifting(t, home, m - {t[hole].key}, hole)
  {
    DropEntry(t, m, hole, t[hole].(dist := 0));
  }

  // The next cell is empty or at home: the hole is closed by emptying it.
  lemma RemoveStop<K, V>(t: seq<Cell<K, V>>, home: K -> nat, m: map<K, V>, hole: nat, c: Cell<K, V>, b: nat)
    requires Shifting(t, home, m, hole) && Within(t, b)
    requires t[Next(hole, |t|)].dist <= 1 && c.dist == 0
    ensures Table(t[hole := c], home, m) && Within(t[hole := c], b)
  {
    SetPlaced(t, home, hole, c);
    SetOrdered(t, hole, c);
    EmptyCellIrrelevant(t[hole := t[hole].(dist := 0)], m, hole, c);
    assert t[hole := t[hole].(dist := 0)][hole := c] == t[hole := c];
  }

  lemma EmptyCellIrrelevant<K, V>(t: seq<Cell<K, V>>, m: map<K, V>, s: nat, c: Cell<K, V>)
    requires Entries(t, m) && s < |t| && t[s].dist == 0 && c.dist == 0
    ensures Entries(t[s := c], m)
  {
    var u := t[s := c];
    forall k | k in m
      ensures exists x :: Holds(u, x, k)
    {
      var x :| Holds(t, x, k);
      assert Holds(u, x, k);
    }
  }

  // Otherwise the next cell moves back one slot and leaves the hole behind it.
  lemma RemoveShift<K, V>(t: seq<Cell<K, V>>, home: K -> nat, m: map<K, V>, hole: nat, c: Cell<K, V>, e: nat, b: nat)
    requires Shifting(t, home, m, hole) && Within(t, b)
    requires e < |t| && t[e].dist == 0
    requires t[Next(hole, |t|)].dist > 1
    requires c == t[Next(hole, |t|)].(dist := t[Next(hole, |t|)].dist - 1)
    ensures Shifting(t[hole := c], home, m, Next(hole, |t|)) && Within(t[hole := c], b)
    ensures t[hole := c][e].dist == 0
    ensures Gap(Next(hole, |t|), e, |t|) < Gap(hole, e, |t|)
  {
    var n := Next(hole, |t|);
    assert t[n].dist <= t[hole].dist + 1 && t[Next(Prev(hole, |t|), |t|)].dist <= t[Prev(hole, |t|)].dist + 1;
    DistanceFromGap(t, e, n);
    SetPlaced(t, home, hole, c);
    SetOrdered(t, hole, c);
    ShiftEntry(t, m, hole, n, c);
  }

  lemma EntryStands<K, V>(t: seq<Cell<K, V>>, m: map<K, V>, n: nat)
    requires Entries(t, m) && n < |t| && t[n].dist > 0
    ensures t[n].key in m && m[t[n].key] == t[n].val
  {
  }

  lemma ShiftEntry<K, V>(t: seq<Cell<K, V>>, m: map<K, V>, hole: nat, n: nat, c: Cell<K, V>)
    requires hole < |t| && n < |t| && n != hole && t[n].dist > 0
    requires c.dist > 0 && c.key == t[n].key && c.val == t[n].val
    requires Entries(t[hole := t[hole].(dist := 0)], m)
    ensures Entries(t[hole := c][n := t[n].(dist := 0)], m)
  {
    hide Entries;
    var v := t[hole := t[hole].(dist := 0)];
    var gone := t[n].(dist := 0);
    assert v[n] == t[n] && v[hole].dist == 0;
    EntryStands(v, m, n);
    DropEntry(v, m, n, gone);
    AddEntry(v[n := gone], m, hole, c);
    assert v[n := gone][hole := c] == t[hole := c][n := gone];
  }
}
