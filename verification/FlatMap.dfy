/**
 The general Robin Hood map: insert-or-update and lookup over one array of
 slots, for any hash function.
 */
module FlatMaps {
  import opened RobinHood

  // Probe sequence lengths are bytes; a lookup counts one past the largest.
  const MAX_PSL: nat := 254

  class FlatMap<K(==, 0, !new), V(0)> {
    const capacity: nat
    const hash: K -> nat
    const slots: array<Cell<K, V>>
    var size: nat
    ghost var contents: map<K, V>

    ghost predicate Valid()
      reads this, slots
    {
      && capacity > 0 && slots.Length == capacity
      && (forall k: K :: hash(k) < capacity)
      && Table(slots[..], hash, contents)
      && Within(slots[..], MAX_PSL)
      && size == |contents| <= capacity
    }

    constructor (capacity: nat, hash: K -> nat)
      requires capacity > 0
      requires forall k: K :: hash(k) < capacity
      ensures Valid() && contents == map[] && this.capacity == capacity && this.hash == hash
      ensures fresh(slots)
    {
      this.capacity := capacity;
      this.hash := hash;
      var fresh' := new Cell<K, V>[capacity];
      for i := 0 to capacity
        invariant forall s | 0 <= s < i :: fresh'[s].dist == 0
      {
        fresh'[i] := fresh'[i].(dist := 0);
      }
      slots := fresh';
      size := 0;
      contents := map[];
    }

    // idx & MASK
    function Wrap(idx: nat): (r: nat)
      requires 0 < capacity && idx < 2 * capacity
    {
      if idx < capacity then idx else idx - capacity
    }

    // The probe for a key has passed p slots and not met it.
    ghost predicate Probing(t: seq<Cell<K, V>>, key: K, slot: nat, p: nat) {
      && slot < |t| && p <= |t|
      && (p < |t| ==> hash(key) == Back(slot, p, |t|))
      && forall s :: Holds(t, s, key) ==> t[s].dist > p
    }

    lemma ProbeStep(t: seq<Cell<K, V>>, key: K, slot: nat, p: nat)
      requires Placed(t, hash) && Probing(t, key, slot, p)
      requires t[slot].key != key && p < t[slot].dist <= |t|
      ensures Probing(t, key, Next(slot, |t|), p + 1)
    {
      ProbeAdvance(t, hash, key, slot, p);
    }

    lemma ProbeEnds(t: seq<Cell<K, V>>, m: map<K, V>, key: K, slot: nat, p: nat)
      requires Table(t, hash, m) && Probing(t, key, slot, p) && t[slot].dist <= p
      ensures key !in m
    {
      if p < |t| {
        ProbeMayStop(t, hash, key, slot, p);
      }
    }

    method Find(key: K) returns (found: bool, value: V)
      requires Valid()
      ensures found <==> key in contents
      ensures found ==> value == contents[key]
    {
      hide Ordered; hide Distinct;
      value := slots[0].val;
      ghost var t := slots[..];
      var idx: nat := hash(key);
      var psl: nat := 1;
      while true
        invariant psl <= MAX_PSL + 1 && Probing(t, key, idx, psl - 1)
        decreases MAX_PSL + 1 - psl
      {
        if slots[idx].dist == 0 || psl > slots[idx].dist {
          ProbeEnds(t, contents, key, idx, psl - 1);
          return false, value;
        }
        if slots[idx].key == key {
          return true, slots[idx].val;
        }
        ProbeStep(t, key, idx, psl - 1);
        psl := psl + 1;
        idx := Wrap(idx + 1);
      }
    }

    // Inserting key -> value into m, with c carried at slot.  A key already in
    // m is only probed for; otherwise c is the new entry, or an entry displaced
    // after the new one was put down at `at`.
    ghost predicate Running(t: seq<Cell<K, V>>, m: map<K, V>, key: K, value: V, slot: nat, c: Cell<K, V>, e: nat,
                            at: nat) {
      && slot < |t| == capacity && 1 <= c.dist
      && if key in m then
           && Table(t, hash, m) && Within(t, MAX_PSL)
           && c == Cell(key, value, c.dist) && Probing(t, key, slot, c.dist - 1)
         else
           && Carrying(t, hash, m[key := value], slot, c) && Bounded(t, slot, c, e, MAX_PSL)
           && (c.key == key || (at < |t| && Holds(t, at, key) && Gap(at, e, |t|) > Gap(slot, e, |t|)))
    }

    // A key of m is met before an empty slot and before anything is displaced.
    lemma KnownKeyAhead(t: seq<Cell<K, V>>, m: map<K, V>, key: K, slot: nat, p: nat)
      requires Table(t, hash, m) && key in m && Probing(t, key, slot, p)
      ensures p < t[slot].dist
    {
      var s :| Holds(t, s, key);
      ProbeChain(t, hash, key, s, slot, p);
    }

    lemma Step(t: seq<Cell<K, V>>, m: map<K, V>, key: K, value: V, slot: nat, c: Cell<K, V>, e: nat, at: nat)
      requires Running(t, m, key, value, slot, c, e, at)
      requires t[slot].dist > 0 && t[slot].key != key
      ensures key in m ==> c.dist <= t[slot].dist <= MAX_PSL
      ensures key !in m ==> Gap(Next(slot, |t|), e, |t|) < Gap(slot, e, |t|)
      ensures
        if c.dist > t[slot].dist
        then Running(t[slot := c], m, key, value, Next(slot, |t|), t[slot].(dist := t[slot].dist + 1), e,
                     if c.key == key then slot else at)
        else Running(t, m, key, value, Next(slot, |t|), c.(dist := c.dist + 1), e, at)
    {
      hide Placed; hide Ordered; hide Entries; hide Within;
      if key in m {
        KnownKeyAhead(t, m, key, slot, c.dist - 1);
        PlacedAt(t, slot);
        ProbeStep(t, key, slot, c.dist - 1);
        WithinAt(t, MAX_PSL, slot);
      } else if c.dist > t[slot].dist {
        InsertSwap(t, hash, m[key := value], slot, c, e, MAX_PSL);
      } else {
        InsertSkip(t, hash, m[key := value], slot, c, e, MAX_PSL);
      }
    }

    lemma PlacedAt(t: seq<Cell<K, V>>, slot: nat)
      requires Placed(t, hash) && slot < |t| && t[slot].dist > 0
      ensures t[slot].dist <= |t|
    {
    }

    lemma WithinAt(t: seq<Cell<K, V>>, b: nat, slot: nat)
      requires Within(t, b) && slot < |t|
      ensures t[slot].dist <= b
    {
    }

    // Rewriting the value of the entry that holds key.
    lemma ValueUpdate(t: seq<Cell<K, V>>, m: map<K, V>, slot: nat, value: V)
      requires Table(t, hash, m) && Within(t, MAX_PSL) && slot < |t| && t[slot].dist > 0
      ensures Table(t[slot := t[slot].(val := value)], hash, m[t[slot].key := value])
      ensures Within(t[slot := t[slot].(val := value)], MAX_PSL)
    {
      var c := t[slot].(val := value);
      assert t[Next(Prev(slot, |t|), |t|)] == t[slot];
      SetPlaced(t, hash, slot, c);
      SetOrdered(t, slot, c);
      var gone := t[slot].(dist := 0);
      DropEntry(t, m, slot, gone);
      assert m[c.key := value] - {c.key} == m - {c.key};
      AddEntry(t[slot := gone], m[c.key := value], slot, c);
      assert t[slot := gone][slot := c] == t[slot := c];
    }

    method Insert(key: K, value: V) returns (inserted: bool)
      requires Valid()
      requires key in contents || (size < capacity && Within(slots[..], MAX_PSL - 1))
      modifies this`size, this`contents, slots
      ensures Valid() && contents == old(contents)[key := value]
      ensures inserted <==> key !in old(contents)
    {
      hide Table; hide Within; hide Running; hide Gap;
      ghost var t, m := slots[..], contents;
      var idx: nat := hash(key);
      var incoming := Cell(key, value, 1);
      ghost var at: nat := 0;
      ghost var e := StartRun(t, m, key, value);
      contents := contents[key := value];
      RunningParts(t, m, key, value, idx, incoming, e, at);
      while slots[idx].dist != 0
        invariant size == old(size) && contents == m[key := value] && idx < capacity && incoming.dist >= 1
          && (key in m || e < capacity)
        invariant t == slots[..] && Running(t, m, key, value, idx, incoming, e, at)
        decreases if key in m then MAX_PSL + 1 - incoming.dist else Gap(idx, e, capacity)
      {
        if slots[idx].key == key {
          FoundRun(t, m, key, value, idx, incoming, e, at);
          slots[idx] := slots[idx].(val := value);
          return false;
        }
        Step(t, m, key, value, idx, incoming, e, at);
        if incoming.dist > slots[idx].dist {
          t, at := t[idx := incoming], if incoming.key == key then idx else at;
          var tmp := slots[idx];
          slots[idx] := incoming;
          incoming := tmp;
        }
        incoming := incoming.(dist := incoming.dist + 1);
        idx := Wrap(idx + 1);
        RunningParts(t, m, key, value, idx, incoming, e, at);
      }
      FinishRun(t, m, key, value, idx, incoming, e, at);
      slots[idx] := incoming;
      size := size + 1;
      return true;
    }

    lemma RunningParts(t: seq<Cell<K, V>>, m: map<K, V>, key: K, value: V, slot: nat, c: Cell<K, V>, e: nat, at: nat)
      requires Running(t, m, key, value, slot, c, e, at)
      ensures slot < |t| == capacity && c.dist >= 1 && (key in m || e < |t|)
    {
    }

    lemma StartRun(t: seq<Cell<K, V>>, m: map<K, V>, key: K, value: V) returns (e: nat)
      requires Table(t, hash, m) && |t| == capacity > 0 && hash(key) < capacity && Within(t, MAX_PSL)
      requires key in m || (|m| < capacity && Within(t, MAX_PSL - 1))
      ensures Running(t, m, key, value, hash(key), Cell(key, value, 1), e, 0)
    {
      hide Placed; hide Ordered; hide Entries; hide Within;
      e := 0;
      if key !in m {
        e := EmptySlotExists(t, m);
        InsertStart(t, hash, m, key, value, e, MAX_PSL - 1);
      } else {
        ProbeStart(t, key);
      }
    }

    // The key's entry is met: its value is replaced.
    lemma FoundRun(t: seq<Cell<K, V>>, m: map<K, V>, key: K, value: V, slot: nat, c: Cell<K, V>, e: nat, at: nat)
      requires Running(t, m, key, value, slot, c, e, at) && Holds(t, slot, key)
      ensures key in m && m.Keys == m[key := value].Keys
      ensures var t' := t[slot := t[slot].(val := value)]; Table(t', hash, m[key := value]) && Within(t', MAX_PSL)
    {
      hide Placed; hide Ordered; hide Entries; hide Within; hide Carrying; hide Bounded; hide Probing;
      MetKey(t, m, key, value, slot, c, e, at);
      ValueUpdate(t, m, slot, value);
    }

    // An empty slot is met: the carried entry goes there, and the key was new.
    lemma FinishRun(t: seq<Cell<K, V>>, m: map<K, V>, key: K, value: V, slot: nat, c: Cell<K, V>, e: nat, at: nat)
      requires Running(t, m, key, value, slot, c, e, at) && t[slot].dist == 0
      ensures key !in m && Table(t[slot := c], hash, m[key := value]) && Within(t[slot := c], MAX_PSL)
    {
      hide Placed; hide Ordered; hide Entries; hide Within; hide Probing; hide Carrying; hide Bounded;
      if key in m {
        KnownKeyAhead(t, m, key, slot, c.dist - 1);
      } else {
        InsertPlace(t, hash, m[key := value], slot, c, e, MAX_PSL);
      }
    }

    lemma ProbeStart(t: seq<Cell<K, V>>, key: K)
      requires hash(key) < |t|
      ensures Probing(t, key, hash(key), 0)
    {
    }

    lemma MetKey(t: seq<Cell<K, V>>, m: map<K, V>, key: K, value: V, slot: nat, c: Cell<K, V>, e: nat, at: nat)
      requires Running(t, m, key, value, slot, c, e, at) && Holds(t, slot, key)
      ensures key in m
    {
    }
  }
}
