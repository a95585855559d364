/**
 The price -> level index map of an order book side: Robin Hood probing over
 three parallel arrays, key 0 marking an empty slot.
 */
module PriceMap {
  import opened RobinHood

  const NULL_INDEX: nat := 0xFFFF_FFFF
  const PRICE_MAP_CAPACITY: nat := 8192

  // Probe distances are bytes.  A lookup counts one past the largest distance
  // it meets, so 254 is the largest that never wraps.
  const MAX_DISTANCE: nat := 254

  // Fibonacci hashing of the two's complement bits of a 64-bit price.
  function Hash(price: int): (h: nat)
    ensures h < PRICE_MAP_CAPACITY
  {
    ((price % 0x1_0000_0000_0000_0000) * 0x9E37_79B9_7F4A_7C15 % 0x1_0000_0000_0000_0000)
    / 0x8_0000_0000_0000 % PRICE_MAP_CAPACITY
  }

  ghost function Zip(ks: seq<int>, vs: seq<nat>, ds: seq<nat>): (t: seq<Cell<int, nat>>)
    requires |ks| == |vs| == |ds|
    ensures |t| == |ks| && forall i | 0 <= i < |t| :: t[i] == Cell(ks[i], vs[i], ds[i])
  {
    seq(|ks|, i requires 0 <= i < |ks| => Cell(ks[i], vs[i], ds[i]))
  }

  class PriceHashMap {
    const keys: array<int>
    const values: array<nat>
    const distances: array<nat>
    ghost var contents: map<int, nat>

    ghost predicate Shape()
      reads this
    {
      && keys.Length == values.Length == distances.Length == PRICE_MAP_CAPACITY
      && values != distances
    }

    ghost function Cells(): (t: seq<Cell<int, nat>>)
      requires Shape()
      reads this, keys, values, distances
    {
      Zip(keys[..], values[..], distances[..])
    }

    // The sentinel key marks exactly the empty cells.
    ghost predicate Sentinels(t: seq<Cell<int, nat>>) {
      forall s | 0 <= s < |t| :: t[s].dist == 0 <==> t[s].key == 0
    }

    ghost predicate Valid()
      reads this, keys, values, distances
    {
      && Shape()
      && Sentinels(Cells())
      && Table(Cells(), Hash, contents)
      && Within(Cells(), MAX_DISTANCE)
      && |contents| < PRICE_MAP_CAPACITY
    }

    // Another price can be inserted without a probe distance overflowing.
    ghost predicate Headroom()
      reads this, keys, values, distances
    {
      Shape() && Within(Cells(), MAX_DISTANCE - 1)
    }

    constructor ()
      ensures Valid() && Headroom() && contents == map[]
      ensures fresh(keys) && fresh(values) && fresh(distances)
    {
      keys := new int[PRICE_MAP_CAPACITY](_ => 0);
      values := new nat[PRICE_MAP_CAPACITY](_ => NULL_INDEX);
      distances := new nat[PRICE_MAP_CAPACITY](_ => 0);
      contents := map[];
    }

    // Probe distances never exceed the number of prices, so a map of fewer than
    // 254 has room.
    lemma FewPrices()
      requires Valid() && |contents| < MAX_DISTANCE
      ensures Headroom()
    {
      hide Hash; hide Table; hide Zip;
      forall s | 0 <= s < |Cells()|
        ensures Cells()[s].dist <= MAX_DISTANCE - 1
      {
        DistanceAtMostCount(Cells(), Hash, contents, s);
      }
    }

    // Four-lane key comparison: the first of four slots holding the price, or 4.
    method FirstMatch(slot: nat, price: int) returns (i: nat)
      requires Shape() && slot + 4 <= PRICE_MAP_CAPACITY
      ensures i <= 4
      ensures i < 4 ==> keys[slot + i] == price
      ensures forall j | slot <= j < slot + i :: keys[j] != price
    {
      i := 0;
      while i < 4 && keys[slot + i] != price
        invariant i <= 4
        invariant forall j | slot <= j < slot + i :: keys[j] != price
      {
        i := i + 1;
      }
    }

    // The probe for a price has passed `dist` slots and not met it.
    ghost predicate Probing(t: seq<Cell<int, nat>>, price: int, slot: nat, dist: nat) {
      && slot < PRICE_MAP_CAPACITY && dist <= MAX_DISTANCE + 1
      && Hash(price) == Back(slot, dist, PRICE_MAP_CAPACITY)
      && forall s :: Holds(t, s, price) ==> t[s].dist > dist
    }

    // One slot that neither holds the price nor ends the probe.
    lemma ProbeStep(t: seq<Cell<int, nat>>, price: int, slot: nat, dist: nat)
      requires |t| == PRICE_MAP_CAPACITY && Placed(t, Hash) && Within(t, MAX_DISTANCE)
      requires Probing(t, price, slot, dist)
      requires t[slot].key != price && dist <= t[slot].dist
      ensures Probing(t, price, Wrap(slot + 1), dist + 1)
    {
      hide Hash;
      ProbeAdvance(t, Hash, price, slot, dist);
    }

    lemma ProbeEnds(t: seq<Cell<int, nat>>, price: int, slot: nat, dist: nat)
      requires |t| == PRICE_MAP_CAPACITY && Table(t, Hash, contents)
      requires Probing(t, price, slot, dist)
      requires t[slot].dist <= dist
      ensures price !in contents
    {
      hide Hash;
      ProbeMayStop(t, Hash, price, slot, dist);
    }

    // Four slots without the price: whether the probe ends at one of them.
    method PassFour(price: int, slot: nat, dist: nat) returns (ended: bool)
      requires Valid() && price != 0 && slot + 4 <= PRICE_MAP_CAPACITY && Probing(Cells(), price, slot, dist)
      requires forall j | slot <= j < slot + 4 :: keys[j] != price
      ensures if ended then price !in contents else Probing(Cells(), price, Wrap(slot + 4), dist + 4)
    {
      hide Hash; hide Placed; hide Ordered; hide Entries; hide Within; hide Probing;
      ghost var t := Cells();
      var i := 0;
      while i < 4
        invariant i <= 4 && Probing(t, price, Wrap(slot + i), dist + i)
      {
        var s := slot + i;
        if (distances[s] == 0 && keys[s] == 0) || dist + i > distances[s] {
          ProbeEnds(t, price, s, dist + i);
          return true;
        }
        ProbeStep(t, price, s, dist + i);
        i := i + 1;
      }
      return false;
    }

    method Find(price: int) returns (r: nat)
      requires Valid() && price != 0
      ensures r == if price in contents then contents[price] else NULL_INDEX
    {
      hide Hash; hide Placed; hide Ordered; hide Distinct; hide Within;
      ghost var t := Cells();
      var slot: nat := Hash(price);
      var dist: nat := 0;
      while slot + 4 <= PRICE_MAP_CAPACITY
        invariant Probing(t, price, slot, dist)
        decreases MAX_DISTANCE + 1 - dist
      {
        var offset := FirstMatch(slot, price);
        if offset < 4 {
          assert t[slot + offset].key == price;
          return values[slot + offset];
        }
        var ended := PassFour(price, slot, dist);
        if ended {
          return NULL_INDEX;
        }
        slot := Wrap(slot + 4);
        dist := dist + 4;
      }
      r := FindScalar(price, slot, dist);
    }

    // The one-slot probe, which alone may wrap around the end of the table.
    method FindScalar(price: int, start: nat, passed: nat) returns (r: nat)
      requires Valid() && price != 0 && Probing(Cells(), price, start, passed)
      ensures r == if price in contents then contents[price] else NULL_INDEX
    {
      hide Hash; hide Placed; hide Ordered; hide Distinct; hide Within;
      ghost var t := Cells();
      var slot, dist := start, passed;
      while true
        invariant Probing(t, price, slot, dist)
        decreases MAX_DISTANCE + 1 - dist
      {
        if (distances[slot] == 0 && keys[slot] == 0) || dist > distances[slot] {
          ProbeEnds(t, price, slot, dist);
          return NULL_INDEX;
        }
        if keys[slot] == price {
          assert t[slot].key == price;
          return values[slot];
        }
        ProbeStep(t, price, slot, dist);
        slot := Wrap(slot + 1);
        dist := dist + 1;
      }
    }

    // slot & PRICE_MAP_MASK
    static function Wrap(slot: nat): (r: nat)
      requires slot < 2 * PRICE_MAP_CAPACITY
      ensures r < PRICE_MAP_CAPACITY
    {
      if slot < PRICE_MAP_CAPACITY then slot else slot - PRICE_MAP_CAPACITY
    }

    ghost predicate Inserting(t: seq<Cell<int, nat>>, m: map<int, nat>, slot: nat, c: Cell<int, nat>, e: nat) {
      Sentinels(t) && c.key != 0 && Carrying(t, Hash, m, slot, c) && Bounded(t, slot, c, e, MAX_DISTANCE)
    }

    // The slot is occupied: the nearer to home of its entry and c is carried on.
    lemma InsertStep(t: seq<Cell<int, nat>>, m: map<int, nat>, slot: nat, c: Cell<int, nat>, e: nat)
      requires Inserting(t, m, slot, c, e) && |t| == PRICE_MAP_CAPACITY && t[slot].dist > 0
      ensures Gap(Wrap(slot + 1), e, |t|) < Gap(slot, e, |t|)
      ensures
        if t[slot].dist < c.dist
        then Inserting(t[slot := c], m, Wrap(slot + 1), t[slot].(dist := t[slot].dist + 1), e)
        else Inserting(t, m, Wrap(slot + 1), c.(dist := c.dist + 1), e)
    {
      hide Placed; hide Ordered; hide Entries; hide Hash; hide Within;
      if t[slot].dist < c.dist {
        InsertSwap(t, Hash, m, slot, c, e, MAX_DISTANCE);
      } else {
        InsertSkip(t, Hash, m, slot, c, e, MAX_DISTANCE);
      }
    }

    // One occupied slot: keeps the entry farther from home, carries on the other.
    method Displace(slot: nat, key: int, val: nat, dist: nat, ghost e: nat)
      returns (key': int, val': nat, dist': nat, ghost t: seq<Cell<int, nat>>)
      requires Shape() && slot < PRICE_MAP_CAPACITY && Cells()[slot].dist > 0
      requires Inserting(Cells(), contents, slot, Cell(key, val, dist), e)
      modifies keys, values, distances
      ensures t == Cells() && Inserting(t, contents, Wrap(slot + 1), Cell(key', val', dist'), e)
      ensures Gap(Wrap(slot + 1), e, PRICE_MAP_CAPACITY) < Gap(slot, e, PRICE_MAP_CAPACITY)
    {
      hide Inserting; hide Zip;
      t := Cells();
      InsertStep(t, contents, slot, Cell(key, val, dist), e);
      key', val', dist' := key, val, dist + 1;
      if distances[slot] < dist {
        t := t[slot := Cell(key, val, dist)];
        key', val', dist' := keys[slot], values[slot], distances[slot] + 1;
        Put(slot, key, val, dist);
      }
    }

    method Insert(price: int, level: nat)
      requires Valid() && price != 0 && price !in contents
      requires |contents| + 1 < PRICE_MAP_CAPACITY
      requires Headroom()
      modifies this`contents, keys, values, distances
      ensures Valid() && contents == old(contents)[price := level]
    {
      hide Placed; hide Ordered; hide Entries; hide Hash; hide Within; hide Zip;
      ghost var t := Cells();
      ghost var e := EmptySlotExists(t, contents);
      InsertStart(t, Hash, contents, price, level, e, MAX_DISTANCE - 1);
      contents := contents[price := level];
      var slot: nat := Hash(price);
      var key, val, dist: nat := price, level, 1;
      while distances[slot] != 0 || keys[slot] != 0
        invariant contents == old(contents)[price := level] && slot < PRICE_MAP_CAPACITY && t == Cells()
        invariant Inserting(t, contents, slot, Cell(key, val, dist), e)
        decreases Gap(slot, e, PRICE_MAP_CAPACITY)
      {
        key, val, dist, t := Displace(slot, key, val, dist, e);
        slot := Wrap(slot + 1);
      }
      InsertPlace(t, Hash, contents, slot, Cell(key, val, dist), e, MAX_DISTANCE);
      Put(slot, key, val, dist);
    }

    // Writes one cell across the three arrays.
    method Put(slot: nat, key: int, val: nat, dist: nat)
      requires Shape() && slot < PRICE_MAP_CAPACITY
      modifies keys, values, distances
      ensures Cells() == old(Cells())[slot := Cell(key, val, dist)]
    {
      keys[slot] := key;
      values[slot] := val;
      distances[slot] := dist;
    }

    method Remove(price: int)
      requires Valid() && price != 0
      modifies this`contents, keys, values, distances
      ensures Valid() && contents == old(contents) - {price}
      ensures forall b: nat :: old(Within(Cells(), b)) ==> Within(Cells(), b)
    {
      hide Hash; hide Placed; hide Ordered; hide Entries; hide Within; hide Zip;
      ghost var e := EmptySlotExists(Cells(), contents);
      var found, slot := Locate(price, e);
      if found {
        RemoveStart(Cells(), Hash, contents, slot);
        contents := contents - {price};
        BackwardShift(slot, e);
      }
    }

    // Scans from the home slot to the price or to the first empty slot.
    method Locate(price: int, ghost e: nat) returns (found: bool, slot: nat)
      requires Valid() && price != 0 && e < PRICE_MAP_CAPACITY && Cells()[e].dist == 0
      ensures found ==> slot < PRICE_MAP_CAPACITY && Holds(Cells(), slot, price)
      ensures !found ==> price !in contents
    {
      hide Hash; hide Placed; hide Ordered; hide Entries; hide Within;
      ghost var t, p := Cells(), 0;
      slot := Hash(price);
      while keys[slot] != price
        invariant slot < PRICE_MAP_CAPACITY
        invariant p + Gap(slot, e, PRICE_MAP_CAPACITY) == Gap(Hash(price), e, PRICE_MAP_CAPACITY)
        invariant Hash(price) == Back(slot, p, PRICE_MAP_CAPACITY)
        invariant forall s :: Holds(t, s, price) ==> t[s].dist > p
        decreases Gap(slot, e, PRICE_MAP_CAPACITY)
      {
        if distances[slot] == 0 && keys[slot] == 0 {
          ProbeMayStop(t, Hash, price, slot, p);
          NotHeld(t, contents, price);
          return false, slot;
        }
        ProbeAdvance(t, Hash, price, slot, p);
        slot, p := Wrap(slot + 1), p + 1;
      }
      return true, slot;
    }

    method BackwardShift(hole: nat, ghost e: nat)
      requires Shape() && Sentinels(Cells()) && Shifting(Cells(), Hash, contents, hole)
      requires Within(Cells(), MAX_DISTANCE) && |contents| < PRICE_MAP_CAPACITY
      requires e < PRICE_MAP_CAPACITY && Cells()[e].dist == 0
      modifies keys, values, distances
      ensures Valid()
      ensures forall b: nat :: old(Within(Cells(), b)) ==> Within(Cells(), b)
    {
      hide Hash; hide Placed; hide Ordered; hide Entries; hide Within; hide Zip;
      ghost var t := Cells();
      var slot := hole;
      while true
        invariant Shape() && t == Cells() && Sentinels(t)
        invariant Shifting(t, Hash, contents, slot)
        invariant t[e].dist == 0
        invariant forall b: nat :: old(Within(Cells(), b)) ==> Within(t, b)
        decreases Gap(slot, e, PRICE_MAP_CAPACITY)
      {
        hide Shifting;
        var next := Wrap(slot + 1);
        ghost var c := if t[next].dist <= 1 then Cell(0, NULL_INDEX, 0) else t[next].(dist := t[next].dist - 1);
        if distances[next] <= 1 {
          forall b: nat | Within(t, b) {
            RemoveStop(t, Hash, contents, slot, c, b);
          }
          Put(slot, 0, NULL_INDEX, 0);
          return;
        }
        forall b: nat | Within(t, b) {
          RemoveShift(t, Hash, contents, slot, c, e, b);
        }
        Put(slot, keys[next], values[next], distances[next] - 1);
        t, slot := t[slot := c], next;
      }
    }
  }
}
