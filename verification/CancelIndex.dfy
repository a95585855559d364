/**
 The cancel lookup table: open addressing with tombstones and at most 64
 probes, from (contestant, client order id) keys to order slots.
 */
module CancelMap {
  import PriceMap

  const NULL: nat := PriceMap.NULL_INDEX
  const CANCEL_MAP_SIZE: nat := 65536
  const MAX_PROBES: nat := 64

  // (cid << 32) | client_oid
  function MakeKey(cid: nat, clientOid: nat): (k: nat) {
    cid * 0x1_0000_0000 + clientOid
  }

  // Different orders have different keys, for 32-bit client ids.
  lemma KeysDiffer(cid: nat, oid: nat, cid': nat, oid': nat)
    requires oid < 0x1_0000_0000 && oid' < 0x1_0000_0000
    ensures MakeKey(cid, oid) == MakeKey(cid', oid') <==> cid == cid' && oid == oid'
  {
  }

  function Hash(key: nat): (h: nat)
    ensures h < CANCEL_MAP_SIZE
  {
    (key * 0x9E37_79B9_7F4A_7C15 % 0x1_0000_0000_0000_0000) / 0x1_0000_0000_0000 % CANCEL_MAP_SIZE
  }

  function Probe(key: nat, i: nat): (s: nat)
    requires i < CANCEL_MAP_SIZE
    ensures s < CANCEL_MAP_SIZE
  {
    var h := Hash(key);
    if h + i < CANCEL_MAP_SIZE then h + i else h + i - CANCEL_MAP_SIZE
  }

  // Key 0 marks a slot never used; a used slot without a value is a tombstone.
  datatype Entry = Entry(key: nat, val: nat)

  ghost predicate Free(e: Entry) {
    e.key == 0 || e.val == NULL
  }

  // A live entry of key k.
  ghost predicate LiveOf(e: Entry, k: nat) {
    e.key == k && e.val != NULL && k != 0
  }

  // ----- What a table stores -----

  // The first probe from i on that holds a live entry of k, or MAX_PROBES.
  ghost function FirstLive(t: seq<Entry>, k: nat, i: nat): (p: nat)
    requires |t| == CANCEL_MAP_SIZE
    ensures i <= MAX_PROBES ==> i <= p <= MAX_PROBES
    ensures p < MAX_PROBES ==> LiveOf(t[Probe(k, p)], k)
    ensures forall j | i <= j < p && j < MAX_PROBES :: !LiveOf(t[Probe(k, j)], k)
    decreases MAX_PROBES - i
  {
    if i >= MAX_PROBES then i
    else if LiveOf(t[Probe(k, i)], k) then i
    else FirstLive(t, k, i + 1)
  }

  ghost predicate ChainTo(t: seq<Entry>, k: nat, i: nat)
    requires |t| == CANCEL_MAP_SIZE
  {
    i < MAX_PROBES && forall j | 0 <= j < i :: t[Probe(k, j)].key != 0
  }

  // Every live entry stands on the probe path of its key, behind used slots.
  ghost predicate Chained(t: seq<Entry>)
    requires |t| == CANCEL_MAP_SIZE
  {
    && (forall s | 0 <= s < |t| && t[s].key == 0 :: t[s].val == NULL)
    && forall s | 0 <= s < |t| && t[s].val != NULL ::
      exists i | 0 <= i < MAX_PROBES :: Probe(t[s].key, i) == s && ChainTo(t, t[s].key, i)
  }

  // A lookup of k in t gives m's answer.
  ghost predicate Answers(t: seq<Entry>, m: map<nat, nat>, k: nat)
    requires |t| == CANCEL_MAP_SIZE
  {
    var p := FirstLive(t, k, 0);
    if p < MAX_PROBES then k in m && m[k] == t[Probe(k, p)].val else k !in m
  }

  ghost predicate Represents(t: seq<Entry>, m: map<nat, nat>) {
    |t| == CANCEL_MAP_SIZE && Chained(t) && forall k: nat :: Answers(t, m, k)
  }

  // The first slot of key k is its live entry, and there is no other live one.
  // A key that is only inserted while it is not stored stays so.
  ghost predicate Sole(t: seq<Entry>, k: nat) {
    && |t| == CANCEL_MAP_SIZE
    && var p := FirstLive(t, k, 0);
      && p < MAX_PROBES && (forall j | 0 <= j < p :: t[Probe(k, j)].key != k)
      && forall j | p < j < MAX_PROBES :: !LiveOf(t[Probe(k, j)], k)
  }

  lemma FirstLiveIs(t: seq<Entry>, k: nat, p: nat)
    requires |t| == CANCEL_MAP_SIZE && p <= MAX_PROBES && (p < MAX_PROBES ==> LiveOf(t[Probe(k, p)], k))
    requires forall j | 0 <= j < p :: !LiveOf(t[Probe(k, j)], k)
    ensures FirstLive(t, k, 0) == p
  {
    hide FirstLive; hide Probe;
  }

  // Tables that agree on which slots are live entries of k agree on k.
  lemma SameFirst(t: seq<Entry>, t': seq<Entry>, k: nat)
    requires |t| == |t'| == CANCEL_MAP_SIZE
    requires forall s | 0 <= s < |t| :: LiveOf(t'[s], k) <==> LiveOf(t[s], k)
    ensures FirstLive(t', k, 0) == FirstLive(t, k, 0)
  {
    hide FirstLive; hide Probe; hide LiveOf;
    FirstLiveIs(t', k, FirstLive(t, k, 0));
  }

  lemma ProbesDiffer(k: nat, i: nat, j: nat)
    requires i < MAX_PROBES && j < MAX_PROBES && i != j
    ensures Probe(k, i) != Probe(k, j)
  {
    hide Hash;
  }

  // Behind an unused slot there is no live entry of k.
  lemma StopsAtUnused(t: seq<Entry>, k: nat, i: nat)
    requires |t| == CANCEL_MAP_SIZE && Chained(t) && i < MAX_PROBES && t[Probe(k, i)].key == 0
    requires forall j | 0 <= j < i :: !LiveOf(t[Probe(k, j)], k)
    ensures FirstLive(t, k, 0) == MAX_PROBES
  {
    hide FirstLive; hide Probe;
    forall j | 0 <= j < MAX_PROBES
      ensures !LiveOf(t[Probe(k, j)], k)
    {
      if j > i && LiveOf(t[Probe(k, j)], k) {
        var x :| 0 <= x < MAX_PROBES && Probe(k, x) == Probe(k, j) && ChainTo(t, k, x);
        if x != j {
          ProbesDiffer(k, x, j);
        }
      }
    }
    FirstLiveIs(t, k, MAX_PROBES);
  }

  // ----- Inserting -----

  lemma ChainedSet(t: seq<Entry>, s: nat, e: Entry)
    requires |t| == CANCEL_MAP_SIZE && Chained(t) && s < |t| && e.key != 0
    requires e.val != NULL ==> exists i | 0 <= i < MAX_PROBES :: Probe(e.key, i) == s && ChainTo(t, e.key, i)
    ensures Chained(t[s := e])
  {
    hide Probe;
    var t' := t[s := e];
    forall x | 0 <= x < |t'| && t'[x].val != NULL
      ensures exists i | 0 <= i < MAX_PROBES :: Probe(t'[x].key, i) == x && ChainTo(t', t'[x].key, i)
    {
      var i :| 0 <= i < MAX_PROBES && Probe(t'[x].key, i) == x && ChainTo(t, t'[x].key, i);
      assert ChainTo(t', t'[x].key, i);
    }
  }

  // Where a lookup of k finds something after k was put at its probe i.
  lemma InsertOwn(t: seq<Entry>, k: nat, i: nat, v: nat)
    requires |t| == CANCEL_MAP_SIZE && k != 0 && v != NULL && i < MAX_PROBES && Free(t[Probe(k, i)])
    ensures var p := FirstLive(t, k, 0);
      FirstLive(t[Probe(k, i) := Entry(k, v)], k, 0) == if i < p then i else p
  {
    hide FirstLive; hide Hash;
    var p, t' := FirstLive(t, k, 0), t[Probe(k, i) := Entry(k, v)];
    forall j | 0 <= j < MAX_PROBES && j != i
      ensures t'[Probe(k, j)] == t[Probe(k, j)]
    {
      ProbesDiffer(k, i, j);
    }
    FirstLiveIs(t', k, if i < p then i else p);
  }

  ghost function Inserted(t: seq<Entry>, m: map<nat, nat>, k: nat, i: nat, v: nat): (m': map<nat, nat>)
    requires |t| == CANCEL_MAP_SIZE
  {
    if i < FirstLive(t, k, 0) then m[k := v] else m
  }

  // The new entry is found if it comes before any older one; no other key is
  // disturbed.
  lemma InsertKeeps(t: seq<Entry>, m: map<nat, nat>, k: nat, i: nat, v: nat)
    requires Represents(t, m) && k != 0 && v != NULL && i < MAX_PROBES
    requires Free(t[Probe(k, i)]) && forall j | 0 <= j < i :: !Free(t[Probe(k, j)])
    ensures Represents(t[Probe(k, i) := Entry(k, v)], Inserted(t, m, k, i, v))
  {
    hide FirstLive; hide Probe;
    var x := Probe(k, i);
    var t', m' := t[x := Entry(k, v)], Inserted(t, m, k, i, v);
    assert ChainTo(t, k, i);
    ChainedSet(t, x, Entry(k, v));
    InsertOwn(t, k, i, v);
    forall y: nat
      ensures Answers(t', m', y)
    {
      assert Answers(t, m, y);
      if y != k {
        SameFirst(t, t', y);
      } else if i >= FirstLive(t, k, 0) && FirstLive(t, k, 0) < MAX_PROBES {
        assert t'[Probe(k, FirstLive(t, k, 0))] == t[Probe(k, FirstLive(t, k, 0))];
      }
    }
  }

  lemma InsertSole(t: seq<Entry>, k: nat, i: nat, v: nat)
    requires |t| == CANCEL_MAP_SIZE && k != 0 && v != NULL && i < MAX_PROBES
    requires Free(t[Probe(k, i)]) && forall j | 0 <= j < i :: !Free(t[Probe(k, j)])
    ensures var t' := t[Probe(k, i) := Entry(k, v)];
      && (FirstLive(t, k, 0) == MAX_PROBES ==> Sole(t', k))
      && forall y: nat | y != k && Sole(t, y) :: Sole(t', y)
  {
    hide FirstLive; hide Hash;
    var t' := t[Probe(k, i) := Entry(k, v)];
    InsertOwn(t, k, i, v);
    if FirstLive(t, k, 0) == MAX_PROBES {
      forall j | 0 <= j < MAX_PROBES && j != i
        ensures t'[Probe(k, j)] == t[Probe(k, j)] && !LiveOf(t[Probe(k, j)], k)
      {
        ProbesDiffer(k, i, j);
      }
    }
    forall y: nat | y != k && Sole(t, y)
      ensures Sole(t', y)
    {
      SameFirst(t, t', y);
    }
  }

  // ----- Removing -----

  // A tombstone in a slot of key k disturbs no other key.
  lemma RemoveOther(t: seq<Entry>, x: nat, k: nat, y: nat)
    requires |t| == CANCEL_MAP_SIZE && x < |t| && t[x].key == k && y != k
    ensures FirstLive(t[x := Entry(k, NULL)], y, 0) == FirstLive(t, y, 0)
    ensures Sole(t, y) ==> Sole(t[x := Entry(k, NULL)], y)
  {
    hide FirstLive; hide Probe;
    SameFirst(t, t[x := Entry(k, NULL)], y);
  }

  ghost function Removed(t: seq<Entry>, m: map<nat, nat>, k: nat): (m': map<nat, nat>)
    requires |t| == CANCEL_MAP_SIZE
  {
    var p := FirstLive(t, k, 0);
    if p < MAX_PROBES then m[k := t[Probe(k, p)].val] else m - {k}
  }

  lemma RemoveKeeps(t: seq<Entry>, m: map<nat, nat>, k: nat, x: nat)
    requires Represents(t, m) && k != 0 && x < |t| && t[x].key == k
    ensures var t' := t[x := Entry(k, NULL)]; Represents(t', Removed(t', m, k))
  {
    hide FirstLive; hide Probe;
    var t' := t[x := Entry(k, NULL)];
    ChainedSet(t, x, Entry(k, NULL));
    forall y: nat
      ensures Answers(t', Removed(t', m, k), y)
    {
      assert Answers(t, m, y);
      if y != k {
        RemoveOther(t, x, k, y);
      }
    }
  }

  lemma RemoveSole(t: seq<Entry>, k: nat, i: nat)
    requires Sole(t, k) && i < MAX_PROBES && t[Probe(k, i)].key == k && forall j | 0 <= j < i :: t[Probe(k, j)].key != k
    ensures FirstLive(t[Probe(k, i) := Entry(k, NULL)], k, 0) == MAX_PROBES
  {
    hide FirstLive; hide Probe;
    var p, t' := FirstLive(t, k, 0), t[Probe(k, i) := Entry(k, NULL)];
    assert i == p;
    FirstLiveIs(t', k, MAX_PROBES);
  }

  // Marking the first slot of k.
  lemma RemoveFirst(t: seq<Entry>, m: map<nat, nat>, k: nat, i: nat)
    requires Represents(t, m) && k != 0 && i < MAX_PROBES
    requires t[Probe(k, i)].key == k && forall j | 0 <= j < i :: t[Probe(k, j)].key != k
    ensures var t' := t[Probe(k, i) := Entry(k, NULL)];
      && Represents(t', Removed(t', m, k)) && (k in Removed(t', m, k) ==> k in m)
      && (Sole(t, k) ==> k !in Removed(t', m, k))
      && forall y: nat | y != k && Sole(t, y) :: Sole(t', y)
  {
    hide FirstLive; hide Probe; hide Sole;
    var x := Probe(k, i);
    var t' := t[x := Entry(k, NULL)];
    RemoveKeeps(t, m, k, x);
    forall y: nat | y != k && Sole(t, y)
      ensures Sole(t', y)
    {
      RemoveOther(t, x, k, y);
    }
    if Sole(t, k) {
      RemoveSole(t, k, i);
    }
    assert Answers(t, m, k);
    var p := FirstLive(t', k, 0);
    assert p < MAX_PROBES ==> LiveOf(t[Probe(k, p)], k);
  }

  // What is stored is below any bound on the values.
  lemma StoredBelow(t: seq<Entry>, m: map<nat, nat>, n: nat)
    requires Represents(t, m) && forall s | 0 <= s < |t| :: t[s].val == NULL || t[s].val < n
    ensures forall k | k in m :: m[k] < n
  {
    hide FirstLive; hide Probe;
    forall k | k in m
      ensures m[k] < n
    {
      assert Answers(t, m, k);
    }
  }

  class CancelIndex {
    const keys: array<nat>
    const vals: array<nat>
    // What a lookup finds under each key.
    ghost var contents: map<nat, nat>

    ghost predicate Layout() {
      keys != vals && keys.Length == vals.Length == CANCEL_MAP_SIZE
    }

    ghost function Table(): (t: seq<Entry>)
      requires Layout()
      reads keys, vals
    {
      Zip(keys[..], vals[..])
    }

    ghost predicate Valid()
      reads this, keys, vals
    {
      Layout() && Represents(Table(), contents)
    }

    // The key is stored once, as its first slot.
    ghost predicate Once(key: nat)
      reads this, keys, vals
    {
      Layout() && Sole(Table(), key)
    }

    // Every stored value is below n.
    ghost predicate Below(n: nat)
      reads this, keys, vals
    {
      Layout() && forall s | 0 <= s < CANCEL_MAP_SIZE :: vals[s] == NULL || vals[s] < n
    }

    constructor ()
      ensures Valid() && contents == map[] && (forall n: nat :: Below(n)) && fresh(keys) && fresh(vals)
    {
      keys := new nat[CANCEL_MAP_SIZE](_ => 0);
      vals := new nat[CANCEL_MAP_SIZE](_ => NULL);
      contents := map[];
      new;
      NothingStored(Table());
    }

    method Lookup(key: nat) returns (r: nat)
      requires Valid()
      ensures r == if key in contents then contents[key] else NULL
      ensures (r == NULL <==> key !in contents) && (r != NULL ==> key != 0)
    {
      hide Probe; hide FirstLive;
      ghost var t := Table();
      assert Answers(t, contents, key);
      var i: nat := 0;
      while i < MAX_PROBES
        invariant i <= MAX_PROBES
        invariant forall j | 0 <= j < i :: !LiveOf(t[Probe(key, j)], key)
      {
        var idx := Probe(key, i);
        if keys[idx] == key && vals[idx] != NULL {
          assert key != 0;
          FirstLiveIs(t, key, i);
          return vals[idx];
        }
        if keys[idx] == 0 {
          StopsAtUnused(t, key, i);
          return NULL;
        }
        i := i + 1;
      }
      FirstLiveIs(t, key, MAX_PROBES);
      return NULL;
    }

    // Takes the first free probe; without one the key is not stored.  Under a
    // key already stored, a lookup finds whichever entry comes first.
    method Insert(key: nat, val: nat) returns (placed: bool, ghost found: bool)
      requires Valid() && key != 0 && val != NULL
      modifies this, keys, vals
      ensures Valid() && contents == if found then old(contents)[key := val] else old(contents)
      ensures placed <==> exists i | 0 <= i < MAX_PROBES :: Free(old(Table())[Probe(key, i)])
      ensures (found ==> placed) && (placed && key !in old(contents) ==> found && Once(key))
      ensures forall k: nat | k != key && old(Once(k)) :: Once(k)
      ensures forall n: nat | old(Below(n)) && val < n :: Below(n)
    {
      hide Probe; hide FirstLive; hide Represents; hide Sole;
      ghost var t := Table();
      var i: nat := 0;
      while i < MAX_PROBES
        invariant i <= MAX_PROBES && t == Table() && Valid() && contents == old(contents)
        invariant t == old(Table()) && forall j | 0 <= j < i :: !Free(t[Probe(key, j)])
      {
        var idx := Probe(key, i);
        if keys[idx] == 0 || vals[idx] == NULL {
          InsertKeeps(t, contents, key, i, val);
          InsertSole(t, key, i, val);
          StoredAt(t, contents, key);
          found := i < FirstLive(t, key, 0);
          contents := Inserted(t, contents, key, i, val);
          keys[idx], vals[idx] := key, val;
          assert Table() == t[idx := Entry(key, val)];
          return true, found;
        }
        i := i + 1;
      }
      return false, false;
    }

    // Marks the first slot of the key.  That removes the key if it is stored
    // once; otherwise a lookup may still find something.
    method Remove(key: nat)
      requires Valid() && key != 0
      modifies this, vals
      ensures Valid() && contents - {key} == old(contents) - {key}
      ensures key in contents ==> key in old(contents)
      ensures old(Once(key)) ==> key !in contents
      ensures forall k: nat | k != key && old(Once(k)) :: Once(k)
      ensures forall n: nat | old(Below(n)) :: Below(n)
    {
      hide Probe; hide FirstLive; hide Represents; hide Sole;
      ghost var t := Table();
      var i: nat := 0;
      while i < MAX_PROBES
        invariant i <= MAX_PROBES && t == Table() && Valid() && contents == old(contents)
        invariant forall j | 0 <= j < i :: t[Probe(key, j)].key != key
      {
        var idx := Probe(key, i);
        if keys[idx] == key {
          RemoveFirst(t, contents, key, i);
          vals[idx] := NULL;
          ghost var t' := t[idx := Entry(key, NULL)];
          assert Table() == t';
          contents := Removed(t', contents, key);
          return;
        }
        if keys[idx] == 0 {
          StopsAtUnused(t, key, i) by {
            TableChained(t, contents);
          }
          NotSole(t, key);
          return;
        }
        i := i + 1;
      }
      FirstLiveIs(t, key, MAX_PROBES);
      NotSole(t, key);
    }
  }

  lemma TableChained(t: seq<Entry>, m: map<nat, nat>)
    requires Represents(t, m)
    ensures Chained(t)
  {
  }

  lemma NotSole(t: seq<Entry>, k: nat)
    requires |t| == CANCEL_MAP_SIZE && FirstLive(t, k, 0) == MAX_PROBES
    ensures !Sole(t, k)
  {
    hide FirstLive;
  }

  lemma StoredAt(t: seq<Entry>, m: map<nat, nat>, k: nat)
    requires Represents(t, m)
    ensures k in m <==> FirstLive(t, k, 0) < MAX_PROBES
  {
    hide FirstLive;
    assert Answers(t, m, k);
  }

  lemma NothingStored(t: seq<Entry>)
    requires |t| == CANCEL_MAP_SIZE && forall s | 0 <= s < |t| :: t[s] == Entry(0, NULL)
    ensures Represents(t, map[])
  {
    hide FirstLive; hide Probe;
    forall k: nat
      ensures Answers(t, map[], k)
    {
      FirstLiveIs(t, k, MAX_PROBES);
    }
  }

  ghost function Zip(ks: seq<nat>, vs: seq<nat>): (t: seq<Entry>)
    requires |ks| == |vs|
    ensures |t| == |ks| && forall i | 0 <= i < |t| :: t[i] == Entry(ks[i], vs[i])
  {
    seq(|ks|, i requires 0 <= i < |ks| => Entry(ks[i], vs[i]))
  }
}
