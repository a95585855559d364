/**
 The pool of order records: a flat array with a stack of free slots.
 */
module OrderPools {
  import opened SortedBook
  import opened LevelBook
  import opened BookLinks

  class OrderPool {
    const nodes: array<Node>
    const freeList: array<nat>
    var freeTop: nat

    ghost const Repr: set<object>

    ghost predicate Layout() {
      Repr == {this, nodes, freeList} && nodes.Length == freeList.Length == POOL_CAPACITY
    }

    ghost predicate Valid()
      reads this, Repr
    {
      Layout() && freeTop <= POOL_CAPACITY
    }

    ghost function Nodes(): (r: seq<Node>)
      requires Valid()
      reads this, Repr
    {
      nodes[..]
    }

    ghost function Free(): (r: seq<nat>)
      requires Valid()
      reads this, Repr
    {
      freeList[..freeTop]
    }

    // All slots free, slot 0 on top of the stack, records zeroed.
    constructor ()
      ensures Valid() && fresh(Repr)
      ensures forall i | 0 <= i < POOL_CAPACITY :: Nodes()[i] == Node(Order(0, 0, 0, 0, 0, Buy), 0, 0, 0)
      ensures |Free()| == POOL_CAPACITY && forall i | 0 <= i < POOL_CAPACITY :: Free()[i] == POOL_CAPACITY - 1 - i
    {
      nodes := new Node[POOL_CAPACITY](_ => Node(Order(0, 0, 0, 0, 0, Buy), 0, 0, 0));
      var stack := new nat[POOL_CAPACITY];
      for i := 0 to POOL_CAPACITY
        modifies stack
        invariant forall j | 0 <= j < i :: stack[j] == POOL_CAPACITY - 1 - j
      {
        stack[i] := POOL_CAPACITY - 1 - i;
      }
      freeList := stack;
      freeTop := POOL_CAPACITY;
      Repr := {this, nodes, freeList};
    }

    method Alloc() returns (idx: nat)
      requires Valid()
      modifies Repr
      ensures Valid()
      ensures if old(Free()) == [] then idx == NULL && Free() == []
              else idx == old(Free())[|old(Free())| - 1] && Free() == old(Free())[..|old(Free())| - 1]
      ensures Nodes() == old(Nodes())
    {
      if freeTop == 0 {
        return NULL;
      }
      freeTop := freeTop - 1;
      return freeList[freeTop];
    }

    method Release(idx: nat)
      requires Valid() && freeTop < POOL_CAPACITY
      modifies Repr
      ensures Valid() && Free() == old(Free()) + [idx] && Nodes() == old(Nodes())
    {
      freeList[freeTop] := idx;
      freeTop := freeTop + 1;
    }

    method Put(idx: nat, n: Node)
      requires Valid() && idx < POOL_CAPACITY
      modifies Repr
      ensures Valid() && Nodes() == old(Nodes())[idx := n] && Free() == old(Free())
    {
      nodes[idx] := n;
    }

    // Links slot s, of level idx, behind the tail t.
    method LinkBehind(t: nat, s: nat, idx: nat)
      requires Valid() && s < POOL_CAPACITY && (t == NULL || t < POOL_CAPACITY)
      modifies Repr
      ensures Valid() && Nodes() == AppendNodes(old(Nodes()), t, s, idx) && Free() == old(Free())
    {
      nodes[s] := nodes[s].(level := idx, prev := t);
      if t != NULL {
        nodes[t] := nodes[t].(next := s);
      }
    }

    // Takes slot s = q[k] out of the list q.
    method Unlink(s: nat, ghost q: seq<nat>, ghost k: nat)
      requires Valid() && k < |q| && q[k] == s && InNodes(Nodes(), q)
      requires Nodes()[s].prev == (if k > 0 then q[k - 1] else NULL)
      requires Nodes()[s].next == (if k + 1 < |q| then q[k + 1] else NULL)
      modifies Repr
      ensures Valid() && Nodes() == UnlinkNodes(old(Nodes()), q, k) && Free() == old(Free())
    {
      var n := nodes[s];
      if n.prev != NULL {
        nodes[n.prev] := nodes[n.prev].(next := n.next);
      }
      if n.next != NULL {
        nodes[n.next] := nodes[n.next].(prev := n.prev);
      }
    }
  }
}
