// The doubly linked ring that holds the recency order.  It stands for Go's container/list, whose elements
// the cache entries point into.
module RecencyList {
  import opened CacheState
  import opened Collections

  class Element {
    var next: Element?
    var prev: Element?
    var list: List?
    const value: Uid

    constructor (value: Uid)
      ensures this.value == value && list == null
    {
      this.value := value;
      next, prev, list := null, null, null;
    }
  }

  // `ring` plus an element at one end, `ring` minus the element at index `i`.
  ghost function Cut(ring: seq<Element>, i: nat): seq<Element>
    requires i < |ring|
  {
    ring[..i] + ring[i + 1..]
  }

  lemma ElementsCut(ring: seq<Element>, i: nat)
    requires i < |ring|
    ensures Elements(Cut(ring, i)) + {ring[i]} == Elements(ring)
    ensures Elements([ring[i]] + Cut(ring, i)) == Elements(ring)
    ensures NoDuplicates(ring) ==> Elements(Cut(ring, i)) == Elements(ring) - {ring[i]}
  {
  }

  // The values of a ring, element by element.
  ghost predicate Hold(ring: seq<Element>, values: seq<Uid>) {
    |ring| == |values| && forall i | 0 <= i < |ring| :: ring[i].value == values[i]
  }

  lemma HoldCut(ring: seq<Element>, values: seq<Uid>, i: nat)
    requires Hold(ring, values) && i < |ring|
    ensures Hold(Cut(ring, i), values[..i] + values[i + 1..])
    ensures Hold([ring[i]] + Cut(ring, i), [ring[i].value] + values[..i] + values[i + 1..])
    ensures i == 0 ==> [ring[i]] + Cut(ring, i) == ring && [ring[i].value] + values[..i] + values[i + 1..] == values
  {
  }

  lemma HoldFront(e: Element, ring: seq<Element>, values: seq<Uid>)
    requires Hold(ring, values)
    ensures Hold([e] + ring, [e.value] + values) && Elements([e] + ring) == Elements(ring) + {e}
  {
  }

  ghost predicate Neighbours(a: Element, b: Element)
    reads a, b
  {
    a.next == b && b.prev == a
  }

  // The elements of the cycle point to their neighbours, the last one to the first.
  ghost predicate Linked(cycle: seq<Element>)
    requires cycle != []
    reads set e | e in cycle
  {
    && (forall i, j | 0 <= i < j < |cycle| && j == i + 1 :: Neighbours(cycle[i], cycle[j]))
    && Neighbours(cycle[|cycle| - 1], cycle[0])
  }

  class List {
    const root: Element
    var len: nat
    ghost var ring: seq<Element>      // the elements after the sentinel, front first
    ghost var values: seq<Uid>     // what they hold
    ghost var cells: set<Element>     // the sentinel and every element the list has had

    ghost predicate Valid()
      reads this, cells
    {
      && root in cells && (forall e | e in ring :: e in cells)
      && len == |ring|
      && NoDuplicates([root] + ring)
      && Linked([root] + ring)
      && (forall e | e in ring :: e.list == this)
      && Hold(ring, values)
    }

    constructor ()
      ensures Valid() && fresh(cells) && ring == [] && values == []
    {
      root := new Element(Uid(""));
      len, ring, values := 0, [], [];
      new;
      root.next := root;
      root.prev := root;
      cells := {root};
    }

    method Back() returns (e: Element?)
      requires Valid()
      ensures e == if ring == [] then null else ring[|ring| - 1]
    {
      if len == 0 {
        return null;
      }
      e := root.prev;
    }

    method PushFront(value: Uid) returns (e: Element)
      requires Valid()
      modifies this, cells
      ensures Valid() && fresh(e) && cells == old(cells) + {e} && e.value == value
      ensures ring == [e] + old(ring) && values == [value] + old(values)
      ensures Elements(ring) == old(Elements(ring)) + {e}
    {
      e := LinkNew(value);
      len := len + 1;
      HoldFront(e, old(ring), values);
      values := [value] + values;
      cells := cells + {e};
    }

    // A new element of this list, linked in front.
    method LinkNew(value: Uid) returns (e: Element)
      requires NoDuplicates([root] + ring) && Linked([root] + ring)
      modifies this`ring, set x | x in [root] + ring
      ensures fresh(e) && e.value == value && e.list == this
      ensures NoDuplicates([root] + ring) && Linked([root] + ring)
      ensures ring == [e] + old(ring)
      ensures forall x | x in old(ring) :: x.list == old(x.list)
    {
      e := new Element(value);
      e.list := this;
      InsertAfterRoot(e);
    }

    // Links `e`, which is in no ring, between the sentinel and the first element.
    method InsertAfterRoot(e: Element)
      requires NoDuplicates([root] + ring) && Linked([root] + ring)
      requires e !in ring && e != root
      modifies e`next, e`prev, this`ring, set x | x in [root] + ring
      ensures NoDuplicates([root] + ring) && Linked([root] + ring)
      ensures ring == [e] + old(ring)
      ensures forall x | x in ring :: x.list == old(x.list)
    {
      ghost var cycle := [root] + ring;
      assert Neighbours(cycle[0], cycle[if |cycle| > 1 then 1 else 0]);
      var first := root.next;
      e.prev := root;
      e.next := first;
      root.next := e;
      first.prev := e;
      ghost var grown := [root, e] + ring;
      assert forall i | 2 <= i < |grown| :: grown[i] == cycle[i - 1];
      forall i | 0 <= i < |grown| - 1
        ensures Neighbours(grown[i], grown[i + 1])
      {
        if i >= 2 {
          assert old(Neighbours(cycle[i - 1], cycle[i]));
        }
      }
      ring := [e] + ring;
      assert [root] + ring == grown;
    }

    // Links the neighbours of the element after index `i` of the cycle to each other.
    method Bridge(e: Element, ghost cycle: seq<Element>, ghost i: nat)
      requires i + 1 < |cycle| && cycle[i + 1] == e
      requires NoDuplicates(cycle) && Linked(cycle)
      modifies set x | x in cycle
      ensures Neighbours(cycle[i], cycle[if i + 2 < |cycle| then i + 2 else 0])
      ensures forall j | 0 <= j < |cycle| - 1 && j != i && j != i + 1 :: Neighbours(cycle[j], cycle[j + 1])
      ensures i + 2 < |cycle| ==> Neighbours(cycle[|cycle| - 1], cycle[0])
      ensures forall x | x in cycle :: x.list == old(x.list)
    {
      ghost var skip := if i + 2 < |cycle| then i + 2 else 0;
      assert Neighbours(cycle[i], cycle[i + 1]) && Neighbours(cycle[i + 1], cycle[skip]);
      var before, after := e.prev, e.next;
      before.next := after;
      after.prev := before;
      forall j | 0 <= j < |cycle| - 1 && j != i && j != i + 1
        ensures Neighbours(cycle[j], cycle[j + 1])
      {
        assert old(Neighbours(cycle[j], cycle[j + 1]));
        assert cycle[j] != before && cycle[j + 1] != after;
      }
    }

    // Unlinks the element at index `i` of the ring; its own pointers are left as they are.
    method Unlink(e: Element, ghost i: nat)
      requires NoDuplicates([root] + ring) && Linked([root] + ring)
      requires i < |ring| && ring[i] == e
      modifies this`ring, set x | x in [root] + ring
      ensures NoDuplicates([root] + ring) && Linked([root] + ring)
      ensures ring == Cut(old(ring), i)
      ensures e !in ring && e != root
      ensures forall x | x in old(ring) :: x.list == old(x.list)
    {
      ghost var cycle := [root] + ring;
      ghost var rest := cycle[..i + 1] + cycle[i + 2..];
      Bridge(e, cycle, i);
      RestLinked(cycle, rest, i);
      assert cycle[..i + 1] == [root] + ring[..i] && cycle[i + 2..] == ring[i + 1..];
      ring := Cut(ring, i);
      assert [root] + ring == rest;
    }

    // A cycle with one element bridged over.
    lemma RestLinked(cycle: seq<Element>, rest: seq<Element>, i: nat)
      requires i + 1 < |cycle| && rest == cycle[..i + 1] + cycle[i + 2..]
      requires NoDuplicates(cycle)
      requires Neighbours(cycle[i], cycle[if i + 2 < |cycle| then i + 2 else 0])
      requires forall j | 0 <= j < |cycle| - 1 && j != i && j != i + 1 :: Neighbours(cycle[j], cycle[j + 1])
      requires i + 2 < |cycle| ==> Neighbours(cycle[|cycle| - 1], cycle[0])
      ensures NoDuplicates(rest) && Linked(rest) && cycle[i + 1] !in rest
    {
    }

    lemma AtFront(i: nat)
      requires Valid() && i < |ring| && root.next == ring[i]
      ensures i == 0
    {
      var cycle := [root] + ring;
      assert Neighbours(cycle[0], cycle[1]);
      assert cycle[i + 1] == ring[i];
    }

    // Moves element `i` of the ring and its value to the front.
    method Relink(e: Element, ghost i: nat)
      requires Valid()
      requires i < |ring| && ring[i] == e
      modifies this, cells
      ensures NoDuplicates([root] + ring) && Linked([root] + ring)
      ensures ring == [e] + Cut(old(ring), i)
      ensures unchanged(this`len, this`values, this`cells)
      ensures forall x | x in old(ring) :: x.list == old(x.list)
    {
      Unlink(e, i);
      InsertAfterRoot(e);
      assert forall x | x in old(ring) :: x == e || x in Cut(old(ring), i);
    }

    method MoveToFront(e: Element, ghost i: nat)
      requires Valid()
      requires i < |ring| && ring[i] == e
      modifies this, cells
      ensures Valid() && cells == old(cells)
      ensures ring == [e] + Cut(old(ring), i)
      ensures values == [e.value] + old(values)[..i] + old(values)[i + 1..]
      ensures Elements(ring) == old(Elements(ring))
    {
      assert e in ring;
      ElementsCut(ring, i);
      HoldCut(ring, values, i);
      if e.list != this || root.next == e {
        AtFront(i);
        return;
      }
      Relink(e, i);
      values := [e.value] + values[..i] + values[i + 1..];
      assert forall x | x in ring :: x in Elements(ring) && x in Elements(old(ring)) && x in old(ring);
    }

    // Unlinks element `i` of the ring, which then points nowhere.
    method Detach(e: Element, ghost i: nat)
      requires NoDuplicates([root] + ring) && Linked([root] + ring)
      requires i < |ring| && ring[i] == e
      modifies this`ring, set x | x in [root] + ring
      ensures NoDuplicates([root] + ring) && Linked([root] + ring)
      ensures ring == Cut(old(ring), i) && e !in ring
      ensures forall x | x in ring :: x.list == old(x.list)
    {
      Unlink(e, i);
      assert e !in [root] + ring;
      e.next, e.prev, e.list := null, null, null;
    }

    // Forgets element `i` of the ring, which is `e`.
    method Remove(e: Element, ghost i: nat)
      requires Valid()
      requires i < |ring| && ring[i] == e
      modifies this, cells
      ensures Valid() && cells == old(cells)
      ensures ring == Cut(old(ring), i)
      ensures values == old(values)[..i] + old(values)[i + 1..]
      ensures Elements(ring) == old(Elements(ring)) - {e}
    {
      ElementsCut(ring, i);
      HoldCut(ring, values, i);
      assert e in ring;
      if e.list == this {
        Detach(e, i);
        len := len - 1;
        values := values[..i] + values[i + 1..];
      }
    }
  }
}
