/** The circular doubly linked list whose links lie inside the linked things. */
module IntrusiveList {
  import opened Sequences

  /** The links of one thing, and the thing: what `list_entry` finds around the links.
      The head of a list lies in no thing. */
  class ListElem<T> {
    var next: ListElem?<T>
    var prev: ListElem?<T>
    const entry: T

    /** As left by zeroed memory. */
    constructor (entry: T)
      ensures this.entry == entry && Detached()
    {
      this.entry := entry;
      next, prev := null, null;
    }

    /** What the traps of the insertions test for. */
    predicate Detached()
      reads this
    {
      next == null && prev == null
    }
  }

  function Succ(n: nat, i: nat): nat
    requires i < n
  {
    if i == n - 1 then 0 else i + 1
  }

  function Pred(n: nat, i: nat): nat
    requires i < n
  {
    if i == 0 then n - 1 else i - 1
  }

  ghost predicate Linked<T>(ring: seq<ListElem<T>>, i: nat)
    requires i < |ring|
    reads ring[i]
  {
    && ring[i].next == ring[Succ(|ring|, i)]
    && ring[i].prev == ring[Pred(|ring|, i)]
  }

  /** Each element once, and the links go round in the order of the sequence. */
  ghost predicate WellLinked<T>(ring: seq<ListElem<T>>)
    reads ring
  {
    && Distinct(ring)
    && (forall i {:trigger Linked(ring, i)} :: 0 <= i < |ring| ==> Linked(ring, i))
  }

  /** The links leave no choice: a head belongs to one ring, so the sequence that a list
      is said to hold is what its links say. */
  lemma RingDetermined<T>(a: seq<ListElem<T>>, b: seq<ListElem<T>>)
    requires WellLinked(a) && WellLinked(b) && a != [] && b != [] && a[0] == b[0]
    ensures a == b
  {
    if |a| <= |b| { RingPrefix(a, b, |a|); } else { RingPrefix(b, a, |b|); }
  }

  lemma {:induction false} RingPrefix<T>(a: seq<ListElem<T>>, b: seq<ListElem<T>>, k: nat)
    requires WellLinked(a) && WellLinked(b) && 0 < k <= |a| <= |b| && a[0] == b[0]
    ensures a[..k] == b[..k]
    ensures k == |a| ==> |a| == |b|
  {
    if k > 1 {
      RingPrefix(a, b, k - 1);
      assert a[..k - 1][k - 2] == b[..k - 1][k - 2];
      assert Linked(a, k - 2) && Linked(b, k - 2);
    }
    assert a[k - 1] == b[k - 1];
    assert a[..k] == a[..k - 1] + [a[k - 1]];
    assert b[..k] == b[..k - 1] + [b[k - 1]];
    assert Linked(a, k - 1) && Linked(b, k - 1);
  }

  /** Element `i` of a ring, after the four assignments that insert `e` after `p`. */
  ghost predicate Inserted<T>(ring: seq<ListElem<T>>, p: nat, e: ListElem<T>, i: nat)
    requires p < |ring| && i < |ring|
    reads ring[i]
  {
    var n := |ring|;
    && ring[i].next == (if i == p then e else ring[Succ(n, i)])
    && ring[i].prev == (if i == Succ(n, p) then e else ring[Pred(n, i)])
  }

  function With<T>(ring: seq<ListElem<T>>, k: nat, e: ListElem<T>): (r: seq<ListElem<T>>)
    requires k <= |ring|
    ensures |r| == |ring| + 1
    ensures forall i :: 0 <= i < |r| ==> r[i] == if i < k then ring[i] else if i == k then e else ring[i - 1]
  {
    ring[..k] + [e] + ring[k..]
  }

  function Without<T>(ring: seq<ListElem<T>>, k: nat): (r: seq<ListElem<T>>)
    requires k < |ring|
    ensures |r| == |ring| - 1
    ensures forall i :: 0 <= i < |r| ==> r[i] == ring[if i < k then i else i + 1]
  {
    ring[..k] + ring[k + 1..]
  }

  lemma HeadFirst<T>(head: ListElem<T>, elems: seq<ListElem<T>>, k: nat)
    requires k <= |elems|
    ensures forall e :: [head] + With(elems, k, e) == With([head] + elems, k + 1, e)
    ensures k < |elems| ==> [head] + Without(elems, k) == Without([head] + elems, k + 1)
  {
    forall e
      ensures [head] + With(elems, k, e) == With([head] + elems, k + 1, e)
    {
      var now := With([head] + elems, k + 1, e);
      assert forall i :: 0 <= i < |now| ==> ([head] + With(elems, k, e))[i] == now[i];
    }
  }

  lemma InsertKeepsLinks<T>(ring: seq<ListElem<T>>, p: nat, e: ListElem<T>)
    requires p < |ring| && Distinct(ring) && e !in ring
    requires e.next == ring[Succ(|ring|, p)] && e.prev == ring[p]
    requires forall i :: 0 <= i < |ring| ==> Inserted(ring, p, e, i)
    ensures WellLinked(With(ring, p + 1, e))
  {
    var now := With(ring, p + 1, e);
    forall i | 0 <= i < |now|
      ensures Linked(now, i)
    {
      InsertedLinked(ring, p, e, i);
    }
  }

  lemma InsertedLinked<T>(ring: seq<ListElem<T>>, p: nat, e: ListElem<T>, i: nat)
    requires p < |ring| && i <= |ring|
    requires e.next == ring[Succ(|ring|, p)] && e.prev == ring[p]
    requires forall i :: 0 <= i < |ring| ==> Inserted(ring, p, e, i)
    ensures Linked(With(ring, p + 1, e), i)
  {
    if i <= p {
      assert Inserted(ring, p, e, i);
    } else if i > p + 1 {
      assert Inserted(ring, p, e, i - 1);
    }
  }

  /** Element `i` of a ring, after the two assignments that take out element `p`. */
  ghost predicate Removed<T>(ring: seq<ListElem<T>>, p: nat, i: nat)
    requires p < |ring| && i < |ring|
    reads ring[i]
  {
    var n := |ring|;
    && ring[i].next == ring[if i == Pred(n, p) then Succ(n, p) else Succ(n, i)]
    && ring[i].prev == ring[if i == Succ(n, p) then Pred(n, p) else Pred(n, i)]
  }

  lemma RemoveKeepsLinks<T>(ring: seq<ListElem<T>>, p: nat)
    requires 0 < p < |ring| && Distinct(ring)
    requires forall i :: 0 <= i < |ring| && i != p ==> Removed(ring, p, i)
    ensures WellLinked(Without(ring, p))
  {
    var now := Without(ring, p);
    forall i | 0 <= i < |now|
      ensures Linked(now, i)
    {
      assert Removed(ring, p, if i < p then i else i + 1);
    }
  }

  class List<T> {
    const head: ListElem<T>
    /** The elements from the first to the last. */
    ghost var elems: seq<ListElem<T>>

    ghost function Ring(): (r: seq<ListElem<T>>)
      reads this
      ensures r != [] && r[0] == head
    {
      [head] + elems
    }

    ghost predicate Valid()
      reads this, Ring()
    {
      WellLinked(Ring())
    }

    /** `list_init` */
    constructor (head: ListElem<T>)
      modifies head
      ensures Valid() && this.head == head && elems == []
    {
      this.head := head;
      elems := [];
      new;
      head.next, head.prev := head, head;
      assert Ring() == [head];
    }

    /** The element at a place of the ring; place 0 is the head. */
    ghost predicate At(elem: ListElem<T>, p: nat)
      reads this
    {
      p < |Ring()| && Ring()[p] == elem
    }

    /** What is in a list cannot be inserted: the traps would catch it. */
    lemma MembersAttached(e: ListElem<T>)
      requires Valid() && e in Ring()
      ensures !e.Detached()
    {
      var i :| 0 <= i < |Ring()| && Ring()[i] == e;
      assert Linked(Ring(), i);
    }

    function FirstElem(): (e: ListElem<T>)
      reads this, Ring()
      requires Valid()
      ensures e == if elems == [] then head else elems[0]
    {
      assert Linked(Ring(), 0);
      head.next
    }

    function LastElem(): (e: ListElem<T>)
      reads this, Ring()
      requires Valid()
      ensures e == if elems == [] then head else elems[|elems| - 1]
    {
      assert Linked(Ring(), 0);
      head.prev
    }

    /** The next one in a traversal: after the last element comes the head. */
    function NextElem(elem: ListElem<T>, ghost p: nat): (e: ListElem<T>)
      reads this, Ring()
      requires Valid() && At(elem, p)
      ensures e == if p == |elems| then head else elems[p]
    {
      assert Linked(Ring(), p);
      elem.next
    }

    function IsEmpty(): (b: bool)
      reads this, Ring()
      requires Valid()
      ensures b <==> elems == []
    {
      assert Linked(Ring(), 0);
      head == head.next
    }

    /** Among the members, what is not the head is an element. */
    function IsValidElem(elem: ListElem<T>): (b: bool)
      reads this, Ring()
      requires Valid() && elem in Ring()
      ensures b <==> elem in elems
    {
      Apart();
      elem != head
    }

    lemma Apart()
      requires Valid()
      ensures head !in elems
    {
      forall i | 0 <= i < |elems|
        ensures elems[i] != head
      {
        assert Ring()[i + 1] == elems[i];
      }
    }

    method InsertAfter(elem: ListElem<T>, newElem: ListElem<T>, ghost p: nat)
      requires Valid() && At(elem, p) && newElem.Detached()
      modifies this, Ring(), newElem
      ensures Valid() && elems == With(old(elems), p, newElem)
    {
      ghost var ring := Ring();
      if newElem in ring { MembersAttached(newElem); }
      ghost var after := ring[Succ(|ring|, p)];
      assert Linked(ring, p) && elem.next == after;
      newElem.next := elem.next;
      newElem.prev := elem;
      elem.next.prev := newElem;
      elem.next := newElem;
      forall i | 0 <= i < |ring|
        ensures Inserted(ring, p, newElem, i)
      {
        assert old(Linked(ring, i));
      }
      InsertKeepsLinks(ring, p, newElem);
      HeadFirst(head, elems, p);
      elems := With(elems, p, newElem);
      assert Ring() == With(ring, p + 1, newElem);
    }

    /** Before the head means last. */
    method InsertBefore(elem: ListElem<T>, newElem: ListElem<T>, ghost p: nat)
      requires Valid() && At(elem, p) && newElem.Detached()
      modifies this, Ring(), newElem
      ensures Valid()
      ensures var k := if p == 0 then |old(elems)| else p - 1;
              elems == With(old(elems), k, newElem)
    {
      ghost var ring := Ring();
      if newElem in ring { MembersAttached(newElem); }
      ghost var k := Pred(|ring|, p);
      ghost var before := ring[k];
      assert Linked(ring, p) && elem.prev == before;
      newElem.next := elem;
      newElem.prev := elem.prev;
      elem.prev.next := newElem;
      elem.prev := newElem;
      forall i | 0 <= i < |ring|
        ensures Inserted(ring, k, newElem, i)
      {
        assert old(Linked(ring, i));
      }
      InsertKeepsLinks(ring, k, newElem);
      HeadFirst(head, elems, k);
      elems := With(elems, k, newElem);
      assert Ring() == With(ring, k + 1, newElem);
    }

    method AddFront(newElem: ListElem<T>)
      requires Valid() && newElem.Detached()
      modifies this, Ring(), newElem
      ensures Valid() && elems == With(old(elems), 0, newElem)
    {
      ghost var ring := Ring();
      if newElem in ring { MembersAttached(newElem); }
      ghost var k: nat :| k == 0;
      ghost var after := ring[Succ(|ring|, k)];
      assert Linked(ring, k) && head.next == after;
      newElem.next := head.next;
      newElem.prev := head;
      head.next.prev := newElem;
      head.next := newElem;
      forall i | 0 <= i < |ring|
        ensures Inserted(ring, k, newElem, i)
      {
        assert old(Linked(ring, i));
      }
      InsertKeepsLinks(ring, k, newElem);
      HeadFirst(head, elems, k);
      elems := With(elems, k, newElem);
      assert Ring() == With(ring, k + 1, newElem);
    }

    method AddBack(newElem: ListElem<T>)
      requires Valid() && newElem.Detached()
      modifies this, Ring(), newElem
      ensures Valid() && elems == old(elems) + [newElem]
    {
      ghost var ring := Ring();
      if newElem in ring { MembersAttached(newElem); }
      ghost var k := |ring| - 1;
      assert Linked(ring, 0) && Linked(ring, k);
      newElem.next := head;
      newElem.prev := head.prev;
      head.prev.next := newElem;
      head.prev := newElem;
      forall i | 0 <= i < |ring|
        ensures Inserted(ring, k, newElem, i)
      {
        assert old(Linked(ring, i));
      }
      InsertKeepsLinks(ring, k, newElem);
      HeadFirst(head, elems, k);
      elems := With(elems, k, newElem);
      assert Ring() == With(ring, k + 1, newElem);
    }

    /** No trap here: the new element's old links are not looked at. */
    method ReplaceElem(elem: ListElem<T>, newElem: ListElem<T>, ghost p: nat)
      requires Valid() && p < |elems| && elems[p] == elem && newElem !in Ring()
      modifies Ring(), newElem, this
      ensures Valid() && elems == old(elems)[p := newElem] && elem.Detached()
    {
      ghost var ring := Ring();
      ghost var n, q := |ring|, p + 1;
      ghost var after, before := ring[Succ(n, q)], ring[Pred(n, q)];
      assert Linked(ring, q);
      assert elem.next == after != elem && elem.prev == before != elem;
      newElem.next := elem.next;
      newElem.prev := elem.prev;
      elem.next.prev := newElem;
      elem.prev.next := newElem;
      elem.next, elem.prev := null, null;
      elems := elems[p := newElem];
      assert Ring() == ring[q := newElem];
      forall i | 0 <= i < n
        ensures Linked(Ring(), i)
      {
        assert old(Linked(ring, i));
      }
    }

    /** The element can be inserted again. */
    method RemoveElem(elem: ListElem<T>, ghost p: nat)
      requires Valid() && p < |elems| && elems[p] == elem
      modifies this, Ring()
      ensures Valid() && elems == Without(old(elems), p) && elem.Detached()
    {
      ghost var ring := Ring();
      ghost var n, q := |ring|, p + 1;
      ghost var after, before := ring[Succ(n, q)], ring[Pred(n, q)];
      assert Linked(ring, q);
      assert elem.next == after != elem && elem.prev == before != elem;
      elem.prev.next := elem.next;
      elem.next.prev := elem.prev;
      elem.next, elem.prev := null, null;
      forall i | 0 <= i < n && i != q
        ensures Removed(ring, q, i)
      {
        assert old(Linked(ring, i));
      }
      RemoveKeepsLinks(ring, q);
      HeadFirst(head, elems, p);
      elems := Without(elems, p);
      assert Ring() == Without(ring, q);
    }
  }
}
