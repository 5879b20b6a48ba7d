/** The intrusive doubly linked list of lib/kernel/list.c, with its head and tail sentinels. */
module List {
  import opened Basics

  class Elem {
    var prev: Elem?
    var next: Elem?

    constructor () { prev, next := null, null; }
  }

  lemma NoDupMore(c: seq<Elem>, e: Elem, i: nat)
    requires NoDup(c) && e !in c && i <= |c|
    ensures NoDup(c[..i] + [e] + c[i..])
  {
    var d := c[..i] + [e] + c[i..];
    assert forall k :: 0 <= k < |d| ==> d[k] == if k < i then c[k] else if k == i then e else c[k - 1];
  }

  ghost predicate Linked(x: Elem, y: Elem)
    reads x, y
  {
    x.next == y && y.prev == x
  }

  /** Neighbours in c point at each other. */
  ghost predicate Chained(c: seq<Elem>)
    reads c
  {
    forall i :: 0 <= i < |c| - 1 ==> Linked(c[i], c[i + 1])
  }

  class LinkedList {
    const head: Elem
    const tail: Elem
    ghost var elems: seq<Elem>

    ghost function Chain(): seq<Elem>
      reads this
    {
      [head] + elems + [tail]
    }

    ghost predicate Valid()
      reads this, Chain()
    {
      NoDup(Chain()) && Chained(Chain())
    }

    constructor ()
      ensures Valid() && elems == [] && fresh(head) && fresh(tail)
    {
      head := new Elem();
      tail := new Elem();
      elems := [];
      new;
      head.next := tail;
      tail.prev := head;
      assert Chain() == [head, tail];
    }

    /** list_insert_before; before is the element of place i, or the tail. */
    method InsertBefore(before: Elem, e: Elem, ghost i: nat)
      requires Valid() && i <= |elems| && before == Chain()[i + 1] && e !in Chain()
      modifies this`elems, before, Chain()[i], e
      ensures Valid() && elems == old(elems[..i]) + [e] + old(elems[i..])
    {
      ghost var c := Chain();
      assert Linked(c[i], c[i + 1]);
      before.prev.next := e;
      e.prev := before.prev;
      e.next := before;
      before.prev := e;
      elems := elems[..i] + [e] + elems[i..];
      ghost var d := Chain();
      assert d == c[..i + 1] + [e] + c[i + 1..];
      NoDupMore(c, e, i + 1);
      hide NoDup;
      forall k | 0 <= k < |d| - 1 ensures Linked(d[k], d[k + 1]) {
        assert k < i ==> old(Linked(c[k], c[k + 1]));
        assert k > i + 1 ==> old(Linked(c[k - 1], c[k]));
      }
    }

    method Push(e: Elem)
      requires Valid() && e !in Chain()
      modifies this`elems, Chain(), e
      ensures Valid() && elems == [e] + old(elems)
    {
      assert Chain()[0] == head && Linked(Chain()[0], Chain()[1]);
      InsertBefore(head.next, e, 0);
    }

    method Append(e: Elem)
      requires Valid() && e !in Chain()
      modifies this`elems, Chain(), e
      ensures Valid() && elems == old(elems) + [e]
    {
      assert Chain()[|elems| + 1] == tail;
      InsertBefore(tail, e, |elems|);
    }

    /** list_remove of the element of place i; its own pointers stay as they are. */
    method Remove(e: Elem, ghost i: nat)
      requires Valid() && i < |elems| && elems[i] == e
      modifies this`elems, Chain()[i], Chain()[i + 2]
      ensures Valid() && elems == old(elems[..i]) + old(elems[i + 1..]) && e !in Chain()
    {
      ghost var c := Chain();
      assert c[i + 1] == e && Linked(c[i], e) && Linked(e, c[i + 2]);
      e.prev.next := e.next;
      e.next.prev := e.prev;
      elems := elems[..i] + elems[i + 1..];
      ghost var d := Chain();
      assert d == c[..i + 1] + c[i + 2..];
      forall k | 0 <= k < |d| - 1 ensures Linked(d[k], d[k + 1]) {
        assert k < i ==> old(Linked(c[k], c[k + 1]));
        assert k > i ==> old(Linked(c[k + 1], c[k + 2]));
      }
    }

    method Pop() returns (e: Elem)
      requires Valid() && elems != []
      modifies this`elems, Chain()
      ensures Valid() && [e] + elems == old(elems)
    {
      assert Chain()[0] == head && Linked(Chain()[0], Chain()[1]);
      e := head.next;
      Remove(e, 0);
    }

    method Find(e: Elem) returns (found: bool)
      requires Valid() && e != tail
      ensures found <==> e in elems
    {
      ghost var i := 0;
      assert Chain()[0] == head && Linked(Chain()[0], Chain()[1]);
      var x := head.next;
      while x != tail
        invariant i <= |elems| && x == Chain()[i + 1] && e !in elems[..i]
        decreases |elems| - i
      {
        assert Chain()[|elems| + 1] == tail;
        if x == e { return true; }
        assert Linked(Chain()[i + 1], Chain()[i + 2]);
        x := x.next;
        i := i + 1;
      }
      AtTail(i);
      found := false;
    }

    lemma AtTail(i: nat)
      requires Valid() && i <= |elems| && Chain()[i + 1] == tail
      ensures i == |elems|
    {
      assert Chain()[|elems| + 1] == tail;
    }

    method IsEmpty() returns (r: bool)
      requires Valid()
      ensures r <==> elems == []
    {
      assert Chain()[0] == head && Linked(Chain()[0], Chain()[1]);
      r := head.next == tail;
      if r { AtTail(0); }
    }

    method Length() returns (n: nat)
      requires Valid()
      ensures n == |elems|
    {
      n := 0;
      assert Chain()[0] == head && Linked(Chain()[0], Chain()[1]);
      var x := head.next;
      while x != tail
        invariant n <= |elems| && x == Chain()[n + 1]
        decreases |elems| - n
      {
        assert Chain()[|elems| + 1] == tail;
        assert Linked(Chain()[n + 1], Chain()[n + 2]);
        x := x.next;
        n := n + 1;
      }
      AtTail(n);
    }
  }
}
