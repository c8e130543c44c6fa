/** The intrusive doubly linked list with two sentinels (lib/kernel/list.c), refining a sequence.

    The ready queue, semaphore waiters, block free lists and the cache of open inodes are all
    lists of this kind; the other modules speak of them as the sequences proved here. */
module Lists {
  import opened Util

  class ListElem {
    var prev: ListElem?
    var next: ListElem?

    constructor () {
      prev, next := null, null;
    }
  }

  lemma DistinctPair<T>(s: seq<T>, i: nat, j: nat)
    requires Distinct(s) && i < j < |s|
    ensures s[i] != s[j]
  {
  }

  lemma Inserted<T>(c: seq<T>, k: nat, e: T, d: seq<T>)
    requires k <= |c| && Distinct(c) && e !in c && d == c[..k] + [e] + c[k..]
    ensures Distinct(d) && d[k] == e
    ensures (forall i :: 0 <= i < k ==> d[i] == c[i]) && forall i :: k < i < |d| ==> d[i] == c[i - 1]
  {
  }

  class List {
    const head: ListElem
    const tail: ListElem
    ghost var elems: seq<ListElem>

    /** The elements between their sentinels. */
    ghost function Chain(): (c: seq<ListElem>)
      reads this
      ensures |c| == |elems| + 2
    {
      [head] + elems + [tail]
    }

    ghost predicate Valid()
      reads this, Chain()
    {
      var c := Chain();
      && Distinct(c)
      && (forall i {:trigger c[i].next} :: 0 <= i < |c| - 1 ==> c[i].next == c[i + 1])
      && (forall i {:trigger c[i].prev} :: 0 < i < |c| ==> c[i].prev == c[i - 1])
    }

    constructor ()
      ensures Valid() && elems == [] && fresh(head) && fresh(tail)
    {
      var h := new ListElem();
      var t := new ListElem();
      h.next, t.prev, h.prev, t.next := t, h, t, h;
      head, tail, elems := h, t, [];
    }

    /** Every operation that adds an element goes through this one. */
    method InsertBefore(before: ListElem, elem: ListElem, ghost k: nat)
      requires Valid() && 1 <= k < |Chain()| && before == Chain()[k] && elem !in Chain()
      modifies this, elem, before, Chain()[k - 1]
      ensures Valid() && elems == old(elems)[..k - 1] + [elem] + old(elems)[k - 1..]
    {
      hide Distinct;
      ghost var c := Chain();
      DistinctPair(c, k - 1, k);
      assert before == c[k] && before.prev == c[k - 1];
      before.prev.next := elem;
      elem.next := before;
      elem.prev := before.prev;
      before.prev := elem;
      elems := elems[..k - 1] + [elem] + elems[k - 1..];
      ghost var d := Chain();
      Inserted(c, k, elem, d);
      forall i | 0 <= i < |d| - 1 ensures d[i].next == d[i + 1] {
        if i < k - 1 { DistinctPair(c, i, k - 1); } else if i > k { DistinctPair(c, k - 1, i - 1); }
      }
      forall i | 0 < i < |d| ensures d[i].prev == d[i - 1] {
        if i < k { DistinctPair(c, i, k); } else if i > k + 1 { DistinctPair(c, k, i - 1); }
      }
    }

    method Push(elem: ListElem)
      requires Valid() && elem !in Chain()
      modifies this, elem, Chain()
      ensures Valid() && elems == [elem] + old(elems)
    {
      assert Chain()[0].next == Chain()[1];
      InsertBefore(head.next, elem, 1);
    }

    method Append(elem: ListElem)
      requires Valid() && elem !in Chain()
      modifies this, elem, Chain()
      ensures Valid() && elems == old(elems) + [elem]
    {
      assert tail == Chain()[|elems| + 1];
      InsertBefore(tail, elem, |elems| + 1);
      assert elems == old(elems) + [elem];
    }

    method Remove(pelem: ListElem, ghost k: nat)
      requires Valid() && k < |elems| && elems[k] == pelem
      modifies this, Chain()[k], Chain()[k + 2]
      ensures Valid() && elems == old(elems)[..k] + old(elems)[k + 1..]
    {
      ghost var c := Chain();
      assert pelem == c[k + 1] && c[k + 1].next == c[k + 2] && c[k + 1].prev == c[k];
      pelem.next.prev := pelem.prev;
      pelem.prev.next := pelem.next;
      elems := elems[..k] + elems[k + 1..];
      ghost var d := Chain();
      assert d == c[..k + 1] + c[k + 2..];
      assert forall i :: k < i < |d| ==> d[i] == c[i + 1];
    }

    /** Popping an empty list would unlink the tail sentinel; every caller checks first. */
    method Pop() returns (elem: ListElem)
      requires Valid() && elems != []
      modifies this, Chain()
      ensures Valid() && elem == old(elems)[0] && elems == old(elems)[1..]
    {
      assert Chain()[0].next == Chain()[1];
      elem := head.next;
      Remove(elem, 0);
    }

    method ElemFind(objElem: ListElem) returns (found: bool)
      requires Valid()
      ensures found <==> objElem in elems
    {
      ghost var c := Chain();
      assert c[0].next == c[1];
      var elem := head.next;
      ghost var k := 1;
      while elem != tail
        invariant 1 <= k < |c| && elem == c[k]
        invariant objElem !in elems[..k - 1]
        decreases |c| - k
      {
        assert c[k] == elems[k - 1] && c[k].next == c[k + 1];
        if elem == objElem {
          return true;
        }
        elem := elem.next;
        k := k + 1;
      }
      assert k == |c| - 1 by { assert c[|c| - 1] == tail; }
      return false;
    }

    /** The first element the callback accepts, or null. */
    method Traversal(func: ListElem -> bool) returns (r: ListElem?)
      requires Valid()
      ensures r == null ==> forall e :: e in elems ==> !func(e)
      ensures r != null ==> exists k :: 0 <= k < |elems| && elems[k] == r && func(r) &&
                                        forall j :: 0 <= j < k ==> !func(elems[j])
    {
      ghost var c := Chain();
      assert c[0].next == c[1];
      var elem := head.next;
      ghost var k := 1;
      while elem != tail
        invariant 1 <= k < |c| && elem == c[k]
        invariant forall j :: 0 <= j < k - 1 ==> !func(elems[j])
        decreases |c| - k
      {
        assert c[k] == elems[k - 1] && c[k].next == c[k + 1];
        if func(elem) {
          return elem;
        }
        elem := elem.next;
        k := k + 1;
      }
      assert k == |c| - 1 by { assert c[|c| - 1] == tail; }
      return null;
    }

    method Len() returns (count: nat)
      requires Valid()
      ensures count == |elems|
    {
      ghost var c := Chain();
      assert c[0].next == c[1];
      var elem := head.next;
      count := 0;
      while elem != tail
        invariant count + 1 < |c| && elem == c[count + 1]
        decreases |c| - count
      {
        assert c[count + 1].next == c[count + 2];
        count := count + 1;
        elem := elem.next;
      }
      assert count + 2 == |c| by { assert c[|c| - 1] == tail; }
    }
  }
}
