/**
 * The LIST macros of sys/queue.h: an intrusive list through structures that live at
 * addresses, which may be used again once a structure has been freed.
 */
module Lists {
  type Addr = nat

  datatype Ptr = Null | At(addr: Addr)

  /** le_prev points at a pointer: that of the list head, or the next field of a structure. */
  datatype Back = Head | NextOf(addr: Addr)

  /** A LIST_ENTRY field. */
  datatype Neighbours = Neighbours(next: Ptr, prev: Back)

  predicate Distinct<T(==)>(s: seq<T>) {
    forall i, j :: 0 <= i < j < |s| ==> s[i] != s[j]
  }

  function PtrAt(order: seq<Addr>, k: nat): Ptr {
    if k < |order| then At(order[k]) else Null
  }

  function BackAt(order: seq<Addr>, k: nat): Back
    requires k <= |order|
  {
    if k == 0 then Head else NextOf(order[k - 1])
  }

  function Without(order: seq<Addr>, a: Addr): seq<Addr> {
    if order == [] then []
    else if order[0] == a then order[1..]
    else [order[0]] + Without(order[1..], a)
  }

  lemma {:induction false} WithoutAt(order: seq<Addr>, k: nat)
    requires Distinct(order) && k < |order|
    ensures Without(order, order[k]) == order[..k] + order[k + 1..]
  {
    if k > 0 {
      WithoutAt(order[1..], k - 1);
      assert order[..k] == [order[0]] + order[1..][..k - 1];
    }
  }

  /** The links of the structures spell out the order. */
  ghost predicate Linked(first: Ptr, entries: map<Addr, Neighbours>, order: seq<Addr>) {
    && Distinct(order)
    && first == PtrAt(order, 0)
    && forall k :: 0 <= k < |order| ==>
         order[k] in entries && entries[order[k]] == Neighbours(PtrAt(order, k + 1), BackAt(order, k))
  }

  /** entries after the store p->prev = back, if p is not NULL. */
  function WithPrev(entries: map<Addr, Neighbours>, p: Ptr, back: Back): map<Addr, Neighbours> {
    if p.At? && p.addr in entries then entries[p.addr := entries[p.addr].(prev := back)] else entries
  }

  /** entries after the store *back = next, if that is the next field of a structure. */
  function WithNext(entries: map<Addr, Neighbours>, back: Back, next: Ptr): map<Addr, Neighbours> {
    if back.NextOf? && back.addr in entries then entries[back.addr := entries[back.addr].(next := next)] else entries
  }

  lemma InsertLinked(first: Ptr, entries: map<Addr, Neighbours>, order: seq<Addr>, a: Addr)
    requires Linked(first, entries, order) && a !in order
    ensures Linked(At(a), WithPrev(entries[a := Neighbours(first, Head)], first, NextOf(a)), [a] + order)
  {
    var after := WithPrev(entries[a := Neighbours(first, Head)], first, NextOf(a));
    var order' := [a] + order;
    forall k | 0 <= k < |order'|
      ensures order'[k] in after && after[order'[k]] == Neighbours(PtrAt(order', k + 1), BackAt(order', k))
    {
      if k > 0 {
        assert order'[k] == order[k - 1];
        assert order[k - 1] in entries && entries[order[k - 1]] == Neighbours(PtrAt(order, k), BackAt(order, k - 1));
      }
    }
  }

  function Unlinked(entries: map<Addr, Neighbours>, e: Neighbours): map<Addr, Neighbours> {
    WithNext(WithPrev(entries, e.next, e.prev), e.prev, e.next)
  }

  lemma DistinctCut(order: seq<Addr>, k: nat)
    requires Distinct(order) && k < |order|
    ensures Distinct(order[..k] + order[k + 1..])
  {
    var order' := order[..k] + order[k + 1..];
    assert forall i :: 0 <= i < |order'| ==> order'[i] == order[if i < k then i else i + 1];
  }

  lemma WithoutKeeps(order: seq<Addr>, a: Addr)
    requires Distinct(order) && a in order
    ensures Distinct(Without(order, a)) && |Without(order, a)| == |order| - 1
    ensures forall b :: b in Without(order, a) <==> b in order && b != a
  {
    hide Without, Distinct;
    var k :| 0 <= k < |order| && order[k] == a;
    WithoutAt(order, k);
    DistinctCut(order, k);
    CutMembers(order, k);
  }

  lemma CutMembers(order: seq<Addr>, k: nat)
    requires Distinct(order) && k < |order|
    ensures forall b :: b in order[..k] + order[k + 1..] <==> b in order && b != order[k]
  {
    assert order == order[..k] + [order[k]] + order[k + 1..];
    assert order[k] !in order[..k] && order[k] !in order[k + 1..];
  }

  lemma RemoveLinkedAt(entries: map<Addr, Neighbours>, first: Ptr, order: seq<Addr>, k: nat, j: nat)
    requires Linked(first, entries, order) && k < |order| && j < |order| && j != k
    ensures var e, after := Neighbours(PtrAt(order, k + 1), BackAt(order, k)), Unlinked(entries, entries[order[k]]);
      && entries[order[k]] == e && order[j] in after
      && after[order[j]] == Neighbours(if j + 1 == k then e.next else PtrAt(order, j + 1),
                                  if j == k + 1 then e.prev else BackAt(order, j))
  {
    assert entries[order[j]] == Neighbours(PtrAt(order, j + 1), BackAt(order, j));
    assert k + 1 < |order| && j != k + 1 ==> order[j] != order[k + 1];
    assert k > 0 && j != k - 1 ==> order[j] != order[k - 1];
  }

  lemma RemoveLinked(first: Ptr, entries: map<Addr, Neighbours>, order: seq<Addr>, k: nat)
    requires Linked(first, entries, order) && k < |order|
    ensures var e := entries[order[k]];
      Linked(if e.prev == Head then e.next else first, Unlinked(entries, e), order[..k] + order[k + 1..])
  {
    hide Unlinked, Distinct;
    DistinctCut(order, k);
    var e := entries[order[k]];
    var after, order' := Unlinked(entries, e), order[..k] + order[k + 1..];
    forall i | 0 <= i < |order'|
      ensures order'[i] in after && after[order'[i]] == Neighbours(PtrAt(order', i + 1), BackAt(order', i))
    {
      var j := if i < k then i else i + 1;
      RemoveLinkedAt(entries, first, order, k, j);
      assert order'[i] == order[j];
      assert PtrAt(order', i + 1) == if j + 1 == k then PtrAt(order, k + 1) else PtrAt(order, j + 1);
      assert BackAt(order', i) == if j == k + 1 then BackAt(order, k) else BackAt(order, j);
    }
    assert e == Neighbours(PtrAt(order, k + 1), BackAt(order, k));
  }

  class IntrusiveList {
    var first: Ptr
    /** The entry field of every structure that has been on the list. */
    var entries: map<Addr, Neighbours>
    ghost var order: seq<Addr>

    ghost predicate Valid()
      reads this
    {
      Linked(first, entries, order)
    }

    lemma OnceEach()
      requires Valid()
      ensures Distinct(order)
    {
    }

    /** LIST_INIT. */
    constructor ()
      ensures Valid() && order == []
    {
      first, entries, order := Null, map[], [];
    }

    /** LIST_INSERT_HEAD. */
    method InsertHead(a: Addr)
      requires Valid() && a !in order
      modifies this
      ensures Valid() && order == [a] + old(order)
    {
      hide Linked, Distinct;
      InsertLinked(first, entries, order, a);
      entries := entries[a := Neighbours(first, Head)];
      entries := WithPrev(entries, first, NextOf(a));
      first := At(a);
      order := [a] + order;
    }

    /** LIST_REMOVE. */
    method Remove(a: Addr)
      requires Valid() && a in order
      modifies this
      ensures Valid() && order == Without(old(order), a)
    {
      ghost var k :| 0 <= k < |order| && order[k] == a;
      WithoutAt(order, k);
      RemoveLinked(first, entries, order, k);
      hide Linked, Distinct;
      var entry := entries[a];
      entries := WithPrev(entries, entry.next, entry.prev);
      entries := WithNext(entries, entry.prev, entry.next);
      if entry.prev == Head {
        first := entry.next;
      }
      order := order[..k] + order[k + 1..];
    }

    /** LIST_FIRST. */
    method First() returns (p: Ptr)
      requires Valid()
      ensures p == PtrAt(order, 0)
    {
      p := first;
    }

    /** LIST_NEXT. */
    method Next(a: Addr, ghost k: nat) returns (p: Ptr)
      requires Valid() && k < |order| && order[k] == a
      ensures p == PtrAt(order, k + 1)
    {
      p := entries[a].next;
    }
  }
}
