/**
 * The event loop of sepoll.c. Callbacks live at addresses that malloc may hand out again
 * once they are freed, the kernel keeps the address of the callback of each descriptor,
 * and an event carries that address until its turn in the batch.
 */
module Sepoll {
  import opened Bytes
  import opened Lists
  import opened Registry

  /** handler is the function pointer with its two arguments; None is NULL. */
  datatype Callback<+H> = Callback(fd: int, handler: Option<H>)

  /** The kernel's side of a registration. */
  datatype Interest = Interest(mask: Mask, ptr: Addr)

  datatype Event = Event(ready: Ready, ptr: Addr)

  lemma {:induction false} SomeFreeAddress(used: set<Addr>)
    ensures exists a: Addr :: a !in used
  {
    var top := UpperBound(used);
    assert top !in used;
  }

  lemma {:induction false} UpperBound(used: set<Addr>) returns (top: Addr)
    ensures forall a :: a in used ==> a < top
  {
    if used == {} {
      top := 0;
    } else {
      var a :| a in used;
      var rest := UpperBound(used - {a});
      top := if a < rest then rest else a + 1;
      assert forall b :: b in used ==> b == a || b in used - {a};
    }
  }

  lemma SomeKey(keys: set<int>)
    requires keys != {}
    ensures exists fd :: fd in keys
  {
    assert (forall fd :: fd !in keys) ==> keys == {};
  }

  /** The loop's tables, and the serial number of the registration each callback was made for. */
  datatype Tables<H> = Tables(heap: map<Addr, Callback<H>>, tree: map<int, Addr>,
                              interest: map<int, Interest>, gc: seq<Addr>, serials: map<Addr, nat>)

  /** The tree, the kernel's interest list and the registrations agree. */
  ghost predicate TreeAgrees<H>(v: View<H>, t: Tables<H>) {
    && t.tree.Keys == t.interest.Keys == v.regs.Keys
    && forall fd :: fd in t.tree ==>
         var a := t.tree[fd];
         && a in t.heap && a in t.serials
         && t.heap[a] == Callback(fd, Some(v.regs[fd].handler))
         && t.serials[a] == v.regs[fd].serial
         && t.interest[fd] == Interest(v.regs[fd].mask, a)
  }

  /** Every callback is either in the tree or on the garbage list, and never both. */
  ghost predicate HeapAgrees<H>(t: Tables<H>) {
    && (forall k :: 0 <= k < |t.gc| ==> t.gc[k] in t.heap && t.heap[t.gc[k]].handler == None)
    && forall a :: a in t.heap ==>
         if t.heap[a].handler.Some? then t.heap[a].fd in t.tree && t.tree[t.heap[a].fd] == a else a in t.gc
  }

  ghost predicate SerialsAgree<H>(v: View<H>, t: Tables<H>) {
    && t.heap.Keys == t.serials.Keys
    && (forall a :: a in t.serials ==> t.serials[a] < v.next)
    && forall a, b :: a in t.serials && b in t.serials && a != b ==> t.serials[a] != t.serials[b]
  }

  ghost predicate TablesAgree<H>(v: View<H>, t: Tables<H>) {
    TreeAgrees(v, t) && HeapAgrees(t) && SerialsAgree(v, t)
  }

  ghost predicate EventAgrees<H>(t: Tables<H>, e: Event, p: Pend) {
    && e.ptr in t.heap && e.ptr in t.serials
    && t.heap[e.ptr].fd == p.fd
    && t.serials[e.ptr] == p.serial
    && e.ready == p.ready
  }

  /** The callback of every event still to be dispatched is allocated, and is the one the event
      was reported for. */
  ghost predicate BatchAgrees<H>(v: View<H>, t: Tables<H>, batch: seq<Event>) {
    |batch| == |v.pending| && forall j :: 0 <= j < |batch| ==> EventAgrees(t, batch[j], v.pending[j])
  }

  /** Reading the function pointer at the address an event carries tells exactly whether the
      registration it was reported for is still there. */
  lemma NullMeansRemoved<H>(v: View<H>, t: Tables<H>, batch: seq<Event>)
    requires TablesAgree(v, t) && BatchAgrees(v, t, batch) && v.pending != []
    ensures batch[0].ptr in t.heap && batch[0].ready == v.pending[0].ready
    ensures t.heap[batch[0].ptr].handler.Some? <==> Live(v, v.pending[0])
    ensures Live(v, v.pending[0]) ==> t.heap[batch[0].ptr].handler == Some(v.regs[v.pending[0].fd].handler)
  {
    var e, p := batch[0], v.pending[0];
    assert EventAgrees(t, e, p);
    if Live(v, p) {
      assert t.serials[t.tree[p.fd]] == t.serials[e.ptr];
      assert t.tree[p.fd] == e.ptr;
    }
  }

  /** The addresses of a batch stay good as long as no callback in use is freed or moved. */
  lemma BatchSurvives<H>(v: View<H>, t: Tables<H>, v': View<H>, t': Tables<H>, batch: seq<Event>)
    requires BatchAgrees(v, t, batch) && v'.pending == v.pending
    requires forall a :: a in t.heap && a in t.serials ==>
               a in t'.heap && a in t'.serials && t'.heap[a].fd == t.heap[a].fd && t'.serials[a] == t.serials[a]
    ensures BatchAgrees(v', t', batch)
  {
    assert forall j :: 0 <= j < |batch| ==> EventAgrees(t, batch[j], v.pending[j]);
  }

  lemma WakeAgrees<H>(v: View<H>, t: Tables<H>, ready: seq<(int, Ready)>, batch: seq<Event>)
    requires TablesAgree(v, t) && CanWake(v, ready) && |batch| == |ready|
    requires forall i :: 0 <= i < |ready| ==>
               ready[i].0 in t.interest && batch[i] == Event(ready[i].1, t.interest[ready[i].0].ptr)
    ensures TablesAgree(Woken(v, ready), t) && BatchAgrees(Woken(v, ready), t, batch)
  {
    var w := Woken(v, ready);
    forall j | 0 <= j < |batch| ensures EventAgrees(t, batch[j], w.pending[j]) {
      assert ready[j].0 in t.tree;
    }
  }

  lemma PopAgrees<H>(v: View<H>, t: Tables<H>, batch: seq<Event>)
    requires TablesAgree(v, t) && BatchAgrees(v, t, batch) && v.pending != []
    ensures TablesAgree(Popped(v), t) && BatchAgrees(Popped(v), t, batch[1..])
  {
    assert forall j :: 1 <= j < |batch| ==> EventAgrees(t, batch[j], v.pending[j]);
  }

  /** Freeing a callback on the garbage list leaves those of the tree. */
  lemma FreeAgrees<H>(v: View<H>, t: Tables<H>, a: Addr)
    requires TablesAgree(v, t) && t.gc != [] && a == t.gc[0] && Distinct(t.gc)
    ensures TablesAgree(v, t.(heap := t.heap - {a}, serials := t.serials - {a}, gc := t.gc[1..]))
  {
    hide TreeAgrees, SerialsAgree;
    var t' := t.(heap := t.heap - {a}, serials := t.serials - {a}, gc := t.gc[1..]);
    assert t.heap[a].handler == None;
    FreeLeavesTree(v, t, a, t');
    FreeLeavesGarbage(t, t');
  }

  lemma FreeLeavesTree<H>(v: View<H>, t: Tables<H>, a: Addr, t': Tables<H>)
    requires TreeAgrees(v, t) && SerialsAgree(v, t) && a in t.heap && t.heap[a].handler == None
    requires t' == t.(heap := t.heap - {a}, serials := t.serials - {a}, gc := t'.gc)
    ensures TreeAgrees(v, t') && SerialsAgree(v, t')
  {
  }

  lemma FreeLeavesGarbage<H>(t: Tables<H>, t': Tables<H>)
    requires HeapAgrees(t) && t.gc != [] && Distinct(t.gc)
    requires t' == t.(heap := t.heap - {t.gc[0]}, serials := t'.serials, gc := t.gc[1..])
    ensures HeapAgrees(t')
  {
    assert forall k :: 0 <= k < |t'.gc| ==> t'.gc[k] == t.gc[k + 1];
    forall b | b in t.gc && b != t.gc[0] ensures b in t'.gc {
      var k :| 0 <= k < |t.gc| && t.gc[k] == b;
      assert t'.gc[k - 1] == b;
    }
  }

  ghost predicate TreeOwns<H>(t: Tables<H>) {
    forall fd :: fd in t.tree ==> t.tree[fd] in t.heap && t.heap[t.tree[fd]].fd == fd && t.heap[t.tree[fd]].handler.Some?
  }

  lemma TreeOwnsAll<H>(v: View<H>, t: Tables<H>)
    requires TablesAgree(v, t)
    ensures TreeOwns(t) && HeapAgrees(t)
  {
  }

  lemma DestroyOne<H>(t: Tables<H>, fd: int)
    requires HeapAgrees(t) && TreeOwns(t) && fd in t.tree
    ensures t.tree[fd] in t.heap
    ensures var t' := t.(heap := t.heap - {t.tree[fd]}, tree := t.tree - {fd}); HeapAgrees(t') && TreeOwns(t')
  {
  }

  lemma GarbageIsAllocated<H>(t: Tables<H>)
    requires HeapAgrees(t) && t.gc != []
    ensures t.gc[0] in t.heap
  {
  }

  lemma NothingLeft<H>(t: Tables<H>)
    requires HeapAgrees(t) && t.tree.Keys == {} && t.gc == []
    ensures t.heap == map[]
  {
    assert t.heap.Keys == {};
  }

  /** Only the registrations, the serial numbers and the pending events matter to the tables. */
  lemma SameRegistrations<H>(v: View<H>, v': View<H>, t: Tables<H>, batch: seq<Event>)
    requires TablesAgree(v, t) && BatchAgrees(v, t, batch) && Ok(v)
    requires v'.regs == v.regs && v'.next == v.next && v'.pending == v.pending
    ensures TablesAgree(v', t) && BatchAgrees(v', t, batch) && Ok(v')
  {
  }

  function Realloc(events: seq<Event>, size: nat, blank: Event): seq<Event> {
    seq(size, i requires 0 <= i < size => if i < |events| then events[i] else blank)
  }

  lemma ReallocKeeps(events: seq<Event>, size: nat, blank: Event, lo: nat, hi: nat)
    requires lo <= hi && (lo == hi == 0 || (hi <= size && hi <= |events|))
    ensures |Realloc(events, size, blank)| == size
    ensures Realloc(events, size, blank)[lo..hi] == events[lo..hi]
  {
  }

  lemma AddAgrees<H>(v: View<H>, t: Tables<H>, fd: int, mask: Mask, handler: H, a: Addr)
    requires TablesAgree(v, t) && a !in t.heap && fd !in t.tree
    ensures TablesAgree(v.(regs := v.regs[fd := Reg(v.next, mask, handler)], next := v.next + 1),
                        t.(heap := t.heap[a := Callback(fd, Some(handler))], tree := t.tree[fd := a],
                           interest := t.interest[fd := Interest(mask, a)], serials := t.serials[a := v.next]))
  {
  }

  lemma AddOutcome<H>(v: View<H>, fd: int, mask: Mask, handler: H, fault: Fault)
    ensures var op := Op.Add(fd, mask, handler, fault);
      && Result(v, op) == (if fault == NoMemory then Failed(ENOMEM)
                           else if fd in v.regs then Failed(EEXIST)
                           else if fault == NoNode then Failed(ENOMEM)
                           else if fault == Refused then Failed(KernelError) else Done)
      && Apply(v, op) == if Result(v, op).Failed? then v
                         else v.(regs := v.regs[fd := Reg(v.next, mask, handler)], next := v.next + 1)
  {
  }

  lemma AddKeepsAll<H>(v: View<H>, t: Tables<H>, batch: seq<Event>, fd: int, mask: Mask, handler: H, fault: Fault, a: Addr)
    requires TablesAgree(v, t) && BatchAgrees(v, t, batch) && Ok(v) && a !in t.heap && fd !in t.tree
    requires Result(v, Op.Add(fd, mask, handler, fault)) == Done
    ensures var v' := v.(regs := v.regs[fd := Reg(v.next, mask, handler)], next := v.next + 1);
      var t' := t.(heap := t.heap[a := Callback(fd, Some(handler))], tree := t.tree[fd := a],
                   interest := t.interest[fd := Interest(mask, a)], serials := t.serials[a := v.next]);
      TablesAgree(v', t') && BatchAgrees(v', t', batch) && Ok(v')
  {
    hide TablesAgree, BatchAgrees, Ok;
    AddAgrees(v, t, fd, mask, handler, a);
    ApplyKeepsOk(v, Op.Add(fd, mask, handler, fault));
    var t' := t.(heap := t.heap[a := Callback(fd, Some(handler))], tree := t.tree[fd := a],
                 interest := t.interest[fd := Interest(mask, a)], serials := t.serials[a := v.next]);
    BatchSurvives(v, t, v.(regs := v.regs[fd := Reg(v.next, mask, handler)], next := v.next + 1), t', batch);
  }

  lemma ModAgrees<H>(v: View<H>, t: Tables<H>, fd: int, mask: Mask, handler: H)
    requires TablesAgree(v, t) && fd in t.tree
    ensures fd in v.regs && t.tree[fd] in t.heap
    ensures TablesAgree(v.(regs := v.regs[fd := v.regs[fd].(mask := mask, handler := handler)]),
                        t.(heap := t.heap[t.tree[fd] := t.heap[t.tree[fd]].(handler := Some(handler))],
                           interest := t.interest[fd := Interest(mask, t.tree[fd])]))
  {
  }

  lemma RemoveAgrees<H>(v: View<H>, t: Tables<H>, fd: int)
    requires TablesAgree(v, t) && fd in t.tree
    ensures t.tree[fd] in t.heap && t.tree[fd] !in t.gc
    ensures TablesAgree(v.(regs := v.regs - {fd}),
                        t.(heap := t.heap[t.tree[fd] := t.heap[t.tree[fd]].(handler := None)], tree := t.tree - {fd},
                           interest := t.interest - {fd}, gc := [t.tree[fd]] + t.gc))
  {
    var gc' := [t.tree[fd]] + t.gc;
    assert forall k :: 0 < k < |gc'| ==> gc'[k] == t.gc[k - 1];
    assert forall a :: a in t.gc ==> a in gc';
    assert gc'[0] in gc';
  }

  class Loop<H(==)> {
    /** The callbacks allocated, by address. */
    var heap: map<Addr, Callback<H>>
    var tree: map<int, Addr>
    const gc: IntrusiveList
    var events: seq<Event>
    var run: bool
    /** What the kernel keeps for epollfd. */
    var interest: map<int, Interest>

    ghost var view: View<H>
    ghost var serials: map<Addr, nat>
    /** The position in events of the first one still to be dispatched. */
    ghost var at: nat

    ghost predicate Valid()
      reads this, gc
    {
      && gc.Valid()
      && TablesAgree(view, All())
      && at + |view.pending| <= |events|
      && BatchAgrees(view, All(), Batch())
      && Ok(view)
      && view.run == run && view.room == |events|
    }

    ghost function All(): Tables<H>
      reads this, gc
    {
      Tables(heap, tree, interest, gc.order, serials)
    }

    /** The events still to be dispatched. */
    ghost function Batch(): seq<Event>
      reads this
      requires at + |view.pending| <= |events|
    {
      events[at..at + |view.pending|]
    }

    constructor (size: nat, blank: Event)
      ensures Valid() && fresh(gc)
      ensures view.regs == map[] && view.pending == [] && view.room == size
    {
      heap, tree, interest := map[], map[], map[];
      events := seq(size, i => blank);
      run := false;
      gc := new IntrusiveList();
      serials, at := map[], 0;
      view := View(map[], [], 0, false, size);
    }

    /** malloc: any address that is not in use. */
    method Malloc(callback: Callback<H>) returns (a: Addr)
      modifies this`heap
      ensures a !in old(heap) && heap == old(heap)[a := callback]
    {
      SomeFreeAddress(heap.Keys);
      a :| a !in heap;
      heap := heap[a := callback];
    }

    /** free: what is freed must be allocated. */
    method Free(a: Addr)
      requires a in heap
      modifies this`heap
      ensures heap == old(heap) - {a}
    {
      heap := heap - {a};
    }

    lemma Same()
      requires Valid()
      ensures tree.Keys == interest.Keys == view.regs.Keys && heap.Keys == serials.Keys
    {
    }

    /** sepoll_add. */
    method Add(fd: int, mask: Mask, handler: H, fault: Fault) returns (status: Status)
      requires Valid()
      modifies this`heap, this`tree, this`interest, this`serials, this`view
      ensures Valid()
      ensures var op := Op.Add(fd, mask, handler, fault);
        status == Result(old(view), op) && view == Apply(old(view), op)
      ensures status.Failed? ==> All() == old(All())
    {
      hide TablesAgree, BatchAgrees, Ok, Linked, Result, Apply;
      Same();
      AddOutcome(view, fd, mask, handler, fault);
      if fault == NoMemory {
        return Failed(ENOMEM);
      }
      var a := Malloc(Callback(fd, Some(handler)));
      if fd in tree || fault == NoNode {
        Free(a);
        assert heap == old(heap);
        return if fd in tree then Failed(EEXIST) else Failed(ENOMEM);
      }
      tree := tree[fd := a];
      if fault == Refused {
        tree := tree - {fd};
        Free(a);
        assert heap == old(heap) && tree == old(tree);
        return Failed(KernelError);
      }
      Enroll(fd, mask, handler, fault, a, old(All()));
      status := Done;
    }

    /** EPOLL_CTL_ADD for a callback that has just been put in the tree. */
    method Enroll(fd: int, mask: Mask, handler: H, fault: Fault, a: Addr, ghost t: Tables<H>)
      requires gc.Valid() && at + |view.pending| <= |events| && view.run == run && view.room == |events|
      requires TablesAgree(view, t) && BatchAgrees(view, t, Batch()) && Ok(view) && a !in t.heap && fd !in t.tree
      requires All() == t.(heap := t.heap[a := Callback(fd, Some(handler))], tree := t.tree[fd := a])
      requires Result(view, Op.Add(fd, mask, handler, fault)) == Done
      modifies this`interest, this`serials, this`view
      ensures Valid() && view == Apply(old(view), Op.Add(fd, mask, handler, fault))
    {
      hide TablesAgree, BatchAgrees, Ok, Linked, Result, Apply;
      AddOutcome(view, fd, mask, handler, fault);
      AddKeepsAll(view, t, Batch(), fd, mask, handler, fault, a);
      interest := interest[fd := Interest(mask, a)];
      serials := serials[a := view.next];
      view := view.(regs := view.regs[fd := Reg(view.next, mask, handler)], next := view.next + 1);
    }

    /** sepoll_mod. */
    method Mod(fd: int, mask: Mask, handler: H, refused: bool) returns (status: Status)
      requires Valid()
      modifies this`heap, this`interest, this`view
      ensures Valid()
      ensures var op := Op.Mod(fd, mask, handler, refused);
        status == Result(old(view), op) && view == Apply(old(view), op)
      ensures status.Failed? ==> All() == old(All())
    {
      hide TablesAgree, BatchAgrees, Ok, Linked;
      Same();
      if fd !in tree {
        return Failed(EBADF);
      }
      if refused {
        return Failed(KernelError);
      }
      Registered(fd);
      Rewrite(fd, mask, handler);
      status := Done;
    }

    /** sepoll_mod_events. */
    method ModEvents(fd: int, mask: Mask, refused: bool) returns (status: Status)
      requires Valid()
      modifies this`heap, this`interest, this`view
      ensures Valid()
      ensures var op := Op<H>.ModEvents(fd, mask, refused);
        status == Result(old(view), op) && view == Apply(old(view), op)
      ensures heap == old(heap) && (status.Failed? ==> interest == old(interest))
    {
      hide TablesAgree, BatchAgrees, Ok, Linked;
      Same();
      if fd !in tree {
        return Failed(EBADF);
      }
      if refused {
        return Failed(KernelError);
      }
      Registered(fd);
      Rewrite(fd, mask, heap[tree[fd]].handler.value);
      status := Done;
    }

    /** sepoll_mod_callback. */
    method ModCallback(fd: int, handler: H) returns (status: Status)
      requires Valid()
      modifies this`heap, this`interest, this`view
      ensures Valid()
      ensures var op := Op<H>.ModCallback(fd, handler);
        status == Result(old(view), op) && view == Apply(old(view), op)
      ensures interest == old(interest) && (status.Failed? ==> heap == old(heap))
    {
      hide TablesAgree, BatchAgrees, Ok, Linked;
      Same();
      if fd !in tree {
        return Failed(EBADF);
      }
      Registered(fd);
      Rewrite(fd, interest[fd].mask, handler);
      status := Done;
    }

    lemma Registered(fd: int)
      requires Valid() && fd in tree
      ensures tree[fd] in heap && fd in interest && fd in view.regs
      ensures heap[tree[fd]] == Callback(fd, Some(view.regs[fd].handler))
      ensures interest[fd] == Interest(view.regs[fd].mask, tree[fd])
    {
    }

    /** The stores the three modifying calls make: EPOLL_CTL_MOD with the address of the callback,
        then the function and its arguments. */
    method Rewrite(fd: int, mask: Mask, handler: H)
      requires Valid() && fd in tree && fd in view.regs && tree[fd] in heap
      modifies this`interest, this`heap, this`view
      ensures Valid()
      ensures view == old(view).(regs := old(view).regs[fd := old(view).regs[fd].(mask := mask, handler := handler)])
      ensures heap == old(heap)[tree[fd] := Callback(old(heap[tree[fd]]).fd, Some(handler))]
      ensures interest == old(interest)[fd := Interest(mask, tree[fd])]
    {
      hide TablesAgree, BatchAgrees, Linked;
      Same();
      interest := interest[fd := Interest(mask, tree[fd])];
      heap := heap[tree[fd] := heap[tree[fd]].(handler := Some(handler))];
      view := view.(regs := view.regs[fd := view.regs[fd].(mask := mask, handler := handler)]);
      ModAgrees(old(view), old(All()), fd, mask, handler);
      BatchSurvives(old(view), old(All()), view, All(), Batch());
    }

    /** sepoll_remove: the callback stays allocated, with a NULL function, until the batch is over. */
    method Remove(fd: int) returns (status: Status)
      requires Valid()
      modifies this`heap, this`tree, this`interest, this`view, gc
      ensures Valid()
      ensures var op := Op<H>.Remove(fd);
        status == Result(old(view), op) && view == Apply(old(view), op)
      ensures heap.Keys == old(heap.Keys)
      ensures status.Done? ==> fd in old(tree) && tree == old(tree) - {fd} && gc.order == [old(tree)[fd]] + old(gc.order)
      ensures status.Failed? ==> All() == old(All())
    {
      hide TablesAgree, BatchAgrees, Ok, Linked;
      Same();
      if fd !in tree {
        return Failed(EBADF);
      }
      RemoveAgrees(view, All(), fd);
      var a := tree[fd];
      heap := heap[a := heap[a].(handler := None)];
      tree := tree - {fd};
      gc.InsertHead(a);
      interest := interest - {fd};
      view := Apply(view, Op<H>.Remove(fd));
      BatchSurvives(old(view), old(All()), view, All(), Batch());
      ApplyKeepsOk(old(view), Op<H>.Remove(fd));
      status := Done;
    }

    /** sepoll_exit. */
    method Exit()
      requires Valid()
      modifies this`run, this`view
      ensures Valid() && view == Apply(old(view), Op<H>.Exit) && !run
    {
      hide TablesAgree, BatchAgrees, Ok, Linked;
      SameRegistrations(view, view.(run := false), All(), Batch());
      run := false;
      view := view.(run := false);
      assert All() == old(All()) && Batch() == old(Batch());
    }

    /** sepoll_resize. The array must not become shorter than the batch being dispatched. */
    method Resize(size: int, granted: bool) returns (status: Status)
      requires Valid()
      requires view.pending != [] ==> at + |view.pending| <= size
      modifies this`events, this`view, this`at
      ensures Valid()
      ensures view.pending != [] ==> at == old(at)
      ensures var op := Op<H>.Resize(size, granted);
        status == Result(old(view), op) && view == Apply(old(view), op)
    {
      hide TablesAgree, BatchAgrees, Ok, Linked, Realloc;
      if size <= 0 {
        return Failed(EINVAL);
      }
      if size == |events| {
        return Done;
      }
      if !granted {
        return Failed(ENOMEM);
      }
      SameRegistrations(view, view.(room := size), All(), Batch());
      var before := events;
      var blank := Event(Ready(false, false, false, false), 0);
      events := Realloc(before, size, blank);
      if view.pending == [] {
        at := 0;
      }
      view := view.(room := size);
      ReallocKeeps(before, size, blank, at, at + |view.pending|);
      assert All() == old(All()) && Batch() == old(Batch());
      status := Done;
    }

    /** What epoll_wait may report: some registered descriptors, each once, as many as the array
        holds, and besides errors only what their masks ask for. */
    predicate CanReport(ready: seq<(int, Ready)>)
      reads this
    {
      && 0 < |ready| <= |events|
      && (forall i :: 0 <= i < |ready| ==> ready[i].0 in interest)
      && (forall i, j :: 0 <= i < j < |ready| ==> ready[i].0 != ready[j].0)
      && forall i :: 0 <= i < |ready| ==>
           var m := interest[ready[i].0].mask;
           (ready[i].1.inn ==> m.inn) && (ready[i].1.out ==> m.out)
    }

    lemma MasksAgree()
      requires Valid()
      ensures forall fd :: fd in interest <==> fd in view.regs
      ensures forall fd :: fd in interest ==> interest[fd].mask == view.regs[fd].mask
    {
      hide BatchAgrees, Ok, Linked, HeapAgrees, SerialsAgree;
      assert forall fd :: fd in interest <==> fd in interest.Keys;
      assert forall fd :: fd in view.regs <==> fd in view.regs.Keys;
      assert forall fd :: fd in interest ==> fd in tree.Keys;
    }

    lemma ReportsAreWakes(ready: seq<(int, Ready)>)
      requires Valid()
      ensures CanReport(ready) <==> CanWake(view, ready)
    {
      hide BatchAgrees, Ok, Linked, TablesAgree;
      MasksAgree();
      forall i | 0 <= i < |ready|
        ensures ready[i].0 in interest <==> ready[i].0 in view.regs
        ensures ready[i].0 in interest && ready[i].0 in view.regs ==> interest[ready[i].0].mask == view.regs[ready[i].0].mask
      {
        var fd: int := ready[i].0;
        assert fd in interest <==> fd in view.regs;
      }
      if CanReport(ready) {
        assert forall i :: 0 <= i < |ready| ==> ready[i].0 in view.regs;
      } else if CanWake(view, ready) {
        assert forall i :: 0 <= i < |ready| ==> ready[i].0 in interest;
      }
    }

    /** The loop is entered. */
    method Start()
      requires Valid()
      modifies this`run, this`view
      ensures Valid() && view == old(view).(run := true) && run
    {
      hide TablesAgree, BatchAgrees, Ok, Linked;
      SameRegistrations(view, view.(run := true), All(), Batch());
      run := true;
      view := view.(run := true);
    }

    /** epoll_wait fills the front of the array with what the kernel keeps for each ready descriptor. */
    method Wait(ready: seq<(int, Ready)>)
      requires Valid() && CanWake(view, ready)
      modifies this`events, this`view, this`at
      ensures Valid() && view == Woken(old(view), ready)
      ensures at == 0 && events[|ready|..] == old(events)[|ready|..]
    {
      hide TablesAgree, BatchAgrees, Ok, Linked;
      Same();
      var filled := events;
      for k := 0 to |ready|
        invariant |filled| == |events|
        invariant forall i :: 0 <= i < k ==> filled[i] == Event(ready[i].1, interest[ready[i].0].ptr)
        invariant filled[k..] == events[k..]
      {
        filled := filled[k := Event(ready[k].1, interest[ready[k].0].ptr)];
      }
      events := filled;
      WakeAgrees(view, All(), ready, events[..|ready|]);
      WokenIsLive(view, ready);
      view := Woken(view, ready);
      at := 0;
      assert Batch() == events[..|ready|];
    }

    /** The body of the dispatch loop up to the call: whom event i of the batch goes to, if anyone.
        The address the event carries is always that of an allocated callback. */
    method Fetch(i: nat) returns (call: Option<(Ready, H)>)
      requires Valid() && view.pending != [] && i == at
      modifies this`view, this`at
      ensures Valid() && view == Popped(old(view)) && at == old(at) + 1
      ensures var e := old(view).pending[0];
        call == if Live(old(view), e) then Some((e.ready, old(view).regs[e.fd].handler)) else None
    {
      hide TablesAgree, BatchAgrees, Ok, Linked;
      NullMeansRemoved(view, All(), Batch());
      PopAgrees(view, All(), Batch());
      PopKeepsOk(view);
      assert events[i] == Batch()[0];
      var callback := heap[events[i].ptr];
      call := if callback.handler.Some? then Some((events[i].ready, callback.handler.value)) else None;
      view := Popped(view);
      at := at + 1;
      assert All() == old(All()) && Batch() == old(Batch())[1..];
    }

    /** The garbage collection after a batch: exactly the callbacks of the tree remain. */
    method Collect()
      requires Valid() && view.pending == []
      modifies this`heap, this`serials, gc
      ensures Valid() && gc.order == []
      ensures heap.Keys == (set fd | fd in tree :: tree[fd])
      ensures forall a :: a in heap ==> heap[a] == old(heap)[a]
    {
      hide TablesAgree, Ok, Linked;
      var callback := gc.First();
      while callback != Null
        invariant Valid() && view == old(view) && callback == PtrAt(gc.order, 0)
        invariant heap.Keys <= old(heap.Keys) && forall a :: a in heap ==> heap[a] == old(heap)[a]
        decreases |gc.order|
      {
        var a := callback.addr;
        GcOwns();
        FreeAgrees(view, All(), a);
        callback := gc.Next(a, 0);
        gc.Remove(a);
        Free(a);
        serials := serials - {a};
        assert BatchAgrees(view, All(), Batch());
      }
      OnlyTree();
    }

    lemma GcOwns()
      requires Valid()
      ensures Distinct(gc.order) && forall k :: 0 <= k < |gc.order| ==> gc.order[k] in heap
    {
    }

    lemma OnlyTree()
      requires Valid() && gc.order == []
      ensures heap.Keys == (set fd | fd in tree :: tree[fd])
    {
    }

    /** Whatever a handler asks of the loop. */
    method Perform(op: Op<H>)
      requires Valid()
      requires op.Resize? && view.pending != [] ==> at + |view.pending| <= op.size
      modifies this, gc
      ensures Valid() && view == Apply(old(view), op)
      ensures view.pending == old(view).pending && (view.pending != [] ==> at == old(at))
    {
      hide TablesAgree, BatchAgrees, Ok, Linked, Result;
      var status;
      match op
      case Add(fd, mask, handler, fault) => status := Add(fd, mask, handler, fault);
      case Mod(fd, mask, handler, refused) => status := Mod(fd, mask, handler, refused);
      case ModEvents(fd, mask, refused) => status := ModEvents(fd, mask, refused);
      case ModCallback(fd, handler) => status := ModCallback(fd, handler);
      case Remove(fd) => status := Remove(fd);
      case Exit => Exit();
      case Resize(size, granted) => status := Resize(size, granted);
    }

    method PerformAll(ops: seq<Op<H>>, ghost n: nat)
      requires Valid()
      requires view.pending != [] ==> at + |view.pending| == n && KeepsBatch(ops, n)
      modifies this, gc
      ensures Valid() && view == ApplyAll(old(view), ops)
      ensures view.pending == old(view).pending && (view.pending != [] ==> at == old(at))
    {
      hide TablesAgree, BatchAgrees, Ok, Linked, Apply;
      assert ops[0..] == ops;
      for k := 0 to |ops|
        invariant Valid() && ApplyAll(view, ops[k..]) == ApplyAll(old(view), ops)
        invariant view.pending == old(view).pending && (view.pending != [] ==> at == old(at))
      {
        assert ops[k..][1..] == ops[k + 1..];
        Perform(ops[k]);
      }
    }

    /** The loop over the events of a batch. */
    method DispatchBatch(programs: seq<seq<Op<H>>>) returns (ghost calls: seq<Option<Call<H>>>)
      requires Valid() && |programs| == |view.pending| && at == 0
      requires forall i :: 0 <= i < |programs| ==> KeepsBatch(programs[i], |programs|)
      modifies this, gc
      ensures Valid() && (calls, view) == Dispatch(old(view), programs)
    {
      hide TablesAgree, BatchAgrees, Linked, KeepsBatch, ApplyAll, Dispatch, Turn, Ok, Live;
      calls := [];
      ghost var whole := Dispatch(view, programs);
      assert programs[0..] == programs && [] + whole.0 == whole.0;
      for i := 0 to |programs|
        invariant Valid() && |view.pending| == |programs| - i
        invariant view.pending != [] ==> at == i
        invariant whole.0 == calls + Dispatch(view, programs[i..]).0 && whole.1 == Dispatch(view, programs[i..]).1
      {
        ghost var before := view;
        DispatchOne(view, programs[i..]);
        assert programs[i..][0] == programs[i] && programs[i..][1..] == programs[i + 1..];
        var call := Fetch(i);
        if call.Some? {
          PerformAll(programs[i], |programs|);
        }
        ghost var rest := Dispatch(view, programs[i + 1..]).0;
        assert calls + ([Turn(before, programs[i]).0] + rest) == calls + [Turn(before, programs[i]).0] + rest;
        calls := calls + [Turn(before, programs[i]).0];
      }
      DispatchNothing(view, programs[|programs|..]);
      assert calls + [] == calls;
    }

    /** sepoll_enter, over the rounds it goes through: for any handlers it makes the calls the
        registrations promise, and after each round only the callbacks of the tree are left. */
    method Enter(rounds: seq<Round<H>>, hasFunction: bool)
      returns (retval: int, ghost log: seq<seq<Option<Call<H>>>>)
      requires Valid() && view.pending == []
      requires CanRun(view.(run := true), rounds, hasFunction)
      modifies this, gc
      ensures Valid() && (log, view) == Run(old(view).(run := true), rounds, hasFunction)
      ensures log != [] ==> gc.order == [] && heap.Keys == set fd | fd in tree :: tree[fd]
      ensures |log| <= |rounds|
      ensures retval == if log != [] && rounds[|log| - 1].wait.WaitFailed? && !hasFunction then -1 else 0
    {
      hide TablesAgree, BatchAgrees, Linked, CanRound, Ok, Iterate, Run, CanRun;
      retval, log := 0, [];
      Start();
      ghost var whole := Run(view, rounds, hasFunction);
      assert rounds[0..] == rounds && [] + whole.0 == whole.0;
      var k := 0;
      while run && k < |rounds|
        invariant Valid() && k <= |rounds| && |log| == k && view.pending == []
        invariant CanRun(view, rounds[k..], hasFunction)
        invariant whole.0 == log + Run(view, rounds[k..], hasFunction).0
        invariant whole.1 == Run(view, rounds[k..], hasFunction).1
        invariant log != [] ==> gc.order == [] && heap.Keys == set fd | fd in tree :: tree[fd]
        invariant retval == if log != [] && rounds[|log| - 1].wait.WaitFailed? && !hasFunction then -1 else 0
        invariant retval == -1 ==> !run
        decreases |rounds| - k
      {
        RunOne(view, rounds[k..], hasFunction);
        ghost var calls := Round(rounds[k], hasFunction);
        if rounds[k].wait.WaitFailed? && !hasFunction {
          retval := -1;
        }
        assert rounds[k..][0] == rounds[k] && rounds[k..][1..] == rounds[k + 1..];
        ghost var rest := Run(view, rounds[k + 1..], hasFunction).0;
        assert log + ([calls] + rest) == log + [calls] + rest;
        log := log + [calls];
        k := k + 1;
      }
      RunNothing(view, rounds[k..], hasFunction);
      assert log + [] == log;
    }

    method Round(round: Round<H>, hasFunction: bool) returns (ghost calls: seq<Option<Call<H>>>)
      requires Valid() && view.pending == [] && CanRound(view, round)
      modifies this, gc
      ensures Valid() && (calls, view) == Iterate(old(view), round, hasFunction)
      ensures gc.order == [] && heap.Keys == set fd | fd in tree :: tree[fd]
      ensures !round.wait.Woke? && !hasFunction ==> !run
    {
      hide TablesAgree, BatchAgrees, Linked, ApplyAll, Dispatch;
      calls := [];
      if round.wait.Woke? {
        Wait(round.wait.ready);
        calls := DispatchBatch(round.programs);
      }
      if hasFunction {
        PerformAll(round.after, 0);
      } else if !round.wait.Woke? {
        Exit();
      }
      Collect();
    }

    /** sepoll_destroy: every callback, in the tree or not, is freed once. */
    method Destroy()
      requires Valid()
      modifies this, gc
      ensures heap == map[]
    {
      hide TreeAgrees, BatchAgrees, SerialsAgree, HeapAgrees, TreeOwns, Linked;
      TreeOwnsAll(view, All());
      var left := tree.Keys;
      while left != {}
        invariant gc.Valid() && HeapAgrees(All()) && TreeOwns(All()) && left == tree.Keys
        decreases left
      {
        SomeKey(left);
        var fd :| fd in left;
        DestroyOne(All(), fd);
        Free(tree[fd]);
        tree := tree - {fd};
        left := left - {fd};
      }
      var callback := gc.First();
      while callback != Null
        invariant gc.Valid() && HeapAgrees(All()) && tree.Keys == {} && callback == PtrAt(gc.order, 0)
        decreases |gc.order|
      {
        GarbageIsAllocated(All());
        gc.OnceEach();
        FreeLeavesGarbage(All(), All().(heap := heap - {gc.order[0]}, gc := gc.order[1..]));
        var next := gc.Next(callback.addr, 0);
        gc.Remove(callback.addr);
        Free(callback.addr);
        callback := next;
      }
      NothingLeft(All());
    }
  }
}
