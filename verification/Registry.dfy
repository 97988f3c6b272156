/**
 * What the event loop promises: a table of registrations, each with a serial number that
 * is never used again, and a batch of events that name registrations by serial number.
 * There are no callback addresses here and nothing is ever freed.
 */
module Registry {
  import opened Bytes

  /** EPOLLIN, EPOLLOUT, EPOLLET. */
  datatype Mask = Mask(inn: bool, out: bool, edge: bool)

  datatype Ready = Ready(inn: bool, out: bool, err: bool, hup: bool)

  datatype Reg<H> = Reg(serial: nat, mask: Mask, handler: H)

  datatype Pend = Pend(fd: int, serial: nat, ready: Ready)

  datatype View<H> = View(regs: map<int, Reg<H>>, pending: seq<Pend>, next: nat, run: bool, room: int)

  /** Why an add can fail: malloc, tsearch, or the kernel. */
  datatype Fault = NoFault | NoMemory | NoNode | Refused

  datatype Op<H> =
    | Add(fd: int, mask: Mask, handler: H, fault: Fault)
    | Mod(fd: int, mask: Mask, handler: H, refused: bool)
    | ModEvents(fd: int, mask: Mask, refused: bool)
    | ModCallback(fd: int, handler: H)
    | Remove(fd: int)
    | Exit
    | Resize(size: int, granted: bool)

  datatype Error = EINVAL | ENOMEM | EEXIST | EBADF | KernelError

  datatype Status = Done | Failed(error: Error)

  function Result<H>(v: View<H>, op: Op<H>): Status {
    match op
    case Add(fd, _, _, fault) =>
      if fault == NoMemory then Failed(ENOMEM)
      else if fd in v.regs then Failed(EEXIST)
      else if fault == NoNode then Failed(ENOMEM)
      else if fault == Refused then Failed(KernelError)
      else Done
    case Mod(fd, _, _, refused) =>
      if fd !in v.regs then Failed(EBADF) else if refused then Failed(KernelError) else Done
    case ModEvents(fd, _, refused) =>
      if fd !in v.regs then Failed(EBADF) else if refused then Failed(KernelError) else Done
    case ModCallback(fd, _) => if fd !in v.regs then Failed(EBADF) else Done
    case Remove(fd) => if fd !in v.regs then Failed(EBADF) else Done
    case Exit => Done
    case Resize(size, granted) =>
      if size <= 0 then Failed(EINVAL) else if size != v.room && !granted then Failed(ENOMEM) else Done
  }

  /** The effect of an operation: none at all when it fails. */
  function Apply<H>(v: View<H>, op: Op<H>): View<H> {
    if Result(v, op).Failed? then v
    else match op
      case Add(fd, mask, handler, _) => v.(regs := v.regs[fd := Reg(v.next, mask, handler)], next := v.next + 1)
      case Mod(fd, mask, handler, _) => v.(regs := v.regs[fd := v.regs[fd].(mask := mask, handler := handler)])
      case ModEvents(fd, mask, _) => v.(regs := v.regs[fd := v.regs[fd].(mask := mask)])
      case ModCallback(fd, handler) => v.(regs := v.regs[fd := v.regs[fd].(handler := handler)])
      case Remove(fd) => v.(regs := v.regs - {fd})
      case Exit => v.(run := false)
      case Resize(size, _) => v.(room := size)
  }

  function ApplyAll<H>(v: View<H>, ops: seq<Op<H>>): View<H>
    decreases |ops|
  {
    if ops == [] then v else ApplyAll(Apply(v, ops[0]), ops[1..])
  }

  /** The registration an event was reported for is still there. */
  predicate Live<H>(v: View<H>, e: Pend) {
    e.fd in v.regs && v.regs[e.fd].serial == e.serial
  }

  function Popped<H>(v: View<H>): View<H>
    requires v.pending != []
  {
    v.(pending := v.pending[1..])
  }

  /** Distinct registrations, and only conditions their masks ask for, besides errors. */
  predicate CanWake<H>(v: View<H>, ready: seq<(int, Ready)>) {
    && 0 < |ready| <= v.room
    && (forall i :: 0 <= i < |ready| ==> ready[i].0 in v.regs)
    && (forall i, j :: 0 <= i < j < |ready| ==> ready[i].0 != ready[j].0)
    && forall i :: 0 <= i < |ready| ==>
         var m := v.regs[ready[i].0].mask;
         (ready[i].1.inn ==> m.inn) && (ready[i].1.out ==> m.out)
  }

  /** epoll_wait. */
  function Woken<H>(v: View<H>, ready: seq<(int, Ready)>): View<H>
    requires CanWake(v, ready)
  {
    v.(pending := seq(|ready|, i requires 0 <= i < |ready| =>
      Pend(ready[i].0, v.regs[ready[i].0].serial, ready[i].1)))
  }

  ghost predicate Ok<H>(v: View<H>) {
    && (forall fd :: fd in v.regs ==> v.regs[fd].serial < v.next)
    && (forall fd, fd' :: fd in v.regs && fd' in v.regs && fd != fd' ==> v.regs[fd].serial != v.regs[fd'].serial)
    && (forall i :: 0 <= i < |v.pending| ==> v.pending[i].serial < v.next)
    && (forall i, j :: 0 <= i < j < |v.pending| ==> v.pending[i].serial != v.pending[j].serial)
  }

  lemma ApplyKeepsOk<H>(v: View<H>, op: Op<H>)
    requires Ok(v)
    ensures Ok(Apply(v, op)) && Apply(v, op).pending == v.pending && v.next <= Apply(v, op).next
  {
  }

  /** When an operation succeeds, and the errors a caller can tell apart. */
  lemma SucceedsIff<H>(v: View<H>, op: Op<H>)
    ensures match op
      case Add(fd, _, _, fault) =>
        && (Result(v, op) == Done <==> fd !in v.regs && fault == NoFault)
        && (Result(v, op) == Failed(EEXIST) <==> fd in v.regs && fault != NoMemory)
      case Mod(fd, _, _, refused) =>
        (Result(v, op) == Done <==> fd in v.regs && !refused) && (Result(v, op) == Failed(EBADF) <==> fd !in v.regs)
      case ModEvents(fd, _, refused) =>
        (Result(v, op) == Done <==> fd in v.regs && !refused) && (Result(v, op) == Failed(EBADF) <==> fd !in v.regs)
      case ModCallback(fd, _) => Result(v, op) == if fd in v.regs then Done else Failed(EBADF)
      case Remove(fd) => Result(v, op) == if fd in v.regs then Done else Failed(EBADF)
      case Exit => Result(v, op) == Done
      case Resize(size, granted) =>
        && (Result(v, op) == Done <==> size > 0 && (size == v.room || granted))
        && (Result(v, op) == Failed(EINVAL) <==> size <= 0)
  {
  }

  /** The descriptor an operation is about, if it is about one. */
  function About<H>(op: Op<H>): Option<int> {
    match op
    case Exit => None
    case Resize(_, _) => None
    case _ => Some(op.fd)
  }

  /** An operation leaves all other descriptors and the batch alone, and changes its own as it says: the
      number of a registration stays with it until it is removed. */
  lemma OnlyItsOwn<H>(v: View<H>, op: Op<H>)
    ensures var w := Apply(v, op);
      && w.pending == v.pending
      && (forall x :: About(op) != Some(x) ==> (x in w.regs <==> x in v.regs) && (x in v.regs ==> w.regs[x] == v.regs[x]))
      && (w.run <==> v.run && op != Op.Exit)
      && w.room == (if op.Resize? && Result(v, op) == Done then op.size else v.room)
    ensures var w := Apply(v, op);
      Result(v, op) == Done ==>
        match op
        case Add(fd, mask, handler, _) => fd in w.regs && w.regs[fd] == Reg(v.next, mask, handler) && w.next > v.next
        case Mod(fd, mask, handler, _) => fd in w.regs && w.regs[fd] == Reg(v.regs[fd].serial, mask, handler)
        case ModEvents(fd, mask, _) => fd in w.regs && w.regs[fd] == Reg(v.regs[fd].serial, mask, v.regs[fd].handler)
        case ModCallback(fd, handler) => fd in w.regs && w.regs[fd] == Reg(v.regs[fd].serial, v.regs[fd].mask, handler)
        case Remove(fd) => fd !in w.regs
        case _ => w.regs == v.regs
  {
  }

  /** What becomes of the registrations when a mask is changed. */
  lemma ModEventsIs<H>(v: View<H>, fd: int, mask: Mask)
    ensures var w := Apply(v, Op<H>.ModEvents(fd, mask, false));
      && w.pending == v.pending && w.next == v.next
      && (forall x :: x in v.regs ==> x in w.regs)
      && forall x :: x in w.regs ==>
           x in v.regs && w.regs[x] == if x == fd then v.regs[x].(mask := mask) else v.regs[x]
  {
  }

  /** And when one is added, if it is. */
  lemma AddIs<H>(v: View<H>, fd: int, mask: Mask, handler: H, fault: Fault)
    ensures var w := Apply(v, Op.Add(fd, mask, handler, fault));
      && w.pending == v.pending
      && forall x :: x in w.regs ==>
           (x in v.regs && w.regs[x] == v.regs[x]) || (x == fd && w.regs[x] == Reg(v.next, mask, handler))
  {
  }

  /** A descriptor that is not registered is added exactly when nothing fails. */
  lemma AddFresh<H>(v: View<H>, fd: int, mask: Mask, handler: H, fault: Fault)
    requires fd !in v.regs
    ensures Apply(v, Op.Add(fd, mask, handler, fault)).regs
         == if fault == NoFault then v.regs[fd := Reg(v.next, mask, handler)] else v.regs
  {
  }

  lemma {:induction false} ApplyAllKeepsOk<H>(v: View<H>, ops: seq<Op<H>>)
    requires Ok(v)
    ensures Ok(ApplyAll(v, ops)) && ApplyAll(v, ops).pending == v.pending && v.next <= ApplyAll(v, ops).next
    decreases |ops|
  {
    if ops != [] {
      ApplyKeepsOk(v, ops[0]);
      ApplyAllKeepsOk(Apply(v, ops[0]), ops[1..]);
    }
  }

  // ---- Dispatching a batch ---------------------------------------------------------------

  datatype Call<H> = Call(fd: int, serial: nat, ready: Ready, handler: H)

  /** Event i of the batch: who is called, if anyone, and the table after what it did. */
  function Turn<H>(v: View<H>, program: seq<Op<H>>): (Option<Call<H>>, View<H>)
    requires v.pending != []
  {
    var e := v.pending[0];
    if Live(v, e) then
      (Some(Call(e.fd, e.serial, e.ready, v.regs[e.fd].handler)), ApplyAll(Popped(v), program))
    else (None, Popped(v))
  }

  /** The batch in order; programs[i] is what the handler of event i does if it is called. */
  function Dispatch<H>(v: View<H>, programs: seq<seq<Op<H>>>): (r: (seq<Option<Call<H>>>, View<H>))
    requires |programs| == |v.pending| && Ok(v)
    ensures |r.0| == |v.pending| && Ok(r.1) && r.1.pending == []
    decreases |v.pending|
  {
    if v.pending == [] then ([], v)
    else
      var (call, after) := Turn(v, programs[0]);
      TurnKeepsOk(v, programs[0]);
      var (calls, end) := Dispatch(after, programs[1..]);
      ([call] + calls, end)
  }

  lemma DispatchOne<H>(v: View<H>, programs: seq<seq<Op<H>>>)
    requires |programs| == |v.pending| && Ok(v) && v.pending != []
    ensures var (call, after) := Turn(v, programs[0]);
      && Ok(after) && |after.pending| == |programs| - 1
      && after == (if Live(v, v.pending[0]) then ApplyAll(Popped(v), programs[0]) else Popped(v))
      && Dispatch(v, programs).0 == [call] + Dispatch(after, programs[1..]).0
      && Dispatch(v, programs).1 == Dispatch(after, programs[1..]).1
  {
    TurnKeepsOk(v, programs[0]);
  }

  lemma DispatchNothing<H>(v: View<H>, programs: seq<seq<Op<H>>>)
    requires Ok(v) && |programs| == |v.pending| == 0
    ensures Dispatch(v, programs) == ([], v)
  {
  }

  lemma TurnKeepsOk<H>(v: View<H>, program: seq<Op<H>>)
    requires v.pending != [] && Ok(v)
    ensures Ok(Turn(v, program).1) && Turn(v, program).1.pending == v.pending[1..]
  {
    ApplyAllKeepsOk(Popped(v), program);
  }

  /** Only a removal of its descriptor ends a registration, and nothing brings it back: not even
      a new registration of the same descriptor. */
  lemma LiveAfterOne<H>(v: View<H>, op: Op<H>, e: Pend)
    requires e.serial < v.next
    ensures Live(Apply(v, op), e) <==> Live(v, e) && op != Remove(e.fd)
  {
  }

  lemma {:induction false} LiveAfter<H>(v: View<H>, ops: seq<Op<H>>, e: Pend)
    requires Ok(v) && e.serial < v.next
    ensures Live(ApplyAll(v, ops), e) <==> Live(v, e) && Remove(e.fd) !in ops
    decreases |ops|
  {
    if ops != [] {
      ApplyKeepsOk(v, ops[0]);
      LiveAfterOne(v, ops[0], e);
      LiveAfter(Apply(v, ops[0]), ops[1..], e);
      assert ops == [ops[0]] + ops[1..];
    }
  }

  /** The calls made for a batch are exactly the events whose registration was not removed by an
      earlier call of the batch, each in its place, with the conditions it was reported with. */
  lemma {:induction false} CalledUnlessRemoved<H>(v: View<H>, programs: seq<seq<Op<H>>>, i: nat)
    requires |programs| == |v.pending| && Ok(v) && i < |v.pending|
    ensures var calls := Dispatch(v, programs).0;
      && (calls[i].Some? <==>
            Live(v, v.pending[i]) && Spared(calls, programs, v.pending[i].fd, i))
      && (calls[i].Some? ==>
            && calls[i].value.fd == v.pending[i].fd
            && calls[i].value.serial == v.pending[i].serial
            && calls[i].value.ready == v.pending[i].ready)
    decreases i
  {
    hide ApplyAll, Ok, Dispatch, Live;
    var (call, after) := Turn(v, programs[0]);
    TurnKeepsOk(v, programs[0]);
    DispatchOne(v, programs);
    var rest := Dispatch(after, programs[1..]).0;
    if i > 0 {
      var e := v.pending[i];
      CalledUnlessRemoved(after, programs[1..], i - 1);
      TurnSpares(v, programs[0], i);
      SparedIsShifted([call] + rest, programs, e.fd, i);
    }
  }

  /** A later event survives a turn unless the call made in it removed its descriptor. */
  lemma TurnSpares<H>(v: View<H>, program: seq<Op<H>>, i: nat)
    requires Ok(v) && 0 < i < |v.pending|
    ensures var (call, after) := Turn(v, program);
      var e := v.pending[i];
      Live(after, e) <==> Live(v, e) && (call.Some? ==> Remove(e.fd) !in program)
  {
    hide ApplyAll;
    PopKeepsOk(v);
    LiveAfter(Popped(v), program, v.pending[i]);
  }

  /** None of the first i calls removed the descriptor. */
  ghost predicate Spared<H>(calls: seq<Option<Call<H>>>, programs: seq<seq<Op<H>>>, fd: int, i: nat)
    requires i <= |calls| && i <= |programs|
  {
    forall j :: 0 <= j < i && calls[j].Some? ==> Remove(fd) !in programs[j]
  }

  lemma SparedIsShifted<H>(calls: seq<Option<Call<H>>>, programs: seq<seq<Op<H>>>, fd: int, i: nat)
    requires 0 < i <= |calls| && i <= |programs|
    ensures Spared(calls, programs, fd, i)
       <==> (calls[0].Some? ==> Remove(fd) !in programs[0]) && Spared(calls[1..], programs[1..], fd, i - 1)
  {
    assert forall j :: 0 <= j < i - 1 ==> calls[1..][j] == calls[j + 1] && programs[1..][j] == programs[j + 1];
    assert forall j :: 1 <= j < i ==> calls[j] == calls[1..][j - 1] && programs[j] == programs[1..][j - 1];
  }

  lemma PopKeepsOk<H>(v: View<H>)
    requires v.pending != [] && Ok(v)
    ensures Ok(Popped(v))
  {
  }

  lemma WokenIsLive<H>(v: View<H>, ready: seq<(int, Ready)>)
    requires CanWake(v, ready) && Ok(v)
    ensures Ok(Woken(v, ready))
    ensures forall i :: 0 <= i < |ready| ==> Live(Woken(v, ready), Woken(v, ready).pending[i])
  {
  }

  // ---- Whole runs --------------------------------------------------------------------------

  /** What epoll_wait answers. */
  datatype Wait = Woke(ready: seq<(int, Ready)>) | TimedOut | WaitFailed

  datatype Round<H> = Round(wait: Wait, programs: seq<seq<Op<H>>>, after: seq<Op<H>>)

  predicate KeepsBatch<H>(ops: seq<Op<H>>, n: nat) {
    forall k :: 0 <= k < |ops| && ops[k].Resize? ==> n <= ops[k].size
  }

  /** A round the loop may meet: the kernel reports registered descriptors, and no handler
      shrinks the array of events below the batch it is called for. */
  predicate CanRound<H>(v: View<H>, round: Round<H>) {
    match round.wait
    case Woke(ready) =>
      && CanWake(v, ready) && |round.programs| == |ready|
      && forall i :: 0 <= i < |ready| ==> KeepsBatch(round.programs[i], |ready|)
    case _ => round.programs == []
  }

  /** One iteration of sepoll_enter. A timeout or an error ends the loop unless there is a
      function to tell it to. */
  function Iterate<H>(v: View<H>, round: Round<H>, hasFunction: bool): (r: (seq<Option<Call<H>>>, View<H>))
    requires Ok(v) && v.pending == [] && CanRound(v, round)
    ensures Ok(r.1) && r.1.pending == []
  {
    var (calls, end) :=
      if round.wait.Woke? then
        WokenIsLive(v, round.wait.ready);
        Dispatch(Woken(v, round.wait.ready), round.programs)
      else ([], v);
    ApplyAllKeepsOk(end, round.after);
    (calls, if hasFunction then ApplyAll(end, round.after)
            else if round.wait.Woke? then end else end.(run := false))
  }

  predicate CanRun<H>(v: View<H>, rounds: seq<Round<H>>, hasFunction: bool)
    requires Ok(v) && v.pending == []
    decreases |rounds|
  {
    !v.run || rounds == []
    || (CanRound(v, rounds[0]) && CanRun(Iterate(v, rounds[0], hasFunction).1, rounds[1..], hasFunction))
  }

  function Run<H>(v: View<H>, rounds: seq<Round<H>>, hasFunction: bool): (r: (seq<seq<Option<Call<H>>>>, View<H>))
    requires Ok(v) && v.pending == [] && CanRun(v, rounds, hasFunction)
    ensures Ok(r.1) && r.1.pending == []
    decreases |rounds|
  {
    if !v.run || rounds == [] then ([], v)
    else
      var (calls, after) := Iterate(v, rounds[0], hasFunction);
      var (log, end) := Run(after, rounds[1..], hasFunction);
      ([calls] + log, end)
  }

  lemma RunOne<H>(v: View<H>, rounds: seq<Round<H>>, hasFunction: bool)
    requires Ok(v) && v.pending == [] && CanRun(v, rounds, hasFunction) && v.run && rounds != []
    ensures CanRound(v, rounds[0])
    ensures var (calls, after) := Iterate(v, rounds[0], hasFunction);
      && CanRun(after, rounds[1..], hasFunction)
      && Run(v, rounds, hasFunction).0 == [calls] + Run(after, rounds[1..], hasFunction).0
      && Run(v, rounds, hasFunction).1 == Run(after, rounds[1..], hasFunction).1
  {
  }

  lemma RunNothing<H>(v: View<H>, rounds: seq<Round<H>>, hasFunction: bool)
    requires Ok(v) && v.pending == [] && (!v.run || rounds == [])
    ensures CanRun(v, rounds, hasFunction) && Run(v, rounds, hasFunction) == ([], v)
  {
  }

  lemma {:induction false} AskedToExit<H>(v: View<H>, ops: seq<Op<H>>)
    ensures ApplyAll(v, ops).run <==> v.run && Op<H>.Exit !in ops
    decreases |ops|
  {
    if ops != [] {
      OnlyItsOwn(v, ops[0]);
      AskedToExit(Apply(v, ops[0]), ops[1..]);
      assert ops == [ops[0]] + ops[1..];
    }
  }

  /** None of the calls made asked the loop to exit. */
  ghost predicate NoneExits<H>(calls: seq<Option<Call<H>>>, programs: seq<seq<Op<H>>>)
    requires |calls| == |programs|
  {
    forall i :: 0 <= i < |calls| && calls[i].Some? ==> Op<H>.Exit !in programs[i]
  }

  lemma {:induction false} BatchExits<H>(v: View<H>, programs: seq<seq<Op<H>>>)
    requires |programs| == |v.pending| && Ok(v)
    ensures var (calls, end) := Dispatch(v, programs); end.run <==> v.run && NoneExits(calls, programs)
    decreases |programs|
  {
    hide ApplyAll, Ok, Live;
    if programs == [] {
      DispatchNothing(v, programs);
    } else {
      var (call, after) := Turn(v, programs[0]);
      DispatchOne(v, programs);
      AskedToExit(Popped(v), programs[0]);
      BatchExits(after, programs[1..]);
      var rest := Dispatch(after, programs[1..]).0;
      assert NoneExits([call] + rest, programs)
        <==> (call.Some? ==> Op<H>.Exit !in programs[0]) && NoneExits(rest, programs[1..]) by {
        assert forall i :: 0 < i < |programs| ==> ([call] + rest)[i] == rest[i - 1] && programs[i] == programs[1..][i - 1];
        assert forall i :: 0 <= i < |rest| ==> rest[i] == ([call] + rest)[i + 1] && programs[1..][i] == programs[i + 1];
      }
    }
  }

  /** The loop goes on after an iteration exactly if no call of the batch asked it to exit, nor the function
      it is given, if it is given one, and otherwise the wait did not time out or fail. */
  lemma GoesOnUntilAsked<H>(v: View<H>, round: Round<H>, hasFunction: bool)
    requires Ok(v) && v.pending == [] && CanRound(v, round)
    ensures var (calls, end) := Iterate(v, round, hasFunction);
      && |calls| == |round.programs|
      && (end.run <==>
            && v.run && NoneExits(calls, round.programs)
            && if hasFunction then Op<H>.Exit !in round.after else round.wait.Woke?)
  {
    hide ApplyAll, Ok, Dispatch, NoneExits;
    if round.wait.Woke? {
      WokenIsLive(v, round.wait.ready);
      var woken := Woken(v, round.wait.ready);
      BatchExits(woken, round.programs);
      AskedToExit(Dispatch(woken, round.programs).1, round.after);
    } else {
      AskedToExit(v, round.after);
      NoCalls<H>();
    }
  }

  lemma NoCalls<H>()
    ensures NoneExits<H>([], [])
  {
  }

  /** A whole batch: an event is delivered exactly when no earlier call of its batch removed its
      descriptor, also when one of them asked the loop to exit or resized the array. */
  lemma BatchDelivery<H>(v: View<H>, round: Round<H>, hasFunction: bool, i: nat)
    requires Ok(v) && v.pending == [] && CanRound(v, round) && round.wait.Woke? && i < |round.wait.ready|
    ensures var calls := Iterate(v, round, hasFunction).0;
      && |calls| == |round.wait.ready|
      && (calls[i].Some? <==> Spared(calls, round.programs, round.wait.ready[i].0, i))
      && (calls[i].Some? ==>
            && calls[i].value.fd == round.wait.ready[i].0
            && calls[i].value.serial == v.regs[round.wait.ready[i].0].serial
            && calls[i].value.ready == round.wait.ready[i].1)
  {
    WokenIsLive(v, round.wait.ready);
    CalledUnlessRemoved(Woken(v, round.wait.ready), round.programs, i);
  }
}
