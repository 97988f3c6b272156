/** Whole runs of the worker process: every state between two handlers is in order. */
module ServerRuns {
  import opened Bytes
  import opened Lists
  import opened Registry
  import opened ServerState

  /** What happens next: time passes, epoll_wait returns or fails, or the next event of the batch is
      dispatched to the handler registered for it, if it still is. */
  datatype Step =
    | Tick(now: int)
    | Wake(ready: seq<(int, Ready)>)
    | Halting
    | Stale
    | Signal(term: bool)
    | Sweeping(verdicts: map<Addr, Verdict>)
    | Accepting(arrivals: seq<Arrival>, log: seq<Admission>)
    | Handling(env: Env, fd: int)
    | Reaping

  function Pop(s: State): State
    requires s.view.pending != []
  {
    s.(view := Popped(s.view))
  }

  function HandlerOf(s: State): Option<Handler>
    requires s.view.pending != []
  {
    var e := s.view.pending[0];
    if Live(s.view, e) then Some(s.view.regs[e.fd].handler) else None
  }

  lemma OtherFds(g: Config, s: State, v: View<Handler>)
    requires FdsOk(g, s)
    ensures FdsOk(g, s.(view := v))
  {
  }

  lemma OtherPhases(s: State, v: View<Handler>)
    requires PhasesOk(s, None)
    ensures PhasesOk(s.(view := v), None)
  {
    hide InPhase;
  }

  lemma OtherRest(g: Config, s: State, v: View<Handler>)
    requires ListOk(g, s) && TimeOk(g, s) && IdsOk(s)
    ensures var t := s.(view := v); ListOk(g, t) && TimeOk(g, t) && IdsOk(t)
  {
  }

  lemma OtherRegs(g: Config, s: State, v: View<Handler>)
    requires RegsOk(g, s, None) && v.regs == s.view.regs
    ensures RegsOk(g, s.(view := v), None)
  {
  }

  /** A change of the batch alone leaves everything else in order. */
  lemma BatchKeepsInv(g: Config, s: State, v: View<Handler>)
    requires Inv(g, s) && Ok(v) && v.regs == s.view.regs && BatchOk(s.(view := v))
    ensures Inv(g, s.(view := v))
  {
    hide FdsOk, PhasesOk, RegsOk, BatchOk, ListOk, TimeOk, IdsOk, Ok;
    OtherFds(g, s, v);
    OtherPhases(s, v);
    OtherRest(g, s, v);
    OtherRegs(g, s, v);
  }

  lemma PopKeepsBatch(s: State)
    requires BatchOk(s) && s.view.pending != []
    ensures BatchOk(Pop(s))
  {
    var t := Pop(s);
    assert forall i :: 0 <= i < |t.view.pending| ==> t.view.pending[i] == s.view.pending[i + 1];
  }

  lemma PopKeepsInv(g: Config, s: State)
    requires Inv(g, s) && s.view.pending != []
    ensures Inv(g, Pop(s))
  {
    hide FdsOk, PhasesOk, RegsOk, BatchOk, ListOk, TimeOk, IdsOk, Ok;
    PopKeepsOk(s.view);
    PopKeepsBatch(s);
    BatchKeepsInv(g, s, Popped(s.view));
  }

  /** The event taken off the batch is one its client's phase waits for, and no other event of the
      batch is for the same registration. */
  lemma EventIsExpected(g: Config, s: State, a: Addr)
    requires Inv(g, s) && s.view.pending != [] && HandlerOf(s) == Some(OnClient(a))
    ensures OnOwnSocket(Pop(s), a) && CanHandle(Pop(s), a, s.view.pending[0].ready)
  {
    var e := s.view.pending[0];
    assert a in s.clients && s.clients[a].socket == e.fd;
    InPhaseOf(g, s, a);
    assert s.view.regs[e.fd].mask == PhaseMask(s.clients[a]);
    assert NotPending(Popped(s.view), e.serial) by {
      assert forall i :: 0 <= i < |Popped(s.view).pending| ==> Popped(s.view).pending[i] == s.view.pending[i + 1];
    }
    hide FdsOk, PhasesOk, RegsOk, ListOk, TimeOk, IdsOk, Ok, NotPending;
  }

  lemma ExitIsExpected(g: Config, s: State, a: Addr)
    requires Inv(g, s) && s.view.pending != [] && HandlerOf(s) == Some(OnProcess(a))
    ensures Connected(Pop(s), a) && Inv(g, Pop(s))
  {
    PopKeepsInv(g, s);
    assert a in s.clients;
    InPhaseOf(g, Pop(s), a);
  }

  function Exited(s: State): State {
    s.(view := Apply(s.view, Op<Handler>.Exit))
  }

  ghost predicate Next(g: Config, s: State, step: Step, t: State)
    requires Inv(g, s)
  {
    match step
    case Tick(now) => s.clock <= now && t == s.(clock := now)
    case Wake(ready) => s.view.pending == [] && CanWake(s.view, ready) && t == s.(view := Woken(s.view, ready))
    case Halting => s.view.pending == [] && t == Exited(s)
    case Stale => s.view.pending != [] && HandlerOf(s) == None && t == Pop(s)
    case Signal(term) =>
      s.view.pending != [] && HandlerOf(s) == Some(OnSignal) && t == if term then Exited(Pop(s)) else Pop(s)
    case Sweeping(verdicts) =>
      && s.view.pending != [] && HandlerOf(s) == Some(OnTimer)
      && (PopKeepsInv(g, s); t == Timer(g, Pop(s), verdicts))
    case Accepting(arrivals, log) =>
      && s.view.pending != [] && HandlerOf(s) == Some(OnListen)
      && (s.view.pending[0].ready.inn || log == [])
      && CanAdmitAll(g, Pop(s), arrivals, log) && t == AdmitAll(Pop(s), log)
    case Handling(env, fd) =>
      && s.view.pending != [] && HandlerOf(s).Some? && HandlerOf(s).value.OnClient?
      && (s.view.pending[0].ready.inn ==> FreshFd(s, env, fd))
      && var a := HandlerOf(s).value.addr;
         (PopKeepsInv(g, s); EventIsExpected(g, s, a);
          t == ClientEvent(g, Pop(s), a, s.view.pending[0].ready, env, fd))
    case Reaping =>
      && s.view.pending != [] && HandlerOf(s).Some? && HandlerOf(s).value.OnProcess?
      && (ExitIsExpected(g, s, HandlerOf(s).value.addr); t == Gone(Pop(s), HandlerOf(s).value.addr))
  }

  lemma TickKeepsInv(g: Config, s: State, now: int)
    requires Inv(g, s) && s.clock <= now
    ensures Inv(g, s.(clock := now))
  {
    hide InPhase, Ok, Live;
  }

  lemma WakeKeepsBatch(s: State, ready: seq<(int, Ready)>)
    requires CanWake(s.view, ready)
    ensures BatchOk(s.(view := Woken(s.view, ready)))
  {
  }

  lemma WakeKeepsInv(g: Config, s: State, ready: seq<(int, Ready)>)
    requires Inv(g, s) && CanWake(s.view, ready)
    ensures Inv(g, s.(view := Woken(s.view, ready)))
  {
    hide FdsOk, PhasesOk, RegsOk, BatchOk, ListOk, TimeOk, IdsOk, Ok, CanWake;
    WokenIsLive(s.view, ready);
    WakeKeepsBatch(s, ready);
    BatchKeepsInv(g, s, Woken(s.view, ready));
  }

  lemma ExitedKeepsInv(g: Config, s: State)
    requires Inv(g, s)
    ensures Inv(g, Exited(s))
  {
    ExitedKeepsBatch(s);
    hide FdsOk, PhasesOk, RegsOk, BatchOk, ListOk, TimeOk, IdsOk, Ok;
    ApplyKeepsOk(s.view, Op<Handler>.Exit);
    BatchKeepsInv(g, s, Exited(s).view);
  }

  lemma ExitedKeepsBatch(s: State)
    requires BatchOk(s)
    ensures BatchOk(Exited(s))
  {
  }

  /** Every step of the process leaves everything in order. */
  lemma NextKeepsInv(g: Config, s: State, step: Step, t: State)
    requires Inv(g, s) && Next(g, s, step, t)
    ensures Inv(g, t)
  {
    hide Inv, Timer, ClientEvent, AdmitAll, Gone, CanHandle, OnOwnSocket, HasSocket;
    if s.view.pending != [] {
      PopKeepsInv(g, s);
    }
    match step
    case Tick(now) => TickKeepsInv(g, s, now);
    case Wake(ready) => WakeKeepsInv(g, s, ready);
    case Halting => ExitedKeepsInv(g, s);
    case Stale =>
    case Signal(term) => ExitedKeepsInv(g, Pop(s));
    case Sweeping(verdicts) => TimerKeepsInv(g, Pop(s), verdicts);
    case Accepting(arrivals, log) => AdmitAllKeepsInv(g, Pop(s), arrivals, log);
    case Handling(env, fd) =>
      var a := HandlerOf(s).value.addr;
      EventIsExpected(g, s, a);
      ClientEventKeepsInv(g, Pop(s), a, s.view.pending[0].ready, env, fd);
    case Reaping =>
      var a := HandlerOf(s).value.addr;
      ExitIsExpected(g, s, a);
      AnyoneMayBeBusy(g, Pop(s), a);
      GoneKeepsInv(g, Pop(s), a);
  }

  // ---- Runs ----------------------------------------------------------------------------------------

  /** A run from a state in order. What a step does is defined for states in order, which all
      states of a run turn out to be. */
  ghost predicate IsRun(g: Config, states: seq<State>, steps: seq<Step>) {
    && |states| == |steps| + 1
    && Inv(g, states[0])
    && forall i :: 0 <= i < |steps| && Inv(g, states[i]) ==> Next(g, states[i], steps[i], states[i + 1])
  }

  lemma {:induction false} RunKeepsInv(g: Config, states: seq<State>, steps: seq<Step>, i: nat)
    requires IsRun(g, states, steps) && i < |states|
    ensures Inv(g, states[i])
  {
    hide Inv, Next;
    if i > 0 {
      RunKeepsInv(g, states, steps, i - 1);
      NextKeepsInv(g, states[i - 1], steps[i - 1], states[i]);
    }
  }

  /** A record of a run. */
  datatype Trace = Trace(states: seq<State>, steps: seq<Step>)

  ghost predicate Ran(g: Config, trace: Trace, s: State, t: State) {
    && IsRun(g, trace.states, trace.steps)
    && trace.states[0] == s && trace.states[|trace.steps|] == t
  }

  function Extended(trace: Trace, step: Step, t: State): Trace {
    Trace(trace.states + [t], trace.steps + [step])
  }

  /** What epoll_wait reported along the way. */
  function Reported(steps: seq<Step>): seq<seq<(int, Ready)>> {
    if steps == [] then []
    else
      var last := steps[|steps| - 1];
      Reported(steps[..|steps| - 1]) + if last.Wake? then [last.ready] else []
  }

  /** What the clock was looked at to be along the way. */
  function Ticks(steps: seq<Step>): seq<int> {
    if steps == [] then []
    else
      var last := steps[|steps| - 1];
      Ticks(steps[..|steps| - 1]) + if last.Tick? then [last.now] else []
  }

  /** The events handled along the way, each with the state it was handled in. */
  function Handled(trace: Trace): seq<(State, Step)>
    decreases |trace.steps|
  {
    if trace.steps == [] || |trace.states| != |trace.steps| + 1 then []
    else
      var n := |trace.steps| - 1;
      Handled(Trace(trace.states[..n + 1], trace.steps[..n]))
      + if IsEvent(trace.steps[n]) then [(trace.states[n], trace.steps[n])] else []
  }

  lemma HandledOn(trace: Trace, step: Step, t: State)
    requires |trace.states| == |trace.steps| + 1
    ensures Reported(Extended(trace, step, t).steps)
         == if step.Wake? then Reported(trace.steps) + [step.ready] else Reported(trace.steps)
    ensures Ticks(Extended(trace, step, t).steps)
         == if step.Tick? then Ticks(trace.steps) + [step.now] else Ticks(trace.steps)
    ensures Handled(Extended(trace, step, t))
         == if IsEvent(step) then Handled(trace) + [(trace.states[|trace.steps|], step)] else Handled(trace)
  {
    var n := |trace.steps|;
    assert (trace.steps + [step])[..n] == trace.steps && (trace.states + [t])[..n + 1] == trace.states;
  }

  lemma RanStart(g: Config, s: State)
    requires Inv(g, s)
    ensures Ran(g, Trace([s], []), s, s)
  {
  }

  /** A run goes on, and what is recorded of it with it. */
  lemma RanOn(g: Config, trace: Trace, s: State, t: State, step: Step, u: State)
    requires Ran(g, trace, s, t) && Inv(g, t) && Next(g, t, step, u)
    ensures Ran(g, Extended(trace, step, u), s, u)
    ensures Reported(Extended(trace, step, u).steps)
         == if step.Wake? then Reported(trace.steps) + [step.ready] else Reported(trace.steps)
    ensures Ticks(Extended(trace, step, u).steps)
         == if step.Tick? then Ticks(trace.steps) + [step.now] else Ticks(trace.steps)
    ensures Handled(Extended(trace, step, u)) == if IsEvent(step) then Handled(trace) + [(t, step)] else Handled(trace)
  {
    hide Inv, Next, Handled, Reported, Ticks;
    HandledOn(trace, step, u);
    var next := Extended(trace, step, u);
    assert forall i :: 0 <= i < |trace.states| ==> next.states[i] == trace.states[i];
    assert forall i :: 0 <= i < |trace.steps| ==> next.steps[i] == trace.steps[i];
  }

  lemma RanInv(g: Config, trace: Trace, s: State, t: State)
    requires Ran(g, trace, s, t)
    ensures Inv(g, t)
  {
    RunKeepsInv(g, trace.states, trace.steps, |trace.steps|);
  }

  // ---- One event at a time -----------------------------------------------------------------------------

  predicate IsEvent(step: Step) {
    !step.Tick? && !step.Wake? && !step.Halting?
  }

  lemma {:induction false} SweepKeepsBatch(g: Config, s: State, todo: seq<Addr>, verdicts: map<Addr, Verdict>)
    requires Inv(g, s) && Sweepable(s, todo)
    ensures Sweep(g, s, todo, verdicts).view.pending == s.view.pending
    decreases |todo|
  {
    hide Inv, InPhase, HasSocket, SweepOne, Doomed, Sweepable;
    if todo != [] {
      var a := todo[0];
      var v := VerdictOn(verdicts, a);
      SweepGoesOn(g, s, todo, v);
      SweepOneKeepsBatch(g, s, a, v);
      SweepKeepsBatch(g, SweepOne(g, s, a, v), todo[1..], verdicts);
    }
  }

  lemma SweepOneKeepsBatch(g: Config, s: State, a: Addr, v: Verdict)
    requires Connected(s, a) && InPhase(s.clients[a], s.open)
    ensures SweepOne(g, s, a, v).view.pending == s.view.pending
  {
  }

  lemma {:induction false} AdmitAllKeepsBatch(s: State, log: seq<Admission>)
    ensures AdmitAll(s, log).view.pending == s.view.pending
    decreases |log|
  {
    if log != [] {
      AdmitAllKeepsBatch(Admit(s, log[0]), log[1..]);
    }
  }

  lemma OnDataKeepsBatch(s: State, a: Addr, ready: Ready, env: Env, fd: int)
    requires CanHandle(s, a, ready)
    ensures OnData(s, a, ready, env, fd).view.pending == s.view.pending
  {
    hide Decide, HasSocket;
  }

  lemma ClientEventKeepsBatch(g: Config, s: State, a: Addr, ready: Ready, env: Env, fd: int)
    requires Inv(g, s) && CanHandle(s, a, ready) && (ready.inn ==> OnOwnSocket(s, a) && FreshFd(s, env, fd))
    ensures ClientEvent(g, s, a, ready, env, fd).view.pending == s.view.pending
  {
    hide Inv, CanHandle, OnData;
    OnDataKeepsBatch(s, a, ready, env, fd);
    OnDataKeepsInv(g, s, a, ready, env, fd);
  }

  /** A handler is called for one event and uses up that event alone. */
  lemma NextPops(g: Config, s: State, step: Step, t: State)
    requires Inv(g, s) && Next(g, s, step, t) && IsEvent(step)
    ensures s.view.pending != [] && t.view.pending == s.view.pending[1..]
  {
    hide Inv, AdmitAll, CanAdmitAll, Sweep, ClientEvent, CanHandle, OnOwnSocket, HasSocket;
    PopKeepsInv(g, s);
    match step
    case Sweeping(verdicts) =>
      AllAreSweepable(g, Pop(s));
      SweepKeepsBatch(g, Pop(s), Pop(s).list, verdicts);
    case Accepting(arrivals, log) => AdmitAllKeepsBatch(Pop(s), log);
    case Handling(env, fd) =>
      var a := HandlerOf(s).value.addr;
      EventIsExpected(g, s, a);
      ClientEventKeepsBatch(g, Pop(s), a, s.view.pending[0].ready, env, fd);
    case _ =>
  }

  lemma SweepOneRuns(g: Config, s: State, a: Addr, v: Verdict)
    requires Connected(s, a) && InPhase(s.clients[a], s.open)
    ensures SweepOne(g, s, a, v).view.run == s.view.run
  {
    hide InPhase, HasSocket, Without, CloseAll;
  }

  lemma {:induction false} SweepRuns(g: Config, s: State, todo: seq<Addr>, verdicts: map<Addr, Verdict>)
    requires Inv(g, s) && Sweepable(s, todo)
    ensures Sweep(g, s, todo, verdicts).view.run == s.view.run
    decreases |todo|
  {
    hide Inv, InPhase, HasSocket, SweepOne, Sweepable;
    if todo != [] {
      var v := VerdictOn(verdicts, todo[0]);
      SweepGoesOn(g, s, todo, v);
      SweepOneRuns(g, s, todo[0], v);
      SweepRuns(g, SweepOne(g, s, todo[0], v), todo[1..], verdicts);
    }
  }

  lemma {:induction false} SweepKeepsClock(g: Config, s: State, todo: seq<Addr>, verdicts: map<Addr, Verdict>)
    requires Inv(g, s) && Sweepable(s, todo)
    ensures Sweep(g, s, todo, verdicts).clock == s.clock
  {
    hide Inv, Sweep, Sweepable;
    SweepDropsDoomed(g, s, todo, verdicts);
  }

  lemma {:induction false} AdmitAllKeepsClock(s: State, log: seq<Admission>)
    ensures AdmitAll(s, log).clock == s.clock && AdmitAll(s, log).view.run == s.view.run
    decreases |log|
  {
    if log != [] {
      AdmitAllKeepsClock(Admit(s, log[0]), log[1..]);
    }
  }

  lemma ClientEventKeepsClock(g: Config, s: State, a: Addr, ready: Ready, env: Env, fd: int)
    requires Inv(g, s) && CanHandle(s, a, ready) && (ready.inn ==> OnOwnSocket(s, a) && FreshFd(s, env, fd))
    ensures var t := ClientEvent(g, s, a, ready, env, fd); t.clock == s.clock && t.view.run == s.view.run
  {
    hide Inv, CanHandle, OnData;
    OnDataKeepsClock(s, a, ready, env, fd);
    OnDataKeepsInv(g, s, a, ready, env, fd);
  }

  lemma OnDataKeepsClock(s: State, a: Addr, ready: Ready, env: Env, fd: int)
    requires CanHandle(s, a, ready)
    ensures var t := OnData(s, a, ready, env, fd); t.clock == s.clock && t.view.run == s.view.run
  {
    hide Decide, HasSocket;
  }

  /** The time does not change within a handler. */
  lemma NextKeepsClock(g: Config, s: State, step: Step, t: State)
    requires Inv(g, s) && Next(g, s, step, t) && IsEvent(step)
    ensures t.clock == s.clock
  {
    hide Inv, AdmitAll, CanAdmitAll, Sweep, ClientEvent, CanHandle, OnOwnSocket, HasSocket;
    PopKeepsInv(g, s);
    match step
    case Sweeping(verdicts) =>
      AllAreSweepable(g, Pop(s));
      SweepKeepsClock(g, Pop(s), Pop(s).list, verdicts);
    case Accepting(arrivals, log) => AdmitAllKeepsClock(Pop(s), log);
    case Handling(env, fd) =>
      var a := HandlerOf(s).value.addr;
      EventIsExpected(g, s, a);
      ClientEventKeepsClock(g, Pop(s), a, s.view.pending[0].ready, env, fd);
    case _ =>
  }

  /** The loop is told to end by a SIGTERM and by a wait that fails, and by nothing else. */
  lemma NextRuns(g: Config, s: State, step: Step, t: State)
    requires Inv(g, s) && Next(g, s, step, t)
    ensures t.view.run <==> s.view.run && step != Halting && step != Signal(true)
  {
    hide Inv, AdmitAll, CanAdmitAll, Sweep, ClientEvent, CanHandle, OnOwnSocket, HasSocket;
    if s.view.pending != [] {
      PopKeepsInv(g, s);
    }
    match step
    case Sweeping(verdicts) =>
      AllAreSweepable(g, Pop(s));
      SweepRuns(g, Pop(s), Pop(s).list, verdicts);
    case Accepting(arrivals, log) => AdmitAllKeepsClock(Pop(s), log);
    case Handling(env, fd) =>
      var a := HandlerOf(s).value.addr;
      EventIsExpected(g, s, a);
      ClientEventKeepsClock(g, Pop(s), a, s.view.pending[0].ready, env, fd);
    case _ =>
  }

  lemma {:induction false} RunsUntilTold(g: Config, states: seq<State>, steps: seq<Step>, j: nat)
    requires IsRun(g, states, steps) && j < |states|
    ensures states[j].view.run <==>
              states[0].view.run && forall k :: 0 <= k < j ==> steps[k] != Halting && steps[k] != Signal(true)
  {
    hide Inv, Next;
    if j > 0 {
      RunsUntilTold(g, states, steps, j - 1);
      RunKeepsInv(g, states, steps, j - 1);
      NextRuns(g, states[j - 1], steps[j - 1], states[j]);
    }
  }

  function CoreFds(g: Config): map<int, Held> {
    map fd | fd in g.Cores() :: Held(TheServer, Core)
  }

  /** The state before the first connection. */
  function Initial(g: Config, view: View<Handler>, now: int): State {
    State(view, CoreFds(g), map[], [], 0, now, now, 0, [])
  }

  /** Only the server's own descriptors are registered, each with its handler. */
  ghost predicate CoreRegs(g: Config, v: View<Handler>) {
    && v.pending == []
    && forall fd :: fd in v.regs ==>
         match v.regs[fd].handler
         case OnSignal => fd == g.sigfd
         case OnTimer => fd == g.timerfd
         case OnListen => fd == g.listener
         case _ => false
  }

  lemma InitialIsOk(g: Config, view: View<Handler>, now: int)
    requires g.Ok() && Ok(view) && CoreRegs(g, view)
    ensures Inv(g, Initial(g, view, now))
  {
    hide Ok;
  }

  // ---- Descriptors -----------------------------------------------------------------------------------

  function One(fd: int): set<int> {
    if fd >= 0 then {fd} else {}
  }

  function Owned(c: Client): set<int> {
    {c.socket} + One(c.file) + One(c.dirfd) + One(c.pidfd)
  }

  function OwnedBy(s: State, list: seq<Addr>): set<int>
    requires forall k :: 0 <= k < |list| ==> list[k] in s.clients
  {
    if list == [] then {} else Owned(s.clients[list[0]]) + OwnedBy(s, list[1..])
  }

  function CountOwned(s: State, list: seq<Addr>): nat
    requires forall k :: 0 <= k < |list| ==> list[k] in s.clients
  {
    if list == [] then 0 else |Owned(s.clients[list[0]])| + CountOwned(s, list[1..])
  }

  lemma OwnedAreHeld(g: Config, s: State, a: Addr)
    requires FdsOk(g, s) && a in s.clients
    ensures forall fd :: fd in Owned(s.clients[a]) <==> fd in s.open && s.open[fd].owner == ForClient(a)
  {
    assert forall fd :: fd in Owned(s.clients[a]) <==> Owns(s.clients[a], fd);
  }

  lemma DisjointSizes(a: set<int>, b: set<int>)
    requires forall fd :: fd in a ==> fd !in b
    ensures |a + b| == |a| + |b|
  {
    var both := a * b;
    assert (forall fd :: fd !in both) ==> both == {};
    assert both == {};
  }

  lemma {:induction false} OwnedByIs(g: Config, s: State, list: seq<Addr>)
    requires FdsOk(g, s) && Distinct(list) && forall k :: 0 <= k < |list| ==> list[k] in s.clients
    ensures forall fd :: fd in OwnedBy(s, list) <==>
              fd in s.open && s.open[fd].owner.ForClient? && s.open[fd].owner.addr in list
    ensures |OwnedBy(s, list)| == CountOwned(s, list)
  {
    hide FdsOk, Owned;
    if list != [] {
      var a, rest := list[0], list[1..];
      OwnedByIs(g, s, rest);
      OwnedAreHeld(g, s, a);
      assert list == [a] + rest && a !in rest;
      assert forall fd :: fd in OwnedBy(s, rest) ==> s.open[fd].owner != ForClient(a);
      DisjointSizes(Owned(s.clients[a]), OwnedBy(s, rest));
    }
  }

  lemma PhaseOwns(c: Client, open: map<int, Held>)
    requires InPhase(c, open)
    ensures 1 <= |Owned(c)| <= 2
  {
    assert c.file >= 0 ==> c.file != c.socket;
    assert c.pidfd >= 0 ==> c.pidfd != c.socket;
    if c.file >= 0 {
      assert Owned(c) == {c.socket, c.file};
    } else if c.pidfd >= 0 {
      assert Owned(c) == {c.socket, c.pidfd};
    } else {
      assert Owned(c) == {c.socket};
    }
  }

  lemma {:induction false} CountOwnedBound(s: State, list: seq<Addr>)
    requires PhasesOk(s, None) && forall k :: 0 <= k < |list| ==> list[k] in s.clients
    ensures |list| <= CountOwned(s, list) <= 2 * |list|
  {
    hide InPhase, Owned;
    if list != [] {
      PhaseOwns(s.clients[list[0]], s.open);
      CountOwnedBound(s, list[1..]);
    }
  }

  /** The descriptors in use are the eight of the server and those of its clients, one or two for
      each; so a handler always finds the four it may need for one client below the limit. */
  lemma OpenDescriptors(g: Config, s: State)
    requires Inv(g, s)
    ensures |s.open| == 8 + CountOwned(s, s.list)
    ensures s.num <= CountOwned(s, s.list) <= 2 * s.num
    ensures |s.open| + 2 < g.Limit() || s.num == 0
    ensures |s.open| < g.Limit()
  {
    g.EightCores();
    OwnedByIs(g, s, s.list);
    CountOwnedBound(s, s.list);
    var owned := OwnedBy(s, s.list);
    CoresAndOwned(g, s, owned);
  }

  lemma CoresAndOwned(g: Config, s: State, owned: set<int>)
    requires FdsOk(g, s) && ListOk(g, s)
    requires forall fd :: fd in owned <==>
               fd in s.open && s.open[fd].owner.ForClient? && s.open[fd].owner.addr in s.list
    ensures s.open.Keys == g.Cores() + owned && g.Cores() !! owned
    ensures |s.open| == |g.Cores()| + |owned|
  {
    forall fd ensures fd in s.open <==> fd in g.Cores() || fd in owned {
      if fd in s.open && s.open[fd].owner.ForClient? {
        assert s.open[fd].owner.addr in s.clients;
      }
    }
    assert s.open.Keys == g.Cores() + owned;
    assert |s.open.Keys| == |s.open|;
  }

  // ---- What every reachable state promises ---------------------------------------------------------

  ghost predicate CallbacksAreLive(s: State) {
    forall fd :: fd in s.view.regs ==>
      match s.view.regs[fd].handler
      case OnClient(a) => a in s.list && a in s.clients && s.clients[a].socket == fd
      case OnProcess(a) => a in s.list && a in s.clients && s.clients[a].pidfd == fd
      case _ => true
  }

  /** A socket is waited on for input until there is a file or a process, then for output if there is a
      file, each time only when that changes. */
  predicate FitsPhase(m: Mask, c: Client) {
    m.edge && (m.inn <==> c.file < 0 && c.pidfd < 0) && (m.out <==> c.file >= 0)
  }

  /** Fields, descriptors and mask of a client always tell the same phase. */
  ghost predicate ClientsAreInPhase(s: State) {
    forall a :: a in s.clients ==>
      var c := s.clients[a];
      && InPhase(c, s.open)
      && (c.socket in s.view.regs && s.view.regs[c.socket].handler == OnClient(a) ==>
            FitsPhase(s.view.regs[c.socket].mask, c))
  }

  ghost predicate DepartedOnce(s: State) {
    && |s.departed| + s.num == s.accepted
    && (forall j, k :: 0 <= j < k < |s.departed| ==> s.departed[j].id != s.departed[k].id)
    && (forall k, a :: 0 <= k < |s.departed| && a in s.clients ==> s.departed[k].id != s.clients[a].id)
    && forall k :: 0 <= k < |s.departed| ==> Proper(s.departed[k].out)
  }

  lemma PhasesAreTold(g: Config, s: State)
    requires Inv(g, s)
    ensures ClientsAreInPhase(s)
  {
    hide FdsOk, BatchOk, ListOk, TimeOk, IdsOk, Ok, HasSocket;
    forall a | a in s.clients ensures FitsPhase(PhaseMask(s.clients[a]), s.clients[a]) {
      MaskFits(s.clients[a], s.open);
    }
    hide InPhase, PhaseMask, FitsPhase;
  }

  lemma MaskFits(c: Client, open: map<int, Held>)
    requires InPhase(c, open)
    ensures FitsPhase(PhaseMask(c), c)
  {
  }

  lemma CallbacksAreListed(g: Config, s: State)
    requires Inv(g, s)
    ensures CallbacksAreLive(s)
  {
    hide FdsOk, PhasesOk, BatchOk, TimeOk, IdsOk, Ok, Distinct;
  }

  lemma CountsAreRight(g: Config, s: State)
    requires Inv(g, s)
    ensures s.num == |s.list| <= g.maxClients && DepartedOnce(s)
  {
    hide FdsOk, PhasesOk, RegsOk, BatchOk, TimeOk, Ok, Distinct;
  }

  lemma IdlenessIsBounded(g: Config, s: State)
    requires Inv(g, s) && s.clock - s.swept <= g.timeout
    ensures forall a :: a in s.clients && s.clients[a].pidfd < 0 ==> s.clock - s.clients[a].timestamp < 2 * g.timeout
  {
    hide FdsOk, PhasesOk, RegsOk, BatchOk, ListOk, IdsOk, Ok;
  }

  /** In every state of every run, also in the middle of a batch: a registered callback belongs to
      a client in the list; every client is in one phase, with the mask of that phase; clients are
      counted and capped; the descriptors stay below what was asked of the system; every client
      accepted is counted as connected or departed, once; each was sent bytes of a file or at most one
      error, never both; and if sweeps are at most a timeout apart, no client without a process has been idle for
      two. */
  lemma EveryStateIsSafe(g: Config, states: seq<State>, steps: seq<Step>, i: nat)
    requires IsRun(g, states, steps) && i < |states|
    ensures var s := states[i];
      && CallbacksAreLive(s) && ClientsAreInPhase(s)
      && s.num == |s.list| <= g.maxClients
      && 8 + s.num <= |s.open| <= 8 + 2 * s.num && |s.open| < g.Limit()
      && DepartedOnce(s)
      && (s.clock - s.swept <= g.timeout ==>
           forall a :: a in s.clients && s.clients[a].pidfd < 0 ==> s.clock - s.clients[a].timestamp < 2 * g.timeout)
  {
    hide IsRun, Inv, CallbacksAreLive, ClientsAreInPhase, DepartedOnce, CountOwned;
    RunKeepsInv(g, states, steps, i);
    CallbacksAreListed(g, states[i]);
    PhasesAreTold(g, states[i]);
    CountsAreRight(g, states[i]);
    OpenDescriptors(g, states[i]);
    if states[i].clock - states[i].swept <= g.timeout {
      IdlenessIsBounded(g, states[i]);
    }
  }
}
