/** From the request a client is heard with to what it is sent, over whole runs. */
module Deliveries {
  import opened Bytes
  import opened Lists
  import opened Registry
  import opened ServerState
  import opened ServerRuns
  import opened Histories
  import opened Watching
  import opened WorkerFacts

  /** The client has open what its request came to. */
  predicate Holds(c: Client, open: map<int, Held>, outcome: Outcome) {
    match outcome
    case Serve(content) => c.file >= 0 && c.file in open && open[c.file].what == File(content)
    case Run(script, query) =>
      && c.pidfd >= 0 && c.pidfd in open && open[c.pidfd].what.Process?
      && open[c.pidfd].what.script == script && open[c.pidfd].what.query == query
    case Drop(_) => false
  }

  /** What a client may have been sent by the end: the start of its file, nothing besides what its
      process wrote, or the reply. */
  predicate Yields(out: Output, outcome: Outcome) {
    match outcome
    case Serve(content) => out.bytes <= content
    case Run(_, _) => out == Output([], [])
    case Drop(reply) => out == Output([], if reply.Some? then [reply.value] else [])
  }

  /** Client number id is being given, or was given, what its request came to and nothing else. */
  ghost predicate Answering(s: State, id: nat, outcome: Outcome) {
    && id < s.accepted
    && (forall a :: a in s.clients && s.clients[a].id == id ==> Holds(s.clients[a], s.open, outcome))
    && (forall k :: 0 <= k < |s.departed| && s.departed[k].id == id ==> Yields(s.departed[k].out, outcome))
  }

  // ---- One step ---------------------------------------------------------------------------------

  /** A step of one client does not touch what another one has open. */
  lemma OwnStepAnswers(g: Config, s: State, t: State, a: Addr, id: nat, outcome: Outcome)
    requires FdsOk(g, s) && OwnStep(s, t, a) && Answering(s, id, outcome)
    requires s.clients[a].id == id ==> Holds(t.clients[a], t.open, outcome)
    ensures Answering(t, id, outcome)
  {
    forall b | b in s.clients && b != a && s.clients[b].id == id ensures Holds(t.clients[b], t.open, outcome) {
      OthersHold(g, s, t, a, b, outcome);
    }
  }

  lemma OthersHold(g: Config, s: State, t: State, a: Addr, b: Addr, outcome: Outcome)
    requires FdsOk(g, s) && OwnStep(s, t, a) && b in s.clients && b != a && Holds(s.clients[b], s.open, outcome)
    ensures Holds(t.clients[b], t.open, outcome)
  {
    OthersOwnOthers(g, s, a, b);
    hide FdsOk;
  }

  lemma GoneAnswers(g: Config, s: State, a: Addr, id: nat, outcome: Outcome)
    requires FdsOk(g, s) && Connected(s, a) && Answering(s, id, outcome)
    requires s.clients[a].id == id ==> Yields(Out(s, a), outcome)
    ensures Answering(Gone(s, a), id, outcome)
  {
    hide FdsOk, Without, Unregister, HasSocket, Yields, Owns, Holds, CloseAll;
    forall b | b in s.clients && b != a && s.clients[b].id == id ensures Holds(s.clients[b], Gone(s, a).open, outcome) {
      OthersOwnOthers(g, s, a, b);
      ClosingSpares(s.open, s.clients[a], s.clients[b], outcome);
    }
  }

  lemma ClosingSpares(open: map<int, Held>, c: Client, other: Client, outcome: Outcome)
    requires forall fd :: Owns(other, fd) ==> !Owns(c, fd)
    requires Holds(other, open, outcome)
    ensures Holds(other, CloseAll(open, c), outcome)
  {
    assert other.file >= 0 ==> Owns(other, other.file);
    assert other.pidfd >= 0 ==> Owns(other, other.pidfd);
    hide Owns;
  }

  /** An error message and a disconnect. */
  lemma DroppedAnswers(g: Config, s: State, a: Addr, m: Option<Message>, id: nat, outcome: Outcome)
    requires FdsOk(g, s) && Connected(s, a) && Answering(s, id, outcome)
    requires s.clients[a].id == id ==>
               Yields(Out(s, a).(errors := Out(s, a).errors + if m.Some? then [m.value] else []), outcome)
    ensures Answering(Dropped(s, a, m), id, outcome)
  {
    if m.Some? {
      var t := Replied(s, a, m.value);
      RepliedHolds(s, a, m.value, outcome);
      hide FdsOk, OwnStep, Answering, Gone, Holds, Yields;
      OutputIsOwn(g, s, a, Out(s, a).(errors := Out(s, a).errors + [m.value]));
      OwnKeepsFds(g, s, t, a);
      AnsweringHolds(s, a, id, outcome);
      OwnStepAnswers(g, s, t, a, id, outcome);
      GoneAnswers(g, t, a, id, outcome);
    } else {
      assert Out(s, a).(errors := Out(s, a).errors + []) == Out(s, a);
      hide FdsOk, Answering, Gone, Yields;
      GoneAnswers(g, s, a, id, outcome);
    }
  }

  lemma AnsweringHolds(s: State, a: Addr, id: nat, outcome: Outcome)
    requires Answering(s, id, outcome) && a in s.clients
    ensures s.clients[a].id == id ==> Holds(s.clients[a], s.open, outcome)
  {
  }

  lemma RepliedHolds(s: State, a: Addr, m: Message, outcome: Outcome)
    requires Connected(s, a)
    ensures var t := Replied(s, a, m);
      && Connected(t, a) && Out(t, a) == Out(s, a).(errors := Out(s, a).errors + [m])
      && (Holds(s.clients[a], s.open, outcome) ==> Holds(t.clients[a], t.open, outcome))
  {
  }

  /** While it is answered, what a client was sent so far is what it may be sent in the end. */
  lemma SoFar(g: Config, s: State, a: Addr, id: nat, outcome: Outcome)
    requires Inv(g, s) && a in s.clients && s.clients[a].id == id && Answering(s, id, outcome)
    ensures Connected(s, a) && Yields(Out(s, a), outcome) && !Reading(s.clients[a], s.open)
    ensures match outcome
      case Serve(content) => CanSend(s, a) && Out(s, a) == Output(content[..s.clients[a].sentsize], [])
      case Run(_, _) => CanKill(s, a)
      case Drop(_) => false
  {
    InPhaseOf(g, s, a);
    AnsweringHolds(s, a, id, outcome);
    hide Inv, Answering;
  }

  /** A request of another client. */
  lemma ReadingAnswers(g: Config, s: State, a: Addr, env: Env, fd: int, id: nat, outcome: Outcome)
    requires Inv(g, s) && Connected(s, a) && Reading(s.clients[a], s.open) && FreshFd(s, env, fd)
    requires Answering(s, id, outcome)
    ensures Answering(OnReadable(s, a, env, fd), id, outcome)
  {
    FdsAreOk(g, s);
    NotWaiting(g, s, a, id, outcome);
    hide Inv, FdsOk, OwnStep, Answering, Dropped, Serving, Spawned, Decide, Holds, Yields, InPhase, HasSocket;
    match Decide(env)
    case Drop(reply) => DroppedAnswers(g, s, a, reply, id, outcome);
    case Serve(content) =>
      ServingIsOwn(g, s, a, Received(env), content, fd);
      OwnStepAnswers(g, s, Serving(s, a, Received(env), content, fd), a, id, outcome);
    case Run(script, query) =>
      SpawnedIsOwn(g, s, a, Received(env), script, query, env.fault, fd);
      OwnStepAnswers(g, s, Spawned(s, a, Received(env), script, query, env.fault, fd), a, id, outcome);
  }

  lemma FdsAreOk(g: Config, s: State)
    requires Inv(g, s)
    ensures FdsOk(g, s)
  {
  }

  lemma NotWaiting(g: Config, s: State, a: Addr, id: nat, outcome: Outcome)
    requires Inv(g, s) && Connected(s, a) && Reading(s.clients[a], s.open) && Answering(s, id, outcome)
    ensures s.clients[a].id != id
  {
    hide Inv, Answering, Reading;
    if s.clients[a].id == id {
      SoFar(g, s, a, id, outcome);
    }
  }

  lemma AdvancedAnswers(g: Config, s: State, a: Addr, moved: nat, id: nat, outcome: Outcome)
    requires Inv(g, s) && CanSend(s, a) && Answering(s, id, outcome)
    requires s.clients[a].sentsize + moved <= |s.open[s.clients[a].file].what.content|
    ensures Answering(Advanced(s, a, moved), id, outcome)
  {
    FdsAreOk(g, s);
    AnsweringHolds(s, a, id, outcome);
    AdvancedHolds(s, a, moved, outcome);
    hide Inv, FdsOk, OwnStep, Answering, Advanced, Holds, CanSend;
    AdvancedIsOwn(g, s, a, moved);
    OwnStepAnswers(g, s, Advanced(s, a, moved), a, id, outcome);
  }

  lemma AdvancedHolds(s: State, a: Addr, moved: nat, outcome: Outcome)
    requires CanSend(s, a) && s.clients[a].sentsize + moved <= |s.open[s.clients[a].file].what.content|
    ensures var t := Advanced(s, a, moved);
      Holds(s.clients[a], s.open, outcome) ==> Holds(t.clients[a], t.open, outcome)
  {
  }

  lemma StampedAnswers(s: State, a: Addr, id: nat, outcome: Outcome)
    requires a in s.clients && Answering(s, id, outcome)
    ensures Answering(Stamped(s, a), id, outcome)
  {
  }

  lemma SettledAnswers(g: Config, s: State, a: Addr, stop: Stop, id: nat, outcome: Outcome)
    requires Inv(g, s) && CanSend(s, a) && Answering(s, id, outcome)
    ensures Answering(Settled(s, a, stop), id, outcome)
  {
    hide Inv, FdsOk, Answering, Gone, Dropped, Stamped, Yields;
    FdsAreOk(g, s);
    SendingYields(g, s, a, id, outcome);
    StampedAnswers(s, a, id, outcome);
    GoneAnswers(g, s, a, id, outcome);
    DroppedAnswers(g, s, a, None, id, outcome);
    DroppedAnswers(g, s, a, Some(InternalError), id, outcome);
  }

  /** A client being sent a file may at any time be left with what it has, and with an error. */
  lemma SendingYields(g: Config, s: State, a: Addr, id: nat, outcome: Outcome)
    requires Inv(g, s) && CanSend(s, a) && Answering(s, id, outcome)
    ensures s.clients[a].id == id ==> forall errors :: Yields(Out(s, a).(errors := errors), outcome)
    ensures s.clients[a].id == id ==> Yields(Out(s, a), outcome)
  {
    if s.clients[a].id == id {
      SoFar(g, s, a, id, outcome);
    }
  }

  lemma WritingAnswers(g: Config, s: State, a: Addr, env: Env, id: nat, outcome: Outcome)
    requires Inv(g, s) && CanSend(s, a) && Answering(s, id, outcome)
    ensures Answering(OnWritable(s, a, env), id, outcome)
  {
    hide Inv, Advanced, Settled, Moves, CanSend, Answering;
    var (moved, stop) := Moves(s, a, env.sends);
    AdvancedKeepsInv(g, s, a, moved);
    AdvancedAnswers(g, s, a, moved, id, outcome);
    SettledAnswers(g, Advanced(s, a, moved), a, stop, id, outcome);
  }

  lemma KilledHolds(s: State, a: Addr, outcome: Outcome)
    requires CanKill(s, a)
    ensures Holds(s.clients[a], s.open, outcome) ==> Holds(Killed(s, a).clients[a], Killed(s, a).open, outcome)
  {
  }

  lemma KillAnswers(g: Config, s: State, a: Addr, kills: bool, id: nat, outcome: Outcome)
    requires Inv(g, s) && CanKill(s, a) && Answering(s, id, outcome)
    ensures Answering(KillOrDrop(s, a, kills), id, outcome)
  {
    FdsAreOk(g, s);
    KilledHolds(s, a, outcome);
    AnsweringHolds(s, a, id, outcome);
    hide Inv, FdsOk, OwnStep, Answering, Gone, Killed, Holds, Yields, CanKill;
    if kills {
      KilledIsOwn(g, s, a);
      OwnStepAnswers(g, s, Killed(s, a), a, id, outcome);
    } else {
      LeavingAnswers(g, s, a, id, outcome);
    }
  }

  /** A client disconnected at any time has been sent what it may be sent. */
  lemma LeavingAnswers(g: Config, s: State, a: Addr, id: nat, outcome: Outcome)
    requires Inv(g, s) && a in s.clients && Answering(s, id, outcome)
    ensures Connected(s, a) && Answering(Gone(s, a), id, outcome)
  {
    FdsAreOk(g, s);
    InPhaseOf(g, s, a);
    hide Inv, FdsOk, Answering, Gone, Yields, Holds, InPhase;
    if s.clients[a].id == id {
      SoFar(g, s, a, id, outcome);
    }
    GoneAnswers(g, s, a, id, outcome);
  }

  lemma TroubleAnswers(g: Config, s: State, a: Addr, kills: bool, id: nat, outcome: Outcome)
    requires Inv(g, s) && Connected(s, a) && InPhase(s.clients[a], s.open) && Answering(s, id, outcome)
    ensures Answering(OnTrouble(s, a, kills), id, outcome)
  {
    hide Inv, Answering, Gone, KillOrDrop;
    if s.clients[a].pidfd >= 0 {
      KillAnswers(g, s, a, kills, id, outcome);
    } else {
      LeavingAnswers(g, s, a, id, outcome);
    }
  }

  lemma ClientEventAnswers(g: Config, s: State, a: Addr, ready: Ready, env: Env, fd: int, id: nat, outcome: Outcome)
    requires Inv(g, s) && CanHandle(s, a, ready) && (ready.inn ==> OnOwnSocket(s, a) && FreshFd(s, env, fd))
    requires Answering(s, id, outcome)
    ensures Answering(ClientEvent(g, s, a, ready, env, fd), id, outcome)
  {
    hide Inv, InPhase, OnReadable, OnWritable, HasSocket, OnOwnSocket, FreshFd, Reading, Sending, Answering;
    if ready.inn {
      ReadingAnswers(g, s, a, env, fd, id, outcome);
    } else if ready.out {
      WritingAnswers(g, s, a, env, id, outcome);
    }
    RestOfEventAnswers(g, s, a, ready, env, fd, id, outcome);
  }

  /** The errors reported with an event come after its data. */
  lemma RestOfEventAnswers(g: Config, s: State, a: Addr, ready: Ready, env: Env, fd: int, id: nat, outcome: Outcome)
    requires Inv(g, s) && CanHandle(s, a, ready) && (ready.inn ==> OnOwnSocket(s, a) && FreshFd(s, env, fd))
    requires Answering(OnData(s, a, ready, env, fd), id, outcome)
    ensures Answering(ClientEvent(g, s, a, ready, env, fd), id, outcome)
  {
    hide Inv, InPhase, OnData, OnTrouble, HasSocket, OnOwnSocket, FreshFd, CanHandle, Answering;
    var t := OnData(s, a, ready, env, fd);
    OnDataKeepsInv(g, s, a, ready, env, fd);
    if (ready.err || ready.hup) && a in t.clients {
      InPhaseOf(g, t, a);
      TroubleAnswers(g, t, a, env.kills, id, outcome);
    }
  }

  lemma AdmitAnswers(g: Config, s: State, arrival: Arrival, admission: Admission, id: nat, outcome: Outcome)
    requires CanAdmit(g, s, arrival, admission) && Answering(s, id, outcome)
    ensures Answering(Admit(s, admission), id, outcome)
  {
    hide Apply;
  }

  lemma {:induction false} AdmitAllAnswers(g: Config, s: State, arrivals: seq<Arrival>, log: seq<Admission>, id: nat,
                                           outcome: Outcome)
    requires CanAdmitAll(g, s, arrivals, log) && Answering(s, id, outcome)
    ensures Answering(AdmitAll(s, log), id, outcome)
    decreases |log|
  {
    hide CanAdmit, Admit, Answering;
    if log != [] {
      AdmitAnswers(g, s, arrivals[0], log[0], id, outcome);
      AdmitAllAnswers(g, Admit(s, log[0]), arrivals[1..], log[1..], id, outcome);
    }
  }

  lemma SweepOneAnswers(g: Config, s: State, a: Addr, v: Verdict, id: nat, outcome: Outcome)
    requires Inv(g, s) && Connected(s, a) && InPhase(s.clients[a], s.open) && Answering(s, id, outcome)
    ensures Answering(SweepOne(g, s, a, v), id, outcome)
  {
    hide Inv, FdsOk, Answering, KillOrDrop, Dropped, Yields, Holds;
    FdsAreOk(g, s);
    if s.clients[a].pidfd >= 0 {
      KillAnswers(g, s, a, v.kills, id, outcome);
    } else {
      WaitingYields(g, s, a, id, outcome);
      DroppedAnswers(g, s, a, None, id, outcome);
      DroppedAnswers(g, s, a, Some(RequestTimeout), id, outcome);
    }
  }

  /** A client without a process may be left at any time, with an error or without. */
  lemma WaitingYields(g: Config, s: State, a: Addr, id: nat, outcome: Outcome)
    requires Inv(g, s) && Connected(s, a) && InPhase(s.clients[a], s.open) && s.clients[a].pidfd < 0
    requires Answering(s, id, outcome)
    ensures s.clients[a].id == id ==> forall errors :: Yields(Out(s, a).(errors := errors), outcome)
  {
    if s.clients[a].id == id {
      SoFar(g, s, a, id, outcome);
    }
  }

  lemma {:induction false} SweepAnswers(g: Config, s: State, todo: seq<Addr>, verdicts: map<Addr, Verdict>, id: nat,
                                        outcome: Outcome)
    requires Inv(g, s) && Sweepable(s, todo) && Answering(s, id, outcome)
    ensures Answering(Sweep(g, s, todo, verdicts), id, outcome)
    decreases |todo|
  {
    hide Inv, InPhase, HasSocket, SweepOne, Sweepable, Answering;
    if todo != [] {
      var v := VerdictOn(verdicts, todo[0]);
      SweepGoesOn(g, s, todo, v);
      SweepOneAnswers(g, s, todo[0], v, id, outcome);
      SweepAnswers(g, SweepOne(g, s, todo[0], v), todo[1..], verdicts, id, outcome);
    }
  }

  lemma OnlyView(s: State, v: View<Handler>, clock: int, swept: int, id: nat, outcome: Outcome)
    requires Answering(s, id, outcome)
    ensures Answering(s.(view := v, clock := clock, swept := swept), id, outcome)
  {
  }

  lemma TimerAnswers(g: Config, s: State, verdicts: map<Addr, Verdict>, id: nat, outcome: Outcome)
    requires Inv(g, s) && Answering(s, id, outcome)
    ensures Answering(Timer(g, s, verdicts), id, outcome)
  {
    hide Inv, Sweep, Sweepable, Answering;
    AllAreSweepable(g, s);
    SweepAnswers(g, s, s.list, verdicts, id, outcome);
    var t := Sweep(g, s, s.list, verdicts);
    OnlyView(t, t.view, t.clock, s.clock, id, outcome);
  }

  /** Whatever happens next, whoever it happens to. */
  lemma NextAnswers(g: Config, s: State, step: Step, t: State, id: nat, outcome: Outcome)
    requires Inv(g, s) && Next(g, s, step, t) && Answering(s, id, outcome)
    ensures Answering(t, id, outcome)
  {
    hide Inv, AdmitAll, CanAdmitAll, Timer, ClientEvent, CanHandle, OnOwnSocket, HasSocket, Gone, Answering;
    if s.view.pending != [] {
      PopKeepsInv(g, s);
      OnlyView(s, Pop(s).view, s.clock, s.swept, id, outcome);
    }
    match step
    case Sweeping(verdicts) => TimerAnswers(g, Pop(s), verdicts, id, outcome);
    case Accepting(arrivals, log) => AdmitAllAnswers(g, Pop(s), arrivals, log, id, outcome);
    case Handling(env, fd) =>
      var a := HandlerOf(s).value.addr;
      EventIsExpected(g, s, a);
      ClientEventAnswers(g, Pop(s), a, s.view.pending[0].ready, env, fd, id, outcome);
    case Reaping =>
      ExitIsExpected(g, s, HandlerOf(s).value.addr);
      LeavingAnswers(g, Pop(s), HandlerOf(s).value.addr, id, outcome);
    case _ => OnlyView(s, t.view, t.clock, t.swept, id, outcome);
  }

  // ---- The request ----------------------------------------------------------------------------------

  /** The number of client a is its own. */
  ghost predicate IsNumber(s: State, a: Addr, id: nat) {
    && a in s.clients && s.clients[a].id == id && id < s.accepted
    && (forall b :: b in s.clients && s.clients[b].id == id ==> b == a)
    && (forall k :: 0 <= k < |s.departed| ==> s.departed[k].id != id)
  }

  /** Once its request is taken, a client has open what it came to, or has departed with the reply. */
  lemma RequestIsAnswered(g: Config, s: State, a: Addr, env: Env, fd: int)
    requires Inv(g, s) && Connected(s, a) && Reading(s.clients[a], s.open) && FreshFd(s, env, fd)
    ensures Answering(OnReadable(s, a, env, fd), s.clients[a].id, Decide(env))
  {
    NumbersAreOwn(g, s, a);
    NumbersAreNew(g, s, a);
    assert Out(s, a) == Output([], []);
    hide Inv, Decide, Answering, Dropped, Serving, Spawned, Reading, HasSocket;
    match Decide(env)
    case Drop(reply) => ReplyAnswers(s, a, reply, s.clients[a].id);
    case _ => OpeningAnswers(s, a, Decide(env), Received(env), env.fault, fd, s.clients[a].id);
  }

  lemma ReplyAnswers(s: State, a: Addr, reply: Option<Message>, id: nat)
    requires IsNumber(s, a, id) && Connected(s, a) && Out(s, a) == Output([], [])
    ensures Answering(Dropped(s, a, reply), id, Outcome.Drop(reply))
  {
    hide HasSocket, Unregister, CloseAll, Without;
    if reply.Some? {
      RepliedHolds(s, a, reply.value, Outcome.Drop(reply));
      hide Replied;
      DepartsOnce(Replied(s, a, reply.value), a, id, Outcome.Drop(reply));
    } else {
      DepartsOnce(s, a, id, Outcome.Drop(reply));
    }
  }

  lemma DepartsOnce(s: State, a: Addr, id: nat, outcome: Outcome)
    requires IsNumber(s, a, id) && Connected(s, a) && Yields(Out(s, a), outcome)
    ensures Answering(Gone(s, a), id, outcome)
  {
    hide HasSocket, Unregister, CloseAll, Without, Yields, Holds;
  }

  lemma OpeningAnswers(s: State, a: Addr, outcome: Outcome, count: nat, fault: Fault, fd: int, id: nat)
    requires IsNumber(s, a, id) && Connected(s, a) && !outcome.Drop? && fd >= 0
    ensures Answering(After(s, a, outcome, count, fault, fd), id, outcome)
  {
    hide HasSocket, Apply;
  }

  lemma NumbersAreNew(g: Config, s: State, a: Addr)
    requires Inv(g, s) && a in s.clients
    ensures forall k :: 0 <= k < |s.departed| ==> s.departed[k].id != s.clients[a].id
  {
    hide FdsOk, PhasesOk, RegsOk, BatchOk, ListOk, TimeOk, Ok;
  }

  lemma TakingAnswers(g: Config, s: State, step: Step, t: State, id: nat)
    requires Inv(g, s) && Next(g, s, step, t) && TakesRequest(s, step, id)
    ensures Answering(t, id, Decide(step.env))
  {
    hide Inv, ClientEvent, HasSocket, Decide, OnReadable, OnWritable, Reading, Sending, InPhase, Answering, OnOwnSocket;
    var a := HandlerOf(s).value.addr;
    PopKeepsInv(g, s);
    EventIsExpected(g, s, a);
    RequestIsAnswered(g, Pop(s), a, step.env, step.fd);
    RestOfEventAnswers(g, Pop(s), a, s.view.pending[0].ready, step.env, step.fd, id, Decide(step.env));
  }

  lemma {:induction false} AnsweringGoesOn(g: Config, states: seq<State>, steps: seq<Step>, i: nat, j: nat, id: nat,
                                           outcome: Outcome)
    requires IsRun(g, states, steps) && i <= j < |states| && Answering(states[i], id, outcome)
    ensures Answering(states[j], id, outcome)
    decreases j
  {
    hide Inv, Next, Answering;
    if i < j {
      AnsweringGoesOn(g, states, steps, i, j - 1, id, outcome);
      RunKeepsInv(g, states, steps, j - 1);
      NextAnswers(g, states[j - 1], steps[j - 1], states[j], id, outcome);
    }
  }

  // ---- Nobody gets lost -------------------------------------------------------------------------------

  /** The numbers of the clients in the list, then of those that departed. */
  function Numbers(s: State): seq<nat>
    requires forall k :: 0 <= k < |s.list| ==> s.list[k] in s.clients
  {
    seq(|s.list| + |s.departed|, k requires 0 <= k < |s.list| + |s.departed| =>
      if k < |s.list| then s.clients[s.list[k]].id else s.departed[k - |s.list|].id)
  }

  /** The numbers below n, all n of them. */
  function Below(n: nat): (r: set<nat>)
    ensures |r| == n && forall k: nat :: k in r <==> k < n
  {
    if n == 0 then {} else Below(n - 1) + {n - 1}
  }

  lemma {:induction false} Pigeonhole(numbers: seq<nat>, n: nat, id: nat)
    requires Distinct(numbers) && |numbers| == n && id < n
    requires forall k :: 0 <= k < |numbers| ==> numbers[k] < n
    ensures exists k :: 0 <= k < |numbers| && numbers[k] == id
  {
    var all := set k | 0 <= k < n :: numbers[k];
    SizeOfDistinct(numbers);
    if id !in all {
      assert all <= Below(n) - {id};
      SubsetSize(all, Below(n) - {id});
    }
  }

  lemma {:induction false} SizeOfDistinct(numbers: seq<nat>)
    requires Distinct(numbers)
    ensures |set k | 0 <= k < |numbers| :: numbers[k]| == |numbers|
  {
    var all := set k | 0 <= k < |numbers| :: numbers[k];
    if numbers != [] {
      var n := |numbers| - 1;
      var front := set k | 0 <= k < n :: numbers[..n][k];
      SizeOfDistinct(numbers[..n]);
      assert all == front + {numbers[n]};
    }
  }

  lemma {:induction false} SubsetSize(a: set<nat>, b: set<nat>)
    requires a <= b
    ensures |a| <= |b|
  {
    if a != {} {
      var x :| x in a;
      SubsetSize(a - {x}, b - {x});
    }
  }

  /** Client number id is connected. */
  ghost predicate IsConnected(s: State, id: nat) {
    exists a :: a in s.clients && s.clients[a].id == id
  }

  ghost predicate HasDeparted(s: State, id: nat) {
    exists k :: 0 <= k < |s.departed| && s.departed[k].id == id
  }

  /** Everyone ever accepted is connected or has departed, and not both. */
  lemma EveryoneIsAccountedFor(g: Config, s: State, id: nat)
    requires Inv(g, s) && id < s.accepted
    ensures IsConnected(s, id) <==> !HasDeparted(s, id)
  {
    hide FdsOk, PhasesOk, RegsOk, BatchOk, TimeOk, Ok;
    NumbersAreDistinct(g, s);
    var numbers := Numbers(s);
    Pigeonhole(numbers, s.accepted, id);
    var k :| 0 <= k < |numbers| && numbers[k] == id;
    if k < |s.list| {
      assert s.clients[s.list[k]].id == id;
    } else {
      assert s.departed[k - |s.list|].id == id;
    }
  }

  lemma NumbersAreDistinct(g: Config, s: State)
    requires ListOk(g, s) && IdsOk(s)
    ensures Distinct(Numbers(s)) && |Numbers(s)| == s.accepted
    ensures forall k :: 0 <= k < |Numbers(s)| ==> Numbers(s)[k] < s.accepted
  {
    var n, numbers := |s.list|, Numbers(s);
    forall i, j | 0 <= i < j < |numbers| ensures numbers[i] != numbers[j] {
      assert j < n ==> s.list[i] != s.list[j];
    }
  }

  // ---- Whole runs ---------------------------------------------------------------------------------------

  /** Client number id is connected or has departed. Connected, it is being sent its file, with exactly
      the bytes counted out, or is served by its process. Departed, it was sent the start of its file, or
      nothing besides what its process wrote, or exactly the reply. */
  ghost predicate Answered(t: State, id: nat, outcome: Outcome) {
    && (IsConnected(t, id) <==> !HasDeparted(t, id))
    && (forall a :: a in t.clients && t.clients[a].id == id ==> IsServed(t, a, outcome))
    && (forall k :: 0 <= k < |t.departed| && t.departed[k].id == id ==> Yields(t.departed[k].out, outcome))
  }

  predicate IsServed(t: State, a: Addr, outcome: Outcome)
    requires a in t.clients
  {
    && Holds(t.clients[a], t.open, outcome)
    && match outcome
       case Serve(content) =>
         && CanSend(t, a) && t.clients[a].sentsize <= |content|
         && Out(t, a) == Output(content[..t.clients[a].sentsize], [])
       case Run(_, _) => CanKill(t, a) && Out(t, a) == Output([], [])
       case Drop(_) => false
  }

  lemma ServedSoFar(g: Config, s: State, a: Addr, id: nat, outcome: Outcome)
    requires Inv(g, s) && a in s.clients && s.clients[a].id == id && Answering(s, id, outcome)
    ensures IsServed(s, a, outcome)
  {
    AnsweringHolds(s, a, id, outcome);
    hide Inv, Answering;
    SoFar(g, s, a, id, outcome);
  }

  /** From the moment its request was taken, in every state of every run, a client gets what its request
      asked for and nothing else, whatever happens to the others and whatever is used again. */
  lemma RequestsAreAnswered(g: Config, states: seq<State>, steps: seq<Step>, i: nat, j: nat, id: nat)
    requires IsRun(g, states, steps) && i < j < |states| && TakesRequest(states[i], steps[i], id)
    ensures Answered(states[j], id, Decide(steps[i].env))
  {
    var t, outcome := states[j], Decide(steps[i].env);
    AnswerOfRun(g, states, steps, i, j, id);
    hide Inv, IsRun, Next, Decide, TakesRequest, Yields, IsServed, IsConnected, HasDeparted;
    EveryoneIsAccountedFor(g, t, id);
    forall a | a in t.clients && t.clients[a].id == id ensures IsServed(t, a, outcome) {
      ServedSoFar(g, t, a, id, outcome);
    }
  }

  lemma AnswerOfRun(g: Config, states: seq<State>, steps: seq<Step>, i: nat, j: nat, id: nat)
    requires IsRun(g, states, steps) && i < j < |states| && TakesRequest(states[i], steps[i], id)
    ensures Inv(g, states[j]) && Answering(states[j], id, Decide(steps[i].env)) && id < states[j].accepted
  {
    hide Inv, Next, Decide;
    RunKeepsInv(g, states, steps, i);
    RunKeepsInv(g, states, steps, j);
    TakingAnswers(g, states[i], steps[i], states[i + 1], id);
    AnsweringGoesOn(g, states, steps, i + 1, j, id, Decide(steps[i].env));
  }

  // ---- The whole file -----------------------------------------------------------------------------------

  /** What may end a transfer early: the sweep, an error or hangup reported with the event, or a send that
      fails. */
  ghost predicate Excused(s: State, step: Step) {
    || step.Sweeping?
    || (step.Handling? && s.view.pending != [] && (s.view.pending[0].ready.err || s.view.pending[0].ready.hup))
    || (step.Handling? && (BrokenPipe in step.env.sends || SendFailed in step.env.sends))
  }

  ghost predicate HasWhole(s: State, id: nat, content: Bytes) {
    exists k :: 0 <= k < |s.departed| && s.departed[k] == Departed(id, Output(content, []))
  }

  lemma {:induction false} TransferStops(sends: seq<SendAnswer>, n: nat)
    ensures Transfer(sends, n).1 == Broken ==> BrokenPipe in sends
    ensures Transfer(sends, n).1 == Failing ==> SendFailed in sends
  {
    if sends != [] {
      assert sends == [sends[0]] + sends[1..];
      if sends[0].Sent? {
        TransferStops(sends[1..], n - Min(n, if sends[0].limit == 0 then 1 else sends[0].limit));
      }
    }
  }

  lemma WritingGivesAll(g: Config, s: State, a: Addr, env: Env, content: Bytes)
    requires Inv(g, s) && CanSend(s, a) && s.open[s.clients[a].file].what == File(content)
    requires BrokenPipe !in env.sends && SendFailed !in env.sends
    ensures a !in OnWritable(s, a, env).clients ==> HasWhole(OnWritable(s, a, env), s.clients[a].id, content)
  {
    hide Inv, OnWritable, HasSocket, Sending, Moves, Transfer;
    MovesStop(s, a, env.sends);
    DeliveryIsExact(g, s, a, env);
    var t := OnWritable(s, a, env);
    if a !in t.clients {
      assert content[..|content|] == content;
      assert t.departed[|s.departed|].out == Output(content, []);
    }
  }

  lemma MovesStop(s: State, a: Addr, sends: seq<SendAnswer>)
    requires CanSend(s, a) && BrokenPipe !in sends && SendFailed !in sends
    ensures Moves(s, a, sends).1 == Finished || Moves(s, a, sends).1 == Stalled
  {
    hide Transfer;
    TransferStops(sends, s.clients[a].filesize.value - s.clients[a].sentsize);
  }

  /** The event of the client itself. */
  lemma OwnEventGivesAll(g: Config, s: State, a: Addr, ready: Ready, env: Env, fd: int, id: nat, content: Bytes)
    requires Inv(g, s) && CanHandle(s, a, ready) && (ready.inn ==> OnOwnSocket(s, a) && FreshFd(s, env, fd))
    requires s.clients[a].id == id && Answering(s, id, Serve(content))
    requires !ready.err && !ready.hup && BrokenPipe !in env.sends && SendFailed !in env.sends
    ensures var t := ClientEvent(g, s, a, ready, env, fd);
      if a in t.clients then t.clients[a].id == id else HasWhole(t, id, content)
  {
    SoFar(g, s, a, id, Serve(content));
    AnsweringHolds(s, a, id, Serve(content));
    hide Inv, OnReadable, OnWritable, OnOwnSocket, FreshFd, HasWhole, Answering, Sending, HasSocket;
    if ready.out {
      WritingGivesAll(g, s, a, env, content);
      WritingKeepsNumber(s, a, env);
    }
  }

  lemma WritingKeepsNumber(s: State, a: Addr, env: Env)
    requires CanSend(s, a)
    ensures var t := OnWritable(s, a, env); a in t.clients ==> t.clients[a].id == s.clients[a].id
  {
    hide Moves, HasSocket, Without, CloseAll, Unregister;
  }

  lemma StaysConnected(s: State, t: State, a: Addr)
    requires a in s.clients && a in t.clients && t.clients[a].id == s.clients[a].id
    ensures IsConnected(t, s.clients[a].id)
  {
  }

  lemma HandlingGivesAll(g: Config, s: State, step: Step, t: State, b: Addr, content: Bytes)
    requires Inv(g, s) && Next(g, s, step, t) && b in s.clients && Answering(s, s.clients[b].id, Serve(content))
    requires step.Handling? && s.view.pending != [] && HandlerOf(s) == Some(OnClient(b)) && !Excused(s, step)
    ensures if b in t.clients then t.clients[b].id == s.clients[b].id else HasWhole(t, s.clients[b].id, content)
  {
    hide Inv, ClientEvent, CanHandle, OnOwnSocket, HasSocket, Answering, HasWhole;
    PopKeepsInv(g, s);
    OnlyView(s, Pop(s).view, s.clock, s.swept, s.clients[b].id, Serve(content));
    EventIsExpected(g, s, b);
    OwnEventGivesAll(g, Pop(s), b, s.view.pending[0].ready, step.env, step.fd, s.clients[b].id, content);
  }

  /** A client being sent a file departs with all of it unless there is an excuse. */
  lemma DepartsWithAll(g: Config, s: State, step: Step, t: State, id: nat, content: Bytes)
    requires Inv(g, s) && Next(g, s, step, t) && Answering(s, id, Serve(content)) && !Excused(s, step)
    requires IsConnected(s, id)
    ensures IsConnected(t, id) || HasWhole(t, id, content)
  {
    hide Inv, Next, Answering, HasWhole, CanSend;
    var b :| b in s.clients && s.clients[b].id == id;
    EventsAreTaken(g, s, step, t);
    if step.Handling? && HandlerOf(s) == Some(OnClient(b)) {
      HandlingGivesAll(g, s, step, t, b, content);
    } else {
      NotExiting(g, s, b, content);
      OnlyOwnEvents(g, s, step, t, b);
    }
    if b in t.clients {
      StaysConnected(s, t, b);
    }
  }

  lemma EventsAreTaken(g: Config, s: State, step: Step, t: State)
    requires Inv(g, s) && Next(g, s, step, t)
    ensures step.Handling? || step.Reaping? ==> s.view.pending != []
  {
    hide Inv, ClientEvent, Timer, AdmitAll, CanAdmitAll, Gone;
  }

  /** No exit is reported for a client that is sent a file. */
  lemma NotExiting(g: Config, s: State, b: Addr, content: Bytes)
    requires Inv(g, s) && b in s.clients && Answering(s, s.clients[b].id, Serve(content))
    ensures s.view.pending != [] ==> HandlerOf(s) != Some(OnProcess(b))
  {
    hide Inv, Answering, CanSend, ProcessWatched, SocketWatched;
    SoFar(g, s, b, s.clients[b].id, Serve(content));
    SenderHasNoProcess(s, b);
    if s.view.pending != [] && HandlerOf(s).Some? {
      OwnHandler(g, s, s.view.pending[0].fd);
    }
  }

  lemma SenderHasNoProcess(s: State, b: Addr)
    requires CanSend(s, b)
    ensures s.clients[b].pidfd == -1
  {
  }

  lemma RunLength(g: Config, states: seq<State>, steps: seq<Step>)
    requires IsRun(g, states, steps)
    ensures |states| == |steps| + 1
  {
    hide Inv, Next;
  }

  lemma RunStep(g: Config, states: seq<State>, steps: seq<Step>, k: nat)
    requires IsRun(g, states, steps) && k < |steps|
    ensures |states| == |steps| + 1 && Inv(g, states[k]) && Next(g, states[k], steps[k], states[k + 1])
  {
    hide Inv, Next;
    RunKeepsInv(g, states, steps, k);
  }

  // ---- Transfers over runs ------------------------------------------------------------------------------

  /** In the states from i to j the client departs, and for this reason it may do so early. */
  ghost predicate LeftEarly(states: seq<State>, steps: seq<Step>, i: nat, j: nat, id: nat)
    requires j < |states| <= |steps| + 1
  {
    exists m :: i <= m < j && Excused(states[m], steps[m])
      && IsConnected(states[m], id) && !IsConnected(states[m + 1], id)
  }

  lemma TakingIsConnected(s: State, step: Step, id: nat)
    requires TakesRequest(s, step, id)
    ensures IsConnected(s, id)
  {
  }

  /** Taking a request for a file is no way to depart, except by an error in the same event. */
  lemma TakingStays(g: Config, s: State, step: Step, t: State, id: nat)
    requires Inv(g, s) && Next(g, s, step, t) && TakesRequest(s, step, id) && Decide(step.env).Serve? && !Excused(s, step)
    ensures IsConnected(t, id)
  {
    hide Inv, HasSocket, Decide, Reading, Sending, InPhase, OnOwnSocket, Apply;
    var a := HandlerOf(s).value.addr;
    PopKeepsInv(g, s);
    EventIsExpected(g, s, a);
    assert a in t.clients && t.clients[a].id == id;
  }

  lemma WholeStays(s: State, t: State, id: nat, content: Bytes)
    requires s.departed <= t.departed && HasWhole(s, id, content)
    ensures HasWhole(t, id, content)
  {
    var k :| 0 <= k < |s.departed| && s.departed[k] == Departed(id, Output(content, []));
    assert t.departed[k] == s.departed[k];
  }

  /** A client whose request was for a file departs only with the whole file, unless in that very step the
      sweep ended it, an error or hangup was reported, or a send failed. */
  lemma {:induction false} FilesAreSentWhole(g: Config, states: seq<State>, steps: seq<Step>, i: nat, j: nat, id: nat,
                                             content: Bytes)
    requires IsRun(g, states, steps) && i < j < |states| && TakesRequest(states[i], steps[i], id)
    requires Decide(steps[i].env) == Serve(content)
    ensures IsConnected(states[j], id) || HasWhole(states[j], id, content) || LeftEarly(states, steps, i, j, id)
    decreases j
  {
    hide IsRun, Inv, Next, Decide, TakesRequest, IsConnected, HasWhole, Excused, LeftEarly, Answering, Later;
    RunLength(g, states, steps);
    var s, t, step := states[j - 1], states[j], steps[j - 1];
    RunStep(g, states, steps, j - 1);
    if i == j - 1 {
      TakingIsConnected(s, step, id);
      if !Excused(s, step) {
        TakingStays(g, s, step, t, id);
      }
    } else {
      FilesAreSentWhole(g, states, steps, i, j - 1, id, content);
      if IsConnected(s, id) {
        AnswerOfRun(g, states, steps, i, j - 1, id);
        if !Excused(s, step) {
          DepartsWithAll(g, s, step, t, id, content);
        }
      } else if HasWhole(s, id, content) {
        NextIsLater(g, s, step, t);
        DepartedStay(s, t);
        WholeStays(s, t, id, content);
      }
    }
    if IsConnected(s, id) && Excused(s, step) && !IsConnected(t, id) {
      LeavesNow(states, steps, i, j, id);
    } else if i < j - 1 && LeftEarly(states, steps, i, j - 1, id) {
      LeftBefore(states, steps, i, j, id);
    }
  }

  lemma DepartedStay(s: State, t: State)
    requires Later(s, t)
    ensures s.departed <= t.departed
  {
  }

  lemma LeavesNow(states: seq<State>, steps: seq<Step>, i: nat, j: nat, id: nat)
    requires i < j < |states| <= |steps| + 1
    requires Excused(states[j - 1], steps[j - 1]) && IsConnected(states[j - 1], id) && !IsConnected(states[j], id)
    ensures LeftEarly(states, steps, i, j, id)
  {
    hide Excused, IsConnected;
    var m := j - 1;
    assert states[m + 1] == states[j];
  }

  lemma LeftBefore(states: seq<State>, steps: seq<Step>, i: nat, j: nat, id: nat)
    requires i < j < |states| <= |steps| + 1 && LeftEarly(states, steps, i, j - 1, id)
    ensures LeftEarly(states, steps, i, j, id)
  {
    hide Excused, IsConnected;
  }
}
