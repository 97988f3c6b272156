/** Who is timed out: when the time of a client is renewed, and what a sweep does to whom. */
module Timeouts {
  import opened Bytes
  import opened Lists
  import opened Registry
  import opened ServerState
  import opened ServerRuns
  import opened Histories
  import opened Deliveries
  import opened Watching
  import opened WorkerFacts

  /** The step is an event on the socket of the client with this number. */
  ghost predicate OwnEvent(s: State, step: Step, id: nat) {
    && step.Handling? && s.view.pending != [] && HandlerOf(s).Some? && HandlerOf(s).value.OnClient?
    && HandlerOf(s).value.addr in s.clients && s.clients[HandlerOf(s).value.addr].id == id
  }

  /** The client is let in, takes its turn to be heard, or takes its turn to be sent to. */
  ghost predicate Stirs(s: State, step: Step, t: State, id: nat) {
    || (step.Accepting? && s.accepted <= id < t.accepted)
    || (OwnEvent(s, step, id) && (s.view.pending[0].ready.inn || s.view.pending[0].ready.out))
  }

  // ---- One step -----------------------------------------------------------------------------------

  lemma ReadingStamps(s: State, a: Addr, env: Env, fd: int)
    requires Connected(s, a)
    ensures var t := OnReadable(s, a, env, fd);
      a in t.clients ==> t.clients[a].id == s.clients[a].id && t.clients[a].timestamp == s.clock
  {
    hide Decide, HasSocket, Apply, Unregister, CloseAll, Without;
  }

  lemma WritingStamps(s: State, a: Addr, env: Env)
    requires CanSend(s, a)
    ensures var t := OnWritable(s, a, env);
      a in t.clients ==> t.clients[a].id == s.clients[a].id && t.clients[a].timestamp == s.clock
  {
    hide Moves, HasSocket, Unregister, CloseAll, Without;
  }

  lemma EventLetsNobodyIn(g: Config, s: State, a: Addr, ready: Ready, env: Env, fd: int)
    requires Inv(g, s) && CanHandle(s, a, ready) && (ready.inn ==> OnOwnSocket(s, a) && FreshFd(s, env, fd))
    ensures ClientEvent(g, s, a, ready, env, fd).clients.Keys <= s.clients.Keys
  {
    hide Inv, HasSocket, OnOwnSocket, FreshFd, Apply, Moves, Decide, CloseAll, Unregister, Without;
    assert OnData(s, a, ready, env, fd).clients.Keys <= s.clients.Keys;
    hide OnData, CanHandle;
  }

  lemma EventStamps(g: Config, s: State, a: Addr, ready: Ready, env: Env, fd: int)
    requires Inv(g, s) && CanHandle(s, a, ready) && (ready.inn ==> OnOwnSocket(s, a) && FreshFd(s, env, fd))
    ensures var t := ClientEvent(g, s, a, ready, env, fd);
      a in t.clients ==>
        && t.clients[a].id == s.clients[a].id
        && t.clients[a].timestamp == if ready.inn || ready.out then s.clock else s.clients[a].timestamp
  {
    hide Inv, InPhase, OnReadable, OnWritable, OnTrouble, HasSocket, OnOwnSocket, FreshFd, Reading, Sending;
    var t := OnData(s, a, ready, env, fd);
    OnDataKeepsInv(g, s, a, ready, env, fd);
    if ready.inn {
      ReadingStamps(s, a, env, fd);
    } else if ready.out {
      WritingStamps(s, a, env);
    }
    if (ready.err || ready.hup) && a in t.clients {
      InPhaseOf(g, t, a);
      TroubleIsLater(t, a, env.kills);
    }
  }

  lemma {:induction false} AdmittingStamps(g: Config, s: State, arrivals: seq<Arrival>, log: seq<Admission>)
    requires CanAdmitAll(g, s, arrivals, log)
    ensures var t := AdmitAll(s, log);
      forall a :: a in t.clients ==>
        if a in s.clients then t.clients[a] == s.clients[a]
        else t.clients[a].id >= s.accepted && t.clients[a].timestamp == s.clock
    decreases |log|
  {
    if log != [] {
      AdmittingStamps(g, Admit(s, log[0]), arrivals[1..], log[1..]);
    }
  }

  /** Whoever is still connected after a step has the time of that step if it stirred in it, and the time
      it had before otherwise. */
  lemma StepStamps(g: Config, s: State, step: Step, t: State, a: Addr)
    requires Inv(g, s) && Next(g, s, step, t) && a in t.clients
    ensures if Stirs(s, step, t, t.clients[a].id) then t.clients[a].timestamp == s.clock
            else a in s.clients && s.clients[a].id == t.clients[a].id && t.clients[a].timestamp == s.clients[a].timestamp
  {
    hide Inv, AdmitAll, CanAdmitAll, Sweep, Sweepable, ClientEvent, CanHandle, OnOwnSocket, HasSocket, Gone, Later;
    if s.view.pending != [] {
      PopKeepsInv(g, s);
    }
    match step
    case Sweeping(verdicts) =>
      AllAreSweepable(g, Pop(s));
      SweepDropsDoomed(g, Pop(s), Pop(s).list, verdicts);
    case Accepting(arrivals, log) =>
      AdmittingStamps(g, Pop(s), arrivals, log);
      NextKeepsInv(g, s, step, t);
      NumbersAreOwn(g, t, a);
      if a in s.clients {
        NumbersAreOwn(g, s, a);
      }
    case Handling(env, fd) =>
      var b := HandlerOf(s).value.addr;
      EventIsExpected(g, s, b);
      EventStamps(g, Pop(s), b, s.view.pending[0].ready, env, fd);
      EventLetsNobodyIn(g, Pop(s), b, s.view.pending[0].ready, env, fd);
      NumbersAreOwn(g, s, a);
      if a != b {
        OthersAreLeft(g, Pop(s), b, s.view.pending[0].ready, env, fd, a);
      }
    case Reaping =>
      ExitIsExpected(g, s, HandlerOf(s).value.addr);
      GoneLeaves(Pop(s), HandlerOf(s).value.addr);
    case _ =>
  }

  lemma GoneLeaves(s: State, a: Addr)
    requires Connected(s, a)
    ensures Gone(s, a).clients == s.clients - {a}
  {
  }

  // ---- Times over runs ----------------------------------------------------------------------------

  /** The time of a client is that of the last step in which it stirred. */
  lemma {:induction false} LastStirStamps(g: Config, states: seq<State>, steps: seq<Step>, i: nat, j: nat, id: nat)
    requires IsRun(g, states, steps) && i < j < |states|
    requires Stirs(states[i], steps[i], states[i + 1], id)
    requires forall k :: i < k < j ==> !Stirs(states[k], steps[k], states[k + 1], id)
    ensures forall a :: a in states[j].clients && states[j].clients[a].id == id ==>
              states[j].clients[a].timestamp == states[i].clock
    decreases j
  {
    hide Inv, Next, Stirs, IsRun;
    RunLength(g, states, steps);
    RunStep(g, states, steps, j - 1);
    var k := j - 1;
    assert Stirs(states[k], steps[k], states[k + 1], id) <==> i == k;
    if i < k {
      LastStirStamps(g, states, steps, i, k, id);
    }
    forall a | a in states[j].clients && states[j].clients[a].id == id
      ensures states[j].clients[a].timestamp == states[i].clock
    {
      StepStamps(g, states[k], steps[k], states[j], a);
    }
  }

  /** It is never earlier than that of a step in which the client stirred. */
  lemma {:induction false} StirStamps(g: Config, states: seq<State>, steps: seq<Step>, i: nat, j: nat, id: nat)
    requires IsRun(g, states, steps) && i < j < |states|
    requires Stirs(states[i], steps[i], states[i + 1], id)
    ensures forall a :: a in states[j].clients && states[j].clients[a].id == id ==>
              states[j].clients[a].timestamp >= states[i].clock
    decreases j
  {
    hide Inv, Next, Stirs, IsRun;
    RunLength(g, states, steps);
    RunStep(g, states, steps, j - 1);
    if i < j - 1 {
      StirStamps(g, states, steps, i, j - 1, id);
    }
    ClockGoesOn(g, states, steps, i, j - 1);
    forall a | a in states[j].clients && states[j].clients[a].id == id
      ensures states[j].clients[a].timestamp >= states[i].clock
    {
      StepStamps(g, states[j - 1], steps[j - 1], states[j], a);
    }
  }

  lemma ClockGoesOn(g: Config, states: seq<State>, steps: seq<Step>, i: nat, j: nat)
    requires IsRun(g, states, steps) && i <= j < |states|
    ensures states[i].clock <= states[j].clock
  {
    hide IsRun;
    RunIsLater(g, states, steps, i, j);
  }

  // ---- One sweep ----------------------------------------------------------------------------------

  /** The client is still there, and so is everything it has open, as it was. */
  ghost predicate Untouched(s: State, t: State, a: Addr)
    requires a in s.clients
  {
    && a in t.clients && t.clients[a] == s.clients[a]
    && forall fd :: Owns(s.clients[a], fd) && fd in s.open ==> fd in t.open && t.open[fd] == s.open[fd]
  }

  /** The client has departed and was sent this. */
  ghost predicate HasLeft(t: State, id: nat, out: Output) {
    exists k :: 0 <= k < |t.departed| && t.departed[k] == Departed(id, out)
  }

  /** What a sweep does to a client idle for so long. One idle for less than a timeout is left alone, and so is one
      with a process that is known to have sent something in that time. Any other one's process is killed,
      or the client disconnected, with an error message if it has not been sent anything. */
  ghost predicate Treated(g: Config, s: State, t: State, a: Addr, idle: int, v: Verdict)
    requires Connected(s, a)
  {
    var c := s.clients[a];
    if idle < g.timeout || (c.pidfd >= 0 && !v.unknown && v.lastSent < 1000 * g.timeout) then
      Untouched(s, t, a)
    else if c.pidfd >= 0 && v.kills then
      && a in t.clients && t.clients[a] == c
      && c.pidfd in t.open && t.open[c.pidfd].what.Process? && t.open[c.pidfd].what.killed
      && HasSocket(c, t.open) && OutputOf(c, t.open) == Out(s, a)
    else
      && a !in t.clients
      && HasLeft(t, c.id, if c.pidfd < 0 && Out(s, a).bytes == [] then Output([], [RequestTimeout]) else Out(s, a))
  }

  function IdleTime(s: State, a: Addr): int
    requires a in s.clients
  {
    s.clock - s.clients[a].timestamp
  }

  lemma GoneSparesOthers(g: Config, s: State, a: Addr, b: Addr)
    requires FdsOk(g, s) && Connected(s, a) && b in s.clients && a != b
    ensures Untouched(s, Gone(s, a), b)
  {
    OthersOwnOthers(g, s, a, b);
    hide Owns, FdsOk, Unregister, Without;
  }

  lemma RepliedSparesOthers(g: Config, s: State, a: Addr, m: Message, b: Addr)
    requires FdsOk(g, s) && Connected(s, a) && b in s.clients && a != b
    ensures Untouched(s, Replied(s, a, m), b) && FdsOk(g, Replied(s, a, m)) && Connected(Replied(s, a, m), a)
  {
    OthersOwnOthers(g, s, a, b);
    assert Owns(s.clients[a], s.clients[a].socket);
    OutputIsOwn(g, s, a, Out(s, a).(errors := Out(s, a).errors + [m]));
    OwnKeepsFds(g, s, Replied(s, a, m), a);
    hide Owns, FdsOk;
  }

  lemma KilledSparesOthers(g: Config, s: State, a: Addr, b: Addr)
    requires FdsOk(g, s) && CanKill(s, a) && b in s.clients && a != b
    ensures Untouched(s, Killed(s, a), b)
  {
    OthersOwnOthers(g, s, a, b);
    assert Owns(s.clients[a], s.clients[a].pidfd);
    hide Owns, FdsOk;
  }

  lemma SweepOneSparesOthers(g: Config, s: State, a: Addr, v: Verdict, b: Addr)
    requires FdsOk(g, s) && Connected(s, a) && InPhase(s.clients[a], s.open) && b in s.clients && a != b
    ensures Untouched(s, SweepOne(g, s, a, v), b)
  {
    hide Gone, Replied, Killed, FdsOk, HasSocket, Owns;
    GoneSparesOthers(g, s, a, b);
    if CanKill(s, a) {
      KilledSparesOthers(g, s, a, b);
    }
    RepliedSparesOthers(g, s, a, RequestTimeout, b);
    GoneSparesOthers(g, Replied(s, a, RequestTimeout), a, b);
  }

  lemma SweepOneTreats(g: Config, s: State, a: Addr, v: Verdict)
    requires Connected(s, a) && InPhase(s.clients[a], s.open)
    ensures Treated(g, s, SweepOne(g, s, a, v), a, IdleTime(s, a), v)
  {
    var t := SweepOne(g, s, a, v);
    if a !in t.clients {
      assert t.departed[|s.departed|].id == s.clients[a].id;
    }
  }

  lemma TreatedStays(g: Config, s: State, t: State, u: State, a: Addr, idle: int, v: Verdict)
    requires Connected(s, a) && InPhase(s.clients[a], s.open) && Treated(g, s, t, a, idle, v)
    requires t.departed <= u.departed && u.clients.Keys <= t.clients.Keys && (a in t.clients ==> Untouched(t, u, a))
    ensures Treated(g, s, u, a, idle, v)
  {
    var c := s.clients[a];
    assert Owns(c, c.socket) && (c.pidfd >= 0 ==> Owns(c, c.pidfd));
    if a !in t.clients {
      var out := if c.pidfd < 0 && Out(s, a).bytes == [] then Output([], [RequestTimeout]) else Out(s, a);
      var k :| 0 <= k < |t.departed| && t.departed[k] == Departed(c.id, out);
      assert u.departed[k] == t.departed[k];
    }
  }

  lemma TreatedLater(g: Config, s: State, t: State, u: State, a: Addr, idle: int, v: Verdict)
    requires Connected(s, a) && Connected(t, a) && Untouched(s, t, a) && Treated(g, t, u, a, idle, v)
    ensures Treated(g, s, u, a, idle, v)
  {
    assert Owns(s.clients[a], s.clients[a].socket);
  }

  lemma UntouchedLater(s: State, t: State, u: State, a: Addr)
    requires a in s.clients && Untouched(s, t, a) && Untouched(t, u, a)
    ensures Untouched(s, u, a)
  {
    hide Owns;
  }

  /** Each client of the list gets its treatment, whatever becomes of the others. */
  lemma {:induction false} SweepTreats(g: Config, s: State, todo: seq<Addr>, verdicts: map<Addr, Verdict>, b: Addr)
    requires Inv(g, s) && Sweepable(s, todo) && Connected(s, b)
    ensures if b in todo then Treated(g, s, Sweep(g, s, todo, verdicts), b, IdleTime(s, b), VerdictOn(verdicts, b))
            else Untouched(s, Sweep(g, s, todo, verdicts), b)
    decreases |todo|
  {
    hide Inv, InPhase, HasSocket, SweepOne, Treated, Untouched, Later, Doomed;
    InPhaseOf(g, s, b);
    IdsAreOk(g, s);
    if todo == [] {
      NothingTouched(s, b);
    } else {
      var a, rest := todo[0], todo[1..];
      var v := VerdictOn(verdicts, a);
      SweepGoesOn(g, s, todo, v);
      var t := SweepOne(g, s, a, v);
      var u := Sweep(g, t, rest, verdicts);
      SweepOneSpares(g, s, a, v);
      assert todo == [a] + rest;
      if a == b {
        assert b !in rest;
        SweepOneTreats(g, s, a, v);
        SweepDropsDoomed(g, t, rest, verdicts);
        SweepIsLater(g, t, rest, verdicts);
        if b in t.clients {
          InPhaseOf(g, t, b);
          SweepTreats(g, t, rest, verdicts, b);
        }
        DepartedStay(t, u);
        TreatedStays(g, s, t, u, b, IdleTime(s, b), v);
      } else {
        SweepOneSparesOthers(g, s, a, v, b);
        UntouchedIsThere(s, t, b);
        InPhaseOf(g, t, b);
        SweepTreats(g, t, rest, verdicts, b);
        if b in rest {
          TreatedLater(g, s, t, u, b, IdleTime(s, b), VerdictOn(verdicts, b));
        } else {
          UntouchedLater(s, t, u, b);
        }
      }
    }
  }

  lemma NothingTouched(s: State, a: Addr)
    requires a in s.clients
    ensures Untouched(s, s, a)
  {
  }

  lemma UntouchedIsThere(s: State, t: State, a: Addr)
    requires a in s.clients && Untouched(s, t, a)
    ensures a in t.clients
  {
  }

  /** server_timer, for each client on its own. */
  lemma TimerTreats(g: Config, s: State, verdicts: map<Addr, Verdict>, a: Addr)
    requires Inv(g, s) && a in s.clients
    ensures Connected(s, a) && Treated(g, s, Timer(g, s, verdicts), a, IdleTime(s, a), VerdictOn(verdicts, a))
  {
    AllAreSweepable(g, s);
    InPhaseOf(g, s, a);
    SweepTreats(g, s, s.list, verdicts, a);
    hide Inv, Sweep, Sweepable, Owns;
  }

  lemma SweepingTreats(g: Config, s: State, step: Step, t: State, a: Addr)
    requires Inv(g, s) && Next(g, s, step, t) && step.Sweeping? && a in s.clients
    ensures Connected(s, a) && Treated(g, s, t, a, IdleTime(s, a), VerdictOn(step.verdicts, a))
  {
    hide Inv, Sweep, Sweepable, Owns;
    PopKeepsInv(g, s);
    InPhaseOf(g, s, a);
    TimerTreats(g, Pop(s), step.verdicts, a);
  }

  // ---- Sweeps over runs ---------------------------------------------------------------------------

  /** Whoever was let in, heard or sent to less than a timeout ago is left alone by the sweep. */
  lemma ActiveAreSpared(g: Config, states: seq<State>, steps: seq<Step>, i: nat, j: nat, id: nat)
    requires IsRun(g, states, steps) && i < j < |steps| && steps[j].Sweeping?
    requires Stirs(states[i], steps[i], states[i + 1], id)
    requires states[j].clock - states[i].clock < g.timeout
    ensures forall a :: a in states[j].clients && states[j].clients[a].id == id ==> Untouched(states[j], states[j + 1], a)
  {
    hide IsRun, Inv, Next, Stirs, Untouched;
    RunStep(g, states, steps, j);
    StirStamps(g, states, steps, i, j, id);
    forall a | a in states[j].clients && states[j].clients[a].id == id ensures Untouched(states[j], states[j + 1], a) {
      SweepingTreats(g, states[j], steps[j], states[j + 1], a);
    }
  }

  /** What a sweep does is settled by how long ago its client was last let in, heard or sent to. */
  lemma SweepsAreExact(g: Config, states: seq<State>, steps: seq<Step>, i: nat, j: nat, a: Addr)
    requires IsRun(g, states, steps) && i < j < |steps| && steps[j].Sweeping? && a in states[j].clients
    requires Stirs(states[i], steps[i], states[i + 1], states[j].clients[a].id)
    requires forall k :: i < k < j ==> !Stirs(states[k], steps[k], states[k + 1], states[j].clients[a].id)
    ensures var s := states[j];
      Connected(s, a) && Treated(g, s, states[j + 1], a, s.clock - states[i].clock, VerdictOn(steps[j].verdicts, a))
  {
    hide IsRun, Inv, Next, Stirs, Treated;
    RunStep(g, states, steps, j);
    LastStirStamps(g, states, steps, i, j, states[j].clients[a].id);
    SweepingTreats(g, states[j], steps[j], states[j + 1], a);
  }

  /** There is such a step for everyone. */
  lemma {:induction false} EveryoneHasStirred(g: Config, states: seq<State>, steps: seq<Step>, j: nat, a: Addr)
    returns (i: nat)
    requires IsRun(g, states, steps) && states[0].clients == map[] && j < |states| && a in states[j].clients
    ensures i < j && Stirs(states[i], steps[i], states[i + 1], states[j].clients[a].id)
    ensures forall k :: i < k < j ==> !Stirs(states[k], steps[k], states[k + 1], states[j].clients[a].id)
  {
    hide IsRun, Inv, Next, Stirs;
    RunLength(g, states, steps);
    i := j - 1;
    RunStep(g, states, steps, i);
    StepStamps(g, states[i], steps[i], states[j], a);
    if !Stirs(states[i], steps[i], states[j], states[j].clients[a].id) {
      i := EveryoneHasStirred(g, states, steps, i, a);
    }
  }
}
