/** How clients leave, and whose processes are killed: exactly when, in every step. */
module Endings {
  import opened Bytes
  import opened Lists
  import opened Registry
  import opened Selectors
  import opened ServerState
  import opened ServerRuns
  import opened Histories
  import opened Deliveries
  import opened Watching
  import opened Timeouts
  import opened WorkerFacts
  import Request

  // ---- Others are left alone ----------------------------------------------------------------------

  lemma OwnStepSparesOthers(g: Config, s: State, t: State, a: Addr, b: Addr)
    requires FdsOk(g, s) && OwnStep(s, t, a) && b in s.clients && a != b
    ensures Untouched(s, t, b)
  {
    OthersOwnOthers(g, s, a, b);
    hide Owns, FdsOk;
  }

  lemma DroppedSparesOthers(g: Config, s: State, a: Addr, m: Option<Message>, b: Addr)
    requires FdsOk(g, s) && Connected(s, a) && b in s.clients && a != b
    ensures Untouched(s, Dropped(s, a, m), b)
  {
    hide FdsOk, HasSocket, Gone, Replied, Untouched;
    if m.Some? {
      RepliedSparesOthers(g, s, a, m.value, b);
      UntouchedIsThere(s, Replied(s, a, m.value), b);
      GoneSparesOthers(g, Replied(s, a, m.value), a, b);
      UntouchedLater(s, Replied(s, a, m.value), Dropped(s, a, m), b);
    } else {
      GoneSparesOthers(g, s, a, b);
    }
  }

  lemma ReadingSparesOthers(g: Config, s: State, a: Addr, env: Env, fd: int, b: Addr)
    requires FdsOk(g, s) && Connected(s, a) && Reading(s.clients[a], s.open) && FreshFd(s, env, fd)
    requires b in s.clients && a != b
    ensures Untouched(s, OnReadable(s, a, env, fd), b)
  {
    hide FdsOk, Decide, Reading, HasSocket, Serving, Spawned, Dropped, OwnStep, InPhase, Untouched;
    match Decide(env)
    case Drop(reply) => DroppedSparesOthers(g, s, a, reply, b);
    case Serve(content) =>
      ServingIsOwn(g, s, a, Received(env), content, fd);
      OwnStepSparesOthers(g, s, Serving(s, a, Received(env), content, fd), a, b);
    case Run(script, query) =>
      SpawnedIsOwn(g, s, a, Received(env), script, query, env.fault, fd);
      OwnStepSparesOthers(g, s, Spawned(s, a, Received(env), script, query, env.fault, fd), a, b);
  }

  lemma WritingSparesOthers(g: Config, s: State, a: Addr, env: Env, b: Addr)
    requires Inv(g, s) && CanSend(s, a) && b in s.clients && a != b
    ensures Untouched(s, OnWritable(s, a, env), b)
  {
    hide Inv, Settled, Advanced, Moves, CanSend, OwnStep, Untouched;
    var (moved, stop) := Moves(s, a, env.sends);
    var t := Advanced(s, a, moved);
    IdsAreOk(g, s);
    AdvancedKeepsInv(g, s, a, moved);
    AdvancedIsOwn(g, s, a, moved);
    OwnStepSparesOthers(g, s, t, a, b);
    UntouchedIsThere(s, t, b);
    SettledSparesOthers(g, t, a, stop, b);
    UntouchedLater(s, t, OnWritable(s, a, env), b);
  }

  lemma SettledSparesOthers(g: Config, s: State, a: Addr, stop: Stop, b: Addr)
    requires Inv(g, s) && CanSend(s, a) && b in s.clients && a != b
    ensures Untouched(s, Settled(s, a, stop), b)
  {
    IdsAreOk(g, s);
    StampedIsOwn(g, s, a);
    hide Inv, Sending, HasSocket, Gone, Dropped, Stamped, OwnStep, Untouched, FdsOk, IdsOk;
    OwnStepSparesOthers(g, s, Stamped(s, a), a, b);
    GoneSparesOthers(g, s, a, b);
    DroppedSparesOthers(g, s, a, if s.clients[a].sentsize == 0 then Some(InternalError) else None, b);
  }

  lemma TroubleSparesOthers(g: Config, s: State, a: Addr, kills: bool, b: Addr)
    requires FdsOk(g, s) && Connected(s, a) && InPhase(s.clients[a], s.open) && b in s.clients && a != b
    ensures Untouched(s, OnTrouble(s, a, kills), b)
  {
    hide FdsOk, Untouched, Killed, Gone, HasSocket;
    GoneSparesOthers(g, s, a, b);
    if CanKill(s, a) {
      KilledSparesOthers(g, s, a, b);
    }
  }

  /** An event of one client leaves the others and all they have open alone. */
  lemma EventSparesOthers(g: Config, s: State, a: Addr, ready: Ready, env: Env, fd: int, b: Addr)
    requires Inv(g, s) && CanHandle(s, a, ready) && (ready.inn ==> OnOwnSocket(s, a) && FreshFd(s, env, fd))
    requires b in s.clients && a != b
    ensures Untouched(s, ClientEvent(g, s, a, ready, env, fd), b)
  {
    hide Inv, InPhase, OnReadable, OnWritable, OnTrouble, HasSocket, OnOwnSocket, FreshFd, Reading, Sending, Untouched;
    var t := OnData(s, a, ready, env, fd);
    OnDataKeepsInv(g, s, a, ready, env, fd);
    IdsAreOk(g, s);
    IdsAreOk(g, t);
    NothingTouched(s, b);
    if ready.inn {
      ReadingSparesOthers(g, s, a, env, fd, b);
    } else if ready.out {
      WritingSparesOthers(g, s, a, env, b);
    }
    UntouchedIsThere(s, t, b);
    if (ready.err || ready.hup) && a in t.clients {
      InPhaseOf(g, t, a);
      TroubleSparesOthers(g, t, a, env.kills, b);
      UntouchedLater(s, t, OnTrouble(t, a, env.kills), b);
    }
  }

  // ---- A client's own event -------------------------------------------------------------------------

  /** The client has a process, and it was killed. */
  predicate IsKilled(s: State, a: Addr)
    requires a in s.clients
  {
    var fd := s.clients[a].pidfd;
    fd >= 0 && fd in s.open && s.open[fd].what.Process? && s.open[fd].what.killed
  }

  /** With these answers some of the file is still to be sent, and the socket full. */
  predicate StillSending(s: State, a: Addr, sends: seq<SendAnswer>)
    requires CanSend(s, a)
  {
    var (moved, stop) := Moves(s, a, sends);
    stop == Stalled && s.clients[a].sentsize + moved < |s.open[s.clients[a].file].what.content|
  }

  /** The client has a process, or its request starts one. */
  predicate GetsProcess(s: State, a: Addr, ready: Ready, env: Env)
    requires a in s.clients
  {
    s.clients[a].pidfd >= 0 || (ready.inn && Decide(env).Run?)
  }

  lemma AllIsCounted(env: Env)
    ensures !Decide(env).Drop? ==> Received(env) == Min(|env.queued|, MAX_REQUEST_SIZE)
  {
    hide Resolve, Request.Parse, Accepted;
  }

  lemma ReadingEnds(s: State, a: Addr, env: Env, fd: int)
    requires Connected(s, a) && Reading(s.clients[a], s.open) && (Decide(env).Drop? || fd >= 0)
    ensures var t := OnReadable(s, a, env, fd);
      && (a in t.clients <==> !Decide(env).Drop?)
      && (a in t.clients ==>
            && (t.clients[a].pidfd >= 0 <==> Decide(env).Run?) && !IsKilled(t, a)
            && t.clients[a].count == Min(|env.queued|, MAX_REQUEST_SIZE))
  {
    AllIsCounted(env);
    hide Decide, Received, HasSocket, Apply, Unregister, CloseAll, Without;
  }

  lemma WritingEnds(g: Config, s: State, a: Addr, env: Env)
    requires Inv(g, s) && CanSend(s, a)
    ensures var t := OnWritable(s, a, env);
      && (a in t.clients <==> StillSending(s, a, env.sends))
      && (a in t.clients ==> t.clients[a].pidfd < 0)
  {
    DeliveryIsExact(g, s, a, env);
    hide Inv, Moves, HasSocket, Unregister, CloseAll, Without;
  }

  lemma TroubleEnds(s: State, a: Addr, kills: bool)
    requires Connected(s, a) && InPhase(s.clients[a], s.open)
    ensures var t := OnTrouble(s, a, kills);
      && (a in t.clients <==> s.clients[a].pidfd >= 0 && kills)
      && (a in t.clients ==> t.clients[a] == s.clients[a] && IsKilled(t, a))
  {
    hide Unregister, CloseAll, Without;
  }

  /** After its own event a client is gone exactly if its request came to nothing to send or run, or the
      sending has ended, or there was an error or hangup and no process to be killed for it. Its process
      has been killed exactly if it had been before or there was an error or hangup. */
  lemma EventEnds(g: Config, s: State, a: Addr, ready: Ready, env: Env, fd: int)
    requires Inv(g, s) && CanHandle(s, a, ready) && (ready.inn ==> OnOwnSocket(s, a) && FreshFd(s, env, fd))
    ensures var t, trouble := ClientEvent(g, s, a, ready, env, fd), ready.err || ready.hup;
      && (a in t.clients <==>
            && !(ready.inn && Decide(env).Drop?)
            && !(ready.out && !StillSending(s, a, env.sends))
            && (trouble ==> GetsProcess(s, a, ready, env) && env.kills))
      && (a in t.clients ==>
            && (t.clients[a].pidfd >= 0 <==> GetsProcess(s, a, ready, env))
            && (IsKilled(t, a) <==> IsKilled(s, a) || trouble))
  {
    SenderHasNone(s, a, ready);
    hide Inv, InPhase, OnReadable, OnWritable, OnTrouble, HasSocket, OnOwnSocket, Decide, Reading, Sending, StillSending,
         IsKilled;
    var t := OnData(s, a, ready, env, fd);
    OnDataKeepsInv(g, s, a, ready, env, fd);
    if ready.inn {
      ReadingEnds(s, a, env, fd);
    } else if ready.out {
      WritingEnds(g, s, a, env);
    }
    if a in t.clients {
      NoneToKill(t, a);
      if ready.err || ready.hup {
        InPhaseOf(g, t, a);
        TroubleEnds(t, a, env.kills);
      }
    }
  }

  lemma NoneToKill(s: State, a: Addr)
    requires a in s.clients
    ensures s.clients[a].pidfd < 0 ==> !IsKilled(s, a)
  {
  }

  lemma SenderHasNone(s: State, a: Addr, ready: Ready)
    requires CanHandle(s, a, ready)
    ensures ready.inn || ready.out ==> s.clients[a].pidfd < 0 && !IsKilled(s, a)
  {
  }

  // ---- Every step -----------------------------------------------------------------------------------

  lemma {:induction false} AdmittingSparesOthers(g: Config, s: State, arrivals: seq<Arrival>, log: seq<Admission>, b: Addr)
    requires CanAdmitAll(g, s, arrivals, log) && b in s.clients
    ensures Untouched(s, AdmitAll(s, log), b)
    decreases |log|
  {
    if log == [] {
      NothingTouched(s, b);
    } else {
      AdmittingSparesOthers(g, Admit(s, log[0]), arrivals[1..], log[1..], b);
      hide Owns, CanAdmitAll, Apply;
      assert Untouched(s, Admit(s, log[0]), b);
    }
  }

  ghost predicate IsOwnEvent(s: State, step: Step, b: Addr) {
    step.Handling? && s.view.pending != [] && HandlerOf(s) == Some(OnClient(b))
  }

  ghost predicate IsExitOf(s: State, step: Step, b: Addr) {
    step.Reaping? && s.view.pending != [] && HandlerOf(s) == Some(OnProcess(b))
  }

  /** A step leaves every client alone but the one whose event it is, unless it is the sweep. */
  lemma NextSparesOthers(g: Config, s: State, step: Step, t: State, b: Addr)
    requires Inv(g, s) && Next(g, s, step, t) && b in s.clients && !step.Sweeping?
    requires !IsOwnEvent(s, step, b) && !IsExitOf(s, step, b)
    ensures Untouched(s, t, b)
  {
    hide Inv, AdmitAll, CanAdmitAll, ClientEvent, CanHandle, OnOwnSocket, HasSocket, Untouched;
    NothingTouched(s, b);
    if s.view.pending != [] {
      PopKeepsInv(g, s);
      IdsAreOk(g, Pop(s));
      SameUntouched(s, Pop(s), t, b);
    }
    SameUntouched(s, s, t, b);
    match step
    case Accepting(arrivals, log) => AdmittingSparesOthers(g, Pop(s), arrivals, log, b);
    case Handling(env, fd) =>
      var a := HandlerOf(s).value.addr;
      EventIsExpected(g, s, a);
      EventSparesOthers(g, Pop(s), a, s.view.pending[0].ready, env, fd, b);
    case Reaping =>
      ExitIsExpected(g, s, HandlerOf(s).value.addr);
      GoneSparesOthers(g, Pop(s), HandlerOf(s).value.addr, b);
    case _ =>
  }

  lemma SameUntouched(s: State, p: State, t: State, b: Addr)
    requires b in s.clients && p.clients == s.clients && p.open == s.open
    ensures Untouched(p, t, b) <==> Untouched(s, t, b)
    ensures t.clients == s.clients && t.open == s.open ==> Untouched(s, t, b)
  {
  }

  /** The sweep does not let this client be. */
  predicate Sweeps(g: Config, s: State, b: Addr, v: Verdict)
    requires b in s.clients
  {
    && s.clock - s.clients[b].timestamp >= g.timeout
    && (s.clients[b].pidfd < 0 || v.unknown || v.lastSent >= 1000 * g.timeout)
  }

  /** In this step the connection of the client ends. */
  ghost predicate Leaves(g: Config, s: State, step: Step, b: Addr)
    requires b in s.clients
  {
    || IsExitOf(s, step, b)
    || (IsOwnEvent(s, step, b)
        && var ready := s.view.pending[0].ready;
           || (ready.inn && Decide(step.env).Drop?)
           || (ready.out && !(CanSend(s, b) && StillSending(s, b, step.env.sends)))
           || ((ready.err || ready.hup) && !(GetsProcess(s, b, ready, step.env) && step.env.kills)))
    || (step.Sweeping? && Sweeps(g, s, b, VerdictOn(step.verdicts, b))
        && (s.clients[b].pidfd < 0 || !VerdictOn(step.verdicts, b).kills))
  }

  /** In this step its process is killed. */
  ghost predicate Kills(g: Config, s: State, step: Step, b: Addr)
    requires b in s.clients
  {
    || (IsOwnEvent(s, step, b) && (s.view.pending[0].ready.err || s.view.pending[0].ready.hup))
    || (step.Sweeping? && Sweeps(g, s, b, VerdictOn(step.verdicts, b)))
  }

  lemma UntouchedStays(s: State, t: State, b: Addr)
    requires b in s.clients && Untouched(s, t, b) && (s.clients[b].pidfd >= 0 ==> s.clients[b].pidfd in s.open)
    ensures b in t.clients && t.clients[b] == s.clients[b] && (IsKilled(t, b) <==> IsKilled(s, b))
  {
    assert s.clients[b].pidfd >= 0 ==> Owns(s.clients[b], s.clients[b].pidfd);
  }

  lemma SweepingEnds(g: Config, s: State, t: State, b: Addr, v: Verdict)
    requires Connected(s, b) && InPhase(s.clients[b], s.open) && Treated(g, s, t, b, IdleTime(s, b), v)
    ensures b !in t.clients <==> Sweeps(g, s, b, v) && (s.clients[b].pidfd < 0 || !v.kills)
    ensures b in t.clients ==>
              t.clients[b] == s.clients[b] && (IsKilled(t, b) <==> IsKilled(s, b) || Sweeps(g, s, b, v))
  {
    assert s.clients[b].pidfd >= 0 ==> Owns(s.clients[b], s.clients[b].pidfd);
  }

  lemma OwnEventEnds(g: Config, s: State, step: Step, t: State, b: Addr)
    requires Inv(g, s) && Next(g, s, step, t) && b in s.clients && IsOwnEvent(s, step, b)
    ensures b !in t.clients <==> Leaves(g, s, step, b)
    ensures b in t.clients ==> (IsKilled(t, b) <==> IsKilled(s, b) || Kills(g, s, step, b))
  {
    hide Inv, ClientEvent, OnOwnSocket, HasSocket, Decide, Moves;
    PopKeepsInv(g, s);
    EventIsExpected(g, s, b);
    EventEnds(g, Pop(s), b, s.view.pending[0].ready, step.env, step.fd);
    PoppedSends(s, b, step.env.sends);
  }

  lemma PoppedSends(s: State, b: Addr, sends: seq<SendAnswer>)
    requires s.view.pending != [] && b in s.clients
    ensures CanSend(Pop(s), b) <==> CanSend(s, b)
    ensures CanSend(s, b) ==> (StillSending(Pop(s), b, sends) <==> StillSending(s, b, sends))
    ensures IsKilled(Pop(s), b) <==> IsKilled(s, b)
  {
  }

  /** Exactly when a client leaves, and exactly when its process is killed, in every step. */
  lemma LeavesExactly(g: Config, s: State, step: Step, t: State, b: Addr)
    requires Inv(g, s) && Next(g, s, step, t) && b in s.clients
    ensures b !in t.clients <==> Leaves(g, s, step, b)
    ensures b in t.clients ==> (IsKilled(t, b) <==> IsKilled(s, b) || Kills(g, s, step, b))
  {
    hide Inv, Next, Treated, Untouched, IsKilled, Sweeps, StillSending, GetsProcess, Decide, InPhase, CanSend;
    InPhaseOf(g, s, b);
    if IsOwnEvent(s, step, b) {
      OwnEventEnds(g, s, step, t, b);
    } else if step.Sweeping? {
      SweepingTreats(g, s, step, t, b);
      SweepingEnds(g, s, t, b, VerdictOn(step.verdicts, b));
    } else if IsExitOf(s, step, b) {
      ExitEnds(g, s, step, t, b);
    } else {
      NextSparesOthers(g, s, step, t, b);
      ProcessIsOpen(s, b);
      UntouchedStays(s, t, b);
    }
  }

  lemma ProcessIsOpen(s: State, b: Addr)
    requires b in s.clients && InPhase(s.clients[b], s.open)
    ensures s.clients[b].pidfd >= 0 ==> s.clients[b].pidfd in s.open
  {
  }

  /** When its process exits, a client is disconnected, with nothing more sent. */
  lemma ExitEnds(g: Config, s: State, step: Step, t: State, b: Addr)
    requires Inv(g, s) && Next(g, s, step, t) && b in s.clients && IsExitOf(s, step, b)
    ensures b !in t.clients && Connected(s, b) && HasLeft(t, s.clients[b].id, Out(s, b))
  {
    hide Inv, Unregister, CloseAll, Without;
    ExitIsExpected(g, s, b);
    assert t.departed[|s.departed|] == Departed(s.clients[b].id, Out(s, b));
  }
}
