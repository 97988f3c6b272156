/** Who is watched by the event loop: exactly those whose registration did not fail. */
module Watching {
  import opened Bytes
  import opened Lists
  import opened Registry
  import opened ServerState
  import opened ServerRuns
  import opened Histories
  import opened WorkerFacts

  /** The handler registered for a descriptor. */
  function WatcherOf(v: View<Handler>, fd: int): Option<Handler> {
    if fd in v.regs then Some(v.regs[fd].handler) else None
  }

  predicate SocketWatched(s: State, a: Addr)
    requires a in s.clients
  {
    WatcherOf(s.view, s.clients[a].socket) == Some(OnClient(a))
  }

  predicate ProcessWatched(s: State, a: Addr)
    requires a in s.clients
  {
    WatcherOf(s.view, s.clients[a].pidfd) == Some(OnProcess(a))
  }

  predicate Watched(s: State, a: Addr)
    requires a in s.clients
  {
    SocketWatched(s, a) && (s.clients[a].pidfd >= 0 ==> ProcessWatched(s, a))
  }

  /** From s to t nobody who was watched has got lost and nobody who was not has been found. If ok, who
      has come since, or has got a process since, is watched. */
  ghost predicate Watch(s: State, t: State, ok: bool) {
    && s.accepted <= t.accepted
    && (forall a :: a in t.clients && t.clients[a].id < s.accepted ==> SameWatch(s, t, a, ok))
    && (ok ==> forall a :: a in t.clients && t.clients[a].id >= s.accepted ==> Watched(t, a))
  }

  ghost predicate SameWatch(s: State, t: State, a: Addr, ok: bool)
    requires a in t.clients
  {
    && a in s.clients && s.clients[a].id == t.clients[a].id
    && (SocketWatched(t, a) <==> SocketWatched(s, a))
    && (s.clients[a].pidfd >= 0 ==>
          t.clients[a].pidfd == s.clients[a].pidfd && (ProcessWatched(t, a) <==> ProcessWatched(s, a)))
    && (ok && s.clients[a].pidfd < 0 && t.clients[a].pidfd >= 0 ==> ProcessWatched(t, a))
  }

  lemma WatchIsTransitive(s: State, t: State, u: State, ok: bool)
    requires Watch(s, t, ok) && Watch(t, u, ok)
    ensures Watch(s, u, ok)
  {
    hide SocketWatched, ProcessWatched;
  }

  // ---- One step -----------------------------------------------------------------------------------

  /** Nothing that is watched has changed. */
  lemma NoWatchChanges(s: State, t: State, ok: bool)
    requires IdsOk(s) && t.view.regs == s.view.regs && t.accepted == s.accepted
    requires forall a :: a in t.clients ==>
               && a in s.clients && t.clients[a].id == s.clients[a].id
               && t.clients[a].socket == s.clients[a].socket && t.clients[a].pidfd == s.clients[a].pidfd
    ensures Watch(s, t, ok)
  {
  }

  lemma IdsAreOk(g: Config, s: State)
    requires Inv(g, s)
    ensures IdsOk(s) && FdsOk(g, s)
    ensures forall a :: a in s.clients ==> s.clients[a].id < s.accepted
  {
    hide PhasesOk, RegsOk, BatchOk, ListOk, TimeOk, Ok;
  }

  /** The descriptors of one client are not those another one has polled. */
  lemma PolledApart(g: Config, s: State, a: Addr, b: Addr)
    requires FdsOk(g, s) && a in s.clients && b in s.clients && a != b
    ensures !Polls(s.clients[a], s.clients[b].socket)
    ensures s.clients[b].pidfd >= 0 ==> !Polls(s.clients[a], s.clients[b].pidfd)
  {
    var c := s.clients[b];
    assert Owns(c, c.socket) && s.open[c.socket].owner == ForClient(b);
    assert c.pidfd >= 0 ==> Owns(c, c.pidfd) && s.open[c.pidfd].owner == ForClient(b);
    assert forall fd :: Polls(s.clients[a], fd) ==> Owns(s.clients[a], fd) && s.open[fd].owner == ForClient(a);
  }

  lemma GoneWatch(g: Config, s: State, a: Addr, ok: bool)
    requires FdsOk(g, s) && IdsOk(s) && Connected(s, a)
    ensures Watch(s, Gone(s, a), ok)
  {
    hide FdsOk, CloseAll, Without, HasSocket, Polls;
    forall b | b in s.clients && b != a ensures SameWatch(s, Gone(s, a), b, ok) {
      PolledApart(g, s, a, b);
    }
  }

  lemma DroppedWatch(g: Config, s: State, a: Addr, m: Option<Message>, ok: bool)
    requires FdsOk(g, s) && IdsOk(s) && Connected(s, a)
    ensures Watch(s, Dropped(s, a, m), ok)
  {
    if m.Some? {
      var t := Replied(s, a, m.value);
      assert IdsOk(t) && Connected(t, a);
      NoWatchChanges(s, t, ok);
      hide FdsOk, IdsOk, OwnStep, Watch, Gone;
      OutputIsOwn(g, s, a, Out(s, a).(errors := Out(s, a).errors + [m.value]));
      OwnKeepsFds(g, s, t, a);
      GoneWatch(g, t, a, ok);
      WatchIsTransitive(s, t, Gone(t, a), ok);
    } else {
      hide FdsOk, IdsOk, Watch, Gone;
      GoneWatch(g, s, a, ok);
    }
  }

  lemma ServingWatch(s: State, a: Addr, count: nat, content: Bytes, fd: int, ok: bool)
    requires IdsOk(s) && a in s.clients
    ensures Watch(s, Serving(s, a, count, content, fd), ok)
  {
    hide Apply, WatcherOf;
    forall x ensures WatcherOf(Serving(s, a, count, content, fd).view, x) == WatcherOf(s.view, x) {
      ModWatchers(s.view, s.clients[a].socket, SENDING, x);
    }
  }

  lemma ModWatchers(v: View<Handler>, fd: int, mask: Mask, x: int)
    ensures WatcherOf(Apply(v, Op<Handler>.ModEvents(fd, mask, false)), x) == WatcherOf(v, x)
  {
    hide Apply;
    ModEventsIs(v, fd, mask);
  }

  lemma AddWatchers(v: View<Handler>, fd: int, mask: Mask, handler: Handler, fault: Fault, x: int)
    requires fd !in v.regs
    ensures WatcherOf(Apply(v, Op.Add(fd, mask, handler, fault)), x)
         == if x == fd && fault == NoFault then Some(handler) else WatcherOf(v, x)
  {
    hide Apply;
    AddFresh(v, fd, mask, handler, fault);
  }

  lemma SpawnedWatchers(g: Config, s: State, a: Addr, count: nat, script: Bytes, query: Bytes, fault: Fault, fd: int)
    requires Inv(g, s) && a in s.clients && fd !in s.open
    ensures var t := Spawned(s, a, count, script, query, fault, fd);
      && (forall x :: x != fd ==> WatcherOf(t.view, x) == WatcherOf(s.view, x))
      && WatcherOf(t.view, fd) == if fault == NoFault then Some(OnProcess(a)) else None
  {
    hide Inv, Apply, WatcherOf;
    var socket := s.clients[a].socket;
    var view := Apply(s.view, Op<Handler>.ModEvents(socket, RUNNING, false));
    NotWatched(g, s, fd);
    ModWatchers(s.view, socket, RUNNING, fd);
    WatcherIs(view, fd);
    forall x ensures WatcherOf(Apply(view, Op.Add(fd, EXITING, OnProcess(a), fault)), x)
                  == if x == fd && fault == NoFault then Some(OnProcess(a)) else WatcherOf(s.view, x)
    {
      ModWatchers(s.view, socket, RUNNING, x);
      AddWatchers(view, fd, EXITING, OnProcess(a), fault, x);
    }
  }

  /** A new registration, of a descriptor nobody else has, concerns nobody else. */
  lemma OthersStayWatched(s: State, t: State, a: Addr, fd: int, ok: bool)
    requires s.accepted <= t.accepted && forall x :: x != fd ==> WatcherOf(t.view, x) == WatcherOf(s.view, x)
    requires forall b :: b in t.clients && b != a ==>
               && b in s.clients && t.clients[b] == s.clients[b] && s.clients[b].id < s.accepted
               && s.clients[b].socket != fd && (s.clients[b].pidfd >= 0 ==> s.clients[b].pidfd != fd)
    requires a in t.clients && t.clients[a].id < s.accepted ==> SameWatch(s, t, a, ok)
    requires ok && a in t.clients && t.clients[a].id >= s.accepted ==> Watched(t, a)
    ensures Watch(s, t, ok)
  {
    hide WatcherOf;
  }

  /** A new process is watched exactly when its registration does not fail. */
  lemma SpawnedWatch(g: Config, s: State, a: Addr, count: nat, script: Bytes, query: Bytes, fault: Fault, fd: int)
    requires Inv(g, s) && a in s.clients && s.clients[a].pidfd < 0 && fd >= 0 && fd !in s.open
    ensures var t := Spawned(s, a, count, script, query, fault, fd);
      Watch(s, t, fault == NoFault) && (ProcessWatched(t, a) <==> fault == NoFault) && t.clients[a].pidfd == fd
  {
    hide Inv, Apply, WatcherOf, Watch;
    ClientFdsAreOpen(g, s);
    IdsAreOk(g, s);
    SpawnedWatchers(g, s, a, count, script, query, fault, fd);
    hide FdsOk, IdsOk;
    OthersStayWatched(s, Spawned(s, a, count, script, query, fault, fd), a, fd, fault == NoFault);
  }

  lemma WatcherIs(v: View<Handler>, fd: int)
    ensures WatcherOf(v, fd) == None <==> fd !in v.regs
  {
  }

  lemma NotWatched(g: Config, s: State, fd: int)
    requires Inv(g, s) && fd !in s.open
    ensures WatcherOf(s.view, fd) == None
  {
    hide Inv;
    FreshIsNotWatched(g, s, fd);
  }

  lemma FreshIsNotWatched(g: Config, s: State, fd: int)
    requires Inv(g, s) && fd !in s.open
    ensures fd !in s.view.regs
  {
    hide FdsOk, PhasesOk, RegsOk, BatchOk, ListOk, TimeOk, IdsOk, Ok;
    RegsAreOpen(g, s);
  }

  lemma ClientFdsAreOpen(g: Config, s: State)
    requires Inv(g, s)
    ensures forall a :: a in s.clients ==>
              s.clients[a].socket in s.open && (s.clients[a].pidfd >= 0 ==> s.clients[a].pidfd in s.open)
  {
    hide PhasesOk, RegsOk, BatchOk, ListOk, TimeOk, IdsOk, Ok;
    forall a | a in s.clients
      ensures s.clients[a].socket in s.open && (s.clients[a].pidfd >= 0 ==> s.clients[a].pidfd in s.open)
    {
      assert Owns(s.clients[a], s.clients[a].socket);
      assert s.clients[a].pidfd >= 0 ==> Owns(s.clients[a], s.clients[a].pidfd);
    }
  }

  lemma ReadingWatch(g: Config, s: State, a: Addr, env: Env, fd: int)
    requires Inv(g, s) && Connected(s, a) && Reading(s.clients[a], s.open) && FreshFd(s, env, fd)
    ensures var t := OnReadable(s, a, env, fd);
      && Watch(s, t, env.fault == NoFault)
      && (Decide(env).Run? && a in t.clients ==> t.clients[a].pidfd >= 0 && (ProcessWatched(t, a) <==> env.fault == NoFault))
  {
    IdsAreOk(g, s);
    hide Inv, Decide, Dropped, Serving, Spawned, Watch, FdsOk, IdsOk, HasSocket;
    match Decide(env)
    case Drop(reply) => DroppedWatch(g, s, a, reply, env.fault == NoFault);
    case Serve(content) => ServingWatch(s, a, Received(env), content, fd, env.fault == NoFault);
    case Run(script, query) =>
      SpawnedWatch(g, s, a, Received(env), script, query, env.fault, fd);
  }

  lemma AdvancedWatch(s: State, a: Addr, moved: nat, ok: bool)
    requires IdsOk(s) && CanSend(s, a)
    requires s.clients[a].sentsize + moved <= |s.open[s.clients[a].file].what.content|
    ensures Watch(s, Advanced(s, a, moved), ok)
  {
    hide Watch, IdsOk, Sending, HasSocket;
    NoWatchChanges(s, Advanced(s, a, moved), ok);
  }

  lemma StampedWatch(s: State, a: Addr, ok: bool)
    requires IdsOk(s) && a in s.clients
    ensures Watch(s, Stamped(s, a), ok)
  {
    hide Watch, IdsOk;
    NoWatchChanges(s, Stamped(s, a), ok);
  }

  lemma KilledWatch(s: State, a: Addr, ok: bool)
    requires IdsOk(s) && CanKill(s, a)
    ensures Watch(s, Killed(s, a), ok)
  {
    hide Watch, IdsOk;
    NoWatchChanges(s, Killed(s, a), ok);
  }

  lemma WritingWatch(g: Config, s: State, a: Addr, env: Env, ok: bool)
    requires Inv(g, s) && CanSend(s, a)
    ensures Watch(s, OnWritable(s, a, env), ok)
  {
    hide Inv, Advanced, Moves, CanSend, Watch, FdsOk, IdsOk, Gone, Dropped, Stamped, Settled;
    var (moved, stop) := Moves(s, a, env.sends);
    AdvancedKeepsInv(g, s, a, moved);
    IdsAreOk(g, s);
    AdvancedWatch(s, a, moved, ok);
    SettledWatch(g, Advanced(s, a, moved), a, stop, ok);
    WatchIsTransitive(s, Advanced(s, a, moved), OnWritable(s, a, env), ok);
  }

  lemma SettledWatch(g: Config, s: State, a: Addr, stop: Stop, ok: bool)
    requires Inv(g, s) && CanSend(s, a)
    ensures Watch(s, Settled(s, a, stop), ok)
  {
    hide Inv, Watch, FdsOk, IdsOk, Gone, Dropped, Stamped;
    IdsAreOk(g, s);
    StampedWatch(s, a, ok);
    GoneWatch(g, s, a, ok);
    DroppedWatch(g, s, a, None, ok);
    DroppedWatch(g, s, a, Some(InternalError), ok);
  }

  lemma KillWatch(g: Config, s: State, a: Addr, kills: bool, ok: bool)
    requires Inv(g, s) && CanKill(s, a)
    ensures Watch(s, KillOrDrop(s, a, kills), ok)
  {
    hide Inv, Watch, FdsOk, IdsOk, Gone, Killed;
    IdsAreOk(g, s);
    KilledWatch(s, a, ok);
    GoneWatch(g, s, a, ok);
  }

  lemma TroubleWatch(g: Config, s: State, a: Addr, kills: bool, ok: bool)
    requires Inv(g, s) && Connected(s, a) && InPhase(s.clients[a], s.open)
    ensures Watch(s, OnTrouble(s, a, kills), ok)
    ensures var t := OnTrouble(s, a, kills); a in t.clients ==> t.clients[a] == s.clients[a] && t.view == s.view
  {
    IdsAreOk(g, s);
    hide Inv, Watch, FdsOk, IdsOk;
    if s.clients[a].pidfd >= 0 {
      KillWatch(g, s, a, kills, ok);
    } else {
      GoneWatch(g, s, a, ok);
    }
  }

  lemma ClientEventWatch(g: Config, s: State, a: Addr, ready: Ready, env: Env, fd: int)
    requires Inv(g, s) && CanHandle(s, a, ready) && (ready.inn ==> OnOwnSocket(s, a) && FreshFd(s, env, fd))
    ensures var t := ClientEvent(g, s, a, ready, env, fd);
      && Watch(s, t, env.fault == NoFault)
      && (ready.inn && Decide(env).Run? && a in t.clients ==>
            t.clients[a].pidfd >= 0 && (ProcessWatched(t, a) <==> env.fault == NoFault))
  {
    hide Inv, InPhase, OnReadable, OnWritable, OnTrouble, Watch, HasSocket, OnOwnSocket, FreshFd, Reading, Sending, IdsOk,
         FdsOk, Decide;
    var t, ok := OnData(s, a, ready, env, fd), env.fault == NoFault;
    OnDataKeepsInv(g, s, a, ready, env, fd);
    IdsAreOk(g, s);
    NoWatchChanges(s, s, ok);
    if ready.inn {
      ReadingWatch(g, s, a, env, fd);
    } else if ready.out {
      WritingWatch(g, s, a, env, ok);
    }
    if (ready.err || ready.hup) && a in t.clients {
      InPhaseOf(g, t, a);
      TroubleWatch(g, t, a, env.kills, ok);
      WatchIsTransitive(s, t, OnTrouble(t, a, env.kills), ok);
    }
  }

  // ---- Accepting ------------------------------------------------------------------------------------

  /** A new client is watched exactly when its registration does not fail. */
  lemma AdmittedWatch(g: Config, s: State, fd: int, a: Addr, fault: Fault)
    requires Inv(g, s) && fd >= 0 && fd !in s.open && a !in s.clients
    ensures var t := Admitted(s, fd, a, fault);
      && Watch(s, t, fault == NoFault) && t.accepted == s.accepted + 1
      && (SocketWatched(t, a) <==> fault == NoFault)
      && (forall b :: b in t.clients && t.clients[b].id == s.accepted ==> b == a)
  {
    hide Inv, Apply, WatcherOf, Watch;
    ClientFdsAreOpen(g, s);
    IdsAreOk(g, s);
    AdmittedWatchers(g, s, fd, a, fault);
    hide FdsOk, IdsOk;
    OthersStayWatched(s, Admitted(s, fd, a, fault), a, fd, fault == NoFault);
  }

  lemma AdmittedWatchers(g: Config, s: State, fd: int, a: Addr, fault: Fault)
    requires Inv(g, s) && fd !in s.open
    ensures var t := Admitted(s, fd, a, fault);
      && (forall x :: x != fd ==> WatcherOf(t.view, x) == WatcherOf(s.view, x))
      && WatcherOf(t.view, fd) == if fault == NoFault then Some(OnClient(a)) else None
  {
    hide Inv, Apply, WatcherOf;
    FreshIsNotWatched(g, s, fd);
    NotWatched(g, s, fd);
    forall x ensures WatcherOf(Apply(s.view, Op.Add(fd, READING, OnClient(a), fault)), x)
                  == if x == fd && fault == NoFault then Some(OnClient(a)) else WatcherOf(s.view, x)
    {
      AddWatchers(s.view, fd, READING, OnClient(a), fault, x);
    }
  }

  predicate NoneFails(log: seq<Admission>) {
    forall k :: 0 <= k < |log| && log[k].LetIn? ==> log[k].fault == NoFault
  }

  function LetIns(log: seq<Admission>): nat {
    if log == [] then 0 else (if log[0].LetIn? then 1 else 0) + LetIns(log[1..])
  }

  lemma AdmitWatch(g: Config, s: State, arrival: Arrival, admission: Admission)
    requires Inv(g, s) && CanAdmit(g, s, arrival, admission)
    ensures var t := Admit(s, admission);
      && Watch(s, t, NoneFails([admission])) && t.accepted == s.accepted + LetIns([admission])
      && (admission.LetIn? ==> forall b :: b in t.clients && t.clients[b].id == s.accepted ==>
            (SocketWatched(t, b) <==> admission.fault == NoFault))
  {
    IdsAreOk(g, s);
    hide Inv, Watch, Admitted, SocketWatched;
    assert LetIns([admission][1..]) == 0;
    if admission.LetIn? {
      AdmittedWatch(g, s, admission.fd, admission.addr, admission.fault);
      assert NoneFails([admission]) <==> admission.fault == NoFault by {
        assert [admission][0] == admission;
      }
    } else {
      NoWatchChanges(s, s, NoneFails([admission]));
    }
  }

  lemma Weaker(s: State, t: State, ok: bool, weak: bool)
    requires Watch(s, t, ok) && (weak ==> ok)
    ensures Watch(s, t, weak)
  {
    hide SocketWatched, ProcessWatched;
  }

  /** Of the connections accepted at once, the client made for each is watched exactly when its own
      registration did not fail. */
  lemma {:induction false} AdmitAllWatch(g: Config, s: State, arrivals: seq<Arrival>, log: seq<Admission>)
    requires Inv(g, s) && CanAdmitAll(g, s, arrivals, log)
    ensures var t := AdmitAll(s, log);
      && Watch(s, t, NoneFails(log))
      && forall k :: 0 <= k < |log| && log[k].LetIn? ==> AsAdmitted(t, s.accepted + LetIns(log[..k]), log[k].fault)
    decreases |log|
  {
    hide Inv, CanAdmit, Admit, Watch, AsAdmitted;
    if log == [] {
      IdsAreOk(g, s);
      NoWatchChanges(s, s, NoneFails(log));
    } else {
      var t, u := Admit(s, log[0]), AdmitAll(s, log);
      AdmitKeepsInv(g, s, arrivals[0], log[0]);
      AdmitWatch(g, s, arrivals[0], log[0]);
      AdmitAllWatch(g, t, arrivals[1..], log[1..]);
      NoneFailsFirst(log);
      Weaker(s, t, NoneFails([log[0]]), NoneFails(log));
      Weaker(t, u, NoneFails(log[1..]), NoneFails(log));
      WatchIsTransitive(s, t, u, NoneFails(log));
      forall k | 0 <= k < |log| && log[k].LetIn?
        ensures AsAdmitted(u, s.accepted + LetIns(log[..k]), log[k].fault)
      {
        if k == 0 {
          FirstAsAdmitted(s, t, u, log[0], NoneFails(log[1..]));
        } else {
          assert log[1..][k - 1] == log[k] && log[..k][1..] == log[1..][..k - 1] && log[..k][0] == log[0];
          OneLetIn(log[0]);
        }
      }
    }
  }

  lemma OneLetIn(admission: Admission)
    ensures LetIns([admission]) == if admission.LetIn? then 1 else 0
  {
    assert LetIns([admission][1..]) == 0;
  }

  lemma NoneFailsFirst(log: seq<Admission>)
    requires log != []
    ensures NoneFails(log) <==> NoneFails([log[0]]) && NoneFails(log[1..])
  {
    assert log == [log[0]] + log[1..];
    assert forall k :: 0 <= k < |log[1..]| ==> log[1..][k] == log[k + 1];
    assert [log[0]][0] == log[0];
    assert forall k :: 1 <= k < |log| ==> log[k] == log[1..][k - 1];
  }

  /** Of the connections accepted at once, each is turned away as the server is full by then, or for want of
      memory, or made the next client, on its own descriptor. */
  lemma {:induction false} AdmissionsAreFair(g: Config, s: State, arrivals: seq<Arrival>, log: seq<Admission>)
    requires Inv(g, s) && CanAdmitAll(g, s, arrivals, log)
    ensures |log| == |arrivals| && AdmitAll(s, log).num == s.num + LetIns(log)
    ensures forall k :: 0 <= k < |log| ==>
              var n, t := LetIns(log[..k]), AdmitAll(s, log);
              && (log[k] == TurnedAway(Unavailable) <==> s.num + n == g.maxClients)
              && (log[k] == TurnedAway(InternalError) <==> s.num + n < g.maxClients && !arrivals[k].memory)
              && (log[k].LetIn? <==> s.num + n < g.maxClients && arrivals[k].memory)
              && (log[k].LetIn? ==> IsLetIn(t, log[k].addr, log[k].fd, s.accepted + n))
    decreases |log|
  {
    hide Inv, IsLetIn;
    if log != [] {
      var t, u := Admit(s, log[0]), AdmitAll(s, log);
      AdmitKeepsInv(g, s, arrivals[0], log[0]);
      AdmissionsAreFair(g, t, arrivals[1..], log[1..]);
      NotOverfull(g, s);
      OneLetIn(log[0]);
      FirstIsLetIn(g, s, arrivals, log);
      forall k | 0 < k < |log| ensures LetIns(log[..k]) == LetIns([log[0]]) + LetIns(log[1..][..k - 1]) {
        assert log[..k][1..] == log[1..][..k - 1] && log[..k][0] == log[0];
      }
      assert forall k :: 0 < k < |log| ==> log[k] == log[1..][k - 1] && arrivals[k] == arrivals[1..][k - 1];
      assert log[..0] == [];
      hide CanAdmitAll, AdmitAll;
    }
  }

  /** The client with this number is connected on this descriptor, and waits for its request. */
  predicate IsLetIn(t: State, a: Addr, fd: int, id: nat) {
    a in t.clients && t.clients[a] == Client(id, fd, t.clock, 0, -1, None, 0, -1, -1)
  }

  lemma NotOverfull(g: Config, s: State)
    requires Inv(g, s)
    ensures s.num <= g.maxClients
  {
    hide FdsOk, PhasesOk, RegsOk, BatchOk, TimeOk, IdsOk, Ok, Distinct;
  }

  lemma FirstIsLetIn(g: Config, s: State, arrivals: seq<Arrival>, log: seq<Admission>)
    requires CanAdmitAll(g, s, arrivals, log) && log != []
    ensures log[0].LetIn? ==> IsLetIn(AdmitAll(s, log), log[0].addr, log[0].fd, s.accepted)
  {
    if log[0].LetIn? {
      AdmittingLeavesOthers(g, Admit(s, log[0]), arrivals[1..], log[1..], log[0].addr);
      AdmitAllKeepsClock(s, log);
    }
  }

  /** Client number id, if it is connected, is watched exactly when this fault did not occur. */
  ghost predicate AsAdmitted(t: State, id: nat, fault: Fault) {
    && id < t.accepted
    && forall a :: a in t.clients && t.clients[a].id == id ==> (SocketWatched(t, a) <==> fault == NoFault)
  }

  lemma FirstAsAdmitted(s: State, t: State, u: State, admission: Admission, ok: bool)
    requires admission.LetIn? && t.accepted == s.accepted + 1 && Watch(t, u, ok)
    requires forall b :: b in t.clients && t.clients[b].id == s.accepted ==>
               (SocketWatched(t, b) <==> admission.fault == NoFault)
    ensures AsAdmitted(u, s.accepted + LetIns([]), admission.fault)
  {
    hide SocketWatched, ProcessWatched;
  }

  // ---- Sweeping -------------------------------------------------------------------------------------

  lemma SweepOneWatch(g: Config, s: State, a: Addr, v: Verdict, ok: bool)
    requires Inv(g, s) && Connected(s, a) && InPhase(s.clients[a], s.open)
    ensures Watch(s, SweepOne(g, s, a, v), ok)
  {
    hide Inv, Watch, FdsOk, IdsOk, KillOrDrop, Dropped;
    IdsAreOk(g, s);
    NoWatchChanges(s, s, ok);
    if s.clients[a].pidfd >= 0 {
      KillWatch(g, s, a, v.kills, ok);
    } else {
      DroppedWatch(g, s, a, None, ok);
      DroppedWatch(g, s, a, Some(RequestTimeout), ok);
    }
  }

  lemma {:induction false} SweepWatch(g: Config, s: State, todo: seq<Addr>, verdicts: map<Addr, Verdict>, ok: bool)
    requires Inv(g, s) && Sweepable(s, todo)
    ensures Watch(s, Sweep(g, s, todo, verdicts), ok)
    decreases |todo|
  {
    hide Inv, InPhase, HasSocket, SweepOne, Sweepable, Watch, IdsOk, FdsOk;
    if todo == [] {
      IdsAreOk(g, s);
      NoWatchChanges(s, s, ok);
    } else {
      var v := VerdictOn(verdicts, todo[0]);
      SweepGoesOn(g, s, todo, v);
      var t := SweepOne(g, s, todo[0], v);
      SweepOneWatch(g, s, todo[0], v, ok);
      SweepWatch(g, t, todo[1..], verdicts, ok);
      WatchIsTransitive(s, t, Sweep(g, t, todo[1..], verdicts), ok);
    }
  }

  lemma OnlyClock(s: State, t: State, u: State, ok: bool)
    requires Watch(s, t, ok)
    requires u.view.regs == t.view.regs && u.clients == t.clients && u.accepted == t.accepted
    ensures Watch(s, u, ok)
  {
  }

  lemma PopsWatch(s: State, p: State, t: State, ok: bool)
    requires Watch(p, t, ok)
    requires p.view.regs == s.view.regs && p.clients == s.clients && p.accepted == s.accepted
    ensures Watch(s, t, ok)
  {
  }

  /** None of the registrations made in this step fails. */
  ghost predicate FaultFree(step: Step) {
    match step
    case Accepting(_, log) => NoneFails(log)
    case Handling(env, _) => env.fault == NoFault
    case _ => true
  }

  lemma NextWatch(g: Config, s: State, step: Step, t: State)
    requires Inv(g, s) && Next(g, s, step, t)
    ensures Watch(s, t, FaultFree(step))
  {
    hide Inv, AdmitAll, CanAdmitAll, Sweep, ClientEvent, CanHandle, OnOwnSocket, HasSocket, Gone, Watch, IdsOk, FdsOk,
         NoneFails, AsAdmitted, Sweepable;
    IdsAreOk(g, s);
    if s.view.pending != [] {
      PopKeepsInv(g, s);
      IdsAreOk(g, Pop(s));
    }
    match step
    case Sweeping(verdicts) =>
      AllAreSweepable(g, Pop(s));
      SweepWatch(g, Pop(s), Pop(s).list, verdicts, true);
      OnlyClock(Pop(s), Sweep(g, Pop(s), Pop(s).list, verdicts), t, true);
      PopsWatch(s, Pop(s), t, true);
    case Accepting(arrivals, log) =>
      AdmitAllWatch(g, Pop(s), arrivals, log);
      PopsWatch(s, Pop(s), t, NoneFails(log));
    case Handling(env, fd) =>
      var a := HandlerOf(s).value.addr;
      EventIsExpected(g, s, a);
      ClientEventWatch(g, Pop(s), a, s.view.pending[0].ready, env, fd);
      PopsWatch(s, Pop(s), t, env.fault == NoFault);
    case Reaping =>
      ExitIsExpected(g, s, HandlerOf(s).value.addr);
      GoneWatch(g, Pop(s), HandlerOf(s).value.addr, true);
      PopsWatch(s, Pop(s), t, true);
    case _ => NoWatchChanges(s, t, true);
  }

  // ---- Whole runs -----------------------------------------------------------------------------------

  lemma {:induction false} RunWatch(g: Config, states: seq<State>, steps: seq<Step>, i: nat, j: nat)
    requires IsRun(g, states, steps) && i <= j < |states|
    ensures Watch(states[i], states[j], false)
    decreases j
  {
    hide Inv, Next, Watch, FaultFree, IdsOk, FdsOk;
    if i == j {
      RunKeepsInv(g, states, steps, i);
      IdsAreOk(g, states[i]);
      NoWatchChanges(states[i], states[i], false);
    } else {
      RunWatch(g, states, steps, i, j - 1);
      RunKeepsInv(g, states, steps, j - 1);
      NextWatch(g, states[j - 1], steps[j - 1], states[j]);
      Weaker(states[j - 1], states[j], FaultFree(steps[j - 1]), false);
      WatchIsTransitive(states[i], states[j - 1], states[j], false);
    }
  }

  lemma AsAdmittedStays(t: State, u: State, id: nat, fault: Fault)
    requires AsAdmitted(t, id, fault) && Watch(t, u, false)
    ensures AsAdmitted(u, id, fault)
  {
    hide SocketWatched, ProcessWatched;
  }

  lemma AcceptingWatch(g: Config, s: State, step: Step, t: State, k: nat)
    requires Inv(g, s) && Next(g, s, step, t) && step.Accepting? && k < |step.log| && step.log[k].LetIn?
    ensures AsAdmitted(t, s.accepted + LetIns(step.log[..k]), step.log[k].fault)
  {
    hide Inv, AdmitAll, CanAdmitAll, AsAdmitted, Watch;
    PopKeepsInv(g, s);
    AdmitAllWatch(g, Pop(s), step.arrivals, step.log);
  }

  /** In every run, for as long as it is connected, a client is watched exactly when its registration did
      not fail. */
  lemma SocketsAreWatched(g: Config, states: seq<State>, steps: seq<Step>, i: nat, j: nat, k: nat)
    requires IsRun(g, states, steps) && i < j < |states|
    requires steps[i].Accepting? && k < |steps[i].log| && steps[i].log[k].LetIn?
    ensures AsAdmitted(states[j], states[i].accepted + LetIns(steps[i].log[..k]), steps[i].log[k].fault)
  {
    hide Inv, Next, AsAdmitted, Watch, LetIns;
    RunKeepsInv(g, states, steps, i);
    AcceptingWatch(g, states[i], steps[i], states[i + 1], k);
    RunWatch(g, states, steps, i + 1, j);
    AsAdmittedStays(states[i + 1], states[j], states[i].accepted + LetIns(steps[i].log[..k]), steps[i].log[k].fault);
  }

  /** Client number id, if it is connected, has a process, watched exactly when this fault did not occur. */
  ghost predicate AsStarted(t: State, id: nat, fault: Fault) {
    && id < t.accepted
    && forall a :: a in t.clients && t.clients[a].id == id ==>
         t.clients[a].pidfd >= 0 && (ProcessWatched(t, a) <==> fault == NoFault)
  }

  lemma AsStartedStays(t: State, u: State, id: nat, fault: Fault)
    requires AsStarted(t, id, fault) && Watch(t, u, false)
    ensures AsStarted(u, id, fault)
  {
    hide SocketWatched, ProcessWatched;
  }

  lemma StartingWatch(g: Config, s: State, step: Step, t: State, id: nat)
    requires Inv(g, s) && Next(g, s, step, t) && TakesRequest(s, step, id) && Decide(step.env).Run?
    ensures AsStarted(t, id, step.env.fault)
  {
    hide Inv, ClientEvent, OnOwnSocket, HasSocket, CanHandle, Decide, ProcessWatched, SocketWatched;
    var a, ready := HandlerOf(s).value.addr, s.view.pending[0].ready;
    NumbersAreOwn(g, s, a);
    EventIsExpected(g, s, a);
    PopKeepsInv(g, s);
    ClientEventWatch(g, Pop(s), a, ready, step.env, step.fd);
  }

  /** And its process, for as long as it has one, exactly when the registration of that did not fail. */
  lemma ProcessesAreWatched(g: Config, states: seq<State>, steps: seq<Step>, i: nat, j: nat, id: nat)
    requires IsRun(g, states, steps) && i < j < |states|
    requires TakesRequest(states[i], steps[i], id) && Decide(steps[i].env).Run?
    ensures AsStarted(states[j], id, steps[i].env.fault)
  {
    hide Inv, Next, AsStarted, Watch, Decide;
    RunKeepsInv(g, states, steps, i);
    StartingWatch(g, states[i], steps[i], states[i + 1], id);
    RunWatch(g, states, steps, i + 1, j);
    AsStartedStays(states[i + 1], states[j], id, steps[i].env.fault);
  }

  ghost predicate AllWatched(s: State) {
    forall a :: a in s.clients ==> Watched(s, a)
  }

  lemma AllStayWatched(s: State, t: State)
    requires AllWatched(s) && Watch(s, t, true)
    ensures AllWatched(t)
  {
    hide SocketWatched, ProcessWatched;
  }

  lemma {:induction false} FaultFreeRunWatchesAll(g: Config, states: seq<State>, steps: seq<Step>, j: nat)
    requires IsRun(g, states, steps) && j < |states| && states[0].clients == map[]
    requires forall i :: 0 <= i < j ==> FaultFree(steps[i])
    ensures AllWatched(states[j])
  {
    hide Inv, Next, Watch, FaultFree, Watched;
    if j > 0 {
      FaultFreeRunWatchesAll(g, states, steps, j - 1);
      RunKeepsInv(g, states, steps, j - 1);
      NextWatch(g, states[j - 1], steps[j - 1], states[j]);
      AllStayWatched(states[j - 1], states[j]);
    }
  }

  /** Phase, mask and registration agree in both directions: each client has its socket registered with
      the mask of its phase, and its process, if it has one, for exiting. */
  ghost predicate PhaseIsWatched(s: State, a: Addr)
    requires a in s.clients
  {
    var c := s.clients[a];
    && InPhase(c, s.open)
    && c.socket in s.view.regs && s.view.regs[c.socket].handler == OnClient(a)
    && FitsPhase(s.view.regs[c.socket].mask, c)
    && (c.pidfd >= 0 ==> c.pidfd in s.view.regs && s.view.regs[c.pidfd].handler == OnProcess(a)
                         && s.view.regs[c.pidfd].mask == Mask(true, false, false))
  }

  /** In a run from a state without clients in which no registration fails, everyone is watched for what
      its phase waits for, in every state. */
  lemma EveryoneIsWatched(g: Config, states: seq<State>, steps: seq<Step>, j: nat)
    requires IsRun(g, states, steps) && j < |states| && states[0].clients == map[]
    requires forall i :: 0 <= i < j ==> FaultFree(steps[i])
    ensures forall a :: a in states[j].clients ==> PhaseIsWatched(states[j], a)
  {
    hide IsRun, FaultFree, AllWatched;
    RunKeepsInv(g, states, steps, j);
    FaultFreeRunWatchesAll(g, states, steps, j);
    WatchedInPhase(g, states[j]);
  }

  lemma WatchedInPhase(g: Config, s: State)
    requires Inv(g, s) && AllWatched(s)
    ensures forall a :: a in s.clients ==> PhaseIsWatched(s, a)
  {
    hide FdsOk, PhasesOk, BatchOk, ListOk, TimeOk, IdsOk, Ok, InPhase, FitsPhase, PhaseMask, HasSocket;
    PhasesAreTold(g, s);
    forall a | a in s.clients ensures PhaseIsWatched(s, a) {
      assert Watched(s, a);
      WatchedFor(g, s, a);
    }
  }

  lemma WatchedFor(g: Config, s: State, a: Addr)
    requires RegsOk(g, s, None) && ClientsAreInPhase(s) && a in s.clients && Watched(s, a)
    ensures PhaseIsWatched(s, a)
  {
    hide InPhase, FitsPhase, PhaseMask;
  }

  // ---- Who is not watched -------------------------------------------------------------------------------

  const INCOMING: Ready := Ready(true, false, false, false)

  /** A worker is told of a connection. */
  function Told(g: Config, s: State): State
    requires g.listener in s.view.regs && s.view.regs[g.listener].mask.inn && s.view.room > 0
  {
    s.(view := Woken(s.view, [(g.listener, INCOMING)]))
  }

  lemma ToldIsNext(g: Config, s: State)
    requires Inv(g, s) && s.view.pending == []
    requires WatcherOf(s.view, g.listener) == Some(OnListen) && s.view.regs[g.listener].mask.inn && s.view.room > 0
    ensures var t := Told(g, s);
      && Inv(g, t) && Next(g, s, Wake([(g.listener, INCOMING)]), t)
      && t.view.pending == [Pend(g.listener, s.view.regs[g.listener].serial, INCOMING)] && HandlerOf(t) == Some(OnListen)
  {
    hide Inv;
    NextKeepsInv(g, s, Wake([(g.listener, INCOMING)]), Told(g, s));
  }

  lemma RefusedIsNext(g: Config, s: State, fd: int, a: Addr)
    requires Inv(g, s) && s.view.pending != [] && s.view.pending[0].ready.inn && HandlerOf(s) == Some(OnListen)
    requires s.num < g.maxClients && fd >= 0 && fd !in s.open && a !in s.clients
    ensures var t := AdmitAll(Pop(s), [LetIn(fd, a, Refused)]);
      && Next(g, s, Accepting([Arrival(true, Refused)], [LetIn(fd, a, Refused)]), t)
      && a in t.clients && !SocketWatched(t, a)
  {
    hide Inv, SocketWatched;
    assert a in Admitted(Pop(s), fd, a, Refused).clients;
    hide Admitted;
    PopKeepsInv(g, s);
    AdmittedWatch(g, Pop(s), fd, a, Refused);
    OneAdmission(g, Pop(s), Arrival(true, Refused), LetIn(fd, a, Refused));
  }

  /** A run of two steps: a worker is told of its first connection, and the kernel refuses to register it. */
  lemma SomeoneIsNotWatched(g: Config, view: View<Handler>, now: int, fd: int, a: Addr)
    requires g.Ok() && Ok(view) && CoreRegs(g, view) && g.maxClients > 0 && fd >= 0 && fd !in g.Cores()
    requires WatcherOf(view, g.listener) == Some(OnListen) && view.regs[g.listener].mask.inn && view.room > 0
    ensures var s, log := Initial(g, view, now), [LetIn(fd, a, Refused)];
      && var t := AdmitAll(Pop(Told(g, s)), log);
      && IsRun(g, [s, Told(g, s), t], [Wake([(g.listener, INCOMING)]), Accepting([Arrival(true, Refused)], log)])
      && a in t.clients && !SocketWatched(t, a)
  {
    hide Inv, SocketWatched, AdmitAll, Next, Woken, Ok;
    var s := Initial(g, view, now);
    InitialIsOk(g, view, now);
    ToldIsNext(g, s);
    RefusedIsNext(g, Told(g, s), fd, a);
  }

  lemma OneAdmission(g: Config, s: State, arrival: Arrival, admission: Admission)
    requires CanAdmit(g, s, arrival, admission)
    ensures CanAdmitAll(g, s, [arrival], [admission]) && AdmitAll(s, [admission]) == Admit(s, admission)
  {
    hide CanAdmit, Admit;
    assert [admission][1..] == [] && [arrival][1..] == [];
  }

  /** A process whose registration is refused, for any client that waits for its request. */
  lemma SomeProcessIsNotWatched(g: Config, s: State, a: Addr, count: nat, script: Bytes, query: Bytes, fd: int)
    requires Ripe(g, s, a) && fd >= 0 && fd !in s.open
    ensures var t := Spawned(s, a, count, script, query, Refused, fd);
      Inv(g, t) && a in t.clients && t.clients[a].pidfd == fd && !ProcessWatched(t, a)
  {
    assert s.clients[a].pidfd < 0;
    hide Inv, OnOwnSocket, ProcessWatched, Spawned, HasSocket, Reading;
    SpawnedKeepsInv(g, s, a, count, script, query, Refused, fd);
    SpawnedWatch(g, s, a, count, script, query, Refused, fd);
    SpawnedIsListed(s, a, count, script, query, Refused, fd);
  }

  lemma SpawnedIsListed(s: State, a: Addr, count: nat, script: Bytes, query: Bytes, fault: Fault, fd: int)
    requires a in s.clients
    ensures a in Spawned(s, a, count, script, query, fault, fd).clients
  {
  }

  /** An event of one client leaves the others as they are. */
  lemma OthersAreLeft(g: Config, s: State, a: Addr, ready: Ready, env: Env, fd: int, b: Addr)
    requires Inv(g, s) && CanHandle(s, a, ready) && (ready.inn ==> OnOwnSocket(s, a) && FreshFd(s, env, fd))
    requires b in s.clients && b != a
    ensures var t := ClientEvent(g, s, a, ready, env, fd); b in t.clients && t.clients[b] == s.clients[b]
  {
    hide Inv, Decide, OnOwnSocket, FreshFd, Apply, HasSocket, Without, CloseAll, Unregister, OnTrouble, OnData;
    var t := OnData(s, a, ready, env, fd);
    OnDataKeepsInv(g, s, a, ready, env, fd);
    DataLeavesOthers(s, a, ready, env, fd, b);
    if (ready.err || ready.hup) && a in t.clients {
      InPhaseOf(g, t, a);
      TroubleLeavesOthers(t, a, env.kills, b);
    }
  }

  lemma DataLeavesOthers(s: State, a: Addr, ready: Ready, env: Env, fd: int, b: Addr)
    requires CanHandle(s, a, ready) && b in s.clients && b != a
    ensures var t := OnData(s, a, ready, env, fd); b in t.clients && t.clients[b] == s.clients[b]
  {
    hide Decide, Apply, HasSocket, Without, CloseAll, Unregister;
  }

  lemma TroubleLeavesOthers(s: State, a: Addr, kills: bool, b: Addr)
    requires Connected(s, a) && InPhase(s.clients[a], s.open) && b in s.clients && b != a
    ensures var t := OnTrouble(s, a, kills); b in t.clients && t.clients[b] == s.clients[b]
  {
    hide HasSocket, Without, CloseAll, Unregister;
  }

  lemma {:induction false} AdmittingLeavesOthers(g: Config, s: State, arrivals: seq<Arrival>, log: seq<Admission>, b: Addr)
    requires CanAdmitAll(g, s, arrivals, log) && b in s.clients
    ensures var t := AdmitAll(s, log); b in t.clients && t.clients[b] == s.clients[b]
    decreases |log|
  {
    if log != [] {
      AdmittingLeavesOthers(g, Admit(s, log[0]), arrivals[1..], log[1..], b);
    }
  }

  lemma OwnHandler(g: Config, s: State, fd: int)
    requires Inv(g, s) && fd in s.view.regs
    ensures match s.view.regs[fd].handler
      case OnClient(a) => a in s.clients && SocketWatched(s, a)
      case OnProcess(a) => a in s.clients && ProcessWatched(s, a) && s.clients[a].pidfd >= 0
      case _ => true
  {
    hide FdsOk, PhasesOk, BatchOk, ListOk, TimeOk, IdsOk, Ok;
  }

  /** An event is for one client; only the sweep concerns all. */
  lemma OnlyOwnEvents(g: Config, s: State, step: Step, t: State, b: Addr)
    requires Inv(g, s) && Next(g, s, step, t) && b in s.clients && !step.Sweeping?
    requires step.Handling? ==> s.view.pending != [] && HandlerOf(s) != Some(OnClient(b))
    requires step.Reaping? ==> s.view.pending != [] && HandlerOf(s) != Some(OnProcess(b))
    ensures b in t.clients && t.clients[b] == s.clients[b]
  {
    hide Inv, AdmitAll, CanAdmitAll, ClientEvent, CanHandle, OnOwnSocket, HasSocket;
    if s.view.pending != [] {
      PopKeepsInv(g, s);
    }
    match step
    case Accepting(arrivals, log) => AdmittingLeavesOthers(g, Pop(s), arrivals, log, b);
    case Handling(env, fd) =>
      var a := HandlerOf(s).value.addr;
      EventIsExpected(g, s, a);
      OthersAreLeft(g, Pop(s), a, s.view.pending[0].ready, env, fd, b);
    case Reaping => ExitIsExpected(g, s, HandlerOf(s).value.addr);
    case _ =>
  }

  /** A client that is not watched at all is left alone by everything but the sweep. */
  lemma UnwatchedIsLeftAlone(g: Config, s: State, step: Step, t: State, b: Addr)
    requires Inv(g, s) && Next(g, s, step, t) && b in s.clients && !step.Sweeping?
    requires !SocketWatched(s, b) && !ProcessWatched(s, b)
    ensures b in t.clients && t.clients[b] == s.clients[b]
  {
    hide Inv, AdmitAll, CanAdmitAll, ClientEvent, CanHandle, OnOwnSocket, HasSocket, SocketWatched, ProcessWatched;
    if s.view.pending != [] && HandlerOf(s).Some? {
      OwnHandler(g, s, s.view.pending[0].fd);
    }
    OnlyOwnEvents(g, s, step, t, b);
  }

  /** A client whose process is not watched stays until the server fails to kill that process. */
  lemma UnreapedUntilKillFails(g: Config, s: State, step: Step, t: State, b: Addr)
    requires Inv(g, s) && Next(g, s, step, t) && b in s.clients && b !in t.clients
    requires s.clients[b].pidfd >= 0 && !ProcessWatched(s, b)
    ensures step.Handling? || step.Sweeping?
    ensures step.Handling? ==> !step.env.kills
    ensures step.Sweeping? ==> !VerdictOn(step.verdicts, b).kills
  {
    hide Inv, AdmitAll, CanAdmitAll, ClientEvent, CanHandle, OnOwnSocket, HasSocket, ProcessWatched, Sweep, Sweepable;
    if s.view.pending != [] {
      PopKeepsInv(g, s);
      if HandlerOf(s).Some? {
        OwnHandler(g, s, s.view.pending[0].fd);
      }
    }
    if step.Sweeping? {
      AllAreSweepable(g, Pop(s));
      SweepDropsDoomed(g, Pop(s), Pop(s).list, step.verdicts);
    } else if step.Handling? && HandlerOf(s) == Some(OnClient(b)) {
      EventIsExpected(g, s, b);
      RunnerStays(g, Pop(s), b, s.view.pending[0].ready, step.env, step.fd);
    } else {
      OnlyOwnEvents(g, s, step, t, b);
    }
  }

  lemma RunnerStays(g: Config, s: State, a: Addr, ready: Ready, env: Env, fd: int)
    requires Inv(g, s) && CanHandle(s, a, ready) && (ready.inn ==> OnOwnSocket(s, a) && FreshFd(s, env, fd))
    requires s.clients[a].pidfd >= 0
    ensures env.kills ==> a in ClientEvent(g, s, a, ready, env, fd).clients
  {
    hide Inv, Decide, OnOwnSocket, FreshFd, OnReadable, OnWritable;
  }
}
