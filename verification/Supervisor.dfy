/** The supervisor of main.c: the other user of the event loop. It waits for its workers. */
module Supervisor {
  import opened Lists
  import opened Registry
  import opened Sepoll
  import opened Signals

  datatype Handler = OnSignal | OnExit(worker: nat)

  const EXIT_SUCCESS := 0
  const EXIT_FAILURE := 1

  /** The descriptors of the workers that have not been reaped. */
  function Alive(pidfds: seq<int>): seq<int> {
    if pidfds == [] then [] else (if pidfds[0] >= 0 then [pidfds[0]] else []) + Alive(pidfds[1..])
  }

  lemma AliveCons(fd: int, rest: seq<int>)
    ensures Alive([fd] + rest) == (if fd >= 0 then [fd] else []) + Alive(rest)
  {
    assert ([fd] + rest)[1..] == rest;
  }

  lemma AliveNone()
    ensures Alive([]) == []
  {
  }

  lemma {:induction false} AliveConcat(a: seq<int>, b: seq<int>)
    ensures Alive(a + b) == Alive(a) + Alive(b)
  {
    hide Alive;
    if a == [] {
      assert a + b == b;
      AliveNone();
    } else {
      AliveConcat(a[1..], b);
      assert a + b == [a[0]] + (a[1..] + b);
      AliveCons(a[0], a[1..] + b);
      AliveCons(a[0], a[1..]);
      assert a == [a[0]] + a[1..];
    }
  }

  lemma AliveUpdate(pidfds: seq<int>, i: nat, fd: int)
    requires i < |pidfds|
    ensures |Alive(pidfds[i := fd])| == |Alive(pidfds)| + (if fd >= 0 then 1 else 0) - if pidfds[i] >= 0 then 1 else 0
  {
    var x, y := pidfds[i], pidfds[i + 1..];
    assert pidfds == pidfds[..i] + ([x] + y) && pidfds[i := fd] == pidfds[..i] + ([fd] + y);
    AliveConcat(pidfds[..i], [x] + y);
    AliveConcat(pidfds[..i], [fd] + y);
    AliveConcat([x], y);
    AliveConcat([fd], y);
    assert Alive([x]) == (if x >= 0 then [x] else []) + Alive([]);
    assert Alive([fd]) == (if fd >= 0 then [fd] else []) + Alive([]);
  }

  lemma {:induction false} NoneAlive(pidfds: seq<int>)
    ensures Alive(pidfds) == [] <==> forall i :: 0 <= i < |pidfds| ==> pidfds[i] < 0
  {
    if pidfds != [] {
      NoneAlive(pidfds[1..]);
      assert forall i :: 0 < i < |pidfds| ==> pidfds[i] == pidfds[1..][i - 1];
      assert forall i :: 0 <= i < |pidfds| - 1 ==> pidfds[1..][i] == pidfds[i + 1];
    }
  }

  /** Those workers that have not been reaped. */
  lemma {:induction false} AliveAre(pidfds: seq<int>)
    ensures forall fd :: multiset(Alive(pidfds))[fd] == if fd >= 0 then multiset(pidfds)[fd] else 0
  {
    if pidfds != [] {
      AliveAre(pidfds[1..]);
      assert pidfds == [pidfds[0]] + pidfds[1..];
    }
  }

  /** What is sent for a run of signals read: one SIGTERM to each worker alive for each of them. */
  function SignalsTo(signals: seq<int>, alive: seq<int>): seq<int> {
    if signals == [] then []
    else SignalsTo(signals[..|signals| - 1], alive) + if signals[|signals| - 1] == SIGTERM then alive else []
  }

  /** Each SIGTERM that was read reaches each worker alive once, and nobody else. */
  lemma {:induction false} SignalsReachAll(signals: seq<int>, alive: seq<int>, fd: int)
    requires multiset(alive)[fd] <= 1
    ensures multiset(SignalsTo(signals, alive))[fd] == if fd in alive then multiset(signals)[15] else 0
  {
    if signals != [] {
      var front, last := signals[..|signals| - 1], signals[|signals| - 1];
      assert signals == front + [last];
      SignalsReachAll(front, alive, fd);
      assert fd in alive <==> fd in multiset(alive);
    }
  }

  /** The pidfd fields after an event. */
  function Reaped(v: View<Handler>, e: Pend, pidfds: seq<int>): seq<int> {
    if Live(v, e) && v.regs[e.fd].handler.OnExit? && v.regs[e.fd].handler.worker < |pidfds|
    then pidfds[v.regs[e.fd].handler.worker := -1] else pidfds
  }

  /** The registrations after an event. */
  function Kept(v: View<Handler>, e: Pend): map<int, Reg<Handler>> {
    if Live(v, e) && v.regs[e.fd].handler.OnExit? then v.regs - {e.fd} else v.regs
  }

  /** Worker i is watched on fd, and its exit is among the first k events. */
  ghost predicate ExitSeen(v: View<Handler>, ready: seq<(int, Ready)>, k: nat, fd: int, i: nat)
    requires k <= |ready|
  {
    fd in v.regs && v.regs[fd].handler == OnExit(i) && exists j :: 0 <= j < k && ready[j].0 == fd
  }

  /** After k events of a batch exactly the workers seen to exit are reaped, and the others still
      have their registrations. */
  ghost predicate Progress(v0: View<Handler>, ready: seq<(int, Ready)>, k: nat, before: seq<int>, now: seq<int>,
                           v: View<Handler>)
    requires k <= |ready|
  {
    && |now| == |before| && |v.pending| == |ready| - k
    && (forall i :: 0 <= i < |before| ==> now[i] == if ExitSeen(v0, ready, k, before[i], i) then -1 else before[i])
    && forall j :: k <= j < |ready| ==>
         var e := v.pending[j - k];
         && e.fd == ready[j].0 && Live(v, e) && e.fd in v0.regs
         && v.regs[e.fd].handler == v0.regs[e.fd].handler
  }

  /** The pidfd fields after k events. */
  ghost function AliveAfter(v: View<Handler>, ready: seq<(int, Ready)>, k: nat, before: seq<int>): seq<int>
    requires k <= |ready|
  {
    seq(|before|, i requires 0 <= i < |before| => if ExitSeen(v, ready, k, before[i], i) then -1 else before[i])
  }

  /** What is sent in the first k events: on the event of the signalfd, one SIGTERM for each read to each
      worker alive by then. */
  ghost function SentBy(v: View<Handler>, ready: seq<(int, Ready)>, k: nat, before: seq<int>, signals: seq<int>): seq<int>
    requires k <= |ready|
  {
    if k == 0 then []
    else
      var fd := ready[k - 1].0;
      SentBy(v, ready, k - 1, before, signals)
      + if fd in v.regs && v.regs[fd].handler == OnSignal
        then SignalsTo(signals, Alive(AliveAfter(v, ready, k - 1, before))) else []
  }

  lemma ProgressSends(v0: View<Handler>, ready: seq<(int, Ready)>, k: nat, before: seq<int>, now: seq<int>,
                      v: View<Handler>)
    requires k < |ready| && Progress(v0, ready, k, before, now, v)
    ensures now == AliveAfter(v0, ready, k, before)
    ensures var e := v.pending[0];
      e.fd == ready[k].0 && Live(v, e) && e.fd in v0.regs && v.regs[e.fd].handler == v0.regs[e.fd].handler
  {
    hide ExitSeen;
  }

  /** These are descriptors of workers. */
  ghost predicate AllFrom(fds: seq<int>, pidfds: seq<int>) {
    forall k :: 0 <= k < |fds| ==> fds[k] >= 0 && exists i :: 0 <= i < |pidfds| && pidfds[i] == fds[k]
  }

  lemma AllFromConcat(a: seq<int>, b: seq<int>, pidfds: seq<int>)
    requires AllFrom(a, pidfds) && AllFrom(b, pidfds)
    ensures AllFrom(a + b, pidfds)
  {
  }

  lemma {:induction false} AliveAreFrom(now: seq<int>, pidfds: seq<int>)
    requires forall i :: 0 <= i < |now| && now[i] >= 0 ==> exists j :: 0 <= j < |pidfds| && pidfds[j] == now[i]
    ensures AllFrom(Alive(now), pidfds)
  {
    if now != [] {
      assert forall i :: 0 <= i < |now| - 1 ==> now[1..][i] == now[i + 1];
      AliveAreFrom(now[1..], pidfds);
    }
  }

  lemma {:induction false} SignalsAreFrom(signals: seq<int>, alive: seq<int>, pidfds: seq<int>)
    requires AllFrom(alive, pidfds)
    ensures AllFrom(SignalsTo(signals, alive), pidfds)
  {
    hide AllFrom;
    NoneFrom(pidfds);
    if signals != [] {
      SignalsAreFrom(signals[..|signals| - 1], alive, pidfds);
      AllFromConcat(SignalsTo(signals[..|signals| - 1], alive), alive, pidfds);
      AllFromConcat(SignalsTo(signals[..|signals| - 1], alive), [], pidfds);
    }
  }

  lemma NoneFrom(pidfds: seq<int>)
    ensures AllFrom([], pidfds)
  {
  }

  /** Signals go to workers only. */
  lemma {:induction false} SentAreFrom(v: View<Handler>, ready: seq<(int, Ready)>, k: nat, before: seq<int>,
                                       signals: seq<int>)
    requires k <= |ready|
    ensures AllFrom(SentBy(v, ready, k, before, signals), before)
  {
    hide AllFrom, SignalsTo, ExitSeen, Alive;
    NoneFrom(before);
    if k > 0 {
      var now, sent := AliveAfter(v, ready, k - 1, before), SentBy(v, ready, k - 1, before, signals);
      SentAreFrom(v, ready, k - 1, before, signals);
      assert forall i :: 0 <= i < |now| && now[i] >= 0 ==> before[i] == now[i];
      AliveAreFrom(now, before);
      SignalsAreFrom(signals, Alive(now), before);
      AllFromConcat(sent, SignalsTo(signals, Alive(now)), before);
      AllFromConcat(sent, [], before);
    }
  }

  lemma ProgressStarts(v: View<Handler>, ready: seq<(int, Ready)>, pidfds: seq<int>)
    requires CanWake(v, ready)
    ensures Progress(v, ready, 0, pidfds, pidfds, Woken(v, ready))
  {
  }

  lemma ProgressGoesOn(v0: View<Handler>, ready: seq<(int, Ready)>, k: nat, before: seq<int>, now: seq<int>,
                       v: View<Handler>, v': View<Handler>)
    requires k < |ready| && Progress(v0, ready, k, before, now, v)
    requires forall i, j :: 0 <= i < j < |ready| ==> ready[i].0 != ready[j].0
    requires forall fd :: fd in v0.regs && v0.regs[fd].handler.OnExit? ==>
               v0.regs[fd].handler.worker < |before| && before[v0.regs[fd].handler.worker] == fd
    requires v'.pending == v.pending[1..] && v'.regs == Kept(v, v.pending[0])
    ensures Progress(v0, ready, k + 1, before, Reaped(v, v.pending[0], now), v')
  {
    var e := v.pending[0];
    assert e.fd == ready[k].0 && Live(v, e);
    forall i | 0 <= i < |before|
      ensures ExitSeen(v0, ready, k + 1, before[i], i) <==>
        ExitSeen(v0, ready, k, before[i], i) || (e.fd == before[i] && v0.regs[e.fd].handler == OnExit(i))
    {
      assert e.fd == before[i] ==> ready[k].0 == before[i];
    }
    forall j | k + 1 <= j < |ready|
      ensures var f := v'.pending[j - (k + 1)];
        f.fd == ready[j].0 && Live(v', f) && f.fd in v0.regs && v'.regs[f.fd].handler == v0.regs[f.fd].handler
    {
      assert v'.pending[j - (k + 1)] == v.pending[j - k];
      assert ready[k].0 != ready[j].0;
    }
  }

  /** The count is right, every descriptor open belongs to one worker or is the signalfd, and each
      callback for a worker is registered for that worker's own descriptor. */
  ghost predicate Agrees(sigfd: int, pidfds: seq<int>, active: nat, open: set<int>, v: View<Handler>) {
    && active == |Alive(pidfds)|
    && (forall i :: 0 <= i < |pidfds| ==> pidfds[i] == -1 || (pidfds[i] >= 0 && pidfds[i] != sigfd && pidfds[i] in open))
    && (forall i, j :: 0 <= i < j < |pidfds| && pidfds[i] >= 0 ==> pidfds[i] != pidfds[j])
    && (forall fd :: fd in open ==> fd == sigfd || (fd >= 0 && exists i :: 0 <= i < |pidfds| && pidfds[i] == fd))
    && forall fd :: fd in v.regs ==>
         match v.regs[fd].handler
         case OnSignal => fd == sigfd
         case OnExit(i) => fd >= 0 && i < |pidfds| && pidfds[i] == fd
  }

  lemma ReapAgrees(sigfd: int, pidfds: seq<int>, active: nat, open: set<int>, v: View<Handler>, i: nat)
    requires Agrees(sigfd, pidfds, active, open, v) && i < |pidfds| && pidfds[i] >= 0
    ensures active > 0
    ensures Agrees(sigfd, pidfds[i := -1], active - 1, open - {pidfds[i]}, Apply(v, Op<Handler>.Remove(pidfds[i])))
  {
    hide Alive, Apply, Result;
    AliveUpdate(pidfds, i, -1);
    StillOwned(sigfd, pidfds, open, i, -1);
    RemovedIs(v, pidfds[i]);
  }

  lemma SpawnAgrees(sigfd: int, pidfds: seq<int>, active: nat, open: set<int>, v: View<Handler>, i: nat, fd: int)
    requires Agrees(sigfd, pidfds, active, open, v) && i < |pidfds| && pidfds[i] == -1
    requires fd >= 0 && fd !in open && fd != sigfd && v.regs == map[]
    ensures Agrees(sigfd, pidfds[i := fd], active + 1, open + {fd}, v)
  {
    AliveUpdate(pidfds, i, fd);
    assert pidfds[i := fd][i] == fd;
    StillOwned(sigfd, pidfds, open, i, fd);
  }

  lemma StillOwned(sigfd: int, pidfds: seq<int>, open: set<int>, i: nat, replaced: int)
    requires i < |pidfds|
    requires forall fd :: fd in open ==> fd == sigfd || (fd >= 0 && exists j :: 0 <= j < |pidfds| && pidfds[j] == fd)
    ensures var after := pidfds[i := replaced];
      forall fd :: fd in open && fd != pidfds[i] ==> fd == sigfd || exists j :: 0 <= j < |after| && after[j] == fd
  {
    var after := pidfds[i := replaced];
    forall fd | fd in open && fd != pidfds[i] && fd != sigfd
      ensures exists j :: 0 <= j < |after| && after[j] == fd
    {
      var j :| 0 <= j < |pidfds| && pidfds[j] == fd;
      assert after[j] == fd;
    }
  }

  lemma WatchAgrees(sigfd: int, pidfds: seq<int>, active: nat, open: set<int>, v: View<Handler>, fd: int,
                    mask: Mask, handler: Handler, fault: Fault)
    requires Agrees(sigfd, pidfds, active, open, v)
    requires match handler case OnSignal => fd == sigfd case OnExit(i) => fd >= 0 && i < |pidfds| && pidfds[i] == fd
    ensures Agrees(sigfd, pidfds, active, open, Apply(v, Op.Add(fd, mask, handler, fault)))
  {
  }

  lemma OnlyRegs(sigfd: int, pidfds: seq<int>, active: nat, open: set<int>, v: View<Handler>, v': View<Handler>)
    requires Agrees(sigfd, pidfds, active, open, v) && v'.regs == v.regs
    ensures Agrees(sigfd, pidfds, active, open, v')
  {
  }

  lemma RemovedIs(v: View<Handler>, fd: int)
    ensures Apply(v, Op<Handler>.Remove(fd)).regs == v.regs - {fd}
  {
  }

  lemma WhoExited(sigfd: int, pidfds: seq<int>, active: nat, open: set<int>, v: View<Handler>, fd: int)
    requires Agrees(sigfd, pidfds, active, open, v) && fd in v.regs && v.regs[fd].handler.OnExit?
    ensures var i := v.regs[fd].handler.worker; i < |pidfds| && pidfds[i] == fd && fd >= 0 && fd in open
  {
  }

  lemma AllReaped(sigfd: int, pidfds: seq<int>, open: set<int>, v: View<Handler>)
    requires Agrees(sigfd, pidfds, 0, open, v)
    ensures forall i :: 0 <= i < |pidfds| ==> pidfds[i] == -1
    ensures open <= {sigfd}
  {
    NoneAlive(pidfds);
    assert forall fd :: fd in open ==> fd == sigfd;
  }

  function FaultOn(faults: map<int, Fault>, fd: int): Fault {
    if fd in faults then faults[fd] else NoFault
  }

  /** The signalfd and the workers alive, except where registering fails. */
  function WatchedFds(sigfd: int, pidfds: seq<int>, faults: map<int, Fault>): set<int> {
    set i | -1 <= i < |pidfds| && FdOf(sigfd, pidfds, i) >= 0 && FaultOn(faults, FdOf(sigfd, pidfds, i)) == NoFault ::
      FdOf(sigfd, pidfds, i)
  }

  function FdOf(sigfd: int, pidfds: seq<int>, i: int): int
    requires -1 <= i < |pidfds|
  {
    if i == -1 then sigfd else pidfds[i]
  }

  lemma NobodyWatched(sigfd: int, faults: map<int, Fault>)
    requires sigfd > 2
    ensures WatchedFds(sigfd, [], faults) == if FaultOn(faults, sigfd) == NoFault then {sigfd} else {}
  {
    assert FdOf(sigfd, [], -1) == sigfd;
  }

  lemma WatchedSnoc(sigfd: int, pidfds: seq<int>, k: nat, active: nat, open: set<int>, v: View<Handler>,
                    faults: map<int, Fault>)
    requires Agrees(sigfd, pidfds, active, open, v) && k < |pidfds|
    ensures WatchedFds(sigfd, pidfds[..k + 1], faults)
         == WatchedFds(sigfd, pidfds[..k], faults)
            + if pidfds[k] >= 0 && FaultOn(faults, pidfds[k]) == NoFault then {pidfds[k]} else {}
    ensures pidfds[k] >= 0 ==> pidfds[k] != sigfd && pidfds[k] !in WatchedFds(sigfd, pidfds[..k], faults)
  {
    var all, front := WatchedFds(sigfd, pidfds[..k + 1], faults), WatchedFds(sigfd, pidfds[..k], faults);
    assert FdOf(sigfd, pidfds[..k + 1], k) == pidfds[k];
    forall fd | fd in all ensures fd in front || fd == pidfds[k] {
      var i :| -1 <= i < k + 1 && FdOf(sigfd, pidfds[..k + 1], i) == fd;
      assert i < k ==> FdOf(sigfd, pidfds[..k], i) == fd;
    }
    forall fd | fd in front ensures fd in all {
      var i :| -1 <= i < k && FdOf(sigfd, pidfds[..k], i) == fd;
      assert FdOf(sigfd, pidfds[..k + 1], i) == fd;
    }
  }

  class Supervisor {
    /** The pidfd fields of the workers; -1 once a worker has been reaped. */
    const pidfds: array<int>
    var activeWorkers: nat
    const sigfd: int
    const loop: Loop<Handler>
    /** The descriptors this process holds for its workers and signals. */
    var open: set<int>

    ghost predicate Valid()
      reads this, pidfds, loop, loop.gc
    {
      && loop.Valid() && sigfd > 2
      && Agrees(sigfd, pidfds[..], activeWorkers, open, loop.view)
    }

    lemma CountIsAlive()
      requires Valid()
      ensures activeWorkers == 0 <==> forall i :: 0 <= i < pidfds.Length ==> pidfds[i] < 0
      ensures activeWorkers == 0 ==> open <= {sigfd} && forall i :: 0 <= i < pidfds.Length ==> pidfds[i] == -1
    {
      hide TablesAgree, BatchAgrees, Linked, Ok;
      NoneAlive(pidfds[..]);
      if activeWorkers == 0 {
        AllReaped(sigfd, pidfds[..], open, loop.view);
      }
    }

    constructor (numWorkers: nat, sigfd: int)
      requires sigfd > 2
      ensures Valid() && loop.view.regs == map[] && loop.view.pending == []
      ensures pidfds.Length == numWorkers && fresh(pidfds) && fresh(loop) && fresh(loop.gc)
      ensures this.sigfd == sigfd && open == {sigfd} && forall i :: 0 <= i < numWorkers ==> pidfds[i] == -1
    {
      hide TablesAgree, BatchAgrees, Linked, Ok;
      this.sigfd := sigfd;
      pidfds := new int[numWorkers](_ => -1);
      loop := new Loop(numWorkers + 1, Event(Ready(false, false, false, false), 0));
      activeWorkers, open := 0, {sigfd};
      new;
      NoneAlive(pidfds[..]);
    }

    /** The loop that forks the workers; forks says which forks succeed. */
    method Spawn(forks: seq<bool>)
      requires Valid() && |forks| == pidfds.Length && loop.view.regs == map[]
      requires forall i :: 0 <= i < pidfds.Length ==> pidfds[i] == -1
      modifies this`activeWorkers, this`open, pidfds
      ensures Valid() && loop.view.regs == map[]
      ensures forall i :: 0 <= i < pidfds.Length ==> (pidfds[i] >= 0 <==> forks[i])
    {
      hide TablesAgree, BatchAgrees, Linked, Ok, Agrees;
      for i := 0 to |forks|
        invariant Valid() && loop.view.regs == map[]
        invariant forall k :: 0 <= k < i ==> (pidfds[k] >= 0 <==> forks[k])
        invariant forall k :: i <= k < pidfds.Length ==> pidfds[k] == -1
      {
        if forks[i] {
          var used := set fd: nat | fd in open + {sigfd};
          SomeFreeAddress(used);
          var pidfd: int :| pidfd >= 0 && pidfd !in open && pidfd != sigfd;
          SpawnAgrees(sigfd, pidfds[..], activeWorkers, open, loop.view, i, pidfd);
          ghost var before := pidfds[..];
          pidfds[i] := pidfd;
          assert pidfds[..] == before[i := pidfd];
          activeWorkers := activeWorkers + 1;
          open := open + {pidfd};
        }
      }
    }

    /** The signalfd and the workers that could be spawned are watched, as far as that succeeds. */
    method Watch(faults: map<int, Fault>)
      requires Valid() && loop.view.pending == [] && loop.view.regs == map[]
      modifies loop
      ensures Valid() && loop.view.pending == []
      ensures loop.view.regs.Keys == WatchedFds(sigfd, pidfds[..], faults)
      ensures forall fd :: fd in loop.view.regs ==> loop.view.regs[fd].mask == Mask(true, false, fd == sigfd)
    {
      hide TablesAgree, BatchAgrees, Linked, Ok, Agrees, WatchedFds, FaultOn;
      NobodyWatched(sigfd, faults);
      Register(sigfd, OnSignal, faults);
      for i := 0 to pidfds.Length
        invariant Valid() && loop.view.pending == []
        invariant loop.view.regs.Keys == WatchedFds(sigfd, pidfds[..i], faults)
        invariant forall fd :: fd in loop.view.regs ==> loop.view.regs[fd].mask == Mask(true, false, fd == sigfd)
      {
        WatchedSnoc(sigfd, pidfds[..], i, activeWorkers, open, loop.view, faults);
        if pidfds[i] > -1 {
          Register(pidfds[i], OnExit(i), faults);
        }
      }
      assert pidfds[..pidfds.Length] == pidfds[..];
    }

    method Register(fd: int, handler: Handler, faults: map<int, Fault>)
      requires Valid() && loop.view.pending == [] && fd !in loop.view.regs
      requires match handler
        case OnSignal => fd == sigfd
        case OnExit(i) => fd >= 0 && fd != sigfd && i < pidfds.Length && pidfds[i] == fd
      modifies loop
      ensures Valid() && loop.view.pending == []
      ensures loop.view.regs == if FaultOn(faults, fd) != NoFault then old(loop.view).regs
        else old(loop.view).regs[fd := Reg(old(loop.view).next, Mask(true, false, fd == sigfd), handler)]
    {
      hide TablesAgree, BatchAgrees, Linked, Ok, Agrees;
      var mask := Mask(true, false, handler == OnSignal);
      WatchAgrees(sigfd, pidfds[..], activeWorkers, open, loop.view, fd, mask, handler, FaultOn(faults, fd));
      var ignored := loop.Add(fd, mask, handler, FaultOn(faults, fd));
    }

    /** signal_all_workers: one signal to each worker that has not been reaped, and to no other. */
    method SignalAllWorkers() returns (signalled: seq<int>)
      ensures signalled == Alive(pidfds[..])
    {
      signalled := [];
      for i := 0 to pidfds.Length
        invariant signalled == Alive(pidfds[..i])
      {
        assert pidfds[..i + 1] == pidfds[..i] + [pidfds[i]];
        AliveConcat(pidfds[..i], [pidfds[i]]);
        assert Alive([pidfds[i]]) == (if pidfds[i] >= 0 then [pidfds[i]] else []) + Alive([]);
        if pidfds[i] >= 0 {
          signalled := signalled + [pidfds[i]];
        }
      }
      assert pidfds[..pidfds.Length] == pidfds[..];
    }

    /** pidfd_event: the worker is reaped, and the loop told to exit if it was the last. */
    method PidfdEvent(i: nat)
      requires Valid() && i < pidfds.Length && pidfds[i] >= 0 && pidfds[i] in open
      modifies this`activeWorkers, this`open, pidfds, loop`heap, loop`tree, loop`interest, loop`run, loop`view, loop.gc
      ensures Valid() && pidfds[..] == old(pidfds[..])[i := -1] && open == old(open) - {old(pidfds[i])}
      ensures activeWorkers == old(activeWorkers) - 1
      ensures loop.view.run == (activeWorkers != 0 && old(loop.view).run)
      ensures loop.view.pending == old(loop.view).pending
      ensures loop.view.regs == old(loop.view).regs - {old(pidfds[i])}
    {
      hide TablesAgree, BatchAgrees, Linked, Ok, Agrees, Result;
      ReapAgrees(sigfd, pidfds[..], activeWorkers, open, loop.view, i);
      var ignored := loop.Remove(pidfds[i]);
      assert loop.view.regs == old(loop.view).regs - {pidfds[i]} by {
        RemovedIs(old(loop.view), pidfds[i]);
      }
      open := open - {pidfds[i]};
      pidfds[i] := -1;
      activeWorkers := activeWorkers - 1;
      assert pidfds[..] == old(pidfds[..])[i := -1];
      if activeWorkers == 0 {
        OnlyRegs(sigfd, pidfds[..], activeWorkers, open, loop.view, Apply(loop.view, Op<Handler>.Exit));
        loop.Exit();
      }
    }

    /** sigfd_event: what is sent to whom for the signals read. */
    method SigfdEvent(signals: seq<int>) returns (signalled: seq<int>)
      ensures signalled == SignalsTo(signals, Alive(pidfds[..]))
    {
      signalled := [];
      for i := 0 to |signals|
        invariant signalled == SignalsTo(signals[..i], Alive(pidfds[..]))
      {
        assert signals[..i + 1][..i] == signals[..i];
        if signals[i] == SIGTERM {
          var sent := SignalAllWorkers();
          signalled := signalled + sent;
        }
      }
      assert signals[..|signals|] == signals;
    }

    /** Event k of the batch. */
    method HandleEvent(k: nat, signals: seq<int>) returns (signalled: seq<int>)
      requires Valid() && loop.view.pending != [] && loop.at == k
      requires loop.run <==> activeWorkers > 0
      modifies this`activeWorkers, this`open, pidfds
      modifies loop`heap, loop`tree, loop`interest, loop`run, loop`view, loop`at, loop.gc
      ensures Valid() && loop.view.pending == old(loop.view).pending[1..] && loop.at == k + 1
      ensures loop.run <==> activeWorkers > 0
      ensures var v := old(loop.view);
        var e := v.pending[0];
        && pidfds[..] == Reaped(v, e, old(pidfds[..])) && loop.view.regs == Kept(v, e)
        && signalled == if Live(v, e) && v.regs[e.fd].handler == OnSignal
                        then SignalsTo(signals, Alive(old(pidfds[..]))) else []
    {
      hide TablesAgree, BatchAgrees, Linked, Ok, Agrees, SignalsTo;
      OnlyRegs(sigfd, pidfds[..], activeWorkers, open, loop.view, Popped(loop.view));
      ghost var e := loop.view.pending[0];
      signalled := [];
      var call := loop.Fetch(k);
      if call.Some? {
        match call.value.1
        case OnSignal =>
          signalled := SigfdEvent(signals);
        case OnExit(i) =>
          WhoExited(sigfd, pidfds[..], activeWorkers, open, loop.view, e.fd);
          PidfdEvent(i);
      }
    }

    lemma WatchedAreOwn()
      requires Valid()
      ensures forall fd :: fd in loop.view.regs && loop.view.regs[fd].handler.OnExit? ==>
                var i := loop.view.regs[fd].handler.worker; i < pidfds.Length && pidfds[i] == fd
    {
      hide TablesAgree, BatchAgrees, Linked, Ok;
    }

    /** One turn of the loop of sepoll_enter: exactly the workers reported to have exited are reaped, and
        signals are sent as they are read. A report that cannot be made stands for a failure. */
    method Round(ready: seq<(int, Ready)>, signals: seq<int>) returns (failed: bool, signalled: seq<int>)
      requires Valid() && loop.view.pending == [] && loop.run && activeWorkers > 0
      modifies this`activeWorkers, this`open, pidfds, loop, loop.gc
      ensures Valid() && loop.view.pending == [] && loop.view.regs.Keys <= old(loop.view.regs.Keys)
      ensures if failed then !loop.run && activeWorkers > 0 else loop.run <==> activeWorkers > 0
      ensures failed ==> pidfds[..] == old(pidfds[..]) && !old(loop.CanReport(ready)) && signalled == []
      ensures !failed ==> forall i :: 0 <= i < pidfds.Length ==>
                pidfds[i] == if old(ExitSeen(loop.view, ready, |ready|, pidfds[i], i)) then -1 else old(pidfds[i])
      ensures !failed ==> signalled == old(SentBy(loop.view, ready, |ready|, pidfds[..], signals))
    {
      hide TablesAgree, BatchAgrees, Linked, Ok, Agrees, CanWake, Progress, ExitSeen, Reaped, Kept, Live, SentBy, AliveAfter,
           SignalsTo, Alive;
      loop.ReportsAreWakes(ready);
      ghost var v, before := loop.view, pidfds[..];
      signalled := [];
      failed := !loop.CanReport(ready);
      if failed {
        OnlyRegs(sigfd, pidfds[..], activeWorkers, open, loop.view, Apply(loop.view, Op<Handler>.Exit));
        loop.Exit();
      } else {
        OnlyRegs(sigfd, pidfds[..], activeWorkers, open, loop.view, Woken(loop.view, ready));
        ProgressStarts(v, ready, before);
        WatchedAreOwn();
        NothingSent(v, ready, before, signals);
        loop.Wait(ready);
        for k := 0 to |ready|
          invariant Valid() && |loop.view.pending| == |ready| - k && loop.at == k
          invariant loop.run <==> activeWorkers > 0
          invariant Progress(v, ready, k, before, pidfds[..], loop.view) && loop.view.regs.Keys <= v.regs.Keys
          invariant signalled == SentBy(v, ready, k, before, signals)
        {
          ghost var now, middle := pidfds[..], loop.view;
          var sent := HandleEvent(k, signals);
          ProgressGoesOn(v, ready, k, before, now, middle, loop.view);
          KeptAreFewer(middle, middle.pending[0]);
          SentOnEvent(v, ready, k, before, now, middle, signals);
          signalled := signalled + sent;
        }
        ProgressEnds(v, ready, before, pidfds[..], loop.view);
      }
      loop.Collect();
    }
  }

  lemma NothingSent(v: View<Handler>, ready: seq<(int, Ready)>, before: seq<int>, signals: seq<int>)
    ensures SentBy(v, ready, 0, before, signals) == []
  {
  }

  lemma KeptAreFewer(v: View<Handler>, e: Pend)
    ensures Kept(v, e).Keys <= v.regs.Keys
  {
  }

  lemma SentOnEvent(v0: View<Handler>, ready: seq<(int, Ready)>, k: nat, before: seq<int>, now: seq<int>,
                    v: View<Handler>, signals: seq<int>)
    requires k < |ready| && Progress(v0, ready, k, before, now, v)
    ensures var e := v.pending[0];
      var sent := if Live(v, e) && v.regs[e.fd].handler == OnSignal then SignalsTo(signals, Alive(now)) else [];
      SentBy(v0, ready, k + 1, before, signals) == SentBy(v0, ready, k, before, signals) + sent
  {
    hide Progress, AliveAfter, SignalsTo, Alive;
    ProgressSends(v0, ready, k, before, now, v);
  }

  lemma ProgressEnds(v0: View<Handler>, ready: seq<(int, Ready)>, before: seq<int>, now: seq<int>, v: View<Handler>)
    requires Progress(v0, ready, |ready|, before, now, v)
    ensures |now| == |before|
    ensures forall i :: 0 <= i < |before| ==> now[i] == if ExitSeen(v0, ready, |ready|, before[i], i) then -1 else before[i]
  {
  }

  /** What has become of the workers spawned: each is still there or has been reaped, and only who was
      registered can be. */
  ghost predicate Since(spawned: seq<int>, faults: map<int, Fault>, now: seq<int>) {
    && |now| == |spawned|
    && (forall i :: 0 <= i < |now| ==> now[i] == spawned[i] || now[i] == -1)
    && (forall i :: 0 <= i < |now| && spawned[i] >= 0 && FaultOn(faults, spawned[i]) != NoFault ==> now[i] == spawned[i])
  }

  lemma SinceGoesOn(sigfd: int, spawned: seq<int>, faults: map<int, Fault>, before: seq<int>, v: View<Handler>,
                    ready: seq<(int, Ready)>, now: seq<int>)
    requires Since(spawned, faults, before) && v.regs.Keys <= WatchedFds(sigfd, spawned, faults) && |now| == |before|
    requires forall i :: 0 <= i < |before| ==> now[i] == if ExitSeen(v, ready, |ready|, before[i], i) then -1 else before[i]
    ensures Since(spawned, faults, now)
  {
    hide FaultOn, WatchedFds;
    forall i | 0 <= i < |now| && spawned[i] >= 0 && FaultOn(faults, spawned[i]) != NoFault ensures now[i] == spawned[i] {
      FaultyIsNotWatched(sigfd, spawned, faults, spawned[i]);
    }
  }

  lemma FaultyIsNotWatched(sigfd: int, pidfds: seq<int>, faults: map<int, Fault>, fd: int)
    requires FaultOn(faults, fd) != NoFault
    ensures fd !in WatchedFds(sigfd, pidfds, faults)
  {
  }

  lemma SinceSpawning(spawned: seq<int>, faults: map<int, Fault>)
    ensures Since(spawned, faults, spawned)
  {
  }

  /** Who has been reaped was registered. */
  lemma ReapedWereWatched(spawned: seq<int>, faults: map<int, Fault>, now: seq<int>)
    requires Since(spawned, faults, now) && forall i :: 0 <= i < |now| ==> now[i] == -1
    ensures forall i :: 0 <= i < |spawned| && spawned[i] >= 0 ==> FaultOn(faults, spawned[i]) == NoFault
  {
  }

  lemma StillFrom(spawned: seq<int>, faults: map<int, Fault>, now: seq<int>, fds: seq<int>)
    requires Since(spawned, faults, now) && AllFrom(fds, now)
    ensures AllFrom(fds, spawned)
  {
    forall k | 0 <= k < |fds| ensures fds[k] >= 0 && exists i :: 0 <= i < |spawned| && spawned[i] == fds[k] {
      var i :| 0 <= i < |now| && now[i] == fds[k];
      assert spawned[i] == fds[k];
    }
  }

  /** sepoll_enter with the handlers of the supervisor, over the occasions it meets. */
  method Enter(s: Supervisor, occasions: seq<(seq<(int, Ready)>, seq<int>)>, ghost spawned: seq<int>,
               ghost faults: map<int, Fault>)
    returns (failed: bool, signalled: seq<int>)
    requires s.Valid() && s.loop.view.pending == [] && s.activeWorkers > 0
    requires Since(spawned, faults, s.pidfds[..]) && s.loop.view.regs.Keys <= WatchedFds(s.sigfd, spawned, faults)
    modifies s, s.pidfds, s.loop, s.loop.gc
    ensures s.Valid()
    ensures if failed then !s.loop.run && s.activeWorkers > 0 else s.loop.run <==> s.activeWorkers > 0
    ensures Since(spawned, faults, s.pidfds[..]) && AllFrom(signalled, spawned)
  {
    hide TablesAgree, BatchAgrees, Linked, Ok, Agrees, AllFrom, WatchedFds, ExitSeen, SentBy, Since;
    failed, signalled := false, [];
    NoneFrom(spawned);
    OnlyRegs(s.sigfd, s.pidfds[..], s.activeWorkers, s.open, s.loop.view, s.loop.view.(run := true));
    s.loop.Start();
    var k := 0;
    while s.loop.run && k < |occasions|
      invariant s.Valid() && s.loop.view.pending == []
      invariant if failed then !s.loop.run && s.activeWorkers > 0 else s.loop.run <==> s.activeWorkers > 0
      invariant Since(spawned, faults, s.pidfds[..]) && s.loop.view.regs.Keys <= WatchedFds(s.sigfd, spawned, faults)
      invariant AllFrom(signalled, spawned)
      decreases |occasions| - k
    {
      var sent;
      ghost var v, before := s.loop.view, s.pidfds[..];
      failed, sent := s.Round(occasions[k].0, occasions[k].1);
      if !failed {
        SinceGoesOn(s.sigfd, spawned, faults, before, v, occasions[k].0, s.pidfds[..]);
        SentAreFrom(v, occasions[k].0, |occasions[k].0|, before, occasions[k].1);
        StillFrom(spawned, faults, before, sent);
        AllFromConcat(signalled, sent, spawned);
      } else {
        assert signalled + sent == signalled;
      }
      signalled := signalled + sent;
      k := k + 1;
    }
  }

  /** main, past its options: the event loop is left exactly when the last worker spawned has been
      reaped, or when waiting fails; with no worker it is not entered. A worker whose registration fails
      is never reaped, so the loop can be left without a failed wait only if none did. */
  method Supervise(forks: seq<bool>, sigfd: int, faults: map<int, Fault>, occasions: seq<(seq<(int, Ready)>, seq<int>)>)
    returns (s: Supervisor, status: int, left: bool, failed: bool, signalled: seq<int>, ghost spawned: seq<int>)
    requires sigfd > 2
    ensures s.Valid() && s.pidfds.Length == |forks|
    ensures status == EXIT_FAILURE <==> forall i :: 0 <= i < |forks| ==> !forks[i]
    ensures status == EXIT_SUCCESS && left && !failed ==>
              s.open <= {sigfd} && forall i :: 0 <= i < |forks| ==> s.pidfds[i] == -1
    ensures status == EXIT_SUCCESS && (!left || failed) ==> exists i :: 0 <= i < |forks| && s.pidfds[i] >= 0
    ensures |spawned| == |forks| && forall i :: 0 <= i < |forks| ==> (spawned[i] >= 0 <==> forks[i])
    ensures Since(spawned, faults, s.pidfds[..])
    ensures left && !failed ==> forall i :: 0 <= i < |forks| && forks[i] ==> FaultOn(faults, spawned[i]) == NoFault
    ensures AllFrom(signalled, spawned)
  {
    hide TablesAgree, BatchAgrees, Linked, Ok, Agrees, AllFrom, WatchedFds, FaultOn, ExitSeen, SentBy, Since;
    s := new Supervisor(|forks|, sigfd);
    s.Spawn(forks);
    left, failed, signalled, spawned := false, false, [], s.pidfds[..];
    NoneFrom(spawned);
    SinceSpawning(spawned, faults);
    s.CountIsAlive();
    assert s.activeWorkers > 0 <==> exists i :: 0 <= i < |forks| && forks[i];
    if s.activeWorkers == 0 {
      return s, EXIT_FAILURE, left, failed, signalled, spawned;
    }
    status := EXIT_SUCCESS;
    s.Watch(faults);
    failed, signalled := Enter(s, occasions, spawned, faults);
    left := !s.loop.run;
    s.CountIsAlive();
    if left && !failed {
      ReapedWereWatched(spawned, faults, s.pidfds[..]);
    }
  }
}
