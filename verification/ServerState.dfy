/**
 * The worker process as a state machine: its open descriptors, its clients, and the
 * registrations of its event loop, with one function for each thing a handler does.
 */
module ServerState {
  import opened Bytes
  import opened Lists
  import opened Registry
  import opened Request
  import opened Selectors

  const FDS_SERVER: nat := 3 + 5 + 1
  const FDS_CLIENT: nat := 4

  datatype Message = BadRequest | Forbidden | NotFound | RequestTimeout | InternalError | Unavailable

  /** What the server has sent on a socket: bytes of a file, and error messages. */
  datatype Output = Output(bytes: Bytes, errors: seq<Message>)

  datatype Thing =
    | Core
    | Socket(out: Output)
    | File(content: Bytes)
    | Folder
    | Process(script: Bytes, query: Bytes, killed: bool)

  datatype Owner = TheServer | ForClient(addr: Addr)

  /** An open descriptor: what it is, and for whom it is held. */
  datatype Held = Held(owner: Owner, what: Thing)

  /** client_t; id counts the clients accepted, filesize is None until it is first set. */
  datatype Client = Client(id: nat, socket: int, timestamp: int, count: nat, file: int,
                           filesize: Option<nat>, sentsize: nat, dirfd: int, pidfd: int)

  datatype Handler = OnSignal | OnTimer | OnListen | OnClient(addr: Addr) | OnProcess(addr: Addr)

  datatype Departed = Departed(id: nat, out: Output)

  datatype Config = Config(directory: int, listener: int, sigfd: int, timerfd: int, epollfd: int,
                           maxClients: nat, timeout: nat)
  {
    /** Three standard descriptors and five of the server's own. */
    function Cores(): set<int> {
      {0, 1, 2, directory, listener, sigfd, timerfd, epollfd}
    }

    function Limit(): nat {
      FDS_SERVER + maxClients * FDS_CLIENT
    }

    ghost predicate Ok() {
      && timeout > 0
      && Distinct([0, 1, 2, directory, listener, sigfd, timerfd, epollfd])
      && forall fd :: fd in Cores() ==> fd >= 0
    }

    lemma EightCores()
      requires Ok()
      ensures |Cores()| == 8
    {
      Apart();
      var fds := {0, 1, 2};
      assert |fds| == 3;
      assert |fds + {directory}| == 4;
      assert |fds + {directory} + {listener}| == 5;
      assert |fds + {directory} + {listener} + {sigfd}| == 6;
      assert |fds + {directory} + {listener} + {sigfd} + {timerfd}| == 7;
      assert Cores() == fds + {directory} + {listener} + {sigfd} + {timerfd} + {epollfd};
    }

    lemma Apart()
      requires Ok()
      ensures directory > 2 && listener > 2 && sigfd > 2 && timerfd > 2 && epollfd > 2
      ensures directory !in {listener, sigfd, timerfd, epollfd} && listener !in {sigfd, timerfd, epollfd}
      ensures sigfd !in {timerfd, epollfd} && timerfd != epollfd
    {
      var fds := [0, 1, 2, directory, listener, sigfd, timerfd, epollfd];
      assert fds[0] == 0 && fds[1] == 1 && fds[2] == 2 && fds[3] == directory && fds[4] == listener;
      assert fds[5] == sigfd && fds[6] == timerfd && fds[7] == epollfd;
      assert directory in Cores() && listener in Cores() && sigfd in Cores() && timerfd in Cores() && epollfd in Cores();
    }
  }

  datatype State = State(view: View<Handler>, open: map<int, Held>, clients: map<Addr, Client>, list: seq<Addr>,
                         num: nat, clock: int, swept: int, accepted: nat, departed: seq<Departed>)

  // ---- Clients -----------------------------------------------------------------------------

  const READING: Mask := Mask(true, false, true)
  const SENDING: Mask := Mask(false, true, true)
  const RUNNING: Mask := Mask(false, false, true)
  const EXITING: Mask := Mask(true, false, false)

  predicate Owns(c: Client, fd: int) {
    fd == c.socket || (fd >= 0 && (fd == c.file || fd == c.dirfd || fd == c.pidfd))
  }

  /** The descriptors client_disconnect takes out of the event loop. */
  predicate Polls(c: Client, fd: int) {
    fd == c.socket || (fd >= 0 && fd == c.pidfd)
  }

  function PhaseMask(c: Client): Mask {
    if c.pidfd >= 0 then RUNNING else if c.file >= 0 then SENDING else READING
  }

  predicate HasSocket(c: Client, open: map<int, Held>) {
    c.socket >= 0 && c.socket in open && open[c.socket].what.Socket?
  }

  function OutputOf(c: Client, open: map<int, Held>): Output
    requires HasSocket(c, open)
  {
    open[c.socket].what.out
  }

  /** Waiting for its request. */
  predicate Reading(c: Client, open: map<int, Held>)
    requires HasSocket(c, open)
  {
    && c.count == 0 && c.file == -1 && c.dirfd == -1 && c.pidfd == -1
    && c.filesize == None && c.sentsize == 0 && OutputOf(c, open) == Output([], [])
  }

  /** Being sent a file: exactly its first sentsize bytes have gone out. */
  predicate Sending(c: Client, open: map<int, Held>)
    requires HasSocket(c, open)
  {
    && c.file >= 0 && c.dirfd == -1 && c.pidfd == -1
    && c.file in open && open[c.file].what.File?
    && var content := open[c.file].what.content;
       c.filesize == Some(|content|) && c.sentsize <= |content|
       && OutputOf(c, open) == Output(content[..c.sentsize], [])
  }

  /** Served by a CGI process. */
  predicate Running(c: Client, open: map<int, Held>)
    requires HasSocket(c, open)
  {
    && c.file == -1 && c.dirfd == -1 && c.pidfd >= 0
    && c.pidfd in open && open[c.pidfd].what.Process?
    && c.filesize == None && c.sentsize == 0 && OutputOf(c, open) == Output([], [])
  }

  predicate InPhase(c: Client, open: map<int, Held>) {
    HasSocket(c, open) && (Reading(c, open) || Sending(c, open) || Running(c, open))
  }

  /** A client is sent bytes of a file or at most one error message, never both. Which bytes is said
      in Sending while it is connected, and in Deliveries for good. */
  predicate Proper(out: Output) {
    out.errors == [] || (out.bytes == [] && |out.errors| == 1)
  }

  // ---- The invariant -------------------------------------------------------------------------

  /** The open descriptors are those of the server and those its clients own, each for one owner. */
  ghost predicate FdsOk(g: Config, s: State) {
    && (forall fd :: fd in g.Cores() ==> fd in s.open && s.open[fd] == Held(TheServer, Core))
    && (forall fd :: fd in s.open ==>
         match s.open[fd].owner
         case TheServer => fd in g.Cores()
         case ForClient(a) => a in s.clients && Owns(s.clients[a], fd))
    && forall a, fd :: a in s.clients && Owns(s.clients[a], fd) ==> fd in s.open && s.open[fd].owner == ForClient(a)
  }

  /** Every client but a busy one is in a phase; a busy one has been sent something proper. */
  ghost predicate PhasesOk(s: State, busy: Option<Addr>) {
    forall a :: a in s.clients ==>
      if busy == Some(a) then HasSocket(s.clients[a], s.open) && Proper(OutputOf(s.clients[a], s.open))
      else InPhase(s.clients[a], s.open)
  }

  /** Every registered callback has its descriptor's client in the client list, and the mask of
      the client's phase. */
  ghost predicate RegsOk(g: Config, s: State, busy: Option<Addr>) {
    forall fd :: fd in s.view.regs ==>
      match s.view.regs[fd].handler
      case OnSignal => fd == g.sigfd
      case OnTimer => fd == g.timerfd
      case OnListen => fd == g.listener
      case OnClient(a) =>
        a in s.clients && s.clients[a].socket == fd && (busy != Some(a) ==> s.view.regs[fd].mask == PhaseMask(s.clients[a]))
      case OnProcess(a) =>
        fd >= 0 && a in s.clients && s.clients[a].pidfd == fd && s.view.regs[fd].mask == EXITING
  }

  /** An event still to be dispatched asks for nothing its registration does not want by then. */
  ghost predicate BatchOk(s: State) {
    forall i :: 0 <= i < |s.view.pending| && Live(s.view, s.view.pending[i]) ==>
      var e := s.view.pending[i];
      (e.ready.inn ==> s.view.regs[e.fd].mask.inn) && (e.ready.out ==> s.view.regs[e.fd].mask.out)
  }

  ghost predicate ListOk(g: Config, s: State) {
    && Distinct(s.list)
    && (forall k :: 0 <= k < |s.list| ==> s.list[k] in s.clients)
    && (forall a :: a in s.clients ==> a in s.list)
    && s.num == |s.list| <= g.maxClients
  }

  /** No client without a process has been idle for a timeout at the last sweep. */
  ghost predicate TimeOk(g: Config, s: State) {
    && s.swept <= s.clock
    && forall a :: a in s.clients ==>
         s.clients[a].timestamp <= s.clock
         && (s.clients[a].pidfd < 0 ==> s.clients[a].timestamp > s.swept - g.timeout)
  }

  /** Every client accepted is either in the list or has departed, once. */
  ghost predicate IdsOk(s: State) {
    && (forall a :: a in s.clients ==> s.clients[a].id < s.accepted)
    && (forall a, b :: a in s.clients && b in s.clients && a != b ==> s.clients[a].id != s.clients[b].id)
    && (forall i :: 0 <= i < |s.departed| ==> s.departed[i].id < s.accepted && Proper(s.departed[i].out))
    && (forall i, j :: 0 <= i < j < |s.departed| ==> s.departed[i].id != s.departed[j].id)
    && (forall i, a :: 0 <= i < |s.departed| && a in s.clients ==> s.departed[i].id != s.clients[a].id)
    && s.num + |s.departed| == s.accepted
  }

  ghost predicate InvBut(g: Config, s: State, busy: Option<Addr>) {
    && g.Ok() && Ok(s.view)
    && FdsOk(g, s) && PhasesOk(s, busy) && RegsOk(g, s, busy) && BatchOk(s)
    && ListOk(g, s) && TimeOk(g, s) && IdsOk(s)
  }

  ghost predicate Inv(g: Config, s: State) {
    InvBut(g, s, None)
  }

  // ---- Disconnecting --------------------------------------------------------------------------

  predicate Connected(s: State, a: Addr) {
    a in s.clients && HasSocket(s.clients[a], s.open) && s.num > 0
  }

  function Out(s: State, a: Addr): Output
    requires Connected(s, a)
  {
    OutputOf(s.clients[a], s.open)
  }

  function CloseAll(open: map<int, Held>, c: Client): map<int, Held> {
    map fd | fd in open && !Owns(c, fd) :: open[fd]
  }

  function Unregister(v: View<Handler>, c: Client): View<Handler> {
    v.(regs := map fd | fd in v.regs && !Polls(c, fd) :: v.regs[fd])
  }

  /** client_disconnect. */
  function Gone(s: State, a: Addr): State
    requires Connected(s, a)
  {
    var c := s.clients[a];
    s.(view := Unregister(s.view, c), open := CloseAll(s.open, c), clients := s.clients - {a},
       list := Without(s.list, a), num := s.num - 1, departed := s.departed + [Departed(c.id, Out(s, a))])
  }

  function WithOutput(s: State, a: Addr, out: Output): State
    requires Connected(s, a)
  {
    var fd := s.clients[a].socket;
    s.(open := s.open[fd := s.open[fd].(what := Socket(out))])
  }

  /** dprintf of an error message to the client. */
  function Replied(s: State, a: Addr, m: Message): State
    requires Connected(s, a)
  {
    WithOutput(s, a, Out(s, a).(errors := Out(s, a).errors + [m]))
  }

  function Dropped(s: State, a: Addr, m: Option<Message>): State
    requires Connected(s, a)
  {
    if m.Some? then Gone(Replied(s, a, m.value), a) else Gone(s, a)
  }

  lemma GoneKeepsFds(g: Config, s: State, a: Addr)
    requires FdsOk(g, s) && Connected(s, a)
    ensures FdsOk(g, Gone(s, a))
  {
    hide Without, HasSocket, Unregister, CloseAll, OutputOf, FdsOk;
    ClosingKeepsFds(g, s, Gone(s, a), a);
  }

  lemma ClosingKeepsFds(g: Config, s: State, t: State, a: Addr)
    requires FdsOk(g, s) && a in s.clients
    requires t.open == CloseAll(s.open, s.clients[a]) && t.clients == s.clients - {a}
    ensures FdsOk(g, t)
  {
    hide Owns;
    assert forall fd :: fd in g.Cores() ==> !Owns(s.clients[a], fd);
    hide g.Cores;
  }

  /** A phase depends only on what the client owns. */
  lemma PhaseFrame(c: Client, open: map<int, Held>, open': map<int, Held>)
    requires InPhase(c, open)
    requires forall fd :: Owns(c, fd) && fd in open ==> fd in open' && open'[fd] == open[fd]
    ensures InPhase(c, open')
  {
    assert Owns(c, c.socket) && (c.file >= 0 ==> Owns(c, c.file)) && (c.pidfd >= 0 ==> Owns(c, c.pidfd));
  }

  lemma GoneKeepsPhases(g: Config, s: State, a: Addr)
    requires FdsOk(g, s) && PhasesOk(s, Some(a)) && Connected(s, a)
    ensures PhasesOk(Gone(s, a), None)
  {
    hide Without, HasSocket, Unregister, CloseAll, OutputOf, FdsOk, PhasesOk;
    ClosingKeepsPhases(g, s, Gone(s, a), a);
  }

  lemma ClosingKeepsPhases(g: Config, s: State, t: State, a: Addr)
    requires FdsOk(g, s) && PhasesOk(s, Some(a)) && a in s.clients
    requires t.open == CloseAll(s.open, s.clients[a]) && t.clients == s.clients - {a}
    ensures PhasesOk(t, None)
  {
    hide InPhase, HasSocket, Proper;
    forall b | b in t.clients ensures InPhase(t.clients[b], t.open) {
      forall fd | Owns(t.clients[b], fd) && fd in s.open ensures fd in t.open && t.open[fd] == s.open[fd] {
        assert s.open[fd].owner == ForClient(b);
      }
      PhaseFrame(t.clients[b], s.open, t.open);
    }
  }

  lemma GoneKeepsRegs(g: Config, s: State, a: Addr)
    requires RegsOk(g, s, Some(a)) && Connected(s, a)
    ensures RegsOk(g, Gone(s, a), None)
  {
  }

  lemma GoneKeepsView(s: State, a: Addr)
    requires Ok(s.view) && BatchOk(s) && Connected(s, a)
    ensures Ok(Gone(s, a).view) && BatchOk(Gone(s, a))
  {
  }

  lemma GoneKeepsIds(g: Config, s: State, a: Addr)
    requires IdsOk(s) && Connected(s, a) && Proper(Out(s, a))
    ensures IdsOk(Gone(s, a))
  {
    hide Without, CloseAll, Unregister, Proper;
  }

  lemma GoneKeepsList(g: Config, s: State, a: Addr)
    requires ListOk(g, s) && Connected(s, a)
    ensures ListOk(g, Gone(s, a))
  {
    hide Distinct, HasSocket;
    WithoutKeeps(s.list, a);
    var list' := Without(s.list, a);
    assert forall k :: 0 <= k < |list'| ==> list'[k] in list';
  }

  /** Disconnecting a client in any situation, even in the middle of its own event with files
      open and an error message sent, leaves everything in order. */
  lemma GoneKeepsInv(g: Config, s: State, a: Addr)
    requires InvBut(g, s, Some(a)) && a in s.clients
    ensures Connected(s, a) && Inv(g, Gone(s, a))
  {
    hide FdsOk, RegsOk, BatchOk, IdsOk, Ok, InPhase, Without;
    GoneKeepsFds(g, s, a);
    GoneKeepsPhases(g, s, a);
    GoneKeepsRegs(g, s, a);
    GoneKeepsView(s, a);
    GoneKeepsList(g, s, a);
    GoneKeepsIds(g, s, a);
  }

  // ---- Steps that concern one client --------------------------------------------------------------

  /** Nothing but the record, the descriptors and the registrations of client a has changed. */
  ghost predicate OwnStep(s: State, t: State, a: Addr) {
    && a in s.clients && a in t.clients
    && var c, c' := s.clients[a], t.clients[a];
    && t.clients == s.clients[a := c'] && c'.id == c.id && c'.socket == c.socket
    && t.list == s.list && t.num == s.num && t.accepted == s.accepted && t.departed == s.departed
    && t.clock == s.clock && t.swept == s.swept
    && (forall fd :: fd in s.open && !Owns(c, fd) ==> fd in t.open && t.open[fd] == s.open[fd])
    && (forall fd :: fd in t.open && !Owns(c', fd) ==> fd in s.open && !Owns(c, fd))
    && (forall fd :: Owns(c', fd) ==> fd in t.open && t.open[fd].owner == ForClient(a))
    && (forall fd :: Owns(c', fd) && !Owns(c, fd) ==> fd !in s.open)
  }

  /** The registrations of a stay its own, and nobody waits for an event they no longer want. */
  ghost predicate OwnView(s: State, t: State, a: Addr, busy: Option<Addr>)
    requires a in t.clients
  {
    && Ok(t.view) && t.view.pending == s.view.pending
    && forall fd :: fd in t.view.regs ==>
         var r, c := t.view.regs[fd], t.clients[a];
         && (match r.handler
             case OnClient(b) => if b == a then fd == c.socket && (busy == None ==> r.mask == PhaseMask(c))
                                 else fd in s.view.regs && s.view.regs[fd] == r
             case OnProcess(b) => if b == a then fd >= 0 && fd == c.pidfd && r.mask == EXITING
                                  else fd in s.view.regs && s.view.regs[fd] == r
             case _ => fd in s.view.regs && s.view.regs[fd] == r)
         && (s.view.next <= r.serial
             || (fd in s.view.regs && s.view.regs[fd].serial == r.serial
                 && (s.view.regs[fd].mask == r.mask || NotPending(s.view, r.serial))))
  }

  ghost predicate NotPending(v: View<Handler>, serial: nat) {
    forall i :: 0 <= i < |v.pending| ==> v.pending[i].serial != serial
  }

  lemma OwnKeepsFds(g: Config, s: State, t: State, a: Addr)
    requires FdsOk(g, s) && OwnStep(s, t, a)
    ensures FdsOk(g, t)
  {
    hide Owns;
    var c, c' := s.clients[a], t.clients[a];
    assert forall fd :: fd in g.Cores() ==> !Owns(c, fd);
    forall b, fd | b in t.clients && Owns(t.clients[b], fd)
      ensures fd in t.open && t.open[fd].owner == ForClient(b)
    {
      if b != a {
        assert b in s.clients && s.open[fd].owner == ForClient(b);
        assert !Owns(c, fd);
      }
    }
  }

  lemma OwnKeepsPhases(g: Config, s: State, t: State, a: Addr, busy: Option<Addr>)
    requires FdsOk(g, s) && PhasesOk(s, Some(a)) && OwnStep(s, t, a)
    requires if busy == Some(a) then HasSocket(t.clients[a], t.open) && Proper(OutputOf(t.clients[a], t.open))
             else InPhase(t.clients[a], t.open)
    requires busy == None || busy == Some(a)
    ensures PhasesOk(t, busy)
  {
    hide InPhase, HasSocket, Proper;
    forall b | b in s.clients && b != a ensures InPhase(t.clients[b], t.open) {
      forall fd | Owns(s.clients[b], fd) && fd in s.open ensures fd in t.open && t.open[fd] == s.open[fd] {
        assert !Owns(s.clients[a], fd);
      }
      PhaseFrame(s.clients[b], s.open, t.open);
    }
  }

  lemma OwnKeepsRegs(g: Config, s: State, t: State, a: Addr, busy: Option<Addr>)
    requires RegsOk(g, s, Some(a)) && OwnStep(s, t, a) && OwnView(s, t, a, busy)
    requires busy == None || busy == Some(a)
    ensures RegsOk(g, t, busy)
  {
  }

  lemma OwnKeepsBatch(s: State, t: State, a: Addr, busy: Option<Addr>)
    requires Ok(s.view) && BatchOk(s) && a in t.clients && OwnView(s, t, a, busy)
    ensures BatchOk(t)
  {
  }

  lemma OwnKeepsRest(g: Config, s: State, t: State, a: Addr)
    requires ListOk(g, s) && TimeOk(g, s) && IdsOk(s) && OwnStep(s, t, a)
    requires var c, c' := s.clients[a], t.clients[a];
      c'.timestamp == t.clock || (c'.timestamp == c.timestamp && c'.pidfd == c.pidfd)
    requires g.timeout > 0
    ensures ListOk(g, t) && TimeOk(g, t) && IdsOk(t)
  {
  }

  /** A step that concerns one client leaves everything in order if it leaves that client so. */
  lemma OwnStepKeepsInv(g: Config, s: State, t: State, a: Addr, busy: Option<Addr>)
    requires InvBut(g, s, Some(a)) && OwnStep(s, t, a) && OwnView(s, t, a, busy)
    requires busy == None || busy == Some(a)
    requires if busy == Some(a) then HasSocket(t.clients[a], t.open) && Proper(OutputOf(t.clients[a], t.open))
             else InPhase(t.clients[a], t.open)
    requires var c, c' := s.clients[a], t.clients[a];
      c'.timestamp == t.clock || (c'.timestamp == c.timestamp && c'.pidfd == c.pidfd)
    ensures InvBut(g, t, busy)
  {
    assert a in t.clients;
    hide FdsOk, PhasesOk, RegsOk, BatchOk, ListOk, TimeOk, IdsOk, Ok, InPhase, OwnStep;
    OwnKeepsFds(g, s, t, a);
    OwnKeepsPhases(g, s, t, a, busy);
    OwnKeepsRegs(g, s, t, a, busy);
    OwnKeepsBatch(s, t, a, busy);
    OwnKeepsRest(g, s, t, a);
  }

  /** In every order a client may be treated as busy. */
  lemma AnyoneMayBeBusy(g: Config, s: State, a: Addr)
    requires Inv(g, s)
    ensures InvBut(g, s, Some(a))
    ensures a in s.clients ==> Connected(s, a)
  {
    hide FdsOk, BatchOk, TimeOk, IdsOk, Ok;
  }

  // ---- What a request comes to ------------------------------------------------------------------

  datatype OpenError = NoEntry | NoAccess | OtherError

  datatype Kind = RegularFile | DirectoryFile | OtherKind

  datatype Stat = StatError | Stat(kind: Kind, executable: bool, content: Bytes)

  /** What openat answers, and what fstat then says. */
  datatype Found = Absent(error: OpenError) | Present(stat: Stat)

  datatype SendAnswer = Sent(limit: nat) | SendBlocked | BrokenPipe | SendFailed

  /** What the world answers during one event on a client's socket. `files` is the serving
      directory by path, `indexes` the index file by the path of its directory. */
  datatype Env = Env(queued: Bytes, ending: Ending, chunks: seq<nat>, files: map<Bytes, Found>,
                     indexes: map<Bytes, Found>, forks: bool, fault: Fault, sends: seq<SendAnswer>, kills: bool)

  datatype Outcome = Drop(reply: Option<Message>) | Serve(content: Bytes) | Run(script: Bytes, query: Bytes)

  function Find(files: map<Bytes, Found>, path: Bytes): Found {
    if path in files then files[path] else Absent(NoEntry)
  }

  function OpenReply(error: OpenError): Message {
    match error
    case NoEntry => NotFound
    case NoAccess => Forbidden
    case OtherError => InternalError
  }

  function Deliver(env: Env, request: Parsed, directory: bool, stat: Stat): Outcome
    requires stat.Stat?
  {
    if !stat.executable then Serve(stat.content)
    else if !env.forks then Drop(Some(InternalError))
    else Run(ScriptName(request.selector, directory), CStr(request.query))
  }

  function ResolveIndex(env: Env, request: Parsed, path: Bytes): Outcome {
    match Find(env.indexes, path)
    case Absent(error) => Drop(Some(OpenReply(error)))
    case Present(StatError) => Drop(Some(InternalError))
    case Present(stat) =>
      if stat.kind != RegularFile then Drop(Some(Forbidden)) else Deliver(env, request, true, stat)
  }

  function Resolve(env: Env, request: Parsed): Outcome {
    var path := Opened(request.selector);
    match Find(env.files, path)
    case Absent(error) => Drop(Some(OpenReply(error)))
    case Present(StatError) => Drop(Some(InternalError))
    case Present(stat) =>
      match stat.kind
      case RegularFile => Deliver(env, request, false, stat)
      case DirectoryFile => ResolveIndex(env, request, path)
      case OtherKind => Drop(Some(Forbidden))
  }

  /** The outcome of a readiness event on the socket of a client waiting for its request. */
  function Decide(env: Env): Outcome {
    match Receive(env.queued, env.ending)
    case Lost(ending) => Drop(if ending == ReadError then Some(InternalError) else None)
    case Data(bytes) =>
      match Parse(bytes)
      case None => Drop(Some(BadRequest))
      case Some(request) => if !Accepted(request.selector) then Drop(Some(Forbidden)) else Resolve(env, request)
  }

  // ---- What a client's event does ------------------------------------------------------------------

  /** The file is open and the client waits to be sent it. */
  function Serving(s: State, a: Addr, count: nat, content: Bytes, fd: int): State
    requires a in s.clients
  {
    var c := s.clients[a];
    s.(open := s.open[fd := Held(ForClient(a), File(content))],
       clients := s.clients[a := c.(count := count, file := fd, filesize := Some(|content|), timestamp := s.clock)],
       view := Apply(s.view, Op<Handler>.ModEvents(c.socket, SENDING, false)))
  }

  /** The process has the socket; the server waits for it to exit, or for an error. */
  function Spawned(s: State, a: Addr, count: nat, script: Bytes, query: Bytes, fault: Fault, fd: int): State
    requires a in s.clients
  {
    var c := s.clients[a];
    var view := Apply(s.view, Op<Handler>.ModEvents(c.socket, RUNNING, false));
    s.(open := s.open[fd := Held(ForClient(a), Process(script, query, false))],
       clients := s.clients[a := c.(count := count, pidfd := fd, timestamp := s.clock)],
       view := Apply(view, Op.Add(fd, EXITING, OnProcess(a), fault)))
  }

  function Received(env: Env): nat {
    match Receive(env.queued, env.ending)
    case Data(bytes) => |bytes|
    case Lost(_) => 0
  }

  /** The state an outcome leads to; fd is the descriptor the kernel gives for a file or process. */
  function After(s: State, a: Addr, outcome: Outcome, count: nat, fault: Fault, fd: int): State
    requires Connected(s, a)
  {
    match outcome
    case Drop(reply) => Dropped(s, a, reply)
    case Serve(content) => Serving(s, a, count, content, fd)
    case Run(script, query) => Spawned(s, a, count, script, query, fault, fd)
  }

  /** EPOLLIN on a client's socket. */
  function OnReadable(s: State, a: Addr, env: Env, fd: int): State
    requires Connected(s, a)
  {
    After(s, a, Decide(env), Received(env), env.fault, fd)
  }

  datatype Stop = Finished | Stalled | Broken | Failing

  /** sendfile until the file is out, the socket blocks, or it fails: how many of n bytes move, and
      why it stops. A send that moves nothing of something is not progress and does not occur. */
  function Transfer(sends: seq<SendAnswer>, n: nat): (r: (nat, Stop))
    ensures r.0 <= n && (r.1 == Finished ==> r.0 == n)
  {
    if sends == [] then (n, Finished)
    else match sends[0]
      case SendBlocked => (0, if n == 0 then Finished else Stalled)
      case BrokenPipe => (0, Broken)
      case SendFailed => (0, Failing)
      case Sent(limit) =>
        var m := Min(n, if limit == 0 then 1 else limit);
        if m == n then (n, Finished)
        else
          var (more, stop) := Transfer(sends[1..], n - m);
          (m + more, stop)
  }

  predicate CanSend(s: State, a: Addr) {
    Connected(s, a) && Sending(s.clients[a], s.open)
  }

  function Advanced(s: State, a: Addr, moved: nat): State
    requires CanSend(s, a) && s.clients[a].sentsize + moved <= |s.open[s.clients[a].file].what.content|
  {
    var c := s.clients[a];
    var content := s.open[c.file].what.content;
    var out := Out(s, a).(bytes := content[..c.sentsize + moved]);
    WithOutput(s, a, out).(clients := s.clients[a := c.(sentsize := c.sentsize + moved)])
  }

  function Stamped(s: State, a: Addr): State
    requires a in s.clients
  {
    s.(clients := s.clients[a := s.clients[a].(timestamp := s.clock)])
  }

  /** What follows the last sendfile. */
  function Settled(s: State, a: Addr, stop: Stop): State
    requires CanSend(s, a)
  {
    var c := s.clients[a];
    match stop
    case Finished => Gone(s, a)
    case Stalled => if c.sentsize < c.filesize.value then Stamped(s, a) else Gone(s, a)
    case Broken => Gone(s, a)
    case Failing => Dropped(s, a, if c.sentsize == 0 then Some(InternalError) else None)
  }

  /** EPOLLOUT on a client's socket. */
  function OnWritable(s: State, a: Addr, env: Env): State
    requires CanSend(s, a)
  {
    var (moved, stop) := Moves(s, a, env.sends);
    AdvancedCanSend(s, a, moved);
    Settled(Advanced(s, a, moved), a, stop)
  }

  function Moves(s: State, a: Addr, sends: seq<SendAnswer>): (r: (nat, Stop))
    requires CanSend(s, a)
    ensures s.clients[a].sentsize + r.0 <= |s.open[s.clients[a].file].what.content|
    ensures r.1 == Finished ==> s.clients[a].sentsize + r.0 == s.clients[a].filesize.value
  {
    Transfer(sends, s.clients[a].filesize.value - s.clients[a].sentsize)
  }

  lemma AdvancedCanSend(s: State, a: Addr, moved: nat)
    requires CanSend(s, a) && s.clients[a].sentsize + moved <= |s.open[s.clients[a].file].what.content|
    ensures CanSend(Advanced(s, a, moved), a)
  {
    assert s.clients[a].file != s.clients[a].socket;
  }

  function Killed(s: State, a: Addr): State
    requires a in s.clients && s.clients[a].pidfd in s.open && s.open[s.clients[a].pidfd].what.Process?
  {
    var fd := s.clients[a].pidfd;
    s.(open := s.open[fd := s.open[fd].(what := s.open[fd].what.(killed := true))])
  }

  predicate CanKill(s: State, a: Addr) {
    Connected(s, a) && Running(s.clients[a], s.open)
  }

  /** pidfd_kill_client. */
  function KillOrDrop(s: State, a: Addr, kills: bool): State
    requires CanKill(s, a)
  {
    if kills then Killed(s, a) else Gone(s, a)
  }

  /** EPOLLERR or EPOLLHUP on a client's socket. */
  function OnTrouble(s: State, a: Addr, kills: bool): State
    requires Connected(s, a) && InPhase(s.clients[a], s.open)
  {
    if s.clients[a].pidfd >= 0 then KillOrDrop(s, a, kills) else Gone(s, a)
  }

  /** The event being handled is the one on a's own socket, and it has been taken off the batch. */
  ghost predicate OnOwnSocket(s: State, a: Addr) {
    && a in s.clients
    && var fd := s.clients[a].socket;
       fd in s.view.regs && s.view.regs[fd].handler == OnClient(a) && NotPending(s.view, s.view.regs[fd].serial)
  }

  lemma ServingIsOwn(g: Config, s: State, a: Addr, count: nat, content: Bytes, fd: int)
    requires FdsOk(g, s) && Connected(s, a) && Reading(s.clients[a], s.open) && fd >= 0 && fd !in s.open
    ensures var t := Serving(s, a, count, content, fd);
      OwnStep(s, t, a) && InPhase(t.clients[a], t.open)
  {
    assert Owns(s.clients[a], s.clients[a].socket);
    assert content[..0] == [];
  }

  lemma ServingView(g: Config, s: State, a: Addr, count: nat, content: Bytes, fd: int)
    requires Ok(s.view) && RegsOk(g, s, None) && Connected(s, a) && OnOwnSocket(s, a)
    requires Reading(s.clients[a], s.open) && fd >= 0
    ensures OwnView(s, Serving(s, a, count, content, fd), a, None)
  {
    ApplyKeepsOk(s.view, Op<Handler>.ModEvents(s.clients[a].socket, SENDING, false));
    hide Ok;
  }

  lemma ServingKeepsInv(g: Config, s: State, a: Addr, count: nat, content: Bytes, fd: int)
    requires Inv(g, s) && OnOwnSocket(s, a) && Connected(s, a) && Reading(s.clients[a], s.open)
    requires fd >= 0 && fd !in s.open
    ensures Inv(g, Serving(s, a, count, content, fd))
  {
    AnyoneMayBeBusy(g, s, a);
    hide FdsOk, PhasesOk, RegsOk, BatchOk, ListOk, TimeOk, IdsOk, Ok, InPhase, OwnStep, OwnView, OnOwnSocket;
    ServingIsOwn(g, s, a, count, content, fd);
    ServingView(g, s, a, count, content, fd);
    OwnStepKeepsInv(g, s, Serving(s, a, count, content, fd), a, None);
  }

  lemma SpawnedIsOwn(g: Config, s: State, a: Addr, count: nat, script: Bytes, query: Bytes, fault: Fault, fd: int)
    requires FdsOk(g, s) && Connected(s, a) && Reading(s.clients[a], s.open) && fd >= 0 && fd !in s.open
    ensures var t := Spawned(s, a, count, script, query, fault, fd);
      OwnStep(s, t, a) && InPhase(t.clients[a], t.open)
  {
    assert Owns(s.clients[a], s.clients[a].socket);
  }

  lemma SpawnedView(g: Config, s: State, a: Addr, count: nat, script: Bytes, query: Bytes, fault: Fault, fd: int)
    requires Ok(s.view) && RegsOk(g, s, None) && Connected(s, a) && OnOwnSocket(s, a)
    requires Reading(s.clients[a], s.open) && fd >= 0
    ensures OwnView(s, Spawned(s, a, count, script, query, fault, fd), a, None)
  {
    hide Ok, Apply, Result;
    var socket := s.clients[a].socket;
    var op := Op<Handler>.ModEvents(socket, RUNNING, false);
    ApplyKeepsOk(s.view, op);
    ApplyKeepsOk(Apply(s.view, op), Op.Add(fd, EXITING, OnProcess(a), fault));
    ModEventsIs(s.view, socket, RUNNING);
    AddIs(Apply(s.view, op), fd, EXITING, OnProcess(a), fault);
  }

  lemma SpawnedKeepsInv(g: Config, s: State, a: Addr, count: nat, script: Bytes, query: Bytes, fault: Fault, fd: int)
    requires Inv(g, s) && OnOwnSocket(s, a) && Connected(s, a) && Reading(s.clients[a], s.open)
    requires fd >= 0 && fd !in s.open
    ensures Inv(g, Spawned(s, a, count, script, query, fault, fd))
  {
    AnyoneMayBeBusy(g, s, a);
    hide FdsOk, PhasesOk, RegsOk, BatchOk, ListOk, TimeOk, IdsOk, Ok, InPhase, OwnStep, OwnView, OnOwnSocket;
    SpawnedIsOwn(g, s, a, count, script, query, fault, fd);
    SpawnedView(g, s, a, count, script, query, fault, fd);
    OwnStepKeepsInv(g, s, Spawned(s, a, count, script, query, fault, fd), a, None);
  }

  /** Steps that leave the event loop alone leave its registrations in order. */
  lemma SameView(g: Config, s: State, t: State, a: Addr, busy: Option<Addr>)
    requires Ok(s.view) && RegsOk(g, s, busy) && OwnStep(s, t, a) && t.view == s.view
    requires t.clients[a].pidfd == s.clients[a].pidfd
    requires PhaseMask(t.clients[a]) == PhaseMask(s.clients[a])
    ensures OwnView(s, t, a, busy)
  {
    hide Ok;
  }

  lemma OutputIsOwn(g: Config, s: State, a: Addr, out: Output)
    requires FdsOk(g, s) && Connected(s, a)
    ensures OwnStep(s, WithOutput(s, a, out), a)
  {
    assert Owns(s.clients[a], s.clients[a].socket);
  }

  /** An error message to a client that has been sent nothing, and the connection closed. */
  lemma RepliedDropKeepsInv(g: Config, s: State, a: Addr, m: Message)
    requires InvBut(g, s, Some(a)) && Connected(s, a) && Out(s, a) == Output([], [])
    ensures Inv(g, Gone(Replied(s, a, m), a))
  {
    var t := Replied(s, a, m);
    assert Proper(Out(t, a));
    hide FdsOk, PhasesOk, RegsOk, BatchOk, ListOk, TimeOk, IdsOk, Ok, InPhase, OwnStep, OwnView;
    OutputIsOwn(g, s, a, Output([], [] + [m]));
    SameView(g, s, t, a, Some(a));
    OwnStepKeepsInv(g, s, t, a, Some(a));
    GoneKeepsInv(g, t, a);
  }

  lemma DroppedKeepsInv(g: Config, s: State, a: Addr, m: Option<Message>)
    requires Inv(g, s) && Connected(s, a) && (m.Some? ==> Out(s, a) == Output([], []))
    ensures Inv(g, Dropped(s, a, m))
  {
    AnyoneMayBeBusy(g, s, a);
    hide Inv, InvBut, HasSocket, Gone, Replied;
    if m.Some? {
      RepliedDropKeepsInv(g, s, a, m.value);
    } else {
      GoneKeepsInv(g, s, a);
    }
  }

  lemma OnReadableKeepsInv(g: Config, s: State, a: Addr, env: Env, fd: int)
    requires Inv(g, s) && OnOwnSocket(s, a) && Connected(s, a) && Reading(s.clients[a], s.open)
    requires Decide(env).Drop? || (fd >= 0 && fd !in s.open)
    ensures Inv(g, OnReadable(s, a, env, fd))
  {
    assert Out(s, a) == Output([], []);
    hide Inv, Decide, Reading, HasSocket, Serving, Spawned, Dropped, OnOwnSocket;
    match Decide(env)
    case Drop(reply) => DroppedKeepsInv(g, s, a, reply);
    case Serve(content) => ServingKeepsInv(g, s, a, Received(env), content, fd);
    case Run(script, query) => SpawnedKeepsInv(g, s, a, Received(env), script, query, env.fault, fd);
  }

  // ---- Sending --------------------------------------------------------------------------------------

  lemma AdvancedIsOwn(g: Config, s: State, a: Addr, moved: nat)
    requires FdsOk(g, s) && CanSend(s, a) && s.clients[a].sentsize + moved <= |s.open[s.clients[a].file].what.content|
    ensures var t := Advanced(s, a, moved);
      OwnStep(s, t, a) && CanSend(t, a)
  {
    assert Owns(s.clients[a], s.clients[a].socket) && Owns(s.clients[a], s.clients[a].file);
    assert s.clients[a].file != s.clients[a].socket;
  }

  lemma AdvancedKeepsInv(g: Config, s: State, a: Addr, moved: nat)
    requires Inv(g, s) && CanSend(s, a) && s.clients[a].sentsize + moved <= |s.open[s.clients[a].file].what.content|
    ensures Inv(g, Advanced(s, a, moved)) && CanSend(Advanced(s, a, moved), a)
  {
    AnyoneMayBeBusy(g, s, a);
    var t := Advanced(s, a, moved);
    AdvancedIsOwn(g, s, a, moved);
    hide FdsOk, PhasesOk, RegsOk, BatchOk, ListOk, TimeOk, IdsOk, Ok, OwnStep, OwnView;
    assert t.clients[a].pidfd == s.clients[a].pidfd && InPhase(t.clients[a], t.open);
    SameView(g, s, t, a, None);
    OwnStepKeepsInv(g, s, t, a, None);
  }

  lemma StampedKeepsInv(g: Config, s: State, a: Addr)
    requires Inv(g, s) && CanSend(s, a)
    ensures Inv(g, Stamped(s, a))
  {
    var t := Stamped(s, a);
    AnyoneMayBeBusy(g, s, a);
    assert InPhase(t.clients[a], t.open);
    StampedIsOwn(g, s, a);
    hide FdsOk, PhasesOk, RegsOk, BatchOk, ListOk, TimeOk, IdsOk, Ok, OwnStep, OwnView, InPhase;
    SameView(g, s, t, a, None);
    OwnStepKeepsInv(g, s, t, a, None);
  }

  lemma StampedIsOwn(g: Config, s: State, a: Addr)
    requires FdsOk(g, s) && a in s.clients
    ensures OwnStep(s, Stamped(s, a), a)
  {
  }

  lemma SilentSoFar(s: State, a: Addr)
    requires CanSend(s, a)
    ensures s.clients[a].sentsize == 0 ==> Out(s, a) == Output([], [])
  {
    assert s.open[s.clients[a].file].what.content[..0] == [];
  }

  lemma SettledKeepsInv(g: Config, s: State, a: Addr, stop: Stop)
    requires Inv(g, s) && CanSend(s, a)
    ensures Inv(g, Settled(s, a, stop))
  {
    hide Inv, Stamped, HasSocket, Sending, Gone, Replied;
    SilentSoFar(s, a);
    var c := s.clients[a];
    DroppedKeepsInv(g, s, a, None);
    match stop
    case Finished =>
    case Broken =>
    case Stalled => StampedKeepsInv(g, s, a);
    case Failing => DroppedKeepsInv(g, s, a, if c.sentsize == 0 then Some(InternalError) else None);
  }

  lemma OnWritableKeepsInv(g: Config, s: State, a: Addr, env: Env)
    requires Inv(g, s) && CanSend(s, a)
    ensures Inv(g, OnWritable(s, a, env))
  {
    hide Inv, Settled, Advanced, Moves, CanSend;
    var (moved, stop) := Moves(s, a, env.sends);
    AdvancedKeepsInv(g, s, a, moved);
    SettledKeepsInv(g, Advanced(s, a, moved), a, stop);
  }

  lemma KilledIsOwn(g: Config, s: State, a: Addr)
    requires FdsOk(g, s) && CanKill(s, a)
    ensures OwnStep(s, Killed(s, a), a) && InPhase(s.clients[a], Killed(s, a).open)
  {
    assert Owns(s.clients[a], s.clients[a].pidfd) && s.clients[a].pidfd != s.clients[a].socket;
  }

  lemma KillOrDropKeepsInv(g: Config, s: State, a: Addr, kills: bool)
    requires Inv(g, s) && CanKill(s, a)
    ensures Inv(g, KillOrDrop(s, a, kills))
  {
    AnyoneMayBeBusy(g, s, a);
    KilledIsOwn(g, s, a);
    hide FdsOk, PhasesOk, RegsOk, BatchOk, ListOk, TimeOk, IdsOk, Ok, OwnStep, OwnView, InPhase;
    if kills {
      var t := Killed(s, a);
      assert t.clients == s.clients;
      SameView(g, s, t, a, None);
      OwnStepKeepsInv(g, s, t, a, None);
    } else {
      GoneKeepsInv(g, s, a);
    }
  }

  lemma OnTroubleKeepsInv(g: Config, s: State, a: Addr, kills: bool)
    requires Inv(g, s) && Connected(s, a) && InPhase(s.clients[a], s.open)
    ensures Inv(g, OnTrouble(s, a, kills))
  {
    if s.clients[a].pidfd >= 0 {
      KillOrDropKeepsInv(g, s, a, kills);
    } else {
      AnyoneMayBeBusy(g, s, a);
      GoneKeepsInv(g, s, a);
    }
  }

  // ---- A whole event of a client ------------------------------------------------------------------------

  /** The conditions reported for a client are ones its phase is waiting for. */
  ghost predicate CanHandle(s: State, a: Addr, ready: Ready) {
    && Connected(s, a) && InPhase(s.clients[a], s.open)
    && (ready.inn ==> Reading(s.clients[a], s.open) && !ready.out)
    && (ready.out ==> Sending(s.clients[a], s.open))
  }

  /** The descriptor a request needs, if it needs one, was free. */
  ghost predicate FreshFd(s: State, env: Env, fd: int) {
    Decide(env).Drop? || (fd >= 0 && fd !in s.open)
  }

  /** The part of client_socket before it looks at errors. */
  ghost function OnData(s: State, a: Addr, ready: Ready, env: Env, fd: int): State
    requires CanHandle(s, a, ready)
  {
    if ready.inn then OnReadable(s, a, env, fd) else if ready.out then OnWritable(s, a, env) else s
  }

  lemma OnDataKeepsInv(g: Config, s: State, a: Addr, ready: Ready, env: Env, fd: int)
    requires Inv(g, s) && CanHandle(s, a, ready) && (ready.inn ==> OnOwnSocket(s, a) && FreshFd(s, env, fd))
    ensures Inv(g, OnData(s, a, ready, env, fd))
  {
    hide Inv, Reading, Sending, Running, HasSocket, OnReadable, OnWritable, OnOwnSocket, Decide;
    if ready.inn {
      OnReadableKeepsInv(g, s, a, env, fd);
    } else if ready.out {
      OnWritableKeepsInv(g, s, a, env);
    }
  }

  lemma InPhaseOf(g: Config, s: State, a: Addr)
    requires Inv(g, s) && a in s.clients
    ensures Connected(s, a) && InPhase(s.clients[a], s.open)
  {
    AnyoneMayBeBusy(g, s, a);
  }

  /** client_socket. */
  ghost function ClientEvent(g: Config, s: State, a: Addr, ready: Ready, env: Env, fd: int): State
    requires Inv(g, s) && CanHandle(s, a, ready) && (ready.inn ==> OnOwnSocket(s, a) && FreshFd(s, env, fd))
  {
    var t := OnData(s, a, ready, env, fd);
    OnDataKeepsInv(g, s, a, ready, env, fd);
    if (ready.err || ready.hup) && a in t.clients then
      InPhaseOf(g, t, a);
      OnTrouble(t, a, env.kills)
    else t
  }

  lemma ClientEventKeepsInv(g: Config, s: State, a: Addr, ready: Ready, env: Env, fd: int)
    requires Inv(g, s) && CanHandle(s, a, ready) && (ready.inn ==> OnOwnSocket(s, a) && FreshFd(s, env, fd))
    ensures Inv(g, ClientEvent(g, s, a, ready, env, fd))
  {
    var t := OnData(s, a, ready, env, fd);
    OnDataKeepsInv(g, s, a, ready, env, fd);
    hide Inv, OnData, OnTrouble, InPhase, HasSocket;
    if (ready.err || ready.hup) && a in t.clients {
      InPhaseOf(g, t, a);
      OnTroubleKeepsInv(g, t, a, env.kills);
    }
  }

  // ---- Accepting ---------------------------------------------------------------------------------------------

  /** A connection waiting to be accepted: whether there is memory for it, and what becomes of its
      registration. */
  datatype Arrival = Arrival(memory: bool, fault: Fault)

  datatype Admission = TurnedAway(reply: Message) | LetIn(fd: int, addr: Addr, fault: Fault)

  function Admitted(s: State, fd: int, a: Addr, fault: Fault): State {
    s.(open := s.open[fd := Held(ForClient(a), Socket(Output([], [])))],
       clients := s.clients[a := Client(s.accepted, fd, s.clock, 0, -1, None, 0, -1, -1)],
       list := [a] + s.list, num := s.num + 1, accepted := s.accepted + 1,
       view := Apply(s.view, Op.Add(fd, READING, OnClient(a), fault)))
  }

  function Admit(s: State, admission: Admission): State {
    match admission
    case TurnedAway(_) => s
    case LetIn(fd, a, fault) => Admitted(s, fd, a, fault)
  }

  /** The kernel and malloc pick a descriptor and an address that are not in use; both may have
      been used before. */
  ghost predicate CanAdmit(g: Config, s: State, arrival: Arrival, admission: Admission) {
    if s.num == g.maxClients then admission == TurnedAway(Unavailable)
    else if !arrival.memory then admission == TurnedAway(InternalError)
    else
      admission.LetIn? && admission.fault == arrival.fault
      && admission.fd >= 0 && admission.fd !in s.open && admission.addr !in s.clients
  }

  function AdmitAll(s: State, log: seq<Admission>): State
    decreases |log|
  {
    if log == [] then s else AdmitAll(Admit(s, log[0]), log[1..])
  }

  ghost predicate CanAdmitAll(g: Config, s: State, arrivals: seq<Arrival>, log: seq<Admission>)
    decreases |log|
  {
    && |arrivals| == |log|
    && (log != [] ==> CanAdmit(g, s, arrivals[0], log[0]) && CanAdmitAll(g, Admit(s, log[0]), arrivals[1..], log[1..]))
  }

  lemma AdmittedKeepsFds(g: Config, s: State, fd: int, a: Addr, fault: Fault)
    requires FdsOk(g, s) && fd >= 0 && fd !in s.open && a !in s.clients
    ensures FdsOk(g, Admitted(s, fd, a, fault))
  {
  }

  lemma AdmittedKeepsPhases(g: Config, s: State, fd: int, a: Addr, fault: Fault)
    requires FdsOk(g, s) && PhasesOk(s, None) && fd >= 0 && fd !in s.open && a !in s.clients
    ensures PhasesOk(Admitted(s, fd, a, fault), None)
  {
    var t := Admitted(s, fd, a, fault);
    assert InPhase(t.clients[a], t.open);
    hide InPhase, HasSocket;
    forall b | b in s.clients ensures InPhase(t.clients[b], t.open) {
      PhaseFrame(s.clients[b], s.open, t.open);
    }
  }

  lemma AdmittedKeepsView(g: Config, s: State, fd: int, a: Addr, fault: Fault)
    requires Ok(s.view) && RegsOk(g, s, None) && BatchOk(s) && fd >= 0 && a !in s.clients
    ensures var t := Admitted(s, fd, a, fault); Ok(t.view) && RegsOk(g, t, None) && BatchOk(t)
  {
    ApplyKeepsOk(s.view, Op.Add(fd, READING, OnClient(a), fault));
  }

  lemma AdmittedKeepsList(g: Config, s: State, fd: int, a: Addr, fault: Fault)
    requires ListOk(g, s) && a !in s.clients && s.num < g.maxClients
    ensures ListOk(g, Admitted(s, fd, a, fault))
  {
    var t := Admitted(s, fd, a, fault);
    assert forall k :: 0 < k < |t.list| ==> t.list[k] == s.list[k - 1];
    assert t.list[0] == a && forall b :: b in s.list ==> b in t.list;
  }

  lemma AdmittedKeepsRest(g: Config, s: State, fd: int, a: Addr, fault: Fault)
    requires TimeOk(g, s) && IdsOk(s) && a !in s.clients && g.timeout > 0
    ensures var t := Admitted(s, fd, a, fault); TimeOk(g, t) && IdsOk(t)
  {
  }

  lemma AdmitKeepsInv(g: Config, s: State, arrival: Arrival, admission: Admission)
    requires Inv(g, s) && CanAdmit(g, s, arrival, admission)
    ensures Inv(g, Admit(s, admission))
  {
    assert s.num <= g.maxClients;
    hide FdsOk, PhasesOk, RegsOk, BatchOk, ListOk, TimeOk, IdsOk, Ok, Admitted;
    if admission.LetIn? {
      var LetIn(fd, a, fault) := admission;
      AdmittedKeepsFds(g, s, fd, a, fault);
      AdmittedKeepsPhases(g, s, fd, a, fault);
      AdmittedKeepsView(g, s, fd, a, fault);
      AdmittedKeepsList(g, s, fd, a, fault);
      AdmittedKeepsRest(g, s, fd, a, fault);
    }
  }

  lemma {:induction false} AdmitAllKeepsInv(g: Config, s: State, arrivals: seq<Arrival>, log: seq<Admission>)
    requires Inv(g, s) && CanAdmitAll(g, s, arrivals, log)
    ensures Inv(g, AdmitAll(s, log))
    decreases |log|
  {
    hide Inv, Admit, CanAdmit;
    if log != [] {
      AdmitKeepsInv(g, s, arrivals[0], log[0]);
      AdmitAllKeepsInv(g, Admit(s, log[0]), arrivals[1..], log[1..]);
    }
  }

  lemma {:induction false} AdmitOneMore(g: Config, s: State, arrivals: seq<Arrival>, log: seq<Admission>,
                                        arrival: Arrival, admission: Admission)
    requires CanAdmitAll(g, s, arrivals, log) && CanAdmit(g, AdmitAll(s, log), arrival, admission)
    ensures CanAdmitAll(g, s, arrivals + [arrival], log + [admission])
    ensures AdmitAll(s, log + [admission]) == Admit(AdmitAll(s, log), admission)
    decreases |log|
  {
    hide Admit, CanAdmit;
    if log == [] {
      assert ([] + [admission])[1..] == [] && ([] + [arrival])[1..] == [];
    } else {
      assert (log + [admission])[1..] == log[1..] + [admission];
      assert (arrivals + [arrival])[1..] == arrivals[1..] + [arrival];
      AdmitOneMore(g, Admit(s, log[0]), arrivals[1..], log[1..], arrival, admission);
    }
  }

  // ---- The sweep --------------------------------------------------------------------------------------------

  /** What TCP_INFO says of a client with a process, and whether its process can be signalled. */
  datatype Verdict = Verdict(unknown: bool, lastSent: nat, kills: bool)

  function VerdictOn(verdicts: map<Addr, Verdict>, a: Addr): Verdict {
    if a in verdicts then verdicts[a] else Verdict(false, 0, true)
  }

  predicate Expired(g: Config, s: State, a: Addr)
    requires a in s.clients
  {
    s.clock - s.clients[a].timestamp >= g.timeout
  }

  predicate Idle(g: Config, v: Verdict) {
    v.unknown || v.lastSent >= g.timeout * 1000
  }

  /** The clients a sweep disconnects. */
  predicate Doomed(g: Config, s: State, a: Addr, v: Verdict)
    requires a in s.clients
  {
    Expired(g, s, a) && (s.clients[a].pidfd < 0 || (Idle(g, v) && !v.kills))
  }

  /** The body of the loop over the client list. */
  ghost function SweepOne(g: Config, s: State, a: Addr, v: Verdict): State
    requires Connected(s, a) && InPhase(s.clients[a], s.open)
  {
    if !Expired(g, s, a) then s
    else if s.clients[a].pidfd >= 0 then
      if Idle(g, v) then KillOrDrop(s, a, v.kills) else s
    else Dropped(s, a, if s.clients[a].sentsize == 0 then Some(RequestTimeout) else None)
  }

  lemma SweepOneKeepsInv(g: Config, s: State, a: Addr, v: Verdict)
    requires Inv(g, s) && Connected(s, a) && InPhase(s.clients[a], s.open)
    ensures Inv(g, SweepOne(g, s, a, v))
  {
    var c := s.clients[a];
    if c.pidfd < 0 && c.sentsize == 0 && c.file >= 0 {
      assert s.open[c.file].what.content[..0] == [];
    }
    assert c.pidfd < 0 && c.sentsize == 0 ==> Out(s, a) == Output([], []);
    assert c.pidfd >= 0 ==> CanKill(s, a);
    hide Inv, InPhase, HasSocket, Reading, Sending, Running, KillOrDrop, Dropped;
    if Expired(g, s, a) {
      if c.pidfd >= 0 {
        KillOrDropKeepsInv(g, s, a, v.kills);
      } else {
        DroppedKeepsInv(g, s, a, if c.sentsize == 0 then Some(RequestTimeout) else None);
      }
    }
  }

  /** One turn touches no client but its own, and drops it exactly when it is doomed. */
  lemma SweepOneSpares(g: Config, s: State, a: Addr, v: Verdict)
    requires Connected(s, a) && InPhase(s.clients[a], s.open)
    ensures var t := SweepOne(g, s, a, v);
      && t.clients == (if Doomed(g, s, a, v) then s.clients - {a} else s.clients)
      && t.clock == s.clock && t.swept == s.swept
  {
  }

  /** Clients still to be looked at. */
  ghost predicate Sweepable(s: State, todo: seq<Addr>) {
    Distinct(todo) && forall k :: 0 <= k < |todo| ==> todo[k] in s.clients
  }

  lemma AllAreSweepable(g: Config, s: State)
    requires Inv(g, s)
    ensures Sweepable(s, s.list) && forall a :: a in s.clients ==> a in s.list
  {
    hide FdsOk, PhasesOk, RegsOk, BatchOk, TimeOk, IdsOk, Ok;
  }

  /** A turn of the sweep leaves everything in order and the other clients to be looked at. */
  lemma SweepGoesOn(g: Config, s: State, todo: seq<Addr>, v: Verdict)
    requires Inv(g, s) && Sweepable(s, todo) && todo != []
    ensures Connected(s, todo[0]) && InPhase(s.clients[todo[0]], s.open)
    ensures var t := SweepOne(g, s, todo[0], v); Inv(g, t) && Sweepable(t, todo[1..])
  {
    hide Inv, SweepOne, InPhase, HasSocket, Doomed;
    InPhaseOf(g, s, todo[0]);
    SweepOneKeepsInv(g, s, todo[0], v);
    SweepOneSpares(g, s, todo[0], v);
  }

  ghost function Sweep(g: Config, s: State, todo: seq<Addr>, verdicts: map<Addr, Verdict>): State
    requires Inv(g, s) && Sweepable(s, todo)
    decreases |todo|
  {
    if todo == [] then s
    else
      var v := VerdictOn(verdicts, todo[0]);
      SweepGoesOn(g, s, todo, v);
      Sweep(g, SweepOne(g, s, todo[0], v), todo[1..], verdicts)
  }

  /** A sweep disconnects exactly the doomed clients and changes nothing about the others. */
  lemma {:induction false} SweepDropsDoomed(g: Config, s: State, todo: seq<Addr>, verdicts: map<Addr, Verdict>)
    requires Inv(g, s) && Sweepable(s, todo)
    ensures var t := Sweep(g, s, todo, verdicts);
      && Inv(g, t) && t.clock == s.clock && t.swept == s.swept
      && (forall b :: b in t.clients <==> b in s.clients && !(b in todo && Doomed(g, s, b, VerdictOn(verdicts, b))))
      && (forall b :: b in t.clients ==> t.clients[b] == s.clients[b])
    decreases |todo|
  {
    hide Inv, InPhase, HasSocket, SweepOne;
    if todo != [] {
      var a := todo[0];
      var v := VerdictOn(verdicts, a);
      SweepGoesOn(g, s, todo, v);
      SweepOneSpares(g, s, a, v);
      SweepDropsDoomed(g, SweepOne(g, s, a, v), todo[1..], verdicts);
      assert todo == [a] + todo[1..];
    }
  }

  /** server_timer. */
  ghost function Timer(g: Config, s: State, verdicts: map<Addr, Verdict>): State
    requires Inv(g, s)
  {
    AllAreSweepable(g, s);
    Sweep(g, s, s.list, verdicts).(swept := s.clock)
  }

  /** After a sweep no client without a process has been idle for the timeout, and only clients
      that had been are gone. */
  lemma TimerKeepsInv(g: Config, s: State, verdicts: map<Addr, Verdict>)
    requires Inv(g, s)
    ensures var t := Timer(g, s, verdicts);
      && Inv(g, t)
      && (forall a :: a in t.clients && t.clients[a].pidfd < 0 ==> t.clock - t.clients[a].timestamp < g.timeout)
      && (forall a :: a in s.clients && s.clock - s.clients[a].timestamp < g.timeout ==>
           a in t.clients && t.clients[a] == s.clients[a])
  {
    hide Inv, Sweep, Sweepable, Distinct;
    AllAreSweepable(g, s);
    SweepDropsDoomed(g, s, s.list, verdicts);
    SweptIsOk(g, Sweep(g, s, s.list, verdicts));
  }

  lemma SweptIsOk(g: Config, s: State)
    requires Inv(g, s)
    requires forall a :: a in s.clients && s.clients[a].pidfd < 0 ==> s.clock - s.clients[a].timestamp < g.timeout
    ensures Inv(g, s.(swept := s.clock))
  {
    hide InPhase, HasSocket, Ok;
  }
}
