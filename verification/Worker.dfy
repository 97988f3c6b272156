/** The handlers of server.c, over the event loop, the client list and the descriptors of a process. */
module Worker {
  import opened Bytes
  import opened Lists
  import opened Registry
  import opened Request
  import opened Selectors
  import opened Sepoll
  import opened Signals
  import opened ServerState
  import opened ServerRuns
  import opened Scripts
  import opened WorkerFacts

  /** The system calls on descriptors. */
  class Kernel {
    var open: map<int, Held>
    var clock: int
    const limit: nat
    /** The processes asked to be killed, by their descriptors. */
    ghost var killed: seq<int>

    constructor (open: map<int, Held>, clock: int, limit: nat)
      ensures this.open == open && this.clock == clock && this.limit == limit && killed == []
    {
      this.open, this.clock, this.limit, killed := open, clock, limit, [];
    }

    /** A new descriptor: any number not in use. There must be room for it. */
    method Allocate(held: Held) returns (fd: int)
      requires |open| < limit
      modifies this`open
      ensures fd >= 0 && fd !in old(open) && open == old(open)[fd := held]
    {
      var used := set n: nat | n in open.Keys;
      SomeFreeAddress(used);
      fd :| fd >= 0 && fd !in open;
      open := open[fd := held];
    }

    /** The clock moves on. */
    method Tick(now: int)
      modifies this`clock
      ensures clock == if now < old(clock) then old(clock) else now
    {
      clock := if now < clock then clock else now;
    }

    /** Bookkeeping: for whom a descriptor is held. */
    method Assign(fd: int, owner: Owner)
      requires fd in open
      modifies this`open
      ensures open == old(open)[fd := old(open[fd]).(owner := owner)]
    {
      open := open[fd := open[fd].(owner := owner)];
    }

    /** close: what is closed must be open. */
    method Close(fd: int)
      requires fd in open
      modifies this`open
      ensures open == old(open) - {fd}
    {
      open := open - {fd};
    }

    /** dprintf of an error message on a socket. */
    method Print(fd: int, m: Message)
      requires fd in open && open[fd].what.Socket?
      modifies this`open
      ensures var out := old(open[fd]).what.out;
        open == old(open)[fd := old(open[fd]).(what := Socket(out.(errors := out.errors + [m])))]
    {
      var out := open[fd].what.out;
      open := open[fd := open[fd].(what := Socket(out.(errors := out.errors + [m])))];
    }

    /** sendfile: the bytes of the file from the offset on, as many as the answer allows but at
        least one if one is asked for; or -1. */
    method SendFile(socket: int, file: int, offset: nat, count: nat, answer: SendAnswer) returns (n: int)
      requires socket in open && open[socket].what.Socket?
      requires file in open && open[file].what.File? && offset + count <= |open[file].what.content|
      modifies this`open
      ensures n == if answer.Sent? then Min(count, if answer.limit == 0 then 1 else answer.limit) else -1
      ensures var held := old(open[socket]);
        var sent := if n < 0 then [] else old(open[file]).what.content[offset..offset + n];
        open == old(open)[socket := held.(what := Socket(held.what.out.(bytes := held.what.out.bytes + sent)))]
    {
      n := if answer.Sent? then Min(count, if answer.limit == 0 then 1 else answer.limit) else -1;
      var held := open[socket];
      var sent := if n < 0 then [] else open[file].what.content[offset..offset + n];
      open := open[socket := held.(what := Socket(held.what.out.(bytes := held.what.out.bytes + sent)))];
    }

    /** pidfd_send_signal with SIGKILL. */
    method Kill(fd: int, kills: bool) returns (r: int)
      requires fd in open && open[fd].what.Process?
      modifies this`open, this`killed
      ensures r == (if kills then 0 else -1) && killed == old(killed) + [fd]
      ensures open == if kills then old(open)[fd := old(open[fd]).(what := old(open[fd]).what.(killed := true))]
                      else old(open)
    {
      r := if kills then 0 else -1;
      killed := killed + [fd];
      if kills {
        open := open[fd := open[fd].(what := open[fd].what.(killed := true))];
      }
    }
  }

  class Server {
    const g: Config
    const kernel: Kernel
    const loop: Loop<Handler>
    const clients: IntrusiveList
    /** The client structures allocated, by address. */
    var mem: map<Addr, Client>
    var numClients: nat
    /** Bookkeeping: how many connections were accepted, and what became of those that ended. */
    var accepted: nat
    ghost var departed: seq<Departed>
    ghost var swept: int

    ghost predicate Valid()
      reads loop, loop.gc, clients
    {
      && loop.Valid() && clients.Valid()
      && loop.gc != clients
      && kernel.limit == g.Limit()
    }

    ghost function Now(): State
      reads this, kernel, loop, clients
    {
      State(loop.view, kernel.open, mem, clients.order, numClients, kernel.clock, swept, accepted, departed)
    }

    /** The set-up of server_process: the event loop watches the server's own three descriptors, as
        far as the calls succeed. */
    constructor (g: Config, now: int, faults: (Fault, Fault, Fault))
      requires g.Ok()
      ensures Valid() && this.g == g && Now() == Initial(g, loop.view, now) && CoreRegs(g, loop.view)
      ensures faults == (NoFault, NoFault, NoFault) ==> loop.view.regs.Keys == {g.sigfd, g.timerfd, g.listener}
      ensures fresh(kernel) && fresh(loop) && fresh(loop.gc) && fresh(clients)
    {
      hide TablesAgree, BatchAgrees, Linked, Ok, CoreRegs, Apply, CoreFds, Watched;
      this.g := g;
      kernel := new Kernel(CoreFds(g), now, g.Limit());
      loop := new Loop(g.maxClients + 3, Event(Ready(false, false, false, false), 0));
      clients := new IntrusiveList();
      mem, numClients, accepted, departed, swept := map[], 0, 0, [], now;
      new;
      WatchedIsCore(g, loop.view, faults);
      Watch(faults);
    }

    method Watch(faults: (Fault, Fault, Fault))
      requires Valid()
      modifies loop
      ensures Valid() && loop.view == Watched(g, old(loop.view), faults)
    {
      hide TablesAgree, BatchAgrees, Linked, Ok, Apply, Result;
      var edge := Mask(true, false, true);
      var ignored := loop.Add(g.sigfd, edge, OnSignal, faults.0);
      ignored := loop.Add(g.timerfd, EXITING, OnTimer, faults.1);
      ignored := loop.Add(g.listener, edge, OnListen, faults.2);
    }

    /** close, of a descriptor that is not or no longer in the event loop. */
    method Close(fd: int)
      requires fd in kernel.open && fd !in loop.view.regs
      modifies kernel
      ensures kernel.open == old(kernel.open) - {fd} && kernel.clock == old(kernel.clock)
      ensures kernel.killed == old(kernel.killed)
    {
      kernel.Close(fd);
    }

    method CloseIfOpen(fd: int)
      requires fd >= 0 ==> fd in kernel.open && fd !in loop.view.regs
      modifies kernel
      ensures kernel.open == old(kernel.open) - One(fd) && kernel.clock == old(kernel.clock)
      ensures kernel.killed == old(kernel.killed)
    {
      if fd >= 0 {
        Close(fd);
      }
    }

    /** sepoll_remove and close. */
    method Retire(fd: int)
      requires Valid() && fd in kernel.open
      modifies kernel, loop`heap, loop`tree, loop`interest, loop`serials, loop`view, loop.gc
      ensures Valid() && kernel.open == old(kernel.open) - {fd} && kernel.clock == old(kernel.clock)
      ensures kernel.killed == old(kernel.killed)
      ensures loop.view == old(loop.view).(regs := old(loop.view).regs - {fd})
    {
      hide TablesAgree, BatchAgrees, Linked, Ok;
      var ignored := loop.Remove(fd);
      assert loop.view.regs == old(loop.view).regs - {fd};
      Close(fd);
    }

    method RetireIfOpen(fd: int)
      requires Valid() && (fd >= 0 ==> fd in kernel.open)
      modifies kernel, loop`heap, loop`tree, loop`interest, loop`serials, loop`view, loop.gc
      ensures Valid() && kernel.open == old(kernel.open) - One(fd) && kernel.clock == old(kernel.clock)
      ensures kernel.killed == old(kernel.killed)
      ensures loop.view == old(loop.view).(regs := old(loop.view).regs - One(fd))
    {
      hide TablesAgree, BatchAgrees, Linked, Ok;
      if fd >= 0 {
        Retire(fd);
      } else {
        assert kernel.open - One(fd) == kernel.open && loop.view.regs - One(fd) == loop.view.regs;
      }
    }

    /** The descriptors of a client: taken out of the event loop, then closed. */
    method Release(c: Client, ghost a: Addr)
      requires Valid() && Disconnectable(Now(), a) && c == mem[a]
      modifies kernel, loop`heap, loop`tree, loop`interest, loop`serials, loop`view, loop.gc
      ensures Valid() && kernel.clock == old(kernel.clock) && kernel.killed == old(kernel.killed)
      ensures kernel.open == CloseAll(old(kernel.open), c) && loop.view == Unregister(old(loop.view), c)
    {
      hide TablesAgree, BatchAgrees, Linked, Ok, CloseAll, Unregister;
      CloseInSteps(kernel.open, loop.view, c);
      CloseIfOpen(c.file);
      CloseIfOpen(c.dirfd);
      RetireIfOpen(c.pidfd);
      Retire(c.socket);
    }

    /** client_disconnect. */
    method Disconnect(a: Addr)
      requires Valid() && Disconnectable(Now(), a)
      modifies this, kernel, loop`heap, loop`tree, loop`interest, loop`serials, loop`view, loop.gc, clients
      ensures Valid() && Now() == Gone(old(Now()), a) && kernel.killed == old(kernel.killed)
    {
      hide TablesAgree, BatchAgrees, Linked, Ok, Without, CloseAll, Unregister, Distinct;
      var c := mem[a];
      departed := departed + [Departed(c.id, OutputOf(c, kernel.open))];
      Release(c, a);
      clients.Remove(a);
      mem := mem - {a};
      numClients := numClients - 1;
    }

    lemma PrintKeeps(s: State, a: Addr, m: Message)
      requires Disconnectable(s, a)
      ensures Disconnectable(Replied(s, a, m), a)
    {
    }

    /** An error message, if any, and client_disconnect. */
    method Drop(a: Addr, m: Option<Message>)
      requires Valid() && Disconnectable(Now(), a)
      modifies this, kernel, loop`heap, loop`tree, loop`interest, loop`serials, loop`view, loop.gc, clients
      ensures Valid() && Now() == Dropped(old(Now()), a, m) && kernel.killed == old(kernel.killed)
    {
      hide TablesAgree, BatchAgrees, Linked, Ok, Gone;
      if m.Some? {
        PrintKeeps(Now(), a, m.value);
        hide Disconnectable;
        kernel.Print(mem[a].socket, m.value);
        assert Now() == Replied(old(Now()), a, m.value);
        Disconnect(a);
      } else {
        Disconnect(a);
      }
    }

    /** The way out of a request that cannot be served. */
    method Refuse(a: Addr, m: Option<Message>, ghost s: State)
      requires Valid() && Ripe(g, s, a) && Opening(s, Now(), a) && a in mem
      modifies this, kernel, loop`heap, loop`tree, loop`interest, loop`serials, loop`view, loop.gc, clients
      ensures Valid() && Now() == Dropped(s, a, m)
    {
      hide TablesAgree, BatchAgrees, Linked, Ok, Dropped, Ripe, Opening;
      OpeningIsDisconnectable(g, s, Now(), a);
      DroppingUndoesOpening(g, s, Now(), a, m);
      Drop(a, m);
    }

    /** EPOLLIN: read the request, find what it asks for, and send it, run it, or refuse. */
    method OnRequest(a: Addr, env: Env) returns (fd: int)
      requires Valid() && Ripe(g, Now(), a)
      modifies this, kernel, loop`heap, loop`tree, loop`interest, loop`serials, loop`view, loop.gc, clients
      ensures Valid() && FreshFd(old(Now()), env, fd) && Now() == OnReadable(old(Now()), a, env, fd)
    {
      hide TablesAgree, BatchAgrees, Linked, Ok, Dropped, Inv, Opening, OnOwnSocket, Resolve, Parse, Disconnectable;
      ghost var s := Now();
      fd := -1;
      var buffer := new Byte[MAX_REQUEST_SIZE];
      var inbox := new Inbox(env.queued, env.ending, env.chunks);
      var received := ReadRequest(inbox, buffer);
      match received
      case Lost(ending) =>
        InOrderIsDisconnectable(g, s, a);
        Drop(a, if ending == ReadError then Some(InternalError) else None);
      case Data(bytes) =>
        CountIsOpening(g, s, a, |bytes|);
        mem := mem[a := mem[a].(count := |bytes|)];
        assert Now() == s.(clients := s.clients[a := s.clients[a].(count := |bytes|)]);
        var request := Parse(buffer[..|bytes|]);
        if request == None {
          Refuse(a, Some(BadRequest), s);
        } else {
          SelectorFits(bytes);
          fd := ServeRequest(a, env, request.value, s);
        }
    }

    method ServeRequest(a: Addr, env: Env, request: Parsed, ghost s: State) returns (fd: int)
      requires Valid() && Ripe(g, s, a) && Opening(s, Now(), a) && a in mem
      requires mem[a].file == -1 && mem[a].dirfd == -1
      requires |request.selector| <= MAX_REQUEST_SIZE - 2
      modifies this, kernel, loop`heap, loop`tree, loop`interest, loop`serials, loop`view, loop.gc, clients
      ensures Valid()
      ensures var outcome := if Accepted(request.selector) then Resolve(env, request) else Outcome.Drop(Some(Forbidden));
        (outcome.Drop? || (fd >= 0 && fd !in s.open))
        && Now() == After(s, a, outcome, old(mem[a].count), env.fault, fd)
    {
      hide TablesAgree, BatchAgrees, Linked, Ok, Dropped, Ripe, Opening, Normal, Accepted, Disconnectable;
      var filename := new Byte[MAX_FILENAME_SIZE];
      var ok, end := Normalise(request.selector, filename);
      fd := -1;
      if !ok {
        Refuse(a, Some(Forbidden), s);
        return;
      }
      NormalIsPrefix(request.selector, filename[..], end);
      fd := OpenRequested(a, env, request, filename, end, s);
    }

    /** openat for client a, which puts the new descriptor in its file field. */
    method OpenFile(a: Addr, stat: Stat, ghost s: State)
      requires Valid() && Ripe(g, s, a) && Opening(s, Now(), a) && a in mem && mem[a].file == -1
      modifies this`mem, kernel
      ensures Valid() && Opening(s, Now(), a) && a in mem && mem[a].file >= 0
      ensures Now() == WithFile(old(Now()), a, mem[a].file, ThingOf(stat))
    {
      hide TablesAgree, BatchAgrees, Linked, Ok, Ripe;
      RoomForOneMore(g, s, Now(), a);
      hide Opening;
      var file := kernel.Allocate(Held(ForClient(a), ThingOf(stat)));
      FileIsOpening(s, old(Now()), a, file, ThingOf(stat));
      mem := mem[a := mem[a].(file := file)];
    }

    method OpenRequested(a: Addr, env: Env, request: Parsed, filename: array<Byte>, end: nat, ghost s: State)
      returns (fd: int)
      requires Valid() && Ripe(g, s, a) && Opening(s, Now(), a) && a in mem
      requires mem[a].file == -1 && mem[a].dirfd == -1
      requires filename.Length == MAX_FILENAME_SIZE && end + 2 <= MAX_FILENAME_SIZE
      requires filename[..end] == Normal(request.selector) && filename[end] == NUL
      requires CStr(filename[..]) == Opened(request.selector)
      requires CStr(filename[1..]) == ScriptName(request.selector, false)
      modifies this, kernel, loop`heap, loop`tree, loop`interest, loop`serials, loop`view, loop.gc, clients, filename
      ensures Valid()
      ensures var outcome := Resolve(env, request);
        (outcome.Drop? || (fd >= 0 && fd !in s.open))
        && Now() == After(s, a, outcome, old(mem[a].count), env.fault, fd)
    {
      hide TablesAgree, BatchAgrees, Linked, Ok, Dropped, Ripe, Opening, Normal, CStr, ScriptName, Disconnectable;
      fd := -1;
      var path := CStr(filename[..]);
      match Find(env.files, path)
      case Absent(error) => Refuse(a, Some(OpenReply(error)), s);
      case Present(stat) =>
        OpenFile(a, stat, s);
        match stat
        case StatError => Refuse(a, Some(InternalError), s);
        case Stat(kind, executable, content) =>
          match kind
          case OtherKind => Refuse(a, Some(Forbidden), s);
          case RegularFile => fd := Launch(a, env, request, false, stat, filename, s);
          case DirectoryFile => fd := OpenIndex(a, env, request, filename, end, s);
    }

    /** A directory: keep it open in dirfd and look for its index file. */
    method OpenIndex(a: Addr, env: Env, request: Parsed, filename: array<Byte>, end: nat, ghost s: State)
      returns (fd: int)
      requires Valid() && Ripe(g, s, a) && Opening(s, Now(), a) && a in mem
      requires mem[a].dirfd == -1
      requires filename.Length == MAX_FILENAME_SIZE && end + 2 <= MAX_FILENAME_SIZE
      requires filename[..end] == Normal(request.selector)
      requires CStr(filename[..]) == Opened(request.selector)
      modifies this, kernel, loop`heap, loop`tree, loop`interest, loop`serials, loop`view, loop.gc, clients, filename
      ensures Valid()
      ensures var outcome := ResolveIndex(env, request, Opened(request.selector));
        (outcome.Drop? || (fd >= 0 && fd !in s.open))
        && Now() == After(s, a, outcome, old(mem[a].count), env.fault, fd)
    {
      hide TablesAgree, BatchAgrees, Linked, Ok, Dropped, Ripe, Opening, Normal, CStr, ScriptName, Disconnectable;
      fd := -1;
      DirectoryIsOpening(s, Now(), a);
      var path := CStr(filename[..]);
      mem := mem[a := mem[a].(dirfd := mem[a].file, file := -1)];
      assert Now() == WithDirectory(old(Now()), a);
      match Find(env.indexes, path)
      case Absent(error) => Refuse(a, Some(OpenReply(error)), s);
      case Present(stat) =>
        OpenFile(a, stat, s);
        match stat
        case StatError => Refuse(a, Some(InternalError), s);
        case Stat(kind, executable, content) =>
          if kind != RegularFile {
            Refuse(a, Some(Forbidden), s);
          } else {
            var newEnd := CopyTo(filename, end, [SLASH]);
            filename[newEnd] := NUL;
            MarkedIsPrefix(request.selector, filename[..], newEnd);
            fd := Launch(a, env, request, true, stat, filename, s);
          }
    }

    /** The file of client a is open: run it if it may be executed, or get ready to send it. */
    method Launch(a: Addr, env: Env, request: Parsed, directory: bool, stat: Stat, filename: array<Byte>, ghost s: State)
      returns (fd: int)
      requires Valid() && Ripe(g, s, a) && Opening(s, Now(), a) && a in mem && mem[a].file >= 0
      requires stat.Stat? && stat.kind == RegularFile
      requires mem[a].file in kernel.open && kernel.open[mem[a].file] == Held(ForClient(a), File(stat.content))
      requires filename.Length == MAX_FILENAME_SIZE && CStr(filename[1..]) == ScriptName(request.selector, directory)
      modifies this, kernel, loop`heap, loop`tree, loop`interest, loop`serials, loop`view, loop.gc, clients
      ensures Valid()
      ensures var outcome := Deliver(env, request, directory, stat);
        (outcome.Drop? || (fd >= 0 && fd !in s.open))
        && Now() == After(s, a, outcome, old(mem[a].count), env.fault, fd)
    {
      hide TablesAgree, BatchAgrees, Linked, Ok, Dropped, Ripe, Opening, CStr, ScriptName, Disconnectable;
      ghost var t := Now();
      if stat.executable {
        if !env.forks {
          fd := -1;
          Refuse(a, Some(InternalError), s);
          return;
        }
        fd := Spawn(a, CStr(filename[1..]), CStr(request.query), env.fault, s);
      } else {
        fd := mem[a].file;
        SendLater(a, stat.content, s);
      }
    }

    lemma LimitIsKept()
      requires Valid()
      ensures kernel.limit == g.Limit()
    {
    }

    /** A process for client a: its file is no longer needed, and its socket only reports errors. */
    method Spawn(a: Addr, script: Bytes, query: Bytes, fault: Fault, ghost s: State) returns (fd: int)
      requires Valid() && Ripe(g, s, a) && Opening(s, Now(), a) && a in mem && mem[a].file >= 0
      modifies this`mem, kernel, loop`heap, loop`tree, loop`interest, loop`serials, loop`view
      ensures Valid() && fd >= 0 && fd !in s.open
      ensures Now() == Spawned(s, a, old(mem[a].count), script, query, fault, fd)
    {
      hide Valid, Ripe, Opening, Apply, Result, Spawned, One;
      ghost var t := Now();
      LimitIsKept();
      OpenForProcess(g, s, t, a);
      RoomForOneMore(g, s, t, a);
      var c := mem[a];
      fd := kernel.Allocate(Held(ForClient(a), Process(script, query, false)));
      SpawnedIs(g, s, t, a, script, query, fault, fd);
      mem := mem[a := c.(pidfd := fd)];
      Close(c.file);
      mem := mem[a := mem[a].(file := -1)];
      Repoll(c.socket, RUNNING);
      Poll(fd, EXITING, OnProcess(a), fault);
      DropDirectory(a, c.dirfd);
      assert mem == t.clients[a := c.(file := -1, dirfd := -1, pidfd := fd, timestamp := t.clock)];
    }

    method Repoll(fd: int, mask: Mask)
      requires Valid()
      modifies loop`heap, loop`interest, loop`view
      ensures Valid() && loop.view == Apply(old(loop.view), Op<Handler>.ModEvents(fd, mask, false))
      ensures loop.view.regs.Keys == old(loop.view).regs.Keys
    {
      hide TablesAgree, BatchAgrees, Linked, Ok;
      var ignored := loop.ModEvents(fd, mask, false);
    }

    method Poll(fd: int, mask: Mask, handler: Handler, fault: Fault)
      requires Valid()
      modifies loop`heap, loop`tree, loop`interest, loop`serials, loop`view
      ensures Valid() && loop.view == Apply(old(loop.view), Op.Add(fd, mask, handler, fault))
      ensures forall x :: x in loop.view.regs ==> x == fd || x in old(loop.view).regs
    {
      hide TablesAgree, BatchAgrees, Linked, Ok;
      var ignored := loop.Add(fd, mask, handler, fault);
    }

    /** The end of a request: a directory is no longer needed, and the clock is looked at. */
    method DropDirectory(a: Addr, dirfd: int)
      requires a in mem && mem[a].dirfd == dirfd
      requires dirfd >= 0 ==> dirfd in kernel.open && dirfd !in loop.view.regs
      requires dirfd < 0 ==> dirfd == -1
      modifies this`mem, kernel
      ensures kernel.open == old(kernel.open) - One(dirfd) && kernel.clock == old(kernel.clock)
      ensures mem == old(mem)[a := old(mem)[a].(dirfd := -1, timestamp := kernel.clock)]
    {
      CloseIfOpen(dirfd);
      mem := mem[a := mem[a].(dirfd := -1, timestamp := kernel.clock)];
    }

    /** The file is to be sent as soon as the socket takes it. */
    method SendLater(a: Addr, content: Bytes, ghost s: State)
      requires Valid() && Ripe(g, s, a) && Opening(s, Now(), a) && a in mem && mem[a].file >= 0
      requires mem[a].file in kernel.open && kernel.open[mem[a].file] == Held(ForClient(a), File(content))
      modifies this`mem, kernel, loop`heap, loop`tree, loop`interest, loop`serials, loop`view
      ensures Valid() && old(mem[a].file) !in s.open
      ensures Now() == ServerState.Serving(s, a, old(mem[a].count), content, old(mem[a].file))
    {
      hide TablesAgree, BatchAgrees, Linked, Ok, Ripe, Opening, Apply, Result, ServerState.Serving;
      ghost var t := Now();
      OpenAreUnpolled(g, s, t, a);
      ServedIs(g, s, t, a, content);
      var c := mem[a];
      mem := mem[a := c.(filesize := Some(|content|))];
      Repoll(c.socket, SENDING);
      DropDirectory(a, c.dirfd);
      assert mem == t.clients[a := c.(filesize := Some(|content|), dirfd := -1, timestamp := t.clock)];
    }

    // ---- The other events of a client -----------------------------------------------------------

    /** One sendfile of what is left of the file. */
    method SendOnce(a: Addr, answer: SendAnswer) returns (sent: int)
      requires Valid() && CanSend(Now(), a)
      modifies this`mem, kernel
      ensures Valid()
      ensures var left := old(mem[a]).filesize.value - old(mem[a]).sentsize;
        && sent == (if answer.Sent? then Min(left, if answer.limit == 0 then 1 else answer.limit) else -1)
        && sent <= left
      ensures old(mem[a].sentsize) + (if sent < 0 then 0 else sent) <= |old(kernel.open[mem[a].file]).what.content|
      ensures Now() == Advanced(old(Now()), a, if sent < 0 then 0 else sent)
    {
      hide TablesAgree, BatchAgrees, Linked, Ok, Advanced;
      var c := mem[a];
      ghost var s := Now();
      SendOfNothing(s, a);
      sent := kernel.SendFile(c.socket, c.file, c.sentsize, c.filesize.value - c.sentsize, answer);
      if sent >= 0 {
        SendAdvances(s, a, sent);
        mem := mem[a := c.(sentsize := c.sentsize + sent)];
      }
    }

    /** sendfile until the file is out, the socket blocks, or it fails. */
    method SendLoop(a: Addr, sends: seq<SendAnswer>) returns (ghost moved: nat, stop: Stop)
      requires Valid() && CanSend(Now(), a)
      modifies this`mem, kernel
      ensures Valid() && (moved, stop) == Moves(old(Now()), a, sends) && Now() == Advanced(old(Now()), a, moved)
    {
      hide TablesAgree, BatchAgrees, Linked, Ok, Advanced, Transfer, Underway;
      ghost var s, n := Now(), mem[a].filesize.value - mem[a].sentsize;
      SendOfNothing(s, a);
      moved := 0;
      StartUnderway(sends, n);
      var k := 0;
      while true
        invariant Valid() && moved <= n && k <= |sends| && CanSend(Now(), a)
        invariant Now() == Advanced(s, a, moved) && Underway(sends, n, moved, sends[k..])
        decreases |sends| - k
      {
        AdvancedKeeps(s, a, moved);
        SendTurn(sends, n, moved, sends[k..]);
        var c := mem[a];
        var answer := if k == |sends| then Sent(c.filesize.value - c.sentsize) else sends[k];
        var sent := SendOnce(a, answer);
        AdvancedTwice(s, a, moved, if sent < 0 then 0 else sent);
        if sent < 0 {
          return moved, if answer == BrokenPipe then Broken
                        else if answer == SendFailed then Failing
                        else if c.sentsize == c.filesize.value then Finished else Stalled;
        }
        moved := moved + sent;
        if c.sentsize + sent == c.filesize.value {
          return moved, Finished;
        }
        AdvancedKeeps(s, a, moved);
        assert sends[k..][1..] == sends[k + 1..];
        k := k + 1;
      }
    }

    /** EPOLLOUT. */
    method OnSendable(a: Addr, env: Env)
      requires Valid() && Inv(g, Now()) && CanSend(Now(), a)
      modifies this, kernel, loop`heap, loop`tree, loop`interest, loop`serials, loop`view, loop.gc, clients
      ensures Valid() && Now() == OnWritable(old(Now()), a, env)
    {
      hide TablesAgree, BatchAgrees, Linked, Ok, Inv, Advanced, Moves, Gone, Dropped, CanSend, Disconnectable;
      ghost var s := Now();
      var moved, stop := SendLoop(a, env.sends);
      AdvancedKeepsInv(g, s, a, moved);
      SenderIsDisconnectable(g, Now(), a);
      Settle(a, stop);
    }

    method Settle(a: Addr, stop: Stop)
      requires Valid() && CanSend(Now(), a) && Disconnectable(Now(), a)
      modifies this, kernel, loop`heap, loop`tree, loop`interest, loop`serials, loop`view, loop.gc, clients
      ensures Valid() && Now() == Settled(old(Now()), a, stop)
    {
      hide TablesAgree, BatchAgrees, Linked, Ok, Gone, Disconnectable, Replied;
      if stop == Broken {
        Drop(a, None);
      } else if stop == Failing {
        Drop(a, if mem[a].sentsize == 0 then Some(InternalError) else None);
      } else if stop == Stalled && mem[a].sentsize < mem[a].filesize.value {
        mem := mem[a := mem[a].(timestamp := kernel.clock)];
      } else {
        Drop(a, None);
      }
    }

    /** pidfd_kill_client. */
    method KillClient(a: Addr, kills: bool)
      requires Valid() && CanKill(Now(), a) && Disconnectable(Now(), a)
      modifies this, kernel, loop`heap, loop`tree, loop`interest, loop`serials, loop`view, loop.gc, clients
      ensures Valid() && Now() == KillOrDrop(old(Now()), a, kills)
      ensures kernel.killed == old(kernel.killed) + [old(mem[a]).pidfd]
    {
      hide TablesAgree, BatchAgrees, Linked, Ok, Gone, Disconnectable;
      var r := kernel.Kill(mem[a].pidfd, kills);
      if r < 0 {
        Disconnect(a);
      }
    }

    /** client_socket. */
    method ClientSocket(a: Addr, ready: Ready, env: Env) returns (fd: int)
      requires Valid() && Inv(g, Now()) && CanHandle(Now(), a, ready) && (ready.inn ==> OnOwnSocket(Now(), a))
      modifies this, kernel, loop`heap, loop`tree, loop`interest, loop`serials, loop`view, loop.gc, clients
      ensures Valid() && (ready.inn ==> FreshFd(old(Now()), env, fd))
      ensures Now() == ClientEvent(g, old(Now()), a, ready, env, fd)
    {
      hide TablesAgree, BatchAgrees, Linked, Ok, Inv, Decide, OnReadable, OnWritable, Gone, Disconnectable, OnOwnSocket;
      ghost var s := Now();
      fd := -1;
      if ready.inn {
        fd := OnRequest(a, env);
      }
      if ready.out {
        OnSendable(a, env);
      }
      assert Now() == OnData(s, a, ready, env, fd);
      OnDataKeepsInv(g, s, a, ready, env, fd);
      if (ready.err || ready.hup) && a in mem {
        InPhaseOf(g, Now(), a);
        InOrderIsDisconnectable(g, Now(), a);
        if mem[a].pidfd >= 0 {
          KillClient(a, env.kills);
        } else {
          Disconnect(a);
        }
      }
    }

    /** client_pidfd. */
    method ClientPidfd(a: Addr)
      requires Valid() && Inv(g, Now()) && a in mem
      modifies this, kernel, loop`heap, loop`tree, loop`interest, loop`serials, loop`view, loop.gc, clients
      ensures Valid() && Connected(old(Now()), a) && Now() == Gone(old(Now()), a)
    {
      hide TablesAgree, BatchAgrees, Linked, Ok, Inv, Gone;
      InOrderIsDisconnectable(g, Now(), a);
      hide Disconnectable;
      Disconnect(a);
    }

    // ---- Accepting --------------------------------------------------------------------------------

    /** A connection that cannot be served: an error message, and it is closed at once. */
    method TurnAway(fd: int, m: Message) returns (ghost sent: Output)
      requires fd in kernel.open && fd !in loop.view.regs && kernel.open[fd].what == Socket(Output([], []))
      modifies kernel
      ensures sent == Output([], [m]) && kernel.open == old(kernel.open) - {fd} && kernel.clock == old(kernel.clock)
    {
      kernel.Print(fd, m);
      sent := kernel.open[fd].what.out;
      Close(fd);
    }

    /** A client structure for the connection, the event loop to watch it, and a place in the list. */
    method LetClientIn(fd: int, fault: Fault) returns (a: Addr)
      requires Valid() && fd in kernel.open && kernel.open[fd].what == Socket(Output([], []))
      requires forall k :: 0 <= k < |clients.order| ==> clients.order[k] in mem
      modifies this, kernel, loop`heap, loop`tree, loop`interest, loop`serials, loop`view, clients
      ensures Valid() && a !in old(mem) && Now() == Admitted(old(Now()), fd, a, fault)
    {
      hide TablesAgree, BatchAgrees, Linked, Ok, Apply, Result, Distinct;
      SomeFreeAddress(mem.Keys);
      a :| a !in mem;
      mem := mem[a := Client(accepted, fd, kernel.clock, 0, -1, None, 0, -1, -1)];
      kernel.Assign(fd, ForClient(a));
      Poll(fd, READING, OnClient(a), fault);
      clients.InsertHead(a);
      numClients := numClients + 1;
      accepted := accepted + 1;
    }

    /** What accepting may rely on. */
    lemma RoomForAConnection()
      requires Valid() && Inv(g, Now())
      ensures |kernel.open| < kernel.limit
      ensures forall fd :: fd in loop.view.regs ==> fd in kernel.open
      ensures forall k :: 0 <= k < |clients.order| ==> clients.order[k] in mem
    {
      hide TablesAgree, BatchAgrees, Linked, FdsOk, PhasesOk, RegsOk, BatchOk, TimeOk, IdsOk, Ok;
      OpenDescriptors(g, Now());
      RegsAreOpen(g, Now());
    }

    /** One connection accepted. */
    method AcceptOne(arrival: Arrival) returns (ghost admission: Admission)
      requires Valid() && Inv(g, Now())
      modifies this, kernel, loop`heap, loop`tree, loop`interest, loop`serials, loop`view, clients
      ensures Valid() && CanAdmit(g, old(Now()), arrival, admission) && Now() == Admit(old(Now()), admission)
    {
      hide TablesAgree, BatchAgrees, Linked, Ok, Apply, Inv, Distinct;
      RoomForAConnection();
      var fd := kernel.Allocate(Held(TheServer, Socket(Output([], []))));
      if numClients == g.maxClients {
        ghost var sent := TurnAway(fd, Unavailable);
        assert kernel.open == old(kernel.open);
        admission := TurnedAway(sent.errors[0]);
      } else if !arrival.memory {
        ghost var sent := TurnAway(fd, InternalError);
        assert kernel.open == old(kernel.open);
        admission := TurnedAway(sent.errors[0]);
      } else {
        var a := LetClientIn(fd, arrival.fault);
        admission := LetIn(fd, a, arrival.fault);
      }
    }

    /** server_socket. */
    method ServerSocket(ready: Ready, arrivals: seq<Arrival>) returns (ghost log: seq<Admission>)
      requires Valid() && Inv(g, Now())
      modifies this, kernel, loop`heap, loop`tree, loop`interest, loop`serials, loop`view, clients
      ensures Valid() && CanAdmitAll(g, old(Now()), if ready.inn then arrivals else [], log)
      ensures Now() == AdmitAll(old(Now()), log)
    {
      hide TablesAgree, BatchAgrees, Linked, Ok, Inv, CanAdmit, Admit;
      log := [];
      ghost var s := Now();
      if ready.inn {
        for k := 0 to |arrivals|
          invariant Valid() && Inv(g, Now())
          invariant CanAdmitAll(g, s, arrivals[..k], log) && Now() == AdmitAll(s, log)
        {
          ghost var before := Now();
          ghost var admission := AcceptOne(arrivals[k]);
          AdmitKeepsInv(g, before, arrivals[k], admission);
          AdmitOneMore(g, s, arrivals[..k], log, arrivals[k], admission);
          assert arrivals[..k] + [arrivals[k]] == arrivals[..k + 1];
          log := log + [admission];
        }
        assert arrivals[..|arrivals|] == arrivals;
      }
    }

    // ---- The timer ----------------------------------------------------------------------------------

    /** The body of the loop of server_timer. */
    method SweepClient(a: Addr, v: Verdict)
      requires Valid() && Inv(g, Now()) && Connected(Now(), a) && InPhase(mem[a], kernel.open)
      modifies this, kernel, loop`heap, loop`tree, loop`interest, loop`serials, loop`view, loop.gc, clients
      ensures Valid() && Now() == SweepOne(g, old(Now()), a, v)
      ensures kernel.killed == old(kernel.killed) + SignalledAt(g, old(Now()), a, v)
    {
      hide TablesAgree, BatchAgrees, Linked, Ok, Inv, Gone, Killed, Replied;
      InOrderIsDisconnectable(g, Now(), a);
      hide Disconnectable;
      if kernel.clock - mem[a].timestamp >= g.timeout {
        if mem[a].pidfd >= 0 {
          if v.unknown || v.lastSent >= g.timeout * 1000 {
            KillClient(a, v.kills);
          }
        } else {
          Drop(a, if mem[a].sentsize == 0 then Some(RequestTimeout) else None);
        }
      }
    }

    /** server_timer: the next client is read before its predecessor may be freed. */
    method ServerTimer(verdicts: map<Addr, Verdict>)
      requires Valid() && Inv(g, Now())
      modifies this, kernel, loop`heap, loop`tree, loop`interest, loop`serials, loop`view, loop.gc, clients
      ensures Valid() && Now() == Timer(g, old(Now()), verdicts)
      ensures kernel.killed == old(kernel.killed) + Signalled(g, old(Now()), old(clients.order), verdicts)
    {
      hide TablesAgree, BatchAgrees, Linked, Ok, Inv, InPhase, SweepOne, HasSocket, Distinct, Unswept, Halfway, Signalled,
           SignalledAt, Signalling;
      ghost var s, kept, todo := Now(), [], clients.order;
      SweepStarts(g, s, verdicts);
      SignalsAreSent(g, s, verdicts, kernel.killed, []);
      var client := clients.First();
      while client != Null
        invariant Valid() && clients.order == kept + todo && client == PtrAt(todo, 0)
        invariant Halfway(g, s, Now(), kept, todo, verdicts)
        invariant Signalling(g, s, todo, verdicts, old(kernel.killed), kernel.killed)
        decreases |todo|
      {
        var a := client.addr;
        SweepGoesOnFor(g, s, Now(), kept, todo, verdicts);
        SignalTurn(g, s, Now(), todo, verdicts, old(kernel.killed), kernel.killed);
        client := clients.Next(a, |kept|);
        NextOfRest(kept, todo);
        SweepClient(a, VerdictOn(verdicts, a));
        kept := if a in mem then kept + [a] else kept;
        todo := todo[1..];
        StillListed(g, s, Now(), kept, todo, verdicts);
      }
      SweepEnds(g, s, Now(), kept, verdicts);
      SignalsAreSent(g, s, verdicts, old(kernel.killed), kernel.killed);
      swept := kernel.clock;
    }

    // ---- The event loop ---------------------------------------------------------------------------------

    /** server_signal. */
    method ServerSignal(signals: seq<int>)
      requires Valid()
      modifies loop`run, loop`view
      ensures Valid() && Now() == if SIGTERM in signals then Exited(old(Now())) else old(Now())
      ensures loop.run == (old(loop.run) && SIGTERM !in signals)
    {
      hide TablesAgree, BatchAgrees, Linked, Ok;
      for k := 0 to |signals|
        invariant Valid() && Now() == if SIGTERM in signals[..k] then Exited(old(Now())) else old(Now())
        invariant loop.run == (old(loop.run) && SIGTERM !in signals[..k])
      {
        assert signals[..k + 1] == signals[..k] + [signals[k]];
        if signals[k] == SIGTERM {
          loop.Exit();
        }
      }
      assert signals[..|signals|] == signals;
    }

    /** The call of the function pointer of a callback with its arguments. */
    method Call(handler: Handler, ready: Ready, answer: Answer, ghost s: State) returns (ghost step: Step)
      requires Valid() && Inv(g, s) && s.view.pending != [] && Now() == Pop(s)
      requires HandlerOf(s) == Some(handler) && s.view.pending[0].ready == ready
      modifies this, kernel, loop`run, loop`heap, loop`tree, loop`interest, loop`serials, loop`view, loop.gc, clients
      ensures Valid() && Next(g, s, step, Now()) && IsEvent(step) && Uses(step, handler, ready, answer)
    {
      hide TablesAgree, BatchAgrees, Linked, Ok, Inv, CanHandle, OnOwnSocket, ClientEvent, Timer, AdmitAll, CanAdmitAll,
           Gone, Connected, HandlerOf, FreshFd, Next, HasSocket;
      PopKeepsInv(g, s);
      match handler
      case OnSignal =>
        ServerSignal(answer.signals);
        step := Signal(SIGTERM in answer.signals);
        SignalIsNext(g, s, step.term);
      case OnTimer =>
        ServerTimer(answer.verdicts);
        step := Sweeping(answer.verdicts);
        TimerIsNext(g, s, answer.verdicts);
      case OnListen =>
        ghost var log := ServerSocket(ready, answer.arrivals);
        step := Accepting(if ready.inn then answer.arrivals else [], log);
        NoneAdmitted(g, Pop(s), step.arrivals, log);
        ArrivalsAreNext(g, s, step.arrivals, log);
      case OnClient(a) =>
        EventIsExpected(g, s, a);
        var fd := ClientSocket(a, ready, answer.env);
        step := Handling(answer.env, fd);
        EventIsNext(g, s, a, answer.env, fd);
      case OnProcess(a) =>
        ExitIsExpected(g, s, a);
        ExitedIsListed(g, Pop(s), a);
        ClientPidfd(a);
        step := Reaping;
        ExitIsNext(g, s, a);
    }

    /** Event i of the batch. */
    method HandleEvent(i: nat, answer: Answer) returns (ghost step: Step)
      requires Valid() && Inv(g, Now()) && loop.view.pending != [] && loop.at == i
      modifies this, kernel, loop`run, loop`at, loop`heap, loop`tree, loop`interest, loop`serials, loop`view, loop.gc, clients
      ensures Valid() && Next(g, old(Now()), step, Now()) && IsEvent(step) && loop.at == i + 1
      ensures var v := old(loop.view);
        var e := v.pending[0];
        if Live(v, e) then Uses(step, v.regs[e.fd].handler, e.ready, answer) else step == Stale
      ensures Matches(old(Now()), step, answer)
    {
      hide TablesAgree, BatchAgrees, Linked, Ok, Inv, Next, Uses, Matches;
      ghost var s := Now();
      var call := loop.Fetch(i);
      if call.Some? {
        step := Call(call.value.1, call.value.0, answer, s);
        UsesMatch(s, step, answer);
      } else {
        step := Stale;
        StaleIsNext(g, s);
        StaleMatches(s, answer);
      }
    }

    /** Time passes. */
    method Advance(now: int, ghost s: State, ghost trace: Trace, ghost script: Script) returns (ghost trace': Trace)
      requires Valid() && Ran(g, trace, s, Now()) && Follows(trace, s.clock, script, kernel.clock)
      modifies kernel`clock
      ensures Valid() && Ran(g, trace', s, Now()) && Follows(trace', s.clock, Looked(script, now), kernel.clock)
      ensures trace'.steps == trace.steps + [Tick(kernel.clock)] && kernel.clock == Ticked(old(kernel.clock), now)
    {
      hide TablesAgree, BatchAgrees, Linked, Ok, Inv, IsRun, Ran, Reported, Handled, Ticks, Follows, Looked;
      ghost var before := Now();
      RanInv(g, trace, s, Now());
      kernel.Tick(now);
      trace' := Extended(trace, Tick(kernel.clock), Now());
      RanOn(g, trace, s, before, Tick(kernel.clock), Now());
      FollowsTick(trace, s.clock, script, before.clock, now, trace');
    }

    /** One turn of the loop of sepoll_enter. */
    method Round(occasion: Occasion, ghost s: State, ghost trace: Trace, ghost script: Script)
      returns (failed: bool, ghost trace': Trace)
      requires Valid() && Ran(g, trace, s, Now()) && loop.view.pending == []
      requires Follows(trace, s.clock, script, kernel.clock)
      modifies this, kernel, loop, loop.gc, clients
      ensures Valid() && Ran(g, trace', s, Now()) && loop.view.pending == []
      ensures failed ==> !loop.run && trace'.steps != [] && trace'.steps[|trace'.steps| - 1] == Halting
      ensures var looked := Looked(script, occasion.now);
        var said := if failed then looked else Served(Awoken(looked, Conditions(occasion.reports)), occasion.reports);
        Follows(trace', s.clock, said, kernel.clock)
      ensures loop.gc.order == [] && loop.heap.Keys == set fd | fd in loop.tree :: loop.tree[fd]
    {
      hide TablesAgree, BatchAgrees, Linked, Ok, Inv, IsRun, Ran, Next, CanWake, Follows, Looked, Served, Awoken, Conditions;
      trace' := Advance(occasion.now, s, trace, script);
      ghost var looked := Looked(script, occasion.now);
      var ready := Conditions(occasion.reports);
      failed, trace' := Wait(ready, s, trace', looked);
      if !failed {
        trace' := Batch(occasion.reports, s, trace', Awoken(looked, ready));
      }
      loop.Collect();
    }

    /** epoll_wait, and the end of the loop if it fails. */
    method Wait(ready: seq<(int, Ready)>, ghost s: State, ghost trace: Trace, ghost script: Script)
      returns (failed: bool, ghost trace': Trace)
      requires Valid() && Ran(g, trace, s, Now()) && loop.view.pending == []
      requires Follows(trace, s.clock, script, kernel.clock)
      modifies loop`events, loop`run, loop`view, loop`at
      ensures Valid() && Ran(g, trace', s, Now()) && failed == !old(loop.CanReport(ready))
      ensures trace'.steps == trace.steps + [if failed then Halting else Wake(ready)]
      ensures Follows(trace', s.clock, if failed then script else Awoken(script, ready), kernel.clock)
      ensures if failed then !loop.run && loop.view.pending == [] else |loop.view.pending| == |ready| && loop.at == 0
    {
      hide TablesAgree, BatchAgrees, Linked, Ok, Inv, IsRun, Ran, Next, CanWake, Reported, Handled, Ticks, Follows, Awoken;
      loop.ReportsAreWakes(ready);
      ghost var t := Now();
      RanInv(g, trace, s, t);
      failed := !loop.CanReport(ready);
      if failed {
        loop.Exit();
        HaltIsNext(g, t);
        RanOn(g, trace, s, t, Halting, Now());
        trace' := Extended(trace, Halting, Now());
        FollowsNone(trace, s.clock, script, t.clock, trace');
      } else {
        loop.Wait(ready);
        WakeIsNext(g, t, ready);
        RanOn(g, trace, s, t, Wake(ready), Now());
        trace' := Extended(trace, Wake(ready), Now());
        FollowsWake(trace, s.clock, script, t.clock, ready, trace');
      }
    }

    /** The loop over the events of a batch. */
    method Batch(reports: seq<Report>, ghost s: State, ghost trace: Trace, ghost script: Script)
      returns (ghost trace': Trace)
      requires Valid() && Ran(g, trace, s, Now()) && |loop.view.pending| == |reports| && loop.at == 0
      requires Follows(trace, s.clock, script, kernel.clock)
      modifies this, kernel, loop`run, loop`at, loop`heap, loop`tree, loop`interest, loop`serials, loop`view, loop.gc, clients
      ensures Valid() && Ran(g, trace', s, Now()) && loop.view.pending == []
      ensures |trace'.steps| == |trace.steps| + 2 * |reports|
      ensures Follows(trace', s.clock, Served(script, reports), kernel.clock)
    {
      hide TablesAgree, BatchAgrees, Linked, Ok, Inv, IsRun, Ran, Next, Follows, Uses, Live, Matches, Served;
      trace' := trace;
      ServedNone(script, reports);
      for i := 0 to |reports|
        invariant Valid() && Ran(g, trace', s, Now()) && |loop.view.pending| == |reports| - i && loop.at == i
        invariant |trace'.steps| == |trace.steps| + 2 * i
        invariant Follows(trace', s.clock, Served(script, reports[..i]), kernel.clock)
      {
        trace' := ServeEvent(i, reports[i].answer, s, trace', Served(script, reports[..i]));
        ServedOneMore(script, reports, i);
      }
      assert reports[..|reports|] == reports;
    }

    /** Event i of the batch, and the clock before it. */
    method ServeEvent(i: nat, answer: Answer, ghost s: State, ghost trace: Trace, ghost script: Script)
      returns (ghost trace': Trace)
      requires Valid() && Ran(g, trace, s, Now()) && loop.view.pending != [] && loop.at == i
      requires Follows(trace, s.clock, script, kernel.clock)
      modifies this, kernel, loop`run, loop`at, loop`heap, loop`tree, loop`interest, loop`serials, loop`view, loop.gc, clients
      ensures Valid() && Ran(g, trace', s, Now()) && loop.at == i + 1
      ensures loop.view.pending == old(loop.view).pending[1..] && |trace'.steps| == |trace.steps| + 2
      ensures Follows(trace', s.clock, Looked(script, answer.now).(answers := script.answers + [answer]), kernel.clock)
    {
      hide TablesAgree, BatchAgrees, Linked, Ok, Inv, IsRun, Ran, Next, Follows, Uses, Live, Matches, Reported, Handled, Ticks;
      trace' := Advance(answer.now, s, trace, script);
      ghost var t := Now();
      RanInv(g, trace', s, t);
      ghost var step := HandleEvent(i, answer);
      NextPops(g, t, step, Now());
      RanOn(g, trace', s, t, step, Now());
      NextKeepsClock(g, t, step, Now());
      FollowsEvent(trace', s.clock, Looked(script, answer.now), t.clock, t, step, answer, Extended(trace', step, Now()));
      trace' := Extended(trace', step, Now());
    }

    lemma RunsAsSaid()
      requires Valid()
      ensures loop.run == loop.view.run
    {
      hide TablesAgree, BatchAgrees, Linked, Ok;
    }

    /** sepoll_enter with the handlers of the server, over the occasions it meets: whatever they are,
        what the process does is a run of the state machine in which the kernel reports just them. The
        loop goes on to the last of them unless it is asked to exit or waiting fails. */
    method Enter(occasions: seq<Occasion>) returns (retval: int, waits: nat, ghost trace: Trace)
      requires Valid() && Inv(g, Now()) && loop.view.pending == []
      modifies this, kernel, loop, loop.gc, clients
      ensures Valid() && Inv(g, Now()) && loop.view.pending == []
      ensures var s := old(Now()); Ran(g, trace, s.(view := s.view.(run := true)), Now())
      ensures waits <= |occasions| && (loop.run ==> waits == |occasions|)
      ensures retval == 0 || (retval == -1 && !loop.run && waits > 0)
      ensures retval != 0 ==> trace.steps != [] && trace.steps[|trace.steps| - 1] == Halting
      ensures Follows(trace, old(kernel.clock), Spoken(occasions, waits, retval != 0), kernel.clock)
    {
      hide TablesAgree, BatchAgrees, Linked, Ok, Inv, IsRun, Ran, Next, Follows, ScriptOf, Looked, Awoken, Served, Conditions;
      retval, waits := 0, 0;
      StartKeepsInv(g, Now());
      loop.Start();
      ghost var s := Now();
      RanStart(g, s);
      trace := Trace([s], []);
      FollowsNothing(s);
      assert occasions[..0] == [];
      while loop.run && waits < |occasions|
        invariant Valid() && Ran(g, trace, s, Now()) && loop.view.pending == []
        invariant waits <= |occasions| && (retval == 0 || (retval == -1 && !loop.run && waits > 0 && trace.steps != []))
        invariant retval != 0 ==> trace.steps[|trace.steps| - 1] == Halting
        invariant Follows(trace, s.clock, Spoken(occasions, waits, retval != 0), kernel.clock)
        decreases |occasions| - waits
      {
        ScriptGoesOn(occasions, waits);
        var failed;
        failed, trace := Round(occasions[waits], s, trace, ScriptOf(occasions[..waits]));
        if failed {
          retval := -1;
        }
        waits := waits + 1;
      }
      RanInv(g, trace, s, Now());
    }

    // ---- The end ------------------------------------------------------------------------------------------

    /** What is open for a client, closed; its process killed, if it has one. */
    method CloseClient(c: Client)
      requires c.socket in kernel.open
      requires c.file >= 0 ==> c.file in kernel.open && c.file != c.socket && c.file != c.pidfd
      requires c.pidfd >= 0 ==> c.pidfd in kernel.open && kernel.open[c.pidfd].what.Process? && c.pidfd != c.socket
      requires c.dirfd >= 0 ==> c.dirfd in kernel.open && c.dirfd != c.socket && c.dirfd != c.pidfd && c.dirfd != c.file
      modifies kernel`open, kernel`killed
      ensures kernel.open == CloseAll(old(kernel.open), c)
      ensures kernel.killed == old(kernel.killed) + if c.pidfd >= 0 then [c.pidfd] else []
    {
      if c.pidfd >= 0 {
        var ignored := kernel.Kill(c.pidfd, true);
        kernel.Close(c.pidfd);
      }
      if c.file >= 0 {
        kernel.Close(c.file);
      }
      if c.dirfd >= 0 {
        kernel.Close(c.dirfd);
      }
      kernel.Close(c.socket);
    }

    /** The loop of server_cleanup over the clients, which stay linked while they are freed. */
    method CloseClients(ghost s: State)
      requires Inv(g, s) && clients.Valid() && clients.order == s.list && mem == s.clients
      requires kernel.open == s.open - {g.epollfd}
      modifies kernel`open, kernel`killed, this`mem
      ensures mem == map[] && kernel.open == CoreFds(g) - {g.epollfd}
      ensures kernel.killed == old(kernel.killed) + Processes(s, s.list)
    {
      hide Linked, Inv, Distinct, HasSocket, InPhase, CloseAll, Left;
      StartClosing(g, s);
      var client := clients.First();
      ghost var k := 0;
      assert s.list[0..] == s.list;
      while client != Null
        invariant k <= |s.list| && client == PtrAt(s.list, k)
        invariant kernel.open == Left(g, s, s.list[k..]) && mem == s.clients - Names(s.list[..k])
        invariant kernel.killed == old(kernel.killed) + Processes(s, s.list[..k])
        decreases |s.list| - k
      {
        CloseTurn(g, s, k);
        ProcessTurn(s, s.list, k);
        var next := clients.Next(client.addr, k);
        CloseClient(mem[client.addr]);
        mem := mem - {client.addr};
        client := next;
        k := k + 1;
      }
      DoneClosing(g, s);
      assert s.list[..k] == s.list;
    }

    /** server_cleanup: everything allocated is freed, and every descriptor but the standard ones is
        closed, once. */
    method Cleanup()
      requires Valid() && Inv(g, Now())
      modifies this, kernel, loop, loop.gc
      ensures mem == map[] && loop.heap == map[] && kernel.open.Keys == {0, 1, 2}
      ensures kernel.killed == old(kernel.killed) + Processes(old(Now()), old(clients.order))
    {
      hide TablesAgree, BatchAgrees, Linked, Ok, Inv;
      ghost var s := Now();
      LoopIsOpen(g, s);
      loop.Destroy();
      kernel.Close(g.epollfd);
      CloseClients(s);
      CloseCores();
    }

    method CloseCores()
      requires g.Ok() && kernel.open == CoreFds(g) - {g.epollfd}
      modifies kernel`open
      ensures kernel.open.Keys == {0, 1, 2}
    {
      hide g.Ok;
      g.Apart();
      assert g.Cores() == {0, 1, 2, g.directory, g.listener, g.sigfd, g.timerfd, g.epollfd};
      kernel.Close(g.listener);
      kernel.Close(g.timerfd);
      kernel.Close(g.sigfd);
      kernel.Close(g.directory);
      assert kernel.open.Keys == {0, 1, 2};
    }
  }

  /** server_process, from the first descriptor watched to the last one closed: a run from the initial
      state, of what the kernel reports and answers on the occasions waited for. */
  method ServerProcess(g: Config, now: int, faults: (Fault, Fault, Fault), occasions: seq<Occasion>)
    returns (open: map<int, Held>, waits: nat, failed: bool, ghost trace: Trace)
    requires g.Ok()
    ensures IsRun(g, trace.states, trace.steps)
    ensures var s := trace.states[0]; s == Initial(g, s.view, now) && CoreRegs(g, s.view)
    ensures waits <= |occasions| && (failed ==> waits > 0)
    ensures trace.states[|trace.steps|].view.run ==> waits == |occasions|
    ensures Follows(trace, now, Spoken(occasions, waits, failed), trace.states[|trace.steps|].clock)
    ensures failed ==> trace.steps != [] && trace.steps[|trace.steps| - 1] == Halting
    ensures open.Keys == {0, 1, 2}
  {
    hide Inv, IsRun, TablesAgree, BatchAgrees, Linked, Ok, Follows;
    var server := new Server(g, now, faults);
    InitialIsOk(g, server.loop.view, now);
    CoreRegsWaitForNothing(g, server.loop.view);
    var retval;
    retval, waits, trace := server.Enter(occasions);
    failed := retval != 0;
    server.RunsAsSaid();
    server.Cleanup();
    open := server.kernel.open;
  }
}
