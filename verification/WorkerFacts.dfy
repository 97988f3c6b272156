/** What the handlers of server.c may rely on half-way: a client about to be disconnected, a request
    being served, a file being sent, a list being swept, a process being cleaned up. */
module WorkerFacts {
  import opened Bytes
  import opened Lists
  import opened Registry
  import opened Request
  import opened Selectors
  import opened ServerState
  import opened ServerRuns

  /** What client_disconnect needs: the client is in the list, and each of its descriptors is
      open once, with only the socket and the process in the event loop. */
  ghost predicate Disconnectable(s: State, a: Addr) {
    && Connected(s, a) && a in s.list
    && var c := s.clients[a];
    && (forall fd :: Owns(c, fd) ==> fd in s.open)
    && (c.file >= 0 ==> c.file != c.dirfd && c.file != c.pidfd && c.file != c.socket && c.file !in s.view.regs)
    && (c.dirfd >= 0 ==> c.dirfd != c.pidfd && c.dirfd != c.socket && c.dirfd !in s.view.regs)
    && (c.pidfd >= 0 ==> c.pidfd != c.socket)
  }

  lemma InOrderIsDisconnectable(g: Config, s: State, a: Addr)
    requires Inv(g, s) && a in s.clients
    ensures Disconnectable(s, a)
  {
    InPhaseOf(g, s, a);
    hide IdsOk, TimeOk, BatchOk, Ok, PhasesOk, Distinct;
    OwnedIsOpen(g, s, a);
    FileIsNotPolled(g, s, a);
  }

  lemma SenderIsDisconnectable(g: Config, s: State, a: Addr)
    requires Inv(g, s) && CanSend(s, a)
    ensures Disconnectable(s, a)
  {
    hide Inv, Disconnectable;
    InOrderIsDisconnectable(g, s, a);
  }

  lemma OwnedIsOpen(g: Config, s: State, a: Addr)
    requires FdsOk(g, s) && a in s.clients
    ensures forall fd :: Owns(s.clients[a], fd) ==> fd in s.open && s.open[fd].owner == ForClient(a)
  {
  }

  lemma FileIsNotPolled(g: Config, s: State, a: Addr)
    requires FdsOk(g, s) && RegsOk(g, s, None) && a in s.clients && InPhase(s.clients[a], s.open)
    ensures s.clients[a].file >= 0 ==> s.clients[a].file !in s.view.regs && s.clients[a].file != s.clients[a].socket
    ensures s.clients[a].pidfd >= 0 ==> s.clients[a].pidfd != s.clients[a].socket
  {
    var c := s.clients[a];
    assert c.file >= 0 ==> Owns(c, c.file);
  }

  /** The event loop after the registrations of server_process. */
  function Watched(g: Config, v: View<Handler>, faults: (Fault, Fault, Fault)): View<Handler> {
    var edge := Mask(true, false, true);
    var v := Apply(v, Op.Add(g.sigfd, edge, OnSignal, faults.0));
    var v := Apply(v, Op.Add(g.timerfd, EXITING, OnTimer, faults.1));
    Apply(v, Op.Add(g.listener, edge, OnListen, faults.2))
  }

  /** Only the server's own descriptors are watched, and all three of them if nothing fails. */
  lemma WatchedIsCore(g: Config, v: View<Handler>, faults: (Fault, Fault, Fault))
    requires g.Ok() && v.regs == map[] && v.pending == []
    ensures CoreRegs(g, Watched(g, v, faults))
    ensures faults == (NoFault, NoFault, NoFault) ==>
      Watched(g, v, faults).regs.Keys == {g.sigfd, g.timerfd, g.listener}
    ensures forall fd :: fd in Watched(g, v, faults).regs ==>
              Watched(g, v, faults).regs[fd].mask == Mask(true, false, fd != g.timerfd)
  {
    g.Apart();
    hide g.Ok;
  }

  // ---- A request half handled -------------------------------------------------------------------

  /** From s to t client a has only got its request counted and files opened: at most one in each
      of file and dirfd, on descriptors that were free. */
  ghost predicate Opening(s: State, t: State, a: Addr) {
    && a in s.clients && a in t.clients
    && var c, c' := s.clients[a], t.clients[a];
    && c' == c.(count := c'.count, file := c'.file, dirfd := c'.dirfd)
    && t == s.(open := t.open, clients := s.clients[a := c'])
    && (c'.file < 0 ==> c'.file == -1) && (c'.dirfd < 0 ==> c'.dirfd == -1)
    && (c'.file >= 0 ==> c'.file !in s.open && c'.file != c'.dirfd)
    && (c'.dirfd >= 0 ==> c'.dirfd !in s.open)
    && t.open.Keys == s.open.Keys + One(c'.file) + One(c'.dirfd)
    && (forall fd :: fd in s.open ==> t.open[fd] == s.open[fd])
  }

  /** What a request may be started from: its client waits for one, on the event being handled. */
  ghost predicate Ripe(g: Config, s: State, a: Addr) {
    Inv(g, s) && OnOwnSocket(s, a) && Connected(s, a) && Reading(s.clients[a], s.open)
  }

  lemma RegsAreOpen(g: Config, s: State)
    requires FdsOk(g, s) && RegsOk(g, s, None) && PhasesOk(s, None)
    ensures forall fd :: fd in s.view.regs ==> fd in s.open
  {
    forall fd | fd in s.view.regs ensures fd in s.open {
      match s.view.regs[fd].handler
      case OnClient(a) => assert HasSocket(s.clients[a], s.open);
      case OnProcess(a) => assert Owns(s.clients[a], fd);
      case _ => assert fd in g.Cores();
    }
  }

  lemma ClientIsListed(g: Config, s: State, a: Addr)
    requires ListOk(g, s) && a in s.clients
    ensures a in s.list
  {
  }

  /** What was opened for a request is not in the event loop. */
  lemma OpenAreUnpolled(g: Config, s: State, t: State, a: Addr)
    requires Ripe(g, s, a) && Opening(s, t, a)
    ensures forall fd :: fd in t.view.regs ==> fd in s.open
    ensures forall fd :: fd in t.view.regs ==> fd in t.open
    ensures a in t.clients && (t.clients[a].dirfd < 0 ==> t.clients[a].dirfd == -1)
    ensures t.clients[a].file >= 0 ==> t.clients[a].file in t.open && t.clients[a].file !in t.view.regs
    ensures t.clients[a].file >= 0 ==> t.clients[a].file !in s.open && t.clients[a].file != t.clients[a].dirfd
    ensures forall fd :: fd in s.open ==> fd in t.open
    ensures t.clients[a].dirfd >= 0 ==> t.clients[a].dirfd in t.open && t.clients[a].dirfd !in t.view.regs
  {
    RegsAreOpen(g, s);
    hide FdsOk, PhasesOk, RegsOk, ListOk, TimeOk, IdsOk, BatchOk, Ok, OnOwnSocket;
  }

  /** What of it is needed when a process is started. */
  lemma OpenForProcess(g: Config, s: State, t: State, a: Addr)
    requires Ripe(g, s, a) && Opening(s, t, a) && t.clients[a].file >= 0
    ensures var c := t.clients[a];
      && c.file in t.open && c.file !in t.view.regs && c.file != c.dirfd
      && (c.dirfd >= 0 ==> c.dirfd in t.open && c.dirfd !in t.view.regs) && (c.dirfd < 0 ==> c.dirfd == -1)
    ensures forall fd :: fd !in t.open ==> fd !in s.open
  {
    hide Ripe, Opening;
    OpenAreUnpolled(g, s, t, a);
  }

  lemma OpeningIsDisconnectable(g: Config, s: State, t: State, a: Addr)
    requires Ripe(g, s, a) && Opening(s, t, a)
    ensures Disconnectable(t, a) && s.clients[a].socket == t.clients[a].socket
  {
    OpenAreUnpolled(g, s, t, a);
    ClientIsListed(g, s, a);
    hide Inv, OnOwnSocket;
  }

  lemma ClosingForgetsOpening(s: State, t: State, a: Addr, out: Output)
    requires Opening(s, t, a) && Connected(s, a) && Connected(t, a) && Reading(s.clients[a], s.open)
    ensures Out(t, a) == Out(s, a)
    ensures CloseAll(t.open, t.clients[a]) == CloseAll(s.open, s.clients[a])
    ensures CloseAll(WithOutput(t, a, out).open, t.clients[a]) == CloseAll(WithOutput(s, a, out).open, s.clients[a])
  {
  }

  /** A connection closed in the middle of a request, whatever was opened for it, leaves the
      process as if nothing had been: nothing leaks on any of the error paths. */
  lemma DroppingUndoesOpening(g: Config, s: State, t: State, a: Addr, m: Option<Message>)
    requires Ripe(g, s, a) && Opening(s, t, a) && Connected(t, a)
    ensures Dropped(t, a, m) == Dropped(s, a, m)
  {
    var out := if m.Some? then Out(s, a).(errors := Out(s, a).errors + [m.value]) else Out(s, a);
    hide Inv, OnOwnSocket, Without, CloseAll;
    ClosingForgetsOpening(s, t, a, out);
    assert t.clients - {a} == s.clients - {a};
    if m.Some? {
      GoneForgets(Replied(s, a, m.value), Replied(t, a, m.value), a);
    } else {
      GoneForgets(s, t, a);
    }
  }

  lemma GoneForgets(s: State, t: State, a: Addr)
    requires Connected(s, a) && Connected(t, a)
    requires t == s.(open := t.open, clients := t.clients) && t.clients - {a} == s.clients - {a}
    requires var c, c' := s.clients[a], t.clients[a];
      c'.id == c.id && c'.socket == c.socket && c'.pidfd == c.pidfd && Out(s, a) == Out(t, a)
    requires CloseAll(t.open, t.clients[a]) == CloseAll(s.open, s.clients[a])
    ensures Gone(t, a) == Gone(s, a)
  {
  }

  lemma OpeningCount(s: State, t: State, a: Addr)
    requires Opening(s, t, a)
    ensures |t.open| == |s.open| + |One(t.clients[a].file)| + |One(t.clients[a].dirfd)|
  {
    var c' := t.clients[a];
    assert |t.open.Keys| == |t.open| && |s.open.Keys| == |s.open|;
    DisjointSizes(s.open.Keys, One(c'.file));
    DisjointSizes(s.open.Keys + One(c'.file), One(c'.dirfd));
  }

  function ThingOf(stat: Stat): Thing {
    match stat
    case Stat(RegularFile, _, content) => File(content)
    case Stat(DirectoryFile, _, _) => Folder
    case _ => File([])
  }

  /** s with one more descriptor open for client a, in its file field. */
  function WithFile(s: State, a: Addr, fd: int, what: Thing): State
    requires a in s.clients
  {
    s.(open := s.open[fd := Held(ForClient(a), what)], clients := s.clients[a := s.clients[a].(file := fd)])
  }

  function WithDirectory(s: State, a: Addr): State
    requires a in s.clients
  {
    s.(clients := s.clients[a := s.clients[a].(dirfd := s.clients[a].file, file := -1)])
  }

  lemma CountIsOpening(g: Config, s: State, a: Addr, count: nat)
    requires Ripe(g, s, a)
    ensures Opening(s, s.(clients := s.clients[a := s.clients[a].(count := count)]), a)
  {
    hide Inv, OnOwnSocket;
  }

  lemma FileIsOpening(s: State, t: State, a: Addr, fd: int, what: Thing)
    requires Opening(s, t, a) && t.clients[a].file == -1 && fd >= 0 && fd !in t.open
    ensures Opening(s, WithFile(t, a, fd, what), a)
  {
  }

  lemma DirectoryIsOpening(s: State, t: State, a: Addr)
    requires Opening(s, t, a) && t.clients[a].dirfd == -1
    ensures Opening(s, WithDirectory(t, a), a)
  {
  }

  /** There is always a descriptor left for the next file or process of a request. */
  lemma RoomForOneMore(g: Config, s: State, t: State, a: Addr)
    requires Ripe(g, s, a) && Opening(s, t, a)
    ensures |t.open| < g.Limit()
  {
    OpenDescriptors(g, s);
    OpeningCount(s, t, a);
    hide FdsOk, PhasesOk, RegsOk, TimeOk, IdsOk, BatchOk, Ok, OnOwnSocket, Opening;
  }

  lemma OpeningKeys(s: State, t: State, a: Addr)
    requires Opening(s, t, a)
    ensures forall fd :: fd in t.open <==> fd in s.open || (fd >= 0 && (fd == t.clients[a].file || fd == t.clients[a].dirfd))
  {
    assert forall fd :: fd in t.open <==> fd in t.open.Keys;
  }

  /** t is s with the request of a counted, its index file or file open, and nothing else. */
  lemma ServedIs(g: Config, s: State, t: State, a: Addr, content: Bytes)
    requires Ripe(g, s, a) && Opening(s, t, a) && t.clients[a].file >= 0
    requires t.open[t.clients[a].file] == Held(ForClient(a), File(content))
    ensures var c := t.clients[a];
      t.(open := t.open - One(c.dirfd),
         clients := t.clients[a := c.(dirfd := -1, filesize := Some(|content|), timestamp := t.clock)],
         view := Apply(t.view, Op<Handler>.ModEvents(c.socket, SENDING, false)))
      == Serving(s, a, c.count, content, c.file)
  {
    hide Inv, OnOwnSocket, Apply;
    var c := t.clients[a];
    OpeningKeys(s, t, a);
    var m, m' := t.open - One(c.dirfd), s.open[c.file := Held(ForClient(a), File(content))];
    assert forall fd :: fd in m <==> fd in m';
    assert forall fd :: fd in m ==> m[fd] == m'[fd];
    assert m == m';
    var c' := c.(dirfd := -1, filesize := Some(|content|), timestamp := t.clock);
    assert c' == s.clients[a].(count := c.count, file := c.file, filesize := Some(|content|), timestamp := s.clock);
    assert t.clients[a := c'] == s.clients[a := c'];
  }

  lemma SpawnedIs(g: Config, s: State, t: State, a: Addr, script: Bytes, query: Bytes, fault: Fault, fd: int)
    requires Ripe(g, s, a) && Opening(s, t, a) && t.clients[a].file >= 0 && fd >= 0 && fd !in t.open
    ensures var c := t.clients[a];
      var view := Apply(t.view, Op<Handler>.ModEvents(c.socket, RUNNING, false));
      t.(open := t.open[fd := Held(ForClient(a), Process(script, query, false))] - {c.file} - One(c.dirfd),
         clients := t.clients[a := c.(file := -1, dirfd := -1, pidfd := fd, timestamp := t.clock)],
         view := Apply(view, Op.Add(fd, EXITING, OnProcess(a), fault)))
      == Spawned(s, a, c.count, script, query, fault, fd)
  {
    hide Inv, OnOwnSocket, Apply;
    var c := t.clients[a];
    var held := Held(ForClient(a), Process(script, query, false));
    OpeningKeys(s, t, a);
    var m, m' := t.open[fd := held] - {c.file} - One(c.dirfd), s.open[fd := held];
    assert forall x :: x in m <==> x in m';
    assert forall x :: x in m ==> m[x] == m'[x];
    assert m == m';
    var c' := c.(file := -1, dirfd := -1, pidfd := fd, timestamp := t.clock);
    assert c' == s.clients[a].(count := c.count, pidfd := fd, timestamp := s.clock);
    assert t.clients[a := c'] == s.clients[a := c'];
  }

  lemma NormalIsPrefix(selector: Bytes, filename: Bytes, end: nat)
    requires end < |filename| && filename[..end] == Normal(selector) && filename[end] == NUL
    ensures CStr(filename) == Opened(selector)
    ensures CStr(filename[1..]) == ScriptName(selector, false)
  {
    CutThere(filename, end);
    assert filename[1..][..end - 1] == Normal(selector)[1..];
    CutThere(filename[1..], end - 1);
    assert Normal(selector) + [] == Normal(selector);
  }

  lemma MarkedIsPrefix(selector: Bytes, filename: Bytes, end: nat)
    requires end < |filename| && filename[..end] == Normal(selector) + [SLASH] && filename[end] == NUL
    ensures CStr(filename[1..]) == ScriptName(selector, true)
  {
    assert filename[1..][..end - 1] == (Normal(selector) + [SLASH])[1..];
    CutThere(filename[1..], end - 1);
  }

  /** A C string in a buffer is what stands in front of the NUL that ends it. */
  lemma CutThere(filename: Bytes, end: nat)
    requires end < |filename| && filename[end] == NUL
    ensures CStr(filename) == CStr(filename[..end])
  {
    var rest := filename[end + 1..];
    assert filename == filename[..end] + ([NUL] + rest);
    CStrAppend(filename[..end], [NUL] + rest);
    IndexOfIs([NUL] + rest, NUL, 0);
    CStrAppend(filename[..end], []);
    assert filename[..end] + [] == filename[..end];
    assert CStr([NUL] + rest) == [] == CStr([]);
  }

  lemma SelectorFits(data: Bytes)
    requires |data| <= MAX_REQUEST_SIZE && Parse(data).Some?
    ensures |Parse(data).value.selector| <= MAX_REQUEST_SIZE - 2
    ensures |Parse(data).value.query| <= MAX_REQUEST_SIZE - 2
  {
  }

  // ---- Sending ------------------------------------------------------------------------------------

  /** One sendfile of n bytes on top of what has gone out. */
  lemma SendAdvances(s: State, a: Addr, n: nat)
    requires CanSend(s, a) && s.clients[a].sentsize + n <= |s.open[s.clients[a].file].what.content|
    ensures var c := s.clients[a];
      var held := s.open[c.socket];
      var sent := s.open[c.file].what.content[c.sentsize..c.sentsize + n];
      s.(open := s.open[c.socket := held.(what := Socket(held.what.out.(bytes := held.what.out.bytes + sent)))],
         clients := s.clients[a := c.(sentsize := c.sentsize + n)])
      == Advanced(s, a, n)
  {
    var c := s.clients[a];
    var content := s.open[c.file].what.content;
    assert content[..c.sentsize] + content[c.sentsize..c.sentsize + n] == content[..c.sentsize + n];
  }

  lemma AdvancedTwice(s: State, a: Addr, m: nat, n: nat)
    requires CanSend(s, a) && s.clients[a].sentsize + m + n <= |s.open[s.clients[a].file].what.content|
    ensures CanSend(Advanced(s, a, m), a)
    ensures Advanced(s, a, m).open[s.clients[a].file] == s.open[s.clients[a].file]
    ensures Advanced(Advanced(s, a, m), a, n) == Advanced(s, a, m + n)
  {
    AdvancedCanSend(s, a, m);
    var c := s.clients[a];
    assert c.file != c.socket;
  }

  lemma AdvancedKeeps(s: State, a: Addr, m: nat)
    requires CanSend(s, a) && s.clients[a].sentsize + m <= |s.open[s.clients[a].file].what.content|
    ensures var t := Advanced(s, a, m);
      CanSend(t, a) && t.clients[a] == s.clients[a].(sentsize := s.clients[a].sentsize + m)
      && t.open[s.clients[a].file] == s.open[s.clients[a].file]
  {
    AdvancedCanSend(s, a, m);
    assert s.clients[a].file != s.clients[a].socket;
  }

  /** A send answered with -1 changes nothing. */
  lemma SendOfNothing(s: State, a: Addr)
    requires CanSend(s, a)
    ensures Advanced(s, a, 0) == s
    ensures var held := s.open[s.clients[a].socket];
      s.open[s.clients[a].socket := held.(what := Socket(held.what.out.(bytes := held.what.out.bytes + [])))] == s.open
  {
    var held := s.open[s.clients[a].socket];
    assert held.what.out.bytes + [] == held.what.out.bytes;
    assert s.clients[a := s.clients[a]] == s.clients;
  }

  /** The transfer of n bytes with m of them out and the answers left still to come. */
  ghost predicate Underway(sends: seq<SendAnswer>, n: nat, m: nat, left: seq<SendAnswer>) {
    m <= n && Transfer(sends, n) == (m + Transfer(left, n - m).0, Transfer(left, n - m).1)
  }

  lemma StartUnderway(sends: seq<SendAnswer>, n: nat)
    ensures Underway(sends, n, 0, sends)
  {
  }

  lemma SendTurn(sends: seq<SendAnswer>, n: nat, m: nat, left: seq<SendAnswer>)
    requires Underway(sends, n, m, left)
    ensures left == [] ==> Transfer(sends, n) == (n, Finished)
    ensures left != [] ==>
      match left[0]
      case SendBlocked => Transfer(sends, n) == (m, if m == n then Finished else Stalled)
      case BrokenPipe => Transfer(sends, n) == (m, Broken)
      case SendFailed => Transfer(sends, n) == (m, Failing)
      case Sent(limit) =>
        var k := Min(n - m, if limit == 0 then 1 else limit);
        if k == n - m then Transfer(sends, n) == (n, Finished) else Underway(sends, n, m + k, left[1..])
  {
  }

  // ---- Cleaning up ------------------------------------------------------------------------------------

  lemma CoreRegsWaitForNothing(g: Config, view: View<Handler>)
    requires CoreRegs(g, view)
    ensures view.pending == []
  {
  }

  lemma LoopIsOpen(g: Config, s: State)
    requires Inv(g, s)
    ensures g.Ok() && g.epollfd in s.open
  {
    hide PhasesOk, RegsOk, BatchOk, ListOk, TimeOk, IdsOk, Ok, Distinct;
    assert g.epollfd in g.Cores();
  }

  function Names(list: seq<Addr>): set<Addr> {
    set k | 0 <= k < |list| :: list[k]
  }

  /** What is still open once the event loop and all clients but those of todo are closed. */
  function Left(g: Config, s: State, todo: seq<Addr>): map<int, Held> {
    map fd | fd in s.open && fd != g.epollfd && (s.open[fd].owner.ForClient? ==> s.open[fd].owner.addr in todo) :: s.open[fd]
  }

  /** The processes of the clients in a list. */
  function Processes(s: State, list: seq<Addr>): seq<int> {
    if list == [] then []
    else
      var a := list[|list| - 1];
      Processes(s, list[..|list| - 1]) + if a in s.clients && s.clients[a].pidfd >= 0 then [s.clients[a].pidfd] else []
  }

  /** These are the processes of all clients, each once. */
  lemma ProcessesAre(g: Config, s: State)
    requires Inv(g, s)
    ensures forall fd :: fd in Processes(s, s.list) <==>
              fd >= 0 && exists a :: a in s.clients && s.clients[a].pidfd == fd
    ensures Distinct(Processes(s, s.list))
  {
    hide PhasesOk, RegsOk, BatchOk, TimeOk, IdsOk, Ok, Processes, FdsOk, Owns;
    assert s.list[..|s.list|] == s.list;
    ProcessesOf(g, s, |s.list|);
    forall a | a in s.clients && s.clients[a].pidfd >= 0 ensures s.clients[a].pidfd in Processes(s, s.list) {
      var k :| 0 <= k < |s.list| && s.list[k] == a;
    }
  }

  /** Of the first clients of the list. */
  ghost predicate AreProcesses(s: State, n: nat, fds: seq<int>)
    requires n <= |s.list| && forall k :: 0 <= k < n ==> s.list[k] in s.clients
  {
    && (forall fd :: fd in fds ==> fd >= 0 && exists k :: 0 <= k < n && s.clients[s.list[k]].pidfd == fd)
    && (forall k :: 0 <= k < n && s.clients[s.list[k]].pidfd >= 0 ==> s.clients[s.list[k]].pidfd in fds)
    && Distinct(fds)
  }

  lemma {:induction false} ProcessesOf(g: Config, s: State, n: nat)
    requires FdsOk(g, s) && ListOk(g, s) && n <= |s.list|
    ensures AreProcesses(s, n, Processes(s, s.list[..n]))
  {
    if n > 0 {
      hide AreProcesses, FdsOk, Processes;
      ProcessesOf(g, s, n - 1);
      ProcessTurn(s, s.list, n - 1);
      OneMoreProcess(g, s, n - 1, Processes(s, s.list[..n - 1]));
    }
  }

  lemma OneMoreProcess(g: Config, s: State, n: nat, fds: seq<int>)
    requires FdsOk(g, s) && ListOk(g, s) && n < |s.list| && AreProcesses(s, n, fds)
    ensures var fd := s.clients[s.list[n]].pidfd; AreProcesses(s, n + 1, fds + if fd >= 0 then [fd] else [])
  {
    hide FdsOk;
    var fd := s.clients[s.list[n]].pidfd;
    if fd >= 0 {
      forall k | 0 <= k < n ensures s.clients[s.list[k]].pidfd != fd {
        DistinctAt(s.list, k, n);
        ProcessesApart(g, s, s.list[k], s.list[n]);
      }
      var more := fds + [fd];
      assert fd !in fds;
      assert Distinct(more);
      assert more[|fds|] == fd && forall x :: x in fds ==> x in more;
      forall x | x in more ensures x >= 0 && exists k :: 0 <= k < n + 1 && s.clients[s.list[k]].pidfd == x {
        if x == fd {
          assert s.clients[s.list[n]].pidfd == x;
        } else {
          assert x in fds;
        }
      }
    } else {
      assert fds + [] == fds;
    }
  }

  lemma DistinctAt(list: seq<Addr>, i: nat, j: nat)
    requires Distinct(list) && i < j < |list|
    ensures list[i] != list[j]
  {
  }

  lemma ProcessesApart(g: Config, s: State, a: Addr, b: Addr)
    requires FdsOk(g, s) && a in s.clients && b in s.clients && a != b && s.clients[b].pidfd >= 0
    ensures s.clients[a].pidfd != s.clients[b].pidfd
  {
    OthersOwnOthers(g, s, a, b);
    hide FdsOk;
    assert Owns(s.clients[b], s.clients[b].pidfd);
  }

  /** What one client has open no other one has. */
  lemma OthersOwnOthers(g: Config, s: State, a: Addr, b: Addr)
    requires FdsOk(g, s) && a in s.clients && b in s.clients && a != b
    ensures forall fd :: Owns(s.clients[b], fd) ==> fd in s.open && !Owns(s.clients[a], fd)
  {
    hide Owns;
    forall fd | Owns(s.clients[b], fd) ensures fd in s.open && !Owns(s.clients[a], fd) {
      assert s.open[fd].owner == ForClient(b);
    }
  }

  lemma ProcessTurn(s: State, list: seq<Addr>, k: nat)
    requires k < |list| && list[k] in s.clients
    ensures Processes(s, list[..k + 1])
         == Processes(s, list[..k]) + if s.clients[list[k]].pidfd >= 0 then [s.clients[list[k]].pidfd] else []
  {
    assert list[..k + 1][..k] == list[..k];
  }

  lemma StartClosing(g: Config, s: State)
    requires Inv(g, s)
    ensures Distinct(s.list) && Left(g, s, s.list) == s.open - {g.epollfd}
    ensures s.clients - Names(s.list[..0]) == s.clients
  {
    hide PhasesOk, RegsOk, BatchOk, TimeOk, IdsOk, Ok, Distinct;
    var m, m' := Left(g, s, s.list), s.open - {g.epollfd};
    assert forall fd :: fd in s.open && s.open[fd].owner.ForClient? ==> s.open[fd].owner.addr in s.clients;
    assert forall fd :: fd in m <==> fd in m';
    assert m == m';
  }

  lemma DoneClosing(g: Config, s: State)
    requires Inv(g, s)
    ensures Left(g, s, s.list[|s.list|..]) == CoreFds(g) - {g.epollfd}
    ensures s.clients - Names(s.list[..|s.list|]) == map[]
  {
    hide PhasesOk, RegsOk, BatchOk, TimeOk, IdsOk, Ok, Distinct;
    var left := s.clients - Names(s.list[..|s.list|]);
    assert forall a :: a !in left.Keys;
    assert left.Keys == {};
  }

  /** The next client is still there with all that is open for it, and closing that leaves the rest. */
  lemma CloseTurn(g: Config, s: State, k: nat)
    requires Inv(g, s) && k < |s.list|
    ensures var a, open := s.list[k], Left(g, s, s.list[k..]);
      && a in s.clients && a !in Names(s.list[..k])
      && s.clients - Names(s.list[..k]) - {a} == s.clients - Names(s.list[..k + 1])
      && var c := s.clients[a];
      && c.socket in open && c.dirfd == -1
      && (c.file >= 0 ==> c.file in open && c.file != c.socket && c.file != c.pidfd)
      && (c.pidfd >= 0 ==> c.pidfd in open && open[c.pidfd].what.Process? && c.pidfd != c.socket)
      && CloseAll(open, c) == Left(g, s, s.list[k + 1..])
  {
    hide Inv, Distinct, FdsOk, HasSocket, InPhase, CloseAll, Left;
    AllAreSweepable(g, s);
    NameTurn(s.list, k);
    var a := s.list[k];
    assert a in s.clients;
    assert s.clients - Names(s.list[..k]) - {a} == s.clients - Names(s.list[..k + 1]);
    InPhaseOf(g, s, a);
    OwnedIsLeft(g, s, k);
    OwnedApart(s.clients[a], s.open);
    ClosingOne(g, s, k);
  }

  lemma NameTurn(list: seq<Addr>, k: nat)
    requires Distinct(list) && k < |list|
    ensures list[k] !in Names(list[..k]) && Names(list[..k + 1]) == Names(list[..k]) + {list[k]}
  {
    assert list[..k + 1] == list[..k] + [list[k]];
  }

  lemma OwnedApart(c: Client, open: map<int, Held>)
    requires InPhase(c, open)
    ensures c.dirfd == -1 && Owns(c, c.socket)
    ensures c.file >= 0 ==> c.file != c.socket && c.file != c.pidfd && Owns(c, c.file)
    ensures c.pidfd >= 0 ==> c.pidfd != c.socket && Owns(c, c.pidfd) && c.pidfd in open && open[c.pidfd].what.Process?
  {
  }

  lemma OwnedIsLeft(g: Config, s: State, k: nat)
    requires Inv(g, s) && k < |s.list| && s.list[k] in s.clients
    ensures var left := Left(g, s, s.list[k..]);
      forall fd :: Owns(s.clients[s.list[k]], fd) ==> fd in left && left[fd] == s.open[fd]
  {
    hide PhasesOk, RegsOk, BatchOk, ListOk, TimeOk, IdsOk, Ok;
    assert s.list[k..][0] == s.list[k];
    assert g.epollfd in g.Cores();
  }

  lemma ClosingOne(g: Config, s: State, k: nat)
    requires Inv(g, s) && k < |s.list| && s.list[k] in s.clients
    ensures CloseAll(Left(g, s, s.list[k..]), s.clients[s.list[k]]) == Left(g, s, s.list[k + 1..])
  {
    hide PhasesOk, RegsOk, BatchOk, TimeOk, IdsOk, Ok;
    var a, todo := s.list[k], s.list[k + 1..];
    assert s.list[k..] == [a] + todo;
    assert a !in todo;
    hide ListOk, Distinct;
    var m, m' := CloseAll(Left(g, s, [a] + todo), s.clients[a]), Left(g, s, todo);
    assert forall fd :: fd in s.open ==> (s.open[fd].owner == ForClient(a) <==> Owns(s.clients[a], fd));
    assert forall fd :: fd in m <==> fd in m';
    assert m == m';
  }

  // ---- Steps of the event loop --------------------------------------------------------------------

  lemma StaleIsNext(g: Config, s: State)
    requires Inv(g, s) && s.view.pending != [] && HandlerOf(s) == None
    ensures Next(g, s, Stale, Pop(s))
  {
  }

  lemma SignalIsNext(g: Config, s: State, term: bool)
    requires Inv(g, s) && s.view.pending != [] && HandlerOf(s) == Some(OnSignal)
    ensures Next(g, s, Signal(term), if term then Exited(Pop(s)) else Pop(s))
  {
    hide Inv;
  }

  lemma TimerIsNext(g: Config, s: State, verdicts: map<Addr, Verdict>)
    requires Inv(g, s) && s.view.pending != [] && HandlerOf(s) == Some(OnTimer) && Inv(g, Pop(s))
    ensures Next(g, s, Sweeping(verdicts), Timer(g, Pop(s), verdicts))
  {
    hide Inv, Timer;
  }

  lemma ArrivalsAreNext(g: Config, s: State, arrivals: seq<Arrival>, log: seq<Admission>)
    requires Inv(g, s) && s.view.pending != [] && HandlerOf(s) == Some(OnListen)
    requires (s.view.pending[0].ready.inn || log == []) && CanAdmitAll(g, Pop(s), arrivals, log)
    ensures Next(g, s, Accepting(arrivals, log), AdmitAll(Pop(s), log))
  {
    hide Inv, AdmitAll, CanAdmitAll;
  }

  lemma EventIsNext(g: Config, s: State, a: Addr, env: Env, fd: int)
    requires Inv(g, s) && s.view.pending != [] && HandlerOf(s) == Some(OnClient(a)) && Inv(g, Pop(s))
    requires CanHandle(Pop(s), a, s.view.pending[0].ready) && OnOwnSocket(Pop(s), a)
    requires s.view.pending[0].ready.inn ==> FreshFd(Pop(s), env, fd)
    ensures Next(g, s, Handling(env, fd), ClientEvent(g, Pop(s), a, s.view.pending[0].ready, env, fd))
  {
    hide Inv, ClientEvent, CanHandle, OnOwnSocket;
  }

  lemma ExitIsNext(g: Config, s: State, a: Addr)
    requires Inv(g, s) && s.view.pending != [] && HandlerOf(s) == Some(OnProcess(a)) && Connected(Pop(s), a)
    ensures Next(g, s, Reaping, Gone(Pop(s), a))
  {
    hide Inv, Gone, HasSocket;
  }

  lemma NoneAdmitted(g: Config, s: State, arrivals: seq<Arrival>, log: seq<Admission>)
    requires CanAdmitAll(g, s, arrivals, log)
    ensures arrivals == [] ==> log == []
  {
  }

  lemma ExitedIsListed(g: Config, s: State, a: Addr)
    requires Connected(s, a)
    ensures a in s.clients
  {
  }

  lemma HaltIsNext(g: Config, s: State)
    requires Inv(g, s) && s.view.pending == []
    ensures Next(g, s, Halting, Exited(s))
  {
  }

  lemma WakeIsNext(g: Config, s: State, ready: seq<(int, Ready)>)
    requires Inv(g, s) && s.view.pending == [] && CanWake(s.view, ready)
    ensures Next(g, s, Wake(ready), s.(view := Woken(s.view, ready)))
  {
  }

  lemma StartKeepsInv(g: Config, s: State)
    requires Inv(g, s)
    ensures Inv(g, s.(view := s.view.(run := true)))
  {
    hide FdsOk, PhasesOk, RegsOk, ListOk, TimeOk, IdsOk;
    BatchKeepsInv(g, s, s.view.(run := true));
  }

  // ---- Sweeping -----------------------------------------------------------------------------------

  /** Whose processes a sweep over this list sends a signal to: those of clients that are overdue and not
      known to have sent anything lately. */
  function Signalled(g: Config, s: State, todo: seq<Addr>, verdicts: map<Addr, Verdict>): seq<int> {
    if todo == [] then [] else SignalledAt(g, s, todo[0], VerdictOn(verdicts, todo[0])) + Signalled(g, s, todo[1..], verdicts)
  }

  function SignalledAt(g: Config, s: State, a: Addr, v: Verdict): seq<int> {
    if a in s.clients && Expired(g, s, a) && s.clients[a].pidfd >= 0 && Idle(g, v) then [s.clients[a].pidfd] else []
  }

  lemma {:induction false} SignalledAre(g: Config, s: State, todo: seq<Addr>, verdicts: map<Addr, Verdict>)
    ensures forall fd :: fd in Signalled(g, s, todo, verdicts) <==>
              exists k :: 0 <= k < |todo| && todo[k] in s.clients && s.clients[todo[k]].pidfd == fd && fd >= 0
                && s.clock - s.clients[todo[k]].timestamp >= g.timeout
                && var v := VerdictOn(verdicts, todo[k]); v.unknown || v.lastSent >= 1000 * g.timeout
  {
    hide VerdictOn;
    if todo != [] {
      SignalledAre(g, s, todo[1..], verdicts);
      assert forall k :: 0 < k < |todo| ==> todo[k] == todo[1..][k - 1];
      assert forall k :: 0 <= k < |todo| - 1 ==> todo[1..][k] == todo[k + 1];
    }
  }

  /** With these clients still to come, all of those signals have been sent but theirs. */
  ghost predicate Signalling(g: Config, s: State, todo: seq<Addr>, verdicts: map<Addr, Verdict>, before: seq<int>,
                             now: seq<int>)
  {
    now + Signalled(g, s, todo, verdicts) == before + Signalled(g, s, s.list, verdicts)
  }

  lemma SignalsAreSent(g: Config, s: State, verdicts: map<Addr, Verdict>, before: seq<int>, now: seq<int>)
    ensures Signalling(g, s, s.list, verdicts, before, before)
    ensures Signalling(g, s, [], verdicts, before, now) ==> now == before + Signalled(g, s, s.list, verdicts)
  {
    assert now + [] == now;
  }

  lemma SweepableIsDistinct(s: State, todo: seq<Addr>)
    requires Sweepable(s, todo)
    ensures Distinct(todo)
  {
  }

  /** The sweep that began in s has not come to these clients. */
  ghost predicate Unswept(s: State, t: State, todo: seq<Addr>) {
    t.clock == s.clock && forall k :: 0 <= k < |todo| ==>
      todo[k] in s.clients && todo[k] in t.clients && t.clients[todo[k]] == s.clients[todo[k]]
  }

  lemma NoneSwept(g: Config, s: State)
    requires Inv(g, s)
    ensures Unswept(s, s, s.list)
  {
    hide FdsOk, PhasesOk, RegsOk, BatchOk, TimeOk, IdsOk, Ok;
  }

  /** The turn of a client depends on its own record only. */
  lemma SignalTurn(g: Config, s: State, t: State, todo: seq<Addr>, verdicts: map<Addr, Verdict>, before: seq<int>,
                   now: seq<int>)
    requires Unswept(s, t, todo) && todo != [] && Signalling(g, s, todo, verdicts, before, now)
    ensures var a, v := todo[0], VerdictOn(verdicts, todo[0]);
      Signalling(g, s, todo[1..], verdicts, before, now + SignalledAt(g, t, a, v))
  {
    hide VerdictOn;
    var sent, rest := SignalledAt(g, t, todo[0], VerdictOn(verdicts, todo[0])), Signalled(g, s, todo[1..], verdicts);
    assert now + (sent + rest) == now + sent + rest;
  }

  lemma SweepLeavesRest(g: Config, s: State, t: State, todo: seq<Addr>, v: Verdict)
    requires Unswept(s, t, todo) && todo != [] && Distinct(todo)
    requires Connected(t, todo[0]) && InPhase(t.clients[todo[0]], t.open)
    ensures Unswept(s, SweepOne(g, t, todo[0], v), todo[1..])
  {
    hide InPhase, HasSocket, SweepOne, Doomed;
    SweepOneSpares(g, t, todo[0], v);
    assert forall k :: 0 <= k < |todo| - 1 ==> todo[1..][k] == todo[k + 1] && todo[k + 1] != todo[0];
  }

  /** A turn of the sweep takes at most the client it is for out of the list. */
  lemma SweepTurn(g: Config, s: State, kept: seq<Addr>, todo: seq<Addr>, verdicts: map<Addr, Verdict>)
    requires Inv(g, s) && Sweepable(s, todo) && todo != [] && s.list == kept + todo
    ensures Connected(s, todo[0]) && InPhase(s.clients[todo[0]], s.open)
    ensures var a := todo[0];
      var t := SweepOne(g, s, a, VerdictOn(verdicts, a));
      && Inv(g, t) && Sweepable(t, todo[1..])
      && t.clock == s.clock
      && Sweep(g, t, todo[1..], verdicts) == Sweep(g, s, todo, verdicts)
      && t.list == (if a in t.clients then kept + [a] else kept) + todo[1..]
  {
    hide Inv, SweepOne, InPhase, HasSocket, Doomed, Sweepable, Distinct, Without;
    var a := todo[0];
    var v := VerdictOn(verdicts, a);
    WithoutNext(g, s, kept, todo);
    SweepOneSparesRest(g, s, todo, v);
    SweepOneKeepsInv(g, s, a, v);
    SweepOneList(g, s, a, v);
    SweepUnfolds(g, s, todo, verdicts);
    assert kept + [a] + todo[1..] == kept + todo;
  }

  /** Half-way through the loop of the sweep that began in s: those still to come have not been touched,
      and sweeping them completes the sweep. */
  ghost predicate Halfway(g: Config, s: State, t: State, kept: seq<Addr>, todo: seq<Addr>, verdicts: map<Addr, Verdict>) {
    && Inv(g, s) && Sweepable(s, s.list) && Inv(g, t) && Sweepable(t, todo)
    && t.list == kept + todo && Unswept(s, t, todo)
    && Sweep(g, t, todo, verdicts) == Sweep(g, s, s.list, verdicts)
  }

  lemma SweepStarts(g: Config, s: State, verdicts: map<Addr, Verdict>)
    requires Inv(g, s)
    ensures Halfway(g, s, s, [], s.list, verdicts)
  {
    hide Inv, Sweep, Sweepable, Unswept;
    AllAreSweepable(g, s);
    NoneSwept(g, s);
  }

  lemma SweepGoesOnFor(g: Config, s: State, t: State, kept: seq<Addr>, todo: seq<Addr>, verdicts: map<Addr, Verdict>)
    requires Halfway(g, s, t, kept, todo, verdicts) && todo != []
    ensures Inv(g, t) && t.list == kept + todo && Connected(t, todo[0]) && InPhase(t.clients[todo[0]], t.open)
    ensures Unswept(s, t, todo) && Distinct(todo)
    ensures var a := todo[0];
      var u := SweepOne(g, t, a, VerdictOn(verdicts, a));
      Halfway(g, s, u, if a in u.clients then kept + [a] else kept, todo[1..], verdicts)
  {
    hide Inv, Sweep, Sweepable, Unswept, SweepOne, InPhase, HasSocket, Signalled, SignalledAt, Distinct;
    SweepTurn(g, t, kept, todo, verdicts);
    SweepableIsDistinct(t, todo);
    SweepLeavesRest(g, s, t, todo, VerdictOn(verdicts, todo[0]));
  }

  lemma StillListed(g: Config, s: State, t: State, kept: seq<Addr>, todo: seq<Addr>, verdicts: map<Addr, Verdict>)
    requires Halfway(g, s, t, kept, todo, verdicts)
    ensures t.list == kept + todo
  {
    hide Inv, Sweep, Sweepable, Unswept;
  }

  lemma SweepEnds(g: Config, s: State, t: State, kept: seq<Addr>, verdicts: map<Addr, Verdict>)
    requires Halfway(g, s, t, kept, [], verdicts)
    ensures Inv(g, s) && Timer(g, s, verdicts) == t.(swept := t.clock)
  {
    hide Inv, Sweepable;
  }

  lemma NextOfRest(kept: seq<Addr>, todo: seq<Addr>)
    requires todo != []
    ensures PtrAt(kept + todo, |kept| + 1) == PtrAt(todo[1..], 0)
  {
  }

  lemma SweepUnfolds(g: Config, s: State, todo: seq<Addr>, verdicts: map<Addr, Verdict>)
    requires Inv(g, s) && Sweepable(s, todo) && todo != []
    requires Connected(s, todo[0]) && InPhase(s.clients[todo[0]], s.open)
    requires var t := SweepOne(g, s, todo[0], VerdictOn(verdicts, todo[0])); Inv(g, t) && Sweepable(t, todo[1..])
    ensures var t := SweepOne(g, s, todo[0], VerdictOn(verdicts, todo[0]));
      Sweep(g, t, todo[1..], verdicts) == Sweep(g, s, todo, verdicts)
  {
    hide Inv, SweepOne, InPhase, HasSocket;
  }

  lemma WithoutNext(g: Config, s: State, kept: seq<Addr>, todo: seq<Addr>)
    requires Inv(g, s) && s.list == kept + todo && todo != []
    ensures Without(s.list, todo[0]) == kept + todo[1..]
  {
    AllAreSweepable(g, s);
    assert s.list[|kept|] == todo[0];
    WithoutAt(s.list, |kept|);
  }

  lemma SweepOneSparesRest(g: Config, s: State, todo: seq<Addr>, v: Verdict)
    requires Inv(g, s) && Sweepable(s, todo) && todo != []
    ensures Connected(s, todo[0]) && InPhase(s.clients[todo[0]], s.open)
    ensures var t := SweepOne(g, s, todo[0], v);
      && Sweepable(t, todo[1..]) && t.clock == s.clock
      && (todo[0] in t.clients <==> !Doomed(g, s, todo[0], v))
  {
    hide Inv, SweepOne, InPhase, HasSocket, Doomed, Sweepable;
    SweepGoesOn(g, s, todo, v);
    SweepOneSpares(g, s, todo[0], v);
  }

  lemma SweepOneList(g: Config, s: State, a: Addr, v: Verdict)
    requires Connected(s, a) && InPhase(s.clients[a], s.open)
    ensures SweepOne(g, s, a, v).list == if Doomed(g, s, a, v) then Without(s.list, a) else s.list
  {
  }

  /** Closing one by one closes all. */
  lemma CloseInSteps(open: map<int, Held>, v: View<Handler>, c: Client)
    ensures open - One(c.file) - One(c.dirfd) - One(c.pidfd) - {c.socket} == CloseAll(open, c)
    ensures v.(regs := v.regs - One(c.pidfd) - {c.socket}) == Unregister(v, c)
  {
  }
}
