/** What the past of a run settles about its future. */
module Histories {
  import opened Bytes
  import opened Lists
  import opened Registry
  import opened ServerState
  import opened ServerRuns

  /** Its request has been taken. */
  predicate Busy(c: Client) {
    c.file >= 0 || c.pidfd >= 0
  }

  /** t is s or comes after it: nobody who departed comes back, nobody's record of what was
      accepted or sent shrinks, and nobody whose request was taken waits for one again. */
  ghost predicate Later(s: State, t: State) {
    && s.clock <= t.clock && s.accepted <= t.accepted && s.departed <= t.departed
    && forall a :: a in t.clients && t.clients[a].id < s.accepted ==>
         && a in s.clients && s.clients[a].id == t.clients[a].id && s.clients[a].socket == t.clients[a].socket
         && s.clients[a].sentsize <= t.clients[a].sentsize
         && (Busy(s.clients[a]) ==> Busy(t.clients[a]))
  }

  lemma LaterIsTransitive(s: State, t: State, u: State)
    requires Later(s, t) && Later(t, u)
    ensures Later(s, u)
  {
  }

  lemma GoneIsLater(s: State, a: Addr)
    requires Connected(s, a)
    ensures Later(s, Gone(s, a)) && a !in Gone(s, a).clients
  {
  }

  lemma DroppedIsLater(s: State, a: Addr, m: Option<Message>)
    requires Connected(s, a)
    ensures Later(s, Dropped(s, a, m)) && a !in Dropped(s, a, m).clients
  {
    if m.Some? {
      GoneIsLater(Replied(s, a, m.value), a);
    } else {
      GoneIsLater(s, a);
    }
  }

  /** A request that is taken leaves its client busy or gone. */
  lemma ReadingIsLater(s: State, a: Addr, env: Env, fd: int)
    requires Connected(s, a) && Reading(s.clients[a], s.open) && FreshFd(s, env, fd)
    ensures var t := OnReadable(s, a, env, fd);
      Later(s, t) && (a in t.clients ==> Busy(t.clients[a]))
  {
    hide Decide, Dropped, HasSocket, Apply;
    match Decide(env)
    case Drop(reply) => DroppedIsLater(s, a, reply);
    case _ =>
  }

  lemma AdvancedIsLater(s: State, a: Addr, moved: nat)
    requires CanSend(s, a) && s.clients[a].sentsize + moved <= |s.open[s.clients[a].file].what.content|
    ensures Later(s, Advanced(s, a, moved))
  {
  }

  lemma SettledIsLater(s: State, a: Addr, stop: Stop)
    requires CanSend(s, a)
    ensures Later(s, Settled(s, a, stop))
  {
    hide Dropped, Gone;
    GoneIsLater(s, a);
    DroppedIsLater(s, a, if s.clients[a].sentsize == 0 then Some(InternalError) else None);
  }

  lemma WritingIsLater(s: State, a: Addr, env: Env)
    requires CanSend(s, a)
    ensures Later(s, OnWritable(s, a, env))
  {
    hide Advanced, Settled, Later, Moves, CanSend;
    var (moved, stop) := Moves(s, a, env.sends);
    AdvancedCanSend(s, a, moved);
    AdvancedIsLater(s, a, moved);
    SettledIsLater(Advanced(s, a, moved), a, stop);
    LaterIsTransitive(s, Advanced(s, a, moved), OnWritable(s, a, env));
  }

  lemma TroubleIsLater(s: State, a: Addr, kills: bool)
    requires Connected(s, a) && InPhase(s.clients[a], s.open)
    ensures var t := OnTrouble(s, a, kills);
      Later(s, t) && (a in t.clients ==> t.clients[a] == s.clients[a])
  {
    GoneIsLater(s, a);
  }

  lemma ClientEventIsLater(g: Config, s: State, a: Addr, ready: Ready, env: Env, fd: int)
    requires Inv(g, s) && CanHandle(s, a, ready) && (ready.inn ==> OnOwnSocket(s, a) && FreshFd(s, env, fd))
    ensures var t := ClientEvent(g, s, a, ready, env, fd);
      Later(s, t) && (ready.inn && a in t.clients ==> Busy(t.clients[a]))
  {
    hide Inv, InPhase, OnReadable, OnWritable, OnTrouble, Later, HasSocket, OnOwnSocket, FreshFd, Reading, Sending, Busy;
    var t := OnData(s, a, ready, env, fd);
    OnDataKeepsInv(g, s, a, ready, env, fd);
    Unchanged(s);
    if ready.inn {
      ReadingIsLater(s, a, env, fd);
    } else if ready.out {
      WritingIsLater(s, a, env);
    }
    if (ready.err || ready.hup) && a in t.clients {
      InPhaseOf(g, t, a);
      TroubleIsLater(t, a, env.kills);
      LaterIsTransitive(s, t, OnTrouble(t, a, env.kills));
    }
  }

  lemma Unchanged(s: State)
    ensures Later(s, s)
  {
  }

  lemma {:induction false} AdmitAllIsLater(g: Config, s: State, arrivals: seq<Arrival>, log: seq<Admission>)
    requires Inv(g, s) && CanAdmitAll(g, s, arrivals, log)
    ensures Later(s, AdmitAll(s, log))
    decreases |log|
  {
    hide Inv, CanAdmit, Admit;
    if log == [] {
      Unchanged(s);
    } else {
      AdmitIsLater(g, s, arrivals[0], log[0]);
      AdmitKeepsInv(g, s, arrivals[0], log[0]);
      AdmitAllIsLater(g, Admit(s, log[0]), arrivals[1..], log[1..]);
      LaterIsTransitive(s, Admit(s, log[0]), AdmitAll(s, log));
    }
  }

  lemma AdmitIsLater(g: Config, s: State, arrival: Arrival, admission: Admission)
    requires Inv(g, s) && CanAdmit(g, s, arrival, admission)
    ensures Later(s, Admit(s, admission))
  {
    hide FdsOk, PhasesOk, RegsOk, BatchOk, ListOk, TimeOk, Ok, Apply;
  }

  lemma SweepOneIsLater(g: Config, s: State, a: Addr, v: Verdict)
    requires Connected(s, a) && InPhase(s.clients[a], s.open)
    ensures Later(s, SweepOne(g, s, a, v))
  {
    hide Gone, Dropped;
    GoneIsLater(s, a);
    DroppedIsLater(s, a, if s.clients[a].sentsize == 0 then Some(RequestTimeout) else None);
  }

  lemma {:induction false} SweepIsLater(g: Config, s: State, todo: seq<Addr>, verdicts: map<Addr, Verdict>)
    requires Inv(g, s) && Sweepable(s, todo)
    ensures Later(s, Sweep(g, s, todo, verdicts))
    decreases |todo|
  {
    hide Inv, InPhase, HasSocket, SweepOne, Doomed, Sweepable, Later;
    if todo == [] {
      Unchanged(s);
    } else {
      var a := todo[0];
      var v := VerdictOn(verdicts, a);
      SweepGoesOn(g, s, todo, v);
      SweepOneIsLater(g, s, a, v);
      var t := SweepOne(g, s, a, v);
      SweepIsLater(g, t, todo[1..], verdicts);
      LaterIsTransitive(s, t, Sweep(g, t, todo[1..], verdicts));
    }
  }

  /** Every step leads to a later state, and one that takes a client's request leaves that client
      busy or gone. */
  lemma NextIsLater(g: Config, s: State, step: Step, t: State)
    requires Inv(g, s) && Next(g, s, step, t)
    ensures Later(s, t)
  {
    hide Inv, AdmitAll, CanAdmitAll, Sweep, ClientEvent, CanHandle, OnOwnSocket, HasSocket, Gone;
    if s.view.pending != [] {
      PopKeepsInv(g, s);
    }
    match step
    case Sweeping(verdicts) =>
      AllAreSweepable(g, Pop(s));
      SweepIsLater(g, Pop(s), Pop(s).list, verdicts);
    case Accepting(arrivals, log) => AdmitAllIsLater(g, Pop(s), arrivals, log);
    case Handling(env, fd) =>
      var a := HandlerOf(s).value.addr;
      EventIsExpected(g, s, a);
      ClientEventIsLater(g, Pop(s), a, s.view.pending[0].ready, env, fd);
    case Reaping =>
      ExitIsExpected(g, s, HandlerOf(s).value.addr);
      GoneIsLater(Pop(s), HandlerOf(s).value.addr);
    case _ =>
  }

  /** Nothing is forgotten along a run. */
  lemma {:induction false} RunIsLater(g: Config, states: seq<State>, steps: seq<Step>, i: nat, j: nat)
    requires IsRun(g, states, steps) && i <= j < |states|
    ensures Later(states[i], states[j])
    decreases j
  {
    hide Inv, Next, Later;
    if i == j {
      Unchanged(states[i]);
    } else {
      RunIsLater(g, states, steps, i, j - 1);
      RunKeepsInv(g, states, steps, j - 1);
      NextIsLater(g, states[j - 1], steps[j - 1], states[j]);
      LaterIsTransitive(states[i], states[j - 1], states[j]);
    }
  }

  /** The step takes the request of the client with this number. */
  ghost predicate TakesRequest(s: State, step: Step, id: nat) {
    && step.Handling? && s.view.pending != [] && s.view.pending[0].ready.inn
    && HandlerOf(s).Some? && HandlerOf(s).value.OnClient?
    && HandlerOf(s).value.addr in s.clients && s.clients[HandlerOf(s).value.addr].id == id
  }

  /** No client with this number waits for its request. */
  ghost predicate Taken(s: State, id: nat) {
    id < s.accepted && forall a :: a in s.clients && s.clients[a].id == id ==> Busy(s.clients[a])
  }

  lemma TakenOnce(g: Config, s: State, step: Step, t: State, id: nat)
    requires Inv(g, s) && Next(g, s, step, t) && TakesRequest(s, step, id)
    ensures !Taken(s, id) && Taken(t, id)
  {
    hide Inv, ClientEvent, OnOwnSocket, HasSocket, CanHandle, Busy, Later;
    var a, ready := HandlerOf(s).value.addr, s.view.pending[0].ready;
    NumbersAreOwn(g, s, a);
    EventIsExpected(g, s, a);
    PopKeepsInv(g, s);
    ReaderIsNotBusy(Pop(s), a, ready);
    ClientEventIsLater(g, Pop(s), a, ready, step.env, step.fd);
    TakenAfter(Pop(s), t, a, id);
  }

  lemma ReaderIsNotBusy(s: State, a: Addr, ready: Ready)
    requires CanHandle(s, a, ready) && ready.inn
    ensures a in s.clients && !Busy(s.clients[a])
  {
  }

  lemma TakenAfter(s: State, t: State, a: Addr, id: nat)
    requires Later(s, t) && a in s.clients && s.clients[a].id == id < s.accepted
    requires forall b :: b in s.clients && s.clients[b].id == id ==> b == a
    requires a in t.clients ==> Busy(t.clients[a])
    ensures Taken(t, id)
  {
    hide Busy;
  }

  lemma NumbersAreOwn(g: Config, s: State, a: Addr)
    requires Inv(g, s) && a in s.clients
    ensures s.clients[a].id < s.accepted
    ensures forall b :: b in s.clients && s.clients[b].id == s.clients[a].id ==> b == a
  {
    hide FdsOk, PhasesOk, RegsOk, BatchOk, ListOk, TimeOk, Ok;
  }

  lemma TakenForGood(s: State, t: State, id: nat)
    requires Later(s, t) && Taken(s, id)
    ensures Taken(t, id)
  {
  }

  /** The part of client_socket that reads a request runs at most once for each client accepted,
      in every run, although addresses and descriptors are used again. */
  lemma RequestsAreTakenOnce(g: Config, states: seq<State>, steps: seq<Step>, i: nat, j: nat, id: nat)
    requires IsRun(g, states, steps) && i < j < |steps|
    requires TakesRequest(states[i], steps[i], id)
    ensures !TakesRequest(states[j], steps[j], id)
  {
    hide Inv, Next, Later, TakesRequest, Taken;
    RunKeepsInv(g, states, steps, i);
    RunKeepsInv(g, states, steps, j);
    TakenOnce(g, states[i], steps[i], states[i + 1], id);
    RunIsLater(g, states, steps, i + 1, j);
    TakenForGood(states[i + 1], states[j], id);
    if TakesRequest(states[j], steps[j], id) {
      TakenOnce(g, states[j], steps[j], states[j + 1], id);
    }
  }

  // ---- Sending ------------------------------------------------------------------------------------------

  /** The most these sends let out, of more than that: each of them at least one byte. */
  function Allowed(sends: seq<SendAnswer>): nat {
    if sends == [] then 0
    else (if sends[0].Sent? && sends[0].limit > 0 then sends[0].limit else 1) + Allowed(sends[1..])
  }

  /** The loop is settled by the first send that moves nothing: if the ones in front of it move all of the
      file, or there is none, it finishes; otherwise it ends there, for the reason of that send, with what
      they moved. */
  lemma {:induction false} TransferIs(sends: seq<SendAnswer>, n: nat, p: nat)
    requires p <= |sends| && (forall k :: 0 <= k < p ==> sends[k].Sent?) && (p < |sends| ==> !sends[p].Sent?)
    ensures Transfer(sends, n)
         == if p == |sends| || (p > 0 && Allowed(sends[..p]) >= n) then (n, Finished)
            else if sends[p] == BrokenPipe then (Allowed(sends[..p]), Broken)
            else if sends[p] == SendFailed then (Allowed(sends[..p]), Failing)
            else if n == 0 then (0, Finished)
            else (Allowed(sends[..p]), Stalled)
    decreases p
  {
    if p > 0 {
      var a, rest := sends[0], sends[1..];
      assert sends[..p][1..] == rest[..p - 1] && sends[..p][0] == a;
      var m := Min(n, if a.limit == 0 then 1 else a.limit);
      if m < n {
        TransferIs(rest, n - m, p - 1);
        assert Allowed(sends[..p]) == m + Allowed(rest[..p - 1]);
      }
    }
  }

  // ---- Delivery -------------------------------------------------------------------------------------

  /** Sending either stalls, with the client still connected and more of the file to come, or ends
      with the connection; exactly the bytes counted have gone out, all of them if the transfer
      finished, and an error message only if there were none. */
  lemma DeliveryIsExact(g: Config, s: State, a: Addr, env: Env)
    requires Inv(g, s) && CanSend(s, a)
    ensures var t, c, content := OnWritable(s, a, env), s.clients[a], s.open[s.clients[a].file].what.content;
      var (moved, stop) := Moves(s, a, env.sends);
      var sent := c.sentsize + moved;
      && sent <= |content|
      && (a in t.clients <==> stop == Stalled && sent < |content|)
      && (a in t.clients ==>
            t.clients[a].sentsize == sent && HasSocket(t.clients[a], t.open)
            && OutputOf(t.clients[a], t.open) == Output(content[..sent], []))
      && (a !in t.clients ==>
            && |t.departed| == |s.departed| + 1
            && t.departed[|s.departed|].id == c.id
            && t.departed[|s.departed|].out
               == Output(content[..sent], if stop == Failing && sent == 0 then [InternalError] else []))
      && (stop == Finished ==> content[..sent] == content)
  {
    hide Inv, Moves;
    var (moved, stop) := Moves(s, a, env.sends);
    AdvancedCanSend(s, a, moved);
    var t := Advanced(s, a, moved);
    assert Out(t, a) == Output(s.open[s.clients[a].file].what.content[..s.clients[a].sentsize + moved], []);
    hide Advanced, Sending;
  }
}
