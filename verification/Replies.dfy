/** Which requests are refused, and what their clients are told, from the bytes on the socket. */
module Replies {
  import opened Bytes
  import opened Selectors
  import opened Request
  import opened ServerState
  import opened ServerRuns
  import opened Histories
  import opened Deliveries
  import opened Timeouts

  /** A connection that ends before the buffer is full gets no answer, and one that fails an error. */
  lemma LostAreDropped(env: Env)
    requires |env.queued| < MAX_REQUEST_SIZE && env.ending != WouldBlock
    ensures Decide(env) == Drop(if env.ending == ReadError then Some(InternalError) else None)
  {
  }

  /** The bytes that arrived: the request fills the buffer, or there is no more for now. */
  predicate Arrived(env: Env) {
    |env.queued| >= MAX_REQUEST_SIZE || env.ending == WouldBlock
  }

  /** Nothing that ends a line among the first bytes: a bad request, and nothing else is. */
  lemma UnendedIsBad(env: Env)
    requires Arrived(env)
    ensures Decide(env) == Drop(Some(BadRequest)) <==> !HasCrlf(env.queued[..Min(|env.queued|, MAX_REQUEST_SIZE)])
  {
    hide Resolve, Accepted;
    var data := env.queued[..Min(|env.queued|, MAX_REQUEST_SIZE)];
    assert Receive(env.queued, env.ending) == Data(data);
    assert IndexOfCrlf(data) < |data| ==> CrlfAt(data, IndexOfCrlf(data));
    assert IndexOfCrlf(data) == |data| ==> forall k :: CrlfAt(data, k) ==> k < IndexOfCrlf(data);
    ResolvingIsNoBadRequest(env);
  }

  lemma ResolvingIsNoBadRequest(env: Env)
    ensures forall request :: Resolve(env, request) != Drop(Some(BadRequest))
  {
    hide Opened, ScriptName;
  }

  /** The request is this one, printed with or without a query, and what follows does not matter. */
  ghost predicate Requests(env: Env, selector: Bytes, query: Option<Bytes>) {
    && Arrived(env) && Printable(selector, query)
    && |Print(selector, query)| <= MAX_REQUEST_SIZE && Print(selector, query) <= env.queued
  }

  lemma RequestIsHeard(env: Env, selector: Bytes, query: Option<Bytes>)
    requires Requests(env, selector, query)
    ensures var r := Receive(env.queued, env.ending);
      r.Data? && Parse(r.bytes) == Some(Parsed(selector, if query.Some? then query.value else []))
  {
    var p := Print(selector, query);
    assert env.queued == p + env.queued[|p|..];
    RequestArrives(selector, query, env.queued[|p|..], env.ending);
  }

  /** A selector with a period at its start or behind a slash is forbidden, whatever there is in the
      serving directory. */
  lemma HiddenAreForbidden(env: Env, selector: Bytes, query: Option<Bytes>)
    requires Requests(env, selector, query) && !PeriodsAreInside(selector)
    ensures Decide(env) == Drop(Some(Forbidden))
  {
    RequestIsHeard(env, selector, query);
    AcceptedIff(selector);
    hide Requests, Accepted, PeriodsAreInside, Resolve, Parse;
  }

  /** What there is at the path, and the error for it. */
  predicate Refused(found: Found, wantsFile: bool, reply: Message) {
    match found
    case Absent(NoEntry) => reply == NotFound
    case Absent(NoAccess) => reply == Forbidden
    case Absent(OtherError) => reply == InternalError
    case Present(StatError) => reply == InternalError
    case Present(Stat(kind, _, _)) => (kind == OtherKind || (wantsFile && kind == DirectoryFile)) && reply == Forbidden
  }

  predicate IsFolder(found: Found) {
    found.Present? && found.stat.Stat? && found.stat.kind == DirectoryFile
  }

  /** Any other selector is refused if nothing can be opened at its path, or neither a file nor a directory,
      or in a directory no index that is a file. */
  lemma MissingAreRefused(env: Env, selector: Bytes, query: Option<Bytes>, reply: Message)
    requires Requests(env, selector, query) && PeriodsAreInside(selector)
    ensures var path := Opened(selector);
      var found := Find(env.files, path);
      && (Refused(found, false, reply) ==> Decide(env) == Drop(Some(reply)))
      && (IsFolder(found) && Refused(Find(env.indexes, path), true, reply) ==> Decide(env) == Drop(Some(reply)))
  {
    RequestIsHeard(env, selector, query);
    AcceptedIff(selector);
    hide Requests, Accepted, PeriodsAreInside, Parse, Opened, Receive;
  }

  /** Otherwise its file is sent, or run; it is refused only if no process can be started. */
  lemma FoundAreServed(env: Env, selector: Bytes, query: Option<Bytes>, stat: Stat, index: bool)
    requires Requests(env, selector, query) && PeriodsAreInside(selector)
    requires stat.Stat? && stat.kind == RegularFile
    requires var path := Opened(selector);
      if index then IsFolder(Find(env.files, path)) && Find(env.indexes, path) == Present(stat)
      else Find(env.files, path) == Present(stat)
    ensures !stat.executable ==> Decide(env) == Serve(stat.content)
    ensures stat.executable && env.forks ==>
              Decide(env) == Run(ScriptName(selector, index), if query.Some? then CStr(query.value) else [])
    ensures stat.executable && !env.forks ==> Decide(env) == Drop(Some(InternalError))
  {
    RequestIsHeard(env, selector, query);
    AcceptedIff(selector);
    CStrOfPrefix([], []);
    hide Requests, Accepted, PeriodsAreInside, Parse, Opened, Receive, ScriptName;
  }

  /** In every run, a client whose request is refused departs at once, and is sent the error and nothing
      else. */
  lemma RefusalsAreTold(g: Config, states: seq<State>, steps: seq<Step>, i: nat, j: nat, id: nat, reply: Option<Message>)
    requires IsRun(g, states, steps) && i < j < |states| && TakesRequest(states[i], steps[i], id)
    requires Decide(steps[i].env) == Drop(reply)
    ensures !IsConnected(states[j], id) && HasLeft(states[j], id, Output([], if reply.Some? then [reply.value] else []))
  {
    RequestsAreAnswered(g, states, steps, i, j, id);
    hide IsRun, Decide, TakesRequest;
    var t := states[j];
    assert !IsConnected(t, id);
    var k :| 0 <= k < |t.departed| && t.departed[k].id == id;
    assert t.departed[k] == Departed(id, Output([], if reply.Some? then [reply.value] else []));
  }
}
