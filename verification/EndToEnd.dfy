/** From the server to a listing program and back: what a client gets that follows a printed link. */
module EndToEnd {
  import opened Bytes
  import opened Selectors
  import opened Request
  import opened Links
  import opened Deliveries
  import opened Histories
  import opened ServerRuns
  import opened ServerState
  import opened Menus
  import Listing

  const ENV_BUFFER_SIZE: nat := 1024

  /** The file at a path, relative to the serving directory, given by its components. */
  function FileAt(env: Env, components: seq<Bytes>): Found {
    Find(env.files, [DOT] + Render(components))
  }

  /** What a request for whatever is at a path comes to. */
  function Delivery(env: Env, components: seq<Bytes>, query: Bytes): Outcome {
    var path := Render(components);
    match FileAt(env, components)
    case Absent(error) => Refusal(error)
    case Present(StatError) => Drop(Some(InternalError))
    case Present(stat) =>
      match stat.kind
      case RegularFile => Handover(stat, path, query, env.forks)
      case DirectoryFile => IndexDelivery(env, components, query)
      case OtherKind => Drop(Some(Forbidden))
  }

  /** A directory comes to its index file. */
  function IndexDelivery(env: Env, components: seq<Bytes>, query: Bytes): Outcome {
    var path := Render(components);
    match Find(env.indexes, [DOT] + path)
    case Absent(error) => Refusal(error)
    case Present(StatError) => Drop(Some(InternalError))
    case Present(stat) =>
      if stat.kind != RegularFile then Drop(Some(Forbidden)) else Handover(stat, path + [SLASH], query, env.forks)
  }

  /** A file is sent; a program is run, and told this SCRIPT_NAME and QUERY_STRING. */
  function Handover(stat: Stat, script: Bytes, query: Bytes, forks: bool): Outcome
    requires stat.Stat?
  {
    if !stat.executable then Serve(stat.content)
    else if forks then Run(script, query)
    else Drop(Some(InternalError))
  }

  /** A file that is not there, or not to be read, or cannot be opened for another reason. */
  function Refusal(error: OpenError): Outcome {
    match error
    case NoEntry => Drop(Some(NotFound))
    case NoAccess => Drop(Some(Forbidden))
    case OtherError => Drop(Some(InternalError))
  }

  /** What a program is told of the query in a request. */
  function Asked(query: Option<Bytes>): Bytes {
    if query.Some? then CStr(query.value) else []
  }

  /** A request that fits, with or without a query, for a link that leads to components: it is a request
      for what is there. */
  lemma LinkIsDecided(link: Bytes, query: Option<Bytes>, rest: Bytes, components: seq<Bytes>, env: Env)
    requires Safe(link) && NUL !in link && LeadsTo(link, rest, components)
    requires |Print(link, query)| <= MAX_REQUEST_SIZE && (query.Some? ==> !HasCrlf(query.value))
    requires env.queued == Print(link, query) + rest && env.ending == WouldBlock
    ensures Decide(env) == Delivery(env, components, Asked(query))
  {
    hide Accepted, Opened, Parse, Render, ScriptName, Safe, IndexOf;
    LinkArrives(link, query, rest);
    PrintedIsLonger(link, query);
    FittingIsHeard(link, rest);
    ScriptOfFile(link, components);
    CStrOfPrefix([], []);
  }

  lemma PrintedIsLonger(link: Bytes, query: Option<Bytes>)
    ensures |Print(link, query)| >= |link| + 2
  {
  }

  lemma LinkArrives(link: Bytes, query: Option<Bytes>, rest: Bytes)
    requires Safe(link) && |Print(link, query)| <= MAX_REQUEST_SIZE && (query.Some? ==> !HasCrlf(query.value))
    ensures var r := Receive(Print(link, query) + rest, WouldBlock);
      r.Data? && Parse(r.bytes) == Some(Parsed(link, if query.Some? then query.value else []))
  {
    RequestArrives(link, query, rest, WouldBlock);
  }

  /** A program found as a file is told its path from the serving directory, one found as the index of a
      directory that of the directory with a slash behind it. */
  lemma ScriptOfFile(s: Bytes, components: seq<Bytes>)
    requires Opened(s) == [DOT] + Render(components) && NUL !in s
    ensures ScriptName(s, false) == Render(components)
    ensures ScriptName(s, true) == Render(components) + [SLASH]
  {
    hide Parts, Render, IndexOf, ScriptName, NulLed;
    CStrOfPrefix(s, []);
    OpenedIsNormalOfCut(s);
    assert !NulLed(s) by {
      NoNulNoMark(s);
    }
    assert Normal(s) + [] == Normal(s);
    assert Normal(s)[1..] == Render(Parts(s)) == ([DOT] + Render(components))[1..] == Render(components);
    ScriptNameIs(s, false);
    ScriptNameIs(s, true);
    assert Render(Parts(s)) + [] == Render(Parts(s));
  }

  lemma NoNulNoMark(s: Bytes)
    requires NUL !in s
    ensures !NulLed(s)
  {
    IndexOfIs(s, NUL, |s|);
  }

  /** The strings put in the environment of a CGI program are never truncated. */
  lemma EnvironmentFits(env: Env)
    requires Decide(env).Run?
    ensures |"SCRIPT_NAME=" + Decide(env).script| < ENV_BUFFER_SIZE
    ensures |"QUERY_STRING=" + Decide(env).query| < ENV_BUFFER_SIZE
  {
    hide Accepted, Opened, ScriptName;
    var request := Parse(Receive(env.queued, env.ending).bytes).value;
    ScriptNameLength(request.selector, true);
    ScriptNameLength(request.selector, false);
  }

  /** The request a CGI program was started for. */
  function RequestOf(env: Env): Parsed
    requires Decide(env).Run?
  {
    Parse(Receive(env.queued, env.ending).bytes).value
  }

  /** It was found as the index of a directory, not as a file. */
  predicate FoundAsIndex(env: Env)
    requires Decide(env).Run?
  {
    Find(env.files, Opened(RequestOf(env).selector)).stat.kind == DirectoryFile
  }

  lemma RunIsFor(env: Env)
    requires Decide(env).Run?
    ensures var s := RequestOf(env).selector;
      && Accepted(s) && Safe(s) && Decide(env).script == ScriptName(s, FoundAsIndex(env))
  {
    hide Accepted, Opened, ScriptName, Safe;
    SelectorIsSafe(Receive(env.queued, env.ending).bytes);
  }

  lemma SelectorIsSafe(data: Bytes)
    requires Parse(data).Some?
    ensures Safe(Parse(data).value.selector)
  {
    ParsedWasPrinted(data);
  }

  /** The variables gopherlist is run with for this request, as far as the request settles them. */
  predicate IsRunWith(first: Env, env: Listing.Variables) {
    Decide(first).Run? && env.selector == Some(Decide(first).script) && env.query == Some(Decide(first).query)
  }

  /** A client asks for a listing, by a file or by a directory and perhaps with a word to search for; the
      server runs gopherlist, which prints the menu; a client reads a line of it and requests the selector
      there, perhaps with a query: in every state of every run, either it is still being given what is at
      the place the item is for, with exactly the bytes counted out, or it has departed with the start of
      it, and likewise for a program, for the index of a directory, and for a refusal. The directory listed
      is the one gopherlist runs in exactly when no NUL hid the slash of a directory. */
  lemma MenuIsDelivered(first: Env, env: Listing.Variables, entries: seq<Bytes>, stats: map<Bytes, Listing.FileStat>, m: nat,
                        query: Option<Bytes>, rest: Bytes,
                        g: Config, states: seq<State>, steps: seq<Step>, i: nat, j: nat, id: nat)
    returns (target: seq<Bytes>)
    requires IsRunWith(first, env) && (FoundAsIndex(first) || FoundAsFile(first))
    requires Safe(Listing.Str(env.host)) && Safe(Listing.Str(env.port))
    requires forall k :: 0 <= k < |entries| ==> InDirectory(entries[k]) && Safe(entries[k])
    requires m < |MenuLines(env, entries, stats)| && IsItem(MenuLines(env, entries, stats)[m])
    requires IsRun(g, states, steps) && i < j < |states| && TakesRequest(states[i], steps[i], id)
    requires Asks(steps[i].env, FieldsOf(MenuLines(env, entries, stats)[m]), query, rest)
    ensures Offers(env, entries, stats, ListedIn(first), MenuLines(env, entries, stats)[m], target)
    ensures Answered(states[j], id, Delivery(steps[i].env, target, Asked(query)))
    ensures ListedIn(first) == WorkingDirectory(RequestOf(first).selector, FoundAsIndex(first))
       <==> !SlashHidden(RequestOf(first).selector, FoundAsIndex(first))
  {
    RunIsFor(first);
    RunsAreReadable(first, env, entries);
    RequestsAreAnswered(g, states, steps, i, j, id);
    var s, directory := RequestOf(first).selector, FoundAsIndex(first);
    assert StartedFor(env, s, directory);
    hide Decide, FieldsOf, Parts, Render, IndexOf, Safe, LeadsTo, ScriptName, Accepted, CStr, NulLed, IsRun, TakesRequest,
         Answered, ListedDirectory, SlashHidden, FoundAsIndex, Inv, Delivery, MenuLines, Offers, StartedFor, Readable, IsItem;
    target := ItemLeads(env, s, directory, entries, stats, m, rest);
    var link := FieldsOf(MenuLines(env, entries, stats)[m])[1];
    PrintedIsLonger(link, query);
    LinkIsDecided(link, query, rest, target, steps[i].env);
    ListedIsShorter(s, directory);
  }

  lemma RunsAreReadable(first: Env, env: Listing.Variables, entries: seq<Bytes>)
    requires IsRunWith(first, env) && Safe(Listing.Str(env.host)) && Safe(Listing.Str(env.port))
    requires forall k :: 0 <= k < |entries| ==> InDirectory(entries[k]) && Safe(entries[k])
    ensures Readable(env, entries)
  {
    QueryIsWhole(first);
    hide Decide, Safe, HasCrlf, InDirectory;
  }

  /** The query a program is told has no CRLF in it. */
  lemma QueryIsWhole(env: Env)
    requires Decide(env).Run?
    ensures !HasCrlf(Decide(env).query)
  {
    hide Accepted, Opened, ScriptName, Parse;
    var data := Receive(env.queued, env.ending).bytes;
    ParsedWasPrinted(data);
    var q := Parse(data).value.query;
    assert Decide(env).query == CStr(q);
    assert forall k :: CrlfAt(CStr(q), k) ==> CrlfAt(q, k);
  }

  /** The same for one entry, whatever the other names of the directory are. */
  lemma ListedNamesAreDelivered(first: Env, env: Listing.Variables, kind: Byte, name: Bytes, more: Bytes,
                                query: Option<Bytes>, rest: Bytes,
                                g: Config, states: seq<State>, steps: seq<Step>, i: nat, j: nat, id: nat)
    requires Decide(first).Run? && env.selector == Some(Decide(first).script)
    requires FoundAsIndex(first) || FoundAsFile(first)
    requires FileName(name) && Safe([kind] + name) && Safe(Listing.Str(env.host)) && Safe(Listing.Str(env.port))
    requires IsRun(g, states, steps) && i < j < |states| && TakesRequest(states[i], steps[i], id)
    requires Asks(steps[i].env, Fields(Listing.Entry(env, kind, name) + more), query, rest)
    ensures Answered(states[j], id, Delivery(steps[i].env, ListedIn(first) + [name], Asked(query)))
  {
    RunIsFor(first);
    RequestsAreAnswered(g, states, steps, i, j, id);
    hide Decide, Fields, Parts, Render, IndexOf, Safe, LeadsTo, ScriptName, Accepted, CStr, NulLed, IsRun, TakesRequest,
         Answered, ListedDirectory, SlashHidden, FoundAsIndex, Inv, Delivery;
    var s, directory := RequestOf(first).selector, FoundAsIndex(first);
    FollowingAnEntry(s, directory, env, kind, name, more, rest);
    var link := Listing.Link(Listing.Dir(env), name);
    ListedLinkIsPrinted(s, directory, env, kind, name, more, rest);
    PrintedIsLonger(link, query);
    LinkIsDecided(link, query, rest, ListedDirectory(s, directory) + [name], steps[i].env);
  }

  /** A program that is run for a request is told the query in it, up to a NUL. */
  lemma QueryIsTold(link: Bytes, query: Option<Bytes>, rest: Bytes, components: seq<Bytes>, env: Env)
    requires Safe(link) && NUL !in link && LeadsTo(link, rest, components)
    requires |Print(link, query)| <= MAX_REQUEST_SIZE && (query.Some? ==> !HasCrlf(query.value))
    requires env.queued == Print(link, query) + rest && env.ending == WouldBlock
    requires Decide(env).Run?
    ensures Decide(env).query == Asked(query)
    ensures Decide(env).script == Render(components) + if FoundAsIndex(env) then [SLASH] else []
  {
    LinkIsDecided(link, query, rest, components, env);
    LinkArrives(link, query, rest);
    PrintedIsLonger(link, query);
    FittingIsHeard(link, rest);
    hide Decide, Asked, Parse, Render, Safe, Receive, Accepted;
    DeliveredAs(env, link, components, Asked(query));
  }

  lemma RequestIs(env: Env, link: Bytes)
    requires Decide(env).Run? && Receive(env.queued, env.ending).Data?
    requires var request := Parse(Receive(env.queued, env.ending).bytes); request.Some? && request.value.selector == link
    ensures RequestOf(env).selector == link
  {
  }

  lemma DeliveredAs(env: Env, link: Bytes, components: seq<Bytes>, query: Bytes)
    requires Decide(env).Run? && Decide(env) == Delivery(env, components, query)
    requires RequestOf(env).selector == link && Opened(link) == [DOT] + Render(components)
    ensures Decide(env).query == query
    ensures Decide(env).script == Render(components) + if FoundAsIndex(env) then [SLASH] else []
    ensures FoundAsIndex(env) <==> FileAt(env, components).Present? && FileAt(env, components).stat.Stat?
                                   && FileAt(env, components).stat.kind == DirectoryFile
  {
    hide Decide, Opened, Render, RequestOf;
    assert Render(components) + [] == Render(components);
  }

  /** A listed directory with gopherlist as its index: its link makes gopherlist run there, and list that
      very directory, searched for the query if there is one. */
  lemma ListedDirectoriesAreListed(env: Env, link: Bytes, query: Option<Bytes>, rest: Bytes, components: seq<Bytes>)
    requires Safe(link) && NUL !in link && LeadsTo(link, rest, components)
    requires |Print(link, query)| <= MAX_REQUEST_SIZE && (query.Some? ==> !HasCrlf(query.value))
    requires env.queued == Print(link, query) + rest && env.ending == WouldBlock
    requires FileAt(env, components).Present? && FileAt(env, components).stat.Stat?
    requires FileAt(env, components).stat.kind == DirectoryFile
    requires Decide(env).Run?
    ensures FoundAsIndex(env) && !SlashHidden(RequestOf(env).selector, true)
    ensures Listing.Containing(Decide(env).script) == Render(components)
    ensures Render(ListedIn(env)) == Render(WorkingDirectory(RequestOf(env).selector, true)) == Render(components)
    ensures Decide(env).query == Asked(query)
  {
    LinkIsDecided(link, query, rest, components, env);
    LinkArrives(link, query, rest);
    PrintedIsLonger(link, query);
    FittingIsHeard(link, rest);
    hide Decide, Parse, Render, Parts, ScriptName, Opened, Safe, NulLed, Listing.Containing, CStr, IndexOf, Receive, Asked,
         Accepted;
    assert RequestOf(env).selector == link by {
      RequestIs(env, link);
    }
    DeliveredAs(env, link, components, Asked(query));
    hide FoundAsIndex, Delivery, LeadsTo;
    ContainingOfFile(components, []);
    assert Render(components) + [SLASH] + [] == Render(components) + [SLASH];
    RunIsFor(env);
    var tail := ScriptNameSplits(link, true);
  }

  /** stat of gopherlist and fstat of the server see the same file. */
  predicate SameFile(listed: Listing.FileStat, found: Found) {
    match listed
    case Regular(executable) =>
      found.Present? && found.stat.Stat? && found.stat.kind == RegularFile && found.stat.executable == executable
    case Directory => found.Present? && found.stat.Stat? && found.stat.kind == DirectoryFile
    case Special => found.Present? && found.stat.Stat? && found.stat.kind == OtherKind
    case Unreadable => true
  }

  /** The menu type of a name tells what its link is good for: a 7 is run, with what is typed as its query;
      a 1 is a directory, and what runs there is told so by a slash; any other type is sent as it is; and a
      name without a type would be forbidden. */
  lemma TypeTellsDelivery(env: Env, link: Bytes, query: Option<Bytes>, rest: Bytes, components: seq<Bytes>, name: Bytes,
                          listed: Listing.FileStat)
    requires Safe(link) && NUL !in link && LeadsTo(link, rest, components)
    requires |Print(link, query)| <= MAX_REQUEST_SIZE && (query.Some? ==> !HasCrlf(query.value))
    requires env.queued == Print(link, query) + rest && env.ending == WouldBlock
    requires SameFile(listed, FileAt(env, components)) && listed != Listing.Unreadable
    ensures match Listing.MenuType(name, listed)
      case None => Decide(env) == Drop(Some(Forbidden))
      case Some(kind) =>
        if kind == '7' then
          Decide(env) == if env.forks then Run(Render(components), Asked(query)) else Drop(Some(InternalError))
        else if kind == '1' then
          Decide(env).Run? ==> Decide(env) == Run(Render(components) + [SLASH], Asked(query))
        else Decide(env) == Serve(FileAt(env, components).stat.content)
  {
    LinkIsDecided(link, query, rest, components, env);
    TypeTells(name, listed);
    hide Decide, Render, Asked, LeadsTo, Safe, Listing.MenuType;
    DeliveryTells(env, components, Asked(query), listed);
  }

  lemma TypeTells(name: Bytes, listed: Listing.FileStat)
    requires listed != Listing.Unreadable
    ensures match Listing.MenuType(name, listed)
      case None => listed == Listing.Special
      case Some(kind) =>
        if kind == '7' then listed == Listing.Regular(true)
        else if kind == '1' then listed == Listing.Directory
        else listed == Listing.Regular(false)
  {
    if Listing.MenuType(name, listed).Some? {
      TypesAreItems(name, listed);
    }
    hide Listing.Lookup, Listing.Extension;
  }

  lemma DeliveryTells(env: Env, components: seq<Bytes>, query: Bytes, listed: Listing.FileStat)
    requires SameFile(listed, FileAt(env, components)) && listed != Listing.Unreadable
    ensures var outcome := Delivery(env, components, query);
      match listed
      case Special => outcome == Drop(Some(Forbidden))
      case Regular(true) => outcome == if env.forks then Run(Render(components), query) else Drop(Some(InternalError))
      case Regular(false) => outcome == Serve(FileAt(env, components).stat.content)
      case Directory => outcome.Run? ==> outcome == Run(Render(components) + [SLASH], query)
      case Unreadable => true
  {
    hide Render;
  }

  /** A search: whatever runs for a request with a word, if it is gopherlist it lists exactly the names of
      its directory that are not hidden and have the word in them, each as often as it occurs. */
  lemma SearchesAreFiltered(first: Env, env: Listing.Variables, link: Bytes, query: Option<Bytes>, rest: Bytes,
                            components: seq<Bytes>, entries: seq<Bytes>)
    requires Safe(link) && NUL !in link && LeadsTo(link, rest, components)
    requires |Print(link, query)| <= MAX_REQUEST_SIZE && (query.Some? ==> !HasCrlf(query.value))
    requires first.queued == Print(link, query) + rest && first.ending == WouldBlock
    requires IsRunWith(first, env)
    ensures Listing.Query(env) == Asked(query)
    ensures forall name :: multiset(Names(env, entries))[name]
                        == if Listing.Wanted(name, Asked(query)) then multiset(entries)[name] else 0
  {
    QueryIsTold(link, query, rest, components, first);
    hide Decide, Names, Listing.Wanted, Asked, LeadsTo, Safe, FoundAsIndex;
    NamesAreWanted(env, entries);
  }

  /** The file it was found as has a path that does not end in a slash. */
  predicate FoundAsFile(env: Env)
    requires Decide(env).Run?
  {
    var s := RequestOf(env).selector;
    !FoundAsIndex(env) && Parts(CStr(s)) != [] && !NulLed(s)
  }

  /** The directory a listing program started for this request takes itself to be in. */
  function ListedIn(env: Env): seq<Bytes>
    requires Decide(env).Run?
  {
    ListedDirectory(RequestOf(env).selector, FoundAsIndex(env))
  }

  /** The selector in a menu line is requested, perhaps with a query, by a request that fits. */
  ghost predicate Asks(env: Env, fields: seq<Bytes>, query: Option<Bytes>, rest: Bytes) {
    && (query.Some? ==> !HasCrlf(query.value))
    && (|fields| > 1 ==>
          && |Print(fields[1], query)| <= MAX_REQUEST_SIZE
          && env.queued == Print(fields[1], query) + rest && env.ending == WouldBlock)
  }

  lemma ListedIsShorter(s: Bytes, directory: bool)
    requires directory || (Parts(CStr(s)) != [] && !NulLed(s))
    ensures ListedDirectory(s, directory) == WorkingDirectory(s, directory) <==> !SlashHidden(s, directory)
  {
    hide Parts, NulLed, CStr, ScriptName, Render, Listing.Containing;
    var tail := ScriptNameSplits(s, directory);
  }

  /** The second field of the line is the link, and it can be sent. */
  lemma ListedLinkIsPrinted(s: Bytes, directory: bool, env: Listing.Variables, kind: Byte, name: Bytes, more: Bytes,
                            rest: Bytes)
    requires Accepted(s) && Safe(s) && FileName(name) && Safe([kind] + name)
    requires directory || (Parts(CStr(s)) != [] && !NulLed(s))
    requires env.selector == Some(ScriptName(s, directory))
    requires Safe(Listing.Str(env.host)) && Safe(Listing.Str(env.port))
    ensures var fields, link := Fields(Listing.Entry(env, kind, name) + more), Listing.Link(Listing.Dir(env), name);
      |fields| == 4 && fields[1] == link && Safe(link) && NUL !in link
  {
    hide Fields, Parts, Render, IndexOf, Safe, ScriptName, CStr, NulLed, ListedDirectory, Accepted, LeadsTo;
    SafeSlices([kind] + name, 1, |name| + 1);
    assert ([kind] + name)[1..|name| + 1] == name;
    EntryLinkLeads(s, directory, name, rest);
    SafeNameIffSafeListing(s, directory, name);
    DirectoryIsPlain(s, directory);
    NameIsPlain(ListedDirectory(s, directory), name);
    RenderKeepsOut(ListedDirectory(s, directory) + [name], NUL);
    ItemReadsBack([kind] + name, Listing.Link(Listing.Dir(env), name), Listing.Str(env.host), Listing.Str(env.port), more);
  }

  // ---- The listing fits its buffer ------------------------------------------------------------------

  const NAME_MAX: nat := 255

  /** Run by the server, gopherlist never has a line or a header too long for its threshold: the server
      bounds what its variables hold, and names are those of files. So its listing is never cut. */
  lemma ListingFits(first: Env, env: Listing.Variables, names: seq<Bytes>, stats: map<Bytes, Listing.FileStat>)
    requires Decide(first).Run? && env.selector == Some(Decide(first).script)
    requires env.query == Some(Decide(first).query)
    requires |"SERVER_NAME=" + Listing.Str(env.host)| < ENV_BUFFER_SIZE
    requires |"SERVER_PORT=" + Listing.Str(env.port)| < ENV_BUFFER_SIZE
    requires forall k :: 0 <= k < |names| ==> |names[k]| <= NAME_MAX
    ensures Listing.Fits(env, names, stats)
  {
    EnvironmentFits(first);
    hide Decide, Listing.MenuType, Listing.Containing, Listing.ParentOf;
    DirFits(env);
    HeaderFits(env);
  }

  lemma DirFits(env: Listing.Variables)
    requires env.selector.Some?
    ensures |Listing.Dir(env)| <= |env.selector.value|
    ensures Listing.Parent(env).Some? ==> |Listing.Parent(env).value| <= |env.selector.value|
  {
  }

  lemma HeaderFits(env: Listing.Variables)
    requires env.selector.Some? && |env.selector.value| < ENV_BUFFER_SIZE
    requires |Listing.Query(env)| < ENV_BUFFER_SIZE
    requires |Listing.Str(env.host)| < ENV_BUFFER_SIZE && |Listing.Str(env.port)| < ENV_BUFFER_SIZE
    ensures |Listing.Concat(Listing.Header(env))| <= Listing.BUFFER_LENGTH - Listing.BUFFER_LEFTOVER
  {
    hide Listing.Dir, Listing.Parent, Listing.Query, Listing.Str;
    DirFits(env);
    ConcatBound(Listing.Header(env), 5 * ENV_BUFFER_SIZE);
  }

  /** Texts of at most n bytes each. */
  lemma {:induction false} ConcatBound(texts: seq<Bytes>, n: nat)
    requires forall k :: 0 <= k < |texts| ==> |texts[k]| <= n
    ensures |Listing.Concat(texts)| <= |texts| * n
  {
    if texts != [] {
      ConcatBound(texts[..|texts| - 1], n);
      assert |texts| * n == (|texts| - 1) * n + n;
    }
  }
}
