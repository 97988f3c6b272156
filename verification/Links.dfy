/**
 * The round trip across the two programs: a selector that reached gopherlist through
 * SCRIPT_NAME, the links gopherlist prints, and what the server makes of those links.
 */
module Links {
  import opened Bytes
  import opened Selectors
  import opened Request
  import opened Listing

  /** A file of a directory as readdir gives it: not hidden, no slash, no NUL. */
  predicate FileName(name: Bytes) {
    name != [] && SLASH !in name && NUL !in name && name[0] != DOT
  }

  /** The selector the server sees when `link` is requested and `rest` follows the CRLF. */
  function Requested(link: Bytes, rest: Bytes): Option<Bytes> {
    match Receive(Print(link, None) + rest, WouldBlock)
    case Lost(_) => None
    case Data(bytes) => if Parse(bytes).None? then None else Some(Parse(bytes).value.selector)
  }

  /** Requesting the link leads to the file with these path components. */
  predicate LeadsTo(link: Bytes, rest: Bytes, components: seq<Bytes>) {
    var s := Requested(link, rest);
    s.Some? && Accepted(s.value) && Opened(s.value) == [DOT] + Render(components)
  }

  ghost predicate Safe(s: Bytes) {
    TAB !in s && !HasCrlf(s)
  }

  /** The directory a CGI program runs in: that of the index file, or the one that holds the file. */
  function WorkingDirectory(s: Bytes, directory: bool): seq<Bytes> {
    var ps := Parts(CStr(s));
    if directory || ps == [] then ps else ps[..|ps| - 1]
  }

  // ---- What SCRIPT_NAME says about the directory -----------------------------------------

  lemma ContainingOfFile(front: seq<Bytes>, last: Bytes)
    requires SLASH !in last
    ensures Containing(Render(front) + [SLASH] + last) == Render(front)
  {
    LastIndexOfIs(Render(front) + [SLASH] + last, SLASH, |Render(front)|);
  }

  lemma RenderSnoc(front: seq<Bytes>, last: Bytes)
    requires last != []
    ensures Render(front + [last]) == Render(front) + [SLASH] + last
  {
    hide Render;
    RenderConcat(front, Piece(last));
    RenderOfPiece(last);
    assert Render(front) + ([SLASH] + last) == Render(front) + [SLASH] + last;
  }

  /** gopherlist takes the directory from the last slash of SCRIPT_NAME. That is the directory it
      runs in, however it was invoked, unless a NUL hid the slash that marks a directory. */
  lemma ContainingIsWorkingDirectory(s: Bytes, directory: bool)
    requires directory || (Parts(CStr(s)) != [] && !NulLed(s))
    ensures Containing(ScriptName(s, directory)) == Render(WorkingDirectory(s, directory))
       <==> !(directory && NUL in s && !NulLed(s))
  {
    hide Parts, Render, IndexOf, LastIndexOf, Containing, ScriptName;
    var ps := Parts(CStr(s));
    PartsAreClean(CStr(s));
    ScriptNameIs(s, directory);
    if NulLed(s) || (directory && NUL !in s) {
      ContainingOfFile(ps, []);
      assert Render(ps) + [SLASH] + [] == Render(ps) + [SLASH];
    } else {
      if NUL in s {
        CutPartExists(s);
      }
      var front, last := ps[..|ps| - 1], ps[|ps| - 1];
      assert ps == front + [last];
      RenderSnoc(front, last);
      ContainingOfFile(front, last);
      assert Render(ps) + [] == Render(ps);
    }
  }

  lemma CutPartExists(s: Bytes)
    requires NUL in s && !NulLed(s)
    ensures Parts(CStr(s)) != []
  {
    var i := IndexOf(s, NUL);
    var c := CStr(s);
    var j := LastIndexOf(c, SLASH);
    if j == i {
      PartsOfPiece(c);
    } else {
      assert c == Join(c[..j], c[j + 1..]);
      PartsConcat(c[..j], c[j + 1..]);
      PartsOfPiece(c[j + 1..]);
    }
  }

  /** A NUL hid the slash that tells gopherlist it was found as a directory. */
  predicate SlashHidden(s: Bytes, directory: bool) {
    directory && NUL in s && !NulLed(s)
  }

  /** The directory gopherlist takes itself to be in. */
  function ListedDirectory(s: Bytes, directory: bool): seq<Bytes> {
    var d := WorkingDirectory(s, directory);
    if SlashHidden(s, directory) && d != [] then d[..|d| - 1] else d
  }

  /** SCRIPT_NAME in terms of that directory: its path, a slash, and the name of a file unless it
      ends there. */
  lemma ScriptNameSplits(s: Bytes, directory: bool) returns (tail: Bytes)
    requires directory || (Parts(CStr(s)) != [] && !NulLed(s))
    ensures SLASH !in tail && (SlashHidden(s, directory) ==> WorkingDirectory(s, directory) != [])
    ensures ScriptName(s, directory) == Render(ListedDirectory(s, directory)) + [SLASH] + tail
    ensures Containing(ScriptName(s, directory)) == Render(ListedDirectory(s, directory))
  {
    hide Parts, Render, IndexOf, ScriptName, Containing, NulLed;
    var ps, d := Parts(CStr(s)), ListedDirectory(s, directory);
    PartsAreClean(CStr(s));
    ScriptNameIs(s, directory);
    if SlashHidden(s, directory) {
      CutPartExists(s);
    }
    if directory && !SlashHidden(s, directory) {
      tail := [];
      assert Render(ps) + [SLASH] + [] == Render(ps) + [SLASH];
    } else {
      tail := ps[|ps| - 1];
      assert ps == d + [tail];
      RenderSnoc(d, tail);
      assert Render(ps) + [] == Render(ps);
    }
    ContainingOfFile(d, tail);
  }

  // ---- Links without TAB and CRLF ---------------------------------------------------------

  lemma SafeConcat(a: Bytes, b: Bytes)
    requires Safe(a) && Safe(b)
    ensures Safe(a + [SLASH] + b)
  {
    var s := a + [SLASH] + b;
    assert forall k :: CrlfAt(s, k) ==> CrlfAt(a, k) || CrlfAt(b, k - |a| - 1);
  }

  lemma SafeSlices(s: Bytes, i: nat, j: nat)
    requires Safe(s) && i <= j <= |s|
    ensures Safe(s[i..j])
  {
    assert forall k :: CrlfAt(s[i..j], k) ==> CrlfAt(s, i + k);
    assert forall k :: 0 <= k < j - i ==> s[i..j][k] == s[i + k];
  }

  lemma {:induction false} SafeParts(s: Bytes)
    requires Safe(s)
    ensures Safe(Render(Parts(s)))
    decreases |s|
  {
    hide Parts, Render, Safe;
    if SLASH in s {
      var p, rest := FirstJoin(s);
      PartsOfJoin(p, rest);
      RenderConcat(Piece(p), Parts(rest));
      RenderOfPiece(p);
      SafeSlices(s, 0, |p|);
      SafeSlices(s, |p| + 1, |s|);
      assert s[0..|p|] == p && s[|p| + 1..|s|] == rest;
      SafeParts(rest);
      SafeEmpty();
      SafeConcat([], p);
      assert [] + [SLASH] + p == [SLASH] + p;
      StartsWithSlash(Parts(rest));
      SafeGlue([SLASH] + p, Render(Parts(rest)));
      assert [] + Render(Parts(rest)) == Render(Parts(rest));
    } else {
      PartsOfPiece(s);
      RenderOfPiece(s);
      SafeEmpty();
      SafeConcat([], s);
      assert [] + [SLASH] + s == [SLASH] + s;
    }
  }

  lemma SafeEmpty()
    ensures Safe([])
  {
  }

  lemma StartsWithSlash(ps: seq<Bytes>)
    ensures Render(ps) == [] || Render(ps)[0] == SLASH
  {
  }

  lemma SafeGlue(a: Bytes, b: Bytes)
    requires Safe(a) && Safe(b) && (b == [] || b[0] == SLASH)
    ensures Safe(a + b)
  {
    if b == [] {
      assert a + b == a;
    } else {
      SafeSlices(b, 1, |b|);
      SafeConcat(a, b[1..|b|]);
      assert a + [SLASH] + b[1..|b|] == a + b;
    }
  }

  // ---- Following a printed link -------------------------------------------------------------

  /** A rendered path requested as it stands leads to its components. */
  lemma RenderedPathWorks(ps: seq<Bytes>, slash: bool, rest: Bytes)
    requires AllClean(ps) && Visible(ps) && NoneHas(ps, NUL)
    requires Safe(Render(ps) + if slash then [SLASH] else [])
    requires |Render(ps)| + (if slash then 1 else 0) + 2 <= MAX_REQUEST_SIZE
    ensures LeadsTo(Render(ps) + if slash then [SLASH] else [], rest, ps)
  {
    hide Parts, Render, Parse, IndexOf;
    var link := Render(ps) + if slash then [SLASH] else [];
    RequestArrives(link, None, rest, WouldBlock);
    PartsOfRender(ps);
    RenderKeepsOut(ps, NUL);
    assert link == Render(ps) || link == Render(ps) + [SLASH];
    CStrOfPrefix(link, []);
    OpenedIsNormalOfCut(link);
  }

  /** The selector the server sees is the start of what was sent, without TAB or CRLF. */
  lemma RequestedIsSafePrefix(link: Bytes, rest: Bytes)
    requires Requested(link, rest).Some?
    ensures var s := Requested(link, rest).value;
      Safe(s) && s <= link + CRLF + rest && |s| + 2 <= MAX_REQUEST_SIZE
  {
    var sent := Print(link, None) + rest;
    assert sent == link + CRLF + rest;
    var data := Receive(sent, WouldBlock).bytes;
    assert data <= sent;
    ParsedWasPrinted(data);
    var r := Parse(data).value;
    var query: Option<Bytes> :| Printable(r.selector, query) && Print(r.selector, query) <= data;
    assert r.selector <= Print(r.selector, query);
  }

  /** A link that is too long, or has a TAB or CRLF in it, reaches the server cut short. */
  lemma UnsafeLinkIsCut(link: Bytes, rest: Bytes)
    requires !Safe(link) || |link| + 2 > MAX_REQUEST_SIZE
    requires Requested(link, rest).Some?
    ensures var s := Requested(link, rest).value; |s| < |link| && s <= link
  {
    RequestedIsSafePrefix(link, rest);
    var s := Requested(link, rest).value;
    if |s| >= |link| {
      assert s[..|link|] == link;
      SafeSlices(s, 0, |link|);
    } else {
      assert s == (link + CRLF + rest)[..|s|] == link[..|s|];
    }
  }

  lemma ShortSelectorShortPath(s: Bytes)
    requires s != [] ==> s[0] == SLASH
    ensures |Opened(s)| <= |s| + 1
  {
    if s == [] {
      PartsOfPiece([]);
    } else {
      assert s == Join([], s[1..]);
      PartsOfJoin([], s[1..]);
      RenderLength(s[1..]);
      assert Parts(s) == Parts(s[1..]);
    }
  }

  /** A listed file's link leads to that name in the directory gopherlist takes itself to be in,
      exactly when the name is free of TAB and CRLF and the link within the request limit. */
  lemma EntryLinkLeads(s: Bytes, directory: bool, name: Bytes, rest: Bytes)
    requires Accepted(s) && Safe(s) && FileName(name)
    requires directory || (Parts(CStr(s)) != [] && !NulLed(s))
    ensures var link := Link(Containing(ScriptName(s, directory)), name);
      && link == Render(ListedDirectory(s, directory) + [name])
      && (LeadsTo(link, rest, ListedDirectory(s, directory) + [name])
          <==> Safe(name) && |link| + 2 <= MAX_REQUEST_SIZE)
  {
    hide Parts, Render, IndexOf, Safe, Containing, ScriptName, LeadsTo, CStr, NulLed;
    var d := ListedDirectory(s, directory);
    var link := Link(Containing(ScriptName(s, directory)), name);
    var tail := ScriptNameSplits(s, directory);
    DirectoryIsPlain(s, directory);
    RenderSnoc(d, name);
    SafeNameIffSafeLink(Render(d), name);
    if Safe(name) && |link| + 2 <= MAX_REQUEST_SIZE {
      NameIsPlain(d, name);
      assert link + [] == link;
      RenderedPathWorks(d + [name], false, rest);
    } else {
      StartsWithSlash(d + [name]);
      CutLinkFallsShort(link, rest, d + [name]);
    }
  }

  /** A link that is cut on the way leads to no path as long as itself. */
  lemma CutLinkFallsShort(link: Bytes, rest: Bytes, components: seq<Bytes>)
    requires !Safe(link) || |link| + 2 > MAX_REQUEST_SIZE
    requires (link != [] ==> link[0] == SLASH) && |Render(components)| >= |link|
    ensures !LeadsTo(link, rest, components)
  {
    hide Safe, Render, Requested, Opened;
    if Requested(link, rest).Some? {
      UnsafeLinkIsCut(link, rest);
      ShortSelectorShortPath(Requested(link, rest).value);
    }
  }

  /** The path a link leads to is only one. */
  lemma LeadsToOne(link: Bytes, rest: Bytes, ps: seq<Bytes>, qs: seq<Bytes>)
    requires LeadsTo(link, rest, ps) && |Render(ps)| != |Render(qs)|
    ensures !LeadsTo(link, rest, qs)
  {
    hide Render, Requested, Opened, Accepted;
    assert |[DOT] + Render(ps)| == 1 + |Render(ps)| && |[DOT] + Render(qs)| == 1 + |Render(qs)|;
  }

  /** A listed file's link leads to that file of the directory gopherlist runs in exactly when the
      name is free of TAB and CRLF, the link is within the request limit, and no NUL hid the slash of
      the directory. */
  lemma EntryLinkWorks(s: Bytes, directory: bool, name: Bytes, rest: Bytes)
    requires Accepted(s) && Safe(s) && FileName(name)
    requires directory || (Parts(CStr(s)) != [] && !NulLed(s))
    ensures var link := Link(Containing(ScriptName(s, directory)), name);
      && (LeadsTo(link, rest, WorkingDirectory(s, directory) + [name])
          <==> Safe(name) && |link| + 2 <= MAX_REQUEST_SIZE && !SlashHidden(s, directory))
  {
    hide Parts, Render, IndexOf, Safe, Containing, ScriptName, LeadsTo, CStr, NulLed;
    EntryLinkLeads(s, directory, name, rest);
    if SlashHidden(s, directory) {
      var tail := ScriptNameSplits(s, directory);
      var front, d := ListedDirectory(s, directory), WorkingDirectory(s, directory);
      var link := Link(Containing(ScriptName(s, directory)), name);
      DirectoryIsPlain(s, directory);
      LongerBelow(front, d, name);
      if Safe(name) && |link| + 2 <= MAX_REQUEST_SIZE {
        LeadsToOne(link, rest, front + [name], d + [name]);
      } else {
        SafeNameIffSafeListing(s, directory, name);
        StartsWithSlash(front + [name]);
        CutLinkFallsShort(link, rest, d + [name]);
      }
    }
  }

  lemma LongerBelow(front: seq<Bytes>, d: seq<Bytes>, name: Bytes)
    requires d != [] && front == d[..|d| - 1] && name != [] && d[|d| - 1] != []
    ensures |Render(front + [name])| < |Render(d + [name])|
  {
    hide Render;
    assert d == front + [d[|d| - 1]];
    RenderSnoc(front, d[|d| - 1]);
    RenderSnoc(front, name);
    RenderSnoc(d, name);
  }

  lemma SafeNameIffSafeListing(s: Bytes, directory: bool, name: Bytes)
    requires Accepted(s) && Safe(s) && FileName(name)
    ensures Safe(Render(ListedDirectory(s, directory) + [name])) <==> Safe(name)
  {
    hide Render, Safe;
    DirectoryIsPlain(s, directory);
    RenderSnoc(ListedDirectory(s, directory), name);
    SafeNameIffSafeLink(Render(ListedDirectory(s, directory)), name);
  }

  lemma NameIsPlain(d: seq<Bytes>, name: Bytes)
    requires AllClean(d) && Visible(d) && NoneHas(d, NUL) && FileName(name)
    ensures AllClean(d + [name]) && Visible(d + [name]) && NoneHas(d + [name], NUL)
  {
  }

  lemma SafeNameIffSafeLink(dir: Bytes, name: Bytes)
    requires Safe(dir)
    ensures Safe(dir + [SLASH] + name) <==> Safe(name)
  {
    if Safe(name) {
      SafeConcat(dir, name);
    }
    var link := dir + [SLASH] + name;
    if Safe(link) {
      SafeSlices(link, |dir| + 1, |link|);
      assert link[|dir| + 1..|link|] == name;
    }
  }

  /** A front of the parts of an accepted selector: the server accepts its components, and its path
      can be sent. */
  ghost predicate Plain(d: seq<Bytes>) {
    AllClean(d) && Visible(d) && NoneHas(d, NUL) && Safe(Render(d)) && Safe(Render(d) + [SLASH])
  }

  lemma FrontIsPlain(s: Bytes, k: nat)
    requires Accepted(s) && Safe(s) && k <= |Parts(CStr(s))|
    ensures Plain(Parts(CStr(s))[..k])
  {
    hide Parts, Render, IndexOf, Safe;
    var c := CStr(s);
    var d := Parts(c)[..k];
    CutStaysAccepted(s);
    PartsAreClean(c);
    PartsKeepOut(c, NUL);
    SafeSlices(s, 0, |c|);
    assert s[0..|c|] == c;
    SafeParts(c);
    RenderConcat(d, Parts(c)[k..]);
    assert Parts(c) == d + Parts(c)[k..];
    SafeSlices(Render(Parts(c)), 0, |Render(d)|);
    assert Render(Parts(c))[0..|Render(d)|] == Render(d);
    SafeEmpty();
    SafeConcat(Render(d), []);
    assert Render(d) + [SLASH] + [] == Render(d) + [SLASH];
  }

  lemma DirectoryIsPlain(s: Bytes, directory: bool)
    requires Accepted(s) && Safe(s)
    ensures Plain(WorkingDirectory(s, directory)) && Plain(ListedDirectory(s, directory))
    ensures AllClean(WorkingDirectory(s, directory))
  {
    hide Parts, Render, IndexOf, Safe, NulLed, CStr;
    var ps, d, e := Parts(CStr(s)), WorkingDirectory(s, directory), ListedDirectory(s, directory);
    assert d == ps[..|d|] && e == ps[..|e|];
    FrontIsPlain(s, |d|);
    FrontIsPlain(s, |e|);
  }

  // ---- The parent link ------------------------------------------------------------------------

  lemma ParentOfPath(a: Bytes, last: Bytes, tail: Bytes)
    requires SLASH !in last && SLASH !in tail
    ensures ParentOf(a + [SLASH] + last + [SLASH] + tail) == Some(a + [SLASH])
    ensures ParentOf([SLASH] + tail) == None
  {
    hide LastIndexOf;
    var path := a + [SLASH] + last;
    var n := path + [SLASH] + tail;
    LastIndexOfIs(n, SLASH, |path|);
    assert n[..|path|] == path;
    LastIndexOfIs(path, SLASH, |a|);
    assert n[..|a| + 1] == a + [SLASH];
    LastIndexOfIs([SLASH] + tail, SLASH, 0);
    assert LastIndexOf([], SLASH) == 0;
  }

  lemma ParentOfRendered(d: seq<Bytes>, tail: Bytes)
    requires AllClean(d) && SLASH !in tail
    ensures ParentOf(Render(d) + [SLASH] + tail)
         == if d == [] then None else Some(Render(d[..|d| - 1]) + [SLASH])
  {
    hide Render, ParentOf;
    if d != [] {
      var front, last := d[..|d| - 1], d[|d| - 1];
      assert d == front + [last];
      RenderSnoc(front, last);
      ParentOfPath(Render(front), last, tail);
    } else {
      EmptyRender();
      ParentOfPath([], [], tail);
      assert [] + [SLASH] + tail == [SLASH] + tail;
    }
  }

  lemma EmptyRender()
    ensures Render([]) == []
  {
  }

  lemma ScriptNameLength(s: Bytes, directory: bool)
    ensures |ScriptName(s, directory)| <= |s| + 1 + if directory then 1 else 0
  {
    RenderLength(s);
  }

  /** There is a parent link exactly when the directory gopherlist takes itself to be in is not the
      root; it leads one level up from there, which is one level up from where gopherlist runs exactly
      when no NUL hid the slash of the directory. */
  lemma ParentLinkWorks(s: Bytes, directory: bool, rest: Bytes)
    requires Accepted(s) && Safe(s) && |s| + 2 <= MAX_REQUEST_SIZE
    requires directory || (Parts(CStr(s)) != [] && !NulLed(s))
    ensures var d, e := WorkingDirectory(s, directory), ListedDirectory(s, directory);
      var link := ParentOf(ScriptName(s, directory));
      && (link.Some? <==> e != [])
      && (link.Some? ==> LeadsTo(link.value, rest, e[..|e| - 1]))
      && (link.Some? ==> d != [] && (LeadsTo(link.value, rest, d[..|d| - 1]) <==> !SlashHidden(s, directory)))
      && (d != [] ==> (link.Some? && LeadsTo(link.value, rest, d[..|d| - 1]) <==> !SlashHidden(s, directory)))
  {
    hide Parts, Render, IndexOf, Safe, ScriptName, LeadsTo, ParentOf, CStr, NulLed;
    var d, e := WorkingDirectory(s, directory), ListedDirectory(s, directory);
    DirectoryIsPlain(s, directory);
    var tail := ScriptNameSplits(s, directory);
    ParentOfRendered(e, tail);
    if e != [] {
      var front := e[..|e| - 1];
      ParentIsSent(s, directory, tail);
      RenderedPathWorks(front, true, rest);
      if SlashHidden(s, directory) {
        LongerThanParent(e);
        LeadsToOne(Render(front) + [SLASH], rest, front, e);
      }
    }
  }

  lemma LongerThanParent(e: seq<Bytes>)
    requires e != []
    ensures |Render(e[..|e| - 1])| < |Render(e)|
  {
    hide Render;
    assert e == e[..|e| - 1] + [e[|e| - 1]];
    RenderConcat(e[..|e| - 1], [e[|e| - 1]]);
    assert Render([e[|e| - 1]]) != [] by {
      OneIsSome(e[|e| - 1]);
    }
  }

  lemma OneIsSome(p: Bytes)
    ensures Render([p]) != []
  {
  }

  /** The parent link is one the server takes: plain, and no longer than a request. */
  lemma ParentIsSent(s: Bytes, directory: bool, tail: Bytes)
    requires Accepted(s) && Safe(s) && |s| + 2 <= MAX_REQUEST_SIZE && ListedDirectory(s, directory) != []
    requires ScriptName(s, directory) == Render(ListedDirectory(s, directory)) + [SLASH] + tail
    ensures var e := ListedDirectory(s, directory);
      var front := e[..|e| - 1];
      Plain(front) && |Render(front)| + 1 + 2 <= MAX_REQUEST_SIZE
  {
    hide Parts, Render, IndexOf, ScriptName, Safe, NulLed, CStr;
    var ps, e := Parts(CStr(s)), ListedDirectory(s, directory);
    assert e == ps[..|e|] && e[..|e| - 1] == ps[..|e| - 1];
    FrontIsPlain(s, |e|);
    FrontIsPlain(s, |e| - 1);
    ScriptNameLength(s, directory);
    var front, last := e[..|e| - 1], e[|e| - 1];
    assert e == front + [last];
    RenderSnoc(front, last);
  }

  // ---- Reading a menu line --------------------------------------------------------------------

  /** The tab-separated fields of the first line of a menu. */
  function Fields(menu: Bytes): seq<Bytes> {
    Split(menu[..IndexOfCrlf(menu)], TAB)
  }

  /** A client reads back from a menu line the fields it was printed with: type and title,
      selector, host and port, in front of the first CRLF. */
  lemma ItemReadsBack(title: Bytes, link: Bytes, host: Bytes, port: Bytes, more: Bytes)
    requires Safe(title) && Safe(link) && Safe(host) && Safe(port)
    ensures Fields(Item(title, link, host, port) + more) == [title, link, host, port]
  {
    hide Split;
    var body := title + [TAB] + link + [TAB] + host + [TAB] + port;
    var line := Item(title, link, host, port);
    assert line == body + CRLF;
    var a, b, c := |title| + 1, |title| + |link| + 2, |title| + |link| + |host| + 3;
    assert forall k :: k < |body| && CrlfAt(line + more, k) ==>
      CrlfAt(title, k) || CrlfAt(link, k - a) || CrlfAt(host, k - b) || CrlfAt(port, k - c);
    assert CrlfAt(line + more, |body|);
    IndexOfCrlfIs(line + more, |body|);
    assert (line + more)[..|body|] == title + [TAB] + (link + [TAB] + (host + [TAB] + port));
    SplitOfJoin(title, TAB, link + [TAB] + (host + [TAB] + port));
    SplitOfJoin(link, TAB, host + [TAB] + port);
    SplitOfJoin(host, TAB, port);
    SplitOfPiece(port, TAB);
  }

  /** From menu line to file: a client that reads the entry of a listed file and requests the
      selector in it is led to that name in the directory gopherlist takes itself to be in if the link
      fits a request, and to that file of the directory it runs in if no NUL hid the slash either. */
  lemma FollowingAnEntry(s: Bytes, directory: bool, env: Variables, kind: Byte, name: Bytes, more: Bytes, rest: Bytes)
    requires Accepted(s) && Safe(s) && FileName(name) && Safe([kind] + name)
    requires directory || (Parts(CStr(s)) != [] && !NulLed(s))
    requires env.selector == Some(ScriptName(s, directory))
    requires Safe(Str(env.host)) && Safe(Str(env.port))
    ensures var fields, fits := Fields(Entry(env, kind, name) + more), |Link(Dir(env), name)| + 2 <= MAX_REQUEST_SIZE;
      && |fields| == 4
      && (LeadsTo(fields[1], rest, ListedDirectory(s, directory) + [name]) <==> fits)
      && (LeadsTo(fields[1], rest, WorkingDirectory(s, directory) + [name]) <==> fits && !SlashHidden(s, directory))
  {
    hide Fields, Parts, Render, IndexOf, Safe, LeadsTo, Containing, ScriptName, CStr, NulLed, ListedDirectory;
    SafeSlices([kind] + name, 1, |name| + 1);
    assert ([kind] + name)[1..|name| + 1] == name;
    EntryLinkLeads(s, directory, name, rest);
    EntryLinkWorks(s, directory, name, rest);
    SafeNameIffSafeListing(s, directory, name);
    ItemReadsBack([kind] + name, Link(Dir(env), name), Str(env.host), Str(env.port), more);
  }

  // ---- Selectors and names for which it goes wrong ----------------------------------------------

  /** A directory asked for with a NUL behind its name: gopherlist lists it as if it were its parent. */
  lemma HiddenSlashMisleads(s: Bytes)
    requires s == [SLASH, 'a', NUL]
    ensures Accepted(s) && WorkingDirectory(s, true) == [['a']] && Containing(ScriptName(s, true)) != Render([['a']])
  {
    hide Render, Containing, ScriptName;
    assert s == Join([], ['a', NUL]);
    PartsOfJoin([], ['a', NUL]);
    PartsOfPiece(['a', NUL]);
    IndexOfIs(s, NUL, 2);
    assert CStr(s) == Join([], ['a']);
    PartsOfJoin([], ['a']);
    PartsOfPiece(['a']);
    ContainingIsWorkingDirectory(s, true);
  }

  /** A path cut right behind a slash: asking for the SCRIPT_NAME of the directory opens it under
      another name, without the final slash. */
  lemma CutSlashIsNotReopened(s: Bytes)
    requires s == [SLASH, 'a', SLASH, NUL]
    ensures Accepted(s) && Opened(ScriptName(s, true)) != Opened(s)
    ensures Walk([], Split(Opened(ScriptName(s, true)), SLASH)) == Walk([], Split(Opened(s), SLASH))
  {
    hide Render, ScriptName, Opened, Walk, Split, Parts, NulLed, Accepted, CStr;
    CutBehindSlash(s);
    ScriptNameReopens(s, true);
    ScriptNameLeadsBack(s, true);
  }

  lemma CutBehindSlash(s: Bytes)
    requires s == [SLASH, 'a', SLASH, NUL]
    ensures Accepted(s) && NulLed(s)
  {
    hide Parts;
    assert s == Join([], ['a', SLASH, NUL]) && ['a', SLASH, NUL] == Join(['a'], [NUL]);
    PartsOfJoin([], ['a', SLASH, NUL]);
    PartsOfJoin(['a'], [NUL]);
    PartsOfPiece([NUL]);
    IndexOfIs(s, NUL, 3);
  }

  /** A listed name with a TAB in it: its link leads elsewhere, whatever follows it. */
  lemma TabInNameMisleads(name: Bytes, rest: Bytes)
    requires name == ['a', TAB, 'b']
    ensures FileName(name) && !LeadsTo(Link(Containing(ScriptName([], true)), name), rest, [name])
  {
    hide Render, ScriptName, LeadsTo, Containing;
    PartsOfPiece([]);
    SafeEmpty();
    assert CStr([]) == [] && [] + [name] == [name];
    assert name[1] == TAB;
    EntryLinkWorks([], true, name, rest);
  }

  // ---- Requesting the SCRIPT_NAME ---------------------------------------------------------------

  lemma ScriptNameIsSafe(s: Bytes, directory: bool)
    requires Accepted(s) && Safe(s)
    ensures Safe(ScriptName(s, directory))
  {
    hide Parts, Render, IndexOf, Safe, NulLed, ScriptName;
    var ps := Parts(CStr(s));
    FrontIsPlain(s, |ps|);
    assert ps[..|ps|] == ps;
    ScriptNameIs(s, directory);
    assert Render(ps) + [] == Render(ps);
  }

  /** A request that is too long is refused: what is read of it has no CRLF. */
  lemma TooLongIsRefused(n: Bytes, rest: Bytes)
    requires Safe(n) && |n| + 2 > MAX_REQUEST_SIZE
    ensures Requested(n, rest) == None
  {
    var sent := Print(n, None) + rest;
    assert sent == n + CRLF + rest;
    var data := sent[..MAX_REQUEST_SIZE];
    assert forall k :: 0 <= k < |data| && k < |n| ==> data[k] == n[k];
    assert |n| + 1 == MAX_REQUEST_SIZE ==> data[|n|] == CR;
    assert forall k :: CrlfAt(data, k) ==> CrlfAt(n, k);
  }

  lemma FittingIsHeard(n: Bytes, rest: Bytes)
    requires Safe(n) && |n| + 2 <= MAX_REQUEST_SIZE
    ensures Requested(n, rest) == Some(n)
  {
    RequestArrives(n, None, rest, WouldBlock);
  }

  /** Requesting the SCRIPT_NAME handed to CGI leads to the same file or directory again exactly when it
      fits a request; otherwise it is a bad request. */
  lemma ScriptNameIsUnderstood(s: Bytes, directory: bool, rest: Bytes)
    requires Accepted(s) && Safe(s)
    ensures var n := ScriptName(s, directory);
      var heard := Requested(n, rest);
      && (heard == Some(n) <==> |n| + 2 <= MAX_REQUEST_SIZE)
      && (heard == None <==> |n| + 2 > MAX_REQUEST_SIZE)
      && (heard.Some? ==> SamePlace(heard.value, s))
  {
    hide ScriptName, Safe, Requested, SamePlace;
    var n := ScriptName(s, directory);
    ScriptNameIsSafe(s, directory);
    if |n| + 2 <= MAX_REQUEST_SIZE {
      FittingIsHeard(n, rest);
      ScriptNameIsAtSamePlace(s, directory);
    } else {
      TooLongIsRefused(n, rest);
    }
  }

  /** The selector is accepted, and its path leads where that of s does. */
  predicate SamePlace(n: Bytes, s: Bytes) {
    Accepted(n) && Walk([], Split(Opened(n), SLASH)) == Walk([], Split(Opened(s), SLASH))
  }

  lemma ScriptNameIsAtSamePlace(s: Bytes, directory: bool)
    requires Accepted(s)
    ensures SamePlace(ScriptName(s, directory), s)
  {
    hide Walk, Split, Opened, ScriptName, Accepted;
    ScriptNameLeadsBack(s, directory);
  }

  /** A name as long as a request allows: its SCRIPT_NAME has a slash more and can no longer be asked for. */
  lemma LongestNameIsNotUnderstood(s: Bytes, directory: bool, rest: Bytes)
    requires |s| == MAX_REQUEST_SIZE - 2 && forall k :: 0 <= k < |s| ==> s[k] == 'a'
    ensures Accepted(s) && Safe(s) && Requested(s, rest) == Some(s)
    ensures Requested(ScriptName(s, directory), rest) == None
  {
    hide ScriptName, Requested, Parts;
    PartsOfPiece(s);
    assert Piece(s) == [s];
    ScriptNameIs(s, directory);
    CStrOfPrefix(s, []);
    RenderOfPiece(s);
    FittingIsHeard(s, rest);
    ScriptNameIsUnderstood(s, directory, rest);
  }
}
