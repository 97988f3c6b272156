/** What a client reads in the menu that gopherlist prints, and where its links lead. */
module Menus {
  import opened Bytes
  import opened Selectors
  import opened Request
  import opened Listing
  import opened Links

  // ---- Lines of a menu ------------------------------------------------------------------------------

  /** The lines of a menu, each in front of its CRLF. */
  function ReadLines(menu: Bytes): seq<Bytes>
    decreases |menu|
  {
    var i := IndexOfCrlf(menu);
    if i == |menu| then [] else [menu[..i]] + ReadLines(menu[i + 2..])
  }

  /** The tab-separated fields of a line. */
  function FieldsOf(line: Bytes): seq<Bytes> {
    Split(line, TAB)
  }

  function Ended(lines: seq<Bytes>): (texts: seq<Bytes>)
    ensures |texts| == |lines|
  {
    seq(|lines|, k requires 0 <= k < |lines| => lines[k] + CRLF)
  }

  ghost predicate NoneBroken(lines: seq<Bytes>) {
    forall k :: 0 <= k < |lines| ==> !HasCrlf(lines[k])
  }

  lemma ReadsLine(line: Bytes, more: Bytes)
    requires !HasCrlf(line)
    ensures ReadLines(line + CRLF + more) == [line] + ReadLines(more)
  {
    var menu := line + CRLF + more;
    assert forall k :: k < |line| && CrlfAt(menu, k) ==> CrlfAt(line, k);
    assert CrlfAt(menu, |line|);
    IndexOfCrlfIs(menu, |line|);
    assert menu[..|line|] == line && menu[|line| + 2..] == more;
  }

  lemma ConcatFirst(text: Bytes, texts: seq<Bytes>)
    ensures Concat([text] + texts) == text + Concat(texts)
  {
    ConcatAppend([text], texts);
    assert [text][..0] == [];
    assert Concat([text]) == Concat([]) + text;
  }

  /** Lines that are printed one after the other are read back. */
  lemma {:induction false} ReadsLines(lines: seq<Bytes>)
    requires NoneBroken(lines)
    ensures ReadLines(Concat(Ended(lines))) == lines
  {
    hide HasCrlf, Concat;
    if lines == [] {
      NothingToRead();
    } else {
      var rest := lines[1..];
      ReadsLines(rest);
      assert Ended(lines) == [lines[0] + CRLF] + Ended(rest);
      ConcatFirst(lines[0] + CRLF, Ended(rest));
      ReadsLine(lines[0], Concat(Ended(rest)));
      assert lines == [lines[0]] + rest;
    }
  }

  lemma NothingToRead()
    ensures ReadLines(Concat(Ended([]))) == []
  {
    assert Ended([]) == [];
  }

  lemma EndedConcat(a: seq<Bytes>, b: seq<Bytes>)
    ensures Ended(a + b) == Ended(a) + Ended(b)
  {
  }

  /** No CRLF arises between two texts if one does not end in CR or the other not begin with LF. */
  lemma NoCrlfBetween(a: Bytes, b: Bytes)
    requires !HasCrlf(a) && !HasCrlf(b)
    requires a == [] || b == [] || a[|a| - 1] != CR || b[0] != LF
    ensures !HasCrlf(a + b)
  {
    var s := a + b;
    assert forall k :: CrlfAt(s, k) && k + 2 <= |a| ==> CrlfAt(a, k);
    assert forall k :: CrlfAt(s, k) && k >= |a| ==> CrlfAt(b, k - |a|);
  }

  lemma NoCr(s: Bytes)
    requires CR !in s
    ensures !HasCrlf(s)
  {
  }

  // ---- What is printed --------------------------------------------------------------------------------

  /** The fields of an item in a line. */
  function ItemLine(title: Bytes, link: Bytes, host: Bytes, port: Bytes): Bytes {
    title + [TAB] + link + [TAB] + host + [TAB] + port
  }

  /** The names that have a menu type, each with it. */
  function Typed(names: seq<Bytes>, stats: map<Bytes, FileStat>): seq<(Byte, Bytes)> {
    if names == [] then []
    else
      var front, name := names[..|names| - 1], names[|names| - 1];
      var kind := MenuType(name, StatOf(stats, name));
      Typed(front, stats) + if kind.Some? then [(kind.value, name)] else []
  }

  lemma {:induction false} TypedAre(names: seq<Bytes>, stats: map<Bytes, FileStat>)
    ensures forall kind, name :: multiset(Typed(names, stats))[(kind, name)]
                              == if MenuType(name, StatOf(stats, name)) == Some(kind) then multiset(names)[name] else 0
  {
    hide MenuType, StatOf;
    if names != [] {
      var front, last := names[..|names| - 1], names[|names| - 1];
      assert names == front + [last];
      TypedAre(front, stats);
    }
  }

  /** The lines for these names in this directory. */
  function EntryLines(d: seq<Bytes>, host: Bytes, port: Bytes, typed: seq<(Byte, Bytes)>): (lines: seq<Bytes>)
    ensures |lines| == |typed|
  {
    seq(|typed|, k requires 0 <= k < |typed| =>
      ItemLine([typed[k].0] + typed[k].1, Render(d + [typed[k].1]), host, port))
  }

  function TitleLine(dir: Bytes, host: Bytes, port: Bytes): Bytes {
    "iDirectory listing of " + host + ":" + port + dir + "/"
  }

  function SearchLine(query: Bytes): Bytes {
    "iShowing filenames containing " + query
  }

  function ParentLine(link: Bytes, host: Bytes, port: Bytes): Bytes {
    ItemLine("1Parent Directory", link, host, port)
  }

  function FoundLine(found: nat): Bytes {
    "iFound " + Decimal(found % 0x1_0000_0000) + " files"
  }

  function HeadLines(d: seq<Bytes>, host: Bytes, port: Bytes, query: Bytes): seq<Bytes> {
    [TitleLine(Render(d), host, port)] + (if query == [] then [] else [SearchLine(query)]) + ["i"]
    + if d == [] then [] else [ParentLine(Render(d[..|d| - 1]) + [SLASH], host, port)]
  }

  function FootLines(query: Bytes, found: nat): seq<Bytes> {
    (if query == [] then [] else ["i", FoundLine(found)]) + ["."]
  }

  function Page(d: seq<Bytes>, host: Bytes, port: Bytes, query: Bytes, typed: seq<(Byte, Bytes)>): seq<Bytes> {
    HeadLines(d, host, port, query) + EntryLines(d, host, port, typed) + FootLines(query, |typed|)
  }

  // ---- The menu is that page ------------------------------------------------------------------------------

  /** How gopherlist was started: on a request it can tell its directory from. */
  ghost predicate StartedFor(env: Variables, s: Bytes, directory: bool) {
    && Accepted(s) && Safe(s) && env.selector == Some(ScriptName(s, directory))
    && (directory || (Parts(CStr(s)) != [] && !NulLed(s)))
  }

  lemma DirIsListed(env: Variables, s: Bytes, directory: bool)
    requires StartedFor(env, s, directory)
    ensures var d := ListedDirectory(s, directory);
      && Dir(env) == Render(d) && Plain(d)
      && Parent(env) == if d == [] then None else Some(Render(d[..|d| - 1]) + [SLASH])
  {
    hide Parts, Render, ScriptName, NulLed, CStr, Containing, ParentOf, ListedDirectory, Plain;
    var tail := ScriptNameSplits(s, directory);
    DirectoryIsPlain(s, directory);
    PlainIsClean(ListedDirectory(s, directory));
    ParentOfRendered(ListedDirectory(s, directory), tail);
  }

  lemma PlainIsClean(d: seq<Bytes>)
    requires Plain(d)
    ensures AllClean(d)
  {
  }

  lemma EndedOne(line: Bytes)
    ensures Ended([line]) == [line + CRLF] && Ended([]) == []
  {
  }

  lemma HeaderUnfolds(env: Variables)
    ensures Header(env)
         == [TitleLine(Dir(env), Str(env.host), Str(env.port)) + CRLF]
            + (if Query(env) == [] then [] else [SearchLine(Query(env)) + CRLF]) + ["i" + CRLF]
            + if Parent(env).None? then [] else [ParentLine(Parent(env).value, Str(env.host), Str(env.port)) + CRLF]
  {
    hide Dir, Parent, Str, Query;
  }

  lemma HeaderIs(env: Variables, s: Bytes, directory: bool)
    requires StartedFor(env, s, directory)
    ensures Header(env) == Ended(HeadLines(ListedDirectory(s, directory), Str(env.host), Str(env.port), Query(env)))
  {
    DirIsListed(env, s, directory);
    HeaderUnfolds(env);
    hide StartedFor, Dir, Parent, Str, Query, Render, ListedDirectory, Ended, Plain, Header, TitleLine, SearchLine,
         ParentLine;
    var d, host, port := ListedDirectory(s, directory), Str(env.host), Str(env.port);
    var title, search := TitleLine(Render(d), host, port), if Query(env) == [] then [] else [SearchLine(Query(env))];
    var parent: seq<Bytes> := if d == [] then [] else [ParentLine(Render(d[..|d| - 1]) + [SLASH], host, port)];
    EndedOne(title);
    EndedOne(SearchLine(Query(env)));
    EndedOne("i");
    EndedOne(ParentLine(if d == [] then [] else Render(d[..|d| - 1]) + [SLASH], host, port));
    EndedConcat([title], search);
    EndedConcat([title] + search, ["i"]);
    EndedConcat([title] + search + ["i"], parent);
  }

  /** One text for each name with a type, in the order of the names. */
  lemma {:induction false} LinesAreEntries(env: Variables, names: seq<Bytes>, stats: map<Bytes, FileStat>)
    ensures var lines, typed := Lines(env, names, stats), Typed(names, stats);
      |lines| == |typed| && forall k :: 0 <= k < |lines| ==> lines[k] == Entry(env, typed[k].0, typed[k].1)
  {
    hide Entry, MenuType, StatOf;
    if names != [] {
      LinesAreEntries(env, names[..|names| - 1], stats);
    }
  }

  lemma {:induction false} LinesAre(env: Variables, d: seq<Bytes>, names: seq<Bytes>, stats: map<Bytes, FileStat>)
    requires Dir(env) == Render(d) && forall k :: 0 <= k < |names| ==> names[k] != []
    ensures Lines(env, names, stats) == Ended(EntryLines(d, Str(env.host), Str(env.port), Typed(names, stats)))
  {
    hide Dir, MenuType, StatOf, Render, Str;
    if names != [] {
      var front, name := names[..|names| - 1], names[|names| - 1];
      LinesAre(env, d, front, stats);
      RenderSnoc(d, name);
      var kind := MenuType(name, StatOf(stats, name));
      if kind.Some? {
        assert Entry(env, kind.value, name)
            == ItemLine([kind.value] + name, Render(d + [name]), Str(env.host), Str(env.port)) + CRLF;
      }
    }
  }

  lemma FooterUnfolds(env: Variables, found: nat)
    ensures Footer(env, found)
         == (if Query(env) == [] then [] else [("i" + CRLF) + FoundLine(found) + CRLF]) + ["." + CRLF]
  {
    hide Query, Decimal;
    Regrouped("i" + CRLF, "iFound ", Decimal(found % 0x1_0000_0000), " files");
  }

  lemma FooterIs(env: Variables, found: nat)
    ensures Concat(Footer(env, found)) == Concat(Ended(FootLines(Query(env), found)))
  {
    FooterUnfolds(env, found);
    hide Query, Concat, Ended, FoundLine, Footer;
    var line, last := FoundLine(found), ["." + CRLF];
    EndedOne("i");
    EndedOne(line);
    EndedOne(".");
    if Query(env) != [] {
      var text := ("i" + CRLF) + line + CRLF;
      EndedConcat(["i"], [line]);
      EndedConcat(["i"] + [line], ["."]);
      assert ["i", line] == ["i"] + [line];
      ConcatFirst(text, last);
      ConcatFirst("i" + CRLF, [line + CRLF] + last);
      ConcatFirst(line + CRLF, last);
      assert Ended(FootLines(Query(env), found)) == ["i" + CRLF] + ([line + CRLF] + last);
      Regrouped("i" + CRLF, line, CRLF, Concat(last));
    } else {
      assert FootLines(Query(env), found) == ["."] && Footer(env, found) == last by {
        assert [] + ["."] == ["."] && [] + last == last;
      }
    }
  }

  lemma Regrouped(a: Bytes, b: Bytes, c: Bytes, d: Bytes)
    ensures a + b + c + d == a + (b + c + d)
  {
  }

  function Names(env: Variables, entries: seq<Bytes>): seq<Bytes> {
    SortNames(Filter(entries, Query(env)))
  }

  /** The bytes of the menu are those of the page, each line followed by CRLF. */
  lemma MenuIsPage(env: Variables, s: Bytes, directory: bool, entries: seq<Bytes>, stats: map<Bytes, FileStat>)
    requires StartedFor(env, s, directory) && forall k :: 0 <= k < |Names(env, entries)| ==> Names(env, entries)[k] != []
    ensures var d, typed := ListedDirectory(s, directory), Typed(Names(env, entries), stats);
      Concat(Menu(env, entries, stats)) == Concat(Ended(Page(d, Str(env.host), Str(env.port), Query(env), typed)))
  {
    var d, names, host, port := ListedDirectory(s, directory), Names(env, entries), Str(env.host), Str(env.port);
    HeaderIs(env, s, directory);
    DirIsListed(env, s, directory);
    LinesAre(env, d, names, stats);
    var typed := Typed(names, stats);
    FooterIs(env, |typed|);
    hide StartedFor, Concat, Header, Footer, Lines, Typed, SortNames, Filter, Query, Str, Ended, HeadLines, FootLines,
         EntryLines, ListedDirectory;
    var head, body := HeadLines(d, host, port, Query(env)), EntryLines(d, host, port, typed);
    var foot := FootLines(Query(env), |typed|);
    EndedConcat(head, body);
    EndedConcat(head + body, foot);
    ConcatAppend(Header(env) + Lines(env, names, stats), Footer(env, |typed|));
    ConcatAppend(Ended(head + body), Ended(foot));
  }

  // ---- Reading it ------------------------------------------------------------------------------------------

  /** Nothing in the variables and the directory can break a line or a field of the menu. */
  ghost predicate Readable(env: Variables, entries: seq<Bytes>) {
    && Safe(Str(env.host)) && Safe(Str(env.port)) && !HasCrlf(Query(env))
    && forall k :: 0 <= k < |entries| ==> InDirectory(entries[k]) && Safe(entries[k])
  }

  /** A name as readdir gives it. */
  predicate InDirectory(name: Bytes) {
    name != [] && SLASH !in name && NUL !in name
  }

  /** The names listed are those that are not hidden and have the word of the search in them, each as often
      as it occurs. */
  lemma NamesAreWanted(env: Variables, entries: seq<Bytes>)
    ensures forall name :: multiset(Names(env, entries))[name]
                        == if Wanted(name, Query(env)) then multiset(entries)[name] else 0
  {
    hide SortNames, Filter, Wanted, Query;
    FilterKeepsExactly(entries, Query(env));
  }

  /** Every name listed is the name of a file of the directory that is not hidden. */
  lemma NamesAreFiles(env: Variables, entries: seq<Bytes>, name: Bytes)
    requires name in Names(env, entries)
    ensures name in entries && Wanted(name, Query(env))
    ensures (forall k :: 0 <= k < |entries| ==> InDirectory(entries[k])) ==> FileName(name)
  {
    hide SortNames, Filter, SameWord, Query;
    var names, kept := Names(env, entries), Filter(entries, Query(env));
    assert name in multiset(names);
    FilterKeepsExactly(entries, Query(env));
    assert multiset(kept)[name] > 0;
    assert name in multiset(entries);
  }

  lemma {:induction false} LookedUp(table: seq<(Bytes, Byte)>, ext: Bytes)
    requires Lookup(table, ext).Some?
    ensures exists k :: 0 <= k < |table| && table[k].1 == Lookup(table, ext).value
  {
    if table[0].0 != ext {
      LookedUp(table[1..], ext);
      var k :| 0 <= k < |table[1..]| && table[1..][k].1 == Lookup(table[1..], ext).value;
      assert table[k + 1].1 == Lookup(table, ext).value;
    }
  }

  /** No menu type is one of the bytes that end a field, a line or the menu, or mark a line of text. */
  lemma TypesAreItems(name: Bytes, stat: FileStat)
    requires MenuType(name, stat).Some?
    ensures MenuType(name, stat).value !in {TAB, CR, LF, 'i', '.'}
    ensures stat == Regular(false) ==> MenuType(name, stat).value !in {'1', '7'}
  {
    hide LastIndexOf, Lookup;
    var ext := Extension(name);
    if stat == Regular(false) && ext.Some? && Lookup(EXT_TABLE, ext.value).Some? {
      LookedUp(EXT_TABLE, ext.value);
      var k :| 0 <= k < |EXT_TABLE| && EXT_TABLE[k].1 == Lookup(EXT_TABLE, ext.value).value;
    }
  }

  lemma {:induction false} TypedHave(names: seq<Bytes>, stats: map<Bytes, FileStat>)
    ensures forall k :: 0 <= k < |Typed(names, stats)| ==>
              var (kind, name) := Typed(names, stats)[k];
              name in names && MenuType(name, StatOf(stats, name)) == Some(kind)
  {
    hide MenuType, StatOf;
    if names != [] {
      TypedHave(names[..|names| - 1], stats);
    }
  }

  lemma ItemFields(title: Bytes, link: Bytes, host: Bytes, port: Bytes)
    requires Safe(title) && Safe(link) && Safe(host) && Safe(port)
    ensures !HasCrlf(ItemLine(title, link, host, port))
    ensures FieldsOf(ItemLine(title, link, host, port)) == [title, link, host, port]
  {
    ItemReadsBack(title, link, host, port, []);
    var line := ItemLine(title, link, host, port);
    var a, b, c := |title| + 1, |title| + |link| + 2, |title| + |link| + |host| + 3;
    assert forall k :: CrlfAt(line, k) ==>
      CrlfAt(title, k) || CrlfAt(link, k - a) || CrlfAt(host, k - b) || CrlfAt(port, k - c);
    assert Item(title, link, host, port) + [] == line + CRLF;
    assert forall k :: k < |line| && CrlfAt(line + CRLF, k) ==> CrlfAt(line, k);
    IndexOfCrlfIs(line + CRLF, |line|);
    assert (line + CRLF)[..|line|] == line;
  }

  lemma PlainFront(d: seq<Bytes>)
    requires Plain(d) && d != []
    ensures Plain(d[..|d| - 1])
  {
    hide Render, Safe;
    var front, last := d[..|d| - 1], d[|d| - 1];
    assert d == front + [last];
    RenderSnoc(front, last);
    SafeSlices(Render(d), 0, |Render(front)| + 1);
    SafeSlices(Render(d), 0, |Render(front)|);
    assert Render(d)[0..|Render(front)|] == Render(front);
    assert Render(d)[0..|Render(front)| + 1] == Render(front) + [SLASH];
  }

  /** The link of a file in a directory, or of the directory itself. */
  lemma PlainLink(d: seq<Bytes>, slash: bool, rest: Bytes)
    requires Plain(d)
    ensures var link := Render(d) + if slash then [SLASH] else [];
      Safe(link) && NUL !in link && (LeadsTo(link, rest, d) <==> |link| + 2 <= MAX_REQUEST_SIZE)
  {
    hide Render, Safe, Requested, Opened, Accepted;
    var link := Render(d) + if slash then [SLASH] else [];
    assert link == Render(d) || link == Render(d) + [SLASH];
    RenderKeepsOut(d, NUL);
    if |link| + 2 <= MAX_REQUEST_SIZE {
      RenderedPathWorks(d, slash, rest);
    } else {
      TooLongIsRefused(link, rest);
    }
  }

  lemma PlainEntry(d: seq<Bytes>, name: Bytes)
    requires Plain(d) && FileName(name) && Safe(name)
    ensures Plain(d + [name])
  {
    hide Render, Safe;
    RenderSnoc(d, name);
    SafeConcat(Render(d), name);
    SafeEmpty();
    SafeConcat(Render(d + [name]), []);
    assert Render(d + [name]) + [SLASH] + [] == Render(d + [name]) + [SLASH];
  }

  lemma SafeTitle(kind: Byte, name: Bytes)
    requires kind !in {TAB, CR, LF, 'i', '.'} && Safe(name)
    ensures Safe([kind] + name)
  {
    NoCr([kind]);
    NoCrlfBetween([kind], name);
  }

  lemma ParentTitle()
    ensures Safe("1Parent Directory")
  {
    assert CR !in "1Parent Directory" && TAB !in "1Parent Directory";
    NoCr("1Parent Directory");
  }

  /** What the item for a name says, and where it leads. */
  lemma EntryReads(d: seq<Bytes>, host: Bytes, port: Bytes, kind: Byte, name: Bytes, rest: Bytes)
    requires Plain(d) && FileName(name) && Safe(name) && kind !in {TAB, CR, LF, 'i', '.'} && Safe(host) && Safe(port)
    ensures var line, link := ItemLine([kind] + name, Render(d + [name]), host, port), Render(d + [name]);
      && !HasCrlf(line) && FieldsOf(line) == [[kind] + name, link, host, port] && Safe(link) && NUL !in link
      && (LeadsTo(link, rest, d + [name]) <==> |link| + 2 <= MAX_REQUEST_SIZE)
  {
    hide Render, Safe, LeadsTo, FieldsOf, ItemLine, Plain;
    PlainEntry(d, name);
    PlainLink(d + [name], false, rest);
    assert Render(d + [name]) + [] == Render(d + [name]);
    SafeTitle(kind, name);
    ItemFields([kind] + name, Render(d + [name]), host, port);
  }

  lemma ParentReads(d: seq<Bytes>, host: Bytes, port: Bytes, rest: Bytes)
    requires Plain(d) && d != [] && Safe(host) && Safe(port)
    ensures var front := d[..|d| - 1];
      var link := Render(front) + [SLASH];
      var line := ParentLine(link, host, port);
      && !HasCrlf(line) && FieldsOf(line) == ["1Parent Directory", link, host, port] && Safe(link) && NUL !in link
      && (LeadsTo(link, rest, front) <==> |link| + 2 <= MAX_REQUEST_SIZE)
  {
    hide Render, Safe, LeadsTo, FieldsOf, ItemLine, Plain;
    PlainFront(d);
    PlainLink(d[..|d| - 1], true, rest);
    ParentTitle();
    ItemFields("1Parent Directory", Render(d[..|d| - 1]) + [SLASH], host, port);
  }

  lemma TitleIsWhole(dir: Bytes, host: Bytes, port: Bytes)
    requires Safe(dir) && Safe(host) && Safe(port) && (dir != [] ==> dir[0] == SLASH)
    ensures !HasCrlf(TitleLine(dir, host, port))
  {
    hide HasCrlf;
    var a: Bytes := "iDirectory listing of ";
    assert CR !in a && a[|a| - 1] == ' ';
    NoCr(a);
    NoCr(":");
    NoCr("/");
    NoCrlfBetween(a, host);
    NoCrlfBetween(a + host, ":");
    NoCrlfBetween(a + host + ":", port);
    NoCrlfBetween(a + host + ":" + port, dir);
    NoCrlfBetween(a + host + ":" + port + dir, "/");
  }

  lemma SearchIsWhole(query: Bytes)
    requires !HasCrlf(query)
    ensures !HasCrlf(SearchLine(query))
  {
    hide HasCrlf;
    var a: Bytes := "iShowing filenames containing ";
    assert CR !in a && a[|a| - 1] == ' ';
    NoCr(a);
    NoCrlfBetween(a, query);
  }

  lemma {:induction false} DigitsOnly(n: nat)
    ensures forall k :: 0 <= k < |Decimal(n)| ==> '0' <= Decimal(n)[k] <= '9'
  {
    if n >= 10 {
      DigitsOnly(n / 10);
    }
  }

  /** What a decimal number is worth. */
  function Worth(digits: Bytes): int {
    if digits == [] then 0 else 10 * Worth(digits[..|digits| - 1]) + (digits[|digits| - 1] as int - '0' as int)
  }

  /** The number printed is read as the number it was printed for. */
  lemma {:induction false} DecimalReadsBack(n: nat)
    ensures Worth(Decimal(n)) == n
  {
    if n >= 10 {
      DecimalReadsBack(n / 10);
      var d := Decimal(n);
      assert d[..|d| - 1] == Decimal(n / 10);
    } else {
      assert Worth([]) == 0;
    }
  }

  lemma FoundIsWhole(found: nat)
    ensures !HasCrlf(FoundLine(found))
  {
    DigitsOnly(found % 0x1_0000_0000);
    hide Decimal;
    assert CR !in "iFound " && CR !in " files";
    NoCr(FoundLine(found));
  }

  lemma TypedIsPrintable(env: Variables, entries: seq<Bytes>, stats: map<Bytes, FileStat>, k: nat)
    requires Readable(env, entries) && k < |Typed(Names(env, entries), stats)|
    ensures var (kind, name) := Typed(Names(env, entries), stats)[k];
      && name in Names(env, entries) && MenuType(name, StatOf(stats, name)) == Some(kind)
      && FileName(name) && Safe(name) && kind !in {TAB, CR, LF, 'i', '.'}
  {
    hide MenuType, StatOf, Safe, SortNames, Filter;
    TypedHave(Names(env, entries), stats);
    var (kind, name) := Typed(Names(env, entries), stats)[k];
    NamesAreFiles(env, entries, name);
    TypesAreItems(name, StatOf(stats, name));
  }

  lemma HeadIsWhole(d: seq<Bytes>, host: Bytes, port: Bytes, query: Bytes)
    requires Plain(d) && Safe(host) && Safe(port) && !HasCrlf(query)
    ensures NoneBroken(HeadLines(d, host, port, query))
  {
    StartsWithSlash(d);
    TitleIsWhole(Render(d), host, port);
    SearchIsWhole(query);
    NoCr("i");
    if d != [] {
      ParentReads(d, host, port, []);
    }
    hide TitleLine, SearchLine, ParentLine, Render, HasCrlf;
  }

  lemma EntriesAreWhole(env: Variables, d: seq<Bytes>, entries: seq<Bytes>, stats: map<Bytes, FileStat>)
    requires Plain(d) && Readable(env, entries)
    ensures NoneBroken(EntryLines(d, Str(env.host), Str(env.port), Typed(Names(env, entries), stats)))
  {
    hide Typed, Names, Plain, Str, Safe, HasCrlf, ItemLine, FileName, MenuType, StatOf, Render;
    var typed, host, port := Typed(Names(env, entries), stats), Str(env.host), Str(env.port);
    forall k | 0 <= k < |typed| ensures !HasCrlf(EntryLines(d, host, port, typed)[k]) {
      TypedIsPrintable(env, entries, stats, k);
      EntryReads(d, host, port, typed[k].0, typed[k].1, []);
    }
  }

  lemma FootIsWhole(query: Bytes, found: nat)
    ensures NoneBroken(FootLines(query, found))
  {
    FoundIsWhole(found);
    NoCr("i");
    NoCr(".");
    hide FoundLine, HasCrlf;
  }

  /** What a client reads is that page, line by line. */
  lemma MenuReadsBack(env: Variables, s: Bytes, directory: bool, entries: seq<Bytes>, stats: map<Bytes, FileStat>)
    requires StartedFor(env, s, directory) && Readable(env, entries)
    ensures ReadLines(Concat(Menu(env, entries, stats)))
         == Page(ListedDirectory(s, directory), Str(env.host), Str(env.port), Query(env), Typed(Names(env, entries), stats))
  {
    var d, typed := ListedDirectory(s, directory), Typed(Names(env, entries), stats);
    DirIsListed(env, s, directory);
    HeadIsWhole(d, Str(env.host), Str(env.port), Query(env));
    EntriesAreWhole(env, d, entries, stats);
    FootIsWhole(Query(env), |typed|);
    hide SortNames, Filter, Typed, StartedFor, HeadLines, FootLines, EntryLines, HasCrlf, Plain, ListedDirectory, FileName;
    forall k | 0 <= k < |Names(env, entries)| ensures Names(env, entries)[k] != [] {
      NamesAreFiles(env, entries, Names(env, entries)[k]);
    }
    MenuIsPage(env, s, directory, entries, stats);
    ReadsLines(Page(d, Str(env.host), Str(env.port), Query(env), typed));
  }

  // ---- What the menu tells -----------------------------------------------------------------------------------

  /** An item, not a line of text or the end of the menu. */
  predicate IsItem(line: Bytes) {
    line != [] && line[0] != 'i' && line[0] != '.'
  }

  /** The line offers the parent directory. */
  predicate IsParentItem(line: Bytes, d: seq<Bytes>, host: Bytes, port: Bytes) {
    d != [] && FieldsOf(line) == ["1Parent Directory", Render(d[..|d| - 1]) + [SLASH], host, port]
  }

  /** The line offers the file with this name. */
  predicate IsEntryItem(line: Bytes, d: seq<Bytes>, host: Bytes, port: Bytes, kind: Byte, name: Bytes) {
    FieldsOf(line) == [[kind] + name, Render(d + [name]), host, port]
  }

  lemma HeadItems(d: seq<Bytes>, host: Bytes, port: Bytes, query: Bytes, k: nat)
    requires Plain(d) && Safe(host) && Safe(port) && k < |HeadLines(d, host, port, query)|
    ensures var line := HeadLines(d, host, port, query)[k];
      line != [] && line[0] != '.' && (IsItem(line) <==> d != [] && k == |HeadLines(d, host, port, query)| - 1)
      && (IsItem(line) ==> IsParentItem(line, d, host, port))
  {
    if d != [] {
      ParentReads(d, host, port, []);
    }
    hide FieldsOf, Render, Plain, Safe;
  }

  /** The name is listed with this type. */
  predicate Offered(env: Variables, entries: seq<Bytes>, stats: map<Bytes, FileStat>, kind: Byte, name: Bytes) {
    name in Names(env, entries) && MenuType(name, StatOf(stats, name)) == Some(kind)
  }

  /** What a client reads in the menu. */
  function MenuLines(env: Variables, entries: seq<Bytes>, stats: map<Bytes, FileStat>): seq<Bytes> {
    ReadLines(Concat(Menu(env, entries, stats)))
  }

  /** The line is the parent link of directory d, which leads to its parent, or that of a listed name, which
      leads to it. */
  ghost predicate Offers(env: Variables, entries: seq<Bytes>, stats: map<Bytes, FileStat>, d: seq<Bytes>, line: Bytes,
                         target: seq<Bytes>)
  {
    var host, port := Str(env.host), Str(env.port);
    || (IsParentItem(line, d, host, port) && target == d[..|d| - 1])
    || exists kind, name ::
         Offered(env, entries, stats, kind, name) && IsEntryItem(line, d, host, port, kind, name) && target == d + [name]
  }

  /** The selector in the line can be sent, and leads to the target exactly when it fits a request. */
  ghost predicate Guides(line: Bytes, rest: Bytes, target: seq<Bytes>) {
    var fields := FieldsOf(line);
    && |fields| == 4 && Safe(fields[1]) && NUL !in fields[1]
    && (LeadsTo(fields[1], rest, target) <==> |fields[1]| + 2 <= MAX_REQUEST_SIZE)
  }

  lemma ParentLeads(env: Variables, entries: seq<Bytes>, stats: map<Bytes, FileStat>, d: seq<Bytes>, line: Bytes, rest: Bytes)
    requires Plain(d) && Safe(Str(env.host)) && Safe(Str(env.port)) && IsParentItem(line, d, Str(env.host), Str(env.port))
    ensures Offers(env, entries, stats, d, line, d[..|d| - 1]) && Guides(line, rest, d[..|d| - 1])
  {
    ParentReads(d, Str(env.host), Str(env.port), rest);
    hide FieldsOf, Render, LeadsTo, Safe, Plain, ItemLine, Offered, Str;
  }

  lemma EntryLeads(env: Variables, entries: seq<Bytes>, stats: map<Bytes, FileStat>, d: seq<Bytes>, k: nat, rest: Bytes)
    requires Plain(d) && Readable(env, entries) && k < |Typed(Names(env, entries), stats)|
    ensures var (kind, name) := Typed(Names(env, entries), stats)[k];
      var line := ItemLine([kind] + name, Render(d + [name]), Str(env.host), Str(env.port));
      Offers(env, entries, stats, d, line, d + [name]) && Guides(line, rest, d + [name])
  {
    var (kind, name) := Typed(Names(env, entries), stats)[k];
    TypedIsPrintable(env, entries, stats, k);
    EntryReads(d, Str(env.host), Str(env.port), kind, name, rest);
    hide FieldsOf, Render, LeadsTo, Safe, Plain, ItemLine, Names, Typed, MenuType, StatOf, Str, FileName;
    assert Offered(env, entries, stats, kind, name);
    var line := ItemLine([kind] + name, Render(d + [name]), Str(env.host), Str(env.port));
    assert IsEntryItem(line, d, Str(env.host), Str(env.port), kind, name);
  }

  lemma PageItemLeads(env: Variables, entries: seq<Bytes>, stats: map<Bytes, FileStat>, d: seq<Bytes>, m: nat, rest: Bytes)
    returns (target: seq<Bytes>)
    requires Plain(d) && Readable(env, entries)
    requires var page := Page(d, Str(env.host), Str(env.port), Query(env), Typed(Names(env, entries), stats));
      m < |page| && IsItem(page[m])
    ensures var page := Page(d, Str(env.host), Str(env.port), Query(env), Typed(Names(env, entries), stats));
      Offers(env, entries, stats, d, page[m], target) && Guides(page[m], rest, target)
  {
    hide IsItem, HeadLines, FootLines, Typed, Names, Str, Query, Offers, Guides, ItemLine, Render, Safe, Plain, IsParentItem;
    var host, port, typed := Str(env.host), Str(env.port), Typed(Names(env, entries), stats);
    var head, body := HeadLines(d, host, port, Query(env)), EntryLines(d, host, port, typed);
    var foot := FootLines(Query(env), |typed|);
    var line := (head + body + foot)[m];
    if m < |head| {
      assert line == head[m];
      HeadItems(d, host, port, Query(env), m);
      ParentLeads(env, entries, stats, d, line, rest);
      target := d[..|d| - 1];
    } else if m < |head| + |body| {
      assert line == body[m - |head|];
      EntryLeads(env, entries, stats, d, m - |head|, rest);
      target := d + [typed[m - |head|].1];
    } else {
      assert line == foot[m - |head| - |body|];
      FootItems(Query(env), |typed|, m - |head| - |body|);
      assert false;
    }
  }

  lemma FootItems(query: Bytes, found: nat, k: nat)
    requires k < |FootLines(query, found)|
    ensures var line := FootLines(query, found)[k];
      && !IsItem(line) && line != [] && (line[0] == '.' <==> k == |FootLines(query, found)| - 1)
    ensures FootLines(query, found)[|FootLines(query, found)| - 1] == ['.']
  {
    hide Decimal;
    assert FoundLine(found)[0] == 'i';
  }

  /** Each item of the menu is the parent link or that of a listed name, and its selector leads there
      exactly when it fits a request. */
  lemma ItemLeads(env: Variables, s: Bytes, directory: bool, entries: seq<Bytes>, stats: map<Bytes, FileStat>, m: nat,
                  rest: Bytes)
    returns (target: seq<Bytes>)
    requires StartedFor(env, s, directory) && Readable(env, entries)
    requires m < |MenuLines(env, entries, stats)| && IsItem(MenuLines(env, entries, stats)[m])
    ensures var line := MenuLines(env, entries, stats)[m];
      Offers(env, entries, stats, ListedDirectory(s, directory), line, target) && Guides(line, rest, target)
  {
    MenuReadsBack(env, s, directory, entries, stats);
    DirIsListed(env, s, directory);
    hide StartedFor, Readable, ReadLines, Concat, Menu, Page, IsItem, Offers, Guides, ListedDirectory, Plain;
    target := PageItemLeads(env, entries, stats, ListedDirectory(s, directory), m, rest);
  }

  // ---- What it holds -----------------------------------------------------------------------------------------

  /** The line says how many files were found. */
  ghost predicate IsCount(line: Bytes, found: nat) {
    exists digits: Bytes :: line == "iFound " + digits + " files" && Worth(digits) == found
  }

  lemma CountIsFound(found: nat)
    ensures IsCount(FoundLine(found), found % 0x1_0000_0000)
  {
    DecimalReadsBack(found % 0x1_0000_0000);
    hide Decimal, Worth;
  }

  predicate NoneIsPeriod(typed: seq<(Byte, Bytes)>) {
    forall k :: 0 <= k < |typed| ==> typed[k].0 != '.'
  }

  /** The page ends with the line of a single period, and no other line begins with one. */
  lemma PageEnds(d: seq<Bytes>, host: Bytes, port: Bytes, query: Bytes, typed: seq<(Byte, Bytes)>)
    requires Plain(d) && Safe(host) && Safe(port) && NoneIsPeriod(typed)
    ensures var page := Page(d, host, port, query, typed);
      && page != [] && page[|page| - 1] == ['.']
      && (forall m :: 0 <= m < |page| - 1 ==> page[m] != [] && page[m][0] != '.')
      && (query != [] ==> |page| > 1 && IsCount(page[|page| - 2], |typed| % 0x1_0000_0000))
  {
    hide HeadLines, IsItem, IsParentItem, Render, Plain, Safe, FoundLine, IsCount;
    var head, body, foot := HeadLines(d, host, port, query), EntryLines(d, host, port, typed), FootLines(query, |typed|);
    var page := head + body + foot;
    CountIsFound(|typed|);
    FootItems(query, |typed|, |foot| - 1);
    assert page[|page| - 1] == foot[|foot| - 1];
    assert query != [] ==> page[|page| - 2] == foot[|foot| - 2];
    hide FootLines;
    forall m | 0 <= m < |page| - 1 ensures page[m] != [] && page[m][0] != '.' {
      if m < |head| {
        assert page[m] == head[m];
        HeadItems(d, host, port, query, m);
      } else if m < |head| + |body| {
        assert page[m] == body[m - |head|];
      } else {
        assert page[m] == foot[m - |head| - |body|];
        FootItems(query, |typed|, m - |head| - |body|);
      }
    }
  }

  lemma ParentIsOnPage(d: seq<Bytes>, host: Bytes, port: Bytes, query: Bytes, typed: seq<(Byte, Bytes)>)
    requires Plain(d) && Safe(host) && Safe(port) && d != []
    ensures var page := Page(d, host, port, query, typed); exists m :: 0 <= m < |page| && IsParentItem(page[m], d, host, port)
  {
    hide FootLines, IsParentItem, Render, Plain, Safe, TitleLine, SearchLine;
    var page, m := Page(d, host, port, query, typed), |HeadLines(d, host, port, query)| - 1;
    HeadItems(d, host, port, query, m);
    assert page[m] == HeadLines(d, host, port, query)[m];
    hide HeadLines;
  }

  lemma TypedAt(env: Variables, entries: seq<Bytes>, stats: map<Bytes, FileStat>, kind: Byte, name: Bytes) returns (k: nat)
    requires Offered(env, entries, stats, kind, name)
    ensures k < |Typed(Names(env, entries), stats)| && Typed(Names(env, entries), stats)[k] == (kind, name)
  {
    hide Names, MenuType, StatOf, Typed;
    var typed := Typed(Names(env, entries), stats);
    TypedAre(Names(env, entries), stats);
    assert multiset(typed)[(kind, name)] > 0;
    k :| 0 <= k < |typed| && typed[k] == (kind, name);
  }

  lemma EntryIsOnPage(env: Variables, entries: seq<Bytes>, stats: map<Bytes, FileStat>, d: seq<Bytes>, kind: Byte,
                      name: Bytes)
    requires Plain(d) && Readable(env, entries) && Offered(env, entries, stats, kind, name)
    ensures var page := Page(d, Str(env.host), Str(env.port), Query(env), Typed(Names(env, entries), stats));
      exists m :: 0 <= m < |page| && IsEntryItem(page[m], d, Str(env.host), Str(env.port), kind, name)
  {
    hide HeadLines, FootLines, Names, Str, Query, Render, Plain, Safe, MenuType, StatOf, ItemLine, FieldsOf, FileName, Typed;
    var host, port, typed := Str(env.host), Str(env.port), Typed(Names(env, entries), stats);
    var k := TypedAt(env, entries, stats, kind, name);
    TypedIsPrintable(env, entries, stats, k);
    assert Safe(host) && Safe(port);
    hide Readable, Offered;
    EntryReads(d, host, port, kind, name, []);
    var head, body := HeadLines(d, host, port, Query(env)), EntryLines(d, host, port, typed);
    var page, m := Page(d, host, port, Query(env), typed), |head| + k;
    assert page[m] == body[k];
  }

  lemma KindsAreNoPeriods(env: Variables, entries: seq<Bytes>, stats: map<Bytes, FileStat>)
    requires Readable(env, entries)
    ensures NoneIsPeriod(Typed(Names(env, entries), stats))
  {
    hide Readable, Typed, Names, MenuType, StatOf, FileName;
    var typed := Typed(Names(env, entries), stats);
    forall k | 0 <= k < |typed| ensures typed[k].0 != '.' {
      TypedIsPrintable(env, entries, stats, k);
    }
  }

  /** These lines end with that of a single period and no other line begins with one; there is a parent
      link below the root, an item for each name with a type, and for a search their number. */
  ghost predicate IsListing(lines: seq<Bytes>, env: Variables, entries: seq<Bytes>, stats: map<Bytes, FileStat>,
                            d: seq<Bytes>)
  {
    var host, port := Str(env.host), Str(env.port);
    && lines != [] && lines[|lines| - 1] == ['.']
    && (forall m :: 0 <= m < |lines| - 1 ==> lines[m] != [] && lines[m][0] != '.')
    && (d != [] ==> exists m :: 0 <= m < |lines| && IsParentItem(lines[m], d, host, port))
    && (forall kind, name :: Offered(env, entries, stats, kind, name) ==>
          exists m :: 0 <= m < |lines| && IsEntryItem(lines[m], d, host, port, kind, name))
    && (Query(env) != [] ==>
          |lines| > 1 && IsCount(lines[|lines| - 2], |Typed(Names(env, entries), stats)| % 0x1_0000_0000))
  }

  lemma PageIsListing(env: Variables, entries: seq<Bytes>, stats: map<Bytes, FileStat>, d: seq<Bytes>)
    requires Plain(d) && Readable(env, entries)
    ensures var page := Page(d, Str(env.host), Str(env.port), Query(env), Typed(Names(env, entries), stats));
      IsListing(page, env, entries, stats, d)
  {
    hide Plain, Typed, Names, Page, IsParentItem, IsEntryItem, Offered, IsCount, Query, Str, Safe;
    var host, port, typed := Str(env.host), Str(env.port), Typed(Names(env, entries), stats);
    KindsAreNoPeriods(env, entries, stats);
    assert Safe(host) && Safe(port);
    hide Readable;
    PageEnds(d, host, port, Query(env), typed);
    if d != [] {
      ParentIsOnPage(d, host, port, Query(env), typed);
    }
    forall kind, name | Offered(env, entries, stats, kind, name)
      ensures var page := Page(d, host, port, Query(env), typed);
        exists m :: 0 <= m < |page| && IsEntryItem(page[m], d, host, port, kind, name)
    {
      EntryIsOnPage(env, entries, stats, d, kind, name);
    }
  }

  lemma MenuIsListing(env: Variables, s: Bytes, directory: bool, entries: seq<Bytes>, stats: map<Bytes, FileStat>)
    requires StartedFor(env, s, directory) && Readable(env, entries)
    ensures IsListing(MenuLines(env, entries, stats), env, entries, stats, ListedDirectory(s, directory))
  {
    MenuReadsBack(env, s, directory, entries, stats);
    DirIsListed(env, s, directory);
    hide StartedFor, ReadLines, Concat, Menu, ListedDirectory, Plain, Typed, Names, Page, IsListing, Readable, Query;
    PageIsListing(env, entries, stats, ListedDirectory(s, directory));
  }
}
