/** gopherlist: the directory listing a CGI program prints from SCRIPT_NAME and a directory. */
module Listing {
  import opened Bytes
  import opened SBuffer

  const NUM_FILENAMES: nat := 256
  const BUFFER_LENGTH: nat := 65536
  const BUFFER_LEFTOVER: nat := 4096

  // ---- strcmp and qsort --------------------------------------------------------------

  /** strcmp(a, b) <= 0. */
  predicate AtMost(a: Bytes, b: Bytes) {
    a == [] || (b != [] && (a[0] < b[0] || (a[0] == b[0] && AtMost(a[1..], b[1..]))))
  }

  predicate Sorted(names: seq<Bytes>) {
    forall i, j :: 0 <= i < j < |names| ==> AtMost(names[i], names[j])
  }

  lemma {:induction false} AtMostTotal(a: Bytes, b: Bytes)
    ensures AtMost(a, b) || AtMost(b, a)
  {
    if a != [] && b != [] {
      AtMostTotal(a[1..], b[1..]);
    }
  }

  lemma {:induction false} AtMostTransitive(a: Bytes, b: Bytes, c: Bytes)
    requires AtMost(a, b) && AtMost(b, c)
    ensures AtMost(a, c)
  {
    if a != [] && a[0] == b[0] == c[0] {
      AtMostTransitive(a[1..], b[1..], c[1..]);
    }
  }

  lemma {:induction false} AtMostAntisymmetric(a: Bytes, b: Bytes)
    requires AtMost(a, b) && AtMost(b, a)
    ensures a == b
  {
    if a != [] {
      AtMostAntisymmetric(a[1..], b[1..]);
      assert a == [a[0]] + a[1..] && b == [b[0]] + b[1..];
    }
  }

  function Insert(name: Bytes, names: seq<Bytes>): (r: seq<Bytes>)
    requires Sorted(names)
    ensures multiset(r) == multiset{name} + multiset(names)
    ensures Sorted(r)
  {
    if names == [] then [name]
    else if AtMost(name, names[0]) then
      InsertFront(name, names);
      [name] + names
    else
      AtMostTotal(name, names[0]);
      InsertBehind(name, names, Insert(name, names[1..]));
      [names[0]] + Insert(name, names[1..])
  }

  lemma InsertFront(name: Bytes, names: seq<Bytes>)
    requires Sorted(names) && names != [] && AtMost(name, names[0])
    ensures Sorted([name] + names)
  {
    forall k | 0 <= k < |names| ensures AtMost(name, names[k]) {
      if k > 0 { AtMostTransitive(name, names[0], names[k]); }
    }
  }

  lemma InsertBehind(name: Bytes, names: seq<Bytes>, rest: seq<Bytes>)
    requires Sorted(names) && names != [] && AtMost(names[0], name)
    requires Sorted(rest) && multiset(rest) == multiset{name} + multiset(names[1..])
    ensures Sorted([names[0]] + rest)
    ensures multiset([names[0]] + rest) == multiset{name} + multiset(names)
  {
    assert names == [names[0]] + names[1..];
    forall k | 0 <= k < |rest| ensures AtMost(names[0], rest[k]) {
      assert rest[k] in multiset(rest);
      if rest[k] != name {
        assert rest[k] in multiset(names[1..]);
        var j :| 0 <= j < |names[1..]| && names[1..][j] == rest[k];
        assert names[j + 1] == rest[k];
      }
    }
  }

  /** The names in strcmp order. */
  function SortNames(names: seq<Bytes>): (r: seq<Bytes>)
    ensures multiset(r) == multiset(names)
    ensures Sorted(r)
  {
    if names == [] then []
    else
      assert names == [names[0]] + names[1..];
      Insert(names[0], SortNames(names[1..]))
  }

  lemma SameLeast(a: seq<Bytes>, b: seq<Bytes>)
    requires Sorted(a) && Sorted(b) && multiset(a) == multiset(b) && a != []
    ensures b != [] && a[0] == b[0]
  {
    assert a[0] in multiset(b);
    assert b[0] in multiset(a);
    var j :| 0 <= j < |b| && b[j] == a[0];
    var i :| 0 <= i < |a| && a[i] == b[0];
    if i > 0 && j > 0 {
      AtMostAntisymmetric(a[0], b[0]);
    }
  }

  /** Only one arrangement of the names is sorted, so any correct qsort gives this one. */
  lemma {:induction false} SortedIsUnique(a: seq<Bytes>, b: seq<Bytes>)
    requires Sorted(a) && Sorted(b) && multiset(a) == multiset(b)
    ensures a == b
  {
    if a == [] {
      assert |multiset(b)| == 0;
    } else {
      SameLeast(a, b);
      assert a == [a[0]] + a[1..] && b == [b[0]] + b[1..];
      assert multiset(a[1..]) == multiset(a) - multiset{a[0]} == multiset(b[1..]);
      SortedIsUnique(a[1..], b[1..]);
    }
  }

  lemma SortKeepsLength(names: seq<Bytes>)
    ensures |SortNames(names)| == |names|
  {
    hide SortNames, Sorted;
    assert |SortNames(names)| == |multiset(SortNames(names))| == |multiset(names)|;
  }

  /** qsort of the first n names in place. */
  method QSort(names: array<Bytes>, n: nat)
    requires n <= names.Length
    modifies names
    ensures names[..n] == SortNames(old(names[..n]))
  {
    hide SortNames, Sorted;
    var sorted := SortNames(names[..n]);
    SortKeepsLength(names[..n]);
    for k := 0 to n
      invariant names[..k] == sorted[..k]
    {
      names[k] := sorted[k];
    }
  }

  // ---- Which names are listed ----------------------------------------------------------

  function ToLower(b: Byte): Byte {
    if 'A' <= b <= 'Z' then (b as int + 32) as char else b
  }

  predicate MatchesAt(name: Bytes, query: Bytes, at: nat) {
    at + |query| <= |name| && forall k :: 0 <= k < |query| ==> ToLower(name[at + k]) == ToLower(query[k])
  }

  /** strcasestr(name, query) != NULL. */
  predicate Mentions(name: Bytes, query: Bytes) {
    exists at :: 0 <= at <= |name| && MatchesAt(name, query, at)
  }

  predicate Listed(name: Bytes, query: Bytes) {
    && !(name != [] && name[0] == DOT)
    && (query != [] ==> Mentions(name, query))
  }

  function Filter(entries: seq<Bytes>, query: Bytes): seq<Bytes> {
    if entries == [] then []
    else
      var last := entries[|entries| - 1];
      Filter(entries[..|entries| - 1], query) + if Listed(last, query) then [last] else []
  }

  /** Two bytes that are the same but for the case of a letter. */
  predicate SameLetter(a: Byte, b: Byte) {
    a == b || ('a' <= a <= 'z' && b as int == a as int - 32) || ('a' <= b <= 'z' && a as int == b as int - 32)
  }

  predicate SameWord(a: Bytes, b: Bytes) {
    |a| == |b| && forall k :: 0 <= k < |a| ==> SameLetter(a[k], b[k])
  }

  /** A name a search is for: it does not begin with a period, and the word is somewhere in it. The empty
      word is in every name. */
  predicate Wanted(name: Bytes, word: Bytes) {
    && (name != [] ==> name[0] != DOT)
    && exists a, b :: 0 <= a <= b <= |name| && SameWord(name[a..b], word)
  }

  lemma CaseOnly(a: Byte, b: Byte)
    ensures ToLower(a) == ToLower(b) <==> SameLetter(a, b)
  {
  }

  lemma MatchesWord(name: Bytes, query: Bytes, at: nat)
    requires at + |query| <= |name|
    ensures MatchesAt(name, query, at) <==> SameWord(name[at..at + |query|], query)
  {
    forall k | 0 <= k < |query|
      ensures ToLower(name[at + k]) == ToLower(query[k]) <==> SameLetter(name[at..at + |query|][k], query[k])
    {
      CaseOnly(name[at + k], query[k]);
    }
    hide ToLower, SameLetter;
  }

  lemma ListedIff(name: Bytes, query: Bytes)
    ensures Listed(name, query) <==> Wanted(name, query)
  {
    hide MatchesAt, SameWord;
    forall at: nat | at + |query| <= |name| ensures MatchesAt(name, query, at) <==> SameWord(name[at..at + |query|], query) {
      MatchesWord(name, query, at);
    }
    MatchesInside(name, query);
    if query == [] {
      MatchesWord(name, query, 0);
      MatchesNothing(name);
    }
    if exists a, b :: 0 <= a <= b <= |name| && SameWord(name[a..b], query) {
      var a, b :| 0 <= a <= b <= |name| && SameWord(name[a..b], query);
      SameWordLength(name[a..b], query);
      assert b == a + |query| && MatchesAt(name, query, a);
    }
  }

  lemma MatchesInside(name: Bytes, query: Bytes)
    ensures forall at: nat :: MatchesAt(name, query, at) ==> at + |query| <= |name|
  {
  }

  lemma MatchesNothing(name: Bytes)
    ensures MatchesAt(name, [], 0)
  {
  }

  lemma SameWordLength(a: Bytes, b: Bytes)
    requires SameWord(a, b)
    ensures |a| == |b|
  {
  }

  lemma {:induction false} FilterKeepsExactly(entries: seq<Bytes>, query: Bytes)
    ensures forall name :: multiset(Filter(entries, query))[name]
                        == if Wanted(name, query) then multiset(entries)[name] else 0
  {
    hide Listed, Wanted;
    if entries != [] {
      var front, last := entries[..|entries| - 1], entries[|entries| - 1];
      assert entries == front + [last];
      FilterKeepsExactly(front, query);
      ListedIff(last, query);
    }
  }

  /** The readdir loop: the array doubles whenever it is full, so a slot is always free. */
  method Collect(entries: seq<Bytes>, query: Bytes) returns (names: array<Bytes>, count: nat)
    ensures fresh(names)
    ensures count < names.Length && names[..count] == Filter(entries, query)
  {
    names := new Bytes[NUM_FILENAMES];
    count := 0;
    for k := 0 to |entries|
      invariant fresh(names)
      invariant count < names.Length && names[..count] == Filter(entries[..k], query)
    {
      assert entries[..k + 1][..k] == entries[..k];
      var entry := entries[k];
      if !Listed(entry, query) {
        continue;
      }
      names[count] := entry;
      count := count + 1;
      if count == names.Length {
        var resized := new Bytes[names.Length * 2];
        for i := 0 to count
          invariant resized[..i] == names[..i]
          invariant fresh(resized) && names[..count] == Filter(entries[..k + 1], query)
        {
          resized[i] := names[i];
        }
        names := resized;
      }
    }
    assert entries[..|entries|] == entries;
  }

  // ---- Menu types ----------------------------------------------------------------------

  const EXT_TABLE: seq<(Bytes, Byte)> := [
    ("bmp", 'I'), ("c", '0'), ("cpp", '0'), ("gif", 'g'), ("h", '0'), ("htm", 'h'), ("html", 'h'),
    ("jpeg", 'I'), ("jpg", 'I'), ("mp3", 's'), ("ogg", 's'), ("pcx", 'I'), ("png", 'I'), ("tif", 'I'),
    ("tiff", 'I'), ("txt", '0'), ("wav", 's')
  ]

  ghost predicate InOrder(table: seq<(Bytes, Byte)>) {
    forall i, j :: 0 <= i < j < |table| ==> AtMost(table[i].0, table[j].0) && table[i].0 != table[j].0
  }

  ghost predicate Adjacent(table: seq<(Bytes, Byte)>) {
    forall i :: 0 < i < |table| ==> AtMost(table[i - 1].0, table[i].0) && table[i - 1].0 != table[i].0
  }

  lemma {:induction false} AdjacentInOrder(table: seq<(Bytes, Byte)>)
    requires Adjacent(table)
    ensures InOrder(table)
  {
    if table != [] {
      var n := |table| - 1;
      AdjacentInOrder(table[..n]);
      forall i | 0 <= i < n ensures AtMost(table[i].0, table[n].0) && table[i].0 != table[n].0 {
        if i < n - 1 {
          assert table[..n][i] == table[i] && table[..n][n - 1] == table[n - 1];
          AtMostTransitive(table[i].0, table[n - 1].0, table[n].0);
          if table[i].0 == table[n].0 {
            AtMostAntisymmetric(table[i].0, table[n - 1].0);
          }
        }
      }
      forall i, j | 0 <= i < j < n ensures AtMost(table[i].0, table[j].0) && table[i].0 != table[j].0 {
        assert table[..n][i] == table[i] && table[..n][j] == table[j];
      }
    }
  }

  lemma {:induction false} Precedes(a: Bytes, b: Bytes, k: nat)
    requires k <= |a| && k < |b| && a[..k] == b[..k]
    requires k == |a| || a[k] < b[k]
    ensures AtMost(a, b) && a != b
  {
    if k > 0 {
      assert a[0] == a[..k][0] == b[0];
      assert a[1..][..k - 1] == a[..k][1..] == b[1..][..k - 1];
      Precedes(a[1..], b[1..], k - 1);
    }
  }

  lemma TableStretch1()
    ensures forall i :: 0 <= i < 8 ==> AtMost(EXT_TABLE[i].0, EXT_TABLE[i + 1].0) && EXT_TABLE[i].0 != EXT_TABLE[i + 1].0
  {
    hide AtMost;
    Precedes(EXT_TABLE[0].0, EXT_TABLE[1].0, 0);
    Precedes(EXT_TABLE[1].0, EXT_TABLE[2].0, 1);
    Precedes(EXT_TABLE[2].0, EXT_TABLE[3].0, 0);
    Precedes(EXT_TABLE[3].0, EXT_TABLE[4].0, 0);
    Precedes(EXT_TABLE[4].0, EXT_TABLE[5].0, 1);
    Precedes(EXT_TABLE[5].0, EXT_TABLE[6].0, 3);
    Precedes(EXT_TABLE[6].0, EXT_TABLE[7].0, 0);
    Precedes(EXT_TABLE[7].0, EXT_TABLE[8].0, 2);
  }

  lemma TableStretch2()
    ensures forall i :: 8 <= i < 16 ==> AtMost(EXT_TABLE[i].0, EXT_TABLE[i + 1].0) && EXT_TABLE[i].0 != EXT_TABLE[i + 1].0
  {
    hide AtMost;
    Precedes(EXT_TABLE[8].0, EXT_TABLE[9].0, 0);
    Precedes(EXT_TABLE[9].0, EXT_TABLE[10].0, 0);
    Precedes(EXT_TABLE[10].0, EXT_TABLE[11].0, 0);
    Precedes(EXT_TABLE[11].0, EXT_TABLE[12].0, 1);
    Precedes(EXT_TABLE[12].0, EXT_TABLE[13].0, 0);
    Precedes(EXT_TABLE[13].0, EXT_TABLE[14].0, 3);
    Precedes(EXT_TABLE[14].0, EXT_TABLE[15].0, 1);
    Precedes(EXT_TABLE[15].0, EXT_TABLE[16].0, 0);
  }

  /** The table is in strcmp order, as bsearch needs. */
  lemma TableInOrder()
    ensures InOrder(EXT_TABLE)
  {
    hide AtMost;
    TableStretch1();
    TableStretch2();
    assert Adjacent(EXT_TABLE) by {
      forall i | 0 < i < |EXT_TABLE|
        ensures AtMost(EXT_TABLE[i - 1].0, EXT_TABLE[i].0) && EXT_TABLE[i - 1].0 != EXT_TABLE[i].0
      {
        assert EXT_TABLE[i - 1 + 1] == EXT_TABLE[i];
      }
    }
    AdjacentInOrder(EXT_TABLE);
  }

  function Lookup(table: seq<(Bytes, Byte)>, ext: Bytes): Option<Byte> {
    if table == [] then None
    else if table[0].0 == ext then Some(table[0].1)
    else Lookup(table[1..], ext)
  }

  lemma {:induction false} LookupIs(table: seq<(Bytes, Byte)>, ext: Bytes, k: nat)
    requires k <= |table|
    requires forall i :: 0 <= i < k ==> table[i].0 != ext
    requires k < |table| ==> table[k].0 == ext
    ensures Lookup(table, ext) == if k < |table| then Some(table[k].1) else None
  {
    if k > 0 {
      LookupIs(table[1..], ext, k - 1);
    }
  }

  /** bsearch over a table in strcmp order finds what a search from the front finds. */
  method BSearch(table: seq<(Bytes, Byte)>, ext: Bytes) returns (r: Option<Byte>)
    requires InOrder(table)
    ensures r == Lookup(table, ext)
  {
    var l, u := 0, |table|;
    while l < u
      invariant 0 <= l <= u <= |table|
      invariant forall i :: 0 <= i < l ==> table[i].0 != ext
      invariant forall i :: u <= i < |table| ==> table[i].0 != ext
    {
      var idx := (l + u) / 2;
      var key := table[idx].0;
      if key == ext {
        LookupIs(table, ext, idx);
        return Some(table[idx].1);
      }
      if AtMost(ext, key) {
        forall i | idx <= i < |table| ensures table[i].0 != ext {
          if table[i].0 == ext { AtMostAntisymmetric(ext, key); }
        }
        u := idx;
      } else {
        forall i | 0 <= i <= idx ensures table[i].0 != ext {
          AtMostTotal(ext, key);
        }
        l := idx + 1;
      }
    }
    LookupIs(table, ext, |table|);
    r := None;
  }

  datatype FileStat = Regular(executable: bool) | Directory | Special | Unreadable

  function Extension(name: Bytes): Option<Bytes> {
    var i := LastIndexOf(name, DOT);
    if i == |name| then None else Some(name[i + 1..])
  }

  /** The menu type of a file, or None for one that is not listed. */
  function MenuType(name: Bytes, stat: FileStat): Option<Byte> {
    match stat
    case Directory => Some('1')
    case Regular(true) => Some('7')
    case Regular(false) =>
      var ext := Extension(name);
      var found := if ext.Some? then Lookup(EXT_TABLE, ext.value) else None;
      if found.Some? then found else Some('9')
    case _ => None
  }

  /** A file that is not executable has the type of its extension, which is what follows its last period,
      if that is in the table, and is a binary file otherwise. */
  lemma TypeByExtension(stem: Bytes, ext: Bytes)
    requires DOT !in ext
    ensures forall k :: 0 <= k < |EXT_TABLE| && EXT_TABLE[k].0 == ext ==>
              MenuType(stem + [DOT] + ext, Regular(false)) == Some(EXT_TABLE[k].1)
    ensures (forall k :: 0 <= k < |EXT_TABLE| ==> EXT_TABLE[k].0 != ext) ==>
              MenuType(stem + [DOT] + ext, Regular(false)) == Some('9')
    ensures MenuType(ext, Regular(false)) == Some('9')
  {
    hide AtMost, LastIndexOf, InOrder;
    var name := stem + [DOT] + ext;
    LastIndexOfIs(name, DOT, |stem|);
    assert name[|stem| + 1..] == ext;
    assert LastIndexOf(ext, DOT) == |ext|;
    TableIsUnique();
    if k :| 0 <= k < |EXT_TABLE| && EXT_TABLE[k].0 == ext {
      LookupIs(EXT_TABLE, ext, k);
    } else {
      LookupIs(EXT_TABLE, ext, |EXT_TABLE|);
    }
    hide Lookup;
  }

  lemma TableIsUnique()
    ensures forall i, j :: 0 <= i < j < |EXT_TABLE| ==> EXT_TABLE[i].0 != EXT_TABLE[j].0
  {
    hide AtMost;
    TableInOrder();
  }

  method FindMenuType(name: Bytes, stat: FileStat) returns (r: Option<Byte>)
    ensures r == MenuType(name, stat)
  {
    match stat
    case Directory => r := Some('1');
    case Regular(executable) =>
      if executable {
        r := Some('7');
      } else {
        r := Some('9');
        var dot := LastIndexOf(name, DOT);
        if dot < |name| {
          TableInOrder();
          var found := BSearch(EXT_TABLE, name[dot + 1..]);
          if found.Some? {
            r := found;
          }
        }
      }
    case _ => r := None;
  }

  // ---- The menu --------------------------------------------------------------------------

  /** The environment variables a listing depends on. */
  datatype Variables = Variables(selector: Option<Bytes>, host: Option<Bytes>, port: Option<Bytes>, query: Option<Bytes>)

  /** What printf prints for %s. */
  function Str(s: Option<Bytes>): Bytes {
    if s.Some? then s.value else "(null)"
  }

  function Query(env: Variables): Bytes {
    if env.query.Some? then env.query.value else []
  }

  /** The selector in front of its last slash: the directory that is listed. */
  function Containing(selector: Bytes): Bytes {
    var i := LastIndexOf(selector, SLASH);
    if i == |selector| then [] else selector[..i]
  }

  /** The selector up to and with the slash before its last one. */
  function ParentOf(selector: Bytes): Option<Bytes> {
    var i := LastIndexOf(selector, SLASH);
    if i == |selector| then None
    else
      var j := LastIndexOf(selector[..i], SLASH);
      if j == i then None else Some(selector[..j + 1])
  }

  function Dir(env: Variables): Bytes {
    if env.selector.Some? then Containing(env.selector.value) else []
  }

  function Parent(env: Variables): Option<Bytes> {
    if env.selector.Some? then ParentOf(env.selector.value) else None
  }

  function Link(dir: Bytes, name: Bytes): Bytes {
    dir + [SLASH] + name
  }

  /** A menu line with its tab-separated fields. */
  function Item(title: Bytes, link: Bytes, host: Bytes, port: Bytes): Bytes {
    title + [TAB] + link + [TAB] + host + [TAB] + port + CRLF
  }

  function Entry(env: Variables, kind: Byte, name: Bytes): Bytes {
    Item([kind] + name, Link(Dir(env), name), Str(env.host), Str(env.port))
  }

  function Header(env: Variables): seq<Bytes> {
    ["iDirectory listing of " + Str(env.host) + ":" + Str(env.port) + Dir(env) + "/" + CRLF]
    + (if Query(env) == [] then [] else ["iShowing filenames containing " + Query(env) + CRLF])
    + ["i" + CRLF]
    + if Parent(env).None? then []
      else [Item("1Parent Directory", Parent(env).value, Str(env.host), Str(env.port))]
  }

  function StatOf(stats: map<Bytes, FileStat>, name: Bytes): FileStat {
    if name in stats then stats[name] else Unreadable
  }

  /** One line for each name with a menu type, in the order of the names. */
  function Lines(env: Variables, names: seq<Bytes>, stats: map<Bytes, FileStat>): seq<Bytes> {
    if names == [] then []
    else
      var front, name := names[..|names| - 1], names[|names| - 1];
      var kind := MenuType(name, StatOf(stats, name));
      Lines(env, front, stats) + if kind.Some? then [Entry(env, kind.value, name)] else []
  }

  function Digit(d: nat): Byte
    requires d < 10
  {
    ('0' as int + d) as char
  }

  function Decimal(n: nat): Bytes {
    if n < 10 then [Digit(n)] else Decimal(n / 10) + [Digit(n % 10)]
  }

  /** files_found is an unsigned int. */
  function Footer(env: Variables, found: nat): seq<Bytes> {
    (if Query(env) == [] then []
     else ["i" + CRLF + "iFound " + Decimal(found % 0x1_0000_0000) + " files" + CRLF])
    + ["." + CRLF]
  }

  function Menu(env: Variables, entries: seq<Bytes>, stats: map<Bytes, FileStat>): seq<Bytes> {
    var lines := Lines(env, SortNames(Filter(entries, Query(env))), stats);
    Header(env) + lines + Footer(env, |lines|)
  }

  function Concat(texts: seq<Bytes>): Bytes {
    if texts == [] then [] else Concat(texts[..|texts| - 1]) + texts[|texts| - 1]
  }

  /** kept is texts with some left out. */
  predicate Thinned(kept: seq<Bytes>, texts: seq<Bytes>) {
    if texts == [] then kept == []
    else
      var front := texts[..|texts| - 1];
      || Thinned(kept, front)
      || (kept != [] && kept[|kept| - 1] == texts[|texts| - 1] && Thinned(kept[..|kept| - 1], front))
  }

  predicate Reliable(answers: seq<WriteAnswer>) {
    forall k :: 0 <= k < |answers| ==> Harmless(answers[k])
  }

  /** The header leaves the flush threshold free, and every line is shorter than it. */
  predicate Fits(env: Variables, names: seq<Bytes>, stats: map<Bytes, FileStat>) {
    && |Concat(Header(env))| <= BUFFER_LENGTH - BUFFER_LEFTOVER
    && forall k :: 0 <= k < |names| && MenuType(names[k], StatOf(stats, names[k])).Some? ==>
         |Entry(env, MenuType(names[k], StatOf(stats, names[k])).value, names[k])| < BUFFER_LEFTOVER
  }

  lemma {:induction false} ConcatAppend(a: seq<Bytes>, b: seq<Bytes>)
    ensures Concat(a + b) == Concat(a) + Concat(b)
  {
    if b == [] {
      assert a + b == a;
    } else {
      assert (a + b)[..|a + b| - 1] == a + b[..|b| - 1];
      ConcatAppend(a, b[..|b| - 1]);
    }
  }

  lemma {:induction false} DecimalLength(n: nat, digits: nat)
    requires digits > 0 && n < Pow10(digits)
    ensures |Decimal(n)| <= digits
  {
    if n >= 10 {
      DecimalLength(n / 10, digits - 1);
    }
  }

  function Pow10(n: nat): nat {
    if n == 0 then 1 else 10 * Pow10(n - 1)
  }

  // ---- Printing ----------------------------------------------------------------------------

  /** The listing so far: of the texts pushed, the ones in kept were accepted. */
  ghost predicate Printing(sb: Buffer, kept: seq<Bytes>, texts: seq<Bytes>)
    reads sb, sb.sink, sb.base
  {
    && sb.Valid() && sb.base.Length == BUFFER_LENGTH
    && sb.accepted == Concat(kept) && Thinned(kept, texts)
  }

  /** Nothing was left out, and a line of the allowed length still fits. */
  ghost predicate Complete(sb: Buffer, kept: seq<Bytes>, texts: seq<Bytes>, room: nat)
    reads sb, sb.sink, sb.base
  {
    && kept == texts && sb.pos + room <= sb.base.Length
    && Reliable(sb.sink.answers)
  }

  method Emit(sb: Buffer, text: Bytes, ghost kept: seq<Bytes>, ghost texts: seq<Bytes>)
    returns (ghost kept': seq<Bytes>)
    requires Printing(sb, kept, texts)
    modifies sb`pos, sb`accepted, sb.base
    ensures Printing(sb, kept', texts + [text])
    ensures |text| < old(sb.Remaining()) ==> kept' == kept + [text] && sb.pos == old(sb.pos) + |text|
  {
    var r := sb.Push(Text(text));
    assert (texts + [text])[..|texts|] == texts;
    assert (kept + [text])[..|kept|] == kept;
    assert BUFFER_LENGTH <= INT_MAX;
    kept' := if |text| < old(sb.Remaining()) then kept + [text] else kept;
    assert sb.accepted + [] == sb.accepted;
  }

  method EmitAll(sb: Buffer, more: seq<Bytes>, ghost kept: seq<Bytes>, ghost texts: seq<Bytes>, ghost room: nat)
    returns (ghost kept': seq<Bytes>)
    requires Printing(sb, kept, texts)
    modifies sb`pos, sb`accepted, sb.base
    ensures Printing(sb, kept', texts + more)
    ensures room > 0 && old(Complete(sb, kept, texts, room + |Concat(more)|)) ==> Complete(sb, kept', texts + more, room)
  {
    ghost var whole := room > 0 && Complete(sb, kept, texts, room + |Concat(more)|);
    kept' := kept;
    assert texts + more[..0] == texts;
    for k := 0 to |more|
      invariant Printing(sb, kept', texts + more[..k])
      invariant whole ==> kept' == texts + more[..k]
      invariant whole ==> sb.pos + room + |Concat(more)| - |Concat(more[..k])| <= sb.base.Length
    {
      assert more[..k + 1] == more[..k] + [more[k]];
      assert texts + more[..k + 1] == texts + more[..k] + [more[k]];
      ConcatAppend(more[..k], [more[k]]);
      assert Concat([more[k]]) == Concat([]) + more[k];
      ConcatPrefix(more, k + 1);
      kept' := Emit(sb, more[k], kept', texts + more[..k]);
    }
    assert more[..|more|] == more;
  }

  lemma ConcatPrefix(texts: seq<Bytes>, k: nat)
    requires k <= |texts|
    ensures |Concat(texts[..k])| <= |Concat(texts)|
  {
    ConcatAppend(texts[..k], texts[k..]);
    assert texts == texts[..k] + texts[k..];
  }

  lemma FooterIsShort(env: Variables, found: nat)
    ensures |Concat(Footer(env, found))| < BUFFER_LEFTOVER
  {
    var n := found % 0x1_0000_0000;
    assert Pow10(10) == 100000 * Pow10(5) && Pow10(5) == 100000;
    DecimalLength(n, 10);
    var f := Footer(env, found);
    if |f| == 2 {
      assert f == [f[0]] + [f[1]];
      ConcatAppend([f[0]], [f[1]]);
      assert Concat([f[0]]) == Concat([]) + f[0];
    }
    assert Concat([f[|f| - 1]]) == Concat([]) + f[|f| - 1];
  }

  /** The loop over the files: a line and a check of the threshold for each, up to the first
      file that cannot be examined. */
  method PrintLines(sb: Buffer, env: Variables, names: seq<Bytes>, stats: map<Bytes, FileStat>,
                    ghost kept0: seq<Bytes>, ghost fits: bool)
    returns (upTo: nat, found: nat, ghost kept: seq<Bytes>)
    requires Printing(sb, kept0, Header(env))
    requires fits ==> Fits(env, names, stats) && Complete(sb, kept0, Header(env), BUFFER_LEFTOVER)
    modifies sb, sb.base, sb.sink
    ensures upTo <= |names| && found == |Lines(env, names[..upTo], stats)|
    ensures forall k :: 0 <= k < upTo ==> StatOf(stats, names[k]) != Unreadable
    ensures upTo < |names| ==> StatOf(stats, names[upTo]) == Unreadable
    ensures Printing(sb, kept, Header(env) + Lines(env, names[..upTo], stats))
    ensures fits ==> Complete(sb, kept, Header(env) + Lines(env, names[..upTo], stats), BUFFER_LEFTOVER)
  {
    hide Entry, MenuType, Thinned, Concat, Header;
    upTo, found, kept := 0, 0, kept0;
    ghost var texts := Header(env);
    assert texts + Lines(env, [], stats) == texts && names[..0] == [];
    while upTo < |names|
      invariant upTo <= |names| && found == |Lines(env, names[..upTo], stats)|
      invariant forall k :: 0 <= k < upTo ==> StatOf(stats, names[k]) != Unreadable
      invariant texts == Header(env) + Lines(env, names[..upTo], stats)
      invariant Printing(sb, kept, texts)
      invariant fits ==> Complete(sb, kept, texts, BUFFER_LEFTOVER)
    {
      var name := names[upTo];
      var stat := StatOf(stats, name);
      if stat == Unreadable {
        return;
      }
      assert names[..upTo + 1][..upTo] == names[..upTo];
      var kind := FindMenuType(name, stat);
      upTo := upTo + 1;
      if kind.None? {
        assert Lines(env, names[..upTo], stats) == Lines(env, names[..upTo - 1], stats);
        continue;
      }
      found := found + 1;
      var line := Entry(env, kind.value, name);
      assert Lines(env, names[..upTo], stats) == Lines(env, names[..upTo - 1], stats) + [line];
      kept := Emit(sb, line, kept, texts);
      texts := texts + [line];
      var ignored := Check(sb, kept, texts);
    }
  }

  /** The threshold check: what was accepted stays, and a flush that succeeds empties the buffer. */
  method Check(sb: Buffer, ghost kept: seq<Bytes>, ghost texts: seq<Bytes>) returns (r: int)
    requires Printing(sb, kept, texts)
    modifies sb`pos, sb`writepos, sb`written, sb.sink
    ensures Printing(sb, kept, texts)
    ensures old(Complete(sb, kept, texts, 1)) ==> Complete(sb, kept, texts, BUFFER_LEFTOVER)
  {
    if Reliable(sb.sink.answers) {
      HarmlessDrains(sb.sink.answers, sb.Unwritten());
    }
    r := sb.CheckFlush(BUFFER_LEFTOVER);
  }

  /** main: with a descriptor that takes everything in the end and lines shorter than the
      threshold, the whole menu comes out, once and in order, for any number of files. Otherwise
      what comes out is still the start of the menu with whole lines left out. */
  method List(env: Variables, entries: seq<Bytes>, stats: map<Bytes, FileStat>, sink: Sink)
    returns (code: int, upTo: nat, ghost kept: seq<Bytes>)
    modifies sink
    ensures var names := SortNames(Filter(entries, Query(env)));
      && upTo <= |names|
      && (code == 0 <==> upTo == |names|)
      && (forall k :: 0 <= k < upTo ==> StatOf(stats, names[k]) != Unreadable)
      && (code != 0 ==> code == 1 && StatOf(stats, names[upTo]) == Unreadable)
      && Thinned(kept, if code == 0 then Menu(env, entries, stats) else Header(env) + Lines(env, names[..upTo], stats))
      && (Reliable(old(sink.answers)) && Fits(env, names, stats) && code == 0 ==>
            sink.output == old(sink.output) + Concat(Menu(env, entries, stats)))
    ensures sink.output <= old(sink.output) + Concat(kept)
  {
    hide Header, Footer, Lines, Thinned, Concat, Fits, Complete, SortNames, Filter, Printing, Reliable, StatOf, Query;
    var names := Gather(entries, Query(env));
    var base := new Byte[BUFFER_LENGTH];
    var sb := new Buffer(sink, base);
    ghost var fits := Reliable(sink.answers) && Fits(env, names, stats);
    Ready(sb, env, names, stats);
    AllOf(Header(env));
    kept := EmitAll(sb, Header(env), [], [], BUFFER_LEFTOVER);
    var found;
    upTo, found, kept := PrintLines(sb, env, names, stats, kept, fits);
    if upTo < |names| {
      Emitted(sb, kept, Header(env) + Lines(env, names[..upTo], stats));
      return 1, upTo, kept;
    }
    AllOf(names);
    kept := Finish(sb, env, found, kept, Header(env) + Lines(env, names, stats), fits);
    code := 0;
  }

  lemma AllOf(texts: seq<Bytes>)
    ensures [] + texts == texts && texts[..|texts|] == texts
  {
  }

  /** The names to list, in order. */
  method Gather(entries: seq<Bytes>, query: Bytes) returns (names: seq<Bytes>)
    ensures names == SortNames(Filter(entries, query))
  {
    var filenames, count := Collect(entries, query);
    QSort(filenames, count);
    names := filenames[..count];
  }

  method Finish(sb: Buffer, env: Variables, found: nat, ghost kept0: seq<Bytes>, ghost texts: seq<Bytes>, ghost fits: bool)
    returns (ghost kept: seq<Bytes>)
    requires Printing(sb, kept0, texts)
    requires fits ==> Complete(sb, kept0, texts, BUFFER_LEFTOVER)
    modifies sb, sb.base, sb.sink
    ensures Thinned(kept, texts + Footer(env, found))
    ensures sb.sink.output <= sb.origin + Concat(kept)
    ensures fits ==> sb.sink.output == sb.origin + Concat(texts + Footer(env, found))
  {
    hide Footer, Thinned, Concat;
    FooterIsShort(env, found);
    kept := EmitAll(sb, Footer(env, found), kept0, texts, 1);
    ghost var n := sb.Unwritten();
    if fits {
      HarmlessDrains(sb.sink.answers, n);
    }
    var ignored := sb.Flush();
    Emitted(sb, kept, texts + Footer(env, found));
    assert fits ==> sb.Waiting() == [];
    assert fits ==> sb.sink.output + [] == sb.sink.output;
  }

  lemma Emitted(sb: Buffer, kept: seq<Bytes>, texts: seq<Bytes>)
    requires Printing(sb, kept, texts)
    ensures sb.sink.output <= sb.origin + Concat(kept) && Thinned(kept, texts)
  {
    assert sb.sink.output <= sb.sink.output + sb.Waiting();
  }

  lemma Ready(sb: Buffer, env: Variables, names: seq<Bytes>, stats: map<Bytes, FileStat>)
    requires sb.Valid() && sb.base.Length == BUFFER_LENGTH && sb.accepted == [] && sb.pos == 0
    ensures Printing(sb, [], [])
    ensures Reliable(sb.sink.answers) && Fits(env, names, stats) ==>
              Complete(sb, [], [], BUFFER_LEFTOVER + |Concat(Header(env))|)
  {
  }
}
