/**
 * Selectors and relative paths: the normaliser of client_socket, what the kernel
 * is asked to open, and what a CGI program is told.
 */
module Selectors {
  import opened Bytes

  const MAX_REQUEST_SIZE: nat := 2 * 255 + 2 + 1
  const MAX_FILENAME_SIZE: nat := MAX_REQUEST_SIZE - 2 + 4

  function Piece(p: Bytes): seq<Bytes> {
    if p == [] then [] else [p]
  }

  /** The non-empty pieces of s between slashes. */
  function Parts(s: Bytes): seq<Bytes>
    decreases |s|
  {
    var i := IndexOf(s, SLASH);
    Piece(s[..i]) + if i == |s| then [] else Parts(s[i + 1..])
  }

  function Render(ps: seq<Bytes>): Bytes {
    if ps == [] then [] else [SLASH] + ps[0] + Render(ps[1..])
  }

  predicate Hidden(p: Bytes) {
    p != [] && p[0] == DOT
  }

  predicate Visible(ps: seq<Bytes>) {
    forall k :: 0 <= k < |ps| ==> !Hidden(ps[k])
  }

  /** No part begins with a period. */
  predicate Accepted(s: Bytes) {
    Visible(Parts(s))
  }

  /** The relative path a selector stands for. */
  function Normal(s: Bytes): Bytes {
    [DOT] + Render(Parts(s))
  }

  predicate AllClean(ps: seq<Bytes>) {
    forall k :: 0 <= k < |ps| ==> ps[k] != [] && SLASH !in ps[k]
  }

  predicate NoneHas(ps: seq<Bytes>, b: Byte) {
    forall k :: 0 <= k < |ps| ==> b !in ps[k]
  }

  // ---- Splitting and rendering ---------------------------------------------------

  function Join(p: Bytes, rest: Bytes): Bytes {
    p + [SLASH] + rest
  }

  lemma PartsOfPiece(p: Bytes)
    requires SLASH !in p
    ensures Parts(p) == Piece(p)
  {
    IndexOfIs(p, SLASH, |p|);
    assert p[..|p|] == p;
  }

  lemma PartsOfJoin(p: Bytes, rest: Bytes)
    requires SLASH !in p
    ensures Parts(Join(p, rest)) == Piece(p) + Parts(rest)
  {
    var s := Join(p, rest);
    IndexOfIs(s, SLASH, |p|);
    assert s[..|p|] == p && s[|p| + 1..] == rest;
  }

  /** A string with a slash is its first piece joined to the rest. */
  lemma FirstJoin(s: Bytes) returns (p: Bytes, rest: Bytes)
    requires SLASH in s
    ensures s == Join(p, rest) && SLASH !in p && |rest| < |s|
  {
    var i := IndexOf(s, SLASH);
    p, rest := s[..i], s[i + 1..];
  }

  /** A slash separates: the parts on its left come first, then those on its right. */
  lemma {:induction false} PartsConcat(x: Bytes, y: Bytes)
    ensures Parts(Join(x, y)) == Parts(x) + Parts(y)
    decreases |x|
  {
    hide Parts;
    if SLASH in x {
      var p, rest := FirstJoin(x);
      PartsConcat(rest, y);
      PartsOfJoin(p, rest);
      assert Join(x, y) == Join(p, Join(rest, y));
      PartsOfJoin(p, Join(rest, y));
    } else {
      PartsOfPiece(x);
      PartsOfJoin(x, y);
    }
  }

  lemma {:induction false} PartsAreClean(s: Bytes)
    ensures AllClean(Parts(s))
    decreases |s|
  {
    hide Parts;
    if SLASH in s {
      var p, rest := FirstJoin(s);
      PartsOfJoin(p, rest);
      PartsAreClean(rest);
    } else {
      PartsOfPiece(s);
    }
  }

  lemma {:induction false} RenderConcat(ps: seq<Bytes>, qs: seq<Bytes>)
    ensures Render(ps + qs) == Render(ps) + Render(qs)
  {
    if ps == [] {
      assert ps + qs == qs;
    } else {
      assert (ps + qs)[1..] == ps[1..] + qs;
      RenderConcat(ps[1..], qs);
    }
  }

  lemma RenderOfPiece(p: Bytes)
    ensures Render(Piece(p)) == if p == [] then [] else [SLASH] + p
  {
    if p != [] {
      assert Render([p]) == [SLASH] + p + Render([]);
    }
  }

  /** Parsing undoes rendering, with or without the '/' that marks a directory. */
  lemma {:induction false} PartsOfRender(ps: seq<Bytes>)
    requires AllClean(ps)
    ensures Parts(Render(ps)) == ps
    ensures Parts(Render(ps) + [SLASH]) == ps
  {
    hide Parts;
    if ps == [] {
      assert Render(ps) + [SLASH] == Join([], []);
      PartsOfPiece([]);
      PartsOfJoin([], []);
    } else {
      var last, front := ps[|ps| - 1], ps[..|ps| - 1];
      assert ps == front + Piece(last);
      RenderConcat(front, Piece(last));
      RenderOfPiece(last);
      assert Render(ps) == Join(Render(front), last);
      PartsOfRender(front);
      PartsConcat(Render(front), last);
      PartsOfPiece(last);
      assert Render(ps) + [SLASH] == Join(Render(ps), []);
      PartsConcat(Render(ps), []);
      PartsOfPiece([]);
    }
  }

  // ---- Split and filter: the reference the loop refines ----------------------------

  function Split(s: Bytes, b: Byte): seq<Bytes>
    decreases |s|
  {
    var i := IndexOf(s, b);
    [s[..i]] + if i == |s| then [] else Split(s[i + 1..], b)
  }

  function NonEmpty(ps: seq<Bytes>): seq<Bytes> {
    if ps == [] then [] else Piece(ps[0]) + NonEmpty(ps[1..])
  }

  lemma SplitOfJoin(p: Bytes, b: Byte, rest: Bytes)
    requires b !in p
    ensures Split(p + [b] + rest, b) == [p] + Split(rest, b)
  {
    var s := p + [b] + rest;
    IndexOfIs(s, b, |p|);
    assert s[..|p|] == p && s[|p| + 1..] == rest;
  }

  lemma SplitOfPiece(p: Bytes, b: Byte)
    requires b !in p
    ensures Split(p, b) == [p]
  {
    IndexOfIs(p, b, |p|);
    assert p[..|p|] == p;
  }

  lemma NonEmptyCons(p: Bytes, ps: seq<Bytes>)
    ensures NonEmpty([p] + ps) == Piece(p) + NonEmpty(ps)
  {
    assert ([p] + ps)[1..] == ps;
  }

  lemma {:induction false} PartsAreSplitPieces(s: Bytes)
    ensures Parts(s) == NonEmpty(Split(s, SLASH))
    decreases |s|
  {
    hide Parts, Split, NonEmpty;
    if SLASH in s {
      var p, rest := FirstJoin(s);
      PartsAreSplitPieces(rest);
      PartsOfJoin(p, rest);
      SplitOfJoin(p, SLASH, rest);
      NonEmptyCons(p, Split(rest, SLASH));
    } else {
      PartsOfPiece(s);
      SplitOfPiece(s, SLASH);
      NonEmptyCons(s, []);
      NonEmptyNone();
      assert [s] + [] == [s] && Piece(s) + [] == Piece(s);
    }
  }

  lemma NonEmptyNone()
    ensures NonEmpty([]) == []
  {
  }

  // ---- Hidden names, by their bytes ---------------------------------------------------

  /** Every period has a byte of its own part in front of it. */
  predicate PeriodsAreInside(s: Bytes) {
    forall i :: 0 <= i < |s| && s[i] == DOT ==> i > 0 && s[i - 1] != SLASH
  }

  lemma InsideOfJoin(p: Bytes, rest: Bytes)
    requires SLASH !in p
    ensures PeriodsAreInside(Join(p, rest)) <==> PeriodsAreInside(p) && PeriodsAreInside(rest)
  {
    var s, n := Join(p, rest), |p| + 1;
    assert forall i :: 0 <= i < |p| ==> s[i] == p[i];
    assert forall i :: n <= i < |s| ==> s[i] == rest[i - n];
    assert forall i :: 0 <= i < |rest| ==> rest[i] == s[n + i];
    assert s[|p|] == SLASH;
  }

  lemma InsideOfPiece(p: Bytes)
    requires SLASH !in p
    ensures PeriodsAreInside(p) <==> (p != [] ==> p[0] != DOT)
  {
  }

  /** A selector is accepted exactly when no period in it stands at its start or behind a slash. */
  lemma {:induction false} AcceptedIff(s: Bytes)
    ensures Accepted(s) <==> PeriodsAreInside(s)
    decreases |s|
  {
    hide Parts, PeriodsAreInside;
    var p, rest := if SLASH in s then s[..IndexOf(s, SLASH)] else s, [];
    if SLASH in s {
      rest := s[IndexOf(s, SLASH) + 1..];
      assert s == Join(p, rest);
      PartsOfJoin(p, rest);
      AcceptedIff(rest);
      InsideOfJoin(p, rest);
    } else {
      PartsOfPiece(s);
      assert Piece(s) + [] == Piece(s);
    }
    InsideOfPiece(p);
    VisibleConcat(Piece(p), Parts(rest));
    PartsOfPiece([]);
    assert Piece(p) != [] ==> Piece(p)[0] == p;
  }

  // ---- The normalising loop --------------------------------------------------------

  lemma {:induction false} RenderLength(s: Bytes)
    ensures |Render(Parts(s))| <= |s| + 1
    decreases |s|
  {
    hide Parts, Render;
    if SLASH in s {
      var p, rest := FirstJoin(s);
      PartsOfJoin(p, rest);
      RenderConcat(Piece(p), Parts(rest));
      RenderOfPiece(p);
      RenderLength(rest);
    } else {
      PartsOfPiece(s);
      RenderOfPiece(s);
    }
  }

  /** Every path fits its buffer with the directory mark and the NUL, and a selector of the
      full length without a slash fills it: MAX_FILENAME_SIZE cannot be lowered. */
  lemma PathBoundIsTight(s: Bytes)
    ensures |s| <= MAX_REQUEST_SIZE - 2 ==> |Normal(s)| + |[SLASH, NUL]| <= MAX_FILENAME_SIZE
    ensures SLASH !in s && |s| == MAX_REQUEST_SIZE - 2 ==>
              |Normal(s)| + |[SLASH, NUL]| == MAX_FILENAME_SIZE
  {
    RenderLength(s);
    if SLASH !in s {
      PartsOfPiece(s);
      RenderOfPiece(s);
    }
  }

  /** stpcpy and mempcpy: the new end of the string being built in filename. */
  method CopyTo(filename: array<Byte>, end: nat, bytes: Bytes) returns (newEnd: nat)
    requires end + |bytes| <= filename.Length
    modifies filename
    ensures newEnd == end + |bytes|
    ensures filename[..newEnd] == old(filename[..end]) + bytes
  {
    for k := 0 to |bytes|
      invariant filename[..end + k] == old(filename[..end]) + bytes[..k]
    {
      filename[end + k] := bytes[k];
    }
    newEnd := end + |bytes|;
  }

  method AppendPart(filename: array<Byte>, end: nat, part: Bytes) returns (newEnd: nat)
    requires end + 1 + |part| <= filename.Length
    modifies filename
    ensures newEnd == end + 1 + |part|
    ensures filename[..newEnd] == old(filename[..end]) + ([SLASH] + part)
  {
    newEnd := CopyTo(filename, end, [SLASH]);
    newEnd := CopyTo(filename, newEnd, part);
  }

  /** The path and the bytes still to be read make up the whole: what the loop keeps. */
  ghost predicate OnCourse(path: Bytes, rest: Bytes, selector: Bytes) {
    && path + Render(Parts(rest)) == Normal(selector)
    && (Accepted(rest) <==> Accepted(selector))
  }

  /** One turn: an empty piece adds nothing, a hidden one refuses the selector, another one is
      appended after a slash. */
  lemma TakePiece(path: Bytes, rest: Bytes, selector: Bytes, p: Bytes, after: Bytes)
    requires OnCourse(path, rest, selector)
    requires SLASH !in p
    requires (rest == p && after == []) || rest == Join(p, after)
    ensures Hidden(p) ==> !Accepted(selector)
    ensures !Hidden(p) ==> OnCourse(path + if p == [] then [] else [SLASH] + p, after, selector)
  {
    hide Parts, Render;
    PartsOfPiece([]);
    assert Parts(rest) == Piece(p) + Parts(after) by {
      if rest == p { PartsOfPiece(p); } else { PartsOfJoin(p, after); }
    }
    VisibleConcat(Piece(p), Parts(after));
    RenderConcat(Piece(p), Parts(after));
    RenderOfPiece(p);
    assert Hidden(p) ==> Hidden(Piece(p)[0]);
  }

  lemma VisibleConcat(ps: seq<Bytes>, qs: seq<Bytes>)
    ensures Visible(ps + qs) <==> Visible(ps) && Visible(qs)
  {
    assert Visible(ps + qs) ==> forall k :: 0 <= k < |ps| ==> ps[k] == (ps + qs)[k];
    assert Visible(ps + qs) ==> forall k :: 0 <= k < |qs| ==> qs[k] == (ps + qs)[|ps| + k];
  }

  /** The loop over the selector, the first bytes of the request buffer. It leaves the normalised
      path and a NUL in filename, or stops at a part with a leading period. */
  method Normalise(selector: Bytes, filename: array<Byte>) returns (ok: bool, end: nat)
    requires |selector| <= MAX_REQUEST_SIZE - 2
    requires filename.Length == MAX_FILENAME_SIZE
    modifies filename
    ensures ok <==> Accepted(selector)
    ensures ok <==> PeriodsAreInside(selector)
    ensures ok ==> end <= |selector| + 2 && filename[..end] == Normal(selector)
    ensures ok ==> filename[end] == NUL
  {
    Start(selector);
    AcceptedIff(selector);
    hide Parts, Render, Accepted, PeriodsAreInside, OnCourse, Normal, IndexOf, Join;
    ghost var rest := selector;
    end := CopyTo(filename, 0, [DOT]);
    filename[end] := NUL;
    assert filename[..end] == [DOT];
    if |selector| > 0 {
      var pos, more := 0, true;
      while more
        invariant pos <= |selector| && rest == if more then selector[pos..] else []
        invariant if more then end <= pos + 1 else end <= |selector| + 2
        invariant 1 <= end && OnCourse(filename[..end], rest, selector)
        decreases more, |selector| - pos
      {
        var length := |selector| - pos;
        var slash := IndexOf(selector[pos..], SLASH);
        var part := selector[pos..][..slash];
        ghost var after := if slash == length then [] else rest[slash + 1..];
        ghost var path := filename[..end];
        NextPiece(rest, slash);
        TakePiece(path, rest, selector, part, after);
        assert path + [] == path;
        if slash > 0 {
          if selector[pos] == DOT {
            return false, end;
          }
          end := AppendPart(filename, end, part);
        }
        rest := after;
        if slash == length {
          more := false;
        } else {
          pos := pos + slash + 1;
        }
      }
      filename[end] := NUL;
    }
    Arrived(filename[..end], selector);
    ok := true;
  }

  lemma NextPiece(rest: Bytes, slash: nat)
    requires slash == IndexOf(rest, SLASH)
    ensures SLASH !in rest[..slash]
    ensures slash == |rest| ==> rest[..slash] == rest
    ensures slash < |rest| ==> rest == Join(rest[..slash], rest[slash + 1..])
  {
    hide IndexOf;
    var part, after := rest[..slash], rest[Min(slash + 1, |rest|)..];
    assert slash < |rest| ==> rest == Join(part, after);
  }

  lemma Start(selector: Bytes)
    ensures OnCourse([DOT], selector, selector)
    ensures selector == [] ==> OnCourse([DOT], [], selector)
  {
  }

  lemma Arrived(path: Bytes, selector: Bytes)
    requires OnCourse(path, [], selector)
    ensures Accepted(selector) && path == Normal(selector)
  {
    PartsOfPiece([]);
  }

  // ---- The path the kernel opens -----------------------------------------------------

  /** openat takes a C string: the normalised path up to its first NUL. */
  function Opened(s: Bytes): Bytes {
    CStr(Normal(s))
  }

  /** The first NUL of s, if any, stands at the start of a part. */
  predicate NulLed(s: Bytes) {
    var i := IndexOf(s, NUL);
    i < |s| && (i == 0 || s[i - 1] == SLASH)
  }

  function Mark(s: Bytes): Bytes {
    if NulLed(s) then [SLASH] else []
  }

  lemma {:induction false} RenderKeepsOut(ps: seq<Bytes>, b: Byte)
    requires b != SLASH
    requires NoneHas(ps, b)
    ensures b !in Render(ps)
  {
    if ps != [] {
      RenderKeepsOut(ps[1..], b);
    }
  }

  lemma {:induction false} PartsKeepOut(s: Bytes, b: Byte)
    requires b !in s
    ensures NoneHas(Parts(s), b)
    decreases |s|
  {
    hide Parts;
    if SLASH in s {
      var p, rest := FirstJoin(s);
      PartsOfJoin(p, rest);
      assert forall k :: 0 <= k < |rest| ==> rest[k] == s[|p| + 1 + k];
      assert forall k :: 0 <= k < |p| ==> p[k] == s[k];
      PartsKeepOut(rest, b);
    } else {
      PartsOfPiece(s);
    }
  }

  lemma CStrAppend(a: Bytes, b: Bytes)
    ensures CStr(a + b) == if NUL in a then CStr(a) else a + CStr(b)
  {
    if NUL in a {
      IndexOfIs(a + b, NUL, IndexOf(a, NUL));
    } else {
      IndexOfIs(a + b, NUL, |a| + IndexOf(b, NUL));
      assert (a + b)[..|a| + IndexOf(b, NUL)] == a + b[..IndexOf(b, NUL)];
    }
  }

  lemma CutPastSlash(p: Bytes, rest: Bytes)
    requires NUL !in p
    ensures NulLed(Join(p, rest)) == NulLed(rest)
    ensures CStr(Join(p, rest)) == Join(p, CStr(rest))
  {
    var k := IndexOf(rest, NUL);
    IndexOfIs(Join(p, rest), NUL, |p| + 1 + k);
  }

  /** How a NUL inside the first piece cuts: the piece is cut, everything after it is gone. */
  lemma CutInPiece(p: Bytes, s: Bytes)
    requires NUL in p && SLASH !in p && (s == p || exists rest :: s == Join(p, rest))
    ensures CStr(s) == CStr(p) && NulLed(s) == (CStr(p) == [])
    ensures Parts(s) != [] && Parts(s)[0] == p
    ensures CStr(Render(Parts(s))) == [SLASH] + CStr(p)
    ensures Parts(CStr(s)) == Piece(CStr(p))
  {
    hide Parts;
    IndexOfIs(s, NUL, IndexOf(p, NUL));
    PartsOfPiece(CStr(p));
    if s == p {
      PartsOfPiece(p);
    } else {
      var rest :| s == Join(p, rest);
      PartsOfJoin(p, rest);
    }
    var others := Parts(s)[1..];
    assert Render(Parts(s)) == ([SLASH] + p) + Render(others);
    CStrAppend([SLASH] + p, Render(others));
    CStrAppend([SLASH], p);
  }

  /** Cutting the rendered parts at a NUL renders the parts of the cut selector. */
  lemma {:induction false} CutBody(s: Bytes)
    ensures CStr(Render(Parts(s))) == Render(Parts(CStr(s))) + Mark(s)
    decreases |s|
  {
    hide Parts, Render;
    if SLASH in s {
      var p, rest := FirstJoin(s);
      if NUL in p {
        CutInPiece(p, s);
        RenderOfPiece(CStr(p));
      } else {
        CutBody(rest);
        CutPastSlash(p, rest);
        PartsOfJoin(p, rest);
        PartsOfJoin(p, CStr(rest));
        RenderConcat(Piece(p), Parts(rest));
        RenderConcat(Piece(p), Parts(CStr(rest)));
        RenderOfPiece(p);
        CStrAppend(Render(Piece(p)), Render(Parts(rest)));
      }
    } else if NUL in s {
      CutInPiece(s, s);
      RenderOfPiece(CStr(s));
    } else {
      CStrOfPrefix(s, []);
      PartsOfPiece(s);
      RenderOfPiece(s);
      CStrOfPrefix(Render(Parts(s)), []);
    }
  }

  /** The part of a selector that follows its first NUL never reaches the path. */
  lemma OpenedIsNormalOfCut(s: Bytes)
    ensures Opened(s) == Normal(CStr(s)) + Mark(s)
  {
    hide Parts, Render;
    CutBody(s);
    CStrAppend([DOT], Render(Parts(s)));
  }

  /** Cutting an accepted selector at its first NUL leaves an accepted one. */
  lemma {:induction false} CutStaysAccepted(s: Bytes)
    requires Accepted(s)
    ensures Accepted(CStr(s))
    decreases |s|
  {
    hide Parts, Render;
    if SLASH in s {
      var p, rest := FirstJoin(s);
      if NUL in p {
        CutInPiece(p, s);
        assert !Hidden(Parts(s)[0]);
      } else {
        CutPastSlash(p, rest);
        PartsOfJoin(p, rest);
        VisibleConcat(Piece(p), Parts(rest));
        CutStaysAccepted(rest);
        PartsOfJoin(p, CStr(rest));
        VisibleConcat(Piece(p), Parts(CStr(rest)));
      }
    } else if NUL in s {
      CutInPiece(s, s);
      assert !Hidden(Parts(s)[0]);
    } else {
      CStrOfPrefix(s, []);
    }
  }

  lemma {:induction false} RenderNeverEndsInSlash(ps: seq<Bytes>)
    requires AllClean(ps)
    ensures Render(ps) != [] ==> Render(ps)[|Render(ps)| - 1] != SLASH
  {
    if ps != [] {
      RenderNeverEndsInSlash(ps[1..]);
      assert ps[0][|ps[0]| - 1] in ps[0];
    }
  }

  /** A path determines the parts it was rendered from and whether it was marked. */
  lemma PathDetermines(ps: seq<Bytes>, qs: seq<Bytes>, a: bool, b: bool)
    requires AllClean(ps) && AllClean(qs)
    requires Render(ps) + (if a then [SLASH] else []) == Render(qs) + if b then [SLASH] else []
    ensures ps == qs && a == b
  {
    hide Parts, Render;
    RenderNeverEndsInSlash(ps);
    RenderNeverEndsInSlash(qs);
    PartsOfRender(ps);
    PartsOfRender(qs);
    var x := Render(ps) + if a then [SLASH] else [];
    assert x == Render(ps) || x == Render(ps) + [SLASH];
    assert x == Render(qs) || x == Render(qs) + [SLASH];
    assert a ==> x[|x| - 1] == SLASH;
    assert b ==> x[|x| - 1] == SLASH;
  }

  /** Two selectors open the same path exactly when their parts agree up to the first NUL. */
  lemma SamePathIff(s: Bytes, t: Bytes)
    ensures Opened(s) == Opened(t)
       <==> Parts(CStr(s)) == Parts(CStr(t)) && NulLed(s) == NulLed(t)
  {
    hide Parts, Render;
    OpenedIsNormalOfCut(s);
    OpenedIsNormalOfCut(t);
    PartsAreClean(CStr(s));
    PartsAreClean(CStr(t));
    if Opened(s) == Opened(t) {
      assert Opened(s)[1..] == Render(Parts(CStr(s))) + Mark(s);
      assert Opened(t)[1..] == Render(Parts(CStr(t))) + Mark(t);
      PathDetermines(Parts(CStr(s)), Parts(CStr(t)), NulLed(s), NulLed(t));
    }
  }

  // ---- SCRIPT_NAME -------------------------------------------------------------------

  /** What a CGI program is given: the path without its leading period, cut at a NUL. */
  function ScriptName(s: Bytes, directory: bool): Bytes {
    CStr((Normal(s) + if directory then [SLASH] else [])[1..])
  }

  lemma {:induction false} NulSurvives(s: Bytes)
    requires NUL in s
    ensures NUL in Render(Parts(s))
    decreases |s|
  {
    if SLASH in s {
      var p, rest := FirstJoin(s);
      PartsOfJoin(p, rest);
      RenderConcat(Piece(p), Parts(rest));
      RenderOfPiece(p);
      if NUL !in p { NulSurvives(rest); }
    } else {
      PartsOfPiece(s);
      RenderOfPiece(s);
    }
  }

  /** SCRIPT_NAME is the parts in front of the first NUL; the slash that tells a program it was
      found as a directory is lost behind a NUL. */
  lemma ScriptNameIs(s: Bytes, directory: bool)
    ensures ScriptName(s, directory)
         == Render(Parts(CStr(s))) + if NulLed(s) || (directory && NUL !in s) then [SLASH] else []
  {
    hide Parts, Render;
    var slash: Bytes := if directory then [SLASH] else [];
    var body := Render(Parts(s));
    assert (Normal(s) + slash)[1..] == body + slash;
    CStrAppend(body, slash);
    CutBody(s);
    if NUL in s {
      NulSurvives(s);
    } else {
      PartsKeepOut(s, NUL);
      RenderKeepsOut(Parts(s), NUL);
      CStrOfPrefix(slash, []);
    }
  }

  /** As a selector, the SCRIPT_NAME handed to CGI is accepted and opens the same path again, unless
      the path was cut right after a slash. */
  lemma ScriptNameReopens(s: Bytes, directory: bool)
    requires Accepted(s)
    ensures Accepted(ScriptName(s, directory))
    ensures Parts(ScriptName(s, directory)) == Parts(CStr(s))
    ensures Opened(ScriptName(s, directory)) == Opened(s) <==> !NulLed(s)
  {
    hide Parts, Render, IndexOf;
    var n := ScriptName(s, directory);
    ScriptNameIs(s, directory);
    PartsAreClean(CStr(s));
    PartsOfRender(Parts(CStr(s)));
    PartsKeepOut(CStr(s), NUL);
    RenderKeepsOut(Parts(CStr(s)), NUL);
    CStrOfPrefix(n, []);
    SamePathIff(n, s);
    CutStaysAccepted(s);
  }

  // ---- Where the path leads ------------------------------------------------------------

  /** Following the pieces of a path from the directory `at`, as the kernel does without symlinks:
      "" and "." stay, ".." goes up, a name goes down. None is a walk above the serving directory. */
  function Walk(at: seq<Bytes>, pieces: seq<Bytes>): Option<seq<Bytes>>
    decreases |pieces|
  {
    if pieces == [] then Some(at)
    else if pieces[0] == [] || pieces[0] == [DOT] then Walk(at, pieces[1..])
    else if pieces[0] == [DOT, DOT] then
      if at == [] then None else Walk(at[..|at| - 1], pieces[1..])
    else Walk(at + [pieces[0]], pieces[1..])
  }

  lemma {:induction false} WalkDescends(at: seq<Bytes>, pieces: seq<Bytes>)
    requires Visible(NonEmpty(pieces))
    ensures Walk(at, pieces) == Some(at + NonEmpty(pieces))
    decreases |pieces|
  {
    if pieces == [] {
      assert at + NonEmpty(pieces) == at;
    } else {
      var p, others := pieces[0], pieces[1..];
      VisibleConcat(Piece(p), NonEmpty(others));
      assert p != [] ==> p == Piece(p)[0] && p[0] != DOT;
      WalkDescends(if p == [] then at else at + [p], others);
      assert p == [] ==> NonEmpty(pieces) == NonEmpty(others);
      assert p != [] ==> at + [p] + NonEmpty(others) == at + ([p] + NonEmpty(others));
    }
  }

  /** Past the leading period the pieces are those of the body, whose first one is empty. */
  lemma SplitPath(body: Bytes)
    requires body == [] || body[0] == SLASH
    ensures Split([DOT] + body, SLASH) == [[DOT]] + if body == [] then [] else Split(body[1..], SLASH)
    ensures Parts(body) == if body == [] then [] else Parts(body[1..])
  {
    var path := [DOT] + body;
    IndexOfIs(path, SLASH, 1);
    assert path[..1] == [DOT];
    if body == [] {
      PartsOfPiece([]);
    } else {
      assert path[2..] == body[1..];
      assert body == Join([], body[1..]);
      PartsOfJoin([], body[1..]);
    }
  }

  lemma WalkBody(body: Bytes)
    requires body == [] || body[0] == SLASH
    requires Accepted(body)
    ensures Walk([], Split([DOT] + body, SLASH)) == Some(Parts(body))
  {
    hide Split, Parts;
    SplitPath(body);
    var others := if body == [] then [] else Split(body[1..], SLASH);
    assert ([[DOT]] + others)[1..] == others;
    if body != [] {
      PartsAreSplitPieces(body[1..]);
    }
    WalkDescends([], others);
    assert [] + NonEmpty(others) == NonEmpty(others);
    PartsOfPiece([]);
    assert Parts(body) == NonEmpty(others);
  }

  /** Every accepted selector, NULs or not, leads from the serving directory down the parts in front of
      its first NUL and never up, and none of these is a hidden name. */
  lemma OpenedDescends(s: Bytes)
    requires Accepted(s)
    ensures Walk([], Split(Opened(s), SLASH)) == Some(Parts(CStr(s)))
    ensures forall k :: 0 <= k < |Parts(CStr(s))| ==> var p := Parts(CStr(s))[k]; p != [] && p[0] != DOT && SLASH !in p
  {
    hide Parts, Walk, Split;
    OpenedIsNormalOfCut(s);
    CutStaysAccepted(s);
    PartsAreClean(CStr(s));
    PartsOfRender(Parts(CStr(s)));
    var body := Render(Parts(CStr(s))) + Mark(s);
    assert body == Render(Parts(CStr(s))) || body == Render(Parts(CStr(s))) + [SLASH];
    assert Opened(s) == [DOT] + body;
    WalkBody(body);
  }

  /** As a selector, the SCRIPT_NAME handed to CGI leads to the same file or directory again. */
  lemma ScriptNameLeadsBack(s: Bytes, directory: bool)
    requires Accepted(s)
    ensures Accepted(ScriptName(s, directory))
    ensures Walk([], Split(Opened(ScriptName(s, directory)), SLASH)) == Walk([], Split(Opened(s), SLASH))
  {
    hide Parts, Walk, Split, Render, Opened;
    var n := ScriptName(s, directory);
    ScriptNameReopens(s, directory);
    OpenedDescends(s);
    OpenedDescends(n);
    assert CStr(n) == n by {
      ScriptNameHasNoNul(s, directory);
      CStrOfPrefix(n, []);
    }
  }

  lemma ScriptNameHasNoNul(s: Bytes, directory: bool)
    ensures NUL !in ScriptName(s, directory)
  {
    hide Parts, Render;
  }
}
