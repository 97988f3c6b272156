/** Byte strings and the C string primitives the programs scan them with. */
module Bytes {
  type Byte = c: char | c as int < 256 witness 'a'
  type Bytes = seq<Byte>

  datatype Option<+T> = None | Some(value: T)

  const CR: Byte := '\r'
  const LF: Byte := '\n'
  const TAB: Byte := '\t'
  const NUL: Byte := '\0'
  const SLASH: Byte := '/'
  const DOT: Byte := '.'
  const CRLF: Bytes := [CR, LF]

  /** memchr: the first position of b in s, or |s| when there is none. */
  function IndexOf(s: Bytes, b: Byte): (i: nat)
    ensures i <= |s|
    ensures forall k :: 0 <= k < i ==> s[k] != b
    ensures i < |s| ==> s[i] == b
  {
    if s == [] || s[0] == b then 0 else 1 + IndexOf(s[1..], b)
  }

  /** strrchr: the last position of b in s, or |s| when there is none. */
  function LastIndexOf(s: Bytes, b: Byte): (i: nat)
    ensures i <= |s|
    ensures i < |s| ==> s[i] == b && forall k :: i < k < |s| ==> s[k] != b
    ensures i == |s| ==> b !in s
  {
    if s == [] then 0
    else if s[|s| - 1] == b then |s| - 1
    else
      var i := LastIndexOf(s[..|s| - 1], b);
      if i == |s| - 1 then |s| else i
  }

  predicate CrlfAt(s: Bytes, k: int) {
    0 <= k && k + 2 <= |s| && s[k] == CR && s[k + 1] == LF
  }

  ghost predicate HasCrlf(s: Bytes) {
    exists k :: CrlfAt(s, k)
  }

  /** memmem(s, "\r\n"): the first position of CRLF in s, or |s| when there is none. */
  function IndexOfCrlf(s: Bytes): (i: nat)
    ensures i < |s| ==> CrlfAt(s, i)
    ensures i == |s| || i < |s|
    ensures forall k :: k < i ==> !CrlfAt(s, k)
  {
    if s == [] then 0
    else if CrlfAt(s, 0) then 0
    else
      assert forall k :: 1 <= k && CrlfAt(s, k) ==> CrlfAt(s[1..], k - 1);
      1 + IndexOfCrlf(s[1..])
  }

  /** The bytes a C string function sees of a buffer holding s and a final NUL. */
  function CStr(s: Bytes): Bytes {
    s[..IndexOf(s, NUL)]
  }

  function Min(a: nat, b: nat): nat {
    if a <= b then a else b
  }

  lemma IndexOfIs(s: Bytes, b: Byte, i: nat)
    requires i <= |s|
    requires forall k :: 0 <= k < i ==> s[k] != b
    requires i < |s| ==> s[i] == b
    ensures IndexOf(s, b) == i
  {
    var j := IndexOf(s, b);
  }

  lemma LastIndexOfIs(s: Bytes, b: Byte, i: nat)
    requires i < |s| && s[i] == b
    requires forall k :: i < k < |s| ==> s[k] != b
    ensures LastIndexOf(s, b) == i
  {
    var j := LastIndexOf(s, b);
  }

  lemma IndexOfCrlfIs(s: Bytes, i: nat)
    requires CrlfAt(s, i)
    requires forall k :: k < i ==> !CrlfAt(s, k)
    ensures IndexOfCrlf(s) == i
  {
    var j := IndexOfCrlf(s);
    assert j < |s| ==> CrlfAt(s, j);
  }

  lemma CStrOfPrefix(a: Bytes, b: Bytes)
    requires NUL !in a
    ensures CStr(a) == a
    ensures CStr(a + [NUL] + b) == a
  {
    IndexOfIs(a, NUL, |a|);
    IndexOfIs(a + [NUL] + b, NUL, |a|);
  }
}
