/**
 * The request: how one readiness event fills the client's buffer, and how the
 * buffer splits into selector and query (RFC 1436, sections 3.6 and 3.7).
 */
module Request {
  import opened Bytes
  import opened Selectors

  /** What ends a run of reads that the buffer limit does not end. */
  datatype Ending = WouldBlock | ConnReset | EndOfInput | ReadError

  datatype Received = Data(bytes: Bytes) | Lost(ending: Ending)

  /** What the read loop makes of the bytes queued on the socket. */
  function Receive(queued: Bytes, ending: Ending): Received {
    if |queued| >= MAX_REQUEST_SIZE then Data(queued[..MAX_REQUEST_SIZE])
    else if ending == WouldBlock then Data(queued)
    else Lost(ending)
  }

  /** The read side of a client socket during one readiness event. Each read returns some of
      the queued bytes, as many as the next entry of chunks allows but at least one. */
  class Inbox {
    var queued: Bytes
    const ending: Ending
    var chunks: seq<nat>

    constructor (queued: Bytes, ending: Ending, chunks: seq<nat>)
      ensures this.queued == queued && this.ending == ending
    {
      this.queued, this.ending, this.chunks := queued, ending, chunks;
    }

    /** read(2): a positive count of bytes, or -1 or 0 once the queue is empty. */
    method Read(buffer: array<Byte>, at: nat, limit: nat) returns (count: int)
      requires 0 < limit && at + limit <= buffer.Length
      modifies this, buffer
      ensures old(queued) == [] ==> count == (if ending == EndOfInput then 0 else -1)
      ensures old(queued) == [] ==> buffer[..] == old(buffer[..]) && queued == []
      ensures old(queued) != [] ==> 0 < count <= limit && count <= |old(queued)|
      ensures old(queued) != [] ==> queued == old(queued)[count..]
      ensures old(queued) != [] ==> buffer[..at + count] == old(buffer[..at]) + old(queued)[..count]
    {
      if queued == [] {
        return if ending == EndOfInput then 0 else -1;
      }
      var chunk := if chunks == [] then |queued| else chunks[0];
      chunks := if chunks == [] then [] else chunks[1..];
      var n: nat := Min(limit, Min(|queued|, if chunk == 0 then 1 else chunk));
      for k := 0 to n
        invariant queued == old(queued)
        invariant buffer[..at + k] == old(buffer[..at]) + queued[..k]
      {
        buffer[at + k] := queued[k];
      }
      queued := queued[n..];
      count := n;
    }
  }

  /** The read loop: how the bytes are split over reads makes no difference. */
  method ReadRequest(inbox: Inbox, buffer: array<Byte>) returns (received: Received)
    requires buffer.Length == MAX_REQUEST_SIZE
    modifies inbox, buffer
    ensures received == Receive(old(inbox.queued), inbox.ending)
    ensures received.Data? ==> |received.bytes| <= buffer.Length && buffer[..|received.bytes|] == received.bytes
  {
    ghost var all := inbox.queued;
    var total := 0;
    while total < MAX_REQUEST_SIZE
      invariant total <= MAX_REQUEST_SIZE && total <= |all|
      invariant buffer[..total] == all[..total]
      invariant inbox.queued == all[total..]
    {
      var count := inbox.Read(buffer, total, MAX_REQUEST_SIZE - total);
      if count < 0 {
        if inbox.ending == WouldBlock {
          break;
        }
        return Lost(inbox.ending);
      } else if count == 0 {
        return Lost(EndOfInput);
      }
      total := total + count;
    }
    received := Data(buffer[..total]);
  }

  datatype Parsed = Parsed(selector: Bytes, query: Bytes)

  function Parse(data: Bytes): Option<Parsed> {
    var crlf := IndexOfCrlf(data);
    if crlf == |data| then None
    else
      var tab := IndexOf(data, TAB);
      if tab < |data| && tab < crlf then Some(Parsed(data[..tab], data[tab + 1..crlf]))
      else Some(Parsed(data[..crlf], []))
  }

  /** A request as a client prints it: selector [TAB query] CRLF. */
  function Print(selector: Bytes, query: Option<Bytes>): Bytes {
    selector + (if query.Some? then [TAB] + query.value else []) + CRLF
  }

  ghost predicate Printable(selector: Bytes, query: Option<Bytes>) {
    TAB !in selector && !HasCrlf(selector) && (query.Some? ==> !HasCrlf(query.value))
  }

  lemma NoCrlfBefore(a: Bytes, b: Bytes, rest: Bytes)
    requires !HasCrlf(a) && !HasCrlf(b)
    ensures IndexOfCrlf(a + CRLF + rest) == |a|
    ensures IndexOfCrlf(a + [TAB] + b + CRLF + rest) == |a| + 1 + |b|
  {
    var s := a + CRLF + rest;
    assert forall k :: k < |a| && CrlfAt(s, k) ==> CrlfAt(a, k);
    IndexOfCrlfIs(s, |a|);
    var t := a + [TAB] + b + CRLF + rest;
    var n := |a| + 1 + |b|;
    assert forall k :: k < n && CrlfAt(t, k) ==> CrlfAt(a, k) || CrlfAt(b, k - |a| - 1);
    IndexOfCrlfIs(t, n);
  }

  /** Parsing undoes printing, whatever follows the CRLF. */
  lemma ParsePrinted(selector: Bytes, query: Option<Bytes>, rest: Bytes)
    requires Printable(selector, query)
    ensures Parse(Print(selector, query) + rest)
         == Some(Parsed(selector, if query.Some? then query.value else []))
  {
    var data := Print(selector, query) + rest;
    var q := if query.Some? then query.value else [];
    NoCrlfBefore(selector, q, rest);
    if query.Some? {
      assert data == selector + [TAB] + q + CRLF + rest;
      IndexOfIs(data, TAB, |selector|);
      assert data[..|selector|] == selector;
      assert data[|selector| + 1..|selector| + 1 + |q|] == q;
    } else {
      assert data == selector + CRLF + rest;
      assert forall k :: 0 <= k < |selector| ==> data[k] != TAB;
      assert data[..|selector|] == selector;
    }
  }

  /** Through the read loop: a request that fits is understood as printed, however its bytes
      arrive and whatever comes with them. */
  lemma RequestArrives(selector: Bytes, query: Option<Bytes>, rest: Bytes, ending: Ending)
    requires Printable(selector, query)
    requires |Print(selector, query)| <= MAX_REQUEST_SIZE
    requires ending == WouldBlock || |Print(selector, query) + rest| >= MAX_REQUEST_SIZE
    ensures var r := Receive(Print(selector, query) + rest, ending);
      r.Data? && Parse(r.bytes) == Some(Parsed(selector, if query.Some? then query.value else []))
  {
    var p := Print(selector, query);
    var n := Min(MAX_REQUEST_SIZE, |p + rest|);
    assert (p + rest)[..n] == p + rest[..n - |p|];
    assert n == |p + rest| ==> (p + rest)[..n] == p + rest;
    ParsePrinted(selector, query, rest[..n - |p|]);
  }

  /** Every request that parses was a printed one followed by anything. */
  lemma ParsedWasPrinted(data: Bytes)
    requires Parse(data).Some?
    ensures var r := Parse(data).value;
      exists query: Option<Bytes> :: Printable(r.selector, query) && Print(r.selector, query) <= data
        && r.query == (if query.Some? then query.value else [])
  {
    var r := Parse(data).value;
    var crlf := IndexOfCrlf(data);
    var tab := IndexOf(data, TAB);
    assert forall k :: CrlfAt(r.selector, k) ==> CrlfAt(data, k);
    assert data[..crlf + 2] == data[..crlf] + CRLF;
    if tab < |data| && tab < crlf {
      assert forall k :: CrlfAt(r.query, k) ==> CrlfAt(data, tab + 1 + k);
      assert data[..crlf] == r.selector + [TAB] + r.query;
      assert Print(r.selector, Some(r.query)) == data[..crlf + 2];
      assert Printable(r.selector, Some(r.query));
    } else {
      assert Print(r.selector, None) == data[..crlf + 2];
      assert Printable(r.selector, None);
    }
  }
}
