/** The write buffer: a bounded buffer in front of a descriptor that may take any part of a write. */
module SBuffer {
  import opened Bytes

  type Errno = n: nat | n > 0 witness 1

  const EAGAIN: Errno := 11
  const EOVERFLOW: Errno := 75

  function Negated(errno: Errno): int {
    var e: int := errno;
    -e
  }

  const INT_MAX: nat := 0x7FFF_FFFF

  datatype PollAnswer = Writable | TimedOut | PollError(errno: Errno)

  /** What the kernel answers to one write. */
  datatype WriteAnswer = Wrote(limit: nat) | WouldBlock(poll: PollAnswer) | WriteError(errno: Errno)

  /** What a write of n bytes answers, given the answers to come. */
  ghost predicate Answered(left: seq<WriteAnswer>, n: nat, answer: WriteAnswer, after: seq<WriteAnswer>) {
    && after == (if left == [] then [] else left[1..])
    && answer == if left == [] then Wrote(n)
                 else if left[0].Wrote? then Wrote(Min(left[0].limit, n)) else left[0]
  }

  /** A descriptor. `answers` is what the kernel will say to the next writes; once it is used up,
      a write takes everything. */
  class Sink {
    var output: Bytes
    var answers: seq<WriteAnswer>

    constructor (answers: seq<WriteAnswer>)
      ensures output == [] && this.answers == answers
    {
      output, this.answers := [], answers;
    }

    method Write(bytes: Bytes) returns (answer: WriteAnswer)
      requires bytes != []
      modifies this
      ensures Answered(old(answers), |bytes|, answer, answers)
      ensures answer.Wrote? ==> answer.limit <= |bytes|
      ensures output == old(output) + if answer.Wrote? then bytes[..answer.limit] else []
    {
      if answers == [] {
        answer := Wrote(|bytes|);
      } else {
        answer := answers[0];
        if answer.Wrote? {
          answer := Wrote(Min(answer.limit, |bytes|));
        }
        answers := answers[1..];
      }
      if answer.Wrote? {
        output := output + bytes[..answer.limit];
      }
    }
  }

  /** What a format string and its arguments expand to. */
  datatype Formatted = Text(bytes: Bytes) | FormatError(errno: Errno)

  /** Flushing n bytes: the value returned, the bytes that got out, and the answers left. */
  function Drain(answers: seq<WriteAnswer>, n: nat): (r: (int, nat, seq<WriteAnswer>))
    ensures r.1 <= n
    ensures r.0 <= 0
    ensures r.0 == 0 ==> r.1 == n
  {
    if n == 0 then (0, 0, answers)
    else if answers == [] then (0, n, [])
    else match answers[0]
      case Wrote(limit) =>
        var m := Min(limit, n);
        var (status, more, left) := Drain(answers[1..], n - m);
        (status, m + more, left)
      case WouldBlock(Writable) => Drain(answers[1..], n)
      case WouldBlock(TimedOut) => (Negated(EAGAIN), 0, answers[1..])
      case WouldBlock(PollError(errno)) => (Negated(errno), 0, answers[1..])
      case WriteError(errno) => (Negated(errno), 0, answers[1..])
  }

  /** An answer that only delays: a partial write, or a full pipe that empties. */
  predicate Harmless(a: WriteAnswer) {
    a.Wrote? || a == WouldBlock(Writable)
  }

  lemma {:induction false} HarmlessDrains(answers: seq<WriteAnswer>, n: nat)
    requires forall k :: 0 <= k < |answers| ==> Harmless(answers[k])
    ensures Drain(answers, n).0 == 0 && Drain(answers, n).1 == n
    ensures forall k :: 0 <= k < |Drain(answers, n).2| ==> Harmless(Drain(answers, n).2[k])
  {
    if n != 0 && answers != [] {
      var a := answers[0];
      assert Harmless(a);
      HarmlessDrains(answers[1..], if a.Wrote? then n - Min(a.limit, n) else n);
    }
  }

  /** The most these answers let out. */
  function Room(answers: seq<WriteAnswer>): nat {
    if answers == [] then 0 else (if answers[0].Wrote? then answers[0].limit else 0) + Room(answers[1..])
  }

  /** A flush is settled by the first answer that does not only delay: if the ones in front of it let
      everything out, or there is none, it succeeds; otherwise it ends there with the error of that answer,
      having written what they let out. */
  lemma {:induction false} DrainIs(answers: seq<WriteAnswer>, n: nat, p: nat)
    requires p <= |answers| && forall k :: 0 <= k < p ==> Harmless(answers[k])
    requires p < |answers| ==> !Harmless(answers[p])
    ensures var (status, out, left) := Drain(answers, n);
      if p == |answers| || Room(answers[..p]) >= n then status == 0 && out == n
      else
        && out == Room(answers[..p]) && left == answers[p + 1..]
        && (answers[p] == WouldBlock(TimedOut) ==> status == -11)
        && (forall errno :: answers[p] == WouldBlock(PollError(errno)) || answers[p] == WriteError(errno) ==>
              status + errno == 0)
    decreases p
  {
    if n > 0 && p > 0 {
      var a, rest := answers[0], answers[1..];
      assert Harmless(a);
      DrainIs(rest, if a.Wrote? then n - Min(a.limit, n) else n, p - 1);
      assert answers[..p][1..] == rest[..p - 1] && answers[..p][0] == a;
      assert p < |answers| ==> rest[p..] == answers[p + 1..];
    }
  }

  /** With `out` of n bytes written and `left` still to be answered, the flush is on its way. */
  ghost predicate Continues(answers: seq<WriteAnswer>, n: nat, out: nat, left: seq<WriteAnswer>) {
    && out <= n
    && Drain(answers, n) == (Drain(left, n - out).0, out + Drain(left, n - out).1, Drain(left, n - out).2)
  }

  lemma DrainGoesOn(answers: seq<WriteAnswer>, n: nat, out: nat, left: seq<WriteAnswer>, answer: WriteAnswer,
                    after: seq<WriteAnswer>)
    requires Continues(answers, n, out, left) && out < n
    requires Answered(left, n - out, answer, after)
    ensures match answer
      case Wrote(count) => Continues(answers, n, out + count, after)
      case WouldBlock(Writable) => Continues(answers, n, out, after)
      case WouldBlock(TimedOut) => Drain(answers, n) == (Negated(EAGAIN), out, after)
      case WouldBlock(PollError(errno)) => Drain(answers, n) == (Negated(errno), out, after)
      case WriteError(errno) => Drain(answers, n) == (Negated(errno), out, after)
  {
  }

  lemma Shorter(left: seq<WriteAnswer>, n: nat, answer: WriteAnswer, after: seq<WriteAnswer>)
    requires Answered(left, n, answer, after)
    ensures |after| < |left| || (left == after == [] && answer == Wrote(n))
  {
  }

  lemma Start(answers: seq<WriteAnswer>, n: nat)
    ensures Continues(answers, n, 0, answers)
  {
  }

  lemma Done(answers: seq<WriteAnswer>, n: nat, left: seq<WriteAnswer>)
    requires Continues(answers, n, n, left)
    ensures Drain(answers, n) == (0, n, left)
  {
  }

  lemma Whole(output: Bytes, text: Bytes, out: nat)
    requires out <= |text|
    ensures output + text[..out] + text[out..] == output + text
  {
    assert text == text[..out] + text[out..];
  }

  lemma Moved(output: Bytes, text: Bytes, sent: Bytes, bytes: Bytes, count: nat)
    requires text == sent + bytes && count <= |bytes|
    ensures text == (sent + bytes[..count]) + bytes[count..]
    ensures output + sent + bytes[..count] == output + (sent + bytes[..count])
  {
    assert bytes == bytes[..count] + bytes[count..];
  }

  class Buffer {
    const sink: Sink
    const base: array<Byte>
    var pos: nat
    var writepos: nat
    var written: nat
    /** What the sink held at the start, and every byte pushed and accepted since. */
    ghost const origin: Bytes
    ghost var accepted: Bytes

    /** Nothing accepted is lost, doubled or reordered: what got out followed by what is waiting
        is everything accepted. */
    ghost predicate Valid()
      reads this, sink, base
    {
      && writepos <= pos <= base.Length
      && (base.Length > 0 ==> pos < base.Length)
      && sink.output + Waiting() == origin + accepted
      && |sink.output| == |origin| + written
    }

    ghost function Waiting(): Bytes
      reads this, base
      requires writepos <= pos <= base.Length
    {
      base[writepos..pos]
    }

    constructor (sink: Sink, base: array<Byte>)
      ensures Valid() && this.sink == sink && this.base == base
      ensures pos == 0 && writepos == 0 && written == 0
      ensures origin == sink.output && accepted == []
    {
      this.sink, this.base := sink, base;
      pos, writepos, written := 0, 0, 0;
      origin, accepted := sink.output, [];
    }

    function Remaining(): nat
      reads this, base
      requires pos <= base.Length
    {
      base.Length - pos
    }

    function Unwritten(): nat
      reads this
      requires writepos <= pos
    {
      pos - writepos
    }

    /** vsnprintf at pos: as much of the text as fits in front of a NUL; the length it would have. */
    method Format(text: Formatted) returns (n: int)
      requires pos <= base.Length
      modifies base
      ensures base[..pos] == old(base[..pos])
      ensures n == if text.Text? && |text.bytes| <= INT_MAX then |text.bytes| else -1
      ensures 0 <= n < Remaining() ==> base[pos..pos + n] == text.bytes
    {
      if text.FormatError? || |text.bytes| > INT_MAX {
        return -1;
      }
      n := |text.bytes|;
      var size := Remaining();
      if size > 0 {
        var fits := Min(n, size - 1);
        for k := 0 to fits
          invariant base[..pos] == old(base[..pos])
          invariant base[pos..pos + k] == text.bytes[..k]
        {
          base[pos + k] := text.bytes[k];
        }
        base[pos + fits] := NUL;
        assert fits == n ==> base[pos..pos + n] == text.bytes;
      }
    }

    /** A text is accepted whole when it fits in front of its NUL, and not at all otherwise. */
    method Push(text: Formatted) returns (r: int)
      requires Valid()
      modifies this`pos, this`accepted, base
      ensures Valid()
      ensures text.FormatError? ==> r == Negated(text.errno)
      ensures text.Text? && |text.bytes| > INT_MAX ==> r == Negated(EOVERFLOW)
      ensures text.Text? && |text.bytes| <= INT_MAX ==>
                r == if |text.bytes| < old(Remaining()) then |text.bytes| else 0
      ensures var fits := text.Text? && |text.bytes| <= INT_MAX && |text.bytes| < old(Remaining());
        && accepted == old(accepted) + (if fits then text.bytes else [])
        && pos == old(pos) + if fits then |text.bytes| else 0
    {
      var n := Format(text);
      assert Waiting() == base[..pos][writepos..] == old(base[..pos])[writepos..] == old(Waiting());
      if n > 0 {
        if n >= Remaining() {
          return 0;
        }
        assert base[writepos..pos + n] == base[writepos..pos] + text.bytes;
        assert sink.output + (Waiting() + text.bytes) == origin + (accepted + text.bytes) by {
          assert sink.output + (Waiting() + text.bytes) == (sink.output + Waiting()) + text.bytes;
        }
        accepted := accepted + text.bytes;
        pos := pos + n;
      } else if n < 0 {
        return if text.FormatError? then Negated(text.errno) else Negated(EOVERFLOW);
      }
      assert n == 0 ==> text.bytes == [] && accepted + text.bytes == accepted;
      r := n;
    }

    /** Writes what is waiting. A failure leaves exactly the bytes that did not get out, so a
        later flush resumes there. */
    method Flush() returns (r: int)
      requires Valid()
      modifies this`pos, this`writepos, this`written, sink
      ensures Valid()
      ensures var (status, out, left) := Drain(old(sink.answers), old(Unwritten()));
        && r == status && sink.answers == left
        && sink.output == old(sink.output) + old(Waiting())[..out]
        && (if status == 0 then pos == writepos == 0
            else pos == old(pos) && writepos == old(writepos) + out)
    {
      hide Drain, Continues, Answered, Min, Negated;
      Start(sink.answers, Unwritten());
      ghost var text, sent: Bytes := Waiting(), [];
      assert text == sent + Waiting();
      while Unwritten() > 0
        invariant Valid() && pos == old(pos)
        invariant text == sent + Waiting() && |sent| == writepos - old(writepos)
        invariant sink.output == old(sink.output) + sent
        invariant Continues(old(sink.answers), |text|, |sent|, sink.answers)
        decreases |sink.answers|, Unwritten()
      {
        ghost var before, bytes := sink.answers, Waiting();
        var answer := WriteOnce();
        DrainGoesOn(old(sink.answers), |text|, |sent|, before, answer, sink.answers);
        Shorter(before, |bytes|, answer, sink.answers);
        match answer
        case WouldBlock(PollError(errno)) => return Negated(errno);
        case WouldBlock(TimedOut) => return Negated(EAGAIN);
        case WouldBlock(Writable) =>
        case WriteError(errno) => return Negated(errno);
        case Wrote(count) =>
          Moved(old(sink.output), text, sent, bytes, count);
          sent := sent + bytes[..count];
      }
      Done(old(sink.answers), |text|, sink.answers);
      pos, writepos := 0, 0;
      r := 0;
    }

    /** One write of what is waiting, and the counters moved past what it took. */
    method WriteOnce() returns (answer: WriteAnswer)
      requires Valid() && Unwritten() > 0
      modifies this`writepos, this`written, sink
      ensures Valid()
      ensures Answered(old(sink.answers), old(Unwritten()), answer, sink.answers)
      ensures var count := if answer.Wrote? then answer.limit else 0;
        && count <= old(Unwritten()) && writepos == old(writepos) + count
        && Waiting() == old(Waiting())[count..]
        && sink.output == old(sink.output) + old(Waiting())[..count]
    {
      hide Answered;
      ghost var text := Waiting();
      answer := sink.Write(base[writepos..pos]);
      if answer.Wrote? {
        Whole(old(sink.output), text, answer.limit);
        writepos := writepos + answer.limit;
        written := written + answer.limit;
      }
    }

    method CheckFlush(leftover: nat) returns (r: int)
      requires Valid()
      modifies this`pos, this`writepos, this`written, sink
      ensures Valid()
      ensures old(Remaining()) >= leftover ==>
                r == 0 && pos == old(pos) && writepos == old(writepos) && sink.output == old(sink.output)
      ensures old(Remaining()) >= leftover ==> sink.answers == old(sink.answers)
      ensures old(Remaining()) < leftover ==>
        var (status, out, left) := Drain(old(sink.answers), old(Unwritten()));
        && r == status && sink.answers == left && sink.output == old(sink.output) + old(Waiting())[..out]
        && (if status == 0 then pos == writepos == 0 else pos == old(pos) && writepos == old(writepos) + out)
    {
      r := 0;
      if Remaining() < leftover {
        r := Flush();
      }
    }
  }
}
