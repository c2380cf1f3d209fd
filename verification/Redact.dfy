/** The line-buffered redacting writer (internal/logging/redact.go). What one line is
    redacted to is an opaque function; what is forwarded, and when, is not. */
module Redact {
  import opened Types

  const NEWLINE: byte := 10

  /** The position of the first newline. */
  function IndexByte(b: bytes): (i: Option<nat>)
    ensures i.Some? ==> i.value < |b|
  {
    if b == [] then None
    else if b[0] == NEWLINE then Some(0)
    else
      var rest := IndexByte(b[1..]);
      if rest.Some? then Some(rest.value + 1) else None
  }

  lemma {:induction false} IndexByteIsFirst(b: bytes)
    ensures var i := IndexByte(b);
            if i.Some? then b[i.value] == NEWLINE && NEWLINE !in b[..i.value] else NEWLINE !in b
  {
    if b != [] && b[0] != NEWLINE {
      IndexByteIsFirst(b[1..]);
      assert b == [b[0]] + b[1..];
      var rest := IndexByte(b[1..]);
      if rest.Some? {
        assert b[..rest.value + 1] == [b[0]] + b[1..][..rest.value];
      }
    }
  }

  /** The complete lines of some bytes, each with its newline, and what follows the
      last of them. */
  function Lines(b: bytes): seq<bytes>
    decreases |b|
  {
    var i := IndexByte(b);
    if i.None? then [] else [b[..i.value + 1]] + Lines(b[i.value + 1..])
  }

  function Rest(b: bytes): bytes
    decreases |b|
  {
    var i := IndexByte(b);
    if i.None? then b else Rest(b[i.value + 1..])
  }

  function Concat(parts: seq<bytes>): bytes {
    if parts == [] then [] else parts[0] + Concat(parts[1..])
  }

  function RedactAll(redact: bytes -> bytes, lines: seq<bytes>): bytes {
    if lines == [] then [] else redact(lines[0]) + RedactAll(redact, lines[1..])
  }

  /** The whole input at once: every line redacted on its own, an unterminated final
      line included. */
  function WholeInput(redact: bytes -> bytes, input: bytes): bytes {
    RedactAll(redact, Lines(input)) + if Rest(input) == [] then [] else redact(Rest(input))
  }

  lemma ConcatCons(x: bytes, xs: seq<bytes>)
    ensures Concat([x] + xs) == x + Concat(xs)
  {
    assert ([x] + xs)[1..] == xs;
  }

  lemma SplitJoin(b: bytes, i: nat)
    requires i <= |b|
    ensures b[..i] + b[i..] == b
  {
  }

  /** Lines and rest are the bytes they came from. */
  lemma {:induction false} LinesPartition(b: bytes)
    ensures Concat(Lines(b)) + Rest(b) == b
    decreases |b|
  {
    var i := IndexByte(b);
    if i.Some? {
      var line := b[..i.value + 1];
      var tail := b[i.value + 1..];
      LinesPartition(tail);
      ConcatCons(line, Lines(tail));
      Regroup(line, Concat(Lines(tail)), Rest(tail));
      assert Concat(Lines(b)) == line + Concat(Lines(tail)) && Rest(b) == Rest(tail);
      SplitJoin(b, i.value + 1);
    } else {
      assert Lines(b) == [] && [] + b == b;
    }
  }

  predicate IsLine(l: bytes) {
    l != [] && l[|l| - 1] == NEWLINE && NEWLINE !in l[..|l| - 1]
  }

  /** Every complete line ends in its only newline, and the rest has none. */
  lemma {:induction false} LinesAreLines(b: bytes)
    ensures NEWLINE !in Rest(b)
    ensures forall k :: 0 <= k < |Lines(b)| ==> IsLine(Lines(b)[k])
    decreases |b|
  {
    var i := IndexByte(b);
    IndexByteIsFirst(b);
    if i.Some? {
      var line := b[..i.value + 1];
      LinesAreLines(b[i.value + 1..]);
      assert line[..|line| - 1] == b[..i.value];
      assert IsLine(line);
    }
  }

  lemma {:induction false} IndexOfAppend(a: bytes, b: bytes)
    requires IndexByte(a).Some?
    ensures IndexByte(a + b) == IndexByte(a)
  {
    if a[0] != NEWLINE {
      IndexOfAppend(a[1..], b);
      assert (a + b)[1..] == a[1..] + b;
    }
  }

  /** Cutting the input anywhere and keeping the rest buffered changes no line. */
  lemma {:induction false} LinesOfAppend(a: bytes, b: bytes)
    ensures Lines(a + b) == Lines(a) + Lines(Rest(a) + b)
    ensures Rest(a + b) == Rest(Rest(a) + b)
    decreases |a|
  {
    var i := IndexByte(a);
    if i.Some? {
      IndexOfAppend(a, b);
      var tail := a[i.value + 1..];
      assert (a + b)[..i.value + 1] == a[..i.value + 1];
      assert (a + b)[i.value + 1..] == tail + b;
      LinesOfAppend(tail, b);
    }
  }

  lemma {:induction false} RedactAppend(redact: bytes -> bytes, xs: seq<bytes>, ys: seq<bytes>)
    ensures RedactAll(redact, xs + ys) == RedactAll(redact, xs) + RedactAll(redact, ys)
  {
    if xs == [] {
      assert xs + ys == ys;
    } else {
      RedactAppend(redact, xs[1..], ys);
      assert (xs + ys)[1..] == xs[1..] + ys;
      Regroup(redact(xs[0]), RedactAll(redact, xs[1..]), RedactAll(redact, ys));
    }
  }

  // ---- The writer ----

  /** Forwarding lines one at a time to a sink that may refuse any of its calls. */
  datatype Drained = Drained(out: bytes, buf: bytes, calls: nat, ok: bool)

  function Drain(redact: bytes -> bytes, accepts: nat -> bool, calls: nat, buf: bytes): Drained
    decreases |buf|
  {
    var i := IndexByte(buf);
    if i.None? then Drained([], buf, calls, true)
    else if !accepts(calls) then Drained([], buf[i.value + 1..], calls + 1, false)
    else
      var d := Drain(redact, accepts, calls + 1, buf[i.value + 1..]);
      d.(out := redact(buf[..i.value + 1]) + d.out)
  }

  /** The sink takes each of n calls from this one on. */
  predicate TakesAll(accepts: nat -> bool, calls: nat, n: nat) {
    forall c: nat :: calls <= c < calls + n ==> accepts(c)
  }

  /** A drain succeeds exactly when the sink takes one call for each complete line; it
      has then forwarded exactly those lines, redacted, and keeps exactly the rest. */
  lemma {:induction false} DrainForwardsLines(redact: bytes -> bytes, accepts: nat -> bool, calls: nat, buf: bytes)
    ensures var d := Drain(redact, accepts, calls, buf);
            var lines := Lines(buf);
            && (d.ok <==> TakesAll(accepts, calls, |lines|))
            && (d.ok ==> d.out == RedactAll(redact, lines) && d.buf == Rest(buf) && d.calls == calls + |lines|)
    decreases |buf|
  {
    var i := IndexByte(buf);
    if i.Some? {
      var line := buf[..i.value + 1];
      var tail := buf[i.value + 1..];
      assert ([line] + Lines(tail))[1..] == Lines(tail);
      if accepts(calls) {
        DrainForwardsLines(redact, accepts, calls + 1, tail);
      }
    }
  }

  /** `whole` is what remains to drain, after what was already sent. */
  predicate Resumes(redact: bytes -> bytes, accepts: nat -> bool, calls: nat, buf: bytes, sent: bytes, whole: Drained) {
    var d := Drain(redact, accepts, calls, buf);
    whole == d.(out := sent + d.out)
  }

  lemma ResumeStart(redact: bytes -> bytes, accepts: nat -> bool, calls: nat, buf: bytes)
    returns (sent: bytes, whole: Drained)
    ensures sent == [] && whole == Drain(redact, accepts, calls, buf)
    ensures Resumes(redact, accepts, calls, buf, sent, whole)
  {
    sent, whole := [], Drain(redact, accepts, calls, buf);
    assert [] + whole.out == whole.out;
  }

  /** Forwarding the line that ends at i, or failing to. */
  lemma ResumeStep(redact: bytes -> bytes, accepts: nat -> bool, calls: nat, buf: bytes, i: nat, sent: bytes,
                   whole: Drained)
    returns (sent': bytes)
    requires Resumes(redact, accepts, calls, buf, sent, whole) && IndexByte(buf) == Some(i)
    ensures accepts(calls) ==>
              sent' == sent + redact(buf[..i + 1]) && Resumes(redact, accepts, calls + 1, buf[i + 1..], sent', whole)
    ensures !accepts(calls) ==> sent' == sent && whole == Drained(sent, buf[i + 1..], calls + 1, false)
  {
    var d := Drain(redact, accepts, calls + 1, buf[i + 1..]);
    assert sent + (redact(buf[..i + 1]) + d.out) == sent + redact(buf[..i + 1]) + d.out;
    assert sent + [] == sent;
    sent' := if accepts(calls) then sent + redact(buf[..i + 1]) else sent;
  }

  lemma ResumeDone(redact: bytes -> bytes, accepts: nat -> bool, calls: nat, buf: bytes, sent: bytes, whole: Drained)
    requires Resumes(redact, accepts, calls, buf, sent, whole) && IndexByte(buf).None?
    ensures whole == Drained(sent, buf, calls, true)
  {
    assert sent + [] == sent;
  }

  /** What a refusal at line k means. */
  predicate LostLine(redact: bytes -> bytes, lines: seq<bytes>, rest: bytes, d: Drained, k: nat) {
    && k < |lines|
    && d.out == RedactAll(redact, lines[..k])
    && d.buf == Concat(lines[k + 1..]) + rest
  }

  lemma LostLater(redact: bytes -> bytes, line: bytes, lines: seq<bytes>, rest: bytes, d: Drained, k: nat)
    requires LostLine(redact, lines, rest, d, k)
    ensures LostLine(redact, [line] + lines, rest, d.(out := redact(line) + d.out), k + 1)
  {
    var all := [line] + lines;
    assert all[..k + 1] == [line] + lines[..k];
    assert ([line] + lines[..k])[1..] == lines[..k];
    assert all[k + 2..] == lines[k + 1..];
  }

  /** A refused call loses exactly the line it carried: the lines before it were
      forwarded, and everything after it is still buffered. */
  lemma {:induction false} RefusalLosesOneLine(redact: bytes -> bytes, accepts: nat -> bool, calls: nat, buf: bytes)
    returns (k: nat)
    requires !Drain(redact, accepts, calls, buf).ok
    ensures LostLine(redact, Lines(buf), Rest(buf), Drain(redact, accepts, calls, buf), k)
    ensures !accepts(calls + k) && Drain(redact, accepts, calls, buf).calls == calls + k + 1
    decreases |buf|
  {
    var i := IndexByte(buf).value;
    var tail := buf[i + 1..];
    if !accepts(calls) {
      k := 0;
      LostFirst(redact, accepts, calls, buf);
    } else {
      var j := RefusalLosesOneLine(redact, accepts, calls + 1, tail);
      LostLater(redact, buf[..i + 1], Lines(tail), Rest(tail), Drain(redact, accepts, calls + 1, tail), j);
      k := j + 1;
    }
  }

  lemma LostFirst(redact: bytes -> bytes, accepts: nat -> bool, calls: nat, buf: bytes)
    requires IndexByte(buf).Some? && !accepts(calls)
    ensures LostLine(redact, Lines(buf), Rest(buf), Drain(redact, accepts, calls, buf), 0)
  {
    var i := IndexByte(buf).value;
    var tail := buf[i + 1..];
    LinesPartition(tail);
    assert ([buf[..i + 1]] + Lines(tail))[1..] == Lines(tail);
  }

  /** Where the writer forwards to: it refuses the calls `accepts` refuses. */
  class Sink {
    const accepts: nat -> bool
    var out: bytes
    var calls: nat

    constructor (accepts: nat -> bool)
      ensures this.accepts == accepts && out == [] && calls == 0
    {
      this.accepts, out, calls := accepts, [], 0;
    }

    method Write(b: bytes) returns (ok: bool)
      modifies this
      ensures ok == accepts(old(calls)) && calls == old(calls) + 1
      ensures out == old(out) + if ok then b else []
    {
      ok := accepts(calls);
      calls := calls + 1;
      if ok {
        out := out + b;
      }
    }
  }

  class Writer {
    const redact: bytes -> bytes
    const sink: Sink
    var buf: bytes

    constructor (redact: bytes -> bytes, sink: Sink)
      ensures this.redact == redact && this.sink == sink && buf == []
    {
      this.redact, this.sink, buf := redact, sink, [];
    }

    /** Buffers p and forwards each complete line as it becomes available; all of p
        counts as consumed even when the sink refuses a line. */
    method Write(p: bytes) returns (n: nat, ok: bool)
      modifies this, sink
      ensures var d := Drain(redact, sink.accepts, old(sink.calls), old(buf) + p);
              n == |p| && ok == d.ok && buf == d.buf && sink.calls == d.calls && sink.out == old(sink.out) + d.out
    {
      buf := buf + p;
      n := |p|;
      ok := ForwardLines();
    }

    /** The forwarding loop: one complete line after another, until none is left or
        the sink refuses one. */
    method ForwardLines() returns (ok: bool)
      modifies this, sink
      ensures var d := Drain(redact, sink.accepts, old(sink.calls), old(buf));
              ok == d.ok && buf == d.buf && sink.calls == d.calls && sink.out == old(sink.out) + d.out
    {
      ok := true;
      ghost var sent, whole := ResumeStart(redact, sink.accepts, sink.calls, buf);
      while true
        invariant ok && sink.out == old(sink.out) + sent
        invariant Resumes(redact, sink.accepts, sink.calls, buf, sent, whole)
        decreases |buf|
      {
        var i := IndexByte(buf);
        if i.None? {
          ResumeDone(redact, sink.accepts, sink.calls, buf, sent, whole);
          return;
        }
        Regroup(old(sink.out), sent, redact(buf[..i.value + 1]));
        sent := ResumeStep(redact, sink.accepts, sink.calls, buf, i.value, sent, whole);
        ok := ForwardLine(i.value);
        if !ok {
          return;
        }
      }
    }

    /** Takes the line ending at i off the buffer and forwards it, redacted. */
    method ForwardLine(i: nat) returns (ok: bool)
      requires i < |buf|
      modifies this, sink
      ensures buf == old(buf)[i + 1..]
      ensures ok == sink.accepts(old(sink.calls)) && sink.calls == old(sink.calls) + 1
      ensures sink.out == old(sink.out) + if ok then redact(old(buf)[..i + 1]) else []
    {
      var line := buf[..i + 1];
      buf := buf[i + 1..];
      ok := sink.Write(redact(line));
    }

    /** Flushes an unterminated final line. */
    method Close() returns (ok: bool)
      modifies this, sink
      ensures buf == []
      ensures old(buf) == [] ==> ok && sink.out == old(sink.out) && sink.calls == old(sink.calls)
      ensures old(buf) != [] ==>
                && ok == sink.accepts(old(sink.calls)) && sink.calls == old(sink.calls) + 1
                && sink.out == old(sink.out) + if ok then redact(old(buf)) else []
    {
      if |buf| == 0 {
        return true;
      }
      var final := buf;
      buf := [];
      ok := sink.Write(redact(final));
    }
  }

  // ---- Chunking does not matter ----

  /** What the sink holds and the writer buffers after a sequence of writes: each is
      one Write, by its contract. */
  function Written(redact: bytes -> bytes, accepts: nat -> bool, chunks: seq<bytes>): Drained {
    if chunks == [] then Drained([], [], 0, true)
    else
      var so := Written(redact, accepts, chunks[..|chunks| - 1]);
      var d := Drain(redact, accepts, so.calls, so.buf + chunks[|chunks| - 1]);
      d.(out := so.out + d.out)
  }

  lemma {:induction false} ConcatLast(chunks: seq<bytes>)
    requires chunks != []
    ensures Concat(chunks) == Concat(chunks[..|chunks| - 1]) + chunks[|chunks| - 1]
  {
    if |chunks| > 1 {
      var rest := chunks[1..];
      ConcatLast(rest);
      assert rest[..|rest| - 1] == chunks[..|chunks| - 1][1..];
      Regroup(chunks[0], Concat(rest[..|rest| - 1]), rest[|rest| - 1]);
    } else {
      assert chunks[1..] == [] && chunks[..0] == [];
    }
  }

  /** After any sequence of writes to a sink that accepts them, every complete line of
      the input so far has been forwarded, redacted, and only the unterminated rest is
      buffered. */
  lemma {:induction false} CompleteLinesForwarded(redact: bytes -> bytes, accepts: nat -> bool, chunks: seq<bytes>)
    requires forall n :: accepts(n)
    ensures var d := Written(redact, accepts, chunks);
            d.out == RedactAll(redact, Lines(Concat(chunks))) && d.buf == Rest(Concat(chunks))
  {
    if chunks != [] {
      var front := chunks[..|chunks| - 1];
      var last := chunks[|chunks| - 1];
      var so := Written(redact, accepts, front);
      CompleteLinesForwarded(redact, accepts, front);
      ConcatLast(chunks);
      LinesOfAppend(Concat(front), last);
      DrainForwardsLines(redact, accepts, so.calls, so.buf + last);
      RedactAppend(redact, Lines(Concat(front)), Lines(Rest(Concat(front)) + last));
    }
  }

  /** The sink's bytes once the writer is closed, too. */
  function Closed(redact: bytes -> bytes, accepts: nat -> bool, chunks: seq<bytes>): bytes {
    var d := Written(redact, accepts, chunks);
    d.out + if d.buf != [] && accepts(d.calls) then redact(d.buf) else []
  }

  /** However the input is cut into writes, what has been forwarded by the close is the
      whole input redacted line by line; two cuts of the same input forward the same. */
  lemma ChunkingIndependent(redact: bytes -> bytes, accepts: nat -> bool, xs: seq<bytes>, ys: seq<bytes>)
    requires forall n :: accepts(n)
    ensures Closed(redact, accepts, xs) == WholeInput(redact, Concat(xs))
    ensures Concat(xs) == Concat(ys) ==> Closed(redact, accepts, xs) == Closed(redact, accepts, ys)
  {
    CompleteLinesForwarded(redact, accepts, xs);
    CompleteLinesForwarded(redact, accepts, ys);
  }
}
