/** `DiagnosticWriter`: cuts a stream of bytes that arrives in arbitrary chunks into the
    diagnostics that are handed to the host, one per line. */
module DiagnosticLines {
  import opened Base64
  import opened Lists

  type Bytestring = seq<Byte>

  const NEWLINE: Byte := 0x0A

  // ---- The stream, seen as a whole ----

  /** The text behind the last newline. */
  function Tail(s: Bytestring): Bytestring {
    if s == [] then []
    else if s[|s| - 1] == NEWLINE then []
    else Tail(s[..|s| - 1]) + [s[|s| - 1]]
  }

  /** The lines that end in a newline, without it, empty ones included. */
  function Ended(s: Bytestring): seq<Bytestring> {
    if s == [] then []
    else
      var before := s[..|s| - 1];
      if s[|s| - 1] == NEWLINE then Ended(before) + [Tail(before)] else Ended(before)
  }

  function NonEmpty(ls: seq<Bytestring>): seq<Bytestring> {
    if ls == [] then []
    else NonEmpty(ls[..|ls| - 1]) + if ls[|ls| - 1] == [] then [] else [ls[|ls| - 1]]
  }

  /** The non-empty newline-separated segments of a stream. */
  function Segments(s: Bytestring): seq<Bytestring> {
    NonEmpty(Ended(s) + [Tail(s)])
  }

  predicate SingleLine(s: Bytestring) {
    NEWLINE !in s
  }

  function Terminated(ls: seq<Bytestring>): Bytestring {
    if ls == [] then [] else Terminated(ls[..|ls| - 1]) + ls[|ls| - 1] + [NEWLINE]
  }

  /** `Ended` and `Tail` cut the stream at its newlines, and only there. */
  lemma {:induction false} CutIsExact(s: Bytestring)
    ensures Terminated(Ended(s)) + Tail(s) == s
    ensures SingleLine(Tail(s)) && forall i | 0 <= i < |Ended(s)| :: SingleLine(Ended(s)[i])
  {
    if s != [] {
      var before, b := s[..|s| - 1], s[|s| - 1];
      CutIsExact(before);
      assert s == before + [b];
      if b == NEWLINE {
        assert Ended(s)[..|Ended(before)|] == Ended(before);
      }
    }
  }

  lemma {:induction false} CutLast(s: Bytestring, b: Byte)
    ensures Ended(s + [b]) == if b == NEWLINE then Ended(s) + [Tail(s)] else Ended(s)
    ensures Tail(s + [b]) == if b == NEWLINE then [] else Tail(s) + [b]
  {
    assert (s + [b])[..|s|] == s;
  }

  lemma {:induction false} NonEmptyAppend(xs: seq<Bytestring>, ys: seq<Bytestring>)
    ensures NonEmpty(xs + ys) == NonEmpty(xs) + NonEmpty(ys)
  {
    if ys == [] {
      assert xs + ys == xs;
    } else {
      var n := |ys| - 1;
      assert (xs + ys)[..|xs + ys| - 1] == xs + ys[..n];
      NonEmptyAppend(xs, ys[..n]);
    }
  }

  lemma {:induction false} TailOfSingleLine(s: Bytestring)
    requires SingleLine(s)
    ensures Ended(s) == [] && Tail(s) == s
  {
    if s != [] {
      TailOfSingleLine(s[..|s| - 1]);
    }
  }

  /** Reading on from the unfinished rest is reading the whole stream. */
  lemma {:induction false} CutAppend(s: Bytestring, t: Bytestring)
    ensures Ended(s + t) == Ended(s) + Ended(Tail(s) + t)
    ensures Tail(s + t) == Tail(Tail(s) + t)
  {
    if t == [] {
      CutIsExact(s);
      TailOfSingleLine(Tail(s));
      assert s + t == s && Tail(s) + t == Tail(s);
    } else {
      var n := |t| - 1;
      CutAppend(s, t[..n]);
      assert (s + t)[..|s + t| - 1] == s + t[..n];
      assert (Tail(s) + t)[..|Tail(s) + t| - 1] == Tail(s) + t[..n];
    }
  }

  lemma {:induction false} CutSingle(s: Bytestring, line: Bytestring)
    requires SingleLine(line) && Tail(s) == []
    ensures Ended(s + line) == Ended(s) && Tail(s + line) == line
  {
    CutAppend(s, line);
    TailOfSingleLine(line);
    assert Tail(s) + line == line && Ended(s) + [] == Ended(s);
  }

  lemma {:induction false} CutLine(s: Bytestring, line: Bytestring)
    requires SingleLine(line) && Tail(s) == []
    ensures Ended(s + line + [NEWLINE]) == Ended(s) + [line] && Tail(s + line + [NEWLINE]) == []
  {
    CutSingle(s, line);
    CutLast(s + line, NEWLINE);
  }

  lemma {:induction false} CutTerminated(ls: seq<Bytestring>)
    requires forall i | 0 <= i < |ls| :: SingleLine(ls[i])
    ensures Ended(Terminated(ls)) == ls && Tail(Terminated(ls)) == []
  {
    if ls != [] {
      var before, last := ls[..|ls| - 1], ls[|ls| - 1];
      CutTerminated(before);
      CutLine(Terminated(before), last);
      assert before + [last] == ls;
    }
  }

  /** The cut is the only one: a stream has one reading as lines and an unfinished rest. */
  lemma {:induction false} CutIsUnique(ls: seq<Bytestring>, rest: Bytestring)
    requires SingleLine(rest) && forall i | 0 <= i < |ls| :: SingleLine(ls[i])
    ensures Ended(Terminated(ls) + rest) == ls && Tail(Terminated(ls) + rest) == rest
  {
    CutTerminated(ls);
    CutAppend(Terminated(ls), rest);
    TailOfSingleLine(rest);
    assert [] + rest == rest;
  }

  /** The first newline ends the first line. */
  lemma {:induction false} FirstLine(line: Bytestring, rest: Bytestring)
    requires SingleLine(line)
    ensures Ended(line + [NEWLINE] + rest) == [line] + Ended(rest)
    ensures Tail(line + [NEWLINE] + rest) == Tail(rest)
  {
    var start := line + [NEWLINE];
    TailOfSingleLine(line);
    assert start[..|start| - 1] == line;
    CutAppend(start, rest);
    assert Tail(start) + rest == rest;
  }

  // ---- The writer ----

  /** The diagnostics handed to the host, in order. */
  class Host {
    var received: seq<Bytestring>

    constructor ()
      ensures received == []
    {
      received := [];
    }

    method VerusDiagnostic(line: Bytestring)
      modifies this
      ensures received == old(received) + [line]
    {
      received := received + [line];
    }
  }

  function Position(s: Bytestring): (i: nat)
    requires NEWLINE in s
    ensures i < |s| && s[i] == NEWLINE && SingleLine(s[..i])
  {
    if s[0] == NEWLINE then 0
    else
      assert s == [s[0]] + s[1..];
      var i := Position(s[1..]) + 1;
      assert s[..i] == [s[0]] + s[1..][..i - 1];
      i
  }

  lemma {:induction false} CutFirstLine(s: Bytestring, idx: nat)
    requires idx < |s| && s[idx] == NEWLINE && SingleLine(s[..idx])
    ensures Ended(s) == [s[..idx]] + Ended(s[idx + 1..]) && Tail(s) == Tail(s[idx + 1..])
  {
    assert s == s[..idx] + [NEWLINE] + s[idx + 1..];
    FirstLine(s[..idx], s[idx + 1..]);
  }

  /** What one more finished line adds to what the host has. */
  lemma {:induction false} NonEmptyOne(ls: seq<Bytestring>, line: Bytestring)
    ensures NonEmpty(ls + [line]) == NonEmpty(ls) + if line == [] then [] else [line]
  {
    assert (ls + [line])[..|ls|] == ls;
  }

  class DiagnosticWriter {
    var pending: Bytestring
    const host: Host

    /** The bytes written so far, and what the host had before the first of them. */
    ghost var written: Bytestring
    ghost const before: seq<Bytestring>

    /** After every call: what is pending is the unfinished last line, and every finished
        line has been handed on. */
    ghost predicate Valid()
      reads this, host
    {
      && pending == Tail(written)
      && host.received == before + NonEmpty(Ended(written))
    }

    constructor (host: Host)
      ensures Valid() && written == [] && this.host == host && before == host.received
    {
      this.host, before := host, host.received;
      pending, written := [], [];
    }

    method EmitCompleteLines()
      modifies this`pending, host
      ensures pending == Tail(old(pending))
      ensures host.received == old(host.received) + NonEmpty(Ended(old(pending)))
    {
      ghost var done: seq<Bytestring> := [];
      while NEWLINE in pending
        invariant Ended(old(pending)) == done + Ended(pending)
        invariant Tail(old(pending)) == Tail(pending)
        invariant host.received == old(host.received) + NonEmpty(done)
        decreases |pending|
      {
        var idx := Position(pending);
        var line := pending[..idx];
        if line != [] {
          host.VerusDiagnostic(line);
        }
        CutFirstLine(pending, idx);
        NonEmptyOne(done, line);
        Assoc(done, [line], Ended(pending[idx + 1..]));
        done := done + [line];
        pending := pending[idx + 1..];
      }
      TailOfSingleLine(pending);
      assert done + [] == done;
    }

    method Write(buf: Bytestring) returns (n: nat)
      requires Valid()
      modifies this, host
      ensures Valid() && written == old(written) + buf && n == |buf|
    {
      pending := pending + buf;
      EmitCompleteLines();
      CutAppend(written, buf);
      NonEmptyAppend(Ended(written), Ended(Tail(written) + buf));
      Assoc(before, NonEmpty(Ended(written)), NonEmpty(Ended(Tail(written) + buf)));
      written := written + buf;
      n := |buf|;
    }

    method Flush()
      requires Valid()
      modifies this`pending, host
      ensures Valid() && pending == old(pending) && host.received == old(host.received)
    {
      CutIsExact(written);
      TailOfSingleLine(pending);
      EmitCompleteLines();
    }

    method Drop()
      requires Valid()
      modifies this`pending, host
      ensures pending == [] && host.received == before + Segments(written)
    {
      NonEmptyOne(Ended(written), Tail(written));
      if pending != [] {
        host.VerusDiagnostic(pending);
        pending := [];
      }
    }
  }

  // ---- Any run of writes and flushes ----

  datatype Call = Write(buf: Bytestring) | Flush

  function Concat(calls: seq<Call>): Bytestring {
    if calls == [] then []
    else
      Concat(calls[..|calls| - 1])
      + match calls[|calls| - 1]
        case Write(buf) => buf
        case Flush => []
  }

  lemma {:induction false} ConcatIsSpelled(calls: seq<Call>, buf: Bytestring)
    ensures Concat([]) == [] && Concat(calls + [Write(buf)]) == Concat(calls) + buf && Concat(calls + [Flush]) == Concat(calls)
  {
    assert (calls + [Write(buf)])[..|calls|] == calls && (calls + [Flush])[..|calls|] == calls;
    assert Concat(calls) + [] == Concat(calls);
  }

  /** However a stream is cut into writes, and whatever flushes come between, the host
      receives its non-empty segments, in order. */
  method Stream(calls: seq<Call>) returns (received: seq<Bytestring>)
    ensures received == Segments(Concat(calls))
  {
    var host := new Host();
    var writer := new DiagnosticWriter(host);
    for i := 0 to |calls|
      invariant writer.Valid() && writer.written == Concat(calls[..i]) && writer.host == host && writer.before == []
      invariant fresh(writer) && fresh(host)
    {
      assert calls[..i + 1][..i] == calls[..i];
      match calls[i] {
        case Write(buf) => var _ := writer.Write(buf);
        case Flush => writer.Flush();
      }
    }
    assert calls[..|calls|] == calls;
    writer.Drop();
    received := host.received;
  }

  /** What is pending between calls never holds a newline, and all finished lines are
      out: together they are the whole stream. */
  lemma {:induction false} NothingIsWithheld(s: Bytestring)
    ensures SingleLine(Tail(s)) && Terminated(Ended(s)) + Tail(s) == s
    ensures Segments(s) == NonEmpty(Ended(s)) + NonEmpty([Tail(s)])
  {
    CutIsExact(s);
    NonEmptyAppend(Ended(s), [Tail(s)]);
  }

  // ---- Spelled out ----

  lemma {:induction false} LineEndIsNewline()
    ensures NEWLINE as int == '\n' as int
  {
  }

  /** No empty line is handed on, and a list without one is handed on as it is. */
  lemma {:induction false} NoEmptyIsHandedOn(ls: seq<Bytestring>)
    ensures forall i | 0 <= i < |NonEmpty(ls)| :: NonEmpty(ls)[i] != []
    ensures (forall i | 0 <= i < |ls| :: ls[i] != []) ==> NonEmpty(ls) == ls
  {
    if ls != [] {
      NoEmptyIsHandedOn(ls[..|ls| - 1]);
    }
  }

  /** An empty line makes no difference. */
  lemma {:induction false} EmptyIsLeftOut(ls: seq<Bytestring>, more: seq<Bytestring>)
    ensures NonEmpty(ls + [[]] + more) == NonEmpty(ls + more)
  {
    NonEmptyOne(ls, []);
    NonEmptyAppend(ls + [[]], more);
    NonEmptyAppend(ls, more);
    assert NonEmpty(ls) + [] == NonEmpty(ls);
  }
}
