/** Text as the browser stores it: a sequence of UTF-16 code units, so that a position in a
    text is a character offset as the page computes it. */
module CodeUnits {
  import opened Lists

  newtype CodeUnit = u: int | 0 <= u < 0x1_0000

  type Text = seq<CodeUnit>

  const NEWLINE: CodeUnit := 0x0A
  const RETURN: CodeUnit := 0x0D
  const SPACE: CodeUnit := 0x20
  const SEMICOLON: CodeUnit := 0x3B
  const LESS: CodeUnit := 0x3C
  const GREATER: CodeUnit := 0x3E
  const LETTER_V: CodeUnit := 0x76

  /** A text of ASCII characters, spelled out. */
  function Ascii(s: string): (t: Text)
    requires forall i | 0 <= i < |s| :: s[i] as int < 0x80
    ensures |t| == |s| && forall i | 0 <= i < |s| :: t[i] as int == s[i] as int
  {
    seq(|s|, i requires 0 <= i < |s| => s[i] as int as CodeUnit)
  }

  lemma {:induction false} UnitsAreSpelled()
    ensures [NEWLINE] == Ascii("\n") && [RETURN] == Ascii("\r") && [SPACE] == Ascii(" ")
    ensures [SEMICOLON, LESS, GREATER, LETTER_V] == Ascii(";<>v")
  {
  }

  predicate SingleLine(l: Text) {
    forall i | 0 <= i < |l| :: l[i] != NEWLINE
  }

  predicate SingleLines(ls: seq<Text>) {
    forall i | 0 <= i < |ls| :: SingleLine(ls[i])
  }

  /** JavaScript's `text.split('\n')`. */
  function Split(s: Text): (ls: seq<Text>)
    ensures |ls| >= 1 && SingleLines(ls)
  {
    if s == [] then [[]]
    else
      var tail := Split(s[1..]);
      if s[0] == NEWLINE then [[]] + tail
      else [[s[0]] + tail[0]] + tail[1..]
  }

  /** The lines with a newline between each two. */
  function Join(ls: seq<Text>): Text {
    if |ls| == 0 then []
    else if |ls| == 1 then ls[0]
    else ls[0] + [NEWLINE] + Join(ls[1..])
  }

  /** The lines with a newline after each one, as the Rust side writes them. */
  function Terminate(ls: seq<Text>): Text {
    if ls == [] then [] else ls[0] + [NEWLINE] + Terminate(ls[1..])
  }

  lemma {:induction false} SplitAtNewline(l: Text, s: Text)
    requires SingleLine(l)
    ensures Split(l + [NEWLINE] + s) == [l] + Split(s)
  {
    var t := l + [NEWLINE] + s;
    if l == [] {
      assert t[1..] == s;
    } else {
      assert t[1..] == l[1..] + [NEWLINE] + s;
      SplitAtNewline(l[1..], s);
      assert t[0] == l[0] && l == [l[0]] + l[1..];
    }
  }

  lemma {:induction false} SplitSingleLine(l: Text)
    requires SingleLine(l)
    ensures Split(l) == [l]
  {
    if l != [] {
      SplitSingleLine(l[1..]);
      assert l == [l[0]] + l[1..];
    }
  }

  lemma {:induction false} SplitJoin(ls: seq<Text>)
    requires ls != [] && SingleLines(ls)
    ensures Split(Join(ls)) == ls
  {
    SplitSingleLine(ls[0]);
    if |ls| > 1 {
      SplitAtNewline(ls[0], Join(ls[1..]));
      SplitJoin(ls[1..]);
    }
  }

  lemma {:induction false} JoinSplit(s: Text)
    ensures Join(Split(s)) == s
  {
    if s != [] {
      JoinSplit(s[1..]);
      var tail := Split(s[1..]);
      if s[0] == NEWLINE {
        assert Split(s)[1..] == tail;
      } else {
        assert Split(s)[1..] == tail[1..];
      }
    }
  }

  lemma {:induction false} TerminateConcat(a: seq<Text>, b: seq<Text>)
    ensures Terminate(a + b) == Terminate(a) + Terminate(b)
  {
    if a == [] {
      assert a + b == b;
    } else {
      TerminateConcat(a[1..], b);
      assert (a + b)[1..] == a[1..] + b;
      Assoc(a[0] + [NEWLINE], Terminate(a[1..]), Terminate(b));
    }
  }

  lemma {:induction false} TerminateIsJoin(ls: seq<Text>)
    requires ls != []
    ensures Terminate(ls) == Join(ls) + [NEWLINE]
  {
    if |ls| > 1 {
      TerminateIsJoin(ls[1..]);
    }
  }

  /** Rust's `char::is_whitespace`; every such character is a single code unit. */
  predicate IsWhitespace(c: CodeUnit) {
    || 0x09 <= c <= 0x0D || c == SPACE || c == 0x85 || c == 0xA0 || c == 0x1680
    || 0x2000 <= c <= 0x200A || c == 0x2028 || c == 0x2029 || c == 0x202F || c == 0x205F || c == 0x3000
  }

  /** The part `emit_section` keeps of a body: everything up to the trailing whitespace. */
  function TrimEnd(s: Text): Text {
    if s != [] && IsWhitespace(s[|s| - 1]) then TrimEnd(s[..|s| - 1]) else s
  }

  /** A body whose last line ends in a printable character loses only its final newline. */
  lemma {:induction false} TrimTerminated(ls: seq<Text>)
    requires ls != [] && ls[|ls| - 1] != []
    requires !IsWhitespace(ls[|ls| - 1][|ls[|ls| - 1]| - 1])
    ensures TrimEnd(Terminate(ls)) == Join(ls)
  {
    TerminateIsJoin(ls);
    JoinLast(ls);
    var t := Terminate(ls);
    assert t[..|t| - 1] == Join(ls);
  }

  lemma {:induction false} JoinLast(ls: seq<Text>)
    requires ls != [] && ls[|ls| - 1] != []
    ensures var last := ls[|ls| - 1];
            Join(ls) != [] && Join(ls)[|Join(ls)| - 1] == last[|last| - 1]
  {
    if |ls| > 1 {
      var rest := ls[1..];
      JoinLast(rest);
      assert rest[|rest| - 1] == ls[|ls| - 1];
      var start, s := ls[0] + [NEWLINE], Join(rest);
      assert Join(ls) == start + s;
      assert (start + s)[|start| + (|s| - 1)] == s[|s| - 1];
    }
  }

  /** Only white space is trimmed, and all of it that is at the end. */
  lemma {:induction false} TrimEndIsExact(s: Text)
    ensures var t := TrimEnd(s);
            && t <= s && (t == [] || !IsWhitespace(t[|t| - 1]))
            && forall i | |t| <= i < |s| :: IsWhitespace(s[i])
  {
    if s != [] && IsWhitespace(s[|s| - 1]) { TrimEndIsExact(s[..|s| - 1]); }
  }

  lemma {:induction false} WhitespaceIsSpelled(c: CodeUnit)
    requires (c as int) < 0x80
    ensures IsWhitespace(c) <==> c in Ascii(" \t\n\r") || c as int in {11, 12}
  {
    var spelled := Ascii(" \t\n\r");
    assert spelled == [0x20, 0x09, 0x0A, 0x0D];
  }
}
