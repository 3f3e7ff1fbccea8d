/** From marked lines on the Rust side to the browser's view: `emit_section` trims the
    body, and the scanner recovers the forest the lines were written from. */
module Emission {
  import opened CodeUnits
  import opened Sections

  /** What the browser holds after a body went through `emit_section` and the scanner. */
  function Shown(body: Text): View {
    Meaning(ParseAll(Split(TrimEnd(body))))
  }

  /** The last thing at the top level is a section, so nothing but a newline is trimmed. */
  predicate EndsClosed(f: Forest) {
    match f
    case Nil => true
    case Line(_, rest) => !rest.Nil? && EndsClosed(rest)
    case Section(_, closed, _, rest) => closed && EndsClosed(rest)
  }

  lemma {:induction false} EndsClosedAppend(f: Forest, g: Forest)
    requires EndsClosed(f) && EndsClosed(g)
    ensures EndsClosed(Append(f, g)) && (Append(f, g).Nil? <==> f.Nil? && g.Nil?)
  {
    match f
    case Nil =>
    case Line(_, rest) => EndsClosedAppend(rest, g);
    case Section(_, _, _, rest) => EndsClosedAppend(rest, g);
  }

  /** Lines in front of a section leave it last. */
  lemma {:induction false} EndsClosedAfterLines(ls: seq<Text>, g: Forest)
    requires EndsClosed(g) && !g.Nil?
    ensures EndsClosed(Append(FromLines(ls), g)) && !Append(FromLines(ls), g).Nil?
  {
    if ls != [] { EndsClosedAfterLines(ls[1..], g); }
  }

  lemma {:induction false} EndsWithClose(f: Forest)
    requires EndsClosed(f) && !f.Nil?
    ensures Marked(f) != [] && Marked(f)[|Marked(f)| - 1] == CLOSE
  {
    match f
    case Line(_, rest) => EndsWithClose(rest);
    case Section(_, _, _, rest) =>
      if !rest.Nil? {
        EndsWithClose(rest);
      }
  }

  /** Writing a balanced forest, trimming it and scanning it shows its meaning, and the
      text that is scanned leaves no section open. */
  lemma {:induction false} WrittenForestIsShown(f: Forest)
    requires Balanced(f) && LineByLine(f) && EndsClosed(f)
    ensures Shown(Terminate(Marked(f))) == Meaning(f)
    ensures Balanced(ParseAll(Split(TrimEnd(Terminate(Marked(f))))))
  {
    if f.Nil? {
      assert Split([]) == [[]] && ParseAll([[]]) == Line([], Nil);
    } else {
      EndsWithClose(f);
      TrimTerminated(Marked(f));
      MarkedSingleLines(f);
      SplitJoin(Marked(f));
      ParseAllMarked(f);
    }
  }
}
