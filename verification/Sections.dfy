/** Sections of a marked text as a tree: the recursive meaning that the one-pass
    scanner and the Rust producers are measured against. */
module Sections {
  import opened Lists
  import opened CodeUnits

  // ---- Marker lines, as the browser reads them ----

  predicate IsOpen(l: Text) {
    && |l| >= 3 && l[0] == SEMICOLON && l[1] == SEMICOLON
    && (l[2] == LETTER_V || l[2] == GREATER)
    && (|l| == 3 || l[3] == SPACE)
  }

  predicate IsClose(l: Text) {
    && |l| >= 3 && l[0] == SEMICOLON && l[1] == SEMICOLON && l[2] == LESS
    && (|l| == 3 || l[3] == SPACE)
  }

  predicate IsPlain(l: Text) {
    !IsOpen(l) && !IsClose(l)
  }

  function StripMarker(l: Text): Text {
    [SEMICOLON, SEMICOLON] + if |l| < 3 then [] else l[3..]
  }

  predicate AutoFolds(banner: Text) {
    |banner| > 2 && banner[2] == GREATER
  }

  const CLOSE: Text := [SEMICOLON, SEMICOLON, LESS]

  // ---- Forests ----

  /** A list of lines and sections, in order. A section that the text never closes
      has `closed == false`. */
  datatype Forest =
    | Nil
    | Line(text: Text, rest: Forest)
    | Section(banner: Text, closed: bool, body: Forest, rest: Forest)

  /** The marked lines of a forest. */
  function Marked(f: Forest): seq<Text> {
    match f
    case Nil => []
    case Line(l, rest) => [l] + Marked(rest)
    case Section(b, closed, body, rest) =>
      [b] + Marked(body) + (if closed then [CLOSE] else []) + Marked(rest)
  }

  /** Every section is closed, banners open a section and lines are no markers. */
  predicate Balanced(f: Forest) {
    match f
    case Nil => true
    case Line(l, rest) => IsPlain(l) && Balanced(rest)
    case Section(b, closed, body, rest) => IsOpen(b) && closed && Balanced(body) && Balanced(rest)
  }

  /** No banner and no line contains a newline. */
  predicate LineByLine(f: Forest) {
    match f
    case Nil => true
    case Line(l, rest) => SingleLine(l) && LineByLine(rest)
    case Section(b, _, body, rest) => SingleLine(b) && LineByLine(body) && LineByLine(rest)
  }

  function Append(f: Forest, g: Forest): Forest {
    match f
    case Nil => g
    case Line(l, rest) => Line(l, Append(rest, g))
    case Section(b, c, body, rest) => Section(b, c, body, Append(rest, g))
  }

  function FromLines(ls: seq<Text>): Forest {
    if ls == [] then Nil else Line(ls[0], FromLines(ls[1..]))
  }

  /** The content lines, in order: everything that is neither banner nor close. */
  function Contents(f: Forest): seq<Text> {
    match f
    case Nil => []
    case Line(l, rest) => [l] + Contents(rest)
    case Section(_, _, body, rest) => Contents(body) + Contents(rest)
  }

  // ---- Parsing any list of lines ----

  datatype Parsed = Parsed(forest: Forest, rest: seq<Text>, closed: bool)

  /** The forest that starts at `ls`, up to the close of the enclosing section when
      there is one (`nested`). A close with nothing to close is skipped. */
  function Parse(ls: seq<Text>, nested: bool): (p: Parsed)
    ensures |p.rest| <= |ls|
    ensures p.closed ==> nested && |p.rest| < |ls|
    ensures !p.closed ==> p.rest == []
    decreases |ls|
  {
    if ls == [] then Parsed(Nil, [], false)
    else if IsOpen(ls[0]) then
      var inner := Parse(ls[1..], true);
      var outer := Parse(inner.rest, nested);
      Parsed(Section(ls[0], inner.closed, inner.forest, outer.forest), outer.rest, outer.closed)
    else if IsClose(ls[0]) then
      if nested then Parsed(Nil, ls[1..], true) else Parse(ls[1..], false)
    else
      var tail := Parse(ls[1..], nested);
      Parsed(Line(ls[0], tail.forest), tail.rest, tail.closed)
  }

  function ParseAll(ls: seq<Text>): Forest {
    Parse(ls, false).forest
  }

  // ---- Pruning ----

  /** Bottom-up, drop every closed section of which nothing is left. */
  function Prune(f: Forest): Forest {
    match f
    case Nil => Nil
    case Line(l, rest) => Line(l, Prune(rest))
    case Section(b, closed, body, rest) =>
      var kept := Prune(body);
      if closed && kept.Nil? then Prune(rest) else Section(b, closed, kept, Prune(rest))
  }

  predicate HasLine(f: Forest) {
    match f
    case Nil => false
    case Line(_, _) => true
    case Section(_, _, body, rest) => HasLine(body) || HasLine(rest)
  }

  /** Top-down, drop every section that holds no content line at any depth. */
  function DropLineless(f: Forest): Forest {
    match f
    case Nil => Nil
    case Line(l, rest) => Line(l, DropLineless(rest))
    case Section(b, closed, body, rest) =>
      if HasLine(body) then Section(b, closed, DropLineless(body), DropLineless(rest))
      else DropLineless(rest)
  }

  // ---- Printing ----

  /** The lines to show: banners lose their marker character, closes vanish. */
  function Printed(f: Forest): seq<Text> {
    match f
    case Nil => []
    case Line(l, rest) => [l] + Printed(rest)
    case Section(b, _, body, rest) => [StripMarker(b)] + Printed(body) + Printed(rest)
  }

  function AppendLine(s: Text, l: Text): Text {
    if |s| > 0 then s + [NEWLINE] + l else l
  }

  /** The text `s` continued by the printed forest. */
  function Render(f: Forest, s: Text): Text {
    match f
    case Nil => s
    case Line(l, rest) => Render(rest, AppendLine(s, l))
    case Section(b, _, body, rest) => Render(rest, Render(body, AppendLine(s, StripMarker(b))))
  }

  datatype Range = Range(from: nat, to: nat)

  datatype Fold = Fold(span: Range, auto: bool)

  /** One fold for each section with something under its banner, from the end of the
      banner to the end of the section; inner sections before outer ones. */
  function Folds(f: Forest, s: Text): seq<Fold> {
    match f
    case Nil => []
    case Line(l, rest) => Folds(rest, AppendLine(s, l))
    case Section(b, _, body, rest) =>
      var top := AppendLine(s, StripMarker(b));
      var end := Render(body, top);
      Folds(body, top)
      + (if body.Nil? then [] else [Fold(Range(|top|, |end|), AutoFolds(b))])
      + Folds(rest, end)
  }

  function Spans(fs: seq<Fold>): (rs: seq<Range>)
    ensures |rs| == |fs| && forall i | 0 <= i < |fs| :: rs[i] == fs[i].span
  {
    seq(|fs|, i requires 0 <= i < |fs| => fs[i].span)
  }

  function AutoSpans(fs: seq<Fold>): seq<Range> {
    if fs == [] then []
    else
      var last := fs[|fs| - 1];
      AutoSpans(fs[..|fs| - 1]) + if last.auto then [last.span] else []
  }

  datatype View = View(body: Text, foldable: seq<Range>, autoFolded: seq<Range>)

  /** What the browser shows for a forest: prune it, print it, fold its sections. */
  function Meaning(f: Forest): View {
    var kept := Prune(f);
    View(Render(kept, []), Spans(Folds(kept, [])), AutoSpans(Folds(kept, [])))
  }

  // ---- Parsing inverts marking ----

  /** A balanced forest is what its own marked lines parse to, whatever follows. */
  lemma {:induction false} ParseMarked(f: Forest, tail: seq<Text>, nested: bool)
    requires Balanced(f)
    ensures var p := Parse(tail, nested);
            Parse(Marked(f) + tail, nested) == Parsed(Append(f, p.forest), p.rest, p.closed)
    decreases f
  {
    var ls := Marked(f) + tail;
    match f
    case Nil =>
      assert ls == tail;
    case Line(l, rest) =>
      assert ls[1..] == Marked(rest) + tail;
      ParseMarked(rest, tail, nested);
    case Section(b, _, body, rest) =>
      var after := Marked(rest) + tail;
      Assoc([b] + Marked(body) + [CLOSE], Marked(rest), tail);
      assert ls == [b] + (Marked(body) + ([CLOSE] + after));
      ParseMarked(body, [CLOSE] + after, true);
      assert ([CLOSE] + after)[1..] == after;
      AppendNil(body);
      ParseMarked(rest, tail, nested);
  }

  lemma {:induction false} AppendNil(f: Forest)
    ensures Append(f, Nil) == f
  {
    match f
    case Nil =>
    case Line(_, rest) => AppendNil(rest);
    case Section(_, _, _, rest) => AppendNil(rest);
  }

  lemma {:induction false} ParseAllMarked(f: Forest)
    requires Balanced(f)
    ensures ParseAll(Marked(f)) == f
  {
    ParseMarked(f, [], false);
    AppendNil(f);
    assert Marked(f) + [] == Marked(f);
  }

  lemma {:induction false} MarkedAppend(f: Forest, g: Forest)
    ensures Marked(Append(f, g)) == Marked(f) + Marked(g)
  {
    match f
    case Nil =>
    case Line(l, rest) =>
      MarkedAppend(rest, g);
      Assoc([l], Marked(rest), Marked(g));
    case Section(b, closed, body, rest) =>
      MarkedAppend(rest, g);
      Assoc([b] + Marked(body) + (if closed then [CLOSE] else []), Marked(rest), Marked(g));
  }

  lemma {:induction false} MarkedFromLines(ls: seq<Text>)
    ensures Marked(FromLines(ls)) == ls
  {
    if ls != [] { MarkedFromLines(ls[1..]); }
  }

  lemma {:induction false} BalancedAppend(f: Forest, g: Forest)
    requires Balanced(f) && LineByLine(f) && Balanced(g) && LineByLine(g)
    ensures Balanced(Append(f, g)) && LineByLine(Append(f, g))
  {
    match f
    case Nil =>
    case Line(_, rest) => BalancedAppend(rest, g);
    case Section(_, _, _, rest) => BalancedAppend(rest, g);
  }

  lemma {:induction false} PruneAppend(f: Forest, g: Forest)
    ensures Prune(Append(f, g)) == Append(Prune(f), Prune(g))
  {
    match f
    case Nil =>
    case Line(_, rest) => PruneAppend(rest, g);
    case Section(_, _, _, rest) => PruneAppend(rest, g);
  }

  lemma {:induction false} MarkedSingleLines(f: Forest)
    requires LineByLine(f)
    ensures SingleLines(Marked(f))
  {
    match f
    case Nil =>
    case Line(_, rest) => MarkedSingleLines(rest);
    case Section(_, _, body, rest) =>
      MarkedSingleLines(body);
      MarkedSingleLines(rest);
  }

  lemma {:induction false} ParsedLineByLine(ls: seq<Text>, nested: bool)
    requires SingleLines(ls)
    ensures LineByLine(Parse(ls, nested).forest) && SingleLines(Parse(ls, nested).rest)
    decreases |ls|
  {
    if ls != [] {
      if IsOpen(ls[0]) {
        ParsedLineByLine(ls[1..], true);
        ParsedLineByLine(Parse(ls[1..], true).rest, nested);
      } else {
        ParsedLineByLine(ls[1..], nested);
      }
    }
  }

  // ---- What pruning drops ----

  /** On a balanced text, bottom-up pruning drops exactly the sections without a line. */
  lemma {:induction false} PruneDropsLineless(f: Forest)
    requires Balanced(f)
    ensures Prune(f) == DropLineless(f)
    ensures Prune(f).Nil? <==> !HasLine(f)
  {
    match f
    case Nil =>
    case Line(_, rest) => PruneDropsLineless(rest);
    case Section(_, _, body, rest) =>
      PruneDropsLineless(body);
      PruneDropsLineless(rest);
  }

  lemma {:induction false} PruneKeepsShape(f: Forest)
    ensures Contents(Prune(f)) == Contents(f)
    ensures LineByLine(f) ==> LineByLine(Prune(f))
    ensures Balanced(f) ==> Balanced(Prune(f))
  {
    match f
    case Nil =>
    case Line(_, rest) => PruneKeepsShape(rest);
    case Section(_, _, body, rest) =>
      PruneKeepsShape(body);
      PruneKeepsShape(rest);
  }

  /** Every section of the forest holds a content line at some depth. */
  predicate AllSectionsHaveLine(f: Forest) {
    match f
    case Nil => true
    case Line(_, rest) => AllSectionsHaveLine(rest)
    case Section(_, _, body, rest) => HasLine(body) && AllSectionsHaveLine(body) && AllSectionsHaveLine(rest)
  }

  lemma {:induction false} PrunedSectionsHaveLine(f: Forest)
    requires Balanced(f)
    ensures AllSectionsHaveLine(Prune(f))
  {
    match f
    case Nil =>
    case Line(_, rest) => PrunedSectionsHaveLine(rest);
    case Section(_, _, body, rest) =>
      PrunedSectionsHaveLine(body);
      PrunedSectionsHaveLine(rest);
      PruneDropsLineless(body);
      PruneKeepsShape(body);
      PruneDropsLineless(Prune(body));
      HasLineMeansContents(body);
      HasLineMeansContents(Prune(body));
  }

  lemma {:induction false} HasLineMeansContents(f: Forest)
    ensures HasLine(f) <==> Contents(f) != []
  {
    match f
    case Nil =>
    case Line(_, rest) =>
    case Section(_, _, body, rest) =>
      HasLineMeansContents(body);
      HasLineMeansContents(rest);
  }

  // ---- What the parser does to any lines ----

  /** Balanced but for the sections that are open at the end, one inside the other. */
  predicate OpenEnded(f: Forest) {
    match f
    case Nil => true
    case Line(l, rest) => IsPlain(l) && OpenEnded(rest)
    case Section(b, closed, body, rest) =>
      IsOpen(b) && if closed then Balanced(body) && OpenEnded(rest) else OpenEnded(body) && rest.Nil?
  }

  /** The parser reads such a forest off its marked lines. */
  lemma {:induction false} ParseOpenEnded(f: Forest, nested: bool)
    requires OpenEnded(f)
    ensures Parse(Marked(f), nested) == Parsed(f, [], false)
    decreases f
  {
    match f
    case Nil =>
    case Line(l, rest) =>
      ParseOpenEnded(rest, nested);
      assert ([l] + Marked(rest))[1..] == Marked(rest);
    case Section(b, closed, body, rest) =>
      if closed {
        var after := [CLOSE] + Marked(rest);
        SectionTail(b, Marked(body), Marked(rest));
        ParseMarked(body, after, true);
        AppendNil(body);
        assert after[1..] == Marked(rest);
        ParseOpenEnded(rest, nested);
      } else {
        OpenTail(b, Marked(body));
        ParseOpenEnded(body, true);
      }
  }

  lemma {:induction false} SectionTail(b: Text, body: seq<Text>, rest: seq<Text>)
    ensures [b] + body + [CLOSE] + rest == [b] + (body + ([CLOSE] + rest))
    ensures ([b] + (body + ([CLOSE] + rest)))[1..] == body + ([CLOSE] + rest)
  {
    Assoc4([b], body, [CLOSE], rest);
  }

  lemma {:induction false} OpenTail(b: Text, body: seq<Text>)
    ensures [b] + body + [] + [] == [b] + body && ([b] + body)[1..] == body
  {
  }

  /** The lines without the closes that close nothing, and with every other close bare. */
  function Reduced(ls: seq<Text>, depth: nat): seq<Text> {
    if ls == [] then []
    else if IsOpen(ls[0]) then [ls[0]] + Reduced(ls[1..], depth + 1)
    else if IsClose(ls[0]) then
      if depth == 0 then Reduced(ls[1..], 0) else [CLOSE] + Reduced(ls[1..], depth - 1)
    else [ls[0]] + Reduced(ls[1..], depth)
  }

  lemma {:induction false} ParseReads(ls: seq<Text>, depth: nat)
    ensures var p := Parse(ls, depth > 0);
            && (if p.closed then Balanced(p.forest) else OpenEnded(p.forest))
            && Reduced(ls, depth) == Marked(p.forest) + if p.closed then [CLOSE] + Reduced(p.rest, depth - 1) else []
    decreases |ls|
  {
    if ls != [] {
      if IsOpen(ls[0]) {
        var inner := Parse(ls[1..], true);
        var outer := Parse(inner.rest, depth > 0);
        ParseReads(ls[1..], depth + 1);
        ParseReads(inner.rest, depth);
        ReadSection(ls, inner, outer, depth);
      } else if IsClose(ls[0]) {
        if depth == 0 { ParseReads(ls[1..], 0); }
      } else {
        var p := Parse(ls[1..], depth > 0);
        ParseReads(ls[1..], depth);
        Assoc([ls[0]], Marked(p.forest), if p.closed then [CLOSE] + Reduced(p.rest, depth - 1) else []);
      }
    }
  }

  lemma {:induction false} ReadSection(ls: seq<Text>, inner: Parsed, outer: Parsed, depth: nat)
    requires ls != [] && IsOpen(ls[0])
    requires Reduced(ls[1..], depth + 1) == Marked(inner.forest) + if inner.closed then [CLOSE] + Reduced(inner.rest, depth) else []
    requires outer.closed ==> depth > 0
    requires Reduced(inner.rest, depth) == Marked(outer.forest) + if outer.closed then [CLOSE] + Reduced(outer.rest, depth - 1) else []
    requires !inner.closed ==> outer == Parsed(Nil, [], false)
    ensures Reduced(ls, depth) == Marked(Section(ls[0], inner.closed, inner.forest, outer.forest))
                                  + if outer.closed then [CLOSE] + Reduced(outer.rest, depth - 1) else []
  {
    var tail := if outer.closed then [CLOSE] + Reduced(outer.rest, depth - 1) else [];
    if inner.closed {
      ReadClosed(ls[0], Marked(inner.forest), Marked(outer.forest), tail);
    } else {
      OpenTail(ls[0], Marked(inner.forest));
      assert Marked(inner.forest) + [] == Marked(inner.forest);
    }
  }

  lemma {:induction false} ReadClosed(b: Text, body: seq<Text>, rest: seq<Text>, tail: seq<Text>)
    ensures [b] + (body + ([CLOSE] + (rest + tail))) == [b] + body + [CLOSE] + rest + tail
  {
    Assoc4([b], body, [CLOSE], rest + tail);
    Assoc([b] + body + [CLOSE], rest, tail);
  }

  /** Any lines parse to the forest that is closed but for the sections open at the end and
      that reads as those lines, less the closes that close nothing. */
  lemma {:induction false} ParseIsExact(ls: seq<Text>)
    ensures OpenEnded(ParseAll(ls)) && Marked(ParseAll(ls)) == Reduced(ls, 0)
    ensures forall f | OpenEnded(f) && Marked(f) == Reduced(ls, 0) :: f == ParseAll(ls)
  {
    ParseReads(ls, 0);
    assert Marked(ParseAll(ls)) + [] == Marked(ParseAll(ls));
    forall f | OpenEnded(f) && Marked(f) == Reduced(ls, 0) ensures f == ParseAll(ls) {
      ParseOpenEnded(f, false);
      ParseOpenEnded(ParseAll(ls), false);
    }
  }

  /** Whether a forest has a content line, or a section that is never closed. */
  predicate HasContent(f: Forest) {
    match f
    case Nil => false
    case Line(_, _) => true
    case Section(_, closed, body, rest) => !closed || HasContent(body) || HasContent(rest)
  }

  /** Top-down, drop every closed section without content. */
  function DropEmpty(f: Forest): Forest {
    match f
    case Nil => Nil
    case Line(l, rest) => Line(l, DropEmpty(rest))
    case Section(b, closed, body, rest) =>
      if closed && !HasContent(body) then DropEmpty(rest) else Section(b, closed, DropEmpty(body), DropEmpty(rest))
  }

  /** On every text, balanced or not, bottom-up pruning drops exactly the closed sections
      without content. */
  lemma {:induction false} PruneDropsEmpty(f: Forest)
    ensures Prune(f) == DropEmpty(f)
    ensures Prune(f).Nil? <==> !HasContent(f)
  {
    match f
    case Nil =>
    case Line(_, rest) => PruneDropsEmpty(rest);
    case Section(_, _, body, rest) =>
      PruneDropsEmpty(body);
      PruneDropsEmpty(rest);
  }

  // ---- The markers, spelled out ----

  lemma {:induction false} MarkersAreSpelled(l: Text)
    ensures IsOpen(l) <==> l == Ascii(";;>") || l == Ascii(";;v") || Ascii(";;> ") <= l || Ascii(";;v ") <= l
    ensures IsClose(l) <==> l == Ascii(";;<") || Ascii(";;< ") <= l
    ensures IsOpen(l) ==> |l| >= 3 && (AutoFolds(l) <==> Ascii(";;>") <= l)
    ensures CLOSE == Ascii(";;<")
  {
    assert Ascii(";;>") == [0x3B, 0x3B, 0x3E] && Ascii(";;v") == [0x3B, 0x3B, 0x76] && Ascii(";;<") == [0x3B, 0x3B, 0x3C];
    assert Ascii(";;> ") == Ascii(";;>") + [0x20] && Ascii(";;v ") == Ascii(";;v") + [0x20] && Ascii(";;< ") == Ascii(";;<") + [0x20];
    if |l| >= 3 { assert l[..3] == [l[0], l[1], l[2]]; }
    if |l| >= 4 { assert l[..4] == [l[0], l[1], l[2], l[3]]; }
  }
}
