/** Well-formed transcripts, as trees: what the two projections do to them and what the
    browser then shows. */
module Transcript {
  import opened Lists
  import opened CodeUnits
  import opened Sections
  import opened Emission
  import opened Projection

  /** A line that neither lexer takes for a marker. */
  predicate PlainLine(l: Text) {
    IsPlain(l) && !IsMarker(l) && SingleLine(l) && !EndsInReturn(l)
  }

  /** A marker line on which the two lexers agree. */
  predicate OpeningLine(l: Text) {
    IsOpen(l) && SingleLine(l) && !EndsInReturn(l)
  }

  predicate PlainBody(f: Forest) {
    match f
    case Nil => true
    case Line(l, rest) => PlainLine(l) && PlainBody(rest)
    case Section(_, _, _, _) => false
  }

  /** Sections are closed, and response sections hold plain lines only. */
  predicate WellFormed(f: Forest) {
    match f
    case Nil => true
    case Line(l, rest) => PlainLine(l) && WellFormed(rest)
    case Section(b, closed, body, rest) =>
      && OpeningLine(b) && closed && WellFormed(rest)
      && if IsResponse(b) then PlainBody(body) else WellFormed(body)
  }

  /** The transcript without its response sections. */
  function QueryView(f: Forest): Forest {
    match f
    case Nil => Nil
    case Line(l, rest) => Line(l, QueryView(rest))
    case Section(b, closed, body, rest) =>
      if IsResponse(b) then QueryView(rest) else Section(b, closed, QueryView(body), QueryView(rest))
  }

  /** The transcript without the lines that are not in a response. */
  function ResponseView(f: Forest): Forest {
    match f
    case Nil => Nil
    case Line(_, rest) => ResponseView(rest)
    case Section(b, closed, body, rest) =>
      Section(b, closed, if IsResponse(b) then body else ResponseView(body), ResponseView(rest))
  }

  /** The sections that are no responses, without any line. */
  function Skeleton(f: Forest): Forest {
    match f
    case Nil => Nil
    case Line(_, rest) => Skeleton(rest)
    case Section(b, closed, body, rest) =>
      if IsResponse(b) then Skeleton(rest) else Section(b, closed, Skeleton(body), Skeleton(rest))
  }

  /** The lines of the response sections, in order. */
  function ResponseLines(f: Forest): seq<Text> {
    match f
    case Nil => []
    case Line(_, rest) => ResponseLines(rest)
    case Section(b, _, body, rest) =>
      (if IsResponse(b) then Contents(body) else ResponseLines(body)) + ResponseLines(rest)
  }

  /** The lines outside them. */
  function CommandLines(f: Forest): seq<Text> {
    match f
    case Nil => []
    case Line(l, rest) => [l] + CommandLines(rest)
    case Section(b, _, body, rest) => (if IsResponse(b) then [] else CommandLines(body)) + CommandLines(rest)
  }

  lemma {:induction false} PlainBodyWellFormed(f: Forest)
    requires PlainBody(f)
    ensures Balanced(f) && LineByLine(f) && NoReturns(Marked(f)) && Contents(f) == Marked(f)
  {
    match f
    case Nil =>
    case Line(_, rest) => PlainBodyWellFormed(rest);
  }

  lemma {:induction false} WellFormedIsBalanced(f: Forest)
    requires WellFormed(f)
    ensures Balanced(f) && LineByLine(f) && NoReturns(Marked(f))
  {
    match f
    case Nil =>
    case Line(_, rest) => WellFormedIsBalanced(rest);
    case Section(b, _, body, rest) =>
      WellFormedIsBalanced(rest);
      if IsResponse(b) { PlainBodyWellFormed(body); } else { WellFormedIsBalanced(body); }
      SectionNoReturns(b, Marked(body), Marked(rest));
  }

  lemma {:induction false} SectionNoReturns(b: Text, body: seq<Text>, rest: seq<Text>)
    requires !EndsInReturn(b) && NoReturns(body) && NoReturns(rest)
    ensures NoReturns([b] + body + [CLOSE] + rest)
  {
    var ls := [b] + body + [CLOSE] + rest;
    forall i | 0 <= i < |ls| ensures !EndsInReturn(ls[i]) {
      if 1 <= i <= |body| { assert ls[i] == body[i - 1]; }
      if i > |body| + 1 { assert ls[i] == rest[i - |body| - 2]; }
    }
  }

  lemma {:induction false} OpeningLineIsMarker(l: Text)
    requires OpeningLine(l)
    ensures IsMarker(l) && l != CLOSE
  {
    assert l[..3] == [SEMICOLON, SEMICOLON, l[2]];
  }

  // ---- The projections act on the tree ----

  /** The lines of a response block go to one view as a whole. */
  lemma {:induction false} ProjectBlock(body: Forest, tail: seq<Text>, keep: bool)
    requires PlainBody(body)
    ensures Project(Marked(body) + ([CLOSE] + tail), true, keep)
            == (if keep then Marked(body) + [CLOSE] else []) + Project(tail, false, keep)
  {
    var end := [CLOSE] + tail;
    match body
    case Nil =>
      assert Marked(body) + end == end;
      ProjectCons(CLOSE, tail, true, keep);
    case Line(l, rest) =>
      ProjectBlock(rest, tail, keep);
      ResponseIsMarker(l);
      Assoc([l], Marked(rest), end);
      ProjectCons(l, Marked(rest) + end, true, keep);
      var later := Project(tail, false, keep);
      Assoc([l], Marked(rest), [CLOSE]);
      Assoc([l], Marked(rest) + [CLOSE], later);
  }

  function ViewOf(f: Forest, keep: bool): Forest {
    if keep then ResponseView(f) else QueryView(f)
  }

  /** A view of a section: the section with the view of its body, or a response as a whole
      or not at all. */
  lemma {:induction false} SectionView(b: Text, closed: bool, body: Forest, rest: Forest, keep: bool)
    ensures ViewOf(Section(b, closed, body, rest), keep)
            == if !IsResponse(b) then Section(b, closed, ViewOf(body, keep), ViewOf(rest, keep))
               else if keep then Section(b, closed, body, ViewOf(rest, keep))
               else ViewOf(rest, keep)
    ensures ViewOf(Nil, keep) == Nil && Marked(Nil) == []
  {
  }

  lemma {:induction false} ProjectForest(f: Forest, tail: seq<Text>, keep: bool)
    requires WellFormed(f)
    ensures Project(Marked(f) + tail, false, keep) == Marked(ViewOf(f, keep)) + Project(tail, false, keep)
    decreases f
  {
    match f
    case Nil =>
      assert Marked(f) + tail == tail;
    case Line(l, rest) =>
      ProjectForest(rest, tail, keep);
      ResponseIsMarker(l);
      var after := Marked(rest) + tail;
      Assoc([l], Marked(rest), tail);
      ProjectCons(l, after, false, keep);
      Assoc([l], Marked(QueryView(rest)), Project(tail, false, keep));
    case Section(b, _, body, rest) =>
      ProjectSection(b, body, rest, tail, keep);
  }

  lemma {:induction false} ProjectSection(b: Text, body: Forest, rest: Forest, tail: seq<Text>, keep: bool)
    requires WellFormed(Section(b, true, body, rest))
    ensures var f := Section(b, true, body, rest);
            Project(Marked(f) + tail, false, keep) == Marked(ViewOf(f, keep)) + Project(tail, false, keep)
    decreases Section(b, true, body, rest), 0
  {
    var f := Section(b, true, body, rest);
    var after := Marked(rest) + tail;
    var inner := Marked(body) + ([CLOSE] + after);
    assert Marked(f) + tail == [b] + inner by {
      Assoc([b] + Marked(body) + [CLOSE], Marked(rest), tail);
      Assoc4([b], Marked(body), [CLOSE], after);
    }
    assert ([b] + inner)[1..] == inner;
    OpeningLineIsMarker(b);
    ProjectForest(rest, tail, keep);
    var later := Project(tail, false, keep);
    var view := Marked(ViewOf(rest, keep));
    if IsResponse(b) {
      ProjectBlock(body, after, keep);
      if keep {
        Assoc([b], Marked(body) + [CLOSE], view + later);
        SectionLines([b], Marked(body), view, later);
      }
    } else {
      ProjectForest(body, [CLOSE] + after, keep);
      assert ([CLOSE] + after)[1..] == after && !IsResponse(CLOSE);
      SectionLines([b], Marked(ViewOf(body, keep)), view, later);
    }
  }

  lemma {:induction false} SectionLines(b: seq<Text>, body: seq<Text>, rest: seq<Text>, tail: seq<Text>)
    ensures b + (body + ([CLOSE] + (rest + tail))) == b + body + [CLOSE] + rest + tail
    ensures b + (body + [CLOSE] + (rest + tail)) == b + body + [CLOSE] + rest + tail
  {
    Assoc4(b, body, [CLOSE], rest + tail);
    Assoc(b + body + [CLOSE], rest, tail);
    Assoc(body, [CLOSE], rest + tail);
  }

  // ---- The views ----

  lemma {:induction false} ViewsKeepSkeleton(f: Forest)
    requires WellFormed(f)
    ensures WellFormed(QueryView(f)) && WellFormed(ResponseView(f))
    ensures Skeleton(QueryView(f)) == Skeleton(f) == Skeleton(ResponseView(f))
    ensures Contents(QueryView(f)) == CommandLines(f) && Contents(ResponseView(f)) == ResponseLines(f)
    ensures EndsClosed(ResponseView(f))
  {
    match f
    case Nil =>
    case Line(_, rest) => ViewsKeepSkeleton(rest);
    case Section(b, _, body, rest) =>
      ViewsKeepSkeleton(rest);
      if !IsResponse(b) { ViewsKeepSkeleton(body); }
  }

  /** A transcript behind another: both views go section by section. */
  lemma {:induction false} ViewsAppend(f: Forest, g: Forest)
    ensures QueryView(Append(f, g)) == Append(QueryView(f), QueryView(g))
    ensures ResponseView(Append(f, g)) == Append(ResponseView(f), ResponseView(g))
    ensures WellFormed(f) && WellFormed(g) ==> WellFormed(Append(f, g))
    ensures CommandLines(Append(f, g)) == CommandLines(f) + CommandLines(g)
    ensures ResponseLines(Append(f, g)) == ResponseLines(f) + ResponseLines(g)
  {
    match f
    case Nil =>
    case Line(l, rest) =>
      ViewsAppend(rest, g);
      Assoc([l], CommandLines(rest), CommandLines(g));
    case Section(b, _, body, rest) =>
      ViewsAppend(rest, g);
      Assoc(if IsResponse(b) then [] else CommandLines(body), CommandLines(rest), CommandLines(g));
      Assoc(if IsResponse(b) then Contents(body) else ResponseLines(body), ResponseLines(rest), ResponseLines(g));
  }

  /** The transcript text of a forest. */
  function TextOf(f: Forest): Text {
    Terminate(Marked(f))
  }

  lemma {:induction false} ProjectTranscript(f: Forest, keep: bool)
    requires WellFormed(f)
    ensures ProjectText(TextOf(f), keep) == TextOf(ViewOf(f, keep))
  {
    WellFormedIsBalanced(f);
    MarkedSingleLines(f);
    RustLinesTerminated(Marked(f));
    ChopNothing(Marked(f));
    ProjectWhole(f, keep);
  }

  lemma {:induction false} ProjectWhole(f: Forest, keep: bool)
    requires WellFormed(f)
    ensures Project(Marked(f), false, keep) == Marked(ViewOf(f, keep))
  {
    var none: seq<Text> := [];
    ProjectForest(f, none, keep);
    assert Project(none, false, keep) == none;
    EmptyTail(Marked(f));
    EmptyTail(Marked(ViewOf(f, keep)));
  }

  lemma {:induction false} EmptyTail(ls: seq<Text>)
    ensures ls + [] == ls
  {
  }

  /** For a well-formed transcript, both views are balanced texts over the same non-response
      sections, one with the commands and one with the responses. */
  lemma {:induction false} ProjectionsOfTranscript(f: Forest)
    requires WellFormed(f)
    ensures ProjectText(TextOf(f), false) == TextOf(QueryView(f))
    ensures ProjectText(TextOf(f), true) == TextOf(ResponseView(f))
    ensures Balanced(QueryView(f)) && Balanced(ResponseView(f))
    ensures Skeleton(QueryView(f)) == Skeleton(f) == Skeleton(ResponseView(f))
    ensures Contents(QueryView(f)) == CommandLines(f) && Contents(ResponseView(f)) == ResponseLines(f)
  {
    ProjectTranscript(f, false);
    ProjectTranscript(f, true);
    ViewsKeepSkeleton(f);
    WellFormedIsBalanced(QueryView(f));
    WellFormedIsBalanced(ResponseView(f));
  }

  /** What is left of the response tab after the scan: every section leads to at least one
      line of a response, and the lines are those of the responses. */
  lemma {:induction false} ResponseTabShowsResponses(f: Forest)
    requires WellFormed(f)
    ensures var kept := Prune(ResponseView(f));
            && Shown(ProjectText(TextOf(f), true)) == Meaning(ResponseView(f))
            && AllSectionsHaveLine(kept)
            && Contents(kept) == ResponseLines(f)
  {
    ProjectionsOfTranscript(f);
    ViewsKeepSkeleton(f);
    WellFormedIsBalanced(ResponseView(f));
    WrittenForestIsShown(ResponseView(f));
    PrunedSectionsHaveLine(ResponseView(f));
    PruneKeepsShape(ResponseView(f));
  }
}
