/** The browser's one-pass scanner over a marked body: a stack of open sections and an
    output buffer that is cut back when a section turns out to be empty. It computes the
    recursive meaning of the body, for every input. */
module Scanner {
  import opened Lists
  import opened CodeUnits
  import opened Sections

  /** What the scanner remembers about an open section. */
  datatype Open = Open(cleanedLenAtOpen: nat, openLineEnd: nat, autoFold: bool)

  /** The scanner between two lines. */
  datatype State = State(cleaned: Text, stack: seq<Open>, folds: seq<Fold>)

  function EmitRange(folds: seq<Fold>, open: Open, to: nat): seq<Fold> {
    if to > open.openLineEnd then folds + [Fold(Range(open.openLineEnd, to), open.autoFold)] else folds
  }

  function OpenSection(st: State, l: Text): State {
    var cleaned := AppendLine(st.cleaned, StripMarker(l));
    State(cleaned, st.stack + [Open(|st.cleaned|, |cleaned|, AutoFolds(l))], st.folds)
  }

  function CloseSection(st: State): State {
    if st.stack == [] then st
    else
      var open := st.stack[|st.stack| - 1];
      var stack := st.stack[..|st.stack| - 1];
      if |st.cleaned| == open.openLineEnd then State(Cut(st.cleaned, open.cleanedLenAtOpen), stack, st.folds)
      else State(st.cleaned, stack, EmitRange(st.folds, open, |st.cleaned|))
  }

  /** JavaScript's `s.slice(0, n)`. */
  function Cut(s: Text, n: nat): Text {
    if n <= |s| then s[..n] else s
  }

  function Step(st: State, l: Text): State {
    if IsOpen(l) then OpenSection(st, l)
    else if IsClose(l) then CloseSection(st)
    else st.(cleaned := AppendLine(st.cleaned, l))
  }

  function Run(st: State, ls: seq<Text>): State
    decreases |ls|
  {
    if ls == [] then st else Run(Step(st, ls[0]), ls[1..])
  }

  /** At the end of the input, the open sections end with it, innermost first. */
  function Finish(st: State): State
    decreases |st.stack|
  {
    if st.stack == [] then st
    else
      var open := st.stack[|st.stack| - 1];
      Finish(State(st.cleaned, st.stack[..|st.stack| - 1], EmitRange(st.folds, open, |st.cleaned|)))
  }

  function Total(st: State, ls: seq<Text>): State {
    Finish(Run(st, ls))
  }

  lemma {:induction false} RunStep(st: State, lines: seq<Text>, i: nat)
    requires i < |lines|
    ensures Total(st, lines[i..]) == Total(Step(st, lines[i]), lines[i + 1..])
  {
    assert lines[i..][1..] == lines[i + 1..];
  }

  lemma {:induction false} RenderExtends(f: Forest, s: Text)
    ensures s <= Render(f, s)
    ensures s != [] && !f.Nil? ==> |Render(f, s)| > |s| && Render(f, s)[|s|] == NEWLINE
  {
    match f
    case Nil =>
    case Line(l, rest) =>
      RenderExtends(rest, AppendLine(s, l));
    case Section(b, _, body, rest) =>
      var top := AppendLine(s, StripMarker(b));
      RenderExtends(body, top);
      RenderExtends(rest, Render(body, top));
  }

  /** The scanner state after the pruned forest `g` has been printed. */
  function After(g: Forest, st: State): State {
    State(Render(g, st.cleaned), st.stack, st.folds + Folds(g, st.cleaned))
  }

  /** The scan of any lines is the recursive meaning of what they parse to. */
  lemma {:induction false} ScanFollowsParse(ls: seq<Text>, nested: bool, st: State)
    requires nested <==> st.stack != []
    ensures var p := Parse(ls, nested);
            var done := After(Prune(p.forest), st);
            Total(st, ls) == if p.closed then Total(CloseSection(done), p.rest) else Finish(done)
    decreases |ls|
  {
    if ls == [] {
      assert After(Nil, st) == st;
    } else if IsOpen(ls[0]) {
      ScanSection(ls, nested, st);
    } else if IsClose(ls[0]) {
      assert After(Nil, st) == st;
      if !nested {
        ScanFollowsParse(ls[1..], false, st);
      }
    } else {
      ScanFollowsParse(ls[1..], nested, Step(st, ls[0]));
    }
  }

  lemma {:induction false} ScanSection(ls: seq<Text>, nested: bool, st: State)
    requires nested <==> st.stack != []
    requires ls != [] && IsOpen(ls[0])
    ensures var p := Parse(ls, nested);
            var done := After(Prune(p.forest), st);
            Total(st, ls) == if p.closed then Total(CloseSection(done), p.rest) else Finish(done)
    decreases |ls|, 0
  {
    var pushed := OpenSection(st, ls[0]);
    var inner := Parse(ls[1..], true);
    ScanFollowsParse(ls[1..], true, pushed);
    var kept := Prune(inner.forest);
    var within := After(kept, pushed);
    RenderExtends(kept, pushed.cleaned);
    assert pushed.stack[..|st.stack|] == st.stack;
    assert pushed.stack[|pushed.stack| - 1] == Open(|st.cleaned|, |pushed.cleaned|, AutoFolds(ls[0]));
    if inner.closed {
      var closed := CloseSection(within);
      ScanFollowsParse(inner.rest, nested, closed);
      var after := Prune(Parse(inner.rest, nested).forest);
      if kept.Nil? {
        assert closed == st;
      } else {
        CloseKeepsSection(ls[0], true, kept, st);
        FoldsInTurn(ls[0], true, kept, after, st);
      }
    } else {
      CloseKeepsSection(ls[0], false, kept, st);
    }
  }

  /** Printing a section is printing its banner and its body, and adding its fold. */
  lemma {:induction false} SectionFolds(b: Text, closed: bool, body: Forest, s: Text)
    ensures var top := AppendLine(s, StripMarker(b));
            var end := Render(body, top);
            && Render(Section(b, closed, body, Nil), s) == end
            && Folds(Section(b, closed, body, Nil), s)
               == if body.Nil? then [] else Folds(body, top) + [Fold(Range(|top|, |end|), AutoFolds(b))]
  {
  }

  /** Leaving a section that is kept: popping it adds the fold of the printed section. */
  lemma {:induction false} CloseKeepsSection(b: Text, closed: bool, kept: Forest, st: State)
    ensures var within := After(kept, OpenSection(st, b));
            var open := within.stack[|st.stack|];
            && within.stack == st.stack + [open] && open.openLineEnd <= |within.cleaned|
            && (|within.cleaned| == open.openLineEnd <==> kept.Nil?)
            && State(within.cleaned, st.stack, EmitRange(within.folds, open, |within.cleaned|))
               == After(Section(b, closed, kept, Nil), st)
  {
    var top := AppendLine(st.cleaned, StripMarker(b));
    RenderExtends(kept, top);
    SectionFolds(b, closed, kept, st.cleaned);
    if !kept.Nil? {
      Assoc(st.folds, Folds(kept, top), [Fold(Range(|top|, |Render(kept, top)|), AutoFolds(b))]);
    }
  }

  lemma {:induction false} FoldsInTurn(b: Text, closed: bool, body: Forest, rest: Forest, st: State)
    ensures After(Section(b, closed, body, rest), st) == After(rest, After(Section(b, closed, body, Nil), st))
  {
    var one := Section(b, closed, body, Nil);
    var end := Render(one, st.cleaned);
    SectionFolds(b, closed, body, st.cleaned);
    if body.Nil? {
      assert Folds(Section(b, closed, body, rest), st.cleaned) == Folds(rest, end);
    }
    assert Folds(Section(b, closed, body, rest), st.cleaned) == Folds(one, st.cleaned) + Folds(rest, end);
    Assoc(st.folds, Folds(one, st.cleaned), Folds(rest, end));
  }

  const START := State([], [], [])

  lemma {:induction false} ScanComputesMeaning(lines: seq<Text>)
    ensures var kept := Prune(ParseAll(lines));
            Total(START, lines) == State(Render(kept, []), [], Folds(kept, []))
  {
    ScanFollowsParse(lines, false, START);
    var kept := Prune(ParseAll(lines));
    assert [] + Folds(kept, []) == Folds(kept, []);
  }

  /** `finalizeBannerBody`: the loop over the lines, with its three local lists. */
  method FinalizeBannerBody(body: Text) returns (view: View)
    ensures view == Meaning(ParseAll(Split(body)))
  {
    var cleaned: Text := [];
    var foldable: seq<Range>, autoFolded: seq<Range> := [], [];
    var stack: seq<Open> := [];
    var lines := Split(body);
    ghost var folds: seq<Fold> := [];
    for i := 0 to |lines|
      invariant Total(START, lines) == Total(State(cleaned, stack, folds), lines[i..])
      invariant foldable == Spans(folds) && autoFolded == AutoSpans(folds)
    {
      var l := lines[i];
      ghost var before := State(cleaned, stack, folds);
      RunStep(before, lines, i);
      if IsOpen(l) {
        var cleanedLenAtOpen := |cleaned|;
        cleaned := AppendLine(cleaned, StripMarker(l));
        stack := stack + [Open(cleanedLenAtOpen, |cleaned|, AutoFolds(l))];
      } else if IsClose(l) {
        if stack != [] {
          var open := stack[|stack| - 1];
          stack := stack[..|stack| - 1];
          if |cleaned| == open.openLineEnd {
            cleaned := Cut(cleaned, open.cleanedLenAtOpen);
          } else {
            foldable, autoFolded, folds := Emit(foldable, autoFolded, folds, open, |cleaned|);
          }
        }
      } else {
        cleaned := AppendLine(cleaned, l);
      }
      assert State(cleaned, stack, folds) == Step(before, l);
    }
    while stack != []
      invariant Total(START, lines) == Finish(State(cleaned, stack, folds))
      invariant foldable == Spans(folds) && autoFolded == AutoSpans(folds)
      decreases |stack|
    {
      var open := stack[|stack| - 1];
      stack := stack[..|stack| - 1];
      foldable, autoFolded, folds := Emit(foldable, autoFolded, folds, open, |cleaned|);
    }
    ScanComputesMeaning(lines);
    view := View(cleaned, foldable, autoFolded);
  }

  /** `emitRange`: push the range on one list or on both. */
  method Emit(foldable: seq<Range>, autoFolded: seq<Range>, ghost folds: seq<Fold>, open: Open, to: nat)
    returns (foldable': seq<Range>, autoFolded': seq<Range>, ghost folds': seq<Fold>)
    requires foldable == Spans(folds) && autoFolded == AutoSpans(folds)
    ensures folds' == EmitRange(folds, open, to)
    ensures foldable' == Spans(folds') && autoFolded' == AutoSpans(folds')
  {
    foldable', autoFolded', folds' := foldable, autoFolded, folds;
    if to > open.openLineEnd {
      var range := Range(open.openLineEnd, to);
      foldable' := foldable + [range];
      if open.autoFold {
        autoFolded' := autoFolded + [range];
      }
      folds' := folds + [Fold(range, open.autoFold)];
      assert folds'[..|folds|] == folds;
    }
  }
}
