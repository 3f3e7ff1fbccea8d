/** What holds of the scanner's output on every input: each range is one surviving
    section and covers exactly its printed lines, ranges nest, content survives, and a
    cleaned body scans to itself. */
module ScannerLaws {
  import opened Lists
  import opened CodeUnits
  import opened Sections
  import opened Scanner

  // ---- Printing, line by line ----

  function RenderLines(ls: seq<Text>, s: Text): Text {
    if ls == [] then s else RenderLines(ls[1..], AppendLine(s, ls[0]))
  }

  function DropLeadingBlanks(ls: seq<Text>): seq<Text> {
    if ls != [] && ls[0] == [] then DropLeadingBlanks(ls[1..]) else ls
  }

  lemma {:induction false} RenderLinesConcat(a: seq<Text>, b: seq<Text>, s: Text)
    ensures RenderLines(a + b, s) == RenderLines(b, RenderLines(a, s))
    decreases |a|
  {
    if a == [] {
      assert a + b == b;
    } else {
      assert (a + b)[1..] == a[1..] + b;
      RenderLinesConcat(a[1..], b, AppendLine(s, a[0]));
    }
  }

  lemma {:induction false} RenderIsLines(f: Forest, s: Text)
    ensures Render(f, s) == RenderLines(Printed(f), s)
  {
    match f
    case Nil =>
    case Line(l, rest) =>
      RenderIsLines(rest, AppendLine(s, l));
      assert Printed(f)[1..] == Printed(rest);
    case Section(b, _, body, rest) =>
      var top := AppendLine(s, StripMarker(b));
      RenderIsLines(body, top);
      RenderIsLines(rest, Render(body, top));
      Assoc([StripMarker(b)], Printed(body), Printed(rest));
      assert Printed(f)[1..] == Printed(body) + Printed(rest);
      RenderLinesConcat(Printed(body), Printed(rest), top);
  }

  lemma {:induction false} RenderLinesOnto(ls: seq<Text>, s: Text)
    requires s != []
    ensures RenderLines(ls, s) == if ls == [] then s else s + [NEWLINE] + Join(ls)
    decreases |ls|
  {
    if ls != [] {
      RenderLinesOnto(ls[1..], s + [NEWLINE] + ls[0]);
      if |ls| > 1 {
        assert s + [NEWLINE] + ls[0] + [NEWLINE] + Join(ls[1..]) == s + [NEWLINE] + (ls[0] + [NEWLINE] + Join(ls[1..]));
      }
    }
  }

  /** On an empty buffer, the printed text is the lines without the leading blank ones. */
  lemma {:induction false} RenderLinesFresh(ls: seq<Text>)
    ensures RenderLines(ls, []) == Join(DropLeadingBlanks(ls))
    decreases |ls|
  {
    if ls != [] {
      if ls[0] == [] {
        RenderLinesFresh(ls[1..]);
      } else {
        RenderLinesOnto(ls[1..], ls[0]);
      }
    }
  }

  /** The body of a view is the printed lines, leading blanks dropped. */
  lemma {:induction false} BodyIsPrintedLines(f: Forest)
    ensures Meaning(f).body == Join(DropLeadingBlanks(Printed(Prune(f))))
  {
    RenderIsLines(Prune(f), []);
    RenderLinesFresh(Printed(Prune(f)));
  }

  // ---- Ranges are sections ----

  datatype Survivor = Survivor(banner: Text, body: Forest)

  /** The sections with something under their banner, inner before outer. */
  function Survivors(f: Forest): seq<Survivor> {
    match f
    case Nil => []
    case Line(_, rest) => Survivors(rest)
    case Section(b, _, body, rest) =>
      Survivors(body) + (if body.Nil? then [] else [Survivor(b, body)]) + Survivors(rest)
  }

  lemma {:induction false} SurvivorsAppend(f: Forest, g: Forest)
    ensures Survivors(Append(f, g)) == Survivors(f) + Survivors(g)
  {
    match f
    case Nil =>
    case Line(_, rest) => SurvivorsAppend(rest, g);
    case Section(b, _, body, rest) =>
      SurvivorsAppend(rest, g);
      Assoc(Survivors(body) + (if body.Nil? then [] else [Survivor(b, body)]), Survivors(rest), Survivors(g));
  }

  /** `l` is the line of `text` that ends at position `p`. */
  predicate LineEndsAt(text: Text, p: nat, l: Text) {
    && |l| <= p <= |text| && SingleLine(l) && text[p - |l|..p] == l
    && (p == |l| || text[p - |l| - 1] == NEWLINE)
  }

  predicate EndsLine(text: Text, p: nat) {
    p <= |text| && (p == |text| || text[p] == NEWLINE)
  }

  /** The range starts where the section's banner line ends, and spans exactly the
      section's printed lines. */
  predicate Covers(text: Text, r: Range, s: Survivor) {
    && r.from < r.to && EndsLine(text, r.to)
    && LineEndsAt(text, r.from, StripMarker(s.banner))
    && text[r.from..r.to] == [NEWLINE] + Join(Printed(s.body))
  }

  predicate AllCover(text: Text, fs: seq<Fold>, ss: seq<Survivor>, low: nat, high: nat) {
    && |fs| == |ss|
    && forall k | 0 <= k < |fs| ::
         && low < fs[k].span.from && fs[k].span.to <= high
         && Covers(text, fs[k].span, ss[k])
         && fs[k].auto == AutoFolds(ss[k].banner)
  }

  lemma {:induction false} FoldsCover(f: Forest, s: Text, text: Text)
    requires LineByLine(f)
    requires Render(f, s) <= text && EndsLine(text, |Render(f, s)|)
    ensures AllCover(text, Folds(f, s), Survivors(f), |s|, |Render(f, s)|)
  {
    match f
    case Nil =>
    case Line(l, rest) =>
      FoldsCover(rest, AppendLine(s, l), text);
    case Section(b, _, body, rest) =>
      var top := AppendLine(s, StripMarker(b));
      var end := Render(body, top);
      RenderExtends(body, top);
      RenderExtends(rest, end);
      assert end <= text && EndsLine(text, |end|);
      FoldsCover(body, top, text);
      FoldsCover(rest, end, text);
      var own := if body.Nil? then [] else [Fold(Range(|top|, |end|), AutoFolds(b))];
      var it := if body.Nil? then [] else [Survivor(b, body)];
      if !body.Nil? {
        OwnFoldCovers(b, body, s, text);
      }
      assert AllCover(text, own, it, |s|, |end|);
      CoverConcat(text, Folds(body, top), Survivors(body), own, it, |s|, |end|, |top|, |end|, |s|, |end|);
      CoverConcat(text, Folds(body, top) + own, Survivors(body) + it, Folds(rest, end), Survivors(rest),
                  |s|, |Render(rest, end)|, |s|, |end|, |end|, |Render(rest, end)|);
  }

  lemma {:induction false} CoverConcat(text: Text, fa: seq<Fold>, sa: seq<Survivor>, fb: seq<Fold>, sb: seq<Survivor>,
                    low: nat, high: nat, lowA: nat, highA: nat, lowB: nat, highB: nat)
    requires low <= lowA && highA <= high && AllCover(text, fa, sa, lowA, highA)
    requires low <= lowB && highB <= high && AllCover(text, fb, sb, lowB, highB)
    ensures AllCover(text, fa + fb, sa + sb, low, high)
  {
    forall k | 0 <= k < |fa + fb|
      ensures low < (fa + fb)[k].span.from && (fa + fb)[k].span.to <= high
      ensures Covers(text, (fa + fb)[k].span, (sa + sb)[k]) && (fa + fb)[k].auto == AutoFolds((sa + sb)[k].banner)
    {
      if k < |fa| {
        assert (fa + fb)[k] == fa[k] && (sa + sb)[k] == sa[k];
      } else {
        assert (fa + fb)[k] == fb[k - |fa|] && (sa + sb)[k] == sb[k - |fa|];
      }
    }
  }

  lemma {:induction false} OwnFoldCovers(b: Text, body: Forest, s: Text, text: Text)
    requires SingleLine(b) && !body.Nil?
    requires var end := Render(body, AppendLine(s, StripMarker(b)));
             end <= text && EndsLine(text, |end|)
    ensures var top := AppendLine(s, StripMarker(b));
            Covers(text, Range(|top|, |Render(body, top)|), Survivor(b, body))
  {
    var strip := StripMarker(b);
    var top := AppendLine(s, strip);
    var end := Render(body, top);
    RenderExtends(body, top);
    RenderIsLines(body, top);
    RenderLinesOnto(Printed(body), top);
    Assoc(top, [NEWLINE], Join(Printed(body)));
    SliceBetween(text, top, [NEWLINE] + Join(Printed(body)), end);
    AppendedLineEnds(s, strip, text);
  }

  lemma {:induction false} SliceBetween(text: Text, top: Text, tail: Text, end: Text)
    requires end == top + tail && end <= text
    ensures text[|top|..|end|] == tail
  {
  }

  /** A line just appended ends at the end of the text so far. */
  lemma {:induction false} AppendedLineEnds(s: Text, l: Text, text: Text)
    requires SingleLine(l) && AppendLine(s, l) <= text
    ensures LineEndsAt(text, |AppendLine(s, l)|, l)
  {
    var top := AppendLine(s, l);
    assert text[..|top|] == top;
    assert top[|top| - |l|..] == l;
    assert text[|top| - |l|..|top|] == l;
    if s != [] {
      assert top[|s|] == NEWLINE;
    }
  }

  // ---- Ranges nest ----

  /** Disjoint, or the second one strictly encloses the first. */
  predicate Nest(r: Range, r': Range) {
    r.to <= r'.from || (r'.from < r.from && r.to <= r'.to)
  }

  predicate Laminar(rs: seq<Range>) {
    forall i, j | 0 <= i < j < |rs| :: Nest(rs[i], rs[j])
  }

  predicate Nested(fs: seq<Fold>, low: nat, high: nat) {
    && (forall k | 0 <= k < |fs| :: low < fs[k].span.from < fs[k].span.to <= high)
    && forall i, j | 0 <= i < j < |fs| :: Nest(fs[i].span, fs[j].span)
  }

  lemma {:induction false} FoldsNest(f: Forest, s: Text)
    ensures Nested(Folds(f, s), |s|, |Render(f, s)|)
  {
    match f
    case Nil =>
    case Line(l, rest) =>
      FoldsNest(rest, AppendLine(s, l));
      RenderExtends(rest, AppendLine(s, l));
    case Section(b, _, body, rest) =>
      var top := AppendLine(s, StripMarker(b));
      var end := Render(body, top);
      FoldsNest(body, top);
      FoldsNest(rest, end);
      RenderExtends(body, top);
      RenderExtends(rest, end);
      if body.Nil? {
        NestBeside([], Folds(rest, end), |s|, |end|, |Render(rest, end)|);
        assert Folds(f, s) == [] + Folds(rest, end);
      } else {
        var own := Fold(Range(|top|, |end|), AutoFolds(b));
        NestAround(Folds(body, top), own, |s|);
        NestBeside(Folds(body, top) + [own], Folds(rest, end), |s|, |end|, |Render(rest, end)|);
      }
  }

  lemma {:induction false} NestAround(inner: seq<Fold>, own: Fold, low: nat)
    requires low < own.span.from < own.span.to && Nested(inner, own.span.from, own.span.to)
    ensures Nested(inner + [own], low, own.span.to)
  {
  }

  lemma {:induction false} NestBeside(a: seq<Fold>, b: seq<Fold>, low: nat, mid: nat, high: nat)
    requires low <= mid <= high && Nested(a, low, mid) && Nested(b, mid, high)
    ensures Nested(a + b, low, high)
  {
  }

  // ---- The automatic folds ----

  /** `a` is `b` with some elements left out. */
  predicate Subsequence<T(==)>(a: seq<T>, b: seq<T>) {
    || a == []
    || (b != [] && (|| Subsequence(a, b[..|b| - 1])
                    || (a[|a| - 1] == b[|b| - 1] && Subsequence(a[..|a| - 1], b[..|b| - 1]))))
  }

  lemma {:induction false} AutoIsSubsequence(fs: seq<Fold>)
    ensures Subsequence(AutoSpans(fs), Spans(fs))
  {
    if fs != [] {
      var init := fs[..|fs| - 1];
      AutoIsSubsequence(init);
      assert Spans(fs)[..|fs| - 1] == Spans(init);
      var auto := AutoSpans(fs);
      if fs[|fs| - 1].auto {
        assert auto[..|auto| - 1] == AutoSpans(init);
        assert auto[|auto| - 1] == Spans(fs)[|fs| - 1];
      } else {
        assert auto == AutoSpans(init) && Subsequence(auto, Spans(fs)[..|Spans(fs)| - 1]);
      }
    }
  }

  lemma {:induction false} AutoIsMarked(fs: seq<Fold>, r: Range)
    ensures r in AutoSpans(fs) <==> exists k :: 0 <= k < |fs| && fs[k] == Fold(r, true)
  {
    if fs != [] {
      var init := fs[..|fs| - 1];
      AutoIsMarked(init, r);
      if r in AutoSpans(init) {
        var k :| 0 <= k < |init| && init[k] == Fold(r, true);
        assert fs[k] == Fold(r, true);
      }
      if fs[|fs| - 1] != Fold(r, true) {
        forall k | 0 <= k < |fs| && fs[k] == Fold(r, true)
          ensures init[k] == fs[k]
        {
        }
      }
    }
  }

  /** Where one range starts no other does, so membership among the automatic folds is
      decided by the section's own marker. */
  lemma {:induction false} AutoByBanner(f: Forest, k: nat)
    requires LineByLine(f) && k < |Folds(f, [])|
    ensures var fs := Folds(f, []);
            |Survivors(f)| == |fs| && (fs[k].span in AutoSpans(fs) <==> AutoFolds(Survivors(f)[k].banner))
  {
    var fs := Folds(f, []);
    FoldsCover(f, [], Render(f, []));
    FoldsNest(f, []);
    AutoIsMarked(fs, fs[k].span);
    assert forall j | 0 <= j < |fs| && j != k :: Nest(fs[j].span, fs[k].span) || Nest(fs[k].span, fs[j].span);
    assert fs[k].auto ==> fs[k] == Fold(fs[k].span, true);
  }

  /** Lines and banners are what the lexer took them for. */
  predicate Lexed(f: Forest) {
    match f
    case Nil => true
    case Line(l, rest) => IsPlain(l) && Lexed(rest)
    case Section(b, _, body, rest) => IsOpen(b) && Lexed(body) && Lexed(rest)
  }

  lemma {:induction false} ParseLexes(ls: seq<Text>, nested: bool)
    ensures Lexed(Parse(ls, nested).forest)
    decreases |ls|
  {
    if ls != [] {
      if IsOpen(ls[0]) {
        ParseLexes(ls[1..], true);
        ParseLexes(Parse(ls[1..], true).rest, nested);
      } else {
        ParseLexes(ls[1..], nested);
      }
    }
  }

  lemma {:induction false} PruneLexed(f: Forest)
    requires Lexed(f)
    ensures Lexed(Prune(f))
  {
    match f
    case Nil =>
    case Line(_, rest) => PruneLexed(rest);
    case Section(_, _, body, rest) => PruneLexed(body); PruneLexed(rest);
  }

  lemma {:induction false} KeptIsLexed(body: Text)
    ensures Lexed(Prune(ParseAll(Split(body))))
  {
    ParseLexes(Split(body), false);
    PruneLexed(ParseAll(Split(body)));
  }

  lemma {:induction false} SurvivorsAreOpen(f: Forest)
    requires Lexed(f)
    ensures forall k | 0 <= k < |Survivors(f)| :: IsOpen(Survivors(f)[k].banner)
  {
    match f
    case Nil =>
    case Line(_, rest) => SurvivorsAreOpen(rest);
    case Section(b, _, body, rest) =>
      SurvivorsAreOpen(body);
      SurvivorsAreOpen(rest);
  }

  // ---- The lines, spelled out ----

  function WithoutCloses(ls: seq<Text>): seq<Text> {
    if ls == [] then [] else (if IsClose(ls[0]) then [] else [ls[0]]) + WithoutCloses(ls[1..])
  }

  /** Each line as it is, but for the third character of an opening line, which is left out. */
  predicate AreShown(shown: seq<Text>, ls: seq<Text>) {
    && |shown| == |ls|
    && forall i | 0 <= i < |ls| :: shown[i] == if IsOpen(ls[i]) then ls[i][..2] + ls[i][3..] else ls[i]
  }

  lemma {:induction false} ShownConcat(shown: seq<Text>, ls: seq<Text>, shown': seq<Text>, ls': seq<Text>)
    requires AreShown(shown, ls) && AreShown(shown', ls')
    ensures AreShown(shown + shown', ls + ls')
  {
  }

  lemma {:induction false} WithoutClosesConcat(a: seq<Text>, b: seq<Text>)
    ensures WithoutCloses(a + b) == WithoutCloses(a) + WithoutCloses(b)
  {
    if a == [] {
      assert a + b == b;
    } else {
      assert (a + b)[1..] == a[1..] + b;
      WithoutClosesConcat(a[1..], b);
      Assoc(if IsClose(a[0]) then [] else [a[0]], WithoutCloses(a[1..]), WithoutCloses(b));
    }
  }

  lemma {:induction false} OneWithoutCloses(l: Text)
    ensures WithoutCloses([l]) == if IsClose(l) then [] else [l]
  {
    assert [l][1..] == [];
  }

  lemma {:induction false} PrintedIsShown(f: Forest)
    requires Lexed(f)
    ensures AreShown(Printed(f), WithoutCloses(Marked(f)))
  {
    match f
    case Nil =>
    case Line(l, rest) =>
      PrintedIsShown(rest);
      OneWithoutCloses(l);
      WithoutClosesConcat([l], Marked(rest));
      ShownConcat([l], [l], Printed(rest), WithoutCloses(Marked(rest)));
    case Section(b, closed, body, rest) =>
      PrintedIsShown(body);
      PrintedIsShown(rest);
      var end := if closed then [CLOSE] else [];
      OneWithoutCloses(b);
      OneWithoutCloses(CLOSE);
      WithoutClosesConcat([b], Marked(body));
      WithoutClosesConcat([b] + Marked(body), end);
      WithoutClosesConcat([b] + Marked(body) + end, Marked(rest));
      var first, inner := [StripMarker(b)], WithoutCloses(Marked(body));
      assert WithoutCloses([b] + Marked(body) + end) == [b] + inner + [] == [b] + inner;
      ShownConcat(first, [b], Printed(body), inner);
      ShownConcat(first + Printed(body), [b] + inner, Printed(rest), WithoutCloses(Marked(rest)));
  }

  /** What is left out at the start is blank, and nothing else is. */
  lemma {:induction false} DropsOnlyBlanks(ls: seq<Text>) returns (k: nat)
    ensures k <= |ls| && DropLeadingBlanks(ls) == ls[k..]
    ensures (forall i | 0 <= i < k :: ls[i] == []) && (k < |ls| ==> ls[k] != [])
  {
    if ls != [] && ls[0] == [] {
      k := DropsOnlyBlanks(ls[1..]);
      k := k + 1;
    } else {
      k := 0;
    }
  }

  /** The text that is shown: the lines of the sections that are kept, banners included,
      each opening line without its marker character and each close left out; then the blank
      lines at the start go. */
  lemma {:induction false} BodyIsSpelled(body: Text, shown: seq<Text>)
    requires AreShown(shown, WithoutCloses(Marked(Prune(ParseAll(Split(body))))))
    ensures Meaning(ParseAll(Split(body))).body == Join(DropLeadingBlanks(shown))
  {
    var kept := Prune(ParseAll(Split(body)));
    KeptIsLexed(body);
    PrintedIsShown(kept);
    assert shown == Printed(kept);
    BodyIsPrintedLines(ParseAll(Split(body)));
  }

  // ---- The laws, for every body ----

  /** One range per surviving section, in the same order, covering exactly its lines. */
  lemma {:induction false} ForestRanges(f: Forest)
    requires LineByLine(f)
    ensures var view := Meaning(f);
            var ss := Survivors(Prune(f));
            && |view.foldable| == |ss|
            && forall k | 0 <= k < |ss| ::
                 && Covers(view.body, view.foldable[k], ss[k])
                 && (view.foldable[k] in view.autoFolded <==> AutoFolds(ss[k].banner))
  {
    var kept := Prune(f);
    PruneKeepsShape(f);
    FoldsCover(kept, [], Render(kept, []));
    forall k | 0 <= k < |Folds(kept, [])|
      ensures Folds(kept, [])[k].span in AutoSpans(Folds(kept, [])) <==> AutoFolds(Survivors(kept)[k].banner)
    {
      AutoByBanner(kept, k);
    }
  }

  /** The line in front of the range is the section's banner without its third character,
      the range spans the section's printed lines, and it folds by itself iff that character
      is `>`. */
  predicate IsRangeOf(view: View, r: Range, s: Survivor) {
    && Covers(view.body, r, s)
    && |s.banner| >= 3 && LineEndsAt(view.body, r.from, s.banner[..2] + s.banner[3..])
    && (r in view.autoFolded <==> Ascii(";;>") <= s.banner)
  }

  lemma {:induction false} RangeIsSpelled(view: View, r: Range, s: Survivor)
    requires IsOpen(s.banner) && Covers(view.body, r, s) && (r in view.autoFolded <==> AutoFolds(s.banner))
    ensures IsRangeOf(view, r, s)
  {
    var b := s.banner;
    MarkersAreSpelled(b);
    assert b[..2] == [SEMICOLON, SEMICOLON] && StripMarker(b) == b[..2] + b[3..];
  }

  lemma {:induction false} RangesAreSections(body: Text)
    ensures var f := ParseAll(Split(body));
            var view := Meaning(f);
            var ss := Survivors(Prune(f));
            && |view.foldable| == |ss|
            && forall k | 0 <= k < |ss| :: IsRangeOf(view, view.foldable[k], ss[k])
  {
    var f := ParseAll(Split(body));
    var view, ss := Meaning(f), Survivors(Prune(f));
    ParsedLineByLine(Split(body), false);
    ForestRanges(f);
    KeptIsLexed(body);
    SurvivorsAreOpen(Prune(f));
    forall k | 0 <= k < |ss| ensures IsRangeOf(view, view.foldable[k], ss[k]) {
      RangeIsSpelled(view, view.foldable[k], ss[k]);
    }
  }

  /** A range on its own: where it starts and where it ends. */
  ghost predicate ValidRange(text: Text, r: Range) {
    && r.from < r.to && EndsLine(text, r.to) && text[r.from] == NEWLINE
    && exists l :: LineEndsAt(text, r.from, l) && [SEMICOLON, SEMICOLON] <= l
  }

  lemma {:induction false} CoveringIsValid(text: Text, r: Range, s: Survivor)
    requires Covers(text, r, s)
    ensures ValidRange(text, r)
  {
    assert text[r.from..r.to][0] == NEWLINE;
    assert LineEndsAt(text, r.from, StripMarker(s.banner));
  }

  /** Balanced or not, no rewind invalidates a range: each starts at the newline that ends
      a line beginning `;;`, ends at a line end, and any two nest or are disjoint. */
  lemma {:induction false} RangesStayValid(body: Text)
    ensures var view := Meaning(ParseAll(Split(body)));
            && Laminar(view.foldable)
            && Subsequence(view.autoFolded, view.foldable)
            && forall r | r in view.foldable :: ValidRange(view.body, r)
  {
    var f := ParseAll(Split(body));
    var view := Meaning(f);
    var ss := Survivors(Prune(f));
    RangesAreSections(body);
    FoldsNest(Prune(f), []);
    AutoIsSubsequence(Folds(Prune(f), []));
    forall r | r in view.foldable ensures ValidRange(view.body, r) {
      var k :| 0 <= k < |view.foldable| && view.foldable[k] == r;
      assert IsRangeOf(view, r, ss[k]);
      CoveringIsValid(view.body, r, ss[k]);
    }
  }

  // ---- Content and idempotence ----

  function PlainLines(ls: seq<Text>): seq<Text> {
    if ls == [] then []
    else (if IsPlain(ls[0]) then [ls[0]] else []) + PlainLines(ls[1..])
  }

  lemma {:induction false} PlainLinesStep(ls: seq<Text>)
    requires ls != []
    ensures PlainLines(ls) == if IsPlain(ls[0]) then [ls[0]] + PlainLines(ls[1..]) else PlainLines(ls[1..])
    ensures [] + PlainLines(ls[1..]) == PlainLines(ls[1..])
  {
  }

  lemma {:induction false} ParseKeepsContent(ls: seq<Text>, nested: bool)
    ensures var p := Parse(ls, nested);
            PlainLines(ls) == Contents(p.forest) + PlainLines(p.rest)
    decreases |ls|
  {
    if ls != [] {
      if IsOpen(ls[0]) {
        var inner := Parse(ls[1..], true);
        var outer := Parse(inner.rest, nested);
        ParseKeepsContent(ls[1..], true);
        ParseKeepsContent(inner.rest, nested);
        Assoc(Contents(inner.forest), Contents(outer.forest), PlainLines(outer.rest));
        PlainLinesStep(ls);
      } else {
        var tail := Parse(ls[1..], nested);
        ParseKeepsContent(ls[1..], nested);
        PlainLinesStep(ls);
        Assoc([ls[0]], Contents(tail.forest), PlainLines(tail.rest));
      }
    }
  }

  /** Rewinding removes only banners: every plain line of the input is still printed, in
      order, between the banners of the sections that survive. */
  lemma {:induction false} ScanKeepsContent(body: Text)
    ensures var kept := Prune(ParseAll(Split(body)));
            Contents(kept) == PlainLines(Split(body))
    ensures Meaning(ParseAll(Split(body))).body
            == Join(DropLeadingBlanks(Printed(Prune(ParseAll(Split(body))))))
  {
    ParseKeepsContent(Split(body), false);
    PruneKeepsShape(ParseAll(Split(body)));
    BodyIsPrintedLines(ParseAll(Split(body)));
  }

  predicate AllPlain(ls: seq<Text>) {
    forall i | 0 <= i < |ls| :: IsPlain(ls[i]) && SingleLine(ls[i])
  }

  lemma {:induction false} PrintedIsPlain(f: Forest)
    requires Lexed(f) && LineByLine(f)
    ensures AllPlain(Printed(f))
  {
    match f
    case Nil =>
    case Line(_, rest) => PrintedIsPlain(rest);
    case Section(b, _, body, rest) => PrintedIsPlain(body); PrintedIsPlain(rest);
  }

  lemma {:induction false} DropKeepsPlain(ls: seq<Text>)
    requires AllPlain(ls)
    ensures AllPlain(DropLeadingBlanks(ls))
    ensures DropLeadingBlanks(ls) == [] || DropLeadingBlanks(ls)[0] != []
  {
    if ls != [] && ls[0] == [] {
      DropKeepsPlain(ls[1..]);
    }
  }

  lemma {:induction false} PlainTextHasNoSections(ls: seq<Text>)
    requires AllPlain(ls)
    ensures ParseAll(ls) == FromLines(ls) && Prune(FromLines(ls)) == FromLines(ls)
    ensures Printed(FromLines(ls)) == ls
    ensures forall s :: Folds(FromLines(ls), s) == []
  {
    if ls != [] {
      PlainTextHasNoSections(ls[1..]);
    }
  }

  /** Scanning a cleaned body again changes nothing and finds no section. */
  lemma {:induction false} ScanIsIdempotent(body: Text)
    ensures var once := Meaning(ParseAll(Split(body)));
            Meaning(ParseAll(Split(once.body))) == View(once.body, [], [])
  {
    var f := ParseAll(Split(body));
    ParsedLineByLine(Split(body), false);
    PruneKeepsShape(f);
    ParseLexes(Split(body), false);
    PruneLexed(f);
    PrintedIsPlain(Prune(f));
    BodyIsPrintedLines(f);
    var shown := DropLeadingBlanks(Printed(Prune(f)));
    DropKeepsPlain(Printed(Prune(f)));
    PlainBodyIsFixed(shown);
  }

  lemma {:induction false} PlainBodyIsFixed(shown: seq<Text>)
    requires AllPlain(shown) && (shown == [] || shown[0] != [])
    ensures Meaning(ParseAll(Split(Join(shown)))) == View(Join(shown), [], [])
  {
    var ls := if shown == [] then [[]] else shown;
    if shown != [] {
      SplitJoin(shown);
    }
    assert Split(Join(shown)) == ls;
    PlainTextHasNoSections(ls);
    BodyIsPrintedLines(FromLines(ls));
  }

  // ---- Looking a fold up by line ----

  /** `sectionFold`: among the ranges that start at the end of a line, the longest. */
  method SectionFold(ranges: seq<Range>, lineEnd: nat) returns (found: bool, best: Range)
    ensures found <==> exists r :: r in ranges && r.from == lineEnd
    ensures found ==> best in ranges && best.from == lineEnd
    ensures found ==> forall r | r in ranges && r.from == lineEnd :: r.to <= best.to
  {
    found, best := false, Range(0, 0);
    for i := 0 to |ranges|
      invariant found <==> exists k :: 0 <= k < i && ranges[k].from == lineEnd
      invariant found ==> best in ranges && best.from == lineEnd
      invariant found ==> forall k | 0 <= k < i && ranges[k].from == lineEnd :: ranges[k].to <= best.to
    {
      if ranges[i].from == lineEnd && (!found || ranges[i].to > best.to) {
        found, best := true, ranges[i];
      }
    }
  }

  /** Clicking the banner of a section finds that section's range and no other. */
  lemma {:induction false} FoldLookupIsUnambiguous(body: Text, i: nat, j: nat)
    requires var rs := Meaning(ParseAll(Split(body))).foldable;
             i < |rs| && j < |rs| && rs[i].from == rs[j].from
    ensures i == j
  {
    RangesStayValid(body);
    var rs := Meaning(ParseAll(Split(body))).foldable;
    assert rs[i] in rs && rs[j] in rs;
  }
}
