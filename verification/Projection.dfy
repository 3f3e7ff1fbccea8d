/** `project_smt`: the query view and the response view of one SMT transcript. */
module Projection {
  import opened Lists
  import opened CodeUnits
  import opened Sections
  import opened ScannerLaws

  // ---- Rust's `str::lines` ----

  predicate EndsInReturn(l: Text) {
    l != [] && l[|l| - 1] == RETURN
  }

  function Chop(l: Text): Text {
    if EndsInReturn(l) then l[..|l| - 1] else l
  }

  function ChopAll(ls: seq<Text>): seq<Text> {
    if ls == [] then [] else [Chop(ls[0])] + ChopAll(ls[1..])
  }

  /** Lines end at `\n` or `\r\n`; a last line without an ending keeps its `\r`. */
  function RustLines(s: Text): seq<Text> {
    var parts := Split(s);
    var last := parts[|parts| - 1];
    ChopAll(parts[..|parts| - 1]) + if last == [] then [] else [last]
  }

  // ---- The lexer and the loop ----

  const RESPONSE: Text := [0x3B, 0x3B, 0x3E, 0x20, 0x72, 0x65, 0x73, 0x70, 0x6F, 0x6E, 0x73, 0x65, 0x20]

  predicate IsResponse(l: Text) {
    RESPONSE <= l
  }

  predicate IsMarker(l: Text) {
    [SEMICOLON, SEMICOLON, GREATER] <= l || [SEMICOLON, SEMICOLON, LETTER_V] <= l || l == CLOSE
  }

  /** Whether the line after `l` is inside a response block. */
  predicate InBlockAfter(l: Text, inResponse: bool) {
    IsResponse(l) || (inResponse && l != CLOSE)
  }

  /** The opening line, the body and the closing line of a response block belong to it. */
  predicate OfBlock(l: Text, inResponse: bool) {
    IsResponse(l) || inResponse
  }

  /** Whether a view keeps a line. */
  predicate Kept(l: Text, inResponse: bool, keepResponses: bool) {
    if OfBlock(l, inResponse) then keepResponses else !keepResponses || IsMarker(l)
  }

  function Project(ls: seq<Text>, inResponse: bool, keepResponses: bool): seq<Text> {
    if ls == [] then []
    else
      (if Kept(ls[0], inResponse, keepResponses) then [ls[0]] else []) + Project(ls[1..], InBlockAfter(ls[0], inResponse), keepResponses)
  }

  function ProjectText(transcript: Text, keepResponses: bool): Text {
    Terminate(Project(RustLines(transcript), false, keepResponses))
  }

  method ProjectSmt(transcript: Text, keepResponses: bool) returns (out: Text)
    ensures out == ProjectText(transcript, keepResponses)
  {
    out := [];
    var inResponse := false;
    var lines := RustLines(transcript);
    for i := 0 to |lines|
      invariant out + Terminate(Project(lines[i..], inResponse, keepResponses)) == ProjectText(transcript, keepResponses)
    {
      var line := lines[i];
      var isMarker := IsMarker(line);
      ghost var before, was := out, inResponse;
      var push;
      if IsResponse(line) {
        inResponse := true;
        push := keepResponses;
      } else if inResponse && line == CLOSE {
        inResponse := false;
        push := keepResponses;
      } else if inResponse {
        push := keepResponses;
      } else {
        push := !keepResponses || isMarker;
      }
      if push {
        out := out + line + [NEWLINE];
      }
      assert lines[i..][0] == line && lines[i..][1..] == lines[i + 1..];
      PushedLine(before, line, Project(lines[i + 1..], inResponse, keepResponses));
    }
  }

  lemma {:induction false} PushedLine(before: Text, line: Text, rest: seq<Text>)
    ensures before + Terminate([line] + rest) == before + line + [NEWLINE] + Terminate(rest)
    ensures [] + rest == rest
  {
    assert ([line] + rest)[1..] == rest;
    Assoc4(before, line, [NEWLINE], Terminate(rest));
    Assoc(line, [NEWLINE], Terminate(rest));
  }

  // ---- Each line goes to its view ----

  function Plain(ls: seq<Text>): seq<Text> {
    if ls == [] then [] else (if IsMarker(ls[0]) then [] else [ls[0]]) + Plain(ls[1..])
  }

  lemma {:induction false} SubsequenceStep(a: seq<Text>, b: seq<Text>, x: Text)
    requires Subsequence(a, b)
    ensures Subsequence(a, [x] + b) && Subsequence([x] + a, [x] + b)
    decreases |b|
  {
    var xb := [x] + b;
    if b == [] {
      assert xb[..|xb| - 1] == [] && ([x] + a)[..|[x] + a| - 1] == [];
    } else {
      var b' := b[..|b| - 1];
      assert xb[..|xb| - 1] == [x] + b' && xb[|xb| - 1] == b[|b| - 1];
      if a != [] {
        var xa := [x] + a;
        assert xa[..|xa| - 1] == [x] + a[..|a| - 1] && xa[|xa| - 1] == a[|a| - 1];
        if Subsequence(a, b') {
          SubsequenceStep(a, b', x);
        } else {
          SubsequenceStep(a[..|a| - 1], b', x);
        }
      } else {
        SubsequenceStep([], b', x);
      }
    }
  }

  lemma {:induction false} ViewKeepsOrder(ls: seq<Text>, inResponse: bool, keep: bool)
    ensures Subsequence(Project(ls, inResponse, keep), ls)
    decreases |ls|
  {
    if ls != [] {
      var rest := Project(ls[1..], InBlockAfter(ls[0], inResponse), keep);
      ViewKeepsOrder(ls[1..], InBlockAfter(ls[0], inResponse), keep);
      SubsequenceStep(rest, ls[1..], ls[0]);
      assert ls == [ls[0]] + ls[1..] && [] + rest == rest;
    }
  }

  /** How often a line occurs in a text, not counting markers. */
  function Count(ls: seq<Text>, x: Text): nat {
    multiset(Plain(ls))[x]
  }

  lemma {:induction false} CountStep(l: Text, rest: seq<Text>, x: Text)
    ensures Count([l] + rest, x) == (if !IsMarker(l) && l == x then 1 else 0) + Count(rest, x)
    ensures [] + rest == rest
  {
    assert ([l] + rest)[1..] == rest;
  }

  lemma {:induction false} LineGoesOneWay(ls: seq<Text>, inResponse: bool, x: Text)
    ensures Count(ls, x) == Count(Project(ls, inResponse, false), x) + Count(Project(ls, inResponse, true), x)
    decreases |ls|
  {
    if ls != [] {
      var l, rest, next := ls[0], ls[1..], InBlockAfter(ls[0], inResponse);
      LineGoesOneWay(rest, next, x);
      CountStep(l, rest, x);
      CountStep(l, Project(rest, next, false), x);
      CountStep(l, Project(rest, next, true), x);
      assert [l] + rest == ls;
    }
  }

  lemma {:induction false} PlainLinesGoOneWay(ls: seq<Text>, inResponse: bool)
    ensures multiset(Plain(ls))
            == multiset(Plain(Project(ls, inResponse, false))) + multiset(Plain(Project(ls, inResponse, true)))
  {
    var query, response := Project(ls, inResponse, false), Project(ls, inResponse, true);
    forall x ensures Count(ls, x) == Count(query, x) + Count(response, x) { LineGoesOneWay(ls, inResponse, x); }
    assert forall x :: multiset(Plain(ls))[x] == Count(ls, x);
  }

  /** On every transcript: both views keep the order of the lines, and each line that is
      no marker goes to exactly one of them. */
  lemma {:induction false} ViewsSplitTranscript(transcript: Text)
    ensures var ls := RustLines(transcript);
            var query, response := Project(ls, false, false), Project(ls, false, true);
            && Subsequence(query, ls) && Subsequence(response, ls)
            && multiset(Plain(ls)) == multiset(Plain(query)) + multiset(Plain(response))
  {
    var ls := RustLines(transcript);
    ViewKeepsOrder(ls, false, false);
    ViewKeepsOrder(ls, false, true);
    PlainLinesGoOneWay(ls, false);
  }

  // ---- Projecting twice ----

  predicate NoReturns(ls: seq<Text>) {
    forall i | 0 <= i < |ls| :: !EndsInReturn(ls[i])
  }

  lemma {:induction false} SplitTerminated(ls: seq<Text>)
    requires SingleLines(ls)
    ensures Split(Terminate(ls)) == ls + [[]]
  {
    if ls != [] {
      SplitAtNewline(ls[0], Terminate(ls[1..]));
      SplitTerminated(ls[1..]);
    }
  }

  lemma {:induction false} RustLinesTerminated(ls: seq<Text>)
    requires SingleLines(ls)
    ensures RustLines(Terminate(ls)) == ChopAll(ls)
  {
    SplitTerminated(ls);
    assert (ls + [[]])[..|ls|] == ls;
  }

  lemma {:induction false} ChopSingleLines(ls: seq<Text>)
    requires SingleLines(ls)
    ensures SingleLines(ChopAll(ls))
  {
    if ls != [] { ChopSingleLines(ls[1..]); }
  }

  lemma {:induction false} RustLinesAreSingle(s: Text)
    ensures SingleLines(RustLines(s))
  {
    var parts := Split(s);
    ChopSingleLines(parts[..|parts| - 1]);
  }

  lemma {:induction false} ProjectSingleLines(ls: seq<Text>, inResponse: bool, keep: bool)
    requires SingleLines(ls)
    ensures SingleLines(Project(ls, inResponse, keep))
    decreases |ls|
  {
    if ls != [] { ProjectSingleLines(ls[1..], InBlockAfter(ls[0], inResponse), keep); }
  }

  lemma {:induction false} ChopNothing(ls: seq<Text>)
    requires NoReturns(ls)
    ensures ChopAll(ls) == ls
  {
    if ls != [] { ChopNothing(ls[1..]); }
  }

  lemma {:induction false} ChopShortens(ls: seq<Text>)
    ensures |Terminate(ChopAll(ls))| <= |Terminate(ls)|
    ensures !NoReturns(ls) ==> |Terminate(ChopAll(ls))| < |Terminate(ls)|
  {
    if ls != [] {
      ChopShortens(ls[1..]);
      assert ChopAll(ls)[1..] == ChopAll(ls[1..]);
      if NoReturns(ls[1..]) && !EndsInReturn(ls[0]) {
        assert forall i | 1 <= i < |ls| :: ls[i] == ls[1..][i - 1];
      }
    }
  }

  lemma {:induction false} ProjectShortens(ls: seq<Text>, inResponse: bool, keep: bool)
    ensures |Terminate(Project(ls, inResponse, keep))| <= |Terminate(ls)|
    decreases |ls|
  {
    if ls != [] {
      var rest := Project(ls[1..], InBlockAfter(ls[0], inResponse), keep);
      ProjectShortens(ls[1..], InBlockAfter(ls[0], inResponse), keep);
      assert ([ls[0]] + rest)[1..] == rest && [] + rest == rest;
    }
  }

  lemma {:induction false} ProjectKeptLines(ls: seq<Text>, inResponse: bool, keep: bool)
    ensures var kept := Project(ls, inResponse, keep);
            Project(kept, inResponse && keep, keep) == kept
    decreases |ls|
  {
    if ls != [] {
      var rest := Project(ls[1..], InBlockAfter(ls[0], inResponse), keep);
      ProjectKeptLines(ls[1..], InBlockAfter(ls[0], inResponse), keep);
      assert ([ls[0]] + rest)[1..] == rest && [] + rest == rest;
    }
  }

  /** No line of the transcript that the view keeps ends in a carriage return. */
  predicate KeptClean(ls: seq<Text>, inResponse: bool, keep: bool) {
    ls == []
    || (&& (Kept(ls[0], inResponse, keep) ==> !EndsInReturn(ls[0]))
        && KeptClean(ls[1..], InBlockAfter(ls[0], inResponse), keep))
  }

  lemma {:induction false} KeptCleanIsNoReturns(ls: seq<Text>, inResponse: bool, keep: bool)
    ensures KeptClean(ls, inResponse, keep) <==> NoReturns(Project(ls, inResponse, keep))
    decreases |ls|
  {
    if ls != [] {
      var l, rest := ls[0], Project(ls[1..], InBlockAfter(ls[0], inResponse), keep);
      KeptCleanIsNoReturns(ls[1..], InBlockAfter(l, inResponse), keep);
      NoReturnsStep(l, rest);
      assert [] + rest == rest;
    }
  }

  lemma {:induction false} NoReturnsStep(l: Text, rest: seq<Text>)
    ensures NoReturns([l] + rest) <==> !EndsInReturn(l) && NoReturns(rest)
  {
    var ls := [l] + rest;
    assert ls[0] == l && forall i | 0 <= i < |rest| :: ls[i + 1] == rest[i];
  }

  /** A view projects to itself exactly when no line it keeps ends in a carriage return:
      reading the view back drops one from each line end. */
  lemma {:induction false} ProjectionIsIdempotent(transcript: Text, keep: bool)
    ensures var once := ProjectText(transcript, keep);
            ProjectText(once, keep) == once <==> KeptClean(RustLines(transcript), false, keep)
  {
    var kept := Project(RustLines(transcript), false, keep);
    KeptCleanIsNoReturns(RustLines(transcript), false, keep);
    RustLinesAreSingle(transcript);
    ProjectSingleLines(RustLines(transcript), false, keep);
    RustLinesTerminated(kept);
    if NoReturns(kept) {
      ChopNothing(kept);
      ProjectKeptLines(RustLines(transcript), false, keep);
    } else {
      ChopShortens(kept);
      ProjectShortens(ChopAll(kept), false, keep);
    }
  }

  lemma {:induction false} ProjectOneLine(l: Text)
    requires SingleLine(l)
    ensures ProjectText(l + [NEWLINE], false) == if IsResponse(Chop(l)) then [] else Chop(l) + [NEWLINE]
  {
    assert Terminate([l]) == l + [NEWLINE];
    RustLinesTerminated([l]);
    assert ChopAll([l]) == [Chop(l)];
    var none: seq<Text> := [];
    assert Project([Chop(l)], false, false) == (if IsResponse(Chop(l)) then [] else [Chop(l)]) + none;
    assert Terminate([Chop(l)] + none) == Chop(l) + [NEWLINE] && Terminate(none + none) == [];
  }

  /** A line that ends in two carriage returns loses one each time. */
  lemma {:induction false} CarriageReturnsAreNotIdempotent()
    ensures var once := ProjectText([0x61, RETURN, RETURN, NEWLINE], false);
            once == [0x61, RETURN, NEWLINE] && ProjectText(once, false) == [0x61, NEWLINE]
  {
    var a, a', a'' := [0x61, RETURN, RETURN], [0x61, RETURN], [0x61];
    assert Chop(a) == a' && Chop(a') == a'';
    assert a + [NEWLINE] == [0x61, RETURN, RETURN, NEWLINE] && a' + [NEWLINE] == [0x61, RETURN, NEWLINE];
    ProjectOneLine(a);
    ProjectOneLine(a');
  }

  // ---- One view of the other ----

  /** The marker lines that belong to no response block. */
  function OuterMarkers(ls: seq<Text>, inResponse: bool): seq<Text> {
    if ls == [] then []
    else
      (if !OfBlock(ls[0], inResponse) && IsMarker(ls[0]) then [ls[0]] else [])
      + OuterMarkers(ls[1..], InBlockAfter(ls[0], inResponse))
  }

  const CLOSE_RETURN: Text := CLOSE + [RETURN]

  /** Outside the blocks, no marker ends in a carriage return and none becomes a marker
      by losing one. */
  predicate CleanOutside(ls: seq<Text>, inResponse: bool) {
    ls == []
    || (&& (OfBlock(ls[0], inResponse) || (ls[0] != CLOSE_RETURN && !(IsMarker(ls[0]) && EndsInReturn(ls[0]))))
        && CleanOutside(ls[1..], InBlockAfter(ls[0], inResponse)))
  }

  /** Inside a block, a close with a carriage return may only come last or right before
      the opening line of another response. */
  predicate CleanInside(ls: seq<Text>, inResponse: bool) {
    ls == []
    || (&& (inResponse && ls[0] == CLOSE_RETURN && |ls| > 1 ==> IsResponse(ls[1]))
        && CleanInside(ls[1..], InBlockAfter(ls[0], inResponse)))
  }

  function QueryOfResponse(ls: seq<Text>, inResponse: bool, again: bool): seq<Text> {
    Project(ChopAll(Project(ls, inResponse, true)), again, false)
  }

  function ResponseOfQuery(ls: seq<Text>, inResponse: bool): seq<Text> {
    Project(ChopAll(Project(ls, inResponse, false)), false, true)
  }

  lemma {:induction false} ChopKeepsResponse(l: Text)
    ensures IsResponse(Chop(l)) <==> IsResponse(l)
    ensures IsMarker(Chop(l)) <==> IsMarker(l) || l == CLOSE_RETURN
    ensures Chop(l) == CLOSE <==> l == CLOSE || l == CLOSE_RETURN
  {
    if EndsInReturn(l) {
      assert l == Chop(l) + [RETURN];
      assert forall i | 0 <= i < |Chop(l)| :: Chop(l)[i] == l[i];
      if IsResponse(l) { assert l[..|RESPONSE|] == RESPONSE && l[12] == SPACE; }
      if |l| == 3 && l[2] == RETURN { assert l[..2] == Chop(l); }
    }
  }

  lemma {:induction false} ReadAgain(l: Text, rest: seq<Text>)
    ensures ChopAll([l] + rest) == [Chop(l)] + ChopAll(rest)
    ensures [] + rest == rest
    ensures ([Chop(l)] + ChopAll(rest))[1..] == ChopAll(rest)
  {
    assert ([l] + rest)[1..] == rest;
  }

  lemma {:induction false} ResponseOfQueryIsOuter(ls: seq<Text>, inResponse: bool)
    ensures |ResponseOfQuery(ls, inResponse)| >= |OuterMarkers(ls, inResponse)|
    ensures ResponseOfQuery(ls, inResponse) == OuterMarkers(ls, inResponse) <==> CleanOutside(ls, inResponse)
    decreases |ls|
  {
    if ls != [] {
      var l, next := ls[0], InBlockAfter(ls[0], inResponse);
      ResponseOfQueryIsOuter(ls[1..], next);
      ReadAgain(l, Project(ls[1..], next, false));
      ChopKeepsResponse(l);
      var both, outer := ResponseOfQuery(ls[1..], next), OuterMarkers(ls[1..], next);
      if OfBlock(l, inResponse) {
        assert ResponseOfQuery(ls, inResponse) == both && OuterMarkers(ls, inResponse) == outer;
      } else if IsMarker(l) {
        assert ResponseOfQuery(ls, inResponse) == [Chop(l)] + both && OuterMarkers(ls, inResponse) == [l] + outer;
        assert ([Chop(l)] + both)[1..] == both && ([l] + outer)[1..] == outer;
        assert ([Chop(l)] + both)[0] == Chop(l) && ([l] + outer)[0] == l;
      } else if l == CLOSE_RETURN {
        assert ResponseOfQuery(ls, inResponse) == [CLOSE] + both && OuterMarkers(ls, inResponse) == outer;
      } else {
        assert ResponseOfQuery(ls, inResponse) == both && OuterMarkers(ls, inResponse) == outer;
      }
    }
  }

  lemma {:induction false} QueryOfResponseStep(ls: seq<Text>, inResponse: bool, again: bool)
    requires ls != [] && (again ==> inResponse)
    ensures var c := Chop(ls[0]);
            var emitted := if (OfBlock(ls[0], inResponse) || IsMarker(ls[0])) && !OfBlock(c, again) then [c] else [];
            QueryOfResponse(ls, inResponse, again)
            == emitted + QueryOfResponse(ls[1..], InBlockAfter(ls[0], inResponse), InBlockAfter(c, again))
  {
    var l, rest := ls[0], Project(ls[1..], InBlockAfter(ls[0], inResponse), true);
    ReadAgain(l, rest);
    ChopKeepsResponse(l);
    if OfBlock(l, inResponse) || IsMarker(l) {
      assert Project(ls, inResponse, true) == [l] + rest;
    } else {
      assert Project(ls, inResponse, true) == rest;
    }
  }

  /** Reading the response view back, the blocks stay in step with the first reading
      unless a close appears where there was none. */
  lemma {:induction false} QueryOfResponseIsOuter(ls: seq<Text>, inResponse: bool, again: bool)
    requires again ==> inResponse
    ensures var both, outer := QueryOfResponse(ls, inResponse, again), OuterMarkers(ls, inResponse);
            if again == inResponse || ls == [] || IsResponse(ls[0]) then
              && |both| >= |outer|
              && (|both| == |outer| <==> CleanInside(ls, inResponse))
              && (CleanInside(ls, inResponse) && CleanOutside(ls, inResponse) ==> both == outer)
            else |both| > |outer|
    decreases |ls|
  {
    if ls != [] {
      var l, next := ls[0], InBlockAfter(ls[0], inResponse);
      var c := Chop(l);
      QueryOfResponseStep(ls, inResponse, again);
      ChopKeepsResponse(l);
      QueryOfResponseIsOuter(ls[1..], next, InBlockAfter(c, again));
    }
  }

  lemma {:induction false} ProjectTextAgain(transcript: Text, keep: bool)
    ensures var kept := Project(RustLines(transcript), false, keep);
            && SingleLines(kept)
            && forall keep' :: ProjectText(ProjectText(transcript, keep), keep')
                               == Terminate(Project(ChopAll(kept), false, keep'))
  {
    var kept := Project(RustLines(transcript), false, keep);
    RustLinesAreSingle(transcript);
    ProjectSingleLines(RustLines(transcript), false, keep);
    RustLinesTerminated(kept);
  }

  lemma {:induction false} OuterSingleLines(ls: seq<Text>, inResponse: bool)
    requires SingleLines(ls)
    ensures SingleLines(OuterMarkers(ls, inResponse))
    decreases |ls|
  {
    if ls != [] { OuterSingleLines(ls[1..], InBlockAfter(ls[0], inResponse)); }
  }

  lemma {:induction false} TerminateIsInjective(a: seq<Text>, b: seq<Text>)
    requires SingleLines(a) && SingleLines(b) && Terminate(a) == Terminate(b)
    ensures a == b
  {
    SplitTerminated(a);
    SplitTerminated(b);
    assert (a + [[]])[..|a|] == a && (b + [[]])[..|b|] == b;
  }

  /** Both orders of the two projections leave the marker lines outside the response blocks
      exactly when no carriage return sits where it could be read as part of a marker. */
  lemma {:induction false} BothOrdersLeaveOuterMarkers(transcript: Text)
    ensures var ls := RustLines(transcript);
            var outer := Terminate(OuterMarkers(ls, false));
            (&& ProjectText(ProjectText(transcript, true), false) == outer
             && ProjectText(ProjectText(transcript, false), true) == outer)
            <==> CleanOutside(ls, false) && CleanInside(ls, false)
  {
    var ls := RustLines(transcript);
    RustLinesAreSingle(transcript);
    ProjectTextAgain(transcript, true);
    ProjectTextAgain(transcript, false);
    ResponseOfQueryIsOuter(ls, false);
    QueryOfResponseIsOuter(ls, false, false);
    OuterSingleLines(ls, false);
    forall keep { TwiceSingle(ls, keep); }
    var outer := OuterMarkers(ls, false);
    var qr, rq := QueryOfResponse(ls, false, false), ResponseOfQuery(ls, false);
    if Terminate(qr) == Terminate(outer) { TerminateIsInjective(qr, outer); }
    if Terminate(rq) == Terminate(outer) { TerminateIsInjective(rq, outer); }
  }

  // ---- Do the two orders agree? ----

  /** The lines outside the blocks that become a close by losing a carriage return. */
  function LateCloses(ls: seq<Text>, inResponse: bool): nat {
    if ls == [] then 0
    else
      (if !OfBlock(ls[0], inResponse) && ls[0] == CLOSE_RETURN then 1 else 0)
      + LateCloses(ls[1..], InBlockAfter(ls[0], inResponse))
  }

  /** The lines of the blocks that fall out of them when the response view is read back:
      `again` says whether the second reading is in a block. */
  function Strays(ls: seq<Text>, inResponse: bool, again: bool): nat {
    if ls == [] then 0
    else
      (if OfBlock(ls[0], inResponse) && !OfBlock(Chop(ls[0]), again) then 1 else 0)
      + Strays(ls[1..], InBlockAfter(ls[0], inResponse), InBlockAfter(Chop(ls[0]), again))
  }

  lemma {:induction false} CloseReturnIsPlain()
    ensures !IsMarker(CLOSE_RETURN) && !IsResponse(CLOSE_RETURN) && !IsResponse(CLOSE) && IsMarker(CLOSE)
    ensures Chop(CLOSE_RETURN) == CLOSE
  {
    var l := CLOSE_RETURN;
    assert l[2] == LESS && l[..3] == CLOSE;
  }

  lemma {:induction false} ResponseOfQueryLength(ls: seq<Text>, inResponse: bool)
    ensures |ResponseOfQuery(ls, inResponse)| == |OuterMarkers(ls, inResponse)| + LateCloses(ls, inResponse)
    ensures LateCloses(ls, inResponse) == 0 ==> ResponseOfQuery(ls, inResponse) == ChopAll(OuterMarkers(ls, inResponse))
    decreases |ls|
  {
    if ls != [] {
      var l, next := ls[0], InBlockAfter(ls[0], inResponse);
      ResponseOfQueryLength(ls[1..], next);
      ReadAgain(l, Project(ls[1..], next, false));
      ReadAgain(l, OuterMarkers(ls[1..], next));
      ChopKeepsResponse(l);
      CloseReturnIsPlain();
    }
  }

  lemma {:induction false} QueryOfResponseLength(ls: seq<Text>, inResponse: bool, again: bool)
    requires again ==> inResponse
    ensures |QueryOfResponse(ls, inResponse, again)| == |OuterMarkers(ls, inResponse)| + Strays(ls, inResponse, again)
    ensures Strays(ls, inResponse, again) == 0 ==> QueryOfResponse(ls, inResponse, again) == ChopAll(OuterMarkers(ls, inResponse))
    decreases |ls|
  {
    if ls != [] {
      var l, next := ls[0], InBlockAfter(ls[0], inResponse);
      QueryOfResponseStep(ls, inResponse, again);
      ChopKeepsResponse(l);
      QueryOfResponseLength(ls[1..], next, InBlockAfter(Chop(l), again));
      ReadAgain(l, OuterMarkers(ls[1..], next));
    }
  }

  /** The two orders differ whenever late closes and strays differ in number; if there are
      none of either, both orders leave the outer markers, each less a carriage return. */
  lemma {:induction false} OrdersByCount(transcript: Text)
    ensures var ls := RustLines(transcript);
            var late, stray := LateCloses(ls, false), Strays(ls, false, false);
            var query, response := ProjectText(ProjectText(transcript, true), false), ProjectText(ProjectText(transcript, false), true);
            && (query == response ==> late == stray)
            && (late == 0 && stray == 0 ==> query == Terminate(ChopAll(OuterMarkers(ls, false))))
  {
    var ls := RustLines(transcript);
    RustLinesAreSingle(transcript);
    ProjectTextAgain(transcript, true);
    ProjectTextAgain(transcript, false);
    ResponseOfQueryLength(ls, false);
    QueryOfResponseLength(ls, false, false);
    forall keep { TwiceSingle(ls, keep); }
    var qr, rq := QueryOfResponse(ls, false, false), ResponseOfQuery(ls, false);
    if Terminate(qr) == Terminate(rq) { TerminateIsInjective(qr, rq); }
  }

  /** One pass over the lines, with the number of closes by which the query of the response is
      ahead of the response of the query: a close that strays from its block puts it one
      ahead, one that comes late one behind, nothing else may stray, and where both show a
      line that is no close, and at the end, they are level. */
  predicate Agree(ls: seq<Text>, inResponse: bool, again: bool, ahead: int)
    decreases |ls|
  {
    if ls == [] then ahead == 0
    else
      var c := Chop(ls[0]);
      var next, next' := InBlockAfter(ls[0], inResponse), InBlockAfter(c, again);
      if OfBlock(ls[0], inResponse) then
        if OfBlock(c, again) then Agree(ls[1..], next, next', ahead)
        else c == CLOSE && Agree(ls[1..], next, next', ahead + 1)
      else if IsMarker(ls[0]) then (ahead == 0 || c == CLOSE) && Agree(ls[1..], next, next', ahead)
      else if ls[0] == CLOSE_RETURN then Agree(ls[1..], next, next', ahead - 1)
      else Agree(ls[1..], next, next', ahead)
  }

  function Closes(n: nat): seq<Text> {
    if n == 0 then [] else [CLOSE] + Closes(n - 1)
  }

  /** `q`, behind so many more closes than `r`, is the same as `r`. */
  predicate InStep(q: seq<Text>, r: seq<Text>, ahead: int) {
    if ahead >= 0 then Closes(ahead) + q == r else q == Closes(-ahead) + r
  }

  lemma {:induction false} ClosesBehind(n: nat, q: seq<Text>)
    ensures Closes(n) + ([CLOSE] + q) == Closes(n + 1) + q
    ensures [] + q == q
  {
    if n > 0 {
      ClosesBehind(n - 1, q);
      Assoc([CLOSE], Closes(n - 1), [CLOSE] + q);
      Assoc([CLOSE], Closes(n), q);
    } else {
      assert Closes(1) == [CLOSE];
    }
  }

  lemma {:induction false} SameHead(c: Text, q: seq<Text>, r: seq<Text>)
    ensures [c] + q == [c] + r <==> q == r
  {
    assert ([c] + q)[1..] == q && ([c] + r)[1..] == r;
  }

  /** A close that only the one order shows puts it one ahead. */
  lemma {:induction false} StrayClose(q: seq<Text>, r: seq<Text>, ahead: int)
    ensures InStep([CLOSE] + q, r, ahead) <==> InStep(q, r, ahead + 1)
  {
    if ahead >= 0 {
      ClosesBehind(ahead, q);
    } else {
      ClosesBehind(0, r);
      Assoc([CLOSE], Closes(-ahead - 1), r);
      SameHead(CLOSE, q, Closes(-ahead - 1) + r);
    }
  }

  lemma {:induction false} InStepSwap(q: seq<Text>, r: seq<Text>, ahead: int)
    ensures InStep(q, r, ahead) <==> InStep(r, q, -ahead)
  {
    ClosesBehind(0, q);
    ClosesBehind(0, r);
  }

  lemma {:induction false} LateClose(q: seq<Text>, r: seq<Text>, ahead: int)
    ensures InStep(q, [CLOSE] + r, ahead) <==> InStep(q, r, ahead - 1)
  {
    InStepSwap(q, [CLOSE] + r, ahead);
    StrayClose(r, q, -ahead);
    InStepSwap(q, r, ahead - 1);
  }

  /** A line that both orders show: unless they are level, it must be a close. */
  lemma {:induction false} CommonLine(c: Text, q: seq<Text>, r: seq<Text>, ahead: int)
    ensures InStep([c] + q, [c] + r, ahead) <==> (ahead == 0 || c == CLOSE) && InStep(q, r, ahead)
  {
    if ahead == 0 {
      ClosesBehind(0, q);
      ClosesBehind(0, [c] + q);
      SameHead(c, q, r);
    } else if c == CLOSE {
      StrayClose(q, [CLOSE] + r, ahead);
      LateClose(q, r, ahead + 1);
    } else {
      OtherHead(ahead, c, q, r);
      OtherHead(-ahead, c, r, q);
    }
  }

  lemma {:induction false} OtherHead(n: int, c: Text, q: seq<Text>, r: seq<Text>)
    requires c != CLOSE
    ensures n > 0 ==> Closes(n) + ([c] + q) != [c] + r
  {
    if n > 0 { assert (Closes(n) + ([c] + q))[0] == CLOSE && ([c] + r)[0] == c; }
  }

  /** How many lines are no closes. */
  function Others(ls: seq<Text>): nat {
    if ls == [] then 0 else (if ls[0] == CLOSE then 0 else 1) + Others(ls[1..])
  }

  lemma {:induction false} OthersStep(c: Text, ls: seq<Text>)
    ensures Others([c] + ls) == (if c == CLOSE then 0 else 1) + Others(ls)
    ensures [] + ls == ls
  {
    assert ([c] + ls)[1..] == ls;
  }

  lemma {:induction false} OthersBehind(n: nat, q: seq<Text>)
    ensures Others(Closes(n) + q) == Others(q)
  {
    if n == 0 {
      ClosesBehind(0, q);
    } else {
      OthersBehind(n - 1, q);
      Assoc([CLOSE], Closes(n - 1), q);
      OthersStep(CLOSE, Closes(n - 1) + q);
    }
  }

  lemma {:induction false} StrayOther(c: Text, q: seq<Text>, r: seq<Text>, ahead: int)
    requires c != CLOSE && Others(q) >= Others(r)
    ensures !InStep([c] + q, r, ahead)
  {
    OthersStep(c, q);
    if ahead >= 0 { OthersBehind(ahead, [c] + q); } else { OthersBehind(-ahead, r); }
  }

  /** What the two orders show of a line. */
  lemma {:induction false} ShownOnce(ls: seq<Text>, inResponse: bool, again: bool)
    requires ls != [] && (again ==> inResponse)
    ensures var l, c := ls[0], Chop(ls[0]);
            var next, next' := InBlockAfter(l, inResponse), InBlockAfter(c, again);
            var q, r := QueryOfResponse(ls[1..], next, next'), ResponseOfQuery(ls[1..], next);
            && (next' ==> next)
            && QueryOfResponse(ls, inResponse, again)
               == (if (OfBlock(l, inResponse) || IsMarker(l)) && !OfBlock(c, again) then [c] + q else q)
            && ResponseOfQuery(ls, inResponse)
               == (if !OfBlock(l, inResponse) && (IsMarker(l) || l == CLOSE_RETURN) then [c] + r else r)
            && (IsMarker(l) && !OfBlock(l, inResponse) ==> !OfBlock(c, again))
  {
    var l, next := ls[0], InBlockAfter(ls[0], inResponse);
    QueryOfResponseStep(ls, inResponse, again);
    ReadAgain(l, Project(ls[1..], next, false));
    ChopKeepsResponse(l);
    OthersStep(l, QueryOfResponse(ls[1..], next, InBlockAfter(Chop(l), again)));
    OthersStep(l, ResponseOfQuery(ls[1..], next));
  }

  /** Besides closes, the query of the response shows at least as much. */
  lemma {:induction false} MoreOthers(ls: seq<Text>, inResponse: bool, again: bool)
    requires again ==> inResponse
    ensures Others(QueryOfResponse(ls, inResponse, again)) >= Others(ResponseOfQuery(ls, inResponse))
    decreases |ls|
  {
    if ls != [] {
      var c := Chop(ls[0]);
      var next, next' := InBlockAfter(ls[0], inResponse), InBlockAfter(c, again);
      ShownOnce(ls, inResponse, again);
      MoreOthers(ls[1..], next, next');
      OthersStep(c, QueryOfResponse(ls[1..], next, next'));
      OthersStep(c, ResponseOfQuery(ls[1..], next));
      CloseReturnIsPlain();
    }
  }

  lemma {:induction false} AgreeIsInStep(ls: seq<Text>, inResponse: bool, again: bool, ahead: int)
    requires again ==> inResponse
    ensures InStep(QueryOfResponse(ls, inResponse, again), ResponseOfQuery(ls, inResponse), ahead) <==> Agree(ls, inResponse, again, ahead)
    decreases |ls|
  {
    if ls == [] {
      AheadOfNothing(ahead);
    } else {
      var c := Chop(ls[0]);
      var next, next' := InBlockAfter(ls[0], inResponse), InBlockAfter(c, again);
      var q, r := QueryOfResponse(ls[1..], next, next'), ResponseOfQuery(ls[1..], next);
      ShownOnce(ls, inResponse, again);
      if OfBlock(ls[0], inResponse) && !OfBlock(c, again) {
        if c == CLOSE {
          StrayClose(q, r, ahead);
          AgreeIsInStep(ls[1..], next, next', ahead + 1);
        } else {
          MoreOthers(ls[1..], next, next');
          StrayOther(c, q, r, ahead);
        }
      } else if !OfBlock(ls[0], inResponse) && ls[0] == CLOSE_RETURN {
        CloseReturnIsPlain();
        LateClose(q, r, ahead);
        AgreeIsInStep(ls[1..], next, next', ahead - 1);
      } else {
        CommonLine(c, q, r, ahead);
        AgreeIsInStep(ls[1..], next, next', ahead);
      }
    }
  }

  lemma {:induction false} AheadOfNothing(ahead: int)
    ensures InStep([], [], ahead) <==> ahead == 0
  {
    if ahead > 0 { assert |Closes(ahead) + []| > 0; }
    if ahead < 0 { assert |Closes(-ahead) + []| > 0; }
  }

  /** The two projections commute on a transcript exactly if its lines agree in this sense. */
  lemma {:induction false} ProjectionsCommute(transcript: Text)
    ensures ProjectText(ProjectText(transcript, true), false) == ProjectText(ProjectText(transcript, false), true)
            <==> Agree(RustLines(transcript), false, false, 0)
  {
    var ls := RustLines(transcript);
    RustLinesAreSingle(transcript);
    ProjectTextAgain(transcript, true);
    ProjectTextAgain(transcript, false);
    AgreeIsInStep(ls, false, false, 0);
    forall keep { TwiceSingle(ls, keep); }
    var qr, rq := QueryOfResponse(ls, false, false), ResponseOfQuery(ls, false);
    ClosesBehind(0, qr);
    if Terminate(qr) == Terminate(rq) { TerminateIsInjective(qr, rq); }
  }

  /** The two readings of a transcript given by its lines, each of which loses a carriage
      return at the first reading. */
  lemma {:induction false} TwiceOnLines(ls: seq<Text>)
    requires SingleLines(ls)
    ensures ProjectText(ProjectText(Terminate(ls), true), false) == Terminate(QueryOfResponse(ChopAll(ls), false, false))
    ensures ProjectText(ProjectText(Terminate(ls), false), true) == Terminate(ResponseOfQuery(ChopAll(ls), false))
  {
    RustLinesTerminated(ls);
    ProjectTextAgain(Terminate(ls), true);
    ProjectTextAgain(Terminate(ls), false);
  }

  /** A close with two carriage returns is lost in one order and shown in the other. */
  lemma {:induction false} ProjectionsDoNotCommute()
    ensures ProjectText(ProjectText(CLOSE + [RETURN, RETURN, NEWLINE], true), false) == []
    ensures ProjectText(ProjectText(CLOSE + [RETURN, RETURN, NEWLINE], false), true) == CLOSE + [NEWLINE]
  {
    var l := CLOSE + [RETURN, RETURN];
    assert EndsInReturn(l) && l[..|l| - 1] == CLOSE_RETURN;
    assert l + [NEWLINE] == CLOSE + [RETURN, RETURN, NEWLINE];
    OneLine(l);
    OneLine(CLOSE);
    TwiceOnLines([l]);
    LoneCloseReturn();
  }

  lemma {:induction false} OneLine(l: Text)
    ensures Terminate([l]) == l + [NEWLINE] && ChopAll([l]) == [Chop(l)]
    ensures Terminate([]) == []
  {
  }

  lemma {:induction false} LoneCloseReturn()
    ensures QueryOfResponse([CLOSE_RETURN], false, false) == [] && ResponseOfQuery([CLOSE_RETURN], false) == [CLOSE]
  {
    var none: seq<Text> := [];
    CloseReturnIsPlain();
    assert Project([CLOSE_RETURN], false, true) == [] + none;
    assert Project([CLOSE_RETURN], false, false) == [CLOSE_RETURN] + none;
    assert ChopAll([CLOSE_RETURN]) == [CLOSE];
    assert Project([CLOSE], false, true) == [CLOSE] + none;
  }

  lemma {:induction false} TwiceSingle(ls: seq<Text>, keep: bool)
    requires SingleLines(ls)
    ensures SingleLines(Project(ChopAll(Project(ls, false, keep)), false, !keep))
  {
    ProjectSingleLines(ls, false, keep);
    ChopSingleLines(Project(ls, false, keep));
    ProjectSingleLines(ChopAll(Project(ls, false, keep)), false, !keep);
  }

  /** A transcript without carriage returns is fine in all these respects. */
  lemma {:induction false} NoReturnsIsClean(ls: seq<Text>, inResponse: bool)
    requires NoReturns(ls)
    ensures CleanOutside(ls, inResponse) && CleanInside(ls, inResponse)
    ensures forall keep :: KeptClean(ls, inResponse, keep)
    decreases |ls|
  {
    if ls != [] {
      assert EndsInReturn(CLOSE_RETURN);
      NoReturnsIsClean(ls[1..], InBlockAfter(ls[0], inResponse));
    }
  }

  lemma {:induction false} NoReturnsAgree(ls: seq<Text>, inResponse: bool)
    requires NoReturns(ls)
    ensures LateCloses(ls, inResponse) == 0 && Strays(ls, inResponse, inResponse) == 0
    ensures Agree(ls, inResponse, inResponse, 0)
    decreases |ls|
  {
    if ls != [] {
      assert EndsInReturn(CLOSE_RETURN);
      NoReturnsAgree(ls[1..], InBlockAfter(ls[0], inResponse));
    }
  }

  // ---- Concatenation ----

  lemma {:induction false} ProjectCons(l: Text, rest: seq<Text>, inResponse: bool, keep: bool)
    ensures Project([l] + rest, inResponse, keep)
            == (if Kept(l, inResponse, keep) then [l] else []) + Project(rest, InBlockAfter(l, inResponse), keep)
    ensures [] + rest == rest
  {
    assert ([l] + rest)[1..] == rest;
  }

  lemma {:induction false} ResponseIsMarker(l: Text)
    ensures IsResponse(l) ==> IsMarker(l)
  {
    if IsResponse(l) {
      assert l[..|RESPONSE|][..3] == l[..3];
      assert RESPONSE[..3] == [SEMICOLON, SEMICOLON, GREATER];
    }
  }

  /** Whether the line after `ls` is inside a response block. */
  predicate InBlockBehind(ls: seq<Text>, inResponse: bool) {
    if ls == [] then inResponse else InBlockBehind(ls[1..], InBlockAfter(ls[0], inResponse))
  }

  lemma {:induction false} ProjectConcat(a: seq<Text>, b: seq<Text>, inResponse: bool, keep: bool)
    ensures Project(a + b, inResponse, keep) == Project(a, inResponse, keep) + Project(b, InBlockBehind(a, inResponse), keep)
    decreases |a|
  {
    if a == [] {
      assert a + b == b;
    } else {
      var next := InBlockAfter(a[0], inResponse);
      var own := if Kept(a[0], inResponse, keep) then [a[0]] else [];
      ProjectConcat(a[1..], b, next, keep);
      Assoc([a[0]], a[1..], b);
      assert [a[0]] + a[1..] == a;
      ProjectCons(a[0], a[1..] + b, inResponse, keep);
      Assoc(own, Project(a[1..], next, keep), Project(b, InBlockBehind(a[1..], next), keep));
    }
  }

  // ---- The views, spelled out ----

  /** A piece of a transcript: a command, a marker line that opens no response, or a response
      with its label and its lines. */
  datatype Item = CommandItem(line: Text) | MarkerItem(line: Text) | ResponseItem(tag: Text, body: seq<Text>)

  predicate OpensResponse(l: Text) {
    Ascii(";;> response ") <= l
  }

  predicate LooksMarked(l: Text) {
    Ascii(";;>") <= l || Ascii(";;v") <= l || l == Ascii(";;<")
  }

  predicate GoodItem(item: Item) {
    match item
    case CommandItem(l) => !LooksMarked(l)
    case MarkerItem(l) => LooksMarked(l) && !OpensResponse(l)
    case ResponseItem(_, body) => forall i | 0 <= i < |body| :: body[i] != Ascii(";;<") && !OpensResponse(body[i])
  }

  function ItemLines(item: Item): seq<Text> {
    match item
    case CommandItem(l) => [l]
    case MarkerItem(l) => [l]
    case ResponseItem(tag, body) => [Ascii(";;> response ") + tag] + body + [Ascii(";;<")]
  }

  function AllLines(items: seq<Item>): seq<Text> {
    if items == [] then [] else ItemLines(items[0]) + AllLines(items[1..])
  }

  /** The query view has the commands and the markers. */
  function QueryViewLines(items: seq<Item>): seq<Text> {
    if items == [] then [] else (if items[0].ResponseItem? then [] else ItemLines(items[0])) + QueryViewLines(items[1..])
  }

  /** The response view has the responses and the markers. */
  function ResponseViewLines(items: seq<Item>): seq<Text> {
    if items == [] then [] else (if items[0].CommandItem? then [] else ItemLines(items[0])) + ResponseViewLines(items[1..])
  }

  lemma {:induction false} MarkersAreRead(l: Text)
    ensures IsResponse(l) <==> OpensResponse(l)
    ensures IsMarker(l) <==> LooksMarked(l)
    ensures CLOSE == Ascii(";;<") && !OpensResponse(CLOSE)
  {
    var spelled := Ascii(";;> response ");
    assert spelled == RESPONSE;
    assert Ascii(";;>") == [0x3B, 0x3B, 0x3E] && Ascii(";;v") == [0x3B, 0x3B, 0x76] && Ascii(";;<") == [0x3B, 0x3B, 0x3C];
  }

  lemma {:induction false} ProjectPlainBlock(body: seq<Text>, rest: seq<Text>, keep: bool)
    requires forall i | 0 <= i < |body| :: body[i] != CLOSE && !IsResponse(body[i])
    ensures Project(body + ([CLOSE] + rest), true, keep)
            == (if keep then body + [CLOSE] else []) + Project(rest, false, keep)
  {
    var later := Project(rest, false, keep);
    MarkersAreRead(CLOSE);
    if body == [] {
      assert body + ([CLOSE] + rest) == [CLOSE] + rest && [] + [CLOSE] == [CLOSE];
      ProjectCons(CLOSE, rest, true, keep);
    } else {
      var l, tail := body[0], body[1..];
      assert [l] + tail == body;
      ProjectPlainBlock(tail, rest, keep);
      Assoc([l], tail, [CLOSE] + rest);
      ProjectCons(l, tail + ([CLOSE] + rest), true, keep);
      Assoc([l], tail, [CLOSE]);
      Assoc([l], tail + [CLOSE], later);
    }
  }

  lemma {:induction false} ProjectItem(item: Item, rest: seq<Text>, keep: bool)
    requires GoodItem(item)
    ensures Project(ItemLines(item) + rest, false, keep)
            == (if (if keep then item.CommandItem? else item.ResponseItem?) then [] else ItemLines(item)) + Project(rest, false, keep)
  {
    match item
    case CommandItem(l) =>
      MarkersAreRead(l);
      ResponseIsMarker(l);
      ProjectCons(l, rest, false, keep);
    case MarkerItem(l) =>
      MarkersAreRead(l);
      ProjectCons(l, rest, false, keep);
    case ResponseItem(tag, body) =>
      ProjectResponse(tag, body, rest, keep);
  }

  lemma {:induction false} ProjectResponse(tag: Text, body: seq<Text>, rest: seq<Text>, keep: bool)
    requires GoodItem(ResponseItem(tag, body))
    ensures Project(ItemLines(ResponseItem(tag, body)) + rest, false, keep)
            == (if keep then ItemLines(ResponseItem(tag, body)) else []) + Project(rest, false, keep)
  {
    var b := Ascii(";;> response ") + tag;
    forall i | 0 <= i < |body| ensures body[i] != CLOSE && !IsResponse(body[i]) { MarkersAreRead(body[i]); }
    MarkersAreRead(b);
    MarkersAreRead(CLOSE);
    ProjectPlainBlock(body, rest, keep);
    var tail := body + ([CLOSE] + rest);
    Assoc4([b], body, [CLOSE], rest);
    ProjectCons(b, tail, false, keep);
    Assoc([b], body, [CLOSE]);
    Assoc([b], body + [CLOSE], Project(rest, false, keep));
  }

  lemma {:induction false} ProjectItems(items: seq<Item>)
    requires forall i | 0 <= i < |items| :: GoodItem(items[i])
    ensures Project(AllLines(items), false, false) == QueryViewLines(items)
    ensures Project(AllLines(items), false, true) == ResponseViewLines(items)
  {
    if items != [] {
      ProjectItems(items[1..]);
      ProjectItem(items[0], AllLines(items[1..]), false);
      ProjectItem(items[0], AllLines(items[1..]), true);
    }
  }

  /** The projections of a transcript of such pieces, as texts: the query view is the text of
      the commands and markers, the response view that of the responses and markers. */
  lemma {:induction false} ViewsAreSpelled(items: seq<Item>)
    requires forall i | 0 <= i < |items| :: GoodItem(items[i])
    requires SingleLines(AllLines(items)) && NoReturns(AllLines(items))
    ensures ProjectText(Terminate(AllLines(items)), false) == Terminate(QueryViewLines(items))
    ensures ProjectText(Terminate(AllLines(items)), true) == Terminate(ResponseViewLines(items))
  {
    RustLinesTerminated(AllLines(items));
    ChopNothing(AllLines(items));
    ProjectItems(items);
  }

  lemma {:induction false} RustLinesAreSpelled(l: Text, s: Text)
    requires SingleLine(l)
    ensures RustLines(l + Ascii("\n") + s)
            == [if l != [] && l[|l| - 1] as int == '\r' as int then l[..|l| - 1] else l] + RustLines(s)
    ensures RustLines(l) == if l == [] then [] else [l]
  {
    UnitsAreSpelled();
    SplitAtNewline(l, s);
    SplitSingleLine(l);
    var parts, rest := Split(l + [NEWLINE] + s), Split(s);
    assert parts == [l] + rest;
    assert parts[..|parts| - 1] == [l] + rest[..|rest| - 1] && parts[|parts| - 1] == rest[|rest| - 1];
    assert ([l] + rest[..|rest| - 1])[1..] == rest[..|rest| - 1];
    var last := rest[|rest| - 1];
    Assoc([Chop(l)], ChopAll(rest[..|rest| - 1]), if last == [] then [] else [last]);
  }
}
