/** Logs that stop early. The solver's log can lose its last lines, closes above all, because
    nothing flushes them: what its projections are then, and what the browser shows. */
module CutLogs {
  import opened Lists
  import opened CodeUnits
  import opened Sections
  import opened Emission
  import opened Projection
  import opened Transcript
  import opened Crates

  // ---- Forests that stop early ----

  /** The first `k` lines of a forest, as a forest. */
  function Cut(f: Forest, k: nat): Forest {
    if k == 0 then Nil
    else
      match f
      case Nil => Nil
      case Line(l, rest) => Line(l, Cut(rest, k - 1))
      case Section(b, closed, body, rest) =>
        var n := |Marked(body)|;
        if k - 1 <= n then Section(b, false, Cut(body, k - 1), Nil)
        else Section(b, closed, body, Cut(rest, k - 2 - n))
  }

  lemma {:induction false} CutIsPrefix(f: Forest, k: nat)
    requires Balanced(f) && k <= |Marked(f)|
    ensures OpenEnded(Cut(f, k)) && Marked(Cut(f, k)) == Marked(f)[..k]
    decreases f
  {
    if k > 0 {
      match f
      case Line(l, rest) =>
        CutIsPrefix(rest, k - 1);
        PrefixOfSum([l], Marked(rest), k);
      case Section(b, _, body, rest) =>
        var n := |Marked(body)|;
        if k - 1 <= n {
          CutIsPrefix(body, k - 1);
          PrefixInSection(b, Marked(body), Marked(rest), k);
          OpenTail(b, Marked(Cut(body, k - 1)));
        } else {
          CutIsPrefix(rest, k - 2 - n);
          PrefixOfSum([b] + Marked(body) + [CLOSE], Marked(rest), k);
        }
    }
  }

  lemma {:induction false} PrefixInSection(b: Text, body: seq<Text>, rest: seq<Text>, k: nat)
    requires 1 <= k <= |body| + 1
    ensures ([b] + body + [CLOSE] + rest)[..k] == [b] + body[..k - 1]
  {
    Assoc([b] + body, [CLOSE], rest);
    PrefixOfFirst([b] + body, [CLOSE] + rest, k);
    PrefixOfSum([b], body, k);
  }

  lemma {:induction false} PrefixOfSum(a: seq<Text>, b: seq<Text>, k: nat)
    requires |a| <= k <= |a + b|
    ensures (a + b)[..k] == a + b[..k - |a|]
  {
  }

  lemma {:induction false} PrefixOfFirst(a: seq<Text>, b: seq<Text>, k: nat)
    requires k <= |a|
    ensures (a + b)[..k] == a[..k]
  {
  }

  /** What follows a forest that stops early is inside its innermost open section. */
  function Under(f: Forest, g: Forest): Forest {
    match f
    case Nil => g
    case Line(l, rest) => Line(l, Under(rest, g))
    case Section(b, closed, body, rest) =>
      if closed then Section(b, true, body, Under(rest, g)) else Section(b, false, Under(body, g), rest)
  }

  lemma {:induction false} UnderIsOpenEnded(f: Forest, g: Forest)
    requires OpenEnded(f) && OpenEnded(g)
    ensures OpenEnded(Under(f, g)) && Marked(Under(f, g)) == Marked(f) + Marked(g)
  {
    match f
    case Nil =>
    case Line(l, rest) =>
      UnderIsOpenEnded(rest, g);
      Assoc([l], Marked(rest), Marked(g));
    case Section(b, closed, body, rest) =>
      if closed {
        UnderIsOpenEnded(rest, g);
        Assoc([b] + Marked(body) + [CLOSE], Marked(rest), Marked(g));
      } else {
        UnderIsOpenEnded(body, g);
        OpenTail(b, Marked(body));
        OpenTail(b, Marked(Under(body, g)));
        Assoc([b], Marked(body), Marked(g));
      }
  }

  // ---- Transcripts that stop early ----

  /** A well-formed transcript but for the sections that are open at the end. */
  predicate WellFormedOpen(f: Forest) {
    match f
    case Nil => true
    case Line(l, rest) => PlainLine(l) && WellFormedOpen(rest)
    case Section(b, closed, body, rest) =>
      && OpeningLine(b)
      && if closed then WellFormed(Section(b, true, body, Nil)) && WellFormedOpen(rest)
         else rest.Nil? && if IsResponse(b) then PlainBody(body) else WellFormedOpen(body)
  }

  /** It does not stop inside a response. */
  predicate NoOpenResponse(f: Forest) {
    match f
    case Nil => true
    case Line(_, rest) => NoOpenResponse(rest)
    case Section(b, closed, body, rest) => if closed then NoOpenResponse(rest) else !IsResponse(b) && NoOpenResponse(body)
  }

  lemma {:induction false} PlainBodyOpenEnded(f: Forest)
    requires PlainBody(f)
    ensures OpenEnded(f) && Balanced(f) && LineByLine(f) && NoReturns(Marked(f))
  {
    match f
    case Nil =>
    case Line(l, rest) =>
      PlainBodyOpenEnded(rest);
      NoReturnsStep(l, Marked(rest));
  }

  lemma {:induction false} OpenTranscript(f: Forest)
    requires WellFormedOpen(f)
    ensures OpenEnded(f) && LineByLine(f) && NoReturns(Marked(f))
  {
    match f
    case Nil =>
    case Line(l, rest) =>
      OpenTranscript(rest);
      NoReturnsStep(l, Marked(rest));
    case Section(b, closed, body, rest) =>
      if closed {
        WellFormedIsBalanced(Section(b, true, body, Nil));
        if IsResponse(b) { PlainBodyOpenEnded(body); } else { WellFormedIsBalanced(body); }
        OpenTranscript(rest);
        SectionNoReturns(b, Marked(body), Marked(rest));
      } else {
        if IsResponse(b) { PlainBodyOpenEnded(body); } else { OpenTranscript(body); }
        OpenTail(b, Marked(body));
        NoReturnsStep(b, Marked(body));
      }
  }

  lemma {:induction false} CutTranscript(f: Forest, k: nat)
    requires WellFormed(f)
    ensures WellFormedOpen(Cut(f, k))
    decreases f
  {
    if k > 0 {
      match f
      case Nil =>
      case Line(_, rest) => CutTranscript(rest, k - 1);
      case Section(b, _, body, rest) =>
        var n := |Marked(body)|;
        if k - 1 > n {
          CutTranscript(rest, k - 2 - n);
        } else if IsResponse(b) {
          CutPlainBody(body, k - 1);
        } else {
          CutTranscript(body, k - 1);
        }
    }
  }

  lemma {:induction false} CutPlainBody(f: Forest, k: nat)
    requires PlainBody(f)
    ensures PlainBody(Cut(f, k))
  {
    if k > 0 && f.Line? { CutPlainBody(f.rest, k - 1); }
  }

  lemma {:induction false} UnderTranscript(f: Forest, g: Forest)
    requires WellFormedOpen(f) && NoOpenResponse(f) && WellFormedOpen(g)
    ensures WellFormedOpen(Under(f, g))
  {
    match f
    case Nil =>
    case Line(_, rest) => UnderTranscript(rest, g);
    case Section(_, closed, body, rest) =>
      if closed { UnderTranscript(rest, g); } else { UnderTranscript(body, g); }
  }

  lemma {:induction false} UnderLines(f: Forest, g: Forest)
    requires OpenEnded(f) && NoOpenResponse(f)
    ensures CommandLines(Under(f, g)) == CommandLines(f) + CommandLines(g)
    ensures ResponseLines(Under(f, g)) == ResponseLines(f) + ResponseLines(g)
  {
    match f
    case Nil =>
    case Line(l, rest) =>
      UnderLines(rest, g);
      Assoc([l], CommandLines(rest), CommandLines(g));
    case Section(b, closed, body, rest) =>
      if closed {
        UnderLines(rest, g);
        Assoc(if IsResponse(b) then [] else CommandLines(body), CommandLines(rest), CommandLines(g));
        Assoc(if IsResponse(b) then Contents(body) else ResponseLines(body), ResponseLines(rest), ResponseLines(g));
      } else {
        UnderLines(body, g);
        OpenSectionLines(b, body);
        OpenSectionLines(b, Under(body, g));
      }
  }

  lemma {:induction false} OpenSectionLines(b: Text, body: Forest)
    requires !IsResponse(b)
    ensures CommandLines(Section(b, false, body, Nil)) == CommandLines(body)
    ensures ResponseLines(Section(b, false, body, Nil)) == ResponseLines(body)
  {
    assert CommandLines(body) + [] == CommandLines(body) && ResponseLines(body) + [] == ResponseLines(body);
  }

  // ---- The projections of a cut transcript ----

  /** On every transcript, cut behind any line: each projection of the whole is that of what
      is left, followed by the projection of what is lost. */
  lemma {:induction false} ProjectionIsCut(ls: seq<Text>, k: nat, keep: bool)
    requires k <= |ls|
    ensures Project(ls, false, keep)
            == Project(ls[..k], false, keep) + Project(ls[k..], InBlockBehind(ls[..k], false), keep)
  {
    ProjectConcat(ls[..k], ls[k..], false, keep);
    TakeDrop(ls, k);
  }

  /** The lines of a response that is still open all go to one view. */
  lemma {:induction false} ProjectOpenBlock(body: Forest, keep: bool)
    requires PlainBody(body)
    ensures Project(Marked(body), true, keep) == if keep then Marked(body) else []
  {
    match body
    case Nil =>
    case Line(l, rest) =>
      ProjectOpenBlock(rest, keep);
      ResponseIsMarker(l);
      ProjectCons(l, Marked(rest), true, keep);
  }

  lemma {:induction false} ProjectOpen(f: Forest, keep: bool)
    requires WellFormedOpen(f)
    ensures Project(Marked(f), false, keep) == Marked(ViewOf(f, keep))
    decreases f
  {
    match f
    case Nil =>
    case Line(l, rest) =>
      ProjectOpen(rest, keep);
      ResponseIsMarker(l);
      ProjectCons(l, Marked(rest), false, keep);
    case Section(b, closed, body, rest) =>
      if closed {
        ProjectOpen(rest, keep);
        ProjectClosed(b, body, rest, keep);
      } else {
        if IsResponse(b) { ProjectOpenBlock(body, keep); } else { ProjectOpen(body, keep); }
        ProjectLast(b, body, keep);
      }
  }

  /** The section that is open at the end. */
  lemma {:induction false} ProjectLast(b: Text, body: Forest, keep: bool)
    requires OpeningLine(b)
    requires IsResponse(b) ==> Project(Marked(body), true, keep) == if keep then Marked(body) else []
    requires !IsResponse(b) ==> Project(Marked(body), false, keep) == Marked(ViewOf(body, keep))
    ensures var f := Section(b, false, body, Nil);
            Project(Marked(f), false, keep) == Marked(ViewOf(f, keep))
  {
    OpeningLineIsMarker(b);
    OpenTail(b, Marked(body));
    ProjectCons(b, Marked(body), false, keep);
    SectionView(b, false, body, Nil, keep);
    OpenTail(b, Marked(ViewOf(body, keep)));
  }

  lemma {:induction false} ProjectClosed(b: Text, body: Forest, rest: Forest, keep: bool)
    requires WellFormed(Section(b, true, body, Nil)) && Project(Marked(rest), false, keep) == Marked(ViewOf(rest, keep))
    ensures var f := Section(b, true, body, rest);
            Project(Marked(f), false, keep) == Marked(ViewOf(f, keep))
  {
    ProjectForest(Section(b, true, body, Nil), Marked(rest), keep);
    MarkedThen(b, body, rest);
    SectionView(b, true, body, Nil, keep);
    SectionView(b, true, body, rest, keep);
    if !IsResponse(b) {
      MarkedThen(b, ViewOf(body, keep), ViewOf(rest, keep));
    } else if keep {
      MarkedThen(b, body, ViewOf(rest, keep));
    } else {
      assert [] + Marked(ViewOf(rest, keep)) == Marked(ViewOf(rest, keep));
    }
  }

  lemma {:induction false} ViewIsOpen(f: Forest, keep: bool)
    requires WellFormedOpen(f)
    ensures WellFormedOpen(ViewOf(f, keep))
  {
    match f
    case Nil =>
    case Line(_, rest) => ViewIsOpen(rest, keep);
    case Section(b, closed, body, rest) =>
      SectionView(b, closed, body, rest, keep);
      ViewIsOpen(rest, keep);
      if !IsResponse(b) {
        if closed { ViewsKeepSkeleton(body); } else { ViewIsOpen(body, keep); }
      }
  }

  lemma {:induction false} MarkedThen(b: Text, body: Forest, rest: Forest)
    ensures Marked(Section(b, true, body, Nil)) + Marked(rest) == Marked(Section(b, true, body, rest))
  {
    var first := [b] + Marked(body) + [CLOSE];
    assert first + [] == first;
  }

  // ---- The tabs of a cut transcript ----

  /** The last line is not blank and does not end in white space, so it survives trimming. */
  predicate EndsPrintable(ls: seq<Text>) {
    ls != [] && var last := ls[|ls| - 1]; last != [] && !IsWhitespace(last[|last| - 1])
  }

  lemma {:induction false} OpenForestIsShown(f: Forest)
    requires OpenEnded(f) && LineByLine(f) && EndsPrintable(Marked(f))
    ensures Shown(TextOf(f)) == Meaning(f)
  {
    TrimTerminated(Marked(f));
    MarkedSingleLines(f);
    SplitJoin(Marked(f));
    ParseOpenEnded(f, false);
  }

  /** A transcript that stops early reaches its tabs: each view is that of the lines that are
      there, the sections still open at the end are kept even if they are empty, and every
      command and every response line that is there is shown. */
  lemma {:induction false} OpenLogReachesTabs(f: Forest, keep: bool)
    requires WellFormedOpen(f)
    ensures ProjectText(TextOf(f), keep) == TextOf(ViewOf(f, keep))
    ensures EndsPrintable(Marked(ViewOf(f, keep))) ==> Shown(ProjectText(TextOf(f), keep)) == Meaning(ViewOf(f, keep))
    ensures Contents(Prune(ViewOf(f, keep))) == if keep then ResponseLines(f) else CommandLines(f)
  {
    OpenTranscript(f);
    MarkedSingleLines(f);
    RustLinesTerminated(Marked(f));
    ChopNothing(Marked(f));
    ProjectOpen(f, keep);
    ViewIsOpen(f, keep);
    OpenTranscript(ViewOf(f, keep));
    if EndsPrintable(Marked(ViewOf(f, keep))) { OpenForestIsShown(ViewOf(f, keep)); }
    PruneKeepsShape(ViewOf(f, keep));
    ViewContents(f, keep);
  }

  lemma {:induction false} ViewContents(f: Forest, keep: bool)
    ensures Contents(ViewOf(f, keep)) == if keep then ResponseLines(f) else CommandLines(f)
  {
    match f
    case Nil =>
    case Line(_, rest) => ViewContents(rest, keep);
    case Section(b, _, body, rest) =>
      ViewContents(body, keep);
      ViewContents(rest, keep);
      assert [] + CommandLines(rest) == CommandLines(rest);
  }

  // ---- The log of a crate that loses lines ----

  /** How many lines of each module's log are flushed. Only the last log may stop inside a
      response. */
  predicate Flushed(ms: seq<Module>, ks: seq<nat>) {
    && |ks| == |ms|
    && (forall i | 0 <= i < |ms| :: WellFormedModule(ms[i]) && ks[i] <= |Marked(ModuleForest(ms[i]))|)
    && forall i | 0 <= i < |ms| - 1 :: NoOpenResponse(Cut(ModuleForest(ms[i]), ks[i]))
  }

  /** The lines that are left, module behind module. */
  function CutLines(ms: seq<Module>, ks: seq<nat>): seq<Text>
    requires Flushed(ms, ks)
  {
    if ms == [] then []
    else
      var n := |ms| - 1;
      CutLines(ms[..n], ks[..n]) + Marked(ModuleForest(ms[n]))[..ks[n]]
  }

  /** The forest they are read as: a module that comes after an open section is inside it. */
  function CutForest(ms: seq<Module>, ks: seq<nat>): Forest
    requires |ks| == |ms|
  {
    if ms == [] then Nil
    else
      var n := |ms| - 1;
      Under(CutForest(ms[..n], ks[..n]), Cut(ModuleForest(ms[n]), ks[n]))
  }

  lemma {:induction false} UnderNoOpenResponse(f: Forest, g: Forest)
    requires NoOpenResponse(f) && NoOpenResponse(g)
    ensures NoOpenResponse(Under(f, g))
  {
    match f
    case Nil =>
    case Line(_, rest) => UnderNoOpenResponse(rest, g);
    case Section(_, closed, body, rest) =>
      if closed { UnderNoOpenResponse(rest, g); } else { UnderNoOpenResponse(body, g); }
  }

  lemma {:induction false} NoneOpen(ms: seq<Module>, ks: seq<nat>)
    requires |ks| == |ms| && forall i | 0 <= i < |ms| :: NoOpenResponse(Cut(ModuleForest(ms[i]), ks[i]))
    ensures NoOpenResponse(CutForest(ms, ks))
  {
    if ms != [] {
      var n := |ms| - 1;
      NoneOpen(ms[..n], ks[..n]);
      UnderNoOpenResponse(CutForest(ms[..n], ks[..n]), Cut(ModuleForest(ms[n]), ks[n]));
    }
  }

  lemma {:induction false} CutLinesAreForest(ms: seq<Module>, ks: seq<nat>)
    requires Flushed(ms, ks)
    ensures var f := CutForest(ms, ks); WellFormedOpen(f) && Marked(f) == CutLines(ms, ks)
  {
    if ms != [] {
      var n := |ms| - 1;
      var before, log := CutForest(ms[..n], ks[..n]), ModuleForest(ms[n]);
      CutLinesAreForest(ms[..n], ks[..n]);
      ModuleWellFormed(ms[n]);
      WellFormedIsBalanced(log);
      CutIsPrefix(log, ks[n]);
      CutTranscript(log, ks[n]);
      OpenTranscript(before);
      UnderIsOpenEnded(before, Cut(log, ks[n]));
      NoneOpen(ms[..n], ks[..n]);
      UnderTranscript(before, Cut(log, ks[n]));
    }
  }

  predicate AllCloses(ls: seq<Text>) {
    forall i | 0 <= i < |ls| :: ls[i] == CLOSE
  }

  /** A log that loses nothing but closes still has all its commands and responses. */
  lemma {:induction false} LostCloses(f: Forest, k: nat)
    requires WellFormed(f) && k <= |Marked(f)| && AllCloses(Marked(f)[k..])
    ensures SameLines(Cut(f, k), f)
    decreases f
  {
    match f
    case Nil =>
    case Line(l, rest) =>
      LostTail([l], Marked(rest), k);
      LostCloses(rest, k - 1);
    case Section(b, _, body, rest) =>
      OpeningLineIsMarker(b);
      LostFrom(b, Marked(body), Marked(rest), k);
      LostInSection(b, body, rest, k);
  }

  /** What is lost of two lists is lost of the second, if the first ends in a line that is
      no close. */
  lemma {:induction false} LostTail(a: seq<Text>, b: seq<Text>, k: nat)
    requires k <= |a + b| && AllCloses((a + b)[k..])
    ensures a != [] && a[|a| - 1] != CLOSE ==> k >= |a|
    ensures k >= |a| ==> AllCloses(b[k - |a|..])
    ensures k <= |a| ==> AllCloses(b) && AllCloses(a[k..])
  {
    var lost := (a + b)[k..];
    forall i | k <= i < |a + b| ensures (a + b)[i] == CLOSE { assert lost[i - k] == (a + b)[i]; }
    if a != [] && k < |a| { assert (a + b)[|a| - 1] == a[|a| - 1]; }
    forall i | 0 <= i < |b| && i + |a| >= k ensures b[i] == CLOSE { assert (a + b)[i + |a|] == b[i]; }
    forall i | k <= i < |a| ensures a[i] == CLOSE { assert (a + b)[i] == a[i]; }
  }

  /** A well-formed forest has a line that is no close, unless it is empty. */
  lemma {:induction false} ClosesOnly(f: Forest)
    requires WellFormed(f)
    ensures AllCloses(Marked(f)) <==> f.Nil?
  {
    match f
    case Nil =>
    case Line(l, _) => assert Marked(f)[0] == l;
    case Section(b, _, _, _) =>
      OpeningLineIsMarker(b);
      assert Marked(f)[0] == b;
  }

  /** What is lost behind the body of a section, or from inside it. */
  lemma {:induction false} LostFrom(b: Text, body: seq<Text>, rest: seq<Text>, k: nat)
    requires var ls := [b] + body + [CLOSE] + rest; b != CLOSE && k <= |ls| && AllCloses(ls[k..])
    ensures 1 <= k
    ensures if k <= |body| + 1 then AllCloses(rest) && AllCloses(body[k - 1..]) else AllCloses(rest[k - 2 - |body|..])
  {
    var first := [b] + body;
    if k <= |first| {
      Assoc(first, [CLOSE], rest);
      LostTail(first, [CLOSE] + rest, k);
      LostTail([CLOSE], rest, 0);
      LostTail([b], body, k);
    } else {
      LostTail(first + [CLOSE], rest, k);
    }
  }

  /** Two forests with the same lines in the same views. */
  predicate SameLines(f: Forest, g: Forest) {
    Contents(f) == Contents(g) && CommandLines(f) == CommandLines(g) && ResponseLines(f) == ResponseLines(g)
  }

  lemma {:induction false} SectionSame(b: Text, closed: bool, closed': bool, body: Forest, body': Forest, rest: Forest, rest': Forest)
    requires SameLines(body, body') && SameLines(rest, rest')
    ensures SameLines(Section(b, closed, body, rest), Section(b, closed', body', rest'))
  {
  }

  lemma {:induction false} LostInSection(b: Text, body: Forest, rest: Forest, k: nat)
    requires WellFormed(Section(b, true, body, rest)) && b != CLOSE && 1 <= k
    requires if k <= |Marked(body)| + 1 then AllCloses(Marked(rest)) && AllCloses(Marked(body)[k - 1..])
             else k - 2 - |Marked(body)| <= |Marked(rest)| && AllCloses(Marked(rest)[k - 2 - |Marked(body)|..])
    ensures SameLines(Cut(Section(b, true, body, rest), k), Section(b, true, body, rest))
    decreases Section(b, true, body, rest), 0
  {
    var n := |Marked(body)|;
    if k - 1 <= n {
      ClosesOnly(rest);
      if IsResponse(b) { PlainBodyLoses(body, k - 1); } else { LostCloses(body, k - 1); }
      SectionSame(b, false, true, Cut(body, k - 1), body, Nil, Nil);
    } else {
      LostCloses(rest, k - 2 - n);
      SectionSame(b, true, true, body, body, Cut(rest, k - 2 - n), rest);
    }
  }

  lemma {:induction false} PlainBodyLoses(f: Forest, k: nat)
    requires PlainBody(f) && k <= |Marked(f)| && AllCloses(Marked(f)[k..])
    ensures Cut(f, k) == f
  {
    match f
    case Nil =>
    case Line(l, rest) =>
      LostTail([l], Marked(rest), k);
      PlainBodyLoses(rest, k - 1);
  }

  predicate OnlyClosesLost(ms: seq<Module>, ks: seq<nat>)
    requires Flushed(ms, ks)
  {
    forall i | 0 <= i < |ms| :: AllCloses(Marked(ModuleForest(ms[i]))[ks[i]..])
  }

  /** One more log that loses nothing but closes. */
  lemma {:induction false} OneMoreLoses(before: Forest, whole: Forest, log: Forest, k: nat)
    requires OpenEnded(before) && NoOpenResponse(before)
    requires CommandLines(before) == CommandLines(whole) && ResponseLines(before) == ResponseLines(whole)
    requires WellFormed(log) && k <= |Marked(log)| && AllCloses(Marked(log)[k..])
    ensures CommandLines(Under(before, Cut(log, k))) == CommandLines(Append(whole, log))
    ensures ResponseLines(Under(before, Cut(log, k))) == ResponseLines(Append(whole, log))
  {
    LostCloses(log, k);
    UnderLines(before, Cut(log, k));
    ViewsAppend(whole, log);
  }

  /** What holds of the logs before the last one, and of the last. */
  lemma {:induction false} FlushedBefore(ms: seq<Module>, ks: seq<nat>)
    requires Flushed(ms, ks) && OnlyClosesLost(ms, ks) && ms != []
    ensures var n := |ms| - 1;
            && Flushed(ms[..n], ks[..n]) && OnlyClosesLost(ms[..n], ks[..n])
            && OpenEnded(CutForest(ms[..n], ks[..n])) && NoOpenResponse(CutForest(ms[..n], ks[..n]))
            && WellFormedModule(ms[n]) && ks[n] <= |Marked(ModuleForest(ms[n]))|
            && AllCloses(Marked(ModuleForest(ms[n]))[ks[n]..])
  {
    var n := |ms| - 1;
    CutLinesAreForest(ms[..n], ks[..n]);
    OpenTranscript(CutForest(ms[..n], ks[..n]));
    NoneOpen(ms[..n], ks[..n]);
  }

  lemma {:induction false} CrateLosesNothing(ms: seq<Module>, ks: seq<nat>)
    requires Flushed(ms, ks) && OnlyClosesLost(ms, ks)
    ensures CommandLines(CutForest(ms, ks)) == CommandLines(CrateForest(ms))
    ensures ResponseLines(CutForest(ms, ks)) == ResponseLines(CrateForest(ms))
  {
    if ms != [] {
      var n := |ms| - 1;
      var before, log := CutForest(ms[..n], ks[..n]), ModuleForest(ms[n]);
      FlushedBefore(ms, ks);
      CrateLosesNothing(ms[..n], ks[..n]);
      ModuleWellFormed(ms[n]);
      OneMoreLoses(before, CrateForest(ms[..n]), log, ks[n]);
    }
  }

  /** The SMT tabs when every module's log is cut behind some line: each tab has the meaning
      of the view of what is left. If all that is lost is closes, the tabs still show every
      command and every response of the crate. */
  lemma {:induction false} CutLogsReachTabs(ms: seq<Module>, ks: seq<nat>, keep: bool)
    requires Flushed(ms, ks)
    ensures var f := CutForest(ms, ks);
            var text := Terminate(CutLines(ms, ks));
            && ProjectText(text, keep) == TextOf(ViewOf(f, keep))
            && (EndsPrintable(Marked(ViewOf(f, keep))) ==> Shown(ProjectText(text, keep)) == Meaning(ViewOf(f, keep)))
            && (OnlyClosesLost(ms, ks) ==>
                  Contents(Prune(ViewOf(f, keep))) == if keep then ResponseLines(CrateForest(ms)) else CommandLines(CrateForest(ms)))
  {
    CutLinesAreForest(ms, ks);
    OpenLogReachesTabs(CutForest(ms, ks), keep);
    if OnlyClosesLost(ms, ks) { CrateLosesNothing(ms, ks); }
  }
}
