/** The folds of the run logs, spelled out: which line each fold of a tab stands behind, and
    which folds are closed when the tab is opened. */
module FoldMarks {
  import opened CodeUnits
  import opened Sections
  import opened ScannerLaws
  import opened Grouping
  import opened Projection
  import opened Transcript
  import opened Queries
  import opened Crates

  // ---- Marks ----

  /** The line a fold stands behind, and whether it is closed on arrival. */
  datatype Mark = Mark(line: Text, auto: bool)

  function MarkOf(s: Survivor): Mark {
    Mark(if |s.banner| < 3 then s.banner else s.banner[..2] + s.banner[3..], Ascii(";;>") <= s.banner)
  }

  /** The marks of the sections of a pruned forest, inner before outer. */
  function MarksOf(f: Forest): seq<Mark> {
    MarkAll(Survivors(f))
  }

  function MarkAll(ss: seq<Survivor>): (ms: seq<Mark>)
    ensures |ms| == |ss| && forall i | 0 <= i < |ms| :: ms[i] == MarkOf(ss[i])
  {
    seq(|ss|, i requires 0 <= i < |ss| => MarkOf(ss[i]))
  }

  lemma {:induction false} MarkAllConcat(a: seq<Survivor>, b: seq<Survivor>)
    ensures MarkAll(a + b) == MarkAll(a) + MarkAll(b)
    ensures [] + MarkAll(b) == MarkAll(b) && MarkAll([]) == []
  {
  }

  /** The folds of a view are at these marks, in this order. */
  predicate HasMarks(view: View, ms: seq<Mark>) {
    && |view.foldable| == |ms|
    && forall k | 0 <= k < |ms| ::
         && LineEndsAt(view.body, view.foldable[k].from, ms[k].line)
         && (view.foldable[k] in view.autoFolded <==> ms[k].auto)
  }

  lemma {:induction false} ForestHasMarks(f: Forest)
    requires LineByLine(f) && Balanced(f)
    ensures HasMarks(Meaning(f), MarksOf(Prune(f)))
  {
    var view, ss := Meaning(f), Survivors(Prune(f));
    ForestRanges(f);
    PruneKeepsShape(f);
    BalancedIsLexed(Prune(f));
    SurvivorsAreOpen(Prune(f));
    forall k | 0 <= k < |ss| ensures IsRangeOf(view, view.foldable[k], ss[k]) {
      RangeIsSpelled(view, view.foldable[k], ss[k]);
    }
  }

  lemma {:induction false} BalancedIsLexed(f: Forest)
    requires Balanced(f)
    ensures Lexed(f)
  {
    match f
    case Nil =>
    case Line(_, rest) => BalancedIsLexed(rest);
    case Section(_, _, body, rest) =>
      BalancedIsLexed(body);
      BalancedIsLexed(rest);
  }

  lemma {:induction false} MarksOfSection(b: Text, body: Forest, rest: Forest)
    requires |b| >= 3 && Balanced(body)
    ensures MarksOf(Prune(Section(b, true, body, rest)))
            == MarksOf(Prune(body)) + (if HasLine(body) then [Mark(b[..2] + b[3..], Ascii(";;>") <= b)] else []) + MarksOf(Prune(rest))
  {
    var inner, later := Survivors(Prune(body)), Survivors(Prune(rest));
    PruneDropsLineless(body);
    MarkAllConcat(inner, later);
    if HasLine(body) {
      var own := [Survivor(b, Prune(body))];
      MarkAllConcat(inner + own, later);
      MarkAllConcat(inner, own);
      assert MarkAll(own) == [Mark(b[..2] + b[3..], Ascii(";;>") <= b)];
    }
  }

  lemma {:induction false} MarksOfAppend(f: Forest, g: Forest)
    ensures MarksOf(Prune(Append(f, g))) == MarksOf(Prune(f)) + MarksOf(Prune(g))
  {
    PruneAppend(f, g);
    SurvivorsAppend(Prune(f), Prune(g));
    MarkAllConcat(Survivors(Prune(f)), Survivors(Prune(g)));
  }

  lemma {:induction false} MarksOfLines(ls: seq<Text>)
    ensures MarksOf(Prune(FromLines(ls))) == []
  {
    if ls != [] {
      MarksOfLines(ls[1..]);
      assert Survivors(Prune(FromLines(ls))) == Survivors(Prune(FromLines(ls[1..])));
    }
  }

  lemma {:induction false} LabelMark(marker: CodeUnit, text: Text)
    requires marker == GREATER || marker == LETTER_V
    ensures var b := Label(marker, text);
            |b| >= 3 && b[..2] + b[3..] == Ascii(";; ") + text && (Ascii(";;>") <= b <==> marker == GREATER)
  {
    var b := Label(marker, text);
    UnitsAreSpelled();
    MarkersAreSpelled(b);
    assert IsOpen(b) && (AutoFolds(b) <==> marker == GREATER);
    assert Ascii(";; ") == [SEMICOLON, SEMICOLON, SPACE];
    assert b[..2] == [SEMICOLON, SEMICOLON] && b[3..] == [SPACE] + text;
  }

  // ---- The tabs ----

  datatype Tab = Query | Response | Transcript

  function InTab(f: Forest, tab: Tab): Forest {
    match tab
    case Query => QueryView(f)
    case Response => ResponseView(f)
    case Transcript => f
  }

  lemma {:induction false} SectionInTab(b: Text, body: Forest, rest: Forest, tab: Tab)
    requires !IsResponse(b)
    ensures InTab(Section(b, true, body, rest), tab) == Section(b, true, InTab(body, tab), InTab(rest, tab))
    ensures InTab(Nil, tab) == Nil
  {
  }

  lemma {:induction false} BalancedInTab(f: Forest, tab: Tab)
    requires WellFormed(f)
    ensures Balanced(InTab(f, tab)) && LineByLine(InTab(f, tab))
  {
    ViewsKeepSkeleton(f);
    WellFormedIsBalanced(f);
    WellFormedIsBalanced(QueryView(f));
    WellFormedIsBalanced(ResponseView(f));
  }

  // ---- What the folds are, spelled out ----

  /** What an op wrote, as far as the tab has it, and then the op itself: it is closed on
      arrival iff it is a context op of an external crate. */
  function OpMarks(run: OpRun, tab: Tab): seq<Mark> {
    var written := InTab(run.written, tab);
    MarksOf(Prune(written))
    + if HasLine(written) then [Mark(Ascii(";; ") + run.op.comment, run.op.work.Context? && run.op.krate.Some?)] else []
  }

  function OpsMarks(runs: seq<OpRun>, tab: Tab): seq<Mark> {
    if runs == [] then [] else OpMarks(runs[0], tab) + OpsMarks(runs[1..], tab)
  }

  predicate AnyLine(runs: seq<OpRun>, tab: Tab) {
    exists i :: 0 <= i < |runs| && HasLine(InTab(runs[i].written, tab))
  }

  /** How many ops from the front are of the crate. */
  function CrateRun(runs: seq<OpRun>, krate: Text): (n: nat)
    ensures n <= |runs|
  {
    if runs == [] || runs[0].op.krate.None? || runs[0].op.krate.value != krate then 0 else 1 + CrateRun(runs[1..], krate)
  }

  /** Local ops one by one; external ops crate by crate, each crate closed on arrival. */
  function RunMarks(runs: seq<OpRun>, tab: Tab): seq<Mark>
    decreases |runs|
  {
    if runs == [] then []
    else if runs[0].op.krate.None? then OpMarks(runs[0], tab) + RunMarks(runs[1..], tab)
    else
      var krate := runs[0].op.krate.value;
      var n := CrateRun(runs, krate);
      OpsMarks(runs[..n], tab)
      + (if AnyLine(runs[..n], tab) then [Mark(Ascii(";; ") + krate, true)] else [])
      + RunMarks(runs[n..], tab)
  }

  /** The prelude, closed on arrival, and the ops that ran. */
  function ModuleMarks(m: Module, tab: Tab): seq<Mark> {
    var prelude := InTab(m.prelude, tab);
    MarksOf(Prune(prelude))
    + (if HasLine(prelude) then [Mark(Ascii(";; AIR prelude"), true)] else [])
    + RunMarks(Executed(m.groups), tab)
  }

  function CrateMarks(ms: seq<Module>, tab: Tab): seq<Mark> {
    if ms == [] then [] else CrateMarks(ms[..|ms| - 1], tab) + ModuleMarks(ms[|ms| - 1], tab)
  }

  // ---- Each forest has the marks it should ----

  predicate WellFormedRuns(runs: seq<OpRun>) {
    forall i | 0 <= i < |runs| :: WellFormedRun(runs[i])
  }

  lemma {:induction false} OpSectionMarks(run: OpRun, rest: Forest, tab: Tab)
    requires WellFormedRun(run)
    ensures MarksOf(Prune(InTab(Section(PieceOf(run).banner, true, run.written, rest), tab)))
            == OpMarks(run, tab) + MarksOf(Prune(InTab(rest, tab)))
  {
    var b := PieceOf(run).banner;
    LabelOpens(OpMarker(run.op), run.op.comment);
    LabelMark(OpMarker(run.op), run.op.comment);
    SectionInTab(b, run.written, rest, tab);
    BalancedInTab(run.written, tab);
    MarksOfSection(b, InTab(run.written, tab), InTab(rest, tab));
  }

  lemma {:induction false} OpSectionsMarks(runs: seq<OpRun>, tab: Tab)
    requires WellFormedRuns(runs)
    ensures MarksOf(Prune(InTab(PieceSections(Pieces(runs)), tab))) == OpsMarks(runs, tab)
    ensures HasLine(InTab(PieceSections(Pieces(runs)), tab)) <==> AnyLine(runs, tab)
    ensures WellFormed(PieceSections(Pieces(runs)))
  {
    SectionInTab([], Nil, Nil, tab);
    if runs == [] {
      assert MarksOf(Prune(InTab(Nil, tab))) == [];
    } else {
      var run, rest := runs[0], PieceSections(Pieces(runs[1..]));
      assert Pieces(runs)[1..] == Pieces(runs[1..]);
      OpSectionsMarks(runs[1..], tab);
      OpSectionMarks(run, rest, tab);
      LabelOpens(OpMarker(run.op), run.op.comment);
      SectionInTab(PieceOf(run).banner, run.written, rest, tab);
      AnyLineStep(runs, tab);
    }
  }

  lemma {:induction false} AnyLineStep(runs: seq<OpRun>, tab: Tab)
    requires runs != []
    ensures AnyLine(runs, tab) <==> HasLine(InTab(runs[0].written, tab)) || AnyLine(runs[1..], tab)
  {
    var rest := runs[1..];
    assert forall i | 0 <= i < |rest| :: rest[i] == runs[i + 1];
    if i :| 0 <= i < |rest| && HasLine(InTab(rest[i].written, tab)) { assert HasLine(InTab(runs[i + 1].written, tab)); }
  }

  lemma {:induction false} CrateRunIsLength(runs: seq<OpRun>, krate: Text)
    ensures CrateRun(runs, krate) == RunLength(Pieces(runs), Wrappers.Some(krate))
  {
    if runs != [] {
      CrateRunIsLength(runs[1..], krate);
      assert Pieces(runs)[1..] == Pieces(runs[1..]);
    }
  }

  lemma {:induction false} GroupedMarks(runs: seq<OpRun>, tab: Tab)
    requires WellFormedRuns(runs)
    ensures MarksOf(Prune(InTab(Grouped(Pieces(runs)), tab))) == RunMarks(runs, tab)
    decreases |runs|
  {
    SectionInTab([], Nil, Nil, tab);
    if runs == [] {
      assert MarksOf(Prune(InTab(Nil, tab))) == [];
    } else if runs[0].op.krate.None? {
      GroupedMarks(runs[1..], tab);
      assert Pieces(runs)[1..] == Pieces(runs[1..]);
      OpSectionMarks(runs[0], Grouped(Pieces(runs[1..])), tab);
    } else {
      var krate := runs[0].op.krate.value;
      var n := CrateRun(runs, krate);
      CrateRunIsLength(runs, krate);
      assert Pieces(runs)[..n] == Pieces(runs[..n]) && Pieces(runs)[n..] == Pieces(runs[n..]);
      GroupedMarks(runs[n..], tab);
      WrapperMarks(krate, runs[..n], Grouped(Pieces(runs[n..])), tab);
      assert WellFormedRun(runs[0]);
    }
  }

  lemma {:induction false} WrapperMarks(krate: Text, runs: seq<OpRun>, rest: Forest, tab: Tab)
    requires WellFormedRuns(runs) && LabelText(krate)
    ensures MarksOf(Prune(InTab(Section(Label(GREATER, krate), true, PieceSections(Pieces(runs)), rest), tab)))
            == OpsMarks(runs, tab) + (if AnyLine(runs, tab) then [Mark(Ascii(";; ") + krate, true)] else [])
               + MarksOf(Prune(InTab(rest, tab)))
  {
    var b, body := Label(GREATER, krate), PieceSections(Pieces(runs));
    LabelOpens(GREATER, krate);
    LabelMark(GREATER, krate);
    OpSectionsMarks(runs, tab);
    SectionInTab(b, body, rest, tab);
    BalancedInTab(body, tab);
    MarksOfSection(b, InTab(body, tab), InTab(rest, tab));
  }

  lemma {:induction false} PreludeIsSpelled()
    ensures Ascii(";; AIR prelude") == Ascii(";; ") + PRELUDE && LabelText(PRELUDE)
  {
    assert Ascii(";; AIR prelude")[3..] == PRELUDE;
    assert RESPONSE[4..][0] == 0x72;
  }

  lemma {:induction false} ModuleHasMarks(m: Module, tab: Tab)
    requires WellFormedModule(m)
    ensures MarksOf(Prune(InTab(ModuleForest(m), tab))) == ModuleMarks(m, tab)
  {
    var runs, b := Executed(m.groups), Label(GREATER, PRELUDE);
    var ops := Section(b, true, m.prelude, Grouped(Pieces(runs)));
    PreludeIsSpelled();
    LabelOpens(GREATER, PRELUDE);
    LabelMark(GREATER, PRELUDE);
    GroupedMarks(runs, tab);
    SectionInTab(b, m.prelude, Grouped(Pieces(runs)), tab);
    BalancedInTab(m.prelude, tab);
    MarksOfSection(b, InTab(m.prelude, tab), InTab(Grouped(Pieces(runs)), tab));
    OptionsInTab(m.options, ops, tab);
  }

  lemma {:induction false} OptionsInTab(options: seq<Text>, f: Forest, tab: Tab)
    requires forall i | 0 <= i < |options| :: PlainLine(options[i])
    ensures MarksOf(Prune(InTab(Append(FromLines(options), f), tab))) == MarksOf(Prune(InTab(f, tab)))
  {
    var lines := FromLines(options);
    ViewsAppend(lines, f);
    assert InTab(Append(lines, f), tab) == Append(InTab(lines, tab), InTab(f, tab));
    MarksOfAppend(InTab(lines, tab), InTab(f, tab));
    PlainLinesWellFormed(options);
    MarksOfLines(options);
    NoResponses(options);
    assert MarksOf(Prune(InTab(lines, tab))) == [];
    assert [] + MarksOf(Prune(InTab(f, tab))) == MarksOf(Prune(InTab(f, tab)));
  }

  lemma {:induction false} NoResponses(ls: seq<Text>)
    ensures ResponseView(FromLines(ls)) == Nil && MarksOf(Prune(Nil)) == []
  {
    if ls != [] { NoResponses(ls[1..]); }
  }

  lemma {:induction false} CrateHasMarks(ms: seq<Module>, tab: Tab)
    requires forall i | 0 <= i < |ms| :: WellFormedModule(ms[i])
    ensures MarksOf(Prune(InTab(CrateForest(ms), tab))) == CrateMarks(ms, tab)
  {
    if ms == [] {
      SectionInTab([], Nil, Nil, tab);
      assert MarksOf(Prune(Nil)) == [];
    } else {
      var before, last := CrateForest(ms[..|ms| - 1]), ModuleForest(ms[|ms| - 1]);
      CrateHasMarks(ms[..|ms| - 1], tab);
      ModuleHasMarks(ms[|ms| - 1], tab);
      ViewsAppend(before, last);
      assert InTab(Append(before, last), tab) == Append(InTab(before, tab), InTab(last, tab));
      MarksOfAppend(InTab(before, tab), InTab(last, tab));
    }
  }

  /** The folds of each SMT tab of a crate: the prelude's and every wrapper's are closed on
      arrival, an op's iff it is a context op of an external crate, and each stands behind
      its own label. */
  lemma {:induction false} TabFoldsAreSpelled(ms: seq<Module>, tab: Tab)
    requires forall i | 0 <= i < |ms| :: WellFormedModule(ms[i])
    ensures HasMarks(Meaning(InTab(CrateForest(ms), tab)), CrateMarks(ms, tab))
  {
    CrateWellFormed(ms);
    BalancedInTab(CrateForest(ms), tab);
    ForestHasMarks(InTab(CrateForest(ms), tab));
    CrateHasMarks(ms, tab);
  }
}
