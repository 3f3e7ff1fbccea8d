/** From the modules of a crate to the tabs of the page: `verify_module` for each module,
    `VerifyOutput::write`, `emit_section` and the browser's scanner, with the headline that
    the page computes from the verdicts of the same ops. */
module Crates {
  import opened Lists
  import opened CodeUnits
  import opened Sections
  import opened Scanner
  import opened Emission
  import opened Wrappers
  import opened Grouping
  import opened Projection
  import opened Transcript
  import opened Probe
  import opened Queries

  // ---- The modules ----

  /** One module as it is verified: the option lines the solver logs when it is set up, the
      prelude with the number of its commands, and the ops; its start fails if setting up or
      feeding the prelude does. */
  datatype Module = Module(options: seq<Text>, prelude: Forest, commands: nat, startFails: bool, groups: seq<Group>)

  /** The log of one module: the options, the prelude's section, then the ops. */
  function ModuleForest(m: Module): Forest {
    Append(FromLines(m.options),
           Section(Label(GREATER, PRELUDE), true, m.prelude, Grouped(Pieces(Executed(m.groups)))))
  }

  /** The modules that reach the output: up to the first failure, which counts itself if it
      came after the start. */
  function Reached(ms: seq<Module>): seq<Module> {
    if ms == [] || ms[0].startFails then []
    else [ms[0]] + if Succeeds(ms[0].groups) then Reached(ms[1..]) else []
  }

  /** The logs of several modules, one behind the other. */
  function CrateForest(ms: seq<Module>): Forest {
    if ms == [] then Nil else Append(CrateForest(ms[..|ms| - 1]), ModuleForest(ms[|ms| - 1]))
  }

  predicate ModuleSucceeds(m: Module) {
    !m.startFails && Succeeds(m.groups)
  }

  lemma {:induction false} ModuleLines(m: Module)
    ensures Marked(ModuleForest(m))
            == m.options + [Label(GREATER, PRELUDE)] + Marked(m.prelude) + [CLOSE] + Marked(Grouped(Pieces(Executed(m.groups))))
  {
    var start, prelude, ops := [Label(GREATER, PRELUDE)], Marked(m.prelude), Marked(Grouped(Pieces(Executed(m.groups))));
    MarkedFromLines(m.options);
    MarkedAppend(FromLines(m.options), Section(start[0], true, m.prelude, Grouped(Pieces(Executed(m.groups)))));
    Assoc4(m.options, start, prelude, [CLOSE]);
    Assoc(start, prelude, [CLOSE]);
    Assoc(m.options, start + prelude + [CLOSE], ops);
  }

  /** What a module asks of the solver. */
  function ModuleWorks(m: Module): seq<Verdicts.Op> {
    if m.startFails then [] else Works(Executed(m.groups))
  }

  /** What several modules ask of their solvers. */
  function CrateWorks(ms: seq<Module>): seq<Verdicts.Op> {
    if ms == [] then [] else CrateWorks(ms[..|ms| - 1]) + ModuleWorks(ms[|ms| - 1])
  }

  /** `verify_module`, from the attached log on, with a solver of its own. */
  method VerifyModule(m: Module, output: VerifyOutput, reporter: Reporter, page: Page)
    returns (ok: bool, ghost calls: seq<Call>, ghost perOp: seq<seq<Verdicts.Check>>)
    modifies output, reporter, page
    ensures ok == ModuleSucceeds(m)
    ensures output.body == old(output.body) + if m.startFails then [] else Marked(ModuleForest(m))
    ensures Verdicts.IsRun(ModuleWorks(m), perOp)
    ensures page.verdicts == old(page.verdicts) + Verdicts.Stream(Flatten(perOp))
    ensures reporter.reports == old(reporter.reports) + Verdicts.Reported(Flatten(perOp))
    ensures !m.startFails ==> calls == Feeds(m.commands) + Verdicts.RunCalls(ModuleWorks(m), perOp)
  {
    var log := new Log(m.options + [Label(GREATER, PRELUDE)]);
    var solver := new Solver();
    ok, perOp := RunQueries(log, output, m.prelude, m.commands, m.startFails, m.groups, solver, reporter, page);
    calls := solver.calls;
    ModuleLines(m);
    Assoc(old(output.body), m.options + [Label(GREATER, PRELUDE)] + Marked(m.prelude) + [CLOSE],
          Marked(Grouped(Pieces(Executed(m.groups)))));
    if m.startFails {
      perOp := [];
    } else {
      assert [] + Feeds(m.commands) == Feeds(m.commands);
    }
  }

  lemma {:induction false} ReachedPrefix(ms: seq<Module>, i: nat)
    requires i <= |ms| && forall j | 0 <= j < i :: ModuleSucceeds(ms[j])
    ensures Reached(ms) == ms[..i] + Reached(ms[i..])
  {
    if i > 0 {
      ReachedPrefix(ms[1..], i - 1);
      assert ms[1..][i - 1..] == ms[i..];
      assert [ms[0]] + ms[1..][..i - 1] == ms[..i];
      Assoc([ms[0]], ms[1..][..i - 1], Reached(ms[i..]));
    }
  }

  /** The modules that are reached: a prefix, in which all but the last succeed; it ends with
      a module that fails behind its start, before one whose start fails, or with the last. */
  lemma {:induction false} ReachedIsPrefix(ms: seq<Module>)
    ensures var reached := Reached(ms);
            && reached <= ms
            && (forall i | 0 <= i < |reached| :: !reached[i].startFails)
            && (forall i | 0 <= i < |reached| - 1 :: Succeeds(reached[i].groups))
            && (|| reached == ms
                || (reached != [] && !Succeeds(reached[|reached| - 1].groups))
                || ms[|reached|].startFails)
  {
    if ms != [] && !ms[0].startFails {
      ReachedIsPrefix(ms[1..]);
      assert ms == [ms[0]] + ms[1..];
    }
  }

  /** The log of one more module. */
  lemma {:induction false} CrateGrows(base: seq<Text>, done: seq<Module>, m: Module)
    ensures base + Marked(CrateForest(done + [m])) == base + Marked(CrateForest(done)) + Marked(ModuleForest(m))
  {
    assert (done + [m])[..|done|] == done;
    MarkedAppend(CrateForest(done), ModuleForest(m));
    Assoc(base, Marked(CrateForest(done)), Marked(ModuleForest(m)));
  }

  /** The output after `i` modules, none of which failed. */
  ghost predicate After(body: seq<Text>, base: seq<Text>, ms: seq<Module>, i: nat) {
    && i <= |ms| && (forall j | 0 <= j < i :: ModuleSucceeds(ms[j]))
    && body == base + Marked(CrateForest(ms[..i]))
  }

  /** The output goes on with the next module, or ends with it if it fails. */
  lemma {:induction false} CrateStep(body: seq<Text>, base: seq<Text>, ms: seq<Module>, i: nat)
    requires After(body, base, ms, i) && i < |ms|
    ensures ModuleSucceeds(ms[i]) ==> After(body + Marked(ModuleForest(ms[i])), base, ms, i + 1)
    ensures !ModuleSucceeds(ms[i]) ==>
              body + (if ms[i].startFails then [] else Marked(ModuleForest(ms[i]))) == base + Marked(CrateForest(Reached(ms)))
  {
    CrateGrows(base, ms[..i], ms[i]);
    ReachedPrefix(ms, i);
    assert ms[..i + 1] == ms[..i] + [ms[i]];
    if !ModuleSucceeds(ms[i]) {
      assert Reached(ms[i..]) == if ms[i].startFails then [] else [ms[i]];
      assert Reached(ms) == if ms[i].startFails then ms[..i] else ms[..i + 1];
    }
  }

  lemma {:induction false} CrateDone(body: seq<Text>, base: seq<Text>, ms: seq<Module>)
    requires After(body, base, ms, |ms|)
    ensures Reached(ms) == ms && body == base + Marked(CrateForest(Reached(ms)))
    ensures forall i | 0 <= i < |ms| :: ModuleSucceeds(ms[i])
  {
    ReachedPrefix(ms, |ms|);
    assert ms[..|ms|] == ms && Reached(ms[|ms|..]) == [] && ms + [] == ms;
  }

  /** What the page and the reporter got from the modules' ops. */
  ghost predicate Streamed(page: Page, reporter: Reporter, verdicts: seq<Json.Verdict>, reports: seq<Report>,
                           works: seq<Verdicts.Op>, perOp: seq<seq<Verdicts.Check>>)
    reads page, reporter
  {
    && Verdicts.IsRun(works, perOp)
    && page.verdicts == verdicts + Verdicts.Stream(Flatten(perOp))
    && reporter.reports == reports + Verdicts.Reported(Flatten(perOp))
  }

  lemma {:induction false} StreamedOn(verdicts: seq<Json.Verdict>, reports: seq<Report>,
                                      works: seq<Verdicts.Op>, perOp: seq<seq<Verdicts.Check>>,
                                      works': seq<Verdicts.Op>, perOp': seq<seq<Verdicts.Check>>)
    requires Verdicts.IsRun(works, perOp) && Verdicts.IsRun(works', perOp')
    ensures Verdicts.IsRun(works + works', perOp + perOp')
    ensures verdicts + Verdicts.Stream(Flatten(perOp + perOp'))
            == verdicts + Verdicts.Stream(Flatten(perOp)) + Verdicts.Stream(Flatten(perOp'))
    ensures reports + Verdicts.Reported(Flatten(perOp + perOp'))
            == reports + Verdicts.Reported(Flatten(perOp)) + Verdicts.Reported(Flatten(perOp'))
  {
    Verdicts.RunConcat(works, perOp, works', perOp');
    Assoc(verdicts, Verdicts.Stream(Flatten(perOp)), Verdicts.Stream(Flatten(perOp')));
    Assoc(reports, Verdicts.Reported(Flatten(perOp)), Verdicts.Reported(Flatten(perOp')));
  }

  /** The work of one more module, and all of it if that one fails. */
  lemma {:induction false} WorksStep(ms: seq<Module>, i: nat)
    requires i < |ms| && forall j | 0 <= j < i :: ModuleSucceeds(ms[j])
    ensures CrateWorks(ms[..i + 1]) == CrateWorks(ms[..i]) + ModuleWorks(ms[i])
    ensures !ModuleSucceeds(ms[i]) ==> CrateWorks(Reached(ms)) == CrateWorks(ms[..i]) + ModuleWorks(ms[i])
  {
    ReachedPrefix(ms, i);
    assert ms[..i + 1][..i] == ms[..i];
    if !ModuleSucceeds(ms[i]) {
      assert Reached(ms[i..]) == if ms[i].startFails then [] else [ms[i]];
      assert Reached(ms) == if ms[i].startFails then ms[..i] else ms[..i] + [ms[i]];
      TakeNext(ms, i);
    }
  }

  /** `verify_simplified_krate`: module after module into one output, until one fails. The
      ops whose sections reach the output are those whose verdicts reach the page. */
  method VerifyCrate(ms: seq<Module>, output: VerifyOutput, reporter: Reporter, page: Page)
    returns (ok: bool, ghost perOp: seq<seq<Verdicts.Check>>)
    modifies output, reporter, page
    ensures ok <==> forall i | 0 <= i < |ms| :: ModuleSucceeds(ms[i])
    ensures output.body == old(output.body) + Marked(CrateForest(Reached(ms)))
    ensures Streamed(page, reporter, old(page.verdicts), old(reporter.reports), CrateWorks(Reached(ms)), perOp)
  {
    perOp := [];
    TakeAll(ms);
    for i := 0 to |ms|
      invariant After(output.body, old(output.body), ms, i)
      invariant Streamed(page, reporter, old(page.verdicts), old(reporter.reports), CrateWorks(ms[..i]), perOp)
    {
      CrateStep(output.body, old(output.body), ms, i);
      WorksStep(ms, i);
      ghost var calls, more;
      var succeeds;
      succeeds, calls, more := VerifyModule(ms[i], output, reporter, page);
      StreamedOn(old(page.verdicts), old(reporter.reports), CrateWorks(ms[..i]), perOp, ModuleWorks(ms[i]), more);
      perOp := perOp + more;
      if !succeeds {
        return false, perOp;
      }
    }
    CrateDone(output.body, old(output.body), ms);
    ok := true;
  }

  // ---- What reaches the tabs ----

  predicate WellFormedModule(m: Module) {
    && (forall i | 0 <= i < |m.options| :: PlainLine(m.options[i]))
    && WellFormed(m.prelude)
    && forall i | 0 <= i < |Executed(m.groups)| :: WellFormedRun(Executed(m.groups)[i])
  }

  lemma {:induction false} PlainLinesWellFormed(ls: seq<Text>)
    requires forall i | 0 <= i < |ls| :: PlainLine(ls[i])
    ensures WellFormed(FromLines(ls)) && QueryView(FromLines(ls)) == FromLines(ls)
  {
    if ls != [] { PlainLinesWellFormed(ls[1..]); }
  }

  /** What holds of every log: it is a well-formed transcript, it and its query view end with
      the close of a section, and neither view of a log is empty unless the log is. */
  predicate GoodLog(f: Forest) {
    && WellFormed(f) && EndsClosed(f) && EndsClosed(QueryView(f))
    && (QueryView(f).Nil? <==> f.Nil?) && (ResponseView(f).Nil? <==> f.Nil?)
  }

  /** The log of every module is a well-formed transcript, wherever its run stopped. */
  lemma {:induction false} ModuleWellFormed(m: Module)
    requires WellFormedModule(m)
    ensures GoodLog(ModuleForest(m)) && !ModuleForest(m).Nil?
  {
    var runs := Executed(m.groups);
    forall i | 0 <= i < |runs| ensures WellFormedPiece(Pieces(runs)[i]) {
      LabelOpens(OpMarker(runs[i].op), runs[i].op.comment);
      if runs[i].op.krate.Some? { LabelOpens(GREATER, runs[i].op.krate.value); }
    }
    GroupedWellFormed(Pieces(runs));
    GroupedEndsClosed(Pieces(runs));
    assert LabelText(PRELUDE) by {
      assert RESPONSE[4..][0] == 0x72;
    }
    LabelOpens(GREATER, PRELUDE);
    var ops := Section(Label(GREATER, PRELUDE), true, m.prelude, Grouped(Pieces(runs)));
    PlainLinesWellFormed(m.options);
    ViewsAppend(FromLines(m.options), ops);
    EndsClosedAfterLines(m.options, ops);
    EndsClosedAfterLines(m.options, QueryView(ops));
  }

  lemma {:induction false} CrateWellFormed(ms: seq<Module>)
    requires forall i | 0 <= i < |ms| :: WellFormedModule(ms[i])
    ensures GoodLog(CrateForest(ms)) && (CrateForest(ms).Nil? <==> ms == [])
  {
    if ms != [] {
      var before, last := CrateForest(ms[..|ms| - 1]), ModuleForest(ms[|ms| - 1]);
      CrateWellFormed(ms[..|ms| - 1]);
      ModuleWellFormed(ms[|ms| - 1]);
      ViewsAppend(before, last);
      EndsClosedAppend(before, last);
      EndsClosedAppend(QueryView(before), QueryView(last));
      ViewsKeepSkeleton(before);
      ViewsKeepSkeleton(last);
      EndsClosedAppend(ResponseView(before), ResponseView(last));
    }
  }

  /** What the browser shows of a log: the query tab shows the commands and the response tab
      the responses, each under the sections of the ops. */
  lemma {:induction false} LogReachesTabs(f: Forest)
    requires GoodLog(f)
    ensures Shown(ProjectText(TextOf(f), false)) == Meaning(QueryView(f))
    ensures Shown(ProjectText(TextOf(f), true)) == Meaning(ResponseView(f))
    ensures Shown(TextOf(f)) == Meaning(f)
    ensures Contents(Prune(QueryView(f))) == CommandLines(f) && Contents(Prune(ResponseView(f))) == ResponseLines(f)
  {
    WellFormedIsBalanced(f);
    ProjectionsOfTranscript(f);
    ResponseTabShowsResponses(f);
    ViewsKeepSkeleton(f);
    WellFormedIsBalanced(QueryView(f));
    WrittenForestIsShown(QueryView(f));
    PruneKeepsShape(QueryView(f));
    WrittenForestIsShown(f);
  }

  /** The three SMT tabs; a tab is missing if its body is blank. */
  datatype Tabs = Tabs(query: Option<View>, response: Option<View>, transcript: Option<View>)

  /** A body on its way to its tab: trimmed, and scanned by the browser. */
  method EmitSection(body: Text) returns (view: Option<View>)
    ensures view == if TrimEnd(body) == [] then None else Some(Shown(body))
  {
    if TrimEnd(body) == [] {
      return None;
    }
    var shown := FinalizeBannerBody(TrimEnd(body));
    view := Some(shown);
  }

  /** From the driver through projection, trimming and scan: `verify_simplified_krate`, then
      `VerifyOutput::write`, then the page, which started with no verdicts. The tabs and the
      headline speak of the same ops. */
  method VerifyAndWrite(ms: seq<Module>, reporter: Reporter, page: Page)
    returns (ok: bool, tabs: Tabs, headline: Verdicts.Headline, ghost perOp: seq<seq<Verdicts.Check>>)
    modifies reporter, page
    ensures ok <==> forall i | 0 <= i < |ms| :: ModuleSucceeds(ms[i])
    ensures (forall i | 0 <= i < |Reached(ms)| :: WellFormedModule(Reached(ms)[i])) ==>
              tabs == if Reached(ms) == [] then Tabs(None, None, None)
                      else var f := CrateForest(Reached(ms));
                           Tabs(Some(Meaning(QueryView(f))), Some(Meaning(ResponseView(f))), Some(Meaning(f)))
    ensures Verdicts.IsRun(CrateWorks(Reached(ms)), perOp)
    ensures Verdicts.Tells(headline, CrateWorks(Reached(ms)), perOp)
  {
    page.ClearVerdicts();
    var output := new VerifyOutput();
    ok, perOp := VerifyCrate(ms, output, reporter, page);
    headline := Verdicts.HeadlineOf(page.verdicts);
    assert page.verdicts == Verdicts.Stream(Flatten(perOp));
    Verdicts.HeadlineTells(CrateWorks(Reached(ms)), perOp);
    assert output.body == Marked(CrateForest(Reached(ms)));
    tabs := WriteSmt(output.body, Reached(ms));
  }

  /** The SMT part of `VerifyOutput::write`, and what the browser makes of it. */
  method WriteSmt(body: seq<Text>, ghost reached: seq<Module>) returns (tabs: Tabs)
    requires body == Marked(CrateForest(reached))
    ensures (forall i | 0 <= i < |reached| :: WellFormedModule(reached[i])) ==>
              tabs == if reached == [] then Tabs(None, None, None)
                      else var f := CrateForest(reached);
                           Tabs(Some(Meaning(QueryView(f))), Some(Meaning(ResponseView(f))), Some(Meaning(f)))
  {
    var smt := Terminate(body);
    var query := ProjectSmt(smt, false);
    var response := ProjectSmt(smt, true);
    var queryTab := EmitSection(query);
    var responseTab := EmitSection(response);
    var transcriptTab := EmitSection(smt);
    tabs := Tabs(queryTab, responseTab, transcriptTab);
    if forall i | 0 <= i < |reached| :: WellFormedModule(reached[i]) {
      CrateWellFormed(reached);
      LogReachesTabs(CrateForest(reached));
      LogIsBlank(CrateForest(reached));
    }
  }

  /** No body of a log that holds anything is blank. */
  lemma {:induction false} LogIsBlank(f: Forest)
    requires GoodLog(f)
    ensures TrimEnd(TextOf(f)) == [] <==> f.Nil?
    ensures TrimEnd(ProjectText(TextOf(f), false)) == [] <==> f.Nil?
    ensures TrimEnd(ProjectText(TextOf(f), true)) == [] <==> f.Nil?
  {
    ProjectionsOfTranscript(f);
    ViewsKeepSkeleton(f);
    TrimmedIsBlank(f);
    TrimmedIsBlank(QueryView(f));
    TrimmedIsBlank(ResponseView(f));
  }

  lemma {:induction false} TrimmedIsBlank(f: Forest)
    requires EndsClosed(f)
    ensures TrimEnd(TextOf(f)) == [] <==> f.Nil?
  {
    if !f.Nil? {
      EndsWithClose(f);
      TrimTerminated(Marked(f));
      JoinLast(Marked(f));
    }
  }
}
