/** Whole ops and whole runs: what every solver call sequence looks like, what an op reports
    and arms, and what the page's headline means. */
module VerdictStream {
  import opened Lists
  import opened Wrappers
  import opened Probe

  datatype CommandKind = ValidityCheck | Other

  /** Commands with the hint and the prover of their context. */
  datatype Batch = Batch(hint: Option<nat>, prover: Prover, commands: seq<CommandKind>)

  datatype Op =
    | Context(commands: nat)
    | Query(q: QueryOp, func: string, span: string, batches: seq<Batch>)

  /** A command in its context: it asks for a check or is just fed to the solver. */
  datatype Command = CheckCommand(hint: Option<nat>, prover: Prover) | OtherCommand

  function InContext(b: Batch): (cs: seq<Command>)
    ensures |cs| == |b.commands|
    ensures forall i | 0 <= i < |cs| :: cs[i] == if b.commands[i].ValidityCheck? then CheckCommand(b.hint, b.prover) else OtherCommand
  {
    seq(|b.commands|, i requires 0 <= i < |b.commands| =>
      if b.commands[i].ValidityCheck? then CheckCommand(b.hint, b.prover) else OtherCommand)
  }

  function CommandsOf(batches: seq<Batch>): seq<Command> {
    if batches == [] then [] else CommandsOf(batches[..|batches| - 1]) + InContext(batches[|batches| - 1])
  }

  function AllCommands(op: Op): seq<Command> {
    match op
    case Context(n) => seq(n, _ => OtherCommand)
    case Query(_, _, _, batches) => CommandsOf(batches)
  }

  function CheckCount(commands: seq<Command>): nat {
    if commands == [] then 0
    else CheckCount(commands[..|commands| - 1]) + if commands[|commands| - 1].CheckCommand? then 1 else 0
  }

  // ---- Checks ----

  /** A finished check: whose it was, in which context, and all its answers. */
  datatype Check = Check(q: QueryOp, func: string, span: string, hint: Option<nat>, prover: Prover, answers: seq<ValidityResult>)

  predicate IsCheckOf(c: Check, command: Command, op: Op) {
    && op.Query? && command.CheckCommand?
    && c == Check(op.q, op.func, op.span, command.hint, command.prover, c.answers)
    && IsCheck(c.answers)
  }

  /** The checks are those of the commands that ask for one, in order. */
  predicate Answered(commands: seq<Command>, checks: seq<Check>, op: Op)
    decreases |commands|
  {
    if commands == [] then checks == []
    else
      var n := |commands| - 1;
      if commands[n].OtherCommand? then Answered(commands[..n], checks, op)
      else
        && checks != [] && IsCheckOf(checks[|checks| - 1], commands[n], op)
        && Answered(commands[..n], checks[..|checks| - 1], op)
  }

  predicate AllChecks(checks: seq<Check>) {
    forall i | 0 <= i < |checks| :: IsCheck(checks[i].answers)
  }

  predicate BelongsTo(c: Check, op: Op) {
    op.Query? && c.q == op.q && c.func == op.func && c.span == op.span
  }

  /** One finished check per check command, each of the op itself. */
  lemma {:induction false} AnsweredChecks(commands: seq<Command>, checks: seq<Check>, op: Op)
    requires Answered(commands, checks, op)
    ensures |checks| == CheckCount(commands) && AllChecks(checks) && (checks != [] ==> op.Query?)
    ensures forall i | 0 <= i < |checks| :: BelongsTo(checks[i], op)
    decreases |commands|
  {
    if commands != [] {
      var n := |commands| - 1;
      if commands[n].OtherCommand? {
        AnsweredChecks(commands[..n], checks, op);
      } else {
        AnsweredChecks(commands[..n], checks[..|checks| - 1], op);
      }
    }
  }

  // ---- What checks leave behind ----

  predicate Counts(c: Check) {
    LevelOf(c.q) == Error
  }

  predicate ValidAtFirst(c: Check) {
    c.answers != [] && c.answers[0].Valid?
  }

  predicate AnyCounts(checks: seq<Check>) {
    exists i :: 0 <= i < |checks| && Counts(checks[i])
  }

  predicate CountedAreValid(checks: seq<Check>) {
    forall i | 0 <= i < |checks| && Counts(checks[i]) :: ValidAtFirst(checks[i])
  }

  function Stream(checks: seq<Check>): seq<Json.Verdict> {
    if checks == [] then []
    else
      var last := checks[|checks| - 1];
      Stream(checks[..|checks| - 1]) + Streamed(last.answers, last.func, last.span, last.q)
  }

  function Reported(checks: seq<Check>): seq<Report> {
    if checks == [] then []
    else
      var last := checks[|checks| - 1];
      Reported(checks[..|checks| - 1]) + Reports(last.answers, LevelOf(last.q), last.hint)
  }

  /** The assertions that failed under the default prover. */
  function AllFailedIds(checks: seq<Check>): seq<nat> {
    if checks == [] then []
    else
      var last := checks[|checks| - 1];
      AllFailedIds(checks[..|checks| - 1]) + FailedIds(last.answers, last.prover)
  }

  /** The solver calls of a command list: every check runs to its `finish_query`. */
  function CallsOf(commands: seq<Command>, checks: seq<Check>): seq<Call>
    decreases |commands|
  {
    if commands == [] then []
    else if commands[|commands| - 1].OtherCommand? then CallsOf(commands[..|commands| - 1], checks) + [Feed]
    else if checks == [] then []
    else CallsOf(commands[..|commands| - 1], checks[..|checks| - 1]) + (Calls(checks[|checks| - 1].answers) + [FinishQuery])
  }

  predicate AnyFailed(checks: seq<Check>) {
    exists i :: 0 <= i < |checks| && AnyInvalid(checks[i].answers)
  }

  predicate AnyCanceled(checks: seq<Check>) {
    exists i :: 0 <= i < |checks| && AnyTimedOut(checks[i].answers)
  }

  /** Recommends are retried after a failed body or termination query, and a sub-query of
      an expansion reports how it went. */
  function RetryOf(op: Op, checks: seq<Check>): bool {
    op.Query? && AnyFailed(checks) && (op.q == Body(Normal) || op.q == SpecTermination)
  }

  function ExpandReportOf(op: Op, checks: seq<Check>): Option<ExpandResult> {
    if op.Query? && op.q == Body(Expanded) then
      Some(if AnyCanceled(checks) then Timeout else if AnyFailed(checks) then Fail else Pass)
    else None
  }

  // ---- Handling an op ----

  datatype Base = Base(calls: seq<Call>, verdicts: seq<Json.Verdict>, reports: seq<Report>)

  /** What handling an op has gathered so far in its own variables. */
  datatype Gathered = Gathered(anyInvalid: bool, anyTimedOut: bool, failedIds: seq<nat>)

  /** Where handling an op stands after `commands`, of which `checks` are finished. */
  ghost predicate Progress(now: Base, g: Gathered, start: Base, op: Op, commands: seq<Command>, checks: seq<Check>) {
    && Answered(commands, checks, op)
    && now == Base(start.calls + CallsOf(commands, checks), start.verdicts + Stream(checks), start.reports + Reported(checks))
    && g == Gathered(AnyFailed(checks), AnyCanceled(checks), AllFailedIds(checks))
  }

  method HandleOp(op: Op, solver: Solver, reporter: Reporter, page: Page)
    returns (retry: bool, expanded: Option<ExpandResult>, failedIds: seq<nat>, ghost checks: seq<Check>)
    requires solver.open.None?
    modifies solver, reporter, page
    ensures solver.open.None? && Answered(AllCommands(op), checks, op)
    ensures solver.calls == old(solver.calls) + CallsOf(AllCommands(op), checks)
    ensures page.verdicts == old(page.verdicts) + Stream(checks)
    ensures reporter.reports == old(reporter.reports) + Reported(checks)
    ensures failedIds == AllFailedIds(checks)
    ensures retry == RetryOf(op, checks) && expanded == ExpandReportOf(op, checks)
  {
    checks := [];
    var g := Gathered(false, false, []);
    match op {
      case Context(n) =>
        FeedAll(solver, n);
        FedOnly(n, op);
      case Query(_, _, _, batches) =>
        g, checks := HandleBatches(op, batches, solver, reporter, page);
    }
    retry := g.anyInvalid && op.Query? && (op.q == Body(Normal) || op.q == SpecTermination);
    expanded := None;
    if op.Query? && op.q == Body(Expanded) {
      expanded := Some(if g.anyTimedOut then Timeout else if g.anyInvalid then Fail else Pass);
    }
    failedIds := g.failedIds;
  }

  method HandleBatches(op: Op, batches: seq<Batch>, solver: Solver, reporter: Reporter, page: Page)
    returns (g: Gathered, ghost checks: seq<Check>)
    requires op.Query? && solver.open.None?
    modifies solver, reporter, page
    ensures solver.open.None?
    ensures Progress(Now(solver, reporter, page), g,
                     Base(old(solver.calls), old(page.verdicts), old(reporter.reports)), op, CommandsOf(batches), checks)
  {
    g, checks := Gathered(false, false, []), [];
    ghost var start := Now(solver, reporter, page);
    for b := 0 to |batches|
      invariant solver.open.None?
      invariant Progress(Now(solver, reporter, page), g, start, op, CommandsOf(batches[..b]), checks)
    {
      g, checks := HandleBatch(op, batches[b], solver, reporter, page, g, start, CommandsOf(batches[..b]), checks);
      assert batches[..b + 1][..b] == batches[..b];
    }
    assert batches[..|batches|] == batches;
  }

  method FeedAll(solver: Solver, n: nat)
    requires solver.open.None?
    modifies solver
    ensures solver.open.None? && solver.calls == old(solver.calls) + CallsOf(seq(n, _ => OtherCommand), [])
  {
    for i := 0 to n
      invariant solver.open.None?
      invariant solver.calls == old(solver.calls) + CallsOf(seq(i, _ => OtherCommand), [])
    {
      solver.FeedCommand();
      FedOne(i);
      Assoc(old(solver.calls), CallsOf(seq(i, _ => OtherCommand), []), [Feed]);
    }
  }

  lemma {:induction false} FedOne(i: nat)
    ensures CallsOf(seq(i + 1, _ => OtherCommand), []) == CallsOf(seq(i, _ => OtherCommand), []) + [Feed]
  {
    var cs := seq(i + 1, _ => OtherCommand);
    assert cs[..i] == seq(i, _ => OtherCommand);
  }

  lemma {:induction false} FedOnly(n: nat, op: Op)
    ensures Answered(seq(n, _ => OtherCommand), [], op)
  {
    if n > 0 {
      FedOnly(n - 1, op);
      assert seq(n, _ => OtherCommand)[..n - 1] == seq(n - 1, _ => OtherCommand);
    }
  }

  method HandleBatch(op: Op, batch: Batch, solver: Solver, reporter: Reporter, page: Page, g: Gathered,
                     ghost start: Base, ghost done: seq<Command>, ghost before: seq<Check>)
    returns (g': Gathered, ghost checks: seq<Check>)
    requires op.Query? && solver.open.None?
    requires Progress(Now(solver, reporter, page), g, start, op, done, before)
    modifies solver, reporter, page
    ensures solver.open.None?
    ensures Progress(Now(solver, reporter, page), g', start, op, done + InContext(batch), checks)
  {
    g', checks := g, before;
    ghost var commands := InContext(batch);
    assert done + commands[..0] == done;
    for i := 0 to |batch.commands|
      invariant solver.open.None?
      invariant Progress(Now(solver, reporter, page), g', start, op, done + commands[..i], checks)
    {
      assert done + commands[..i + 1] == done + commands[..i] + [commands[i]];
      g', checks := HandleCommand(op, batch, batch.commands[i], solver, reporter, page, g', start, done + commands[..i], checks);
    }
    assert commands[..|commands|] == commands;
  }

  /** One command: it is fed, and a check command is probed to its end. */
  method HandleCommand(op: Op, batch: Batch, command: CommandKind, solver: Solver, reporter: Reporter, page: Page, g: Gathered,
                       ghost start: Base, ghost done: seq<Command>, ghost before: seq<Check>)
    returns (g': Gathered, ghost checks: seq<Check>)
    requires op.Query? && solver.open.None?
    requires Progress(Now(solver, reporter, page), g, start, op, done, before)
    modifies solver, reporter, page
    ensures solver.open.None?
    ensures Progress(Now(solver, reporter, page), g', start, op,
                     done + [if command.ValidityCheck? then CheckCommand(batch.hint, batch.prover) else OtherCommand], checks)
  {
    ghost var now := Now(solver, reporter, page);
    g', checks := g, before;
    if command.ValidityCheck? {
      ghost var answers;
      var ids, invalid, timedOut;
      ids, invalid, timedOut, answers :=
        CheckAndProbe(solver, reporter, page, op.q, op.func, op.span, batch.hint, batch.prover, g.failedIds);
      ghost var c := Check(op.q, op.func, op.span, batch.hint, batch.prover, answers);
      CheckDone(now, g, start, op, done, before, c, CheckCommand(batch.hint, batch.prover));
      checks := before + [c];
      g' := Gathered(g.anyInvalid || invalid, g.anyTimedOut || timedOut, ids);
    } else {
      solver.FeedCommand();
      CommandFed(now, g, start, op, done, before);
    }
  }

  lemma {:induction false} CommandFed(now: Base, g: Gathered, start: Base, op: Op, commands: seq<Command>, checks: seq<Check>)
    requires Progress(now, g, start, op, commands, checks)
    ensures Progress(now.(calls := now.calls + [Feed]), g, start, op, commands + [OtherCommand], checks)
  {
    assert (commands + [OtherCommand])[..|commands|] == commands;
    Assoc(start.calls, CallsOf(commands, checks), [Feed]);
  }

  /** What the page, the reporter and the op's variables are after one more check. */
  lemma {:induction false} CheckDone(now: Base, g: Gathered, start: Base, op: Op, commands: seq<Command>, checks: seq<Check>,
                                     c: Check, command: Command)
    requires IsCheckOf(c, command, op) && Progress(now, g, start, op, commands, checks)
    ensures Progress(Base(now.calls + Calls(c.answers) + [FinishQuery],
                          now.verdicts + Streamed(c.answers, c.func, c.span, c.q),
                          now.reports + Reports(c.answers, LevelOf(c.q), c.hint)),
                     Gathered(g.anyInvalid || AnyInvalid(c.answers), g.anyTimedOut || AnyTimedOut(c.answers),
                              g.failedIds + FailedIds(c.answers, c.prover)),
                     start, op, commands + [command], checks + [c])
  {
    CheckCalls(start.calls, commands, checks, c, command);
    CheckOutput(start, checks, c);
    FlagsGrow(checks, c);
    AnsweredGrows(commands, checks, op, c, command);
  }

  lemma {:induction false} AnsweredGrows(commands: seq<Command>, checks: seq<Check>, op: Op, c: Check, command: Command)
    requires IsCheckOf(c, command, op) && Answered(commands, checks, op)
    ensures Answered(commands + [command], checks + [c], op)
  {
    assert (commands + [command])[..|commands|] == commands && (checks + [c])[..|checks|] == checks;
  }

  lemma {:induction false} CheckCalls(base: seq<Call>, commands: seq<Command>, checks: seq<Check>, c: Check, command: Command)
    requires command.CheckCommand?
    ensures base + CallsOf(commands + [command], checks + [c])
            == base + CallsOf(commands, checks) + Calls(c.answers) + [FinishQuery]
  {
    assert (commands + [command])[..|commands|] == commands && (checks + [c])[..|checks|] == checks;
    Assoc4(base, CallsOf(commands, checks), Calls(c.answers), [FinishQuery]);
  }

  lemma {:induction false} CheckOutput(start: Base, checks: seq<Check>, c: Check)
    ensures start.verdicts + Stream(checks + [c])
            == start.verdicts + Stream(checks) + Streamed(c.answers, c.func, c.span, c.q)
    ensures start.reports + Reported(checks + [c])
            == start.reports + Reported(checks) + Reports(c.answers, LevelOf(c.q), c.hint)
    ensures AllFailedIds(checks + [c]) == AllFailedIds(checks) + FailedIds(c.answers, c.prover)
  {
    assert (checks + [c])[..|checks|] == checks;
    Assoc(start.verdicts, Stream(checks), Streamed(c.answers, c.func, c.span, c.q));
    Assoc(start.reports, Reported(checks), Reports(c.answers, LevelOf(c.q), c.hint));
  }

  lemma {:induction false} FlagsGrow(checks: seq<Check>, c: Check)
    ensures AnyFailed(checks + [c]) == (AnyFailed(checks) || AnyInvalid(c.answers))
    ensures AnyCanceled(checks + [c]) == (AnyCanceled(checks) || AnyTimedOut(c.answers))
  {
    var all := checks + [c];
    assert all[|checks|] == c;
    assert forall i | 0 <= i < |checks| :: all[i] == checks[i];
  }

  // ---- A whole run ----

  /** The checks of each op of a run are those its commands ask for. */
  predicate IsRun(ops: seq<Op>, perOp: seq<seq<Check>>) {
    && |perOp| == |ops|
    && forall i | 0 <= i < |ops| :: Answered(AllCommands(ops[i]), perOp[i], ops[i])
  }

  /** The solver calls of a run, op by op. */
  function RunCalls(ops: seq<Op>, perOp: seq<seq<Check>>): seq<Call>
    requires |perOp| == |ops|
  {
    if ops == [] then []
    else
      var n := |ops| - 1;
      RunCalls(ops[..n], perOp[..n]) + CallsOf(AllCommands(ops[n]), perOp[n])
  }

  /** Where a run stands after `ops`. */
  ghost predicate RunProgress(now: Base, start: Base, ops: seq<Op>, perOp: seq<seq<Check>>) {
    && IsRun(ops, perOp)
    && now == Base(start.calls + RunCalls(ops, perOp), start.verdicts + Stream(Flatten(perOp)),
                   start.reports + Reported(Flatten(perOp)))
  }

  function Now(solver: Solver, reporter: Reporter, page: Page): Base
    reads solver, reporter, page
  {
    Base(solver.calls, page.verdicts, reporter.reports)
  }

  lemma {:induction false} RunStarts(start: Base)
    ensures RunProgress(start, start, [], [])
  {
  }

  /** The next op of a run. */
  method RunNext(op: Op, solver: Solver, reporter: Reporter, page: Page,
                 ghost start: Base, ghost done: seq<Op>, ghost before: seq<seq<Check>>)
    returns (ghost perOp: seq<seq<Check>>)
    requires solver.open.None?
    requires RunProgress(Now(solver, reporter, page), start, done, before)
    modifies solver, reporter, page
    ensures solver.open.None?
    ensures RunProgress(Now(solver, reporter, page), start, done + [op], perOp)
  {
    ghost var now := Now(solver, reporter, page);
    ghost var more;
    var retry, expanded, failedIds;
    retry, expanded, failedIds, more := HandleOp(op, solver, reporter, page);
    RunGrows(now, start, done, before, op, more);
    perOp := before + [more];
  }

  lemma {:induction false} RunGrows(now: Base, start: Base, ops: seq<Op>, perOp: seq<seq<Check>>, op: Op, more: seq<Check>)
    requires RunProgress(now, start, ops, perOp) && Answered(AllCommands(op), more, op)
    ensures RunProgress(Base(now.calls + CallsOf(AllCommands(op), more), now.verdicts + Stream(more), now.reports + Reported(more)),
                        start, ops + [op], perOp + [more])
  {
    IsRunGrows(ops, perOp, op, more);
    RunCallsGrow(start.calls, ops, perOp, op, more);
    RunOutput(start, perOp, more);
  }

  lemma {:induction false} IsRunGrows(ops: seq<Op>, perOp: seq<seq<Check>>, op: Op, more: seq<Check>)
    requires IsRun(ops, perOp) && Answered(AllCommands(op), more, op)
    ensures IsRun(ops + [op], perOp + [more])
  {
    forall i | 0 <= i < |ops + [op]| ensures Answered(AllCommands((ops + [op])[i]), (perOp + [more])[i], (ops + [op])[i]) {
      if i < |ops| {
        assert (ops + [op])[i] == ops[i] && (perOp + [more])[i] == perOp[i];
      }
    }
  }

  lemma {:induction false} RunOutput(start: Base, perOp: seq<seq<Check>>, more: seq<Check>)
    ensures start.verdicts + Stream(Flatten(perOp + [more])) == start.verdicts + Stream(Flatten(perOp)) + Stream(more)
    ensures start.reports + Reported(Flatten(perOp + [more])) == start.reports + Reported(Flatten(perOp)) + Reported(more)
  {
    FlattenLast(perOp, more);
    StreamConcat(Flatten(perOp), more);
    Assoc(start.verdicts, Stream(Flatten(perOp)), Stream(more));
    Assoc(start.reports, Reported(Flatten(perOp)), Reported(more));
  }

  lemma {:induction false} RunCallsGrow(base: seq<Call>, ops: seq<Op>, perOp: seq<seq<Check>>, op: Op, more: seq<Check>)
    requires |perOp| == |ops|
    ensures base + RunCalls(ops + [op], perOp + [more]) == base + RunCalls(ops, perOp) + CallsOf(AllCommands(op), more)
  {
    assert (ops + [op])[..|ops|] == ops && (perOp + [more])[..|ops|] == perOp;
    Assoc(base, RunCalls(ops, perOp), CallsOf(AllCommands(op), more));
  }

  lemma {:induction false} StreamConcat(a: seq<Check>, b: seq<Check>)
    ensures Stream(a + b) == Stream(a) + Stream(b) && Reported(a + b) == Reported(a) + Reported(b)
    decreases |b|
  {
    if b == [] {
      assert a + b == a;
    } else {
      var init, last := b[..|b| - 1], b[|b| - 1];
      StreamConcat(a, init);
      assert (a + b)[..|a + b| - 1] == a + init;
      Assoc(Stream(a), Stream(init), Streamed(last.answers, last.func, last.span, last.q));
      Assoc(Reported(a), Reported(init), Reports(last.answers, LevelOf(last.q), last.hint));
    }
  }

  /** One run behind another is a run. */
  lemma {:induction false} RunConcat(ops: seq<Op>, perOp: seq<seq<Check>>, ops': seq<Op>, perOp': seq<seq<Check>>)
    requires IsRun(ops, perOp) && IsRun(ops', perOp')
    ensures IsRun(ops + ops', perOp + perOp')
    ensures Stream(Flatten(perOp + perOp')) == Stream(Flatten(perOp)) + Stream(Flatten(perOp'))
    ensures Reported(Flatten(perOp + perOp')) == Reported(Flatten(perOp)) + Reported(Flatten(perOp'))
  {
    IsRunConcat(ops, perOp, ops', perOp');
    FlattenConcat(perOp, perOp');
    StreamConcat(Flatten(perOp), Flatten(perOp'));
  }

  lemma {:induction false} IsRunConcat(ops: seq<Op>, perOp: seq<seq<Check>>, ops': seq<Op>, perOp': seq<seq<Check>>)
    requires IsRun(ops, perOp) && IsRun(ops', perOp')
    ensures IsRun(ops + ops', perOp + perOp')
  {
    var both, bothOps := perOp + perOp', ops + ops';
    forall i | 0 <= i < |bothOps| ensures Answered(AllCommands(bothOps[i]), both[i], bothOps[i]) {
      if i < |ops| {
        assert bothOps[i] == ops[i] && both[i] == perOp[i];
      } else {
        assert bothOps[i] == ops'[i - |ops|] && both[i] == perOp'[i - |ops|];
      }
    }
  }

  lemma {:induction false} FlattenChecks(ops: seq<Op>, perOp: seq<seq<Check>>)
    requires IsRun(ops, perOp)
    ensures AllChecks(Flatten(perOp))
  {
    forall i | 0 <= i < |perOp| ensures AllChecks(perOp[i]) { AnsweredChecks(AllCommands(ops[i]), perOp[i], ops[i]); }
    AllFlattened(perOp);
  }

  lemma {:induction false} AllFlattened(perOp: seq<seq<Check>>)
    requires forall i | 0 <= i < |perOp| :: AllChecks(perOp[i])
    ensures AllChecks(Flatten(perOp))
  {
    if perOp != [] {
      AllFlattened(perOp[1..]);
    }
  }

  // ---- The probe protocol ----

  /** A check asks once and then probes, broadly at most seven times and only for earlier
      failures after that; every probe follows an answer that allows one. */
  lemma {:induction false} ProbesAreBroadThenNarrow(answers: seq<ValidityResult>)
    requires IsCheck(answers)
    ensures var calls := Calls(answers);
            && |calls| == |answers| && calls[0] == CheckValid(answers[0])
            && (forall j | 1 <= j < |calls| :: calls[j] == Again(j > 7, answers[j]))
            && (forall j | 0 <= j < |calls| - 1 :: answers[j].Invalid? && answers[j].model && answers[j].error.Some?)
            && var last := answers[|answers| - 1]; !(last.Invalid? && last.model && last.error.Some?)
  {
    CallsAt(answers);
  }

  lemma {:induction false} CallsAt(answers: seq<ValidityResult>)
    ensures |Calls(answers)| == |answers|
    ensures answers != [] ==> Calls(answers)[0] == CheckValid(answers[0])
    ensures forall j | 1 <= j < |answers| :: Calls(answers)[j] == Again(j >= BROAD_CHECKS, answers[j])
  {
    if answers != [] {
      var init := answers[..|answers| - 1];
      CallsAt(init);
      forall j | 1 <= j < |answers| ensures Calls(answers)[j] == Again(j >= BROAD_CHECKS, answers[j]) {
        if j < |init| { assert Calls(answers)[j] == Calls(init)[j]; }
      }
    }
  }

  // ---- The headline ----

  function Passed(vs: seq<Json.Verdict>): nat {
    if vs == [] then 0 else Passed(vs[..|vs| - 1]) + if vs[|vs| - 1].proved then 1 else 0
  }

  function Failed(vs: seq<Json.Verdict>): int {
    |vs| - Passed(vs)
  }

  /** The verdict block of the page: none, all verified, or counts of both kinds. */
  datatype Headline = NoBlock | Verified(queries: nat) | Counted(passed: nat, failed: int)

  function HeadlineOf(vs: seq<Json.Verdict>): Headline {
    if |vs| == 0 then NoBlock
    else if Failed(vs) == 0 then Verified(|vs|)
    else Counted(Passed(vs), Failed(vs))
  }

  function NonValid(answers: seq<ValidityResult>): nat {
    if answers == [] then 0
    else NonValid(answers[..|answers| - 1]) + if answers[|answers| - 1].Valid? then 0 else 1
  }

  /** How many checks that count had a valid first answer. */
  function FirstValid(checks: seq<Check>): nat {
    if checks == [] then 0
    else
      var last := checks[|checks| - 1];
      FirstValid(checks[..|checks| - 1]) + if Counts(last) && ValidAtFirst(last) then 1 else 0
  }

  /** How many answers of the checks that count were not valid. */
  function NonValidAnswers(checks: seq<Check>): nat {
    if checks == [] then 0
    else
      var last := checks[|checks| - 1];
      NonValidAnswers(checks[..|checks| - 1]) + if Counts(last) then NonValid(last.answers) else 0
  }

  /** Before its last answer, a check has only failures to report. */
  lemma {:induction false} ProbedVerdicts(answers: seq<ValidityResult>)
    requires Probed(answers)
    ensures Verdicts(answers) == answers && NonValid(answers) == |answers|
  {
    if answers != [] {
      ProbedVerdicts(answers[..|answers| - 1]);
    }
  }

  /** A check streams one proved verdict or some unproved ones, never a mix. */
  lemma {:induction false} OneCheckStreams(answers: seq<ValidityResult>)
    requires IsCheck(answers)
    ensures var vs := Verdicts(answers);
            if answers[0].Valid? then vs == [Valid] && NonValid(answers) == 0
            else vs != [] && |vs| == NonValid(answers) && forall i | 0 <= i < |vs| :: !vs[i].Valid?
  {
    var n := |answers| - 1;
    var init := answers[..n];
    ProbedVerdicts(init);
    if n == 0 {
      assert init == [];
    } else {
      assert CanProbe(answers[0]);
    }
  }

  lemma {:induction false} PassedConcat(a: seq<Json.Verdict>, b: seq<Json.Verdict>)
    ensures Passed(a + b) == Passed(a) + Passed(b)
    decreases |b|
  {
    if b == [] {
      assert a + b == a;
    } else {
      PassedConcat(a, b[..|b| - 1]);
      assert (a + b)[..|a + b| - 1] == a + b[..|b| - 1];
    }
  }

  lemma {:induction false} PassedAll(vs: seq<Json.Verdict>, proved: bool)
    requires forall i | 0 <= i < |vs| :: vs[i].proved == proved
    ensures Passed(vs) == if proved then |vs| else 0
  {
    if vs != [] {
      PassedAll(vs[..|vs| - 1], proved);
    }
  }

  lemma {:induction false} OneCheckCounts(c: Check)
    requires IsCheck(c.answers)
    ensures var vs := Streamed(c.answers, c.func, c.span, c.q);
            && Passed(vs) == (if Counts(c) && ValidAtFirst(c) then 1 else 0)
            && |vs| - Passed(vs) == (if Counts(c) then NonValid(c.answers) else 0)
  {
    OneCheckStreams(c.answers);
    PassedAll(Streamed(c.answers, c.func, c.span, c.q), c.answers[0].Valid?);
  }

  /** Over a whole run, the passed count is the number of checks whose first answer was
      valid, and the failed count the number of all answers that were not. */
  lemma {:induction false} PageCountsAnswers(checks: seq<Check>)
    requires AllChecks(checks)
    ensures Passed(Stream(checks)) == FirstValid(checks) && Failed(Stream(checks)) == NonValidAnswers(checks)
  {
    if checks != [] {
      var init, last := checks[..|checks| - 1], checks[|checks| - 1];
      PageCountsAnswers(init);
      OneCheckCounts(last);
      PassedConcat(Stream(init), Streamed(last.answers, last.func, last.span, last.q));
    }
  }

  lemma {:induction false} NoFailures(checks: seq<Check>)
    requires AllChecks(checks)
    ensures NonValidAnswers(checks) == 0 <==> CountedAreValid(checks)
    ensures FirstValid(checks) + NonValidAnswers(checks) > 0 <==> AnyCounts(checks)
  {
    if checks != [] {
      var n := |checks| - 1;
      var init := checks[..n];
      NoFailures(init);
      OneCheckStreams(checks[n].answers);
      CountsConcat(init, [checks[n]]);
      assert init + [checks[n]] == checks;
    }
  }

  /** "Verified" is shown exactly when some check counted and each one that counted was
      valid at its first answer. */
  lemma {:induction false} VerifiedMeansAllValid(checks: seq<Check>)
    requires AllChecks(checks)
    ensures HeadlineOf(Stream(checks)).Verified? <==> AnyCounts(checks) && CountedAreValid(checks)
  {
    PageCountsAnswers(checks);
    NoFailures(checks);
  }

  // ---- The headline of a run ----

  /** An op that counts and asks for at least one check. */
  predicate CountsOp(op: Op) {
    op.Query? && LevelOf(op.q) == Error && CheckCount(AllCommands(op)) > 0
  }

  /** Every check of every op that counts was valid at its first answer. */
  predicate AllValidAtFirst(ops: seq<Op>, perOp: seq<seq<Check>>)
    requires |perOp| == |ops|
  {
    forall i, k | 0 <= i < |ops| && CountsOp(ops[i]) && 0 <= k < |perOp[i]| :: ValidAtFirst(perOp[i][k])
  }

  /** Some op of the run counts. */
  predicate AnyCountsOp(ops: seq<Op>) {
    exists i :: 0 <= i < |ops| && CountsOp(ops[i])
  }

  lemma {:induction false} OpCounts(op: Op, checks: seq<Check>)
    requires Answered(AllCommands(op), checks, op)
    ensures AnyCounts(checks) <==> CountsOp(op)
    ensures forall k | 0 <= k < |checks| :: Counts(checks[k]) <==> CountsOp(op)
  {
    AnsweredChecks(AllCommands(op), checks, op);
    if CountsOp(op) { assert Counts(checks[0]); }
  }

  lemma {:induction false} CountsFlattened(ops: seq<Op>, perOp: seq<seq<Check>>)
    requires IsRun(ops, perOp)
    ensures AnyCounts(Flatten(perOp)) <==> AnyCountsOp(ops)
    ensures CountedAreValid(Flatten(perOp)) <==> AllValidAtFirst(ops, perOp)
    decreases |ops|
  {
    if ops != [] {
      OpCounts(ops[0], perOp[0]);
      CountsFlattened(ops[1..], perOp[1..]);
      FirstOrRest(ops, perOp);
      CountsConcat(perOp[0], Flatten(perOp[1..]));
    }
  }

  lemma {:induction false} CountsConcat(a: seq<Check>, b: seq<Check>)
    ensures AnyCounts(a + b) <==> AnyCounts(a) || AnyCounts(b)
    ensures CountedAreValid(a + b) <==> CountedAreValid(a) && CountedAreValid(b)
  {
    var c := a + b;
    assert forall j | 0 <= j < |a| :: c[j] == a[j];
    assert forall j | 0 <= j < |b| :: c[j + |a|] == b[j];
    if j :| 0 <= j < |a| && Counts(a[j]) { assert Counts(c[j]); }
    if j :| 0 <= j < |b| && Counts(b[j]) { assert Counts(c[j + |a|]); }
    if CountedAreValid(c) {
      forall j | 0 <= j < |a| && Counts(a[j]) ensures ValidAtFirst(a[j]) { assert ValidAtFirst(c[j]); }
      forall j | 0 <= j < |b| && Counts(b[j]) ensures ValidAtFirst(b[j]) { assert ValidAtFirst(c[j + |a|]); }
    }
  }

  lemma {:induction false} FirstOrRest(ops: seq<Op>, perOp: seq<seq<Check>>)
    requires ops != [] && |perOp| == |ops|
    ensures AnyCountsOp(ops) <==> CountsOp(ops[0]) || AnyCountsOp(ops[1..])
    ensures AllValidAtFirst(ops, perOp)
            <==> (&& (CountsOp(ops[0]) ==> forall k | 0 <= k < |perOp[0]| :: ValidAtFirst(perOp[0][k]))
                  && AllValidAtFirst(ops[1..], perOp[1..]))
  {
    var ops', perOp' := ops[1..], perOp[1..];
    assert forall i | 0 <= i < |ops'| :: ops'[i] == ops[i + 1] && perOp'[i] == perOp[i + 1];
    if i :| 0 <= i < |ops'| && CountsOp(ops'[i]) { assert CountsOp(ops[i + 1]); }
    if AllValidAtFirst(ops, perOp) {
      forall i, k | 0 <= i < |ops'| && CountsOp(ops'[i]) && 0 <= k < |perOp'[i]| ensures ValidAtFirst(perOp'[i][k]) {
        assert ValidAtFirst(perOp[i + 1][k]);
      }
    }
  }

  /** What the page says of a run: verified exactly if some op that counts asked for a check
      and all their checks were valid at first; otherwise its counts are those of the
      answers. */
  predicate Tells(headline: Headline, ops: seq<Op>, perOp: seq<seq<Check>>)
    requires |perOp| == |ops|
  {
    && (headline.Verified? <==> AnyCountsOp(ops) && AllValidAtFirst(ops, perOp))
    && (headline.NoBlock? <==> !AnyCountsOp(ops))
    && (headline.Verified? ==> headline.queries == FirstValid(Flatten(perOp)))
    && (headline.Counted? ==>
          headline.passed == FirstValid(Flatten(perOp)) && headline.failed == NonValidAnswers(Flatten(perOp)) > 0)
  }

  /** The headline computed from the verdicts of a run tells of that run. */
  lemma {:induction false} HeadlineTells(ops: seq<Op>, perOp: seq<seq<Check>>)
    requires IsRun(ops, perOp)
    ensures Tells(HeadlineOf(Stream(Flatten(perOp))), ops, perOp)
  {
    var checks := Flatten(perOp);
    FlattenChecks(ops, perOp);
    PageCountsAnswers(checks);
    NoFailures(checks);
    CountsFlattened(ops, perOp);
  }
}
