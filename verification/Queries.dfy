/** `run_queries`: one section per op, a wrapper section per run of ops of one external
    crate, and a log that stays balanced wherever op generation or an op fails. */
module Queries {
  import opened Lists
  import opened CodeUnits
  import opened Sections
  import opened Emission
  import opened Wrappers
  import opened Grouping
  import opened Projection
  import opened Transcript
  import opened Probe
  import Verdicts = VerdictStream

  /** What `run_queries` looks at in an op; `krate` is the external crate, if any, and `work`
      what the op asks of the solver. */
  datatype Op = Op(krate: Option<Text>, comment: Text, work: Verdicts.Op)

  /** One op as it runs: what handling it writes to the log, and whether it fails. */
  datatype OpRun = OpRun(op: Op, written: Forest, fails: bool)

  /** One call of `opgen.next`: a failure, or the ops of one function. */
  datatype Group = NextFails | Yields(ops: seq<OpRun>)

  // ---- What runs ----

  predicate OpsSucceed(ops: seq<OpRun>) {
    forall i | 0 <= i < |ops| :: !ops[i].fails
  }

  /** The ops up to and including the first that fails. */
  function UpToFailure(ops: seq<OpRun>): seq<OpRun> {
    if ops == [] then []
    else [ops[0]] + if ops[0].fails then [] else UpToFailure(ops[1..])
  }

  function Executed(groups: seq<Group>): seq<OpRun>
    decreases |groups|, 0
  {
    if groups == [] || groups[0].NextFails? then [] else Todo(groups[0].ops, groups[1..])
  }

  function Todo(ops: seq<OpRun>, groups: seq<Group>): seq<OpRun>
    decreases |groups|, 1
  {
    if OpsSucceed(ops) then ops + Executed(groups) else UpToFailure(ops)
  }

  predicate GroupSucceeds(g: Group) {
    g.Yields? && OpsSucceed(g.ops)
  }

  predicate Succeeds(groups: seq<Group>) {
    forall i | 0 <= i < |groups| :: GroupSucceeds(groups[i])
  }

  /** What the ops ask of the solver. */
  function Works(runs: seq<OpRun>): (works: seq<Verdicts.Op>)
    ensures |works| == |runs| && forall i | 0 <= i < |runs| :: works[i] == runs[i].op.work
  {
    seq(|runs|, i requires 0 <= i < |runs| => runs[i].op.work)
  }

  lemma {:induction false} WorksConcat(a: seq<OpRun>, b: seq<OpRun>)
    ensures Works(a + b) == Works(a) + Works(b)
  {
  }

  /** The first `n` ops succeed. */
  predicate NoneFails(ops: seq<OpRun>, n: nat) {
    n <= |ops| && forall j | 0 <= j < n :: !ops[j].fails
  }

  lemma {:induction false} NoneFailsNext(ops: seq<OpRun>, n: nat)
    requires n < |ops| && NoneFails(ops, n) && !ops[n].fails
    ensures NoneFails(ops, n + 1)
  {
  }

  /** If the ops before it succeed and this one fails, it is the last that runs. */
  lemma {:induction false} StopsAt(ops: seq<OpRun>, i: nat)
    requires i < |ops| && ops[i].fails && NoneFails(ops, i)
    ensures UpToFailure(ops) == ops[..i + 1] && !OpsSucceed(ops)
  {
    if i == 0 {
      assert ops[..1] == [ops[0]] + [];
    } else {
      assert forall j | 0 <= j < i - 1 :: ops[1..][j] == ops[j + 1];
      StopsAt(ops[1..], i - 1);
      assert [ops[0]] + ops[1..][..i] == ops[..i + 1];
    }
  }

  lemma {:induction false} NeverStops(ops: seq<OpRun>)
    requires OpsSucceed(ops)
    ensures UpToFailure(ops) == ops
  {
    if ops != [] {
      NeverStops(ops[1..]);
      assert [ops[0]] + ops[1..] == ops;
    }
  }

  lemma {:induction false} SucceedsRest(groups: seq<Group>)
    requires groups != [] && Succeeds(groups)
    ensures GroupSucceeds(groups[0]) && Succeeds(groups[1..])
  {
    var rest := groups[1..];
    forall i | 0 <= i < |rest| ensures GroupSucceeds(rest[i]) { assert rest[i] == groups[i + 1]; }
  }

  lemma {:induction false} ExecutedPrefix(groups: seq<Group>, g: nat)
    requires g <= |groups| && Succeeds(groups[..g])
    ensures Executed(groups) == Executed(groups[..g]) + Executed(groups[g..])
    decreases |groups|
  {
    if g == 0 {
      assert groups[..0] == [] && groups[0..] == groups && [] + Executed(groups) == Executed(groups);
    } else {
      var rest := groups[1..];
      assert groups[..g][0] == groups[0] && groups[..g][1..] == rest[..g - 1] && rest[g - 1..] == groups[g..];
      SucceedsRest(groups[..g]);
      ExecutedPrefix(rest, g - 1);
      Assoc(groups[0].ops, Executed(rest[..g - 1]), Executed(groups[g..]));
    }
  }

  lemma {:induction false} ExecutedOne(groups: seq<Group>, g: nat)
    requires g < |groups|
    ensures var one := Executed([groups[g]]);
            && one == (if groups[g].NextFails? then [] else UpToFailure(groups[g].ops))
            && (!GroupSucceeds(groups[g]) ==> Executed(groups[g..]) == one)
  {
    assert Executed([groups[g]][1..]) == [] && groups[g..][0] == groups[g];
    if GroupSucceeds(groups[g]) {
      NeverStops(groups[g].ops);
      assert groups[g].ops + [] == groups[g].ops;
    }
  }

  /** The ops that have run after one more group, and all that run if it fails. */
  lemma {:induction false} ExecutedStep(groups: seq<Group>, g: nat)
    requires g < |groups| && Succeeds(groups[..g])
    ensures var one := if groups[g].NextFails? then [] else UpToFailure(groups[g].ops);
            && Executed(groups[..g + 1]) == Executed(groups[..g]) + one
            && (!GroupSucceeds(groups[g]) ==> Executed(groups) == Executed(groups[..g]) + one)
  {
    ExecutedOne(groups, g);
    ExecutedPrefix(groups, g);
    assert groups[..g + 1][..g] == groups[..g] && groups[..g + 1][g..] == [groups[g]];
    ExecutedPrefix(groups[..g + 1], g);
  }

  /** The ops that the generator yields before it fails, if it does. */
  function Yielded(groups: seq<Group>): seq<OpRun> {
    if groups == [] || groups[0].NextFails? then [] else groups[0].ops + Yielded(groups[1..])
  }

  /** What runs is what is yielded, up to and including the first op that fails. */
  lemma {:induction false} ExecutedIsPrefix(groups: seq<Group>)
    ensures var runs := Executed(groups);
            && runs <= Yielded(groups)
            && (forall i | 0 <= i < |runs| - 1 :: !runs[i].fails)
            && (runs == Yielded(groups) || (runs != [] && runs[|runs| - 1].fails))
    decreases |groups|
  {
    if groups != [] && groups[0].Yields? {
      var ops := groups[0].ops;
      if OpsSucceed(ops) {
        ExecutedIsPrefix(groups[1..]);
      } else {
        UpToFailureIsPrefix(ops);
        assert ops <= ops + Yielded(groups[1..]);
      }
    }
  }

  lemma {:induction false} UpToFailureIsPrefix(ops: seq<OpRun>)
    requires !OpsSucceed(ops)
    ensures var runs := UpToFailure(ops);
            && runs != [] && runs <= ops && runs[|runs| - 1].fails
            && forall i | 0 <= i < |runs| - 1 :: !runs[i].fails
  {
    if !ops[0].fails {
      var rest := ops[1..];
      assert !OpsSucceed(rest) by {
        if OpsSucceed(rest) { assert forall i | 0 < i < |ops| :: ops[i] == rest[i - 1]; }
      }
      UpToFailureIsPrefix(rest);
      assert ops == [ops[0]] + rest;
    }
  }

  // ---- What is written ----

  function Label(marker: CodeUnit, text: Text): Text {
    [SEMICOLON, SEMICOLON, marker, SPACE] + text
  }

  /** Context ops of an external crate fold on arrival; all others stay open. */
  function OpMarker(op: Op): CodeUnit {
    if op.work.Context? && op.krate.Some? then GREATER else LETTER_V
  }

  function PieceOf(run: OpRun): Piece<Text> {
    Piece(run.op.krate, if run.op.krate.Some? then Label(GREATER, run.op.krate.value) else [],
          Label(OpMarker(run.op), run.op.comment), run.written)
  }

  function Pieces(runs: seq<OpRun>): (ps: seq<Piece<Text>>)
    ensures |ps| == |runs| && forall i | 0 <= i < |ps| :: ps[i] == PieceOf(runs[i])
  {
    seq(|runs|, i requires 0 <= i < |runs| => PieceOf(runs[i]))
  }

  lemma {:induction false} PiecesStep(runs: seq<OpRun>, wrapper: Option<Text>)
    requires runs != []
    ensures LoopLines(Pieces(runs), wrapper)
            == ChangeRun(wrapper, runs[0].op.krate, PieceOf(runs[0]).wrapper) + PieceLines(PieceOf(runs[0]))
               + LoopLines(Pieces(runs[1..]), runs[0].op.krate)
  {
    assert Pieces(runs)[1..] == Pieces(runs[1..]);
  }

  // ---- The driver ----

  /** The solver context's log, in lines; the four logs receive the same section stream. */
  class Log {
    var lines: seq<Text>

    constructor (lines: seq<Text>)
      ensures this.lines == lines
    {
      this.lines := lines;
    }

    method Section(marker: CodeUnit, text: Text)
      modifies this
      ensures lines == old(lines) + [Label(marker, text)]
    {
      lines := lines + [Label(marker, text)];
    }

    method SectionClose()
      modifies this
      ensures lines == old(lines) + [CLOSE]
    {
      lines := lines + [CLOSE];
    }

    method Write(f: Forest)
      modifies this
      ensures lines == old(lines) + Marked(f)
    {
      lines := lines + Marked(f);
    }
  }

  class VerifyOutput {
    var body: seq<Text>

    constructor ()
      ensures body == []
    {
      body := [];
    }

    /** `drain_to`: move what was logged into the output. */
    method Drain(log: Log)
      modifies this, log
      ensures body == old(body) + old(log.lines) && log.lines == []
    {
      body := body + log.lines;
      log.lines := [];
    }
  }

  lemma {:induction false} TodoStep(ops: seq<OpRun>, groups: seq<Group>)
    requires ops != []
    ensures Todo(ops, groups) == [ops[0]] + if ops[0].fails then [] else Todo(ops[1..], groups)
  {
    assert ops == [ops[0]] + ops[1..];
    if !ops[0].fails {
      assert OpsSucceed(ops) <==> OpsSucceed(ops[1..]) by {
        assert forall i | 0 < i < |ops| :: ops[i] == ops[1..][i - 1];
      }
      Assoc([ops[0]], ops[1..], Executed(groups));
    }
  }

  lemma {:induction false} OpWritten(before: seq<Text>, runs: seq<OpRun>, wrapper: Option<Text>, rest: seq<OpRun>)
    requires runs != [] && rest == runs[1..]
    ensures var p := PieceOf(runs[0]);
            before + LoopLines(Pieces(runs), wrapper)
            == before + ChangeRun(wrapper, p.key, p.wrapper) + [p.banner] + Marked(p.body) + [CLOSE]
               + LoopLines(Pieces(rest), p.key)
  {
    var p := PieceOf(runs[0]);
    var change, after := ChangeRun(wrapper, p.key, p.wrapper), LoopLines(Pieces(rest), p.key);
    PiecesStep(runs, wrapper);
    Assoc(change, PieceLines(p), after);
    Assoc4(before, change, PieceLines(p), after);
    Assoc4(before + change, [p.banner], Marked(p.body), [CLOSE]);
    Assoc([p.banner], Marked(p.body), [CLOSE]);
  }

  /** The inner part of the driver, whose early returns a failure takes; the caller closes
      the wrapper that is still open. */
  method RunGroups(log: Log, groups: seq<Group>, solver: Solver, reporter: Reporter, page: Page)
    returns (ok: bool, wrapperKrate: Option<Text>, ghost perOp: seq<seq<Verdicts.Check>>)
    requires solver.open.None?
    modifies log, solver, reporter, page
    ensures ok == Succeeds(groups)
    ensures log.lines + ChangeRun(wrapperKrate, None, []) == old(log.lines) + LoopLines(Pieces(Executed(groups)), None)
    ensures solver.open.None?
    ensures Verdicts.RunProgress(Verdicts.Now(solver, reporter, page), old(Verdicts.Now(solver, reporter, page)),
                                 Works(Executed(groups)), perOp)
  {
    wrapperKrate, perOp := None, [];
    ghost var all := log.lines + LoopLines(Pieces(Executed(groups)), None);
    ghost var start := Verdicts.Now(solver, reporter, page);
    TakeAll(groups);
    Verdicts.RunStarts(start);
    assert groups[0..] == groups;
    for g := 0 to |groups|
      invariant Succeeds(groups[..g])
      invariant log.lines + LoopLines(Pieces(Executed(groups[g..])), wrapperKrate) == all
      invariant solver.open.None?
      invariant Verdicts.RunProgress(Verdicts.Now(solver, reporter, page), start, Works(Executed(groups[..g])), perOp)
    {
      assert groups[g..][0] == groups[g] && groups[g..][1..] == groups[g + 1..];
      ExecutedStep(groups, g);
      if groups[g].NextFails? {
        FailsAt(groups, g);
        return false, wrapperKrate, perOp;
      }
      WorksConcat(Executed(groups[..g]), UpToFailure(groups[g].ops));
      var succeeded;
      succeeded, wrapperKrate, perOp :=
        RunOps(log, groups[g].ops, wrapperKrate, groups[g + 1..], solver, reporter, page,
               start, Works(Executed(groups[..g])), perOp);
      if !succeeded {
        FailsAt(groups, g);
        return false, wrapperKrate, perOp;
      }
      SucceedsNext(groups, g);
    }
    assert groups[|groups|..] == [];
    ok := true;
  }

  lemma {:induction false} FailsAt(groups: seq<Group>, g: nat)
    requires g < |groups| && !GroupSucceeds(groups[g])
    ensures !Succeeds(groups) && Executed(groups[..g]) + [] == Executed(groups[..g])
  {
  }

  lemma {:induction false} SucceedsNext(groups: seq<Group>, g: nat)
    requires g < |groups| && Succeeds(groups[..g]) && GroupSucceeds(groups[g])
    ensures Succeeds(groups[..g + 1])
  {
    var upTo := groups[..g + 1];
    forall i | 0 <= i < |upTo| ensures GroupSucceeds(upTo[i]) {
      if i < g { assert upTo[i] == groups[..g][i]; }
    }
  }

  /** The ops of one function, until one fails. */
  method RunOps(log: Log, ops: seq<OpRun>, was: Option<Text>, ghost later: seq<Group>,
                solver: Solver, reporter: Reporter, page: Page,
                ghost start: Verdicts.Base, ghost done: seq<Verdicts.Op>, ghost before: seq<seq<Verdicts.Check>>)
    returns (ok: bool, wrapperKrate: Option<Text>, ghost perOp: seq<seq<Verdicts.Check>>)
    requires solver.open.None?
    requires Verdicts.RunProgress(Verdicts.Now(solver, reporter, page), start, done, before)
    modifies log, solver, reporter, page
    ensures ok == OpsSucceed(ops)
    ensures log.lines + LoopLines(Pieces(if ok then Executed(later) else []), wrapperKrate)
            == old(log.lines) + LoopLines(Pieces(Todo(ops, later)), was)
    ensures solver.open.None?
    ensures Verdicts.RunProgress(Verdicts.Now(solver, reporter, page), start, done + Works(UpToFailure(ops)), perOp)
  {
    wrapperKrate, perOp := was, before;
    ghost var all := log.lines + LoopLines(Pieces(Todo(ops, later)), was);
    assert ops[0..] == ops;
    BehindStart(Verdicts.Now(solver, reporter, page), start, done, ops, before);
    for i := 0 to |ops|
      invariant NoneFails(ops, i)
      invariant Owes(log.lines, ops, i, later, wrapperKrate, all)
      invariant solver.open.None?
      invariant Behind(Verdicts.Now(solver, reporter, page), start, done, ops, i, perOp)
    {
      ghost var lines, wrapper := log.lines, wrapperKrate;
      wrapperKrate, perOp := RunOp(log, ops[i], wrapperKrate, solver, reporter, page, start, done + Works(ops[..i]), perOp);
      BehindNext(Verdicts.Now(solver, reporter, page), start, done, ops, i, perOp);
      if ops[i].fails {
        StopsAt(ops, i);
        OwesStopped(lines, log.lines, ops, i, later, wrapper, wrapperKrate, all);
        return false, wrapperKrate, perOp;
      }
      NoneFailsNext(ops, i);
      OwesNext(lines, log.lines, ops, i, later, wrapper, wrapperKrate, all);
    }
    OwesLast(log.lines, ops, later, wrapperKrate, all);
    NeverStops(ops);
    TakeAll(ops);
    ok := true;
  }

  /** The log after one more op: the wrapper changes with the crate, then comes the section. */
  function WithOp(lines: seq<Text>, run: OpRun, wrapper: Option<Text>): seq<Text> {
    var p := PieceOf(run);
    lines + ChangeRun(wrapper, p.key, p.wrapper) + [p.banner] + Marked(p.body) + [CLOSE]
  }

  /** The log, and what is still to be written behind op `i`, add up to `all`. */
  predicate Owes(lines: seq<Text>, ops: seq<OpRun>, i: nat, later: seq<Group>, wrapper: Option<Text>, all: seq<Text>) {
    i <= |ops| && lines + LoopLines(Pieces(Todo(ops[i..], later)), wrapper) == all
  }

  lemma {:induction false} OwesNext(before: seq<Text>, after: seq<Text>, ops: seq<OpRun>, i: nat, later: seq<Group>,
                                    was: Option<Text>, wrapper: Option<Text>, all: seq<Text>)
    requires i < |ops| && Owes(before, ops, i, later, was, all) && !ops[i].fails
    requires wrapper == ops[i].op.krate && after == WithOp(before, ops[i], was)
    ensures Owes(after, ops, i + 1, later, wrapper, all)
  {
    var todo := Todo(ops[i..], later);
    assert ops[i..][0] == ops[i] && ops[i..][1..] == ops[i + 1..];
    TodoStep(ops[i..], later);
    OpWritten(before, todo, was, todo[1..]);
    assert todo[1..] == Todo(ops[i + 1..], later);
  }

  lemma {:induction false} OwesStopped(before: seq<Text>, after: seq<Text>, ops: seq<OpRun>, i: nat, later: seq<Group>,
                                       was: Option<Text>, wrapper: Option<Text>, all: seq<Text>)
    requires i < |ops| && Owes(before, ops, i, later, was, all) && ops[i].fails
    requires wrapper == ops[i].op.krate && after == WithOp(before, ops[i], was)
    ensures after + LoopLines(Pieces([]), wrapper) == all
  {
    var todo := Todo(ops[i..], later);
    TodoStep(ops[i..], later);
    OpWritten(before, todo, was, todo[1..]);
    assert todo[1..] == [];
  }

  lemma {:induction false} OwesLast(lines: seq<Text>, ops: seq<OpRun>, later: seq<Group>, wrapper: Option<Text>, all: seq<Text>)
    requires Owes(lines, ops, |ops|, later, wrapper, all)
    ensures lines + LoopLines(Pieces(Executed(later)), wrapper) == all
  {
    assert ops[|ops|..] == [] && Todo([], later) == Executed(later);
  }

  /** The first `n` ops have run behind `done`. */
  ghost predicate Behind(now: Verdicts.Base, start: Verdicts.Base, done: seq<Verdicts.Op>, ops: seq<OpRun>, n: nat,
                         perOp: seq<seq<Verdicts.Check>>) {
    n <= |ops| && Verdicts.RunProgress(now, start, done + Works(ops[..n]), perOp)
  }

  lemma {:induction false} BehindStart(now: Verdicts.Base, start: Verdicts.Base, done: seq<Verdicts.Op>, ops: seq<OpRun>,
                                       perOp: seq<seq<Verdicts.Check>>)
    requires Verdicts.RunProgress(now, start, done, perOp)
    ensures Behind(now, start, done, ops, 0, perOp)
  {
    assert done + Works(ops[..0]) == done;
  }

  lemma {:induction false} BehindNext(now: Verdicts.Base, start: Verdicts.Base, done: seq<Verdicts.Op>, ops: seq<OpRun>, i: nat,
                                      perOp: seq<seq<Verdicts.Check>>)
    requires i < |ops| && Verdicts.RunProgress(now, start, done + Works(ops[..i]) + [ops[i].op.work], perOp)
    ensures Behind(now, start, done, ops, i + 1, perOp)
  {
    WorksNext(done, ops, i);
  }

  lemma {:induction false} WorksNext(done: seq<Verdicts.Op>, ops: seq<OpRun>, i: nat)
    requires i < |ops|
    ensures done + Works(ops[..i + 1]) == done + Works(ops[..i]) + [ops[i].op.work]
  {
    assert Works(ops[..i + 1]) == Works(ops[..i]) + [ops[i].op.work];
    Assoc(done, Works(ops[..i]), [ops[i].op.work]);
  }

  /** Rotate the wrapper when the crate changes, then open, run and close the op. */
  method RunOp(log: Log, run: OpRun, wrapperKrate: Option<Text>, solver: Solver, reporter: Reporter, page: Page,
               ghost start: Verdicts.Base, ghost done: seq<Verdicts.Op>, ghost before: seq<seq<Verdicts.Check>>)
    returns (curKrate: Option<Text>, ghost perOp: seq<seq<Verdicts.Check>>)
    requires solver.open.None?
    requires Verdicts.RunProgress(Verdicts.Now(solver, reporter, page), start, done, before)
    modifies log, solver, reporter, page
    ensures curKrate == run.op.krate
    ensures log.lines == WithOp(old(log.lines), run, wrapperKrate)
    ensures solver.open.None?
    ensures Verdicts.RunProgress(Verdicts.Now(solver, reporter, page), start, done + [run.op.work], perOp)
  {
    curKrate := run.op.krate;
    if wrapperKrate != curKrate {
      if wrapperKrate.Some? {
        log.SectionClose();
      }
      if curKrate.Some? {
        log.Section(GREATER, curKrate.value);
      }
    }
    assert log.lines == old(log.lines) + ChangeRun(wrapperKrate, curKrate, PieceOf(run).wrapper);
    log.Section(if run.op.work.Context? && curKrate.Some? then GREATER else LETTER_V, run.op.comment);
    perOp := Verdicts.RunNext(run.op.work, solver, reporter, page, start, done, before);
    log.Write(run.written);
    log.SectionClose();
  }

  /** The solver calls of a prelude. */
  function Feeds(n: nat): seq<Call> {
    Verdicts.CallsOf(seq(n, _ => Verdicts.OtherCommand), [])
  }

  lemma {:induction false} FeedsAreSpelled(n: nat)
    ensures |Feeds(n)| == n && forall i | 0 <= i < n :: Feeds(n)[i] == Feed
  {
    if n > 0 {
      FeedsAreSpelled(n - 1);
      Verdicts.FedOne(n - 1);
    }
  }

  /** On entry the log holds the solver options and the opening line of the prelude, which
      the solver context writes when it starts. Wherever the run stops, the ops whose
      sections are written are those whose checks are asked for and streamed. */
  method RunQueries(log: Log, output: VerifyOutput, prelude: Forest, commands: nat, preludeFails: bool, groups: seq<Group>,
                    solver: Solver, reporter: Reporter, page: Page)
    returns (ok: bool, ghost perOp: seq<seq<Verdicts.Check>>)
    requires solver.open.None?
    modifies log, output, solver, reporter, page
    ensures ok == (!preludeFails && Succeeds(groups))
    ensures preludeFails ==> output.body == old(output.body) && page.verdicts == old(page.verdicts) && reporter.reports == old(reporter.reports)
    ensures !preludeFails ==>
              && log.lines == []
              && output.body == old(output.body) + (old(log.lines) + Marked(prelude) + [CLOSE])
                                + Marked(Grouped(Pieces(Executed(groups))))
    ensures !preludeFails ==>
              Verdicts.RunProgress(Verdicts.Now(solver, reporter, page),
                                   Verdicts.Base(old(solver.calls) + Feeds(commands), old(page.verdicts), old(reporter.reports)),
                                   Works(Executed(groups)), perOp)
  {
    perOp := [];
    Verdicts.FeedAll(solver, commands);
    log.Write(prelude);
    if preludeFails {
      return false, perOp;
    }
    log.SectionClose();
    output.Drain(log);
    var wrapperKrate;
    ok, wrapperKrate, perOp := RunGroups(log, groups, solver, reporter, page);
    if wrapperKrate.Some? {
      log.SectionClose();
    }
    LoopWritesGroups(Pieces(Executed(groups)));
    assert log.lines == [] + Marked(Grouped(Pieces(Executed(groups))));
    assert log.lines == Marked(Grouped(Pieces(Executed(groups))));
    output.Drain(log);
  }

  // ---- Every run leaves a well-formed transcript ----

  /** What is assumed of the parts written upstream: labels are one line and do not pose
      as a response, and handling an op writes a well-formed piece of transcript. */
  predicate WellFormedRun(run: OpRun) {
    && WellFormed(run.written)
    && LabelText(run.op.comment) && (run.op.krate.Some? ==> LabelText(run.op.krate.value))
  }

  predicate LabelText(text: Text) {
    SingleLine(text) && !EndsInReturn(text) && !(RESPONSE[4..] <= text)
  }

  const PRELUDE: Text := [0x41, 0x49, 0x52, 0x20, 0x70, 0x72, 0x65, 0x6C, 0x75, 0x64, 0x65]

  lemma {:induction false} LabelOpens(marker: CodeUnit, text: Text)
    requires LabelText(text) && (marker == GREATER || marker == LETTER_V)
    ensures OpeningLine(Label(marker, text)) && !IsResponse(Label(marker, text))
  {
    var l := Label(marker, text);
    assert text != [] ==> l[|l| - 1] == text[|text| - 1];
    ResponseLabel(marker, text);
  }

  lemma {:induction false} ResponseLabel(marker: CodeUnit, text: Text)
    ensures IsResponse(Label(marker, text)) ==> RESPONSE[4..] <= text
  {
    var l := Label(marker, text);
    if IsResponse(l) {
      assert l[4..] == text && l[..13] == RESPONSE;
      assert RESPONSE[4..] == l[..13][4..] == text[..9];
    }
  }

  lemma {:induction false} SectionsWellFormed(ps: seq<Piece<Text>>)
    requires forall i | 0 <= i < |ps| :: OpeningLine(ps[i].banner) && !IsResponse(ps[i].banner) && WellFormed(ps[i].body)
    ensures WellFormed(PieceSections(ps))
  {
    if ps != [] {
      SectionsWellFormed(ps[1..]);
    }
  }

  predicate WellFormedPiece(p: Piece<Text>) {
    && OpeningLine(p.banner) && !IsResponse(p.banner) && WellFormed(p.body)
    && (p.key.Some? ==> OpeningLine(p.wrapper) && !IsResponse(p.wrapper))
  }

  lemma {:induction false} GroupedWellFormed(ps: seq<Piece<Text>>)
    requires forall i | 0 <= i < |ps| :: WellFormedPiece(ps[i])
    ensures WellFormed(Grouped(ps)) && EndsClosed(QueryView(Grouped(ps)))
    decreases |ps|
  {
    if ps != [] {
      var n := BlockLength(ps);
      GroupedWellFormed(ps[n..]);
      SectionsWellFormed(ps[..n]);
    }
  }

  lemma {:induction false} GroupedEndsClosed(ps: seq<Piece<Text>>)
    ensures EndsClosed(Grouped(ps))
    decreases |ps|
  {
    if ps != [] {
      GroupedEndsClosed(ps[BlockLength(ps)..]);
    }
  }

  /** A local op by itself, or ops of one external crate under a banner with its name. */
  predicate NamesItsCrate(block: seq<Piece<Text>>) {
    && block != []
    && if block[0].key.None? then |block| == 1
       else forall j | 0 <= j < |block| ::
              block[j].key == block[0].key && block[0].wrapper == Label(GREATER, block[j].key.value)
  }

  /** Each local op is a section of its own; each external op sits in a wrapper that names
      its crate, and two wrappers in a row name different crates. */
  lemma {:induction false} WrappersNameTheirCrates(groups: seq<Group>)
    ensures var blocks := Blocks(Pieces(Executed(groups)));
            && AreBlocks(blocks) && Flatten(blocks) == Pieces(Executed(groups))
            && Grouped(Pieces(Executed(groups))) == BlockForest(blocks)
            && forall i | 0 <= i < |blocks| :: NamesItsCrate(blocks[i])
  {
    var ps := Pieces(Executed(groups));
    GroupedIsBlocks(ps);
    var blocks: seq<seq<Piece<Text>>> := Blocks(ps);
    forall i | 0 <= i < |blocks| ensures NamesItsCrate(blocks[i]) {
      assert IsBlock(blocks[i]);
      var k := FlattenMember(blocks, i, 0);
      assert ps[k] == blocks[i][0];
    }
  }

  lemma {:induction false} FlattenMember(blocks: seq<seq<Piece<Text>>>, i: nat, j: nat) returns (k: nat)
    requires i < |blocks| && j < |blocks[i]|
    ensures k < |Flatten(blocks)| && Flatten(blocks)[k] == blocks[i][j]
  {
    if i == 0 {
      k := j;
    } else {
      k := FlattenMember(blocks[1..], i - 1, j);
      k := |blocks[0]| + k;
    }
  }
}
