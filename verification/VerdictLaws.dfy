/** What the verdicts, reports, retries and solver calls of a run are, spelled out by the query
    op and the answers. */
module VerdictLaws {
  import opened Lists
  import opened Wrappers
  import opened Probe
  import opened VerdictStream

  /** Recommends are side channels: what they find is a note or a warning and no verdict. */
  predicate IsRecommends(q: QueryOp) {
    q == Body(RecommendsFollowupFromError) || q == Body(RecommendsChecked)
  }

  // ---- Which ops count ----

  lemma {:induction false} CountsUnlessRecommends(op: Op)
    ensures CountsOp(op) <==> op.Query? && !IsRecommends(op.q) && CheckCount(AllCommands(op)) > 0
  {
  }

  /** Finished checks of one query op. */
  predicate ChecksOfOp(checks: seq<Check>, q: QueryOp) {
    forall i | 0 <= i < |checks| :: IsCheck(checks[i].answers) && checks[i].q == q
  }

  lemma {:induction false} FewerOfOp(checks: seq<Check>, q: QueryOp)
    requires checks != [] && ChecksOfOp(checks, q)
    ensures var n := |checks| - 1; ChecksOfOp(checks[..n], q) && IsCheck(checks[n].answers) && checks[n].q == q
  {
  }

  lemma {:induction false} OneCheckStreamsSome(c: Check)
    requires IsCheck(c.answers)
    ensures Streamed(c.answers, c.func, c.span, c.q) != [] <==> !IsRecommends(c.q)
  {
    OneCheckStreams(c.answers);
  }

  lemma {:induction false} StreamOfChecks(checks: seq<Check>, q: QueryOp)
    requires ChecksOfOp(checks, q)
    ensures Stream(checks) != [] <==> checks != [] && !IsRecommends(q)
  {
    if checks != [] {
      FewerOfOp(checks, q);
      StreamOfChecks(checks[..|checks| - 1], q);
      OneCheckStreamsSome(checks[|checks| - 1]);
    }
  }

  lemma {:induction false} AnsweredOfOp(op: Op, checks: seq<Check>)
    requires Answered(AllCommands(op), checks, op) && op.Query?
    ensures ChecksOfOp(checks, op.q) && |checks| == CheckCount(AllCommands(op))
  {
    AnsweredChecks(AllCommands(op), checks, op);
    forall i | 0 <= i < |checks| ensures checks[i].q == op.q { assert BelongsTo(checks[i], op); }
  }

  /** A query op with checks streams verdicts iff it is no recommends op. */
  lemma {:induction false} StreamsUnlessRecommends(op: Op, checks: seq<Check>)
    requires Answered(AllCommands(op), checks, op)
    ensures Stream(checks) != [] <==> op.Query? && !IsRecommends(op.q) && CheckCount(AllCommands(op)) > 0
  {
    AnsweredChecks(AllCommands(op), checks, op);
    if op.Query? {
      AnsweredOfOp(op, checks);
      StreamOfChecks(checks, op.q);
    }
  }

  // ---- The verdicts of a check ----

  /** A check that counts streams its answers, in order, but for a valid one at the end. */
  lemma {:induction false} VerdictsAreAnswers(answers: seq<ValidityResult>)
    requires IsCheck(answers)
    ensures var n := |answers| - 1;
            Verdicts(answers) == if n > 0 && answers[n].Valid? then answers[..n] else answers
  {
    var n := |answers| - 1;
    ProbedVerdicts(answers[..n]);
    assert answers == answers[..n] + [answers[n]];
    if n == 0 { assert answers[..0] == []; }
  }

  /** The five fields of a verdict. */
  lemma {:induction false} VerdictIsSpelled(r: ValidityResult, func: string, span: string, q: QueryOp)
    ensures var v := FromResult(r, func, span, q);
            && v.function_ == func && v.span == span && (v.proved <==> r == Valid)
            && (v.outcome == match r
                             case Valid => "valid"
                             case Invalid(_, _, _) => "invalid"
                             case Canceled => "timeout"
                             case TypeError => "type error"
                             case UnexpectedOutput(text) => "solver error: " + text)
            && (v.kind == match q
                          case SpecTermination => "spec termination"
                          case Body(Normal) => "body"
                          case Body(RecommendsFollowupFromError) => "recommends"
                          case Body(RecommendsChecked) => "recommends check"
                          case Body(Expanded) => "expanded"
                          case Body(CheckApiSafety) => "api safety")
  {
  }

  // ---- Reports ----

  /** The messages of the failures that come with one. */
  function Messages(answers: seq<ValidityResult>): seq<nat> {
    if answers == [] then []
    else
      (if answers[0].Invalid? && answers[0].error.Some? then [answers[0].error.value] else []) + Messages(answers[1..])
  }

  function AtLevel(messages: seq<nat>, level: Level): (rs: seq<Report>)
    ensures |rs| == |messages| && forall i | 0 <= i < |rs| :: rs[i] == Report(level, messages[i])
  {
    seq(|messages|, i requires 0 <= i < |messages| => Report(level, messages[i]))
  }

  lemma {:induction false} MessagesConcat(a: seq<ValidityResult>, b: seq<ValidityResult>)
    ensures Messages(a + b) == Messages(a) + Messages(b)
  {
    if a == [] {
      assert a + b == b;
    } else {
      assert (a + b)[1..] == a[1..] + b;
      MessagesConcat(a[1..], b);
      Assoc(if a[0].Invalid? && a[0].error.Some? then [a[0].error.value] else [], Messages(a[1..]), Messages(b));
    }
  }

  lemma {:induction false} AtLevelConcat(a: seq<nat>, b: seq<nat>, level: Level)
    ensures AtLevel(a + b, level) == AtLevel(a, level) + AtLevel(b, level)
  {
  }

  /** What one answer is reported as, if it is the first or a later one. */
  lemma {:induction false} OneReport(r: ValidityResult, level: Level, hint: Option<nat>)
    ensures ReportsOf(r, false, level, hint) == AtLevel(Messages([r]), level)
    ensures Reports([r], level, hint)
            == AtLevel(Messages([r]), level) + if r.Invalid? && r.error.Some? && hint.Some? then [Report(Note, hint.value)] else []
  {
    assert [r][..0] == [] && [r][1..] == [];
    assert Reports([r], level, hint) == [] + ReportsOf(r, true, level, hint);
  }

  /** Behind the first answer, every message goes out at the level and no hint does. */
  lemma {:induction false} LaterReports(first: ValidityResult, later: seq<ValidityResult>, level: Level, hint: Option<nat>)
    ensures Reports([first] + later, level, hint) == Reports([first], level, hint) + AtLevel(Messages(later), level)
  {
    if later == [] {
      assert [first] + later == [first] && AtLevel(Messages(later), level) == [];
    } else {
      var n := |later| - 1;
      LaterReports(first, later[..n], level, hint);
      LaterReport(first, later[..n], later[n], level, hint);
      TakeNext(later, n);
      TakeAll(later);
    }
  }

  lemma {:induction false} LaterReport(first: ValidityResult, init: seq<ValidityResult>, last: ValidityResult, level: Level, hint: Option<nat>)
    requires Reports([first] + init, level, hint) == Reports([first], level, hint) + AtLevel(Messages(init), level)
    ensures Reports([first] + (init + [last]), level, hint)
            == Reports([first], level, hint) + AtLevel(Messages(init + [last]), level)
  {
    var before := [first] + init;
    Assoc([first], init, [last]);
    assert (before + [last])[..|before|] == before;
    OneReport(last, level, hint);
    MessagesConcat(init, [last]);
    AtLevelConcat(Messages(init), Messages([last]), level);
    Assoc(Reports([first], level, hint), AtLevel(Messages(init), level), AtLevel(Messages([last]), level));
  }

  /** What a check reports: its messages in order, as notes, warnings or errors by the query
      op; and the hint, as a note, right behind the first answer's message and nowhere else. */
  lemma {:induction false} ReportsAreSpelled(answers: seq<ValidityResult>, q: QueryOp, hint: Option<nat>)
    requires answers != []
    ensures var level := if q == Body(RecommendsFollowupFromError) then Note else if q == Body(RecommendsChecked) then Warning else Error;
            var hinted := hint.Some? && answers[0].Invalid? && answers[0].error.Some?;
            Reports(answers, LevelOf(q), hint)
            == AtLevel(Messages([answers[0]]), level) + (if hinted then [Report(Note, hint.value)] else [])
               + AtLevel(Messages(answers[1..]), level)
  {
    assert [answers[0]] + answers[1..] == answers;
    LaterReports(answers[0], answers[1..], LevelOf(q), hint);
    OneReport(answers[0], LevelOf(q), hint);
  }

  /** Failed assertions are collected from the default prover only. */
  lemma {:induction false} FailedIdsAreSpelled(answers: seq<ValidityResult>, r: ValidityResult, prover: Prover)
    ensures prover != DefaultProver ==> FailedIds(answers, prover) == []
    ensures FailedIds(answers + [r], DefaultProver)
            == FailedIds(answers, DefaultProver) + if r.Invalid? && r.assertId.Some? then [r.assertId.value] else []
    ensures FailedIds([], prover) == []
  {
    assert (answers + [r])[..|answers|] == answers;
    if prover != DefaultProver && answers != [] {
      FailedIdsAreSpelled(answers[..|answers| - 1], r, prover);
    }
  }

  // ---- Follow-up work, by the verdicts ----

  predicate AllProved(vs: seq<Json.Verdict>) {
    forall i | 0 <= i < |vs| :: vs[i].proved
  }

  predicate AnyTimeout(vs: seq<Json.Verdict>) {
    exists i :: 0 <= i < |vs| && vs[i].outcome == "timeout"
  }

  lemma {:induction false} ProvedConcat(a: seq<Json.Verdict>, b: seq<Json.Verdict>)
    ensures AllProved(a + b) <==> AllProved(a) && AllProved(b)
    ensures AnyTimeout(a + b) <==> AnyTimeout(a) || AnyTimeout(b)
  {
    var c := a + b;
    assert forall j | 0 <= j < |a| :: c[j] == a[j];
    assert forall j | 0 <= j < |b| :: c[j + |a|] == b[j];
    if j :| 0 <= j < |a| && a[j].outcome == "timeout" { assert c[j].outcome == "timeout"; }
    if j :| 0 <= j < |b| && b[j].outcome == "timeout" { assert c[j + |a|].outcome == "timeout"; }
    if AllProved(c) {
      forall j | 0 <= j < |a| ensures a[j].proved { assert c[j].proved; }
      forall j | 0 <= j < |b| ensures b[j].proved { assert c[j + |a|].proved; }
    }
  }

  lemma {:induction false} OneCheckProved(c: Check)
    requires IsCheck(c.answers) && !IsRecommends(c.q)
    ensures var vs := Streamed(c.answers, c.func, c.span, c.q);
            && (AllProved(vs) <==> !AnyInvalid(c.answers))
            && (AnyTimeout(vs) <==> AnyTimedOut(c.answers))
  {
    var answers, n := c.answers, |c.answers| - 1;
    var vs, rs := Streamed(answers, c.func, c.span, c.q), Verdicts(answers);
    VerdictsAreAnswers(answers);
    assert forall i | 0 <= i < |rs| :: rs[i] == answers[i];
    forall i | 0 <= i < |vs| ensures (vs[i].proved <==> rs[i].Valid?) && (vs[i].outcome == "timeout" <==> rs[i].Canceled?) {
      OutcomeIsTimeout(rs[i]);
    }
    if i :| 0 <= i < |answers| && !answers[i].Valid? { assert i < |vs| && !vs[i].proved; }
    if i :| 0 <= i < |answers| && answers[i].Canceled? { assert i < |vs| && vs[i].outcome == "timeout"; }
  }

  lemma {:induction false} OutcomeIsTimeout(r: ValidityResult)
    ensures Outcome(r) == "timeout" <==> r.Canceled?
  {
    if r.UnexpectedOutput? { assert Outcome(r)[0] == 's'; }
  }

  lemma {:induction false} ChecksProved(checks: seq<Check>, q: QueryOp)
    requires ChecksOfOp(checks, q) && !IsRecommends(q)
    ensures AllProved(Stream(checks)) <==> !AnyFailed(checks)
    ensures AnyTimeout(Stream(checks)) <==> AnyCanceled(checks)
  {
    if checks != [] {
      var n := |checks| - 1;
      var last := checks[n];
      FewerOfOp(checks, q);
      ChecksProved(checks[..n], q);
      OneCheckProved(last);
      ProvedConcat(Stream(checks[..n]), Streamed(last.answers, last.func, last.span, last.q));
      FlagsGrow(checks[..n], last);
      TakeNext(checks, n);
      TakeAll(checks);
    }
  }

  /** Recommends are retried iff a body or termination query streamed a verdict that is not
      proved; an expanded query reports by its own verdicts. */
  lemma {:induction false} FollowUpIsSpelled(op: Op, checks: seq<Check>)
    requires Answered(AllCommands(op), checks, op)
    ensures RetryOf(op, checks)
            <==> op.Query? && (op.q == Body(Normal) || op.q == SpecTermination) && !AllProved(Stream(checks))
    ensures ExpandReportOf(op, checks)
            == if op.Query? && op.q == Body(Expanded)
               then Some(if AnyTimeout(Stream(checks)) then Timeout else if AllProved(Stream(checks)) then Pass else Fail)
               else None
  {
    AnsweredChecks(AllCommands(op), checks, op);
    if op.Query? && !IsRecommends(op.q) {
      AnsweredOfOp(op, checks);
      ChecksProved(checks, op.q);
    }
  }

  // ---- The protocol of the solver ----

  /** Between two calls: no query is open, one is with its last answer, or a call was wrong. */
  datatype Protocol = Closed | Open(answer: ValidityResult) | Violated

  /** Commands are fed and checks are asked for between queries; a query is probed only behind
      a failure with model and message, and finished once. */
  function Next(p: Protocol, c: Call): Protocol {
    match (p, c)
    case (Closed, Feed) => Closed
    case (Closed, CheckValid(r)) => Open(r)
    case (Open(Invalid(true, Some(_), _)), Again(_, r)) => Open(r)
    case (Open(_), FinishQuery) => Closed
    case _ => Violated
  }

  function Behind(p: Protocol, calls: seq<Call>): Protocol {
    if calls == [] then p else Next(Behind(p, calls[..|calls| - 1]), calls[|calls| - 1])
  }

  function Checks(calls: seq<Call>): nat {
    if calls == [] then 0 else Checks(calls[..|calls| - 1]) + if calls[|calls| - 1].CheckValid? then 1 else 0
  }

  function Fed(calls: seq<Call>): nat {
    if calls == [] then 0 else Fed(calls[..|calls| - 1]) + if calls[|calls| - 1].Feed? then 1 else 0
  }

  lemma {:induction false} BehindConcat(p: Protocol, a: seq<Call>, b: seq<Call>)
    ensures Behind(p, a + b) == Behind(Behind(p, a), b) && Checks(a + b) == Checks(a) + Checks(b) && Fed(a + b) == Fed(a) + Fed(b)
    decreases |b|
  {
    if b == [] {
      assert a + b == a;
    } else {
      BehindConcat(p, a, b[..|b| - 1]);
      assert (a + b)[..|a + b| - 1] == a + b[..|b| - 1];
    }
  }

  lemma {:induction false} ProbingIsOrderly(answers: seq<ValidityResult>)
    requires answers != [] && forall i | 0 <= i < |answers| - 1 :: CanProbe(answers[i])
    ensures Behind(Closed, Calls(answers)) == Open(answers[|answers| - 1]) && Checks(Calls(answers)) == 1 && Fed(Calls(answers)) == 0
  {
    var n := |answers| - 1;
    if n == 0 {
      assert Calls(answers)[..0] == [];
    } else {
      var before := Calls(answers[..n]);
      ProbingIsOrderly(answers[..n]);
      assert CanProbe(answers[n - 1]);
      assert Calls(answers)[..|before|] == before;
    }
  }

  lemma {:induction false} OneCall(p: Protocol, c: Call)
    ensures Behind(p, [c]) == Next(p, c) && Checks([c]) == (if c.CheckValid? then 1 else 0) && Fed([c]) == if c.Feed? then 1 else 0
  {
    assert [c][..0] == [];
  }

  lemma {:induction false} CallsAreOrderly(commands: seq<Command>, checks: seq<Check>, op: Op)
    requires Answered(commands, checks, op)
    ensures Behind(Closed, CallsOf(commands, checks)) == Closed && Checks(CallsOf(commands, checks)) == CheckCount(commands)
    ensures Fed(CallsOf(commands, checks)) + CheckCount(commands) == |commands|
    decreases |commands|
  {
    if commands != [] {
      var n := |commands| - 1;
      if commands[n].OtherCommand? {
        CallsAreOrderly(commands[..n], checks, op);
        OneCall(Closed, Feed);
        BehindConcat(Closed, CallsOf(commands[..n], checks), [Feed]);
      } else {
        var m := |checks| - 1;
        var before, own := CallsOf(commands[..n], checks[..m]), Calls(checks[m].answers);
        CallsAreOrderly(commands[..n], checks[..m], op);
        ProbingIsOrderly(checks[m].answers);
        OneCall(Open(checks[m].answers[|checks[m].answers| - 1]), FinishQuery);
        BehindConcat(Closed, own, [FinishQuery]);
        BehindConcat(Closed, before, own + [FinishQuery]);
      }
    }
  }

  function AllCount(ops: seq<Op>): nat {
    if ops == [] then 0 else AllCount(ops[..|ops| - 1]) + |AllCommands(ops[|ops| - 1])|
  }

  function AllCheckCount(ops: seq<Op>): nat {
    if ops == [] then 0 else AllCheckCount(ops[..|ops| - 1]) + CheckCount(AllCommands(ops[|ops| - 1]))
  }

  lemma {:induction false} FewerOps(ops: seq<Op>, perOp: seq<seq<Check>>)
    requires IsRun(ops, perOp) && ops != []
    ensures var n := |ops| - 1; IsRun(ops[..n], perOp[..n]) && Answered(AllCommands(ops[n]), perOp[n], ops[n])
  {
  }

  /** Over a whole run no call to the solver is out of order, there is one check for each
      command that asks for one, and every other command is fed. */
  lemma {:induction false} RunIsOrderly(ops: seq<Op>, perOp: seq<seq<Check>>)
    requires IsRun(ops, perOp)
    ensures Behind(Closed, RunCalls(ops, perOp)) == Closed && Checks(RunCalls(ops, perOp)) == AllCheckCount(ops)
    ensures Fed(RunCalls(ops, perOp)) + AllCheckCount(ops) == AllCount(ops)
  {
    if ops != [] {
      var n := |ops| - 1;
      var before, own := RunCalls(ops[..n], perOp[..n]), CallsOf(AllCommands(ops[n]), perOp[n]);
      FewerOps(ops, perOp);
      RunIsOrderly(ops[..n], perOp[..n]);
      CallsAreOrderly(AllCommands(ops[n]), perOp[n], ops[n]);
      BehindConcat(Closed, before, own);
    }
  }
}
