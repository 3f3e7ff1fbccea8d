/** `handle_op`: check a query, probe for further failing assertions, and stream one
    verdict per answer that counts; the page's headline is computed from that stream. */
module Probe {
  import opened Lists
  import opened Wrappers
  import Json

  // ---- Answers of the solver ----

  /** An `Invalid` answer may come with a model, an error message and an assertion id. */
  datatype ValidityResult =
    | Valid
    | Invalid(model: bool, error: Option<nat>, assertId: Option<nat>)
    | Canceled
    | TypeError
    | UnexpectedOutput(text: string)

  /** After these answers, and no others, the solver can be asked again. */
  predicate CanProbe(r: ValidityResult) {
    r.Invalid? && r.model && r.error.Some?
  }

  datatype Style = Normal | RecommendsFollowupFromError | RecommendsChecked | Expanded | CheckApiSafety
  datatype QueryOp = SpecTermination | Body(style: Style)
  datatype Level = Error | Warning | Note
  datatype Prover = DefaultProver | Nonlinear | BitVector
  datatype ExpandResult = Pass | Fail | Timeout

  function LevelOf(q: QueryOp): Level {
    match q
    case SpecTermination => Error
    case Body(RecommendsFollowupFromError) => Note
    case Body(RecommendsChecked) => Warning
    case Body(_) => Error
  }

  function KindName(q: QueryOp): string {
    match q
    case SpecTermination => "spec termination"
    case Body(Normal) => "body"
    case Body(RecommendsFollowupFromError) => "recommends"
    case Body(RecommendsChecked) => "recommends check"
    case Body(Expanded) => "expanded"
    case Body(CheckApiSafety) => "api safety"
  }

  function Outcome(r: ValidityResult): string {
    match r
    case Valid => "valid"
    case Invalid(_, _, _) => "invalid"
    case Canceled => "timeout"
    case TypeError => "type error"
    case UnexpectedOutput(s) => "solver error: " + s
  }

  /** `Verdict::from_result`. */
  function FromResult(r: ValidityResult, func: string, span: string, q: QueryOp): Json.Verdict {
    Json.Verdict(func, span, KindName(q), Outcome(r), r.Valid?)
  }

  // ---- What one check does, as a function of the answers ----

  /** The answers to one check: it is probed again after each answer but the last. */
  predicate IsCheck(answers: seq<ValidityResult>) {
    && answers != []
    && (forall i | 0 <= i < |answers| - 1 :: CanProbe(answers[i]))
    && !CanProbe(answers[|answers| - 1])
  }

  predicate Probed(answers: seq<ValidityResult>) {
    forall i | 0 <= i < |answers| :: CanProbe(answers[i])
  }

  datatype Call = Feed | CheckValid(answer: ValidityResult) | Again(onlyEarlier: bool, answer: ValidityResult) | FinishQuery

  const BROAD_CHECKS: nat := 8

  /** The calls for the answers so far: the probes are broad for as long as the budget
      lasts, and only look for earlier failures from the eighth on. */
  function Calls(answers: seq<ValidityResult>): seq<Call> {
    if answers == [] then []
    else
      var n := |answers| - 1;
      if n == 0 then [CheckValid(answers[0])]
      else Calls(answers[..n]) + [Again(n >= BROAD_CHECKS, answers[n])]
  }

  /** The verdicts of a check that counts: its first answer, and every further failure. */
  function Verdicts(answers: seq<ValidityResult>): seq<ValidityResult> {
    if answers == [] then []
    else
      var n := |answers| - 1;
      Verdicts(answers[..n]) + if n == 0 || !answers[n].Valid? then [answers[n]] else []
  }

  datatype Report = Report(level: Level, message: nat)

  /** Each error at the op's level, and the hint as a note right after the first answer's. */
  function Reports(answers: seq<ValidityResult>, level: Level, hint: Option<nat>): seq<Report> {
    if answers == [] then []
    else
      var n := |answers| - 1;
      Reports(answers[..n], level, hint)
      + ReportsOf(answers[n], n == 0, level, hint)
  }

  // ---- The solver ----

  /** The solver context. Its answers are arbitrary, except that a probe for earlier
      failures shrinks the set of enabled labels or ends the probing. */
  class Solver {
    var calls: seq<Call>
    var open: Option<ValidityResult>
    var enabled: nat

    constructor ()
      ensures calls == [] && open.None?
    {
      calls, open, enabled := [], None, 0;
    }

    method FeedCommand()
      requires open.None?
      modifies this
      ensures calls == old(calls) + [Feed] && open.None?
    {
      calls := calls + [Feed];
      enabled := *;
    }

    method Check() returns (r: ValidityResult)
      requires open.None?
      modifies this
      ensures calls == old(calls) + [CheckValid(r)] && open == Some(r)
    {
      r := *;
      enabled := *;
      calls, open := calls + [CheckValid(r)], Some(r);
    }

    /** Panics unless the last answer left a model and a message to continue from. */
    method CheckValidAgain(onlyEarlier: bool) returns (r: ValidityResult)
      requires open.Some? && open.value.Invalid? && open.value.model && open.value.error.Some?
      modifies this
      ensures calls == old(calls) + [Again(onlyEarlier, r)] && open == Some(r)
      ensures onlyEarlier && CanProbe(r) ==> enabled < old(enabled)
    {
      r := *;
      if onlyEarlier {
        if enabled == 0 {
          r := Valid;
        } else {
          enabled := enabled - 1;
        }
      }
      calls, open := calls + [Again(onlyEarlier, r)], Some(r);
    }

    method Finish()
      requires open.Some?
      modifies this
      ensures calls == old(calls) + [FinishQuery] && open.None?
    {
      calls, open := calls + [FinishQuery], None;
    }
  }

  class Reporter {
    var reports: seq<Report>

    method ReportAs(level: Level, message: nat)
      modifies this
      ensures reports == old(reports) + [Report(level, message)]
    {
      reports := reports + [Report(level, message)];
    }
  }

  /** The page: it parses each message and keeps what parses. */
  class Page {
    var verdicts: seq<Json.Verdict>

    /** A run starts with none. */
    method ClearVerdicts()
      modifies this
      ensures verdicts == []
    {
      verdicts := [];
    }

    method VerusVerdict(msg: string)
      modifies this
      ensures verdicts == old(verdicts) + match Json.ReadVerdict(msg) case Some(v) => [v] case None => []
    {
      match Json.ReadVerdict(msg)
      case Some(v) => verdicts := verdicts + [v];
      case None =>
    }
  }

  function ToVerdicts(rs: seq<ValidityResult>, func: string, span: string, q: QueryOp): (vs: seq<Json.Verdict>)
    ensures |vs| == |rs| && forall i | 0 <= i < |rs| :: vs[i] == FromResult(rs[i], func, span, q)
  {
    seq(|rs|, i requires 0 <= i < |rs| => FromResult(rs[i], func, span, q))
  }

  /** What an op's check adds to the page. */
  function Streamed(answers: seq<ValidityResult>, func: string, span: string, q: QueryOp): seq<Json.Verdict> {
    if LevelOf(q) == Error then ToVerdicts(Verdicts(answers), func, span, q) else []
  }

  predicate AnyInvalid(answers: seq<ValidityResult>) {
    exists i :: 0 <= i < |answers| && !answers[i].Valid?
  }

  predicate AnyTimedOut(answers: seq<ValidityResult>) {
    exists i :: 0 <= i < |answers| && answers[i].Canceled?
  }

  function FailedIds(answers: seq<ValidityResult>, prover: Prover): seq<nat> {
    if answers == [] then []
    else
      FailedIds(answers[..|answers| - 1], prover) + IdsOf(answers[|answers| - 1], prover)
  }

  datatype Start = Start(reports: seq<Report>, verdicts: seq<Json.Verdict>, ids: seq<nat>)

  /** What the answers to one check leave behind, on top of what was there at its start:
      reports, verdicts on the page, failed assertion ids, and the two flags. */
  ghost predicate Recorded(reports: seq<Report>, verdicts: seq<Json.Verdict>, ids: seq<nat>, anyInvalid: bool, anyTimedOut: bool,
                           start: Start, answers: seq<ValidityResult>,
                           q: QueryOp, func: string, span: string, hint: Option<nat>, prover: Prover) {
    && reports == start.reports + Reports(answers, LevelOf(q), hint)
    && verdicts == start.verdicts + Streamed(answers, func, span, q)
    && ids == start.ids + FailedIds(answers, prover)
    && anyInvalid == AnyInvalid(answers) && anyTimedOut == AnyTimedOut(answers)
  }

  /** One `CheckValid` command with its two-phase probe loop. */
  method CheckAndProbe(solver: Solver, reporter: Reporter, page: Page, q: QueryOp, func: string, span: string,
                       hint: Option<nat>, prover: Prover, failedIds: seq<nat>)
    returns (ids: seq<nat>, anyInvalid: bool, anyTimedOut: bool, ghost answers: seq<ValidityResult>)
    requires solver.open.None?
    modifies solver, reporter, page
    ensures solver.open.None? && IsCheck(answers)
    ensures solver.calls == old(solver.calls) + Calls(answers) + [FinishQuery]
    ensures Recorded(reporter.reports, page.verdicts, ids, anyInvalid, anyTimedOut,
                     Start(old(reporter.reports), old(page.verdicts), failedIds), answers, q, func, span, hint, prover)
  {
    var result := solver.Check();
    var checksRemaining: nat := BROAD_CHECKS;
    var onlyCheckEarlier, isFirstCheck := false, true;
    anyInvalid, anyTimedOut := false, false;
    ids := failedIds;
    answers := [];
    assert [] + [result] == [result];
    ghost var start := Start(reporter.reports, page.verdicts, failedIds);
    while true
      invariant solver.open == Some(result)
      invariant Probed(answers)
      invariant isFirstCheck == (answers == [])
      invariant checksRemaining == if |answers| < BROAD_CHECKS then BROAD_CHECKS - |answers| else 0
      invariant onlyCheckEarlier == (checksRemaining == 0)
      invariant solver.calls == old(solver.calls) + Calls(answers + [result])
      invariant Recorded(reporter.reports, page.verdicts, ids, anyInvalid, anyTimedOut, start, answers, q, func, span, hint, prover)
      decreases checksRemaining, if CanProbe(result) then solver.enabled + 1 else 0
    {
      ids, anyInvalid, anyTimedOut :=
        RecordAnswer(reporter, page, q, func, span, hint, prover, result, isFirstCheck, ids, anyInvalid, anyTimedOut,
                     start, answers);
      ProbedGrows(answers, result);
      answers := answers + [result];
      if !CanProbe(result) {
        break;
      }
      if !onlyCheckEarlier {
        checksRemaining := checksRemaining - 1;
        if checksRemaining == 0 {
          onlyCheckEarlier := true;
        }
      }
      isFirstCheck := false;
      result := solver.CheckValidAgain(onlyCheckEarlier);
      CallsGrow(old(solver.calls), answers, result);
    }
    solver.Finish();
  }

  /** The part of the loop body that reports an answer and streams its verdict. */
  method RecordAnswer(reporter: Reporter, page: Page, q: QueryOp, func: string, span: string, hint: Option<nat>,
                      prover: Prover, result: ValidityResult, isFirstCheck: bool,
                      ids: seq<nat>, anyInvalid: bool, anyTimedOut: bool, ghost start: Start, ghost answers: seq<ValidityResult>)
    returns (ids': seq<nat>, anyInvalid': bool, anyTimedOut': bool)
    requires isFirstCheck == (answers == [])
    requires Recorded(reporter.reports, page.verdicts, ids, anyInvalid, anyTimedOut, start, answers, q, func, span, hint, prover)
    modifies reporter, page
    ensures Recorded(reporter.reports, page.verdicts, ids', anyInvalid', anyTimedOut', start, answers + [result], q, func, span, hint, prover)
  {
    ids', anyInvalid', anyTimedOut' := ids, anyInvalid, anyTimedOut;
    Grow(start, answers, result, q, func, span, hint, prover);
    ReportAnswer(reporter, result, LevelOf(q), isFirstCheck, hint);
    if result.Invalid? && result.assertId.Some? && prover == DefaultProver {
      ids' := ids' + [result.assertId.value];
    }
    if result.Canceled? {
      anyTimedOut' := true;
    }
    var proved := result.Valid?;
    if !proved {
      anyInvalid' := true;
    }
    StreamAnswer(page, result, isFirstCheck, func, span, q);
  }

  /** The error goes out at the op's level, with the hint after the first one. */
  method ReportAnswer(reporter: Reporter, result: ValidityResult, level: Level, isFirstCheck: bool, hint: Option<nat>)
    modifies reporter
    ensures reporter.reports == old(reporter.reports) + ReportsOf(result, isFirstCheck, level, hint)
  {
    if result.Invalid? && result.error.Some? {
      reporter.ReportAs(level, result.error.value);
      if isFirstCheck && hint.Some? {
        reporter.ReportAs(Note, hint.value);
      }
    }
  }

  /** The verdict crosses to the page as JSON, and arrives as it was. */
  method StreamAnswer(page: Page, result: ValidityResult, isFirstCheck: bool, func: string, span: string, q: QueryOp)
    modifies page
    ensures page.verdicts == old(page.verdicts) + StreamedOf(result, isFirstCheck, func, span, q)
  {
    if LevelOf(q) == Error && (isFirstCheck || !result.Valid?) {
      var verdict := FromResult(result, func, span, q);
      Json.VerdictRoundTrip(verdict);
      page.VerusVerdict(Json.ToJson(verdict));
    }
  }

  function ReportsOf(r: ValidityResult, isFirst: bool, level: Level, hint: Option<nat>): seq<Report> {
    if !(r.Invalid? && r.error.Some?) then []
    else [Report(level, r.error.value)] + if isFirst && hint.Some? then [Report(Note, hint.value)] else []
  }

  function StreamedOf(r: ValidityResult, isFirst: bool, func: string, span: string, q: QueryOp): seq<Json.Verdict> {
    if LevelOf(q) == Error && (isFirst || !r.Valid?) then [FromResult(r, func, span, q)] else []
  }

  function IdsOf(r: ValidityResult, prover: Prover): seq<nat> {
    if prover == DefaultProver && r.Invalid? && r.assertId.Some? then [r.assertId.value] else []
  }

  lemma {:induction false} ReportsGrow(base: seq<Report>, answers: seq<ValidityResult>, r: ValidityResult, level: Level, hint: Option<nat>)
    ensures base + Reports(answers + [r], level, hint)
            == base + Reports(answers, level, hint) + ReportsOf(r, answers == [], level, hint)
  {
    assert (answers + [r])[..|answers|] == answers;
    Assoc(base, Reports(answers, level, hint), ReportsOf(r, answers == [], level, hint));
  }

  lemma {:induction false} IdsGrow(base: seq<nat>, answers: seq<ValidityResult>, r: ValidityResult, prover: Prover)
    ensures base + FailedIds(answers + [r], prover) == base + FailedIds(answers, prover) + IdsOf(r, prover)
  {
    assert (answers + [r])[..|answers|] == answers;
    Assoc(base, FailedIds(answers, prover), IdsOf(r, prover));
  }

  lemma {:induction false} StreamGrows(base: seq<Json.Verdict>, answers: seq<ValidityResult>, r: ValidityResult,
                                       func: string, span: string, q: QueryOp)
    ensures base + Streamed(answers + [r], func, span, q)
            == base + Streamed(answers, func, span, q) + StreamedOf(r, answers == [], func, span, q)
  {
    assert (answers + [r])[..|answers|] == answers;
    assert Streamed(answers + [r], func, span, q)
        == Streamed(answers, func, span, q) + StreamedOf(r, answers == [], func, span, q);
    Assoc(base, Streamed(answers, func, span, q), StreamedOf(r, answers == [], func, span, q));
  }

  lemma {:induction false} AnyGrows(answers: seq<ValidityResult>, r: ValidityResult)
    ensures AnyInvalid(answers + [r]) == (AnyInvalid(answers) || !r.Valid?)
    ensures AnyTimedOut(answers + [r]) == (AnyTimedOut(answers) || r.Canceled?)
  {
    var all := answers + [r];
    assert all[|answers|] == r;
    assert forall i | 0 <= i < |answers| :: all[i] == answers[i];
  }

  lemma {:induction false} Grow(start: Start, answers: seq<ValidityResult>, r: ValidityResult,
                                q: QueryOp, func: string, span: string, hint: Option<nat>, prover: Prover)
    ensures start.reports + Reports(answers + [r], LevelOf(q), hint)
            == start.reports + Reports(answers, LevelOf(q), hint) + ReportsOf(r, answers == [], LevelOf(q), hint)
    ensures start.verdicts + Streamed(answers + [r], func, span, q)
            == start.verdicts + Streamed(answers, func, span, q) + StreamedOf(r, answers == [], func, span, q)
    ensures start.ids + FailedIds(answers + [r], prover) == start.ids + FailedIds(answers, prover) + IdsOf(r, prover)
    ensures AnyInvalid(answers + [r]) == (AnyInvalid(answers) || !r.Valid?)
    ensures AnyTimedOut(answers + [r]) == (AnyTimedOut(answers) || r.Canceled?)
  {
    ReportsGrow(start.reports, answers, r, LevelOf(q), hint);
    StreamGrows(start.verdicts, answers, r, func, span, q);
    IdsGrow(start.ids, answers, r, prover);
    AnyGrows(answers, r);
  }

  lemma {:induction false} ProbedGrows(answers: seq<ValidityResult>, r: ValidityResult)
    requires Probed(answers)
    ensures if CanProbe(r) then Probed(answers + [r]) else IsCheck(answers + [r])
  {
  }

  lemma {:induction false} CallsGrow(base: seq<Call>, answers: seq<ValidityResult>, r: ValidityResult)
    requires answers != []
    ensures base + Calls(answers + [r]) == base + Calls(answers) + [Again(|answers| >= BROAD_CHECKS, r)]
  {
    assert (answers + [r])[..|answers|] == answers;
    Assoc(base, Calls(answers), [Again(|answers| >= BROAD_CHECKS, r)]);
  }
}
