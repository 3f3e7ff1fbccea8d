/** `runWith`: overlapping verify and execute runs on one page. A run clears the caches,
    yields once, and goes on only if no newer run has started in the meantime. */
module RunProtocol {
  import opened Lists
  import opened Wrappers

  /** One block of output, tagged with the run that produced it. */
  datatype Chunk = Chunk(run: nat, data: int)

  /** How the wasm call ends, and what it had written by then. A trap may add one entry. */
  datatype Outcome = Finished(output: seq<int>) | Trapped(output: seq<int>, entry: Option<int>)

  /** Everything that can happen on the page; a pending run resumes in any order. A click
      needs the button, the other callers of `runAction` (loads, resets) do not. */
  datatype Event =
    | WasmLoaded
    | Click
    | Action
    | Resume(run: nat, outcome: Outcome)
    | Edit
    | TimerFires
    | SetAuto(on: bool)

  /** The page, with the history of executed and of saved runs. */
  datatype State = State(
    loaded: bool,
    runId: nat,
    pending: set<nat>,
    cache: seq<Chunk>,
    disabled: bool,
    timerArmed: bool,
    auto: bool,
    executed: seq<nat>,
    saved: seq<nat>)

  const INITIAL: State := State(false, 0, {}, [], true, false, true, [], [])

  function Tag(run: nat, output: seq<int>): (cs: seq<Chunk>)
    ensures |cs| == |output| && forall i | 0 <= i < |cs| :: cs[i] == Chunk(run, output[i])
  {
    seq(|output|, i requires 0 <= i < |output| => Chunk(run, output[i]))
  }

  function OutputOf(o: Outcome): seq<int> {
    match o
    case Finished(output) => output
    case Trapped(output, entry) => output + if entry.Some? then [entry.value] else []
  }

  /** The part of `runWith` before its `await`. */
  function Start(s: State): State {
    if !s.loaded then s
    else s.(timerArmed := false, runId := s.runId + 1, disabled := true, cache := [], pending := s.pending + {s.runId + 1})
  }

  /** The part after it. */
  function Continue(s: State, run: nat, outcome: Outcome): State {
    var woken := s.(pending := s.pending - {run});
    if run != s.runId then woken
    else woken.(cache := s.cache + Tag(run, OutputOf(outcome)), disabled := false,
                executed := s.executed + [run], saved := s.saved + [run])
  }

  function Step(s: State, e: Event): State {
    match e
    case WasmLoaded => if s.loaded then s else Start(s.(loaded := true, disabled := false))
    case Click => if s.disabled then s else Start(s)
    case Action => Start(s)
    case Resume(run, outcome) => if run in s.pending then Continue(s, run, outcome) else s
    case Edit => s.(timerArmed := s.auto)
    case TimerFires => if s.timerArmed then Start(s.(timerArmed := false)) else s
    case SetAuto(on) => var set_ := s.(auto := on); if on then Start(set_) else set_
  }

  function Run(s: State, es: seq<Event>): State {
    if es == [] then s else Step(Run(s, es[..|es| - 1]), es[|es| - 1])
  }

  // ---- What every run keeps ----

  /** The part of the invariant that a start needs. */
  predicate History(s: State) {
    && (forall r | r in s.pending :: 1 <= r <= s.runId)
    && Increasing(s.executed) && s.saved == s.executed
    && forall i | 0 <= i < |s.executed| :: 1 <= s.executed[i] <= s.runId
  }

  /** Every chunk of the cache is from the newest run, and there is none before that run
      has executed; while it is pending, and only then, the button is disabled. */
  predicate Invariant(s: State) {
    && History(s)
    && (s.loaded ==> (s.disabled <==> s.runId in s.pending))
    && (!s.loaded ==> s.disabled && s.runId == 0)
    && (forall i | 0 <= i < |s.cache| :: s.cache[i].run == s.runId)
    && (s.runId in s.pending ==> s.cache == [] && s.runId !in s.executed)
    && (s.loaded && s.runId !in s.pending ==> s.executed != [] && s.executed[|s.executed| - 1] == s.runId)
  }

  lemma {:induction false} StartKeeps(s: State)
    requires s.loaded && History(s)
    ensures Invariant(Start(s))
  {
    var s' := Start(s);
    assert s'.pending == s.pending + {s.runId + 1};
    assert s'.runId !in s'.executed;
  }

  lemma {:induction false} ContinueKeeps(s: State, run: nat, outcome: Outcome)
    requires Invariant(s) && run in s.pending
    ensures Invariant(Continue(s, run, outcome))
  {
  }

  lemma {:induction false} StepKeeps(s: State, e: Event)
    requires Invariant(s)
    ensures Invariant(Step(s, e))
  {
    match e
    case WasmLoaded => if !s.loaded { StartKeeps(s.(loaded := true, disabled := false)); }
    case Click => if !s.disabled { StartKeeps(s); }
    case Action => if s.loaded { StartKeeps(s); }
    case Resume(run, outcome) => if run in s.pending { ContinueKeeps(s, run, outcome); }
    case Edit =>
    case TimerFires => if s.loaded { StartKeeps(s.(timerArmed := false)); }
    case SetAuto(on) => if s.loaded { StartKeeps(s.(auto := on)); }
  }

  /** Over every interleaving of starts, resumptions, edits, timers and traps. */
  lemma {:induction false} EveryRunKeeps(es: seq<Event>)
    ensures Invariant(Run(INITIAL, es))
  {
    if es != [] {
      EveryRunKeeps(es[..|es| - 1]);
      StepKeeps(Run(INITIAL, es[..|es| - 1]), es[|es| - 1]);
    }
  }

  /** Only the newest run ever executes, so executed ids strictly increase; the shown
      output is all of one run; the button is disabled exactly while that run is pending. */
  lemma {:induction false} NewestRunWins(es: seq<Event>)
    ensures var s := Run(INITIAL, es);
            && Increasing(s.executed)
            && (forall i, j | 0 <= i < |s.cache| && 0 <= j < |s.cache| :: s.cache[i].run == s.cache[j].run)
            && (s.loaded ==> (s.disabled <==> s.runId in s.pending))
    ensures forall run, outcome :: var s := Run(INITIAL, es);
              Step(s, Resume(run, outcome)).executed != s.executed ==> run == s.runId && run in s.pending
  {
    EveryRunKeeps(es);
  }

  /** Once no run is pending, the shown output is exactly what the newest run wrote. */
  lemma {:induction false} OutputIsOfOneRun(es: seq<Event>, run: nat, outcome: Outcome)
    requires run in Run(INITIAL, es).pending
    ensures var s := Run(INITIAL, es);
            var s' := Step(s, Resume(run, outcome));
            if run == s.runId then s'.cache == Tag(run, OutputOf(outcome)) && !s'.disabled
            else s'.cache == s.cache && s'.disabled == s.disabled
  {
    EveryRunKeeps(es);
  }

  /** A start leaves no auto-run timer armed. */
  lemma {:induction false} StartDisarmsTimer(s: State, e: Event)
    ensures Step(s, e).runId != s.runId ==> !Step(s, e).timerArmed
  {
  }

  // ---- Unchecking the auto-run box ----

  /** Unchecking the box does not stop a timer that is already armed: it still starts a
      run, in every such state and in no other. */
  lemma {:induction false} UncheckedTimerStillFires(s: State)
    ensures Step(Step(s, SetAuto(false)), TimerFires).runId != s.runId <==> s.timerArmed && s.loaded
  {
  }

  /** On a loaded page with the box checked, typing and then unchecking the box starts a run. */
  lemma {:induction false} TypingThenUnchecking()
    ensures Run(INITIAL, [WasmLoaded, Edit, SetAuto(false), TimerFires]).runId == 2
  {
    assert Run(INITIAL, []) == INITIAL && [] + [WasmLoaded] == [WasmLoaded];
    RunOn(INITIAL, [], WasmLoaded);
    RunOn(INITIAL, [WasmLoaded], Edit);
    RunOn(INITIAL, [WasmLoaded] + [Edit], SetAuto(false));
    RunOn(INITIAL, [WasmLoaded] + [Edit] + [SetAuto(false)], TimerFires);
    assert [WasmLoaded] + [Edit] + [SetAuto(false)] + [TimerFires] == [WasmLoaded, Edit, SetAuto(false), TimerFires];
  }

  lemma {:induction false} RunOn(s: State, es: seq<Event>, e: Event)
    ensures Run(s, es + [e]) == Step(Run(s, es), e)
  {
    assert (es + [e])[..|es|] == es;
  }

  /** What goes on by itself while nobody asks for a run: typing, timers, runs that resume. */
  predicate Unasked(e: Event) {
    e.Edit? || e.TimerFires? || e.Resume? || e == SetAuto(false)
  }

  predicate AllUnasked(es: seq<Event>) {
    forall i | 0 <= i < |es| :: Unasked(es[i])
  }

  lemma {:induction false} StaysQuiet(s: State, es: seq<Event>)
    requires !s.auto && (!s.timerArmed || !s.loaded) && AllUnasked(es)
    ensures var s' := Run(s, es); s'.runId == s.runId && !s'.auto && s'.loaded == s.loaded && (!s'.timerArmed || !s'.loaded)
  {
    if es != [] {
      StaysQuiet(s, es[..|es| - 1]);
    }
  }

  /** Unchecking the box cancels what is pending exactly if no timer is armed or nothing is
      loaded that could run: then, and only then, no unasked run ever starts again. */
  lemma {:induction false} UncheckingCancels(s: State)
    ensures (forall es | AllUnasked(es) :: Run(Step(s, SetAuto(false)), es).runId == s.runId) <==> !(s.timerArmed && s.loaded)
  {
    var off := Step(s, SetAuto(false));
    if s.timerArmed && s.loaded {
      var fire := [TimerFires];
      assert fire[..0] == [] && Run(off, fire[..0]) == off;
      assert AllUnasked(fire) && Run(off, fire).runId == s.runId + 1;
    } else {
      forall es | AllUnasked(es) ensures Run(off, es).runId == s.runId { StaysQuiet(off, es); }
    }
  }

  // ---- Saving after a trap ----

  /** A run that resumes is saved exactly if it is the newest, whether it finishes or traps. */
  lemma {:induction false} ResumedIsSaved(s: State, run: nat, outcome: Outcome)
    requires run in s.pending
    ensures Step(s, Resume(run, outcome)).saved == if run == s.runId then s.saved + [run] else s.saved
  {
  }

  /** The first run of the page traps and is saved. */
  lemma {:induction false} TrappedRunIsSaved(output: seq<int>, entry: Option<int>)
    ensures Run(INITIAL, [WasmLoaded, Resume(1, Trapped(output, entry))]).saved == [1]
  {
    var es := [WasmLoaded, Resume(1, Trapped(output, entry))];
    assert es[..1] == [WasmLoaded] && es[..1][..0] == [];
    assert Run(INITIAL, es[..1][..0]) == INITIAL;
    assert Run(INITIAL, es[..1]).pending == {1};
  }

  /** Event `i` saves a run. */
  predicate Saves(es: seq<Event>, i: nat)
    requires i < |es|
  {
    Run(INITIAL, es[..i + 1]).saved != Run(INITIAL, es[..i]).saved
  }

  /** Event `i` is the newest run's trap. */
  predicate NewestTraps(es: seq<Event>, i: nat)
    requires i < |es|
  {
    var s := Run(INITIAL, es[..i]);
    es[i].Resume? && es[i].outcome.Trapped? && es[i].run == s.runId && es[i].run in s.pending
  }

  lemma {:induction false} SavesWhen(es: seq<Event>, i: nat)
    requires i < |es|
    ensures var s := Run(INITIAL, es[..i]);
            Saves(es, i) <==> es[i].Resume? && es[i].run == s.runId && es[i].run in s.pending
  {
    assert es[..i + 1][..i] == es[..i];
    assert es[..i + 1][i] == es[i];
  }

  /** Over a whole run of the page, only runs that finished were saved exactly if the newest
      run never trapped. */
  lemma {:induction false} SavedOnlyAfterSuccess(es: seq<Event>)
    ensures (forall i | 0 <= i < |es| && Saves(es, i) :: es[i].Resume? && es[i].outcome.Finished?)
            <==> forall i | 0 <= i < |es| :: !NewestTraps(es, i)
  {
    forall i | 0 <= i < |es|
      ensures Saves(es, i) && !(es[i].Resume? && es[i].outcome.Finished?) <==> NewestTraps(es, i)
    {
      SavesWhen(es, i);
    }
  }

  // ---- The steps, spelled out ----

  /** Which events start a run: loading, a click on an enabled button, a load or reset once
      loaded, an armed timer once loaded, and checking the box once loaded. */
  predicate Starts(s: State, e: Event) {
    match e
    case WasmLoaded => !s.loaded
    case Click => s.loaded && !s.disabled
    case Action => s.loaded
    case TimerFires => s.loaded && s.timerArmed
    case SetAuto(on) => s.loaded && on
    case Resume(_, _) => false
    case Edit => false
  }

  /** A start takes the next number, empties the output, disables the button and is pending;
      no other event takes a number. */
  lemma {:induction false} StartsAreSpelled(s: State, e: Event)
    ensures var s' := Step(s, e);
            if Starts(s, e) then
              && s'.runId == s.runId + 1 && s'.pending == s.pending + {s.runId + 1}
              && s'.cache == [] && s'.disabled && !s'.timerArmed && s'.loaded
            else s'.runId == s.runId
    ensures e.SetAuto? ==> Step(s, e).auto == e.on
    ensures e.Edit? ==> (Step(s, e).timerArmed <==> s.auto)
  {
  }

  /** What a resumed run shows: what it wrote, and after a trap the trap's own entry, if any,
      behind what was written before it. */
  lemma {:induction false} OutputIsSpelled(s: State, output: seq<int>, entry: Option<int>)
    requires s.runId in s.pending
    ensures var finished, trapped := Step(s, Resume(s.runId, Finished(output))), Step(s, Resume(s.runId, Trapped(output, entry)));
            && finished.cache == s.cache + Tag(s.runId, output)
            && trapped.cache == s.cache + Tag(s.runId, output + if entry.Some? then [entry.value] else [])
            && !finished.disabled && !trapped.disabled && s.runId !in finished.pending
  {
  }

  // ---- The page ----

  /** The page's module-level variables, updated in place. */
  class Page {
    var verus: bool
    var runId: nat
    var pending: set<nat>
    var cache: seq<Chunk>
    var disabled: bool
    var timerArmed: bool
    var auto: bool
    var executed: seq<nat>
    var saved: seq<nat>

    function Current(): State
      reads this
    {
      State(verus, runId, pending, cache, disabled, timerArmed, auto, executed, saved)
    }

    constructor ()
      ensures Current() == INITIAL
    {
      verus, runId, pending, cache := false, 0, {}, [];
      disabled, timerArmed, auto, executed, saved := true, false, true, [], [];
    }

    /** Up to the `await`: the run is left pending. */
    method RunWith()
      modifies this
      ensures Current() == Step(old(Current()), Action)
    {
      if !verus {
        return;
      }
      timerArmed := false;
      runId := runId + 1;
      var myRun := runId;
      disabled := true;
      cache := [];
      pending := pending + {myRun};
    }

    /** From the `await` to the end, for the run that yielded. */
    method Resumed(myRun: nat, outcome: Outcome)
      requires myRun in pending
      modifies this
      ensures Current() == Step(old(Current()), Resume(myRun, outcome))
    {
      pending := pending - {myRun};
      if myRun != runId {
        return;
      }
      executed := executed + [myRun];
      cache := cache + Tag(myRun, outcome.output);
      if outcome.Trapped? && outcome.entry.Some? {
        cache := cache + [Chunk(myRun, outcome.entry.value)];
      }
      disabled := false;
      saved := saved + [myRun];
      assert cache == old(cache) + Tag(myRun, OutputOf(outcome));
    }

    method ScheduleAutoVerify()
      modifies this
      ensures Current() == Step(old(Current()), Edit)
    {
      timerArmed := false;
      if !auto {
        return;
      }
      timerArmed := true;
    }

    method AutoChanged(on: bool)
      modifies this
      ensures Current() == Step(old(Current()), SetAuto(on))
    {
      auto := on;
      if on {
        RunWith();
      }
    }
  }
}
