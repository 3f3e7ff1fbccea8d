/** The page's saved work: one stored text per shipped example, kept up to date by the
    editor's update listener, under edits, overlapping loads, resets and pasted links. */
module SavedWork {
  import opened Wrappers
  import opened CodeUnits
  import opened Editor

  /** File name to text. */
  type Texts = map<string, Text>

  /** The module-level variables, the browser's storage, and the fetches under way. */
  datatype State = State(
    storage: Texts,
    source: Option<string>,
    pristine: Option<Text>,
    doc: Text,
    dirty: bool,
    fetching: multiset<string>)

  /** Typing and deleting carry a user event that marks the text as dirty; undoing, redoing
      and dragging change the text without one. */
  datatype Event =
    | Edit(text: Text, typed: bool)
    | RequestLoad(file: string)
    | FetchDone(file: string)
    | FetchFailed(file: string)
    | Reset
    | OpenCustom(src: Text)

  // ---- The steps ----

  /** The update listener, after the text has changed. */
  function Store(s: State): State {
    if s.source.Some? then s.(storage := s.storage[s.source.value := s.doc]) else s
  }

  /** `setEditorText`. Replacing nothing with nothing is no change, so nothing is stored. */
  function SetText(s: State, src: Text): State {
    if s.doc == [] && src == [] then s else Store(s.(doc := Normal(src)))
  }

  /** The text to mount for an example: the stored one, else the shipped one. */
  function Choose(storage: Texts, file: string, shipped: Text): Text {
    if file in storage then storage[file] else shipped
  }

  predicate Differs(storage: Texts, file: string, shipped: Text) {
    file in storage && storage[file] != shipped
  }

  function Named(s: State, file: string, shipped: Text): State {
    s.(pristine := Some(shipped), source := Some(file), fetching := s.fetching - multiset{file})
  }

  /** `loadSource` from its fetched text on. */
  function Arrive(s: State, file: string, shipped: Text): State {
    SetText(Named(s, file, shipped), Choose(s.storage, file, shipped)).(dirty := Differs(s.storage, file, shipped))
  }

  function Step(s: State, e: Event, shipped: Texts): State {
    match e
    case Edit(text, typed) =>
      if s.doc == [] && text == [] then s else Store(s.(doc := Normal(text), dirty := s.dirty || typed))
    case RequestLoad(file) => if file in shipped then s.(fetching := s.fetching + multiset{file}) else s
    case FetchDone(file) => if file in s.fetching && file in shipped then Arrive(s, file, shipped[file]) else s
    case FetchFailed(file) => s.(fetching := s.fetching - multiset{file})
    case Reset =>
      if s.source.None? || s.pristine.None? then s
      else SetText(s.(storage := s.storage - {s.source.value}), s.pristine.value).(dirty := false)
    case OpenCustom(src) => SetText(s.(source := None, pristine := None), src)
  }

  function Run(s: State, es: seq<Event>, shipped: Texts): State {
    if es == [] then s else Step(Run(s, es[..|es| - 1], shipped), es[|es| - 1], shipped)
  }

  /** The page after start-up, with an example or with a text from the link. */
  function InitialExample(storage: Texts, file: string, shipped: Text): State {
    State(storage, Some(file), Some(shipped), Normal(Choose(storage, file, shipped)),
          Differs(storage, file, shipped), multiset{})
  }

  function InitialCustom(storage: Texts, src: Text): State {
    State(storage, None, None, Normal(src), false, multiset{})
  }

  // ---- What every run keeps ----

  /** What the editor shows when an example is loaded. */
  function Shows(s: State, file: string, shipped: Texts): Text
    requires file in shipped
  {
    Normal(Choose(s.storage, file, shipped[file]))
  }

  /** The loaded example is a shipped one, Reset would restore its own text, and loading it
      again would show what the editor shows now. */
  predicate Invariant(s: State, shipped: Texts) {
    && Normal(s.doc) == s.doc
    && (s.source.None? ==> s.pristine.None?)
    && (s.source.Some? ==>
          && s.source.value in shipped && s.pristine == Some(shipped[s.source.value])
          && Shows(s, s.source.value, shipped) == s.doc)
  }

  lemma {:induction false} InitialHolds(storage: Texts, file: string, src: Text, shipped: Texts)
    requires file in shipped
    ensures Invariant(InitialExample(storage, file, shipped[file]), shipped)
    ensures Invariant(InitialCustom(storage, src), shipped)
  {
    NormalIsNormal(Choose(storage, file, shipped[file]));
    NormalIsNormal(src);
  }

  /** Mounting a text that the example stands for keeps the two in step. */
  lemma {:induction false} SetTextKeeps(s: State, src: Text, shipped: Texts)
    requires s.source.None? ==> s.pristine.None?
    requires s.source.Some? ==> s.source.value in shipped && s.pristine == Some(shipped[s.source.value])
    requires s.source.Some? ==> Choose(s.storage, s.source.value, shipped[s.source.value]) == src
    ensures Invariant(SetText(s, src), shipped) && SetText(s, src).doc == Normal(src)
  {
    NormalIsNormal(src);
  }

  lemma {:induction false} StepKeeps(s: State, e: Event, shipped: Texts)
    requires Invariant(s, shipped)
    ensures Invariant(Step(s, e, shipped), shipped)
  {
    match e
    case Edit(text, typed) => NormalIsNormal(text);
    case FetchDone(file) =>
      if file in s.fetching && file in shipped {
        SetTextKeeps(Named(s, file, shipped[file]), Choose(s.storage, file, shipped[file]), shipped);
      }
    case Reset =>
      if s.source.Some? { SetTextKeeps(s.(storage := s.storage - {s.source.value}), s.pristine.value, shipped); }
    case OpenCustom(src) => SetTextKeeps(s.(source := None, pristine := None), src, shipped);
    case _ =>
  }

  lemma {:induction false} EveryRunKeeps(start: State, es: seq<Event>, shipped: Texts)
    requires Invariant(start, shipped)
    ensures Invariant(Run(start, es, shipped), shipped)
  {
    if es != [] {
      EveryRunKeeps(start, es[..|es| - 1], shipped);
      StepKeeps(Run(start, es[..|es| - 1], shipped), es[|es| - 1], shipped);
    }
  }

  /** No step touches what is stored for an example other than the one loaded after it. */
  lemma {:induction false} OthersUntouched(s: State, e: Event, shipped: Texts, file: string)
    requires Step(s, e, shipped).source != Some(file)
    ensures file in Step(s, e, shipped).storage <==> file in s.storage
    ensures file in s.storage ==> Step(s, e, shipped).storage[file] == s.storage[file]
  {
  }

  // ---- The abstract text of an example ----

  /** The text last held while the example was loaded; before that, what the page's
      storage had for it, or the shipped text. */
  function LastHeld(start: State, es: seq<Event>, shipped: Texts, file: string): Text
    requires file in shipped
  {
    var s := Run(start, es, shipped);
    if s.source == Some(file) then s.doc
    else if es == [] then Shows(start, file, shipped)
    else LastHeld(start, es[..|es| - 1], shipped, file)
  }

  lemma {:induction false} ShowsLastHeld(start: State, es: seq<Event>, shipped: Texts, file: string)
    requires Invariant(start, shipped) && file in shipped
    ensures Shows(Run(start, es, shipped), file, shipped) == LastHeld(start, es, shipped, file)
  {
    EveryRunKeeps(start, es, shipped);
    if es != [] && Run(start, es, shipped).source != Some(file) {
      var before := es[..|es| - 1];
      ShowsLastHeld(start, before, shipped, file);
      OthersUntouched(Run(start, before, shipped), es[|es| - 1], shipped, file);
    }
  }

  /** After any run of edits, overlapping loads, resets and pasted links, a load that
      arrives shows the text its example last held. */
  lemma {:induction false} LoadShowsLastHeld(start: State, es: seq<Event>, shipped: Texts, file: string)
    requires Invariant(start, shipped) && file in shipped && file in Run(start, es, shipped).fetching
    ensures var s := Step(Run(start, es, shipped), FetchDone(file), shipped);
            && s.source == Some(file) && s.doc == LastHeld(start, es, shipped, file)
            && s.doc == LastHeld(start, es + [FetchDone(file)], shipped, file)
  {
    var s := Run(start, es, shipped);
    ShowsLastHeld(start, es, shipped, file);
    assert (es + [FetchDone(file)])[..|es|] == es;
    NormalIsNormal(Choose(s.storage, file, shipped[file]));
  }

  /** Whatever loads were under way, a reset shows the shipped text of the loaded example,
      and so does the next load of it if nothing has been edited since. */
  lemma {:induction false} ResetRestores(s: State, shipped: Texts)
    requires Invariant(s, shipped) && s.source.Some?
    ensures var s' := Step(s, Reset, shipped);
            && s'.source == s.source && s'.doc == Normal(shipped[s.source.value]) && !s'.dirty
            && Shows(s', s.source.value, shipped) == s'.doc
  {
    StepKeeps(s, Reset, shipped);
    SetTextKeeps(s.(storage := s.storage - {s.source.value}), s.pristine.value, shipped);
  }

  lemma {:induction false} Arrival(s: State, file: string, shipped: Texts)
    requires file in shipped && file in s.fetching
    ensures var s' := Step(s, FetchDone(file), shipped);
            s'.source == Some(file) && s'.fetching == s.fetching - multiset{file}
  {
  }

  /** Loads are not ordered: the page ends on the example whose text arrives last, even if
      it was asked for first. */
  lemma {:induction false} LastArrivalWins(s: State, shipped: Texts, first: string, second: string)
    requires first in shipped && second in shipped
    ensures var asked := Step(Step(s, RequestLoad(first), shipped), RequestLoad(second), shipped);
            && Step(Step(asked, FetchDone(first), shipped), FetchDone(second), shipped).source == Some(second)
            && Step(Step(asked, FetchDone(second), shipped), FetchDone(first), shipped).source == Some(first)
  {
    var asked := Step(Step(s, RequestLoad(first), shipped), RequestLoad(second), shipped);
    assert asked.fetching == s.fetching + multiset{first} + multiset{second};
    Arrival(asked, first, shipped);
    Arrival(asked, second, shipped);
    Arrival(Step(asked, FetchDone(first), shipped), second, shipped);
    Arrival(Step(asked, FetchDone(second), shipped), first, shipped);
  }

  /** The example that was mounted last: the file of the last load that arrived, or none if
      a text from a link came after it. */
  function LastMounted(start: State, es: seq<Event>, shipped: Texts): Option<string> {
    if es == [] then start.source
    else
      var before, last := es[..|es| - 1], es[|es| - 1];
      if last.OpenCustom? then None
      else if last.FetchDone? && last.file in Run(start, before, shipped).fetching && last.file in shipped then Some(last.file)
      else LastMounted(start, before, shipped)
  }

  /** Over every run, however requests, arrivals and failures interleave, the loaded example
      is the one mounted last: the order of the requests does not matter. */
  lemma {:induction false} LoadedIsLastMounted(start: State, es: seq<Event>, shipped: Texts)
    ensures Run(start, es, shipped).source == LastMounted(start, es, shipped)
  {
    if es != [] {
      LoadedIsLastMounted(start, es[..|es| - 1], shipped);
    }
  }

  // ---- How many loads are under way ----

  /** The loads of a file that were requested, less those that arrived or failed; one that
      was not under way can do neither. */
  function UnderWay(es: seq<Event>, file: string): nat {
    if es == [] then 0
    else CountLoads(UnderWay(es[..|es| - 1], file), es[|es| - 1], file)
  }

  function CountLoads(n: nat, e: Event, file: string): nat {
    match e
    case RequestLoad(f) => if f == file then n + 1 else n
    case FetchDone(f) => if f == file && n > 0 then n - 1 else n
    case FetchFailed(f) => if f == file && n > 0 then n - 1 else n
    case _ => n
  }

  /** What a step does to the loads under way. */
  function FetchingAfter(fetching: multiset<string>, e: Event, shipped: Texts): multiset<string> {
    match e
    case RequestLoad(f) => if f in shipped then fetching + multiset{f} else fetching
    case FetchDone(f) => if f in shipped then fetching - multiset{f} else fetching
    case FetchFailed(f) => fetching - multiset{f}
    case _ => fetching
  }

  lemma {:induction false} CountedFetching(fetching: multiset<string>, e: Event, shipped: Texts, file: string)
    requires file in shipped
    ensures FetchingAfter(fetching, e, shipped)[file] == CountLoads(fetching[file], e, file)
  {
  }

  lemma {:induction false} FetchingStep(s: State, e: Event, shipped: Texts)
    ensures Step(s, e, shipped).fetching == FetchingAfter(s.fetching, e, shipped)
  {
    match e
    case FetchDone(f) =>
      if f in s.fetching && f in shipped { ArriveFetching(s, f, shipped[f]); }
    case Reset =>
      if s.source.Some? && s.pristine.Some? {
        SetTextKeepsFetching(s.(storage := s.storage - {s.source.value}), s.pristine.value);
      }
    case OpenCustom(src) => SetTextKeepsFetching(s.(source := None, pristine := None), src);
    case _ =>
  }

  lemma {:induction false} ArriveFetching(s: State, file: string, shipped: Text)
    ensures Arrive(s, file, shipped).fetching == s.fetching - multiset{file}
  {
    SetTextKeepsFetching(Named(s, file, shipped), Choose(s.storage, file, shipped));
  }

  lemma {:induction false} SetTextKeepsFetching(s: State, src: Text)
    ensures SetText(s, src).fetching == s.fetching
  {
  }

  lemma {:induction false} FetchingIsUnderWay(start: State, es: seq<Event>, shipped: Texts, file: string)
    requires start.fetching == multiset{} && file in shipped
    ensures Run(start, es, shipped).fetching[file] == UnderWay(es, file)
  {
    if es != [] {
      FetchingIsUnderWay(start, es[..|es| - 1], shipped, file);
      var before := Run(start, es[..|es| - 1], shipped);
      FetchingStep(before, es[|es| - 1], shipped);
      CountedFetching(before.fetching, es[|es| - 1], shipped, file);
    }
  }

  // ---- The dirty flag ----

  /** A hidden Reset button means there is nothing to reset. */
  predicate CleanIsShipped(s: State, shipped: Texts) {
    s.source.Some? && !s.dirty && s.source.value in shipped ==> s.doc == Normal(shipped[s.source.value])
  }

  /** A change without a user event that leaves a clean example with another text. */
  predicate SilentChange(s: State, e: Event, shipped: Texts) {
    && e.Edit? && !e.typed && !s.dirty
    && s.source.Some? && s.source.value in shipped && Normal(e.text) != Normal(shipped[s.source.value])
  }

  /** The flag is right after a step exactly if the step is not such a change. */
  lemma {:induction false} CleanKept(s: State, e: Event, shipped: Texts)
    requires Invariant(s, shipped) && CleanIsShipped(s, shipped)
    ensures CleanIsShipped(Step(s, e, shipped), shipped) <==> !SilentChange(s, e, shipped)
  {
    match e
    case FetchDone(file) =>
      NormalIsNormal(Choose(s.storage, file, if file in shipped then shipped[file] else []));
    case Reset => if s.source.Some? { ResetRestores(s, shipped); }
    case _ =>
  }

  /** Event `i` is a silent change in its state. */
  predicate SilentAt(start: State, es: seq<Event>, i: nat, shipped: Texts)
    requires i < |es|
  {
    SilentChange(Run(start, es[..i], shipped), es[i], shipped)
  }

  /** The flag is right all through a run: after each of its events. */
  predicate AlwaysClean(start: State, es: seq<Event>, shipped: Texts) {
    forall n | 0 <= n <= |es| :: CleanAt(start, es, n, shipped)
  }

  lemma {:induction false} RunNext(start: State, es: seq<Event>, i: nat, shipped: Texts)
    requires i < |es|
    ensures Run(start, es[..i + 1], shipped) == Step(Run(start, es[..i], shipped), es[i], shipped)
  {
    assert es[..i + 1][..i] == es[..i];
  }

  /** The flag is right after `n` events. */
  predicate CleanAt(start: State, es: seq<Event>, n: nat, shipped: Texts)
    requires n <= |es|
  {
    CleanIsShipped(Run(start, es[..n], shipped), shipped)
  }

  lemma {:induction false} CleanNext(start: State, es: seq<Event>, i: nat, shipped: Texts)
    requires Invariant(start, shipped) && i < |es| && CleanAt(start, es, i, shipped)
    ensures CleanAt(start, es, i + 1, shipped) <==> !SilentAt(start, es, i, shipped)
  {
    EveryRunKeeps(start, es[..i], shipped);
    RunNext(start, es, i, shipped);
    CleanKept(Run(start, es[..i], shipped), es[i], shipped);
  }

  lemma {:induction false} CleanUpTo(start: State, es: seq<Event>, n: nat, shipped: Texts)
    requires Invariant(start, shipped) && CleanIsShipped(start, shipped) && n <= |es|
    requires forall i | 0 <= i < n :: !SilentAt(start, es, i, shipped)
    ensures CleanAt(start, es, n, shipped)
  {
    if n > 0 {
      CleanUpTo(start, es, n - 1, shipped);
      CleanNext(start, es, n - 1, shipped);
    }
  }

  /** Over a run, the flag is right after every event exactly if no event is a silent change
      in its state; edits that are typed never are. */
  lemma {:induction false} CleanUnlessSilent(start: State, es: seq<Event>, shipped: Texts)
    requires Invariant(start, shipped) && CleanIsShipped(start, shipped)
    ensures AlwaysClean(start, es, shipped) <==> forall i | 0 <= i < |es| :: !SilentAt(start, es, i, shipped)
    ensures (forall i | 0 <= i < |es| :: es[i].Edit? ==> es[i].typed) ==> AlwaysClean(start, es, shipped)
  {
    if forall i | 0 <= i < |es| :: !SilentAt(start, es, i, shipped) {
      forall n | 0 <= n <= |es| ensures CleanAt(start, es, n, shipped) { CleanUpTo(start, es, n, shipped); }
    } else {
      var i :| 0 <= i < |es| && SilentAt(start, es, i, shipped);
      if CleanAt(start, es, i, shipped) { CleanNext(start, es, i, shipped); }
    }
  }

  /** Undoing a reset brings back and stores the edited text with the flag still clear. */
  lemma {:induction false} UndoneResetLooksClean(s: State, shipped: Texts)
    requires Invariant(s, shipped) && s.source.Some? && s.doc != Normal(shipped[s.source.value])
    ensures var s' := Step(Step(s, Reset, shipped), Edit(s.doc, false), shipped);
            && s'.doc == s.doc && s'.source == s.source && !s'.dirty
            && s'.source.value in s'.storage && s'.storage[s'.source.value] == s.doc
            && !CleanIsShipped(s', shipped)
  {
    ResetRestores(s, shipped);
  }

  // ---- The steps, spelled out ----

  /** An edit is shown and, while an example is loaded, stored under it; only typing marks it. */
  lemma {:induction false} EditIsSpelled(s: State, text: Text, typed: bool, shipped: Texts)
    requires s.doc != [] || text != []
    ensures var s' := Step(s, Edit(text, typed), shipped);
            && s'.doc == Normal(text) && (s'.dirty <==> s.dirty || typed) && s'.source == s.source
            && s'.storage == if s.source.Some? then s.storage[s.source.value := Normal(text)] else s.storage
  {
  }

  /** A load that arrives prefers the stored text, and is marked exactly if that differs from
      the shipped one. */
  lemma {:induction false} ArrivalIsSpelled(s: State, file: string, shipped: Texts)
    requires file in s.fetching && file in shipped
    ensures var s' := Step(s, FetchDone(file), shipped);
            && s'.source == Some(file) && s'.pristine == Some(shipped[file])
            && s'.doc == Normal(if file in s.storage then s.storage[file] else shipped[file])
            && (s'.dirty <==> file in s.storage && s.storage[file] != shipped[file])
  {
    NormalIsNormal(Choose(s.storage, file, shipped[file]));
  }

  /** A reset drops the stored text and shows the shipped one, which the listener stores unless
      both texts are empty; a text from a link is shown and stored nowhere. */
  lemma {:induction false} ResetIsSpelled(s: State, file: string, text: Text, src: Text, shipped: Texts)
    requires s.source == Some(file) && s.pristine == Some(text)
    ensures var s' := Step(s, Reset, shipped);
            && s'.source == Some(file) && !s'.dirty
            && (s.doc != [] || text != [] ==> s'.doc == Normal(text) && s'.storage == s.storage[file := Normal(text)])
            && (s.doc == [] && text == [] ==> s'.doc == [] && s'.storage == s.storage - {file})
    ensures var s' := Step(s, OpenCustom(src), shipped);
            s'.source == None && s'.pristine == None && s'.storage == s.storage && s'.doc == Normal(src)
  {
    NormalIsNormal(src);
  }

  /** At start-up as for a load. */
  lemma {:induction false} StartIsSpelled(storage: Texts, file: string, shipped: Text, src: Text)
    ensures var s := InitialExample(storage, file, shipped);
            && s.source == Some(file) && s.pristine == Some(shipped) && s.storage == storage
            && s.doc == Normal(if file in storage then storage[file] else shipped)
            && (s.dirty <==> file in storage && storage[file] != shipped)
    ensures var s := InitialCustom(storage, src);
            s.source == None && s.doc == Normal(src) && s.storage == storage && !s.dirty
  {
  }

  // ---- The page ----

  /** The module-level variables and the browser's storage, updated in place. */
  class Page {
    const shipped: Texts
    var storage: Texts
    var loadedSource: Option<string>
    var pristineSource: Option<Text>
    var doc: Text
    var dirty: bool
    var fetching: multiset<string>

    function Current(): State
      reads this
    {
      State(storage, loadedSource, pristineSource, doc, dirty, fetching)
    }

    /** The update listener. */
    method DocChanged(typed: bool)
      modifies this`storage, this`dirty
      ensures Current() == Store(old(Current()).(dirty := old(dirty) || typed))
    {
      if !dirty && typed {
        dirty := true;
      }
      if loadedSource.Some? {
        storage := storage[loadedSource.value := doc];
      }
    }

    method UserEdit(text: Text, typed: bool)
      modifies this
      ensures Current() == Step(old(Current()), Edit(text, typed), shipped)
    {
      if doc == [] && text == [] {
        return;
      }
      doc := Normal(text);
      DocChanged(typed);
    }

    method SetEditorText(src: Text)
      modifies this`doc, this`storage, this`dirty
      ensures Current() == SetText(old(Current()), src)
    {
      var changed := doc != [] || src != [];
      doc := Normal(src);
      if changed {
        DocChanged(false);
      }
    }

    /** `loadSource` up to its `await`. */
    method LoadSource(file: string)
      modifies this`fetching
      ensures Current() == Step(old(Current()), RequestLoad(file), shipped)
    {
      if file !in shipped {
        return;
      }
      fetching := fetching + multiset{file};
    }

    /** `loadSource` from there on. */
    method Fetched(file: string)
      requires file in fetching && file in shipped
      modifies this
      ensures Current() == Arrive(old(Current()), file, shipped[file])
    {
      fetching := fetching - multiset{file};
      pristineSource := Some(shipped[file]);
      var stored := if file in storage then Some(storage[file]) else None;
      var src := if stored.Some? then stored.value else shipped[file];
      loadedSource := Some(file);
      ghost var was := old(Current());
      assert src == Choose(was.storage, file, shipped[file]);
      assert Current() == Named(was, file, shipped[file]);
      SetEditorText(src);
      dirty := stored.Some? && stored != pristineSource;
    }

    method ResetSource()
      requires Invariant(Current(), shipped)
      modifies this
      ensures Current() == Step(old(Current()), Reset, shipped)
    {
      if loadedSource.None? {
        return;
      }
      storage := storage - {loadedSource.value};
      SetEditorText(pristineSource.value);
      dirty := false;
    }

    /** The reader of a link that carries its own text. */
    method OpenLink(src: Text)
      modifies this
      ensures Current() == Step(old(Current()), OpenCustom(src), shipped)
    {
      loadedSource, pristineSource := None, None;
      SetEditorText(src);
    }
  }
}
