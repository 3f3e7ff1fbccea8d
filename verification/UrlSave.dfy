/** The URL writer: saves that overlap while their texts are being compressed, guarded by
    a generation number, tab changes (clicks, or the end of a run) that rewrite only the end
    of the hash, and a user who edits the address. */
module UrlSave {
  import opened Lists
  import opened Wrappers
  import opened Base64
  import opened HashCodec

  /** A save between its start and its end: compressing the document as it was, or with
      its hash ready and about to go on. */
  datatype Save = Encoding(snapshot: string) | Encoded(hash: string)

  /** The page; `snapshots`, `written` and `failed` are the history of started saves, of
      those that were written and of those whose text could not be encoded. `outOfStep`
      says that the user or a link has changed the URL or the tab since the last write. */
  datatype State = State(
    gen: nat,
    inFlight: map<nat, Save>,
    url: string,
    tab: Option<string>,
    doc: string,
    snapshots: map<nat, string>,
    written: seq<nat>,
    failed: set<nat>,
    outOfStep: bool)

  datatype Event =
    | Edit(doc: string)
    | SaveNow
    | EncodeDone(gen: nat)
    | EncodeFails(gen: nat)
    | Resume(gen: nat)
    | TabChange(tab: Option<string>)
    | EditUrl(url: string)
    | LinkTab(name: string)

  /** A tab changes only while no save has its hash ready: such a save goes on first. */
  predicate Settled(s: State) {
    forall g | g in s.inFlight :: s.inFlight[g].Encoding?
  }

  /** `writeTabToUrl`. */
  function WriteTab(url: string, tab: Option<string>): string {
    var hash := if url == "" then "" else url[1..];
    if hash == "" then url
    else
      var head := SplitAmp(hash)[0];
      if head == "" then url else Hashed(head, tab)
  }

  function Step(s: State, e: Event, gzip: Gzip): State {
    match e
    case Edit(doc) => s.(doc := doc)
    case SaveNow =>
      s.(gen := s.gen + 1, inFlight := s.inFlight[s.gen + 1 := Encoding(s.doc)], snapshots := s.snapshots[s.gen + 1 := s.doc])
    case EncodeDone(g) =>
      if g in s.inFlight && s.inFlight[g].Encoding?
      then s.(inFlight := s.inFlight[g := Encoded(BuildHash(s.inFlight[g].snapshot, s.tab, gzip))])
      else s
    case EncodeFails(g) =>
      if g in s.inFlight && s.inFlight[g].Encoding?
      then s.(inFlight := s.inFlight - {g}, failed := s.failed + {g})
      else s
    case Resume(g) =>
      if g in s.inFlight && s.inFlight[g].Encoded? then
        var gone := s.(inFlight := s.inFlight - {g});
        if g == s.gen then gone.(url := s.inFlight[g].hash, written := s.written + [g], outOfStep := false) else gone
      else s
    case TabChange(t) => if Settled(s) then s.(tab := t, url := WriteTab(s.url, t)) else s
    case EditUrl(url) => s.(url := url, outOfStep := true)
    case LinkTab(t) => if Settled(s) then s.(tab := Some(t), outOfStep := true) else s
  }

  function Run(s: State, es: seq<Event>, gzip: Gzip): State {
    if es == [] then s else Step(Run(s, es[..|es| - 1], gzip), es[|es| - 1], gzip)
  }

  function Initial(url: string, tab: Option<string>, doc: string): State {
    State(0, map[], url, tab, doc, map[], [], {}, false)
  }

  // ---- Tab writes ----

  function HeadOf(url: string): string {
    if url == "" then "" else SplitAmp(url[1..])[0]
  }

  lemma {:induction false} FirstPartHasNoAmp(s: string)
    ensures NoAmp(SplitAmp(s)[0])
  {
    if s != "" {
      FirstPartHasNoAmp(s[1..]);
    }
  }

  /** A tab write never changes what the URL says the document is. */
  lemma {:induction false} TabWriteKeepsHead(url: string, tab: Option<string>)
    requires tab.Some? ==> NoAmp(tab.value)
    ensures HeadOf(WriteTab(url, tab)) == HeadOf(url)
  {
    if url != "" {
      var head := SplitAmp(url[1..])[0];
      FirstPartHasNoAmp(url[1..]);
      SplitHead(head, tab);
    }
  }

  lemma {:induction false} TabWriteOnOwnHash(source: string, was: Option<string>, tab: Option<string>, gzip: Gzip)
    requires (was.Some? ==> NoAmp(was.value)) && (tab.Some? ==> NoAmp(tab.value))
    ensures WriteTab(BuildHash(source, was, gzip), tab) == BuildHash(source, tab, gzip)
  {
    var head := Head(source, gzip);
    HeadIsPlain(source, gzip);
    SplitHead(head, was);
  }

  // ---- What every run keeps ----

  /** A save in flight holds the document of its own call. */
  predicate HoldsItsCall(s: State, g: nat, gzip: Gzip)
    requires g in s.inFlight
  {
    && 1 <= g <= s.gen && g in s.snapshots
    && match s.inFlight[g]
       case Encoding(snapshot) => snapshot == s.snapshots[g]
       case Encoded(hash) => hash == BuildHash(s.snapshots[g], s.tab, gzip)
  }

  ghost predicate FlightInvariant(s: State, gzip: Gzip) {
    && (s.tab.Some? ==> NoAmp(s.tab.value))
    && (forall g | 1 <= g <= s.gen :: g in s.snapshots)
    && (forall g | g in s.inFlight :: HoldsItsCall(s, g, gzip))
  }

  function Last(ns: seq<nat>): nat {
    if ns == [] then 0 else ns[|ns| - 1]
  }

  /** The generations written increase; the newest save is in flight, has failed, or is the
      last one written. */
  predicate WrittenInvariant(s: State) {
    && Increasing(s.written) && (forall i | 0 <= i < |s.written| :: 1 <= s.written[i])
    && Last(s.written) <= s.gen
    && (forall g | g in s.failed :: g <= s.gen)
    && (s.gen in s.failed ==> Last(s.written) < s.gen)
    && (s.gen in s.inFlight <==> Last(s.written) < s.gen && s.gen !in s.failed)
  }

  predicate UrlInvariant(s: State, gzip: Gzip) {
    s.written != [] ==>
      && Last(s.written) in s.snapshots
      && (!s.outOfStep ==> s.url == BuildHash(s.snapshots[Last(s.written)], s.tab, gzip))
  }

  ghost predicate Invariant(s: State, gzip: Gzip) {
    FlightInvariant(s, gzip) && WrittenInvariant(s) && UrlInvariant(s, gzip)
  }

  /** Tab names come from the page's own list. */
  predicate GoodEvent(e: Event) {
    match e
    case TabChange(Some(t)) => NoAmp(t)
    case LinkTab(t) => NoAmp(t)
    case _ => true
  }

  /** A save that a step leaves alone still holds the document of its call. */
  lemma {:induction false} HoldsStill(s: State, s': State, g: nat, gzip: Gzip)
    requires g in s.inFlight && g in s'.inFlight && s'.inFlight[g] == s.inFlight[g] && HoldsItsCall(s, g, gzip)
    requires s.gen <= s'.gen && g in s'.snapshots && s'.snapshots[g] == s.snapshots[g]
    requires s.inFlight[g].Encoded? ==> s'.tab == s.tab
    ensures HoldsItsCall(s', g, gzip)
  {
  }

  lemma {:induction false} FlightKept(s: State, e: Event, gzip: Gzip)
    requires FlightInvariant(s, gzip) && GoodEvent(e)
    ensures FlightInvariant(Step(s, e, gzip), gzip)
  {
    var s' := Step(s, e, gzip);
    forall g | g in s'.inFlight ensures HoldsItsCall(s', g, gzip) {
      if g in s.inFlight {
        assert HoldsItsCall(s, g, gzip);
        StepKeepsHistory(s, e, gzip, g);
        if s'.inFlight[g] == s.inFlight[g] { HoldsStill(s, s', g, gzip); }
      }
    }
  }

  lemma {:induction false} AppendIncreasing(ns: seq<nat>, n: nat)
    requires Increasing(ns) && Last(ns) < n
    ensures Increasing(ns + [n]) && Last(ns + [n]) == n
  {
  }

  /** A resumption leaves the other saves in flight and writes only the newest. */
  lemma {:induction false} ResumeWritten(s: State, g: nat, gzip: Gzip)
    requires FlightInvariant(s, gzip) && WrittenInvariant(s)
    ensures WrittenInvariant(Step(s, Resume(g), gzip))
  {
    if g in s.inFlight && s.inFlight[g].Encoded? {
      assert HoldsItsCall(s, g, gzip);
      if g == s.gen { AppendIncreasing(s.written, g); }
    }
  }

  lemma {:induction false} FailureWritten(s: State, g: nat, gzip: Gzip)
    requires FlightInvariant(s, gzip) && WrittenInvariant(s)
    ensures WrittenInvariant(Step(s, EncodeFails(g), gzip))
  {
    if g in s.inFlight { assert HoldsItsCall(s, g, gzip); }
  }

  lemma {:induction false} SaveWritten(s: State, gzip: Gzip)
    requires WrittenInvariant(s)
    ensures WrittenInvariant(Step(s, SaveNow, gzip))
  {
    var s' := Step(s, SaveNow, gzip);
    assert s'.gen in s'.inFlight && s'.written == s.written && s'.failed == s.failed;
  }

  /** The invariant looks at the newest save only. */
  lemma {:induction false} WrittenStill(s: State, s': State)
    requires WrittenInvariant(s)
    requires s'.gen == s.gen && s'.written == s.written && s'.failed == s.failed
    requires s.gen in s'.inFlight <==> s.gen in s.inFlight
    ensures WrittenInvariant(s')
  {
  }

  lemma {:induction false} WrittenKept(s: State, e: Event, gzip: Gzip)
    requires FlightInvariant(s, gzip) && WrittenInvariant(s)
    ensures WrittenInvariant(Step(s, e, gzip))
  {
    match e
    case Resume(g) => ResumeWritten(s, g, gzip);
    case EncodeFails(g) => FailureWritten(s, g, gzip);
    case SaveNow => SaveWritten(s, gzip);
    case _ => WrittenStill(s, Step(s, e, gzip));
  }

  lemma {:induction false} ResumeUrl(s: State, g: nat, gzip: Gzip)
    requires Invariant(s, gzip)
    ensures UrlInvariant(Step(s, Resume(g), gzip), gzip)
  {
    if g in s.inFlight { assert HoldsItsCall(s, g, gzip); }
  }

  lemma {:induction false} TabUrl(s: State, tab: Option<string>, gzip: Gzip)
    requires Invariant(s, gzip) && (tab.Some? ==> NoAmp(tab.value))
    ensures UrlInvariant(Step(s, TabChange(tab), gzip), gzip)
  {
    if s.written != [] && !s.outOfStep { TabWriteOnOwnHash(s.snapshots[Last(s.written)], s.tab, tab, gzip); }
  }

  lemma {:induction false} UrlKept(s: State, e: Event, gzip: Gzip)
    requires Invariant(s, gzip) && GoodEvent(e)
    ensures UrlInvariant(Step(s, e, gzip), gzip)
  {
    match e
    case Resume(g) => ResumeUrl(s, g, gzip);
    case TabChange(t) => TabUrl(s, t, gzip);
    case EditUrl(_) =>
    case LinkTab(_) =>
    case _ =>
      if s.written != [] { StepKeepsHistory(s, e, gzip, Last(s.written)); }
      assert Step(s, e, gzip).url == s.url && Step(s, e, gzip).tab == s.tab && Step(s, e, gzip).written == s.written
          && Step(s, e, gzip).outOfStep == s.outOfStep;
  }

  lemma {:induction false} StepKeeps(s: State, e: Event, gzip: Gzip)
    requires Invariant(s, gzip) && GoodEvent(e)
    ensures Invariant(Step(s, e, gzip), gzip)
  {
    FlightKept(s, e, gzip);
    WrittenKept(s, e, gzip);
    UrlKept(s, e, gzip);
  }

  lemma {:induction false} EveryRunKeeps(start: State, es: seq<Event>, gzip: Gzip)
    requires Invariant(start, gzip) && forall i | 0 <= i < |es| :: GoodEvent(es[i])
    ensures Invariant(Run(start, es, gzip), gzip)
  {
    if es != [] {
      EveryRunKeeps(start, es[..|es| - 1], gzip);
      StepKeeps(Run(start, es[..|es| - 1], gzip), es[|es| - 1], gzip);
    }
  }

  /** Over every interleaving: written generations strictly increase, and when no save is
      in flight, the URL reads back as the document of the last save written, with the
      current tab, unless the user or a link has changed it since. The last one written is
      the most recent save call, unless that one could not be encoded. */
  lemma {:induction false} UrlCarriesLastSave(url: string, tab: Option<string>, doc: string, es: seq<Event>,
                                              site: Site, gzip: Gzip, gunzip: Gunzip)
    requires tab.Some? ==> NoAmp(tab.value)
    requires forall i | 0 <= i < |es| :: GoodEvent(es[i])
    ensures var s := Run(Initial(url, tab, doc), es, gzip);
            && Increasing(s.written)
            && (s.inFlight == map[] ==> (Last(s.written) == s.gen <==> s.gen !in s.failed))
            && (s.written != [] && !s.outOfStep && GoodTab(s.tab, site) ==>
                  && Last(s.written) in s.snapshots && s.url != ""
                  && ParseHash(s.url[1..], site, gunzip) == ReadBack(s.snapshots[Last(s.written)], s.tab, gzip, gunzip))
  {
    EveryRunKeeps(Initial(url, tab, doc), es, gzip);
    var s := Run(Initial(url, tab, doc), es, gzip);
    if s.written != [] && GoodTab(s.tab, site) {
      HashRoundTrip(s.snapshots[Last(s.written)], s.tab, site, gzip, gunzip);
    }
  }

  /** Any later write of a save puts the URL back in step. */
  lemma {:induction false} WriteRestoresStep(s: State, g: nat, gzip: Gzip)
    requires Invariant(s, gzip)
    requires Step(s, Resume(g), gzip).written != s.written
    ensures var s' := Step(s, Resume(g), gzip);
            g == s.gen && !s'.outOfStep && g in s'.snapshots && s'.url == BuildHash(s'.snapshots[g], s'.tab, gzip)
  {
    assert HoldsItsCall(s, g, gzip);
  }

  lemma {:induction false} StepKeepsHistory(s: State, e: Event, gzip: Gzip, g: nat)
    requires g <= s.gen && g in s.snapshots
    ensures var s' := Step(s, e, gzip); g <= s'.gen && g in s'.snapshots && s'.snapshots[g] == s.snapshots[g]
  {
  }

  /** A save records the document as it is when the save is called, whatever is typed
      while its text is compressed. */
  lemma {:induction false} SnapshotIsOfTheCall(s: State, es: seq<Event>, gzip: Gzip)
    ensures var saved := Step(s, SaveNow, gzip);
            var s' := Run(saved, es, gzip);
            && saved.gen == s.gen + 1 && s'.gen >= saved.gen
            && saved.gen in s'.snapshots && s'.snapshots[saved.gen] == s.doc
  {
    if es != [] {
      var n := |es| - 1;
      SnapshotIsOfTheCall(s, es[..n], gzip);
      StepKeepsHistory(Run(Step(s, SaveNow, gzip), es[..n], gzip), es[n], gzip, s.gen + 1);
    }
  }

  // ---- The steps, spelled out ----

  lemma {:induction false} StartIsSpelled(url: string, tab: Option<string>, doc: string)
    ensures var s := Initial(url, tab, doc);
            && s.url == url && s.tab == tab && s.doc == doc && s.gen == 0 && s.inFlight == map[] && s.written == [] && s.failed == {}
            && !s.outOfStep
  {
  }

  /** What each event sets, wherever the others stand. */
  lemma {:induction false} EventsAreSpelled(s: State, text: string, tab: Option<string>, g: nat, gzip: Gzip)
    ensures Step(s, Edit(text), gzip) == s.(doc := text)
    ensures Step(s, EditUrl(text), gzip) == s.(url := text, outOfStep := true)
    ensures Settled(s) ==> Step(s, TabChange(tab), gzip).tab == tab && Step(s, LinkTab(text), gzip).tab == Some(text)
    ensures Step(s, SaveNow, gzip).gen == s.gen + 1 && s.gen + 1 in Step(s, SaveNow, gzip).inFlight
    ensures g in s.inFlight && s.inFlight[g].Encoded? ==>
              var s' := Step(s, Resume(g), gzip);
              && s'.inFlight == s.inFlight - {g}
              && (if g == s.gen then s'.url == s.inFlight[g].hash && s'.written == s.written + [g]
                  else s'.url == s.url && s'.written == s.written)
    ensures g in s.inFlight && s.inFlight[g].Encoding? ==>
              && Step(s, EncodeDone(g), gzip).inFlight[g] == Encoded(BuildHash(s.inFlight[g].snapshot, s.tab, gzip))
              && Step(s, EncodeFails(g), gzip).inFlight == s.inFlight - {g}
  {
  }

  /** A tab change on any hash with a head, whichever of the three forms it has: what is
      behind the head goes, and the tab comes. */
  lemma {:induction false} TabWriteIsSpelled(head: string, rest: string, tab: Option<string>)
    requires NoAmp(head) && head != "" && (rest == "" || rest[0] == '&')
    ensures WriteTab("#" + (head + rest), tab) == "#" + (head + if tab.Some? then "&t=" + tab.value else "")
  {
    var hash := head + rest;
    assert ("#" + hash)[1..] == hash && hash != "";
    if rest == "" {
      assert hash == head;
      SplitPlain(head);
    } else {
      assert hash == head + "&" + rest[1..];
      SplitAtAmp(head, rest[1..]);
    }
  }

  /** Without a head there is nothing to keep, and the URL stays as it is. */
  lemma {:induction false} NoHeadNoWrite(rest: string, tab: Option<string>)
    requires rest == "" || rest[0] == '&'
    ensures WriteTab("", tab) == "" && WriteTab("#" + rest, tab) == "#" + rest
  {
    assert ("#" + rest)[1..] == rest;
  }

  // ---- The page ----

  /** The page's variables, updated in place; the ghost fields are its history. */
  class Page {
    const gzip: Gzip
    var hashSaveGen: nat
    var inFlight: map<nat, Save>
    var url: string
    var currentTab: Option<string>
    var doc: string
    ghost var snapshots: map<nat, string>
    ghost var written: seq<nat>
    ghost var failed: set<nat>
    ghost var outOfStep: bool

    ghost function Current(): State
      reads this
    {
      State(hashSaveGen, inFlight, url, currentTab, doc, snapshots, written, failed, outOfStep)
    }

    constructor (url: string, tab: Option<string>, doc: string, gzip: Gzip)
      ensures Current() == Initial(url, tab, doc) && this.gzip == gzip
    {
      this.gzip := gzip;
      hashSaveGen, inFlight, this.url, currentTab, this.doc := 0, map[], url, tab, doc;
      snapshots, written, failed, outOfStep := map[], [], {}, false;
    }

    /** `saveHashNow` up to its `await`: the document is read at the call. */
    method SaveHashNow()
      modifies this
      ensures Current() == Step(old(Current()), SaveNow, gzip)
    {
      hashSaveGen := hashSaveGen + 1;
      var myGen := hashSaveGen;
      inFlight := inFlight[myGen := Encoding(doc)];
      snapshots := snapshots[myGen := doc];
    }

    /** The end of `buildHash`: the tab is read when the text has been encoded. */
    method Built(myGen: nat)
      requires myGen in inFlight && inFlight[myGen].Encoding?
      modifies this`inFlight
      ensures Current() == Step(old(Current()), EncodeDone(myGen), gzip)
    {
      var encoded := UrlEncode(gzip(inFlight[myGen].snapshot));
      inFlight := inFlight[myGen := Encoded(Hashed(CODE + encoded, currentTab))];
    }

    /** `saveHashNow` from its `await` on. */
    method Resumed(myGen: nat)
      requires myGen in inFlight && inFlight[myGen].Encoded?
      modifies this
      ensures Current() == Step(old(Current()), Resume(myGen), gzip)
    {
      var h := inFlight[myGen].hash;
      inFlight := inFlight - {myGen};
      if myGen != hashSaveGen {
        return;
      }
      url := h;
      written := written + [myGen];
      outOfStep := false;
    }

    /** `buildHash` throws: nothing behind the `await` runs. */
    method BuildFailed(myGen: nat)
      requires myGen in inFlight && inFlight[myGen].Encoding?
      modifies this
      ensures Current() == Step(old(Current()), EncodeFails(myGen), gzip)
    {
      inFlight := inFlight - {myGen};
      failed := failed + {myGen};
    }

    /** A link with its own text is opened: its tab and its text are taken over, and saved. */
    method OpenLink(tab: Option<string>, src: string)
      requires Settled(Current())
      modifies this
      ensures var linked := if tab.Some? then Step(old(Current()), LinkTab(tab.value), gzip) else old(Current());
              Current() == Step(Step(linked, Edit(src), gzip), SaveNow, gzip)
    {
      if tab.Some? {
        currentTab := tab;
        outOfStep := true;
      }
      doc := src;
      SaveHashNow();
    }

    /** A click on a tab, or the end of a run; both end in `writeTabToUrl`. */
    method ShowTab(tab: Option<string>)
      requires Settled(Current())
      modifies this
      ensures Current() == Step(old(Current()), TabChange(tab), gzip)
    {
      currentTab := tab;
      var hash := if url == "" then "" else url[1..];
      if hash == "" {
        return;
      }
      var head := SplitAmp(hash)[0];
      if head == "" {
        return;
      }
      url := Hashed(head, currentTab);
    }
  }
}
