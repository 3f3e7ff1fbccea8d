/** The printer and the scanner, across the two languages: scanning what `finish` wrote
    gives back the sorted items and their runs, one range each. */
module WalkRoundTrip {
  import opened Lists
  import opened CodeUnits
  import opened Sections
  import opened ScannerLaws
  import opened Emission
  import opened Grouping
  import opened Wrappers
  import opened Walk

  /** What the walk promises of an item: one-line labels, and a text that holds no marker. */
  predicate Printable(item: WalkItem) {
    && SingleLine(item.kind) && SingleLine(item.name) && SingleLine(item.span)
    && (item.krate.Some? ==> SingleLine(item.krate.value))
    && AllPlain(TextLines(item.text))
  }

  predicate AllPrintable(items: seq<WalkItem>) {
    forall i | 0 <= i < |items| :: Printable(items[i])
  }

  // ---- The forest of a walk, unfolded item by item ----

  /** How many items from the front belong to the run `key`. */
  function RunOf(items: seq<WalkItem>, key: RunKey): (n: nat)
    ensures n <= |items|
    ensures forall i | 0 <= i < n :: KeyOf(items[i]) == key
    ensures n < |items| ==> KeyOf(items[n]) != key
  {
    RunLength(Pieces(items), key)
  }

  lemma {:induction false} RunOfStep(items: seq<WalkItem>, key: RunKey)
    requires items != [] && KeyOf(items[0]) == key
    ensures RunOf(items, key) == 1 + RunOf(items[1..], key)
  {
    assert Pieces(items)[1..] == Pieces(items[1..]);
  }

  function ItemSection(item: WalkItem, rest: Forest): Forest {
    Section(Banner(item), true, FromLines(TextLines(item.text)), rest)
  }

  function ItemSections(items: seq<WalkItem>): Forest {
    PieceSections(Pieces(items))
  }

  lemma {:induction false} ItemSectionsStep(items: seq<WalkItem>)
    requires items != []
    ensures ItemSections(items) == ItemSection(items[0], ItemSections(items[1..]))
  {
    assert Pieces(items)[1..] == Pieces(items[1..]);
  }

  lemma {:induction false} WalkForestStep(items: seq<WalkItem>)
    requires items != []
    ensures var n := BlockLength(items);
            WalkForest(items)
            == if KeyOf(items[0]).None? then ItemSection(items[0], WalkForest(items[1..]))
               else Section(RunBanner(items[0].kind, items[0].krate.value), true, ItemSections(items[..n]), WalkForest(items[n..]))
  {
    var n := BlockLength(items);
    assert Pieces(items)[1..] == Pieces(items[1..]);
    assert Pieces(items)[..n] == Pieces(items[..n]) && Pieces(items)[n..] == Pieces(items[n..]);
  }

  /** A block is a maximal external run, or one local item. */
  function BlockLength(items: seq<WalkItem>): (n: nat)
    requires items != []
    ensures 0 < n <= |items|
  {
    if KeyOf(items[0]).None? then 1 else RunOf(items, KeyOf(items[0]))
  }

  // ---- The forest of a walk is well formed ----

  lemma {:induction false} LinesForest(ls: seq<Text>)
    requires AllPlain(ls)
    ensures Balanced(FromLines(ls)) && LineByLine(FromLines(ls))
    ensures FromLines(ls).Nil? <==> ls == []
  {
    if ls != [] {
      LinesForest(ls[1..]);
    }
  }

  lemma {:induction false} ItemBanner(item: WalkItem)
    requires Printable(item)
    ensures IsOpen(Banner(item)) && SingleLine(Banner(item))
    ensures item.krate.Some? ==> var b := RunBanner(item.kind, item.krate.value); IsOpen(b) && SingleLine(b)
  {
  }

  lemma {:induction false} ItemSectionsWellFormed(items: seq<WalkItem>)
    requires AllPrintable(items)
    ensures Balanced(ItemSections(items)) && LineByLine(ItemSections(items))
  {
    if items != [] {
      ItemSectionsStep(items);
      ItemBanner(items[0]);
      LinesForest(TextLines(items[0].text));
      ItemSectionsWellFormed(items[1..]);
    }
  }

  lemma {:induction false} WalkForestWellFormed(items: seq<WalkItem>)
    requires AllPrintable(items)
    ensures Balanced(WalkForest(items)) && LineByLine(WalkForest(items)) && EndsClosed(WalkForest(items))
    decreases |items|
  {
    if items != [] {
      WalkForestStep(items);
      ItemBanner(items[0]);
      match KeyOf(items[0])
      case None =>
        LinesForest(TextLines(items[0].text));
        WalkForestWellFormed(items[1..]);
      case Some((krate, kind)) =>
        var n := RunOf(items, KeyOf(items[0]));
        assert n > 0;
        ItemSectionsWellFormed(items[..n]);
        WalkForestWellFormed(items[n..]);
    }
  }

  // ---- The inventory of a walk ----

  /** What the reader can fold: a single item, or a run of external items. */
  datatype Entry = Single(item: WalkItem) | Run(run: seq<WalkItem>)

  predicate Empty(items: seq<WalkItem>) {
    forall i | 0 <= i < |items| :: items[i].text == []
  }

  function Singles(items: seq<WalkItem>): (es: seq<Entry>)
    ensures forall i | 0 <= i < |es| :: es[i].Single? && es[i].item.text != [] && es[i].item in items
  {
    if items == [] then []
    else (if items[0].text == [] then [] else [Single(items[0])]) + Singles(items[1..])
  }

  /** The entries of one block of items: each non-empty item, then the external run as a
      whole unless it is empty. */
  function Block(block: seq<WalkItem>): seq<Entry>
    requires block != []
  {
    Singles(block) + if KeyOf(block[0]).None? || Empty(block) then [] else [Run(block)]
  }

  function Inventory(items: seq<WalkItem>): (es: seq<Entry>)
    ensures forall i | 0 <= i < |es| && es[i].Run? :: es[i].run != [] && KeyOf(es[i].run[0]).Some?
    decreases |items|
  {
    if items == [] then []
    else Block(items[..BlockLength(items)]) + Inventory(items[BlockLength(items)..])
  }

  function EntryBanner(e: Entry): Text {
    match e
    case Single(item) => Banner(item)
    case Run(run) =>
      if run != [] && run[0].krate.Some? then RunBanner(run[0].kind, run[0].krate.value) else []
  }

  function EntryBody(e: Entry): Forest {
    match e
    case Single(item) => FromLines(TextLines(item.text))
    case Run(run) => Prune(ItemSections(run))
  }

  function ToSurvivors(es: seq<Entry>): (ss: seq<Survivor>)
    ensures |ss| == |es|
    ensures forall k | 0 <= k < |es| :: ss[k] == Survivor(EntryBanner(es[k]), EntryBody(es[k]))
  {
    seq(|es|, k requires 0 <= k < |es| => Survivor(EntryBanner(es[k]), EntryBody(es[k])))
  }

  lemma {:induction false} ToSurvivorsConcat(a: seq<Entry>, b: seq<Entry>)
    ensures ToSurvivors(a + b) == ToSurvivors(a) + ToSurvivors(b)
  {
  }

  lemma {:induction false} PruneItem(item: WalkItem, rest: Forest)
    requires Printable(item)
    ensures Prune(ItemSection(item, rest)) == if item.text == [] then Prune(rest) else ItemSection(item, Prune(rest))
    ensures Survivors(Prune(ItemSection(item, rest))) == ToSurvivors(Singles([item])) + Survivors(Prune(rest))
  {
    var ls := TextLines(item.text);
    PlainTextHasNoSections(ls);
    LinesForest(ls);
    NoSurvivors(ls);
    assert [item][1..] == [];
    if item.text != [] {
      assert Singles([item]) == [Single(item)];
      assert ToSurvivors([Single(item)]) == [Survivor(Banner(item), FromLines(ls))];
      assert Survivors(ItemSection(item, Prune(rest)))
          == [] + [Survivor(Banner(item), FromLines(ls))] + Survivors(Prune(rest));
    }
  }

  lemma {:induction false} NoSurvivors(ls: seq<Text>)
    ensures Survivors(FromLines(ls)) == []
  {
    if ls != [] {
      NoSurvivors(ls[1..]);
    }
  }

  lemma {:induction false} SinglesStep(items: seq<WalkItem>)
    requires items != []
    ensures Singles(items) == Singles([items[0]]) + Singles(items[1..])
  {
    assert [items[0]][1..] == [];
  }

  lemma {:induction false} EmptyStep(items: seq<WalkItem>)
    requires items != []
    ensures Empty(items) <==> items[0].text == [] && Empty(items[1..])
  {
    var rest := items[1..];
    assert forall i | 0 <= i < |rest| :: rest[i] == items[i + 1];
    if items[0].text == [] && Empty(rest) {
      forall i | 0 <= i < |items| ensures items[i].text == [] {
        if i > 0 { assert items[i] == rest[i - 1]; }
      }
    }
  }

  lemma {:induction false} RunSurvivors(items: seq<WalkItem>)
    requires AllPrintable(items)
    ensures Survivors(Prune(ItemSections(items))) == ToSurvivors(Singles(items))
    ensures Prune(ItemSections(items)).Nil? <==> Empty(items)
  {
    if items != [] {
      ItemSectionsStep(items);
      RunSurvivors(items[1..]);
      PruneItem(items[0], ItemSections(items[1..]));
      SinglesStep(items);
      ToSurvivorsConcat(Singles([items[0]]), Singles(items[1..]));
      EmptyStep(items);
    }
  }

  lemma {:induction false} RunSectionSurvivors(run: seq<WalkItem>, rest: Forest)
    requires AllPrintable(run) && run != [] && run[0].krate.Some?
    ensures var section := Section(RunBanner(run[0].kind, run[0].krate.value), true, ItemSections(run), rest);
            Survivors(Prune(section)) == ToSurvivors(Block(run)) + Survivors(Prune(rest))
  {
    RunSurvivors(run);
    if Empty(run) {
      NoSingles(run);
    } else {
      ToSurvivorsConcat(Singles(run), [Run(run)]);
      assert ToSurvivors([Run(run)]) == [Survivor(EntryBanner(Run(run)), EntryBody(Run(run)))];
    }
  }

  lemma {:induction false} WalkSurvivors(items: seq<WalkItem>)
    requires AllPrintable(items)
    ensures Survivors(Prune(WalkForest(items))) == ToSurvivors(Inventory(items))
    decreases |items|
  {
    if items != [] {
      WalkForestStep(items);
      var n := BlockLength(items);
      var block := items[..n];
      WalkSurvivors(items[n..]);
      ToSurvivorsConcat(Block(block), Inventory(items[n..]));
      assert block[0] == items[0];
      if KeyOf(items[0]).None? {
        assert block == [items[0]] && Block(block) == Singles(block);
        PruneItem(items[0], WalkForest(items[n..]));
      } else {
        RunSectionSurvivors(block, WalkForest(items[n..]));
      }
    }
  }

  lemma {:induction false} NoSingles(items: seq<WalkItem>)
    requires Empty(items)
    ensures Singles(items) == []
  {
    if items != [] {
      NoSingles(items[1..]);
    }
  }

  lemma {:induction false} FromLinesPrinted(ls: seq<Text>)
    ensures Printed(FromLines(ls)) == ls
  {
    if ls != [] {
      FromLinesPrinted(ls[1..]);
    }
  }

  // ---- The round trip ----

  /** The line the reader sees for an item, and for a run of external items. */
  function Heading(item: WalkItem): Text {
    Ascii(";; ") + item.kind + Ascii(" ") + item.name + if item.span == [] then [] else Ascii(" ") + item.span
  }

  function RunHeading(kind: Text, krate: Text): Text {
    Ascii(";; ") + kind + Ascii(" ") + krate
  }

  /** The lines of items one after the other, each below its heading; items without text
      are not shown. */
  function ItemsShown(items: seq<WalkItem>): seq<Text> {
    if items == [] then []
    else (if items[0].text == [] then [] else [Heading(items[0])] + TextLines(items[0].text)) + ItemsShown(items[1..])
  }

  /** A text without the newline at its end. */
  function Unended(text: Text): Text {
    if text != [] && text[|text| - 1] as int == '\n' as int then text[..|text| - 1] else text
  }

  /** The range starts behind the entry's heading and spans exactly the text of the item, or
      the items of the run; it is folded on arrival when the entry is external. */
  predicate Shows(view: View, r: Range, e: Entry) {
    && r.from < r.to <= |view.body| && EndsLine(view.body, r.to)
    && match e
       case Single(item) =>
         && LineEndsAt(view.body, r.from, Heading(item))
         && view.body[r.from..r.to] == Ascii("\n") + Unended(item.text)
         && (r in view.autoFolded <==> item.krate.Some?)
       case Run(run) =>
         && run != [] && run[0].krate.Some? && LineEndsAt(view.body, r.from, RunHeading(run[0].kind, run[0].krate.value))
         && view.body[r.from..r.to] == Ascii("\n") + Join(ItemsShown(run))
         && r in view.autoFolded
  }

  lemma {:induction false} BannersAreHeadings(item: WalkItem)
    ensures StripMarker(Banner(item)) == Heading(item)
    ensures item.krate.Some? ==> StripMarker(RunBanner(item.kind, item.krate.value)) == RunHeading(item.kind, item.krate.value)
    ensures item.krate.Some? ==> AutoFolds(RunBanner(item.kind, item.krate.value))
    ensures AutoFolds(Banner(item)) <==> item.krate.Some?
  {
    UnitsAreSpelled();
    assert Ascii(";; ") == [SEMICOLON, SEMICOLON, SPACE];
    var tail := if item.span == [] then [] else [SPACE] + item.span;
    LabelStripped(if item.krate.Some? then GREATER else LETTER_V, item.kind + [SPACE] + item.name + tail);
    assert Banner(item) == [SEMICOLON, SEMICOLON, if item.krate.Some? then GREATER else LETTER_V, SPACE] + (item.kind + [SPACE] + item.name + tail);
    assert Heading(item) == [SEMICOLON, SEMICOLON, SPACE] + (item.kind + [SPACE] + item.name + tail);
    if item.krate.Some? {
      var krate := item.krate.value;
      LabelStripped(GREATER, item.kind + [SPACE] + krate);
      assert RunBanner(item.kind, krate) == [SEMICOLON, SEMICOLON, GREATER, SPACE] + (item.kind + [SPACE] + krate);
      assert RunHeading(item.kind, krate) == [SEMICOLON, SEMICOLON, SPACE] + (item.kind + [SPACE] + krate);
    }
  }

  lemma {:induction false} LabelStripped(marker: CodeUnit, text: Text)
    ensures var b := [SEMICOLON, SEMICOLON, marker, SPACE] + text;
            StripMarker(b) == [SEMICOLON, SEMICOLON, SPACE] + text && b[2] == marker
  {
    var b := [SEMICOLON, SEMICOLON, marker, SPACE] + text;
    assert b[3..] == [SPACE] + text;
  }

  lemma {:induction false} PrintedItems(items: seq<WalkItem>)
    requires AllPrintable(items)
    ensures Printed(Prune(ItemSections(items))) == ItemsShown(items)
  {
    if items != [] {
      ItemSectionsStep(items);
      PruneItem(items[0], ItemSections(items[1..]));
      PrintedItems(items[1..]);
      FromLinesPrinted(TextLines(items[0].text));
      BannersAreHeadings(items[0]);
    }
  }

  lemma {:induction false} TextIsUnended(text: Text)
    requires text != []
    ensures Join(TextLines(text)) == Unended(text)
  {
    if text[|text| - 1] == NEWLINE { JoinSplit(text[..|text| - 1]); } else { JoinSplit(text); }
  }

  predicate PrintableEntry(e: Entry) {
    match e
    case Single(item) => Printable(item) && item.text != []
    case Run(run) => AllPrintable(run) && run != [] && KeyOf(run[0]).Some?
  }

  predicate PrintableEntries(es: seq<Entry>) {
    forall k | 0 <= k < |es| :: PrintableEntry(es[k])
  }

  lemma {:induction false} InventoryPrintable(items: seq<WalkItem>)
    requires AllPrintable(items)
    ensures PrintableEntries(Inventory(items))
    decreases |items|
  {
    if items != [] {
      var n := BlockLength(items);
      var block := items[..n];
      InventoryPrintable(items[n..]);
      assert block[0] == items[0];
      assert PrintableEntries(Block(block));
    }
  }

  /** One range per entry, in the same order. */
  predicate ShowsAll(view: View, es: seq<Entry>) {
    && |view.foldable| == |es|
    && forall k | 0 <= k < |es| :: Shows(view, view.foldable[k], es[k])
  }

  /** Scanning the trimmed output of `finish` leaves no section open and shows the sorted
      items: one range per non-empty item, and one per run with a non-empty item. */
  lemma {:induction false} ScanRecoversWalk(items: seq<WalkItem>)
    requires AllPrintable(items)
    ensures var sorted := StableSort(items);
            var body := Terminate(Marked(WalkForest(sorted)));
            Balanced(ParseAll(Split(TrimEnd(body)))) && ShowsAll(Shown(body), Inventory(sorted))
  {
    var sorted := StableSort(items);
    SortKeepsPrintable(items);
    WalkForestWellFormed(sorted);
    WrittenForestIsShown(WalkForest(sorted));
    WalkSurvivors(sorted);
    ForestRanges(WalkForest(sorted));
    InventoryPrintable(sorted);
    ShowsEntries(Meaning(WalkForest(sorted)), Inventory(sorted));
  }

  /** Ranges that cover the entries' sections show the entries. */
  lemma {:induction false} ShowsEntries(view: View, es: seq<Entry>)
    requires |view.foldable| == |es|
    requires forall k | 0 <= k < |es| ::
               && Covers(view.body, view.foldable[k], ToSurvivors(es)[k])
               && (view.foldable[k] in view.autoFolded <==> AutoFolds(ToSurvivors(es)[k].banner))
    requires PrintableEntries(es)
    ensures ShowsAll(view, es)
  {
    forall k | 0 <= k < |es| ensures Shows(view, view.foldable[k], es[k]) {
      CoveredEntryIsShown(view, view.foldable[k], es[k]);
    }
  }

  // ---- Several walks in one body ----

  /** The walks of several modules are pushed into one body, each sorted by itself. */
  function WalksForest(walks: seq<seq<WalkItem>>): Forest {
    if walks == [] then Nil
    else Append(WalksForest(walks[..|walks| - 1]), WalkForest(StableSort(walks[|walks| - 1])))
  }

  function Inventories(walks: seq<seq<WalkItem>>): (es: seq<Entry>)
    ensures forall i | 0 <= i < |es| && es[i].Run? :: es[i].run != [] && KeyOf(es[i].run[0]).Some?
  {
    if walks == [] then []
    else Inventories(walks[..|walks| - 1]) + Inventory(StableSort(walks[|walks| - 1]))
  }

  predicate AllWalksPrintable(walks: seq<seq<WalkItem>>) {
    forall i | 0 <= i < |walks| :: AllPrintable(walks[i])
  }

  lemma {:induction false} WalksForestIsGood(walks: seq<seq<WalkItem>>)
    requires AllWalksPrintable(walks)
    ensures Balanced(WalksForest(walks)) && LineByLine(WalksForest(walks)) && EndsClosed(WalksForest(walks))
    ensures Survivors(Prune(WalksForest(walks))) == ToSurvivors(Inventories(walks)) && PrintableEntries(Inventories(walks))
  {
    if walks != [] {
      var n := |walks| - 1;
      var before, sorted := walks[..n], StableSort(walks[n]);
      WalksForestIsGood(before);
      SortKeepsPrintable(walks[n]);
      WalkForestWellFormed(sorted);
      WalkSurvivors(sorted);
      InventoryPrintable(sorted);
      BalancedAppend(WalksForest(before), WalkForest(sorted));
      EndsClosedAppend(WalksForest(before), WalkForest(sorted));
      PruneAppend(WalksForest(before), WalkForest(sorted));
      SurvivorsAppend(Prune(WalksForest(before)), Prune(WalkForest(sorted)));
      ToSurvivorsConcat(Inventories(before), Inventory(sorted));
    }
  }

  /** The round trip for a body that holds any number of finished walks. */
  lemma {:induction false} ScanRecoversWalks(walks: seq<seq<WalkItem>>)
    requires AllWalksPrintable(walks)
    ensures var body := Terminate(Marked(WalksForest(walks)));
            Balanced(ParseAll(Split(TrimEnd(body)))) && ShowsAll(Shown(body), Inventories(walks))
  {
    var f := WalksForest(walks);
    WalksForestIsGood(walks);
    WrittenForestIsShown(f);
    ForestRanges(f);
    ShowsEntries(Meaning(f), Inventories(walks));
  }

  /** The pruned dumps: one walk per module, all in one body. */
  method DumpWalks(walks: seq<seq<WalkItem>>) returns (body: Text)
    ensures body == Terminate(Marked(WalksForest(walks)))
  {
    body := [];
    for w := 0 to |walks|
      invariant body == Terminate(Marked(WalksForest(walks[..w])))
    {
      var finished := DumpWalk(walks[w]);
      MarkedAppend(WalksForest(walks[..w]), WalkForest(StableSort(walks[w])));
      TerminateConcat(Marked(WalksForest(walks[..w])), Marked(WalkForest(StableSort(walks[w]))));
      assert walks[..w + 1][..w] == walks[..w];
      body := body + finished;
    }
    assert walks[..|walks|] == walks;
  }

  method DumpWalk(items: seq<WalkItem>) returns (body: Text)
    ensures body == Terminate(Marked(WalkForest(StableSort(items))))
  {
    var b := new WalkBuilder();
    for i := 0 to |items|
      invariant b.items == items[..i] && fresh(b)
    {
      b.AddItem(items[i].kind, items[i].name, items[i].krate, items[i].span, items[i].text);
    }
    assert items[..|items|] == items;
    body := b.Finish();
  }

  lemma {:induction false} CoveredEntryIsShown(view: View, r: Range, e: Entry)
    requires Covers(view.body, r, Survivor(EntryBanner(e), EntryBody(e)))
    requires PrintableEntry(e)
    requires r in view.autoFolded <==> AutoFolds(EntryBanner(e))
    ensures Shows(view, r, e)
  {
    UnitsAreSpelled();
    match e
    case Single(item) =>
      FromLinesPrinted(TextLines(item.text));
      TextIsUnended(item.text);
      BannersAreHeadings(item);
    case Run(run) =>
      PrintedItems(run);
      BannersAreHeadings(run[0]);
  }

  lemma {:induction false} InsertKeepsPrintable(x: WalkItem, items: seq<WalkItem>)
    requires Printable(x) && AllPrintable(items)
    ensures AllPrintable(Insert(x, items))
  {
    if items != [] && !KeyLeq(x.krate, items[0].krate) {
      InsertKeepsPrintable(x, items[1..]);
    }
  }

  lemma {:induction false} SortKeepsPrintable(items: seq<WalkItem>)
    requires AllPrintable(items)
    ensures AllPrintable(StableSort(items))
  {
    if items != [] {
      SortKeepsPrintable(items[1..]);
      InsertKeepsPrintable(items[0], StableSort(items[1..]));
    }
  }

  // ---- What the inventory lists ----

  function NonEmpty(items: seq<WalkItem>): seq<WalkItem> {
    if items == [] then []
    else (if items[0].text == [] then [] else [items[0]]) + NonEmpty(items[1..])
  }

  function SingleItems(es: seq<Entry>): seq<WalkItem> {
    if es == [] then []
    else (if es[0].Single? then [es[0].item] else []) + SingleItems(es[1..])
  }

  function RunEntries(es: seq<Entry>): seq<seq<WalkItem>> {
    if es == [] then []
    else (if es[0].Run? then [es[0].run] else []) + RunEntries(es[1..])
  }

  /** The maximal runs of equal crate and kind, local items included as their own runs. */
  function MaximalRuns(items: seq<WalkItem>): seq<seq<WalkItem>>
    decreases |items|
  {
    if items == [] then []
    else
      var n := RunOf(items, KeyOf(items[0]));
      [items[..n]] + MaximalRuns(items[n..])
  }

  function Foldable(runs: seq<seq<WalkItem>>): seq<seq<WalkItem>> {
    if runs == [] then []
    else
      (if runs[0] != [] && KeyOf(runs[0][0]).Some? && !Empty(runs[0]) then [runs[0]] else []) + Foldable(runs[1..])
  }

  lemma {:induction false} EntriesConcat(a: seq<Entry>, b: seq<Entry>)
    ensures SingleItems(a + b) == SingleItems(a) + SingleItems(b)
    ensures RunEntries(a + b) == RunEntries(a) + RunEntries(b)
  {
    if a == [] {
      assert a + b == b;
    } else {
      assert (a + b)[0] == a[0] && (a + b)[1..] == a[1..] + b;
      EntriesConcat(a[1..], b);
      Assoc(if a[0].Single? then [a[0].item] else [], SingleItems(a[1..]), SingleItems(b));
      Assoc(if a[0].Run? then [a[0].run] else [], RunEntries(a[1..]), RunEntries(b));
    }
  }

  lemma {:induction false} NonEmptyConcat(a: seq<WalkItem>, b: seq<WalkItem>)
    ensures NonEmpty(a + b) == NonEmpty(a) + NonEmpty(b)
  {
    if a == [] {
      assert a + b == b;
    } else {
      assert (a + b)[0] == a[0] && (a + b)[1..] == a[1..] + b;
      NonEmptyConcat(a[1..], b);
      Assoc(if a[0].text == [] then [] else [a[0]], NonEmpty(a[1..]), NonEmpty(b));
    }
  }

  lemma {:induction false} NonEmptyCut(items: seq<WalkItem>, n: nat)
    requires n <= |items|
    ensures NonEmpty(items) == NonEmpty(items[..n]) + NonEmpty(items[n..])
  {
    NonEmptyConcat(items[..n], items[n..]);
    TakeDrop(items, n);
  }

  lemma {:induction false} SinglesListed(items: seq<WalkItem>)
    ensures SingleItems(Singles(items)) == NonEmpty(items) && RunEntries(Singles(items)) == []
  {
    if items != [] {
      SinglesListed(items[1..]);
      SinglesStep(items);
      EntriesConcat(Singles([items[0]]), Singles(items[1..]));
      assert [items[0]][1..] == [];
    }
  }

  lemma {:induction false} BlockListed(block: seq<WalkItem>)
    requires block != []
    ensures SingleItems(Block(block)) == NonEmpty(block)
    ensures RunEntries(Block(block)) == if KeyOf(block[0]).None? || Empty(block) then [] else [block]
  {
    var own := if KeyOf(block[0]).None? || Empty(block) then [] else [Run(block)];
    SinglesListed(block);
    EntriesConcat(Singles(block), own);
    assert SingleItems(own) == [] && RunEntries(own) == if own == [] then [] else [block];
  }

  lemma {:induction false} InventoryStep(items: seq<WalkItem>)
    requires items != []
    ensures var n := BlockLength(items);
            && SingleItems(Inventory(items)) == NonEmpty(items[..n]) + SingleItems(Inventory(items[n..]))
            && RunEntries(Inventory(items)) == RunEntries(Block(items[..n])) + RunEntries(Inventory(items[n..]))
  {
    var n := BlockLength(items);
    BlockListed(items[..n]);
    EntriesConcat(Block(items[..n]), Inventory(items[n..]));
  }

  /** The inventory lists each non-empty item once, in order. */
  lemma {:induction false} InventoryListsItems(items: seq<WalkItem>)
    ensures SingleItems(Inventory(items)) == NonEmpty(items)
    decreases |items|
  {
    if items != [] {
      var n := BlockLength(items);
      InventoryStep(items);
      InventoryListsItems(items[n..]);
      NonEmptyCut(items, n);
    }
  }

  /** The runs it lists are the maximal external ones that hold a non-empty item. */
  lemma {:induction false} InventoryListsRuns(items: seq<WalkItem>)
    ensures RunEntries(Inventory(items)) == Foldable(MaximalRuns(items))
    decreases |items|
  {
    if items != [] {
      var n := BlockLength(items);
      BlockListed(items[..n]);
      InventoryListsRuns(items[n..]);
      InventoryStep(items);
      if KeyOf(items[0]).None? {
        LocalRunIsNotFoldable(items);
      } else {
        assert MaximalRuns(items)[0] == items[..n] && MaximalRuns(items)[1..] == MaximalRuns(items[n..]);
      }
    }
  }

  lemma {:induction false} SkipLocalRun(items: seq<WalkItem>)
    requires items != [] && KeyOf(items[0]).None?
    ensures Foldable(MaximalRuns(items)) == Foldable(MaximalRuns(items[RunOf(items, None)..]))
  {
    var n := RunOf(items, None);
    assert items[..n][0] == items[0];
    assert MaximalRuns(items) == [items[..n]] + MaximalRuns(items[n..]);
    assert MaximalRuns(items)[1..] == MaximalRuns(items[n..]);
  }

  lemma {:induction false} LocalRunIsNotFoldable(items: seq<WalkItem>)
    requires items != [] && KeyOf(items[0]).None?
    ensures Foldable(MaximalRuns(items)) == Foldable(MaximalRuns(items[1..]))
  {
    var n := RunOf(items, None);
    var rest := items[1..];
    SkipLocalRun(items);
    RunOfStep(items, None);
    assert rest[n - 1..] == items[n..];
    if rest != [] && KeyOf(rest[0]).None? {
      SkipLocalRun(rest);
    }
  }

  predicate OneKey(run: seq<WalkItem>) {
    run != [] && forall i | 0 <= i < |run| :: KeyOf(run[i]) == KeyOf(run[0])
  }

  predicate AreMaximal(runs: seq<seq<WalkItem>>) {
    && (forall i | 0 <= i < |runs| :: OneKey(runs[i]))
    && forall i | 0 <= i < |runs| - 1 :: KeyOf(runs[i][0]) != KeyOf(runs[i + 1][0])
  }

  lemma {:induction false} MaximalStep(run: seq<WalkItem>, rest: seq<seq<WalkItem>>)
    requires OneKey(run) && AreMaximal(rest)
    requires rest != [] ==> KeyOf(run[0]) != KeyOf(rest[0][0])
    ensures AreMaximal([run] + rest) && Flatten([run] + rest) == run + Flatten(rest)
  {
    var runs := [run] + rest;
    assert runs[1..] == rest;
    forall i | 0 <= i < |runs| - 1 ensures KeyOf(runs[i][0]) != KeyOf(runs[i + 1][0]) {
      if i > 0 { assert runs[i] == rest[i - 1] && runs[i + 1] == rest[i]; }
    }
  }

  lemma {:induction false} RunsUnfold(items: seq<WalkItem>)
    requires items != []
    ensures var n := RunOf(items, KeyOf(items[0]));
            && 0 < n && MaximalRuns(items) == [items[..n]] + MaximalRuns(items[n..])
            && OneKey(items[..n]) && items[..n][0] == items[0]
            && MaximalRuns(items)[0] != [] && MaximalRuns(items)[0][0] == items[0]
  {
    var n := RunOf(items, KeyOf(items[0]));
    assert items[..n][0] == items[0];
  }

  /** The maximal runs split the list into non-empty blocks of one key, and neighbouring
      blocks have different keys. */
  lemma {:induction false} RunsAreMaximal(items: seq<WalkItem>)
    ensures AreMaximal(MaximalRuns(items)) && Flatten(MaximalRuns(items)) == items
    decreases |items|
  {
    if items != [] {
      var n := RunOf(items, KeyOf(items[0]));
      var rest := MaximalRuns(items[n..]);
      RunsAreMaximal(items[n..]);
      RunsUnfold(items);
      if n < |items| { RunsUnfold(items[n..]); }
      MaximalStep(items[..n], rest);
      TakeDrop(items, n);
    }
  }

  /** No section of a walk is nested more than two deep. */
  function Depth(f: Forest): nat {
    match f
    case Nil => 0
    case Line(_, rest) => Depth(rest)
    case Section(_, _, body, rest) =>
      if 1 + Depth(body) >= Depth(rest) then 1 + Depth(body) else Depth(rest)
  }

  lemma {:induction false} LinesAreFlat(ls: seq<Text>)
    ensures Depth(FromLines(ls)) == 0
  {
    if ls != [] { LinesAreFlat(ls[1..]); }
  }

  lemma {:induction false} ItemsAreOneDeep(items: seq<WalkItem>)
    ensures Depth(ItemSections(items)) <= 1
  {
    if items != [] {
      ItemSectionsStep(items);
      LinesAreFlat(TextLines(items[0].text));
      ItemsAreOneDeep(items[1..]);
    }
  }

  lemma {:induction false} WalkIsTwoDeep(items: seq<WalkItem>)
    ensures Depth(WalkForest(items)) <= 2
    decreases |items|
  {
    if items != [] {
      var n := BlockLength(items);
      WalkForestStep(items);
      LinesAreFlat(TextLines(items[0].text));
      ItemsAreOneDeep(items[..n]);
      WalkIsTwoDeep(items[1..]);
      WalkIsTwoDeep(items[n..]);
    }
  }
}
