/** The walk-driven dumps: items collected one by one, sorted by crate, and written as
    nested sections; and what the browser recovers from them. */
module Walk {
  import opened Lists
  import opened CodeUnits
  import opened Sections
  import opened Grouping
  import opened Wrappers

  datatype WalkItem = WalkItem(kind: Text, name: Text, krate: Option<Text>, span: Text, text: Text)

  // ---- The sort key ----

  /** Rust compares strings by their UTF-8 bytes, which is the order of the code points;
      on UTF-16 that ranks the surrogates above every other unit. */
  function CodePointRank(u: CodeUnit): int {
    if 0xD800 <= u < 0xE000 then u as int + 0x2000
    else if u >= 0xE000 then u as int - 0x800
    else u as int
  }

  predicate TextLeq(a: Text, b: Text) {
    if a == [] then true
    else if b == [] then false
    else if a[0] == b[0] then TextLeq(a[1..], b[1..])
    else CodePointRank(a[0]) < CodePointRank(b[0])
  }

  /** External crates first, by name; local items last. */
  predicate KeyLeq(a: Option<Text>, b: Option<Text>) {
    match (a, b)
    case (_, None) => true
    case (None, Some(_)) => false
    case (Some(x), Some(y)) => TextLeq(x, y)
  }

  lemma {:induction false} TextLeqIsTotalOrder(a: Text, b: Text, c: Text)
    ensures TextLeq(a, a)
    ensures TextLeq(a, b) || TextLeq(b, a)
    ensures TextLeq(a, b) && TextLeq(b, a) ==> a == b
    ensures TextLeq(a, b) && TextLeq(b, c) ==> TextLeq(a, c)
    decreases |a|
  {
    if a != [] {
      var b' := if b == [] then [] else b[1..];
      var c' := if c == [] then [] else c[1..];
      TextLeqIsTotalOrder(a[1..], b', c');
      assert a == [a[0]] + a[1..];
      assert b != [] ==> b == [b[0]] + b[1..];
    }
  }

  lemma {:induction false} KeyLeqIsTotalOrder(a: Option<Text>, b: Option<Text>, c: Option<Text>)
    ensures KeyLeq(a, a)
    ensures KeyLeq(a, b) || KeyLeq(b, a)
    ensures KeyLeq(a, b) && KeyLeq(b, a) ==> a == b
    ensures KeyLeq(a, b) && KeyLeq(b, c) ==> KeyLeq(a, c)
  {
    var x := if a.Some? then a.value else [];
    var y := if b.Some? then b.value else [];
    var z := if c.Some? then c.value else [];
    TextLeqIsTotalOrder(x, y, z);
  }

  // ---- The stable sort ----

  predicate Sorted(items: seq<WalkItem>) {
    forall i, j | 0 <= i < j < |items| :: KeyLeq(items[i].krate, items[j].krate)
  }

  /** The items of one crate, in the order of the list. */
  function OfCrate(items: seq<WalkItem>, krate: Option<Text>): seq<WalkItem> {
    if items == [] then []
    else (if items[0].krate == krate then [items[0]] else []) + OfCrate(items[1..], krate)
  }

  function Insert(x: WalkItem, items: seq<WalkItem>): seq<WalkItem> {
    if items == [] || KeyLeq(x.krate, items[0].krate) then [x] + items
    else [items[0]] + Insert(x, items[1..])
  }

  /** Rust's `sort_by` on the crate key. */
  function StableSort(items: seq<WalkItem>): seq<WalkItem> {
    if items == [] then [] else Insert(items[0], StableSort(items[1..]))
  }

  lemma {:induction false} InsertSorts(x: WalkItem, items: seq<WalkItem>)
    requires Sorted(items)
    ensures Sorted(Insert(x, items))
    ensures forall y | y in Insert(x, items) :: y == x || y in items
  {
    if items == [] {
    } else if KeyLeq(x.krate, items[0].krate) {
      forall j | 0 <= j < |items| ensures KeyLeq(x.krate, items[j].krate) {
        KeyLeqIsTotalOrder(x.krate, items[0].krate, items[j].krate);
        KeyLeqIsTotalOrder(items[0].krate, items[0].krate, items[0].krate);
      }
    } else {
      InsertSorts(x, items[1..]);
      KeyLeqIsTotalOrder(x.krate, items[0].krate, x.krate);
      var tail := Insert(x, items[1..]);
      forall j | 0 <= j < |tail| ensures KeyLeq(items[0].krate, tail[j].krate) {
        assert tail[j] in tail;
        if tail[j] != x {
          var k :| 0 <= k < |items[1..]| && items[1..][k] == tail[j];
          assert items[k + 1] == tail[j];
        }
      }
    }
  }

  lemma {:induction false} InsertIsStable(x: WalkItem, items: seq<WalkItem>, krate: Option<Text>)
    ensures OfCrate(Insert(x, items), krate) == OfCrate([x] + items, krate)
  {
    assert ([x] + items)[1..] == items;
    if items != [] && !KeyLeq(x.krate, items[0].krate) {
      InsertIsStable(x, items[1..], krate);
      assert Insert(x, items)[1..] == Insert(x, items[1..]);
      assert ([x] + items[1..])[1..] == items[1..];
      KeyLeqIsTotalOrder(x.krate, x.krate, x.krate);
    }
  }

  /** External crates come first in name order, locals last, and within a crate the walk
      order is kept. */
  lemma {:induction false} SortIsSortedAndStable(items: seq<WalkItem>)
    ensures Sorted(StableSort(items))
    ensures forall k :: OfCrate(StableSort(items), k) == OfCrate(items, k)
  {
    if items != [] {
      SortIsSortedAndStable(items[1..]);
      InsertSorts(items[0], StableSort(items[1..]));
      forall k ensures OfCrate(StableSort(items), k) == OfCrate(items, k) {
        InsertIsStable(items[0], StableSort(items[1..]), k);
        assert ([items[0]] + StableSort(items[1..]))[1..] == StableSort(items[1..]);
      }
    }
  }

  lemma {:induction false} OfCrateMember(items: seq<WalkItem>, i: nat)
    requires i < |items|
    ensures OfCrate(items, items[i].krate) != []
  {
    if i > 0 {
      OfCrateMember(items[1..], i - 1);
    }
  }

  lemma {:induction false} OfCrateFinds(items: seq<WalkItem>, krate: Option<Text>) returns (i: nat)
    requires OfCrate(items, krate) != []
    ensures i < |items| && items[i].krate == krate
  {
    if items[0].krate == krate {
      i := 0;
    } else {
      i := OfCrateFinds(items[1..], krate);
      i := i + 1;
    }
  }

  lemma {:induction false} SmallestFirst(s: seq<WalkItem>, t: seq<WalkItem>)
    requires Sorted(s) && s != [] && t != []
    requires forall k :: OfCrate(s, k) == OfCrate(t, k)
    ensures KeyLeq(s[0].krate, t[0].krate)
  {
    OfCrateMember(t, 0);
    var i := OfCrateFinds(s, t[0].krate);
    KeyLeqIsTotalOrder(s[0].krate, s[0].krate, s[0].krate);
  }

  /** Sortedness and stability leave one result only, whatever the sorting algorithm. */
  lemma {:induction false} SortedAndStableIsUnique(s: seq<WalkItem>, t: seq<WalkItem>)
    requires Sorted(s) && Sorted(t)
    requires forall k :: OfCrate(s, k) == OfCrate(t, k)
    ensures s == t
    decreases |s|
  {
    if s == [] {
      if t != [] { OfCrateMember(t, 0); }
    } else if t == [] {
      OfCrateMember(s, 0);
    } else {
      SmallestFirst(s, t);
      SmallestFirst(t, s);
      KeyLeqIsTotalOrder(s[0].krate, t[0].krate, s[0].krate);
      assert OfCrate(s, s[0].krate)[0] == s[0] && OfCrate(t, s[0].krate)[0] == t[0];
      forall k ensures OfCrate(s[1..], k) == OfCrate(t[1..], k) {
        assert OfCrate(s, k) == OfCrate(t, k);
        var own := if s[0].krate == k then [s[0]] else [];
        assert OfCrate(s, k)[|own|..] == OfCrate(s[1..], k);
        assert OfCrate(t, k)[|own|..] == OfCrate(t[1..], k);
      }
      SortedAndStableIsUnique(s[1..], t[1..]);
      assert s == [s[0]] + s[1..] && t == [t[0]] + t[1..];
    }
  }

  /** Names that differ are ordered by their first difference, by code point: a surrogate
      stands for a larger one than any single unit does; a prefix comes first. */
  lemma {:induction false} OrderIsByCodePoint(p: Text, u: CodeUnit, x: Text, v: CodeUnit, y: Text)
    requires u != v
    ensures var surrogate, surrogate' := 0xD800 <= u < 0xE000, 0xD800 <= v < 0xE000;
            TextLeq(p + [u] + x, p + [v] + y) <==> if surrogate == surrogate' then u < v else surrogate'
    ensures TextLeq(p, p + [u] + x) && !TextLeq(p + [u] + x, p)
  {
    var a, b := p + [u] + x, p + [v] + y;
    if p != [] {
      OrderIsByCodePoint(p[1..], u, x, v, y);
      assert a[1..] == p[1..] + [u] + x && b[1..] == p[1..] + [v] + y;
    } else {
      assert a[0] == u && b[0] == v;
    }
  }

  /** Every external item comes before every local one, and externals are in name order. */
  lemma {:induction false} SortedByCrate(items: seq<WalkItem>, i: nat, j: nat)
    requires i < j < |StableSort(items)|
    ensures var a, b := StableSort(items)[i].krate, StableSort(items)[j].krate;
            && (a.None? ==> b.None?)
            && (a.Some? && b.Some? ==> TextLeq(a.value, b.value))
  {
    SortIsSortedAndStable(items);
  }

  // ---- What is written ----

  function Banner(item: WalkItem): Text {
    [SEMICOLON, SEMICOLON, if item.krate.Some? then GREATER else LETTER_V, SPACE] + item.kind + [SPACE] + item.name
    + if item.span == [] then [] else [SPACE] + item.span
  }

  function RunBanner(kind: Text, krate: Text): Text {
    [SEMICOLON, SEMICOLON, GREATER, SPACE] + kind + [SPACE] + krate
  }

  /** The lines of an item's text; a text that does not end its last line has it ended. */
  function TextLines(text: Text): seq<Text> {
    if text == [] then []
    else if text[|text| - 1] == NEWLINE then Split(text[..|text| - 1])
    else Split(text)
  }

  lemma {:induction false} TextLinesTerminated(text: Text)
    ensures Terminate(TextLines(text)) == text + if text == [] || text[|text| - 1] == NEWLINE then [] else [NEWLINE]
  {
    if text != [] {
      TerminateIsJoin(TextLines(text));
      if text[|text| - 1] == NEWLINE {
        JoinSplit(text[..|text| - 1]);
        assert text == text[..|text| - 1] + [NEWLINE];
      } else {
        JoinSplit(text);
      }
    }
  }

  /** The run an item belongs to: crate and kind, for external items only. */
  type RunKey = Option<(Text, Text)>

  function KeyOf(item: WalkItem): RunKey {
    if item.krate.Some? then Some((item.krate.value, item.kind)) else None
  }

  /** Two items are in one run iff they are of one external crate and of one kind. */
  lemma {:induction false} KeysAreSpelled(a: WalkItem, b: WalkItem)
    ensures KeyOf(a).Some? <==> a.krate.Some?
    ensures a.krate.Some? ==> (KeyOf(a) == KeyOf(b) <==> a.krate == b.krate && a.kind == b.kind)
  {
  }

  lemma {:induction false} BannersAreSpelled(item: WalkItem)
    ensures Banner(item) == (if item.krate.Some? then Ascii(";;> ") else Ascii(";;v ")) + item.kind + Ascii(" ") + item.name
                            + if item.span == [] then [] else Ascii(" ") + item.span
    ensures item.krate.Some? ==>
              PieceOf(item).wrapper == Ascii(";;> ") + item.kind + Ascii(" ") + item.krate.value
  {
    UnitsAreSpelled();
    assert Ascii(";;> ") == [SEMICOLON, SEMICOLON, GREATER, SPACE] && Ascii(";;v ") == [SEMICOLON, SEMICOLON, LETTER_V, SPACE];
  }

  function PieceOf(item: WalkItem): Piece<(Text, Text)> {
    Piece(KeyOf(item), if item.krate.Some? then RunBanner(item.kind, item.krate.value) else [],
          Banner(item), FromLines(TextLines(item.text)))
  }

  function Pieces(items: seq<WalkItem>): (ps: seq<Piece<(Text, Text)>>)
    ensures |ps| == |items| && forall i | 0 <= i < |ps| :: ps[i] == PieceOf(items[i])
  {
    seq(|items|, i requires 0 <= i < |items| => PieceOf(items[i]))
  }

  /** Each maximal run of external items of one crate and kind is one section around its
      items; local items stand on their own. */
  function WalkForest(items: seq<WalkItem>): Forest {
    Grouped(Pieces(items))
  }

  class WalkBuilder {
    var items: seq<WalkItem>

    constructor ()
      ensures items == []
    {
      items := [];
    }

    method AddItem(kind: Text, name: Text, krate: Option<Text>, span: Text, text: Text)
      modifies this
      ensures items == old(items) + [WalkItem(kind, name, krate, span, text)]
    {
      items := items + [WalkItem(kind, name, krate, span, text)];
    }

    /** The part of the loop body that writes one item's own section. */
    static method PushItem(written: Text, item: WalkItem) returns (body: Text)
      ensures body == written + Terminate(PieceLines(PieceOf(item)))
    {
      body := written + Banner(item) + [NEWLINE];
      body := body + item.text;
      if body[|body| - 1] != NEWLINE {
        body := body + [NEWLINE];
      }
      WrittenItem(written, item, body);
      body := body + CLOSE + [NEWLINE];
    }

    /** Sorts the items in place, then writes them in one pass that remembers only the
        run that is open. */
    method Finish() returns (body: Text)
      modifies this
      ensures items == StableSort(old(items))
      ensures body == Terminate(Marked(WalkForest(StableSort(old(items)))))
    {
      items := StableSort(items);
      body := [];
      var externalRun: RunKey := None;
      ghost var ps := Pieces(items);
      ghost var all := Terminate(LoopLines(ps, None));
      assert ps[0..] == ps;
      for i := 0 to |items|
        invariant items == StableSort(old(items))
        invariant body + Terminate(LoopLines(ps[i..], externalRun)) == all
      {
        var item := items[i];
        ghost var before, run := body, externalRun;
        var newRun := KeyOf(item);
        if externalRun != newRun {
          if externalRun.Some? {
            body := body + CLOSE + [NEWLINE];
          }
          if newRun.Some? {
            body := body + RunBanner(item.kind, newRun.value.0) + [NEWLINE];
          }
          externalRun := newRun;
        }
        WrittenChange(before, run, newRun, ps[i].wrapper, body);
        body := PushItem(body, item);
        LoopStep(ps, i, run, before, all);
      }
      ghost var before := body;
      assert ps[|items|..] == [];
      if externalRun.Some? {
        body := body + CLOSE + [NEWLINE];
      }
      WrittenChange(before, externalRun, None, [], body);
      LoopWritesGroups(ps);
    }
  }

  lemma {:induction false} WrittenChange(before: Text, run: RunKey, next: RunKey, wrapper: Text, after: Text)
    requires var closed := if run != next && run.Some? then before + CLOSE + [NEWLINE] else before;
             after == if run != next && next.Some? then closed + wrapper + [NEWLINE] else closed
    ensures after == before + Terminate(ChangeRun(run, next, wrapper))
  {
    assert Terminate([CLOSE]) == CLOSE + [NEWLINE];
    assert Terminate([wrapper]) == wrapper + [NEWLINE];
    TerminateConcat([CLOSE], [wrapper]);
  }

  lemma {:induction false} TerminatedItem(item: WalkItem)
    ensures Terminate(PieceLines(PieceOf(item)))
            == Banner(item) + [NEWLINE] + Terminate(TextLines(item.text)) + (CLOSE + [NEWLINE])
  {
    MarkedFromLines(TextLines(item.text));
    TerminateConcat([Banner(item)] + TextLines(item.text), [CLOSE]);
    TerminateConcat([Banner(item)], TextLines(item.text));
    assert Terminate([CLOSE]) == CLOSE + [NEWLINE] && Terminate([Banner(item)]) == Banner(item) + [NEWLINE];
  }

  /** A text behind a line end, with its own last line ended. */
  lemma {:induction false} WrittenText(before: Text, text: Text, after: Text)
    requires before != [] && before[|before| - 1] == NEWLINE
    requires var both := before + text; after == if both[|both| - 1] != NEWLINE then both + [NEWLINE] else both
    ensures after == before + Terminate(TextLines(text))
  {
    TextLinesTerminated(text);
    var both := before + text;
    if text == [] {
      assert both == before && before + [] == before;
    } else {
      assert both[|both| - 1] == text[|text| - 1];
      Assoc(before, text, [NEWLINE]);
      assert text + [] == text;
    }
  }

  lemma {:induction false} SixParts(a: Text, b: Text, c: Text, d: Text, e: Text, f: Text)
    ensures a + b + c + d + e + f == a + (b + c + d + (e + f))
  {
    Assoc(a + b + c + d, e, f);
    Assoc(a, b, c);
    Assoc(a, b + c, d);
    Assoc(a, b + c + d, e + f);
  }

  lemma {:induction false} WrittenItem(before: Text, item: WalkItem, after: Text)
    requires var withText := before + Banner(item) + [NEWLINE] + item.text;
             after == if withText[|withText| - 1] != NEWLINE then withText + [NEWLINE] else withText
    ensures after + CLOSE + [NEWLINE] == before + Terminate(PieceLines(PieceOf(item)))
  {
    TerminatedItem(item);
    WrittenText(before + Banner(item) + [NEWLINE], item.text, after);
    SixParts(before, Banner(item), [NEWLINE], Terminate(TextLines(item.text)), CLOSE, [NEWLINE]);
  }

  /** One turn of the loop: what was written and what is still to come add up to the same. */
  lemma {:induction false} LoopStep(ps: seq<Piece<(Text, Text)>>, i: nat, run: RunKey, before: Text, all: Text)
    requires i < |ps| && before + Terminate(LoopLines(ps[i..], run)) == all
    ensures before + Terminate(ChangeRun(run, ps[i].key, ps[i].wrapper)) + Terminate(PieceLines(ps[i]))
            + Terminate(LoopLines(ps[i + 1..], ps[i].key)) == all
  {
    var change, lines := ChangeRun(run, ps[i].key, ps[i].wrapper), PieceLines(ps[i]);
    var rest := LoopLines(ps[i + 1..], ps[i].key);
    LoopNext(ps, i, run);
    TerminateConcat(change + lines, rest);
    TerminateConcat(change, lines);
    Assoc(Terminate(change), Terminate(lines), Terminate(rest));
    Assoc4(before, Terminate(change), Terminate(lines), Terminate(rest));
  }
}
