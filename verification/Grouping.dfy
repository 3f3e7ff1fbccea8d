/** Two Rust loops write a list of sections and open an outer section around each maximal
    run of neighbours with one key, remembering only the key that is open: the walk dumps
    (one run per crate and kind) and the query log (one run per crate). */
module Grouping {
  import opened Lists
  import opened CodeUnits
  import opened Sections
  import opened Wrappers

  /** One inner section; `key` is its run, if it belongs to one, and `wrapper` the banner
      that opens such a run. */
  datatype Piece<K> = Piece(key: Option<K>, wrapper: Text, banner: Text, body: Forest)

  /** How many pieces from the front have the key. */
  function RunLength<K(==)>(ps: seq<Piece<K>>, key: Option<K>): (n: nat)
    ensures n <= |ps|
    ensures forall i | 0 <= i < n :: ps[i].key == key
    ensures n < |ps| ==> ps[n].key != key
  {
    if ps == [] || ps[0].key != key then 0 else 1 + RunLength(ps[1..], key)
  }

  function PieceSections<K>(ps: seq<Piece<K>>): Forest {
    if ps == [] then Nil else Section(ps[0].banner, true, ps[0].body, PieceSections(ps[1..]))
  }

  /** The reference: each maximal run is one section around its pieces, and a piece without
      a key stands on its own. */
  function Grouped<K(==)>(ps: seq<Piece<K>>): Forest
    decreases |ps|
  {
    if ps == [] then Nil
    else if ps[0].key.None? then Section(ps[0].banner, true, ps[0].body, Grouped(ps[1..]))
    else
      var n := RunLength(ps, ps[0].key);
      Section(ps[0].wrapper, true, PieceSections(ps[..n]), Grouped(ps[n..]))
  }

  function PieceLines<K>(p: Piece<K>): seq<Text> {
    [p.banner] + Marked(p.body) + [CLOSE]
  }

  /** What is written between two pieces when the key changes. */
  function ChangeRun<K(==)>(run: Option<K>, next: Option<K>, wrapper: Text): seq<Text> {
    if run == next then []
    else (if run.Some? then [CLOSE] else []) + if next.Some? then [wrapper] else []
  }

  /** What a loop still writes when `run` is open and `ps` remain. */
  function LoopLines<K(==)>(ps: seq<Piece<K>>, run: Option<K>): seq<Text> {
    if ps == [] then ChangeRun(run, None, [])
    else ChangeRun(run, ps[0].key, ps[0].wrapper) + PieceLines(ps[0]) + LoopLines(ps[1..], ps[0].key)
  }

  lemma {:induction false} LoopClosesRun<K>(ps: seq<Piece<K>>, run: Option<K>)
    requires run.Some? && RunLength(ps, run) == 0
    ensures LoopLines(ps, run) == [CLOSE] + LoopLines(ps, None)
  {
    if ps != [] {
      var open, lines := ChangeRun(None, ps[0].key, ps[0].wrapper), PieceLines(ps[0]);
      var after := LoopLines(ps[1..], ps[0].key);
      assert ChangeRun(run, ps[0].key, ps[0].wrapper) == [CLOSE] + open;
      Assoc(open, lines, after);
      Assoc4([CLOSE], open, lines, after);
    }
  }

  /** An open run lasts as long as its key does; then it is closed. */
  lemma {:induction false} LoopFinishesRun<K>(ps: seq<Piece<K>>, run: Option<K>)
    requires run.Some?
    ensures var n := RunLength(ps, run);
            LoopLines(ps, run) == Marked(PieceSections(ps[..n])) + ([CLOSE] + LoopLines(ps[n..], None))
  {
    var n := RunLength(ps, run);
    if n == 0 {
      assert ps[..n] == [] && ps[n..] == ps;
      LoopClosesRun(ps, run);
    } else {
      var rest := ps[1..];
      var m := RunLength(rest, run);
      LoopFinishesRun(rest, run);
      assert ps[n..] == rest[m..];
      assert ps[..n][0] == ps[0] && ps[..n][1..] == rest[..m];
      var lines := PieceLines(ps[0]);
      assert LoopLines(ps, run) == [] + lines + LoopLines(rest, run);
      assert [] + lines == lines;
      Assoc(lines, Marked(PieceSections(rest[..m])), [CLOSE] + LoopLines(ps[n..], None));
    }
  }

  lemma {:induction false} LoopOpensRun<K>(ps: seq<Piece<K>>)
    requires ps != [] && ps[0].key.Some?
    ensures LoopLines(ps, None) == [ps[0].wrapper] + LoopLines(ps, ps[0].key)
  {
    var run := ps[0].key;
    var lines, after := PieceLines(ps[0]), LoopLines(ps[1..], run);
    assert ChangeRun(None, run, ps[0].wrapper) == [ps[0].wrapper];
    assert LoopLines(ps, None) == [ps[0].wrapper] + lines + after;
    assert LoopLines(ps, run) == [] + lines + after;
    assert [] + lines == lines;
    Assoc([ps[0].wrapper], lines, after);
  }

  /** The loop writes the reference forest. */
  lemma {:induction false} LoopWritesGroups<K>(ps: seq<Piece<K>>)
    ensures LoopLines(ps, None) == Marked(Grouped(ps))
    decreases |ps|
  {
    if ps != [] {
      if ps[0].key.None? {
        LoopWritesGroups(ps[1..]);
      } else {
        var n := RunLength(ps, ps[0].key);
        LoopFinishesRun(ps, ps[0].key);
        LoopWritesGroups(ps[n..]);
        LoopOpensRun(ps);
        Assoc4([ps[0].wrapper], Marked(PieceSections(ps[..n])), [CLOSE], LoopLines(ps[n..], None));
      }
    }
  }

  lemma {:induction false} LoopNext<K>(ps: seq<Piece<K>>, i: nat, run: Option<K>)
    requires i < |ps|
    ensures LoopLines(ps[i..], run)
            == ChangeRun(run, ps[i].key, ps[i].wrapper) + PieceLines(ps[i]) + LoopLines(ps[i + 1..], ps[i].key)
  {
    assert ps[i..][1..] == ps[i + 1..];
  }

  // ---- The shape of the result ----

  function BlockLength<K(==)>(ps: seq<Piece<K>>): (n: nat)
    requires ps != []
    ensures 0 < n <= |ps|
  {
    if ps[0].key.None? then 1 else RunLength(ps, ps[0].key)
  }

  /** The pieces cut into maximal runs of one key and single pieces without a key. */
  function Blocks<K(==)>(ps: seq<Piece<K>>): seq<seq<Piece<K>>>
    decreases |ps|
  {
    if ps == [] then [] else [ps[..BlockLength(ps)]] + Blocks(ps[BlockLength(ps)..])
  }

  /** A single piece without a key, or pieces of one key. */
  predicate IsBlock<K(==)>(block: seq<Piece<K>>) {
    && block != []
    && if block[0].key.None? then |block| == 1 else forall i | 0 <= i < |block| :: block[i].key == block[0].key
  }

  predicate AreBlocks<K(==)>(blocks: seq<seq<Piece<K>>>) {
    && (forall i | 0 <= i < |blocks| :: IsBlock(blocks[i]))
    && forall i | 0 < i < |blocks| :: blocks[i][0].key.Some? ==> blocks[i][0].key != blocks[i - 1][0].key
  }

  /** A piece without a key is a section at the top; the pieces of a run are sections
      inside one section with the run's banner. */
  function BlockForest<K>(blocks: seq<seq<Piece<K>>>): Forest
    requires forall i | 0 <= i < |blocks| :: blocks[i] != []
  {
    if blocks == [] then Nil
    else
      var first, rest := blocks[0], BlockForest(blocks[1..]);
      if first[0].key.None? then Section(first[0].banner, true, first[0].body, rest)
      else Section(first[0].wrapper, true, PieceSections(first), rest)
  }

  lemma {:induction false} BlocksStep<K>(block: seq<Piece<K>>, rest: seq<seq<Piece<K>>>)
    requires IsBlock(block) && AreBlocks(rest)
    requires rest != [] && rest[0][0].key.Some? ==> rest[0][0].key != block[0].key
    ensures AreBlocks([block] + rest) && Flatten([block] + rest) == block + Flatten(rest)
  {
    var blocks := [block] + rest;
    assert blocks[1..] == rest;
    forall i | 0 < i < |blocks| ensures blocks[i][0].key.Some? ==> blocks[i][0].key != blocks[i - 1][0].key {
      assert blocks[i] == rest[i - 1];
      if i > 1 { assert blocks[i - 1] == rest[i - 2]; }
    }
  }

  lemma {:induction false} BlocksUnfold<K>(ps: seq<Piece<K>>)
    requires ps != []
    ensures var n := BlockLength(ps);
            && Blocks(ps) == [ps[..n]] + Blocks(ps[n..])
            && IsBlock(ps[..n]) && ps[..n][0] == ps[0]
            && Blocks(ps)[0] != [] && Blocks(ps)[0][0] == ps[0]
  {
    var n := BlockLength(ps);
    assert ps[..n][0] == ps[0];
  }

  /** The reference forest has one wrapper per maximal run, and neighbouring wrappers
      belong to different keys. */
  lemma {:induction false} GroupedIsBlocks<K>(ps: seq<Piece<K>>)
    ensures var blocks := Blocks(ps);
            AreBlocks(blocks) && Flatten(blocks) == ps && Grouped(ps) == BlockForest(blocks)
    decreases |ps|
  {
    if ps != [] {
      var n := BlockLength(ps);
      var rest := Blocks(ps[n..]);
      GroupedIsBlocks(ps[n..]);
      BlocksUnfold(ps);
      if n < |ps| { BlocksUnfold(ps[n..]); }
      TakeDrop(ps, n);
      BlocksStep(ps[..n], rest);
      assert ([ps[..n]] + rest)[1..] == rest;
    }
  }
}
