/** What the editor makes of a text that is mounted in it, and where positions of the text
    end up. */
module Editor {
  import opened Lists
  import opened CodeUnits
  import opened Sections
  import opened ScannerLaws

  /** The editor keeps lines, and gives them back with single newlines between. */
  function Normal(s: Text): Text {
    if s == [] then []
    else if s[0] != RETURN then [s[0]] + Normal(s[1..])
    else [NEWLINE] + Normal(if |s| > 1 && s[1] == NEWLINE then s[2..] else s[1..])
  }

  lemma {:induction false} NormalIsNormal(s: Text)
    ensures RETURN !in Normal(s) && Normal(Normal(s)) == Normal(s) && (Normal(s) == [] <==> s == [])
    decreases |s|
  {
    if s != [] {
      var rest := if s[0] != RETURN then s[1..] else if |s| > 1 && s[1] == NEWLINE then s[2..] else s[1..];
      NormalIsNormal(rest);
      assert Normal(s)[1..] == Normal(rest);
    }
  }

  lemma {:induction false} PlainIsNormal(s: Text)
    requires RETURN !in s
    ensures Normal(s) == s
  {
    if s != [] { PlainIsNormal(s[1..]); }
  }

  /** The text is mounted as it is exactly if it has no carriage return. */
  lemma {:induction false} MountedUnchanged(s: Text)
    ensures Normal(s) == s <==> RETURN !in s
  {
    NormalIsNormal(s);
    if RETURN !in s { PlainIsNormal(s); }
  }

  // ---- Positions ----

  /** The line ends of two units, each of which the editor makes one. */
  function Pairs(s: Text): nat {
    if |s| < 2 then 0
    else (if s[0] == RETURN && s[1] == NEWLINE then 1 else 0) + Pairs(s[1..])
  }

  lemma {:induction false} NormalLength(s: Text)
    ensures |Normal(s)| == |s| - Pairs(s)
    decreases |s|
  {
    if s != [] {
      NormalLength(s[1..]);
      if s[0] == RETURN && |s| > 1 && s[1] == NEWLINE {
        NormalLength(s[2..]);
        assert s[1..][1..] == s[2..];
      }
    }
  }

  /** How many units the first line end or other character of a text takes. */
  function First(s: Text): (n: nat)
    requires s != []
    ensures 1 <= n <= |s|
  {
    if s[0] == RETURN && |s| > 1 && s[1] == NEWLINE then 2 else 1
  }

  lemma {:induction false} NormalFirst(s: Text)
    requires s != []
    ensures Normal(s) == [if s[0] == RETURN then NEWLINE else s[0]] + Normal(s[First(s)..])
  {
  }

  lemma {:induction false} FirstOfBoth(a: Text, b: Text)
    requires a != [] && a[|a| - 1] == NEWLINE
    ensures First(a + b) == First(a) && (a + b)[0] == a[0] && (a + b)[First(a)..] == a[First(a)..] + b
    ensures a[First(a)..] != [] ==> a[First(a)..][|a[First(a)..]| - 1] == NEWLINE
  {
  }

  /** A text that is cut behind a newline is mounted part by part. */
  lemma {:induction false} NormalAtNewline(a: Text, b: Text)
    requires a != [] && a[|a| - 1] == NEWLINE
    ensures Normal(a + b) == Normal(a) + Normal(b)
    ensures Normal(a) != [] && Normal(a)[|Normal(a)| - 1] == NEWLINE
    decreases |a|
  {
    var rest := a[First(a)..];
    var shown := [if a[0] == RETURN then NEWLINE else a[0]];
    FirstOfBoth(a, b);
    NormalFirst(a);
    NormalFirst(a + b);
    if rest == [] {
      assert rest + b == b && Normal(rest) == [] && shown + [] == shown;
    } else {
      NormalAtNewline(rest, b);
      Assoc(shown, Normal(rest), Normal(b));
      assert (shown + Normal(rest))[|Normal(rest)|] == Normal(rest)[|Normal(rest)| - 1];
    }
  }

  /** The newline at position `p` of a text is mounted at this position. */
  function MountedAt(s: Text, p: nat): int
    requires p < |s|
  {
    p - Pairs(s[..p + 1])
  }

  lemma {:induction false} NewlineIsMounted(s: Text, p: nat)
    requires p < |s| && s[p] == NEWLINE
    ensures 0 <= MountedAt(s, p) < |Normal(s)| && Normal(s)[MountedAt(s, p)] == NEWLINE
    ensures Normal(s)[..MountedAt(s, p) + 1] == Normal(s[..p + 1])
  {
    var a, b := s[..p + 1], s[p + 1..];
    TakeDrop(s, p + 1);
    NormalAtNewline(a, b);
    NormalLength(a);
    assert Normal(s)[..|Normal(a)|] == Normal(a);
  }

  /** Each range starts at the newline behind its banner. In the editor that newline is where
      the range says exactly if no `\r\n` comes before its end; if not, the fold lookup by
      line end looks for it elsewhere. */
  lemma {:induction false} RangesInEditor(body: Text, r: Range)
    requires r in Meaning(ParseAll(Split(body))).foldable
    ensures var shown := Meaning(ParseAll(Split(body))).body;
            && r.from < |shown| && shown[r.from] == NEWLINE
            && 0 <= MountedAt(shown, r.from) < |Normal(shown)| && Normal(shown)[MountedAt(shown, r.from)] == NEWLINE
            && (MountedAt(shown, r.from) == r.from <==> Pairs(shown[..r.from + 1]) == 0)
            && (RETURN !in shown ==> Normal(shown) == shown)
  {
    var view := Meaning(ParseAll(Split(body)));
    RangesStayValid(body);
    assert ValidRange(view.body, r);
    NewlineIsMounted(view.body, r.from);
    MountedUnchanged(view.body);
  }

  // ---- Spelled out ----

  /** Each `\r\n` and each other `\r` becomes one newline, and nothing else changes. */
  lemma {:induction false} NormalIsSpelled(a: Text, b: Text)
    requires RETURN !in a
    ensures Normal(a) == a
    ensures Normal(a + Ascii("\r\n") + b) == a + Ascii("\n") + Normal(b)
    ensures b == [] || b[0] != NEWLINE ==> Normal(a + Ascii("\r") + b) == a + Ascii("\n") + Normal(b)
  {
    PlainIsNormal(a);
    UnitsAreSpelled();
    assert Ascii("\r\n") == [RETURN, NEWLINE];
    if a == [] {
      assert ([RETURN, NEWLINE] + b)[2..] == b && ([RETURN] + b)[1..] == b;
      assert a + [RETURN, NEWLINE] + b == [RETURN, NEWLINE] + b && a + [RETURN] + b == [RETURN] + b;
    } else {
      NormalIsSpelled(a[1..], b);
      assert (a + [RETURN, NEWLINE] + b)[1..] == a[1..] + [RETURN, NEWLINE] + b;
      assert (a + [RETURN] + b)[1..] == a[1..] + [RETURN] + b;
      assert a == [a[0]] + a[1..];
    }
  }
}
