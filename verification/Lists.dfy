module Lists {
  lemma {:induction false} Assoc<T>(a: seq<T>, b: seq<T>, c: seq<T>)
    ensures a + (b + c) == a + b + c
  {
  }

  lemma {:induction false} Assoc4<T>(a: seq<T>, b: seq<T>, c: seq<T>, d: seq<T>)
    ensures a + (b + (c + d)) == a + b + c + d
  {
    Assoc(b, c, d);
    Assoc(a, b + c, d);
    Assoc(a, b, c);
  }

  lemma {:induction false} TakeDrop<T>(s: seq<T>, n: nat)
    requires n <= |s|
    ensures s[..n] + s[n..] == s
  {
  }

  lemma {:induction false} TakeNext<T>(s: seq<T>, n: nat)
    requires n < |s|
    ensures s[..n + 1] == s[..n] + [s[n]]
  {
  }

  lemma {:induction false} TakeAll<T>(s: seq<T>)
    ensures s[..0] == [] && s[..|s|] == s
  {
  }

  function Flatten<T>(blocks: seq<seq<T>>): seq<T> {
    if blocks == [] then [] else blocks[0] + Flatten(blocks[1..])
  }

  lemma {:induction false} FlattenLast<T>(blocks: seq<seq<T>>, last: seq<T>)
    ensures Flatten(blocks + [last]) == Flatten(blocks) + last
  {
    if blocks == [] {
      assert (blocks + [last])[1..] == [] && last + [] == last;
    } else {
      FlattenLast(blocks[1..], last);
      assert (blocks + [last])[1..] == blocks[1..] + [last];
      Assoc(blocks[0], Flatten(blocks[1..]), last);
    }
  }

  lemma {:induction false} FlattenConcat<T>(a: seq<seq<T>>, b: seq<seq<T>>)
    ensures Flatten(a + b) == Flatten(a) + Flatten(b)
  {
    if a == [] {
      assert a + b == b;
    } else {
      FlattenConcat(a[1..], b);
      assert (a + b)[1..] == a[1..] + b;
      Assoc(a[0], Flatten(a[1..]), Flatten(b));
    }
  }

  predicate Increasing(ns: seq<nat>) {
    forall i, j | 0 <= i < j < |ns| :: ns[i] < ns[j]
  }
}
