/** The URL-safe base64 codec of the page (RFC 4648, sections 4 and 5), on top of the
    browser's `btoa` and `atob`. */
module Base64 {
  import opened Wrappers

  newtype Byte = b: int | 0 <= b < 0x100

  // ---- The standard alphabet ----

  type Sextet = n: int | 0 <= n < 64

  function ToChar(n: Sextet): char {
    if n < 26 then (n + 'A' as int) as char
    else if n < 52 then (n - 26 + 'a' as int) as char
    else if n < 62 then (n - 52 + '0' as int) as char
    else if n == 62 then '+'
    else '/'
  }

  function FromChar(c: char): Option<Sextet> {
    if 'A' <= c <= 'Z' then Some(c as int - 'A' as int)
    else if 'a' <= c <= 'z' then Some(c as int - 'a' as int + 26)
    else if '0' <= c <= '9' then Some(c as int - '0' as int + 52)
    else if c == '+' then Some(62)
    else if c == '/' then Some(63)
    else None
  }

  lemma {:induction false} CharRoundTrip(n: Sextet)
    ensures FromChar(ToChar(n)) == Some(n)
    ensures ToChar(n) !in {'=', '-', '_', '&', ' ', '\t', '\n', '\r', 12 as char}
  {
  }

  // ---- btoa and atob ----

  function Sextets(bytes: seq<Byte>): seq<Sextet> {
    if |bytes| == 0 then []
    else
      var b0: int := bytes[0] as int;
      if |bytes| == 1 then [b0 / 4, b0 % 4 * 16]
      else
        var b1 := bytes[1] as int;
        if |bytes| == 2 then [b0 / 4, b0 % 4 * 16 + b1 / 16, b1 % 16 * 4]
        else
          var b2 := bytes[2] as int;
          [b0 / 4, b0 % 4 * 16 + b1 / 16, b1 % 16 * 4 + b2 / 64, b2 % 64] + Sextets(bytes[3..])
  }

  function Bytes(ns: seq<Sextet>): seq<Byte> {
    if |ns| < 2 then []
    else
      var (n0: int, n1: int) := (ns[0], ns[1]);
      var first := (n0 * 4 + n1 / 16) as Byte;
      if |ns| == 2 then [first]
      else
        var n2: int := ns[2];
        var second := (n1 % 16 * 16 + n2 / 4) as Byte;
        if |ns| == 3 then [first, second]
        else
          var n3: int := ns[3];
          [first, second, (n2 % 4 * 64 + n3) as Byte] + Bytes(ns[4..])
  }

  function Encode(ns: seq<Sextet>): (s: string)
    ensures |s| == |ns| && forall i | 0 <= i < |ns| :: s[i] == ToChar(ns[i])
  {
    seq(|ns|, i requires 0 <= i < |ns| => ToChar(ns[i]))
  }

  function Repeat(c: char, n: nat): (s: string)
    ensures |s| == n && forall i | 0 <= i < n :: s[i] == c
  {
    seq(n, _ => c)
  }

  function Padding(length: nat): nat {
    (4 - length % 4) % 4
  }

  /** Three bytes to four characters, padded with `=` to a multiple of four. */
  function Btoa(bytes: seq<Byte>): string {
    var s := Encode(Sextets(bytes));
    s + Repeat('=', Padding(|s|))
  }

  function WithoutSpace(s: string): string {
    if s == "" then ""
    else (if s[0] in {' ', '\t', '\n', '\r', 12 as char} then "" else [s[0]]) + WithoutSpace(s[1..])
  }

  function WithoutPadding(s: string): string {
    if |s| % 4 != 0 || s == "" || s[|s| - 1] != '=' then s
    else if s[|s| - 2] != '=' then s[..|s| - 1]
    else s[..|s| - 2]
  }

  function Decode(s: string): Option<seq<Sextet>> {
    if s == "" then Some([])
    else
      match (FromChar(s[0]), Decode(s[1..]))
      case (Some(n), Some(ns)) => Some([n] + ns)
      case _ => None
  }

  /** The browser's forgiving decoder: spaces are dropped, padding is optional, a length of
      one more than a multiple of four and foreign characters are errors. */
  function Atob(text: string): Option<seq<Byte>> {
    var s := WithoutPadding(WithoutSpace(text));
    if |s| % 4 == 1 then None
    else
      match Decode(s)
      case None => None
      case Some(ns) => Some(Bytes(ns))
  }

  // ---- The page's codec ----

  function ReplaceAll(s: string, a: char, b: char): (r: string)
    ensures |r| == |s| && forall i | 0 <= i < |s| :: r[i] == if s[i] == a then b else s[i]
  {
    seq(|s|, i requires 0 <= i < |s| => if s[i] == a then b else s[i])
  }

  /** `replace(/=+$/, '')`. */
  function DropEquals(s: string): string {
    if s != "" && s[|s| - 1] == '=' then DropEquals(s[..|s| - 1]) else s
  }

  function UrlEncode(bytes: seq<Byte>): string {
    DropEquals(ReplaceAll(ReplaceAll(Btoa(bytes), '+', '-'), '/', '_'))
  }

  function UrlDecode(text: string): Option<seq<Byte>> {
    Atob(ReplaceAll(ReplaceAll(text, '-', '+'), '_', '/') + Repeat('=', Padding(|text|)))
  }

  /** The standard and the URL-safe alphabet differ in two characters. */
  function UrlChar(c: char): char {
    if c == '+' then '-' else if c == '/' then '_' else c
  }

  lemma {:induction false} BytesOfSextets(bytes: seq<Byte>)
    ensures Bytes(Sextets(bytes)) == bytes && |Sextets(bytes)| % 4 != 1
    decreases |bytes|
  {
    if |bytes| > 3 {
      BytesOfSextets(bytes[3..]);
      assert bytes == bytes[..3] + bytes[3..];
    }
    if |bytes| >= 3 {
      assert Sextets(bytes)[4..] == Sextets(bytes[3..]);
    }
  }

  lemma {:induction false} DecodeEncoded(ns: seq<Sextet>)
    ensures Decode(Encode(ns)) == Some(ns)
  {
    if ns != [] {
      DecodeEncoded(ns[1..]);
      CharRoundTrip(ns[0]);
      assert Encode(ns)[1..] == Encode(ns[1..]);
      assert ns == [ns[0]] + ns[1..];
    }
  }

  lemma {:induction false} NoSpace(s: string)
    requires forall i | 0 <= i < |s| :: s[i] !in {' ', '\t', '\n', '\r', 12 as char}
    ensures WithoutSpace(s) == s
  {
    if s != "" {
      NoSpace(s[1..]);
    }
  }

  lemma {:induction false} EncodedIsPlain(ns: seq<Sextet>, i: nat)
    requires i < |ns|
    ensures Encode(ns)[i] !in {'=', '-', '_', '&', ' ', '\t', '\n', '\r', 12 as char}
  {
    CharRoundTrip(ns[i]);
  }

  lemma {:induction false} PaddedHasNoSpace(ns: seq<Sextet>, n: nat)
    ensures WithoutSpace(Encode(ns) + Repeat('=', n)) == Encode(ns) + Repeat('=', n)
  {
    forall i | 0 <= i < |ns| ensures Encode(ns)[i] !in {' ', '\t', '\n', '\r', 12 as char} { EncodedIsPlain(ns, i); }
    NoSpace(Encode(ns) + Repeat('=', n));
  }

  lemma {:induction false} DropPadding(s: string, n: nat)
    requires n <= 2 && (|s| + n) % 4 == 0 && (s == "" ==> n == 0) && (s != "" ==> s[|s| - 1] != '=')
    ensures WithoutPadding(s + Repeat('=', n)) == s
  {
    var t := s + Repeat('=', n);
    assert t[..|s|] == s;
    if n == 0 { assert t == s; }
    if s != "" { assert t[|s| - 1] == s[|s| - 1]; }
  }

  lemma {:induction false} PaddingIsDropped(ns: seq<Sextet>)
    requires |ns| % 4 != 1
    ensures WithoutPadding(Encode(ns) + Repeat('=', Padding(|ns|))) == Encode(ns)
  {
    if ns != [] { EncodedIsPlain(ns, |ns| - 1); }
    DropPadding(Encode(ns), Padding(|ns|));
  }

  /** RFC 4648 section 4: decoding undoes encoding. */
  lemma {:induction false} AtobBtoa(bytes: seq<Byte>)
    ensures Atob(Btoa(bytes)) == Some(bytes)
  {
    var ns := Sextets(bytes);
    BytesOfSextets(bytes);
    PaddedHasNoSpace(ns, Padding(|ns|));
    PaddingIsDropped(ns);
    DecodeEncoded(ns);
  }

  lemma {:induction false} DropRepeated(s: string, n: nat)
    requires s == "" || s[|s| - 1] != '='
    ensures DropEquals(s + Repeat('=', n)) == s
  {
    if n == 0 {
      assert s + Repeat('=', 0) == s;
    } else {
      var t := s + Repeat('=', n);
      assert t[..|t| - 1] == s + Repeat('=', n - 1);
      DropRepeated(s, n - 1);
    }
  }

  /** RFC 4648 section 5: the encoding is the unpadded text over the URL-safe alphabet. */
  lemma {:induction false} UrlEncodeIsUnpadded(bytes: seq<Byte>)
    ensures var s := Encode(Sextets(bytes));
            && |UrlEncode(bytes)| == |s|
            && forall i | 0 <= i < |s| :: UrlEncode(bytes)[i] == UrlChar(s[i])
  {
    var ns := Sextets(bytes);
    var s := Encode(ns);
    forall i | 0 <= i < |s| ensures s[i] != '=' && s[i] != '-' && s[i] != '_' { CharRoundTrip(ns[i]); }
    var url := ReplaceAll(ReplaceAll(s, '+', '-'), '/', '_');
    assert ReplaceAll(ReplaceAll(Btoa(bytes), '+', '-'), '/', '_') == url + Repeat('=', Padding(|s|));
    DropRepeated(url, Padding(|s|));
  }

  /** The page's decoder inverts its encoder, for every byte sequence. */
  lemma {:induction false} UrlRoundTrip(bytes: seq<Byte>)
    ensures UrlDecode(UrlEncode(bytes)) == Some(bytes)
  {
    var ns := Sextets(bytes);
    var s := Encode(ns);
    var url := UrlEncode(bytes);
    UrlEncodeIsUnpadded(bytes);
    forall i | 0 <= i < |s| ensures s[i] != '-' && s[i] != '_' { CharRoundTrip(ns[i]); }
    assert ReplaceAll(ReplaceAll(url, '-', '+'), '_', '/') == s;
    AtobBtoa(bytes);
  }

  /** No character of the encoding has a meaning in a URL hash. */
  lemma {:induction false} UrlTextIsSafe(bytes: seq<Byte>, i: nat)
    requires i < |UrlEncode(bytes)|
    ensures UrlEncode(bytes)[i] != '=' && UrlEncode(bytes)[i] != '&'
  {
    UrlEncodeIsUnpadded(bytes);
    CharRoundTrip(Sextets(bytes)[i]);
  }

  // ---- The loops ----

  /** A binary string holds one byte per character. */
  function Binary(bytes: seq<Byte>): (s: string)
    ensures |s| == |bytes| && forall i | 0 <= i < |s| :: s[i] as int == bytes[i] as int
  {
    seq(|bytes|, i requires 0 <= i < |bytes| => (bytes[i] as int) as char)
  }

  function BinaryBytes(s: string): (bytes: seq<Byte>)
    requires forall i | 0 <= i < |s| :: s[i] as int < 0x100
    ensures |bytes| == |s| && forall i | 0 <= i < |s| :: bytes[i] as int == s[i] as int
  {
    seq(|s|, i requires 0 <= i < |s| => (s[i] as int) as Byte)
  }

  method B64UrlEncode(bytes: seq<Byte>) returns (text: string)
    ensures text == UrlEncode(bytes)
  {
    var s: string := "";
    for i := 0 to |bytes|
      invariant |s| == i && forall j | 0 <= j < i :: s[j] as int == bytes[j] as int
    {
      s := s + [(bytes[i] as int) as char];
    }
    assert BinaryBytes(s) == bytes;
    text := DropEquals(ReplaceAll(ReplaceAll(Btoa(BinaryBytes(s)), '+', '-'), '/', '_'));
  }

  method B64UrlDecode(text: string) returns (out: Option<seq<Byte>>)
    ensures out == UrlDecode(text)
  {
    var padded := ReplaceAll(ReplaceAll(text, '-', '+'), '_', '/') + Repeat('=', Padding(|text|));
    var decoded := Atob(padded);
    if decoded.None? {
      return None;
    }
    var bin := Binary(decoded.value);
    var bytes: seq<Byte> := [];
    for i := 0 to |bin|
      invariant |bytes| == i && forall j | 0 <= j < i :: bytes[j] as int == bin[j] as int
    {
      bytes := bytes + [(bin[i] as int) as Byte];
    }
    assert bytes == decoded.value;
    out := Some(bytes);
  }

  // ---- The alphabets and the packing, spelled out ----

  /** The alphabet runs from A to Z, a to z and 0 to 9; then come the two characters in which
      the URL-safe one differs. */
  lemma {:induction false} AlphabetIsSpelled(n: Sextet)
    ensures ToChar(0) == 'A' && ToChar(25) == 'Z' && ToChar(26) == 'a' && ToChar(51) == 'z' && ToChar(52) == '0' && ToChar(61) == '9'
    ensures n < 61 && n != 25 && n != 51 ==> ToChar(n + 1) as int == ToChar(n) as int + 1
    ensures ToChar(62) == '+' && ToChar(63) == '/'
    ensures UrlChar(ToChar(n)) == if n == 62 then '-' else if n == 63 then '_' else ToChar(n)
  {
  }

  /** Three bytes and four sextets are the same 24 bits, most significant first. */
  lemma {:induction false} PackingIsSpelled(b0: Byte, b1: Byte, b2: Byte, rest: seq<Byte>)
    ensures var ns := Sextets([b0, b1, b2] + rest);
            && |ns| >= 4 && ns[4..] == Sextets(rest)
            && ((ns[0] * 64 + ns[1] as int) * 64 + ns[2] as int) * 64 + ns[3] as int
               == (b0 as int * 256 + b1 as int) * 256 + b2 as int
  {
    assert ([b0, b1, b2] + rest)[3..] == rest;
  }

  /** Test vectors of RFC 4648, section 10, for the two lengths that need padding. */
  lemma {:induction false} PaddingIsSpelled()
    ensures Btoa([0x66]) == "Zg==" && Btoa([0x66, 0x6F]) == "Zm8="
  {
    var one: seq<Sextet>, two: seq<Sextet> := [25, 32], [25, 38, 60];
    assert Sextets([0x66]) == one && Sextets([0x66, 0x6F]) == two;
    assert Encode(one) == "Zg" && Encode(two) == "Zm8";
    assert Repeat('=', 2) == "==" && Repeat('=', 1) == "=";
  }

  /** A foreign character is an error, wherever it stands. */
  lemma {:induction false} AtobRejects(s: string, i: nat)
    requires i < |s| && !('A' <= s[i] <= 'Z' || 'a' <= s[i] <= 'z' || '0' <= s[i] <= '9' || s[i] == '+' || s[i] == '/')
    ensures Decode(s) == None
  {
    if i > 0 { AtobRejects(s[1..], i - 1); }
  }
}
