/** The verdict's JSON encoding, and a reader of flat JSON objects (RFC 8259) that gets
    the same five fields back. Strings are sequences of Unicode scalar values. */
module Json {
  import opened Lists
  import opened Wrappers

  // ---- Writing ----

  function HexDigit(n: nat): char
    requires n < 16
  {
    "0123456789abcdef"[n]
  }

  function EscapeChar(c: char): string {
    if c == '"' then "\\\""
    else if c == '\\' then "\\\\"
    else if c == '\n' then "\\n"
    else if c == '\r' then "\\r"
    else if c == '\t' then "\\t"
    else if c < ' ' then "\\u00" + [HexDigit(c as int / 16), HexDigit(c as int % 16)]
    else [c]
  }

  function Escape(s: string): string {
    if s == "" then "" else EscapeChar(s[0]) + Escape(s[1..])
  }

  /** `json_escape`, character by character. */
  method JsonEscape(s: string) returns (out: string)
    ensures out == Escape(s)
  {
    out := "";
    for i := 0 to |s|
      invariant out + Escape(s[i..]) == Escape(s)
    {
      EscapeNext(s, i);
      Assoc(out, EscapeChar(s[i]), Escape(s[i + 1..]));
      out := out + EscapeChar(s[i]);
    }
  }

  lemma {:induction false} EscapeNext(s: string, i: nat)
    requires i < |s|
    ensures Escape(s[i..]) == EscapeChar(s[i]) + Escape(s[i + 1..])
  {
    assert s[i..][1..] == s[i + 1..];
  }

  datatype Verdict = Verdict(function_: string, span: string, kind: string, outcome: string, proved: bool)

  datatype Value = Str(text: string) | Bool(b: bool)

  function Written(v: Value): string {
    match v
    case Str(t) => "\"" + Escape(t) + "\""
    case Bool(b) => if b then "true" else "false"
  }

  function Field(name: string, v: Value): string {
    "\"" + name + "\":" + Written(v)
  }

  datatype Member = Member(name: string, value: Value)

  function Fields(v: Verdict): seq<Member> {
    [Member("function", Str(v.function_)), Member("span", Str(v.span)), Member("kind", Str(v.kind)),
     Member("outcome", Str(v.outcome)), Member("proved", Bool(v.proved))]
  }

  function Members(ms: seq<Member>): string
    requires ms != []
  {
    Field(ms[0].name, ms[0].value) + if |ms| == 1 then "}" else "," + Members(ms[1..])
  }

  /** `to_json`: the five fields in a fixed order, on one line, without spaces. */
  function ToJson(v: Verdict): string {
    "{" + Members(Fields(v))
  }

  // ---- Reading ----

  datatype Reading<T> = Bad | Read(value: T, rest: string)

  function HexValue(c: char): Option<nat> {
    if '0' <= c <= '9' then Some(c as int - '0' as int)
    else if 'a' <= c <= 'f' then Some(c as int - 'a' as int + 10)
    else if 'A' <= c <= 'F' then Some(c as int - 'A' as int + 10)
    else None
  }

  /** Four hexadecimal digits; an escaped surrogate is no character of its own. */
  function ReadHex(s: string): (r: Reading<char>)
    ensures r.Read? ==> |r.rest| < |s|
  {
    if |s| < 4 then Bad
    else
      match (HexValue(s[0]), HexValue(s[1]), HexValue(s[2]), HexValue(s[3]))
      case (Some(a), Some(b), Some(c), Some(d)) =>
        var n := ((a * 16 + b) * 16 + c) * 16 + d;
        if 0 <= n < 0xD800 || 0xE000 <= n < 0x1_0000 then Read(n as char, s[4..]) else Bad
      case _ => Bad
  }

  /** One character of a string: plain, or an escape. */
  function ReadChar(s: string): (r: Reading<char>)
    requires s != ""
    ensures r.Read? ==> |r.rest| < |s|
  {
    if s[0] == '\\' then
      if |s| < 2 then Bad
      else
        match s[1]
        case '"' => Read('"', s[2..])
        case '\\' => Read('\\', s[2..])
        case '/' => Read('/', s[2..])
        case 'b' => Read(8 as char, s[2..])
        case 'f' => Read(12 as char, s[2..])
        case 'n' => Read('\n', s[2..])
        case 'r' => Read('\r', s[2..])
        case 't' => Read('\t', s[2..])
        case 'u' => ReadHex(s[2..])
        case _ => Bad
    else if s[0] < ' ' then Bad
    else Read(s[0], s[1..])
  }

  /** The rest of a string after its opening quote, up to the quote that closes it. */
  function ReadString(s: string): (r: Reading<string>)
    ensures r.Read? ==> |r.rest| < |s|
    decreases |s|
  {
    if s == "" then Bad
    else if s[0] == '"' then Read("", s[1..])
    else
      var c := ReadChar(s);
      if c.Bad? then Bad
      else
        var tail := ReadString(c.rest);
        if tail.Bad? then Bad else Read([c.value] + tail.value, tail.rest)
  }

  function SkipSpace(s: string): (r: string)
    ensures |r| <= |s|
  {
    if s != "" && s[0] in {' ', '\t', '\n', '\r'} then SkipSpace(s[1..]) else s
  }

  function ReadValue(s: string): (r: Reading<Value>)
    ensures r.Read? ==> |r.rest| < |s|
  {
    if s == "" then Bad
    else if s[0] == '"' then
      var t := ReadString(s[1..]);
      if t.Bad? then Bad else Read(Str(t.value), t.rest)
    else if "true" <= s then Read(Bool(true), s[4..])
    else if "false" <= s then Read(Bool(false), s[5..])
    else Bad
  }

  function ReadMember(text: string): (r: Reading<Member>)
    ensures r.Read? ==> |r.rest| < |text|
  {
    var s := SkipSpace(text);
    if s == "" || s[0] != '"' then Bad
    else
      var name := ReadString(s[1..]);
      if name.Bad? then Bad
      else
        var colon := SkipSpace(name.rest);
        if colon == "" || colon[0] != ':' then Bad
        else
          var v := ReadValue(SkipSpace(colon[1..]));
          if v.Bad? then Bad else Read(Member(name.value, v.value), v.rest)
  }

  /** The members of an object after its opening brace; of two members with one name the
      later one counts. */
  function ReadMembers(s: string): Reading<map<string, Value>>
    decreases |s|
  {
    var m := ReadMember(s);
    if m.Bad? then Bad
    else
      var next := SkipSpace(m.rest);
      if next == "" then Bad
      else if next[0] == '}' then Read(map[m.value.name := m.value.value], next[1..])
      else if next[0] == ',' then
        var tail := ReadMembers(next[1..]);
        if tail.Bad? then Bad else Read(map[m.value.name := m.value.value] + tail.value, tail.rest)
      else Bad
  }

  function ReadObject(text: string): Option<map<string, Value>> {
    var s := SkipSpace(text);
    if s == "" || s[0] != '{' then None
    else
      var members := ReadMembers(s[1..]);
      if members.Bad? || SkipSpace(members.rest) != "" then None else Some(members.value)
  }

  function TextField(m: map<string, Value>, name: string): Option<string> {
    if name in m && m[name].Str? then Some(m[name].text) else None
  }

  /** The record the page reads out of a message. */
  function ReadVerdict(msg: string): Option<Verdict> {
    match ReadObject(msg)
    case None => None
    case Some(m) =>
      match (TextField(m, "function"), TextField(m, "span"), TextField(m, "kind"), TextField(m, "outcome"))
      case (Some(f), Some(s), Some(k), Some(o)) =>
        if "proved" in m && m["proved"].Bool? then Some(Verdict(f, s, k, o, m["proved"].b)) else None
      case _ => None
  }

  // ---- Round trip ----

  lemma {:induction false} ReadEscapedChar(c: char, rest: string)
    ensures EscapeChar(c) != "" && EscapeChar(c)[0] != '"'
    ensures ReadChar(EscapeChar(c) + rest) == Read(c, rest)
  {
    var s := EscapeChar(c) + rest;
    if c < ' ' && c != '\n' && c != '\r' && c != '\t' {
      var hi, lo := c as int / 16, c as int % 16;
      assert s == "\\u00" + [HexDigit(hi), HexDigit(lo)] + rest;
      HexRoundTrip(hi);
      HexRoundTrip(lo);
      assert s[2..][4..] == rest;
      assert s[2..][0] == '0' && s[2..][1] == '0' && s[2..][2] == HexDigit(hi) && s[2..][3] == HexDigit(lo);
    } else if c in {'"', '\\', '\n', '\r', '\t'} {
      assert s[2..] == rest;
    } else {
      assert s[1..] == rest;
    }
  }

  lemma {:induction false} HexRoundTrip(n: nat)
    requires n < 16
    ensures HexValue(HexDigit(n)) == Some(n)
  {
    assert n == 0 || n == 1 || n == 2 || n == 3 || n == 4 || n == 5 || n == 6 || n == 7
        || n == 8 || n == 9 || n == 10 || n == 11 || n == 12 || n == 13 || n == 14 || n == 15;
  }

  /** Whatever the string and whatever follows, its closing quote is found in the right
      place and the string is read back. */
  lemma {:induction false} ReadEscaped(s: string, rest: string)
    ensures ReadString(Escape(s) + "\"" + rest) == Read(s, rest)
  {
    if s == "" {
      assert Escape(s) + "\"" + rest == "\"" + rest;
    } else {
      var tail := Escape(s[1..]) + "\"" + rest;
      Assoc(EscapeChar(s[0]), Escape(s[1..]), "\"");
      Assoc(EscapeChar(s[0]), Escape(s[1..]) + "\"", rest);
      ReadEscapedChar(s[0], tail);
      ReadEscaped(s[1..], rest);
      assert s == [s[0]] + s[1..];
    }
  }

  /** The length of the run of backslashes that ends at position `i`. */
  function Backslashes(s: string, i: nat): (n: nat)
    requires i <= |s|
    ensures n <= i
  {
    if i == 0 || s[i - 1] != '\\' then 0 else 1 + Backslashes(s, i - 1)
  }

  lemma {:induction false} BackslashesInPrefix(a: string, b: string, i: nat)
    requires i <= |a|
    ensures Backslashes(a + b, i) == Backslashes(a, i)
  {
    if i > 0 { BackslashesInPrefix(a, b, i - 1); }
  }

  /** A run stays within the second part, or goes through it and on into the first. */
  lemma {:induction false} BackslashesAcross(a: string, b: string, i: nat)
    requires i <= |b|
    ensures Backslashes(a + b, |a| + i) == Backslashes(b, i) + if Backslashes(b, i) == i then Backslashes(a, |a|) else 0
  {
    if i == 0 {
      BackslashesInPrefix(a, b, |a|);
    } else {
      BackslashesAcross(a, b, i - 1);
      assert (a + b)[|a| + i - 1] == b[i - 1];
    }
  }

  /** No raw control character, and no bare quote: one that stands behind an even number of
      backslashes. */
  predicate CleanAt(s: string, i: nat)
    requires i < |s|
  {
    s[i] >= ' ' && (s[i] == '"' ==> Backslashes(s, i) % 2 == 1)
  }

  lemma {:induction false} CleanConcat(a: string, b: string, i: nat)
    requires i < |a + b| && Backslashes(a, |a|) % 2 == 0
    requires if i < |a| then CleanAt(a, i) else CleanAt(b, i - |a|)
    ensures CleanAt(a + b, i)
  {
    if i < |a| {
      BackslashesInPrefix(a, b, i);
    } else {
      BackslashesAcross(a, b, i - |a|);
    }
  }

  lemma {:induction false} EscapedIsClean(s: string, i: nat)
    requires i < |Escape(s)|
    ensures CleanAt(Escape(s), i)
  {
    var first, rest := EscapeChar(s[0]), Escape(s[1..]);
    EscapedCharIsClean(s[0]);
    if i >= |first| {
      EscapedIsClean(s[1..], i - |first|);
    }
    CleanConcat(first, rest, i);
  }

  /** One escaped character is clean in itself and ends in an even run of backslashes. */
  lemma {:induction false} EscapedCharIsClean(c: char)
    ensures forall i | 0 <= i < |EscapeChar(c)| :: CleanAt(EscapeChar(c), i)
    ensures Backslashes(EscapeChar(c), |EscapeChar(c)|) % 2 == 0
  {
    var e := EscapeChar(c);
    if c < ' ' && c != '\n' && c != '\r' && c != '\t' {
      var hi, lo := c as int / 16, c as int % 16;
      HexRoundTrip(hi);
      HexRoundTrip(lo);
      assert e == ['\\', 'u', '0', '0', HexDigit(hi), HexDigit(lo)];
    } else if |e| == 2 {
      assert Backslashes(e, 0) == 0;
      assert Backslashes(e, 1) == 1;
    }
  }

  // A member name as it stands in the format string.
  predicate PlainName(s: string) {
    forall i | 0 <= i < |s| :: ' ' <= s[i] && s[i] != '"' && s[i] != '\\'
  }

  lemma {:induction false} PlainIsEscaped(s: string)
    requires PlainName(s)
    ensures Escape(s) == s
  {
    if s != "" {
      PlainIsEscaped(s[1..]);
      assert s == [s[0]] + s[1..];
    }
  }

  lemma {:induction false} ReadWritten(v: Value, rest: string)
    ensures ReadValue(Written(v) + rest) == Read(v, rest)
    ensures SkipSpace(Written(v) + rest) == Written(v) + rest
  {
    var s := Written(v) + rest;
    match v
    case Str(t) =>
      Assoc("\"", Escape(t), "\"");
      Assoc("\"", Escape(t) + "\"", rest);
      assert ("\"" + (Escape(t) + "\"" + rest))[1..] == Escape(t) + "\"" + rest;
      ReadEscaped(t, rest);
    case Bool(b) =>
      assert s[|Written(v)|..] == rest && Written(v) <= s;
      assert s[0] == if b then 't' else 'f';
  }

  lemma {:induction false} ReadWrittenMember(name: string, v: Value, rest: string)
    requires PlainName(name)
    ensures ReadMember(Field(name, v) + rest) == Read(Member(name, v), rest)
  {
    var after := ":" + (Written(v) + rest);
    var s := Field(name, v) + rest;
    FieldLayout(name, Written(v), rest);
    assert s[1..] == name + "\"" + after;
    PlainIsEscaped(name);
    ReadEscaped(name, after);
    assert after[1..] == Written(v) + rest;
    ReadWritten(v, rest);
  }

  lemma {:induction false} FieldLayout(name: string, w: string, rest: string)
    ensures "\"" + name + "\":" + w + rest == "\"" + (name + "\"" + (":" + (w + rest)))
  {
    var quote, colon := "\"", ":";
    assert "\":" == quote + colon;
    Assoc(quote + name + (quote + colon), w, rest);
    Assoc(quote + name, quote, colon);
    Assoc(quote + name + quote, colon, w + rest);
    Assoc(quote, name, quote);
    Assoc(quote, name + quote, colon + (w + rest));
  }

  function ToMap(ms: seq<Member>): map<string, Value> {
    if ms == [] then map[] else map[ms[0].name := ms[0].value] + ToMap(ms[1..])
  }

  /** A member is followed by the closing brace or by a comma and more members. */
  lemma {:induction false} ReadLast(m: Member)
    requires PlainName(m.name)
    ensures ReadMembers(Field(m.name, m.value) + "}") == Read(map[m.name := m.value], "")
  {
    ReadWrittenMember(m.name, m.value, "}");
    assert "}"[1..] == "";
  }

  lemma {:induction false} ReadNext(m: Member, rest: string)
    requires PlainName(m.name)
    ensures var tail := ReadMembers(rest);
            ReadMembers(Field(m.name, m.value) + ("," + rest))
            == if tail.Bad? then Bad else Read(map[m.name := m.value] + tail.value, tail.rest)
  {
    ReadWrittenMember(m.name, m.value, "," + rest);
    assert ("," + rest)[1..] == rest;
  }

  /** Members are read back in order, up to the closing brace. */
  lemma {:induction false} ReadWrittenMembers(ms: seq<Member>)
    requires ms != [] && forall i | 0 <= i < |ms| :: PlainName(ms[i].name)
    ensures ReadMembers(Members(ms)) == Read(ToMap(ms), "")
  {
    if |ms| == 1 {
      ReadLast(ms[0]);
      assert ms[1..] == [];
      assert ToMap(ms) == map[ms[0].name := ms[0].value] + map[] == map[ms[0].name := ms[0].value];
    } else {
      ReadNext(ms[0], Members(ms[1..]));
      ReadWrittenMembers(ms[1..]);
    }
  }

  lemma {:induction false} ReadWrittenObject(ms: seq<Member>)
    requires ms != [] && forall i | 0 <= i < |ms| :: PlainName(ms[i].name)
    ensures ReadObject("{" + Members(ms)) == Some(ToMap(ms))
  {
    ReadWrittenMembers(ms);
    assert ("{" + Members(ms))[1..] == Members(ms);
  }

  predicate DistinctNames(ms: seq<Member>) {
    forall i, j | 0 <= i < j < |ms| :: ms[i].name != ms[j].name
  }

  lemma {:induction false} ToMapAt(ms: seq<Member>, i: nat)
    requires DistinctNames(ms) && i < |ms|
    ensures ms[i].name in ToMap(ms) && ToMap(ms)[ms[i].name] == ms[i].value
  {
    if i > 0 {
      ToMapAt(ms[1..], i - 1);
    } else {
      NotInTail(ms);
    }
  }

  lemma {:induction false} KeyOrigin(ms: seq<Member>, name: string)
    ensures name in ToMap(ms) ==> exists i :: 0 <= i < |ms| && ms[i].name == name
  {
    if ms != [] && ms[0].name != name {
      KeyOrigin(ms[1..], name);
      assert forall i | 0 <= i < |ms| - 1 :: ms[1..][i] == ms[i + 1];
    }
  }

  lemma {:induction false} NotInTail(ms: seq<Member>)
    requires DistinctNames(ms) && ms != []
    ensures ms[0].name !in ToMap(ms[1..])
  {
    KeyOrigin(ms[1..], ms[0].name);
    assert forall i | 0 <= i < |ms| - 1 :: ms[1..][i] == ms[i + 1];
  }

  lemma {:induction false} FieldNames(v: Verdict)
    ensures DistinctNames(Fields(v))
    ensures forall i | 0 <= i < 5 :: PlainName(Fields(v)[i].name)
  {
    var ms := Fields(v);
    assert ms[0].name[0] == 'f' && ms[1].name[0] == 's' && ms[2].name[0] == 'k' && ms[3].name[0] == 'o' && ms[4].name[0] == 'p';
  }

  /** The page recovers exactly the five fields that were encoded. */
  lemma {:induction false} VerdictRoundTrip(v: Verdict)
    ensures ReadVerdict(ToJson(v)) == Some(v)
  {
    var ms := Fields(v);
    FieldNames(v);
    ReadWrittenObject(ms);
    ToMapAt(ms, 0);
    ToMapAt(ms, 1);
    ToMapAt(ms, 2);
    ToMapAt(ms, 3);
    ToMapAt(ms, 4);
  }

  // ---- The text, spelled out ----

  /** A field as `format!` lays it out. */
  function Quoted(start: string, text: string): string {
    start + ("\"" + Escape(text) + "\"")
  }

  lemma {:induction false} ToJsonIsSpelled(v: Verdict)
    ensures ToJson(v)
            == "{" + (Quoted("\"function\":", v.function_) + ("," + (Quoted("\"span\":", v.span) + ("," + (Quoted("\"kind\":", v.kind) + (","
               + (Quoted("\"outcome\":", v.outcome) + ("," + ("\"proved\":" + (if v.proved then "true" else "false") + "}")))))))))
  {
    var ms := Fields(v);
    assert ms[1..][1..] == ms[2..] && ms[2..][1..] == ms[3..] && ms[3..][1..] == ms[4..];
    assert "\"" + "function" + "\":" == "\"function\":" && "\"" + "span" + "\":" == "\"span\":" && "\"" + "kind" + "\":" == "\"kind\":";
    assert "\"" + "outcome" + "\":" == "\"outcome\":" && "\"" + "proved" + "\":" == "\"proved\":";
    assert Members(ms[4..]) == "\"proved\":" + (if v.proved then "true" else "false") + "}";
    assert Members(ms[3..]) == Quoted("\"outcome\":", v.outcome) + ("," + Members(ms[4..]));
    assert Members(ms[2..]) == Quoted("\"kind\":", v.kind) + ("," + Members(ms[3..]));
    assert Members(ms[1..]) == Quoted("\"span\":", v.span) + ("," + Members(ms[2..]));
    assert Members(ms) == Quoted("\"function\":", v.function_) + ("," + Members(ms[1..]));
  }

  lemma {:induction false} EscapesAreSpelled(c: char)
    ensures EscapeChar('"') == "\\\"" && EscapeChar('\\') == "\\\\"
    ensures EscapeChar('\n') == "\\n" && EscapeChar('\r') == "\\r" && EscapeChar('\t') == "\\t"
    ensures EscapeChar(27 as char) == "\\u001b"
    ensures c >= ' ' && c != '"' && c != '\\' ==> EscapeChar(c) == [c]
  {
  }
}
