/** The URL hash of the page: `#code=<text>&t=<tab>`, its two older forms, and the reader
    that accepts all three. Compression is any pair of functions that undo each other. */
module HashCodec {
  import opened Wrappers
  import opened Base64

  type Gzip = string -> seq<Byte>
  type Gunzip = seq<Byte> -> Option<string>

  ghost predicate Inverse(gzip: Gzip, gunzip: Gunzip) {
    forall s :: gunzip(gzip(s)) == Some(s)
  }

  const CODE := "code="
  const SOURCE := "source="

  function Suffix(tab: Option<string>): string {
    if tab.Some? then "&t=" + tab.value else ""
  }

  /** Everything behind the `#` that says what the document is. */
  function Head(source: string, gzip: Gzip): string {
    CODE + UrlEncode(gzip(source))
  }

  function Hashed(head: string, tab: Option<string>): (hash: string)
    ensures hash != "" && hash[1..] == head + Suffix(tab)
  {
    "#" + (head + Suffix(tab))
  }

  function BuildHash(source: string, tab: Option<string>, gzip: Gzip): string {
    Hashed(Head(source, gzip), tab)
  }

  function SplitAmp(s: string): (parts: seq<string>)
    ensures parts != []
  {
    if s == "" then [""]
    else
      var tail := SplitAmp(s[1..]);
      if s[0] == '&' then [""] + tail else [[s[0]] + tail[0]] + tail[1..]
  }

  datatype Parsed = Parsed(sourceFile: Option<string>, src: Option<string>, tab: Option<string>)

  /** What the page knows: the shipped examples and the tab names. */
  datatype Site = Site(examples: set<string>, tabs: set<string>)

  function DecodeSrc(text: string, gunzip: Gunzip): Option<string> {
    match UrlDecode(text)
    case None => None
    case Some(bytes) => gunzip(bytes)
  }

  /** The last `t=` part that names a tab. */
  function TabOf(parts: seq<string>, site: Site): Option<string> {
    if parts == [] then None
    else
      var kv := parts[|parts| - 1];
      if "t=" <= kv && kv[2..] in site.tabs then Some(kv[2..]) else TabOf(parts[..|parts| - 1], site)
  }

  function ParseHead(head: string, site: Site, gunzip: Gunzip): Option<Parsed> {
    if SOURCE <= head then
      var file := head[|SOURCE|..];
      if file in site.examples then Some(Parsed(Some(file), None, None)) else None
    else
      match DecodeSrc(if CODE <= head then head[|CODE|..] else head, gunzip)
      case None => None
      case Some(src) => Some(Parsed(None, Some(src), None))
  }

  function ParseHash(hash: string, site: Site, gunzip: Gunzip): Option<Parsed> {
    if hash == "" then None
    else
      var parts := SplitAmp(hash);
      match ParseHead(parts[0], site, gunzip)
      case None => None
      case Some(p) => Some(p.(tab := TabOf(parts[1..], site)))
  }

  /** `parseHash`, with its loop over the parts behind the head. */
  method Parse(hash: string, site: Site, gunzip: Gunzip) returns (result: Option<Parsed>)
    ensures result == ParseHash(hash, site, gunzip)
  {
    if hash == "" {
      return None;
    }
    var parts := SplitAmp(hash);
    var parsed := ParseHead(parts[0], site, gunzip);
    if parsed.None? {
      return None;
    }
    var rest := parts[1..];
    var tab: Option<string> := None;
    for i := 0 to |rest|
      invariant tab == TabOf(rest[..i], site)
    {
      assert rest[..i + 1][..i] == rest[..i];
      if "t=" <= rest[i] {
        var t := rest[i][2..];
        if t in site.tabs {
          tab := Some(t);
        }
      }
    }
    assert rest[..|rest|] == rest;
    result := Some(parsed.value.(tab := tab));
  }

  predicate NoAmp(s: string) {
    forall i | 0 <= i < |s| :: s[i] != '&'
  }

  lemma {:induction false} SplitPlain(s: string)
    requires NoAmp(s)
    ensures SplitAmp(s) == [s]
  {
    if s != "" {
      SplitPlain(s[1..]);
      assert s == [s[0]] + s[1..];
    }
  }

  lemma {:induction false} SplitAtAmp(s: string, rest: string)
    requires NoAmp(s)
    ensures SplitAmp(s + "&" + rest) == [s] + SplitAmp(rest)
  {
    var t := s + "&" + rest;
    if s == "" {
      assert t[1..] == rest;
    } else {
      assert t[1..] == s[1..] + "&" + rest;
      SplitAtAmp(s[1..], rest);
      assert t[0] == s[0] && s == [s[0]] + s[1..];
    }
  }

  /** A tab that may appear in a hash: none, or a name the reader knows. */
  predicate GoodTab(tab: Option<string>, site: Site) {
    tab.Some? ==> tab.value in site.tabs && NoAmp(tab.value)
  }

  /** A head followed by a suffix splits back into the two. */
  lemma {:induction false} SplitHead(head: string, tab: Option<string>)
    requires NoAmp(head) && (tab.Some? ==> NoAmp(tab.value))
    ensures SplitAmp(head + Suffix(tab)) == [head] + if tab.Some? then ["t=" + tab.value] else []
  {
    if tab.None? {
      assert head + "" == head;
      SplitPlain(head);
    } else {
      var kv := "t=" + tab.value;
      assert "&t=" + tab.value == "&" + kv;
      assert head + Suffix(tab) == head + "&" + kv;
      assert NoAmp(kv);
      SplitPlain(kv);
      SplitAtAmp(head, kv);
    }
  }

  lemma {:induction false} ParseWithTab(head: string, tab: Option<string>, site: Site, gunzip: Gunzip)
    requires NoAmp(head) && GoodTab(tab, site) && head != ""
    ensures var p := ParseHead(head, site, gunzip);
            ParseHash(head + Suffix(tab), site, gunzip) == if p.None? then None else Some(p.value.(tab := tab))
  {
    SplitHead(head, tab);
    var parts := SplitAmp(head + Suffix(tab));
    if tab.Some? {
      var kv := "t=" + tab.value;
      assert parts[1..] == [kv] && kv[2..] == tab.value && "t=" <= kv;
    } else {
      assert parts[1..] == [];
    }
  }

  lemma {:induction false} HeadIsPlain(source: string, gzip: Gzip)
    ensures NoAmp(UrlEncode(gzip(source))) && NoAmp(Head(source, gzip))
    ensures !(SOURCE <= Head(source, gzip))
  {
    var text := UrlEncode(gzip(source));
    forall i | 0 <= i < |text| ensures text[i] != '&' { UrlTextIsSafe(gzip(source), i); }
    assert Head(source, gzip)[0] == 'c' && SOURCE[0] == 's';
  }

  /** What reading a hash the page wrote gives back: the same tab, and what decompressing
      gives of the compressed source. */
  function ReadBack(source: string, tab: Option<string>, gzip: Gzip, gunzip: Gunzip): Option<Parsed> {
    match gunzip(gzip(source))
    case None => None
    case Some(src) => Some(Parsed(None, Some(src), tab))
  }

  lemma {:induction false} HashRoundTrip(source: string, tab: Option<string>, site: Site, gzip: Gzip, gunzip: Gunzip)
    requires GoodTab(tab, site)
    ensures ParseHash(BuildHash(source, tab, gzip)[1..], site, gunzip) == ReadBack(source, tab, gzip, gunzip)
    ensures Inverse(gzip, gunzip) ==>
              ParseHash(BuildHash(source, tab, gzip)[1..], site, gunzip) == Some(Parsed(None, Some(source), tab))
  {
    var head := Head(source, gzip);
    HeadIsPlain(source, gzip);
    ParseWithTab(head, tab, site, gunzip);
    assert head[|CODE|..] == UrlEncode(gzip(source));
    UrlRoundTrip(gzip(source));
  }

  /** A bare encoded text is never taken for one of the named forms, so links in the older
      form still open. */
  lemma {:induction false} BareTextRoundTrip(source: string, tab: Option<string>, site: Site, gzip: Gzip, gunzip: Gunzip)
    requires GoodTab(tab, site) && UrlEncode(gzip(source)) != ""
    ensures var text := UrlEncode(gzip(source));
            && !(SOURCE <= text) && !(CODE <= text)
            && ParseHash(text + Suffix(tab), site, gunzip) == ReadBack(source, tab, gzip, gunzip)
  {
    var text := UrlEncode(gzip(source));
    HeadIsPlain(source, gzip);
    forall i | 0 <= i < |text| ensures text[i] != '=' { UrlTextIsSafe(gzip(source), i); }
    assert CODE[4] == '=' && SOURCE[6] == '=';
    ParseWithTab(text, tab, site, gunzip);
    UrlRoundTrip(gzip(source));
  }

  // ---- The forms of a hash, spelled out ----

  lemma {:induction false} HashIsSpelled(source: string, tab: Option<string>, gzip: Gzip)
    ensures BuildHash(source, tab, gzip) == "#" + ("code=" + UrlEncode(gzip(source)) + if tab.Some? then "&t=" + tab.value else "")
  {
  }

  /** The form that names a shipped example opens it, with its tab; an unknown name is an error. */
  lemma {:induction false} SourceForm(file: string, tab: Option<string>, site: Site, gunzip: Gunzip)
    requires NoAmp(file) && GoodTab(tab, site)
    ensures ParseHash("source=" + file + Suffix(tab), site, gunzip)
            == if file in site.examples then Some(Parsed(Some(file), None, tab)) else None
  {
    var head := "source=" + file;
    assert NoAmp("source=") && NoAmp(head);
    ParseWithTab(head, tab, site, gunzip);
    assert head[|SOURCE|..] == file && SOURCE <= head;
  }

  /** A text that cannot be decoded is an error in either of its forms, and so is no hash. */
  lemma {:induction false} BadText(text: string, site: Site, gunzip: Gunzip)
    requires NoAmp(text) && DecodeSrc(text, gunzip) == None
    ensures ParseHash("code=" + text, site, gunzip) == None
    ensures text != "" && !("code=" <= text) && !("source=" <= text) ==> ParseHash(text, site, gunzip) == None
    ensures ParseHash("", site, gunzip) == None
  {
    var head := "code=" + text;
    assert NoAmp("code=") && NoAmp(head);
    SplitPlain(head);
    SplitPlain(text);
    assert head[0] == 'c' && SOURCE[0] == 's';
    assert head[|CODE|..] == text && CODE <= head && !(SOURCE <= head);
  }

  lemma {:induction false} SplitLast(s: string, part: string)
    requires NoAmp(part)
    ensures SplitAmp(s + "&" + part) == SplitAmp(s) + [part]
  {
    var t := s + "&" + part;
    if s == "" {
      assert t[1..] == part;
      SplitPlain(part);
    } else {
      assert t[1..] == s[1..] + "&" + part && t[0] == s[0];
      SplitLast(s[1..], part);
    }
  }

  lemma {:induction false} TabOfLast(parts: seq<string>, part: string, site: Site)
    ensures TabOf(parts + [part], site) == if "t=" <= part && part[2..] in site.tabs then Some(part[2..]) else TabOf(parts, site)
  {
    assert (parts + [part])[..|parts|] == parts;
  }

  /** One more part: a `t=` that names a tab is the tab, whatever came before; any other part
      changes nothing. */
  lemma {:induction false} LastTabWins(hash: string, part: string, site: Site, gunzip: Gunzip)
    requires hash != "" && NoAmp(part)
    ensures var p := ParseHash(hash, site, gunzip);
            ParseHash(hash + "&" + part, site, gunzip)
            == if p.Some? && "t=" <= part && part[2..] in site.tabs then Some(p.value.(tab := Some(part[2..]))) else p
  {
    var parts := SplitAmp(hash);
    SplitLast(hash, part);
    assert (parts + [part])[1..] == parts[1..] + [part] && (parts + [part])[0] == parts[0];
    TabOfLast(parts[1..], part, site);
  }
}
