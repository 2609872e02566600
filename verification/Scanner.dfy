/** The scanner for search result pages (crates/logos-kernel/src/builtin_tools/web_search.rs). Texts are
    bytes, written as characters below 256; `clean` stands for `strip_html_tags`. */
module Scanner {
  import opened Wrappers

  datatype SearchResult = SearchResult(title: string, url: string, snippet: string)

  const MARKER := "class='result-link'"
  const SNIPPET := "class='result-snippet'"

  // ---- Searching ----

  predicate At(s: string, i: nat, p: string) {
    i + |p| <= |s| && s[i..i + |p|] == p
  }

  predicate Absent(s: string, from: nat, to: nat, p: string) {
    forall j :: from <= j < to ==> !At(s, j, p)
  }

  lemma AtHead(s: string, i: nat, p: string)
    ensures At(s, i, p) && p != "" ==> i < |s| && s[i] == p[0]
    ensures At(s, i, p) && |p| > 1 ==> i + 1 < |s| && s[i + 1] == p[1]
  {
    if At(s, i, p) {
      assert p != "" ==> s[i..i + |p|][0] == s[i];
      assert |p| > 1 ==> s[i..i + |p|][1] == s[i + 1];
    }
  }

  /** `s[from..].find(p)`, as a position of `s`. */
  function Find(s: string, from: nat, p: string): (r: Option<nat>)
    requires from <= |s|
    ensures r.Some? ==> from <= r.value && At(s, r.value, p) && Absent(s, from, r.value, p)
    ensures r.None? ==> Absent(s, from, |s| + 1, p)
    decreases |s| - from
  {
    if At(s, from, p) then Some(from)
    else if from == |s| then None
    else Find(s, from + 1, p)
  }

  /** The end of the positions where `p` may start in `s[..end]`. */
  function AfterLast(end: nat, p: string): nat {
    if |p| <= end then end - |p| + 1 else 0
  }

  /** `s[..end].rfind(p)`. */
  function RFind(s: string, end: nat, p: string): (r: Option<nat>)
    requires end <= |s|
    ensures r.Some? ==> r.value + |p| <= end && At(s, r.value, p) && Absent(s, r.value + 1, AfterLast(end, p), p)
    ensures r.None? ==> Absent(s, 0, AfterLast(end, p), p)
    decreases end
  {
    if |p| <= end && At(s, end - |p|, p) then Some(end - |p|)
    else if end == 0 then None
    else RFind(s, end - 1, p)
  }

  lemma AtIs(s: string, i: nat, p: string)
    requires i + |p| <= |s| && forall k :: 0 <= k < |p| ==> s[i + k] == p[k]
    ensures At(s, i, p)
  {
  }

  lemma FindIs(s: string, from: nat, p: string, i: nat)
    requires from <= i <= |s| && p != "" && At(s, i, p)
    requires forall j :: from <= j < i ==> s[j] != p[0]
    ensures Find(s, from, p) == Some(i)
  {
    forall j | from <= j < i ensures !At(s, j, p) {
      AtHead(s, j, p);
    }
  }

  lemma AtSplit(s: string, i: nat, a: string, b: string)
    requires At(s, i, a + b)
    ensures At(s, i, a) && At(s, i + |a|, b)
  {
    var t := s[i..i + |a + b|];
    assert s[i..i + |a|] == t[..|a|] == a;
    assert s[i + |a|..i + |a| + |b|] == t[|a|..] == b;
  }

  lemma AtChar(s: string, i: nat, p: string, k: nat)
    requires At(s, i, p) && i <= k < i + |p|
    ensures k < |s| && s[k] == p[k - i]
  {
    assert s[i..i + |p|][k - i] == s[k];
  }

  lemma AtInRange(s: string, i: nat, p: string)
    requires At(s, i, p) && p != ""
    ensures i < |s| && i + |p| <= |s|
  {
  }

  // ---- Truncation ----

  /** A byte that does not continue a character of UTF-8. */
  predicate Boundary(s: string, i: nat) {
    i == 0 || i == |s| || (i < |s| && !(0x80 <= s[i] as int < 0xC0))
  }

  /** The last boundary that is not beyond `max`. */
  function Cut(s: string, max: nat): (end: nat)
    requires max <= |s|
    ensures end <= max && LastBoundary(s, end, max)
  {
    if max == 0 || Boundary(s, max) then max else Cut(s, max - 1)
  }

  /** A cut that leaves no character in pieces and could not be later. */
  predicate LastBoundary(s: string, end: nat, max: nat) {
    Boundary(s, end) && forall j :: end < j <= max ==> !Boundary(s, j)
  }

  function Truncated(s: string, max: nat): string {
    if |s| <= max then s else s[..Cut(s, max)] + "..."
  }

  method Truncate(s: string, max: nat) returns (r: string)
    ensures |s| <= max ==> r == s
    ensures |s| > max ==> exists end: nat :: end <= max && r == s[..end] + "..." && LastBoundary(s, end, max)
    ensures r == Truncated(s, max)
  {
    if |s| <= max {
      return s;
    }
    var end: nat := max;
    while end > 0 && !Boundary(s, end)
      invariant end <= max && Cut(s, max) == Cut(s, end)
    {
      end := end - 1;
    }
    return s[..end] + "...";
  }

  // ---- One round of the loop ----

  datatype Turn = Skip(pos: nat) | Hit(pos: nat, result: SearchResult)

  /** The value of the first `href`, empty if its quote is not closed. */
  function Href(tag: string): Option<string> {
    match Find(tag, 0, "href=\"")
    case None => None
    case Some(hi) =>
      match Find(tag, hi + 6, "\"")
      case None => Some("")
      case Some(end) => Some(tag[hi + 6..end])
  }

  /** Where the search for a snippet from `pos` ends, and what it finds. */
  function SnippetFrom(html: string, pos: nat, clean: string -> string): (r: (nat, string))
    requires pos <= |html|
    ensures pos <= r.0 <= |html|
  {
    match Find(html, pos, SNIPPET)
    case None => (pos, "")
    case Some(sp) =>
      match Find(html, sp, ">")
      case None => (pos, "")
      case Some(gt) =>
        match Find(html, gt + 1, "</td>")
        case None => (pos, "")
        case Some(end) => (end, Truncated(clean(html[gt + 1..end]), 200))
  }

  /** What the loop does with the marker at `m`. */
  function TurnAt(html: string, m: nat, clean: string -> string): (t: Turn)
    requires At(html, m, MARKER)
    ensures t.pos <= |html|
  {
    match RFind(html, m, "<a ")
    case None => Skip(m + |MARKER|)
    case Some(start) =>
      match Find(html, start, ">")
      case None => Skip(m + |MARKER|)
      case Some(gt) =>
        match Href(html[start..gt])
        case None => Skip(m + |MARKER|)
        case Some(url) =>
          match Find(html, gt + 1, "</a>")
          case None => Skip(gt + 1)
          case Some(end) =>
            var (pos, snippet) := SnippetFrom(html, end, clean);
            Hit(pos, SearchResult(clean(html[gt + 1..end]), url, snippet))
  }

  // ---- What a round does, place by place ----

  /** The first place at or after `from` where the text stands, if it stands anywhere. */
  ghost predicate FirstAt(s: string, from: nat, p: string, r: Option<nat>) {
    match r
    case Some(i) => from <= i && i + |p| <= |s| && s[i..i + |p|] == p && Absent(s, from, i, p)
    case None => Absent(s, from, |s| + 1, p)
  }

  /** The last place at which the text stands before `end`. */
  ghost predicate LastAt(s: string, end: nat, p: string, r: Option<nat>) {
    match r
    case Some(i) => i + |p| <= end <= |s| && s[i..i + |p|] == p && forall j: nat :: i < j && j + |p| <= end ==>
      !At(s, j, p)
    case None => forall j: nat :: j + |p| <= end ==> !At(s, j, p)
  }

  /** A text of at most 200 bytes as it is, and of a longer one what no character is cut in, with dots. */
  ghost predicate Shortened(s: string, r: string) {
    if |s| <= 200 then r == s
    else exists end: nat :: end <= 200 && LastBoundary(s, end, 200) && r == s[..end] + "..."
  }

  /** The snippet is what stands in the first snippet cell behind `from`, if it is opened and closed; the
      search goes on from its end, or else from where it was. */
  ghost predicate SnippetAs(html: string, from: nat, clean: string -> string, pos: nat, snippet: string) {
    exists sp: Option<nat> ::
      && FirstAt(html, from, "class='result-snippet'", sp)
      && if sp.None? then pos == from && snippet == "" else CellAs(html, from, sp.value, clean, pos, snippet)
  }

  ghost predicate CellAs(html: string, from: nat, sp: nat, clean: string -> string, pos: nat, snippet: string) {
    exists gt: Option<nat> ::
      && FirstAt(html, sp, ">", gt)
      && if gt.None? then pos == from && snippet == "" else TextAs(html, from, gt.value + 1, clean, pos, snippet)
  }

  ghost predicate TextAs(html: string, from: nat, start: nat, clean: string -> string, pos: nat, snippet: string) {
    exists end: Option<nat> ::
      && FirstAt(html, start, "</td>", end)
      && if end.None? then pos == from && snippet == ""
         else pos == end.value && Shortened(clean(html[start..end.value]), snippet)
  }

  /** The link of a tag: what stands between the quotes of its first `href`; no text if they are not closed. */
  ghost predicate HrefAs(tag: string, url: Option<string>) {
    exists hi: Option<nat> ::
      FirstAt(tag, 0, "href=\"", hi) && if hi.None? then url == None else QuotedAs(tag, hi.value + 6, url)
  }

  ghost predicate QuotedAs(tag: string, start: nat, url: Option<string>) {
    exists end: Option<nat> ::
      FirstAt(tag, start, "\"", end) && url == Some(if end.None? then "" else tag[start..end.value])
  }

  /** The round from its tag on: a tag without end or without a link is skipped with its marker, and a tag
      that no link end comes behind is skipped alone; otherwise there is a result. */
  ghost predicate TagAs(html: string, m: nat, start: nat, clean: string -> string, t: Turn) {
    exists gt: Option<nat> ::
      FirstAt(html, start, ">", gt) && if gt.None? then t == Skip(m + 19)
        else LinkAs(html, m, start, gt.value, clean, t)
  }

  ghost predicate LinkAs(html: string, m: nat, start: nat, gt: nat, clean: string -> string, t: Turn)
    requires start <= gt < |html|
  {
    exists url ::
      HrefAs(html[start..gt], url) && if url.None? then t == Skip(m + 19)
        else TitleAs(html, gt + 1, url.value, clean, t)
  }

  ghost predicate TitleAs(html: string, start: nat, url: string, clean: string -> string, t: Turn) {
    exists end: Option<nat> ::
      && FirstAt(html, start, "</a>", end)
      && if end.None? then t == Skip(start)
         else
           && t.Hit? && t.result.url == url && t.result.title == clean(html[start..end.value])
           && SnippetAs(html, end.value, clean, t.pos, t.result.snippet)
  }

  /** A marker that no tag is opened before is skipped. */
  ghost predicate TurnAs(html: string, m: nat, clean: string -> string, t: Turn) {
    exists start: Option<nat> :: LastAt(html, m, "<a ", start)
      && if start.None? then t == Skip(m + 19) else TagAs(html, m, start.value, clean, t)
  }

  lemma FirstIs(s: string, from: nat, p: string)
    requires from <= |s|
    ensures FirstAt(s, from, p, Find(s, from, p))
  {
  }

  lemma LastIs(s: string, end: nat, p: string)
    requires end <= |s|
    ensures LastAt(s, end, p, RFind(s, end, p))
  {
  }

  lemma HrefIs(tag: string)
    ensures HrefAs(tag, Href(tag))
  {
    FirstIs(tag, 0, "href=\"");
    var hi := Find(tag, 0, "href=\"");
    if hi.Some? {
      AtInRange(tag, hi.value, "href=\"");
      FirstIs(tag, hi.value + 6, "\"");
    }
    hide Find, FirstAt, At, Absent;
    assert hi.Some? ==> QuotedAs(tag, hi.value + 6, Href(tag));
  }

  lemma ShortenedIs(s: string)
    ensures Shortened(s, Truncated(s, 200))
  {
    if |s| > 200 {
      var end := Cut(s, 200);
      assert end <= 200 && LastBoundary(s, end, 200) && Truncated(s, 200) == s[..end] + "...";
    }
  }

  lemma TextIs(html: string, from: nat, start: nat, clean: string -> string, r: (nat, string))
    requires start <= |html|
    requires match Find(html, start, "</td>")
             case None => r == (from, "")
             case Some(end) => r == (end, Truncated(clean(html[start..end]), 200))
    ensures TextAs(html, from, start, clean, r.0, r.1)
  {
    hide Find, FirstAt, Shortened, Truncated, At, Absent;
    FirstIs(html, start, "</td>");
    var end := Find(html, start, "</td>");
    if end.Some? {
      ShortenedIs(clean(html[start..end.value]));
    }
  }

  lemma CellIs(html: string, from: nat, sp: nat, clean: string -> string)
    requires from <= |html| && Find(html, from, SNIPPET) == Some(sp) && sp <= |html|
    ensures CellAs(html, from, sp, clean, SnippetFrom(html, from, clean).0, SnippetFrom(html, from, clean).1)
  {
    hide Find, FirstAt, Truncated, TextAs, At, Absent, SNIPPET;
    FirstIs(html, sp, ">");
    var gt := Find(html, sp, ">");
    if gt.Some? {
      AtInRange(html, gt.value, ">");
      TextIs(html, from, gt.value + 1, clean, SnippetFrom(html, from, clean));
    }
  }

  lemma SnippetIs(html: string, from: nat, clean: string -> string)
    requires from <= |html|
    ensures SnippetAs(html, from, clean, SnippetFrom(html, from, clean).0, SnippetFrom(html, from, clean).1)
  {
    assert SNIPPET == "class='result-snippet'" && |SNIPPET| == 22;
    hide Find, FirstAt, CellAs, Truncated, At, Absent;
    FirstIs(html, from, SNIPPET);
    var sp := Find(html, from, SNIPPET);
    if sp.Some? {
      AtInRange(html, sp.value, SNIPPET);
      CellIs(html, from, sp.value, clean);
    }
  }

  ghost predicate TitleGives(html: string, start: nat, url: string, clean: string -> string, t: Turn)
    requires start <= |html|
  {
    match Find(html, start, "</a>")
    case None => t == Skip(start)
    case Some(end) =>
      t == Hit(SnippetFrom(html, end, clean).0,
               SearchResult(clean(html[start..end]), url, SnippetFrom(html, end, clean).1))
  }

  lemma TitleIs(html: string, start: nat, url: string, clean: string -> string, t: Turn)
    requires start <= |html| && TitleGives(html, start, url, clean, t)
    ensures TitleAs(html, start, url, clean, t)
  {
    hide Find, FirstAt, SnippetFrom, SnippetAs, At, Absent;
    FirstIs(html, start, "</a>");
    var end := Find(html, start, "</a>");
    if end.Some? {
      AtInRange(html, end.value, "</a>");
      SnippetIs(html, end.value, clean);
    }
  }

  lemma MarkerLength()
    ensures |MARKER| == 19
  {
  }

  lemma LinkTurn(html: string, m: nat, start: nat, gt: nat, clean: string -> string)
    requires At(html, m, MARKER) && m <= |html| && RFind(html, m, "<a ") == Some(start)
    requires start <= gt < |html| && Find(html, start, ">") == Some(gt)
    ensures var t, url := TurnAt(html, m, clean), Href(html[start..gt]);
            if url.None? then t == Skip(m + |MARKER|) else TitleGives(html, gt + 1, url.value, clean, t)
  {
    hide RFind, Find, Href, SnippetFrom, At, Absent, MARKER;
  }

  lemma LinkIs(html: string, m: nat, start: nat, gt: nat, clean: string -> string)
    requires At(html, m, MARKER) && m <= |html| && RFind(html, m, "<a ") == Some(start)
    requires start <= gt < |html| && Find(html, start, ">") == Some(gt)
    ensures LinkAs(html, m, start, gt, clean, TurnAt(html, m, clean))
  {
    hide TurnAt, RFind, Find, Href, HrefAs, SnippetFrom, TitleAs, TitleGives, At, Absent, MARKER;
    MarkerLength();
    LinkTurn(html, m, start, gt, clean);
    HrefIs(html[start..gt]);
    var t, url := TurnAt(html, m, clean), Href(html[start..gt]);
    if url.Some? {
      TitleIs(html, gt + 1, url.value, clean, t);
    }
    assert HrefAs(html[start..gt], url) && if url.None? then t == Skip(m + 19)
      else TitleAs(html, gt + 1, url.value, clean, t);
  }

  lemma TagIs(html: string, m: nat, start: nat, clean: string -> string)
    requires At(html, m, MARKER) && m <= |html| && RFind(html, m, "<a ") == Some(start) && start <= |html|
    ensures TagAs(html, m, start, clean, TurnAt(html, m, clean))
  {
    var gt := Find(html, start, ">");
    MarkerLength();
    assert gt.None? ==> TurnAt(html, m, clean) == Skip(m + |MARKER|);
    hide TurnAt, RFind, Find, FirstAt, LinkAs, At, Absent, MARKER;
    FirstIs(html, start, ">");
    if gt.Some? {
      AtInRange(html, gt.value, ">");
      LinkIs(html, m, start, gt.value, clean);
    }
  }

  /** Every round does what the places of its marks say. */
  lemma TurnIs(html: string, m: nat, clean: string -> string)
    requires At(html, m, MARKER)
    ensures MARKER == "class='result-link'" && TurnAs(html, m, clean, TurnAt(html, m, clean))
  {
    assert |MARKER| == 19;
    AtInRange(html, m, MARKER);
    hide RFind, Find, FirstAt, LastAt, TagAs, Href, SnippetFrom, At, Absent;
    LastIs(html, m, "<a ");
    var start := RFind(html, m, "<a ");
    if start.Some? {
      TagIs(html, m, start.value, clean);
    }
  }

  // ---- The results ----

  function Accept(r: SearchResult): seq<SearchResult> {
    if r.url != "" && r.title != "" then [r] else []
  }

  function Gain(t: Turn): (r: seq<SearchResult>)
    ensures |r| <= 1
  {
    if t.Skip? then [] else Accept(t.result)
  }

  function Before(gain: seq<SearchResult>, rest: Option<seq<SearchResult>>): Option<seq<SearchResult>> {
    match rest
    case None => None
    case Some(s) => Some(gain + s)
  }

  function Copies(r: SearchResult, n: nat): seq<SearchResult> {
    if n == 0 then [] else [r] + Copies(r, n - 1)
  }

  /** The results from a position on, with room for so many, and nothing if the loop would go on for ever.
      A round that does not get past its own marker is repeated as it is: without a result it is repeated
      for ever, and with one it fills what room there is. */
  function Scan(html: string, pos: nat, room: nat, clean: string -> string): Option<seq<SearchResult>>
    requires pos <= |html|
    decreases |html| - pos
  {
    if room == 0 then Some([])
    else
      match Find(html, pos, MARKER)
      case None => Some([])
      case Some(m) =>
        var t := TurnAt(html, m, clean);
        if t.pos > m then Before(Gain(t), Scan(html, t.pos, room - |Gain(t)|, clean))
        else if Gain(t) == [] then None
        else Some(Copies(t.result, room))
  }

  lemma RFindIs(s: string, end: nat, p: string, i: nat)
    requires end <= |s| && i + |p| <= end && At(s, i, p) && Absent(s, i + 1, AfterLast(end, p), p)
    ensures RFind(s, end, p) == Some(i)
  {
  }

  /** The tag before a marker ends before any place that the round goes on to. */
  lemma TagBefore(html: string, m: nat, clean: string -> string)
    requires At(html, m, MARKER) && TurnAt(html, m, clean).pos <= m
    ensures m <= |html| && RFind(html, m, "<a ").Some?
    ensures RFind(html, m, "<a ").value + 3 <= TurnAt(html, m, clean).pos
  {
    var start := RFind(html, m, "<a ").value;
    var gt := Find(html, start, ">").value;
    AtHead(html, gt, ">");
    AtChar(html, start, "<a ", start);
    if gt < start + 3 {
      AtChar(html, start, "<a ", gt);
    }
  }

  lemma SameTag(html: string, m: nat, n: nat, clean: string -> string)
    requires At(html, m, MARKER) && At(html, n, MARKER) && m <= |html| && n <= |html|
    requires RFind(html, m, "<a ") == RFind(html, n, "<a ") && TurnAt(html, m, clean).pos <= m
    ensures TurnAt(html, n, clean) == TurnAt(html, m, clean)
  {
    hide Find, RFind, Href, SnippetFrom, At, Absent;
  }

  lemma SameStart(html: string, n: nat, m: nat)
    requires n <= m <= |html| && RFind(html, m, "<a ").Some? && RFind(html, m, "<a ").value + 3 <= n
    ensures RFind(html, n, "<a ") == RFind(html, m, "<a ")
  {
    var start := RFind(html, m, "<a ").value;
    hide RFind;
    assert Absent(html, start + 1, AfterLast(n, "<a "), "<a ");
    RFindIs(html, n, "<a ", start);
  }

  lemma FindsUpTo(s: string, from: nat, p: string, i: nat)
    requires from <= i && i <= |s| && At(s, i, p)
    ensures Find(s, from, p).Some? && from <= Find(s, from, p).value <= i
  {
  }

  /** A round that does not get past its marker is followed by the same round. */
  lemma {:induction false} SameTurn(html: string, m: nat, clean: string -> string)
    requires At(html, m, MARKER) && TurnAt(html, m, clean).pos <= m
    ensures var t := TurnAt(html, m, clean);
            var n := Find(html, t.pos, MARKER);
            n.Some? && t.pos <= n.value <= m && TurnAt(html, n.value, clean) == t
  {
    TagBefore(html, m, clean);
    hide TurnAt, Find, RFind, Href, SnippetFrom, At, Absent, MARKER;
    var t := TurnAt(html, m, clean);
    FindsUpTo(html, t.pos, MARKER, m);
    var n := Find(html, t.pos, MARKER).value;
    SameStart(html, n, m);
    SameTag(html, m, n, clean);
  }

  lemma ScanRepeats(html: string, pos: nat, room: nat, t: Turn, clean: string -> string)
    requires pos <= |html| && room > 0 && Find(html, pos, MARKER).Some?
    requires t == TurnAt(html, Find(html, pos, MARKER).value, clean) && t.pos <= Find(html, pos, MARKER).value
    ensures Scan(html, pos, room, clean) == if Gain(t) == [] then None else Some(Copies(t.result, room))
  {
    hide TurnAt, Find, Absent, At, MARKER;
  }

  lemma ScanAdvances(html: string, pos: nat, room: nat, t: Turn, clean: string -> string)
    requires pos <= |html| && room > 0 && Find(html, pos, MARKER).Some?
    requires t == TurnAt(html, Find(html, pos, MARKER).value, clean) && t.pos > Find(html, pos, MARKER).value
    ensures Scan(html, pos, room, clean) == Before(Gain(t), Scan(html, t.pos, room - |Gain(t)|, clean))
  {
    hide TurnAt, Find, Absent, At, MARKER;
  }

  lemma ScanRepeatStep(html: string, pos: nat, room: nat, t: Turn, clean: string -> string)
    requires pos <= |html| && room > 0 && Find(html, pos, MARKER).Some?
    requires t == TurnAt(html, Find(html, pos, MARKER).value, clean) && t.pos <= Find(html, pos, MARKER).value
    ensures Scan(html, pos, room, clean) == Before(Gain(t), Scan(html, t.pos, room - |Gain(t)|, clean))
    ensures Scan(html, pos, room, clean).Some? ==> Gain(t) != []
  {
    hide TurnAt, Find, Absent, At, MARKER, Scan;
    SameTurn(html, Find(html, pos, MARKER).value, clean);
    assert Gain(t) == [] || Gain(t) == [t.result];
    hide Gain;
    ScanRepeats(html, pos, room, t, clean);
    if room == |Gain(t)| {
      NoRoom(html, t.pos, clean);
    } else {
      ScanRepeats(html, t.pos, room - |Gain(t)|, t, clean);
    }
  }

  lemma ScanEmpty(html: string, pos: nat, room: nat, clean: string -> string)
    requires pos <= |html| && Find(html, pos, MARKER).None?
    ensures Scan(html, pos, room, clean) == Some([])
  {
    hide Find, At, MARKER, Absent;
  }

  /** One round of the scan, whether it gets past its marker or not. */
  lemma ScanStep(html: string, pos: nat, room: nat, clean: string -> string)
    requires pos <= |html| && room > 0
    ensures Find(html, pos, MARKER).None? ==> Scan(html, pos, room, clean) == Some([])
    ensures Find(html, pos, MARKER).Some? ==>
              var t := TurnAt(html, Find(html, pos, MARKER).value, clean);
              && Scan(html, pos, room, clean) == Before(Gain(t), Scan(html, t.pos, room - |Gain(t)|, clean))
              && (Scan(html, pos, room, clean).Some? ==> t.pos > pos || Gain(t) != [])
  {
    hide TurnAt, Find, Absent, At, MARKER, Scan, Gain;
    var f := Find(html, pos, MARKER);
    if f.None? {
      ScanEmpty(html, pos, room, clean);
    } else {
      var t := TurnAt(html, f.value, clean);
      if t.pos <= f.value {
        ScanRepeatStep(html, pos, room, t, clean);
      } else {
        ScanAdvances(html, pos, room, t, clean);
      }
    }
  }

  lemma NoRoom(html: string, pos: nat, clean: string -> string)
    requires pos <= |html|
    ensures Scan(html, pos, 0, clean) == Some([])
  {
  }

  // ---- The loop ----

  /** The results that are still to come complete those at hand to `whole`. */
  ghost predicate Completes(results: seq<SearchResult>, rest: seq<SearchResult>, whole: seq<SearchResult>) {
    results + rest == whole
  }

  lemma CompletesOn(
    a: seq<SearchResult>, b: seq<SearchResult>, c: seq<SearchResult>, whole: seq<SearchResult>)
    ensures Completes(a, b + c, whole) ==> Completes(a + b, c, whole)
    ensures Completes(a, [], whole) ==> a == whole
    ensures Completes([], whole, whole)
  {
    assert a + (b + c) == a + b + c && a + [] == a && [] + whole == whole;
  }

  /** `parse_ddg_html`, called on a page on which it comes to an end. Every round advances or fills a place. */
  method ParseDdg(html: string, max: nat, clean: string -> string) returns (results: seq<SearchResult>)
    requires Ends(html, max, clean)
    ensures Scan(html, 0, max, clean) == Some(results)
  {
    EndsIff(html, max, clean);
    hide TurnAt, Find, Scan, Absent, At, MARKER, Completes, Ends, AlwaysWorks;
    results := [];
    var pos: nat := 0;
    ghost var whole := Scan(html, 0, max, clean).value;
    CompletesOn([], [], [], whole);
    while |results| < max
      invariant pos <= |html| && |results| <= max
      invariant Scan(html, pos, max - |results|, clean).Some?
      invariant Completes(results, Scan(html, pos, max - |results|, clean).value, whole)
      decreases max - |results|, |html| - pos
    {
      ScanStep(html, pos, max - |results|, clean);
      var marker := Find(html, pos, MARKER);
      if marker.None? {
        CompletesOn(results, [], [], whole);
        return;
      }
      var turn := Round(html, marker.value, clean);
      CompletesOn(results, Gain(turn), Scan(html, turn.pos, max - |results| - |Gain(turn)|, clean).value, whole);
      pos := turn.pos;
      if turn.Hit? && turn.result.url != "" && turn.result.title != "" {
        results := results + [turn.result];
      } else {
        assert results + [] == results;
      }
    }
    NoRoom(html, pos, clean);
    CompletesOn(results, [], [], whole);
  }

  /** One round for the marker at `m`, up to the decision whether to keep the result. */
  method Round(html: string, m: nat, clean: string -> string) returns (t: Turn)
    requires At(html, m, MARKER)
    ensures t == TurnAt(html, m, clean)
  {
    hide Find, RFind, Href, SnippetFrom, Absent;
    var tagStart := RFind(html, m, "<a ");
    if tagStart.None? {
      return Skip(m + |MARKER|);
    }
    var tagEnd := Find(html, tagStart.value, ">");
    if tagEnd.None? {
      return Skip(m + |MARKER|);
    }
    var url := Href(html[tagStart.value..tagEnd.value]);
    if url.None? {
      return Skip(m + |MARKER|);
    }
    var contentStart := tagEnd.value + 1;
    var titleEnd := Find(html, contentStart, "</a>");
    if titleEnd.None? {
      return Skip(contentStart);
    }
    var title := clean(html[contentStart..titleEnd.value]);
    var (pos, snippet) := SnippetFrom(html, titleEnd.value, clean);
    return Hit(pos, SearchResult(title, url.value, snippet));
  }

  // ---- When the loop ends ----

  /** The variables of the loop. */
  datatype Loop = Loop(pos: nat, results: seq<SearchResult>)

  predicate Over(html: string, max: nat, s: Loop)
    requires s.pos <= |html|
  {
    |s.results| >= max || Find(html, s.pos, MARKER).None?
  }

  function Turned(html: string, max: nat, s: Loop, clean: string -> string): (n: Loop)
    requires s.pos <= |html|
    ensures n.pos <= |html|
  {
    if Over(html, max, s) then s
    else
      var t := TurnAt(html, Find(html, s.pos, MARKER).value, clean);
      Loop(t.pos, s.results + Gain(t))
  }

  /** The variables after so many rounds, or as the loop left them. */
  function Rounds(html: string, max: nat, s: Loop, n: nat, clean: string -> string): (r: Loop)
    requires s.pos <= |html|
    ensures r.pos <= |html|
    decreases n
  {
    if n == 0 then s else Rounds(html, max, Turned(html, max, s, clean), n - 1, clean)
  }

  ghost predicate EndsFrom(html: string, max: nat, s: Loop, clean: string -> string)
    requires s.pos <= |html|
  {
    exists n: nat :: Over(html, max, Rounds(html, max, s, n, clean))
  }

  ghost predicate Ends(html: string, max: nat, clean: string -> string) {
    EndsFrom(html, max, Loop(0, []), clean)
  }

  /** The loop is over, or its next round advances or gains a result. */
  predicate Works(html: string, max: nat, s: Loop, clean: string -> string)
    requires s.pos <= |html|
  {
    Over(html, max, s) ||
    var n := Turned(html, max, s, clean);
    n.pos > s.pos || |n.results| > |s.results|
  }

  ghost predicate WorksFrom(html: string, max: nat, s: Loop, clean: string -> string)
    requires s.pos <= |html|
  {
    forall n: nat :: Works(html, max, Rounds(html, max, s, n, clean), clean)
  }

  /** Every round that is reached advances or gains a result. */
  ghost predicate AlwaysWorks(html: string, max: nat, clean: string -> string) {
    WorksFrom(html, max, Loop(0, []), clean)
  }

  /** However the loop comes to an end from here, these are its results. */
  ghost predicate Yields(html: string, max: nat, s: Loop, clean: string -> string, results: seq<SearchResult>)
    requires s.pos <= |html|
  {
    forall n: nat :: Over(html, max, Rounds(html, max, s, n, clean)) ==>
      Rounds(html, max, s, n, clean).results == results
  }

  lemma {:induction false} RoundsStay(html: string, max: nat, s: Loop, n: nat, clean: string -> string)
    requires s.pos <= |html| && Turned(html, max, s, clean) == s
    ensures Rounds(html, max, s, n, clean) == s
  {
    hide Turned;
    if n > 0 {
      RoundsStay(html, max, s, n - 1, clean);
    }
  }

  /** One round later the loop has the same future. */
  lemma OneRound(html: string, max: nat, s: Loop, clean: string -> string, results: seq<SearchResult>)
    requires s.pos <= |html| && !Over(html, max, s)
    ensures EndsFrom(html, max, s, clean) <==> EndsFrom(html, max, Turned(html, max, s, clean), clean)
    ensures WorksFrom(html, max, s, clean)
       <==> Works(html, max, s, clean) && WorksFrom(html, max, Turned(html, max, s, clean), clean)
    ensures Yields(html, max, Turned(html, max, s, clean), clean, results) ==> Yields(html, max, s, clean, results)
  {
    var t := Turned(html, max, s, clean);
    assert Rounds(html, max, s, 0, clean) == s;
    forall n: nat ensures Rounds(html, max, s, n + 1, clean) == Rounds(html, max, t, n, clean) {}
    hide Turned, Over, Works, Rounds;
    if EndsFrom(html, max, s, clean) {
      var n: nat :| Over(html, max, Rounds(html, max, s, n, clean));
      assert n > 0 && Rounds(html, max, s, n - 1 + 1, clean) == Rounds(html, max, t, n - 1, clean);
    }
    if EndsFrom(html, max, t, clean) {
      var n: nat :| Over(html, max, Rounds(html, max, t, n, clean));
      assert Over(html, max, Rounds(html, max, s, n + 1, clean));
    }
    if WorksFrom(html, max, s, clean) {
      assert Works(html, max, Rounds(html, max, s, 0, clean), clean);
      forall n: nat ensures Works(html, max, Rounds(html, max, t, n, clean), clean) {
        assert Works(html, max, Rounds(html, max, s, n + 1, clean), clean);
      }
    }
    if Works(html, max, s, clean) && WorksFrom(html, max, t, clean) {
      forall n: nat ensures Works(html, max, Rounds(html, max, s, n, clean), clean) {
        assert n > 0 ==> Rounds(html, max, s, n - 1 + 1, clean) == Rounds(html, max, t, n - 1, clean);
      }
    }
    if Yields(html, max, t, clean, results) {
      forall n: nat | Over(html, max, Rounds(html, max, s, n, clean))
        ensures Rounds(html, max, s, n, clean).results == results
      {
        assert n > 0 && Rounds(html, max, s, n - 1 + 1, clean) == Rounds(html, max, t, n - 1, clean);
      }
    }
  }

  lemma OverEnds(html: string, max: nat, s: Loop, clean: string -> string)
    requires s.pos <= |html| && Over(html, max, s)
    ensures EndsFrom(html, max, s, clean) && WorksFrom(html, max, s, clean) && Yields(html, max, s, clean, s.results)
  {
    forall n: nat ensures Rounds(html, max, s, n, clean) == s {
      RoundsStay(html, max, s, n, clean);
    }
    hide Rounds, Over;
    assert Over(html, max, Rounds(html, max, s, 0, clean));
  }

  /** A state that its own round leads back to is never left. */
  lemma StuckForever(html: string, max: nat, s: Loop, clean: string -> string)
    requires s.pos <= |html| && !Over(html, max, s) && Turned(html, max, s, clean) == s
    ensures !EndsFrom(html, max, s, clean) && !WorksFrom(html, max, s, clean)
  {
    forall n: nat ensures Rounds(html, max, s, n, clean) == s {
      RoundsStay(html, max, s, n, clean);
    }
    assert !Works(html, max, s, clean);
    hide Rounds, Over, Works, Turned;
    assert !Works(html, max, Rounds(html, max, s, 0, clean), clean);
  }

  lemma Stalls(html: string, max: nat, s: Loop, clean: string -> string)
    requires s.pos <= |html| && !Over(html, max, s)
    requires var m := Find(html, s.pos, MARKER).value;
             TurnAt(html, m, clean).pos <= m && Gain(TurnAt(html, m, clean)) == []
    ensures var t := Turned(html, max, s, clean);
            !Over(html, max, t) && Turned(html, max, t, clean) == t
  {
    var m := Find(html, s.pos, MARKER).value;
    SameTurn(html, m, clean);
    hide TurnAt, Find, At, Absent, MARKER, Gain;
    assert s.results + [] == s.results;
  }

  /** The scan decides whether the loop ends, and gives its results. */
  lemma {:induction false} ScanDecides(html: string, max: nat, s: Loop, clean: string -> string)
    requires s.pos <= |html| && |s.results| <= max
    ensures var r := Scan(html, s.pos, max - |s.results|, clean);
            && (EndsFrom(html, max, s, clean) <==> r.Some?)
            && (WorksFrom(html, max, s, clean) <==> r.Some?)
            && (r.Some? ==> Yields(html, max, s, clean, s.results + r.value))
    decreases max - |s.results|, |html| - s.pos
  {
    hide TurnAt, Find, Scan, At, Absent, MARKER, Gain, EndsFrom, WorksFrom, Yields, Rounds;
    var room := max - |s.results|;
    if room == 0 || Find(html, s.pos, MARKER).None? {
      if room == 0 {
        NoRoom(html, s.pos, clean);
      } else {
        ScanStep(html, s.pos, room, clean);
      }
      OverEnds(html, max, s, clean);
      assert s.results + [] == s.results;
    } else {
      var m := Find(html, s.pos, MARKER).value;
      var t := TurnAt(html, m, clean);
      var next := Turned(html, max, s, clean);
      ScanStep(html, s.pos, room, clean);
      if t.pos > m || Gain(t) != [] {
        ScanDecides(html, max, next, clean);
        var rest := Scan(html, t.pos, room - |Gain(t)|, clean);
        OneRound(html, max, s, clean, next.results + if rest.Some? then rest.value else []);
        assert rest.Some? ==> s.results + (Gain(t) + rest.value) == next.results + rest.value;
      } else {
        ScanStuck(html, s.pos, room, clean);
        Stalls(html, max, s, clean);
        StuckForever(html, max, next, clean);
        OneRound(html, max, s, clean, []);
      }
    }
  }

  lemma ScanStuck(html: string, pos: nat, room: nat, clean: string -> string)
    requires pos <= |html| && room > 0 && Find(html, pos, MARKER).Some?
    requires var m := Find(html, pos, MARKER).value;
             TurnAt(html, m, clean).pos <= m && Gain(TurnAt(html, m, clean)) == []
    ensures Scan(html, pos, room, clean) == None
  {
  }

  /** For every page and every limit: the loop ends exactly when every round that it reaches advances or
      gains a result, and exactly when the scan has an answer; that answer is what it returns. */
  lemma {:induction false} EndsIff(html: string, max: nat, clean: string -> string)
    ensures Ends(html, max, clean) <==> AlwaysWorks(html, max, clean)
    ensures Ends(html, max, clean) <==> Scan(html, 0, max, clean).Some?
    ensures Ends(html, max, clean) ==> Yields(html, max, Loop(0, []), clean, Scan(html, 0, max, clean).value)
  {
    hide EndsFrom, WorksFrom, Yields, Scan;
    ScanDecides(html, max, Loop(0, []), clean);
    var r := Scan(html, 0, max, clean);
    assert r.Some? ==> [] + r.value == r.value;
  }

  // ---- Pages on which it ends ----

  /** Every marker lies inside its own opening tag: the last `<a ` before it is not closed before it. */
  predicate WellTagged(html: string) {
    forall m :: 0 <= m <= |html| && At(html, m, MARKER) ==> InOwnTag(html, m)
  }

  predicate InOwnTag(html: string, m: nat)
    requires m <= |html|
  {
    match RFind(html, m, "<a ")
    case None => true
    case Some(start) => forall j :: start <= j < m ==> html[j] != '>'
  }

  lemma TaggedAdvances(html: string, m: nat, clean: string -> string)
    requires m <= |html| && At(html, m, MARKER) && InOwnTag(html, m)
    ensures TurnAt(html, m, clean).pos > m
  {
    var start := RFind(html, m, "<a ");
    if start.Some? {
      var gt := Find(html, start.value, ">");
      if gt.Some? {
        AtHead(html, gt.value, ">");
      }
    }
  }

  /** On well tagged pages every round gets past its marker, so that the loop ends whatever the limit. */
  lemma {:induction false} WellTaggedScans(html: string, pos: nat, room: nat, clean: string -> string)
    requires WellTagged(html) && pos <= |html|
    ensures Scan(html, pos, room, clean).Some?
    decreases |html| - pos
  {
    hide TurnAt, At, InOwnTag, Gain;
    var m := Find(html, pos, MARKER);
    if room > 0 && m.Some? {
      AtInRange(html, m.value, MARKER);
      TaggedAdvances(html, m.value, clean);
      var t := TurnAt(html, m.value, clean);
      WellTaggedScans(html, t.pos, room - |Gain(t)|, clean);
    }
  }

  lemma WellTaggedEnds(html: string, max: nat, clean: string -> string)
    requires WellTagged(html)
    ensures Ends(html, max, clean)
  {
    WellTaggedScans(html, 0, max, clean);
    EndsIff(html, max, clean);
  }

  // ---- What comes out ----

  predicate Sound(r: SearchResult) {
    r.url != "" && r.title != "" && |r.snippet| <= 203
  }

  predicate AllSound(s: seq<SearchResult>) {
    forall i :: 0 <= i < |s| ==> Sound(s[i])
  }

  lemma ShortSnippet(html: string, m: nat, clean: string -> string)
    requires At(html, m, MARKER)
    ensures var t := TurnAt(html, m, clean); t.Hit? ==> |t.result.snippet| <= 203
  {
    hide Find, RFind, Href, Absent;
  }

  lemma AllSoundConcat(a: seq<SearchResult>, b: seq<SearchResult>)
    requires AllSound(b)
    ensures AllSound(a) ==> AllSound(a + b)
  {
  }

  /** At most `max` results, each with a link and a title, and with a snippet of bounded length. */
  lemma {:induction false} ScanBounded(html: string, pos: nat, room: nat, clean: string -> string)
    requires pos <= |html| && Scan(html, pos, room, clean).Some?
    ensures |Scan(html, pos, room, clean).value| <= room
    ensures AllSound(Scan(html, pos, room, clean).value)
    decreases room, |html| - pos
  {
    hide TurnAt, Find, Scan, Absent, At, MARKER;
    if room == 0 {
      NoRoom(html, pos, clean);
    } else {
      ScanStep(html, pos, room, clean);
      if Find(html, pos, MARKER).Some? {
        var t := TurnAt(html, Find(html, pos, MARKER).value, clean);
        ShortSnippet(html, Find(html, pos, MARKER).value, clean);
        ScanBounded(html, t.pos, room - |Gain(t)|, clean);
        AllSoundConcat(Gain(t), Scan(html, t.pos, room - |Gain(t)|, clean).value);
      }
    }
  }

  predicate Begins<T(==)>(a: seq<T>, b: seq<T>) {
    |a| <= |b| && forall i :: 0 <= i < |a| ==> b[i] == a[i]
  }

  lemma LongerTail<T>(a: seq<T>, b: seq<T>, c: seq<T>)
    requires Begins(b, c)
    ensures Begins(a + b, a + c)
  {
  }

  /** If the loop ends for a limit, then also for every lower one, with the beginning of the results. */
  lemma {:induction false} ScanGrows(html: string, pos: nat, room: nat, more: nat, clean: string -> string)
    requires pos <= |html| && room <= more && Scan(html, pos, more, clean).Some?
    ensures Scan(html, pos, room, clean).Some?
    ensures Begins(Scan(html, pos, room, clean).value, Scan(html, pos, more, clean).value)
    decreases room, |html| - pos
  {
    hide TurnAt, Find, Scan, Absent, At, MARKER;
    if room == 0 {
      NoRoom(html, pos, clean);
    } else {
      ScanStep(html, pos, room, clean);
      ScanStep(html, pos, more, clean);
      if Find(html, pos, MARKER).Some? {
        var t := TurnAt(html, Find(html, pos, MARKER).value, clean);
        hide Gain;
        ScanGrows(html, t.pos, room - |Gain(t)|, more - |Gain(t)|, clean);
        LongerTail(Gain(t), Scan(html, t.pos, room - |Gain(t)|, clean).value,
                   Scan(html, t.pos, more - |Gain(t)|, clean).value);
      }
    }
  }
}
