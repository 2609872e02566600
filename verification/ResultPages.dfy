/** What the scanner reads off pages in the format that it is written for, and off one that it is not. */
module ResultPages {
  import opened Wrappers
  import opened Scanner

  datatype Entry = Entry(url: string, title: string, snippet: string)

  const OPEN := "<a " + MARKER + " " + "href=\""
  const CELL := "</a>" + "<td " + SNIPPET + ">"

  /** The format, letter by letter. */
  lemma Format()
    ensures OPEN == "<a class='result-link' href=\"" && CELL == "</a><td class='result-snippet'>"
    ensures MARKER == "class='result-link'"
  {
  }

  /** An entry in the format that the scanner is for. */
  function Printed(e: Entry): string {
    OPEN + e.url + "\">" + e.title + CELL + e.snippet + "</td>"
  }

  /** What stands on a page: entries, and links that have a marker but no `href`. */
  datatype Item = Good(e: Entry) | NoLink(attrs: string, title: string)

  function PrintedItem(item: Item): string {
    match item
    case Good(e) => Printed(e)
    case NoLink(attrs, title) => "<a " + MARKER + (attrs + (">" + (title + "</a>")))
  }

  function Page(items: seq<Item>): string {
    if items == [] then "" else PrintedItem(items[0]) + Page(items[1..])
  }

  /** A text in which the markup characters are escaped. */
  predicate Escaped(s: string) {
    forall i :: 0 <= i < |s| ==> s[i] != '<' && s[i] != '>' && s[i] != '"' && s[i] != '\''
  }

  predicate EscapedEntry(e: Entry) {
    Escaped(e.url) && Escaped(e.title) && Escaped(e.snippet)
  }

  /** The text is nowhere in the other one. */
  predicate Without(s: string, p: string) {
    Absent(s, 0, |s| + 1, p)
  }

  predicate Harmless(item: Item) {
    match item
    case Good(e) => EscapedEntry(e)
    case NoLink(attrs, title) =>
      && Lacks(attrs, '<') && Lacks(attrs, '>') && Without(attrs, "href=\"") && Without(attrs, MARKER)
      && Lacks(title, '<') && Without(title, MARKER)
  }

  function ResultOf(e: Entry, clean: string -> string): SearchResult {
    SearchResult(clean(e.title), e.url, Truncated(clean(e.snippet), 200))
  }

  /** The good entries with a link and a title, in order. */
  function Results(items: seq<Item>, clean: string -> string): seq<SearchResult> {
    if items == [] then []
    else
      var rest := Results(items[1..], clean);
      match items[0]
      case Good(e) => if e.url == "" || clean(e.title) == "" then rest else [ResultOf(e, clean)] + rest
      case NoLink(_, _) => rest
  }

  /** The pieces of an entry, in place. */
  lemma Pieces(html: string, i: nat, e: Entry)
    requires At(html, i, Printed(e))
    ensures var u := i + |OPEN|;
            var t := u + |e.url| + 2;
            var c := t + |e.title|;
            var n := c + |CELL|;
            && At(html, i, OPEN) && At(html, u, e.url) && At(html, u + |e.url|, "\">") && At(html, t, e.title)
            && At(html, c, CELL) && At(html, n, e.snippet) && At(html, n + |e.snippet|, "</td>")
            && |Printed(e)| == n + |e.snippet| + 5 - i
  {
    var a := OPEN + e.url;
    var b := a + "\">";
    var c := b + e.title;
    var d := c + CELL;
    var f := d + e.snippet;
    assert Printed(e) == f + "</td>";
    hide Printed, At, OPEN, CELL;
    AtSplit(html, i, f, "</td>");
    AtSplit(html, i, d, e.snippet);
    AtSplit(html, i, c, CELL);
    AtSplit(html, i, b, e.title);
    AtSplit(html, i, a, "\">");
    AtSplit(html, i, OPEN, e.url);
  }

  /** No character of a piece is `c`. */
  predicate Lacks(p: string, c: char) {
    forall k :: 0 <= k < |p| ==> p[k] != c
  }

  predicate ClearOf(s: string, from: nat, to: nat, c: char) {
    to <= |s| && forall k :: from <= k < to ==> s[k] != c
  }

  lemma ClearPiece(s: string, i: nat, p: string, c: char)
    requires At(s, i, p) && Lacks(p, c)
    ensures ClearOf(s, i, i + |p|, c)
  {
    forall k | i <= k < i + |p| ensures s[k] != c {
      AtChar(s, i, p, k);
    }
  }

  lemma ClearOn(s: string, i: nat, j: nat, k: nat, c: char)
    requires ClearOf(s, i, j, c) && ClearOf(s, j, k, c)
    ensures ClearOf(s, i, k, c)
  {
  }

  /** The first occurrence after a stretch without its first character. */
  lemma FindClear(s: string, from: nat, p: string, i: nat)
    requires from <= i <= |s| && p != "" && At(s, i, p) && ClearOf(s, from, i, p[0])
    ensures Find(s, from, p) == Some(i)
  {
    FindIs(s, from, p, i);
  }

  lemma Literals()
    ensures |MARKER| == 19 && |SNIPPET| == 22 && |OPEN| == 29 && |CELL| == 31
    ensures MARKER[0] == 'c' && SNIPPET[0] == 'c'
    ensures Lacks("<a ", '>') && Lacks("<a ", 'h') && Lacks("<a ", 'c')
    ensures Lacks(MARKER, '>') && Lacks(MARKER, 'h') && Lacks(" ", '>') && Lacks(" ", 'h')
    ensures Lacks("href=\"", '>') && Lacks("\"", '>')
    ensures Lacks("</a>", 'c') && Lacks("<td ", 'c') && Lacks(SNIPPET, '>') && Lacks("</td>", 'c')
  {
  }

  /** The pieces of the opening tag. */
  lemma OpenPieces(html: string, i: nat)
    requires At(html, i, OPEN)
    ensures At(html, i, "<a ") && At(html, i + 3, MARKER) && At(html, i + 22, " ") && At(html, i + 23, "href=\"")
    ensures |OPEN| == 29
  {
    Literals();
    assert |"<a "| == 3 && |" "| == 1;
    hide MARKER, At;
    AtSplit(html, i, "<a " + MARKER + " ", "href=\"");
    AtSplit(html, i, "<a " + MARKER, " ");
    AtSplit(html, i, "<a ", MARKER);
  }

  lemma CellPieces(html: string, i: nat)
    requires At(html, i, CELL)
    ensures At(html, i, "</a>") && At(html, i + 4, "<td ") && At(html, i + 8, SNIPPET) && At(html, i + 30, ">")
    ensures |CELL| == 31
  {
    Literals();
    assert |"</a>"| == 4 && |"<td "| == 4;
    hide SNIPPET, At;
    AtSplit(html, i, "</a>" + "<td " + SNIPPET, ">");
    AtSplit(html, i, "</a>" + "<td ", SNIPPET);
    AtSplit(html, i, "</a>", "<td ");
  }

  lemma TagStart(html: string, i: nat)
    requires i + 3 <= |html| && At(html, i, "<a ")
    ensures RFind(html, i + 3, "<a ") == Some(i)
  {
  }

  lemma AtWithin(s: string, i: nat, j: nat, k: nat, p: string)
    requires i <= j <= |s| && At(s, i + k, p) && i + k + |p| <= j
    ensures At(s[i..j], k, p)
  {
    forall m | 0 <= m < |p| ensures s[i..j][k + m] == p[m] {
      AtChar(s, i + k, p, i + k + m);
    }
    AtIs(s[i..j], k, p);
  }

  lemma AtSlice(s: string, i: nat, p: string)
    requires At(s, i, p)
    ensures i + |p| <= |s| && s[i..i + |p|] == p
  {
  }

  lemma EscapedLacks(s: string)
    requires Escaped(s)
    ensures Lacks(s, '<') && Lacks(s, '>') && Lacks(s, '"') && Lacks(s, '\'')
  {
  }

  lemma SliceWithin(s: string, i: nat, j: nat, k: nat, p: string)
    requires i <= j <= |s| && At(s, i + k, p) && i + k + |p| <= j
    ensures s[i..j][k..k + |p|] == p
  {
    AtWithin(s, i, j, k, p);
  }

  lemma ClearWithin(s: string, i: nat, j: nat, k: nat, n: nat, c: char)
    requires i <= j <= |s| && k <= n && i + n <= j && ClearOf(s, i + k, i + n, c)
    ensures ClearOf(s[i..j], k, n, c)
  {
    forall m | k <= m < n ensures s[i..j][m] != c {
      assert s[i..j][m] == s[i + m];
    }
  }

  /** A tag with a link ends at its own bracket. */
  lemma TagEndsAt(html: string, i: nat, url: string)
    requires At(html, i, OPEN) && At(html, i + 29, url) && At(html, i + 29 + |url|, "\"") &&
        At(html, i + 30 + |url|, ">")
    requires Escaped(url)
    ensures i + 30 + |url| < |html| && Find(html, i, ">") == Some(i + 30 + |url|)
  {
    hide OPEN, MARKER, SNIPPET, CELL, Find, At, Lacks, ClearOf, Escaped;
    OpenPieces(html, i);
    Literals();
    var u := i + 29;
    var q := u + |url|;
    EscapedLacks(url);
    ClearPiece(html, i, "<a ", '>');
    ClearPiece(html, i + 3, MARKER, '>');
    ClearPiece(html, i + 22, " ", '>');
    ClearPiece(html, i + 23, "href=\"", '>');
    ClearPiece(html, u, url, '>');
    ClearPiece(html, q, "\"", '>');
    ClearOn(html, i, i + 3, i + 22, '>');
    ClearOn(html, i, i + 22, i + 23, '>');
    ClearOn(html, i, i + 23, u, '>');
    ClearOn(html, i, u, q, '>');
    ClearOn(html, i, q, q + 1, '>');
    AtInRange(html, q + 1, ">");
    FindClear(html, i, ">", q + 1);
  }

  lemma TagEnds(html: string, i: nat, e: Entry)
    requires At(html, i, Printed(e)) && EscapedEntry(e)
    ensures i + 29 + |e.url| + 1 < |html| && Find(html, i, ">") == Some(i + 29 + |e.url| + 1)
  {
    hide Printed, OPEN, Find, At, Escaped;
    Pieces(html, i, e);
    OpenPieces(html, i);
    AtSplit(html, i + 29 + |e.url|, "\"", ">") by { assert "\">" == "\"" + ">"; }
    TagEndsAt(html, i, e.url);
  }

  /** Its link is what stands between the quotes. */
  lemma LinkAt(html: string, i: nat, url: string)
    requires At(html, i, OPEN) && At(html, i + 29, url) && At(html, i + 29 + |url|, "\"") && Escaped(url)
    ensures i + 30 + |url| <= |html| && Href(html[i..i + 30 + |url|]) == Some(url)
  {
    hide OPEN, MARKER, SNIPPET, CELL, Find, At, Lacks, ClearOf, Escaped;
    OpenPieces(html, i);
    Literals();
    var end := 29 + |url|;
    var j := i + end + 1;
    AtInRange(html, i + end, "\"");
    assert "href=\""[0] == 'h';
    EscapedLacks(url);
    SliceWithin(html, i, j, 29, url);
    ClearPiece(html, i, "<a ", 'h');
    ClearPiece(html, i + 3, MARKER, 'h');
    ClearPiece(html, i + 22, " ", 'h');
    ClearOn(html, i, i + 3, i + 22, 'h');
    ClearOn(html, i, i + 22, i + 23, 'h');
    ClearPiece(html, i + 29, url, '"');
    var tag := html[i..j];
    AtWithin(html, i, j, 23, "href=\"");
    AtWithin(html, i, j, end, "\"");
    ClearWithin(html, i, j, 0, 23, 'h');
    ClearWithin(html, i, j, 29, end, '"');
    FindClear(tag, 0, "href=\"", 23);
    FindClear(tag, 29, "\"", end);
  }

  lemma LinkFound(html: string, i: nat, e: Entry)
    requires At(html, i, Printed(e)) && EscapedEntry(e)
    ensures i + 29 + |e.url| + 1 <= |html| && Href(html[i..i + 29 + |e.url| + 1]) == Some(e.url)
  {
    hide Printed, OPEN, Href, At, Escaped;
    Pieces(html, i, e);
    OpenPieces(html, i);
    AtSplit(html, i + 29 + |e.url|, "\"", ">") by { assert "\">" == "\"" + ">"; }
    LinkAt(html, i, e.url);
  }

  /** The title and the snippet of an entry. */
  lemma TitleFound(html: string, i: nat, e: Entry)
    requires At(html, i, Printed(e)) && EscapedEntry(e)
    ensures var t := i + 31 + |e.url|;
            && t + |e.title| <= |html| && html[t..t + |e.title|] == e.title
            && Find(html, t, "</a>") == Some(t + |e.title|)
  {
    hide Printed, OPEN, CELL, Find, At, Lacks, ClearOf, Escaped;
    Pieces(html, i, e);
    OpenPieces(html, i);
    var t := i + 31 + |e.url|;
    var c := t + |e.title|;
    CellPieces(html, c);
    EscapedLacks(e.title);
    AtSlice(html, t, e.title);
    AtInRange(html, c, "</a>");
    ClearPiece(html, t, e.title, '<');
    FindClear(html, t, "</a>", c);
  }

  lemma SnippetFound(html: string, c: nat, snippet: string, clean: string -> string)
    requires At(html, c, CELL) && At(html, c + 31, snippet) && At(html, c + 31 + |snippet|, "</td>") && Escaped(snippet)
    ensures c <= |html| && SnippetFrom(html, c, clean) == (c + 31 + |snippet|, Truncated(clean(snippet), 200))
  {
    hide CELL, SNIPPET, MARKER, OPEN, Find, At, Lacks, ClearOf, Truncated, Escaped;
    CellPieces(html, c);
    Literals();
    var n := c + 31;
    EscapedLacks(snippet);
    AtSlice(html, n, snippet);
    AtInRange(html, n + |snippet|, "</td>");
    ClearPiece(html, c, "</a>", 'c');
    ClearPiece(html, c + 4, "<td ", 'c');
    ClearOn(html, c, c + 4, c + 8, 'c');
    ClearPiece(html, c + 8, SNIPPET, '>');
    ClearPiece(html, n, snippet, '<');
    FindClear(html, c, SNIPPET, c + 8);
    FindClear(html, c + 8, ">", c + 30);
    FindClear(html, n, "</td>", n + |snippet|);
  }

  lemma MarkerPlace(html: string, i: nat, e: Entry)
    requires At(html, i, Printed(e))
    ensures At(html, i + 3, MARKER) && i + 3 <= |html| && RFind(html, i + 3, "<a ") == Some(i)
  {
    Pieces(html, i, e);
    OpenPieces(html, i);
    AtInRange(html, i, "<a ");
    hide Printed, OPEN, MARKER, At;
    TagStart(html, i);
  }

  lemma EntryTurn(html: string, i: nat, e: Entry, clean: string -> string)
    requires At(html, i, Printed(e)) && EscapedEntry(e)
    ensures At(html, i + 3, MARKER)
    ensures TurnAt(html, i + 3, clean) == Hit(i + |Printed(e)| - 5, ResultOf(e, clean))
  {
    hide Printed, Find, RFind, Href, SnippetFrom, At, MARKER, OPEN, CELL, Truncated, Escaped, Absent;
    MarkerPlace(html, i, e);
    TagEnds(html, i, e);
    LinkFound(html, i, e);
    TitleFound(html, i, e);
    EntrySnippet(html, i, e, clean);
    TurnHit(html, i + 3, i, i + 30 + |e.url|, e.url, i + 31 + |e.url| + |e.title|, clean);
  }

  /** A round that finds everything. */
  lemma TurnHit(html: string, m: nat, start: nat, gt: nat, url: string, end: nat, clean: string -> string)
    requires At(html, m, MARKER) && m <= |html| && RFind(html, m, "<a ") == Some(start)
    requires start <= gt < end <= |html| && Find(html, start, ">") == Some(gt) && Href(html[start..gt]) == Some(url)
    requires Find(html, gt + 1, "</a>") == Some(end)
    ensures TurnAt(html, m, clean)
         == Hit(SnippetFrom(html, end, clean).0,
           SearchResult(clean(html[gt + 1..end]), url, SnippetFrom(html, end, clean).1))
  {
    hide Find, RFind, Href, SnippetFrom, At, MARKER, Absent;
  }

  lemma EntrySnippet(html: string, i: nat, e: Entry, clean: string -> string)
    requires At(html, i, Printed(e)) && EscapedEntry(e)
    ensures var c := i + 31 + |e.url| + |e.title|;
            && c <= |html|
            && SnippetFrom(html, c, clean) == (i + |Printed(e)| - 5, Truncated(clean(e.snippet), 200))
  {
    hide Printed, SnippetFrom, At, MARKER, SNIPPET, OPEN, CELL, Truncated, Lacks, Escaped;
    Pieces(html, i, e);
    Literals();
    SnippetFound(html, i + 31 + |e.url| + |e.title|, e.snippet, clean);
  }

  // ---- Items without a link ----

  lemma NoLinkPieces(html: string, i: nat, attrs: string, title: string)
    requires At(html, i, PrintedItem(NoLink(attrs, title)))
    ensures var g := i + 22 + |attrs|;
            && At(html, i, "<a ") && At(html, i + 3, MARKER) && At(html, i + 22, attrs) && At(html, g, ">")
            && At(html, g + 1, title) && At(html, g + 1 + |title|, "</a>")
            && |PrintedItem(NoLink(attrs, title))| == 22 + |attrs| + 1 + |title| + 4
  {
    Literals();
    assert |"<a "| == 3;
    hide MARKER, At;
    AtSplit(html, i, "<a " + MARKER, attrs + (">" + (title + "</a>")));
    AtSplit(html, i, "<a ", MARKER);
    AtSplit(html, i + 22, attrs, ">" + (title + "</a>"));
    AtSplit(html, i + 22 + |attrs|, ">", title + "</a>");
    AtSplit(html, i + 23 + |attrs|, title, "</a>");
  }

  /** A text that stands inside of a stretch stands in the piece that the stretch is. */
  lemma AtFrom(s: string, i: nat, p: string, j: nat, q: string)
    requires At(s, i, p) && At(s, j, q) && i <= j && j + |q| <= i + |p|
    ensures At(p, j - i, q)
  {
    forall k | 0 <= k < |q| ensures p[j - i + k] == q[k] {
      AtChar(s, i, p, j + k);
      AtChar(s, j, q, j + k);
    }
    AtIs(p, j - i, q);
  }

  /** A marker never reaches over a bracket. */
  lemma MarkerWithin(html: string, j: nat, k: nat)
    requires At(html, j, MARKER) && k < |html| && (html[k] == '<' || html[k] == '>')
    ensures k < j || j + 19 <= k
  {
    Literals();
    MarkerBrackets();
    hide MARKER;
    if j <= k < j + 19 {
      AtChar(html, j, MARKER, k);
    }
  }

  lemma MarkerBrackets()
    ensures Lacks(MARKER, '<') && Lacks(MARKER, '>')
  {
  }

  /** No marker begins in a piece that has none and ends before a bracket or the end of the page. */
  lemma PieceWithout(html: string, i: nat, p: string)
    requires At(html, i, p) && Without(p, MARKER)
    requires i + |p| < |html| ==> html[i + |p|] == '<' || html[i + |p|] == '>'
    ensures i + |p| <= |html| && Absent(html, i, i + |p|, MARKER)
  {
    Literals();
    AtFits(html, i, p);
    hide MARKER, At;
    forall j | i <= j < i + |p| ensures !At(html, j, MARKER) {
      if At(html, j, MARKER) {
        AtFits(html, j, MARKER);
        if i + |p| < |html| {
          MarkerWithin(html, j, i + |p|);
        }
        AtFrom(html, i, p, j, MARKER);
      }
    }
  }

  lemma AtFits(s: string, i: nat, p: string)
    requires At(s, i, p)
    ensures i + |p| <= |s|
  {
  }

  lemma AbsentOn(s: string, i: nat, j: nat, k: nat, p: string)
    requires Absent(s, i, j, p) && Absent(s, j, k, p)
    ensures Absent(s, i, k, p)
  {
  }

  /** What starts with another character than the marker does not start with it. */
  lemma NotHere(s: string, i: nat, n: nat, p: string)
    requires At(s, i, p) && Lacks(p, 'c') && n == i + |p|
    ensures Absent(s, i, n, MARKER)
  {
    Literals();
    hide MARKER;
    forall j | i <= j < n ensures !At(s, j, MARKER) {
      AtChar(s, i, p, j);
      AtHead(s, j, MARKER);
    }
  }

  lemma MoreLiterals()
    ensures Lacks(">", 'c') && Lacks("</a>", 'c') && Lacks("<a ", 'c') && Lacks("</td>", 'c') && "href=\""[0] == 'h'
    ensures |"</a>"| == 4 && "</a>"[0] == '<' && |">"| == 1 && ">"[0] == '>' && |"<a "| == 3 && "<a "[0] == '<'
  {
  }

  /** Behind its own marker such an item has no other one. */
  lemma NoLinkQuiet(html: string, i: nat, attrs: string, title: string)
    requires At(html, i, PrintedItem(NoLink(attrs, title))) && Harmless(NoLink(attrs, title))
    ensures var n := i + |PrintedItem(NoLink(attrs, title))|;
            n <= |html| && i + 22 <= n && Absent(html, i + 22, n, MARKER)
  {
    hide PrintedItem, MARKER, At, Lacks, Without, Absent, Harmless;
    HarmlessTexts(attrs, title);
    NoLinkPieces(html, i, attrs, title);
    RestQuiet(html, i + 22, attrs, title);
  }

  lemma HarmlessTexts(attrs: string, title: string)
    requires Harmless(NoLink(attrs, title))
    ensures Without(attrs, MARKER) && Without(title, MARKER)
  {
    hide Without, MARKER;
  }

  lemma RestQuiet(html: string, i: nat, attrs: string, title: string)
    requires At(html, i, attrs) && At(html, i + |attrs|, ">")
    requires At(html, i + |attrs| + 1, title) && At(html, i + |attrs| + 1 + |title|, "</a>")
    requires Without(attrs, MARKER) && Without(title, MARKER)
    ensures var n := i + |attrs| + 1 + |title| + 4; n <= |html| && Absent(html, i, n, MARKER)
  {
    hide MARKER, At, Lacks, Without, Absent;
    MoreLiterals();
    var g := i + |attrs|;
    var c := g + 1 + |title|;
    AtChar(html, g, ">", g);
    AtChar(html, c, "</a>", c);
    AtInRange(html, c, "</a>");
    PieceWithout(html, i, attrs);
    NotHere(html, g, g + 1, ">");
    PieceWithout(html, g + 1, title);
    NotHere(html, c, c + 4, "</a>");
    AbsentOn(html, i, g, g + 1, MARKER);
    AbsentOn(html, i, g + 1, c, MARKER);
    AbsentOn(html, i, c, c + 4, MARKER);
  }

  /** A tag without a link is skipped with its marker, and no further. */
  lemma NoLinkTurn(html: string, i: nat, attrs: string, title: string, clean: string -> string)
    requires At(html, i, PrintedItem(NoLink(attrs, title))) && Harmless(NoLink(attrs, title))
    ensures At(html, i + 3, MARKER) && TurnAt(html, i + 3, clean) == Skip(i + 22)
  {
    NoLinkPieces(html, i, attrs, title);
    Literals();
    MoreLiterals();
    var g := i + 22 + |attrs|;
    hide PrintedItem, MARKER, At, Lacks, Find, RFind, Href, SnippetFrom, Absent, ClearOf, Without;
    AtInRange(html, g, ">");
    AtInRange(html, i, "<a ");
    TagStart(html, i);
    ClearPiece(html, i, "<a ", '>');
    ClearPiece(html, i + 3, MARKER, '>');
    ClearPiece(html, i + 22, attrs, '>');
    ClearOn(html, i, i + 3, i + 22, '>');
    ClearOn(html, i, i + 22, g, '>');
    FindClear(html, i, ">", g);
    NoHref(html, i, attrs);
    TurnSkips(html, i + 3, i, g, clean);
  }

  lemma TurnSkips(html: string, m: nat, start: nat, gt: nat, clean: string -> string)
    requires At(html, m, MARKER) && m <= |html| && RFind(html, m, "<a ") == Some(start)
    requires start <= gt < |html| && Find(html, start, ">") == Some(gt) && Href(html[start..gt]) == None
    ensures TurnAt(html, m, clean) == Skip(m + |MARKER|)
  {
    hide Find, RFind, Href, SnippetFrom, At, MARKER, Absent;
  }

  lemma NoHref(html: string, i: nat, attrs: string)
    requires At(html, i, "<a ") && At(html, i + 3, MARKER) && At(html, i + 22, attrs) && Without(attrs, "href=\"")
    ensures i + 22 + |attrs| <= |html| && Href(html[i..i + 22 + |attrs|]) == None
  {
    Literals();
    MoreLiterals();
    var j := i + 22 + |attrs|;
    AtFits(html, i + 22, attrs);
    var tag := html[i..j];
    hide MARKER, At, Find, Lacks;
    ClearPiece(html, i, "<a ", 'h');
    ClearPiece(html, i + 3, MARKER, 'h');
    ClearOn(html, i, i + 3, i + 22, 'h');
    ClearWithin(html, i, j, 0, 22, 'h');
    AtWithin(html, i, j, 22, attrs);
    forall k | 0 <= k <= |tag| ensures !At(tag, k, "href=\"") {
      AtHead(tag, k, "href=\"");
      if k >= 22 && At(tag, k, "href=\"") {
        AtFits(tag, k, "href=\"");
        AtFrom(tag, 22, attrs, k, "href=\"");
      }
    }
    FindNone(tag, 0, "href=\"");
  }

  // ---- Reading a page ----

  /** The first item from here on: no marker begins before its own. */
  lemma NextMarker(html: string, pos: nat, i: nat)
    requires pos <= i && Absent(html, pos, i, MARKER) && At(html, i, "<a ") && At(html, i + 3, MARKER)
    ensures i + 3 <= |html| && Find(html, pos, MARKER) == Some(i + 3)
  {
    Literals();
    MoreLiterals();
    AtFits(html, i + 3, MARKER);
    hide MARKER, Find, Lacks, Absent, At;
    NotHere(html, i, i + 3, "<a ");
    AbsentOn(html, pos, i, i + 3, MARKER);
    FindAbsent(html, pos, MARKER, i + 3);
  }

  lemma FindAbsent(s: string, from: nat, p: string, i: nat)
    requires from <= i <= |s| && At(s, i, p) && Absent(s, from, i, p)
    ensures Find(s, from, p) == Some(i)
  {
  }

  /** A round leads from a place before an item to one behind its marker, with what the item gives. */
  lemma ItemTurn(html: string, pos: nat, i: nat, item: Item, clean: string -> string) returns (t: Turn)
    requires pos <= i && Absent(html, pos, i, MARKER) && At(html, i, PrintedItem(item)) && Harmless(item)
    ensures var n := i + |PrintedItem(item)|;
            && n <= |html| && i + 3 <= |html| && Find(html, pos, MARKER) == Some(i + 3)
            && At(html, i + 3, MARKER) && t == TurnAt(html, i + 3, clean)
            && t.pos <= n && Absent(html, t.pos, n, MARKER)
            && Gain(t) == GainOf(item, clean)
  {
    match item
    case Good(e) =>
      hide Printed, TurnAt, Find, At, MARKER, Absent, Truncated;
      EntryTurn(html, i, e, clean);
      MarkerPlace(html, i, e);
      EntryStart(html, i, e);
      NextMarker(html, pos, i);
      EndOfEntry(html, i, e);
      t := TurnAt(html, i + 3, clean);
    case NoLink(attrs, title) =>
      hide TurnAt, Find, At, MARKER, Absent, PrintedItem;
      NoLinkPieces(html, i, attrs, title);
      NoLinkTurn(html, i, attrs, title, clean);
      NoLinkQuiet(html, i, attrs, title);
      NextMarker(html, pos, i);
      t := TurnAt(html, i + 3, clean);
  }

  function GainOf(item: Item, clean: string -> string): seq<SearchResult> {
    match item
    case Good(e) => if e.url == "" || clean(e.title) == "" then [] else [ResultOf(e, clean)]
    case NoLink(_, _) => []
  }

  lemma EntryStart(html: string, i: nat, e: Entry)
    requires At(html, i, Printed(e))
    ensures At(html, i, "<a ")
  {
    Pieces(html, i, e);
    OpenPieces(html, i);
  }

  lemma EndOfEntry(html: string, i: nat, e: Entry)
    requires At(html, i, Printed(e))
    ensures |Printed(e)| >= 5 && i + |Printed(e)| <= |html|
    ensures Absent(html, i + |Printed(e)| - 5, i + |Printed(e)|, MARKER)
  {
    Pieces(html, i, e);
    MoreLiterals();
    assert |"</td>"| == 5;
    hide Printed, At, Lacks, MARKER, Absent;
    AtFits(html, i + |Printed(e)| - 5, "</td>");
    NotHere(html, i + |Printed(e)| - 5, i + |Printed(e)|, "</td>");
  }

  function UpTo<T>(s: seq<T>, n: nat): seq<T> {
    if |s| <= n then s else s[..n]
  }

  lemma UpToAppend<T>(a: seq<T>, b: seq<T>, n: nat)
    requires |a| <= n
    ensures UpTo(a + b, n) == a + UpTo(b, n - |a|)
  {
  }

  /** From every place before `end` that has no marker in between, the scan gives these results. */
  ghost predicate Gives(html: string, end: nat, results: seq<SearchResult>, clean: string -> string) {
    forall pos: nat, room: nat :: pos <= end <= |html| && Absent(html, pos, end, MARKER) ==>
      Scan(html, pos, room, clean) == Some(UpTo(results, room))
  }

  /** One item in front of what the rest of the page gives. */
  lemma ItemGives(html: string, i: nat, item: Item, rest: seq<SearchResult>, clean: string -> string)
    requires At(html, i, PrintedItem(item)) && Harmless(item)
    requires Gives(html, i + |PrintedItem(item)|, rest, clean)
    ensures Gives(html, i, GainOf(item, clean) + rest, clean)
  {
    hide Scan, Find, TurnAt, At, MARKER, Absent, PrintedItem, Harmless, GainOf;
    forall pos: nat, room: nat | pos <= i <= |html| && Absent(html, pos, i, MARKER)
      ensures Scan(html, pos, room, clean) == Some(UpTo(GainOf(item, clean) + rest, room))
    {
      if room == 0 {
        NoRoom(html, pos, clean);
      } else {
        var t := ItemTurn(html, pos, i, item, clean);
        ScanStep(html, pos, room, clean);
        UpToAppend(GainOf(item, clean), rest, room);
      }
    }
  }

  lemma {:induction false} ItemsGive(
    html: string, i: nat, items: seq<Item>, rest: seq<SearchResult>, clean: string -> string)
    requires At(html, i, Page(items)) && (forall k :: 0 <= k < |items| ==> Harmless(items[k]))
    requires Gives(html, i + |Page(items)|, rest, clean)
    ensures Gives(html, i, Results(items, clean) + rest, clean)
    decreases |items|
  {
    hide Gives, At, Harmless, PrintedItem;
    if items == [] {
      assert [] + rest == rest;
    } else {
      var n := |PrintedItem(items[0])|;
      AtSplit(html, i, PrintedItem(items[0]), Page(items[1..]));
      ItemsGive(html, i + n, items[1..], rest, clean);
      ItemGives(html, i, items[0], Results(items[1..], clean) + rest, clean);
      assert Results(items, clean) + rest == GainOf(items[0], clean) + (Results(items[1..], clean) + rest);
    }
  }

  // ---- Tags that are not closed any more ----

  /** A link whose end is missing, as on a page that was cut off. */
  datatype Unclosed = Unclosed(url: string, text: string)

  function Begun(u: Unclosed): string {
    OPEN + u.url + "\">" + u.text
  }

  function Tail(us: seq<Unclosed>): string {
    if us == [] then "" else Begun(us[0]) + Tail(us[1..])
  }

  predicate HarmlessEnd(u: Unclosed) {
    Escaped(u.url) && Lacks(u.text, '<') && Without(u.text, MARKER)
  }

  /** Behind this place every tag is one that opens a link. */
  ghost predicate NoClosing(html: string, from: nat) {
    forall j :: from <= j < |html| && html[j] == '<' ==> j + 1 < |html| && html[j + 1] == 'a'
  }

  lemma UnclosedPieces(html: string, i: nat, u: Unclosed, rest: string)
    requires At(html, i, Begun(u) + rest)
    ensures var g := i + 29 + |u.url| + 1;
            && At(html, i, OPEN) && At(html, i + 29, u.url) && At(html, g - 1, "\"") && At(html, g, ">")
            && At(html, g + 1, u.text) && At(html, g + 1 + |u.text|, rest)
            && |Begun(u) + rest| == 29 + |u.url| + 2 + |u.text| + |rest|
  {
    Literals();
    assert "\">" == "\"" + ">";
    hide OPEN, At;
    AtSplit(html, i, Begun(u), rest);
    AtSplit(html, i, OPEN + u.url + "\">", u.text);
    AtSplit(html, i, OPEN + u.url, "\">");
    AtSplit(html, i, OPEN, u.url);
    AtSplit(html, i + 29 + |u.url|, "\"", ">");
  }

  /** The tag is read as that of an entry with the same link. */
  lemma UnclosedTag(html: string, i: nat, url: string)
    requires At(html, i, OPEN) && At(html, i + 29, url) && At(html, i + 29 + |url|, "\"") &&
        At(html, i + 30 + |url|, ">")
    requires Escaped(url)
    ensures var g := i + 30 + |url|;
            && g < |html| && Find(html, i, ">") == Some(g) && Href(html[i..g]) == Some(url)
            && At(html, i + 3, MARKER) && RFind(html, i + 3, "<a ") == Some(i)
  {
    OpenPieces(html, i);
    hide OPEN, MARKER, SNIPPET, CELL, Find, RFind, Href, At, Lacks, ClearOf, Escaped;
    AtInRange(html, i + 30 + |url|, ">");
    AtInRange(html, i, "<a ");
    TagEndsAt(html, i, url);
    LinkAt(html, i, url);
    TagStart(html, i);
  }

  lemma UnclosedTurn(html: string, i: nat, u: Unclosed, rest: string, clean: string -> string)
    requires At(html, i, Begun(u) + rest) && i + |Begun(u) + rest| == |html|
    requires HarmlessEnd(u) && NoClosing(html, i + 29 + |u.url| + 2)
    ensures At(html, i + 3, MARKER) && TurnAt(html, i + 3, clean) == Skip(i + 29 + |u.url| + 2)
  {
    UnclosedPieces(html, i, u, rest);
    hide Begun, OPEN, MARKER, Find, RFind, Href, SnippetFrom, At, Lacks, Without, Escaped, Absent;
    UnclosedTag(html, i, u.url);
    var g := i + 30 + |u.url|;
    NoLinkEnd(html, g + 1);
    TurnOpen(html, i + 3, i, g, clean);
  }

  lemma TurnOpen(html: string, m: nat, start: nat, gt: nat, clean: string -> string)
    requires At(html, m, MARKER) && m <= |html| && RFind(html, m, "<a ") == Some(start)
    requires start <= gt < |html| && Find(html, start, ">") == Some(gt) && Href(html[start..gt]).Some?
    requires Find(html, gt + 1, "</a>") == None
    ensures TurnAt(html, m, clean) == Skip(gt + 1)
  {
    hide Find, RFind, Href, SnippetFrom, At, MARKER, Absent;
  }

  lemma NoLinkEnd(html: string, from: nat)
    requires from <= |html| && NoClosing(html, from)
    ensures Find(html, from, "</a>") == None
  {
    assert "</a>"[0] == '<' && "</a>"[1] == '/';
    hide Find;
    forall j | from <= j <= |html| ensures !At(html, j, "</a>") {
      AtHead(html, j, "</a>");
    }
    FindNone(html, from, "</a>");
  }

  /** One such tag in front of others. */
  lemma UnclosedOpens(html: string, i: nat, u: Unclosed, rest: string)
    requires At(html, i, Begun(u) + rest) && HarmlessEnd(u)
    requires NoClosing(html, i + 31 + |u.url| + |u.text|)
    ensures NoClosing(html, i) && At(html, i, "<a ")
  {
    hide OPEN, MARKER, SNIPPET, CELL, At, Lacks, Without, Escaped, ClearOf;
    UnclosedPieces(html, i, u, rest);
    OpenPieces(html, i);
    OpenBrackets(html, i);
    EscapedLacks(u.url);
    QuoteLacks();
    var g := i + 30 + |u.url|;
    var n := g + 1 + |u.text|;
    ClearPiece(html, i + 29, u.url, '<');
    ClearPiece(html, g - 1, "\"", '<');
    ClearPiece(html, g, ">", '<');
    ClearPiece(html, g + 1, u.text, '<');
    ClearOn(html, i + 29, g - 1, g, '<');
    ClearOn(html, i + 29, g, g + 1, '<');
    ClearOn(html, i + 29, g + 1, n, '<');
    ClearOn(html, i + 1, i + 29, n, '<');
    ClearIs(html, i + 1, n, '<');
  }

  lemma QuoteLacks()
    ensures Lacks("\"", '<') && Lacks(">", '<')
  {
  }

  lemma TailCons(us: seq<Unclosed>)
    requires us != []
    ensures var u := us[0];
            && Tail(us) == Begun(u) + Tail(us[1..])
            && |Tail(us)| == 31 + |u.url| + |u.text| + |Tail(us[1..])|
  {
    Literals();
    hide OPEN;
  }

  lemma {:induction false} TailOpens(html: string, i: nat, us: seq<Unclosed>)
    requires At(html, i, Tail(us)) && i + |Tail(us)| == |html| && forall k :: 0 <= k < |us| ==> HarmlessEnd(us[k])
    ensures NoClosing(html, i)
    ensures us != [] ==> At(html, i, "<a ")
    decreases |us|
  {
    if us != [] {
      var u, rest := us[0], Tail(us[1..]);
      TailCons(us);
      hide Tail, Begun, OPEN, At, HarmlessEnd, NoClosing;
      UnclosedPieces(html, i, u, rest);
      TailOpens(html, i + 31 + |u.url| + |u.text|, us[1..]);
      UnclosedOpens(html, i, u, rest);
    }
    hide Tail, Begun, OPEN, At, HarmlessEnd;
  }

  lemma ClearIs(s: string, i: nat, j: nat, c: char)
    requires ClearOf(s, i, j, c)
    ensures forall k :: i <= k < j ==> s[k] != c
  {
  }

  lemma OpenBrackets(html: string, i: nat)
    requires At(html, i, OPEN)
    ensures i + 29 <= |html| && html[i + 1] == 'a' && ClearOf(html, i + 1, i + 29, '<')
  {
    OpenPieces(html, i);
    MarkerBrackets();
    AtChar(html, i, "<a ", i + 1);
    AtChar(html, i, "<a ", i + 2);
    assert Lacks(" ", '<') && Lacks("href=\"", '<') && "<a "[1] == 'a' && "<a "[2] == ' ';
    Literals();
    AtFits(html, i + 23, "href=\"");
    assert |"href=\""| == 6;
    hide OPEN, MARKER, At, Lacks;
    ClearPiece(html, i + 3, MARKER, '<');
    ClearPiece(html, i + 22, " ", '<');
    ClearPiece(html, i + 23, "href=\"", '<');
  }

  /** Such tags give nothing, and cost nothing. */
  lemma {:induction false} TailGives(html: string, i: nat, us: seq<Unclosed>, clean: string -> string)
    requires At(html, i, Tail(us)) && i + |Tail(us)| == |html| && forall k :: 0 <= k < |us| ==> HarmlessEnd(us[k])
    ensures Gives(html, i, [], clean)
    decreases |us|
  {
    hide Tail, Begun, OPEN, At, MARKER, Gives, HarmlessEnd, NoClosing;
    if us == [] {
      NoTail(us);
      NothingLeft(html, i, clean);
    } else {
      TailCons(us);
      UnclosedPieces(html, i, us[0], Tail(us[1..]));
      TailGives(html, i + 31 + |us[0].url| + |us[0].text|, us[1..], clean);
      UnclosedGives(html, i, us, clean);
    }
  }

  lemma NoTail(us: seq<Unclosed>)
    ensures us == [] ==> Tail(us) == ""
  {
  }

  lemma UnclosedGives(html: string, i: nat, us: seq<Unclosed>, clean: string -> string)
    requires us != [] && At(html, i, Tail(us)) && i + |Tail(us)| == |html|
    requires forall k :: 0 <= k < |us| ==> HarmlessEnd(us[k])
    requires Gives(html, i + 31 + |us[0].url| + |us[0].text|, [], clean)
    ensures Gives(html, i, [], clean)
  {
    var u, more := us[0], us[1..];
    var next := i + 31 + |u.url|;
    hide Tail, Begun, OPEN, At, MARKER, Absent, Gives, NoClosing, HarmlessEnd, TurnAt;
    TailCons(us);
    TailOpens(html, i, us);
    NoClosingOn(html, i, next);
    FirstOpen(html, i, u, more, clean);
    OneOpen(html, i, next, next + |u.text|, clean);
  }

  lemma FirstOpen(html: string, i: nat, u: Unclosed, more: seq<Unclosed>, clean: string -> string)
    requires At(html, i, Begun(u) + Tail(more)) && i + |Begun(u) + Tail(more)| == |html|
    requires HarmlessEnd(u) && forall k :: 0 <= k < |more| ==> HarmlessEnd(more[k])
    requires NoClosing(html, i + 31 + |u.url|)
    ensures var next := i + 31 + |u.url|;
            && At(html, i + 3, MARKER) && TurnAt(html, i + 3, clean) == Skip(next)
            && next + |u.text| <= |html| && Absent(html, next, next + |u.text|, MARKER)
  {
    hide Tail, Begun, OPEN, At, MARKER, Absent, NoClosing, HarmlessEnd, TurnAt;
    UnclosedPieces(html, i, u, Tail(more));
    UnclosedTurn(html, i, u, Tail(more), clean);
    TextEnds(html, i + 31 + |u.url|, u, more);
  }

  lemma TextEnds(html: string, next: nat, u: Unclosed, more: seq<Unclosed>)
    requires At(html, next, u.text) && At(html, next + |u.text|, Tail(more))
    requires next + |u.text| + |Tail(more)| == |html|
    requires HarmlessEnd(u) && forall k :: 0 <= k < |more| ==> HarmlessEnd(more[k])
    ensures Absent(html, next, next + |u.text|, MARKER)
  {
    assert Without(u.text, MARKER);
    hide Tail, Begun, OPEN, At, MARKER, Without, Absent, NoClosing, HarmlessEnd;
    TailOpens(html, next + |u.text|, more);
    NoTail(more);
    TextQuiet(html, next, u.text, more);
  }

  lemma NoClosingOn(html: string, i: nat, j: nat)
    requires NoClosing(html, i) && i <= j
    ensures NoClosing(html, j)
  {
  }

  lemma TextQuiet(html: string, i: nat, text: string, us: seq<Unclosed>)
    requires At(html, i, text) && Without(text, MARKER) && i + |text| <= |html|
    requires if us == [] then i + |text| == |html| else At(html, i + |text|, "<a ")
    ensures Absent(html, i, i + |text|, MARKER)
  {
    MoreLiterals();
    if us != [] {
      AtChar(html, i + |text|, "<a ", i + |text|);
    }
    hide At, MARKER, Without, Absent;
    PieceWithout(html, i, text);
  }

  lemma OneOpen(html: string, i: nat, next: nat, end: nat, clean: string -> string)
    requires At(html, i, "<a ") && At(html, i + 3, MARKER) && TurnAt(html, i + 3, clean) == Skip(next)
    requires next <= end <= |html| && Absent(html, next, end, MARKER) && Gives(html, end, [], clean)
    ensures Gives(html, i, [], clean)
  {
    hide Scan, Find, TurnAt, At, MARKER, Absent;
    var none: seq<SearchResult> := [];
    forall pos: nat, room: nat | pos <= i <= |html| && Absent(html, pos, i, MARKER)
      ensures Scan(html, pos, room, clean) == Some(UpTo(none, room))
    {
      assert UpTo(none, room) == none;
      if room == 0 {
        NoRoom(html, pos, clean);
      } else {
        NextMarker(html, pos, i);
        ScanStep(html, pos, room, clean);
        assert Scan(html, next, room, clean) == Some(UpTo(none, room)) && Gain(Skip(next)) == none;
        assert none + none == none;
      }
    }
  }

  lemma NothingLeft(html: string, i: nat, clean: string -> string)
    requires i == |html|
    ensures Gives(html, i, [], clean)
  {
    hide Scan, MARKER, Find;
    var none: seq<SearchResult> := [];
    forall pos: nat, room: nat | pos <= i <= |html| && Absent(html, pos, i, MARKER)
      ensures Scan(html, pos, room, clean) == Some(UpTo(none, room))
    {
      NoneLeft(html, pos);
      ScanEmpty(html, pos, room, clean);
      assert UpTo(none, room) == none;
    }
  }

  lemma NoneLeft(html: string, pos: nat)
    requires pos <= |html| && Absent(html, pos, |html|, MARKER)
    ensures Find(html, pos, MARKER) == None
  {
    Literals();
    hide MARKER;
    assert !At(html, |html|, MARKER);
    FindNone(html, pos, MARKER);
  }

  // ---- Markers before the first tag ----

  lemma {:induction false} StrayScan(
    html: string, s: nat, pos: nat, room: nat, results: seq<SearchResult>, clean: string -> string)
    requires pos <= s <= |html| && ClearOf(html, 0, s, '<') && (s < |html| ==> html[s] == '<')
    requires Gives(html, s, results, clean)
    ensures Scan(html, pos, room, clean) == Some(UpTo(results, room))
    decreases s - pos
  {
    Literals();
    hide Scan, Find, TurnAt, At, MARKER;
    var f := Find(html, pos, MARKER);
    if room == 0 {
      NoRoom(html, pos, clean);
    } else if f.Some? && f.value < s {
      AtFits(html, f.value, MARKER);
      if s < |html| {
        MarkerWithin(html, f.value, s);
      }
      StrayTurn(html, f.value, clean);
      ScanStep(html, pos, room, clean);
      StrayScan(html, s, f.value + 19, room, results, clean);
      assert [] + UpTo(results, room) == UpTo(results, room);
    } else {
      assert Absent(html, pos, s, MARKER);
    }
  }

  lemma StrayTurn(html: string, m: nat, clean: string -> string)
    requires At(html, m, MARKER) && m <= |html| && ClearOf(html, 0, m, '<')
    ensures TurnAt(html, m, clean) == Skip(m + |MARKER|)
  {
    var r := RFind(html, m, "<a ");
    if r.Some? {
      AtHead(html, r.value, "<a ");
    }
    hide Find, Href, SnippetFrom, MARKER, RFind;
  }

  // ---- The whole page ----

  /** Whatever is wrong with other links, no good one is lost. On a page of a text with stray markers, of good
      entries and links without `href` in any order, and of links cut off at the end, the loop ends and gives
      back the good entries, in order and up to the limit, but for those without a link or a title. */
  lemma PageReadsBack(stray: string, items: seq<Item>, us: seq<Unclosed>, max: nat, clean: string -> string)
    requires Lacks(stray, '<')
    requires forall k :: 0 <= k < |items| ==> Harmless(items[k])
    requires forall k :: 0 <= k < |us| ==> HarmlessEnd(us[k])
    ensures var html := stray + (Page(items) + Tail(us));
            Ends(html, max, clean) && Scan(html, 0, max, clean) == Some(UpTo(Results(items, clean), max))
  {
    var html := stray + (Page(items) + Tail(us));
    var s, e := |stray|, |stray| + |Page(items)|;
    assert At(html, 0, html);
    hide Page, Tail, At, Scan, Ends, Gives, Results, Harmless, HarmlessEnd, Lacks, ClearOf;
    AtSplit(html, 0, stray, Page(items) + Tail(us));
    AtSplit(html, s, Page(items), Tail(us));
    TailGives(html, e, us, clean);
    ItemsGive(html, s, items, [], clean);
    assert Results(items, clean) + [] == Results(items, clean);
    ClearPiece(html, 0, stray, '<');
    FirstBracket(html, s, items, us);
    StrayScan(html, s, 0, max, Results(items, clean), clean);
    EndsIff(html, max, clean);
  }

  lemma FirstBracket(html: string, s: nat, items: seq<Item>, us: seq<Unclosed>)
    requires At(html, s, Page(items)) && At(html, s + |Page(items)|, Tail(us))
    requires s + |Page(items)| + |Tail(us)| == |html|
    ensures s < |html| ==> html[s] == '<'
  {
    MoreLiterals();
    if items != [] {
      AtSplit(html, s, PrintedItem(items[0]), Page(items[1..]));
      match items[0]
      case Good(e) => EntryStart(html, s, e); AtChar(html, s, "<a ", s);
      case NoLink(attrs, title) => NoLinkPieces(html, s, attrs, title); AtChar(html, s, "<a ", s);
    } else if us != [] {
      UnclosedPieces(html, s, us[0], Tail(us[1..]));
      OpenPieces(html, s);
      AtChar(html, s, "<a ", s);
    }
  }

  // ---- A marker after its tag ----

  const TAG := "<a href=\"u\">"
  const CLOSE := "</a> "

  /** A page whose only marker stands behind the link that it should be inside of. */
  function Late(title: string): string {
    TAG + title + CLOSE + MARKER
  }

  lemma LateLiterals()
    ensures |TAG| == 12 && |CLOSE| == 5 && |MARKER| == 19 && |SNIPPET| == 22 && SNIPPET[0] == 'c'
    ensures At(TAG, 0, "<a ") && At(TAG, 11, ">") && At(CLOSE, 0, "</a>")
    ensures TAG[..11] == "<a href=\"u\""
    ensures CLOSE[1] != 'a' && CLOSE[0] != 'c' && CLOSE[1] != 'c' && CLOSE[2] != 'c'
    ensures forall k :: 0 < k < 12 ==> TAG[k] != '<'
    ensures forall k :: 1 <= k < 5 ==> CLOSE[k] != '<'
    ensures forall k :: 0 <= k < 11 ==> TAG[k] != '>'
    ensures forall k :: 0 <= k < 12 ==> TAG[k] != '\''
    ensures forall k :: 0 <= k < 5 ==> CLOSE[k] != '\''
    ensures MARKER[6] == '\'' && forall k :: 0 <= k < 6 ==> MARKER[k] != '\''
  {
    AtIs(TAG, 0, "<a ");
    AtIs(TAG, 11, ">");
    AtIs(CLOSE, 0, "</a>");
  }

  /** Where everything is. */
  lemma LatePieces(title: string)
    ensures var html, c := Late(title), 12 + |title|;
            && |html| == c + 24 && At(html, 0, TAG) && At(html, 12, title) && At(html, c, CLOSE) &&
               At(html, c + 5, MARKER)
  {
    var html := Late(title);
    LateLiterals();
    assert At(html, 0, html);
    hide At, TAG, CLOSE, MARKER;
    AtSplit(html, 0, TAG + title + CLOSE, MARKER);
    AtSplit(html, 0, TAG + title, CLOSE);
    AtSplit(html, 0, TAG, title);
  }

  lemma AtNested(s: string, i: nat, p: string, k: nat, q: string)
    requires At(s, i, p) && At(p, k, q)
    ensures At(s, i + k, q)
  {
    forall m | 0 <= m < |q| ensures s[i + k + m] == q[m] {
      AtChar(p, k, q, k + m);
      AtChar(s, i, p, i + k + m);
    }
    AtIs(s, i + k, q);
  }

  lemma LateMarker(title: string)
    requires Escaped(title)
    ensures Find(Late(title), 0, MARKER) == Some(17 + |title|)
  {
    var html, c := Late(title), 12 + |title|;
    LateLiterals();
    LatePieces(title);
    hide Late, TAG, CLOSE, MARKER, At, Find;
    forall j | 0 <= j < c + 5 ensures !At(html, j, MARKER) {
      if At(html, j, MARKER) {
        AtChar(html, j, MARKER, j + 6);
        LateQuotes(title, j + 6);
      }
    }
    FindFirst(html, 0, MARKER, c + 5);
  }

  lemma FindFirst(s: string, from: nat, p: string, i: nat)
    requires from <= i <= |s| && At(s, i, p) && forall j :: from <= j < i ==> !At(s, j, p)
    ensures Find(s, from, p) == Some(i)
  {
  }

  lemma LateQuotes(title: string, k: nat)
    requires Escaped(title) && k < 23 + |title|
    ensures k < |Late(title)| && Late(title)[k] != '\''
  {
    var html, c := Late(title), 12 + |title|;
    LateLiterals();
    LatePieces(title);
    hide Late, TAG, CLOSE, MARKER, At;
    if k < 12 {
      AtChar(html, 0, TAG, k);
    } else if k < c {
      AtChar(html, 12, title, k);
    } else if k < c + 5 {
      AtChar(html, c, CLOSE, k);
    } else {
      AtChar(html, c + 5, MARKER, k);
    }
  }

  lemma {:induction false} LateTag(title: string)
    requires Escaped(title)
    ensures RFind(Late(title), 17 + |title|, "<a ") == Some(0)
  {
    var html, c := Late(title), 12 + |title|;
    LateLiterals();
    LatePieces(title);
    assert "<a "[0] == '<' && "<a "[1] == 'a';
    hide Late, TAG, CLOSE, MARKER, At, RFind;
    AtNested(html, 0, TAG, 0, "<a ");
    forall j | 1 <= j < c + 3 ensures !At(html, j, "<a ") {
      AtHead(html, j, "<a ");
      if j < 12 {
        AtChar(html, 0, TAG, j);
      } else if j < c {
        AtChar(html, 12, title, j);
      } else {
        AtChar(html, c, CLOSE, j);
        AtChar(html, c, CLOSE, c + 1);
      }
    }
    assert Absent(html, 1, AfterLast(c + 5, "<a "), "<a ");
    RFindIs(html, c + 5, "<a ", 0);
  }

  lemma LateLink(title: string)
    requires Escaped(title)
    ensures Find(Late(title), 0, ">") == Some(11) && Href(Late(title)[0..11]) == Some("u")
  {
    var html := Late(title);
    LateLiterals();
    LatePieces(title);
    LinkU();
    hide Late, TAG, CLOSE, MARKER, At, Find, Href;
    AtNested(html, 0, TAG, 11, ">");
    forall j | 0 <= j < 11 ensures html[j] != '>' {
      AtChar(html, 0, TAG, j);
    }
    FindIs(html, 0, ">", 11);
    AtSlice(html, 0, TAG);
    assert html[0..11] == html[0..12][..11];
  }

  lemma LinkU()
    ensures Href("<a href=\"u\"") == Some("u")
  {
    var tag := "<a href=\"u\"";
    AtIs(tag, 3, "href=\"");
    AtIs(tag, 10, "\"");
    FindIs(tag, 0, "href=\"", 3);
    FindIs(tag, 9, "\"", 10);
    assert tag[9..10] == "u";
    hide Find, At;
  }

  lemma LateTitle(title: string, clean: string -> string)
    requires Escaped(title)
    ensures var html, c := Late(title), 12 + |title|;
            && c <= |html| && html[12..c] == title && Find(html, 12, "</a>") == Some(c)
            && SnippetFrom(html, c, clean) == (c, "")
  {
    var html, c := Late(title), 12 + |title|;
    LateLiterals();
    LatePieces(title);
    hide Late, TAG, CLOSE, MARKER, SNIPPET, At, Find;
    AtNested(html, c, CLOSE, 0, "</a>");
    AtSlice(html, 12, title);
    forall j | 12 <= j < c ensures html[j] != '<' {
      AtChar(html, 12, title, j);
    }
    FindIs(html, 12, "</a>", c);
    forall j | c <= j <= |html| ensures !At(html, j, SNIPPET) {
      AtHead(html, j, SNIPPET);
      if j < c + 3 {
        AtChar(html, c, CLOSE, j);
      } else {
        TooLong(html, j, SNIPPET);
      }
    }
    FindNone(html, c, SNIPPET);
  }

  lemma TooLong(s: string, j: nat, p: string)
    requires |s| < j + |p|
    ensures !At(s, j, p)
  {
  }

  lemma FindNone(s: string, from: nat, p: string)
    requires from <= |s| && forall j :: from <= j <= |s| ==> !At(s, j, p)
    ensures Find(s, from, p) == None
  {
  }

  /** On such a page the loop comes back to the place behind the tag again and again: with a title it ends
      with nothing but copies of the one link, and without a title it never ends. */
  lemma {:induction false} LateRepeats(title: string, max: nat, clean: string -> string)
    requires Escaped(title) && max > 0
    ensures Ends(Late(title), max, clean) <==> clean(title) != ""
    ensures clean(title) != "" ==>
              Scan(Late(title), 0, max, clean) == Some(Copies(SearchResult(clean(title), "u", ""), max))
    ensures !WellTagged(Late(title))
  {
    var html, c := Late(title), 12 + |title|;
    LateLiterals();
    LatePieces(title);
    hide Late, TAG, CLOSE, MARKER, SNIPPET, At, Find, RFind, Href, SnippetFrom, Scan, Ends, TurnAt, WellTagged, Copies;
    LateMarker(title);
    LateTag(title);
    LateLink(title);
    LateTitle(title, clean);
    TurnHit(html, c + 5, 0, 11, "u", c, clean);
    var t := TurnAt(html, c + 5, clean);
    assert t == Hit(c, SearchResult(clean(title), "u", ""));
    ScanRepeats(html, 0, max, t, clean);
    EndsIff(html, max, clean);
    if WellTagged(html) {
      TaggedAt(html, c + 5);
      TaggedAdvances(html, c + 5, clean);
      assert false;
    }
  }

  lemma TaggedAt(html: string, m: nat)
    requires WellTagged(html) && m <= |html| && At(html, m, MARKER)
    ensures InOwnTag(html, m)
  {
  }
}
