/** URI parsing (crates/logos-vfs/src/uri.rs) and the scoping of relative paths
    (crates/logos-kernel/src/grpc.rs). */
module Uri {
  import opened Wrappers
  import opened Text

  datatype LogosUri = LogosUri(ns: string, path: seq<string>)

  datatype Error = InvalidUri

  const LOGOS := "logos://"
  const MEM := "mem://"

  function StripPrefix(s: string, p: string): Option<string> {
    if |p| <= |s| && s[..|p|] == p then Some(s[|p|..]) else None
  }

  function NonEmpty(parts: seq<string>): seq<string> {
    if parts == [] then []
    else (if parts[0] == "" then [] else [parts[0]]) + NonEmpty(parts[1..])
  }

  /** The segments of the part after the scheme. */
  function Segments(s: string): seq<string> {
    NonEmpty(Split(s, '/'))
  }

  function Scheme(raw: string): Option<string> {
    match StripPrefix(raw, LOGOS)
    case Some(rest) => Some(rest)
    case None => StripPrefix(raw, MEM)
  }

  function Parse(raw: string): Result<LogosUri, Error> {
    match Scheme(raw)
    case None => Err(InvalidUri)
    case Some(rest) => OfSegments(Segments(rest))
  }

  function OfSegments(segments: seq<string>): Result<LogosUri, Error> {
    if segments == [] then Err(InvalidUri) else Ok(LogosUri(segments[0], segments[1..]))
  }

  function Print(u: LogosUri): string {
    LOGOS + Join([u.ns] + u.path, '/')
  }

  // ---- Segments ----

  /** A name that can stand between two slashes. */
  predicate Plain(s: string) {
    s != "" && '/' !in s
  }

  predicate AllPlain(parts: seq<string>) {
    forall i :: 0 <= i < |parts| ==> Plain(parts[i])
  }

  lemma {:induction false} NonEmptyConcat(a: seq<string>, b: seq<string>)
    ensures NonEmpty(a + b) == NonEmpty(a) + NonEmpty(b)
  {
    if a == [] {
      assert a + b == b;
    } else {
      assert (a + b)[1..] == a[1..] + b;
      NonEmptyConcat(a[1..], b);
    }
  }

  lemma {:induction false} NonEmptyPlain(parts: seq<string>)
    requires forall i :: 0 <= i < |parts| ==> '/' !in parts[i]
    ensures AllPlain(NonEmpty(parts))
    ensures AllPlain(parts) ==> NonEmpty(parts) == parts
  {
    if parts != [] {
      NonEmptyPlain(parts[1..]);
      assert [parts[0]] + parts[1..] == parts;
    }
  }

  lemma SegmentsPlain(s: string)
    ensures AllPlain(Segments(s))
  {
    SplitClean(s, '/');
    NonEmptyPlain(Split(s, '/'));
  }

  /** A character put in front of the parts of a text. */
  function Onto(c: char, parts: seq<string>, sep: char): seq<string>
    requires |parts| > 0
  {
    if c == sep then [""] + parts else [[c] + parts[0]] + parts[1..]
  }

  lemma SplitOnto(c: char, s: string, sep: char)
    ensures Split([c] + s, sep) == Onto(c, Split(s, sep), sep)
  {
    assert ([c] + s)[1..] == s;
  }

  lemma OntoConcat(c: char, a: seq<string>, b: seq<string>, sep: char)
    requires |a| > 0
    ensures Onto(c, a + b, sep) == Onto(c, a, sep) + b
  {
    assert (a + b)[1..] == a[1..] + b;
  }

  lemma {:induction false} SplitConcat(a: string, b: string, sep: char)
    ensures Split(a + [sep] + b, sep) == Split(a, sep) + Split(b, sep)
  {
    if a == "" {
      assert a + [sep] + b == [sep] + b;
      SplitOnto(sep, b, sep);
    } else {
      var c, rest := a[0], a[1..];
      assert a == [c] + rest && a + [sep] + b == [c] + (rest + [sep] + b);
      hide Split, Onto;
      SplitConcat(rest, b, sep);
      SplitOnto(c, rest, sep);
      SplitOnto(c, rest + [sep] + b, sep);
      OntoConcat(c, Split(rest, sep), Split(b, sep), sep);
    }
  }

  /** A slash joins the segments of both sides. */
  lemma SegmentsConcat(a: string, b: string)
    ensures Segments(a + "/" + b) == Segments(a) + Segments(b)
  {
    SplitConcat(a, b, '/');
    NonEmptyConcat(Split(a, '/'), Split(b, '/'));
  }

  lemma NoSegments()
    ensures Segments("") == []
  {
    assert Split("", '/') == [""];
    assert [""][1..] == [];
  }

  lemma SegmentsOfPlain(s: string)
    ensures Segments(s) == [s] <==> Plain(s)
  {
    SegmentsPlain(s);
    if Plain(s) {
      SplitNone(s, '/');
      assert NonEmpty([s]) == [s] + NonEmpty([s][1..]) && [s][1..] == [];
    }
    assert Segments(s) != [] ==> Plain(Segments(s)[0]);
  }

  lemma SegmentsSlashes(a: string, b: string)
    ensures Segments(a + "//" + b) == Segments(a + "/" + b)
    ensures Segments(a + "/") == Segments(a) && Segments("/" + a) == Segments(a)
  {
    var empty := "";
    assert a + "//" + b == a + "/" + (empty + "/" + b);
    assert a + "/" == a + "/" + empty && "/" + a == empty + "/" + a;
    NoSegments();
    hide Segments;
    SegmentsConcat(a, empty + "/" + b);
    SegmentsConcat(empty, b);
    SegmentsConcat(a, b);
    SegmentsConcat(a, empty);
    SegmentsConcat(empty, a);
  }

  /** Repeated, leading and trailing slashes do not matter. */
  lemma SlashesDoNotMatter(a: string, b: string)
    ensures Parse(LOGOS + (a + "//" + b)) == Parse(LOGOS + (a + "/" + b))
    ensures Parse(LOGOS + (a + "/")) == Parse(LOGOS + a)
    ensures Parse(LOGOS + ("/" + a)) == Parse(LOGOS + a)
  {
    hide Parse, Segments;
    SegmentsSlashes(a, b);
    ParseLogos(a + "//" + b);
    ParseLogos(a + "/" + b);
    ParseLogos(a + "/");
    ParseLogos("/" + a);
    ParseLogos(a);
  }

  lemma ParseLogos(rest: string)
    ensures Parse(LOGOS + rest) == OfSegments(Segments(rest))
  {
    SchemeLogos(rest);
    hide Segments, Scheme;
  }

  lemma SchemeLogos(rest: string)
    ensures Scheme(LOGOS + rest) == Some(rest)
  {
  }

  // ---- Parsing and printing ----

  lemma SegmentsJoin(parts: seq<string>)
    requires |parts| > 0
    ensures Segments(Join(parts, '/')) == parts <==> AllPlain(parts)
  {
    SegmentsPlain(Join(parts, '/'));
    if AllPlain(parts) {
      forall i | 0 <= i < |parts| ensures '/' !in parts[i] {
        assert Plain(parts[i]);
      }
      SplitJoin(parts, '/');
      NonEmptyPlain(parts);
    }
  }

  /** Parsing inverts printing exactly for segments that are non-empty and free of slashes. */
  lemma ParsePrintIff(u: LogosUri)
    ensures Parse(Print(u)) == Ok(u) <==> AllPlain([u.ns] + u.path)
  {
    var parts := [u.ns] + u.path;
    SegmentsJoin(parts);
    SchemeLogos(Join(parts, '/'));
    var got := Segments(Join(parts, '/'));
    assert got != [] ==> got == [got[0]] + got[1..];
    assert parts[1..] == u.path;
    hide Scheme, Segments, Join;
  }

  /** Whatever parses has a normal form that parses to the same. */
  lemma NormalForm(raw: string)
    requires Parse(raw).Ok?
    ensures Parse(Print(Parse(raw).value)) == Parse(raw)
  {
    var u := Parse(raw).value;
    var segments := Segments(Scheme(raw).value);
    SegmentsPlain(Scheme(raw).value);
    assert [u.ns] + u.path == segments;
    ParsePrintIff(u);
  }

  // ---- Relative paths ----

  function TrimDots(s: string): string {
    if |s| >= 2 && s[0] == '.' && s[1] == '/' then TrimDots(s[2..]) else s
  }

  function TrimSlashes(s: string): string {
    if |s| >= 1 && s[0] == '/' then TrimSlashes(s[1..]) else s
  }

  const SANDBOX := "logos://sandbox/"

  /** `resolve_uri`; `task` is the task id of the caller's session, if there is one. */
  function Resolve(uri: string, task: Option<string>): string {
    if StripPrefix(uri, LOGOS).Some? then uri
    else
      match task
      case Some(id) => SANDBOX + id + "/" + TrimSlashes(TrimDots(uri))
      case None => uri
  }

  function Dots(n: nat): seq<string> {
    if n == 0 then [] else ["."] + Dots(n - 1)
  }

  lemma {:induction false} TrimSlashesSegments(s: string)
    ensures Segments(TrimSlashes(s)) == Segments(s)
  {
    if |s| >= 1 && s[0] == '/' {
      TrimSlashesSegments(s[1..]);
      assert s == "" + "/" + s[1..];
      SegmentsConcat("", s[1..]);
      NoSegments();
    }
  }

  /** Trimming takes leading `.` segments and nothing else. */
  lemma {:induction false} TrimDotsSegments(s: string) returns (n: nat)
    ensures Segments(s) == Dots(n) + Segments(TrimDots(s))
  {
    n := 0;
    if |s| >= 2 && s[0] == '.' && s[1] == '/' {
      var m := TrimDotsSegments(s[2..]);
      assert s == "." + "/" + s[2..];
      SegmentsConcat(".", s[2..]);
      SegmentsOfPlain(".");
      n := m + 1;
    }
  }

  /** The segments of a relative path as scoped: those of the path but for leading dots, after those of
      the task id, in the sandbox. */
  lemma {:induction false} ResolveLands(uri: string, id: string) returns (n: nat)
    requires StripPrefix(uri, LOGOS).None?
    ensures Parse(Resolve(uri, Some(id))).Ok?
    ensures var u := Parse(Resolve(uri, Some(id))).value;
            u.ns == "sandbox" && exists rest :: u.path == Segments(id) + rest && Segments(uri) == Dots(n) + rest
  {
    n := TrimDotsSegments(uri);
    TrimSlashesSegments(TrimDots(uri));
    ResolveParse(uri, id);
    hide Segments, Resolve, Parse;
    var rest := Segments(TrimSlashes(TrimDots(uri)));
    assert Segments(uri) == Dots(n) + rest;
    OfSandbox(Segments(id) + rest);
  }

  lemma OfSandbox(path: seq<string>)
    ensures OfSegments(["sandbox"] + path) == Ok(LogosUri("sandbox", path))
  {
  }

  lemma Regroup(a: string, b: string, id: string, c: string)
    ensures a + b + c + id == a + (b + c + id)
  {
  }

  lemma ResolveParse(uri: string, id: string)
    requires StripPrefix(uri, LOGOS).None?
    ensures Parse(Resolve(uri, Some(id)))
         == OfSegments(["sandbox"] + (Segments(id) + Segments(TrimSlashes(TrimDots(uri)))))
  {
    var rest := id + "/" + TrimSlashes(TrimDots(uri));
    assert Resolve(uri, Some(id)) == SANDBOX + rest by { ResolveIs(uri, id); }
    assert SANDBOX == LOGOS + "sandbox" + "/";
    hide Resolve, Segments, Parse, Plain;
    Regroup(LOGOS, "sandbox", rest, "/");
    ParseLogos("sandbox" + "/" + rest);
    SegmentsConcat("sandbox", rest);
    SegmentsConcat(id, TrimSlashes(TrimDots(uri)));
    SandboxSegment();
  }

  lemma SandboxSegment()
    ensures Segments("sandbox") == ["sandbox"]
  {
    SegmentsOfPlain("sandbox");
    assert Plain("sandbox");
  }

  lemma ResolveIs(uri: string, id: string)
    requires StripPrefix(uri, LOGOS).None?
    ensures Resolve(uri, Some(id)) == SANDBOX + (id + "/" + TrimSlashes(TrimDots(uri)))
  {
    var rest := TrimSlashes(TrimDots(uri));
    assert SANDBOX + id + "/" + rest == SANDBOX + (id + "/" + rest);
  }

  /** Every relative path lands under the caller's task exactly when the task id is a plain segment. */
  lemma ScopedIff(id: string)
    ensures (forall uri :: StripPrefix(uri, LOGOS).None? ==> UnderTask(uri, id)) <==> Plain(id)
  {
    SegmentsOfPlain(id);
    if Plain(id) {
      forall uri | StripPrefix(uri, LOGOS).None? ensures UnderTask(uri, id) {
        var n := ResolveLands(uri, id);
      }
    } else {
      assert StripPrefix("", LOGOS).None?;
      OnlyPlain("", id);
    }
  }

  lemma OnlyPlain(uri: string, id: string)
    requires StripPrefix(uri, LOGOS).None?
    ensures UnderTask(uri, id) ==> Plain(id)
  {
    ResolveParse(uri, id);
    var trimmed := TrimSlashes(TrimDots(uri));
    SegmentsPlain(id);
    SegmentsPlain(trimmed);
    var path := Segments(id) + Segments(trimmed);
    hide Segments, Resolve, Parse;
    OfSandbox(path);
    forall i | 0 <= i < |path| ensures Plain(path[i]) {}
  }

  predicate UnderTask(uri: string, id: string) {
    var p := Parse(Resolve(uri, Some(id)));
    p.Ok? && p.value.ns == "sandbox" && p.value.path != [] && p.value.path[0] == id
  }

  /** What was resolved stays as it is. */
  lemma ResolveTwice(uri: string, task: Option<string>, other: Option<string>)
    requires task.Some?
    ensures Resolve(Resolve(uri, task), other) == Resolve(uri, task)
  {
    var r := Resolve(uri, task);
    if StripPrefix(uri, LOGOS).None? {
      assert r[..8] == SANDBOX[..8] == LOGOS;
    }
  }

  // ---- Both operations, without the functions that trim and strip ----

  predicate StartsWith(s: string, p: string) {
    |p| <= |s| && s[..|p|] == p
  }

  function Times(p: string, n: nat): string {
    if n == 0 then "" else p + Times(p, n - 1)
  }

  /** Both schemes mean the same, the first plain segment is the namespace, and no other scheme parses. */
  lemma ParseIs(ns: string, rest: string, raw: string)
    requires ns != "" && '/' !in ns
    ensures Parse("logos://" + (ns + "/" + rest)) == Ok(LogosUri(ns, Segments(rest)))
    ensures Parse("mem://" + (ns + "/" + rest)) == Ok(LogosUri(ns, Segments(rest)))
    ensures Parse(raw).Ok? ==> StartsWith(raw, "logos://") || StartsWith(raw, "mem://")
  {
    assert LOGOS == "logos://" && MEM == "mem://" && Plain(ns);
    var all := ns + "/" + rest;
    ParseLogos(all);
    MemScheme(all);
    assert Parse(raw).Ok? ==> Scheme(raw).Some?;
    hide Segments, Parse, Scheme, LOGOS, MEM;
    SegmentsConcat(ns, rest);
    SegmentsOfPlain(ns);
    assert ([ns] + Segments(rest))[1..] == Segments(rest);
    SchemeIs(raw);
  }

  lemma MemScheme(rest: string)
    ensures Parse(MEM + rest) == OfSegments(Segments(rest))
  {
    var raw := MEM + rest;
    assert raw[0] == 'm' && raw[..6] == MEM && raw[6..] == rest;
    assert StripPrefix(raw, LOGOS).None? by {
      assert |raw| >= 8 ==> raw[..8][0] == 'm' && LOGOS[0] == 'l';
    }
    hide Segments;
  }

  lemma SchemeIs(raw: string)
    ensures Scheme(raw).Some? ==> StartsWith(raw, "logos://") || StartsWith(raw, "mem://")
  {
  }

  /** A URI that has the scheme, or a caller without a session, is passed through. */
  lemma ResolvePasses(uri: string, task: Option<string>)
    requires StartsWith(uri, "logos://") || task.None?
    ensures Resolve(uri, task) == uri
  {
    hide TrimDots, TrimSlashes;
  }

  lemma StartsWithDot(s: string)
    ensures StartsWith(s, "./") <==> |s| >= 2 && s[0] == '.' && s[1] == '/'
  {
    if |s| >= 2 {
      assert s[..2] == [s[0], s[1]];
    }
  }

  lemma StartsWithSlash(s: string)
    ensures StartsWith(s, "/") <==> |s| >= 1 && s[0] == '/'
  {
    if |s| >= 1 {
      assert s[..1] == [s[0]];
    }
  }

  lemma StartsWithLogos(s: string)
    ensures StartsWith(s, "logos://") ==> s[0] == 'l'
  {
    if |s| >= 8 {
      assert s[..8][0] == s[0];
    }
  }

  lemma {:induction false} TrimsDots(k: nat, rest: string)
    requires !StartsWith(rest, "./")
    ensures TrimDots(Times("./", k) + rest) == rest
  {
    var s := Times("./", k) + rest;
    if k == 0 {
      assert s == rest;
      StartsWithDot(rest);
    } else {
      assert s == "./" + (Times("./", k - 1) + rest);
      assert s[2..] == Times("./", k - 1) + rest;
      TrimsDots(k - 1, rest);
    }
  }

  lemma {:induction false} TrimsSlashes(j: nat, tail: string)
    requires !StartsWith(tail, "/")
    ensures TrimSlashes(Times("/", j) + tail) == tail
  {
    var s := Times("/", j) + tail;
    if j == 0 {
      assert s == tail;
      StartsWithSlash(tail);
    } else {
      assert s == "/" + (Times("/", j - 1) + tail);
      assert s[1..] == Times("/", j - 1) + tail;
      TrimsSlashes(j - 1, tail);
    }
  }

  /** A relative path: so often `./`, then slashes, then the rest. All of the dots and slashes go, and nothing
      else. */
  ghost predicate Relative(uri: string, k: nat, j: nat, tail: string) {
    && uri == Times("./", k) + (Times("/", j) + tail)
    && !StartsWith(tail, "/") && (j == 0 ==> !StartsWith(tail, "./"))
  }

  lemma ResolveStrips(uri: string, id: string, k: nat, j: nat, tail: string)
    requires !StartsWith(uri, "logos://") && Relative(uri, k, j, tail)
    ensures Resolve(uri, Some(id)) == "logos://sandbox/" + (id + "/" + tail)
  {
    var rest := Times("/", j) + tail;
    if j > 0 {
      assert rest[0] == '/' by { assert Times("/", j) == "/" + Times("/", j - 1); }
      StartsWithDot(rest);
    } else {
      assert rest == tail;
    }
    TrimsDots(k, rest);
    TrimsSlashes(j, tail);
    assert SANDBOX == "logos://sandbox/" && LOGOS == "logos://";
    hide TrimDots, TrimSlashes, Times, SANDBOX, LOGOS;
    ResolveIs(uri, id);
  }

  /** Every text is such a path in one way. */
  lemma {:induction false} IsRelative(uri: string) returns (k: nat, j: nat, tail: string)
    ensures Relative(uri, k, j, tail)
    decreases |uri|
  {
    if StartsWith(uri, "./") {
      k, j, tail := IsRelative(uri[2..]);
      k := k + 1;
      assert uri == "./" + uri[2..];
      assert Times("./", k) == "./" + Times("./", k - 1);
    } else {
      k := 0;
      j, tail := LeadingSlashes(uri);
      assert j == 0 ==> uri == tail;
    }
  }

  lemma {:induction false} LeadingSlashes(s: string) returns (j: nat, tail: string)
    ensures s == Times("/", j) + tail && !StartsWith(tail, "/")
    decreases |s|
  {
    if StartsWith(s, "/") {
      j, tail := LeadingSlashes(s[1..]);
      j := j + 1;
      assert s == "/" + s[1..];
    } else {
      j, tail := 0, s;
    }
  }

  /** So a path lands, below the segments of the task id, with the segments that it has after the dots. */
  lemma LandsAt(uri: string, id: string, k: nat, rest: string)
    requires !StartsWith(uri, "logos://") && uri == Times("./", k) + rest && !StartsWith(rest, "./")
    ensures Parse(Resolve(uri, Some(id))) == Ok(LogosUri("sandbox", Segments(id) + Segments(rest)))
  {
    var j, tail := LeadingSlashes(rest);
    assert j == 0 ==> rest == tail;
    assert Relative(uri, k, j, tail);
    ResolveStrips(uri, id, k, j, tail);
    SlashesSegments(j, tail);
    Regroup("logos://", "sandbox", id + "/" + tail, "/");
    assert "logos://sandbox/" == "logos://" + "sandbox" + "/";
    hide Resolve, Parse, Segments, Relative, Times;
    ParseIs("sandbox", id + "/" + tail, "");
    SegmentsConcat(id, tail);
  }

  lemma {:induction false} SlashesSegments(j: nat, tail: string)
    ensures Segments(Times("/", j) + tail) == Segments(tail)
  {
    if j == 0 {
      assert Times("/", 0) + tail == tail;
    } else {
      var empty := "";
      var rest := Times("/", j - 1) + tail;
      assert Times("/", j) + tail == empty + "/" + rest;
      SlashesSegments(j - 1, tail);
      SegmentsConcat(empty, rest);
      NoSegments();
    }
  }

  /** A leading `./` never matters. */
  lemma DotMeansNothing(u: string, id: string)
    requires !StartsWith(u, "logos://")
    ensures Resolve("./" + u, Some(id)) == Resolve(u, Some(id))
  {
    var k, j, tail := IsRelative(u);
    var uri := "./" + u;
    assert uri == Times("./", k + 1) + (Times("/", j) + tail) by {
      assert Times("./", k + 1) == "./" + Times("./", k);
    }
    assert uri[0] == '.';
    StartsWithLogos(uri);
    hide Resolve, Times;
    ResolveStrips(u, id, k, j, tail);
    ResolveStrips(uri, id, k + 1, j, tail);
  }
}
