/** Anchors and their supersession links (crates/logos-system/src/anchors.rs). */
module Anchors {
  import opened Wrappers
  import opened Text
  import opened Json
  import opened Tasks

  /** A row; `facts` is the stored text read as a JSON array, if it is one. */
  datatype Anchor = Anchor(taskId: string, id: string, summary: string, facts: Option<seq<Json>>)

  /** The table in insertion order. */
  type Rows = seq<Anchor>

  predicate Has(rows: Rows, taskId: string, id: string) {
    exists i :: 0 <= i < |rows| && rows[i].taskId == taskId && rows[i].id == id
  }

  lemma HasAt(rows: Rows, taskId: string, id: string, i: nat)
    requires i <= |rows| && forall j :: 0 <= j < i ==> !(rows[j].taskId == taskId && rows[j].id == id)
    requires i < |rows| ==> rows[i].taskId == taskId && rows[i].id == id
    ensures Has(rows, taskId, id) <==> i < |rows|
  {
  }

  /** The primary key. */
  predicate Unique(rows: Rows) {
    forall i, j :: 0 <= i < j < |rows| ==> rows[i].taskId != rows[j].taskId || rows[i].id != rows[j].id
  }

  // ---- Anchor URIs ----

  function Parts(taskId: string, id: string): seq<string> {
    ["logos:", "", "system", "anchors", taskId, id]
  }

  function Uri(taskId: string, id: string): string {
    "logos://system/anchors/" + taskId + "/" + id
  }

  function ParseUri(uri: string): Option<(string, string)> {
    var parts := Split(uri, '/');
    if |parts| != 6 || parts[3] != "anchors" then None else Some((parts[4], parts[5]))
  }

  lemma UriJoins(taskId: string, id: string)
    ensures Uri(taskId, id) == Join(Parts(taskId, id), '/')
  {
    var last := [taskId] + [id];
    JoinOnto(taskId, [id], '/');
    JoinOnto("anchors", last, '/');
    JoinOnto("system", ["anchors"] + last, '/');
    JoinOnto("", ["system"] + (["anchors"] + last), '/');
    JoinOnto("logos:", [""] + (["system"] + (["anchors"] + last)), '/');
    assert Join([id], '/') == id;
    assert Parts(taskId, id) == ["logos:"] + ([""] + (["system"] + (["anchors"] + last)));
    hide Join;
    assert "logos:" + "/" + "" + "/" + "system" + "/" + "anchors" + "/" == "logos://system/anchors/";
  }

  /** A printed anchor URI reads back as the same pair exactly when neither part holds a slash. */
  lemma UriRoundTrip(taskId: string, id: string)
    ensures ParseUri(Uri(taskId, id)) == Some((taskId, id)) <==> '/' !in taskId && '/' !in id
  {
    var p := Parts(taskId, id);
    SplitClean(Uri(taskId, id), '/');
    if '/' !in taskId && '/' !in id {
      UriJoins(taskId, id);
      forall i | 0 <= i < |p| ensures '/' !in p[i] {}
      SplitJoin(p, '/');
    }
  }

  /** What `mark_superseded` takes for an anchor URI: six parts, the fourth of them `anchors`; the scheme is
      not looked at. */
  lemma ParseUriIff(uri: string, taskId: string, id: string)
    ensures ParseUri(uri) == Some((taskId, id))
       <==> exists a, b, c :: SixParts(a, b, c, taskId, id) && uri == Join([a, b, c, "anchors", taskId, id], '/')
  {
    var parts := Split(uri, '/');
    SplitClean(uri, '/');
    JoinSplit(uri, '/');
    if ParseUri(uri) == Some((taskId, id)) {
      assert parts == [parts[0], parts[1], parts[2], "anchors", taskId, id];
      assert SixParts(parts[0], parts[1], parts[2], taskId, id);
    }
    if a, b, c :| SixParts(a, b, c, taskId, id) && uri == Join([a, b, c, "anchors", taskId, id], '/') {
      var six := [a, b, c, "anchors", taskId, id];
      forall i | 0 <= i < 6 ensures '/' !in six[i] {}
      SplitJoin(six, '/');
    }
  }

  predicate SixParts(a: string, b: string, c: string, taskId: string, id: string) {
    '/' !in a && '/' !in b && '/' !in c && '/' !in taskId && '/' !in id
  }

  // ---- Marking ----

  /** The URIs that a fact names as superseded: one text, or the texts of an array. */
  function Supersedes(fact: Json): seq<string> {
    match Member(fact, "supersedes")
    case Arr(items) => Strings(items)
    case Str(s) => [s]
    case _ => []
  }

  function Strings(items: seq<Json>): seq<string> {
    if items == [] then []
    else (if items[0].Str? then [items[0].s] else []) + Strings(items[1..])
  }

  function Targets(facts: seq<Json>): seq<string> {
    if facts == [] then [] else Targets(facts[..|facts| - 1]) + Supersedes(facts[|facts| - 1])
  }

  function MarkFact(fact: Json, newer: string): Json {
    if fact.Obj? then Obj(fact.fields["status" := Str("superseded")]["superseded_by" := Str(newer)]) else fact
  }

  function MarkFacts(facts: seq<Json>, newer: string): (r: seq<Json>)
    ensures |r| == |facts|
    ensures forall k :: 0 <= k < |facts| ==> r[k] == MarkFact(facts[k], newer)
  {
    seq(|facts|, k requires 0 <= k < |facts| => MarkFact(facts[k], newer))
  }

  /** A text that is no array of facts is replaced by the empty one. */
  function MarkRow(a: Anchor, newer: string): Anchor {
    a.(facts := Some(MarkFacts(if a.facts.Some? then a.facts.value else [], newer)))
  }

  predicate Names(uri: string, a: Anchor) {
    ParseUri(uri) == Some((a.taskId, a.id))
  }

  predicate NamedBy(uris: seq<string>, a: Anchor) {
    exists u :: 0 <= u < |uris| && Names(uris[u], a)
  }

  /** The table after every row that one of the URIs names was marked. */
  function Marked(rows: Rows, uris: seq<string>, newer: string): Rows {
    seq(|rows|, i requires 0 <= i < |rows| => if NamedBy(uris, rows[i]) then MarkRow(rows[i], newer) else rows[i])
  }

  lemma MarkedKeys(rows: Rows, uris: seq<string>, newer: string)
    ensures var r := Marked(rows, uris, newer);
            && |r| == |rows|
            && forall i :: 0 <= i < |r| ==>
               r[i].taskId == rows[i].taskId && r[i].id == rows[i].id && r[i].summary == rows[i].summary
  {
  }

  lemma MarkRowTwice(a: Anchor, newer: string)
    ensures MarkRow(MarkRow(a, newer), newer) == MarkRow(a, newer)
  {
    var once := MarkRow(a, newer).facts.value;
    forall k | 0 <= k < |once| ensures MarkFacts(once, newer)[k] == once[k] {
      var f := (if a.facts.Some? then a.facts.value else [])[k];
      if f.Obj? {
        assert MarkFact(once[k], newer).fields == once[k].fields;
      }
    }
    assert MarkFacts(once, newer) == once;
  }

  lemma MarkedStep(rows: Rows, uris: seq<string>, uri: string, newer: string)
    ensures Marked(Marked(rows, uris, newer), [uri], newer) == Marked(rows, uris + [uri], newer)
  {
    var once := Marked(rows, uris, newer);
    forall i | 0 <= i < |rows|
      ensures Marked(once, [uri], newer)[i] == Marked(rows, uris + [uri], newer)[i]
    {
      assert NamedBy([uri], once[i]) <==> Names(uri, rows[i]) by { assert [uri][0] == uri; }
      NamedByAppend(uris, uri, rows[i]);
      MarkRowTwice(rows[i], newer);
    }
  }

  lemma NamedByAppend(uris: seq<string>, uri: string, a: Anchor)
    ensures NamedBy(uris + [uri], a) <==> NamedBy(uris, a) || Names(uri, a)
  {
    var all := uris + [uri];
    assert all[|uris|] == uri;
    if NamedBy(uris, a) {
      var u :| 0 <= u < |uris| && Names(uris[u], a);
      assert all[u] == uris[u];
    }
  }

  /** The URI under which `create` announces the new anchor, and the URIs that its facts supersede. */
  function Listed(facts: Option<seq<Json>>): seq<string> {
    if facts.Some? then Targets(facts.value) else []
  }

  /** Marks come first; the insertion then fails when the task has an anchor of the same minute. */
  function Created(rows: Rows, a: Anchor): Rows {
    var marked := Marked(rows, Listed(a.facts), Uri(a.taskId, a.id));
    if Has(rows, a.taskId, a.id) then marked else marked + [a]
  }

  // ---- What a creation does, fact by fact ----

  /** A fact says of an anchor that it is superseded: its member is a text that names it, or an array that
      holds such a text. */
  ghost predicate SaysSuperseded(fact: Json, a: Anchor) {
    var m := Member(fact, "supersedes");
    || (m.Str? && Names(m.s, a))
    || (m.Arr? && exists k :: 0 <= k < |m.items| && m.items[k].Str? && Names(m.items[k].s, a))
  }

  ghost predicate SupersededBy(facts: Option<seq<Json>>, a: Anchor) {
    facts.Some? && exists k :: 0 <= k < |facts.value| && SaysSuperseded(facts.value[k], a)
  }

  /** The fact as it was, but for its status and its link. */
  ghost predicate MarkedFact(before: Json, after: Json, uri: string) {
    if before.Obj? then
      && after.Obj? && after.fields.Keys == before.fields.Keys + {"status", "superseded_by"}
      && after.fields["status"] == Str("superseded") && after.fields["superseded_by"] == Str(uri)
      && forall k :: k in before.fields && k != "status" && k != "superseded_by" ==> after.fields[k] == before.fields[k]
    else after == before
  }

  /** Every fact of the row is marked; a text that is no array of facts has none. */
  ghost predicate MarkedAnchor(before: Anchor, after: Anchor, uri: string) {
    && after.taskId == before.taskId && after.id == before.id && after.summary == before.summary && after.facts.Some?
    && var facts := if before.facts.Some? then before.facts.value else [];
       |after.facts.value| == |facts|
       && forall k :: 0 <= k < |facts| ==> MarkedFact(facts[k], after.facts.value[k], uri)
  }

  /** What becomes of an old row. */
  ghost predicate RowAfter(before: Anchor, after: Anchor, a: Anchor) {
    if SupersededBy(a.facts, before) then
      MarkedAnchor(before, after, "logos://system/anchors/" + a.taskId + "/" + a.id)
    else after == before
  }

  /** The whole table after a creation: exactly the rows that a fact supersedes are marked, and the new row
      is there as it was asked for, unless its key was taken. */
  ghost predicate CreatesAs(rows: Rows, a: Anchor, next: Rows) {
    && (forall i :: 0 <= i < |rows| && i < |next| ==> RowAfter(rows[i], next[i], a))
    && (if exists i :: 0 <= i < |rows| && rows[i].taskId == a.taskId && rows[i].id == a.id
        then |next| == |rows|
        else |next| == |rows| + 1 && next[|rows|] == a)
  }

  lemma {:induction false} StringsIn(items: seq<Json>, uri: string)
    ensures uri in Strings(items) <==> exists k :: 0 <= k < |items| && items[k].Str? && items[k].s == uri
  {
    if items != [] {
      StringsIn(items[1..], uri);
      if k :| 0 <= k < |items| && items[k].Str? && items[k].s == uri {
        assert k > 0 ==> items[1..][k - 1] == items[k];
      }
      if k :| 0 <= k < |items[1..]| && items[1..][k].Str? && items[1..][k].s == uri {
        assert items[k + 1] == items[1..][k];
      }
    }
  }

  ghost predicate AnyNames(uris: seq<string>, a: Anchor) {
    exists uri :: uri in uris && Names(uri, a)
  }

  ghost predicate AnySays(facts: seq<Json>, a: Anchor) {
    exists k :: 0 <= k < |facts| && SaysSuperseded(facts[k], a)
  }

  lemma SupersedesIff(fact: Json, a: Anchor)
    ensures SaysSuperseded(fact, a) <==> AnyNames(Supersedes(fact), a)
  {
    var m := Member(fact, "supersedes");
    if m.Arr? {
      forall uri
        ensures uri in Strings(m.items) <==> exists k :: 0 <= k < |m.items| && m.items[k].Str? && m.items[k].s == uri
      {
        StringsIn(m.items, uri);
      }
      if k :| 0 <= k < |m.items| && m.items[k].Str? && Names(m.items[k].s, a) {
        assert m.items[k].s in Strings(m.items);
      }
    } else if m.Str? {
      assert Supersedes(fact) == [m.s] && m.s in [m.s];
    }
  }

  lemma AnySaysLast(facts: seq<Json>, a: Anchor)
    requires facts != []
    ensures AnySays(facts, a) <==> AnySays(facts[..|facts| - 1], a) || SaysSuperseded(facts[|facts| - 1], a)
  {
    var n := |facts| - 1;
    assert forall k :: 0 <= k < n ==> facts[..n][k] == facts[k];
    hide SaysSuperseded;
    if k :| 0 <= k < |facts| && SaysSuperseded(facts[k], a) {
      assert k < n ==> SaysSuperseded(facts[..n][k], a);
    }
    if k :| 0 <= k < n && SaysSuperseded(facts[..n][k], a) {
      assert SaysSuperseded(facts[k], a);
    }
  }

  lemma AnyNamesConcat(x: seq<string>, y: seq<string>, a: Anchor)
    ensures AnyNames(x + y, a) <==> AnyNames(x, a) || AnyNames(y, a)
  {
    hide Names;
    assert forall uri :: uri in x + y <==> uri in x || uri in y;
  }

  lemma {:induction false} TargetsIff(facts: seq<Json>, a: Anchor)
    ensures AnyNames(Targets(facts), a) <==> AnySays(facts, a)
  {
    if facts != [] {
      var n := |facts| - 1;
      assert Targets(facts) == Targets(facts[..n]) + Supersedes(facts[n]);
      hide Targets, AnyNames, AnySays, SaysSuperseded, Supersedes;
      TargetsIff(facts[..n], a);
      SupersedesIff(facts[n], a);
      AnySaysLast(facts, a);
      AnyNamesConcat(Targets(facts[..n]), Supersedes(facts[n]), a);
    }
  }

  lemma ListedIff(facts: Option<seq<Json>>, a: Anchor)
    ensures NamedBy(Listed(facts), a) <==> SupersededBy(facts, a)
  {
    hide Names, SaysSuperseded, Targets;
    if facts.Some? {
      TargetsIff(facts.value, a);
    }
    var uris := Listed(facts);
    if NamedBy(uris, a) {
      var u :| 0 <= u < |uris| && Names(uris[u], a);
      assert uris[u] in uris;
    }
    if uri :| uri in uris && Names(uri, a) {
      var u :| 0 <= u < |uris| && uris[u] == uri;
      assert NamedBy(uris, a);
    }
  }

  lemma CreatedAs(rows: Rows, a: Anchor)
    ensures CreatesAs(rows, a, Created(rows, a))
  {
    var uri := Uri(a.taskId, a.id);
    assert uri == "logos://system/anchors/" + a.taskId + "/" + a.id;
    var next := Created(rows, a);
    forall i | 0 <= i < |rows| ensures RowAfter(rows[i], next[i], a) {
      ListedIff(a.facts, rows[i]);
      hide Listed, NamedBy, SupersededBy;
    }
  }

  lemma CreatedUnique(rows: Rows, a: Anchor)
    requires Unique(rows)
    ensures Unique(Created(rows, a))
  {
    MarkedKeys(rows, Listed(a.facts), Uri(a.taskId, a.id));
    hide Marked;
  }

  /** `AnchorDb`. */
  class AnchorDb {
    var rows: Rows

    ghost predicate Valid() reads this { Unique(rows) }

    constructor ()
      ensures Valid() && rows == []
    {
      rows := [];
    }

    method MarkSuperseded(uri: string, newer: string) returns (r: Result<(), Error>)
      requires Valid()
      modifies this
      ensures Valid() && rows == Marked(old(rows), [uri], newer)
      ensures r == if ParseUri(uri).None? then Err(InvalidPath) else Ok(())
    {
      assert [uri][0] == uri;
      var parts := Split(uri, '/');
      if |parts| != 6 || parts[3] != "anchors" {
        assert rows == Marked(rows, [uri], newer);
        return Err(InvalidPath);
      }
      var i := 0;
      while i < |rows| && !(rows[i].taskId == parts[4] && rows[i].id == parts[5])
        invariant 0 <= i <= |rows|
        invariant forall j :: 0 <= j < i ==> !Names(uri, rows[j])
      {
        i := i + 1;
      }
      if i == |rows| {
        assert rows == Marked(rows, [uri], newer);
        return Ok(());
      }
      var stored := if rows[i].facts.Some? then rows[i].facts.value else [];
      var facts := stored;
      var k := 0;
      while k < |facts|
        invariant 0 <= k <= |facts| == |stored|
        invariant forall m :: 0 <= m < |facts| ==> facts[m] == if m < k then MarkFact(stored[m], newer) else stored[m]
      {
        if facts[k].Obj? {
          var fields := facts[k].fields;
          fields := fields["status" := Str("superseded")];
          fields := fields["superseded_by" := Str(newer)];
          facts := facts[k := Obj(fields)];
        }
        k := k + 1;
      }
      assert facts == MarkFacts(stored, newer);
      rows := rows[i := rows[i].(facts := Some(facts))];
      assert rows == Marked(old(rows), [uri], newer);
      return Ok(());
    }

    /** The inner loop of `create`, over the URIs of one fact. */
    method MarkAll(uris: seq<string>, newer: string, ghost before: Rows, ghost done: seq<string>)
      requires Valid() && rows == Marked(before, done, newer)
      modifies this
      ensures Valid() && rows == Marked(before, done + uris, newer)
    {
      hide Marked, ParseUri, Unique;
      var u := 0;
      assert done + uris[..0] == done;
      while u < |uris|
        invariant 0 <= u <= |uris|
        invariant Valid() && rows == Marked(before, done + uris[..u], newer)
      {
        MarkedStep(before, done + uris[..u], uris[u], newer);
        assert done + uris[..u + 1] == done + uris[..u] + [uris[u]];
        var _ := MarkSuperseded(uris[u], newer);
        u := u + 1;
      }
      assert uris[..|uris|] == uris;
    }

    /** `minute` is the clock, printed as `%Y-%m-%dT%H:%M`. */
    method Create(taskId: string, minute: string, summary: string, facts: Option<seq<Json>>)
      returns (r: Result<string, Error>)
      requires Valid()
      modifies this
      ensures Valid() && rows == Created(old(rows), Anchor(taskId, minute, summary, facts))
      ensures CreatesAs(old(rows), Anchor(taskId, minute, summary, facts), rows)
      ensures r == if Has(old(rows), taskId, minute) then Err(Sqlite) else Ok(minute)
    {
      var newer := Uri(taskId, minute);
      ghost var before := rows;
      assert rows == Marked(before, [], newer);
      CreatedUnique(before, Anchor(taskId, minute, summary, facts));
      CreatedAs(before, Anchor(taskId, minute, summary, facts));
      hide Marked, Uri, ParseUri, Has, Unique, CreatesAs;
      if facts.Some? {
        var all := facts.value;
        var k := 0;
        while k < |all|
          invariant 0 <= k <= |all|
          invariant Valid() && rows == Marked(before, Targets(all[..k]), newer)
        {
          assert all[..k + 1][..k] == all[..k];
          MarkAll(Supersedes(all[k]), newer, before, Targets(all[..k]));
          k := k + 1;
        }
        assert all[..|all|] == all;
      }
      MarkedKeys(before, Listed(facts), newer);
      var i := 0;
      while i < |rows| && !(rows[i].taskId == taskId && rows[i].id == minute)
        invariant 0 <= i <= |rows|
        invariant forall j :: 0 <= j < i ==> !(before[j].taskId == taskId && before[j].id == minute)
      {
        i := i + 1;
      }
      HasAt(before, taskId, minute, i);
      if i < |rows| {
        return Err(Sqlite);
      }
      rows := rows + [Anchor(taskId, minute, summary, facts)];
      return Ok(minute);
    }
  }

  // ---- Links ----

  /** The link that a fact carries, if any. */
  function LinkOf(fact: Json): Option<string> {
    match Member(fact, "superseded_by")
    case Str(s) => Some(s)
    case _ => None
  }

  predicate Superseded(fact: Json) {
    Member(fact, "status") == Str("superseded")
  }

  function FactsOf(a: Anchor): seq<Json> {
    if a.facts.Some? then a.facts.value else []
  }

  /** Every link leads to a later anchor. */
  ghost predicate Forward(rows: Rows) {
    forall i, k :: 0 <= i < |rows| && 0 <= k < |FactsOf(rows[i])| && LinkOf(FactsOf(rows[i])[k]).Some? ==>
      Onward(rows, i, LinkOf(FactsOf(rows[i])[k]).value)
  }

  ghost predicate Onward(rows: Rows, i: nat, uri: string) {
    exists j :: i < j < |rows| && Names(uri, rows[j])
  }

  predicate Honest(a: Anchor) {
    forall k :: 0 <= k < |FactsOf(a)| ==> LinkOf(FactsOf(a)[k]).None?
  }

  predicate SlashFree(a: Anchor) {
    '/' !in a.taskId && '/' !in a.id
  }

  lemma LinkMarked(fact: Json, newer: string)
    ensures LinkOf(MarkFact(fact, newer)) == if fact.Obj? then Some(newer) else None
    ensures !fact.Obj? ==> LinkOf(fact).None?
    ensures Superseded(fact) ==> Superseded(MarkFact(fact, newer))
  {
  }

  predicate HasObject(a: Anchor, k: int) {
    0 <= k < |FactsOf(a)| && FactsOf(a)[k].Obj?
  }

  ghost predicate Fresh(rows: Rows, a: Anchor) {
    !Has(rows, a.taskId, a.id)
  }

  /** The rows that would get a link, if any, all come before the anchor that has the key already. */
  ghost predicate MarksEarlier(rows: Rows, a: Anchor) {
    forall i, k :: 0 <= i < |rows| && NamedBy(Listed(a.facts), rows[i]) && HasObject(rows[i], k) ==>
      Onward(rows, i, Uri(a.taskId, a.id))
  }

  /** What a creation does to the links of a row that was there. */
  lemma LinkAfter(rows: Rows, a: Anchor, i: nat, k: nat)
    requires i < |rows| && k < |FactsOf(rows[i])|
    ensures var r := Created(rows, a);
            && i < |r| && r[i].taskId == rows[i].taskId && r[i].id == rows[i].id
            && |FactsOf(r[i])| == |FactsOf(rows[i])|
            && LinkOf(FactsOf(r[i])[k])
               == (if NamedBy(Listed(a.facts), rows[i]) && FactsOf(rows[i])[k].Obj? then Some(Uri(a.taskId, a.id))
                   else LinkOf(FactsOf(rows[i])[k]))
            && (Superseded(FactsOf(rows[i])[k]) ==> Superseded(FactsOf(r[i])[k]))
  {
    LinkMarked(FactsOf(rows[i])[k], Uri(a.taskId, a.id));
  }

  /** Keys never change, so a link that led onward still does. */
  lemma OnwardAfter(rows: Rows, a: Anchor, i: nat, uri: string)
    requires i < |rows|
    ensures Onward(rows, i, uri) ==> Onward(Created(rows, a), i, uri)
    ensures !Fresh(rows, a) ==> (Onward(rows, i, uri) <==> Onward(Created(rows, a), i, uri))
  {
    var r := Created(rows, a);
    forall j | 0 <= j < |rows| ensures Names(uri, r[j]) <==> Names(uri, rows[j]) {}
  }

  lemma OnwardNew(rows: Rows, a: Anchor, i: nat)
    requires i < |rows| && SlashFree(a) && Fresh(rows, a)
    ensures Onward(Created(rows, a), i, Uri(a.taskId, a.id))
  {
    UriRoundTrip(a.taskId, a.id);
    var r := Created(rows, a);
    assert r[|rows|] == a && Names(Uri(a.taskId, a.id), r[|rows|]);
  }

  /** Links keep leading to later anchors exactly when the new key is free, or nothing is marked from the
      anchor that holds it on. */
  lemma KeepsForwardIff(rows: Rows, a: Anchor)
    requires Unique(rows) && Forward(rows) && SlashFree(a) && Honest(a)
    ensures Forward(Created(rows, a)) <==> Fresh(rows, a) || MarksEarlier(rows, a)
  {
    var r := Created(rows, a);
    if Fresh(rows, a) || MarksEarlier(rows, a) {
      forall i, k | 0 <= i < |r| && 0 <= k < |FactsOf(r[i])| && LinkOf(FactsOf(r[i])[k]).Some?
        ensures Onward(r, i, LinkOf(FactsOf(r[i])[k]).value)
      {
        ForwardFact(rows, a, i, k);
      }
    } else if Forward(r) {
      var i, k :| 0 <= i < |rows| && NamedBy(Listed(a.facts), rows[i]) && HasObject(rows[i], k)
        && !Onward(rows, i, Uri(a.taskId, a.id));
      LinkAfter(rows, a, i, k);
      OnwardAfter(rows, a, i, Uri(a.taskId, a.id));
      assert false;
    }
  }

  lemma ForwardFact(rows: Rows, a: Anchor, i: nat, k: nat)
    requires Forward(rows) && SlashFree(a) && Honest(a)
    requires Fresh(rows, a) || MarksEarlier(rows, a)
    requires var r := Created(rows, a); i < |r| && k < |FactsOf(r[i])| && LinkOf(FactsOf(r[i])[k]).Some?
    ensures Onward(Created(rows, a), i, LinkOf(FactsOf(Created(rows, a)[i])[k]).value)
  {
    if i < |rows| {
      assert k < |FactsOf(rows[i])|;
      LinkAfter(rows, a, i, k);
      if NamedBy(Listed(a.facts), rows[i]) && FactsOf(rows[i])[k].Obj? {
        assert HasObject(rows[i], k);
        if Fresh(rows, a) {
          OnwardNew(rows, a, i);
        } else {
          OnwardAfter(rows, a, i, Uri(a.taskId, a.id));
        }
      } else {
        OnwardAfter(rows, a, i, LinkOf(FactsOf(rows[i])[k]).value);
      }
    }
  }

  /** Two creations for one task in one minute, the second superseding the first: the second fails, yet
      leaves the first anchor superseded by itself. */
  lemma SelfLink(a: Anchor, b: Anchor, k: nat)
    requires SlashFree(a) && k < |FactsOf(a)| && FactsOf(a)[k].Obj?
    requires b.taskId == a.taskId && b.id == a.id && Uri(a.taskId, a.id) in Listed(b.facts)
    ensures var r := Created([a], b);
            && !Fresh([a], b) && |r| == 1 && k < |FactsOf(r[0])|
            && LinkOf(FactsOf(r[0])[k]).Some? && Names(LinkOf(FactsOf(r[0])[k]).value, r[0])
            && !Forward(r)
  {
    UriRoundTrip(a.taskId, a.id);
    var rows := [a];
    assert rows[0] == a && Has(rows, b.taskId, b.id);
    assert Names(Uri(a.taskId, a.id), a);
    assert NamedBy(Listed(b.facts), rows[0]);
    LinkAfter(rows, b, 0, k);
  }

  // ---- Runs of creations ----

  function Build(created: seq<Anchor>): Rows {
    if created == [] then [] else Created(Build(created[..|created| - 1]), created[|created| - 1])
  }

  /** One anchor per task and minute, no slashes, and no caller writes links. */
  predicate Proper(created: seq<Anchor>) {
    && Unique(created)
    && forall i :: 0 <= i < |created| ==> Honest(created[i]) && SlashFree(created[i])
  }

  lemma ProperPrefix(created: seq<Anchor>)
    requires Proper(created) && created != []
    ensures var n := |created| - 1;
            && Proper(created[..n]) && Honest(created[n]) && SlashFree(created[n])
            && (forall i :: 0 <= i < n ==> created[i].taskId != created[n].taskId || created[i].id != created[n].id)
  {
    hide Honest, SlashFree;
  }

  /** A table that holds one anchor for every creation, under its key. */
  predicate Holds(rows: Rows, created: seq<Anchor>) {
    |rows| == |created| && forall i :: 0 <= i < |rows| ==> SameKey(rows[i], created[i])
  }

  lemma HoldsStep(rows: Rows, created: seq<Anchor>)
    requires created != [] && Holds(rows, created[..|created| - 1]) && Unique(rows) && Proper(created)
    ensures var r, a := Created(rows, created[|created| - 1]), created[|created| - 1];
            Fresh(rows, a) && Unique(r) && Holds(r, created)
  {
    var n := |created| - 1;
    ProperPrefix(created);
    hide Proper, Honest, SlashFree;
    forall i | 0 <= i < n ensures SameKey(rows[i], created[i]) {
      assert created[..n][i] == created[i];
    }
    hide Unique;
    CreatedKeys(rows, created[n]);
    hide Created;
  }

  lemma {:induction false} BuildProper(created: seq<Anchor>)
    requires Proper(created)
    ensures Unique(Build(created)) && Forward(Build(created)) && Holds(Build(created), created)
  {
    if created != [] {
      var n := |created| - 1;
      ProperPrefix(created);
      BuildProper(created[..n]);
      hide Created, Forward, Proper, Holds, Honest, SlashFree, Unique;
      HoldsStep(Build(created[..n]), created);
      KeepsForwardIff(Build(created[..n]), created[n]);
    }
  }

  predicate SameKey(a: Anchor, b: Anchor) {
    a.taskId == b.taskId && a.id == b.id && a.summary == b.summary
  }

  lemma CreatedKeys(rows: Rows, a: Anchor)
    requires Unique(rows) && Fresh(rows, a)
    ensures var r := Created(rows, a);
            && |r| == |rows| + 1 && Unique(r) && SameKey(r[|rows|], a)
            && forall i :: 0 <= i < |rows| ==> SameKey(r[i], rows[i])
  {
    MarkedKeys(rows, Listed(a.facts), Uri(a.taskId, a.id));
    hide Marked;
  }

  predicate SupersededAt(rows: Rows, i: nat, k: nat) {
    i < |rows| && k < |FactsOf(rows[i])| && Superseded(FactsOf(rows[i])[k])
  }

  lemma SupersededStep(rows: Rows, a: Anchor, i: nat, k: nat)
    requires SupersededAt(rows, i, k)
    ensures SupersededAt(Created(rows, a), i, k)
  {
    LinkAfter(rows, a, i, k);
  }

  /** A fact that is superseded stays so, whatever is created afterwards. */
  lemma {:induction false} SupersededStays(created: seq<Anchor>, more: seq<Anchor>, i: nat, k: nat)
    requires SupersededAt(Build(created), i, k)
    ensures SupersededAt(Build(created + more), i, k)
  {
    hide SupersededAt, Created;
    if more == [] {
      assert created + more == created;
    } else {
      var n := |more| - 1;
      SupersededStays(created, more[..n], i, k);
      assert (created + more)[..|created| + n] == created + more[..n];
      SupersededStep(Build(created + more[..n]), more[n], i, k);
    }
  }

  /** Where the first link of a row leads. */
  ghost function Successor(rows: Rows, i: nat): (r: Option<nat>)
    requires Forward(rows) && i < |rows|
    ensures r.Some? ==> i < r.value < |rows|
    ensures r.None? <==> forall k :: 0 <= k < |FactsOf(rows[i])| ==> LinkOf(FactsOf(rows[i])[k]).None?
  {
    if k :| 0 <= k < |FactsOf(rows[i])| && LinkOf(FactsOf(rows[i])[k]).Some? then
      var j: nat :| i < j < |rows| && Names(LinkOf(FactsOf(rows[i])[k]).value, rows[j]);
      Some(j)
    else None
  }

  /** The anchors met by following links: the recursion ends because links lead forward. */
  ghost function Chain(rows: Rows, i: nat): (r: seq<nat>)
    requires Forward(rows) && i < |rows|
    ensures 0 < |r| <= |rows| - i && r[0] == i
    ensures forall m :: 0 < m < |r| ==> r[m - 1] < r[m] < |rows|
    ensures r[|r| - 1] < |rows| && Successor(rows, r[|r| - 1]).None?
    decreases |rows| - i
  {
    match Successor(rows, i)
    case None => [i]
    case Some(j) => [i] + Chain(rows, j)
  }

  /** After any proper run, following the links from any anchor ends at a later one without a link. */
  lemma ChainsEnd(created: seq<Anchor>, i: nat)
    requires Proper(created) && i < |created|
    ensures var rows := Build(created);
            && |rows| == |created| && Forward(rows)
            && exists j :: i <= j < |rows| && Honest(rows[j]) && j in Chain(rows, i)
  {
    BuildProper(created);
    var rows := Build(created);
    var c := Chain(rows, i);
    var j := c[|c| - 1];
    ChainGrows(c);
    assert j in c && Honest(rows[j]);
  }

  lemma {:induction false} ChainGrows(c: seq<nat>)
    requires |c| > 0 && forall m :: 0 < m < |c| ==> c[m - 1] < c[m]
    ensures c[0] <= c[|c| - 1]
  {
    if |c| > 1 {
      ChainGrows(c[..|c| - 1]);
    }
  }
}
