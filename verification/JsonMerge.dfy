/** `json_deep_merge`: the loop, what it means path by path, its algebra, and JSON Merge Patch. */
module JsonMerge {
  import opened Json

  function Entry(fields: map<string, Json>, key: string): Json {
    if key in fields then fields[key] else Null
  }

  /** Merging as a function: objects member by member, anything else replaced. */
  function Merge(base: Json, patch: Json): Json
    decreases patch, 1
  {
    if base.Obj? && patch.Obj? then Obj(Partial(base.fields, patch, patch.fields.Keys)) else patch
  }

  /** The members of an object after the patch's members `done` were merged into it. */
  function Partial(base: map<string, Json>, patch: Json, done: set<string>): map<string, Json>
    requires patch.Obj? && done <= patch.fields.Keys
    decreases patch, 0
  {
    map k | k in base.Keys + done :: if k in done then Merge(Entry(base, k), patch.fields[k]) else base[k]
  }

  lemma Members(base: Json, patch: Json)
    requires base.Obj? && patch.Obj?
    ensures var r := Merge(base, patch);
            && r.Obj? && r.fields.Keys == base.fields.Keys + patch.fields.Keys
            && (forall k :: k in patch.fields ==> r.fields[k] == Merge(Entry(base.fields, k), patch.fields[k]))
            && (forall k :: k in base.fields && k !in patch.fields ==> r.fields[k] == base.fields[k])
  {
    assert Merge(base, patch).fields == Partial(base.fields, patch, patch.fields.Keys);
  }

  /** The members of an object when the patch's members `todo` are yet to be merged into it. */
  function Before(base: map<string, Json>, patch: Json, todo: set<string>): map<string, Json>
    requires patch.Obj?
  {
    Partial(base, patch, patch.fields.Keys - todo)
  }

  lemma MergeMember(base: map<string, Json>, patch: Json, todo: set<string>, key: string)
    requires patch.Obj? && key in patch.fields && key in todo
    ensures Entry(Before(base, patch, todo), key) == Entry(base, key)
    ensures Before(base, patch, todo - {key})
         == Before(base, patch, todo)[key := Merge(Entry(base, key), patch.fields[key])]
  {
    hide Merge;
    assert patch.fields.Keys - (todo - {key}) == patch.fields.Keys - todo + {key};
  }

  lemma BeforeEnds(base: Json, patch: Json)
    requires base.Obj? && patch.Obj?
    ensures Before(base.fields, patch, patch.fields.Keys) == base.fields
    ensures Merge(base, patch) == Obj(Before(base.fields, patch, {}))
  {
    assert patch.fields.Keys - {} == patch.fields.Keys;
  }

  /** The loop over the members of the patch, in whatever order the map yields them; an absent member
      of the base starts as null. */
  method DeepMerge(base: Json, patch: Json) returns (merged: Json)
    ensures merged == Merge(base, patch)
    decreases patch
  {
    if !base.Obj? || !patch.Obj? {
      return patch;
    }
    BeforeEnds(base, patch);
    hide Merge, Partial, Before, Entry;
    var fields := base.fields;
    var todo := patch.fields.Keys;
    while todo != {}
      invariant todo <= patch.fields.Keys
      invariant fields == Before(base.fields, patch, todo)
      decreases |todo|
    {
      var key :| key in todo;
      MergeMember(base.fields, patch, todo, key);
      var entry := DeepMerge(Entry(fields, key), patch.fields[key]);
      fields := fields[key := entry];
      todo := todo - {key};
    }
    merged := Obj(fields);
  }

  // ---- What is found at a path ----

  datatype View = Missing | Node | Leaf(v: Json)

  /** What member names lead to: nothing, an object, or a value that is not an object. */
  function At(j: Json, path: seq<string>): View
    decreases |path|
  {
    if path == [] then (if j.Obj? then Node else Leaf(j))
    else if j.Obj? && path[0] in j.fields then At(j.fields[path[0]], path[1..])
    else Missing
  }

  /** A proper or improper beginning of the path ends in a value that is not an object. */
  ghost predicate Cut(j: Json, path: seq<string>) {
    exists n :: 0 <= n <= |path| && At(j, path[..n]).Leaf?
  }

  lemma {:induction false} AtAppend(j: Json, path: seq<string>, more: seq<string>)
    requires more != [] && At(j, path) != Node
    ensures At(j, path + more) == Missing
    decreases |path|
  {
    if path != [] {
      assert (path + more)[1..] == path[1..] + more;
      if j.Obj? && path[0] in j.fields {
        AtAppend(j.fields[path[0]], path[1..], more);
      }
    }
  }

  /** Everything on the way to something is an object. */
  lemma NodesAbove(j: Json, path: seq<string>, n: nat)
    requires n < |path| && At(j, path) != Missing
    ensures At(j, path[..n]) == Node
  {
    assert path[..n] + path[n..] == path;
    if At(j, path[..n]) != Node {
      AtAppend(j, path[..n], path[n..]);
    }
  }

  lemma CutStep(j: Json, path: seq<string>)
    requires path != []
    ensures Cut(j, path) <==> !j.Obj? || (path[0] in j.fields && Cut(j.fields[path[0]], path[1..]))
  {
    assert !j.Obj? ==> At(j, path[..0]).Leaf?;
    if j.Obj? && Cut(j, path) {
      var n :| 0 <= n <= |path| && At(j, path[..n]).Leaf?;
      assert n > 0 && path[..n][1..] == path[1..][..n - 1];
      assert At(j.fields[path[0]], path[1..][..n - 1]).Leaf?;
    }
    if j.Obj? && path[0] in j.fields && Cut(j.fields[path[0]], path[1..]) {
      var n :| 0 <= n <= |path[1..]| && At(j.fields[path[0]], path[1..][..n]).Leaf?;
      assert path[..n + 1][1..] == path[1..][..n];
      assert At(j, path[..n + 1]).Leaf?;
    }
  }

  lemma CutNull(path: seq<string>)
    ensures Cut(Null, path)
    ensures path != [] ==> At(Null, path) == Missing
  {
    assert At(Null, path[..0]).Leaf?;
  }

  /** The merge, path by path: the patch wins wherever it says something, hides the base below its own
      leaves, and leaves the rest of the base as it was. */
  lemma {:induction false} MergeAt(base: Json, patch: Json, path: seq<string>)
    ensures At(Merge(base, patch), path)
         == if At(patch, path) != Missing then At(patch, path)
            else if Cut(patch, path) then Missing
            else At(base, path)
    decreases |path|
  {
    if path != [] {
      CutStep(patch, path);
      if base.Obj? && patch.Obj? {
        if path[0] in patch.fields {
          var e := Entry(base.fields, path[0]);
          MergeAt(e, patch.fields[path[0]], path[1..]);
          if path[0] !in base.fields && path[1..] == [] {
          } else if path[0] !in base.fields {
            CutNull(path[1..]);
          }
        }
      }
    }
  }

  /** A value is determined by what is found at its paths, so `MergeAt` leaves one possible result. */
  lemma {:induction false} AtDetermines(a: Json, b: Json)
    requires forall path :: At(a, path) == At(b, path)
    ensures a == b
    decreases a
  {
    assert At(a, []) == At(b, []);
    if a.Obj? {
      forall k | k in a.fields.Keys + b.fields.Keys
        ensures k in a.fields && k in b.fields && a.fields[k] == b.fields[k]
      {
        assert At(a, [k]) == At(b, [k]);
        assert k in a.fields ==> At(a.fields[k], []) != Missing;
        assert k in b.fields ==> At(b.fields[k], []) != Missing;
        forall path ensures At(a.fields[k], path) == At(b.fields[k], path) {
          assert ([k] + path)[1..] == path;
          assert At(a, [k] + path) == At(b, [k] + path);
        }
        AtDetermines(a.fields[k], b.fields[k]);
      }
      assert a.fields.Keys == b.fields.Keys;
      assert a.fields == b.fields;
    }
  }

  /** Applying a patch a second time changes nothing. */
  lemma Idempotent(base: Json, patch: Json)
    ensures Merge(Merge(base, patch), patch) == Merge(base, patch)
  {
    var once := Merge(base, patch);
    forall path ensures At(Merge(once, patch), path) == At(once, path) {
      MergeAt(base, patch, path);
      MergeAt(once, patch, path);
    }
    AtDetermines(Merge(once, patch), once);
  }

  // ---- When one patch can stand for two ----

  /** Nowhere does the second patch hold an object where the first holds something else. */
  ghost predicate NoClobber(first: Json, second: Json) {
    forall path :: At(second, path) == Node ==> !At(first, path).Leaf?
  }

  lemma CutLonger(j: Json, path: seq<string>, n: nat)
    requires n <= |path|
    ensures Cut(j, path[..n]) ==> Cut(j, path)
  {
    forall m | 0 <= m <= n && At(j, path[..n][..m]).Leaf? ensures At(j, path[..m]).Leaf? {
      assert path[..n][..m] == path[..m];
    }
  }

  lemma CutMerged(first: Json, second: Json, path: seq<string>)
    requires !Cut(second, path)
    ensures Cut(Merge(first, second), path)
       <==> exists n :: 0 <= n <= |path| && At(first, path[..n]).Leaf? && At(second, path[..n]) != Node
  {
    var both := Merge(first, second);
    forall n | 0 <= n <= |path|
      ensures At(both, path[..n]).Leaf? <==> At(first, path[..n]).Leaf? && At(second, path[..n]) != Node
    {
      MergeAt(first, second, path[..n]);
      CutLonger(second, path, n);
    }
  }

  lemma AssociativeAt(base: Json, first: Json, second: Json, path: seq<string>)
    requires NoClobber(first, second)
    ensures At(Merge(Merge(base, first), second), path) == At(Merge(base, Merge(first, second)), path)
  {
    var both := Merge(first, second);
    MergeAt(Merge(base, first), second, path);
    MergeAt(base, first, path);
    MergeAt(base, both, path);
    MergeAt(first, second, path);
    if Cut(second, path) {
      var n :| 0 <= n <= |path| && At(second, path[..n]).Leaf?;
      MergeAt(first, second, path[..n]);
      assert At(both, path[..n]).Leaf?;
    } else {
      CutMerged(first, second, path);
      forall n | 0 <= n <= |path| && At(first, path[..n]).Leaf? ensures At(second, path[..n]) != Node {}
    }
  }

  lemma FreshKey(keys: set<string>) returns (key: string)
    ensures key !in keys
  {
    var longest := Longest(keys);
    key := seq(longest + 1, i => 'x');
  }

  lemma {:induction false} Longest(keys: set<string>) returns (n: nat)
    ensures forall k :: k in keys ==> |k| <= n
  {
    n := 0;
    if keys != {} {
      var k :| k in keys;
      var m := Longest(keys - {k});
      n := if |k| > m then |k| else m;
    }
  }

  /** The keys of the object at a path. */
  function KeysAt(j: Json, path: seq<string>): set<string>
    decreases |path|
  {
    if !j.Obj? then {}
    else if path == [] then j.fields.Keys
    else if path[0] in j.fields then KeysAt(j.fields[path[0]], path[1..])
    else {}
  }

  lemma {:induction false} KeysMissing(j: Json, path: seq<string>, key: string)
    requires At(j, path) == Node && key !in KeysAt(j, path)
    ensures At(j, path + [key]) == Missing
    decreases |path|
  {
    if path != [] {
      assert (path + [key])[1..] == path[1..] + [key];
      KeysMissing(j.fields[path[0]], path[1..], key);
    }
  }

  /** Objects one in the other along a path, with a null at its end. */
  function Nested(path: seq<string>): Json
    decreases |path|
  {
    if path == [] then Null else Obj(map[path[0] := Nested(path[1..])])
  }

  lemma {:induction false} NestedAt(path: seq<string>)
    ensures At(Nested(path), path) == Leaf(Null)
    decreases |path|
  {
    if path != [] {
      NestedAt(path[1..]);
    }
  }

  /** Where an object of the second patch meets another value of the first, some base tells two patches
      in a row from the merged patch. */
  lemma ClobberShows(first: Json, second: Json, path: seq<string>) returns (base: Json)
    requires At(second, path) == Node && At(first, path).Leaf?
    ensures Merge(Merge(base, first), second) != Merge(base, Merge(first, second))
  {
    var key := FreshKey(KeysAt(second, path));
    var below := path + [key];
    base := Nested(below);
    NestedAt(below);
    KeysMissing(second, path, key);
    AtAppend(first, path, [key]);
    assert below[..|path|] == path;
    assert Cut(first, below);
    forall n | 0 <= n <= |below| ensures !At(second, below[..n]).Leaf? {
      ClearAbove(second, path, key, n);
    }
    assert !Cut(second, below);
    CutMerged(first, second, below);
    forall n | 0 <= n <= |below| && At(first, below[..n]).Leaf? ensures At(second, below[..n]) == Node {
      LeafOnce(first, path, key, n);
    }
    MergeAt(Merge(base, first), second, below);
    MergeAt(base, first, below);
    MergeAt(base, Merge(first, second), below);
    MergeAt(first, second, below);
  }

  lemma ClearAbove(j: Json, path: seq<string>, key: string, n: nat)
    requires n <= |path| + 1 && At(j, path) == Node && At(j, path + [key]) == Missing
    ensures !At(j, (path + [key])[..n]).Leaf?
  {
    var below := path + [key];
    if n < |path| {
      NodesAbove(j, path, n);
      assert below[..n] == path[..n];
    } else {
      assert below[..n] == if n == |path| then path else below;
    }
  }

  lemma LeafOnce(j: Json, path: seq<string>, key: string, n: nat)
    requires n <= |path| + 1 && At(j, path).Leaf? && At(j, (path + [key])[..n]).Leaf?
    ensures (path + [key])[..n] == path
  {
    var below := path + [key];
    assert n <= |path| ==> below[..n] == path[..n];
    assert n > |path| ==> below[..n] == below;
    if n < |path| {
      NodesAbove(j, path, n);
    } else {
      AtAppend(j, path, [key]);
    }
  }

  /** Two patches may be merged beforehand exactly when the second never puts an object over another
      value of the first. */
  lemma AssociativeIff(first: Json, second: Json)
    ensures (forall base :: Merge(Merge(base, first), second) == Merge(base, Merge(first, second)))
       <==> NoClobber(first, second)
  {
    if NoClobber(first, second) {
      forall base ensures Merge(Merge(base, first), second) == Merge(base, Merge(first, second)) {
        forall path ensures At(Merge(Merge(base, first), second), path) == At(Merge(base, Merge(first, second)), path) {
          AssociativeAt(base, first, second, path);
        }
        AtDetermines(Merge(Merge(base, first), second), Merge(base, Merge(first, second)));
      }
    } else {
      var path :| At(second, path) == Node && At(first, path).Leaf?;
      var base := ClobberShows(first, second, path);
    }
  }

  // ---- JSON Merge Patch ----

  /** `MergePatch` of section 2 of RFC 7396: a null member of the patch removes, and a target that is
      not an object starts as an empty one. */
  function MergePatch(target: Json, patch: Json): Json
    decreases patch
  {
    if patch.Obj? then
      var members := if target.Obj? then target.fields else map[];
      Obj(map k | k in members.Keys + patch.fields.Keys && (k in patch.fields ==> patch.fields[k] != Null) ::
        if k in patch.fields then MergePatch(Entry(members, k), patch.fields[k]) else members[k])
    else patch
  }

  /** No member of an object of the patch is null; nulls inside arrays do not matter. */
  predicate NoNullMember(patch: Json) {
    patch.Obj? ==> forall k :: k in patch.fields ==> patch.fields[k] != Null && NoNullMember(patch.fields[k])
  }

  /** Over something that is not an object, the standard copies a patch without null members. */
  lemma {:induction false} PatchCopies(target: Json, patch: Json)
    requires !target.Obj?
    ensures MergePatch(target, patch) == patch <==> NoNullMember(patch)
    decreases patch
  {
    if patch.Obj? {
      var r := MergePatch(target, patch);
      forall k | k in patch.fields && patch.fields[k] != Null
        ensures r.fields[k] == patch.fields[k] <==> NoNullMember(patch.fields[k])
      {
        PatchCopies(Null, patch.fields[k]);
      }
      forall k | k in patch.fields && patch.fields[k] == Null ensures r != patch {}
      if NoNullMember(patch) {
        assert r.fields == patch.fields;
      }
      if r == patch {
        forall k | k in patch.fields ensures patch.fields[k] != Null && NoNullMember(patch.fields[k]) {
          assert k in r.fields;
        }
      }
    }
  }

  /** For every base, the kernel's merge gives what the standard asks exactly for the patches that hold
      no null member. */
  lemma {:induction false} AgreesWithStandard(base: Json, patch: Json)
    ensures Merge(base, patch) == MergePatch(base, patch) <==> NoNullMember(patch)
    decreases patch
  {
    if !patch.Obj? {
    } else if !base.Obj? {
      PatchCopies(base, patch);
    } else {
      var ours, theirs := Merge(base, patch), MergePatch(base, patch);
      Members(base, patch);
      forall k | k in patch.fields && patch.fields[k] != Null
        ensures ours.fields[k] == theirs.fields[k] <==> NoNullMember(patch.fields[k])
      {
        AgreesWithStandard(Entry(base.fields, k), patch.fields[k]);
        assert k in ours.fields && k in theirs.fields;
      }
      if NoNullMember(patch) {
        assert ours.fields == theirs.fields;
      }
      if ours == theirs {
        forall k | k in patch.fields ensures patch.fields[k] != Null && NoNullMember(patch.fields[k]) {
          assert k in ours.fields;
        }
      }
    }
  }
}
