/**
 The layers against the recency list: when L0 and L1 hold consecutive stretches of the list and the
 index covers exactly the messages of both, a locked section moves them to the stretches of the next list.
 */
module Refinement {
  import opened Wrappers
  import opened SessionTypes
  import opened Layers
  import R = Recency

  // ---- A list of sessions as a layer, and its messages as an index ----

  function ById(ss: seq<Session>): map<string, Session>
    decreases |ss|
  {
    if ss == [] then map[] else ById(ss[..|ss| - 1])[ss[|ss| - 1].sessionId := ss[|ss| - 1]]
  }

  function IndexOf(ss: seq<Session>): map<int, string>
    decreases |ss|
  {
    if ss == [] then map[] else IndexOf(ss[..|ss| - 1]) + Entries(ss[|ss| - 1])
  }

  /** A layer holds exactly the sessions of a list, each under its own name. */
  ghost predicate Holds(layer: map<string, Session>, ss: seq<Session>) {
    && (forall i :: 0 <= i < |ss| ==> ss[i].sessionId in layer && layer[ss[i].sessionId] == ss[i])
    && (forall k :: k in layer ==> layer[k] in ss && layer[k].sessionId == k)
  }

  /** A session apart from every session of a list. */
  ghost predicate Unlike(s: Session, ss: seq<Session>) {
    forall i :: 0 <= i < |ss| ==> R.Apart(s, ss[i])
  }

  lemma {:induction false} ByIdKeys(ss: seq<Session>, k: string)
    requires k in ById(ss)
    ensures exists i :: 0 <= i < |ss| && ss[i].sessionId == k && ById(ss)[k] == ss[i]
    decreases |ss|
  {
    var n := |ss| - 1;
    if k != ss[n].sessionId {
      ByIdKeys(ss[..n], k);
      var i :| 0 <= i < n && ss[..n][i].sessionId == k && ById(ss[..n])[k] == ss[..n][i];
      assert ss[i] == ss[..n][i];
    }
  }

  lemma {:induction false} IndexOfKeys(ss: seq<Session>, id: int)
    requires id in IndexOf(ss)
    ensures exists i :: 0 <= i < |ss| && id in ss[i].Ids() && IndexOf(ss)[id] == ss[i].sessionId
    decreases |ss|
  {
    var n := |ss| - 1;
    if id !in ss[n].Ids() {
      IndexOfKeys(ss[..n], id);
      var i :| 0 <= i < n && id in ss[..n][i].Ids() && IndexOf(ss[..n])[id] == ss[..n][i].sessionId;
      assert ss[i] == ss[..n][i];
    }
  }

  lemma {:induction false} PushById(s: Session, ss: seq<Session>)
    requires Unlike(s, ss)
    ensures ById([s] + ss) == ById(ss)[s.sessionId := s]
    decreases |ss|
  {
    var f := [s] + ss;
    if ss == [] {
      assert f[..0] == [];
    } else {
      var n := |ss| - 1;
      var x := ss[n];
      assert R.Apart(s, x);
      PushById(s, ss[..n]);
      assert f[..n + 1] == [s] + ss[..n] && f[n + 1] == x;
      var m := ById(ss[..n]);
      assert m[s.sessionId := s][x.sessionId := x] == m[x.sessionId := x][s.sessionId := s];
    }
  }

  lemma {:induction false} PushIndex(s: Session, ss: seq<Session>)
    requires Unlike(s, ss)
    ensures IndexOf([s] + ss) == IndexOf(ss) + Entries(s)
    decreases |ss|
  {
    var f := [s] + ss;
    if ss == [] {
      assert f[..0] == [];
    } else {
      var n := |ss| - 1;
      var x := ss[n];
      assert R.Apart(s, x);
      PushIndex(s, ss[..n]);
      assert f[..n + 1] == [s] + ss[..n] && f[n + 1] == x;
      MergeSwap(IndexOf(ss[..n]), Entries(s), Entries(x));
    }
  }

  lemma MergeSwap(m: map<int, string>, a: map<int, string>, b: map<int, string>)
    requires a.Keys !! b.Keys
    ensures m + a + b == m + b + a
  {
  }

  /** Taking the last session out of a list, as the layers see it. */
  lemma TakeLast(ss: seq<Session>, s: Session)
    requires Unlike(s, ss)
    ensures ById(ss + [s]) - {s.sessionId} == ById(ss)
    ensures Forget(IndexOf(ss + [s]), s.sessionId) == IndexOf(ss)
  {
    assert (ss + [s])[..|ss|] == ss;
    if s.sessionId in ById(ss) {
      ByIdKeys(ss, s.sessionId);
    }
    assert s.sessionId !in ById(ss);
    forall id | id in IndexOf(ss)
      ensures id !in s.Ids() && IndexOf(ss)[id] != s.sessionId
    {
      IndexOfKeys(ss, id);
    }
  }

  lemma LastOf(xs: seq<Session>, ys: seq<Session>)
    requires ys != []
    ensures var f := xs + ys;
            f[|f| - 1] == ys[|ys| - 1] && f[..|f| - 1] == xs + ys[..|ys| - 1]
  {
  }

  /** Taking the session between two stretches out of a list, as the layers see it. */
  lemma {:induction false} TakeById(xs: seq<Session>, s: Session, ys: seq<Session>)
    requires Unlike(s, xs) && Unlike(s, ys)
    ensures ById(xs + [s] + ys) - {s.sessionId} == ById(xs + ys)
    decreases |ys|
  {
    var f, g := xs + [s] + ys, xs + ys;
    if ys == [] {
      assert f == xs + [s] && g == xs;
      TakeLast(xs, s);
    } else {
      var n := |ys| - 1;
      UnlikeFirst(s, ys, n);
      assert s.sessionId != ys[n].sessionId by { assert R.Apart(s, ys[n]); }
      hide Unlike, IndexOf;
      TakeById(xs, s, ys[..n]);
      LastOf(xs + [s], ys);
      LastOf(xs, ys);
    }
  }

  lemma {:induction false} TakeIndex(xs: seq<Session>, s: Session, ys: seq<Session>)
    requires Unlike(s, xs) && Unlike(s, ys)
    ensures Forget(IndexOf(xs + [s] + ys), s.sessionId) == IndexOf(xs + ys)
    decreases |ys|
  {
    var f, g := xs + [s] + ys, xs + ys;
    if ys == [] {
      assert f == xs + [s] && g == xs;
      TakeLast(xs, s);
    } else {
      var n := |ys| - 1;
      UnlikeFirst(s, ys, n);
      assert s.sessionId != ys[n].sessionId by { assert R.Apart(s, ys[n]); }
      hide Unlike, Forget, Entries, ById;
      TakeIndex(xs, s, ys[..n]);
      LastOf(xs + [s], ys);
      LastOf(xs, ys);
      ForgetMerge(IndexOf(xs + [s] + ys[..n]), ys[n], s.sessionId);
    }
  }

  lemma ForgetMerge(m: map<int, string>, x: Session, k: string)
    requires x.sessionId != k
    ensures Forget(m + Entries(x), k) == Forget(m, k) + Entries(x)
  {
  }

  lemma {:induction false} ByIdSize(ss: seq<Session>)
    requires R.Good(ss)
    ensures |ById(ss)| == |ss|
    decreases |ss|
  {
    if ss != [] {
      var n := |ss| - 1;
      if ss[n].sessionId in ById(ss[..n]) {
        ByIdKeys(ss[..n], ss[n].sessionId);
        assert false;
      }
      ByIdSize(ss[..n]);
    }
  }

  /** A layer that holds a stretch has its last session as the only oldest one. */
  lemma OldestIsLast(ss: seq<Session>, k: string)
    requires R.Good(ss) && IsOldest(ById(ss), k)
    ensures ss != [] && k == ss[|ss| - 1].sessionId && ById(ss)[k] == ss[|ss| - 1]
  {
    ByIdKeys(ss, k);
    var i :| 0 <= i < |ss| && ss[i].sessionId == k && ById(ss)[k] == ss[i];
    assert ss[|ss| - 1].sessionId in ById(ss);
  }

  // ---- The eviction loops cut the list ----

  /** L0 holds the first i sessions, L1 the next ones up to j, and both are indexed. */
  ghost predicate Cut(a: Inner, order: seq<Session>, i: nat, j: nat) {
    && i <= j <= |order|
    && a.l0 == ById(order[..i])
    && a.l1 == ById(order[i..j])
    && a.index == IndexOf(order[..j])
  }

  /** The layers at rest: both are as full as the list allows. */
  ghost predicate Tracks(a: Inner, order: seq<Session>) {
    Cut(a, order, R.Min(a.c0, |order|), R.Min(a.c0 + a.c1, |order|))
  }

  lemma SliceGood(order: seq<Session>, i: nat, j: nat)
    requires R.Good(order) && i <= j <= |order|
    ensures R.Good(order[i..j])
  {
    var ss := order[i..j];
    assert forall n :: 0 <= n < |ss| ==> ss[n] == order[i + n];
  }

  /** A session of a good list is apart from the others. */
  lemma GoodUnlike(order: seq<Session>, i: nat, j: nat, t: nat)
    requires R.Good(order) && i <= j <= |order| && t < |order| && (t < i || j <= t)
    ensures Unlike(order[t], order[i..j])
  {
    forall n | 0 <= n < j - i
      ensures R.Apart(order[t], order[i..j][n])
    {
      assert order[i..j][n] == order[i + n];
      assert R.Apart(order[if t < i then t else i + n], order[if t < i then i + n else t]);
    }
  }

  lemma OldestOfSlice(order: seq<Session>, i: nat, j: nat, k: string)
    requires R.Good(order) && i <= j <= |order| && IsOldest(ById(order[i..j]), k)
    ensures i < j && k == order[j - 1].sessionId && ById(order[i..j])[k] == order[j - 1]
  {
    SliceGood(order, i, j);
    OldestIsLast(order[i..j], k);
  }

  lemma DemoteCut(a: Inner, order: seq<Session>, i: nat, j: nat, k: string)
    requires R.Good(order) && Cut(a, order, i, j) && 0 < i && k == order[i - 1].sessionId && k in a.l0
    requires a.l0[k] == order[i - 1]
    ensures Cut(Demote(a, k), order, i - 1, j)
  {
    var s := order[i - 1];
    GoodUnlike(order, 0, i - 1, i - 1);
    GoodUnlike(order, i, j, i - 1);
    assert order[0..i - 1] == order[..i - 1];
    assert order[..i] == order[..i - 1] + [s];
    assert order[i - 1..j] == [s] + order[i..j];
    hide R.Good, Unlike, ById, IndexOf, Forget;
    TakeLast(order[..i - 1], s);
    PushById(s, order[i..j]);
  }

  lemma SpillCut(a: Inner, order: seq<Session>, i: nat, j: nat, k: string)
    requires R.Good(order) && Cut(a, order, i, j) && i < j && k == order[j - 1].sessionId && k in a.l1
    ensures Cut(Spill(a, k), order, i, j - 1)
  {
    var s := order[j - 1];
    GoodUnlike(order, i, j - 1, j - 1);
    GoodUnlike(order, 0, j - 1, j - 1);
    assert order[0..j - 1] == order[..j - 1];
    assert order[i..j] == order[i..j - 1] + [s];
    assert order[..j] == order[..j - 1] + [s];
    hide R.Good, Unlike, ById, IndexOf, Forget;
    TakeLast(order[i..j - 1], s);
    TakeLast(order[..j - 1], s);
  }

  lemma DemoteStep(a: Inner, b: Inner, order: seq<Session>, i: nat, j: nat) returns (c: Inner)
    requires R.Good(order) && Cut(a, order, i, j) && Demotes(a, b) && i > a.c0
    ensures Cut(c, order, i - 1, j) && c.c0 == a.c0 && c.c1 == a.c1 && Demotes(c, b)
  {
    SliceGood(order, 0, i);
    assert order[0..i] == order[..i];
    ByIdSize(order[..i]);
    var k :| IsOldest(a.l0, k) && Demotes(Demote(a, k), b);
    hide R.Good, ById, IndexOf, Demotes;
    OldestOfSlice(order, 0, i, k);
    DemoteCut(a, order, i, j, k);
    c := Demote(a, k);
  }

  lemma DemotesNone(a: Inner, b: Inner, order: seq<Session>, i: nat, j: nat)
    requires R.Good(order) && Cut(a, order, i, j) && Demotes(a, b) && i <= a.c0
    ensures b == a
  {
    SliceGood(order, 0, i);
    assert order[0..i] == order[..i];
    ByIdSize(order[..i]);
  }

  lemma {:induction false} DemotesCut(a: Inner, b: Inner, order: seq<Session>, i: nat, j: nat)
    requires R.Good(order) && Cut(a, order, i, j) && Demotes(a, b)
    ensures Cut(b, order, R.Min(a.c0, i), j) && b.c0 == a.c0 && b.c1 == a.c1
    decreases i
  {
    hide Cut, Demotes, R.Good;
    if i > a.c0 {
      var c := DemoteStep(a, b, order, i, j);
      DemotesCut(c, b, order, i - 1, j);
    } else {
      DemotesNone(a, b, order, i, j);
    }
  }

  function Reversed(ss: seq<Session>): seq<Session>
    decreases |ss|
  {
    if ss == [] then [] else [ss[|ss| - 1]] + Reversed(ss[..|ss| - 1])
  }

  lemma ReversedSlice(order: seq<Session>, n: nat, j: nat)
    requires n < j <= |order|
    ensures Reversed(order[n..j]) == [order[j - 1]] + Reversed(order[n..j - 1])
  {
    assert order[n..j][..j - n - 1] == order[n..j - 1];
  }

  lemma SpillStep(a: Inner, b: Inner, out: seq<Session>, order: seq<Session>, i: nat, j: nat) returns (c: Inner)
    requires R.Good(order) && Cut(a, order, i, j) && Spills(a, b, out) && j - i > a.c1
    ensures Cut(c, order, i, j - 1) && c.c0 == a.c0 && c.c1 == a.c1
    ensures out != [] && out[0] == order[j - 1] && Spills(c, b, out[1..])
  {
    SliceGood(order, i, j);
    ByIdSize(order[i..j]);
    var k :| IsOldest(a.l1, k) && out[0] == a.l1[k] && Spills(Spill(a, k), b, out[1..]);
    OldestOfSlice(order, i, j, k);
    SpillCut(a, order, i, j, k);
    c := Spill(a, k);
  }

  lemma SpillsNone(a: Inner, b: Inner, out: seq<Session>, order: seq<Session>, i: nat, j: nat)
    requires R.Good(order) && Cut(a, order, i, j) && Spills(a, b, out) && j - i <= a.c1
    ensures b == a && out == [] && out == Reversed(order[j..j])
  {
    SliceGood(order, i, j);
    ByIdSize(order[i..j]);
  }

  lemma {:induction false} SpillsCut(a: Inner, b: Inner, out: seq<Session>, order: seq<Session>, i: nat, n: nat, j: nat)
    requires R.Good(order) && i <= j <= |order| && Cut(a, order, i, j) && Spills(a, b, out) &&
        n == i + R.Min(a.c1, j - i)
    ensures Cut(b, order, i, n) && out == Reversed(order[n..j])
    ensures b.c0 == a.c0 && b.c1 == a.c1
    decreases j
  {
    hide Cut, Spills, R.Good, ById, IndexOf, Reversed;
    if j - i > a.c1 {
      var c := SpillStep(a, b, out, order, i, j);
      SpillsCut(c, b, out[1..], order, i, n, j - 1);
      ReversedSlice(order, n, j);
      assert out == [out[0]] + out[1..];
    } else {
      SpillsNone(a, b, out, order, i, j);
    }
  }

  /** Eviction cuts the list at the two capacities and hands out what lies beyond, oldest first. */
  lemma EvictsCut(a: Inner, b: Inner, out: seq<Session>, order: seq<Session>, i: nat, j: nat)
    requires R.Good(order) && Cut(a, order, i, j) && Evicts(a, b, out)
    ensures var m := R.Min(a.c0, i); var n := m + R.Min(a.c1, j - m);
            Cut(b, order, m, n) && out == Reversed(order[n..j])
    ensures b.c0 == a.c0 && b.c1 == a.c1
  {
    var mid :| Demotes(a, mid) && Spills(mid, b, out);
    assert i <= j <= |order|;
    hide Cut, Demotes, Spills, R.Good, Reversed;
    DemotesCut(a, mid, order, i, j);
    var m := R.Min(a.c0, i);
    SpillsCut(mid, b, out, order, m, m + R.Min(a.c1, j - m), j);
  }

  // ---- The locked section before eviction moves the joined session to the front ----

  lemma EntriesAdd(s: Session, m: MsgRef, now: nat)
    ensures Entries(s.Add(m, now)) == Entries(s)[m.msgId := s.sessionId]
  {
    AddIds(s, m, now);
  }

  /** One more session in front of a list, cut at i and j. */
  lemma PushCut(x: Session, ss: seq<Session>, i: nat, j: nat)
    requires Unlike(x, ss) && i <= j <= |ss|
    ensures var f := [x] + ss;
            && ById(f[..i + 1]) == ById(ss[..i])[x.sessionId := x]
            && ById(f[i + 1..j + 1]) == ById(ss[i..j])
            && IndexOf(f[..j + 1]) == IndexOf(ss[..j]) + Entries(x)
  {
    var f := [x] + ss;
    UnlikeFirst(x, ss, i);
    UnlikeFirst(x, ss, j);
    assert f[..i + 1] == [x] + ss[..i];
    assert f[..j + 1] == [x] + ss[..j];
    assert f[i + 1..j + 1] == ss[i..j];
    PushById(x, ss[..i]);
    PushIndex(x, ss[..j]);
  }

  lemma UnlikeFirst(x: Session, ss: seq<Session>, n: nat)
    requires Unlike(x, ss) && n <= |ss|
    ensures Unlike(x, ss[..n])
  {
    forall i | 0 <= i < n ensures R.Apart(x, ss[..n][i]) { assert ss[..n][i] == ss[i]; }
  }

  lemma UnlikeBoth(x: Session, xs: seq<Session>, ys: seq<Session>)
    requires Unlike(x, xs) && Unlike(x, ys)
    ensures Unlike(x, xs + ys)
  {
    forall n | 0 <= n < |xs + ys| ensures R.Apart(x, (xs + ys)[n]) {
      if n < |xs| { assert (xs + ys)[n] == xs[n]; } else { assert (xs + ys)[n] == ys[n - |xs|]; }
    }
  }

  lemma UpdateMerge(m: map<int, string>, e: map<int, string>, k: int, v: string)
    ensures (m + e)[k := v] == m + e[k := v]
  {
  }

  lemma OpenedEntries(index: map<int, string>, m: MsgRef, now: nat)
    ensures index + Entries(NewSession(m, now)) == index[m.msgId := NewSession(m, now).sessionId]
  {
    assert NewSession(m, now).Ids() == {m.msgId};
  }

  lemma OpenedCut(a: Inner, order: seq<Session>, i: nat, j: nat, o: R.Obs)
    requires Cut(a, order, i, j)
    requires Unlike(NewSession(o.msg, o.now), order)
    ensures Cut(Opened(a, o.msg, o.now), [NewSession(o.msg, o.now)] + order, i + 1, j + 1)
  {
    var x := NewSession(o.msg, o.now);
    PushCut(x, order, i, j);
    OpenedEntries(a.index, o.msg, o.now);
  }

  lemma RestoredCut(a: Inner, order: seq<Session>, i: nat, j: nat, t: nat, o: R.Obs)
    requires Cut(a, order, i, j) && j <= t < |order|
    requires Unlike(order[t].Add(o.msg, o.now), R.Removed(order, t))
    ensures Cut(Restored(a, order[t], o.msg, o.now), [order[t].Add(o.msg, o.now)] + R.Removed(order, t), i + 1, j + 1)
  {
    var s := order[t];
    var x := s.Add(o.msg, o.now);
    var rest := R.Removed(order, t);
    assert rest[..i] == order[..i] && rest[..j] == order[..j] && rest[i..j] == order[i..j];
    PushCut(x, rest, i, j);
    EntriesAdd(s, o.msg, o.now);
    UpdateMerge(a.index, Entries(s), o.msg.msgId, s.sessionId);
  }

  /** A session stays apart from the others when a new message joins it. */
  lemma GoodUnlikeAdded(order: seq<Session>, i: nat, j: nat, t: nat, o: R.Obs)
    requires R.Good(order) && R.News(order, o) && i <= j <= |order| && t < |order| && (t < i || j <= t)
    ensures Unlike(order[t].Add(o.msg, o.now), order[i..j])
  {
    GoodUnlike(order, i, j, t);
    AddIds(order[t], o.msg, o.now);
    forall n | 0 <= n < j - i
      ensures R.Apart(order[t].Add(o.msg, o.now), order[i..j][n])
    {
      assert R.Apart(order[t], order[i..j][n]);
      assert order[i..j][n] == order[i + n] && order[i + n] in order;
    }
  }

  /** Moving a session of a list to the front with one more message, as the layers see it. */
  lemma MoveUp(xs: seq<Session>, s: Session, ys: seq<Session>, m: MsgRef, now: nat)
    requires var x := s.Add(m, now);
             Unlike(s, xs) && Unlike(s, ys) && Unlike(x, xs) && Unlike(x, ys)
    ensures var x := s.Add(m, now); var ss := xs + [s] + ys; var f := [x] + (xs + ys);
            && ById(f) == ById(ss)[s.sessionId := x]
            && IndexOf(f) == Forget(IndexOf(ss), s.sessionId) + Entries(x)
  {
    var x := s.Add(m, now);
    UnlikeBoth(x, xs, ys);
    hide Unlike, ById, IndexOf, Forget, Entries;
    PushById(x, xs + ys);
    PushIndex(x, xs + ys);
    TakeById(xs, s, ys);
    TakeIndex(xs, s, ys);
  }

  lemma {:induction false} ListMember(order: seq<Session>, t: nat, j: nat)
    requires R.Good(order) && t < j <= |order|
    ensures order[t].sessionId in ById(order[..j]) && ById(order[..j])[order[t].sessionId] == order[t]
    ensures forall id :: id in order[t].Ids() ==>
        id in IndexOf(order[..j]) && IndexOf(order[..j])[id] == order[t].sessionId
    decreases j
  {
    assert order[..j][..j - 1] == order[..j - 1];
    if t < j - 1 {
      ListMember(order, t, j - 1);
      assert R.Apart(order[t], order[j - 1]);
    }
  }

  /** An index is what it says of one session and what it says of the others. */
  lemma IndexParts(ss: seq<Session>, s: Session, index: map<int, string>, id: int)
    requires index == IndexOf(ss) && s in ss
    requires forall x :: x in s.Ids() ==> x in index && index[x] == s.sessionId
    requires forall i :: 0 <= i < |ss| ==> ss[i] == s || R.Apart(ss[i], s)
    ensures Forget(index, s.sessionId) + Entries(s)[id := s.sessionId] == index[id := s.sessionId]
  {
    forall x | x in index && index[x] == s.sessionId
      ensures x in s.Ids()
    {
      IndexOfKeys(ss, x);
    }
  }

  /** A reply to a message of the indexed part moves its session to the front of L0. */
  lemma RepliedIndex(order: seq<Session>, t: nat, j: nat, o: R.Obs)
    requires R.Good(order) && R.News(order, o) && t < j <= |order|
    ensures var x := order[t].Add(o.msg, o.now);
            IndexOf([x] + (order[..t] + order[t + 1..j])) == IndexOf(order[..j])[o.msg.msgId := x.sessionId]
  {
    var s := order[t];
    ListMember(order, t, j);
    forall n | 0 <= n < |order[..j]|
      ensures order[..j][n] == s || R.Apart(order[..j][n], s)
    {
      assert order[..j][n] == order[n];
      if n < t { assert R.Apart(order[n], order[t]); } else if t < n { assert R.Apart(order[t], order[n]); }
    }
    assert order[..j][t] == s;
    IndexParts(order[..j], s, IndexOf(order[..j]), o.msg.msgId);
    EntriesAdd(s, o.msg, o.now);
    MoveUpAt(order, 0, t, j, o);
    assert order[0..t] == order[..t] && order[0..j] == order[..j];
  }

  /** `MoveUp` for a stretch of a good list. */
  lemma MoveUpAt(order: seq<Session>, i: nat, t: nat, j: nat, o: R.Obs)
    requires R.Good(order) && R.News(order, o) && i <= t < j <= |order|
    ensures var x := order[t].Add(o.msg, o.now); var f := [x] + (order[i..t] + order[t + 1..j]);
            && ById(f) == ById(order[i..j])[x.sessionId := x]
            && IndexOf(f) == Forget(IndexOf(order[i..j]), x.sessionId) + Entries(x)
            && ById(order[i..t] + order[t + 1..j]) == ById(order[i..j]) - {x.sessionId}
  {
    GoodUnlike(order, i, t, t);
    GoodUnlike(order, t + 1, j, t);
    GoodUnlikeAdded(order, i, t, t, o);
    GoodUnlikeAdded(order, t + 1, j, t, o);
    assert order[i..j] == order[i..t] + [order[t]] + order[t + 1..j];
    MoveUp(order[i..t], order[t], order[t + 1..j], o.msg, o.now);
    TakeById(order[i..t], order[t], order[t + 1..j]);
  }

  lemma RepliedInL0(a: Inner, order: seq<Session>, i: nat, j: nat, t: nat, o: R.Obs)
    requires R.Good(order) && R.News(order, o) && Cut(a, order, i, j) && t < i
    ensures Cut(Replied(a, order[t].sessionId, o.msg, o.now), [order[t].Add(o.msg, o.now)] + R.Removed(order, t), i, j)
  {
    var x := order[t].Add(o.msg, o.now);
    var f := [x] + R.Removed(order, t);
    assert order[0..t] == order[..t] && order[0..i] == order[..i];
    TailOf(order, x, t, i, j);
    hide R.Good, R.News, ById, IndexOf, Entries, Forget;
    ListMember(order, t, i);
    RepliedIndex(order, t, j, o);
    MoveUpAt(order, 0, t, i, o);
    FrontOf(order, x, t, i);
    FrontOf(order, x, t, j);
  }

  lemma FrontOf(order: seq<Session>, x: Session, t: nat, n: nat)
    requires t < n <= |order|
    ensures ([x] + R.Removed(order, t))[..n] == [x] + (order[..t] + order[t + 1..n])
  {
  }

  lemma TailOf(order: seq<Session>, x: Session, t: nat, i: nat, j: nat)
    requires t < i <= j <= |order|
    ensures ([x] + R.Removed(order, t))[i..j] == order[i..j]
  {
    assert [x] + R.Removed(order, t) == ([x] + order[..t]) + order[t + 1..];
    SliceRight([x] + order[..t], order[t + 1..], i, j);
    SliceDrop(order, t + 1, i, j);
  }

  lemma SliceRight<T>(a: seq<T>, b: seq<T>, i: nat, j: nat)
    requires |a| <= i <= j <= |a| + |b|
    ensures (a + b)[i..j] == b[i - |a|..j - |a|]
  {
  }

  lemma SliceDrop<T>(a: seq<T>, d: nat, i: nat, j: nat)
    requires d <= i <= j <= |a|
    ensures a[d..][i - d..j - d] == a[i..j]
  {
  }

  lemma DropLeft<T>(a: seq<T>, b: seq<T>, k: nat)
    requires k <= |a|
    ensures (a + b)[k..] == a[k..] + b
  {
  }

  lemma DropRight<T>(a: seq<T>, b: seq<T>, k: nat)
    requires |a| <= k <= |a| + |b|
    ensures (a + b)[k..] == b[k - |a|..]
  {
  }

  lemma DropCons<T>(x: T, a: seq<T>, k: nat)
    requires k <= |a|
    ensures ([x] + a)[k + 1..] == a[k..]
  {
  }

  lemma MiddleOf(order: seq<Session>, x: Session, i: nat, t: nat, j: nat)
    requires i <= t < j <= |order|
    ensures ([x] + R.Removed(order, t))[..i + 1] == [x] + order[..i]
    ensures ([x] + R.Removed(order, t))[i + 1..j] == order[i..t] + order[t + 1..j]
  {
  }

  lemma RepliedInL1(a: Inner, order: seq<Session>, i: nat, j: nat, t: nat, o: R.Obs)
    requires R.Good(order) && R.News(order, o) && Cut(a, order, i, j) && i <= t < j
    ensures Cut(Replied(a, order[t].sessionId, o.msg, o.now), [order[t].Add(o.msg, o.now)] + R.Removed(order, t),
        i + 1, j)
  {
    var s := order[t];
    var x := s.Add(o.msg, o.now);
    var f := [x] + R.Removed(order, t);
    assert order[0..i] == order[..i];
    hide R.Good, R.News, ById, IndexOf, Entries, Forget, Unlike;
    NotInOthers(order, 0, i, t);
    StretchMember(order, i, t, j);
    RepliedIndex(order, t, j, o);
    MoveUpAt(order, i, t, j, o);
    GoodUnlikeAdded(order, 0, i, t, o);
    PushById(x, order[..i]);
    FrontOf(order, x, t, j);
    MiddleOf(order, x, i, t, j);
  }

  lemma NotInOthers(order: seq<Session>, i: nat, j: nat, t: nat)
    requires R.Good(order) && i <= j <= |order| && t < |order| && (t < i || j <= t)
    ensures order[t].sessionId !in ById(order[i..j])
  {
    GoodUnlike(order, i, j, t);
    if order[t].sessionId in ById(order[i..j]) {
      ByIdKeys(order[i..j], order[t].sessionId);
    }
  }

  lemma StretchMember(order: seq<Session>, i: nat, t: nat, j: nat)
    requires R.Good(order) && i <= t < j <= |order|
    ensures order[t].sessionId in ById(order[i..j]) && ById(order[i..j])[order[t].sessionId] == order[t]
  {
    SliceGood(order, i, j);
    assert order[t] == order[i..j][t - i] && order[i..j][..j - i] == order[i..j];
    ListMember(order[i..j], t - i, j - i);
  }

  // ---- A whole locked section ----

  /** What the unlocked phases hand to the locked one: the session to join, when it is archived. */
  ghost predicate HandedOver(order: seq<Session>, resident: nat, o: R.Obs, t: Option<nat>,
                             fault: Option<Session>, semantic: Option<Session>)
    requires t.Some? ==> t.value < |order|
  {
    if t.None? || t.value < resident then fault.None? && semantic.None?
    else if o.msg.replyTo.Some? then fault == Some(order[t.value]) && semantic.None?
    else fault.None? && semantic == Some(order[t.value])
  }

  /** The index knows the message replied to exactly when its session is in memory. */
  lemma ReplyIndexed(order: seq<Session>, j: nat, r: int)
    requires R.Good(order) && j <= |order|
    ensures var t := R.Find(order, r);
            r in IndexOf(order[..j]) <==> t.Some? && t.value < j
    ensures var t := R.Find(order, r);
            t.Some? && t.value < j ==> r in IndexOf(order[..j]) && IndexOf(order[..j])[r] == order[t.value].sessionId
  {
    var t := R.Find(order, r);
    if t.Some? && t.value < j {
      ListMember(order, t.value, j);
    }
    if r in IndexOf(order[..j]) {
      IndexOfKeys(order[..j], r);
      var n :| 0 <= n < j && r in order[..j][n].Ids();
      assert order[..j][n] == order[n] && order[n] in order && order[n].Has(r);
      assert n < t.value ==> R.Apart(order[n], order[t.value]);
    }
  }

  lemma JoinedCut(a: Inner, order: seq<Session>, i: nat, j: nat, o: R.Obs, t: Option<nat>,
                  fault: Option<Session>, semantic: Option<Session>)
    requires R.Good(order) && R.News(order, o) && Cut(a, order, i, j)
    requires t.Some? ==> t.value < |order|
    requires Chosen(order, j, o, t, fault, semantic)
    ensures var (i', j') := CutAfter(i, j, t);
            j' <= |R.ToFront(order, t, o)| &&
              Cut(Joined(a, o.msg, fault, semantic, o.now), R.ToFront(order, t, o), i', j')
  {
    hide Cut, R.Good, R.News, R.ToFront, Opened, Restored, Replied;
    if t.None? {
      JoinedNew(a, order, i, j, o);
    } else if t.value < j {
      JoinedResident(a, order, i, j, o, t.value);
    } else {
      JoinedArchived(a, order, i, j, o, t.value);
    }
    match o.msg.replyTo {
      case Some(r) => ReplyKnown(a, order, i, j, r);
      case None =>
    }
  }

  lemma ReplyKnown(a: Inner, order: seq<Session>, i: nat, j: nat, r: int)
    requires R.Good(order) && Cut(a, order, i, j)
    ensures var t := R.Find(order, r);
            && (r in a.index <==> t.Some? && t.value < j)
            && (r in a.index ==> a.index[r] == order[t.value].sessionId)
  {
    ReplyIndexed(order, j, r);
  }

  lemma JoinedNew(a: Inner, order: seq<Session>, i: nat, j: nat, o: R.Obs)
    requires R.News(order, o) && Cut(a, order, i, j)
    ensures Cut(Opened(a, o.msg, o.now), R.ToFront(order, None, o), i + 1, j + 1)
  {
    UnlikeNew(order, o);
    OpenedCut(a, order, i, j, o);
  }

  lemma JoinedResident(a: Inner, order: seq<Session>, i: nat, j: nat, o: R.Obs, n: nat)
    requires R.Good(order) && R.News(order, o) && Cut(a, order, i, j) && n < j
    ensures Cut(Replied(a, order[n].sessionId, o.msg, o.now), R.ToFront(order, Some(n), o), if n < i then i
        else i + 1, j)
  {
    FrontRemoved(order, n, o);
    if n < i {
      RepliedInL0(a, order, i, j, n, o);
    } else {
      RepliedInL1(a, order, i, j, n, o);
    }
  }

  lemma JoinedArchived(a: Inner, order: seq<Session>, i: nat, j: nat, o: R.Obs, n: nat)
    requires R.Good(order) && R.News(order, o) && Cut(a, order, i, j) && j <= n < |order|
    ensures Cut(Restored(a, order[n], o.msg, o.now), R.ToFront(order, Some(n), o), i + 1, j + 1)
  {
    FrontRemoved(order, n, o);
    UnlikeJoined(order, n, o);
    RestoredCut(a, order, i, j, n, o);
  }

  lemma FrontRemoved(order: seq<Session>, n: nat, o: R.Obs)
    requires n < |order|
    ensures R.ToFront(order, Some(n), o) == [order[n].Add(o.msg, o.now)] + R.Removed(order, n)
  {
  }

  /** Where the cuts lie before eviction. */
  function CutAfter(i: nat, j: nat, t: Option<nat>): (nat, nat) {
    if t.Some? && t.value < i then (i, j)
    else if t.Some? && t.value < j then (i + 1, j)
    else (i + 1, j + 1)
  }

  /** The first position of the next list that the archive still holds. */
  function Beyond(cfg: R.Config, n: nat, t: Option<nat>): nat {
    CutAfter(R.Min(cfg.c0, n), R.Min(cfg.c0 + cfg.c1, n), t).1
  }

  lemma UnlikeNew(order: seq<Session>, o: R.Obs)
    requires R.News(order, o)
    ensures Unlike(NewSession(o.msg, o.now), order)
  {
    assert NewSession(o.msg, o.now).Ids() == {o.msg.msgId};
  }

  lemma UnlikeJoined(order: seq<Session>, t: nat, o: R.Obs)
    requires R.Good(order) && R.News(order, o) && t < |order|
    ensures Unlike(order[t].Add(o.msg, o.now), R.Removed(order, t))
  {
    GoodUnlikeAdded(order, 0, t, t, o);
    GoodUnlikeAdded(order, t + 1, |order|, t, o);
    assert order[0..t] == order[..t] && order[t + 1..|order|] == order[t + 1..];
    UnlikeBoth(order[t].Add(o.msg, o.now), order[..t], order[t + 1..]);
  }

  /** The archive's part of the list once the faulted session has been deleted from it. */
  function Remaining(order: seq<Session>, j: nat, t: Option<nat>): seq<Session>
    requires j <= |order| && (t.Some? ==> t.value < |order|)
  {
    if t.Some? && j <= t.value then order[j..t.value] + order[t.value + 1..] else order[j..]
  }

  /** The layers after a locked section, and the sessions it hands out, against the next list. */
  ghost predicate Settles(a: Inner, order: seq<Session>, o: R.Obs, t: Option<nat>, b: Inner, out: seq<Session>)
    requires t.Some? ==> t.value < |order|
  {
    var f := R.ToFront(order, t, o);
    var j := R.Min(a.c0 + a.c1, |order|);
    var n := R.Min(a.c0 + a.c1, |f|);
    var k := CutAfter(R.Min(a.c0, |order|), j, t).1;
    && b.c0 == a.c0 && b.c1 == a.c1
    && Tracks(b, f)
    && n <= k <= |f|
    && out == Reversed(f[n..k])
    && f[k..] == Remaining(order, j, t)
  }

  /**
   The refinement of one locked section. From layers at rest it leads to layers at rest for the list
   with the joined session moved to the front, whichever of several equally old sessions a loop
   might pick; it hands out the sessions that now lie beyond both capacities, oldest first; and
   with what remains archived these make up the rest of the list.
   */
  lemma CriticalRefines(a: Inner, order: seq<Session>, o: R.Obs, t: Option<nat>,
                        fault: Option<Session>, semantic: Option<Session>, b: Inner, out: seq<Session>)
    requires R.Good(order) && R.News(order, o) && Tracks(a, order)
    requires t.Some? ==> t.value < |order|
    requires Chosen(order, R.Min(a.c0 + a.c1, |order|), o, t, fault, semantic)
    requires Critical(a, o.msg, fault, semantic, o.now, b, out)
    ensures Settles(a, order, o, t, b, out)
  {
    hide Cut, R.Good, R.News, R.ToFront, Critical, Chosen, Settles, Reversed, R.Find;
    var i, j := R.Min(a.c0, |order|), R.Min(a.c0 + a.c1, |order|);
    var c := CutAfter(i, j, t);
    CriticalCut(a, order, i, j, c.0, c.1, o, t, fault, semantic, b, out);
    SettlesFrom(a, order, o, t, b, out, c.0, c.1);
  }

  /** The session that the phases of one observation agree on. */
  ghost predicate Chosen(order: seq<Session>, j: nat, o: R.Obs, t: Option<nat>,
                         fault: Option<Session>, semantic: Option<Session>)
    requires t.Some? ==> t.value < |order|
  {
    && (match o.msg.replyTo case Some(r) => t == R.Find(order, r) case None => t.Some? ==> j <= t.value)
    && HandedOver(order, j, o, t, fault, semantic)
  }

  lemma SettlesFrom(
    a: Inner, order: seq<Session>, o: R.Obs, t: Option<nat>, b: Inner, out: seq<Session>, i': nat, k: nat)
    requires t.Some? ==> t.value < |order|
    requires (i', k) == CutAfter(R.Min(a.c0, |order|), R.Min(a.c0 + a.c1, |order|), t)
    requires var f := R.ToFront(order, t, o); var m := R.Min(a.c0, i'); var n := m + R.Min(a.c1, k - m);
             Cut(b, f, m, n) && k <= |f| && out == Reversed(f[n..k])
    requires b.c0 == a.c0 && b.c1 == a.c1
    ensures Settles(a, order, o, t, b, out)
  {
    hide ById, IndexOf, Reversed, Remaining, R.ToFront;
    CutCounts(a.c0, a.c1, order, o, t);
    RestOf(order, o, t, R.Min(a.c0 + a.c1, |order|), k);
  }

  lemma CriticalCut(a: Inner, order: seq<Session>, i: nat, j: nat, i': nat, k: nat, o: R.Obs, t: Option<nat>,
                    fault: Option<Session>, semantic: Option<Session>, b: Inner, out: seq<Session>)
    requires R.Good(order) && R.News(order, o) && Cut(a, order, i, j)
    requires t.Some? ==> t.value < |order|
    requires Chosen(order, j, o, t, fault, semantic)
    requires Critical(a, o.msg, fault, semantic, o.now, b, out)
    requires (i', k) == CutAfter(i, j, t)
    ensures var f := R.ToFront(order, t, o); var m := R.Min(a.c0, i'); var n := m + R.Min(a.c1, k - m);
            Cut(b, f, m, n) && k <= |f| && out == Reversed(f[n..k])
    ensures b.c0 == a.c0 && b.c1 == a.c1
  {
    hide Cut, R.Good, R.News, Evicts, Joined;
    JoinedCut(a, order, i, j, o, t, fault, semantic);
    R.ToFrontGood(order, t, o);
    var joined := Joined(a, o.msg, fault, semantic, o.now);
    var f := R.ToFront(order, t, o);
    EvictsCut(joined, b, out, f, i', k);
  }

  /** Evicting from the cuts after a join gives the cuts of a list at rest. */
  lemma CutCounts(c0: nat, c1: nat, order: seq<Session>, o: R.Obs, t: Option<nat>)
    requires t.Some? ==> t.value < |order|
    ensures var f := R.ToFront(order, t, o);
            var (i', k) := CutAfter(R.Min(c0, |order|), R.Min(c0 + c1, |order|), t);
            var m := R.Min(c0, i');
            && m == R.Min(c0, |f|)
            && m + R.Min(c1, k - m) == R.Min(c0 + c1, |f|) <= k <= |f|
  {
  }

  lemma RestOf(order: seq<Session>, o: R.Obs, t: Option<nat>, j: nat, k: nat)
    requires j <= |order| && (t.Some? ==> t.value < |order|)
    requires k == if t.Some? && t.value < j then j else j + 1
    ensures k <= |R.ToFront(order, t, o)| && R.ToFront(order, t, o)[k..] == Remaining(order, j, t)
  {
    match t {
      case None => DropCons(NewSession(o.msg, o.now), order, j);
      case Some(n) =>
        var x := order[n].Add(o.msg, o.now);
        FrontRemoved(order, n, o);
        if n < j {
          DropCons(x, R.Removed(order, n), j - 1);
          DropRight(order[..n], order[n + 1..], j - 1);
          assert order[n + 1..][j - 1 - n..] == order[j..];
        } else {
          DropCons(x, R.Removed(order, n), j);
          DropLeft(order[..n], order[n + 1..], j);
          assert order[..n][j..] == order[j..n];
        }
    }
  }

  lemma SettledParts(
    a: Inner, cfg: R.Config, order: seq<Session>, o: R.Obs, t: Option<nat>, b: Inner, out: seq<Session>)
    requires t.Some? ==> t.value < |order|
    requires a.c0 == cfg.c0 && a.c1 == cfg.c1 && Settles(a, order, o, t, b, out)
    ensures var f := R.ToFront(order, t, o);
            && Tracks(b, f)
            && R.Resident(cfg, |f|) <= Beyond(cfg, |order|, t) <= |f|
            && out == Reversed(f[R.Resident(cfg, |f|)..Beyond(cfg, |order|, t)])
            && f[Beyond(cfg, |order|, t)..] == Remaining(order, R.Resident(cfg, |order|), t)
  {
    hide Tracks, Reversed, R.ToFront, Remaining;
  }

  /** Without an archive the layers track the list cut at both capacities. */
  lemma TracksFirst(a: Inner, order: seq<Session>)
    requires Tracks(a, order)
    ensures Tracks(a, order[..R.Min(a.c0 + a.c1, |order|)])
  {
    var i, j := R.Min(a.c0, |order|), R.Min(a.c0 + a.c1, |order|);
    assert order[..j][..i] == order[..i] && order[..j][i..j] == order[i..j] && order[..j][..j] == order[..j];
  }
}
