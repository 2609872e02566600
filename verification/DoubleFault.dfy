/** For any capacities of the two layers, a run in which two replies to an archived session fault it in at
    the same time, and one of the two messages is lost. */
module DoubleFault {
  import opened Wrappers
  import opened SessionTypes
  import opened Layers
  import opened Contents
  import opened Interleaving
  import R = Recency
  import F = Refinement
  import S = Storage

  // ---- A locked section can always come to an end ----

  lemma {:induction false} OldestExists(layer: map<string, Session>) returns (k: string)
    requires layer.Keys != {}
    ensures IsOldest(layer, k)
    decreases layer.Keys
  {
    var j :| j in layer;
    var rest := layer - {j};
    assert forall i :: i in layer ==> i == j || (i in rest && rest[i] == layer[i]);
    k := j;
    if rest.Keys != {} {
      var i := OldestExists(rest);
      k := if layer[j].lastActive < layer[i].lastActive then j else i;
    }
  }

  lemma {:induction false} DemotesTotal(a: Inner) returns (b: Inner)
    ensures Demotes(a, b)
    decreases a.l0.Keys
  {
    if |a.l0| <= a.c0 {
      DemotesEnd(a);
      b := a;
    } else {
      var k := OldestExists(a.l0);
      b := DemotesTotal(Demote(a, k));
      DemotesOnce(a, k, b);
    }
  }

  lemma {:induction false} SpillsTotal(a: Inner) returns (b: Inner, out: seq<Session>)
    ensures Spills(a, b, out)
    decreases a.l1.Keys
  {
    if |a.l1| <= a.c1 {
      SpillsEnd(a);
      b, out := a, [];
    } else {
      var k := OldestExists(a.l1);
      var rest;
      b, rest := SpillsTotal(Spill(a, k));
      SpillsOnce(a, k, b, rest);
      out := [a.l1[k]] + rest;
    }
  }

  lemma CriticalTotal(a: Inner, m: MsgRef, fault: Option<Session>, semantic: Option<Session>, now: nat)
    returns (b: Inner, out: seq<Session>)
    ensures Critical(a, m, fault, semantic, now, b, out)
  {
    var mid := DemotesTotal(Joined(a, m, fault, semantic, now));
    b, out := SpillsTotal(mid);
  }

  // ---- Steps of a run ----

  lemma Go(c0: nat, c1: nat, steps: seq<Step>, s: State, step: Step) returns (more: seq<Step>, next: State)
    requires Leads(c0, c1, steps, s) && Enabled(s, step) && Truthful(s, step)
    ensures Leads(c0, c1, more, next) && next == Apply(s, step)
  {
    Extend(c0, c1, steps, s, step);
    more, next := steps + [step], Apply(s, step);
  }

  /** A call arrives, finds nothing in the index, and loads. */
  lemma Enter(c0: nat, c1: nat, steps: seq<Step>, s: State, t: nat, m: MsgRef, found: Option<Session>)
    returns (more: seq<Step>, next: State)
    requires Leads(c0, c1, steps, s) && t !in s.threads && m.msgId >= 0 && m.msgId !in s.seen
    requires m.replyTo.Some? ==> m.replyTo.value !in s.inner.index
    requires found.Some? ==> Holding(s.archive, found.value)
    ensures Leads(c0, c1, more, next)
    ensures next == s.(threads := s.threads[t := if found.Some? then Loaded(m, found.value) else Ready(m, None)],
                       seen := s.seen + {m.msgId})
  {
    hide Leads;
    var one, s1 := Go(c0, c1, steps, s, Arrive(t, m));
    var two, s2 := Go(c0, c1, one, s1, Check(t));
    assert s2.threads == s.threads[t := Seeking(m)];
    more, next := Go(c0, c1, two, s2, Load(t, found));
    assert next.threads == s.threads[t := if found.Some? then Loaded(m, found.value) else Ready(m, None)];
  }

  /** The row of an evicted session is written. */
  lemma Persist(c0: nat, c1: nat, steps: seq<Step>, s: State, t: nat, y: Session)
    returns (more: seq<Step>, next: State)
    requires Leads(c0, c1, steps, s) && t in s.threads && s.threads[t] == Persisting([y])
    ensures Leads(c0, c1, more, next)
    ensures next == s.(threads := s.threads[t := Persisting([])], archive := s.archive[y.sessionId := y])
  {
    hide Leads;
    var one, s1 := Go(c0, c1, steps, s, Drop(t));
    assert s1.threads == s.threads[t := Adding([y])];
    more, next := Go(c0, c1, one, s1, Add(t));
    assert [y][1..] == [];
    assert next.threads == s.threads[t := Persisting([])];
    assert next.archive == s.archive[y.sessionId := y];
  }

  // ---- Filling both layers ----

  function Opening(chat: string, k: int): MsgRef {
    MsgRef(k, chat, None, "", "", "")
  }

  /** A reply to the first message. */
  function Reply(chat: string, k: int): MsgRef {
    MsgRef(k, chat, Some(1), "", "", "")
  }

  /** The list after n messages that each open a session. */
  function Opened(chat: string, n: nat): seq<Session> {
    seq(n, i requires 0 <= i < n => NewSession(Opening(chat, n - i), n - i))
  }

  lemma OneMessage(m: MsgRef, now: nat)
    ensures NewSession(m, now).Ids() == {m.msgId}
  {
  }

  lemma OpenedGood(chat: string, n: nat)
    ensures R.Good(Opened(chat, n))
  {
    var order := Opened(chat, n);
    forall i, j | 0 <= i < j < n
      ensures order[i].lastActive > order[j].lastActive && R.Apart(order[i], order[j])
    {
      OneMessage(Opening(chat, n - i), n - i);
      OneMessage(Opening(chat, n - j), n - j);
      if order[i].sessionId == order[j].sessionId {
        SessionIdInjective(chat, n - i, chat, n - j);
      }
    }
  }

  lemma OpenedNews(chat: string, n: nat, o: R.Obs)
    requires o.msg.chatId == chat && o.msg.msgId > n && o.now > n
    ensures R.News(Opened(chat, n), o)
  {
    var order := Opened(chat, n);
    forall s | s in order
      ensures !s.Has(o.msg.msgId) && s.lastActive < o.now && s.sessionId != NewSession(o.msg, o.now).sessionId
    {
      var i :| 0 <= i < n && order[i] == s;
      OneMessage(Opening(chat, n - i), n - i);
      if s.sessionId == NewSession(o.msg, o.now).sessionId {
        SessionIdInjective(chat, n - i, chat, o.msg.msgId);
      }
    }
  }

  /** After n calls, all of them done: both layers track the list. */
  ghost predicate AtRest(s: State, c0: nat, c1: nat, order: seq<Session>, n: nat) {
    && s.inner.c0 == c0 && s.inner.c1 == c1 && F.Tracks(s.inner, order)
    && (forall t :: t in s.threads ==> t <= n && s.threads[t] == Persisting([]))
    && (forall id :: id in s.seen ==> id <= n)
  }

  /** What a list hands out that is at most one session too long. */
  function Excess(f: seq<Session>, n: nat): seq<Session> {
    if |f| <= n then [] else [f[n]]
  }

  /** A locked section has led to the layers of a list, and handed out what they have no room for. */
  ghost predicate Section(s: State, t: nat, next: State, out: seq<Session>, f: seq<Session>)
    requires t in s.threads && s.threads[t].Ready?
  {
    && next == s.(inner := next.inner, threads := s.threads[t := Persisting(out)],
       done := s.done + {s.threads[t].msg.msgId})
    && next.inner.c0 == s.inner.c0 && next.inner.c1 == s.inner.c1 && F.Tracks(next.inner, f)
    && out == Excess(f, s.inner.c0 + s.inner.c1)
  }

  /** What a section does that opens a session, or brings back the one session that is archived. */
  lemma SectionSettles(a: Inner, order: seq<Session>, o: R.Obs, at: Option<nat>, b: Inner, out: seq<Session>)
    requires if at.Some? then at.value == a.c0 + a.c1 && |order| == at.value + 1 else |order| <= a.c0 + a.c1
    requires F.Settles(a, order, o, at, b, out)
    ensures F.Tracks(b, R.ToFront(order, at, o)) && b.c0 == a.c0 && b.c1 == a.c1
    ensures out == Excess(R.ToFront(order, at, o), a.c0 + a.c1)
  {
    hide F.Tracks;
    var f := R.ToFront(order, at, o);
    var n := R.Min(a.c0 + a.c1, |f|);
    assert out == F.Reversed(f[n..|f|]);
    ReversedEnd(f, n);
    hide F.Reversed;
  }

  lemma ReversedEnd(f: seq<Session>, n: nat)
    requires n <= |f| <= n + 1
    ensures F.Reversed(f[n..|f|]) == Excess(f, n)
  {
    if n == |f| {
      assert f[n..|f|] == [];
    } else {
      assert f[n..|f|] == [f[n]];
      assert [f[n]][..0] == [];
      assert F.Reversed([f[n]]) == [f[n]] + F.Reversed([f[n]][..0]);
    }
  }

  /** The locked section of such a call. */
  lemma LockSection(
    c0: nat, c1: nat, steps: seq<Step>, s: State, t: nat, now: nat, order: seq<Session>, at: Option<nat>)
    returns (more: seq<Step>, next: State, out: seq<Session>)
    requires Leads(c0, c1, steps, s) && t in s.threads && s.threads[t].Ready?
    requires F.Tracks(s.inner, order) && R.Good(order)
    requires if at.Some? then at.value == s.inner.c0 + s.inner.c1 && |order| == at.value + 1
             else |order| <= s.inner.c0 + s.inner.c1
    requires var p := s.threads[t];
             && R.News(order, R.Obs(p.msg, None, now))
             && F.Chosen(order, R.Min(s.inner.c0 + s.inner.c1, |order|), R.Obs(p.msg, None, now), at,
                         Fault(p.msg, p.taken), Semantic(p.msg, p.taken))
    ensures Leads(c0, c1, more, next)
    ensures Section(s, t, next, out, R.ToFront(order, at, R.Obs(s.threads[t].msg, None, now)))
  {
    hide Leads, F.Tracks, R.Good, R.News, F.Chosen, Critical, F.Settles, Excess, R.ToFront;
    var p := s.threads[t];
    var b;
    b, out := CriticalTotal(s.inner, p.msg, Fault(p.msg, p.taken), Semantic(p.msg, p.taken), now);
    F.CriticalRefines(s.inner, order, R.Obs(p.msg, None, now), at, Fault(p.msg, p.taken), Semantic(p.msg, p.taken), b,
      out);
    SectionSettles(s.inner, order, R.Obs(p.msg, None, now), at, b, out);
    more, next := Go(c0, c1, steps, s, Lock(t, now, b, out));
  }

  /** The locked section of a call that opens a session. */
  lemma OpenSection(c0: nat, c1: nat, steps: seq<Step>, s: State, t: nat, m: MsgRef, now: nat, order: seq<Session>)
    returns (more: seq<Step>, next: State, out: seq<Session>)
    requires Leads(c0, c1, steps, s) && t in s.threads && s.threads[t] == Ready(m, None) && m.replyTo.None?
    requires F.Tracks(s.inner, order) && |order| <= s.inner.c0 + s.inner.c1
    requires R.Good(order) && R.News(order, R.Obs(m, None, now))
    ensures Leads(c0, c1, more, next)
    ensures Section(s, t, next, out, R.ToFront(order, None, R.Obs(m, None, now)))
  {
    assert F.Chosen(order, R.Min(s.inner.c0 + s.inner.c1, |order|), R.Obs(m, None, now), None, None, None);
    assert Fault(m, None) == None && Semantic(m, None) == None;
    hide Leads, F.Tracks, F.Chosen, R.Good, R.News, R.ToFront, R.Min, Fault, Semantic, Section;
    more, next, out := LockSection(c0, c1, steps, s, t, now, order, None);
  }

  lemma OpeningFits(chat: string, n: nat)
    ensures var o := R.Obs(Opening(chat, n + 1), None, n + 1);
            && R.Good(Opened(chat, n)) && R.News(Opened(chat, n), o)
            && R.ToFront(Opened(chat, n), None, o) == Opened(chat, n + 1)
  {
    OpenedGood(chat, n);
    OpenedNews(chat, n, R.Obs(Opening(chat, n + 1), None, n + 1));
    var f := R.ToFront(Opened(chat, n), None, R.Obs(Opening(chat, n + 1), None, n + 1));
    hide R.Good, R.News;
    assert |f| == n + 1;
    forall i | 0 <= i <= n ensures f[i] == Opened(chat, n + 1)[i] {
      assert i > 0 ==> f[i] == Opened(chat, n)[i - 1];
    }
  }

  lemma Room(s: State, c0: nat, c1: nat, chat: string, n: nat)
    requires AtRest(s, c0, c1, Opened(chat, n), n)
    ensures n + 1 !in s.threads && n + 1 !in s.seen
    ensures s.inner.c0 == c0 && s.inner.c1 == c1 && F.Tracks(s.inner, Opened(chat, n))
    ensures Opening(chat, n + 1).msgId == n + 1 && Opening(chat, n + 1).replyTo.None?
  {
    hide F.Tracks, Opened;
  }

  lemma SectionLeaves(s: State, s1: State, t: nat, m: MsgRef, next: State, out: seq<Session>, f: seq<Session>)
    requires s1 == s.(threads := s.threads[t := Ready(m, None)], seen := s.seen + {m.msgId})
    requires Section(s1, t, next, out, f)
    ensures next.archive == s.archive && next.threads == s.threads[t := Persisting(out)] &&
        next.seen == s.seen + {m.msgId}
    ensures next.inner.c0 == s.inner.c0 && next.inner.c1 == s.inner.c1 && F.Tracks(next.inner, f)
    ensures out == Excess(f, s.inner.c0 + s.inner.c1)
  {
    hide F.Tracks, Excess;
    assert s1.threads[t := Persisting(out)] == s.threads[t := Persisting(out)];
  }

  /** One more call of the run, up to what it has to persist. */
  lemma Open(c0: nat, c1: nat, chat: string, n: nat, steps: seq<Step>, s: State)
    returns (more: seq<Step>, next: State, out: seq<Session>)
    requires Leads(c0, c1, steps, s) && AtRest(s, c0, c1, Opened(chat, n), n) && n <= c0 + c1
    ensures Leads(c0, c1, more, next)
    ensures F.Tracks(next.inner, Opened(chat, n + 1)) && next.inner.c0 == c0 && next.inner.c1 == c1
    ensures out == Excess(Opened(chat, n + 1), c0 + c1)
    ensures next.archive == s.archive && next.threads == s.threads[n + 1 := Persisting(out)] &&
        next.seen == s.seen + {n + 1}
  {
    hide Leads, F.Tracks, R.Good, R.News, R.ToFront, Opened, Opening, AtRest, Excess, Section;
    var m := Opening(chat, n + 1);
    Room(s, c0, c1, chat, n);
    OpeningFits(chat, n);
    OpenedLength(chat, n);
    var one, s1 := Enter(c0, c1, steps, s, n + 1, m, None);
    more, next, out := OpenSection(c0, c1, one, s1, n + 1, m, n + 1, Opened(chat, n));
    SectionLeaves(s, s1, n + 1, m, next, out, Opened(chat, n + 1));
  }

  lemma OpenedLength(chat: string, n: nat)
    ensures |Opened(chat, n)| == n
    ensures n > 0 ==> Opened(chat, n)[n - 1] == NewSession(Opening(chat, 1), 1)
  {
  }

  lemma RestAgain(
    before: State, s: State, c0: nat, c1: nat, last: seq<Session>, order: seq<Session>, n: nat)
    requires n > 0 && AtRest(before, c0, c1, last, n - 1)
    requires F.Tracks(s.inner, order) && s.inner.c0 == c0 && s.inner.c1 == c1
    requires s.threads == before.threads[n := Persisting([])] && s.seen == before.seen + {n}
    ensures AtRest(s, c0, c1, order, n)
  {
    hide F.Tracks;
  }

  lemma {:induction false} Fill(c0: nat, c1: nat, chat: string, n: nat) returns (steps: seq<Step>, s: State)
    requires n <= c0 + c1
    ensures Leads(c0, c1, steps, s) && AtRest(s, c0, c1, Opened(chat, n), n) && s.archive == map[]
  {
    if n == 0 {
      steps, s := [], Init(c0, c1);
      assert Opened(chat, 0) == [];
    } else {
      var front, before := Fill(c0, c1, chat, n - 1);
      hide Leads, F.Tracks, Opened, AtRest;
      var out;
      steps, s, out := Open(c0, c1, chat, n - 1, front, before);
      OpenedLength(chat, n);
      RestAgain(before, s, c0, c1, Opened(chat, n - 1), Opened(chat, n), n);
    }
  }

  /** One session more than both layers hold: the first is in the archive. */
  lemma Overfill(c0: nat, c1: nat, chat: string) returns (steps: seq<Step>, s: State)
    ensures var n := c0 + c1 + 1; var x := NewSession(Opening(chat, 1), 1);
            && Leads(c0, c1, steps, s) && AtRest(s, c0, c1, Opened(chat, n), n)
            && s.archive == map[x.sessionId := x]
  {
    hide Leads, F.Tracks, Opened, AtRest, NewSession, Opening, Excess;
    var k := c0 + c1;
    var x := NewSession(Opening(chat, 1), 1);
    var front, before := Fill(c0, c1, chat, k);
    var more, mid, out := Open(c0, c1, chat, k, front, before);
    ExcessIsFirst(chat, k);
    steps, s := Persist(c0, c1, more, mid, k + 1, x);
    assert mid.threads[k + 1 := Persisting([])] == before.threads[k + 1 := Persisting([])];
    RestAgain(before, s, c0, c1, Opened(chat, k), Opened(chat, k + 1), k + 1);
  }

  lemma ExcessIsFirst(chat: string, k: nat)
    ensures Excess(Opened(chat, k + 1), k) == [NewSession(Opening(chat, 1), 1)]
  {
    OpenedLength(chat, k + 1);
    hide Opened;
  }

  // ---- The double fault ----

  lemma FirstIsLast(chat: string, n: nat)
    requires n > 0
    ensures R.Find(Opened(chat, n), 1) == Some(n - 1)
  {
    var order := Opened(chat, n);
    var f := R.Find(order, 1);
    OneMessage(Opening(chat, 1), 1);
    assert order[n - 1] in order && order[n - 1].Has(1);
    OneMessage(Opening(chat, n - f.value), n - f.value);
  }

  lemma FirstNotIndexed(a: Inner, chat: string, n: nat)
    requires n == a.c0 + a.c1 + 1 && F.Tracks(a, Opened(chat, n))
    ensures 1 !in a.index
  {
    OpenedLength(chat, n);
    forall i | 0 <= i < n - 1 ensures !Opened(chat, n)[i].Has(1) {
      OneMessage(Opening(chat, n - i), n - i);
    }
    hide F.Tracks, R.Good, Opened;
    OpenedGood(chat, n);
    S.IndexExact(a, Opened(chat, n), 1);
  }

  /** The list after the first reply has brought its session back. */
  function Back(chat: string, n: nat): seq<Session>
    requires n > 0
  {
    [NewSession(Opening(chat, 1), 1).Add(Reply(chat, n + 1), n + 1)] + Opened(chat, n)[..n - 1]
  }

  lemma BackGood(chat: string, n: nat)
    requires n > 0
    ensures var o := R.Obs(Reply(chat, n + 1), None, n + 1);
            && R.ToFront(Opened(chat, n), Some(n - 1), o) == Back(chat, n) && R.Good(Back(chat, n))
    ensures forall i :: 0 < i < n ==> !Back(chat, n)[i].Has(n + 1)
  {
    var o := R.Obs(Reply(chat, n + 1), None, n + 1);
    OpenedGood(chat, n);
    OpenedNews(chat, n, o);
    R.ToFrontGood(Opened(chat, n), Some(n - 1), o);
    assert Opened(chat, n)[n - 1 + 1..] == [];
    forall i | 0 < i < n ensures !Back(chat, n)[i].Has(n + 1) {
      assert Back(chat, n)[i] == Opened(chat, n)[i - 1];
      OneMessage(Opening(chat, n - (i - 1)), n - (i - 1));
    }
  }

  /** Both replies have loaded, the first has run its locked section and persisted what that evicted, and
      the second has deleted: the copy that it holds knows nothing of the first. */
  ghost predicate Between(s: State, c0: nat, c1: nat, chat: string, u: nat) {
    var n := c0 + c1 + 1;
    var x := NewSession(Opening(chat, 1), 1);
    && s.inner.c0 == c0 && s.inner.c1 == c1 && F.Tracks(s.inner, Back(chat, n))
    && s.archive == map[Back(chat, n)[n - 1].sessionId := Back(chat, n)[n - 1]] - {x.sessionId}
    && u in s.threads && s.threads[u] == Ready(Reply(chat, n + 2), Some(x))
    && (forall t :: t in s.threads && t != u ==> s.threads[t] == Persisting([]))
    && n + 1 in s.done
  }

  lemma ReplyFits(c0: nat, c1: nat, chat: string)
    ensures var n := c0 + c1 + 1;
            var o := R.Obs(Reply(chat, n + 1), None, n + 1);
            var x := NewSession(Opening(chat, 1), 1);
            && R.Good(Opened(chat, n)) && R.News(Opened(chat, n), o)
            && F.Chosen(Opened(chat, n), R.Min(c0 + c1, n), o, Some(n - 1), Some(x), None)
            && R.ToFront(Opened(chat, n), Some(n - 1), o) == Back(chat, n)
            && |Back(chat, n)| == n
  {
    var n := c0 + c1 + 1;
    OpenedGood(chat, n);
    OpenedNews(chat, n, R.Obs(Reply(chat, n + 1), None, n + 1));
    BackGood(chat, n);
    FirstIsLast(chat, n);
    assert Opened(chat, n)[n - 1] == NewSession(Opening(chat, 1), 1);
    hide R.Good, R.News, R.ToFront, R.Find;
  }

  /** The last session of that list has another name, unless it is the first one too. */
  lemma LastOfBack(chat: string, n: nat)
    requires n > 0
    ensures |Back(chat, n)| == n
    ensures Back(chat, n)[n - 1].sessionId == NewSession(Opening(chat, 1), 1).sessionId <==> n == 1
  {
    BackGood(chat, n);
    var f := Back(chat, n);
    assert f[0].sessionId == NewSession(Opening(chat, 1), 1).sessionId;
    hide Back;
    assert n > 1 ==> R.Apart(f[0], f[n - 1]);
  }

  /** Two calls that have loaded one session, the first of them has also deleted it. */
  ghost predicate Facing(
    s: State, c0: nat, c1: nat, order: seq<Session>, t: nat, u: nat, m: MsgRef, m': MsgRef, x: Session)
  {
    && s.inner.c0 == c0 && s.inner.c1 == c1 && F.Tracks(s.inner, order) && s.archive == map[]
    && t in s.threads && s.threads[t] == Ready(m, Some(x))
    && u in s.threads && s.threads[u] == Loaded(m', x) && t != u
    && (forall v :: v in s.threads && v != t && v != u ==> s.threads[v] == Persisting([]))
  }

  /** Both load, and the first one deletes. */
  lemma BothLoad(
    c0: nat, c1: nat, steps: seq<Step>, s: State, order: seq<Session>, n: nat, m: MsgRef, m': MsgRef, x: Session)
    returns (more: seq<Step>, next: State)
    requires Leads(c0, c1, steps, s) && AtRest(s, c0, c1, order, n) && s.archive == map[x.sessionId := x]
    requires m.replyTo.Some? && m'.replyTo == m.replyTo && m.replyTo.value !in s.inner.index
    requires m.msgId == n + 1 && m'.msgId == n + 2
    ensures Leads(c0, c1, more, next) && Facing(next, c0, c1, order, n + 1, n + 2, m, m', x)
  {
    hide Leads, F.Tracks;
    var one, s1 := Enter(c0, c1, steps, s, n + 1, m, Some(x));
    var two, s2 := Enter(c0, c1, one, s1, n + 2, m', Some(x));
    more, next := Go(c0, c1, two, s2, Delete(n + 1));
    assert next.archive == map[] && next.inner == s.inner;
  }

  /** The first runs its section and persists, and the second one deletes after that. */
  lemma FirstLocks(
    c0: nat, c1: nat, steps: seq<Step>, s: State, order: seq<Session>, t: nat, u: nat, m: MsgRef, m': MsgRef,
    x: Session, now: nat)
    returns (more: seq<Step>, next: State)
    requires Leads(c0, c1, steps, s) && Facing(s, c0, c1, order, t, u, m, m', x) && m.replyTo.Some?
    requires var o := R.Obs(m, None, now);
             && |order| == c0 + c1 + 1 && R.Good(order) && R.News(order, o)
             && F.Chosen(order, c0 + c1, o, Some(c0 + c1), Some(x), None)
    ensures var f := R.ToFront(order, Some(c0 + c1), R.Obs(m, None, now));
            && Leads(c0, c1, more, next) && next.inner.c0 == c0 && next.inner.c1 == c1 && F.Tracks(next.inner, f)
            && |f| == c0 + c1 + 1 && next.archive == map[f[c0 + c1].sessionId := f[c0 + c1]] - {x.sessionId}
            && u in next.threads && next.threads[u] == Ready(m', Some(x))
            && (forall v :: v in next.threads && v != u ==> next.threads[v] == Persisting([]))
            && m.msgId in next.done
  {
    var o := R.Obs(m, None, now);
    var f := R.ToFront(order, Some(c0 + c1), o);
    assert |f| == c0 + c1 + 1 && Fault(m, Some(x)) == Some(x) && Semantic(m, Some(x)) == None;
    assert R.Min(c0 + c1, |order|) == c0 + c1;
    hide Leads, F.Tracks, F.Chosen, R.Good, R.News, R.ToFront, R.Min, Fault, Semantic;
    var one, s1, out := LockSection(c0, c1, steps, s, t, now, order, Some(c0 + c1));
    var two, s2 := Persist(c0, c1, one, s1, t, f[c0 + c1]);
    more, next := Go(c0, c1, two, s2, Delete(u));
  }

  lemma Meet(c0: nat, c1: nat, chat: string) returns (steps: seq<Step>, s: State)
    ensures Leads(c0, c1, steps, s) && Between(s, c0, c1, chat, c0 + c1 + 3)
  {
    var n := c0 + c1 + 1;
    var x := NewSession(Opening(chat, 1), 1);
    var m, m' := Reply(chat, n + 1), Reply(chat, n + 2);
    assert m.replyTo == m'.replyTo == Some(1);
    hide Leads, F.Tracks, F.Chosen, R.Good, R.News, R.ToFront, Opened, Back, AtRest, Facing, Reply, Opening, NewSession;
    var zero, s0 := Overfill(c0, c1, chat);
    AtRestTracks(s0, c0, c1, Opened(chat, n), n);
    FirstNotIndexed(s0.inner, chat, n);
    MessageIds(chat, n);
    var one, s1 := BothLoad(c0, c1, zero, s0, Opened(chat, n), n, m, m', x);
    ReplyFits(c0, c1, chat);
    steps, s := FirstLocks(c0, c1, one, s1, Opened(chat, n), n + 1, n + 2, m, m', x, n + 1);
    LastOfBack(chat, n);
  }

  lemma AtRestTracks(s: State, c0: nat, c1: nat, order: seq<Session>, n: nat)
    requires AtRest(s, c0, c1, order, n)
    ensures F.Tracks(s.inner, order) && s.inner.c0 == c0 && s.inner.c1 == c1
  {
  }

  lemma MessageIds(chat: string, n: nat)
    ensures Reply(chat, n + 1).msgId == n + 1 && Reply(chat, n + 2).msgId == n + 2
  {
  }

  /** Without any room, the deletion has taken the row that held the first reply. */
  lemma LostAtOnce(s: State, chat: string)
    requires Between(s, 0, 0, chat, 3)
    ensures 2 in s.done && !Somewhere(s, 2)
  {
    var x := NewSession(Opening(chat, 1), 1);
    OneMessage(Opening(chat, 1), 1);
    assert Back(chat, 1)[0].sessionId == x.sessionId;
    assert s.inner.l0 == map[] && s.inner.l1 == map[];
    forall z | Owned(s, z) ensures !z.Has(2) {
      assert z == x;
    }
  }

  /** The layers hold `y` in the place of the session of that name, and otherwise what they held. */
  ghost predicate Overwritten(a: Inner, b: Inner, x: Session, y: Session) {
    && (forall k :: k in b.l0 ==> b.l0[k] == y || (k != x.sessionId && k in a.l0 && b.l0[k] == a.l0[k]))
    && (forall k :: k in b.l1 ==> b.l1[k] == y || (k in a.l1 && b.l1[k] == a.l1[k]))
    && (x.sessionId in b.l1 && x.sessionId !in a.l0 ==> b.l1[x.sessionId] == y)
  }

  /** With some room, the second locked section puts the older session over the newer one. */
  lemma Overwrites(a: Inner, x: Session, m: MsgRef, now: nat) returns (b: Inner)
    requires Bounded(a) && (x.sessionId in a.l0 || (a.c0 == 0 && x.sessionId in a.l1))
    ensures Critical(a, m, Some(x), None, now, b, [])
    ensures Overwritten(a, b, x, x.Add(m, now))
  {
    var sid := x.sessionId;
    var j := Restored(a, x, m, now);
    if sid in a.l0 {
      assert j.l0.Keys == a.l0.Keys && |j.l0| == |a.l0|;
      b := j;
      DemotesEnd(j);
      SpillsEnd(j);
    } else {
      assert a.l0 == map[];
      assert j.l0 == map[sid := x.Add(m, now)] && IsOldest(j.l0, sid);
      b := Demote(j, sid);
      assert b.l0 == map[] && b.l1.Keys == a.l1.Keys && |b.l1| == |a.l1|;
      DemotesEnd(b);
      DemotesOnce(j, sid, b);
      SpillsEnd(b);
    }
    assert Evicts(Joined(a, m, Some(x), None, now), b, []);
  }

  /** The layers of a list that they are too small for. */
  lemma FullLayers(a: Inner, f: seq<Session>)
    requires R.Good(f) && F.Tracks(a, f) && |f| > a.c0 + a.c1
    ensures a.l0 == F.ById(f[0..a.c0]) && a.l1 == F.ById(f[a.c0..a.c0 + a.c1]) && Bounded(a)
  {
    CutAtCapacity(a, f);
    hide F.Tracks, R.Good, F.ById, F.Cut;
    S.LayerSizes(a, f, a.c0, a.c0 + a.c1);
  }

  lemma CutAtCapacity(a: Inner, f: seq<Session>)
    requires F.Tracks(a, f) && |f| > a.c0 + a.c1
    ensures F.Cut(a, f, a.c0, a.c0 + a.c1)
    ensures a.l0 == F.ById(f[0..a.c0]) && a.l1 == F.ById(f[a.c0..a.c0 + a.c1])
  {
    assert f[0..a.c0] == f[..a.c0];
    hide F.ById, F.IndexOf;
  }

  /** A stretch of a list in which only one name can have a message. */
  lemma StretchLacks(f: seq<Session>, i: nat, j: nat, k: string, id: int)
    requires i <= j <= |f| && k in F.ById(f[i..j])
    requires forall n :: 0 < n < |f| ==> !f[n].Has(id)
    ensures F.ById(f[i..j])[k].Has(id) ==> i == 0 && k == f[0].sessionId
  {
    F.ByIdKeys(f[i..j], k);
    var n :| 0 <= n < j - i && f[i..j][n].sessionId == k && F.ById(f[i..j])[k] == f[i..j][n];
    assert f[i..j][n] == f[i + n];
    hide F.ById;
  }

  /** The first session of such a list, and that no other one has a message that only it has. */
  lemma FirstPlaces(a: Inner, f: seq<Session>, id: int)
    requires R.Good(f) && F.Tracks(a, f) && |f| > a.c0 + a.c1 > 0
    requires forall n :: 0 < n < |f| ==> !f[n].Has(id)
    ensures var sid := f[0].sessionId;
            && Bounded(a) && (if a.c0 > 0 then sid in a.l0 else sid in a.l1)
            && (forall k :: k in a.l0 && k != sid ==> !a.l0[k].Has(id))
            && (forall k :: k in a.l1 && (k != sid || a.c0 > 0) ==> !a.l1[k].Has(id))
  {
    hide F.ById, F.Tracks, R.Good, Bounded;
    FullLayers(a, f);
    F.StretchMember(f, 0, 0, if a.c0 > 0 then a.c0 else a.c0 + a.c1);
    forall k | k in a.l0 && k != f[0].sessionId ensures !a.l0[k].Has(id) {
      StretchLacks(f, 0, a.c0, k, id);
    }
    forall k | k in a.l1 && (k != f[0].sessionId || a.c0 > 0) ensures !a.l1[k].Has(id) {
      StretchLacks(f, a.c0, a.c0 + a.c1, k, id);
    }
  }

  lemma BackPlaces(a: Inner, c0: nat, c1: nat, chat: string)
    requires c0 + c1 > 0 && a.c0 == c0 && a.c1 == c1 && F.Tracks(a, Back(chat, c0 + c1 + 1))
    ensures var sid := NewSession(Opening(chat, 1), 1).sessionId; var id := c0 + c1 + 2;
            && Bounded(a) && (if c0 > 0 then sid in a.l0 else sid in a.l1)
            && (forall k :: k in a.l0 && k != sid ==> !a.l0[k].Has(id))
            && (forall k :: k in a.l1 && (k != sid || c0 > 0) ==> !a.l1[k].Has(id))
  {
    var n := c0 + c1 + 1;
    assert Back(chat, n)[0].sessionId == NewSession(Opening(chat, 1), 1).sessionId && |Back(chat, n)| == n;
    hide Back, F.Tracks, R.Good, Bounded, NewSession;
    BackGood(chat, n);
    FirstPlaces(a, Back(chat, n), n + 1);
  }

  lemma SecondLacks(chat: string, n: nat)
    requires n > 0
    ensures !NewSession(Opening(chat, 1), 1).Add(Reply(chat, n + 2), n + 2).Has(n + 1)
  {
    OneMessage(Opening(chat, 1), 1);
    AddIds(NewSession(Opening(chat, 1), 1), Reply(chat, n + 2), n + 2);
  }

  lemma LayersLack(a: Inner, b: Inner, c0: nat, c1: nat, chat: string)
    requires c0 + c1 > 0 && a.c0 == c0 && a.c1 == c1 && F.Tracks(a, Back(chat, c0 + c1 + 1))
    requires var x := NewSession(Opening(chat, 1), 1);
             Overwritten(a, b, x, x.Add(Reply(chat, c0 + c1 + 3), c0 + c1 + 3))
    ensures forall k :: k in b.l0 ==> !b.l0[k].Has(c0 + c1 + 2)
    ensures forall k :: k in b.l1 ==> !b.l1[k].Has(c0 + c1 + 2)
  {
    hide F.Tracks, Back;
    BackPlaces(a, c0, c1, chat);
    SecondLacks(chat, c0 + c1 + 1);
    assert c0 == 0 ==> a.l0 == map[];
  }

  lemma NoneHas(s: State, b: Inner, next: State, c0: nat, c1: nat, chat: string, z: Session)
    requires c0 + c1 > 0 && Between(s, c0, c1, chat, c0 + c1 + 3) && Owned(next, z)
    requires next.inner == b && next.archive == s.archive && next.threads == s.threads[c0 + c1 + 3 := Persisting([])]
    requires var x := NewSession(Opening(chat, 1), 1);
             Overwritten(s.inner, b, x, x.Add(Reply(chat, c0 + c1 + 3), c0 + c1 + 3))
    ensures !z.Has(c0 + c1 + 2)
  {
    hide Back, F.Tracks, Overwritten;
    LayersLack(s.inner, b, c0, c1, chat);
    BackGood(chat, c0 + c1 + 1);
    LastOfBack(chat, c0 + c1 + 1);
    assert forall t :: t in next.threads ==> Hand(next.threads[t]) == [];
  }

  lemma LostByLock(c0: nat, c1: nat, chat: string, steps: seq<Step>, s: State) returns (more: seq<Step>, next: State)
    requires c0 + c1 > 0 && Leads(c0, c1, steps, s) && Between(s, c0, c1, chat, c0 + c1 + 3)
    ensures Leads(c0, c1, more, next)
    ensures c0 + c1 + 2 in next.done && !Somewhere(next, c0 + c1 + 2)
  {
    var n := c0 + c1 + 1;
    var x := NewSession(Opening(chat, 1), 1);
    var m := Reply(chat, n + 2);
    hide Leads, Critical, Back, F.Tracks, Overwritten;
    BackPlaces(s.inner, c0, c1, chat);
    var b := Overwrites(s.inner, x, m, n + 2);
    more, next := Go(c0, c1, steps, s, Lock(n + 2, n + 2, b, []));
    forall z | Owned(next, z) ensures !z.Has(n + 1) {
      NoneHas(s, b, next, c0, c1, chat, z);
    }
  }

  /**
   For any capacities: two replies to an archived message load its session at the same time, both delete
   it, and each adds its own message to its copy. The first reply has run its locked section, and is in no
   session any more.
   */
  lemma DoubleFaultLosesMessage(c0: nat, c1: nat, chat: string)
    returns (steps: seq<Step>, s: State, lost: int)
    ensures Leads(c0, c1, steps, s)
    ensures lost in s.done && !Somewhere(s, lost)
  {
    steps, s := Meet(c0, c1, chat);
    lost := c0 + c1 + 2;
    hide Leads, Between;
    if c0 + c1 == 0 {
      LostAtOnce(s, chat);
    } else {
      steps, s := LostByLock(c0, c1, chat, steps, s);
    }
  }
}
