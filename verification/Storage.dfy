/** The archive against its part of the recency list. */
module Storage {
  import opened Wrappers
  import opened SessionTypes
  import opened Archive
  import opened Refinement
  import L = Layers
  import R = Recency

  /** The archive holds exactly these sessions, and its two tables agree. */
  ghost predicate Stored(t: Tables, ss: seq<Session>) {
    && Agrees(t)
    && Unique(t.sessions)
    && forall s :: s in t.sessions <==> s in ss
  }

  /** A page fault finds the session of the list that holds the message, exactly if that one is archived:
      nothing if the session is resident, and nothing if there is none. */
  lemma {:induction false} FaultFinds(t: Tables, order: seq<Session>, j: nat, r: int)
    requires R.Good(order) && j <= |order| && Stored(t, order[j..])
    ensures var f := R.Find(order, r);
            LoadByMsg(t, r) == if f.Some? && j <= f.value then Some(order[f.value]) else None
  {
    forall s, x | s in t.sessions && x in t.sessions && s.Has(r) && x.Has(r)
      ensures s == x
    {
      OneHolder(order, j, s, x, r);
    }
    LoadByMsgScans(t, r);
    var f, scan := R.Find(order, r), Scan(t.sessions, r);
    if f.Some? && j <= f.value {
      assert order[j..][f.value - j] == order[f.value];
      assert order[f.value] in t.sessions;
      OneHolder(order, j, scan.value, order[f.value], r);
    } else if f.None? {
      assert forall s :: s in order[j..] ==> s in order;
    } else {
      forall i | j <= i < |order| ensures !order[i].Has(r) {
        assert f.value < i && R.Apart(order[f.value], order[i]);
      }
    }
  }

  lemma OneHolder(order: seq<Session>, j: nat, s: Session, x: Session, r: int)
    requires R.Good(order) && j <= |order| && s in order[j..] && x in order[j..] && s.Has(r) && x.Has(r)
    ensures s == x
  {
    var n :| 0 <= n < |order[j..]| && order[j..][n] == s;
    var m :| 0 <= m < |order[j..]| && order[j..][m] == x;
    assert order[j + n] == s && order[j + m] == x;
    SamePlace(order, j + n, j + m, r);
  }

  lemma SamePlace(order: seq<Session>, i: nat, j: nat, id: int)
    requires R.Good(order) && i < |order| && j < |order|
    requires order[i].sessionId == order[j].sessionId || (order[i].Has(id) && order[j].Has(id))
    ensures i == j
  {
  }

  /** The vector search returns the suggested session of the list. */
  lemma SearchFinds(t: Tables, cfg: R.Config, order: seq<Session>, o: R.Obs)
    requires R.Good(order) && cfg.archived && Stored(t, order[R.Resident(cfg, |order|)..])
    ensures var s := R.Suggested(cfg, order, o);
            SemanticSearch(t, o.msg.chatId, o.hint) == if s.Some? then Some(order[s.value]) else None
  {
    if o.hint.Some? {
      var j := R.Resident(cfg, |order|);
      var f, l := R.FindId(order, o.hint.value), LoadById(t, o.hint.value);
      if f.Some? && j <= f.value {
        assert order[j..][f.value - j] == order[f.value];
        assert order[f.value] in t.sessions;
        assert l.value in order[j..];
        var n :| 0 <= n < |order[j..]| && order[j..][n] == l.value;
        SamePlace(order, j + n, f.value, 0);
      } else if f.Some? {
        GoodUnlike(order, j, |order|, f.value);
        assert order[j..|order|] == order[j..];
        UnlikeIn(order[f.value], order[j..]);
      } else {
        assert forall s :: s in order[j..] ==> s in order;
      }
    }
  }

  /** Deleting the faulted session leaves the rest of the list archived. */
  lemma DeleteStores(t: Tables, order: seq<Session>, j: nat, n: nat)
    requires R.Good(order) && j <= n < |order| && Stored(t, order[j..])
    ensures Stored(Deleted(t, order[n].sessionId), Remaining(order, j, Some(n)))
  {
    DeleteAgrees(t, order[n].sessionId);
    RemainingMembers(order, j, n);
  }

  lemma RemainingMembers(order: seq<Session>, j: nat, n: nat)
    requires R.Good(order) && j <= n < |order|
    ensures forall s :: s in Remaining(order, j, Some(n)) <==> s in order[j..] && s.sessionId != order[n].sessionId
  {
    var xs, ys := order[j..n], order[n + 1..];
    assert order[n + 1..|order|] == ys;
    GoodUnlike(order, j, n, n);
    GoodUnlike(order, n + 1, |order|, n);
    assert order[j..] == xs + [order[n]] + ys;
    hide R.Good;
    UnlikeIn(order[n], xs);
    UnlikeIn(order[n], ys);
  }

  lemma UnlikeIn(x: Session, ss: seq<Session>)
    requires Unlike(x, ss)
    ensures forall s :: s in ss ==> s.sessionId != x.sessionId
  {
    forall s | s in ss ensures s.sessionId != x.sessionId {
      var i :| 0 <= i < |ss| && ss[i] == s;
      assert R.Apart(x, ss[i]);
    }
  }

  /** Persisting the next session of a list extends the archived part by it. */
  lemma PersistStores(t: Tables, f: seq<Session>, k: nat)
    requires R.Good(f) && 0 < k <= |f| && Stored(t, f[k..])
    ensures Stored(Persisted(t, f[k - 1]), f[k - 1..])
  {
    var s := f[k - 1];
    forall x | x in t.sessions
      ensures R.Apart(s, x)
    {
      assert x in f[k..];
      var i :| 0 <= i < |f[k..]| && f[k..][i] == x;
      assert f[k + i] == x;
    }
    PersistAgrees(t, s);
    PersistUnique(t, s);
    assert f[k - 1..] == [s] + f[k..];
  }

  lemma {:induction false} EvictedAt(f: seq<Session>, n: nat, k: nat, i: nat)
    requires n <= k <= |f|
    ensures |Reversed(f[n..k])| == k - n
    ensures i < k - n ==> Reversed(f[n..k])[i] == f[k - 1 - i]
    decreases k
  {
    if n < k {
      ReversedSlice(f, n, k);
      EvictedAt(f, n, k - 1, if i > 0 then i - 1 else 0);
    }
  }

  /** What the unlocked phases load from the archive. */
  ghost predicate Fetched(index: map<int, string>, t: Tables, o: R.Obs, fault: Option<Session>,
    semantic: Option<Session>) {
    && fault == (match o.msg.replyTo case Some(r) => if r in index then None else LoadByMsg(t, r) case None => None)
    && semantic == (if o.msg.replyTo.None? then SemanticSearch(t, o.msg.chatId, o.hint) else None)
  }

  /** The tables once the fetched session has been deleted from them. */
  function AfterFetch(t: Tables, fault: Option<Session>, semantic: Option<Session>): Tables {
    if fault.Some? then Deleted(t, fault.value.sessionId)
    else if semantic.Some? then Deleted(t, semantic.value.sessionId)
    else t
  }

  /** With an archive, the unlocked phases hand over the session of the list that the message joins. */
  lemma FetchChooses(a: L.Inner, t: Tables, cfg: R.Config, order: seq<Session>, o: R.Obs,
                     fault: Option<Session>, semantic: Option<Session>)
    requires R.Good(order) && Tracks(a, order) && a.c0 == cfg.c0 && a.c1 == cfg.c1 && cfg.archived
    requires Stored(t, order[R.Resident(cfg, |order|)..])
    requires Fetched(a.index, t, o, fault, semantic)
    ensures Chosen(order, R.Resident(cfg, |order|), o, R.Target(cfg, order, o), fault, semantic)
    ensures Stored(AfterFetch(t, fault, semantic), Remaining(order, R.Resident(cfg, |order|), R.Target(cfg, order, o)))
  {
    var j := R.Resident(cfg, |order|);
    var c := R.Target(cfg, order, o);
    match o.msg.replyTo {
      case Some(r) =>
        FaultFinds(t, order, j, r);
        ReplyIndexed(order, j, r);
        FetchedReply(a.index, t, o, r, fault, semantic);
      case None =>
        SearchFinds(t, cfg, order, o);
    }
    if c.Some? && j <= c.value {
      DeleteStores(t, order, j, c.value);
    }
  }

  lemma FetchedReply(
    index: map<int, string>, t: Tables, o: R.Obs, r: int, fault: Option<Session>, semantic: Option<Session>)
    requires Fetched(index, t, o, fault, semantic) && o.msg.replyTo == Some(r)
    ensures fault == (if r in index then None else LoadByMsg(t, r)) && semantic == None
  {
  }

  /** Without an archive there is nothing to hand over. */
  lemma MemoryChooses(cfg: R.Config, order: seq<Session>, o: R.Obs)
    requires !cfg.archived && |order| <= cfg.c0 + cfg.c1
    ensures Chosen(order, R.Resident(cfg, |order|), o, R.Target(cfg, order, o), None, None)
  {
  }

  lemma RunBounded(cfg: R.Config, h: seq<R.Obs>)
    requires !cfg.archived
    ensures |R.Run(cfg, h)| <= cfg.c0 + cfg.c1
  {
  }

  /** In memory, the index and the layers lead to the session of the list that holds a message. */
  lemma {:induction false} Locate(a: L.Inner, order: seq<Session>, id: int)
    requires R.Good(order) && Tracks(a, order)
    ensures var f := R.Find(order, id);
            var j := R.Min(a.c0 + a.c1, |order|);
            && (id in a.index <==> f.Some? && f.value < j)
            && (id in a.index ==>
                 var sid := a.index[id];
                 if sid in a.l0 then a.l0[sid] == order[f.value] else sid in a.l1 && a.l1[sid] == order[f.value])
  {
    var i, j := R.Min(a.c0, |order|), R.Min(a.c0 + a.c1, |order|);
    var f := R.Find(order, id);
    hide Cut, R.Good, R.Find;
    ReplyKnown(a, order, i, j, id);
    if f.Some? && f.value < j {
      InMemory(a, order, i, j, f.value);
    }
  }

  lemma InMemory(a: L.Inner, order: seq<Session>, i: nat, j: nat, n: nat)
    requires R.Good(order) && Cut(a, order, i, j) && n < j
    ensures var sid := order[n].sessionId;
            if sid in a.l0 then a.l0[sid] == order[n] else sid in a.l1 && a.l1[sid] == order[n]
  {
    assert order[0..i] == order[..i];
    hide R.Good, ById, IndexOf;
    if n < i {
      StretchMember(order, 0, n, i);
    } else {
      NotInOthers(order, 0, i, n);
      StretchMember(order, i, n, j);
    }
  }

  lemma InStretch(order: seq<Session>, i: nat, j: nat, k: string) returns (n: nat)
    requires i <= j <= |order| && k in ById(order[i..j])
    ensures i <= n < j && order[n].sessionId == k
  {
    ByIdKeys(order[i..j], k);
    var m :| 0 <= m < j - i && order[i..j][m].sessionId == k;
    n := i + m;
  }

  /** At rest both layers are as full as the list allows, and no session is in two of L0, L1 and L2. */
  lemma LayersApart(a: L.Inner, t: Tables, order: seq<Session>)
    requires R.Good(order) && Tracks(a, order) && Stored(t, order[R.Min(a.c0 + a.c1, |order|)..])
    ensures |a.l0| == R.Min(a.c0, |order|) && |a.l0| + |a.l1| == R.Min(a.c0 + a.c1, |order|)
    ensures a.l0.Keys !! a.l1.Keys
    ensures forall s :: s in t.sessions ==> s.sessionId !in a.l0 && s.sessionId !in a.l1
  {
    var i, j := R.Min(a.c0, |order|), R.Min(a.c0 + a.c1, |order|);
    assert order[0..i] == order[..i];
    LayerSizes(a, order, i, j);
    assert a.l0 == ById(order[0..i]) && a.l1 == ById(order[i..j]);
    assert forall s :: s in t.sessions ==> s in order[j..];
    hide R.Good, ById, IndexOf, Stored, Tracks, Cut;
    StretchesApart(order, i, j);
    forall s | s in t.sessions ensures s.sessionId !in a.l0 && s.sessionId !in a.l1 {
      TailApart(order, i, j, s);
    }
  }

  lemma StretchesApart(order: seq<Session>, i: nat, j: nat)
    requires R.Good(order) && i <= j <= |order|
    ensures ById(order[0..i]).Keys !! ById(order[i..j]).Keys
  {
    hide R.Good, ById;
    forall k | k in ById(order[i..j]) ensures k !in ById(order[0..i]) {
      var n := InStretch(order, i, j, k);
      NotInOthers(order, 0, i, n);
    }
  }

  lemma TailApart(order: seq<Session>, i: nat, j: nat, s: Session)
    requires R.Good(order) && i <= j <= |order| && s in order[j..]
    ensures s.sessionId !in ById(order[0..i]) && s.sessionId !in ById(order[i..j])
  {
    hide R.Good, ById;
    var n :| 0 <= n < |order[j..]| && order[j..][n] == s;
    NotInOthers(order, 0, i, j + n);
    NotInOthers(order, i, j, j + n);
  }

  /** At rest the index knows exactly the messages of resident sessions, and leads each to its session. */
  lemma IndexExact(a: L.Inner, order: seq<Session>, id: int)
    requires R.Good(order) && Tracks(a, order)
    ensures var j := R.Min(a.c0 + a.c1, |order|);
            && (id in a.index <==> exists n :: 0 <= n < j && order[n].Has(id))
            && (id in a.index ==> exists n :: 0 <= n < j && order[n].Has(id) && a.index[id] == order[n].sessionId)
  {
    var j := R.Min(a.c0 + a.c1, |order|);
    assert a.index == IndexOf(order[..j]);
    hide R.Good, ById, IndexOf, Tracks, Cut;
    IndexedAt(order, j, id);
  }

  lemma LayerSizes(a: L.Inner, order: seq<Session>, i: nat, j: nat)
    requires R.Good(order) && Cut(a, order, i, j)
    ensures |a.l0| == i && |a.l1| == j - i
  {
    SliceGood(order, 0, i);
    SliceGood(order, i, j);
    assert order[0..i] == order[..i];
    ByIdSize(order[..i]);
    ByIdSize(order[i..j]);
  }

  lemma IndexedAt(order: seq<Session>, j: nat, id: int)
    requires R.Good(order) && j <= |order|
    ensures id in IndexOf(order[..j]) <==> exists n :: 0 <= n < j && order[n].Has(id)
    ensures id in IndexOf(order[..j]) ==>
              exists n :: 0 <= n < j && order[n].Has(id) && IndexOf(order[..j])[id] == order[n].sessionId
  {
    if id in IndexOf(order[..j]) {
      IndexOfKeys(order[..j], id);
      var n :| 0 <= n < j && id in order[..j][n].Ids() && IndexOf(order[..j])[id] == order[..j][n].sessionId;
      assert order[n].Has(id);
    }
    forall n | 0 <= n < j && order[n].Has(id) ensures id in IndexOf(order[..j]) {
      ListMember(order, n, j);
    }
  }

  /** The first session of a chat in a list. */
  function FirstOf(order: seq<Session>, chat: string): (r: Option<Session>)
    ensures r.Some? ==> r.value in order && r.value.chatId == chat
    ensures r.None? ==> forall s :: s in order ==> s.chatId != chat
  {
    if order == [] then None
    else if order[0].chatId == chat then Some(order[0])
    else FirstOf(order[1..], chat)
  }

  lemma {:induction false} FirstIsLatest(order: seq<Session>, chat: string, s: Session)
    requires R.Good(order) && s in order && s.chatId == chat
    ensures FirstOf(order, chat).Some? && s.lastActive <= FirstOf(order, chat).value.lastActive
    ensures FirstOf(order, chat) != Some(s) ==> s.lastActive < FirstOf(order, chat).value.lastActive
  {
    if order[0].chatId != chat {
      R.RemoveGood(order, 0);
      assert R.Removed(order, 0) == order[1..];
      FirstIsLatest(order[1..], chat, s);
    }
  }

  /** A session of the chat in a layer with the latest activity, if the layer has any. */
  ghost predicate Latest(layer: map<string, Session>, chat: string, r: Option<Session>) {
    && (r.None? ==> forall k :: k in layer ==> layer[k].chatId != chat)
    && (r.Some? ==> r.value.chatId == chat && r.value in layer.Values)
    && (r.Some? ==> forall k :: k in layer && layer[k].chatId == chat ==> layer[k].lastActive <= r.value.lastActive)
  }

  /** The latest session of a chat in the layer that holds a list is the first one of the list. */
  lemma LatestIsFirst(ss: seq<Session>, chat: string, r: Option<Session>)
    requires R.Good(ss) && Latest(ById(ss), chat, r)
    ensures r == FirstOf(ss, chat)
  {
    var f := FirstOf(ss, chat);
    if f.Some? {
      InList(ss, f.value);
    }
    if r.Some? {
      var k :| k in ById(ss) && ById(ss)[k] == r.value;
      ByIdKeys(ss, k);
      FirstIsLatest(ss, chat, r.value);
    }
  }

  lemma InList(ss: seq<Session>, s: Session)
    requires R.Good(ss) && s in ss
    ensures s.sessionId in ById(ss) && ById(ss)[s.sessionId] == s
  {
    var i :| 0 <= i < |ss| && ss[i] == s;
    assert ss[..|ss|] == ss;
    ListMember(ss, i, |ss|);
  }

  lemma FrontLayer(a: L.Inner, order: seq<Session>)
    requires R.Good(order) && Tracks(a, order)
    ensures a.l0 == ById(order[..R.Min(a.c0, |order|)]) && R.Good(order[..R.Min(a.c0, |order|)])
  {
  }

  /** What holds when an observation begins. */
  ghost predicate Begins(a: L.Inner, t: Option<Tables>, cfg: R.Config, h: seq<R.Obs>, o: R.Obs) {
    var order := R.Run(cfg, h);
    && R.Good(order) && R.News(order, o) && Tracks(a, order)
    && R.Good(R.ToFront(order, R.Target(cfg, order, o), o))
    && (cfg.archived <==> t.Some?)
    && (t.Some? ==> Stored(t.value, order[R.Resident(cfg, |order|)..]))
    && (t.None? ==> |order| <= cfg.c0 + cfg.c1)
  }

  lemma BeginsFrom(a: L.Inner, t: Option<Tables>, cfg: R.Config, h: seq<R.Obs>, o: R.Obs)
    requires R.WellFormed(h + [o]) && Tracks(a, R.Run(cfg, h))
    requires cfg.archived <==> t.Some?
    requires t.Some? ==> Stored(t.value, R.Run(cfg, h)[R.Resident(cfg, |R.Run(cfg, h)|)..])
    ensures Begins(a, t, cfg, h, o)
  {
    assert R.WellFormed(h) by {
      assert forall i :: 0 <= i < |h| ==> h[i] == (h + [o])[i];
    }
    R.RunGood(cfg, h);
    R.NewToAll(R.Run(cfg, h), h, o);
    R.ToFrontGood(R.Run(cfg, h), R.Target(cfg, R.Run(cfg, h), o), o);
    if !cfg.archived {
      RunBounded(cfg, h);
    }
  }

  /** What the locked section leaves to be persisted: the stretch of the next list from n up to k. */
  ghost predicate Left(b: L.Inner, t: Tables, cfg: R.Config, f: seq<Session>, out: seq<Session>, n: nat, k: nat) {
    && R.Good(f) && Tracks(b, f)
    && n == R.Resident(cfg, |f|) <= k <= |f|
    && out == Reversed(f[n..k])
    && Stored(t, f[k..])
  }

  lemma AdvanceArchived(a: L.Inner, t: Tables, cfg: R.Config, h: seq<R.Obs>, o: R.Obs,
                        fault: Option<Session>, semantic: Option<Session>, b: L.Inner, out: seq<Session>)
                          returns (k: nat)
    requires cfg.archived && a.c0 == cfg.c0 && a.c1 == cfg.c1 && Begins(a, Some(t), cfg, h, o)
    requires Fetched(a.index, t, o, fault, semantic)
    requires L.Critical(a, o.msg, fault, semantic, o.now, b, out)
    ensures var f := R.Run(cfg, h + [o]); Left(b, AfterFetch(t, fault, semantic), cfg, f, out, R.Resident(cfg, |f|), k)
  {
    var order := R.Run(cfg, h);
    var c := R.Target(cfg, order, o);
    hide R.Good, R.News, R.Run, R.ToFront, R.Target, Tracks, Chosen, Beyond, L.Critical, Stored, Fetched, Settles;
    FetchChooses(a, t, cfg, order, o, fault, semantic);
    CriticalRefines(a, order, o, c, fault, semantic, b, out);
    SettledParts(a, cfg, order, o, c, b, out);
    R.RunStep(cfg, h, o);
    k := Beyond(cfg, |order|, c);
  }

  lemma AdvanceInMemory(a: L.Inner, cfg: R.Config, h: seq<R.Obs>, o: R.Obs, b: L.Inner, out: seq<Session>)
    requires !cfg.archived && a.c0 == cfg.c0 && a.c1 == cfg.c1 && Begins(a, None, cfg, h, o)
    requires L.Critical(a, o.msg, None, None, o.now, b, out)
    ensures Tracks(b, R.Run(cfg, h + [o]))
  {
    var order := R.Run(cfg, h);
    var c := R.Target(cfg, order, o);
    hide R.Good, R.News, R.Run, R.ToFront, R.Target, Tracks, Chosen, Beyond, L.Critical, Stored, Fetched;
    MemoryChooses(cfg, order, o);
    CriticalRefines(a, order, o, c, None, None, b, out);
    SettledParts(a, cfg, order, o, c, b, out);
    TracksFirst(b, R.ToFront(order, c, o));
    R.RunStep(cfg, h, o);
  }
}
