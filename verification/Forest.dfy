/**
 What the sessions mean. A message's parent is the earlier observation that it replies to, if that was
 observed at all; the parents make a forest, and sessions follow its trees.
 */
module Forest {
  import opened Wrappers
  import opened SessionTypes
  import opened Recency

  /** The earlier observation of a message. */
  function Observed(h: seq<Obs>, id: int): (i: Option<nat>)
    ensures i.Some? ==> i.value < |h| && h[i.value].msg.msgId == id
    ensures i.None? ==> forall k :: 0 <= k < |h| ==> h[k].msg.msgId != id
    decreases |h|
  {
    if h == [] then None
    else match Observed(h[..|h| - 1], id)
      case Some(i) => Some(i)
      case None => if h[|h| - 1].msg.msgId == id then Some(|h| - 1) else None
  }

  function Parent(h: seq<Obs>, i: nat): (p: Option<nat>)
    requires i < |h|
    ensures p.Some? ==> p.value < i
  {
    match h[i].msg.replyTo
    case None => None
    case Some(r) => Observed(h[..i], r)
  }

  function Root(h: seq<Obs>, i: nat): (r: nat)
    requires i < |h|
    ensures r <= i
  {
    match Parent(h, i)
    case None => i
    case Some(p) => Root(h, p)
  }

  /** The messages of one tree, in arrival order. */
  function Tree(h: seq<Obs>, root: nat): seq<MsgRef>
    decreases |h|
  {
    if h == [] then []
    else
      var n := |h| - 1;
      Tree(h[..n], root) + if Root(h, n) == root then [h[n].msg] else []
  }

  /** A session that is the tree of a root. */
  ghost predicate IsTree(h: seq<Obs>, root: nat, s: Session)
    requires root < |h|
  {
    && s.messages == Tree(h, root)
    && s.sessionId == SessionId(h[root].msg.chatId, h[root].msg.msgId)
    && s.chatId == h[root].msg.chatId
  }

  ghost predicate NoHints(h: seq<Obs>) {
    forall i :: 0 <= i < |h| ==> h[i].hint == None
  }

  // ---- The forest grows at the end ----

  lemma {:induction false} RootOfPrefix(h: seq<Obs>, n: nat, i: nat)
    requires i < n <= |h|
    ensures Root(h[..n], i) == Root(h, i)
  {
    assert h[..n][..i] == h[..i];
    match Parent(h, i) {
      case None =>
      case Some(p) => RootOfPrefix(h, n, p);
    }
  }

  lemma {:induction false} RootIsRoot(h: seq<Obs>, i: nat)
    requires i < |h|
    ensures Root(h, Root(h, i)) == Root(h, i)
  {
    match Parent(h, i) {
      case None =>
      case Some(p) => RootIsRoot(h, p);
    }
  }

  /** A tree holds the messages whose root it is. */
  lemma {:induction false} TreeHas(h: seq<Obs>, i: nat)
    requires i < |h|
    ensures h[i].msg in Tree(h, Root(h, i))
    decreases |h|
  {
    var n := |h| - 1;
    var root := Root(h, i);
    assert Tree(h, root) == Tree(h[..n], root) + if Root(h, n) == root then [h[n].msg] else [];
    hide Root, Tree;
    if i < n {
      TreeHas(h[..n], i);
      RootOfPrefix(h, n, i);
    }
  }

  /** And it holds no others. */
  lemma {:induction false} TreeOnly(h: seq<Obs>, root: nat, m: MsgRef) returns (i: nat)
    requires m in Tree(h, root)
    ensures i < |h| && h[i].msg == m && Root(h, i) == root
    decreases |h|
  {
    var n := |h| - 1;
    assert Tree(h, root) == Tree(h[..n], root) + if Root(h, n) == root then [h[n].msg] else [];
    hide Root, Tree;
    if m in Tree(h[..n], root) {
      i := TreeOnly(h[..n], root, m);
      RootOfPrefix(h, n, i);
    } else {
      i := n;
    }
  }

  /** No message belongs to a tree whose root is still to come. */
  lemma {:induction false} TreeOfLater(h: seq<Obs>, root: nat)
    requires |h| <= root
    ensures Tree(h, root) == []
    decreases |h|
  {
    if h != [] {
      TreeOfLater(h[..|h| - 1], root);
    }
  }

  // ---- The sessions are the trees ----

  ghost predicate Trees(h: seq<Obs>, order: seq<Session>) {
    && (forall i :: 0 <= i < |h| ==> HasTree(h, order, i))
    && (forall s :: s in order ==> IsSomeTree(h, s))
  }

  ghost predicate HasTree(h: seq<Obs>, order: seq<Session>, i: nat)
    requires i < |h|
  {
    exists s :: s in order && IsTree(h, Root(h, i), s)
  }

  ghost predicate IsSomeTree(h: seq<Obs>, s: Session) {
    exists r :: 0 <= r < |h| && Root(h, r) == r && IsTree(h, r, s)
  }

  lemma TreeOf(h: seq<Obs>, order: seq<Session>, i: nat) returns (s: Session)
    requires Trees(h, order) && i < |h|
    ensures s in order && IsTree(h, Root(h, i), s)
  {
    assert HasTree(h, order, i);
    s :| s in order && IsTree(h, Root(h, i), s);
  }

  lemma RootOf(h: seq<Obs>, order: seq<Session>, s: Session) returns (r: nat)
    requires Trees(h, order) && s in order
    ensures r < |h| && Root(h, r) == r && IsTree(h, r, s)
  {
    assert IsSomeTree(h, s);
    r :| 0 <= r < |h| && Root(h, r) == r && IsTree(h, r, s);
  }

  lemma SameObs(h: seq<Obs>, i: nat, j: nat)
    requires WellFormed(h) && i < |h| && j < |h| && h[i].msg.msgId == h[j].msg.msgId
    ensures i == j
  {
  }

  /** An observed message of a session is one of the tree. */
  lemma MemberOf(h: seq<Obs>, root: nat, s: Session, id: int) returns (q: nat)
    requires root < |h| && IsTree(h, root, s) && s.Has(id)
    ensures q < |h| && h[q].msg.msgId == id && Root(h, q) == root
  {
    var m :| m in s.messages && m.msgId == id;
    hide Root, Tree;
    q := TreeOnly(h, root, m);
  }

  lemma HasMember(h: seq<Obs>, q: nat, s: Session)
    requires q < |h| && IsTree(h, Root(h, q), s)
    ensures s.Has(h[q].msg.msgId)
  {
    hide Root, Tree;
    TreeHas(h, q);
    assert h[q].msg in s.messages;
  }

  /** Which session holds an observed message: the tree of its root. */
  lemma HolderIsTree(h: seq<Obs>, order: seq<Session>, s: Session, p: nat)
    requires WellFormed(h) && Trees(h, order) && s in order && p < |h| && s.Has(h[p].msg.msgId)
    ensures IsTree(h, Root(h, p), s)
  {
    var r := RootOf(h, order, s);
    hide Trees, IsTree, WellFormed;
    var q := MemberOf(h, r, s, h[p].msg.msgId);
    SameObs(h, p, q);
  }

  /** The session that a reply joins is the tree of its parent. */
  lemma TargetIsParent(h: seq<Obs>, order: seq<Session>, r: int)
    requires WellFormed(h) && Trees(h, order)
    ensures var f, p := Find(order, r), Observed(h, r);
            && (f.Some? <==> p.Some?)
            && (p.Some? ==> IsTree(h, Root(h, p.value), order[f.value]))
  {
    var f, p := Find(order, r), Observed(h, r);
    hide Trees, IsTree, WellFormed;
    if p.Some? {
      var s := TreeOf(h, order, p.value);
      HasMember(h, p.value, s);
      HolderIsTree(h, order, order[f.value], p.value);
    } else if f.Some? {
      var root := RootOf(h, order, order[f.value]);
      var q := MemberOf(h, root, order[f.value], r);
      assert false;
    }
  }

  /** Every other tree is unchanged by one more observation. */
  lemma OtherTree(h: seq<Obs>, o: Obs, r: nat, s: Session)
    requires r < |h| && Root(h, r) == r && IsTree(h, r, s) && r != Root(h + [o], |h|)
    ensures Root(h + [o], r) == r && IsTree(h + [o], r, s)
  {
    var g := h + [o];
    assert g[..|h|] == h;
    RootOfPrefix(g, |h|, r);
  }

  /** The tree that one more observation joins. */
  lemma JoinedTree(h: seq<Obs>, o: Obs, s: Session)
    requires var g := h + [o]; var p := Parent(g, |h|); p.Some? && IsTree(h, Root(h, p.value), s)
    ensures var g := h + [o]; IsTree(g, Root(g, |h|), s.Add(o.msg, o.now))
    ensures var g := h + [o]; Root(g, Root(g, |h|)) == Root(g, |h|)
  {
    var g := h + [o];
    assert g[..|h|] == h;
    RootOfPrefix(g, |h|, Parent(g, |h|).value);
    RootIsRoot(g, |h|);
  }

  lemma OpenedTree(h: seq<Obs>, o: Obs)
    requires Parent(h + [o], |h|) == None
    ensures var g := h + [o]; Root(g, |h|) == |h| && IsTree(g, |h|, NewSession(o.msg, o.now))
  {
    var g := h + [o];
    assert g[..|h|] == h && g[|h|] == o;
    TreeOfLater(h, |h|);
    assert Root(g, |h|) == |h|;
    assert Tree(g, |h|) == Tree(h, |h|) + [o.msg];
  }

  /** Two roots have different trees. */
  lemma TreesDiffer(h: seq<Obs>, r: nat, q: nat, s: Session)
    requires WellFormed(h) && r < |h| && q < |h| && Root(h, r) == r
    requires IsTree(h, r, s) && IsTree(h, q, s)
    ensures r == q
  {
    HasMember(h, r, s);
    var i := MemberOf(h, q, s, h[r].msg.msgId);
    SameObs(h, i, r);
  }

  /** What the next observation joins: the session at t is the tree of the parent. */
  ghost predicate JoinsParent(h: seq<Obs>, order: seq<Session>, o: Obs, t: Option<nat>) {
    var p := Parent(h + [o], |h|);
    && (t.Some? ==> t.value < |order|)
    && (t.Some? <==> p.Some?)
    && (p.Some? ==> IsTree(h, Root(h, p.value), order[t.value]))
  }

  /** The root of the next observation is new, or the root of the session that it joins. */
  lemma NextRoot(h: seq<Obs>, order: seq<Session>, o: Obs, t: Option<nat>)
    requires JoinsParent(h, order, o, t)
    ensures var g := h + [o]; var root := Root(g, |h|);
            && Root(g, root) == root
            && IsTree(g, root, ToFront(order, t, o)[0])
            && (if t.None? then root == |h| else root < |h| && Root(h, root) == root && IsTree(h, root, order[t.value]))
  {
    var g := h + [o];
    assert g[..|h|] == h;
    match t {
      case Some(i) =>
        JoinedTree(h, o, order[i]);
        RootOfPrefix(g, |h|, Parent(g, |h|).value);
        RootIsRoot(h, Parent(g, |h|).value);
      case None =>
        OpenedTree(h, o);
    }
  }

  /** One more observation, given the session that it joins. */
  lemma StepTrees(h: seq<Obs>, order: seq<Session>, o: Obs, t: Option<nat>)
    requires WellFormed(h) && Good(order) && Trees(h, order) && JoinsParent(h, order, o, t)
    ensures Trees(h + [o], ToFront(order, t, o))
  {
    var g, f := h + [o], ToFront(order, t, o);
    var root := Root(g, |h|);
    assert g[..|h|] == h;
    NextRoot(h, order, o, t);
    forall k | 0 <= k < |g|
      ensures HasTree(g, f, k)
    {
      var s := NextTree(h, order, o, t, k);
    }
    forall s | s in f
      ensures IsSomeTree(g, s)
    {
      var r := NextRootOf(h, order, o, t, s);
    }
  }

  lemma NextTree(h: seq<Obs>, order: seq<Session>, o: Obs, t: Option<nat>, k: nat) returns (s: Session)
    requires WellFormed(h) && Trees(h, order) && JoinsParent(h, order, o, t) && k <= |h|
    ensures s in ToFront(order, t, o) && IsTree(h + [o], Root(h + [o], k), s)
  {
    var g := h + [o];
    var root := Root(g, |h|);
    assert g[..|h|] == h;
    assert t.Some? ==> t.value < |order|;
    hide Trees, IsTree, WellFormed, JoinsParent, Parent;
    NextRoot(h, order, o, t);
    if Root(g, k) == root {
      s := ToFront(order, t, o)[0];
    } else {
      RootOfPrefix(g, |h|, k);
      RootIsRoot(h, k);
      s := TreeOf(h, order, k);
      OtherTree(h, o, Root(h, k), s);
      if t.Some? && s == order[t.value] {
        TreesDiffer(h, Root(h, k), root, s);
      }
      Stays(order, o, t, s);
    }
  }

  lemma NextRootOf(h: seq<Obs>, order: seq<Session>, o: Obs, t: Option<nat>, s: Session) returns (r: nat)
    requires Good(order) && Trees(h, order) && JoinsParent(h, order, o, t) && s in ToFront(order, t, o)
    ensures r <= |h| && Root(h + [o], r) == r && IsTree(h + [o], r, s)
  {
    var g := h + [o];
    NextRoot(h, order, o, t);
    if s == ToFront(order, t, o)[0] {
      r := Root(g, |h|);
    } else {
      Stayed(order, o, t, s);
      r := RootOf(h, order, s);
      OtherTree(h, o, r, s);
    }
  }

  lemma Stays(order: seq<Session>, o: Obs, t: Option<nat>, s: Session)
    requires t.Some? ==> t.value < |order| && s != order[t.value]
    requires s in order
    ensures s in ToFront(order, t, o)
  {
    if t.Some? {
      assert order == order[..t.value] + [order[t.value]] + order[t.value + 1..];
    }
  }

  lemma Stayed(order: seq<Session>, o: Obs, t: Option<nat>, s: Session)
    requires Good(order)
    requires t.Some? ==> t.value < |order|
    requires s in ToFront(order, t, o) && s != ToFront(order, t, o)[0]
    ensures s in order && (t.Some? ==> s.sessionId != order[t.value].sessionId)
  {
    if t.Some? {
      RemoveGood(order, t.value);
      assert s in Removed(order, t.value);
    }
  }

  lemma JoinsItsParent(cfg: Config, h: seq<Obs>, order: seq<Session>, o: Obs)
    requires WellFormed(h) && Trees(h, order) && o.hint == None
    ensures JoinsParent(h, order, o, Target(cfg, order, o))
  {
    var g := h + [o];
    assert g[..|h|] == h && g[|h|] == o;
    match o.msg.replyTo {
      case Some(r) => TargetIsParent(h, order, r);
      case None =>
    }
  }

  /** The forest theorem: with an archive and no semantic match, the sessions of every run are exactly
      the trees of the reply forest, each with its messages in arrival order. */
  lemma {:induction false} SessionsAreTrees(cfg: Config, h: seq<Obs>)
    requires cfg.archived && WellFormed(h) && NoHints(h)
    ensures Trees(h, Run(cfg, h))
    decreases |h|
  {
    if h != [] {
      var n := |h| - 1;
      var front, o := h[..n], h[n];
      assert front + [o] == h;
      SessionsAreTrees(cfg, front);
      RunGood(cfg, front);
      var order := Run(cfg, front);
      JoinsItsParent(cfg, front, order, o);
      hide Trees, WellFormed, Good, JoinsParent, ToFront;
      StepTrees(front, order, o, Target(cfg, order, o));
    }
  }

  /** Looking up any observed message gives the tree of its root. */
  lemma {:induction false} LookupIsTree(cfg: Config, h: seq<Obs>, i: nat)
    requires cfg.archived && WellFormed(h) && NoHints(h) && i < |h|
    ensures var f := Find(Run(cfg, h), h[i].msg.msgId);
            f.Some? && IsTree(h, Root(h, i), Run(cfg, h)[f.value])
  {
    var order := Run(cfg, h);
    SessionsAreTrees(cfg, h);
    hide Trees, IsTree, WellFormed;
    var s := TreeOf(h, order, i);
    HasMember(h, i, s);
    HolderIsTree(h, order, order[Find(order, h[i].msg.msgId).value], i);
  }

  /** So the capacities of the layers do not matter to anyone who looks a session up. */
  lemma {:induction false} CapacityIndependent(a: Config, b: Config, h: seq<Obs>)
    requires a.archived && b.archived && NoHints(h)
    ensures Run(a, h) == Run(b, h)
    decreases |h|
  {
    if h != [] {
      CapacityIndependent(a, b, h[..|h| - 1]);
    }
  }

  // ---- With any semantic matches ----

  ghost predicate Together(order: seq<Session>, x: int, y: int) {
    exists s :: s in order && s.Has(x) && s.Has(y)
  }

  lemma StepTogether(order: seq<Session>, t: Option<nat>, o: Obs, x: int, y: int)
    requires t.Some? ==> t.value < |order|
    requires Together(order, x, y)
    ensures Together(ToFront(order, t, o), x, y)
  {
    var s :| s in order && s.Has(x) && s.Has(y);
    var f := ToFront(order, t, o);
    if t.Some? && s == order[t.value] {
      AddIds(s, o.msg, o.now);
      assert f[0].Has(x) && f[0].Has(y) && f[0] in f;
    } else {
      Stays(order, o, t, s);
    }
  }

  /** Reply chains bind whatever the vector search returns: with an archive every observed message is in
      some session, and a reply is in the session of its parent for ever after. */
  lemma {:induction false} RepliesBind(cfg: Config, h: seq<Obs>, i: nat)
    requires cfg.archived && WellFormed(h) && i < |h|
    ensures var p := Parent(h, i);
            Together(Run(cfg, h), h[i].msg.msgId, if p.Some? then h[p.value].msg.msgId else h[i].msg.msgId)
    decreases |h|
  {
    var n := |h| - 1;
    var front, o := h[..n], h[n];
    var order := Run(cfg, front);
    var t := Target(cfg, order, o);
    assert front + [o] == h;
    var p := Parent(h, i);
    var x, y := h[i].msg.msgId, if p.Some? then h[p.value].msg.msgId else h[i].msg.msgId;
    if i < n {
      assert front[..i] == h[..i];
      RepliesBind(cfg, front, i);
      StepTogether(order, t, o, x, y);
    } else {
      var f := ToFront(order, t, o);
      if p.Some? {
        RepliesBind(cfg, front, p.value);
        var s :| s in order && s.Has(y);
        assert order[t.value].Has(y);
      }
      if t.Some? {
        AddIds(order[t.value], o.msg, o.now);
      }
      assert f[0].Has(x) && f[0].Has(y) && f[0] in f;
    }
  }

  /** And no message is in two sessions. */
  lemma OneSession(cfg: Config, h: seq<Obs>, s: Session, x: Session, id: int)
    requires WellFormed(h) && s in Run(cfg, h) && x in Run(cfg, h) && s.Has(id) && x.Has(id)
    ensures s == x
  {
    RunGood(cfg, h);
    var order := Run(cfg, h);
    var i :| 0 <= i < |order| && order[i] == s;
    var j :| 0 <= j < |order| && order[j] == x;
  }
}
