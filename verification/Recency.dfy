/**
 The simple thing the layered store stands for: one list of sessions, the most recently active first.
 Observing a message moves the session it joins to the front, or puts a new one there. L0 is the
 first c0 sessions of the list, L1 the next c1 and L2 the rest; without an archive the list is cut.
 */
module Recency {
  import opened Wrappers
  import opened SessionTypes
  import Text

  datatype Config = Config(c0: nat, c1: nat, archived: bool)

  /** One call of `observe`: the message, the session the vector search would pick if it is asked
      (any session at all, or none), and the time that the call reads. */
  datatype Obs = Obs(msg: MsgRef, hint: Option<string>, now: nat)

  function Min(a: int, b: int): int {
    if a < b then a else b
  }

  /** How many sessions of a list of length n are held in memory. */
  function Resident(cfg: Config, n: nat): nat {
    Min(cfg.c0 + cfg.c1, n)
  }

  /** The position of the first session that holds a message. */
  function Find(order: seq<Session>, id: int): (i: Option<nat>)
    ensures i.Some? ==> i.value < |order| && order[i.value].Has(id)
    ensures i.None? ==> forall s :: s in order ==> !s.Has(id)
  {
    if order == [] then None
    else if order[0].Has(id) then Some(0)
    else match Find(order[1..], id) case Some(i) => Some(i + 1) case None => None
  }

  function FindId(order: seq<Session>, sid: string): (i: Option<nat>)
    ensures i.Some? ==> i.value < |order| && order[i.value].sessionId == sid
    ensures i.None? ==> forall s :: s in order ==> s.sessionId != sid
  {
    if order == [] then None
    else if order[0].sessionId == sid then Some(0)
    else match FindId(order[1..], sid) case Some(i) => Some(i + 1) case None => None
  }

  /** The archived session that the vector search returns: its pick, if that is an archived session of the chat. */
  function Suggested(cfg: Config, order: seq<Session>, o: Obs): (i: Option<nat>)
    ensures i.Some? ==> i.value < |order|
  {
    if !cfg.archived || o.hint.None? then None
    else match FindId(order, o.hint.value)
      case None => None
      case Some(i) => if i >= Resident(cfg, |order|) && order[i].chatId == o.msg.chatId then Some(i) else None
  }

  /** The session that a message joins. */
  function Target(cfg: Config, order: seq<Session>, o: Obs): (i: Option<nat>)
    ensures i.Some? ==> i.value < |order|
  {
    match o.msg.replyTo
    case Some(r) => Find(order, r)
    case None => Suggested(cfg, order, o)
  }

  function ToFront(order: seq<Session>, t: Option<nat>, o: Obs): seq<Session>
    requires t.Some? ==> t.value < |order|
  {
    match t
    case Some(i) => [order[i].Add(o.msg, o.now)] + order[..i] + order[i + 1..]
    case None => [NewSession(o.msg, o.now)] + order
  }

  function Step(cfg: Config, order: seq<Session>, o: Obs): seq<Session> {
    var f := ToFront(order, Target(cfg, order, o), o);
    if cfg.archived then f else f[..Resident(cfg, |f|)]
  }

  function Run(cfg: Config, h: seq<Obs>): seq<Session>
    decreases |h|
  {
    if h == [] then [] else Step(cfg, Run(cfg, h[..|h| - 1]), h[|h| - 1])
  }

  lemma RunStep(cfg: Config, h: seq<Obs>, o: Obs)
    ensures Run(cfg, h + [o]) == Step(cfg, Run(cfg, h), o)
  {
    assert (h + [o])[..|h|] == h;
  }

  /** What the callers of `observe` owe: distinct non-negative message ids; and what the clock gives. */
  ghost predicate WellFormed(h: seq<Obs>) {
    && (forall i :: 0 <= i < |h| ==> h[i].msg.msgId >= 0)
    && (forall i, j :: 0 <= i < j < |h| ==> h[i].msg.msgId != h[j].msg.msgId)
    && (forall i, j :: 0 <= i < j < |h| ==> h[i].now < h[j].now)
  }

  // ---- What one observation does, in plain words ----

  /** A reply joins the session that holds the message replied to; any other message joins the archived
      session of its own chat that the vector search names. */
  ghost predicate Joinable(cfg: Config, order: seq<Session>, o: Obs, i: int) {
    && 0 <= i < |order|
    && match o.msg.replyTo
       case Some(r) => exists m :: m in order[i].messages && m.msgId == r
       case None =>
         cfg.archived && i >= cfg.c0 + cfg.c1
         && o.hint == Some(order[i].sessionId) && order[i].chatId == o.msg.chatId
  }

  /** The next list: the joined session in front, with the message at its end and active now; or, if there
      is none to join, a session for the message alone; then all others as they were, as far as they are kept. */
  ghost predicate StepsTo(cfg: Config, order: seq<Session>, o: Obs, next: seq<Session>) {
    var room := if cfg.archived then |order| + 1 else cfg.c0 + cfg.c1;
    && (forall i :: Joinable(cfg, order, o, i) ==>
          var x := order[i];
          var all := [Session(x.sessionId, x.chatId, x.messages + [o.msg], o.now)] + order[..i] + order[i + 1..];
          next == if room <= |all| then all[..room] else all)
    && ((forall i :: !Joinable(cfg, order, o, i)) ==>
          var id := "s-" + o.msg.chatId + "-" + Text.Decimal(o.msg.msgId);
          var all := [Session(id, o.msg.chatId, [o.msg], o.now)] + order;
          next == if room <= |all| then all[..room] else all)
  }

  lemma StepIs(cfg: Config, order: seq<Session>, o: Obs)
    requires Good(order)
    ensures StepsTo(cfg, order, o, Step(cfg, order, o))
  {
    TargetIs(cfg, order, o);
    var t := Target(cfg, order, o);
    var f := ToFront(order, t, o);
    hide Target, Joinable, Good;
    forall i | Joinable(cfg, order, o, i) ensures t == Some(i) {}
    assert t.Some? ==> Joinable(cfg, order, o, t.value);
    assert f[..|f|] == f;
  }

  lemma AtOnePlace(order: seq<Session>, i: nat, j: nat)
    requires Good(order) && i < |order| && j < |order|
    ensures order[i].sessionId == order[j].sessionId ==> i == j
    ensures forall id :: order[i].Has(id) && order[j].Has(id) ==> i == j
  {
    assert i < j ==> Apart(order[i], order[j]);
    assert j < i ==> Apart(order[j], order[i]);
  }

  lemma TargetIs(cfg: Config, order: seq<Session>, o: Obs)
    requires Good(order)
    ensures var t := Target(cfg, order, o);
            && (forall i :: Joinable(cfg, order, o, i) ==> t == Some(i))
            && (t.Some? ==> Joinable(cfg, order, o, t.value))
  {
    match o.msg.replyTo {
      case Some(r) =>
        forall i | Joinable(cfg, order, o, i) ensures Target(cfg, order, o) == Some(i) {
          assert order[i].Has(r) && order[i] in order;
          var f := Find(order, r);
          assert order[f.value].Has(r);
          AtOnePlace(order, f.value, i);
        }
      case None =>
        forall i | Joinable(cfg, order, o, i) ensures Target(cfg, order, o) == Some(i) {
          var f := FindId(order, o.hint.value);
          assert order[i] in order;
          AtOnePlace(order, f.value, i);
        }
    }
  }

  // ---- Chats ----

  /** A session holds messages of its own chat only. */
  predicate OneChat(s: Session) {
    forall i :: 0 <= i < |s.messages| ==> s.messages[i].chatId == s.chatId
  }

  /** Replies stay in the chat of the message that they reply to. */
  predicate RepliesStay(h: seq<Obs>) {
    forall i, j :: 0 <= i < j < |h| && h[j].msg.replyTo == Some(h[i].msg.msgId) ==> h[j].msg.chatId == h[i].msg.chatId
  }

  /** Whatever the vector search returns, no session of any run ever mixes chats. */
  lemma {:induction false} ChatsApart(cfg: Config, h: seq<Obs>)
    requires WellFormed(h) && RepliesStay(h)
    ensures AllOneChat(Run(cfg, h))
    decreases |h|
  {
    if h != [] {
      var front, o := h[..|h| - 1], h[|h| - 1];
      assert front + [o] == h;
      ChatsApart(cfg, front);
      RunGood(cfg, front);
      RunStep(cfg, front, o);
      StepIs(cfg, Run(cfg, front), o);
      assert h[..|h| - 1] == front;
      hide Good, Run, Step, StepsTo, From, WellFormed;
      StepChats(cfg, Run(cfg, front), h, o, Step(cfg, Run(cfg, front), o));
    }
  }

  predicate AllOneChat(order: seq<Session>) {
    forall i :: 0 <= i < |order| ==> OneChat(order[i])
  }

  lemma FrontChats(x: Session, order: seq<Session>, i: nat, n: nat)
    requires OneChat(x) && AllOneChat(order)
    ensures n <= |order| + 1 ==> AllOneChat(([x] + order)[..n])
    ensures i < |order| && n <= |order| ==> AllOneChat(([x] + order[..i] + order[i + 1..])[..n])
  {
    hide OneChat;
    if i < |order| {
      var all := [x] + order[..i] + order[i + 1..];
      assert forall k :: 0 < k < |all| ==> all[k] == order[if k <= i then k - 1 else k];
    }
  }

  lemma JoinedNext(cfg: Config, order: seq<Session>, o: Obs, next: seq<Session>, i: nat)
    requires StepsTo(cfg, order, o, next) && Joinable(cfg, order, o, i)
    ensures i < |order|
    ensures var x := Session(order[i].sessionId, order[i].chatId, order[i].messages + [o.msg], o.now);
            |next| <= |order| && next == ([x] + order[..i] + order[i + 1..])[..|next|]
  {
    InOrder(cfg, order, o, i);
    var x := Session(order[i].sessionId, order[i].chatId, order[i].messages + [o.msg], o.now);
    var all := [x] + order[..i] + order[i + 1..];
    assert |all| == |order| && all[..|all|] == all;
    hide Joinable;
  }

  lemma NewNext(cfg: Config, order: seq<Session>, o: Obs, next: seq<Session>)
    requires StepsTo(cfg, order, o, next) && forall i :: !Joinable(cfg, order, o, i)
    ensures var x := Session("s-" + o.msg.chatId + "-" + Text.Decimal(o.msg.msgId), o.msg.chatId, [o.msg], o.now);
            |next| <= |order| + 1 && next == ([x] + order)[..|next|]
  {
    var x := Session("s-" + o.msg.chatId + "-" + Text.Decimal(o.msg.msgId), o.msg.chatId, [o.msg], o.now);
    assert |[x] + order| == |order| + 1 && ([x] + order)[..|[x] + order|] == [x] + order;
    hide Joinable;
  }

  lemma StepChats(cfg: Config, order: seq<Session>, h: seq<Obs>, o: Obs, next: seq<Session>)
    requires h != [] && o == h[|h| - 1] && RepliesStay(h) && From(order, h[..|h| - 1])
    requires StepsTo(cfg, order, o, next) && AllOneChat(order)
    ensures AllOneChat(next)
  {
    hide Joinable, StepsTo, From, RepliesStay;
    if i :| Joinable(cfg, order, o, i) {
      InOrder(cfg, order, o, i);
      JoinsChat(cfg, order, h, o, i);
      JoinedNext(cfg, order, o, next, i);
      var x := Session(order[i].sessionId, order[i].chatId, order[i].messages + [o.msg], o.now);
      assert OneChat(x);
      FrontChats(x, order, i, |next|);
    } else {
      NewNext(cfg, order, o, next);
      var x := Session("s-" + o.msg.chatId + "-" + Text.Decimal(o.msg.msgId), o.msg.chatId, [o.msg], o.now);
      assert OneChat(x);
      FrontChats(x, order, 0, |next|);
    }
  }

  lemma InOrder(cfg: Config, order: seq<Session>, o: Obs, i: int)
    requires Joinable(cfg, order, o, i)
    ensures 0 <= i < |order|
  {
  }

  lemma JoinsChat(cfg: Config, order: seq<Session>, h: seq<Obs>, o: Obs, i: nat)
    requires h != [] && o == h[|h| - 1] && RepliesStay(h) && From(order, h[..|h| - 1])
    requires Joinable(cfg, order, o, i) && OneChat(order[i])
    ensures order[i].chatId == o.msg.chatId
  {
    if o.msg.replyTo.Some? {
      var m :| m in order[i].messages && m.msgId == o.msg.replyTo.value;
      assert order[i] in order;
      var k :| 0 <= k < |h| - 1 && h[..|h| - 1][k].msg == m;
      assert h[k].msg == m;
    }
  }

  // ---- What every run keeps ----

  /** Two sessions that share neither their name nor a message. */
  ghost predicate Apart(s: Session, t: Session) {
    s.sessionId != t.sessionId && s.Ids() !! t.Ids()
  }

  /** Strictly by recency, and pairwise apart. */
  ghost predicate Good(order: seq<Session>) {
    forall i, j :: 0 <= i < j < |order| ==> order[i].lastActive > order[j].lastActive && Apart(order[i], order[j])
  }

  /** The sessions hold only messages of the history, and are named by their first one. */
  ghost predicate From(order: seq<Session>, h: seq<Obs>) {
    forall s :: s in order ==>
      && NamedByRoot(s)
      && (forall m :: m in s.messages ==> exists i :: 0 <= i < |h| && h[i].msg == m)
      && exists i :: 0 <= i < |h| && h[i].now == s.lastActive
  }

  /** A message that is new to the history is new to every session, in name, content and time. */
  lemma NewToAll(order: seq<Session>, h: seq<Obs>, o: Obs)
    requires From(order, h) && WellFormed(h + [o])
    ensures News(order, o)
  {
    var g := h + [o];
    forall s | s in order
      ensures !s.Has(o.msg.msgId) && s.lastActive < o.now && s.sessionId != NewSession(o.msg, o.now).sessionId
    {
      forall m | m in s.messages
        ensures m.msgId >= 0 && m.msgId != o.msg.msgId
      {
        var i :| 0 <= i < |h| && h[i].msg == m;
        assert g[i] == h[i] && g[|h|] == o;
      }
      var i :| 0 <= i < |h| && h[i].now == s.lastActive;
      assert g[i] == h[i] && g[|h|] == o;
      var root := s.messages[0];
      assert root in s.messages;
      if s.sessionId == NewSession(o.msg, o.now).sessionId {
        SessionIdInjective(root.chatId, root.msgId, o.msg.chatId, o.msg.msgId);
      }
    }
  }

  /** The message and the time of an observation are new to every session. */
  ghost predicate News(order: seq<Session>, o: Obs) {
    forall s :: s in order ==>
      !s.Has(o.msg.msgId) && s.lastActive < o.now && s.sessionId != NewSession(o.msg, o.now).sessionId
  }

  lemma ToFrontGood(order: seq<Session>, t: Option<nat>, o: Obs)
    requires Good(order) && News(order, o)
    requires t.Some? ==> t.value < |order|
    ensures Good(ToFront(order, t, o))
  {
    match t {
      case Some(i) => JoinGood(order, i, o);
      case None =>
        var x := NewSession(o.msg, o.now);
        assert x.Ids() == {o.msg.msgId};
        PrependGood(x, order);
    }
  }

  lemma JoinGood(order: seq<Session>, i: nat, o: Obs)
    requires Good(order) && News(order, o) && i < |order|
    ensures Good([order[i].Add(o.msg, o.now)] + order[..i] + order[i + 1..])
  {
    var x := order[i].Add(o.msg, o.now);
    RemoveGood(order, i);
    AddIds(order[i], o.msg, o.now);
    forall s | s in Removed(order, i)
      ensures s.lastActive < x.lastActive && Apart(x, s)
    {
      assert s in order && Apart(order[i], s);
    }
    PrependGood(x, Removed(order, i));
    assert [x] + order[..i] + order[i + 1..] == [x] + Removed(order, i);
  }

  lemma StepGood(cfg: Config, order: seq<Session>, h: seq<Obs>, o: Obs)
    requires Good(order) && From(order, h) && WellFormed(h + [o])
    ensures Good(ToFront(order, Target(cfg, order, o), o))
    ensures From(ToFront(order, Target(cfg, order, o), o), h + [o])
  {
    NewToAll(order, h, o);
    StepFrom(order, h, o, Target(cfg, order, o));
    ToFrontGood(order, Target(cfg, order, o), o);
  }

  function Removed(order: seq<Session>, t: nat): seq<Session>
    requires t < |order|
  {
    order[..t] + order[t + 1..]
  }

  lemma RemoveGood(order: seq<Session>, t: nat)
    requires Good(order) && t < |order|
    ensures Good(Removed(order, t))
    ensures forall s :: s in Removed(order, t) ==> s in order && Apart(order[t], s)
  {
    var rest := Removed(order, t);
    assert forall i :: 0 <= i < |rest| ==> rest[i] == order[if i < t then i else i + 1];
  }

  lemma PrependGood(x: Session, rest: seq<Session>)
    requires Good(rest)
    requires forall s :: s in rest ==> s.lastActive < x.lastActive && Apart(x, s)
    ensures Good([x] + rest)
  {
    var f := [x] + rest;
    assert forall i :: 0 < i < |f| ==> f[i] == rest[i - 1] && f[i] in rest;
  }

  lemma StepFrom(order: seq<Session>, h: seq<Obs>, o: Obs, t: Option<nat>)
    requires From(order, h)
    requires t.Some? ==> t.value < |order|
    ensures From(ToFront(order, t, o), h + [o])
  {
    var g := h + [o];
    var f := ToFront(order, t, o);
    assert g[|h|] == o;
    forall s | s in f
      ensures NamedByRoot(s)
      ensures forall m :: m in s.messages ==> exists i :: 0 <= i < |g| && g[i].msg == m
      ensures exists i :: 0 <= i < |g| && g[i].now == s.lastActive
    {
      forall m | m in s.messages
        ensures exists i :: 0 <= i < |g| && g[i].msg == m
      {
        if m != o.msg {
          var before :| before in order && m in before.messages;
          var i :| 0 <= i < |h| && h[i].msg == m;
          assert g[i] == h[i];
        }
      }
      if s != f[0] {
        assert s in order;
        var i :| 0 <= i < |h| && h[i].now == s.lastActive;
        assert g[i] == h[i];
      }
    }
  }

  lemma PrefixGood(order: seq<Session>, h: seq<Obs>, n: nat)
    requires Good(order) && From(order, h) && n <= |order|
    ensures Good(order[..n]) && From(order[..n], h)
  {
  }

  lemma {:induction false} RunGood(cfg: Config, h: seq<Obs>)
    requires WellFormed(h)
    ensures Good(Run(cfg, h)) && From(Run(cfg, h), h)
    decreases |h|
  {
    if h != [] {
      var front, o := h[..|h| - 1], h[|h| - 1];
      assert front + [o] == h;
      RunGood(cfg, front);
      StepGood(cfg, Run(cfg, front), front, o);
      var f := ToFront(Run(cfg, front), Target(cfg, Run(cfg, front), o), o);
      PrefixGood(f, h, Resident(cfg, |f|));
    }
  }
}
