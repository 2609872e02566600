/**
 `observe` with an archive, as many threads run it at once. A call checks the index under the lock,
 loads from the archive and deletes there without it, runs its locked section, and persists what that
 evicted without the lock again. Each table access and each locked section is one step.
 */
module Interleaving {
  import opened Wrappers
  import opened SessionTypes
  import opened Layers
  import opened Contents
  import Recency

  datatype Phase =
    | Arrived(msg: MsgRef)
    | Seeking(msg: MsgRef)                       // will load by reply, or search by text
    | Loaded(msg: MsgRef, copy: Session)         // holds a copy; the row is still in the archive
    | Ready(msg: MsgRef, taken: Option<Session>) // waits for the lock
    | Persisting(queue: seq<Session>)            // about to drop an older row of the first session
    | Adding(queue: seq<Session>)                // about to add the row of the first session

  datatype State = State(
    inner: Inner,
    archive: map<string, Session>,
    threads: map<nat, Phase>,
    seen: set<int>,   // messages of all calls so far
    done: set<int>)   // messages whose locked section has run

  datatype Step =
    | Arrive(t: nat, m: MsgRef)
    | Check(t: nat)
    | Load(t: nat, found: Option<Session>)
    | Delete(t: nat)
    | Lock(t: nat, now: nat, next: Inner, out: seq<Session>)
    | Drop(t: nat)
    | Add(t: nat)

  ghost function Init(c0: nat, c1: nat): State {
    State(Inner(map[], map[], map[], c0, c1), map[], map[], {}, {})
  }

  function Fault(m: MsgRef, taken: Option<Session>): Option<Session> {
    if m.replyTo.Some? then taken else None
  }

  function Semantic(m: MsgRef, taken: Option<Session>): Option<Session> {
    if m.replyTo.Some? then None else taken
  }

  /** The index is checked under the lock: only an unknown parent is looked for in the archive. */
  function Checked(a: Inner, m: MsgRef): Phase {
    match m.replyTo
    case Some(r) => if r in a.index then Ready(m, None) else Seeking(m)
    case None => Seeking(m)
  }

  ghost predicate Enabled(s: State, step: Step) {
    match step
    case Arrive(t, m) => t !in s.threads
    case Check(t) => t in s.threads && s.threads[t].Arrived?
    case Load(t, found) => t in s.threads && s.threads[t].Seeking?
    case Delete(t) => t in s.threads && s.threads[t].Loaded?
    case Lock(t, now, next, out) =>
      && t in s.threads && s.threads[t].Ready?
      && var p := s.threads[t];
         Critical(s.inner, p.msg, Fault(p.msg, p.taken), Semantic(p.msg, p.taken), now, next, out)
    case Drop(t) => t in s.threads && s.threads[t].Persisting? && s.threads[t].queue != []
    case Add(t) => t in s.threads && s.threads[t].Adding? && s.threads[t].queue != []
  }

  ghost function Apply(s: State, step: Step): State
    requires Enabled(s, step)
  {
    match step
    case Arrive(t, m) => s.(threads := s.threads[t := Arrived(m)], seen := s.seen + {m.msgId})
    case Check(t) => s.(threads := s.threads[t := Checked(s.inner, s.threads[t].msg)])
    case Load(t, found) =>
      s.(threads := s.threads[t := if found.Some? then Loaded(s.threads[t].msg, found.value)
        else Ready(s.threads[t].msg, None)])
    case Delete(t) =>
      s.(threads := s.threads[t := Ready(s.threads[t].msg, Some(s.threads[t].copy))],
         archive := s.archive - {s.threads[t].copy.sessionId})
    case Lock(t, now, next, out) =>
      s.(inner := next, threads := s.threads[t := Persisting(out)], done := s.done + {s.threads[t].msg.msgId})
    case Drop(t) =>
      s.(archive := s.archive - {s.threads[t].queue[0].sessionId},
        threads := s.threads[t := Adding(s.threads[t].queue)])
    case Add(t) =>
      var x := s.threads[t].queue[0];
      s.(archive := s.archive[x.sessionId := x], threads := s.threads[t := Persisting(s.threads[t].queue[1..])])
  }

  // ---- Runs ----

  ghost predicate Legal(s: State, steps: seq<Step>)
    decreases |steps|, 0
  {
    steps == [] || (Legal(s, steps[..|steps| - 1]) && Enabled(After(s, steps[..|steps| - 1]), steps[|steps| - 1]))
  }

  ghost function After(s: State, steps: seq<Step>): State
    requires Legal(s, steps)
    decreases |steps|, 1
  {
    if steps == [] then s else Apply(After(s, steps[..|steps| - 1]), steps[|steps| - 1])
  }

  // ---- Index safety, whatever the archive returns ----

  ghost predicate Safe(s: State) {
    Resident(s.inner) && Bounded(s.inner)
  }

  /**
   Every interleaving, with loads that may return any session at all, keeps each index entry resident
   in L0 or L1 and both layers within capacity. So a reply found in the index always finds its
   session: the branch of the locked section that would drop the message is never taken.
   */
  lemma {:induction false} IndexSafety(c0: nat, c1: nat, steps: seq<Step>)
    requires Legal(Init(c0, c1), steps)
    ensures Safe(After(Init(c0, c1), steps))
    decreases |steps|
  {
    if steps != [] {
      var front, last := steps[..|steps| - 1], steps[|steps| - 1];
      IndexSafety(c0, c1, front);
      var s := After(Init(c0, c1), front);
      if last.Lock? {
        var p := s.threads[last.t];
        CriticalSafe(s.inner, p.msg, Fault(p.msg, p.taken), Semantic(p.msg, p.taken), last.now, last.next, last.out);
      }
    }
  }

  // ---- Ownership ----

  /** The sessions in the hands of a thread: deleted from the archive, or evicted and not yet added. */
  function Hand(p: Phase): seq<Session> {
    match p
    case Ready(_, taken) => if taken.Some? then [taken.value] else []
    case Persisting(queue) => queue
    case Adding(queue) => queue
    case _ => []
  }

  ghost predicate Carried(threads: map<nat, Phase>, x: Session) {
    exists t :: t in threads && x in Hand(threads[t])
  }

  ghost predicate Owned(s: State, x: Session) {
    Holding(s.inner.l0, x) || Holding(s.inner.l1, x) || Holding(s.archive, x) || Carried(s.threads, x)
  }

  ghost predicate Named(hand: seq<Session>, sid: string) {
    exists x :: x in hand && x.sessionId == sid
  }

  /** No session name is in two places. */
  ghost predicate OneOwner(s: State) {
    && Keyed(s.inner.l0) && Keyed(s.inner.l1) && Keyed(s.archive)
    && s.inner.l0.Keys !! s.inner.l1.Keys
    && s.inner.l0.Keys !! s.archive.Keys
    && s.inner.l1.Keys !! s.archive.Keys
    && (forall t :: t in s.threads ==> Varied(Hand(s.threads[t])))
    && (forall t, x :: t in s.threads && x in Hand(s.threads[t]) ==>
          x.sessionId !in s.inner.l0 && x.sessionId !in s.inner.l1 && x.sessionId !in s.archive)
    && (forall t, u, x :: t in s.threads && u in s.threads && t != u && x in Hand(s.threads[t]) ==>
          !Named(Hand(s.threads[u]), x.sessionId))
  }

  /** Sessions of different names share no message, and hold only messages whose locked section has run. */
  ghost predicate Sorted(s: State) {
    && (forall x, y :: Owned(s, x) && Owned(s, y) && x != y ==> Recency.Apart(x, y))
    && (forall x :: Owned(s, x) ==> NamedByRoot(x) && x.Ids() <= s.done)
    && (forall id :: id in s.done ==> id >= 0)
  }

  /** A loaded copy is the row that is still archived, and no two threads hold copies of one session. */
  ghost predicate CopiesExact(s: State) {
    && (forall t :: t in s.threads && s.threads[t].Loaded? ==> Holding(s.archive, s.threads[t].copy))
    && (forall t, u :: t in s.threads && u in s.threads && t != u && s.threads[t].Loaded? && s.threads[u].Loaded? ==>
          s.threads[t].copy.sessionId != s.threads[u].copy.sessionId)
  }

  ghost predicate Waiting(p: Phase) {
    p.Arrived? || p.Seeking? || p.Loaded? || p.Ready?
  }

  /** Calls that wait for their locked section carry distinct messages that are not in any session yet. */
  ghost predicate Distinct(s: State) {
    && s.done <= s.seen
    && (forall t :: t in s.threads && Waiting(s.threads[t]) ==>
          s.threads[t].msg.msgId in s.seen && s.threads[t].msg.msgId !in s.done && s.threads[t].msg.msgId >= 0)
    && (forall t, u :: t in s.threads && u in s.threads && t != u && Waiting(s.threads[t]) && Waiting(s.threads[u]) ==>
          s.threads[t].msg.msgId != s.threads[u].msg.msgId)
  }

  /** Every message past its locked section is in an owned session. */
  ghost predicate Kept(s: State) {
    forall id :: id in s.done ==> Somewhere(s, id)
  }

  ghost predicate Somewhere(s: State, id: int) {
    exists x :: Owned(s, x) && x.Has(id)
  }

  /** What a locked section needs to go right. */
  ghost predicate Orderly(s: State) {
    Resident(s.inner) && OneOwner(s) && Sorted(s) && Distinct(s)
  }

  ghost predicate Conserved(s: State) {
    Orderly(s) && CopiesExact(s) && Kept(s)
  }

  /** What the callers and the archive owe: fresh non-negative message ids, and loads that return rows. */
  ghost predicate Truthful(s: State, step: Step) {
    && (step.Arrive? ==> step.m.msgId >= 0 && step.m.msgId !in s.seen)
    && (step.Load? && step.found.Some? ==> Holding(s.archive, step.found.value))
  }

  /** No other call holds a copy of the session that is loaded. */
  ghost predicate Alone(s: State, step: Step) {
    step.Load? && step.found.Some? ==>
      forall u :: u in s.threads && s.threads[u].Loaded? ==> s.threads[u].copy.sessionId != step.found.value.sessionId
  }

  ghost predicate Exclusive(s: State, step: Step) {
    Truthful(s, step) && Alone(s, step)
  }

  // ---- One thread moves, the others stay ----

  /** What one thread's step may leave behind: its own hand, and everything that is in no hand. */
  ghost predicate Local(s: State, t: nat)
    requires t in s.threads
  {
    var hand := Hand(s.threads[t]);
    && Keyed(s.inner.l0) && Keyed(s.inner.l1) && Keyed(s.archive)
    && s.inner.l0.Keys !! s.inner.l1.Keys
    && s.inner.l0.Keys !! s.archive.Keys
    && s.inner.l1.Keys !! s.archive.Keys
    && Varied(hand)
    && Names(hand) !! s.inner.l0.Keys
    && Names(hand) !! s.inner.l1.Keys
    && Names(hand) !! s.archive.Keys
  }

  function Own(s: State, t: nat): set<string>
    requires t in s.threads
  {
    s.inner.l0.Keys + s.inner.l1.Keys + s.archive.Keys + Names(Hand(s.threads[t]))
  }

  ghost predicate ElsewhereNamed(s: State, t: nat, sid: string) {
    exists u :: u in s.threads && u != t && Named(Hand(s.threads[u]), sid)
  }

  ghost predicate Elsewhere(s: State, t: nat, x: Session) {
    exists u :: u in s.threads && u != t && x in Hand(s.threads[u])
  }

  ghost predicate OthersStay(s: State, s': State, t: nat) {
    && t in s'.threads
    && s'.threads == s.threads[t := s'.threads[t]]
  }

  lemma OwnersMove(s: State, s': State, t: nat)
    requires OneOwner(s) && OthersStay(s, s', t) && Local(s', t)
    requires forall sid :: sid in Own(s', t) ==> !ElsewhereNamed(s, t, sid)
    ensures OneOwner(s')
  {
    forall u, x | u in s'.threads && x in Hand(s'.threads[u])
      ensures x.sessionId !in s'.inner.l0 && x.sessionId !in s'.inner.l1 && x.sessionId !in s'.archive
    {
      if u != t {
        assert Named(Hand(s.threads[u]), x.sessionId);
        assert ElsewhereNamed(s, t, x.sessionId);
      } else {
        assert x.sessionId in Names(Hand(s'.threads[t]));
      }
    }
    forall u, v, x | u in s'.threads && v in s'.threads && u != v && x in Hand(s'.threads[u])
      ensures !Named(Hand(s'.threads[v]), x.sessionId)
    {
      if u == t {
        assert x.sessionId in Own(s', t);
        assert !ElsewhereNamed(s, t, x.sessionId);
      } else if v == t {
        assert Named(Hand(s.threads[u]), x.sessionId);
        assert ElsewhereNamed(s, t, x.sessionId);
        assert x.sessionId !in Own(s', t);
      }
    }
  }

  /** What a thread and the shared places own, no other thread does. */
  lemma OwnIsOwn(s: State, t: nat)
    requires OneOwner(s) && t in s.threads
    ensures Local(s, t)
    ensures forall sid :: sid in Own(s, t) ==> !ElsewhereNamed(s, t, sid)
  {
    forall sid, u | sid in Own(s, t) && u in s.threads && u != t
      ensures !Named(Hand(s.threads[u]), sid)
    {
      forall x | x in Hand(s.threads[u])
        ensures x.sessionId != sid
      {
        assert sid in Names(Hand(s.threads[t])) ==> Named(Hand(s.threads[t]), sid);
      }
    }
  }

  /** Owned by what the thread and the shared places have, or by another thread. */
  lemma OwnedSplit(s: State, t: nat, x: Session)
    requires t in s.threads
    ensures Owned(s, x) <==>
      Holding(s.inner.l0, x) || Holding(s.inner.l1, x) || Holding(s.archive, x) || x in Hand(s.threads[t]) ||
        Elsewhere(s, t, x)
  {
  }

  lemma ElsewhereStays(s: State, s': State, t: nat, x: Session)
    requires OthersStay(s, s', t)
    ensures Elsewhere(s', t, x) <==> Elsewhere(s, t, x)
  {
    if Elsewhere(s, t, x) {
      var u :| u in s.threads && u != t && x in Hand(s.threads[u]);
      assert u in s'.threads && s'.threads[u] == s.threads[u];
    }
    if Elsewhere(s', t, x) {
      var u :| u in s'.threads && u != t && x in Hand(s'.threads[u]);
      assert u in s.threads && s'.threads[u] == s.threads[u];
    }
  }

  ghost predicate SameOwned(s: State, s': State) {
    forall x :: Owned(s', x) <==> Owned(s, x)
  }

  /** If the owned sessions are the same and no locked section ran, they stay sorted and kept. */
  lemma SameOwnedKeeps(s: State, s': State)
    requires SameOwned(s, s') && s'.done == s.done && Sorted(s) && Kept(s)
    ensures Sorted(s') && Kept(s')
  {
    forall id | id in s'.done
      ensures Somewhere(s', id)
    {
      assert Somewhere(s, id);
      var x :| Owned(s, x) && x.Has(id);
      assert Owned(s', x);
    }
  }

  // ---- Steps that move no session ----

  /** Arriving, checking, loading: the hand of the thread stays empty. */
  lemma EmptyHanded(s: State, s': State, t: nat)
    requires OneOwner(s) && Sorted(s) && Kept(s) && OthersStay(s, s', t)
    requires s'.inner == s.inner && s'.archive == s.archive && s'.done == s.done
    requires t in s.threads ==> Hand(s.threads[t]) == []
    requires Hand(s'.threads[t]) == []
    ensures OneOwner(s') && Sorted(s') && Kept(s')
  {
    forall x ensures Owned(s', x) <==> Owned(s, x) {
      OwnedSplit(s', t, x);
      ElsewhereStays(s, s', t, x);
      assert Carried(s.threads, x) <==> Elsewhere(s, t, x);
    }
    SameOwnedKeeps(s, s');
    assert Names([]) == {};
    forall sid, u | sid in Own(s', t) && u in s.threads && u != t
      ensures !Named(Hand(s.threads[u]), sid)
    {
      forall x | x in Hand(s.threads[u]) ensures x.sessionId != sid { }
    }
    OwnersMove(s, s', t);
  }

  lemma ArriveConserves(s: State, t: nat, m: MsgRef)
    requires Conserved(s) && Enabled(s, Arrive(t, m)) && Exclusive(s, Arrive(t, m))
    ensures Conserved(Apply(s, Arrive(t, m)))
  {
    EmptyHanded(s, Apply(s, Arrive(t, m)), t);
  }

  lemma CheckConserves(s: State, t: nat)
    requires Conserved(s) && Enabled(s, Check(t))
    ensures Conserved(Apply(s, Check(t)))
  {
    EmptyHanded(s, Apply(s, Check(t)), t);
  }

  lemma LoadConserves(s: State, t: nat, found: Option<Session>)
    requires Conserved(s) && Enabled(s, Load(t, found)) && Exclusive(s, Load(t, found))
    ensures Conserved(Apply(s, Load(t, found)))
  {
    EmptyHanded(s, Apply(s, Load(t, found)), t);
  }

  // ---- Steps that move sessions between the archive and a hand ----

  /** What a thread and the shared places hold. */
  ghost predicate Held(s: State, t: nat, x: Session)
    requires t in s.threads
  {
    Holding(s.inner.l0, x) || Holding(s.inner.l1, x) || Holding(s.archive, x) || x in Hand(s.threads[t])
  }

  lemma Moved(s: State, s': State, t: nat)
    requires OneOwner(s) && Sorted(s) && Kept(s) && t in s.threads && OthersStay(s, s', t) && s'.done == s.done
    requires Local(s', t) && Own(s', t) <= Own(s, t)
    requires forall x :: Held(s', t, x) <==> Held(s, t, x)
    ensures OneOwner(s') && Sorted(s') && Kept(s')
  {
    OwnIsOwn(s, t);
    OwnersMove(s, s', t);
    hide OneOwner, Sorted, Kept, Local, Own, ElsewhereNamed;
    forall x ensures Owned(s', x) <==> Owned(s, x) {
      assert Held(s', t, x) <==> Held(s, t, x);
      OwnedSplit(s, t, x);
      OwnedSplit(s', t, x);
      ElsewhereStays(s, s', t, x);
    }
    SameOwnedKeeps(s, s');
  }

  lemma DeleteMoves(s: State, t: nat)
    requires OneOwner(s) && Sorted(s) && Kept(s) && CopiesExact(s) && Enabled(s, Delete(t))
    ensures var s' := Apply(s, Delete(t)); OneOwner(s') && Sorted(s') && Kept(s')
  {
    var s' := Apply(s, Delete(t));
    var copy := s.threads[t].copy;
    assert Holding(s.archive, copy);
    assert Hand(s.threads[t]) == [] && Hand(s'.threads[t]) == [copy];
    assert Names([copy]) == {copy.sessionId};
    assert s'.archive.Keys == s.archive.Keys - {copy.sessionId};
    OwnIsOwn(s, t);
    hide OneOwner, Sorted, Kept, CopiesExact, ElsewhereNamed;
    Moved(s, s', t);
  }

  lemma DeleteConserves(s: State, t: nat)
    requires Conserved(s) && Enabled(s, Delete(t))
    ensures Conserved(Apply(s, Delete(t)))
  {
    DeleteMoves(s, t);
    DeleteRest(s, t);
    hide OneOwner, Sorted, Kept, CopiesExact, Distinct;
  }

  lemma DeleteRest(s: State, t: nat)
    requires CopiesExact(s) && Distinct(s) && Enabled(s, Delete(t))
    ensures CopiesExact(Apply(s, Delete(t))) && Distinct(Apply(s, Delete(t)))
  {
  }

  lemma DropMoves(s: State, t: nat)
    requires OneOwner(s) && Sorted(s) && Kept(s) && Enabled(s, Drop(t))
    ensures var s' := Apply(s, Drop(t)); s'.archive == s.archive && OneOwner(s') && Sorted(s') && Kept(s')
  {
    var s' := Apply(s, Drop(t));
    OwnIsOwn(s, t);
    assert s.threads[t].queue[0].sessionId in Names(Hand(s.threads[t]));
    assert s'.archive == s.archive;
    assert Hand(s'.threads[t]) == Hand(s.threads[t]);
    hide OneOwner, Sorted, Kept, ElsewhereNamed, Names, Varied;
    Moved(s, s', t);
  }

  lemma DropConserves(s: State, t: nat)
    requires Conserved(s) && Enabled(s, Drop(t))
    ensures Conserved(Apply(s, Drop(t)))
  {
    DropMoves(s, t);
    Quiet(s, Apply(s, Drop(t)), t);
    hide OneOwner, Sorted, Kept, CopiesExact, Distinct;
  }

  /** A thread that waits no more leaves the copies and the pending messages of the others alone. */
  lemma Quiet(s: State, s': State, t: nat)
    requires CopiesExact(s) && Distinct(s) && t in s.threads && OthersStay(s, s', t)
    requires s'.archive == s.archive && s'.seen == s.seen && !Waiting(s'.threads[t])
    requires s'.done == s.done || (Waiting(s.threads[t]) && s'.done == s.done + {s.threads[t].msg.msgId})
    ensures CopiesExact(s') && Distinct(s')
  {
    forall u | u in s'.threads && Waiting(s'.threads[u])
      ensures u != t && s'.threads[u] == s.threads[u]
    {
    }
  }

  lemma AddMoves(s: State, t: nat)
    requires OneOwner(s) && Sorted(s) && Kept(s) && Enabled(s, Add(t))
    ensures var s' := Apply(s, Add(t)); OneOwner(s') && Sorted(s') && Kept(s')
  {
    var s' := Apply(s, Add(t));
    var queue := s.threads[t].queue;
    var x0, rest := queue[0], queue[1..];
    OwnIsOwn(s, t);
    assert queue == [x0] + rest;
    NamesCons(x0, rest);
    assert Hand(s.threads[t]) == queue && Hand(s'.threads[t]) == rest;
    RestVaried(queue);
    hide OneOwner, Sorted, Kept, ElsewhereNamed, Names, Varied;
    AddLocal(s, s', t, x0, rest);
    Moved(s, s', t);
  }

  lemma AddLocal(s: State, s': State, t: nat, x0: Session, rest: seq<Session>)
    requires t in s.threads && Local(s, t) && Hand(s.threads[t]) == [x0] + rest
    requires Names([x0] + rest) == {x0.sessionId} + Names(rest) && x0.sessionId !in Names(rest) && Varied(rest)
    requires t in s'.threads && Hand(s'.threads[t]) == rest && s'.inner == s.inner &&
        s'.archive == s.archive[x0.sessionId := x0]
    ensures Local(s', t) && Own(s', t) <= Own(s, t)
    ensures forall x :: Held(s', t, x) <==> Held(s, t, x)
  {
    assert s'.archive.Keys == s.archive.Keys + {x0.sessionId};
    hide Names, Varied;
  }

  lemma AddConserves(s: State, t: nat)
    requires Conserved(s) && Enabled(s, Add(t))
    ensures Conserved(Apply(s, Add(t)))
  {
    AddMoves(s, t);
    AddCopies(s, t);
    hide OneOwner, Sorted, Kept, CopiesExact;
  }

  lemma AddCopies(s: State, t: nat)
    requires OneOwner(s) && CopiesExact(s) && Enabled(s, Add(t))
    ensures CopiesExact(Apply(s, Add(t)))
  {
    var s' := Apply(s, Add(t));
    var x0 := s.threads[t].queue[0];
    assert x0 in Hand(s.threads[t]);
    assert x0.sessionId !in s.archive;
    hide OneOwner;
    forall u | u in s'.threads && s'.threads[u].Loaded?
      ensures Holding(s'.archive, s'.threads[u].copy)
    {
      assert s'.threads[u] == s.threads[u];
    }
  }

  lemma RestVaried(queue: seq<Session>)
    requires Varied(queue) && queue != []
    ensures Varied(queue[1..]) && queue[0].sessionId !in Names(queue[1..])
  {
    var rest := queue[1..];
    assert forall i :: 0 <= i < |rest| ==> rest[i] == queue[i + 1];
    forall x | x in rest ensures x.sessionId != queue[0].sessionId {
      var i :| 0 <= i < |rest| && rest[i] == x;
    }
  }

  // ---- The locked section ----

  /** The joined session takes the place of the one it continues, if any, and nothing else changes. */
  ghost predicate Joins(s: State, s': State, y: Session) {
    forall x :: Owned(s', x) <==> x == y || (Owned(s, x) && x.sessionId != y.sessionId)
  }

  /** A session that continues an owned one by a message, or is a new one for it. */
  ghost predicate Continues(s: State, m: MsgRef, y: Session) {
    || (exists z, now :: Owned(s, z) && y == z.Add(m, now))
    || ((exists now :: y == NewSession(m, now)) && forall x :: Owned(s, x) ==> x.sessionId != y.sessionId)
  }

  lemma JoinKeeps(s: State, s': State, m: MsgRef, y: Session)
    requires Sorted(s) && Kept(s) && Joins(s, s', y) && Continues(s, m, y)
    requires s'.done == s.done + {m.msgId} && m.msgId !in s.done && m.msgId >= 0
    ensures Sorted(s') && Kept(s')
  {
    JoinedIds(s, m, y);
    forall x | Owned(s', x) && x != y
      ensures Recency.Apart(x, y)
    {
      JoinedApart(s, m, y, x);
    }
    forall id | id in s'.done
      ensures Somewhere(s', id)
    {
      if id in y.Ids() {
        assert Owned(s', y);
      } else {
        assert Somewhere(s, id);
        var x :| Owned(s, x) && x.Has(id);
        JoinedHas(s, m, y, x, id);
        assert Owned(s', x);
      }
    }
  }

  lemma JoinedIds(s: State, m: MsgRef, y: Session)
    requires Sorted(s) && Continues(s, m, y)
    ensures m.msgId in y.Ids() && y.Ids() <= s.done + {m.msgId} && NamedByRoot(y)
  {
    if z, now :| Owned(s, z) && y == z.Add(m, now) {
      AddIds(z, m, now);
    }
  }

  lemma JoinedApart(s: State, m: MsgRef, y: Session, x: Session)
    requires Sorted(s) && Continues(s, m, y) && m.msgId !in s.done
    requires Owned(s, x) && x.sessionId != y.sessionId
    ensures Recency.Apart(x, y)
  {
    if z, now :| Owned(s, z) && y == z.Add(m, now) {
      AddIds(z, m, now);
      assert Recency.Apart(x, z);
    } else {
      var now :| y == NewSession(m, now);
      assert y.Ids() == {m.msgId};
    }
  }

  /** What the joined session does not hold stays where it was. */
  lemma JoinedHas(s: State, m: MsgRef, y: Session, x: Session, id: int)
    requires Sorted(s) && Continues(s, m, y) && Owned(s, x) && x.Has(id) && id !in y.Ids()
    ensures x.sessionId != y.sessionId
  {
    if z, now :| Owned(s, z) && y == z.Add(m, now) {
      AddIds(z, m, now);
      assert x != z;
      assert Recency.Apart(x, z);
    }
  }

  /** A new session's name is not in use. */
  lemma NameIsNew(s: State, m: MsgRef, now: nat, x: Session)
    requires Sorted(s) && m.msgId >= 0 && m.msgId !in s.done && Owned(s, x)
    ensures x.sessionId != NewSession(m, now).sessionId
  {
    var root := x.messages[0];
    assert root in x.messages && root.msgId in x.Ids();
    if x.sessionId == NewSession(m, now).sessionId {
      SessionIdInjective(root.chatId, root.msgId, m.chatId, m.msgId);
    }
  }

  lemma ContentHolding(a: Inner, x: Session)
    requires a.l0.Keys !! a.l1.Keys
    ensures Holding(Content(a), x) <==> Holding(a.l0, x) || Holding(a.l1, x)
  {
  }

  /** The layers and the evicted sessions together are the content with the joined session put in. */
  lemma HeldAfter(a: Inner, y: Session, b: Inner, out: seq<Session>, x: Session)
    requires Content(b) == Content(a)[y.sessionId := y] - Names(out)
    requires forall z :: z in out ==> Holding(Content(a)[y.sessionId := y], z)
    ensures Holding(Content(b), x) || x in out <==> x == y || (Holding(Content(a), x) && x.sessionId != y.sessionId)
  {
    if x.sessionId in Names(out) {
      var z :| z in out && z.sessionId == x.sessionId;
    }
  }

  /** What a locked section finds: the layers are tidy and the session taken is not in them. */
  lemma LockFinds(s: State, t: nat, now: nat)
    requires Orderly(s) && t in s.threads && s.threads[t].Ready?
    ensures Tidy(s.inner)
    ensures var p := s.threads[t];
            && (p.taken.Some? ==> p.taken.value.sessionId !in Content(s.inner) && Owned(s, p.taken.value))
            && NewSession(p.msg, now).sessionId !in Content(s.inner)
  {
    var p := s.threads[t];
    if p.taken.Some? {
      assert p.taken.value in Hand(p);
    }
    var sid := NewSession(p.msg, now).sessionId;
    if sid in Content(s.inner) {
      var x := Content(s.inner)[sid];
      assert Owned(s, x);
      NameIsNew(s, p.msg, now, x);
    }
  }

  /** The joined session continues one that the thread or the layers own, or it is new. */
  lemma LockContinues(s: State, t: nat, now: nat, y: Session)
    requires Orderly(s) && t in s.threads && s.threads[t].Ready? && Tidy(s.inner)
    requires var p := s.threads[t];
             && (p.msg.replyTo.Some? && p.msg.replyTo.value in s.inner.index ==>
                s.inner.index[p.msg.replyTo.value] in Content(s.inner))
             && y == JoinedSession(s.inner, p.msg, Fault(p.msg, p.taken), Semantic(p.msg, p.taken), now)
    ensures Continues(s, s.threads[t].msg, y)
    ensures y.sessionId in Own(s, t) || forall x :: Owned(s, x) ==> x.sessionId != y.sessionId
    ensures s.threads[t].taken.Some? ==> s.threads[t].taken.value.sessionId == y.sessionId
  {
    var p := s.threads[t];
    if p.taken.Some? {
      assert p.taken.value in Hand(p);
      assert y == p.taken.value.Add(p.msg, now);
      assert Owned(s, p.taken.value);
    } else if p.msg.replyTo.Some? && p.msg.replyTo.value in s.inner.index {
      var z := Content(s.inner)[s.inner.index[p.msg.replyTo.value]];
      assert Holding(Content(s.inner), z);
      ContentHolding(s.inner, z);
      assert Owned(s, z) && y == z.Add(p.msg, now);
    } else {
      assert y == NewSession(p.msg, now);
      forall x | Owned(s, x) ensures x.sessionId != y.sessionId {
        NameIsNew(s, p.msg, now, x);
      }
    }
  }

  lemma NewNotElsewhere(s: State, t: nat, sid: string)
    requires forall x :: Owned(s, x) ==> x.sessionId != sid
    ensures !ElsewhereNamed(s, t, sid)
    ensures OneOwner(s) ==> sid !in s.inner.l0 && sid !in s.inner.l1 && sid !in s.archive
  {
    forall u | u in s.threads
      ensures !Named(Hand(s.threads[u]), sid)
    {
      forall x | x in Hand(s.threads[u]) ensures x.sessionId != sid {
        assert Owned(s, x);
      }
    }
    if OneOwner(s) {
      assert forall k :: k in s.inner.l0 ==> Owned(s, s.inner.l0[k]);
      assert forall k :: k in s.inner.l1 ==> Owned(s, s.inner.l1[k]);
      assert forall k :: k in s.archive ==> Owned(s, s.archive[k]);
    }
  }

  /** After a locked section the names are the same, the joined one aside, and each is in one place. */
  lemma LockNames(a: Inner, archive: map<string, Session>, hand: set<string>, y: Session, b: Inner, out: seq<Session>)
    requires Tidy(a) && Keyed(archive) && Content(a).Keys !! archive.Keys && y.sessionId !in archive
    requires Tidy(b) && Varied(out) && Content(b) == Content(a)[y.sessionId := y] - Names(out)
    requires forall x :: x in out ==> Holding(Content(a)[y.sessionId := y], x)
    ensures Names(out) !! b.l0.Keys && Names(out) !! b.l1.Keys && Names(out) !! archive.Keys
    ensures b.l0.Keys !! archive.Keys && b.l1.Keys !! archive.Keys
    ensures b.l0.Keys + b.l1.Keys + Names(out) <= a.l0.Keys + a.l1.Keys + {y.sessionId}
  {
    assert Content(b).Keys == b.l0.Keys + b.l1.Keys;
    assert Content(a).Keys == a.l0.Keys + a.l1.Keys;
    assert Content(b).Keys == Content(a).Keys + {y.sessionId} - Names(out);
    assert Names(out) <= Content(a).Keys + {y.sessionId};
  }

  lemma LockOwners(s: State, t: nat, now: nat, next: Inner, out: seq<Session>) returns (y: Session)
    requires Orderly(s) && Enabled(s, Lock(t, now, next, out))
    ensures var s' := Apply(s, Lock(t, now, next, out));
            OneOwner(s') && Resident(next) && Joins(s, s', y) && Continues(s, s.threads[t].msg, y)
    ensures s.threads[t].taken.Some? ==> s.threads[t].taken.value.sessionId == y.sessionId
  {
    var p := s.threads[t];
    var s' := Apply(s, Lock(t, now, next, out));
    LockFinds(s, t, now);
    y := CriticalConserves(s.inner, p.msg, Fault(p.msg, p.taken), Semantic(p.msg, p.taken), now, next, out);
    LockContinues(s, t, now, y);
    hide Sorted, CopiesExact, Distinct, Kept, Critical, Continues, JoinedSession;
    LockPlaces(s, s', t, y, next, out);
  }

  lemma LockPlaces(s: State, s': State, t: nat, y: Session, next: Inner, out: seq<Session>)
    requires OneOwner(s) && t in s.threads && s.threads[t].Ready?
    requires s'.inner == next && s'.archive == s.archive && s'.threads == s.threads[t := Persisting(out)]
    requires Tidy(s.inner) && Tidy(next) && Varied(out)
    requires Content(next) == Content(s.inner)[y.sessionId := y] - Names(out)
    requires forall x :: x in out ==> Holding(Content(s.inner)[y.sessionId := y], x)
    requires y.sessionId in Own(s, t) || forall x :: Owned(s, x) ==> x.sessionId != y.sessionId
    requires s.threads[t].taken.Some? ==> s.threads[t].taken.value.sessionId == y.sessionId
    requires y.sessionId !in s.archive
    ensures OneOwner(s') && Joins(s, s', y)
  {
    OwnIsOwn(s, t);
    if y.sessionId !in Own(s, t) {
      NewNotElsewhere(s, t, y.sessionId);
    }
    LockLocal(s, s', t, y, next, out);
    hide OneOwner, Local, Owned, Own, Content, Tidy, Names, Varied, Joins, ElsewhereNamed;
    forall sid | sid in Own(s', t)
      ensures !ElsewhereNamed(s, t, sid)
    {
      assert sid in Own(s, t) || sid == y.sessionId;
    }
    OwnersMove(s, s', t);
    LockJoins(s, s', t, y, next, out);
  }

  lemma LockLocal(s: State, s': State, t: nat, y: Session, next: Inner, out: seq<Session>)
    requires OneOwner(s) && t in s.threads && s.threads[t].Ready?
    requires s'.inner == next && s'.archive == s.archive && s'.threads == s.threads[t := Persisting(out)]
    requires Tidy(s.inner) && Tidy(next) && Varied(out)
    requires Content(next) == Content(s.inner)[y.sessionId := y] - Names(out)
    requires forall x :: x in out ==> Holding(Content(s.inner)[y.sessionId := y], x)
    requires y.sessionId !in s.archive
    ensures Local(s', t)
    ensures Own(s', t) <= Own(s, t) + {y.sessionId}
  {
    assert Keyed(s.archive) && Content(s.inner).Keys !! s.archive.Keys;
    assert Hand(s'.threads[t]) == out;
    hide OneOwner, Content;
    LockNames(s.inner, s.archive, Names(Hand(s.threads[t])), y, next, out);
  }

  lemma LockJoins(s: State, s': State, t: nat, y: Session, next: Inner, out: seq<Session>)
    requires OneOwner(s) && t in s.threads && s.threads[t].Ready?
    requires s'.inner == next && s'.archive == s.archive && s'.threads == s.threads[t := Persisting(out)]
    requires Tidy(s.inner) && Tidy(next)
    requires Content(next) == Content(s.inner)[y.sessionId := y] - Names(out)
    requires forall x :: x in out ==> Holding(Content(s.inner)[y.sessionId := y], x)
    requires s.threads[t].taken.Some? ==> s.threads[t].taken.value.sessionId == y.sessionId
    requires y.sessionId !in s.archive && !ElsewhereNamed(s, t, y.sessionId)
    ensures Joins(s, s', y)
  {
    forall x
      ensures Owned(s', x) <==> x == y || (Owned(s, x) && x.sessionId != y.sessionId)
    {
      OwnedSplit(s, t, x);
      OwnedSplit(s', t, x);
      ElsewhereStays(s, s', t, x);
      HeldAfter(s.inner, y, next, out, x);
      ContentHolding(s.inner, x);
      ContentHolding(next, x);
      ElsewhereNames(s, t, x);
    }
  }

  lemma ElsewhereNames(s: State, t: nat, x: Session)
    ensures Elsewhere(s, t, x) ==> ElsewhereNamed(s, t, x.sessionId)
  {
    if u :| u in s.threads && u != t && x in Hand(s.threads[u]) {
      assert Named(Hand(s.threads[u]), x.sessionId);
    }
  }

  lemma LockConserves(s: State, t: nat, now: nat, next: Inner, out: seq<Session>)
    requires Conserved(s) && Enabled(s, Lock(t, now, next, out))
    ensures Conserved(Apply(s, Lock(t, now, next, out)))
  {
    var s' := Apply(s, Lock(t, now, next, out));
    var y := LockOwners(s, t, now, next, out);
    LockRest(s, t, now, next, out);
    hide OneOwner, Sorted, Kept, Critical, CopiesExact, Joins, Continues, Resident;
    JoinKeeps(s, s', s.threads[t].msg, y);
  }

  lemma LockRest(s: State, t: nat, now: nat, next: Inner, out: seq<Session>)
    requires CopiesExact(s) && Distinct(s) && Enabled(s, Lock(t, now, next, out))
    ensures CopiesExact(Apply(s, Lock(t, now, next, out))) && Distinct(Apply(s, Lock(t, now, next, out)))
  {
    var s' := Apply(s, Lock(t, now, next, out));
    hide CopiesExact, Distinct, Critical;
    Quiet(s, s', t);
  }

  // ---- Conservation ----

  lemma StepConserves(s: State, step: Step)
    requires Conserved(s) && Enabled(s, step) && Exclusive(s, step)
    ensures Conserved(Apply(s, step))
  {
    match step
    case Arrive(t, m) => ArriveConserves(s, t, m);
    case Check(t) => CheckConserves(s, t);
    case Load(t, found) => LoadConserves(s, t, found);
    case Delete(t) => DeleteConserves(s, t);
    case Lock(t, now, next, out) => LockConserves(s, t, now, next, out);
    case Drop(t) => DropConserves(s, t);
    case Add(t) => AddConserves(s, t);
  }

  ghost predicate AllExclusive(s: State, steps: seq<Step>)
    requires Legal(s, steps)
    decreases |steps|
  {
    steps == [] ||
    (var front := steps[..|steps| - 1];
     AllExclusive(s, front) && Exclusive(After(s, front), steps[|steps| - 1]))
  }

  /**
   Conservation. In every interleaving in which messages are fresh and no session is faulted in by two
   calls at once, every session name has one owner (L0, L1, the archive or one thread's hands, the
   copy between load and delete aside), no message is in two sessions, and every message whose
   locked section has run is still in one.
   */
  lemma {:induction false} Conservation(c0: nat, c1: nat, steps: seq<Step>)
    requires Legal(Init(c0, c1), steps) && AllExclusive(Init(c0, c1), steps)
    ensures Conserved(After(Init(c0, c1), steps))
    decreases |steps|
  {
    if steps == [] {
      assert forall x :: !Owned(Init(c0, c1), x);
    } else {
      var front, last := steps[..|steps| - 1], steps[|steps| - 1];
      Conservation(c0, c1, front);
      StepConserves(After(Init(c0, c1), front), last);
    }
  }

  // ---- Truthful runs ----

  ghost predicate AllTruthful(s: State, steps: seq<Step>)
    requires Legal(s, steps)
    decreases |steps|
  {
    steps == [] ||
    (var front := steps[..|steps| - 1];
     AllTruthful(s, front) && Truthful(After(s, front), steps[|steps| - 1]))
  }

  /** A truthful run that leads to a state. */
  ghost predicate Leads(c0: nat, c1: nat, steps: seq<Step>, s: State) {
    Legal(Init(c0, c1), steps) && AllTruthful(Init(c0, c1), steps) && After(Init(c0, c1), steps) == s
  }

  lemma Extend(c0: nat, c1: nat, steps: seq<Step>, s: State, step: Step)
    requires Leads(c0, c1, steps, s) && Enabled(s, step) && Truthful(s, step)
    ensures Leads(c0, c1, steps + [step], Apply(s, step))
  {
    assert (steps + [step])[..|steps|] == steps;
  }
}
