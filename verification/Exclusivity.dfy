/**
 Exclusive runs are the ones that conserve: as soon as two calls have loaded the same session, and both
 go on to delete it, some state of the run has two owners for a session or has lost a message.
 */
module Exclusivity {
  import opened Wrappers
  import opened SessionTypes
  import opened Layers
  import opened Contents
  import opened Interleaving
  import Recency

  /** Every session has one owner, no message is in two sessions, and none past its locked section is lost. */
  ghost predicate Sound(s: State) {
    OneOwner(s) && Sorted(s) && Kept(s)
  }

  // ---- What every truthful run keeps while it is sound ----

  ghost predicate CopiesOld(s: State) {
    forall t :: t in s.threads && s.threads[t].Loaded? ==> s.threads[t].copy.Ids() <= s.done
  }

  ghost predicate Background(s: State) {
    Resident(s.inner) && Distinct(s) && CopiesOld(s)
  }

  lemma DistinctStep(s: State, step: Step)
    requires Distinct(s) && Enabled(s, step) && Truthful(s, step)
    ensures Distinct(Apply(s, step))
  {
    hide Critical, Resident;
    var s' := Apply(s, step);
    assert forall u :: u in s'.threads && u != step.t ==> u in s.threads && s'.threads[u] == s.threads[u];
    assert step.t in s'.threads;
    hide Apply;
  }

  lemma CopiesOldStep(s: State, step: Step)
    requires CopiesOld(s) && Sorted(s) && Enabled(s, step) && Truthful(s, step)
    ensures CopiesOld(Apply(s, step))
  {
    hide Critical, Recency.Apart, NamedByRoot;
    var s' := Apply(s, step);
    forall u | u in s'.threads && s'.threads[u].Loaded? ensures s'.threads[u].copy.Ids() <= s'.done {
      if u in s.threads && s.threads[u].Loaded? {
        assert s'.threads[u] == s.threads[u];
      } else {
        assert step.Load? && Owned(s, step.found.value);
      }
    }
  }

  lemma BackgroundStep(s: State, step: Step)
    requires Background(s) && Sorted(s) && Enabled(s, step) && Truthful(s, step)
    ensures Background(Apply(s, step))
  {
    DistinctStep(s, step);
    CopiesOldStep(s, step);
    if step.Lock? {
      var p := s.threads[step.t];
      CriticalSafe(s.inner, p.msg, Fault(p.msg, p.taken), Semantic(p.msg, p.taken), step.now, step.next, step.out);
    }
    hide Distinct, CopiesOld, Resident, Critical, Sorted;
  }

  // ---- How a double fault ends ----

  /** Two calls hold copies of one session. */
  ghost predicate Twins(s: State, t: nat, u: nat, sid: string) {
    && t in s.threads && u in s.threads && t != u && s.threads[t].Loaded? && s.threads[u].Loaded?
    && s.threads[t].copy.sessionId == sid && s.threads[u].copy.sessionId == sid
  }

  /** One has deleted it and waits for the lock, the other still holds its copy. */
  ghost predicate Ahead(s: State, t: nat, u: nat, sid: string) {
    && t in s.threads && u in s.threads && t != u && s.threads[t].Ready? && s.threads[u].Loaded?
    && s.threads[t].taken.Some? && s.threads[t].taken.value.sessionId == sid && s.threads[u].copy.sessionId == sid
  }

  /** The first has put its message into the session, and the copy of the other is older than that. */
  ghost predicate Stale(s: State, u: nat, sid: string, id: int) {
    && u in s.threads && s.threads[u].Loaded? && s.threads[u].copy.sessionId == sid && !s.threads[u].copy.Has(id)
    && id in s.done
    && (forall x :: Owned(s, x) && x.Has(id) ==> x.sessionId == sid)
    && (forall v :: v in s.threads && s.threads[v].Loaded? && s.threads[v].copy.Has(id) ==>
          s.threads[v].copy.sessionId == sid)
  }

  ghost predicate Doomed(s: State) {
    exists t, u, sid, id :: DoomedBy(s, t, u, sid, id)
  }

  ghost predicate DoomedBy(s: State, t: nat, u: nat, sid: string, id: int) {
    Twins(s, t, u, sid) || Ahead(s, t, u, sid) || Stale(s, u, sid, id)
  }

  /** A thread that has loaded can only delete. */
  lemma OthersMove(s: State, step: Step, u: nat)
    requires Enabled(s, step) && u in s.threads && u != step.t
    ensures u in Apply(s, step).threads && Apply(s, step).threads[u] == s.threads[u]
  {
  }

  lemma TwinsStep(s: State, step: Step, t: nat, u: nat, sid: string)
    requires Twins(s, t, u, sid) && Enabled(s, step)
    ensures Doomed(Apply(s, step))
  {
    var s' := Apply(s, step);
    if step.t == t {
      OthersMove(s, step, u);
      assert Ahead(s', t, u, sid);
      assert DoomedBy(s', t, u, sid, 0);
    } else if step.t == u {
      OthersMove(s, step, t);
      assert Ahead(s', u, t, sid);
      assert DoomedBy(s', u, t, sid, 0);
    } else {
      OthersMove(s, step, t);
      OthersMove(s, step, u);
      assert Twins(s', t, u, sid);
      assert DoomedBy(s', t, u, sid, 0);
    }
  }

  /** The second deletion right after the first leaves two threads with the session in their hands. */
  lemma TwoHands(s: State, t: nat, u: nat, sid: string)
    requires Ahead(s, t, u, sid) && Enabled(s, Delete(u))
    ensures !OneOwner(Apply(s, Delete(u)))
  {
    var s' := Apply(s, Delete(u));
    var x, y := s.threads[t].taken.value, s.threads[u].copy;
    OthersMove(s, Delete(u), t);
    assert x in Hand(s'.threads[t]) && y in Hand(s'.threads[u]);
    assert Named(Hand(s'.threads[u]), x.sessionId);
  }

  lemma AheadStep(s: State, step: Step, t: nat, u: nat, sid: string)
    requires Ahead(s, t, u, sid) && Enabled(s, step)
    requires Background(s) && Sound(s) && OneOwner(Apply(s, step))
    ensures Doomed(Apply(s, step))
  {
    var s' := Apply(s, step);
    if step.t == t {
      AheadLocks(s, step, t, u, sid);
      assert DoomedBy(s', t, u, sid, s.threads[t].msg.msgId);
    } else if step.t == u {
      TwoHands(s, t, u, sid);
      assert false;
    } else {
      OthersMove(s, step, t);
      OthersMove(s, step, u);
      assert Ahead(s', t, u, sid);
      assert DoomedBy(s', t, u, sid, 0);
    }
  }

  lemma AheadLocks(s: State, step: Step, t: nat, u: nat, sid: string)
    requires Ahead(s, t, u, sid) && Enabled(s, step) && step.t == t
    requires Background(s) && Sound(s)
    ensures Stale(Apply(s, step), u, sid, s.threads[t].msg.msgId)
  {
    var s' := Apply(s, step);
    var id := s.threads[t].msg.msgId;
    var y := LockOwners(s, t, step.now, step.next, step.out);
    OthersMove(s, step, u);
    assert id !in s.done && s.threads[u].copy.Ids() <= s.done;
    hide Critical, OneOwner, Continues, Resident, NamedByRoot, Recency.Apart;
    forall x | Owned(s', x) && x.Has(id) ensures x.sessionId == sid {
      assert x == y || (Owned(s, x) && x.Ids() <= s.done);
    }
    forall v | v in s'.threads && s'.threads[v].Loaded? ensures !s'.threads[v].copy.Has(id) {
      OthersMove(s, step, v);
    }
  }

  /** Where the message is after a step of another thread. */
  lemma StillNamed(s: State, step: Step, sid: string, id: int, x: Session)
    requires Enabled(s, step) && Background(s) && Sound(s) && Truthful(s, step) && id in s.done
    requires forall z :: Owned(s, z) && z.Has(id) ==> z.sessionId == sid
    requires forall v :: v in s.threads && s.threads[v].Loaded? && s.threads[v].copy.Has(id) ==>
        s.threads[v].copy.sessionId == sid
    requires Owned(Apply(s, step), x) && x.Has(id)
    ensures x.sessionId == sid
  {
    if step.Lock? {
      var y := LockOwners(s, step.t, step.now, step.next, step.out);
      hide Critical, OneOwner, Resident, NamedByRoot, Recency.Apart;
      if x == y {
        NamedBefore(s, step.t, y, sid, id);
      }
    } else {
      Owners(s, step, x);
    }
  }

  lemma NewHas(m: MsgRef, y: Session, id: int)
    ensures (exists now :: y == NewSession(m, now)) && y.Has(id) ==> id == m.msgId
  {
    if now :| y == NewSession(m, now) {
      assert y.Ids() == {m.msgId};
    }
  }

  lemma NamedBefore(s: State, t: nat, y: Session, sid: string, id: int)
    requires t in s.threads && s.threads[t].Ready? && Distinct(s) && Continues(s, s.threads[t].msg, y)
    requires forall z :: Owned(s, z) && z.Has(id) ==> z.sessionId == sid
    requires id in s.done && y.Has(id)
    ensures y.sessionId == sid
  {
    var m := s.threads[t].msg;
    assert m.msgId !in s.done;
    NewHas(m, y, id);
    if z, now :| Owned(s, z) && y == z.Add(m, now) {
      AddIds(z, m, now);
      assert z.Has(id);
    }
  }

  /** No step but a locked section makes new sessions; a deletion brings a copy. */
  lemma Owners(s: State, step: Step, x: Session)
    requires Enabled(s, step) && !step.Lock? && Owned(Apply(s, step), x)
    ensures Owned(s, x) || (step.Delete? && x == s.threads[step.t].copy)
  {
    var s' := Apply(s, step);
    OwnedSplit(s', step.t, x);
    if Elsewhere(s', step.t, x) {
      var u :| u in s'.threads && u != step.t && x in Hand(s'.threads[u]);
      assert u in s.threads && s'.threads[u] == s.threads[u];
      assert Carried(s.threads, x);
    } else if step.Add? {
      var queue := s.threads[step.t].queue;
      assert queue[0] in Hand(s.threads[step.t]);
      assert x in queue[1..] ==> x in Hand(s.threads[step.t]);
      assert Carried(s.threads, queue[0]);
      assert x in queue ==> Carried(s.threads, x);
    } else if step.Drop? {
      assert Hand(s'.threads[step.t]) == Hand(s.threads[step.t]);
      assert x in Hand(s.threads[step.t]) ==> Carried(s.threads, x);
    }
  }

  /** The second deletion after the first locked section loses a message, or leaves two owners. */
  lemma DeletesNewer(s: State, u: nat, sid: string, id: int)
    requires Stale(s, u, sid, id) && Enabled(s, Delete(u))
    ensures !(OneOwner(Apply(s, Delete(u))) && Kept(Apply(s, Delete(u))))
  {
    var s' := Apply(s, Delete(u));
    var copy := s.threads[u].copy;
    assert Hand(s'.threads[u]) == [copy];
    assert copy in Hand(s'.threads[u]) && Named(Hand(s'.threads[u]), sid);
    if OneOwner(s') && Somewhere(s', id) {
      var x :| Owned(s', x) && x.Has(id);
      Owners(s, Delete(u), x);
      assert x.sessionId == sid;
      OwnedSplit(s', u, x);
      assert false;
    }
  }

  lemma StaleStep(s: State, step: Step, u: nat, sid: string, id: int)
    requires Stale(s, u, sid, id) && Enabled(s, step) && Truthful(s, step)
    requires Background(s) && Sound(s) && Sound(Apply(s, step))
    ensures Doomed(Apply(s, step))
  {
    var s' := Apply(s, step);
    if step.t == u {
      DeletesNewer(s, u, sid, id);
      assert false;
    } else {
      OthersMove(s, step, u);
      StaleStays(s, step, u, sid, id);
      assert DoomedBy(s', u, u, sid, id);
    }
  }

  lemma StaleStays(s: State, step: Step, u: nat, sid: string, id: int)
    requires Stale(s, u, sid, id) && Enabled(s, step) && Truthful(s, step) && step.t != u
    requires Background(s) && Sound(s)
    ensures Stale(Apply(s, step), u, sid, id)
  {
    var s' := Apply(s, step);
    OthersMove(s, step, u);
    forall x | Owned(s', x) && x.Has(id) ensures x.sessionId == sid {
      StillNamed(s, step, sid, id, x);
    }
    hide Critical, OneOwner, Sorted, Kept, Resident, Distinct;
    forall v | v in s'.threads && s'.threads[v].Loaded? && s'.threads[v].copy.Has(id)
      ensures s'.threads[v].copy.sessionId == sid
    {
      if v in s.threads && s.threads[v].Loaded? {
        assert s'.threads[v] == s.threads[v];
      } else {
        assert step.Load? && Owned(s, step.found.value);
      }
    }
  }

  lemma DoomStep(s: State, step: Step)
    requires Doomed(s) && Enabled(s, step) && Truthful(s, step)
    requires Background(s) && Sound(s) && Sound(Apply(s, step))
    ensures Doomed(Apply(s, step))
  {
    var t, u, sid, id :| DoomedBy(s, t, u, sid, id);
    hide Twins, Ahead, Stale, Background, Enabled, Truthful, Doomed, Apply;
    if Twins(s, t, u, sid) {
      TwinsStep(s, step, t, u, sid);
    } else if Ahead(s, t, u, sid) {
      AheadStep(s, step, t, u, sid);
    } else {
      StaleStep(s, step, u, sid, id);
    }
  }

  /** A load that is not exclusive makes twins. */
  lemma DoomBegins(s: State, step: Step)
    requires Enabled(s, step) && Truthful(s, step) && !Exclusive(s, step)
    ensures Doomed(Apply(s, step))
  {
    var u :| u in s.threads && s.threads[u].Loaded? && s.threads[u].copy.sessionId == step.found.value.sessionId;
    assert Twins(Apply(s, step), step.t, u, step.found.value.sessionId);
    assert DoomedBy(Apply(s, step), step.t, u, step.found.value.sessionId, 0);
  }

  lemma DoomHolds(s: State)
    requires Doomed(s)
    ensures exists u :: u in s.threads && s.threads[u].Loaded?
  {
  }

  // ---- The exact condition ----

  /** Every state of a run is sound. */
  ghost predicate AlwaysSound(s: State, steps: seq<Step>)
    requires Legal(s, steps)
    decreases |steps|
  {
    Sound(After(s, steps)) && (steps == [] || AlwaysSound(s, steps[..|steps| - 1]))
  }

  /** Every call that loaded a copy has gone on to delete. */
  ghost predicate NoneLoaded(s: State) {
    forall t :: t in s.threads ==> !s.threads[t].Loaded?
  }

  lemma {:induction false} SoundOrDoomed(c0: nat, c1: nat, steps: seq<Step>)
    requires Legal(Init(c0, c1), steps) && AllTruthful(Init(c0, c1), steps) && AlwaysSound(Init(c0, c1), steps)
    ensures Background(After(Init(c0, c1), steps))
    ensures AllExclusive(Init(c0, c1), steps) || Doomed(After(Init(c0, c1), steps))
    decreases |steps|
  {
    hide Doomed, Sound, Enabled, Apply, Truthful, Exclusive;
    if steps == [] {
      BackgroundBegins(c0, c1);
    } else {
      var front, last := steps[..|steps| - 1], steps[|steps| - 1];
      SoundOrDoomed(c0, c1, front);
      var s := After(Init(c0, c1), front);
      assert Sorted(s) by { SoundSorted(s); }
      hide Background;
      BackgroundStep(s, last);
      if !AllExclusive(Init(c0, c1), front) {
        DoomStep(s, last);
      } else if !Exclusive(s, last) {
        DoomBegins(s, last);
      }
    }
  }

  lemma SoundSorted(s: State)
    requires Sound(s)
    ensures Sorted(s)
  {
  }

  lemma BackgroundBegins(c0: nat, c1: nat)
    ensures Background(Init(c0, c1))
  {
  }

  lemma {:induction false} ExclusiveSound(c0: nat, c1: nat, steps: seq<Step>)
    requires Legal(Init(c0, c1), steps) && AllExclusive(Init(c0, c1), steps)
    ensures AlwaysSound(Init(c0, c1), steps)
    decreases |steps|
  {
    Conservation(c0, c1, steps);
    hide OneOwner, Sorted, Kept, Orderly, CopiesExact, Exclusive, Enabled;
    assert Sound(After(Init(c0, c1), steps)) by { ConservedSound(After(Init(c0, c1), steps)); }
    if steps != [] {
      ExclusiveSound(c0, c1, steps[..|steps| - 1]);
    }
  }

  lemma ConservedSound(s: State)
    requires Conserved(s)
    ensures Sound(s)
  {
  }

  /**
   The exact condition. For every run with fresh messages and truthful loads in which each call that
   loaded a session goes on to delete it: one owner for every session, no message in two sessions and
   none lost, at every moment, exactly if no session was ever loaded by two calls at once.
   */
  lemma {:induction false} ConservationIff(c0: nat, c1: nat, steps: seq<Step>)
    requires Legal(Init(c0, c1), steps) && AllTruthful(Init(c0, c1), steps)
    requires NoneLoaded(After(Init(c0, c1), steps))
    ensures AlwaysSound(Init(c0, c1), steps) <==> AllExclusive(Init(c0, c1), steps)
  {
    hide AlwaysSound, AllExclusive, AllTruthful, Background, Doomed;
    if AllExclusive(Init(c0, c1), steps) {
      ExclusiveSound(c0, c1, steps);
    }
    if AlwaysSound(Init(c0, c1), steps) {
      SoundOrDoomed(c0, c1, steps);
      if Doomed(After(Init(c0, c1), steps)) {
        DoomHolds(After(Init(c0, c1), steps));
        assert false;
      }
    }
  }
}
