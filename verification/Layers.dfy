/**
 The in-memory part of the store, which one mutex guards: the message index, the two layers L0 and
 L1, and what one locked section of `observe` does to them. The two eviction loops pick a session of
 least activity from a hash map; ties are broken by the map's iteration order, so eviction is a
 relation here and not a function.
 */
module Layers {
  import opened Wrappers
  import opened SessionTypes

  datatype Inner = Inner(
    index: map<int, string>,
    l0: map<string, Session>,
    l1: map<string, Session>,
    c0: nat,
    c1: nat)

  // ---- The locked section before eviction ----

  /** The index entries of one session: each of its messages, mapped to its name. */
  function Entries(s: Session): map<int, string> {
    map id | id in s.Ids() :: s.sessionId
  }

  lemma EntriesOf(s: Session, i: nat)
    requires i < |s.messages|
    ensures Entries(s.(messages := s.messages[..i + 1])) ==
            Entries(s.(messages := s.messages[..i]))[s.messages[i].msgId := s.sessionId]
  {
    var x, y := s.(messages := s.messages[..i]), s.(messages := s.messages[..i + 1]);
    assert y.messages == x.messages + [s.messages[i]];
    assert y.Ids() == x.Ids() + {s.messages[i].msgId} by {
      assert s.messages[i] in y.messages;
      assert forall m :: m in x.messages ==> m in y.messages;
    }
  }

  lemma EntriesNone(s: Session)
    ensures Entries(s.(messages := s.messages[..0])) == map[]
  {
    assert s.(messages := s.messages[..0]).Ids() == {};
  }

  function Opened(a: Inner, m: MsgRef, now: nat): Inner {
    var s := NewSession(m, now);
    a.(index := a.index[m.msgId := s.sessionId], l0 := a.l0[s.sessionId := s])
  }

  function Restored(a: Inner, s: Session, m: MsgRef, now: nat): Inner {
    var sid := s.sessionId;
    a.(index := (a.index + Entries(s))[m.msgId := sid], l0 := a.l0[sid := s.Add(m, now)])
  }

  function Replied(a: Inner, sid: string, m: MsgRef, now: nat): Inner {
    var b :=
      if sid in a.l0 then a.(l0 := a.l0[sid := a.l0[sid].Add(m, now)])
      else if sid in a.l1 then a.(l1 := a.l1 - {sid}, l0 := a.l0[sid := a.l1[sid].Add(m, now)])
      else a;
    b.(index := b.index[m.msgId := sid])
  }

  function Joined(a: Inner, m: MsgRef, fault: Option<Session>, semantic: Option<Session>, now: nat): (b: Inner)
    ensures b.c0 == a.c0 && b.c1 == a.c1
  {
    if fault.Some? then Restored(a, fault.value, m, now)
    else if m.replyTo.Some? then
      if m.replyTo.value in a.index then Replied(a, a.index[m.replyTo.value], m, now)
      else Opened(a, m, now)
    else if semantic.Some? then Restored(a, semantic.value, m, now)
    else Opened(a, m, now)
  }

  // ---- Eviction ----

  ghost predicate IsOldest(layer: map<string, Session>, k: string) {
    k in layer && forall j :: j in layer ==> layer[k].lastActive <= layer[j].lastActive
  }

  function Demote(a: Inner, k: string): Inner
    requires k in a.l0
  {
    a.(l0 := a.l0 - {k}, l1 := a.l1[k := a.l0[k]])
  }

  /** `retain(|_, v| v != k)`: the index without the entries of one session. */
  function Forget(index: map<int, string>, k: string): map<int, string> {
    map id | id in index && index[id] != k :: index[id]
  }

  function Spill(a: Inner, k: string): Inner
    requires k in a.l1
  {
    a.(l1 := a.l1 - {k}, index := Forget(a.index, k))
  }

  /** The first loop can lead from a to b. */
  ghost predicate Demotes(a: Inner, b: Inner)
    decreases a.l0.Keys
  {
    if |a.l0| <= a.c0 then b == a
    else exists k :: IsOldest(a.l0, k) && Demotes(Demote(a, k), b)
  }

  /** The second loop can lead from a to b and collect these sessions. */
  ghost predicate Spills(a: Inner, b: Inner, out: seq<Session>)
    decreases a.l1.Keys
  {
    if |a.l1| <= a.c1 then b == a && out == []
    else
      && |out| > 0
      && exists k :: IsOldest(a.l1, k) && out[0] == a.l1[k] && Spills(Spill(a, k), b, out[1..])
  }

  ghost predicate Evicts(a: Inner, b: Inner, out: seq<Session>) {
    exists mid :: Demotes(a, mid) && Spills(mid, b, out)
  }

  /** One locked section of `observe`, from the lock to its release. */
  ghost predicate Critical(a: Inner, m: MsgRef, fault: Option<Session>, semantic: Option<Session>, now: nat,
                           b: Inner, out: seq<Session>)
  {
    Evicts(Joined(a, m, fault, semantic, now), b, out)
  }

  // ---- Safety with no assumption on what the other phases hand over ----

  ghost predicate Resident(a: Inner) {
    forall id :: id in a.index ==> a.index[id] in a.l0 || a.index[id] in a.l1
  }

  ghost predicate Bounded(a: Inner) {
    |a.l0| <= a.c0 && |a.l1| <= a.c1
  }

  lemma JoinedResident(a: Inner, m: MsgRef, fault: Option<Session>, semantic: Option<Session>, now: nat)
    requires Resident(a)
    ensures Resident(Joined(a, m, fault, semantic, now))
  {
    if fault.None? && m.replyTo.Some? && m.replyTo.value in a.index {
      RepliedResident(a, m.replyTo.value, m, now);
    }
  }

  lemma RepliedResident(a: Inner, r: int, m: MsgRef, now: nat)
    requires Resident(a) && r in a.index
    ensures Resident(Replied(a, a.index[r], m, now))
  {
  }

  lemma {:induction false} DemotesResident(a: Inner, b: Inner)
    requires Resident(a) && Demotes(a, b)
    ensures Resident(b) && |b.l0| <= b.c0 && b.c0 == a.c0 && b.c1 == a.c1
    decreases a.l0.Keys
  {
    if |a.l0| > a.c0 {
      var k :| IsOldest(a.l0, k) && Demotes(Demote(a, k), b);
      DemotesResident(Demote(a, k), b);
    }
  }

  lemma {:induction false} SpillsResident(a: Inner, b: Inner, out: seq<Session>)
    requires Resident(a) && Spills(a, b, out)
    ensures Resident(b) && |b.l1| <= b.c1 && b.l0 == a.l0 && b.c0 == a.c0 && b.c1 == a.c1
    decreases a.l1.Keys
  {
    if |a.l1| > a.c1 {
      var k :| IsOldest(a.l1, k) && out[0] == a.l1[k] && Spills(Spill(a, k), b, out[1..]);
      SpillsResident(Spill(a, k), b, out[1..]);
    }
  }

  /** Whatever sessions a page fault or a semantic match hands over, stale or duplicated, a locked
      section leaves every index entry resident and both layers within capacity. */
  lemma CriticalSafe(a: Inner, m: MsgRef, fault: Option<Session>, semantic: Option<Session>, now: nat,
                     b: Inner, out: seq<Session>)
    requires Resident(a) && Critical(a, m, fault, semantic, now, b, out)
    ensures Resident(b) && Bounded(b) && b.c0 == a.c0 && b.c1 == a.c1
  {
    JoinedResident(a, m, fault, semantic, now);
    var j := Joined(a, m, fault, semantic, now);
    var mid :| Demotes(j, mid) && Spills(mid, b, out);
    DemotesResident(j, mid);
    SpillsResident(mid, b, out);
  }

  // ---- One turn of each eviction loop ----

  lemma DemotesOnce(a: Inner, k: string, b: Inner)
    requires |a.l0| > a.c0 && IsOldest(a.l0, k) && Demotes(Demote(a, k), b)
    ensures Demotes(a, b)
  {
  }

  lemma SpillsOnce(a: Inner, k: string, b: Inner, rest: seq<Session>)
    requires |a.l1| > a.c1 && IsOldest(a.l1, k) && Spills(Spill(a, k), b, rest)
    ensures Spills(a, b, [a.l1[k]] + rest)
  {
    assert ([a.l1[k]] + rest)[1..] == rest;
  }

  lemma DemotesEnd(a: Inner)
    requires |a.l0| <= a.c0
    ensures Demotes(a, a)
  {
  }

  lemma SpillsEnd(a: Inner)
    requires |a.l1| <= a.c1
    ensures Spills(a, a, [])
  {
  }

  lemma RemoveShrinks(layer: map<string, Session>, k: string)
    requires k in layer
    ensures |layer - {k}| == |layer| - 1
    ensures (layer - {k}).Keys == layer.Keys - {k}
  {
    assert (layer - {k}).Keys == layer.Keys - {k};
  }
}
