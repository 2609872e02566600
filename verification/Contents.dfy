/** Which sessions a locked section keeps, changes and hands out, without any order on them. */
module Contents {
  import opened Wrappers
  import opened SessionTypes
  import opened Layers

  ghost predicate Keyed(layer: map<string, Session>) {
    forall k :: k in layer ==> layer[k].sessionId == k
  }

  ghost predicate Holding(layer: map<string, Session>, x: Session) {
    x.sessionId in layer && layer[x.sessionId] == x
  }

  /** The layers hold different sessions, each under its own name, and the index leads to one of them. */
  ghost predicate Tidy(a: Inner) {
    Keyed(a.l0) && Keyed(a.l1) && a.l0.Keys !! a.l1.Keys && Resident(a)
  }

  /** Both layers together. */
  function Content(a: Inner): map<string, Session> {
    a.l0 + a.l1
  }

  function Names(out: seq<Session>): set<string> {
    set x | x in out :: x.sessionId
  }

  ghost predicate Varied(out: seq<Session>) {
    forall i, j :: 0 <= i < j < |out| ==> out[i].sessionId != out[j].sessionId
  }

  lemma DemoteKeeps(a: Inner, k: string)
    requires Tidy(a) && k in a.l0
    ensures Tidy(Demote(a, k)) && Content(Demote(a, k)) == Content(a)
  {
    var b := Demote(a, k);
    assert b.l0.Keys == a.l0.Keys - {k} && b.l1.Keys == a.l1.Keys + {k};
  }

  lemma SpillKeeps(a: Inner, k: string)
    requires Tidy(a) && k in a.l1
    ensures Tidy(Spill(a, k)) && Content(Spill(a, k)) == Content(a) - {k} && Content(a)[k] == a.l1[k]
  {
    var b := Spill(a, k);
    assert b.l1.Keys == a.l1.Keys - {k};
  }

  lemma {:induction false} DemotesKeep(a: Inner, b: Inner)
    requires Tidy(a) && Demotes(a, b)
    ensures Tidy(b) && Content(b) == Content(a)
    decreases a.l0.Keys
  {
    if |a.l0| > a.c0 {
      var k :| IsOldest(a.l0, k) && Demotes(Demote(a, k), b);
      DemoteKeeps(a, k);
      DemotesKeep(Demote(a, k), b);
    }
  }

  lemma SpillsFirst(a: Inner, b: Inner, out: seq<Session>) returns (c: Inner)
    requires Tidy(a) && Spills(a, b, out) && |a.l1| > a.c1
    ensures out != [] && Holding(Content(a), out[0])
    ensures Tidy(c) && Content(c) == Content(a) - {out[0].sessionId}
    ensures Spills(c, b, out[1..]) && c.l1.Keys < a.l1.Keys && c.c1 == a.c1
  {
    var k :| IsOldest(a.l1, k) && out[0] == a.l1[k] && Spills(Spill(a, k), b, out[1..]);
    SpillKeeps(a, k);
    c := Spill(a, k);
    assert c.l1.Keys == a.l1.Keys - {k};
  }

  /** Spilling takes sessions out of the layers, each once, and leaves the others. */
  lemma {:induction false} SpillsKeep(a: Inner, b: Inner, out: seq<Session>)
    requires Tidy(a) && Spills(a, b, out)
    ensures Tidy(b) && Content(b) == Content(a) - Names(out) && Varied(out)
    ensures forall x :: x in out ==> Holding(Content(a), x)
    decreases a.l1.Keys
  {
    hide Spills, Tidy, Content, Names, Varied;
    if |a.l1| > a.c1 {
      var c := SpillsFirst(a, b, out);
      SpillsKeep(c, b, out[1..]);
      assert out == [out[0]] + out[1..];
      NamesCons(out[0], out[1..]);
      MinusMinus(Content(a), out[0].sessionId, Names(out[1..]));
      SpilledHeld(Content(a), out);
    } else {
      SpillsNone(a, b, out);
    }
  }

  lemma SpillsNone(a: Inner, b: Inner, out: seq<Session>)
    requires Spills(a, b, out) && |a.l1| <= a.c1
    ensures b == a && out == [] && Content(a) == Content(a) - Names(out) && Varied(out)
  {
    assert Names(out) == {};
  }

  lemma MinusMinus(m: map<string, Session>, k: string, ns: set<string>)
    ensures m - {k} - ns == m - ({k} + ns)
    ensures k !in m - {k}
  {
  }

  lemma SpilledHeld(m: map<string, Session>, out: seq<Session>)
    requires out != [] && Holding(m, out[0])
    requires forall x :: x in out[1..] ==> Holding(m - {out[0].sessionId}, x)
    ensures forall x :: x in out ==> Holding(m, x)
    ensures out[0].sessionId !in Names(out[1..])
  {
    assert out == [out[0]] + out[1..];
  }

  /** One more session in front of a list of others. */
  lemma NamesCons(x: Session, rest: seq<Session>)
    ensures Names([x] + rest) == {x.sessionId} + Names(rest)
    ensures Varied(rest) && x.sessionId !in Names(rest) ==> Varied([x] + rest)
  {
    var out := [x] + rest;
    assert forall i :: 0 < i < |out| ==> out[i] == rest[i - 1] && out[i] in rest;
    assert forall y :: y in out <==> y == x || y in rest;
  }

  /** The session that a message joins, with the message in it. */
  function JoinedSession(a: Inner, m: MsgRef, fault: Option<Session>, semantic: Option<Session>, now: nat): Session
    requires m.replyTo.Some? && m.replyTo.value in a.index ==> a.index[m.replyTo.value] in Content(a)
  {
    if fault.Some? then fault.value.Add(m, now)
    else if m.replyTo.Some? then
      if m.replyTo.value in a.index then Content(a)[a.index[m.replyTo.value]].Add(m, now) else NewSession(m, now)
    else if semantic.Some? then semantic.value.Add(m, now)
    else NewSession(m, now)
  }

  lemma IndexedHeld(a: Inner, r: int)
    requires Tidy(a) && r in a.index
    ensures a.index[r] in Content(a)
  {
  }

  lemma ReplyHeld(a: Inner, m: MsgRef)
    requires Tidy(a)
    ensures m.replyTo.Some? && m.replyTo.value in a.index ==> a.index[m.replyTo.value] in Content(a)
  {
    match m.replyTo {
      case Some(r) => if r in a.index { IndexedHeld(a, r); }
      case None =>
    }
  }

  /** Putting a session into L0 under a name that L1 does not have. */
  lemma PutKeeps(a: Inner, y: Session, index: map<int, string>)
    requires Tidy(a) && y.sessionId !in a.l1
    requires forall id :: id in index ==> index[id] == y.sessionId || (id in a.index && index[id] == a.index[id])
    ensures var b := a.(l0 := a.l0[y.sessionId := y], index := index);
            Tidy(b) && Content(b) == Content(a)[y.sessionId := y]
  {
  }

  lemma RepliedKeeps(a: Inner, sid: string, m: MsgRef, now: nat)
    requires Tidy(a) && sid in Content(a)
    ensures Tidy(Replied(a, sid, m, now))
    ensures Content(Replied(a, sid, m, now)) == Content(a)[sid := Content(a)[sid].Add(m, now)]
  {
    var b := Replied(a, sid, m, now);
    var y := Content(a)[sid].Add(m, now);
    assert Content(a)[sid].sessionId == sid;
    if sid in a.l0 {
      PutKeeps(a, y, b.index);
      assert b == a.(l0 := a.l0[y.sessionId := y], index := b.index);
    } else {
      assert b.l0 == a.l0[sid := y] && b.l1 == a.l1 - {sid};
      assert b.l1.Keys == a.l1.Keys - {sid};
    }
  }

  /** Before eviction the joined session is in L0 and every other session is where it was. */
  lemma JoinedKeeps(a: Inner, m: MsgRef, fault: Option<Session>, semantic: Option<Session>, now: nat)
    requires Tidy(a)
    requires fault.Some? ==> fault.value.sessionId !in Content(a)
    requires semantic.Some? ==> semantic.value.sessionId !in Content(a)
    requires NewSession(m, now).sessionId !in Content(a)
    ensures m.replyTo.Some? && m.replyTo.value in a.index ==> a.index[m.replyTo.value] in Content(a)
    ensures var b := Joined(a, m, fault, semantic, now); var y := JoinedSession(a, m, fault, semantic, now);
            Tidy(b) && Content(b) == Content(a)[y.sessionId := y]
  {
    ReplyHeld(a, m);
    var y := JoinedSession(a, m, fault, semantic, now);
    if fault.Some? {
      PutKeeps(a, y, (a.index + Entries(fault.value))[m.msgId := y.sessionId]);
    } else if m.replyTo.Some? && m.replyTo.value in a.index {
      RepliedKeeps(a, a.index[m.replyTo.value], m, now);
    } else if m.replyTo.None? && semantic.Some? {
      PutKeeps(a, y, (a.index + Entries(semantic.value))[m.msgId := y.sessionId]);
    } else {
      PutKeeps(a, y, a.index[m.msgId := y.sessionId]);
    }
  }

  /**
   A locked section loses no session and duplicates none: afterwards the layers and the evicted
   sessions are, by name, the sessions of before with the joined one put in; no name is both in a
   layer and evicted, and none is evicted twice.
   */
  lemma CriticalConserves(a: Inner, m: MsgRef, fault: Option<Session>, semantic: Option<Session>, now: nat,
                                             b: Inner, out: seq<Session>) returns (y: Session)
    requires Tidy(a) && Critical(a, m, fault, semantic, now, b, out)
    requires fault.Some? ==> fault.value.sessionId !in Content(a)
    requires semantic.Some? ==> semantic.value.sessionId !in Content(a)
    requires NewSession(m, now).sessionId !in Content(a)
    ensures m.replyTo.Some? && m.replyTo.value in a.index ==> a.index[m.replyTo.value] in Content(a)
    ensures y == JoinedSession(a, m, fault, semantic, now)
    ensures Tidy(b) && Varied(out)
    ensures Content(b) == Content(a)[y.sessionId := y] - Names(out)
    ensures forall x :: x in out ==> Holding(Content(a)[y.sessionId := y], x)
  {
    JoinedKeeps(a, m, fault, semantic, now);
    y := JoinedSession(a, m, fault, semantic, now);
    var j := Joined(a, m, fault, semantic, now);
    var mid :| Demotes(j, mid) && Spills(mid, b, out);
    DemotesKeep(j, mid);
    SpillsKeep(mid, b, out);
  }
}
