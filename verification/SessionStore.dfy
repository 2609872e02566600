/** The store itself: `observe` with its unlocked and locked phases, the eviction loops, and the lookups. */
module SessionStore {
  import opened Wrappers
  import opened SessionTypes
  import opened Layers
  import A = Archive
  import R = Recency
  import F = Refinement
  import S = Storage

  class SessionStore {
    var msgIndex: map<int, string>
    var l0: map<string, Session>
    var l1: map<string, Session>
    const l0Capacity: nat
    const l1Capacity: nat
    const l2: A.L2Store?

    /** Every observation since the store was created. */
    ghost var history: seq<R.Obs>

    function State(): Inner
      reads this
    {
      Inner(msgIndex, l0, l1, l0Capacity, l1Capacity)
    }

    function Configuration(): R.Config {
      R.Config(l0Capacity, l1Capacity, l2 != null)
    }

    /** The list of sessions, most recently active first, that the store stands for. */
    ghost function Order(): seq<Session>
      reads this
    {
      R.Run(Configuration(), history)
    }

    /** L0, L1 and L2 hold the consecutive stretches of the list; both indexes are exact. */
    ghost predicate Valid()
      reads this, if l2 == null then {} else {l2}
    {
      && R.WellFormed(history)
      && F.Tracks(State(), Order())
      && (l2 != null ==> S.Stored(l2.Value(), Order()[R.Resident(Configuration(), |Order()|)..]))
    }

    constructor (c0: nat, c1: nat, archive: A.L2Store?)
      requires archive != null ==> archive.Value() == A.Tables([], [])
      ensures Valid() && history == []
      ensures l0Capacity == c0 && l1Capacity == c1 && l2 == archive
    {
      msgIndex, l0, l1 := map[], map[], map[];
      l0Capacity, l1Capacity, l2 := c0, c1, archive;
      history := [];
    }

    // ---- Eviction ----

    /** A key of least activity, as `min_by_key` over a hash map finds one. */
    static method Oldest(layer: map<string, Session>) returns (k: string)
      requires layer.Keys != {}
      ensures IsOldest(layer, k)
    {
      var keys := layer.Keys;
      k :| k in keys;
      keys := keys - {k};
      while keys != {}
        invariant keys <= layer.Keys && k in layer
        invariant forall j :: j in layer && j !in keys ==> layer[k].lastActive <= layer[j].lastActive
        decreases |keys|
      {
        var j :| j in keys;
        if layer[j].lastActive < layer[k].lastActive {
          k := j;
        }
        keys := keys - {j};
      }
    }

    method EvictCollect() returns (evicted: seq<Session>)
      modifies this`msgIndex, this`l0, this`l1
      ensures Evicts(old(State()), State(), evicted)
    {
      hide Demotes, Spills;
      DemoteAll();
      evicted := SpillAll();
    }

    /** The first loop. */
    method DemoteAll()
      modifies this`l0, this`l1
      ensures Demotes(old(State()), State())
    {
      hide Demotes, IsOldest;
      while |l0| > l0Capacity
        invariant forall b :: Demotes(State(), b) ==> Demotes(old(State()), b)
        decreases |l0|
      {
        NonEmpty(l0);
        var key := Oldest(l0);
        OldestIn(l0, key);
        ghost var before := State();
        var s := l0[key];
        RemoveShrinks(l0, key);
        l0 := l0 - {key};
        l1 := l1[key := s];
        forall b | Demotes(State(), b) ensures Demotes(before, b) { DemotesOnce(before, key, b); }
      }
      DemotesEnd(State());
    }

    /** The second loop. */
    method SpillAll() returns (evicted: seq<Session>)
      modifies this`msgIndex, this`l1
      ensures Spills(old(State()), State(), evicted)
    {
      hide Spills, IsOldest, Forget;
      evicted := [];
      assert forall rest: seq<Session> :: [] + rest == rest;
      while |l1| > l1Capacity
        invariant forall b, rest :: Spills(State(), b, rest) ==> Spills(old(State()), b, evicted + rest)
        decreases |l1|
      {
        NonEmpty(l1);
        var key := Oldest(l1);
        OldestIn(l1, key);
        ghost var before, soFar := State(), evicted;
        var s := l1[key];
        RemoveShrinks(l1, key);
        l1 := l1 - {key};
        msgIndex := Forget(msgIndex, key);
        evicted := evicted + [s];
        forall b, rest | Spills(State(), b, rest)
          ensures Spills(old(State()), b, evicted + rest)
        {
          SpillsOnce(before, key, b, rest);
          assert soFar + ([s] + rest) == evicted + rest;
        }
      }
      SpillsEnd(State());
      assert evicted + [] == evicted;
    }

    static lemma NonEmpty(layer: map<string, Session>)
      requires |layer| > 0
      ensures layer.Keys != {}
    {
    }

    static lemma OldestIn(layer: map<string, Session>, k: string)
      requires IsOldest(layer, k)
      ensures k in layer
    {
    }

    // ---- The locked section ----

    method Restore(session: Session, msg: MsgRef, now: nat)
      modifies this`msgIndex, this`l0
      ensures State() == Restored(old(State()), session, msg, now)
    {
      EntriesNone(session);
      hide Entries;
      for i := 0 to |session.messages|
        invariant msgIndex == old(msgIndex) + Entries(session.(messages := session.messages[..i]))
        invariant l0 == old(l0)
      {
        msgIndex := msgIndex[session.messages[i].msgId := session.sessionId];
        EntriesOf(session, i);
      }
      assert session.messages[..|session.messages|] == session.messages;
      msgIndex := msgIndex[msg.msgId := session.sessionId];
      l0 := l0[session.sessionId := session.Add(msg, now)];
    }

    method Open(msg: MsgRef, now: nat)
      modifies this`msgIndex, this`l0
      ensures State() == Opened(old(State()), msg, now)
    {
      var session := NewSession(msg, now);
      msgIndex := msgIndex[msg.msgId := session.sessionId];
      l0 := l0[session.sessionId := session];
    }

    method Reply(sid: string, msg: MsgRef, now: nat)
      modifies this`msgIndex, this`l0, this`l1
      ensures State() == Replied(old(State()), sid, msg, now)
    {
      if sid in l0 {
        l0 := l0[sid := l0[sid].Add(msg, now)];
      } else if sid in l1 {
        l1 := l1[sid := l1[sid].Add(msg, now)];
        // promote_to_l0
        var s := l1[sid];
        l1 := l1 - {sid};
        l0 := l0[sid := s];
        assert l1 == old(l1) - {sid};
      }
      msgIndex := msgIndex[msg.msgId := sid];
    }

    method Locked(
      msg: MsgRef, fault: Option<Session>, semantic: Option<Session>, now: nat) returns (evicted: seq<Session>)
      modifies this`msgIndex, this`l0, this`l1
      ensures Critical(old(State()), msg, fault, semantic, now, State(), evicted)
    {
      match fault {
        case Some(session) => Restore(session, msg, now);
        case None =>
          match msg.replyTo {
            case Some(r) =>
              if r in msgIndex {
                Reply(msgIndex[r], msg, now);
              } else {
                Open(msg, now);
              }
            case None =>
              match semantic {
                case Some(session) => Restore(session, msg, now);
                case None => Open(msg, now);
              }
          }
      }
      assert State() == Joined(old(State()), msg, fault, semantic, now);
      evicted := EvictCollect();
    }

    // ---- The whole call ----

    /** The unlocked phases: load the session to page in, and delete it from the archive. */
    method Fetch(
      msg: MsgRef, hint: Option<string>, ghost now: nat) returns (fault: Option<Session>, semantic: Option<Session>)
      requires l2 != null
      modifies l2
      ensures S.Fetched(msgIndex, old(l2.Value()), R.Obs(msg, hint, now), fault, semantic)
      ensures l2.Value() == S.AfterFetch(old(l2.Value()), fault, semantic)
    {
      fault, semantic := None, None;
      match msg.replyTo {
        case Some(r) =>
          if r !in msgIndex {
            fault := A.LoadByMsg(l2.Value(), r);
          }
        case None =>
      }
      if fault.Some? {
        l2.Delete(fault.value.sessionId);
      }
      if msg.replyTo.None? && fault.None? {
        semantic := A.SemanticSearch(l2.Value(), msg.chatId, hint);
      }
      if semantic.Some? {
        l2.Delete(semantic.value.sessionId);
      }
    }

    method PersistAll(evicted: seq<Session>, ghost f: seq<Session>, ghost n: nat, ghost k: nat)
      requires l2 != null && S.Left(State(), l2.Value(), Configuration(), f, evicted, n, k)
      modifies l2
      ensures S.Stored(l2.Value(), f[n..])
    {
      S.EvictedAt(f, n, k, 0);
      for i := 0 to |evicted|
        invariant S.Stored(l2.Value(), f[k - i..])
      {
        S.EvictedAt(f, n, k, i);
        S.PersistStores(l2.Value(), f, k - i);
        l2.Persist(evicted[i]);
      }
    }

    static lemma StepsOn(cfg: R.Config, history: seq<R.Obs>, o: R.Obs)
      requires R.WellFormed(history + [o])
      ensures R.StepsTo(cfg, R.Run(cfg, history), o, R.Step(cfg, R.Run(cfg, history), o))
    {
      assert forall i :: 0 <= i < |history| ==> (history + [o])[i] == history[i];
      R.RunGood(cfg, history);
      R.StepIs(cfg, R.Run(cfg, history), o);
    }

    /** `observe`: what the store stands for becomes the list with the joined session in front. */
    method Observe(msg: MsgRef, hint: Option<string>, now: nat)
      requires Valid() && R.WellFormed(history + [R.Obs(msg, hint, now)])
      modifies this, if l2 == null then {} else {l2}
      ensures Valid()
      ensures history == old(history) + [R.Obs(msg, hint, now)]
      ensures Order() == R.Step(Configuration(), old(Order()), R.Obs(msg, hint, now))
      ensures R.StepsTo(Configuration(), old(Order()), R.Obs(msg, hint, now), Order())
    {
      ghost var cfg, o := Configuration(), R.Obs(msg, hint, now);
      ghost var a, t := State(), if l2 == null then None else Some(l2.Value());
      S.BeginsFrom(a, t, cfg, history, o);
      StepsOn(cfg, history, o);
      hide R.Run, R.Step, R.StepsTo, R.WellFormed, F.Tracks, Critical, S.Stored, S.Fetched, S.Begins;
      R.RunStep(cfg, history, o);
      var fault, semantic := None, None;
      if l2 != null {
        fault, semantic := Fetch(msg, hint, now);
      }
      var evicted := Locked(msg, fault, semantic, now);
      if l2 != null {
        ghost var k := S.AdvanceArchived(a, t.value, cfg, history, o, fault, semantic, State(), evicted);
        ghost var f := R.Run(cfg, history + [o]);
        PersistAll(evicted, f, R.Resident(cfg, |f|), k);
      } else {
        S.AdvanceInMemory(a, cfg, history, o, State(), evicted);
      }
      history := history + [o];
    }

    // ---- Lookups ----

    /** `get_session_for_msg`: the session of the list that holds the message, wherever it lies. */
    method GetSessionForMsg(id: int) returns (r: Option<Session>)
      requires Valid()
      ensures r == (match R.Find(Order(), id) case Some(i) => Some(Order()[i]) case None => None)
      ensures R.RepliesStay(history) && r.Some? ==> R.OneChat(r.value)
    {
      if R.RepliesStay(history) {
        R.ChatsApart(Configuration(), history);
      }
      R.RunGood(Configuration(), history);
      S.Locate(State(), Order(), id);
      if id in msgIndex {
        var sid := msgIndex[id];
        if sid in l0 {
          return Some(l0[sid]);
        }
        if sid in l1 {
          return Some(l1[sid]);
        }
      }
      if l2 != null {
        S.FaultFinds(l2.Value(), Order(), R.Resident(Configuration(), |Order()|), id);
        return A.LoadByMsg(l2.Value(), id);
      }
      S.RunBounded(Configuration(), history);
      return None;
    }

    /** `get_active_session`: the first session of the chat among those that L0 has room for. */
    method GetActiveSession(chat: string) returns (r: Option<Session>)
      requires Valid()
      ensures r == S.FirstOf(Order()[..R.Min(l0Capacity, |Order()|)], chat)
    {
      R.RunGood(Configuration(), history);
      S.FrontLayer(State(), Order());
      r := LatestOf(l0, chat);
      S.LatestIsFirst(Order()[..R.Min(l0Capacity, |Order()|)], chat, r);
    }

    /** `max_by_key` over the sessions of a chat. */
    static method LatestOf(layer: map<string, Session>, chat: string) returns (r: Option<Session>)
      ensures S.Latest(layer, chat, r)
    {
      r := None;
      var keys := layer.Keys;
      while keys != {}
        invariant keys <= layer.Keys
        invariant r.None? ==> forall k :: k in layer && k !in keys ==> layer[k].chatId != chat
        invariant r.Some? ==> r.value in layer.Values && r.value.chatId == chat
        invariant r.Some? ==> forall k :: k in layer && k !in keys && layer[k].chatId == chat ==>
                    layer[k].lastActive <= r.value.lastActive
        decreases |keys|
      {
        var k :| k in keys;
        if layer[k].chatId == chat && (r.None? || r.value.lastActive < layer[k].lastActive) {
          r := Some(layer[k]);
        }
        keys := keys - {k};
      }
    }
  }
}
