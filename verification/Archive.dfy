/**
 L2: a table of sessions and a table that maps messages to sessions, kept in step by `persist` and
 `delete`. A table is a list of rows; nothing in the schema makes rows unique.
 */
module Archive {
  import opened Wrappers
  import opened SessionTypes

  datatype IndexRow = IndexRow(msgId: int, sessionId: string)

  datatype Tables = Tables(sessions: seq<Session>, index: seq<IndexRow>)

  // ---- The statements that the store issues ----

  function DropSession(rows: seq<Session>, sid: string): (r: seq<Session>)
    ensures forall s :: s in r <==> s in rows && s.sessionId != sid
    ensures Unique(rows) ==> Unique(r)
  {
    if rows == [] then []
    else if rows[0].sessionId == sid then DropSession(rows[1..], sid)
    else [rows[0]] + DropSession(rows[1..], sid)
  }

  function DropRowsOf(rows: seq<IndexRow>, sid: string): (r: seq<IndexRow>)
    ensures forall x :: x in r <==> x in rows && x.sessionId != sid
  {
    if rows == [] then []
    else if rows[0].sessionId == sid then DropRowsOf(rows[1..], sid)
    else [rows[0]] + DropRowsOf(rows[1..], sid)
  }

  function DropMsg(rows: seq<IndexRow>, id: int): (r: seq<IndexRow>)
    ensures forall x :: x in r <==> x in rows && x.msgId != id
  {
    if rows == [] then []
    else if rows[0].msgId == id then DropMsg(rows[1..], id)
    else [rows[0]] + DropMsg(rows[1..], id)
  }

  function FirstSession(rows: seq<Session>, sid: string): (r: Option<Session>)
    ensures r.Some? ==> r.value in rows && r.value.sessionId == sid
    ensures r.None? ==> forall s :: s in rows ==> s.sessionId != sid
  {
    if rows == [] then None else if rows[0].sessionId == sid then Some(rows[0]) else FirstSession(rows[1..], sid)
  }

  function FirstRow(rows: seq<IndexRow>, id: int): (r: Option<IndexRow>)
    ensures r.Some? ==> r.value in rows && r.value.msgId == id
    ensures r.None? ==> forall x :: x in rows ==> x.msgId != id
  {
    if rows == [] then None else if rows[0].msgId == id then Some(rows[0]) else FirstRow(rows[1..], id)
  }

  // ---- The operations ----

  function RowsOf(s: Session): seq<IndexRow> {
    seq(|s.messages|, i requires 0 <= i < |s.messages| => IndexRow(s.messages[i].msgId, s.sessionId))
  }

  function DropMsgs(rows: seq<IndexRow>, ms: seq<MsgRef>): (r: seq<IndexRow>)
    decreases |ms|
  {
    if ms == [] then rows else DropMsg(DropMsgs(rows, ms[..|ms| - 1]), ms[|ms| - 1].msgId)
  }

  function Persisted(t: Tables, s: Session): Tables {
    Tables(DropSession(t.sessions, s.sessionId) + [s], DropMsgs(t.index, s.messages) + RowsOf(s))
  }

  function Deleted(t: Tables, sid: string): Tables {
    Tables(DropSession(t.sessions, sid), DropRowsOf(t.index, sid))
  }

  function LoadById(t: Tables, sid: string): Option<Session> {
    FirstSession(t.sessions, sid)
  }

  function LoadByMsg(t: Tables, id: int): Option<Session> {
    match FirstRow(t.index, id)
    case None => None
    case Some(row) => LoadById(t, row.sessionId)
  }

  /** The vector search over one chat; `hint` is the session it would rank first, if any is near enough. */
  function SemanticSearch(t: Tables, chatId: string, hint: Option<string>): Option<Session> {
    if hint.None? then None
    else match LoadById(t, hint.value)
      case None => None
      case Some(s) => if s.chatId == chatId then Some(s) else None
  }

  // ---- Agreement of the two tables ----

  ghost predicate Unique(rows: seq<Session>) {
    forall i, j :: 0 <= i < j < |rows| ==> rows[i].sessionId != rows[j].sessionId
  }

  /** The index table is the inverse of message membership in the session table. */
  ghost predicate Agrees(t: Tables) {
    && (forall x :: x in t.index ==> exists s :: s in t.sessions && s.sessionId == x.sessionId && s.Has(x.msgId))
    && (forall s, id :: s in t.sessions && id in s.Ids() ==> IndexRow(id, s.sessionId) in t.index)
  }

  /** What a session must meet to be persisted: it may not share a message with another archived
      session, and an older copy of itself may not hold a message that it has lost. */
  ghost predicate Clean(t: Tables, s: Session) {
    forall x :: x in t.sessions ==> if x.sessionId == s.sessionId then x.Ids() <= s.Ids() else x.Ids() !! s.Ids()
  }

  lemma {:induction false} DropMsgsRows(rows: seq<IndexRow>, ms: seq<MsgRef>)
    ensures forall x :: x in DropMsgs(rows, ms) <==> x in rows && forall m :: m in ms ==> m.msgId != x.msgId
    decreases |ms|
  {
    if ms != [] {
      var front, last := ms[..|ms| - 1], ms[|ms| - 1];
      DropMsgsRows(rows, front);
      assert ms == front + [last];
    }
  }

  lemma RowsOfIn(s: Session)
    ensures forall x :: x in RowsOf(s) <==> x.sessionId == s.sessionId && s.Has(x.msgId)
  {
    var r := RowsOf(s);
    assert forall i :: 0 <= i < |r| ==> r[i] == IndexRow(s.messages[i].msgId, s.sessionId);
    forall x: IndexRow | x.sessionId == s.sessionId && s.Has(x.msgId)
      ensures x in r
    {
      var i :| 0 <= i < |s.messages| && s.messages[i].msgId == x.msgId;
      assert r[i] == x;
    }
    forall x | x in r
      ensures x.sessionId == s.sessionId && s.Has(x.msgId)
    {
      var i :| 0 <= i < |r| && r[i] == x;
      assert s.messages[i] in s.messages;
    }
  }

  lemma PersistIndex(t: Tables, s: Session)
    ensures forall x :: x in Persisted(t, s).index <==>
      (x in t.index && !s.Has(x.msgId)) || (x.sessionId == s.sessionId && s.Has(x.msgId))
  {
    DropMsgsRows(t.index, s.messages);
    RowsOfIn(s);
  }

  lemma PersistUnique(t: Tables, s: Session)
    requires Unique(t.sessions)
    ensures Unique(Persisted(t, s).sessions)
  {
  }

  /** Persisting keeps the tables in agreement exactly for clean sessions. */
  lemma PersistAgrees(t: Tables, s: Session)
    requires Agrees(t)
    ensures Agrees(Persisted(t, s)) <==> Clean(t, s)
  {
    PersistIndex(t, s);
    if Clean(t, s) {
      PersistKeeps(t, s);
    }
    if Agrees(Persisted(t, s)) {
      PersistNeeds(t, s);
    }
  }

  lemma PersistKeeps(t: Tables, s: Session)
    requires Agrees(t) && Clean(t, s)
    ensures Agrees(Persisted(t, s))
  {
    PersistIndex(t, s);
    var p := Persisted(t, s);
    forall x | x in p.index
      ensures exists y :: y in p.sessions && y.sessionId == x.sessionId && y.Has(x.msgId)
    {
      if x.sessionId == s.sessionId && s.Has(x.msgId) {
        assert s in p.sessions;
      } else {
        var y :| y in t.sessions && y.sessionId == x.sessionId && y.Has(x.msgId);
        assert y in p.sessions;
      }
    }
    forall y, id | y in p.sessions && id in y.Ids()
      ensures IndexRow(id, y.sessionId) in p.index
    {
    }
  }

  lemma PersistNeeds(t: Tables, s: Session)
    requires Agrees(t) && Agrees(Persisted(t, s))
    ensures Clean(t, s)
  {
    PersistIndex(t, s);
    var p := Persisted(t, s);
    forall x | x in t.sessions
      ensures if x.sessionId == s.sessionId then x.Ids() <= s.Ids() else x.Ids() !! s.Ids()
    {
      forall id | id in x.Ids()
        ensures id in s.Ids() <==> x.sessionId == s.sessionId
      {
        var row := IndexRow(id, x.sessionId);
        assert row in t.index;
        if x.sessionId == s.sessionId {
          assert !s.Has(id) ==> row in p.index;
        } else {
          assert x in p.sessions;
          assert row in p.index;
        }
      }
    }
  }

  /** Deleting a session always keeps the tables in agreement. */
  lemma DeleteAgrees(t: Tables, sid: string)
    requires Agrees(t)
    ensures Agrees(Deleted(t, sid))
  {
    var d := Deleted(t, sid);
    forall x | x in d.index
      ensures exists s :: s in d.sessions && s.sessionId == x.sessionId && s.Has(x.msgId)
    {
      var s :| s in t.sessions && s.sessionId == x.sessionId && s.Has(x.msgId);
      assert s in d.sessions;
    }
  }

  /** The full scan that the index table saves. */
  function Scan(rows: seq<Session>, id: int): (r: Option<Session>)
    ensures r.Some? ==> r.value in rows && r.value.Has(id)
    ensures r.None? ==> forall s :: s in rows ==> !s.Has(id)
  {
    if rows == [] then None else if rows[0].Has(id) then Some(rows[0]) else Scan(rows[1..], id)
  }

  /** Looking a message up through the index finds what a full scan finds. */
  lemma LoadByMsgScans(t: Tables, id: int)
    requires Agrees(t) && Unique(t.sessions)
    requires forall s, x :: s in t.sessions && x in t.sessions && s.Has(id) && x.Has(id) ==> s == x
    ensures LoadByMsg(t, id) == Scan(t.sessions, id)
  {
    match FirstRow(t.index, id) {
      case None =>
        forall s | s in t.sessions ensures !s.Has(id) {
          assert s.Has(id) ==> IndexRow(id, s.sessionId) in t.index;
        }
      case Some(row) =>
        var s :| s in t.sessions && s.sessionId == row.sessionId && s.Has(row.msgId);
        FirstIs(t.sessions, s);
    }
  }

  lemma FirstIs(rows: seq<Session>, s: Session)
    requires Unique(rows) && s in rows
    ensures FirstSession(rows, s.sessionId) == Some(s)
  {
    var f := FirstSession(rows, s.sessionId);
    var i :| 0 <= i < |rows| && rows[i] == s;
    var j :| 0 <= j < |rows| && rows[j] == f.value;
  }

  /** The L2 store: two tables updated in place. */
  class L2Store {
    var sessions: seq<Session>
    var index: seq<IndexRow>

    function Value(): Tables
      reads this
    {
      Tables(sessions, index)
    }

    constructor ()
      ensures Value() == Tables([], [])
    {
      sessions, index := [], [];
    }

    /** Upsert: drops the row of an older copy, adds the session, then rewrites its index rows. */
    method Persist(s: Session)
      modifies this
      ensures Value() == Persisted(old(Value()), s)
    {
      sessions := DropSession(sessions, s.sessionId);
      sessions := sessions + [s];
      UpdateMsgIndex(s);
    }

    method UpdateMsgIndex(s: Session)
      modifies this`index
      ensures index == DropMsgs(old(index), s.messages) + RowsOf(s)
    {
      for i := 0 to |s.messages|
        invariant index == DropMsgs(old(index), s.messages[..i])
      {
        index := DropMsg(index, s.messages[i].msgId);
        assert s.messages[..i + 1][..i] == s.messages[..i];
      }
      assert s.messages[..|s.messages|] == s.messages;
      index := index + RowsOf(s);
    }

    method Delete(sid: string)
      modifies this
      ensures Value() == Deleted(old(Value()), sid)
    {
      sessions := DropSession(sessions, sid);
      index := DropRowsOf(index, sid);
    }
  }
}
