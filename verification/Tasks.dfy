/** The task table of the system module (crates/logos-system/src/tasks.rs). Every SQL statement is one
    step and only fails where a constraint of the table says so. */
module Tasks {
  import opened Wrappers
  import opened Json

  datatype Status = Pending | Active | Sleep | Finished

  datatype Task = Task(
    description: string,
    workspace: string,
    resource: string,
    status: Status,
    chatId: string,
    trigger: string,
    planTodo: seq<string>,
    planParent: string)

  /** The rows by their primary key `task_id`. */
  type Table = map<string, Task>

  datatype Error = InvalidJson | InvalidPath | Sqlite

  const VALID_TRANSITIONS: seq<(Status, Status)> :=
    [(Pending, Active), (Active, Finished), (Active, Sleep), (Sleep, Active)]

  predicate Allowed(from: Status, to: Status) {
    (from, to) in VALID_TRANSITIONS
  }

  // ---- The statements, as functions of the table ----

  /** The row of a creation request: always pending and without a plan, whatever the request says. */
  function TaskOf(v: Json): Task {
    Task(StrOr(v, "description", ""), StrOr(v, "workspace", ""), StrOr(v, "resource", ""), Pending,
         StrOr(v, "chat_id", ""), StrOr(v, "trigger", "user_message"), [], StrOr(v, "plan_parent", ""))
  }

  function Inserted(t: Table, content: Content): Result<Table, Error> {
    match content.json
    case None => Err(InvalidJson)
    case Some(v) =>
      var id := StrOr(v, "task_id", "");
      if id in t then Err(Sqlite) else Ok(t[id := TaskOf(v)])
  }

  function Removed(t: Table, id: string): Table {
    t - {id}
  }

  function Moved(t: Table, id: string, to: Status): Result<Table, Error> {
    if id !in t then Err(Sqlite)
    else if !Allowed(t[id].status, to) then Err(InvalidPath)
    else Ok(t[id := t[id].(status := to)])
  }

  function Planned(t: Table, id: string, todo: seq<string>): Table {
    if id in t then t[id := t[id].(planTodo := todo)] else t
  }

  function Described(t: Table, id: string, text: string): Table {
    if id in t then t[id := t[id].(description := text)] else t
  }

  /** The head of the stored plan, if there is one. */
  function Head(t: Table, id: string): Option<string> {
    if id in t && t[id].planTodo != [] then Some(t[id].planTodo[0]) else None
  }

  function Popped(t: Table, id: string): Table {
    if Head(t, id).Some? then Planned(t, id, t[id].planTodo[1..]) else t
  }

  function PlanPending(t: Table): set<string> {
    set id | id in t && t[id].status == Sleep && t[id].planTodo != []
  }

  predicate ActiveExecutor(t: Table, planner: string) {
    exists id :: id in t && t[id].planParent == planner && t[id].status == Active
  }

  /** The table after a statement that may fail, and what the caller is told. */
  function After(t: Table, r: Result<Table, Error>): Table {
    if r.Ok? then r.value else t
  }

  function Told(r: Result<Table, Error>): Result<(), Error> {
    match r
    case Ok(_) => Ok(())
    case Err(e) => Err(e)
  }

  /** `TaskDb`. */
  class TaskDb {
    var rows: Table

    constructor ()
      ensures rows == map[]
    {
      rows := map[];
    }

    method Create(content: Content) returns (r: Result<(), Error>)
      modifies this
      ensures rows == After(old(rows), Inserted(old(rows), content))
      ensures r == Told(Inserted(old(rows), content))
    {
      if content.json.None? {
        return Err(InvalidJson);
      }
      var v := content.json.value;
      var id := StrOr(v, "task_id", "");
      if id in rows {
        return Err(Sqlite);
      }
      rows := rows[id := TaskOf(v)];
      return Ok(());
    }

    method Delete(id: string)
      modifies this
      ensures rows == Removed(old(rows), id)
    {
      rows := rows - {id};
    }

    method UpdateDescription(id: string, text: string)
      modifies this
      ensures rows == Described(old(rows), id, text)
    {
      if id in rows {
        rows := rows[id := rows[id].(description := text)];
      }
    }

    method SetPlanTodo(id: string, todo: seq<string>)
      modifies this
      ensures rows == Planned(old(rows), id, todo)
    {
      if id in rows {
        rows := rows[id := rows[id].(planTodo := todo)];
      }
    }

    method ListPlanPending() returns (planners: set<string>)
      ensures planners == PlanPending(rows)
    {
      planners := set id | id in rows && rows[id].status == Sleep && rows[id].planTodo != [];
    }

    method HasActiveExecutor(planner: string) returns (active: bool)
      ensures active == ActiveExecutor(rows, planner)
    {
      var found := set id | id in rows && rows[id].planParent == planner && rows[id].status == Active;
      var count := |found|;
      if id :| id in rows && rows[id].planParent == planner && rows[id].status == Active {
        assert id in found;
      }
      assert forall id :: id in found ==> id in rows && rows[id].planParent == planner && rows[id].status == Active;
      active := count > 0;
    }

    method PopPlanHead(id: string) returns (head: Option<string>)
      modifies this
      ensures rows == Popped(old(rows), id)
      ensures head == Head(old(rows), id)
    {
      if id !in rows {
        return None;
      }
      var todo := rows[id].planTodo;
      if todo == [] {
        return None;
      }
      head := Some(todo[0]);
      todo := todo[1..];
      rows := rows[id := rows[id].(planTodo := todo)];
    }

    method TransitionStatus(id: string, to: Status) returns (r: Result<(), Error>)
      modifies this
      ensures rows == After(old(rows), Moved(old(rows), id, to))
      ensures r == Told(Moved(old(rows), id, to))
    {
      if id !in rows {
        return Err(Sqlite);
      }
      var current := rows[id].status;
      var valid := false;
      var i := 0;
      while i < |VALID_TRANSITIONS| && !valid
        invariant 0 <= i <= |VALID_TRANSITIONS|
        invariant valid <==> (current, to) in VALID_TRANSITIONS[..i]
      {
        valid := VALID_TRANSITIONS[i] == (current, to);
        i := i + 1;
      }
      assert VALID_TRANSITIONS[..|VALID_TRANSITIONS|] == VALID_TRANSITIONS;
      if !valid {
        return Err(InvalidPath);
      }
      rows := rows[id := rows[id].(status := to)];
      return Ok(());
    }
  }

  // ---- What a creation request means ----

  /** The text under a key, or another one if there is no text. */
  ghost predicate TextOr(v: Json, key: string, default: string, text: string) {
    text == if v.Obj? && key in v.fields && v.fields[key].Str? then v.fields[key].s else default
  }

  /** A request creates one pending row without a plan, every column from the member of its own name, unless
      the id is taken. */
  lemma InsertedIs(t: Table, raw: string, v: Json)
    ensures var r := Inserted(t, Content(raw, Some(v)));
            exists id :: TextOr(v, "task_id", "", id)
              && if id in t then r == Err(Sqlite)
                 else
                   && r.Ok? && r.value - {id} == t && id in r.value
                   && var row := r.value[id];
                      && row.status == Pending && row.planTodo == []
                      && TextOr(v, "description", "", row.description) && TextOr(v, "workspace", "", row.workspace)
                      && TextOr(v, "resource", "", row.resource) && TextOr(v, "chat_id", "", row.chatId)
                      && TextOr(v, "trigger", "user_message", row.trigger)
                      && TextOr(v, "plan_parent", "", row.planParent)
  {
    var id := StrOr(v, "task_id", "");
    assert TextOr(v, "task_id", "", id);
    assert TextOr(v, "description", "", StrOr(v, "description", "")) &&
      TextOr(v, "workspace", "", StrOr(v, "workspace", ""));
    assert TextOr(v, "resource", "", StrOr(v, "resource", "")) && TextOr(v, "chat_id", "", StrOr(v, "chat_id", ""));
    assert TextOr(v, "trigger", "user_message", StrOr(v, "trigger", "user_message"));
    assert TextOr(v, "plan_parent", "", StrOr(v, "plan_parent", ""));
    hide TextOr, StrOr;
  }

  // ---- What a check and an update in two statements allow ----

  /** The update of a transition, written into a table that may have changed since the check. */
  function LateMove(checked: Table, t: Table, id: string, to: Status): Table
    requires id in checked
  {
    if Allowed(checked[id].status, to) && id in t then t[id := t[id].(status := to)] else t
  }

  /** The write-back of a popped plan, into a table that may have changed since the read. */
  function LatePop(checked: Table, t: Table, id: string): Table
    requires id in checked && checked[id].planTodo != []
  {
    Planned(t, id, checked[id].planTodo[1..])
  }

  /** Two completions of one active task that both check before either writes: the finished task goes
      to sleep. */
  lemma FinishedCanSleep(t: Table, id: string)
    requires id in t && t[id].status == Active
    ensures var u := LateMove(t, t, id, Finished);
            var v := LateMove(t, u, id, Sleep);
            u[id].status == Finished && v[id].status == Sleep && Moved(u, id, Sleep) == Err(InvalidPath)
  {
    assert VALID_TRANSITIONS[1] == (Active, Finished) && VALID_TRANSITIONS[2] == (Active, Sleep);
  }

  /** A late update does what an undivided transition does exactly when the row is gone, the check would
      come out the same on the table it is written to, or the status is there already. */
  lemma LateMoveHarmless(checked: Table, t: Table, id: string, to: Status)
    requires id in checked
    ensures LateMove(checked, t, id, to) == After(t, Moved(t, id, to))
       <==> (id in t ==> Allowed(checked[id].status, to) == Allowed(t[id].status, to) || t[id].status == to)
  {
    if id in t {
      var u, v := LateMove(checked, t, id, to), After(t, Moved(t, id, to));
      assert t[id := t[id]] == t;
      assert u == v ==> u[id].status == v[id].status;
      assert t[id].status == to ==> t[id].(status := to) == t[id];
    }
  }

  /** What popping leaves of a plan. */
  function Rest(todo: seq<string>): seq<string> {
    if todo == [] then [] else todo[1..]
  }

  /** A late write-back does what an undivided pop does exactly when the row is gone or popping its plan
      leaves what popping the plan that was read leaves. A plan stored in between is overwritten, and a row
      that was created again in between gets the rest of a plan that it never had. */
  lemma LatePopHarmless(checked: Table, t: Table, id: string)
    requires id in checked && checked[id].planTodo != []
    ensures LatePop(checked, t, id) == Popped(t, id)
       <==> (id in t ==> Rest(t[id].planTodo) == Rest(checked[id].planTodo))
  {
    if id in t {
      var u, v := LatePop(checked, t, id), Popped(t, id);
      assert t[id := t[id]] == t;
      assert t[id].planTodo == [] ==> t[id].(planTodo := []) == t[id];
      assert u == v ==> u[id].planTodo == v[id].planTodo;
    }
  }

  // ---- What a stored plan is for ----

  /** The table after so many pops. */
  function PoppedTimes(t: Table, id: string, n: nat): Table {
    if n == 0 then t else Popped(PoppedTimes(t, id, n - 1), id)
  }

  /** A stored plan is popped item by item in the order in which it was submitted, and the row is listed
      for scheduling exactly while it sleeps and items remain; nothing else in the table changes. */
  lemma {:induction false} PlanDrains(t: Table, id: string, todo: seq<string>, n: nat)
    requires id in t
    ensures var u := PoppedTimes(Planned(t, id, todo), id, n);
            && u.Keys == t.Keys && (forall x :: x in t && x != id ==> u[x] == t[x])
            && u[id] == t[id].(planTodo := if n < |todo| then todo[n..] else [])
            && Head(u, id) == (if n < |todo| then Some(todo[n]) else None)
            && (id in PlanPending(u) <==> t[id].status == Sleep && n < |todo|)
  {
    if n > 0 {
      PlanDrains(t, id, todo, n - 1);
    }
  }

  /** A new description changes that field of that row alone, and moves and pops do not mind it. */
  lemma DescribedApart(t: Table, id: string, text: string, to: Status)
    ensures var u := Described(t, id, text);
            && u.Keys == t.Keys && (id in t ==> u[id].description == text)
            && (forall x :: x in t ==> u[x].(description := t[x].description) == t[x] && (x != id ==> u[x] == t[x]))
            && After(u, Moved(u, id, to)) == Described(After(t, Moved(t, id, to)), id, text)
            && Popped(u, id) == Described(Popped(t, id), id, text)
            && Told(Moved(u, id, to)) == Told(Moved(t, id, to)) && Head(u, id) == Head(t, id)
  {
    if id in t {
      var u := Described(t, id, text);
      assert u[id].(status := to) == t[id].(status := to).(description := text);
      assert forall todo :: u[id].(planTodo := todo) == t[id].(planTodo := todo).(description := text);
    }
  }
}
