/** The system module: its entry points to the task table, each recorded as the statements that it issues
    (crates/logos-system/src/lib.rs, crates/logos-system/src/complete.rs). */
module System {
  import opened Wrappers
  import opened Json
  import opened Tasks
  import opened Plans
  import opened Complete
  import opened JsonMerge
  import An = Anchors

  /** The JSON form in which a row is read, apart from its two timestamps. */
  function RowJson(id: string, row: Task): Json {
    Obj(map[
      "task_id" := Str(id),
      "description" := Str(row.description),
      "workspace" := Str(row.workspace),
      "resource" := Str(row.resource),
      "status" := Str(StatusText(row.status)),
      "chat_id" := Str(row.chatId),
      "trigger" := Str(row.trigger),
      "plan_todo" := Arr(seq(|row.planTodo|, i requires 0 <= i < |row.planTodo| => Str(row.planTodo[i]))),
      "plan_parent" := Str(row.planParent)])
  }

  function StatusText(s: Status): string {
    match s
    case Pending => "pending"
    case Active => "active"
    case Sleep => "sleep"
    case Finished => "finished"
  }

  /** Creating from the printed form of a row gives that row again, but pending and without its plan. */
  lemma CreateReadsBack(t: Table, id: string, row: Task, raw: string)
    requires id !in t
    ensures Inserted(t, Content(raw, Some(RowJson(id, row)))) == Ok(t[id := row.(status := Pending, planTodo := [])])
  {
    var v := RowJson(id, row);
    assert StrOr(v, "task_id", "") == id && StrOr(v, "description", "") == row.description;
    assert StrOr(v, "workspace", "") == row.workspace && StrOr(v, "resource", "") == row.resource;
    assert StrOr(v, "chat_id", "") == row.chatId && StrOr(v, "trigger", "user_message") == row.trigger;
    assert StrOr(v, "plan_parent", "") == row.planParent;
    hide RowJson, StrOr;
  }

  function ReadRow(t: Table, id: string): Json {
    if id in t then RowJson(id, t[id]) else Null
  }

  /** The description that patching a row leaves: what the patch says, if it says a text. */
  function PatchedText(row: Task, patch: Json): string {
    StrOr(patch, "description", row.description)
  }

  function PatchedTable(t: Table, id: string, description: Json): Table {
    if description.Str? then Described(t, id, description.s) else t
  }

  lemma PatchedDescription(t: Table, id: string, patch: Json)
    ensures PatchedTable(t, id, Member(Merge(ReadRow(t, id), patch), "description"))
         == if id in t then t[id := t[id].(description := PatchedText(t[id], patch))] else t
  {
    if id in t {
      var base := RowJson(id, t[id]);
      assert base.fields["description"] == Str(t[id].description);
      MergedMember(base, patch, "description");
    }
  }

  lemma MergedMember(base: Json, patch: Json, key: string)
    requires base.Obj? && key in base.fields && base.fields[key].Str?
    ensures Member(Merge(base, patch), key)
         == if !patch.Obj? then Null else if key in patch.fields then patch.fields[key] else base.fields[key]
  {
    if patch.Obj? {
      Members(base, patch);
    }
  }

  /** A write or patch adds a pending row or changes one description; nothing else. */
  ghost predicate OnlyTexts(t: Table, u: Table) {
    && (forall id :: id in t ==> id in u && u[id].(description := t[id].description) == t[id])
    && (forall id :: id in u && id !in t ==> u[id].status == Pending && u[id].planTodo == [])
  }

  lemma InsertedTexts(t: Table, content: Content)
    ensures OnlyTexts(t, After(t, Inserted(t, content)))
  {
  }

  lemma NotInserted(t: Table, content: Content)
    requires content.json.None?
    ensures Inserted(t, content) == Err(InvalidJson)
  {
  }

  lemma DescribeRecords(w: World, id: string, text: string)
    ensures Next(w, Describe(id, text)).rows == Described(w.rows, id, text)
  {
  }

  lemma DescribedTexts(t: Table, id: string, text: string)
    ensures OnlyTexts(t, Described(t, id, text))
  {
  }

  lemma PatchTexts(t: Table, id: string, patch: Json)
    ensures OnlyTexts(t, if id in t then t[id := t[id].(description := PatchedText(t[id], patch))] else t)
  {
  }

  lemma InsertRecords(w: World, v: Json, raw: string)
    ensures Next(w, Create(StrOr(v, "task_id", ""), TaskOf(v))).rows
         == After(w.rows, Inserted(w.rows, Content(raw, Some(v))))
  {
    hide StrOr;
  }

  lemma RegenRecords(w: World, clock: Clock)
    ensures Next(w, Create(RegenId(clock), TaskOf(Regen(clock)))).rows
         == After(w.rows, Inserted(w.rows, Content("", Some(Regen(clock)))))
  {
    assert StrOr(Regen(clock), "task_id", "") == RegenId(clock);
    InsertRecords(w, Regen(clock), "");
  }

  class SystemModule {
    const tasks: TaskDb
    const anchors: An.AnchorDb
    /** The statements issued so far. */
    ghost var log: seq<Step>

    ghost predicate Valid() reads this, tasks, anchors {
      anchors.Valid() && Play(log).rows == tasks.rows
    }

    constructor ()
      ensures Valid() && fresh(tasks) && fresh(anchors)
      ensures log == [] && tasks.rows == map[] && anchors.rows == []
    {
      tasks := new TaskDb();
      anchors := new An.AnchorDb();
      log := [];
    }

    ghost method Record(s: Step)
      modifies this
      ensures log == old(log) + [s] && Play(log) == Next(Play(old(log)), s)
    {
      PlayStep(log, s);
      log := log + [s];
    }

    /** `create_task`; `s` is the statement as the run knows it. */
    method CreateTask(content: Content, ghost s: Step) returns (r: Result<(), Error>)
      requires Valid()
      requires Next(Play(log), s).rows == After(Play(log).rows, Inserted(Play(log).rows, content))
      modifies this, tasks
      ensures Valid() && log == old(log) + [s]
      ensures tasks.rows == After(old(tasks.rows), Inserted(old(tasks.rows), content))
      ensures r == Told(Inserted(old(tasks.rows), content))
    {
      r := tasks.Create(content);
      Record(s);
    }

    method TransitionTask(id: string, to: Status) returns (r: Result<(), Error>)
      requires Valid()
      modifies this, tasks
      ensures Valid() && log == old(log) + [Move(id, to)]
      ensures tasks.rows == After(old(tasks.rows), Moved(old(tasks.rows), id, to))
      ensures r == Told(Moved(old(tasks.rows), id, to))
    {
      r := tasks.TransitionStatus(id, to);
      Record(Move(id, to));
    }

    /** `pop_plan_head`, as the scheduler calls it. */
    method PopPlanHead(id: string) returns (head: Option<string>)
      requires Valid() && Play(log).hand.None?
      modifies this, tasks
      ensures Valid() && log == old(log) + [Take(id)]
      ensures tasks.rows == Popped(old(tasks.rows), id) && head == Head(old(tasks.rows), id)
    {
      head := tasks.PopPlanHead(id);
      Record(Take(id));
    }

    // ---- The namespace ----

    method Write(path: seq<string>, content: Content) returns (r: Result<(), Error>)
      requires Valid()
      modifies this, tasks
      ensures Valid() && Extends(old(log), log) && OnlyTexts(old(tasks.rows), tasks.rows)
      ensures r.Err? ==> tasks.rows == old(tasks.rows)
      ensures (path == [] || path[0] != "tasks") ==> r == Err(InvalidPath)
      ensures |path| >= 3 && path[0] == "tasks" && path[2] == "description" ==>
                r == Ok(()) && tasks.rows == Described(old(tasks.rows), path[1], content.raw)
      ensures path != [] && path[0] == "tasks" && (|path| <= 2 || path[2] != "description") ==>
                r == Told(Inserted(old(tasks.rows), content))
                && tasks.rows == After(old(tasks.rows), Inserted(old(tasks.rows), content))
    {
      InsertedTexts(tasks.rows, content);
      if |path| >= 3 {
        DescribedTexts(tasks.rows, path[1], content.raw);
      }
      ExtendsOn(log, log, []);
      hide OnlyTexts, TaskOf, StrOr, Play, Next, Described, Inserted, Extends;
      if path == [] {
        return Err(InvalidPath);
      }
      if path[0] != "tasks" {
        return Err(InvalidPath);
      }
      if |path| >= 3 && path[2] == "description" {
        tasks.UpdateDescription(path[1], content.raw);
        DescribeRecords(Play(log), path[1], content.raw);
        ExtendsOn(log, log, [Describe(path[1], content.raw)]);
        Record(Describe(path[1], content.raw));
        return Ok(());
      }
      if content.json.None? {
        NotInserted(tasks.rows, content);
      }
      r := tasks.Create(content);
      if content.json.Some? {
        var v := content.json.value;
        InsertRecords(Play(log), v, content.raw);
        ExtendsOn(log, log, [Create(StrOr(v, "task_id", ""), TaskOf(v))]);
        Record(Create(StrOr(v, "task_id", ""), TaskOf(v)));
      }
    }

    method Patch(path: seq<string>, partial: Content) returns (r: Result<(), Error>)
      requires Valid()
      modifies this, tasks
      ensures Valid() && Extends(old(log), log) && OnlyTexts(old(tasks.rows), tasks.rows)
      ensures |path| == 2 && path[0] == "tasks" && partial.json.Some? ==>
                var t, id := old(tasks.rows), path[1];
                r == Ok(())
                && tasks.rows == if id in t then t[id := t[id].(description := PatchedText(t[id], partial.json.value))]
                   else t
      ensures |path| == 2 && path[0] == "tasks" && partial.json.None? ==>
                r == Err(InvalidJson) && tasks.rows == old(tasks.rows)
      ensures (path == [] || path[0] != "tasks") ==> r == Err(InvalidPath) && tasks.rows == old(tasks.rows)
      ensures |path| >= 3 && path[0] == "tasks" && path[2] == "description" ==>
                r == Ok(()) && tasks.rows == Described(old(tasks.rows), path[1], partial.raw)
      ensures |path| != 2 && path != [] && path[0] == "tasks" && (|path| == 1 || path[2] != "description") ==>
                r == Told(Inserted(old(tasks.rows), partial))
                && tasks.rows == After(old(tasks.rows), Inserted(old(tasks.rows), partial))
    {
      if |path| == 2 && path[0] == "tasks" && partial.json.Some? {
        var id := path[1];
        PatchTexts(tasks.rows, id, partial.json.value);
        ExtendsOn(log, log, []);
        hide Play, PatchedText, OnlyTexts;
        var base := ReadRow(tasks.rows, id);
        var merged := DeepMerge(base, partial.json.value);
        var desc := Member(merged, "description");
        PatchedDescription(tasks.rows, id, partial.json.value);
        if desc.Str? {
          tasks.UpdateDescription(id, desc.s);
          ExtendsOn(log, log, [Describe(id, desc.s)]);
          Record(Describe(id, desc.s));
        }
        return Ok(());
      }
      r := Write(path, partial);
    }

    // ---- Completion ----

    /** `logos_complete`. */
    method CompleteTask(p: Params, clock: Clock) returns (r: Result<CompleteResult, Error>)
      requires Valid()
      modifies this, tasks, anchors
      ensures Valid()
      ensures log == old(log)
              + Statements(old(tasks.rows), p, An.Has(old(anchors.rows), p.taskId, clock.minute), clock)
      ensures p.resumeTaskId == "" ==>
                ClosesAs(old(tasks.rows), old(anchors.rows), p, clock, tasks.rows, anchors.rows, r)
      ensures p.resumeTaskId != "" ==> ResumesAs(old(tasks.rows), old(anchors.rows), p, tasks.rows, anchors.rows, r)
    {
      if p.resumeTaskId == "" {
        CloseKeepsPromise(tasks.rows, anchors.rows, p, clock);
      } else {
        ResumeKeepsPromise(tasks.rows, anchors.rows, p, clock);
      }
      hide ClosesAs, ResumesAs, Completed, CompletedAnchors, Statements, An.Has;
      r := Execute(p, clock);
    }

    method Execute(p: Params, clock: Clock) returns (r: Result<CompleteResult, Error>)
      requires Valid()
      modifies this, tasks, anchors
      ensures Valid()
      ensures var t := old(tasks.rows);
              var taken := An.Has(old(anchors.rows), p.taskId, clock.minute);
              && tasks.rows == Completed(t, p, taken, clock).rows
              && r == Completed(t, p, taken, clock).result
              && log == old(log) + Statements(t, p, taken, clock)
              && anchors.rows == CompletedAnchors(t, old(anchors.rows), p, clock)
    {
      hide Anchors, Resumed, Settled, ResumeSteps, SettleSteps, NewAnchor;
      if p.taskId != "" {
        AnchorsAwake(tasks.rows, p);
        StepsAwake(tasks.rows, p, An.Has(anchors.rows, p.taskId, clock.minute), clock);
        var _ := TransitionTask(p.taskId, Active);
      }
      if p.resumeTaskId != "" {
        r := Resume(p);
        return;
      }
      if p.planTodo != [] && p.taskId != "" {
        r := SleepOnPlan(p, clock);
        return;
      }
      if p.taskId != "" {
        r := Close(p, clock);
        return;
      }
      return Ok(CompleteResult(p.reply, "", p.taskLog, p.taskId));
    }

    method Resume(p: Params) returns (r: Result<CompleteResult, Error>)
      requires Valid() && p.resumeTaskId != ""
      modifies this, tasks
      ensures Valid() && log == old(log) + ResumeSteps(p)
      ensures tasks.rows == Resumed(old(tasks.rows), p).rows && r == Resumed(old(tasks.rows), p).result
    {
      if p.taskId != "" {
        tasks.Delete(p.taskId);
        Record(Delete(p.taskId));
      }
      var moved := TransitionTask(p.resumeTaskId, Active);
      if moved.Err? {
        return Err(moved.error);
      }
      return Ok(CompleteResult(p.reply, "", p.taskLog, p.resumeTaskId));
    }

    method SleepOnPlan(p: Params, clock: Clock) returns (r: Result<CompleteResult, Error>)
      requires Valid() && PlanMode(p)
      requires p.taskId in tasks.rows ==>
          tasks.rows[p.taskId].status == Active || tasks.rows[p.taskId].status == Finished
      modifies this, tasks, anchors
      ensures Valid()
      ensures var t, taken := old(tasks.rows), An.Has(old(anchors.rows), p.taskId, clock.minute);
              && tasks.rows == Settled(t, p, taken, clock).rows && r == Settled(t, p, taken, clock).result
              && log == old(log) + SettleSteps(t, p, taken, clock)
              && anchors.rows == if Anchors(t, p) then NewAnchor(old(anchors.rows), p, clock) else old(anchors.rows)
    {
      if p.taskId in tasks.rows {
        Edges(tasks.rows[p.taskId].status, Sleep);
      }
      tasks.SetPlanTodo(p.taskId, p.planTodo);
      Record(Plan(p.taskId, p.planTodo));
      var slept := TransitionTask(p.taskId, Sleep);
      if slept.Err? {
        return Err(slept.error);
      }
      var anchorId := "";
      if p.anchor && p.taskId != "" {
        var made := anchors.Create(p.taskId, clock.minute, p.summary, p.facts);
        if made.Err? {
          return Err(made.error);
        }
        anchorId := made.value;
      }
      return Ok(CompleteResult(p.reply, anchorId, p.taskLog, p.taskId));
    }

    method Close(p: Params, clock: Clock) returns (r: Result<CompleteResult, Error>)
      requires Valid() && !PlanMode(p) && p.taskId != ""
      requires p.taskId in tasks.rows ==>
          tasks.rows[p.taskId].status == Active || tasks.rows[p.taskId].status == Finished
      modifies this, tasks, anchors
      ensures Valid()
      ensures Outcome(tasks.rows, r) ==
          Settled(old(tasks.rows), p, An.Has(old(anchors.rows), p.taskId, clock.minute), clock)
      ensures log ==
          old(log) + SettleSteps(old(tasks.rows), p, An.Has(old(anchors.rows), p.taskId, clock.minute), clock)
      ensures anchors.rows == if Anchors(old(tasks.rows), p) then NewAnchor(old(anchors.rows), p, clock)
          else old(anchors.rows)
    {
      var to := if p.sleepReason != "" then Sleep else Finished;
      assert to == Goal(p);
      CloseCases(tasks.rows, p, An.Has(anchors.rows, p.taskId, clock.minute), clock);
      hide Regen, RegenId, Next, Play, Inserted, TaskOf, NewAnchor, An.Has, Settled, SettleSteps, Anchors, Moved, Goal,
        PlanMode, An.Unique, After, Told;
      ghost var regen := Create(RegenId(clock), TaskOf(Regen(clock)));
      ghost var before := log;
      var moved := TransitionTask(p.taskId, to);
      if moved.Err? {
        return Err(moved.error);
      }
      if !p.anchor {
        return Ok(CompleteResult(p.reply, "", p.taskLog, p.taskId));
      }
      r := AnchorClose(p, clock);
      assert before + [Move(p.taskId, to)] + [regen] == before + ([Move(p.taskId, to)] + [regen]);
    }

    /** The anchor of a finish or sleep, and the request to regenerate the summary, whose failure is
        only logged. */
    method AnchorClose(p: Params, clock: Clock) returns (r: Result<CompleteResult, Error>)
      requires Valid()
      modifies this, tasks, anchors
      ensures Valid() && anchors.rows == NewAnchor(old(anchors.rows), p, clock)
      ensures An.Has(old(anchors.rows), p.taskId, clock.minute) ==>
                tasks.rows == old(tasks.rows) && r == Err(Sqlite) && log == old(log)
      ensures !An.Has(old(anchors.rows), p.taskId, clock.minute) ==>
                && tasks.rows == After(old(tasks.rows), Inserted(old(tasks.rows), Content("", Some(Regen(clock)))))
                && r == Ok(CompleteResult(p.reply, clock.minute, p.taskLog, p.taskId))
                && log == old(log) + [Create(RegenId(clock), TaskOf(Regen(clock)))]
    {
      assert NewAnchor(anchors.rows, p, clock) ==
        An.Created(anchors.rows, An.Anchor(p.taskId, clock.minute, p.summary, p.facts));
      hide Regen, RegenId, Next, Play, Inserted, TaskOf, NewAnchor, An.Created, An.Has;
      var made := anchors.Create(p.taskId, clock.minute, p.summary, p.facts);
      if made.Err? {
        return Err(made.error);
      }
      RegenRecords(Play(log), clock);
      var _ := CreateTask(Content("", Some(Regen(clock))), Create(RegenId(clock), TaskOf(Regen(clock))));
      return Ok(CompleteResult(p.reply, made.value, p.taskLog, p.taskId));
    }
  }
}
