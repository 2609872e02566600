/** `logos_complete` (crates/logos-system/src/complete.rs) as a function of the task table, and what it
    promises. `taken` says that the task has an anchor of this minute already, so that inserting one fails. */
module Complete {
  import opened Wrappers
  import opened Json
  import opened Tasks
  import opened Plans
  import An = Anchors

  datatype Params = Params(
    taskId: string,
    summary: string,
    reply: string,
    anchor: bool,
    facts: Option<seq<Json>>,
    taskLog: string,
    sleepReason: string,
    resumeTaskId: string,
    planTodo: seq<string>)

  datatype CompleteResult = CompleteResult(reply: string, anchorId: string, taskLog: string, taskId: string)

  /** The clock, in the three formats that a completion prints. */
  datatype Clock = Clock(minute: string, second: string, hour: string)

  datatype Outcome = Outcome(rows: Table, result: Result<CompleteResult, Error>)

  predicate PlanMode(p: Params) {
    p.planTodo != [] && p.taskId != ""
  }

  function Goal(p: Params): Status {
    if PlanMode(p) || p.sleepReason != "" then Sleep else Finished
  }

  function RegenId(clock: Clock): string {
    "regen-summary-" + clock.second
  }

  /** The request for the task that regenerates the short summary. */
  function Regen(clock: Clock): Json {
    Obj(map[
      "task_id" := Str(RegenId(clock)),
      "description" := Str("Regenerate short summary for period " + clock.hour
                           + " (triggered by anchor " + clock.minute + ")"),
      "resource" := Str("logos://memory/*/summary/short"),
      "chat_id" := Str(""),
      "trigger" := Str("anchor")])
  }

  function Awake(t: Table, id: string): Table {
    if id != "" then After(t, Moved(t, id, Active)) else t
  }

  /** The resume path, from the table after auto-activation. */
  function Resumed(awake: Table, p: Params): Outcome {
    var rest := if p.taskId != "" then Removed(awake, p.taskId) else awake;
    match Moved(rest, p.resumeTaskId, Active)
    case Err(e) => Outcome(rest, Err(e))
    case Ok(u) => Outcome(u, Ok(CompleteResult(p.reply, "", p.taskLog, p.resumeTaskId)))
  }

  /** The plan, sleep and finish paths of a named task, from the table after auto-activation. */
  function Settled(awake: Table, p: Params, taken: bool, clock: Clock): Outcome {
    var planned := if PlanMode(p) then Planned(awake, p.taskId, p.planTodo) else awake;
    match Moved(planned, p.taskId, Goal(p))
    case Err(e) => Outcome(planned, Err(e))
    case Ok(u) =>
      if p.anchor && taken then Outcome(u, Err(Sqlite))
      else
        Outcome(if p.anchor && !PlanMode(p) then After(u, Inserted(u, Content("", Some(Regen(clock))))) else u,
                Ok(CompleteResult(p.reply, if p.anchor then clock.minute else "", p.taskLog, p.taskId)))
  }

  function Completed(t: Table, p: Params, taken: bool, clock: Clock): Outcome {
    var awake := Awake(t, p.taskId);
    if p.resumeTaskId != "" then Resumed(awake, p)
    else if p.taskId == "" then Outcome(t, Ok(CompleteResult(p.reply, "", p.taskLog, "")))
    else Settled(awake, p, taken, clock)
  }

  /** Whether a completion gets as far as inserting an anchor. */
  predicate Anchors(t: Table, p: Params) {
    p.anchor && p.taskId in t && t[p.taskId].status != Finished
  }

  /** The statements that a completion issues, in order. */
  function ResumeSteps(p: Params): seq<Step> {
    (if p.taskId != "" then [Delete(p.taskId)] else []) + [Move(p.resumeTaskId, Active)]
  }

  function SettleSteps(t: Table, p: Params, taken: bool, clock: Clock): seq<Step> {
    (if PlanMode(p) then [Plan(p.taskId, p.planTodo)] else [])
    + [Move(p.taskId, Goal(p))]
    + (if Anchors(t, p) && !taken && !PlanMode(p) then [Create(RegenId(clock), TaskOf(Regen(clock)))] else [])
  }

  function Statements(t: Table, p: Params, taken: bool, clock: Clock): seq<Step> {
    (if p.taskId != "" then [Move(p.taskId, Active)] else [])
    + (if p.resumeTaskId != "" then ResumeSteps(p)
       else if p.taskId == "" then []
       else SettleSteps(t, p, taken, clock))
  }

  // ---- Contract ----

  lemma Edges(from: Status, to: Status)
    ensures Allowed(from, to)
       <==> (from == Pending && to == Active) || (from == Active && (to == Finished || to == Sleep)) ||
            (from == Sleep && to == Active)
  {
    assert VALID_TRANSITIONS[0] == (Pending, Active) && VALID_TRANSITIONS[1] == (Active, Finished);
    assert VALID_TRANSITIONS[2] == (Active, Sleep) && VALID_TRANSITIONS[3] == (Sleep, Active);
  }

  /** Every unfinished row is awake after the first statement. */
  lemma AwakeIs(t: Table, id: string)
    requires id != ""
    ensures Awake(t, id) == if id in t && t[id].status != Finished then t[id := t[id].(status := Active)] else t
  {
    if id in t {
      Edges(t[id].status, Active);
      assert t[id].status == Active ==> t[id].(status := Active) == t[id] && t[id := t[id]] == t;
    }
  }

  lemma AnchorsAwake(t: Table, p: Params)
    requires p.taskId != ""
    ensures Anchors(Awake(t, p.taskId), p) == Anchors(t, p)
    ensures Anchors(t, p) ==> Awake(t, p.taskId)[p.taskId].status == Active
  {
    AwakeIs(t, p.taskId);
  }

  lemma StepsAwake(t: Table, p: Params, taken: bool, clock: Clock)
    requires p.taskId != ""
    ensures SettleSteps(Awake(t, p.taskId), p, taken, clock) == SettleSteps(t, p, taken, clock)
    ensures var u := Awake(t, p.taskId);
            p.taskId in u ==> u[p.taskId].status == Active || u[p.taskId].status == Finished
  {
    AwakeIs(t, p.taskId);
  }

  /** The finish and sleep paths, spelled out. */
  lemma CloseCases(t: Table, p: Params, taken: bool, clock: Clock)
    requires !PlanMode(p) && (p.taskId in t ==> t[p.taskId].status == Active || t[p.taskId].status == Finished)
    ensures var m, o := Moved(t, p.taskId, Goal(p)), Settled(t, p, taken, clock);
            var regen, to := Content("", Some(Regen(clock))), Move(p.taskId, Goal(p));
            && (Told(m).Ok? && p.anchor <==> Anchors(t, p))
            && (Told(m).Err? ==>
               o == Outcome(After(t, m), Err(Told(m).error)) && SettleSteps(t, p, taken, clock) == [to])
            && (Told(m).Ok? && !p.anchor ==>
                  && o == Outcome(After(t, m), Ok(CompleteResult(p.reply, "", p.taskLog, p.taskId)))
                  && SettleSteps(t, p, taken, clock) == [to])
            && (Told(m).Ok? && p.anchor && taken ==>
                  o == Outcome(After(t, m), Err(Sqlite)) && SettleSteps(t, p, taken, clock) == [to])
            && (Told(m).Ok? && p.anchor && !taken ==>
                  && o == Outcome(After(After(t, m), Inserted(After(t, m), regen)),
                                  Ok(CompleteResult(p.reply, clock.minute, p.taskLog, p.taskId)))
                  && SettleSteps(t, p, taken, clock) == [to] + [Create(RegenId(clock), TaskOf(Regen(clock)))])
  {
    Edges(Active, Goal(p));
    Edges(Finished, Goal(p));
    hide Regen, RegenId, Inserted, TaskOf;
  }

  /** What the row of a task becomes when its completion gets through. */
  function Closed(row: Task, p: Params): Task {
    row.(status := Goal(p), planTodo := if PlanMode(p) then p.planTodo else row.planTodo)
  }

  /** The whole table after a completion that names a task and no resume target: missing tasks change
      nothing, finished ones at most their plan, all others reach their goal; a regeneration task may come. */
  lemma CompletionTable(t: Table, p: Params, taken: bool, clock: Clock)
    requires p.resumeTaskId == "" && p.taskId != ""
    ensures var o, id := Completed(t, p, taken, clock), p.taskId;
            o.rows == if id !in t then t
                      else if t[id].status == Finished then t[id := t[id].(planTodo := Closed(t[id], p).planTodo)]
                      else
                        var u := t[id := Closed(t[id], p)];
                        if p.anchor && !taken && !PlanMode(p) && RegenId(clock) !in u
                        then u[RegenId(clock) := TaskOf(Regen(clock))] else u
    ensures Completed(t, p, taken, clock).result
         == if p.taskId !in t then Err(Sqlite)
            else if t[p.taskId].status == Finished then Err(InvalidPath)
            else if p.anchor && taken then Err(Sqlite)
            else Ok(CompleteResult(p.reply, if p.anchor then clock.minute else "", p.taskLog, p.taskId))
  {
    var id := p.taskId;
    AwakeIs(t, id);
    Edges(Active, Goal(p));
    Edges(Finished, Goal(p));
    if id in t {
      assert t[id := t[id]] == t;
      assert t[id].(planTodo := t[id].planTodo) == t[id];
      assert StrOr(Regen(clock), "task_id", "") == RegenId(clock);
      hide Regen, RegenId;
    }
  }

  /** No resume: a completion succeeds exactly for an unfinished task whose anchor, if wanted, can be
      inserted; it then sleeps or is finished, and nothing else changes but a new pending task. */
  lemma CompletionContract(t: Table, p: Params, taken: bool, clock: Clock)
    requires p.resumeTaskId == "" && p.taskId != ""
    ensures var o, id := Completed(t, p, taken, clock), p.taskId;
            && (o.result.Ok? <==> id in t && t[id].status != Finished && !(p.anchor && taken))
            && (o.result.Ok? ==> id in o.rows && o.rows[id].status == Goal(p))
            && (id in t && t[id].status == Finished ==> id in o.rows && o.rows[id].status == Finished)
            && (forall x :: x in t && x != id ==> x in o.rows && o.rows[x] == t[x])
            && (forall x :: x in o.rows && x !in t ==> x == RegenId(clock) && o.rows[x].status == Pending)
  {
    CompletionTable(t, p, taken, clock);
    hide Completed, Regen, RegenId;
  }

  /** Resume: it succeeds exactly for another task that is pending or asleep. The current task is gone
      either way. */
  lemma ResumeContract(t: Table, p: Params, taken: bool, clock: Clock)
    requires p.resumeTaskId != ""
    ensures var o, r := Completed(t, p, taken, clock), p.resumeTaskId;
            var rest := if p.taskId != "" then t - {p.taskId} else t;
            && (o.result.Ok? <==> r in t && r != p.taskId && (t[r].status == Pending || t[r].status == Sleep))
            && (o.result.Ok? ==> o.result == Ok(CompleteResult(p.reply, "", p.taskLog, r)))
            && (o.result.Err? ==> o.result.error == if r in t && r != p.taskId then InvalidPath else Sqlite)
            && o.rows == if o.result.Ok? && r in rest then rest[r := rest[r].(status := Active)] else rest
  {
    var r := p.resumeTaskId;
    if p.taskId != "" {
      AwakeIs(t, p.taskId);
      assert Removed(Awake(t, p.taskId), p.taskId) == t - {p.taskId};
    }
    if r in t {
      Edges(t[r].status, Active);
    }
  }

  // ---- What a failing completion leaves behind ----

  /** The anchors after a completion asked for one. */
  function NewAnchor(rows: An.Rows, p: Params, clock: Clock): An.Rows {
    An.Created(rows, An.Anchor(p.taskId, clock.minute, p.summary, p.facts))
  }

  /** The anchors after a completion. */
  function CompletedAnchors(t: Table, rows: An.Rows, p: Params, clock: Clock): An.Rows {
    if p.taskId != "" && p.resumeTaskId == "" && Anchors(t, p) then NewAnchor(rows, p, clock) else rows
  }

  predicate AnchorTaken(rows: An.Rows, p: Params, clock: Clock) {
    An.Has(rows, p.taskId, clock.minute)
  }

  // ---- The whole promise, in terms of the call alone ----

  /** The row of the regeneration task. */
  ghost predicate RegenerationRow(id: string, row: Task, clock: Clock) {
    && id == "regen-summary-" + clock.second
    && row.description
       == "Regenerate short summary for period " + clock.hour + " (triggered by anchor " + clock.minute + ")"
    && row.resource == "logos://memory/*/summary/short" && row.trigger == "anchor"
    && row.status == Pending && row.planTodo == []
    && row.workspace == "" && row.chatId == "" && row.planParent == ""
  }

  /** Nothing but the named row changed, and at most the regeneration task is new. */
  ghost predicate OthersKept(t: Table, next: Table, id: string, clock: Clock, regen: bool) {
    && (forall x :: x in t && x != id ==> x in next && next[x] == t[x])
    && (forall x :: x in next && x !in t ==> regen && RegenerationRow(x, next[x], clock))
    && (regen ==> "regen-summary-" + clock.second in next)
  }

  /** The row of an unfinished task that was completed: asleep if there is a plan or a reason to sleep, and
      finished otherwise; a plan is stored. */
  ghost predicate ClosedRow(before: Task, after: Task, p: Params) {
    && after.status == (if p.planTodo == [] && p.sleepReason == "" then Finished else Sleep)
    && after.planTodo == (if p.planTodo == [] then before.planTodo else p.planTodo)
    && after.(status := before.status, planTodo := before.planTodo) == before
  }

  ghost predicate HasAnchor(rows: An.Rows, id: string, minute: string) {
    exists i :: 0 <= i < |rows| && rows[i].taskId == id && rows[i].id == minute
  }

  /** What a completion without resume does to table and anchors, and what it answers. */
  ghost predicate ClosesAs(t: Table, rows: An.Rows, p: Params, clock: Clock,
                           next: Table, nextRows: An.Rows, r: Result<CompleteResult, Error>)
  {
    var id := p.taskId;
    if id == "" then
      next == t && nextRows == rows && r == Ok(CompleteResult(p.reply, "", p.taskLog, ""))
    else if id !in t then
      next == t && nextRows == rows && r == Err(Sqlite)
    else if t[id].status == Finished then
      && r == Err(InvalidPath) && nextRows == rows && OthersKept(t, next, id, clock, false)
      && id in next && next[id] == t[id].(planTodo := if p.planTodo == [] then t[id].planTodo else p.planTodo)
    else
      var failed := p.anchor && HasAnchor(rows, id, clock.minute);
      && id in next && ClosedRow(t[id], next[id], p)
      && OthersKept(t, next, id, clock, p.anchor && !failed && p.planTodo == [])
      && (if p.anchor then An.CreatesAs(rows, An.Anchor(id, clock.minute, p.summary, p.facts), nextRows)
         else nextRows == rows)
      && r == if failed then Err(Sqlite)
              else Ok(CompleteResult(p.reply, if p.anchor then clock.minute else "", p.taskLog, id))
  }

  /** What a resume does, and what it answers. */
  ghost predicate ResumesAs(t: Table, rows: An.Rows, p: Params,
                            next: Table, nextRows: An.Rows, r: Result<CompleteResult, Error>)
  {
    var target := p.resumeTaskId;
    var rest := if p.taskId != "" then t - {p.taskId} else t;
    && nextRows == rows
    && if target !in rest then next == rest && r == Err(Sqlite)
       else if rest[target].status == Pending || rest[target].status == Sleep then
         next == rest[target := rest[target].(status := Active)]
         && r == Ok(CompleteResult(p.reply, "", p.taskLog, target))
       else next == rest && r == Err(InvalidPath)
  }

  lemma RegenRow(clock: Clock)
    ensures RegenerationRow(RegenId(clock), TaskOf(Regen(clock)), clock)
  {
    var v := Regen(clock);
    assert StrOr(v, "description", "") == "Regenerate short summary for period " + clock.hour
                                          + " (triggered by anchor " + clock.minute + ")";
    assert StrOr(v, "resource", "") == "logos://memory/*/summary/short" &&
      StrOr(v, "trigger", "user_message") == "anchor";
    assert StrOr(v, "workspace", "") == "" && StrOr(v, "chat_id", "") == "" && StrOr(v, "plan_parent", "") == "";
    hide Regen, StrOr;
  }

  /** An existing task under the name of the regeneration task is not touched. */
  lemma KeptWith(t: Table, id: string, row: Task, clock: Clock, regen: bool, rid: string, newRow: Task)
    requires id in t && RegenerationRow(rid, newRow, clock)
    ensures var u := t[id := row];
            var next := if regen && rid !in u then u[rid := newRow] else u;
            OthersKept(t, next, id, clock, regen) && id in next && next[id] == row
  {
    assert rid == "regen-summary-" + clock.second;
    hide RegenerationRow;
  }

  lemma CompletionOthers(t: Table, p: Params, taken: bool, clock: Clock)
    requires p.resumeTaskId == "" && p.taskId != "" && p.taskId in t && t[p.taskId].status != Finished
    ensures var next := Completed(t, p, taken, clock).rows;
            && p.taskId in next && ClosedRow(t[p.taskId], next[p.taskId], p)
            && OthersKept(t, next, p.taskId, clock, p.anchor && !taken && p.planTodo == [])
  {
    var id := p.taskId;
    var row := Closed(t[id], p);
    assert ClosedRow(t[id], row, p) && (PlanMode(p) <==> p.planTodo != []);
    hide Completed, Regen, RegenId, RegenerationRow, TaskOf, ClosedRow, Closed, OthersKept, PlanMode;
    CompletionTable(t, p, taken, clock);
    RegenRow(clock);
    KeptWith(t, id, row, clock, p.anchor && !taken && p.planTodo == [], RegenId(clock), TaskOf(Regen(clock)));
  }

  lemma CloseUnfinished(t: Table, rows: An.Rows, p: Params, clock: Clock)
    requires p.resumeTaskId == "" && p.taskId != "" && p.taskId in t && t[p.taskId].status != Finished
    ensures var o := Completed(t, p, AnchorTaken(rows, p, clock), clock);
            ClosesAs(t, rows, p, clock, o.rows, CompletedAnchors(t, rows, p, clock), o.result)
  {
    var taken := AnchorTaken(rows, p, clock);
    assert taken <==> HasAnchor(rows, p.taskId, clock.minute);
    An.CreatedAs(rows, An.Anchor(p.taskId, clock.minute, p.summary, p.facts));
    assert CompletedAnchors(t, rows, p, clock)
        == if p.anchor then An.Created(rows, An.Anchor(p.taskId, clock.minute, p.summary, p.facts)) else rows;
    hide Completed, OthersKept, ClosedRow, An.CreatesAs, An.Created, HasAnchor, AnchorTaken, CompletedAnchors;
    CompletionTable(t, p, taken, clock);
    CompletionOthers(t, p, taken, clock);
  }

  lemma CloseOther(t: Table, rows: An.Rows, p: Params, clock: Clock)
    requires p.resumeTaskId == "" && !(p.taskId != "" && p.taskId in t && t[p.taskId].status != Finished)
    ensures var o := Completed(t, p, AnchorTaken(rows, p, clock), clock);
            ClosesAs(t, rows, p, clock, o.rows, CompletedAnchors(t, rows, p, clock), o.result)
  {
    var taken, id := AnchorTaken(rows, p, clock), p.taskId;
    assert CompletedAnchors(t, rows, p, clock) == rows;
    hide AnchorTaken, CompletedAnchors, HasAnchor;
    if id != "" {
      CompletionTable(t, p, taken, clock);
      hide Completed;
    }
  }

  lemma CloseKeepsPromise(t: Table, rows: An.Rows, p: Params, clock: Clock)
    requires p.resumeTaskId == ""
    ensures var o := Completed(t, p, AnchorTaken(rows, p, clock), clock);
            ClosesAs(t, rows, p, clock, o.rows, CompletedAnchors(t, rows, p, clock), o.result)
  {
    hide Completed, AnchorTaken, CompletedAnchors, ClosesAs;
    if p.taskId != "" && p.taskId in t && t[p.taskId].status != Finished {
      CloseUnfinished(t, rows, p, clock);
    } else {
      CloseOther(t, rows, p, clock);
    }
  }

  lemma ResumeKeepsPromise(t: Table, rows: An.Rows, p: Params, clock: Clock)
    requires p.resumeTaskId != ""
    ensures var o := Completed(t, p, AnchorTaken(rows, p, clock), clock);
            ResumesAs(t, rows, p, o.rows, CompletedAnchors(t, rows, p, clock), o.result)
  {
    ResumeContract(t, p, AnchorTaken(rows, p, clock), clock);
    hide Completed, AnchorTaken;
  }

  /** The row says already what marking would write into it. */
  predicate SaysSo(a: An.Anchor, newer: string) {
    a.facts.Some? && forall k :: 0 <= k < |a.facts.value| ==> FactSaysSo(a.facts.value[k], newer)
  }

  predicate FactSaysSo(fact: Json, newer: string) {
    fact.Obj? ==> An.Superseded(fact) && An.LinkOf(fact) == Some(newer)
  }

  /** The caller can tell beforehand whether a failing completion would leave a trace. In the task table: a
      resume of nothing deletes the current row, a plan is stored before the status is checked, and the
      status is changed before the anchor is inserted. */
  predicate TracelessTask(t: Table, p: Params) {
    var id := p.taskId;
    if id == "" || id !in t then true
    else if p.resumeTaskId != "" then false
    else Closed(t[id], p).planTodo == t[id].planTodo && (t[id].status == Finished || t[id].status == Goal(p))
  }

  /** Among the anchors: what the facts supersede is marked before the insertion. */
  predicate TracelessAnchors(t: Table, rows: An.Rows, p: Params, clock: Clock) {
    p.taskId != "" && p.resumeTaskId == "" && Anchors(t, p) ==>
      forall i :: 0 <= i < |rows| && An.NamedBy(An.Listed(p.facts), rows[i]) ==>
        SaysSo(rows[i], An.Uri(p.taskId, clock.minute))
  }

  lemma FactUnmarked(fact: Json, newer: string)
    ensures An.MarkFact(fact, newer) == fact <==> FactSaysSo(fact, newer)
  {
    if fact.Obj? {
      var f := An.MarkFact(fact, newer).fields;
      assert f["status"] == Str("superseded") && f["superseded_by"] == Str(newer);
      assert FactSaysSo(fact, newer) ==> f == fact.fields;
    }
  }

  lemma RowUnmarked(a: An.Anchor, newer: string)
    ensures An.MarkRow(a, newer) == a <==> SaysSo(a, newer)
  {
    if a.facts.Some? {
      var facts := a.facts.value;
      var marked := An.MarkFacts(facts, newer);
      forall k | 0 <= k < |facts| ensures marked[k] == facts[k] <==> FactSaysSo(facts[k], newer) {
        FactUnmarked(facts[k], newer);
      }
      hide An.MarkFacts, FactSaysSo;
      assert marked == facts <==> SaysSo(a, newer);
    }
  }

  lemma AnchorsUnmarked(t: Table, rows: An.Rows, p: Params, clock: Clock)
    requires AnchorTaken(rows, p, clock)
    ensures CompletedAnchors(t, rows, p, clock) == rows <==> TracelessAnchors(t, rows, p, clock)
  {
    var uris, newer := An.Listed(p.facts), An.Uri(p.taskId, clock.minute);
    var marked := An.Marked(rows, uris, newer);
    forall i | 0 <= i < |rows|
      ensures marked[i] == rows[i] <==> (An.NamedBy(uris, rows[i]) ==> SaysSo(rows[i], newer))
    {
      RowUnmarked(rows[i], newer);
    }
    assert |marked| == |rows|;
    assert NewAnchor(rows, p, clock) == marked;
    hide An.Marked, SaysSo, NewAnchor, An.Listed, An.Uri;
  }

  /** The documentation calls the completion atomic. On errors it leaves task rows and anchor rows as they
      were exactly for these calls. */
  lemma AtomicIff(t: Table, rows: An.Rows, p: Params, clock: Clock)
    requires Completed(t, p, AnchorTaken(rows, p, clock), clock).result.Err?
    ensures Completed(t, p, AnchorTaken(rows, p, clock), clock).rows == t && CompletedAnchors(t, rows, p, clock) == rows
       <==> TracelessTask(t, p) && TracelessAnchors(t, rows, p, clock)
  {
    hide TracelessAnchors, NewAnchor, Completed;
    TaskUnchanged(t, p, AnchorTaken(rows, p, clock), clock);
    if p.taskId != "" && p.resumeTaskId == "" && Anchors(t, p) {
      CompletionTable(t, p, AnchorTaken(rows, p, clock), clock);
      AnchorsUnmarked(t, rows, p, clock);
    } else {
      NoAnchors(t, rows, p, clock);
    }
  }

  lemma NoAnchors(t: Table, rows: An.Rows, p: Params, clock: Clock)
    requires !(p.taskId != "" && p.resumeTaskId == "" && Anchors(t, p))
    ensures CompletedAnchors(t, rows, p, clock) == rows && TracelessAnchors(t, rows, p, clock)
  {
  }

  lemma TaskUnchanged(t: Table, p: Params, taken: bool, clock: Clock)
    requires Completed(t, p, taken, clock).result.Err?
    ensures Completed(t, p, taken, clock).rows == t <==> TracelessTask(t, p)
  {
    var o, id := Completed(t, p, taken, clock), p.taskId;
    if p.resumeTaskId != "" {
      ResumeContract(t, p, taken, clock);
      assert id in t && id != "" ==> id !in o.rows;
      assert id !in t ==> t - {id} == t;
    } else {
      CompletionTable(t, p, taken, clock);
      if id in t {
        assert o.rows == t ==> o.rows[id] == t[id];
        assert t[id := t[id]] == t;
      }
    }
  }

  /** Two anchors, and a call for the task of the first that supersedes the second. */
  function TwoAnchors(fact: Json, clock: Clock): An.Rows {
    [An.Anchor("a", clock.minute, "", Some([])), An.Anchor("b", "n", "", Some([fact]))]
  }

  function SleepAgain(): Params {
    Params("a", "", "", true, Some([Obj(map["supersedes" := Str(An.Uri("b", "n"))])]), "", "later", "", [])
  }

  lemma NamesOther(fact: Json, clock: Clock)
    requires fact.Obj? && An.LinkOf(fact).None?
    ensures var other := TwoAnchors(fact, clock)[1];
            && An.NamedBy(An.Listed(SleepAgain().facts), other)
            && !SaysSo(other, An.Uri("a", clock.minute))
  {
    var other := TwoAnchors(fact, clock)[1];
    An.UriRoundTrip("b", "n");
    OneTarget(SleepAgain().facts.value, An.Uri("b", "n"), other);
    assert other.facts.value[0] == fact && !FactSaysSo(fact, An.Uri("a", clock.minute));
    hide An.Listed, An.NamedBy, FactSaysSo;
  }

  lemma SleepsAgain(row: Task, fact: Json, clock: Clock)
    requires row.status == Sleep
    ensures var p, t: Table := SleepAgain(), map["a" := row];
            && AnchorTaken(TwoAnchors(fact, clock), p, clock) && Anchors(t, p) && Goal(p) == Sleep && !PlanMode(p)
            && p.taskId == "a" && p.resumeTaskId == "" && p.anchor && TracelessTask(t, p)
  {
    var rows := TwoAnchors(fact, clock);
    assert rows[0].taskId == "a" && rows[0].id == clock.minute;
  }

  /** A sleeping task that already has an anchor of this minute, put to sleep again with an anchor that
      supersedes another one: the task table comes out as it was, the insertion fails, and the other anchor
      is superseded by an anchor that says nothing of it. */
  lemma FailureMarks(row: Task, fact: Json, clock: Clock)
    requires row.status == Sleep && fact.Obj? && An.LinkOf(fact).None?
    ensures var p, t: Table, rows := SleepAgain(), map["a" := row], TwoAnchors(fact, clock);
            var o := Completed(t, p, AnchorTaken(rows, p, clock), clock);
            && o.result == Err(Sqlite) && o.rows == t && TracelessTask(t, p)
            && CompletedAnchors(t, rows, p, clock) != rows && !TracelessAnchors(t, rows, p, clock)
  {
    var p, t: Table, rows := SleepAgain(), map["a" := row], TwoAnchors(fact, clock);
    assert |rows| == 2;
    hide Completed, CompletedAnchors, TwoAnchors, SleepAgain, An.Listed, An.Uri, An.NamedBy, SaysSo, AnchorTaken,
      TracelessTask;
    SleepsAgain(row, fact, clock);
    NamesOther(fact, clock);
    CompletionTable(t, p, true, clock);
    TaskUnchanged(t, p, true, clock);
    AnchorsUnmarked(t, rows, p, clock);
  }

  lemma OneTarget(facts: seq<Json>, uri: string, a: An.Anchor)
    requires facts == [Obj(map["supersedes" := Str(uri)])] && An.Names(uri, a)
    ensures An.NamedBy(An.Listed(Some(facts)), a)
  {
    assert An.Supersedes(facts[0]) == [uri];
    assert facts[..0] == [] && An.Targets(facts[..0]) == [];
    assert An.Targets(facts) == [] + [uri] == [uri];
    assert [uri][0] == uri;
  }
}
