/** One tick of the plan scheduler (crates/logos-kernel/src/cron.rs), and what it does to the plans and to
    the number of executors. */
module Scheduler {
  import opened Wrappers
  import opened Json
  import opened Tasks
  import opened Plans
  import opened System

  function ExecutorJson(planner: string, item: string, ts: string): Json {
    Obj(map[
      "task_id" := Str(ExecutorId(planner, ts)),
      "description" := Str(item),
      "chat_id" := Str(""),
      "trigger" := Str("plan"),
      "plan_parent" := Str(planner)])
  }

  /** The sleeping planners with a plan and without an active executor. */
  function Unblocked(t: Table): set<string> {
    set p | p in PlanPending(t) && !ActiveExecutor(t, p)
  }

  /** A planner's row after its turn. */
  function Shortened(row: Task, served: bool): Task {
    if served && row.planTodo != [] then row.(planTodo := row.planTodo[1..]) else row
  }

  predicate Kept(t: Table, u: Table, ps: set<string>) {
    forall id :: id in t ==> id in u && u[id] == Shortened(t[id], id in ps)
  }

  /** The head of the plan became a new pending executor. */
  predicate Made(t: Table, u: Table, p: string, ts: string) {
    && p in t && t[p].planTodo != []
    && ExecutorId(p, ts) !in t && ExecutorId(p, ts) in u
    && var row := u[ExecutorId(p, ts)];
       row.description == t[p].planTodo[0] && row.planParent == p && row.trigger == "plan"
       && row.status == Pending && row.planTodo == [] && row.chatId == "" && row.workspace == "" && row.resource == ""
  }

  ghost predicate Named(ps: set<string>, stamp: string -> string, id: string) {
    exists p :: p in ps && id == ExecutorId(p, stamp(p))
  }

  /** `u` is `t` after each planner of `ps` gave the head of its plan to a new executor. */
  ghost predicate Dispatched(t: Table, u: Table, ps: set<string>, stamp: string -> string) {
    && Kept(t, u, ps)
    && (forall p :: p in ps ==> Made(t, u, p, stamp(p)))
    && (forall id :: id in u && id !in t ==> Named(ps, stamp, id))
  }

  ghost predicate Fixed(stamp: string -> string) {
    forall p :: |stamp(p)| == 15
  }

  lemma InsertedExecutor(t: Table, planner: string, item: string, ts: string)
    ensures Inserted(t, Content("", Some(ExecutorJson(planner, item, ts))))
         == if ExecutorId(planner, ts) in t then Err(Sqlite)
           else Ok(t[ExecutorId(planner, ts) := Executor(planner, item)])
  {
    var v := ExecutorJson(planner, item, ts);
    assert StrOr(v, "task_id", "") == ExecutorId(planner, ts);
    assert TaskOf(v) == Executor(planner, item);
  }

  lemma LaunchRecords(w: World, ts: string)
    requires w.hand.Some? && w.hand.value.plan < |w.plans|
    ensures var h := w.hand.value;
            Launched(w, ts).rows ==
              After(w.rows, Inserted(w.rows, Content("", Some(ExecutorJson(h.planner, h.item, ts)))))
  {
    InsertedExecutor(w.rows, w.hand.value.planner, w.hand.value.item, ts);
    hide ExecutorJson, Inserted;
  }

  lemma NewRow(t: Table, u: Table, ps: set<string>, stamp: string -> string, id: string)
    requires Dispatched(t, u, ps, stamp) && id in u && id !in t
    ensures u[id].status == Pending && u[id].planTodo == []
    ensures u[id].planParent in ps && id == ExecutorId(u[id].planParent, stamp(u[id].planParent))
  {
    assert Named(ps, stamp, id);
    var p :| p in ps && id == ExecutorId(p, stamp(p));
    assert Made(t, u, p, stamp(p));
  }

  lemma SameRow(t: Table, u: Table, ps: set<string>, stamp: string -> string, id: string)
    requires Dispatched(t, u, ps, stamp) && id in t
    ensures id in u && u[id].status == t[id].status && u[id].planParent == t[id].planParent
    ensures u[id].planTodo == if id in ps && t[id].planTodo != [] then t[id].planTodo[1..] else t[id].planTodo
  {
  }

  /** Executors of a tick are pending, so they do not block the planners that come later in it. */
  lemma SameGuard(t: Table, u: Table, ps: set<string>, stamp: string -> string, p: string)
    requires Dispatched(t, u, ps, stamp)
    ensures ActiveExecutor(u, p) <==> ActiveExecutor(t, p)
  {
    forall id | id in u && u[id].status == Active
      ensures id in t && t[id].status == Active && t[id].planParent == u[id].planParent
    {
      if id in t {
        SameRow(t, u, ps, stamp, id);
      } else {
        NewRow(t, u, ps, stamp, id);
      }
    }
    forall id | id in t ensures id in u && u[id].status == t[id].status && u[id].planParent == t[id].planParent {
      SameRow(t, u, ps, stamp, id);
    }
    hide Dispatched;
  }

  lemma NewId(t: Table, u: Table, ps: set<string>, stamp: string -> string, p: string)
    requires Dispatched(t, u, ps, stamp) && Fixed(stamp) && p !in ps
    ensures ExecutorId(p, stamp(p)) in u <==> ExecutorId(p, stamp(p)) in t
  {
    var id := ExecutorId(p, stamp(p));
    if id in t {
      SameRow(t, u, ps, stamp, id);
    } else if id in u {
      NewRow(t, u, ps, stamp, id);
      ExecutorIdInjective(p, stamp(p), u[id].planParent, stamp(u[id].planParent));
    }
  }

  lemma MadeStays(t: Table, u: Table, v: Table, p: string, ts: string, q: string, us: string)
    requires |ts| == 15 && |us| == 15 && p != q && Made(t, u, q, us)
    requires forall id :: id in u && id != p && id != ExecutorId(p, ts) ==> id in v && v[id] == u[id]
    requires p in t
    ensures Made(t, v, q, us)
  {
    if ExecutorId(q, us) == ExecutorId(p, ts) {
      ExecutorIdInjective(p, ts, q, us);
    }
    hide ExecutorId, Executor;
  }

  /** `v` is `u` with the row of `p` shortened and the row `id` added. */
  predicate OneMore(t: Table, u: Table, v: Table, p: string, id: string) {
    && p in t && id !in t && v.Keys == u.Keys + {id}
    && p in v && v[p] == Shortened(t[p], true)
    && forall x :: x in u && x != p && x != id ==> x in v && v[x] == u[x]
  }

  lemma KeptOne(t: Table, u: Table, v: Table, ps: set<string>, p: string, id: string)
    requires Kept(t, u, ps) && OneMore(t, u, v, p, id)
    ensures Kept(t, v, ps + {p})
  {
    hide Shortened;
  }

  lemma NamedOne(t: Table, u: Table, v: Table, ps: set<string>, stamp: string -> string, p: string)
    requires OneMore(t, u, v, p, ExecutorId(p, stamp(p)))
    requires forall id :: id in u && id !in t ==> Named(ps, stamp, id)
    ensures forall id :: id in v && id !in t ==> Named(ps + {p}, stamp, id)
  {
    assert p in ps + {p};
    forall id | id in v && id !in t ensures Named(ps + {p}, stamp, id) {
      if id in u {
        assert Named(ps, stamp, id);
        var q :| q in ps && id == ExecutorId(q, stamp(q));
        assert q in ps + {p};
      }
    }
  }

  lemma DispatchOne(t: Table, u: Table, v: Table, ps: set<string>, stamp: string -> string, p: string)
    requires Dispatched(t, u, ps, stamp) && Fixed(stamp)
    requires p in t && t[p].planTodo != [] && p !in ps
    requires OneMore(t, u, v, p, ExecutorId(p, stamp(p)))
    requires v[ExecutorId(p, stamp(p))] == Executor(p, t[p].planTodo[0])
    ensures Dispatched(t, v, ps + {p}, stamp)
  {
    var id := ExecutorId(p, stamp(p));
    assert Made(t, v, p, stamp(p));
    KeptOne(t, u, v, ps, p, id);
    NamedOne(t, u, v, ps, stamp, p);
    hide Kept, Named, Executor, Shortened;
    forall q | q in ps ensures Made(t, v, q, stamp(q)) {
      MadeStays(t, u, v, p, stamp(p), q, stamp(q));
    }
  }

  lemma PopOne(t: Table, u: Table, ps: set<string>, p: string, id: string, row: Task)
    requires Kept(t, u, ps) && p in t && t[p].planTodo != [] && p !in ps && id !in u && id !in t
    ensures OneMore(t, u, Popped(u, p)[id := row], p, id)
  {
    assert u[p] == t[p];
  }

  lemma Turn(t: Table, rest: set<string>, p: string)
    requires rest <= PlanPending(t) && p in rest
    ensures p in Unblocked(t) <==> !ActiveExecutor(t, p)
    ensures Unblocked(t) - (rest - {p}) == Unblocked(t) - rest + if ActiveExecutor(t, p) then {} else {p}
  {
  }

  /** Where a tick that fails stops: the planners before it were served, and it lost its head. */
  ghost predicate Aborted(t: Table, now: Table, ps: set<string>, stamp: string -> string, p: string) {
    && p in Unblocked(t) && p !in ps && ExecutorId(p, stamp(p)) in t
    && exists u :: Dispatched(t, u, ps, stamp) && now == Popped(u, p)
  }

  predicate AllFresh(t: Table, stamp: string -> string) {
    forall p :: p in Unblocked(t) ==> ExecutorId(p, stamp(p)) !in t
  }

  lemma ServedFresh(t: Table, u: Table, stamp: string -> string)
    requires Dispatched(t, u, Unblocked(t), stamp)
    ensures AllFresh(t, stamp)
  {
    forall p | p in Unblocked(t) ensures ExecutorId(p, stamp(p)) !in t {
      assert Made(t, u, p, stamp(p));
    }
  }

  lemma NobodyServed(t: Table, stamp: string -> string)
    ensures Dispatched(t, t, {}, stamp) && Unblocked(t) - PlanPending(t) == {}
  {
  }

  lemma TakeGives(w: World, p: string, t: Table, ps: set<string>, stamp: string -> string)
    requires w.hand.None? && Filed(w) && Dispatched(t, w.rows, ps, stamp) && p in Unblocked(t) && p !in ps
    ensures p in t && t[p].planTodo != [] && Head(w.rows, p) == Some(t[p].planTodo[0])
    ensures var v := Next(w, Take(p));
            && v.rows == Popped(w.rows, p)
            && v.hand.Some? && v.hand.value.planner == p && v.hand.value.item == t[p].planTodo[0]
            && v.hand.value.plan < |v.plans|
  {
    SameRow(t, w.rows, ps, stamp, p);
  }

  lemma LaunchEnds(w: World, ts: string)
    ensures Next(w, Launch(ts)) == Launched(w, ts) && Launched(w, ts).hand.None?
  {
  }

  /** The two statements of a turn, in the run. */
  lemma TurnSteps(
    log: seq<Step>, p: string, ts: string, t: Table, ps: set<string>, stamp: string -> string)
    requires Play(log).hand.None? && Dispatched(t, Play(log).rows, ps, stamp) && p in Unblocked(t) && p !in ps
    ensures p in t && t[p].planTodo != [] && Head(Play(log).rows, p) == Some(t[p].planTodo[0])
    ensures var w := Play(log + [Take(p)]);
            && w.rows == Popped(Play(log).rows, p)
            && Next(w, Launch(ts)).rows
               == After(w.rows, Inserted(w.rows, Content("", Some(ExecutorJson(p, t[p].planTodo[0], ts)))))
            && Play(log + [Take(p)] + [Launch(ts)]).hand.None?
  {
    PlansInOrder(log);
    TakeGives(Play(log), p, t, ps, stamp);
    PlayStep(log, Take(p));
    PlayStep(log + [Take(p)], Launch(ts));
    LaunchRecords(Play(log + [Take(p)]), ts);
    LaunchEnds(Play(log + [Take(p)]), ts);
    hide Dispatched, Unblocked, Play, Next, Launched, Inserted, ExecutorJson, Filed, InOrder, Popped, Head;
  }

  lemma ServeEnds(t: Table, u: Table, v: Table, ps: set<string>, stamp: string -> string, p: string)
    requires Dispatched(t, u, ps, stamp) && Fixed(stamp) && p in Unblocked(t) && p !in ps
    requires p in t && t[p].planTodo != []
    requires var id, popped := ExecutorId(p, stamp(p)), Popped(u, p);
             v == if id in popped then popped else popped[id := Executor(p, t[p].planTodo[0])]
    ensures ExecutorId(p, stamp(p)) !in Popped(u, p) ==> Dispatched(t, v, ps + {p}, stamp)
    ensures ExecutorId(p, stamp(p)) in Popped(u, p) ==> !AllFresh(t, stamp) && Aborted(t, v, ps, stamp, p)
  {
    SameRow(t, u, ps, stamp, p);
    NewId(t, u, ps, stamp, p);
    var id := ExecutorId(p, stamp(p));
    assert Popped(u, p).Keys == u.Keys;
    if id !in u {
      PopOne(t, u, ps, p, id, Executor(p, t[p].planTodo[0]));
    }
    hide Dispatched, Unblocked, ExecutorId, Popped, Executor, OneMore;
    if id !in u {
      DispatchOne(t, u, v, ps, stamp, p);
    }
  }

  /** `CronScheduler`, as far as it schedules plans. */
  class CronScheduler {
    const system: SystemModule

    /** Between two turns the scheduler holds no item. */
    ghost predicate Idle() reads system, system.tasks, system.anchors {
      system.Valid() && Play(system.log).hand.None?
    }

    constructor (system: SystemModule)
      ensures this.system == system
    {
      this.system := system;
    }

    /** `stamp` is the second, printed as `%Y%m%dT%H%M%S`, in which each planner gets its turn. A failing
        creation ends the tick after its item was popped. */
    method TickPlans(
      stamp: string -> string) returns (r: Result<(), Error>, ghost served: set<string>, ghost failed: string)
      requires Idle() && Fixed(stamp)
      modifies system, system.tasks
      ensures Idle() && Extends(old(system.log), system.log)
      ensures served <= Unblocked(old(system.tasks.rows))
      ensures r.Ok? <==> AllFresh(old(system.tasks.rows), stamp)
      ensures r.Ok? ==> Dispatched(old(system.tasks.rows), system.tasks.rows, Unblocked(old(system.tasks.rows)), stamp)
      ensures r.Err? ==> Aborted(old(system.tasks.rows), system.tasks.rows, served, stamp, failed)
    {
      ghost var t := system.tasks.rows;
      var rest := system.tasks.ListPlanPending();
      served := {};
      failed := "";
      ExtendsOn(system.log, system.log, []);
      NobodyServed(t, stamp);
      hide Dispatched, Unblocked, PlanPending, Play, ExecutorId, ActiveExecutor, Fixed, Aborted, AllFresh, Extends,
        Idle;
      while rest != {}
        invariant Idle() && Extends(old(system.log), system.log)
        invariant rest <= PlanPending(t) && served == Unblocked(t) - rest
        invariant Dispatched(t, system.tasks.rows, served, stamp)
        decreases |rest|
      {
        var planner :| planner in rest;
        Turn(t, rest, planner);
        SameGuard(t, system.tasks.rows, served, stamp, planner);
        var active := system.tasks.HasActiveExecutor(planner);
        rest := rest - {planner};
        if !active {
          ExtendsOn(old(system.log), system.log, [Take(planner), Launch(stamp(planner))]);
          var ok := Serve(planner, stamp(planner), t, served, stamp);
          if !ok {
            failed := planner;
            return Err(Sqlite), served, failed;
          }
          served := served + {planner};
        }
        assert served == Unblocked(t) - rest;
      }
      assert served == Unblocked(t);
      ServedFresh(t, system.tasks.rows, stamp);
      return Ok(()), served, failed;
    }

    /** The turn of one planner. Its plan is not empty, because nobody pops between the listing and here;
        the `continue` for an empty one is not needed in an undisturbed tick. */
    method Serve(planner: string, ts: string, ghost t: Table, ghost served: set<string>, ghost stamp: string -> string)
      returns (ok: bool)
      requires Idle() && Fixed(stamp) && ts == stamp(planner)
      requires Dispatched(t, system.tasks.rows, served, stamp) && planner in Unblocked(t) && planner !in served
      modifies system, system.tasks
      ensures Idle()
      ensures system.log == old(system.log) + [Take(planner), Launch(ts)]
      ensures ok ==> Dispatched(t, system.tasks.rows, served + {planner}, stamp)
      ensures !ok ==> !AllFresh(t, stamp) && Aborted(t, system.tasks.rows, served, stamp, planner)
    {
      ghost var log, u := system.log, system.tasks.rows;
      TurnSteps(log, planner, ts, t, served, stamp);
      hide Dispatched, Unblocked, ExecutorId, Play, Next, Aborted, Popped, Inserted, AllFresh, ExecutorJson, Executor,
        Fixed, Head;
      var head := system.PopPlanHead(planner);
      var item := head.value;
      InsertedExecutor(system.tasks.rows, planner, item, ts);
      var r := system.CreateTask(Content("", Some(ExecutorJson(planner, item, ts))), Launch(ts));
      ok := r.Ok?;
      assert system.log == log + [Take(planner), Launch(ts)];
      ServeEnds(t, u, system.tasks.rows, served, stamp, planner);
    }
  }

  // ---- Progress ----

  /** A tick creates one executor for each unblocked planner, and no other row. */
  lemma OnePerPlanner(t: Table, u: Table, ps: set<string>, stamp: string -> string, p: string)
    requires Dispatched(t, u, ps, stamp)
    ensures (set id | id in u && id !in t && u[id].planParent == p) == if p in ps then {ExecutorId(p, stamp(p))} else {}
  {
    forall id | id in u && id !in t && u[id].planParent == p ensures p in ps && id == ExecutorId(p, stamp(p)) {
      NewRow(t, u, ps, stamp, id);
    }
    if p in ps {
      assert Made(t, u, p, stamp(p));
    }
  }

  /** All items that wait in the plans of some rows. */
  ghost function Items(t: Table, ids: set<string>): nat
    requires ids <= t.Keys
  {
    if ids == {} then 0
    else
      var id :| id in ids;
      |t[id].planTodo| + Items(t, ids - {id})
  }

  lemma {:induction false} ItemsPick(t: Table, ids: set<string>, id: string)
    requires ids <= t.Keys && id in ids
    ensures Items(t, ids) == |t[id].planTodo| + Items(t, ids - {id})
    decreases ids
  {
    var x :| x in ids && Items(t, ids) == |t[x].planTodo| + Items(t, ids - {x});
    if x != id {
      ItemsPick(t, ids - {x}, id);
      ItemsPick(t, ids - {id}, x);
      assert ids - {x} - {id} == ids - {id} - {x};
    }
  }

  lemma ItemShrinks(t: Table, u: Table, ps: set<string>, stamp: string -> string, id: string)
    requires Dispatched(t, u, ps, stamp) && id in u
    ensures id in ps ==> id in t
    ensures |u[id].planTodo| + (if id in ps then 1 else 0) == if id in t then |t[id].planTodo| else 0
  {
    if id in ps {
      assert Made(t, u, id, stamp(id));
    }
    if id in t {
      SameRow(t, u, ps, stamp, id);
    } else {
      NewRow(t, u, ps, stamp, id);
    }
  }

  lemma PickedBoth(ids: set<string>, ps: set<string>, id: string)
    requires id in ids
    ensures |ids * ps| == |(ids - {id}) * ps| + if id in ps then 1 else 0
    ensures (ids - {id}) * ps == if id in ps then ids * ps - {id} else ids * ps
  {
    assert ids * ps == if id in ps then (ids - {id}) * ps + {id} else (ids - {id}) * ps;
  }

  lemma {:induction false} ItemsShrink(t: Table, u: Table, ps: set<string>, stamp: string -> string, ids: set<string>)
    requires Dispatched(t, u, ps, stamp) && ids <= u.Keys
    ensures Items(u, ids) + |ids * ps| == Items(t, ids * t.Keys)
  {
    if ids != {} {
      var id :| id in ids;
      ItemsShrink(t, u, ps, stamp, ids - {id});
      ItemShrinks(t, u, ps, stamp, id);
      ItemsPick(u, ids, id);
      if id in t {
        ItemsPick(t, ids * t.Keys, id);
      }
      hide Items, Dispatched;
      PickedBoth(ids, ps, id);
      PickedBoth(ids, t.Keys, id);
    } else {
      assert ids * t.Keys == {} && ids * ps == {};
    }
  }

  /** A tick that gets through takes one item from every unblocked plan: what waits gets less, unless
      every plan is blocked. */
  lemma {:induction false} TickShrinks(t: Table, u: Table, stamp: string -> string)
    requires Dispatched(t, u, Unblocked(t), stamp)
    ensures Items(u, u.Keys) + |Unblocked(t)| == Items(t, t.Keys)
  {
    forall id | id in t ensures id in u {
      SameRow(t, u, Unblocked(t), stamp, id);
    }
    ItemsShrink(t, u, Unblocked(t), stamp, u.Keys);
    assert u.Keys * t.Keys == t.Keys && u.Keys * Unblocked(t) == Unblocked(t);
  }

  /** A tick adds to the unfinished executors of the planners that it serves, and only to theirs. */
  lemma UnfinishedAfterTick(t: Table, u: Table, ps: set<string>, stamp: string -> string, p: string)
    requires Dispatched(t, u, ps, stamp)
    ensures |Unfinished(u, p)| == |Unfinished(t, p)| + if p in ps then 1 else 0
  {
    var id := ExecutorId(p, stamp(p));
    forall x | x in u ensures Open(u, x, p) <==> Open(t, x, p) || (p in ps && x == id) {
      if x in t {
        SameRow(t, u, ps, stamp, x);
        assert p in ps ==> Made(t, u, p, stamp(p));
      } else {
        NewRow(t, u, ps, stamp, x);
      }
    }
    forall x | x in t ensures x in u {
      SameRow(t, u, ps, stamp, x);
    }
    assert p in ps ==> Made(t, u, p, stamp(p));
    hide ExecutorId, Dispatched;
    assert Unfinished(u, p) == Unfinished(t, p) + if p in ps then {id} else {};
  }

  /** The guard looks for active executors, and new ones are pending: if nobody activates the executor
      before the next tick, the planner gets a second one beside it. */
  lemma {:induction false} SecondExecutor(
    t: Table, u: Table, v: Table, stamp: string -> string, later: string -> string, p: string)
    requires p in Unblocked(t) && |t[p].planTodo| > 1
    requires Dispatched(t, u, Unblocked(t), stamp) && Dispatched(u, v, Unblocked(u), later)
    ensures |Unfinished(v, p)| >= 2
  {
    SameRow(t, u, Unblocked(t), stamp, p);
    SameGuard(t, u, Unblocked(t), stamp, p);
    assert p in Unblocked(u);
    UnfinishedAfterTick(t, u, Unblocked(t), stamp, p);
    UnfinishedAfterTick(u, v, Unblocked(u), later, p);
  }

  lemma ServeOnly(t: Table, stamp: string -> string, p: string) returns (u: Table)
    requires Unblocked(t) == {p} && AllFresh(t, stamp) && Fixed(stamp)
    ensures Dispatched(t, u, Unblocked(t), stamp)
  {
    var popped := Popped(t, p);
    var id := ExecutorId(p, stamp(p));
    assert p in Unblocked(t) && id !in t && popped.Keys == t.Keys;
    u := popped[id := Executor(p, t[p].planTodo[0])];
    NobodyServed(t, stamp);
    ServeEnds(t, t, u, {}, stamp, p);
    assert {} + {p} == Unblocked(t);
  }

  lemma StillUnblocked(t: Table, u: Table, stamp: string -> string, p: string)
    requires t.Keys == {p} && p in Unblocked(t) && |t[p].planTodo| > 1 && Dispatched(t, u, Unblocked(t), stamp)
    ensures Unblocked(u) == {p} && u.Keys == {p, ExecutorId(p, stamp(p))}
  {
    assert Unblocked(t) == {p};
    SameRow(t, u, Unblocked(t), stamp, p);
    SameGuard(t, u, Unblocked(t), stamp, p);
    assert Made(t, u, p, stamp(p));
    forall id | id in u && id != p ensures u[id].planTodo == [] && id == ExecutorId(p, stamp(p)) {
      NewRow(t, u, Unblocked(t), stamp, id);
    }
    hide Dispatched, Made;
  }

  /** Two such ticks, one after the other, from a table with one sleeping planner. */
  lemma {:induction false} TwoTicks(p: string, stamp: string -> string, later: string -> string)
    returns (t: Table, u: Table, v: Table)
    requires Fixed(stamp) && Fixed(later) && stamp(p) != later(p) && p != ""
    ensures t == map[p := Planner(Sleep, ["a", "b"])] && p in Unblocked(t)
    ensures Dispatched(t, u, Unblocked(t), stamp) && Dispatched(u, v, Unblocked(u), later)
    ensures |Unfinished(t, p)| == 0 && |Unfinished(v, p)| == 2
  {
    t := map[p := Planner(Sleep, ["a", "b"])];
    assert |ExecutorId(p, stamp(p))| > |p| && |ExecutorId(p, later(p))| > |p|;
    assert Unblocked(t) == {p} && Unfinished(t, p) == {};
    u := ServeOnly(t, stamp, p);
    StillUnblocked(t, u, stamp, p);
    if ExecutorId(p, stamp(p)) == ExecutorId(p, later(p)) {
      ExecutorIdInjective(p, stamp(p), p, later(p));
    }
    v := ServeOnly(u, later, p);
    UnfinishedAfterTick(t, u, Unblocked(t), stamp, p);
    UnfinishedAfterTick(u, v, Unblocked(u), later, p);
  }
}
