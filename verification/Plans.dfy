/** Runs of statements on the task table by agents and by the one plan scheduler, in any interleaving:
    the lifecycle of tasks, the order of plans, and the number of executors. */
module Plans {
  import opened Wrappers
  import opened Text
  import opened Tasks

  /** One statement. `Take` and `Launch` are the scheduler's: it pops a planner's head, and then creates
      the executor for what it holds. */
  datatype Step =
    | Create(id: string, row: Task)
    | Delete(id: string)
    | Move(id: string, to: Status)
    | Describe(id: string, text: string)
    | Plan(id: string, todo: seq<string>)
    | Take(planner: string)
    | Launch(ts: string)

  /** The item that the scheduler holds, and the submission that it was taken from. */
  datatype Hand = Hand(planner: string, item: string, plan: nat)

  /** A plan as it was submitted, the descriptions of the executors created for it so far, and whether
      every attempt to create one worked. */
  datatype Submission = Submission(planner: string, items: seq<string>, sent: seq<string>, whole: bool)

  datatype World = World(rows: Table, hand: Option<Hand>, plans: seq<Submission>, current: map<string, nat>)

  function ExecutorId(planner: string, ts: string): string {
    "plan-exec-" + planner + "-" + ts
  }

  function Executor(planner: string, item: string): Task {
    Task(item, "", "", Pending, "", "plan", [], planner)
  }

  function Next(w: World, s: Step): World {
    match s
    case Create(id, row) =>
      if id in w.rows then w else w.(rows := w.rows[id := row.(status := Pending, planTodo := [])])
    case Delete(id) => w.(rows := Removed(w.rows, id), current := w.current - {id})
    case Move(id, to) => w.(rows := After(w.rows, Moved(w.rows, id, to)))
    case Describe(id, text) => w.(rows := Described(w.rows, id, text))
    case Plan(id, todo) =>
      if id in w.rows then
        w.(rows := Planned(w.rows, id, todo),
           plans := w.plans + [Submission(id, todo, [], true)],
           current := w.current[id := |w.plans|])
      else w
    case Take(planner) => Taken(w, planner)
    case Launch(ts) => Launched(w, ts)
  }

  function Taken(w: World, planner: string): World {
    if w.hand.Some? || Head(w.rows, planner).None? then w
    else
      var k := if planner in w.current then w.current[planner] else |w.plans|;
      w.(rows := Popped(w.rows, planner), hand := Some(Hand(planner, w.rows[planner].planTodo[0], k)))
  }

  function Launched(w: World, ts: string): World {
    match w.hand
    case None => w
    case Some(h) =>
      if h.plan >= |w.plans| then w.(hand := None)
      else
        var p := w.plans[h.plan];
        var id := ExecutorId(h.planner, ts);
        if id in w.rows then w.(hand := None, plans := w.plans[h.plan := p.(whole := false)])
        else
          w.(rows := w.rows[id := Executor(h.planner, h.item)], hand := None,
             plans := w.plans[h.plan := p.(sent := p.sent + [h.item])])
  }

  function Play(log: seq<Step>): World {
    if log == [] then World(map[], None, [], map[])
    else Next(Play(log[..|log| - 1]), log[|log| - 1])
  }

  lemma PlayStep(log: seq<Step>, s: Step)
    ensures Play(log + [s]) == Next(Play(log), s)
  {
    assert (log + [s])[..|log|] == log;
  }

  /** A run that goes on from another. */
  ghost predicate Extends(log: seq<Step>, more: seq<Step>) {
    log <= more
  }

  lemma ExtendsOn(log: seq<Step>, more: seq<Step>, steps: seq<Step>)
    requires Extends(log, more)
    ensures Extends(log, log) && Extends(log, more + steps)
  {
  }

  // ---- Lifecycle ----

  /** What one statement can do to a row that is there before and after it. */
  lemma StatusStep(w: World, s: Step, id: string)
    requires id in w.rows && id in Next(w, s).rows
    ensures var from, to := w.rows[id].status, Next(w, s).rows[id].status;
            from == to || (Allowed(from, to) && s == Move(id, to))
  {
  }

  lemma CreatedPending(w: World, s: Step, id: string)
    requires id !in w.rows && id in Next(w, s).rows
    ensures Next(w, s).rows[id].status == Pending && Next(w, s).rows[id].planTodo == []
  {
  }

  /** The statuses that the row of a task went through since it was created. */
  function Trace(log: seq<Step>, id: string): seq<Status> {
    if log == [] || id !in Play(log).rows then []
    else
      var n := |log| - 1;
      var t, now := Trace(log[..n], id), Play(log).rows[id].status;
      if t != [] && t[|t| - 1] == now then t else t + [now]
  }

  /** Every row starts pending, takes only allowed edges, is where its trace ends, and never leaves the
      finished state. */
  lemma {:induction false} Lifecycle(log: seq<Step>, id: string)
    ensures var t := Trace(log, id);
            if id in Play(log).rows then
              t != [] && t[0] == Pending && t[|t| - 1] == Play(log).rows[id].status
              && (forall i :: 0 < i < |t| ==> Allowed(t[i - 1], t[i]))
              && (forall i :: 0 <= i < |t| - 1 ==> t[i] != Finished)
            else t == []
  {
    if log != [] && id in Play(log).rows {
      var n := |log| - 1;
      var w := Play(log[..n]);
      Lifecycle(log[..n], id);
      if id in w.rows {
        StatusStep(w, log[n], id);
      } else {
        CreatedPending(w, log[n], id);
      }
    }
  }

  /** A finished row stays finished for as long as it is there. */
  lemma {:induction false} FinishedStays(log: seq<Step>, more: seq<Step>, id: string)
    requires id in Play(log).rows && Play(log).rows[id].status == Finished
    requires forall n :: 0 <= n <= |more| ==> id in Play(log + more[..n]).rows
    ensures id in Play(log + more).rows && Play(log + more).rows[id].status == Finished
  {
    if more == [] {
      assert log + more == log;
    } else {
      var n := |more| - 1;
      assert more[..|more|] == more;
      forall m | 0 <= m <= n ensures id in Play(log + more[..n][..m]).rows {
        assert more[..n][..m] == more[..m];
      }
      FinishedStays(log, more[..n], id);
      assert log + more == (log + more[..n]) + [more[n]];
      PlayStep(log + more[..n], more[n]);
      assert id in Play(log + more[..n]).rows && id in Play(log + more[..|more|]).rows;
      StatusStep(Play(log + more[..n]), more[n], id);
    }
  }

  // ---- Plans keep their order ----

  function Held(w: World, k: nat): seq<string> {
    if w.hand.Some? && w.hand.value.plan == k then [w.hand.value.item] else []
  }

  predicate Prefix<T(==)>(s: seq<T>, t: seq<T>) {
    |s| <= |t| && t[..|s|] == s
  }

  /** The bookkeeping refers to what is there. */
  ghost predicate Filed(w: World) {
    && (forall p :: p in w.current ==> p in w.rows && w.current[p] < |w.plans| && w.plans[w.current[p]].planner == p)
    && (forall p :: p in w.rows && w.rows[p].planTodo != [] ==> p in w.current)
    && (w.hand.Some? ==> w.hand.value.plan < |w.plans| && w.plans[w.hand.value.plan].planner == w.hand.value.planner)
  }

  /** What was sent for the plan in force, what is held of it and what is stored spell what was submitted. */
  predicate Spelled(w: World, p: string)
    requires p in w.current && p in w.rows && w.current[p] < |w.plans|
  {
    var k := w.current[p];
    w.plans[k].sent + Held(w, k) + w.rows[p].planTodo == w.plans[k].items
  }

  /** How many items of the plan in force are accounted for. */
  function Counted(w: World, p: string): nat
    requires p in w.current && p in w.rows && w.current[p] < |w.plans|
  {
    |w.plans[w.current[p]].sent| + |Held(w, w.current[p])| + |w.rows[p].planTodo|
  }

  /** No item of any submission was skipped, repeated or moved: what was sent and what is held begin the
      list, and for the plan in force the stored rest completes it. After a failed launch something of the
      plan in force is missing for good. */
  ghost predicate InOrder(w: World) {
    && (forall k :: 0 <= k < |w.plans| && w.plans[k].whole ==> Prefix(w.plans[k].sent + Held(w, k), w.plans[k].items))
    && (forall p :: p in w.current && p in w.rows && w.current[p] < |w.plans| ==> Accounted(w, p))
  }

  predicate Accounted(w: World, p: string)
    requires p in w.current && p in w.rows && w.current[p] < |w.plans|
  {
    if w.plans[w.current[p]].whole then Spelled(w, p) else Counted(w, p) < |w.plans[w.current[p]].items|
  }

  lemma FiledStep(w: World, s: Step)
    requires Filed(w)
    ensures Filed(Next(w, s))
  {
  }

  lemma TakeInOrder(w: World, planner: string)
    requires Filed(w) && InOrder(w)
    ensures InOrder(Taken(w, planner))
  {
    var v := Taken(w, planner);
    if v != w {
      var k := w.current[planner];
      var p := w.plans[k];
      var todo := w.rows[planner].planTodo;
      assert Held(w, k) == [] && Held(v, k) == [todo[0]];
      if p.whole {
        assert p.sent + [] + todo == p.items;
        assert todo == [todo[0]] + todo[1..];
        assert p.sent + [todo[0]] + todo[1..] == p.items;
        assert p.items[..|p.sent| + 1] == p.sent + [todo[0]];
      }
    }
  }

  lemma LaunchInOrder(w: World, ts: string)
    requires Filed(w) && InOrder(w)
    ensures InOrder(Launched(w, ts))
  {
    if w.hand.Some? {
      var h := w.hand.value;
      var v := Launched(w, ts);
      assert Held(w, h.plan) == [h.item];
      forall k | 0 <= k < |w.plans| && v.plans[k].whole
        ensures v.plans[k].sent + Held(v, k) == w.plans[k].sent + Held(w, k)
      {
      }
    }
  }

  lemma SubmitInOrder(w: World, id: string, todo: seq<string>)
    requires Filed(w) && InOrder(w)
    ensures InOrder(Next(w, Plan(id, todo)))
  {
    var v := Next(w, Plan(id, todo));
    if id in w.rows {
      var n := |w.plans|;
      assert Held(v, n) == [];
      assert v.plans[n] == Submission(id, todo, [], true) && [] + [] + todo == todo;
      forall k | 0 <= k < n ensures v.plans[k] == w.plans[k] && Held(v, k) == Held(w, k) {}
      assert v.hand == w.hand && |v.plans| == n + 1;
      forall p | p in v.current && p != id
        ensures p in w.current && v.current[p] == w.current[p] < n && v.rows[p] == w.rows[p] {}
      assert v.current[id] == n && v.rows[id].planTodo == todo;
      hide Next, Held, Planned;
    }
  }

  lemma InOrderStep(w: World, s: Step)
    requires Filed(w) && InOrder(w)
    ensures InOrder(Next(w, s))
  {
    match s
    case Take(planner) => TakeInOrder(w, planner);
    case Launch(ts) => LaunchInOrder(w, ts);
    case Plan(id, todo) => SubmitInOrder(w, id, todo);
    case _ =>
      var v := Next(w, s);
      assert v.plans == w.plans && v.hand == w.hand;
      forall k: nat ensures Held(v, k) == Held(w, k) {}
      forall p | p in v.current
        ensures p in w.current && v.current[p] == w.current[p] && v.rows[p].planTodo == w.rows[p].planTodo {
        OtherSteps(w, s, p);
      }
  }

  lemma OtherSteps(w: World, s: Step, p: string)
    requires Filed(w) && !s.Take? && !s.Launch? && !s.Plan? && p in Next(w, s).current
    ensures p in w.current && Next(w, s).current[p] == w.current[p]
    ensures p in w.rows && p in Next(w, s).rows && Next(w, s).rows[p].planTodo == w.rows[p].planTodo
  {
  }

  /** In every run, every submission keeps its order; nothing is lost but by an executor that could not
      be created. */
  lemma {:induction false} PlansInOrder(log: seq<Step>)
    ensures Filed(Play(log)) && InOrder(Play(log))
  {
    if log != [] {
      var n := |log| - 1;
      PlansInOrder(log[..n]);
      FiledStep(Play(log[..n]), log[n]);
      InOrderStep(Play(log[..n]), log[n]);
    }
  }

  /** A launch that finds its id free turns the item in hand into the description of a new pending row
      under its planner, and that is what the submission counts as sent. */
  lemma LaunchCreates(w: World, ts: string)
    requires Filed(w) && w.hand.Some? && ExecutorId(w.hand.value.planner, ts) !in w.rows
    ensures var h, v := w.hand.value, Launched(w, ts);
            var id := ExecutorId(h.planner, ts);
            && v.hand.None? && id in v.rows && v.rows - {id} == w.rows
            && v.rows[id].description == h.item && v.rows[id].planParent == h.planner && v.rows[id].status == Pending
            && |v.plans| == |w.plans| && v.plans[h.plan].sent == w.plans[h.plan].sent + [v.rows[id].description]
  {
  }

  // ---- When an item is lost ----

  /** The scheduler holds an item of the submission, and the id of its executor is taken. */
  predicate FailedLaunch(w: World, s: Step, k: nat) {
    s.Launch? && w.hand.Some? && w.hand.value.plan == k && ExecutorId(w.hand.value.planner, s.ts) in w.rows
  }

  ghost predicate Missed(log: seq<Step>, k: nat) {
    exists n :: 0 <= n < |log| && FailedLaunch(Play(log[..n]), log[n], k)
  }

  lemma MissedStep(log: seq<Step>, s: Step, k: nat)
    ensures Missed(log + [s], k) <==> Missed(log, k) || FailedLaunch(Play(log), s, k)
  {
    var all := log + [s];
    assert all[..|log|] == log && all[|log|] == s;
    assert forall n :: 0 <= n < |log| ==> all[..n] == log[..n] && all[n] == log[n];
    if Missed(log, k) {
      var n :| 0 <= n < |log| && FailedLaunch(Play(log[..n]), log[n], k);
      assert FailedLaunch(Play(all[..n]), all[n], k);
    }
    if FailedLaunch(Play(log), s, k) {
      assert FailedLaunch(Play(all[..|log|]), all[|log|], k);
    }
  }

  lemma FlagStep(w: World, s: Step, k: nat)
    requires Filed(w)
    ensures |w.plans| <= |Next(w, s).plans|
    ensures k < |w.plans| ==> (Next(w, s).plans[k].whole <==> w.plans[k].whole && !FailedLaunch(w, s, k))
    ensures |w.plans| <= k ==> !FailedLaunch(w, s, k)
    ensures |w.plans| <= k < |Next(w, s).plans| ==> Next(w, s).plans[k].whole
  {
  }

  /** The flag of a submission says whether one of its launches failed. */
  lemma {:induction false} FlagIs(log: seq<Step>, k: nat)
    ensures k < |Play(log).plans| ==> (Play(log).plans[k].whole <==> !Missed(log, k))
    ensures |Play(log).plans| <= k ==> !Missed(log, k)
  {
    if log != [] {
      var n := |log| - 1;
      FlagIs(log[..n], k);
      PlansInOrder(log[..n]);
      FlagStep(Play(log[..n]), log[n], k);
      MissedStep(log[..n], log[n], k);
      assert log[..n] + [log[n]] == log;
      hide Next, FailedLaunch, Missed, Filed, InOrder;
    }
  }

  /** Over every run, the items of the plan in force are all there, sent, in hand or stored, and in order,
      exactly as long as no launch of one of them found its executor id taken. */
  lemma {:induction false} LostIff(log: seq<Step>, p: string)
    requires p in Play(log).current
    ensures p in Play(log).rows && Play(log).current[p] < |Play(log).plans|
    ensures Spelled(Play(log), p) <==> !Missed(log, Play(log).current[p])
    ensures !Spelled(Play(log), p) ==> Counted(Play(log), p) < |Play(log).plans[Play(log).current[p]].items|
  {
    PlansInOrder(log);
    FlagIs(log, Play(log).current[p]);
    hide Play, Missed, Next;
    assert Accounted(Play(log), p);
    assert Spelled(Play(log), p) ==> Counted(Play(log), p) == |Play(log).plans[Play(log).current[p]].items|;
  }

  /** The id says planner and second, and with seconds of one length it says nothing else. */
  lemma ExecutorIdInjective(p: string, ts: string, q: string, us: string)
    requires |ts| == |us| && ExecutorId(p, ts) == ExecutorId(q, us)
    ensures p == q && ts == us && ExecutorId(p, ts) == "plan-exec-" + p + "-" + ts
  {
    var pre := "plan-exec-";
    var x, y := ExecutorId(p, ts), ExecutorId(q, us);
    assert |x| == |pre| + |p| + 1 + |ts| && |y| == |pre| + |q| + 1 + |us|;
    assert x[|pre|..|pre| + |p|] == p && y[|pre|..|pre| + |q|] == q;
    assert x[|x| - |ts|..] == ts && y[|y| - |us|..] == us;
  }

  /** Without the fixed length, two planners can ask for one executor id. */
  lemma ExecutorIdsCanMeet()
    ensures exists p, ts, q, us :: p != q && ExecutorId(p, ts) == ExecutorId(q, us)
  {
    assert ExecutorId("a", "b-c") == "plan-exec-a-b-c" == ExecutorId("a-b", "c");
  }

  /** The (planner, second) pairs for which executors were created. */
  function Launches(log: seq<Step>): set<(string, string)> {
    if log == [] then {}
    else
      var w, s := Play(log[..|log| - 1]), log[|log| - 1];
      Launches(log[..|log| - 1]) + if s.Launch? && w.hand.Some? then {(w.hand.value.planner, s.ts)} else {}
  }

  predicate ExecutorLike(id: string) {
    Prefix("plan-exec-", id)
  }

  /** Nobody else names a task like an executor, timestamps are `%Y%m%dT%H%M%S`, and no planner is served
      twice in one second (ticks are a minute apart). */
  predicate Paced(log: seq<Step>) {
    log == [] ||
    var w, s := Play(log[..|log| - 1]), log[|log| - 1];
    && Paced(log[..|log| - 1])
    && (s.Create? ==> !ExecutorLike(s.id))
    && (s.Launch? && w.hand.Some? ==>
          |s.ts| == 15 && (w.hand.value.planner, s.ts) !in Launches(log[..|log| - 1]))
  }

  lemma {:induction false} LaunchesFixed(log: seq<Step>)
    requires Paced(log)
    ensures forall l :: l in Launches(log) ==> |l.1| == 15
  {
    if log != [] {
      LaunchesFixed(log[..|log| - 1]);
    }
  }

  lemma {:induction false} RowsNamed(log: seq<Step>, id: string)
    requires Paced(log) && id in Play(log).rows && ExecutorLike(id)
    ensures exists l :: l in Launches(log) && id == ExecutorId(l.0, l.1)
  {
    if log != [] {
      var n := |log| - 1;
      var w, s := Play(log[..n]), log[n];
      if id in w.rows {
        RowsNamed(log[..n], id);
      } else {
        assert s.Launch? && w.hand.Some? && id == ExecutorId(w.hand.value.planner, s.ts);
        assert (w.hand.value.planner, s.ts) in Launches(log);
      }
    }
  }

  lemma LaunchFresh(log: seq<Step>, planner: string, ts: string)
    requires Paced(log) && |ts| == 15 && (planner, ts) !in Launches(log)
    ensures ExecutorId(planner, ts) !in Play(log).rows
  {
    var id := ExecutorId(planner, ts);
    if id in Play(log).rows {
      assert id[..10] == "plan-exec-";
      RowsNamed(log, id);
      var l :| l in Launches(log) && id == ExecutorId(l.0, l.1);
      LaunchesFixed(log);
      ExecutorIdInjective(planner, ts, l.0, l.1);
    }
  }

  /** In a paced run no submission loses an item, so that for every planner with a plan in force the
      executors created for it, the item in hand and the stored rest spell the submitted list. */
  lemma {:induction false} NothingLost(log: seq<Step>)
    requires Paced(log)
    ensures forall k :: 0 <= k < |Play(log).plans| ==> Play(log).plans[k].whole
  {
    if log != [] {
      var n := |log| - 1;
      var w, s := Play(log[..n]), log[n];
      NothingLost(log[..n]);
      PlansInOrder(log[..n]);
      if s.Launch? && w.hand.Some? {
        LaunchFresh(log[..n], w.hand.value.planner, s.ts);
      }
      forall k | 0 <= k < |Play(log).plans| ensures Play(log).plans[k].whole {
        FlagStep(w, s, k);
      }
    }
  }

  lemma Conserved(log: seq<Step>, p: string)
    requires Paced(log) && p in Play(log).current
    ensures p in Play(log).rows && Play(log).current[p] < |Play(log).plans| && Spelled(Play(log), p)
  {
    PlansInOrder(log);
    NothingLost(log);
  }

  // ---- Executors of one planner ----

  predicate Open(t: Table, id: string, planner: string) {
    id in t && t[id].planParent == planner && t[id].status != Finished
  }

  function Unfinished(t: Table, planner: string): set<string> {
    set id | id in t && Open(t, id, planner)
  }

  /** Apart from launches nobody creates rows with a parent. */
  predicate Parentless(log: seq<Step>) {
    forall n :: 0 <= n < |log| && log[n].Create? ==> log[n].row.planParent == ""
  }

  /** The scheduler really takes something: it holds nothing, and the planner has a plan. */
  predicate Takes(w: World, s: Step, planner: string) {
    s == Take(planner) && w.hand.None? && Head(w.rows, planner).Some?
  }

  /** Executors of the planner that the guard does not see: created but not begun, or put to sleep. */
  function Unseen(t: Table, planner: string): set<string> {
    set id | id in t && Open(t, id, planner) && t[id].status != Active
  }

  /** What each planner has at work: the item in hand counts. */
  function Working(w: World, planner: string): int {
    |Unfinished(w.rows, planner)| + if w.hand.Some? && w.hand.value.planner == planner then 1 else 0
  }

  lemma UnfinishedShrinks(t: Table, u: Table, planner: string)
    requires forall id :: Open(u, id, planner) ==> Open(t, id, planner)
    ensures |Unfinished(u, planner)| <= |Unfinished(t, planner)|
  {
    Smaller(Unfinished(u, planner), Unfinished(t, planner));
  }

  lemma Smaller<T>(a: set<T>, b: set<T>)
    requires a <= b
    ensures |a| <= |b|
  {
    assert b == a + (b - a);
  }

  lemma LaunchAddsOne(w: World, ts: string, planner: string)
    requires w.hand.Some?
    ensures Working(Launched(w, ts), planner) <= Working(w, planner)
  {
    var h, v := w.hand.value, Launched(w, ts);
    var id := ExecutorId(h.planner, ts);
    var a, b := Unfinished(v.rows, planner), Unfinished(w.rows, planner);
    if h.planner == planner {
      assert a <= b + {id};
      Smaller(a, b + {id});
    } else {
      assert a <= b;
      Smaller(a, b);
    }
  }

  lemma OpenStep(w: World, s: Step, planner: string, id: string)
    requires planner != "" && !s.Launch? && (s.Create? ==> s.row.planParent == "")
    requires Open(Next(w, s).rows, id, planner)
    ensures Open(w.rows, id, planner)
  {
    if id in w.rows {
      StatusStep(w, s, id);
    }
  }

  lemma WorkingStep(w: World, s: Step, planner: string)
    requires planner != "" && (s.Create? ==> s.row.planParent == "")
    ensures !Takes(w, s, planner) ==> Working(Next(w, s), planner) <= Working(w, planner)
    ensures Takes(w, s, planner) ==> Working(Next(w, s), planner) == |Unfinished(w.rows, planner)| + 1
  {
    if s.Launch? {
      if w.hand.Some? {
        LaunchAddsOne(w, s.ts, planner);
      }
    } else {
      forall id | Open(Next(w, s).rows, id, planner) ensures Open(w.rows, id, planner) {
        OpenStep(w, s, planner, id);
      }
      UnfinishedShrinks(w.rows, Next(w, s).rows, planner);
      if Takes(w, s, planner) {
        TakeKeepsOpen(w, planner);
      }
    }
  }

  lemma TakeKeepsOpen(w: World, planner: string)
    ensures Unfinished(Taken(w, planner).rows, planner) == Unfinished(w.rows, planner)
  {
    forall id ensures Open(Taken(w, planner).rows, id, planner) <==> Open(w.rows, id, planner) {}
  }

  ghost predicate OneAtWork(log: seq<Step>, planner: string) {
    forall n :: 0 <= n <= |log| ==> Working(Play(log[..n]), planner) <= 1
  }

  ghost predicate TakenWhenNone(log: seq<Step>, planner: string) {
    forall n :: 0 <= n < |log| && Takes(Play(log[..n]), log[n], planner) ==>
      Unfinished(Play(log[..n]).rows, planner) == {}
  }

  /** A planner never has two executors at work exactly when the scheduler takes from its plan only while
      it has none that is unfinished. */
  lemma AtMostOneIff(log: seq<Step>, planner: string)
    requires Parentless(log) && planner != ""
    ensures OneAtWork(log, planner) <==> TakenWhenNone(log, planner)
  {
    forall n | 0 <= n < |log| ensures Play(log[..n + 1]) == Next(Play(log[..n]), log[n]) {
      assert log[..n + 1] == log[..n] + [log[n]];
      PlayStep(log[..n], log[n]);
    }
    hide Play, Next, Takes, Unfinished;
    if OneAtWork(log, planner) {
      forall n | 0 <= n < |log| && Takes(Play(log[..n]), log[n], planner)
        ensures Unfinished(Play(log[..n]).rows, planner) == {}
      {
        WorkingStep(Play(log[..n]), log[n], planner);
        assert Working(Play(log[..n + 1]), planner) <= 1;
      }
    }
    if TakenWhenNone(log, planner) {
      forall n | 0 <= n <= |log| ensures Working(Play(log[..n]), planner) <= 1 {
        OneWhenNone(log, planner, n);
      }
    }
  }

  lemma {:induction false} OneWhenNone(log: seq<Step>, planner: string, n: nat)
    requires Parentless(log) && planner != "" && TakenWhenNone(log, planner) && n <= |log|
    ensures Working(Play(log[..n]), planner) <= 1
  {
    if n > 0 {
      var m := n - 1;
      OneWhenNone(log, planner, m);
      assert log[..n] == log[..m] + [log[m]];
      PlayStep(log[..m], log[m]);
      hide Play, Next, Takes;
      WorkingStep(Play(log[..m]), log[m], planner);
      assert Takes(Play(log[..m]), log[m], planner) ==> |Unfinished(Play(log[..m]).rows, planner)| == 0;
    } else {
      assert log[..0] == [];
    }
  }

  /** The guard looks for active executors only. */
  lemma GuardIff(t: Table, planner: string)
    ensures Unfinished(t, planner) == {} <==> !ActiveExecutor(t, planner) && Unseen(t, planner) == {}
  {
    if Unfinished(t, planner) == {} {
      forall id | id in t && t[id].planParent == planner ensures t[id].status != Active {
        assert Open(t, id, planner) ==> id in Unfinished(t, planner);
      }
    } else {
      var id :| id in Unfinished(t, planner);
      assert t[id].status != Active ==> id in Unseen(t, planner);
    }
  }

  /** The scheduler asks the guard before it takes. */
  ghost predicate Guarded(log: seq<Step>, planner: string) {
    forall n :: 0 <= n < |log| && Takes(Play(log[..n]), log[n], planner) ==>
      !ActiveExecutor(Play(log[..n]).rows, planner)
  }

  ghost predicate NoneUnseen(log: seq<Step>, planner: string) {
    forall n :: 0 <= n < |log| && Takes(Play(log[..n]), log[n], planner) ==> Unseen(Play(log[..n]).rows, planner) == {}
  }

  /** So in the runs that the guard lets through, a planner never has two executors at work exactly when at
      every take all its unfinished executors are active: none is still pending, and none sleeps. */
  lemma AtMostOneGuarded(log: seq<Step>, planner: string)
    requires Parentless(log) && planner != "" && Guarded(log, planner)
    ensures OneAtWork(log, planner) <==> NoneUnseen(log, planner)
  {
    AtMostOneIff(log, planner);
    hide Play, Takes, OneAtWork, Unseen, Unfinished;
    forall n | 0 <= n < |log| && Takes(Play(log[..n]), log[n], planner)
      ensures Unfinished(Play(log[..n]).rows, planner) == {} <==> Unseen(Play(log[..n]).rows, planner) == {}
    {
      GuardIff(Play(log[..n]).rows, planner);
    }
  }

  // ---- A run with two executors ----

  function Planner(status: Status, todo: seq<string>): Task {
    Task("", "", "", status, "", "user_message", todo, "")
  }

  /** A planner submits two items and goes to sleep. */
  function Asleep(): seq<Step> {
    [Create("p", Planner(Pending, [])), Move("p", Active), Plan("p", ["a", "b"]), Move("p", Sleep)]
  }

  /** And two ticks pass before anybody activates the first executor. */
  function Hasty(ts: string, us: string): seq<Step> {
    Asleep() + [Take("p"), Launch(ts), Take("p"), Launch(us)]
  }

  lemma Onward(log: seq<Step>, w: World, s: Step, v: World)
    requires Play(log) == w && Next(w, s) == v
    ensures Play(log + [s]) == v
  {
    PlayStep(log, s);
    hide Next;
  }

  const PLANNED := Submission("p", ["a", "b"], [], true)

  /** The world of this run: the planner's row with the executors there are, and the rest. */
  function Scene(row: Task, others: Table, hand: Option<Hand>, plan: Submission): World {
    World(others["p" := row], hand, [plan], map["p" := 0])
  }

  lemma AsleepLeads()
    ensures Play(Asleep()) == Scene(Planner(Sleep, ["a", "b"]), map[], None, PLANNED)
  {
    var w1 := World(map["p" := Planner(Pending, [])], None, [], map[]);
    var w2 := World(map["p" := Planner(Active, [])], None, [], map[]);
    var w3 := Scene(Planner(Active, ["a", "b"]), map[], None, PLANNED);
    var w4 := Scene(Planner(Sleep, ["a", "b"]), map[], None, PLANNED);
    var l1 := [Create("p", Planner(Pending, []))];
    var l2 := l1 + [Move("p", Active)];
    var l3 := l2 + [Plan("p", ["a", "b"])];
    assert Play([]) == World(map[], None, [], map[]);
    FirstMoves(w1, w2, w3, w4);
    hide Play, Next, Scene, Planner, PLANNED;
    assert [] + l1 == l1;
    Onward([], World(map[], None, [], map[]), l1[0], w1);
    Onward(l1, w1, Move("p", Active), w2);
    Onward(l2, w2, Plan("p", ["a", "b"]), w3);
    Onward(l3, w3, Move("p", Sleep), w4);
    assert l3 + [Move("p", Sleep)] == Asleep();
  }

  lemma FirstMoves(w1: World, w2: World, w3: World, w4: World)
    requires w1 == World(map["p" := Planner(Pending, [])], None, [], map[])
    requires w2 == World(map["p" := Planner(Active, [])], None, [], map[])
    requires w3 == Scene(Planner(Active, ["a", "b"]), map[], None, PLANNED)
    requires w4 == Scene(Planner(Sleep, ["a", "b"]), map[], None, PLANNED)
    ensures Next(World(map[], None, [], map[]), Create("p", Planner(Pending, []))) == w1
    ensures Next(w1, Move("p", Active)) == w2
    ensures Next(w2, Plan("p", ["a", "b"])) == w3
    ensures Next(w3, Move("p", Sleep)) == w4
  {
    assert VALID_TRANSITIONS[0] == (Pending, Active) && VALID_TRANSITIONS[2] == (Active, Sleep);
    assert w1.rows["p" := Planner(Active, [])] == w2.rows;
    assert w2.rows["p" := Planner(Active, ["a", "b"])] == w3.rows;
    assert w3.rows["p" := Planner(Sleep, ["a", "b"])] == w4.rows;
    assert [] + [PLANNED] == [PLANNED];
  }

  /** One tick of this run: the head of the plan becomes a new executor. */
  lemma Tick(log: seq<Step>, todo: seq<string>, others: Table, plan: Submission, ts: string)
    requires Play(log) == Scene(Planner(Sleep, todo), others, None, plan) && todo != []
    requires |ts| == 15 && ExecutorId("p", ts) !in others && "p" !in others
    ensures Play(log + [Take("p")] + [Launch(ts)])
         == Scene(Planner(Sleep, todo[1..]), others[ExecutorId("p", ts) := Executor("p", todo[0])], None,
                  plan.(sent := plan.sent + [todo[0]]))
  {
    var id := ExecutorId("p", ts);
    assert |id| > 1 && id != "p";
    var v := Scene(Planner(Sleep, todo[1..]), others, Some(Hand("p", todo[0], 0)), plan);
    assert others["p" := Planner(Sleep, todo)]["p" := Planner(Sleep, todo[1..])] == v.rows;
    var n := plan.(sent := plan.sent + [todo[0]]);
    var rows := others[id := Executor("p", todo[0])]["p" := Planner(Sleep, todo[1..])];
    assert v.rows[id := Executor("p", todo[0])] == rows;
    assert v.plans[0 := n] == [n];
    hide Play, ExecutorId;
    Onward(log, Play(log), Take("p"), v);
    Onward(log + [Take("p")], v, Launch(ts),
      Scene(Planner(Sleep, todo[1..]), others[id := Executor("p", todo[0])], None, n));
  }

  function First(ts: string): Table {
    map[ExecutorId("p", ts) := Executor("p", "a")]
  }

  lemma TicksLead(ts: string, us: string)
    requires |ts| == 15 && |us| == 15 && ts != us
    ensures ExecutorId("p", ts) != ExecutorId("p", us) && "p" !in First(ts)
    ensures Play(Asleep()) == Scene(Planner(Sleep, ["a", "b"]), map[], None, PLANNED)
    ensures Play(Asleep() + [Take("p")] + [Launch(ts)])
         == Scene(Planner(Sleep, ["b"]), First(ts), None, PLANNED.(sent := ["a"]))
    ensures Play(Hasty(ts, us))
         == Scene(Planner(Sleep, []), First(ts)[ExecutorId("p", us) := Executor("p", "b")], None,
                  PLANNED.(sent := ["a", "b"]))
  {
    if ExecutorId("p", ts) == ExecutorId("p", us) {
      ExecutorIdInjective("p", ts, "p", us);
    }
    assert |ExecutorId("p", ts)| > 1;
    AsleepLeads();
    var log := Asleep() + [Take("p")] + [Launch(ts)];
    assert log + [Take("p")] + [Launch(us)] == Hasty(ts, us);
    assert ["a", "b"][1..] == ["b"] && ["b"][1..] == [] && [] + ["a"] == ["a"] && ["a"] + ["b"] == ["a", "b"];
    hide Play, ExecutorId, Planner, Executor, Scene, Asleep, Hasty;
    Tick(Asleep(), ["a", "b"], map[], PLANNED, ts);
    assert map[][ExecutorId("p", ts) := Executor("p", "a")] == First(ts);
    Tick(log, ["b"], First(ts), PLANNED.(sent := ["a"]), us);
  }

  lemma OnlyTakes(ts: string, us: string, n: nat)
    requires n < |Hasty(ts, us)| && Hasty(ts, us)[n] == Take("p")
    ensures (n == 4 && Hasty(ts, us)[..n] == Asleep())
         || (n == 6 && Hasty(ts, us)[..n] == Asleep() + [Take("p")] + [Launch(ts)])
  {
    var log := Hasty(ts, us);
    assert |Asleep()| == 4 && forall k :: 0 <= k < 4 ==> log[k] == Asleep()[k] != Take("p");
    assert log[5] == Launch(ts) && log[7] == Launch(us);
  }

  lemma NoneActive(todo: seq<string>, ts: string)
    ensures !ActiveExecutor(Scene(Planner(Sleep, todo), map[], None, PLANNED).rows, "p")
    ensures !ActiveExecutor(Scene(Planner(Sleep, todo), First(ts), None, PLANNED).rows, "p")
  {
    hide ExecutorId;
  }

  lemma GuardPasses(ts: string, us: string)
    requires |ts| == 15 && |us| == 15 && ts != us
    ensures Guarded(Hasty(ts, us), "p")
  {
    TicksLead(ts, us);
    NoneActive(["a", "b"], ts);
    NoneActive(["b"], ts);
    var log := Hasty(ts, us);
    assert forall sent :: Scene(Planner(Sleep, ["b"]), First(ts), None, PLANNED.(sent := sent)).rows
                          == Scene(Planner(Sleep, ["b"]), First(ts), None, PLANNED).rows;
    hide Asleep, Hasty, ExecutorId, Play, Scene, ActiveExecutor, First, Planner;
    forall n | 0 <= n < |log| && Takes(Play(log[..n]), log[n], "p") ensures !ActiveExecutor(Play(log[..n]).rows, "p") {
      OnlyTakes(ts, us, n);
    }
  }

  lemma BothUnfinished(todo: seq<string>, x: string, y: string, plan: Submission)
    requires x != y && x != "p" && y != "p"
    ensures var others: Table := map[x := Executor("p", "a")];
            Unfinished(Scene(Planner(Sleep, todo), others[y := Executor("p", "b")], None, plan).rows, "p") == {x, y}
  {
  }

  /** The guard lets both takes of this run through, and the planner has two unfinished executors. */
  lemma {:induction false} TwoExecutors(ts: string, us: string)
    requires |ts| == 15 && |us| == 15 && ts != us
    ensures Parentless(Hasty(ts, us)) && Guarded(Hasty(ts, us), "p")
    ensures Unfinished(Play(Hasty(ts, us)).rows, "p") == {ExecutorId("p", ts), ExecutorId("p", us)}
    ensures |Unfinished(Play(Hasty(ts, us)).rows, "p")| == 2 && !OneAtWork(Hasty(ts, us), "p")
  {
    var log := Hasty(ts, us);
    assert Parentless(log);
    GuardPasses(ts, us);
    TicksLead(ts, us);
    var x, y := ExecutorId("p", ts), ExecutorId("p", us);
    assert |x| > 1 && |y| > 1;
    BothUnfinished([], x, y, PLANNED.(sent := ["a", "b"]));
    assert {x, y} - {x} == {y} && |{x, y} - {x}| == 1;
    assert log[..|log|] == log;
    hide Asleep, Hasty, ExecutorId, Parentless, Guarded, Play, Scene, Unfinished, Planner, Executor;
    assert Working(Play(log[..|log|]), "p") >= 2;
  }
}
