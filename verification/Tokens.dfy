/** One-time tokens (crates/logos-kernel/src/token.rs): any number of threads consume tokens in three steps
    each, while others register, revoke and clean up. */
module Tokens {
  import opened Wrappers
  import opened Text

  datatype Role = User | Admin

  datatype Info = Info(taskId: string, agentConfigId: string, role: Role)

  datatype Session = Session(info: Info, createdAt: int)

  const SESSION_TTL := 24 * 3600
  const WRAP := 0x1_0000_0000_0000_0000

  /** `fetch_add(1)`, and the number that n of them lead to. */
  function Bump(counter: nat): nat {
    (counter + 1) % WRAP
  }

  function Turn(n: nat): nat {
    n % WRAP
  }

  lemma BumpTurn(n: nat)
    ensures Bump(Turn(n)) == Turn(n + 1)
  {
  }

  /** The key of the n-th session number that was ever drawn; the counter is a u64 that starts at 1. */
  function Key(n: nat): string {
    "s-" + Digits(Turn(n))
  }

  /** A key says `s-` and the number of the session in decimal digits, as a u64 has it. */
  ghost predicate KeyOf(key: string, n: nat) {
    && |key| > 2 && key[..2] == "s-" && Number(key[2..]) == n % 0x1_0000_0000_0000_0000
    && (forall i :: 2 <= i < |key| ==> '0' <= key[i] <= '9')
    && (key[2] == '0' ==> key == "s-0")
  }

  lemma KeyReads(n: nat)
    ensures KeyOf(Key(n), n)
  {
    var m := Turn(n);
    DigitsRead(m);
    assert Key(n)[2..] == Digits(m);
    assert m == 0 ==> Key(n) == "s-0";
    hide Digits, Number;
  }

  // ---- The registry and its history ----

  datatype Registration = Registration(token: string, info: Info)

  /** What a thread in the middle of `consume` holds: the entry it removed, and then a session number. */
  datatype Hand = Hand(token: string, info: Info, reg: nat, no: Option<nat>)

  /** A session that was opened: for which registration, with which number and data. */
  datatype Grant = Grant(reg: nat, no: nat, info: Info)

  /** Where a registration or a session number is: with the pending tokens, with a thread, in a grant, or
      nowhere any more. */
  datatype Place = Waiting | Held(thread: nat) | Used(grant: nat) | Gone

  /** The registry is `pending`, `sessions` and `counter`; `hands` is what the threads hold. The rest is
      history: registrations in order, the one behind each pending token, the grants, and the places. */
  datatype State = State(
    pending: map<string, Info>,
    sessions: map<string, Session>,
    counter: nat,
    hands: map<nat, Hand>,
    regs: seq<Registration>,
    owner: map<string, nat>,
    grants: seq<Grant>,
    place: seq<Place>,
    bearer: seq<Place>)

  datatype Step =
    | Register(token: string, info: Info)
    | Revoke(token: string)
    | Remove(thread: nat, token: string)
    | Count(thread: nat)
    | Insert(thread: nat, now: int)
    | Cleanup(now: int)

  const FRESH := State(map[], map[], 1, map[], [], map[], [], [], [])

  function Set<T>(s: seq<T>, i: nat, x: T): (r: seq<T>)
    ensures |r| == |s|
    ensures forall j :: 0 <= j < |s| ==> r[j] == if j == i then x else s[j]
  {
    if i < |s| then s[i := x] else s
  }

  function Next(s: State, step: Step): State {
    match step
    case Register(token, info) =>
      s.(pending := s.pending[token := info],
         regs := s.regs + [Registration(token, info)],
         owner := s.owner[token := |s.regs|],
         place := (if token in s.owner then Set(s.place, s.owner[token], Gone) else s.place) + [Waiting])
    case Revoke(token) =>
      s.(pending := s.pending - {token}, owner := s.owner - {token},
         place := if token in s.owner then Set(s.place, s.owner[token], Gone) else s.place)
    case Remove(thread, token) =>
      if thread in s.hands || token !in s.pending || token !in s.owner then s
      else
        s.(pending := s.pending - {token}, owner := s.owner - {token},
           hands := s.hands[thread := Hand(token, s.pending[token], s.owner[token], None)],
           place := Set(s.place, s.owner[token], Held(thread)))
    case Count(thread) =>
      if thread !in s.hands || s.hands[thread].no.Some? then s
      else
        s.(hands := s.hands[thread := s.hands[thread].(no := Some(|s.bearer| + 1))],
           counter := Bump(s.counter), bearer := s.bearer + [Held(thread)])
    case Insert(thread, now) =>
      if thread !in s.hands || s.hands[thread].no.None? then s
      else
        var h := s.hands[thread];
        s.(hands := s.hands - {thread},
           sessions := s.sessions[Key(h.no.value) := Session(h.info, now)],
           grants := s.grants + [Grant(h.reg, h.no.value, h.info)],
           place := Set(s.place, h.reg, Used(|s.grants|)),
           bearer := if h.no.value > 0 then Set(s.bearer, h.no.value - 1, Used(|s.grants|)) else s.bearer)
    case Cleanup(now) => s.(sessions := Kept(s.sessions, now))
  }

  function Kept(sessions: map<string, Session>, now: int): map<string, Session> {
    map k | k in sessions && now - sessions[k].createdAt < SESSION_TTL :: sessions[k]
  }

  function Run(log: seq<Step>): State {
    if log == [] then FRESH else Next(Run(log[..|log| - 1]), log[|log| - 1])
  }

  lemma RunStep(log: seq<Step>, step: Step)
    ensures Run(log + [step]) == Next(Run(log), step)
  {
    assert (log + [step])[..|log|] == log;
  }

  // ---- The invariant ----

  ghost predicate PendingFiled(s: State) {
    && s.pending.Keys == s.owner.Keys && |s.place| == |s.regs|
    && forall t :: t in s.owner ==> s.owner[t] < |s.regs| && s.place[s.owner[t]] == Waiting
                                    && s.regs[s.owner[t]] == Registration(t, s.pending[t])
  }

  ghost predicate HandFiled(s: State, th: nat, h: Hand) {
    && h.reg < |s.regs| && h.reg < |s.place| && s.regs[h.reg] == Registration(h.token, h.info) &&
       s.place[h.reg] == Held(th)
    && (h.no.Some? ==> 1 <= h.no.value <= |s.bearer| && s.bearer[h.no.value - 1] == Held(th))
  }

  ghost predicate GrantFiled(s: State, i: nat, g: Grant) {
    && g.reg < |s.regs| && g.reg < |s.place| && s.regs[g.reg].info == g.info && s.place[g.reg] == Used(i)
    && 1 <= g.no <= |s.bearer| && s.bearer[g.no - 1] == Used(i)
  }

  ghost predicate Granted(s: State, key: string, info: Info) {
    exists i :: 0 <= i < |s.grants| && Key(s.grants[i].no) == key && s.grants[i].info == info
  }

  ghost predicate HandsFiled(s: State) {
    forall th :: th in s.hands ==> HandFiled(s, th, s.hands[th])
  }

  ghost predicate GrantsFiled(s: State) {
    forall i :: 0 <= i < |s.grants| ==> GrantFiled(s, i, s.grants[i])
  }

  ghost predicate SessionsFiled(s: State) {
    forall k :: k in s.sessions ==> Granted(s, k, s.sessions[k].info)
  }

  /** Every registration and every number is in one place, and every session was granted. */
  ghost predicate Filed(s: State) {
    && PendingFiled(s)
    && HandsFiled(s) && GrantsFiled(s) && SessionsFiled(s)
    && s.counter == Turn(|s.bearer| + 1)
  }

  /** What is used stays used, by the same grant. */
  ghost predicate UsedKept(s: State, n: State) {
    && n.grants == s.grants && |s.regs| <= |n.regs| && |s.place| <= |n.place| && |s.bearer| <= |n.bearer|
    && (forall r :: 0 <= r < |s.regs| ==> n.regs[r] == s.regs[r])
    && (forall r :: 0 <= r < |s.place| && s.place[r].Used? ==> n.place[r] == s.place[r])
    && (forall b :: 0 <= b < |s.bearer| && s.bearer[b].Used? ==> n.bearer[b] == s.bearer[b])
  }

  lemma UsedFrame(s: State, n: State)
    requires GrantsFiled(s) && UsedKept(s, n)
    ensures GrantsFiled(n)
  {
    forall i | 0 <= i < |n.grants| ensures GrantFiled(n, i, n.grants[i]) {
      assert GrantFiled(s, i, s.grants[i]);
    }
  }

  lemma SessionsFrame(s: State, n: State)
    requires SessionsFiled(s) && n.grants == s.grants
    requires forall k :: k in n.sessions ==> k in s.sessions && n.sessions[k] == s.sessions[k]
    ensures SessionsFiled(n)
  {
    forall k | k in n.sessions ensures Granted(n, k, n.sessions[k].info) {
      assert Granted(s, k, s.sessions[k].info);
    }
  }

  lemma StepUsed(s: State, step: Step)
    requires Filed(s) && !step.Insert?
    ensures UsedKept(s, Next(s, step))
  {
    hide HandFiled, HandsFiled, GrantsFiled, SessionsFiled, Bump, Turn, Key, Kept;
  }

  lemma InsertPending(s: State, thread: nat, now: int)
    requires Filed(s)
    ensures PendingFiled(Next(s, Insert(thread, now)))
  {
    assert thread in s.hands ==> HandFiled(s, thread, s.hands[thread]);
    hide HandsFiled, GrantsFiled, SessionsFiled, Bump, Turn, Key, Kept;
  }

  lemma StepPending(s: State, step: Step)
    requires Filed(s)
    ensures PendingFiled(Next(s, step))
  {
    if step.Insert? {
      InsertPending(s, step.thread, step.now);
    } else {
      hide HandFiled, HandsFiled, GrantsFiled, SessionsFiled, Bump, Turn, Key, Kept;
    }
  }

  lemma RemoveHand(s: State, thread: nat, token: string, th: nat)
    requires Filed(s) && th in Next(s, Remove(thread, token)).hands
    ensures HandFiled(Next(s, Remove(thread, token)), th, Next(s, Remove(thread, token)).hands[th])
  {
    assert th in s.hands ==> HandFiled(s, th, s.hands[th]);
    hide HandsFiled, GrantsFiled, SessionsFiled, Bump, Turn, Key, Kept;
  }

  lemma CountHand(s: State, thread: nat, th: nat)
    requires Filed(s) && th in Next(s, Count(thread)).hands
    ensures HandFiled(Next(s, Count(thread)), th, Next(s, Count(thread)).hands[th])
  {
    assert th in s.hands ==> HandFiled(s, th, s.hands[th]);
    hide HandsFiled, GrantsFiled, SessionsFiled, Bump, Turn, Key, Kept;
  }

  lemma InsertHand(s: State, thread: nat, now: int, th: nat)
    requires Filed(s) && th in Next(s, Insert(thread, now)).hands
    ensures HandFiled(Next(s, Insert(thread, now)), th, Next(s, Insert(thread, now)).hands[th])
  {
    assert th in s.hands ==> HandFiled(s, th, s.hands[th]);
    assert thread in s.hands ==> HandFiled(s, thread, s.hands[thread]);
    hide HandsFiled, GrantsFiled, SessionsFiled, Bump, Turn, Key, Kept;
  }

  lemma StepHand(s: State, step: Step, th: nat)
    requires Filed(s) && th in Next(s, step).hands
    ensures HandFiled(Next(s, step), th, Next(s, step).hands[th])
  {
    match step
    case Remove(thread, token) => RemoveHand(s, thread, token, th);
    case Count(thread) => CountHand(s, thread, th);
    case Insert(thread, now) => InsertHand(s, thread, now, th);
    case _ =>
      assert HandFiled(s, th, s.hands[th]);
      hide HandsFiled, GrantsFiled, SessionsFiled, Bump, Turn, Key, Kept;
  }

  lemma StepCounter(s: State, step: Step)
    requires Filed(s)
    ensures Next(s, step).counter == Turn(|Next(s, step).bearer| + 1)
  {
    BumpTurn(|s.bearer| + 1);
    hide PendingFiled, HandsFiled, GrantsFiled, SessionsFiled, Bump, Turn, Key, Kept;
  }

  lemma OtherGrants(s: State, step: Step)
    requires Filed(s) && !step.Insert?
    ensures GrantsFiled(Next(s, step)) && SessionsFiled(Next(s, step))
  {
    var n := Next(s, step);
    StepUsed(s, step);
    assert n.grants == s.grants && forall k :: k in n.sessions ==> k in s.sessions && n.sessions[k] == s.sessions[k];
    hide Next, PendingFiled, HandsFiled, GrantsFiled, SessionsFiled, UsedKept;
    UsedFrame(s, n);
    SessionsFrame(s, n);
  }

  lemma InsertGrants(s: State, thread: nat, now: int)
    requires Filed(s)
    ensures GrantsFiled(Next(s, Insert(thread, now))) && SessionsFiled(Next(s, Insert(thread, now)))
  {
    var n := Next(s, Insert(thread, now));
    if n != s {
      assert HandFiled(s, thread, s.hands[thread]);
      forall i | 0 <= i < |n.grants| ensures GrantFiled(n, i, n.grants[i]) {
        assert i < |s.grants| ==> GrantFiled(s, i, s.grants[i]);
      }
      forall k | k in n.sessions ensures Granted(n, k, n.sessions[k].info) {
        InsertGranted(s, thread, now, k);
      }
    }
  }

  lemma InsertGranted(s: State, thread: nat, now: int, k: string)
    requires Filed(s) && thread in s.hands && s.hands[thread].no.Some?
    requires k in Next(s, Insert(thread, now)).sessions
    ensures Granted(Next(s, Insert(thread, now)), k, Next(s, Insert(thread, now)).sessions[k].info)
  {
    hide PendingFiled, HandsFiled, GrantsFiled, Bump, Turn, Key;
    var n, h := Next(s, Insert(thread, now)), s.hands[thread];
    if k == Key(h.no.value) {
      assert n.grants[|s.grants|] == Grant(h.reg, h.no.value, h.info);
    } else {
      assert Granted(s, k, s.sessions[k].info);
      var i :| 0 <= i < |s.grants| && Key(s.grants[i].no) == k && s.grants[i].info == s.sessions[k].info;
      assert n.grants[i] == s.grants[i];
    }
  }

  lemma StepFiled(s: State, step: Step)
    requires Filed(s)
    ensures Filed(Next(s, step))
  {
    if step.Insert? {
      InsertGrants(s, step.thread, step.now);
    } else {
      OtherGrants(s, step);
    }
    forall th | th in Next(s, step).hands ensures HandFiled(Next(s, step), th, Next(s, step).hands[th]) {
      StepHand(s, step, th);
    }
    StepPending(s, step);
    StepCounter(s, step);
    hide Next, PendingFiled, GrantsFiled, SessionsFiled, HandFiled, Turn;
  }

  lemma {:induction false} AllFiled(log: seq<Step>)
    ensures Filed(Run(log))
  {
    if log != [] {
      AllFiled(log[..|log| - 1]);
      StepFiled(Run(log[..|log| - 1]), log[|log| - 1]);
      hide Next, Filed;
    }
  }

  // ---- One session for one registration ----

  /** In every interleaving two sessions never come from one registration, and each carries the data that
      was registered. */
  lemma OneSessionEach(log: seq<Step>)
    ensures var s := Run(log);
            && (forall i :: 0 <= i < |s.grants| ==>
               s.grants[i].reg < |s.regs| && s.grants[i].info == s.regs[s.grants[i].reg].info)
            && (forall i, j :: 0 <= i < j < |s.grants| ==>
               s.grants[i].reg != s.grants[j].reg && s.grants[i].no != s.grants[j].no)
  {
    hide Run, Filed, GrantFiled;
    AllFiled(log);
    var s := Run(log);
    forall i | 0 <= i < |s.grants|
      ensures s.grants[i].reg < |s.regs| && s.grants[i].info == s.regs[s.grants[i].reg].info
    {
      GrantIs(s, i);
    }
    forall i, j | 0 <= i < j < |s.grants|
      ensures s.grants[i].reg != s.grants[j].reg && s.grants[i].no != s.grants[j].no
    {
      GrantsDiffer(s, i, j);
    }
  }

  lemma GrantIs(s: State, i: nat)
    requires Filed(s) && i < |s.grants|
    ensures GrantFiled(s, i, s.grants[i])
    ensures s.grants[i].reg < |s.regs| && s.grants[i].info == s.regs[s.grants[i].reg].info
  {
    hide PendingFiled, HandsFiled, SessionsFiled;
  }

  lemma GrantsDiffer(s: State, i: nat, j: nat)
    requires Filed(s) && i < j < |s.grants|
    ensures s.grants[i].reg != s.grants[j].reg && s.grants[i].no != s.grants[j].no
  {
    GrantIs(s, i);
    GrantIs(s, j);
    hide Filed;
  }

  /** Keys repeat exactly when the counter wraps. */
  lemma KeysRepeatIff(m: nat, n: nat)
    ensures Key(m) == Key(n) <==> m % WRAP == n % WRAP
  {
    if Key(m) == Key(n) {
      assert Key(m)[2..] == Digits(m % WRAP) && Key(n)[2..] == Digits(n % WRAP);
      DigitsInjective(m % WRAP, n % WRAP);
    }
  }

  lemma WrapApart(m: nat, n: nat)
    requires 1 <= m <= WRAP && 1 <= n <= WRAP && m % WRAP == n % WRAP
    ensures m == n
  {
  }

  /** Until the counter has gone round, no two sessions ever had one key. */
  lemma KeysUnique(log: seq<Step>, i: nat, j: nat)
    requires |Run(log).bearer| <= WRAP && i < j < |Run(log).grants|
    ensures Key(Run(log).grants[i].no) != Key(Run(log).grants[j].no)
  {
    AllFiled(log);
    var s := Run(log);
    assert GrantFiled(s, i, s.grants[i]) && GrantFiled(s, j, s.grants[j]);
    var m, n := s.grants[i].no, s.grants[j].no;
    if Key(m) == Key(n) {
      KeysRepeatIff(m, n);
      WrapApart(m, n);
    }
  }

  /** `resolve_info` on a key that is known answers with the registration of the one grant of that key. */
  lemma Resolves(log: seq<Step>, key: string)
    requires |Run(log).bearer| <= WRAP && key in Run(log).sessions
    ensures exists i :: 0 <= i < |Run(log).grants| && Key(Run(log).grants[i].no) == key
              && Run(log).grants[i].info == Run(log).sessions[key].info
              && forall j :: 0 <= j < |Run(log).grants| && Key(Run(log).grants[j].no) == key ==> j == i
  {
    AllFiled(log);
    var s := Run(log);
    assert Granted(s, key, s.sessions[key].info);
    var i :| 0 <= i < |s.grants| && Key(s.grants[i].no) == key && s.grants[i].info == s.sessions[key].info;
    forall j | 0 <= j < |s.grants| && Key(s.grants[j].no) == key ensures j == i {
      if j < i {
        KeysUnique(log, j, i);
      } else if i < j {
        KeysUnique(log, i, j);
      }
    }
  }

  // ---- What is over stays over ----

  /** Grants and numbers are only ever added. */
  ghost predicate Grows(s: State, n: State) {
    && |s.grants| <= |n.grants| && |s.bearer| <= |n.bearer|
    && forall i :: 0 <= i < |s.grants| ==> n.grants[i] == s.grants[i]
  }

  lemma StepGrows(s: State, step: Step)
    ensures Grows(s, Next(s, step))
  {
  }

  lemma GrowsOn(a: State, b: State, c: State)
    requires Grows(a, b) && Grows(b, c)
    ensures Grows(a, c)
  {
  }

  lemma {:induction false} RunGrows(log: seq<Step>, more: seq<Step>)
    ensures Grows(Run(log), Run(log + more))
  {
    if more == [] {
      assert log + more == log;
    } else {
      var k := |more| - 1;
      RunGrows(log, more[..k]);
      assert log + more == log + more[..k] + [more[k]];
      RunStep(log + more[..k], more[k]);
      StepGrows(Run(log + more[..k]), more[k]);
      hide Grows, Next, Run;
      GrowsOn(Run(log), Run(log + more[..k]), Run(log + more));
    }
  }

  /** A session key that was granted and is no longer known never comes back. */
  lemma {:induction false} NeverReused(log: seq<Step>, more: seq<Step>, i: nat)
    requires i < |Run(log).grants| && Key(Run(log).grants[i].no) !in Run(log).sessions
    requires |Run(log + more).bearer| <= WRAP
    ensures Key(Run(log).grants[i].no) !in Run(log + more).sessions
  {
    var key := Key(Run(log).grants[i].no);
    if more == [] {
      assert log + more == log;
    } else {
      var k := |more| - 1;
      var before, step := log + more[..k], more[k];
      assert (log + more)[..|log| + k] == before;
      assert log + more == before + [step];
      RunStep(before, step);
      StepGrows(Run(before), step);
      NeverReused(log, more[..k], i);
      RunGrows(log, more[..k]);
      AllFiled(before);
      NotInserted(Run(before), step, i);
    }
  }

  lemma NotInserted(s: State, step: Step, i: nat)
    requires Filed(s) && i < |s.grants| && Key(s.grants[i].no) !in s.sessions
    requires |Next(s, step).bearer| <= WRAP
    ensures Key(s.grants[i].no) !in Next(s, step).sessions
  {
    hide Filed, Key, Bump, Turn;
    if step.Insert? && step.thread in s.hands && s.hands[step.thread].no.Some? {
      NumbersDiffer(s, step.thread, i);
      var m, n := s.grants[i].no, s.hands[step.thread].no.value;
      assert Next(s, step).sessions.Keys == s.sessions.Keys + {Key(n)};
      assert |Next(s, step).bearer| == |s.bearer|;
      hide Next;
      if Key(m) == Key(n) {
        KeysRepeatIff(m, n);
        WrapApart(m, n);
        assert false;
      }
    }
  }

  lemma NumbersDiffer(s: State, thread: nat, i: nat)
    requires Filed(s) && i < |s.grants| && thread in s.hands && s.hands[thread].no.Some?
    ensures var m, n := s.grants[i].no, s.hands[thread].no.value;
            1 <= m <= |s.bearer| && 1 <= n <= |s.bearer| && m != n
  {
    assert HandFiled(s, thread, s.hands[thread]);
    GrantIs(s, i);
    hide Filed;
  }

  ghost predicate IsGone(s: State, r: nat) {
    r < |s.place| && s.place[r] == Gone
  }

  /** A registration that was revoked or overwritten before a thread took it never yields a session. */
  lemma {:induction false} GoneStays(log: seq<Step>, more: seq<Step>, r: nat)
    requires IsGone(Run(log), r)
    ensures IsGone(Run(log + more), r)
    ensures forall i :: 0 <= i < |Run(log + more).grants| ==> Run(log + more).grants[i].reg != r
  {
    hide IsGone;
    if more == [] {
      assert log + more == log;
    } else {
      var k := |more| - 1;
      var before := log + more[..k];
      GoneStays(log, more[..k], r);
      AllFiled(before);
      assert log + more == before + [more[k]];
      RunStep(before, more[k]);
      GoneStep(Run(before), more[k], r);
    }
    AllFiled(log + more);
    NoGrant(Run(log + more), r);
  }

  lemma NoGrant(s: State, r: nat)
    requires Filed(s) && IsGone(s, r)
    ensures forall i :: 0 <= i < |s.grants| ==> s.grants[i].reg != r
  {
    forall i | 0 <= i < |s.grants| ensures s.grants[i].reg != r {
      assert GrantFiled(s, i, s.grants[i]);
    }
  }

  lemma GoneStep(s: State, step: Step, r: nat)
    requires Filed(s) && IsGone(s, r)
    ensures IsGone(Next(s, step), r)
  {
    match step
    case Insert(thread, now) =>
      if thread in s.hands {
        assert HandFiled(s, thread, s.hands[thread]);
      }
    case _ =>
  }

  // ---- The registry itself ----

  /** `TokenRegistry`, used by one thread at a time; the run has the interleaved uses. */
  class TokenRegistry {
    var pending: map<string, Info>
    var sessions: map<string, Session>
    var counter: nat
    ghost var log: seq<Step>

    ghost predicate Valid() reads this {
      var s := Run(log);
      s.pending == pending && s.sessions == sessions && s.counter == counter && s.hands == map[]
    }

    constructor ()
      ensures Valid() && pending == map[] && sessions == map[]
    {
      pending, sessions, counter, log := map[], map[], 1, [];
    }

    ghost method Record(step: Step)
      modifies this`log
      ensures log == old(log) + [step] && Run(log) == Next(Run(old(log)), step)
    {
      RunStep(log, step);
      log := log + [step];
    }

    method Register(token: string, info: Info)
      requires Valid()
      modifies this
      ensures Valid() && pending == old(pending)[token := info] && sessions == old(sessions)
    {
      pending := pending[token := info];
      Record(Step.Register(token, info));
    }

    method Revoke(token: string)
      requires Valid()
      modifies this
      ensures Valid() && pending == old(pending) - {token} && sessions == old(sessions)
    {
      pending := pending - {token};
      Record(Step.Revoke(token));
    }

    /** A pending token is spent for a session under a key that was never handed out before, as long as
        the counter has not gone round. */
    method Consume(token: string, now: int) returns (r: Option<(string, string, string)>)
      requires Valid()
      modifies this
      ensures Valid() && pending == old(pending) - {token}
      ensures r.Some? <==> token in old(pending)
      ensures r.None? ==> sessions == old(sessions)
      ensures r.Some? ==> KeyOf(r.value.0, |Run(old(log)).bearer| + 1)
      ensures r.Some? ==>
                var (key, info) := (r.value.0, old(pending)[token]);
                && r.value == (key, info.taskId, info.agentConfigId)
                && sessions == old(sessions)[key := Session(info, now)]
                && NewKey(old(log), log, key)
    {
      if token !in pending {
        return None;
      }
      hide Run, Next, Key, NewKey, Bump, KeyOf, Digits;
      RunConsume(log, token, now);
      NextKey(log);
      var info := pending[token];
      pending := pending - {token};
      var key := "s-" + Digits(counter);
      counter := Bump(counter);
      sessions := sessions[key := Session(info, now)];
      log := log + [Remove(0, token), Count(0), Insert(0, now)];
      return Some((key, info.taskId, info.agentConfigId));
    }

    /** The data of a grant under this key, for a key that is known. */
    method ResolveInfo(key: string) returns (r: Option<Info>)
      requires Valid()
      ensures r == if key in sessions then Some(sessions[key].info) else None
      ensures r.Some? ==> Granted(Run(log), key, r.value)
      ensures r.Some? && |Run(log).bearer| <= WRAP ==>
                forall i :: 0 <= i < |Run(log).grants| && Key(Run(log).grants[i].no) == key ==>
                  Run(log).grants[i].info == r.value
    {
      if key in sessions {
        AllFiled(log);
        if |Run(log).bearer| <= WRAP {
          Resolves(log, key);
        }
        return Some(sessions[key].info);
      }
      return None;
    }

    method CleanupExpired(now: int)
      requires Valid()
      modifies this
      ensures Valid() && pending == old(pending)
      ensures forall k :: k in sessions <==> k in old(sessions) && now - old(sessions)[k].createdAt < 86400
      ensures forall k :: k in sessions ==> sessions[k] == old(sessions)[k]
    {
      sessions := map k | k in sessions && now - sessions[k].createdAt < SESSION_TTL :: sessions[k];
      Record(Cleanup(now));
    }
  }

  /** The three steps of an undisturbed `consume`. */
  lemma ConsumeSteps(s: State, token: string, now: int)
    requires Filed(s) && s.hands == map[] && token in s.pending
    ensures var n := Next(Next(Next(s, Remove(0, token)), Count(0)), Insert(0, now));
            var key := "s-" + Digits(s.counter);
            && n.hands == map[] && n.pending == s.pending - {token} && n.counter == Bump(s.counter)
            && n.sessions == s.sessions[key := Session(s.pending[token], now)]
            && |n.grants| == |s.grants| + 1 && Key(n.grants[|s.grants|].no) == key
  {
    hide Filed, Bump, Turn;
    assert s.counter == Turn(|s.bearer| + 1) && s.owner.Keys == s.pending.Keys by { FiledCounter(s); }
    var one := Next(s, Remove(0, token));
    assert one.hands == map[0 := Hand(token, s.pending[token], s.owner[token], None)];
    assert one.bearer == s.bearer && one.sessions == s.sessions && one.grants == s.grants;
    var two := Next(one, Count(0));
    assert two.hands == map[0 := Hand(token, s.pending[token], s.owner[token], Some(|s.bearer| + 1))];
    var three := Next(two, Insert(0, now));
    assert three.hands == map[];
  }

  lemma FiledCounter(s: State)
    requires Filed(s)
    ensures s.counter == Turn(|s.bearer| + 1) && s.owner.Keys == s.pending.Keys
  {
  }

  /** The next key has the next number. */
  lemma NextKey(log: seq<Step>)
    ensures KeyOf("s-" + Digits(Run(log).counter), |Run(log).bearer| + 1)
  {
    AllFiled(log);
    FiledCounter(Run(log));
    KeyReads(|Run(log).bearer| + 1);
    hide Run, KeyOf, Digits, Turn, Filed;
  }

  lemma RunConsume(log: seq<Step>, token: string, now: int)
    requires Run(log).hands == map[] && token in Run(log).pending
    ensures var s, more := Run(log), log + [Remove(0, token), Count(0), Insert(0, now)];
            var n, key := Run(more), "s-" + Digits(s.counter);
            && n.hands == map[] && n.pending == s.pending - {token} && n.counter == Bump(s.counter)
            && n.sessions == s.sessions[key := Session(s.pending[token], now)]
            && NewKey(log, more, key)
  {
    AllFiled(log);
    ConsumeSteps(Run(log), token, now);
    RunStep(log, Remove(0, token));
    RunStep(log + [Remove(0, token)], Count(0));
    RunStep(log + [Remove(0, token)] + [Count(0)], Insert(0, now));
    hide Run, Next, Filed, Bump, NewKey, Key;
    var more := log + [Remove(0, token), Count(0), Insert(0, now)];
    assert log + [Remove(0, token)] + [Count(0)] + [Insert(0, now)] == more;
    GrantFresh(log, more, "s-" + Digits(Run(log).counter));
  }

  /** No session had the key before, unless the counter has gone round. */
  ghost predicate NewKey(before: seq<Step>, after: seq<Step>, key: string) {
    |Run(after).bearer| <= WRAP ==> forall i :: 0 <= i < |Run(before).grants| ==> Key(Run(before).grants[i].no) != key
  }

  lemma GrantFresh(before: seq<Step>, after: seq<Step>, key: string)
    requires before <= after && |Run(before).grants| < |Run(after).grants|
    requires key == Key(Run(after).grants[|Run(before).grants|].no)
    ensures NewKey(before, after, key)
  {
    RunGrows(before, after[|before|..]);
    assert before + after[|before|..] == after;
    if |Run(after).bearer| <= WRAP {
      forall i | 0 <= i < |Run(before).grants| ensures Key(Run(before).grants[i].no) != key {
        assert Run(before).grants[i] == Run(after).grants[i];
        KeysUnique(after, i, |Run(before).grants|);
      }
    }
  }
}
