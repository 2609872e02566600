/** A call that nobody interferes with: its steps, one after the other, are the phases of the store. */
module Sequential {
  import opened Wrappers
  import opened SessionTypes
  import opened Layers
  import opened Interleaving
  import A = Archive
  import R = Recency
  import S = Storage

  /** The phase of one thread and the archive, before the locked section. */
  ghost predicate HandsOver(s: State, t: nat, m: MsgRef, fault: Option<Session>, semantic: Option<Session>) {
    && t in s.threads && s.threads[t].Ready? && s.threads[t].msg == m
    && Fault(m, s.threads[t].taken) == fault && Semantic(m, s.threads[t].taken) == semantic
  }

  /** Up to the lock: the call finds in the archive what the store's unlocked phases find there, takes it out,
      and hands it to the locked section as they do. */
  lemma UpToTheLock(
    s: State, t: nat, m: MsgRef, hint: Option<string>, now: nat, tables: A.Tables,
    fault: Option<Session>, semantic: Option<Session>)
    requires t !in s.threads
    requires S.Fetched(s.inner.index, tables, R.Obs(m, hint, now), fault, semantic)
    ensures var s2 := Apply(Apply(s, Arrive(t, m)), Check(t));
            var found := if fault.Some? then fault else semantic;
            if s2.threads[t].Ready? then
              fault == None && semantic == None && s2.archive == s.archive && HandsOver(s2, t, m, fault, semantic)
            else
              && s2.threads[t] == Seeking(m)
              && var s3 := Apply(s2, Load(t, found));
                 if found.None? then s3.archive == s.archive && HandsOver(s3, t, m, fault, semantic)
                 else
                   && s3.threads[t] == Loaded(m, found.value)
                   && var s4 := Apply(s3, Delete(t));
                      s4.archive == s.archive - {found.value.sessionId} && HandsOver(s4, t, m, fault, semantic)
  {
    hide A.LoadByMsg, A.SemanticSearch;
  }

  /** And after it: an evicted session is in the archive in the place of any older copy, and the next is due. */
  lemma AfterTheLock(s: State, t: nat)
    requires t in s.threads && s.threads[t].Persisting? && s.threads[t].queue != []
    ensures var x, s2 := s.threads[t].queue[0], Apply(Apply(s, Drop(t)), Add(t));
            && s2.archive == s.archive[x.sessionId := x] && s2.inner == s.inner
            && s2.threads == s.threads[t := Persisting(s.threads[t].queue[1..])]
  {
    var x, s2 := s.threads[t].queue[0], Apply(Apply(s, Drop(t)), Add(t));
    assert (s.archive - {x.sessionId})[x.sessionId := x] == s.archive[x.sessionId := x];
    assert s2.threads == s.threads[t := Persisting(s.threads[t].queue[1..])];
  }
}
