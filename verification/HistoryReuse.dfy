/** What `get` does and what callers are told (internal/pve/history.go), in literal times and sizes over whole runs:
    when it joins, starts, refuses and evicts, how old a reused result is, and what an execution's answer becomes. */
module HistoryReuse {
  import opened Common
  import opened HistorySpec
  import opened HistorySystem
  import opened HistoryCancel

  // ---------- no entry is a cancelled result ----------

  ghost predicate NoCanceledEntry(c: Cache)
    requires Linked(c)
  {
    forall q | q in c.calls && Complete(c.heap[c.calls[q]]) :: c.heap[c.calls[q]].result.err != Canceled
  }

  lemma GetKeepsEntries(c: Cache, q: Query, now: Time, a: Admission, c': Cache)
    requires CacheInv(c) && NoCanceledEntry(c) && Admit(c, q, now, a, c')
    ensures CacheInv(c') && NoCanceledEntry(c')
  {
    AdmitHeap(c, q, now, a, c');
    AdmitKeeps(c, q, now, a, c');
    AdmitEntries(c, q, now, a, c');
    hide Admit, Balanced;
  }

  /** Every entry after `get` was there before, except the one that it may have made. */
  lemma AdmitEntries(c: Cache, q: Query, now: Time, a: Admission, c': Cache)
    requires Linked(c) && Admit(c, q, now, a, c')
    ensures forall p | p in c'.calls ::
              (p in c.calls && c'.calls[p] == c.calls[p]) || (a.Started? && c'.calls[p] == |c.heap|)
  {
    PrunedLinked(c, now);
  }

  lemma FinishKeepsEntries(c: Cache, i: nat, r: Result, now: Time, victims: seq<Query>, c': Cache)
    requires CacheInv(c) && NoCanceledEntry(c) && i < |c.heap| && !Complete(c.heap[i])
    requires Conclude(c, i, r, now, victims, c')
    ensures CacheInv(c') && NoCanceledEntry(c')
  {
    ConcludeHeap(c, i, r, now, victims, c');
    ConcludeKeeps(c, i, r, now, victims, c');
    ConcludeEntries(c, i, r, now, victims, c');
    hide Conclude, Balanced;
  }

  lemma ConcludeEntries(c: Cache, i: nat, r: Result, now: Time, victims: seq<Query>, c': Cache)
    requires CacheInv(c) && i < |c.heap| && !Complete(c.heap[i]) && Conclude(c, i, r, now, victims, c')
    ensures forall p | p in c'.calls :: p in c.calls && c'.calls[p] == c.calls[p]
    ensures r.err == Canceled ==> c.heap[i].query !in c'.calls
  {
    RecordedAccounted(c, i, r, now);
    TrimKeeps(Recorded(c, i, r, now), victims, c');
  }

  lemma {:induction false} EntriesAreGood(ss: seq<Sys>, steps: seq<Step>, k: nat)
    requires Run(ss, steps) && k < |ss|
    ensures CacheInv(ss[k].cache) && NoCanceledEntry(ss[k].cache)
  {
    hide SysInv, Next, NoCanceledEntry;
    RunKeeps(ss, steps, k);
    CacheIsKept(ss[k]);
    if k == 0 {
      NothingListed(ss[0].cache);
    } else {
      EntriesAreGood(ss, steps, k - 1);
      assert Next(ss[k - 1], ss[k], steps[k - 1]);
      RunKeeps(ss, steps, k - 1);
      StepKeepsEntries(ss[k - 1], ss[k], steps[k - 1]);
    }
  }

  lemma NothingListed(c: Cache)
    requires Linked(c) && c.calls == map[]
    ensures NoCanceledEntry(c)
  {}

  lemma StepKeepsEntries(s: Sys, s': Sys, step: Step)
    requires SysInv(s) && NoCanceledEntry(s.cache) && Next(s, s', step)
    ensures CacheInv(s'.cache) && NoCanceledEntry(s'.cache)
  {
    StepKeepsCache(s, s', step);
    hide Balanced, Admit, Conclude;
    match step
    case Get(_, q, a) => GetKeepsEntries(s.cache, q, s.now, a, s'.cache);
    case Finish(i, victims) => FinishKeepsEntries(s.cache, i, s.run[i].r, s.now, victims, s'.cache);
    case _ =>
  }

  // ---------- how old a reused result is ----------

  lemma {:induction false} ExpiryStays(ss: seq<Sys>, steps: seq<Step>, f: nat, j: nat, i: nat)
    requires Run(ss, steps) && f <= j < |ss| && i < |ss[f].cache.heap| && Complete(ss[f].cache.heap[i])
    ensures i < |ss[j].cache.heap| && ss[j].cache.heap[i].expires == ss[f].cache.heap[i].expires
    decreases j
  {
    hide SysInv, Next;
    if f < j {
      ExpiryStays(ss, steps, f, j - 1, i);
      RunKeeps(ss, steps, j - 1);
      CacheIsKept(ss[j - 1]);
      assert Next(ss[j - 1], ss[j], steps[j - 1]);
      StepKeepsResults(ss[j - 1], ss[j], steps[j - 1], i);
    }
  }

  lemma JoinsUnexpired(s: Sys, s': Sys, step: Step)
    requires Next(s, s', step) && step.Get? && step.a.Joined?
    ensures step.q in s.cache.calls && step.a.id == s.cache.calls[step.q] < |s.cache.heap|
    ensures var e := s.cache.heap[step.a.id].expires; e.Some? ==> s.now < e.value
  {
    FreshEntryIsJoined(s.cache, step.q, s.now, step.a, s'.cache);
  }

  lemma FinishSetsExpiry(s: Sys, s': Sys, step: Step)
    requires CacheInv(s.cache) && Next(s, s', step) && step.Finish?
    ensures step.i < |s.run| && s.run[step.i].Returned? && step.i < |s'.cache.heap|
    ensures var r := s.run[step.i].r;
            && s'.cache.heap[step.i].result == r
            && s'.cache.heap[step.i].expires == Some(s.now + if r.err == NoError then 30 * SECOND else 10 * SECOND)
  {
    ConcludeHeap(s.cache, step.i, s.run[step.i].r, s.now, step.victims, s'.cache);
  }

  /** A result that `get` answers with was worked out less than thirty seconds ago, or less than ten if it is an
      error, and it is not a cancellation. */
  lemma JoinedIsRecent(ss: seq<Sys>, steps: seq<Step>, j: nat) returns (f: nat)
    requires Run(ss, steps) && j < |steps| && steps[j].Get? && steps[j].a.Joined?
    requires steps[j].a.id < |ss[j].cache.heap| && ss[j].cache.heap[steps[j].a.id].expires.Some?
    ensures f < j && steps[f].Finish? && steps[f].i == steps[j].a.id < |ss[f].run| && ss[f].run[steps[f].i].Returned?
    ensures var r := ss[f].run[steps[f].i].r;
            && r == ss[j].cache.heap[steps[j].a.id].result && r.err != Canceled
            && ss[j].now < ss[f].now + if r.err == NoError then 30 * SECOND else 10 * SECOND
  {
    hide SysInv, Next, CacheInv;
    var i := steps[j].a.id;
    f := ResultHasOrigin(ss, steps, j, i);
    assert Next(ss[f], ss[f + 1], steps[f]) && Next(ss[j], ss[j + 1], steps[j]);
    RunKeeps(ss, steps, f);
    CacheIsKept(ss[f]);
    FinishSetsExpiry(ss[f], ss[f + 1], steps[f]);
    ExpiryStays(ss, steps, f + 1, j, i);
    JoinsUnexpired(ss[j], ss[j + 1], steps[j]);
    EntriesAreGood(ss, steps, j);
  }

  // ---------- what `get` does ----------

  /** The query has an entry that is executing, or complete and not past its expiry. */
  predicate Answerable(c: Cache, q: Query, now: Time)
    requires Linked(c)
  {
    q in c.calls && (c.heap[c.calls[q]].expires.None? || now < c.heap[c.calls[q]].expires.value)
  }

  /** `get` joins exactly an entry that can answer, refuses exactly with 32 executions under way, and starts one
      otherwise. It evicts exactly if 128 entries that can answer are left, and then one that is complete and expires
      first. */
  lemma GetExactly(ss: seq<Sys>, steps: seq<Step>, j: nat)
    requires Run(ss, steps) && j < |steps| && steps[j].Get?
    ensures Linked(ss[j].cache)
    ensures var c, q, now, a := ss[j].cache, steps[j].q, ss[j].now, steps[j].a;
            var kept := set p | p in c.calls && Answerable(c, p, now);
            var busy := |set i | 0 <= i < |c.heap| && c.heap[i].expires.None?|;
            && (a.Joined? <==> Answerable(c, q, now)) && (a.Joined? ==> a.id == c.calls[q])
            && (a.Refused? <==> !Answerable(c, q, now) && busy >= 32)
            && (a.Started? ==> (a.victim.Some? <==> |kept| >= 128))
            && (a.Started? && a.victim.Some? ==>
                  var v := a.victim.value;
                  && v in kept && c.heap[c.calls[v]].expires.Some?
                  && forall p | p in kept && c.heap[c.calls[p]].expires.Some? ::
                       c.heap[c.calls[v]].expires.value <= c.heap[c.calls[p]].expires.value)
  {
    hide SysInv, Next;
    RunIsBounded(ss, steps, j);
    RunKeeps(ss, steps, j);
    CacheIsKept(ss[j]);
    assert Next(ss[j], ss[j + 1], steps[j]);
    GetAdmits(ss[j], ss[j + 1], steps[j]);
    AdmitsExactly(ss[j].cache, steps[j].q, ss[j].now, steps[j].a, ss[j + 1].cache);
  }

  /** `get` forgets exactly the cooldowns that are over. */
  lemma CooldownsArePruned(s: Sys, s': Sys, step: Step)
    requires Next(s, s', step) && step.Get?
    ensures forall vm :: vm in s'.cache.failures <==> vm in s.cache.failures && s.now < s.cache.failures[vm]
    ensures forall vm | vm in s'.cache.failures :: s'.cache.failures[vm] == s.cache.failures[vm]
  {
    AdmitHeap(s.cache, step.q, s.now, step.a, s'.cache);
    hide Admit;
  }

  lemma GetAdmits(s: Sys, s': Sys, step: Step)
    requires Next(s, s', step) && step.Get?
    ensures Linked(s.cache) && Admit(s.cache, step.q, s.now, step.a, s'.cache)
  {}

  lemma PrunedIsKept(c: Cache, now: Time)
    requires Linked(c)
    ensures Linked(Pruned(c, now)) && Pruned(c, now).heap == c.heap && Pruned(c, now).active == c.active
    ensures Pruned(c, now).calls.Keys == set p | p in c.calls && Answerable(c, p, now)
    ensures forall p | p in Pruned(c, now).calls :: Pruned(c, now).calls[p] == c.calls[p]
  {
    PrunedLinked(c, now);
  }

  lemma AdmitsExactly(c: Cache, q: Query, now: Time, a: Admission, c': Cache)
    requires Linked(c) && Admit(c, q, now, a, c')
    ensures var kept := set p | p in c.calls && Answerable(c, p, now);
            && (a.Joined? <==> Answerable(c, q, now)) && (a.Joined? ==> a.id == c.calls[q])
            && (a.Refused? <==> !Answerable(c, q, now) && c.active >= 32)
            && (a.Started? ==> (a.victim.Some? <==> |kept| >= 128))
            && (a.Started? && a.victim.Some? ==>
                  var v := a.victim.value;
                  && v in kept && c.heap[c.calls[v]].expires.Some?
                  && forall p | p in kept && c.heap[c.calls[p]].expires.Some? ::
                       c.heap[c.calls[v]].expires.value <= c.heap[c.calls[p]].expires.value)
  {
    PrunedIsKept(c, now);
    hide Pruned, Inserted, Joining;
    var p := Pruned(c, now);
    assert |p.calls| == |p.calls.Keys|;
  }

  // ---------- every eviction is needed ----------

  /** While the limit is exceeded one entry after another goes: before each eviction the entries that are left hold
      more than 16 MiB. */
  lemma {:induction false} TrimIsNeeded(c: Cache, victims: seq<Query>, c': Cache, m: nat) returns (d: Cache)
    requires Linked(c) && Accounted(c) && Trim(c, victims, c') && m < |victims|
    ensures d.heap == c.heap && forall p :: p in d.calls <==> p in c.calls && p !in victims[..m]
    ensures victims[m] in d.calls && d.bytes == Bytes(d.heap, Kept(d)) && d.bytes > 16 * 1024 * 1024
    decreases m
  {
    hide Accounted, Kept, Bytes, Trim, Linked, Drop;
    TrimHead(c, victims, c');
    if m == 0 {
      d := c;
      BytesAreExact(c);
    } else {
      d := TrimIsNeeded(Drop(c, victims[0]), victims[1..], c', m - 1);
      assert victims[..m] == [victims[0]] + victims[1..][..m - 1];
    }
  }

  lemma TrimHead(c: Cache, victims: seq<Query>, c': Cache)
    requires Linked(c) && Accounted(c) && Trim(c, victims, c') && victims != []
    ensures c.bytes > 16 * 1024 * 1024 && victims[0] in c.calls && c.calls[victims[0]] < |c.heap|
    ensures var d := Drop(c, victims[0]);
            && d.heap == c.heap && (forall p :: p in d.calls <==> p in c.calls && p != victims[0])
            && Linked(d) && Accounted(d) && Trim(d, victims[1..], c')
  {
    hide Accounted;
    DropAccounted(c, victims[0]);
  }

  lemma BytesAreExact(c: Cache)
    requires Accounted(c)
    ensures c.bytes == Bytes(c.heap, Kept(c))
  {}

  // ---------- what an answer becomes ----------

  /** What the execution comes to by this step, if it does. */
  function Conclusion(m: Move): Option<Result> {
    match m
    case GiveUp(err) => Some(Result(0, err))
    case Reject(err) => Some(Result(0, err))
    case Cool => Some(Result(0, Source))
    case Answer(raw) => Some(if raw.size > 2 * 1024 * 1024 then Result(0, Other) else raw)
    case _ => None
  }

  lemma MoveConcludes(s: Sys, i: nat, m: Move)
    requires |s.run| == |s.cache.heap| && CanMove(s, i, m)
    ensures Outcome(s.run[i], s.cache.heap[i]).None? ==> Outcome(Target(s.run[i], m), s.cache.heap[i]) == Conclusion(m)
  {}

  lemma StepConcludes(s: Sys, s': Sys, step: Step, i: nat)
    requires CacheInv(s.cache) && ExecInv(s) && Next(s, s', step) && i < |s.run|
    ensures i < |s.cache.heap| && i < |s'.run| && i < |s'.cache.heap|
    ensures Outcome(s.run[i], s.cache.heap[i]).None? && Outcome(s'.run[i], s'.cache.heap[i]).Some? ==>
              && step.Execute? && step.i == i
              && Conclusion(step.m) == Outcome(s'.run[i], s'.cache.heap[i])
    ensures Outcome(s.run[i], s.cache.heap[i]).Some? ==>
              Outcome(s'.run[i], s'.cache.heap[i]) == Outcome(s.run[i], s.cache.heap[i])
  {
    hide CacheInv, ExecInv, Admit, Conclude, Conclusion;
    StepKeepsOutcome(s, s', step, i);
    match step
    case Get(_, q, a) => AdmitHeap(s.cache, q, s.now, a, s'.cache);
    case Finish(j, victims) => FinishEffect(s, s', step);
    case Execute(j, m) => if i == j { MoveConcludes(s, i, m); }
    case _ =>
  }

  /** The result of a call is what its execution came to at one step: a context error or a refusal without bytes, the
      source error of a cooldown, or the answer itself, unless it is longer than 2 MiB. */
  lemma {:induction false} ResultIsTheAnswer(ss: seq<Sys>, steps: seq<Step>, k: nat, i: nat) returns (m: nat)
    requires Run(ss, steps) && k < |ss| && i < |ss[k].run| == |ss[k].cache.heap|
    requires Outcome(ss[k].run[i], ss[k].cache.heap[i]).Some?
    ensures m < k && steps[m].Execute? && steps[m].i == i
    ensures Conclusion(steps[m].m) == Outcome(ss[k].run[i], ss[k].cache.heap[i])
  {
    hide SysInv, Next, CacheInv, ExecInv, Conclusion;
    if k == 0 {
      assert false;
    } else {
      RunKeeps(ss, steps, k - 1);
      InvParts(ss[k - 1]);
      assert Next(ss[k - 1], ss[k], steps[k - 1]);
      if i >= |ss[k - 1].run| {
        NewCallIsOpen(ss[k - 1], ss[k], steps[k - 1], i);
      } else {
        StepConcludes(ss[k - 1], ss[k], steps[k - 1], i);
        if Outcome(ss[k - 1].run[i], ss[k - 1].cache.heap[i]).Some? {
          m := ResultIsTheAnswer(ss, steps, k - 1, i);
        } else {
          m := k - 1;
        }
      }
    }
  }

  lemma NewCallIsOpen(s: Sys, s': Sys, step: Step, i: nat)
    requires CacheInv(s.cache) && ExecInv(s) && Next(s, s', step) && |s.run| <= i < |s'.run|
    ensures i < |s'.cache.heap| && Outcome(s'.run[i], s'.cache.heap[i]).None?
  {
    if step.Get? { AdmitHeap(s.cache, step.q, s.now, step.a, s'.cache); }
  }

  /** What a caller is told is what the lookup answered, or why there was none. */
  lemma CallerIsToldTheAnswer(ss: seq<Sys>, steps: seq<Step>, j: nat, k: nat, caller: nat, r: Result) returns (m: nat)
    requires Run(ss, steps) && j < k < |steps|
    requires steps[j].Get? && steps[j].caller == caller && !steps[j].a.Refused?
    requires steps[k] == Deliver(caller, r) && forall n | j < n < k :: !Departs(steps[n], caller)
    ensures m < k && steps[m].Execute? && steps[m].i == steps[j].a.id < |ss[m].cache.heap|
    ensures ss[m].cache.heap[steps[m].i].query == steps[j].q
    ensures match steps[m].m
            case GiveUp(err) => r == Result(0, err)
            case Reject(err) => r == Result(0, err)
            case Cool => r == Result(0, Source)
            case Answer(raw) => r == if raw.size > 2 * 1024 * 1024 then Result(0, Other) else raw
            case _ => false
  {
    hide SysInv, Next, ExecInv, CacheInv;
    StaysParked(ss, steps, j, k, caller);
    assert Next(ss[k], ss[k + 1], steps[k]);
    var i := steps[j].a.id;
    RunKeeps(ss, steps, k);
    InvParts(ss[k]);
    DeliversOutcome(ss[k], ss[k + 1], caller, r);
    m := ResultIsTheAnswer(ss, steps, k, i);
    assert Next(ss[m], ss[m + 1], steps[m]);
    ExecutesOwn(ss[m], ss[m + 1], steps[m]);
    QueryStays(ss, steps, m, k, i);
  }

  lemma DeliversOutcome(s: Sys, s': Sys, caller: nat, r: Result)
    requires ExecInv(s) && Next(s, s', Deliver(caller, r))
    ensures caller in s.parked && s.parked[caller] < |s.run| == |s.cache.heap|
    ensures Outcome(s.run[s.parked[caller]], s.cache.heap[s.parked[caller]]) == Some(r)
  {}

  lemma ExecutesOwn(s: Sys, s': Sys, step: Step)
    requires Next(s, s', step) && step.Execute?
    ensures step.i < |s.cache.heap|
  {}

  lemma {:induction false} QueryStays(ss: seq<Sys>, steps: seq<Step>, m: nat, k: nat, i: nat)
    requires Run(ss, steps) && m <= k < |ss| && i < |ss[m].cache.heap|
    ensures i < |ss[k].cache.heap| && ss[k].cache.heap[i].query == ss[m].cache.heap[i].query
    decreases k
  {
    hide SysInv, Next, CacheInv;
    if m < k {
      QueryStays(ss, steps, m, k - 1, i);
      RunKeeps(ss, steps, k - 1);
      InvParts(ss[k - 1]);
      assert Next(ss[k - 1], ss[k], steps[k - 1]);
      StepKeepsResults(ss[k - 1], ss[k], steps[k - 1], i);
    }
  }

  /** A queued execution can go on whenever fewer than four hold a slot. */
  lemma SlotsAreFour(ss: seq<Sys>, steps: seq<Step>, k: nat, i: nat)
    requires Run(ss, steps) && k < |ss| && i < |ss[k].run| && ss[k].run[i].Queued?
    requires |set j | 0 <= j < |ss[k].run| && !ss[k].run[j].Queued? && !ss[k].run[j].Returned?
                      && !ss[k].run[j].Finished?| < 4
    ensures exists s' :: Next(ss[k], s', Execute(i, TakeSlot)) && i < |s'.run| && s'.run[i].Slotted?
  {
    RunKeeps(ss, steps, k);
    var run := ss[k].run;
    assert (set j | 0 <= j < |run| && !run[j].Queued? && !run[j].Returned? && !run[j].Finished?) == Holders(run);
    assert Next(ss[k], Moved(ss[k], i, TakeSlot), Execute(i, TakeSlot));
  }
}
