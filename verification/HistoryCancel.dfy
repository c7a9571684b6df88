/** Who is told that a history query was cancelled (internal/pve/history.go). A caller that stays parked is never
    cancelled by others leaving, but it may have joined a call whose last caller had already left. */
module HistoryCancel {
  import opened Common
  import opened HistorySpec
  import opened HistorySystem

  // ---------- a cancelled result has a cause ----------

  /** The result that an execution has arrived at. */
  function Outcome(p: Phase, c: Call): Option<Result> {
    match p
    case Answered(r) => Some(r)
    case Noted(r) => Some(r)
    case Unlocked(r) => Some(r)
    case Returned(r) => Some(r)
    case Finished => Some(c.result)
    case _ => None
  }

  predicate EndsCanceled(p: Phase, c: Call) { Outcome(p, c).Some? && Outcome(p, c).value.err == Canceled }

  /** Only a cancelled call, or a shutdown, gives a cancelled result. */
  ghost predicate CauseInv(s: Sys) {
    && |s.run| == |s.cache.heap|
    && forall i | 0 <= i < |s.run| && EndsCanceled(s.run[i], s.cache.heap[i]) :: s.cache.heap[i].cancelled || s.shutdown
  }

  /** What a step may do to the outcome of a call and to its flag: an outcome stands, a cancelled one is new only
      with a cause, and the flag is never taken back. */
  ghost predicate Follows(s: Sys, p: Phase, c: Call, p': Phase, c': Call) {
    && (Outcome(p, c).Some? ==> Outcome(p', c') == Outcome(p, c))
    && (EndsCanceled(p', c') && !EndsCanceled(p, c) ==> c.cancelled || s.shutdown)
    && (c.cancelled ==> c'.cancelled)
  }

  lemma MoveFollows(s: Sys, i: nat, m: Move)
    requires |s.run| == |s.cache.heap| && CanMove(s, i, m)
    ensures Follows(s, s.run[i], s.cache.heap[i], Target(s.run[i], m), s.cache.heap[i])
  {}

  /** A step that leaves the phase, the result and the completeness of a call alone. */
  lemma SameFollows(s: Sys, p: Phase, c: Call, c': Call)
    requires c'.result == c.result && (c.cancelled ==> c'.cancelled)
    ensures Follows(s, p, c, p, c')
  {}

  lemma GetFollows(s: Sys, s': Sys, step: Step, i: nat)
    requires CacheInv(s.cache) && Next(s, s', step) && step.Get? && i < |s.run|
    ensures i < |s.cache.heap| && i < |s'.run| && i < |s'.cache.heap|
    ensures Follows(s, s.run[i], s.cache.heap[i], s'.run[i], s'.cache.heap[i])
  {
    AdmitHeap(s.cache, step.q, s.now, step.a, s'.cache);
    hide Admit, CacheInv, Follows;
    SameFollows(s, s.run[i], s.cache.heap[i], s'.cache.heap[i]);
  }

  lemma FinishEffect(s: Sys, s': Sys, step: Step)
    requires CacheInv(s.cache) && Next(s, s', step) && step.Finish?
    ensures step.i < |s.run| == |s.cache.heap| && s.run[step.i].Returned? && s'.run == s.run[step.i := Finished]
    ensures var r := s.run[step.i].r;
            s'.cache.heap == s.cache.heap[step.i := s.cache.heap[step.i].(result := r, expires := Some(s.now + Ttl(r)))]
    ensures s'.shutdown == s.shutdown
  {
    ConcludeHeap(s.cache, step.i, s.run[step.i].r, s.now, step.victims, s'.cache);
  }

  lemma FinishFollows(s: Sys, s': Sys, step: Step, i: nat)
    requires CacheInv(s.cache) && ExecInv(s) && Next(s, s', step) && step.Finish? && i < |s.run|
    ensures i < |s.cache.heap| && i < |s'.run| && i < |s'.cache.heap|
    ensures Follows(s, s.run[i], s.cache.heap[i], s'.run[i], s'.cache.heap[i])
  {
    hide Conclude, CacheInv, Exclusive, Linked;
    FinishEffect(s, s', step);
    if i != step.i { SameFollows(s, s.run[i], s.cache.heap[i], s'.cache.heap[i]); }
  }

  lemma StepKeepsOutcome(s: Sys, s': Sys, step: Step, i: nat)
    requires CacheInv(s.cache) && ExecInv(s) && Next(s, s', step) && i < |s.run|
    ensures i < |s.cache.heap| && i < |s'.run| && i < |s'.cache.heap|
    ensures Follows(s, s.run[i], s.cache.heap[i], s'.run[i], s'.cache.heap[i]) && (s.shutdown ==> s'.shutdown)
  {
    hide Follows, CacheInv, ExecInv, Admit, Conclude;
    match step
    case Get(_, _, _) => GetFollows(s, s', step, i);
    case Finish(_, _) => FinishFollows(s, s', step, i);
    case Execute(j, m) =>
      if i == j { MoveFollows(s, i, m); } else { SameFollows(s, s.run[i], s.cache.heap[i], s'.cache.heap[i]); }
    case _ => SameFollows(s, s.run[i], s.cache.heap[i], s'.cache.heap[i]);
  }

  lemma NewCallHasNoOutcome(s: Sys, s': Sys, step: Step, i: nat)
    requires CacheInv(s.cache) && ExecInv(s) && Next(s, s', step) && |s.run| <= i < |s'.run|
    ensures i < |s'.cache.heap| && !EndsCanceled(s'.run[i], s'.cache.heap[i])
  {
    if step.Get? { AdmitHeap(s.cache, step.q, s.now, step.a, s'.cache); }
  }

  lemma InvParts(s: Sys)
    requires SysInv(s)
    ensures CacheInv(s.cache) && ExecInv(s) && ParkInv(s) && |s.run| == |s.cache.heap|
  {}

  lemma StepKeepsCause(s: Sys, s': Sys, step: Step)
    requires SysInv(s) && CauseInv(s) && Next(s, s', step)
    ensures SysInv(s') && CauseInv(s')
  {
    hide SysInv, CacheInv, ExecInv, ParkInv, Next, EndsCanceled;
    StepKeeps(s, s', step);
    InvParts(s);
    InvParts(s');
    forall i | 0 <= i < |s'.run| && EndsCanceled(s'.run[i], s'.cache.heap[i])
      ensures s'.cache.heap[i].cancelled || s'.shutdown
    {
      if i < |s.run| {
        StepKeepsOutcome(s, s', step, i);
      } else {
        NewCallHasNoOutcome(s, s', step, i);
      }
    }
  }

  lemma {:induction false} RunKeepsCause(ss: seq<Sys>, steps: seq<Step>, k: nat)
    requires Run(ss, steps) && k < |ss|
    ensures SysInv(ss[k]) && CauseInv(ss[k])
  {
    hide SysInv, Next;
    RunKeeps(ss, steps, k);
    if k > 0 {
      RunKeepsCause(ss, steps, k - 1);
      assert Next(ss[k - 1], ss[k], steps[k - 1]);
      StepKeepsCause(ss[k - 1], ss[k], steps[k - 1]);
    }
  }

  // ---------- a caller that stays is not cancelled by others ----------

  /** The call that this `get` returned is cancelled already. */
  predicate JoinsCancelled(s: Sys, step: Step) {
    step.Get? && step.a.Joined? && step.a.id < |s.cache.heap| && s.cache.heap[step.a.id].cancelled
  }

  lemma StayKeepsFlag(s: Sys, s': Sys, step: Step, caller: nat)
    requires SysInv(s) && Next(s, s', step) && caller in s.parked && !Departs(step, caller)
    ensures s.parked[caller] < |s.cache.heap| && s.parked[caller] < |s'.cache.heap|
    ensures s'.cache.heap[s.parked[caller]].cancelled == s.cache.heap[s.parked[caller]].cancelled
  {
    hide ExecInv, RememberInv, ClearedInv, Spaced, CacheInv;
    var i := s.parked[caller];
    if s.cache.heap[i].cancelled {
      StepKeepsOutcome(s, s', step, i) by { InvParts(s); }
    } else {
      CancelledByLastWaiterOnly(s, s', step, i);
      assert caller in Waiting(s.parked, i);
    }
  }

  lemma JoinKeepsFlag(s: Sys, s': Sys, step: Step)
    requires SysInv(s) && Next(s, s', step) && step.Get? && !step.a.Refused?
    ensures step.a.id < |s'.cache.heap| && s'.cache.heap[step.a.id].cancelled == JoinsCancelled(s, step)
  {
    AdmitHeap(s.cache, step.q, s.now, step.a, s'.cache);
  }

  /** As long as a caller is parked its call is cancelled if and only if it already was when the caller came. */
  lemma {:induction false} CancelledBeforeJoin(ss: seq<Sys>, steps: seq<Step>, j: nat, k: nat, caller: nat)
    requires Run(ss, steps) && j < k < |ss|
    requires steps[j].Get? && steps[j].caller == caller && !steps[j].a.Refused?
    requires forall m | j < m < k :: !Departs(steps[m], caller)
    ensures steps[j].a.id < |ss[k].cache.heap|
    ensures ss[k].cache.heap[steps[j].a.id].cancelled <==> JoinsCancelled(ss[j], steps[j])
  {
    hide SysInv, Next, JoinsCancelled;
    StaysParked(ss, steps, j, k, caller);
    RunKeeps(ss, steps, k - 1);
    assert Next(ss[k - 1], ss[k], steps[k - 1]);
    if k == j + 1 {
      JoinKeepsFlag(ss[j], ss[k], steps[j]);
    } else {
      StaysParked(ss, steps, j, k - 1, caller);
      CancelledBeforeJoin(ss, steps, j, k - 1, caller);
      StayKeepsFlag(ss[k - 1], ss[k], steps[k - 1], caller);
    }
  }

  /** A caller that stays until its call is complete is told "cancelled" only if the call was cancelled before it
      came, or the cache is shut down. */
  lemma CanceledHasCause(ss: seq<Sys>, steps: seq<Step>, j: nat, k: nat, caller: nat, r: Result)
    requires Run(ss, steps) && j < k < |steps|
    requires steps[j].Get? && steps[j].caller == caller && !steps[j].a.Refused?
    requires forall m | j < m < k :: !Departs(steps[m], caller)
    requires steps[k] == Deliver(caller, r) && r.err == Canceled
    ensures JoinsCancelled(ss[j], steps[j]) || ss[k].shutdown
  {
    hide SysInv, CauseInv, JoinsCancelled, Next;
    StaysParked(ss, steps, j, k, caller);
    CancelledBeforeJoin(ss, steps, j, k, caller);
    RunKeepsCause(ss, steps, k);
    assert Next(ss[k], ss[k + 1], steps[k]);
    DeliveredHasCause(ss[k], ss[k + 1], caller, r);
  }

  lemma DeliveredHasCause(s: Sys, s': Sys, caller: nat, r: Result)
    requires SysInv(s) && CauseInv(s) && Next(s, s', Deliver(caller, r)) && r.err == Canceled
    ensures caller in s.parked && s.parked[caller] < |s.cache.heap|
    ensures s.cache.heap[s.parked[caller]].cancelled || s.shutdown
  {
    hide SysInv;
    InvParts(s);
    assert EndsCanceled(s.run[s.parked[caller]], s.cache.heap[s.parked[caller]]);
  }

  // ---------- when a parked caller can be told so ----------

  /** `ss` goes on from any state, without a shutdown, while the caller stays. */
  ghost predicate Waits(ss: seq<Sys>, steps: seq<Step>, caller: nat) {
    && |ss| == |steps| + 1
    && forall k | 0 <= k < |steps| ::
         Next(ss[k], ss[k + 1], steps[k]) && !steps[k].Shutdown? && !Departs(steps[k], caller)
  }

  /** Going on from `s`, the caller can be told that its query was cancelled. */
  ghost predicate CanBeCanceled(s: Sys, caller: nat) {
    exists ss, steps ::
      |ss| == |steps| + 1 && Waits(ss, steps, caller) && ss[0] == s && DeliversCanceled(ss[|steps|], caller)
  }

  predicate DeliversCanceled(s: Sys, caller: nat) {
    caller in s.parked && s.parked[caller] < |s.cache.heap|
    && Complete(s.cache.heap[s.parked[caller]]) && s.cache.heap[s.parked[caller]].result.err == Canceled
  }

  /** The call is cancelled, and its execution has not arrived at another result. */
  predicate Doomed(s: Sys, i: nat)
    requires i < |s.run| && i < |s.cache.heap|
  {
    var outcome := Outcome(s.run[i], s.cache.heap[i]);
    s.cache.heap[i].cancelled && (outcome.None? || outcome.value.err == Canceled)
  }

  lemma StepKeepsHope(s: Sys, s': Sys, step: Step, caller: nat)
    requires SysInv(s) && CauseInv(s) && !s.shutdown && Next(s, s', step) && !step.Shutdown?
    requires caller in s.parked && !Departs(step, caller)
    ensures SysInv(s') && CauseInv(s') && !s'.shutdown && caller in s'.parked && s'.parked[caller] == s.parked[caller]
    ensures |s.run| == |s.cache.heap| && |s'.run| == |s'.cache.heap|
    ensures s.parked[caller] < |s.run| && s.parked[caller] < |s'.run|
    ensures !Doomed(s, s.parked[caller]) ==> !Doomed(s', s.parked[caller])
  {
    hide SysInv, CacheInv, ExecInv;
    StepKeepsCause(s, s', step);
    InvParts(s);
    InvParts(s');
    StayKeepsFlag(s, s', step, caller);
    StepKeepsOutcome(s, s', step, s.parked[caller]);
    StepKeepsPlace(s, s', step, caller);
  }

  lemma {:induction false} HopeStays(ss: seq<Sys>, steps: seq<Step>, caller: nat)
    requires Waits(ss, steps, caller) && SysInv(ss[0]) && CauseInv(ss[0]) && !ss[0].shutdown && caller in ss[0].parked
    requires |ss[0].run| == |ss[0].cache.heap| && ss[0].parked[caller] < |ss[0].run|
    requires !Doomed(ss[0], ss[0].parked[caller])
    ensures !DeliversCanceled(ss[|steps|], caller)
    decreases |steps|
  {
    hide SysInv, Next;
    if steps == [] {
      InvParts(ss[0]);
      NotDoomedNotCanceled(ss[0], caller);
    } else {
      assert Next(ss[0], ss[1], steps[0]);
      StepKeepsHope(ss[0], ss[1], steps[0], caller);
      assert Waits(ss[1..], steps[1..], caller);
      HopeStays(ss[1..], steps[1..], caller);
    }
  }

  lemma NotDoomedNotCanceled(s: Sys, caller: nat)
    requires ExecInv(s) && CauseInv(s) && !s.shutdown && caller in s.parked && s.parked[caller] < |s.run|
    requires |s.run| == |s.cache.heap| && !Doomed(s, s.parked[caller])
    ensures !DeliversCanceled(s, caller)
  {
    var i := s.parked[caller];
    assert s.run[i].Finished? <==> Complete(s.cache.heap[i]);
    var ends := EndsCanceled(s.run[i], s.cache.heap[i]);
  }

  // ---------- how it comes to that ----------

  function Rank(p: Phase): nat {
    match p
    case Queued => 2
    case Slotted => 3
    case Locked => 7
    case Cleared => 6
    case Querying => 5
    case Answered(_) => 4
    case Noted(_) => 3
    case Unlocked(_) => 2
    case Returned(_) => 1
    case Finished => 0
  }

  /** The step by which a cancelled execution comes closer to its end. */
  function Onward(s: Sys, i: nat): Step
    requires i < |s.run| && i < |s.cache.heap|
  {
    match s.run[i]
    case Queued => Execute(i, GiveUp(Canceled))
    case Slotted => Execute(i, Reject(Canceled))
    case Locked => if Cooling(s, Vm(s, i)) then Tick(s.cache.failures[Vm(s, i)]) else Execute(i, Clear)
    case Cleared => Execute(i, Ask)
    case Querying => Execute(i, Answer(Result(0, Canceled)))
    case Answered(_) => Execute(i, Note)
    case Noted(_) => Execute(i, Unlock)
    case Unlocked(_) => Execute(i, FreeSlot)
    case _ => Finish(i, [])
  }

  predicate Delayed(s: Sys, i: nat)
    requires i < |s.run| && i < |s.cache.heap|
  {
    s.run[i].Locked? && Cooling(s, Vm(s, i))
  }

  /** What `Onward` leads to. */
  function After(s: Sys, i: nat): Sys
    requires i < |s.run| && i < |s.cache.heap|
  {
    match Onward(s, i)
    case Tick(later) => s.(now := later)
    case Execute(_, m) => Moved(s, i, m)
    case _ => s.(run := s.run[i := Finished],
                 cache := if s.run[i].Returned? then Recorded(s.cache, i, s.run[i].r, s.now) else s.cache)
  }

  ghost predicate Advances(s: Sys, s': Sys, i: nat)
    requires i < |s.run| && i < |s.cache.heap|
  {
    && |s'.run| == |s'.cache.heap| && i < |s'.run| && Doomed(s', i)
    && (Rank(s'.run[i]) < Rank(s.run[i]) || (Delayed(s, i) && !Delayed(s', i) && s'.run[i] == s.run[i]))
  }

  lemma ReturnedIsFinished(s: Sys, i: nat)
    requires Shaped(s) && CacheInv(s.cache) && i < |s.run| == |s.cache.heap| && Doomed(s, i) && s.run[i].Returned?
    ensures Next(s, After(s, i), Onward(s, i)) && Advances(s, After(s, i), i)
  {
    RecordedLinked(s.cache, i, s.run[i].r, s.now);
  }

  lemma LockedGoesOn(s: Sys, i: nat)
    requires Shaped(s) && i < |s.run| == |s.cache.heap| && Doomed(s, i) && s.run[i].Locked?
    ensures Next(s, After(s, i), Onward(s, i)) && Advances(s, After(s, i), i)
  {}

  lemma ExecutionGoesOn(s: Sys, i: nat)
    requires Shaped(s) && i < |s.run| == |s.cache.heap| && Doomed(s, i)
    requires !s.run[i].Locked? && !s.run[i].Returned? && !s.run[i].Finished?
    ensures Next(s, After(s, i), Onward(s, i)) && Advances(s, After(s, i), i)
  {}

  lemma OnwardIsStep(s: Sys, i: nat)
    requires Shaped(s) && CacheInv(s.cache) && i < |s.run| == |s.cache.heap| && Doomed(s, i) && !s.run[i].Finished?
    ensures Next(s, After(s, i), Onward(s, i)) && Advances(s, After(s, i), i)
  {
    hide Next, Advances, Shaped, CacheInv, Doomed, After, Onward;
    if s.run[i].Locked? {
      LockedGoesOn(s, i);
    } else if s.run[i].Returned? {
      ReturnedIsFinished(s, i);
    } else {
      ExecutionGoesOn(s, i);
    }
  }

  lemma OnwardStays(s: Sys, i: nat, caller: nat)
    requires i < |s.run| && i < |s.cache.heap|
    ensures !Onward(s, i).Shutdown? && !Departs(Onward(s, i), caller)
  {}

  lemma {:induction false} DoomedIsCanceled(s: Sys, caller: nat) returns (ss: seq<Sys>, steps: seq<Step>)
    requires SysInv(s) && caller in s.parked && |s.run| == |s.cache.heap|
    requires s.parked[caller] < |s.run| && Doomed(s, s.parked[caller])
    ensures |ss| == |steps| + 1 && Waits(ss, steps, caller) && ss[0] == s && DeliversCanceled(ss[|steps|], caller)
    decreases Rank(s.run[s.parked[caller]]), if Delayed(s, s.parked[caller]) then 1 else 0
  {
    hide SysInv, CacheInv, Next, Shaped, Rank, Cooling, After, Onward;
    var i := s.parked[caller];
    InvParts(s);
    if s.run[i].Finished? {
      assert Complete(s.cache.heap[i]);
      ss, steps := [s], [];
    } else {
      InvShaped(s);
      var s' := After(s, i);
      OnwardIsStep(s, i);
      OnwardStays(s, i, caller);
      StepKeeps(s, s', Onward(s, i));
      StepKeepsPlace(s, s', Onward(s, i), caller);
      var rest, more := DoomedIsCanceled(s', caller);
      ss, steps := [s] + rest, [Onward(s, i)] + more;
    }
  }

  lemma InvShaped(s: Sys)
    requires SysInv(s)
    ensures Shaped(s)
  {}

  /** In every state of every run before a shutdown: a parked caller can still be told that its query was
      cancelled, without leaving, if and only if its call is cancelled and has no other result yet. */
  lemma CanceledExactly(ss: seq<Sys>, steps: seq<Step>, k: nat, caller: nat)
    requires Run(ss, steps) && k < |ss| && !ss[k].shutdown && caller in ss[k].parked
    ensures |ss[k].run| == |ss[k].cache.heap| && ss[k].parked[caller] < |ss[k].run|
    ensures CanBeCanceled(ss[k], caller) <==> Doomed(ss[k], ss[k].parked[caller])
  {
    hide SysInv, Waits, Doomed, DeliversCanceled, CauseInv;
    RunKeepsCause(ss, steps, k);
    InvParts(ss[k]);
    var s := ss[k];
    if Doomed(s, s.parked[caller]) {
      var path, more := DoomedIsCanceled(s, caller);
    } else {
      forall path, more | |path| == |more| + 1 && Waits(path, more, caller) && path[0] == s
        ensures !DeliversCanceled(path[|more|], caller)
      {
        HopeStays(path, more, caller);
      }
    }
  }

  // ---------- the input ----------

  const EMPTY := Cache(map[], [], map[], 0, 0)

  function Asked(q: Query, waiters: int, cancelled: bool): Cache {
    Cache(map[q := 0], [Call(q, waiters, cancelled, Result(0, NoError), None)], map[], 1, 0)
  }

  lemma NothingExpires(c: Cache, now: Time)
    requires Linked(c) && c.failures == map[] && forall i | 0 <= i < |c.heap| :: c.heap[i].expires.None?
    ensures Pruned(c, now) == c
  {
    assert ExpiredIds(c, now) == {};
    BytesOutside(c.heap, {});
    assert (map q | q in c.calls && !Expired(c.heap[c.calls[q]], now) :: c.calls[q]) == c.calls;
  }

  lemma MayStart(c: Cache, q: Query, now: Time)
    requires Linked(c) && Pruned(c, now) == c && q !in c.calls && c.active < MAX_ACTIVE && |c.calls| < MAX_CALLS
    ensures Admit(c, q, now, Started(|c.heap|, None), Inserted(c, q))
  {
    hide Pruned, Inserted;
    assert MakesRoom(c, None, c);
  }

  lemma MayJoin(c: Cache, q: Query, now: Time)
    requires Linked(c) && Pruned(c, now) == c && q in c.calls
    ensures Admit(c, q, now, Joined(c.calls[q]), Joining(c, c.calls[q]))
  {
    hide Pruned;
  }

  lemma EmptyIsLinked()
    ensures Linked(EMPTY) && Pruned(EMPTY, 0) == EMPTY
  {
    hide Pruned;
    NothingExpires(EMPTY, 0);
  }

  lemma AskedIsLinked(q: Query, waiters: int, cancelled: bool)
    ensures Linked(Asked(q, waiters, cancelled))
    ensures Pruned(Asked(q, waiters, cancelled), 0) == Asked(q, waiters, cancelled)
  {
    hide Pruned;
    NothingExpires(Asked(q, waiters, cancelled), 0);
  }

  lemma FirstStarts(q: Query)
    ensures Linked(EMPTY) && Admit(EMPTY, q, 0, Started(0, None), Asked(q, 1, false))
  {
    hide Admit, Linked, Pruned;
    EmptyIsLinked();
    MayStart(EMPTY, q, 0);
    assert Asked(q, 1, false) == Inserted(EMPTY, q);
  }

  lemma SecondJoins(q: Query)
    ensures Linked(Asked(q, 0, true)) && Admit(Asked(q, 0, true), q, 0, Joined(0), Asked(q, 1, true))
  {
    hide Admit, Linked, Pruned;
    AskedIsLinked(q, 0, true);
    MayJoin(Asked(q, 0, true), q, 0);
    assert Joining(Asked(q, 0, true), 0) == Asked(q, 1, true);
  }

  function At(c: Cache, run: seq<Phase>, parked: map<nat, nat>): Sys { Sys(0, c, run, parked, false, []) }

  lemma FirstAsks(q: Query)
    ensures Next(At(EMPTY, [], map[]), At(Asked(q, 1, false), [Queued], map[1 := 0]), Get(1, q, Started(0, None)))
  {
    hide Admit, Linked;
    FirstStarts(q);
  }

  lemma FirstLeaves(q: Query)
    ensures Next(At(Asked(q, 1, false), [Queued], map[1 := 0]), At(Asked(q, 0, true), [Queued], map[]), Abandon(1))
  {
    assert map[1 := 0] - {1} == map[];
    assert Leave(Asked(q, 1, false), 0).heap == Asked(q, 0, true).heap;
  }

  lemma SecondAsks(q: Query)
    ensures Next(At(Asked(q, 0, true), [Queued], map[]), At(Asked(q, 1, true), [Queued], map[2 := 0]),
                 Get(2, q, Joined(0)))
  {
    SecondJoins(q);
    hide Admit;
  }

  /** A first caller asks and leaves; a second one asks the same before the execution has ended, and can be told
      that its query was cancelled although it stays. */
  lemma SecondCallerIsCanceled(q: Query) returns (ss: seq<Sys>, steps: seq<Step>)
    ensures Run(ss, steps) && |ss| == 4 && !ss[3].shutdown
    ensures steps == [Get(1, q, Started(0, None)), Abandon(1), Get(2, q, Joined(0))]
    ensures JoinsCancelled(ss[2], steps[2]) && 2 in ss[3].parked && CanBeCanceled(ss[3], 2)
  {
    hide CanBeCanceled, Next;
    ss := [At(EMPTY, [], map[]), At(Asked(q, 1, false), [Queued], map[1 := 0]),
           At(Asked(q, 0, true), [Queued], map[]), At(Asked(q, 1, true), [Queued], map[2 := 0])];
    steps := [Get(1, q, Started(0, None)), Abandon(1), Get(2, q, Joined(0))];
    FirstAsks(q);
    FirstLeaves(q);
    SecondAsks(q);
    CanceledExactly(ss, steps, 3, 2);
  }
}
