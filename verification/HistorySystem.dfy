/** The history cache at work (internal/pve/history.go): callers, executions, the slot semaphore, the
    per-VM lock and the failure cooldown, interleaved in any order. One step is one section under `mu`,
    one semaphore or lock operation, or one answer from outside. */
module HistorySystem {
  import opened Common
  import opened HistorySpec

  const SLOTS := 4

  /** How far the goroutine of a call has got through `execute` and `run`. */
  datatype Phase =
    | Queued
    | Slotted
    | Locked
    | Cleared
    | Querying
    | Answered(r: Result)
    | Noted(r: Result)
    | Unlocked(r: Result)
    | Returned(r: Result)
    | Finished

  predicate HoldsSlot(p: Phase) { !p.Queued? && !p.Returned? && !p.Finished? }

  predicate HoldsLock(p: Phase) { p.Locked? || p.Cleared? || p.Querying? || p.Answered? || p.Noted? }

  predicate IsFailure(r: Result) { r.err != NoError && r.err != Canceled }

  predicate OwesRecord(p: Phase) { p.Answered? && IsFailure(p.r) }

  datatype Event =
    | LookupStarted(vm: int, at: Time)
    | LookupFailed(vm: int, at: Time)

  /** `run[i]` is the phase of call `i`; `parked` maps each caller inside `get` to the call it waits on. */
  datatype Sys = Sys(now: Time, cache: Cache, run: seq<Phase>, parked: map<nat, nat>, shutdown: bool, log: seq<Event>)

  /** What one execution can do next before it enters the locked section of `run`. */
  datatype Move =
    | TakeSlot
    | GiveUp(err: Failure)
    | Reject(err: Failure)
    | Lock
    | Cool
    | Clear
    | Ask
    | Answer(raw: Result)
    | Note
    | Unlock
    | FreeSlot

  datatype Step =
    | Tick(later: Time)
    | Shutdown
    | Get(caller: nat, q: Query, a: Admission)
    | Abandon(caller: nat)
    | Deliver(caller: nat, result: Result)
    | Execute(i: nat, m: Move)
    | Finish(i: nat, victims: seq<Query>)

  ghost function Holders(run: seq<Phase>): set<nat> { set i | 0 <= i < |run| && HoldsSlot(run[i]) }

  ghost function Waiting(parked: map<nat, nat>, i: nat): set<nat> { set c | c in parked && parked[c] == i }

  /** Makes the steps below well defined; `RunKeeps` shows that it holds in every reachable state. */
  ghost predicate Shaped(s: Sys) {
    && Linked(s.cache)
    && Aligned(s.run, s.cache.heap)
    && forall c | c in s.parked :: s.parked[c] < |s.cache.heap|
  }

  function Vm(s: Sys, i: nat): int
    requires i < |s.cache.heap|
  {
    s.cache.heap[i].query.vm
  }

  ghost predicate LockFree(s: Sys, vm: int)
    requires |s.run| == |s.cache.heap|
  {
    forall i | 0 <= i < |s.run| && HoldsLock(s.run[i]) :: Vm(s, i) != vm
  }

  predicate Cooling(s: Sys, vm: int) { vm in s.cache.failures && s.now < s.cache.failures[vm] }

  /** `len(raw) > virt.HistoryMaxBytes` turns an answer into an error without bytes. */
  function Limited(raw: Result): Result {
    if raw.size > HISTORY_MAX_BYTES then Result(0, Other) else raw
  }

  /** The errors that the context of a call can report. */
  predicate ContextError(s: Sys, i: nat, err: Failure)
    requires i < |s.cache.heap|
  {
    err == Deadline || (err == Canceled && (s.cache.heap[i].cancelled || s.shutdown))
  }

  ghost predicate CanMove(s: Sys, i: nat, m: Move)
    requires |s.run| == |s.cache.heap|
  {
    i < |s.run| &&
    match m
    case TakeSlot => s.run[i].Queued? && |Holders(s.run)| < SLOTS
    case GiveUp(err) => s.run[i].Queued? && ContextError(s, i, err)
    case Reject(err) => s.run[i].Slotted? && err != NoError && (err == Canceled ==> ContextError(s, i, err))
    case Lock => s.run[i].Slotted? && LockFree(s, Vm(s, i))
    case Cool => s.run[i].Locked? && Cooling(s, Vm(s, i))
    case Clear => s.run[i].Locked? && !Cooling(s, Vm(s, i))
    case Ask => s.run[i].Cleared?
    case Answer(raw) => s.run[i].Querying? && (raw.err == Canceled ==> ContextError(s, i, raw.err))
    case Note => s.run[i].Answered?
    case Unlock => s.run[i].Noted?
    case FreeSlot => s.run[i].Unlocked?
  }

  function Target(p: Phase, m: Move): Phase {
    match m
    case TakeSlot => Slotted
    case GiveUp(err) => Returned(Result(0, err))
    case Reject(err) => Unlocked(Result(0, err))
    case Lock => Locked
    case Cool => Noted(Result(0, Source))
    case Clear => Cleared
    case Ask => Querying
    case Answer(raw) => Answered(Limited(raw))
    case Note => if p.Answered? then Noted(p.r) else p
    case Unlock => if p.Noted? then Unlocked(p.r) else p
    case FreeSlot => if p.Unlocked? then Returned(p.r) else p
  }

  function LogAfter(s: Sys, i: nat, m: Move): seq<Event>
    requires i < |s.cache.heap|
  {
    if m.Ask? then s.log + [LookupStarted(Vm(s, i), s.now)]
    else if m.Answer? && IsFailure(Limited(m.raw)) then s.log + [LookupFailed(Vm(s, i), s.now)]
    else s.log
  }

  function FailuresAfter(s: Sys, i: nat, m: Move): map<int, Time>
    requires i < |s.run| && i < |s.cache.heap|
  {
    if m.Note? && OwesRecord(s.run[i]) then s.cache.failures[Vm(s, i) := s.now + COOLDOWN] else s.cache.failures
  }

  function Moved(s: Sys, i: nat, m: Move): Sys
    requires i < |s.run| && i < |s.cache.heap|
  {
    s.(run := s.run[i := Target(s.run[i], m)],
       cache := s.cache.(failures := FailuresAfter(s, i, m)),
       log := LogAfter(s, i, m))
  }

  ghost predicate Next(s: Sys, s': Sys, step: Step) {
    Shaped(s) &&
    match step
    case Tick(later) => later >= s.now && s' == s.(now := later)
    case Shutdown => s' == s.(shutdown := true)
    case Get(caller, q, a) =>
      && caller !in s.parked
      && Admit(s.cache, q, s.now, a, s'.cache)
      && s' == s.(cache := s'.cache,
                  run := if a.Started? then s.run + [Queued] else s.run,
                  parked := if a.Refused? then s.parked else s.parked[caller := a.id])
    case Abandon(caller) =>
      caller in s.parked && s' == Departed(s, caller)
    case Deliver(caller, result) =>
      && caller in s.parked
      && Complete(s.cache.heap[s.parked[caller]])
      && result == s.cache.heap[s.parked[caller]].result
      && s' == Departed(s, caller)
    case Execute(i, m) =>
      CanMove(s, i, m) && s' == Moved(s, i, m)
    case Finish(i, victims) =>
      && i < |s.run| && s.run[i].Returned?
      && Conclude(s.cache, i, s.run[i].r, s.now, victims, s'.cache)
      && s' == s.(run := s.run[i := Finished], cache := s'.cache)
  }

  function Departed(s: Sys, caller: nat): Sys
    requires caller in s.parked && s.parked[caller] < |s.cache.heap|
  {
    s.(cache := Leave(s.cache, s.parked[caller]), parked := s.parked - {caller})
  }

  // ---------- the invariant ----------

  /** An execution is over exactly when its call is complete. */
  ghost predicate Aligned(run: seq<Phase>, heap: seq<Call>) {
    && |run| == |heap|
    && forall i | 0 <= i < |run| :: run[i].Finished? <==> Complete(heap[i])
  }

  ghost predicate Exclusive(run: seq<Phase>, heap: seq<Call>)
    requires |run| == |heap|
  {
    forall i, j | 0 <= i < |run| && 0 <= j < |run| && HoldsLock(run[i]) && HoldsLock(run[j])
                  && heap[i].query.vm == heap[j].query.vm ::
      i == j
  }

  ghost predicate ExecInv(s: Sys) {
    Aligned(s.run, s.cache.heap) && Exclusive(s.run, s.cache.heap) && |Holders(s.run)| <= SLOTS
  }

  ghost predicate ParkInv(s: Sys) {
    && (forall c | c in s.parked :: s.parked[c] < |s.cache.heap|)
    && forall i | 0 <= i < |s.cache.heap| :: s.cache.heap[i].waiters == |Waiting(s.parked, i)|
  }

  /** Call `i` has a failed answer that it still has to record; it holds the lock of its VM. */
  predicate Owes(s: Sys, i: nat, vm: int)
    requires |s.run| == |s.cache.heap|
  {
    i < |s.run| && OwesRecord(s.run[i]) && Vm(s, i) == vm
  }

  ghost predicate Remembered(s: Sys, e: Event)
    requires |s.run| == |s.cache.heap|
  {
    || e.at + COOLDOWN <= s.now
    || (e.vm in s.cache.failures && e.at + COOLDOWN <= s.cache.failures[e.vm])
    || exists i: nat :: Owes(s, i, e.vm)
  }

  /** Every failure is ten seconds old, in `failures`, or about to be recorded there. */
  ghost predicate RememberInv(s: Sys)
    requires |s.run| == |s.cache.heap|
  {
    forall e | e in s.log && e.LookupFailed? :: e.at <= s.now && Remembered(s, e)
  }

  ghost predicate Cooled(s: Sys, vm: int) {
    forall e | e in s.log && e.LookupFailed? && e.vm == vm :: e.at + COOLDOWN <= s.now
  }

  ghost predicate ClearedInv(s: Sys)
    requires |s.run| == |s.cache.heap|
  {
    forall i | 0 <= i < |s.run| && s.run[i].Cleared? :: Cooled(s, Vm(s, i))
  }

  /** No lookup of a VM starts within ten seconds after a lookup of it failed. */
  ghost predicate Spaced(log: seq<Event>) {
    forall j, k | 0 <= j < k < |log| && log[j].LookupFailed? && log[k].LookupStarted? && log[j].vm == log[k].vm ::
      log[k].at >= log[j].at + COOLDOWN
  }

  ghost predicate SysInv(s: Sys) {
    CacheInv(s.cache) && ExecInv(s) && ParkInv(s) && RememberInv(s) && ClearedInv(s) && Spaced(s.log)
  }

  // ---------- what the locked sections do to the heap of calls ----------

  lemma AdmitHeap(c: Cache, q: Query, now: Time, a: Admission, c': Cache)
    requires Linked(c) && Admit(c, q, now, a, c')
    ensures c'.failures == Pruned(c, now).failures
    ensures a.Refused? ==> c'.heap == c.heap
    ensures a.Joined? ==> a.id < |c.heap|
                          && c'.heap == c.heap[a.id := c.heap[a.id].(waiters := c.heap[a.id].waiters + 1)]
    ensures a.Joined? ==> c.heap[a.id].query == q
    ensures a.Started? ==> a.id == |c.heap| && c'.heap == c.heap + [Call(q, 1, false, Result(0, NoError), None)]
  {
    PrunedLinked(c, now);
  }

  lemma ConcludeHeap(c: Cache, i: nat, r: Result, now: Time, victims: seq<Query>, c': Cache)
    requires CacheInv(c) && i < |c.heap| && !Complete(c.heap[i])
    requires Conclude(c, i, r, now, victims, c')
    ensures c'.failures == c.failures
    ensures c'.heap == c.heap[i := c.heap[i].(result := r, expires := Some(now + Ttl(r)))]
  {
    RecordedAccounted(c, i, r, now);
    TrimKeeps(Recorded(c, i, r, now), victims, c');
  }

  // ---------- each step keeps the invariant ----------

  lemma StepKeepsCache(s: Sys, s': Sys, step: Step)
    requires CacheInv(s.cache) && Next(s, s', step)
    ensures CacheInv(s'.cache)
  {
    match step
    case Get(caller, q, a) => AdmitKeeps(s.cache, q, s.now, a, s'.cache);
    case Abandon(caller) => LeaveKeeps(s.cache, s.parked[caller]);
    case Deliver(caller, r) => LeaveKeeps(s.cache, s.parked[caller]);
    case Execute(i, m) => FailuresOnly(s.cache, s'.cache.failures);
    case Finish(i, victims) => ConcludeKeeps(s.cache, i, s.run[i].r, s.now, victims, s'.cache);
    case Tick(_) =>
    case Shutdown =>
  }

  lemma HoldersAfter(run: seq<Phase>, i: nat, p: Phase)
    requires i < |run|
    ensures Holders(run[i := p]) == if HoldsSlot(p) then Holders(run) + {i} else Holders(run) - {i}
  {}

  lemma ExclusiveAfter(run: seq<Phase>, heap: seq<Call>, i: nat, p: Phase)
    requires |run| == |heap| && Exclusive(run, heap) && i < |run|
    requires HoldsLock(p) && !HoldsLock(run[i]) ==>
               forall j | 0 <= j < |run| && HoldsLock(run[j]) :: heap[j].query.vm != heap[i].query.vm
    ensures Exclusive(run[i := p], heap)
  {}

  lemma SameVmsExclusive(run: seq<Phase>, heap: seq<Call>, heap': seq<Call>)
    requires |run| == |heap| == |heap'| && Exclusive(run, heap)
    requires forall i | 0 <= i < |heap| :: heap'[i].query == heap[i].query
    ensures Exclusive(run, heap')
  {}

  /** A move neither ends an execution nor takes a lock or slot that is not free. */
  lemma MoveEffect(s: Sys, i: nat, m: Move)
    requires |s.run| == |s.cache.heap| && CanMove(s, i, m)
    ensures !Target(s.run[i], m).Finished? && !s.run[i].Finished?
    ensures HoldsLock(Target(s.run[i], m)) ==> HoldsLock(s.run[i]) || LockFree(s, Vm(s, i))
    ensures HoldsSlot(Target(s.run[i], m)) ==> HoldsSlot(s.run[i]) || |Holders(s.run)| < SLOTS
  {}

  lemma MoveKeepsExec(s: Sys, i: nat, m: Move)
    requires ExecInv(s) && CanMove(s, i, m)
    ensures ExecInv(Moved(s, i, m))
  {
    var p := Target(s.run[i], m);
    MoveEffect(s, i, m);
    ExclusiveAfter(s.run, s.cache.heap, i, p);
    HoldersAfter(s.run, i, p);
    if HoldsSlot(p) && HoldsSlot(s.run[i]) { assert Holders(s.run) + {i} == Holders(s.run); }
  }

  lemma GetKeepsExec(run: seq<Phase>, heap: seq<Call>, c: Call)
    requires Aligned(run, heap) && Exclusive(run, heap) && !Complete(c)
    ensures Aligned(run + [Queued], heap + [c]) && Exclusive(run + [Queued], heap + [c])
    ensures Holders(run + [Queued]) == Holders(run)
  {}

  lemma FinishKeepsExec(s: Sys, s': Sys, i: nat, victims: seq<Query>)
    requires CacheInv(s.cache) && ExecInv(s) && Next(s, s', Finish(i, victims))
    ensures ExecInv(s')
  {
    ConcludeHeap(s.cache, i, s.run[i].r, s.now, victims, s'.cache);
    ExclusiveAfter(s.run, s.cache.heap, i, Finished);
    SameVmsExclusive(s'.run, s.cache.heap, s'.cache.heap);
    HoldersAfter(s.run, i, Finished);
  }

  lemma ArrivalKeepsExec(s: Sys, s': Sys, step: Step)
    requires CacheInv(s.cache) && ExecInv(s) && Next(s, s', step) && step.Get?
    ensures ExecInv(s')
  {
    hide CacheInv, Admit;
    AdmitHeap(s.cache, step.q, s.now, step.a, s'.cache);
    if step.a.Started? { GetKeepsExec(s.run, s.cache.heap, s'.cache.heap[step.a.id]); }
    if step.a.Joined? { SameVmsExclusive(s.run, s.cache.heap, s'.cache.heap); }
  }

  lemma StepKeepsExec(s: Sys, s': Sys, step: Step)
    requires CacheInv(s.cache) && ExecInv(s) && Next(s, s', step)
    ensures ExecInv(s')
  {
    hide CacheInv, Admit, Conclude;
    match step
    case Get(_, _, _) => ArrivalKeepsExec(s, s', step);
    case Execute(i, m) => MoveKeepsExec(s, i, m);
    case Finish(i, victims) => FinishKeepsExec(s, s', i, victims);
    case Abandon(_) => SameVmsExclusive(s.run, s.cache.heap, s'.cache.heap);
    case Deliver(_, _) => SameVmsExclusive(s.run, s.cache.heap, s'.cache.heap);
    case Tick(_) =>
    case Shutdown =>
  }

  lemma ArrivalKeepsParked(s: Sys, s': Sys, caller: nat, id: nat)
    requires ParkInv(s) && caller !in s.parked && id <= |s.cache.heap|
    requires s'.parked == s.parked[caller := id]
    requires |s'.cache.heap| == if id == |s.cache.heap| then id + 1 else |s.cache.heap|
    requires forall i | 0 <= i < |s.cache.heap| && i != id :: s'.cache.heap[i] == s.cache.heap[i]
    requires s'.cache.heap[id].waiters == if id == |s.cache.heap| then 1 else s.cache.heap[id].waiters + 1
    ensures ParkInv(s')
  {
    assert Waiting(s'.parked, id) == Waiting(s.parked, id) + {caller};
    if id == |s.cache.heap| { assert Waiting(s.parked, id) == {}; }
    forall i | 0 <= i < |s'.cache.heap| && i != id ensures Waiting(s'.parked, i) == Waiting(s.parked, i) {}
  }

  lemma DepartureKeepsParked(s: Sys, caller: nat)
    requires ParkInv(s) && caller in s.parked
    ensures ParkInv(Departed(s, caller))
  {
    var id, s' := s.parked[caller], Departed(s, caller);
    assert caller in Waiting(s.parked, id);
    assert Waiting(s'.parked, id) == Waiting(s.parked, id) - {caller};
    forall i | 0 <= i < |s'.cache.heap| && i != id ensures Waiting(s'.parked, i) == Waiting(s.parked, i) {}
  }

  lemma StepKeepsParked(s: Sys, s': Sys, step: Step)
    requires CacheInv(s.cache) && ParkInv(s) && Next(s, s', step)
    ensures ParkInv(s')
  {
    match step
    case Get(caller, q, a) =>
      AdmitHeap(s.cache, q, s.now, a, s'.cache);
      if !a.Refused? { ArrivalKeepsParked(s, s', caller, a.id); }
    case Abandon(caller) => DepartureKeepsParked(s, caller);
    case Deliver(caller, _) => DepartureKeepsParked(s, caller);
    case Finish(i, victims) => ConcludeHeap(s.cache, i, s.run[i].r, s.now, victims, s'.cache);
    case Execute(_, _) =>
    case Tick(_) =>
    case Shutdown =>
  }

  // ---------- the cooldown ----------

  /** A step that keeps what is known about failures still to come: executions that owe a record,
      and cooldowns that are not over. */
  ghost predicate KeepsMemory(s: Sys, s': Sys)
    requires |s.run| == |s.cache.heap| && |s'.run| == |s'.cache.heap|
  {
    && s.now <= s'.now
    && (forall i: nat, vm | Owes(s, i, vm) :: Owes(s', i, vm))
    && forall v | v in s.cache.failures && s.now < s.cache.failures[v] ::
         v in s'.cache.failures && s.cache.failures[v] <= s'.cache.failures[v]
  }

  lemma MemoryKept(s: Sys, s': Sys, e: Event)
    requires |s.run| == |s.cache.heap| && |s'.run| == |s'.cache.heap| && KeepsMemory(s, s')
    requires Remembered(s, e)
    ensures Remembered(s', e)
  {
    if i: nat :| Owes(s, i, e.vm) { assert Owes(s', i, e.vm); }
  }

  /** The log grew by nothing, and nobody newly passed the cooldown check. */
  lemma QuietKeepsCool(s: Sys, s': Sys)
    requires |s.run| == |s.cache.heap| && |s'.run| == |s'.cache.heap| && KeepsMemory(s, s')
    requires RememberInv(s) && ClearedInv(s) && s'.log == s.log
    requires forall i | 0 <= i < |s'.run| && s'.run[i].Cleared? ::
               i < |s.run| && s.run[i].Cleared? && Vm(s', i) == Vm(s, i)
    ensures RememberInv(s') && ClearedInv(s')
  {
    forall e | e in s'.log && e.LookupFailed? ensures Remembered(s', e) { MemoryKept(s, s', e); }
    forall i | 0 <= i < |s'.run| && s'.run[i].Cleared? ensures Cooled(s', Vm(s', i)) { assert Cooled(s, Vm(s, i)); }
  }

  /** Passing the check means that every failure of this VM is ten seconds old: this execution holds
      the lock of the VM, so no other one owes a record for it. */
  lemma ClearIsCooled(s: Sys, i: nat)
    requires ExecInv(s) && RememberInv(s) && CanMove(s, i, Clear)
    ensures Cooled(s, Vm(s, i))
  {
    forall e | e in s.log && e.LookupFailed? && e.vm == Vm(s, i) ensures e.at + COOLDOWN <= s.now {
      assert Remembered(s, e);
      if j: nat :| Owes(s, j, e.vm) {
        assert HoldsLock(s.run[j]) && HoldsLock(s.run[i]);
      }
    }
  }

  lemma ClearKeepsCool(s: Sys, i: nat)
    requires ExecInv(s) && RememberInv(s) && ClearedInv(s) && CanMove(s, i, Clear)
    ensures RememberInv(Moved(s, i, Clear)) && ClearedInv(Moved(s, i, Clear))
  {
    var s' := Moved(s, i, Clear);
    ClearIsCooled(s, i);
    forall e | e in s'.log && e.LookupFailed? ensures Remembered(s', e) { MemoryKept(s, s', e); }
    forall j | 0 <= j < |s'.run| && s'.run[j].Cleared? ensures Cooled(s', Vm(s', j)) {
      assert Cooled(s, Vm(s, j));
    }
  }

  lemma AskKeepsCool(s: Sys, i: nat)
    requires ExecInv(s) && RememberInv(s) && ClearedInv(s) && Spaced(s.log) && CanMove(s, i, Ask)
    ensures var s' := Moved(s, i, Ask); RememberInv(s') && ClearedInv(s') && Spaced(s'.log)
  {
    var s' := Moved(s, i, Ask);
    forall e | e in s'.log && e.LookupFailed? ensures e.at <= s'.now && Remembered(s', e) {
      assert e in s.log;
      MemoryKept(s, s', e);
    }
    forall j | 0 <= j < |s'.run| && s'.run[j].Cleared? ensures Cooled(s', Vm(s', j)) {
      assert Cooled(s, Vm(s, j));
    }
    assert Cooled(s, Vm(s, i));
    forall j | 0 <= j < |s.log| && s.log[j].LookupFailed? && s.log[j].vm == Vm(s, i)
      ensures s.log[j].at + COOLDOWN <= s.now
    {
      assert s.log[j] in s.log;
    }
  }

  lemma AnswerKeepsCool(s: Sys, i: nat, raw: Result)
    requires ExecInv(s) && RememberInv(s) && ClearedInv(s) && Spaced(s.log) && CanMove(s, i, Answer(raw))
    ensures var s' := Moved(s, i, Answer(raw)); RememberInv(s') && ClearedInv(s') && Spaced(s'.log)
  {
    var s' := Moved(s, i, Answer(raw));
    forall e | e in s'.log && e.LookupFailed? ensures e.at <= s'.now && Remembered(s', e) {
      if e in s.log { MemoryKept(s, s', e); } else { assert Owes(s', i, e.vm); }
    }
    forall j | 0 <= j < |s'.run| && s'.run[j].Cleared? ensures Cooled(s', Vm(s', j)) {
      assert Cooled(s, Vm(s, j));
      assert HoldsLock(s.run[j]) && HoldsLock(s.run[i]) && j != i;
    }
  }

  lemma NoteKeepsCool(s: Sys, i: nat)
    requires ExecInv(s) && RememberInv(s) && ClearedInv(s) && CanMove(s, i, Note)
    ensures RememberInv(Moved(s, i, Note)) && ClearedInv(Moved(s, i, Note))
  {
    var s' := Moved(s, i, Note);
    forall e | e in s'.log && e.LookupFailed? ensures Remembered(s', e) {
      assert Remembered(s, e);
      if e.vm != Vm(s, i) || !OwesRecord(s.run[i]) {
        if j: nat :| Owes(s, j, e.vm) { assert Owes(s', j, e.vm); }
      }
    }
    forall j | 0 <= j < |s'.run| && s'.run[j].Cleared? ensures Cooled(s', Vm(s', j)) {
      assert Cooled(s, Vm(s, j));
    }
  }

  lemma MoveKeepsCool(s: Sys, i: nat, m: Move)
    requires ExecInv(s) && RememberInv(s) && ClearedInv(s) && Spaced(s.log) && CanMove(s, i, m)
    ensures var s' := Moved(s, i, m); RememberInv(s') && ClearedInv(s') && Spaced(s'.log)
  {
    match m
    case Clear => ClearKeepsCool(s, i);
    case Ask => AskKeepsCool(s, i);
    case Answer(raw) => AnswerKeepsCool(s, i, raw);
    case Note => NoteKeepsCool(s, i);
    case _ => QuietKeepsCool(s, Moved(s, i, m));
  }

  lemma GetIsQuiet(s: Sys, s': Sys, caller: nat, q: Query, a: Admission)
    requires Aligned(s.run, s.cache.heap) && Aligned(s'.run, s'.cache.heap) && RememberInv(s) && ClearedInv(s)
    requires Next(s, s', Get(caller, q, a))
    ensures RememberInv(s') && ClearedInv(s')
  {
    AdmitHeap(s.cache, q, s.now, a, s'.cache);
    QuietKeepsCool(s, s');
  }

  lemma FinishIsQuiet(s: Sys, s': Sys, i: nat, victims: seq<Query>)
    requires CacheInv(s.cache) && Aligned(s.run, s.cache.heap) && Aligned(s'.run, s'.cache.heap) && RememberInv(s)
    requires ClearedInv(s)
    requires Next(s, s', Finish(i, victims))
    ensures RememberInv(s') && ClearedInv(s')
  {
    ConcludeHeap(s.cache, i, s.run[i].r, s.now, victims, s'.cache);
    QuietKeepsCool(s, s');
  }

  lemma StepKeepsCool(s: Sys, s': Sys, step: Step)
    requires CacheInv(s.cache) && ExecInv(s) && Aligned(s'.run, s'.cache.heap)
    requires RememberInv(s) && ClearedInv(s) && Spaced(s.log)
    requires Next(s, s', step)
    ensures RememberInv(s') && ClearedInv(s') && Spaced(s'.log)
  {
    hide RememberInv, ClearedInv, CacheInv, Admit, Conclude;
    match step
    case Execute(i, m) => MoveKeepsCool(s, i, m);
    case Get(caller, q, a) => GetIsQuiet(s, s', caller, q, a);
    case Finish(i, victims) => FinishIsQuiet(s, s', i, victims);
    case Abandon(_) => QuietKeepsCool(s, s');
    case Deliver(_, _) => QuietKeepsCool(s, s');
    case Tick(_) => QuietKeepsCool(s, s');
    case Shutdown => QuietKeepsCool(s, s');
  }

  lemma StepKeeps(s: Sys, s': Sys, step: Step)
    requires SysInv(s) && Next(s, s', step)
    ensures SysInv(s')
  {
    StepKeepsCache(s, s', step);
    StepKeepsExec(s, s', step);
    StepKeepsParked(s, s', step);
    StepKeepsCool(s, s', step);
  }

  // ---------- runs ----------

  ghost predicate Init(s: Sys) {
    s == Sys(s.now, Cache(map[], [], map[], 0, 0), [], map[], false, [])
  }

  ghost predicate Run(ss: seq<Sys>, steps: seq<Step>) {
    && |ss| == |steps| + 1
    && Init(ss[0])
    && forall k | 0 <= k < |steps| :: Next(ss[k], ss[k + 1], steps[k])
  }

  lemma {:induction false} RunKeeps(ss: seq<Sys>, steps: seq<Step>, k: nat)
    requires Run(ss, steps) && k < |ss|
    ensures SysInv(ss[k])
  {
    if k == 0 {
      assert Flying([]) == {} && Kept(ss[0].cache) == {} && Holders([]) == {};
    } else {
      RunKeeps(ss, steps, k - 1);
      StepKeeps(ss[k - 1], ss[k], steps[k - 1]);
    }
  }

  /** The capacity claims, in every state of every run: accounting is exact, at most four lookups
      run, and never two for one VM. */
  lemma RunIsBounded(ss: seq<Sys>, steps: seq<Step>, k: nat)
    requires Run(ss, steps) && k < |ss|
    ensures var c := ss[k].cache;
            && c.active == |set i | 0 <= i < |c.heap| && c.heap[i].expires.None?| <= 32
            && |c.calls| <= 128
            && c.bytes == Bytes(c.heap, Kept(c)) <= 16 * 1024 * 1024
    ensures |set i | 0 <= i < |ss[k].run| && ss[k].run[i].Querying?| <= 4
    ensures |ss[k].run| == |ss[k].cache.heap|
    ensures forall i, j | 0 <= i < j < |ss[k].run| && ss[k].run[i].Querying? && ss[k].run[j].Querying? ::
              Vm(ss[k], i) != Vm(ss[k], j)
  {
    RunKeeps(ss, steps, k);
    var asking := set i | 0 <= i < |ss[k].run| && ss[k].run[i].Querying?;
    SubsetCard(asking, Holders(ss[k].run));
    var heap := ss[k].cache.heap;
    assert (set i | 0 <= i < |heap| && heap[i].expires.None?) == Flying(heap);
  }

  /** Single flight: two executions in flight never answer the same query, and each is the one `calls`
      names, so the delete of a cancelled execution removes its own entry. */
  lemma SingleFlight(ss: seq<Sys>, steps: seq<Step>, k: nat, i: nat, j: nat)
    requires Run(ss, steps) && k < |ss| && i < |ss[k].run| && j < |ss[k].run| == |ss[k].cache.heap|
    requires !ss[k].run[i].Finished? && !ss[k].run[j].Finished?
    ensures ss[k].cache.heap[i].query == ss[k].cache.heap[j].query ==> i == j
    ensures Listed(ss[k].cache, i)
  {
    RunKeeps(ss, steps, k);
    assert Listed(ss[k].cache, i) && Listed(ss[k].cache, j);
  }

  /** `waiters` is the number of callers parked on the call, in every state of every run. */
  lemma WaitersAreCounted(ss: seq<Sys>, steps: seq<Step>, k: nat, i: nat)
    requires Run(ss, steps) && k < |ss| && i < |ss[k].cache.heap|
    ensures ss[k].cache.heap[i].waiters == |Waiting(ss[k].parked, i)|
  {
    RunKeeps(ss, steps, k);
  }

  /** An execution gets an answer that is an error other than a cancellation, or is too long. */
  predicate Fails(step: Step) {
    step.Execute? && step.m.Answer? && (step.m.raw.size > 2 * 1024 * 1024 || step.m.raw.err !in {NoError, Canceled})
  }

  lemma {:induction false} LogStays(ss: seq<Sys>, steps: seq<Step>, j: nat, k: nat)
    requires Run(ss, steps) && j <= k < |ss|
    ensures ss[j].log <= ss[k].log
    decreases k
  {
    hide Next;
    if j < k {
      LogStays(ss, steps, j, k - 1);
      assert Next(ss[k - 1], ss[k], steps[k - 1]);
      StepLogs(ss[k - 1], ss[k], steps[k - 1]);
    }
  }

  lemma StepLogs(s: Sys, s': Sys, step: Step)
    requires Next(s, s', step)
    ensures s.log <= s'.log
    ensures Fails(step) ==> step.i < |s.cache.heap| && s'.log == s.log + [LookupFailed(Vm(s, step.i), s.now)]
    ensures step.Execute? && step.m.Ask? ==>
              step.i < |s.cache.heap| && s'.log == s.log + [LookupStarted(Vm(s, step.i), s.now)]
  {
    hide Admit, Conclude;
  }

  /** Ten seconds pass between a failed lookup of a VM and the next lookup of it, over every run and
      although `get` keeps pruning `failures`. */
  lemma CooldownIsKept(ss: seq<Sys>, steps: seq<Step>, j: nat, k: nat)
    requires Run(ss, steps) && j < k < |steps| && Fails(steps[j]) && steps[k].Execute? && steps[k].m.Ask?
    ensures steps[j].i < |ss[j].cache.heap| && steps[k].i < |ss[k].cache.heap|
    ensures Vm(ss[j], steps[j].i) == Vm(ss[k], steps[k].i) ==> ss[k].now >= ss[j].now + 10 * SECOND
  {
    hide Next, SysInv, Spaced;
    assert Next(ss[j], ss[j + 1], steps[j]) && Next(ss[k], ss[k + 1], steps[k]);
    StepLogs(ss[j], ss[j + 1], steps[j]);
    StepLogs(ss[k], ss[k + 1], steps[k]);
    LogStays(ss, steps, j + 1, k);
    RunKeeps(ss, steps, k + 1);
    LogIsSpaced(ss[k + 1]);
    if Vm(ss[j], steps[j].i) == Vm(ss[k], steps[k].i) { SpacedAt(ss[k + 1].log, |ss[j].log|, |ss[k].log|); }
  }

  lemma SpacedAt(log: seq<Event>, j: nat, k: nat)
    requires Spaced(log) && j < k < |log| && log[j].LookupFailed? && log[k].LookupStarted? && log[j].vm == log[k].vm
    ensures log[k].at >= log[j].at + 10 * SECOND
  {}

  lemma LogIsSpaced(s: Sys)
    requires SysInv(s)
    ensures Spaced(s.log)
  {}

  /** An execution is turned away for a cooldown only within ten seconds after the failure of another one of
      that VM was noted. */
  lemma CoolHasCause(ss: seq<Sys>, steps: seq<Step>, k: nat) returns (n: nat)
    requires Run(ss, steps) && k < |steps| && steps[k].Execute? && steps[k].m.Cool?
    ensures steps[k].i < |ss[k].cache.heap|
    ensures n < k && NotesFailure(ss[n], steps[n], Vm(ss[k], steps[k].i)) && ss[k].now < ss[n].now + 10 * SECOND
  {
    assert Next(ss[k], ss[k + 1], steps[k]);
    n := FailureHasCause(ss, steps, k, Vm(ss[k], steps[k].i));
  }

  predicate NotesFailure(s: Sys, step: Step, vm: int) {
    && step.Execute? && step.m.Note? && step.i < |s.cache.heap| && step.i < |s.run| && Vm(s, step.i) == vm
    && s.run[step.i].Answered? && s.run[step.i].r.err !in {NoError, Canceled}
  }

  lemma {:induction false} FailureHasCause(ss: seq<Sys>, steps: seq<Step>, k: nat, vm: int) returns (n: nat)
    requires Run(ss, steps) && k < |ss| && vm in ss[k].cache.failures
    ensures n < k && NotesFailure(ss[n], steps[n], vm) && ss[k].cache.failures[vm] == ss[n].now + 10 * SECOND
  {
    hide Next, SysInv, NotesFailure;
    if k == 0 {
      assert false;
    } else {
      RunKeeps(ss, steps, k - 1);
      assert Next(ss[k - 1], ss[k], steps[k - 1]);
      CacheIsKept(ss[k - 1]);
      StepFailures(ss[k - 1], ss[k], steps[k - 1], vm);
      if NotesFailure(ss[k - 1], steps[k - 1], vm) { n := k - 1; } else { n := FailureHasCause(ss, steps, k - 1, vm); }
    }
  }

  lemma StepFailures(s: Sys, s': Sys, step: Step, vm: int)
    requires CacheInv(s.cache) && Next(s, s', step) && vm in s'.cache.failures
    ensures NotesFailure(s, step, vm) ==> s'.cache.failures[vm] == s.now + 10 * SECOND
    ensures !NotesFailure(s, step, vm) ==> vm in s.cache.failures && s'.cache.failures[vm] == s.cache.failures[vm]
  {
    hide CacheInv, Admit, Conclude;
    match step
    case Get(_, q, a) => AdmitHeap(s.cache, q, s.now, a, s'.cache);
    case Finish(j, victims) => ConcludeHeap(s.cache, j, s.run[j].r, s.now, victims, s'.cache);
    case _ =>
  }

  lemma SingletonOf(s: set<nat>, x: nat)
    requires x in s
    ensures |s| == 1 <==> s == {x}
  {
    if |s| == 1 { assert |s - {x}| == 0; }
  }

  /** The only thing that cancels the context of an execution is the departure of the last caller
      parked on it before it completes. */
  lemma CancelledByLastWaiterOnly(s: Sys, s': Sys, step: Step, i: nat)
    requires CacheInv(s.cache) && ParkInv(s) && Next(s, s', step)
    requires i < |s.cache.heap| && !s.cache.heap[i].cancelled
    ensures i < |s'.cache.heap|
    ensures s'.cache.heap[i].cancelled <==>
              step.Abandon? && Waiting(s.parked, i) == {step.caller} && !Complete(s.cache.heap[i])
  {
    hide CacheInv, Admit, Conclude, ParkInv;
    match step
    case Get(_, q, a) => AdmitHeap(s.cache, q, s.now, a, s'.cache);
    case Finish(j, victims) => ConcludeHeap(s.cache, j, s.run[j].r, s.now, victims, s'.cache);
    case Abandon(caller) => LastOneCancels(s, caller, i);
    case _ =>
  }

  lemma LastOneCancels(s: Sys, caller: nat, i: nat)
    requires ParkInv(s) && caller in s.parked && i < |s.cache.heap| && !s.cache.heap[i].cancelled
    ensures Departed(s, caller).cache.heap[i].cancelled <==>
              Waiting(s.parked, i) == {caller} && !Complete(s.cache.heap[i])
  {
    if i == s.parked[caller] {
      assert caller in Waiting(s.parked, i);
      SingletonOf(Waiting(s.parked, i), caller);
    } else {
      assert caller !in Waiting(s.parked, i);
    }
  }

  // ---------- what callers are told ----------

  /** No step forgets a call, changes what it was asked, or changes the result of a complete one. */
  lemma StepKeepsResults(s: Sys, s': Sys, step: Step, i: nat)
    requires CacheInv(s.cache) && Next(s, s', step) && i < |s.cache.heap|
    ensures i < |s'.cache.heap| && s'.cache.heap[i].query == s.cache.heap[i].query
    ensures Complete(s.cache.heap[i]) ==>
              s'.cache.heap[i].result == s.cache.heap[i].result && s'.cache.heap[i].expires == s.cache.heap[i].expires
    ensures !Complete(s.cache.heap[i]) && Complete(s'.cache.heap[i]) ==>
              step.Finish? && step.i == i && s.run[i] == Returned(s'.cache.heap[i].result)
  {
    match step
    case Get(_, q, a) => AdmitHeap(s.cache, q, s.now, a, s'.cache);
    case Finish(j, victims) => ConcludeHeap(s.cache, j, s.run[j].r, s.now, victims, s'.cache);
    case _ =>
  }

  lemma NewCallsAreIncomplete(s: Sys, s': Sys, step: Step, i: nat)
    requires CacheInv(s.cache) && Next(s, s', step) && |s.cache.heap| <= i < |s'.cache.heap|
    ensures !Complete(s'.cache.heap[i])
  {
    match step
    case Get(_, q, a) => AdmitHeap(s.cache, q, s.now, a, s'.cache);
    case Finish(j, victims) => ConcludeHeap(s.cache, j, s.run[j].r, s.now, victims, s'.cache);
    case _ =>
  }

  /** A complete call got its result from the execution that answered it, at an earlier step of the run. */
  lemma {:induction false} ResultHasOrigin(ss: seq<Sys>, steps: seq<Step>, k: nat, i: nat) returns (f: nat)
    requires Run(ss, steps) && k < |ss| && i < |ss[k].cache.heap| && Complete(ss[k].cache.heap[i])
    ensures f < k && i < |ss[f].run| && i < |ss[f].cache.heap|
    ensures steps[f].Finish? && steps[f].i == i && ss[f].run[i] == Returned(ss[k].cache.heap[i].result)
    ensures ss[f].cache.heap[i].query == ss[k].cache.heap[i].query
  {
    assert k > 0;
    var p: nat := k - 1;
    RunKeeps(ss, steps, p);
    if i >= |ss[p].cache.heap| {
      NewCallsAreIncomplete(ss[p], ss[k], steps[p], i);
    } else {
      StepKeepsResults(ss[p], ss[k], steps[p], i);
      if Complete(ss[p].cache.heap[i]) { f := ResultHasOrigin(ss, steps, p, i); } else { f := p; }
    }
  }

  ghost predicate Departs(step: Step, caller: nat) {
    (step.Abandon? || step.Deliver?) && step.caller == caller
  }

  lemma StepKeepsPlace(s: Sys, s': Sys, step: Step, caller: nat)
    requires Next(s, s', step) && caller in s.parked && !Departs(step, caller)
    ensures caller in s'.parked && s'.parked[caller] == s.parked[caller]
  {}

  lemma CacheIsKept(s: Sys)
    requires SysInv(s)
    ensures CacheInv(s.cache)
  {}

  lemma JoinParks(s: Sys, s': Sys, step: Step)
    requires Next(s, s', step) && step.Get? && !step.a.Refused?
    ensures step.caller in s'.parked && s'.parked[step.caller] == step.a.id < |s'.cache.heap|
    ensures s'.cache.heap[step.a.id].query == step.q
  {
    AdmitHeap(s.cache, step.q, s.now, step.a, s'.cache);
  }

  /** A caller stays parked on the call it joined until it departs. */
  lemma {:induction false} StaysParked(ss: seq<Sys>, steps: seq<Step>, j: nat, k: nat, caller: nat)
    requires Run(ss, steps) && j < k < |ss|
    requires steps[j].Get? && steps[j].caller == caller && !steps[j].a.Refused?
    requires forall m | j < m < k :: !Departs(steps[m], caller)
    ensures caller in ss[k].parked && ss[k].parked[caller] == steps[j].a.id < |ss[k].cache.heap|
    ensures ss[k].cache.heap[steps[j].a.id].query == steps[j].q
  {
    hide Next, SysInv;
    RunKeeps(ss, steps, k - 1);
    assert Next(ss[k - 1], ss[k], steps[k - 1]);
    if k == j + 1 {
      JoinParks(ss[j], ss[k], steps[j]);
    } else {
      CacheIsKept(ss[k - 1]);
      StaysParked(ss, steps, j, k - 1, caller);
      StepKeepsResults(ss[k - 1], ss[k], steps[k - 1], steps[j].a.id);
      StepKeepsPlace(ss[k - 1], ss[k], steps[k - 1], caller);
    }
  }

  /** Every caller gets the result of the one execution of the call it joined, which was asked the
      caller's own query, even when the entry was evicted while the caller was still parked. */
  lemma WaiterGetsItsExecution(ss: seq<Sys>, steps: seq<Step>, j: nat, k: nat, caller: nat, r: Result) returns (f: nat)
    requires Run(ss, steps) && j < k < |steps|
    requires steps[j].Get? && steps[j].caller == caller && !steps[j].a.Refused?
    requires steps[k] == Deliver(caller, r)
    requires forall m | j < m < k :: !Departs(steps[m], caller)
    ensures f < k && steps[f].Finish? && steps[f].i == steps[j].a.id
    ensures steps[f].i < |ss[f].run| && steps[f].i < |ss[f].cache.heap|
    ensures ss[f].run[steps[f].i] == Returned(r)
    ensures ss[f].cache.heap[steps[f].i].query == steps[j].q
  {
    StaysParked(ss, steps, j, k, caller);
    assert Next(ss[k], ss[k + 1], steps[k]);
    f := ResultHasOrigin(ss, steps, k, steps[j].a.id);
  }

  // ---------- results are reused ----------

  /** The step evicts the entry of `q`. */
  predicate Evicts(step: Step, q: Query) {
    match step
    case Get(_, _, a) => a.Started? && a.victim == Some(q)
    case Finish(_, victims) => q in victims
    case _ => false
  }

  lemma GetKeepsListed(c: Cache, q: Query, now: Time, a: Admission, c': Cache, i: nat)
    requires Linked(c) && Admit(c, q, now, a, c') && i < |c.heap| && Listed(c, i) && !Expired(c.heap[i], now)
    requires !(a.Started? && a.victim == Some(c.heap[i].query))
    ensures i < |c'.heap| && Listed(c', i)
  {
    AdmitHeap(c, q, now, a, c');
    var p := Pruned(c, now);
    assert Listed(p, i);
    if a.Started? {
      PrunedLinked(c, now);
      var room :| MakesRoom(p, a.victim, room) && c' == Inserted(room, q);
      assert room.heap == p.heap && Listed(room, i);
    }
  }

  lemma FinishKeepsListed(c: Cache, j: nat, r: Result, now: Time, victims: seq<Query>, c': Cache, i: nat)
    requires CacheInv(c) && j < |c.heap| && !Complete(c.heap[j]) && Conclude(c, j, r, now, victims, c')
    requires i < |c.heap| && Listed(c, i) && c.heap[i].query !in victims
    requires i == j ==> r.err != Canceled
    ensures i < |c'.heap| && Listed(c', i)
  {
    ConcludeHeap(c, j, r, now, victims, c');
    assert Listed(c, j);
    RecordedLinked(c, j, r, now);
    assert Listed(Recorded(c, j, r, now), i);
    TrimSpares(Recorded(c, j, r, now), victims, c', c.heap[i].query);
  }

  lemma StepKeepsListed(s: Sys, s': Sys, step: Step, i: nat)
    requires CacheInv(s.cache) && ExecInv(s) && Next(s, s', step) && i < |s.cache.heap|
    requires Listed(s.cache, i) && Complete(s.cache.heap[i]) && !Expired(s.cache.heap[i], s.now)
    requires !Evicts(step, s.cache.heap[i].query)
    ensures i < |s'.cache.heap| && Listed(s'.cache, i)
  {
    match step
    case Get(_, q, a) => GetKeepsListed(s.cache, q, s.now, a, s'.cache, i);
    case Finish(j, victims) => FinishKeepsListed(s.cache, j, s.run[j].r, s.now, victims, s'.cache, i);
    case _ =>
  }

  lemma {:induction false} TimeGrows(ss: seq<Sys>, steps: seq<Step>, j: nat, k: nat)
    requires Run(ss, steps) && j <= k < |ss|
    ensures ss[j].now <= ss[k].now
  {
    if j < k {
      TimeGrows(ss, steps, j, k - 1);
      assert Next(ss[k - 1], ss[k], steps[k - 1]);
    }
  }

  lemma {:induction false} StaysKept(ss: seq<Sys>, steps: seq<Step>, f: nat, k: nat, i: nat, expires: Time)
    requires Run(ss, steps) && f <= k < |ss| && i < |ss[f].cache.heap|
    requires Listed(ss[f].cache, i) && ss[f].cache.heap[i].expires == Some(expires) && ss[k].now < expires
    requires forall m | f <= m < k :: !Evicts(steps[m], ss[f].cache.heap[i].query)
    ensures i < |ss[k].cache.heap| && Listed(ss[k].cache, i)
    ensures ss[k].cache.heap[i].expires == Some(expires) && ss[k].cache.heap[i].query == ss[f].cache.heap[i].query
  {
    if f < k {
      TimeGrows(ss, steps, k - 1, k);
      StaysKept(ss, steps, f, k - 1, i, expires);
      RunKeeps(ss, steps, k - 1);
      StepKeepsResults(ss[k - 1], ss[k], steps[k - 1], i);
      StepKeepsListed(ss[k - 1], ss[k], steps[k - 1], i);
    }
  }

  lemma FinishedIsKept(s: Sys, s': Sys, step: Step)
    requires CacheInv(s.cache) && ExecInv(s) && Next(s, s', step) && step.Finish?
    requires step.i < |s.cache.heap| && s.cache.heap[step.i].query !in step.victims && s.run[step.i].r.err != Canceled
    ensures step.i < |s'.cache.heap| && Listed(s'.cache, step.i)
    ensures s'.cache.heap[step.i].query == s.cache.heap[step.i].query
    ensures s'.cache.heap[step.i].expires ==
            Some(s.now + if s.run[step.i].r.err == NoError then 30 * SECOND else 10 * SECOND)
  {
    ConcludeHeap(s.cache, step.i, s.run[step.i].r, s.now, step.victims, s'.cache);
    assert Listed(s.cache, step.i);
    FinishKeepsListed(s.cache, step.i, s.run[step.i].r, s.now, step.victims, s'.cache, step.i);
  }

  lemma KeptIsJoined(s: Sys, s': Sys, step: Step, i: nat, expires: Time)
    requires Next(s, s', step) && step.Get? && i < |s.cache.heap| && Listed(s.cache, i)
    requires s.cache.heap[i].query == step.q
    requires s.cache.heap[i].expires == Some(expires) && s.now < expires
    ensures step.a == Joined(i)
  {
    FreshEntryIsJoined(s.cache, step.q, s.now, step.a, s'.cache);
  }

  /** A result that was not cancelled answers every later `get` of its query without a new lookup, for
      thirty seconds if it is good and ten if it is an error, unless the entry is evicted first. */
  lemma ReusedUntilExpiry(ss: seq<Sys>, steps: seq<Step>, f: nat, j: nat)
    requires Run(ss, steps) && f < j < |steps| && steps[f].Finish? && steps[j].Get?
    requires steps[f].i < |ss[f].run| && steps[f].i < |ss[f].cache.heap| && ss[f].run[steps[f].i].Returned?
    requires ss[f].run[steps[f].i].r.err != Canceled && steps[j].q == ss[f].cache.heap[steps[f].i].query
    requires ss[j].now < ss[f].now + if ss[f].run[steps[f].i].r.err == NoError then 30 * SECOND else 10 * SECOND
    requires forall m | f <= m < j :: !Evicts(steps[m], steps[j].q)
    ensures steps[j].a == Joined(steps[f].i)
  {
    hide CacheInv, ExecInv, ParkInv, RememberInv, ClearedInv, Spaced, Listed, Next;
    RunKeeps(ss, steps, f);
    assert Next(ss[f], ss[f + 1], steps[f]) && Next(ss[j], ss[j + 1], steps[j]);
    FinishedIsKept(ss[f], ss[f + 1], steps[f]);
    var expires := ss[f + 1].cache.heap[steps[f].i].expires.value;
    StaysKept(ss, steps, f + 1, j, steps[f].i, expires);
    KeptIsJoined(ss[j], ss[j + 1], steps[j], steps[f].i, expires);
  }
}
