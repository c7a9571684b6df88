/** Guest-IP collection as a whole (internal/pve/guest_cache.go): rounds of scan, eight workers and the calls of
    `queryGuest` that they make on shared state files, interleaved in any order, with failing writes and a
    crash between any two steps. */
module GuestSystem {
  import opened Common
  import opened Sorting
  import opened GuestBackoff
  import opened GuestCollector
  import R = GuestRound

  // ---------- the system ----------

  /** How far the call of a worker has got. `HasRead`: it read `previous`, found it due at `stamp`, and has not
      reserved yet; another call may write the file meanwhile. */
  datatype Call = Off | Entered | HasRead(previous: GuestState, stamp: Time) | Asking(phase: Phase)

  /** What happened to which VM. */
  datatype Entry = Entry(id: int, event: Event)

  /** `calls[w]` is the call that worker `w` makes while its seat is running. */
  datatype Sys = Sys(now: Time, host: string, files: map<int, File>, round: R.Round, calls: seq<Call>, log: seq<Entry>)

  datatype Step =
    | Tick(later: Time)
    | Scan(targets: seq<Target>, stamp: Time, done: nat)
    | Sched(step: R.Step)
    | Read(w: nat, stamp: Time)
    | GiveUp(w: nat)
    | Query(w: nat, m: Move)
    | Crash

  const NO_CALLS: seq<Call> := [Off, Off, Off, Off, Off, Off, Off, Off]

  /** No round is going on. */
  const NO_ROUND := R.Opened([]).(closed := true)

  predicate Over(r: R.Round) { r.closed && r.seats == R.ALL_FREE }

  predicate Works(s: Sys, w: nat) {
    w < |s.round.seats| && w < |s.calls| && s.round.seats[w].Running? && s.round.seats[w].j < |s.round.jobs|
  }

  /** The target whose guest worker `w` asks. */
  function Job(s: Sys, w: nat): Target
    requires Works(s, w)
  {
    s.round.jobs[s.round.seats[w].j].target
  }

  function PhaseOf(c: Call): Phase { if c.Asking? then c.phase else Idle }

  function StateOf(files: map<int, File>, id: int): GuestState {
    var file := Contents(files, id);
    if file.Readable? then file.state else NO_STATE
  }

  function Tagged(id: int, events: seq<Event>): seq<Entry> {
    seq(|events|, i requires 0 <= i < |events| => Entry(id, events[i]))
  }

  /** The resets that a scan of these targets writes. */
  function Resets(files: map<int, File>, host: string, targets: seq<Target>): seq<Entry> {
    if targets == [] then []
    else
      var n := |targets| - 1;
      Resets(files, host, targets[..n])
      + (if NeedsReset(Swept(files, host, targets[..n]), host, targets[n])
         then [Entry(targets[n].id, Forgotten(targets[n]))]
         else [])
  }

  /** `done` targets are scanned; when a write fails, or a crash comes, before all of them are, there is no round. */
  function AfterScan(s: Sys, targets: seq<Target>, stamp: Time, done: nat): Sys
    requires done <= |targets|
  {
    s.(files := Swept(s.files, s.host, targets[..done]),
       round := if done == |targets| then R.Opened(Sort(Before, DueIn(s.files, s.host, targets, stamp))) else NO_ROUND,
       log := s.log + Resets(s.files, s.host, targets[..done]))
  }

  /** One move of the call of worker `w`. */
  function AfterMove(s: Sys, w: nat, m: Move): Sys
    requires Works(s, w) && CanMove(PhaseOf(s.calls[w]), m)
  {
    var id, phase := Job(s, w).id, PhaseOf(s.calls[w]);
    var (file, phase', events) := Effect(s.host, s.now, StateOf(s.files, id), phase, m);
    s.(files := if Writes(phase, m) then s.files[id := Readable(file)] else s.files,
       calls := s.calls[w := if phase'.Idle? then Off else Asking(phase')],
       log := s.log + Tagged(id, events))
  }

  ghost predicate Next(s: Sys, s': Sys, step: Step) {
    match step
    case Tick(later) => later >= s.now && s' == s.(now := later)
    case Scan(targets, stamp, done) =>
      Over(s.round) && stamp <= s.now && done <= |targets| && s' == AfterScan(s, targets, stamp, done)
    case Sched(step) =>
      && R.Next(s.round, s'.round, step)
      && (step.Done? ==> step.w < |s.calls| && s.calls[step.w].Off?)
      && s' == s.(round := s'.round,
                  calls := if step.Begin? && step.w < |s.calls| then s.calls[step.w := Entered] else s.calls)
    case Read(w, stamp) =>
      && Works(s, w) && s.calls[w].Entered? && stamp <= s.now && !s.round.cancelled
      && Contents(s.files, Job(s, w).id).Readable? && stamp >= StateOf(s.files, Job(s, w).id).next
      && s' == s.(calls := s.calls[w := HasRead(StateOf(s.files, Job(s, w).id), stamp)])
    case GiveUp(w) =>
      // unreadable, stopped, not due, or the reservation could not be written
      w < |s.calls| && (s.calls[w].Entered? || s.calls[w].HasRead?) && s' == s.(calls := s.calls[w := Off])
    case Query(w, m) =>
      && Works(s, w) && CanMove(PhaseOf(s.calls[w]), m)
      && (match m
          case Begin(target, previous, stamp) => s.calls[w] == HasRead(previous, stamp) && target == Job(s, w)
          case Launch => true
          case Return(outcome) => outcome.OuterStop? <==> s.round.cancelled
          case Conclude(stamp, _) => stamp <= s.now)
      && s' == AfterMove(s, w, m)
    case Crash => s' == s.(round := NO_ROUND, calls := NO_CALLS)
  }

  // ---------- one VM of the system ----------

  /** What happened to this VM. */
  function LogOf(log: seq<Entry>, id: int): seq<Event> {
    if log == [] then []
    else
      var rest := LogOf(log[..|log| - 1], id);
      if log[|log| - 1].id == id then rest + [log[|log| - 1].event] else rest
  }

  /** This VM as `GuestBackoff` sees it, with the call of a worker at `phase`. */
  function View(s: Sys, id: int, phase: Phase): Vm { Vm(s.now, s.host, StateOf(s.files, id), phase, LogOf(s.log, id)) }

  lemma {:induction false} LogOfSplit(a: seq<Entry>, b: seq<Entry>, id: int)
    ensures LogOf(a + b, id) == LogOf(a, id) + LogOf(b, id)
  {
    if b == [] {
      assert a + b == a;
    } else {
      assert (a + b)[..|a + b| - 1] == a + b[..|b| - 1];
      LogOfSplit(a, b[..|b| - 1], id);
    }
  }

  lemma {:induction false} LogOfTagged(id: int, events: seq<Event>, other: int)
    ensures LogOf(Tagged(id, events), other) == if other == id then events else []
  {
    if events != [] {
      var n := |events| - 1;
      assert Tagged(id, events)[..n] == Tagged(id, events[..n]);
      assert events == events[..n] + [events[n]];
      LogOfTagged(id, events[..n], other);
    }
  }

  // ---------- the pacing invariant ----------

  /** No two candidates of a round are the same VM. */
  predicate DistinctJobs(jobs: seq<Candidate>) {
    forall i, j | 0 <= i < j < |jobs| :: jobs[i].target.id != jobs[j].target.id
  }

  /** The count and the time with which the files of `start` began. */
  function BeforeOf(start: map<int, File>, id: int): nat { Max(StateOf(start, id).failures, 0) }

  function SinceOf(start: map<int, File>, id: int): Time { StateOf(start, id).next }

  function FirstOf(start: map<int, File>, id: int): Answer { AnswerIn(StateOf(start, id)) }

  ghost predicate Good(s: Sys, start: map<int, File>, id: int, phase: Phase) {
    Books(View(s, id, phase), BeforeOf(start, id), SinceOf(start, id), FirstOf(start, id))
  }

  /** Workers call only while their seat is running. */
  ghost predicate Seated(s: Sys) {
    && R.RoundInv(s.round) && |s.calls| == R.WORKERS
    && forall w | 0 <= w < |s.calls| && !s.calls[w].Off? :: Works(s, w)
  }

  /** What the call of worker `w` knows about its file. */
  ghost predicate CallInv(s: Sys, start: map<int, File>, w: nat)
    requires Works(s, w)
  {
    var id := Job(s, w).id;
    match s.calls[w]
    case Off => true
    case Entered => true
    case HasRead(previous, stamp) =>
      Contents(s.files, id) == Readable(previous) && previous.next <= stamp <= s.now
    case Asking(phase) => !phase.Idle? && Contents(s.files, id).Readable? && Good(s, start, id, phase)
  }

  ghost predicate SysInv(s: Sys, start: map<int, File>) {
    && Seated(s) && DistinctJobs(s.round.jobs)
    && (forall id :: Good(s, start, id, Idle))
    && (forall w | 0 <= w < |s.calls| && !s.calls[w].Off? :: Works(s, w) && CallInv(s, start, w))
  }

  /** Two workers never work for the same VM. */
  lemma JobsDiffer(s: Sys, v: nat, w: nat)
    requires Seated(s) && DistinctJobs(s.round.jobs) && Works(s, v) && Works(s, w) && v != w
    ensures Job(s, v).id != Job(s, w).id
  {
    assert s.round.seats[v].j != s.round.seats[w].j;
  }

  // ---------- a move of one call ----------

  lemma IdleIsGood(s: Sys, start: map<int, File>, id: int, phase: Phase)
    requires Good(s, start, id, phase)
    ensures Good(s, start, id, Idle)
  {
    hide Streak, Earliest, LogInv;
  }

  /** Only the file and the history of the worker's own VM change. */
  lemma MoveEffect(s: Sys, w: nat, m: Move, id: int)
    requires Works(s, w) && CanMove(PhaseOf(s.calls[w]), m)
    ensures var s', own := AfterMove(s, w, m), Job(s, w).id;
            var (file, phase, events) := Effect(s.host, s.now, StateOf(s.files, own), PhaseOf(s.calls[w]), m);
            && (id != own ==> Contents(s'.files, id) == Contents(s.files, id))
            && StateOf(s'.files, id) == (if id == own then file else StateOf(s.files, id))
            && LogOf(s'.log, id) == LogOf(s.log, id) + (if id == own then events else [])
            && PhaseOf(s'.calls[w]) == phase
  {
    hide Effect, Writes, LogOf, CanMove, Tagged;
    var own, phase := Job(s, w).id, PhaseOf(s.calls[w]);
    var effect := Effect(s.host, s.now, StateOf(s.files, own), phase, m);
    if !Writes(phase, m) { UnwrittenStays(s.host, s.now, StateOf(s.files, own), phase, m); }
    LogOfSplit(s.log, Tagged(own, effect.2), id);
    LogOfTagged(own, effect.2, id);
    assert LogOf(s.log, id) + [] == LogOf(s.log, id);
  }

  /** The call and the file of its VM make a step of `GuestBackoff`. */
  lemma MoveIsStep(s: Sys, s': Sys, start: map<int, File>, w: nat, m: Move)
    requires Next(s, s', Query(w, m)) && CallInv(s, start, w)
    ensures var id := Job(s, w).id;
            GuestBackoff.Next(View(s, id, PhaseOf(s.calls[w])), View(s', id, PhaseOf(s'.calls[w])), Do(m))
  {
    MoveEffect(s, w, m, Job(s, w).id);
    hide Effect, Books, LogOf;
  }

  lemma MoveKeepsOwn(s: Sys, s': Sys, start: map<int, File>, w: nat, m: Move)
    requires Next(s, s', Query(w, m)) && CallInv(s, start, w) && Good(s, start, Job(s, w).id, Idle)
    ensures Good(s', start, Job(s, w).id, PhaseOf(s'.calls[w])) && Good(s', start, Job(s, w).id, Idle)
  {
    var id := Job(s, w).id;
    MoveIsStep(s, s', start, w, m);
    hide Books, GuestBackoff.Next, AfterMove;
    StepKeepsBooks(View(s, id, PhaseOf(s.calls[w])), View(s', id, PhaseOf(s'.calls[w])), Do(m), BeforeOf(start, id),
                   SinceOf(start, id), FirstOf(start, id));
    IdleIsGood(s', start, id, PhaseOf(s'.calls[w]));
  }

  lemma MoveKeepsOther(s: Sys, s': Sys, start: map<int, File>, w: nat, m: Move, id: int, phase: Phase)
    requires Next(s, s', Query(w, m)) && id != Job(s, w).id
    ensures Good(s', start, id, phase) == Good(s, start, id, phase) && Contents(s'.files, id) == Contents(s.files, id)
  {
    MoveEffect(s, w, m, id);
    assert LogOf(s.log, id) + [] == LogOf(s.log, id);
    hide Effect, Books, LogOf;
  }

  lemma MoveKeepsCalls(s: Sys, s': Sys, start: map<int, File>, w: nat, m: Move, v: nat)
    requires SysInv(s, start) && Next(s, s', Query(w, m)) && v < |s'.calls| && !s'.calls[v].Off?
    ensures Works(s', v) && CallInv(s', start, v)
  {
    hide R.RoundInv, Good, Effect;
    assert s'.round == s.round;
    if v == w {
      MoveKeepsOwn(s, s', start, w, m);
      MoveReads(s, s', start, w, m);
    } else {
      assert s'.calls[v] == s.calls[v];
      assert Works(s, v) && CallInv(s, start, v);
      JobsDiffer(s, v, w);
      MoveKeepsOther(s, s', start, w, m, Job(s, v).id, PhaseOf(s.calls[v]));
    }
  }

  /** The file of a call under way stays readable. */
  lemma MoveReads(s: Sys, s': Sys, start: map<int, File>, w: nat, m: Move)
    requires Next(s, s', Query(w, m)) && CallInv(s, start, w)
    ensures Contents(s'.files, Job(s, w).id).Readable? && w < |s'.calls|
    ensures s'.calls[w].Off? || (s'.calls[w].Asking? && !s'.calls[w].phase.Idle?)
  {
    hide Good, LogOf;
  }

  lemma MoveKeeps(s: Sys, s': Sys, start: map<int, File>, step: Step)
    requires SysInv(s, start) && Next(s, s', step) && step.Query?
    ensures SysInv(s', start)
  {
    hide R.RoundInv, Good, Effect;
    var w := step.w;
    assert CallInv(s, start, w);
    forall id ensures Good(s', start, id, Idle) {
      if id == Job(s, w).id {
        MoveKeepsOwn(s, s', start, w, step.m);
      } else {
        MoveKeepsOther(s, s', start, w, step.m, id, Idle);
      }
    }
    forall v | 0 <= v < |s'.calls| && !s'.calls[v].Off? ensures Works(s', v) && CallInv(s', start, v) {
      MoveKeepsCalls(s, s', start, w, step.m, v);
    }
    hide CallInv;
  }

  // ---------- the other steps ----------

  lemma TickGood(s: Sys, start: map<int, File>, later: Time, id: int, phase: Phase)
    requires Good(s, start, id, phase) && later >= s.now
    ensures Good(s.(now := later), start, id, phase)
  {
    hide Books;
    StepKeepsBooks(View(s, id, phase), View(s.(now := later), id, phase), GuestBackoff.Tick(later), BeforeOf(start, id),
                   SinceOf(start, id), FirstOf(start, id));
  }

  lemma TickKeeps(s: Sys, s': Sys, start: map<int, File>, step: Step)
    requires SysInv(s, start) && Next(s, s', step) && step.Tick?
    ensures SysInv(s', start)
  {
    hide Good, R.RoundInv;
    forall id ensures Good(s', start, id, Idle) { TickGood(s, start, step.later, id, Idle); }
    forall w | 0 <= w < |s'.calls| && !s'.calls[w].Off? ensures Works(s', w) && CallInv(s', start, w) {
      assert CallInv(s, start, w);
      if s.calls[w].Asking? { TickGood(s, start, step.later, Job(s, w).id, s.calls[w].phase); }
    }
  }

  /** Nothing but the round and the calls has changed. */
  predicate SameFiles(s: Sys, s': Sys) {
    s'.now == s.now && s'.host == s.host && s'.files == s.files && s'.log == s.log
  }

  lemma SameGood(s: Sys, s': Sys, start: map<int, File>, id: int, phase: Phase)
    requires SameFiles(s, s')
    ensures Good(s', start, id, phase) == Good(s, start, id, phase)
  {
    hide Books;
  }

  lemma SeatsStay(s: Sys, s': Sys, step: R.Step)
    requires Seated(s) && Next(s, s', Sched(step))
    ensures Seated(s') && s'.round.jobs == s.round.jobs
    ensures forall w | 0 <= w < |s.calls| && !s.calls[w].Off? ::
              w < |s'.calls| && s'.calls[w] == s.calls[w] && s'.round.seats[w] == s.round.seats[w]
  {
    R.StepKeeps(s.round, s'.round, step);
    hide R.Settled, R.Retrying;
    assert R.Apart(s'.round);
  }

  lemma SchedKeeps(s: Sys, s': Sys, start: map<int, File>, step: Step)
    requires SysInv(s, start) && Next(s, s', step) && step.Sched?
    ensures SysInv(s', start)
  {
    hide Good, R.RoundInv, R.Next;
    SeatsStay(s, s', step.step);
    forall id ensures Good(s', start, id, Idle) { SameGood(s, s', start, id, Idle); }
    forall w | 0 <= w < |s'.calls| && !s'.calls[w].Off? ensures Works(s', w) && CallInv(s', start, w) {
      if !s.calls[w].Off? {
        assert Works(s, w) && CallInv(s, start, w);
        SameGood(s, s', start, Job(s, w).id, PhaseOf(s.calls[w]));
      }
    }
  }

  lemma ReadKeeps(s: Sys, s': Sys, start: map<int, File>, step: Step)
    requires SysInv(s, start) && Next(s, s', step) && (step.Read? || step.GiveUp?)
    ensures SysInv(s', start)
  {
    hide Good, R.RoundInv;
    forall id ensures Good(s', start, id, Idle) { SameGood(s, s', start, id, Idle); }
    forall w | 0 <= w < |s'.calls| && !s'.calls[w].Off? ensures Works(s', w) && CallInv(s', start, w) {
      assert Works(s, w) && CallInv(s, start, w);
      if s.calls[w].Asking? { SameGood(s, s', start, Job(s, w).id, s.calls[w].phase); }
    }
  }

  lemma CrashKeeps(s: Sys, s': Sys, start: map<int, File>)
    requires SysInv(s, start) && Next(s, s', Step.Crash)
    ensures SysInv(s', start)
  {
    NoRoundKeeps();
    hide Good, R.RoundInv;
    forall id ensures Good(s', start, id, Idle) { SameGood(s, s', start, id, Idle); }
  }

  lemma NoRoundKeeps()
    ensures R.RoundInv(NO_ROUND)
  {
    R.OpenedKeeps([]);
    assert R.Known(NO_ROUND, 0) == R.Known(R.Opened([]), 0);
    forall j: nat ensures R.Known(NO_ROUND, j) == R.Known(R.Opened([]), j) {}
  }

  // ---------- the scan ----------

  /** The scan of these targets, one after the other, keeps the books of every VM. */
  lemma {:induction false} SweepGood(s: Sys, start: map<int, File>, targets: seq<Target>, id: int)
    requires Good(s, start, id, Idle)
    ensures Good(s.(files := Swept(s.files, s.host, targets), log := s.log + Resets(s.files, s.host, targets)), start,
                 id, Idle)
  {
    hide Good, NeedsReset;
    if targets == [] {
      assert s.log + [] == s.log;
    } else {
      var n := |targets| - 1;
      SweepGood(s, start, targets[..n], id);
      var s1 := s.(files := Swept(s.files, s.host, targets[..n]), log := s.log + Resets(s.files, s.host, targets[..n]));
      ResetGood(s1, start, targets[n], id);
      var more := if NeedsReset(s1.files, s.host, targets[n]) then [Entry(targets[n].id, Forgotten(targets[n]))]
                  else [];
      assert s.log + (Resets(s.files, s.host, targets[..n]) + more) == s1.log + more;
    }
  }

  lemma ResetGood(s: Sys, start: map<int, File>, target: Target, id: int)
    requires Good(s, start, id, Idle)
    ensures Good(s.(files := Adopted(s.files, s.host, target),
                    log := s.log + (if NeedsReset(s.files, s.host, target) then [Entry(target.id, Forgotten(target))]
                                    else [])),
                    start, id, Idle)
  {
    if NeedsReset(s.files, s.host, target) {
      var s' := s.(files := Adopted(s.files, s.host, target), log := s.log + [Entry(target.id, Forgotten(target))]);
      assert (s.log + [Entry(target.id, Forgotten(target))])[..|s.log|] == s.log;
      hide Books;
      if id == target.id {
        StepKeepsBooks(View(s, id, Idle), View(s', id, Idle), Forget(target), BeforeOf(start, id), SinceOf(start, id),
                       FirstOf(start, id));
      } else {
        assert View(s', id, Idle) == View(s, id, Idle);
      }
    } else {
      assert s.log + [] == s.log;
    }
  }

  lemma NobodyCalls(s: Sys)
    requires Seated(s) && Over(s.round)
    ensures forall w | 0 <= w < |s.calls| :: s.calls[w].Off?
  {
    hide R.RoundInv;
    assert |s.calls| == |s.round.seats|;
    assert forall w | 0 <= w < |s.round.seats| :: s.round.seats[w].Free?;
  }

  lemma ScanGood(s: Sys, s': Sys, start: map<int, File>, step: Step, id: int)
    requires Good(s, start, id, Idle) && Next(s, s', step) && step.Scan?
    ensures Good(s', start, id, Idle)
  {
    hide Good, Swept, Resets, Sort, DueIn;
    SweepGood(s, start, step.targets[..step.done], id);
    SameGood(s.(files := s'.files, log := s'.log), s', start, id, Idle);
  }

  lemma ScanKeeps(s: Sys, s': Sys, start: map<int, File>, step: Step)
    requires SysInv(s, start) && Next(s, s', step) && step.Scan? && DistinctJobs(s'.round.jobs)
    ensures SysInv(s', start)
  {
    hide Good, R.RoundInv, Swept, Resets, Sort, DueIn;
    NobodyCalls(s);
    NoRoundKeeps();
    R.OpenedKeeps(s'.round.jobs);
    forall id ensures Good(s', start, id, Idle) { ScanGood(s, s', start, step, id); }
  }

  // ---------- which target lists give distinct candidates ----------

  /** No two targets that the scan finds due are the same VM. */
  predicate NoTwoDue(files: map<int, File>, host: string, targets: seq<Target>, now: Time) {
    forall i: nat, j: nat | i < j < |targets| && DueAt(files, host, targets, now, i)
                            && DueAt(files, host, targets, now, j) ::
      targets[i].id != targets[j].id
  }

  /** How many candidates are this VM. */
  function Tally(cs: seq<Candidate>, id: int): nat {
    if cs == [] then 0 else Tally(cs[..|cs| - 1], id) + (if cs[|cs| - 1].target.id == id then 1 else 0)
  }

  lemma {:induction false} TallySplit(a: seq<Candidate>, b: seq<Candidate>, id: int)
    ensures Tally(a + b, id) == Tally(a, id) + Tally(b, id)
  {
    if b == [] {
      assert a + b == a;
    } else {
      assert (a + b)[..|a + b| - 1] == a + b[..|b| - 1];
      TallySplit(a, b[..|b| - 1], id);
    }
  }

  lemma {:induction false} TallyInsert(c: Candidate, cs: seq<Candidate>, id: int)
    ensures Tally(Insert(Before, c, cs), id) == Tally([c], id) + Tally(cs, id)
  {
    if cs == [] || Before(c, cs[0]) {
      TallySplit([c], cs, id);
    } else {
      TallyInsert(c, cs[1..], id);
      TallySplit([cs[0]], Insert(Before, c, cs[1..]), id);
      TallySplit([cs[0]], cs[1..], id);
      assert cs == [cs[0]] + cs[1..];
    }
  }

  lemma {:induction false} TallySort(cs: seq<Candidate>, id: int)
    ensures Tally(Sort(Before, cs), id) == Tally(cs, id)
  {
    if cs != [] {
      TallySort(cs[1..], id);
      TallyInsert(cs[0], Sort(Before, cs[1..]), id);
      TallySplit([cs[0]], cs[1..], id);
      assert cs == [cs[0]] + cs[1..];
    }
  }

  lemma {:induction false} TallyOf(cs: seq<Candidate>, i: nat)
    requires i < |cs|
    ensures Tally(cs, cs[i].target.id) >= 1
  {
    if i < |cs| - 1 { TallyOf(cs[..|cs| - 1], i); }
  }

  lemma {:induction false} TallyOfTwo(cs: seq<Candidate>, i: nat, j: nat)
    requires i < j < |cs| && cs[i].target.id == cs[j].target.id
    ensures Tally(cs, cs[i].target.id) >= 2
  {
    if j < |cs| - 1 { TallyOfTwo(cs[..|cs| - 1], i, j); } else { TallyOf(cs[..|cs| - 1], i); }
  }

  lemma {:induction false} TallyFinds(cs: seq<Candidate>, id: int) returns (i: nat)
    requires Tally(cs, id) >= 1
    ensures i < |cs| && cs[i].target.id == id
  {
    if cs[|cs| - 1].target.id == id { i := |cs| - 1; } else { i := TallyFinds(cs[..|cs| - 1], id); }
  }

  lemma {:induction false} TallyFindsTwo(cs: seq<Candidate>, id: int) returns (i: nat, j: nat)
    requires Tally(cs, id) >= 2
    ensures i < j < |cs| && cs[i].target.id == cs[j].target.id == id
  {
    if cs[|cs| - 1].target.id == id {
      j := |cs| - 1;
      i := TallyFinds(cs[..|cs| - 1], id);
    } else {
      i, j := TallyFindsTwo(cs[..|cs| - 1], id);
    }
  }

  lemma {:induction false} DueTally(files: map<int, File>, host: string, targets: seq<Target>, now: Time, i: nat)
    requires i < |targets| && DueAt(files, host, targets, now, i)
    ensures Tally(DueIn(files, host, targets, now), targets[i].id) >= 1
  {
    var n: nat := |targets| - 1;
    DueInLast(files, host, targets, now);
    hide DueIn, FileAt;
    if i < n {
      PrefixFile(files, host, targets, n, i);
      DueTally(files, host, targets[..n], now, i);
      TallyGrows(files, host, targets, now, targets[i].id);
    } else {
      TallySplit(DueIn(files, host, targets[..n], now),
                 [GuestCollector.Entry(FileAt(files, host, targets, n), targets[n])], targets[n].id);
    }
  }

  /** One more target adds at most itself. */
  lemma TallyGrows(files: map<int, File>, host: string, targets: seq<Target>, now: Time, id: int)
    requires targets != []
    ensures var n := |targets| - 1;
            Tally(DueIn(files, host, targets, now), id) ==
            Tally(DueIn(files, host, targets[..n], now), id)
            + (if DueAt(files, host, targets, now, n) && targets[n].id == id then 1 else 0)
  {
    var n: nat := |targets| - 1;
    DueInLast(files, host, targets, now);
    hide DueIn, FileAt;
    TallySplit(DueIn(files, host, targets[..n], now),
               if DueAt(files, host, targets, now, n)
               then [GuestCollector.Entry(FileAt(files, host, targets, n), targets[n])] else [], id);
  }

  lemma {:induction false} DueTallyTwo(files: map<int, File>, host: string, targets: seq<Target>, now: Time, i: nat,
                                       j: nat)
    requires i < j < |targets| && targets[i].id == targets[j].id
    requires DueAt(files, host, targets, now, i) && DueAt(files, host, targets, now, j)
    ensures Tally(DueIn(files, host, targets, now), targets[i].id) >= 2
  {
    var n: nat := |targets| - 1;
    TallyGrows(files, host, targets, now, targets[i].id);
    hide DueIn, FileAt, Tally;
    PrefixFile(files, host, targets, n, i);
    if j < n {
      PrefixFile(files, host, targets, n, j);
      DueTallyTwo(files, host, targets[..n], now, i, j);
    } else {
      DueTally(files, host, targets[..n], now, i);
    }
  }

  lemma {:induction false} DueFinds(files: map<int, File>, host: string, targets: seq<Target>, now: Time, id: int)
    returns (i: nat)
    requires Tally(DueIn(files, host, targets, now), id) >= 1
    ensures i < |targets| && DueAt(files, host, targets, now, i) && targets[i].id == id
  {
    var n: nat := |targets| - 1;
    TallyGrows(files, host, targets, now, id);
    hide FileAt;
    if DueAt(files, host, targets, now, n) && targets[n].id == id {
      i := n;
    } else {
      i := DueFinds(files, host, targets[..n], now, id);
      PrefixFile(files, host, targets, n, i);
    }
  }

  lemma {:induction false} DueFindsTwo(files: map<int, File>, host: string, targets: seq<Target>, now: Time, id: int)
    returns (i: nat, j: nat)
    requires Tally(DueIn(files, host, targets, now), id) >= 2
    ensures i < j < |targets| && DueAt(files, host, targets, now, i) && DueAt(files, host, targets, now, j)
    ensures targets[i].id == targets[j].id == id
  {
    var n: nat := |targets| - 1;
    TallyGrows(files, host, targets, now, id);
    hide FileAt;
    if DueAt(files, host, targets, now, n) && targets[n].id == id {
      j := n;
      i := DueFinds(files, host, targets[..n], now, id);
      PrefixFile(files, host, targets, n, i);
    } else {
      i, j := DueFindsTwo(files, host, targets[..n], now, id);
      PrefixFile(files, host, targets, n, i);
      PrefixFile(files, host, targets, n, j);
    }
  }

  /** The candidates of a round are distinct exactly if no two due targets are the same VM. */
  lemma DistinctExactly(files: map<int, File>, host: string, targets: seq<Target>, now: Time)
    ensures DistinctJobs(Sort(Before, DueIn(files, host, targets, now))) <==> NoTwoDue(files, host, targets, now)
  {
    hide DueIn, DueAt, Sort, Tally;
    var due := DueIn(files, host, targets, now);
    var jobs := Sort(Before, due);
    if !DistinctJobs(jobs) {
      var i: nat, j: nat :| i < j < |jobs| && jobs[i].target.id == jobs[j].target.id;
      TallyOfTwo(jobs, i, j);
      TallySort(due, jobs[i].target.id);
      var a, b := DueFindsTwo(files, host, targets, now, jobs[i].target.id);
    }
    if !NoTwoDue(files, host, targets, now) {
      var i: nat, j: nat :| i < j < |targets| && DueAt(files, host, targets, now, i)
                            && DueAt(files, host, targets, now, j)
                            && targets[i].id == targets[j].id;
      DueTallyTwo(files, host, targets, now, i, j);
      TallySort(due, targets[i].id);
      var a, b := TallyFindsTwo(jobs, targets[i].id);
    }
  }

  lemma DistinctTargetsSuffice(files: map<int, File>, host: string, targets: seq<Target>, now: Time)
    requires DistinctTargets(targets)
    ensures NoTwoDue(files, host, targets, now)
  {}

  // ---------- runs ----------

  ghost predicate Path(ss: seq<Sys>, steps: seq<Step>) {
    |ss| == |steps| + 1 && forall k | 0 <= k < |steps| :: Next(ss[k], ss[k + 1], steps[k])
  }

  /** The state directory may hold anything at the start. */
  ghost predicate Run(ss: seq<Sys>, steps: seq<Step>) {
    Path(ss, steps) && ss[0].round == NO_ROUND && ss[0].calls == NO_CALLS && ss[0].log == []
  }

  /** No round has a VM twice among its due targets. */
  ghost predicate Separate(ss: seq<Sys>, steps: seq<Step>)
    requires Path(ss, steps)
  {
    forall k | 0 <= k < |steps| && steps[k].Scan? && steps[k].done == |steps[k].targets| ::
      NoTwoDue(ss[k].files, ss[k].host, steps[k].targets, steps[k].stamp)
  }

  lemma StartIsGood(s: Sys, id: int)
    requires s.log == []
    ensures Good(s, s.files, id, Idle)
  {}

  lemma NextKeeps(s: Sys, s': Sys, start: map<int, File>, step: Step)
    requires SysInv(s, start) && Next(s, s', step)
    requires step.Scan? && step.done == |step.targets| ==> NoTwoDue(s.files, s.host, step.targets, step.stamp)
    ensures SysInv(s', start)
  {
    hide SysInv, NoTwoDue, DueIn, Sort, Swept, Resets;
    match step
    case Tick(_) => TickKeeps(s, s', start, step);
    case Scan(targets, stamp, done) =>
      DistinctExactly(s.files, s.host, targets, stamp);
      ScanKeeps(s, s', start, step);
    case Sched(_) => SchedKeeps(s, s', start, step);
    case Read(_, _) => ReadKeeps(s, s', start, step);
    case GiveUp(_) => ReadKeeps(s, s', start, step);
    case Query(_, _) => MoveKeeps(s, s', start, step);
    case Crash => CrashKeeps(s, s', start);
  }

  lemma StartKeeps(s: Sys)
    requires s.round == NO_ROUND && s.calls == NO_CALLS && s.log == []
    ensures SysInv(s, s.files)
  {
    NoRoundKeeps();
    hide R.RoundInv, Good;
    forall id ensures Good(s, s.files, id, Idle) { StartIsGood(s, id); }
  }

  lemma {:induction false} RunKeeps(ss: seq<Sys>, steps: seq<Step>, k: nat)
    requires Run(ss, steps) && Separate(ss, steps) && k < |ss|
    ensures SysInv(ss[k], ss[0].files)
  {
    hide SysInv, Next, NoTwoDue;
    if k == 0 {
      StartKeeps(ss[0]);
    } else {
      RunKeeps(ss, steps, k - 1);
      NextKeeps(ss[k - 1], ss[k], ss[0].files, steps[k - 1]);
    }
  }

  /** Two workers never ask the same guest at once. */
  ghost predicate OneAtATime(s: Sys) {
    forall v, w | 0 <= v < w < |s.calls| && !s.calls[v].Off? && !s.calls[w].Off? && Works(s, v) && Works(s, w) ::
      Job(s, v).id != Job(s, w).id
  }

  ghost predicate AllPaced(s: Sys, start: map<int, File>) {
    forall id :: Paced(BeforeOf(start, id), SinceOf(start, id), LogOf(s.log, id))
  }

  lemma InvPaces(s: Sys, start: map<int, File>)
    requires SysInv(s, start)
    ensures OneAtATime(s) && AllPaced(s, start)
  {
    forall v, w | 0 <= v < w < |s.calls| && !s.calls[v].Off? && !s.calls[w].Off? && Works(s, v) && Works(s, w)
      ensures Job(s, v).id != Job(s, w).id
    {
      JobsDiffer(s, v, w);
    }
    forall id ensures Paced(BeforeOf(start, id), SinceOf(start, id), LogOf(s.log, id)) {
      assert Good(s, start, id, Idle);
    }
  }

  /** Over every run of rounds, workers, failing writes and crashes in which no round has a VM twice among
      its due targets: the queries of every VM are paced, its file holds the failure count and the time that
      its history calls for, and no guest is asked by two workers at once. */
  lemma QueriesArePaced(ss: seq<Sys>, steps: seq<Step>, k: nat, id: int)
    requires Run(ss, steps) && Separate(ss, steps) && k < |ss|
    ensures var before, since, log := BeforeOf(ss[0].files, id), SinceOf(ss[0].files, id), LogOf(ss[k].log, id);
            && Paced(before, since, log)
            && Level(StateOf(ss[k].files, id).failures) == Level(Streak(before, log))
            && StateOf(ss[k].files, id).next == Earliest(before, since, log)
    ensures OneAtATime(ss[k])
  {
    RunKeeps(ss, steps, k);
    InvPaces(ss[k], ss[0].files);
    assert Good(ss[k], ss[0].files, id, Idle);
  }

  predicate Answers(e: Event) { e.Succeeded? || e.Forgotten? }

  lemma {:induction false} LastAnswerIs(first: Answer, host: string, log: seq<Event>, m: int)
    requires -1 <= m < |log| && (m >= 0 ==> Answers(log[m])) && forall j | m < j < |log| :: !Answers(log[j])
    ensures LastAnswer(first, host, log) ==
            if m < 0 then first
            else if log[m].Succeeded? then Answer(host, log[m].target.start, log[m].target.agent, log[m].at, log[m].ips)
            else Answer(host, log[m].target.start, log[m].target.agent, 0, [])
  {
    if m < |log| - 1 { LastAnswerIs(first, host, log[..|log| - 1], m); }
  }

  /** Over the same runs, every file holds the last answer that its guest gave for this boot and agent, with the time
      it was given; after a reset it holds none; and before either it holds what it began with. A reservation, a
      failure and a stop leave the answer alone. */
  lemma FilesHoldLastAnswer(ss: seq<Sys>, steps: seq<Step>, k: nat, id: int, m: int)
    requires Run(ss, steps) && Separate(ss, steps) && k < |ss|
    requires var log := LogOf(ss[k].log, id);
             -1 <= m < |log| && (m >= 0 ==> Answers(log[m])) && forall j | m < j < |log| :: !Answers(log[j])
    ensures var file, first, log := StateOf(ss[k].files, id), StateOf(ss[0].files, id), LogOf(ss[k].log, id);
            if m < 0 then
              && file.host == first.host && file.start == first.start && file.agent == first.agent
              && file.collectedAt == first.collectedAt && file.ips == first.ips
            else
              && file.host == ss[k].host && file.start == log[m].target.start && file.agent == log[m].target.agent
              && (log[m].Succeeded? ==> file.collectedAt == log[m].at && file.ips == log[m].ips)
              && (log[m].Forgotten? ==> file.collectedAt == 0 && file.ips == [])
  {
    RunKeeps(ss, steps, k);
    assert Good(ss[k], ss[0].files, id, Idle);
    LastAnswerIs(FirstOf(ss[0].files, id), ss[k].host, LogOf(ss[k].log, id), m);
    hide VmInv, LastAnswer, LogOf;
  }

  // ---------- when a round is paced ----------

  /** `s'` can follow `s` in the same round, without a crash. */
  ghost predicate Leads(s: Sys, s': Sys) {
    exists ss, steps :: Path(ss, steps) && ss[0] == s && ss[|steps|] == s' && Within(steps)
  }

  predicate Within(steps: seq<Step>) { forall k | 0 <= k < |steps| :: !steps[k].Scan? && !steps[k].Crash? }

  lemma LeadsSelf(s: Sys)
    ensures Leads(s, s)
  {
    var steps: seq<Step> := [];
    assert Path([s], steps) && [s][0] == s && [s][|steps|] == s && Within(steps);
  }

  lemma LeadsOn(s: Sys, s': Sys, s'': Sys, step: Step)
    requires Leads(s, s') && Next(s', s'', step) && !step.Scan? && !step.Crash?
    ensures Leads(s, s'')
  {
    hide Next;
    var ss, steps :| Path(ss, steps) && ss[0] == s && ss[|steps|] == s' && Within(steps);
    var ss', steps' := ss + [s''], steps + [step];
    assert Path(ss', steps') && ss'[0] == s && ss'[|steps'|] == s'' && Within(steps');
  }

  /** Whatever follows in a round of distinct candidates is paced. */
  lemma {:induction false} PathKeeps(ss: seq<Sys>, steps: seq<Step>, start: map<int, File>, k: nat)
    requires Path(ss, steps) && Within(steps) && SysInv(ss[0], start) && k < |ss|
    ensures SysInv(ss[k], start)
  {
    hide SysInv, Next;
    if k > 0 {
      PathKeeps(ss, steps, start, k - 1);
      NextKeeps(ss[k - 1], ss[k], start, steps[k - 1]);
    }
  }

  lemma LeadsKeeps(s: Sys, s': Sys, start: map<int, File>)
    requires Leads(s, s') && SysInv(s, start)
    ensures SysInv(s', start)
  {
    hide SysInv, Next;
    var ss, steps :| Path(ss, steps) && ss[0] == s && ss[|steps|] == s' && Within(steps);
    PathKeeps(ss, steps, start, |steps|);
  }

  /** A round just opened, in which candidates have been handed to worker 1 and given up, and worker 0 may
      hold one that it has not begun. */
  ghost predicate Quiet(s1: Sys, s: Sys, m: nat, first: R.Seat) {
    && SameFiles(s1, s) && s.calls == NO_CALLS
    && s.round.jobs == s1.round.jobs && s.round.sent == m <= |s.round.jobs| && !s.round.closed && !s.round.cancelled
    && !first.Running? && s.round.seats == R.ALL_FREE[0 := first]
  }

  lemma NobodyRetries(jobs: seq<Candidate>, seats: seq<R.Seat>)
    requires forall w | 0 <= w < |seats| :: !seats[w].Running?
    ensures R.Retrying(jobs, seats) == {}
  {}

  lemma OneRetries(jobs: seq<Candidate>, seats: seq<R.Seat>)
    requires forall w | 0 < w < |seats| :: !seats[w].Running?
    ensures |R.Retrying(jobs, seats)| <= 1
  {
    SubsetCard(R.Retrying(jobs, seats), {0});
  }

  lemma PassOne(s0: Sys, s1: Sys, s: Sys, m: nat, first: R.Seat) returns (s': Sys)
    requires Leads(s0, s) && Quiet(s1, s, m, first) && m < |s.round.jobs|
    ensures Leads(s0, s') && Quiet(s1, s', m + 1, first)
  {
    hide Leads;
    var r := s.round;
    var r1 := r.(seats := r.seats[1 := R.Received(m)], sent := m + 1);
    var a := s.(round := r1);
    LeadsOn(s0, s, a, Sched(R.Send(1)));
    NobodyRetries(r1.jobs, r1.seats);
    var r2 := r1.(seats := r1.seats[1 := R.Running(m)], begun := r1.begun + [m]);
    var b := a.(round := r2, calls := NO_CALLS[1 := Entered]);
    LeadsOn(s0, a, b, Sched(R.Begin(1)));
    var c := b.(calls := b.calls[1 := Off]);
    LeadsOn(s0, b, c, GiveUp(1));
    assert c.calls == NO_CALLS;
    s' := c.(round := r2.(seats := r2.seats[1 := R.Free]));
    LeadsOn(s0, c, s', Sched(R.Done(1)));
    assert s'.round.seats == R.ALL_FREE[0 := first];
  }

  lemma {:induction false} PassTo(s0: Sys, s1: Sys, s: Sys, m: nat, k: nat, first: R.Seat) returns (s': Sys)
    requires Leads(s0, s) && Quiet(s1, s, m, first) && m <= k <= |s.round.jobs|
    ensures Leads(s0, s') && Quiet(s1, s', k, first)
    decreases k - m
  {
    if m == k {
      s' := s;
    } else {
      hide Leads, Quiet;
      assert s.round.jobs == s1.round.jobs by { QuietJobs(s1, s, m, first); }
      var next := PassOne(s0, s1, s, m, first);
      QuietJobs(s1, next, m + 1, first);
      s' := PassTo(s0, s1, next, m + 1, k, first);
    }
  }

  lemma QuietJobs(s1: Sys, s: Sys, m: nat, first: R.Seat)
    requires Quiet(s1, s, m, first)
    ensures s.round.jobs == s1.round.jobs
  {}

  /** Workers 0 and 1 have begun candidates `i` and `j`, and neither has read its file. */
  ghost predicate BothBegun(s1: Sys, s: Sys, i: nat, j: nat) {
    && SameFiles(s1, s) && s.round.jobs == s1.round.jobs && i < |s.round.jobs| && j < |s.round.jobs|
    && !s.round.cancelled
    && s.round.seats == R.ALL_FREE[0 := R.Running(i)][1 := R.Running(j)]
    && s.calls == NO_CALLS[0 := Entered][1 := Entered]
  }

  lemma BothBegin(s1: Sys, i: nat, j: nat) returns (s: Sys)
    requires s1.calls == NO_CALLS && s1.round == R.Opened(s1.round.jobs) && i < j < |s1.round.jobs|
    ensures Leads(s1, s) && BothBegun(s1, s, i, j)
  {
    LeadsSelf(s1);
    hide Leads;
    var a := PassTo(s1, s1, s1, 0, i, R.Free);
    var b := a.(round := a.round.(seats := a.round.seats[0 := R.Received(i)], sent := i + 1));
    LeadsOn(s1, a, b, Sched(R.Send(0)));
    assert Quiet(s1, b, i + 1, R.Received(i));
    var c := PassTo(s1, s1, b, i + 1, j, R.Received(i));
    var d := c.(round := c.round.(seats := c.round.seats[1 := R.Received(j)], sent := j + 1));
    LeadsOn(s1, c, d, Sched(R.Send(1)));
    s := BeginTwo(s1, d, i, j);
  }

  lemma BeginTwo(s1: Sys, d: Sys, i: nat, j: nat) returns (s: Sys)
    requires Leads(s1, d) && SameFiles(s1, d) && d.calls == NO_CALLS && d.round.jobs == s1.round.jobs
    requires !d.round.cancelled
    requires i < |d.round.jobs| && j < |d.round.jobs|
    requires d.round.seats == R.ALL_FREE[0 := R.Received(i)][1 := R.Received(j)]
    ensures Leads(s1, s) && BothBegun(s1, s, i, j)
  {
    hide Leads;
    NobodyRetries(d.round.jobs, d.round.seats);
    var e := d.(round := d.round.(seats := d.round.seats[0 := R.Running(i)], begun := d.round.begun + [i]),
                calls := d.calls[0 := Entered]);
    LeadsOn(s1, d, e, Sched(R.Begin(0)));
    OneRetries(e.round.jobs, e.round.seats);
    s := e.(round := e.round.(seats := e.round.seats[1 := R.Running(j)], begun := e.round.begun + [j]),
            calls := e.calls[1 := Entered]);
    LeadsOn(s1, e, s, Sched(R.Begin(1)));
  }

  /** Both read the same state, both reserve, and both ask. */
  lemma BothAsk(s1: Sys, s: Sys, i: nat, j: nat) returns (s': Sys)
    requires Leads(s1, s) && BothBegun(s1, s, i, j) && s.round.jobs[i].target.id == s.round.jobs[j].target.id
    requires var id := s.round.jobs[i].target.id; Contents(s.files, id).Readable? && StateOf(s.files, id).next <= s.now
    ensures Leads(s1, s') && !OneAtATime(s')
    ensures var id := s.round.jobs[i].target.id;
            LogOf(s'.log, id) == LogOf(s.log, id) + [Reserved(s.now), Reserved(s.now), Queried(s.now), Queried(s.now)]
  {
    hide Leads, Effect;
    var id := s.round.jobs[i].target.id;
    var state := StateOf(s.files, id);
    var a := s.(calls := s.calls[0 := HasRead(state, s.now)]);
    LeadsOn(s1, s, a, Read(0, s.now));
    var b := a.(calls := a.calls[1 := HasRead(state, s.now)]);
    LeadsOn(s1, a, b, Read(1, s.now));
    var c := AskNow(s1, b, 0, Begin(Job(b, 0), state, s.now));
    var d := AskNow(s1, c, 1, Begin(Job(c, 1), state, s.now));
    var e := AskNow(s1, d, 0, Launch);
    s' := AskNow(s1, e, 1, Launch);
    assert LogOf(s'.log, id) == LogOf(s.log, id) + [Reserved(s.now), Reserved(s.now), Queried(s.now), Queried(s.now)];
    assert Works(s', 0) && Works(s', 1) && Job(s', 0).id == Job(s', 1).id;
  }

  /** A reservation or a launch, as a step. */
  lemma AskNow(s1: Sys, s: Sys, w: nat, m: Move) returns (s': Sys)
    requires Leads(s1, s) && Works(s, w) && CanMove(PhaseOf(s.calls[w]), m) && (m.Begin? || m.Launch?)
    requires m.Begin? ==> s.calls[w] == HasRead(m.previous, m.stamp) && m.target == Job(s, w)
    ensures Leads(s1, s') && s'.now == s.now && s'.host == s.host && s'.round == s.round
    ensures |s'.calls| == |s.calls| && (forall v | 0 <= v < |s.calls| && v != w :: s'.calls[v] == s.calls[v])
    ensures s'.calls[w].Asking? && (m.Begin? ==> s'.calls[w].phase.Waiting?)
    ensures LogOf(s'.log, Job(s, w).id) ==
            LogOf(s.log, Job(s, w).id) + [if m.Begin? then Reserved(m.stamp) else Queried(s.now)]
  {
    hide Leads, Effect, AfterMove, LogOf, R.Next;
    s' := AfterMove(s, w, m);
    MoveEffect(s, w, m, Job(s, w).id);
    MoveRest(s, w, m);
    AskEffect(s.host, s.now, StateOf(s.files, Job(s, w).id), PhaseOf(s.calls[w]), m);
    LeadsOn(s1, s, s', Query(w, m));
  }

  lemma MoveRest(s: Sys, w: nat, m: Move)
    requires Works(s, w) && CanMove(PhaseOf(s.calls[w]), m)
    ensures var s' := AfterMove(s, w, m);
            && s'.now == s.now && s'.host == s.host && s'.round == s.round
            && |s'.calls| == |s.calls| && (s'.calls[w].Off? || s'.calls[w] == Asking(PhaseOf(s'.calls[w])))
            && forall v | 0 <= v < |s.calls| && v != w :: s'.calls[v] == s.calls[v]
  {
    hide Effect, Tagged, CanMove, Writes, LogOf;
  }

  lemma AskEffect(host: string, now: Time, file: GuestState, phase: Phase, m: Move)
    requires CanMove(phase, m) && (m.Begin? || m.Launch?)
    ensures var effect := Effect(host, now, file, phase, m);
            && (if m.Begin? then effect.1.Waiting? else effect.1.Looking?)
            && effect.2 == [if m.Begin? then Reserved(m.stamp) else Queried(now)]
  {}

  lemma AskedTwice(before: nat, since: Time, log: seq<Event>, now: Time)
    ensures !Paced(before, since, log + [Reserved(now), Reserved(now), Queried(now), Queried(now)])
  {
    var all := log + [Reserved(now), Reserved(now), Queried(now), Queried(now)];
    assert all[|log| + 3].Queried? && !all[|log| + 2].Reserved?;
  }

  /** A target that was due stays due until the end of the scan: a later reset only brings its time forward. */
  lemma {:induction false} DueStays(files: map<int, File>, host: string, targets: seq<Target>, now: Time, i: nat)
    requires i < |targets| && DueAt(files, host, targets, now, i)
    ensures var file := Contents(Swept(files, host, targets), targets[i].id); file.Readable? && file.state.next <= now
  {
    var n: nat := |targets| - 1;
    if i < n {
      PrefixFile(files, host, targets, n, i);
      DueStays(files, host, targets[..n], now, i);
    } else {
      assert targets[..i + 1] == targets;
    }
  }

  lemma JobIsDue(files: map<int, File>, host: string, targets: seq<Target>, now: Time, i: nat)
    requires i < |Sort(Before, DueIn(files, host, targets, now))|
    ensures var id := Sort(Before, DueIn(files, host, targets, now))[i].target.id;
            var file := Contents(Swept(files, host, targets), id); file.Readable? && file.state.next <= now
  {
    hide Sort, DueIn, Swept;
    var due := DueIn(files, host, targets, now);
    SortMembers(Before, due);
    var c := Sort(Before, due)[i];
    assert c in multiset(Sort(Before, due));
    var p := CandidateIsDue(files, host, targets, now, c);
    DueStays(files, host, targets, now, p);
  }

  /** A round with a VM twice among its due targets can ask that guest from two workers at once, against the
      pacing. */
  lemma TwiceBreaks(s1: Sys, start: map<int, File>, i: nat, j: nat) returns (s': Sys)
    requires s1.calls == NO_CALLS && s1.round == R.Opened(s1.round.jobs) && i < j < |s1.round.jobs|
    requires s1.round.jobs[i].target.id == s1.round.jobs[j].target.id
    requires var id := s1.round.jobs[i].target.id;
             Contents(s1.files, id).Readable? && StateOf(s1.files, id).next <= s1.now
    ensures Leads(s1, s') && !OneAtATime(s') && !AllPaced(s', start)
  {
    hide Leads, Paced, OneAtATime;
    var s := BothBegin(s1, i, j);
    s' := BothAsk(s1, s, i, j);
    var id := s1.round.jobs[i].target.id;
    AskedTwice(BeforeOf(start, id), SinceOf(start, id), LogOf(s.log, id), s.now);
  }

  /** After any run so far, a round is paced, whatever its workers do, exactly if no two of its due targets are
      the same VM. Distinct targets suffice. */
  lemma RoundIsPacedExactly(ss: seq<Sys>, steps: seq<Step>, targets: seq<Target>, stamp: Time)
    requires Run(ss, steps) && Separate(ss, steps) && Over(ss[|steps|].round) && stamp <= ss[|steps|].now
    ensures var s := ss[|steps|];
            NoTwoDue(s.files, s.host, targets, stamp) <==>
            forall s' | Leads(AfterScan(s, targets, stamp, |targets|), s') ::
              OneAtATime(s') && AllPaced(s', ss[0].files)
    ensures DistinctTargets(targets) ==> NoTwoDue(ss[|steps|].files, ss[|steps|].host, targets, stamp)
  {
    hide Leads, OneAtATime, AllPaced, SysInv, DueIn, Sort, Swept, Resets, NoTwoDue;
    var s, start := ss[|steps|], ss[0].files;
    var s1 := AfterScan(s, targets, stamp, |targets|);
    RunKeeps(ss, steps, |steps|);
    assert Next(s, s1, Scan(targets, stamp, |targets|));
    DistinctExactly(s.files, s.host, targets, stamp);
    if DistinctTargets(targets) { DistinctTargetsSuffice(s.files, s.host, targets, stamp); }
    if NoTwoDue(s.files, s.host, targets, stamp) {
      NextKeeps(s, s1, start, Scan(targets, stamp, |targets|));
      forall s' | Leads(s1, s') ensures OneAtATime(s') && AllPaced(s', start) {
        LeadsKeeps(s1, s', start);
        InvPaces(s', start);
      }
    } else {
      var s' := TwoDueBreak(s, start, targets, stamp);
    }
  }

  lemma TwoDueBreak(s: Sys, start: map<int, File>, targets: seq<Target>, stamp: Time) returns (s': Sys)
    requires SysInv(s, start) && Over(s.round) && stamp <= s.now && !NoTwoDue(s.files, s.host, targets, stamp)
    ensures Leads(AfterScan(s, targets, stamp, |targets|), s') && !OneAtATime(s') && !AllPaced(s', start)
  {
    hide Leads, OneAtATime, AllPaced, DueIn, Sort, Swept, Resets, NoTwoDue;
    var s1 := AfterScan(s, targets, stamp, |targets|);
    NobodyCalls(s);
    assert s1.calls == NO_CALLS;
    DistinctExactly(s.files, s.host, targets, stamp);
    var i: nat, j: nat :| i < j < |s1.round.jobs| && s1.round.jobs[i].target.id == s1.round.jobs[j].target.id;
    assert targets[..|targets|] == targets;
    JobIsDue(s.files, s.host, targets, stamp, i);
    s' := TwiceBreaks(s1, start, i, j);
  }

  // ---------- the order of a round ----------

  /** The candidates of every round are sorted, wherever a run stands. */
  lemma {:induction false} JobsAreSorted(ss: seq<Sys>, steps: seq<Step>, k: nat)
    requires Run(ss, steps) && k < |ss|
    ensures Sorted(Before, ss[k].round.jobs)
  {
    hide Sort, DueIn, Swept, Resets, Effect;
    if k > 0 {
      JobsAreSorted(ss, steps, k - 1);
      assert Next(ss[k - 1], ss[k], steps[k - 1]);
      if steps[k - 1].Scan? {
        BeforeOrders();
        SortIsStable(Before, DueIn(ss[k - 1].files, ss[k - 1].host, steps[k - 1].targets, steps[k - 1].stamp));
      }
    }
  }

  lemma SendingStep(s: Sys, s': Sys, step: Step)
    requires Next(s, s', step) && !step.Scan? && !step.Crash?
    ensures s'.round.jobs == s.round.jobs && s'.round.sent >= s.round.sent
    ensures step.Sched? && step.step.Send? ==> s.round.sent < |s.round.jobs| && s'.round.sent == s.round.sent + 1
  {
    hide Effect;
  }

  /** Nothing begins or ends the round in between. */
  predicate OneRound(steps: seq<Step>, k: nat, m: nat) {
    forall i | k <= i < m && i < |steps| :: !steps[i].Scan? && !steps[i].Crash?
  }

  lemma {:induction false} SendingGrows(ss: seq<Sys>, steps: seq<Step>, k: nat, n: nat, m: nat)
    requires Path(ss, steps) && k <= n <= m < |steps| && OneRound(steps, k, m)
    ensures ss[n].round.jobs == ss[k].round.jobs && ss[n].round.sent >= ss[k].round.sent
    decreases n
  {
    hide Next;
    if k < n {
      SendingGrows(ss, steps, k, n - 1, m);
      SendingStep(ss[n - 1], ss[n], steps[n - 1]);
    }
  }

  /** Within one round workers get different candidates, and get them by priority and due time. */
  lemma SentInOrder(ss: seq<Sys>, steps: seq<Step>, k: nat, m: nat)
    requires Run(ss, steps) && k < m < |steps| && OneRound(steps, k, m)
    requires steps[k].Sched? && steps[k].step.Send? && steps[m].Sched? && steps[m].step.Send?
    ensures var i, j := ss[k].round.sent, ss[m].round.sent;
            i < j < |ss[m].round.jobs| && ss[m].round.jobs == ss[k].round.jobs
            && var a, b := ss[m].round.jobs[i], ss[m].round.jobs[j];
               a.priority < b.priority || (a.priority == b.priority && a.next <= b.next)
  {
    JobsAreSorted(ss, steps, m);
    SendingStep(ss[k], ss[k + 1], steps[k]);
    SendingGrows(ss, steps, k + 1, m, m);
    SendingStep(ss[m], ss[m + 1], steps[m]);
  }

  // ---------- a VM that is listed twice ----------

  const SEVEN := Target(7, 1, "1")

  /** VM 7 is listed twice and nothing is known about its guest yet: both candidates are due, and the round can
      ask the guest twice at once. */
  lemma SevenTwice(now: Time)
    ensures var s := Sys(now, "pve", map[], NO_ROUND, NO_CALLS, []);
            && !NoTwoDue(s.files, s.host, [SEVEN, SEVEN], now)
            && exists s' :: Leads(AfterScan(s, [SEVEN, SEVEN], now, 2), s') && !OneAtATime(s') && !AllPaced(s', s.files)
  {
    var s := Sys(now, "pve", map[], NO_ROUND, NO_CALLS, []);
    SevenIsDue(now);
    StartKeeps(s);
    var s' := TwoDueBreak(s, s.files, [SEVEN, SEVEN], now);
  }

  lemma SevenIsDue(now: Time)
    ensures DueAt(map[], "pve", [SEVEN, SEVEN], now, 0) && DueAt(map[], "pve", [SEVEN, SEVEN], now, 1)
  {
    var ts := [SEVEN, SEVEN];
    assert ts[..1] == [SEVEN] && ts[..2] == ts && [SEVEN][..0] == [];
    assert Swept(map[], "pve", []) == map[];
    assert Swept(map[], "pve", [SEVEN]) == map[7 := Readable(Reset("pve", SEVEN))];
    assert Swept(map[], "pve", ts) == map[7 := Readable(Reset("pve", SEVEN))];
  }
}
