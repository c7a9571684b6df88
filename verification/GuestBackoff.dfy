/** The persisted backoff of guest-IP collection (internal/pve/guest_cache.go), for one VM: a reservation
    is written before every query, so that the delays survive a crash between any two writes. */
module GuestBackoff {
  import opened Common

  const CANCEL_DELAY: nat := 3 * SECOND

  datatype GuestState = GuestState(host: string, next: Time, failures: int, start: nat, agent: string,
                                   collectedAt: Time, ips: seq<string>)

  /** What a missing state file reads as. */
  const NO_STATE := GuestState("", 0, 0, 0, "", 0, [])

  datatype Target = Target(id: int, start: nat, agent: string)

  // ---------- the states that are written ----------

  predicate SameIdentity(state: GuestState, host: string, target: Target) {
    state.host == host && state.start == target.start && state.agent == target.agent
  }

  /** `collectGuests`, line 151: a restarted VM or changed agent does not inherit an old delay. */
  function Reset(host: string, target: Target): GuestState {
    NO_STATE.(host := host, start := target.start, agent := target.agent)
  }

  function Min(a: int, b: int): int { if a < b then a else b }

  function Max(a: int, b: int): int { if a > b then a else b }

  /** The delays by which `queryGuest` reserves: 1, 2, then 5 minutes. */
  function Delay(failures: int): nat {
    if failures <= 1 then MINUTE else if failures == 2 then 2 * MINUTE else 5 * MINUTE
  }

  /** `queryGuest`, lines 225-226. */
  function Reserve(state: GuestState, at: Time): GuestState {
    var failures := Min(Max(state.failures, 0) + 1, 3);
    state.(failures := failures, next := at + Delay(failures))
  }

  /** Lines 236-237: a stop is no evidence against the guest. */
  function Restore(previous: GuestState, at: Time): GuestState { previous.(next := at + CANCEL_DELAY) }

  /** Lines 242-244. */
  function Collected(state: GuestState, host: string, target: Target, ips: seq<string>, at: Time): GuestState {
    state.(host := host, start := target.start, agent := target.agent, ips := ips, collectedAt := at, failures := 0,
           next := at + MINUTE)
  }

  // ---------- the pacing policy, stated on the history alone ----------

  /** What happened to the file and the guest of this VM: reservations, restorations, successes and
      resets that reached the file, and queries that were launched. */
  datatype Event =
    | Reserved(at: Time)
    | Queried(at: Time)
    | Cancelled(at: Time)
    | Succeeded(at: Time, target: Target, ips: seq<string>)
    | Forgotten(target: Target)

  /** How many attempts in a row have failed, crashed ones included. A cancelled attempt does not count.
      `before` is the count that an older history left behind. */
  ghost function Streak(before: nat, log: seq<Event>): nat {
    if log == [] then before
    else
      var rest := Streak(before, log[..|log| - 1]);
      match log[|log| - 1]
      case Reserved(_) => rest + 1
      case Queried(_) => rest
      case Cancelled(_) => if rest == 0 then 0 else rest - 1
      case Succeeded(_, _, _) => 0
      case Forgotten(_) => 0
  }

  /** When the history allows the next query. */
  ghost function Earliest(before: nat, since: Time, log: seq<Event>): Time {
    if log == [] then since
    else
      match log[|log| - 1]
      case Reserved(at) => at + Delay(Streak(before, log))
      case Queried(_) => Earliest(before, since, log[..|log| - 1])
      case Cancelled(at) => at + CANCEL_DELAY
      case Succeeded(at, _, _) => at + MINUTE
      case Forgotten(_) => 0
  }

  /** Every query directly follows a reservation in the file, made no earlier than the history allowed. */
  ghost predicate Paced(before: nat, since: Time, log: seq<Event>) {
    forall j | 0 <= j < |log| && log[j].Queried? ::
      j > 0 && log[j - 1].Reserved? && log[j].at >= log[j - 1].at >= Earliest(before, since, log[..j - 1])
  }

  // ---------- one call of `queryGuest` ----------

  datatype Outcome = OuterStop | Failed | Answered(ips: seq<string>)

  /** How far a call has got: before its reservation or over, or in between. `previous` is the state it read. */
  datatype Phase =
    | Idle
    | Waiting(target: Target, previous: GuestState, state: GuestState)
    | Looking(target: Target, previous: GuestState, state: GuestState)
    | Returned(target: Target, previous: GuestState, state: GuestState, outcome: Outcome)

  /** What a call does: reserve, launch the lookup, get its outcome, and write that down. A `stamp` was read
      from the clock. */
  datatype Move =
    | Begin(target: Target, previous: GuestState, stamp: Time)
    | Launch
    | Return(outcome: Outcome)
    | Conclude(stamp: Time, wrote: bool)

  predicate CanMove(phase: Phase, m: Move) {
    match m
    case Begin(_, _, _) => phase.Idle?
    case Launch => phase.Waiting?
    case Return(_) => phase.Looking?
    case Conclude(_, _) => phase.Returned?
  }

  /** Whether the move replaces the file. A write that fails leaves the old one: states are renamed into place. */
  predicate Writes(phase: Phase, m: Move)
    requires CanMove(phase, m)
  {
    m.Begin? || (m.Conclude? && m.wrote && !phase.outcome.Failed?)
  }

  /** The file, the phase and the events after a move. */
  function Effect(host: string, now: Time, file: GuestState, phase: Phase, m: Move): (GuestState, Phase, seq<Event>)
    requires CanMove(phase, m)
  {
    match m
    case Begin(target, previous, stamp) =>
      (Reserve(previous, stamp), Waiting(target, previous, Reserve(previous, stamp)), [Reserved(stamp)])
    case Launch => (file, Looking(phase.target, phase.previous, phase.state), [Queried(now)])
    case Return(outcome) => (file, Returned(phase.target, phase.previous, phase.state, outcome), [])
    case Conclude(stamp, wrote) =>
      if !Writes(phase, m) then (file, Idle, [])
      else if phase.outcome.OuterStop? then (Restore(phase.previous, stamp), Idle, [Cancelled(stamp)])
      else (Collected(phase.state, host, phase.target, phase.outcome.ips, stamp), Idle,
            [Succeeded(stamp, phase.target, phase.outcome.ips)])
  }

  lemma UnwrittenStays(host: string, now: Time, file: GuestState, phase: Phase, m: Move)
    requires CanMove(phase, m) && !Writes(phase, m)
    ensures Effect(host, now, file, phase, m).0 == file
  {}

  // ---------- one VM under collection rounds and crashes ----------

  datatype Vm = Vm(now: Time, host: string, file: GuestState, phase: Phase, log: seq<Event>)

  /** Calls that end before they reserve, and resets that are not needed or cannot be written, change nothing
      and are no steps. */
  datatype Step =
    | Tick(later: Time)
    | Forget(target: Target)
    | Do(m: Move)
    | Crash

  ghost predicate Next(v: Vm, v': Vm, step: Step) {
    match step
    case Tick(later) => later >= v.now && v' == v.(now := later)
    case Forget(target) =>
      && v.phase.Idle? && !SameIdentity(v.file, v.host, target)
      && v' == v.(file := Reset(v.host, target), log := v.log + [Forgotten(target)])
    case Do(m) =>
      && CanMove(v.phase, m)
      && (m.Begin? ==> m.previous == v.file && v.file.next <= m.stamp <= v.now)
      && (m.Conclude? ==> m.stamp <= v.now)
      && var (file, phase, events) := Effect(v.host, v.now, v.file, v.phase, m);
         v' == v.(file := file, phase := phase, log := v.log + events)
    case Crash => v' == v.(phase := Idle)
  }

  // ---------- the file always says what the history says ----------

  /** The failure count as far as it matters: how long the next reservation is. */
  function Level(failures: int): int { Min(Max(failures, 0), 3) }

  ghost predicate TaskInv(v: Vm, before: nat) {
    match v.phase
    case Idle => true
    case Waiting(target, previous, state) => InFlight(v, before, previous, state) && v.log[|v.log| - 1].Reserved?
    case Looking(target, previous, state) => InFlight(v, before, previous, state)
    case Returned(target, previous, state, _) => InFlight(v, before, previous, state)
  }

  /** While a query is under way the file holds its reservation, and the state before it is remembered. */
  ghost predicate InFlight(v: Vm, before: nat, previous: GuestState, state: GuestState) {
    && v.file == state && v.log != []
    && Streak(before, v.log) > 0 && Level(previous.failures) == Level(Streak(before, v.log) - 1)
  }

  ghost predicate VmInv(v: Vm, before: nat, since: Time) {
    && v.file.next == Earliest(before, since, v.log)
    && Level(v.file.failures) == Level(Streak(before, v.log))
    && LogInv(v.now, before, since, v.log)
    && TaskInv(v, before)
  }

  lemma StreakGrows(before: nat, since: Time, log: seq<Event>, e: Event)
    ensures (log + [e])[..|log|] == log
    ensures Streak(before, log + [e]) == match e
                                         case Reserved(_) => Streak(before, log) + 1
                                         case Queried(_) => Streak(before, log)
                                         case Cancelled(_) => Max(Streak(before, log) - 1, 0)
                                         case Succeeded(_, _, _) => 0
                                         case Forgotten(_) => 0
    ensures Earliest(before, since, log + [e]) == match e
                                                  case Reserved(at) => at + Delay(Streak(before, log) + 1)
                                                  case Queried(_) => Earliest(before, since, log)
                                                  case Cancelled(at) => at + CANCEL_DELAY
                                                  case Succeeded(at, _, _) => at + MINUTE
                                                  case Forgotten(_) => 0
  {
    assert (log + [e])[..|log|] == log;
  }

  lemma PacedGrows(before: nat, since: Time, log: seq<Event>, e: Event)
    requires Paced(before, since, log)
    requires e.Queried? ==>
               log != [] && log[|log| - 1].Reserved?
               && e.at >= log[|log| - 1].at >= Earliest(before, since, log[..|log| - 1])
    ensures Paced(before, since, log + [e])
  {
    var log' := log + [e];
    forall j | 0 <= j < |log'| && log'[j].Queried?
      ensures j > 0 && log'[j - 1].Reserved? && log'[j].at >= log'[j - 1].at >= Earliest(before, since, log'[..j - 1])
    {
      assert log'[..j - 1] == log[..j - 1];
    }
  }

  /** What the history satisfies by itself. */
  ghost predicate LogInv(now: Time, before: nat, since: Time, log: seq<Event>) {
    && (forall j | 0 <= j < |log| && log[j].Reserved? ::
          log[j].at <= now && log[j].at >= Earliest(before, since, log[..j]))
    && Paced(before, since, log)
  }

  lemma LogGrows(now: Time, before: nat, since: Time, log: seq<Event>, e: Event)
    requires LogInv(now, before, since, log)
    requires e.Reserved? ==> e.at <= now && e.at >= Earliest(before, since, log)
    requires e.Queried? ==> log != [] && log[|log| - 1].Reserved? && e.at == now
    ensures LogInv(now, before, since, log + [e])
  {
    var log' := log + [e];
    PacedGrows(before, since, log, e);
    forall j | 0 <= j < |log'| && log'[j].Reserved?
      ensures log'[j].at <= now && log'[j].at >= Earliest(before, since, log'[..j])
    {
      assert log'[..j] == log[..j];
      if j == |log| { assert log[..j] == log; }
    }
  }

  lemma ForgetKeeps(v: Vm, v': Vm, step: Step, before: nat, since: Time)
    requires VmInv(v, before, since) && Next(v, v', step) && step.Forget?
    ensures VmInv(v', before, since)
  {
    hide Streak, Earliest, LogInv;
    StreakGrows(before, since, v.log, Forgotten(step.target));
    LogGrows(v.now, before, since, v.log, Forgotten(step.target));
  }

  lemma BeginKeeps(v: Vm, v': Vm, m: Move, before: nat, since: Time)
    requires VmInv(v, before, since) && Next(v, v', Do(m)) && m.Begin?
    ensures VmInv(v', before, since)
  {
    hide Streak, Earliest, LogInv;
    StreakGrows(before, since, v.log, Reserved(m.stamp));
    LogGrows(v.now, before, since, v.log, Reserved(m.stamp));
  }

  lemma LaunchKeeps(v: Vm, v': Vm, before: nat, since: Time)
    requires VmInv(v, before, since) && Next(v, v', Do(Launch))
    ensures VmInv(v', before, since)
  {
    hide Streak, Earliest, LogInv;
    StreakGrows(before, since, v.log, Queried(v.now));
    LogGrows(v.now, before, since, v.log, Queried(v.now));
  }

  lemma StopKeeps(v: Vm, v': Vm, m: Move, before: nat, since: Time)
    requires VmInv(v, before, since) && Next(v, v', Do(m)) && m.Conclude? && Writes(v.phase, m)
    requires v.phase.outcome.OuterStop?
    ensures VmInv(v', before, since)
  {
    hide Streak, Earliest, LogInv;
    StreakGrows(before, since, v.log, Cancelled(m.stamp));
    LogGrows(v.now, before, since, v.log, Cancelled(m.stamp));
  }

  lemma SuccessKeeps(v: Vm, v': Vm, m: Move, before: nat, since: Time)
    requires VmInv(v, before, since) && Next(v, v', Do(m)) && m.Conclude? && Writes(v.phase, m)
    requires v.phase.outcome.Answered?
    ensures VmInv(v', before, since)
  {
    hide Streak, Earliest, LogInv;
    StreakGrows(before, since, v.log, Succeeded(m.stamp, v.phase.target, v.phase.outcome.ips));
    LogGrows(v.now, before, since, v.log, Succeeded(m.stamp, v.phase.target, v.phase.outcome.ips));
  }

  lemma ConcludeKeeps(v: Vm, v': Vm, m: Move, before: nat, since: Time)
    requires VmInv(v, before, since) && Next(v, v', Do(m)) && m.Conclude?
    ensures VmInv(v', before, since)
  {
    hide Streak, Earliest, LogInv;
    if !Writes(v.phase, m) {
      assert v.log + [] == v.log;
    } else if v.phase.outcome.OuterStop? {
      StopKeeps(v, v', m, before, since);
    } else {
      SuccessKeeps(v, v', m, before, since);
    }
  }

  lemma StepKeeps(v: Vm, v': Vm, step: Step, before: nat, since: Time)
    requires VmInv(v, before, since) && Next(v, v', step)
    ensures VmInv(v', before, since)
  {
    match step
    case Forget(_) => ForgetKeeps(v, v', step, before, since);
    case Do(m) =>
      match m {
        case Begin(_, _, _) => BeginKeeps(v, v', m, before, since);
        case Launch => LaunchKeeps(v, v', before, since);
        case Return(_) => assert v.log + [] == v.log;
        case Conclude(_, _) => ConcludeKeeps(v, v', m, before, since);
      }
    case _ =>
  }

  // ---------- the file holds the last answer ----------

  /** Whose answer a state holds, and what it is. */
  datatype Answer = Answer(host: string, start: nat, agent: string, at: Time, ips: seq<string>)

  function AnswerIn(state: GuestState): Answer {
    Answer(state.host, state.start, state.agent, state.collectedAt, state.ips)
  }

  /** The last answer of the history, or none since the last reset; `first` is what the file began with. */
  ghost function LastAnswer(first: Answer, host: string, log: seq<Event>): Answer {
    if log == [] then first
    else match log[|log| - 1]
         case Succeeded(at, target, ips) => Answer(host, target.start, target.agent, at, ips)
         case Forgotten(target) => Answer(host, target.start, target.agent, 0, [])
         case _ => LastAnswer(first, host, log[..|log| - 1])
  }

  ghost predicate AnswerInv(v: Vm, first: Answer) {
    && AnswerIn(v.file) == LastAnswer(first, v.host, v.log)
    && (!v.phase.Idle? ==> AnswerIn(v.phase.previous) == AnswerIn(v.phase.state) == LastAnswer(first, v.host, v.log))
  }

  lemma AnswerGrows(first: Answer, host: string, log: seq<Event>, e: Event)
    ensures LastAnswer(first, host, log + [e]) == match e
                                                  case Succeeded(at, target, ips) =>
                                                    Answer(host, target.start, target.agent, at, ips)
                                                  case Forgotten(target) =>
                                                    Answer(host, target.start, target.agent, 0, [])
                                                  case _ => LastAnswer(first, host, log)
  {
    assert (log + [e])[..|log|] == log;
  }

  lemma MoveKeepsAnswer(v: Vm, v': Vm, m: Move, first: Answer)
    requires AnswerInv(v, first) && Next(v, v', Do(m))
    ensures AnswerInv(v', first)
  {
    hide LastAnswer, Delay;
    match m
    case Begin(_, _, stamp) => AnswerGrows(first, v.host, v.log, Reserved(stamp));
    case Launch => AnswerGrows(first, v.host, v.log, Queried(v.now));
    case Return(_) => assert v.log + [] == v.log;
    case Conclude(stamp, _) =>
      if !Writes(v.phase, m) {
        assert v.log + [] == v.log;
      } else if v.phase.outcome.OuterStop? {
        AnswerGrows(first, v.host, v.log, Cancelled(stamp));
      } else {
        AnswerGrows(first, v.host, v.log, Succeeded(stamp, v.phase.target, v.phase.outcome.ips));
      }
  }

  lemma StepKeepsAnswer(v: Vm, v': Vm, step: Step, first: Answer)
    requires AnswerInv(v, first) && Next(v, v', step)
    ensures AnswerInv(v', first)
  {
    match step
    case Forget(target) => AnswerGrows(first, v.host, v.log, Forgotten(target));
    case Do(m) => MoveKeepsAnswer(v, v', m, first);
    case _ =>
  }

  /** Everything that the file says is what the history says. */
  ghost predicate Books(v: Vm, before: nat, since: Time, first: Answer) {
    VmInv(v, before, since) && AnswerInv(v, first)
  }

  lemma StepKeepsBooks(v: Vm, v': Vm, step: Step, before: nat, since: Time, first: Answer)
    requires Books(v, before, since, first) && Next(v, v', step)
    ensures Books(v', before, since, first)
  {
    hide VmInv, AnswerInv, Next;
    StepKeeps(v, v', step, before, since);
    StepKeepsAnswer(v, v', step, first);
  }

  // ---------- runs ----------

  ghost predicate Run(vs: seq<Vm>, steps: seq<Step>) {
    && |vs| == |steps| + 1
    && vs[0].phase.Idle? && vs[0].log == []
    && forall k | 0 <= k < |steps| :: Next(vs[k], vs[k + 1], steps[k])
  }

  lemma {:induction false} RunKeeps(vs: seq<Vm>, steps: seq<Step>, k: nat)
    requires Run(vs, steps) && k < |vs|
    ensures VmInv(vs[k], Max(vs[0].file.failures, 0), vs[0].file.next)
  {
    if k > 0 {
      RunKeeps(vs, steps, k - 1);
      StepKeeps(vs[k - 1], vs[k], steps[k - 1], Max(vs[0].file.failures, 0), vs[0].file.next);
    }
  }

  /** Over every run, whatever writes fail and wherever it crashes: no query without a reservation in the
      file, and none earlier than the history of this VM allows; the file holds the failure count and the
      time that the history calls for. The file may start with anything. */
  lemma QueriesArePaced(vs: seq<Vm>, steps: seq<Step>, k: nat)
    requires Run(vs, steps) && k < |vs|
    ensures var before, since := Max(vs[0].file.failures, 0), vs[0].file.next;
            && Paced(before, since, vs[k].log)
            && Level(vs[k].file.failures) == Level(Streak(before, vs[k].log))
            && vs[k].file.next == Earliest(before, since, vs[k].log)
    ensures vs[k].phase.Looking? ==> vs[k].file == vs[k].phase.state
  {
    RunKeeps(vs, steps, k);
  }

  lemma EarliestOfLast(before: nat, since: Time, log: seq<Event>)
    requires log != [] && log[|log| - 1].Reserved?
    ensures Earliest(before, since, log) == log[|log| - 1].at + Delay(Streak(before, log))
  {}

  lemma {:induction false} StreakCounts(before: nat, log: seq<Event>, mark: nat, n: nat)
    requires mark < |log| && (log[mark].Succeeded? || log[mark].Forgotten?)
    requires forall j | mark < j < |log| :: log[j].Reserved? || log[j].Queried?
    requires n == |set j | mark < j < |log| && log[j].Reserved?|
    ensures Streak(before, log) == n
    decreases |log|
  {
    var last := |log| - 1;
    var seen := set j | mark < j < |log| && log[j].Reserved?;
    if mark == last {
      assert seen == {};
    } else {
      var rest := log[..last];
      var seen' := set j | mark < j < |rest| && rest[j].Reserved?;
      StreakCounts(before, rest, mark, |seen'|);
      OneMoreSeen(log, rest, mark, seen, seen');
    }
  }

  lemma OneMoreSeen(log: seq<Event>, rest: seq<Event>, mark: nat, seen: set<int>, seen': set<int>)
    requires mark < |log| - 1 && rest == log[..|log| - 1]
    requires seen == set j | mark < j < |log| && log[j].Reserved?
    requires seen' == set j | mark < j < |rest| && rest[j].Reserved?
    ensures |seen| == |seen'| + (if log[|log| - 1].Reserved? then 1 else 0)
  {
    if log[|log| - 1].Reserved? { assert seen == seen' + {|log| - 1}; } else { assert seen == seen'; }
  }

  /** After a success or a reset, the n-th attempt that is neither answered nor cancelled holds the next
      query back for 1, 2, 5, 5, ... minutes from its reservation. */
  lemma ConsecutiveFailures(before: nat, since: Time, log: seq<Event>, mark: nat, n: nat)
    requires mark < |log| && (log[mark].Succeeded? || log[mark].Forgotten?)
    requires forall j | mark < j < |log| :: log[j].Reserved? || log[j].Queried?
    requires n == |set j | mark < j < |log| && log[j].Reserved?|
    ensures Streak(before, log) == n
    ensures log[|log| - 1].Reserved? ==>
              Earliest(before, since, log) == log[|log| - 1].at
              + (if n == 1 then MINUTE else if n == 2 then 2 * MINUTE else 5 * MINUTE)
  {
    hide Streak, Earliest;
    StreakCounts(before, log, mark, n);
    if log[|log| - 1].Reserved? {
      EarliestOfLast(before, since, log);
      SubsetCard({|log| - 1}, set j | mark < j < |log| && log[j].Reserved?);
    }
  }

  lemma {:induction false} RemembersPrevious(vs: seq<Vm>, steps: seq<Step>, k: nat, m: nat)
    requires Run(vs, steps) && k < m < |vs| && steps[k].Do? && steps[k].m.Begin?
    requires forall i | k < i <= m :: !vs[i].phase.Idle?
    ensures vs[m].phase.previous == vs[k].file
  {
    assert Next(vs[m - 1], vs[m], steps[m - 1]);
    if k + 1 < m { RemembersPrevious(vs, steps, k, m - 1); }
  }

  /** A stop gives back the file as it was before the attempt, with its failure count, and holds the next
      attempt back for three seconds; the history counts the attempt as if it had not been made. */
  lemma CancellationRestores(vs: seq<Vm>, steps: seq<Step>, k: nat, m: nat)
    requires Run(vs, steps) && k < m < |steps| && steps[k].Do? && steps[k].m.Begin?
    requires forall i | k < i <= m :: !vs[i].phase.Idle?
    requires steps[m].Do? && steps[m].m.Conclude? && steps[m].m.wrote && vs[m].phase.Returned?
    requires vs[m].phase.outcome.OuterStop?
    ensures vs[m + 1].file == vs[k].file.(next := steps[m].m.stamp + 3 * SECOND)
    ensures var before := Max(vs[0].file.failures, 0);
            Level(Streak(before, vs[m + 1].log)) == Level(vs[k].file.failures) == Level(Streak(before, vs[k].log))
  {
    assert Next(vs[m], vs[m + 1], steps[m]);
    RemembersPrevious(vs, steps, k, m);
    RunKeeps(vs, steps, k);
    RunKeeps(vs, steps, m + 1);
  }
}
