/** The sampling scheduler over whole runs (internal/pve/cache.go): eight workers, inventory refreshes
    and metadata refreshes interleaved in any order. */
module CollectorSystem {
  import opened Common
  import opened Virt
  import opened Collector

  /** What a worker holds between `next` and the section that stores its sample. `started` was read
      from the clock before `next` was called. */
  datatype Job = Job(o: nat, config: Config, previous: Process, started: Time)

  datatype Event =
    | SampleStarted(o: nat, at: Time)
    | SampleKept(o: nat, vm: VM, process: Process)

  /** `jobs` holds the workers that are sampling; the others are in or before `next`, or asleep. */
  datatype Sys = Sys(now: Time, table: Table, jobs: map<nat, Job>, shutdown: bool, log: seq<Event>)

  datatype Step =
    | Tick(later: Time)
    | Shutdown
    | Refresh(configs: seq<Config>)
    | RefreshFailed(err: string)
    | Metadata(capacities: map<int, int>)
    | PickOne(w: nat, started: Time, p: Pick)
    | Finish(w: nat, vm: VM, process: Process)

  function Id(j: Job): int { j.config.vm.id }

  function Hand(t: Table, index: nat, started: Time): Job
    requires Linked(t) && index < |t.order|
  {
    var id := t.order[index];
    assert id in t.entries;
    Job(t.entries[id], t.heap[t.entries[id]].config, t.heap[t.entries[id]].previous, started)
  }

  ghost predicate Next(s: Sys, s': Sys, step: Step) {
    Linked(s.table) &&
    match step
    case Tick(later) => later >= s.now && s' == s.(now := later)
    case Shutdown => s' == s.(shutdown := true)
    case Refresh(configs) => s' == s.(table := Refreshed(s.table, configs, s.now))
    case RefreshFailed(err) => s' == s.(table := s.table.(inventoryErr := Some(err)))
    case Metadata(capacities) => s' == s.(table := s.table.(capacities := capacities, metadataAt := s.now))
    case PickOne(w, started, p) =>
      && w < WORKERS && w !in s.jobs && started <= s.now
      && Collector.Next(s.table, started, p, s'.table)
      && s' == if p.Nothing? then s.(table := s'.table)
               else s.(table := s'.table, jobs := s.jobs[w := Hand(s.table, p.index, started)],
                       log := s.log + [SampleStarted(Hand(s.table, p.index, started).o, started)])
    case Finish(w, vm, process) =>
      && w in s.jobs && s.jobs[w].o < |s.table.heap|
      && var j := s.jobs[w];
         s' == s.(table := Finished(s.table, j.o, Id(j), j.started, vm, process, s.shutdown),
                  jobs := s.jobs - {w},
                  log := if Listed(s.table, j.o) && !s.shutdown then s.log + [SampleKept(j.o, vm, process)] else s.log)
  }

  /** This very observation is in the inventory. */
  predicate Listed(t: Table, o: nat)
    requires o < |t.heap|
  {
    t.heap[o].config.vm.id in t.entries && t.entries[t.heap[o].config.vm.id] == o
  }

  // ---------- the invariant ----------

  ghost function Sampled(jobs: map<nat, Job>): set<int> { set w | w in jobs :: Id(jobs[w]) }

  ghost predicate DistinctIds(jobs: map<nat, Job>) {
    forall v, w | v in jobs && w in jobs && Id(jobs[v]) == Id(jobs[w]) :: v == w
  }

  ghost predicate Placed(jobs: map<nat, Job>, heap: seq<Observation>) {
    forall w | w in jobs :: w < WORKERS && jobs[w].o < |heap| && heap[jobs[w].o].config.vm.id == Id(jobs[w])
  }

  /** `active` holds exactly the ids that workers are sampling, and no two workers share an id. */
  ghost predicate Exclusive(s: Sys) {
    Placed(s.jobs, s.table.heap) && DistinctIds(s.jobs) && s.table.active == Sampled(s.jobs)
  }

  ghost predicate Held(s: Sys, e: Event)
    requires e.SampleStarted?
  {
    exists w :: w in s.jobs && s.jobs[w].o == e.o && e.at <= s.jobs[w].started
  }

  /** A sample that started has been answered for: its worker is still at it, its observation has left
      the inventory for good, or the next sample is due three seconds after it at the earliest. */
  ghost predicate Accounted(s: Sys, e: Event)
    requires e.SampleStarted?
  {
    e.o < |s.table.heap| &&
    (Held(s, e) || !Listed(s.table, e.o) || e.at + SAMPLE_INTERVAL <= s.table.heap[e.o].next)
  }

  /** Samples of one observation start at least three seconds apart. */
  ghost predicate Spaced(log: seq<Event>) {
    forall i, j | 0 <= i < j < |log| && log[i].SampleStarted? && log[j].SampleStarted? && log[i].o == log[j].o ::
      log[j].at >= log[i].at + 3 * SECOND
  }

  ghost predicate TimeInv(s: Sys) {
    !s.shutdown ==>
      && (forall e | e in s.log && e.SampleStarted? :: Accounted(s, e))
      && (forall w, e | w in s.jobs && e in s.log && e.SampleStarted? && e.o == s.jobs[w].o ::
            e.at <= s.jobs[w].started)
      && Spaced(s.log)
  }

  predicate Virgin(ob: Observation, config: Config) { ob.(config := config) == Unsampled(config) }

  /** What an observation holds was sampled for it, or it was never sampled. */
  ghost predicate Own(s: Sys, o: nat)
    requires o < |s.table.heap|
  {
    || (exists config :: Virgin(s.table.heap[o], config))
    || SampleKept(o, s.table.heap[o].vm, s.table.heap[o].previous) in s.log
  }

  /** Every sample kept by an observation was started by a worker that had been handed that observation. */
  ghost predicate Begun(log: seq<Event>) {
    forall j | 0 <= j < |log| && log[j].SampleKept? ::
      exists i :: 0 <= i < j && log[i].SampleStarted? && log[i].o == log[j].o
  }

  ghost predicate OwnInv(s: Sys) {
    && (forall o: nat | o < |s.table.heap| :: Own(s, o))
    && (forall w | w in s.jobs :: exists i :: 0 <= i < |s.log| && s.log[i].SampleStarted? && s.log[i].o == s.jobs[w].o)
    && Begun(s.log)
  }

  ghost predicate SysInv(s: Sys) {
    Linked(s.table) && Exclusive(s) && TimeInv(s) && OwnInv(s)
  }

  // ---------- each step keeps the invariant ----------

  lemma StepKeepsLinked(s: Sys, s': Sys, step: Step)
    requires Next(s, s', step)
    ensures Linked(s'.table)
  {
    if step.Refresh? { RefreshedLinked(s.table, step.configs, s.now); }
  }

  lemma RefreshKeepsExclusive(s: Sys, configs: seq<Config>)
    requires Linked(s.table) && Exclusive(s)
    ensures Exclusive(s.(table := Refreshed(s.table, configs, s.now)))
  {
    RefreshedLinked(s.table, configs, s.now);
    hide Refreshed;
    var s' := s.(table := Refreshed(s.table, configs, s.now));
    RefreshedRest(s.table, configs, s.now);
    assert Placed(s'.jobs, s'.table.heap);
  }

  lemma RefreshedRest(t: Table, configs: seq<Config>, now: Time)
    ensures Refreshed(t, configs, now).active == t.active
    ensures Refreshed(t, configs, now).changed == t.changed + 1
  {}

  lemma HandIsIdle(s: Sys, started: Time, index: nat)
    requires Linked(s.table) && Exclusive(s) && index < |s.table.order| && Ready(s.table, started, index)
    ensures var j := Hand(s.table, index, started);
            && Id(j) == s.table.order[index] && Id(j) !in s.table.active && j.o < |s.table.heap|
            && s.table.heap[j.o].config.vm.id == Id(j)
            && Listed(s.table, j.o) && s.table.heap[j.o].next <= started
            && forall w | w in s.jobs :: Id(s.jobs[w]) != Id(j) && s.jobs[w].o != j.o
  {
    var id := s.table.order[index];
    assert id in s.table.entries;
    forall w | w in s.jobs ensures Id(s.jobs[w]) in Sampled(s.jobs) {}
  }

  lemma JobAdded(jobs: map<nat, Job>, w: nat, j: Job)
    requires DistinctIds(jobs) && w !in jobs && Id(j) !in Sampled(jobs)
    ensures DistinctIds(jobs[w := j]) && Sampled(jobs[w := j]) == Sampled(jobs) + {Id(j)}
  {
    forall v | v in jobs ensures Id(jobs[v]) in Sampled(jobs) && jobs[w := j][v] == jobs[v] {}
    assert jobs[w := j][w] == j;
  }

  lemma JobRemoved(jobs: map<nat, Job>, w: nat)
    requires DistinctIds(jobs) && w in jobs
    ensures DistinctIds(jobs - {w}) && Sampled(jobs - {w}) == Sampled(jobs) - {Id(jobs[w])}
  {
    forall id | id in Sampled(jobs) && id != Id(jobs[w]) ensures id in Sampled(jobs - {w}) {
      var v :| v in jobs && Id(jobs[v]) == id;
      assert v in jobs - {w};
    }
  }

  lemma PickKeepsExclusive(s: Sys, s': Sys, step: Step)
    requires Exclusive(s) && Next(s, s', step) && step.PickOne?
    ensures Exclusive(s')
  {
    if step.p.Handed? {
      HandIsIdle(s, step.started, step.p.index);
      JobAdded(s.jobs, step.w, Hand(s.table, step.p.index, step.started));
    }
  }

  lemma FinishKeepsExclusive(s: Sys, s': Sys, step: Step)
    requires Exclusive(s) && Next(s, s', step) && step.Finish?
    ensures Exclusive(s')
  {
    JobRemoved(s.jobs, step.w);
  }

  lemma StepKeepsExclusive(s: Sys, s': Sys, step: Step)
    requires Exclusive(s) && Next(s, s', step)
    ensures Exclusive(s')
  {
    match step
    case Refresh(configs) => RefreshKeepsExclusive(s, configs);
    case PickOne(_, _, _) => PickKeepsExclusive(s, s', step);
    case Finish(_, _, _) => FinishKeepsExclusive(s, s', step);
    case _ =>
  }

  /** An observation that has left the inventory does not come back, and none loses its due time. */
  lemma RefreshKeepsAccounted(s: Sys, configs: seq<Config>, e: Event)
    requires Linked(s.table) && e.SampleStarted? && Accounted(s, e)
    ensures Accounted(s.(table := Refreshed(s.table, configs, s.now)), e)
  {
    RefreshedLinked(s.table, configs, s.now);
    hide Refreshed;
    var s' := s.(table := Refreshed(s.table, configs, s.now));
    assert s'.table.heap[e.o].next == s.table.heap[e.o].next;
    if w :| w in s.jobs && s.jobs[w].o == e.o && e.at <= s.jobs[w].started {
      assert w in s'.jobs && s'.jobs[w].o == e.o;
    }
  }

  /** An idle listed VM that is due was last sampled three seconds ago. */
  lemma PickIsLate(s: Sys, started: Time, index: nat)
    requires Linked(s.table) && Exclusive(s) && TimeInv(s) && !s.shutdown
    requires index < |s.table.order| && Ready(s.table, started, index)
    ensures forall e | e in s.log && e.SampleStarted? && e.o == Hand(s.table, index, started).o ::
              e.at + SAMPLE_INTERVAL <= started
  {
    HandIsIdle(s, started, index);
    forall e | e in s.log && e.SampleStarted? && e.o == Hand(s.table, index, started).o
      ensures e.at + SAMPLE_INTERVAL <= started
    {
      assert Accounted(s, e);
    }
  }

  lemma SpacedGrows(log: seq<Event>, o: nat, at: Time)
    requires Spaced(log)
    requires forall e | e in log && e.SampleStarted? && e.o == o :: e.at + SAMPLE_INTERVAL <= at
    ensures Spaced(log + [SampleStarted(o, at)])
  {
    forall i | 0 <= i < |log| ensures log[i] in log {}
  }

  lemma PickKeepsTime(s: Sys, s': Sys, step: Step)
    requires Exclusive(s) && TimeInv(s) && Next(s, s', step) && step.PickOne?
    ensures TimeInv(s')
  {
    if step.p.Handed? && !s.shutdown {
      var j := Hand(s.table, step.p.index, step.started);
      HandIsIdle(s, step.started, step.p.index);
      PickIsLate(s, step.started, step.p.index);
      SpacedGrows(s.log, j.o, j.started);
      hide Spaced;
      forall e | e in s'.log && e.SampleStarted? ensures Accounted(s', e) {
        if e in s.log && Held(s, e) {
          var w :| w in s.jobs && s.jobs[w].o == e.o && e.at <= s.jobs[w].started;
          assert w in s'.jobs && s'.jobs[w] == s.jobs[w];
        }
        if e !in s.log { assert step.w in s'.jobs && s'.jobs[step.w] == j; }
      }
    }
  }

  lemma KeptIsSpaced(log: seq<Event>, o: nat, vm: VM, process: Process)
    requires Spaced(log)
    ensures Spaced(log + [SampleKept(o, vm, process)])
  {}

  lemma FinishKeepsTime(s: Sys, s': Sys, step: Step)
    requires Exclusive(s) && TimeInv(s) && Next(s, s', step) && step.Finish?
    ensures TimeInv(s')
  {
    hide Spaced;
    if !s.shutdown {
      var j := s.jobs[step.w];
      KeptIsSpaced(s.log, j.o, step.vm, step.process);
      forall e | e in s'.log && e.SampleStarted? ensures Accounted(s', e) {
        assert e in s.log && Accounted(s, e);
        if e.o != j.o && Held(s, e) {
          var w :| w in s.jobs && s.jobs[w].o == e.o && e.at <= s.jobs[w].started;
          assert w in s'.jobs && s'.jobs[w] == s.jobs[w];
        }
      }
    }
  }

  lemma StepKeepsTime(s: Sys, s': Sys, step: Step)
    requires Exclusive(s) && TimeInv(s) && Next(s, s', step)
    ensures TimeInv(s')
  {
    match step
    case Refresh(configs) =>
      forall e | e in s.log && e.SampleStarted? && Accounted(s, e) ensures Accounted(s', e) {
        RefreshKeepsAccounted(s, configs, e);
      }
    case PickOne(_, _, _) => PickKeepsTime(s, s', step);
    case Finish(_, _, _) => FinishKeepsTime(s, s', step);
    case _ =>
      forall e | e in s.log && e.SampleStarted? && Accounted(s, e) ensures Accounted(s', e) {
        if w :| w in s.jobs && s.jobs[w].o == e.o && e.at <= s.jobs[w].started { assert w in s'.jobs; }
      }
  }

  lemma RefreshKeepsOwn(s: Sys, configs: seq<Config>)
    requires Linked(s.table) && OwnInv(s)
    ensures OwnInv(s.(table := Refreshed(s.table, configs, s.now)))
  {
    RefreshedLinked(s.table, configs, s.now);
    hide Refreshed;
    var s' := s.(table := Refreshed(s.table, configs, s.now));
    forall o: nat | o < |s'.table.heap| ensures Own(s', o) {
      if o < |s.table.heap| {
        assert Own(s, o);
        if config :| Virgin(s.table.heap[o], config) { assert Virgin(s'.table.heap[o], config); }
      } else {
        assert Virgin(s'.table.heap[o], s'.table.heap[o].config);
      }
    }
  }

  lemma BegunGrows(log: seq<Event>, e: Event)
    requires Begun(log)
    requires e.SampleKept? ==> exists i :: 0 <= i < |log| && log[i].SampleStarted? && log[i].o == e.o
    ensures Begun(log + [e])
  {
    var log' := log + [e];
    forall j | 0 <= j < |log'| && log'[j].SampleKept?
      ensures exists i :: 0 <= i < j && log'[i].SampleStarted? && log'[i].o == log'[j].o
    {
      if j < |log| {
        var i :| 0 <= i < j && log[i].SampleStarted? && log[i].o == log[j].o;
        assert log'[i] == log[i];
      } else {
        var i :| 0 <= i < |log| && log[i].SampleStarted? && log[i].o == e.o;
        assert log'[i] == log[i];
      }
    }
  }

  lemma StillBegun(log: seq<Event>, log': seq<Event>, o: nat)
    requires log <= log'
    requires exists i :: 0 <= i < |log| && log[i].SampleStarted? && log[i].o == o
    ensures exists i :: 0 <= i < |log'| && log'[i].SampleStarted? && log'[i].o == o
  {
    var i :| 0 <= i < |log| && log[i].SampleStarted? && log[i].o == o;
    assert log'[i] == log[i];
  }

  lemma PickKeepsOwn(s: Sys, s': Sys, step: Step)
    requires OwnInv(s) && Next(s, s', step) && step.PickOne?
    ensures OwnInv(s')
  {
    if step.p.Handed? {
      var e := s'.log[|s.log|];
      BegunGrows(s.log, e);
      forall o: nat | o < |s'.table.heap| ensures Own(s', o) {
        assert Own(s, o);
        if config :| Virgin(s.table.heap[o], config) { assert Virgin(s'.table.heap[o], config); }
      }
      forall w | w in s'.jobs
        ensures exists i :: 0 <= i < |s'.log| && s'.log[i].SampleStarted? && s'.log[i].o == s'.jobs[w].o
      {
        if w == step.w { assert s'.log[|s.log|].o == s'.jobs[w].o; } else { StillBegun(s.log, s'.log, s.jobs[w].o); }
      }
    }
  }

  lemma FinishKeepsOwn(s: Sys, s': Sys, step: Step)
    requires Exclusive(s) && OwnInv(s) && Next(s, s', step) && step.Finish?
    ensures OwnInv(s')
  {
    var j := s.jobs[step.w];
    if Listed(s.table, j.o) && !s.shutdown { BegunGrows(s.log, SampleKept(j.o, step.vm, step.process)); }
    forall o: nat | o < |s'.table.heap| ensures Own(s', o) {
      assert Own(s, o);
      if s'.table.heap[o] == s.table.heap[o] {
        if config :| Virgin(s.table.heap[o], config) { assert Virgin(s'.table.heap[o], config); }
      }
    }
    forall w | w in s'.jobs
      ensures exists i :: 0 <= i < |s'.log| && s'.log[i].SampleStarted? && s'.log[i].o == s'.jobs[w].o
    {
      StillBegun(s.log, s'.log, s.jobs[w].o);
    }
  }

  lemma StepKeepsOwn(s: Sys, s': Sys, step: Step)
    requires Exclusive(s) && OwnInv(s) && Next(s, s', step)
    ensures OwnInv(s')
  {
    match step
    case Refresh(configs) => RefreshKeepsOwn(s, configs);
    case PickOne(_, _, _) => PickKeepsOwn(s, s', step);
    case Finish(_, _, _) => FinishKeepsOwn(s, s', step);
    case _ =>
      forall o: nat | o < |s'.table.heap| ensures Own(s', o) {
        assert Own(s, o);
        if config :| Virgin(s.table.heap[o], config) { assert Virgin(s'.table.heap[o], config); }
      }
  }

  lemma StepKeeps(s: Sys, s': Sys, step: Step)
    requires SysInv(s) && Next(s, s', step)
    ensures SysInv(s')
  {
    StepKeepsLinked(s, s', step);
    StepKeepsExclusive(s, s', step);
    StepKeepsTime(s, s', step);
    StepKeepsOwn(s, s', step);
  }

  // ---------- runs ----------

  const EMPTY_TABLE := Table(map[], [], [], false, {}, 0, 0, 0, None, map[], 0)

  ghost predicate Run(ss: seq<Sys>, steps: seq<Step>) {
    && |ss| == |steps| + 1
    && ss[0] == Sys(ss[0].now, EMPTY_TABLE, map[], false, [])
    && forall k | 0 <= k < |steps| :: Next(ss[k], ss[k + 1], steps[k])
  }

  lemma {:induction false} RunKeeps(ss: seq<Sys>, steps: seq<Step>, k: nat)
    requires Run(ss, steps) && k < |ss|
    ensures SysInv(ss[k])
  {
    if k > 0 {
      RunKeeps(ss, steps, k - 1);
      StepKeeps(ss[k - 1], ss[k], steps[k - 1]);
    }
  }

  /** No VM is sampled by two workers at once, even when a refresh drops and lists it again while it is
      being sampled, and at most eight samples are in progress. */
  lemma NeverSampledTwice(ss: seq<Sys>, steps: seq<Step>, k: nat, v: nat, w: nat)
    requires Run(ss, steps) && k < |ss| && v in ss[k].jobs && w in ss[k].jobs && v != w
    ensures Id(ss[k].jobs[v]) != Id(ss[k].jobs[w]) && ss[k].jobs[v].o != ss[k].jobs[w].o
    ensures v < 8 && w < 8
  {
    RunKeeps(ss, steps, k);
  }

  /** Until shutdown, the samples of one observation start three seconds apart, under any interleaving
      of workers and refreshes. */
  lemma SamplesAreSpaced(ss: seq<Sys>, steps: seq<Step>, k: nat)
    requires Run(ss, steps) && k < |ss| && !ss[k].shutdown
    ensures Spaced(ss[k].log)
  {
    RunKeeps(ss, steps, k);
  }

  /** A listed VM shows what was sampled for its own observation, after that was handed out, or nothing:
      one that was removed and listed again shows nothing from before its removal. */
  lemma SamplesAreOwn(ss: seq<Sys>, steps: seq<Step>, k: nat, id: int)
    requires Run(ss, steps) && k < |ss| && id in ss[k].table.entries
    ensures ss[k].table.entries[id] < |ss[k].table.heap|
    ensures var o := ss[k].table.entries[id]; var ob := ss[k].table.heap[o];
            || (exists config :: Virgin(ob, config))
            || (exists i, j :: 0 <= i < j < |ss[k].log| && ss[k].log[j] == SampleKept(o, ob.vm, ob.previous)
                               && ss[k].log[i].SampleStarted? && ss[k].log[i].o == o)
  {
    RunKeeps(ss, steps, k);
    var o := ss[k].table.entries[id];
    assert Own(ss[k], o);
    var log := ss[k].log;
    if j :| 0 <= j < |log| && log[j] == SampleKept(o, ss[k].table.heap[o].vm, ss[k].table.heap[o].previous) {
      var i :| 0 <= i < j && log[i].SampleStarted? && log[i].o == o;
    }
  }

  /** Dropping a VM and listing it again gives it an observation that never existed before. */
  lemma ReaddedIsNew(ss: seq<Sys>, steps: seq<Step>, k: nat, id: int)
    requires Run(ss, steps) && k < |steps| && id !in ss[k].table.entries && id in ss[k + 1].table.entries
    ensures ss[k + 1].table.entries[id] >= |ss[k].table.heap|
    ensures ss[k + 1].table.entries[id] < |ss[k + 1].table.heap|
    ensures var ob := ss[k + 1].table.heap[ss[k + 1].table.entries[id]]; Virgin(ob, ob.config)
  {
    assert Next(ss[k], ss[k + 1], steps[k]);
    RefreshedLinked(ss[k].table, steps[k].configs, ss[k].now);
  }

  // ---------- sleeping workers ----------

  /** No idle listed VM is due before `limit`. */
  ghost predicate QuietUntil(t: Table, limit: Time)
    requires Linked(t)
  {
    forall i: nat | i < |t.order| && Idle(t, i) :: limit <= Due(t, i)
  }

  lemma StepClosesOrKeepsQuiet(s: Sys, s': Sys, step: Step, limit: Time)
    requires SysInv(s) && Next(s, s', step) && Linked(s'.table) && QuietUntil(s.table, limit)
    ensures s'.table.changed >= s.table.changed
    ensures s'.table.changed == s.table.changed ==> QuietUntil(s'.table, limit)
  {
    if s'.table.changed == s.table.changed {
      assert s'.table.order == s.table.order && s'.table.entries == s.table.entries && s'.table.heap == s.table.heap;
      forall i: nat | i < |s'.table.order| && Idle(s'.table, i) ensures limit <= Due(s'.table, i) {
        assert Idle(s.table, i);
      }
    }
  }

  lemma {:induction false} QuietWhileOpen(ss: seq<Sys>, steps: seq<Step>, k: nat, m: nat, limit: Time)
    requires Run(ss, steps) && k <= m < |ss|
    requires SysInv(ss[k]) && QuietUntil(ss[k].table, limit)
    ensures SysInv(ss[m]) && ss[m].table.changed >= ss[k].table.changed
    ensures ss[m].table.changed == ss[k].table.changed ==> QuietUntil(ss[m].table, limit)
    decreases m
  {
    if k < m {
      QuietWhileOpen(ss, steps, k, m - 1, limit);
      RunKeeps(ss, steps, m);
      assert Next(ss[m - 1], ss[m], steps[m - 1]);
      if ss[m - 1].table.changed == ss[k].table.changed {
        StepClosesOrKeepsQuiet(ss[m - 1], ss[m], steps[m - 1], limit);
      } else {
        ChangedGrows(ss[m - 1], ss[m], steps[m - 1]);
      }
    }
  }

  lemma ChangedGrows(s: Sys, s': Sys, step: Step)
    requires Next(s, s', step)
    ensures s'.table.changed >= s.table.changed
  {}

  /** No lost wake-up: while a worker that was told to wait has neither been woken through its channel
      nor waited its time out, there is no listed VM that is idle and due. */
  lemma SleepersMissNothing(ss: seq<Sys>, steps: seq<Step>, k: nat, m: nat)
    requires Run(ss, steps) && k < m < |ss|
    requires steps[k].PickOne? && steps[k].p.Nothing?
    requires ss[m].table.changed == steps[k].p.channel
    requires ss[m].now < steps[k].started + steps[k].p.wait
    ensures Linked(ss[m].table)
    ensures 0 < steps[k].p.wait <= SAMPLE_INTERVAL
    ensures forall i: nat | i < |ss[m].table.order| :: !Ready(ss[m].table, ss[m].now, i)
  {
    RunKeeps(ss, steps, k);
    RunKeeps(ss, steps, k + 1);
    assert Next(ss[k], ss[k + 1], steps[k]);
    QuietWhileOpen(ss, steps, k + 1, m, steps[k].started + steps[k].p.wait);
  }

  // ---------- fairness ----------

  /** Only `next` moves the cursor, and only a successful refresh changes the order. */
  lemma RotationIsUndisturbed(s: Sys, s': Sys, step: Step)
    requires Next(s, s', step)
    ensures s'.table.cursor != s.table.cursor ==> step.PickOne? && step.p.Handed?
    ensures s'.table.order != s.table.order ==> step.Refresh?
  {}

  /** How often `next` is called in the steps from `a` to `b`. */
  ghost function Picks(steps: seq<Step>, a: nat, b: nat): nat
    requires a <= b <= |steps|
  {
    if a == b then 0 else Picks(steps, a, b - 1) + (if steps[b - 1].PickOne? then 1 else 0)
  }

  /** Where the inventory lists this VM first. */
  function At(order: seq<int>, id: int): (place: nat)
    requires id in order
    ensures place < |order| && order[place] == id
  {
    if order[0] == id then 0 else 1 + At(order[1..], id)
  }

  /** How many places the cursor has to pass before it reaches this VM. */
  function Left(t: Table, id: int): nat
    requires id in t.order
  {
    Distance(t.cursor, At(t.order, id), |t.order|)
  }

  predicate HandsOut(s: Sys, step: Step, id: int) {
    step.PickOne? && step.p.Handed? && step.p.index < |s.table.order| && s.table.order[step.p.index] == id
  }

  /** The VM is idle and due, as the worker that makes this pick sees it, and is not handed out. */
  ghost predicate PassedOver(s: Sys, step: Step, id: int) {
    && step.PickOne? && Linked(s.table) && id in s.table.order
    && Ready(s.table, step.started, At(s.table.order, id)) && !HandsOut(s, step, id)
  }

  /** How far the refreshes from `a` to `b` can set a VM back: a whole turn for each that changes the list of
      VMs, nothing for one that finds the same list. */
  ghost function SetBack(ss: seq<Sys>, a: nat, b: nat): nat
    requires a <= b < |ss|
  {
    if a == b then 0
    else
      var order := ss[b].table.order;
      SetBack(ss, a, b - 1) + (if order != ss[b - 1].table.order && order != [] then |order| - 1 else 0)
  }

  /** A pick that passes the VM over brings the cursor closer to it. */
  lemma StepComesCloser(s: Sys, s': Sys, step: Step, id: int)
    requires Next(s, s', step) && id in s.table.order && id in s'.table.order
    requires step.PickOne? ==> PassedOver(s, step, id)
    ensures s'.table.order == s.table.order ==>
              Left(s'.table, id) + (if step.PickOne? then 1 else 0) <= Left(s.table, id)
    ensures s'.table.order != s.table.order ==> !step.PickOne? && Left(s'.table, id) <= |s'.table.order| - 1
  {
    hide Distance, At;
    RotationIsUndisturbed(s, s', step);
    if step.PickOne? { PickApproaches(s.table, step.started, step.p, s'.table, At(s.table.order, id)); }
    DistanceReaches(s'.table.cursor, At(s'.table.order, id), |s'.table.order|);
  }

  lemma {:induction false} PicksAreBounded(ss: seq<Sys>, steps: seq<Step>, a: nat, b: nat, id: int)
    requires Run(ss, steps) && a <= b <= |steps|
    requires forall m | a <= m <= b :: id in ss[m].table.order
    requires forall m | a <= m < b && steps[m].PickOne? :: PassedOver(ss[m], steps[m], id)
    ensures Picks(steps, a, b) + Left(ss[b].table, id) <= Left(ss[a].table, id) + SetBack(ss, a, b)
    decreases b
  {
    hide Left, Next, PassedOver;
    if a < b {
      PicksAreBounded(ss, steps, a, b - 1, id);
      assert Next(ss[b - 1], ss[b], steps[b - 1]);
      StepComesCloser(ss[b - 1], ss[b], steps[b - 1], id);
    }
  }

  /** When the VM is next due. */
  function DueOf(t: Table, id: int): Time
    requires Linked(t) && id in t.entries
  {
    t.heap[t.entries[id]].next
  }

  /** While it is listed and not handed out, an idle VM stays idle and its due time stands: a refresh keeps its
      observation, and no worker holds a sample of it. */
  lemma StaysIdle(s: Sys, s': Sys, step: Step, id: int)
    requires Exclusive(s) && Next(s, s', step) && id in s.table.entries && id in s'.table.entries
    requires id !in s.table.active && !HandsOut(s, step, id)
    ensures Linked(s'.table) && id !in s'.table.active && DueOf(s'.table, id) == DueOf(s.table, id)
  {
    StepKeepsLinked(s, s', step);
    match step
    case Refresh(configs) =>
      RefreshedLinked(s.table, configs, s.now);
      RefreshedRest(s.table, configs, s.now);
      hide Refreshed;
    case Finish(w, _, _) => assert Id(s.jobs[w]) in Sampled(s.jobs);
    case _ =>
  }

  lemma {:induction false} IdleUntilHanded(ss: seq<Sys>, steps: seq<Step>, a: nat, b: nat, id: int)
    requires Run(ss, steps) && a <= b <= |steps|
    requires forall m | a <= m <= b :: id in ss[m].table.order
    requires id !in ss[a].table.active && forall m | a <= m < b :: !HandsOut(ss[m], steps[m], id)
    ensures Linked(ss[a].table) && Linked(ss[b].table) && id in ss[a].table.entries && id in ss[b].table.entries
    ensures id !in ss[b].table.active && DueOf(ss[b].table, id) == DueOf(ss[a].table, id)
    decreases b
  {
    hide Next, HandsOut, Exclusive, TimeInv, OwnInv;
    RunKeeps(ss, steps, b);
    if a < b {
      IdleUntilHanded(ss, steps, a, b - 1, id);
      RunKeeps(ss, steps, b - 1);
      assert Next(ss[b - 1], ss[b], steps[b - 1]);
      StaysIdle(ss[b - 1], ss[b], steps[b - 1], id);
    }
  }

  /** Round-robin fairness over runs, with anything happening in between: an idle VM that is due for every worker
      that asks is passed over by at most as many picks as it is places away from the cursor, and as refreshes
      that change the list of VMs set it back. While the inventory lists the same VMs that is at most
      `|order| - 1`. */
  lemma RunIsFair(ss: seq<Sys>, steps: seq<Step>, a: nat, b: nat, id: int)
    requires Run(ss, steps) && a <= b <= |steps|
    requires forall m | a <= m <= b :: id in ss[m].table.order
    requires id !in ss[a].table.active && forall m | a <= m < b :: !HandsOut(ss[m], steps[m], id)
    ensures Linked(ss[a].table) && id in ss[a].table.entries
    ensures (forall m | a <= m < b && steps[m].PickOne? :: DueOf(ss[a].table, id) <= steps[m].started) ==>
              Picks(steps, a, b) <= Left(ss[a].table, id) + SetBack(ss, a, b)
    ensures Left(ss[a].table, id) <= |ss[a].table.order| - 1
    ensures (forall m | a <= m < b && steps[m].Refresh? :: Ids(steps[m].configs) == ss[m].table.order) ==>
              SetBack(ss, a, b) == 0
  {
    hide Next, HandsOut;
    IdleUntilHanded(ss, steps, a, a, id);
    DistanceReaches(ss[a].table.cursor, At(ss[a].table.order, id), |ss[a].table.order|);
    if forall m | a <= m < b && steps[m].PickOne? :: DueOf(ss[a].table, id) <= steps[m].started {
      forall m | a <= m < b && steps[m].PickOne? ensures PassedOver(ss[m], steps[m], id) {
        IdleUntilHanded(ss, steps, a, m, id);
      }
      PicksAreBounded(ss, steps, a, b, id);
    }
    if forall m | a <= m < b && steps[m].Refresh? :: Ids(steps[m].configs) == ss[m].table.order {
      SameListNoSetBack(ss, steps, a, b);
    }
  }

  lemma {:induction false} SameListNoSetBack(ss: seq<Sys>, steps: seq<Step>, a: nat, b: nat)
    requires Run(ss, steps) && a <= b <= |steps|
    requires forall m | a <= m < b && steps[m].Refresh? :: Ids(steps[m].configs) == ss[m].table.order
    ensures SetBack(ss, a, b) == 0
    decreases b
  {
    hide Next;
    if a < b {
      SameListNoSetBack(ss, steps, a, b - 1);
      assert Next(ss[b - 1], ss[b], steps[b - 1]);
      SameListKeepsOrder(ss[b - 1], ss[b], steps[b - 1]);
    }
  }

  lemma SameListKeepsOrder(s: Sys, s': Sys, step: Step)
    requires Next(s, s', step) && (step.Refresh? ==> Ids(step.configs) == s.table.order)
    ensures s'.table.order == s.table.order
  {
    RotationIsUndisturbed(s, s', step);
  }

  /** A refresh that drops the VM in front of the cursor's sets the next one back by a whole turn. */
  lemma DroppingSetsBack(one: Config, two: Config, three: Config, now: Time)
    requires one.vm.id == 1 && two.vm.id == 2 && three.vm.id == 3
    ensures var t := Refreshed(EMPTY_TABLE, [one, two, three], now).(cursor := 1);
            var t' := Refreshed(t, [two, three], now);
            && t.order == [1, 2, 3] && t'.order == [2, 3]
            && Left(t, 2) == 0 && Left(t', 2) == |t'.order| - 1
  {}
}
