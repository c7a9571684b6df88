/** What a snapshot shows (internal/pve/cache.go, `collector.snapshot`; internal/pve/guest_cache.go, `AttachGuestIPs`),
    told by the steps of the run: the last sample that was kept, the last configuration, the last capacities and the
    state file of the guest. */
module Observations {
  import opened Common
  import opened Virt
  import opened Collector
  import opened CollectorSystem
  import opened Assembly
  import opened GuestCollector

  // ---------- the last sample of an observation ----------

  /** This step stores a sample in observation `o`: its worker was handed it, it is still the one that is listed for
      its VM, and the collector is not being shut down. */
  predicate Keeps(s: Sys, step: CollectorSystem.Step, o: nat) {
    && step.Finish? && step.w in s.jobs && s.jobs[step.w].o == o && !s.shutdown
    && s.jobs[step.w].config.vm.id in s.table.entries && s.table.entries[s.jobs[step.w].config.vm.id] == o
  }

  ghost function LastSample(ss: seq<Sys>, steps: seq<CollectorSystem.Step>, k: nat, o: nat): (m: Option<nat>)
    requires k <= |steps| < |ss|
    ensures m.Some? ==> m.value < k && steps[m.value].Finish? && steps[m.value].w in ss[m.value].jobs
  {
    if k == 0 then None
    else if Keeps(ss[k - 1], steps[k - 1], o) then Some(k - 1)
    else LastSample(ss, steps, k - 1, o)
  }

  lemma FinishObserves(s: Sys, s': Sys, step: CollectorSystem.Step, o: nat)
    requires Exclusive(s) && CollectorSystem.Next(s, s', step) && step.Finish? && o < |s.table.heap|
    ensures |s'.table.heap| == |s.table.heap|
    ensures var ob, ob' := s.table.heap[o], s'.table.heap[o];
            if Keeps(s, step, o)
            then ob' == ob.(vm := step.vm, previous := step.process, next := s.jobs[step.w].started + 3 * SECOND)
            else ob' == ob
  {}

  lemma OthersObserve(s: Sys, s': Sys, step: CollectorSystem.Step, o: nat)
    requires CollectorSystem.Next(s, s', step) && !step.Finish? && o < |s.table.heap|
    ensures o < |s'.table.heap|
    ensures s'.table.heap[o] == s.table.heap[o].(config := s'.table.heap[o].config)
  {
    if step.Refresh? {
      RefreshedLinked(s.table, step.configs, s.now);
      hide Refreshed;
    }
  }

  lemma {:induction false} ListingNews(t: Table, configs: seq<Config>, k: nat, o: nat)
    requires Linked(t) && k <= |configs| && |t.heap| <= o < |Listing(t, configs, k).1|
    ensures Listing(t, configs, k).1[o].config in configs
  {
    ListingGrows(t, configs, k - 1);
    if o < |Listing(t, configs, k - 1).1| { ListingNews(t, configs, k - 1, o); }
  }

  /** `o` was made by the refresh of step `m` for `config`, which it has not been sampled since. */
  predicate MadeFor(ob: Observation, step: CollectorSystem.Step, config: Config) {
    && step.Refresh? && config in step.configs && ob.vm == config.vm.(status := "unknown")
    && ob.previous == NO_PROCESS && ob.next == 0
  }

  lemma NewIsMade(s: Sys, s': Sys, step: CollectorSystem.Step, o: nat) returns (config: Config)
    requires CollectorSystem.Next(s, s', step) && |s.table.heap| <= o < |s'.table.heap|
    ensures MadeFor(s'.table.heap[o], step, config)
  {
    RefreshedLinked(s.table, step.configs, s.now);
    ListingNews(s.table, step.configs, |step.configs|, o);
    config := s'.table.heap[o].config;
  }

  /** Every observation holds the last sample that was kept for it, with the process it was taken from, and is due
      three seconds after that sample was begun; or it was never sampled, shows a configuration it was listed with as
      of unknown status, and is due at once. */
  lemma {:induction false} HoldsLastSample(ss: seq<Sys>, steps: seq<CollectorSystem.Step>, k: nat, o: nat)
    requires CollectorSystem.Run(ss, steps) && k < |ss| && o < |ss[k].table.heap|
    ensures var ob := ss[k].table.heap[o];
            match LastSample(ss, steps, k, o)
            case Some(m) =>
              && ob.vm == steps[m].vm && ob.previous == steps[m].process
              && ob.next == ss[m].jobs[steps[m].w].started + 3 * SECOND
            case None => exists m, config :: 0 <= m < k && MadeFor(ob, steps[m], config)
  {
    hide CollectorSystem.Next, CollectorSystem.SysInv, MadeFor, Keeps;
    assert k > 0;
    assert CollectorSystem.Next(ss[k - 1], ss[k], steps[k - 1]);
    CollectorSystem.RunKeeps(ss, steps, k - 1);
    InvIsExclusive(ss[k - 1]);
    if o < |ss[k - 1].table.heap| {
      HoldsLastSample(ss, steps, k - 1, o);
      StepObserves(ss[k - 1], ss[k], steps[k - 1], o);
      if !Keeps(ss[k - 1], steps[k - 1], o) && LastSample(ss, steps, k - 1, o).None? {
        var m, config :| 0 <= m < k - 1 && MadeFor(ss[k - 1].table.heap[o], steps[m], config);
        StillMade(ss[k - 1].table.heap[o], ss[k].table.heap[o], steps[m], config);
      }
    } else {
      var config := NewIsMade(ss[k - 1], ss[k], steps[k - 1], o);
      NeverKept(ss, steps, k, o);
    }
  }

  lemma StillMade(ob: Observation, ob': Observation, step: CollectorSystem.Step, config: Config)
    requires MadeFor(ob, step, config) && ob' == ob.(config := ob'.config)
    ensures MadeFor(ob', step, config)
  {}

  lemma StepObserves(s: Sys, s': Sys, step: CollectorSystem.Step, o: nat)
    requires Exclusive(s) && CollectorSystem.Next(s, s', step) && o < |s.table.heap|
    ensures o < |s'.table.heap|
    ensures Keeps(s, step, o) ==>
              && step.Finish? && step.w in s.jobs && s'.table.heap[o].vm == step.vm
              && s'.table.heap[o].previous == step.process
              && s'.table.heap[o].next == s.jobs[step.w].started + 3 * SECOND
    ensures !Keeps(s, step, o) ==> s'.table.heap[o] == s.table.heap[o].(config := s'.table.heap[o].config)
  {
    hide CollectorSystem.Next, Exclusive;
    if step.Finish? { FinishObserves(s, s', step, o); } else { OthersObserve(s, s', step, o); }
  }

  lemma {:induction false} NeverKept(ss: seq<Sys>, steps: seq<CollectorSystem.Step>, k: nat, o: nat)
    requires CollectorSystem.Run(ss, steps) && 0 < k < |ss| && |ss[k - 1].table.heap| <= o
    ensures LastSample(ss, steps, k, o).None?
  {
    hide CollectorSystem.Next, CollectorSystem.SysInv;
    CollectorSystem.RunKeeps(ss, steps, k - 1);
    InvIsExclusive(ss[k - 1]);
    if k > 1 {
      CollectorSystem.RunKeeps(ss, steps, k - 2);
      InvIsExclusive(ss[k - 2]);
      assert CollectorSystem.Next(ss[k - 2], ss[k - 1], steps[k - 2]);
      HeapGrows(ss[k - 2], ss[k - 1], steps[k - 2]);
      NeverKept(ss, steps, k - 1, o);
    }
  }

  lemma HeapGrows(s: Sys, s': Sys, step: CollectorSystem.Step)
    requires CollectorSystem.Next(s, s', step)
    ensures |s.table.heap| <= |s'.table.heap|
  {
    if step.Refresh? {
      RefreshedLinked(s.table, step.configs, s.now);
      hide Refreshed;
    }
  }

  // ---------- the last configuration of a VM ----------

  /** The last of these configurations that is of this VM. */
  function LastNamed(configs: seq<Config>, id: int): Option<Config> {
    if configs == [] then None
    else if configs[|configs| - 1].vm.id == id then Some(configs[|configs| - 1])
    else LastNamed(configs[..|configs| - 1], id)
  }

  lemma {:induction false} ListingConfigs(t: Table, configs: seq<Config>, k: nat)
    requires Linked(t) && k <= |configs|
    ensures var (entries, heap) := Listing(t, configs, k);
            && (forall id :: id in entries <==> LastNamed(configs[..k], id).Some?)
            && forall id | id in entries ::
                 entries[id] < |heap| && Some(heap[entries[id]].config) == LastNamed(configs[..k], id)
  {
    hide Listing, Linked, Inherits;
    if k == 0 {
      ListingNothing(t, configs);
    } else {
      ListingConfigs(t, configs, k - 1);
      ListingInherits(t, configs, k - 1);
      ListingGrows(t, configs, k - 1);
      var (entries, heap) := Listing(t, configs, k - 1);
      var known := ListingOne(t, configs, k, entries, heap);
      GrownIds(t, heap);
      LastNamedNext(configs, k);
      OneMoreConfig(t, entries, heap, configs, k, known, Listing(t, configs, k).0, Listing(t, configs, k).1);
    }
  }

  lemma ListingNothing(t: Table, configs: seq<Config>)
    ensures Listing(t, configs, 0) == (map[], t.heap) && forall id :: LastNamed(configs[..0], id).None?
  {}

  lemma ListingOne(t: Table, configs: seq<Config>, k: nat, entries: map<int, nat>, heap: seq<Observation>)
    returns (known: bool)
    requires Linked(t) && 0 < k <= |configs| && Listing(t, configs, k - 1) == (entries, heap) && |t.heap| <= |heap|
    ensures var config := configs[k - 1];
            && (known ==> config.vm.id in t.entries && t.entries[config.vm.id] < |t.heap|)
            && (!known ==> config.vm.id !in t.entries)
            && Listing(t, configs, k) ==
               if known then (entries[config.vm.id := t.entries[config.vm.id]],
                              heap[t.entries[config.vm.id] := heap[t.entries[config.vm.id]].(config := config)])
               else (entries[config.vm.id := |heap|], heap + [Unsampled(config)])
  {
    known := configs[k - 1].vm.id in t.entries;
    ListingNext(t, configs, k - 1, known);
  }

  lemma GrownIds(t: Table, heap: seq<Observation>)
    requires Linked(t) && Grows(t.heap, heap)
    ensures forall id | id in t.entries :: t.entries[id] < |heap| && heap[t.entries[id]].config.vm.id == id
  {}

  lemma LastNamedNext(configs: seq<Config>, k: nat)
    requires 0 < k <= |configs|
    ensures forall id :: LastNamed(configs[..k], id) ==
                         if configs[k - 1].vm.id == id then Some(configs[k - 1]) else LastNamed(configs[..k - 1], id)
  {
    assert configs[..k][..k - 1] == configs[..k - 1] && configs[..k][k - 1] == configs[k - 1];
  }

  lemma OneMoreConfig(t: Table, entries: map<int, nat>, heap: seq<Observation>, configs: seq<Config>, k: nat,
                      known: bool,
                      entries': map<int, nat>, heap': seq<Observation>)
    requires 0 < k <= |configs| && |t.heap| <= |heap| && Inherits(t, entries, heap)
    requires known ==> configs[k - 1].vm.id in t.entries && t.entries[configs[k - 1].vm.id] < |t.heap|
    requires !known ==> configs[k - 1].vm.id !in t.entries
    requires forall id | id in t.entries && t.entries[id] < |heap| :: heap[t.entries[id]].config.vm.id == id
    requires var config := configs[k - 1];
             (entries', heap') ==
             if known then (entries[config.vm.id := t.entries[config.vm.id]],
                            heap[t.entries[config.vm.id] := heap[t.entries[config.vm.id]].(config := config)])
             else (entries[config.vm.id := |heap|], heap + [Unsampled(config)])
    requires forall id :: LastNamed(configs[..k], id) ==
                          if configs[k - 1].vm.id == id then Some(configs[k - 1]) else LastNamed(configs[..k - 1], id)
    requires forall id :: id in entries <==> LastNamed(configs[..k - 1], id).Some?
    requires forall id | id in entries ::
               entries[id] < |heap| && Some(heap[entries[id]].config) == LastNamed(configs[..k - 1], id)
    ensures forall id :: id in entries' <==> LastNamed(configs[..k], id).Some?
    ensures forall id | id in entries' ::
              entries'[id] < |heap'| && Some(heap'[entries'[id]].config) == LastNamed(configs[..k], id)
  {
    hide LastNamed;
  }

  lemma StepConfigures(s: Sys, s': Sys, step: CollectorSystem.Step)
    requires CollectorSystem.Next(s, s', step) && Linked(s'.table)
    ensures step.Refresh? ==>
              && s'.table.order == seq(|step.configs|, i requires 0 <= i < |step.configs| => step.configs[i].vm.id)
              && forall id | id in s'.table.entries ::
                   Some(s'.table.heap[s'.table.entries[id]].config) == LastNamed(step.configs, id)
    ensures !step.Refresh? ==>
              && s'.table.order == s.table.order && s'.table.entries == s.table.entries
              && forall id | id in s'.table.entries ::
                   s'.table.heap[s'.table.entries[id]].config == s.table.heap[s.table.entries[id]].config
  {
    if step.Refresh? {
      ListingConfigs(s.table, step.configs, |step.configs|);
      assert step.configs[..|step.configs|] == step.configs;
      hide Listing, Linked;
    }
  }

  /** Every listed VM has the configuration that the last successful refresh found for it, and the VMs are in the order
      of that refresh. */
  lemma {:induction false} HoldsLastConfig(ss: seq<Sys>, steps: seq<CollectorSystem.Step>, k: nat)
    requires CollectorSystem.Run(ss, steps) && k < |ss|
    ensures Linked(ss[k].table)
    ensures match LastSuccess(steps, k)
            case None => ss[k].table.order == [] && ss[k].table.entries == map[] && !ss[k].table.listed
            case Some(r) =>
              && steps[r].Refresh? && ss[k].table.listed
              && ss[k].table.order == seq(|steps[r].configs|,
                                          i requires 0 <= i < |steps[r].configs| => steps[r].configs[i].vm.id)
              && forall id | id in ss[k].table.entries ::
                   Some(ss[k].table.heap[ss[k].table.entries[id]].config) == LastNamed(steps[r].configs, id)
  {
    hide CollectorSystem.Next, CollectorSystem.SysInv, LastNamed;
    CollectorSystem.RunKeeps(ss, steps, k);
    InvIsLinked(ss[k]);
    if k > 0 {
      HoldsLastConfig(ss, steps, k - 1);
      assert CollectorSystem.Next(ss[k - 1], ss[k], steps[k - 1]);
      StepConfigures(ss[k - 1], ss[k], steps[k - 1]);
      StepLists(ss[k - 1], ss[k], steps[k - 1]);
    }
  }

  lemma InvIsLinked(s: Sys)
    requires CollectorSystem.SysInv(s)
    ensures Linked(s.table)
  {}

  lemma StepLists(s: Sys, s': Sys, step: CollectorSystem.Step)
    requires CollectorSystem.Next(s, s', step)
    ensures s'.table.listed == (s.table.listed || step.Refresh?)
  {
    hide Listing;
  }

  // ---------- the last capacities ----------

  ghost function LastMetadata(steps: seq<CollectorSystem.Step>, k: nat): (m: Option<nat>)
    requires k <= |steps|
    ensures m.Some? ==> m.value < k && steps[m.value].Metadata?
  {
    if k == 0 then None else if steps[k - 1].Metadata? then Some(k - 1) else LastMetadata(steps, k - 1)
  }

  lemma {:induction false} HoldsLastMetadata(ss: seq<Sys>, steps: seq<CollectorSystem.Step>, k: nat)
    requires CollectorSystem.Run(ss, steps) && k < |ss|
    ensures match LastMetadata(steps, k)
            case None => ss[k].table.capacities == map[]
            case Some(m) => ss[k].table.capacities == steps[m].capacities && ss[k].table.metadataAt == ss[m].now
  {
    hide CollectorSystem.Next;
    if k > 0 {
      HoldsLastMetadata(ss, steps, k - 1);
      assert CollectorSystem.Next(ss[k - 1], ss[k], steps[k - 1]);
      StepMeasures(ss[k - 1], ss[k], steps[k - 1]);
    }
  }

  lemma StepMeasures(s: Sys, s': Sys, step: CollectorSystem.Step)
    requires CollectorSystem.Next(s, s', step)
    ensures if step.Metadata? then s'.table.capacities == step.capacities && s'.table.metadataAt == s.now
            else s'.table.capacities == s.table.capacities && s'.table.metadataAt == s.table.metadataAt
  {
    hide Listing;
  }

  // ---------- what a worker is handed ----------

  /** A worker samples with the configuration of the last refresh and the process of the last kept sample. */
  lemma HandedWithLatest(ss: seq<Sys>, steps: seq<CollectorSystem.Step>, k: nat)
    requires CollectorSystem.Run(ss, steps) && k < |steps| && steps[k].PickOne? && steps[k].p.Handed?
    ensures steps[k].p.index < |ss[k].table.order| && LastSuccess(steps, k).Some? && steps[k].w in ss[k + 1].jobs
    ensures var id, job := ss[k].table.order[steps[k].p.index], ss[k + 1].jobs[steps[k].w];
            && id in ss[k].table.entries && job.o == ss[k].table.entries[id] && job.started == steps[k].started
            && Some(job.config) == LastNamed(steps[LastSuccess(steps, k).value].configs, id)
            && job.previous == (match LastSample(ss, steps, k, job.o)
                                case Some(m) => steps[m].process
                                case None => NO_PROCESS)
  {
    hide CollectorSystem.SysInv, LastNamed, MadeFor, Keeps;
    HoldsLastConfig(ss, steps, k);
    assert CollectorSystem.Next(ss[k], ss[k + 1], steps[k]);
    var id := ss[k].table.order[steps[k].p.index];
    assert id in ss[k].table.entries;
    HoldsLastSample(ss, steps, k, ss[k].table.entries[id]);
    if m, config :| 0 <= m < k && MadeFor(ss[k].table.heap[ss[k].table.entries[id]], steps[m], config) {
      MadeHasNoProcess(ss[k].table.heap[ss[k].table.entries[id]], steps[m], config);
    }
  }

  lemma MadeHasNoProcess(ob: Observation, step: CollectorSystem.Step, config: Config)
    requires MadeFor(ob, step, config)
    ensures ob.previous == NO_PROCESS
  {}

  // ---------- what a snapshot shows ----------

  /** `vm` shows what was sampled as `base`, field by field: what only a live sample can tell for as long as the
      sample lives, and the rest always. */
  predicate Shows(vm: VM, base: VM, now: Time) {
    && vm.id == base.id && vm.template == base.template && vm.cpus == base.cpus && vm.memoryLimit == base.memoryLimit
    && vm.collectedAt == base.collectedAt && vm.ttlSeconds == base.ttlSeconds
    && if base.collectedAt.Some? && now - base.collectedAt.value <= base.ttlSeconds * 1000
       then
         && vm.status == base.status && vm.qmpStatus == base.qmpStatus && vm.cpu == base.cpu && vm.memory == base.memory
         && vm.uptime == base.uptime && vm.diskRead == base.diskRead && vm.diskWrite == base.diskWrite
         && vm.netIn == base.netIn && vm.netOut == base.netOut
       else
         && vm.status == "unknown" && vm.qmpStatus == "" && vm.cpu.None? && vm.memory.None? && vm.uptime.None?
         && vm.diskRead.None? && vm.diskWrite.None? && vm.netIn.None? && vm.netOut.None?
  }

  /** The stored answer of the guest may be shown for this VM. */
  predicate Answers(guests: map<int, File>, id: int, vm: VM, host: string, now: Time) {
    && vm.status == "running" && !vm.template && vm.qmpStatus == "running"
    && id in guests && guests[id].Readable? && guests[id].state.host == host
    && 0 < guests[id].state.collectedAt <= now && now - guests[id].state.collectedAt <= 15 * 60 * 1000
    && vm.uptime.Some? && vm.collectedAt.Some?
    && guests[id].state.collectedAt >= vm.collectedAt.value - vm.uptime.value * 1000
  }

  lemma ShownFields(t: Table, index: nat, now: Time)
    requires Linked(t) && index < |t.order|
    ensures t.order[index] in t.entries
    ensures var id, vm := t.order[index], Shown(t, index, now); var ob := t.heap[t.entries[id]];
            && Shows(vm, ob.vm, now) && vm.name == ob.config.vm.name && vm.netRateLimits == ob.config.vm.netRateLimits
            && vm.diskCapacity ==
               if now - t.metadataAt < 2 * 60 * 1000 && id in t.capacities then Some(t.capacities[id]) else None
  {}

  lemma AttachedFields(vm: VM, base: VM, guests: map<int, File>, id: int, host: string, now: Time)
    requires Shows(vm, base, now)
    ensures var vm' := Attached(vm, host, Contents(guests, id), now);
            && Shows(vm', base, now) && vm'.name == vm.name && vm'.netRateLimits == vm.netRateLimits
            && vm'.diskCapacity == vm.diskCapacity
            && if Answers(guests, id, vm', host, now)
               then vm'.ips == guests[id].state.ips && vm'.ipsCollectedAt == Some(guests[id].state.collectedAt)
                    && vm'.ipsTtlSeconds == 900
               else vm'.ips == [] && vm'.ipsCollectedAt == None && vm'.ipsTtlSeconds == 0
  {}

  lemma ViewFields(t: Table, host: string, now: Time, guests: map<int, File>, toValid: string -> string, i: nat)
    requires Linked(t) && t.listed && i < |t.order|
    ensures i < |Vms(Assemble(t, host, now, guests, toValid))| == |t.order| && t.order[i] in t.entries
    ensures var id, vm := t.order[i], Vms(Assemble(t, host, now, guests, toValid))[i]; var ob := t.heap[t.entries[id]];
            && Shows(vm, ob.vm, now) && vm.name == ob.config.vm.name && vm.netRateLimits == ob.config.vm.netRateLimits
            && vm.diskCapacity ==
               (if now - t.metadataAt < 2 * 60 * 1000 && id in t.capacities then Some(t.capacities[id]) else None)
            && if Answers(guests, id, vm, host, now)
               then vm.ips == guests[id].state.ips && vm.ipsCollectedAt == Some(guests[id].state.collectedAt)
                    && vm.ipsTtlSeconds == 900
               else vm.ips == [] && vm.ipsCollectedAt == None && vm.ipsTtlSeconds == 0
  {
    hide Shows, Answers, Shown, Attached;
    ShownFields(t, i, now);
    var id := t.order[i];
    AttachedFields(Shown(t, i, now), t.heap[t.entries[id]].vm, guests, id, host, now);
  }

  /** Over all runs, entry by entry: the snapshot lists the VMs of the last successful refresh in their order. Each
      shows the last sample that was kept for it field by field while that lives, or is unknown; name and rates of its
      last configuration; the capacity that was measured last, for two minutes; and the stored answer of its guest
      exactly under the conditions of `Answers`. */
  lemma SnapshotShows(ss: seq<Sys>, steps: seq<CollectorSystem.Step>, k: nat, host: string, guests: map<int, File>,
                      toValid: string -> string, i: nat)
    requires CollectorSystem.Run(ss, steps) && k < |ss| && i < |ss[k].table.order|
    ensures Linked(ss[k].table) && LastSuccess(steps, k).Some?
    ensures var configs := steps[LastSuccess(steps, k).value].configs;
            var vms := Vms(Assemble(ss[k].table, host, ss[k].now, guests, toValid));
            && |vms| == |configs| && i < |configs| && ss[k].table.order[i] == configs[i].vm.id
            && configs[i].vm.id in ss[k].table.entries && LastNamed(configs, configs[i].vm.id).Some?
    ensures var configs := steps[LastSuccess(steps, k).value].configs;
            var id, now := configs[i].vm.id, ss[k].now;
            var vm := Vms(Assemble(ss[k].table, host, now, guests, toValid))[i];
            && (match LastSample(ss, steps, k, ss[k].table.entries[id])
                case Some(m) => Shows(vm, steps[m].vm, now)
                case None =>
                  exists m, config :: 0 <= m < k && steps[m].Refresh? && config in steps[m].configs
                                      && Shows(vm, config.vm.(status := "unknown"), now))
            && vm.name == LastNamed(configs, id).value.vm.name
            && vm.netRateLimits == LastNamed(configs, id).value.vm.netRateLimits
            && vm.diskCapacity == (match LastMetadata(steps, k)
                                   case Some(m) =>
                                     if now - ss[m].now < 2 * 60 * 1000 && id in steps[m].capacities
                                     then Some(steps[m].capacities[id]) else None
                                   case None => None)
            && if Answers(guests, id, vm, host, now)
               then vm.ips == guests[id].state.ips && vm.ipsCollectedAt == Some(guests[id].state.collectedAt)
                    && vm.ipsTtlSeconds == 900
               else vm.ips == [] && vm.ipsCollectedAt == None && vm.ipsTtlSeconds == 0
  {
    hide CollectorSystem.Next, CollectorSystem.SysInv, Shows, Answers, LastNamed, LastMetadata, LastSample, Assemble,
         MadeFor;
    HoldsLastConfig(ss, steps, k);
    HoldsLastMetadata(ss, steps, k);
    var t := ss[k].table;
    ViewFields(t, host, ss[k].now, guests, toValid, i);
    HoldsLastSample(ss, steps, k, t.entries[t.order[i]]);
    var ob := t.heap[t.entries[t.order[i]]];
    if LastSample(ss, steps, k, t.entries[t.order[i]]).None? {
      var m, config :| 0 <= m < k && MadeFor(ob, steps[m], config);
      MadeShows(ob, steps[m], config);
    }
  }

  lemma MadeShows(ob: Observation, step: CollectorSystem.Step, config: Config)
    requires MadeFor(ob, step, config)
    ensures step.Refresh? && config in step.configs && ob.vm == config.vm.(status := "unknown")
  {}

  // ---------- which VM is handed out ----------

  /** When observation `o` is due next: three seconds after its last kept sample was begun, or at once. */
  ghost function DueTime(ss: seq<Sys>, steps: seq<CollectorSystem.Step>, k: nat, o: nat): Time
    requires k <= |steps| < |ss|
  {
    match LastSample(ss, steps, k, o)
    case Some(m) => ss[m].jobs[steps[m].w].started + 3000
    case None => 0
  }

  /** No worker is sampling this VM. */
  predicate Unsampling(s: Sys, id: int) { forall w | w in s.jobs :: s.jobs[w].config.vm.id != id }

  /** The VM at this place of the list is not being sampled, and due. */
  ghost predicate Waits(ss: seq<Sys>, steps: seq<CollectorSystem.Step>, k: nat, now: Time, i: nat)
    requires k <= |steps| < |ss| && i < |ss[k].table.order| && ss[k].table.order[i] in ss[k].table.entries
  {
    var id := ss[k].table.order[i];
    Unsampling(ss[k], id) && DueTime(ss, steps, k, ss[k].table.entries[id]) <= now
  }

  lemma WaitsIsReady(ss: seq<Sys>, steps: seq<CollectorSystem.Step>, k: nat, now: Time, i: nat)
    requires CollectorSystem.Run(ss, steps) && k < |ss| && i < |ss[k].table.order|
    ensures Linked(ss[k].table) && ss[k].table.order[i] in ss[k].table.entries
    ensures Waits(ss, steps, k, now, i) <==> Ready(ss[k].table, now, i)
    ensures Unsampling(ss[k], ss[k].table.order[i]) <==> Idle(ss[k].table, i)
    ensures DueTime(ss, steps, k, ss[k].table.entries[ss[k].table.order[i]]) == Due(ss[k].table, i)
  {
    hide CollectorSystem.Next, CollectorSystem.SysInv, LastSample, MadeFor;
    CollectorSystem.RunKeeps(ss, steps, k);
    InvIsLinked(ss[k]);
    InvIsExclusive(ss[k]);
    var id := ss[k].table.order[i];
    var o := ss[k].table.entries[id];
    HoldsLastSample(ss, steps, k, o);
    if m, config :| 0 <= m < k && MadeFor(ss[k].table.heap[o], steps[m], config) {
      MadeIsDue(ss[k].table.heap[o], steps[m], config);
    }
    assert Unsampling(ss[k], id) <==> id !in CollectorSystem.Sampled(ss[k].jobs);
  }

  lemma MadeIsDue(ob: Observation, step: CollectorSystem.Step, config: Config)
    requires MadeFor(ob, step, config)
    ensures ob.next == 0
  {}

  /** `next` over all runs: it hands out the nearest VM behind the cursor that waits, and moves the cursor past it; or
      no VM waits, and it tells how long that is so at least, up to three seconds. */
  lemma PickExactly(ss: seq<Sys>, steps: seq<CollectorSystem.Step>, k: nat)
    requires CollectorSystem.Run(ss, steps) && k < |steps| && steps[k].PickOne?
    ensures Linked(ss[k].table)
    ensures var order, started := ss[k].table.order, steps[k].started;
            match steps[k].p
            case Handed(index) =>
              && index < |order| && Waits(ss, steps, k, started, index)
              && ss[k + 1].table.cursor == (index + 1) % |order|
              && forall i: nat | i < |order| && Distance(ss[k].table.cursor, i, |order|)
                                               < Distance(ss[k].table.cursor, index, |order|) ::
                   !Waits(ss, steps, k, started, i)
            case Nothing(wait, _) =>
              && 0 < wait <= 3000 && (forall i: nat | i < |order| :: !Waits(ss, steps, k, started, i))
              && (forall i: nat | i < |order| && Unsampling(ss[k], order[i]) ::
                    started + wait <= DueTime(ss, steps, k, ss[k].table.entries[order[i]]))
              && (wait == 3000 || exists i: nat :: i < |order| && Unsampling(ss[k], order[i])
                                                   && started + wait ==
                                                      DueTime(ss, steps, k, ss[k].table.entries[order[i]]))
  {
    hide CollectorSystem.SysInv, Waits, DueTime, Unsampling, Wrap, Distance;
    CollectorSystem.RunKeeps(ss, steps, k);
    InvIsLinked(ss[k]);
    assert CollectorSystem.Next(ss[k], ss[k + 1], steps[k]);
    var t, started := ss[k].table, steps[k].started;
    forall i: nat | i < |t.order|
      ensures t.order[i] in t.entries && (Waits(ss, steps, k, started, i) <==> Ready(t, started, i))
      ensures Unsampling(ss[k], t.order[i]) <==> Idle(t, i)
      ensures DueTime(ss, steps, k, t.entries[t.order[i]]) == Due(t, i)
    {
      WaitsIsReady(ss, steps, k, started, i);
    }
    if steps[k].p.Handed? {
      var offset: nat :| FirstReady(t, started, offset, steps[k].p.index);
      OffsetIsDistance(t.cursor, offset, |t.order|);
      forall i: nat | i < |t.order|
                      && Distance(t.cursor, i, |t.order|) < Distance(t.cursor, steps[k].p.index, |t.order|)
        ensures !Waits(ss, steps, k, started, i)
      {
        PlaceAt(t, i);
        assert !Ready(t, started, Place(t, Distance(t.cursor, i, |t.order|)));
      }
      WrapIs(steps[k].p.index + 1, |t.order|);
    }
  }

  lemma WrapIs(place: nat, n: nat)
    requires n > 0
    ensures Wrap(place, n) == place % n
  {}

  /** No lost wake-up: while a worker that was told to wait has neither been woken through its channel nor waited its
      time out, no listed VM waits. */
  lemma NoneWaitsUnseen(ss: seq<Sys>, steps: seq<CollectorSystem.Step>, k: nat, m: nat, i: nat)
    requires CollectorSystem.Run(ss, steps) && k < m < |ss| && steps[k].PickOne? && steps[k].p.Nothing?
    requires ss[m].table.changed == steps[k].p.channel && ss[m].now < steps[k].started + steps[k].p.wait
    requires i < |ss[m].table.order|
    ensures ss[m].table.order[i] in ss[m].table.entries && !Waits(ss, steps, m, ss[m].now, i)
  {
    SleepersMissNothing(ss, steps, k, m);
    WaitsIsReady(ss, steps, m, ss[m].now, i);
  }
}
