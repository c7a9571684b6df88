/** Assembling a snapshot from the collector and the guest state files (internal/pve/cache.go,
    `collector.snapshot`; internal/pve/guest_cache.go, `AttachGuestIPs`), and the proof that every
    snapshot of every run meets the contract that its consumers check. */
module Assembly {
  import opened Common
  import opened Virt
  import opened Collector
  import opened GuestBackoff
  import opened GuestCollector
  import CollectorSystem

  const SNAPSHOT_TTL := 90
  const GUEST_TTL: nat := 15 * MINUTE
  const CAPACITY_TTL: nat := 2 * MINUTE
  const STALE := "PVE inventory unavailable or expired"

  predicate Eligible(vm: VM) { vm.status == "running" && !vm.template && vm.qmpStatus == "running" }

  /** Whether a stored guest answer may be shown for this VM now: it is recent, and no older than the boot. */
  predicate Usable(vm: VM, host: string, file: File, now: Time) {
    && file.Readable? && file.state.host == host
    && 0 < file.state.collectedAt <= now && now - file.state.collectedAt <= GUEST_TTL
    && vm.uptime.Some? && vm.collectedAt.Some?
    && file.state.collectedAt >= vm.collectedAt.value - vm.uptime.value * SECOND
  }

  /** `AttachGuestIPs` for one VM. */
  function Attached(vm: VM, host: string, file: File, now: Time): VM {
    if Eligible(vm) && Usable(vm, host, file, now)
    then vm.(ips := file.state.ips, ipsCollectedAt := Some(file.state.collectedAt), ipsTtlSeconds := GUEST_TTL / SECOND)
    else vm.(ips := [], ipsCollectedAt := None, ipsTtlSeconds := 0)
  }

  /** `collector.snapshot`, lines 145-152. */
  function Shown(t: Table, index: nat, now: Time): VM
    requires Linked(t) && index < |t.order|
  {
    var id := t.order[index];
    assert id in t.entries;
    var entry := t.heap[t.entries[id]];
    var capacity := if now - t.metadataAt < CAPACITY_TTL && id in t.capacities then Some(t.capacities[id]) else None;
    Expire(entry.vm.(name := entry.config.vm.name, netRateLimits := entry.config.vm.netRateLimits,
                     diskCapacity := capacity), now)
  }

  function Problem(t: Table, now: Time): Option<string> {
    if t.inventoryAt == 0 || now - t.inventoryAt > SNAPSHOT_TTL * SECOND then Some(STALE) else t.inventoryErr
  }

  /** The snapshot that is served at `now`, with the guest files as they are read. */
  function Assemble(t: Table, host: string, now: Time, guests: map<int, File>, toValid: string -> string): Snapshot
    requires Linked(t)
  {
    var problem := Problem(t, now);
    Snapshot(
      1, "pve", host, now, if t.inventoryAt != 0 then Some(t.inventoryAt) else None, SNAPSHOT_TTL,
      if problem.Some? then "error" else "ok",
      if problem.Some? then ErrorText(toValid, problem.value) else "",
      if t.listed then Some(Views(t, host, now, guests)) else None)
  }

  function Views(t: Table, host: string, now: Time, guests: map<int, File>): seq<VM>
    requires Linked(t)
  {
    seq(|t.order|, i requires 0 <= i < |t.order| => Attached(Shown(t, i, now), host, Contents(guests, t.order[i]), now))
  }

  // ---------- well-formed inputs ----------

  /** A configuration as `parseConfig` builds it. */
  ghost predicate GoodConfig(config: Config) {
    var vm := config.vm;
    && vm.id >= 1 && vm.qmpStatus == ""
    && vm.collectedAt.None? && vm.ttlSeconds == 0 && vm.cpu.None?
    && ValidRates(vm.netRateLimits) && GoodGauges(vm)
  }

  /** A configuration per directory entry; nothing keeps two entries, as `7.conf` and `07.conf`, from standing
      for one VM. */
  ghost predicate GoodInventory(configs: seq<Config>) {
    forall i | 0 <= i < |configs| :: GoodConfig(configs[i])
  }

  /** What `sampleVM` returns for this VM at a clock that reads at most `now`. The QMP status is any text,
      and the disk and network counters are sums that may wrap around. */
  predicate GoodSample(vm: VM, id: int, now: Time) {
    && vm.id == id && 0 < |vm.status| <= MAX_STATUS
    && vm.collectedAt.Some? && 0 < vm.collectedAt.value <= now && vm.ttlSeconds == SNAPSHOT_TTL
    && (vm.cpu.Some? ==> NonNegative(vm.cpu.value)) && GoodGauges(vm)
  }

  predicate AtLeastZero(n: Option<int>) { n.Some? ==> n.value >= 0 }

  /** The readings that are checked, or cannot be negative, where they are read. */
  predicate GoodGauges(vm: VM) {
    AtLeastZero(vm.cpus) && AtLeastZero(vm.memory) && AtLeastZero(vm.memoryLimit) && AtLeastZero(vm.uptime)
  }

  /** The readings that nothing checks before the snapshot is validated. */
  predicate Showable(vm: VM) {
    && |vm.qmpStatus| <= 64
    && AtLeastZero(vm.diskRead) && AtLeastZero(vm.diskWrite) && AtLeastZero(vm.netIn) && AtLeastZero(vm.netOut)
  }

  ghost predicate GoodStep(s: CollectorSystem.Sys, step: CollectorSystem.Step) {
    match step
    case Refresh(configs) => GoodInventory(configs)
    case Metadata(capacities) => forall id | id in capacities :: capacities[id] >= 0
    case Finish(w, vm, _) => w in s.jobs && GoodSample(vm, CollectorSystem.Id(s.jobs[w]), s.now)
    case _ => true
  }

  ghost predicate GoodGuests(net: Netip, guests: map<int, File>) {
    forall id | id in guests && guests[id].Readable? :: ValidIPs(net, guests[id].state.ips)
  }

  ghost predicate GoodText(toValid: string -> string) {
    (forall s: string :: |toValid(s)| <= |s|) && toValid(STALE) != ""
  }

  // ---------- what a table holds after well-formed inputs ----------

  /** An observation: unsampled, or holding a well-formed sample. */
  predicate GoodReading(vm: VM, id: int, now: Time) {
    && vm.id == id && 0 < |vm.status| <= MAX_STATUS
    && (if vm.collectedAt.None? then vm.ttlSeconds == 0
        else 0 < vm.collectedAt.value <= now && vm.ttlSeconds == SNAPSHOT_TTL)
    && (vm.cpu.Some? ==> NonNegative(vm.cpu.value)) && GoodGauges(vm)
  }

  ghost predicate GoodObservation(ob: Observation, now: Time) {
    GoodConfig(ob.config) && GoodReading(ob.vm, ob.config.vm.id, now)
  }

  ghost predicate GoodTable(t: Table, now: Time) {
    && Linked(t)
    && (forall o | 0 <= o < |t.heap| :: GoodObservation(t.heap[o], now))
    && t.inventoryAt <= now && (t.listed <==> t.inventoryAt != 0) && (t.order != [] ==> t.listed)
    && forall id | id in t.capacities :: t.capacities[id] >= 0
  }

  lemma UnsampledIsGood(config: Config, now: Time)
    requires GoodConfig(config)
    ensures GoodObservation(Unsampled(config), now)
  {}

  lemma {:induction false} ListingIsGood(t: Table, configs: seq<Config>, k: nat, now: Time)
    requires Linked(t) && k <= |configs|
    requires forall o | 0 <= o < |t.heap| :: GoodObservation(t.heap[o], now)
    requires forall i | 0 <= i < |configs| :: GoodConfig(configs[i])
    ensures forall o | 0 <= o < |Listing(t, configs, k).1| :: GoodObservation(Listing(t, configs, k).1[o], now)
  {
    if k > 0 {
      ListingIsGood(t, configs, k - 1, now);
      ListingGrows(t, configs, k - 1);
      UnsampledIsGood(configs[k - 1], now);
      hide GoodConfig, GoodReading;
      var id := configs[k - 1].vm.id;
      if id in t.entries { assert t.heap[t.entries[id]].config.vm.id == id; }
    }
  }

  lemma RefreshIsGood(t: Table, configs: seq<Config>, now: Time)
    requires GoodTable(t, now) && GoodInventory(configs) && now > 0
    ensures GoodTable(Refreshed(t, configs, now), now)
  {
    hide GoodObservation;
    RefreshedLinked(t, configs, now);
    ListingIsGood(t, configs, |configs|, now);
  }

  lemma FinishIsGood(s: CollectorSystem.Sys, s': CollectorSystem.Sys, step: CollectorSystem.Step)
    requires CollectorSystem.Exclusive(s) && GoodTable(s.table, s.now)
    requires CollectorSystem.Next(s, s', step) && step.Finish? && GoodStep(s, step)
    ensures GoodTable(s'.table, s'.now)
  {
    var j := s.jobs[step.w];
    assert GoodObservation(s.table.heap[j.o], s.now);
    hide GoodConfig, GoodGauges, NonNegative;
    assert forall o | 0 <= o < |s.table.heap| && o != j.o :: s'.table.heap[o] == s.table.heap[o];
    assert GoodObservation(s'.table.heap[j.o], s.now);
  }

  lemma StepIsGood(s: CollectorSystem.Sys, s': CollectorSystem.Sys, step: CollectorSystem.Step)
    requires CollectorSystem.Exclusive(s) && GoodTable(s.table, s.now) && s.now > 0
    requires CollectorSystem.Next(s, s', step) && GoodStep(s, step)
    ensures GoodTable(s'.table, s'.now) && s'.now > 0
  {
    match step
    case Refresh(configs) => RefreshIsGood(s.table, configs, s.now);
    case Finish(_, _, _) => FinishIsGood(s, s', step);
    case Tick(_) =>
      hide GoodConfig, GoodGauges, NonNegative;
      forall o | 0 <= o < |s'.table.heap| ensures GoodObservation(s'.table.heap[o], s'.now) {
        assert GoodObservation(s.table.heap[o], s.now);
      }
    case _ => hide GoodObservation;
  }

  lemma {:induction false} RunIsGood(ss: seq<CollectorSystem.Sys>, steps: seq<CollectorSystem.Step>, k: nat)
    requires CollectorSystem.Run(ss, steps) && k < |ss| && ss[0].now > 0
    requires forall m | 0 <= m < |steps| :: GoodStep(ss[m], steps[m])
    ensures GoodTable(ss[k].table, ss[k].now) && ss[k].now > 0
  {
    hide GoodTable, GoodStep, CollectorSystem.Next, CollectorSystem.SysInv;
    if k == 0 {
      EmptyIsGood(ss[0].now);
    } else {
      RunIsGood(ss, steps, k - 1);
      CollectorSystem.RunKeeps(ss, steps, k - 1);
      InvIsExclusive(ss[k - 1]);
      StepIsGood(ss[k - 1], ss[k], steps[k - 1]);
    }
  }

  lemma EmptyIsGood(now: Time)
    ensures GoodTable(CollectorSystem.EMPTY_TABLE, now)
  {}

  lemma InvIsExclusive(s: CollectorSystem.Sys)
    requires CollectorSystem.SysInv(s)
    ensures CollectorSystem.Exclusive(s)
  {}

  // ---------- the contract ----------

  function Name(t: Table, index: nat): string
    requires Linked(t) && index < |t.order|
  {
    var id := t.order[index];
    assert id in t.entries;
    t.heap[t.entries[id]].config.vm.name
  }

  /** The last sample of the VM at this place. */
  function Sampled(t: Table, index: nat): VM
    requires Linked(t) && index < |t.order|
  {
    var id := t.order[index];
    assert id in t.entries;
    t.heap[t.entries[id]].vm
  }

  /** The entry at this place can be shown: its name is not too long and, while its sample is fresh, the QMP
      status is not too long and no counter is negative. */
  predicate EntryFits(t: Table, now: Time, index: nat)
    requires Linked(t) && index < |t.order|
  {
    |Name(t, index)| <= 255 && (Fresh(Sampled(t, index), now) ==> Showable(Sampled(t, index)))
  }

  /** The header can be shown: the host name is there and not too long, and an error has a text. */
  predicate HeaderFits(t: Table, host: string, now: Time, toValid: string -> string) {
    && |host| <= 255
    && match Problem(t, now)
       case None => host != ""
       case Some(err) => toValid(err) != ""
  }

  /** The inventory lists no VM twice and not too many, and header and entries can be shown. */
  ghost predicate Fits(t: Table, host: string, now: Time, toValid: string -> string)
    requires Linked(t)
  {
    && HeaderFits(t, host, now, toValid)
    && |t.order| <= 4096
    && (forall i, j | 0 <= i < j < |t.order| :: t.order[i] != t.order[j])
    && forall i: nat | i < |t.order| :: EntryFits(t, now, i)
  }

  lemma CountersAre(vm: VM)
    ensures ValidCounters(vm) <==>
              GoodGauges(vm) && AtLeastZero(vm.diskCapacity) && AtLeastZero(vm.diskRead) && AtLeastZero(vm.diskWrite)
              && AtLeastZero(vm.netIn) && AtLeastZero(vm.netOut)
  {
    if ValidCounters(vm) {
      forall i | 0 <= i < 9 ensures AtLeastZero(Counters(vm)[i]) {}
      assert Counters(vm) == [vm.cpus, vm.memory, vm.memoryLimit, vm.diskCapacity, vm.diskRead, vm.diskWrite, vm.netIn,
                              vm.netOut, vm.uptime];
      assert Counters(vm)[0] == vm.cpus && Counters(vm)[1] == vm.memory && Counters(vm)[2] == vm.memoryLimit;
      assert Counters(vm)[3] == vm.diskCapacity && Counters(vm)[4] == vm.diskRead && Counters(vm)[5] == vm.diskWrite;
      assert Counters(vm)[6] == vm.netIn && Counters(vm)[7] == vm.netOut && Counters(vm)[8] == vm.uptime;
    }
  }

  lemma ShownIsValid(t: Table, index: nat, now: Time)
    requires GoodTable(t, now) && index < |t.order|
    ensures var vm := Shown(t, index, now);
            && vm.id == t.order[index] && ValidFreshness(vm.collectedAt, vm.ttlSeconds, now)
            && (vm.cpu.Some? ==> NonNegative(vm.cpu.value)) && ValidRates(vm.netRateLimits)
            && (ValidIdentity(vm) && ValidCounters(vm) <==> EntryFits(t, now, index))
  {
    var id := t.order[index];
    assert id in t.entries;
    assert GoodObservation(t.heap[t.entries[id]], now);
    CountersAre(Shown(t, index, now));
    hide ValidRates, NonNegative, ValidCounters;
  }

  lemma AttachedIsValid(net: Netip, vm: VM, host: string, file: File, now: Time)
    requires ValidFreshness(vm.collectedAt, vm.ttlSeconds, now)
    requires (vm.cpu.Some? ==> NonNegative(vm.cpu.value)) && ValidRates(vm.netRateLimits)
    requires file.Readable? ==> ValidIPs(net, file.state.ips)
    ensures ValidVM(net, Attached(vm, host, file, now), now) <==> ValidIdentity(vm) && ValidCounters(vm)
    ensures Attached(vm, host, file, now).id == vm.id
  {
    hide ValidRates, NonNegative;
    assert Counters(Attached(vm, host, file, now)) == Counters(vm);
    assert ValidIPs(net, []);
  }

  lemma HeaderIsValid(t: Table, host: string, now: Time, guests: map<int, File>, toValid: string -> string)
    requires GoodTable(t, now) && now > 0 && GoodText(toValid)
    ensures ValidHeader(Assemble(t, host, now, guests, toValid)) <==>
              HeaderFits(t, host, now, toValid) && |t.order| <= MAX_VMS
    ensures |Vms(Assemble(t, host, now, guests, toValid))| == |t.order|
  {
    if Problem(t, now).Some? { ErrorTextFits(toValid, Problem(t, now).value); }
  }

  lemma EntryIsValid(net: Netip, t: Table, host: string, now: Time, guests: map<int, File>, toValid: string -> string,
                     i: nat)
    requires GoodTable(t, now) && GoodGuests(net, guests) && i < |Vms(Assemble(t, host, now, guests, toValid))|
    ensures i < |t.order|
    ensures Vms(Assemble(t, host, now, guests, toValid))[i].id == t.order[i]
    ensures ValidVM(net, Vms(Assemble(t, host, now, guests, toValid))[i], now) <==> EntryFits(t, now, i)
  {
    hide GoodObservation, ValidVM, EntryFits, Shown, Attached, ValidCounters, ValidIdentity;
    assert ValidIPs(net, NO_STATE.ips);
    ShownIsValid(t, i, now);
    AttachedIsValid(net, Shown(t, i, now), host, Contents(guests, t.order[i]), now);
  }

  lemma AssembledIsValid(net: Netip, t: Table, host: string, now: Time, guests: map<int, File>,
                         toValid: string -> string)
    requires GoodTable(t, now) && now > 0 && GoodGuests(net, guests) && GoodText(toValid)
    ensures ValidSnapshot(net, Assemble(t, host, now, guests, toValid)) <==> Fits(t, host, now, toValid)
  {
    hide ValidHeader, ValidVM, HeaderFits, EntryFits;
    var s := Assemble(t, host, now, guests, toValid);
    HeaderIsValid(t, host, now, guests, toValid);
    forall i: nat | i < |t.order|
      ensures Vms(s)[i].id == t.order[i] && (ValidVM(net, Vms(s)[i], now) <==> EntryFits(t, now, i))
    {
      EntryIsValid(net, t, host, now, guests, toValid, i);
    }
    SameDistinctness(Vms(s), t.order);
  }

  lemma SameDistinctness(vms: seq<VM>, order: seq<int>)
    requires |vms| == |order| && forall i: nat | i < |order| :: vms[i].id == order[i]
    ensures (forall i, j | 0 <= i < j < |vms| :: vms[i].id != vms[j].id) <==>
              (forall i, j | 0 <= i < j < |order| :: order[i] != order[j])
  {
    if forall i, j | 0 <= i < j < |vms| :: vms[i].id != vms[j].id {
      forall i, j | 0 <= i < j < |order| ensures order[i] != order[j] { assert vms[i].id != vms[j].id; }
    }
    if forall i, j | 0 <= i < j < |order| :: order[i] != order[j] {
      forall i, j | 0 <= i < j < |vms| ensures vms[i].id != vms[j].id { assert order[i] != order[j]; }
    }
  }

  /** In every state of every run with configurations and samples as their readers build them, a monotone
      clock and guest files written by `decodeIPs`, the snapshot passes `Validate` if and only if the
      inventory has no VM twice and at most 4096 of them, no name has more than 255 bytes, no fresh sample
      has a QMP status of more than 64 bytes or a negative counter, and the header can be shown. */
  lemma SnapshotValidExactly(ss: seq<CollectorSystem.Sys>, steps: seq<CollectorSystem.Step>, k: nat,
                             net: Netip, host: string, guests: map<int, File>, toValid: string -> string)
    requires CollectorSystem.Run(ss, steps) && k < |ss| && ss[0].now > 0
    requires forall m | 0 <= m < |steps| :: GoodStep(ss[m], steps[m])
    requires GoodGuests(net, guests) && GoodText(toValid)
    ensures Linked(ss[k].table)
    ensures ValidSnapshot(net, Assemble(ss[k].table, host, ss[k].now, guests, toValid)) <==>
              Fits(ss[k].table, host, ss[k].now, toValid)
  {
    RunIsGood(ss, steps, k);
    AssembledIsValid(net, ss[k].table, host, ss[k].now, guests, toValid);
  }

  // ---------- three snapshots that are refused ----------

  /** VM 7 as `parseConfig` reads it. */
  const SEVEN := Config(
    VM(7, "VM 7", "stopped", "", false, None, 0, None, 0, [], Some(1), None, None, Some(536870912), None,
       None, None, None, None, map[], None), "")

  /** With the entries `7.conf` and `07.conf`, `inventory` reads `7.conf` for both. It keeps both
      configurations, and the very next snapshot is refused. */
  lemma TwoFilesForOneVM(net: Netip, now: Time, host: string, toValid: string -> string)
    requires now > 0 && GoodText(toValid)
    ensures var t := Refreshed(CollectorSystem.EMPTY_TABLE, [SEVEN, SEVEN], now);
            && GoodInventory([SEVEN, SEVEN]) && Linked(t)
            && !ValidSnapshot(net, Assemble(t, host, now, map[], toValid))
  {
    var t := Refreshed(CollectorSystem.EMPTY_TABLE, [SEVEN, SEVEN], now);
    RefreshIsGood(CollectorSystem.EMPTY_TABLE, [SEVEN, SEVEN], now);
    assert t.order[0] == 7 && t.order[1] == 7;
    AssembledIsValid(net, t, host, now, map[], toValid);
  }

  /** A sample of VM 7 with this QMP status and this sum of bytes read. */
  function Sample(now: Time, qmpStatus: string, diskRead: int): VM {
    SEVEN.vm.(status := "running", qmpStatus := qmpStatus, collectedAt := Some(now), ttlSeconds := SNAPSHOT_TTL,
              diskRead := Some(diskRead))
  }

  /** The table after one worker has stored that sample. */
  function SampledSeven(now: Time, vm: VM): Table
    requires now > 0
  {
    var t := Refreshed(CollectorSystem.EMPTY_TABLE, [SEVEN], now);
    if |t.heap| > 0 then Finished(t, 0, 7, now, vm, NO_PROCESS, false) else t
  }

  lemma SampledSevenIsGood(now: Time, vm: VM)
    requires now > 0 && GoodSample(vm, 7, now)
    ensures var t := SampledSeven(now, vm); GoodTable(t, now) && t.order == [7] && Sampled(t, 0) == vm
  {
    var t := Refreshed(CollectorSystem.EMPTY_TABLE, [SEVEN], now);
    RefreshIsGood(CollectorSystem.EMPTY_TABLE, [SEVEN], now);
    ListingNext(CollectorSystem.EMPTY_TABLE, [SEVEN], 0, false);
    assert Listing(CollectorSystem.EMPTY_TABLE, [SEVEN], 0) == (map[], []);
    assert t.entries == map[7 := 0] && t.heap == [Unsampled(SEVEN)];
    assert GoodObservation(t.heap[0], now);
  }

  /** QEMU reports a status of 65 bytes: the collector stores it as it is, and the snapshot is refused. */
  lemma LongStatusIsRefused(net: Netip, now: Time, host: string, toValid: string -> string, status: string)
    requires now > 0 && GoodText(toValid) && |status| == 65
    ensures var vm := Sample(now, status, 0); var t := SampledSeven(now, vm);
            && GoodSample(vm, 7, now) && Linked(t)
            && !ValidSnapshot(net, Assemble(t, host, now, map[], toValid))
  {
    var vm := Sample(now, status, 0);
    SampledSevenIsGood(now, vm);
    AssembledIsValid(net, SampledSeven(now, vm), host, now, map[], toValid);
    assert !EntryFits(SampledSeven(now, vm), now, 0);
  }

  /** An `int64` sum wraps around. */
  function Wrapped(n: int): int { (n + 0x8000_0000_0000_0000) % 0x1_0000_0000_0000_0000 - 0x8000_0000_0000_0000 }

  /** Two disks of 2^62 bytes read each pass every check of `collectMonitor`; their sum is negative, and the
      snapshot is refused. */
  lemma WrappedSumIsRefused(net: Netip, now: Time, host: string, toValid: string -> string)
    requires now > 0 && GoodText(toValid)
    ensures var vm := Sample(now, "running", Wrapped(0x4000_0000_0000_0000 + 0x4000_0000_0000_0000));
            var t := SampledSeven(now, vm);
            && GoodSample(vm, 7, now) && Linked(t)
            && !ValidSnapshot(net, Assemble(t, host, now, map[], toValid))
  {
    var vm := Sample(now, "running", Wrapped(0x4000_0000_0000_0000 + 0x4000_0000_0000_0000));
    SampledSevenIsGood(now, vm);
    AssembledIsValid(net, SampledSeven(now, vm), host, now, map[], toValid);
    assert !EntryFits(SampledSeven(now, vm), now, 0);
  }

  // ---------- nothing stale is shown ----------

  /** What a reader of a snapshot may rely on, VM by VM. */
  lemma NothingStaleIsShown(t: Table, host: string, now: Time, guests: map<int, File>, toValid: string -> string,
                            i: nat)
    requires Linked(t) && i < |Vms(Assemble(t, host, now, guests, toValid))|
    ensures var vm := Vms(Assemble(t, host, now, guests, toValid))[i];
            && (Live(vm) ==> Fresh(vm, now))
            && (vm.diskCapacity.Some? ==> now - t.metadataAt < CAPACITY_TTL)
            && (vm.ips != [] || vm.ipsCollectedAt.Some? ==>
                  && vm.status == "running" && vm.qmpStatus == "running" && !vm.template && Fresh(vm, now)
                  && vm.ipsCollectedAt.Some? && now - vm.ipsCollectedAt.value <= GUEST_TTL == vm.ipsTtlSeconds * SECOND
                  && vm.uptime.Some? && vm.ipsCollectedAt.value >= vm.collectedAt.value - vm.uptime.value * SECOND)
  {
    hide Attached, Shown, Expire, Fresh, Live;
    ShownIsHonest(t, i, now);
    AttachedIsHonest(Shown(t, i, now), host, Contents(guests, t.order[i]), now);
  }

  lemma ShownIsHonest(t: Table, i: nat, now: Time)
    requires Linked(t) && i < |t.order|
    ensures var vm := Shown(t, i, now);
            (Live(vm) ==> Fresh(vm, now)) && (vm.diskCapacity.Some? ==> now - t.metadataAt < CAPACITY_TTL)
  {}

  lemma AttachedIsHonest(vm: VM, host: string, file: File, now: Time)
    requires Live(vm) ==> Fresh(vm, now)
    ensures var vm' := Attached(vm, host, file, now);
            && (Live(vm') ==> Fresh(vm', now)) && vm'.diskCapacity == vm.diskCapacity
            && (vm'.ips != [] || vm'.ipsCollectedAt.Some? ==>
                  && vm'.status == "running" && vm'.qmpStatus == "running" && !vm'.template && Fresh(vm', now)
                  && vm'.ipsCollectedAt.Some?
                  && now - vm'.ipsCollectedAt.value <= GUEST_TTL == vm'.ipsTtlSeconds * SECOND
                  && vm'.uptime.Some? && vm'.ipsCollectedAt.value >= vm'.collectedAt.value - vm'.uptime.value * SECOND)
  {}

  // ---------- the header tells how the last refresh went ----------

  /** The last step before `k` that tried to refresh the inventory, and the last one that succeeded. */
  ghost function LastAttempt(steps: seq<CollectorSystem.Step>, k: nat): Option<nat>
    requires k <= |steps|
  {
    if k == 0 then None
    else if steps[k - 1].Refresh? || steps[k - 1].RefreshFailed? then Some(k - 1)
    else LastAttempt(steps, k - 1)
  }

  ghost function LastSuccess(steps: seq<CollectorSystem.Step>, k: nat): (j: Option<nat>)
    requires k <= |steps|
    ensures j.Some? ==> j.value < k && steps[j.value].Refresh?
  {
    if k == 0 then None else if steps[k - 1].Refresh? then Some(k - 1) else LastSuccess(steps, k - 1)
  }

  lemma {:induction false} RefreshesAreRecorded(ss: seq<CollectorSystem.Sys>, steps: seq<CollectorSystem.Step>, k: nat)
    requires CollectorSystem.Run(ss, steps) && k < |ss|
    ensures var j := LastSuccess(steps, k); ss[k].table.inventoryAt == if j.Some? then ss[j.value].now else 0
    ensures var j := LastAttempt(steps, k);
            ss[k].table.inventoryErr ==
            if j.Some? && j.value < |steps| && steps[j.value].RefreshFailed? then Some(steps[j.value].err) else None
  {
    hide CollectorSystem.Next;
    if k > 0 {
      RefreshesAreRecorded(ss, steps, k - 1);
      StepRecords(ss[k - 1], ss[k], steps[k - 1]);
    }
  }

  lemma StepRecords(s: CollectorSystem.Sys, s': CollectorSystem.Sys, step: CollectorSystem.Step)
    requires CollectorSystem.Next(s, s', step)
    ensures s'.table.inventoryAt == if step.Refresh? then s.now else s.table.inventoryAt
    ensures s'.table.inventoryErr ==
            if step.Refresh? then None else if step.RefreshFailed? then Some(step.err) else s.table.inventoryErr
  {
    hide Listing, Ids, Linked;
  }

  lemma {:induction false} TimeStaysPositive(ss: seq<CollectorSystem.Sys>, steps: seq<CollectorSystem.Step>, k: nat)
    requires CollectorSystem.Run(ss, steps) && k < |ss| && ss[0].now > 0
    ensures ss[k].now > 0
  {
    if k > 0 {
      TimeStaysPositive(ss, steps, k - 1);
      assert CollectorSystem.Next(ss[k - 1], ss[k], steps[k - 1]);
    }
  }

  /** In every run a snapshot is "ok" exactly when the last attempt to refresh the inventory succeeded, at
      most ninety seconds ago, and it names the last success. Otherwise it says that the inventory is stale, or what
      the last attempt reported. Its other fields name the host and the time, and it lists VMs once a refresh has
      succeeded. */
  lemma StatusTellsLastRefresh(ss: seq<CollectorSystem.Sys>, steps: seq<CollectorSystem.Step>, k: nat,
                               host: string, guests: map<int, File>, toValid: string -> string)
    requires CollectorSystem.Run(ss, steps) && k < |ss| && ss[0].now > 0
    ensures Linked(ss[k].table)
    ensures var s, j := Assemble(ss[k].table, host, ss[k].now, guests, toValid), LastSuccess(steps, k);
            && (s.status == "ok" <==>
                  j.Some? && LastAttempt(steps, k) == j && ss[k].now - ss[j.value].now <= 90 * SECOND)
            && s.lastSuccessAt == (if j.Some? then Some(ss[j.value].now) else None)
            && (s.status == "ok" || s.status == "error") && (s.status == "ok" ==> s.error == "")
            && (s.status == "error" ==>
                  s.error == ErrorText(toValid, if j.None? || ss[k].now - ss[j.value].now > 90 * SECOND
                                                then "PVE inventory unavailable or expired"
                                                else ErrorOf(steps, LastAttempt(steps, k))))
            && s.schema == 1 && s.provider == "pve" && s.host == host && s.collectedAt == ss[k].now
            && s.ttlSeconds == 90
            && (s.vms.Some? <==> ss[k].table.listed)
  {
    CollectorSystem.RunKeeps(ss, steps, k);
    RefreshesAreRecorded(ss, steps, k);
    LastsAgree(steps, k);
    var j := LastSuccess(steps, k);
    if j.Some? { TimeStaysPositive(ss, steps, j.value); }
  }

  /** What the attempt of this step reported. */
  function ErrorOf(steps: seq<CollectorSystem.Step>, m: Option<nat>): string {
    if m.Some? && m.value < |steps| && steps[m.value].RefreshFailed? then steps[m.value].err else ""
  }

  lemma {:induction false} LastsAgree(steps: seq<CollectorSystem.Step>, k: nat)
    requires k <= |steps|
    ensures var a, j := LastAttempt(steps, k), LastSuccess(steps, k);
            && (a.Some? ==> a.value < k && (steps[a.value].Refresh? <==> a == j))
            && (a.Some? && !steps[a.value].Refresh? ==> steps[a.value].RefreshFailed?)
            && (a.None? ==> j.None?)
  {
    if k > 0 { LastsAgree(steps, k - 1); }
  }
}
