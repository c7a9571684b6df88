/** `collector` and `observation` as the source writes them: shared objects changed in place under `mu`.
    Every method is one locked section and is proved to do what `Collector` and `Assembly` say. */
module CollectorObjects {
  import opened Common
  import opened Virt
  import opened Collector
  import opened GuestCollector
  import opened Assembly

  class Cell {
    ghost const id: nat
    var config: Config
    var vm: VM
    var previous: Process
    var next: Time

    constructor (ghost id: nat, config: Config)
      ensures this.id == id && Is(Unsampled(config))
    {
      this.id := id;
      this.config, vm, previous, next := config, config.vm.(status := "unknown"), NO_PROCESS, 0;
    }

    /** Lines 118-120. */
    method Keep(vm: VM, process: Process, next: Time)
      modifies this`vm, this`previous, this`next
      ensures forall ob | old(Is(ob)) :: Is(ob.(vm := vm, previous := process, next := next))
    {
      this.vm, previous, this.next := vm, process, next;
    }

    ghost predicate Is(ob: Observation)
      reads this
    {
      ob == Observation(config, vm, previous, next)
    }
  }

  /** `made[o]` is the object behind identity `o`. */
  ghost predicate Objects(made: seq<Cell>, heap: seq<Observation>)
    reads made
  {
    && |made| == |heap|
    && forall o | 0 <= o < |made| :: made[o].id == o && made[o].Is(heap[o])
  }

  lemma DistinctObjects(made: seq<Cell>, heap: seq<Observation>, o: nat)
    requires Objects(made, heap) && o < |made|
    ensures forall p | 0 <= p < |made| && p != o :: made[p] != made[o]
  {}

  ghost predicate Entries(entries: map<int, Cell>, made: seq<Cell>, ids: map<int, nat>) {
    && entries.Keys == ids.Keys
    && forall id | id in entries :: ids[id] < |made| && entries[id] == made[ids[id]]
  }

  lemma NoEntries(made: seq<Cell>)
    ensures Entries(map[], made, map[])
  {}

  lemma EntriesAreMade(entries: map<int, Cell>, made: seq<Cell>, ids: map<int, nat>)
    requires Entries(entries, made, ids)
    ensures forall id | id in entries :: entries[id] in made
  {}

  lemma SameLength(made: seq<Cell>, heap: seq<Observation>)
    requires Objects(made, heap)
    ensures |made| == |heap|
  {}

  lemma ListingStarts(t: Table, configs: seq<Config>)
    ensures Listing(t, configs, 0) == (map[], t.heap)
  {}

  lemma RefreshedFields(t: Table, configs: seq<Config>, now: Time)
    ensures var (ids, heap) := Listing(t, configs, |configs|);
            Refreshed(t, configs, now) == Table(ids, heap, Ids(configs), true, t.active, t.cursor, t.changed + 1,
                                                now, None, t.capacities, t.metadataAt)
  {}

  lemma EntryAdded(entries: map<int, Cell>, made: seq<Cell>, ids: map<int, nat>, made': seq<Cell>, id: int, cell: Cell)
    requires Entries(entries, made, ids) && made <= made' && cell.id < |made'| && made'[cell.id] == cell
    ensures Entries(entries, made', ids) && Entries(entries[id := cell], made', ids[id := cell.id])
  {}

  lemma Busy(t: Table, index: nat)
    requires index < |t.order| && t.order[index] in t.active
    ensures !Idle(t, index)
  {}

  lemma Free(t: Table, index: nat)
    requires index < |t.order| && t.order[index] !in t.active
    ensures Idle(t, index)
  {}

  lemma FinishedLinked(t: Table, o: nat, id: int, started: Time, vm: VM, process: Process, stopping: bool)
    requires Linked(t) && o < |t.heap|
    ensures Linked(Finished(t, o, id, started, vm, process, stopping))
  {}

  class CollectorCache {
    var entries: map<int, Cell>
    var order: seq<int>
    var listed: bool
    var active: set<int>
    var cursor: nat
    var changed: nat
    var inventoryAt: Time
    var inventoryErr: Option<string>
    var capacities: map<int, int>
    var metadataAt: Time
    /** Every observation ever made, in order, and the value that all fields stand for. */
    ghost var made: seq<Cell>
    ghost var state: Table

    ghost predicate Valid()
      reads this, made
    {
      && |made| == |state.heap|
      && Objects(made, state.heap)
      && Entries(entries, made, state.entries)
      && Linked(state)
      && state == Table(state.entries, state.heap, order, listed, active, cursor, changed, inventoryAt, inventoryErr,
                        capacities, metadataAt)
    }

    constructor ()
      ensures Valid() && state == Table(map[], [], [], false, {}, 0, 0, 0, None, map[], 0)
    {
      entries, order, listed, active, cursor, changed := map[], [], false, {}, 0, 0;
      inventoryAt, inventoryErr, capacities, metadataAt, made := 0, None, map[], 0, [];
      state := Table(map[], [], [], false, {}, 0, 0, 0, None, map[], 0);
    }

    /** `notify`: close the current channel and open the next one. */
    method Notify()
      modifies this`changed
      ensures changed == old(changed) + 1
    {
      changed := changed + 1;
    }

    /** Lines 61-69 for one configuration: the entry it had, or a new one. */
    method Adopt(config: Config, ghost heap: seq<Observation>) returns (entry: Cell, ghost heap': seq<Observation>)
      requires Objects(made, heap) && Entries(entries, made, state.entries)
      modifies this`made, if config.vm.id in entries then {entries[config.vm.id]} else {}
      ensures Objects(made, heap') && Entries(entries, made, state.entries)
      ensures old(made) <= made && entry.id < |made| && made[entry.id] == entry && fresh(made[|old(made)|..])
      ensures if config.vm.id in entries
              then config.vm.id in state.entries && state.entries[config.vm.id] < |heap|
                   && entry == entries[config.vm.id]
                   && entry.id == state.entries[config.vm.id] && made == old(made)
                   && heap' == heap[entry.id := heap[entry.id].(config := config)]
              else fresh(entry) && entry.id == |heap| && made == old(made) + [entry]
                   && heap' == heap + [Unsampled(config)]
    {
      var id := config.vm.id;
      if id in entries {
        entry := entries[id];
        DistinctObjects(made, heap, entry.id);
        heap' := heap[entry.id := heap[entry.id].(config := config)];
        entry.config := config;
      } else {
        entry := new Cell(|heap|, config);
        heap' := heap + [Unsampled(config)];
        made := made + [entry];
      }
    }

    /** Lines 58-71: the new entries and the new order. */
    method List(configs: seq<Config>)
      returns (entries': map<int, Cell>, order': seq<int>, ghost heap: seq<Observation>, ghost ids: map<int, nat>)
      requires Objects(made, state.heap) && Entries(entries, made, state.entries)
      modifies this`made, made
      ensures Objects(made, heap) && Entries(entries', made, ids) && (ids, heap) == Listing(state, configs, |configs|)
      ensures order' == Ids(configs)
      ensures old(made) <= made && fresh(made[|old(made)|..])
    {
      hide Unsampled, Entries, Objects, Listing;
      entries', order', heap, ids := map[], [], state.heap, map[];
      assert Listing(state, configs, 0) == (ids, heap) by { ListingStarts(state, configs); }
      assert Entries(map[], made, map[]) by { NoEntries(made); }
      EntriesAreMade(entries, made, state.entries);
      for k := 0 to |configs|
        modifies this`made, made
        invariant Objects(made, heap) && Entries(entries, made, state.entries)
        invariant forall id | id in entries :: entries[id] in old(made)
        invariant old(made) <= made && fresh(made[|old(made)|..])
        invariant (ids, heap) == Listing(state, configs, k)
        invariant Entries(entries', made, ids)
        invariant order' == Ids(configs)[..k]
      {
        var config := configs[k];
        ghost var made0 := made;
        var entry;
        entry, heap := Adopt(config, heap);
        EntryAdded(entries', made0, ids, made, config.vm.id, entry);
        ListingNext(state, configs, k, config.vm.id in entries);
        assert made[|old(made)|..] == made0[|old(made)|..] + made[|made0|..];
        entries' := entries'[config.vm.id := entry];
        ids := ids[config.vm.id := entry.id];
        order' := order' + [config.vm.id];
      }
    }

    /** Lines 54 and 72-73: the new entries and order replace the old ones, and the channel is closed. */
    method Install(entries': map<int, Cell>, order': seq<int>, configs: seq<Config>, now: Time)
      requires Linked(Refreshed(state, configs, now)) && Objects(made, Refreshed(state, configs, now).heap)
      requires Entries(entries', made, Refreshed(state, configs, now).entries) && order' == Ids(configs)
      requires state == Table(state.entries, state.heap, order, listed, active, cursor, changed, inventoryAt,
                              inventoryErr, capacities, metadataAt)
      modifies this`entries, this`order, this`listed, this`inventoryAt, this`inventoryErr, this`changed, this`state
      ensures Valid() && state == Refreshed(old(state), configs, now)
    {
      hide Linked, Entries, Objects, Listing, Ids, Refreshed;
      RefreshedFields(state, configs, now);
      SameLength(made, Refreshed(state, configs, now).heap);
      entries, order, listed, inventoryAt, inventoryErr := entries', order', true, now, None;
      Notify();
      state := Refreshed(state, configs, now);
    }

    /** `refreshInventory` once the inventory has been read. */
    method RefreshInventory(configs: seq<Config>, now: Time)
      requires Valid()
      modifies this, made
      ensures Valid() && state == Refreshed(old(state), configs, now)
      ensures old(made) <= made && fresh(made[|old(made)|..])
    {
      hide Linked, Unsampled, Entries, Objects, Listing, Ids, Refreshed;
      var entries', order';
      ghost var heap, ids;
      entries', order', heap, ids := List(configs);
      RefreshedLinked(state, configs, now);
      RefreshedFields(state, configs, now);
      Install(entries', order', configs, now);
    }

    /** `refreshInventory` when the inventory cannot be read. */
    method RefreshFailed(err: string)
      requires Valid()
      modifies this`inventoryErr, this`state
      ensures Valid() && state == old(state).(inventoryErr := Some(err))
    {
      inventoryErr := Some(err);
      state := state.(inventoryErr := Some(err));
    }

    /** `next`: the first VM from the cursor on that is idle and due, or how long there is none. */
    method Next(now: Time) returns (pick: Pick, entry: Cell?)
      requires Valid()
      modifies this`active, this`cursor, this`state
      ensures Valid() && Collector.Next(old(state), now, pick, state)
      ensures entry != null <==> pick.Handed?
      ensures pick.Handed? ==> order[pick.index] in entries && entries[order[pick.index]] == entry
    {
      hide Wrap, Scanned, Idle, FirstReady, Linked, Objects, Entries;
      var wait: nat := SAMPLE_INTERVAL;
      ScanStarts(state, now);
      for offset := 0 to |order|
        invariant state == old(state) && Valid()
        invariant Scanned(state, now, offset, wait)
      {
        var index := Wrap(cursor + offset, |order|);
        var id := order[index];
        var candidate := EntryAt(index);
        assert index == Place(state, offset);
        if id in active {
          Busy(state, index);
          ScanPasses(state, now, offset, wait, wait);
          continue;
        }
        Free(state, index);
        if candidate.next > now {
          var left := candidate.next - now;
          ScanPasses(state, now, offset, wait, if left < wait then left else wait);
          if left < wait { wait := left; }
          continue;
        }
        ScanFinds(state, now, offset, wait);
        HandOut(index);
        return Handed(index), candidate;
      }
      ScanIsComplete(state, now, wait);
      return Nothing(wait, changed), null;
    }

    /** Lines 92-93. */
    method HandOut(index: nat)
      requires Valid() && index < |order|
      modifies this`active, this`cursor, this`state
      ensures Valid()
      ensures state == old(state).(active := old(state).active + {order[index]}, cursor := Wrap(index + 1, |order|))
    {
      hide Objects, Entries, Wrap;
      active := active + {order[index]};
      cursor := Wrap(index + 1, |order|);
      state := state.(active := active, cursor := cursor);
    }

    /** Lines 83-84. */
    method EntryAt(index: nat) returns (entry: Cell)
      requires Valid() && index < |order|
      ensures order[index] in entries && entries[order[index]] == entry && entry.next == Collector.Due(state, index)
    {
      var id := order[index];
      assert id in state.entries;
      entry := entries[id];
      assert entry.Is(state.heap[state.entries[id]]);
    }

    /** Lines 118-121: the sample is stored through the pointer that the worker was handed. */
    method Store(entry: Cell, ghost o: nat, id: int, started: Time, vm: VM, process: Process, stopping: bool)
      requires Objects(made, state.heap) && Entries(entries, made, state.entries) && o < |made| && made[o] == entry
      modifies entry
      ensures o < |state.heap|
      ensures Objects(made, Finished(state, o, id, started, vm, process, stopping).heap)
    {
      DistinctObjects(made, state.heap, o);
      assert entry.Is(state.heap[o]);
      if id in entries && entries[id] == entry && !stopping {
        assert state.entries[id] == o;
        entry.Keep(vm, process, started + SAMPLE_INTERVAL);
      }
    }

    /** `worker`, lines 116-123. */
    method Finish(entry: Cell, ghost o: nat, id: int, started: Time, vm: VM, process: Process, stopping: bool)
      requires Valid() && o < |made| && made[o] == entry
      modifies this`active, this`changed, this`state, entry
      ensures o < |old(state).heap|
      ensures Valid() && state == Finished(old(state), o, id, started, vm, process, stopping)
    {
      hide Linked, Objects, Entries;
      SameLength(made, state.heap);
      FinishedLinked(state, o, id, started, vm, process, stopping);
      active := active - {id};
      Store(entry, o, id, started, vm, process, stopping);
      Notify();
      state := Finished(state, o, id, started, vm, process, stopping);
      SameLength(made, state.heap);
    }

    /** `metadata`, lines 65-67. */
    method Metadata(capacities: map<int, int>, now: Time)
      requires Valid()
      modifies this`capacities, this`metadataAt, this`state
      ensures Valid() && state == old(state).(capacities := capacities, metadataAt := now)
    {
      this.capacities, metadataAt := capacities, now;
      state := state.(capacities := capacities, metadataAt := now);
    }

    /** Lines 142-155: the loop over the order. */
    method ListVMs(now: Time) returns (vms: seq<VM>)
      requires Valid()
      ensures |vms| == |order| && forall i: nat | i < |order| :: vms[i] == Shown(state, i, now)
    {
      hide Expire;
      vms := [];
      for k := 0 to |order|
        invariant |vms| == k && forall i: nat | i < k :: vms[i] == Shown(state, i, now)
      {
        var vm := ShowVM(k, now);
        vms := vms + [vm];
      }
    }

    /** Lines 145-153 for one VM. */
    method ShowVM(k: nat, now: Time) returns (vm: VM)
      requires Valid() && k < |order|
      ensures vm == Shown(state, k, now)
    {
      hide Expire;
      var id := order[k];
      assert id in state.entries;
      var entry := entries[id];
      assert entry.Is(state.heap[state.entries[id]]);
      vm := entry.vm;
      vm := vm.(name := entry.config.vm.name, netRateLimits := entry.config.vm.netRateLimits, diskCapacity := None);
      if now - metadataAt < CAPACITY_TTL && id in capacities { vm := vm.(diskCapacity := Some(capacities[id])); }
      vm := Expire(vm, now);
    }

    /** `snapshot`, and `AttachGuestIPs` on its VMs. */
    method TakeSnapshot(host: string, now: Time, guests: map<int, File>, toValid: string -> string)
      returns (s: Snapshot)
      requires Valid()
      ensures s == Assemble(state, host, now, guests, toValid)
    {
      hide Objects, Entries, Shown, Attached, ErrorText;
      s := Snapshot(1, "pve", host, now, None, SNAPSHOT_TTL, "ok", "", None);
      if inventoryAt != 0 { s := s.(lastSuccessAt := Some(inventoryAt)); }
      var err := inventoryErr;
      if inventoryAt == 0 || now - inventoryAt > SNAPSHOT_TTL * SECOND { err := Some(STALE); }
      if err.Some? { s := s.(status := "error", error := ErrorText(toValid, err.value)); }
      if listed {
        var vms := ListVMs(now);
        vms := AttachGuestIPs(vms, order, host, guests, now);
        assert vms == Views(state, host, now, guests);
        s := s.(vms := Some(vms));
      }
    }
  }

  /** `AttachGuestIPs`; `ids` are the ids of the VMs. */
  method AttachGuestIPs(vms: seq<VM>, ids: seq<int>, host: string, guests: map<int, File>, now: Time)
    returns (vms': seq<VM>)
    requires |vms| == |ids|
    ensures |vms'| == |vms| && forall i: nat | i < |vms| ::
              vms'[i] == Attached(vms[i], host, Contents(guests, ids[i]), now)
  {
    hide Eligible;
    vms' := vms;
    for k := 0 to |vms|
      invariant |vms'| == |vms|
      invariant forall i: nat | i < k :: vms'[i] == Attached(vms[i], host, Contents(guests, ids[i]), now)
      invariant forall i: nat | k <= i < |vms| :: vms'[i] == vms[i]
    {
      var vm := vms'[k].(ips := [], ipsCollectedAt := None, ipsTtlSeconds := 0);
      var file := Contents(guests, ids[k]);
      if Eligible(vms[k]) && Usable(vms[k], host, file, now) {
        vm := vm.(ips := file.state.ips, ipsCollectedAt := Some(file.state.collectedAt),
                  ipsTtlSeconds := GUEST_TTL / SECOND);
      }
      vms' := vms'[k := vm];
    }
  }
}
