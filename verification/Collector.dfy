/** The sampling scheduler of the PVE helper (internal/pve/cache.go): eight workers rotate through due
    VMs while the inventory is replaced under them. */
module Collector {
  import opened Common
  import opened Virt

  const SAMPLE_INTERVAL: nat := 3 * SECOND
  const WORKERS := 8

  datatype Config = Config(vm: VM, agent: string)

  /** `processSample`. */
  datatype Process = Process(pid: int, start: nat, ticks: nat, at: Time)

  const NO_PROCESS := Process(0, 0, 0, 0)

  datatype Observation = Observation(config: Config, vm: VM, previous: Process, next: Time)

  /** `collector`. `entries` refers to observations by identity, an index into `heap`: a worker keeps its
      pointer after the entry is dropped. `changed` numbers the channels; channel `g` is closed once
      `changed` exceeds `g`. */
  datatype Table = Table(
    entries: map<int, nat>, heap: seq<Observation>, order: seq<int>, listed: bool,
    active: set<int>, cursor: nat, changed: nat,
    inventoryAt: Time, inventoryErr: Option<string>, capacities: map<int, int>, metadataAt: Time)

  // ---------- the locked sections ----------

  /** An observation nobody has sampled yet. */
  function Unsampled(config: Config): Observation {
    Observation(config, config.vm.(status := "unknown"), NO_PROCESS, 0)
  }

  /** Lines 58-71: the entries and observations after the first `k` configurations. Each is looked up in
      the table that is being replaced. */
  function Listing(t: Table, configs: seq<Config>, k: nat): (map<int, nat>, seq<Observation>)
    requires k <= |configs|
  {
    if k == 0 then (map[], t.heap)
    else
      var (entries, heap) := Listing(t, configs, k - 1);
      var config := configs[k - 1];
      if config.vm.id in t.entries && t.entries[config.vm.id] < |heap| then
        var o := t.entries[config.vm.id];
        (entries[config.vm.id := o], heap[o := heap[o].(config := config)])
      else
        (entries[config.vm.id := |heap|], heap + [Unsampled(config)])
  }

  lemma ListingNext(t: Table, configs: seq<Config>, k: nat, known: bool)
    requires k < |configs|
    requires known <==> configs[k].vm.id in t.entries && t.entries[configs[k].vm.id] < |Listing(t, configs, k).1|
    ensures var (entries, heap) := Listing(t, configs, k);
            Listing(t, configs, k + 1) ==
            if known
            then (entries[configs[k].vm.id := t.entries[configs[k].vm.id]],
                  heap[t.entries[configs[k].vm.id] := heap[t.entries[configs[k].vm.id]].(config := configs[k])])
            else (entries[configs[k].vm.id := |heap|], heap + [Unsampled(configs[k])])
  {}

  function Ids(configs: seq<Config>): seq<int> {
    seq(|configs|, i requires 0 <= i < |configs| => configs[i].vm.id)
  }

  /** `refreshInventory` once the inventory has been read. */
  function Refreshed(t: Table, configs: seq<Config>, now: Time): Table {
    var (entries, heap) := Listing(t, configs, |configs|);
    t.(entries := entries, heap := heap, order := Ids(configs), listed := true,
       inventoryAt := now, inventoryErr := None, changed := t.changed + 1)
  }

  predicate Linked(t: Table) {
    && (forall id | id in t.entries :: t.entries[id] < |t.heap| && t.heap[t.entries[id]].config.vm.id == id)
    && (forall i | 0 <= i < |t.order| :: t.order[i] in t.entries)
  }

  /** When the VM at this place of the order is next due. */
  function Due(t: Table, index: nat): Time
    requires Linked(t) && index < |t.order|
  {
    var id := t.order[index];
    assert id in t.entries;
    t.heap[t.entries[id]].next
  }

  predicate Idle(t: Table, index: nat)
    requires index < |t.order|
  {
    t.order[index] !in t.active
  }

  predicate Ready(t: Table, now: Time, index: nat)
    requires Linked(t) && index < |t.order|
  {
    Idle(t, index) && Due(t, index) <= now
  }

  /** The remainder that is not negative; the source takes it of numbers that are not negative either. */
  function Mod(a: int, n: nat): (r: nat)
    requires n > 0
    ensures r < n
  {
    a % n
  }

  function Wrap(place: nat, n: nat): (r: nat)
    requires n > 0
    ensures r < n
  {
    Mod(place, n)
  }

  function Place(t: Table, offset: nat): nat
    requires t.order != []
  {
    Wrap(t.cursor + offset, |t.order|)
  }

  datatype Pick = Handed(index: nat) | Nothing(wait: nat, channel: nat)

  /** How long `next` tells a worker to sleep at most: three seconds, or until an idle VM is due. */
  ghost predicate ShortestWait(t: Table, now: Time, wait: nat)
    requires Linked(t)
  {
    && wait <= SAMPLE_INTERVAL
    && (forall i: nat | i < |t.order| && Idle(t, i) :: now + wait <= Due(t, i))
    && (wait == SAMPLE_INTERVAL || exists i: nat :: i < |t.order| && Idle(t, i) && now + wait == Due(t, i))
  }

  ghost predicate FirstReady(t: Table, now: Time, offset: nat, index: nat)
    requires Linked(t) && t.order != []
  {
    && offset < |t.order| && index == Place(t, offset)
    && forall o: nat | o < offset :: !Ready(t, now, Place(t, o))
  }

  /** `next` hands out the first ready VM from the cursor on, or says how long there is none. */
  ghost predicate Next(t: Table, now: Time, p: Pick, t': Table)
    requires Linked(t)
  {
    match p
    case Handed(index) =>
      && index < |t.order| && Ready(t, now, index)
      && (exists offset: nat :: FirstReady(t, now, offset, index))
      && t' == t.(active := t.active + {t.order[index]}, cursor := Wrap(index + 1, |t.order|))
    case Nothing(wait, channel) =>
      && (forall i: nat | i < |t.order| :: !Ready(t, now, i))
      && wait > 0 && ShortestWait(t, now, wait)
      && channel == t.changed && t' == t
  }

  /** `worker`, lines 116-123: the sample is kept only by the very observation it was taken for. */
  function Finished(t: Table, o: nat, id: int, started: Time, vm: VM, process: Process, stopping: bool): Table
    requires o < |t.heap|
  {
    t.(active := t.active - {id},
       heap := if id in t.entries && t.entries[id] == o && !stopping
               then t.heap[o := t.heap[o].(vm := vm, previous := process, next := started + SAMPLE_INTERVAL)]
               else t.heap,
       changed := t.changed + 1)
  }

  // ---------- what refreshing keeps ----------

  /** No observation loses its sample, or its id, and the new ones hold no sample. */
  ghost predicate Grows(before: seq<Observation>, heap: seq<Observation>) {
    && |before| <= |heap|
    && (forall o | 0 <= o < |before| ::
          heap[o].(config := before[o].config) == before[o] && heap[o].config.vm.id == before[o].config.vm.id)
    && forall o | |before| <= o < |heap| :: heap[o] == Unsampled(heap[o].config)
  }

  /** An id that was listed keeps its observation; any other one gets an observation that is new. */
  ghost predicate Inherits(t: Table, entries: map<int, nat>, heap: seq<Observation>) {
    forall id | id in entries ::
      && entries[id] < |heap| && heap[entries[id]].config.vm.id == id
      && if id in t.entries then entries[id] == t.entries[id] else entries[id] >= |t.heap|
  }

  lemma {:induction false} ListingGrows(t: Table, configs: seq<Config>, k: nat)
    requires Linked(t) && k <= |configs|
    ensures Grows(t.heap, Listing(t, configs, k).1)
  {
    if k > 0 {
      ListingGrows(t, configs, k - 1);
      var heap := Listing(t, configs, k - 1).1;
      var config := configs[k - 1];
      if config.vm.id in t.entries {
        assert t.heap[t.entries[config.vm.id]].config.vm.id == config.vm.id;
      }
    }
  }

  lemma {:induction false} ListingInherits(t: Table, configs: seq<Config>, k: nat)
    requires Linked(t) && k <= |configs|
    ensures Inherits(t, Listing(t, configs, k).0, Listing(t, configs, k).1)
  {
    hide Inherits;
    if k == 0 {
      NothingInherits(t);
    } else {
      ListingInherits(t, configs, k - 1);
      ListingGrows(t, configs, k - 1);
      var (entries, heap) := Listing(t, configs, k - 1);
      InheritsOne(t, entries, heap, configs[k - 1]);
    }
  }

  lemma NothingInherits(t: Table)
    ensures Inherits(t, map[], t.heap)
  {}

  lemma InheritsOne(t: Table, entries: map<int, nat>, heap: seq<Observation>, config: Config)
    requires Linked(t) && |t.heap| <= |heap| && Inherits(t, entries, heap)
    ensures var id := config.vm.id;
            if id in t.entries && t.entries[id] < |heap|
            then Inherits(t, entries[id := t.entries[id]],
                          heap[t.entries[id] := heap[t.entries[id]].(config := config)])
            else Inherits(t, entries[id := |heap|], heap + [Unsampled(config)])
  {}

  /** The entries are those of the inventory, each with the configuration last given for it. */
  lemma {:induction false} ListingCovers(t: Table, configs: seq<Config>, k: nat)
    requires Linked(t) && k <= |configs|
    ensures forall i | 0 <= i < k :: configs[i].vm.id in Listing(t, configs, k).0
    ensures forall id | id in Listing(t, configs, k).0 :: exists i | 0 <= i < k :: configs[i].vm.id == id
  {
    if k > 0 { ListingCovers(t, configs, k - 1); }
  }

  lemma RefreshedLinked(t: Table, configs: seq<Config>, now: Time)
    requires Linked(t)
    ensures Linked(Refreshed(t, configs, now))
    ensures Grows(t.heap, Refreshed(t, configs, now).heap)
    ensures Inherits(t, Refreshed(t, configs, now).entries, Refreshed(t, configs, now).heap)
  {
    ListingGrows(t, configs, |configs|);
    ListingInherits(t, configs, |configs|);
    ListingCovers(t, configs, |configs|);
  }

  // ---------- fairness of the rotation ----------

  /** How many places the cursor has to pass before it reaches `p`. */
  function Distance(cursor: nat, p: nat, n: nat): nat
    requires p < n
  {
    Mod(p - cursor, n)
  }

  lemma Multiples(k: int, n: int)
    requires n > 0
    ensures k >= 1 ==> k * n >= n
    ensures k <= -1 ==> k * n <= -n
  {}

  lemma Distribute(a: int, b: int, n: int)
    ensures (a + b) * n == a * n + b * n
  {}

  lemma Split(a: int, n: int) returns (k: int)
    requires n > 0
    ensures a == k * n + a % n && 0 <= a % n < n
  {
    k := a / n;
  }

  lemma ModUnique(a: int, n: int, q: int, r: int)
    requires 0 < n && 0 <= r < n && a == q * n + r
    ensures a % n == r
  {
    var k := Split(a, n);
    Distribute(q, -k, n);
    Multiples(q - k, n);
  }

  /** Place `p` is the one at its distance from the cursor, wherever the cursor is: it may lie beyond
      an order that has shrunk. */
  lemma DistanceReaches(cursor: nat, p: nat, n: nat)
    requires p < n
    ensures Distance(cursor, p, n) < n && (cursor + Distance(cursor, p, n)) % n == p
  {
    var k := Split(p - cursor, n);
    Distribute(k, -k, n);
    ModUnique(cursor + Distance(cursor, p, n), n, -k, p);
  }

  function Times(k: int, n: int): int { k * n }

  lemma SplitMod(a: int, n: nat) returns (k: int)
    requires n > 0
    ensures a == Times(k, n) + Mod(a, n)
  {
    k := Split(a, n);
  }

  lemma TimesAdds(a: int, b: int, n: int)
    ensures Times(a + b, n) == Times(a, n) + Times(b, n)
  {
    Distribute(a, b, n);
  }

  lemma ModIs(a: int, n: nat, q: int, r: nat)
    requires r < n && a == Times(q, n) + r
    ensures Mod(a, n) == r
  {
    ModUnique(a, n, q, r);
  }

  lemma ModApproaches(cursor: nat, offset: nat, p: nat, n: nat)
    requires p < n && offset < Mod(p - cursor, n)
    ensures Mod(p - Mod(Mod(cursor + offset, n) + 1, n), n) == Mod(p - cursor, n) - offset - 1
  {
    hide Times, Mod;
    var index := Mod(cursor + offset, n);
    var cursor' := Mod(index + 1, n);
    var k1 := SplitMod(cursor + offset, n);
    var k2 := SplitMod(index + 1, n);
    var k3 := SplitMod(p - cursor, n);
    TimesAdds(k1, k2, n);
    TimesAdds(k1 + k2, k3, n);
    ModIs(p - cursor', n, k1 + k2 + k3, Mod(p - cursor, n) - offset - 1);
  }

  /** Handing out the place at a smaller distance brings the cursor strictly closer to `p`. */
  lemma CursorApproaches(cursor: nat, offset: nat, p: nat, n: nat)
    requires p < n && offset < Distance(cursor, p, n)
    ensures Distance(Wrap(Wrap(cursor + offset, n) + 1, n), p, n) == Distance(cursor, p, n) - offset - 1
  {
    hide Mod;
    ModApproaches(cursor, offset, p, n);
  }

  /** The place that a scan looks at after `offset` others is at that distance. */
  lemma OffsetIsDistance(cursor: nat, offset: nat, n: nat)
    requires offset < n
    ensures Distance(cursor, Wrap(cursor + offset, n), n) == offset
  {
    hide Times, Mod;
    var k := SplitMod(cursor + offset, n);
    TimesAdds(k, -k, n);
    TimesNone(n);
    ModIs(Wrap(cursor + offset, n) - cursor, n, -k, offset);
  }

  lemma TimesNone(n: int)
    ensures Times(0, n) == 0
  {}

  lemma PlaceAt(t: Table, place: nat)
    requires place < |t.order|
    ensures Place(t, Distance(t.cursor, place, |t.order|)) == place
    ensures Distance(t.cursor, place, |t.order|) < |t.order|
  {
    DistanceReaches(t.cursor, place, |t.order|);
  }

  lemma PlaceApproaches(t: Table, offset: nat, place: nat)
    requires place < |t.order| && offset < Distance(t.cursor, place, |t.order|)
    ensures Distance(Wrap(Place(t, offset) + 1, |t.order|), place, |t.order|) < Distance(t.cursor, place, |t.order|)
  {
    CursorApproaches(t.cursor, offset, place, |t.order|);
  }

  /** The scan has passed `offset` places: none is ready, and `wait` is the least of three seconds and the
      time until an idle one of them is due. */
  ghost predicate Scanned(t: Table, now: Time, offset: nat, wait: nat)
    requires Linked(t) && offset <= |t.order|
  {
    && 0 < wait <= SAMPLE_INTERVAL
    && (forall o: nat | o < offset :: !Ready(t, now, Place(t, o)))
    && (forall o: nat | o < offset && Idle(t, Place(t, o)) :: now + wait <= Due(t, Place(t, o)))
    && (wait == SAMPLE_INTERVAL
        || exists o: nat :: o < offset && Idle(t, Place(t, o)) && now + wait == Due(t, Place(t, o)))
  }

  lemma ScanStarts(t: Table, now: Time)
    requires Linked(t)
    ensures Scanned(t, now, 0, SAMPLE_INTERVAL)
  {}

  lemma ScanPasses(t: Table, now: Time, offset: nat, wait: nat, wait': nat)
    requires Linked(t) && offset < |t.order| && Scanned(t, now, offset, wait)
    requires var p := Place(t, offset);
             if Idle(t, p) then Due(t, p) > now && wait' == (if Due(t, p) - now < wait then Due(t, p) - now else wait)
             else wait' == wait
    ensures Scanned(t, now, offset + 1, wait')
  {
    hide Wrap;
    if wait' != wait {
      assert Idle(t, Place(t, offset)) && now + wait' == Due(t, Place(t, offset));
    }
  }

  lemma ScanFinds(t: Table, now: Time, offset: nat, wait: nat)
    requires Linked(t) && offset < |t.order| && Scanned(t, now, offset, wait) && Ready(t, now, Place(t, offset))
    ensures FirstReady(t, now, offset, Place(t, offset))
  {}

  /** A scan of `|order|` places from the cursor on sees every one of them. */
  lemma ScanIsComplete(t: Table, now: Time, wait: nat)
    requires Linked(t) && Scanned(t, now, |t.order|, wait)
    ensures wait > 0
    ensures forall i: nat | i < |t.order| :: !Ready(t, now, i)
    ensures ShortestWait(t, now, wait)
  {
    forall i: nat | i < |t.order| ensures !Ready(t, now, i) && (Idle(t, i) ==> now + wait <= Due(t, i)) {
      PlaceAt(t, i);
      var o := Distance(t.cursor, i, |t.order|);
      assert !Ready(t, now, Place(t, o));
    }
    if wait != SAMPLE_INTERVAL {
      var o: nat :| o < |t.order| && Idle(t, Place(t, o)) && now + wait == Due(t, Place(t, o));
      var i := Place(t, o);
      assert i < |t.order| && Idle(t, i) && now + wait == Due(t, i);
    }
  }

  /** A ready VM is handed out, or the cursor gets closer to it. */
  lemma PickApproaches(t: Table, now: Time, p: Pick, t': Table, place: nat)
    requires Linked(t) && Next(t, now, p, t')
    requires place < |t.order| && Ready(t, now, place)
    ensures p.Handed?
    ensures p.index != place ==> Distance(t'.cursor, place, |t.order|) < Distance(t.cursor, place, |t.order|)
  {
    hide Place, Distance, Wrap;
    PlaceAt(t, place);
    var offset: nat :| FirstReady(t, now, offset, p.index);
    if offset < Distance(t.cursor, place, |t.order|) { PlaceApproaches(t, offset, place); }
  }
}
