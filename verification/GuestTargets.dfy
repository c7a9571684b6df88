/** Where the targets of a round come from (internal/pve/guest_cache.go, `CollectGuests`; internal/pve/serve.go,
    where the collector's snapshot is passed on without being validated). */
module GuestTargets {
  import opened Common
  import opened Virt
  import opened Assembly
  import opened Collector
  import opened GuestCollector
  import opened GuestBackoff
  import GuestSystem
  import CollectorSystem

  /** What `readConfig` and `readProcess` find for a VM, if neither fails. */
  datatype Boot = Boot(start: nat, agent: string)

  function TargetOf(vm: VM, boot: Boot): Target { Target(vm.id, boot.start, boot.agent) }

  /** The eligible VMs that could be read; `boots(k)` is what was found for the `k`-th. */
  function TargetsOf(vms: seq<VM>, boots: nat -> Option<Boot>): seq<Target> {
    if vms == [] then []
    else
      var k: nat := |vms| - 1;
      TargetsOf(vms[..k], boots)
      + (if Eligible(vms[k]) && boots(k).Some? then [TargetOf(vms[k], boots(k).value)] else [])
  }

  predicate DistinctVMs(vms: seq<VM>) { forall i, j | 0 <= i < j < |vms| :: vms[i].id != vms[j].id }

  /** Lines 98-122: only a fresh inventory without an error is collected from. */
  method CollectTargets(snapshot: Snapshot, now: Time, boots: nat -> Option<Boot>)
    returns (targets: Option<seq<Target>>)
    ensures targets.Some? <==>
            snapshot.status == "ok" && snapshot.collectedAt <= now
            && now - snapshot.collectedAt <= snapshot.ttlSeconds * SECOND
    ensures targets.Some? ==> targets.value == TargetsOf(Vms(snapshot), boots)
    ensures targets.Some? ==> exists places :: Places(Vms(snapshot), boots, places, targets.value)
  {
    if snapshot.status != "ok" || snapshot.collectedAt > now
       || now - snapshot.collectedAt > snapshot.ttlSeconds * SECOND
    {
      return None;
    }
    var vms, found := Vms(snapshot), [];
    for k := 0 to |vms|
      invariant found == TargetsOf(vms[..k], boots)
    {
      assert vms[..k + 1][..k] == vms[..k];
      if !Eligible(vms[k]) { continue; }
      if boots(k).Some? { found := found + [TargetOf(vms[k], boots(k).value)]; }
    }
    assert vms[..|vms|] == vms;
    ghost var places := TargetsExactly(vms, boots);
    return Some(found);
  }

  /** The VM runs by every account, and could be read. */
  predicate Found(vms: seq<VM>, boots: nat -> Option<Boot>, k: nat) {
    && k < |vms| && vms[k].status == "running" && vms[k].qmpStatus == "running" && !vms[k].template
    && boots(k).Some?
  }

  predicate Stands(vms: seq<VM>, boots: nat -> Option<Boot>, k: nat, target: Target) {
    Found(vms, boots, k) && target == Target(vms[k].id, boots(k).value.start, boots(k).value.agent)
  }

  lemma FoundBefore(vms: seq<VM>, boots: nat -> Option<Boot>, n: nat)
    requires n <= |vms|
    ensures forall k: nat :: Found(vms[..n], boots, k) <==> k < n && Found(vms, boots, k)
    ensures forall k: nat, target :: Stands(vms[..n], boots, k, target) <==> k < n && Stands(vms, boots, k, target)
  {}

  lemma LastTarget(vms: seq<VM>, boots: nat -> Option<Boot>)
    requires vms != []
    ensures var n: nat := |vms| - 1;
            && (Found(vms, boots, n) ==>
                  exists target :: Stands(vms, boots, n, target)
                                   && TargetsOf(vms, boots) == TargetsOf(vms[..n], boots) + [target])
            && (!Found(vms, boots, n) ==> TargetsOf(vms, boots) == TargetsOf(vms[..n], boots))
  {
    var n: nat := |vms| - 1;
    if Found(vms, boots, n) { assert Stands(vms, boots, n, TargetOf(vms[n], boots(n).value)); }
  }

  /** `places` are the places of the running VMs that could be read, each once and in their order, and `targets` what
      stands for them. */
  ghost predicate Places(vms: seq<VM>, boots: nat -> Option<Boot>, places: seq<nat>, targets: seq<Target>) {
    && |places| == |targets| && (forall i | 0 <= i < |places| :: Stands(vms, boots, places[i], targets[i]))
    && (forall k: nat | Found(vms, boots, k) :: k in places)
    && forall i, j | 0 <= i < j < |places| :: places[i] < places[j]
  }

  lemma {:induction false} TargetsExactly(vms: seq<VM>, boots: nat -> Option<Boot>) returns (places: seq<nat>)
    ensures Places(vms, boots, places, TargetsOf(vms, boots))
  {
    if vms == [] {
      places := [];
    } else {
      var n: nat := |vms| - 1;
      hide TargetsOf, Found, Stands, Places, Eligible;
      var before := TargetsExactly(vms[..n], boots);
      LastTarget(vms, boots);
      if Found(vms, boots, n) {
        var target :| Stands(vms, boots, n, target) && TargetsOf(vms, boots) == TargetsOf(vms[..n], boots) + [target];
        places := before + [n];
        PlacesGrow(vms, boots, before, TargetsOf(vms[..n], boots), target);
      } else {
        places := before;
        PlacesStay(vms, boots, before, TargetsOf(vms[..n], boots));
      }
    }
  }

  lemma PlacesGrow(vms: seq<VM>, boots: nat -> Option<Boot>, places: seq<nat>, targets: seq<Target>, target: Target)
    requires vms != [] && Places(vms[..|vms| - 1], boots, places, targets) && Stands(vms, boots, |vms| - 1, target)
    ensures Places(vms, boots, places + [|vms| - 1], targets + [target])
  {
    FoundBefore(vms, boots, |vms| - 1);
    FoundIsVM(vms, boots);
    StandsIsFound(vms[..|vms| - 1], boots, places, targets);
    hide Found, Stands;
  }

  lemma PlacesStay(vms: seq<VM>, boots: nat -> Option<Boot>, places: seq<nat>, targets: seq<Target>)
    requires vms != [] && Places(vms[..|vms| - 1], boots, places, targets) && !Found(vms, boots, |vms| - 1)
    ensures Places(vms, boots, places, targets)
  {
    FoundBefore(vms, boots, |vms| - 1);
    FoundIsVM(vms, boots);
    hide Found, Stands;
  }

  lemma StandsIsFound(vms: seq<VM>, boots: nat -> Option<Boot>, places: seq<nat>, targets: seq<Target>)
    requires |places| == |targets| && forall i | 0 <= i < |places| :: Stands(vms, boots, places[i], targets[i])
    ensures forall i | 0 <= i < |places| :: places[i] < |vms|
  {}

  lemma FoundIsVM(vms: seq<VM>, boots: nat -> Option<Boot>)
    ensures forall k: nat | Found(vms, boots, k) :: k < |vms|
  {}

  /** Every target is one of the VMs. */
  lemma {:induction false} TargetIsVM(vms: seq<VM>, boots: nat -> Option<Boot>, i: nat) returns (k: nat)
    requires i < |TargetsOf(vms, boots)|
    ensures k < |vms| && vms[k].id == TargetsOf(vms, boots)[i].id && Eligible(vms[k])
  {
    hide Eligible;
    var n: nat := |vms| - 1;
    if i < |TargetsOf(vms[..n], boots)| { k := TargetIsVM(vms[..n], boots, i); } else { k := n; }
  }

  lemma {:induction false} DistinctVMsSuffice(vms: seq<VM>, boots: nat -> Option<Boot>)
    requires DistinctVMs(vms)
    ensures DistinctTargets(TargetsOf(vms, boots))
  {
    hide Eligible;
    if vms != [] {
      var n: nat := |vms| - 1;
      var few, all := TargetsOf(vms[..n], boots), TargetsOf(vms, boots);
      DistinctVMsSuffice(vms[..n], boots);
      forall i, j | 0 <= i < j < |all| ensures all[i].id != all[j].id {
        if j == |few| { var k := TargetIsVM(vms[..n], boots, i); }
      }
    }
  }

  /** A snapshot that meets its contract gives a round that is paced, whatever the guests' files hold. */
  lemma ValidSnapshotIsPaced(net: Netip, snapshot: Snapshot, boots: nat -> Option<Boot>, files: map<int, File>,
                             host: string, now: Time)
    requires ValidSnapshot(net, snapshot)
    ensures GuestSystem.NoTwoDue(files, host, TargetsOf(Vms(snapshot), boots), now)
  {
    hide ValidHeader, ValidVM, GuestSystem.NoTwoDue;
    DistinctVMsSuffice(Vms(snapshot), boots);
    GuestSystem.DistinctTargetsSuffice(files, host, TargetsOf(Vms(snapshot), boots), now);
  }

  /** The collector after it listed the entries `7.conf` and `07.conf`, and sampled VM 7 running. */
  function BothSampled(now: Time): Table
    requires now > 0
  {
    var t := Refreshed(CollectorSystem.EMPTY_TABLE, [Assembly.SEVEN, Assembly.SEVEN], now);
    if |t.heap| > 1 then Finished(t, 1, 7, now, Sample(now, "running", 0), NO_PROCESS, false) else t
  }

  lemma BothSampledShown(now: Time, toValid: string -> string)
    requires now > 0
    ensures var t := BothSampled(now);
            && Linked(t)
            && var s := Assemble(t, "pve", now, map[], toValid);
               && s.status == "ok" && s.collectedAt == now && s.ttlSeconds == 90 && |Vms(s)| == 2
               && forall i | 0 <= i < 2 :: Vms(s)[i].id == 7 && Eligible(Vms(s)[i])
  {
    var t := Refreshed(CollectorSystem.EMPTY_TABLE, [Assembly.SEVEN, Assembly.SEVEN], now);
    ListingNext(CollectorSystem.EMPTY_TABLE, [Assembly.SEVEN, Assembly.SEVEN], 0, false);
    ListingNext(CollectorSystem.EMPTY_TABLE, [Assembly.SEVEN, Assembly.SEVEN], 1, false);
    assert Listing(CollectorSystem.EMPTY_TABLE, [Assembly.SEVEN, Assembly.SEVEN], 0) == (map[], []);
    assert t.entries == map[7 := 1] && |t.heap| == 2 && t.order == [7, 7];
    assert BothSampled(now).heap[1].vm == Sample(now, "running", 0);
    assert BothSampled(now).heap[1].config == Assembly.SEVEN;
  }

  function StartedOnce(k: nat): Option<Boot> { Some(Boot(1, "1")) }

  lemma TwoTargets(vms: seq<VM>)
    requires |vms| == 2 && forall i | 0 <= i < 2 :: vms[i].id == 7 && Eligible(vms[i])
    ensures TargetsOf(vms, StartedOnce) == [GuestSystem.SEVEN, GuestSystem.SEVEN]
  {
    OneMore(vms);
    OneMore(vms[..1]);
    hide Eligible, TargetsOf;
    assert vms[..1][..0] == [];
    assert TargetsOf([], StartedOnce) == [] by { NoTargets(); }
  }

  lemma NoTargets()
    ensures TargetsOf([], StartedOnce) == []
  {}

  lemma OneMore(vms: seq<VM>)
    requires vms != [] && vms[|vms| - 1].id == 7 && Eligible(vms[|vms| - 1])
    ensures TargetsOf(vms, StartedOnce) == TargetsOf(vms[..|vms| - 1], StartedOnce) + [GuestSystem.SEVEN]
  {
    hide Eligible;
  }

  /** With the entries `7.conf` and `07.conf` the snapshot that is passed on gives two targets for VM 7, and two
      workers can ask its guest at once, against the pacing. */
  lemma TwoFilesTwoQueries(now: Time, toValid: string -> string)
    requires now > 0
    ensures Linked(BothSampled(now))
    ensures var s := GuestSystem.Sys(now, "pve", map[], GuestSystem.NO_ROUND, GuestSystem.NO_CALLS, []);
            var targets := TargetsOf(Vms(Assemble(BothSampled(now), "pve", now, map[], toValid)), StartedOnce);
            && !GuestSystem.NoTwoDue(s.files, s.host, targets, now)
            && exists s' :: GuestSystem.Leads(GuestSystem.AfterScan(s, targets, now, |targets|), s')
                            && !GuestSystem.OneAtATime(s') && !GuestSystem.AllPaced(s', s.files)
  {
    hide GuestSystem.Leads, GuestSystem.AllPaced, GuestSystem.OneAtATime, GuestSystem.NoTwoDue, GuestSystem.AfterScan,
         Eligible;
    BothSampledShown(now, toValid);
    TwoTargets(Vms(Assemble(BothSampled(now), "pve", now, map[], toValid)));
    GuestSystem.SevenTwice(now);
  }
}
