/** The virtualization snapshot and the contract it must meet (internal/virt/snapshot.go). */
module Virt {
  import opened Common

  const MAX_HOST := 255
  const MAX_TTL := 3600
  const MAX_ERROR := 1024
  const MAX_VMS := 4096
  const MAX_NAME := 255
  const MAX_STATUS := 64
  const MAX_IPS := 1024

  /** A float64: finite numbers are exact, and the two classes the contract rejects are kept apart. */
  datatype Float = Finite(value: real) | NotANumber | Infinite

  /** An IP address. What `net/netip` knows about addresses and their text is a parameter. */
  datatype Addr = Addr(v6: bool, bits: nat, zone: string)

  datatype Netip = Netip(parse: string -> Option<Addr>, text: Addr -> string, unmap: Addr -> Addr,
                         globalUnicast: Addr -> bool)

  /** The zero instant stands for Go's zero time. */
  datatype VM = VM(
    id: int, name: string, status: string, qmpStatus: string, template: bool,
    collectedAt: Option<Time>, ttlSeconds: int,
    ipsCollectedAt: Option<Time>, ipsTtlSeconds: int, ips: seq<string>,
    cpus: Option<int>, cpu: Option<Float>, memory: Option<int>, memoryLimit: Option<int>, diskCapacity: Option<int>,
    diskRead: Option<int>, diskWrite: Option<int>, netIn: Option<int>, netOut: Option<int>,
    netRateLimits: map<string, Float>, uptime: Option<int>)

  /** `vms` is absent when the source's slice is nil. */
  datatype Snapshot = Snapshot(
    schema: int, provider: string, host: string, collectedAt: Time, lastSuccessAt: Option<Time>,
    ttlSeconds: int, status: string, error: string, vms: Option<seq<VM>>)

  // ---------- the contract ----------

  function Vms(s: Snapshot): seq<VM> { if s.vms.Some? then s.vms.value else [] }

  predicate ValidHeader(s: Snapshot) {
    && s.schema == 1 && s.provider == "pve" && |s.host| <= MAX_HOST && s.collectedAt != 0
    && 1 <= s.ttlSeconds <= MAX_TTL
    && |s.error| <= MAX_ERROR && |Vms(s)| <= MAX_VMS
    && (s.status == "ok" || s.status == "error")
    && (s.status == "ok" ==> s.host != "" && s.lastSuccessAt.Some? && s.error == "" && s.vms.Some?)
    && (s.status == "error" ==> s.error != "")
    && (Vms(s) != [] ==> s.lastSuccessAt.Some?)
    && (s.lastSuccessAt.Some? ==> 0 < s.lastSuccessAt.value <= s.collectedAt)
  }

  /** A timestamp and its lifetime are both absent, or both sensible. */
  predicate ValidFreshness(at: Option<Time>, ttlSeconds: int, now: Time) {
    if at.None? then ttlSeconds == 0 else 0 < at.value <= now && 1 <= ttlSeconds <= MAX_TTL
  }

  predicate ValidIP(net: Netip, raw: string) {
    net.parse(raw).Some? && net.parse(raw).value.zone == "" && net.globalUnicast(net.parse(raw).value)
  }

  /** The address an accepted text stands for, IPv4-mapped IPv6 counted as IPv4. */
  function Canonical(net: Netip, raw: string): Addr
    requires net.parse(raw).Some?
  {
    net.unmap(net.parse(raw).value)
  }

  ghost predicate ValidIPs(net: Netip, ips: seq<string>) {
    && |ips| <= MAX_IPS
    && (forall i | 0 <= i < |ips| :: ValidIP(net, ips[i]))
    && forall i, j | 0 <= i < j < |ips| :: Canonical(net, ips[i]) != Canonical(net, ips[j])
  }

  predicate Digit(c: char) { '0' <= c <= '9' }

  function Decimal(s: string): nat
    requires forall i | 0 <= i < |s| :: Digit(s[i])
  {
    if s == "" then 0 else assert Digit(s[|s| - 1]); 10 * Decimal(s[..|s| - 1]) + (s[|s| - 1] as int - '0' as int)
  }

  /** `net` followed by a canonical decimal that fits an int. */
  predicate NicName(name: string) {
    && |name| > 3 && name[..3] == "net"
    && (forall i | 3 <= i < |name| :: Digit(name[i]))
    && (|name| > 4 ==> name[3] != '0')
    && (forall i | 0 <= i < |name[3..]| :: Digit(name[3..][i]))
    && Decimal(name[3..]) < 0x8000_0000_0000_0000
  }

  predicate NonNegative(f: Float) { f.Finite? && f.value >= 0.0 }

  ghost predicate ValidRates(rates: map<string, Float>) {
    forall n | n in rates :: NicName(n) && NonNegative(rates[n])
  }

  function Counters(vm: VM): seq<Option<int>> {
    [vm.cpus, vm.memory, vm.memoryLimit, vm.diskCapacity, vm.diskRead, vm.diskWrite, vm.netIn, vm.netOut, vm.uptime]
  }

  predicate ValidCounters(vm: VM) {
    forall i | 0 <= i < 9 :: Counters(vm)[i].Some? ==> Counters(vm)[i].value >= 0
  }

  predicate ValidIdentity(vm: VM) {
    vm.id >= 1 && |vm.name| <= MAX_NAME && 0 < |vm.status| <= MAX_STATUS && |vm.qmpStatus| <= MAX_STATUS
  }

  ghost predicate ValidVM(net: Netip, vm: VM, now: Time) {
    && ValidIdentity(vm)
    && ValidFreshness(vm.collectedAt, vm.ttlSeconds, now)
    && ValidFreshness(vm.ipsCollectedAt, vm.ipsTtlSeconds, now)
    && ValidIPs(net, vm.ips)
    && (vm.cpu.Some? ==> NonNegative(vm.cpu.value))
    && ValidRates(vm.netRateLimits)
    && ValidCounters(vm)
  }

  ghost predicate ValidSnapshot(net: Netip, s: Snapshot) {
    && ValidHeader(s)
    && (forall i | 0 <= i < |Vms(s)| :: ValidVM(net, Vms(s)[i], s.collectedAt))
    && forall i, j | 0 <= i < j < |Vms(s)| :: Vms(s)[i].id != Vms(s)[j].id
  }

  // ---------- the contract, clause by clause ----------

  /** How Go prints a number. */
  function Itoa(n: nat): string {
    if n < 10 then [(n + '0' as int) as char] else Itoa(n / 10) + [(n % 10 + '0' as int) as char]
  }

  /** What `Sprintf("net%d", ...)` gives for an `int` that is not negative. */
  ghost predicate Nic(name: string) { exists i: nat :: i <= 0x7fff_ffff_ffff_ffff && name == "net" + Itoa(i) }

  predicate NotNegative(n: Option<int>) { n.Some? ==> n.value >= 0 }

  predicate SensibleTime(at: Option<Time>, ttlSeconds: int, now: Time) {
    || (at.None? && ttlSeconds == 0)
    || (at.Some? && 0 < at.value <= now && 1 <= ttlSeconds <= 3600)
  }

  ghost predicate MeetsVM(net: Netip, vm: VM, now: Time) {
    && vm.id >= 1 && |vm.name| <= 255 && 1 <= |vm.status| <= 64 && |vm.qmpStatus| <= 64
    && SensibleTime(vm.collectedAt, vm.ttlSeconds, now) && SensibleTime(vm.ipsCollectedAt, vm.ipsTtlSeconds, now)
    && |vm.ips| <= 1024
    && (forall ip | ip in vm.ips ::
          net.parse(ip).Some? && net.parse(ip).value.zone == "" && net.globalUnicast(net.parse(ip).value))
    && (forall i, j | 0 <= i < j < |vm.ips| ::
          net.unmap(net.parse(vm.ips[i]).value) != net.unmap(net.parse(vm.ips[j]).value))
    && (vm.cpu.Some? ==> vm.cpu.value.Finite? && vm.cpu.value.value >= 0.0)
    && (forall n | n in vm.netRateLimits ::
          Nic(n) && vm.netRateLimits[n].Finite? && vm.netRateLimits[n].value >= 0.0)
    && NotNegative(vm.cpus) && NotNegative(vm.memory) && NotNegative(vm.memoryLimit) && NotNegative(vm.diskCapacity)
    && NotNegative(vm.diskRead) && NotNegative(vm.diskWrite) && NotNegative(vm.netIn) && NotNegative(vm.netOut)
    && NotNegative(vm.uptime)
  }

  predicate MeetsHeader(s: Snapshot, count: nat) {
    && s.schema == 1 && s.provider == "pve" && |s.host| <= 255 && s.collectedAt != 0 && 1 <= s.ttlSeconds <= 3600
    && |s.error| <= 1024 && count <= 4096
    && (|| (s.status == "ok" && s.host != "" && s.lastSuccessAt.Some? && s.error == "" && s.vms.Some?)
        || (s.status == "error" && s.error != ""))
    && (count > 0 ==> s.lastSuccessAt.Some?)
    && (s.lastSuccessAt.Some? ==> 0 < s.lastSuccessAt.value <= s.collectedAt)
  }

  ghost predicate Meets(net: Netip, s: Snapshot) {
    var vms := Vms(s);
    && MeetsHeader(s, |vms|)
    && (forall i, j | 0 <= i < j < |vms| :: vms[i].id != vms[j].id)
    && forall i | 0 <= i < |vms| :: MeetsVM(net, vms[i], s.collectedAt)
  }

  lemma {:induction false} ItoaDigits(n: nat)
    ensures Itoa(n) != "" && (forall i | 0 <= i < |Itoa(n)| :: Digit(Itoa(n)[i]))
    ensures Decimal(Itoa(n)) == n && (|Itoa(n)| > 1 ==> Itoa(n)[0] != '0') && (n > 0 ==> Itoa(n)[0] != '0')
  {
    if n >= 10 {
      ItoaDigits(n / 10);
      assert Itoa(n)[..|Itoa(n)| - 1] == Itoa(n / 10);
    }
  }

  lemma {:induction false} DecimalPrints(s: string)
    requires s != "" && (forall i | 0 <= i < |s| :: Digit(s[i])) && (|s| > 1 ==> s[0] != '0')
    ensures Itoa(Decimal(s)) == s && (|s| > 1 ==> Decimal(s) >= 10)
  {
    var rest, last := s[..|s| - 1], s[|s| - 1];
    assert Digit(last);
    if |s| > 1 {
      DecimalPrints(rest);
      if |rest| == 1 { assert Decimal(rest[..0]) == 0 && Digit(rest[0]) && Decimal(rest) >= 1; }
      assert Decimal(s) / 10 == Decimal(rest) && Decimal(s) % 10 == last as int - '0' as int;
      assert s == rest + [last];
    } else {
      assert rest == "" && Decimal(s) == last as int - '0' as int && s == [last];
    }
  }

  lemma NicNameExactly(name: string)
    ensures NicName(name) <==> Nic(name)
  {
    if NicName(name) {
      DecimalPrints(name[3..]);
      assert name == "net" + Itoa(Decimal(name[3..]));
    }
    if i: nat :| i <= 0x7fff_ffff_ffff_ffff && name == "net" + Itoa(i) {
      ItoaDigits(i);
      assert name[3..] == Itoa(i) && name[..3] == "net";
      forall k | 3 <= k < |name| ensures Digit(name[k]) { assert name[k] == name[3..][k - 3]; }
      if |name| > 4 { assert name[3] == Itoa(i)[0]; }
    }
  }

  lemma RatesExactly(rates: map<string, Float>)
    ensures ValidRates(rates) <==> forall n | n in rates :: Nic(n) && rates[n].Finite? && rates[n].value >= 0.0
  {
    hide NicName, Nic;
    forall n | n in rates ensures NicName(n) <==> Nic(n) { NicNameExactly(n); }
    if forall n | n in rates :: Nic(n) && rates[n].Finite? && rates[n].value >= 0.0 {
      forall n | n in rates ensures NicName(n) && NonNegative(rates[n]) { assert Nic(n); }
    }
  }

  lemma IPsExactly(net: Netip, ips: seq<string>)
    ensures ValidIPs(net, ips) <==>
              && |ips| <= 1024
              && (forall ip | ip in ips ::
                    net.parse(ip).Some? && net.parse(ip).value.zone == "" && net.globalUnicast(net.parse(ip).value))
              && forall i, j | 0 <= i < j < |ips| ::
                   net.unmap(net.parse(ips[i]).value) != net.unmap(net.parse(ips[j]).value)
  {
    if forall ip | ip in ips ::
         net.parse(ip).Some? && net.parse(ip).value.zone == "" && net.globalUnicast(net.parse(ip).value) {
      forall i | 0 <= i < |ips| ensures ValidIP(net, ips[i]) {}
    }
  }

  lemma CountersExactly(vm: VM)
    ensures ValidCounters(vm) <==>
              && NotNegative(vm.cpus) && NotNegative(vm.memory) && NotNegative(vm.memoryLimit)
              && NotNegative(vm.diskCapacity) && NotNegative(vm.diskRead) && NotNegative(vm.diskWrite)
              && NotNegative(vm.netIn) && NotNegative(vm.netOut) && NotNegative(vm.uptime)
  {
    var cs := Counters(vm);
    if ValidCounters(vm) {
      assert forall i | 0 <= i < 9 :: NotNegative(cs[i]);
      assert NotNegative(cs[0]) && NotNegative(cs[1]) && NotNegative(cs[2]) && NotNegative(cs[3]) && NotNegative(cs[4]);
      assert NotNegative(cs[5]) && NotNegative(cs[6]) && NotNegative(cs[7]) && NotNegative(cs[8]);
    }
  }

  lemma VMExactly(net: Netip, vm: VM, now: Time)
    ensures ValidVM(net, vm, now) <==> MeetsVM(net, vm, now)
  {
    hide NicName, Nic, ValidIPs, ValidRates, ValidCounters, NotNegative;
    IPsExactly(net, vm.ips);
    RatesExactly(vm.netRateLimits);
    CountersExactly(vm);
  }

  lemma HeaderExactly(s: Snapshot)
    ensures ValidHeader(s) <==> MeetsHeader(s, |Vms(s)|)
  {}

  lemma SnapshotExactly(net: Netip, s: Snapshot)
    ensures ValidSnapshot(net, s) <==> Meets(net, s)
  {
    hide ValidVM, MeetsVM;
    HeaderExactly(s);
    hide ValidHeader, MeetsHeader;
    var vms := Vms(s);
    forall i | 0 <= i < |vms| ensures ValidVM(net, vms[i], s.collectedAt) <==> MeetsVM(net, vms[i], s.collectedAt) {
      VMExactly(net, vms[i], s.collectedAt);
    }
  }

  // ---------- Validate ----------

  /** Lines 91-101: every address acceptable, none twice. */
  method CheckIPs(net: Netip, ips: seq<string>) returns (ok: bool)
    ensures ok <==> ValidIPs(net, ips)
  {
    if |ips| > MAX_IPS { return false; }
    var addresses: set<Addr> := {};
    for k := 0 to |ips|
      invariant forall i | 0 <= i < k :: ValidIP(net, ips[i]) && Canonical(net, ips[i]) in addresses
      invariant forall a | a in addresses ::
                  exists i | 0 <= i < k :: ValidIP(net, ips[i]) && a == Canonical(net, ips[i])
      invariant forall i, j | 0 <= i < j < k :: Canonical(net, ips[i]) != Canonical(net, ips[j])
    {
      var ip := net.parse(ips[k]);
      if ip.None? || ip.value.zone != "" || !net.globalUnicast(ip.value) || net.unmap(ip.value) in addresses {
        return false;
      }
      addresses := addresses + {net.unmap(ip.value)};
    }
    return true;
  }

  /** Lines 105-110. */
  method CheckRates(rates: map<string, Float>) returns (ok: bool)
    ensures ok <==> ValidRates(rates)
  {
    var names := rates.Keys;
    while names != {}
      invariant names <= rates.Keys
      invariant forall n | n in rates && n !in names :: NicName(n) && NonNegative(rates[n])
      decreases |names|
    {
      var name := Pick(names);
      if !NicName(name) || !NonNegative(rates[name]) { return false; }
      names := names - {name};
    }
    return true;
  }

  /** Lines 111-115. */
  method CheckCounters(vm: VM) returns (ok: bool)
    ensures ok <==> ValidCounters(vm)
  {
    var counters := Counters(vm);
    for k := 0 to |counters|
      invariant forall i | 0 <= i < k :: counters[i].Some? ==> counters[i].value >= 0
    {
      if counters[k].Some? && counters[k].value < 0 { return false; }
    }
    return true;
  }

  /** Lines 81-115, apart from the duplicate check. */
  method CheckVM(net: Netip, vm: VM, now: Time) returns (ok: bool)
    ensures ok <==> ValidVM(net, vm, now)
  {
    if vm.id < 1 || |vm.name| > MAX_NAME || vm.status == "" || |vm.status| > MAX_STATUS || |vm.qmpStatus| > MAX_STATUS {
      return false;
    }
    if (vm.collectedAt.None? && vm.ttlSeconds != 0)
      || (vm.collectedAt.Some?
          && (vm.collectedAt.value == 0 || vm.collectedAt.value > now || vm.ttlSeconds < 1
              || vm.ttlSeconds > MAX_TTL)) {
      return false;
    }
    if (vm.ipsCollectedAt.None? && vm.ipsTtlSeconds != 0)
      || (vm.ipsCollectedAt.Some?
          && (vm.ipsCollectedAt.value == 0 || vm.ipsCollectedAt.value > now || vm.ipsTtlSeconds < 1
              || vm.ipsTtlSeconds > MAX_TTL)) {
      return false;
    }
    ok := CheckIPs(net, vm.ips);
    if !ok { return; }
    if vm.cpu.Some? && !NonNegative(vm.cpu.value) { return false; }
    ok := CheckRates(vm.netRateLimits);
    if !ok { return; }
    ok := CheckCounters(vm);
  }

  /** Lines 60-79. */
  method CheckHeader(s: Snapshot) returns (ok: bool)
    ensures ok <==> ValidHeader(s)
  {
    if s.schema != 1 || s.provider != "pve" || |s.host| > MAX_HOST || s.collectedAt == 0 || s.ttlSeconds < 1
       || s.ttlSeconds > MAX_TTL
    {
      return false;
    }
    if s.status != "ok" && s.status != "error" { return false; }
    var vms := if s.vms.Some? then s.vms.value else [];
    if |s.error| > MAX_ERROR || |vms| > MAX_VMS { return false; }
    if s.status == "ok" && (s.host == "" || s.lastSuccessAt.None? || s.error != "" || s.vms.None?) { return false; }
    if (s.status == "error" && s.error == "") || (|vms| > 0 && s.lastSuccessAt.None?) { return false; }
    if s.lastSuccessAt.Some? && (s.lastSuccessAt.value == 0 || s.lastSuccessAt.value > s.collectedAt) { return false; }
    return true;
  }

  /** `Snapshot.Validate` accepts exactly the snapshots that meet the contract. */
  method Validate(net: Netip, s: Snapshot) returns (ok: bool)
    ensures ok <==> ValidSnapshot(net, s)
    ensures ok <==> Meets(net, s)
  {
    SnapshotExactly(net, s);
    hide Meets, ValidHeader, ValidVM;
    ok := CheckHeader(s);
    if !ok { return; }
    var vms := if s.vms.Some? then s.vms.value else [];
    assert vms == Vms(s);
    var seen: set<int> := {};
    for k := 0 to |vms|
      invariant forall i | 0 <= i < k :: ValidVM(net, vms[i], s.collectedAt) && vms[i].id in seen
      invariant forall id | id in seen :: exists i | 0 <= i < k :: vms[i].id == id
      invariant forall i, j | 0 <= i < j < k :: vms[i].id != vms[j].id
    {
      if vms[k].id in seen { return false; }
      var good := CheckVM(net, vms[k], s.collectedAt);
      if !good { return false; }
      seen := seen + {vms[k].id};
    }
    return true;
  }

  // ---------- Expire and ErrorText ----------

  predicate Fresh(vm: VM, now: Time) {
    vm.collectedAt.Some? && now - vm.collectedAt.value <= vm.ttlSeconds * SECOND
  }

  /** `VM.Expire` hides what only a live sample can tell. */
  function Expire(vm: VM, now: Time): VM {
    if Fresh(vm, now) then vm
    else vm.(status := "unknown", qmpStatus := "", cpu := None, memory := None, uptime := None,
             diskRead := None, diskWrite := None, netIn := None, netOut := None)
  }

  /** The VM shows something that only a live sample can tell. */
  predicate Live(vm: VM) {
    || vm.status != "unknown" || vm.qmpStatus != ""
    || vm.cpu.Some? || vm.memory.Some? || vm.uptime.Some?
    || vm.diskRead.Some? || vm.diskWrite.Some? || vm.netIn.Some? || vm.netOut.Some?
  }

  /** `ErrorText`; `toValid` removes what is not valid UTF-8. */
  function ErrorText(toValid: string -> string, message: string): string {
    var m := toValid(message);
    if |m| > MAX_ERROR then toValid(m[..MAX_ERROR - 3]) + "..." else m
  }

  lemma ErrorTextFits(toValid: string -> string, message: string)
    requires forall s :: |toValid(s)| <= |s|
    ensures |ErrorText(toValid, message)| <= 1024
    ensures |toValid(message)| <= 1024 ==> ErrorText(toValid, message) == toValid(message)
    ensures |toValid(message)| > 1024 ==>
              ErrorText(toValid, message) == toValid(toValid(message)[..1021]) + "..."
  {}
}
