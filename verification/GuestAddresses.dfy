/** Decoding a guest agent's answer into addresses (internal/pve/guest.go). */
module GuestAddresses {
  import opened Common
  import opened Virt
  import opened Sorting
  import opened Text

  /** What `decodeIPs` relies on in `net/netip`. */
  ghost predicate NetipLaws(net: Netip) {
    && (forall a: Addr | a.zone == "" :: net.parse(net.text(a)) == Some(a))
    && (forall a: Addr {:trigger net.unmap(a)} ::
          net.unmap(net.unmap(a)) == net.unmap(a) && (a.zone == "" ==> net.unmap(a).zone == ""))
  }

  predicate Acceptable(net: Netip, raw: string) {
    && net.parse(raw).Some? && net.parse(raw).value.zone == ""
    && net.globalUnicast(net.unmap(net.parse(raw).value))
  }

  /** The addresses that an agent reported and that are worth showing. */
  ghost function Reported(net: Netip, raws: seq<string>): set<Addr> {
    set i | 0 <= i < |raws| && Acceptable(net, raws[i]) :: Canonical(net, raws[i])
  }

  function Flat(interfaces: seq<seq<string>>): seq<string> {
    if interfaces == [] then [] else Flat(interfaces[..|interfaces| - 1]) + interfaces[|interfaces| - 1]
  }

  /** The addresses that an agent's answer gives: each text that parses, has no zone, and is a global unicast address
      once IPv4 in IPv6 is taken for IPv4. */
  ghost function Given(net: Netip, interfaces: seq<seq<string>>): set<Addr> {
    set k, m | 0 <= k < |interfaces| && 0 <= m < |interfaces[k]| && net.parse(interfaces[k][m]).Some?
               && net.parse(interfaces[k][m]).value.zone == ""
               && net.globalUnicast(net.unmap(net.parse(interfaces[k][m]).value)) ::
      net.unmap(net.parse(interfaces[k][m]).value)
  }

  lemma {:induction false} FlatMembers(interfaces: seq<seq<string>>, raw: string)
    ensures raw in Flat(interfaces) <==> exists k :: 0 <= k < |interfaces| && raw in interfaces[k]
  {
    if interfaces != [] {
      var n := |interfaces| - 1;
      FlatMembers(interfaces[..n], raw);
      if raw in Flat(interfaces[..n]) {
        var k :| 0 <= k < n && raw in interfaces[..n][k];
        assert raw in interfaces[k];
      }
      if k :| 0 <= k < n && raw in interfaces[k] { assert raw in interfaces[..n][k]; }
    }
  }

  lemma ReportedIsGiven(net: Netip, interfaces: seq<seq<string>>)
    ensures Reported(net, Flat(interfaces)) == Given(net, interfaces)
  {
    var raws := Flat(interfaces);
    forall a | a in Reported(net, raws) ensures a in Given(net, interfaces) {
      var i :| 0 <= i < |raws| && Acceptable(net, raws[i]) && Canonical(net, raws[i]) == a;
      FlatMembers(interfaces, raws[i]);
      var k :| 0 <= k < |interfaces| && raws[i] in interfaces[k];
      var m :| 0 <= m < |interfaces[k]| && interfaces[k][m] == raws[i];
    }
    forall a | a in Given(net, interfaces) ensures a in Reported(net, raws) {
      var k, m :| 0 <= k < |interfaces| && 0 <= m < |interfaces[k]| && Acceptable(net, interfaces[k][m])
                  && a == Canonical(net, interfaces[k][m]);
      FlatMembers(interfaces, interfaces[k][m]);
      var i :| 0 <= i < |raws| && raws[i] == interfaces[k][m];
    }
  }

  // ---------- decodeIPs ----------

  /** The texts in `ips` are those of the distinct addresses in `addrs`. */
  ghost predicate Texts(net: Netip, ips: seq<string>, addrs: seq<Addr>) {
    && |ips| == |addrs|
    && (forall i | 0 <= i < |ips| :: ips[i] == net.text(addrs[i]))
    && forall i, j | 0 <= i < j < |addrs| :: addrs[i] != addrs[j]
  }

  ghost predicate Presentable(net: Netip, addrs: seq<Addr>) {
    forall i | 0 <= i < |addrs| :: addrs[i].zone == "" && net.unmap(addrs[i]) == addrs[i] && net.globalUnicast(addrs[i])
  }

  lemma {:induction false} DistinctCard(addrs: seq<Addr>)
    requires forall i, j | 0 <= i < j < |addrs| :: addrs[i] != addrs[j]
    ensures |set a | a in addrs| == |addrs|
  {
    if addrs != [] {
      var rest, last := addrs[..|addrs| - 1], addrs[|addrs| - 1];
      DistinctCard(rest);
      assert (set a | a in addrs) == (set a | a in rest) + {last};
    }
  }

  lemma ReportedOne(net: Netip, raws: seq<string>, raw: string)
    ensures Reported(net, raws + [raw]) ==
            if Acceptable(net, raw) then Reported(net, raws) + {Canonical(net, raw)} else Reported(net, raws)
  {
    var all := raws + [raw];
    forall a | a in Reported(net, raws) ensures a in Reported(net, all) {
      var i :| 0 <= i < |raws| && Acceptable(net, raws[i]) && Canonical(net, raws[i]) == a;
      assert all[i] == raws[i];
    }
    if Acceptable(net, raw) { assert all[|raws|] == raw; }
  }

  lemma {:induction false} ReportedSome(net: Netip, raws: seq<string>, more: seq<string>)
    ensures Reported(net, raws) <= Reported(net, raws + more)
  {
    forall a | a in Reported(net, raws) ensures a in Reported(net, raws + more) {
      var i :| 0 <= i < |raws| && Acceptable(net, raws[i]) && Canonical(net, raws[i]) == a;
      assert (raws + more)[i] == raws[i];
    }
  }

  lemma {:induction false} FlatSplit(interfaces: seq<seq<string>>, k: nat) returns (rest: seq<string>)
    requires k <= |interfaces|
    ensures Flat(interfaces) == Flat(interfaces[..k]) + rest
  {
    if k == |interfaces| {
      assert interfaces[..k] == interfaces;
      rest := [];
    } else {
      var init, last := interfaces[..|interfaces| - 1], interfaces[|interfaces| - 1];
      var more := FlatSplit(init, k);
      assert init[..k] == interfaces[..k];
      rest := more + last;
    }
  }

  /** All addresses are those up to address `m` of interface `k`, and more. */
  lemma HeadSplit(interfaces: seq<seq<string>>, k: nat, m: nat) returns (rest: seq<string>)
    requires k < |interfaces| && m <= |interfaces[k]|
    ensures Flat(interfaces) == Flat(interfaces[..k]) + interfaces[k][..m] + rest
  {
    var more := FlatSplit(interfaces, k + 1);
    assert interfaces[..k + 1][..k] == interfaces[..k];
    assert interfaces[k] == interfaces[k][..m] + interfaces[k][m..];
    rest := interfaces[k][m..] + more;
  }

  /** Too many addresses in a prefix are too many in all. */
  lemma PrefixTooMany(net: Netip, interfaces: seq<seq<string>>, k: nat, m: nat)
    requires k < |interfaces| && m <= |interfaces[k]|
    ensures |Reported(net, Flat(interfaces[..k]) + interfaces[k][..m])| <= |Reported(net, Flat(interfaces))|
  {
    hide Reported, Flat;
    var rest := HeadSplit(interfaces, k, m);
    ReportedSome(net, Flat(interfaces[..k]) + interfaces[k][..m], rest);
    SubsetCard(Reported(net, Flat(interfaces[..k]) + interfaces[k][..m]), Reported(net, Flat(interfaces)));
  }

  lemma PresentableIsValid(net: Netip, ips: seq<string>, addrs: seq<Addr>)
    requires NetipLaws(net) && Texts(net, ips, addrs) && Presentable(net, addrs) && |ips| <= MAX_IPS
    ensures ValidIPs(net, ips)
    ensures forall i | 0 <= i < |ips| :: net.parse(ips[i]) == Some(addrs[i])
  {
    forall i | 0 <= i < |ips| ensures net.parse(ips[i]) == Some(addrs[i]) {
      assert addrs[i].zone == "";
    }
  }

  lemma NothingYet(net: Netip)
    ensures Texts(net, [], []) && Presentable(net, []) && Reported(net, []) == {}
  {}

  lemma TextsCard(net: Netip, ips: seq<string>, addrs: seq<Addr>)
    requires Texts(net, ips, addrs)
    ensures |set a | a in addrs| == |ips|
  {
    DistinctCard(addrs);
  }

  /** One address of an interface: the body of the inner loop. */
  method Take(net: Netip, raw: string, seen: set<Addr>, ips: seq<string>, ghost addrs: seq<Addr>)
    returns (seen': set<Addr>, ips': seq<string>, ghost addrs': seq<Addr>, full: bool)
    requires NetipLaws(net) && Texts(net, ips, addrs) && Presentable(net, addrs)
    requires seen == (set a | a in addrs) && |ips| <= MAX_IPS
    ensures full <==> Acceptable(net, raw) && Canonical(net, raw) !in seen && |ips| == MAX_IPS
    ensures !full ==>
              Texts(net, ips', addrs') && Presentable(net, addrs') && seen' == (set a | a in addrs')
    ensures !full ==> |ips'| <= MAX_IPS
    ensures !full ==> seen' == if Acceptable(net, raw) then seen + {Canonical(net, raw)} else seen
  {
    seen', ips', addrs', full := seen, ips, addrs, false;
    var ip := net.parse(raw);
    if ip.None? || ip.value.zone != "" { return; }
    var plain := net.unmap(ip.value);
    if !net.globalUnicast(plain) || plain in seen { return; }
    if |ips| == MAX_IPS {
      full := true;
      return;
    }
    seen' := seen + {plain};
    ips' := ips + [net.text(plain)];
    addrs' := addrs + [plain];
  }

  /** `decodeIPs`. It fails exactly when there are no interfaces or more than 1024 different acceptable
      addresses; otherwise it returns each of them once, sorted, in a form the snapshot contract accepts. */
  method DecodeIPs(net: Netip, interfaces: Option<seq<seq<string>>>) returns (result: Option<seq<string>>)
    requires NetipLaws(net)
    ensures result.None? <==> interfaces.None? || |Given(net, interfaces.value)| > 1024
    ensures result.Some? ==>
              && ValidIPs(net, result.value)
              && (forall i, j | 0 <= i < j < |result.value| :: LexLeq(result.value[i], result.value[j]))
              && Given(net, interfaces.value) == (set i | 0 <= i < |result.value| :: Canonical(net, result.value[i]))
              && (forall i | 0 <= i < |result.value| ::
                    result.value[i] == net.text(Canonical(net, result.value[i]))
                    && net.parse(result.value[i]) == Some(Canonical(net, result.value[i])))
  {
    if interfaces.Some? { ReportedIsGiven(net, interfaces.value); }
    hide Texts, Presentable, NetipLaws, Reported, Given, Sort;
    if interfaces.None? { return None; }
    NothingYet(net);
    var all := interfaces.value;
    var seen: set<Addr> := {};
    var ips: seq<string> := [];
    ghost var addrs: seq<Addr> := [];
    for k := 0 to |all|
      invariant Texts(net, ips, addrs) && Presentable(net, addrs) && seen == (set a | a in addrs) && |ips| <= MAX_IPS
      invariant seen == Reported(net, Flat(all[..k]))
    {
      assert Flat(all[..k]) + all[k][..0] == Flat(all[..k]);
      for m := 0 to |all[k]|
        invariant Texts(net, ips, addrs) && Presentable(net, addrs) && seen == (set a | a in addrs) && |ips| <= MAX_IPS
        invariant seen == Reported(net, Flat(all[..k]) + all[k][..m])
      {
        ghost var before := Flat(all[..k]) + all[k][..m];
        assert Flat(all[..k]) + all[k][..m + 1] == before + [all[k][m]];
        ReportedOne(net, before, all[k][m]);
        TextsCard(net, ips, addrs);
        var full;
        seen, ips, addrs, full := Take(net, all[k][m], seen, ips, addrs);
        if full {
          PrefixTooMany(net, all, k, m + 1);
          return None;
        }
      }
      assert all[..k + 1][..k] == all[..k];
      assert all[k][..|all[k]|] == all[k];
    }
    assert all[..|all|] == all;
    TextsCard(net, ips, addrs);
    result := Some(Sort(LexLeq, ips));
    LexOrders();
    SortIsStable(LexLeq, ips);
    SortedTexts(net, ips, addrs, result.value);
  }

  /** `text` is acceptable, stands for one of these addresses, and is how that address is written. */
  ghost predicate Writes(net: Netip, text: string, addrs: seq<Addr>) {
    ValidIP(net, text) && Canonical(net, text) in addrs && text == net.text(Canonical(net, text))
  }

  lemma SortedMembers(net: Netip, ips: seq<string>, addrs: seq<Addr>, sorted: seq<string>)
    requires NetipLaws(net) && Texts(net, ips, addrs) && Presentable(net, addrs) && |ips| <= MAX_IPS
    requires multiset(sorted) == multiset(ips)
    ensures forall i | 0 <= i < |sorted| :: Writes(net, sorted[i], addrs)
  {
    PresentableIsValid(net, ips, addrs);
    forall i | 0 <= i < |sorted| ensures Writes(net, sorted[i], addrs) {
      assert sorted[i] in multiset(ips);
      var j :| 0 <= j < |ips| && ips[j] == sorted[i];
      assert net.parse(sorted[i]) == Some(addrs[j]) && Canonical(net, sorted[i]) == addrs[j];
    }
  }

  lemma SortedDistinct(net: Netip, ips: seq<string>, addrs: seq<Addr>, sorted: seq<string>)
    requires NetipLaws(net) && Texts(net, ips, addrs) && Presentable(net, addrs)
    requires multiset(sorted) == multiset(ips)
    ensures forall i, j | 0 <= i < j < |sorted| :: sorted[i] != sorted[j]
  {
    DistinctTexts(net, ips, addrs);
    forall i, j | 0 <= i < j < |sorted| ensures sorted[i] != sorted[j] {
      assert sorted[i] in multiset(ips);
      Twice(sorted, i, j);
    }
  }

  /** Sorting the texts permutes the addresses they stand for. */
  lemma SortedTexts(net: Netip, ips: seq<string>, addrs: seq<Addr>, sorted: seq<string>)
    requires NetipLaws(net) && Texts(net, ips, addrs) && Presentable(net, addrs) && |ips| <= MAX_IPS
    requires sorted == Sort(LexLeq, ips)
    ensures ValidIPs(net, sorted)
    ensures (set a | a in addrs) == (set i | 0 <= i < |sorted| :: Canonical(net, sorted[i]))
    ensures forall i | 0 <= i < |sorted| :: sorted[i] == net.text(Canonical(net, sorted[i]))
  {
    SortMembers(LexLeq, ips);
    hide Sort, NetipLaws, Presentable, Texts, Writes, ValidIPs;
    SortedMembers(net, ips, addrs, sorted);
    SortedDistinct(net, ips, addrs, sorted);
    assert |sorted| == |multiset(sorted)| == |multiset(ips)| == |ips|;
    WrittenIsValid(net, addrs, sorted);
    forall a | a in addrs ensures Shown(net, sorted, a) {
      var i := SortedCovers(net, ips, addrs, sorted, a);
    }
    SameAddresses(net, addrs, sorted);
  }

  ghost predicate Shown(net: Netip, sorted: seq<string>, a: Addr) {
    exists i :: 0 <= i < |sorted| && ValidIP(net, sorted[i]) && Canonical(net, sorted[i]) == a
  }

  lemma WrittenIsValid(net: Netip, addrs: seq<Addr>, sorted: seq<string>)
    requires |sorted| <= MAX_IPS && forall i | 0 <= i < |sorted| :: Writes(net, sorted[i], addrs)
    requires forall i, j | 0 <= i < j < |sorted| :: sorted[i] != sorted[j]
    ensures ValidIPs(net, sorted)
    ensures forall i | 0 <= i < |sorted| :: sorted[i] == net.text(Canonical(net, sorted[i]))
  {
    forall i | 0 <= i < |sorted| ensures ValidIP(net, sorted[i]) { assert Writes(net, sorted[i], addrs); }
    forall i, j | 0 <= i < j < |sorted| ensures Canonical(net, sorted[i]) != Canonical(net, sorted[j]) {
      assert Writes(net, sorted[i], addrs) && Writes(net, sorted[j], addrs);
    }
  }

  lemma SameAddresses(net: Netip, addrs: seq<Addr>, sorted: seq<string>)
    requires ValidIPs(net, sorted) && forall i | 0 <= i < |sorted| :: Writes(net, sorted[i], addrs)
    requires forall a | a in addrs :: Shown(net, sorted, a)
    ensures (set a | a in addrs) == (set i | 0 <= i < |sorted| :: Canonical(net, sorted[i]))
  {
    forall i | 0 <= i < |sorted| ensures Canonical(net, sorted[i]) in addrs { assert Writes(net, sorted[i], addrs); }
    forall a | a in addrs ensures a in set i | 0 <= i < |sorted| :: Canonical(net, sorted[i]) {
      assert Shown(net, sorted, a);
    }
  }

  lemma SortedCovers(net: Netip, ips: seq<string>, addrs: seq<Addr>, sorted: seq<string>, a: Addr) returns (i: nat)
    requires NetipLaws(net) && Texts(net, ips, addrs) && Presentable(net, addrs) && |ips| <= MAX_IPS
    requires multiset(sorted) == multiset(ips) && a in addrs
    ensures i < |sorted| && ValidIP(net, sorted[i]) && Canonical(net, sorted[i]) == a
  {
    var j :| 0 <= j < |addrs| && addrs[j] == a;
    assert ips[j] in multiset(sorted);
    i :| i < |sorted| && sorted[i] == ips[j];
    assert addrs[j].zone == "";
    assert net.parse(sorted[i]) == Some(a);
  }

  lemma {:induction false} DistinctTexts(net: Netip, ips: seq<string>, addrs: seq<Addr>)
    requires NetipLaws(net) && Texts(net, ips, addrs) && Presentable(net, addrs)
    ensures forall x | x in multiset(ips) :: multiset(ips)[x] == 1
  {
    if ips != [] {
      var n := |ips| - 1;
      DistinctTexts(net, ips[..n], addrs[..n]);
      assert ips == ips[..n] + [ips[n]];
      forall i | 0 <= i < n ensures ips[i] != ips[n] { TextsDiffer(net, addrs[i], addrs[n]); }
    }
  }

  lemma TextsDiffer(net: Netip, a: Addr, b: Addr)
    requires NetipLaws(net) && a.zone == "" && b.zone == "" && a != b
    ensures net.text(a) != net.text(b)
  {
    assert net.parse(net.text(a)) != net.parse(net.text(b));
  }

  lemma Twice(s: seq<string>, i: nat, j: nat)
    requires i < j < |s|
    ensures s[i] == s[j] ==> multiset(s)[s[i]] >= 2
  {
    assert s == s[..i] + [s[i]] + s[i + 1..j] + [s[j]] + s[j + 1..];
  }
}
