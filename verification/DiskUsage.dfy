/** One collection of file-system usage (internal/collect/disk_usage.go): which partitions are read, and what
    is reported although the workers finish in any order. */
module DiskUsage {
  import opened Common
  import opened Sorting
  import opened Text
  import ProbeSpec

  type Usage = ProbeSpec.Usage

  datatype Partition = Partition(device: string, mountpoint: string, fstype: string)

  datatype Metric = Metric(partition: Partition, usage: Usage)

  function Mount(p: Partition): string { TrimSpace(p.mountpoint) }

  function Trimmed(p: Partition): Partition { p.(mountpoint := Mount(p)) }

  /** The partition at `i` is the first at its mount point. */
  predicate First(parts: seq<Partition>, i: nat)
    requires i < |parts|
  {
    Mount(parts[i]) != "" && forall j | 0 <= j < i :: Mount(parts[j]) != Mount(parts[i])
  }

  predicate Wanted(parts: seq<Partition>, skipPseudo: bool, pseudo: string -> bool, i: nat)
    requires i < |parts|
  {
    First(parts, i) && !(skipPseudo && pseudo(parts[i].fstype))
  }

  ghost predicate Distinct(ps: seq<Partition>) {
    forall i, j | 0 <= i < j < |ps| :: ps[i].mountpoint != ps[j].mountpoint
  }

  /** The wanted ones among the first `k` partitions, trimmed. */
  function Chosen(parts: seq<Partition>, skipPseudo: bool, pseudo: string -> bool, k: nat): seq<Partition>
    requires k <= |parts|
  {
    if k == 0 then []
    else
      Chosen(parts, skipPseudo, pseudo, k - 1)
      + (if Wanted(parts, skipPseudo, pseudo, k - 1) then [Trimmed(parts[k - 1])] else [])
  }

  lemma {:induction false} ChosenMembers(parts: seq<Partition>, skipPseudo: bool, pseudo: string -> bool, k: nat,
                                         p: Partition)
    requires k <= |parts|
    ensures p in Chosen(parts, skipPseudo, pseudo, k) <==>
              exists i: nat :: i < k && Wanted(parts, skipPseudo, pseudo, i) && p == Trimmed(parts[i])
  {
    hide Wanted, Trimmed;
    if k > 0 { ChosenMembers(parts, skipPseudo, pseudo, k - 1, p); }
  }

  lemma {:induction false} ChosenDistinct(parts: seq<Partition>, skipPseudo: bool, pseudo: string -> bool, k: nat)
    requires k <= |parts|
    ensures Distinct(Chosen(parts, skipPseudo, pseudo, k))
  {
    hide TrimSpace;
    if k > 0 {
      ChosenDistinct(parts, skipPseudo, pseudo, k - 1);
      var rest := Chosen(parts, skipPseudo, pseudo, k - 1);
      if Wanted(parts, skipPseudo, pseudo, k - 1) {
        forall j | 0 <= j < |rest| ensures rest[j].mountpoint != Mount(parts[k - 1]) {
          ChosenMembers(parts, skipPseudo, pseudo, k - 1, rest[j]);
        }
      }
    }
  }

  /** Partition `i` is read as `p`: its mount point, without surrounding spaces, is not empty and no earlier
      partition's, and its file system is not skipped. */
  predicate Job(parts: seq<Partition>, skipPseudo: bool, pseudo: string -> bool, i: nat, p: Partition) {
    && i < |parts| && p == Partition(parts[i].device, TrimSpace(parts[i].mountpoint), parts[i].fstype)
    && p.mountpoint != "" && (forall j | 0 <= j < i :: TrimSpace(parts[j].mountpoint) != p.mountpoint)
    && !(skipPseudo && pseudo(parts[i].fstype))
  }

  lemma JobExactly(parts: seq<Partition>, skipPseudo: bool, pseudo: string -> bool, i: nat, p: Partition)
    ensures Job(parts, skipPseudo, pseudo, i, p) <==>
              i < |parts| && Wanted(parts, skipPseudo, pseudo, i) && p == Trimmed(parts[i])
  {
    hide TrimSpace;
  }

  lemma WantedIsJob(parts: seq<Partition>, skipPseudo: bool, pseudo: string -> bool, p: Partition)
    ensures (exists i: nat :: Job(parts, skipPseudo, pseudo, i, p)) <==>
              exists i: nat :: i < |parts| && Wanted(parts, skipPseudo, pseudo, i) && p == Trimmed(parts[i])
  {
    hide Job, Wanted;
    if i: nat :| Job(parts, skipPseudo, pseudo, i, p) { JobExactly(parts, skipPseudo, pseudo, i, p); }
    if i: nat :| i < |parts| && Wanted(parts, skipPseudo, pseudo, i) && p == Trimmed(parts[i]) {
      JobExactly(parts, skipPseudo, pseudo, i, p);
    }
  }

  lemma AreDistinct(jobs: seq<Partition>)
    requires Distinct(jobs)
    ensures forall i, j | 0 <= i < j < |jobs| :: jobs[i].mountpoint != jobs[j].mountpoint
  {}

  /** The first loop of `collect`: each mount point is read at most once. A first partition that is skipped
      shadows the later ones at its mount point. */
  method Jobs(parts: seq<Partition>, skipPseudo: bool, pseudo: string -> bool) returns (jobs: seq<Partition>)
    ensures forall i, j | 0 <= i < j < |jobs| :: jobs[i].mountpoint != jobs[j].mountpoint
    ensures forall p :: p in jobs <==> exists i: nat :: Job(parts, skipPseudo, pseudo, i, p)
  {
    hide TrimSpace, Distinct;
    jobs := [];
    var seen: set<string> := {};
    for k := 0 to |parts|
      invariant forall m :: m in seen <==> m != "" && exists j :: 0 <= j < k && Mount(parts[j]) == m
      invariant jobs == Chosen(parts, skipPseudo, pseudo, k)
    {
      var p := parts[k];
      var m := TrimSpace(p.mountpoint);
      assert m == Mount(p) && (m != "" && m !in seen <==> First(parts, k));
      if m == "" { continue; }
      if m in seen { continue; }
      seen := seen + {m};
      if skipPseudo && pseudo(p.fstype) { continue; }
      jobs := jobs + [p.(mountpoint := m)];
    }
    ChosenDistinct(parts, skipPseudo, pseudo, |parts|);
    AreDistinct(jobs);
    forall p ensures p in jobs <==> exists i: nat :: Job(parts, skipPseudo, pseudo, i, p) {
      ChosenMembers(parts, skipPseudo, pseudo, |parts|, p);
      WantedIsJob(parts, skipPseudo, pseudo, p);
    }
  }

  // ---------- the report ----------

  predicate ByMount(a: Metric, b: Metric) { LexLeq(a.partition.mountpoint, b.partition.mountpoint) }

  ghost predicate Measures(jobs: seq<Partition>, read: string -> Option<Usage>, m: Metric) {
    m.partition in jobs && read(m.partition.mountpoint) == Some(m.usage)
  }

  ghost predicate NoTwins(out: seq<Metric>) {
    forall i, j | 0 <= i < j < |out| :: out[i].partition.mountpoint != out[j].partition.mountpoint
  }

  /** Every job that could be read is reported once, in the order of the mount points. */
  ghost predicate Reported(jobs: seq<Partition>, read: string -> Option<Usage>, out: seq<Metric>) {
    && Sorted(ByMount, out) && NoTwins(out)
    && forall m :: m in out <==> Measures(jobs, read, m)
  }

  lemma ByMountOrders()
    ensures TotalPreorder(ByMount)
  {
    LexOrders();
    forall a: Metric, b: Metric ensures ByMount(a, b) || ByMount(b, a) {
      assert LexLeq(a.partition.mountpoint, b.partition.mountpoint)
             || LexLeq(b.partition.mountpoint, a.partition.mountpoint);
    }
    forall a: Metric, b: Metric, c: Metric | ByMount(a, b) && ByMount(b, c) ensures ByMount(a, c) {
      LexTransitive(a.partition.mountpoint, b.partition.mountpoint, c.partition.mountpoint);
    }
  }

  /** Without twins at most one element orders like `k`. */
  lemma {:induction false} ClassIsSingle(k: Metric, out: seq<Metric>)
    requires NoTwins(out)
    ensures |Class(ByMount, k, out)| <= 1
  {
    if out != [] {
      ClassIsSingle(k, out[1..]);
      var rest := Class(ByMount, k, out[1..]);
      if Equivalent(ByMount, k, out[0]) && rest != [] {
        ClassMember(ByMount, k, out[1..], rest[0]);
        LexAntisymmetric(k.partition.mountpoint, out[0].partition.mountpoint);
        LexAntisymmetric(k.partition.mountpoint, rest[0].partition.mountpoint);
      }
    }
  }

  /** Whatever order the workers finish in, the report is the same. */
  lemma ReportIsUnique(jobs: seq<Partition>, read: string -> Option<Usage>, a: seq<Metric>, b: seq<Metric>)
    requires Reported(jobs, read, a) && Reported(jobs, read, b)
    ensures a == b
  {
    ByMountOrders();
    assert forall m :: m in a <==> m in b;
    forall k ensures Class(ByMount, k, a) == Class(ByMount, k, b) {
      ClassIsSingle(k, a);
      ClassIsSingle(k, b);
      forall m ensures m in Class(ByMount, k, a) <==> m in Class(ByMount, k, b) {
        ClassMember(ByMount, k, a, m);
        ClassMember(ByMount, k, b, m);
      }
      SingleEqual(Class(ByMount, k, a), Class(ByMount, k, b));
    }
    SortedUnique(ByMount, a, b);
  }

  lemma SingleEqual(a: seq<Metric>, b: seq<Metric>)
    requires |a| <= 1 && |b| <= 1 && forall m :: m in a <==> m in b
    ensures a == b
  {
    if a != [] { assert a[0] in b; }
    if b != [] { assert b[0] in a; }
  }

  /** The rest of `collect`: jobs finish in any order, and the report is sorted at the end. */
  method Gather(jobs: seq<Partition>, read: string -> Option<Usage>) returns (out: seq<Metric>)
    requires Distinct(jobs)
    ensures Reported(jobs, read, out)
  {
    out := [];
    var left := Below(|jobs|);
    while left != {}
      invariant left <= Below(|jobs|)
      invariant NoTwins(out)
      invariant forall m :: m in out <==>
                  exists i :: 0 <= i < |jobs| && i !in left && m.partition == jobs[i]
                              && read(jobs[i].mountpoint) == Some(m.usage)
      decreases |left|
    {
      var i := Pick(left);
      left := left - {i};
      var usage := read(jobs[i].mountpoint);
      if usage.Some? { out := out + [Metric(jobs[i], usage.value)]; }
    }
    SortedReport(jobs, read, out);
    out := Sort(ByMount, out);
  }

  lemma SortedReport(jobs: seq<Partition>, read: string -> Option<Usage>, arrived: seq<Metric>)
    requires NoTwins(arrived) && forall m :: m in arrived <==> Measures(jobs, read, m)
    ensures Reported(jobs, read, Sort(ByMount, arrived))
  {
    var out := Sort(ByMount, arrived);
    ByMountOrders();
    SortIsStable(ByMount, arrived);
    SortMembers(ByMount, arrived);
    StillNoTwins(arrived, out);
    forall m ensures m in out <==> m in arrived {
      assert m in out <==> m in multiset(out);
      assert m in arrived <==> m in multiset(arrived);
    }
  }

  lemma {:induction false} ClassHoldsBoth(k: Metric, s: seq<Metric>, i: nat, j: nat)
    requires i < j < |s| && Equivalent(ByMount, k, s[i]) && Equivalent(ByMount, k, s[j])
    ensures |Class(ByMount, k, s)| >= 2
  {
    if i == 0 { ClassMember(ByMount, k, s[1..], s[j]); } else { ClassHoldsBoth(k, s[1..], i - 1, j - 1); }
  }

  lemma StillNoTwins(arrived: seq<Metric>, out: seq<Metric>)
    requires NoTwins(arrived) && StablySorted(ByMount, arrived, out)
    ensures NoTwins(out)
  {
    ByMountOrders();
    forall i, j | 0 <= i < j < |out| ensures out[i].partition.mountpoint != out[j].partition.mountpoint {
      assert Class(ByMount, out[i], out) == Class(ByMount, out[i], arrived);
      ClassIsSingle(out[i], arrived);
      assert ByMount(out[i], out[i]);
      if out[i].partition.mountpoint == out[j].partition.mountpoint { ClassHoldsBoth(out[i], out, i, j); }
    }
  }

  /** `collect`: one entry, in the order of the mount points, for each wanted partition that could be read. */
  method Collect(parts: seq<Partition>, skipPseudo: bool, pseudo: string -> bool, read: string -> Option<Usage>)
    returns (out: seq<Metric>)
    ensures forall i, j | 0 <= i < j < |out| ::
              LexLeq(out[i].partition.mountpoint, out[j].partition.mountpoint)
              && out[i].partition.mountpoint != out[j].partition.mountpoint
    ensures forall m :: m in out <==>
              (exists i: nat :: Job(parts, skipPseudo, pseudo, i, m.partition))
              && read(m.partition.mountpoint) == Some(m.usage)
  {
    hide Job, Wanted, LexLeq;
    var jobs := Jobs(parts, skipPseudo, pseudo);
    out := Gather(jobs, read);
  }
}
