/** Guest-IP collection on its state directory (internal/pve/guest_cache.go): the scan that finds due
    guests and orders them, and the query of one guest, each changing state files one write at a time. */
module GuestCollector {
  import opened Common
  import opened Sorting
  import opened GuestBackoff

  /** A state file that exists; a missing one is not in the directory. */
  datatype File = Unreadable | Readable(state: GuestState)

  function Contents(files: map<int, File>, id: int): File {
    if id in files then files[id] else Readable(NO_STATE)
  }

  datatype Candidate = Candidate(target: Target, next: Time, priority: int)

  /** Healthy guests first, then first observations, then retries. */
  function Priority(state: GuestState): int {
    if state.failures > 0 then 2 else if state.collectedAt == 0 then 1 else 0
  }

  /** The order in which candidates are sorted: by priority, then by due time. */
  predicate Before(a: Candidate, b: Candidate) {
    a.priority < b.priority || (a.priority == b.priority && a.next <= b.next)
  }

  lemma BeforeOrders()
    ensures TotalPreorder(Before)
  {}

  /** A readable state that belongs to this boot and agent of this VM on this host. */
  predicate Current(file: File, host: string, target: Target) {
    file.Readable? && SameIdentity(file.state, host, target)
  }

  /** What the scan leaves in the file of a target: states of another identity are reset. */
  function Settled(file: File, host: string, target: Target): File {
    if file.Unreadable? || Current(file, host, target) then file else Readable(Reset(host, target))
  }

  /** A target that the scan selects, judged by the file as the scan leaves it. */
  predicate IsDue(file: File, target: Target, now: Time) {
    file.Readable? && target.agent != "" && now >= file.state.next
  }

  function Entry(file: File, target: Target): Candidate
    requires file.Readable?
  {
    Candidate(target, file.state.next, Priority(file.state))
  }

  /** The scan of one target: a state of another boot, agent or host is replaced. */
  predicate NeedsReset(files: map<int, File>, host: string, target: Target) {
    var file := Contents(files, target.id);
    file.Readable? && !SameIdentity(file.state, host, target)
  }

  function Adopted(files: map<int, File>, host: string, target: Target): map<int, File> {
    if NeedsReset(files, host, target) then files[target.id := Readable(Reset(host, target))] else files
  }

  /** The directory after a scan of these targets, in their order. */
  function Swept(files: map<int, File>, host: string, targets: seq<Target>): map<int, File> {
    if targets == [] then files
    else Adopted(Swept(files, host, targets[..|targets| - 1]), host, targets[|targets| - 1])
  }

  /** The candidates that the scan finds, in its order: each target is judged by its file as the scan has
      left it by then. */
  function DueIn(files: map<int, File>, host: string, targets: seq<Target>, now: Time): seq<Candidate> {
    if targets == [] then []
    else
      var target := targets[|targets| - 1];
      var file := Contents(Swept(files, host, targets), target.id);
      DueIn(files, host, targets[..|targets| - 1], now)
      + (if IsDue(file, target, now) then [Entry(file, target)] else [])
  }

  predicate DistinctTargets(targets: seq<Target>) {
    forall i, j | 0 <= i < j < |targets| :: targets[i].id != targets[j].id
  }

  predicate Mentioned(targets: seq<Target>, id: int) { exists i :: 0 <= i < |targets| && targets[i].id == id }

  lemma {:induction false} SweptOthers(files: map<int, File>, host: string, targets: seq<Target>, id: int)
    requires !Mentioned(targets, id)
    ensures Contents(Swept(files, host, targets), id) == Contents(files, id)
  {
    if targets != [] {
      var rest := targets[..|targets| - 1];
      assert targets[|targets| - 1].id != id;
      forall i | 0 <= i < |rest| ensures rest[i].id != id { assert rest[i] == targets[i]; }
      SweptOthers(files, host, rest, id);
    }
  }

  /** Without duplicates every file ends up settled, whatever the order. */
  lemma {:induction false} SweptSettles(files: map<int, File>, host: string, targets: seq<Target>, i: nat)
    requires DistinctTargets(targets) && i < |targets|
    ensures Contents(Swept(files, host, targets), targets[i].id) ==
            Settled(Contents(files, targets[i].id), host, targets[i])
    ensures var file, file' := Contents(files, targets[i].id), Contents(Swept(files, host, targets), targets[i].id);
            && (file'.Readable? ==>
                  file'.state.host == host && file'.state.start == targets[i].start
                  && file'.state.agent == targets[i].agent)
            && (file' == file || file' == Readable(GuestState(host, 0, 0, targets[i].start, targets[i].agent, 0, [])))
            && (file.Unreadable? ==> file' == file)
  {
    var n := |targets| - 1;
    var rest := targets[..n];
    if i < n {
      SweptSettles(files, host, rest, i);
      assert targets[i].id != targets[n].id;
    } else {
      SweptOthers(files, host, rest, targets[n].id);
    }
  }

  /** The file of target `i` when the scan has dealt with it. */
  function FileAt(files: map<int, File>, host: string, targets: seq<Target>, i: nat): File
    requires i < |targets|
  {
    Contents(Swept(files, host, targets[..i + 1]), targets[i].id)
  }

  /** Target `i` is due when the scan comes to it. */
  predicate DueAt(files: map<int, File>, host: string, targets: seq<Target>, now: Time, i: nat)
    requires i < |targets|
  {
    IsDue(FileAt(files, host, targets, i), targets[i], now)
  }

  lemma PrefixFile(files: map<int, File>, host: string, targets: seq<Target>, n: nat, i: nat)
    requires i < n <= |targets|
    ensures targets[..n][i] == targets[i] && FileAt(files, host, targets[..n], i) == FileAt(files, host, targets, i)
  {
    assert targets[..n][..i + 1] == targets[..i + 1];
  }

  lemma DueInLast(files: map<int, File>, host: string, targets: seq<Target>, now: Time)
    requires targets != []
    ensures var n := |targets| - 1;
            DueIn(files, host, targets, now) ==
            DueIn(files, host, targets[..n], now)
            + (if DueAt(files, host, targets, now, n) then [Entry(FileAt(files, host, targets, n), targets[n])] else [])
  {
    assert targets[..|targets|] == targets;
  }

  lemma {:induction false} DueIsCandidate(files: map<int, File>, host: string, targets: seq<Target>, now: Time, i: nat)
    requires i < |targets| && DueAt(files, host, targets, now, i)
    ensures Entry(FileAt(files, host, targets, i), targets[i]) in DueIn(files, host, targets, now)
  {
    DueInLast(files, host, targets, now);
    hide FileAt, DueIn;
    var n: nat := |targets| - 1;
    if i < n {
      PrefixFile(files, host, targets, n, i);
      DueIsCandidate(files, host, targets[..n], now, i);
    }
  }

  lemma {:induction false} CandidateIsDue(files: map<int, File>, host: string, targets: seq<Target>, now: Time,
                                          c: Candidate)
    returns (i: nat)
    requires c in DueIn(files, host, targets, now)
    ensures i < |targets| && DueAt(files, host, targets, now, i)
    ensures c == Entry(FileAt(files, host, targets, i), targets[i])
  {
    var n: nat := |targets| - 1;
    DueInLast(files, host, targets, now);
    hide FileAt, DueIn;
    if c in DueIn(files, host, targets[..n], now) {
      i := CandidateIsDue(files, host, targets[..n], now, c);
      PrefixFile(files, host, targets, n, i);
    } else {
      i := n;
    }
  }

  /** The target has an agent, a readable state and its time has come; healthy guests come first, then first
      observations, then retries. */
  predicate IsCandidate(file: File, target: Target, now: Time, c: Candidate) {
    && target.agent != "" && file.Readable? && file.state.next <= now
    && c.target == target && c.next == file.state.next
    && (file.state.failures > 0 ==> c.priority == 2)
    && (file.state.failures <= 0 && file.state.collectedAt == 0 ==> c.priority == 1)
    && (file.state.failures <= 0 && file.state.collectedAt != 0 ==> c.priority == 0)
  }

  lemma CandidateExactly(file: File, target: Target, now: Time, c: Candidate)
    ensures IsCandidate(file, target, now, c) <==> IsDue(file, target, now) && c == Entry(file, target)
  {}

  /** A candidate stands for a target that was due when the scan came to it. */
  lemma DueMembers(files: map<int, File>, host: string, targets: seq<Target>, now: Time, c: Candidate)
    ensures c in DueIn(files, host, targets, now) <==>
              exists i: nat :: i < |targets| && IsCandidate(FileAt(files, host, targets, i), targets[i], now, c)
  {
    forall i: nat | i < |targets|
      ensures IsCandidate(FileAt(files, host, targets, i), targets[i], now, c) <==>
                DueAt(files, host, targets, now, i) && c == Entry(FileAt(files, host, targets, i), targets[i])
    {
      CandidateExactly(FileAt(files, host, targets, i), targets[i], now, c);
    }
    hide FileAt, DueIn;
    if c in DueIn(files, host, targets, now) { var i := CandidateIsDue(files, host, targets, now, c); }
    forall i: nat | i < |targets| && DueAt(files, host, targets, now, i)
                    && c == Entry(FileAt(files, host, targets, i), targets[i])
      ensures c in DueIn(files, host, targets, now)
    {
      DueIsCandidate(files, host, targets, now, i);
    }
  }

  lemma SweepStarts(files: map<int, File>, host: string, targets: seq<Target>, now: Time)
    ensures Swept(files, host, targets[..0]) == files && DueIn(files, host, targets[..0], now) == []
  {}

  /** One more target of the scan. */
  lemma SweepNext(files: map<int, File>, host: string, targets: seq<Target>, now: Time, k: nat)
    requires k < |targets|
    ensures Swept(files, host, targets[..k + 1]) == Adopted(Swept(files, host, targets[..k]), host, targets[k])
    ensures var file := Contents(Swept(files, host, targets[..k + 1]), targets[k].id);
            DueIn(files, host, targets[..k + 1], now) ==
            DueIn(files, host, targets[..k], now)
            + (if IsDue(file, targets[k], now) then [Entry(file, targets[k])] else [])
  {
    assert targets[..k + 1][..k] == targets[..k];
  }

  class GuestDir {
    var files: map<int, File>

    constructor ()
      ensures files == map[]
    {
      files := map[];
    }

    /** Lines 144-155 for one target. */
    method Adopt(host: string, target: Target, wrote: bool) returns (ok: bool, file: File)
      modifies this
      ensures ok <==> NeedsReset(old(files), host, target) ==> wrote
      ensures files == if ok then Adopted(old(files), host, target) else old(files)
      ensures file == Contents(files, target.id)
    {
      file := Contents(files, target.id);
      ok := true;
      if file.Readable? {
        var state := file.state;
        if state.host != host || state.start != target.start || state.agent != target.agent {
          state := Reset(host, target);
          if !wrote { return false, file; }
          files := files[target.id := Readable(state)];
          file := Readable(state);
        }
      }
    }

    /** The first half of `collectGuests`, whatever targets it is given. `wrote(k)` says whether the write for
        target `k` succeeds; the first one that is needed and fails ends the round. */
    method Scan(host: string, targets: seq<Target>, now: Time, wrote: nat -> bool)
      returns (ok: bool, candidates: seq<Candidate>)
      modifies this
      ensures ok <==>
              forall k: nat | k < |targets| && NeedsReset(Swept(old(files), host, targets[..k]), host, targets[k]) ::
                wrote(k)
      ensures ok ==> files == Swept(old(files), host, targets)
      ensures !ok ==> exists k: nat :: k < |targets| && files == Swept(old(files), host, targets[..k])
                                       && NeedsReset(files, host, targets[k]) && !wrote(k)
      ensures ok ==> StablySorted(Before, DueIn(old(files), host, targets, now), candidates)
      ensures ok ==> candidates == Sort(Before, DueIn(old(files), host, targets, now))
    {
      hide NeedsReset, Adopted, Swept, DueIn, Sort;
      candidates := [];
      SweepStarts(files, host, targets, now);
      for k := 0 to |targets|
        invariant files == Swept(old(files), host, targets[..k])
        invariant forall i: nat | i < k && NeedsReset(Swept(old(files), host, targets[..i]), host, targets[i]) ::
                    wrote(i)
        invariant candidates == DueIn(old(files), host, targets[..k], now)
      {
        var target := targets[k];
        SweepNext(old(files), host, targets, now, k);
        var good, file := Adopt(host, target, wrote(k));
        if !good { return false, []; }
        if file.Readable? {
          var state := file.state;
          if target.agent != "" && now >= state.next {
            var priority := 0;
            if state.collectedAt == 0 { priority := 1; }
            if state.failures > 0 { priority := 2; }
            candidates := candidates + [Candidate(target, state.next, priority)];
          }
        }
      }
      assert targets[..|targets|] == targets;
      BeforeOrders();
      SortIsStable(Before, candidates);
      return true, Sort(Before, candidates);
    }

    /** `queryGuest`. `first` and `second` are its clock readings, `stopped` whether the context was done
        before it reserved, `wrote1` and `wrote2` whether its writes succeed, and `outcome` what the guest
        answers. `during` is the file as it stood while the guest was being asked, and would stand if the
        helper crashed there. */
    method Query(host: string, target: Target, first: Time, stopped: bool, wrote1: bool, outcome: Outcome, second: Time,
                 wrote2: bool)
      returns (asked: bool, ghost during: File)
      modifies this
      ensures asked <==> Asks(Contents(old(files), target.id), first, stopped, wrote1)
      ensures !asked ==> files == old(files)
      ensures asked ==> during == Readable(Reserve(Contents(old(files), target.id).state, first))
      ensures asked ==>
                var state := Contents(old(files), target.id).state;
                files == old(files)[target.id := AfterQuery(state, host, target, first, outcome, second, wrote2)]
      ensures asked <==>
                && (target.id in old(files) ==>
                      old(files)[target.id].Readable? && first >= old(files)[target.id].state.next)
                && !stopped && wrote1
      ensures asked ==> target.id in files && during.Readable?
      ensures asked ==>
                var before := if target.id in old(files) then old(files)[target.id].state
                              else GuestState("", 0, 0, 0, "", 0, []);
                && Booked(before, during.state, first)
                && (!wrote2 || outcome.Failed? ==> files[target.id] == during)
                && (wrote2 && outcome.OuterStop? ==> files[target.id] == Readable(before.(next := second + 3000)))
                && (wrote2 && outcome.Answered? ==>
                      files[target.id] == Readable(GuestState(host, second + 60_000, 0, target.start, target.agent,
                                                              second, outcome.ips)))
    {
      QueryExactly(Contents(files, target.id), host, target, first, stopped, wrote1, outcome, second, wrote2);
      asked, during := false, Unreadable;
      var file := Contents(files, target.id);
      if file.Unreadable? { return; }
      var state := file.state;
      if stopped || first < state.next { return; }
      var previous := state;
      var failures := Min(Max(state.failures, 0) + 1, 3);
      state := state.(failures := failures, next := first + [MINUTE, 2 * MINUTE, 5 * MINUTE][failures - 1]);
      if !wrote1 { return; }
      files := files[target.id := Readable(state)];
      during := files[target.id];
      asked := true;
      match outcome {
        case OuterStop =>
          previous := previous.(next := second + CANCEL_DELAY);
          if wrote2 { files := files[target.id := Readable(previous)]; }
        case Failed =>
        case Answered(ips) =>
          state := state.(host := host, start := target.start, agent := target.agent, ips := ips, collectedAt := second,
                          failures := 0, next := second + MINUTE);
          if wrote2 { files := files[target.id := Readable(state)]; }
      }
    }
  }

  /** The file once `queryGuest` has returned. */
  /** A reservation at this time counts one more failure, up to three, and holds the next attempt back for 1, 2 or 5
      minutes; the answer stays. */
  predicate Booked(before: GuestState, after: GuestState, at: Time) {
    && after == before.(failures := after.failures, next := after.next)
    && (before.failures <= 0 ==> after.failures == 1 && after.next == at + 60_000)
    && (before.failures == 1 ==> after.failures == 2 && after.next == at + 120_000)
    && (before.failures >= 2 ==> after.failures == 3 && after.next == at + 300_000)
  }

  lemma QueryExactly(file: File, host: string, target: Target, first: Time, stopped: bool, wrote1: bool,
                     outcome: Outcome, second: Time, wrote2: bool)
    ensures Asks(file, first, stopped, wrote1) <==> file.Readable? && first >= file.state.next && !stopped && wrote1
    ensures file.Readable? ==>
              var after := AfterQuery(file.state, host, target, first, outcome, second, wrote2);
              && Booked(file.state, Reserve(file.state, first), first)
              && (!wrote2 || outcome.Failed? ==> after == Readable(Reserve(file.state, first)))
              && (wrote2 && outcome.OuterStop? ==> after == Readable(file.state.(next := second + 3000)))
              && (wrote2 && outcome.Answered? ==>
                    after == Readable(GuestState(host, second + 60_000, 0, target.start, target.agent, second,
                                                 outcome.ips)))
  {}

  function AfterQuery(previous: GuestState, host: string, target: Target, first: Time, outcome: Outcome, second: Time,
                      wrote: bool): File {
    var state := Reserve(previous, first);
    if !wrote then Readable(state)
    else match outcome
         case OuterStop => Readable(Restore(previous, second))
         case Failed => Readable(state)
         case Answered(ips) => Readable(Collected(state, host, target, ips, second))
  }

  /** Whether a call of `queryGuest` asks the guest: its clock reads `first`, and `wrote` says whether it could
      write its reservation. */
  predicate Asks(file: File, first: Time, stopped: bool, wrote: bool) {
    file.Readable? && !stopped && wrote && first >= file.state.next
  }

  /** Every call of `queryGuest` is a path through the steps of `GuestBackoff`: it asks and takes five steps,
      or it ends early, takes none and leaves the file as it was. */
  lemma QueryIsBackoff(v: Vm, target: Target, first: Time, stopped: bool, wrote1: bool, asked: Time, outcome: Outcome,
                       second: Time, wrote2: bool)
    returns (vs: seq<Vm>, steps: seq<Step>)
    requires v.phase.Idle? && first <= v.now <= asked && second <= asked
    ensures |vs| == |steps| + 1 && vs[0] == v && forall k | 0 <= k < |steps| :: Next(vs[k], vs[k + 1], steps[k])
    ensures var v' := vs[|steps|]; var file := Readable(v.file);
            && v'.phase.Idle?
            && Readable(v'.file) == (if Asks(file, first, stopped, wrote1)
                                     then AfterQuery(v.file, v.host, target, first, outcome, second, wrote2) else file)
            && (Asks(file, first, stopped, wrote1) ==>
                  |steps| == 5 && vs[1].file == Reserve(v.file, first) && steps[2] == Do(Launch))
            && (!Asks(file, first, stopped, wrote1) ==> steps == [])
  {
    if !Asks(Readable(v.file), first, stopped, wrote1) { return [v], []; }
    var state := Reserve(v.file, first);
    var v1 := v.(file := state, phase := Waiting(target, v.file, state), log := v.log + [Reserved(first)]);
    var v2 := v1.(now := asked);
    var v3 := v2.(phase := Looking(target, v.file, state), log := v2.log + [Queried(asked)]);
    var v4 := v3.(phase := Returned(target, v.file, state, outcome), log := v3.log + []);
    var (file, phase, events) := Effect(v4.host, v4.now, v4.file, v4.phase, Conclude(second, wrote2));
    var v5 := v4.(file := file, phase := phase, log := v4.log + events);
    vs := [v, v1, v2, v3, v4, v5];
    steps := [Do(Begin(target, v.file, first)), Tick(asked), Do(Launch), Do(Return(outcome)),
              Do(Conclude(second, wrote2))];
  }
}
