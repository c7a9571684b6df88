/** The file-system usage reader (internal/collect/disk_usage.go): readers share one background probe per
    path, give up on it after a while, and take it up again when it comes back. */
module ProbeSpec {
  import opened Common

  const TIMEOUT: nat := 800

  datatype Usage = Usage(total: nat, used: nat, free: nat)

  /** What the probe function returns. */
  datatype Outcome = Outcome(usage: Option<Usage>, err: Option<string>)

  /** A `usageProbe`; its `done` channel is closed once there is an outcome. */
  datatype Probe = Probe(path: string, began: Time, outcome: Option<Outcome>)

  datatype Entry = Entry(cached: Option<Usage>, probe: Option<nat>, stuck: bool)

  const NEW_ENTRY := Entry(None, None, false)

  /** `probes` keeps every probe ever made; entries refer to them by number. */
  datatype Table = Table(entries: map<string, Entry>, probes: seq<Probe>)

  datatype Answer = Value(usage: Usage) | Failed(err: string) | DeadlineExceeded

  /** What a `read` has to do after its locked section. */
  datatype Begin = Answered(answer: Answer) | Wait(probe: nat)

  function Fallback(cached: Option<Usage>): Answer {
    match cached
    case Some(u) => Value(u)
    case None => DeadlineExceeded
  }

  // ---------- the locked sections ----------

  function EntryOf(t: Table, path: string): Entry { if path in t.entries then t.entries[path] else NEW_ENTRY }

  /** Lines 52-73. */
  function Looked(t: Table, path: string, now: Time): Table {
    var e := EntryOf(t, path);
    if e.stuck || e.probe.Some? then t.(entries := t.entries[path := e])
    else Table(t.entries[path := e.(probe := Some(|t.probes|))], t.probes + [Probe(path, now, None)])
  }

  /** Lines 59-81: who answers at once, and who waits for which probe. */
  function Begins(t: Table, path: string): Begin {
    var e := EntryOf(t, path);
    if e.stuck then Answered(Fallback(e.cached))
    else match e.probe
         case None => Wait(|t.probes|)
         case Some(p) => if e.cached.Some? then Answered(Value(e.cached.value)) else Wait(p)
  }

  /** Lines 87-96. */
  function Finished(t: Table, p: nat, o: Outcome): Table
    requires p < |t.probes| && t.probes[p].path in t.entries
  {
    var path := t.probes[p].path;
    var cached := if o.err.None? && o.usage.Some? then o.usage else t.entries[path].cached;
    Table(t.entries[path := Entry(cached, None, false)], t.probes[p := t.probes[p].(outcome := Some(o))])
  }

  /** Lines 105-114. */
  function Woken(o: Outcome, cached: Option<Usage>): Answer {
    if o.err.Some? then Failed(o.err.value)
    else if o.usage.Some? then Value(o.usage.value)
    else Fallback(cached)
  }

  /** Lines 116-120. */
  function TimedOut(t: Table, path: string, p: nat): Table
    requires path in t.entries
  {
    if t.entries[path].probe == Some(p) then t.(entries := t.entries[path := t.entries[path].(stuck := true)]) else t
  }

  // ---------- readers and probes, interleaved ----------

  /** A call of `read` in `waitProbe`. `known`: the good probes of the path when it looked. */
  datatype Reader = Reader(path: string, probe: nat, cached: Option<Usage>, since: Time, known: set<nat>)

  datatype Reply = Reply(path: string, answer: Answer, known: set<nat>)

  datatype Sys = Sys(now: Time, table: Table, readers: map<nat, Reader>, replies: seq<Reply>)

  datatype Step =
    | Tick(later: Time)
    | Read(caller: nat, path: string)
    | Finish(p: nat, outcome: Outcome)
    | Wake(caller: nat)
    | Timeout(caller: nat)

  predicate Good(p: Probe, path: string) {
    p.path == path && p.outcome.Some? && p.outcome.value.err.None? && p.outcome.value.usage.Some?
  }

  ghost function Known(probes: seq<Probe>, path: string): set<nat> {
    set p | 0 <= p < |probes| && Good(probes[p], path)
  }

  function Leave(s: Sys, caller: nat, answer: Answer): Sys
    requires caller in s.readers
  {
    s.(readers := s.readers - {caller},
       replies := s.replies + [Reply(s.readers[caller].path, answer, s.readers[caller].known)])
  }

  ghost predicate Next(s: Sys, s': Sys, step: Step) {
    match step
    case Tick(later) => later >= s.now && s' == s.(now := later)
    case Read(caller, path) =>
      && caller !in s.readers
      && var known := Known(s.table.probes, path);
         var s1 := s.(table := Looked(s.table, path, s.now));
         s' == (match Begins(s.table, path)
                case Answered(answer) => s1.(replies := s.replies + [Reply(path, answer, known)])
                case Wait(p) =>
                  s1.(readers := s.readers[caller := Reader(path, p, EntryOf(s.table, path).cached, s.now, known)]))
    case Finish(p, o) =>
      && p < |s.table.probes| && s.table.probes[p].outcome.None? && s.table.probes[p].path in s.table.entries
      && s' == s.(table := Finished(s.table, p, o))
    case Wake(caller) =>
      && caller in s.readers && s.readers[caller].probe < |s.table.probes|
      && s.table.probes[s.readers[caller].probe].outcome.Some?
      && s' == Leave(s, caller, Woken(s.table.probes[s.readers[caller].probe].outcome.value, s.readers[caller].cached))
    case Timeout(caller) =>
      && caller in s.readers && s.now >= s.readers[caller].since + TIMEOUT && s.readers[caller].path in s.table.entries
      && var r := s.readers[caller];
         s' == Leave(s, caller, Fallback(r.cached)).(table := TimedOut(s.table, r.path, r.probe))
  }

  // ---------- the invariant ----------

  /** Each outstanding probe is the one its path's entry names, and each entry names an outstanding one. */
  ghost predicate Paired(t: Table) {
    && (forall path | path in t.entries && t.entries[path].probe.Some? ::
          t.entries[path].probe.value < |t.probes|
          && t.probes[t.entries[path].probe.value].path == path
          && t.probes[t.entries[path].probe.value].outcome.None?)
    && (forall p | 0 <= p < |t.probes| :: t.probes[p].path in t.entries)
    && (forall p | 0 <= p < |t.probes| && t.probes[p].outcome.None? :: t.entries[t.probes[p].path].probe == Some(p))
    && (forall path | path in t.entries && t.entries[path].stuck :: t.entries[path].probe.Some?)
  }

  /** The outstanding probe of a path is its latest. */
  ghost predicate Ordered(probes: seq<Probe>) {
    forall p, q | 0 <= p < |probes| && 0 <= q < |probes| && probes[p].outcome.None?
                  && probes[q].path == probes[p].path :: q <= p
  }

  /** `u` is what the latest of the good probes found, if there is one. */
  ghost predicate Latest(probes: seq<Probe>, path: string, good: set<nat>, u: Option<Usage>) {
    if u.None? then good == {}
    else exists p: nat :: Found(probes, path, good, u.value, p)
  }

  /** Good probe `p` found `u`, and none of `good` is later. */
  ghost predicate Found(probes: seq<Probe>, path: string, good: set<nat>, u: Usage, p: nat) {
    && p < |probes| && Good(probes[p], path) && probes[p].outcome.value.usage == Some(u)
    && forall q | q in good :: q <= p
  }

  ghost predicate CacheInv(t: Table) {
    forall path | path in t.entries :: Latest(t.probes, path, Known(t.probes, path), t.entries[path].cached)
  }

  ghost predicate ReaderInv(t: Table, now: Time, r: Reader) {
    && r.path in t.entries && r.since <= now
    && r.probe < |t.probes| && t.probes[r.probe].path == r.path && t.probes[r.probe].began <= r.since
    && Latest(t.probes, r.path, r.known, r.cached)
    && (forall q | q in r.known :: q < r.probe)
  }

  /** A stuck probe has kept some reader waiting for the whole timeout. */
  ghost predicate StuckInv(t: Table, now: Time) {
    && (forall p | 0 <= p < |t.probes| :: t.probes[p].began <= now)
    && (forall path | path in t.entries && t.entries[path].stuck && t.entries[path].probe.Some?
        && t.entries[path].probe.value < |t.probes| ::
          now >= t.probes[t.entries[path].probe.value].began + TIMEOUT)
  }

  /** A value comes from a completed probe of the path, and none that was known when the read began is
      later; a deadline is reported only while no probe of the path had ever been good. */
  ghost predicate Honest(probes: seq<Probe>, r: Reply) {
    match r.answer
    case Value(u) => Latest(probes, r.path, r.known, Some(u))
    case Failed(err) =>
      exists p: nat :: p < |probes| && probes[p].path == r.path && probes[p].outcome.Some?
                       && probes[p].outcome.value.err == Some(err)
    case DeadlineExceeded => r.known == {}
  }

  ghost predicate SysInv(s: Sys) {
    && Paired(s.table) && Ordered(s.table.probes)
    && CacheInv(s.table)
    && StuckInv(s.table, s.now)
    && (forall c | c in s.readers :: ReaderInv(s.table, s.now, s.readers[c]))
    && (forall i | 0 <= i < |s.replies| :: Honest(s.table.probes, s.replies[i]))
  }

  // ---------- probes only ever complete ----------

  ghost predicate Extends(a: seq<Probe>, b: seq<Probe>) {
    && |a| <= |b|
    && forall p | 0 <= p < |a| ::
         b[p].path == a[p].path && b[p].began == a[p].began && (a[p].outcome.Some? ==> b[p].outcome == a[p].outcome)
  }

  lemma LatestStays(a: seq<Probe>, b: seq<Probe>, path: string, good: set<nat>, u: Option<Usage>)
    requires Extends(a, b) && Latest(a, path, good, u)
    ensures Latest(b, path, good, u)
  {
    if u.Some? {
      var p: nat :| Found(a, path, good, u.value, p);
      assert Found(b, path, good, u.value, p);
    }
  }

  lemma HonestStays(a: seq<Probe>, b: seq<Probe>, r: Reply)
    requires Extends(a, b) && Honest(a, r)
    ensures Honest(b, r)
  {
    match r.answer
    case Value(u) => LatestStays(a, b, r.path, r.known, Some(u));
    case Failed(err) =>
      var p: nat :| p < |a| && a[p].path == r.path && a[p].outcome.Some? && a[p].outcome.value.err == Some(err);
      assert b[p].outcome.value.err == Some(err);
    case DeadlineExceeded =>
  }

  lemma StepExtends(s: Sys, s': Sys, step: Step)
    requires Next(s, s', step)
    ensures Extends(s.table.probes, s'.table.probes)
  {}

  // ---------- every step keeps it ----------

  lemma LookedKeepsPairs(t: Table, path: string, now: Time)
    requires Paired(t)
    ensures Paired(Looked(t, path, now))
  {
    var t' := Looked(t, path, now);
    if |t'.probes| > |t.probes| {
      assert t'.probes[..|t.probes|] == t.probes;
      assert t'.probes[|t.probes|] == Probe(path, now, None);
    }
  }

  lemma LookedKeepsOrder(t: Table, path: string, now: Time)
    requires Paired(t) && Ordered(t.probes)
    ensures Ordered(Looked(t, path, now).probes)
  {}

  lemma FinishedKeepsPairs(t: Table, p: nat, o: Outcome)
    requires Paired(t) && p < |t.probes| && t.probes[p].outcome.None?
    ensures Paired(Finished(t, p, o))
  {}

  lemma StepKeepsPairs(s: Sys, s': Sys, step: Step)
    requires Paired(s.table) && Next(s, s', step)
    ensures Paired(s'.table)
  {
    hide Known, Good, Looked, Finished;
    match step
    case Read(_, path) => LookedKeepsPairs(s.table, path, s.now);
    case Finish(p, o) => FinishedKeepsPairs(s.table, p, o);
    case _ =>
  }

  lemma StepKeepsOrder(s: Sys, s': Sys, step: Step)
    requires Paired(s.table) && Ordered(s.table.probes) && Next(s, s', step)
    ensures Ordered(s'.table.probes)
  {
    hide Known, Good, Looked;
    match step
    case Read(_, path) => LookedKeepsOrder(s.table, path, s.now);
    case _ =>
  }

  lemma StepKeepsStuck(s: Sys, s': Sys, step: Step)
    requires Paired(s.table) && StuckInv(s.table, s.now) && Next(s, s', step)
    requires forall c | c in s.readers :: ReaderInv(s.table, s.now, s.readers[c])
    ensures StuckInv(s'.table, s'.now)
  {
    hide Known, Good, Latest;
  }

  lemma ReadKeepsCache(t: Table, path: string, now: Time)
    requires Paired(t) && CacheInv(t)
    ensures CacheInv(Looked(t, path, now))
  {
    var t' := Looked(t, path, now);
    forall x | x in t'.entries ensures Latest(t'.probes, x, Known(t'.probes, x), t'.entries[x].cached) {
      assert Known(t'.probes, x) == Known(t.probes, x);
      if x in t.entries { LatestStays(t.probes, t'.probes, x, Known(t.probes, x), t.entries[x].cached); }
    }
  }

  /** The outstanding probe of a path is later than every good one. */
  lemma FinishKeepsCache(t: Table, p: nat, o: Outcome)
    requires Paired(t) && Ordered(t.probes) && CacheInv(t) && p < |t.probes| && t.probes[p].outcome.None?
    ensures CacheInv(Finished(t, p, o))
  {
    var t' := Finished(t, p, o);
    forall x | x in t'.entries ensures Latest(t'.probes, x, Known(t'.probes, x), t'.entries[x].cached) {
      if x == t.probes[p].path && o.err.None? && o.usage.Some? {
        assert Found(t'.probes, x, Known(t'.probes, x), o.usage.value, p);
      } else {
        assert Known(t'.probes, x) == Known(t.probes, x);
        LatestStays(t.probes, t'.probes, x, Known(t.probes, x), t.entries[x].cached);
      }
    }
  }

  lemma StepKeepsCache(s: Sys, s': Sys, step: Step)
    requires Paired(s.table) && Ordered(s.table.probes) && CacheInv(s.table) && Next(s, s', step)
    ensures CacheInv(s'.table)
  {
    hide Known, Latest, Looked, Finished, Paired;
    match step
    case Read(_, path) => ReadKeepsCache(s.table, path, s.now);
    case Finish(p, o) => FinishKeepsCache(s.table, p, o);
    case _ =>
  }

  lemma ReaderJoins(t: Table, path: string, now: Time, p: nat)
    requires Paired(t) && Ordered(t.probes) && CacheInv(t) && StuckInv(t, now) && Begins(t, path) == Wait(p)
    ensures ReaderInv(Looked(t, path, now), now, Reader(path, p, EntryOf(t, path).cached, now, Known(t.probes, path)))
  {
    var t' := Looked(t, path, now);
    if path in t.entries {
      LatestStays(t.probes, t'.probes, path, Known(t.probes, path), t.entries[path].cached);
    } else {
      assert Known(t.probes, path) == {};
    }
  }

  lemma ReaderStays(t: Table, t': Table, now: Time, now': Time, r: Reader)
    requires ReaderInv(t, now, r) && Extends(t.probes, t'.probes) && t.entries.Keys <= t'.entries.Keys && now <= now'
    ensures ReaderInv(t', now', r)
  {
    LatestStays(t.probes, t'.probes, r.path, r.known, r.cached);
  }

  lemma StepKeepsReaders(s: Sys, s': Sys, step: Step)
    requires SysInv(s) && Next(s, s', step)
    ensures forall c | c in s'.readers :: ReaderInv(s'.table, s'.now, s'.readers[c])
  {
    StepExtends(s, s', step);
    forall c | c in s'.readers ensures ReaderInv(s'.table, s'.now, s'.readers[c]) {
      if c in s.readers { ReaderStays(s.table, s'.table, s.now, s'.now, s.readers[c]); }
      else { ReaderJoins(s.table, step.path, s.now, s'.readers[c].probe); }
    }
  }

  lemma BeginIsHonest(t: Table, path: string, answer: Answer)
    requires Paired(t) && CacheInv(t) && Begins(t, path) == Answered(answer)
    ensures Honest(t.probes, Reply(path, answer, Known(t.probes, path)))
  {}

  lemma WakeIsHonest(t: Table, now: Time, r: Reader)
    requires ReaderInv(t, now, r) && t.probes[r.probe].outcome.Some?
    ensures Honest(t.probes, Reply(r.path, Woken(t.probes[r.probe].outcome.value, r.cached), r.known))
  {
    var o := t.probes[r.probe].outcome.value;
    if o.err.None? && o.usage.Some? { assert Found(t.probes, r.path, r.known, o.usage.value, r.probe); }
  }

  lemma StepIsHonest(s: Sys, s': Sys, step: Step)
    requires SysInv(s) && Next(s, s', step) && |s'.replies| == |s.replies| + 1
    ensures Honest(s'.table.probes, s'.replies[|s.replies|])
  {
    StepExtends(s, s', step);
    hide Latest, Known, StuckInv, Paired, CacheInv;
    match step
    case Read(_, path) =>
      match Begins(s.table, path) {
        case Answered(answer) =>
          BeginIsHonest(s.table, path, answer);
          HonestStays(s.table.probes, s'.table.probes, s'.replies[|s.replies|]);
        case Wait(_) =>
      }
    case Wake(c) => WakeIsHonest(s.table, s.now, s.readers[c]);
    case Timeout(c) =>
      hide Honest;
      TimeoutIsHonest(s.table, s.now, s.readers[c]);
    case _ =>
  }

  lemma TimeoutIsHonest(t: Table, now: Time, r: Reader)
    requires ReaderInv(t, now, r)
    ensures Honest(t.probes, Reply(r.path, Fallback(r.cached), r.known))
  {}

  lemma StepKeepsReplies(s: Sys, s': Sys, step: Step)
    requires SysInv(s) && Next(s, s', step)
    ensures forall i | 0 <= i < |s'.replies| :: Honest(s'.table.probes, s'.replies[i])
  {
    StepExtends(s, s', step);
    forall i | 0 <= i < |s'.replies| ensures Honest(s'.table.probes, s'.replies[i]) {
      if i < |s.replies| {
        assert s'.replies[i] == s.replies[i];
        HonestStays(s.table.probes, s'.table.probes, s.replies[i]);
      } else {
        StepIsHonest(s, s', step);
      }
    }
  }

  lemma StepKeeps(s: Sys, s': Sys, step: Step)
    requires SysInv(s) && Next(s, s', step)
    ensures SysInv(s')
  {
    StepKeepsPairs(s, s', step);
    StepKeepsOrder(s, s', step);
    StepKeepsStuck(s, s', step);
    StepKeepsCache(s, s', step);
    StepKeepsReaders(s, s', step);
    StepKeepsReplies(s, s', step);
    hide Next, Paired, Ordered, CacheInv, StuckInv, ReaderInv, Honest;
  }

  // ---------- runs ----------

  ghost predicate Run(ss: seq<Sys>, steps: seq<Step>) {
    && |ss| == |steps| + 1
    && ss[0] == Sys(ss[0].now, Table(map[], []), map[], [])
    && forall k | 0 <= k < |steps| :: Next(ss[k], ss[k + 1], steps[k])
  }

  lemma {:induction false} RunKeeps(ss: seq<Sys>, steps: seq<Step>, k: nat)
    requires Run(ss, steps) && k < |ss|
    ensures SysInv(ss[k])
  {
    if k > 0 {
      RunKeeps(ss, steps, k - 1);
      StepKeeps(ss[k - 1], ss[k], steps[k - 1]);
    }
  }

  /** In every run at most one probe of a path is outstanding, and it is the one the path's entry names;
      a stuck path has its probe still outstanding, for at least the timeout. */
  lemma OneProbePerPath(ss: seq<Sys>, steps: seq<Step>, k: nat, path: string)
    requires Run(ss, steps) && k < |ss|
    ensures var t := ss[k].table;
            forall p, q | 0 <= p < |t.probes| && 0 <= q < |t.probes|
                && t.probes[p].path == t.probes[q].path == path && t.probes[p].outcome.None?
                && t.probes[q].outcome.None? :: p == q
    ensures var t := ss[k].table;
            path in t.entries && t.entries[path].stuck ==>
              exists p: nat :: p < |t.probes| && t.probes[p].path == path && t.probes[p].outcome.None?
                            && t.entries[path].probe == Some(p) && ss[k].now >= t.probes[p].began + 800
  {
    RunKeeps(ss, steps, k);
    var t := ss[k].table;
    if path in t.entries && t.entries[path].stuck {
      var p := t.entries[path].probe.value;
      assert t.probes[p].path == path;
    }
  }

  /** A timeout marks the entry only if the reader's own probe is still outstanding; when that probe has
      come back, late, nothing but the reader changes, whichever probe the path has by then. */
  lemma LateTimeoutMarksNothing(ss: seq<Sys>, steps: seq<Step>, k: nat)
    requires Run(ss, steps) && k < |steps| && steps[k].Timeout?
    ensures steps[k].caller in ss[k].readers
    ensures var r := ss[k].readers[steps[k].caller];
            && r.probe < |ss[k].table.probes|
            && if ss[k].table.probes[r.probe].outcome.Some? then ss[k + 1].table == ss[k].table
               else && r.path in ss[k].table.entries
                    && ss[k].table.entries[r.path].probe == Some(r.probe)
                    && var entry := ss[k].table.entries[r.path].(stuck := true);
                       ss[k + 1].table == ss[k].table.(entries := ss[k].table.entries[r.path := entry])
  {
    RunKeeps(ss, steps, k);
    assert Next(ss[k], ss[k + 1], steps[k]);
    assert ReaderInv(ss[k].table, ss[k].now, ss[k].readers[steps[k].caller]);
  }

  /** A probe that comes back was the one its entry named: it clears only itself, and whatever it found,
      its path is no longer stuck; every other entry and probe is as before. */
  lemma FinishClearsItself(ss: seq<Sys>, steps: seq<Step>, k: nat)
    requires Run(ss, steps) && k < |steps| && steps[k].Finish?
    ensures var t, t', p := ss[k].table, ss[k + 1].table, steps[k].p;
            && p < |t.probes| && t.probes[p].path in t.entries
            && t.entries[t.probes[p].path].probe == Some(p)
            && t.probes[p].path in t'.entries && t'.entries[t.probes[p].path].probe == None
            && !t'.entries[t.probes[p].path].stuck
            && p < |t'.probes| && t'.probes[p] == t.probes[p].(outcome := Some(steps[k].outcome))
            && t'.entries[t.probes[p].path].cached ==
               (if steps[k].outcome.err.None? && steps[k].outcome.usage.Some? then steps[k].outcome.usage
                else t.entries[t.probes[p].path].cached)
            && (forall x | x in t.entries && x != t.probes[p].path :: x in t'.entries && t'.entries[x] == t.entries[x])
            && (forall q | 0 <= q < |t.probes| && q != p :: q < |t'.probes| && t'.probes[q] == t.probes[q])
  {
    RunKeeps(ss, steps, k);
    assert Next(ss[k], ss[k + 1], steps[k]);
  }

  /** Every answer of every run is honest. */
  lemma AnswersAreHonest(ss: seq<Sys>, steps: seq<Step>, k: nat, i: nat)
    requires Run(ss, steps) && k < |ss| && i < |ss[k].replies|
    ensures Honest(ss[k].table.probes, ss[k].replies[i])
  {
    RunKeeps(ss, steps, k);
  }

  /** While a path is stuck, reading it starts no probe and waits for none. */
  lemma StuckReadsReturn(ss: seq<Sys>, steps: seq<Step>, k: nat)
    requires Run(ss, steps) && k < |steps| && steps[k].Read?
    requires var t := ss[k].table; steps[k].path in t.entries && t.entries[steps[k].path].stuck
    ensures ss[k + 1].table == ss[k].table && ss[k + 1].readers == ss[k].readers
    ensures |ss[k + 1].replies| == |ss[k].replies| + 1
  {
    assert Next(ss[k], ss[k + 1], steps[k]);
    var t := ss[k].table;
    assert t.entries[steps[k].path := t.entries[steps[k].path]] == t.entries;
  }

  // ---------- what a reader gets, case by case ----------

  predicate Outstanding(probes: seq<Probe>, path: string, p: nat) {
    p < |probes| && probes[p].path == path && probes[p].outcome.None?
  }

  /** Probe `p` came back without an error and with this usage. */
  predicate Gave(probes: seq<Probe>, path: string, p: nat, u: Usage) {
    p < |probes| && probes[p].path == path && probes[p].outcome == Some(Outcome(Some(u), None))
  }

  /** The answer is what the last good probe of the path gave, or the deadline if none was ever good. */
  ghost predicate TellsLatest(probes: seq<Probe>, path: string, answer: Answer) {
    match answer
    case Value(u) => exists p: nat :: Gave(probes, path, p, u) && forall q: nat, v | Gave(probes, path, q, v) :: q <= p
    case DeadlineExceeded => forall q: nat, v :: !Gave(probes, path, q, v)
    case Failed(_) => false
  }

  lemma CachedIsLatest(t: Table, path: string)
    requires Paired(t) && CacheInv(t)
    ensures TellsLatest(t.probes, path, Fallback(EntryOf(t, path).cached))
    ensures EntryOf(t, path).cached.Some? <==> exists q: nat, v :: Gave(t.probes, path, q, v)
  {
    GoodGave(t.probes, path);
    var e := EntryOf(t, path);
    if path in t.entries {
      assert Latest(t.probes, path, Known(t.probes, path), e.cached);
    } else {
      assert Known(t.probes, path) == {};
    }
    if e.cached.Some? {
      var p: nat :| Found(t.probes, path, Known(t.probes, path), e.cached.value, p);
      assert Gave(t.probes, path, p, e.cached.value);
    }
  }

  lemma GoodGave(probes: seq<Probe>, path: string)
    ensures forall q: nat, v | Gave(probes, path, q, v) :: q in Known(probes, path)
    ensures forall q | q in Known(probes, path) :: Gave(probes, path, q, probes[q].outcome.value.usage.value)
  {}

  /** A reader of a stuck path, and one that finds a probe under way and a value known, is answered at once with the
      latest good value. Any other reader waits: for the probe under way, or for one that it starts, whatever is
      known. */
  lemma ReadExactly(ss: seq<Sys>, steps: seq<Step>, k: nat)
    requires Run(ss, steps) && k < |steps| && steps[k].Read?
    ensures var s, s', caller, path := ss[k], ss[k + 1], steps[k].caller, steps[k].path;
            var stuck := path in s.table.entries && s.table.entries[path].stuck;
            var probes := s.table.probes;
            && caller !in s.readers
            && (stuck
                || ((exists p: nat :: Outstanding(probes, path, p)) && exists q: nat, v :: Gave(probes, path, q, v)) ==>
                  && s'.table.probes == probes && s'.readers == s.readers
                  && |s'.replies| == |s.replies| + 1 && s'.replies[..|s.replies|] == s.replies
                  && s'.replies[|s.replies|].path == path && TellsLatest(probes, path, s'.replies[|s.replies|].answer))
            && (!stuck && (forall p: nat :: !Outstanding(probes, path, p)) ==>
                  && s'.table.probes == probes + [Probe(path, s.now, None)] && s'.replies == s.replies
                  && caller in s'.readers && s'.readers[caller].probe == |probes| && s'.readers[caller].path == path)
            && (!stuck && (forall q: nat, v :: !Gave(probes, path, q, v)) ==>
                  forall p: nat | Outstanding(probes, path, p) ::
                    && s'.table.probes == probes && s'.replies == s.replies
                    && caller in s'.readers && s'.readers[caller].probe == p && s'.readers[caller].path == path)
  {
    RunKeeps(ss, steps, k);
    assert Next(ss[k], ss[k + 1], steps[k]);
    var s, path := ss[k], steps[k].path;
    CachedIsLatest(s.table, path);
    EntryIsOutstanding(s.table, path);
    hide Paired, CacheInv, StuckInv, ReaderInv, Honest, Ordered, Known, TellsLatest, Gave, Outstanding;
  }

  lemma EntryIsOutstanding(t: Table, path: string)
    requires Paired(t)
    ensures forall p: nat :: Outstanding(t.probes, path, p) <==> EntryOf(t, path).probe == Some(p)
    ensures EntryOf(t, path).stuck ==> EntryOf(t, path).probe.Some?
  {}

  /** A reader that is woken gets the error of its probe, else its usage, else what was known when it came, else the
      deadline; one that has waited 800 milliseconds gets what was known when it came, or the deadline. */
  lemma WaitEndsExactly(ss: seq<Sys>, steps: seq<Step>, k: nat)
    requires Run(ss, steps) && k < |steps| && (steps[k].Wake? || steps[k].Timeout?)
    ensures steps[k].caller in ss[k].readers && ss[k].readers[steps[k].caller].probe < |ss[k].table.probes|
    ensures |ss[k + 1].replies| == |ss[k].replies| + 1
    ensures var r, answer := ss[k].readers[steps[k].caller], ss[k + 1].replies[|ss[k].replies|].answer;
            var known := if r.cached.Some? then Value(r.cached.value) else DeadlineExceeded;
            && ss[k + 1].replies[|ss[k].replies|].path == r.path
            && (steps[k].Timeout? ==> ss[k].now >= r.since + 800 && answer == known)
            && (steps[k].Wake? ==>
                  var probe := ss[k].table.probes[r.probe];
                  && probe.outcome.Some?
                  && answer == match probe.outcome.value
                               case Outcome(_, Some(err)) => Failed(err)
                               case Outcome(Some(u), None) => Value(u)
                               case Outcome(None, None) => known)
  {
    RunKeeps(ss, steps, k);
    assert Next(ss[k], ss[k + 1], steps[k]);
    assert ReaderInv(ss[k].table, ss[k].now, ss[k].readers[steps[k].caller]);
    hide Paired, CacheInv, StuckInv, Honest, Ordered, Known;
  }

  /** A reader that has waited 800 milliseconds need not wait longer. */
  lemma TimeoutIsDue(ss: seq<Sys>, steps: seq<Step>, k: nat, caller: nat)
    requires Run(ss, steps) && k < |ss| && caller in ss[k].readers && ss[k].now >= ss[k].readers[caller].since + 800
    ensures exists s' :: Next(ss[k], s', Timeout(caller)) && caller !in s'.readers
  {
    RunKeeps(ss, steps, k);
    assert ReaderInv(ss[k].table, ss[k].now, ss[k].readers[caller]);
    var s, r := ss[k], ss[k].readers[caller];
    assert Next(s, Leave(s, caller, Fallback(r.cached)).(table := TimedOut(s.table, r.path, r.probe)), Timeout(caller));
    hide Paired, CacheInv, StuckInv, Honest, Ordered, Known;
  }

  /** What a waiting reader holds as known is the latest good value from when it came. */
  lemma {:induction false} ReaderKnowsLatest(ss: seq<Sys>, steps: seq<Step>, k: nat, caller: nat) returns (m: nat)
    requires Run(ss, steps) && k < |ss| && caller in ss[k].readers
    ensures m < k && steps[m].Read? && steps[m].caller == caller && steps[m].path == ss[k].readers[caller].path
    ensures ss[k].readers[caller].since == ss[m].now
    ensures TellsLatest(ss[m].table.probes, steps[m].path, Fallback(ss[k].readers[caller].cached))
  {
    hide SysInv, TellsLatest;
    assert k > 0;
    assert Next(ss[k - 1], ss[k], steps[k - 1]);
    if caller in ss[k - 1].readers && ss[k].readers[caller] == ss[k - 1].readers[caller] {
      m := ReaderKnowsLatest(ss, steps, k - 1, caller);
    } else {
      m := k - 1;
      RunKeeps(ss, steps, m);
      InvCaches(ss[m]);
      CachedIsLatest(ss[m].table, steps[m].path);
    }
  }

  lemma InvCaches(s: Sys)
    requires SysInv(s)
    ensures Paired(s.table) && CacheInv(s.table)
  {}
}
