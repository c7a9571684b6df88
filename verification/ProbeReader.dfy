/** `fsUsageReader` with its entries and probes as shared objects, changed in place under `mu`. Every method
    is one locked section and is proved to do what `ProbeSpec` says. */
module ProbeReader {
  import opened Common
  import opened ProbeSpec

  class UsageProbe {
    ghost const id: nat
    ghost const path: string
    ghost const began: Time
    /** Whether the `done` channel is closed. */
    var done: bool
    var usage: Option<Usage>
    var err: Option<string>

    constructor (ghost id: nat, ghost path: string, ghost began: Time)
      ensures this.id == id && Is(Probe(path, began, None))
    {
      this.id, this.path, this.began, done, usage, err := id, path, began, false, None, None;
    }

    ghost predicate Is(p: Probe)
      reads this
    {
      p == Probe(path, began, if done then Some(Outcome(usage, err)) else None)
    }
  }

  class UsageEntry {
    ghost const path: string
    var cached: Option<Usage>
    var probe: UsageProbe?
    var stuck: bool

    constructor (ghost path: string)
      ensures this.path == path && cached == None && probe == null && !stuck
    {
      this.path, cached, probe, stuck := path, None, null, false;
    }

    ghost predicate Is(e: Entry, made: seq<UsageProbe>)
      reads this
    {
      && cached == e.cached && stuck == e.stuck
      && (probe == null <==> e.probe.None?)
      && (e.probe.Some? ==> e.probe.value < |made| && probe == made[e.probe.value])
    }
  }

  ghost predicate Objects(made: seq<UsageProbe>, probes: seq<Probe>)
    reads made
  {
    && |made| == |probes|
    && forall p | 0 <= p < |made| :: made[p].id == p && made[p].Is(probes[p])
  }

  ghost predicate Entries(entries: map<string, UsageEntry>, es: map<string, Entry>, made: seq<UsageProbe>)
    reads entries.Values
  {
    && entries.Keys == es.Keys
    && forall path | path in entries :: entries[path].path == path && entries[path].Is(es[path], made)
  }

  /** The entries still stand for the same values when a probe is added. */
  lemma EntriesStay(entries: map<string, UsageEntry>, es: map<string, Entry>, made: seq<UsageProbe>,
                    made': seq<UsageProbe>)
    requires Entries(entries, es, made) && made <= made'
    ensures Entries(entries, es, made')
  {}

  lemma DistinctObjects(made: seq<UsageProbe>, probes: seq<Probe>)
    requires Objects(made, probes)
    ensures forall p, q | 0 <= p < q < |made| :: made[p] != made[q]
  {}

  class FsUsageReader {
    var entries: map<string, UsageEntry>
    /** Every probe ever made, in order, and the value that all fields stand for. */
    ghost var made: seq<UsageProbe>
    ghost var state: Table

    ghost predicate Valid()
      reads this, made, entries.Values
    {
      Objects(made, state.probes) && Entries(entries, state.entries, made)
    }

    constructor ()
      ensures Valid() && state == Table(map[], [])
    {
      entries, made, state := map[], [], Table(map[], []);
    }

    /** Lines 53-57. */
    method EntryFor(path: string) returns (entry: UsageEntry)
      requires Entries(entries, state.entries, made)
      modifies this`entries
      ensures path in entries && entry == entries[path]
      ensures Entries(entries, state.entries[path := EntryOf(state, path)], made)
      ensures path in old(entries) ==> entries == old(entries)
      ensures path !in old(entries) ==> fresh(entry)
      ensures entry.path == path && entry.Is(EntryOf(state, path), made)
    {
      if path in entries {
        entry := entries[path];
        assert state.entries[path := EntryOf(state, path)] == state.entries;
      } else {
        entry := new UsageEntry(path);
        entries := entries[path := entry];
      }
    }

    /** Lines 66-72: a new probe for an entry that has none. */
    method Start(entry: UsageEntry, ghost now: Time) returns (probe: UsageProbe)
      requires Valid() && entry.path in entries && entry == entries[entry.path] && entry.probe == null
      modifies this`made, this`state, entry`probe
      ensures Valid() && probe.id == |old(made)| == |old(state).probes| && made == old(made) + [probe]
      ensures state == Table(old(state).entries[entry.path := old(state).entries[entry.path].(probe := Some(probe.id))],
                             old(state).probes + [Probe(entry.path, now, None)])
    {
      probe := new UsageProbe(|made|, entry.path, now);
      EntriesStay(entries, state.entries, made, made + [probe]);
      made := made + [probe];
      entry.probe := probe;
      state := Table(state.entries[entry.path := state.entries[entry.path].(probe := Some(probe.id))],
                     state.probes + [Probe(entry.path, now, None)]);
    }

    /** Lines 52-79. Without an answer the caller goes on to wait for the probe it is given. */
    method Look(path: string, ghost now: Time)
      returns (answer: Option<Answer>, entry: UsageEntry, probe: UsageProbe?, cached: Option<Usage>)
      requires Valid()
      modifies this, if path in entries then {entries[path]} else {}
      ensures Valid() && state == Looked(old(state), path, now)
      ensures path in entries && entry == entries[path] && cached == EntryOf(old(state), path).cached
      ensures match Begins(old(state), path)
              case Answered(a) => answer == Some(a)
              case Wait(p) => answer == None && p < |made| && probe == made[p]
    {
      hide Objects, Entries;
      entry := EntryFor(path);
      state := state.(entries := state.entries[path := EntryOf(state, path)]);
      cached, probe, answer := entry.cached, entry.probe, None;
      if entry.stuck {
        answer := Some(Fallback(cached));
      } else if probe == null {
        probe := Start(entry, now);
      } else if cached.Some? {
        answer := Some(Value(cached.value));
      }
    }

    /** Lines 90-94, the part of the entry. */
    method Clear(entry: UsageEntry, usage: Option<Usage>, err: Option<string>)
      requires Entries(entries, state.entries, made) && entry.path in entries && entry == entries[entry.path]
      modifies entry
      ensures entry.probe == null && !entry.stuck
      ensures var cached := if err.None? && usage.Some? then usage else state.entries[entry.path].cached;
              Entries(entries, state.entries[entry.path := Entry(cached, None, false)], made)
    {
      if err.None? && usage.Some? { entry.cached := usage; }
      entry.probe, entry.stuck := null, false;
    }

    /** `runProbe`, lines 87-96, with what the probe function returned. */
    method Finish(entry: UsageEntry, probe: UsageProbe, usage: Option<Usage>, err: Option<string>)
      requires Valid()
      requires probe.id < |made| && made[probe.id] == probe && !probe.done
      requires probe.path in entries && entry == entries[probe.path]
      modifies this`state, entry, probe
      ensures Valid() && probe.done && entry.probe == null && !entry.stuck
      ensures state == Finished(old(state), probe.id, Outcome(usage, err))
    {
      DistinctObjects(made, state.probes);
      probe.usage, probe.err := usage, err;
      Clear(entry, usage, err);
      probe.done := true;
      state := Finished(state, probe.id, Outcome(usage, err));
    }

    /** `waitProbe`, lines 104-114. */
    method Wake(probe: UsageProbe, cached: Option<Usage>) returns (answer: Answer)
      requires probe.done
      ensures answer == Woken(Outcome(probe.usage, probe.err), cached)
      ensures answer == if probe.err.Some? then Failed(probe.err.value)
                        else if probe.usage.Some? then Value(probe.usage.value)
                        else if cached.Some? then Value(cached.value) else DeadlineExceeded
    {
      if probe.err.Some? { return Failed(probe.err.value); }
      if probe.usage.Some? { return Value(probe.usage.value); }
      if cached.Some? { return Value(cached.value); }
      return DeadlineExceeded;
    }

    /** `waitProbe`, lines 115-124. */
    method Timeout(entry: UsageEntry, probe: UsageProbe, cached: Option<Usage>) returns (answer: Answer)
      requires Valid()
      requires probe.id < |made| && made[probe.id] == probe
      requires entry.path in entries && entry == entries[entry.path]
      modifies this`state, entry
      ensures Valid() && state == TimedOut(old(state), entry.path, probe.id) && answer == Fallback(cached)
    {
      DistinctObjects(made, state.probes);
      if entry.probe == probe { entry.stuck := true; }
      state := TimedOut(state, entry.path, probe.id);
      answer := if cached.Some? then Value(cached.value) else DeadlineExceeded;
    }
  }
}
