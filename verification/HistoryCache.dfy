/** `historyCache` and `historyCall` as the source writes them: shared objects changed in place under
    `mu`. Every method is one locked section and is proved to do exactly what `HistorySpec` says. */
module HistoryCache {
  import opened Common
  import opened HistorySpec

  class HistoryCall {
    ghost const id: nat
    ghost const query: Query
    var waiters: int
    var cancelled: bool
    var done: bool
    var result: Result
    var expires: Option<Time>

    constructor (ghost id: nat, ghost query: Query)
      ensures this.id == id && this.query == query
      ensures Is(Call(query, 0, false, Result(0, NoError), None))
    {
      this.id := id;
      this.query := query;
      waiters, cancelled, done, result, expires := 0, false, false, Result(0, NoError), None;
    }

    /** The fields hold the value `c`, and `done` is closed exactly when `expires` is set. */
    ghost predicate Is(c: Call)
      reads this
    {
      c == Call(query, waiters, cancelled, result, expires) && done == expires.Some?
    }
  }

  /** `made[i]` is the object behind identity `i`. */
  ghost predicate Objects(made: seq<HistoryCall>, heap: seq<Call>)
    reads made
  {
    && |made| == |heap|
    && forall i | 0 <= i < |made| :: made[i].id == i && made[i].Is(heap[i])
  }

  ghost predicate Entries(calls: map<Query, HistoryCall>, made: seq<HistoryCall>, ids: map<Query, nat>) {
    && calls.Keys == ids.Keys
    && forall q | q in calls :: ids[q] < |made| && calls[q] == made[ids[q]]
  }

  /** Distinct identities are distinct objects. */
  lemma DistinctObjects(made: seq<HistoryCall>, heap: seq<Call>, i: nat)
    requires Objects(made, heap) && i < |made|
    ensures forall j | 0 <= j < |made| && j != i :: made[j] != made[i]
  {}

  lemma EntryAdded(calls: map<Query, HistoryCall>, made: seq<HistoryCall>, ids: map<Query, nat>, q: Query,
                   call: HistoryCall)
    requires Entries(calls, made, ids)
    ensures Entries(calls[q := call], made + [call], ids[q := |made|])
  {}

  lemma EntryRemoved(calls: map<Query, HistoryCall>, made: seq<HistoryCall>, ids: map<Query, nat>, q: Query)
    requires Entries(calls, made, ids)
    ensures Entries(calls - {q}, made, ids - {q})
  {}

  lemma RecordedFields(c: Cache, i: nat, r: Result, now: Time)
    requires i < |c.heap|
    ensures var d := Recorded(c, i, r, now);
            && |d.heap| == |c.heap| && d.failures == c.failures && d.active == c.active - 1
            && d.calls == (if r.err == Canceled then c.calls - {c.heap[i].query} else c.calls)
            && d.bytes == (if r.err == Canceled then c.bytes else c.bytes + r.size)
  {}

  /** With `call` behind the new identity the objects stand for the cache that `Inserted` describes. */
  lemma CallInserted(calls: map<Query, HistoryCall>, made: seq<HistoryCall>, c: Cache, q: Query, call: HistoryCall)
    requires Objects(made, c.heap) && Entries(calls, made, c.calls) && Linked(c) && q !in c.calls
    requires call.id == |made| && call.Is(Call(q, 1, false, Result(0, NoError), None))
    ensures var c' := Inserted(c, q);
            && |made + [call]| == |c'.heap|
            && Objects(made + [call], c'.heap) && Entries(calls[q := call], made + [call], c'.calls) && Linked(c')
            && c'.failures == c.failures && c'.active == c.active + 1 && c'.bytes == c.bytes
  {
    InsertedLinked(c, q);
    EntryAdded(calls, made, c.calls, q, call);
    hide Linked, Entries;
  }

  lemma SameQuery(made: seq<HistoryCall>, heap: seq<Call>, i: nat)
    requires Objects(made, heap) && i < |made|
    ensures |made| == |heap| && heap[i].query == made[i].query
  {
    assert made[i].Is(heap[i]);
  }

  /** The first pruning loop of `get`: cooldowns that are over are deleted. */
  method Ongoing<K(==)>(failures: map<K, Time>, now: Time) returns (kept: map<K, Time>)
    ensures kept == map v | v in failures && now < failures[v] :: failures[v]
  {
    kept := failures;
    var ids := failures.Keys;
    while ids != {}
      invariant ids <= kept.Keys <= failures.Keys
      invariant forall v | v in failures :: v in kept <==> v in ids || now < failures[v]
      invariant forall v | v in kept :: kept[v] == failures[v]
      decreases |ids|
    {
      var id := Pick(ids);
      if now >= kept[id] { kept := kept - {id}; }
      ids := ids - {id};
    }
  }

  /** `s` is `c` without its expired entries, but those of `keys` have not been looked at. */
  ghost predicate PrunedBut(c: Cache, s: Cache, keys: set<Query>, now: Time) {
    && Linked(c) && s.heap == c.heap && s.failures == c.failures && s.active == c.active && s.calls.Keys <= c.calls.Keys
    && (forall q | q in s.calls :: s.calls[q] == c.calls[q])
    && forall q | q in c.calls :: q in s.calls <==> q in keys || !Expired(c.heap[c.calls[q]], now)
  }

  lemma PruningStarts(c: Cache, keys: set<Query>, now: Time)
    requires Linked(c) && keys == c.calls.Keys
    ensures PrunedBut(c, c, keys, now)
  {}

  lemma PruningGoesOn(c: Cache, s: Cache, s': Cache, keys: set<Query>, key: Query, now: Time)
    requires PrunedBut(c, s, keys, now) && keys <= s.calls.Keys && key in keys && s.calls[key] < |s.heap|
    requires s' == if Expired(s.heap[s.calls[key]], now) then Drop(s, key) else s
    ensures keys - {key} <= s'.calls.Keys && PrunedBut(c, s', keys - {key}, now)
  {
    hide Linked, Expired;
    assert s'.calls.Keys == if Expired(s.heap[s.calls[key]], now) then s.calls.Keys - {key} else s.calls.Keys;
  }

  lemma PruningEnds(c: Cache, s: Cache, now: Time)
    requires PrunedBut(c, s, {}, now)
    ensures Linked(c) && s.heap == c.heap && s.failures == c.failures && s.active == c.active
    ensures forall q :: q in s.calls <==>
              q in c.calls && (c.heap[c.calls[q]].expires.None? || now < c.heap[c.calls[q]].expires.value)
    ensures forall q | q in s.calls :: s.calls[q] == c.calls[q]
  {}

  class HistoryCache {
    var calls: map<Query, HistoryCall>
    var failures: map<int, Time>
    var active: int
    var bytes: int
    /** Every call ever made, in order: its index is its identity. */
    ghost var made: seq<HistoryCall>
    /** The value that the fields and the calls stand for; `Shape` ties it to them. */
    ghost var state: Cache

    ghost predicate Shape()
      reads this, made
    {
      && |made| == |state.heap|
      && Objects(made, state.heap)
      && Entries(calls, made, state.calls)
      && state.failures == failures && state.active == active && state.bytes == bytes
      && Linked(state)
    }

    ghost predicate Valid()
      reads this, made
    {
      Shape() && CacheInv(state)
    }

    /** `call` is one of this cache's calls. */
    ghost predicate Owns(call: HistoryCall)
      reads this
    {
      call.id < |made| && made[call.id] == call
    }

    constructor ()
      ensures Valid() && state == Cache(map[], [], map[], 0, 0)
    {
      calls, failures, active, bytes, made := map[], map[], 0, 0, [];
      state := Cache(map[], [], map[], 0, 0);
      new;
      assert Flying([]) == {} && Kept(state) == {};
    }

    /** `bytes` and `calls` forget one complete entry, as both pruning and eviction do. */
    method Remove(key: Query)
      requires Shape() && key in calls && calls[key].expires.Some?
      modifies this`calls, this`bytes, this`state
      ensures key in old(state).calls && old(state).calls[key] < |old(state).heap|
      ensures state == Drop(old(state), key) && Shape()
    {
      assert calls[key].Is(state.heap[state.calls[key]]);
      DropLinked(state, key);
      bytes := bytes - calls[key].result.size;
      calls := calls - {key};
      state := Drop(state, key);
    }

    ghost predicate FirstToExpire(key: Query)
      reads this, calls.Values
    {
      && key in calls && calls[key].expires.Some?
      && forall p | p in calls && calls[p].expires.Some? :: calls[key].expires.value <= calls[p].expires.value
    }

    lemma SomeComplete() returns (some: Query)
      requires Shape() && Done(state) != {}
      ensures some in calls && calls[some].expires.Some?
    {
      some :| some in Done(state);
      assert calls[some].Is(state.heap[state.calls[some]]);
    }

    lemma FirstIsOldest(key: Query)
      requires Shape() && FirstToExpire(key)
      ensures Oldest(state, key)
    {
      assert forall p | p in calls :: calls[p].Is(state.heap[state.calls[p]]);
    }

    /** The search of `evictOldest`. */
    method FindOldest() returns (key: Query)
      requires Shape() && Done(state) != {}
      ensures Oldest(state, key)
    {
      hide Shape;
      ghost var some := SomeComplete();
      var oldest: HistoryCall? := null;
      key := Query(0, "", "");
      var keys := calls.Keys;
      while keys != {}
        invariant forall p | p in keys :: p in calls
        invariant oldest == null ==> some in keys && forall p | p in calls && p !in keys :: calls[p].expires.None?
        invariant oldest != null ==> key in calls && calls[key] == oldest && oldest.expires.Some?
        invariant oldest != null ==>
                    forall p | p in calls && p !in keys && calls[p].expires.Some? ::
                      oldest.expires.value <= calls[p].expires.value
        decreases |keys|
      {
        var candidateKey := Pick(keys);
        var candidate := calls[candidateKey];
        if candidate.expires.Some? && (oldest == null || candidate.expires.value < oldest.expires.value) {
          oldest, key := candidate, candidateKey;
        }
        keys := keys - {candidateKey};
      }
      FirstIsOldest(key);
    }

    /** `evictOldest`: it always finds a victim, so the dereference of `oldest` is safe. */
    method EvictOldest() returns (ghost victim: Query)
      requires Shape() && Done(state) != {}
      modifies this`calls, this`bytes, this`state
      ensures Oldest(old(state), victim)
      ensures state == Drop(old(state), victim) && Shape()
    {
      var key := FindOldest();
      assert calls[key].Is(state.heap[state.calls[key]]);
      Remove(key);
      victim := key;
    }

    lemma SameKeys()
      requires Shape()
      ensures calls.Keys == state.calls.Keys && Linked(state)
      ensures forall q | q in state.calls :: state.calls[q] < |state.heap|
    {}

    /** The second pruning loop of `get`: entries past their expiry. */
    method PruneCalls(now: Time)
      requires Shape() && Accounted(state)
      modifies this`calls, this`bytes, this`state
      ensures Shape() && Accounted(state) && state.heap == old(state).heap
      ensures state.failures == old(state).failures && state.active == old(state).active
      ensures forall q :: q in state.calls <==>
                q in old(state).calls
                && (old(state).heap[old(state).calls[q]].expires.None?
                    || now < old(state).heap[old(state).calls[q]].expires.value)
      ensures forall q | q in state.calls :: state.calls[q] == old(state).calls[q]
    {
      hide Accounted, Shape, Linked, Expired, Drop, PrunedBut;
      ghost var c := state;
      SameKeys();
      var keys := calls.Keys;
      PruningStarts(c, keys, now);
      while keys != {}
        invariant Shape() && Accounted(state)
        invariant keys <= state.calls.Keys && PrunedBut(c, state, keys, now)
        decreases |keys|
      {
        var key := Pick(keys);
        SameKeys();
        ghost var s := state;
        PruneCall(key, now);
        PruningGoesOn(c, s, state, keys, key, now);
        keys := keys - {key};
      }
      PruningEnds(c, state, now);
    }

    /** One turn of the second pruning loop. */
    method PruneCall(key: Query, now: Time)
      requires Shape() && Accounted(state) && key in calls
      modifies this`calls, this`bytes, this`state
      ensures Shape() && Accounted(state)
      ensures key in old(state).calls && old(state).calls[key] < |old(state).heap|
      ensures state ==
              if Expired(old(state).heap[old(state).calls[key]], now) then Drop(old(state), key) else old(state)
    {
      var call := calls[key];
      assert call.Is(state.heap[state.calls[key]]);
      if call.expires.Some? && now >= call.expires.value {
        DropAccounted(state, key);
        Remove(key);
      }
    }

    method Prune(now: Time)
      requires Valid()
      modifies this`calls, this`failures, this`bytes, this`state
      ensures Shape() && state == Pruned(old(state), now) && CacheInv(state)
    {
      hide Linked, Objects;
      ghost var c := state;
      failures := Ongoing(failures, now);
      state := state.(failures := failures);
      FailuresOnly(c, failures);
      PruneCalls(now);
      PrunedUnique(c, now, state);
      PrunedKeeps(c, now);
    }

    /** The tail of `get`'s locked section: a new call enters the cache with its first waiter. */
    method Launch(q: Query) returns (call: HistoryCall)
      requires Shape() && q !in calls
      modifies this`calls, this`made, this`active, this`state
      ensures fresh(call) && made == old(made) + [call] && call.id == |old(made)|
      ensures state == Inserted(old(state), q) && Shape()
    {
      hide Linked, Entries, Objects, Inserted;
      SameKeys();
      call := new HistoryCall(|made|, q);
      call.waiters := call.waiters + 1;
      CallInserted(calls, made, state, q, call);
      calls := calls[q := call];
      active := active + 1;
      made := made + [call];
      state := Inserted(state, q);
    }

    /** The other way through `get`'s locked section: one more waiter on a listed call. */
    method Join(q: Query, call: HistoryCall)
      requires Shape() && q in calls && calls[q] == call
      modifies call, this`state
      ensures q in old(state).calls && call.id == old(state).calls[q] < |old(state).heap|
      ensures state == Joining(old(state), call.id)
      ensures Shape()
      ensures Owns(call)
    {
      assert made[state.calls[q]] == call;
      DistinctObjects(made, state.heap, call.id);
      call.waiters := call.waiters + 1;
      state := Joining(state, call.id);
    }

    /** `get`, lines 73-75. */
    method MakeRoom() returns (ghost victim: Option<Query>)
      requires Shape() && CacheInv(state) && active < MAX_ACTIVE
      modifies this`calls, this`bytes, this`state
      ensures MakesRoom(old(state), victim, state) && Shape()
      ensures forall q | q in calls :: q in old(calls)
    {
      hide Objects;
      victim := None;
      assert state.calls.Keys == calls.Keys;
      if |calls| >= MAX_CALLS {
        assert |state.calls| == |state.calls.Keys| == |calls|;
        FullHasDone(state);
        ghost var evicted := EvictOldest();
        victim := Some(evicted);
      }
    }

    /** The first locked section of `get`. It returns the call to wait on, or nothing when busy, and
        says whether it launched an execution. */
    method Get(q: Query, now: Time) returns (call: HistoryCall?, launched: bool, ghost a: Admission)
      requires Valid()
      modifies this, made
      ensures Valid() && Admit(old(state), q, now, a, state)
      ensures call == null <==> a.Refused?
      ensures call != null ==> !a.Refused? && call.id == a.id && Owns(call)
      ensures launched <==> a.Started?
      ensures old(made) <= made && forall x | x in made :: x in old(made) || fresh(x)
    {
      hide Linked, Balanced, Objects, Admit, Pruned, MakesRoom;
      ghost var c := state;
      Prune(now);
      launched := false;
      if q in calls {
        call := calls[q];
        AdmitJoined(c, q, now);
        Join(q, call);
        a := Joined(call.id);
      } else if active >= MAX_ACTIVE {
        AdmitRefused(c, q, now);
        call, a := null, Refused;
      } else {
        ghost var victim := MakeRoom();
        AdmitStarted(c, q, now, victim, state);
        call := Launch(q);
        launched := true;
        a := Started(|c.heap|, victim);
      }
    }

    /** The deferred section of `get`. */
    method Depart(call: HistoryCall)
      requires Valid() && Owns(call)
      modifies call`waiters, call`cancelled, this`state
      ensures Valid() && state == Leave(old(state), call.id)
    {
      hide Linked, Balanced, Entries;
      DistinctObjects(made, state.heap, call.id);
      assert call.Is(state.heap[call.id]);
      call.waiters := call.waiters - 1;
      if call.waiters == 0 && call.expires.None? {
        call.cancelled := true;
      }
      LeaveKeeps(state, call.id);
      state := Leave(state, call.id);
    }

    /** `run`, lines 106-111 and 121. Nobody waiting on `done` sees it before `mu` is released, so it may be
        set before the entries are trimmed. */
    method Answer(call: HistoryCall, r: Result, now: Time)
      requires Objects(made, state.heap) && Owns(call) && !call.done
      modifies call
      ensures call.id < |state.heap| && !Complete(state.heap[call.id]) && call.done
      ensures Objects(made, Recorded(state, call.id, r, now).heap)
    {
      assert call.Is(state.heap[call.id]);
      DistinctObjects(made, state.heap, call.id);
      call.result := r;
      var ttl := OK_TTL;
      if r.err != NoError { ttl := ERROR_TTL; }
      call.expires := Some(now + ttl);
      call.done := true;
    }

    /** `run`, lines 112-117. */
    method Account(q: Query, r: Result)
      requires Entries(calls, made, state.calls)
      modifies this`calls, this`active, this`bytes
      ensures active == old(active) - 1 && bytes == (if r.err == Canceled then old(bytes) else old(bytes) + r.size)
      ensures Entries(calls, made, if r.err == Canceled then state.calls - {q} else state.calls)
    {
      hide Entries;
      active := active - 1;
      bytes := bytes + r.size;
      if r.err == Canceled {
        EntryRemoved(calls, made, state.calls, q);
        calls := calls - {q};
        bytes := bytes - r.size;
      }
    }

    /** `run`, lines 106-117 and 121. */
    method Record(q: Query, call: HistoryCall, r: Result, now: Time)
      requires Shape() && Owns(call) && call.query == q && !call.done
      modifies this`calls, this`active, this`bytes, this`state, call
      ensures !Complete(old(state).heap[call.id])
      ensures state == Recorded(old(state), call.id, r, now) && Shape() && call.done
    {
      hide Linked, Objects, Entries, Recorded;
      SameQuery(made, state.heap, call.id);
      Answer(call, r, now);
      RecordedLinked(state, call.id, r, now);
      RecordedFields(state, call.id, r, now);
      Account(q, r);
      state := Recorded(state, call.id, r, now);
    }

    /** `run`, lines 118-120. */
    method TrimBytes() returns (ghost victims: seq<Query>)
      requires Shape() && Accounted(state)
      modifies this`calls, this`bytes, this`state
      ensures Shape() && Trim(old(state), victims, state)
    {
      victims := [];
      while bytes > MAX_BYTES
        invariant Shape() && Accounted(state) && Evicted(old(state), victims, state)
        decreases |state.calls|
      {
        HeavyHasDone(state);
        ghost var before := state;
        ghost var victim := EvictOldest();
        DropAccounted(before, victim);
        EvictedOne(old(state), victims, before, victim);
        victims := victims + [victim];
      }
      EvictedTrims(old(state), victims, state);
    }

    /** The locked section of `run`. */
    method Settle(q: Query, call: HistoryCall, r: Result, now: Time) returns (ghost victims: seq<Query>)
      requires Valid() && Owns(call) && call.query == q && !call.done
      modifies this`calls, this`active, this`bytes, this`state, call
      ensures Valid() && call.done
      ensures !Complete(old(state).heap[call.id])
      ensures Conclude(old(state), call.id, r, now, victims, state)
    {
      ghost var c := state;
      assert call.Is(c.heap[call.id]);
      RecordedAccounted(c, call.id, r, now);
      Record(q, call, r, now);
      victims := TrimBytes();
      ConcludeKeeps(c, call.id, r, now, victims, state);
    }

    /** `execute`, lines 169-173: a lookup that failed, and was not cancelled, cools its VM down. */
    method NoteFailure(vm: int, r: Result, now: Time)
      requires Valid()
      modifies this`failures, this`state
      ensures Valid()
      ensures state == old(state).(failures := if r.err != NoError && r.err != Canceled
                                               then old(failures)[vm := now + 10 * SECOND] else old(failures))
    {
      if r.err != NoError && r.err != Canceled {
        failures := failures[vm := now + COOLDOWN];
      }
      FailuresOnly(state, failures);
      state := state.(failures := failures);
    }

    /** `execute`, lines 159-161; a VM without an entry has the zero time, which is never after now. */
    method Cooling(vm: int, now: Time) returns (cooling: bool)
      requires Valid()
      ensures cooling <==> vm in state.failures && now < state.failures[vm]
    {
      cooling := vm in failures && now < failures[vm];
    }
  }

  /** `victims` were evicted from `c` one after the other, each while the byte limit was exceeded. */
  ghost predicate Evicted(c: Cache, victims: seq<Query>, c': Cache)
    requires Linked(c)
    decreases |victims|
  {
    if victims == [] then c' == c
    else
      && c.bytes > MAX_BYTES
      && Oldest(c, victims[0])
      && (DropLinked(c, victims[0]); Evicted(Drop(c, victims[0]), victims[1..], c'))
  }

  lemma {:induction false} EvictedOne(c: Cache, victims: seq<Query>, d: Cache, q: Query)
    requires Linked(c) && Evicted(c, victims, d)
    requires Linked(d) && d.bytes > MAX_BYTES && Oldest(d, q)
    ensures Evicted(c, victims + [q], Drop(d, q))
    decreases |victims|
  {
    if victims == [] {
      assert ([q])[1..] == [];
    } else {
      DropLinked(c, victims[0]);
      EvictedOne(Drop(c, victims[0]), victims[1..], d, q);
      assert (victims + [q])[1..] == victims[1..] + [q];
    }
  }

  lemma {:induction false} EvictedTrims(c: Cache, victims: seq<Query>, d: Cache)
    requires Linked(c) && Evicted(c, victims, d) && d.bytes <= MAX_BYTES
    ensures Trim(c, victims, d)
    decreases |victims|
  {
    if victims != [] {
      DropLinked(c, victims[0]);
      EvictedTrims(Drop(c, victims[0]), victims[1..], d);
    }
  }
}
