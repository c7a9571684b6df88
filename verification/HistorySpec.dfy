/** The VM history cache (internal/pve/history.go) as values: what each section guarded by
    `historyCache.mu` does to the cache, and the accounting facts that make it safe. */
module HistorySpec {
  import opened Common

  const MAX_ACTIVE := 32
  const MAX_CALLS := 128
  const MAX_BYTES := 16 * 1024 * 1024
  const HISTORY_MAX_BYTES := 2 * 1024 * 1024
  const OK_TTL: nat := 30 * SECOND
  const ERROR_TTL: nat := 10 * SECOND
  const COOLDOWN: nat := 10 * SECOND

  datatype Query = Query(vm: int, timeframe: string, consolidation: string)

  /** The error of an execution; `Canceled` is the one that `errors.Is(err, context.Canceled)` recognises. */
  datatype Failure = NoError | Canceled | Deadline | Busy | Source | Other

  /** A result: the length of its bytes and its error. */
  datatype Result = Result(size: nat, err: Failure)

  /** A `historyCall`: it is complete once `expires` is set. */
  datatype Call = Call(query: Query, waiters: int, cancelled: bool, result: Result, expires: Option<Time>)

  /** `calls` refers to calls by identity, an index into `heap`, where every call ever made stays:
      a waiter keeps its pointer after the entry is evicted. */
  datatype Cache = Cache(calls: map<Query, nat>, heap: seq<Call>, failures: map<int, Time>, active: int, bytes: int)

  predicate Complete(c: Call) { c.expires.Some? }

  predicate Listed(c: Cache, i: nat)
    requires i < |c.heap|
  {
    c.heap[i].query in c.calls && c.calls[c.heap[i].query] == i
  }

  // ---------- accounting ----------

  /** Identities of the calls still executing. */
  ghost function Flying(h: seq<Call>): set<nat> {
    set i | 0 <= i < |h| && !Complete(h[i])
  }

  /** Identities of the complete calls that are still listed. */
  ghost function Kept(c: Cache): set<nat> {
    set i | 0 <= i < |c.heap| && Complete(c.heap[i]) && Listed(c, i)
  }

  ghost function Bytes(h: seq<Call>, s: set<nat>): nat {
    if h == [] then 0
    else Bytes(h[..|h| - 1], s) + (if |h| - 1 in s then h[|h| - 1].result.size else 0)
  }

  ghost predicate Linked(c: Cache) {
    && (forall q | q in c.calls :: c.calls[q] < |c.heap| && c.heap[c.calls[q]].query == q)
    && (forall i | 0 <= i < |c.heap| && !Complete(c.heap[i]) :: Listed(c, i))
  }

  ghost predicate Accounted(c: Cache) {
    && c.active == |Flying(c.heap)|
    && c.bytes == Bytes(c.heap, Kept(c))
  }

  /** What holds whenever `mu` is free. */
  ghost predicate CacheInv(c: Cache) { Linked(c) && Balanced(c) }

  ghost predicate Balanced(c: Cache) {
    && Accounted(c)
    && c.active <= MAX_ACTIVE
    && |c.calls| <= MAX_CALLS
    && c.bytes <= MAX_BYTES
  }

  // ---------- the locked sections ----------

  predicate Expired(c: Call, now: Time) { c.expires.Some? && c.expires.value <= now }

  ghost function ExpiredIds(c: Cache, now: Time): set<nat> {
    set i | 0 <= i < |c.heap| && Expired(c.heap[i], now) && Listed(c, i)
  }

  /** Lines 54-65: forget cooldowns that are over and entries past their expiry. */
  ghost function Pruned(c: Cache, now: Time): Cache
    requires Linked(c)
  {
    c.(calls := map q | q in c.calls && !Expired(c.heap[c.calls[q]], now) :: c.calls[q],
       failures := map v | v in c.failures && now < c.failures[v] :: c.failures[v],
       bytes := c.bytes - Bytes(c.heap, ExpiredIds(c, now)))
  }

  /** `q` names a complete entry that expires no later than any other complete entry. */
  ghost predicate Oldest(c: Cache, q: Query)
    requires Linked(c)
  {
    && q in c.calls
    && Complete(c.heap[c.calls[q]])
    && forall p | p in c.calls && Complete(c.heap[c.calls[p]]) ::
         c.heap[c.calls[q]].expires.value <= c.heap[c.calls[p]].expires.value
  }

  ghost function Drop(c: Cache, q: Query): Cache
    requires q in c.calls && c.calls[q] < |c.heap|
  {
    c.(calls := c.calls - {q}, bytes := c.bytes - c.heap[c.calls[q]].result.size)
  }

  datatype Admission =
    | Joined(id: nat)
    | Started(id: nat, victim: Option<Query>)
    | Refused

  function Joining(c: Cache, id: nat): Cache
    requires id < |c.heap|
  {
    c.(heap := c.heap[id := c.heap[id].(waiters := c.heap[id].waiters + 1)])
  }

  ghost function Inserted(c: Cache, q: Query): Cache {
    c.(calls := c.calls[q := |c.heap|],
       heap := c.heap + [Call(q, 1, false, Result(0, NoError), None)],
       active := c.active + 1)
  }

  ghost predicate MakesRoom(c: Cache, victim: Option<Query>, c': Cache)
    requires Linked(c)
  {
    if |c.calls| >= MAX_CALLS
    then victim.Some? && Oldest(c, victim.value) && c' == Drop(c, victim.value)
    else victim.None? && c' == c
  }

  /** The first locked section of `get`, lines 53-84. */
  ghost predicate Admit(c: Cache, q: Query, now: Time, a: Admission, c': Cache)
    requires Linked(c)
  {
    var p := Pruned(c, now);
    PrunedLinked(c, now);
    match a
    case Joined(id) =>
      && q in p.calls && p.calls[q] == id
      && c' == Joining(p, id)
    case Refused =>
      q !in p.calls && p.active >= MAX_ACTIVE && c' == p
    case Started(id, victim) =>
      && q !in p.calls && p.active < MAX_ACTIVE && id == |p.heap|
      && exists room :: MakesRoom(p, victim, room) && c' == Inserted(room, q)
  }

  /** The deferred section of `get`, lines 86-91: the caller stops waiting. */
  function Leave(c: Cache, i: nat): Cache
    requires i < |c.heap|
  {
    var left := c.heap[i].waiters - 1;
    var stop := left == 0 && !Complete(c.heap[i]);
    c.(heap := c.heap[i := c.heap[i].(waiters := left, cancelled := c.heap[i].cancelled || stop)])
  }

  function Ttl(r: Result): nat { if r.err == NoError then OK_TTL else ERROR_TTL }

  /** `run`, lines 106-117: record the result; a cancelled execution leaves no entry. */
  function Recorded(c: Cache, i: nat, r: Result, now: Time): Cache
    requires i < |c.heap|
  {
    c.(heap := c.heap[i := c.heap[i].(result := r, expires := Some(now + Ttl(r)))],
       active := c.active - 1,
       calls := if r.err == Canceled then c.calls - {c.heap[i].query} else c.calls,
       bytes := if r.err == Canceled then c.bytes else c.bytes + r.size)
  }

  /** `run`, lines 118-120: evict `victims` in turn for as long as the byte limit is exceeded. */
  ghost predicate Trim(c: Cache, victims: seq<Query>, c': Cache)
    requires Linked(c)
    decreases |victims|
  {
    if victims == [] then c.bytes <= MAX_BYTES && c' == c
    else
      && c.bytes > MAX_BYTES
      && Oldest(c, victims[0])
      && (DropLinked(c, victims[0]); Trim(Drop(c, victims[0]), victims[1..], c'))
  }

  /** The locked section of `run`, lines 104-122. */
  ghost predicate Conclude(c: Cache, i: nat, r: Result, now: Time, victims: seq<Query>, c': Cache)
    requires Linked(c) && i < |c.heap| && !Complete(c.heap[i])
  {
    RecordedLinked(c, i, r, now);
    Trim(Recorded(c, i, r, now), victims, c')
  }

  // ---------- sums of lengths ----------

  lemma {:induction false} BytesSplit(h: seq<Call>, s: set<nat>, t: set<nat>)
    requires t <= s
    ensures Bytes(h, s) == Bytes(h, t) + Bytes(h, s - t)
  {
    if h != [] { BytesSplit(h[..|h| - 1], s, t); }
  }

  lemma {:induction false} BytesAgree(h: seq<Call>, g: seq<Call>, s: set<nat>)
    requires |h| == |g|
    requires forall i | 0 <= i < |h| && i in s :: h[i].result.size == g[i].result.size
    ensures Bytes(h, s) == Bytes(g, s)
  {
    if h != [] { BytesAgree(h[..|h| - 1], g[..|g| - 1], s); }
  }

  lemma {:induction false} BytesOne(h: seq<Call>, i: nat)
    requires i < |h|
    ensures Bytes(h, {i}) == h[i].result.size
  {
    if i == |h| - 1 {
      BytesOutside(h[..i], {i});
    } else {
      BytesOne(h[..|h| - 1], i);
    }
  }

  lemma {:induction false} BytesOutside(h: seq<Call>, s: set<nat>)
    requires forall i | i in s :: i >= |h|
    ensures Bytes(h, s) == 0
  {
    if h != [] { BytesOutside(h[..|h| - 1], s); }
  }

  lemma BytesRemove(h: seq<Call>, s: set<nat>, i: nat)
    requires i < |h| && i in s
    ensures Bytes(h, s) == Bytes(h, s - {i}) + h[i].result.size
  {
    BytesSplit(h, s, {i});
    BytesOne(h, i);
  }

  // ---------- structure survives every section ----------

  lemma PrunedLinked(c: Cache, now: Time)
    requires Linked(c)
    ensures Linked(Pruned(c, now))
  {}

  lemma DropLinked(c: Cache, q: Query)
    requires Linked(c) && q in c.calls && Complete(c.heap[c.calls[q]])
    ensures Linked(Drop(c, q))
  {}

  lemma RecordedLinked(c: Cache, i: nat, r: Result, now: Time)
    requires Linked(c) && i < |c.heap| && !Complete(c.heap[i])
    ensures Linked(Recorded(c, i, r, now))
  {
    assert Listed(c, i);
  }

  // ---------- accounting survives every section ----------

  lemma DropAccounted(c: Cache, q: Query)
    requires Linked(c) && Accounted(c) && q in c.calls && Complete(c.heap[c.calls[q]])
    ensures Linked(Drop(c, q)) && Accounted(Drop(c, q))
    ensures |Drop(c, q).calls| == |c.calls| - 1
  {
    var i, d := c.calls[q], Drop(c, q);
    DropLinked(c, q);
    assert Kept(d) == Kept(c) - {i};
    BytesRemove(c.heap, Kept(c), i);
    assert d.calls.Keys == c.calls.Keys - {q};
  }

  lemma PrunedAccounted(c: Cache, now: Time)
    requires Linked(c) && Accounted(c)
    ensures Linked(Pruned(c, now)) && Accounted(Pruned(c, now))
    ensures |Pruned(c, now).calls| <= |c.calls| && Pruned(c, now).bytes <= c.bytes
  {
    var p := Pruned(c, now);
    assert Kept(p) == Kept(c) - ExpiredIds(c, now);
    BytesSplit(c.heap, Kept(c), ExpiredIds(c, now));
    SubsetCard(p.calls.Keys, c.calls.Keys);
  }

  lemma RecordedSets(c: Cache, i: nat, r: Result, now: Time)
    requires Linked(c) && i < |c.heap| && !Complete(c.heap[i])
    ensures i in Flying(c.heap) && i !in Kept(c)
    ensures Flying(Recorded(c, i, r, now).heap) == Flying(c.heap) - {i}
    ensures Kept(Recorded(c, i, r, now)) == if r.err == Canceled then Kept(c) else Kept(c) + {i}
  {
    var d := Recorded(c, i, r, now);
    assert Listed(c, i);
    assert forall j | 0 <= j < |c.heap| && j != i :: d.heap[j] == c.heap[j];
    forall j | 0 <= j < |c.heap| && j != i ensures Listed(d, j) == Listed(c, j) {}
  }

  lemma RecordedAccounted(c: Cache, i: nat, r: Result, now: Time)
    requires Linked(c) && Accounted(c) && i < |c.heap| && !Complete(c.heap[i])
    ensures Linked(Recorded(c, i, r, now)) && Accounted(Recorded(c, i, r, now))
  {
    var d := Recorded(c, i, r, now);
    RecordedLinked(c, i, r, now);
    RecordedSets(c, i, r, now);
    BytesAgree(c.heap, d.heap, Kept(c));
    if r.err != Canceled {
      BytesRemove(d.heap, Kept(d), i);
      assert Kept(d) - {i} == Kept(c);
    }
  }

  lemma InsertedLinked(c: Cache, q: Query)
    requires Linked(c) && q !in c.calls
    ensures Linked(Inserted(c, q))
  {
    InsertedSets(c, q);
  }

  lemma InsertedSets(c: Cache, q: Query)
    requires Linked(c) && q !in c.calls
    ensures Linked(Inserted(c, q))
    ensures |c.heap| !in Flying(c.heap)
    ensures Flying(Inserted(c, q).heap) == Flying(c.heap) + {|c.heap|}
    ensures Kept(Inserted(c, q)) == Kept(c)
  {
    var d, n := Inserted(c, q), |c.heap|;
    assert forall j | 0 <= j < n :: d.heap[j] == c.heap[j];
    forall j | 0 <= j < n ensures Listed(c, j) ==> Listed(d, j) {}
    forall j | 0 <= j < n && Listed(d, j) ensures Listed(c, j) {}
  }

  lemma InsertedAccounted(c: Cache, q: Query)
    requires Linked(c) && Accounted(c) && q !in c.calls
    ensures Linked(Inserted(c, q)) && Accounted(Inserted(c, q))
    ensures |Inserted(c, q).calls| == |c.calls| + 1
  {
    InsertedSets(c, q);
    BytesAppend(c.heap, Inserted(c, q).heap[|c.heap|], Kept(c));
    assert Inserted(c, q).calls.Keys == c.calls.Keys + {q};
  }

  lemma BytesAppend(h: seq<Call>, x: Call, s: set<nat>)
    requires |h| !in s
    ensures Bytes(h + [x], s) == Bytes(h, s)
  {
    assert (h + [x])[..|h|] == h;
  }

  /** Changing only how many callers wait on a call, or whether its context is cancelled, keeps the accounts. */
  lemma WaitersOnly(c: Cache, i: nat, waiters: int, cancelled: bool)
    requires CacheInv(c) && i < |c.heap|
    ensures CacheInv(c.(heap := c.heap[i := c.heap[i].(waiters := waiters, cancelled := cancelled)]))
  {
    var d := c.(heap := c.heap[i := c.heap[i].(waiters := waiters, cancelled := cancelled)]);
    assert forall j | 0 <= j < |c.heap| && Listed(c, j) :: Listed(d, j);
    assert Flying(d.heap) == Flying(c.heap);
    assert Kept(d) == Kept(c);
    BytesAgree(c.heap, d.heap, Kept(c));
  }

  // ---------- a victim always exists ----------

  lemma {:induction false} InjectionCard(calls: map<Query, nat>, qs: set<Query>, ids: set<nat>)
    requires qs <= calls.Keys
    requires forall q | q in qs :: calls[q] in ids
    requires forall p, q | p in qs && q in qs && calls[p] == calls[q] :: p == q
    ensures |qs| <= |ids|
    decreases |qs|
  {
    if qs != {} {
      var q :| q in qs;
      InjectionCard(calls, qs - {q}, ids - {calls[q]});
    }
  }

  /** Among finitely many complete entries one expires first. */
  lemma {:induction false} OldestExists(c: Cache, done: set<Query>) returns (q: Query)
    requires Linked(c) && done != {} && done <= c.calls.Keys
    requires forall p | p in done :: Complete(c.heap[c.calls[p]])
    ensures q in done
    ensures forall p | p in done :: c.heap[c.calls[q]].expires.value <= c.heap[c.calls[p]].expires.value
    decreases |done|
  {
    q :| q in done;
    if done != {q} {
      var r := OldestExists(c, done - {q});
      if c.heap[c.calls[r]].expires.value < c.heap[c.calls[q]].expires.value { q := r; }
    }
  }

  ghost function Done(c: Cache): set<Query>
    requires Linked(c)
  {
    set q | q in c.calls && Complete(c.heap[c.calls[q]])
  }

  lemma FullHasDone(c: Cache)
    requires Linked(c) && Accounted(c) && |c.calls| > c.active
    ensures Done(c) != {}
  {
    if Done(c) == {} {
      assert forall q | q in c.calls :: q !in Done(c);
      InjectionCard(c.calls, c.calls.Keys, Flying(c.heap));
    }
  }

  lemma {:induction false} PositiveHasMember(h: seq<Call>, s: set<nat>) returns (i: nat)
    requires Bytes(h, s) > 0
    ensures i < |h| && i in s
  {
    if |h| - 1 in s { i := |h| - 1; } else { i := PositiveHasMember(h[..|h| - 1], s); }
  }

  lemma HeavyHasDone(c: Cache)
    requires Linked(c) && Accounted(c) && c.bytes > 0
    ensures Done(c) != {}
  {
    var i := PositiveHasMember(c.heap, Kept(c));
    assert c.heap[i].query in Done(c);
  }

  /** `evictOldest` never dereferences nil. A cache at the entry limit with a free active slot has an evictable
      entry, and so has a cache over the byte limit; the victim is complete and expires first. */
  lemma VictimExists(c: Cache) returns (q: Query)
    requires Linked(c) && Accounted(c)
    requires (|c.calls| >= 128 && c.active < 32) || c.bytes > 16 * 1024 * 1024
    ensures q in c.calls && c.heap[c.calls[q]].expires.Some?
    ensures forall p | p in c.calls && c.heap[c.calls[p]].expires.Some? ::
              c.heap[c.calls[q]].expires.value <= c.heap[c.calls[p]].expires.value
  {
    if c.bytes > MAX_BYTES { HeavyHasDone(c); } else { FullHasDone(c); }
    q := OldestExists(c, Done(c));
    assert forall p | p in c.calls && Complete(c.heap[c.calls[p]]) :: p in Done(c);
  }

  // ---------- every locked section keeps the invariant ----------

  lemma PrunedKeeps(c: Cache, now: Time)
    requires CacheInv(c)
    ensures CacheInv(Pruned(c, now))
  {
    PrunedAccounted(c, now);
  }

  lemma JoinKeeps(c: Cache, id: nat)
    requires CacheInv(c) && id < |c.heap|
    ensures CacheInv(Joining(c, id))
  {
    WaitersOnly(c, id, c.heap[id].waiters + 1, c.heap[id].cancelled);
  }

  lemma AdmitKeeps(c: Cache, q: Query, now: Time, a: Admission, c': Cache)
    requires CacheInv(c) && Admit(c, q, now, a, c')
    ensures CacheInv(c')
  {
    hide Balanced;
    PrunedKeeps(c, now);
    match a
    case Joined(id) => JoinKeeps(Pruned(c, now), id);
    case Refused =>
    case Started(id, victim) => StartKeeps(Pruned(c, now), q, victim, c');
  }

  /** The three ways through `get`, once it has pruned. */
  lemma AdmitJoined(c: Cache, q: Query, now: Time)
    requires CacheInv(c) && q in Pruned(c, now).calls
    ensures Pruned(c, now).calls[q] < |c.heap|
    ensures Admit(c, q, now, Joined(Pruned(c, now).calls[q]), Joining(Pruned(c, now), Pruned(c, now).calls[q]))
    ensures CacheInv(Joining(Pruned(c, now), Pruned(c, now).calls[q]))
  {
    hide Balanced;
    PrunedLinked(c, now);
    AdmitKeeps(c, q, now, Joined(Pruned(c, now).calls[q]), Joining(Pruned(c, now), Pruned(c, now).calls[q]));
  }

  lemma AdmitRefused(c: Cache, q: Query, now: Time)
    requires CacheInv(c) && q !in Pruned(c, now).calls && c.active >= MAX_ACTIVE
    ensures Admit(c, q, now, Refused, Pruned(c, now)) && CacheInv(Pruned(c, now))
  {
    PrunedKeeps(c, now);
  }

  lemma AdmitStarted(c: Cache, q: Query, now: Time, victim: Option<Query>, room: Cache)
    requires CacheInv(c) && q !in Pruned(c, now).calls && c.active < MAX_ACTIVE
    requires Linked(Pruned(c, now)) && MakesRoom(Pruned(c, now), victim, room)
    ensures Admit(c, q, now, Started(|c.heap|, victim), Inserted(room, q)) && CacheInv(Inserted(room, q))
  {
    hide Balanced;
    PrunedLinked(c, now);
    AdmitKeeps(c, q, now, Started(|c.heap|, victim), Inserted(room, q));
  }

  /** A cache that agrees with the pruned one on everything but the byte count, and is accounted, is it. */
  lemma PrunedUnique(c: Cache, now: Time, d: Cache)
    requires Linked(c) && Accounted(c) && Accounted(d)
    requires d.heap == c.heap && d.active == c.active && d.failures == Pruned(c, now).failures
    requires forall q :: q in d.calls <==> q in c.calls && !Expired(c.heap[c.calls[q]], now)
    requires forall q | q in d.calls :: d.calls[q] == c.calls[q]
    ensures d == Pruned(c, now)
  {
    PrunedAccounted(c, now);
    assert d.calls == Pruned(c, now).calls;
    SameKept(d, Pruned(c, now));
  }

  lemma StartKeeps(p: Cache, q: Query, victim: Option<Query>, c': Cache)
    requires CacheInv(p) && q !in p.calls && p.active < MAX_ACTIVE
    requires exists room :: MakesRoom(p, victim, room) && c' == Inserted(room, q)
    ensures CacheInv(c')
  {
    var room :| MakesRoom(p, victim, room) && c' == Inserted(room, q);
    RoomKeeps(p, victim, room);
    InsertedAccounted(room, q);
  }

  lemma RoomKeeps(c: Cache, victim: Option<Query>, room: Cache)
    requires Linked(c) && Accounted(c) && MakesRoom(c, victim, room) && |c.calls| <= MAX_CALLS
    ensures Linked(room) && Accounted(room) && |room.calls| < MAX_CALLS
    ensures room.heap == c.heap && room.active == c.active && room.bytes <= c.bytes
    ensures forall q | q in room.calls :: q in c.calls
  {
    if victim.Some? { DropAccounted(c, victim.value); }
  }

  lemma SameKept(c: Cache, d: Cache)
    requires c.heap == d.heap && c.calls == d.calls
    ensures Kept(c) == Kept(d)
  {}

  lemma {:induction false} TrimLeaves(c: Cache, victims: seq<Query>, c': Cache)
    requires Linked(c) && Accounted(c) && Trim(c, victims, c')
    ensures Linked(c') && Accounted(c') && c'.bytes <= MAX_BYTES
    ensures c'.heap == c.heap && c'.active == c.active && c'.failures == c.failures
    ensures |victims| + |c'.calls| == |c.calls|
    ensures forall q | q in c'.calls :: q in c.calls && c'.calls[q] == c.calls[q]
    decreases |victims|
  {
    hide Accounted;
    if victims != [] {
      DropAccounted(c, victims[0]);
      TrimLeaves(Drop(c, victims[0]), victims[1..], c');
    }
  }

  /** Eviction under the byte limit: what it leaves, and that it only ever takes complete entries
      that expire no later than every complete entry it leaves. */
  lemma {:induction false} TrimKeeps(c: Cache, victims: seq<Query>, c': Cache)
    requires Linked(c) && Accounted(c) && Trim(c, victims, c')
    ensures Linked(c') && Accounted(c') && c'.bytes <= MAX_BYTES
    ensures c'.heap == c.heap && c'.active == c.active && c'.failures == c.failures
    ensures |victims| + |c'.calls| == |c.calls|
    ensures forall q | q in c'.calls :: q in c.calls && c'.calls[q] == c.calls[q]
    ensures forall q | q in c.calls && q !in c'.calls ::
              Complete(c.heap[c.calls[q]])
              && forall p | p in c'.calls && Complete(c.heap[c'.calls[p]]) ::
                   c.heap[c.calls[q]].expires.value <= c.heap[c'.calls[p]].expires.value
    decreases |victims|
  {
    hide Accounted;
    TrimLeaves(c, victims, c');
    if victims != [] {
      DropAccounted(c, victims[0]);
      TrimKeeps(Drop(c, victims[0]), victims[1..], c');
    }
  }

  /** An entry that is not among the victims stays. */
  lemma {:induction false} TrimSpares(c: Cache, victims: seq<Query>, c': Cache, q: Query)
    requires Linked(c) && Trim(c, victims, c') && q in c.calls && q !in victims
    ensures q in c'.calls && c'.calls[q] == c.calls[q]
    decreases |victims|
  {
    if victims != [] {
      DropLinked(c, victims[0]);
      TrimSpares(Drop(c, victims[0]), victims[1..], c', q);
    }
  }

  /** The byte-limit loop terminates however small the entries it meets: it cannot evict more
      entries than are complete, and while the limit is exceeded one is left to evict. */
  lemma {:induction false} TrimTotal(c: Cache) returns (victims: seq<Query>, c': Cache)
    requires Linked(c) && Accounted(c)
    ensures Trim(c, victims, c')
    ensures |victims| <= |Done(c)|
    decreases |Done(c)|
  {
    if c.bytes <= MAX_BYTES {
      victims, c' := [], c;
    } else {
      var q := VictimExists(c);
      DropAccounted(c, q);
      var d := Drop(c, q);
      assert Done(d) == Done(c) - {q};
      var rest;
      rest, c' := TrimTotal(d);
      victims := [q] + rest;
      assert victims[1..] == rest;
    }
  }

  lemma ConcludeKeeps(c: Cache, i: nat, r: Result, now: Time, victims: seq<Query>, c': Cache)
    requires CacheInv(c) && i < |c.heap| && !Complete(c.heap[i])
    requires Conclude(c, i, r, now, victims, c')
    ensures CacheInv(c')
  {
    RecordedAccounted(c, i, r, now);
    var d := Recorded(c, i, r, now);
    TrimKeeps(d, victims, c');
    SubsetCard(d.calls.Keys, c.calls.Keys);
    assert |d.calls| <= |c.calls|;
  }

  lemma LeaveKeeps(c: Cache, i: nat)
    requires CacheInv(c) && i < |c.heap|
    ensures CacheInv(Leave(c, i))
  {
    hide Balanced, Linked;
    var left := c.heap[i].waiters - 1;
    WaitersOnly(c, i, left, c.heap[i].cancelled || (left == 0 && !Complete(c.heap[i])));
  }

  lemma FailuresOnly(c: Cache, failures: map<int, Time>)
    requires CacheInv(c)
    ensures CacheInv(c.(failures := failures))
  {
    assert Kept(c.(failures := failures)) == Kept(c);
  }

  /** Until an entry expires, is evicted or is dropped by a cancellation, asking again starts nothing. */
  lemma FreshEntryIsJoined(c: Cache, q: Query, now: Time, a: Admission, c': Cache)
    requires Linked(c) && Admit(c, q, now, a, c')
    ensures a.Joined? <==>
              q in c.calls && (c.heap[c.calls[q]].expires.None? || now < c.heap[c.calls[q]].expires.value)
    ensures a.Joined? ==> a.id == c.calls[q] && |c'.heap| == |c.heap|
    ensures !a.Joined? && !a.Refused? ==> |c'.heap| == |c.heap| + 1 && c'.heap[..|c.heap|] == c.heap
  {}
}
