/** What `slices.Sort` and `slices.SortStableFunc` promise: a sorted result in which equal elements
    keep their order. `Sort` computes it, and `SortedUnique` shows that nothing else meets the promise. */
module Sorting {

  ghost predicate TotalPreorder<T(!new)>(leq: (T, T) -> bool) {
    && (forall x, y :: leq(x, y) || leq(y, x))
    && forall x, y, z :: leq(x, y) && leq(y, z) ==> leq(x, z)
  }

  ghost predicate Sorted<T>(leq: (T, T) -> bool, s: seq<T>) {
    forall i, j | 0 <= i < j < |s| :: leq(s[i], s[j])
  }

  function Insert<T>(leq: (T, T) -> bool, x: T, s: seq<T>): seq<T> {
    if s == [] || leq(x, s[0]) then [x] + s else [s[0]] + Insert(leq, x, s[1..])
  }

  function Sort<T>(leq: (T, T) -> bool, s: seq<T>): seq<T> {
    if s == [] then [] else Insert(leq, s[0], Sort(leq, s[1..]))
  }

  predicate Equivalent<T>(leq: (T, T) -> bool, x: T, y: T) { leq(x, y) && leq(y, x) }

  /** The elements of `s` that order like `k`, in the order in which they stand. */
  function Class<T>(leq: (T, T) -> bool, k: T, s: seq<T>): seq<T> {
    if s == [] then []
    else if Equivalent(leq, k, s[0]) then [s[0]] + Class(leq, k, s[1..])
    else Class(leq, k, s[1..])
  }

  /** `Class` picks the elements that order like `k` out of every part of a sequence, in their order. */
  lemma {:induction false} ClassExactly<T>(leq: (T, T) -> bool, k: T, a: seq<T>, x: T, b: seq<T>)
    ensures Class(leq, k, a + [x] + b) ==
            Class(leq, k, a) + (if leq(k, x) && leq(x, k) then [x] else []) + Class(leq, k, b)
  {
    if a == [] {
      assert ([] + [x] + b)[1..] == b;
    } else {
      ClassExactly(leq, k, a[1..], x, b);
      assert (a + [x] + b)[1..] == a[1..] + [x] + b;
    }
  }

  /** `t` is `s` sorted stably. */
  ghost predicate StablySorted<T(!new)>(leq: (T, T) -> bool, s: seq<T>, t: seq<T>) {
    Sorted(leq, t) && forall k :: Class(leq, k, t) == Class(leq, k, s)
  }

  lemma {:induction false} InsertMembers<T>(leq: (T, T) -> bool, x: T, s: seq<T>)
    ensures multiset(Insert(leq, x, s)) == multiset(s) + multiset{x}
  {
    if s != [] && !leq(x, s[0]) {
      InsertMembers(leq, x, s[1..]);
      assert s == [s[0]] + s[1..];
    }
  }

  lemma {:induction false} InsertSorts<T(!new)>(leq: (T, T) -> bool, x: T, s: seq<T>)
    requires TotalPreorder(leq) && Sorted(leq, s)
    ensures Sorted(leq, Insert(leq, x, s))
  {
    if s != [] {
      if leq(x, s[0]) {
        forall j | 0 <= j < |s| ensures leq(x, s[j]) {}
      } else {
        var r := Insert(leq, x, s[1..]);
        InsertSorts(leq, x, s[1..]);
        InsertMembers(leq, x, s[1..]);
        forall j | 0 <= j < |r| ensures leq(s[0], r[j]) {
          assert r[j] in multiset(r);
          if r[j] != x { assert r[j] in s[1..]; }
        }
      }
    }
  }

  lemma {:induction false} InsertKeepsClass<T(!new)>(leq: (T, T) -> bool, x: T, s: seq<T>, k: T)
    requires TotalPreorder(leq) && Sorted(leq, s)
    ensures Class(leq, k, Insert(leq, x, s)) == Class(leq, k, [x] + s)
  {
    if s == [] || leq(x, s[0]) {
    } else {
      InsertKeepsClass(leq, x, s[1..], k);
      assert ([s[0]] + Insert(leq, x, s[1..]))[1..] == Insert(leq, x, s[1..]);
      assert ([x] + s)[1..] == s && ([x] + s[1..])[1..] == s[1..];
    }
  }

  lemma {:induction false} SortMembers<T>(leq: (T, T) -> bool, s: seq<T>)
    ensures multiset(Sort(leq, s)) == multiset(s)
  {
    if s != [] {
      SortMembers(leq, s[1..]);
      InsertMembers(leq, s[0], Sort(leq, s[1..]));
      assert s == [s[0]] + s[1..];
    }
  }

  lemma {:induction false} SortIsStable<T(!new)>(leq: (T, T) -> bool, s: seq<T>)
    requires TotalPreorder(leq)
    ensures StablySorted(leq, s, Sort(leq, s))
  {
    if s != [] {
      var r := Sort(leq, s[1..]);
      SortIsStable(leq, s[1..]);
      InsertSorts(leq, s[0], r);
      forall k ensures Class(leq, k, Sort(leq, s)) == Class(leq, k, s) {
        InsertKeepsClass(leq, s[0], r, k);
        assert ([s[0]] + r)[1..] == r;
      }
    }
  }

  lemma {:induction false} ClassMember<T>(leq: (T, T) -> bool, k: T, s: seq<T>, x: T)
    ensures x in Class(leq, k, s) <==> x in s && Equivalent(leq, k, x)
  {
    if s != [] { ClassMember(leq, k, s[1..], x); }
  }

  lemma BothEmpty<T(!new)>(leq: (T, T) -> bool, t: seq<T>, u: seq<T>)
    requires TotalPreorder(leq) && forall k :: Class(leq, k, t) == Class(leq, k, u)
    ensures t == [] <==> u == []
  {
    if t != [] {
      ClassMember(leq, t[0], t, t[0]);
      assert Class(leq, t[0], t) == Class(leq, t[0], u);
      ClassMember(leq, t[0], u, t[0]);
    }
    if u != [] {
      ClassMember(leq, u[0], u, u[0]);
      assert Class(leq, u[0], t) == Class(leq, u[0], u);
      ClassMember(leq, u[0], t, u[0]);
    }
  }

  /** Sorted, with equal elements in their order: that determines the result. */
  lemma {:induction false} SortedUnique<T(!new)>(leq: (T, T) -> bool, t: seq<T>, u: seq<T>)
    requires TotalPreorder(leq) && Sorted(leq, t) && Sorted(leq, u)
    requires forall k :: Class(leq, k, t) == Class(leq, k, u)
    ensures t == u
  {
    BothEmpty(leq, t, u);
    if t != [] {
      var a := t[0];
      ClassMember(leq, a, t, a);
      ClassMember(leq, a, u, a);
      assert Class(leq, a, t) == Class(leq, a, u);
      var b := u[0];
      ClassMember(leq, b, u, b);
      ClassMember(leq, b, t, b);
      assert Class(leq, b, t) == Class(leq, b, u);
      assert Equivalent(leq, a, b);
      assert Class(leq, a, t)[0] == a && Class(leq, a, u)[0] == b;
      forall k ensures Class(leq, k, t[1..]) == Class(leq, k, u[1..]) {
        assert Class(leq, k, t) == Class(leq, k, u);
        if Equivalent(leq, k, a) {
          assert Class(leq, k, t)[1..] == Class(leq, k, t[1..]);
          assert Class(leq, k, u)[1..] == Class(leq, k, u[1..]);
        }
      }
      SortedUnique(leq, t[1..], u[1..]);
    }
  }
}
