/** Vocabulary shared by every component: optional values and a clock in milliseconds. */
module Common {

  datatype Option<+T> = None | Some(value: T)

  /** Instants and durations are milliseconds; every clock reading is non-decreasing. */
  type Time = nat

  const SECOND: nat := 1000
  const MINUTE: nat := 60_000

  /** A Go `range` over a map visits its keys in no particular order. */
  method Pick<T(==)>(s: set<T>) returns (x: T)
    requires s != {}
    ensures x in s
  {
    x :| x in s;
  }

  lemma SubsetCard<T>(few: set<T>, all: set<T>)
    requires few <= all
    ensures |few| <= |all|
  {
    assert all == few + (all - few);
  }

  function Below(n: nat): (s: set<nat>)
    ensures |s| == n && forall i: nat :: i in s <==> i < n
  {
    if n == 0 then {} else Below(n - 1) + {n - 1}
  }
}
