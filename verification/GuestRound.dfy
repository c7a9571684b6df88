/** One guest-IP round (internal/pve/guest_cache.go, `collectGuests`): eight workers take the sorted
    candidates from an unbuffered channel, and two slots limit the retries. */
module GuestRound {
  import opened Common
  import opened GuestCollector

  const WORKERS := 8
  const RETRY_SLOTS := 2

  datatype Seat = Free | Received(j: nat) | Running(j: nat)

  /** `jobs` are the sorted candidates. `begun` lists the calls of `queryGuest` in the order in which they
      started. */
  datatype Round = Round(jobs: seq<Candidate>, sent: nat, closed: bool, cancelled: bool, seats: seq<Seat>,
                         begun: seq<nat>, skipped: set<nat>, dropped: set<nat>)

  const ALL_FREE: seq<Seat> := [Free, Free, Free, Free, Free, Free, Free, Free]

  /** A round at its start. */
  function Opened(jobs: seq<Candidate>): Round { Round(jobs, 0, false, false, ALL_FREE, [], {}, {}) }

  predicate IsRetry(c: Candidate) { c.priority == 2 }

  datatype Step =
    | Cancel
    | Send(w: nat)
    | Close
    | Drop(w: nat)
    | SkipRetry(w: nat)
    | Begin(w: nat)
    | Done(w: nat)

  ghost function Asking(r: Round): set<nat> { set w | 0 <= w < |r.seats| && r.seats[w].Running? }

  /** The workers that hold a retry slot. */
  ghost function Retrying(jobs: seq<Candidate>, seats: seq<Seat>): set<nat> {
    set w | 0 <= w < |seats| && RunsRetry(jobs, seats[w])
  }

  predicate RunsRetry(jobs: seq<Candidate>, seat: Seat) { seat.Running? && seat.j < |jobs| && IsRetry(jobs[seat.j]) }

  ghost predicate Next(r: Round, r': Round, step: Step) {
    match step
    case Cancel => r' == r.(cancelled := true)
    case Send(w) =>
      && w < |r.seats| && r.seats[w].Free? && !r.closed && r.sent < |r.jobs|
      && r' == r.(seats := r.seats[w := Received(r.sent)], sent := r.sent + 1)
    case Close => !r.closed && (r.cancelled || r.sent == |r.jobs|) && r' == r.(closed := true)
    case Drop(w) =>
      && w < |r.seats| && r.seats[w].Received? && r.cancelled
      && r' == r.(seats := r.seats[w := Free], dropped := r.dropped + {r.seats[w].j})
    case SkipRetry(w) =>
      && w < |r.seats| && r.seats[w].Received? && r.seats[w].j < |r.jobs|
      && IsRetry(r.jobs[r.seats[w].j]) && |Retrying(r.jobs, r.seats)| >= RETRY_SLOTS
      && r' == r.(seats := r.seats[w := Free], skipped := r.skipped + {r.seats[w].j})
    case Begin(w) =>
      && w < |r.seats| && r.seats[w].Received? && r.seats[w].j < |r.jobs|
      && (IsRetry(r.jobs[r.seats[w].j]) ==> |Retrying(r.jobs, r.seats)| < RETRY_SLOTS)
      && r' == r.(seats := r.seats[w := Running(r.seats[w].j)], begun := r.begun + [r.seats[w].j])
    case Done(w) =>
      && w < |r.seats| && r.seats[w].Running?
      && r' == r.(seats := r.seats[w := Free])
  }

  ghost function Pending(seats: seq<Seat>): set<nat> { set w | 0 <= w < |seats| && seats[w].Received? :: seats[w].j }

  ghost predicate NoDuplicates(s: seq<nat>) { forall i, j | 0 <= i < j < |s| :: s[i] != s[j] }

  ghost function Elements(s: seq<nat>): set<nat> { set i | 0 <= i < |s| :: s[i] }

  ghost predicate Known(r: Round, j: nat) {
    j in Pending(r.seats) || j in Elements(r.begun) || j in r.skipped || j in r.dropped
  }

  /** Every candidate that was sent is on its way to a decision, or has had exactly one. */
  ghost predicate Settled(r: Round) {
    && (forall j: nat :: Known(r, j) <==> j < r.sent)
    && Pending(r.seats) !! Elements(r.begun) !! r.skipped !! r.dropped
    && NoDuplicates(r.begun)
    && forall v, w | 0 <= v < w < |r.seats| && r.seats[v].Received? && r.seats[w].Received? ::
         r.seats[v].j != r.seats[w].j
  }

  /** Different seats work on different candidates, and those being queried have begun. */
  ghost predicate Apart(r: Round) {
    && (forall v, w | 0 <= v < w < |r.seats| && r.seats[v].Running? && r.seats[w].Running? ::
          r.seats[v].j != r.seats[w].j)
    && (forall w | 0 <= w < |r.seats| && r.seats[w].Running? ::
          r.seats[w].j < |r.jobs| && r.seats[w].j in Elements(r.begun))
  }

  ghost predicate RoundInv(r: Round) {
    && |r.seats| == WORKERS && r.sent <= |r.jobs|
    && Settled(r) && Apart(r)
    && |Retrying(r.jobs, r.seats)| <= RETRY_SLOTS
    && (forall j | j in r.skipped :: j < |r.jobs| && IsRetry(r.jobs[j]))
    && (r.dropped != {} ==> r.cancelled)
    && (r.closed ==> r.cancelled || r.sent == |r.jobs|)
  }

  // ---------- each step keeps the invariant ----------

  ghost predicate SeatsDiffer(seats: seq<Seat>) {
    forall v, w | 0 <= v < w < |seats| && seats[v].Received? && seats[w].Received? :: seats[v].j != seats[w].j
  }

  lemma PendingLeaves(seats: seq<Seat>, w: nat, seat: Seat)
    requires w < |seats| && seats[w].Received? && !seat.Received? && SeatsDiffer(seats)
    ensures Pending(seats[w := seat]) == Pending(seats) - {seats[w].j}
    ensures seats[w].j in Pending(seats) && SeatsDiffer(seats[w := seat])
  {
    var after := seats[w := seat];
    forall j | j in Pending(seats) && j != seats[w].j ensures j in Pending(after) {
      var v :| 0 <= v < |seats| && seats[v].Received? && seats[v].j == j;
      assert after[v] == seats[v];
    }
  }

  lemma PendingJoins(seats: seq<Seat>, w: nat, j: nat)
    requires w < |seats| && seats[w].Free? && j !in Pending(seats) && SeatsDiffer(seats)
    ensures Pending(seats[w := Received(j)]) == Pending(seats) + {j}
    ensures SeatsDiffer(seats[w := Received(j)])
  {
    var after := seats[w := Received(j)];
    assert after[w] == Received(j);
    forall i | i in Pending(seats) ensures i in Pending(after) {
      var v :| 0 <= v < |seats| && seats[v].Received? && seats[v].j == i;
      assert after[v] == seats[v];
    }
    forall v | 0 <= v < |seats| && seats[v].Received? ensures seats[v].j in Pending(seats) {}
  }

  lemma PendingStays(seats: seq<Seat>, w: nat)
    requires w < |seats| && seats[w].Running?
    ensures Pending(seats[w := Free]) == Pending(seats)
  {
    var after := seats[w := Free];
    forall j | j in Pending(seats) ensures j in Pending(after) {
      var v :| 0 <= v < |seats| && seats[v].Received? && seats[v].j == j;
      assert after[v] == seats[v];
    }
  }

  lemma Append(s: seq<nat>, x: nat)
    requires NoDuplicates(s) && x !in Elements(s)
    ensures NoDuplicates(s + [x]) && Elements(s + [x]) == Elements(s) + {x}
  {
    var t := s + [x];
    assert t[|s|] == x;
    forall y | y in Elements(s) ensures y in Elements(t) {
      var i :| 0 <= i < |s| && s[i] == y;
      assert t[i] == y;
    }
    forall i | 0 <= i < |s| ensures s[i] in Elements(s) {}
  }

  lemma StepKeepsSettled(r: Round, r': Round, step: Step)
    requires Settled(r) && Next(r, r', step)
    ensures Settled(r')
  {
    match step
    case Cancel => assert forall j: nat :: Known(r', j) <==> Known(r, j);
    case Close => assert forall j: nat :: Known(r', j) <==> Known(r, j);
    case Send(w) =>
      assert !Known(r, r.sent);
      PendingJoins(r.seats, w, r.sent);
      assert forall j: nat :: Known(r', j) <==> Known(r, j) || j == r.sent;
    case Drop(w) =>
      PendingLeaves(r.seats, w, Free);
      assert forall j: nat :: Known(r', j) <==> Known(r, j);
    case SkipRetry(w) =>
      PendingLeaves(r.seats, w, Free);
      assert forall j: nat :: Known(r', j) <==> Known(r, j);
    case Begin(w) =>
      PendingLeaves(r.seats, w, Running(r.seats[w].j));
      Append(r.begun, r.seats[w].j);
      assert forall j: nat :: Known(r', j) <==> Known(r, j);
    case Done(w) =>
      PendingStays(r.seats, w);
      assert forall j: nat :: Known(r', j) <==> Known(r, j);
  }

  lemma RetryingAfter(jobs: seq<Candidate>, seats: seq<Seat>, w: nat, seat: Seat)
    requires w < |seats|
    ensures RunsRetry(jobs, seat) ==> |Retrying(jobs, seats[w := seat])| <= |Retrying(jobs, seats)| + 1
    ensures !RunsRetry(jobs, seat) ==> |Retrying(jobs, seats[w := seat])| <= |Retrying(jobs, seats)|
  {
    var before, after := Retrying(jobs, seats), Retrying(jobs, seats[w := seat]);
    assert after == if RunsRetry(jobs, seat) then before + {w} else before - {w};
  }

  lemma StepKeepsRetrying(r: Round, r': Round, step: Step)
    requires |Retrying(r.jobs, r.seats)| <= RETRY_SLOTS && Next(r, r', step)
    ensures |Retrying(r'.jobs, r'.seats)| <= RETRY_SLOTS
  {
    match step
    case Cancel =>
    case Close =>
    case Send(w) => RetryingAfter(r.jobs, r.seats, w, Received(r.sent));
    case Drop(w) => RetryingAfter(r.jobs, r.seats, w, Free);
    case SkipRetry(w) => RetryingAfter(r.jobs, r.seats, w, Free);
    case Begin(w) => RetryingAfter(r.jobs, r.seats, w, Running(r.seats[w].j));
    case Done(w) => RetryingAfter(r.jobs, r.seats, w, Free);
  }

  lemma StepKeepsApart(r: Round, r': Round, step: Step)
    requires Settled(r) && Apart(r) && Next(r, r', step)
    ensures Apart(r')
  {
    hide Known, Retrying;
    if step.Begin? {
      var j := r.seats[step.w].j;
      assert r'.begun == r.begun + [j];
      assert j in Pending(r.seats);
      forall i | i in Elements(r.begun) ensures i in Elements(r'.begun) {
        var k :| 0 <= k < |r.begun| && r.begun[k] == i;
        assert r'.begun[k] == i;
      }
      assert r'.begun[|r.begun|] == j;
    }
  }

  lemma OpenedKeeps(jobs: seq<Candidate>)
    ensures RoundInv(Opened(jobs))
  {
    var r := Opened(jobs);
    assert Pending(r.seats) == {} && Elements([]) == {} && Retrying(jobs, r.seats) == {};
  }

  lemma StepKeeps(r: Round, r': Round, step: Step)
    requires RoundInv(r) && Next(r, r', step)
    ensures RoundInv(r')
  {
    StepKeepsSettled(r, r', step);
    StepKeepsApart(r, r', step);
    StepKeepsRetrying(r, r', step);
    hide Settled, Retrying, Apart;
  }

  ghost predicate Run(rs: seq<Round>, steps: seq<Step>) {
    && |rs| == |steps| + 1
    && rs[0] == Opened(rs[0].jobs)
    && forall k | 0 <= k < |steps| :: Next(rs[k], rs[k + 1], steps[k])
  }

  lemma {:induction false} RunKeeps(rs: seq<Round>, steps: seq<Step>, k: nat)
    requires Run(rs, steps) && k < |rs|
    ensures RoundInv(rs[k]) && rs[k].jobs == rs[0].jobs
  {
    if k == 0 {
      OpenedKeeps(rs[0].jobs);
    } else {
      RunKeeps(rs, steps, k - 1);
      StepKeeps(rs[k - 1], rs[k], steps[k - 1]);
    }
  }

  /** At any time at most eight guests are being asked, and at most two of them are retries. */
  lemma ConcurrencyIsBounded(rs: seq<Round>, steps: seq<Step>, k: nat)
    requires Run(rs, steps) && k < |rs|
    ensures |set w | 0 <= w < |rs[k].seats| && rs[k].seats[w].Running?| <= 8
    ensures |set w | 0 <= w < |rs[k].seats| && rs[k].seats[w].Running? && rs[k].seats[w].j < |rs[k].jobs|
                     && rs[k].jobs[rs[k].seats[w].j].priority == 2| <= 2
  {
    RunKeeps(rs, steps, k);
    var seats, jobs := rs[k].seats, rs[k].jobs;
    assert (set w | 0 <= w < |seats| && seats[w].Running?) == Asking(rs[k]);
    assert (set w | 0 <= w < |seats| && seats[w].Running? && seats[w].j < |jobs| && jobs[seats[w].j].priority == 2)
           == Retrying(jobs, seats);
    assert Asking(rs[k]) <= Below(WORKERS);
    SubsetCard(Asking(rs[k]), Below(WORKERS));
  }

  /** When an uncancelled round is over, every candidate that is no retry was queried exactly once, and
      every retry was queried exactly once or skipped, never both. */
  lemma RoundIsComplete(rs: seq<Round>, steps: seq<Step>, k: nat, j: nat)
    requires Run(rs, steps) && k < |rs|
    requires rs[k].closed && !rs[k].cancelled && forall w | 0 <= w < |rs[k].seats| :: rs[k].seats[w].Free?
    requires j < |rs[k].jobs|
    ensures NoDuplicates(rs[k].begun)
    ensures rs[k].jobs[j].priority != 2 ==> j in rs[k].begun
    ensures rs[k].jobs[j].priority == 2 ==> (j in rs[k].begun <==> j !in rs[k].skipped)
  {
    RunKeeps(rs, steps, k);
    assert Pending(rs[k].seats) == {};
    assert Known(rs[k], j);
  }

  /** The worker is asking a guest whose last attempts failed. */
  predicate AsksAgain(r: Round, w: nat) {
    w < |r.seats| && r.seats[w].Running? && r.seats[w].j < |r.jobs| && r.jobs[r.seats[w].j].priority == 2
  }

  /** A retry is skipped only while two other workers hold the retry slots. */
  lemma SkippedForLackOfSlots(rs: seq<Round>, steps: seq<Step>, k: nat, j: nat) returns (v: nat, w: nat)
    requires Run(rs, steps) && k < |steps| && j in rs[k + 1].skipped && j !in rs[k].skipped
    ensures v != w && AsksAgain(rs[k], v) && AsksAgain(rs[k], w)
    ensures steps[k].SkipRetry? && v != steps[k].w && w != steps[k].w
  {
    assert Next(rs[k], rs[k + 1], steps[k]);
    var held := Retrying(rs[k].jobs, rs[k].seats);
    v :| v in held;
    assert |held - {v}| >= 1;
    w :| w in held - {v};
  }

  /** Candidates are handed to workers in the order of `jobs`, each once. */
  lemma {:induction false} SentInOrder(rs: seq<Round>, steps: seq<Step>, k: nat, m: nat)
    requires Run(rs, steps) && k < m < |steps| && steps[k].Send? && steps[m].Send?
    ensures rs[k + 1].seats[steps[k].w] == Received(rs[k].sent) && rs[m + 1].seats[steps[m].w] == Received(rs[m].sent)
    ensures rs[k].sent < rs[m].sent < |rs[m].jobs|
    decreases m
  {
    assert Next(rs[k], rs[k + 1], steps[k]);
    assert Next(rs[m], rs[m + 1], steps[m]);
    SentGrows(rs, steps, k + 1, m);
  }

  lemma {:induction false} SentGrows(rs: seq<Round>, steps: seq<Step>, k: nat, m: nat)
    requires Run(rs, steps) && k <= m < |rs|
    ensures rs[k].sent <= rs[m].sent
    decreases m
  {
    if k < m {
      SentGrows(rs, steps, k, m - 1);
      assert Next(rs[m - 1], rs[m], steps[m - 1]);
    }
  }
}
