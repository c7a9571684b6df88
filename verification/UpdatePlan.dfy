/** What one push round makes of the updates its targets propose (internal/push/push.go). Results arrive in
    any order, so the decision is specified on the multiset of results. */
module UpdatePlan {
  import opened Common
  import opened Text

  datatype Manifest = Manifest(id: string, version: string, url: string, sha256: string, size: int, secret: string)

  datatype TargetResult = TargetResult(ok: bool, retry: bool, manifest: Option<Manifest>, err: Option<string>,
                                       secret: string)

  datatype Decision =
    | Failed(err: string)
    | Conflict
    | Current
    | Nothing
    | Install(manifest: Manifest)

  // ---------- the policy ----------

  /** `sameNodeVersion`. */
  predicate SameVersion(update: string, current: string) {
    TrimSpace(update) != "" && TrimSpace(update) == TrimSpace(current)
  }

  /** A manifest that would change the node. */
  predicate Proposes(r: TargetResult, current: string) {
    r.manifest.Some? && !SameVersion(r.manifest.value.version, current)
  }

  predicate Confirms(r: TargetResult, current: string) {
    r.manifest.Some? && SameVersion(r.manifest.value.version, current)
  }

  /** All that identifies an update: everything but the secret it is fetched with. */
  function Identity(m: Manifest): Manifest { m.(secret := "") }

  lemma ProposesExactly(r: TargetResult, current: string)
    ensures Proposes(r, current) <==>
              r.manifest.Some?
              && (TrimSpace(r.manifest.value.version) == ""
                  || TrimSpace(r.manifest.value.version) != TrimSpace(current))
    ensures Confirms(r, current) <==>
              r.manifest.Some?
              && TrimSpace(r.manifest.value.version) != "" && TrimSpace(r.manifest.value.version) == TrimSpace(current)
  {}

  /** Two proposals agree exactly if they name the same update: everything but the secret. */
  lemma IdentityExactly(a: Manifest, b: Manifest)
    ensures Identity(a) == Identity(b) <==>
              a.id == b.id && a.version == b.version && a.url == b.url && a.sha256 == b.sha256 && a.size == b.size
  {}

  ghost predicate Agreed(rs: multiset<TargetResult>, current: string) {
    forall a, b | a in rs && b in rs && Proposes(a, current) && Proposes(b, current) ::
      Identity(a.manifest.value) == Identity(b.manifest.value)
  }

  /** `m` was proposed, and carries the secret of a target that proposed it. */
  ghost predicate Proposed(rs: multiset<TargetResult>, current: string, m: Manifest) {
    exists r :: r in rs && Proposes(r, current) && Identity(m) == Identity(r.manifest.value)
                && m.secret == TrimSpace(r.secret)
  }

  /** The decision that these results call for. */
  ghost predicate Decided(rs: multiset<TargetResult>, current: string, d: Decision) {
    match d
    case Failed(err) => exists r :: r in rs && r.err == Some(err)
    case _ =>
      && (forall r | r in rs :: r.err == None)
      && match d
         case Conflict => !Agreed(rs, current)
         case Install(m) => Agreed(rs, current) && Proposed(rs, current, m)
         case Current => (forall r | r in rs :: !Proposes(r, current)) && exists r :: r in rs && Confirms(r, current)
         case _ => forall r | r in rs :: r.manifest == None
  }

  /** Equal but for the secret of the update, or the error of the round. */
  predicate Alike(a: Decision, b: Decision) {
    match a
    case Failed(_) => b.Failed?
    case Install(m) => b.Install? && Identity(m) == Identity(b.manifest)
    case _ => a == b
  }

  lemma DecisionIsUnique(rs: multiset<TargetResult>, current: string, a: Decision, b: Decision)
    requires Decided(rs, current, a) && Decided(rs, current, b)
    ensures Alike(a, b)
  {
    hide SameVersion;
  }

  // ---------- the plan ----------

  /** `sameUpdateManifest`. */
  predicate SameUpdate(a: Manifest, b: Manifest) {
    a.id == b.id && a.version == b.version && a.url == b.url && a.sha256 == b.sha256 && a.size == b.size
  }

  /** What the fields of a plan say about the results `rs`. */
  ghost predicate Tells(rs: multiset<TargetResult>, current: string, manifest: Option<Manifest>, conflict: bool,
                        skipped: bool) {
    && (manifest.None? ==> forall r | r in rs :: !Proposes(r, current))
    && (manifest.Some? ==> Proposed(rs, current, manifest.value))
    && (conflict <==> !Agreed(rs, current))
    && (skipped <==> exists r :: r in rs && Confirms(r, current))
  }

  lemma FirstProposal(rs: multiset<TargetResult>, current: string, r: TargetResult)
    requires (forall x | x in rs :: !Proposes(x, current)) && Proposes(r, current)
    ensures Agreed(rs, current) && Agreed(rs + multiset{r}, current)
    ensures Proposed(rs + multiset{r}, current, r.manifest.value.(secret := TrimSpace(r.secret)))
  {
    hide SameVersion, TrimSpace;
    assert r in rs + multiset{r};
  }

  lemma LaterProposal(rs: multiset<TargetResult>, current: string, m: Manifest, r: TargetResult)
    requires Proposed(rs, current, m)
    ensures Proposed(rs + multiset{r}, current, m)
    ensures Agreed(rs + multiset{r}, current) <==>
              Agreed(rs, current) && (Proposes(r, current) ==> Identity(r.manifest.value) == Identity(m))
  {
    hide SameVersion, Identity, TrimSpace;
    var x :| x in rs && Proposes(x, current) && Identity(m) == Identity(x.manifest.value)
             && m.secret == TrimSpace(x.secret);
    assert x in rs + multiset{r} && r in rs + multiset{r};
    assert forall y | y in rs :: y in rs + multiset{r};
  }

  lemma OneMoreConfirmation(rs: multiset<TargetResult>, current: string, r: TargetResult)
    ensures (exists x :: x in rs + multiset{r} && Confirms(x, current)) <==>
              (exists x :: x in rs && Confirms(x, current)) || Confirms(r, current)
  {
    hide Confirms;
    assert r in rs + multiset{r};
    assert forall x | x in rs :: x in rs + multiset{r};
  }

  lemma NoProposal(rs: multiset<TargetResult>, current: string, r: TargetResult)
    requires (forall x | x in rs :: !Proposes(x, current)) && !Proposes(r, current)
    ensures (forall x | x in rs + multiset{r} :: !Proposes(x, current)) && Agreed(rs, current)
            && Agreed(rs + multiset{r}, current)
  {}

  class Plan {
    var manifest: Option<Manifest>
    var conflict: bool
    var skippedCurrent: bool

    constructor ()
      ensures forall current :: Holds(multiset{}, current)
    {
      manifest, conflict, skippedCurrent := None, false, false;
    }

    /** The plan is right about the results seen so far. */
    ghost predicate Holds(seen: multiset<TargetResult>, current: string)
      reads this
    {
      Tells(seen, current, manifest, conflict, skippedCurrent)
    }

    /** `updatePlan.add`. */
    method Add(current: string, m: Option<Manifest>, secret: string)
      modifies this
      ensures manifest == if m.Some? && !SameVersion(m.value.version, current) && old(manifest).None?
                          then Some(m.value.(secret := TrimSpace(secret))) else old(manifest)
      ensures conflict <==> old(conflict) || (m.Some? && !SameVersion(m.value.version, current)
                                              && old(manifest).Some?
                                              && Identity(old(manifest).value) != Identity(m.value))
      ensures skippedCurrent <==> old(skippedCurrent) || (m.Some? && SameVersion(m.value.version, current))
    {
      hide SameVersion;
      if m.None? { return; }
      if SameVersion(m.value.version, current) {
        skippedCurrent := true;
        return;
      }
      if manifest.None? {
        manifest := Some(m.value.(secret := TrimSpace(secret)));
        return;
      }
      if !SameUpdate(manifest.value, m.value) { conflict := true; }
    }

    /** Adding a result keeps the plan right about everything seen. */
    method AddResult(current: string, ghost seen: multiset<TargetResult>, r: TargetResult)
      requires Holds(seen, current)
      modifies this
      ensures Holds(seen + multiset{r}, current)
    {
      hide Proposed, Agreed, SameVersion, TrimSpace;
      OneMoreConfirmation(seen, current, r);
      if manifest.Some? {
        LaterProposal(seen, current, manifest.value, r);
      } else if Proposes(r, current) {
        FirstProposal(seen, current, r);
      } else {
        NoProposal(seen, current, r);
      }
      Add(current, r.manifest, r.secret);
    }
  }

  /** What a decision means: conflict if two proposals differ, and otherwise the update that all name, with the secret
      of a target that proposed it. */
  lemma DecidedMeans(results: seq<TargetResult>, current: string, d: Decision)
    requires Decided(multiset(results), current, d)
    ensures d.Conflict? <==>
              (forall r | r in results :: r.err == None) && !d.Failed?
              && exists a, b :: a in results && b in results && Proposes(a, current) && Proposes(b, current)
                                && Identity(a.manifest.value) != Identity(b.manifest.value)
    ensures d.Install? ==>
              exists r :: r in results && Proposes(r, current)
                          && d.manifest == r.manifest.value.(secret := TrimSpace(r.secret))
    ensures d.Install? ==> forall r | r in results && Proposes(r, current) ::
                             Identity(r.manifest.value) == Identity(d.manifest)
    ensures d.Current? ==> (forall r | r in results :: !Proposes(r, current)) && exists r ::
              r in results && Confirms(r, current)
    ensures d.Nothing? ==> forall r | r in results :: r.manifest.None?
  {
    hide TrimSpace, SameVersion;
    assert forall r :: r in multiset(results) <==> r in results;
    if d.Install? {
      var r :| r in multiset(results) && Proposes(r, current) && Identity(d.manifest) == Identity(r.manifest.value)
               && d.manifest.secret == TrimSpace(r.secret);
      assert d.manifest == r.manifest.value.(secret := TrimSpace(r.secret));
    }
  }

  /** The receiving half of `sendRound`, lines 734-773, up to applying the update. */
  method Decide(results: seq<TargetResult>, current: string) returns (d: Decision, success: bool, retry: bool)
    ensures Decided(multiset(results), current, d)
    ensures d.Failed? ==> exists i :: 0 <= i < |results| && results[i].err == Some(d.err)
                                      && forall j | 0 <= j < i :: results[j].err == None
    ensures !d.Failed? ==> (success <==> exists r :: r in results && r.ok)
                           && (retry <==> exists r :: r in results && r.retry)
  {
    hide SameVersion, Proposed, Agreed;
    success, retry := false, false;
    var plan := new Plan();
    for i := 0 to |results|
      invariant fresh(plan) && plan.Holds(multiset(results[..i]), current)
      invariant forall r | r in results[..i] :: r.err == None
      invariant success <==> exists r :: r in results[..i] && r.ok
      invariant retry <==> exists r :: r in results[..i] && r.retry
    {
      assert results[..i + 1] == results[..i] + [results[i]];
      if results[i].err.Some? {
        assert results[i] in multiset(results);
        return Failed(results[i].err.value), false, false;
      }
      success := success || results[i].ok;
      retry := retry || results[i].retry;
      plan.AddResult(current, multiset(results[..i]), results[i]);
    }
    assert results[..|results|] == results;
    if plan.conflict {
      d := Conflict;
    } else if plan.skippedCurrent && plan.manifest.None? {
      d := Current;
    } else if plan.manifest.Some? {
      d := Install(plan.manifest.value);
    } else {
      d := Nothing;
    }
  }

  /** Whatever order the targets answer in, the round decides alike. */
  lemma OrderIsIrrelevant(results: seq<TargetResult>, permuted: seq<TargetResult>, current: string, a: Decision,
                          b: Decision)
    requires multiset(results) == multiset(permuted)
    requires Decided(multiset(results), current, a) && Decided(multiset(permuted), current, b)
    ensures Alike(a, b)
  {
    DecisionIsUnique(multiset(results), current, a, b);
  }
}
