/**
 What better evidence can change. Replacing unknown checks by known ones must
 leave every verdict that was already pass or fail as it is, all the way from
 one node check to the allocate stage; the enqueue stage is the exception.
 */
module EvidenceMonotonicity {
  import opened Prelude
  import opened Checks
  import opened NodeEvidence

  // ---- Sharper evidence ----------------------------------------------------

  /** `d` says at least what `c` says: the same if `c` was determinate, anything if it was not. */
  predicate Sharpens(c: Check, d: Check) {
    && c.id == d.id && c.skipped == d.skipped
    && (c.determinate ==> d.determinate && d.passed == c.passed)
  }

  predicate ChecksSharpen(cs: seq<Check>, ds: seq<Check>) {
    |cs| == |ds| && forall i :: 0 <= i < |cs| ==> Sharpens(cs[i], ds[i])
  }

  predicate NodeSharpens(m: NodeResult, n: NodeResult) {
    m.determinate ==> n.determinate && n.passed == m.passed
  }

  /** Same nodes, sharper checks; the recorded outcomes do not matter, they are recomputed. */
  predicate NodesSharpen(ms: seq<NodeResult>, ns: seq<NodeResult>) {
    |ms| == |ns| && forall i :: 0 <= i < |ms| ==> ChecksSharpen(ms[i].checks, ns[i].checks)
  }

  // ---- Each step keeps the order -------------------------------------------

  lemma NormalizedIsMonotone(cs: seq<Check>, ds: seq<Check>, switches: Switches, activation: Activation)
    requires AllWellFormed(cs) && ChecksSharpen(cs, ds)
    ensures ChecksSharpen(NormalizedAll(cs, switches, activation), NormalizedAll(ds, switches, activation))
  {
  }

  lemma {:induction false} SharperIndexesAgree(cs: seq<Check>, ds: seq<Check>, id: string)
    requires ChecksSharpen(cs, ds)
    ensures LastIndex(cs, id) == LastIndex(ds, id)
  {
    if cs != [] {
      var n := |cs| - 1;
      assert Sharpens(cs[n], ds[n]);
      assert ChecksSharpen(cs[..n], ds[..n]);
      SharperIndexesAgree(cs[..n], ds[..n], id);
    }
  }

  lemma {:induction false} MergedIsMonotone(cs: seq<Check>, ds: seq<Check>, xs: seq<Check>, ys: seq<Check>)
    requires ChecksSharpen(cs, ds) && ChecksSharpen(xs, ys)
    ensures ChecksSharpen(Merged(cs, xs), Merged(ds, ys))
  {
    if xs != [] {
      var n := |xs| - 1;
      assert Sharpens(xs[n], ys[n]);
      MergedIsMonotone(cs, ds, xs[..n], ys[..n]);
      var before, after := Merged(cs, xs[..n]), Merged(ds, ys[..n]);
      SharperIndexesAgree(before, after, xs[n].id);
      LastIndexInRange(before, xs[n].id);
      assert Merged(cs, xs) == MergeOne(before, xs[n]) && Merged(ds, ys) == MergeOne(after, ys[n]);
    }
  }

  lemma SharpenedPair(cs: seq<Check>, ds: seq<Check>, c: Check, d: Check)
    requires ChecksSharpen(cs, ds) && Sharpens(c, d)
    ensures ChecksSharpen(cs + [c], ds + [d])
  {
  }

  lemma {:induction false} FilterIsMonotone(cs: seq<Check>, ds: seq<Check>, keep: Check -> bool)
    requires ChecksSharpen(cs, ds)
    requires forall i :: 0 <= i < |cs| && i < |ds| ==> keep(cs[i]) == keep(ds[i])
    ensures ChecksSharpen(Filter(cs, keep), Filter(ds, keep))
  {
    if cs != [] {
      var n := |cs| - 1;
      assert Sharpens(cs[n], ds[n]) && keep(cs[n]) == keep(ds[n]);
      FilterIsMonotone(cs[..n], ds[..n], keep);
      SharpenedPair(Filter(cs[..n], keep), Filter(ds[..n], keep), cs[n], ds[n]);
    }
  }

  lemma FoldIsMonotone(cs: seq<Check>, ds: seq<Check>)
    requires ChecksSharpen(cs, ds)
    ensures NodePasses(cs) ==> NodePasses(ds)
    ensures NodeDecided(cs) ==> NodeDecided(ds) && NodePasses(ds) == NodePasses(cs)
  {
  }

  lemma AvailabilityIsMonotone(ms: seq<NodeResult>, ns: seq<NodeResult>)
    requires |ms| == |ns| && forall i :: 0 <= i < |ms| ==> NodeSharpens(ms[i], ns[i])
    requires forall i :: 0 <= i < |ms| && ms[i].passed ==> ms[i].determinate
    ensures Sharpens(Availability(ms), Availability(ns))
  {
  }

  lemma StageIsMonotone(cs: seq<Check>, ds: seq<Check>)
    requires ChecksSharpen(cs, ds)
    ensures StageState(cs) != Undecided ==> StageState(ds) == StageState(cs)
  {
  }

  // ---- The allocate view ---------------------------------------------------

  /** Sharper hook evidence and sharper standing checks, under the same policy. */
  predicate InputSharpens(a: AllocateInput, b: AllocateInput) {
    && ChecksSharpen(a.checks, b.checks)
    && (forall i :: 0 <= i < |a.checks| ==> a.checks[i].stage == b.checks[i].stage)
    && ChecksSharpen(a.hookChecks, b.hookChecks)
    && a.switches == b.switches && a.activation == b.activation
  }

  lemma DynamicChecksAreMonotone(a: AllocateInput, b: AllocateInput)
    requires InputSharpens(a, b)
    ensures ChecksSharpen(DynamicChecks(a), DynamicChecks(b))
  {
    assert forall i :: 0 <= i < |a.hookChecks| ==> Sharpens(a.hookChecks[i], b.hookChecks[i]);
    FilterIsMonotone(a.hookChecks, b.hookChecks, (c: Check) => !HasPrefix(c.id, PREDICATES_PREFIX));
  }

  /** A node verdict of the view never changes once it is known. */
  lemma ViewNodeIsMonotone(a: AllocateInput, b: AllocateInput, m: NodeResult, n: NodeResult)
    requires InputSharpens(a, b)
    requires AllWellFormed(m.checks) && ChecksSharpen(m.checks, n.checks)
    ensures NodeSharpens(ViewNode(a, m), ViewNode(b, n))
    ensures ViewNode(a, m).passed ==> ViewNode(a, m).determinate
  {
    NormalizedIsMonotone(m.checks, n.checks, a.switches, a.activation);
    DynamicChecksAreMonotone(a, b);
    var before, after :=
      NormalizedAll(m.checks, a.switches, a.activation), NormalizedAll(n.checks, b.switches, b.activation);
    MergedIsMonotone(before, after, DynamicChecks(a), DynamicChecks(b));
    FoldIsMonotone(Merged(before, DynamicChecks(a)), Merged(after, DynamicChecks(b)));
  }

  lemma StandingChecksAreMonotone(a: AllocateInput, b: AllocateInput)
    requires InputSharpens(a, b)
    ensures ChecksSharpen(StandingChecks(a), StandingChecks(b))
  {
    var mine, others := (c: Check) => c.stage == "allocate", (c: Check) => c.id != "allocate.nodes";
    FilterIsMonotone(a.checks, b.checks, mine);
    var cs, ds := Filter(a.checks, mine), Filter(b.checks, mine);
    assert forall i :: 0 <= i < |cs| ==> Sharpens(cs[i], ds[i]);
    FilterIsMonotone(cs, ds, others);
  }

  /**
   Sharper evidence, at any nodes and hooks at once, keeps every node verdict,
   the `allocate.nodes` verdict and the allocate stage verdict that was
   already pass or fail.
   */
  lemma EvidenceIsMonotone(a: AllocateInput, b: AllocateInput, ms: seq<NodeResult>, ns: seq<NodeResult>)
    requires InputSharpens(a, b) && NodesSharpen(ms, ns)
    requires forall i :: 0 <= i < |ms| ==> AllWellFormed(ms[i].checks)
    ensures forall i :: 0 <= i < |ms| ==> NodeSharpens(ViewNodes(a, ms)[i], ViewNodes(b, ns)[i])
    ensures Sharpens(Availability(ViewNodes(a, ms)), Availability(ViewNodes(b, ns)))
    ensures StageState(ViewChecks(a, ms)) != Undecided ==>
      StageState(ViewChecks(b, ns)) == StageState(ViewChecks(a, ms))
  {
    forall i | 0 <= i < |ms|
      ensures NodeSharpens(ViewNodes(a, ms)[i], ViewNodes(b, ns)[i])
      ensures ViewNodes(a, ms)[i].passed ==> ViewNodes(a, ms)[i].determinate
    {
      ViewNodeIsMonotone(a, b, ms[i], ns[i]);
    }
    AvailabilityIsMonotone(ViewNodes(a, ms), ViewNodes(b, ns));
    StandingChecksAreMonotone(a, b);
    DynamicChecksAreMonotone(a, b);
    var cs := StandingChecks(a) + [Availability(ViewNodes(a, ms))] + DynamicChecks(a);
    var ds := StandingChecks(b) + [Availability(ViewNodes(b, ns))] + DynamicChecks(b);
    assert ChecksSharpen(cs, ds);
    assert forall i :: 0 <= i < |cs| ==> Sharpens(cs[i], ds[i]);
    FilterIsMonotone(cs, ds, (c: Check) => c.id != "plugins.predicates");
    StageIsMonotone(ViewChecks(a, ms), ViewChecks(b, ns));
  }

  // ---- Enqueue: proof of admission overrides the unknowns -------------------

  predicate AdmissionEvidence(c: Check) {
    c.id == "job.enqueue.evidence" && Satisfied(c)
  }

  function EnqueueOutcome(checks: seq<Check>): Outcome {
    if StageFails(checks) then Fail
    else if exists i :: 0 <= i < |checks| && AdmissionEvidence(checks[i]) then Pass
    else StageState(checks)
  }

  method EnqueueState(checks: seq<Check>) returns (outcome: Outcome)
    ensures outcome == EnqueueOutcome(checks)
  {
    for i := 0 to |checks|
      invariant forall j :: 0 <= j < i ==> !(Executed(checks[j]) && KnownFailure(checks[j]))
    {
      if checks[i].determinate && !checks[i].passed && !checks[i].skipped {
        outcome := StateFromChecks(checks);
        return;
      }
    }
    for i := 0 to |checks|
      invariant forall j :: 0 <= j < i ==> !AdmissionEvidence(checks[j])
    {
      if checks[i].id == "job.enqueue.evidence" && checks[i].determinate && checks[i].passed {
        return Pass;
      }
    }
    outcome := StateFromChecks(checks);
  }

  lemma EnqueueFailureIsFinal(cs: seq<Check>, ds: seq<Check>)
    requires ChecksSharpen(cs, ds) && EnqueueOutcome(cs) == Fail
    ensures EnqueueOutcome(ds) == Fail
  {
  }

  /**
   A pass of the enqueue stage survives every sharpening exactly when no check
   of it is unknown: with admission evidence on record the stage passes over
   unknown checks, and any of those may still turn out to have failed.
   */
  lemma EnqueuePassIsFinalIffNothingIsUnknown(cs: seq<Check>)
    requires AllWellFormed(cs) && EnqueueOutcome(cs) == Pass
    ensures (forall ds | ChecksSharpen(cs, ds) :: EnqueueOutcome(ds) == Pass) <==> !HasUnknown(cs)
  {
    assert forall i :: 0 <= i < |cs| ==> WellFormed(cs[i]);
    if i :| 0 <= i < |cs| && !cs[i].determinate {
      var failed := Known(cs[i].id, cs[i].stage, false);
      var ds := cs[i := failed];
      assert Executed(ds[i]) && KnownFailure(ds[i]);
      assert ChecksSharpen(cs, ds) && EnqueueOutcome(ds) == Fail;
    } else {
      forall ds | ChecksSharpen(cs, ds) ensures EnqueueOutcome(ds) == Pass {
        assert forall i :: 0 <= i < |cs| ==> Sharpens(cs[i], ds[i]);
        assert !StageFails(ds) by {
          assert forall i :: 0 <= i < |cs| ==> !(Executed(cs[i]) && KnownFailure(cs[i]));
        }
        if i :| 0 <= i < |cs| && AdmissionEvidence(cs[i]) {
          assert AdmissionEvidence(ds[i]);
        } else {
          StageIsMonotone(cs, ds);
        }
      }
    }
  }

  lemma EnqueuePassCanBeLost()
    ensures exists cs, ds ::
      AllWellFormed(cs) && ChecksSharpen(cs, ds) && EnqueueOutcome(cs) == Pass && EnqueueOutcome(ds) == Fail
  {
    var evidence := Known("job.enqueue.evidence", "enqueue", true);
    var cs := [evidence, Unknown("queue.enqueue-capacity", "enqueue")];
    var ds := [evidence, Known("queue.enqueue-capacity", "enqueue", false)];
    assert AdmissionEvidence(cs[0]);
    assert Executed(ds[1]) && KnownFailure(ds[1]);
    assert ChecksSharpen(cs, ds) && EnqueueOutcome(cs) == Pass && EnqueueOutcome(ds) == Fail;
  }

  // ---- Gang checks ---------------------------------------------------------

  const GANG_PREFIX := "plugins.gang."

  /** The visible tasks alone meet this gang minimum. */
  predicate GangMinimumMet(c: Check) {
    HasPrefix(c.id, GANG_PREFIX) && c.wouldPass == Some(true)
  }

  function ResolvedCheck(c: Check): Check {
    if GangMinimumMet(c) then Known(c.id, "jobValid", true).(wouldPass := c.wouldPass) else c
  }

  function Resolved(checks: seq<Check>): seq<Check> {
    seq(|checks|, i requires 0 <= i < |checks| => ResolvedCheck(checks[i]))
  }

  method ResolveGangChecks(checks: seq<Check>) returns (result: seq<Check>)
    ensures result == Resolved(checks)
  {
    result := [];
    for i := 0 to |checks|
      invariant |result| == i
      invariant forall j :: 0 <= j < i ==> result[j] == ResolvedCheck(checks[j])
    {
      var check := checks[i];
      if !HasPrefix(check.id, GANG_PREFIX) || check.wouldPass.None? || !check.wouldPass.value {
        result := result + [check];
        continue;
      }
      result := result + [Known(check.id, "jobValid", true).(wouldPass := check.wouldPass)];
    }
  }

  /**
   Only a gang check whose minimum is met changes, and it becomes a pass. The gang
   rule emits unknown checks alone, so this is one more sharpening.
   */
  lemma ResolvingGangSharpens(checks: seq<Check>)
    requires AllWellFormed(checks)
    requires forall i :: 0 <= i < |checks| && HasPrefix(checks[i].id, GANG_PREFIX) ==> !checks[i].determinate
    ensures ChecksSharpen(checks, Resolved(checks))
    ensures forall i :: 0 <= i < |checks| ==>
      if GangMinimumMet(checks[i]) then Satisfied(Resolved(checks)[i]) else Resolved(checks)[i] == checks[i]
    ensures StageState(checks) != Undecided ==> StageState(Resolved(checks)) == StageState(checks)
    ensures StageState(Resolved(checks)) == Fail ==> StageState(checks) == Fail
  {
  }
}
