/**
 What a finished report says, read off what was observed: which checks stop an
 analysis, what is then left out and why, and how the stages that ran are shown
 (internal/agent/rules.go, internal/agent/presentation.go).
 */
module AnalysisReport {
  import opened Prelude
  import opened Checks
  import opened NodeEvidence
  import opened EvidenceMonotonicity
  import opened AllocateView
  import opened RulePipeline

  // ---- Stops -----------------------------------------------------------------

  predicate FailedAs(c: Check, stage: string) {
    c.stage == stage && c.determinate && !c.passed && !c.skipped
  }

  predicate SomeFailed(checks: seq<Check>, stage: string) {
    exists c <- checks :: FailedAs(c, stage)
  }

  /** The ID of the first failed check of the stage. */
  ghost predicate FirstFailed(checks: seq<Check>, stage: string, id: string) {
    exists i :: 0 <= i < |checks| && FailedAs(checks[i], stage) && checks[i].id == id
      && forall j :: 0 <= j < i ==> !FailedAs(checks[j], stage)
  }

  lemma {:induction false} FirstFailureMeans(checks: seq<Check>, stage: string)
    ensures StageFailure(checks, stage).Some? <==> SomeFailed(checks, stage)
    ensures StageFailure(checks, stage).Some? ==> FirstFailed(checks, stage, StageFailure(checks, stage).value.id)
  {
    if checks != [] {
      var first, rest := checks[0], checks[1..];
      FirstFailureMeans(rest, stage);
      assert checks == [first] + rest;
      if FailedAs(first, stage) {
        assert FailedAs(checks[0], stage);
      } else if StageFailure(rest, stage).Some? {
        var id := StageFailure(rest, stage).value.id;
        var i :| 0 <= i < |rest| && FailedAs(rest[i], stage) && rest[i].id == id
          && forall j :: 0 <= j < i ==> !FailedAs(rest[j], stage);
        assert FailedAs(checks[i + 1], stage) && forall j :: 1 <= j < i + 1 ==> checks[j] == rest[j - 1];
      }
    }
  }

  /** The Pod could not be read, or a validation failed. */
  predicate StopsAtPreflight(world: World) {
    world.lookup != PodFound || SomeFailed(world.validateChecks, "preflight")
  }

  /** An enqueue check failed, and enqueue is not proven to be absent from the active policy. */
  predicate StopsAtEnqueue(world: World) {
    && !StopsAtPreflight(world)
    && SomeFailed(world.validateChecks + world.enqueueChecks, "enqueue")
    && (world.policy.determinate && world.policy.activeDeterminate ==> "enqueue" in world.policy.actions)
  }

  predicate StopsAtJobValid(world: World) {
    && !StopsAtPreflight(world) && !StopsAtEnqueue(world)
    && SomeFailed(world.validateChecks + world.enqueueChecks, "jobValid")
  }

  predicate Stops(world: World) {
    StopsAtPreflight(world) || StopsAtEnqueue(world) || StopsAtJobValid(world)
  }

  lemma StopsMean(world: World)
    ensures PreflightStops(world) <==> StopsAtPreflight(world)
    ensures !PreflightStops(world) ==> (EnqueueStops(world) <==> StopsAtEnqueue(world))
    ensures !PreflightStops(world) && !EnqueueStops(world) ==> (JobValidStops(world) <==> StopsAtJobValid(world))
  {
    FirstFailureMeans(world.validateChecks, "preflight");
    FirstFailureMeans(world.validateChecks + world.enqueueChecks, "enqueue");
    FirstFailureMeans(world.validateChecks + world.enqueueChecks, "jobValid");
  }

  // ---- Reasons and records ------------------------------------------------------

  /** Why nothing after validation was run. */
  ghost predicate PreflightReason(world: World, reason: Reason) {
    match world.lookup
    case PodNotFound => reason == Failed(Validate, "task.exists")
    case PodUnreadable => reason == PreflightUnfinished("task.load")
    case PodFound => exists id :: reason == Failed(Validate, id) && FirstFailed(world.validateChecks, "preflight", id)
  }

  ghost predicate StoppedBy(world: World, rule: Rule, stage: string, reason: Reason) {
    exists id :: reason == Failed(rule, id) && FirstFailed(world.validateChecks + world.enqueueChecks, stage, id)
  }

  /** The allocate checks: cache, identity, the nodes' summary and the plugins. */
  ghost predicate AllocateRecord(world: World, checks: seq<Check>) {
    && |checks| == 4
    && checks[0] == world.cacheCheck && checks[1] == world.identityCheck && checks[3] == world.pluginCheck
    && checks[2].id == "allocate.nodes" && checks[2].stage == "allocate" && !checks[2].skipped
    && checks[2].wouldPass.None?
    && (checks[2].passed <==> !world.nodesFailed && SomeNodePasses(world.nodes))
    && (checks[2].determinate <==> !world.nodesFailed && (SomeNodePasses(world.nodes) || NoNodeIsOpen(world.nodes)))
  }

  ghost predicate Records(world: World, report: Report) {
    var seen := world.validateChecks + world.enqueueChecks;
    if world.lookup == PodNotFound then
      report.checks == [Check("task.exists", "preflight", false, true, false, None)]
    else if world.lookup == PodUnreadable then
      report.checks == [Check("task.load", "preflight", false, false, false, None)]
    else if StopsAtPreflight(world) then report.checks == world.validateChecks
    else if Stops(world) then report.checks == seen
    else exists own, availability :: AllocateRecord(world, own) && ReplacesNodes(seen + own, availability, report)
  }

  /** The node summary of the report takes the place of the recorded one, and nothing else changes. */
  ghost predicate ReplacesNodes(checks: seq<Check>, availability: Check, report: Report) {
    && Filter(report.checks, OtherThan("allocate.nodes")) == Filter(checks, OtherThan("allocate.nodes"))
    && multiset(report.checks)[availability] == 1
    && (forall c <- report.checks :: c.id == "allocate.nodes" ==> c == availability)
    && availability.id == "allocate.nodes" && !availability.skipped
    && availability.passed == SomeNodePasses(report.nodes)
    && (availability.determinate <==> SomeNodePasses(report.nodes) || NoNodeIsOpen(report.nodes))
  }

  lemma RecordsMean(world: World, report: Report)
    requires Explains(world, report)
    ensures Records(world, report)
  {
    StopsMean(world);
    if !Stops(world) {
      AllocateIsRecorded(world);
      NodesAreReplaced(world, report);
    }
  }

  lemma AllocateIsRecorded(world: World)
    ensures AllocateRecord(world, AllocateChecks(world))
  {
    AvailabilityMeans(world.nodes);
  }

  lemma NodesAreReplaced(world: World, report: Report)
    requires Explains(world, report) && !Stops(world)
    ensures ReplacesNodes(Seen(world) + AllocateChecks(world), Availability(report.nodes), report)
  {
    StopsMean(world);
    AvailabilityMeans(report.nodes);
    ReplacedKeepsOthers(
      Seen(world) + AllocateChecks(world), "allocate.nodes", Availability(report.nodes), false);
    assert OtherThan("allocate.nodes") == (d: Check) => d.id != "allocate.nodes";
  }

  // ---- The stages that ran ---------------------------------------------------------

  /** The hooks were read, and the policy is proven and made of known actions. */
  predicate Verified(world: World) {
    && world.hooksInspected && world.policy.determinate && world.policy.activeDeterminate
    && forall a <- world.policy.actions ::
         a in {"enqueue", "allocate", "backfill", "preempt", "reclaim", "shuffle"}
  }

  /** Enqueue is judged by its recorded checks, the plugins' and the queue's. */
  ghost predicate EnqueueJudged(world: World, checks: seq<Check>, c: Check) {
    var answered := Verified(world) && "enqueue" in world.policy.actions;
    || (c in checks && c.stage == "enqueue" && !(answered && c.id == "plugins.job-enqueueable"))
    || (answered && world.enqueueHooks == []
        && c == Check("plugins.job-enqueueable.none", "enqueue", true, true, false, None))
    || c in world.enqueueHooks || c in world.queueChecks
  }

  /** A gang check whose minimum the visible tasks meet counts as passed while the gang plugin is active. */
  predicate GangMet(world: World, c: Check) {
    && world.policy.activeDeterminate && world.gang == GangHookEnabled
    && "plugins.gang." <= c.id && c.wouldPass == Some(true)
  }

  predicate JobValidKept(world: World, id: string) {
    Verified(world) ==> id != "plugins.job-valid" && (world.gang == NoGangHook ==> !("plugins.gang." <= id))
  }

  predicate ResolvedAs(world: World, d: Check, c: Check) {
    && d.stage == "jobValid" && GangMet(world, d) && JobValidKept(world, d.id)
    && c == Check(d.id, "jobValid", true, true, false, d.wouldPass)
  }

  ghost predicate JobValidJudged(world: World, checks: seq<Check>, c: Check) {
    || (c in checks && c.stage == "jobValid" && !GangMet(world, c) && JobValidKept(world, c.id))
    || (exists d <- checks :: ResolvedAs(world, d, c))
    || (Verified(world) && world.jobValidHooks == []
        && !(world.policy.activeDeterminate && world.gang == GangHookEnabled)
        && c == Check("plugins.job-valid.none", "jobValid", true, true, false, None))
    || c in world.jobValidHooks
  }

  lemma EnqueueViewHolds(world: World, checks: seq<Check>, c: Check)
    ensures c in EnqueueView(world, checks) <==> EnqueueJudged(world, checks, c)
  {
    FilterHolds(checks, OfStage("enqueue"), c);
    FilterHolds(Filter(checks, OfStage("enqueue")), OtherThan(JOB_ENQUEUEABLE), c);
  }

  lemma ResolvedHolds(checks: seq<Check>, c: Check)
    ensures c in Resolved(checks) <==> exists d <- checks :: ResolvedCheck(d) == c
  {
    if d :| d in checks && ResolvedCheck(d) == c {
      var i :| 0 <= i < |checks| && checks[i] == d;
      assert Resolved(checks)[i] == c;
    }
  }

  lemma OwnJobValidHolds(world: World, checks: seq<Check>, c: Check)
    ensures c in OwnJobValidChecks(world, checks) <==>
      || (c in checks && c.stage == "jobValid" && !GangMet(world, c) && JobValidKept(world, c.id))
      || (exists d <- checks :: ResolvedAs(world, d, c))
  {
    var own := Filter(checks, OfStage("jobValid"));
    var resolved := if GangActive(world) then Resolved(own) else own;
    var rest := if InventoryVerified(world) then Filter(resolved, OtherThan(JOB_VALID)) else resolved;
    FilterHolds(resolved, OtherThan(JOB_VALID), c);
    FilterHolds(rest, Outside(GANG_PREFIX), c);
    ResolvedHolds(own, c);
    forall d ensures d in own <==> d in checks && d.stage == "jobValid" {
      FilterHolds(checks, OfStage("jobValid"), d);
    }
  }

  lemma JobValidViewHolds(world: World, checks: seq<Check>, c: Check)
    ensures c in JobValidView(world, checks) <==> JobValidJudged(world, checks, c)
  {
    OwnJobValidHolds(world, checks, c);
  }

  /** A failed check decides; then proof of admission; then everything that ran must be a known pass. */
  ghost predicate EnqueueIs(world: World, checks: seq<Check>, outcome: Outcome) {
    if exists c :: EnqueueJudged(world, checks, c) && !c.skipped && c.determinate && !c.passed then outcome == Fail
    else if exists c :: EnqueueJudged(world, checks, c) && c.id == "job.enqueue.evidence" && c.determinate && c.passed
    then outcome == Pass
    else if && (forall c :: EnqueueJudged(world, checks, c) && !c.skipped ==> c.determinate)
            && (exists c :: EnqueueJudged(world, checks, c) && !c.skipped)
    then outcome == Pass
    else outcome == Undecided
  }

  ghost predicate JobValidIs(world: World, checks: seq<Check>, outcome: Outcome) {
    if exists c :: JobValidJudged(world, checks, c) && !c.skipped && c.determinate && !c.passed then outcome == Fail
    else if && (forall c :: JobValidJudged(world, checks, c) && !c.skipped ==> c.determinate)
            && (exists c :: JobValidJudged(world, checks, c) && !c.skipped)
    then outcome == Pass
    else outcome == Undecided
  }

  lemma EnqueueOutcomeMeans(checks: seq<Check>)
    ensures EnqueueOutcome(checks) ==
      if exists c <- checks :: !c.skipped && c.determinate && !c.passed then Fail
      else if exists c <- checks :: c.id == "job.enqueue.evidence" && c.determinate && c.passed then Pass
      else StageState(checks)
  {
    StateMeans(checks);
    if c :| c in checks && c.id == "job.enqueue.evidence" && c.determinate && c.passed {
      var i :| 0 <= i < |checks| && checks[i] == c;
      assert AdmissionEvidence(checks[i]);
    }
  }

  lemma EnqueueIsShown(world: World, checks: seq<Check>)
    ensures EnqueueIs(world, checks, EnqueueOutcome(EnqueueView(world, checks)))
  {
    forall c {
      EnqueueViewHolds(world, checks, c);
    }
    EnqueueOutcomeMeans(EnqueueView(world, checks));
    StateMeans(EnqueueView(world, checks));
  }

  lemma JobValidIsShown(world: World, checks: seq<Check>)
    ensures JobValidIs(world, checks, StageState(JobValidView(world, checks)))
  {
    forall c {
      JobValidViewHolds(world, checks, c);
    }
    StateMeans(JobValidView(world, checks));
  }

  /** What is recorded when the stages are presented. */
  ghost predicate Recorded(world: World, checks: seq<Check>) {
    var seen := world.validateChecks + world.enqueueChecks;
    if Stops(world) then checks == seen else exists own :: AllocateRecord(world, own) && checks == seen + own
  }

  ghost predicate ShowsStages(world: World, report: Report, checks: seq<Check>) {
    && (if StopsAtPreflight(world) then
          report.enqueue.outcome == NotRun && PreflightReason(world, report.enqueue.reason)
        else EnqueueIs(world, checks, report.enqueue.outcome) && report.enqueue.reason == NoReason)
    && (if StopsAtPreflight(world) then report.jobValid == report.enqueue
        else if StopsAtEnqueue(world) then
          report.jobValid.outcome == NotRun && StoppedBy(world, Enqueue, "enqueue", report.jobValid.reason)
        else JobValidIs(world, checks, report.jobValid.outcome) && report.jobValid.reason == NoReason)
    && (if StopsAtPreflight(world) || StopsAtEnqueue(world) then report.allocate == report.jobValid
        else if StopsAtJobValid(world) then
          report.allocate.outcome == NotRun && StoppedBy(world, JobValid, "jobValid", report.allocate.reason)
        else
          var input := AllocateInput(checks, world.hookChecks, world.switches, world.activation);
          StageIs(input, report.nodes, report.allocate.outcome) && report.allocate.reason == NoReason)
  }

  ghost predicate ShowsNodes(world: World, report: Report, checks: seq<Check>) {
    if Stops(world) then report.nodes == []
    else
      var input := AllocateInput(checks, world.hookChecks, world.switches, world.activation);
      |report.nodes| == |world.nodes|
      && forall i :: 0 <= i < |world.nodes| ==> ShowsNode(input, world.nodes[i], report.nodes[i])
  }

  lemma ReasonsMean(world: World)
    ensures StopsAtPreflight(world) ==> PreflightReason(world, FinalEvidence(world).reason)
    ensures StopsAtEnqueue(world) ==> StoppedBy(world, Enqueue, "enqueue", FinalEvidence(world).reason)
    ensures StopsAtJobValid(world) ==> StoppedBy(world, JobValid, "jobValid", FinalEvidence(world).reason)
  {
    StopsMean(world);
    FirstFailureMeans(world.validateChecks, "preflight");
    FirstFailureMeans(world.validateChecks + world.enqueueChecks, "enqueue");
    FirstFailureMeans(world.validateChecks + world.enqueueChecks, "jobValid");
    StageFailureIff(world.validateChecks, "preflight");
  }

  lemma StagesAreShown(world: World, report: Report, checks: seq<Check>)
    requires Explains(world, report)
    requires checks == if Stops(world) then Seen(world) else Seen(world) + AllocateChecks(world)
    ensures ShowsStages(world, report, checks) && ShowsNodes(world, report, checks)
  {
    StopsMean(world);
    ReasonsMean(world);
    EnqueueIsShown(world, checks);
    JobValidIsShown(world, checks);
    ViewMeans(AllocateInput(checks, world.hookChecks, world.switches, world.activation), world.nodes);
  }

  /**
   Every report, from what was observed: its recorded checks, whether the source is
   consulted, which stages ran, how those came out and why the others did not run.
   */
  lemma ReportMeans(world: World, report: Report)
    requires Explains(world, report)
    ensures Records(world, report) && (report.fromSource <==> !StopsAtPreflight(world))
    ensures exists checks ::
      Recorded(world, checks) && ShowsStages(world, report, checks) && ShowsNodes(world, report, checks)
  {
    RecordsMean(world, report);
    StopsMean(world);
    var checks := if Stops(world) then Seen(world) else Seen(world) + AllocateChecks(world);
    AllocateIsRecorded(world);
    assert Recorded(world, checks);
    StagesAreShown(world, report, checks);
  }
}
