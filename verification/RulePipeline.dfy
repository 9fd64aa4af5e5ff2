/**
 The ordered rules of one analysis and what happens to the later stages when an
 earlier one fails for certain (internal/agent/rules.go, internal/agent/analyzer.go,
 internal/agent/presentation.go). What the rules observe is an input; which
 rules run, what they record and how the stages are presented is computed.
 */
module RulePipeline {
  import opened Prelude
  import opened Checks
  import opened NodeEvidence
  import opened EvidenceMonotonicity

  datatype Rule = Validate | Enqueue | JobValid | Allocate

  const BUILT_IN := [Validate, Enqueue, JobValid, Allocate]

  datatype Policy = Policy(determinate: bool, activeDeterminate: bool, actions: seq<string>)

  datatype Lookup = PodFound | PodNotFound | PodUnreadable

  /** What the inventory says of the gang plugin's JobValid hook. */
  datatype GangHook = NoGangHook | GangHookRegistered | GangHookEnabled

  /**
   Everything an analysis observes from outside. The hook checks of a stage are
   those that its view adds for matched and unmatched plugins.
   */
  datatype World = World(
    lookup: Lookup, policy: Policy,
    validateChecks: seq<Check>, enqueueChecks: seq<Check>,
    nodes: seq<NodeResult>, nodesFailed: bool, cacheCheck: Check, identityCheck: Check, pluginCheck: Check,
    hooksInspected: bool, gang: GangHook,
    enqueueHooks: seq<Check>, queueChecks: seq<Check>, jobValidHooks: seq<Check>,
    hookChecks: seq<Check>, switches: Switches, activation: Activation)

  /** Why a stage was not run; the printed reason names the check. */
  datatype Reason = NoReason | PreflightUnfinished(id: string) | Failed(rule: Rule, id: string)

  datatype Evidence = Evidence(
    podLoaded: bool, preflightStopped: bool, enqueueStopped: bool, jobValidStopped: bool, allocateStopped: bool,
    reason: Reason)

  const NO_EVIDENCE := Evidence(false, false, false, false, false, NoReason)

  // ---- Known failures -------------------------------------------------------

  predicate FailsStage(c: Check, stage: string) {
    c.stage == stage && c.determinate && !c.passed && !c.skipped
  }

  /** The first check that proves the stage failed. */
  function StageFailure(checks: seq<Check>, stage: string): Option<Check> {
    if checks == [] then None
    else if FailsStage(checks[0], stage) then Some(checks[0])
    else StageFailure(checks[1..], stage)
  }

  lemma {:induction false} StageFailureIff(checks: seq<Check>, stage: string)
    ensures StageFailure(checks, stage).Some? <==> exists i :: 0 <= i < |checks| && FailsStage(checks[i], stage)
    ensures StageFailure(checks, stage).Some? ==>
      StageFailure(checks, stage).value in checks && FailsStage(StageFailure(checks, stage).value, stage)
  {
    if checks != [] {
      StageFailureIff(checks[1..], stage);
      if FailsStage(checks[0], stage) {
      } else if i :| 0 <= i < |checks| && FailsStage(checks[i], stage) {
        assert checks[1..][i - 1] == checks[i];
      }
    }
  }

  method KnownStageFailure(checks: seq<Check>, stage: string) returns (failure: Option<Check>)
    ensures failure == StageFailure(checks, stage)
  {
    for i := 0 to |checks|
      invariant StageFailure(checks, stage) == StageFailure(checks[i..], stage)
    {
      if FailsStage(checks[i], stage) {
        return Some(checks[i]);
      }
      assert checks[i..][1..] == checks[i + 1..];
    }
    return None;
  }

  predicate MayEnqueue(policy: Policy) {
    !policy.determinate || !policy.activeDeterminate || "enqueue" in policy.actions
  }

  method ObservedEnqueueAction(policy: Policy) returns (observed: bool)
    ensures observed == MayEnqueue(policy)
  {
    if !policy.determinate || !policy.activeDeterminate {
      return true;
    }
    for i := 0 to |policy.actions|
      invariant "enqueue" !in policy.actions[..i]
    {
      if policy.actions[i] == "enqueue" {
        return true;
      }
    }
    assert policy.actions[..|policy.actions|] == policy.actions;
    return false;
  }

  function LookupCheck(lookup: Lookup): Check {
    if lookup == PodNotFound then Known("task.exists", "preflight", false) else Unknown("task.load", "preflight")
  }

  function StoppedAtPreflight(c: Check): Evidence {
    NO_EVIDENCE.(preflightStopped := true,
                 reason := if c.determinate && !c.passed && !c.skipped then Failed(Validate, c.id)
                           else PreflightUnfinished(c.id))
  }

  // ---- The rules ------------------------------------------------------------

  /** The data that the rules share and update. */
  class RuleState {
    var checks: seq<Check>
    var nodes: seq<NodeResult>
    var policy: Policy
    var evidence: Evidence
    var finishWithoutSource: bool
    var stopped: bool

    constructor ()
      ensures checks == [] && nodes == [] && evidence == NO_EVIDENCE && !finishWithoutSource && !stopped
    {
      checks, nodes, policy, evidence := [], [], Policy(false, false, []), NO_EVIDENCE;
      finishWithoutSource, stopped := false, false;
    }

    method StopWithoutSource(why: Evidence)
      modifies this
      ensures evidence == why && finishWithoutSource && stopped
      ensures checks == old(checks) && nodes == old(nodes) && policy == old(policy)
    {
      evidence, finishWithoutSource, stopped := why, true, true;
    }

    method StopWithSource()
      modifies this`stopped
      ensures stopped
    {
      stopped := true;
    }

    method EvaluateValidate(world: World)
      requires checks == [] && evidence == NO_EVIDENCE && !stopped && !finishWithoutSource
      modifies this
      ensures nodes == old(nodes)
      ensures world.lookup == PodFound ==> checks == world.validateChecks && policy == world.policy
      ensures world.lookup != PodFound ==> checks == [LookupCheck(world.lookup)]
      ensures stopped == finishWithoutSource == PreflightStops(world)
      ensures evidence == if world.lookup != PodFound then StoppedAtPreflight(LookupCheck(world.lookup))
        else match StageFailure(checks, "preflight")
          case None => NO_EVIDENCE.(podLoaded := true)
          case Some(c) => StoppedAtPreflight(c).(podLoaded := true)
    {
      if world.lookup != PodFound {
        checks := checks + [LookupCheck(world.lookup)];
        StopWithoutSource(StoppedAtPreflight(LookupCheck(world.lookup)));
        return;
      }
      evidence := evidence.(podLoaded := true);
      policy := world.policy;
      checks := checks + world.validateChecks;
      var failure := KnownStageFailure(checks, "preflight");
      if failure.Some? {
        StopWithoutSource(StoppedAtPreflight(failure.value).(podLoaded := true));
      }
    }

    method EvaluateEnqueue(world: World) returns (ok: bool)
      requires !stopped
      modifies this
      ensures ok == old(evidence).podLoaded
      ensures nodes == old(nodes) && policy == old(policy) && finishWithoutSource == old(finishWithoutSource)
      ensures ok ==> checks == old(checks) + world.enqueueChecks
      ensures ok ==> stopped == (MayEnqueue(policy) && StageFailure(checks, "enqueue").Some?)
      ensures ok && !stopped ==> evidence == old(evidence)
      ensures ok && stopped ==> evidence == old(evidence).(
          enqueueStopped := true, allocateStopped := true,
          reason := Failed(Enqueue, StageFailure(checks, "enqueue").value.id))
    {
      if !evidence.podLoaded {
        return false;
      }
      ok := true;
      checks := checks + world.enqueueChecks;
      var observed := ObservedEnqueueAction(policy);
      if !observed {
        return;
      }
      var failure := KnownStageFailure(checks, "enqueue");
      if failure.Some? {
        evidence := evidence.(
          enqueueStopped := true, allocateStopped := true, reason := Failed(Enqueue, failure.value.id));
        StopWithSource();
      }
    }

    method EvaluateJobValid()
      requires !stopped
      modifies this
      ensures checks == old(checks) && nodes == old(nodes) && policy == old(policy)
      ensures finishWithoutSource == old(finishWithoutSource)
      ensures stopped == StageFailure(checks, "jobValid").Some?
      ensures evidence == if stopped
        then old(evidence).(
          allocateStopped := true, reason := Failed(JobValid, StageFailure(checks, "jobValid").value.id))
        else old(evidence)
    {
      var failure := KnownStageFailure(checks, "jobValid");
      if failure.Some? {
        evidence := evidence.(allocateStopped := true, reason := Failed(JobValid, failure.value.id));
        StopWithSource();
      }
    }

    method EvaluateAllocate(world: World) returns (ok: bool)
      requires !stopped
      modifies this
      ensures ok == old(evidence).podLoaded && evidence == old(evidence) && !stopped
      ensures policy == old(policy) && finishWithoutSource == old(finishWithoutSource)
      ensures ok ==> nodes == world.nodes && checks == old(checks) + AllocateChecks(world)
    {
      if !evidence.podLoaded {
        return false;
      }
      ok := true;
      checks := checks + [world.cacheCheck] + [world.identityCheck];
      nodes := world.nodes;
      var allocation := AllocationCheck(nodes, world.nodesFailed);
      checks := checks + [allocation, world.pluginCheck];
    }
  }

  function AllocateChecks(world: World): seq<Check> {
    [world.cacheCheck, world.identityCheck,
     if world.nodesFailed then Unknown("allocate.nodes", "allocate") else Availability(world.nodes), world.pluginCheck]
  }

  // ---- Presentation ---------------------------------------------------------

  datatype Stage = Stage(outcome: Outcome, reason: Reason)

  datatype Report = Report(
    checks: seq<Check>, nodes: seq<NodeResult>, enqueue: Stage, jobValid: Stage, allocate: Stage, fromSource: bool)

  /** The first check with the ID is replaced and any further one dropped; a missing one is added. */
  function Replaced(checks: seq<Check>, id: string, c: Check, done: bool): seq<Check> {
    if checks == [] then (if done then [] else [c])
    else if checks[0].id != id then [checks[0]] + Replaced(checks[1..], id, c, done)
    else (if done then [] else [c]) + Replaced(checks[1..], id, c, true)
  }

  lemma ReplacedNext(result: seq<Check>, checks: seq<Check>, i: nat, id: string, c: Check, done: bool)
    requires i < |checks|
    ensures result + Replaced(checks[i..], id, c, done) ==
      (result + if checks[i].id != id then [checks[i]] else if done then [] else [c])
      + Replaced(checks[i + 1..], id, c, done || checks[i].id == id)
  {
    assert checks[i..][1..] == checks[i + 1..];
  }

  method ReplaceCheck(checks: seq<Check>, id: string, replacement: Check) returns (result: seq<Check>)
    ensures result == Replaced(checks, id, replacement, false)
  {
    result := [];
    var replaced := false;
    for i := 0 to |checks|
      invariant result + Replaced(checks[i..], id, replacement, replaced) == Replaced(checks, id, replacement, false)
    {
      ReplacedNext(result, checks, i, id, replacement, replaced);
      assert (replaced || checks[i].id == id) == if checks[i].id == id then true else replaced;
      if checks[i].id == id {
        assert result + [] == result;
        if !replaced {
          result := result + [replacement];
          replaced := true;
        }
        continue;
      }
      result := result + [checks[i]];
    }
    if !replaced {
      result := result + [replacement];
    }
  }

  /** Exactly one check with the ID is left, and all others are what and where they were. */
  lemma {:induction false} ReplacedKeepsOthers(checks: seq<Check>, id: string, c: Check, done: bool)
    requires c.id == id
    ensures var result := Replaced(checks, id, c, done);
      && Filter(result, (d: Check) => d.id != id) == Filter(checks, (d: Check) => d.id != id)
      && multiset(result)[c] == (if done then 0 else 1)
      && forall d <- result :: d.id == id ==> d == c
  {
    var others := (d: Check) => d.id != id;
    if checks != [] {
      var now := if checks[0].id != id then [checks[0]] else if done then [] else [c];
      var later := Replaced(checks[1..], id, c, done || checks[0].id == id);
      ReplacedKeepsOthers(checks[1..], id, c, done || checks[0].id == id);
      FilterAppend([checks[0]], checks[1..], others);
      FilterAppend(now, later, others);
      assert checks == [checks[0]] + checks[1..];
      FilterOne(checks[0], others);
      FilterOne(c, others);
      assert Replaced(checks, id, c, done) == now + later;
      assert Filter(now, others) == Filter([checks[0]], others);
    } else {
      FilterOne(c, others);
    }
  }

  lemma FilterOne(c: Check, keep: Check -> bool)
    ensures Filter([c], keep) == if keep(c) then [c] else []
  {
  }

  lemma {:induction false} FilterAppend(a: seq<Check>, b: seq<Check>, keep: Check -> bool)
    ensures Filter(a + b, keep) == Filter(a, keep) + Filter(b, keep)
  {
    if b == [] {
      assert a + b == a;
    } else {
      var n := |b| - 1;
      assert (a + b)[..|a + b| - 1] == a + b[..n];
      FilterAppend(a, b[..n], keep);
    }
  }

  // ---- The enqueue and JobValid views ---------------------------------------

  const JOB_ENQUEUEABLE := "plugins.job-enqueueable"
  const JOB_VALID := "plugins.job-valid"
  const NO_ENQUEUEABLE_HOOKS := Known("plugins.job-enqueueable.none", "enqueue", true)
  const NO_JOB_VALID_HOOKS := Known("plugins.job-valid.none", "jobValid", true)
  const KNOWN_ACTIONS := {"enqueue", "allocate", "backfill", "preempt", "reclaim", "shuffle"}

  /** The hooks were read, the policy is proven and runs no action but those of the table. */
  predicate InventoryVerified(world: World) {
    && world.hooksInspected && world.policy.determinate && world.policy.activeDeterminate
    && forall a <- world.policy.actions :: a in KNOWN_ACTIONS
  }

  predicate GangActive(world: World) {
    world.policy.activeDeterminate && world.gang == GangHookEnabled
  }

  function OfStage(stage: string): Check -> bool {
    (c: Check) => c.stage == stage
  }

  function OtherThan(id: string): Check -> bool {
    (c: Check) => c.id != id
  }

  function Outside(prefix: string): Check -> bool {
    (c: Check) => !HasPrefix(c.id, prefix)
  }

  predicate EnqueueVerified(world: World) {
    InventoryVerified(world) && "enqueue" in world.policy.actions
  }

  function OwnEnqueueChecks(world: World, checks: seq<Check>): seq<Check> {
    var own := Filter(checks, OfStage("enqueue"));
    if EnqueueVerified(world) then Filter(own, OtherThan(JOB_ENQUEUEABLE)) else own
  }

  function EnqueueView(world: World, checks: seq<Check>): seq<Check> {
    OwnEnqueueChecks(world, checks)
    + (if EnqueueVerified(world) && world.enqueueHooks == [] then [NO_ENQUEUEABLE_HOOKS] else [])
    + world.enqueueHooks + world.queueChecks
  }

  function OwnJobValidChecks(world: World, checks: seq<Check>): seq<Check> {
    var own := Filter(checks, OfStage("jobValid"));
    var resolved := if GangActive(world) then Resolved(own) else own;
    var rest := if InventoryVerified(world) then Filter(resolved, OtherThan(JOB_VALID)) else resolved;
    if InventoryVerified(world) && world.gang == NoGangHook then Filter(rest, Outside(GANG_PREFIX)) else rest
  }

  function JobValidView(world: World, checks: seq<Check>): seq<Check> {
    OwnJobValidChecks(world, checks)
    + (if InventoryVerified(world) && world.jobValidHooks == [] && !GangActive(world) then [NO_JOB_VALID_HOOKS] else [])
    + world.jobValidHooks
  }

  method HookInventoryVerified(world: World) returns (verified: bool)
    ensures verified == InventoryVerified(world)
  {
    if !world.hooksInspected || !world.policy.determinate || !world.policy.activeDeterminate {
      return false;
    }
    for i := 0 to |world.policy.actions|
      invariant forall a <- world.policy.actions[..i] :: a in KNOWN_ACTIONS
    {
      if world.policy.actions[i] !in KNOWN_ACTIONS {
        return false;
      }
    }
    return true;
  }

  method BuildEnqueueView(world: World, reportChecks: seq<Check>) returns (checks: seq<Check>)
    ensures checks == EnqueueView(world, reportChecks)
  {
    checks := Keep(reportChecks, OfStage("enqueue"));
    var inventoryVerified := HookInventoryVerified(world);
    if inventoryVerified && "enqueue" in world.policy.actions {
      checks := Keep(checks, OtherThan(JOB_ENQUEUEABLE));
      if |world.enqueueHooks| == 0 {
        checks := checks + [NO_ENQUEUEABLE_HOOKS];
      }
    }
    checks := checks + world.enqueueHooks + world.queueChecks;
  }

  method BuildJobValidView(world: World, reportChecks: seq<Check>) returns (checks: seq<Check>)
    ensures checks == JobValidView(world, reportChecks)
  {
    checks := Keep(reportChecks, OfStage("jobValid"));
    var inventoryVerified := HookInventoryVerified(world);
    var gangActive := world.policy.activeDeterminate && world.gang == GangHookEnabled;
    if gangActive {
      checks := ResolveGangChecks(checks);
    }
    if inventoryVerified {
      checks := Keep(checks, OtherThan(JOB_VALID));
      if world.gang == NoGangHook {
        checks := Keep(checks, Outside(GANG_PREFIX));
      }
      if |world.jobValidHooks| == 0 && !gangActive {
        checks := checks + [NO_JOB_VALID_HOOKS];
      }
    }
    checks := checks + world.jobValidHooks;
  }

  // ---- The report -----------------------------------------------------------

  method FinishReport(world: World, checks: seq<Check>, nodes: seq<NodeResult>, evidence: Evidence, fromSource: bool)
    returns (report: Report)
    ensures report.fromSource == fromSource
    ensures report.enqueue == if evidence.preflightStopped then Stage(NotRun, evidence.reason)
      else Stage(EnqueueOutcome(EnqueueView(world, checks)), NoReason)
    ensures report.jobValid == if evidence.preflightStopped || evidence.enqueueStopped || evidence.jobValidStopped
      then Stage(NotRun, evidence.reason) else Stage(StageState(JobValidView(world, checks)), NoReason)
    ensures if evidence.preflightStopped || evidence.enqueueStopped || evidence.jobValidStopped
      || evidence.allocateStopped
      then report.allocate == Stage(NotRun, evidence.reason) && report.nodes == nodes && report.checks == checks
      else
        var input := AllocateInput(checks, world.hookChecks, world.switches, world.activation);
        && report.allocate == Stage(StageState(ViewChecks(input, nodes)), NoReason)
        && report.nodes == ViewNodes(input, nodes)
        && report.checks == Replaced(checks, "allocate.nodes", Availability(report.nodes), false)
  {
    var enqueue, jobValid, allocate;
    if evidence.preflightStopped {
      enqueue := Stage(NotRun, evidence.reason);
    } else {
      var view := BuildEnqueueView(world, checks);
      var outcome := EnqueueState(view);
      enqueue := Stage(outcome, NoReason);
    }
    if evidence.preflightStopped || evidence.enqueueStopped || evidence.jobValidStopped {
      jobValid := Stage(NotRun, evidence.reason);
    } else {
      var view := BuildJobValidView(world, checks);
      var outcome := StateFromChecks(view);
      jobValid := Stage(outcome, NoReason);
    }
    var shown: seq<NodeResult> := [];
    if evidence.preflightStopped || evidence.enqueueStopped || evidence.jobValidStopped || evidence.allocateStopped {
      allocate := Stage(NotRun, evidence.reason);
    } else {
      var outcome;
      outcome, shown :=
        BuildAllocatePresentation(AllocateInput(checks, world.hookChecks, world.switches, world.activation), nodes);
      allocate := Stage(outcome, NoReason);
    }
    // The report takes over the presented nodes, unless the stage was not run.
    if allocate.outcome == NotRun {
      return Report(checks, nodes, enqueue, jobValid, allocate, fromSource);
    }
    var availability := NodeAvailabilityCheck(shown);
    var replaced := ReplaceCheck(checks, "allocate.nodes", availability);
    return Report(replaced, shown, enqueue, jobValid, allocate, fromSource);
  }

  // ---- A whole analysis -----------------------------------------------------

  predicate PreflightStops(world: World) {
    world.lookup != PodFound || StageFailure(world.validateChecks, "preflight").Some?
  }

  /** The checks on record when the enqueue rule is done. */
  function Seen(world: World): seq<Check> {
    world.validateChecks + world.enqueueChecks
  }

  predicate EnqueueStops(world: World) {
    MayEnqueue(world.policy) && StageFailure(Seen(world), "enqueue").Some?
  }

  predicate JobValidStops(world: World) {
    StageFailure(Seen(world), "jobValid").Some?
  }

  /** The rules that run, in order. */
  function RulesRun(world: World): seq<Rule> {
    if PreflightStops(world) then [Validate]
    else if EnqueueStops(world) then [Validate, Enqueue]
    else if JobValidStops(world) then [Validate, Enqueue, JobValid]
    else BUILT_IN
  }

  /** What a report must say about the stages, given what was observed. */
  predicate Explains(world: World, report: Report) {
    if PreflightStops(world) then
      && report.enqueue == Stage(NotRun, FinalEvidence(world).reason)
      && report.jobValid == report.enqueue && report.allocate == report.enqueue
      && !report.fromSource && report.nodes == []
      && report.checks == if world.lookup == PodFound then world.validateChecks else [LookupCheck(world.lookup)]
    else if EnqueueStops(world) then
      && report.fromSource && report.nodes == [] && report.checks == Seen(world)
      && report.enqueue == Stage(EnqueueOutcome(EnqueueView(world, report.checks)), NoReason)
      && report.jobValid == Stage(NotRun, Failed(Enqueue, StageFailure(report.checks, "enqueue").value.id))
      && report.allocate == report.jobValid
    else if JobValidStops(world) then
      && report.fromSource && report.nodes == [] && report.checks == Seen(world)
      && report.enqueue == Stage(EnqueueOutcome(EnqueueView(world, report.checks)), NoReason)
      && report.jobValid == Stage(StageState(JobValidView(world, report.checks)), NoReason)
      && report.allocate == Stage(NotRun, Failed(JobValid, StageFailure(report.checks, "jobValid").value.id))
    else
      var checks := Seen(world) + AllocateChecks(world);
      var input := AllocateInput(checks, world.hookChecks, world.switches, world.activation);
      && report.enqueue == Stage(EnqueueOutcome(EnqueueView(world, checks)), NoReason)
      && report.jobValid == Stage(StageState(JobValidView(world, checks)), NoReason)
      && report.allocate == Stage(StageState(ViewChecks(input, world.nodes)), NoReason)
      && report.fromSource && report.nodes == ViewNodes(input, world.nodes)
      && report.checks == Replaced(checks, "allocate.nodes", Availability(report.nodes), false)
  }

  /** What the rules have recorded when the analysis stops. */
  function FinalChecks(world: World): seq<Check> {
    if world.lookup != PodFound then [LookupCheck(world.lookup)]
    else if PreflightStops(world) then world.validateChecks
    else if EnqueueStops(world) || JobValidStops(world) then Seen(world)
    else Seen(world) + AllocateChecks(world)
  }

  function FinalNodes(world: World): seq<NodeResult> {
    if PreflightStops(world) || EnqueueStops(world) || JobValidStops(world) then [] else world.nodes
  }

  function FinalEvidence(world: World): Evidence {
    var loaded := NO_EVIDENCE.(podLoaded := true);
    if world.lookup != PodFound then StoppedAtPreflight(LookupCheck(world.lookup))
    else if PreflightStops(world) then
      StoppedAtPreflight(StageFailure(world.validateChecks, "preflight").value).(podLoaded := true)
    else if EnqueueStops(world) then
      var failed := StageFailure(Seen(world), "enqueue").value;
      loaded.(enqueueStopped := true, allocateStopped := true, reason := Failed(Enqueue, failed.id))
    else if JobValidStops(world) then
      loaded.(allocateStopped := true, reason := Failed(JobValid, StageFailure(Seen(world), "jobValid").value.id))
    else loaded
  }

  /** The rules run in registration order until one stops the analysis; no rule ever fails. */
  method RunRules(world: World) returns (state: RuleState, ok: bool, ghost ran: seq<Rule>)
    ensures fresh(state) && ok && ran == RulesRun(world)
    ensures state.checks == FinalChecks(world) && state.nodes == FinalNodes(world)
    ensures state.evidence == FinalEvidence(world) && state.finishWithoutSource == PreflightStops(world)
  {
    state := new RuleState();
    ok, ran := true, [];
    for i := 0 to |BUILT_IN|
      invariant fresh(state) && ok && ran == BUILT_IN[..i] && !state.stopped && !state.finishWithoutSource
      invariant i == 0 ==> state.checks == [] && state.evidence == NO_EVIDENCE && state.nodes == []
      invariant i > 0 ==> (
        && !PreflightStops(world) && state.evidence == NO_EVIDENCE.(podLoaded := true) && state.policy == world.policy)
      invariant i == 1 ==> state.checks == world.validateChecks && state.nodes == []
      invariant i > 1 ==> !EnqueueStops(world)
      invariant 1 < i < 4 ==> state.checks == Seen(world) && state.nodes == []
      invariant i > 2 ==> !JobValidStops(world)
      invariant i > 3 ==> (
        && state.checks == Seen(world) + AllocateChecks(world) && state.nodes == world.nodes)
    {
      match BUILT_IN[i] {
        case Validate => state.EvaluateValidate(world);
        case Enqueue => ok := state.EvaluateEnqueue(world);
        case JobValid => state.EvaluateJobValid();
        case Allocate => ok := state.EvaluateAllocate(world);
      }
      ran := ran + [BUILT_IN[i]];
      if !ok || state.stopped {
        return;
      }
    }
  }

  method Analyze(world: World) returns (result: Option<Report>, ghost ran: seq<Rule>)
    ensures ran == RulesRun(world)
    ensures result.Some? && Explains(world, result.value)
  {
    var state, ok;
    state, ok, ran := RunRules(world);
    if !ok {
      return None, ran;
    }
    var report := FinishReport(world, state.checks, state.nodes, state.evidence, !state.finishWithoutSource);
    return Some(report), ran;
  }

  predicate ProvenFailure(checks: seq<Check>, stage: string) {
    exists i :: 0 <= i < |checks| && FailsStage(checks[i], stage)
  }

  /**
   A stage is left out exactly when some recorded check proves that an earlier one failed, or the
   Pod could not be read.
   */
  lemma StagesRunUnlessProvenUnreachable(world: World, report: Report)
    requires Explains(world, report)
    ensures var seen := Seen(world);
      var preflight := world.lookup != PodFound || ProvenFailure(world.validateChecks, "preflight");
      var enqueue := MayEnqueue(world.policy) && ProvenFailure(seen, "enqueue");
      && (report.enqueue.outcome == NotRun <==> preflight)
      && (report.jobValid.outcome == NotRun <==> preflight || enqueue)
      && (report.allocate.outcome == NotRun <==> preflight || enqueue || ProvenFailure(seen, "jobValid"))
      && (report.allocate.outcome == NotRun ==> report.allocate.reason != NoReason && report.nodes == [])
  {
    StageFailureIff(world.validateChecks, "preflight");
    StageFailureIff(Seen(world), "enqueue");
    StageFailureIff(Seen(world), "jobValid");
  }

  // ---- A stage that stopped the analysis is shown as failed -----------------

  /** The view drops this check because the hook inventory answers for it. */
  predicate HiddenFromEnqueue(world: World, c: Check) {
    EnqueueVerified(world) && c.id == JOB_ENQUEUEABLE
  }

  /** Dropped likewise, or turned into a pass because the gang minimum is met. */
  predicate HiddenFromJobValid(world: World, c: Check) {
    || (InventoryVerified(world) && c.id == JOB_VALID)
    || (InventoryVerified(world) && world.gang == NoGangHook && HasPrefix(c.id, GANG_PREFIX))
    || (GangActive(world) && GangMinimumMet(c))
  }

  predicate Fails(checks: seq<Check>) {
    exists c <- checks :: Executed(c) && KnownFailure(c)
  }

  lemma FailsSplits(a: seq<Check>, b: seq<Check>)
    ensures Fails(a + b) <==> Fails(a) || Fails(b)
  {
  }

  lemma StageFailsIff(checks: seq<Check>)
    ensures StageFails(checks) <==> Fails(checks)
  {
    if c :| c in checks && Executed(c) && KnownFailure(c) {
      var i :| 0 <= i < |checks| && checks[i] == c;
    }
  }

  /** A recorded failure of the stage that the view keeps. */
  predicate EnqueueFailureKept(world: World, checks: seq<Check>) {
    exists c <- checks :: FailsStage(c, "enqueue") && !HiddenFromEnqueue(world, c)
  }

  predicate JobValidFailureKept(world: World, checks: seq<Check>) {
    exists c <- checks :: FailsStage(c, "jobValid") && !HiddenFromJobValid(world, c)
  }

  lemma OwnEnqueueFails(world: World, checks: seq<Check>)
    ensures Fails(OwnEnqueueChecks(world, checks)) <==> EnqueueFailureKept(world, checks)
  {
    var own := Filter(checks, OfStage("enqueue"));
    forall c ensures c in OwnEnqueueChecks(world, checks) <==>
      c in checks && c.stage == "enqueue" && !HiddenFromEnqueue(world, c)
    {
      FilterHolds(checks, OfStage("enqueue"), c);
      FilterHolds(own, OtherThan(JOB_ENQUEUEABLE), c);
    }
  }

  /** Enqueue is shown as failed exactly when a failure on record is kept or the view adds one. */
  lemma EnqueueShownFailedIff(world: World, checks: seq<Check>)
    ensures EnqueueOutcome(EnqueueView(world, checks)) == Fail <==>
      EnqueueFailureKept(world, checks) || Fails(world.enqueueHooks) || Fails(world.queueChecks)
  {
    var own := OwnEnqueueChecks(world, checks);
    var none := if EnqueueVerified(world) && world.enqueueHooks == [] then [NO_ENQUEUEABLE_HOOKS] else [];
    OwnEnqueueFails(world, checks);
    StageFailsIff(EnqueueView(world, checks));
    FailsSplits(own, none);
    FailsSplits(own + none, world.enqueueHooks);
    FailsSplits(own + none + world.enqueueHooks, world.queueChecks);
  }

  lemma ResolvedFailures(checks: seq<Check>, c: Check)
    requires KnownFailure(c)
    ensures c in Resolved(checks) <==> c in checks && !GangMinimumMet(c)
  {
    if c in Resolved(checks) {
      var i :| 0 <= i < |checks| && Resolved(checks)[i] == c;
    }
    if c in checks && !GangMinimumMet(c) {
      var i :| 0 <= i < |checks| && checks[i] == c;
      assert Resolved(checks)[i] == c;
    }
  }

  lemma OwnJobValidFails(world: World, checks: seq<Check>)
    ensures Fails(OwnJobValidChecks(world, checks)) <==> JobValidFailureKept(world, checks)
  {
    var own := Filter(checks, OfStage("jobValid"));
    var resolved := if GangActive(world) then Resolved(own) else own;
    var rest := if InventoryVerified(world) then Filter(resolved, OtherThan(JOB_VALID)) else resolved;
    forall c | KnownFailure(c)
      ensures c in OwnJobValidChecks(world, checks) <==>
        c in checks && c.stage == "jobValid" && !HiddenFromJobValid(world, c)
    {
      FilterHolds(checks, OfStage("jobValid"), c);
      ResolvedFailures(own, c);
      FilterHolds(resolved, OtherThan(JOB_VALID), c);
      FilterHolds(rest, Outside(GANG_PREFIX), c);
    }
  }

  lemma JobValidShownFailedIff(world: World, checks: seq<Check>)
    ensures StageState(JobValidView(world, checks)) == Fail <==>
      JobValidFailureKept(world, checks) || Fails(world.jobValidHooks)
  {
    var own := OwnJobValidChecks(world, checks);
    var none :=
      if InventoryVerified(world) && world.jobValidHooks == [] && !GangActive(world) then [NO_JOB_VALID_HOOKS] else [];
    OwnJobValidFails(world, checks);
    StageFailsIff(JobValidView(world, checks));
    FailsSplits(own, none);
    FailsSplits(own + none, world.jobValidHooks);
  }

  /**
   A run that enqueue or JobValid stopped shows that stage as failed exactly when
   some failure on record is not one that the view drops or rewrites, or the view
   adds a failure of its own.
   */
  lemma StopsAreShownAsFailures(world: World, report: Report)
    requires Explains(world, report) && !PreflightStops(world)
    ensures EnqueueStops(world) ==> (report.enqueue.outcome == Fail <==>
      EnqueueFailureKept(world, Seen(world)) || Fails(world.enqueueHooks) || Fails(world.queueChecks))
    ensures !EnqueueStops(world) && JobValidStops(world) ==> (report.jobValid.outcome == Fail <==>
      JobValidFailureKept(world, Seen(world)) || Fails(world.jobValidHooks))
  {
    EnqueueShownFailedIff(world, Seen(world));
    JobValidShownFailedIff(world, Seen(world));
  }

  /**
   The checks that a view may drop or rewrite are never failures, as with the built-in rules, which
   leave them open.
   */
  predicate HookChecksAreOpen(checks: seq<Check>) {
    forall c <- checks :: c.id == JOB_ENQUEUEABLE || c.id == JOB_VALID || HasPrefix(c.id, GANG_PREFIX) ==>
      !KnownFailure(c) || c.skipped
  }

  /** Then a stage that stopped the run is always shown as failed. */
  lemma StopsAreShownWhenHookChecksAreOpen(world: World, report: Report)
    requires Explains(world, report) && !PreflightStops(world) && HookChecksAreOpen(Seen(world))
    ensures EnqueueStops(world) ==> report.enqueue.outcome == Fail
    ensures !EnqueueStops(world) && JobValidStops(world) ==> report.jobValid.outcome == Fail
  {
    StopsAreShownAsFailures(world, report);
    StageFailureIff(Seen(world), "enqueue");
    StageFailureIff(Seen(world), "jobValid");
  }

  /** Every enqueue check on record passes, except failures that the view drops. */
  predicate OnlyDroppedChecksFail(world: World) {
    && (exists c <- Seen(world) :: FailsStage(c, "enqueue"))
    && forall c <- Seen(world) :: c.stage == "enqueue" ==> HiddenFromEnqueue(world, c) || (Satisfied(c) && Executed(c))
  }

  predicate AllExecutedPasses(checks: seq<Check>) {
    forall c <- checks :: Satisfied(c) && Executed(c)
  }

  lemma PassingChecksPass(checks: seq<Check>)
    requires checks != [] && AllExecutedPasses(checks)
    ensures EnqueueOutcome(checks) == Pass
  {
    assert forall i :: 0 <= i < |checks| ==> checks[i] in checks;
    assert Executed(checks[0]);
  }

  /**
   On raw check lists: a rule that did fail such a check, which no built-in rule
   does, would stop the run at a stage that is then shown as passed.
   */
  lemma DroppedFailureIsNotShown(world: World, report: Report)
    requires Explains(world, report) && !PreflightStops(world) && EnqueueVerified(world)
    requires OnlyDroppedChecksFail(world) && AllExecutedPasses(world.enqueueHooks)
    requires world.queueChecks != [] && AllExecutedPasses(world.queueChecks)
    ensures EnqueueStops(world) && report.enqueue.outcome == Pass && report.allocate.outcome == NotRun
  {
    StageFailureIff(Seen(world), "enqueue");
    var view := EnqueueView(world, Seen(world));
    var own := Filter(Seen(world), OfStage("enqueue"));
    forall c | c in view ensures Satisfied(c) && Executed(c) {
      FilterHolds(Seen(world), OfStage("enqueue"), c);
      FilterHolds(own, OtherThan(JOB_ENQUEUEABLE), c);
    }
    PassingChecksPass(view);
  }
}
