/**
 How node evidence becomes an allocate verdict: the node folds, predicate
 normalisation, merging with plugin checks, node availability and stage states
 (internal/agent/filter/node.go, internal/agent/filter/filter.go,
 internal/agent/presentation.go).
 */
module NodeEvidence {
  import opened Prelude
  import opened Checks

  datatype NodeResult = NodeResult(name: string, passed: bool, determinate: bool, checks: seq<Check>)

  // ---- Node folds ----------------------------------------------------------

  predicate Executed(c: Check) {
    !c.skipped
  }

  /** The outcome of a node, by `recomputeNodeOutcome`, which ignores skipped checks. */
  predicate NodePasses(checks: seq<Check>) {
    forall i :: 0 <= i < |checks| && Executed(checks[i]) ==> Satisfied(checks[i])
  }

  predicate NodeDecided(checks: seq<Check>) {
    || (exists i :: 0 <= i < |checks| && Executed(checks[i]) && KnownFailure(checks[i]))
    || (forall i :: 0 <= i < |checks| && Executed(checks[i]) ==> checks[i].determinate)
  }

  method EvaluateOutcome(checks: seq<Check>) returns (passed: bool, determinate: bool)
    ensures passed == AllSatisfied(checks)
    ensures determinate == (HasKnownFailure(checks) || !HasUnknown(checks))
    ensures passed <==> forall c <- checks :: c.passed && c.determinate
    ensures determinate <==> (exists c <- checks :: c.determinate && !c.passed) || forall c <- checks :: c.determinate
  {
    passed := true;
    var knownFailure, unknown := false, false;
    for i := 0 to |checks|
      invariant passed == AllSatisfied(checks[..i])
      invariant knownFailure == HasKnownFailure(checks[..i])
      invariant unknown == HasUnknown(checks[..i])
    {
      assert checks[..i + 1] == checks[..i] + [checks[i]];
      passed := passed && checks[i].passed && checks[i].determinate;
      knownFailure := knownFailure || (checks[i].determinate && !checks[i].passed);
      unknown := unknown || !checks[i].determinate;
    }
    assert checks[..|checks|] == checks;
    determinate := knownFailure || !unknown;
  }

  method RecomputeNodeOutcome(nodes: array<NodeResult>, index: nat)
    requires index < nodes.Length
    modifies nodes
    ensures nodes[..] == old(nodes[..])[index := Recomputed(old(nodes[index]))]
  {
    var node := nodes[index];
    var passed, knownFailure, unknown := true, false, false;
    for i := 0 to |node.checks|
      invariant passed == NodePasses(node.checks[..i])
      invariant knownFailure == exists j :: 0 <= j < i && Executed(node.checks[j]) && KnownFailure(node.checks[j])
      invariant unknown == exists j :: 0 <= j < i && Executed(node.checks[j]) && !node.checks[j].determinate
    {
      assert node.checks[..i + 1] == node.checks[..i] + [node.checks[i]];
      var check := node.checks[i];
      if check.skipped {
        continue;
      }
      passed := passed && check.passed && check.determinate;
      knownFailure := knownFailure || (check.determinate && !check.passed);
      unknown := unknown || !check.determinate;
    }
    assert node.checks[..|node.checks|] == node.checks;
    nodes[index] := node.(passed := passed, determinate := knownFailure || !unknown);
  }

  function Recomputed(node: NodeResult): NodeResult {
    node.(passed := NodePasses(node.checks), determinate := NodeDecided(node.checks))
  }

  /** On evidence built by the constructors, both folds give the same outcome. */
  lemma FoldsAgree(checks: seq<Check>)
    requires AllWellFormed(checks)
    ensures NodePasses(checks) == AllSatisfied(checks)
    ensures NodeDecided(checks) == (HasKnownFailure(checks) || !HasUnknown(checks))
  {
  }

  // ---- Predicate normalisation ---------------------------------------------

  datatype Activation = ActivationUnknown | ActivationDisabled | ActivationEnabled

  predicate PredicateCheck(id: string) {
    id in {"node.selector", "node.affinity", "node.schedulable", "node.taints", "node.pod-count", "node.ports",
           "node.pod-affinity", "node.volume-limits", "node.volume-zone", "node.topology-spread", "node.proportional"}
  }

  function PredicateArgument(id: string): Option<string> {
    if id == "node.selector" || id == "node.affinity" then Some("predicate.NodeAffinityEnable")
    else if id == "node.taints" then Some("predicate.TaintTolerationEnable")
    else if id == "node.ports" then Some("predicate.NodePortsEnable")
    else if id == "node.pod-affinity" then Some("predicate.PodAffinityEnable")
    else if id == "node.volume-limits" then Some("predicate.NodeVolumeLimitsEnable")
    else if id == "node.volume-zone" then Some("predicate.VolumeZoneEnable")
    else if id == "node.topology-spread" then Some("predicate.PodTopologySpreadEnable")
    else if id == "node.proportional" then Some("predicate.ProportionalEnable")
    else None
  }

  /** One configured occurrence of the predicates plugin. */
  datatype PredicatesPlugin = PredicatesPlugin(explicitArguments: map<string, bool>, argumentKeys: set<string>)

  /** The policy as far as predicate switches go: the predicates plugins in tier order and the branch defaults. */
  datatype Switches = Switches(plugins: seq<PredicatesPlugin>, defaults: map<string, bool>)

  function Setting(value: bool): Activation {
    if value then ActivationEnabled else ActivationDisabled
  }

  function PluginActivation(plugin: PredicatesPlugin, defaults: map<string, bool>, argument: string): Activation {
    if argument in plugin.explicitArguments then Setting(plugin.explicitArguments[argument])
    else if argument in plugin.argumentKeys then ActivationUnknown
    else if argument in defaults then Setting(defaults[argument])
    else ActivationUnknown
  }

  predicate VotedBefore(switches: Switches, argument: string, n: nat, a: Activation)
    requires n <= |switches.plugins|
  {
    exists i :: 0 <= i < n && PluginActivation(switches.plugins[i], switches.defaults, argument) == a
  }

  predicate SomePlugin(switches: Switches, argument: string, a: Activation) {
    VotedBefore(switches, argument, |switches.plugins|, a)
  }

  function CheckActivation(switches: Switches, id: string): Activation {
    var argument := PredicateArgument(id);
    if argument.None? then ActivationEnabled
    else if SomePlugin(switches, argument.value, ActivationEnabled) then ActivationEnabled
    else if SomePlugin(switches, argument.value, ActivationUnknown) then ActivationUnknown
    else ActivationDisabled
  }

  /** The switch of a predicate check, as the predicates plugin names it. */
  predicate SwitchOf(id: string, argument: string) {
    || ((id == "node.selector" || id == "node.affinity") && argument == "predicate.NodeAffinityEnable")
    || (id == "node.taints" && argument == "predicate.TaintTolerationEnable")
    || (id == "node.ports" && argument == "predicate.NodePortsEnable")
    || (id == "node.pod-affinity" && argument == "predicate.PodAffinityEnable")
    || (id == "node.volume-limits" && argument == "predicate.NodeVolumeLimitsEnable")
    || (id == "node.volume-zone" && argument == "predicate.VolumeZoneEnable")
    || (id == "node.topology-spread" && argument == "predicate.PodTopologySpreadEnable")
    || (id == "node.proportional" && argument == "predicate.ProportionalEnable")
  }

  /** Some plugin sets it, or says nothing while the branch has it on. */
  predicate TurnedOn(switches: Switches, argument: string) {
    exists p <- switches.plugins ::
      || (argument in p.explicitArguments && p.explicitArguments[argument])
      || (argument !in p.explicitArguments && argument !in p.argumentKeys
          && argument in switches.defaults && switches.defaults[argument])
  }

  /** Some plugin gives it a value that is not boolean, or says nothing and neither does the branch. */
  predicate LeftOpen(switches: Switches, argument: string) {
    exists p <- switches.plugins ::
      argument !in p.explicitArguments && (argument in p.argumentKeys || argument !in switches.defaults)
  }

  /** A check without a switch always runs; one with a switch is on, else open, else off. */
  lemma ActivationMeans(switches: Switches, id: string, argument: string)
    requires SwitchOf(id, argument)
    ensures CheckActivation(switches, id) == ActivationEnabled <==> TurnedOn(switches, argument)
    ensures CheckActivation(switches, id) == ActivationUnknown <==>
      !TurnedOn(switches, argument) && LeftOpen(switches, argument)
  {
    var plugins, defaults := switches.plugins, switches.defaults;
    assert PredicateArgument(id) == Some(argument);
    forall a ensures SomePlugin(switches, argument, a) <==>
      exists p <- plugins :: PluginActivation(p, defaults, argument) == a
    {
      if p :| p in plugins && PluginActivation(p, defaults, argument) == a {
        var i :| 0 <= i < |plugins| && plugins[i] == p;
      }
    }
  }

  lemma ActivationOf(switches: Switches, id: string)
    ensures (forall a :: !SwitchOf(id, a)) ==> CheckActivation(switches, id) == ActivationEnabled
    ensures forall a | SwitchOf(id, a) :: (
      CheckActivation(switches, id) ==
        if TurnedOn(switches, a) then ActivationEnabled
        else if LeftOpen(switches, a) then ActivationUnknown else ActivationDisabled)
  {
    if forall a :: !SwitchOf(id, a) {
      ChecksWithoutSwitchRun(switches, id);
    }
    forall a | SwitchOf(id, a) {
      ActivationMeans(switches, id, a);
    }
  }

  lemma ChecksWithoutSwitchRun(switches: Switches, id: string)
    requires forall argument :: !SwitchOf(id, argument)
    ensures CheckActivation(switches, id) == ActivationEnabled
  {
    if PredicateArgument(id).Some? {
      assert SwitchOf(id, PredicateArgument(id).value);
    }
  }

  method PredicateCheckActivation(switches: Switches, id: string) returns (activation: Activation)
    ensures activation == CheckActivation(switches, id)
    ensures (forall a :: !SwitchOf(id, a)) ==> activation == ActivationEnabled
    ensures forall a | SwitchOf(id, a) :: (
      activation == if TurnedOn(switches, a) then ActivationEnabled
                    else if LeftOpen(switches, a) then ActivationUnknown else ActivationDisabled)
  {
    ActivationOf(switches, id);
    var hasSwitch := PredicateArgument(id);
    if hasSwitch.None? {
      return ActivationEnabled;
    }
    var argument := hasSwitch.value;
    var foundPlugin, unknown, disabled := false, false, false;
    for i := 0 to |switches.plugins|
      invariant forall j :: 0 <= j < i ==>
        PluginActivation(switches.plugins[j], switches.defaults, argument) != ActivationEnabled
      invariant unknown == VotedBefore(switches, argument, i, ActivationUnknown)
      invariant foundPlugin == (i > 0) && (foundPlugin ==> unknown || disabled)
      invariant disabled == VotedBefore(switches, argument, i, ActivationDisabled)
    {
      var plugin := switches.plugins[i];
      foundPlugin := true;
      if argument in plugin.explicitArguments {
        if plugin.explicitArguments[argument] {
          return ActivationEnabled;
        }
        disabled := true;
        continue;
      }
      if argument in plugin.argumentKeys {
        unknown := true;
        continue;
      }
      if argument in switches.defaults {
        if switches.defaults[argument] {
          return ActivationEnabled;
        }
        disabled := true;
        continue;
      }
      unknown := true;
    }
    if !foundPlugin {
      return ActivationDisabled;
    }
    if unknown {
      return ActivationUnknown;
    }
    if disabled {
      return ActivationDisabled;
    }
    // Every plugin has voted, so this last resort of the source is never reached.
    assert false;
    return ActivationUnknown;
  }

  /** The first plugin that mentions the switch decides, then the branch default. */
  function MayBeEnabled(plugins: seq<PredicatesPlugin>, defaults: map<string, bool>, id: string): bool {
    var argument := PredicateArgument(id);
    if argument.None? then true
    else if plugins == [] then argument.value in defaults && defaults[argument.value]
    else if argument.value in plugins[0].explicitArguments then plugins[0].explicitArguments[argument.value]
    else if argument.value in plugins[0].argumentKeys then true
    else MayBeEnabled(plugins[1..], defaults, id)
  }

  function Normalized(check: Check, switches: Switches, activation: Activation): Check {
    if !PredicateCheck(check.id) then check
    else
      match (if activation == ActivationEnabled then CheckActivation(switches, check.id) else activation)
      case ActivationEnabled => if check.skipped then Unknown(check.id, "allocate", check.wouldPass) else check
      case ActivationDisabled => Skipped(check.id, "allocate", check.wouldPass)
      case ActivationUnknown =>
        if check.skipped && !MayBeEnabled(switches.plugins, switches.defaults, check.id) then check
        else if check.determinate && !check.skipped then check
        else Unknown(check.id, "allocate", check.wouldPass)
  }

  function NormalizedAll(checks: seq<Check>, switches: Switches, activation: Activation): seq<Check> {
    seq(|checks|, i requires 0 <= i < |checks| => Normalized(checks[i], switches, activation))
  }

  method NormalizePredicateChecks(checks: seq<Check>, switches: Switches, activation: Activation)
    returns (result: seq<Check>)
    ensures result == NormalizedAll(checks, switches, activation)
  {
    result := [];
    for i := 0 to |checks|
      invariant result == NormalizedAll(checks[..i], switches, activation)
    {
      assert checks[..i + 1] == checks[..i] + [checks[i]];
      var check := checks[i];
      if !PredicateCheck(check.id) {
        result := result + [check];
        continue;
      }
      var checkActivation := activation;
      if activation == ActivationEnabled {
        checkActivation := PredicateCheckActivation(switches, check.id);
      }
      if checkActivation == ActivationEnabled {
        result := result + [if check.skipped then Unknown(check.id, "allocate", check.wouldPass) else check];
        continue;
      }
      if checkActivation == ActivationDisabled {
        result := result + [Skipped(check.id, "allocate", check.wouldPass)];
        continue;
      }
      if check.skipped && !MayBeEnabled(switches.plugins, switches.defaults, check.id) {
        result := result + [check];
        continue;
      }
      if check.determinate && !check.skipped {
        result := result + [check];
        continue;
      }
      result := result + [Unknown(check.id, "allocate", check.wouldPass)];
    }
    assert checks[..|checks|] == checks;
  }

  /** The switch of this predicate check is known to be off. */
  predicate SwitchedOff(id: string, switches: Switches, activation: Activation) {
    PredicateCheck(id) &&
    (if activation == ActivationEnabled then CheckActivation(switches, id) else activation) == ActivationDisabled
  }

  /** Normalisation invents no failure: it keeps every known failure except those of predicates that are off. */
  lemma NormalizationKeepsFailures(check: Check, switches: Switches, activation: Activation)
    requires WellFormed(check)
    ensures var normalized := Normalized(check, switches, activation);
      && normalized.id == check.id && WellFormed(normalized)
      && (KnownFailure(normalized) <==> KnownFailure(check) && !SwitchedOff(check.id, switches, activation))
      && (Executed(normalized) && Satisfied(normalized) ==> Executed(check) && Satisfied(check))
  {
  }

  // ---- Merging -------------------------------------------------------------

  /** The position `mergeChecks` has on record for an ID: its last occurrence. */
  function LastIndex(checks: seq<Check>, id: string): Option<nat> {
    if checks == [] then None
    else if checks[|checks| - 1].id == id then Some(|checks| - 1)
    else LastIndex(checks[..|checks| - 1], id)
  }

  lemma {:induction false} LastIndexInRange(checks: seq<Check>, id: string)
    ensures LastIndex(checks, id).Some? ==>
      LastIndex(checks, id).value < |checks| && checks[LastIndex(checks, id).value].id == id
  {
    if checks != [] {
      LastIndexInRange(checks[..|checks| - 1], id);
    }
  }

  function MergeOne(checks: seq<Check>, c: Check): seq<Check> {
    LastIndexInRange(checks, c.id);
    match LastIndex(checks, c.id)
    case None => checks + [c]
    case Some(i) => checks[i := c]
  }

  function Merged(existing: seq<Check>, additions: seq<Check>): seq<Check> {
    if additions == [] then existing
    else MergeOne(Merged(existing, additions[..|additions| - 1]), additions[|additions| - 1])
  }

  /** Replacing a check by one with the same ID moves no recorded position. */
  lemma {:induction false} ReplacingKeepsIndexes(checks: seq<Check>, i: nat, c: Check, id: string)
    requires i < |checks| && checks[i].id == c.id
    ensures LastIndex(checks[i := c], id) == LastIndex(checks, id)
  {
    var n := |checks| - 1;
    if i < n {
      assert checks[i := c][..n] == checks[..n][i := c];
      ReplacingKeepsIndexes(checks[..n], i, c, id);
    } else {
      assert checks[i := c][..n] == checks[..n];
    }
  }

  /** The check on record for an ID. */
  function OnRecord(checks: seq<Check>, id: string): Option<Check> {
    LastIndexInRange(checks, id);
    match LastIndex(checks, id)
    case None => None
    case Some(i) => Some(checks[i])
  }

  lemma MergeOneRecords(checks: seq<Check>, c: Check, id: string)
    ensures OnRecord(MergeOne(checks, c), id) == if c.id == id then Some(c) else OnRecord(checks, id)
  {
    LastIndexInRange(checks, c.id);
    LastIndexInRange(checks, id);
    match LastIndex(checks, c.id) {
      case None => assert (checks + [c])[..|checks|] == checks;
      case Some(i) => ReplacingKeepsIndexes(checks, i, c, id);
    }
  }

  /** After merging, the last addition of an ID is on record, and what was on record before where there is none. */
  lemma {:induction false} MergedRecords(existing: seq<Check>, additions: seq<Check>, id: string)
    ensures OnRecord(Merged(existing, additions), id) ==
      if OnRecord(additions, id).Some? then OnRecord(additions, id) else OnRecord(existing, id)
  {
    if additions != [] {
      var before, last := additions[..|additions| - 1], additions[|additions| - 1];
      MergedRecords(existing, before, id);
      MergeOneRecords(Merged(existing, before), last, id);
      LastIndexInRange(before, id);
    }
  }

  ghost predicate IndexesFit(indexes: map<string, nat>, checks: seq<Check>) {
    forall id :: LastIndex(checks, id) == if id in indexes then Some(indexes[id]) else None
  }

  lemma AppendShiftsIndex(indexes: map<string, nat>, checks: seq<Check>, c: Check)
    requires IndexesFit(indexes, checks)
    ensures IndexesFit(indexes[c.id := |checks|], checks + [c])
  {
  }

  method MergeChecks(existing: seq<Check>, additions: seq<Check>) returns (result: seq<Check>)
    ensures result == Merged(existing, additions)
  {
    result := existing;
    var indexes: map<string, nat> := map[];
    for i := 0 to |existing|
      invariant IndexesFit(indexes, existing[..i])
    {
      AppendShiftsIndex(indexes, existing[..i], existing[i]);
      assert existing[..i + 1] == existing[..i] + [existing[i]];
      indexes := indexes[existing[i].id := i];
    }
    assert existing[..|existing|] == existing;
    for i := 0 to |additions|
      invariant result == Merged(existing, additions[..i])
      invariant IndexesFit(indexes, result)
    {
      assert additions[..i + 1][..i] == additions[..i];
      var check := additions[i];
      LastIndexInRange(result, check.id);
      if check.id in indexes {
        var index := indexes[check.id];
        forall id {
          ReplacingKeepsIndexes(result, index, check, id);
        }
        result := result[index := check];
        continue;
      }
      AppendShiftsIndex(indexes, result, check);
      indexes := indexes[check.id := |result|];
      result := result + [check];
    }
    assert additions[..|additions|] == additions;
  }

  // ---- Availability and stage state ----------------------------------------

  function Availability(nodes: seq<NodeResult>): Check {
    if exists i :: 0 <= i < |nodes| && nodes[i].passed then Known("allocate.nodes", "allocate", true)
    else if exists i :: 0 <= i < |nodes| && !nodes[i].determinate then Unknown("allocate.nodes", "allocate")
    else Known("allocate.nodes", "allocate", false)
  }

  method NodeAvailabilityCheck(nodes: seq<NodeResult>) returns (check: Check)
    ensures check == Availability(nodes)
  {
    var passed, unknown := 0, 0;
    for i := 0 to |nodes|
      invariant passed >= 0 && (passed > 0 <==> exists j :: 0 <= j < i && nodes[j].passed)
      invariant unknown >= 0 && (unknown > 0 <==> exists j :: 0 <= j < i && !nodes[j].passed && !nodes[j].determinate)
    {
      if nodes[i].passed {
        passed := passed + 1;
      } else if !nodes[i].determinate {
        unknown := unknown + 1;
      }
    }
    if passed > 0 {
      return Known("allocate.nodes", "allocate", true);
    }
    if unknown > 0 {
      return Unknown("allocate.nodes", "allocate");
    }
    return Known("allocate.nodes", "allocate", false);
  }

  /** The filter's own summary; it also knows whether listing the nodes failed. */
  method AllocationCheck(nodes: seq<NodeResult>, nodesFailed: bool) returns (check: Check)
    ensures check == if nodesFailed then Unknown("allocate.nodes", "allocate") else Availability(nodes)
  {
    if nodesFailed {
      return Unknown("allocate.nodes", "allocate");
    }
    var passed, unknown := 0, false;
    for i := 0 to |nodes|
      invariant passed >= 0 && (passed > 0 <==> exists j :: 0 <= j < i && nodes[j].passed)
      invariant unknown <==> exists j :: 0 <= j < i && !nodes[j].determinate
    {
      if nodes[i].passed {
        passed := passed + 1;
      }
      unknown := unknown || !nodes[i].determinate;
    }
    if passed == 0 && unknown {
      return Unknown("allocate.nodes", "allocate");
    }
    return Known("allocate.nodes", "allocate", passed > 0);
  }

  predicate StageFails(checks: seq<Check>) {
    exists i :: 0 <= i < |checks| && Executed(checks[i]) && KnownFailure(checks[i])
  }

  predicate StageOpen(checks: seq<Check>) {
    || (exists i :: 0 <= i < |checks| && Executed(checks[i]) && !checks[i].determinate)
    || (forall i :: 0 <= i < |checks| ==> !Executed(checks[i]))
  }

  function StageState(checks: seq<Check>): Outcome {
    if StageFails(checks) then Fail else if StageOpen(checks) then Undecided else Pass
  }

  method StateFromChecks(checks: seq<Check>) returns (outcome: Outcome)
    ensures outcome == StageState(checks)
  {
    var failures, unknown, executed := 0, 0, 0;
    for i := 0 to |checks|
      invariant failures >= 0 && unknown >= 0 && executed >= 0
      invariant failures > 0 <==> exists j :: 0 <= j < i && Executed(checks[j]) && KnownFailure(checks[j])
      invariant unknown > 0 <==> exists j :: 0 <= j < i && Executed(checks[j]) && !checks[j].determinate
      invariant executed > 0 <==> exists j :: 0 <= j < i && Executed(checks[j])
    {
      if checks[i].skipped {
        continue;
      }
      executed := executed + 1;
      if !checks[i].determinate {
        unknown := unknown + 1;
        continue;
      }
      if !checks[i].passed {
        failures := failures + 1;
      }
    }
    if failures > 0 {
      return Fail;
    }
    if unknown > 0 || executed == 0 {
      return Undecided;
    }
    return Pass;
  }

  // ---- The allocate view ---------------------------------------------------

  function Filter(checks: seq<Check>, keep: Check -> bool): seq<Check> {
    if checks == [] then []
    else
      var before := Filter(checks[..|checks| - 1], keep);
      if keep(checks[|checks| - 1]) then before + [checks[|checks| - 1]] else before
  }

  lemma {:induction false} FilterHolds(checks: seq<Check>, keep: Check -> bool, c: Check)
    ensures c in Filter(checks, keep) <==> c in checks && keep(c)
  {
    if checks != [] {
      FilterHolds(checks[..|checks| - 1], keep, c);
      assert checks == checks[..|checks| - 1] + [checks[|checks| - 1]];
    }
  }

  /** The shape shared by `checksForStage`, `removeCheck`, `removePluginCheck` and `removeCheckPrefix`. */
  method Keep(checks: seq<Check>, keep: Check -> bool) returns (result: seq<Check>)
    ensures result == Filter(checks, keep)
  {
    result := [];
    for i := 0 to |checks|
      invariant result == Filter(checks[..i], keep)
    {
      assert checks[..i + 1][..i] == checks[..i];
      if keep(checks[i]) {
        result := result + [checks[i]];
      }
    }
    assert checks[..|checks|] == checks;
  }

  /** The IDs `pluginHookChecks` gives to hooks of the predicates plugin. */
  const PREDICATES_PREFIX := "plugin.predicates."

  datatype AllocateInput = AllocateInput(
    checks: seq<Check>, hookChecks: seq<Check>, switches: Switches, activation: Activation)

  function DynamicChecks(input: AllocateInput): seq<Check> {
    Filter(input.hookChecks, (c: Check) => !HasPrefix(c.id, PREDICATES_PREFIX))
  }

  function ViewNode(input: AllocateInput, node: NodeResult): NodeResult {
    Recomputed(node.(checks :=
      Merged(NormalizedAll(node.checks, input.switches, input.activation), DynamicChecks(input))))
  }

  function ViewNodes(input: AllocateInput, nodes: seq<NodeResult>): seq<NodeResult> {
    seq(|nodes|, i requires 0 <= i < |nodes| => ViewNode(input, nodes[i]))
  }

  /** The report's own allocate checks, apart from the one that is recomputed. */
  function StandingChecks(input: AllocateInput): seq<Check> {
    Filter(Filter(input.checks, (c: Check) => c.stage == "allocate"), (c: Check) => c.id != "allocate.nodes")
  }

  function ViewChecks(input: AllocateInput, nodes: seq<NodeResult>): seq<Check> {
    var all := StandingChecks(input) + [Availability(ViewNodes(input, nodes))] + DynamicChecks(input);
    if input.hookChecks != [] then Filter(all, (c: Check) => c.id != "plugins.predicates") else all
  }

  method BuildAllocatePresentation(input: AllocateInput, reportNodes: seq<NodeResult>)
    returns (outcome: Outcome, nodes: seq<NodeResult>)
    ensures nodes == ViewNodes(input, reportNodes)
    ensures outcome == StageState(ViewChecks(input, reportNodes))
  {
    var hasDynamicHooks := |input.hookChecks| > 0;
    var dynamicChecks := Keep(input.hookChecks, (c: Check) => !HasPrefix(c.id, PREDICATES_PREFIX));
    assert dynamicChecks == DynamicChecks(input);
    var copies := new NodeResult[|reportNodes|](i requires 0 <= i < |reportNodes| => reportNodes[i]);
    for index := 0 to copies.Length
      invariant forall i :: 0 <= i < index ==> copies[i] == ViewNode(input, reportNodes[i])
      invariant forall i :: index <= i < copies.Length ==> copies[i] == reportNodes[i]
    {
      var normalized := NormalizePredicateChecks(copies[index].checks, input.switches, input.activation);
      copies[index] := copies[index].(checks := normalized);
      var merged := MergeChecks(copies[index].checks, dynamicChecks);
      copies[index] := copies[index].(checks := merged);
      RecomputeNodeOutcome(copies, index);
      assert forall i :: 0 <= i < copies.Length ==> copies[i] == copies[..][i];
    }
    nodes := copies[..];

    var checks := Keep(input.checks, (c: Check) => c.stage == "allocate");
    checks := Keep(checks, (c: Check) => c.id != "allocate.nodes");
    var availability := NodeAvailabilityCheck(nodes);
    checks := checks + [availability] + dynamicChecks;
    if hasDynamicHooks {
      checks := Keep(checks, (c: Check) => c.id != "plugins.predicates");
    }
    outcome := StateFromChecks(checks);
  }
}
