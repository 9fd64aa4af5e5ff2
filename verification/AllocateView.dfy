/**
 What the allocate presentation shows, said of its inputs: each check of each node,
 the nodes' outcomes and the stage's, with the switches, the merged plugin checks
 and the dropped ones spelled out (internal/agent/presentation.go).
 */
module AllocateView {
  import opened Prelude
  import opened Checks
  import opened NodeEvidence

  // ---- One predicate check ---------------------------------------------------

  const PREDICATE_IDS := {
    "node.selector", "node.affinity", "node.schedulable", "node.taints", "node.pod-count", "node.ports",
    "node.pod-affinity", "node.volume-limits", "node.volume-zone", "node.topology-spread", "node.proportional"}

  /** The predicates plugin, or this one of its checks, is known not to run. */
  ghost predicate Off(id: string, switches: Switches, activation: Activation) {
    || activation == ActivationDisabled
    || (activation == ActivationEnabled
        && exists a :: SwitchOf(id, a) && !TurnedOn(switches, a) && !LeftOpen(switches, a))
  }

  /** Whether it runs is not known. */
  ghost predicate Open(id: string, switches: Switches, activation: Activation) {
    || activation == ActivationUnknown
    || (activation == ActivationEnabled
        && exists a :: SwitchOf(id, a) && !TurnedOn(switches, a) && LeftOpen(switches, a))
  }

  predicate Mentions(p: PredicatesPlugin, argument: string) {
    argument in p.explicitArguments || argument in p.argumentKeys
  }

  predicate FirstMention(plugins: seq<PredicatesPlugin>, argument: string, i: nat) {
    i < |plugins| && Mentions(plugins[i], argument) && forall j :: 0 <= j < i ==> !Mentions(plugins[j], argument)
  }

  /** That plugin does not turn the switch off. */
  predicate Admits(plugins: seq<PredicatesPlugin>, argument: string, i: nat) {
    && FirstMention(plugins, argument, i)
    && (argument in plugins[i].explicitArguments ==> plugins[i].explicitArguments[argument])
  }

  /** The first plugin that mentions the switch admits it; if none mentions it the branch turns it on. */
  ghost predicate MightRun(switches: Switches, argument: string) {
    || (exists i: nat :: Admits(switches.plugins, argument, i))
    || ((forall p <- switches.plugins :: !Mentions(p, argument))
        && argument in switches.defaults && switches.defaults[argument])
  }

  lemma {:induction false} MayBeEnabledMeans(
    plugins: seq<PredicatesPlugin>, defaults: map<string, bool>, id: string, argument: string)
    requires SwitchOf(id, argument)
    ensures MayBeEnabled(plugins, defaults, id) <==> MightRun(Switches(plugins, defaults), argument)
  {
    if plugins != [] {
      if Mentions(plugins[0], argument) {
        assert Admits(plugins, argument, 0) <==> MayBeEnabled(plugins, defaults, id);
      } else {
        MayBeEnabledMeans(plugins[1..], defaults, id, argument);
        FirstSilent(plugins, defaults, argument);
      }
    }
  }

  lemma FirstSilent(plugins: seq<PredicatesPlugin>, defaults: map<string, bool>, argument: string)
    requires plugins != [] && !Mentions(plugins[0], argument)
    ensures MightRun(Switches(plugins[1..], defaults), argument) <==> MightRun(Switches(plugins, defaults), argument)
  {
    var rest := plugins[1..];
    forall i: nat ensures Admits(rest, argument, i) <==> Admits(plugins, argument, i + 1) {
      assert forall j :: 0 <= j < |rest| ==> rest[j] == plugins[j + 1];
      assert forall j :: 1 <= j < |plugins| ==> plugins[j] == rest[j - 1];
    }
    if i: nat :| Admits(plugins, argument, i) {
      assert Admits(rest, argument, i - 1);
    }
    if i: nat :| Admits(rest, argument, i) {
      assert Admits(plugins, argument, i + 1);
    }
    assert plugins == [plugins[0]] + rest;
  }

  /** What becomes of a check: kept as it is, skipped, or opened. */
  ghost predicate Shown(check: Check, switches: Switches, activation: Activation, result: Check) {
    var skipped := Check(check.id, "allocate", true, true, true, check.wouldPass);
    var undecided := Check(check.id, "allocate", false, false, false, check.wouldPass);
    if check.id !in PREDICATE_IDS then result == check
    else if Off(check.id, switches, activation) then result == skipped
    else if !Open(check.id, switches, activation) then result == if check.skipped then undecided else check
    else if !check.skipped then result == if check.determinate then check else undecided
    else if forall a :: SwitchOf(check.id, a) ==> MightRun(switches, a) then result == undecided
    else result == check
  }

  lemma OneSwitch(id: string, a: string, b: string)
    requires SwitchOf(id, a) && SwitchOf(id, b)
    ensures a == b
  {
  }

  lemma NormalizedIsShown(check: Check, switches: Switches, activation: Activation)
    ensures Shown(check, switches, activation, Normalized(check, switches, activation))
  {
    if a :| SwitchOf(check.id, a) {
      forall b | SwitchOf(check.id, b) ensures a == b {
        OneSwitch(check.id, a, b);
      }
      ActivationMeans(switches, check.id, a);
      MayBeEnabledMeans(switches.plugins, switches.defaults, check.id, a);
    } else {
      ChecksWithoutSwitchRun(switches, check.id);
      NoArgument(check.id);
    }
  }

  lemma NoArgument(id: string)
    requires forall argument :: !SwitchOf(id, argument)
    ensures PredicateArgument(id).None?
  {
    assert PredicateArgument(id).Some? ==> SwitchOf(id, PredicateArgument(id).value);
  }

  // ---- One node --------------------------------------------------------------

  /** The plugin checks that a node gets: those of hooks of any plugin but predicates. */
  predicate Added(input: AllocateInput, c: Check) {
    c in input.hookChecks && !("plugin.predicates." <= c.id)
  }

  /** The last plugin check with the ID. */
  ghost predicate LastAdded(input: AllocateInput, id: string, c: Check) {
    exists k :: 0 <= k < |input.hookChecks| && input.hookChecks[k] == c && c.id == id && Added(input, c)
      && forall j :: k < j < |input.hookChecks| && Added(input, input.hookChecks[j]) ==> input.hookChecks[j].id != id
  }

  /** No later check of the node has the ID. */
  predicate LastOfNode(node: NodeResult, k: nat) {
    k < |node.checks| && forall j :: k < j < |node.checks| ==> node.checks[j].id != node.checks[k].id
  }

  /** Where a check of the node stood, its shown form stands, or the last plugin check with its ID. */
  ghost predicate ShownAt(input: AllocateInput, node: NodeResult, k: nat, c: Check)
    requires k < |node.checks|
  {
    if LastOfNode(node, k) && exists d :: LastAdded(input, node.checks[k].id, d)
    then LastAdded(input, node.checks[k].id, c)
    else Shown(node.checks[k], input.switches, input.activation, c)
  }

  /** Behind them come the plugin checks with IDs of their own, one of each ID. */
  ghost predicate AppendedAt(input: AllocateInput, node: NodeResult, shown: NodeResult, k: nat)
    requires k < |shown.checks|
  {
    && LastAdded(input, shown.checks[k].id, shown.checks[k])
    && forall j :: 0 <= j < k ==> shown.checks[j].id != shown.checks[k].id
  }

  ghost predicate ShowsNode(input: AllocateInput, node: NodeResult, shown: NodeResult) {
    && shown.name == node.name && |node.checks| <= |shown.checks|
    && (forall k :: 0 <= k < |node.checks| ==> ShownAt(input, node, k, shown.checks[k]))
    && (forall k :: |node.checks| <= k < |shown.checks| ==> AppendedAt(input, node, shown, k))
    && (forall c :: Added(input, c) ==> exists k :: 0 <= k < |shown.checks| && shown.checks[k].id == c.id)
    && (shown.passed <==> forall c <- shown.checks :: c.skipped || (c.passed && c.determinate))
    && (shown.determinate <==>
      || (exists c <- shown.checks :: !c.skipped && c.determinate && !c.passed)
      || forall c <- shown.checks :: c.skipped || c.determinate)
  }

  // ---- Merging, position by position -----------------------------------------

  /** The last check with the ID is on record, for lack of one nothing is. */
  lemma {:induction false} OnRecordIsLast(checks: seq<Check>, id: string, c: Check)
    ensures OnRecord(checks, id) == Some(c) <==> exists k :: LastWith(checks, id, k, c)
    ensures OnRecord(checks, id).None? <==> forall d <- checks :: d.id != id
  {
    if checks != [] {
      var before, last := checks[..|checks| - 1], checks[|checks| - 1];
      assert checks == before + [last];
      OnRecordIsLast(before, id, c);
      LastIndexInRange(checks, id);
      LastIndexInRange(before, id);
      if last.id == id {
        assert LastWith(checks, id, |before|, last);
      } else {
        forall k ensures LastWith(checks, id, k, c) <==> LastWith(before, id, k, c) {
        }
      }
    }
  }

  predicate LastWith(checks: seq<Check>, id: string, k: int, c: Check) {
    && 0 <= k < |checks| && checks[k] == c && c.id == id
    && forall j :: k < j < |checks| ==> checks[j].id != id
  }

  /** What merging leaves at a position. */
  ghost predicate MergedAt(existing: seq<Check>, additions: seq<Check>, merged: seq<Check>, k: nat)
    requires k < |merged|
  {
    if k < |existing| then
      && merged[k].id == existing[k].id
      && merged[k] ==
        if LastIndex(existing, existing[k].id) == Some(k) then GetOr(OnRecord(additions, existing[k].id), existing[k])
        else existing[k]
    else
      && OnRecord(additions, merged[k].id) == Some(merged[k])
      && forall j :: 0 <= j < k ==> merged[j].id != merged[k].id
  }

  ghost predicate MergedFits(existing: seq<Check>, additions: seq<Check>, merged: seq<Check>) {
    && |existing| <= |merged|
    && (forall k :: 0 <= k < |merged| ==> MergedAt(existing, additions, merged, k))
    && (forall id :: OnRecord(additions, id).Some? ==> LastIndex(merged, id).Some?)
  }

  lemma {:induction false} MergedMeans(existing: seq<Check>, additions: seq<Check>)
    ensures MergedFits(existing, additions, Merged(existing, additions))
  {
    if additions == [] {
      forall k | 0 <= k < |existing| ensures MergedAt(existing, [], existing, k) {
      }
    } else {
      var before, last := additions[..|additions| - 1], additions[|additions| - 1];
      MergedMeans(existing, before);
      assert additions == before + [last];
      MergeStep(existing, before, last, Merged(existing, before));
    }
  }

  lemma {:induction false} LastIndexMeans(checks: seq<Check>, id: string)
    ensures LastIndex(checks, id).None? ==> forall d <- checks :: d.id != id
    ensures LastIndex(checks, id).Some? ==>
      LastIndex(checks, id).value < |checks|
        && LastWith(checks, id, LastIndex(checks, id).value, checks[LastIndex(checks, id).value])
    ensures forall k: nat :: k < |checks| && LastWith(checks, id, k, checks[k]) ==> LastIndex(checks, id) == Some(k)
  {
    if checks != [] {
      var before, last := checks[..|checks| - 1], checks[|checks| - 1];
      assert checks == before + [last];
      LastIndexMeans(before, id);
    }
  }

  lemma RecordNext(before: seq<Check>, c: Check, id: string)
    ensures OnRecord(before + [c], id) == if c.id == id then Some(c) else OnRecord(before, id)
  {
    assert (before + [c])[..|before|] == before;
    LastIndexInRange(before, id);
    LastIndexInRange(before + [c], id);
  }

  lemma MergeStep(existing: seq<Check>, before: seq<Check>, c: Check, merged: seq<Check>)
    requires MergedFits(existing, before, merged)
    ensures MergedFits(existing, before + [c], MergeOne(merged, c))
  {
    var q, i := MergeOne(merged, c), LastIndex(merged, c.id);
    LastIndexMeans(merged, c.id);
    forall k | 0 <= k < |q| ensures MergedAt(existing, before + [c], q, k) {
      RecordNext(before, c, q[k].id);
      if i.Some? && k < |merged| && merged[k].id == c.id {
        ReplacedPosition(existing, before, merged, c.id, i.value, k);
      }
      assert k < |merged| ==> MergedAt(existing, before, merged, k);
    }
    forall id | OnRecord(before + [c], id).Some? ensures LastIndex(q, id).Some? {
      RecordNext(before, c, id);
      LastIndexMeans(q, id);
      LastIndexMeans(merged, id);
      if id == c.id {
        assert c in q;
      } else {
        var k := LastIndex(merged, id).value;
        assert q[k] == merged[k] && q[k] in q;
      }
    }
  }

  /** A recorded position is the only one that merging may change. */
  lemma ReplacedPosition(existing: seq<Check>, before: seq<Check>, merged: seq<Check>, id: string, i: nat, k: nat)
    requires MergedFits(existing, before, merged) && i < |merged| && LastWith(merged, id, i, merged[i])
    requires k < |merged| && merged[k].id == id
    ensures k < |existing| ==> (LastIndex(existing, id) == Some(k) <==> k == i)
    ensures k >= |existing| ==> k == i
  {
    assert MergedAt(existing, before, merged, i) && MergedAt(existing, before, merged, k);
    assert forall j :: 0 <= j < |existing| ==> MergedAt(existing, before, merged, j);
    LastIndexMeans(existing, id);
    if i < |existing| {
      forall j | i < j < |existing| ensures existing[j].id != id {
        assert MergedAt(existing, before, merged, j);
      }
      assert LastWith(existing, id, i, existing[i]);
    }
  }

  // ---- The whole view ----------------------------------------------------------

  /** The last check with the ID that a filter keeps. */
  predicate LastKept(checks: seq<Check>, keep: Check -> bool, id: string, k: int, c: Check) {
    && 0 <= k < |checks| && checks[k] == c && c.id == id && keep(c)
    && forall j :: k < j < |checks| && keep(checks[j]) ==> checks[j].id != id
  }

  lemma {:induction false} FilterRecords(checks: seq<Check>, keep: Check -> bool, id: string, c: Check)
    ensures OnRecord(Filter(checks, keep), id) == Some(c) <==> exists k :: LastKept(checks, keep, id, k, c)
  {
    if checks != [] {
      var before, last := checks[..|checks| - 1], checks[|checks| - 1];
      FilterRecords(before, keep, id, c);
      if keep(last) {
        RecordNext(Filter(before, keep), last, id);
      }
      if keep(last) && last.id == id {
        assert LastKept(checks, keep, id, |before|, last);
      } else {
        forall k ensures LastKept(checks, keep, id, k, c) <==> LastKept(before, keep, id, k, c) {
          KeptStays(checks, keep, id, k, c);
        }
      }
    }
  }

  lemma KeptStays(checks: seq<Check>, keep: Check -> bool, id: string, k: int, c: Check)
    requires checks != [] && !(keep(checks[|checks| - 1]) && checks[|checks| - 1].id == id)
    ensures LastKept(checks, keep, id, k, c) <==> LastKept(checks[..|checks| - 1], keep, id, k, c)
  {
  }

  lemma DynamicRecords(input: AllocateInput, id: string, c: Check)
    ensures OnRecord(DynamicChecks(input), id) == Some(c) <==> LastAdded(input, id, c)
  {
    var keep := (d: Check) => !HasPrefix(d.id, PREDICATES_PREFIX);
    FilterRecords(input.hookChecks, keep, id, c);
    if k :| LastKept(input.hookChecks, keep, id, k, c) {
      assert Added(input, c);
    }
    if LastAdded(input, id, c) {
      var k :| 0 <= k < |input.hookChecks| && input.hookChecks[k] == c && c.id == id && Added(input, c)
        && forall j :: k < j < |input.hookChecks| && Added(input, input.hookChecks[j]) ==> input.hookChecks[j].id != id;
      assert forall j :: 0 <= j < |input.hookChecks| && keep(input.hookChecks[j]) ==> Added(input, input.hookChecks[j]);
      assert LastKept(input.hookChecks, keep, id, k, c);
    }
  }

  /** Every node is shown as its checks, the switches and the plugin checks say. */
  lemma NodeIsShown(input: AllocateInput, node: NodeResult)
    ensures ShowsNode(input, node, ViewNode(input, node))
  {
    var normalized, added := NormalizedAll(node.checks, input.switches, input.activation), DynamicChecks(input);
    var shown := ViewNode(input, node);
    MergedMeans(normalized, added);
    forall k | 0 <= k < |node.checks| ensures ShownAt(input, node, k, shown.checks[k]) {
      assert MergedAt(normalized, added, shown.checks, k);
      PositionIsShown(input, node, k, shown.checks[k]);
    }
    forall k | |node.checks| <= k < |shown.checks| ensures AppendedAt(input, node, shown, k) {
      assert MergedAt(normalized, added, shown.checks, k);
      DynamicRecords(input, shown.checks[k].id, shown.checks[k]);
    }
    forall c | Added(input, c) ensures exists k :: 0 <= k < |shown.checks| && shown.checks[k].id == c.id {
      FilterHolds(input.hookChecks, (d: Check) => !HasPrefix(d.id, PREDICATES_PREFIX), c);
      OnRecordIsLast(added, c.id, c);
      LastIndexMeans(shown.checks, c.id);
    }
  }

  lemma PositionIsShown(input: AllocateInput, node: NodeResult, k: nat, c: Check)
    requires k < |node.checks|
    requires var normalized, added :=
      NormalizedAll(node.checks, input.switches, input.activation), DynamicChecks(input);
      c == if LastIndex(normalized, normalized[k].id) == Some(k)
        then GetOr(OnRecord(added, normalized[k].id), normalized[k])
           else normalized[k]
    ensures ShownAt(input, node, k, c)
  {
    NormalizedIsShown(node.checks[k], input.switches, input.activation);
    LastStaysLast(input, node, k);
    AddedIsOnRecord(input, node.checks[k].id);
  }

  lemma LastStaysLast(input: AllocateInput, node: NodeResult, k: nat)
    requires k < |node.checks|
    ensures var normalized := NormalizedAll(node.checks, input.switches, input.activation);
      && normalized[k].id == node.checks[k].id
      && (LastOfNode(node, k) <==> LastIndex(normalized, node.checks[k].id) == Some(k))
  {
    var normalized, id := NormalizedAll(node.checks, input.switches, input.activation), node.checks[k].id;
    LastIndexMeans(normalized, id);
    assert forall j :: 0 <= j < |node.checks| ==> normalized[j].id == node.checks[j].id;
    assert LastOfNode(node, k) <==> LastWith(normalized, id, k, normalized[k]);
  }

  lemma AddedIsOnRecord(input: AllocateInput, id: string)
    ensures var record := OnRecord(DynamicChecks(input), id);
      if record.Some? then LastAdded(input, id, record.value) else forall d :: !LastAdded(input, id, d)
  {
    forall d ensures OnRecord(DynamicChecks(input), id) == Some(d) <==> LastAdded(input, id, d) {
      DynamicRecords(input, id, d);
    }
  }

  /** The checks besides the nodes' that the stage is judged by. */
  predicate Judged(input: AllocateInput, c: Check) {
    && (c.id == "plugins.predicates" ==> input.hookChecks == [])
    && ((c in input.checks && c.stage == "allocate" && c.id != "allocate.nodes") || Added(input, c))
  }

  predicate SomeNodePasses(nodes: seq<NodeResult>) {
    exists n <- nodes :: n.passed
  }

  predicate NoNodeIsOpen(nodes: seq<NodeResult>) {
    forall n <- nodes :: n.determinate
  }

  /** The stage fails by a failed check or for lack of a node, and passes when nothing is open and a node passes. */
  ghost predicate StageIs(input: AllocateInput, nodes: seq<NodeResult>, outcome: Outcome) {
    if || (exists c :: Judged(input, c) && !c.skipped && c.determinate && !c.passed)
       || (!SomeNodePasses(nodes) && NoNodeIsOpen(nodes))
    then outcome == Fail
    else if SomeNodePasses(nodes) && forall c :: Judged(input, c) ==> c.skipped || c.determinate
    then outcome == Pass
    else outcome == Undecided
  }

  lemma ViewHolds(input: AllocateInput, nodes: seq<NodeResult>, c: Check)
    ensures c in ViewChecks(input, nodes) <==> Judged(input, c) || c == Availability(ViewNodes(input, nodes))
  {
    var standing := Filter(input.checks, (d: Check) => d.stage == "allocate");
    var all := StandingChecks(input) + [Availability(ViewNodes(input, nodes))] + DynamicChecks(input);
    FilterHolds(input.checks, (d: Check) => d.stage == "allocate", c);
    FilterHolds(standing, (d: Check) => d.id != "allocate.nodes", c);
    FilterHolds(input.hookChecks, (d: Check) => !HasPrefix(d.id, PREDICATES_PREFIX), c);
    FilterHolds(all, (d: Check) => d.id != "plugins.predicates", c);
  }

  lemma AvailabilityMeans(nodes: seq<NodeResult>)
    ensures var c := Availability(nodes);
      && c.id == "allocate.nodes" && !c.skipped && c.passed == SomeNodePasses(nodes)
      && (c.determinate <==> SomeNodePasses(nodes) || NoNodeIsOpen(nodes))
  {
  }

  lemma StateMeans(checks: seq<Check>)
    ensures StageState(checks) == Fail <==> exists c <- checks :: !c.skipped && c.determinate && !c.passed
    ensures StageState(checks) == Pass <==>
      && (forall c <- checks :: !c.skipped ==> c.determinate && c.passed)
      && (exists c <- checks :: !c.skipped)
    ensures StageState(checks) != NotRun
  {
  }

  /** The presentation, from the report's checks and nodes, the hooks and the switches. */
  lemma ViewMeans(input: AllocateInput, nodes: seq<NodeResult>)
    ensures |ViewNodes(input, nodes)| == |nodes|
    ensures forall i :: 0 <= i < |nodes| ==> ShowsNode(input, nodes[i], ViewNodes(input, nodes)[i])
    ensures StageIs(input, ViewNodes(input, nodes), StageState(ViewChecks(input, nodes)))
  {
    forall i | 0 <= i < |nodes| ensures ShowsNode(input, nodes[i], ViewNodes(input, nodes)[i]) {
      NodeIsShown(input, nodes[i]);
    }
    var shown := ViewNodes(input, nodes);
    forall c {
      ViewHolds(input, nodes, c);
    }
    StateMeans(ViewChecks(input, nodes));
    AvailabilityMeans(shown);
    assert Availability(shown) in ViewChecks(input, nodes);
  }

  /** A switch that every plugin turns off leaves its checks skipped on every node, whatever the branch defaults are. */
  lemma SwitchedOffEverywhere(input: AllocateInput, nodes: seq<NodeResult>, i: nat, id: string, argument: string)
    requires i < |nodes| && input.activation == ActivationEnabled && SwitchOf(id, argument)
    requires forall p <- input.switches.plugins ::
      argument in p.explicitArguments && !p.explicitArguments[argument]
    requires forall c <- input.hookChecks :: c.id != id
    ensures forall c <- ViewNodes(input, nodes)[i].checks :: c.id == id ==> c.skipped && c.passed && c.determinate
  {
    var node, shown := nodes[i], ViewNodes(input, nodes)[i];
    NodeIsShown(input, node);
    assert !TurnedOn(input.switches, argument) && !LeftOpen(input.switches, argument);
    forall k | 0 <= k < |shown.checks|
      ensures shown.checks[k].id == id ==>
        shown.checks[k].skipped && shown.checks[k].passed && shown.checks[k].determinate
    {
      if k < |node.checks| {
        assert ShownAt(input, node, k, shown.checks[k]);
        if shown.checks[k].id == id {
          SkippedAt(input, node, k, shown.checks[k], id, argument);
        }
      } else {
        assert AppendedAt(input, node, shown, k);
      }
    }
  }

  lemma SkippedAt(input: AllocateInput, node: NodeResult, k: nat, c: Check, id: string, argument: string)
    requires k < |node.checks| && ShownAt(input, node, k, c) && c.id == id && SwitchOf(id, argument)
    requires input.activation == ActivationEnabled && !TurnedOn(input.switches, argument)
      && !LeftOpen(input.switches, argument)
    requires forall d <- input.hookChecks :: d.id != id
    ensures c.skipped && c.passed && c.determinate
  {
    assert Off(id, input.switches, input.activation);
  }
}
