/**
 Regrouping a report by scheduler action (internal/agent/report.go): which
 actions are shown, what evidence each gets, and what the overall pass means.
 */
module ActionReports {
  import opened Prelude
  import opened Checks
  import opened NodeEvidence
  import Hooks = HookInventory

  /** The parts of a report that the regrouping reads; `actions` are the policy's. */
  datatype Report = Report(checks: seq<Check>, hooks: seq<Hooks.Row>, nodes: seq<NodeResult>, actions: seq<string>)

  datatype ActionReport = ActionReport(
    name: string, order: int, configured: bool, checks: seq<Check>, hooks: seq<Hooks.Row>, nodes: seq<NodeResult>)

  function ActionOf(stage: string): string {
    if stage == "validate" then "preflight"
    else if stage in {"filter", "evidence", "jobValid"} then "allocate"
    else stage
  }

  function CheckAction(c: Check): string {
    ActionOf(c.stage)
  }

  function HookAction(row: Hooks.Row): string {
    ActionOf(row.action)
  }

  /** The items of one action, in their old order. */
  function Matching<T>(items: seq<T>, action: T -> string, name: string): seq<T> {
    if items == [] then []
    else
      var before, last := Matching(items[..|items| - 1], action, name), items[|items| - 1];
      if action(last) == name then before + [last] else before
  }

  lemma {:induction false} MatchingHolds<T(!new)>(items: seq<T>, action: T -> string, name: string, x: T)
    ensures x in Matching(items, action, name) <==> x in items && action(x) == name
  {
    if items != [] {
      MatchingHolds(items[..|items| - 1], action, name, x);
      assert items == items[..|items| - 1] + [items[|items| - 1]];
    }
  }

  function Lookup<T>(m: map<string, seq<T>>, name: string): seq<T> {
    if name in m then m[name] else []
  }

  method Group<T>(items: seq<T>, action: T -> string) returns (groups: map<string, seq<T>>, names: seq<string>)
    ensures forall name :: Lookup(groups, name) == Matching(items, action, name)
    ensures forall name :: name in names <==> Matching(items, action, name) != []
  {
    groups, names := map[], [];
    for i := 0 to |items|
      invariant forall name :: Lookup(groups, name) == Matching(items[..i], action, name)
      invariant forall name :: name in names <==> Matching(items[..i], action, name) != []
    {
      assert items[..i + 1][..i] == items[..i];
      var name := action(items[i]);
      groups := groups[name := Lookup(groups, name) + [items[i]]];
      names := names + [name];
    }
    assert items[..|items|] == items;
  }

  // ---- Nodes by action -----------------------------------------------------

  /** The fold of a node's checks, as every fold of the program computes it. */
  function Folded(name: string, checks: seq<Check>): NodeResult {
    NodeResult(name, AllSatisfied(checks), HasKnownFailure(checks) || !HasUnknown(checks), checks)
  }

  function Part(node: NodeResult, action: string): NodeResult {
    Folded(node.name, Matching(node.checks, CheckAction, action))
  }

  /** The parts of all nodes that have at least one check of the action. */
  function Parts(nodes: seq<NodeResult>, action: string): seq<NodeResult> {
    if nodes == [] then [] else Parts(nodes[..|nodes| - 1], action) + PartsOf(nodes[|nodes| - 1], action)
  }

  function PartsOf(node: NodeResult, action: string): seq<NodeResult> {
    if Matching(node.checks, CheckAction, action) == [] then [] else [Part(node, action)]
  }

  lemma {:induction false} PartsHold(nodes: seq<NodeResult>, action: string)
    ensures forall i :: 0 <= i < |nodes| && Matching(nodes[i].checks, CheckAction, action) != [] ==>
      Part(nodes[i], action) in Parts(nodes, action)
    ensures forall p <- Parts(nodes, action) ::
      exists i :: 0 <= i < |nodes| && Matching(nodes[i].checks, CheckAction, action) != []
        && p == Part(nodes[i], action)
  {
    if nodes != [] {
      PartsHold(nodes[..|nodes| - 1], action);
    }
  }

  /** The running fold: the part so far, whether it has a known failure, whether it has an unknown. */
  datatype Tally = Tally(part: NodeResult, failure: bool, unknown: bool)

  function Tallied(name: string, checks: seq<Check>): Tally {
    if checks == [] then Tally(NodeResult(name, true, true, []), false, false)
    else Absorb(Tallied(name, checks[..|checks| - 1]), checks[|checks| - 1])
  }

  function Absorb(t: Tally, c: Check): Tally {
    Tally(t.part.(checks := t.part.checks + [c], passed := t.part.passed && c.passed && c.determinate),
          t.failure || KnownFailure(c), t.unknown || !c.determinate)
  }

  lemma TallySnoc(name: string, checks: seq<Check>, c: Check)
    ensures Tallied(name, checks + [c]) == Absorb(Tallied(name, checks), c)
  {
  }

  function FoldOf(name: string, checks: seq<Check>): Tally {
    Tally(NodeResult(name, AllSatisfied(checks), true, checks), HasKnownFailure(checks), HasUnknown(checks))
  }

  lemma FoldSnoc(name: string, checks: seq<Check>, c: Check)
    ensures FoldOf(name, checks + [c]) == Absorb(FoldOf(name, checks), c)
  {
    Snoc(checks, c);
  }

  lemma {:induction false} TallyIsTheFold(name: string, checks: seq<Check>)
    ensures Tallied(name, checks) == FoldOf(name, checks)
  {
    if checks != [] {
      var before, last := checks[..|checks| - 1], checks[|checks| - 1];
      calc {
        Tallied(name, checks);
        Absorb(Tallied(name, before), last);
        { TallyIsTheFold(name, before); }
        Absorb(FoldOf(name, before), last);
        { FoldSnoc(name, before, last); }
        FoldOf(name, before + [last]);
        { assert checks == before + [last]; }
        FoldOf(name, checks);
      }
    }
  }

  function Settled(t: Tally): NodeResult {
    t.part.(determinate := t.failure || !t.unknown)
  }

  lemma SettledIsPart(node: NodeResult, action: string)
    ensures Settled(Tallied(node.name, Matching(node.checks, CheckAction, action))) == Part(node, action)
  {
    TallyIsTheFold(node.name, Matching(node.checks, CheckAction, action));
  }

  lemma Snoc(checks: seq<Check>, c: Check)
    ensures AllSatisfied(checks + [c]) == (AllSatisfied(checks) && Satisfied(c))
    ensures HasKnownFailure(checks + [c]) == (HasKnownFailure(checks) || KnownFailure(c))
    ensures HasUnknown(checks + [c]) == (HasUnknown(checks) || !c.determinate)
  {
    var all := checks + [c];
    assert all[|checks|] == c;
    assert forall i :: 0 <= i < |checks| ==> all[i] == checks[i];
  }

  function ActionTally(node: NodeResult, n: nat, action: string): Tally
    requires n <= |node.checks|
  {
    Tallied(node.name, Matching(node.checks[..n], CheckAction, action))
  }

  lemma TallyStep(node: NodeResult, n: nat, action: string)
    requires n < |node.checks|
    ensures ActionTally(node, n + 1, action) ==
      if CheckAction(node.checks[n]) == action then Absorb(ActionTally(node, n, action), node.checks[n])
      else ActionTally(node, n, action)
  {
    assert node.checks[..n + 1][..n] == node.checks[..n];
    TallySnoc(node.name, Matching(node.checks[..n], CheckAction, action), node.checks[n]);
  }

  function Start(node: NodeResult): Tally {
    Tally(NodeResult(node.name, true, true, []), false, false)
  }

  /** The tallies after the first `n` checks: an action is listed once it has a check. */
  ghost predicate Tallies(node: NodeResult, n: nat, tallies: map<string, Tally>)
    requires n <= |node.checks|
  {
    && (forall a <- tallies :: tallies[a].part.checks != [])
    && (forall a :: ActionTally(node, n, a) == if a in tallies then tallies[a] else Start(node))
  }

  lemma TalliesSettle(node: NodeResult, tallies: map<string, Tally>)
    requires Tallies(node, |node.checks|, tallies)
    ensures forall a :: a in tallies <==> Matching(node.checks, CheckAction, a) != []
    ensures forall a <- tallies :: Settled(tallies[a]) == Part(node, a)
  {
    assert node.checks[..|node.checks|] == node.checks;
    forall a ensures a in tallies <==> Matching(node.checks, CheckAction, a) != []
             ensures a in tallies ==> Settled(tallies[a]) == Part(node, a)
    {
      assert ActionTally(node, |node.checks|, a) == Tallied(node.name, Matching(node.checks, CheckAction, a));
      TallyIsTheFold(node.name, Matching(node.checks, CheckAction, a));
      SettledIsPart(node, a);
    }
  }

  method TallyNode(node: NodeResult) returns (tallies: map<string, Tally>)
    ensures forall a :: a in tallies <==> Matching(node.checks, CheckAction, a) != []
    ensures forall a <- tallies :: Settled(tallies[a]) == Part(node, a)
  {
    tallies := map[];
    for i := 0 to |node.checks|
      invariant Tallies(node, i, tallies)
    {
      var check := node.checks[i];
      var action := ActionOf(check.stage);
      forall a {
        TallyStep(node, i, a);
      }
      var tally := Start(node);
      if action in tallies {
        tally := tallies[action];
      }
      var part := tally.part.(
        checks := tally.part.checks + [check], passed := tally.part.passed && check.passed && check.determinate);
      tallies := tallies[action := Tally(
        part, tally.failure || (check.determinate && !check.passed), tally.unknown || !check.determinate)];
    }
    TalliesSettle(node, tallies);
  }

  method SplitNode(node: NodeResult, groups: map<string, seq<NodeResult>>)
    returns (result: map<string, seq<NodeResult>>)
    ensures forall a :: Lookup(result, a) == Lookup(groups, a) + PartsOf(node, a)
    ensures forall a :: a in result <==> a in groups || Matching(node.checks, CheckAction, a) != []
  {
    var tallies := TallyNode(node);
    result := AppendTallies(tallies, groups);
  }

  method AppendTallies(tallies: map<string, Tally>, groups: map<string, seq<NodeResult>>)
    returns (result: map<string, seq<NodeResult>>)
    ensures forall a :: Lookup(result, a) == Lookup(groups, a) + if a in tallies then [Settled(tallies[a])] else []
    ensures forall a :: a in result <==> a in groups || a in tallies
  {
    result := groups;
    var rest := tallies.Keys;
    while rest != {}
      invariant rest <= tallies.Keys
      invariant forall a :: (
        Lookup(result, a) ==
        if a in tallies && a !in rest then Lookup(groups, a) + [Settled(tallies[a])] else Lookup(groups, a))
      invariant forall a :: a in result <==> a in groups || (a in tallies && a !in rest)
    {
      var action :| action in rest;
      var tally := tallies[action];
      var part := tally.part.(determinate := tally.failure || !tally.unknown);
      result := result[action := Lookup(result, action) + [part]];
      rest := rest - {action};
    }
  }

  method SplitNodesByAction(nodes: seq<NodeResult>) returns (result: map<string, seq<NodeResult>>)
    ensures forall a :: Lookup(result, a) == Parts(nodes, a)
    ensures forall a :: a in result <==> Parts(nodes, a) != []
  {
    result := map[];
    for i := 0 to |nodes|
      invariant forall a :: Lookup(result, a) == Parts(nodes[..i], a)
      invariant forall a :: a in result <==> Parts(nodes[..i], a) != []
    {
      assert nodes[..i + 1][..i] == nodes[..i];
      result := SplitNode(nodes[i], result);
    }
    assert nodes[..|nodes|] == nodes;
  }

  /** The outcomes of a node's parts, put together again, are the node's outcome. */
  lemma PartsRecombine(node: NodeResult)
    ensures var whole := Folded(node.name, node.checks); (
      && (whole.passed <==> forall c <- node.checks :: Part(node, CheckAction(c)).passed)
      && (whole.determinate <==>
        SomePartFails(node) || forall c <- node.checks :: Part(node, CheckAction(c)).determinate))
  {
    AsMembership(node.checks);
    forall c | c in node.checks
      ensures Part(node, CheckAction(c)).passed ==> Satisfied(c)
      ensures AllSatisfied(node.checks) ==> Part(node, CheckAction(c)).passed
      ensures KnownFailure(c) ==> Part(node, CheckAction(c)).determinate && !Part(node, CheckAction(c)).passed
      ensures Part(node, CheckAction(c)).determinate ==> c.determinate || HasKnownFailure(node.checks)
      ensures !HasUnknown(node.checks) ==> Part(node, CheckAction(c)).determinate
      ensures Part(node, CheckAction(c)).determinate && !Part(node, CheckAction(c)).passed ==>
        HasKnownFailure(node.checks)
    {
      PartFolds(node, CheckAction(c));
    }
  }

  ghost predicate SomePartFails(node: NodeResult) {
    exists c <- node.checks :: Part(node, CheckAction(c)).determinate && !Part(node, CheckAction(c)).passed
  }

  /** The fold's predicates, restated over members instead of positions. */
  lemma AsMembership(checks: seq<Check>)
    ensures AllSatisfied(checks) == (forall c <- checks :: Satisfied(c))
    ensures HasKnownFailure(checks) == (exists c <- checks :: KnownFailure(c))
    ensures HasUnknown(checks) == (exists c <- checks :: !c.determinate)
  {
  }

  lemma PartFolds(node: NodeResult, action: string)
    ensures var part := Part(node, action); (
      && part.passed == (forall d <- node.checks :: CheckAction(d) == action ==> Satisfied(d))
      && (part.determinate && !part.passed <==> exists d <- node.checks :: CheckAction(d) == action && KnownFailure(d))
      && (part.determinate <==>
        || (exists d <- node.checks :: CheckAction(d) == action && KnownFailure(d))
        || (forall d <- node.checks :: CheckAction(d) == action ==> d.determinate)))
  {
    var mine := Matching(node.checks, CheckAction, action);
    forall x {
      MatchingHolds(node.checks, CheckAction, action, x);
    }
    AsMembership(mine);
  }

  // ---- The action list -----------------------------------------------------

  predicate Native(action: string) {
    action == "enqueue" || action == "allocate"
  }

  function Coverage(action: string): Check {
    Unknown("action." + action + ".coverage", action)
  }

  function Bare(report: Report, name: string, configured: bool, order: int): ActionReport {
    ActionReport(name, order, configured, Matching(report.checks, CheckAction, name),
                 Matching(report.hooks, HookAction, name), Parts(report.nodes, name))
  }

  function WithCoverage(action: ActionReport): ActionReport {
    if !action.configured || Native(action.name) then action
    else action.(checks := action.checks + [Coverage(action.name)])
  }

  /** One entry of the action list. */
  function Assembled(report: Report, name: string, configured: bool, order: int): ActionReport {
    WithCoverage(Bare(report, name, configured, order))
  }

  /** Some evidence names this action; evidence without a stage names none. */
  ghost predicate Observed(report: Report, name: string) {
    && name != ""
    && (|| Matching(report.checks, CheckAction, name) != []
        || Parts(report.nodes, name) != []
        || Matching(report.hooks, HookAction, name) != [])
  }

  /** The leading preflight entry, if any evidence belongs to it. */
  ghost function Head(report: Report): nat {
    if Observed(report, "preflight") then 1 else 0
  }

  /** Preflight, then the configured actions in their order. */
  ghost predicate StartsConfigured(report: Report, actions: seq<ActionReport>) {
    && |actions| >= Head(report) + |report.actions|
    && (Head(report) == 1 ==> actions[0] == Assembled(report, "preflight", false, -1))
    && (forall i :: Head(report) <= i < Head(report) + |report.actions| ==>
      actions[i] == Assembled(report, report.actions[i - Head(report)], true, i - Head(report)))
  }

  ghost predicate IsExtra(report: Report, action: ActionReport, i: int) {
    && action == Assembled(report, action.name, false, i)
    && Observed(report, action.name) && action.name != "preflight" && action.name !in report.actions
  }

  /** Every other observed action follows once. */
  ghost predicate EndsWithExtras(report: Report, actions: seq<ActionReport>, rest: nat) {
    && (forall i :: rest <= i < |actions| ==> IsExtra(report, actions[i], i))
    && (forall i, j :: rest <= i < j < |actions| ==> actions[i].name != actions[j].name)
    && (forall name :: Observed(report, name) && name != "preflight" && name !in report.actions ==>
      exists i :: rest <= i < |actions| && actions[i].name == name)
  }

  ghost predicate IsActionList(report: Report, actions: seq<ActionReport>) {
    && StartsConfigured(report, actions)
    && EndsWithExtras(report, actions, Head(report) + |report.actions|)
  }

  method Observe(order: seq<string>, names: seq<string>) returns (result: seq<string>)
    requires forall i, j :: 0 <= i < j < |order| ==> order[i] != order[j]
    ensures forall i, j :: 0 <= i < j < |result| ==> result[i] != result[j]
    ensures forall name :: name in result <==> name in order || (name != "" && name in names)
  {
    result := order;
    for i := 0 to |names|
      invariant forall k, l :: 0 <= k < l < |result| ==> result[k] != result[l]
      invariant forall name :: name in result <==> name in order || (name != "" && name in names[..i])
    {
      if names[i] == "" || names[i] in result {
        continue;
      }
      result := result + [names[i]];
    }
    assert names[..|names|] == names;
  }

  /** Map iteration is in no fixed order. */
  method Keys<T>(m: map<string, T>) returns (names: seq<string>)
    ensures forall name :: name in names <==> name in m
  {
    names := [];
    var rest := m.Keys;
    while rest != {}
      invariant rest <= m.Keys
      invariant forall name :: name in names <==> name in m && name !in rest
    {
      var name :| name in rest;
      names := names + [name];
      rest := rest - {name};
    }
  }

  /** `observedOrder`: each action with evidence, once. */
  method ObservedActions(
    report: Report, checkNames: seq<string>, nodes: map<string, seq<NodeResult>>, hookNames: seq<string>)
    returns (order: seq<string>)
    requires forall a :: a in nodes <==> Parts(report.nodes, a) != []
    requires forall a :: a in checkNames <==> Matching(report.checks, CheckAction, a) != []
    requires forall a :: a in hookNames <==> Matching(report.hooks, HookAction, a) != []
    ensures forall i, j :: 0 <= i < j < |order| ==> order[i] != order[j]
    ensures forall name :: name in order <==> Observed(report, name)
  {
    order := Observe([], checkNames);
    var nodeNames := Keys(nodes);
    order := Observe(order, nodeNames);
    order := Observe(order, hookNames);
  }

  /** All evidence, grouped by action once and for all. */
  datatype Groups = Groups(
    checks: map<string, seq<Check>>, hooks: map<string, seq<Hooks.Row>>, nodes: map<string, seq<NodeResult>>)

  ghost predicate Fits(groups: Groups, report: Report) {
    && (forall name :: Lookup(groups.checks, name) == Matching(report.checks, CheckAction, name))
    && (forall name :: Lookup(groups.hooks, name) == Matching(report.hooks, HookAction, name))
    && (forall name :: Lookup(groups.nodes, name) == Parts(report.nodes, name))
  }

  function Collected(groups: Groups, name: string, configured: bool, order: int): ActionReport {
    ActionReport(
      name, order, configured, Lookup(groups.checks, name), Lookup(groups.hooks, name), Lookup(groups.nodes, name))
  }

  /** The action has an entry from position `rest` on. */
  predicate NamedFrom(actions: seq<ActionReport>, rest: nat, name: string) {
    exists i :: rest <= i < |actions| && actions[i].name == name
  }

  ghost predicate Extras(
    groups: Groups, actions: seq<ActionReport>, rest: nat, observed: seq<string>, listed: set<string>)
  {
    && |actions| >= rest
    && (forall i :: rest <= i < |actions| ==> (
      && actions[i] == Collected(groups, actions[i].name, false, i)
      && actions[i].name in observed && actions[i].name != "preflight" && actions[i].name !in listed))
    && (forall i, j :: rest <= i < j < |actions| ==> actions[i].name != actions[j].name)
  }

  method ListObserved(groups: Groups, first: seq<ActionReport>, listed: set<string>, observed: seq<string>)
    returns (actions: seq<ActionReport>)
    ensures |actions| >= |first| && actions[..|first|] == first
    ensures Extras(groups, actions, |first|, observed, listed)
    ensures forall name <- observed :: name == "preflight" || name in listed || NamedFrom(actions, |first|, name)
  {
    actions := first;
    var found := listed;
    for k := 0 to |observed|
      invariant |actions| >= |first| && actions[..|first|] == first
      invariant Extras(groups, actions, |first|, observed, listed) && listed <= found
      invariant forall name :: name in found <==> name in listed || NamedFrom(actions, |first|, name)
      invariant forall j :: 0 <= j < k ==> observed[j] == "preflight" || observed[j] in found
    {
      var name := observed[k];
      if name == "preflight" || name in found {
        continue;
      }
      ghost var before := actions;
      actions := actions + [Collected(groups, name, false, |actions|)];
      assert forall i :: 0 <= i < |before| ==> actions[i] == before[i];
      assert actions[|before|].name == name;
      found := found + {name};
    }
  }

  predicate Begins(groups: Groups, actions: seq<ActionReport>, configured: seq<string>, observed: seq<string>) {
    var head := HeadOf(observed);
    && |actions| >= head + |configured|
    && (head == 1 ==> actions[0] == Collected(groups, "preflight", false, -1))
    && (forall i :: head <= i < head + |configured| ==>
      actions[i] == Collected(groups, configured[i - head], true, i - head))
  }

  function HeadOf(observed: seq<string>): nat {
    if "preflight" in observed then 1 else 0
  }

  /** Preflight, the configured actions and every other observed action, still without coverage notes. */
  ghost predicate Complete(groups: Groups, actions: seq<ActionReport>, configured: seq<string>, observed: seq<string>) {
    var rest := HeadOf(observed) + |configured|;
    && Begins(groups, actions, configured, observed)
    && Extras(groups, actions, rest, observed, set name | name in configured)
    && (forall name <- observed :: name == "preflight" || name in configured || NamedFrom(actions, rest, name))
  }

  method ListActions(groups: Groups, configured: seq<string>, observed: seq<string>)
    returns (actions: seq<ActionReport>)
    ensures Complete(groups, actions, configured, observed)
  {
    ghost var head := HeadOf(observed);
    actions := [];
    var found: set<string> := {};
    if "preflight" in observed {
      actions := [Collected(groups, "preflight", false, -1)];
    }
    for k := 0 to |configured|
      invariant |actions| == head + k
      invariant head == 1 ==> actions[0] == Collected(groups, "preflight", false, -1)
      invariant forall i :: head <= i < head + k ==>
        actions[i] == Collected(groups, configured[i - head], true, i - head)
      invariant found == set name | name in configured[..k]
    {
      actions := actions + [Collected(groups, configured[k], true, k)];
      found := found + {configured[k]};
    }
    assert configured[..|configured|] == configured;
    ghost var first := actions;
    actions := ListObserved(groups, actions, found, observed);
    assert forall i :: 0 <= i < |first| ==> actions[i] == first[i];
  }

  predicate Covers(bare: seq<ActionReport>, actions: seq<ActionReport>) {
    |actions| == |bare| && forall i :: 0 <= i < |bare| ==> actions[i] == WithCoverage(bare[i])
  }

  method AddCoverage(bare: seq<ActionReport>) returns (actions: seq<ActionReport>)
    ensures Covers(bare, actions)
  {
    actions := bare;
    for i := 0 to |actions|
      invariant |actions| == |bare|
      invariant forall j :: 0 <= j < i ==> actions[j] == WithCoverage(bare[j])
      invariant forall j :: i <= j < |bare| ==> actions[j] == bare[j]
    {
      if !actions[i].configured || Native(actions[i].name) {
        continue;
      }
      actions := actions[i := actions[i].(checks := actions[i].checks + [Coverage(actions[i].name)])];
    }
  }

  lemma CollectedIsBare(groups: Groups, report: Report, name: string, configured: bool, order: int)
    requires Fits(groups, report)
    ensures Collected(groups, name, configured, order) == Bare(report, name, configured, order)
  {
  }

  lemma ExtrasEndTheList(
    groups: Groups, report: Report, bare: seq<ActionReport>, actions: seq<ActionReport>, observed: seq<string>)
    requires Fits(groups, report) && Complete(groups, bare, report.actions, observed) && Covers(bare, actions)
    requires forall name :: name in observed <==> Observed(report, name)
    ensures EndsWithExtras(report, actions, HeadOf(observed) + |report.actions|)
  {
  }

  lemma ConfiguredStartTheList(
    groups: Groups, report: Report, bare: seq<ActionReport>, actions: seq<ActionReport>, observed: seq<string>)
    requires Fits(groups, report) && Begins(groups, bare, report.actions, observed) && Covers(bare, actions)
    requires HeadOf(observed) == Head(report)
    ensures StartsConfigured(report, actions)
  {
    var head := Head(report);
    CollectedIsBare(groups, report, "preflight", false, -1);
    forall i | head <= i < head + |report.actions|
      ensures actions[i] == Assembled(report, report.actions[i - head], true, i - head)
    {
      CollectedIsBare(groups, report, report.actions[i - head], true, i - head);
    }
  }

  method GroupEvidence(report: Report) returns (groups: Groups, observed: seq<string>)
    ensures Fits(groups, report) && (forall name :: name in observed <==> Observed(report, name))
  {
    var checks, checkNames := Group(report.checks, CheckAction);
    var nodes := SplitNodesByAction(report.nodes);
    var hooks, hookNames := Group(report.hooks, HookAction);
    observed := ObservedActions(report, checkNames, nodes, hookNames);
    groups := Groups(checks, hooks, nodes);
  }

  method BuildActionReports(report: Report) returns (actions: seq<ActionReport>)
    ensures IsActionList(report, actions) && ListShows(report, actions)
  {
    var groups, observed := GroupEvidence(report);
    var bare := ListActions(groups, report.actions, observed);
    actions := AddCoverage(bare);
    assert HeadOf(observed) == Head(report);
    ConfiguredStartTheList(groups, report, bare, actions, observed);
    ExtrasEndTheList(groups, report, bare, actions, observed);
    ListMeans(report, actions);
  }

  // ---- Conservation --------------------------------------------------------

  function Names(actions: seq<ActionReport>): seq<string> {
    seq(|actions|, i requires 0 <= i < |actions| => actions[i].name)
  }

  lemma {:induction false} DistinctCount(names: seq<string>, name: string)
    requires forall i, j :: 0 <= i < j < |names| ==> names[i] != names[j]
    ensures multiset(names)[name] == if name in names then 1 else 0
  {
    if names != [] {
      var n := |names| - 1;
      assert names == names[..n] + [names[n]];
      DistinctCount(names[..n], name);
    }
  }

  predicate StartsWith(names: seq<string>, first: seq<string>, middle: seq<string>) {
    && |names| >= |first| + |middle|
    && (forall i :: 0 <= i < |first| ==> names[i] == first[i])
    && (forall i :: |first| <= i < |first| + |middle| ==> names[i] == middle[i - |first|])
  }

  lemma SplitSequence(names: seq<string>, first: seq<string>, middle: seq<string>)
    requires StartsWith(names, first, middle)
    ensures names == first + middle + names[|first| + |middle|..]
  {
  }

  predicate NameFits(actions: seq<ActionReport>, first: seq<string>, configured: seq<string>, i: nat) {
    i < |first| + |configured| ==>
      i < |actions| && actions[i].name == if i < |first| then first[i] else configured[i - |first|]
  }

  lemma EntryNameFits(report: Report, actions: seq<ActionReport>, first: seq<string>, i: nat)
    requires StartsConfigured(report, actions) && first == if Head(report) == 1 then ["preflight"] else []
    ensures NameFits(actions, first, report.actions, i)
  {
  }

  lemma NamesStart(actions: seq<ActionReport>, first: seq<string>, configured: seq<string>)
    requires |actions| >= |first| + |configured| && forall i: nat :: NameFits(actions, first, configured, i)
    ensures StartsWith(Names(actions), first, configured)
  {
    forall i: nat | i < |first| + |configured|
      ensures Names(actions)[i] == if i < |first| then first[i] else configured[i - |first|]
    {
      assert NameFits(actions, first, configured, i);
    }
  }

  lemma ExtrasCount(report: Report, actions: seq<ActionReport>, rest: nat, name: string)
    requires rest <= |actions| && EndsWithExtras(report, actions, rest)
    ensures multiset(Names(actions)[rest..])[name] ==
      if Observed(report, name) && name != "preflight" && name !in report.actions then 1 else 0
  {
    var names := Names(actions)[rest..];
    assert forall i :: rest <= i < |actions| ==> names[i - rest] == actions[i].name;
    assert forall i :: rest <= i < |actions| ==> IsExtra(report, actions[i], i);
    assert forall i :: 0 <= i < |names| ==> names[i] == actions[i + rest].name;
    DistinctCount(names, name);
  }

  /** How many entries an action gets. */
  lemma Occurrences(report: Report, actions: seq<ActionReport>, name: string)
    requires IsActionList(report, actions)
    ensures multiset(Names(actions))[name] ==
      (if name == "preflight" then Head(report) + multiset(report.actions)[name]
       else if name in report.actions then multiset(report.actions)[name]
       else if Observed(report, name) then 1 else 0)
  {
    var first := if Head(report) == 1 then ["preflight"] else [];
    forall i: nat ensures NameFits(actions, first, report.actions, i) {
      EntryNameFits(report, actions, first, i);
    }
    NamesStart(actions, first, report.actions);
    SplitSequence(Names(actions), first, report.actions);
    ExtrasCount(report, actions, Head(report) + |report.actions|, name);
  }

  lemma {:induction false} MatchingCount<T>(items: seq<T>, action: T -> string, name: string, x: T)
    ensures multiset(Matching(items, action, name))[x] == if action(x) == name then multiset(items)[x] else 0
  {
    if items != [] {
      var n := |items| - 1;
      assert items == items[..n] + [items[n]];
      MatchingCount(items[..n], action, name, x);
    }
  }

  /** How often an item is shown, over all the entries with the given names. */
  ghost function Shown<T>(items: seq<T>, action: T -> string, names: seq<string>, x: T): nat {
    if names == [] then 0
    else Shown(items, action, names[..|names| - 1], x) + multiset(Matching(items, action, names[|names| - 1]))[x]
  }

  lemma CountNext(names: seq<string>, n: nat, name: string)
    requires n < |names|
    ensures multiset(names[..n + 1])[name] == multiset(names[..n])[name] + if names[n] == name then 1 else 0
  {
    assert names[..n + 1] == names[..n] + [names[n]];
  }

  /** The product, as repeated addition. */
  function Product(m: nat, n: nat): nat {
    if n == 0 then 0 else Product(m, n - 1) + m
  }

  lemma {:induction false} ShownOncePerEntry<T>(items: seq<T>, action: T -> string, names: seq<string>, x: T)
    ensures Shown(items, action, names, x) == Product(multiset(items)[x], multiset(names)[action(x)])
  {
    if names != [] {
      var n := |names| - 1;
      ShownOncePerEntry(items, action, names[..n], x);
      MatchingCount(items, action, names[n], x);
      CountNext(names, n, action(x));
      assert names[..n + 1] == names;
    }
  }

  function CheckCopies(actions: seq<ActionReport>, c: Check): nat {
    if actions == [] then 0
    else CheckCopies(actions[..|actions| - 1], c) + multiset(actions[|actions| - 1].checks)[c]
  }

  function HookCopies(actions: seq<ActionReport>, row: Hooks.Row): nat {
    if actions == [] then 0
    else HookCopies(actions[..|actions| - 1], row) + multiset(actions[|actions| - 1].hooks)[row]
  }

  ghost predicate AllAssembled(report: Report, actions: seq<ActionReport>) {
    forall i :: 0 <= i < |actions| ==>
      actions[i] == Assembled(report, actions[i].name, actions[i].configured, actions[i].order)
  }

  lemma ListIsAssembled(report: Report, actions: seq<ActionReport>)
    requires IsActionList(report, actions)
    ensures AllAssembled(report, actions)
  {
  }

  lemma EntryShows(report: Report, name: string, configured: bool, order: int, c: Check)
    requires c != Coverage(name)
    ensures multiset(Assembled(report, name, configured, order).checks)[c]
      == multiset(Matching(report.checks, CheckAction, name))[c]
  {
  }

  lemma {:induction false} CheckCopiesAreShown(report: Report, actions: seq<ActionReport>, c: Check)
    requires AllAssembled(report, actions)
    requires forall i :: 0 <= i < |actions| ==> c != Coverage(actions[i].name)
    ensures CheckCopies(actions, c) == Shown(report.checks, CheckAction, Names(actions), c)
  {
    if actions != [] {
      var n := |actions| - 1;
      var last := actions[n];
      CheckCopiesAreShown(report, actions[..n], c);
      EntryShows(report, last.name, last.configured, last.order, c);
      assert Names(actions)[..n] == Names(actions[..n]);
    }
  }

  lemma {:induction false} HookCopiesAreShown(report: Report, actions: seq<ActionReport>, row: Hooks.Row)
    requires AllAssembled(report, actions)
    ensures HookCopies(actions, row) == Shown(report.hooks, HookAction, Names(actions), row)
  {
    if actions != [] {
      var n := |actions| - 1;
      HookCopiesAreShown(report, actions[..n], row);
      assert Names(actions)[..n] == Names(actions[..n]);
    }
  }

  /** How often a check stands on the nodes of that name. */
  function ChecksOn(nodes: seq<NodeResult>, node: string, c: Check): nat {
    if nodes == [] then 0
    else
      var last := nodes[|nodes| - 1];
      ChecksOn(nodes[..|nodes| - 1], node, c) + if last.name == node then multiset(last.checks)[c] else 0
  }

  /** The same, over the nodes of all entries. */
  function NodeCheckCopies(actions: seq<ActionReport>, node: string, c: Check): nat {
    if actions == [] then 0
    else NodeCheckCopies(actions[..|actions| - 1], node, c) + ChecksOn(actions[|actions| - 1].nodes, node, c)
  }

  lemma ChecksOnNext(nodes: seq<NodeResult>, x: NodeResult, node: string, c: Check)
    ensures ChecksOn(nodes + [x], node, c) == ChecksOn(nodes, node, c) + ChecksOn([x], node, c)
    ensures ChecksOn([x], node, c) == if x.name == node then multiset(x.checks)[c] else 0
  {
    assert (nodes + [x])[..|nodes|] == nodes;
    assert ChecksOn([x][..0], node, c) == 0;
  }

  lemma PartKeepsChecks(before: seq<NodeResult>, x: NodeResult, action: string, node: string, c: Check)
    ensures ChecksOn(before + PartsOf(x, action), node, c) ==
      ChecksOn(before, node, c) + if CheckAction(c) == action then ChecksOn([x], node, c) else 0
  {
    MatchingCount(x.checks, CheckAction, action, c);
    ChecksOnNext([], x, node, c);
    if Matching(x.checks, CheckAction, action) == [] {
      assert before + PartsOf(x, action) == before;
    } else {
      ChecksOnNext(before, Part(x, action), node, c);
    }
  }

  lemma PartsNext(before: seq<NodeResult>, x: NodeResult, action: string)
    ensures Parts(before + [x], action) == Parts(before, action) + PartsOf(x, action)
  {
    assert (before + [x])[..|before|] == before;
  }

  lemma PartsKeepNext(before: seq<NodeResult>, x: NodeResult, action: string, node: string, c: Check, kept: nat)
    requires ChecksOn(Parts(before, action), node, c) == kept
    requires kept == if CheckAction(c) == action then ChecksOn(before, node, c) else 0
    ensures ChecksOn(Parts(before + [x], action), node, c) ==
      if CheckAction(c) == action then ChecksOn(before + [x], node, c) else 0
  {
    PartsNext(before, x, action);
    PartKeepsChecks(Parts(before, action), x, action, node, c);
    ChecksOnNext(before, x, node, c);
  }

  lemma {:induction false} PartsKeepChecks(nodes: seq<NodeResult>, action: string, node: string, c: Check)
    ensures ChecksOn(Parts(nodes, action), node, c) == if CheckAction(c) == action then ChecksOn(nodes, node, c) else 0
  {
    if nodes != [] {
      var before, last := nodes[..|nodes| - 1], nodes[|nodes| - 1];
      PartsKeepChecks(before, action, node, c);
      PartsKeepNext(before, last, action, node, c, ChecksOn(Parts(before, action), node, c));
      assert nodes == before + [last];
    }
  }

  lemma {:induction false} NodeChecksShownOncePerEntry(
    report: Report, actions: seq<ActionReport>, node: string, c: Check)
    requires AllAssembled(report, actions)
    ensures NodeCheckCopies(actions, node, c) ==
      Product(ChecksOn(report.nodes, node, c), multiset(Names(actions))[CheckAction(c)])
  {
    if actions != [] {
      var n := |actions| - 1;
      NodeChecksShownOncePerEntry(report, actions[..n], node, c);
      PartsKeepChecks(report.nodes, actions[n].name, node, c);
      CountNext(Names(actions), n, CheckAction(c));
      assert Names(actions)[..n] == Names(actions[..n]);
      assert Names(actions)[..n + 1] == Names(actions);
    }
  }

  /**
   No evidence is lost or invented: every check (apart from the coverage notes
   that the list itself adds), every hook and every check of a node is shown as
   often as it was reported, once per entry of its action.
   */
  lemma EvidenceIsConserved(report: Report, actions: seq<ActionReport>, c: Check, row: Hooks.Row, node: string)
    requires AllAssembled(report, actions)
    requires forall i :: 0 <= i < |actions| ==> c != Coverage(actions[i].name)
    ensures CheckCopies(actions, c) == Product(multiset(report.checks)[c], multiset(Names(actions))[CheckAction(c)])
    ensures HookCopies(actions, row) == Product(multiset(report.hooks)[row], multiset(Names(actions))[HookAction(row)])
    ensures NodeCheckCopies(actions, node, c) ==
      Product(ChecksOn(report.nodes, node, c), multiset(Names(actions))[CheckAction(c)])
  {
    CheckCopiesAreShown(report, actions, c);
    HookCopiesAreShown(report, actions, row);
    ShownOncePerEntry(report.checks, CheckAction, Names(actions), c);
    ShownOncePerEntry(report.hooks, HookAction, Names(actions), row);
    NodeChecksShownOncePerEntry(report, actions, node, c);
  }

  // ---- The entries from the report alone --------------------------------------

  /** Validation is shown as preflight, and what node filters, evidence and JobValid found as allocate. */
  predicate ShownUnder(stage: string, name: string) {
    if stage == "validate" then name == "preflight"
    else if stage == "filter" || stage == "evidence" || stage == "jobValid" then name == "allocate"
    else name == stage
  }

  /** The node's checks of the action, with the outcome that those alone give. */
  ghost predicate NodePart(node: NodeResult, name: string, part: NodeResult) {
    && part.name == node.name && part.checks != []
    && (forall c :: c in part.checks <==> c in node.checks && ShownUnder(c.stage, name))
    && (part.passed <==> forall c <- part.checks :: c.passed && c.determinate)
    && (part.determinate <==>
      (exists c <- part.checks :: c.determinate && !c.passed) || forall c <- part.checks :: c.determinate)
  }

  /** What one entry holds; configured actions that are not evaluated natively carry a coverage note. */
  ghost predicate EntryIs(report: Report, e: ActionReport, name: string, configured: bool, order: int) {
    && e.name == name && e.configured == configured && e.order == order
    && (forall c :: c in e.checks <==>
      || (c in report.checks && ShownUnder(c.stage, name))
      || (configured && name != "enqueue" && name != "allocate"
          && c == Check("action." + name + ".coverage", name, false, false, false, None)))
    && (forall row :: row in e.hooks <==> row in report.hooks && ShownUnder(row.action, name))
    && (forall part <- e.nodes :: exists node <- report.nodes :: NodePart(node, name, part))
    && (forall node <- report.nodes :: (exists c <- node.checks :: ShownUnder(c.stage, name)) ==>
      exists part <- e.nodes :: NodePart(node, name, part))
  }

  lemma EntryMeans(report: Report, name: string, configured: bool, order: int)
    ensures EntryIs(report, Assembled(report, name, configured, order), name, configured, order)
  {
    forall c: Check
      ensures c in Matching(report.checks, CheckAction, name) <==> c in report.checks && ShownUnder(c.stage, name)
    {
      MatchingHolds(report.checks, CheckAction, name, c);
    }
    forall row: Hooks.Row
      ensures row in Matching(report.hooks, HookAction, name) <==> row in report.hooks && ShownUnder(row.action, name)
    {
      MatchingHolds(report.hooks, HookAction, name, row);
    }
    PartsMean(report.nodes, name);
  }

  lemma PartIsNodePart(node: NodeResult, name: string)
    requires exists c <- node.checks :: ShownUnder(c.stage, name)
    ensures Matching(node.checks, CheckAction, name) != [] && NodePart(node, name, Part(node, name))
  {
    forall c: Check
      ensures c in Matching(node.checks, CheckAction, name) <==> c in node.checks && ShownUnder(c.stage, name)
    {
      MatchingHolds(node.checks, CheckAction, name, c);
    }
    AsMembership(Matching(node.checks, CheckAction, name));
  }

  lemma PartsMean(nodes: seq<NodeResult>, name: string)
    ensures forall part <- Parts(nodes, name) :: exists node <- nodes :: NodePart(node, name, part)
    ensures forall node <- nodes :: (exists c <- node.checks :: ShownUnder(c.stage, name)) ==>
      exists part <- Parts(nodes, name) :: NodePart(node, name, part)
  {
    PartsHold(nodes, name);
    forall part | part in Parts(nodes, name) ensures exists node <- nodes :: NodePart(node, name, part) {
      var i :| 0 <= i < |nodes| && Matching(nodes[i].checks, CheckAction, name) != [] && part == Part(nodes[i], name);
      var c := Matching(nodes[i].checks, CheckAction, name)[0];
      MatchingHolds(nodes[i].checks, CheckAction, name, c);
      PartIsNodePart(nodes[i], name);
    }
    forall node | node in nodes && exists c <- node.checks :: ShownUnder(c.stage, name)
      ensures exists part <- Parts(nodes, name) :: NodePart(node, name, part)
    {
      var i :| 0 <= i < |nodes| && nodes[i] == node;
      PartIsNodePart(node, name);
    }
  }

  /** Some check, hook or node check is shown under the name. */
  predicate HasEvidence(report: Report, name: string) {
    && name != ""
    && (|| (exists c <- report.checks :: ShownUnder(c.stage, name))
        || (exists row <- report.hooks :: ShownUnder(row.action, name))
        || (exists node <- report.nodes, c <- node.checks :: ShownUnder(c.stage, name)))
  }

  lemma ObservedMeans(report: Report, name: string)
    ensures Observed(report, name) <==> HasEvidence(report, name)
  {
    PartsMean(report.nodes, name);
    var mine, hooks := Matching(report.checks, CheckAction, name), Matching(report.hooks, HookAction, name);
    forall c: Check ensures c in mine <==> c in report.checks && ShownUnder(c.stage, name) {
      MatchingHolds(report.checks, CheckAction, name, c);
    }
    forall row: Hooks.Row ensures row in hooks <==> row in report.hooks && ShownUnder(row.action, name) {
      MatchingHolds(report.hooks, HookAction, name, row);
    }
    assert mine != [] ==> mine[0] in mine;
    assert hooks != [] ==> hooks[0] in hooks;
    var parts := Parts(report.nodes, name);
    if parts != [] {
      assert parts[0] in parts;
      var node :| node in report.nodes && NodePart(node, name, parts[0]);
      assert parts[0].checks[0] in parts[0].checks;
    }
  }

  /** Behind the configured actions comes one entry for every other action with evidence. */
  predicate ExtraAt(report: Report, actions: seq<ActionReport>, i: nat)
    requires i < |actions|
  {
    && HasEvidence(report, actions[i].name) && actions[i].name != "preflight" && actions[i].name !in report.actions
    && forall j :: 0 <= j < i && !actions[j].configured ==> actions[j].name != actions[i].name
  }

  /** The list, entry by entry: preflight if it has evidence, the configured actions in order, then the others. */
  ghost predicate ListShows(report: Report, actions: seq<ActionReport>) {
    var head := if HasEvidence(report, "preflight") then 1 else 0;
    var rest := head + |report.actions|;
    && |actions| >= rest
    && (head == 1 ==> EntryIs(report, actions[0], "preflight", false, -1))
    && (forall i :: head <= i < rest ==> EntryIs(report, actions[i], report.actions[i - head], true, i - head))
    && (forall i :: rest <= i < |actions| ==>
      EntryIs(report, actions[i], actions[i].name, false, i) && ExtraAt(report, actions, i))
    && (forall name :: HasEvidence(report, name) ==> NamedFrom(actions, 0, name))
  }

  lemma ListMeans(report: Report, actions: seq<ActionReport>)
    requires IsActionList(report, actions)
    ensures ListShows(report, actions)
  {
    var head, rest := Head(report), Head(report) + |report.actions|;
    ObservedMeans(report, "preflight");
    EntryMeans(report, "preflight", false, -1);
    forall i | head <= i < rest
      ensures EntryIs(report, actions[i], report.actions[i - head], true, i - head)
    {
      EntryMeans(report, report.actions[i - head], true, i - head);
    }
    forall i | rest <= i < |actions|
      ensures EntryIs(report, actions[i], actions[i].name, false, i) && ExtraAt(report, actions, i)
    {
      ExtraMeans(report, actions, i);
    }
    forall name | HasEvidence(report, name) ensures NamedFrom(actions, 0, name) {
      ObservedMeans(report, name);
      EveryNameIsListed(report, actions, name);
    }
  }

  lemma ExtraMeans(report: Report, actions: seq<ActionReport>, i: nat)
    requires IsActionList(report, actions) && Head(report) + |report.actions| <= i < |actions|
    ensures EntryIs(report, actions[i], actions[i].name, false, i) && ExtraAt(report, actions, i)
  {
    assert IsExtra(report, actions[i], i);
    EntryMeans(report, actions[i].name, false, i);
    ObservedMeans(report, actions[i].name);
  }

  lemma EveryNameIsListed(report: Report, actions: seq<ActionReport>, name: string)
    requires IsActionList(report, actions) && Observed(report, name)
    ensures NamedFrom(actions, 0, name)
  {
    if name in report.actions {
      var k :| 0 <= k < |report.actions| && report.actions[k] == name;
      var i := Head(report) + k;
      assert actions[i] == Assembled(report, report.actions[i - Head(report)], true, i - Head(report));
    }
  }

  // ---- The overall pass ----------------------------------------------------

  predicate HookSatisfied(row: Hooks.Row) {
    row.passed && row.determinate
  }

  predicate NodeSatisfied(node: NodeResult) {
    node.passed && node.determinate
  }

  predicate HooksSatisfied(rows: seq<Hooks.Row>, n: nat)
    requires n <= |rows|
  {
    forall i :: 0 <= i < n ==> HookSatisfied(rows[i])
  }

  predicate NodesSatisfied(nodes: seq<NodeResult>, n: nat)
    requires n <= |nodes|
  {
    forall i :: 0 <= i < n ==> NodeSatisfied(nodes[i])
  }

  predicate ActionPasses(action: ActionReport) {
    && AllSatisfied(action.checks)
    && HooksSatisfied(action.hooks, |action.hooks|)
    && NodesSatisfied(action.nodes, |action.nodes|)
  }

  method Passed(actions: seq<ActionReport>) returns (passed: bool)
    ensures passed == AllPass(actions)
    ensures passed <==> forall action <- actions :: (
      && (forall c <- action.checks :: c.passed && c.determinate)
      && (forall row <- action.hooks :: row.passed && row.determinate)
      && (forall node <- action.nodes :: node.passed && node.determinate))
  {
    passed := true;
    for i := 0 to |actions|
      invariant passed == forall j :: 0 <= j < i ==> ActionPasses(actions[j])
    {
      var action := actions[i];
      ghost var before := passed;
      for k := 0 to |action.checks|
        invariant passed == (before && AllSatisfied(action.checks[..k]))
      {
        assert action.checks[..k + 1] == action.checks[..k] + [action.checks[k]];
        Snoc(action.checks[..k], action.checks[k]);
        passed := passed && action.checks[k].passed && action.checks[k].determinate;
      }
      assert action.checks[..|action.checks|] == action.checks;
      before := passed;
      for k := 0 to |action.hooks|
        invariant passed == (before && HooksSatisfied(action.hooks, k))
      {
        passed := passed && action.hooks[k].passed && action.hooks[k].determinate;
      }
      before := passed;
      for k := 0 to |action.nodes|
        invariant passed == (before && NodesSatisfied(action.nodes, k))
      {
        passed := passed && action.nodes[k].passed && action.nodes[k].determinate;
      }
    }
    forall action {
      PassingMeans(action);
    }
  }

  lemma PassingMeans(action: ActionReport)
    ensures ActionPasses(action) <==>
      && (forall c <- action.checks :: c.passed && c.determinate)
      && (forall row <- action.hooks :: row.passed && row.determinate)
      && (forall node <- action.nodes :: node.passed && node.determinate)
  {
    AsMembership(action.checks);
    assert forall row <- action.hooks :: exists i :: 0 <= i < |action.hooks| && action.hooks[i] == row;
    assert forall node <- action.nodes :: exists i :: 0 <= i < |action.nodes| && action.nodes[i] == node;
  }

  /** Everything reported for this action is a determinate pass. */
  ghost predicate Clean(report: Report, name: string) {
    && (forall c <- report.checks :: CheckAction(c) == name ==> c.passed && c.determinate)
    && (forall row <- report.hooks :: HookAction(row) == name ==> row.passed && row.determinate)
    && (forall i :: 0 <= i < |report.nodes| ==>
      forall c <- report.nodes[i].checks :: CheckAction(c) == name ==> c.passed && c.determinate)
  }

  lemma PartSatisfied(node: NodeResult, name: string)
    ensures NodeSatisfied(Part(node, name)) <==> forall c <- node.checks :: CheckAction(c) == name ==> Satisfied(c)
    ensures Matching(node.checks, CheckAction, name) == [] ==> forall c <- node.checks :: CheckAction(c) != name
  {
    PartFolds(node, name);
    forall c | c in node.checks ensures c in Matching(node.checks, CheckAction, name) <==> CheckAction(c) == name {
      MatchingHolds(node.checks, CheckAction, name, c);
    }
  }

  lemma PartsSatisfied(report: Report, name: string)
    ensures NodesSatisfied(Parts(report.nodes, name), |Parts(report.nodes, name)|) <==>
      (forall i :: 0 <= i < |report.nodes| ==>
        forall c <- report.nodes[i].checks :: CheckAction(c) == name ==> Satisfied(c))
  {
    PartsHold(report.nodes, name);
    var parts := Parts(report.nodes, name);
    assert NodesSatisfied(parts, |parts|) <==> forall node <- parts :: NodeSatisfied(node);
    forall i | 0 <= i < |report.nodes|
      ensures NodeSatisfied(Part(report.nodes[i], name)) <==>
        forall c <- report.nodes[i].checks :: CheckAction(c) == name ==> Satisfied(c)
      ensures Matching(report.nodes[i].checks, CheckAction, name) == [] ==>
        forall c <- report.nodes[i].checks :: CheckAction(c) != name
    {
      PartSatisfied(report.nodes[i], name);
    }
  }

  lemma EntryPasses(report: Report, name: string, configured: bool, order: int)
    ensures ActionPasses(Assembled(report, name, configured, order)) <==>
      Clean(report, name) && (configured ==> Native(name))
  {
    var entry := Assembled(report, name, configured, order);
    var mine := Matching(report.checks, CheckAction, name);
    forall c ensures c in mine <==> c in report.checks && CheckAction(c) == name {
      MatchingHolds(report.checks, CheckAction, name, c);
    }
    forall row ensures row in Matching(report.hooks, HookAction, name) <==>
      row in report.hooks && HookAction(row) == name
    {
      MatchingHolds(report.hooks, HookAction, name, row);
    }
    PartsSatisfied(report, name);
    AsMembership(mine);
    if configured && !Native(name) {
      Snoc(mine, Coverage(name));
    }
  }

  /** Evidence without a stage is left out, unless an action with the empty name is configured. */
  predicate Listed(report: Report, name: string) {
    name != "" || "" in report.actions
  }

  lemma ObservedIfReported(report: Report, name: string)
    requires name != ""
    ensures Observed(report, name) || Clean(report, name)
  {
    EntryPasses(report, name, false, 0);
  }

  predicate HasEntry(actions: seq<ActionReport>, name: string, configured: bool) {
    exists i :: 0 <= i < |actions| && actions[i].name == name && actions[i].configured == configured
  }

  /** Which names have entries. */
  lemma EntriesOf(report: Report, actions: seq<ActionReport>, name: string)
    requires IsActionList(report, actions)
    ensures HasEntry(actions, name, true) <==> name in report.actions
    ensures HasEntry(actions, name, false) ==> Observed(report, name)
    ensures Observed(report, name) && name !in report.actions ==> HasEntry(actions, name, false)
  {
    var head := Head(report);
    var rest := head + |report.actions|;
    assert forall i :: rest <= i < |actions| ==> IsExtra(report, actions[i], i);
    if name in report.actions {
      var k :| 0 <= k < |report.actions| && report.actions[k] == name;
      assert actions[head + k] == Assembled(report, report.actions[head + k - head], true, head + k - head);
    }
  }

  lemma EntryPassesIff(report: Report, actions: seq<ActionReport>, i: nat)
    requires AllAssembled(report, actions) && i < |actions|
    ensures ActionPasses(actions[i]) <==>
      Clean(report, actions[i].name) && (actions[i].configured ==> Native(actions[i].name))
  {
    EntryPasses(report, actions[i].name, actions[i].configured, actions[i].order);
  }

  ghost predicate AllPass(actions: seq<ActionReport>) {
    forall i :: 0 <= i < |actions| ==> ActionPasses(actions[i])
  }

  /** All listed evidence is clean and every configured action is natively covered. */
  ghost predicate AllClean(report: Report) {
    (forall name :: Listed(report, name) ==> Clean(report, name)) && (forall name <- report.actions :: Native(name))
  }

  /** What it means for a report to pass. */
  lemma PassedIff(report: Report, actions: seq<ActionReport>)
    requires IsActionList(report, actions)
    ensures AllPass(actions) <==> AllClean(report)
  {
    ListIsAssembled(report, actions);
    if AllPass(actions) {
      forall name ensures Listed(report, name) ==> Clean(report, name)
                  ensures name in report.actions ==> Native(name)
      {
        PassingMakesClean(report, actions, name);
      }
    }
    if AllClean(report) {
      forall i | 0 <= i < |actions| ensures ActionPasses(actions[i]) {
        assert HasEntry(actions, actions[i].name, actions[i].configured);
        EntriesOf(report, actions, actions[i].name);
        EntryPassesIff(report, actions, i);
      }
    }
  }

  lemma PassingMakesClean(report: Report, actions: seq<ActionReport>, name: string)
    requires IsActionList(report, actions) && AllAssembled(report, actions) && AllPass(actions)
    ensures Listed(report, name) ==> Clean(report, name)
    ensures name in report.actions ==> Native(name)
  {
    EntriesOf(report, actions, name);
    if HasEntry(actions, name, true) {
      var i :| 0 <= i < |actions| && actions[i].name == name && actions[i].configured;
      EntryPassesIff(report, actions, i);
    } else if HasEntry(actions, name, false) {
      var i :| 0 <= i < |actions| && actions[i].name == name && !actions[i].configured;
      EntryPassesIff(report, actions, i);
    } else if name != "" {
      ObservedIfReported(report, name);
    }
  }

  ghost predicate HasFailures(report: Report) {
    || (exists c <- report.checks :: c.determinate && !c.passed)
    || (exists row <- report.hooks :: row.determinate && !row.passed)
  }

  ghost predicate HasUnknowns(report: Report, actions: seq<ActionReport>) {
    || (exists c <- report.checks :: !c.determinate) || (exists row <- report.hooks :: !row.determinate)
    || (exists i :: 0 <= i < |actions| && HasUnknown(actions[i].checks))
  }

  /**
   A passing report has neither known failures nor unknowns exactly when the
   evidence it does not list, that is evidence without a stage, is clean.
   */
  lemma PassedExcludesFailures(report: Report, actions: seq<ActionReport>)
    requires IsActionList(report, actions) && AllPass(actions)
    ensures !HasFailures(report) && !HasUnknowns(report, actions) <==>
      (forall c <- report.checks :: CheckAction(c) == "" ==> c.passed && c.determinate)
      && (forall row <- report.hooks :: HookAction(row) == "" ==> row.passed && row.determinate)
  {
    PassedIff(report, actions);
    forall c | c in report.checks && CheckAction(c) != "" ensures c.passed && c.determinate {
      assert Listed(report, CheckAction(c)) && Clean(report, CheckAction(c));
    }
    forall row | row in report.hooks && HookAction(row) != "" ensures row.passed && row.determinate {
      assert Listed(report, HookAction(row)) && Clean(report, HookAction(row));
    }
  }

  /** Every piece of evidence names a stage, as all evidence of the program does. */
  predicate Staged(report: Report) {
    && (forall c <- report.checks :: CheckAction(c) != "")
    && (forall row <- report.hooks :: HookAction(row) != "")
    && (forall node <- report.nodes, c <- node.checks :: CheckAction(c) != "")
  }

  /** All of it is a determinate pass. */
  predicate AllEvidencePasses(report: Report) {
    && (forall c <- report.checks :: c.passed && c.determinate)
    && (forall row <- report.hooks :: row.passed && row.determinate)
    && (forall node <- report.nodes, c <- node.checks :: c.passed && c.determinate)
  }

  lemma StagedIsClean(report: Report)
    requires Staged(report)
    ensures (forall name :: Listed(report, name) ==> Clean(report, name)) <==> AllEvidencePasses(report)
  {
    if forall name :: Listed(report, name) ==> Clean(report, name) {
      forall c | c in report.checks ensures c.passed && c.determinate {
        assert Listed(report, CheckAction(c)) && Clean(report, CheckAction(c));
      }
      forall row | row in report.hooks ensures row.passed && row.determinate {
        assert Listed(report, HookAction(row)) && Clean(report, HookAction(row));
      }
      forall node, c | node in report.nodes && c in node.checks ensures c.passed && c.determinate {
        assert Listed(report, CheckAction(c)) && Clean(report, CheckAction(c));
      }
    }
  }

  /**
   A report whose evidence names its stages passes exactly when every check, every
   hook and every check of every node is a determinate pass and all configured
   actions are natively covered.
   */
  lemma StagedReportPassesIff(report: Report, actions: seq<ActionReport>)
    requires IsActionList(report, actions) && Staged(report)
    ensures AllPass(actions) <==>
      AllEvidencePasses(report) && forall name <- report.actions :: name == "enqueue" || name == "allocate"
  {
    PassedIff(report, actions);
    StagedIsClean(report);
  }

  /** So a passing report has no known failure and no unknown. */
  lemma StagedPassExcludesFailures(report: Report, actions: seq<ActionReport>)
    requires IsActionList(report, actions) && Staged(report) && AllPass(actions)
    ensures !HasFailures(report) && !HasUnknowns(report, actions)
  {
    PassedExcludesFailures(report, actions);
  }

  /** A raw report with a failed check that names no stage, which no rule of the program records. */
  lemma UnstagedFailureIsNotSeen(report: Report)
    requires report == Report([Known("x", "", false)], [], [], [])
    ensures !Staged(report) && IsActionList(report, []) && HasFailures(report) && AllPass([])
  {
    var failed := report.checks[0];
    assert CheckAction(failed) == "" && KnownFailure(failed);
    forall name | name != "" ensures !Observed(report, name) {
      assert Matching([failed][..0], CheckAction, name) == [];
    }
  }
}
