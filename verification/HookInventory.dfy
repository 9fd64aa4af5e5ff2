/**
 The hook inventory: which plugin hooks every configured action would run, in
 decision order, and whether each is known to be switched off
 (internal/agent/runtime/plugins.go), with the duplicate removal of
 `pluginHookChecks` (internal/agent/presentation.go).
 */
module HookInventory {
  import opened Prelude
  import opened Checks

  /** The registration calls that the table names; a source file may register others. */
  datatype Hook =
    | AddQueueOrderFn | AddJobOrderFn | AddJobEnqueueableFn | AddJobEnqueuedFn | AddJobValidFn
    | AddOverusedFn | AddTaskOrderFn | AddAllocatableFn | AddPrePredicateFn | AddPredicateFn
    | AddBatchNodeOrderFn | AddNodeOrderFn | AddNodeMapFn | AddNodeReduceFn | AddBestNodeFn
    | AddJobReadyFn | AddJobPipelinedFn | AddPreemptiveFn | AddReclaimableFn | AddJobStarvingFns
    | AddPreemptableFn | AddVictimTasksFns | OtherHook(name: string)

  datatype Definition = Definition(name: Hook, option: string)

  const ENQUEUE_HOOKS := [
    Definition(AddQueueOrderFn, "enableQueueOrder"),
    Definition(AddJobOrderFn, "enableJobOrder"),
    Definition(AddJobEnqueueableFn, "enableJobEnqueued"),
    Definition(AddJobEnqueuedFn, "enableJobEnqueued")]

  const ALLOCATE_JOB_HOOKS := [
    Definition(AddJobValidFn, ""),
    Definition(AddQueueOrderFn, "enableQueueOrder"),
    Definition(AddOverusedFn, "enabledOverused"),
    Definition(AddJobOrderFn, "enableJobOrder"),
    Definition(AddTaskOrderFn, "enableTaskOrder")]

  const ALLOCATE_PREDICATE_HOOKS := [
    Definition(AddAllocatableFn, "enabledAllocatable"),
    Definition(AddPrePredicateFn, "enablePredicate"),
    Definition(AddPredicateFn, "enablePredicate"),
    Definition(AddBatchNodeOrderFn, "enableNodeOrder"),
    Definition(AddNodeOrderFn, "enableNodeOrder")]

  const ALLOCATE_NODE_HOOKS := [
    Definition(AddNodeMapFn, "enableNodeOrder"),
    Definition(AddNodeReduceFn, "enableNodeOrder"),
    Definition(AddBestNodeFn, "enableBestNode"),
    Definition(AddJobReadyFn, "enableJobReady"),
    Definition(AddJobPipelinedFn, "enableJobPipelined")]

  const ALLOCATE_HOOKS := ALLOCATE_JOB_HOOKS + ALLOCATE_PREDICATE_HOOKS + ALLOCATE_NODE_HOOKS

  const BACKFILL_JOB_HOOKS := [
    Definition(AddJobValidFn, ""),
    Definition(AddQueueOrderFn, "enableQueueOrder"),
    Definition(AddJobOrderFn, "enableJobOrder"),
    Definition(AddTaskOrderFn, "enableTaskOrder"),
    Definition(AddPrePredicateFn, "enablePredicate"),
    Definition(AddPredicateFn, "enablePredicate")]

  const BACKFILL_NODE_HOOKS := [
    Definition(AddBatchNodeOrderFn, "enableNodeOrder"),
    Definition(AddNodeOrderFn, "enableNodeOrder"),
    Definition(AddNodeMapFn, "enableNodeOrder"),
    Definition(AddNodeReduceFn, "enableNodeOrder"),
    Definition(AddBestNodeFn, "enableBestNode")]

  const BACKFILL_HOOKS := BACKFILL_JOB_HOOKS + BACKFILL_NODE_HOOKS

  const RECLAIM_JOB_HOOKS := [
    Definition(AddJobValidFn, ""),
    Definition(AddQueueOrderFn, "enableQueueOrder"),
    Definition(AddOverusedFn, "enabledOverused"),
    Definition(AddPreemptiveFn, "enablePreemptive"),
    Definition(AddJobOrderFn, "enableJobOrder"),
    Definition(AddTaskOrderFn, "enableTaskOrder")]

  const RECLAIM_VICTIM_HOOKS := [
    Definition(AddAllocatableFn, "enabledAllocatable"),
    Definition(AddPrePredicateFn, "enablePredicate"),
    Definition(AddPredicateFn, "enablePredicate"),
    Definition(AddReclaimableFn, "enableReclaimable")]

  const RECLAIM_HOOKS := RECLAIM_JOB_HOOKS + RECLAIM_VICTIM_HOOKS

  const PREEMPT_JOB_HOOKS := [
    Definition(AddJobValidFn, ""),
    Definition(AddJobStarvingFns, "enableJobStarving"),
    Definition(AddJobOrderFn, "enableJobOrder"),
    Definition(AddTaskOrderFn, "enableTaskOrder"),
    Definition(AddPrePredicateFn, "enablePredicate"),
    Definition(AddPredicateFn, "enablePredicate")]

  const PREEMPT_NODE_HOOKS := [
    Definition(AddBatchNodeOrderFn, "enableNodeOrder"),
    Definition(AddNodeOrderFn, "enableNodeOrder"),
    Definition(AddNodeMapFn, "enableNodeOrder"),
    Definition(AddNodeReduceFn, "enableNodeOrder")]

  const PREEMPT_VICTIM_HOOKS := [
    Definition(AddPreemptableFn, "enablePreemptable"),
    Definition(AddAllocatableFn, "enabledAllocatable"),
    Definition(AddJobPipelinedFn, "enableJobPipelined"),
    Definition(AddVictimTasksFns, "enabledVictim")]

  const PREEMPT_HOOKS := PREEMPT_JOB_HOOKS + PREEMPT_NODE_HOOKS + PREEMPT_VICTIM_HOOKS

  /** The hooks of each supported action in decision order; the option is empty where there is no switch. */
  const ACTION_HOOKS: map<string, seq<Definition>> :=
    map["enqueue" := ENQUEUE_HOOKS, "allocate" := ALLOCATE_HOOKS, "backfill" := BACKFILL_HOOKS,
        "reclaim" := RECLAIM_HOOKS, "preempt" := PREEMPT_HOOKS]

  /** The switch of a hook, whatever action runs it. */
  function HookOption(hook: Hook): string {
    match hook
    case AddQueueOrderFn => "enableQueueOrder"
    case AddJobOrderFn => "enableJobOrder"
    case AddJobEnqueueableFn | AddJobEnqueuedFn => "enableJobEnqueued"
    case AddOverusedFn => "enabledOverused"
    case AddTaskOrderFn => "enableTaskOrder"
    case AddAllocatableFn => "enabledAllocatable"
    case AddPrePredicateFn | AddPredicateFn => "enablePredicate"
    case AddBatchNodeOrderFn | AddNodeOrderFn | AddNodeMapFn | AddNodeReduceFn => "enableNodeOrder"
    case AddBestNodeFn => "enableBestNode"
    case AddJobReadyFn => "enableJobReady"
    case AddJobPipelinedFn => "enableJobPipelined"
    case AddPreemptiveFn => "enablePreemptive"
    case AddReclaimableFn => "enableReclaimable"
    case AddJobStarvingFns => "enableJobStarving"
    case AddPreemptableFn => "enablePreemptable"
    case AddVictimTasksFns => "enabledVictim"
    case _ => ""
  }

  predicate Agrees(d: Definition) {
    d.option == HookOption(d.name)
  }

  predicate Consistent(definitions: seq<Definition>) {
    forall i :: 0 <= i < |definitions| ==> Agrees(definitions[i])
  }

  predicate ConsistentTable(table: map<string, seq<Definition>>) {
    forall action <- table :: Consistent(table[action])
  }

  lemma EnqueueHooksAreConsistent()
    ensures Consistent(ENQUEUE_HOOKS)
  {
    assert Agrees(Definition(AddQueueOrderFn, "enableQueueOrder"));
    assert Agrees(Definition(AddJobOrderFn, "enableJobOrder"));
    assert Agrees(Definition(AddJobEnqueueableFn, "enableJobEnqueued"));
    assert Agrees(Definition(AddJobEnqueuedFn, "enableJobEnqueued"));
  }

  lemma AllocateJobHooksAreConsistent()
    ensures Consistent(ALLOCATE_JOB_HOOKS)
  {
    assert Agrees(Definition(AddJobValidFn, ""));
    assert Agrees(Definition(AddQueueOrderFn, "enableQueueOrder"));
    assert Agrees(Definition(AddOverusedFn, "enabledOverused"));
    assert Agrees(Definition(AddJobOrderFn, "enableJobOrder"));
    assert Agrees(Definition(AddTaskOrderFn, "enableTaskOrder"));
  }

  lemma AllocatePredicateHooksAreConsistent()
    ensures Consistent(ALLOCATE_PREDICATE_HOOKS)
  {
    assert Agrees(Definition(AddAllocatableFn, "enabledAllocatable"));
    assert Agrees(Definition(AddPrePredicateFn, "enablePredicate"));
    assert Agrees(Definition(AddPredicateFn, "enablePredicate"));
    assert Agrees(Definition(AddBatchNodeOrderFn, "enableNodeOrder"));
    assert Agrees(Definition(AddNodeOrderFn, "enableNodeOrder"));
  }

  lemma AllocateNodeHooksAreConsistent()
    ensures Consistent(ALLOCATE_NODE_HOOKS)
  {
    assert Agrees(Definition(AddNodeMapFn, "enableNodeOrder"));
    assert Agrees(Definition(AddNodeReduceFn, "enableNodeOrder"));
    assert Agrees(Definition(AddBestNodeFn, "enableBestNode"));
    assert Agrees(Definition(AddJobReadyFn, "enableJobReady"));
    assert Agrees(Definition(AddJobPipelinedFn, "enableJobPipelined"));
  }

  lemma BackfillJobHooksAreConsistent()
    ensures Consistent(BACKFILL_JOB_HOOKS)
  {
    assert Agrees(Definition(AddJobValidFn, ""));
    assert Agrees(Definition(AddQueueOrderFn, "enableQueueOrder"));
    assert Agrees(Definition(AddJobOrderFn, "enableJobOrder"));
    assert Agrees(Definition(AddTaskOrderFn, "enableTaskOrder"));
    assert Agrees(Definition(AddPrePredicateFn, "enablePredicate"));
    assert Agrees(Definition(AddPredicateFn, "enablePredicate"));
  }

  lemma BackfillNodeHooksAreConsistent()
    ensures Consistent(BACKFILL_NODE_HOOKS)
  {
    assert Agrees(Definition(AddBatchNodeOrderFn, "enableNodeOrder"));
    assert Agrees(Definition(AddNodeOrderFn, "enableNodeOrder"));
    assert Agrees(Definition(AddNodeMapFn, "enableNodeOrder"));
    assert Agrees(Definition(AddNodeReduceFn, "enableNodeOrder"));
    assert Agrees(Definition(AddBestNodeFn, "enableBestNode"));
  }

  lemma ReclaimJobHooksAreConsistent()
    ensures Consistent(RECLAIM_JOB_HOOKS)
  {
    assert Agrees(Definition(AddJobValidFn, ""));
    assert Agrees(Definition(AddQueueOrderFn, "enableQueueOrder"));
    assert Agrees(Definition(AddOverusedFn, "enabledOverused"));
    assert Agrees(Definition(AddPreemptiveFn, "enablePreemptive"));
    assert Agrees(Definition(AddJobOrderFn, "enableJobOrder"));
    assert Agrees(Definition(AddTaskOrderFn, "enableTaskOrder"));
  }

  lemma ReclaimVictimHooksAreConsistent()
    ensures Consistent(RECLAIM_VICTIM_HOOKS)
  {
    assert Agrees(Definition(AddAllocatableFn, "enabledAllocatable"));
    assert Agrees(Definition(AddPrePredicateFn, "enablePredicate"));
    assert Agrees(Definition(AddPredicateFn, "enablePredicate"));
    assert Agrees(Definition(AddReclaimableFn, "enableReclaimable"));
  }

  lemma PreemptJobHooksAreConsistent()
    ensures Consistent(PREEMPT_JOB_HOOKS)
  {
    assert Agrees(Definition(AddJobValidFn, ""));
    assert Agrees(Definition(AddJobStarvingFns, "enableJobStarving"));
    assert Agrees(Definition(AddJobOrderFn, "enableJobOrder"));
    assert Agrees(Definition(AddTaskOrderFn, "enableTaskOrder"));
    assert Agrees(Definition(AddPrePredicateFn, "enablePredicate"));
    assert Agrees(Definition(AddPredicateFn, "enablePredicate"));
  }

  lemma PreemptNodeHooksAreConsistent()
    ensures Consistent(PREEMPT_NODE_HOOKS)
  {
    assert Agrees(Definition(AddBatchNodeOrderFn, "enableNodeOrder"));
    assert Agrees(Definition(AddNodeOrderFn, "enableNodeOrder"));
    assert Agrees(Definition(AddNodeMapFn, "enableNodeOrder"));
    assert Agrees(Definition(AddNodeReduceFn, "enableNodeOrder"));
  }

  lemma PreemptVictimHooksAreConsistent()
    ensures Consistent(PREEMPT_VICTIM_HOOKS)
  {
    assert Agrees(Definition(AddPreemptableFn, "enablePreemptable"));
    assert Agrees(Definition(AddAllocatableFn, "enabledAllocatable"));
    assert Agrees(Definition(AddJobPipelinedFn, "enableJobPipelined"));
    assert Agrees(Definition(AddVictimTasksFns, "enabledVictim"));
  }

  /** A hook has the same switch under every action of the table. */
  lemma ActionHooksAreConsistent()
    ensures ConsistentTable(ACTION_HOOKS)
  {
    EnqueueHooksAreConsistent();
    AllocateJobHooksAreConsistent();
    AllocatePredicateHooksAreConsistent();
    AllocateNodeHooksAreConsistent();
    BackfillJobHooksAreConsistent();
    BackfillNodeHooksAreConsistent();
    ReclaimJobHooksAreConsistent();
    ReclaimVictimHooksAreConsistent();
    PreemptJobHooksAreConsistent();
    PreemptNodeHooksAreConsistent();
    PreemptVictimHooksAreConsistent();
  }

  // ---- Policy and sources --------------------------------------------------

  datatype Plugin = Plugin(
    name: string, tier: nat, order: nat, explicitOptions: map<string, bool>, optionKeys: set<string>)

  datatype Policy = Policy(actions: seq<string>, tiers: seq<seq<Plugin>>)

  /** `configuredPluginKey`; the printed form is injective, so the key is kept as a triple. */
  datatype Key = Key(tier: nat, order: nat, name: string)

  function KeyOf(plugin: Plugin): Key {
    Key(plugin.tier, plugin.order, plugin.name)
  }

  /** Policies number their plugins by position. */
  predicate WellIndexed(policy: Policy) {
    forall t, s :: 0 <= t < |policy.tiers| && 0 <= s < |policy.tiers[t]| ==>
      policy.tiers[t][s].tier == t && policy.tiers[t][s].order == s
  }

  /** A plugin source file with the last element of its directory. */
  datatype SourceFile = SourceFile(directory: string, hooks: seq<Hook>, pluginNames: seq<string>)

  datatype Registration = Registration(matched: bool, hooks: set<Hook>)

  /** `matches` stands for the name comparison of `pluginNamesMatch`. */
  predicate Belongs(file: SourceFile, name: string, matches: (string, string) -> bool) {
    || (exists i :: 0 <= i < |file.pluginNames| && matches(file.pluginNames[i], name))
    || (file.pluginNames == [] && file.hooks != [] && matches(file.directory, name))
  }

  function Registered(name: string, sources: seq<SourceFile>, matches: (string, string) -> bool): Registration {
    Registration(exists i :: 0 <= i < |sources| && Belongs(sources[i], name, matches),
                 set file, hook | file in sources && Belongs(file, name, matches) && hook in file.hooks :: hook)
  }

  method SourceBelongsToPlugin(file: SourceFile, name: string, matches: (string, string) -> bool) returns (yes: bool)
    ensures yes == Belongs(file, name, matches)
  {
    for i := 0 to |file.pluginNames|
      invariant forall j :: 0 <= j < i ==> !matches(file.pluginNames[j], name)
    {
      if matches(file.pluginNames[i], name) {
        return true;
      }
    }
    if |file.pluginNames| > 0 || |file.hooks| == 0 {
      return false;
    }
    return matches(file.directory, name);
  }

  /** One of its plugin names is the plugin's, or it has hooks and no plugin names and its directory is called so. */
  predicate Claims(file: SourceFile, name: string, matches: (string, string) -> bool) {
    || (exists n <- file.pluginNames :: matches(n, name))
    || (|file.pluginNames| == 0 && |file.hooks| > 0 && matches(file.directory, name))
  }

  lemma ClaimsIff(file: SourceFile, name: string, matches: (string, string) -> bool)
    ensures Claims(file, name, matches) <==> Belongs(file, name, matches)
  {
    if n :| n in file.pluginNames && matches(n, name) {
      var i :| 0 <= i < |file.pluginNames| && file.pluginNames[i] == n;
    }
  }

  lemma RegisteredMeans(name: string, sources: seq<SourceFile>, matches: (string, string) -> bool)
    ensures Registered(name, sources, matches).matched <==>
      exists i :: 0 <= i < |sources| && Claims(sources[i], name, matches)
    ensures forall hook :: hook in Registered(name, sources, matches).hooks <==>
      exists i :: 0 <= i < |sources| && Claims(sources[i], name, matches) && hook in sources[i].hooks
  {
    forall file {
      ClaimsIff(file, name, matches);
    }
    forall hook | hook in Registered(name, sources, matches).hooks
      ensures exists i :: 0 <= i < |sources| && Claims(sources[i], name, matches) && hook in sources[i].hooks
    {
      var file :| file in sources && Belongs(file, name, matches) && hook in file.hooks;
      var i :| 0 <= i < |sources| && sources[i] == file;
    }
  }

  method PluginRegistration(name: string, sources: seq<SourceFile>, matches: (string, string) -> bool)
    returns (registration: Registration)
    ensures registration == Registered(name, sources, matches)
    ensures registration.matched <==> exists i :: 0 <= i < |sources| && Claims(sources[i], name, matches)
    ensures forall hook :: hook in registration.hooks <==>
      exists i :: 0 <= i < |sources| && Claims(sources[i], name, matches) && hook in sources[i].hooks
  {
    registration := Registration(false, {});
    for i := 0 to |sources|
      invariant registration == Registered(name, sources[..i], matches)
    {
      assert sources[..i + 1] == sources[..i] + [sources[i]];
      var mine := SourceBelongsToPlugin(sources[i], name, matches);
      if !mine {
        continue;
      }
      var hooks := registration.hooks;
      for h := 0 to |sources[i].hooks|
        invariant hooks == registration.hooks + (set hook | hook in sources[i].hooks[..h])
      {
        hooks := hooks + {sources[i].hooks[h]};
      }
      assert sources[i].hooks[..|sources[i].hooks|] == sources[i].hooks;
      registration := Registration(true, hooks);
    }
    assert sources[..|sources|] == sources;
    RegisteredMeans(name, sources, matches);
  }

  /** Everything the inventory is computed from; `registrations` maps a plugin name to what the branch registers. */
  datatype Inventory = Inventory(
    table: map<string, seq<Definition>>, policy: Policy,
    registrations: string -> Registration, defaults: Result<map<string, bool>, string>)

  // ---- One row -------------------------------------------------------------

  const UNMATCHED := OtherHook("source hook registration")

  datatype Row = Row(
    action: string, phase: nat, tier: nat, order: nat, plugin: string, hook: Hook,
    enabled: bool, enabledDeterminate: bool, passed: bool, determinate: bool)

  /** The effective switch of a hook, if it is known: explicit value, then branch default. */
  function EffectiveOption(plugin: Plugin, option: string, defaults: Result<map<string, bool>, string>): Option<bool> {
    if option == "" then Some(true)
    else if option in plugin.explicitOptions then Some(plugin.explicitOptions[option])
    else if option in plugin.optionKeys then None
    else if defaults.Err? then None
    else if option in defaults.value then Some(defaults.value[option])
    else None
  }

  function HookRow(
    action: string, phase: nat, plugin: Plugin, definition: Definition, defaults: Result<map<string, bool>, string>)
    : Row
  {
    var option := EffectiveOption(plugin, definition.option, defaults);
    var off := option == Some(false);
    Row(action, phase, plugin.tier, plugin.order, plugin.name, definition.name,
        GetOr(option, false), option.Some?, off, off)
  }

  function UnmatchedRow(action: string, phase: nat, plugin: Plugin): Row {
    Row(action, phase, plugin.tier, plugin.order, plugin.name, UNMATCHED, false, false, false, false)
  }

  // ---- Positions -----------------------------------------------------------

  /** A visit of the four nested loops: action, hook, tier, plugin. */
  datatype Position = Position(action: nat, phase: nat, tier: nat, slot: nat)

  predicate Lt(p: Position, q: Position) {
    || p.action < q.action
    || (p.action == q.action && (p.phase < q.phase
        || (p.phase == q.phase && (p.tier < q.tier
            || (p.tier == q.tier && p.slot < q.slot)))))
  }

  predicate Valid(inv: Inventory, q: Position) {
    && q.action < |inv.policy.actions| && inv.policy.actions[q.action] in inv.table
    && q.phase < |inv.table[inv.policy.actions[q.action]]|
    && q.tier < |inv.policy.tiers| && q.slot < |inv.policy.tiers[q.tier]|
  }

  function PluginAt(inv: Inventory, q: Position): Plugin
    requires Valid(inv, q)
  {
    inv.policy.tiers[q.tier][q.slot]
  }

  function DefinitionAt(inv: Inventory, q: Position): Definition
    requires Valid(inv, q)
  {
    inv.table[inv.policy.actions[q.action]][q.phase]
  }

  /** The plugin was visited before under the same action. */
  ghost predicate Seen(inv: Inventory, q: Position, key: Key) {
    exists p :: Valid(inv, p) && p.action == q.action && Lt(p, q) && KeyOf(PluginAt(inv, p)) == key
  }

  ghost predicate Emits(inv: Inventory, q: Position)
    requires Valid(inv, q)
  {
    var plugin := PluginAt(inv, q);
    var registration := inv.registrations(plugin.name);
    if registration.matched then DefinitionAt(inv, q).name in registration.hooks
    else !Seen(inv, q, KeyOf(plugin))
  }

  function RowAt(inv: Inventory, q: Position): Row
    requires Valid(inv, q)
  {
    var plugin := PluginAt(inv, q);
    var action := inv.policy.actions[q.action];
    if inv.registrations(plugin.name).matched
    then HookRow(action, q.phase, plugin, DefinitionAt(inv, q), inv.defaults)
    else UnmatchedRow(action, q.phase, plugin)
  }

  /** `at` lists, in order, exactly the emitting positions before `end`. */
  ghost predicate Lists(inv: Inventory, at: seq<Position>, end: Position) {
    && (forall i :: 0 <= i < |at| ==> Valid(inv, at[i]) && Lt(at[i], end) && Emits(inv, at[i]))
    && (forall i, j :: 0 <= i < j < |at| ==> Lt(at[i], at[j]))
    && (forall q :: Valid(inv, q) && Lt(q, end) && Emits(inv, q) ==> q in at)
  }

  ghost predicate RowsAt(inv: Inventory, at: seq<Position>, rows: seq<Row>) {
    && |at| == |rows|
    && (forall i :: 0 <= i < |at| ==> Valid(inv, at[i]) && rows[i] == RowAt(inv, at[i]))
  }

  function End(policy: Policy): Position {
    Position(|policy.actions|, 0, 0, 0)
  }

  /** What the inventory must be: one row per emitting position, in position order. */
  ghost predicate IsInventory(inv: Inventory, rows: seq<Row>) {
    exists at :: Lists(inv, at, End(inv.policy)) && RowsAt(inv, at, rows)
  }

  // ---- The loops -----------------------------------------------------------

  /** The keys reported as unmatched under the current action. */
  ghost predicate Reports(inv: Inventory, reported: set<Key>, q: Position) {
    forall key :: key in reported <==> Seen(inv, q, key) && !inv.registrations(key.name).matched
  }

  lemma Emit(inv: Inventory, at: seq<Position>, q: Position)
    requires Lists(inv, at, q) && Valid(inv, q) && Emits(inv, q)
    ensures Lists(inv, at + [q], q.(slot := q.slot + 1))
  {
  }

  lemma Skip(inv: Inventory, at: seq<Position>, q: Position)
    requires Lists(inv, at, q) && Valid(inv, q) && !Emits(inv, q)
    ensures Lists(inv, at, q.(slot := q.slot + 1))
  {
  }

  /** No visit lies between the end of an inner loop and the next round of the loop around it. */
  predicate NothingBetween(inv: Inventory, q: Position, next: Position) {
    var policy := inv.policy;
    || (next == q.(tier := q.tier + 1, slot := 0) && (q.tier < |policy.tiers| ==> q.slot >= |policy.tiers[q.tier]|))
    || (next == Position(q.action, q.phase + 1, 0, 0) && q.tier >= |policy.tiers|)
    || (next == Position(q.action + 1, 0, 0, 0) && q.action < |policy.actions|
        && (policy.actions[q.action] in inv.table ==> q.phase >= |inv.table[policy.actions[q.action]]|))
  }

  lemma Carry(inv: Inventory, at: seq<Position>, q: Position, next: Position)
    requires Lists(inv, at, q) && NothingBetween(inv, q, next)
    ensures Lists(inv, at, next)
  {
  }

  lemma NextReports(inv: Inventory, reported: set<Key>, q: Position)
    requires Reports(inv, reported, q) && Valid(inv, q)
    ensures var plugin := PluginAt(inv, q);
      var after := if inv.registrations(plugin.name).matched then reported else reported + {KeyOf(plugin)};
      Reports(inv, after, q.(slot := q.slot + 1))
  {
  }

  lemma NothingReported(inv: Inventory, action: nat)
    ensures Reports(inv, {}, Position(action, 0, 0, 0))
  {
  }

  /** The state of the walk on arrival at `q`: the rows so far and the unmatched keys of this action. */
  ghost predicate Arrived(inv: Inventory, at: seq<Position>, rows: seq<Row>, reported: set<Key>, q: Position) {
    Lists(inv, at, q) && RowsAt(inv, at, rows) && Reports(inv, reported, q)
  }

  lemma CarryOn(inv: Inventory, at: seq<Position>, rows: seq<Row>, reported: set<Key>, q: Position, next: Position)
    requires Arrived(inv, at, rows, reported, q) && NothingBetween(inv, q, next) && next.action == q.action
    ensures Arrived(inv, at, rows, reported, next)
  {
  }

  method InspectPlugin(inv: Inventory, ghost at: seq<Position>, rows: seq<Row>, reported: set<Key>, q: Position)
    returns (ghost at': seq<Position>, rows': seq<Row>, reported': set<Key>)
    requires Valid(inv, q) && Arrived(inv, at, rows, reported, q)
    ensures Arrived(inv, at', rows', reported', q.(slot := q.slot + 1))
  {
    at', rows', reported' := at, rows, reported;
    var plugin := PluginAt(inv, q);
    var key := KeyOf(plugin);
    var registration := inv.registrations(plugin.name);
    NextReports(inv, reported, q);
    if !registration.matched {
      if key in reported {
        assert reported + {key} == reported;
        Skip(inv, at, q);
        return;
      }
      Emit(inv, at, q);
      reported' := reported + {key};
      at' := at + [q];
      rows' := rows + [UnmatchedRow(inv.policy.actions[q.action], q.phase, plugin)];
      return;
    }
    var definition := DefinitionAt(inv, q);
    if definition.name !in registration.hooks {
      Skip(inv, at, q);
      return;
    }
    Emit(inv, at, q);
    at' := at + [q];
    rows' := rows + [HookRow(inv.policy.actions[q.action], q.phase, plugin, definition, inv.defaults)];
  }

  /** The plugins of one tier. */
  method InspectTier(
    inv: Inventory, ghost at: seq<Position>, rows: seq<Row>, reported: set<Key>, a: nat, p: nat, t: nat)
    returns (ghost at': seq<Position>, rows': seq<Row>, reported': set<Key>)
    requires a < |inv.policy.actions| && inv.policy.actions[a] in inv.table && p < |inv.table[inv.policy.actions[a]]|
    requires t < |inv.policy.tiers| && Arrived(inv, at, rows, reported, Position(a, p, t, 0))
    ensures Arrived(inv, at', rows', reported', Position(a, p, t + 1, 0))
  {
    at', rows', reported' := at, rows, reported;
    for s := 0 to |inv.policy.tiers[t]|
      invariant Arrived(inv, at', rows', reported', Position(a, p, t, s))
    {
      at', rows', reported' := InspectPlugin(inv, at', rows', reported', Position(a, p, t, s));
    }
    CarryOn(inv, at', rows', reported', Position(a, p, t, |inv.policy.tiers[t]|), Position(a, p, t + 1, 0));
  }

  /** One hook of one action: all tiers and plugins. */
  method InspectHook(inv: Inventory, ghost at: seq<Position>, rows: seq<Row>, reported: set<Key>, a: nat, p: nat)
    returns (ghost at': seq<Position>, rows': seq<Row>, reported': set<Key>)
    requires a < |inv.policy.actions| && inv.policy.actions[a] in inv.table && p < |inv.table[inv.policy.actions[a]]|
    requires Arrived(inv, at, rows, reported, Position(a, p, 0, 0))
    ensures Arrived(inv, at', rows', reported', Position(a, p + 1, 0, 0))
  {
    at', rows', reported' := at, rows, reported;
    for t := 0 to |inv.policy.tiers|
      invariant Arrived(inv, at', rows', reported', Position(a, p, t, 0))
    {
      at', rows', reported' := InspectTier(inv, at', rows', reported', a, p, t);
    }
    CarryOn(inv, at', rows', reported', Position(a, p, |inv.policy.tiers|, 0), Position(a, p + 1, 0, 0));
  }

  method InspectPluginHooks(inv: Inventory) returns (rows: seq<Row>)
    ensures IsInventory(inv, rows)
  {
    var policy := inv.policy;
    rows := [];
    ghost var at: seq<Position> := [];
    if |policy.actions| == 0 || |policy.tiers| == 0 {
      assert Lists(inv, at, End(policy)) && RowsAt(inv, at, rows);
      return;
    }
    for a := 0 to |policy.actions|
      invariant Lists(inv, at, Position(a, 0, 0, 0)) && RowsAt(inv, at, rows)
    {
      if policy.actions[a] !in inv.table {
        Carry(inv, at, Position(a, 0, 0, 0), Position(a + 1, 0, 0, 0));
        continue;
      }
      var definitions := inv.table[policy.actions[a]];
      var reported: set<Key> := {};
      NothingReported(inv, a);
      for p := 0 to |definitions|
        invariant Arrived(inv, at, rows, reported, Position(a, p, 0, 0))
      {
        at, rows, reported := InspectHook(inv, at, rows, reported, a, p);
      }
      Carry(inv, at, Position(a, |definitions|, 0, 0), Position(a + 1, 0, 0, 0));
    }
  }

  // ---- What the inventory says ---------------------------------------------

  /** Two position lists of the same walk are the same list, so the rows are determined. */
  lemma {:induction false} SameList(inv: Inventory, xs: seq<Position>, ys: seq<Position>, end: Position)
    requires Lists(inv, xs, end) && Lists(inv, ys, end)
    ensures xs == ys
    decreases |xs| + |ys|
  {
    assert xs != [] ==> xs[0] in ys;
    assert ys != [] ==> ys[0] in xs;
    if xs == [] || ys == [] {
      return;
    }
    var p, q := xs[|xs| - 1], ys[|ys| - 1];
    LastIsGreatest(inv, xs, end, q);
    LastIsGreatest(inv, ys, end, p);
    DropLast(inv, xs, end);
    DropLast(inv, ys, end);
    SameList(inv, xs[..|xs| - 1], ys[..|ys| - 1], p);
    assert xs == xs[..|xs| - 1] + [p] && ys == ys[..|ys| - 1] + [q];
  }

  lemma LastIsGreatest(inv: Inventory, xs: seq<Position>, end: Position, q: Position)
    requires Lists(inv, xs, end) && q in xs
    ensures q == xs[|xs| - 1] || Lt(q, xs[|xs| - 1])
  {
  }

  lemma DropLast(inv: Inventory, xs: seq<Position>, end: Position)
    requires Lists(inv, xs, end) && xs != []
    ensures Lists(inv, xs[..|xs| - 1], xs[|xs| - 1])
  {
  }

  lemma InventoryIsDetermined(inv: Inventory, rows: seq<Row>, others: seq<Row>)
    requires IsInventory(inv, rows) && IsInventory(inv, others)
    ensures rows == others
  {
    var at: seq<Position> :| Lists(inv, at, End(inv.policy)) && RowsAt(inv, at, rows);
    var bt: seq<Position> :| Lists(inv, bt, End(inv.policy)) && RowsAt(inv, bt, others);
    SameList(inv, at, bt, End(inv.policy));
  }

  lemma RowTellsPosition(inv: Inventory, q: Position)
    requires WellIndexed(inv.policy) && Valid(inv, q)
    ensures var row := RowAt(inv, q);
      row.action == inv.policy.actions[q.action] && row.phase == q.phase && row.tier == q.tier && row.order == q.slot
  {
  }

  predicate InDecisionOrder(policy: Policy, a: nat, r: Row, b: nat, s: Row) {
    && a < |policy.actions| && r.action == policy.actions[a]
    && b < |policy.actions| && s.action == policy.actions[b]
    && Lt(Position(a, r.phase, r.tier, r.order), Position(b, s.phase, s.tier, s.order))
  }

  /**
   Rows come in the order of the walk. Each row prints its own place: the action
   standing at that index, the hook's number, the tier and the plugin's number.
   */
  lemma RowsFollowTheDecisionOrder(inv: Inventory, at: seq<Position>, rows: seq<Row>, i: nat, j: nat)
    requires Lists(inv, at, End(inv.policy)) && RowsAt(inv, at, rows) && WellIndexed(inv.policy) && i < j < |rows|
    ensures InDecisionOrder(inv.policy, at[i].action, rows[i], at[j].action, rows[j])
  {
    RowTellsPosition(inv, at[i]);
    RowTellsPosition(inv, at[j]);
  }

  /** A matched plugin has a row at a hook of an action exactly when it registers that hook. */
  lemma MatchedRowIffRegistered(inv: Inventory, at: seq<Position>, rows: seq<Row>, q: Position)
    requires Lists(inv, at, End(inv.policy)) && RowsAt(inv, at, rows) && Valid(inv, q)
    requires inv.registrations(PluginAt(inv, q).name).matched
    ensures q in at <==> DefinitionAt(inv, q).name in inv.registrations(PluginAt(inv, q).name).hooks
  {
  }

  /** An unmatched plugin has exactly one row per occurrence of a supported action: at its first hook. */
  lemma UnmatchedRowIffFirstHook(inv: Inventory, at: seq<Position>, rows: seq<Row>, q: Position)
    requires Lists(inv, at, End(inv.policy)) && RowsAt(inv, at, rows) && Valid(inv, q)
    requires WellIndexed(inv.policy) && !inv.registrations(PluginAt(inv, q).name).matched
    ensures q in at <==> q.phase == 0
  {
    assert Lt(q, End(inv.policy));
    var key := KeyOf(PluginAt(inv, q));
    assert forall p | Valid(inv, p) && p.action == q.action && KeyOf(PluginAt(inv, p)) == key ::
      p.tier == q.tier && p.slot == q.slot;
    if q.phase > 0 {
      var first := q.(phase := 0);
      assert Valid(inv, first) && Lt(first, q) && KeyOf(PluginAt(inv, first)) == key;
    }
  }

  /**
   A matched plugin's row, field by field, from the configuration and the branch:
   the switch is known if there is none, the plugin sets it, or the plugin does not
   mention it and the branch has a default, and in this order it gets its value.
   */
  lemma MatchedRowSays(inv: Inventory, at: seq<Position>, rows: seq<Row>, i: nat)
    requires Lists(inv, at, End(inv.policy)) && RowsAt(inv, at, rows) && i < |rows|
    requires inv.registrations(inv.policy.tiers[at[i].tier][at[i].slot].name).matched
    ensures var q, row, defaults := at[i], rows[i], inv.defaults;
      var plugin, definition :=
        inv.policy.tiers[q.tier][q.slot], inv.table[inv.policy.actions[q.action]][q.phase];
      var option := definition.option;
      && row.action == inv.policy.actions[q.action] && row.phase == q.phase && row.hook == definition.name
      && row.tier == plugin.tier && row.order == plugin.order && row.plugin == plugin.name
      && (row.enabledDeterminate <==>
        || option == "" || option in plugin.explicitOptions
        || (option !in plugin.optionKeys && defaults.Ok? && option in defaults.value))
      && (row.enabled <==>
        || option == ""
        || (option in plugin.explicitOptions && plugin.explicitOptions[option])
        || (option !in plugin.explicitOptions && option !in plugin.optionKeys
            && defaults.Ok? && option in defaults.value && defaults.value[option]))
      && row.passed == row.determinate == (row.enabledDeterminate && !row.enabled)
  {
  }

  lemma UnmatchedRowSays(inv: Inventory, at: seq<Position>, rows: seq<Row>, i: nat)
    requires Lists(inv, at, End(inv.policy)) && RowsAt(inv, at, rows) && i < |rows|
    requires !inv.registrations(inv.policy.tiers[at[i].tier][at[i].slot].name).matched
    ensures var q, row := at[i], rows[i];
      var plugin := inv.policy.tiers[q.tier][q.slot];
      && row.action == inv.policy.actions[q.action] && row.phase == q.phase
      && row.hook == OtherHook("source hook registration")
      && row.tier == plugin.tier && row.order == plugin.order && row.plugin == plugin.name
      && !row.enabled && !row.enabledDeterminate && !row.passed && !row.determinate
  {
  }

  /** The only verdict the inventory ever gives is "passed because it is switched off". */
  lemma DeterminateIffProvenOff(inv: Inventory, rows: seq<Row>, i: nat)
    requires IsInventory(inv, rows) && i < |rows|
    ensures rows[i].determinate == rows[i].passed == (rows[i].enabledDeterminate && !rows[i].enabled)
  {
  }

  // ---- One check per plugin and hook ---------------------------------------

  /** The key under which `pluginHookChecks` removes duplicates. */
  datatype HookKey = HookKey(tier: nat, order: nat, plugin: string, hook: Hook)

  function HookKeyOf(row: Row): HookKey {
    HookKey(row.tier, row.order, row.plugin, row.hook)
  }

  predicate Wanted(row: Row, actions: set<string>, hooks: set<Hook>) {
    row.action in actions && row.hook in hooks
  }

  /** `id` prints the check ID, which depends on the key alone. */
  function HookCheck(row: Row, stage: string, id: HookKey -> string): Check {
    if !row.enabledDeterminate then Unknown(id(HookKeyOf(row)), stage)
    else if !row.enabled then Skipped(id(HookKeyOf(row)), stage)
    else if row.determinate then Known(id(HookKeyOf(row)), stage, row.passed)
    else Unknown(id(HookKeyOf(row)), stage)
  }

  function WantedKeys(rows: seq<Row>, actions: set<string>, hooks: set<Hook>): set<HookKey> {
    set row | row in rows && Wanted(row, actions, hooks) :: HookKeyOf(row)
  }

  /** The wanted rows whose key did not occur among the wanted rows before. */
  function FirstRows(rows: seq<Row>, actions: set<string>, hooks: set<Hook>): seq<Row> {
    if rows == [] then []
    else
      var before, row := FirstRows(rows[..|rows| - 1], actions, hooks), rows[|rows| - 1];
      if Wanted(row, actions, hooks) && HookKeyOf(row) !in WantedKeys(rows[..|rows| - 1], actions, hooks)
      then before + [row] else before
  }

  function Checked(rows: seq<Row>, stage: string, id: HookKey -> string): seq<Check> {
    seq(|rows|, i requires 0 <= i < |rows| => HookCheck(rows[i], stage, id))
  }

  lemma CheckedNext(rows: seq<Row>, row: Row, stage: string, id: HookKey -> string)
    ensures Checked(rows + [row], stage, id) == Checked(rows, stage, id) + [HookCheck(row, stage, id)]
  {
  }

  /** A row of a wanted hook and action, with no such row of the same plugin and hook before it. */
  predicate FirstOfKey(rows: seq<Row>, i: int, actions: set<string>, hooks: set<Hook>) {
    && 0 <= i < |rows| && rows[i].action in actions && rows[i].hook in hooks
    && forall j :: 0 <= j < i && rows[j].action in actions ==>
      !(rows[j].hook == rows[i].hook && rows[j].plugin == rows[i].plugin
        && rows[j].tier == rows[i].tier && rows[j].order == rows[i].order)
  }

  /** Skipped when known to be off, as the row has it when known to be on, and open otherwise. */
  predicate ChecksRow(c: Check, row: Row, stage: string, id: HookKey -> string) {
    var known := row.enabledDeterminate;
    && c.id == id(HookKey(row.tier, row.order, row.plugin, row.hook)) && c.stage == stage && c.wouldPass.None?
    && c.skipped == (known && !row.enabled)
    && c.determinate == (known && (!row.enabled || row.determinate))
    && c.passed == (known && (!row.enabled || (row.determinate && row.passed)))
  }

  lemma {:induction false} FirstRowsMean(rows: seq<Row>, actions: set<string>, hooks: set<Hook>)
    ensures forall row <- FirstRows(rows, actions, hooks) ::
      exists i :: FirstOfKey(rows, i, actions, hooks) && rows[i] == row
    ensures forall i :: FirstOfKey(rows, i, actions, hooks) ==> rows[i] in FirstRows(rows, actions, hooks)
  {
    if rows != [] {
      var before, last := rows[..|rows| - 1], rows[|rows| - 1];
      FirstRowsMean(before, actions, hooks);
      forall i | 0 <= i < |before|
        ensures FirstOfKey(rows, i, actions, hooks) <==> FirstOfKey(before, i, actions, hooks)
      {
      }
      LastIsFirst(rows, actions, hooks);
      forall row | row in FirstRows(rows, actions, hooks)
        ensures exists i :: FirstOfKey(rows, i, actions, hooks) && rows[i] == row
      {
        if row in FirstRows(before, actions, hooks) {
          var i :| FirstOfKey(before, i, actions, hooks) && before[i] == row;
          assert FirstOfKey(rows, i, actions, hooks);
        } else {
          assert FirstOfKey(rows, |before|, actions, hooks);
        }
      }
    }
  }

  lemma LastIsFirst(rows: seq<Row>, actions: set<string>, hooks: set<Hook>)
    requires rows != []
    ensures var before, last := rows[..|rows| - 1], rows[|rows| - 1];
      FirstOfKey(rows, |before|, actions, hooks) <==>
        Wanted(last, actions, hooks) && HookKeyOf(last) !in WantedKeys(before, actions, hooks)
  {
    var before, last := rows[..|rows| - 1], rows[|rows| - 1];
    if HookKeyOf(last) in WantedKeys(before, actions, hooks) {
      var row :| row in before && Wanted(row, actions, hooks) && HookKeyOf(row) == HookKeyOf(last);
      var j :| 0 <= j < |before| && before[j] == row;
    } else {
      forall j | 0 <= j < |before| && Wanted(rows[j], actions, hooks) ensures HookKeyOf(rows[j]) != HookKeyOf(last) {
        assert rows[j] in before;
      }
    }
  }

  method PluginHookChecks(rows: seq<Row>, actions: set<string>, hooks: set<Hook>, stage: string, id: HookKey -> string)
    returns (checks: seq<Check>)
    ensures checks == Checked(FirstRows(rows, actions, hooks), stage, id)
    ensures forall c <- checks :: exists i :: FirstOfKey(rows, i, actions, hooks) && ChecksRow(c, rows[i], stage, id)
    ensures forall i :: FirstOfKey(rows, i, actions, hooks) ==> exists c <- checks :: ChecksRow(c, rows[i], stage, id)
  {
    checks := [];
    var seen: set<HookKey> := {};
    for i := 0 to |rows|
      invariant seen == WantedKeys(rows[..i], actions, hooks)
      invariant checks == Checked(FirstRows(rows[..i], actions, hooks), stage, id)
    {
      var row := rows[i];
      assert rows[..i + 1][..i] == rows[..i];
      assert rows[..i + 1] == rows[..i] + [row];
      if row.action !in actions || row.hook !in hooks {
        continue;
      }
      var key := HookKeyOf(row);
      if key in seen {
        continue;
      }
      seen := seen + {key};
      CheckedNext(FirstRows(rows[..i], actions, hooks), row, stage, id);
      if !row.enabledDeterminate {
        checks := checks + [Unknown(id(key), stage)];
      } else if !row.enabled {
        checks := checks + [Skipped(id(key), stage)];
      } else if row.determinate {
        checks := checks + [Known(id(key), stage, row.passed)];
      } else {
        checks := checks + [Unknown(id(key), stage)];
      }
    }
    assert rows[..|rows|] == rows;
    AllRowsAreChecked(rows, actions, hooks, stage, id);
  }

  lemma AllRowsAreChecked(rows: seq<Row>, actions: set<string>, hooks: set<Hook>, stage: string, id: HookKey -> string)
    ensures var checks := Checked(FirstRows(rows, actions, hooks), stage, id);
      && (forall c <- checks :: exists i :: FirstOfKey(rows, i, actions, hooks) && ChecksRow(c, rows[i], stage, id))
      && (forall i :: FirstOfKey(rows, i, actions, hooks) ==> exists c <- checks :: ChecksRow(c, rows[i], stage, id))
  {
    var first := FirstRows(rows, actions, hooks);
    var checks := Checked(first, stage, id);
    FirstRowsMean(rows, actions, hooks);
    forall c | c in checks ensures exists i :: FirstOfKey(rows, i, actions, hooks) && ChecksRow(c, rows[i], stage, id) {
      var k :| 0 <= k < |checks| && checks[k] == c;
      assert first[k] in first;
      var i :| FirstOfKey(rows, i, actions, hooks) && rows[i] == first[k];
    }
    forall i | FirstOfKey(rows, i, actions, hooks) ensures exists c <- checks :: ChecksRow(c, rows[i], stage, id) {
      var k :| 0 <= k < |first| && first[k] == rows[i];
      assert checks[k] in checks;
    }
  }

  predicate Holds(kept: seq<Row>, key: HookKey) {
    exists i :: 0 <= i < |kept| && HookKeyOf(kept[i]) == key
  }

  lemma WantedKeysNext(rows: seq<Row>, n: nat, actions: set<string>, hooks: set<Hook>)
    requires n < |rows|
    ensures WantedKeys(rows[..n + 1], actions, hooks) ==
      WantedKeys(rows[..n], actions, hooks) + if Wanted(rows[n], actions, hooks) then {HookKeyOf(rows[n])} else {}
  {
  }

  /** The kept rows hold exactly the wanted keys, each once. */
  lemma {:induction false} KeptKeys(rows: seq<Row>, n: nat, actions: set<string>, hooks: set<Hook>)
    requires n <= |rows|
    ensures var kept := FirstRows(rows[..n], actions, hooks);
      && (forall key :: Holds(kept, key) <==> key in WantedKeys(rows[..n], actions, hooks))
      && (forall i, j :: 0 <= i < j < |kept| ==> HookKeyOf(kept[i]) != HookKeyOf(kept[j]))
  {
    if n > 0 {
      KeptKeys(rows, n - 1, actions, hooks);
      WantedKeysNext(rows, n - 1, actions, hooks);
      assert rows[..n][..n - 1] == rows[..n - 1];
      var before, kept := FirstRows(rows[..n - 1], actions, hooks), FirstRows(rows[..n], actions, hooks);
      forall i | 0 <= i < |before| ensures Holds(before, HookKeyOf(before[i])) {
      }
      forall key ensures Holds(kept, key) <==> Holds(before, key) || (kept != before && key == HookKeyOf(rows[n - 1])) {
        if Holds(before, key) {
          var i :| 0 <= i < |before| && HookKeyOf(before[i]) == key;
          assert kept[i] == before[i];
        }
        if kept != before {
          assert kept[|before|] == rows[n - 1];
        }
      }
    }
  }

  lemma {:induction false} KeptRowsAreWanted(rows: seq<Row>, actions: set<string>, hooks: set<Hook>)
    ensures forall row <- FirstRows(rows, actions, hooks) :: row in rows && Wanted(row, actions, hooks)
  {
    if rows != [] {
      KeptRowsAreWanted(rows[..|rows| - 1], actions, hooks);
    }
  }

  /** One row is kept for every wanted key. */
  lemma EveryKeyOnce(rows: seq<Row>, actions: set<string>, hooks: set<Hook>, key: HookKey)
    requires key in WantedKeys(rows, actions, hooks)
    ensures var kept := FirstRows(rows, actions, hooks);
      exists i :: 0 <= i < |kept| && HookKeyOf(kept[i]) == key && kept[i] in rows
        && forall j :: 0 <= j < |kept| && HookKeyOf(kept[j]) == key ==> j == i
  {
    assert rows[..|rows|] == rows;
    KeptKeys(rows, |rows|, actions, hooks);
    KeptRowsAreWanted(rows, actions, hooks);
    var kept := FirstRows(rows, actions, hooks);
    assert Holds(kept, key);
    var i :| 0 <= i < |kept| && HookKeyOf(kept[i]) == key;
    assert kept[i] in kept;
  }

  /** The check of a hook row, computed from the plugin and the hook alone. */
  function PluginCheck(inv: Inventory, tier: nat, order: nat, hook: Hook, stage: string, id: HookKey -> string): Check
    requires tier < |inv.policy.tiers| && order < |inv.policy.tiers[tier]|
  {
    var plugin := inv.policy.tiers[tier][order];
    var key := HookKey(tier, order, plugin.name, hook);
    if EffectiveOption(plugin, HookOption(hook), inv.defaults) == Some(false) then Skipped(id(key), stage)
    else Unknown(id(key), stage)
  }

  lemma CheckDependsOnKey(inv: Inventory, q: Position, stage: string, id: HookKey -> string)
    requires WellIndexed(inv.policy) && ConsistentTable(inv.table)
    requires Valid(inv, q) && RowAt(inv, q).hook != UNMATCHED
    ensures HookCheck(RowAt(inv, q), stage, id) == PluginCheck(inv, q.tier, q.slot, RowAt(inv, q).hook, stage, id)
  {
  }

  /** Equal keys carry equal verdicts, whichever actions the rows come from. */
  lemma EqualKeysAgree(inv: Inventory, rows: seq<Row>, i: nat, j: nat, stage: string, id: HookKey -> string)
    requires IsInventory(inv, rows) && WellIndexed(inv.policy) && ConsistentTable(inv.table)
    requires i < |rows| && j < |rows| && HookKeyOf(rows[i]) == HookKeyOf(rows[j])
    ensures rows[i].hook != UNMATCHED ==> HookCheck(rows[i], stage, id) == HookCheck(rows[j], stage, id)
  {
    var at: seq<Position> :| Lists(inv, at, End(inv.policy)) && RowsAt(inv, at, rows);
    RowTellsPosition(inv, at[i]);
    RowTellsPosition(inv, at[j]);
    if rows[i].hook != UNMATCHED {
      CheckDependsOnKey(inv, at[i], stage, id);
      CheckDependsOnKey(inv, at[j], stage, id);
    }
  }

  lemma SameKeyKept(rows: seq<Row>, actions: set<string>, hooks: set<Hook>, j: nat) returns (k: nat, i: nat)
    requires j < |rows| && Wanted(rows[j], actions, hooks)
    ensures k < |rows| && i < |FirstRows(rows, actions, hooks)|
    ensures FirstRows(rows, actions, hooks)[i] == rows[k] && HookKeyOf(rows[k]) == HookKeyOf(rows[j])
  {
    var kept, key := FirstRows(rows, actions, hooks), HookKeyOf(rows[j]);
    assert rows[j] in rows;
    EveryKeyOnce(rows, actions, hooks, key);
    i :| 0 <= i < |kept| && HookKeyOf(kept[i]) == key && kept[i] in rows;
    k :| 0 <= k < |rows| && rows[k] == kept[i];
  }

  /** Removing duplicates across actions loses no verdict: every wanted row's check is among the result. */
  lemma DedupLosesNoVerdict(inv: Inventory, rows: seq<Row>, actions: set<string>, hooks: set<Hook>, stage: string,
                            id: HookKey -> string, j: nat)
    requires IsInventory(inv, rows) && WellIndexed(inv.policy) && ConsistentTable(inv.table)
    requires UNMATCHED !in hooks && j < |rows| && Wanted(rows[j], actions, hooks)
    ensures HookCheck(rows[j], stage, id) in Checked(FirstRows(rows, actions, hooks), stage, id)
  {
    var kept := FirstRows(rows, actions, hooks);
    var k, i := SameKeyKept(rows, actions, hooks, j);
    EqualKeysAgree(inv, rows, k, j, stage, id);
    assert Checked(kept, stage, id)[i] == HookCheck(rows[k], stage, id);
  }
}
