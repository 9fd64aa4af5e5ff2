/**
 The enqueue quota table and its verdict (internal/agent/presentation.go), and how
 they compose with the snapshot reconstructed from a cache dump.
 */
module QueueQuota {
  import opened Prelude
  import opened ResourceValues
  import opened Checks
  import opened CacheScan
  import opened QueueSnapshots
  import ResourceLists

  datatype QueueResourceValue = QueueResourceValue(
    row: SnapshotResource, candidate: Option<real>, available: Option<real>, required: Option<real>)

  type Table = map<string, QueueResourceValue>

  const BLANK := QueueResourceValue(EMPTY, None, None, None)

  function Or<T>(first: Option<T>, second: Option<T>): Option<T> {
    if first.Some? then first else second
  }

  /** `mergeQueueResourceValue`: what the source knows replaces what was there. */
  function Merge(old_: SnapshotResource, source: SnapshotResource): SnapshotResource {
    SnapshotResource(
      Or(source.capability, old_.capability), Or(source.deserved, old_.deserved), Or(source.alloc, old_.alloc),
      Or(source.request, old_.request), Or(source.inqueue, old_.inqueue), Or(source.elastic, old_.elastic))
  }

  /** A dimension with a capability reads its missing job figures as zero. */
  function ZeroFilled(r: SnapshotResource): SnapshotResource {
    if r.capability.None? then r
    else
      var zero := Some(0.0);
      r.(alloc := Or(r.alloc, zero), inqueue := Or(r.inqueue, zero),
         elastic := Or(r.elastic, zero), request := Or(r.request, zero))
  }

  function RowOf(table: Table, name: string): QueueResourceValue {
    if name in table then table[name] else BLANK
  }

  function MergeRows(rows: Rows, names: seq<string>): Table
    requires forall n :: n in names ==> n in rows
  {
    if names == [] then map[]
    else
      var before, last := MergeRows(rows, names[..|names| - 1]), names[|names| - 1];
      var name := ResourceLists.CanonicalName(last);
      before[name := RowOf(before, name).(row := Merge(RowOf(before, name).row, ZeroFilled(rows[last])))]
  }

  predicate RequestSpelling(name: string) {
    HasPrefix(ToLower(name), ResourceLists.PREFIX)
  }

  /** Plain names first, `requests.` spellings after them, each group in byte order. */
  ghost predicate MergeOrder(names: seq<string>, keys: set<string>) {
    && (forall n :: n in names <==> n in keys)
    && forall i, j :: 0 <= i < j < |names| ==> MergedBefore(names[i], names[j])
  }

  method SortNames(keys: set<string>) returns (names: seq<string>)
    ensures MergeOrder(names, keys)
  {
    var plain := SortedKeys(set k | k in keys && !RequestSpelling(k));
    var requests := SortedKeys(set k | k in keys && RequestSpelling(k));
    names := plain + requests;
    forall i, j | 0 <= i < j < |names|
      ensures MergedBefore(names[i], names[j])
    {
      assert if i < |plain| then names[i] in plain else names[i] in requests;
      assert if j < |plain| then names[j] in plain else names[j] in requests;
    }
  }

  function WithCandidate(v: QueueResourceValue, candidate: real): QueueResourceValue {
    var r := v.row;
    if r.capability.Some? && r.alloc.Some? && r.inqueue.Some? then
      var elastic := GetOr(r.elastic, 0.0);
      v.(candidate := Some(candidate),
         available := Some(r.capability.value - r.alloc.value - r.inqueue.value + elastic),
         required := Some(candidate + r.alloc.value + r.inqueue.value - elastic))
    else v.(candidate := Some(candidate))
  }

  function Proposed(table: Table, candidates: Values, n: string, now: bool): QueueResourceValue
    requires now ==> n in candidates
  {
    if now then WithCandidate(RowOf(table, n), candidates[n]) else RowOf(table, n)
  }

  function AddCandidates(table: Table, candidates: Values): Table {
    map n | n in table.Keys + candidates.Keys :: Proposed(table, candidates, n, n in candidates)
  }

  /** The table for these rows, merged in spelling order, with the candidates filled in if there are any. */
  ghost predicate IsTable(rows: Rows, minResources: Option<Values>, result: Table) {
    exists names :: MergeOrder(names, rows.Keys) && result ==
      match minResources
      case None => MergeRows(rows, names)
      case Some(candidates) => AddCandidates(MergeRows(rows, names), candidates)
  }

  method FillZeros(source: SnapshotResource) returns (value: SnapshotResource)
    ensures value == ZeroFilled(source)
  {
    value := source;
    if value.capability.Some? {
      if value.alloc.None? { value := value.(alloc := Some(0.0)); }
      if value.inqueue.None? { value := value.(inqueue := Some(0.0)); }
      if value.elastic.None? { value := value.(elastic := Some(0.0)); }
      if value.request.None? { value := value.(request := Some(0.0)); }
    }
  }

  method QueueResourceValues(rows: Rows, minResources: Option<Values>) returns (result: Table)
    ensures IsTable(rows, minResources, result)
  {
    var ordered := SortNames(rows.Keys);
    result := map[];
    for i := 0 to |ordered|
      invariant forall n :: n in ordered[..i] ==> n in rows
      invariant result == MergeRows(rows, ordered[..i])
    {
      assert ordered[..i + 1][..i] == ordered[..i];
      assert ordered[i] in ordered;
      var value := FillZeros(rows[ordered[i]]);
      var name := ResourceLists.CanonicalName(ordered[i]);
      var merged := RowOf(result, name);
      result := result[name := merged.(row := Merge(merged.row, value))];
    }
    assert ordered[..|ordered|] == ordered;
    if minResources.None? {
      return;
    }
    result := FillCandidates(result, minResources.value);
  }

  /** The order of two spellings in the merge. */
  predicate MergedBefore(a: string, b: string) {
    if RequestSpelling(a) == RequestSpelling(b) then Before(a, b) else RequestSpelling(b)
  }

  lemma MergeOrderIsStrict(a: string, b: string)
    ensures MergedBefore(a, b) ==> !MergedBefore(b, a)
  {
    if Before(a, b) && Before(b, a) {
      BeforeTransitive(a, b, a);
      BeforeIrreflexive(a);
    }
  }

  /** Spelling order leaves no choice, so the table does not depend on how Go visits the rows. */
  lemma {:induction false} MergeOrderIsUnique(p: seq<string>, q: seq<string>, keys: set<string>)
    requires MergeOrder(p, keys) && MergeOrder(q, keys)
    ensures p == q
    decreases |p|
  {
    assert p != [] ==> p[0] in keys;
    assert q != [] ==> q[0] in keys;
    if p == [] || q == [] {
      return;
    }
    var a, b := p[|p| - 1], q[|q| - 1];
    LastIsMergedLast(p, keys, b);
    LastIsMergedLast(q, keys, a);
    MergeOrderIsStrict(a, b);
    MergeOrderDropsLast(p, keys);
    MergeOrderDropsLast(q, keys);
    MergeOrderIsUnique(p[..|p| - 1], q[..|q| - 1], keys - {a});
    assert p == p[..|p| - 1] + [a] && q == q[..|q| - 1] + [b];
  }

  lemma LastIsMergedLast(p: seq<string>, keys: set<string>, n: string)
    requires MergeOrder(p, keys) && n in keys
    ensures p != [] && (n == p[|p| - 1] || MergedBefore(n, p[|p| - 1]))
  {
    assert n in p;
  }

  lemma MergeOrderDropsLast(p: seq<string>, keys: set<string>)
    requires MergeOrder(p, keys) && p != []
    ensures MergeOrder(p[..|p| - 1], keys - {p[|p| - 1]})
  {
    var n := |p| - 1;
    SpellingOrderHasNoDuplicates(p, keys);
    assert p == p[..n] + [p[n]];
    forall m ensures m in p[..n] <==> m in keys - {p[n]} {
      assert m in p <==> m in keys;
    }
  }

  lemma TableIsDetermined(rows: Rows, minResources: Option<Values>, a: Table, b: Table)
    requires IsTable(rows, minResources, a) && IsTable(rows, minResources, b)
    ensures a == b
  {
    var p :| MergeOrder(p, rows.Keys) && a ==
      match minResources
      case None => MergeRows(rows, p)
      case Some(candidates) => AddCandidates(MergeRows(rows, p), candidates);
    var q :| MergeOrder(q, rows.Keys) && b ==
      match minResources
      case None => MergeRows(rows, q)
      case Some(candidates) => AddCandidates(MergeRows(rows, q), candidates);
    MergeOrderIsUnique(p, q, rows.Keys);
  }

  /** The second loop of `queueResourceValues`. */
  method FillCandidates(table: Table, candidates: Values) returns (result: Table)
    ensures result == AddCandidates(table, candidates)
  {
    result := table;
    var rest := candidates.Keys;
    NoCandidates(table, candidates);
    while rest != {}
      invariant rest <= candidates.Keys
      invariant result == AddCandidates(table, Visited(candidates, rest))
      decreases |rest|
    {
      var name :| name in rest;
      AddOneCandidate(table, candidates, rest, name);
      result := result[name := WithCandidate(RowOf(result, name), candidates[name])];
      rest := rest - {name};
    }
    assert Visited(candidates, {}) == candidates;
  }

  lemma NoCandidates(table: Table, candidates: Values)
    ensures AddCandidates(table, Visited(candidates, candidates.Keys)) == table
  {
    assert Visited(candidates, candidates.Keys) == map[];
  }

  lemma AddOneCandidate(table: Table, candidates: Values, rest: set<string>, name: string)
    requires name in rest && name in candidates
    ensures var before := AddCandidates(table, Visited(candidates, rest));
            && RowOf(before, name) == RowOf(table, name)
            && AddCandidates(table, Visited(candidates, rest - {name}))
               == before[name := WithCandidate(RowOf(table, name), candidates[name])]
  {
    var before := AddCandidates(table, Visited(candidates, rest));
    assert name in before <==> name in table;
  }

  /** The table after merging: a dimension with a capability has all its figures, and nothing proposed yet. */
  predicate Settled(v: QueueResourceValue) {
    && v.candidate.None? && v.available.None? && v.required.None?
    && (v.row.capability.Some? ==>
      v.row.alloc.Some? && v.row.inqueue.Some? && v.row.elastic.Some? && v.row.request.Some?)
  }

  lemma {:induction false} MergedRowsSettle(rows: Rows, names: seq<string>)
    requires forall n :: n in names ==> n in rows
    ensures forall n :: n in MergeRows(rows, names) ==> Settled(MergeRows(rows, names)[n])
  {
    if names != [] {
      MergedRowsSettle(rows, names[..|names| - 1]);
    }
  }

  /** Names already in canonical form are merged with nothing. */
  lemma {:induction false} CanonicalRowsStaySeparate(rows: Rows, names: seq<string>)
    requires forall n :: n in names ==> n in rows && ResourceLists.CanonicalName(n) == n
    requires forall i, j :: 0 <= i < j < |names| ==> names[i] != names[j]
    ensures forall n :: n in MergeRows(rows, names) <==> n in names
    ensures forall n :: n in names ==> MergeRows(rows, names)[n] == BLANK.(row := ZeroFilled(rows[n]))
  {
    if names != [] {
      var before, last := names[..|names| - 1], names[|names| - 1];
      assert names == before + [last];
      CanonicalRowsStaySeparate(rows, before);
      assert last !in before;
      assert MergeRows(rows, names)[last].row == Merge(EMPTY, ZeroFilled(rows[last]));
    }
  }

  // ---- The verdict ---------------------------------------------------------

  const ID := "queue.enqueue-capacity"

  predicate Requested(v: QueueResourceValue) {
    v.candidate.Some? && v.candidate.value > 0.0
  }

  predicate Exceeds(v: QueueResourceValue) {
    Requested(v) && v.available.Some? && v.candidate.value > v.available.value
  }

  predicate Unmeasured(v: QueueResourceValue) {
    Requested(v) && v.available.None?
  }

  function Verdict(strategy: string, table: Table, snapshotFailed: bool, configurationDeterminate: bool): Check {
    if snapshotFailed || !configurationDeterminate then Unknown(ID, "enqueue")
    else if strategy == "" then Skipped(ID, "enqueue")
    else if exists n :: n in table && Unmeasured(table[n]) then Unknown(ID, "enqueue")
    else Known(ID, "enqueue", !exists n :: n in table && Exceeds(table[n]))
  }

  /** What is available is known for everything that is asked for. */
  predicate AllMeasured(table: Table) {
    forall n <- table :: table[n].candidate.Some? && table[n].candidate.value > 0.0 ==> table[n].available.Some?
  }

  /** Nothing that is asked for is more than what is available of it. */
  predicate AllWithin(table: Table) {
    forall n <- table :: table[n].candidate.Some? && table[n].candidate.value > 0.0 && table[n].available.Some? ==>
      table[n].candidate.value <= table[n].available.value
  }

  method QueueCapacityCheck(strategy: string, table: Table, snapshotFailed: bool, configurationDeterminate: bool)
    returns (check: Check)
    ensures check == Verdict(strategy, table, snapshotFailed, configurationDeterminate)
    ensures check.id == "queue.enqueue-capacity" && check.stage == "enqueue" && check.wouldPass.None?
    ensures check.skipped <==> !snapshotFailed && configurationDeterminate && strategy == ""
    ensures check.determinate <==> !snapshotFailed && configurationDeterminate && (strategy == "" || AllMeasured(table))
    ensures check.passed <==> check.determinate && (strategy == "" || AllWithin(table))
  {
    if snapshotFailed {
      return Unknown(ID, "enqueue");
    }
    if !configurationDeterminate {
      return Unknown(ID, "enqueue");
    }
    if strategy == "" {
      return Skipped(ID, "enqueue");
    }
    var missing: set<string>, uncertain: set<string> := {}, {};
    var rest := table.Keys;
    while rest != {}
      invariant rest <= table.Keys
      invariant missing == set n | n in table && n !in rest && Unmeasured(table[n])
      invariant uncertain == set n | n in table && n !in rest && Exceeds(table[n])
      decreases |rest|
    {
      var name :| name in rest;
      var value := table[name];
      rest := rest - {name};
      if value.candidate.None? || value.candidate.value <= 0.0 {
        continue;
      }
      if value.available.None? {
        missing := missing + {name};
        continue;
      }
      if value.candidate.value > value.available.value {
        uncertain := uncertain + {name};
      }
    }
    NonEmptyIff(table, missing, uncertain);
    if missing != {} {
      return Unknown(ID, "enqueue");
    }
    if uncertain != {} {
      return Known(ID, "enqueue", false);
    }
    return Known(ID, "enqueue", true);
  }

  lemma NonEmptyIff(table: Table, missing: set<string>, uncertain: set<string>)
    requires missing == set n | n in table && Unmeasured(table[n])
    requires uncertain == set n | n in table && Exceeds(table[n])
    ensures missing != {} <==> exists n :: n in table && Unmeasured(table[n])
    ensures uncertain != {} <==> exists n :: n in table && Exceeds(table[n])
  {
    assert forall n :: n in table && Unmeasured(table[n]) ==> n in missing;
    assert forall n :: n in table && Exceeds(table[n]) ==> n in uncertain;
  }

  /** What the jobs of the queue already hold of one dimension. */
  function Held(r: SnapshotResource): real {
    GetOr(r.alloc, 0.0) + GetOr(r.inqueue, 0.0) - GetOr(r.elastic, 0.0)
  }

  /** Both readings of the formula agree: `candidate <= available` and `required <= capability`. */
  lemma FormulaReadings(v: QueueResourceValue, candidate: real)
    requires Settled(v)
    ensures var w := WithCandidate(v, candidate);
            && (w.available.Some? <==> v.row.capability.Some?) && (w.required.Some? <==> v.row.capability.Some?)
            && (v.row.capability.Some? ==>
                  && w.required.value == candidate + Held(v.row)
                  && (candidate <= w.available.value <==> w.required.value <= v.row.capability.value))
  {
  }

  ghost predicate Unbounded(merged: Table, candidates: Values, n: string) {
    n in candidates && candidates[n] > 0.0 && RowOf(merged, n).row.capability.None?
  }

  ghost predicate Overdrawn(merged: Table, candidates: Values, n: string) {
    var r := RowOf(merged, n).row;
    n in candidates && candidates[n] > 0.0 && r.capability.Some? && candidates[n] + Held(r) > r.capability.value
  }

  lemma DimensionVerdict(rows: Rows, names: seq<string>, candidates: Values, n: string)
    requires forall m :: m in names ==> m in rows
    ensures var merged := MergeRows(rows, names); var table := AddCandidates(merged, candidates);
            && (Unbounded(merged, candidates, n) <==> n in table && Unmeasured(table[n]))
            && (Overdrawn(merged, candidates, n) <==> n in table && Exceeds(table[n]))
  {
    var merged := MergeRows(rows, names);
    MergedRowsSettle(rows, names);
    assert Settled(RowOf(merged, n));
    if n in candidates {
      FormulaReadings(RowOf(merged, n), candidates[n]);
    }
  }

  /**
   With a snapshot, a determinate policy and a queue plugin: unknown exactly when a
   positively requested dimension has no capability, else a failure exactly when in
   some dimension the candidate and what is held exceed the capability.
   */
  lemma VerdictByFormula(strategy: string, rows: Rows, names: seq<string>, candidates: Values)
    requires strategy != "" && (forall n :: n in names ==> n in rows)
    ensures var merged := MergeRows(rows, names);
            var check := Verdict(strategy, AddCandidates(merged, candidates), false, true);
            && !check.skipped
            && (!check.determinate <==> exists n :: Unbounded(merged, candidates, n))
            && (KnownFailure(check) <==>
                  (forall n :: !Unbounded(merged, candidates, n)) && exists n :: Overdrawn(merged, candidates, n))
  {
    forall n {
      DimensionVerdict(rows, names, candidates, n);
    }
  }

  lemma SpellingOrderHasNoDuplicates(names: seq<string>, keys: set<string>)
    requires MergeOrder(names, keys)
    ensures forall i, j :: 0 <= i < j < |names| ==> names[i] != names[j]
  {
    forall i, j | 0 <= i < j < |names| ensures names[i] != names[j] {
      if names[i] == names[j] {
        BeforeIrreflexive(names[i]);
      }
    }
  }

  predicate CanonicalRows(rows: Rows) {
    forall m <- rows :: ResourceLists.CanonicalName(m) == m
  }

  lemma MergedCanonicalRow(rows: Rows, names: seq<string>, n: string)
    requires MergeOrder(names, rows.Keys) && CanonicalRows(rows)
    ensures var r := RowOf(MergeRows(rows, names), n).row;
            r.capability == Row(rows, n).capability
            && Held(r) == Figure(rows, Allocated, n) + Figure(rows, Inqueue, n) - Figure(rows, Elastic, n)
  {
    SpellingOrderHasNoDuplicates(names, rows.Keys);
    CanonicalRowsStaySeparate(rows, names);
    assert n in names <==> n in rows;
  }

  /**
   From the dump to the verdict. For a snapshot whose names are canonical, a
   requested dimension with a real capability needs the candidate plus what all jobs
   of the queue are committed to, and that is what the check compares.
   */
  lemma RequirementIsCandidatePlusCommitments(
    rows: Rows, jobs: map<string, CacheJob>, scope: Scope, capability: Values, names: seq<string>, merged: Table,
    candidates: Values, n: string)
    requires Tallied(rows, jobs, jobs.Keys, scope) && CapabilityIs(rows, capability)
    requires MergeOrder(names, rows.Keys) && CanonicalRows(rows)
    requires merged == MergeRows(rows, names)
    ensures Unbounded(merged, candidates, n) <==> NoCapability(capability, candidates, n)
    ensures Overdrawn(merged, candidates, n) <==> OverQuota(jobs, scope, capability, candidates, n)
  {
    CommitmentIdentity(rows, jobs, scope, n);
    MergedCanonicalRow(rows, names, n);
    assert Read(Row(rows, n), Capability) == if n in capability then Some(capability[n]) else None;
  }

  /** A requested dimension with no real capability, and one whose quota the request would overdraw. */
  ghost predicate NoCapability(capability: Values, candidates: Values, n: string) {
    n in candidates && candidates[n] > 0.0 && n !in capability
  }

  ghost predicate OverQuota(
    jobs: map<string, CacheJob>, scope: Scope, capability: Values, candidates: Values, n: string)
  {
    && n in candidates && candidates[n] > 0.0 && n in capability
    && candidates[n] + Total(jobs, jobs.Keys, scope, Commitment, n) > capability[n]
  }

  lemma DimensionsAgree(
    rows: Rows, jobs: map<string, CacheJob>, scope: Scope, capability: Values, names: seq<string>, merged: Table,
    candidates: Values)
    requires Tallied(rows, jobs, jobs.Keys, scope) && CapabilityIs(rows, capability)
    requires MergeOrder(names, rows.Keys) && CanonicalRows(rows) && merged == MergeRows(rows, names)
    ensures forall n :: Unbounded(merged, candidates, n) <==> NoCapability(capability, candidates, n)
    ensures forall n :: Overdrawn(merged, candidates, n) <==> OverQuota(jobs, scope, capability, candidates, n)
  {
    forall n
      ensures Unbounded(merged, candidates, n) <==> NoCapability(capability, candidates, n)
      ensures Overdrawn(merged, candidates, n) <==> OverQuota(jobs, scope, capability, candidates, n)
    {
      RequirementIsCandidatePlusCommitments(rows, jobs, scope, capability, names, merged, candidates, n);
    }
  }

  lemma VerdictFromRows(
    strategy: string, rows: Rows, jobs: map<string, CacheJob>, scope: Scope, capability: Values,
    names: seq<string>, candidates: Values)
    requires strategy != "" && Tallied(rows, jobs, jobs.Keys, scope) && CapabilityIs(rows, capability)
    requires MergeOrder(names, rows.Keys) && CanonicalRows(rows)
    ensures Verdict(strategy, AddCandidates(MergeRows(rows, names), candidates), false, true)
         == if exists n :: NoCapability(capability, candidates, n) then Unknown(ID, "enqueue")
            else Known(ID, "enqueue", !exists n :: OverQuota(jobs, scope, capability, candidates, n))
  {
    VerdictByFormula(strategy, rows, names, candidates);
    DimensionsAgree(rows, jobs, scope, capability, names, MergeRows(rows, names), candidates);
  }

  /** The check's outcome, stated from the dump and the queues alone. */
  lemma VerdictFromDump(
    strategy: string, rows: Rows, jobs: map<string, CacheJob>, scope: Scope, capability: Values, candidates: Values,
    table: Table)
    requires strategy != "" && Tallied(rows, jobs, jobs.Keys, scope) && CapabilityIs(rows, capability)
    requires CanonicalRows(rows)
    requires IsTable(rows, Some(candidates), table)
    ensures Verdict(strategy, table, false, true)
         == if exists n :: NoCapability(capability, candidates, n) then Unknown(ID, "enqueue")
            else Known(ID, "enqueue", !exists n :: OverQuota(jobs, scope, capability, candidates, n))
  {
    var names :| MergeOrder(names, rows.Keys) && table == AddCandidates(MergeRows(rows, names), candidates);
    VerdictFromRows(strategy, rows, jobs, scope, capability, names, candidates);
  }

  /**
   Every resource list of the dump, the queues and the PodGroups went through the decoder, and no
   name carried the prefix twice.
   */
  ghost predicate InputsDecoded(
    nodes: map<string, CacheNode>, jobs: map<string, CacheJob>, queues: seq<Queue>, podGroups: seq<PodGroup>)
  {
    && (forall k <- nodes :: ResourceLists.Decoded(nodes[k].allocatable))
    && (forall k <- jobs, t | t in jobs[k].tasks :: ResourceLists.Decoded(t.resreq))
    && (forall q <- queues :: ResourceLists.Decoded(q.guarantee) && ResourceLists.Decoded(q.capability))
    && (forall g <- podGroups :: ResourceLists.Decoded(g.minResources))
  }

  lemma DecodedInputsNameCanonically(
    nodes: map<string, CacheNode>, jobs: map<string, CacheJob>, queues: seq<Queue>, podGroups: seq<PodGroup>, n: string)
    requires InputsDecoded(nodes, jobs, queues, podGroups) && Named(nodes, jobs, queues, podGroups, n)
    ensures ResourceLists.CanonicalName(n) == n
  {
    if NamedByNode(nodes, n) {
      var k :| k in nodes && n in nodes[k].allocatable;
      ResourceLists.DecodedNamesAreCanonical(nodes[k].allocatable, n);
    } else if NamedByQueue(queues, n) {
      var q :| q in queues && (n in q.guarantee || n in q.capability);
      ResourceLists.DecodedNamesAreCanonical(if n in q.guarantee then q.guarantee else q.capability, n);
    } else if NamedByJob(jobs, n) {
      var k :| k in jobs && NamedByTask(jobs[k].tasks, n);
      var t :| t in jobs[k].tasks && n in t.resreq;
      ResourceLists.DecodedNamesAreCanonical(t.resreq, n);
    } else {
      var g :| g in podGroups && n in g.minResources;
      ResourceLists.DecodedNamesAreCanonical(g.minResources, n);
    }
  }

  lemma SnapshotRowsAreCanonical(
    rows: Rows, nodes: map<string, CacheNode>, jobs: map<string, CacheJob>, queues: seq<Queue>,
    podGroups: seq<PodGroup>, queueName: string)
    requires InputsDecoded(nodes, jobs, queues, podGroups)
      && SnapshotOf(rows, nodes, jobs, queues, podGroups, queueName)
    ensures CanonicalRows(rows)
  {
    forall n <- rows ensures ResourceLists.CanonicalName(n) == n {
      RowsAreNamed(rows, nodes, jobs, queues, podGroups, queueName, n);
      DecodedInputsNameCanonically(nodes, jobs, queues, podGroups, n);
    }
  }

  /**
   The check's outcome from the decoded inputs alone, for a snapshot as
   `BuildQueueSnapshot` promises it and a table as `QueueResourceValues` does.
   */
  lemma VerdictFromInputs(
    strategy: string, rows: Rows, nodes: map<string, CacheNode>, jobs: map<string, CacheJob>, queues: seq<Queue>,
    podGroups: seq<PodGroup>, scope: Scope, capability: Values, candidates: Values, table: Table)
    requires strategy != "" && InputsDecoded(nodes, jobs, queues, podGroups)
    requires SnapshotOf(rows, nodes, jobs, queues, podGroups, scope.queueName)
    requires scope.podGroups == PodGroupIndex(podGroups)
    requires capability == RealCapability(NodeTotals(nodes), queues, QueueIndex(queues)[scope.queueName])
    requires IsTable(rows, Some(candidates), table)
    ensures Verdict(strategy, table, false, true)
         == if exists n :: NoCapability(capability, candidates, n) then Unknown(ID, "enqueue")
            else Known(ID, "enqueue", !exists n :: OverQuota(jobs, scope, capability, candidates, n))
  {
    SnapshotRowsAreCanonical(rows, nodes, jobs, queues, podGroups, scope.queueName);
    VerdictFromDump(strategy, rows, jobs, scope, capability, candidates, table);
  }

  // ---- Which plugin's formula applies --------------------------------------

  datatype TierPlugin = TierPlugin(name: string, enqueueSwitch: Option<bool>)

  /** Some tier enables the plugin's JobEnqueueable hook, at least by not switching it off. */
  predicate Votes(plugins: seq<TierPlugin>, name: string) {
    exists i :: 0 <= i < |plugins| && ToLower(plugins[i].name) == name && plugins[i].enqueueSwitch != Some(false)
  }

  /** The strategy whose formula is applied; empty when neither queue plugin votes. */
  method QueueBaseStrategy(plugins: seq<TierPlugin>) returns (strategy: string)
    ensures strategy == "capacity" <==>
      exists p <- plugins :: ToLower(p.name) == "capacity" && p.enqueueSwitch != Some(false)
    ensures strategy == "" || strategy == "capacity" || strategy == "proportion"
    ensures strategy == "" <==> forall p <- plugins ::
      ToLower(p.name) == "capacity" || ToLower(p.name) == "proportion" ==> p.enqueueSwitch == Some(false)
    ensures strategy ==
      if Votes(plugins, "capacity") then "capacity" else if Votes(plugins, "proportion") then "proportion" else ""
  {
    var strategies: set<string> := {};
    for i := 0 to |plugins|
      invariant "capacity" in strategies <==> Votes(plugins[..i], "capacity")
      invariant "proportion" in strategies <==> Votes(plugins[..i], "proportion")
    {
      assert plugins[..i + 1] == plugins[..i] + [plugins[i]];
      var name := ToLower(plugins[i].name);
      if name == "proportion" || name == "capacity" {
        if plugins[i].enqueueSwitch == Some(false) {
          continue;
        }
        strategies := strategies + {name};
      }
    }
    assert plugins[..|plugins|] == plugins;
    forall name ensures Votes(plugins, name) <==>
      exists p <- plugins :: ToLower(p.name) == name && p.enqueueSwitch != Some(false)
    {
      if p :| p in plugins && ToLower(p.name) == name && p.enqueueSwitch != Some(false) {
        var i :| 0 <= i < |plugins| && plugins[i] == p;
      }
    }
    strategy :=
      if "capacity" in strategies then "capacity" else if "proportion" in strategies then "proportion" else "";
  }
}
