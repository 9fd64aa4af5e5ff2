/**
 Reconstruction of one queue's quota attributes from a cache dump
 (internal/cluster/proportion_snapshot.go, internal/cluster/queue_snapshot.go).
 Resource lists arrive already decoded; ResourceLists models the decoding.
 */
module QueueSnapshots {
  import opened Prelude
  import opened ResourceValues
  import opened CacheScan

  datatype Queue = Queue(name: string, guarantee: Values, capability: Values, deserved: Values)

  datatype PodGroup = PodGroup(namespace: string, name: string, minMember: int, minResources: Values, phase: string)

  datatype SnapshotResource = SnapshotResource(
    capability: Option<real>, deserved: Option<real>, alloc: Option<real>,
    request: Option<real>, inqueue: Option<real>, elastic: Option<real>)

  datatype ResourceSet = Capability | Deserved | Allocated | Request | Inqueue | Elastic

  const EMPTY := SnapshotResource(None, None, None, None, None, None)

  type Rows = map<string, SnapshotResource>

  function Row(rows: Rows, name: string): SnapshotResource {
    if name in rows then rows[name] else EMPTY
  }

  function Read(r: SnapshotResource, s: ResourceSet): Option<real> {
    match s
    case Capability => r.capability
    case Deserved => r.deserved
    case Allocated => r.alloc
    case Request => r.request
    case Inqueue => r.inqueue
    case Elastic => r.elastic
  }

  function Write(r: SnapshotResource, s: ResourceSet, value: real): SnapshotResource {
    match s
    case Capability => r.(capability := Some(value))
    case Deserved => r.(deserved := Some(value))
    case Allocated => r.(alloc := Some(value))
    case Request => r.(request := Some(value))
    case Inqueue => r.(inqueue := Some(value))
    case Elastic => r.(elastic := Some(value))
  }

  /** The figure a reader sees: an absent pointer counts as zero. */
  function Figure(rows: Rows, s: ResourceSet, name: string): real {
    GetOr(Read(Row(rows, name), s), 0.0)
  }

  function Credit(r: SnapshotResource, s: ResourceSet, value: real): SnapshotResource {
    if value == 0.0 then r else Write(r, s, GetOr(Read(r, s), 0.0) + value)
  }

  function CreditAll(rows: Rows, s: ResourceSet, values: Values): Rows {
    map n | n in rows.Keys + (set m | m in values && values[m] != 0.0) :: Credit(Row(rows, n), s, At(values, n))
  }

  lemma CreditNone(rows: Rows, s: ResourceSet, values: Values)
    ensures CreditAll(rows, s, Visited(values, values.Keys)) == rows
  {
  }

  lemma CreditNext(rows: Rows, s: ResourceSet, values: Values, rest: set<string>, name: string)
    requires name in rest && name in values
    ensures var before := CreditAll(rows, s, Visited(values, rest));
      CreditAll(rows, s, Visited(values, rest - {name})) ==
        if values[name] == 0.0 then before else before[name := Credit(Row(before, name), s, values[name])]
  {
  }

  class QueueSnapshot {
    const queueName: string
    var resources: Rows

    constructor (queueName: string)
      ensures this.queueName == queueName && resources == map[]
    {
      this.queueName := queueName;
      resources := map[];
    }

    method SetResourceValue(name: string, s: ResourceSet, value: real)
      modifies this
      ensures resources == old(resources)[name := Write(Row(old(resources), name), s, value)]
    {
      resources := resources[name := Write(Row(resources, name), s, value)];
    }

    method AddResourceValue(name: string, s: ResourceSet, value: real)
      modifies this
      ensures resources == if value == 0.0 then old(resources)
                           else old(resources)[name := Credit(Row(old(resources), name), s, value)]
    {
      if value == 0.0 {
        return;
      }
      var current := 0.0;
      if Read(Row(resources, name), s).Some? {
        current := Read(Row(resources, name), s).value;
      }
      resources := resources[name := Write(Row(resources, name), s, current + value)];
    }

    /** The `for name, value := range values { result.addResourceValue(...) }` loops. */
    method AddResourceValues(s: ResourceSet, values: Values)
      modifies this
      ensures resources == CreditAll(old(resources), s, values)
    {
      var rest := values.Keys;
      CreditNone(resources, s, values);
      while rest != {}
        invariant rest <= values.Keys
        invariant resources == CreditAll(old(resources), s, Visited(values, rest))
        decreases |rest|
      {
        var name :| name in rest;
        CreditNext(old(resources), s, values, rest, name);
        AddResourceValue(name, s, values[name]);
        rest := rest - {name};
      }
      assert Visited(values, {}) == values;
    }
  }

  // ---- One job -------------------------------------------------------------

  predicate AllocatedStatus(status: string) {
    status == "Bound" || status == "Binding" || status == "Running" || status == "Allocated"
  }

  /** Which tasks of a job a figure adds up. */
  datatype TaskSet = AllocatedTasks | PendingTasks | RequestedTasks

  predicate Selected(t: CacheTask, which: TaskSet) {
    match which
    case AllocatedTasks => AllocatedStatus(t.status)
    case PendingTasks => t.status == "Pending"
    case RequestedTasks => AllocatedStatus(t.status) || t.status == "Pending"
  }

  function TaskSum(tasks: seq<CacheTask>, which: TaskSet): Values {
    if tasks == [] then map[]
    else
      var t, before := tasks[|tasks| - 1], TaskSum(tasks[..|tasks| - 1], which);
      if Selected(t, which) then Plus(before, t.resreq) else before
  }

  function TaskCount(tasks: seq<CacheTask>): nat {
    if tasks == [] then 0
    else TaskCount(tasks[..|tasks| - 1]) + if AllocatedStatus(tasks[|tasks| - 1].status) then 1 else 0
  }

  /** What the tasks with one of these statuses request of a resource. */
  function AmountWith(tasks: seq<CacheTask>, statuses: set<string>, name: string): real {
    if tasks == [] then 0.0
    else AmountWith(tasks[1..], statuses, name) + if tasks[0].status in statuses then At(tasks[0].resreq, name) else 0.0
  }

  function CountWith(tasks: seq<CacheTask>, statuses: set<string>): nat {
    if tasks == [] then 0 else CountWith(tasks[1..], statuses) + if tasks[0].status in statuses then 1 else 0
  }

  /** Wherever a task stands, it adds its request and one to the count if its status is wanted, else nothing. */
  lemma {:induction false} TaskCountsByStatus(
    before: seq<CacheTask>, t: CacheTask, after: seq<CacheTask>, statuses: set<string>, name: string)
    ensures AmountWith(before + [t] + after, statuses, name)
         == AmountWith(before + after, statuses, name) + if t.status in statuses then At(t.resreq, name) else 0.0
    ensures CountWith(before + [t] + after, statuses)
         == CountWith(before + after, statuses) + if t.status in statuses then 1 else 0
  {
    if before == [] {
      assert [] + [t] + after == [t] + after && [] + after == after;
    } else {
      assert (before + [t] + after)[1..] == before[1..] + [t] + after && (before + after)[1..] == before[1..] + after;
      TaskCountsByStatus(before[1..], t, after, statuses, name);
    }
  }

  lemma {:induction false} TaskSumIsAmount(tasks: seq<CacheTask>, name: string)
    ensures At(TaskSum(tasks, AllocatedTasks), name)
      == AmountWith(tasks, {"Bound", "Binding", "Running", "Allocated"}, name)
    ensures At(TaskSum(tasks, RequestedTasks), name)
         == AmountWith(tasks, {"Bound", "Binding", "Running", "Allocated", "Pending"}, name)
    ensures TaskCount(tasks) == CountWith(tasks, {"Bound", "Binding", "Running", "Allocated"})
  {
    if tasks != [] {
      var init, last := tasks[..|tasks| - 1], tasks[|tasks| - 1];
      TaskSumIsAmount(init, name);
      assert tasks == init + [last] + [] && init + [] == init;
      TaskCountsByStatus(init, last, [], {"Bound", "Binding", "Running", "Allocated"}, name);
      TaskCountsByStatus(init, last, [], {"Bound", "Binding", "Running", "Allocated", "Pending"}, name);
    }
  }

  method JobTaskResources(job: CacheJob) returns (alloc: Values, request: Values, allocatedTasks: nat)
    ensures alloc == TaskSum(job.tasks, AllocatedTasks)
    ensures request == TaskSum(job.tasks, RequestedTasks)
    ensures allocatedTasks == TaskCount(job.tasks)
    ensures forall n :: At(alloc, n) == AmountWith(job.tasks, {"Bound", "Binding", "Running", "Allocated"}, n)
    ensures forall n ::
      At(request, n) == AmountWith(job.tasks, {"Bound", "Binding", "Running", "Allocated", "Pending"}, n)
    ensures allocatedTasks == CountWith(job.tasks, {"Bound", "Binding", "Running", "Allocated"})
  {
    TaskSumIsAmount(job.tasks, "");
    forall n {
      TaskSumIsAmount(job.tasks, n);
    }
    var allocatedMap := new ResourceMap(map[]);
    var requestMap := new ResourceMap(map[]);
    allocatedTasks := 0;
    for i := 0 to |job.tasks|
      invariant fresh(allocatedMap) && fresh(requestMap) && allocatedMap != requestMap
      invariant allocatedMap.values == TaskSum(job.tasks[..i], AllocatedTasks)
      invariant requestMap.values == TaskSum(job.tasks[..i], RequestedTasks)
      invariant allocatedTasks == TaskCount(job.tasks[..i])
    {
      var task := job.tasks[i];
      assert job.tasks[..i + 1][..i] == job.tasks[..i];
      if AllocatedStatus(task.status) {
        allocatedMap.Add(task.resreq);
        requestMap.Add(task.resreq);
        allocatedTasks := allocatedTasks + 1;
        continue;
      }
      if task.status == "Pending" {
        requestMap.Add(task.resreq);
      }
    }
    assert job.tasks[..|job.tasks|] == job.tasks;
    return allocatedMap.values, requestMap.values, allocatedTasks;
  }

  // ---- The whole snapshot --------------------------------------------------

  /** What a job's figures depend on besides the job itself. */
  datatype Scope = Scope(queueName: string, podGroups: map<string, PodGroup>)

  /** Later PodGroups with the same key replace earlier ones. */
  function PodGroupIndex(groups: seq<PodGroup>): map<string, PodGroup> {
    if groups == [] then map[]
    else
      var g := groups[|groups| - 1];
      PodGroupIndex(groups[..|groups| - 1])[Key(g.namespace, g.name) := g]
  }

  function GroupOf(job: CacheJob, scope: Scope): Option<PodGroup> {
    var key := Key(job.namespace, job.name);
    if key in scope.podGroups then Some(scope.podGroups[key]) else None
  }

  /** A per-job amount of one resource that the snapshot, or a statement about it, sums over the jobs. */
  datatype Measure = Posted(resourceSet: ResourceSet) | Pending | Commitment

  function Inqueued(job: CacheJob, g: PodGroup): Values {
    if ToLower(g.phase) == "inqueue" then g.minResources
    else if ToLower(g.phase) == "running" && TaskCount(job.tasks) >= g.minMember
    then Excess(g.minResources, TaskSum(job.tasks, AllocatedTasks))
    else map[]
  }

  /** What the loop body of `buildQueueSnapshot` posts for one job, per resource set. */
  function JobPosting(job: CacheJob, scope: Scope, s: ResourceSet): Values {
    if job.queue != scope.queueName then map[]
    else if s == Allocated then TaskSum(job.tasks, AllocatedTasks)
    else if s == Request then TaskSum(job.tasks, RequestedTasks)
    else match GroupOf(job, scope)
      case None => map[]
      case Some(g) =>
        if s == Inqueue then Inqueued(job, g)
        else if s == Elastic then Excess(TaskSum(job.tasks, AllocatedTasks), g.minResources)
        else map[]
  }

  function Min(a: real, b: real): real { if a <= b then a else b }

  /**
   The quota a job is committed to, stated from the phase of its PodGroup alone:
   no positive differences, no split into inqueue and elastic.
   */
  function JobCommitment(job: CacheJob, scope: Scope, name: string): real {
    if job.queue != scope.queueName then 0.0
    else
      var alloc := At(TaskSum(job.tasks, AllocatedTasks), name);
      match GroupOf(job, scope)
      case None => alloc
      case Some(g) =>
        var min := At(g.minResources, name);
        if ToLower(g.phase) == "running" && TaskCount(job.tasks) >= g.minMember then min
        else if ToLower(g.phase) == "inqueue" then Min(alloc, min) + min
        else Min(alloc, min)
  }

  function JobAmount(job: CacheJob, scope: Scope, m: Measure, name: string): real {
    match m
    case Posted(s) => At(JobPosting(job, scope, s), name)
    case Pending => if job.queue == scope.queueName then At(TaskSum(job.tasks, PendingTasks), name) else 0.0
    case Commitment => JobCommitment(job, scope, name)
  }

  /** The sum of a measure over the jobs with the given keys. */
  ghost function Total(jobs: map<string, CacheJob>, keys: set<string>, scope: Scope, m: Measure, name: string): real
    requires keys <= jobs.Keys
  {
    if keys == {} then 0.0
    else
      var k :| k in keys;
      JobAmount(jobs[k], scope, m, name) + Total(jobs, keys - {k}, scope, m, name)
  }

  /** Any job may be taken out of the sum first, so the order in which Go visits the jobs cannot matter. */
  lemma {:induction false} TotalTakesAnyJobFirst(
    jobs: map<string, CacheJob>, keys: set<string>, scope: Scope, m: Measure, name: string, k: string)
    requires k in keys && keys <= jobs.Keys
    ensures Total(jobs, keys, scope, m, name)
         == JobAmount(jobs[k], scope, m, name) + Total(jobs, keys - {k}, scope, m, name)
    decreases |keys|
  {
    var first :| first in keys &&
      Total(jobs, keys, scope, m, name)
        == JobAmount(jobs[first], scope, m, name) + Total(jobs, keys - {first}, scope, m, name);
    if first != k {
      TotalTakesAnyJobFirst(jobs, keys - {first}, scope, m, name, k);
      TotalTakesAnyJobFirst(jobs, keys - {k}, scope, m, name, first);
      assert keys - {first} - {k} == keys - {k} - {first};
    }
  }

  lemma {:induction false} TaskSumsAdd(tasks: seq<CacheTask>, name: string)
    ensures At(TaskSum(tasks, RequestedTasks), name)
         == At(TaskSum(tasks, AllocatedTasks), name) + At(TaskSum(tasks, PendingTasks), name)
  {
    if tasks != [] {
      TaskSumsAdd(tasks[..|tasks| - 1], name);
    }
  }

  /** Per job, the positive differences cancel into the commitment. */
  lemma JobDifferencesCancel(job: CacheJob, scope: Scope, name: string)
    ensures At(JobPosting(job, scope, Allocated), name) + At(JobPosting(job, scope, Inqueue), name)
          - At(JobPosting(job, scope, Elastic), name) == JobCommitment(job, scope, name)
    ensures At(JobPosting(job, scope, Request), name)
         == At(JobPosting(job, scope, Allocated), name) + JobAmount(job, scope, Pending, name)
  {
    TaskSumsAdd(job.tasks, name);
  }

  lemma {:induction false} TotalsCancel(jobs: map<string, CacheJob>, keys: set<string>, scope: Scope, name: string)
    requires keys <= jobs.Keys
    ensures Total(jobs, keys, scope, Posted(Allocated), name) + Total(jobs, keys, scope, Posted(Inqueue), name)
          - Total(jobs, keys, scope, Posted(Elastic), name) == Total(jobs, keys, scope, Commitment, name)
    ensures Total(jobs, keys, scope, Posted(Request), name)
         == Total(jobs, keys, scope, Posted(Allocated), name) + Total(jobs, keys, scope, Pending, name)
    decreases |keys|
  {
    if keys != {} {
      var k :| k in keys;
      TotalsCancel(jobs, keys - {k}, scope, name);
      JobDifferencesCancel(jobs[k], scope, name);
      forall m: Measure {
        TotalTakesAnyJobFirst(jobs, keys, scope, m, name, k);
      }
    }
  }

  predicate JobSet(s: ResourceSet) {
    s == Allocated || s == Request || s == Inqueue || s == Elastic
  }

  ghost predicate TalliedAt(
    rows: Rows, jobs: map<string, CacheJob>, keys: set<string>, scope: Scope, s: ResourceSet, n: string)
    requires keys <= jobs.Keys
  {
    && Figure(rows, s, n) == Total(jobs, keys, scope, Posted(s), n)
    && (Read(Row(rows, n), s).Some? <==> exists k :: k in keys && JobAmount(jobs[k], scope, Posted(s), n) != 0.0)
  }

  /**
   The job figures of the rows are the totals over the jobs visited so far, and a
   figure is present exactly when some job contributed to it.
   */
  ghost predicate Tallied(rows: Rows, jobs: map<string, CacheJob>, keys: set<string>, scope: Scope)
    requires keys <= jobs.Keys
  {
    forall s, n | JobSet(s) :: TalliedAt(rows, jobs, keys, scope, s, n)
  }

  function PostJob(rows: Rows, job: CacheJob, scope: Scope): Rows {
    PostAll(rows, Posting(job, scope))
  }

  function Posting(job: CacheJob, scope: Scope): ResourceSet -> Values {
    s => JobPosting(job, scope, s)
  }

  function PostAll(rows: Rows, posting: ResourceSet -> Values): Rows {
    CreditAll(CreditAll(CreditAll(CreditAll(rows,
      Allocated, posting(Allocated)), Request, posting(Request)), Inqueue, posting(Inqueue)), Elastic, posting(Elastic))
  }

  lemma CreditAllReads(rows: Rows, s: ResourceSet, values: Values, t: ResourceSet, n: string)
    ensures Read(Row(CreditAll(rows, s, values), n), t)
         == if s == t && At(values, n) != 0.0 then Some(Figure(rows, s, n) + At(values, n)) else Read(Row(rows, n), t)
  {
  }

  lemma PostAllReads(rows: Rows, posting: ResourceSet -> Values, t: ResourceSet, n: string)
    ensures Read(Row(PostAll(rows, posting), n), t)
         == if JobSet(t) && At(posting(t), n) != 0.0 then Some(Figure(rows, t, n) + At(posting(t), n))
           else Read(Row(rows, n), t)
  {
    var r1 := CreditAll(rows, Allocated, posting(Allocated));
    var r2 := CreditAll(r1, Request, posting(Request));
    var r3 := CreditAll(r2, Inqueue, posting(Inqueue));
    CreditAllReads(rows, Allocated, posting(Allocated), t, n);
    CreditAllReads(r1, Request, posting(Request), t, n);
    CreditAllReads(r2, Inqueue, posting(Inqueue), t, n);
    CreditAllReads(r3, Elastic, posting(Elastic), t, n);
  }

  lemma PostedIsJobAmount(job: CacheJob, scope: Scope, t: ResourceSet, n: string)
    ensures At(Posting(job, scope)(t), n) == JobAmount(job, scope, Posted(t), n)
  {
  }

  lemma PostJobTalliesAt(
    rows: Rows, jobs: map<string, CacheJob>, done: set<string>, scope: Scope, k: string, s: ResourceSet, n: string)
    requires done <= jobs.Keys && k in jobs && k !in done && JobSet(s)
    requires TalliedAt(rows, jobs, done, scope, s, n)
    ensures TalliedAt(PostJob(rows, jobs[k], scope), jobs, done + {k}, scope, s, n)
  {
    var after := Read(Row(PostJob(rows, jobs[k], scope), n), s);
    var amount := JobAmount(jobs[k], scope, Posted(s), n);
    PostAllReads(rows, Posting(jobs[k], scope), s, n);
    PostedIsJobAmount(jobs[k], scope, s, n);
    TotalTakesAnyJobFirst(jobs, done + {k}, scope, Posted(s), n, k);
    assert done + {k} - {k} == done;
    if amount != 0.0 {
      assert k in done + {k};
    }
  }

  lemma PostJobTallies(rows: Rows, jobs: map<string, CacheJob>, done: set<string>, scope: Scope, k: string)
    requires done <= jobs.Keys && k in jobs && k !in done
    requires Tallied(rows, jobs, done, scope)
    ensures Tallied(PostJob(rows, jobs[k], scope), jobs, done + {k}, scope)
    ensures forall n :: Read(Row(PostJob(rows, jobs[k], scope), n), Capability) == Read(Row(rows, n), Capability)
  {
    forall s, n | JobSet(s) ensures TalliedAt(PostJob(rows, jobs[k], scope), jobs, done + {k}, scope, s, n) {
      PostJobTalliesAt(rows, jobs, done, scope, k, s, n);
    }
    forall n ensures Read(Row(PostJob(rows, jobs[k], scope), n), Capability) == Read(Row(rows, n), Capability) {
      PostAllReads(rows, Posting(jobs[k], scope), Capability, n);
    }
  }

  // ---- Real capability -----------------------------------------------------

  function GuaranteeSum(queues: seq<Queue>): Values {
    if queues == [] then map[]
    else Plus(GuaranteeSum(queues[..|queues| - 1]), queues[|queues| - 1].guarantee)
  }

  /** Later queues with the same name replace earlier ones. */
  function QueueIndex(queues: seq<Queue>): map<string, Queue> {
    if queues == [] then map[]
    else QueueIndex(queues[..|queues| - 1])[queues[|queues| - 1].name := queues[|queues| - 1]]
  }

  /** The cluster total of one resource, over the nodes with the given keys. */
  ghost function NodeTotal(nodes: map<string, CacheNode>, keys: set<string>, name: string): real
    requires keys <= nodes.Keys
  {
    if keys == {} then 0.0
    else
      var k :| k in keys;
      At(nodes[k].allocatable, name) + NodeTotal(nodes, keys - {k}, name)
  }

  lemma {:induction false} NodeTotalTakesAnyNodeFirst(
    nodes: map<string, CacheNode>, keys: set<string>, name: string, k: string)
    requires k in keys && keys <= nodes.Keys
    ensures NodeTotal(nodes, keys, name) == At(nodes[k].allocatable, name) + NodeTotal(nodes, keys - {k}, name)
    decreases |keys|
  {
    var first :| first in keys &&
      NodeTotal(nodes, keys, name) == At(nodes[first].allocatable, name) + NodeTotal(nodes, keys - {first}, name);
    if first != k {
      NodeTotalTakesAnyNodeFirst(nodes, keys - {first}, name, k);
      NodeTotalTakesAnyNodeFirst(nodes, keys - {k}, name, first);
      assert keys - {first} - {k} == keys - {k} - {first};
    }
  }

  /** Per resource, the sum of the nodes' allocatable amounts. */
  ghost function NodeTotals(nodes: map<string, CacheNode>): Values {
    map n | n in (set k, m | k in nodes && m in nodes[k].allocatable :: m) :: NodeTotal(nodes, nodes.Keys, n)
  }

  method TotalNodeAllocatable(nodes: map<string, CacheNode>) returns (total: Values)
    ensures total == NodeTotals(nodes)
  {
    var result := new ResourceMap(map[]);
    var rest := nodes.Keys;
    while rest != {}
      invariant fresh(result) && rest <= nodes.Keys
      invariant forall n :: n in result.values <==> exists k :: k in nodes && k !in rest && n in nodes[k].allocatable
      invariant forall n :: At(result.values, n) == NodeTotal(nodes, nodes.Keys - rest, n)
      decreases |rest|
    {
      var key :| key in rest;
      ghost var was := result.values;
      result.Add(nodes[key].allocatable);
      forall n ensures At(result.values, n) == NodeTotal(nodes, nodes.Keys - (rest - {key}), n) {
        NodeTotalTakesAnyNodeFirst(nodes, nodes.Keys - (rest - {key}), n, key);
        assert nodes.Keys - (rest - {key}) - {key} == nodes.Keys - rest;
        assert At(result.values, n) == At(was, n) + At(nodes[key].allocatable, n);
      }
      rest := rest - {key};
    }
    assert nodes.Keys - rest == nodes.Keys;
    return result.values;
  }

  function RealCapability(total: Values, queues: seq<Queue>, queue: Queue): Values {
    Cap(Plus(Minus(total, GuaranteeSum(queues)), queue.guarantee), queue.capability)
  }

  datatype BuildError = NameRequired | QueueUnavailable

  /** The capability column holds exactly the given values. */
  ghost predicate CapabilityIs(rows: Rows, capability: Values) {
    forall n :: Read(Row(rows, n), Capability) == if n in capability then Some(capability[n]) else None
  }

  method IndexQueues(queues: seq<Queue>) returns (queueByName: map<string, Queue>, totalGuarantee: Values)
    ensures queueByName == QueueIndex(queues) && totalGuarantee == GuaranteeSum(queues)
  {
    queueByName := map[];
    var total := new ResourceMap(map[]);
    for i := 0 to |queues|
      invariant fresh(total)
      invariant queueByName == QueueIndex(queues[..i])
      invariant total.values == GuaranteeSum(queues[..i])
    {
      assert queues[..i + 1][..i] == queues[..i];
      queueByName := queueByName[queues[i].name := queues[i]];
      total.Add(queues[i].guarantee);
    }
    assert queues[..|queues|] == queues;
    totalGuarantee := total.values;
  }

  method IndexPodGroups(podGroups: seq<PodGroup>) returns (podGroupByKey: map<string, PodGroup>)
    ensures podGroupByKey == PodGroupIndex(podGroups)
  {
    podGroupByKey := map[];
    for i := 0 to |podGroups|
      invariant podGroupByKey == PodGroupIndex(podGroups[..i])
    {
      assert podGroups[..i + 1][..i] == podGroups[..i];
      podGroupByKey := podGroupByKey[Key(podGroups[i].namespace, podGroups[i].name) := podGroups[i]];
    }
    assert podGroups[..|podGroups|] == podGroups;
  }

  method SetCapability(result: QueueSnapshot, capability: Values)
    requires result.resources == map[]
    modifies result
    ensures CapabilityIs(result.resources, capability) && NoIdleRows(result.resources)
    ensures forall s, n | s != Capability :: Read(Row(result.resources, n), s) == None
  {
    var names := capability.Keys;
    while names != {}
      invariant names <= capability.Keys
      invariant forall n <- result.resources :: result.resources[n].capability.Some?
      invariant forall n ::
        Row(result.resources, n) ==
          (if n in capability && n !in names then Write(EMPTY, Capability, capability[n]) else EMPTY)
      decreases |names|
    {
      var name :| name in names;
      result.SetResourceValue(name, Capability, capability[name]);
      names := names - {name};
    }
  }

  method BuildQueueSnapshot(
    nodes: map<string, CacheNode>, jobs: map<string, CacheJob>, queues: seq<Queue>, podGroups: seq<PodGroup>,
    queueName: string)
    returns (result: QueueSnapshot, error: Option<BuildError>)
    ensures fresh(result) && result.queueName == queueName
    ensures error == if queueName == "" then Some(NameRequired)
                     else if queueName !in QueueIndex(queues) then Some(QueueUnavailable) else None
    ensures error.Some? ==> result.resources == map[]
    ensures error.None? ==> SnapshotOf(result.resources, nodes, jobs, queues, podGroups, queueName)
    ensures error.None? ==> forall n :: RowMeans(result.resources, jobs, podGroups, queueName, n)
  {
    result := new QueueSnapshot(queueName);
    if queueName == "" {
      return result, Some(NameRequired);
    }
    var queueByName, totalGuarantee := IndexQueues(queues);
    if queueName !in queueByName {
      return result, Some(QueueUnavailable);
    }

    var queue := queueByName[queueName];
    var total := TotalNodeAllocatable(nodes);
    var realCapability := new ResourceMap(total);
    realCapability.Subtract(totalGuarantee);
    realCapability.Add(queue.guarantee);
    realCapability.LimitTo(queue.capability);
    ghost var capability := realCapability.values;
    assert capability == RealCapability(total, queues, queue);
    SetCapability(result, realCapability.values);

    var podGroupByKey := IndexPodGroups(podGroups);
    AddJobs(result, jobs, queueName, podGroupByKey, capability);
    error := None;
    forall n {
      RowFigures(result.resources, jobs, podGroups, queueName, n);
    }
  }

  method AddJobs(
    result: QueueSnapshot, jobs: map<string, CacheJob>, queueName: string, podGroupByKey: map<string, PodGroup>,
    ghost capability: Values)
    requires CapabilityIs(result.resources, capability)
    requires forall s, n | s != Capability :: Read(Row(result.resources, n), s) == None
    requires NoIdleRows(result.resources)
    modifies result
    ensures Tallied(result.resources, jobs, jobs.Keys, Scope(queueName, podGroupByKey))
    ensures CapabilityIs(result.resources, capability) && NoIdleRows(result.resources)
  {
    ghost var scope := Scope(queueName, podGroupByKey);
    ghost var done := {};
    var rest := jobs.Keys;
    while rest != {}
      invariant rest <= jobs.Keys && done == jobs.Keys - rest
      invariant Tallied(result.resources, jobs, done, scope)
      invariant CapabilityIs(result.resources, capability) && NoIdleRows(result.resources)
      decreases |rest|
    {
      var key :| key in rest;
      PostKeepsNoIdleRows(result.resources, jobs[key], scope);
      PostJobTallies(result.resources, jobs, done, scope, key);
      AddJob(result, jobs[key], queueName, podGroupByKey);
      rest, done := rest - {key}, done + {key};
    }
    assert done == jobs.Keys;
  }

  /** The body of the loop over the jobs. */
  method AddJob(result: QueueSnapshot, job: CacheJob, queueName: string, podGroupByKey: map<string, PodGroup>)
    modifies result
    ensures result.resources == PostJob(old(result.resources), job, Scope(queueName, podGroupByKey))
  {
    if job.queue != queueName {
      PostForeignJob(result.resources, job, Scope(queueName, podGroupByKey));
      return;
    }
    AddOwnJob(result, job, podGroupByKey);
    assert result.resources == PostJob(old(result.resources), job, Scope(queueName, podGroupByKey)) by {
      if GroupOf(job, Scope(queueName, podGroupByKey)).None? {
        var posted := CreditAll(CreditAll(old(result.resources), Allocated, TaskSum(job.tasks, AllocatedTasks)),
                                Request, TaskSum(job.tasks, RequestedTasks));
        CreditNothing(posted, Inqueue);
        CreditNothing(posted, Elastic);
      }
    }
  }

  method AddOwnJob(result: QueueSnapshot, job: CacheJob, podGroupByKey: map<string, PodGroup>)
    modifies result
    ensures var key := Key(job.namespace, job.name);
      var posted := CreditAll(CreditAll(old(result.resources), Allocated, TaskSum(job.tasks, AllocatedTasks)),
                              Request, TaskSum(job.tasks, RequestedTasks));
      result.resources ==
        if key !in podGroupByKey then posted
        else CreditAll(CreditAll(posted, Inqueue, Inqueued(job, podGroupByKey[key])), Elastic,
                       Excess(TaskSum(job.tasks, AllocatedTasks), podGroupByKey[key].minResources))
  {
    var alloc, request, allocatedTasks := JobTaskResources(job);
    result.AddResourceValues(Allocated, alloc);
    result.AddResourceValues(Request, request);

    var key := Key(job.namespace, job.name);
    if key !in podGroupByKey {
      return;
    }
    AddGroup(result, job, alloc, allocatedTasks, podGroupByKey[key]);
  }

  /** The part of the loop body that needs the job's PodGroup. */
  method AddGroup(result: QueueSnapshot, ghost job: CacheJob, alloc: Values, allocatedTasks: nat, podGroup: PodGroup)
    requires alloc == TaskSum(job.tasks, AllocatedTasks) && allocatedTasks == TaskCount(job.tasks)
    modifies result
    ensures result.resources == CreditAll(CreditAll(old(result.resources), Inqueue, Inqueued(job, podGroup)),
                                          Elastic, Excess(alloc, podGroup.minResources))
  {
    CreditNothing(result.resources, Inqueue);
    var phase := ToLower(podGroup.phase);
    if phase == "inqueue" {
      result.AddResourceValues(Inqueue, podGroup.minResources);
    } else if phase == "running" {
      if allocatedTasks >= podGroup.minMember {
        var reserved := PositiveResourceDiff(podGroup.minResources, alloc);
        result.AddResourceValues(Inqueue, reserved);
      }
    }
    var elastic := PositiveResourceDiff(alloc, podGroup.minResources);
    result.AddResourceValues(Elastic, elastic);
  }

  lemma CreditNothing(rows: Rows, s: ResourceSet)
    ensures CreditAll(rows, s, map[]) == rows
  {
  }

  lemma PostForeignJob(rows: Rows, job: CacheJob, scope: Scope)
    requires job.queue != scope.queueName
    ensures PostJob(rows, job, scope) == rows
  {
  }

  /** The names of both sides, sorted; the order plays no part in the difference. */
  method OrderedNames(left: Values, right: Values) returns (ordered: seq<string>)
    ensures forall n :: n in ordered <==> n in left || n in right
  {
    ordered := SortedKeys(left.Keys + right.Keys);
  }

  ghost function ExcessOver(left: Values, right: Values, names: seq<string>): Values {
    map n | n in names && At(left, n) > At(right, n) :: At(left, n) - At(right, n)
  }

  lemma ExcessNext(left: Values, right: Values, names: seq<string>, name: string)
    ensures var value, before := At(left, name) - At(right, name), ExcessOver(left, right, names);
      ExcessOver(left, right, names + [name]) == if value > 0.0 then before[name := value] else before
  {
  }

  lemma ExcessOverAll(left: Values, right: Values, names: seq<string>)
    requires forall n :: n in names <==> n in left || n in right
    ensures ExcessOver(left, right, names) == Excess(left, right)
  {
  }

  method PositiveResourceDiff(left: Values, right: Values) returns (result: Values)
    ensures result == Excess(left, right)
  {
    var ordered := OrderedNames(left, right);
    result := map[];
    for i := 0 to |ordered|
      invariant result == ExcessOver(left, right, ordered[..i])
    {
      var value := At(left, ordered[i]) - At(right, ordered[i]);
      ExcessNext(left, right, ordered[..i], ordered[i]);
      assert ordered[..i + 1] == ordered[..i] + [ordered[i]];
      if value > 0.0 {
        result := result[ordered[i] := value];
      }
    }
    assert ordered[..|ordered|] == ordered;
    ExcessOverAll(left, right, ordered);
  }

  // ---- Where the row names come from ----------------------------------------

  /** No row is there without a figure. */
  predicate NoIdleRows(rows: Rows) {
    forall n <- rows :: rows[n].capability.Some? || exists s :: JobSet(s) && Read(rows[n], s).Some?
  }

  lemma CreditKeepsNoIdleRows(rows: Rows, s: ResourceSet, values: Values)
    requires NoIdleRows(rows) && JobSet(s)
    ensures NoIdleRows(CreditAll(rows, s, values))
  {
    var after := CreditAll(rows, s, values);
    forall n | n in after ensures after[n].capability.Some? || exists t :: JobSet(t) && Read(after[n], t).Some? {
      if At(values, n) != 0.0 {
        assert JobSet(s) && Read(after[n], s).Some?;
      } else {
        assert after[n] == rows[n];
      }
    }
  }

  lemma PostKeepsNoIdleRows(rows: Rows, job: CacheJob, scope: Scope)
    requires NoIdleRows(rows)
    ensures NoIdleRows(PostJob(rows, job, scope))
  {
    var posting := Posting(job, scope);
    var r1 := CreditAll(rows, Allocated, posting(Allocated));
    var r2 := CreditAll(r1, Request, posting(Request));
    var r3 := CreditAll(r2, Inqueue, posting(Inqueue));
    CreditKeepsNoIdleRows(rows, Allocated, posting(Allocated));
    CreditKeepsNoIdleRows(r1, Request, posting(Request));
    CreditKeepsNoIdleRows(r2, Inqueue, posting(Inqueue));
    CreditKeepsNoIdleRows(r3, Elastic, posting(Elastic));
  }

  ghost predicate NamedByNode(nodes: map<string, CacheNode>, n: string) {
    exists k <- nodes :: n in nodes[k].allocatable
  }

  ghost predicate NamedByQueue(queues: seq<Queue>, n: string) {
    exists q <- queues :: n in q.guarantee || n in q.capability
  }

  ghost predicate NamedByTask(tasks: seq<CacheTask>, n: string) {
    exists t <- tasks :: n in t.resreq
  }

  ghost predicate NamedByJob(jobs: map<string, CacheJob>, n: string) {
    exists k <- jobs :: NamedByTask(jobs[k].tasks, n)
  }

  ghost predicate NamedByPodGroup(podGroups: seq<PodGroup>, n: string) {
    exists g <- podGroups :: n in g.minResources
  }

  ghost predicate Named(
    nodes: map<string, CacheNode>, jobs: map<string, CacheJob>, queues: seq<Queue>, podGroups: seq<PodGroup>, n: string)
  {
    NamedByNode(nodes, n) || NamedByQueue(queues, n) || NamedByJob(jobs, n) || NamedByPodGroup(podGroups, n)
  }

  lemma {:induction false} TaskSumNames(tasks: seq<CacheTask>, which: TaskSet, n: string)
    requires n in TaskSum(tasks, which)
    ensures NamedByTask(tasks, n)
  {
    var before := tasks[..|tasks| - 1];
    if n in TaskSum(before, which) {
      TaskSumNames(before, which, n);
    } else {
      assert tasks[|tasks| - 1] in tasks;
    }
  }

  lemma {:induction false} PodGroupIndexNames(podGroups: seq<PodGroup>, key: string)
    requires key in PodGroupIndex(podGroups)
    ensures PodGroupIndex(podGroups)[key] in podGroups
  {
    var before := podGroups[..|podGroups| - 1];
    if PodGroupIndex(podGroups)[key] != podGroups[|podGroups| - 1] {
      PodGroupIndexNames(before, key);
    }
  }

  lemma {:induction false} QueueNames(queues: seq<Queue>, n: string)
    ensures n in GuaranteeSum(queues) ==> NamedByQueue(queues, n)
    ensures forall name <- QueueIndex(queues) :: QueueIndex(queues)[name] in queues
  {
    if queues != [] {
      var before, last := queues[..|queues| - 1], queues[|queues| - 1];
      assert queues == before + [last];
      QueueNames(before, n);
      assert n in last.guarantee ==> last in queues;
    }
  }

  lemma JobAmountNames(job: CacheJob, podGroups: seq<PodGroup>, queueName: string, s: ResourceSet, n: string)
    requires JobAmount(job, Scope(queueName, PodGroupIndex(podGroups)), Posted(s), n) != 0.0
    ensures NamedByTask(job.tasks, n) || NamedByPodGroup(podGroups, n)
  {
    var key := Key(job.namespace, job.name);
    if n in TaskSum(job.tasks, AllocatedTasks) {
      TaskSumNames(job.tasks, AllocatedTasks, n);
    } else if n in TaskSum(job.tasks, RequestedTasks) {
      TaskSumNames(job.tasks, RequestedTasks, n);
    } else {
      assert key in PodGroupIndex(podGroups) && n in PodGroupIndex(podGroups)[key].minResources;
      PodGroupIndexNames(podGroups, key);
    }
  }

  // ---- The figures from the dump and the PodGroups alone ----------------------

  /** The sum of an amount over the jobs with the given keys. */
  ghost function SumOver(jobs: map<string, CacheJob>, keys: set<string>, amount: CacheJob -> real): real
    requires keys <= jobs.Keys
  {
    if keys == {} then 0.0
    else
      var k :| k in keys;
      amount(jobs[k]) + SumOver(jobs, keys - {k}, amount)
  }

  lemma {:induction false} SumTakesAnyJobFirst(
    jobs: map<string, CacheJob>, keys: set<string>, amount: CacheJob -> real, k: string)
    requires k in keys && keys <= jobs.Keys
    ensures SumOver(jobs, keys, amount) == amount(jobs[k]) + SumOver(jobs, keys - {k}, amount)
    decreases |keys|
  {
    var first :| first in keys &&
      SumOver(jobs, keys, amount) == amount(jobs[first]) + SumOver(jobs, keys - {first}, amount);
    if first != k {
      SumTakesAnyJobFirst(jobs, keys - {first}, amount, k);
      SumTakesAnyJobFirst(jobs, keys - {k}, amount, first);
      assert keys - {first} - {k} == keys - {k} - {first};
    }
  }

  /** The last PodGroup of the job's namespace and name. */
  function GroupFor(podGroups: seq<PodGroup>, job: CacheJob): Option<PodGroup> {
    if podGroups == [] then None
    else
      var last := podGroups[|podGroups| - 1];
      if last.namespace + "/" + last.name == job.namespace + "/" + job.name then Some(last)
      else GroupFor(podGroups[..|podGroups| - 1], job)
  }

  function TaskAmount(queueName: string, statuses: set<string>, n: string): CacheJob -> real {
    (job: CacheJob) => if job.queue == queueName then AmountWith(job.tasks, statuses, n) else 0.0
  }

  /** Reserved for a job that is queued, or for the rest of a running gang that has its members. */
  function InqueueAmount(podGroups: seq<PodGroup>, queueName: string, n: string): CacheJob -> real {
    (job: CacheJob) =>
      var group := GroupFor(podGroups, job);
      if job.queue != queueName || group.None? then 0.0
      else
        var alloc := AmountWith(job.tasks, {"Bound", "Binding", "Running", "Allocated"}, n);
        var count := CountWith(job.tasks, {"Bound", "Binding", "Running", "Allocated"});
        var min := At(group.value.minResources, n);
        if ToLower(group.value.phase) == "inqueue" then min
        else if ToLower(group.value.phase) == "running" && count >= group.value.minMember && min > alloc
          then min - alloc
        else 0.0
  }

  /** What a job holds beyond the minimum of its PodGroup. */
  function ElasticAmount(podGroups: seq<PodGroup>, queueName: string, n: string): CacheJob -> real {
    (job: CacheJob) =>
      var group := GroupFor(podGroups, job);
      if job.queue != queueName || group.None? then 0.0
      else
        var alloc := AmountWith(job.tasks, {"Bound", "Binding", "Running", "Allocated"}, n);
        var min := At(group.value.minResources, n);
        if alloc > min then alloc - min else 0.0
  }

  /** The sum, if some job contributes to it. */
  ghost predicate SumsTo(figure: Option<real>, jobs: map<string, CacheJob>, amount: CacheJob -> real) {
    && (figure.Some? ==> figure.value == SumOver(jobs, jobs.Keys, amount))
    && (figure.None? ==> SumOver(jobs, jobs.Keys, amount) == 0.0)
    && (figure.Some? <==> exists k <- jobs :: amount(jobs[k]) != 0.0)
  }

  ghost predicate RowMeans(
    rows: Rows, jobs: map<string, CacheJob>, podGroups: seq<PodGroup>, queueName: string, n: string)
  {
    var r := if n in rows then rows[n] else SnapshotResource(None, None, None, None, None, None);
    && SumsTo(r.alloc, jobs, TaskAmount(queueName, {"Bound", "Binding", "Running", "Allocated"}, n))
    && SumsTo(r.request, jobs, TaskAmount(queueName, {"Bound", "Binding", "Running", "Allocated", "Pending"}, n))
    && SumsTo(r.inqueue, jobs, InqueueAmount(podGroups, queueName, n))
    && SumsTo(r.elastic, jobs, ElasticAmount(podGroups, queueName, n))
  }

  lemma {:induction false} GroupForIsIndexed(podGroups: seq<PodGroup>, job: CacheJob, scope: Scope)
    requires scope.podGroups == PodGroupIndex(podGroups)
    ensures GroupOf(job, scope) == GroupFor(podGroups, job)
  {
    if podGroups != [] {
      var before := podGroups[..|podGroups| - 1];
      GroupForIsIndexed(before, job, Scope(scope.queueName, PodGroupIndex(before)));
    }
  }

  lemma PostingMeans(job: CacheJob, podGroups: seq<PodGroup>, queueName: string, n: string)
    ensures var scope := Scope(queueName, PodGroupIndex(podGroups));
      && JobAmount(job, scope, Posted(Allocated), n)
         == TaskAmount(queueName, {"Bound", "Binding", "Running", "Allocated"}, n)(job)
      && JobAmount(job, scope, Posted(Request), n)
         == TaskAmount(queueName, {"Bound", "Binding", "Running", "Allocated", "Pending"}, n)(job)
      && JobAmount(job, scope, Posted(Inqueue), n) == InqueueAmount(podGroups, queueName, n)(job)
      && JobAmount(job, scope, Posted(Elastic), n) == ElasticAmount(podGroups, queueName, n)(job)
  {
    TaskSumIsAmount(job.tasks, n);
    GroupForIsIndexed(podGroups, job, Scope(queueName, PodGroupIndex(podGroups)));
  }

  lemma {:induction false} TotalIsSum(
    jobs: map<string, CacheJob>, keys: set<string>, scope: Scope, m: Measure, n: string, amount: CacheJob -> real)
    requires keys <= jobs.Keys && forall k <- keys :: JobAmount(jobs[k], scope, m, n) == amount(jobs[k])
    ensures Total(jobs, keys, scope, m, n) == SumOver(jobs, keys, amount)
    decreases |keys|
  {
    if keys != {} {
      var k :| k in keys;
      TotalIsSum(jobs, keys - {k}, scope, m, n, amount);
      TotalTakesAnyJobFirst(jobs, keys, scope, m, n, k);
      SumTakesAnyJobFirst(jobs, keys, amount, k);
    }
  }

  lemma FigureSums(
    rows: Rows, jobs: map<string, CacheJob>, scope: Scope, s: ResourceSet, n: string, amount: CacheJob -> real)
    requires TalliedAt(rows, jobs, jobs.Keys, scope, s, n)
    requires forall k <- jobs :: JobAmount(jobs[k], scope, Posted(s), n) == amount(jobs[k])
    ensures SumsTo(Read(Row(rows, n), s), jobs, amount)
  {
    TotalIsSum(jobs, jobs.Keys, scope, Posted(s), n, amount);
  }

  /** The four job figures of a row, with the statuses, phases and differences spelled out. */
  lemma RowFigures(rows: Rows, jobs: map<string, CacheJob>, podGroups: seq<PodGroup>, queueName: string, n: string)
    requires Tallied(rows, jobs, jobs.Keys, Scope(queueName, PodGroupIndex(podGroups)))
    ensures RowMeans(rows, jobs, podGroups, queueName, n)
  {
    var scope := Scope(queueName, PodGroupIndex(podGroups));
    forall k | k in jobs {
      PostingMeans(jobs[k], podGroups, queueName, n);
    }
    var held := {"Bound", "Binding", "Running", "Allocated"};
    var requested := {"Bound", "Binding", "Running", "Allocated", "Pending"};
    assert forall s | JobSet(s) :: TalliedAt(rows, jobs, jobs.Keys, scope, s, n);
    FigureSums(rows, jobs, scope, Allocated, n, TaskAmount(queueName, held, n));
    FigureSums(rows, jobs, scope, Request, n, TaskAmount(queueName, requested, n));
    FigureSums(rows, jobs, scope, Inqueue, n, InqueueAmount(podGroups, queueName, n));
    FigureSums(rows, jobs, scope, Elastic, n, ElasticAmount(podGroups, queueName, n));
  }

  /** What `BuildQueueSnapshot` promises of the rows when it succeeds. */
  ghost predicate SnapshotOf(
    rows: Rows, nodes: map<string, CacheNode>, jobs: map<string, CacheJob>, queues: seq<Queue>,
    podGroups: seq<PodGroup>, queueName: string)
  {
    && queueName in QueueIndex(queues) && NoIdleRows(rows)
    && Tallied(rows, jobs, jobs.Keys, Scope(queueName, PodGroupIndex(podGroups)))
    && CapabilityIs(rows, RealCapability(NodeTotals(nodes), queues, QueueIndex(queues)[queueName]))
  }

  /** Every row is about a resource that some node, queue, task or PodGroup names. */
  lemma RowsAreNamed(
    rows: Rows, nodes: map<string, CacheNode>, jobs: map<string, CacheJob>, queues: seq<Queue>,
    podGroups: seq<PodGroup>, queueName: string, n: string)
    requires SnapshotOf(rows, nodes, jobs, queues, podGroups, queueName) && n in rows
    ensures Named(nodes, jobs, queues, podGroups, n)
  {
    if rows[n].capability.Some? {
      assert Read(Row(rows, n), Capability).Some?;
      CapabilityNames(nodes, queues, queueName, n);
    } else {
      var s :| JobSet(s) && Read(rows[n], s).Some?;
      assert TalliedAt(rows, jobs, jobs.Keys, Scope(queueName, PodGroupIndex(podGroups)), s, n);
      var k :| k in jobs && JobAmount(jobs[k], Scope(queueName, PodGroupIndex(podGroups)), Posted(s), n) != 0.0;
      JobAmountNames(jobs[k], podGroups, queueName, s, n);
    }
  }

  /** The deserved column, filled in afterwards, takes no part in this. */
  lemma DeservedKeepsSnapshot(
    rows: Rows, after: Rows, nodes: map<string, CacheNode>, jobs: map<string, CacheJob>, queues: seq<Queue>,
    podGroups: seq<PodGroup>, queueName: string)
    requires SnapshotOf(rows, nodes, jobs, queues, podGroups, queueName) && after.Keys == rows.Keys
    requires forall n <- rows :: exists x :: after[n] == Write(rows[n], Deserved, x)
    ensures SnapshotOf(after, nodes, jobs, queues, podGroups, queueName)
  {
    forall s, n | s != Deserved ensures Read(Row(after, n), s) == Read(Row(rows, n), s) {
    }
    forall s, n | JobSet(s)
      ensures TalliedAt(after, jobs, jobs.Keys, Scope(queueName, PodGroupIndex(podGroups)), s, n)
    {
      assert TalliedAt(rows, jobs, jobs.Keys, Scope(queueName, PodGroupIndex(podGroups)), s, n);
    }
    forall n | n in after ensures after[n].capability.Some? || exists s :: JobSet(s) && Read(after[n], s).Some? {
      if rows[n].capability.None? {
        var s :| JobSet(s) && Read(rows[n], s).Some?;
        assert JobSet(s) && Read(after[n], s).Some?;
      }
    }
  }

  lemma CapabilityNames(nodes: map<string, CacheNode>, queues: seq<Queue>, queueName: string, n: string)
    requires queueName in QueueIndex(queues)
    requires n in RealCapability(NodeTotals(nodes), queues, QueueIndex(queues)[queueName])
    ensures NamedByNode(nodes, n) || NamedByQueue(queues, n)
  {
    QueueNames(queues, n);
    var queue := QueueIndex(queues)[queueName];
    assert queue in queues;
    if n !in queue.guarantee && n !in queue.capability && n !in GuaranteeSum(queues) {
      assert n in NodeTotals(nodes);
    }
  }

  // ---- What the figures mean -----------------------------------------------

  /**
   In every snapshot the loop can produce, the amount that counts against the quota
   is the sum of the jobs' commitments, and the request is what is allocated plus
   what is pending.
   */
  lemma CommitmentIdentity(rows: Rows, jobs: map<string, CacheJob>, scope: Scope, name: string)
    requires Tallied(rows, jobs, jobs.Keys, scope)
    ensures Figure(rows, Allocated, name) + Figure(rows, Inqueue, name) - Figure(rows, Elastic, name)
         == Total(jobs, jobs.Keys, scope, Commitment, name)
    ensures Figure(rows, Request, name) == Figure(rows, Allocated, name) + Total(jobs, jobs.Keys, scope, Pending, name)
  {
    TotalsCancel(jobs, jobs.Keys, scope, name);
    assert JobSet(Allocated) && JobSet(Inqueue) && JobSet(Elastic) && JobSet(Request);
    assert forall s | JobSet(s) :: TalliedAt(rows, jobs, jobs.Keys, scope, s, name);
  }

  predicate DistinctQueueNames(queues: seq<Queue>) {
    forall i, j :: 0 <= i < j < |queues| ==> queues[i].name != queues[j].name
  }

  function OtherGuarantees(queues: seq<Queue>, queueName: string, name: string): real {
    if queues == [] then 0.0
    else
      var q := queues[|queues| - 1];
      OtherGuarantees(queues[..|queues| - 1], queueName, name)
      + if q.name == queueName then 0.0 else At(q.guarantee, name)
  }

  lemma {:induction false} GuaranteesSplit(queues: seq<Queue>, queueName: string, name: string)
    requires DistinctQueueNames(queues)
    ensures queueName in QueueIndex(queues) <==> exists i :: 0 <= i < |queues| && queues[i].name == queueName
    ensures At(GuaranteeSum(queues), name) == OtherGuarantees(queues, queueName, name)
      + if queueName in QueueIndex(queues) then At(QueueIndex(queues)[queueName].guarantee, name) else 0.0
  {
    if queues != [] {
      var before := queues[..|queues| - 1];
      GuaranteesSplit(before, queueName, name);
      assert queueName in QueueIndex(before) ==> exists i :: 0 <= i < |before| && queues[i].name == queueName;
      assert forall i :: 0 <= i < |before| ==> before[i] == queues[i];
    }
  }

  /** Whether one more amount `x` leaves the other queues' guarantees and the declared limit intact. */
  predicate LeavesGuarantees(x: real, total: Values, queues: seq<Queue>, queue: Queue, name: string) {
    && x + OtherGuarantees(queues, queue.name, name) <= At(total, name)
    && (name in queue.capability ==> x <= queue.capability[name])
  }

  /**
   The real capability is the largest amount that leaves every other queue's
   guarantee available and respects the declared limit. It covers the queue's own
   guarantee exactly when all guarantees fit into the cluster and the limit covers it.
   */
  lemma GuaranteeReservation(total: Values, queues: seq<Queue>, queueName: string, name: string)
    requires DistinctQueueNames(queues) && queueName in QueueIndex(queues)
    requires name in total || name in GuaranteeSum(queues)
    ensures var queue := QueueIndex(queues)[queueName];
            var capability := RealCapability(total, queues, queue);
            && queue.name == queueName && name in capability
            && LeavesGuarantees(capability[name], total, queues, queue, name)
            && (forall x :: LeavesGuarantees(x, total, queues, queue, name) ==> x <= capability[name])
            && (At(queue.guarantee, name) <= capability[name] <==>
                  && At(GuaranteeSum(queues), name) <= At(total, name)
                  && (name in queue.capability ==> At(queue.guarantee, name) <= queue.capability[name]))
  {
    GuaranteesSplit(queues, queueName, name);
    QueueIndexNames(queues, queueName);
  }

  lemma {:induction false} QueueIndexNames(queues: seq<Queue>, queueName: string)
    ensures queueName in QueueIndex(queues) ==> QueueIndex(queues)[queueName].name == queueName
  {
    if queues != [] {
      QueueIndexNames(queues[..|queues| - 1], queueName);
    }
  }

  // ---- The capacity plugin's deserved share --------------------------------

  function Lowered(value: real, limit: Option<real>): real {
    if limit.Some? && value > limit.value then limit.value else value
  }

  predicate WithinShare(x: real, r: SnapshotResource, queue: Queue, name: string) {
    && x <= At(queue.deserved, name)
    && (r.capability.Some? ==> x <= r.capability.value)
    && (r.request.Some? ==> x <= r.request.value)
  }

  /**
   Never below the guarantee; above it, the largest amount within the declared
   share, the capability and the request.
   */
  function DeservedShare(r: SnapshotResource, queue: Queue, name: string): (v: real)
    ensures At(queue.guarantee, name) <= v
    ensures v > At(queue.guarantee, name) ==> WithinShare(v, r, queue, name)
    ensures forall x :: WithinShare(x, r, queue, name) ==> x <= v
  {
    var value := Lowered(Lowered(At(queue.deserved, name), r.capability), r.request);
    if value < At(queue.guarantee, name) then At(queue.guarantee, name) else value
  }

  method ClampDeserved(resource: SnapshotResource, queue: Queue, name: string) returns (value: real)
    ensures value == DeservedShare(resource, queue, name)
  {
    value := At(queue.deserved, name);
    if resource.capability.Some? && value > resource.capability.value {
      value := resource.capability.value;
    }
    if resource.request.Some? && value > resource.request.value {
      value := resource.request.value;
    }
    if value < At(queue.guarantee, name) {
      value := At(queue.guarantee, name);
    }
  }

  predicate FirstNamed(queues: seq<Queue>, queueName: string, i: int) {
    && 0 <= i < |queues| && queues[i].name == queueName
    && forall j :: 0 <= j < i ==> queues[j].name != queueName
  }

  /** Uses the first queue of that name, while the capability above used the last. */
  method PopulateCapacityDeserved(snapshot: QueueSnapshot, queues: seq<Queue>, queueName: string)
    modifies snapshot
    ensures (forall i :: 0 <= i < |queues| ==> queues[i].name != queueName) ==>
      snapshot.resources == old(snapshot.resources)
    ensures forall i :: FirstNamed(queues, queueName, i) ==>
            snapshot.resources == map n | n in old(snapshot.resources) ::
              Write(old(snapshot.resources)[n], Deserved, DeservedShare(old(snapshot.resources)[n], queues[i], n))
  {
    for i := 0 to |queues|
      invariant snapshot.resources == old(snapshot.resources)
      invariant forall j :: 0 <= j < i ==> queues[j].name != queueName
    {
      if queues[i].name != queueName {
        continue;
      }
      DeserveFrom(snapshot, queues[i]);
      return;
    }
  }

  method DeserveFrom(snapshot: QueueSnapshot, queue: Queue)
    modifies snapshot
    ensures snapshot.resources == map n | n in old(snapshot.resources) ::
              Write(old(snapshot.resources)[n], Deserved, DeservedShare(old(snapshot.resources)[n], queue, n))
  {
    var rest := snapshot.resources.Keys;
    ghost var was := snapshot.resources;
    while rest != {}
      invariant rest <= was.Keys && snapshot.resources.Keys == was.Keys
      invariant forall n :: n in was && n in rest ==> snapshot.resources[n] == was[n]
      invariant forall n :: n in was && n !in rest ==>
        snapshot.resources[n] == Write(was[n], Deserved, DeservedShare(was[n], queue, n))
      decreases |rest|
    {
      var name :| name in rest;
      var value := ClampDeserved(snapshot.resources[name], queue, name);
      snapshot.SetResourceValue(name, Deserved, value);
      rest := rest - {name};
    }
  }
}
