/**
 The line-driven scanner of the scheduler's cache dump (internal/cluster/cache.go).
 A log line is represented by what the scanner can find out about it: which markers
 it contains, in any combination, and what the three parsers make of it.
 */
module CacheScan {
  import opened Prelude
  import opened ResourceValues

  datatype CacheNode = CacheNode(name: string, allocatable: Values, idle: Values, used: Values, releasing: Values)

  datatype CacheTask = CacheTask(
    uid: string, namespace: string, name: string, job: string, status: string, resreq: Values)

  datatype CacheJob = CacheJob(
    uid: string, namespace: string, name: string, queue: string, minAvailable: int, tasks: seq<CacheTask>)

  datatype Line = Line(
    nodeStart: bool, jobStart: bool, dumpEnd: bool, nodePrefix: bool, jobPrefix: bool, taskPrefix: bool,
    node: Option<CacheNode>, job: Option<CacheJob>, task: Option<CacheTask>)

  datatype StreamError = ReadFailed | EndedEarly

  datatype CaptureResult = CaptureResult(
    nodes: map<string, CacheNode>, jobs: map<string, CacheJob>, parseFailed: bool, error: Option<StreamError>)

  function Key(namespace: string, name: string): string {
    namespace + "/" + name
  }

  function JobKey(j: CacheJob): string {
    Key(j.namespace, j.name)
  }

  /** `ParseJobCache` fills every field but the tasks. */
  function Header(j: CacheJob): CacheJob {
    j.(tasks := [])
  }

  datatype State = State(
    nodes: map<string, CacheNode>, jobs: map<string, CacheJob>, parseFailed: bool,
    nodeStarted: bool, jobStarted: bool, current: string)

  const START := State(map[], map[], false, false, false, "")

  predicate Finishes(s: State, l: Line) {
    !l.nodeStart && !(s.nodeStarted && l.jobStart) && s.jobStarted && l.dumpEnd
  }

  function Advance(s: State, l: Line): State {
    if l.nodeStart then State(map[], map[], false, true, false, "")
    else if s.nodeStarted && l.jobStart then s.(nodeStarted := false, jobStarted := true)
    else if s.nodeStarted && l.nodePrefix then
      match l.node
      case None => s.(parseFailed := true)
      case Some(n) => s.(nodes := s.nodes[n.name := n])
    else if !s.jobStarted then s
    else if l.jobPrefix then
      match l.job
      case None => s.(parseFailed := true, current := "")
      case Some(j) => s.(jobs := s.jobs[JobKey(j) := Header(j)], current := JobKey(j))
    else if s.current == "" || !l.taskPrefix then s
    else
      match l.task
      case None => s.(parseFailed := true)
      case Some(t) => if s.current in s.jobs then s.(jobs := Append(s.jobs, s.current, t)) else s
  }

  function Append(jobs: map<string, CacheJob>, key: string, t: CacheTask): map<string, CacheJob>
    requires key in jobs
  {
    jobs[key := jobs[key].(tasks := jobs[key].tasks + [t])]
  }

  function Scan(s: State, lines: seq<Line>, readFailed: bool): CaptureResult
    decreases |lines|
  {
    if lines == [] then
      CaptureResult(s.nodes, s.jobs, s.parseFailed, Some(if readFailed then ReadFailed else EndedEarly))
    else if Finishes(s, lines[0]) then CaptureResult(s.nodes, s.jobs, s.parseFailed, None)
    else Scan(Advance(s, lines[0]), lines[1..], readFailed)
  }

  method ScanCacheDump(lines: seq<Line>, readFailed: bool) returns (result: CaptureResult)
    ensures result == Scan(START, lines, readFailed)
  {
    var nodes: map<string, CacheNode>, jobs: map<string, CacheJob> := map[], map[];
    var parseFailed, nodeStarted, jobStarted, currentJobKey := false, false, false, "";
    for i := 0 to |lines|
      invariant currentJobKey == "" || currentJobKey in jobs
      invariant Scan(START, lines, readFailed)
             == Scan(State(nodes, jobs, parseFailed, nodeStarted, jobStarted, currentJobKey), lines[i..], readFailed)
    {
      var line := lines[i];
      assert lines[i..][1..] == lines[i + 1..];
      if line.nodeStart {
        nodeStarted, jobStarted := true, false;
        nodes, jobs := map[], map[];
        parseFailed, currentJobKey := false, "";
        continue;
      }
      if nodeStarted && line.jobStart {
        nodeStarted, jobStarted := false, true;
        continue;
      }
      if jobStarted && line.dumpEnd {
        return CaptureResult(nodes, jobs, parseFailed, None);
      }
      if nodeStarted && line.nodePrefix {
        if line.node.None? {
          parseFailed := true;
          continue;
        }
        nodes := nodes[line.node.value.name := line.node.value];
        continue;
      }
      if !jobStarted {
        continue;
      }
      if line.jobPrefix {
        if line.job.None? {
          parseFailed, currentJobKey := true, "";
          continue;
        }
        currentJobKey := JobKey(line.job.value);
        jobs := jobs[currentJobKey := Header(line.job.value)];
        continue;
      }
      if currentJobKey == "" || !line.taskPrefix {
        continue;
      }
      if line.task.None? {
        parseFailed := true;
        continue;
      }
      jobs := Append(jobs, currentJobKey, line.task.value);
    }
    result := CaptureResult(nodes, jobs, parseFailed, Some(if readFailed then ReadFailed else EndedEarly));
  }

  // ---- Boundaries ----------------------------------------------------------

  /** Some line of the sequence ends the scan. */
  predicate Completes(s: State, lines: seq<Line>)
    decreases |lines|
  {
    lines != [] && (Finishes(s, lines[0]) || Completes(Advance(s, lines[0]), lines[1..]))
  }

  function Run(s: State, lines: seq<Line>): State
    decreases |lines|
  {
    if lines == [] then s else Run(Advance(s, lines[0]), lines[1..])
  }

  lemma {:induction false} ScanSplits(s: State, before: seq<Line>, after: seq<Line>, readFailed: bool)
    requires !Completes(s, before)
    ensures Scan(s, before + after, readFailed) == Scan(Run(s, before), after, readFailed)
    decreases |before|
  {
    if before == [] {
      assert before + after == after;
    } else {
      assert (before + after)[1..] == before[1..] + after;
      ScanSplits(Advance(s, before[0]), before[1..], after, readFailed);
    }
  }

  /** Nothing before the last start marker matters, unless it already held a complete dump. */
  lemma LinesBeforeTheLastStartDoNotMatter(older: seq<Line>, start: Line, rest: seq<Line>, readFailed: bool)
    requires start.nodeStart && !Completes(START, older)
    ensures Scan(START, older + ([start] + rest), readFailed) == Scan(START, [start] + rest, readFailed)
  {
    ScanSplits(START, older, [start] + rest, readFailed);
  }

  /** Nothing after the end marker matters, not even whether the stream broke. */
  lemma {:induction false} LinesAfterTheEndDoNotMatter(
    s: State, dump: seq<Line>, after: seq<Line>, broke: bool, breaks: bool)
    requires Completes(s, dump)
    ensures Scan(s, dump + after, broke) == Scan(s, dump, breaks)
    ensures Scan(s, dump, breaks).error == None
    decreases |dump|
  {
    assert (dump + after)[1..] == dump[1..] + after;
    if !Finishes(s, dump[0]) {
      LinesAfterTheEndDoNotMatter(Advance(s, dump[0]), dump[1..], after, broke, breaks);
    }
  }

  /** Section flags can only have been raised by their markers, in order. */
  predicate Began(lines: seq<Line>, s: State) {
    && (s.nodeStarted ==> exists i :: 0 <= i < |lines| && lines[i].nodeStart)
    && (s.jobStarted ==> exists i, j :: 0 <= i < j < |lines| && lines[i].nodeStart && lines[j].jobStart)
  }

  predicate SawAllMarkers(lines: seq<Line>) {
    exists i, j, k :: 0 <= i < j < k < |lines| && lines[i].nodeStart && lines[j].jobStart && lines[k].dumpEnd
  }

  /** A scan without an error saw a start marker, then the job marker, then the end marker. */
  lemma {:induction false} CompleteScanSawAllMarkers(seen: seq<Line>, s: State, rest: seq<Line>, readFailed: bool)
    requires Began(seen, s) && Scan(s, rest, readFailed).error == None
    ensures SawAllMarkers(seen + rest)
    decreases |rest|
  {
    var all := seen + rest;
    if Finishes(s, rest[0]) {
      var i, j :| 0 <= i < j < |seen| && seen[i].nodeStart && seen[j].jobStart;
      assert all[i] == seen[i] && all[j] == seen[j] && all[|seen|] == rest[0];
    } else {
      var next := seen + [rest[0]];
      assert next + rest[1..] == all;
      var t := Advance(s, rest[0]);
      assert next[|seen|] == rest[0];
      if t.nodeStarted && s.nodeStarted && !rest[0].nodeStart {
        var i :| 0 <= i < |seen| && seen[i].nodeStart;
        assert next[i].nodeStart;
      }
      if t.jobStarted && s.jobStarted {
        var i, j :| 0 <= i < j < |seen| && seen[i].nodeStart && seen[j].jobStart;
        assert next[i].nodeStart && next[j].jobStart;
      } else if t.jobStarted {
        var i :| 0 <= i < |seen| && seen[i].nodeStart;
        assert next[i].nodeStart && next[|seen|].jobStart;
      }
      CompleteScanSawAllMarkers(next, t, rest[1..], readFailed);
    }
  }

  // ---- Round trip ----------------------------------------------------------

  /** Lines that carry nothing in the node section. */
  predicate NodeNoise(l: Line) {
    !l.nodeStart && !l.jobStart && !l.nodePrefix
  }

  /** A node line that does not parse. */
  predicate BrokenNode(l: Line) {
    !l.nodeStart && !l.jobStart && l.nodePrefix && l.node.None?
  }

  predicate NodeLine(l: Line, n: CacheNode) {
    !l.nodeStart && !l.jobStart && l.nodePrefix && l.node == Some(n)
  }

  predicate RendersNodes(lines: seq<Line>, nodes: seq<CacheNode>) {
    if lines == [] then nodes == []
    else
      || ((NodeNoise(lines[0]) || BrokenNode(lines[0])) && RendersNodes(lines[1..], nodes))
      || (nodes != [] && NodeLine(lines[0], nodes[0]) && RendersNodes(lines[1..], nodes[1..]))
  }

  predicate SomeNodeBroken(lines: seq<Line>) {
    exists i :: 0 <= i < |lines| && BrokenNode(lines[i])
  }

  /** Lines that carry nothing in the job section. */
  predicate JobNoise(l: Line) {
    !l.nodeStart && !l.dumpEnd && !l.jobPrefix && !l.taskPrefix
  }

  predicate BrokenTask(l: Line) {
    !l.nodeStart && !l.dumpEnd && !l.jobPrefix && l.taskPrefix && l.task.None?
  }

  /** A job line that does not parse stands for a job that is lost. */
  datatype Entry = Job(job: CacheJob) | Task(task: CacheTask) | Lost

  predicate EntryLine(l: Line, e: Entry) {
    && !l.nodeStart && !l.dumpEnd
    && match e
       case Job(j) => l.jobPrefix && l.job.Some? && Header(l.job.value) == Header(j)
       case Task(t) => !l.jobPrefix && l.taskPrefix && l.task == Some(t)
       case Lost => l.jobPrefix && l.job.None?
  }

  predicate RendersEntries(lines: seq<Line>, entries: seq<Entry>) {
    if lines == [] then entries == []
    else
      || ((JobNoise(lines[0]) || BrokenTask(lines[0])) && RendersEntries(lines[1..], entries))
      || (entries != [] && EntryLine(lines[0], entries[0]) && RendersEntries(lines[1..], entries[1..]))
  }

  /** A job line that does not parse, or a task line while there is a job for it. */
  predicate SomeEntryBroken(lines: seq<Line>, hasJob: bool) {
    lines != [] && (
      if lines[0].jobPrefix then lines[0].job.None? || SomeEntryBroken(lines[1..], lines[0].job.Some?)
      else (hasJob && BrokenTask(lines[0])) || SomeEntryBroken(lines[1..], hasJob))
  }

  function TaskEntries(tasks: seq<CacheTask>): seq<Entry> {
    if tasks == [] then [] else TaskEntries(tasks[..|tasks| - 1]) + [Task(tasks[|tasks| - 1])]
  }

  /** A job with its tasks, or the tasks behind a job line that does not parse. */
  datatype Block = Whole(job: CacheJob) | Orphans(tasks: seq<CacheTask>)

  /** Each job's line followed by the lines of its tasks, in order. */
  function Entries(blocks: seq<Block>): seq<Entry> {
    if blocks == [] then []
    else
      Entries(blocks[..|blocks| - 1]) +
      match blocks[|blocks| - 1]
      case Whole(j) => [Job(j)] + TaskEntries(j.tasks)
      case Orphans(tasks) => [Lost] + TaskEntries(tasks)
  }

  function WholeJobs(blocks: seq<Block>): seq<CacheJob> {
    if blocks == [] then []
    else
      var before, last := WholeJobs(blocks[..|blocks| - 1]), blocks[|blocks| - 1];
      if last.Whole? then before + [last.job] else before
  }

  function NodeMap(nodes: seq<CacheNode>): map<string, CacheNode> {
    if nodes == [] then map[] else NodeMap(nodes[..|nodes| - 1])[nodes[|nodes| - 1].name := nodes[|nodes| - 1]]
  }

  function JobMap(jobs: seq<CacheJob>): map<string, CacheJob> {
    if jobs == [] then map[] else JobMap(jobs[..|jobs| - 1])[JobKey(jobs[|jobs| - 1]) := jobs[|jobs| - 1]]
  }

  lemma {:induction false} NodeSection(lines: seq<Line>, done: seq<CacheNode>, nodes: seq<CacheNode>, failed: bool)
    requires RendersNodes(lines, nodes)
    ensures var s := State(NodeMap(done), map[], failed, true, false, "");
      && !Completes(s, lines)
      && Run(s, lines) == s.(nodes := NodeMap(done + nodes), parseFailed := failed || SomeNodeBroken(lines))
    decreases |lines|
  {
    if lines == [] {
      assert done + nodes == done;
    } else {
      var l, rest := lines[0], lines[1..];
      assert SomeNodeBroken(lines) <==> BrokenNode(l) || SomeNodeBroken(rest) by {
        assert lines == [l] + rest;
        if i :| 0 <= i < |rest| && BrokenNode(rest[i]) {
          assert BrokenNode(lines[i + 1]);
        }
      }
      if nodes != [] && NodeLine(l, nodes[0]) && RendersNodes(rest, nodes[1..]) {
        var more := done + [nodes[0]];
        assert more[..|done|] == done && more + nodes[1..] == done + nodes;
        NodeSection(rest, more, nodes[1..], failed);
      } else {
        NodeSection(rest, done, nodes, failed || BrokenNode(l));
      }
    }
  }

  /** What the entries seen so far add to the jobs. */
  datatype Tally = Tally(jobs: map<string, CacheJob>, current: string)

  function Applied(entries: seq<Entry>): Tally {
    if entries == [] then Tally(map[], "")
    else
      var t := Applied(entries[..|entries| - 1]);
      match entries[|entries| - 1]
      case Job(j) => Tally(t.jobs[JobKey(j) := Header(j)], JobKey(j))
      case Task(k) => if t.current in t.jobs then t.(jobs := Append(t.jobs, t.current, k)) else t
      case Lost => t.(current := "")
  }

  lemma EntryStep(s: State, l: Line, done: seq<Entry>, e: Entry)
    requires EntryLine(l, e) && !s.nodeStarted && s.jobStarted && "" !in s.jobs
    requires Tally(s.jobs, s.current) == Applied(done)
    ensures var t := Applied(done + [e]);
      && !Finishes(s, l) && "" !in t.jobs
      && Advance(s, l) == s.(jobs := t.jobs, current := t.current, parseFailed := s.parseFailed || e.Lost?)
      && (t.current != "" <==> if l.jobPrefix then l.job.Some? else s.current != "")
  {
    assert (done + [e])[..|done|] == done;
    assert e.Job? ==> JobKey(l.job.value) == JobKey(e.job);
  }

  lemma QuietStep(s: State, l: Line)
    requires (JobNoise(l) || BrokenTask(l)) && !s.nodeStarted && s.jobStarted
    ensures !Finishes(s, l)
    ensures Advance(s, l) == s.(parseFailed := s.parseFailed || (s.current != "" && BrokenTask(l)))
  {
  }

  lemma {:induction false} JobSection(s: State, lines: seq<Line>, done: seq<Entry>, entries: seq<Entry>)
    requires RendersEntries(lines, entries)
    requires !s.nodeStarted && s.jobStarted && Tally(s.jobs, s.current) == Applied(done)
    requires "" !in s.jobs
    ensures var t := Applied(done + entries);
      && !Completes(s, lines)
      && Run(s, lines) == s.(
           jobs := t.jobs, current := t.current,
           parseFailed := s.parseFailed || SomeEntryBroken(lines, s.current != ""))
    decreases |lines|
  {
    if lines == [] {
      assert done + entries == done;
    } else if entries != [] && EntryLine(lines[0], entries[0]) && RendersEntries(lines[1..], entries[1..]) {
      EntryStep(s, lines[0], done, entries[0]);
      assert done + [entries[0]] + entries[1..] == done + entries;
      JobSection(Advance(s, lines[0]), lines[1..], done + [entries[0]], entries[1..]);
    } else {
      QuietStep(s, lines[0]);
      JobSection(Advance(s, lines[0]), lines[1..], done, entries);
    }
  }

  /** One more task for the job that is current. */
  lemma AppliedTask(before: seq<Entry>, t: CacheTask, others: map<string, CacheJob>, key: string, j: CacheJob)
    requires Applied(before) == Tally(others[key := j], key)
    ensures Applied(before + [Task(t)]) == Tally(others[key := j.(tasks := j.tasks + [t])], key)
  {
    assert (before + [Task(t)])[..|before|] == before;
  }

  lemma AppliedJob(before: seq<Entry>, j: CacheJob)
    ensures Applied(before + [Job(j)]) == Tally(Applied(before).jobs[JobKey(j) := Header(j)], JobKey(j))
  {
    assert (before + [Job(j)])[..|before|] == before;
  }

  lemma {:induction false} TasksCollect(before: seq<Entry>, j: CacheJob, tasks: seq<CacheTask>)
    ensures Applied(before + [Job(j)] + TaskEntries(tasks))
         == Tally(Applied(before).jobs[JobKey(j) := j.(tasks := tasks)], JobKey(j))
  {
    var header := before + [Job(j)];
    if tasks == [] {
      assert header + [] == header;
      AppliedJob(before, j);
    } else {
      var init, last := tasks[..|tasks| - 1], tasks[|tasks| - 1];
      TasksCollect(before, j, init);
      assert header + TaskEntries(tasks) == header + TaskEntries(init) + [Task(last)];
      AppliedTask(header + TaskEntries(init), last, Applied(before).jobs, JobKey(j), j.(tasks := init));
      assert init + [last] == tasks;
    }
  }

  /** Tasks behind a job line that does not parse belong to no job. */
  lemma {:induction false} OrphansAreDropped(before: seq<Entry>, tasks: seq<CacheTask>)
    requires "" !in Applied(before).jobs
    ensures Applied(before + [Lost] + TaskEntries(tasks)) == Tally(Applied(before).jobs, "")
  {
    var header := before + [Lost];
    if tasks == [] {
      assert header + [] == header && header[..|before|] == before;
    } else {
      var init, last := tasks[..|tasks| - 1], tasks[|tasks| - 1];
      OrphansAreDropped(before, init);
      var all := header + TaskEntries(init);
      assert header + TaskEntries(tasks) == all + [Task(last)] && (all + [Task(last)])[..|all|] == all;
    }
  }

  lemma {:induction false} EntriesCollect(blocks: seq<Block>)
    ensures Applied(Entries(blocks)).jobs == JobMap(WholeJobs(blocks)) && "" !in Applied(Entries(blocks)).jobs
  {
    if blocks != [] {
      var init, last := blocks[..|blocks| - 1], blocks[|blocks| - 1];
      EntriesCollect(init);
      match last {
        case Whole(j) =>
          assert Entries(blocks) == Entries(init) + [Job(j)] + TaskEntries(j.tasks);
          TasksCollect(Entries(init), j, j.tasks);
          assert (WholeJobs(init) + [j])[..|WholeJobs(init)|] == WholeJobs(init);
        case Orphans(tasks) =>
          assert Entries(blocks) == Entries(init) + [Lost] + TaskEntries(tasks);
          OrphansAreDropped(Entries(init), tasks);
      }
    }
  }

  /**
   Scanning a rendered dump gives the dump back, with noise and lines that do not
   parse anywhere, unfinished older dumps in front and anything behind. What does not
   parse is missing, together with the tasks of a lost job, and raises the failure.
   */
  lemma RoundTrip(
    older: seq<Line>, start: Line, nodeLines: seq<Line>, middle: Line, jobLines: seq<Line>, end: Line, after: seq<Line>,
    nodes: seq<CacheNode>, blocks: seq<Block>, readFailed: bool)
    requires !Completes(START, older)
    requires start.nodeStart && RendersNodes(nodeLines, nodes)
    requires !middle.nodeStart && middle.jobStart && RendersEntries(jobLines, Entries(blocks))
    requires !end.nodeStart && end.dumpEnd
    ensures Scan(START, older + ([start] + (nodeLines + ([middle] + (jobLines + ([end] + after))))), readFailed)
         == CaptureResult(NodeMap(nodes), JobMap(WholeJobs(blocks)),
                          SomeNodeBroken(nodeLines) || SomeEntryBroken(jobLines, false), None)
  {
    var tail := [end] + after;
    var jobPart := jobLines + tail;
    var nodePart := nodeLines + ([middle] + jobPart);
    LinesBeforeTheLastStartDoNotMatter(older, start, nodePart, readFailed);
    assert ([start] + nodePart)[1..] == nodePart;
    var s := Advance(START, start);
    assert NodeMap([]) == map[] && [] + nodes == nodes;
    NodeSection(nodeLines, [], nodes, false);
    ScanSplits(s, nodeLines, [middle] + jobPart, readFailed);
    assert ([middle] + jobPart)[1..] == jobPart;
    var t := Advance(Run(s, nodeLines), middle);
    EntriesCollect(blocks);
    assert [] + Entries(blocks) == Entries(blocks);
    JobSection(t, jobLines, [], Entries(blocks));
    ScanSplits(t, jobLines, tail, readFailed);
  }

  predicate DistinctNames(nodes: seq<CacheNode>) {
    forall i, j :: 0 <= i < j < |nodes| ==> nodes[i].name != nodes[j].name
  }

  predicate DistinctKeys(jobs: seq<CacheJob>) {
    forall i, j :: 0 <= i < j < |jobs| ==> JobKey(jobs[i]) != JobKey(jobs[j])
  }

  /** With distinct names and keys nothing of the dump is lost. */
  lemma {:induction false} DistinctNodesAllKept(nodes: seq<CacheNode>)
    requires DistinctNames(nodes)
    ensures forall i :: 0 <= i < |nodes| ==>
      nodes[i].name in NodeMap(nodes) && NodeMap(nodes)[nodes[i].name] == nodes[i]
    ensures forall n :: n in NodeMap(nodes) ==> exists i :: 0 <= i < |nodes| && nodes[i].name == n
  {
    if nodes != [] {
      var before := nodes[..|nodes| - 1];
      DistinctNodesAllKept(before);
      assert forall i :: 0 <= i < |before| ==> before[i] == nodes[i];
    }
  }

  lemma {:induction false} DistinctJobsAllKept(jobs: seq<CacheJob>)
    requires DistinctKeys(jobs)
    ensures forall i :: 0 <= i < |jobs| ==> JobKey(jobs[i]) in JobMap(jobs) && JobMap(jobs)[JobKey(jobs[i])] == jobs[i]
    ensures forall k :: k in JobMap(jobs) ==> exists i :: 0 <= i < |jobs| && JobKey(jobs[i]) == k
  {
    if jobs != [] {
      var before := jobs[..|jobs| - 1];
      DistinctJobsAllKept(before);
      assert forall i :: 0 <= i < |before| ==> before[i] == jobs[i];
    }
  }
}
