/**
 What a scan returns for an arbitrary stream, said of line positions: where its
 sections lie, which lines are nodes, jobs and tasks of it, and which lines make it
 fail (internal/cluster/cache.go).
 */
module CacheDump {
  import opened Prelude
  import opened CacheScan

  // ---- Sections ----------------------------------------------------------------

  /**
   Among the first `n` lines the last start marker is at `s`, and from there on the
   first job marker is at `m`; without one, `m` is `n`.
   */
  predicate Sections(lines: seq<Line>, s: nat, m: nat, n: nat) {
    && s < m <= n <= |lines| && lines[s].nodeStart
    && (forall k :: s < k < n ==> !lines[k].nodeStart)
    && (forall k :: s < k < m ==> !lines[k].jobStart)
    && (m < n ==> lines[m].jobStart)
  }

  /** The line at `e` carries the end marker inside a job section. */
  ghost predicate Ends(lines: seq<Line>, e: nat) {
    e < |lines| && !lines[e].nodeStart && lines[e].dumpEnd && exists s: nat, m: nat :: Sections(lines, s, m, e) && m < e
  }

  /** The first line that does. */
  ghost predicate Completed(lines: seq<Line>, e: nat) {
    Ends(lines, e) && forall i :: 0 <= i < e ==> !Ends(lines, i)
  }

  // ---- What the lines between two positions hold ----------------------------------

  predicate NodeAt(lines: seq<Line>, i: nat, name: string) {
    i < |lines| && lines[i].nodePrefix && lines[i].node.Some? && lines[i].node.value.name == name
  }

  /** The last line strictly between two positions that gives this node. */
  function LastNode(lines: seq<Line>, s: nat, m: nat, name: string): (i: Option<nat>)
    ensures i.Some? ==> s < i.value < m && NodeAt(lines, i.value, name)
    ensures forall k: nat :: s < k < m && NodeAt(lines, k, name) ==> i.Some? && k <= i.value
  {
    if m <= s + 1 then None else if NodeAt(lines, m - 1, name) then Some(m - 1) else LastNode(lines, s, m - 1, name)
  }

  /** Every node as its last line gives it, and no others. */
  ghost predicate IsNodes(lines: seq<Line>, s: nat, m: nat, nodes: map<string, CacheNode>) {
    forall name :: NodeIs(lines, s, m, nodes, name)
  }

  predicate NodeIs(lines: seq<Line>, s: nat, m: nat, nodes: map<string, CacheNode>, name: string) {
    var i := LastNode(lines, s, m, name);
    if i.None? then name !in nodes else name in nodes && nodes[name] == lines[i.value].node.value
  }

  predicate JobAt(lines: seq<Line>, j: nat, key: string) {
    && j < |lines| && lines[j].jobPrefix && lines[j].job.Some?
    && lines[j].job.value.namespace + "/" + lines[j].job.value.name == key
  }

  function LastJob(lines: seq<Line>, m: nat, n: nat, key: string): (j: Option<nat>)
    ensures j.Some? ==> m < j.value < n && JobAt(lines, j.value, key)
    ensures forall k: nat :: m < k < n && JobAt(lines, k, key) ==> j.Some? && k <= j.value
  {
    if n <= m + 1 then None else if JobAt(lines, n - 1, key) then Some(n - 1) else LastJob(lines, m, n - 1, key)
  }

  /** The last job line, whether it parses or not. */
  function LastJobLine(lines: seq<Line>, m: nat, n: nat): (j: Option<nat>)
    requires n <= |lines|
    ensures j.Some? ==> m < j.value < n && lines[j.value].jobPrefix
    ensures forall k: nat :: m < k < n && lines[k].jobPrefix ==> j.Some? && k <= j.value
  {
    if n <= m + 1 then None else if lines[n - 1].jobPrefix then Some(n - 1) else LastJobLine(lines, m, n - 1)
  }

  /** The tasks on the lines behind the job line, up to the next job line. */
  function TasksOf(lines: seq<Line>, j: nat, n: nat): seq<CacheTask>
    requires n <= |lines|
  {
    if n <= j + 1 then []
    else
      var before, l := TasksOf(lines, j, n - 1), lines[n - 1];
      if LastJobLine(lines, j, n).Some? || !l.taskPrefix || l.task.None? then before else before + [l.task.value]
  }

  /** Every job as its last line gives it, with the tasks behind that line, and no others. */
  ghost predicate IsJobs(lines: seq<Line>, m: nat, n: nat, jobs: map<string, CacheJob>)
    requires n <= |lines|
  {
    forall key :: JobIs(lines, m, n, jobs, key)
  }

  predicate JobIs(lines: seq<Line>, m: nat, n: nat, jobs: map<string, CacheJob>, key: string)
    requires n <= |lines|
  {
    var j := LastJob(lines, m, n, key);
    if j.None? then key !in jobs
    else key in jobs && jobs[key] == lines[j.value].job.value.(tasks := TasksOf(lines, j.value, n))
  }

  /** Tasks at `n` belong to a job: the last job line parses. */
  predicate JobIsCurrent(lines: seq<Line>, m: nat, n: nat)
    requires n <= |lines|
  {
    var j := LastJobLine(lines, m, n);
    j.Some? && lines[j.value].job.Some?
  }

  /** A node line in the node section, a job line in the job section or a task line of a job that does not parse. */
  ghost predicate FailsAt(lines: seq<Line>, m: nat, i: nat) {
    && i < |lines|
    && (|| (i < m && lines[i].nodePrefix && lines[i].node.None?)
        || (i > m && lines[i].jobPrefix && lines[i].job.None?)
        || (i > m && !lines[i].jobPrefix && lines[i].taskPrefix && lines[i].task.None?
            && JobIsCurrent(lines, m, i)))
  }

  ghost predicate SomeFails(lines: seq<Line>, s: nat, m: nat, n: nat) {
    exists i: nat :: s < i < n && FailsAt(lines, m, i)
  }

  /** What a scan has found in the first `n` lines. */
  ghost predicate Found(
    lines: seq<Line>, n: nat, nodes: map<string, CacheNode>, jobs: map<string, CacheJob>, parseFailed: bool)
    requires n <= |lines|
  {
    && ((forall k :: 0 <= k < n ==> !lines[k].nodeStart) ==> nodes == map[] && jobs == map[] && !parseFailed)
    && forall s: nat, m: nat | Sections(lines, s, m, n) ::
      IsNodes(lines, s, m, nodes) && IsJobs(lines, m, n, jobs) && (parseFailed <==> SomeFails(lines, s, m, n))
  }

  // ---- The scanner's state at each line ---------------------------------------------

  function StateAt(lines: seq<Line>, n: nat): State
    requires n <= |lines|
  {
    if n == 0 then START else Advance(StateAt(lines, n - 1), lines[n - 1])
  }

  lemma {:induction false} ScanReaches(lines: seq<Line>, n: nat, readFailed: bool)
    requires n <= |lines| && forall i :: 0 <= i < n ==> !Finishes(StateAt(lines, i), lines[i])
    ensures Scan(START, lines, readFailed) == Scan(StateAt(lines, n), lines[n..], readFailed)
  {
    if n == 0 {
      assert lines[0..] == lines;
    } else {
      ScanReaches(lines, n - 1, readFailed);
      assert lines[n - 1..][0] == lines[n - 1] && lines[n - 1..][1..] == lines[n..];
    }
  }

  // ---- Sections and flags -------------------------------------------------------------

  ghost predicate Begun(lines: seq<Line>, n: nat)
    requires n <= |lines|
  {
    exists k :: 0 <= k < n && lines[k].nodeStart
  }

  lemma OneSection(lines: seq<Line>, s: nat, m: nat, t: nat, p: nat, n: nat)
    requires Sections(lines, s, m, n) && Sections(lines, t, p, n)
    ensures s == t && m == p
  {
  }

  /** The sections of one more line. */
  lemma NextSection(lines: seq<Line>, s: nat, m: nat, n: nat)
    requires n < |lines| && Sections(lines, s, m, n) && !lines[n].nodeStart
    ensures Sections(lines, s, if m == n && !lines[n].jobStart then n + 1 else m, n + 1)
  {
  }

  lemma FirstSection(lines: seq<Line>, n: nat)
    requires n < |lines| && lines[n].nodeStart
    ensures Sections(lines, n, n + 1, n + 1)
  {
  }

  lemma {:induction false} SectionExists(lines: seq<Line>, n: nat)
    requires n <= |lines| && Begun(lines, n)
    ensures exists s, m :: Sections(lines, s, m, n)
  {
    if lines[n - 1].nodeStart {
      FirstSection(lines, n - 1);
    } else {
      SectionExists(lines, n - 1);
      var s, m :| Sections(lines, s, m, n - 1);
      NextSection(lines, s, m, n - 1);
    }
  }

  // ---- One line more --------------------------------------------------------------------

  /** The scanner's state inside a dump, in terms of the text. */
  ghost predicate Describes(lines: seq<Line>, s: nat, m: nat, n: nat, st: State) {
    && Sections(lines, s, m, n) && st.nodeStarted == (m == n) && st.jobStarted == (m < n)
    && IsNodes(lines, s, m, st.nodes) && IsJobs(lines, m, n, st.jobs)
    && (st.parseFailed <==> SomeFails(lines, s, m, n))
    && (st.current != "" <==> JobIsCurrent(lines, m, n))
    && (JobIsCurrent(lines, m, n) ==> JobAt(lines, LastJobLine(lines, m, n).value, st.current))
  }

  lemma NextFails(lines: seq<Line>, s: nat, m: nat, n: nat)
    requires Sections(lines, s, m, n) && n < |lines|
    ensures SomeFails(lines, s, m, n + 1) <==> SomeFails(lines, s, m, n) || FailsAt(lines, m, n)
  {
  }

  lemma NextNode(lines: seq<Line>, s: nat, n: nat, nodes: map<string, CacheNode>)
    requires s < n < |lines| && IsNodes(lines, s, n, nodes)
    ensures var l := lines[n];
      IsNodes(lines, s, n + 1, if l.nodePrefix && l.node.Some? then nodes[l.node.value.name := l.node.value] else nodes)
  {
    var l := lines[n];
    var after := if l.nodePrefix && l.node.Some? then nodes[l.node.value.name := l.node.value] else nodes;
    var end := n + 1;
    forall name ensures NodeIs(lines, s, end, after, name) {
      assert NodeIs(lines, s, n, nodes, name);
    }
  }

  lemma NodeLineDescribed(lines: seq<Line>, s: nat, n: nat, st: State)
    requires n < |lines| && Describes(lines, s, n, n, st) && !lines[n].nodeStart && !lines[n].jobStart
    ensures Describes(lines, s, n + 1, n + 1, Advance(st, lines[n]))
  {
    NextSection(lines, s, n, n);
    NextNode(lines, s, n, st.nodes);
    NoJobsYet(lines, n, st.jobs);
    NoJobsStill(lines, n + 1);
    NextNodeFails(lines, s, n);
  }

  lemma NextNodeFails(lines: seq<Line>, s: nat, n: nat)
    requires s < n < |lines|
    ensures SomeFails(lines, s, n + 1, n + 1) <==>
      SomeFails(lines, s, n, n) || (lines[n].nodePrefix && lines[n].node.None?)
  {
    if SomeFails(lines, s, n, n) {
      var i: nat :| s < i < n && FailsAt(lines, n, i);
      assert FailsAt(lines, n + 1, i);
    }
    if lines[n].nodePrefix && lines[n].node.None? {
      assert FailsAt(lines, n + 1, n);
    }
    if SomeFails(lines, s, n + 1, n + 1) {
      var i: nat :| s < i < n + 1 && FailsAt(lines, n + 1, i);
      assert i < n ==> FailsAt(lines, n, i);
    }
  }

  lemma NoJobsYet(lines: seq<Line>, n: nat, jobs: map<string, CacheJob>)
    requires n <= |lines| && IsJobs(lines, n, n, jobs)
    ensures jobs == map[]
  {
    forall key ensures key !in jobs {
      assert JobIs(lines, n, n, jobs, key);
    }
  }

  lemma NoJobsStill(lines: seq<Line>, n: nat)
    requires n <= |lines|
    ensures IsJobs(lines, n, n, map[])
  {
    forall key ensures JobIs(lines, n, n, map[], key) {
    }
  }

  lemma JobMarkerDescribed(lines: seq<Line>, s: nat, n: nat, st: State)
    requires n < |lines| && Describes(lines, s, n, n, st) && !lines[n].nodeStart && lines[n].jobStart
    ensures Describes(lines, s, n, n + 1, Advance(st, lines[n]))
  {
    NextSection(lines, s, n, n);
    NextFails(lines, s, n, n);
    assert !FailsAt(lines, n, n);
    NoJobsYet(lines, n, st.jobs);
    OnlyMarker(lines, n);
  }

  lemma OnlyMarker(lines: seq<Line>, n: nat)
    requires n < |lines|
    ensures IsJobs(lines, n, n + 1, map[])
  {
    var end := n + 1;
    forall key ensures JobIs(lines, n, end, map[], key) {
    }
  }

  lemma StartDescribed(lines: seq<Line>, n: nat, st: State)
    requires n < |lines| && lines[n].nodeStart
    ensures Describes(lines, n, n + 1, n + 1, Advance(st, lines[n]))
  {
    FirstSection(lines, n);
  }

  // ---- One line more of the job section -----------------------------------------------------

  /** A line that carries no job changes no job but the current one. */
  lemma NextTask(lines: seq<Line>, m: nat, n: nat, j: nat)
    requires m < j < n < |lines|
    ensures TasksOf(lines, j, n + 1) ==
      if LastJobLine(lines, j, n + 1).Some? || !lines[n].taskPrefix || lines[n].task.None? then TasksOf(lines, j, n)
      else TasksOf(lines, j, n) + [lines[n].task.value]
  {
  }

  lemma NextJobLine(lines: seq<Line>, m: nat, n: nat)
    requires m < n < |lines|
    ensures LastJobLine(lines, m, n + 1) == if lines[n].jobPrefix then Some(n) else LastJobLine(lines, m, n)
  {
  }

  lemma JobLineIs(lines: seq<Line>, m: nat, n: nat, jobs: map<string, CacheJob>, key: string)
    requires m < n < |lines| && JobIs(lines, m, n, jobs, key) && lines[n].jobPrefix
    ensures var l := lines[n];
      var after := if l.job.Some? then jobs[JobKey(l.job.value) := Header(l.job.value)] else jobs;
      JobIs(lines, m, n + 1, after, key)
  {
    var j := LastJob(lines, m, n, key);
    if j.Some? && j.value < n {
      NextTask(lines, m, n, j.value);
    }
  }

  /** The job that a task line adds to is the one of the last job line. */
  lemma TaskLineIs(lines: seq<Line>, m: nat, n: nat, jobs: map<string, CacheJob>, current: string, key: string)
    requires m < n < |lines| && JobIs(lines, m, n, jobs, key) && !lines[n].jobPrefix
    requires current != "" <==> JobIsCurrent(lines, m, n)
    requires JobIsCurrent(lines, m, n) ==> JobAt(lines, LastJobLine(lines, m, n).value, current)
    requires current != "" ==> JobIs(lines, m, n, jobs, current)
    ensures var l := lines[n];
      var after := if current != "" && l.taskPrefix && l.task.Some? && current in jobs
                   then Append(jobs, current, l.task.value) else jobs;
      JobIs(lines, m, n + 1, after, key)
  {
    var j := LastJob(lines, m, n, key);
    if j.Some? {
      NextTask(lines, m, n, j.value);
      if LastJobLine(lines, j.value, n + 1).None? {
        assert LastJobLine(lines, m, n) == j;
      }
    }
    if current != "" && key == current {
      assert LastJobLine(lines, m, n) == j;
    }
  }

  lemma JobSectionDescribed(lines: seq<Line>, s: nat, m: nat, n: nat, st: State)
    requires n < |lines| && Describes(lines, s, m, n, st) && m < n && !lines[n].nodeStart
    ensures Describes(lines, s, m, n + 1, Advance(st, lines[n]))
  {
    var next, end := Advance(st, lines[n]), n + 1;
    NextSection(lines, s, m, n);
    NextFails(lines, s, m, n);
    NextJobLine(lines, m, n);
    forall key ensures JobIs(lines, m, end, next.jobs, key) {
      assert JobIs(lines, m, n, st.jobs, key) && JobIs(lines, m, n, st.jobs, st.current);
      if lines[n].jobPrefix {
        JobLineIs(lines, m, n, st.jobs, key);
      } else {
        TaskLineIs(lines, m, n, st.jobs, st.current, key);
      }
    }
  }

  // ---- The result -------------------------------------------------------------------------------

  /** Before the first start marker nothing is kept; after it the state is what the text of the current dump says. */
  lemma {:induction false} StateDescribed(lines: seq<Line>, n: nat)
    requires n <= |lines|
    ensures !Begun(lines, n) ==> StateAt(lines, n) == START
    ensures forall s: nat, m: nat | Sections(lines, s, m, n) :: Describes(lines, s, m, n, StateAt(lines, n))
  {
    if n > 0 {
      var l, st := lines[n - 1], StateAt(lines, n - 1);
      StateDescribed(lines, n - 1);
      forall s: nat, m: nat | Sections(lines, s, m, n) ensures Describes(lines, s, m, n, StateAt(lines, n)) {
        if l.nodeStart {
          StartDescribed(lines, n - 1, st);
          FirstSection(lines, n - 1);
          OneSection(lines, s, m, n - 1, n, n);
        } else {
          LineDescribed(lines, s, m, n - 1, st);
        }
      }
      assert Begun(lines, n - 1) ==> Begun(lines, n);
    }
  }

  lemma LineDescribed(lines: seq<Line>, s: nat, m: nat, n: nat, st: State)
    requires n < |lines| && !lines[n].nodeStart && Sections(lines, s, m, n + 1)
    requires forall t: nat, p: nat | Sections(lines, t, p, n) :: Describes(lines, t, p, n, st)
    ensures Describes(lines, s, m, n + 1, Advance(st, lines[n]))
  {
    if m == n + 1 {
      assert Sections(lines, s, n, n);
      NodeLineDescribed(lines, s, n, st);
    } else {
      assert Sections(lines, s, m, n);
      if m == n {
        JobMarkerDescribed(lines, s, n, st);
      } else {
        JobSectionDescribed(lines, s, m, n, st);
      }
    }
  }

  lemma FinishesWhereItEnds(lines: seq<Line>, i: nat)
    requires i < |lines|
    ensures Finishes(StateAt(lines, i), lines[i]) <==> Ends(lines, i)
  {
    StateDescribed(lines, i);
    if Begun(lines, i) {
      SectionExists(lines, i);
      var s: nat, m: nat :| Sections(lines, s, m, i);
      assert Describes(lines, s, m, i, StateAt(lines, i));
      if Ends(lines, i) {
        var t: nat, p: nat :| Sections(lines, t, p, i) && p < i;
        OneSection(lines, s, m, t, p, i);
      }
    }
  }

  lemma FoundAt(lines: seq<Line>, n: nat)
    requires n <= |lines|
    ensures var st := StateAt(lines, n); Found(lines, n, st.nodes, st.jobs, st.parseFailed)
  {
    StateDescribed(lines, n);
  }

  /**
   The result of every scan. It has no error exactly when some line ends a job
   section; then what was found is what the lines before the first such line say, and
   otherwise what all lines say.
   */
  lemma ScanMeans(lines: seq<Line>, readFailed: bool)
    ensures var r := Scan(START, lines, readFailed);
      && (r.error.None? <==> exists e :: Completed(lines, e))
      && (forall e | Completed(lines, e) :: Found(lines, e, r.nodes, r.jobs, r.parseFailed))
      && (r.error.Some? ==>
        && Found(lines, |lines|, r.nodes, r.jobs, r.parseFailed)
        && r.error == Some(if readFailed then ReadFailed else EndedEarly))
  {
    forall i | 0 <= i < |lines| ensures Finishes(StateAt(lines, i), lines[i]) <==> Ends(lines, i) {
      FinishesWhereItEnds(lines, i);
    }
    if i: nat :| i < |lines| && Ends(lines, i) {
      var e := FirstEnd(lines, i);
      ScanReaches(lines, e, readFailed);
      FoundAt(lines, e);
      assert lines[e..][0] == lines[e];
      forall d | Completed(lines, d) ensures d == e {
      }
    } else {
      ScanReaches(lines, |lines|, readFailed);
      FoundAt(lines, |lines|);
      assert lines[|lines|..] == [];
    }
  }

  lemma {:induction false} FirstEnd(lines: seq<Line>, i: nat) returns (e: nat)
    requires Ends(lines, i)
    ensures Completed(lines, e)
  {
    e := i;
    if j: nat :| j < i && Ends(lines, j) {
      e := FirstEnd(lines, j);
    }
  }
}
