/**
 The resources a Pod needs to start (internal/agent/filter/resources.go), set
 against the start-up sequence of KEP-753: init containers run one after the
 other beside the sidecars started so far, then all containers run beside all
 sidecars.
 */
module PodRequests {
  import opened ResourceValues

  datatype InitContainer = InitContainer(restartable: bool, requests: Values)

  datatype Pod = Pod(containers: seq<Values>, init: seq<InitContainer>, overhead: Values)

  // ---- The start-up sequence ------------------------------------------------

  function Sum(containers: seq<Values>, name: string): real {
    if containers == [] then 0.0 else Sum(containers[..|containers| - 1], name) + At(containers[|containers| - 1], name)
  }

  /** What the sidecars among these init containers hold. */
  function SidecarSum(init: seq<InitContainer>, name: string): real {
    if init == [] then 0.0
    else
      var last := init[|init| - 1];
      SidecarSum(init[..|init| - 1], name) + if last.restartable then At(last.requests, name) else 0.0
  }

  /** The amount in use at one step of the start-up; the last step is the running Pod. */
  function Usage(pod: Pod, step: nat, name: string): real
    requires step <= |pod.init|
  {
    SidecarSum(pod.init[..step], name) +
    if step < |pod.init| then At(pod.init[step].requests, name) else Sum(pod.containers, name)
  }

  predicate IsPeak(pod: Pod, name: string, amount: real) {
    && (forall step :: 0 <= step <= |pod.init| ==> Usage(pod, step, name) <= amount)
    && (exists step :: 0 <= step <= |pod.init| && Usage(pod, step, name) == amount)
  }

  function OnePod(name: string): real {
    if name == "pods" then 1.0 else 0.0
  }

  // ---- The computation ------------------------------------------------------

  const ONE_POD: Values := map["pods" := 1.0]

  function Running(containers: seq<Values>): Values {
    if containers == [] then ONE_POD else Plus(Running(containers[..|containers| - 1]), containers[|containers| - 1])
  }

  function WithSidecars(base: Values, init: seq<InitContainer>): Values {
    if init == [] then base
    else
      var before, last := WithSidecars(base, init[..|init| - 1]), init[|init| - 1];
      if last.restartable then Plus(before, last.requests) else before
  }

  function Started(init: seq<InitContainer>): Values {
    WithSidecars(map[], init)
  }

  function InitMaximum(init: seq<InitContainer>): Values {
    if init == [] then map[]
    else
      var last := init[|init| - 1];
      Raise(InitMaximum(init[..|init| - 1]),
            if last.restartable then Started(init) else Plus(last.requests, Started(init[..|init| - 1])))
  }

  function Requests(pod: Pod): Values {
    Plus(Raise(WithSidecars(Running(pod.containers), pod.init), InitMaximum(pod.init)), pod.overhead)
  }

  method ComputePodRequests(pod: Pod) returns (result: Values)
    ensures result == Requests(pod)
  {
    var requests := new ResourceMap(ONE_POD);
    for i := 0 to |pod.containers|
      invariant fresh(requests) && requests.values == Running(pod.containers[..i])
    {
      assert pod.containers[..i + 1][..i] == pod.containers[..i];
      requests.Add(pod.containers[i]);
    }
    assert pod.containers[..|pod.containers|] == pod.containers;
    var maxInit := RunInitContainers(pod.init, requests);
    requests.RaiseTo(maxInit.values);
    requests.Add(pod.overhead);
    return requests.values;
  }

  /** Adds the sidecars to the request and returns the largest usage of the init steps. */
  method RunInitContainers(init: seq<InitContainer>, requests: ResourceMap) returns (maxInit: ResourceMap)
    modifies requests
    ensures fresh(maxInit) && maxInit.values == InitMaximum(init)
    ensures requests.values == WithSidecars(old(requests.values), init)
  {
    var restartableInit := new ResourceMap(map[]);
    maxInit := new ResourceMap(map[]);
    for i := 0 to |init|
      invariant fresh(restartableInit) && fresh(maxInit) && restartableInit != maxInit
      invariant requests.values == WithSidecars(old(requests.values), init[..i])
      invariant restartableInit.values == Started(init[..i]) && maxInit.values == InitMaximum(init[..i])
    {
      assert init[..i + 1][..i] == init[..i];
      var container := init[i];
      var current := new ResourceMap(container.requests);
      if container.restartable {
        requests.Add(current.values);
        restartableInit.Add(current.values);
        current := new ResourceMap(restartableInit.values);
      } else {
        current.Add(restartableInit.values);
      }
      maxInit.RaiseTo(current.values);
    }
    assert init[..|init|] == init;
  }

  // ---- The computation is the peak ------------------------------------------

  predicate NonNegative(v: Values) {
    forall n <- v :: v[n] >= 0.0
  }

  predicate NonNegativeRequests(pod: Pod) {
    && (forall i :: 0 <= i < |pod.containers| ==> NonNegative(pod.containers[i]))
    && (forall i :: 0 <= i < |pod.init| ==> NonNegative(pod.init[i].requests))
  }

  /** No container requests `pods`, which is not a container resource. */
  predicate RequestsNoPods(pod: Pod) {
    && (forall i :: 0 <= i < |pod.containers| ==> "pods" !in pod.containers[i])
    && (forall i :: 0 <= i < |pod.init| ==> "pods" !in pod.init[i].requests)
  }

  /** What the API server lets in. */
  predicate Admitted(pod: Pod) {
    NonNegativeRequests(pod) && RequestsNoPods(pod)
  }

  lemma {:induction false} RunningIsTheSum(containers: seq<Values>, name: string)
    ensures At(Running(containers), name) == OnePod(name) + Sum(containers, name)
  {
    if containers != [] {
      RunningIsTheSum(containers[..|containers| - 1], name);
    }
  }

  lemma {:induction false} SidecarsAdd(base: Values, init: seq<InitContainer>, name: string)
    ensures At(WithSidecars(base, init), name) == At(base, name) + SidecarSum(init, name)
  {
    if init != [] {
      SidecarsAdd(base, init[..|init| - 1], name);
    }
  }

  lemma {:induction false} SumsAreNonNegative(pod: Pod, n: nat, name: string)
    requires NonNegativeRequests(pod) && n <= |pod.init|
    ensures SidecarSum(pod.init[..n], name) >= 0.0 && Sum(pod.containers, name) >= 0.0
  {
    if n > 0 {
      assert pod.init[..n][..n - 1] == pod.init[..n - 1];
      SumsAreNonNegative(pod, n - 1, name);
    } else {
      SumIsNonNegative(pod.containers, name);
    }
  }

  lemma {:induction false} SumIsNonNegative(containers: seq<Values>, name: string)
    requires forall i :: 0 <= i < |containers| ==> NonNegative(containers[i])
    ensures Sum(containers, name) >= 0.0
  {
    if containers != [] {
      SumIsNonNegative(containers[..|containers| - 1], name);
    }
  }

  /** The largest usage of the first `n` init steps, or zero. */
  predicate IsLargest(pod: Pod, n: nat, name: string, top: real)
    requires n <= |pod.init|
  {
    && top >= 0.0 && (forall step :: 0 <= step < n ==> Usage(pod, step, name) <= top)
    && (top == 0.0 || exists step :: 0 <= step < n && Usage(pod, step, name) == top)
  }

  lemma LargestStep(pod: Pod, n: nat, name: string, top: real)
    requires n < |pod.init| && IsLargest(pod, n, name, top)
    ensures IsLargest(pod, n + 1, name, Larger(top, Usage(pod, n, name)))
  {
  }

  /** The running maximum is the largest usage of the init steps so far, and never negative. */
  lemma {:induction false} InitMaximumIsTheLargest(pod: Pod, n: nat, name: string)
    requires NonNegativeRequests(pod) && n <= |pod.init|
    ensures IsLargest(pod, n, name, At(InitMaximum(pod.init[..n]), name))
  {
    if n > 0 {
      InitMaximumIsTheLargest(pod, n - 1, name);
      InitMaximumStep(pod, n - 1, name);
      LargestStep(pod, n - 1, name, At(InitMaximum(pod.init[..n - 1]), name));
    } else {
      assert pod.init[..0] == [];
    }
  }

  lemma InitMaximumStep(pod: Pod, n: nat, name: string)
    requires NonNegativeRequests(pod) && n < |pod.init| && At(InitMaximum(pod.init[..n]), name) >= 0.0
    ensures At(InitMaximum(pod.init[..n + 1]), name)
      == Larger(At(InitMaximum(pod.init[..n]), name), Usage(pod, n, name))
  {
    assert pod.init[..n + 1][..n] == pod.init[..n];
    var before, current := InitMaximum(pod.init[..n]),
      if pod.init[n].restartable then Started(pod.init[..n + 1])
      else Plus(pod.init[n].requests, Started(pod.init[..n]));
    assert InitMaximum(pod.init[..n + 1]) == Raise(before, current);
    StepUsage(pod, n, name);
    SumsAreNonNegative(pod, n, name);
    assert At(current, name) == Usage(pod, n, name);
    RaiseAt(before, current, name);
  }

  lemma RaiseAt(v: Values, candidate: Values, name: string)
    requires At(v, name) >= 0.0
    ensures At(Raise(v, candidate), name) == Larger(At(v, name), At(candidate, name))
  {
  }

  function Larger(a: real, b: real): real {
    if b > a then b else a
  }

  /** What one init step is compared by is its usage. */
  lemma StepUsage(pod: Pod, step: nat, name: string)
    requires step < |pod.init|
    ensures pod.init[step].restartable ==> At(Started(pod.init[..step + 1]), name) == Usage(pod, step, name)
    ensures At(Plus(pod.init[step].requests, Started(pod.init[..step])), name) == Usage(pod, step, name)
  {
    assert pod.init[..step + 1][..step] == pod.init[..step];
    SidecarsAdd(map[], pod.init[..step], name);
    SidecarsAdd(map[], pod.init[..step + 1], name);
  }

  lemma RequestsAt(pod: Pod, name: string)
    requires NonNegativeRequests(pod)
    ensures At(Requests(pod), name) == At(pod.overhead, name) +
      Larger(OnePod(name) + Usage(pod, |pod.init|, name), At(InitMaximum(pod.init), name))
  {
    assert pod.init[..|pod.init|] == pod.init;
    RunningIsTheSum(pod.containers, name);
    SidecarsAdd(Running(pod.containers), pod.init, name);
    SumsAreNonNegative(pod, |pod.init|, name);
    InitMaximumIsTheLargest(pod, |pod.init|, name);
    RaiseAt(WithSidecars(Running(pod.containers), pod.init), InitMaximum(pod.init), name);
  }

  lemma {:induction false} NoPodsInSum(containers: seq<Values>)
    requires forall i :: 0 <= i < |containers| ==> "pods" !in containers[i]
    ensures Sum(containers, "pods") == 0.0
  {
    if containers != [] {
      NoPodsInSum(containers[..|containers| - 1]);
    }
  }

  lemma {:induction false} NoPodsInSidecars(init: seq<InitContainer>)
    requires forall i :: 0 <= i < |init| ==> "pods" !in init[i].requests
    ensures SidecarSum(init, "pods") == 0.0
  {
    if init != [] {
      NoPodsInSidecars(init[..|init| - 1]);
    }
  }

  /** For every resource the request is the start-up peak plus the overhead, with one Pod counted on top. */
  lemma RequestsAreThePeak(pod: Pod, name: string)
    requires Admitted(pod)
    ensures IsPeak(pod, name, At(Requests(pod), name) - At(pod.overhead, name) - OnePod(name))
  {
    forall step | 0 <= step <= |pod.init| ensures Usage(pod, step, "pods") == 0.0 {
      NoPodsInSidecars(pod.init[..step]);
      NoPodsInSum(pod.containers);
    }
    PeakIff(pod, name);
  }

  /**
   On raw request maps, which may name "pods": the same holds unless an init step
   needs more of them than the running Pod, for the Pod is counted for the running
   step only. The API server refuses such maps.
   */
  lemma PeakIff(pod: Pod, name: string)
    requires NonNegativeRequests(pod)
    ensures IsPeak(pod, name, At(Requests(pod), name) - At(pod.overhead, name) - OnePod(name)) <==>
      (name == "pods" ==> forall step :: 0 <= step < |pod.init| ==>
        Usage(pod, step, name) <= Usage(pod, |pod.init|, name))
  {
    RequestsAt(pod, name);
    PeakOfSteps(pod, name);
    var last, top := Usage(pod, |pod.init|, name), At(InitMaximum(pod.init), name);
    if IsPeak(pod, name, Larger(OnePod(name) + last, top) - OnePod(name)) {
      PeakIsUnique(pod, name, Larger(OnePod(name) + last, top) - OnePod(name), Larger(last, top));
    }
  }

  lemma PeakOfSteps(pod: Pod, name: string)
    requires NonNegativeRequests(pod)
    ensures var last, top := Usage(pod, |pod.init|, name), At(InitMaximum(pod.init), name);
      && IsPeak(pod, name, Larger(last, top))
      && (top <= last <==> forall step :: 0 <= step < |pod.init| ==> Usage(pod, step, name) <= last)
  {
    assert pod.init[..|pod.init|] == pod.init;
    InitMaximumIsTheLargest(pod, |pod.init|, name);
    SumsAreNonNegative(pod, |pod.init|, name);
    var last, top := Usage(pod, |pod.init|, name), At(InitMaximum(pod.init), name);
    if top > last {
      var step :| 0 <= step < |pod.init| && Usage(pod, step, name) == top;
    }
  }

  lemma PeakIsUnique(pod: Pod, name: string, a: real, b: real)
    requires IsPeak(pod, name, a) && IsPeak(pod, name, b)
    ensures a == b
  {
  }

  /** Such a map, for a Pod that the API server refuses. */
  lemma RawPodCountCanFallShort(pod: Pod)
    requires pod == Pod([], [InitContainer(false, ONE_POD)], map[])
    ensures NonNegativeRequests(pod) && !Admitted(pod)
    ensures !IsPeak(pod, "pods", At(Requests(pod), "pods") - At(pod.overhead, "pods") - 1.0)
  {
    PeakIff(pod, "pods");
    assert "pods" in pod.init[0].requests;
    assert pod.init[..0] == [] && pod.init[..1] == pod.init;
    assert Usage(pod, 0, "pods") == 1.0 && Usage(pod, 1, "pods") == 0.0;
  }
}
