/**
 Whether a request fits a node (internal/agent/filter/node.go). Volcano compares
 against FutureIdle = Idle + Releasing - Pipelined, but the cache dump does not
 show Pipelined, so the verdict has to hold whatever it is.
 */
module ResourceFit {
  import opened Prelude
  import opened ResourceValues
  import opened Checks

  datatype Node = Node(idle: Values, used: Values, releasing: Values, allocatable: Values)

  // ---- The verdict ----------------------------------------------------------

  datatype Dimension = Ignored | Insufficient | Missing | Fits

  /** The cache knows this resource of the node. */
  predicate Present(node: Node, name: string) {
    name in node.idle && name in node.allocatable
  }

  /** The node admits no Pods at all: its status omits the Pod count and the cache has none either. */
  predicate PodsOmitted(node: Node, kubernetes: Values, name: string) {
    name == "pods" && At(kubernetes, "pods") == 0.0 && At(node.idle, "pods") == 0.0
      && At(node.allocatable, "pods") == 0.0
  }

  function Classify(requests: Values, node: Node, kubernetes: Values, name: string): Dimension
    requires name in requests
  {
    if requests[name] <= 0.0 then Ignored
    else if PodsOmitted(node, kubernetes, name) then Insufficient
    else if !Present(node, name) then (if At(kubernetes, name) != 0.0 then Missing else Insufficient)
    else if requests[name] > node.idle[name] + At(node.releasing, name) then Insufficient
    else Fits
  }

  predicate IsInsufficient(requests: Values, node: Node, kubernetes: Values, name: string) {
    name in requests && Classify(requests, node, kubernetes, name) == Insufficient
  }

  /**
   The cache knows the resource and what is idle or being released does not cover the
   request, or it does not and neither does the node's status, or no Pods are admitted.
   */
  predicate FallsShort(request: real, node: Node, kubernetes: Values, name: string) {
    var known := name in node.idle && name in node.allocatable;
    var offered := name in kubernetes && kubernetes[name] != 0.0;
    && request > 0.0
    && (|| (known && request > node.idle[name] + if name in node.releasing then node.releasing[name] else 0.0)
        || (!known && !offered)
        || (name == "pods" && !offered
            && (name in node.idle ==> node.idle[name] == 0.0)
            && (name in node.allocatable ==> node.allocatable[name] == 0.0)))
  }

  method ResourceFitCheck(requests: Values, node: Node, kubernetes: Values)
    returns (check: Check, insufficient: seq<string>)
    ensures check ==
      if insufficient != [] then Known("node.resources", "allocate", false) else Unknown("node.resources", "allocate")
    ensures forall name :: name in insufficient <==> IsInsufficient(requests, node, kubernetes, name)
    ensures forall name :: name in insufficient <==>
      name in requests && FallsShort(requests[name], node, kubernetes, name)
    ensures forall i, j :: 0 <= i < j < |insufficient| ==> insufficient[i] != insufficient[j]
  {
    var upperBound := new ResourceMap(node.idle);
    upperBound.Add(node.releasing);
    var missing := [];
    insufficient := [];
    var rest := requests.Keys;
    while rest != {}
      invariant rest <= requests.Keys
      invariant forall name :: name in insufficient <==>
        IsInsufficient(requests, node, kubernetes, name) && name !in rest
      invariant forall i, j :: 0 <= i < j < |insufficient| ==> insufficient[i] != insufficient[j]
    {
      var name :| name in rest;
      rest := rest - {name};
      var request := requests[name];
      if request <= 0.0 {
        continue;
      }
      var idleFound, totalFound := name in node.idle, name in node.allocatable;
      if name == "pods" && ("pods" !in kubernetes || kubernetes["pods"] == 0.0)
        && (!idleFound || node.idle[name] == 0.0) && (!totalFound || node.allocatable[name] == 0.0)
      {
        insufficient := insufficient + [name];
        continue;
      }
      if !idleFound || !totalFound {
        if name in kubernetes && kubernetes[name] != 0.0 {
          missing := missing + [name];
        } else {
          insufficient := insufficient + [name];
        }
        continue;
      }
      if request > At(upperBound.values, name) {
        insufficient := insufficient + [name];
      }
    }
    if |insufficient| > 0 {
      check := Known("node.resources", "allocate", false);
      return;
    }
    if |missing| > 0 {
      check := Unknown("node.resources", "allocate");
      return;
    }
    check := Unknown("node.resources", "allocate");
  }

  /** Volcano's allocate does not gate a Pod that requests nothing besides being one Pod. */
  predicate BestEffort(requests: Values) {
    forall name <- requests :: name == "pods" || requests[name] <= 0.0
  }

  method VolcanoBestEffort(requests: Values) returns (yes: bool)
    ensures yes == BestEffort(requests)
    ensures !yes <==> exists name <- requests :: name != "pods" && requests[name] > 0.0
  {
    var rest := requests.Keys;
    while rest != {}
      invariant rest <= requests.Keys
      invariant forall name <- requests.Keys - rest :: name == "pods" || requests[name] <= 0.0
    {
      var name :| name in rest;
      rest := rest - {name};
      if name != "pods" && requests[name] > 0.0 {
        return false;
      }
    }
    return true;
  }

  /**
   The request is known not to fit: there is a cache entry, the request is unambiguous, and a
   resource is insufficient.
   */
  ghost predicate KnownNotToFit(requests: Values, cached: Option<Node>, kubernetes: Values, hasSidecars: bool) {
    && !BestEffort(requests) && cached.Some? && !hasSidecars
    && exists name <- requests :: IsInsufficient(requests, cached.value, kubernetes, name)
  }

  /**
   The resource part of a node's evidence: the check that is recorded and the
   resources flagged as insufficient. A Pod with sidecars or a node without a
   cache entry stays undecided.
   */
  method NodeResourceCheck(requests: Values, cached: Option<Node>, kubernetes: Values, hasSidecars: bool)
    returns (check: Check, flagged: set<string>)
    ensures Satisfied(check) <==> check.skipped
    ensures check.skipped <==> BestEffort(requests)
    ensures KnownFailure(check) <==> KnownNotToFit(requests, cached, kubernetes, hasSidecars)
    ensures flagged ==
      if KnownFailure(check)
        then set name | name in requests && IsInsufficient(requests, cached.value, kubernetes, name) else {}
    ensures flagged == if cached.None? || hasSidecars || BestEffort(requests) then {}
      else set name | name in requests && FallsShort(requests[name], cached.value, kubernetes, name)
    ensures KnownFailure(check) <==> flagged != {}
  {
    flagged := {};
    var bestEffort := VolcanoBestEffort(requests);
    if bestEffort {
      check := Skipped("node.resources", "allocate");
      return;
    }
    if cached.None? {
      check := Unknown("node.resources", "allocate");
      return;
    }
    var insufficient;
    check, insufficient := ResourceFitCheck(requests, cached.value, kubernetes);
    assert insufficient != [] ==>
      insufficient[0] in insufficient && IsInsufficient(requests, cached.value, kubernetes, insufficient[0]);
    if hasSidecars {
      check := Unknown("node.resources", "allocate");
    }
    if check.determinate && !check.passed {
      for i := 0 to |insufficient|
        invariant flagged == set name | name in insufficient[..i]
      {
        flagged := flagged + {insufficient[i]};
      }
      assert insufficient[..|insufficient|] == insufficient;
    }
  }

  // ---- Against every possible Pipelined -------------------------------------

  /** Amounts promised to other tasks; not in the dump. */
  predicate Pipelined(v: Values) {
    forall name <- v :: v[name] >= 0.0
  }

  function FutureIdle(node: Node, pipelined: Values, name: string): real {
    At(node.idle, name) + At(node.releasing, name) - At(pipelined, name)
  }

  /** Over the resources that the cache knows, the request does not fit. */
  ghost predicate CannotFit(requests: Values, node: Node, pipelined: Values) {
    exists name <- requests ::
      requests[name] > 0.0 && Present(node, name) && requests[name] > FutureIdle(node, pipelined, name)
  }

  /** A resource that the cache knows is reported, and reported for a reason that lies in the cache. */
  ghost predicate Overdrawn(requests: Values, node: Node, kubernetes: Values) {
    exists name <- requests ::
      Present(node, name) && IsInsufficient(requests, node, kubernetes, name) && !(
        PodsOmitted(node, kubernetes, name) && requests[name] <= At(node.releasing, name))
  }

  /**
   The verdict over known resources is exact: it fails exactly when no amount of Pipelined would let
   the request fit.
   */
  lemma FailureIsExact(requests: Values, node: Node, kubernetes: Values)
    ensures Overdrawn(requests, node, kubernetes) <==>
      forall pipelined: Values :: Pipelined(pipelined) ==> CannotFit(requests, node, pipelined)
  {
    if Overdrawn(requests, node, kubernetes) {
      var name :| name in requests && Present(node, name) && IsInsufficient(requests, node, kubernetes, name) && !(
          PodsOmitted(node, kubernetes, name) && requests[name] <= At(node.releasing, name));
      forall pipelined: Values | Pipelined(pipelined) ensures CannotFit(requests, node, pipelined) {
        assert requests[name] > FutureIdle(node, pipelined, name);
      }
    }
    if forall pipelined: Values :: Pipelined(pipelined) ==> CannotFit(requests, node, pipelined) {
      var nothing: Values := map[];
      assert Pipelined(nothing) && CannotFit(requests, node, nothing);
      var name :| name in requests && requests[name] > 0.0 && Present(node, name)
        && requests[name] > FutureIdle(node, nothing, name);
      assert IsInsufficient(requests, node, kubernetes, name);
    }
  }

  /** With no insufficient resource, the request fits all known resources as soon as nothing is pipelined. */
  lemma UnknownMayStillFit(requests: Values, node: Node, kubernetes: Values)
    requires forall name <- requests :: !IsInsufficient(requests, node, kubernetes, name)
    ensures !CannotFit(requests, node, map[])
  {
  }

  /**
   One known resource: being reported means that no Pipelined would do, except
   that a node without any Pod capacity is reported although releasing Pods
   might cover the request.
   */
  lemma ReportedIffNeverFits(requests: Values, node: Node, kubernetes: Values, name: string)
    requires name in requests && requests[name] > 0.0 && Present(node, name)
    ensures (IsInsufficient(requests, node, kubernetes, name) <==>
      forall pipelined: Values :: Pipelined(pipelined) ==> requests[name] > FutureIdle(node, pipelined, name))
      <==> !(PodsOmitted(node, kubernetes, name) && requests[name] <= At(node.releasing, name))
  {
    var nothing: Values := map[];
    assert Pipelined(nothing);
    if requests[name] > FutureIdle(node, nothing, name) {
      forall pipelined: Values | Pipelined(pipelined) ensures requests[name] > FutureIdle(node, pipelined, name) {
      }
    }
  }

  /** Volcano's own bookkeeping: what is not idle is in use, and what is being released is still in use. */
  predicate Accounted(node: Node, name: string) {
    && At(node.idle, name) + At(node.used, name) == At(node.allocatable, name)
    && 0.0 <= At(node.releasing, name) <= At(node.used, name)
  }

  /** On a node whose figures add up the exception does not arise. */
  lemma ReportedIffNeverFitsWhenAccounted(requests: Values, node: Node, kubernetes: Values, name: string)
    requires name in requests && requests[name] > 0.0 && Present(node, name) && Accounted(node, name)
    ensures IsInsufficient(requests, node, kubernetes, name) <==>
      forall pipelined: Values :: Pipelined(pipelined) ==> requests[name] > FutureIdle(node, pipelined, name)
  {
    ReportedIffNeverFits(requests, node, kubernetes, name);
  }

  predicate AllAccounted(node: Node) {
    forall name <- node.idle :: Present(node, name) ==> Accounted(node, name)
  }

  ghost predicate ReportsKnownResource(requests: Values, node: Node, kubernetes: Values) {
    exists name <- requests :: Present(node, name) && IsInsufficient(requests, node, kubernetes, name)
  }

  /**
   There, a resource that the cache knows is reported exactly when no amount of Pipelined would let
   the request fit.
   */
  lemma AccountedFailureIsExact(requests: Values, node: Node, kubernetes: Values)
    requires AllAccounted(node)
    ensures ReportsKnownResource(requests, node, kubernetes) <==>
      forall pipelined: Values :: Pipelined(pipelined) ==> CannotFit(requests, node, pipelined)
  {
    FailureIsExact(requests, node, kubernetes);
    if ReportsKnownResource(requests, node, kubernetes) {
      var name :| name in requests && Present(node, name) && IsInsufficient(requests, node, kubernetes, name);
      assert Accounted(node, name);
      assert Overdrawn(requests, node, kubernetes);
    }
  }

  /** A dump whose figures contradict each other: a Pod is being released where none could have been placed. */
  lemma ReleasingPodsAreIgnored(requests: Values, node: Node)
    requires requests == map["pods" := 1.0]
    requires node == Node(map["pods" := 0.0], map["pods" := 1.0], map["pods" := 1.0], map["pods" := 0.0])
    ensures !Accounted(node, "pods") && Present(node, "pods") && IsInsufficient(requests, node, map[], "pods")
    ensures !CannotFit(requests, node, map[])
  {
    assert At(node.idle, "pods") == 0.0 && At(node.allocatable, "pods") == 0.0;
  }
}
