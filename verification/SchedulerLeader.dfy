/**
 Choosing the scheduler Pod to read from (internal/cluster/client.go): the only
 one there is, or the one that the leader election Leases name. Listing Pods
 and reading Leases are inputs.
 */
module SchedulerLeader {
  import opened Prelude

  /** What the command line of the scheduler container says about leader election. */
  datatype Options = Options(
    determinate: bool, leaderElection: bool, lockNamespace: string, schedulerNames: seq<string>)

  datatype Pod = Pod(
    namespace: string, name: string, uid: string,
    deleting: bool, running: bool, readyCondition: bool, container: Option<Options>)

  /** Names hold no "/", so the printed key `namespace/name` is kept as a pair. */
  datatype Key = Key(namespace: string, name: string)

  datatype Lease = Missing | Unreadable | Found(holder: Option<string>)

  datatype Error =
    | NotDiscovered | NotReady | NoContainer | Undetermined | Disagree | ManyReady
    | LeaseUnreadable | NoHolder | Ambiguous

  function KeyOf(pod: Pod): Key {
    Key(pod.namespace, pod.name)
  }

  predicate Ready(pod: Pod) {
    !pod.deleting && pod.running && pod.readyCondition
  }

  /** The informer store holds one Pod per key. */
  predicate DistinctKeys(pods: seq<Pod>) {
    forall i, j :: 0 <= i < j < |pods| ==> KeyOf(pods[i]) != KeyOf(pods[j])
  }

  function ComponentName(schedulerNames: seq<string>): string {
    if |schedulerNames| == 1 then schedulerNames[0] else "volcano"
  }

  // ---- What a holder names --------------------------------------------------

  /** The holder identity is the Pod name, or starts with it and an underscore. */
  predicate Matches(holder: string, name: string) {
    holder == name || HasPrefix(holder, name + "_")
  }

  predicate Plain(name: string) {
    '_' !in name
  }

  lemma MatchBoundsNames(holder: string, a: string, b: string)
    requires Plain(b) && Matches(holder, a) && Matches(holder, b)
    ensures |b| <= |a| && b == holder[..|b|]
  {
    assert forall i :: 0 <= i < |b| ==> b[i] == holder[i];
    if holder != a {
      assert holder[|a|] == (a + "_")[|a|] == '_';
    }
  }

  /** Pod names hold no underscore, so no holder matches two of them. */
  lemma HolderMatchesOneName(holder: string, a: string, b: string)
    requires Plain(a) && Plain(b) && Matches(holder, a) && Matches(holder, b)
    ensures a == b
  {
    MatchBoundsNames(holder, a, b);
    MatchBoundsNames(holder, b, a);
  }

  predicate Names(holder: Option<string>, pod: Pod) {
    holder.Some? && holder.value != "" && Matches(holder.value, pod.name)
  }

  predicate Named(holders: seq<Option<string>>, pod: Pod) {
    exists i :: 0 <= i < |holders| && Names(holders[i], pod)
  }

  /** The holders name one candidate, and name it alone. */
  predicate SoleHolder(candidates: seq<Pod>, holders: seq<Option<string>>, pod: Pod) {
    && pod in candidates && Named(holders, pod)
    && forall p <- candidates :: Named(holders, p) ==> p == pod
  }

  lemma SingletonKeys(matches: map<Key, Pod>, k: Key)
    requires |matches| == 1 && k in matches
    ensures matches.Keys == {k}
  {
    assert |matches.Keys - {k}| == 0;
    assert matches.Keys == {k} + (matches.Keys - {k});
  }

  method SchedulerLeaderFromLeases(candidates: seq<Pod>, holders: seq<Option<string>>)
    returns (result: Result<Pod, Error>)
    requires DistinctKeys(candidates)
    ensures result.Ok? ==> SoleHolder(candidates, holders, result.value)
    ensures result.Err? ==> forall p :: !SoleHolder(candidates, holders, p)
    ensures result != Err(NotDiscovered)
  {
    var matches: map<Key, Pod> := map[];
    for i := 0 to |holders|
      invariant forall k <- matches :: matches[k] in candidates && KeyOf(matches[k]) == k && Named(holders, matches[k])
      invariant forall p <- candidates, h :: 0 <= h < i && Names(holders[h], p) ==> KeyOf(p) in matches
    {
      if holders[i].None? || holders[i].value == "" {
        continue;
      }
      for j := 0 to |candidates|
        invariant forall k <- matches ::
          matches[k] in candidates && KeyOf(matches[k]) == k && Named(holders, matches[k])
        invariant forall p <- candidates, h :: 0 <= h < i && Names(holders[h], p) ==> KeyOf(p) in matches
        invariant forall l :: 0 <= l < j && Names(holders[i], candidates[l]) ==> KeyOf(candidates[l]) in matches
      {
        var pod := candidates[j];
        if holders[i].value != pod.name && !HasPrefix(holders[i].value, pod.name + "_") {
          continue;
        }
        assert Names(holders[i], pod);
        matches := matches[KeyOf(pod) := pod];
      }
    }
    assert forall p <- candidates :: Named(holders, p) ==> KeyOf(p) in matches;
    if |matches| == 1 {
      var k :| k in matches;
      SingletonKeys(matches, k);
      forall p | p in candidates && Named(holders, p) ensures p == matches[k] {
        assert KeyOf(p) == KeyOf(matches[k]);
      }
      return Ok(matches[k]);
    }
    if |matches| == 0 {
      forall p ensures !SoleHolder(candidates, holders, p) {
        assert matches.Keys == {};
      }
      return Err(NoHolder);
    }
    forall p ensures !SoleHolder(candidates, holders, p) {
      if SoleHolder(candidates, holders, p) {
        assert forall k <- matches :: matches[k] == p && k == KeyOf(p);
        assert matches.Keys <= {KeyOf(p)};
        OneAtMost(matches.Keys, KeyOf(p));
      }
    }
    return Err(Ambiguous);
  }

  lemma OneAtMost<T>(s: set<T>, x: T)
    requires s <= {x}
    ensures |s| <= 1
  {
    assert s == {} || s == {x};
  }

  // ---- The selection --------------------------------------------------------

  /** The Leases that the Pods' command lines refer to. */
  function References(pods: seq<Pod>): set<Key> {
    set pod | pod in pods && pod.container.Some? && pod.container.value.leaderElection ::
      Key(pod.container.value.lockNamespace, ComponentName(pod.container.value.schedulerNames))
  }

  predicate Readable(pods: seq<Pod>, leases: Key -> Lease) {
    forall key <- References(pods) :: !leases(key).Unreadable?
  }

  /** Some referenced Lease is held by this Pod. */
  predicate Holds(pods: seq<Pod>, leases: Key -> Lease, pod: Pod) {
    exists key <- References(pods) :: leases(key).Found? && Names(leases(key).holder, pod)
  }

  predicate AllDeterminate(pods: seq<Pod>) {
    forall p <- pods :: p.container.Some? && p.container.value.determinate
  }

  predicate ElectionEverywhere(pods: seq<Pod>, enabled: bool) {
    forall p <- pods :: p.container.Some? && p.container.value.leaderElection == enabled
  }

  /** Among several Pods: the one ready Pod, or the ready Pod that alone holds any referenced Lease. */
  predicate Selected(pods: seq<Pod>, leases: Key -> Lease, pod: Pod) {
    && AllDeterminate(pods) && pod in pods && Ready(pod)
    && (|| (ElectionEverywhere(pods, false) && forall p <- pods :: Ready(p) ==> p == pod)
        || (ElectionEverywhere(pods, true) && Readable(pods, leases) && Holds(pods, leases, pod)
            && forall p <- pods :: Holds(pods, leases, p) ==> p == pod))
  }

  function ReadyOnes(pods: seq<Pod>): seq<Pod> {
    if pods == [] then []
    else ReadyOnes(pods[..|pods| - 1]) + if Ready(pods[|pods| - 1]) then [pods[|pods| - 1]] else []
  }

  method ReadySchedulerPods(pods: seq<Pod>) returns (ready: seq<Pod>)
    ensures ready == ReadyOnes(pods)
  {
    ready := [];
    for i := 0 to |pods|
      invariant ready == ReadyOnes(pods[..i])
    {
      assert pods[..i + 1][..i] == pods[..i];
      if pods[i].deleting || !pods[i].running || !pods[i].readyCondition {
        continue;
      }
      ready := ready + [pods[i]];
    }
    assert pods[..|pods|] == pods;
  }

  lemma {:induction false} ReadyOnesAreTheReady(pods: seq<Pod>)
    ensures forall p :: p in ReadyOnes(pods) <==> p in pods && Ready(p)
    ensures DistinctKeys(pods) ==> DistinctKeys(ReadyOnes(pods))
  {
    if pods != [] {
      var n := |pods| - 1;
      ReadyOnesAreTheReady(pods[..n]);
      assert pods == pods[..n] + [pods[n]];
      if DistinctKeys(pods) {
        forall p | p in ReadyOnes(pods[..n]) ensures KeyOf(p) != KeyOf(pods[n]) {
        }
      }
    }
  }

  /** Which Leases to read, and whether the Pods agree that there is an election. */
  method CollectKeys(pods: seq<Pod>) returns (result: Result<set<Key>, Error>, enabled: bool, disabled: bool)
    ensures result.Ok? <==> AllDeterminate(pods)
    ensures result != Err(NotDiscovered)
    ensures result.Ok? ==> result.value == References(pods)
    ensures result.Ok? ==>
      (enabled <==> !ElectionEverywhere(pods, false)) && (disabled <==> !ElectionEverywhere(pods, true))
  {
    var keys: set<Key> := {};
    enabled, disabled := false, false;
    for i := 0 to |pods|
      invariant keys == References(pods[..i]) && AllDeterminate(pods[..i])
      invariant (enabled <==> !ElectionEverywhere(pods[..i], false))
        && (disabled <==> !ElectionEverywhere(pods[..i], true))
    {
      assert pods[..i + 1] == pods[..i] + [pods[i]];
      if pods[i].container.None? {
        return Err(NoContainer), enabled, disabled;
      }
      var options := pods[i].container.value;
      if !options.determinate {
        return Err(Undetermined), enabled, disabled;
      }
      if !options.leaderElection {
        disabled := true;
        continue;
      }
      enabled := true;
      keys := keys + {Key(options.lockNamespace, ComponentName(options.schedulerNames))};
    }
    assert pods[..|pods|] == pods;
    return Ok(keys), enabled, disabled;
  }

  /** Reads the Leases in any order; a missing one is skipped, an unreadable one ends the selection. */
  method ReadLeases(keys: set<Key>, leases: Key -> Lease) returns (result: Result<seq<Option<string>>, Error>)
    ensures result.Err? <==> exists key <- keys :: leases(key).Unreadable?
    ensures result != Err(NotDiscovered)
    ensures result.Ok? ==> forall pod :: Named(result.value, pod) <==>
      exists key <- keys :: leases(key).Found? && Names(leases(key).holder, pod)
  {
    var holders: seq<Option<string>> := [];
    var rest := keys;
    while rest != {}
      invariant rest <= keys
      invariant forall key <- keys - rest :: !leases(key).Unreadable?
      invariant forall pod :: Named(holders, pod) <==>
        exists key <- keys - rest :: leases(key).Found? && Names(leases(key).holder, pod)
    {
      var key :| key in rest;
      var lease := leases(key);
      if lease.Unreadable? {
        return Err(LeaseUnreadable);
      }
      ghost var seen := keys - rest;
      rest := rest - {key};
      assert keys - rest == seen + {key};
      if lease.Missing? {
        continue;
      }
      ghost var before := holders;
      holders := holders + [lease.holder];
      forall pod ensures Named(holders, pod) <==> Named(before, pod) || Names(lease.holder, pod) {
        if Named(before, pod) {
          var i :| 0 <= i < |before| && Names(before[i], pod);
          assert holders[i] == before[i];
        }
        assert holders[|before|] == lease.holder;
      }
    }
    assert keys - rest == keys;
    return Ok(holders);
  }

  method SelectSchedulerLeader(identified: seq<Pod>, leases: Key -> Lease) returns (result: Result<Pod, Error>)
    requires DistinctKeys(identified) && identified != []
    ensures result.Ok? ==> Selected(identified, leases, result.value)
    ensures result.Err? ==> forall p :: !Selected(identified, leases, p)
    ensures result != Err(NotDiscovered)
  {
    var ready := ReadySchedulerPods(identified);
    ReadyOnesAreTheReady(identified);
    var keys, enabled, disabled := CollectKeys(identified);
    if keys.Err? {
      return Err(keys.error);
    }
    if enabled && disabled {
      return Err(Disagree);
    }
    if !enabled {
      assert ElectionEverywhere(identified, false) && !ElectionEverywhere(identified, true) by {
        assert identified[0] in identified;
      }
      if |ready| == 1 {
        assert ready[0] in ready;
        return Ok(ready[0]);
      }
      if |ready| > 1 {
        assert ready[0] in ready && ready[1] in ready && KeyOf(ready[0]) != KeyOf(ready[1]);
      }
      return Err(ManyReady);
    }
    assert !ElectionEverywhere(identified, false);
    var holders := ReadLeases(keys.value, leases);
    if holders.Err? {
      return Err(holders.error);
    }
    assert forall pod :: Named(holders.value, pod) <==> Holds(identified, leases, pod);
    var leader := SchedulerLeaderFromLeases(identified, holders.value);
    if leader.Err? {
      forall p ensures !Selected(identified, leases, p) {
        assert !SoleHolder(identified, holders.value, p);
      }
      return Err(leader.error);
    }
    for i := 0 to |ready|
      invariant forall j :: 0 <= j < i ==> ready[j] != leader.value
    {
      if KeyOf(ready[i]) == KeyOf(leader.value) && ready[i].uid == leader.value.uid {
        assert ready[i] in ready;
        return Ok(leader.value);
      }
    }
    return Err(NotReady);
  }

  /** The choice among all identified Pods. */
  predicate Chosen(pods: seq<Pod>, leases: Key -> Lease, pod: Pod) {
    && pod.container.Some?
    && if |pods| == 1 then pods[0] == pod && Ready(pod) else Selected(pods, leases, pod)
  }

  method GetVolcanoScheduler(identified: seq<Pod>, leases: Key -> Lease) returns (result: Result<Pod, Error>)
    requires DistinctKeys(identified)
    ensures result.Ok? ==> Chosen(identified, leases, result.value)
    ensures result.Err? ==> forall p :: !Chosen(identified, leases, p)
    ensures result == Err(NotDiscovered) <==> identified == []
  {
    var candidates := ReadySchedulerPods(identified);
    ReadyOnesAreTheReady(identified);
    if |candidates| == 0 {
      assert forall p <- identified :: !Ready(p);
      if |identified| == 0 {
        return Err(NotDiscovered);
      }
      return Err(NotReady);
    }
    assert candidates[0] in candidates;
    var chosen := candidates[0];
    if |identified| > 1 {
      var selected := SelectSchedulerLeader(identified, leases);
      if selected.Err? {
        assert forall p :: !Selected(identified, leases, p);
        return selected;
      }
      chosen := selected.value;
      assert chosen.container.Some?;
    }
    if chosen.container.None? {
      return Err(NoContainer);
    }
    return Ok(chosen);
  }

  // ---- The choice from the command lines and the Leases ----------------------

  /** A holder names a Pod by its name, alone or followed by an underscore and anything. */
  lemma MatchesMeans(holder: string, name: string)
    ensures Matches(holder, name) <==> holder == name || exists suffix :: holder == name + "_" + suffix
  {
    if HasPrefix(holder, name + "_") {
      assert holder == name + "_" + holder[|name| + 1..];
    }
  }

  /** The Lease that the Pod's command line refers to. */
  function LeaseOf(pod: Pod, leases: Key -> Lease): Lease
    requires pod.container.Some?
  {
    var options := pod.container.value;
    leases(Key(options.lockNamespace, if |options.schedulerNames| == 1 then options.schedulerNames[0] else "volcano"))
  }

  /** Some Pod with leader election refers to a Lease whose holder is this Pod. */
  ghost predicate HeldBy(pods: seq<Pod>, leases: Key -> Lease, pod: Pod) {
    exists p, holder ::
      && p in pods && p.container.Some? && p.container.value.leaderElection
      && LeaseOf(p, leases) == Found(Some(holder)) && HolderOf(holder, pod)
  }

  ghost predicate HolderOf(holder: string, pod: Pod) {
    holder != "" && (holder == pod.name || exists suffix :: holder == pod.name + "_" + suffix)
  }

  lemma HoldsMeans(pods: seq<Pod>, leases: Key -> Lease, pod: Pod)
    ensures Holds(pods, leases, pod) <==> HeldBy(pods, leases, pod)
  {
    forall holder ensures Names(Some(holder), pod) <==> HolderOf(holder, pod) {
      MatchesMeans(holder, pod.name);
    }
    if Holds(pods, leases, pod) {
      var key :| key in References(pods) && leases(key).Found? && Names(leases(key).holder, pod);
      var p :| p in pods && p.container.Some? && p.container.value.leaderElection
        && key == Key(p.container.value.lockNamespace, ComponentName(p.container.value.schedulerNames));
      assert LeaseOf(p, leases) == Found(Some(leases(key).holder.value));
    }
    if HeldBy(pods, leases, pod) {
      var p, holder :|
        && p in pods && p.container.Some? && p.container.value.leaderElection
        && LeaseOf(p, leases) == Found(Some(holder)) && HolderOf(holder, pod);
      var key := Key(p.container.value.lockNamespace, ComponentName(p.container.value.schedulerNames));
      assert key in References(pods) && leases(key) == LeaseOf(p, leases);
    }
  }

  /** The Pod is up. */
  predicate Up(pod: Pod) {
    !pod.deleting && pod.running && pod.readyCondition
  }

  /** Without election the only Pod that is up; with it the only holder, if all Leases can be read. */
  ghost predicate SoleCandidate(pods: seq<Pod>, leases: Key -> Lease, pod: Pod) {
    && (forall p <- pods :: p.container.Some? && p.container.value.determinate)
    && (|| (&& (forall p <- pods :: p.container.Some? && !p.container.value.leaderElection)
            && forall p <- pods :: Up(p) ==> p == pod)
        || (&& (forall p <- pods ::
                  p.container.Some? && p.container.value.leaderElection && LeaseOf(p, leases) != Unreadable)
            && HeldBy(pods, leases, pod) && forall p <- pods :: HeldBy(pods, leases, p) ==> p == pod))
  }

  /** The Pod that is chosen: it is up, has its container, and is the only one or the sole candidate. */
  lemma ChosenMeans(pods: seq<Pod>, leases: Key -> Lease, pod: Pod)
    ensures Chosen(pods, leases, pod) <==>
      pod in pods && Up(pod) && pod.container.Some? && (|pods| == 1 || SoleCandidate(pods, leases, pod))
  {
    forall p {
      HoldsMeans(pods, leases, p);
    }
    if forall p <- pods :: p.container.Some? && p.container.value.leaderElection {
      ReadableMeans(pods, leases);
    }
  }

  lemma ReadableMeans(pods: seq<Pod>, leases: Key -> Lease)
    requires forall p <- pods :: p.container.Some? && p.container.value.leaderElection
    ensures Readable(pods, leases) <==> forall p <- pods :: p.container.Some? ==> LeaseOf(p, leases) != Unreadable
  {
    forall p | p in pods
      ensures Key(p.container.value.lockNamespace, ComponentName(p.container.value.schedulerNames)) in References(pods)
    {
    }
  }

  // ---- What the choice guarantees -------------------------------------------

  /** There is at most one Pod to choose, so every run and every order gives the same one. */
  lemma ChoiceIsUnique(pods: seq<Pod>, leases: Key -> Lease, p: Pod, q: Pod)
    requires Chosen(pods, leases, p) && Chosen(pods, leases, q)
    ensures p == q
  {
  }

  /** Neither the order of the Pods nor the order in which Leases are read matters. */
  lemma ChoiceIgnoresOrder(pods: seq<Pod>, shuffled: seq<Pod>, leases: Key -> Lease, p: Pod)
    requires multiset(pods) == multiset(shuffled)
    ensures Chosen(pods, leases, p) <==> Chosen(shuffled, leases, p)
  {
    assert |pods| == |multiset(pods)| == |multiset(shuffled)| == |shuffled|;
    forall q ensures q in pods <==> q in shuffled {
      assert q in multiset(pods) <==> q in multiset(shuffled);
    }
    assert References(pods) == References(shuffled);
    if |pods| == 1 {
      assert pods[0] in pods && shuffled[0] in shuffled;
    }
  }

  /** Under leader election, two named Pods or an unready holder rule out any choice. */
  lemma DoubtfulHoldersAreRefused(pods: seq<Pod>, leases: Key -> Lease, p: Pod, q: Pod)
    requires |pods| > 1 && ElectionEverywhere(pods, true)
    requires p in pods && Holds(pods, leases, p) && (!Ready(p) || (q in pods && Holds(pods, leases, q) && p != q))
    ensures forall r :: !Chosen(pods, leases, r)
  {
  }

  /** A Lease names at most one Pod of a namespace, so an ambiguity needs two namespaces or two Leases. */
  lemma OneLeaseNamesOneName(holder: Option<string>, p: Pod, q: Pod)
    requires Plain(p.name) && Plain(q.name) && Names(holder, p) && Names(holder, q) && p.namespace == q.namespace
    ensures KeyOf(p) == KeyOf(q)
  {
    HolderMatchesOneName(holder.value, p.name, q.name);
  }
}
