/**
 Decoding a Kubernetes resource list whose keys may carry a `requests.` prefix.
 internal/cluster/proportion_snapshot.go and internal/agent/presentation.go each
 have such a decoder; they differ in how they test the prefix and round.
 */
module ResourceLists {
  import opened Prelude
  import opened ResourceValues

  datatype Reader = ClusterReader | AgentReader

  const PREFIX := "requests."

  function Ceil(x: real): int {
    -((-x).Floor)
  }

  /** The name a list entry is filed under. */
  function CanonicalName(name: string): string {
    var trimmed := TrimSpace(name);
    if HasPrefix(ToLower(trimmed), PREFIX) then trimmed[|PREFIX|..] else trimmed
  }

  // ---- Canonical names -------------------------------------------------------

  predicate NoOuterSpace(s: string) {
    s != "" ==> !IsSpace(s[0]) && !IsSpace(s[|s| - 1])
  }

  lemma {:induction false} TrimLeftMeaning(s: string)
    ensures var r := TrimLeft(s);
      && |r| <= |s| && (r != "" ==> !IsSpace(r[0]) && r[|r| - 1] == s[|s| - 1])
      && (r == s <==> s == "" || !IsSpace(s[0]))
  {
    if s != "" && IsSpace(s[0]) {
      TrimLeftMeaning(s[1..]);
    }
  }

  lemma {:induction false} TrimRightMeaning(s: string)
    ensures var r := TrimRight(s);
      && |r| <= |s| && (r != "" ==> !IsSpace(r[|r| - 1]) && r[0] == s[0])
      && (r == s <==> s == "" || !IsSpace(s[|s| - 1]))
  {
    if s != "" && IsSpace(s[|s| - 1]) {
      TrimRightMeaning(s[..|s| - 1]);
    }
  }

  lemma TrimSpaceMeaning(s: string)
    ensures NoOuterSpace(TrimSpace(s)) && |TrimSpace(s)| <= |s|
    ensures TrimSpace(s) == s <==> NoOuterSpace(s)
  {
    TrimLeftMeaning(s);
    TrimRightMeaning(TrimLeft(s));
  }

  /** After the prefix comes a space or the prefix once more. */
  predicate PrefixedTwice(name: string) {
    var trimmed := TrimSpace(name);
    HasPrefix(ToLower(trimmed), PREFIX) &&
      var rest := trimmed[|PREFIX|..];
      rest != "" && (IsSpace(rest[0]) || HasPrefix(ToLower(rest), PREFIX))
  }

  /** A decoded name decodes to itself, unless the original carries the prefix twice. */
  lemma CanonicalNameIsStableIff(name: string)
    ensures CanonicalName(CanonicalName(name)) == CanonicalName(name) <==> !PrefixedTwice(name)
  {
    TrimSpaceMeaning(name);
    var trimmed, canonical := TrimSpace(name), CanonicalName(name);
    TrimSpaceMeaning(canonical);
    if canonical != trimmed && canonical != "" {
      assert canonical[|canonical| - 1] == trimmed[|trimmed| - 1];
      assert |ToLower(TrimSpace(canonical))| == |TrimSpace(canonical)|;
    }
  }

  /** The names of a decoded list, none of which carried the prefix twice. */
  ghost predicate Decoded(values: Values) {
    forall n <- values :: exists original :: CanonicalName(original) == n && !PrefixedTwice(original)
  }

  predicate FromRequest(reader: Reader, name: string) {
    match reader
    case ClusterReader => HasPrefix(ToLower(name), PREFIX)
    case AgentReader => HasPrefix(name, PREFIX)
  }

  function EntryValue(reader: Reader, name: string, quantity: real): real {
    var milli := Ceil(quantity * 1000.0) as real / 1000.0;
    var whole := Ceil(quantity) as real;
    if name == "cpu" then milli
    else if reader == AgentReader || name == "memory" || name == "pods" then whole
    else milli
  }

  /** A whole number of units, the least that is not below the quantity. */
  ghost predicate RoundedUp(value: real, quantity: real, unitsPerOne: int)
    requires unitsPerOne > 0
  {
    && quantity <= value && (value - quantity) * unitsPerOne as real < 1.0
    && value * unitsPerOne as real == (value * unitsPerOne as real).Floor as real
  }

  /** CPU is counted in thousandths, memory and Pods in ones; other resources only the cluster reader splits. */
  lemma EntryIsRoundedUp(reader: Reader, name: string, quantity: real)
    ensures RoundedUp(EntryValue(reader, name, quantity), quantity,
      if name == "cpu" || (reader == ClusterReader && name != "memory" && name != "pods") then 1000 else 1)
  {
    ScaledUp(quantity, 1);
    ScaledUp(quantity, 1000);
  }

  lemma ScaledUp(quantity: real, unitsPerOne: int)
    requires unitsPerOne > 0
    ensures RoundedUp(Ceil(quantity * unitsPerOne as real) as real / unitsPerOne as real, quantity, unitsPerOne)
  {
    var units, scaled := unitsPerOne as real, quantity * unitsPerOne as real;
    CeilMeans(scaled);
    var value := Ceil(scaled) as real / units;
    assert value * units == Ceil(scaled) as real;
    assert (value - quantity) * units == Ceil(scaled) as real - scaled;
    assert value < quantity ==> (value - quantity) * units < 0.0;
  }

  lemma CeilMeans(x: real)
    ensures x <= Ceil(x) as real < x + 1.0
  {
  }

  ghost predicate Enumerates(order: seq<string>, keys: set<string>) {
    && (forall n :: n in order <==> n in keys)
    && forall i, j :: 0 <= i < j < |order| ==> order[i] != order[j]
  }

  datatype Progress = Progress(result: Values, backed: set<string>)

  /** One iteration of the decoding loop. */
  function Step(reader: Reader, list: Values, p: Progress, original: string): Progress
    requires original in list
  {
    var name, fromRequest := CanonicalName(original), FromRequest(reader, original);
    if name in p.backed && !fromRequest then p
    else Progress(
      p.result[name := EntryValue(reader, name, list[original])],
      if fromRequest then p.backed + {name} else p.backed)
  }

  function InOrder(reader: Reader, list: Values, order: seq<string>): Progress
    requires forall n :: n in order ==> n in list
  {
    if order == [] then Progress(map[], {})
    else Step(reader, list, InOrder(reader, list, order[..|order| - 1]), order[|order| - 1])
  }

  /** The list may decode to this: some order of visiting its entries does. */
  ghost predicate MayDecodeTo(reader: Reader, list: Values, result: Values) {
    exists order :: Enumerates(order, list.Keys) && InOrder(reader, list, order).result == result
  }

  /** Every entry's name is decoded, and its value is that of an entry nothing can displace. */
  method ResourceListValues(reader: Reader, list: Values) returns (result: Values)
    ensures MayDecodeTo(reader, list, result)
    ensures forall o <- list :: CanonicalName(o) in result
    ensures forall n <- result :: exists o ::
      Wins(reader, list, o) && CanonicalName(o) == n && result[n] == EntryValue(reader, n, list[o])
  {
    result := map[];
    ghost var order: seq<string> := [];
    var requestBacked: set<string> := {};
    var rest := list.Keys;
    while rest != {}
      invariant rest <= list.Keys && Enumerates(order, list.Keys - rest)
      invariant Progress(result, requestBacked) == InOrder(reader, list, order)
      decreases |rest|
    {
      var original :| original in rest;
      rest := rest - {original};
      assert (order + [original])[..|order|] == order;
      order := order + [original];
      var name, fromRequest := CanonicalName(original), FromRequest(reader, original);
      if name in requestBacked && !fromRequest {
        continue;
      }
      result := result[name := EntryValue(reader, name, list[original])];
      if fromRequest {
        requestBacked := requestBacked + {name};
      }
    }
    assert list.Keys - rest == list.Keys;
    ProgressKeys(reader, list, order);
    forall n | n in result
      ensures exists o :: Wins(reader, list, o) && CanonicalName(o) == n && result[n] == EntryValue(reader, n, list[o])
    {
      var o := WinnerOfWholeOrder(reader, list, order, n);
    }
  }

  /** An entry that no request-backed entry of the same name can displace. */
  predicate Wins(reader: Reader, list: Values, original: string) {
    && original in list
    && (FromRequest(reader, original) ||
        forall o :: o in list && FromRequest(reader, o) ==> CanonicalName(o) != CanonicalName(original))
  }

  function NamesOf(order: seq<string>): set<string> {
    set o | o in order :: CanonicalName(o)
  }

  function RequestNamesOf(reader: Reader, order: seq<string>): set<string> {
    set o | o in order && FromRequest(reader, o) :: CanonicalName(o)
  }

  lemma NamesOfNext(reader: Reader, before: seq<string>, o: string)
    ensures NamesOf(before + [o]) == NamesOf(before) + {CanonicalName(o)}
    ensures RequestNamesOf(reader, before + [o]) ==
      RequestNamesOf(reader, before) + if FromRequest(reader, o) then {CanonicalName(o)} else {}
  {
    assert forall p :: p in before + [o] <==> p in before || p == o;
  }

  lemma StepKeys(reader: Reader, list: Values, p: Progress, o: string)
    requires o in list && p.backed <= p.result.Keys
    ensures Step(reader, list, p, o).result.Keys == p.result.Keys + {CanonicalName(o)}
    ensures Step(reader, list, p, o).backed == p.backed + if FromRequest(reader, o) then {CanonicalName(o)} else {}
  {
  }

  lemma {:induction false} ProgressKeys(reader: Reader, list: Values, order: seq<string>)
    requires forall n :: n in order ==> n in list
    ensures InOrder(reader, list, order).result.Keys == NamesOf(order)
    ensures InOrder(reader, list, order).backed == RequestNamesOf(reader, order) <= NamesOf(order)
  {
    if order != [] {
      var before, last := order[..|order| - 1], order[|order| - 1];
      ProgressKeys(reader, list, before);
      NamesOfNext(reader, before, last);
      assert order == before + [last];
      StepKeys(reader, list, InOrder(reader, list, before), last);
    }
  }

  lemma DecodedLists(reader: Reader, list: Values, values: Values)
    requires MayDecodeTo(reader, list, values) && forall o <- list :: !PrefixedTwice(o)
    ensures Decoded(values)
  {
    var order :| Enumerates(order, list.Keys) && InOrder(reader, list, order).result == values;
    ProgressKeys(reader, list, order);
    forall n | n in values ensures exists original :: CanonicalName(original) == n && !PrefixedTwice(original) {
      var o :| o in order && CanonicalName(o) == n;
      assert o in list;
    }
  }

  lemma DecodedNamesAreCanonical(values: Values, n: string)
    requires Decoded(values) && n in values
    ensures CanonicalName(n) == n
  {
    var original :| CanonicalName(original) == n && !PrefixedTwice(original);
    CanonicalNameIsStableIff(original);
  }

  /** Whatever the order, every name gets the value of an entry that wins among those visited. */
  lemma {:induction false} WinnersDecide(reader: Reader, list: Values, order: seq<string>, n: string)
    returns (o: string)
    requires forall m :: m in order ==> m in list
    requires n in InOrder(reader, list, order).result
    ensures o in order
    ensures FromRequest(reader, o) || n !in RequestNamesOf(reader, order)
    ensures CanonicalName(o) == n && InOrder(reader, list, order).result[n] == EntryValue(reader, n, list[o])
  {
    var before, last := order[..|order| - 1], order[|order| - 1];
    assert order == before + [last];
    ProgressKeys(reader, list, before);
    ProgressKeys(reader, list, order);
    if CanonicalName(last) == n && (n !in InOrder(reader, list, before).backed || FromRequest(reader, last)) {
      o := last;
    } else {
      o := WinnersDecide(reader, list, before, n);
    }
  }

  /** A winning entry visited last decides its name. */
  lemma LastWinnerDecides(reader: Reader, list: Values, order: seq<string>)
    requires Enumerates(order, list.Keys) && order != []
    requires Wins(reader, list, order[|order| - 1])
    ensures var o := order[|order| - 1]; var r := InOrder(reader, list, order).result;
            CanonicalName(o) in r && r[CanonicalName(o)] == EntryValue(reader, CanonicalName(o), list[o])
  {
    var before := order[..|order| - 1];
    assert forall n :: n in before ==> n in order;
    ProgressKeys(reader, list, before);
  }

  lemma {:induction false} OrderEndingWith(keys: set<string>, last: string) returns (order: seq<string>)
    requires last in keys
    ensures Enumerates(order, keys) && order[|order| - 1] == last
    decreases |keys|
  {
    if keys == {last} {
      order := [last];
    } else {
      var k :| k in keys && k != last;
      var rest := OrderEndingWith(keys - {k}, last);
      order := [k] + rest;
    }
  }

  predicate Agree(reader: Reader, list: Values, a: string, b: string)
    requires a in list && b in list
  {
    CanonicalName(a) == CanonicalName(b) ==>
      EntryValue(reader, CanonicalName(a), list[a]) == EntryValue(reader, CanonicalName(a), list[b])
  }

  /** No two winning entries of one name disagree. */
  ghost predicate Unambiguous(reader: Reader, list: Values) {
    forall a, b :: Wins(reader, list, a) && Wins(reader, list, b) ==> Agree(reader, list, a, b)
  }

  ghost predicate OrderIndependent(reader: Reader, list: Values) {
    forall p, q :: Enumerates(p, list.Keys) && Enumerates(q, list.Keys) ==>
      InOrder(reader, list, p).result == InOrder(reader, list, q).result
  }

  lemma WinnerOfWholeOrder(reader: Reader, list: Values, order: seq<string>, n: string) returns (o: string)
    requires Enumerates(order, list.Keys) && n in InOrder(reader, list, order).result
    ensures Wins(reader, list, o) && CanonicalName(o) == n
    ensures InOrder(reader, list, order).result[n] == EntryValue(reader, n, list[o])
  {
    o := WinnersDecide(reader, list, order, n);
  }

  lemma OrdersAgree(reader: Reader, list: Values, p: seq<string>, q: seq<string>)
    requires Unambiguous(reader, list) && Enumerates(p, list.Keys) && Enumerates(q, list.Keys)
    ensures InOrder(reader, list, p).result == InOrder(reader, list, q).result
  {
    var r, s := InOrder(reader, list, p).result, InOrder(reader, list, q).result;
    assert r.Keys == s.Keys by {
      ProgressKeys(reader, list, p);
      ProgressKeys(reader, list, q);
      assert NamesOf(p) == NamesOf(q);
    }
    forall n | n in r ensures r[n] == s[n] {
      var a := WinnerOfWholeOrder(reader, list, p, n);
      var b := WinnerOfWholeOrder(reader, list, q, n);
      assert Agree(reader, list, a, b);
    }
  }

  /** The decoded list depends on Go's map order exactly when winning entries of one name disagree. */
  lemma DecodingIsOrderIndependentIffUnambiguous(reader: Reader, list: Values)
    ensures OrderIndependent(reader, list) <==> Unambiguous(reader, list)
  {
    if Unambiguous(reader, list) {
      forall p, q | Enumerates(p, list.Keys) && Enumerates(q, list.Keys)
        ensures InOrder(reader, list, p).result == InOrder(reader, list, q).result
      {
        OrdersAgree(reader, list, p, q);
      }
    }
    if OrderIndependent(reader, list) {
      forall a, b | Wins(reader, list, a) && Wins(reader, list, b) ensures Agree(reader, list, a, b)
      {
        var p := OrderEndingWith(list.Keys, a);
        var q := OrderEndingWith(list.Keys, b);
        LastWinnerDecides(reader, list, p);
        LastWinnerDecides(reader, list, q);
      }
    }
  }

  /** Two spellings of one request-backed name make the two decoding orders disagree. */
  lemma DecodingCanDependOnOrder()
    ensures !OrderIndependent(ClusterReader, map["requests.cpu" := 1.0, "Requests.cpu" := 2.0])
  {
    var list := map["requests.cpu" := 1.0, "Requests.cpu" := 2.0];
    var a, b := "requests.cpu", "Requests.cpu";
    assert ToLower(b) == a == ToLower(a);
    assert TrimSpace(a) == a && TrimSpace(b) == b;
    assert CanonicalName(a) == "cpu" == CanonicalName(b);
    assert Wins(ClusterReader, list, a) && Wins(ClusterReader, list, b);
    assert !Agree(ClusterReader, list, a, b);
    assert Ceil(1000.0) == 1000 && Ceil(2000.0) == 2000;
    DecodingIsOrderIndependentIffUnambiguous(ClusterReader, list);
  }
}
