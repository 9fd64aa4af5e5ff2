/**
 Resource quantities per resource name, as the Go code keeps them in a
 `map[string]float64`. A missing name reads as zero. Quantities are exact reals.
 Go visits a map in an unspecified order; every loop over a map below therefore
 picks the next name arbitrarily, and its contract names one result.
 */
module ResourceValues {
  type Values = map<string, real>

  function At(v: Values, name: string): real {
    if name in v then v[name] else 0.0
  }

  function Plus(a: Values, b: Values): Values {
    map n | n in a.Keys + b.Keys :: At(a, n) + At(b, n)
  }

  function Minus(a: Values, b: Values): Values {
    map n | n in a.Keys + b.Keys :: At(a, n) - At(b, n)
  }

  function Cap(a: Values, limit: Values): Values {
    map n | n in a.Keys + limit.Keys ::
      if n !in limit || (n in a && a[n] <= limit[n]) then a[n] else limit[n]
  }

  function Positive(v: Values): set<string> {
    set n | n in v && v[n] > 0.0
  }

  function Raise(a: Values, candidate: Values): Values {
    map n | n in a.Keys + Positive(candidate) ::
      if n in candidate && candidate[n] > At(a, n) then candidate[n] else At(a, n)
  }

  function Excess(left: Values, right: Values): Values {
    map n | n in left.Keys + right.Keys && At(left, n) - At(right, n) > 0.0 :: At(left, n) - At(right, n)
  }

  /** The part of a map that a loop over it has visited. */
  function Visited(source: Values, rest: set<string>): Values {
    map n | n in source && n !in rest :: source[n]
  }

  lemma NothingVisited(v: Values, source: Values)
    ensures Plus(v, Visited(source, source.Keys)) == v && Minus(v, Visited(source, source.Keys)) == v
  {
    var none := Visited(source, source.Keys);
    assert none == map[];
    assert Plus(v, none).Keys == v.Keys && Minus(v, none).Keys == v.Keys;
  }

  lemma PlusNext(v: Values, source: Values, rest: set<string>, name: string)
    requires name in rest && name in source
    ensures var before := Plus(v, Visited(source, rest));
      Plus(v, Visited(source, rest - {name})) == before[name := At(before, name) + source[name]]
  {
  }

  lemma MinusNext(v: Values, source: Values, rest: set<string>, name: string)
    requires name in rest && name in source
    ensures var before := Minus(v, Visited(source, rest));
      Minus(v, Visited(source, rest - {name})) == before[name := At(before, name) - source[name]]
  {
  }

  lemma CapNext(v: Values, limit: Values, rest: set<string>, name: string)
    requires name in rest && name in limit
    ensures var before := Cap(v, Visited(limit, rest));
      Cap(v, Visited(limit, rest - {name})) ==
        if name !in before || limit[name] < before[name] then before[name := limit[name]] else before
  {
    var before := Cap(v, Visited(limit, rest));
    assert name in before <==> name in v;
    assert name in before ==> before[name] == v[name];
  }

  lemma NothingCapped(v: Values, limit: Values)
    ensures Cap(v, Visited(limit, limit.Keys)) == v
  {
    assert Visited(limit, limit.Keys) == map[];
  }

  /** A map that the Go functions update in place through their first argument. */
  class ResourceMap {
    var values: Values

    constructor (initial: Values)
      ensures values == initial
    {
      values := initial;
    }

    method Add(source: Values)
      modifies this
      ensures values == Plus(old(values), source)
    {
      var rest := source.Keys;
      NothingVisited(values, source);
      while rest != {}
        invariant rest <= source.Keys
        invariant values == Plus(old(values), Visited(source, rest))
        decreases |rest|
      {
        var name :| name in rest;
        PlusNext(old(values), source, rest, name);
        values := values[name := At(values, name) + source[name]];
        rest := rest - {name};
      }
      assert Visited(source, {}) == source;
    }

    method Subtract(source: Values)
      modifies this
      ensures values == Minus(old(values), source)
    {
      var rest := source.Keys;
      NothingVisited(values, source);
      while rest != {}
        invariant rest <= source.Keys
        invariant values == Minus(old(values), Visited(source, rest))
        decreases |rest|
      {
        var name :| name in rest;
        MinusNext(old(values), source, rest, name);
        values := values[name := At(values, name) - source[name]];
        rest := rest - {name};
      }
      assert Visited(source, {}) == source;
    }

    /** Lowers every entry to its limit and adopts limits that had no entry. */
    method LimitTo(limit: Values)
      modifies this
      ensures values == Cap(old(values), limit)
    {
      var rest := limit.Keys;
      NothingCapped(values, limit);
      while rest != {}
        invariant rest <= limit.Keys
        invariant values == Cap(old(values), Visited(limit, rest))
        decreases |rest|
      {
        var name :| name in rest;
        CapNext(old(values), limit, rest, name);
        if name !in values || limit[name] < values[name] {
          values := values[name := limit[name]];
        }
        rest := rest - {name};
      }
      assert Visited(limit, {}) == limit;
    }

    /** Raises every entry to the candidate; a missing entry counts as zero. */
    method RaiseTo(candidate: Values)
      modifies this
      ensures values == Raise(old(values), candidate)
    {
      var rest := candidate.Keys;
      while rest != {}
        invariant rest <= candidate.Keys
        invariant forall n :: n in values <==> n in old(values) || (n in Positive(candidate) && n !in rest)
        invariant forall n :: n in values ==>
          values[n] == (if n in candidate && n !in rest && candidate[n] > At(old(values), n)
                        then candidate[n] else At(old(values), n))
        decreases |rest|
      {
        var name :| name in rest;
        if candidate[name] > At(values, name) {
          values := values[name := candidate[name]];
        }
        rest := rest - {name};
      }
    }
  }
}
