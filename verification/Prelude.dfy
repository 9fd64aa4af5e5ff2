/** Small shared datatypes and the few facts about text that several modules need. */
module Prelude {

  datatype Option<+T> = None | Some(value: T)

  datatype Result<+T, +E> = Ok(value: T) | Err(error: E)

  function GetOr<T>(o: Option<T>, fallback: T): T {
    if o.Some? then o.value else fallback
  }

  function LowerChar(c: char): char {
    if 'A' <= c <= 'Z' then ((c as int) + 32) as char else c
  }

  /** `strings.ToLower` on ASCII text. */
  function ToLower(s: string): (r: string)
    ensures |r| == |s|
    ensures forall i :: 0 <= i < |s| ==> 'A' <= s[i] <= 'Z' ==> r[i] as int - 'a' as int == s[i] as int - 'A' as int
    ensures forall i :: 0 <= i < |s| ==> s[i] < 'A' || 'Z' < s[i] ==> r[i] == s[i]
  {
    seq(|s|, i requires 0 <= i < |s| => LowerChar(s[i]))
  }

  predicate HasPrefix(s: string, prefix: string) {
    prefix <= s
  }

  predicate IsSpace(c: char) {
    c == ' ' || c == '\t' || c == '\n' || c == '\r'
  }

  function TrimLeft(s: string): string {
    if s != "" && IsSpace(s[0]) then TrimLeft(s[1..]) else s
  }

  function TrimRight(s: string): string {
    if s != "" && IsSpace(s[|s| - 1]) then TrimRight(s[..|s| - 1]) else s
  }

  /** `strings.TrimSpace` on ASCII text. */
  function TrimSpace(s: string): string {
    TrimRight(TrimLeft(s))
  }

  /** The byte order that `sort.Strings` uses. */
  predicate Before(a: string, b: string)
    decreases |a|
  {
    b != "" && (a == "" || a[0] < b[0] || (a[0] == b[0] && Before(a[1..], b[1..])))
  }

  predicate StrictlySorted(s: seq<string>) {
    forall i, j :: 0 <= i < j < |s| ==> Before(s[i], s[j])
  }

  lemma BeforeTotal(a: string, b: string)
    ensures a == b || Before(a, b) || Before(b, a)
    decreases |a|
  {
  }

  lemma BeforeTransitive(a: string, b: string, c: string)
    requires Before(a, b) && Before(b, c)
    ensures Before(a, c)
    decreases |a|
  {
  }

  lemma BeforeIrreflexive(a: string)
    ensures !Before(a, a)
    decreases |a|
  {
  }

  /** `sort.Strings` applied to the keys of a map, read in any order. */
  method SortedKeys(names: set<string>) returns (sorted: seq<string>)
    ensures StrictlySorted(sorted)
    ensures forall n :: n in sorted <==> n in names
  {
    sorted := [];
    var rest := names;
    while rest != {}
      invariant rest <= names
      invariant StrictlySorted(sorted)
      invariant forall n :: n in sorted <==> n in names && n !in rest
      decreases |rest|
    {
      var name :| name in rest;
      var at := 0;
      while at < |sorted| && Before(sorted[at], name)
        invariant 0 <= at <= |sorted|
        invariant forall i :: 0 <= i < at ==> Before(sorted[i], name)
      {
        at := at + 1;
      }
      forall i | at <= i < |sorted| ensures Before(name, sorted[i]) {
        assert sorted[i] in sorted;
        BeforeTotal(sorted[at], name);
        assert sorted[at] in sorted;
        if i > at {
          BeforeTransitive(name, sorted[at], sorted[i]);
        }
      }
      ghost var was := sorted;
      sorted := sorted[..at] + [name] + sorted[at..];
      assert forall n :: n in sorted <==> n in was || n == name by {
        assert was == was[..at] + was[at..];
      }
      rest := rest - {name};
    }
  }
}
