/**
 Reading the defaults of the predicates plugin out of the Go source of
 `enablePredicate` (internal/source/predicate_defaults.go): a struct literal
 gives each boolean field its default, and `args.GetBool(&p.Field, Key)` ties
 the field to a configuration key.
 */
module PredicateDefaults {
  import opened Prelude
  import opened GoSource
  import opened GoStruct
  import opened PredicateText

  datatype Error =
    | BadTarget | ManyLiterals | NoLiteral | BadElement | BadDefault | AssignedTwice
    | EarlyCall | BadCall | NoDefault | BadKey | FieldTwice | KeyTwice | UnsupportedCall | NoDefaults

  // ---- The struct literal ---------------------------------------------------

  predicate Single(s: Stmt) {
    s.Assignment? && s.op != Declare && |s.lhs| == 1 && |s.rhs| == 1
  }

  predicate AssignsLiteral(s: Stmt) {
    Single(s) && s.rhs[0].Struct? && s.rhs[0].typeName == STRUCT_TYPE
  }

  function ReadElement(
    element: Element, boolFields: set<string>, defaults: map<string, bool>): Result<map<string, bool>, Error>
  {
    if element.Plain? || !element.key.Ident? then Err(BadElement)
    else if element.key.name !in boolFields then Ok(defaults)
    else if Literal(element.value).None? then Err(BadDefault)
    else if element.key.name in defaults then Err(AssignedTwice)
    else Ok(defaults[element.key.name := Literal(element.value).value])
  }

  function ReadElements(elements: seq<Element>, boolFields: set<string>): Result<map<string, bool>, Error> {
    if elements == [] then Ok(map[])
    else
      var before := ReadElements(elements[..|elements| - 1], boolFields);
      if before.Err? then before else ReadElement(elements[|elements| - 1], boolFields, before.value)
  }

  lemma {:induction false} ElementErrorStays(elements: seq<Element>, boolFields: set<string>, i: nat)
    requires i <= |elements| && ReadElements(elements[..i], boolFields).Err?
    ensures ReadElements(elements, boolFields) == ReadElements(elements[..i], boolFields)
    decreases |elements| - i
  {
    if i == |elements| {
      assert elements[..i] == elements;
    } else {
      assert elements[..i + 1][..i] == elements[..i];
      ElementErrorStays(elements, boolFields, i + 1);
    }
  }

  /** Which beginnings of a literal are read, and what is kept of them. */
  lemma {:induction false} ElementsAreRead(elements: seq<Element>, boolFields: set<string>, n: nat)
    requires n <= |elements|
    ensures ReadElements(elements[..n], boolFields).Ok? <==>
      forall i :: 0 <= i < n ==> ElementFine(elements, i, boolFields)
    ensures ReadElements(elements[..n], boolFields).Ok? ==>
      KeepsElements(elements, boolFields, n, ReadElements(elements[..n], boolFields).value)
  {
    if n > 0 {
      ElementsAreRead(elements, boolFields, n - 1);
      assert elements[..n][..n - 1] == elements[..n - 1];
      if ReadElements(elements[..n - 1], boolFields).Ok? {
        NextElement(elements, boolFields, n - 1, ReadElements(elements[..n - 1], boolFields).value);
      }
    }
  }

  predicate SetsUpTo(elements: seq<Element>, n: nat, field: string, value: bool)
    requires n <= |elements|
  {
    exists i :: 0 <= i < n && SetsField(elements[i], field, value)
  }

  ghost predicate KeepsElements(elements: seq<Element>, boolFields: set<string>, n: nat, defaults: map<string, bool>)
    requires n <= |elements|
  {
    && (forall f :: f in defaults <==>
      f in boolFields && (SetsUpTo(elements, n, f, true) || SetsUpTo(elements, n, f, false)))
    && (forall f, value | f in defaults && SetsUpTo(elements, n, f, value) :: defaults[f] == value)
  }

  lemma NextSets(elements: seq<Element>, n: nat, field: string, value: bool)
    requires n < |elements|
    ensures SetsUpTo(elements, n + 1, field, value) <==>
      SetsUpTo(elements, n, field, value) || SetsField(elements[n], field, value)
  {
  }

  lemma NextElement(elements: seq<Element>, boolFields: set<string>, n: nat, defaults: map<string, bool>)
    requires n < |elements| && KeepsElements(elements, boolFields, n, defaults)
    ensures ReadElement(elements[n], boolFields, defaults).Ok? <==> ElementFine(elements, n, boolFields)
    ensures ReadElement(elements[n], boolFields, defaults).Ok? ==>
      KeepsElements(elements, boolFields, n + 1, ReadElement(elements[n], boolFields, defaults).value)
  {
    var e := elements[n];
    if e.KeyValue? && e.key.Ident? && e.key.name in boolFields {
      var f := e.key.name;
      forall value ensures SetsField(e, f, value) <==> Literal(e.value) == Some(value) {
      }
      if f !in defaults {
        forall j, value | 0 <= j < n ensures !SetsField(elements[j], f, value) {
          assert !SetsUpTo(elements, n, f, value);
        }
      } else {
        var value := if SetsUpTo(elements, n, f, true) then true else false;
        var j :| 0 <= j < n && SetsField(elements[j], f, value);
        assert !ElementFine(elements, n, boolFields);
      }
    }
    if ReadElement(e, boolFields, defaults).Ok? {
      ElementIsKept(elements, boolFields, n, defaults);
    }
  }

  lemma ElementIsKept(elements: seq<Element>, boolFields: set<string>, n: nat, defaults: map<string, bool>)
    requires n < |elements| && KeepsElements(elements, boolFields, n, defaults)
    requires ReadElement(elements[n], boolFields, defaults).Ok?
    ensures KeepsElements(elements, boolFields, n + 1, ReadElement(elements[n], boolFields, defaults).value)
  {
    var e, after := elements[n], ReadElement(elements[n], boolFields, defaults).value;
    var end := n + 1;
    forall f
      ensures f in after <==> f in boolFields && (SetsUpTo(elements, end, f, true) || SetsUpTo(elements, end, f, false))
    {
      NextSets(elements, n, f, true);
      NextSets(elements, n, f, false);
      assert e.key.name == f && f in boolFields ==> SetsField(e, f, true) || SetsField(e, f, false);
    }
    forall f, value | f in after && SetsUpTo(elements, end, f, value) ensures after[f] == value {
      NextSets(elements, n, f, value);
      if e.key.name == f && f in boolFields {
        assert f !in defaults && !SetsUpTo(elements, n, f, value);
      }
    }
  }

  lemma WholeLiteral(elements: seq<Element>, boolFields: set<string>)
    ensures ReadElements(elements, boolFields).Ok? <==> ElementsFine(elements, boolFields)
    ensures ReadElements(elements, boolFields).Ok? ==>
      IsDefaults(elements, boolFields, ReadElements(elements, boolFields).value)
  {
    ElementsAreRead(elements, boolFields, |elements|);
    assert elements[..|elements|] == elements;
    if ReadElements(elements, boolFields).Ok? {
      KeptAreDefaults(elements, boolFields, ReadElements(elements, boolFields).value);
    }
  }

  lemma KeptAreDefaults(elements: seq<Element>, boolFields: set<string>, defaults: map<string, bool>)
    requires KeepsElements(elements, boolFields, |elements|, defaults)
    ensures IsDefaults(elements, boolFields, defaults)
  {
    forall f ensures f in defaults <==>
      f in boolFields && exists i, value :: 0 <= i < |elements| && SetsField(elements[i], f, value)
    {
      if i, value :| 0 <= i < |elements| && SetsField(elements[i], f, value) {
        assert SetsUpTo(elements, |elements|, f, value);
      }
    }
    forall i, f, value | 0 <= i < |elements| && SetsField(elements[i], f, value) && f in defaults
      ensures defaults[f] == value
    {
      assert SetsUpTo(elements, |elements|, f, value);
    }
  }

  lemma SameDefaults(elements: seq<Element>, boolFields: set<string>, a: map<string, bool>, b: map<string, bool>)
    requires IsDefaults(elements, boolFields, a) && IsDefaults(elements, boolFields, b)
    ensures a == b
  {
    forall f | f in a ensures f in b && a[f] == b[f] {
      var i, value :| 0 <= i < |elements| && SetsField(elements[i], f, value);
    }
  }

  /** What the reader takes for the literal is the one that the text gives. */
  lemma LiteralMeans(body: seq<Stmt>, boolFields: set<string>, d: LiteralDefaults)
    ensures IsLiteralDefaults(body, boolFields, d) <==> IsLiteral(body, boolFields, d)
  {
    forall k | 0 <= k < |body| ensures GivesStruct(body[k]) <==> AssignsLiteral(body[k]) {
    }
    if d.at < |body| && AssignsLiteral(body[d.at]) {
      var elements := body[d.at].rhs[0].elements;
      WholeLiteral(elements, boolFields);
      assert body[d.at].rhs == [Struct("predicateEnable", elements)] && |body[d.at].lhs| == 1;
      assert GivesLiteral(body[d.at], d.name, elements) <==>
        body[d.at].op != OtherOp && body[d.at].lhs[0] == Ident(d.name);
      if IsLiteral(body, boolFields, d) {
        SameDefaults(elements, boolFields, ReadElements(elements, boolFields).value, d.defaults);
      }
    }
  }

  /** The one literal of the body, assigned to a plain variable. */
  predicate OnlyLiteral(body: seq<Stmt>, i: nat) {
    && i < |body| && AssignsLiteral(body[i]) && body[i].op != OtherOp && body[i].lhs[0].Ident?
    && forall k :: 0 <= k < |body| && k != i ==> !AssignsLiteral(body[k])
  }

  predicate IsLiteralDefaults(body: seq<Stmt>, boolFields: set<string>, d: LiteralDefaults) {
    && OnlyLiteral(body, d.at) && body[d.at].lhs[0] == Ident(d.name)
    && ReadElements(body[d.at].rhs[0].elements, boolFields) == Ok(d.defaults)
  }

  method PredicateEnableLiteralDefaults(body: seq<Stmt>, boolFields: set<string>)
    returns (result: Result<LiteralDefaults, Error>)
    ensures result.Ok? ==> IsLiteralDefaults(body, boolFields, result.value)
    ensures result.Err? ==> forall d :: !IsLiteralDefaults(body, boolFields, d)
    ensures result.Ok? ==> IsLiteral(body, boolFields, result.value)
    ensures result.Err? ==> forall d :: !IsLiteral(body, boolFields, d)
  {
    forall d {
      LiteralMeans(body, boolFields, d);
    }
    var found: Option<nat> := None;
    for i := 0 to |body|
      invariant found.None? ==> forall k :: 0 <= k < i ==> !AssignsLiteral(body[k])
      invariant found.Some? ==> (
        && found.value < i && AssignsLiteral(body[found.value])
        && body[found.value].op != OtherOp && body[found.value].lhs[0].Ident?
        && forall k :: 0 <= k < i && k != found.value ==> !AssignsLiteral(body[k]))
    {
      var s := body[i];
      if !s.Assignment? || s.op == Declare || |s.lhs| != 1 || |s.rhs| != 1 {
        continue;
      }
      if !s.rhs[0].Struct? || s.rhs[0].typeName != STRUCT_TYPE {
        continue;
      }
      if s.op != Define && s.op != Assign {
        return Err(BadTarget);
      }
      if !s.lhs[0].Ident? {
        return Err(BadTarget);
      }
      if found.Some? {
        return Err(ManyLiterals);
      }
      found := Some(i);
    }
    if found.None? {
      return Err(NoLiteral);
    }
    var elements := body[found.value].rhs[0].elements;
    var defaults: map<string, bool> := map[];
    for i := 0 to |elements|
      invariant ReadElements(elements[..i], boolFields) == Ok(defaults)
    {
      assert elements[..i + 1][..i] == elements[..i];
      var read := ReadElement(elements[i], boolFields, defaults);
      if read.Err? {
        ElementErrorStays(elements, boolFields, i + 1);
        return Err(read.error);
      }
      defaults := read.value;
    }
    assert elements[..|elements|] == elements;
    return Ok(LiteralDefaults(body[found.value].lhs[0].name, found.value, defaults));
  }

  // ---- The GetBool calls ----------------------------------------------------

  /** How many `GetBool` calls on the arguments an expression holds at any depth. */
  function CallsIn(e: Expr, args: string): nat {
    match e
    case Ident(_) => 0
    case Field(_, _) => 0
    case Equal(left, right) => CallsIn(left, args) + CallsIn(right, args)
    case AddressOf(operand) => CallsIn(operand, args)
    case Struct(_, elements) => CallsInElements(elements, args)
    case GetBool(receiver, arguments) => (if receiver == args then 1 else 0) + CallsInAll(arguments, args)
    case OtherExpr(inner) => CallsInAll(inner, args)
  }

  function CallsInElements(elements: seq<Element>, args: string): nat {
    if elements == [] then 0
    else CallsInElements(elements[..|elements| - 1], args) + CallsInElement(elements[|elements| - 1], args)
  }

  function CallsInElement(element: Element, args: string): nat {
    match element
    case KeyValue(key, value) => CallsIn(key, args) + CallsIn(value, args)
    case Plain(value) => CallsIn(value, args)
  }

  function CallsInAll(es: seq<Expr>, args: string): nat {
    if es == [] then 0 else CallsInAll(es[..|es| - 1], args) + CallsIn(es[|es| - 1], args)
  }

  function StmtCalls(s: Stmt, args: string): nat {
    match s
    case Assignment(lhs, _, rhs) => CallsInAll(lhs, args) + CallsInAll(rhs, args)
    case Expression(e) => CallsIn(e, args)
    case If(init, cond, body, _, otherwise) =>
      BodyCalls(init, args) + CallsIn(cond, args) + BodyCalls(body, args) + BodyCalls(otherwise, args)
    case Block(body) => BodyCalls(body, args)
    case Loop(exprs, body) => CallsInAll(exprs, args) + BodyCalls(body, args)
    case Leave(_, results) => CallsInAll(results, args)
  }

  function BodyCalls(body: seq<Stmt>, args: string): nat {
    if body == [] then 0 else BodyCalls(body[..|body| - 1], args) + StmtCalls(body[|body| - 1], args)
  }

  /** A statement that is nothing but such a call. */
  predicate IsCall(s: Stmt, args: string) {
    s.Expression? && s.e.GetBool? && s.e.receiver == args
  }

  /** The field and the key constant of a call of the supported form. */
  function Association(s: Stmt, args: string, p: string, boolFields: set<string>): Option<(string, string)> {
    if !IsCall(s, args) || |s.e.arguments| != 2 then None
    else if !s.e.arguments[0].AddressOf? || !s.e.arguments[0].operand.Field? then None
    else if s.e.arguments[0].operand.base != p || s.e.arguments[0].operand.field !in boolFields then None
    else if !s.e.arguments[1].Ident? then None
    else Some((s.e.arguments[0].operand.field, s.e.arguments[1].name))
  }

  /** What a key was tied to: the statement that reads it, the field it sets and that field's default. */
  datatype Tie = Tie(at: nat, field: string, default: bool)

  datatype Reading = Reading(keys: map<string, Tie>, fields: set<string>)

  function CallField(src: Source, s: Stmt): string {
    var association := Association(s, src.args, src.literal.name, src.boolFields);
    if association.Some? then association.value.0 else ""
  }

  function KeyOf(src: Source, s: Stmt): string {
    var association := Association(s, src.args, src.literal.name, src.boolFields);
    if association.Some? && association.value.1 in src.constants then src.constants[association.value.1] else ""
  }

  function ReadCall(src: Source, s: Stmt, r: Reading, i: nat): Result<Reading, Error> {
    if !IsCall(s, src.args) then Ok(r)
    else if i <= src.literal.at then Err(EarlyCall)
    else if Association(s, src.args, src.literal.name, src.boolFields).None? then Err(BadCall)
    else if CallField(src, s) !in src.literal.defaults then Err(NoDefault)
    else if KeyOf(src, s) == "" then Err(BadKey)
    else if CallField(src, s) in r.fields then Err(FieldTwice)
    else if KeyOf(src, s) in r.keys then Err(KeyTwice)
    else
      var field := CallField(src, s);
      Ok(Reading(r.keys[KeyOf(src, s) := Tie(i, field, src.literal.defaults[field])], r.fields + {field}))
  }

  function ReadCalls(src: Source, body: seq<Stmt>, n: nat): Result<Reading, Error>
    requires n <= |body|
  {
    if n == 0 then Ok(Reading(map[], {}))
    else
      var before := ReadCalls(src, body, n - 1);
      if before.Err? then before else ReadCall(src, body[n - 1], before.value, n - 1)
  }

  lemma {:induction false} CallErrorStays(src: Source, body: seq<Stmt>, n: nat)
    requires n <= |body| && ReadCalls(src, body, n).Err?
    ensures ReadCalls(src, body, |body|) == ReadCalls(src, body, n)
    decreases |body| - n
  {
    if n < |body| {
      CallErrorStays(src, body, n + 1);
    }
  }

  function Defaults(r: Reading): map<string, bool> {
    map k | k in r.keys :: r.keys[k].default
  }

  /** Every read key belongs to one later call, and every call to one key and one field. */
  ghost predicate Tied(src: Source, body: seq<Stmt>, r: Reading, n: nat)
    requires n <= |body|
  {
    && (forall k <- r.keys :: TiedTo(src, body, r.keys[k], k, n) && r.keys[k].field in r.fields)
    && (forall i :: 0 <= i < n && IsCall(body[i], src.args) ==>
      KeyOf(src, body[i]) in r.keys && r.keys[KeyOf(src, body[i])].at == i)
    && (forall k <- r.keys, l <- r.keys :: r.keys[k].field == r.keys[l].field ==> k == l)
  }

  predicate TiedTo(src: Source, body: seq<Stmt>, t: Tie, key: string, n: nat)
    requires n <= |body|
  {
    && src.literal.at < t.at < n
    && Association(body[t.at], src.args, src.literal.name, src.boolFields).Some?
    && CallField(src, body[t.at]) == t.field && KeyOf(src, body[t.at]) == key
    && t.field in src.literal.defaults && src.literal.defaults[t.field] == t.default
  }

  lemma OldTiesStay(src: Source, body: seq<Stmt>, n: nat, before: Reading)
    requires n < |body| && Tied(src, body, before, n)
    ensures forall k <- before.keys ::
      TiedTo(src, body, before.keys[k], k, n + 1) && before.keys[k].field in before.fields
    ensures !IsCall(body[n], src.args) ==> Tied(src, body, before, n + 1)
  {
    forall k | k in before.keys ensures TiedTo(src, body, before.keys[k], k, n + 1) {
      assert TiedTo(src, body, before.keys[k], k, n);
    }
  }

  lemma NewTieHolds(src: Source, body: seq<Stmt>, n: nat, before: Reading, after: Reading)
    requires n < |body| && IsCall(body[n], src.args) && ReadCall(src, body[n], before, n) == Ok(after)
    ensures var key := KeyOf(src, body[n]);
      && key in after.keys && key !in before.keys && after.keys[key].field !in before.fields
      && after.keys[key].at == n && TiedTo(src, body, after.keys[key], key, n + 1)
      && after == Reading(before.keys[key := after.keys[key]], before.fields + {after.keys[key].field})
  {
  }

  lemma AddTie(src: Source, body: seq<Stmt>, n: nat, before: Reading, key: string, tie: Tie)
    requires n < |body| && Tied(src, body, before, n) && IsCall(body[n], src.args) && KeyOf(src, body[n]) == key
    requires key !in before.keys && tie.field !in before.fields && tie.at == n && TiedTo(src, body, tie, key, n + 1)
    ensures Tied(src, body, Reading(before.keys[key := tie], before.fields + {tie.field}), n + 1)
  {
    OldTiesStay(src, body, n, before);
  }

  lemma NextCallIsTied(src: Source, body: seq<Stmt>, n: nat, before: Reading, after: Reading)
    requires n < |body| && Tied(src, body, before, n) && ReadCall(src, body[n], before, n) == Ok(after)
    ensures Tied(src, body, after, n + 1)
  {
    if IsCall(body[n], src.args) {
      NewTieHolds(src, body, n, before, after);
      AddTie(src, body, n, before, KeyOf(src, body[n]), after.keys[KeyOf(src, body[n])]);
    } else {
      OldTiesStay(src, body, n, before);
    }
  }

  lemma {:induction false} ReadKeysAreTied(src: Source, body: seq<Stmt>, n: nat)
    requires n <= |body| && ReadCalls(src, body, n).Ok?
    ensures Tied(src, body, ReadCalls(src, body, n).value, n)
  {
    if n > 0 {
      ReadKeysAreTied(src, body, n - 1);
      NextCallIsTied(src, body, n - 1, ReadCalls(src, body, n - 1).value, ReadCalls(src, body, n).value);
    }
  }

  /** How many of the first `n` statements are calls of their own. */
  function OwnCalls(body: seq<Stmt>, n: nat, args: string): nat
    requires n <= |body|
  {
    if n == 0 then 0 else OwnCalls(body, n - 1, args) + if IsCall(body[n - 1], args) then 1 else 0
  }

  /** No call hides inside another statement or expression. */
  predicate NothingHidden(body: seq<Stmt>, args: string) {
    forall i :: 0 <= i < |body| ==> StmtCalls(body[i], args) == if IsCall(body[i], args) then 1 else 0
  }

  lemma {:induction false} CountsMatchIffNothingHidden(body: seq<Stmt>, n: nat, args: string)
    requires n <= |body|
    ensures BodyCalls(body[..n], args) >= OwnCalls(body, n, args)
    ensures BodyCalls(body[..n], args) == OwnCalls(body, n, args) <==>
      forall i :: 0 <= i < n ==> StmtCalls(body[i], args) == if IsCall(body[i], args) then 1 else 0
  {
    if n > 0 {
      assert body[..n][..n - 1] == body[..n - 1];
      CountsMatchIffNothingHidden(body, n - 1, args);
    }
  }

  // ---- The reading and the text ---------------------------------------------

  lemma {:induction false} CallsMeanHasCall(e: Expr, args: string)
    ensures CallsIn(e, args) == 0 <==> !HasCall(e, args)
    decreases e, 0
  {
    match e
    case Equal(left, right) =>
      CallsMeanHasCall(left, args);
      CallsMeanHasCall(right, args);
    case AddressOf(operand) => CallsMeanHasCall(operand, args);
    case Struct(_, elements) => ElementCallsMeanHasCall(elements, args);
    case GetBool(_, arguments) => AllCallsMeanHasCall(arguments, args);
    case OtherExpr(inner) => AllCallsMeanHasCall(inner, args);
    case _ =>
  }

  lemma {:induction false} ElementCallsMeanHasCall(elements: seq<Element>, args: string)
    ensures CallsInElements(elements, args) == 0 <==>
      forall i :: 0 <= i < |elements| ==> !ElementHasCall(elements[i], args)
    decreases elements, 1
  {
    if elements != [] {
      var init, last := elements[..|elements| - 1], elements[|elements| - 1];
      ElementCallsMeanHasCall(init, args);
      assert forall i :: 0 <= i < |init| ==> init[i] == elements[i];
      ElementCallsMean(last, args);
    }
  }

  lemma {:induction false} ElementCallsMean(e: Element, args: string)
    ensures CallsInElement(e, args) == 0 <==> !ElementHasCall(e, args)
    decreases e, 0
  {
    match e
    case KeyValue(k, v) =>
      CallsMeanHasCall(k, args);
      CallsMeanHasCall(v, args);
    case Plain(v) => CallsMeanHasCall(v, args);
  }

  lemma {:induction false} AllCallsMeanHasCall(es: seq<Expr>, args: string)
    ensures CallsInAll(es, args) == 0 <==> !SomeHasCall(es, args)
    decreases es, 1
  {
    if es != [] {
      var init := es[..|es| - 1];
      AllCallsMeanHasCall(init, args);
      CallsMeanHasCall(es[|es| - 1], args);
      assert forall i :: 0 <= i < |init| ==> init[i] == es[i];
      assert SomeHasCall(es, args) <==> SomeHasCall(init, args) || HasCall(es[|es| - 1], args);
    }
  }

  lemma {:induction false} StmtCallsMeanHasCall(s: Stmt, args: string)
    ensures StmtCalls(s, args) == 0 <==> !StmtHasCall(s, args)
    decreases s, 0
  {
    match s
    case Assignment(lhs, _, rhs) =>
      AllCallsMeanHasCall(lhs, args);
      AllCallsMeanHasCall(rhs, args);
    case Expression(e) => CallsMeanHasCall(e, args);
    case If(init, cond, body, _, otherwise) =>
      BodyCallsMeanHasCall(init, args);
      CallsMeanHasCall(cond, args);
      BodyCallsMeanHasCall(body, args);
      BodyCallsMeanHasCall(otherwise, args);
    case Block(body) => BodyCallsMeanHasCall(body, args);
    case Loop(exprs, body) =>
      AllCallsMeanHasCall(exprs, args);
      BodyCallsMeanHasCall(body, args);
    case Leave(_, results) => AllCallsMeanHasCall(results, args);
  }

  lemma {:induction false} BodyCallsMeanHasCall(body: seq<Stmt>, args: string)
    ensures BodyCalls(body, args) == 0 <==> !BodyHasCall(body, args)
    decreases body, 1
  {
    if body != [] {
      var init := body[..|body| - 1];
      BodyCallsMeanHasCall(init, args);
      StmtCallsMeanHasCall(body[|body| - 1], args);
      assert forall i :: 0 <= i < |init| ==> init[i] == body[i];
      assert BodyHasCall(body, args) <==> BodyHasCall(init, args) || StmtHasCall(body[|body| - 1], args);
    }
  }

  lemma NothingHiddenMeans(body: seq<Stmt>, args: string)
    ensures NothingHidden(body, args) <==> NoneHidden(body, args)
  {
    forall i | 0 <= i < |body|
      ensures (StmtCalls(body[i], args) == if IsCall(body[i], args) then 1 else 0) <==>
        if Calls(body[i], args) then !SomeHasCall(body[i].e.arguments, args) else !StmtHasCall(body[i], args)
    {
      StmtCallsMeanHasCall(body[i], args);
      if Calls(body[i], args) {
        AllCallsMeanHasCall(body[i].e.arguments, args);
      }
    }
  }

  lemma AssociationMeans(s: Stmt, src: Source, field: string, constant: string)
    ensures Association(s, src.args, src.literal.name, src.boolFields) == Some((field, constant)) <==>
      ReadsInto(s, src.args, src.literal.name, field, constant) && field in src.boolFields
  {
    if Association(s, src.args, src.literal.name, src.boolFields) == Some((field, constant)) {
      assert s.e.arguments == [AddressOf(Field(src.literal.name, field)), Ident(constant)];
    }
  }

  /** The field, key and default of a call that the reader understands. */
  datatype KeyTie = KeyTie(field: string, key: string, default: bool)

  function TieOf(src: Source, s: Stmt): Option<KeyTie> {
    if Association(s, src.args, src.literal.name, src.boolFields).None? || KeyOf(src, s) == "" then None
    else if CallField(src, s) !in src.literal.defaults then None
    else Some(KeyTie(CallField(src, s), KeyOf(src, s), src.literal.defaults[CallField(src, s)]))
  }

  lemma TiesMeans(src: Source, s: Stmt, field: string, key: string, value: bool)
    ensures TiesKey(src, s, field, key, value) <==> TieOf(src, s) == Some(KeyTie(field, key, value))
  {
    var association := Association(s, src.args, src.literal.name, src.boolFields);
    if association.Some? {
      AssociationMeans(s, src, association.value.0, association.value.1);
    }
    if TiesKey(src, s, field, key, value) {
      var c :| ReadsInto(s, src.args, src.literal.name, field, c) && c in src.constants && src.constants[c] == key;
      AssociationMeans(s, src, field, c);
    }
  }

  function TiesIn(src: Source, body: seq<Stmt>): seq<Option<KeyTie>> {
    seq(|body|, i requires 0 <= i < |body| => TieOf(src, body[i]))
  }

  predicate TieAt(ties: seq<Option<KeyTie>>, i: int, t: KeyTie) {
    0 <= i < |ties| && ties[i] == Some(t)
  }

  /** The keys and fields of the first `n` statements, each key with its last default. */
  function TiedKeys(ties: seq<Option<KeyTie>>, n: nat): map<string, bool>
    requires n <= |ties|
  {
    if n == 0 then map[]
    else if ties[n - 1].None? then TiedKeys(ties, n - 1)
    else TiedKeys(ties, n - 1)[ties[n - 1].value.key := ties[n - 1].value.default]
  }

  function TiedFields(ties: seq<Option<KeyTie>>, n: nat): set<string>
    requires n <= |ties|
  {
    if n == 0 then {}
    else TiedFields(ties, n - 1) + if ties[n - 1].None? then {} else {ties[n - 1].value.field}
  }

  lemma {:induction false} TiedKeyHolds(ties: seq<Option<KeyTie>>, n: nat, key: string)
    requires n <= |ties|
    ensures key in TiedKeys(ties, n) <==> exists i, t :: i < n && TieAt(ties, i, t) && t.key == key
  {
    if n > 0 {
      TiedKeyHolds(ties, n - 1, key);
      if ties[n - 1].Some? {
        assert TieAt(ties, n - 1, ties[n - 1].value);
      }
      if key in TiedKeys(ties, n - 1) {
        var i, t :| i < n - 1 && TieAt(ties, i, t) && t.key == key;
        assert i < n;
      }
    }
  }

  lemma {:induction false} TiedFieldHolds(ties: seq<Option<KeyTie>>, n: nat, field: string)
    requires n <= |ties|
    ensures field in TiedFields(ties, n) <==> exists i, t :: i < n && TieAt(ties, i, t) && t.field == field
  {
    if n > 0 {
      TiedFieldHolds(ties, n - 1, field);
      if ties[n - 1].Some? {
        assert TieAt(ties, n - 1, ties[n - 1].value);
      }
      if field in TiedFields(ties, n - 1) {
        var i, t :| i < n - 1 && TieAt(ties, i, t) && t.field == field;
        assert i < n;
      }
    }
  }

  /** What the reader keeps of the first `n` statements. */
  predicate KeepsTies(ties: seq<Option<KeyTie>>, n: nat, r: Reading) {
    n <= |ties| && Defaults(r) == TiedKeys(ties, n) && r.fields == TiedFields(ties, n)
  }

  ghost predicate NewTie(ties: seq<Option<KeyTie>>, n: nat, t: KeyTie) {
    forall j, u :: j < n && TieAt(ties, j, u) ==> t.field != u.field && t.key != u.key
  }

  lemma NewTieIff(ties: seq<Option<KeyTie>>, n: nat, t: KeyTie, r: Reading)
    requires KeepsTies(ties, n, r)
    ensures NewTie(ties, n, t) <==> t.field !in r.fields && t.key !in r.keys
  {
    TiedKeyHolds(ties, n, t.key);
    TiedFieldHolds(ties, n, t.field);
    assert t.key in r.keys <==> t.key in Defaults(r);
  }

  lemma TieIsKept(ties: seq<Option<KeyTie>>, n: nat, t: KeyTie, r: Reading, q: Reading)
    requires KeepsTies(ties, n, r) && TieAt(ties, n, t)
    requires q == Reading(r.keys[t.key := Tie(n, t.field, t.default)], r.fields + {t.field})
    ensures KeepsTies(ties, n + 1, q)
  {
  }

  lemma CallFineMeans(src: Source, body: seq<Stmt>, n: nat)
    requires n < |body|
    ensures CallFine(src, body, n) <==> (
      IsCall(body[n], src.args) ==>
        && src.literal.at < n && TieOf(src, body[n]).Some?
        && NewTie(TiesIn(src, body), n, TieOf(src, body[n]).value))
  {
    forall s, f, k, v {
      TiesMeans(src, s, f, k, v);
    }
    if IsCall(body[n], src.args) && TieOf(src, body[n]).Some? {
      var t := TieOf(src, body[n]).value;
      assert TiesKey(src, body[n], t.field, t.key, t.default);
      FirstTieMeans(src, body, n, t);
    }
  }

  lemma FirstTieMeans(src: Source, body: seq<Stmt>, n: nat, t: KeyTie)
    requires n <= |body|
    ensures FirstTie(src, body, n, t.field, t.key) <==> NewTie(TiesIn(src, body), n, t)
  {
    forall j, f, k, v | 0 <= j < n
      ensures TiesKey(src, body[j], f, k, v) <==> TieAt(TiesIn(src, body), j, KeyTie(f, k, v))
    {
      TiesMeans(src, body[j], f, k, v);
    }
    if FirstTie(src, body, n, t.field, t.key) {
      forall j, u | j < n && TieAt(TiesIn(src, body), j, u) ensures t.field != u.field && t.key != u.key {
        assert TiesKey(src, body[j], u.field, u.key, u.default);
      }
    }
  }

  lemma NextTieRead(src: Source, s: Stmt, r: Reading, n: nat)
    ensures IsCall(s, src.args) ==> (ReadCall(src, s, r, n).Ok? <==>
      && src.literal.at < n && TieOf(src, s).Some?
      && TieOf(src, s).value.field !in r.fields && TieOf(src, s).value.key !in r.keys)
    ensures IsCall(s, src.args) && ReadCall(src, s, r, n).Ok? ==> (
      var t := TieOf(src, s).value;
      ReadCall(src, s, r, n).value ==
        Reading(r.keys[t.key := Tie(n, t.field, t.default)], r.fields + {t.field}))
    ensures !IsCall(s, src.args) ==> ReadCall(src, s, r, n) == Ok(r) && TieOf(src, s).None?
  {
  }

  lemma NextCall(src: Source, body: seq<Stmt>, n: nat, r: Reading, ties: seq<Option<KeyTie>>)
    requires n < |body| && ties == TiesIn(src, body) && KeepsTies(ties, n, r)
    ensures ReadCall(src, body[n], r, n).Ok? <==> CallFine(src, body, n)
    ensures ReadCall(src, body[n], r, n).Ok? ==> KeepsTies(ties, n + 1, ReadCall(src, body[n], r, n).value)
  {
    NextTieRead(src, body[n], r, n);
    CallFineMeans(src, body, n);
    if ties[n].Some? {
      NewTieIff(ties, n, ties[n].value, r);
      if ReadCall(src, body[n], r, n).Ok? {
        TieIsKept(ties, n, ties[n].value, r, ReadCall(src, body[n], r, n).value);
      }
    }
  }

  /** Which beginnings of a body are read, and what is kept of them. */
  lemma {:induction false} CallsAreRead(src: Source, body: seq<Stmt>, n: nat)
    requires n <= |body|
    ensures ReadCalls(src, body, n).Ok? <==> forall i :: 0 <= i < n ==> CallFine(src, body, i)
    ensures ReadCalls(src, body, n).Ok? ==> KeepsTies(TiesIn(src, body), n, ReadCalls(src, body, n).value)
  {
    if n > 0 {
      CallsAreRead(src, body, n - 1);
      if ReadCalls(src, body, n - 1).Ok? {
        NextCall(src, body, n - 1, ReadCalls(src, body, n - 1).value, TiesIn(src, body));
      }
    }
  }

  lemma KeptIsReading(src: Source, body: seq<Stmt>, r: Reading)
    requires KeepsTies(TiesIn(src, body), |body|, r) && forall i :: 0 <= i < |body| ==> CallFine(src, body, i)
    ensures IsReading(src, body, Defaults(r))
  {
    var ties := TiesIn(src, body);
    forall key ensures key in r.keys <==>
      exists i, field, value :: 0 <= i < |body| && TiesKey(src, body[i], field, key, value)
    {
      TiedKeyHolds(ties, |body|, key);
      KeyIsTied(src, body, key);
      assert key in r.keys <==> key in Defaults(r);
    }
    forall i, f, k, v | 0 <= i < |body| && TiesKey(src, body[i], f, k, v) && k in r.keys ensures Defaults(r)[k] == v {
      TiesMeans(src, body[i], f, k, v);
      LastTie(src, body, |body|, i, KeyTie(f, k, v));
    }
  }

  lemma KeyIsTied(src: Source, body: seq<Stmt>, key: string)
    ensures (exists i, t :: i < |body| && TieAt(TiesIn(src, body), i, t) && t.key == key) <==>
      exists i, field, value :: 0 <= i < |body| && TiesKey(src, body[i], field, key, value)
  {
    if i, t :| i < |body| && TieAt(TiesIn(src, body), i, t) && t.key == key {
      TiesMeans(src, body[i], t.field, key, t.default);
    }
    if i, f, v :| 0 <= i < |body| && TiesKey(src, body[i], f, key, v) {
      TiesMeans(src, body[i], f, key, v);
      assert TieAt(TiesIn(src, body), i, KeyTie(f, key, v));
    }
  }

  /** With no key tied twice, the default of a key is that of its tie. */
  lemma {:induction false} LastTie(src: Source, body: seq<Stmt>, n: nat, i: nat, t: KeyTie)
    requires i < n <= |body| && TieAt(TiesIn(src, body), i, t)
    requires forall j :: 0 <= j < |body| ==> CallFine(src, body, j)
    ensures t.key in TiedKeys(TiesIn(src, body), n) && TiedKeys(TiesIn(src, body), n)[t.key] == t.default
  {
    var ties := TiesIn(src, body);
    if i < n - 1 {
      LastTie(src, body, n - 1, i, t);
      if ties[n - 1].Some? {
        TieIsCall(src, body[n - 1]);
        CallFineMeans(src, body, n - 1);
        assert NewTie(ties, n - 1, ties[n - 1].value) && TieAt(ties, i, t);
      }
    }
  }

  lemma SomethingIsRead(src: Source, body: seq<Stmt>, r: Reading)
    requires KeepsTies(TiesIn(src, body), |body|, r) && forall i :: 0 <= i < |body| ==> CallFine(src, body, i)
    ensures r.keys.Keys != {} <==> exists i :: 0 <= i < |body| && Calls(body[i], src.args)
  {
    assert r.keys.Keys == Defaults(r).Keys;
    if i :| 0 <= i < |body| && Calls(body[i], src.args) {
      CallFineMeans(src, body, i);
      var t := TieOf(src, body[i]).value;
      assert TieAt(TiesIn(src, body), i, t);
      TiedKeyHolds(TiesIn(src, body), |body|, t.key);
    }
    if k :| k in r.keys.Keys {
      TiedKeyHolds(TiesIn(src, body), |body|, k);
      var i, t :| i < |body| && TieAt(TiesIn(src, body), i, t) && t.key == k;
      TieIsCall(src, body[i]);
    }
  }

  lemma TieIsCall(src: Source, s: Stmt)
    requires TieOf(src, s).Some?
    ensures Calls(s, src.args)
  {
  }

  /** The reader succeeds exactly for readable bodies, with the reading that the text gives. */
  lemma TextIsRead(src: Source, body: seq<Stmt>)
    ensures Readable(src, body) <==> (
      && NothingHidden(body, src.args) && ReadCalls(src, body, |body|).Ok?
      && ReadCalls(src, body, |body|).value.keys.Keys != {})
    ensures Readable(src, body) ==> IsReading(src, body, Defaults(ReadCalls(src, body, |body|).value))
  {
    NothingHiddenMeans(body, src.args);
    CallsAreRead(src, body, |body|);
    if ReadCalls(src, body, |body|).Ok? {
      KeptIsReading(src, body, ReadCalls(src, body, |body|).value);
      SomethingIsRead(src, body, ReadCalls(src, body, |body|).value);
    }
  }

  method ReadOwnCalls(src: Source, body: seq<Stmt>) returns (result: Result<map<string, bool>, Error>, recognized: nat)
    ensures ReadCalls(src, body, |body|).Ok? ==>
      result == Ok(Defaults(ReadCalls(src, body, |body|).value)) && recognized == OwnCalls(body, |body|, src.args)
    ensures ReadCalls(src, body, |body|).Err? ==> result == Err(ReadCalls(src, body, |body|).error)
  {
    recognized := 0;
    var seenFields: set<string>, defaults: map<string, bool> := {}, map[];
    for i := 0 to |body|
      invariant ReadCalls(src, body, i).Ok?
      invariant seenFields == ReadCalls(src, body, i).value.fields
        && defaults == Defaults(ReadCalls(src, body, i).value)
      invariant recognized == OwnCalls(body, i, src.args)
    {
      var s := body[i];
      if !s.Expression? || !s.e.GetBool? || s.e.receiver != src.args {
        continue;
      }
      if ReadCalls(src, body, i + 1).Err? {
        CallErrorStays(src, body, i + 1);
      }
      if i <= src.literal.at {
        return Err(EarlyCall), recognized;
      }
      var association := Association(s, src.args, src.literal.name, src.boolFields);
      if association.None? {
        return Err(BadCall), recognized;
      }
      var (field, constant) := association.value;
      if field !in src.literal.defaults {
        return Err(NoDefault), recognized;
      }
      if constant !in src.constants || src.constants[constant] == "" {
        return Err(BadKey), recognized;
      }
      if field in seenFields {
        return Err(FieldTwice), recognized;
      }
      if src.constants[constant] in defaults {
        return Err(KeyTwice), recognized;
      }
      seenFields := seenFields + {field};
      defaults := defaults[src.constants[constant] := src.literal.defaults[field]];
      recognized := recognized + 1;
    }
    return Ok(defaults), recognized;
  }

  method CountCalls(body: seq<Stmt>, args: string) returns (count: nat)
    ensures count >= OwnCalls(body, |body|, args)
    ensures count == OwnCalls(body, |body|, args) <==> NothingHidden(body, args)
  {
    count := 0;
    for i := 0 to |body|
      invariant count == BodyCalls(body[..i], args)
    {
      assert body[..i + 1][..i] == body[..i];
      count := count + StmtCalls(body[i], args);
    }
    assert body[..|body|] == body;
    CountsMatchIffNothingHidden(body, |body|, args);
  }

  /** Every call is accounted for, and each key gets the default of the field that its one call sets. */
  method PredicateGetBoolDefaults(src: Source, body: seq<Stmt>) returns (result: Result<map<string, bool>, Error>)
    ensures result.Ok? <==>
      NothingHidden(body, src.args) && ReadCalls(src, body, |body|).Ok?
        && ReadCalls(src, body, |body|).value.keys.Keys != {}
    ensures result.Ok? ==> result.value == Defaults(ReadCalls(src, body, |body|).value)
    ensures result.Ok? <==> Readable(src, body)
    ensures result.Ok? ==> IsReading(src, body, result.value)
  {
    TextIsRead(src, body);
    var allCalls := CountCalls(body, src.args);
    var read, recognized := ReadOwnCalls(src, body);
    if read.Err? {
      return read;
    }
    assert read.value.Keys == ReadCalls(src, body, |body|).value.keys.Keys;
    if allCalls != recognized {
      return Err(UnsupportedCall);
    }
    if |read.value| == 0 {
      assert read.value.Keys == {};
      return Err(NoDefaults);
    }
    assert read.value.Keys != {};
    return read;
  }

  // ---- Running the source ---------------------------------------------------

  /** A configured argument; `GetBool` writes its target for a boolean and leaves it alone otherwise. */
  datatype Argument = Bool(value: bool) | NotBool

  type Arguments = map<string, Argument>

  function GetBoolValue(arguments: Arguments, key: string, current: bool): bool {
    if key in arguments && arguments[key].Bool? then arguments[key].value else current
  }

  predicate CallsField(src: Source, s: Stmt, field: string) {
    Association(s, src.args, src.literal.name, src.boolFields).Some? && CallField(src, s) == field
  }

  function NamesOf(src: Source, field: string): Names {
    Names(src.literal.name, field, src.args)
  }

  /** Only the parameter is known on entry. */
  function Entry(src: Source): Frame {
    Frame(false, true, {}, {src.args}, Through, None)
  }

  /** From its literal on, the variable's name stands for the struct that is followed. */
  function Begin(src: Source, field: string, m: Frame, s: Stmt, script: Script): Frame
    requires AssignsLiteral(s)
  {
    var name := src.literal.name;
    m.(value := GetOr(LiteralField(s.rhs[0].elements, field), Chosen(script.values, 0)),
       intact := m.intact && name != src.args,
       hidden := m.hidden - {name},
       local := if Defines(s.op) then m.local + {name} else m.local)
  }

  /** The one call that may set the field; if the parameter is not the caller's any more, its answer is unknown. */
  function Ask(src: Source, field: string, arguments: Arguments, m: Frame, s: Stmt, script: Script): Frame {
    if !CallsField(src, s, field) || src.literal.name in m.hidden then m
    else if m.intact then m.(value := GetBoolValue(arguments, KeyOf(src, s), m.value))
    else m.(value := Chosen(script.values, 0))
  }

  /** A statement of the function body itself. */
  function ExecTop(src: Source, field: string, arguments: Arguments, m: Frame, s: Stmt, script: Script): Frame {
    if m.exit != Through then m
    else if AssignsLiteral(s) && s.lhs[0] == Ident(src.literal.name) then Begin(src, field, m, s, script)
    else if IsCall(s, src.args) then Ask(src, field, arguments, m, s, script)
    else Exec(NamesOf(src, field), m, s, script)
  }

  function RunTop(
    src: Source, field: string, arguments: Arguments, m: Frame, body: seq<Stmt>, scripts: seq<Script>): Frame
    decreases |body|
  {
    if body == [] then m
    else RunTop(src, field, arguments, ExecTop(src, field, arguments, m, body[0], Head(scripts)), body[1..],
      Tail(scripts))
  }

  /** The field of the struct that the function returns. */
  function Returned(src: Source, field: string, arguments: Arguments, body: seq<Stmt>, scripts: seq<Script>): bool {
    Final(RunTop(src, field, arguments, Entry(src), body, scripts))
  }

  lemma {:induction false} StoppedTop(
    src: Source, field: string, arguments: Arguments, m: Frame, body: seq<Stmt>, scripts: seq<Script>)
    requires m.exit != Through
    ensures RunTop(src, field, arguments, m, body, scripts) == m
    decreases |body|
  {
    if body != [] {
      StoppedTop(src, field, arguments, m, body[1..], Tail(scripts));
    }
  }

  lemma {:induction false} TopSplits(
    src: Source, field: string, arguments: Arguments, m: Frame, a: seq<Stmt>, b: seq<Stmt>, scripts: seq<Script>)
    ensures RunTop(src, field, arguments, m, a + b, scripts) ==
      RunTop(src, field, arguments, RunTop(src, field, arguments, m, a, scripts), b, Drop(scripts, |a|))
    decreases |a|
  {
    if a == [] {
      assert a + b == b;
    } else {
      assert (a + b)[1..] == a[1..] + b;
      TopSplits(src, field, arguments, ExecTop(src, field, arguments, m, a[0], Head(scripts)), a[1..], b,
        Tail(scripts));
    }
  }

  /** Statements among which there is neither the literal nor a call that sets the field. */
  predicate Ordinary(src: Source, field: string, body: seq<Stmt>) {
    forall k :: 0 <= k < |body| ==> !AssignsLiteral(body[k]) && !CallsField(src, body[k], field)
  }

  lemma {:induction false} OrdinaryRun(
    src: Source, field: string, arguments: Arguments, m: Frame, body: seq<Stmt>, scripts: seq<Script>)
    requires Ordinary(src, field, body)
    ensures RunTop(src, field, arguments, m, body, scripts) == Run(NamesOf(src, field), m, body, scripts)
    decreases |body|
  {
    if body != [] {
      OrdinaryRun(src, field, arguments, ExecTop(src, field, arguments, m, body[0], Head(scripts)), body[1..],
        Tail(scripts));
    }
  }

  // ---- The parameter up to the call -----------------------------------------

  lemma ExecTopOnParameter(src: Source, field: string, arguments: Arguments, m: Frame, s: Stmt, script: Script)
    requires m.exit == Through && SeesParameter(NamesOf(src, field), m, Var(src.args), true)
    ensures ParameterAgrees(NamesOf(src, field), m, ExecTop(src, field, arguments, m, s, script),
                            WatchStmt(Var(src.args), true, s, script), Var(src.args), true)
  {
    var t := Var(src.args);
    if AssignsLiteral(s) && s.lhs[0] == Ident(src.literal.name) {
      assert LastHit(t, s, 1).Some? <==> src.literal.name == src.args;
    } else if !IsCall(s, src.args) {
      ExecOnParameter(NamesOf(src, field), m, s, script, t, true);
    }
  }

  lemma {:induction false} TopOnParameter(
    src: Source, field: string, arguments: Arguments, m: Frame, body: seq<Stmt>, scripts: seq<Script>)
    requires m.exit == Through && SeesParameter(NamesOf(src, field), m, Var(src.args), true)
    ensures ParameterAgrees(NamesOf(src, field), m, RunTop(src, field, arguments, m, body, scripts),
                            Watch(Var(src.args), true, body, scripts), Var(src.args), true)
    decreases |body|
  {
    if body != [] {
      var next := ExecTop(src, field, arguments, m, body[0], Head(scripts));
      ExecTopOnParameter(src, field, arguments, m, body[0], Head(scripts));
      if next.exit == Through {
        TopOnParameter(src, field, arguments, next, body[1..], Tail(scripts));
      } else {
        StoppedTop(src, field, arguments, next, body[1..], Tail(scripts));
      }
    }
  }

  // ---- What the reader knows ------------------------------------------------

  lemma {:induction false} LiteralGivesDefault(elements: seq<Element>, boolFields: set<string>, field: string)
    requires ReadElements(elements, boolFields).Ok? && field in ReadElements(elements, boolFields).value
    ensures field in boolFields
      && LiteralField(elements, field) == Some(ReadElements(elements, boolFields).value[field])
  {
    var before := ReadElements(elements[..|elements| - 1], boolFields);
    if field in before.value {
      LiteralGivesDefault(elements[..|elements| - 1], boolFields, field);
    }
  }

  predicate WasRead(src: Source, body: seq<Stmt>) {
    && IsLiteralDefaults(body, src.boolFields, src.literal)
    && ReadCalls(src, body, |body|).Ok? && NothingHidden(body, src.args)
  }

  /** The literal, the one call on the field after it, and nothing of either kind elsewhere. */
  predicate OneCall(src: Source, body: seq<Stmt>, t: Tie, key: string) {
    && src.literal.at < t.at < |body|
    && AssignsLiteral(body[src.literal.at]) && body[src.literal.at].lhs[0] == Ident(src.literal.name)
    && LiteralField(body[src.literal.at].rhs[0].elements, t.field) == Some(t.default)
    && IsCall(body[t.at], src.args) && CallsField(src, body[t.at], t.field) && KeyOf(src, body[t.at]) == key
    && Ordinary(src, t.field, body[..src.literal.at])
    && Ordinary(src, t.field, body[src.literal.at + 1..t.at])
    && Ordinary(src, t.field, body[t.at + 1..])
  }

  lemma ReadKeyHasOneCall(src: Source, body: seq<Stmt>, key: string)
    requires WasRead(src, body) && key in ReadCalls(src, body, |body|).value.keys
    ensures OneCall(src, body, ReadCalls(src, body, |body|).value.keys[key], key)
  {
    ReadKeysAreTied(src, body, |body|);
    var r := ReadCalls(src, body, |body|).value;
    var t := r.keys[key];
    LiteralGivesDefault(body[src.literal.at].rhs[0].elements, src.boolFields, t.field);
    forall k | 0 <= k < |body| && CallsField(src, body[k], t.field) ensures k == t.at {
      assert IsCall(body[k], src.args);
      assert TiedTo(src, body, r.keys[KeyOf(src, body[k])], KeyOf(src, body[k]), |body|);
    }
  }

  // ---- The run, part by part -------------------------------------------------

  lemma RunParts(src: Source, field: string, arguments: Arguments, body: seq<Stmt>, scripts: seq<Script>, j: nat)
    requires j < |body|
    ensures var before := RunTop(src, field, arguments, Entry(src), body[..j], scripts);
      var next := ExecTop(src, field, arguments, before, body[j], Head(Drop(scripts, j)));
      RunTop(src, field, arguments, Entry(src), body, scripts) ==
        RunTop(src, field, arguments, next, body[j + 1..], Drop(scripts, j + 1))
  {
    assert body == body[..j] + body[j..] && body[j..][0] == body[j] && body[j..][1..] == body[j + 1..];
    TopSplits(src, field, arguments, Entry(src), body[..j], body[j..], scripts);
    DropNext(scripts, j);
  }

  /** The variable's name belongs to the body itself. */
  predicate Here(src: Source, body: seq<Stmt>)
    requires src.literal.at < |body|
  {
    || src.literal.name == src.args
    || exists k :: 0 <= k <= src.literal.at && Declares(body[k], src.literal.name)
  }

  /** Where the run stands after the literal. */
  lemma AfterLiteral(src: Source, body: seq<Stmt>, t: Tie, key: string, arguments: Arguments, scripts: seq<Script>)
    requires OneCall(src, body, t, key)
    requires var before := RunTop(src, t.field, arguments, Entry(src), body[..src.literal.at], scripts);
      before.exit == Through
    ensures var before := RunTop(src, t.field, arguments, Entry(src), body[..src.literal.at], scripts);
      var m := ExecTop(src, t.field, arguments, before, body[src.literal.at], Head(Drop(scripts, src.literal.at)));
      Ready(m) && m.value == t.default
        && SeesField(NamesOf(src, t.field), m, FieldOf(NamesOf(src, t.field)), Here(src, body))
  {
    var n, pre := NamesOf(src, t.field), body[..src.literal.at];
    OrdinaryRun(src, t.field, arguments, Entry(src), pre, scripts);
    RunOnField(n, Entry(src), pre, scripts, FieldOf(n), src.literal.name in Entry(src).local);
    RunLocals(n, Entry(src), pre, scripts, src.literal.name);
    assert Declares(body[src.literal.at], src.literal.name) <==> Defines(body[src.literal.at].op) by {
      assert body[src.literal.at].lhs[0] in body[src.literal.at].lhs;
    }
    assert forall k :: 0 <= k < src.literal.at ==> pre[k] == body[k];
  }

  /** Control always reaches the call, with the parameter as the caller passed it. */
  predicate ReachesCall(src: Source, body: seq<Stmt>, call: nat)
    requires call <= |body|
  {
    forall o <- Outcomes(Var(src.args), true, body[..call]) :: o == KEEP
  }

  /** What is followed between the literal and the call, and after it. */
  function Between(src: Source, body: seq<Stmt>, call: nat): seq<Stmt>
    requires src.literal.at < call <= |body|
  {
    body[src.literal.at + 1..call]
  }

  function AtCall(src: Source, body: seq<Stmt>, t: Tie): Target
    requires src.literal.at < t.at <= |body|
  {
    After(Part(src.literal.name, t.field), Here(src, body), Between(src, body, t.at))
  }

  lemma EntryReady(src: Source, field: string)
    ensures Ready(Entry(src)) && SeesParameter(NamesOf(src, field), Entry(src), Var(src.args), true)
  {
  }

  /** Where the run stands at the call. */
  lemma ArriveAtCall(src: Source, body: seq<Stmt>, t: Tie, key: string, arguments: Arguments, scripts: seq<Script>)
    requires OneCall(src, body, t, key) && ReachesCall(src, body, t.at)
    ensures var m := RunTop(src, t.field, arguments, Entry(src), body[..t.at], scripts);
      var o := Watch(Part(src.literal.name, t.field), Here(src, body), Between(src, body, t.at),
        Drop(scripts, src.literal.at + 1));
      && Ready(m) && m.intact && m.value == GetOr(o.last, t.default)
      && SeesField(NamesOf(src, t.field), m, AtCall(src, body, t), Here(src, body))
  {
    var n, L := NamesOf(src, t.field), src.literal.at;
    var m := RunTop(src, t.field, arguments, Entry(src), body[..t.at], scripts);
    EntryReady(src, t.field);
    TopOnParameter(src, t.field, arguments, Entry(src), body[..t.at], scripts);
    WatchIsAnOutcome(Var(src.args), true, body[..t.at], scripts);
    assert m.exit == Through && m.intact;
    var before := RunTop(src, t.field, arguments, Entry(src), body[..L], scripts);
    var next := ExecTop(src, t.field, arguments, before, body[L], Head(Drop(scripts, L)));
    assert body[..t.at][..L] == body[..L] && body[..t.at][L + 1..] == Between(src, body, t.at);
    RunParts(src, t.field, arguments, body[..t.at], scripts, L);
    ExitStays(src, t.field, arguments, before, body[..t.at], L, scripts);
    AfterLiteral(src, body, t, key, arguments, scripts);
    OrdinaryRun(src, t.field, arguments, next, Between(src, body, t.at), Drop(scripts, L + 1));
    RunOnField(n, next, Between(src, body, t.at), Drop(scripts, L + 1), FieldOf(n), Here(src, body));
  }

  /** A run that went through went through its beginning. */
  lemma ExitStays(
    src: Source, field: string, arguments: Arguments, before: Frame, body: seq<Stmt>, j: nat, scripts: seq<Script>)
    requires j <= |body| && before == RunTop(src, field, arguments, Entry(src), body[..j], scripts)
    requires RunTop(src, field, arguments, Entry(src), body, scripts).exit == Through
    ensures before.exit == Through
  {
    assert body == body[..j] + body[j..];
    TopSplits(src, field, arguments, Entry(src), body[..j], body[j..], scripts);
    if before.exit != Through {
      StoppedTop(src, field, arguments, before, body[j..], Drop(scripts, j));
    }
  }

  /** The call and what follows it, for a run that stands at the call. */
  lemma AnswerOfRun(
    src: Source, body: seq<Stmt>, t: Tie, key: string, arguments: Arguments, m: Frame, script: Script,
    scripts: seq<Script>)
    requires OneCall(src, body, t, key) && Ready(m) && m.intact
    requires SeesField(NamesOf(src, t.field), m, AtCall(src, body, t), Here(src, body))
    ensures var next := ExecTop(src, t.field, arguments, m, body[t.at], script);
      var b := Watch(AtCall(src, body, t), Here(src, body), body[t.at + 1..], scripts);
      Final(RunTop(src, t.field, arguments, next, body[t.at + 1..], scripts)) == GetOr(b.last,
        if AtCall(src, body, t) == Part(src.literal.name, t.field) then GetBoolValue(arguments, key, m.value)
        else m.value)
  {
    var next, post := ExecTop(src, t.field, arguments, m, body[t.at], script), body[t.at + 1..];
    assert !AssignsLiteral(body[t.at]);
    assert next == Ask(src, t.field, arguments, m, body[t.at], script);
    OrdinaryRun(src, t.field, arguments, next, post, scripts);
    RunOnField(NamesOf(src, t.field), next, post, scripts, AtCall(src, body, t), Here(src, body));
  }

  /** The whole run, for which this is where it stands at the call. */
  lemma ReturnedFromCall(
    src: Source, body: seq<Stmt>, t: Tie, key: string, arguments: Arguments, m: Frame, scripts: seq<Script>)
    requires OneCall(src, body, t, key) && Ready(m) && m.intact
    requires m == RunTop(src, t.field, arguments, Entry(src), body[..t.at], scripts)
    requires SeesField(NamesOf(src, t.field), m, AtCall(src, body, t), Here(src, body))
    ensures var b := Watch(AtCall(src, body, t), Here(src, body), body[t.at + 1..], Drop(scripts, t.at + 1));
      Returned(src, t.field, arguments, body, scripts) == GetOr(b.last,
        if AtCall(src, body, t) == Part(src.literal.name, t.field) then GetBoolValue(arguments, key, m.value)
        else m.value)
  {
    RunParts(src, t.field, arguments, body, scripts, t.at);
    AnswerOfRun(src, body, t, key, arguments, m, Head(Drop(scripts, t.at)), Drop(scripts, t.at + 1));
  }

  /** The result of a run that always reaches the call. */
  lemma ResultOfRun(src: Source, body: seq<Stmt>, t: Tie, key: string, arguments: Arguments, scripts: seq<Script>)
    requires OneCall(src, body, t, key) && ReachesCall(src, body, t.at)
    ensures var target, here := Part(src.literal.name, t.field), Here(src, body);
      var a := Watch(target, here, Between(src, body, t.at), Drop(scripts, src.literal.at + 1));
      var b := Watch(AtCall(src, body, t), here, body[t.at + 1..], Drop(scripts, t.at + 1));
      var atCall := GetOr(a.last, t.default);
      && a in Outcomes(target, here, Between(src, body, t.at))
      && b in Outcomes(AtCall(src, body, t), here, body[t.at + 1..])
      && Returned(src, t.field, arguments, body, scripts) ==
        GetOr(b.last, if AtCall(src, body, t) == target then GetBoolValue(arguments, key, atCall) else atCall)
  {
    var here := Here(src, body);
    var m := RunTop(src, t.field, arguments, Entry(src), body[..t.at], scripts);
    ArriveAtCall(src, body, t, key, arguments, scripts);
    ReturnedFromCall(src, body, t, key, arguments, m, scripts);
    WatchIsAnOutcome(AtCall(src, body, t), here, body[t.at + 1..], Drop(scripts, t.at + 1));
    WatchIsAnOutcome(
      Part(src.literal.name, t.field), here, Between(src, body, t.at), Drop(scripts, src.literal.at + 1));
  }

  // ---- Soundness ------------------------------------------------------------

  /** A missing key leaves the default and a boolean key wins, whatever conditions, loop counts and unknown values. */
  ghost predicate Sound(src: Source, body: seq<Stmt>, field: string, key: string, default: bool) {
    forall arguments: Arguments, scripts: seq<Script> ::
      Returned(src, field, arguments, body, scripts) == GetBoolValue(arguments, key, default)
  }

  /** Up to the call the field still has its default. */
  predicate KeepsDefault(src: Source, body: seq<Stmt>, t: Tie)
    requires src.literal.at < t.at < |body|
  {
    forall o <- Outcomes(Part(src.literal.name, t.field), Here(src, body), Between(src, body, t.at)) ::
      o.last.None? || o.last == Some(t.default)
  }

  /** After the call nothing writes the field, and nothing else is returned. */
  predicate KeepsAnswer(src: Source, body: seq<Stmt>, t: Tie)
    requires src.literal.at < t.at < |body|
  {
    forall o <- Outcomes(AtCall(src, body, t), Here(src, body), body[t.at + 1..]) :: o.last.None?
  }

  /** What to look for in the source, at every depth. */
  predicate Stable(src: Source, body: seq<Stmt>, t: Tie) {
    && src.literal.at < t.at < |body|
    && ReachesCall(src, body, t.at) && AtCall(src, body, t) == Part(src.literal.name, t.field)
    && KeepsDefault(src, body, t) && KeepsAnswer(src, body, t)
  }

  /** A result that the arguments cannot change is not the promised one. */
  lemma DeafIsUnsound(src: Source, body: seq<Stmt>, field: string, key: string, default: bool, scripts: seq<Script>)
    requires forall a: Arguments, b: Arguments ::
      Returned(src, field, a, body, scripts) == Returned(src, field, b, body, scripts)
    ensures !Sound(src, body, field, key, default)
  {
    var arguments: Arguments := map[key := Bool(!Returned(src, field, map[], body, scripts))];
    assert Returned(src, field, arguments, body, scripts) != GetBoolValue(arguments, key, default);
  }

  lemma {:induction false} IgnoresArguments(
    src: Source, field: string, a: Arguments, b: Arguments, m: Frame, body: seq<Stmt>, scripts: seq<Script>)
    requires forall k :: 0 <= k < |body| ==> !CallsField(src, body[k], field)
    ensures RunTop(src, field, a, m, body, scripts) == RunTop(src, field, b, m, body, scripts)
    decreases |body|
  {
    if body != [] {
      IgnoresArguments(src, field, a, b, ExecTop(src, field, a, m, body[0], Head(scripts)), body[1..], Tail(scripts));
    }
  }

  lemma NoCallBefore(src: Source, body: seq<Stmt>, t: Tie, key: string)
    requires OneCall(src, body, t, key)
    ensures forall k :: 0 <= k < t.at ==> !CallsField(src, body[..t.at][k], t.field)
  {
    forall k | 0 <= k < t.at ensures !CallsField(src, body[k], t.field) {
      if k < src.literal.at {
        assert body[..src.literal.at][k] == body[k];
      } else if k > src.literal.at {
        assert Between(src, body, t.at)[k - src.literal.at - 1] == body[k];
      }
    }
  }

  lemma ReachingIsNeeded(src: Source, body: seq<Stmt>, t: Tie, key: string)
    requires OneCall(src, body, t, key) && !ReachesCall(src, body, t.at)
    ensures !Sound(src, body, t.field, key, t.default)
  {
    var pre := body[..t.at];
    var o :| o in Outcomes(Var(src.args), true, pre) && o != KEEP;
    var scripts := Reach(Var(src.args), true, pre, o);
    NoCallBefore(src, body, t, key);
    forall a: Arguments, b: Arguments
      ensures Returned(src, t.field, a, body, scripts) == Returned(src, t.field, b, body, scripts)
    {
      DeafRun(src, body, t, key, o, scripts, a, b);
    }
    DeafIsUnsound(src, body, t.field, key, t.default, scripts);
  }

  lemma DeafRun(
    src: Source, body: seq<Stmt>, t: Tie, key: string, o: Outcome, scripts: seq<Script>, a: Arguments, b: Arguments)
    requires OneCall(src, body, t, key) && o == Watch(Var(src.args), true, body[..t.at], scripts) && o != KEEP
    ensures Returned(src, t.field, a, body, scripts) == Returned(src, t.field, b, body, scripts)
  {
    EntryReady(src, t.field);
    NoCallBefore(src, body, t, key);
    TopOnParameter(src, t.field, a, Entry(src), body[..t.at], scripts);
    IgnoresArguments(src, t.field, a, b, Entry(src), body[..t.at], scripts);
    RunParts(src, t.field, a, body, scripts, t.at);
    RunParts(src, t.field, b, body, scripts, t.at);
    var m := RunTop(src, t.field, a, Entry(src), body[..t.at], scripts);
    assert !AssignsLiteral(body[t.at]);
    assert ExecTop(src, t.field, a, m, body[t.at], Head(Drop(scripts, t.at)))
      == ExecTop(src, t.field, b, m, body[t.at], Head(Drop(scripts, t.at)));
    IgnoresArguments(src, t.field, a, b, ExecTop(src, t.field, a, m, body[t.at], Head(Drop(scripts, t.at))),
      body[t.at + 1..], Drop(scripts, t.at + 1));
  }

  lemma SeeingIsNeeded(src: Source, body: seq<Stmt>, t: Tie, key: string)
    requires OneCall(src, body, t, key) && ReachesCall(src, body, t.at)
    requires AtCall(src, body, t) != Part(src.literal.name, t.field)
    ensures !Sound(src, body, t.field, key, t.default)
  {
    forall a: Arguments, b: Arguments
      ensures Returned(src, t.field, a, body, []) == Returned(src, t.field, b, body, [])
    {
      ResultOfRun(src, body, t, key, a, []);
      ResultOfRun(src, body, t, key, b, []);
    }
    DeafIsUnsound(src, body, t.field, key, t.default, []);
  }

  lemma KeepingAnswerIsNeeded(src: Source, body: seq<Stmt>, t: Tie, key: string)
    requires OneCall(src, body, t, key) && ReachesCall(src, body, t.at) && !KeepsAnswer(src, body, t)
    ensures !Sound(src, body, t.field, key, t.default)
  {
    var o :| o in Outcomes(AtCall(src, body, t), Here(src, body), body[t.at + 1..]) && o.last.Some?;
    var later := Reach(AtCall(src, body, t), Here(src, body), body[t.at + 1..], o);
    var scripts := Idle(t.at) + ([IDLE] + later);
    DropIdle(t.at, IDLE, later);
    forall a: Arguments, b: Arguments
      ensures Returned(src, t.field, a, body, scripts) == Returned(src, t.field, b, body, scripts)
    {
      ResultOfRun(src, body, t, key, a, scripts);
      ResultOfRun(src, body, t, key, b, scripts);
    }
    DeafIsUnsound(src, body, t.field, key, t.default, scripts);
  }

  lemma KeepingDefaultIsNeeded(src: Source, body: seq<Stmt>, t: Tie, key: string)
    requires OneCall(src, body, t, key) && ReachesCall(src, body, t.at) && KeepsAnswer(src, body, t)
      && !KeepsDefault(src, body, t)
    ensures !Sound(src, body, t.field, key, t.default)
  {
    var target, here := Part(src.literal.name, t.field), Here(src, body);
    var o :| o in Outcomes(target, here, Between(src, body, t.at)) && o.last.Some? && o.last != Some(t.default);
    var later := Reach(target, here, Between(src, body, t.at), o);
    var scripts, arguments: Arguments := Idle(src.literal.at) + ([IDLE] + later), map[];
    DropIdle(src.literal.at, IDLE, later);
    ResultOfRun(src, body, t, key, arguments, scripts);
    assert Returned(src, t.field, arguments, body, scripts) != GetBoolValue(arguments, key, t.default);
  }

  lemma OneCallSoundIffStable(src: Source, body: seq<Stmt>, t: Tie, key: string)
    requires OneCall(src, body, t, key)
    ensures Sound(src, body, t.field, key, t.default) <==> Stable(src, body, t)
  {
    if !ReachesCall(src, body, t.at) {
      ReachingIsNeeded(src, body, t, key);
    } else if AtCall(src, body, t) != Part(src.literal.name, t.field) {
      SeeingIsNeeded(src, body, t, key);
    } else if !KeepsAnswer(src, body, t) {
      KeepingAnswerIsNeeded(src, body, t, key);
    } else if !KeepsDefault(src, body, t) {
      KeepingDefaultIsNeeded(src, body, t, key);
    } else {
      StableIsSound(src, body, t, key);
    }
  }

  lemma KeptByOutcome(src: Source, body: seq<Stmt>, t: Tie, a: Outcome, b: Outcome)
    requires Stable(src, body, t)
    requires a in Outcomes(Part(src.literal.name, t.field), Here(src, body), Between(src, body, t.at))
    requires b in Outcomes(AtCall(src, body, t), Here(src, body), body[t.at + 1..])
    ensures GetOr(a.last, t.default) == t.default && b.last.None?
    ensures AtCall(src, body, t) == Part(src.literal.name, t.field) && ReachesCall(src, body, t.at)
  {
  }

  lemma StableRun(src: Source, body: seq<Stmt>, t: Tie, key: string, arguments: Arguments, scripts: seq<Script>)
    requires OneCall(src, body, t, key) && ReachesCall(src, body, t.at)
    requires forall a, b |
      && a in Outcomes(Part(src.literal.name, t.field), Here(src, body), Between(src, body, t.at))
      && b in Outcomes(AtCall(src, body, t), Here(src, body), body[t.at + 1..]) ::
      GetOr(a.last, t.default) == t.default && b.last.None?
    requires AtCall(src, body, t) == Part(src.literal.name, t.field)
    ensures Returned(src, t.field, arguments, body, scripts) == GetBoolValue(arguments, key, t.default)
  {
    ResultOfRun(src, body, t, key, arguments, scripts);
  }

  lemma StableIsSound(src: Source, body: seq<Stmt>, t: Tie, key: string)
    requires OneCall(src, body, t, key) && Stable(src, body, t)
    ensures Sound(src, body, t.field, key, t.default)
  {
    forall a, b |
      && a in Outcomes(Part(src.literal.name, t.field), Here(src, body), Between(src, body, t.at))
      && b in Outcomes(AtCall(src, body, t), Here(src, body), body[t.at + 1..])
      ensures GetOr(a.last, t.default) == t.default && b.last.None?
    {
      KeptByOutcome(src, body, t, a, b);
    }
    forall arguments: Arguments, scripts: seq<Script>
      ensures Returned(src, t.field, arguments, body, scripts) == GetBoolValue(arguments, key, t.default)
    {
      StableRun(src, body, t, key, arguments, scripts);
    }
  }

  /** The default read for a key is what the plugin will use exactly when the source is stable for its field. */
  lemma SoundIffStable(src: Source, body: seq<Stmt>, key: string)
    requires WasRead(src, body) && key in ReadCalls(src, body, |body|).value.keys
    ensures var t := ReadCalls(src, body, |body|).value.keys[key];
      Sound(src, body, t.field, key, t.default) <==> Stable(src, body, t)
  {
    ReadKeyHasOneCall(src, body, key);
    OneCallSoundIffStable(src, body, ReadCalls(src, body, |body|).value.keys[key], key);
  }

  // ---- Sources that are stable, and some that are not ------------------------

  /**
   The shape the plugin's own source has: apart from the literal and the final
   return, no statement touches the struct or the parameter at any depth, and
   none leaves the function.
   */
  predicate WrittenOnce(src: Source, body: seq<Stmt>, field: string) {
    && src.literal.name != src.args && body != []
    && body[|body| - 1] == Leave(Returns, [Ident(src.literal.name)])
    && forall k :: 0 <= k < |body| - 1 ==>
      && (Touches(Part(src.literal.name, field), body[k]) ==> k == src.literal.at)
      && !Touches(Var(src.args), body[k])
  }

  lemma WrittenOnceIsSound(src: Source, body: seq<Stmt>, key: string)
    requires WasRead(src, body) && key in ReadCalls(src, body, |body|).value.keys
    requires WrittenOnce(src, body, ReadCalls(src, body, |body|).value.keys[key].field)
    ensures var r := ReadCalls(src, body, |body|).value;
      Sound(src, body, r.keys[key].field, key, Defaults(r)[key])
  {
    var t := ReadCalls(src, body, |body|).value.keys[key];
    ReadKeyHasOneCall(src, body, key);
    WrittenOnceIsStable(src, body, t, key);
    StableIsSound(src, body, t, key);
  }

  lemma WrittenOnceIsStable(src: Source, body: seq<Stmt>, t: Tie, key: string)
    requires OneCall(src, body, t, key) && WrittenOnce(src, body, t.field)
    ensures Stable(src, body, t)
  {
    assert t.at < |body| - 1;
    QuietPart(src, body, Part(src.literal.name, t.field), Here(src, body), src.literal.at + 1, t.at);
    PrefixReaches(src, body, t, key);
    QuietEnd(src, body, t.field, t.at + 1);
  }

  lemma QuietPart(src: Source, body: seq<Stmt>, t: Target, here: bool, lo: nat, hi: nat)
    requires lo <= hi <= |body| && forall k :: lo <= k < hi ==> !Touches(t, body[k])
    ensures Quiet(Outcomes(t, here, body[lo..hi]), SomeLeaves(body[lo..hi])) && After(t, here, body[lo..hi]) == t
  {
    var part := body[lo..hi];
    SomeTouchesHolds(t, part);
    NothingTouched(t, here, part);
    UntouchedStays(t, here, part);
  }

  lemma {:induction false} UntouchedStays(t: Target, here: bool, stmts: seq<Stmt>)
    requires forall k :: 0 <= k < |stmts| ==> !Touches(t, stmts[k])
    ensures After(t, here, stmts) == t
    decreases |stmts|
  {
    if stmts != [] {
      UntouchedNext(t, here, stmts[0]);
      UntouchedStays(t, here, stmts[1..]);
    }
  }

  lemma UntouchedNext(t: Target, here: bool, s: Stmt)
    requires !Touches(t, s)
    ensures Next(t, here, s) == t
  {
    if s.Assignment? {
      assert forall i :: 0 <= i < |s.lhs| ==> !Hits(t, s.op, s.lhs[i]);
    }
  }

  /** Nothing that leaves the struct alone leaves the function. */
  lemma {:induction false} UntouchedIsThrough(t: Target, s: Stmt)
    requires t.Part? && !Touches(t, s)
    ensures !Leaves(s)
    decreases s, 0
  {
    match s {
      case If(init, _, body, _, otherwise) =>
        AllThrough(t, init);
        AllThrough(t, body);
        AllThrough(t, otherwise);
      case Block(body) =>
        AllThrough(t, body);
      case Loop(_, body) =>
        AllThrough(t, body);
      case _ =>
    }
  }

  lemma {:induction false} AllThrough(t: Target, stmts: seq<Stmt>)
    requires t.Part? && !SomeTouches(t, stmts)
    ensures !SomeLeaves(stmts)
    decreases stmts, 0
  {
    if stmts != [] {
      UntouchedIsThrough(t, stmts[0]);
      AllThrough(t, stmts[1..]);
    }
  }

  lemma PrefixReaches(src: Source, body: seq<Stmt>, t: Tie, key: string)
    requires OneCall(src, body, t, key) && WrittenOnce(src, body, t.field) && t.at < |body| - 1
    ensures ReachesCall(src, body, t.at)
  {
    var pre := body[..t.at];
    assert pre == body[0..t.at];
    QuietPart(src, body, Var(src.args), true, 0, t.at);
    SomeLeavesHolds(pre);
    forall k | 0 <= k < |pre| ensures !Leaves(pre[k]) {
      if k != src.literal.at {
        UntouchedIsThrough(Part(src.literal.name, t.field), pre[k]);
      }
    }
  }

  lemma QuietEnd(src: Source, body: seq<Stmt>, field: string, lo: nat)
    requires src.literal.at < lo < |body| && WrittenOnce(src, body, field)
    ensures forall o <- Outcomes(Part(src.literal.name, field), Here(src, body), body[lo..]) :: o.last.None?
  {
    var t, here := Part(src.literal.name, field), Here(src, body);
    QuietBeforeReturn(t, here, body[lo..]);
  }

  lemma {:induction false} QuietBeforeReturn(t: Target, here: bool, stmts: seq<Stmt>)
    requires t.Part? && stmts != [] && stmts[|stmts| - 1] == Leave(Returns, [Ident(t.base)])
    requires forall k :: 0 <= k < |stmts| - 1 ==> !Touches(t, stmts[k])
    ensures forall o <- Outcomes(t, here, stmts) :: o.last.None?
    decreases |stmts|
  {
    if |stmts| == 1 {
      assert stmts[1..] == [];
    } else {
      NothingTouchedStmt(t, here, stmts[0]);
      UntouchedNext(t, here, stmts[0]);
      QuietBeforeReturn(t, here, stmts[1..]);
    }
  }

  const LITERAL := Assignment([Ident("p")], Define, [Struct(STRUCT_TYPE, [KeyValue(Ident("F"), Ident("true"))])])
  const CALL := Expression(GetBool("args", [AddressOf(Field("p", "F")), Ident("Key")]))
  const REWRITE := Assignment([Field("p", "F")], Assign, [Ident("false")])
  const MAYBE_REWRITE := If([], OtherExpr([]), [REWRITE], false, [])
  const RETURN := Leave(Returns, [Ident("p")])
  const SOURCE := Source("args", {"F"}, LiteralDefaults("p", 0, map["F" := true]), map["Key" := "predicate.F"])

  /** The reader takes the literal `true` for the key, whatever statement follows the call. */
  lemma KeyIsRead(body: seq<Stmt>)
    requires body == [LITERAL, CALL, REWRITE, RETURN] || body == [LITERAL, CALL, MAYBE_REWRITE, RETURN]
    ensures WasRead(SOURCE, body)
    ensures ReadCalls(SOURCE, body, 4) == Ok(Reading(map["predicate.F" := Tie(1, "F", true)], {"F"}))
  {
    var elements := [KeyValue(Ident("F"), Ident("true"))];
    assert elements[..0] == [];
    assert ReadElements(elements, {"F"}) == Ok(map["F" := true]);
    assert OnlyLiteral(body, 0);
    assert Association(CALL, "args", "p", {"F"}) == Some(("F", "Key"));
    assert ReadCalls(SOURCE, body, 1) == Ok(Reading(map[], {}));
    assert KeyOf(SOURCE, CALL) == "predicate.F" && CallField(SOURCE, CALL) == "F";
    assert KeyOf(SOURCE, CALL)[0] == 'p';
    assert {} + {"F"} == {"F"};
    assert ReadCalls(SOURCE, body, 2) == Ok(Reading(map["predicate.F" := Tie(1, "F", true)], {"F"}));
    assert ReadCalls(SOURCE, body, 3) == ReadCalls(SOURCE, body, 2);
    NoCallsInside(body);
  }

  lemma NoCallsInside(body: seq<Stmt>)
    requires body == [LITERAL, CALL, REWRITE, RETURN] || body == [LITERAL, CALL, MAYBE_REWRITE, RETURN]
    ensures NothingHidden(body, "args")
  {
    assert StmtCalls(REWRITE, "args") == 0 by {
      assert REWRITE.lhs[..0] == [] && REWRITE.rhs[..0] == [];
    }
    assert StmtCalls(MAYBE_REWRITE, "args") == 0 by {
      assert BodyCalls([], "args") == 0 && CallsInAll([], "args") == 0;
      var inside := [REWRITE];
      assert inside[..|inside| - 1] == [];
      assert BodyCalls(inside, "args") == 0;
    }
    assert StmtCalls(RETURN, "args") == 0 by {
      assert RETURN.results[..0] == [];
    }
    assert StmtCalls(CALL, "args") == 1 by {
      var arguments := CALL.e.arguments;
      assert arguments[..1][..0] == [];
      assert CallsInAll(arguments[..1], "args") == 0;
      assert CallsInAll(arguments, "args") == 0;
    }
    assert StmtCalls(LITERAL, "args") == 0 by {
      assert LITERAL.lhs[..0] == [] && LITERAL.rhs[..0] == [];
      var elements := LITERAL.rhs[0].elements;
      assert elements[..0] == [];
      assert CallsInElement(elements[0], "args") == 0;
      assert CallsInElements(elements, "args") == 0;
      assert CallsIn(LITERAL.rhs[0], "args") == 0;
      assert CallsInAll(LITERAL.lhs, "args") == 0 && CallsInAll(LITERAL.rhs, "args") == 0;
    }
  }

  lemma NameIsHere(body: seq<Stmt>)
    requires body != [] && body[0] == LITERAL
    ensures Here(SOURCE, body)
  {
    assert Ident("p") in LITERAL.lhs;
    assert Declares(body[0], "p");
  }

  lemma LaterWriteBreaksAnswer(body: seq<Stmt>, script: Script)
    requires body == [LITERAL, CALL, REWRITE, RETURN] || body == [LITERAL, CALL, MAYBE_REWRITE, RETURN]
    requires WatchStmt(Part("p", "F"), true, body[2], script) == Outcome(Some(false), Through)
    ensures !KeepsAnswer(SOURCE, body, Tie(1, "F", true))
  {
    var target := Part("p", "F");
    NameIsHere(body);
    assert Between(SOURCE, body, 1) == [] && AtCall(SOURCE, body, Tie(1, "F", true)) == target;
    assert body[2..] == [body[2], RETURN] && body[2..][1..] == [RETURN];
    assert Watch(target, true, body[2..], [script])
      == AndThen(Outcome(Some(false), Through), Watch(target, true, [RETURN], []));
    WatchIsAnOutcome(target, true, body[2..], [script]);
  }

  /** Some run writes the field after the call. */
  lemma LaterWriteIsUnsound(body: seq<Stmt>, script: Script)
    requires body == [LITERAL, CALL, REWRITE, RETURN] || body == [LITERAL, CALL, MAYBE_REWRITE, RETURN]
    requires WatchStmt(Part("p", "F"), true, body[2], script) == Outcome(Some(false), Through)
    ensures !Sound(SOURCE, body, "F", "predicate.F", true)
  {
    KeyIsRead(body);
    LaterWriteBreaksAnswer(body, script);
    SoundIffStable(SOURCE, body, "predicate.F");
  }

  /** A field rewritten after its call: the reader says true for the key, the plugin always uses false. */
  lemma LateWriteIsMissed()
    ensures var body := [LITERAL, CALL, REWRITE, RETURN];
      && WasRead(SOURCE, body)
      && ReadCalls(SOURCE, body, 4) == Ok(Reading(map["predicate.F" := Tie(1, "F", true)], {"F"}))
      && !Sound(SOURCE, body, "F", "predicate.F", true)
  {
    var body := [LITERAL, CALL, REWRITE, RETURN];
    KeyIsRead(body);
    RewriteWrites(true);
    LaterWriteIsUnsound(body, IDLE);
  }

  lemma RewriteWrites(here: bool)
    ensures WatchStmt(Part("p", "F"), here, REWRITE, IDLE) == Outcome(Some(false), Through)
  {
    assert LastHit(Part("p", "F"), REWRITE, 1) == Some(0);
  }

  /** The same through a statement that the reader skips: a branch may rewrite the field. */
  lemma NestedWriteIsMissed()
    ensures var body := [LITERAL, CALL, MAYBE_REWRITE, RETURN];
      && WasRead(SOURCE, body)
      && ReadCalls(SOURCE, body, 4) == Ok(Reading(map["predicate.F" := Tie(1, "F", true)], {"F"}))
      && !Sound(SOURCE, body, "F", "predicate.F", true)
  {
    var body, taken, target := [LITERAL, CALL, MAYBE_REWRITE, RETURN], Script([], true, [], []), Part("p", "F");
    KeyIsRead(body);
    RewriteWrites(false);
    assert Watch(target, false, [REWRITE], []) == Outcome(Some(false), Through);
    assert Watch(target, false, [], []) == KEEP && After(target, false, []) == target && BlockOf(taken) == [];
    assert WatchStmt(target, true, MAYBE_REWRITE, taken) == AndThen(KEEP, Watch(target, false, [REWRITE], []));
    LaterWriteIsUnsound(body, taken);
  }
}
