/**
 What the body of `enablePredicate` says to somebody who only looks at its
 statements: where the struct literal stands and which defaults it gives, which
 statements read a configuration key into a field, and for which bodies all of that
 can be read (internal/source/predicate_defaults.go).
 */
module PredicateText {
  import opened GoSource

  datatype LiteralDefaults = LiteralDefaults(name: string, at: nat, defaults: map<string, bool>)

  /** What the reader is given besides the body. */
  datatype Source = Source(
    args: string, boolFields: set<string>, literal: LiteralDefaults, constants: map<string, string>)

  // ---- The struct literal ------------------------------------------------------

  /** One value of the struct type is assigned. */
  predicate GivesStruct(s: Stmt) {
    && s.Assignment? && s.op != Declare && |s.lhs| == 1 && |s.rhs| == 1
    && s.rhs[0].Struct? && s.rhs[0].typeName == "predicateEnable"
  }

  predicate GivesLiteral(s: Stmt, name: string, elements: seq<Element>) {
    && s.Assignment? && (s.op == Define || s.op == Assign)
    && s.lhs == [Ident(name)] && s.rhs == [Struct("predicateEnable", elements)]
  }

  predicate SetsField(e: Element, field: string, value: bool) {
    e == KeyValue(Ident(field), Ident(if value then "true" else "false"))
  }

  /** Keyed by a name and, for a boolean field, a literal that no earlier element gives. */
  ghost predicate ElementFine(elements: seq<Element>, i: nat, boolFields: set<string>)
    requires i < |elements|
  {
    && elements[i].KeyValue? && elements[i].key.Ident?
    && (elements[i].key.name in boolFields ==>
      && (exists value :: SetsField(elements[i], elements[i].key.name, value))
      && forall j, value :: 0 <= j < i ==> !SetsField(elements[j], elements[i].key.name, value))
  }

  /** Exactly the boolean fields that some element sets, with its value. */
  ghost predicate IsDefaults(elements: seq<Element>, boolFields: set<string>, defaults: map<string, bool>) {
    && (forall f :: f in defaults <==>
      f in boolFields && exists i, value :: 0 <= i < |elements| && SetsField(elements[i], f, value))
    && forall i, f, value | 0 <= i < |elements| && SetsField(elements[i], f, value) && f in defaults ::
      defaults[f] == value
  }

  ghost predicate ElementsFine(elements: seq<Element>, boolFields: set<string>) {
    forall i :: 0 <= i < |elements| ==> ElementFine(elements, i, boolFields)
  }

  /** The one struct of the body, its variable and its defaults. */
  ghost predicate IsLiteral(body: seq<Stmt>, boolFields: set<string>, d: LiteralDefaults) {
    && d.at < |body| && (forall k :: 0 <= k < |body| && k != d.at ==> !GivesStruct(body[k]))
    && exists elements :: GivesLiteral(body[d.at], d.name, elements)
         && ElementsFine(elements, boolFields) && IsDefaults(elements, boolFields, d.defaults)
  }

  // ---- The calls -----------------------------------------------------------------

  /** `args.GetBool(...)` as a statement. */
  predicate Calls(s: Stmt, args: string) {
    s.Expression? && s.e.GetBool? && s.e.receiver == args
  }

  /** `args.GetBool(&p.field, constant)` as a statement. */
  predicate ReadsInto(s: Stmt, args: string, p: string, field: string, constant: string) {
    s == Expression(GetBool(args, [AddressOf(Field(p, field)), Ident(constant)]))
  }

  /** The call reads this key into this field, which has this default. */
  ghost predicate TiesKey(src: Source, s: Stmt, field: string, key: string, value: bool) {
    && field in src.boolFields && field in src.literal.defaults && src.literal.defaults[field] == value && key != ""
    && exists c :: ReadsInto(s, src.args, src.literal.name, field, c) && c in src.constants && src.constants[c] == key
  }

  /** It comes behind the literal, and no earlier call has its field or its key. */
  ghost predicate CallFine(src: Source, body: seq<Stmt>, i: nat)
    requires i < |body|
  {
    Calls(body[i], src.args) ==>
      && src.literal.at < i
      && exists field, key, value :: TiesKey(src, body[i], field, key, value) && FirstTie(src, body, i, field, key)
  }

  ghost predicate FirstTie(src: Source, body: seq<Stmt>, i: nat, field: string, key: string)
    requires i <= |body|
  {
    forall j, f, k, v :: 0 <= j < i && TiesKey(src, body[j], f, k, v) ==> f != field && k != key
  }

  // Calls anywhere in an expression or a statement.

  predicate HasCall(e: Expr, args: string) {
    match e
    case Ident(_) => false
    case Field(_, _) => false
    case Equal(l, r) => HasCall(l, args) || HasCall(r, args)
    case AddressOf(x) => HasCall(x, args)
    case Struct(_, elements) =>
      exists i :: 0 <= i < |elements| && ElementHasCall(elements[i], args)
    case GetBool(receiver, arguments) => receiver == args || SomeHasCall(arguments, args)
    case OtherExpr(inner) => SomeHasCall(inner, args)
  }

  predicate ElementHasCall(e: Element, args: string) {
    match e
    case KeyValue(k, v) => HasCall(k, args) || HasCall(v, args)
    case Plain(v) => HasCall(v, args)
  }

  predicate SomeHasCall(es: seq<Expr>, args: string) {
    exists i :: 0 <= i < |es| && HasCall(es[i], args)
  }

  predicate StmtHasCall(s: Stmt, args: string) {
    match s
    case Assignment(lhs, _, rhs) => SomeHasCall(lhs, args) || SomeHasCall(rhs, args)
    case Expression(e) => HasCall(e, args)
    case If(init, cond, body, _, otherwise) =>
      BodyHasCall(init, args) || HasCall(cond, args) || BodyHasCall(body, args) || BodyHasCall(otherwise, args)
    case Block(body) => BodyHasCall(body, args)
    case Loop(exprs, body) => SomeHasCall(exprs, args) || BodyHasCall(body, args)
    case Leave(_, results) => SomeHasCall(results, args)
  }

  predicate BodyHasCall(body: seq<Stmt>, args: string) {
    exists i :: 0 <= i < |body| && StmtHasCall(body[i], args)
  }

  /** All calls of the body are statements of their own with no call inside. */
  predicate NoneHidden(body: seq<Stmt>, args: string) {
    forall i :: 0 <= i < |body| ==>
      if Calls(body[i], args) then !SomeHasCall(body[i].e.arguments, args) else !StmtHasCall(body[i], args)
  }

  ghost predicate Readable(src: Source, body: seq<Stmt>) {
    && NoneHidden(body, src.args) && (forall i :: 0 <= i < |body| ==> CallFine(src, body, i))
    && exists i :: 0 <= i < |body| && Calls(body[i], src.args)
  }

  /** Exactly the keys that are read, each with the default of its field. */
  ghost predicate IsReading(src: Source, body: seq<Stmt>, defaults: map<string, bool>) {
    && (forall key :: key in defaults <==>
      exists i, field, value :: 0 <= i < |body| && TiesKey(src, body[i], field, key, value))
    && forall i, field, key, value | 0 <= i < |body| && TiesKey(src, body[i], field, key, value) && key in defaults ::
      defaults[key] == value
  }
}
