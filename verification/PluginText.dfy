/**
 What a body of `ApplyPluginConfDefaults` says to somebody who only looks at its
 statements: which of them test an option field for nil, which assign a boolean
 literal, and for which bodies that gives a default for every guarded switch
 (internal/source/plugin_defaults.go).
 */
module PluginText {
  import opened GoSource

  /** `x := true`, `x := false`, `x = true` or `x = false`. */
  predicate AssignsLiteral(s: Stmt, x: string, value: bool) {
    && s.Assignment? && (s.op == Define || s.op == Assign)
    && s.lhs == [Ident(x)] && s.rhs == [Ident(if value then "true" else "false")]
  }

  /** The same with a compound operator. */
  predicate CompoundLiteral(s: Stmt) {
    && s.Assignment? && s.op == OtherOp && |s.lhs| == 1 && s.lhs[0].Ident?
    && (s.rhs == [Ident("true")] || s.rhs == [Ident("false")])
  }

  /** A conditional on `option.field == nil` or `nil == option.field`. */
  predicate TestsNil(s: Stmt, option: string, field: string) {
    && s.If?
    && (s.cond == Equal(Field(option, field), Ident("nil")) || s.cond == Equal(Ident("nil"), Field(option, field)))
  }

  /** Without initialiser and `else`, whose body is `option.field = &x` alone. */
  predicate AssignsAddress(s: Stmt, option: string, field: string, x: string) {
    && s.If? && s.init == [] && !s.hasElse
    && s.body == [Assignment([Field(option, field)], Assign, [AddressOf(Ident(x))])]
  }

  /** Among the first `n` statements this is the last literal that a single assignment gives to the variable. */
  ghost predicate LastLiteral(body: seq<Stmt>, n: nat, x: string, value: bool)
    requires n <= |body|
  {
    exists k :: 0 <= k < n && AssignsLiteral(body[k], x, value) && NoneAfter(body, k, n, x)
  }

  ghost predicate NoneAfter(body: seq<Stmt>, k: nat, n: nat, x: string)
    requires n <= |body|
  {
    forall j, value :: k < j < n ==> !AssignsLiteral(body[j], x, value)
  }

  /** An earlier statement tests a field of the same switch. */
  ghost predicate TestedBefore(option: string, fields: map<string, string>, body: seq<Stmt>, n: nat, switch: string)
    requires n <= |body|
  {
    exists i, field :: 0 <= i < n && TestsNil(body[i], option, field) && field in fields && fields[field] == switch
  }

  /** A nil test that gives a default: known field, supported form, a literal before it, no rival before it. */
  ghost predicate GivesDefault(
    option: string, fields: map<string, string>, body: seq<Stmt>, i: nat, field: string, value: bool)
    requires i < |body|
  {
    && field in fields
    && (exists x :: AssignsAddress(body[i], option, field, x) && LastLiteral(body, i, x, value))
    && !TestedBefore(option, fields, body, i, fields[field])
  }

  /** The statement is no obstacle to the reading. */
  ghost predicate Fine(option: string, fields: map<string, string>, body: seq<Stmt>, i: nat)
    requires i < |body|
  {
    && !CompoundLiteral(body[i])
    && forall field | TestsNil(body[i], option, field) ::
      exists value :: GivesDefault(option, fields, body, i, field, value)
  }

  /** No statement is one, and there is a nil test. */
  ghost predicate Readable(option: string, fields: map<string, string>, body: seq<Stmt>) {
    && (forall i :: 0 <= i < |body| ==> Fine(option, fields, body, i))
    && exists i, field :: 0 <= i < |body| && TestsNil(body[i], option, field)
  }

  /** Exactly the guarded switches, each with the literal in force at its guard. */
  ghost predicate IsReading(option: string, fields: map<string, string>, body: seq<Stmt>, defaults: map<string, bool>) {
    && (forall switch :: switch in defaults <==> TestedBefore(option, fields, body, |body|, switch))
    && forall i, field | 0 <= i < |body| && TestsNil(body[i], option, field) && field in fields ::
      fields[field] in defaults && GivesDefault(option, fields, body, i, field, defaults[fields[field]])
  }
}
