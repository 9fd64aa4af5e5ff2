/**
 Reading the default of every plugin switch out of the Go source of
 `ApplyPluginConfDefaults` (internal/source/plugin_defaults.go), and what it
 takes for the reading to agree with running that source.
 */
module PluginDefaults {
  import opened Prelude
  import opened GoSource
  import opened GoMemory
  import opened PluginText
  import Hooks = HookInventory

  // ---- What the reader distinguishes ----------------------------------------

  datatype Error =
    | UnsupportedAssignment | UnknownField | UnsupportedSyntax | Unresolved | AssignedTwice | NoDefaults | BadField

  function SelectedField(e: Expr, option: string): Option<string> {
    if e.Field? && e.base == option then Some(e.field) else None
  }

  /** The field that a condition compares with nil. */
  function NilGuard(cond: Expr, option: string): Option<string> {
    if !cond.Equal? then None
    else if cond.right == Ident("nil") then SelectedField(cond.left, option)
    else if cond.left == Ident("nil") then SelectedField(cond.right, option)
    else None
  }

  predicate Guards(s: Stmt, option: string, field: string) {
    s.If? && NilGuard(s.cond, option) == Some(field)
  }

  /** The variable whose address a guard of the supported form assigns. */
  function GuardVariable(s: Stmt, option: string, field: string): Option<string> {
    if s.If? && s.init == [] && !s.hasElse && |s.body| == 1 && s.body[0].Assignment? && s.body[0].op == Assign
      && s.body[0].lhs == [Field(option, field)] && |s.body[0].rhs| == 1
      && s.body[0].rhs[0].AddressOf? && s.body[0].rhs[0].operand.Ident?
    then Some(s.body[0].rhs[0].operand.name) else None
  }

  // ---- The reader -----------------------------------------------------------

  datatype Reading = Reading(vars: map<string, bool>, defaults: map<string, bool>)

  function ReadStmt(option: string, fields: map<string, string>, r: Reading, s: Stmt): Result<Reading, Error> {
    match s
    case Assignment(lhs, op, rhs) =>
      if op != Declare && |lhs| == 1 && |rhs| == 1 && lhs[0].Ident? && Literal(rhs[0]).Some? then
        if op == OtherOp then Err(UnsupportedAssignment)
        else Ok(r.(vars := r.vars[lhs[0].name := Literal(rhs[0]).value]))
      else Ok(r)
    case If(_, cond, _, _, _) =>
      var guarded := NilGuard(cond, option);
      if guarded.None? then Ok(r)
      else if guarded.value !in fields then Err(UnknownField)
      else
        var x := GuardVariable(s, option, guarded.value);
        if x.None? then Err(UnsupportedSyntax)
        else if x.value !in r.vars then Err(Unresolved)
        else if fields[guarded.value] in r.defaults then Err(AssignedTwice)
        else Ok(r.(defaults := r.defaults[fields[guarded.value] := r.vars[x.value]]))
    case _ => Ok(r)
  }

  function ReadBody(option: string, fields: map<string, string>, body: seq<Stmt>): Result<Reading, Error> {
    if body == [] then Ok(Reading(map[], map[]))
    else
      var before := ReadBody(option, fields, body[..|body| - 1]);
      if before.Err? then before else ReadStmt(option, fields, before.value, body[|body| - 1])
  }

  method RecordBooleanAssignment(s: Stmt, vars: map<string, bool>) returns (result: Result<map<string, bool>, Error>)
    requires s.Assignment? && s.op != Declare
    ensures forall option, fields, defaults :: (
      ReadStmt(option, fields, Reading(vars, defaults), s) ==
      if result.Ok? then Ok(Reading(result.value, defaults)) else Err(result.error))
  {
    if |s.lhs| != 1 || |s.rhs| != 1 {
      return Ok(vars);
    }
    if !s.lhs[0].Ident? {
      return Ok(vars);
    }
    var literal := Literal(s.rhs[0]);
    if literal.None? {
      return Ok(vars);
    }
    if s.op != Define && s.op != Assign {
      return Err(UnsupportedAssignment);
    }
    return Ok(vars[s.lhs[0].name := literal.value]);
  }

  /** The value of the variable whose address a nil guard hands out. */
  method PluginOptionDefaultValue(option: string, field: string, s: Stmt, vars: map<string, bool>)
    returns (result: Result<bool, Error>)
    requires s.If?
    ensures var x := GuardVariable(s, option, field);
      result == if x.None? then Err(UnsupportedSyntax)
                else if x.value !in vars then Err(Unresolved) else Ok(vars[x.value])
  {
    if s.init != [] || s.hasElse || |s.body| != 1 {
      return Err(UnsupportedSyntax);
    }
    var assignment := s.body[0];
    if !assignment.Assignment? || assignment.op != Assign || |assignment.lhs| != 1 || |assignment.rhs| != 1 {
      return Err(UnsupportedSyntax);
    }
    if SelectedField(assignment.lhs[0], option) != Some(field) {
      return Err(UnsupportedSyntax);
    }
    assert assignment.lhs == [Field(option, field)];
    if !assignment.rhs[0].AddressOf? || !assignment.rhs[0].operand.Ident? {
      return Err(UnsupportedSyntax);
    }
    if assignment.rhs[0].operand.name !in vars {
      return Err(Unresolved);
    }
    return Ok(vars[assignment.rhs[0].operand.name]);
  }

  /** One conditional of the body. */
  method ReadConditional(
    option: string, fields: map<string, string>, s: Stmt, vars: map<string, bool>, defaults: map<string, bool>)
    returns (result: Result<map<string, bool>, Error>)
    requires s.If?
    ensures ReadStmt(option, fields, Reading(vars, defaults), s) ==
      if result.Ok? then Ok(Reading(vars, result.value)) else Err(result.error)
  {
    var guarded := NilGuard(s.cond, option);
    if guarded.None? {
      return Ok(defaults);
    }
    if guarded.value !in fields {
      return Err(UnknownField);
    }
    var value := PluginOptionDefaultValue(option, guarded.value, s, vars);
    if value.Err? {
      return Err(value.error);
    }
    if fields[guarded.value] in defaults {
      return Err(AssignedTwice);
    }
    return Ok(defaults[fields[guarded.value] := value.value]);
  }

  /**
   Succeeds exactly for readable bodies, with the reading that the text gives, and
   otherwise names the first statement that is in the way.
   */
  method LoadDefaultValues(option: string, fields: map<string, string>, body: seq<Stmt>)
    returns (result: Result<map<string, bool>, Error>)
    ensures result.Ok? <==> Readable(option, fields, body)
    ensures result.Ok? ==> IsReading(option, fields, body, result.value)
    ensures result.Err? ==> NamesObstacle(option, fields, body, result.error)
    ensures result.Ok? ==>
      ReadBody(option, fields, body).Ok? && result.value == ReadBody(option, fields, body).value.defaults
  {
    var vars: map<string, bool>, defaults: map<string, bool> := map[], map[];
    for i := 0 to |body|
      invariant ReadBody(option, fields, body[..i]) == Ok(Reading(vars, defaults))
    {
      ReadNext(option, fields, body, i);
      var s := body[i];
      if s.Assignment? && s.op != Declare {
        var recorded := RecordBooleanAssignment(s, vars);
        if recorded.Err? {
          ObstacleIsNamed(option, fields, body, i);
          return Err(recorded.error);
        }
        vars := recorded.value;
        continue;
      }
      if !s.If? {
        continue;
      }
      var read := ReadConditional(option, fields, s, vars, defaults);
      if read.Err? {
        ObstacleIsNamed(option, fields, body, i);
        return Err(read.error);
      }
      defaults := read.value;
    }
    WholeBodyIsRead(option, fields, body, vars, defaults);
    if |defaults| == 0 {
      return Err(NoDefaults);
    }
    return Ok(defaults);
  }

  lemma ReadNext(option: string, fields: map<string, string>, body: seq<Stmt>, i: nat)
    requires i < |body| && ReadBody(option, fields, body[..i]).Ok?
    ensures ReadBody(option, fields, body[..i + 1])
      == ReadStmt(option, fields, ReadBody(option, fields, body[..i]).value, body[i])
  {
    assert body[..i + 1][..i] == body[..i];
  }

  // ---- The reading and the text ---------------------------------------------

  predicate InForce(vars: map<string, bool>, x: string, value: bool) {
    x in vars && vars[x] == value
  }

  /** What the reader keeps, said of the first `n` statements of the text. */
  ghost predicate Keeps(option: string, fields: map<string, string>, body: seq<Stmt>, n: nat, r: Reading)
    requires n <= |body|
  {
    && (forall x, value :: InForce(r.vars, x, value) <==> LastLiteral(body, n, x, value))
    && KeepsDefaults(option, fields, body, n, r.defaults)
  }

  lemma NilGuardIsTest(s: Stmt, option: string, field: string)
    requires s.If?
    ensures NilGuard(s.cond, option) == Some(field) <==> TestsNil(s, option, field)
  {
  }

  lemma GuardVariableIsAddress(s: Stmt, option: string, field: string, x: string)
    ensures GuardVariable(s, option, field) == Some(x) <==> AssignsAddress(s, option, field, x)
  {
    if GuardVariable(s, option, field) == Some(x) {
      assert s.body[0].rhs == [AddressOf(Ident(x))];
      assert s.body == [Assignment([Field(option, field)], Assign, [AddressOf(Ident(x))])];
    }
  }

  /** Only a single literal assignment changes what is in force for its variable. */
  lemma NextLiteral(body: seq<Stmt>, n: nat, x: string, value: bool)
    requires n < |body|
    ensures LastLiteral(body, n + 1, x, value) <==>
      AssignsLiteral(body[n], x, value) || (LastLiteral(body, n, x, value) && !AssignsLiteral(body[n], x, !value))
  {
    var end := n + 1;
    if AssignsLiteral(body[n], x, value) {
      assert NoneAfter(body, n, end, x);
    } else if LastLiteral(body, end, x, value) {
      var k :| 0 <= k < end && AssignsLiteral(body[k], x, value) && NoneAfter(body, k, end, x);
      StillNoneAfter(body, k, n, x);
    } else if LastLiteral(body, n, x, value) && !AssignsLiteral(body[n], x, !value) {
      var k :| 0 <= k < n && AssignsLiteral(body[k], x, value) && NoneAfter(body, k, n, x);
      StillNoneAfter(body, k, n, x);
    }
  }

  lemma StillNoneAfter(body: seq<Stmt>, k: nat, n: nat, x: string)
    requires k < n < |body|
    ensures NoneAfter(body, k, n + 1, x) <==>
      NoneAfter(body, k, n, x) && !AssignsLiteral(body[n], x, true) && !AssignsLiteral(body[n], x, false)
  {
  }

  /** A statement that is read without trouble is fine, and what is kept goes on being what the text says. */
  lemma NextStatement(option: string, fields: map<string, string>, body: seq<Stmt>, n: nat, r: Reading)
    requires n < |body| && Keeps(option, fields, body, n, r)
    ensures ReadStmt(option, fields, r, body[n]).Ok? <==> Fine(option, fields, body, n)
    ensures ReadStmt(option, fields, r, body[n]).Ok? ==>
      Keeps(option, fields, body, n + 1, ReadStmt(option, fields, r, body[n]).value)
    ensures ReadStmt(option, fields, r, body[n]).Err? ==>
      Offends(option, fields, body, n, ReadStmt(option, fields, r, body[n]).error)
  {
    var s := body[n];
    if s.If? && NilGuard(s.cond, option).Some? {
      var field := NilGuard(s.cond, option).value;
      GuardStatement(option, fields, body, n, r, field);
    } else {
      PlainStatement(option, fields, body, n, r);
    }
  }

  lemma PlainStatement(option: string, fields: map<string, string>, body: seq<Stmt>, n: nat, r: Reading)
    requires n < |body| && Keeps(option, fields, body, n, r)
    requires body[n].If? ==> NilGuard(body[n].cond, option).None?
    ensures ReadStmt(option, fields, r, body[n]).Ok? <==> Fine(option, fields, body, n)
    ensures ReadStmt(option, fields, r, body[n]).Ok? ==>
      Keeps(option, fields, body, n + 1, ReadStmt(option, fields, r, body[n]).value)
    ensures ReadStmt(option, fields, r, body[n]).Err? ==>
      Offends(option, fields, body, n, ReadStmt(option, fields, r, body[n]).error)
  {
    forall field ensures !TestsNil(body[n], option, field) {
      if body[n].If? {
        NilGuardIsTest(body[n], option, field);
      }
    }
    PlainErrs(option, fields, r, body[n]);
    if !CompoundLiteral(body[n]) {
      PlainIsKept(option, fields, body, n, r);
    }
  }

  lemma PlainErrs(option: string, fields: map<string, string>, r: Reading, s: Stmt)
    requires s.If? ==> NilGuard(s.cond, option).None?
    ensures var read := ReadStmt(option, fields, r, s);
      if CompoundLiteral(s) then read == Err(UnsupportedAssignment) else read.Ok? && read.value.defaults == r.defaults
  {
  }

  lemma PlainIsKept(option: string, fields: map<string, string>, body: seq<Stmt>, n: nat, r: Reading)
    requires n < |body| && Keeps(option, fields, body, n, r)
    requires forall field :: !TestsNil(body[n], option, field)
    requires ReadStmt(option, fields, r, body[n]).Ok?
      && ReadStmt(option, fields, r, body[n]).value.defaults == r.defaults
    ensures Keeps(option, fields, body, n + 1, ReadStmt(option, fields, r, body[n]).value)
  {
    var q := ReadStmt(option, fields, r, body[n]).value;
    forall x, value ensures InForce(q.vars, x, value) <==> LastLiteral(body, n + 1, x, value) {
      NextInForce(option, fields, body, n, r, x, value);
    }
    forall switch ensures switch in q.defaults <==> TestedBefore(option, fields, body, n + 1, switch) {
      NextTest(option, fields, body, n, switch);
    }
  }

  /** What the reader looks for in an assignment, part by part. */
  predicate Records(s: Stmt, x: string, value: bool) {
    && s.Assignment? && (s.op == Define || s.op == Assign) && |s.lhs| == 1 && |s.rhs| == 1
    && s.lhs[0] == Ident(x) && Literal(s.rhs[0]) == Some(value)
  }

  lemma AssignsLiteralIsRecorded(s: Stmt, x: string, value: bool)
    ensures AssignsLiteral(s, x, value) <==> Records(s, x, value)
  {
  }

  lemma NextInForce(
    option: string, fields: map<string, string>, body: seq<Stmt>, n: nat, r: Reading, x: string, value: bool)
    requires n < |body| && (InForce(r.vars, x, value) <==> LastLiteral(body, n, x, value))
    requires ReadStmt(option, fields, r, body[n]).Ok?
    ensures InForce(ReadStmt(option, fields, r, body[n]).value.vars, x, value) <==> LastLiteral(body, n + 1, x, value)
  {
    NextLiteral(body, n, x, value);
    AssignsLiteralIsRecorded(body[n], x, value);
    AssignsLiteralIsRecorded(body[n], x, !value);
  }

  lemma GuardStatement(option: string, fields: map<string, string>, body: seq<Stmt>, n: nat, r: Reading, field: string)
    requires n < |body| && Keeps(option, fields, body, n, r)
    requires body[n].If? && NilGuard(body[n].cond, option) == Some(field)
    ensures ReadStmt(option, fields, r, body[n]).Ok? <==> Fine(option, fields, body, n)
    ensures ReadStmt(option, fields, r, body[n]).Ok? ==>
      Keeps(option, fields, body, n + 1, ReadStmt(option, fields, r, body[n]).value)
    ensures ReadStmt(option, fields, r, body[n]).Err? ==>
      Offends(option, fields, body, n, ReadStmt(option, fields, r, body[n]).error)
  {
    forall f ensures TestsNil(body[n], option, f) <==> f == field {
      NilGuardIsTest(body[n], option, f);
    }
    forall x ensures AssignsAddress(body[n], option, field, x) <==> GuardVariable(body[n], option, field) == Some(x) {
      GuardVariableIsAddress(body[n], option, field, x);
    }
    forall x, value {
      NextLiteral(body, n, x, value);
    }
    var read := ReadStmt(option, fields, r, body[n]);
    if read.Ok? {
      GuardIsKept(option, fields, body, n, r, field);
    } else {
      GuardOffends(option, fields, body, n, r, field);
    }
  }

  lemma GuardOffends(option: string, fields: map<string, string>, body: seq<Stmt>, n: nat, r: Reading, field: string)
    requires n < |body| && Keeps(option, fields, body, n, r) && ReadStmt(option, fields, r, body[n]).Err?
    requires body[n].If? && NilGuard(body[n].cond, option) == Some(field) && TestsNil(body[n], option, field)
    requires forall x ::
      AssignsAddress(body[n], option, field, x) <==> GuardVariable(body[n], option, field) == Some(x)
    ensures OffendsAt(option, fields, body, n, field, ReadStmt(option, fields, r, body[n]).error)
    ensures !Fine(option, fields, body, n)
  {
    var x := GuardVariable(body[n], option, field);
    if field in fields && x.Some? {
      assert AssignsAddress(body[n], option, field, x.value);
      assert x.value in r.vars ==> InForce(r.vars, x.value, r.vars[x.value]);
      assert forall value :: LastLiteral(body, n, x.value, value) ==> InForce(r.vars, x.value, value);
    }
  }

  lemma GuardIsKept(option: string, fields: map<string, string>, body: seq<Stmt>, n: nat, r: Reading, field: string)
    requires n < |body| && Keeps(option, fields, body, n, r) && ReadStmt(option, fields, r, body[n]).Ok?
    requires body[n].If? && NilGuard(body[n].cond, option) == Some(field)
    requires forall f :: TestsNil(body[n], option, f) <==> f == field
    requires forall x ::
      AssignsAddress(body[n], option, field, x) <==> GuardVariable(body[n], option, field) == Some(x)
    requires forall x, value :: LastLiteral(body, n + 1, x, value) <==> LastLiteral(body, n, x, value)
    ensures Keeps(option, fields, body, n + 1, ReadStmt(option, fields, r, body[n]).value)
    ensures Fine(option, fields, body, n)
  {
    var x, q := GuardVariable(body[n], option, field).value, ReadStmt(option, fields, r, body[n]).value;
    assert InForce(r.vars, x, r.vars[x]);
    assert AssignsAddress(body[n], option, field, x) && LastLiteral(body, n, x, r.vars[x]);
    assert !TestedBefore(option, fields, body, n, fields[field]);
    assert GivesDefault(option, fields, body, n, field, r.vars[x]);
    assert q == r.(defaults := r.defaults[fields[field] := r.vars[x]]);
    NextDefaults(option, fields, body, n, r.defaults, field, r.vars[x]);
  }

  /** What the text says of the defaults, for the first `n` statements. */
  ghost predicate KeepsDefaults(
    option: string, fields: map<string, string>, body: seq<Stmt>, n: nat, defaults: map<string, bool>)
    requires n <= |body|
  {
    && (forall switch :: switch in defaults <==> TestedBefore(option, fields, body, n, switch))
    && forall i, field | 0 <= i < n && TestsNil(body[i], option, field) && field in fields ::
      fields[field] in defaults && GivesDefault(option, fields, body, i, field, defaults[fields[field]])
  }

  lemma NextDefaults(
    option: string, fields: map<string, string>, body: seq<Stmt>, n: nat, defaults: map<string, bool>, field: string,
    value: bool)
    requires n < |body| && KeepsDefaults(option, fields, body, n, defaults)
    requires forall f :: TestsNil(body[n], option, f) <==> f == field
    requires GivesDefault(option, fields, body, n, field, value)
    ensures KeepsDefaults(option, fields, body, n + 1, defaults[fields[field] := value])
  {
    var after, end := defaults[fields[field] := value], n + 1;
    forall switch ensures switch in after <==> TestedBefore(option, fields, body, end, switch) {
      NextTest(option, fields, body, n, switch);
    }
    forall i, f | 0 <= i < end && TestsNil(body[i], option, f) && f in fields
      ensures fields[f] in after && GivesDefault(option, fields, body, i, f, after[fields[f]])
    {
      if i < n {
        OlderDefault(option, fields, body, n, defaults, i, f);
        assert fields[f] != fields[field];
      }
    }
  }

  lemma OlderDefault(
    option: string, fields: map<string, string>, body: seq<Stmt>, n: nat, defaults: map<string, bool>, i: nat,
    f: string)
    requires i < n <= |body| && KeepsDefaults(option, fields, body, n, defaults)
    requires TestsNil(body[i], option, f) && f in fields
    ensures TestedBefore(option, fields, body, n, fields[f])
    ensures fields[f] in defaults && GivesDefault(option, fields, body, i, f, defaults[fields[f]])
  {
  }

  lemma NextTest(option: string, fields: map<string, string>, body: seq<Stmt>, n: nat, switch: string)
    requires n < |body|
    ensures TestedBefore(option, fields, body, n + 1, switch) <==>
      || TestedBefore(option, fields, body, n, switch)
      || exists field :: TestsNil(body[n], option, field) && field in fields && fields[field] == switch
  {
    if field :| TestsNil(body[n], option, field) && field in fields && fields[field] == switch {
      assert n < n + 1;
    }
  }

  /** Why a statement is in the way. */
  ghost predicate Offends(option: string, fields: map<string, string>, body: seq<Stmt>, n: nat, e: Error)
    requires n < |body|
  {
    || (e == UnsupportedAssignment && CompoundLiteral(body[n]))
    || exists field :: OffendsAt(option, fields, body, n, field, e)
  }

  /** A nil test of an unknown field, in another form, without a literal to go by, or the second of its switch. */
  ghost predicate OffendsAt(
    option: string, fields: map<string, string>, body: seq<Stmt>, n: nat, field: string, e: Error)
    requires n < |body|
  {
    TestsNil(body[n], option, field) &&
    match e
    case UnknownField => field !in fields
    case UnsupportedSyntax => field in fields && forall x :: !AssignsAddress(body[n], option, field, x)
    case Unresolved => field in fields && Unassigned(option, body, n, field)
    case AssignedTwice =>
      field in fields && !Unassigned(option, body, n, field) && TestedBefore(option, fields, body, n, fields[field])
    case _ => false
  }

  ghost predicate Unassigned(option: string, body: seq<Stmt>, n: nat, field: string)
    requires n < |body|
  {
    exists x :: AssignsAddress(body[n], option, field, x) && forall value :: !LastLiteral(body, n, x, value)
  }

  ghost predicate FirstObstacle(option: string, fields: map<string, string>, body: seq<Stmt>, n: nat, e: Error) {
    && n < |body| && (forall i :: 0 <= i < n ==> Fine(option, fields, body, i))
    && !Fine(option, fields, body, n) && Offends(option, fields, body, n, e)
  }

  ghost predicate NamesObstacle(option: string, fields: map<string, string>, body: seq<Stmt>, e: Error) {
    || (exists n :: FirstObstacle(option, fields, body, n, e))
    || (e == NoDefaults && forall i, field :: 0 <= i < |body| ==> !TestsNil(body[i], option, field))
  }

  /** From the text alone: which beginnings of a body are read, and what is kept of them. */
  lemma {:induction false} TextIsRead(option: string, fields: map<string, string>, body: seq<Stmt>, n: nat)
    requires n <= |body|
    ensures ReadBody(option, fields, body[..n]).Ok? <==> forall i :: 0 <= i < n ==> Fine(option, fields, body, i)
    ensures ReadBody(option, fields, body[..n]).Ok? ==>
      Keeps(option, fields, body, n, ReadBody(option, fields, body[..n]).value)
  {
    if n > 0 {
      TextIsRead(option, fields, body, n - 1);
      assert body[..n][..n - 1] == body[..n - 1];
      if ReadBody(option, fields, body[..n - 1]).Ok? {
        ReadNext(option, fields, body, n - 1);
        NextStatement(option, fields, body, n - 1, ReadBody(option, fields, body[..n - 1]).value);
      }
    }
  }

  lemma ObstacleIsNamed(option: string, fields: map<string, string>, body: seq<Stmt>, n: nat)
    requires n < |body| && ReadBody(option, fields, body[..n]).Ok? && ReadBody(option, fields, body[..n + 1]).Err?
    ensures !Readable(option, fields, body)
    ensures NamesObstacle(option, fields, body, ReadBody(option, fields, body[..n + 1]).error)
  {
    TextIsRead(option, fields, body, n);
    ReadNext(option, fields, body, n);
    NextStatement(option, fields, body, n, ReadBody(option, fields, body[..n]).value);
    assert FirstObstacle(option, fields, body, n, ReadBody(option, fields, body[..n + 1]).error);
  }

  lemma WholeBodyIsRead(
    option: string, fields: map<string, string>, body: seq<Stmt>, vars: map<string, bool>, defaults: map<string, bool>)
    requires ReadBody(option, fields, body[..|body|]) == Ok(Reading(vars, defaults))
    ensures ReadBody(option, fields, body) == Ok(Reading(vars, defaults))
    ensures Readable(option, fields, body) <==> |defaults| > 0
    ensures IsReading(option, fields, body, defaults)
    ensures |defaults| == 0 ==> NamesObstacle(option, fields, body, NoDefaults)
  {
    assert body[..|body|] == body;
    TextIsRead(option, fields, body, |body|);
    if |defaults| == 0 {
      assert defaults.Keys == {};
      NothingTested(option, fields, body, defaults);
    } else {
      SomethingTested(option, fields, body, defaults);
    }
  }

  lemma NothingTested(option: string, fields: map<string, string>, body: seq<Stmt>, defaults: map<string, bool>)
    requires forall i :: 0 <= i < |body| ==> Fine(option, fields, body, i)
    requires IsReading(option, fields, body, defaults) && defaults.Keys == {}
    ensures forall i, field :: 0 <= i < |body| ==> !TestsNil(body[i], option, field)
  {
    forall i, field | 0 <= i < |body| ensures !TestsNil(body[i], option, field) {
      TestIsRead(option, fields, body, defaults, i, field);
    }
  }

  lemma TestIsRead(
    option: string, fields: map<string, string>, body: seq<Stmt>, defaults: map<string, bool>, i: nat, field: string)
    requires i < |body| && Fine(option, fields, body, i) && IsReading(option, fields, body, defaults)
    ensures TestsNil(body[i], option, field) ==> exists switch :: switch in defaults
  {
  }

  lemma SomethingTested(option: string, fields: map<string, string>, body: seq<Stmt>, defaults: map<string, bool>)
    requires IsReading(option, fields, body, defaults) && defaults.Keys != {}
    ensures exists i, field :: 0 <= i < |body| && TestsNil(body[i], option, field)
  {
    var switch :| switch in defaults.Keys;
    assert TestedBefore(option, fields, body, |body|, switch);
  }

  // ---- The option struct ----------------------------------------------------

  /** One field of the struct, with its parsed YAML name if the tag is usable. */
  datatype FieldDecl = FieldDecl(boolPointer: bool, names: seq<string>, yaml: Option<string>)

  predicate Injective(fields: map<string, string>) {
    forall f <- fields, g <- fields :: fields[f] == fields[g] ==> f == g
  }

  predicate Declares(d: FieldDecl, field: string, switch: string) {
    d.boolPointer && d.names == [field] && d.yaml == Some(switch)
  }

  /** A boolean pointer with one name and a usable tag. */
  predicate Usable(d: FieldDecl) {
    d.boolPointer ==> |d.names| == 1 && d.yaml.Some?
  }

  /** Every boolean pointer is usable, no two have the same switch, and there is one. */
  predicate WellDeclared(declared: seq<FieldDecl>) {
    && (forall i :: 0 <= i < |declared| ==> Usable(declared[i]))
    && (forall i, j :: 0 <= i < j < |declared| && declared[i].boolPointer && declared[j].boolPointer ==>
      declared[i].yaml != declared[j].yaml)
    && exists i :: 0 <= i < |declared| && declared[i].boolPointer
  }

  function Taken(declared: seq<FieldDecl>, n: nat): set<string>
    requires n <= |declared|
  {
    if n == 0 then {}
    else
      var d := declared[n - 1];
      Taken(declared, n - 1) + if d.boolPointer && d.yaml.Some? then {d.yaml.value} else {}
  }

  predicate Accepted(declared: seq<FieldDecl>, n: nat)
    requires n <= |declared|
  {
    n > 0 ==>
      var d := declared[n - 1];
      Accepted(declared, n - 1) && Usable(d) && (d.boolPointer ==> d.yaml.value !in Taken(declared, n - 1))
  }

  function Switches(declared: seq<FieldDecl>, n: nat): map<string, string>
    requires n <= |declared| && Accepted(declared, n)
  {
    if n == 0 then map[]
    else
      var d := declared[n - 1];
      if d.boolPointer then Switches(declared, n - 1)[d.names[0] := d.yaml.value] else Switches(declared, n - 1)
  }

  lemma {:induction false} TakenHolds(declared: seq<FieldDecl>, n: nat, y: string)
    requires n <= |declared|
    ensures y in Taken(declared, n) <==>
      exists j :: 0 <= j < n && declared[j].boolPointer && declared[j].yaml == Some(y)
  {
    if n > 0 {
      TakenHolds(declared, n - 1, y);
    }
  }

  lemma {:induction false} AcceptedIff(declared: seq<FieldDecl>, n: nat)
    requires n <= |declared|
    ensures Accepted(declared, n) <==>
      && (forall i :: 0 <= i < n ==> Usable(declared[i]))
      && (forall i, j :: 0 <= i < j < n && declared[i].boolPointer && declared[j].boolPointer ==>
        declared[i].yaml != declared[j].yaml)
  {
    if n > 0 {
      AcceptedIff(declared, n - 1);
      var d := declared[n - 1];
      if d.boolPointer && d.yaml.Some? {
        TakenHolds(declared, n - 1, d.yaml.value);
      }
    }
  }

  /** Distinct fields get distinct switches, each from its own tag, and no boolean pointer is forgotten. */
  lemma {:induction false} SwitchesAreDeclared(declared: seq<FieldDecl>, n: nat)
    requires n <= |declared| && Accepted(declared, n)
    ensures Injective(Switches(declared, n))
    ensures forall f <- Switches(declared, n) :: (
      && Switches(declared, n)[f] in Taken(declared, n)
      && exists i :: 0 <= i < n && Declares(declared[i], f, Switches(declared, n)[f]))
    ensures forall i :: 0 <= i < n && declared[i].boolPointer ==>
      |declared[i].names| == 1 && declared[i].names[0] in Switches(declared, n)
  {
    if n > 0 {
      SwitchesAreDeclared(declared, n - 1);
      var d := declared[n - 1];
      if d.boolPointer {
        assert Declares(d, d.names[0], d.yaml.value);
      }
    }
  }

  /** The struct is refused unless it is well declared; otherwise each field gets the switch of its tag. */
  method LoadOptionFields(declared: seq<FieldDecl>) returns (result: Result<map<string, string>, Error>)
    ensures result.Ok? <==> WellDeclared(declared)
    ensures result.Ok? ==> Accepted(declared, |declared|) && result.value == Switches(declared, |declared|)
  {
    var fields: map<string, string>, taken: set<string> := map[], {};
    for i := 0 to |declared|
      invariant Accepted(declared, i) && fields == Switches(declared, i) && taken == Taken(declared, i)
    {
      var d := declared[i];
      if !d.boolPointer {
        continue;
      }
      if |d.names| != 1 || d.yaml.None? || d.yaml.value in taken {
        RefusedStays(declared, i + 1);
        return Err(BadField);
      }
      fields := fields[d.names[0] := d.yaml.value];
      taken := taken + {d.yaml.value};
    }
    SomeSwitch(declared);
    if |fields| == 0 {
      assert fields.Keys == {};
      return Err(BadField);
    }
    assert fields.Keys != {};
    return Ok(fields);
  }

  lemma SomeSwitch(declared: seq<FieldDecl>)
    requires Accepted(declared, |declared|)
    ensures WellDeclared(declared) <==> Switches(declared, |declared|).Keys != {}
  {
    AcceptedIff(declared, |declared|);
    SwitchesAreDeclared(declared, |declared|);
    if f :| f in Switches(declared, |declared|) {
      var i :| 0 <= i < |declared| && Declares(declared[i], f, Switches(declared, |declared|)[f]);
      assert declared[i].boolPointer;
    }
  }

  lemma {:induction false} RefusedStays(declared: seq<FieldDecl>, n: nat)
    requires n <= |declared| && !Accepted(declared, n)
    ensures !Accepted(declared, |declared|) && !WellDeclared(declared)
    decreases |declared| - n
  {
    if n < |declared| {
      RefusedStays(declared, n + 1);
    } else {
      AcceptedIff(declared, n);
    }
  }

  // ---- Running the source ---------------------------------------------------

  predicate IsGuard(option: string, s: Stmt) {
    s.If? && NilGuard(s.cond, option).Some? && GuardVariable(s, option, NilGuard(s.cond, option).value).Some?
  }

  /** On entry only the parameter is known; fields that are set point into the caller's cells. */
  predicate Entry(option: string, m: Memory) {
    && m.env == map[] && m.local == {option} && m.attached && m.exit == Through
    && forall f <- m.fields :: m.fields[f] < |m.heap|
  }

  /** A guard of the supported form: a nil field of the caller's struct gets the variable's address. */
  function Fire(option: string, m: Memory, s: Stmt): (r: Memory)
    requires Sane(m) && IsGuard(option, s)
    ensures Grows(m, r)
  {
    var field := NilGuard(s.cond, option).value;
    var x := GuardVariable(s, option, field).value;
    if !m.attached || option in m.env || field in m.fields then m
    else if x in m.env then m.(fields := m.fields[field := m.env[x]])
    else m.(heap := m.heap + [false], fields := m.fields[field := |m.heap|])
  }

  /** A statement of the function body itself; the condition of every other `if` is up to the script. */
  function ExecTop(option: string, m: Memory, s: Stmt, script: Script): (r: Memory)
    requires Sane(m)
    ensures Grows(m, r)
  {
    if m.exit == Through && IsGuard(option, s) then Fire(option, m, s) else Exec(option, m, s, script)
  }

  function RunTop(option: string, m: Memory, body: seq<Stmt>, scripts: seq<Script>): (r: Memory)
    requires Sane(m)
    ensures Grows(m, r)
    decreases |body|
  {
    if body == [] then m
    else RunTop(option, ExecTop(option, m, body[0], Head(scripts)), body[1..], Tail(scripts))
  }

  lemma {:induction false} StoppedTop(option: string, m: Memory, body: seq<Stmt>, scripts: seq<Script>)
    requires Sane(m) && m.exit != Through
    ensures RunTop(option, m, body, scripts) == m
    decreases |body|
  {
    if body != [] {
      StoppedTop(option, m, body[1..], Tail(scripts));
    }
  }

  lemma {:induction false} TopSplits(option: string, m: Memory, a: seq<Stmt>, b: seq<Stmt>, scripts: seq<Script>)
    requires Sane(m)
    ensures RunTop(option, m, a + b, scripts) == RunTop(option, RunTop(option, m, a, scripts), b, Drop(scripts, |a|))
    decreases |a|
  {
    if a == [] {
      assert a + b == b;
    } else {
      assert (a + b)[1..] == a[1..] + b;
      TopSplits(option, ExecTop(option, m, a[0], Head(scripts)), a[1..], b, Tail(scripts));
    }
  }

  const INERT := Expression(OtherExpr([]))

  /** The body as the watch sees it: a guard writes no variable, and no field but its own. */
  function Lowered(option: string, body: seq<Stmt>): seq<Stmt> {
    seq(|body|, i requires 0 <= i < |body| => if IsGuard(option, body[i]) then INERT else body[i])
  }

  lemma LoweredTail(option: string, body: seq<Stmt>)
    requires body != []
    ensures Lowered(option, body)[1..] == Lowered(option, body[1..])
  {
  }

  lemma FireOnCell(option: string, m: Memory, s: Stmt, t: Target, here: bool, c: nat)
    requires Sane(m) && IsGuard(option, s) && m.exit == Through && Holds(option, m, t, here, c)
    ensures Agrees(option, m, Fire(option, m, s), KEEP, t, here, c)
  {
  }

  lemma ExecTopOnCell(option: string, m: Memory, s: Stmt, script: Script, t: Target, here: bool, c: nat)
    requires Sane(m) && m.exit == Through && Holds(option, m, t, here, c)
    ensures var first := if IsGuard(option, s) then INERT else s;
      Agrees(option, m, ExecTop(option, m, s, script), WatchStmt(t, here, first, script), Next(t, here, first), here, c)
  {
    if IsGuard(option, s) {
      FireOnCell(option, m, s, t, here, c);
    } else {
      ExecOnCell(option, m, s, script, t, here, c);
    }
  }

  lemma {:induction false} TopOnCell(
    option: string, m: Memory, body: seq<Stmt>, scripts: seq<Script>, t: Target, here: bool, c: nat)
    requires Sane(m) && m.exit == Through && Holds(option, m, t, here, c)
    ensures Agrees(option, m, RunTop(option, m, body, scripts), Watch(t, here, Lowered(option, body), scripts),
                   After(t, here, Lowered(option, body)), here, c)
    decreases |body|
  {
    if body != [] {
      LoweredTail(option, body);
      ExecTopOnCell(option, m, body[0], Head(scripts), t, here, c);
      var next := ExecTop(option, m, body[0], Head(scripts));
      if next.exit == Through {
        TopOnCell(option, next, body[1..], Tail(scripts), Next(t, here, Lowered(option, body)[0]), here, c);
      } else {
        StoppedTop(option, next, body[1..], Tail(scripts));
      }
    }
  }

  /** No statement of the body itself guards the field. */
  predicate Unguarded(option: string, body: seq<Stmt>, field: string) {
    forall k :: 0 <= k < |body| ==> !Guards(body[k], option, field)
  }

  lemma FireOnField(option: string, m: Memory, s: Stmt, t: Target, here: bool, field: string, bound: nat)
    requires IsGuard(option, s) && !Guards(s, option, field) && Watchable(option, m, t, here, field, bound)
    ensures FieldAgrees(option, m, Fire(option, m, s), KEEP, t, here, field, bound)
  {
  }

  lemma {:induction false} DetachedTop(option: string, m: Memory, body: seq<Stmt>, scripts: seq<Script>, bound: nat)
    requires Sane(m) && LocalsBeyond(m, bound) && !m.attached
    ensures FieldsSafe(m, RunTop(option, m, body, scripts), bound)
    decreases |body|
  {
    if body != [] {
      if !IsGuard(option, body[0]) {
        DetachedExec(option, m, body[0], Head(scripts), bound);
      } else if m.exit != Through {
        DetachedExec(option, m, body[0], Head(scripts), bound);
      }
      DetachedTop(option, ExecTop(option, m, body[0], Head(scripts)), body[1..], Tail(scripts), bound);
    }
  }

  lemma TopOver(option: string, m: Memory, o: Outcome, t: Target, here: bool, body: seq<Stmt>, scripts: seq<Script>,
                before: Memory, field: string, bound: nat)
    requires Sane(m) && FieldAgrees(option, before, m, o, t, here, field, bound) && o.exit != Through
    ensures var r := RunTop(option, m, body, scripts);
      LocalsBeyond(r, bound) && r.fields == m.fields && r.attached == m.attached && (m.attached ==> r.exit == m.exit)
  {
    if m.attached {
      StoppedTop(option, m, body, scripts);
    } else {
      DetachedTop(option, m, body, scripts, bound);
    }
  }

  lemma {:induction false} TopOnField(
    option: string, m: Memory, body: seq<Stmt>, scripts: seq<Script>, t: Target, here: bool, field: string, bound: nat)
    requires Watchable(option, m, t, here, field, bound) && Unguarded(option, body, field)
    ensures FieldAgrees(option, m, RunTop(option, m, body, scripts), Watch(t, here, Lowered(option, body), scripts),
                        After(t, here, Lowered(option, body)), here, field, bound)
    decreases |body|
  {
    if body != [] {
      LoweredTail(option, body);
      var first := Lowered(option, body)[0];
      var next, a := ExecTop(option, m, body[0], Head(scripts)), WatchStmt(t, here, first, Head(scripts));
      var inner := Next(t, here, first);
      if IsGuard(option, body[0]) {
        FireOnField(option, m, body[0], t, here, field, bound);
      } else {
        ExecOnField(option, m, body[0], Head(scripts), t, here, field, bound);
      }
      assert FieldAgrees(option, m, next, a, inner, here, field, bound);
      if a.exit == Through {
        TopOnField(option, next, body[1..], Tail(scripts), inner, here, field, bound);
      } else {
        TopOver(option, next, a, inner, here, body[1..], Tail(scripts), m, field, bound);
      }
      FieldSequence(option, m, next, RunTop(option, next, body[1..], Tail(scripts)), a,
                    Watch(inner, here, Lowered(option, body[1..]), Tail(scripts)),
                    inner, After(t, here, Lowered(option, body)), here, field, bound);
    }
  }

  // ---- The cell whose address the guard hands out ---------------------------

  predicate Binds(s: Stmt, x: string) {
    s.Assignment? && Ident(x) in s.lhs
  }

  function FirstBinding(body: seq<Stmt>, n: nat, x: string, defining: bool): Option<nat>
    requires n <= |body|
  {
    if n == 0 then None
    else
      var before := FirstBinding(body, n - 1, x, defining);
      if before.Some? then before
      else if Binds(body[n - 1], x) && (defining ==> Defines(body[n - 1].op)) then Some(n - 1) else None
  }

  lemma {:induction false} FirstBindingIsFirst(body: seq<Stmt>, n: nat, x: string, defining: bool)
    requires n <= |body|
    ensures var j := FirstBinding(body, n, x, defining);
      && (j.Some? ==> j.value < n && Binds(body[j.value], x) && (defining ==> Defines(body[j.value].op)))
      && forall k :: 0 <= k < (if j.Some? then j.value else n) && Binds(body[k], x) ==> defining && !Defines(body[k].op)
  {
    if n > 0 {
      FirstBindingIsFirst(body, n - 1, x, defining);
    }
  }

  /**
   The statement that creates the cell the variable has after the first `n`
   statements: its definition, or its first assignment where it is defined elsewhere.
   */
  function Birth(body: seq<Stmt>, n: nat, x: string): Option<nat>
    requires n <= |body|
  {
    var defined := FirstBinding(body, n, x, true);
    if defined.Some? then defined else FirstBinding(body, n, x, false)
  }

  /** What is known of the variable's name on arrival at statement `j`. */
  predicate Unborn(m: Memory, x: string, defining: bool) {
    x !in m.local && (!defining ==> x !in m.env)
  }

  lemma {:induction false} AllKeepUnborn(
    option: string, m: Memory, s: Stmt, n: nat, values: seq<bool>, x: string, defining: bool)
    requires Sane(m) && s.Assignment? && n <= |s.lhs| && Unborn(m, x, defining)
    requires !Named(x, s, n) || (defining && !Defines(s.op))
    ensures Unborn(StoreAll(option, m, s, n, values), x, defining)
  {
    if n > 0 {
      AllKeepUnborn(option, m, s, n - 1, values, x, defining);
    }
  }

  lemma {:induction false} TopKeepsUnborn(
    option: string, m: Memory, body: seq<Stmt>, scripts: seq<Script>, x: string, defining: bool)
    requires Sane(m) && Unborn(m, x, defining)
    requires forall k :: 0 <= k < |body| && Binds(body[k], x) ==> defining && !Defines(body[k].op)
    ensures Unborn(RunTop(option, m, body, scripts), x, defining)
    decreases |body|
  {
    if body != [] {
      var s := body[0];
      if m.exit == Through && s.Assignment? {
        NamedIsMembership(x, s, |s.lhs|);
        assert s.lhs[..|s.lhs|] == s.lhs;
        AllKeepUnborn(option, m, s, |s.lhs|, Head(scripts).values, x, defining);
      } else if m.exit == Through && !IsGuard(option, s) {
        NestedKeepsNames(option, m, s, Head(scripts));
      }
      TopKeepsUnborn(option, ExecTop(option, m, s, Head(scripts)), body[1..], Tail(scripts), x, defining);
    }
  }

  /** Only assignments of the body itself change the visible names. */
  lemma {:induction false} NestedKeepsNames(option: string, m: Memory, s: Stmt, script: Script)
    requires Sane(m) && !s.Assignment?
    ensures Exec(option, m, s, script).env == m.env && Exec(option, m, s, script).local == m.local
  {
    if m.exit == Through && s.Loop? {
      RoundsKeepNames(option, m, s.body, script.blocks);
    }
  }

  lemma {:induction false} RoundsKeepNames(option: string, m: Memory, body: seq<Stmt>, rounds: seq<seq<Script>>)
    requires Sane(m)
    ensures Rounds(option, m, body, rounds).env == m.env && Rounds(option, m, body, rounds).local == m.local
    decreases |rounds|
  {
    if rounds != [] {
      var round := Restored(Run(option, Enter(m), body, rounds[0]), m);
      RoundsKeepNames(option, round.(exit := Through), body, rounds[1..]);
    }
  }

  /** The variable has a cell of its own that the caller does not know, with that value. */
  predicate Born(option: string, m: Memory, r: Memory, x: string, here: bool, value: bool) {
    x in r.env && r.env[x] >= |m.heap| && CellIs(option, r, Var(x), here, r.env[x], value)
  }

  lemma BindIsBorn(option: string, m: Memory, before: Memory, op: Op, x: string, value: bool)
    requires Sane(before) && x != option && |before.heap| >= |m.heap| && Unborn(before, x, Defines(op))
    ensures Born(option, m, StoreVar(option, before, op, x, value), x, Defines(op), value)
  {
  }

  lemma BornStep(option: string, m: Memory, before: Memory, s: Stmt, i: nat, chosen: bool, x: string, value: bool)
    requires Sane(m) && Sane(before) && s.Assignment? && i < |s.lhs| && Born(option, m, before, x, Defines(s.op), value)
    ensures Born(option, m, Store(option, m, before, s, i, chosen), x, Defines(s.op),
                 if s.lhs[i] == Ident(x) then GetOr(Known(Var(x), s, i), chosen) else value)
  {
    StoreOnCell(option, m, before, s, i, chosen, Var(x), Defines(s.op), before.env[x]);
  }

  lemma BirthStep(option: string, m: Memory, before: Memory, s: Stmt, i: nat, chosen: bool, x: string)
    requires Sane(before) && s.Assignment? && i < |s.lhs| && s.lhs[i] == Ident(x)
    requires x != option && |before.heap| >= |m.heap| && Unborn(before, x, Defines(s.op))
    ensures Born(option, m, Store(option, m, before, s, i, chosen), x, Defines(s.op),
      GetOr(Known(Var(x), s, i), chosen))
  {
    BindIsBorn(option, m, before, s.op, x, Stored(s, i, chosen));
  }

  lemma {:induction false} BornByAll(option: string, m: Memory, s: Stmt, n: nat, values: seq<bool>, x: string)
    requires Sane(m) && s.Assignment? && n <= |s.lhs| && x != option && Unborn(m, x, Defines(s.op)) && Named(x, s, n)
    ensures LastValue(Var(x), s, n, values).Some?
    ensures Born(option, m, StoreAll(option, m, s, n, values), x, Defines(s.op), LastValue(Var(x), s, n, values).value)
  {
    var before := StoreAll(option, m, s, n - 1, values);
    if Named(x, s, n - 1) {
      BornByAll(option, m, s, n - 1, values, x);
      BornStep(option, m, before, s, n - 1, Chosen(values, n - 1), x, LastValue(Var(x), s, n - 1, values).value);
    } else {
      AllKeepUnborn(option, m, s, n - 1, values, x, Defines(s.op));
      BirthStep(option, m, before, s, n - 1, Chosen(values, n - 1), x);
    }
  }

  /** The value that the creating statement writes. */
  function BirthValue(s: Stmt, x: string, script: Script): bool
    requires s.Assignment?
  {
    GetOr(LastValue(Var(x), s, |s.lhs|, script.values), false)
  }

  lemma BornByExec(option: string, m: Memory, s: Stmt, script: Script, x: string)
    requires Sane(m) && m.exit == Through && Binds(s, x) && x != option && Unborn(m, x, Defines(s.op))
    ensures Born(option, m, ExecTop(option, m, s, script), x, Defines(s.op), BirthValue(s, x, script))
    ensures ExecTop(option, m, s, script).exit == Through
  {
    NamedIsMembership(x, s, |s.lhs|);
    assert s.lhs[..|s.lhs|] == s.lhs;
    BornByAll(option, m, s, |s.lhs|, script.values, x);
  }

  /** The last value of the cell over the whole run. */
  function FinalWatch(option: string, body: seq<Stmt>, j: nat, x: string, scripts: seq<Script>): Outcome
    requires j < |body| && body[j].Assignment?
  {
    AndThen(Outcome(Some(BirthValue(body[j], x, Head(Drop(scripts, j)))), Through),
            Watch(Var(x), Defines(body[j].op), Lowered(option, body[j + 1..]), Drop(scripts, j + 1)))
  }

  /** Everything the cell can hold at the end. */
  function FinalOutcomes(option: string, body: seq<Stmt>, j: nat, x: string): set<Outcome>
    requires j < |body| && Binds(body[j], x)
  {
    LastHitHits(Var(x), body[j], |body[j].lhs|);
    var hit := LastHit(Var(x), body[j], |body[j].lhs|);
    Then(Written(ValuesOf(if hit.Some? then Known(Var(x), body[j], hit.value) else None), Through),
         Outcomes(Var(x), Defines(body[j].op), Lowered(option, body[j + 1..])))
  }

  lemma FinalWatchIsAnOutcome(option: string, body: seq<Stmt>, j: nat, x: string, scripts: seq<Script>)
    requires j < |body| && Binds(body[j], x)
    ensures FinalWatch(option, body, j, x, scripts) in FinalOutcomes(option, body, j, x)
  {
    var s, script := body[j], Head(Drop(scripts, j));
    LastHitHits(Var(x), s, |s.lhs|);
    LastValueIsTheHit(Var(x), s, |s.lhs|, script.values);
    var hit := LastHit(Var(x), s, |s.lhs|).value;
    WrittenHolds(Known(Var(x), s, hit), Chosen(script.values, hit), Through);
    WatchIsAnOutcome(Var(x), Defines(s.op), Lowered(option, body[j + 1..]), Drop(scripts, j + 1));
  }

  lemma ReachFinal(option: string, body: seq<Stmt>, j: nat, x: string, o: Outcome) returns (scripts: seq<Script>)
    requires j < |body| && Binds(body[j], x) && o in FinalOutcomes(option, body, j, x)
    ensures FinalWatch(option, body, j, x, scripts) == o
  {
    var s := body[j];
    LastHitHits(Var(x), s, |s.lhs|);
    var hit := LastHit(Var(x), s, |s.lhs|).value;
    var rest := Lowered(option, body[j + 1..]);
    var a, b :| a in Written(ValuesOf(Known(Var(x), s, hit)), Through) && b in Outcomes(Var(x), Defines(s.op), rest)
      && o == AndThen(a, b);
    var script := IDLE.(values := seq(hit + 1, k => a.last == Some(true)));
    var later := Reach(Var(x), Defines(s.op), rest, b);
    LastValueIsTheHit(Var(x), s, |s.lhs|, script.values);
    scripts := Idle(j) + ([script] + later);
    DropIdle(j, script, later);
  }

  lemma {:induction false} NotHidden(t: Target, here: bool, stmts: seq<Stmt>)
    requires t.Var? && (here || forall k :: 0 <= k < |stmts| && Binds(stmts[k], t.name) ==> !Defines(stmts[k].op))
    ensures After(t, here, stmts) == t
    decreases |stmts|
  {
    if stmts != [] {
      assert Binds(stmts[0], t.name) ==> here || !Defines(stmts[0].op);
      NotHidden(t, here, stmts[1..]);
    }
  }

  /** The body in three parts, and where the run stands between them. */
  lemma RunParts(option: string, m: Memory, body: seq<Stmt>, scripts: seq<Script>, j: nat)
    requires Sane(m) && j < |body|
    ensures var before := RunTop(option, m, body[..j], scripts);
      var next := ExecTop(option, before, body[j], Head(Drop(scripts, j)));
      RunTop(option, m, body, scripts) == RunTop(option, next, body[j + 1..], Drop(scripts, j + 1))
  {
    assert body == body[..j] + body[j..] && body[j..][0] == body[j] && body[j..][1..] == body[j + 1..];
    TopSplits(option, m, body[..j], body[j..], scripts);
    DropNext(scripts, j);
  }

  // ---- What the reader knows -------------------------------------------------

  function GuardIndex(option: string, body: seq<Stmt>, n: nat, field: string): Option<nat>
    requires n <= |body|
  {
    if n == 0 then None
    else if Guards(body[n - 1], option, field) then Some(n - 1)
    else GuardIndex(option, body, n - 1, field)
  }

  lemma {:induction false} GuardIndexIsLast(option: string, body: seq<Stmt>, n: nat, field: string)
    requires n <= |body|
    ensures var g := GuardIndex(option, body, n, field);
      && (g.Some? ==> g.value < n && Guards(body[g.value], option, field))
      && forall k :: (if g.Some? then g.value + 1 else 0) <= k < n ==> !Guards(body[k], option, field)
  {
    if n > 0 {
      GuardIndexIsLast(option, body, n - 1, field);
    }
  }

  /** The value that was read is a literal assigned by the body itself. */
  lemma {:induction false} ReadVariablesAreLiterals(
    option: string, fields: map<string, string>, body: seq<Stmt>, n: nat, x: string)
    requires n <= |body| && ReadBody(option, fields, body[..n]).Ok?
    requires x in ReadBody(option, fields, body[..n]).value.vars
    ensures exists k :: (
      && 0 <= k < n && body[k].Assignment? && body[k].op != OtherOp && body[k].lhs == [Ident(x)] && |body[k].rhs| == 1
      && Literal(body[k].rhs[0]) == Some(ReadBody(option, fields, body[..n]).value.vars[x]))
  {
    if n > 0 {
      assert body[..n][..n - 1] == body[..n - 1];
      ReadNext(option, fields, body, n - 1);
      var s := body[n - 1];
      if s.Assignment? && s.op != Declare && |s.lhs| == 1 && |s.rhs| == 1 && s.lhs[0] == Ident(x)
        && Literal(s.rhs[0]).Some?
      {
        assert s.lhs == [Ident(x)];
      } else {
        ReadVariablesAreLiterals(option, fields, body, n - 1, x);
      }
    }
  }

  /** The default of a field comes from its one guard and the variable as read up to there. */
  ghost predicate ReadAt(
    option: string, fields: map<string, string>, body: seq<Stmt>, field: string, value: bool, g: nat)
    requires g < |body|
  {
    && Guards(body[g], option, field) && GuardIndex(option, body, g, field).None?
    && ReadBody(option, fields, body[..g]).Ok?
    && var x := GuardVariable(body[g], option, field);
    && x.Some? && x.value in ReadBody(option, fields, body[..g]).value.vars
    && ReadBody(option, fields, body[..g]).value.vars[x.value] == value
  }

  lemma {:induction false} DefaultComesFromGuard(
    option: string, fields: map<string, string>, body: seq<Stmt>, n: nat, field: string)
    requires n <= |body| && Injective(fields) && field in fields && ReadBody(option, fields, body[..n]).Ok?
    ensures var r, g := ReadBody(option, fields, body[..n]).value, GuardIndex(option, body, n, field);
      && (fields[field] in r.defaults <==> g.Some?)
      && (g.Some? ==> g.value < n && ReadAt(option, fields, body, field, r.defaults[fields[field]], g.value))
  {
    if n > 0 {
      assert body[..n][..n - 1] == body[..n - 1];
      DefaultComesFromGuard(option, fields, body, n - 1, field);
      ReadNext(option, fields, body, n - 1);
    }
  }

  // ---- Soundness -------------------------------------------------------------

  /** A nil field gets the value; a set field keeps its cell and its value. */
  predicate AppliesDefault(m: Memory, r: Memory, field: string, value: bool) {
    match FieldAt(m, field)
    case None => FieldAt(r, field).Some? && FieldAt(r, field).value < |r.heap|
      && r.heap[FieldAt(r, field).value] == value
    case Some(c) => FieldAt(r, field) == Some(c) && c < |m.heap| && c < |r.heap| && r.heap[c] == m.heap[c]
  }

  /** Whatever the caller's struct, the conditions, the loop counts and the unknown values. */
  ghost predicate Sound(option: string, body: seq<Stmt>, field: string, value: bool) {
    forall m: Memory, scripts: seq<Script> | Entry(option, m) ::
      AppliesDefault(m, RunTop(option, m, body, scripts), field, value)
  }

  /** Control always reaches the guard, with the field and the parameter as they were. */
  predicate ReachesGuard(option: string, body: seq<Stmt>, field: string, g: nat)
    requires g <= |body|
  {
    forall o <- Outcomes(Pointer(option, field), true, Lowered(option, body[..g])) :: o == KEEP
  }

  /** After the guard nothing writes the field. */
  predicate LeavesField(option: string, body: seq<Stmt>, field: string, g: nat)
    requires g < |body|
  {
    forall o <- Outcomes(Pointer(option, field), true, Lowered(option, body[g + 1..])) :: o.last.None?
  }

  /** Whatever is written last to the cell that the guard hands out, it is the value. */
  predicate EndsWith(option: string, body: seq<Stmt>, x: string, g: nat, value: bool)
    requires g <= |body|
  {
    var j := Birth(body, g, x);
    && j.Some? && j.value < |body| && Binds(body[j.value], x)
    && forall o <- FinalOutcomes(option, body, j.value, x) :: o.last == Some(value)
  }

  /** What to look for in the source, at every depth. */
  predicate Stable(option: string, body: seq<Stmt>, field: string, value: bool) {
    var g := GuardIndex(option, body, |body|, field);
    && g.Some? && g.value < |body|
    && var x := GuardVariable(body[g.value], option, field);
    && x.Some?
    && ReachesGuard(option, body, field, g.value) && LeavesField(option, body, field, g.value)
    && EndsWith(option, body, x.value, g.value, value)
  }

  /** The one guard of a field that was read. */
  predicate OneGuard(option: string, body: seq<Stmt>, field: string, g: nat, x: string) {
    && g < |body| && IsGuard(option, body[g]) && Guards(body[g], option, field)
    && GuardVariable(body[g], option, field) == Some(x)
    && Unguarded(option, body[..g], field) && Unguarded(option, body[g + 1..], field)
    && exists k :: 0 <= k < g && Binds(body[k], x)
  }

  lemma EntryIsWatchable(option: string, m: Memory, field: string)
    requires Entry(option, m)
    ensures Watchable(option, m, Pointer(option, field), true, field, |m.heap|)
  {
  }

  /** Up to the guard. */
  lemma ArriveAtGuard(
    option: string, body: seq<Stmt>, field: string, g: nat, x: string, m: Memory, scripts: seq<Script>)
    requires OneGuard(option, body, field, g, x) && Entry(option, m)
    ensures var p, o :=
      RunTop(option, m, body[..g], scripts), Watch(Pointer(option, field), true, Lowered(option, body[..g]), scripts);
      FieldAgrees(option, m, p, o, After(Pointer(option, field), true, Lowered(option, body[..g])), true, field,
        |m.heap|)
  {
    EntryIsWatchable(option, m, field);
    TopOnField(option, m, body[..g], scripts, Pointer(option, field), true, field, |m.heap|);
  }

  /** The guard and everything after it, once control got there with the parameter intact. */
  lemma FieldAfterGuard(
    option: string, body: seq<Stmt>, field: string, g: nat, x: string, m: Memory, p: Memory, scripts: seq<Script>)
    requires OneGuard(option, body, field, g, x) && Watchable(option, p, Pointer(option, field), true, field, |m.heap|)
    requires x in p.env
    ensures var q := Fire(option, p, body[g]);
      var r, o := RunTop(option, q, body[g + 1..], scripts),
        Watch(Pointer(option, field), true, Lowered(option, body[g + 1..]), scripts);
      if o.last.Some? then Beyond(r, field, |m.heap|)
      else FieldAt(r, field) == if FieldAt(p, field).Some? then FieldAt(p, field) else Some(p.env[x])
  {
    var q := Fire(option, p, body[g]);
    TopOnField(option, q, body[g + 1..], scripts, Pointer(option, field), true, field, |m.heap|);
  }

  /** A field that points away from the caller's cells never comes back. */
  lemma LostForGood(
    option: string, body: seq<Stmt>, field: string, g: nat, x: string, m: Memory, p: Memory, scripts: seq<Script>)
    requires OneGuard(option, body, field, g, x) && Sane(p) && LocalsBeyond(p, |m.heap|) && Beyond(p, field, |m.heap|)
    requires p.attached && p.exit == Through ==> Sees(option, p, Pointer(option, field), true, field)
    ensures Beyond(RunTop(option, p, body[g..], scripts), field, |m.heap|)
  {
    assert body[g..][0] == body[g] && body[g..][1..] == body[g + 1..];
    if p.exit != Through {
      StoppedTop(option, p, body[g..], scripts);
    } else if !p.attached {
      DetachedTop(option, p, body[g..], scripts, |m.heap|);
    } else {
      var q := Fire(option, p, body[g]);
      TopOnField(option, q, body[g + 1..], Tail(scripts), Pointer(option, field), true, field, |m.heap|);
    }
  }

  lemma BirthFacts(body: seq<Stmt>, g: nat, x: string)
    requires g <= |body| && exists k :: 0 <= k < g && Binds(body[k], x)
    ensures var j := Birth(body, g, x);
      && j.Some? && j.value < g && Binds(body[j.value], x)
      && (forall k :: 0 <= k < j.value && Binds(body[k], x) ==> Defines(body[j.value].op) && !Defines(body[k].op))
      && (!Defines(body[j.value].op) ==> forall k :: 0 <= k < g && Binds(body[k], x) ==> !Defines(body[k].op))
  {
    FirstBindingIsFirst(body, g, x, true);
    FirstBindingIsFirst(body, g, x, false);
  }

  /** The memory right after the cell was created. */
  function AtBirth(option: string, body: seq<Stmt>, j: nat, m: Memory, scripts: seq<Script>): (r: Memory)
    requires j < |body| && Sane(m)
    ensures Sane(r)
  {
    ExecTop(option, RunTop(option, m, body[..j], scripts), body[j], Head(Drop(scripts, j)))
  }

  /** From its creation up to statement `n`, the cell goes its own way. */
  lemma CellUpTo(option: string, body: seq<Stmt>, n: nat, x: string, j: nat, m: Memory, scripts: seq<Script>)
    requires j < n <= |body| && Binds(body[j], x) && Sane(m)
    requires var next := AtBirth(option, body, j, m, scripts);
      next.exit == Through && x in next.env && Holds(option, next, Var(x), Defines(body[j].op), next.env[x])
    ensures var next, here := AtBirth(option, body, j, m, scripts), Defines(body[j].op);
      var rest := Lowered(option, body[j + 1..n]);
      Agrees(option, next, RunTop(option, m, body[..n], scripts), Watch(Var(x), here, rest, Drop(scripts, j + 1)),
             After(Var(x), here, rest), here, next.env[x])
  {
    assert body[..n][..j] == body[..j] && body[..n][j + 1..] == body[j + 1..n];
    RunParts(option, m, body[..n], scripts, j);
    var next := AtBirth(option, body, j, m, scripts);
    TopOnCell(option, next, body[j + 1..n], Drop(scripts, j + 1), Var(x), Defines(body[j].op), next.env[x]);
  }

  lemma BornInRun(option: string, body: seq<Stmt>, g: nat, x: string, j: nat, m: Memory, scripts: seq<Script>)
    requires j < g < |body| && x != option && Entry(option, m) && Binds(body[j], x)
    requires forall k :: 0 <= k < j && Binds(body[k], x) ==> Defines(body[j].op) && !Defines(body[k].op)
    requires RunTop(option, m, body[..g], scripts).exit == Through
    ensures var next := AtBirth(option, body, j, m, scripts);
      next.exit == Through
        && Born(option, m, next, x, Defines(body[j].op), BirthValue(body[j], x, Head(Drop(scripts, j))))
  {
    BeforeBirth(option, body, g, x, j, m, scripts);
    BornByExec(option, RunTop(option, m, body[..j], scripts), body[j], Head(Drop(scripts, j)), x);
  }

  /** At the end of the run the cell holds what the watch says. */
  lemma CellAtEnd(option: string, body: seq<Stmt>, x: string, j: nat, m: Memory, scripts: seq<Script>)
    requires j < |body| && Binds(body[j], x) && Sane(m)
    requires var next := AtBirth(option, body, j, m, scripts);
      next.exit == Through
        && Born(option, m, next, x, Defines(body[j].op), BirthValue(body[j], x, Head(Drop(scripts, j))))
    ensures var c, r := AtBirth(option, body, j, m, scripts).env[x], RunTop(option, m, body, scripts);
      c < |r.heap| && FinalWatch(option, body, j, x, scripts).last == Some(r.heap[c])
  {
    CellUpTo(option, body, |body|, x, j, m, scripts);
    assert body[..|body|] == body && body[j + 1..|body|] == body[j + 1..];
  }

  /** At the guard the cell is still the variable's. */
  lemma CellAtGuard(option: string, body: seq<Stmt>, g: nat, x: string, j: nat, m: Memory, scripts: seq<Script>)
    requires j < g <= |body| && Binds(body[j], x) && Sane(m)
    requires !Defines(body[j].op) ==> forall k :: 0 <= k < g && Binds(body[k], x) ==> !Defines(body[k].op)
    requires var next := AtBirth(option, body, j, m, scripts);
      next.exit == Through
        && Born(option, m, next, x, Defines(body[j].op), BirthValue(body[j], x, Head(Drop(scripts, j))))
    requires RunTop(option, m, body[..g], scripts).exit == Through
    ensures var p := RunTop(option, m, body[..g], scripts);
      x in p.env && p.env[x] == AtBirth(option, body, j, m, scripts).env[x]
  {
    CellUpTo(option, body, g, x, j, m, scripts);
    StaysNamed(option, body, g, x, j);
  }

  /** The cell that the guard hands out, from its creation to the end of the run. */
  lemma CellStory(option: string, body: seq<Stmt>, g: nat, x: string, m: Memory, scripts: seq<Script>)
    requires g < |body| && x != option && Entry(option, m) && exists k :: 0 <= k < g && Binds(body[k], x)
    requires RunTop(option, m, body[..g], scripts).exit == Through
    ensures var p, r := RunTop(option, m, body[..g], scripts), RunTop(option, m, body, scripts);
      var j := (BirthFacts(body, g, x); Birth(body, g, x).value);
      var o := FinalWatch(option, body, j, x, scripts);
      && x in p.env && |m.heap| <= p.env[x] < |r.heap| && o.last == Some(r.heap[p.env[x]])
  {
    BirthFacts(body, g, x);
    var j := Birth(body, g, x).value;
    BornInRun(option, body, g, x, j, m, scripts);
    CellAtGuard(option, body, g, x, j, m, scripts);
    CellAtEnd(option, body, x, j, m, scripts);
  }

  lemma BeforeBirth(option: string, body: seq<Stmt>, g: nat, x: string, j: nat, m: Memory, scripts: seq<Script>)
    requires j < g < |body| && x != option && Entry(option, m) && Binds(body[j], x)
    requires forall k :: 0 <= k < j && Binds(body[k], x) ==> Defines(body[j].op) && !Defines(body[k].op)
    requires RunTop(option, m, body[..g], scripts).exit == Through
    ensures var b := RunTop(option, m, body[..j], scripts); b.exit == Through && Unborn(b, x, Defines(body[j].op))
  {
    var b := RunTop(option, m, body[..j], scripts);
    assert body[..g] == body[..j] + body[j..g];
    TopSplits(option, m, body[..j], body[j..g], scripts);
    if b.exit != Through {
      StoppedTop(option, b, body[j..g], Drop(scripts, j));
    }
    assert forall k :: 0 <= k < j ==> body[..j][k] == body[k];
    TopKeepsUnborn(option, m, body[..j], scripts, x, Defines(body[j].op));
  }

  lemma StaysNamed(option: string, body: seq<Stmt>, g: nat, x: string, j: nat)
    requires j < g <= |body| && Binds(body[j], x)
    requires !Defines(body[j].op) ==> forall k :: 0 <= k < g && Binds(body[k], x) ==> !Defines(body[k].op)
    ensures After(Var(x), Defines(body[j].op), Lowered(option, body[j + 1..g])) == Var(x)
  {
    var rest := Lowered(option, body[j + 1..g]);
    assert forall k :: 0 <= k < |rest| && Binds(rest[k], x) ==> rest[k] == body[k + j + 1];
    NotHidden(Var(x), Defines(body[j].op), rest);
  }

  /** Assigning the parameter keeps control from reaching the guard with the parameter intact. */
  lemma ReassigningDetaches(option: string, body: seq<Stmt>, field: string, g: nat, k: nat)
    requires k < g <= |body|
    ensures Binds(body[k], option) ==> !ReachesGuard(option, body, field, g)
  {
    var t, low := Pointer(option, field), Lowered(option, body[..g]);
    WatchIsAnOutcome(t, true, low, []);
    assert low == low[..k] + low[k..] && low[k..][0] == low[k];
    WatchSplits(t, true, low[..k], low[k..], []);
    StaysVisible(t, low[..k]);
    assert Binds(body[k], option) ==> low[k] == body[k] && Detaches(t, body[k]);
  }

  // ---- The conditions suffice ------------------------------------------------

  lemma ConditionsSuffice(
    option: string, body: seq<Stmt>, field: string, g: nat, x: string, value: bool, m: Memory, scripts: seq<Script>)
    requires OneGuard(option, body, field, g, x) && Entry(option, m)
    requires ReachesGuard(option, body, field, g) && LeavesField(option, body, field, g)
      && EndsWith(option, body, x, g, value)
    ensures AppliesDefault(m, RunTop(option, m, body, scripts), field, value)
  {
    var r := RunTop(option, m, body, scripts);
    FieldAtTheEnd(option, body, field, g, x, m, scripts);
    match FieldAt(m, field) {
      case None =>
        BirthFacts(body, g, x);
        FinalWatchIsAnOutcome(option, body, Birth(body, g, x).value, x, scripts);
      case Some(c) =>
        CallersCellStays(option, body, m, scripts, c);
    }
  }

  /** Control reaches the guard with everything in place. */
  lemma AtTheGuard(option: string, body: seq<Stmt>, field: string, g: nat, x: string, m: Memory, scripts: seq<Script>)
    requires OneGuard(option, body, field, g, x) && Entry(option, m) && ReachesGuard(option, body, field, g)
    ensures x != option
    ensures var p := RunTop(option, m, body[..g], scripts);
      Watchable(option, p, Pointer(option, field), true, field, |m.heap|) && FieldAt(p, field) == FieldAt(m, field)
  {
    ArriveAtGuard(option, body, field, g, x, m, scripts);
    WatchIsAnOutcome(Pointer(option, field), true, Lowered(option, body[..g]), scripts);
    StaysVisible(Pointer(option, field), Lowered(option, body[..g]));
    var k :| 0 <= k < g && Binds(body[k], x);
    ReassigningDetaches(option, body, field, g, k);
  }

  /** What the field is at the end, as the watch of the statements after the guard says. */
  lemma FieldAtTheEnd(
    option: string, body: seq<Stmt>, field: string, g: nat, x: string, m: Memory, scripts: seq<Script>)
    requires OneGuard(option, body, field, g, x) && Entry(option, m) && ReachesGuard(option, body, field, g)
    ensures var r := RunTop(option, m, body, scripts);
      var o := Watch(Pointer(option, field), true, Lowered(option, body[g + 1..]), Drop(scripts, g + 1));
      var final := FinalWatch(option, body, (BirthFacts(body, g, x); Birth(body, g, x).value), x, scripts);
      && (o in Outcomes(Pointer(option, field), true, Lowered(option, body[g + 1..])))
      && (o.last.Some? ==> Beyond(r, field, |m.heap|))
      && (o.last.None? && FieldAt(m, field).Some? ==> FieldAt(r, field) == FieldAt(m, field))
      && (o.last.None? && FieldAt(m, field).None? ==>
        FieldAt(r, field).Some? && FieldAt(r, field).value < |r.heap|
          && final.last == Some(r.heap[FieldAt(r, field).value]))
  {
    AtTheGuard(option, body, field, g, x, m, scripts);
    CellStory(option, body, g, x, m, scripts);
    var p := RunTop(option, m, body[..g], scripts);
    RunParts(option, m, body, scripts, g);
    FieldAfterGuard(option, body, field, g, x, m, p, Drop(scripts, g + 1));
    WatchIsAnOutcome(Pointer(option, field), true, Lowered(option, body[g + 1..]), Drop(scripts, g + 1));
  }

  lemma CallersCellStays(option: string, body: seq<Stmt>, m: Memory, scripts: seq<Script>, c: nat)
    requires Entry(option, m) && c < |m.heap|
    ensures c < |RunTop(option, m, body, scripts).heap| && RunTop(option, m, body, scripts).heap[c] == m.heap[c]
  {
    TopOnCell(option, m, body, scripts, Nothing, true, c);
    NothingIsNeverTouched(Lowered(option, body));
    NothingTouched(Nothing, true, Lowered(option, body));
    WatchIsAnOutcome(Nothing, true, Lowered(option, body), scripts);
  }

  // ---- The conditions are needed ---------------------------------------------

  /** A caller whose struct has the field set, and one whose struct has not. */
  function SetCaller(option: string, field: string): Memory {
    Memory([true], map[], {option}, map[field := 0], true, Through)
  }

  function NilCaller(option: string): Memory {
    Memory([], map[], {option}, map[], true, Through)
  }

  lemma ReachingIsNeeded(option: string, body: seq<Stmt>, field: string, g: nat, x: string, value: bool)
    requires OneGuard(option, body, field, g, x) && !ReachesGuard(option, body, field, g)
    ensures !Sound(option, body, field, value)
  {
    var t, low := Pointer(option, field), Lowered(option, body[..g]);
    var o :| o in Outcomes(t, true, low) && o != KEEP;
    var scripts := Reach(t, true, low, o);
    assert body == body[..g] + body[g..];
    var m := if o.last.Some? then SetCaller(option, field) else NilCaller(option);
    var p := RunTop(option, m, body[..g], scripts);
    ArriveAtGuard(option, body, field, g, x, m, scripts);
    StaysVisible(t, low);
    TopSplits(option, m, body[..g], body[g..], scripts);
    if o.last.Some? {
      LostForGood(option, body, field, g, x, m, p, Drop(scripts, g));
    } else {
      TopOver(option, p, o, t, true, body[g..], Drop(scripts, g), m, field, |m.heap|);
    }
    assert Entry(option, m) && !AppliesDefault(m, RunTop(option, m, body, scripts), field, value);
  }

  lemma LeavingIsNeeded(option: string, body: seq<Stmt>, field: string, g: nat, x: string, value: bool)
    requires OneGuard(option, body, field, g, x) && ReachesGuard(option, body, field, g)
      && !LeavesField(option, body, field, g)
    ensures !Sound(option, body, field, value)
  {
    var t, low := Pointer(option, field), Lowered(option, body[g + 1..]);
    var o :| o in Outcomes(t, true, low) && o.last.Some?;
    var later := Reach(t, true, low, o);
    var scripts, m := Idle(g) + ([IDLE] + later), SetCaller(option, field);
    DropIdle(g, IDLE, later);
    FieldAtTheEnd(option, body, field, g, x, m, scripts);
    assert Entry(option, m) && !AppliesDefault(m, RunTop(option, m, body, scripts), field, value);
  }

  lemma EndingIsNeeded(option: string, body: seq<Stmt>, field: string, g: nat, x: string, value: bool)
    requires OneGuard(option, body, field, g, x) && ReachesGuard(option, body, field, g)
      && LeavesField(option, body, field, g)
    requires !EndsWith(option, body, x, g, value)
    ensures !Sound(option, body, field, value)
  {
    BirthFacts(body, g, x);
    var j := Birth(body, g, x).value;
    var o :| o in FinalOutcomes(option, body, j, x) && o.last != Some(value);
    var scripts := ReachFinal(option, body, j, x, o);
    var m := NilCaller(option);
    FieldAtTheEnd(option, body, field, g, x, m, scripts);
    assert Entry(option, m) && !AppliesDefault(m, RunTop(option, m, body, scripts), field, value);
  }

  lemma SoundIffConditions(option: string, body: seq<Stmt>, field: string, g: nat, x: string, value: bool)
    requires OneGuard(option, body, field, g, x)
    ensures Sound(option, body, field, value) <==>
      ReachesGuard(option, body, field, g) && LeavesField(option, body, field, g) && EndsWith(option, body, x, g, value)
  {
    if !ReachesGuard(option, body, field, g) {
      ReachingIsNeeded(option, body, field, g, x, value);
    } else if !LeavesField(option, body, field, g) {
      LeavingIsNeeded(option, body, field, g, x, value);
    } else if !EndsWith(option, body, x, g, value) {
      EndingIsNeeded(option, body, field, g, x, value);
    } else {
      forall m: Memory, scripts: seq<Script> | Entry(option, m)
        ensures AppliesDefault(m, RunTop(option, m, body, scripts), field, value)
      {
        ConditionsSuffice(option, body, field, g, x, value, m, scripts);
      }
    }
  }

  lemma ReadFieldHasOneGuard(option: string, fields: map<string, string>, body: seq<Stmt>, field: string)
    requires Injective(fields) && field in fields && ReadBody(option, fields, body).Ok?
    requires fields[field] in ReadBody(option, fields, body).value.defaults
    ensures var g := GuardIndex(option, body, |body|, field);
      && g.Some? && g.value < |body| && GuardVariable(body[g.value], option, field).Some?
      && OneGuard(option, body, field, g.value, GuardVariable(body[g.value], option, field).value)
  {
    assert body[..|body|] == body;
    DefaultComesFromGuard(option, fields, body, |body|, field);
    GuardIndexIsLast(option, body, |body|, field);
    var g := GuardIndex(option, body, |body|, field).value;
    GuardIndexIsLast(option, body, g, field);
    var x := GuardVariable(body[g], option, field).value;
    ReadVariablesAreLiterals(option, fields, body, g, x);
    var k :| 0 <= k < g && body[k].Assignment? && body[k].lhs == [Ident(x)];
    assert Ident(x) in body[k].lhs;
  }

  /** The value that was read is the value the scheduler will use exactly when the source is stable for the field. */
  lemma SoundIffStable(option: string, fields: map<string, string>, body: seq<Stmt>, field: string)
    requires Injective(fields) && field in fields && ReadBody(option, fields, body).Ok?
    requires fields[field] in ReadBody(option, fields, body).value.defaults
    ensures var value := ReadBody(option, fields, body).value.defaults[fields[field]];
      Sound(option, body, field, value) <==> Stable(option, body, field, value)
  {
    ReadFieldHasOneGuard(option, fields, body, field);
    var g := GuardIndex(option, body, |body|, field).value;
    SoundIffConditions(option, body, field, g, GuardVariable(body[g], option, field).value,
                       ReadBody(option, fields, body).value.defaults[fields[field]]);
  }

  // ---- Sources that are stable, and some that are not ------------------------

  /**
   The shape the scheduler's own source has: whatever a statement assigns, no other statement
   assigns at any depth.
   */
  ghost predicate AssignedOnce(body: seq<Stmt>) {
    forall j, k, x :: 0 <= j < |body| && 0 <= k < |body| && j != k && Binds(body[j], x) ==> !Touches(Var(x), body[k])
  }

  lemma AssignedOnceIsSound(option: string, fields: map<string, string>, body: seq<Stmt>, field: string)
    requires Injective(fields) && field in fields && ReadBody(option, fields, body).Ok?
    requires fields[field] in ReadBody(option, fields, body).value.defaults
    requires AssignedOnce(body) && !SomeLeaves(body) && !SomeTouches(Pointer(option, field), Lowered(option, body))
    ensures Sound(option, body, field, ReadBody(option, fields, body).value.defaults[fields[field]])
  {
    var value := ReadBody(option, fields, body).value.defaults[fields[field]];
    ReadFieldHasOneGuard(option, fields, body, field);
    var g := GuardIndex(option, body, |body|, field).value;
    var x := GuardVariable(body[g], option, field).value;
    QuietAroundGuard(option, body, field, g);
    var k := LiteralThatWasRead(option, fields, body, field, g, x);
    OnlyLiteralEnds(option, body, g, x, k, value);
    SoundIffConditions(option, body, field, g, x, value);
  }

  lemma QuietAroundGuard(option: string, body: seq<Stmt>, field: string, g: nat)
    requires g < |body| && !SomeLeaves(body) && !SomeTouches(Pointer(option, field), Lowered(option, body))
    ensures ReachesGuard(option, body, field, g) && LeavesField(option, body, field, g)
  {
    QuietPart(option, body, Pointer(option, field), 0, g);
    QuietPart(option, body, Pointer(option, field), g + 1, |body|);
    assert body[0..g] == body[..g] && body[g + 1..|body|] == body[g + 1..];
  }

  lemma LiteralThatWasRead(
    option: string, fields: map<string, string>, body: seq<Stmt>, field: string, g: nat, x: string)
    returns (k: nat)
    requires Injective(fields) && field in fields && ReadBody(option, fields, body).Ok?
    requires fields[field] in ReadBody(option, fields, body).value.defaults
    requires GuardIndex(option, body, |body|, field) == Some(g) && g < |body|
      && GuardVariable(body[g], option, field) == Some(x)
    ensures k < g && body[k].Assignment? && body[k].op != OtherOp && body[k].lhs == [Ident(x)] && |body[k].rhs| == 1
    ensures Literal(body[k].rhs[0]) == Some(ReadBody(option, fields, body).value.defaults[fields[field]])
  {
    assert body[..|body|] == body;
    DefaultComesFromGuard(option, fields, body, |body|, field);
    ReadVariablesAreLiterals(option, fields, body, g, x);
    k :| 0 <= k < g && body[k].Assignment? && body[k].op != OtherOp && body[k].lhs == [Ident(x)] && |body[k].rhs| == 1
      && Literal(body[k].rhs[0]) == Some(ReadBody(option, fields, body[..g]).value.vars[x]);
  }

  /** A part of a body that never touches the target does nothing to it. */
  lemma QuietPart(option: string, body: seq<Stmt>, t: Target, lo: nat, hi: nat)
    requires lo <= hi <= |body| && !SomeLeaves(body) && !SomeTouches(t, Lowered(option, body))
    ensures Quiet(Outcomes(t, true, Lowered(option, body[lo..hi])), false)
  {
    var part := Lowered(option, body[lo..hi]);
    SomeTouchesHolds(t, part);
    if i :| 0 <= i < |part| && Touches(t, part[i]) {
      assert part[i] == Lowered(option, body)[lo + i];
      TouchesPart(t, Lowered(option, body), lo + i);
    }
    SomeLeavesHolds(part);
    if i :| 0 <= i < |part| && Leaves(part[i]) {
      assert part[i] == body[lo + i];
      LeavesPart(body, lo + i);
    }
    NothingTouched(t, true, part);
  }

  /** A variable assigned by one literal only ends with that literal. */
  lemma OnlyLiteralEnds(option: string, body: seq<Stmt>, g: nat, x: string, k: nat, value: bool)
    requires AssignedOnce(body) && k < g < |body|
    requires body[k].Assignment? && body[k].op != OtherOp && body[k].lhs == [Ident(x)] && |body[k].rhs| == 1
    requires Literal(body[k].rhs[0]) == Some(value)
    ensures EndsWith(option, body, x, g, value)
  {
    assert Ident(x) in body[k].lhs;
    BirthFacts(body, g, x);
    var j := Birth(body, g, x).value;
    assert j == k by {
      assert Binds(body[j], x) && Touches(Var(x), body[k]) by {
        assert Hits(Var(x), body[k].op, body[k].lhs[0]);
      }
    }
    var rest := Lowered(option, body[k + 1..]);
    SomeTouchesHolds(Var(x), rest);
    assert forall i :: 0 <= i < |rest| ==> !Touches(Var(x), rest[i]) by {
      forall i | 0 <= i < |rest| ensures !Touches(Var(x), rest[i]) {
        assert rest[i] == INERT || rest[i] == body[k + 1 + i];
        assert Binds(body[k], x);
      }
    }
    NothingTouched(Var(x), Defines(body[k].op), rest);
    assert LastHit(Var(x), body[k], 1) == Some(0);
  }

  const SWITCH_ON := Assignment([Ident("on")], Define, [Ident("true")])
  const SWITCH_OFF := Assignment([Ident("on")], Assign, [Ident("false")])
  const MAYBE_OFF := If([], OtherExpr([]), [SWITCH_OFF], false, [])
  const GUARD := If([], Equal(Field("option", "F"), Ident("nil")),
                    [Assignment([Field("option", "F")], Assign, [AddressOf(Ident("on"))])], false, [])

  /** The reader takes the literal `true`, whatever unguarded statement stands before or after the guard. */
  lemma SwitchIsRead(body: seq<Stmt>)
    requires body == [SWITCH_ON, GUARD, SWITCH_OFF] || body == [SWITCH_ON, MAYBE_OFF, GUARD]
    ensures var read := ReadBody("option", map["F" := "f"], body);
      read.Ok? && read.value.defaults == map["f" := true]
  {
    var fields := map["F" := "f"];
    assert body[..3] == body && body[..1] == [SWITCH_ON] && body[..0] == [];
    assert GuardVariable(GUARD, "option", "F") == Some("on");
    ReadNext("option", fields, body, 0);
    ReadNext("option", fields, body, 1);
    ReadNext("option", fields, body, 2);
  }

  /** Some run ends with the other value in the cell. */
  lemma OtherValueIsUnsound(body: seq<Stmt>, g: nat, scripts: seq<Script>)
    requires body == [SWITCH_ON, GUARD, SWITCH_OFF] || body == [SWITCH_ON, MAYBE_OFF, GUARD]
    requires g < 3 && body[g] == GUARD && Birth(body, g, "on") == Some(0)
    requires FinalWatch("option", body, 0, "on", scripts).last == Some(false)
    ensures !Sound("option", body, "F", true)
  {
    SwitchIsRead(body);
    GuardIndexIsLast("option", body, 3, "F");
    assert GuardIndex("option", body, 3, "F") == Some(g);
    FinalWatchIsAnOutcome("option", body, 0, "on", scripts);
    assert !EndsWith("option", body, "on", g, true);
    SoundIffStable("option", map["F" := "f"], body, "F");
  }

  lemma WatchTwo(t: Target, a: Stmt, b: Stmt, scripts: seq<Script>)
    requires !Hides(t, true, a)
    ensures Watch(t, true, [a, b], scripts)
      == AndThen(WatchStmt(t, true, a, Head(scripts)), Watch(t, true, [b], Tail(scripts)))
  {
    assert [a, b][1..] == [b];
  }

  /** A variable reassigned after its address was handed out: the reader says true, the scheduler gets false. */
  lemma LateAssignmentIsMissed()
    ensures var body := [SWITCH_ON, GUARD, SWITCH_OFF];
      && ReadBody("option", map["F" := "f"], body).Ok?
      && ReadBody("option", map["F" := "f"], body).value.defaults == map["f" := true]
      && !Sound("option", body, "F", true)
  {
    var body := [SWITCH_ON, GUARD, SWITCH_OFF];
    SwitchIsRead(body);
    assert Binds(body[0], "on") by {
      assert Ident("on") in SWITCH_ON.lhs;
    }
    assert FirstBinding(body, 1, "on", true) == Some(0);
    var rest := Lowered("option", body[1..]);
    assert rest == [INERT, SWITCH_OFF] && rest[1..] == [SWITCH_OFF];
    assert LastHit(Var("on"), SWITCH_OFF, 1) == Some(0);
    assert WatchStmt(Var("on"), true, SWITCH_OFF, IDLE) == Outcome(Some(false), Through);
    assert Watch(Var("on"), true, [SWITCH_OFF], []) == Outcome(Some(false), Through);
    assert WatchStmt(Var("on"), true, INERT, IDLE) == KEEP && Next(Var("on"), true, INERT) == Var("on");
    WatchTwo(Var("on"), INERT, SWITCH_OFF, []);
    assert Drop([], 1) == [];
    OtherValueIsUnsound(body, 1, []);
  }

  lemma BranchSwitchesOff(taken: Script)
    requires taken == Script([], true, [], [])
    ensures WatchStmt(Var("on"), true, MAYBE_OFF, taken) == Outcome(Some(false), Through)
  {
    var t := Var("on");
    assert LastHit(t, SWITCH_OFF, 1) == Some(0);
    assert WatchStmt(t, false, SWITCH_OFF, IDLE) == Outcome(Some(false), Through);
    assert Watch(t, false, [SWITCH_OFF], []) == Outcome(Some(false), Through);
    assert Watch(t, false, [], []) == KEEP && After(t, false, []) == t && BlockOf(taken) == [];
    assert WatchStmt(t, true, MAYBE_OFF, taken) == AndThen(KEEP, Watch(t, false, [SWITCH_OFF], []));
  }

  /** The same through a statement that the reader skips: a branch may switch the variable off before the guard. */
  lemma NestedAssignmentIsMissed()
    ensures var body := [SWITCH_ON, MAYBE_OFF, GUARD];
      && ReadBody("option", map["F" := "f"], body).Ok?
      && ReadBody("option", map["F" := "f"], body).value.defaults == map["f" := true]
      && !Sound("option", body, "F", true)
  {
    var body, taken := [SWITCH_ON, MAYBE_OFF, GUARD], Script([], true, [], []);
    SwitchIsRead(body);
    assert Binds(body[0], "on") by {
      assert Ident("on") in SWITCH_ON.lhs;
    }
    assert FirstBinding(body, 1, "on", true) == Some(0);
    assert FirstBinding(body, 2, "on", true) == Some(0);
    var rest := Lowered("option", body[1..]);
    assert rest == [MAYBE_OFF, INERT] && rest[1..] == [INERT];
    BranchSwitchesOff(taken);
    assert Watch(Var("on"), true, [INERT], []) == KEEP;
    var scripts := [IDLE, taken];
    assert Tail(scripts) == scripts[1..] == [taken];
    assert Drop(scripts, 1) == Drop(Tail(scripts), 0) == [taken] && Tail([taken]) == [];
    WatchTwo(Var("on"), MAYBE_OFF, INERT, [taken]);
    OtherValueIsUnsound(body, 2, scripts);
  }

  // ---- The option the inventory reports --------------------------------------

  /** The memory on entry says what the configuration says about this switch. */
  predicate Configured(plugin: Hooks.Plugin, switch: string, m: Memory, field: string) {
    match FieldAt(m, field)
    case None => switch !in plugin.explicitOptions
    case Some(c) => c < |m.heap| && switch in plugin.explicitOptions && plugin.explicitOptions[switch] == m.heap[c]
  }

  /**
   With stable defaults, the option that the inventory reports is the one the
   scheduler ends up with; for a switch that the plugin sets or does not mention, the
   inventory does report it.
   */
  lemma EffectiveOptionIsReal(option: string, fields: map<string, string>, body: seq<Stmt>, field: string,
                              plugin: Hooks.Plugin, m: Memory, scripts: seq<Script>)
    requires Injective(fields) && field in fields && fields[field] != "" && ReadBody(option, fields, body).Ok?
    requires Entry(option, m) && Configured(plugin, fields[field], m, field)
    requires var defaults := ReadBody(option, fields, body).value.defaults;
      fields[field] in defaults && Stable(option, body, field, defaults[fields[field]])
    ensures var known :=
      Hooks.EffectiveOption(plugin, fields[field], Ok(ReadBody(option, fields, body).value.defaults));
      var r := RunTop(option, m, body, scripts);
      && (fields[field] in plugin.explicitOptions || fields[field] !in plugin.optionKeys ==> known.Some?)
      && (known.Some? ==> (
        && FieldAt(r, field).Some? && FieldAt(r, field).value < |r.heap|
        && r.heap[FieldAt(r, field).value] == known.value))
  {
    SoundIffStable(option, fields, body, field);
    assert AppliesDefault(m, RunTop(option, m, body, scripts), field,
      ReadBody(option, fields, body).value.defaults[fields[field]]);
  }
}
