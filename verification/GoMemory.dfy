/**
 Running the fragment on boolean cells: locals with their scopes, and the
 pointer fields of one option struct that belongs to the caller. What happens to
 one cell and to one field is what GoSource's watch says.
 */
module GoMemory {
  import opened Prelude
  import opened GoSource

  /**
   The cells, the cell of every visible variable, the names of the current
   block, where each set field of the caller's struct points, whether the
   parameter still refers to that struct, and how control goes on.
   */
  datatype Memory = Memory(
    heap: seq<bool>, env: map<string, nat>, local: set<string>, fields: map<string, nat>, attached: bool, exit: Exit)

  predicate Sane(m: Memory) {
    forall x <- m.env :: m.env[x] < |m.heap|
  }

  function FieldAt(m: Memory, field: string): Option<nat> {
    if field in m.fields then Some(m.fields[field]) else None
  }

  /** What every part of a run keeps. */
  predicate Grows(m: Memory, r: Memory) {
    Sane(r) && |r.heap| >= |m.heap|
  }

  predicate Extends(m: Memory, r: Memory) {
    Grows(m, r) && r.exit == m.exit
  }

  // ---- One assignment -------------------------------------------------------

  /** The variable gets a new cell. */
  function Bind(m: Memory, x: string, value: bool): (r: Memory)
    requires Sane(m)
    ensures Extends(m, r)
  {
    m.(heap := m.heap + [value], env := m.env[x := |m.heap|])
  }

  function StoreVar(option: string, m: Memory, op: Op, x: string, value: bool): (r: Memory)
    requires Sane(m)
    ensures Extends(m, r)
  {
    if Defines(op) && x !in m.local then Bind(m, x, value).(local := m.local + {x})
    else if x == option && x !in m.env then m.(attached := false)
    else if x in m.env then m.(heap := m.heap[m.env[x] := value])
    else Bind(m, x, value)
  }

  /** Addresses on the right are those of the variables before the statement. */
  function Point(before: Memory, m: Memory, field: string, target: Option<Expr>, chosen: bool): (r: Memory)
    requires Sane(m)
    ensures Extends(m, r)
  {
    if target == Some(Ident("nil")) then m.(fields := m.fields - {field})
    else if target.Some? && target.value.AddressOf? && target.value.operand.Ident?
      && target.value.operand.name in before.env
    then m.(fields := m.fields[field := before.env[target.value.operand.name]])
    else m.(heap := m.heap + [chosen], fields := m.fields[field := |m.heap|])
  }

  function Operand(s: Stmt, i: nat): Option<Expr>
    requires s.Assignment? && i < |s.lhs|
  {
    if |s.lhs| == |s.rhs| && s.op != OtherOp then Some(s.rhs[i]) else None
  }

  function Stored(s: Stmt, i: nat, chosen: bool): bool
    requires s.Assignment? && i < |s.lhs|
  {
    if Operand(s, i).Some? then GetOr(Literal(Operand(s, i).value), chosen) else chosen
  }

  function Store(option: string, before: Memory, m: Memory, s: Stmt, i: nat, chosen: bool): (r: Memory)
    requires Sane(m) && s.Assignment? && i < |s.lhs|
    ensures Extends(m, r)
  {
    var target := s.lhs[i];
    if target.Ident? then StoreVar(option, m, s.op, target.name, Stored(s, i, chosen))
    else if target.Field? && target.base == option && !Defines(s.op) && before.attached && option !in before.env then
      Point(before, m, target.field, Operand(s, i), chosen)
    else m
  }

  /** The first `n` operands, from left to right. */
  function StoreAll(option: string, m: Memory, s: Stmt, n: nat, values: seq<bool>): (r: Memory)
    requires Sane(m) && s.Assignment? && n <= |s.lhs|
    ensures Extends(m, r)
  {
    if n == 0 then m
    else Store(option, m, StoreAll(option, m, s, n - 1, values), s, n - 1, Chosen(values, n - 1))
  }

  // ---- Statements -----------------------------------------------------------

  /** A block starts without names of its own and takes its names with it. */
  function Enter(m: Memory): Memory {
    m.(local := {})
  }

  function Restored(r: Memory, m: Memory): Memory {
    r.(env := m.env, local := m.local)
  }

  function Exec(option: string, m: Memory, s: Stmt, script: Script): (r: Memory)
    requires Sane(m)
    ensures Grows(m, r)
    decreases s, 0
  {
    if m.exit != Through then m
    else
      match s
      case Assignment(lhs, _, _) => StoreAll(option, m, s, |lhs|, script.values)
      case Expression(_) => m
      case If(init, _, body, _, otherwise) =>
        var inner := Run(option, Enter(m), init, script.init);
        Restored(Run(option, Enter(inner), if script.taken then body else otherwise, BlockOf(script)), m)
      case Block(body) => Restored(Run(option, Enter(m), body, BlockOf(script)), m)
      case Loop(_, body) => Rounds(option, m, body, script.blocks)
      case Leave(how, _) => m.(exit := how)
  }

  function Run(option: string, m: Memory, stmts: seq<Stmt>, scripts: seq<Script>): (r: Memory)
    requires Sane(m)
    ensures Grows(m, r)
    decreases stmts, 0
  {
    if stmts == [] then m
    else Run(option, Exec(option, m, stmts[0], Head(scripts)), stmts[1..], Tail(scripts))
  }

  function Rounds(option: string, m: Memory, body: seq<Stmt>, rounds: seq<seq<Script>>): (r: Memory)
    requires Sane(m)
    ensures Grows(m, r)
    decreases body, |rounds| + 1
  {
    if rounds == [] then m
    else
      var round := Restored(Run(option, Enter(m), body, rounds[0]), m);
      if round.exit == Returns then round
      else if round.exit == Breaks then round.(exit := Through)
      else Rounds(option, round.(exit := Through), body, rounds[1..])
  }

  lemma {:induction false} StoppedRun(option: string, m: Memory, stmts: seq<Stmt>, scripts: seq<Script>)
    requires Sane(m) && m.exit != Through
    ensures Run(option, m, stmts, scripts) == m
    decreases |stmts|
  {
    if stmts != [] {
      StoppedRun(option, m, stmts[1..], Tail(scripts));
    }
  }

  // ---- One cell -------------------------------------------------------------

  /** Watching a variable, the cell is that variable's and nobody else's; watching nothing, it is nobody's. */
  predicate Holds(option: string, m: Memory, t: Target, here: bool, c: nat) {
    && c < |m.heap|
    && (t.Var? || t.Nothing?)
    && (t.Var? ==> t.name != option && t.name in m.env && m.env[t.name] == c && here == (t.name in m.local))
    && (forall y <- m.env :: m.env[y] == c ==> t == Var(y))
  }

  predicate CellIs(option: string, m: Memory, t: Target, here: bool, c: nat, value: bool) {
    Holds(option, m, t, here, c) && m.heap[c] == value
  }

  lemma BindOffCell(option: string, m: Memory, x: string, value: bool, t: Target, here: bool, c: nat, held: bool)
    requires Sane(m) && CellIs(option, m, t, here, c, held) && t != Var(x)
    ensures CellIs(option, Bind(m, x, value), t, here, c, held)
  {
  }

  lemma StoreVarOnCell(option: string, m: Memory, op: Op, x: string, value: bool, t: Target, here: bool, c: nat)
    requires Sane(m) && Holds(option, m, t, here, c)
    requires t == Var(x) && !here ==> !Defines(op)
    ensures CellIs(option, StoreVar(option, m, op, x, value), t, here, c, if t == Var(x) then value else m.heap[c])
  {
    if t != Var(x) {
      BindOffCell(option, m, x, value, t, here, c, m.heap[c]);
      if x in m.env {
        assert m.env[x] != c;
      }
    } else {
      assert x in m.env && m.env[x] == c;
    }
  }

  /** What one operand does to the cell. */
  lemma StoreOnCell(
    option: string, before: Memory, m: Memory, s: Stmt, i: nat, chosen: bool, t: Target, here: bool, c: nat)
    requires Sane(m) && s.Assignment? && i < |s.lhs| && Holds(option, m, t, here, c)
    requires t.Var? && !here ==> !(Defines(s.op) && s.lhs[i] == Ident(t.name))
    ensures CellIs(option, Store(option, before, m, s, i, chosen), t, here, c,
                   if Hits(t, s.op, s.lhs[i]) then GetOr(Known(t, s, i), chosen) else m.heap[c])
  {
    if s.lhs[i].Ident? {
      StoreVarOnCell(option, m, s.op, s.lhs[i].name, Stored(s, i, chosen), t, here, c);
      assert t == Var(s.lhs[i].name) ==> Stored(s, i, chosen) == GetOr(Known(t, s, i), chosen);
      assert Store(option, before, m, s, i, chosen) == StoreVar(option, m, s.op, s.lhs[i].name, Stored(s, i, chosen));
    } else if s.lhs[i].Field? {
      PointOffCell(option, before, m, s.lhs[i].field, Operand(s, i), chosen, t, here, c);
    }
  }

  lemma PointOffCell(
    option: string, before: Memory, m: Memory, field: string, target: Option<Expr>, chosen: bool, t: Target, here: bool,
    c: nat)
    requires Sane(m) && Holds(option, m, t, here, c)
    ensures CellIs(option, Point(before, m, field, target, chosen), t, here, c, m.heap[c])
  {
  }

  lemma StoreHidesCell(option: string, before: Memory, m: Memory, s: Stmt, i: nat, chosen: bool, x: string, c: nat)
    requires Sane(m) && s.Assignment? && i < |s.lhs| && Holds(option, m, Var(x), false, c)
    requires Defines(s.op) && s.lhs[i] == Ident(x)
    ensures CellIs(option, Store(option, before, m, s, i, chosen), Nothing, false, c, m.heap[c])
  {
  }

  lemma {:induction false} HiddenByAll(option: string, m: Memory, s: Stmt, n: nat, values: seq<bool>, t: Target, c: nat)
    requires Sane(m) && s.Assignment? && n <= |s.lhs| && Holds(option, m, t, false, c) && t.Var? && Defines(s.op)
    ensures CellIs(option, StoreAll(option, m, s, n, values), HidingUpTo(t, t.name, s, n), false, c, m.heap[c])
  {
    if n > 0 {
      HiddenByAll(option, m, s, n - 1, values, t, c);
      HidingStep(option, m, StoreAll(option, m, s, n - 1, values), s, n - 1, Chosen(values, n - 1), t, c);
    }
  }

  lemma HidingStep(option: string, before: Memory, m: Memory, s: Stmt, i: nat, chosen: bool, t: Target, c: nat)
    requires Sane(m) && s.Assignment? && i < |s.lhs| && t.Var? && Defines(s.op)
    requires Holds(option, m, HidingUpTo(t, t.name, s, i), false, c)
    ensures CellIs(option, Store(option, before, m, s, i, chosen), HidingUpTo(t, t.name, s, i + 1), false, c, m.heap[c])
  {
    HidingEnds(t, t.name, s, i);
    if HidingUpTo(t, t.name, s, i) == t && s.lhs[i] == Ident(t.name) {
      StoreHidesCell(option, before, m, s, i, chosen, t.name, c);
    } else {
      StoreOnCell(option, before, m, s, i, chosen, HidingUpTo(t, t.name, s, i), false, c);
    }
  }

  lemma {:induction false} WrittenByAll(
    option: string, m: Memory, s: Stmt, n: nat, values: seq<bool>, t: Target, here: bool, c: nat)
    requires Sane(m) && s.Assignment? && n <= |s.lhs| && Holds(option, m, t, here, c) && !Hides(t, here, s)
    ensures CellIs(option, StoreAll(option, m, s, n, values), t, here, c, GetOr(LastValue(t, s, n, values), m.heap[c]))
  {
    if n > 0 {
      WrittenByAll(option, m, s, n - 1, values, t, here, c);
      StoreOnCell(option, m, StoreAll(option, m, s, n - 1, values), s, n - 1, Chosen(values, n - 1), t, here, c);
    }
  }

  lemma AssignmentOnCell(option: string, m: Memory, s: Stmt, script: Script, t: Target, here: bool, c: nat)
    requires Sane(m) && s.Assignment? && m.exit == Through && Holds(option, m, t, here, c)
    ensures CellIs(option, Exec(option, m, s, script), Next(t, here, s), here, c,
                   GetOr(WatchStmt(t, here, s, script).last, m.heap[c]))
    ensures Exec(option, m, s, script).exit == WatchStmt(t, here, s, script).exit
  {
    if Hides(t, here, s) {
      HiddenByAll(option, m, s, |s.lhs|, script.values, t, c);
      HidingEnds(t, t.name, s, |s.lhs|);
      assert s.lhs[..|s.lhs|] == s.lhs;
    } else {
      WrittenByAll(option, m, s, |s.lhs|, script.values, t, here, c);
      LastValueIsTheHit(t, s, |s.lhs|, script.values);
    }
  }

  /** What a run does to the cell, and how it ends, as the watch says; `t` is what is watched afterwards. */
  predicate Agrees(option: string, m: Memory, r: Memory, o: Outcome, t: Target, here: bool, c: nat)
    requires c < |m.heap|
  {
    && c < |r.heap| && r.heap[c] == GetOr(o.last, m.heap[c]) && r.exit == o.exit
    && (r.exit == Through ==> Holds(option, r, t, here, c))
  }

  lemma EnterHolds(option: string, m: Memory, t: Target, here: bool, c: nat)
    requires Holds(option, m, t, here, c)
    ensures Holds(option, Enter(m), t, false, c)
  {
  }

  /** After a block, the cell is still the variable's. */
  lemma RestoredAgrees(option: string, m: Memory, r: Memory, o: Outcome, t: Target, here: bool, c: nat)
    requires Holds(option, m, t, here, c)
    requires c < |r.heap| && r.heap[c] == GetOr(o.last, m.heap[c]) && r.exit == o.exit
    ensures Agrees(option, m, Restored(r, m), o, t, here, c)
  {
  }

  lemma {:induction false} ExecOnCell(option: string, m: Memory, s: Stmt, script: Script, t: Target, here: bool, c: nat)
    requires Sane(m) && m.exit == Through && Holds(option, m, t, here, c)
    ensures Agrees(option, m, Exec(option, m, s, script), WatchStmt(t, here, s, script), Next(t, here, s), here, c)
    decreases s, 0
  {
    EnterHolds(option, m, t, here, c);
    match s {
      case Assignment(_, _, _) =>
        AssignmentOnCell(option, m, s, script, t, here, c);
      case Expression(_) =>
      case If(init, _, body, _, otherwise) =>
        IfOnCell(option, m, s, script, t, here, c);
      case Block(body) =>
        RunOnCell(option, Enter(m), body, BlockOf(script), t, false, c);
        var o := Watch(t, false, body, BlockOf(script));
        RestoredAgrees(option, m, Run(option, Enter(m), body, BlockOf(script)), o, t, here, c);
      case Loop(_, body) =>
        RoundsOnCell(option, m, body, script.blocks, t, here, c);
      case Leave(_, _) =>
    }
  }

  lemma {:induction false} IfOnCell(option: string, m: Memory, s: Stmt, script: Script, t: Target, here: bool, c: nat)
    requires Sane(m) && m.exit == Through && Holds(option, m, t, here, c) && s.If?
    ensures Agrees(option, m, Exec(option, m, s, script), WatchStmt(t, here, s, script), t, here, c)
    decreases s, 0, 0
  {
    EnterHolds(option, m, t, here, c);
    var first := Run(option, Enter(m), s.init, script.init);
    var inner := After(t, false, s.init);
    var branch := if script.taken then s.body else s.otherwise;
    RunOnCell(option, Enter(m), s.init, script.init, t, false, c);
    if first.exit == Through {
      EnterHolds(option, first, inner, false, c);
      RunOnCell(option, Enter(first), branch, BlockOf(script), inner, false, c);
    } else {
      StoppedRun(option, Enter(first), branch, BlockOf(script));
    }
    var o := WatchStmt(t, here, s, script);
    RestoredAgrees(option, m, Run(option, Enter(first), branch, BlockOf(script)), o, t, here, c);
  }

  lemma {:induction false} RunOnCell(
    option: string, m: Memory, stmts: seq<Stmt>, scripts: seq<Script>, t: Target, here: bool, c: nat)
    requires Sane(m) && m.exit == Through && Holds(option, m, t, here, c)
    ensures var r, o := Run(option, m, stmts, scripts), Watch(t, here, stmts, scripts);
      Agrees(option, m, r, o, After(t, here, stmts), here, c)
    decreases stmts, 0
  {
    if stmts != [] {
      ExecOnCell(option, m, stmts[0], Head(scripts), t, here, c);
      var next := Exec(option, m, stmts[0], Head(scripts));
      if next.exit == Through {
        RunOnCell(option, next, stmts[1..], Tail(scripts), Next(t, here, stmts[0]), here, c);
      } else {
        StoppedRun(option, next, stmts[1..], Tail(scripts));
      }
    }
  }

  lemma {:induction false} RoundsOnCell(
    option: string, m: Memory, body: seq<Stmt>, rounds: seq<seq<Script>>, t: Target, here: bool, c: nat)
    requires Sane(m) && m.exit == Through && Holds(option, m, t, here, c)
    ensures Agrees(option, m, Rounds(option, m, body, rounds), WatchRounds(t, body, rounds), t, here, c)
    decreases body, |rounds| + 1
  {
    if rounds != [] {
      EnterHolds(option, m, t, here, c);
      RunOnCell(option, Enter(m), body, rounds[0], t, false, c);
      var inside, o := Run(option, Enter(m), body, rounds[0]), Watch(t, false, body, rounds[0]);
      RestoredAgrees(option, m, inside, o, t, here, c);
      var next := Restored(inside, m).(exit := Through);
      assert Holds(option, next, t, here, c);
      if o.exit != Returns && o.exit != Breaks {
        RoundsOnCell(option, next, body, rounds[1..], t, here, c);
      }
    }
  }

  // ---- One field ------------------------------------------------------------

  /** The field does not point into the first `bound` cells. */
  predicate Beyond(m: Memory, field: string, bound: nat) {
    FieldAt(m, field).Some? ==> FieldAt(m, field).value >= bound
  }

  predicate LocalsBeyond(m: Memory, bound: nat) {
    |m.heap| >= bound && forall x <- m.env :: m.env[x] >= bound
  }

  /** Watching the field, the parameter's name is visible; watching nothing, a local variable hides it. */
  predicate Sees(option: string, m: Memory, t: Target, here: bool, field: string) {
    if t == Pointer(option, field) then option !in m.env && here == (option in m.local)
    else t == Nothing && option in m.env
  }

  lemma BindKeeps(m: Memory, x: string, value: bool, bound: nat)
    requires Sane(m) && LocalsBeyond(m, bound)
    ensures LocalsBeyond(Bind(m, x, value), bound)
  {
  }

  lemma StoreVarKeepsFields(option: string, m: Memory, op: Op, x: string, value: bool, bound: nat)
    requires Sane(m) && LocalsBeyond(m, bound)
    ensures LocalsBeyond(StoreVar(option, m, op, x, value), bound)
      && StoreVar(option, m, op, x, value).fields == m.fields
  {
    BindKeeps(m, x, value, bound);
  }

  /** Another name leaves the parameter's standing alone. */
  lemma StoreOtherName(option: string, m: Memory, op: Op, x: string, value: bool)
    requires Sane(m) && x != option
    ensures var r := StoreVar(option, m, op, x, value);
      r.attached == m.attached && (option in r.env <==> option in m.env) && (option in r.local <==> option in m.local)
  {
  }

  lemma StoreParameter(option: string, m: Memory, op: Op, value: bool)
    requires Sane(m)
    ensures var r := StoreVar(option, m, op, option, value);
      && (option in r.env <==> option in m.env || (Defines(op) && option !in m.local))
      && (option in r.local <==> option in m.local || Defines(op))
      && r.attached == (m.attached && (option in m.env || (Defines(op) && option !in m.local)))
  {
  }

  lemma PointOnField(
    before: Memory, m: Memory, written: string, target: Option<Expr>, chosen: bool, field: string, bound: nat)
    requires Sane(m) && LocalsBeyond(m, bound) && LocalsBeyond(before, bound)
    ensures var r := Point(before, m, written, target, chosen);
      && LocalsBeyond(r, bound) && r.attached == m.attached && r.env == m.env && r.local == m.local
      && if written == field then Beyond(r, field, bound) else FieldAt(r, field) == FieldAt(m, field)
  {
  }

  /** The parameter is among the first `n` operands. */
  predicate Named(option: string, s: Stmt, n: nat)
    requires s.Assignment? && n <= |s.lhs|
  {
    n > 0 && (s.lhs[n - 1] == Ident(option) || Named(option, s, n - 1))
  }

  lemma {:induction false} NamedIsMembership(option: string, s: Stmt, n: nat)
    requires s.Assignment? && n <= |s.lhs|
    ensures Named(option, s, n) <==> Ident(option) in s.lhs[..n]
  {
    if n > 0 {
      assert s.lhs[..n] == s.lhs[..n - 1] + [s.lhs[n - 1]];
      NamedIsMembership(option, s, n - 1);
    }
  }

  /**
   The parameter's name, part of the way through an assignment; `hides` says that the assignment
   defines a local of that name.
   */
  predicate NameIs(option: string, m: Memory, r: Memory, s: Stmt, n: nat, hides: bool)
    requires s.Assignment? && n <= |s.lhs|
  {
    && (option in r.env <==> option in m.env || (hides && Named(option, s, n)))
    && (option in r.local <==> option in m.local || (Defines(s.op) && Named(option, s, n)))
    && (r.attached <==> option in m.env || hides || !Named(option, s, n))
  }

  /** The assignment defines a new local with the parameter's name. */
  predicate Shadows(option: string, m: Memory, s: Stmt) {
    s.Assignment? && Defines(s.op) && option !in m.local && Ident(option) in s.lhs
  }

  lemma NameStep(option: string, before: Memory, m: Memory, s: Stmt, i: nat, chosen: bool)
    requires Sane(m) && s.Assignment? && i < |s.lhs| && before.attached
    requires NameIs(option, before, m, s, i, Shadows(option, before, s))
    ensures NameIs(option, before, Store(option, before, m, s, i, chosen), s, i + 1, Shadows(option, before, s))
  {
    if s.lhs[i].Ident? {
      if s.lhs[i].name == option {
        assert s.lhs[i] in s.lhs;
        StoreParameter(option, m, s.op, Stored(s, i, chosen));
      } else {
        StoreOtherName(option, m, s.op, s.lhs[i].name, Stored(s, i, chosen));
      }
    }
  }

  /** What has become of the field: lost if it was hit, else as it was. */
  predicate FieldIs(m: Memory, r: Memory, field: string, bound: nat, hit: bool) {
    LocalsBeyond(r, bound) && if hit then Beyond(r, field, bound) else FieldAt(r, field) == FieldAt(m, field)
  }

  /** The operand writes the field of the caller's struct. */
  predicate WritesField(option: string, before: Memory, s: Stmt, i: nat, field: string)
    requires s.Assignment? && i < |s.lhs|
  {
    Hits(Pointer(option, field), s.op, s.lhs[i]) && before.attached && option !in before.env
  }

  lemma FieldStep(option: string, before: Memory, m: Memory, s: Stmt, i: nat, chosen: bool, field: string, bound: nat)
    requires Sane(m) && s.Assignment? && i < |s.lhs| && LocalsBeyond(m, bound) && LocalsBeyond(before, bound)
    ensures FieldIs(m, Store(option, before, m, s, i, chosen), field, bound, WritesField(option, before, s, i, field))
  {
    if s.lhs[i].Ident? {
      StoreVarKeepsFields(option, m, s.op, s.lhs[i].name, Stored(s, i, chosen), bound);
    } else if s.lhs[i].Field? {
      PointOnField(before, m, s.lhs[i].field, Operand(s, i), chosen, field, bound);
    }
  }

  lemma FieldThen(m: Memory, r: Memory, q: Memory, field: string, bound: nat, first: bool, second: bool)
    requires FieldIs(m, r, field, bound, first) && FieldIs(r, q, field, bound, second)
    ensures FieldIs(m, q, field, bound, first || second)
  {
  }

  lemma {:induction false} AllOnName(option: string, m: Memory, s: Stmt, n: nat, values: seq<bool>)
    requires Sane(m) && s.Assignment? && n <= |s.lhs| && m.attached
    ensures NameIs(option, m, StoreAll(option, m, s, n, values), s, n, Shadows(option, m, s))
  {
    if n > 0 {
      AllOnName(option, m, s, n - 1, values);
      NameStep(option, m, StoreAll(option, m, s, n - 1, values), s, n - 1, Chosen(values, n - 1));
    }
  }

  /** Some of the first `n` operands writes the field. */
  predicate SomeWrites(option: string, m: Memory, s: Stmt, n: nat, field: string)
    requires s.Assignment? && n <= |s.lhs|
  {
    n > 0 && (SomeWrites(option, m, s, n - 1, field) || WritesField(option, m, s, n - 1, field))
  }

  lemma {:induction false} WritesAreHits(option: string, m: Memory, s: Stmt, n: nat, field: string)
    requires s.Assignment? && n <= |s.lhs| && m.attached
    ensures SomeWrites(option, m, s, n, field) <==> LastHit(Pointer(option, field), s, n).Some? && option !in m.env
  {
    if n > 0 {
      WritesAreHits(option, m, s, n - 1, field);
    }
  }

  lemma {:induction false} AllOnField(
    option: string, m: Memory, s: Stmt, n: nat, values: seq<bool>, field: string, bound: nat)
    requires Sane(m) && s.Assignment? && n <= |s.lhs| && LocalsBeyond(m, bound)
    ensures FieldIs(m, StoreAll(option, m, s, n, values), field, bound, SomeWrites(option, m, s, n, field))
  {
    if n > 0 {
      var before, after := StoreAll(option, m, s, n - 1, values), StoreAll(option, m, s, n, values);
      AllOnField(option, m, s, n - 1, values, field, bound);
      FieldStep(option, m, before, s, n - 1, Chosen(values, n - 1), field, bound);
      FieldThen(m, before, after, field, bound, SomeWrites(option, m, s, n - 1, field),
        WritesField(option, m, s, n - 1, field));
    }
  }

  /** What a run does to the field, and how it ends; the watch is over once the parameter is reassigned. */
  predicate FieldAgrees(
    option: string, m: Memory, r: Memory, o: Outcome, t: Target, here: bool, field: string, bound: nat)
  {
    && LocalsBeyond(r, bound)
    && (if o.last.Some? then Beyond(r, field, bound) else FieldAt(r, field) == FieldAt(m, field))
    && (if r.attached then r.exit == o.exit else o.exit == Returns)
    && (o.exit == Through ==> Sees(option, r, t, here, field))
  }

  lemma AssignmentOnField(
    option: string, m: Memory, s: Stmt, script: Script, t: Target, here: bool, field: string, bound: nat)
    requires Sane(m) && s.Assignment? && m.exit == Through && m.attached
    requires LocalsBeyond(m, bound) && Sees(option, m, t, here, field)
    ensures var r, o := Exec(option, m, s, script), WatchStmt(t, here, s, script);
      FieldAgrees(option, m, r, o, Next(t, here, s), here, field, bound)
  {
    AllOnName(option, m, s, |s.lhs|, script.values);
    AllOnField(option, m, s, |s.lhs|, script.values, field, bound);
    WritesAreHits(option, m, s, |s.lhs|, field);
    NamedIsMembership(option, s, |s.lhs|);
    LastHitHits(t, s, |s.lhs|);
    assert s.lhs[..|s.lhs|] == s.lhs;
  }

  /** Once the parameter refers to another struct, the caller's fields are safe. */
  predicate FieldsSafe(m: Memory, r: Memory, bound: nat) {
    LocalsBeyond(r, bound) && !r.attached && r.fields == m.fields
  }

  lemma {:induction false} DetachedAll(option: string, m: Memory, s: Stmt, n: nat, values: seq<bool>, bound: nat)
    requires Sane(m) && s.Assignment? && n <= |s.lhs| && LocalsBeyond(m, bound) && !m.attached
    ensures FieldsSafe(m, StoreAll(option, m, s, n, values), bound)
  {
    if n > 0 {
      DetachedAll(option, m, s, n - 1, values, bound);
      var before := StoreAll(option, m, s, n - 1, values);
      if s.lhs[n - 1].Ident? {
        StoreVarKeepsFields(option, before, s.op, s.lhs[n - 1].name, Stored(s, n - 1, Chosen(values, n - 1)), bound);
      }
    }
  }

  lemma {:induction false} DetachedExec(option: string, m: Memory, s: Stmt, script: Script, bound: nat)
    requires Sane(m) && LocalsBeyond(m, bound) && !m.attached
    ensures FieldsSafe(m, Exec(option, m, s, script), bound)
    decreases s, 0
  {
    if m.exit == Through {
      match s {
        case Assignment(lhs, _, _) =>
          DetachedAll(option, m, s, |lhs|, script.values, bound);
        case Expression(_) =>
        case If(init, _, body, _, otherwise) =>
          DetachedRun(option, Enter(m), init, script.init, bound);
          var inner := Run(option, Enter(m), init, script.init);
          DetachedRun(option, Enter(inner), if script.taken then body else otherwise, BlockOf(script), bound);
        case Block(body) =>
          DetachedRun(option, Enter(m), body, BlockOf(script), bound);
        case Loop(_, body) =>
          DetachedRounds(option, m, body, script.blocks, bound);
        case Leave(_, _) =>
      }
    }
  }

  lemma {:induction false} DetachedRun(option: string, m: Memory, stmts: seq<Stmt>, scripts: seq<Script>, bound: nat)
    requires Sane(m) && LocalsBeyond(m, bound) && !m.attached
    ensures FieldsSafe(m, Run(option, m, stmts, scripts), bound)
    decreases stmts, 0
  {
    if stmts != [] {
      DetachedExec(option, m, stmts[0], Head(scripts), bound);
      DetachedRun(option, Exec(option, m, stmts[0], Head(scripts)), stmts[1..], Tail(scripts), bound);
    }
  }

  lemma {:induction false} DetachedRounds(
    option: string, m: Memory, body: seq<Stmt>, rounds: seq<seq<Script>>, bound: nat)
    requires Sane(m) && LocalsBeyond(m, bound) && !m.attached
    ensures FieldsSafe(m, Rounds(option, m, body, rounds), bound)
    decreases body, |rounds| + 1
  {
    if rounds != [] {
      DetachedRun(option, Enter(m), body, rounds[0], bound);
      var round := Restored(Run(option, Enter(m), body, rounds[0]), m);
      if round.exit != Returns && round.exit != Breaks {
        DetachedRounds(option, round.(exit := Through), body, rounds[1..], bound);
      }
    }
  }

  /** What a field watch needs to begin. */
  predicate Watchable(option: string, m: Memory, t: Target, here: bool, field: string, bound: nat) {
    Sane(m) && m.exit == Through && m.attached && LocalsBeyond(m, bound) && Sees(option, m, t, here, field)
  }

  lemma EnterWatchable(option: string, m: Memory, t: Target, here: bool, field: string, bound: nat)
    requires Watchable(option, m, t, here, field, bound)
    ensures Watchable(option, Enter(m), t, false, field, bound)
  {
  }

  /** Leaving a block brings the names back. */
  lemma RestoredField(
    option: string, m: Memory, r: Memory, o: Outcome, inner: Target, t: Target, here: bool, field: string, bound: nat)
    requires Watchable(option, m, t, here, field, bound)
      && FieldAgrees(option, Enter(m), r, o, inner, false, field, bound)
    ensures FieldAgrees(option, m, Restored(r, m), o, t, here, field, bound)
  {
  }

  /** One part of a run after another. */
  lemma FieldSequence(option: string, m: Memory, mid: Memory, r: Memory, a: Outcome, b: Outcome,
                      inner: Target, t: Target, here: bool, field: string, bound: nat)
    requires FieldAgrees(option, m, mid, a, inner, here, field, bound)
    requires a.exit == Through ==> FieldAgrees(option, mid, r, b, t, here, field, bound)
    requires a.exit != Through ==> (
      && LocalsBeyond(r, bound) && r.fields == mid.fields && r.attached == mid.attached
      && (mid.attached ==> r.exit == mid.exit))
    ensures FieldAgrees(option, m, r, AndThen(a, b), t, here, field, bound)
  {
  }

  /** Whatever stops the watch, the rest of the run leaves the field alone. */
  lemma WatchOver(option: string, m: Memory, o: Outcome, t: Target, here: bool, stmts: seq<Stmt>, scripts: seq<Script>,
                  before: Memory, field: string, bound: nat)
    requires Sane(m) && FieldAgrees(option, before, m, o, t, here, field, bound) && o.exit != Through
    ensures var r := Run(option, m, stmts, scripts);
      LocalsBeyond(r, bound) && r.fields == m.fields && r.attached == m.attached && (m.attached ==> r.exit == m.exit)
  {
    if m.attached {
      StoppedRun(option, m, stmts, scripts);
    } else {
      DetachedRun(option, m, stmts, scripts, bound);
    }
  }

  lemma {:induction false} ExecOnField(
    option: string, m: Memory, s: Stmt, script: Script, t: Target, here: bool, field: string, bound: nat)
    requires Watchable(option, m, t, here, field, bound)
    ensures var r, o := Exec(option, m, s, script), WatchStmt(t, here, s, script);
      FieldAgrees(option, m, r, o, Next(t, here, s), here, field, bound)
    decreases s, 1
  {
    EnterWatchable(option, m, t, here, field, bound);
    match s {
      case Assignment(_, _, _) =>
        AssignmentOnField(option, m, s, script, t, here, field, bound);
      case Expression(_) =>
      case If(_, _, _, _, _) =>
        IfOnField(option, m, s, script, t, here, field, bound);
      case Block(body) =>
        RunOnField(option, Enter(m), body, BlockOf(script), t, false, field, bound);
        RestoredField(option, m, Run(option, Enter(m), body, BlockOf(script)), Watch(t, false, body, BlockOf(script)),
                      After(t, false, body), t, here, field, bound);
      case Loop(_, body) =>
        RoundsOnField(option, m, body, script.blocks, t, here, field, bound);
      case Leave(_, _) =>
    }
  }

  lemma {:induction false} IfOnField(
    option: string, m: Memory, s: Stmt, script: Script, t: Target, here: bool, field: string, bound: nat)
    requires Watchable(option, m, t, here, field, bound) && s.If?
    ensures FieldAgrees(option, m, Exec(option, m, s, script), WatchStmt(t, here, s, script), t, here, field, bound)
    decreases s, 0
  {
    EnterWatchable(option, m, t, here, field, bound);
    var first, a := Run(option, Enter(m), s.init, script.init), Watch(t, false, s.init, script.init);
    var inner := After(t, false, s.init);
    var branch := if script.taken then s.body else s.otherwise;
    var last := Run(option, Enter(first), branch, BlockOf(script));
    var b := Watch(inner, false, branch, BlockOf(script));
    RunOnField(option, Enter(m), s.init, script.init, t, false, field, bound);
    if a.exit == Through {
      EnterWatchable(option, first, inner, false, field, bound);
      RunOnField(option, Enter(first), branch, BlockOf(script), inner, false, field, bound);
    } else {
      EnteredStays(option, Enter(m), first, a, inner, field, bound);
      WatchOver(option, Enter(first), a, inner, false, branch, BlockOf(script), Enter(m), field, bound);
    }
    FieldSequence(option, Enter(m), Enter(first), last, a, b, inner, After(inner, false, branch), false, field, bound);
    RestoredField(option, m, last, AndThen(a, b), After(inner, false, branch), t, here, field, bound);
  }

  lemma EnteredStays(option: string, before: Memory, m: Memory, o: Outcome, t: Target, field: string, bound: nat)
    requires FieldAgrees(option, before, m, o, t, false, field, bound)
    ensures FieldAgrees(option, before, Enter(m), o, t, false, field, bound)
  {
  }

  lemma {:induction false} RunOnField(
    option: string, m: Memory, stmts: seq<Stmt>, scripts: seq<Script>, t: Target, here: bool, field: string, bound: nat)
    requires Watchable(option, m, t, here, field, bound)
    ensures var r, o := Run(option, m, stmts, scripts), Watch(t, here, stmts, scripts);
      FieldAgrees(option, m, r, o, After(t, here, stmts), here, field, bound)
    decreases stmts, 0
  {
    if stmts != [] {
      var next, a := Exec(option, m, stmts[0], Head(scripts)), WatchStmt(t, here, stmts[0], Head(scripts));
      var inner := Next(t, here, stmts[0]);
      ExecOnField(option, m, stmts[0], Head(scripts), t, here, field, bound);
      if a.exit == Through {
        RunOnField(option, next, stmts[1..], Tail(scripts), inner, here, field, bound);
      } else {
        WatchOver(option, next, a, inner, here, stmts[1..], Tail(scripts), m, field, bound);
      }
      FieldSequence(option, m, next, Run(option, next, stmts[1..], Tail(scripts)), a,
        Watch(inner, here, stmts[1..], Tail(scripts)),
                    inner, After(t, here, stmts), here, field, bound);
    }
  }

  lemma {:induction false} RoundsOnField(
    option: string, m: Memory, body: seq<Stmt>, rounds: seq<seq<Script>>, t: Target, here: bool, field: string,
    bound: nat)
    requires Watchable(option, m, t, here, field, bound)
    ensures FieldAgrees(option, m, Rounds(option, m, body, rounds), WatchRounds(t, body, rounds), t, here, field, bound)
    decreases body, 2 * |rounds| + 1
  {
    if rounds != [] {
      EnterWatchable(option, m, t, here, field, bound);
      RunOnField(option, Enter(m), body, rounds[0], t, false, field, bound);
      var inside, o := Run(option, Enter(m), body, rounds[0]), Watch(t, false, body, rounds[0]);
      RestoredField(option, m, inside, o, After(t, false, body), t, here, field, bound);
      RoundOnField(option, m, Restored(inside, m), body, rounds, o, t, here, field, bound);
    }
  }

  lemma {:induction false} RoundOnField(
    option: string, m: Memory, round: Memory, body: seq<Stmt>, rounds: seq<seq<Script>>, o: Outcome, t: Target,
    here: bool, field: string, bound: nat)
    requires Watchable(option, m, t, here, field, bound) && rounds != [] && Sane(round)
    requires round == Restored(Run(option, Enter(m), body, rounds[0]), m) && o == Watch(t, false, body, rounds[0])
    requires FieldAgrees(option, m, round, o, t, here, field, bound)
    ensures FieldAgrees(option, m, Rounds(option, m, body, rounds), WatchRounds(t, body, rounds), t, here, field, bound)
    decreases body, 2 * |rounds|
  {
    var next := round.(exit := Through);
    if !round.attached {
      if round.exit != Returns && round.exit != Breaks {
        DetachedRounds(option, next, body, rounds[1..], bound);
      }
    } else if o.exit != Returns && o.exit != Breaks {
      RoundsOnField(option, next, body, rounds[1..], t, here, field, bound);
    }
  }
}
