/**
 The fragment of Go in which the two readers of scheduler source work, and what
 running a piece of it can do to one variable, one field or one pointer.
 Conditions, loop counts and uninterpreted values are decided by a script; the
 outcomes computed from the text are exactly those that some script produces.
 */
module GoSource {
  import opened Prelude

  // ---- Syntax ---------------------------------------------------------------

  datatype Element = KeyValue(key: Expr, value: Expr) | Plain(value: Expr)

  /** `Field` is a selector on an identifier; `GetBool` is a call of that method on an identifier. */
  datatype Expr =
    | Ident(name: string) | Field(base: string, field: string) | Equal(left: Expr, right: Expr)
    | AddressOf(operand: Expr) | Struct(typeName: string, elements: seq<Element>)
    | GetBool(receiver: string, arguments: seq<Expr>) | OtherExpr(inner: seq<Expr>)

  /** `:=`, `var`, `=` and the compound operators. */
  datatype Op = Define | Declare | Assign | OtherOp

  datatype Exit = Through | Breaks | Continues | Returns

  datatype Stmt =
    | Assignment(lhs: seq<Expr>, op: Op, rhs: seq<Expr>)
    | Expression(e: Expr)
    | If(init: seq<Stmt>, cond: Expr, body: seq<Stmt>, hasElse: bool, otherwise: seq<Stmt>)
    | Block(body: seq<Stmt>)
    | Loop(exprs: seq<Expr>, body: seq<Stmt>)
    | Leave(how: Exit, results: seq<Expr>)

  function Literal(e: Expr): Option<bool> {
    if e == Ident("true") then Some(true) else if e == Ident("false") then Some(false) else None
  }

  // ---- What decides a run ---------------------------------------------------

  /**
   The choices of one statement: its unknown values, whether its condition
   holds, and the scripts of the statements inside it, one list per execution.
   */
  datatype Script = Script(values: seq<bool>, taken: bool, init: seq<Script>, blocks: seq<seq<Script>>)

  const IDLE := Script([], false, [], [])

  function Head(scripts: seq<Script>): Script {
    if scripts == [] then IDLE else scripts[0]
  }

  function Tail(scripts: seq<Script>): seq<Script> {
    if scripts == [] then [] else scripts[1..]
  }

  function BlockOf(script: Script): seq<Script> {
    if script.blocks == [] then [] else script.blocks[0]
  }

  function Chosen(values: seq<bool>, i: nat): bool {
    i < |values| && values[i]
  }

  // ---- What is watched ------------------------------------------------------

  /**
   A local variable, a pointer field of the struct behind `base`, or a field of
   the struct variable `base` that the function returns. `Result` is what is
   left of the last where the name is hidden: only a return still counts.
   */
  datatype Target =
    | Nothing | Var(name: string) | Pointer(base: string, field: string) | Part(base: string, field: string) | Result

  function NameOf(t: Target): Option<string> {
    match t
    case Var(x) => Some(x)
    case Pointer(base, _) => Some(base)
    case Part(base, _) => Some(base)
    case _ => None
  }

  function Hidden(t: Target): Target {
    if t.Part? || t.Result? then Result else Nothing
  }

  predicate Defines(op: Op) {
    op == Define || op == Declare
  }

  /** The statement introduces another variable of that name; `here` says that the name belongs to this very block. */
  predicate Hides(t: Target, here: bool, s: Stmt) {
    NameOf(t).Some? && !here && s.Assignment? && Defines(s.op) && Ident(NameOf(t).value) in s.lhs
  }

  function Next(t: Target, here: bool, s: Stmt): Target {
    if Hides(t, here, s) then Hidden(t) else t
  }

  function After(t: Target, here: bool, stmts: seq<Stmt>): Target
    decreases |stmts|
  {
    if stmts == [] then t else After(Next(t, here, stmts[0]), here, stmts[1..])
  }

  /** A definition can only hit identifiers. */
  predicate Hits(t: Target, op: Op, e: Expr) {
    match t
    case Var(x) => e == Ident(x)
    case Pointer(base, field) => e == Field(base, field) && !Defines(op)
    case Part(base, field) => e == Ident(base) || (e == Field(base, field) && !Defines(op))
    case _ => false
  }

  /** Of several operands that hit, among the first `n`, the last one counts. */
  function LastHit(t: Target, s: Stmt, n: nat): Option<nat>
    requires s.Assignment? && n <= |s.lhs|
  {
    if n == 0 then None else if Hits(t, s.op, s.lhs[n - 1]) then Some(n - 1) else LastHit(t, s, n - 1)
  }

  lemma {:induction false} LastHitHits(t: Target, s: Stmt, n: nat)
    requires s.Assignment? && n <= |s.lhs|
    ensures var i := LastHit(t, s, n);
      if i.Some? then i.value < n && Hits(t, s.op, s.lhs[i.value])
      else forall k :: 0 <= k < n ==> !Hits(t, s.op, s.lhs[k])
  {
    if n > 0 {
      LastHitHits(t, s, n - 1);
    }
  }

  /** What a struct literal gives a field, if the text says: false when the field is not named. */
  function LiteralField(elements: seq<Element>, field: string): Option<bool> {
    if elements == [] then Some(false)
    else
      var last := elements[|elements| - 1];
      if last.KeyValue? && last.key == Ident(field) then Literal(last.value)
      else LiteralField(elements[..|elements| - 1], field)
  }

  const STRUCT_TYPE := "predicateEnable"

  /** The value that operand `i` receives, if the text says; for a pointer only that it is written. */
  function Known(t: Target, s: Stmt, i: nat): Option<bool>
    requires s.Assignment? && i < |s.lhs|
  {
    if t.Pointer? then Some(true)
    else if s.op == OtherOp || |s.lhs| != |s.rhs| then None
    else if t.Part? && s.lhs[i] == Ident(t.base) then
      if s.rhs[i].Struct? && s.rhs[i].typeName == STRUCT_TYPE then LiteralField(s.rhs[i].elements, t.field) else None
    else Literal(s.rhs[i])
  }

  function ValuesOf(known: Option<bool>): set<bool> {
    if known.Some? then {known.value} else {true, false}
  }

  /** Assigning the base itself makes it another struct, so nothing later concerns the one that is watched. */
  predicate Detaches(t: Target, s: Stmt) {
    t.Pointer? && s.Assignment? && Ident(t.base) in s.lhs
  }

  /** A return of anything but the watched struct decides the result on its own. */
  predicate ReturnsOther(t: Target, s: Stmt) {
    s.Leave? && s.how == Returns && (t.Result? || (t.Part? && s.results != [Ident(t.base)]))
  }

  // ---- Operand by operand ---------------------------------------------------

  /** What is left to watch after the first `n` operands of a statement that defines the name. */
  function HidingUpTo(t: Target, name: string, s: Stmt, n: nat): Target
    requires s.Assignment? && n <= |s.lhs|
  {
    if n == 0 then t else if s.lhs[n - 1] == Ident(name) then Hidden(t) else HidingUpTo(t, name, s, n - 1)
  }

  lemma {:induction false} HidingEnds(t: Target, name: string, s: Stmt, n: nat)
    requires s.Assignment? && n <= |s.lhs|
    ensures HidingUpTo(t, name, s, n) == if Ident(name) in s.lhs[..n] then Hidden(t) else t
  {
    if n > 0 {
      assert s.lhs[..n] == s.lhs[..n - 1] + [s.lhs[n - 1]];
      HidingEnds(t, name, s, n - 1);
    }
  }

  /** The value of the last operand that hits, among the first `n`. */
  function LastValue(t: Target, s: Stmt, n: nat, values: seq<bool>): Option<bool>
    requires s.Assignment? && n <= |s.lhs|
  {
    if n == 0 then None
    else if Hits(t, s.op, s.lhs[n - 1]) then Some(GetOr(Known(t, s, n - 1), Chosen(values, n - 1)))
    else LastValue(t, s, n - 1, values)
  }

  lemma {:induction false} LastValueIsTheHit(t: Target, s: Stmt, n: nat, values: seq<bool>)
    requires s.Assignment? && n <= |s.lhs|
    ensures var i := LastHit(t, s, n);
      && (i.Some? ==> i.value < |s.lhs|)
      && LastValue(t, s, n, values) ==
        if i.Some? then Some(GetOr(Known(t, s, i.value), Chosen(values, i.value))) else None
  {
    if n > 0 {
      LastValueIsTheHit(t, s, n - 1, values);
    }
  }

  // ---- One run --------------------------------------------------------------

  /** The last value written to the target, if any, and how control goes on. */
  datatype Outcome = Outcome(last: Option<bool>, exit: Exit)

  const KEEP := Outcome(None, Through)

  function AndThen(a: Outcome, b: Outcome): Outcome {
    if a.exit != Through then a else Outcome(if b.last.Some? then b.last else a.last, b.exit)
  }

  function WatchStmt(t: Target, here: bool, s: Stmt, script: Script): Outcome
    decreases s, 0
  {
    match s
    case Assignment(lhs, _, _) =>
      if Hides(t, here, s) then KEEP
      else
        LastHitHits(t, s, |lhs|);
        var i := LastHit(t, s, |lhs|);
        Outcome(if i.Some? then Some(GetOr(Known(t, s, i.value), Chosen(script.values, i.value))) else None,
                if Detaches(t, s) then Returns else Through)
    case Expression(_) => KEEP
    case If(init, _, body, _, otherwise) =>
      AndThen(Watch(t, false, init, script.init),
              Watch(After(t, false, init), false, if script.taken then body else otherwise, BlockOf(script)))
    case Block(body) => Watch(t, false, body, BlockOf(script))
    case Loop(_, body) => WatchRounds(t, body, script.blocks)
    case Leave(how, _) =>
      Outcome(if ReturnsOther(t, s) then Some(Chosen(script.values, 0)) else None, how)
  }

  function Watch(t: Target, here: bool, stmts: seq<Stmt>, scripts: seq<Script>): Outcome
    decreases stmts, 0
  {
    if stmts == [] then KEEP
    else AndThen(WatchStmt(t, here, stmts[0], Head(scripts)),
                 Watch(Next(t, here, stmts[0]), here, stmts[1..], Tail(scripts)))
  }

  /** Rounds of a loop until one leaves it or the script ends. */
  function WatchRounds(t: Target, body: seq<Stmt>, rounds: seq<seq<Script>>): Outcome
    decreases body, |rounds| + 1
  {
    if rounds == [] then KEEP
    else
      var round := Watch(t, false, body, rounds[0]);
      if round.exit == Returns then round
      else if round.exit == Breaks then Outcome(round.last, Through)
      else AndThen(Outcome(round.last, Through), WatchRounds(t, body, rounds[1..]))
  }

  // ---- All runs -------------------------------------------------------------

  function Then(first: set<Outcome>, second: set<Outcome>): set<Outcome> {
    set a <- first, b <- second :: AndThen(a, b)
  }

  /** What rounds that do not leave the loop can do. */
  function Goes(rounds: set<Outcome>): set<Outcome> {
    {KEEP} + set r <- rounds | r.exit == Through || r.exit == Continues :: Outcome(r.last, Through)
  }

  /** What a last round that leaves the loop can do. */
  function Stops(rounds: set<Outcome>): set<Outcome> {
    {KEEP} + set r <- rounds | r.exit == Breaks || r.exit == Returns ::
      Outcome(r.last, if r.exit == Breaks then Through else Returns)
  }

  function Written(values: set<bool>, exit: Exit): set<Outcome> {
    (if true in values then {Outcome(Some(true), exit)} else {})
      + (if false in values then {Outcome(Some(false), exit)} else {})
  }

  function OutcomesOf(t: Target, here: bool, s: Stmt): set<Outcome>
    decreases s, 0
  {
    match s
    case Assignment(lhs, _, _) =>
      if Hides(t, here, s) then {KEEP}
      else
        LastHitHits(t, s, |lhs|);
        var i, exit := LastHit(t, s, |lhs|), if Detaches(t, s) then Returns else Through;
        if i.Some? then Written(ValuesOf(Known(t, s, i.value)), exit) else {Outcome(None, exit)}
    case Expression(_) => {KEEP}
    case If(init, _, body, _, otherwise) =>
      var inner := After(t, false, init);
      Then(Outcomes(t, false, init), Outcomes(inner, false, body) + Outcomes(inner, false, otherwise))
    case Block(body) => Outcomes(t, false, body)
    case Loop(_, body) => Then(Goes(Outcomes(t, false, body)), Stops(Outcomes(t, false, body)))
    case Leave(how, _) => if ReturnsOther(t, s) then Written({true, false}, how) else {Outcome(None, how)}
  }

  /** Everything that running the statements can do to the target. */
  function Outcomes(t: Target, here: bool, stmts: seq<Stmt>): set<Outcome>
    decreases stmts, 0
  {
    if stmts == [] then {KEEP}
    else Then(OutcomesOf(t, here, stmts[0]), Outcomes(Next(t, here, stmts[0]), here, stmts[1..]))
  }

  // ---- The outcomes are exact -----------------------------------------------

  lemma WrittenHolds(known: Option<bool>, chosen: bool, exit: Exit)
    ensures Outcome(Some(GetOr(known, chosen)), exit) in Written(ValuesOf(known), exit)
  {
    var v := GetOr(known, chosen);
    assert v in ValuesOf(known);
    if v {
      assert Some(v) == Some(true);
    } else {
      assert Some(v) == Some(false);
    }
  }

  lemma {:induction false} WatchStmtIsAnOutcome(t: Target, here: bool, s: Stmt, script: Script)
    ensures WatchStmt(t, here, s, script) in OutcomesOf(t, here, s)
    decreases s, 0
  {
    match s {
      case Assignment(lhs, _, _) =>
        LastHitHits(t, s, |lhs|);
        var i := LastHit(t, s, |lhs|);
        if i.Some? {
          var exit := if Detaches(t, s) then Returns else Through;
          WrittenHolds(Known(t, s, i.value), Chosen(script.values, i.value), exit);
        }
      case Expression(_) =>
      case If(init, _, body, _, otherwise) =>
        var inner := After(t, false, init);
        WatchIsAnOutcome(t, false, init, script.init);
        WatchIsAnOutcome(inner, false, if script.taken then body else otherwise, BlockOf(script));
      case Block(body) =>
        WatchIsAnOutcome(t, false, body, BlockOf(script));
      case Loop(_, body) =>
        RoundsAreAnOutcome(t, body, script.blocks);
      case Leave(_, _) =>
    }
  }

  lemma {:induction false} WatchIsAnOutcome(t: Target, here: bool, stmts: seq<Stmt>, scripts: seq<Script>)
    ensures Watch(t, here, stmts, scripts) in Outcomes(t, here, stmts)
    decreases stmts, 0
  {
    if stmts != [] {
      WatchStmtIsAnOutcome(t, here, stmts[0], Head(scripts));
      WatchIsAnOutcome(Next(t, here, stmts[0]), here, stmts[1..], Tail(scripts));
    }
  }

  lemma {:induction false} RoundsAreAnOutcome(t: Target, body: seq<Stmt>, rounds: seq<seq<Script>>)
    ensures var each := Outcomes(t, false, body); WatchRounds(t, body, rounds) in Then(Goes(each), Stops(each))
    decreases body, |rounds| + 1
  {
    var each := Outcomes(t, false, body);
    if rounds == [] {
      assert AndThen(KEEP, KEEP) == KEEP;
    } else {
      WatchIsAnOutcome(t, false, body, rounds[0]);
      RoundsAreAnOutcome(t, body, rounds[1..]);
      RoundFirst(each, Watch(t, false, body, rounds[0]), WatchRounds(t, body, rounds[1..]));
    }
  }

  function RoundThen(round: Outcome, rest: Outcome): Outcome {
    if round.exit == Returns then round
    else if round.exit == Breaks then Outcome(round.last, Through)
    else AndThen(Outcome(round.last, Through), rest)
  }

  lemma RoundFirst(each: set<Outcome>, round: Outcome, rest: Outcome)
    requires round in each && rest in Then(Goes(each), Stops(each))
    ensures RoundThen(round, rest) in Then(Goes(each), Stops(each))
  {
    var g, e :| g in Goes(each) && e in Stops(each) && rest == AndThen(g, e);
    if round.exit == Returns || round.exit == Breaks {
      var stop := Outcome(round.last, if round.exit == Breaks then Through else Returns);
      assert stop in Stops(each) && RoundThen(round, rest) == AndThen(KEEP, stop);
    } else {
      var go := Outcome(round.last, Through);
      assert go in Goes(each);
      assert RoundThen(round, rest) == AndThen(if g.last.Some? then g else go, e);
    }
  }

  /** Every outcome has a script. */
  lemma {:induction false} ReachStmt(t: Target, here: bool, s: Stmt, o: Outcome) returns (script: Script)
    requires o in OutcomesOf(t, here, s)
    ensures WatchStmt(t, here, s, script) == o
    decreases s, 0
  {
    script := IDLE;
    match s {
      case Assignment(lhs, _, _) =>
        LastHitHits(t, s, |lhs|);
        var i := LastHit(t, s, |lhs|);
        if !Hides(t, here, s) && i.Some? {
          script := IDLE.(values := seq(i.value + 1, k => o.last == Some(true)));
        }
      case Expression(_) =>
      case If(init, _, body, _, otherwise) =>
        var inner := After(t, false, init);
        var a, b :| a in Outcomes(t, false, init)
          && b in Outcomes(inner, false, body) + Outcomes(inner, false, otherwise)
          && o == AndThen(a, b);
        var first := Reach(t, false, init, a);
        var taken := b in Outcomes(inner, false, body);
        var second := Reach(inner, false, if taken then body else otherwise, b);
        script := Script([], taken, first, [second]);
      case Block(body) =>
        var inside := Reach(t, false, body, o);
        script := IDLE.(blocks := [inside]);
      case Loop(_, body) =>
        var rounds := ReachRounds(t, body, o);
        script := IDLE.(blocks := rounds);
      case Leave(_, _) =>
        script := IDLE.(values := [o.last == Some(true)]);
    }
  }

  lemma {:induction false} Reach(t: Target, here: bool, stmts: seq<Stmt>, o: Outcome) returns (scripts: seq<Script>)
    requires o in Outcomes(t, here, stmts)
    ensures |scripts| == |stmts| && Watch(t, here, stmts, scripts) == o
    decreases stmts, 0
  {
    scripts := [];
    if stmts != [] {
      var rest := Outcomes(Next(t, here, stmts[0]), here, stmts[1..]);
      var a, b :| a in OutcomesOf(t, here, stmts[0]) && b in rest && o == AndThen(a, b);
      var first := ReachStmt(t, here, stmts[0], a);
      var second := Reach(Next(t, here, stmts[0]), here, stmts[1..], b);
      scripts := [first] + second;
      assert Tail(scripts) == second;
    }
  }

  lemma {:induction false} ReachStop(t: Target, body: seq<Stmt>, e: Outcome) returns (rounds: seq<seq<Script>>)
    requires e in Stops(Outcomes(t, false, body))
    ensures WatchRounds(t, body, rounds) == e
    decreases body, 1
  {
    rounds := [];
    if e != KEEP {
      var r :| r in Outcomes(t, false, body) && (r.exit == Breaks || r.exit == Returns)
        && e == Outcome(r.last, if r.exit == Breaks then Through else Returns);
      var last := Reach(t, false, body, r);
      rounds := [last];
    }
  }

  lemma {:induction false} ReachRounds(t: Target, body: seq<Stmt>, o: Outcome) returns (rounds: seq<seq<Script>>)
    requires var each := Outcomes(t, false, body); o in Then(Goes(each), Stops(each))
    ensures WatchRounds(t, body, rounds) == o
    decreases body, 2
  {
    var each := Outcomes(t, false, body);
    var g, e :| g in Goes(each) && e in Stops(each) && o == AndThen(g, e);
    rounds := ReachStop(t, body, e);
    if g != KEEP {
      var r :| r in each && (r.exit == Through || r.exit == Continues) && g == Outcome(r.last, Through);
      var first := Reach(t, false, body, r);
      var all := [first] + rounds;
      assert all[1..] == rounds;
      rounds := all;
    }
  }

  // ---- Parts of a body ------------------------------------------------------

  function Drop(scripts: seq<Script>, n: nat): seq<Script> {
    if n == 0 then scripts else Drop(Tail(scripts), n - 1)
  }

  lemma {:induction false} DropExact(a: seq<Script>, b: seq<Script>)
    ensures Drop(a + b, |a|) == b
  {
    if a == [] {
      assert a + b == b;
    } else {
      assert Tail(a + b) == a[1..] + b;
      DropExact(a[1..], b);
    }
  }

  lemma {:induction false} DropNext(scripts: seq<Script>, n: nat)
    ensures Drop(scripts, n + 1) == Tail(Drop(scripts, n))
  {
    if n > 0 {
      DropNext(Tail(scripts), n - 1);
    }
  }

  function Idle(n: nat): (scripts: seq<Script>)
    ensures |scripts| == n
  {
    seq(n, i => IDLE)
  }

  lemma DropIdle(j: nat, script: Script, later: seq<Script>)
    ensures Head(Drop(Idle(j) + ([script] + later), j)) == script && Drop(Idle(j) + ([script] + later), j + 1) == later
  {
    DropExact(Idle(j), [script] + later);
    DropNext(Idle(j) + ([script] + later), j);
  }

  lemma {:induction false} WatchSplits(t: Target, here: bool, a: seq<Stmt>, b: seq<Stmt>, scripts: seq<Script>)
    ensures Watch(t, here, a + b, scripts) ==
      AndThen(Watch(t, here, a, scripts), Watch(After(t, here, a), here, b, Drop(scripts, |a|)))
    decreases |a|
  {
    if a == [] {
      assert a + b == b;
    } else {
      assert (a + b)[1..] == a[1..] + b;
      WatchSplits(Next(t, here, a[0]), here, a[1..], b, Tail(scripts));
    }
  }

  /** Scripts beyond the statements play no part. */
  lemma {:induction false} WatchIgnoresMore(
    t: Target, here: bool, stmts: seq<Stmt>, scripts: seq<Script>, more: seq<Script>)
    requires |scripts| == |stmts|
    ensures Watch(t, here, stmts, scripts + more) == Watch(t, here, stmts, scripts)
    decreases |stmts|
  {
    if stmts != [] {
      assert Tail(scripts + more) == Tail(scripts) + more;
      WatchIgnoresMore(Next(t, here, stmts[0]), here, stmts[1..], Tail(scripts), more);
    }
  }

  lemma {:induction false} StaysVisible(t: Target, stmts: seq<Stmt>)
    ensures After(t, true, stmts) == t
    decreases |stmts|
  {
    if stmts != [] {
      StaysVisible(t, stmts[1..]);
    }
  }

  // ---- Texts that leave the target alone ------------------------------------

  /** Some assignment, at any depth, hits the target or its base. */
  predicate Touches(t: Target, s: Stmt)
    decreases s, 0
  {
    match s
    case Assignment(lhs, _, _) => Detaches(t, s) || exists i :: 0 <= i < |lhs| && Hits(t, s.op, lhs[i])
    case Expression(_) => false
    case If(init, _, body, _, otherwise) => SomeTouches(t, init) || SomeTouches(t, body) || SomeTouches(t, otherwise)
    case Block(body) => SomeTouches(t, body)
    case Loop(_, body) => SomeTouches(t, body)
    case Leave(_, _) => t.Part? || t.Result?
  }

  predicate SomeTouches(t: Target, stmts: seq<Stmt>)
    decreases stmts, 0
  {
    stmts != [] && (Touches(t, stmts[0]) || SomeTouches(t, stmts[1..]))
  }

  /** Some statement, at any depth, leaves a loop or the function. */
  predicate Leaves(s: Stmt)
    decreases s, 0
  {
    match s
    case If(init, _, body, _, otherwise) => SomeLeaves(init) || SomeLeaves(body) || SomeLeaves(otherwise)
    case Block(body) => SomeLeaves(body)
    case Loop(_, body) => SomeLeaves(body)
    case Leave(_, _) => true
    case _ => false
  }

  predicate SomeLeaves(stmts: seq<Stmt>)
    decreases stmts, 0
  {
    stmts != [] && (Leaves(stmts[0]) || SomeLeaves(stmts[1..]))
  }

  predicate Quiet(outcomes: set<Outcome>, leaves: bool) {
    forall o <- outcomes :: o.last.None? && (!leaves ==> o.exit == Through)
  }

  lemma ThenIsQuiet(first: set<Outcome>, second: set<Outcome>, leaves: bool)
    requires Quiet(first, leaves) && Quiet(second, leaves)
    ensures Quiet(Then(first, second), leaves)
  {
  }

  lemma {:induction false} NothingTouchedStmt(t: Target, here: bool, s: Stmt)
    requires !Touches(t, s)
    ensures Quiet(OutcomesOf(t, here, s), Leaves(s))
    decreases s, 0
  {
    match s {
      case Assignment(lhs, _, _) =>
        LastHitHits(t, s, |lhs|);
      case Expression(_) =>
      case If(init, _, body, _, otherwise) =>
        NothingTouched(t, false, init);
        var inner := After(t, false, init);
        AfterTouchesLess(t, false, init, body);
        AfterTouchesLess(t, false, init, otherwise);
        NothingTouched(inner, false, body);
        NothingTouched(inner, false, otherwise);
        var branches := Outcomes(inner, false, body) + Outcomes(inner, false, otherwise);
        ThenIsQuiet(Outcomes(t, false, init), branches, Leaves(s));
      case Block(body) =>
        NothingTouched(t, false, body);
      case Loop(_, body) =>
        NothingTouched(t, false, body);
      case Leave(_, _) =>
    }
  }

  lemma {:induction false} HiddenTouchesLessStmt(t: Target, s: Stmt)
    ensures Touches(Hidden(t), s) ==> Touches(t, s)
    decreases s, 0
  {
    match s {
      case Assignment(_, _, _) =>
      case Expression(_) =>
      case If(init, _, body, _, otherwise) =>
        HiddenTouchesLess(t, init);
        HiddenTouchesLess(t, body);
        HiddenTouchesLess(t, otherwise);
      case Block(body) =>
        HiddenTouchesLess(t, body);
      case Loop(_, body) =>
        HiddenTouchesLess(t, body);
      case Leave(_, _) =>
    }
  }

  lemma {:induction false} HiddenTouchesLess(t: Target, stmts: seq<Stmt>)
    ensures SomeTouches(Hidden(t), stmts) ==> SomeTouches(t, stmts)
    decreases stmts, 0
  {
    if stmts != [] {
      HiddenTouchesLessStmt(t, stmts[0]);
      HiddenTouchesLess(t, stmts[1..]);
    }
  }

  lemma {:induction false} AfterTouchesLess(t: Target, here: bool, init: seq<Stmt>, stmts: seq<Stmt>)
    ensures SomeTouches(After(t, here, init), stmts) ==> SomeTouches(t, stmts)
    decreases |init|
  {
    if init != [] {
      AfterTouchesLess(Next(t, here, init[0]), here, init[1..], stmts);
      HiddenTouchesLess(t, stmts);
    }
  }

  lemma {:induction false} NothingTouched(t: Target, here: bool, stmts: seq<Stmt>)
    requires !SomeTouches(t, stmts)
    ensures Quiet(Outcomes(t, here, stmts), SomeLeaves(stmts))
    decreases stmts, 0
  {
    if stmts != [] {
      NothingTouchedStmt(t, here, stmts[0]);
      HiddenTouchesLess(t, stmts[1..]);
      NothingTouched(Next(t, here, stmts[0]), here, stmts[1..]);
      var later := Outcomes(Next(t, here, stmts[0]), here, stmts[1..]);
      ThenIsQuiet(OutcomesOf(t, here, stmts[0]), later, SomeLeaves(stmts));
    }
  }

  lemma {:induction false} NothingIsNeverTouchedStmt(s: Stmt)
    ensures !Touches(Nothing, s)
    decreases s, 0
  {
    match s {
      case If(init, _, body, _, otherwise) =>
        NothingIsNeverTouched(init);
        NothingIsNeverTouched(body);
        NothingIsNeverTouched(otherwise);
      case Block(body) =>
        NothingIsNeverTouched(body);
      case Loop(_, body) =>
        NothingIsNeverTouched(body);
      case _ =>
    }
  }

  lemma {:induction false} NothingIsNeverTouched(stmts: seq<Stmt>)
    ensures !SomeTouches(Nothing, stmts)
    decreases stmts, 0
  {
    if stmts != [] {
      NothingIsNeverTouchedStmt(stmts[0]);
      NothingIsNeverTouched(stmts[1..]);
    }
  }

  lemma {:induction false} TouchesPart(t: Target, stmts: seq<Stmt>, i: nat)
    requires i < |stmts| && Touches(t, stmts[i])
    ensures SomeTouches(t, stmts)
  {
    if i > 0 {
      TouchesPart(t, stmts[1..], i - 1);
    }
  }

  lemma {:induction false} SomeTouchesHolds(t: Target, stmts: seq<Stmt>)
    ensures SomeTouches(t, stmts) ==> exists i :: 0 <= i < |stmts| && Touches(t, stmts[i])
    decreases |stmts|
  {
    if stmts != [] && !Touches(t, stmts[0]) {
      SomeTouchesHolds(t, stmts[1..]);
      if SomeTouches(t, stmts[1..]) {
        var i :| 0 <= i < |stmts[1..]| && Touches(t, stmts[1..][i]);
        assert stmts[i + 1] == stmts[1..][i];
      }
    }
  }

  lemma {:induction false} LeavesPart(stmts: seq<Stmt>, i: nat)
    requires i < |stmts| && Leaves(stmts[i])
    ensures SomeLeaves(stmts)
  {
    if i > 0 {
      LeavesPart(stmts[1..], i - 1);
    }
  }

  lemma {:induction false} SomeLeavesHolds(stmts: seq<Stmt>)
    ensures SomeLeaves(stmts) ==> exists i :: 0 <= i < |stmts| && Leaves(stmts[i])
    decreases |stmts|
  {
    if stmts != [] && !Leaves(stmts[0]) {
      SomeLeavesHolds(stmts[1..]);
      if SomeLeaves(stmts[1..]) {
        var i :| 0 <= i < |stmts[1..]| && Leaves(stmts[1..][i]);
        assert stmts[i + 1] == stmts[1..][i];
      }
    }
  }
}
