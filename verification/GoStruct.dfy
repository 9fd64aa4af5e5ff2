/**
 Running the fragment on one field of a struct variable that the function
 returns, together with the standing of a parameter. What happens to them is
 what GoSource's watch says.
 */
module GoStruct {
  import opened Prelude
  import opened GoSource

  /** The struct variable, the field of it that is followed, and the parameter. */
  datatype Names = Names(base: string, field: string, parameter: string)

  /**
   The field's value, whether the parameter still is what the caller passed,
   the names that mean something else by now, the names of the current block,
   how control goes on, and the field of what was returned.
   */
  datatype Frame = Frame(
    value: bool, intact: bool, hidden: set<string>, local: set<string>, exit: Exit, result: Option<bool>)

  function FieldOf(n: Names): Target {
    Part(n.base, n.field)
  }

  // ---- One assignment -------------------------------------------------------

  /** The operand writes the followed field; names mean what they meant before the statement. */
  predicate WritesField(n: Names, before: Frame, m: Frame, s: Stmt, i: nat)
    requires s.Assignment? && i < |s.lhs|
  {
    || (s.lhs[i] == Ident(n.base) && n.base !in m.hidden)
    || (s.lhs[i] == Field(n.base, n.field) && !Defines(s.op) && n.base !in before.hidden)
  }

  function Store(n: Names, before: Frame, m: Frame, s: Stmt, i: nat, chosen: bool): Frame
    requires s.Assignment? && i < |s.lhs|
  {
    var target := s.lhs[i];
    if target.Ident? && Defines(s.op) && target.name !in m.local then
      m.(hidden := m.hidden + {target.name}, local := m.local + {target.name})
    else
      m.(value := if WritesField(n, before, m, s, i) then GetOr(Known(FieldOf(n), s, i), chosen) else m.value,
         intact := m.intact && !(target == Ident(n.parameter) && n.parameter !in m.hidden))
  }

  function StoreAll(n: Names, m: Frame, s: Stmt, k: nat, values: seq<bool>): Frame
    requires s.Assignment? && k <= |s.lhs|
  {
    if k == 0 then m else Store(n, m, StoreAll(n, m, s, k - 1, values), s, k - 1, Chosen(values, k - 1))
  }

  // ---- Statements -----------------------------------------------------------

  function Enter(m: Frame): Frame {
    m.(local := {})
  }

  function Restored(r: Frame, m: Frame): Frame {
    r.(hidden := m.hidden, local := m.local)
  }

  function Exec(n: Names, m: Frame, s: Stmt, script: Script): Frame
    decreases s, 0
  {
    if m.exit != Through then m
    else
      match s
      case Assignment(lhs, _, _) => StoreAll(n, m, s, |lhs|, script.values)
      case Expression(_) => m
      case If(init, _, body, _, otherwise) =>
        var inner := Run(n, Enter(m), init, script.init);
        Restored(Run(n, Enter(inner), if script.taken then body else otherwise, BlockOf(script)), m)
      case Block(body) => Restored(Run(n, Enter(m), body, BlockOf(script)), m)
      case Loop(_, body) => Rounds(n, m, body, script.blocks)
      case Leave(how, results) =>
        var returned := if results == [Ident(n.base)] && n.base !in m.hidden then m.value else Chosen(script.values, 0);
        m.(exit := how, result := if how == Returns then Some(returned) else m.result)
  }

  function Run(n: Names, m: Frame, stmts: seq<Stmt>, scripts: seq<Script>): Frame
    decreases stmts, 0
  {
    if stmts == [] then m else Run(n, Exec(n, m, stmts[0], Head(scripts)), stmts[1..], Tail(scripts))
  }

  function Rounds(n: Names, m: Frame, body: seq<Stmt>, rounds: seq<seq<Script>>): Frame
    decreases body, |rounds| + 1
  {
    if rounds == [] then m
    else
      var round := Restored(Run(n, Enter(m), body, rounds[0]), m);
      if round.exit == Returns then round
      else if round.exit == Breaks then round.(exit := Through)
      else Rounds(n, round.(exit := Through), body, rounds[1..])
  }

  lemma {:induction false} StoppedRun(n: Names, m: Frame, stmts: seq<Stmt>, scripts: seq<Script>)
    requires m.exit != Through
    ensures Run(n, m, stmts, scripts) == m
    decreases |stmts|
  {
    if stmts != [] {
      StoppedRun(n, m, stmts[1..], Tail(scripts));
    }
  }

  // ---- The names of the body ------------------------------------------------

  predicate Declares(s: Stmt, name: string) {
    s.Assignment? && Defines(s.op) && Ident(name) in s.lhs
  }

  lemma {:induction false} AllLocals(n: Names, m: Frame, s: Stmt, k: nat, values: seq<bool>, name: string)
    requires s.Assignment? && k <= |s.lhs|
    ensures name in StoreAll(n, m, s, k, values).local <==>
      name in m.local || (Defines(s.op) && Ident(name) in s.lhs[..k])
  {
    if k > 0 {
      assert s.lhs[..k] == s.lhs[..k - 1] + [s.lhs[k - 1]];
      AllLocals(n, m, s, k - 1, values, name);
    }
  }

  lemma {:induction false} RoundsKeepLocals(n: Names, m: Frame, body: seq<Stmt>, rounds: seq<seq<Script>>)
    ensures Rounds(n, m, body, rounds).local == m.local
    decreases |rounds|
  {
    if rounds != [] {
      RoundsKeepLocals(n, Restored(Run(n, Enter(m), body, rounds[0]), m).(exit := Through), body, rounds[1..]);
    }
  }

  lemma ExecLocals(n: Names, m: Frame, s: Stmt, script: Script, name: string)
    requires m.exit == Through
    ensures name in Exec(n, m, s, script).local <==> name in m.local || Declares(s, name)
  {
    if s.Assignment? {
      AllLocals(n, m, s, |s.lhs|, script.values, name);
      assert s.lhs[..|s.lhs|] == s.lhs;
    } else if s.Loop? {
      RoundsKeepLocals(n, m, s.body, script.blocks);
    }
  }

  /** The names of a body that ran to its end are those that its own statements declare. */
  lemma {:induction false} RunLocals(n: Names, m: Frame, stmts: seq<Stmt>, scripts: seq<Script>, name: string)
    requires Run(n, m, stmts, scripts).exit == Through
    ensures name in Run(n, m, stmts, scripts).local <==>
      name in m.local || exists k :: 0 <= k < |stmts| && Declares(stmts[k], name)
    decreases |stmts|
  {
    if m.exit != Through {
      StoppedRun(n, m, stmts, scripts);
    }
    if stmts != [] {
      var next := Exec(n, m, stmts[0], Head(scripts));
      ExecLocals(n, m, stmts[0], Head(scripts), name);
      RunLocals(n, next, stmts[1..], Tail(scripts), name);
      assert forall k :: 0 < k < |stmts| ==> stmts[k] == stmts[1..][k - 1];
    }
  }

  // ---- The field ------------------------------------------------------------

  /** What the function would return for the field if it ended here. */
  function Final(m: Frame): bool {
    GetOr(m.result, m.value)
  }

  predicate SeesField(n: Names, m: Frame, t: Target, here: bool) {
    if t == FieldOf(n) then n.base !in m.hidden && here == (n.base in m.local) else t == Result && n.base in m.hidden
  }

  predicate Ready(m: Frame) {
    m.exit == Through && m.result.None?
  }

  /** What a run does to the field, and how it ends, as the watch says. */
  predicate FieldAgrees(n: Names, m: Frame, r: Frame, o: Outcome, t: Target, here: bool) {
    && r.exit == o.exit && Final(r) == GetOr(o.last, m.value)
    && (r.exit != Returns ==> r.result.None?)
    && (r.exit == Through ==> SeesField(n, r, t, here))
  }

  /** The field part of the way through an assignment. */
  predicate FieldIs(n: Names, r: Frame, t: Target, here: bool, value: bool) {
    Ready(r) && r.value == value && SeesField(n, r, t, here)
  }

  lemma HidingStep(n: Names, before: Frame, m: Frame, s: Stmt, i: nat, chosen: bool, t: Target, value: bool)
    requires s.Assignment? && i < |s.lhs| && t == FieldOf(n) && Defines(s.op)
    requires FieldIs(n, m, HidingUpTo(t, n.base, s, i), false, value)
    ensures FieldIs(n, Store(n, before, m, s, i, chosen), HidingUpTo(t, n.base, s, i + 1), false, value)
  {
    HidingEnds(t, n.base, s, i);
  }

  lemma {:induction false} HiddenByAll(n: Names, m: Frame, s: Stmt, k: nat, values: seq<bool>, t: Target)
    requires s.Assignment? && k <= |s.lhs| && t == FieldOf(n) && Defines(s.op) && FieldIs(n, m, t, false, m.value)
    ensures FieldIs(n, StoreAll(n, m, s, k, values), HidingUpTo(t, n.base, s, k), false, m.value)
  {
    if k > 0 {
      HiddenByAll(n, m, s, k - 1, values, t);
      HidingStep(n, m, StoreAll(n, m, s, k - 1, values), s, k - 1, Chosen(values, k - 1), t, m.value);
    }
  }

  lemma StoreOnField(
    n: Names, before: Frame, m: Frame, s: Stmt, i: nat, chosen: bool, t: Target, here: bool, value: bool)
    requires s.Assignment? && i < |s.lhs| && FieldIs(n, m, t, here, value) && !Hides(t, here, s)
    requires SeesField(n, before, t, here)
    ensures FieldIs(n, Store(n, before, m, s, i, chosen), t, here,
                    if Hits(t, s.op, s.lhs[i]) then GetOr(Known(t, s, i), chosen) else value)
  {
    assert s.lhs[i] in s.lhs;
  }

  lemma {:induction false} WrittenByAll(n: Names, m: Frame, s: Stmt, k: nat, values: seq<bool>, t: Target, here: bool)
    requires s.Assignment? && k <= |s.lhs| && FieldIs(n, m, t, here, m.value) && !Hides(t, here, s)
    ensures FieldIs(n, StoreAll(n, m, s, k, values), t, here, GetOr(LastValue(t, s, k, values), m.value))
  {
    if k > 0 {
      WrittenByAll(n, m, s, k - 1, values, t, here);
      StoreOnField(n, m, StoreAll(n, m, s, k - 1, values), s, k - 1, Chosen(values, k - 1), t, here,
                   GetOr(LastValue(t, s, k - 1, values), m.value));
    }
  }

  lemma AssignmentOnField(n: Names, m: Frame, s: Stmt, script: Script, t: Target, here: bool)
    requires s.Assignment? && Ready(m) && SeesField(n, m, t, here)
    ensures FieldAgrees(n, m, Exec(n, m, s, script), WatchStmt(t, here, s, script), Next(t, here, s), here)
  {
    if Hides(t, here, s) {
      HiddenByAll(n, m, s, |s.lhs|, script.values, t);
      HidingEnds(t, n.base, s, |s.lhs|);
      assert s.lhs[..|s.lhs|] == s.lhs;
    } else {
      WrittenByAll(n, m, s, |s.lhs|, script.values, t, here);
      LastValueIsTheHit(t, s, |s.lhs|, script.values);
    }
  }

  lemma RestoredField(n: Names, m: Frame, r: Frame, o: Outcome, inner: Target, t: Target, here: bool)
    requires Ready(m) && SeesField(n, m, t, here) && FieldAgrees(n, m, r, o, inner, false)
    ensures FieldAgrees(n, m, Restored(r, m), o, t, here)
  {
  }

  lemma {:induction false} ExecOnField(n: Names, m: Frame, s: Stmt, script: Script, t: Target, here: bool)
    requires Ready(m) && SeesField(n, m, t, here)
    ensures FieldAgrees(n, m, Exec(n, m, s, script), WatchStmt(t, here, s, script), Next(t, here, s), here)
    decreases s, 1
  {
    match s {
      case Assignment(_, _, _) =>
        AssignmentOnField(n, m, s, script, t, here);
      case Expression(_) =>
      case If(_, _, _, _, _) =>
        IfOnField(n, m, s, script, t, here);
      case Block(body) =>
        RunOnField(n, Enter(m), body, BlockOf(script), t, false);
        var r, o := Run(n, Enter(m), body, BlockOf(script)), Watch(t, false, body, BlockOf(script));
        RestoredField(n, m, r, o, After(t, false, body), t, here);
      case Loop(_, body) =>
        RoundsOnField(n, m, body, script.blocks, t, here);
      case Leave(_, _) =>
    }
  }

  lemma {:induction false} IfOnField(n: Names, m: Frame, s: Stmt, script: Script, t: Target, here: bool)
    requires Ready(m) && SeesField(n, m, t, here) && s.If?
    ensures FieldAgrees(n, m, Exec(n, m, s, script), WatchStmt(t, here, s, script), t, here)
    decreases s, 0
  {
    var first, a := Run(n, Enter(m), s.init, script.init), Watch(t, false, s.init, script.init);
    var inner := After(t, false, s.init);
    var branch := if script.taken then s.body else s.otherwise;
    RunOnField(n, Enter(m), s.init, script.init, t, false);
    if a.exit == Through {
      RunOnField(n, Enter(first), branch, BlockOf(script), inner, false);
    } else {
      StoppedRun(n, Enter(first), branch, BlockOf(script));
    }
    var last, o := Run(n, Enter(first), branch, BlockOf(script)), WatchStmt(t, here, s, script);
    assert FieldAgrees(n, m, last, o, After(inner, false, branch), false);
    RestoredField(n, m, last, o, After(inner, false, branch), t, here);
  }

  lemma {:induction false} RunOnField(n: Names, m: Frame, stmts: seq<Stmt>, scripts: seq<Script>, t: Target, here: bool)
    requires Ready(m) && SeesField(n, m, t, here)
    ensures FieldAgrees(n, m, Run(n, m, stmts, scripts), Watch(t, here, stmts, scripts), After(t, here, stmts), here)
    decreases stmts, 0
  {
    if stmts != [] {
      var next := Exec(n, m, stmts[0], Head(scripts));
      ExecOnField(n, m, stmts[0], Head(scripts), t, here);
      if next.exit == Through {
        RunOnField(n, next, stmts[1..], Tail(scripts), Next(t, here, stmts[0]), here);
      } else {
        StoppedRun(n, next, stmts[1..], Tail(scripts));
      }
    }
  }

  lemma {:induction false} RoundsOnField(
    n: Names, m: Frame, body: seq<Stmt>, rounds: seq<seq<Script>>, t: Target, here: bool)
    requires Ready(m) && SeesField(n, m, t, here)
    ensures FieldAgrees(n, m, Rounds(n, m, body, rounds), WatchRounds(t, body, rounds), t, here)
    decreases body, |rounds| + 1
  {
    if rounds != [] {
      RunOnField(n, Enter(m), body, rounds[0], t, false);
      var inside, o := Run(n, Enter(m), body, rounds[0]), Watch(t, false, body, rounds[0]);
      RestoredField(n, m, inside, o, After(t, false, body), t, here);
      var next := Restored(inside, m).(exit := Through);
      if o.exit != Returns && o.exit != Breaks {
        RoundsOnField(n, next, body, rounds[1..], t, here);
      }
    }
  }

  // ---- The parameter --------------------------------------------------------

  predicate SeesParameter(n: Names, m: Frame, t: Target, here: bool) {
    if t == Var(n.parameter) then n.parameter !in m.hidden && here == (n.parameter in m.local)
    else t == Nothing && n.parameter in m.hidden
  }

  /** What a run does to the parameter, and how it ends, as the watch says. */
  predicate ParameterAgrees(n: Names, m: Frame, r: Frame, o: Outcome, t: Target, here: bool) {
    && r.exit == o.exit && r.intact == (m.intact && o.last.None?)
    && (r.exit == Through ==> SeesParameter(n, r, t, here))
  }

  predicate ParameterIs(n: Names, r: Frame, t: Target, here: bool, intact: bool) {
    r.exit == Through && r.intact == intact && SeesParameter(n, r, t, here)
  }

  lemma HidingParameter(n: Names, before: Frame, m: Frame, s: Stmt, i: nat, chosen: bool, t: Target, intact: bool)
    requires s.Assignment? && i < |s.lhs| && t == Var(n.parameter) && Defines(s.op)
    requires ParameterIs(n, m, HidingUpTo(t, n.parameter, s, i), false, intact)
    ensures ParameterIs(n, Store(n, before, m, s, i, chosen), HidingUpTo(t, n.parameter, s, i + 1), false, intact)
  {
    HidingEnds(t, n.parameter, s, i);
  }

  lemma {:induction false} ParameterHiddenByAll(n: Names, m: Frame, s: Stmt, k: nat, values: seq<bool>, t: Target)
    requires s.Assignment? && k <= |s.lhs| && t == Var(n.parameter) && Defines(s.op)
      && ParameterIs(n, m, t, false, m.intact)
    ensures ParameterIs(n, StoreAll(n, m, s, k, values), HidingUpTo(t, n.parameter, s, k), false, m.intact)
  {
    if k > 0 {
      ParameterHiddenByAll(n, m, s, k - 1, values, t);
      HidingParameter(n, m, StoreAll(n, m, s, k - 1, values), s, k - 1, Chosen(values, k - 1), t, m.intact);
    }
  }

  lemma StoreOnParameter(
    n: Names, before: Frame, m: Frame, s: Stmt, i: nat, chosen: bool, t: Target, here: bool, intact: bool)
    requires s.Assignment? && i < |s.lhs| && ParameterIs(n, m, t, here, intact) && !Hides(t, here, s)
    ensures ParameterIs(n, Store(n, before, m, s, i, chosen), t, here, intact && !Hits(t, s.op, s.lhs[i]))
  {
    assert s.lhs[i] in s.lhs;
  }

  lemma {:induction false} ParameterWrittenByAll(
    n: Names, m: Frame, s: Stmt, k: nat, values: seq<bool>, t: Target, here: bool)
    requires s.Assignment? && k <= |s.lhs| && ParameterIs(n, m, t, here, m.intact) && !Hides(t, here, s)
    ensures ParameterIs(n, StoreAll(n, m, s, k, values), t, here, m.intact && LastHit(t, s, k).None?)
  {
    if k > 0 {
      ParameterWrittenByAll(n, m, s, k - 1, values, t, here);
      StoreOnParameter(n, m, StoreAll(n, m, s, k - 1, values), s, k - 1, Chosen(values, k - 1), t, here,
                       m.intact && LastHit(t, s, k - 1).None?);
    }
  }

  lemma AssignmentOnParameter(n: Names, m: Frame, s: Stmt, script: Script, t: Target, here: bool)
    requires s.Assignment? && m.exit == Through && SeesParameter(n, m, t, here)
    ensures ParameterAgrees(n, m, Exec(n, m, s, script), WatchStmt(t, here, s, script), Next(t, here, s), here)
  {
    if Hides(t, here, s) {
      ParameterHiddenByAll(n, m, s, |s.lhs|, script.values, t);
      HidingEnds(t, n.parameter, s, |s.lhs|);
      assert s.lhs[..|s.lhs|] == s.lhs;
    } else {
      ParameterWrittenByAll(n, m, s, |s.lhs|, script.values, t, here);
    }
  }

  lemma RestoredParameter(n: Names, m: Frame, r: Frame, o: Outcome, inner: Target, t: Target, here: bool)
    requires SeesParameter(n, m, t, here) && ParameterAgrees(n, m, r, o, inner, false)
    ensures ParameterAgrees(n, m, Restored(r, m), o, t, here)
  {
  }

  lemma {:induction false} ExecOnParameter(n: Names, m: Frame, s: Stmt, script: Script, t: Target, here: bool)
    requires m.exit == Through && SeesParameter(n, m, t, here)
    ensures ParameterAgrees(n, m, Exec(n, m, s, script), WatchStmt(t, here, s, script), Next(t, here, s), here)
    decreases s, 1
  {
    match s {
      case Assignment(_, _, _) =>
        AssignmentOnParameter(n, m, s, script, t, here);
      case Expression(_) =>
      case If(_, _, _, _, _) =>
        IfOnParameter(n, m, s, script, t, here);
      case Block(body) =>
        RunOnParameter(n, Enter(m), body, BlockOf(script), t, false);
        var r, o := Run(n, Enter(m), body, BlockOf(script)), Watch(t, false, body, BlockOf(script));
        RestoredParameter(n, m, r, o, After(t, false, body), t, here);
      case Loop(_, body) =>
        RoundsOnParameter(n, m, body, script.blocks, t, here);
      case Leave(_, _) =>
    }
  }

  lemma {:induction false} IfOnParameter(n: Names, m: Frame, s: Stmt, script: Script, t: Target, here: bool)
    requires m.exit == Through && SeesParameter(n, m, t, here) && s.If?
    ensures ParameterAgrees(n, m, Exec(n, m, s, script), WatchStmt(t, here, s, script), t, here)
    decreases s, 0
  {
    var first, a := Run(n, Enter(m), s.init, script.init), Watch(t, false, s.init, script.init);
    var inner := After(t, false, s.init);
    var branch := if script.taken then s.body else s.otherwise;
    RunOnParameter(n, Enter(m), s.init, script.init, t, false);
    if a.exit == Through {
      RunOnParameter(n, Enter(first), branch, BlockOf(script), inner, false);
    } else {
      StoppedRun(n, Enter(first), branch, BlockOf(script));
    }
    var last, o := Run(n, Enter(first), branch, BlockOf(script)), WatchStmt(t, here, s, script);
    assert ParameterAgrees(n, m, last, o, After(inner, false, branch), false);
    RestoredParameter(n, m, last, o, After(inner, false, branch), t, here);
  }

  lemma {:induction false} RunOnParameter(
    n: Names, m: Frame, stmts: seq<Stmt>, scripts: seq<Script>, t: Target, here: bool)
    requires m.exit == Through && SeesParameter(n, m, t, here)
    ensures var r, o := Run(n, m, stmts, scripts), Watch(t, here, stmts, scripts);
      ParameterAgrees(n, m, r, o, After(t, here, stmts), here)
    decreases stmts, 0
  {
    if stmts != [] {
      var next := Exec(n, m, stmts[0], Head(scripts));
      ExecOnParameter(n, m, stmts[0], Head(scripts), t, here);
      if next.exit == Through {
        RunOnParameter(n, next, stmts[1..], Tail(scripts), Next(t, here, stmts[0]), here);
      } else {
        StoppedRun(n, next, stmts[1..], Tail(scripts));
      }
    }
  }

  lemma {:induction false} RoundsOnParameter(
    n: Names, m: Frame, body: seq<Stmt>, rounds: seq<seq<Script>>, t: Target, here: bool)
    requires m.exit == Through && SeesParameter(n, m, t, here)
    ensures ParameterAgrees(n, m, Rounds(n, m, body, rounds), WatchRounds(t, body, rounds), t, here)
    decreases body, |rounds| + 1
  {
    if rounds != [] {
      RunOnParameter(n, Enter(m), body, rounds[0], t, false);
      var inside, o := Run(n, Enter(m), body, rounds[0]), Watch(t, false, body, rounds[0]);
      RestoredParameter(n, m, inside, o, After(t, false, body), t, here);
      var next := Restored(inside, m).(exit := Through);
      if o.exit != Returns && o.exit != Breaks {
        RoundsOnParameter(n, next, body, rounds[1..], t, here);
      }
    }
  }
}
