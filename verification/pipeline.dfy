/**
 * The analyzer and the interpreter together: what acceptance by the
 * analyzer guarantees at run time, and what it does not.
 */
module Pipeline {
  import opened Wrappers
  import opened Ast
  import opened Semantic
  import opened SemanticFacts
  import opened Interpreter
  import opened InterpreterFacts

  /** No entry of the log reports a variable missing from the store. */
  predicate NoUnknownVariable(log: seq<LogEntry>)
  {
    forall k :: 0 <= k < |log| ==> !(log[k].Failure? && log[k].error.UnknownVariable?)
  }

  /** A statement whose names are all in the store adds no such failure to the log. */
  lemma StatementFindsItsNames(lib: FloatLib, gui: bool, m: Machine, s: Stmt)
    requires s.Assign? ==> Names(s.expr) <= m.memory.Keys
    requires NoUnknownVariable(m.log)
    ensures NoUnknownVariable(Exec(lib, gui, m, s).log)
  {
    var r := Exec(lib, gui, m, s);
    ExecLog(lib, gui, m, s);
    if s.Assign? {
      FailureCause(lib, gui, m.memory, IO(m.log, m.input), s.expr);
    }
    forall j | 0 <= j < |r.log|
      ensures !(r.log[j].Failure? && r.log[j].error.UnknownVariable?)
    {
      if j < |m.log| {
        assert r.log[j] == r.log[..|m.log|][j];
      }
    }
  }

  /** The first `k` statements of an accepted program never look up a name the store lacks. */
  lemma {:induction false} AcceptedPrefixFindsItsNames(lib: FloatLib, gui: bool, input: seq<string>, ss: seq<Stmt>, k: nat)
    requires CheckAll(Scope(map[], []), ss).errors == []
    requires k <= |ss|
    ensures NoUnknownVariable(ExecAll(lib, gui, Machine(map[], [], input), ss[..k]).log)
    decreases k
  {
    if k > 0 {
      var m0 := Machine(map[], [], input);
      AcceptedPrefixFindsItsNames(lib, gui, input, ss, k - 1);
      ExecAllStep(lib, gui, m0, ss, k - 1);
      if ss[k - 1].Assign? {
        DeclaredBeforeUse(ss, k - 1);
      }
      StatementFindsItsNames(lib, gui, ExecAll(lib, gui, m0, ss[..k - 1]), ss[k - 1]);
    }
  }

  /**
   * A program the analyzer accepts never fails at run time for want of a
   * variable: every name it reads was declared earlier, and a declaration
   * always creates the slot.
   */
  lemma AcceptedProgramsFindTheirNames(lib: FloatLib, gui: bool, input: seq<string>, p: Program)
    requires CheckAll(Scope(map[], []), p.stmts).errors == []
    ensures NoUnknownVariable(ExecAll(lib, gui, Machine(map[], [], input), p.stmts).log)
  {
    AcceptedPrefixFindsItsNames(lib, gui, input, p.stmts, |p.stmts|);
    assert p.stmts[..|p.stmts|] == p.stmts;
  }

  /** The analyzer accepts `x Entero; y Entero; y = x;`: it types `x` from its declaration. */
  lemma CopyOfDeclaredIsAccepted(x: string, y: string)
    requires x != y
    ensures CheckAll(Scope(map[], []), [VarDecl(x, Entero), VarDecl(y, Entero), Assign(y, VarRef(x))]).errors == []
  {
    var ss := [VarDecl(x, Entero), VarDecl(y, Entero), Assign(y, VarRef(x))];
    var p1, p2 := [ss[0]], [ss[0], ss[1]];
    assert ss[..2] == p2 && p2[..1] == p1 && p1[..0] == [];
    var sc0 := Scope(map[], []);
    var sc1 := CheckStmt(sc0, ss[0]);
    assert CheckAll(sc0, p1) == sc1;
    var sc2 := CheckStmt(sc1, ss[1]);
    assert CheckAll(sc0, p2) == sc2;
    assert x in sc2.symbols && sc2.symbols[x] == Symbol(Entero, None);
    assert y in sc2.symbols && sc2.symbols[y].tipo == Entero && sc2.errors == [];
  }

  /**
   * Acceptance does not rule out reading an empty variable: `x Entero;
   * y Entero; y = x;` passes the analyzer, but its assignment fails at run
   * time because `x` was never given a value.
   */
  lemma AcceptedButUnassigned(lib: FloatLib, gui: bool, m: Machine, x: string, y: string)
    requires x != y
    ensures var ss := [VarDecl(x, Entero), VarDecl(y, Entero), Assign(y, VarRef(x))];
            CheckAll(Scope(map[], []), ss).errors == []
            && ExecAll(lib, gui, m, ss).log == m.log + [Declaration(x, Entero), Declaration(y, Entero), Failure(Unassigned(x))]
  {
    CopyOfDeclaredIsAccepted(x, y);
    var m1 := Exec(lib, gui, m, VarDecl(x, Entero));
    var m2 := Exec(lib, gui, m1, VarDecl(y, Entero));
    assert m2.memory == m.memory[x := None][y := None];
    assert m2.log == m.log + [Declaration(x, Entero), Declaration(y, Entero)];
    var ev := Evaluate(lib, gui, m2.memory, IO(m2.log, m2.input), VarRef(x));
    assert ev == Evaluation(Err(Unassigned(x)), IO(m2.log, m2.input));
    ExecAllOfThree(lib, gui, m, VarDecl(x, Entero), VarDecl(y, Entero), Assign(y, VarRef(x)));
  }
}
