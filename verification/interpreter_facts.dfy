/**
 * Properties of the interpreter: continue-on-error execution, one log
 * entry per statement, the comma/dot conversions, integer arithmetic
 * against a reference evaluator, and the containment of invalid operators.
 */
module InterpreterFacts {
  import opened Wrappers
  import opened Numerals
  import opened Ast
  import opened Interpreter

  /** Running two lists of statements one after the other is running their concatenation. */
  lemma {:induction false} ExecAllAppend(lib: FloatLib, gui: bool, m: Machine, a: seq<Stmt>, b: seq<Stmt>)
    ensures ExecAll(lib, gui, m, a + b) == ExecAll(lib, gui, ExecAll(lib, gui, m, a), b)
    decreases |b|
  {
    if b == [] {
      assert a + b == a;
    } else {
      assert (a + b)[..|a + b| - 1] == a + b[..|b| - 1];
      ExecAllAppend(lib, gui, m, a, b[..|b| - 1]);
    }
  }

  /**
   * Whatever the first statement does, failing included, the statements
   * after it run from the state it leaves.
   */
  lemma FailureContained(lib: FloatLib, gui: bool, m: Machine, s: Stmt, rest: seq<Stmt>)
    ensures ExecAll(lib, gui, m, [s] + rest) == ExecAll(lib, gui, Exec(lib, gui, m, s), rest)
  {
    ExecAllAppend(lib, gui, m, [s], rest);
    assert [s][..0] == [];
  }

  /** The log entry a statement leaves when it runs without reading input. */
  predicate Describes(entry: LogEntry, s: Stmt)
  {
    match s
    case VarDecl(n, t) => entry == Declaration(n, t)
    case Assign(n, _) => (entry.Assignment? && entry.name == n) || entry.Failure?
    case Mensaje(t) => entry == Message(t)
  }

  lemma ExecOneEntry(lib: FloatLib, gui: bool, m: Machine, s: Stmt)
    requires !gui
    ensures var r := Exec(lib, gui, m, s);
            r.log == m.log + [r.log[|r.log| - 1]] && Describes(r.log[|r.log| - 1], s)
  {
    if s.Assign? {
      SilentWithoutGui(lib, m.memory, IO(m.log, m.input), s.expr);
    }
  }

  /**
   * Outside GUI mode every statement, successful or not, adds exactly one
   * log entry, and the entries follow the statements in order.
   */
  lemma {:induction false} OneEntryPerStatement(lib: FloatLib, m: Machine, ss: seq<Stmt>)
    ensures var r := ExecAll(lib, false, m, ss);
            |r.log| == |m.log| + |ss| && r.log[..|m.log|] == m.log
            && forall k :: 0 <= k < |ss| ==> Describes(r.log[|m.log| + k], ss[k])
    decreases |ss|
  {
    if ss != [] {
      var init := ss[..|ss| - 1];
      var before := ExecAll(lib, false, m, init);
      OneEntryPerStatement(lib, m, init);
      ExecOneEntry(lib, false, before, ss[|ss| - 1]);
      var r := ExecAll(lib, false, m, ss);
      forall k | 0 <= k < |ss|
        ensures Describes(r.log[|m.log| + k], ss[k])
      {
        if k < |init| {
          assert r.log[|m.log| + k] == before.log[|m.log| + k];
          assert ss[k] == init[k];
        }
      }
    }
  }

  /** A declaration empties the slot even when it held a value. */
  lemma RedeclarationClears(lib: FloatLib, gui: bool, m: Machine, n: string, t: TypeName, v: Value)
    requires n in m.memory && m.memory[n] == Some(v)
    ensures var r := Exec(lib, gui, m, VarDecl(n, t));
            n in r.memory && r.memory[n].None? && r.memory.Keys == m.memory.Keys
  {
  }

  /** Replacing every comma by a dot and then every dot by a comma restores text that had no dot. */
  lemma CommaRoundTrip(s: string)
    requires '.' !in s
    ensures ToComma(Replace(s, ',', '.')) == s
  {
    var d := Replace(s, ',', '.');
    if '.' in d {
      var e := Replace(d, '.', ',');
      assert forall k :: 0 <= k < |s| ==> e[k] == s[k];
    } else {
      assert forall k :: 0 <= k < |s| ==> d[k] == s[k];
    }
  }

  /** Text without a comma survives the trip to decimal commas and back. */
  lemma DotRoundTrip(t: string)
    requires ',' !in t
    ensures Replace(ToComma(t), ',', '.') == t
  {
    var c := ToComma(t);
    var d := Replace(c, ',', '.');
    if '.' in t {
      assert forall k :: 0 <= k < |t| ==> d[k] == t[k];
    } else {
      assert forall k :: 0 <= k < |t| ==> c[k] == t[k] && d[k] == t[k];
    }
  }

  /** The spelling of a natural number is read back as that integer. */
  lemma AsNumberOfDigits(lib: FloatLib, n: nat)
    ensures AsNumber(lib, VStr(Digits(n))) == Ok(OInt(n))
  {
    var s := Digits(n);
    assert forall k :: 0 <= k < |s| ==> s[k] != ',';
    DigitsValueOfDigits(n);
  }

  /** An integer expression: integer literals and variables holding integers under `+`, `-` and `*`. */
  predicate IntExpr(memory: map<string, Option<Value>>, e: Expr)
  {
    match e
    case Number(v, _) => v.VInt?
    case VarRef(n) => n in memory && memory[n].Some? && memory[n].value.VInt?
    case BinaryOp(op, l, r) => op in {"+", "-", "*"} && IntExpr(memory, l) && IntExpr(memory, r)
    case _ => false
  }

  /** Reference arithmetic on integer expressions. */
  function IntValue(memory: map<string, Option<Value>>, e: Expr): int
    requires IntExpr(memory, e)
  {
    match e
    case Number(v, _) => v.i
    case VarRef(n) => memory[n].value.i
    case BinaryOp(op, l, r) =>
      var a, b := IntValue(memory, l), IntValue(memory, r);
      if op == "+" then a + b else if op == "-" then a - b else a * b
  }

  /** On integer expressions the interpreter computes the exact integer and touches neither log nor input. */
  lemma {:induction false} IntegerArithmetic(lib: FloatLib, gui: bool, memory: map<string, Option<Value>>, io: IO, e: Expr)
    requires IntExpr(memory, e)
    ensures Evaluate(lib, gui, memory, io, e) == Evaluation(Ok(VInt(IntValue(memory, e))), io)
  {
    match e
    case Number(_, _) =>
    case VarRef(_) =>
    case BinaryOp(op, l, r) =>
      IntegerArithmetic(lib, gui, memory, io, l);
      IntegerArithmetic(lib, gui, memory, io, r);
  }

  /** Division always goes through floating point, so an integer quotient is text with a decimal comma. */
  lemma DivisionIsFloat(lib: FloatLib, a: int, b: int)
    requires b != 0
    ensures var r := Apply(lib, "/", OInt(a), OInt(b));
            (r.Ok? ==> r.value.VStr? && '.' !in r.value.s) && (r.Err? ==> r.error == FloatFailure("/"))
  {
  }

  /** An operator other than `+ - * /` always fails its expression. */
  lemma {:induction false} InvalidOperatorFails(lib: FloatLib, gui: bool, memory: map<string, Option<Value>>, io: IO,
                                                op: string, l: Expr, r: Expr)
    requires op !in {"+", "-", "*", "/"}
    ensures Evaluate(lib, gui, memory, io, BinaryOp(op, l, r)).result.Err?
  {
    EvaluateBinaryOp(lib, gui, memory, io, op, l, r);
    var a := Evaluate(lib, gui, memory, io, l);
    if a.result.Ok? {
      var b := Evaluate(lib, gui, memory, a.io, r);
      if b.result.Ok? {
        var x, y := AsNumber(lib, a.result.value), AsNumber(lib, b.result.value);
        if x.Ok? && y.Ok? {
          assert Apply(lib, op, x.value, y.value) == Err(InvalidOperator(op));
        }
      }
    }
  }

  /**
   * An assignment whose operator is invalid logs a failure, leaves the
   * store as it was, and the statements after it still run.
   */
  lemma InvalidOperatorContained(lib: FloatLib, gui: bool, m: Machine, n: string, op: string, l: Expr, r: Expr, rest: seq<Stmt>)
    requires op !in {"+", "-", "*", "/"}
    ensures var after := Exec(lib, gui, m, Assign(n, BinaryOp(op, l, r)));
            after.memory == m.memory && after.log[|after.log| - 1].Failure?
            && ExecAll(lib, gui, m, [Assign(n, BinaryOp(op, l, r))] + rest) == ExecAll(lib, gui, after, rest)
  {
    InvalidOperatorFails(lib, gui, m.memory, IO(m.log, m.input), op, l, r);
    FailureContained(lib, gui, m, Assign(n, BinaryOp(op, l, r)), rest);
  }

  lemma ExecAllOfTwo(lib: FloatLib, gui: bool, m: Machine, a: Stmt, b: Stmt)
    ensures ExecAll(lib, gui, m, [a, b]) == Exec(lib, gui, Exec(lib, gui, m, a), b)
  {
    ExecAllStep(lib, gui, m, [a, b], 0);
    ExecAllStep(lib, gui, m, [a, b], 1);
    assert [a, b][..0] == [] && [a, b][..1] == [a] && [a, b][..2] == [a, b];
  }

  lemma ExecAllOfThree(lib: FloatLib, gui: bool, m: Machine, a: Stmt, b: Stmt, c: Stmt)
    ensures ExecAll(lib, gui, m, [a, b, c]) == Exec(lib, gui, Exec(lib, gui, Exec(lib, gui, m, a), b), c)
  {
    ExecAllStep(lib, gui, m, [a, b, c], 2);
    assert [a, b, c][..2] == [a, b] && [a, b, c][..3] == [a, b, c];
    ExecAllOfTwo(lib, gui, m, a, b);
  }

  /** `x T; x = Captura.T(); Mensaje.Texto("...");` with no input left: the read fails, the message still runs. */
  lemma ExhaustedInputScenario(lib: FloatLib, m: Machine, x: string, t: TypeName, text: string)
    requires m.input == []
    ensures var r := ExecAll(lib, false, m, [VarDecl(x, t), Assign(x, Captura(t)), Mensaje(text)]);
            r.memory == m.memory[x := None]
            && r.log == m.log + [Declaration(x, t), Failure(NoInput), Message(text)]
  {
    var m1 := Exec(lib, false, m, VarDecl(x, t));
    var m2 := Exec(lib, false, m1, Assign(x, Captura(t)));
    assert m2.memory == m1.memory && m2.log == m1.log + [Failure(NoInput)];
    ExecAllOfThree(lib, false, m, VarDecl(x, t), Assign(x, Captura(t)), Mensaje(text));
  }

  /** `x T; x = Captura.T();` in GUI mode: the prompt is logged, then the first input line is stored. */
  lemma GuiReadScenario(lib: FloatLib, m: Machine, x: string, t: TypeName)
    requires m.input != []
    ensures var r := ExecAll(lib, true, m, [VarDecl(x, t), Assign(x, Captura(t))]);
            r.memory == m.memory[x := Some(VStr(m.input[0]))] && r.input == m.input[1..]
            && r.log == m.log + [Declaration(x, t), Prompt(t), Assignment(x, VStr(m.input[0]))]
  {
    var m1 := Exec(lib, true, m, VarDecl(x, t));
    var m2 := Exec(lib, true, m1, Assign(x, Captura(t)));
    assert m2.log == m1.log + [Prompt(t), Assignment(x, VStr(m.input[0]))];
    ExecAllOfTwo(lib, true, m, VarDecl(x, t), Assign(x, Captura(t)));
  }
}
