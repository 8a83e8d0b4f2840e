/**
 * The tree-walking interpreter: a variable store, an output log and a
 * queue of pending input lines. Statements run in order; a statement whose
 * evaluation fails is logged as a failure and the next one still runs.
 */
module Interpreter {
  import opened Wrappers
  import opened Numerals
  import opened Ast

  /** A value as arithmetic sees it, after the comma/digit conversion. */
  datatype Operand = OInt(n: int) | OFloat(text: string) | OText(s: string)

  /**
   * Python's floating point, which the model does not define: whether
   * `float()` accepts a dot-decimal text, and the `str()` of the result of
   * an operation that produces a float (None when the operation raises).
   */
  datatype FloatLib = FloatLib(accepts: string -> bool, arith: (string, Operand, Operand) -> Option<string>)

  /** Why a statement failed. */
  datatype RunError =
    | UnknownVariable(name: string)
    | Unassigned(name: string)
    | InvalidNumber(text: string)
    | TypeMismatch(op: string)
    | DivisionByZero
    | FloatFailure(op: string)
    | InvalidOperator(op: string)
    | NoInput

  /** One output-log entry. */
  datatype LogEntry =
    | Declaration(name: string, tipo: TypeName)
    | Assignment(name: string, value: Value)
    | Message(text: string)
    | Prompt(tipo: TypeName)
    | Failure(error: RunError)

  /** Every `a` in `s` replaced by `b`. */
  function Replace(s: string, a: char, b: char): (r: string)
    ensures |r| == |s|
    ensures forall k :: 0 <= k < |s| ==> r[k] == if s[k] == a then b else s[k]
  {
    seq(|s|, k requires 0 <= k < |s| => if s[k] == a then b else s[k])
  }

  /** The spelling of a float with a decimal comma: dots become commas, other text is kept. */
  function ToComma(t: string): (r: string)
    ensures '.' !in r
    ensures |r| == |t|
  {
    if '.' in t then Replace(t, '.', ',') else t
  }

  /**
   * The number a value stands for: text with a comma is read as a float
   * after swapping commas for dots, digit-only text as an integer; any
   * other value is kept as it is.
   */
  function AsNumber(lib: FloatLib, v: Value): (r: Result<Operand, RunError>)
    ensures r.Err? ==> v.VStr? && ',' in v.s && r.error == InvalidNumber(v.s)
    ensures r.Ok? && r.value.OFloat? ==> v.VStr? && ',' in v.s && r.value.text == Replace(v.s, ',', '.')
    ensures r.Ok? && r.value.OInt? ==>
              v == VInt(r.value.n) || (v.VStr? && ',' !in v.s && IsDigits(v.s) && r.value.n == DigitsValue(v.s))
    ensures r.Ok? && r.value.OText? ==> v == VStr(r.value.s) && ',' !in v.s && !IsDigits(v.s)
  {
    match v
    case VInt(n) => Ok(OInt(n))
    case VStr(s) =>
      if ',' in s then
        var d := Replace(s, ',', '.');
        if lib.accepts(d) then Ok(OFloat(d)) else Err(InvalidNumber(s))
      else if IsDigits(s) then Ok(OInt(DigitsValue(s)))
      else Ok(OText(s))
  }

  /** `s * n` on Python text: `n` copies, or nothing when `n` is not positive. */
  function Repeat(s: string, n: int): string
    decreases n
  {
    if n <= 0 then [] else s + Repeat(s, n - 1)
  }

  predicate IsNumber(o: Operand)
  {
    o.OInt? || o.OFloat?
  }

  /** A float result, spelled with a decimal comma. */
  function FloatResult(lib: FloatLib, op: string, a: Operand, b: Operand): (r: Result<Value, RunError>)
    ensures r.Ok? ==> r.value.VStr? && '.' !in r.value.s
  {
    match lib.arith(op, a, b)
    case Some(t) => Ok(VStr(ToComma(t)))
    case None => Err(FloatFailure(op))
  }

  /**
   * One arithmetic operation with Python's rules: integers stay exact for
   * `+ - *`, `/` always gives a float and fails on an integer zero, text
   * concatenates with text and repeats by an integer, and any other mix fails.
   */
  function Apply(lib: FloatLib, op: string, a: Operand, b: Operand): (r: Result<Value, RunError>)
    ensures op !in {"+", "-", "*", "/"} ==> r == Err(InvalidOperator(op))
    ensures op == "/" && a.OInt? && b == OInt(0) ==> r == Err(DivisionByZero)
  {
    if op == "+" then
      if a.OInt? && b.OInt? then Ok(VInt(a.n + b.n))
      else if IsNumber(a) && IsNumber(b) then FloatResult(lib, op, a, b)
      else if a.OText? && b.OText? then Ok(VStr(a.s + b.s))
      else Err(TypeMismatch(op))
    else if op == "-" then
      if a.OInt? && b.OInt? then Ok(VInt(a.n - b.n))
      else if IsNumber(a) && IsNumber(b) then FloatResult(lib, op, a, b)
      else Err(TypeMismatch(op))
    else if op == "*" then
      if a.OInt? && b.OInt? then Ok(VInt(a.n * b.n))
      else if IsNumber(a) && IsNumber(b) then FloatResult(lib, op, a, b)
      else if a.OText? && b.OInt? then Ok(VStr(Repeat(a.s, b.n)))
      else if a.OInt? && b.OText? then Ok(VStr(Repeat(b.s, a.n)))
      else Err(TypeMismatch(op))
    else if op == "/" then
      if a.OInt? && b == OInt(0) then Err(DivisionByZero)
      else if IsNumber(a) && IsNumber(b) then FloatResult(lib, op, a, b)
      else Err(TypeMismatch(op))
    else Err(InvalidOperator(op))
  }

  /** The log so far and the input lines not yet read. */
  datatype IO = IO(log: seq<LogEntry>, input: seq<string>)

  /**
   * What evaluation may do to the log and the input: append prompts and
   * consume lines from the front of the input.
   */
  predicate Follows(before: IO, after: IO)
  {
    |after.log| >= |before.log| && after.log[..|before.log|] == before.log
    && (forall k :: |before.log| <= k < |after.log| ==> after.log[k].Prompt?)
    && |after.input| <= |before.input| && after.input == before.input[|before.input| - |after.input|..]
  }

  lemma FollowsTransitive(a: IO, b: IO, c: IO)
    requires Follows(a, b) && Follows(b, c)
    ensures Follows(a, c)
  {
    assert c.log[..|a.log|] == c.log[..|b.log|][..|a.log|];
    assert forall k :: |a.log| <= k < |b.log| ==> c.log[k] == b.log[k];
    var na, nb, nc := |a.input|, |b.input|, |c.input|;
    assert c.input == a.input[na - nb..][nb - nc..];
  }

  /** The outcome of evaluating an expression and what it did to the log and the input. */
  datatype Evaluation = Evaluation(result: Result<Value, RunError>, io: IO)

  /** A read: a prompt in GUI mode, then the next input line, or a failure when none is left. */
  function ReadLine(gui: bool, io: IO, t: TypeName): (ev: Evaluation)
    ensures Follows(io, ev.io)
    ensures !gui ==> ev.io.log == io.log
    ensures ev.result.Ok? <==> io.input != []
    ensures ev.result.Ok? ==> ev.result.value == VStr(io.input[0]) && ev.io.input == io.input[1..]
    ensures ev.result.Err? ==> ev.result.error == NoInput && ev.io.input == io.input
  {
    var shown := if gui then io.(log := io.log + [Prompt(t)]) else io;
    if shown.input == [] then Evaluation(Err(NoInput), shown)
    else Evaluation(Ok(VStr(shown.input[0])), shown.(input := shown.input[1..]))
  }

  /** Both operands converted to numbers where they spell one, then the operator applied. */
  function Combine(lib: FloatLib, op: string, a: Value, b: Value): (r: Result<Value, RunError>)
    ensures r.Err? && r.error.InvalidOperator? ==> r.error.op == op
    ensures r.Err? ==> !r.error.UnknownVariable? && !r.error.Unassigned? && r.error != NoInput
  {
    match AsNumber(lib, a)
    case Err(x) => Err(x)
    case Ok(x) =>
      match AsNumber(lib, b)
      case Err(y) => Err(y)
      case Ok(y) => Apply(lib, op, x, y)
  }

  /**
   * Evaluation of an expression against the store. A read logs a prompt in
   * GUI mode and takes the next input line; an arithmetic node evaluates
   * left then right, converts both, then applies the operator.
   */
  function Evaluate(lib: FloatLib, gui: bool, memory: map<string, Option<Value>>, io: IO, e: Expr): (r: Evaluation)
    ensures |r.io.log| >= |io.log| && |r.io.input| <= |io.input|
    decreases e
  {
    match e
    case Number(v, _) => Evaluation(Ok(v), io)
    case String(s) => Evaluation(Ok(VStr(s)), io)
    case VarRef(n) =>
      if n !in memory then Evaluation(Err(UnknownVariable(n)), io)
      else if memory[n].None? then Evaluation(Err(Unassigned(n)), io)
      else Evaluation(Ok(memory[n].value), io)
    case Captura(t) => ReadLine(gui, io, t)
    case BinaryOp(op, left, right) =>
      var a := Evaluate(lib, gui, memory, io, left);
      if a.result.Err? then a
      else
        var b := Evaluate(lib, gui, memory, a.io, right);
        if b.result.Err? then b
        else Evaluation(Combine(lib, op, a.result.value, b.result.value), b.io)
  }

  /** Left operand first; the right one only when the left succeeds; the operator only when both do. */
  lemma EvaluateBinaryOp(lib: FloatLib, gui: bool, memory: map<string, Option<Value>>, io: IO, op: string, l: Expr, r: Expr)
    ensures var a := Evaluate(lib, gui, memory, io, l);
            var b := Evaluate(lib, gui, memory, a.io, r);
            Evaluate(lib, gui, memory, io, BinaryOp(op, l, r)) ==
              if a.result.Err? then a
              else if b.result.Err? then b
              else Evaluation(Combine(lib, op, a.result.value, b.result.value), b.io)
  {
  }

  /** Evaluation only appends prompts to the log and takes lines from the front of the input. */
  lemma {:induction false} EvaluationFollows(lib: FloatLib, gui: bool, memory: map<string, Option<Value>>, io: IO, e: Expr)
    ensures Follows(io, Evaluate(lib, gui, memory, io, e).io)
    decreases e, 1
  {
    match e
    case Captura(t) =>
    case BinaryOp(op, l, r) =>
      OperationFollows(lib, gui, memory, io, op, l, r);
    case _ =>
      assert io.log[..|io.log|] == io.log && io.input[|io.input| - |io.input|..] == io.input;
  }

  /** The operation case: the left operand's effect, then the right operand's. */
  lemma {:induction false} OperationFollows(lib: FloatLib, gui: bool, memory: map<string, Option<Value>>, io: IO, op: string, l: Expr, r: Expr)
    ensures Follows(io, Evaluate(lib, gui, memory, io, BinaryOp(op, l, r)).io)
    decreases BinaryOp(op, l, r), 0
  {
    var a := Evaluate(lib, gui, memory, io, l);
    var b := Evaluate(lib, gui, memory, a.io, r);
    EvaluateBinaryOp(lib, gui, memory, io, op, l, r);
    EvaluationFollows(lib, gui, memory, io, l);
    if a.result.Ok? {
      EvaluationFollows(lib, gui, memory, a.io, r);
      FollowsTransitive(io, a.io, b.io);
      assert Evaluate(lib, gui, memory, io, BinaryOp(op, l, r)).io == b.io;
    } else {
      assert Evaluate(lib, gui, memory, io, BinaryOp(op, l, r)).io == a.io;
    }
  }

  /** Literals give their own value; a variable gives its stored value, and fails when it is missing or empty. */
  lemma LeafValues(lib: FloatLib, gui: bool, memory: map<string, Option<Value>>, io: IO, e: Expr)
    ensures var ev := Evaluate(lib, gui, memory, io, e);
            (e.Number? ==> ev.result == Ok(e.value))
            && (e.String? ==> ev.result == Ok(VStr(e.text)))
            && (e.VarRef? ==> (ev.result.Ok? <==> e.name in memory && memory[e.name].Some?))
            && (e.VarRef? && ev.result.Ok? ==> ev.result.value == memory[e.name].value)
            && (e.VarRef? && ev.result.Err? ==>
                  ev.result.error == (if e.name in memory then Unassigned(e.name) else UnknownVariable(e.name)))
  {
  }

  /** Outside GUI mode evaluation never writes to the log. */
  lemma {:induction false} SilentWithoutGui(lib: FloatLib, memory: map<string, Option<Value>>, io: IO, e: Expr)
    ensures Evaluate(lib, false, memory, io, e).io.log == io.log
    decreases e
  {
    if e.BinaryOp? {
      var a := Evaluate(lib, false, memory, io, e.left);
      SilentWithoutGui(lib, memory, io, e.left);
      SilentWithoutGui(lib, memory, a.io, e.right);
    }
  }

  /** An expression without a read leaves the log and the input as they were. */
  lemma {:induction false} NoReadNoEffect(lib: FloatLib, gui: bool, memory: map<string, Option<Value>>, io: IO, e: Expr)
    requires !Reads(e)
    ensures Evaluate(lib, gui, memory, io, e).io == io
    decreases e
  {
    if e.BinaryOp? {
      NoReadNoEffect(lib, gui, memory, io, e.left);
      NoReadNoEffect(lib, gui, memory, io, e.right);
    }
  }

  /**
   * A failure names its cause: a missing or empty variable is one the
   * expression reads, and running out of input needs a read.
   */
  lemma {:induction false} FailureCause(lib: FloatLib, gui: bool, memory: map<string, Option<Value>>, io: IO, e: Expr)
    ensures var ev := Evaluate(lib, gui, memory, io, e);
            ev.result.Err? && ev.result.error.UnknownVariable? ==>
              ev.result.error.name in Names(e) && ev.result.error.name !in memory
    ensures var ev := Evaluate(lib, gui, memory, io, e);
            ev.result.Err? && ev.result.error.Unassigned? ==>
              ev.result.error.name in Names(e) && ev.result.error.name in memory && memory[ev.result.error.name].None?
    ensures var ev := Evaluate(lib, gui, memory, io, e);
            ev.result.Err? && ev.result.error == NoInput ==> Reads(e)
    decreases e
  {
    match e
    case BinaryOp(_, l, r) =>
      var a := Evaluate(lib, gui, memory, io, l);
      FailureCause(lib, gui, memory, io, l);
      FailureCause(lib, gui, memory, a.io, r);
    case _ =>
  }

  /** The interpreter's state between statements. */
  datatype Machine = Machine(memory: map<string, Option<Value>>, log: seq<LogEntry>, input: seq<string>)

  /**
   * One statement, with its failure caught: a declaration empties the slot,
   * an assignment stores the value or, if evaluation fails, logs the
   * failure and leaves the store alone, and a message is logged.
   */
  function Exec(lib: FloatLib, gui: bool, m: Machine, s: Stmt): (r: Machine)
    ensures |r.log| > |m.log| && |r.input| <= |m.input|
  {
    match s
    case VarDecl(n, t) => m.(memory := m.memory[n := None], log := m.log + [Declaration(n, t)])
    case Assign(n, e) =>
      var ev := Evaluate(lib, gui, m.memory, IO(m.log, m.input), e);
      if ev.result.Ok? then
        Machine(m.memory[n := Some(ev.result.value)], ev.io.log + [Assignment(n, ev.result.value)], ev.io.input)
      else
        Machine(m.memory, ev.io.log + [Failure(ev.result.error)], ev.io.input)
    case Mensaje(t) => m.(log := m.log + [Message(t)])
  }

  /**
   * A statement keeps the log it found and adds at least one entry, with
   * only prompts before its last one, and takes input from the front.
   */
  lemma ExecLog(lib: FloatLib, gui: bool, m: Machine, s: Stmt)
    ensures var r := Exec(lib, gui, m, s);
            |r.log| > |m.log| && r.log[..|m.log|] == m.log
            && (forall k :: |m.log| <= k < |r.log| - 1 ==> r.log[k].Prompt?)
            && |r.input| <= |m.input| && r.input == m.input[|m.input| - |r.input|..]
  {
    var r := Exec(lib, gui, m, s);
    if s.Assign? {
      var ev := Evaluate(lib, gui, m.memory, IO(m.log, m.input), s.expr);
      EvaluationFollows(lib, gui, m.memory, IO(m.log, m.input), s.expr);
      assert r.log == ev.io.log + [r.log[|r.log| - 1]];
    } else {
      assert r.log == m.log + [r.log[|r.log| - 1]];
      assert m.input[|m.input| - |m.input|..] == m.input;
    }
  }

  /**
   * What one statement does to the store: a declaration empties its slot
   * and leaves the input alone; an assignment evaluates its right side and
   * then either stores the value and logs it, or logs the failure and keeps
   * the store; a message is logged.
   */
  lemma ExecEffect(lib: FloatLib, gui: bool, m: Machine, s: Stmt)
    ensures Exec(lib, gui, m, s).log != []
    ensures var r := Exec(lib, gui, m, s);
            s.VarDecl? ==>
              r.log == m.log + [Declaration(s.name, s.tipo)] && r.memory == m.memory[s.name := None] && r.input == m.input
    ensures var r := Exec(lib, gui, m, s);
            s.Assign? ==>
              var ev := Evaluate(lib, gui, m.memory, IO(m.log, m.input), s.expr);
              r.input == ev.io.input
              && (ev.result.Ok? ==>
                    r.log == ev.io.log + [Assignment(s.name, ev.result.value)]
                    && r.memory == m.memory[s.name := Some(ev.result.value)])
              && (ev.result.Err? ==> r.log == ev.io.log + [Failure(ev.result.error)] && r.memory == m.memory)
    ensures var r := Exec(lib, gui, m, s);
            s.Mensaje? ==> r.log == m.log + [Message(s.texto)] && r.memory == m.memory && r.input == m.input
  {
  }

  /** Statements in order, each run whatever happened to the ones before. */
  function ExecAll(lib: FloatLib, gui: bool, m: Machine, ss: seq<Stmt>): (r: Machine)
    ensures |r.log| >= |m.log| + |ss| && r.log[..|m.log|] == m.log
    ensures m.memory.Keys + Declared(ss) <= r.memory.Keys <= m.memory.Keys + Targets(ss)
    decreases |ss|
  {
    if ss == [] then m
    else
      var before := ExecAll(lib, gui, m, ss[..|ss| - 1]);
      ExecLog(lib, gui, before, ss[|ss| - 1]);
      ExecEffect(lib, gui, before, ss[|ss| - 1]);
      Exec(lib, gui, before, ss[|ss| - 1])
  }

  /** Running one more statement extends the run of the ones before it. */
  lemma ExecAllStep(lib: FloatLib, gui: bool, m: Machine, ss: seq<Stmt>, k: nat)
    requires k < |ss|
    ensures ExecAll(lib, gui, m, ss[..k + 1]) == Exec(lib, gui, ExecAll(lib, gui, m, ss[..k]), ss[k])
  {
    assert ss[..k + 1][..k] == ss[..k];
  }

  /**
   * The interpreter object. The input queue stands in for the console or
   * the GUI input line; `gui` says whether reads are announced in the log.
   */
  class Interpreter {
    var memory: map<string, Option<Value>>
    var outputLog: seq<LogEntry>
    var input: seq<string>
    const gui: bool
    const floats: FloatLib

    constructor (gui: bool, floats: FloatLib, input: seq<string>)
      ensures memory == map[] && outputLog == [] && this.input == input
      ensures this.gui == gui && this.floats == floats
    {
      this.gui, this.floats := gui, floats;
      memory, outputLog, this.input := map[], [], input;
    }

    function State(): Machine
      reads this
    {
      Machine(memory, outputLog, input)
    }

    /** Every message, informative or failure, is one new log entry. */
    method Log(entry: LogEntry)
      modifies this`outputLog
      ensures outputLog == old(outputLog) + [entry]
    {
      outputLog := outputLog + [entry];
    }

    /** Runs the program's statements in order. */
    method Run(p: Program)
      modifies this
      ensures State() == ExecAll(floats, gui, old(State()), p.stmts)
    {
      var k := 0;
      while k < |p.stmts|
        invariant k <= |p.stmts|
        invariant State() == ExecAll(floats, gui, old(State()), p.stmts[..k])
      {
        ExecAllStep(floats, gui, old(State()), p.stmts, k);
        RunStatement(p.stmts[k]);
        k := k + 1;
      }
      assert p.stmts[..k] == p.stmts;
    }

    /** One statement; a failing evaluation is caught and logged. */
    method RunStatement(s: Stmt)
      modifies this
      ensures State() == Exec(floats, gui, old(State()), s)
    {
      match s
      case VarDecl(n, t) =>
        memory := memory[n := None];
        Log(Declaration(n, t));
      case Assign(n, e) =>
        var r := Eval(e);
        if r.Ok? {
          memory := memory[n := Some(r.value)];
          Log(Assignment(n, r.value));
        } else {
          Log(Failure(r.error));
        }
      case Mensaje(t) =>
        Log(Message(t));
    }

    /** Evaluates an expression; only reads touch the log and the input. */
    method Eval(e: Expr) returns (r: Result<Value, RunError>)
      modifies this`outputLog, this`input
      ensures var ev := Evaluate(floats, gui, memory, old(IO(outputLog, input)), e);
              r == ev.result && IO(outputLog, input) == ev.io
      decreases e, 1
    {
      match e {
        case Number(v, _) =>
          r := Ok(v);
        case String(s) =>
          r := Ok(VStr(s));
        case VarRef(n) =>
          if n !in memory {
            r := Err(UnknownVariable(n));
          } else if memory[n].None? {
            r := Err(Unassigned(n));
          } else {
            r := Ok(memory[n].value);
          }
        case Captura(t) =>
          if gui {
            Log(Prompt(t));
          }
          r := ReadInput();
        case BinaryOp(op, left, right) =>
          r := EvalBinaryOp(op, left, right);
      }
    }

    /** The next input line, or a failure when none is left. */
    method ReadInput() returns (r: Result<Value, RunError>)
      modifies this`input
      ensures old(input) == [] ==> r == Err(NoInput) && input == []
      ensures old(input) != [] ==> r == Ok(VStr(old(input)[0])) && input == old(input)[1..]
    {
      if input == [] {
        return Err(NoInput);
      }
      r := Ok(VStr(input[0]));
      input := input[1..];
    }

    /** Left operand, right operand, both conversions, then the operator. */
    method EvalBinaryOp(op: string, left: Expr, right: Expr) returns (r: Result<Value, RunError>)
      modifies this`outputLog, this`input
      ensures var ev := Evaluate(floats, gui, memory, old(IO(outputLog, input)), BinaryOp(op, left, right));
              r == ev.result && IO(outputLog, input) == ev.io
      decreases BinaryOp(op, left, right), 0
    {
      EvaluateBinaryOp(floats, gui, memory, IO(outputLog, input), op, left, right);
      var a := Eval(left);
      if a.Err? {
        return a;
      }
      var b := Eval(right);
      if b.Err? {
        return b;
      }
      r := Combine(floats, op, a.value, b.value);
    }
  }
}
