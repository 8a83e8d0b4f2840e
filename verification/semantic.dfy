/**
 * The semantic analyzer: one pass over the program with a single symbol
 * table (name to declared type and last checked value) and a list of
 * defects that only grows; analysis fails at the end if any were found.
 */
module Semantic {
  import opened Wrappers
  import opened Numerals
  import opened Ast

  /** A symbol table entry: the declared type and the value last assigned, if any. */
  datatype Symbol = Symbol(tipo: TypeName, valor: Option<Value>)

  type Table = map<string, Symbol>

  /** The defects the analyzer records, in the order it meets them. */
  datatype SemError =
    | Redeclared(name: string)
    | UndeclaredTarget(name: string)
    | Incompatible(name: string, expected: TypeName, got: Option<TypeName>)
    | NotNumeric(left: Option<TypeName>, right: Option<TypeName>)
    | UndeclaredName(name: string)

  /** Integer and real mix freely; every other type matches only itself. */
  predicate TypeCompatible(expected: Option<TypeName>, got: Option<TypeName>)
  {
    expected == got || (Numeric(expected) && Numeric(got))
  }

  predicate Numeric(t: Option<TypeName>)
  {
    t == Some(Entero) || t == Some(Real)
  }

  /** The decimal spelling of an integer, with a minus sign when negative. */
  function IntText(n: int): (s: string)
    ensures |s| > 0
  {
    if n < 0 then "-" + Digits(-n) else Digits(n)
  }

  /** How a slot prints inside a formatted string: None, an integer, or the text itself. */
  function Shown(v: Option<Value>): string
  {
    match v
    case None => "None"
    case Some(VInt(n)) => IntText(n)
    case Some(VStr(s)) => s
  }

  /** The value and the type the analyzer gives an expression, and the defects it records on the way. */
  datatype Typing = Typing(val: Option<Value>, tipo: Option<TypeName>, errors: seq<SemError>)

  /** The value an arithmetic node is given: its operands' spellings around the operator, in parentheses. */
  function Formula(op: string, l: Option<Value>, r: Option<Value>): Option<Value>
  {
    Some(VStr("(" + Shown(l) + " " + op + " " + Shown(r) + ")"))
  }

  /** The result type of arithmetic on two numeric types. */
  function Promoted(l: Option<TypeName>, r: Option<TypeName>): (t: TypeName)
    requires Numeric(l) && Numeric(r)
    ensures t == Real <==> l == Some(Real) || r == Some(Real)
  {
    if l == Some(Real) || r == Some(Real) then Real else Entero
  }

  /** The typing of an expression against a symbol table (which it does not change). */
  function TypeOf(symbols: Table, e: Expr): (r: Typing)
    ensures r.tipo.None? ==> r.val.None?
    ensures r.tipo.None? <==> r.errors != []
  {
    match e
    case Captura(t) => Typing(Some(VStr("Captura(" + TypeText(t) + ")")), Some(t), [])
    case Number(v, k) => Typing(Some(v), Some(k), [])
    case String(s) => Typing(Some(VStr(s)), Some(Texto), [])
    case VarRef(n) =>
      if n in symbols then Typing(symbols[n].valor, Some(symbols[n].tipo), [])
      else Typing(None, None, [UndeclaredName(n)])
    case BinaryOp(op, l, r) =>
      var a := TypeOf(symbols, l);
      var b := TypeOf(symbols, r);
      if !Numeric(a.tipo) || !Numeric(b.tipo) then
        Typing(None, None, a.errors + b.errors + [NotNumeric(a.tipo, b.tipo)])
      else
        Typing(Formula(op, a.val, b.val), Some(Promoted(a.tipo, b.tipo)), a.errors + b.errors)
  }

  lemma ErrorsAssoc(w: seq<SemError>, x: seq<SemError>, y: seq<SemError>, z: seq<SemError>)
    ensures w + x + y + z == w + (x + y + z)
  {
  }

  /** Left operand first, then the right one; the node is typed from both. */
  lemma TypeOfBinaryOp(symbols: Table, op: string, l: Expr, r: Expr)
    ensures var a, b := TypeOf(symbols, l), TypeOf(symbols, r);
            TypeOf(symbols, BinaryOp(op, l, r)) ==
              if !Numeric(a.tipo) || !Numeric(b.tipo) then Typing(None, None, a.errors + b.errors + [NotNumeric(a.tipo, b.tipo)])
              else Typing(Formula(op, a.val, b.val), Some(Promoted(a.tipo, b.tipo)), a.errors + b.errors)
  {
  }


  /** The analyzer's state between statements. */
  datatype Scope = Scope(symbols: Table, errors: seq<SemError>)

  /** The effect of checking one statement. */
  function CheckStmt(sc: Scope, s: Stmt): (r: Scope)
    ensures |r.errors| >= |sc.errors| && r.errors[..|sc.errors|] == sc.errors
    ensures r.symbols.Keys == sc.symbols.Keys + (if s.VarDecl? then {s.name} else {})
    ensures forall n :: n in sc.symbols ==> r.symbols[n].tipo == sc.symbols[n].tipo
  {
    match s
    case VarDecl(n, t) =>
      if n in sc.symbols then sc.(errors := sc.errors + [Redeclared(n)])
      else sc.(symbols := sc.symbols[n := Symbol(t, None)])
    case Assign(n, e) =>
      if n !in sc.symbols then sc.(errors := sc.errors + [UndeclaredTarget(n)])
      else
        var declared := sc.symbols[n].tipo;
        var ty := TypeOf(sc.symbols, e);
        if !TypeCompatible(Some(declared), ty.tipo) then
          sc.(errors := sc.errors + ty.errors + [Incompatible(n, declared, ty.tipo)])
        else
          Scope(sc.symbols[n := Symbol(declared, ty.val)], sc.errors + ty.errors)
    case Mensaje(_) => sc
  }

  /** The effect of checking statements in order. */
  function CheckAll(sc: Scope, ss: seq<Stmt>): (r: Scope)
    ensures sc.symbols.Keys <= r.symbols.Keys
    ensures forall n :: n in sc.symbols ==> r.symbols[n].tipo == sc.symbols[n].tipo
    decreases |ss|
  {
    if ss == [] then sc else CheckStmt(CheckAll(sc, ss[..|ss| - 1]), ss[|ss| - 1])
  }

  /**
   * The analyzer object: its symbol table and defect list persist across
   * the statements of the program it visits.
   */
  class SemanticAnalyzer {
    var symbols: Table
    var errors: seq<SemError>

    constructor ()
      ensures symbols == map[] && errors == []
    {
      symbols, errors := map[], [];
    }

    /** Visits the whole program, then fails with every defect if there is any. */
    method Analyze(p: Program) returns (r: Outcome<seq<SemError>>)
      modifies this
      ensures Scope(symbols, errors) == CheckAll(old(Scope(symbols, errors)), p.stmts)
      ensures r.Fail? <==> errors != []
      ensures r.Fail? ==> r.error == errors
    {
      VisitProgram(p);
      if errors != [] {
        return Fail(errors);
      }
      return Pass;
    }

    /** Visits the statements in source order. */
    method VisitProgram(p: Program)
      modifies this
      ensures Scope(symbols, errors) == CheckAll(old(Scope(symbols, errors)), p.stmts)
    {
      var k := 0;
      while k < |p.stmts|
        invariant k <= |p.stmts|
        invariant Scope(symbols, errors) == CheckAll(old(Scope(symbols, errors)), p.stmts[..k])
      {
        assert p.stmts[..k + 1][..k] == p.stmts[..k];
        VisitStmt(p.stmts[k]);
        k := k + 1;
      }
      assert p.stmts[..k] == p.stmts;
    }

    method VisitStmt(s: Stmt)
      modifies this
      ensures Scope(symbols, errors) == CheckStmt(old(Scope(symbols, errors)), s)
    {
      match s
      case VarDecl(n, t) => VisitVarDecl(n, t);
      case Assign(n, e) => VisitAssign(n, e);
      case Mensaje(_) =>
    }

    /** A fresh name is entered untyped-valued; a known one is a defect and keeps its entry. */
    method VisitVarDecl(n: string, t: TypeName)
      modifies this
      ensures Scope(symbols, errors) == CheckStmt(old(Scope(symbols, errors)), VarDecl(n, t))
    {
      if n in symbols {
        errors := errors + [Redeclared(n)];
      } else {
        symbols := symbols[n := Symbol(t, None)];
      }
    }

    /**
     * An undeclared target is a defect and its right-hand side is not
     * visited; otherwise the value is stored only when the types agree.
     */
    method VisitAssign(n: string, e: Expr)
      modifies this
      ensures Scope(symbols, errors) == CheckStmt(old(Scope(symbols, errors)), Assign(n, e))
    {
      if n !in symbols {
        errors := errors + [UndeclaredTarget(n)];
        return;
      }
      var declared := symbols[n].tipo;
      var val, tipo := VisitExpr(e);
      if !TypeCompatible(Some(declared), tipo) {
        errors := errors + [Incompatible(n, declared, tipo)];
      } else {
        symbols := symbols[n := Symbol(declared, val)];
      }
    }

    /** Types an expression, recording defects; the symbol table is only read. */
    method VisitExpr(e: Expr) returns (val: Option<Value>, tipo: Option<TypeName>)
      modifies this`errors
      ensures var ty := TypeOf(symbols, e);
              val == ty.val && tipo == ty.tipo && errors == old(errors) + ty.errors
      decreases e, 1
    {
      match e {
        case Captura(t) =>
          val, tipo := Some(VStr("Captura(" + TypeText(t) + ")")), Some(t);
        case Number(v, k) =>
          val, tipo := Some(v), Some(k);
        case String(s) =>
          val, tipo := Some(VStr(s)), Some(Texto);
        case VarRef(n) =>
          val, tipo := VisitVarRef(n);
        case BinaryOp(op, l, r) =>
          val, tipo := VisitBinaryOp(op, l, r);
      }
    }

    /** A declared name gives its stored value and declared type; an unknown one is a defect. */
    method VisitVarRef(n: string) returns (val: Option<Value>, tipo: Option<TypeName>)
      modifies this`errors
      ensures var ty := TypeOf(symbols, VarRef(n));
              val == ty.val && tipo == ty.tipo && errors == old(errors) + ty.errors
    {
      if n !in symbols {
        errors := errors + [UndeclaredName(n)];
        return None, None;
      }
      val, tipo := symbols[n].valor, Some(symbols[n].tipo);
    }

    /** Both operands are visited, left first; both must be numeric. */
    method VisitBinaryOp(op: string, l: Expr, r: Expr) returns (val: Option<Value>, tipo: Option<TypeName>)
      modifies this`errors
      ensures var ty := TypeOf(symbols, BinaryOp(op, l, r));
              val == ty.val && tipo == ty.tipo && errors == old(errors) + ty.errors
      decreases BinaryOp(op, l, r), 0
    {
      TypeOfBinaryOp(symbols, op, l, r);
      ghost var e0 := errors;
      var lv, lt := VisitExpr(l);
      var rv, rt := VisitExpr(r);
      ghost var a, b := TypeOf(symbols, l), TypeOf(symbols, r);
      if !Numeric(lt) || !Numeric(rt) {
        errors := errors + [NotNumeric(lt, rt)];
        ErrorsAssoc(e0, a.errors, b.errors, [NotNumeric(lt, rt)]);
        return None, None;
      }
      ErrorsAssoc(e0, a.errors, b.errors, []);
      val, tipo := Formula(op, lv, rv), Some(Promoted(lt, rt));
    }
  }
}
