/**
 * Properties of the analyzer's pass: what the table holds afterwards, how
 * defects accumulate, and which programs it accepts.
 */
module SemanticFacts {
  import opened Wrappers
  import opened Ast
  import opened Semantic

  /** Compatibility is an equivalence: Entero and Real form one class, Texto another. */
  lemma CompatibleClasses(a: TypeName, b: TypeName, c: TypeName)
    ensures TypeCompatible(Some(a), Some(b)) <==> a == b || (a != Texto && b != Texto)
    ensures TypeCompatible(Some(a), Some(a))
    ensures TypeCompatible(Some(a), Some(b)) ==> TypeCompatible(Some(b), Some(a))
    ensures TypeCompatible(Some(a), Some(b)) && TypeCompatible(Some(b), Some(c)) ==> TypeCompatible(Some(a), Some(c))
    ensures !TypeCompatible(Some(a), None)
  {
  }

  /** The type given by the first declaration of `n`, if any. */
  function FirstDecl(ss: seq<Stmt>, n: string): Option<TypeName>
    decreases |ss|
  {
    if ss == [] then None
    else
      match FirstDecl(ss[..|ss| - 1], n)
      case Some(t) => Some(t)
      case None => if ss[|ss| - 1].VarDecl? && ss[|ss| - 1].name == n then Some(ss[|ss| - 1].tipo) else None
  }

  /**
   * After the pass the table holds exactly the names known before and the
   * names declared; a known name keeps its type, and a new one has the type
   * of its first declaration.
   */
  lemma {:induction false} TableAfterCheck(sc: Scope, ss: seq<Stmt>)
    ensures CheckAll(sc, ss).symbols.Keys == sc.symbols.Keys + Declared(ss)
    ensures forall n :: n in sc.symbols ==> CheckAll(sc, ss).symbols[n].tipo == sc.symbols[n].tipo
    ensures forall n :: n in Declared(ss) && n !in sc.symbols ==>
              FirstDecl(ss, n).Some? && CheckAll(sc, ss).symbols[n].tipo == FirstDecl(ss, n).value
    decreases |ss|
  {
    if ss != [] {
      var init := ss[..|ss| - 1];
      TableAfterCheck(sc, init);
      DeclaredHasFirst(init);
    }
  }

  lemma {:induction false} DeclaredHasFirst(ss: seq<Stmt>)
    ensures forall n :: n in Declared(ss) <==> FirstDecl(ss, n).Some?
    decreases |ss|
  {
    if ss != [] {
      DeclaredHasFirst(ss[..|ss| - 1]);
    }
  }

  /** Defects are only ever appended. */
  lemma {:induction false} ErrorsOnlyGrow(sc: Scope, ss: seq<Stmt>)
    ensures |CheckAll(sc, ss).errors| >= |sc.errors|
    ensures CheckAll(sc, ss).errors[..|sc.errors|] == sc.errors
    decreases |ss|
  {
    if ss != [] {
      var mid := CheckAll(sc, ss[..|ss| - 1]);
      ErrorsOnlyGrow(sc, ss[..|ss| - 1]);
      assert CheckAll(sc, ss).errors[..|mid.errors|] == mid.errors;
      assert mid.errors[..|sc.errors|] == sc.errors;
      assert CheckAll(sc, ss).errors[..|sc.errors|] == CheckAll(sc, ss).errors[..|mid.errors|][..|sc.errors|];
    }
  }

  function Count<T(==)>(xs: seq<T>, x: T): (c: nat)
    ensures c <= |xs|
    decreases |xs|
  {
    if xs == [] then 0 else Count(xs[..|xs| - 1], x) + (if xs[|xs| - 1] == x then 1 else 0)
  }

  lemma {:induction false} CountAppend<T>(a: seq<T>, b: seq<T>, x: T)
    ensures Count(a + b, x) == Count(a, x) + Count(b, x)
    decreases |b|
  {
    if b == [] {
      assert a + b == a;
    } else {
      assert (a + b)[..|a + b| - 1] == a + b[..|b| - 1];
      CountAppend(a, b[..|b| - 1], x);
    }
  }

  /** The number of declarations of `n`. */
  function Declarations(ss: seq<Stmt>, n: string): nat
    decreases |ss|
  {
    if ss == [] then 0
    else Declarations(ss[..|ss| - 1], n) + (if ss[|ss| - 1].VarDecl? && ss[|ss| - 1].name == n then 1 else 0)
  }

  lemma {:induction false} DeclaredCounted(ss: seq<Stmt>, n: string)
    ensures n in Declared(ss) <==> Declarations(ss, n) > 0
    decreases |ss|
  {
    if ss != [] {
      DeclaredCounted(ss[..|ss| - 1], n);
    }
  }

  /** Typing an expression never reports a duplicate declaration. */
  lemma {:induction false} TypingReportsNoDuplicate(symbols: Table, e: Expr, n: string)
    ensures Count(TypeOf(symbols, e).errors, Redeclared(n)) == 0
  {
    match e
    case BinaryOp(op, l, r) =>
      var a := TypeOf(symbols, l);
      var b := TypeOf(symbols, r);
      TypingReportsNoDuplicate(symbols, l, n);
      TypingReportsNoDuplicate(symbols, r, n);
      CountAppend(a.errors, b.errors, Redeclared(n));
      CountAppend(a.errors + b.errors, [NotNumeric(a.tipo, b.tipo)], Redeclared(n));
      assert Count([NotNumeric(a.tipo, b.tipo)], Redeclared(n)) == 0 by {
        assert [NotNumeric(a.tipo, b.tipo)][..0] == [];
      }
    case VarRef(m) =>
      assert [UndeclaredName(m)][..0] == [];
    case _ =>
  }

  lemma StmtDuplicates(sc: Scope, s: Stmt, n: string)
    ensures var r := CheckStmt(sc, s);
            Count(r.errors, Redeclared(n)) ==
              Count(sc.errors, Redeclared(n)) + (if s.VarDecl? && s.name == n && n in sc.symbols then 1 else 0)
  {
    var r := CheckStmt(sc, s);
    match s
    case VarDecl(m, t) =>
      if m in sc.symbols {
        CountAppend(sc.errors, [Redeclared(m)], Redeclared(n));
        assert [Redeclared(m)][..0] == [];
      }
    case Assign(m, e) =>
      if m !in sc.symbols {
        CountAppend(sc.errors, [UndeclaredTarget(m)], Redeclared(n));
        assert [UndeclaredTarget(m)][..0] == [];
      } else {
        var ty := TypeOf(sc.symbols, e);
        TypingReportsNoDuplicate(sc.symbols, e, n);
        CountAppend(sc.errors, ty.errors, Redeclared(n));
        if !TypeCompatible(Some(sc.symbols[m].tipo), ty.tipo) {
          var x := Incompatible(m, sc.symbols[m].tipo, ty.tipo);
          CountAppend(sc.errors + ty.errors, [x], Redeclared(n));
          assert [x][..0] == [];
        }
      }
    case Mensaje(_) =>
  }

  /**
   * Every declaration of a name after its first adds exactly one duplicate
   * declaration defect, whatever types the declarations give.
   */
  lemma {:induction false} DuplicatesCounted(sc: Scope, ss: seq<Stmt>, n: string)
    requires n !in sc.symbols
    ensures Count(CheckAll(sc, ss).errors, Redeclared(n)) ==
              Count(sc.errors, Redeclared(n)) + (if Declarations(ss, n) == 0 then 0 else Declarations(ss, n) - 1)
    decreases |ss|
  {
    if ss != [] {
      var init := ss[..|ss| - 1];
      DuplicatesCounted(sc, init, n);
      TableAfterCheck(sc, init);
      DeclaredCounted(init, n);
      StmtDuplicates(CheckAll(sc, init), ss[|ss| - 1], n);
    }
  }

  /** An assignment to a name not declared before it is reported. */
  lemma UndeclaredTargetReported(sc: Scope, ss: seq<Stmt>, k: nat)
    requires k < |ss| && ss[k].Assign?
    requires ss[k].name !in sc.symbols && ss[k].name !in Declared(ss[..k])
    ensures UndeclaredTarget(ss[k].name) in CheckAll(sc, ss).errors
  {
    var first := ss[..k + 1];
    assert first[..k] == ss[..k];
    TableAfterCheck(sc, ss[..k]);
    var mid := CheckAll(sc, first);
    var last := |mid.errors| - 1;
    assert mid.errors[last] == UndeclaredTarget(ss[k].name);
    assert first + ss[k + 1..] == ss;
    CheckAllAppend(sc, first, ss[k + 1..]);
    ErrorsOnlyGrow(mid, ss[k + 1..]);
    assert CheckAll(sc, ss).errors[last] == mid.errors[last];
  }

  /** Checking two lists one after the other is checking their concatenation. */
  lemma {:induction false} CheckAllAppend(sc: Scope, a: seq<Stmt>, b: seq<Stmt>)
    ensures CheckAll(sc, a + b) == CheckAll(CheckAll(sc, a), b)
    decreases |b|
  {
    if b == [] {
      assert a + b == a;
    } else {
      assert (a + b)[..|a + b| - 1] == a + b[..|b| - 1];
      CheckAllAppend(sc, a, b[..|b| - 1]);
    }
  }

  /** An expression typed without defects reads only names in the table. */
  lemma {:induction false} CleanTypingReadsKnownNames(symbols: Table, e: Expr)
    requires TypeOf(symbols, e).errors == []
    ensures Names(e) <= symbols.Keys
  {
    match e
    case BinaryOp(_, l, r) =>
      CleanTypingReadsKnownNames(symbols, l);
      CleanTypingReadsKnownNames(symbols, r);
    case _ =>
  }

  /**
   * A program the analyzer accepts declares every name before any
   * statement assigns it or reads it.
   */
  lemma DeclaredBeforeUse(ss: seq<Stmt>, k: nat)
    requires CheckAll(Scope(map[], []), ss).errors == []
    requires k < |ss| && ss[k].Assign?
    ensures ss[k].name in Declared(ss[..k])
    ensures Names(ss[k].expr) <= Declared(ss[..k])
  {
    var sc := Scope(map[], []);
    var mid := CheckAll(sc, ss[..k]);
    var n, e := ss[k].name, ss[k].expr;
    CleanUpTo(sc, ss, k);
    assert n in mid.symbols;
    var ty := TypeOf(mid.symbols, e);
    assert |CheckStmt(mid, ss[k]).errors| >= |ty.errors|;
    CleanTypingReadsKnownNames(mid.symbols, e);
    TableAfterCheck(sc, ss[..k]);
  }

  /** When a pass from a clean state ends clean, every statement was checked from a clean state and added nothing. */
  lemma CleanUpTo(sc: Scope, ss: seq<Stmt>, k: nat)
    requires sc.errors == [] && CheckAll(sc, ss).errors == []
    requires k < |ss|
    ensures CheckAll(sc, ss[..k]).errors == [] && CheckStmt(CheckAll(sc, ss[..k]), ss[k]).errors == []
  {
    var first := ss[..k + 1];
    assert first + ss[k + 1..] == ss;
    CheckAllAppend(sc, first, ss[k + 1..]);
    ErrorsOnlyGrow(CheckAll(sc, first), ss[k + 1..]);
    assert first[..k] == ss[..k];
    ErrorsOnlyGrow(sc, ss[..k]);
  }

  /** The type slots of the operands of an arithmetic tree. */
  function LeafTypes(symbols: Table, e: Expr): set<Option<TypeName>>
  {
    match e
    case BinaryOp(_, l, r) => LeafTypes(symbols, l) + LeafTypes(symbols, r)
    case _ => {TypeOf(symbols, e).tipo}
  }

  /**
   * Arithmetic typed without defects has only numeric operands, and is Real
   * exactly when some operand is Real, otherwise Entero.
   */
  lemma {:induction false} Promotion(symbols: Table, e: Expr)
    requires e.BinaryOp? && TypeOf(symbols, e).errors == []
    ensures forall t :: t in LeafTypes(symbols, e) ==> Numeric(t)
    ensures TypeOf(symbols, e).tipo == Some(Real) <==> Some(Real) in LeafTypes(symbols, e)
    ensures TypeOf(symbols, e).tipo == Some(Entero) <==> LeafTypes(symbols, e) == {Some(Entero)}
  {
    var l, r := e.left, e.right;
    var a, b := TypeOf(symbols, l), TypeOf(symbols, r);
    assert a.errors == [] && b.errors == [];
    if l.BinaryOp? {
      Promotion(symbols, l);
    }
    if r.BinaryOp? {
      Promotion(symbols, r);
    }
    assert LeafTypes(symbols, l) != {} && LeafTypes(symbols, r) != {} by {
      LeafTypesNonEmpty(symbols, l);
      LeafTypesNonEmpty(symbols, r);
    }
  }

  lemma {:induction false} LeafTypesNonEmpty(symbols: Table, e: Expr)
    ensures TypeOf(symbols, e).errors == [] ==> TypeOf(symbols, e).tipo in LeafTypes(symbols, e) || e.BinaryOp?
    ensures LeafTypes(symbols, e) != {}
  {
    match e
    case BinaryOp(_, l, _) =>
      LeafTypesNonEmpty(symbols, l);
    case _ =>
      assert TypeOf(symbols, e).tipo in LeafTypes(symbols, e);
  }

  /**
   * An assignment to a declared name: text into a number is exactly one
   * incompatibility defect and leaves the table alone; integer and real
   * values go into either numeric type without a defect and are stored.
   */
  lemma AssignmentCompatibility(sc: Scope, n: string, e: Expr)
    requires n in sc.symbols
    ensures var ty := TypeOf(sc.symbols, e);
            var r := CheckStmt(sc, Assign(n, e));
            (sc.symbols[n].tipo != Texto && ty.tipo == Some(Texto) ==>
               r.symbols == sc.symbols && r.errors == sc.errors + ty.errors + [Incompatible(n, sc.symbols[n].tipo, ty.tipo)])
            && (sc.symbols[n].tipo != Texto && Numeric(ty.tipo) ==>
               r.errors == sc.errors + ty.errors && r.symbols == sc.symbols[n := Symbol(sc.symbols[n].tipo, ty.val)])
  {
  }

  /** `x Entero; y = x + 3;` is rejected with one defect: `y` was never declared. */
  lemma UndeclaredTargetScenario()
    ensures CheckAll(Scope(map[], []),
                     [VarDecl("x", Entero), Assign("y", BinaryOp("+", VarRef("x"), Number(VInt(3), Entero)))]).errors
            == [UndeclaredTarget("y")]
  {
    var ss := [VarDecl("x", Entero), Assign("y", BinaryOp("+", VarRef("x"), Number(VInt(3), Entero)))];
    assert ss[..1] == [VarDecl("x", Entero)];
    assert [VarDecl("x", Entero)][..0] == [];
  }

  /** `x Entero; x Real;` is rejected with one duplicate declaration, and `x` stays Entero. */
  lemma DuplicateScenario()
    ensures var r := CheckAll(Scope(map[], []), [VarDecl("x", Entero), VarDecl("x", Real)]);
            r.errors == [Redeclared("x")] && r.symbols == map["x" := Symbol(Entero, None)]
  {
    var ss := [VarDecl("x", Entero), VarDecl("x", Real)];
    assert ss[..1] == [VarDecl("x", Entero)];
    assert [VarDecl("x", Entero)][..0] == [];
  }
}
