/**
 * Token layouts of syntax trees, and the proof that the parser reads a
 * tree back from any layout of it. A layout fixes what the parser looks
 * at: the kind of every token (for an operator, any kind of its precedence
 * level), and the text of the tokens whose text ends up in the tree (names,
 * literals, operators, type names). Expressions are
 * laid out with the fewest parentheses the precedence rules allow: an
 * operation is bracketed only where it binds more loosely than its place
 * demands, that is as an operand of `*` or `/` when it is a sum or
 * difference, and as the right operand of an operator of its own level.
 */
module Layout {
  import opened Wrappers
  import opened Numerals
  import opened Lexer
  import opened Ast
  import opened Parser
  import opened ParserFacts

  /** The four operators the grammar knows. */
  predicate IsOperator(op: string)
  {
    op == "+" || op == "-" || op == "*" || op == "/"
  }

  /**
   * The trees the grammar can produce: names that are identifiers and not
   * reserved, integers that are not negative, reals spelled as the lexer
   * reads them, strings without a quote, and input reads only as the whole
   * right-hand side of an assignment.
   */
  predicate Printable(e: Expr)
  {
    match e
    case Captura(_) => false
    case BinaryOp(op, l, r) => IsOperator(op) && Printable(l) && Printable(r)
    case Number(v, k) => (k == Entero && v.VInt? && v.i >= 0) || (k == Real && v.VStr? && IsRealLiteral(v.s))
    case String(t) => '"' !in t
    case VarRef(n) => IsIdentifier(n) && n !in RESERVED
  }

  predicate PrintableName(n: string)
  {
    IsIdentifier(n) && n !in RESERVED
  }

  predicate PrintableStmt(s: Stmt)
  {
    match s
    case VarDecl(n, _) => PrintableName(n)
    case Assign(n, e) => PrintableName(n) && (e.Captura? || Printable(e))
    case Mensaje(t) => '"' !in t
  }

  predicate AllPrintable(ss: seq<Stmt>)
    decreases |ss|
  {
    ss == [] || (PrintableStmt(ss[0]) && AllPrintable(ss[1..]))
  }

  predicate PrintableProgram(p: Program)
  {
    |p.stmts| > 0 && AllPrintable(p.stmts)
  }

  /** The token at `i` exists and has kind `k` and text `t`. */
  predicate TokenAt(toks: seq<Token>, i: nat, k: Kind, t: string)
  {
    var found := i < |toks| && toks[i].kind == k && toks[i].text == t;
    found
  }

  function Quoted(t: string): string
  {
    "\"" + t + "\""
  }

  /** What the parser looks at in a token: its kind and its text. */
  datatype Shape = Shape(kind: Kind, text: string)

  /**
   * The one token of an operand that is not an operation. Only printable
   * trees read back; for the others (an input read, a negative integer) the
   * token is a stand-in.
   */
  function Atom(e: Expr): Shape
    requires !e.BinaryOp?
  {
    match e
    case Captura(_) => Shape(FUNCION, "Captura")
    case Number(v, k) => if v.VStr? then Shape(REAL, v.s) else Shape(ENTERO, Digits(if v.i < 0 then 0 else v.i))
    case String(t) => Shape(CADENA, Quoted(t))
    case VarRef(n) => Shape(ID, n)
  }

  /** The three places an expression can stand in: a sum, a product, or a single operand. */
  datatype Level = SumLevel | ProductLevel | OperandLevel

  predicate Additive(op: string)
  {
    op == "+" || op == "-"
  }

  /** The token at `j` spells the operator `op`, with a kind of the operator's level. */
  predicate OperatorAt(toks: seq<Token>, j: nat, op: string)
  {
    var found := j < |toks| && toks[j].text == op && if Additive(op) then AdditiveAt(toks, j) else MultiplicativeAt(toks, j);
    found
  }

  /** The level of an operator's left operand: its own. */
  function LeftLevel(op: string): Level
  {
    if Additive(op) then SumLevel else ProductLevel
  }

  /** The level of an operator's right operand: one tighter than its own. */
  function RightLevel(op: string): Level
  {
    if Additive(op) then ProductLevel else OperandLevel
  }

  /** An operation standing at `level` goes in parentheses when it binds more loosely than the level. */
  predicate Bracketed(e: Expr, level: Level)
  {
    e.BinaryOp? && (level == OperandLevel || (level == ProductLevel && Additive(e.op)))
  }

  /** The number of tokens of `e` laid out at `level`. */
  function Width(e: Expr, level: Level): (n: nat)
    ensures n > 0
    decreases e, if Bracketed(e, level) then 1 else 0
  {
    if !e.BinaryOp? then 1
    else if Bracketed(e, level) then Width(e, SumLevel) + 2
    else Width(e.left, LeftLevel(e.op)) + 1 + Width(e.right, RightLevel(e.op))
  }

  /** The tokens from `i` on lay out `e` at `level`. */
  predicate Spells(toks: seq<Token>, i: nat, e: Expr, level: Level)
    decreases e, if Bracketed(e, level) then 3 else 1
  {
    if !e.BinaryOp? then TokenAt(toks, i, Atom(e).kind, Atom(e).text)
    else if Bracketed(e, level) then SpellsBracketed(toks, i, e)
    else SpellsOperation(toks, i, e)
  }

  /** `( e )`, with `e` laid out as a sum inside. */
  predicate SpellsBracketed(toks: seq<Token>, i: nat, e: Expr)
    requires e.BinaryOp?
    decreases e, 2
  {
    var laid := KindAt(toks, i, PAREN_A) && Spells(toks, i + 1, e, SumLevel) && KindAt(toks, i + 1 + Width(e, SumLevel), PAREN_C);
    laid
  }

  /** The left operand at the operator's level, the operator, the right operand one level tighter. */
  predicate SpellsOperation(toks: seq<Token>, i: nat, e: Expr)
    requires e.BinaryOp?
    decreases e, 0
  {
    var j := i + Width(e.left, LeftLevel(e.op));
    var laid := Spells(toks, i, e.left, LeftLevel(e.op)) && OperatorAt(toks, j, e.op)
      && Spells(toks, j + 1, e.right, RightLevel(e.op));
    laid
  }

  /** No operator at `j`: both tails of the expression grammar stop there. */
  predicate StopsAt(toks: seq<Token>, j: nat)
  {
    !AdditiveAt(toks, j) && !MultiplicativeAt(toks, j)
  }

  /** The literal and name tokens read back as the operand they spell. */
  lemma AtomParses(toks: seq<Token>, i: nat, e: Expr)
    requires Printable(e) && !e.BinaryOp? && TokenAt(toks, i, Atom(e).kind, Atom(e).text)
    ensures ParseFactor(toks, i) == Ok(Parsed(e, i + 1))
  {
    var t := toks[i];
    match e
    case Number(v, k) =>
      if k == Entero {
        assert forall j :: 0 <= j < |t.text| ==> t.text[j] != ',';
        DigitsValueOfDigits(v.i);
      } else {
        var c :| 0 < c < |t.text| - 1 && t.text[c] == ',' && IsDigits(t.text[..c]) && IsDigits(t.text[c + 1..]);
        assert ',' in t.text;
      }
    case String(s) =>
      assert t.text[1..|t.text| - 1] == s;
    case VarRef(n) =>
  }

  /** An operand's tokens read back as that operand; an operation in parentheses adds no node. */
  lemma {:induction false} OperandParses(toks: seq<Token>, i: nat, e: Expr)
    requires Printable(e) && Spells(toks, i, e, OperandLevel)
    ensures i + Width(e, OperandLevel) <= |toks|
    ensures ParseFactor(toks, i) == Ok(Parsed(e, i + Width(e, OperandLevel)))
    decreases Width(e, OperandLevel), 0
  {
    if e.BinaryOp? {
      var j := i + 1 + Width(e, SumLevel);
      assert SpellsBracketed(toks, i, e);
      ExprParses(toks, i + 1, e);
      ParenthesisedAlone(toks, i, e, j);
    } else {
      AtomParses(toks, i, e);
    }
  }

  /** A parenthesis, an expression that ends at `j`, and a closing parenthesis make one operand. */
  lemma ParenthesisedAlone(toks: seq<Token>, i: nat, e: Expr, j: nat)
    requires KindAt(toks, i, PAREN_A) && i + 1 <= |toks| && ParseExpr(toks, i + 1) == Ok(Parsed(e, j)) && KindAt(toks, j, PAREN_C)
    ensures ParseFactor(toks, i) == Ok(Parsed(e, j + 1))
  {
  }

  /**
   * A product laid out from `i` is read as the product tail resumed after
   * its last token, with the product as what was read so far.
   */
  lemma {:induction false} ProductResumes(toks: seq<Token>, i: nat, e: Expr)
    requires Printable(e) && Spells(toks, i, e, ProductLevel)
    ensures i + Width(e, ProductLevel) <= |toks|
    ensures ParseTerm(toks, i) == TermTail(toks, e, i + Width(e, ProductLevel))
    decreases Width(e, ProductLevel), 3
  {
    if e.BinaryOp? && !Additive(e.op) {
      ProductOperationResumes(toks, i, e);
    } else {
      ProductOperandResumes(toks, i, e);
    }
  }

  /** A product that is a single operand: the operand reads back and the tail resumes after it. */
  lemma {:induction false} ProductOperandResumes(toks: seq<Token>, i: nat, e: Expr)
    requires Printable(e) && Spells(toks, i, e, ProductLevel) && !(e.BinaryOp? && !Additive(e.op))
    ensures i + Width(e, ProductLevel) <= |toks|
    ensures ParseTerm(toks, i) == TermTail(toks, e, i + Width(e, ProductLevel))
    decreases Width(e, ProductLevel), 1
  {
    assert Spells(toks, i, e, OperandLevel) && Width(e, OperandLevel) == Width(e, ProductLevel);
    OperandParses(toks, i, e);
    TermFirst(toks, i, e, i + Width(e, ProductLevel));
  }

  /** The layout of a product of two or more operands, taken apart at its last operator. */
  lemma ProductPieces(toks: seq<Token>, i: nat, e: Expr)
    requires Spells(toks, i, e, ProductLevel) && e.BinaryOp? && !Additive(e.op)
    ensures var j := i + Width(e.left, ProductLevel);
      Width(e, ProductLevel) == Width(e.left, ProductLevel) + 1 + Width(e.right, OperandLevel)
      && Spells(toks, i, e.left, ProductLevel) && MultiplicativeAt(toks, j) && toks[j].text == e.op
      && Spells(toks, j + 1, e.right, OperandLevel)
  {
  }

  /** `l * r` or `l / r`: the left product resumes, the right operand reads back, and the tail takes both. */
  lemma {:induction false} ProductOperationResumes(toks: seq<Token>, i: nat, e: Expr)
    requires Printable(e) && Spells(toks, i, e, ProductLevel) && e.BinaryOp? && !Additive(e.op)
    ensures i + Width(e, ProductLevel) <= |toks|
    ensures ParseTerm(toks, i) == TermTail(toks, e, i + Width(e, ProductLevel))
    decreases Width(e, ProductLevel), 2
  {
    var l, r := e.left, e.right;
    var j := i + Width(l, ProductLevel);
    ProductPieces(toks, i, e);
    ProductResumes(toks, i, l);
    OperandParses(toks, j + 1, r);
    ProductExtends(toks, i, l, j, r, j + 1 + Width(r, OperandLevel));
    assert e == BinaryOp(toks[j].text, l, r);
  }

  /** The product read so far, an operator, and one more operand: the product tail goes on with the larger product. */
  lemma ProductExtends(toks: seq<Token>, i: nat, l: Expr, j: nat, r: Expr, end: nat)
    requires i <= j && MultiplicativeAt(toks, j) && ParseTerm(toks, i) == TermTail(toks, l, j)
    requires ParseFactor(toks, j + 1) == Ok(Parsed(r, end))
    ensures ParseTerm(toks, i) == TermTail(toks, BinaryOp(toks[j].text, l, r), end)
  {
    TermTailStep(toks, l, j, r, end);
  }

  /** A product laid out from `i`, followed by no `*` or `/`, reads back as itself. */
  lemma {:induction false} ProductParses(toks: seq<Token>, i: nat, e: Expr)
    requires Printable(e) && Spells(toks, i, e, ProductLevel) && !MultiplicativeAt(toks, i + Width(e, ProductLevel))
    ensures i + Width(e, ProductLevel) <= |toks|
    ensures ParseTerm(toks, i) == Ok(Parsed(e, i + Width(e, ProductLevel)))
    decreases Width(e, ProductLevel), 4
  {
    ProductResumes(toks, i, e);
    TermTailStop(toks, e, i + Width(e, ProductLevel));
  }

  /**
   * A sum laid out from `i`, followed by no `*` or `/`, is read as the sum
   * tail resumed after its last token, with the sum as what was read so far.
   */
  lemma {:induction false} SumResumes(toks: seq<Token>, i: nat, e: Expr)
    requires Printable(e) && Spells(toks, i, e, SumLevel) && !MultiplicativeAt(toks, i + Width(e, SumLevel))
    ensures i + Width(e, SumLevel) <= |toks|
    ensures ParseExpr(toks, i) == ExprTail(toks, e, i + Width(e, SumLevel))
    decreases Width(e, SumLevel), 6
  {
    if e.BinaryOp? && Additive(e.op) {
      SumOperationResumes(toks, i, e);
    } else {
      SumProductResumes(toks, i, e);
    }
  }

  /** A sum that is a single product, followed by no `*` or `/`: the product tail stops where the sum tail resumes. */
  lemma {:induction false} SumProductResumes(toks: seq<Token>, i: nat, e: Expr)
    requires Printable(e) && Spells(toks, i, e, SumLevel) && !MultiplicativeAt(toks, i + Width(e, SumLevel))
    requires !(e.BinaryOp? && Additive(e.op))
    ensures i + Width(e, SumLevel) <= |toks|
    ensures ParseExpr(toks, i) == ExprTail(toks, e, i + Width(e, SumLevel))
    decreases Width(e, SumLevel), 5
  {
    var end := i + Width(e, SumLevel);
    assert Spells(toks, i, e, ProductLevel) && Width(e, ProductLevel) == Width(e, SumLevel);
    ProductParses(toks, i, e);
    ExprFirst(toks, i, e, end);
  }

  /** The layout of a sum of two or more terms, taken apart at its last operator. */
  lemma SumPieces(toks: seq<Token>, i: nat, e: Expr)
    requires Spells(toks, i, e, SumLevel) && e.BinaryOp? && Additive(e.op)
    ensures var j := i + Width(e.left, SumLevel);
      Width(e, SumLevel) == Width(e.left, SumLevel) + 1 + Width(e.right, ProductLevel)
      && Spells(toks, i, e.left, SumLevel) && AdditiveAt(toks, j) && !MultiplicativeAt(toks, j) && toks[j].text == e.op
      && Spells(toks, j + 1, e.right, ProductLevel)
  {
  }

  /** `l + r` or `l - r`: the left sum resumes, the right product reads back, and the tail takes both. */
  lemma {:induction false} SumOperationResumes(toks: seq<Token>, i: nat, e: Expr)
    requires Printable(e) && Spells(toks, i, e, SumLevel) && !MultiplicativeAt(toks, i + Width(e, SumLevel))
    requires e.BinaryOp? && Additive(e.op)
    ensures i + Width(e, SumLevel) <= |toks|
    ensures ParseExpr(toks, i) == ExprTail(toks, e, i + Width(e, SumLevel))
    decreases Width(e, SumLevel), 5
  {
    var l, r := e.left, e.right;
    var j := i + Width(l, SumLevel);
    SumPieces(toks, i, e);
    SumResumes(toks, i, l);
    SumExtends(toks, i, l, j, r);
    assert e == BinaryOp(toks[j].text, l, r);
  }

  /** The sum read so far, an operator, and one more term: the sum tail goes on with the larger sum. */
  lemma {:induction false} SumExtends(toks: seq<Token>, i: nat, l: Expr, j: nat, r: Expr)
    requires i <= j && AdditiveAt(toks, j) && ParseExpr(toks, i) == ExprTail(toks, l, j)
    requires Printable(r) && Spells(toks, j + 1, r, ProductLevel) && !MultiplicativeAt(toks, j + 1 + Width(r, ProductLevel))
    ensures j + 1 + Width(r, ProductLevel) <= |toks|
    ensures ParseExpr(toks, i) == ExprTail(toks, BinaryOp(toks[j].text, l, r), j + 1 + Width(r, ProductLevel))
    decreases Width(r, ProductLevel), 5
  {
    ProductParses(toks, j + 1, r);
    SumStep(toks, i, l, j, r, j + 1 + Width(r, ProductLevel));
  }

  /** The sum read so far, an operator, and one more term read back: the sum tail goes on with the larger sum. */
  lemma SumStep(toks: seq<Token>, i: nat, l: Expr, j: nat, r: Expr, end: nat)
    requires i <= j && AdditiveAt(toks, j) && ParseExpr(toks, i) == ExprTail(toks, l, j)
    requires ParseTerm(toks, j + 1) == Ok(Parsed(r, end))
    ensures ParseExpr(toks, i) == ExprTail(toks, BinaryOp(toks[j].text, l, r), end)
  {
    ExprTailStep(toks, l, j, r, end);
  }

  /** An expression laid out from `i`, followed by anything but an operator, reads back as itself. */
  lemma {:induction false} ExprParses(toks: seq<Token>, i: nat, e: Expr)
    requires Printable(e) && Spells(toks, i, e, SumLevel) && StopsAt(toks, i + Width(e, SumLevel))
    ensures i + Width(e, SumLevel) <= |toks|
    ensures ParseExpr(toks, i) == Ok(Parsed(e, i + Width(e, SumLevel)))
    decreases Width(e, SumLevel), 7
  {
    SumResumes(toks, i, e);
    ExprTailStop(toks, e, i + Width(e, SumLevel));
  }

  /** A literal or a name, laid out as its one token. */
  predicate AtomAt(toks: seq<Token>, i: nat, e: Expr)
  {
    !e.BinaryOp? && Printable(e) && TokenAt(toks, i, Atom(e).kind, Atom(e).text)
  }

  /** `*` and `/` bind tighter than `+` and `-`: `a + b * c` groups as `a + (b * c)`. */
  lemma ProductRightOfSum(toks: seq<Token>, i: nat, a: Expr, b: Expr, c: Expr)
    requires AtomAt(toks, i, a) && AdditiveAt(toks, i + 1) && AtomAt(toks, i + 2, b)
    requires MultiplicativeAt(toks, i + 3) && AtomAt(toks, i + 4, c) && StopsAt(toks, i + 5)
    ensures ParseExpr(toks, i) == Ok(Parsed(BinaryOp(toks[i + 1].text, a, BinaryOp(toks[i + 3].text, b, c)), i + 5))
  {
    var bc := BinaryOp(toks[i + 3].text, b, c);
    var abc := BinaryOp(toks[i + 1].text, a, bc);
    AtomParses(toks, i, a);
    AtomParses(toks, i + 2, b);
    AtomParses(toks, i + 4, c);
    TermFirst(toks, i, a, i + 1);
    TermTailStop(toks, a, i + 1);
    TermFirst(toks, i + 2, b, i + 3);
    TermTailStep(toks, b, i + 3, c, i + 5);
    TermTailStop(toks, bc, i + 5);
    ExprFirst(toks, i, a, i + 1);
    ExprTailStep(toks, a, i + 1, bc, i + 5);
    ExprTailStop(toks, abc, i + 5);
  }

  /** `*` and `/` bind tighter than `+` and `-`: `a * b + c` groups as `(a * b) + c`. */
  lemma ProductLeftOfSum(toks: seq<Token>, i: nat, a: Expr, b: Expr, c: Expr)
    requires AtomAt(toks, i, a) && MultiplicativeAt(toks, i + 1) && AtomAt(toks, i + 2, b)
    requires AdditiveAt(toks, i + 3) && AtomAt(toks, i + 4, c) && StopsAt(toks, i + 5)
    ensures ParseExpr(toks, i) == Ok(Parsed(BinaryOp(toks[i + 3].text, BinaryOp(toks[i + 1].text, a, b), c), i + 5))
  {
    var ab := BinaryOp(toks[i + 1].text, a, b);
    var abc := BinaryOp(toks[i + 3].text, ab, c);
    AtomParses(toks, i, a);
    AtomParses(toks, i + 2, b);
    AtomParses(toks, i + 4, c);
    TermFirst(toks, i, a, i + 1);
    TermTailStep(toks, a, i + 1, b, i + 3);
    TermTailStop(toks, ab, i + 3);
    TermFirst(toks, i + 4, c, i + 5);
    TermTailStop(toks, c, i + 5);
    ExprFirst(toks, i, ab, i + 3);
    ExprTailStep(toks, ab, i + 3, c, i + 5);
    ExprTailStop(toks, abc, i + 5);
  }

  /** `+` and `-` group to the left: `a - b + c` is `(a - b) + c`. */
  lemma SumsGroupLeft(toks: seq<Token>, i: nat, a: Expr, b: Expr, c: Expr)
    requires AtomAt(toks, i, a) && AdditiveAt(toks, i + 1) && AtomAt(toks, i + 2, b)
    requires AdditiveAt(toks, i + 3) && AtomAt(toks, i + 4, c) && StopsAt(toks, i + 5)
    ensures ParseExpr(toks, i) == Ok(Parsed(BinaryOp(toks[i + 3].text, BinaryOp(toks[i + 1].text, a, b), c), i + 5))
  {
    var ab := BinaryOp(toks[i + 1].text, a, b);
    var abc := BinaryOp(toks[i + 3].text, ab, c);
    AtomParses(toks, i, a);
    AtomParses(toks, i + 2, b);
    AtomParses(toks, i + 4, c);
    TermFirst(toks, i, a, i + 1);
    TermTailStop(toks, a, i + 1);
    TermFirst(toks, i + 2, b, i + 3);
    TermTailStop(toks, b, i + 3);
    TermFirst(toks, i + 4, c, i + 5);
    TermTailStop(toks, c, i + 5);
    ExprFirst(toks, i, a, i + 1);
    ExprTailStep(toks, a, i + 1, b, i + 3);
    ExprTailStep(toks, ab, i + 3, c, i + 5);
    ExprTailStop(toks, abc, i + 5);
  }

  /** `*` and `/` group to the left: `a / b * c` is `(a / b) * c`. */
  lemma ProductsGroupLeft(toks: seq<Token>, i: nat, a: Expr, b: Expr, c: Expr)
    requires AtomAt(toks, i, a) && MultiplicativeAt(toks, i + 1) && AtomAt(toks, i + 2, b)
    requires MultiplicativeAt(toks, i + 3) && AtomAt(toks, i + 4, c) && StopsAt(toks, i + 5)
    ensures ParseExpr(toks, i) == Ok(Parsed(BinaryOp(toks[i + 3].text, BinaryOp(toks[i + 1].text, a, b), c), i + 5))
  {
    var ab := BinaryOp(toks[i + 1].text, a, b);
    var abc := BinaryOp(toks[i + 3].text, ab, c);
    AtomParses(toks, i, a);
    AtomParses(toks, i + 2, b);
    AtomParses(toks, i + 4, c);
    TermFirst(toks, i, a, i + 1);
    TermTailStep(toks, a, i + 1, b, i + 3);
    TermTailStep(toks, ab, i + 3, c, i + 5);
    TermTailStop(toks, abc, i + 5);
    ExprFirst(toks, i, abc, i + 5);
    ExprTailStop(toks, abc, i + 5);
  }

  /** The number of tokens of a statement, its `;` included. */
  function StmtWidth(s: Stmt): (n: nat)
    ensures n > 0
  {
    match s
    case VarDecl(_, _) => 3
    case Assign(_, e) => if e.Captura? then 8 else Width(e, SumLevel) + 3
    case Mensaje(_) => 7
  }

  /**
   * The tokens from `i` on lay out `s`: `ID TIPO ;`, `ID = FUNCION . TIPO ( ) ;`,
   * `ID = expression ;` or `FUNCION . TIPO ( CADENA ) ;`. The texts of the
   * function name in both fixed forms and of the type name in the write
   * form are left free.
   */
  predicate SpellsStatement(toks: seq<Token>, i: nat, s: Stmt)
  {
    match s
    case VarDecl(n, t) =>
      TokenAt(toks, i, ID, n) && TokenAt(toks, i + 1, TIPO, TypeText(t)) && KindAt(toks, i + 2, PUNTOYCOMA)
    case Assign(n, e) =>
      TokenAt(toks, i, ID, n) && KindAt(toks, i + 1, ASSIGN)
        && if e.Captura? then KindsAt(toks, i + 2, READ_TAIL) && toks[i + 4].text == TypeText(e.tipo)
           else Spells(toks, i + 2, e, SumLevel) && KindAt(toks, i + 2 + Width(e, SumLevel), PUNTOYCOMA)
    case Mensaje(t) =>
      KindsAt(toks, i, WRITE_FORM) && toks[i + 4].text == Quoted(t)
  }

  /** `ParseStatement` reads `s` from `i` and stops before `end`. */
  predicate StatementAt(toks: seq<Token>, i: nat, s: Stmt, end: nat)
    requires i <= |toks|
  {
    var found := ParseStatement(toks, i).Ok? && ParseStatement(toks, i).value == Parsed(s, end);
    found
  }

  /** `ID TIPO ;` reads back as the declaration. */
  lemma DeclarationParses(toks: seq<Token>, i: nat, n: string, t: TypeName)
    requires TokenAt(toks, i, ID, n) && TokenAt(toks, i + 1, TIPO, TypeText(t)) && KindAt(toks, i + 2, PUNTOYCOMA)
    ensures StatementAt(toks, i, VarDecl(n, t), i + 3)
  {
    assert TypeNamed(toks[i + 1]) == t;
  }

  /** The read form, from what the parser finds at each step. */
  lemma ReadAlone(toks: seq<Token>, i: nat, n: string, t: TypeName, end: nat)
    requires KindAt(toks, i, ID) && toks[i].text == n && KindAt(toks, i + 1, ASSIGN) && KindAt(toks, i + 2, FUNCION)
    requires Expect(toks, i + 2, READ_TAIL) == Pass && KindAt(toks, i + 4, TIPO) && TypeNamed(toks[i + 4]) == t && end == i + 8
    ensures StatementAt(toks, i, Assign(n, Captura(t)), end)
  {
  }

  /** `ID = FUNCION . TIPO ( ) ;` reads back as an input read. */
  lemma ReadParses(toks: seq<Token>, i: nat, n: string, t: TypeName)
    requires TokenAt(toks, i, ID, n) && KindAt(toks, i + 1, ASSIGN) && KindsAt(toks, i + 2, READ_TAIL) && toks[i + 4].text == TypeText(t)
    ensures StatementAt(toks, i, Assign(n, Captura(t)), i + 8)
  {
    ExpectPasses(toks, i + 2, READ_TAIL);
    ReadTail(toks, i, t);
    ReadAlone(toks, i, n, t, i + 8);
  }

  /** The tokens of the read form after `ID =`: a function name, and a type name that names `t`. */
  lemma ReadTail(toks: seq<Token>, i: nat, t: TypeName)
    requires KindsAt(toks, i + 2, READ_TAIL) && toks[i + 4].text == TypeText(t)
    ensures KindAt(toks, i + 2, FUNCION) && KindAt(toks, i + 4, TIPO) && TypeNamed(toks[i + 4]) == t
  {
    assert toks[i + 2 + 0].kind == READ_TAIL[0] && toks[i + 2 + 2].kind == READ_TAIL[2];
  }

  /** An expression starts with a parenthesis, a literal or a name. */
  lemma ExprStart(toks: seq<Token>, i: nat)
    requires i <= |toks| && ParseExpr(toks, i).Ok?
    ensures !KindAt(toks, i, FUNCION)
  {
    assert ParseTerm(toks, i).Ok?;
    assert ParseFactor(toks, i).Ok?;
  }

  /** The assignment form, from what the parser finds at each step. */
  lemma AssignmentAlone(toks: seq<Token>, i: nat, n: string, e: Expr, j: nat, end: nat)
    requires KindAt(toks, i, ID) && toks[i].text == n && KindAt(toks, i + 1, ASSIGN) && !KindAt(toks, i + 2, FUNCION)
    requires i + 2 <= |toks| && ParseExpr(toks, i + 2) == Ok(Parsed(e, j)) && KindAt(toks, j, PUNTOYCOMA) && end == j + 1
    ensures StatementAt(toks, i, Assign(n, e), end)
  {
  }

  /** `ID = expression ;` reads back as the assignment. */
  lemma AssignmentParses(toks: seq<Token>, i: nat, n: string, e: Expr)
    requires TokenAt(toks, i, ID, n) && KindAt(toks, i + 1, ASSIGN)
    requires Printable(e) && Spells(toks, i + 2, e, SumLevel) && KindAt(toks, i + 2 + Width(e, SumLevel), PUNTOYCOMA)
    ensures StatementAt(toks, i, Assign(n, e), i + 3 + Width(e, SumLevel))
  {
    var j := i + 2 + Width(e, SumLevel);
    ExprParses(toks, i + 2, e);
    ExprStart(toks, i + 2);
    AssignmentAlone(toks, i, n, e, j, j + 1);
  }

  /** The write form, from what the parser finds. */
  lemma MessageAlone(toks: seq<Token>, i: nat, t: string, end: nat)
    requires KindAt(toks, i, FUNCION) && Expect(toks, i, WRITE_FORM) == Pass && KindAt(toks, i + 4, CADENA)
    requires Unquoted(toks[i + 4]) == t && end == i + 7
    ensures StatementAt(toks, i, Mensaje(t), end)
  {
  }

  /** `FUNCION . TIPO ( CADENA ) ;` reads back as the message. */
  lemma MessageParses(toks: seq<Token>, i: nat, t: string)
    requires KindsAt(toks, i, WRITE_FORM) && toks[i + 4].text == Quoted(t)
    ensures StatementAt(toks, i, Mensaje(t), i + 7)
  {
    ExpectPasses(toks, i, WRITE_FORM);
    assert toks[i + 0].kind == WRITE_FORM[0] && toks[i + 4].kind == WRITE_FORM[4];
    var text := toks[i + 4].text;
    assert text[1..|text| - 1] == t;
    MessageAlone(toks, i, t, i + 7);
  }

  /** Any statement read back from its layout, up to its last token. */
  lemma StatementParses(toks: seq<Token>, i: nat, s: Stmt)
    requires PrintableStmt(s) && SpellsStatement(toks, i, s)
    ensures StatementAt(toks, i, s, i + StmtWidth(s))
  {
    match s
    case VarDecl(n, t) => DeclarationParses(toks, i, n, t);
    case Assign(n, e) =>
      if e.Captura? {
        ReadParses(toks, i, n, e.tipo);
      } else {
        AssignmentParses(toks, i, n, e);
      }
    case Mensaje(t) => MessageParses(toks, i, t);
  }

  /** After one statement, the list goes on from the token that follows it. */
  lemma StatementsStep(toks: seq<Token>, i: nat, acc: seq<Stmt>, s: Stmt, j: nat)
    requires i < |toks| && StatementAt(toks, i, s, j)
    ensures j <= |toks| && ParseStatements(toks, i, acc) == ParseStatements(toks, j, acc + [s])
  {
  }

  /** A program is its statement list, started with nothing read. */
  lemma ProgramIsStatements(toks: seq<Token>, ss: seq<Stmt>)
    requires toks != [] && ParseStatements(toks, 0, []) == Ok(ss)
    ensures ParseProgram(toks) == Ok(Program(ss))
  {
    match ParseStatement(toks, 0)
    case Err(_) =>
    case Ok(s) =>
      StatementsStep(toks, 0, [], s.node, s.next);
      assert [] + [s.node] == [s.node];
  }

  /** The tokens from `i` to the end of input lay out the statements `ss`, one after another. */
  predicate SpellsStatements(toks: seq<Token>, i: nat, ss: seq<Stmt>)
    decreases |ss|
  {
    if ss == [] then i == |toks|
    else SpellsStatement(toks, i, ss[0]) && SpellsStatements(toks, i + StmtWidth(ss[0]), ss[1..])
  }

  /** One statement, then the rest of the list read back after it. */
  lemma StatementsCons(toks: seq<Token>, i: nat, acc: seq<Stmt>, ss: seq<Stmt>, end: nat)
    requires ss != [] && i <= |toks| && StatementAt(toks, i, ss[0], end)
    requires end <= |toks| && ParseStatements(toks, end, acc + [ss[0]]) == Ok(acc + ss)
    ensures ParseStatements(toks, i, acc) == Ok(acc + ss)
  {
    StatementsStep(toks, i, acc, ss[0], end);
  }

  lemma AppendFirst(acc: seq<Stmt>, ss: seq<Stmt>)
    requires ss != []
    ensures acc + [ss[0]] + ss[1..] == acc + ss
  {
    assert [ss[0]] + ss[1..] == ss;
  }

  /** The first of the statements laid out from `i` reads back, and the others follow it. */
  lemma FirstStatement(toks: seq<Token>, i: nat, ss: seq<Stmt>) returns (end: nat)
    requires ss != [] && AllPrintable(ss) && SpellsStatements(toks, i, ss)
    ensures i < end <= |toks| && StatementAt(toks, i, ss[0], end)
    ensures AllPrintable(ss[1..]) && SpellsStatements(toks, end, ss[1..])
  {
    var s := ss[0];
    end := i + StmtWidth(s);
    assert SpellsStatement(toks, i, s) && SpellsStatements(toks, end, ss[1..]);
    assert PrintableStmt(s) && AllPrintable(ss[1..]);
    StatementParses(toks, i, s);
  }

  /** Statements laid out to the end of input read back as their list, after what was read before. */
  lemma {:induction false} StatementsParse(toks: seq<Token>, i: nat, acc: seq<Stmt>, ss: seq<Stmt>)
    requires i <= |toks| && AllPrintable(ss) && SpellsStatements(toks, i, ss)
    ensures ParseStatements(toks, i, acc) == Ok(acc + ss)
    decreases |ss|
  {
    if ss == [] {
      assert acc + ss == acc;
    } else {
      var end := FirstStatement(toks, i, ss);
      StatementsParse(toks, end, acc + [ss[0]], ss[1..]);
      AppendFirst(acc, ss);
      StatementsCons(toks, i, acc, ss, end);
    }
  }

  /**
   * Parsing inverts layout: any tokens that lay out a program, and nothing
   * after it, parse to that program.
   */
  lemma ParseLaidOut(toks: seq<Token>, p: Program)
    requires PrintableProgram(p) && SpellsStatements(toks, 0, p.stmts)
    ensures ParseProgram(toks) == Ok(p)
  {
    StatementsParse(toks, 0, [], p.stmts);
    assert [] + p.stmts == p.stmts;
    ProgramIsStatements(toks, p.stmts);
  }
}
