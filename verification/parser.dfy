/**
 * The grammar as a recursive-descent parser over the token sequence. The
 * two-level operator precedence (`+ -` below `* /`, both left-associative)
 * is one function per level with a loop-shaped tail; the four statement
 * forms each end in `;`; the first token that fits no rule ends parsing.
 */
module Parser {
  import opened Wrappers
  import opened Numerals
  import opened Lexer
  import opened Ast

  /** Why parsing stopped: a token that fits no rule, or the end of the input. */
  datatype ParseError = Unexpected(token: Token) | IncompleteInput

  /** A node and the index of the first token after it. */
  datatype Parsed<T> = Parsed(node: T, next: nat)

  /** The error reported at index `i`: the token there, or the end of input. */
  function FailAt<T>(toks: seq<Token>, i: nat): (r: Result<T, ParseError>)
    ensures r.Err?
    ensures i < |toks| <==> r.error.Unexpected?
    ensures i < |toks| ==> r.error.token == toks[i]
  {
    if i < |toks| then Err(Unexpected(toks[i])) else Err(IncompleteInput)
  }

  /** Whether the token at `i` exists and has kind `k`. */
  predicate KindAt(toks: seq<Token>, i: nat, k: Kind)
  {
    var found := i < |toks| && toks[i].kind == k;
    found
  }

  /** A `+` or `-` token at `i`: the sum tail goes on there. */
  predicate AdditiveAt(toks: seq<Token>, i: nat)
  {
    KindAt(toks, i, PLUS) || KindAt(toks, i, MINUS)
  }

  /** A `*` or `/` token at `i`: the product tail goes on there. */
  predicate MultiplicativeAt(toks: seq<Token>, i: nat)
  {
    KindAt(toks, i, TIMES) || KindAt(toks, i, DIVIDE)
  }

  /** The type named by a TIPO token (the lexer makes no other type token than these three). */
  function TypeNamed(t: Token): (n: TypeName)
    requires t.kind == TIPO
    ensures t.text == "Entero" || t.text == "Real" || t.text == "Texto" ==> TypeText(n) == t.text
  {
    if t.text == "Entero" then Entero else if t.text == "Real" then Real else Texto
  }

  /** The text between the quotes of a string literal. */
  function Unquoted(t: Token): (s: string)
    requires t.kind == CADENA
    ensures t.text == "\"" + s + "\""
  {
    t.text[1..|t.text| - 1]
  }

  /**
   * A numeric literal: with a comma it stays text and is typed Real;
   * otherwise it is read as an integer and typed Entero.
   */
  function NumberLiteral(t: Token): (e: Expr)
    requires t.kind == ENTERO || t.kind == REAL
    ensures e.Number?
    ensures e.kind == Real <==> ',' in t.text
    ensures e.kind == Real ==> e.value == VStr(t.text)
    ensures e.kind == Entero ==> IsDigits(t.text) && e.value == VInt(DigitsValue(t.text)) && e.value.i >= 0
  {
    if ',' in t.text then Number(VStr(t.text), Real)
    else Number(VInt(DigitsValue(t.text)), Entero)
  }

  /** An operand: a parenthesised expression, a number, a string or a name. */
  function ParseFactor(toks: seq<Token>, i: nat): (r: Result<Parsed<Expr>, ParseError>)
    requires i <= |toks|
    ensures r.Ok? ==> i < r.value.next <= |toks|
    decreases |toks| - i, 0
  {
    if i == |toks| then Err(IncompleteInput)
    else
      var t := toks[i];
      match t.kind
      case PAREN_A =>
        (match ParseExpr(toks, i + 1)
         case Err(e) => Err(e)
         case Ok(inner) =>
           if KindAt(toks, inner.next, PAREN_C) then Ok(Parsed(inner.node, inner.next + 1))
           else FailAt(toks, inner.next))
      case ENTERO => Ok(Parsed(NumberLiteral(t), i + 1))
      case REAL => Ok(Parsed(NumberLiteral(t), i + 1))
      case CADENA => Ok(Parsed(String(Unquoted(t)), i + 1))
      case ID => Ok(Parsed(VarRef(t.text), i + 1))
      case _ => Err(Unexpected(t))
  }

  /** Operands joined by `*` and `/`, grouped to the left. */
  function ParseTerm(toks: seq<Token>, i: nat): (r: Result<Parsed<Expr>, ParseError>)
    requires i <= |toks|
    ensures r.Ok? ==> i < r.value.next <= |toks|
    decreases |toks| - i, 1
  {
    match ParseFactor(toks, i)
    case Err(e) => Err(e)
    case Ok(f) => TermTail(toks, f.node, f.next)
  }

  /** Having read `left`, absorb any further `* operand` or `/ operand`. */
  function TermTail(toks: seq<Token>, left: Expr, i: nat): (r: Result<Parsed<Expr>, ParseError>)
    requires i <= |toks|
    ensures r.Ok? ==> i <= r.value.next <= |toks|
    decreases |toks| - i, 0
  {
    if KindAt(toks, i, TIMES) || KindAt(toks, i, DIVIDE) then
      match ParseFactor(toks, i + 1)
      case Err(e) => Err(e)
      case Ok(f) => TermTail(toks, BinaryOp(toks[i].text, left, f.node), f.next)
    else Ok(Parsed(left, i))
  }

  /** Terms joined by `+` and `-`, grouped to the left. */
  function ParseExpr(toks: seq<Token>, i: nat): (r: Result<Parsed<Expr>, ParseError>)
    requires i <= |toks|
    ensures r.Ok? ==> i < r.value.next <= |toks|
    decreases |toks| - i, 2
  {
    match ParseTerm(toks, i)
    case Err(e) => Err(e)
    case Ok(t) => ExprTail(toks, t.node, t.next)
  }

  /** Having read `left`, absorb any further `+ term` or `- term`. */
  function ExprTail(toks: seq<Token>, left: Expr, i: nat): (r: Result<Parsed<Expr>, ParseError>)
    requires i <= |toks|
    ensures r.Ok? ==> i <= r.value.next <= |toks|
    decreases |toks| - i, 0
  {
    if KindAt(toks, i, PLUS) || KindAt(toks, i, MINUS) then
      match ParseTerm(toks, i + 1)
      case Err(e) => Err(e)
      case Ok(t) => ExprTail(toks, BinaryOp(toks[i].text, left, t.node), t.next)
    else Ok(Parsed(left, i))
  }

  /** Checks that the tokens from `i` on have the kinds `ks`, reporting the first that does not. */
  function Expect(toks: seq<Token>, i: nat, ks: seq<Kind>): (r: Outcome<ParseError>)
    requires i <= |toks|
    ensures r.Pass? ==> i + |ks| <= |toks|
    decreases |ks|
  {
    if ks == [] then Pass
    else if KindAt(toks, i, ks[0]) then Expect(toks, i + 1, ks[1..])
    else if i < |toks| then Fail(Unexpected(toks[i])) else Fail(IncompleteInput)
  }

  /** The kinds after `ID =` in the read form. */
  const READ_TAIL: seq<Kind> := [FUNCION, PUNTO, TIPO, PAREN_A, PAREN_C, PUNTOYCOMA]

  /** The kinds of the write form. */
  const WRITE_FORM: seq<Kind> := [FUNCION, PUNTO, TIPO, PAREN_A, CADENA, PAREN_C, PUNTOYCOMA]

  /**
   * One statement and its `;`: `ID TIPO`, `ID = FUNCION . TIPO ( )`,
   * `ID = expression`, or `FUNCION . TIPO ( CADENA )`.
   */
  function ParseStatement(toks: seq<Token>, i: nat): (r: Result<Parsed<Stmt>, ParseError>)
    requires i <= |toks|
    ensures r.Ok? ==> i < r.value.next <= |toks|
  {
    if KindAt(toks, i, ID) then
      var name := toks[i].text;
      if KindAt(toks, i + 1, TIPO) then
        match Expect(toks, i + 2, [PUNTOYCOMA])
        case Fail(e) => Err(e)
        case Pass => Ok(Parsed(VarDecl(name, TypeNamed(toks[i + 1])), i + 3))
      else if KindAt(toks, i + 1, ASSIGN) then
        if KindAt(toks, i + 2, FUNCION) then
          match Expect(toks, i + 2, READ_TAIL)
          case Fail(e) => Err(e)
          case Pass => Ok(Parsed(Assign(name, Captura(TypeNamed(toks[i + 4]))), i + 8))
        else
          match ParseExpr(toks, i + 2)
          case Err(e) => Err(e)
          case Ok(x) =>
            match Expect(toks, x.next, [PUNTOYCOMA])
            case Fail(e) => Err(e)
            case Pass => Ok(Parsed(Assign(name, x.node), x.next + 1))
      else FailAt(toks, i + 1)
    else if KindAt(toks, i, FUNCION) then
      match Expect(toks, i, WRITE_FORM)
      case Fail(e) => Err(e)
      case Pass => Ok(Parsed(Mensaje(Unquoted(toks[i + 4])), i + 7))
    else FailAt(toks, i)
  }

  /** Statements from `i` to the end, appended to `acc` in source order. */
  function ParseStatements(toks: seq<Token>, i: nat, acc: seq<Stmt>): (r: Result<seq<Stmt>, ParseError>)
    requires i <= |toks|
    ensures r.Ok? ==> |r.value| >= |acc| && r.value[..|acc|] == acc
    decreases |toks| - i
  {
    if i == |toks| then Ok(acc)
    else
      match ParseStatement(toks, i)
      case Err(e) => Err(e)
      case Ok(s) =>
        assert (acc + [s.node])[..|acc|] == acc;
        ParseStatements(toks, s.next, acc + [s.node])
  }

  /** A program: one or more statements filling the whole input. */
  function ParseProgram(toks: seq<Token>): (r: Result<Program, ParseError>)
    ensures toks == [] ==> r == Err(IncompleteInput)
    ensures r.Ok? ==> |r.value.stmts| > 0
  {
    if toks == [] then Err(IncompleteInput)
    else
      match ParseStatement(toks, 0)
      case Err(e) => Err(e)
      case Ok(s) =>
        match ParseStatements(toks, s.next, [s.node])
        case Err(e) => Err(e)
        case Ok(ss) => Ok(Program(ss))
  }
}
