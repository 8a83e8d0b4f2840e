/**
 * The syntax tree: the nine node kinds, split into a program, its
 * statements and the expressions statements hold.
 */
module Ast {

  /** The three type names of the language. */
  datatype TypeName = Entero | Real | Texto

  /** What a value slot can hold: an integer or a piece of text. */
  datatype Value = VInt(i: int) | VStr(s: string)

  datatype Expr =
    | Captura(tipo: TypeName)
    | BinaryOp(op: string, left: Expr, right: Expr)
    | Number(value: Value, kind: TypeName)
    | String(text: string)
    | VarRef(name: string)

  datatype Stmt =
    | VarDecl(name: string, tipo: TypeName)
    | Assign(name: string, expr: Expr)
    | Mensaje(texto: string)

  datatype Program = Program(stmts: seq<Stmt>)

  /** The spelling of each type name. */
  function TypeText(t: TypeName): (w: string)
    ensures |w| > 0
  {
    match t
    case Entero => "Entero"
    case Real => "Real"
    case Texto => "Texto"
  }

  /** The names declared by a list of statements. */
  function Declared(ss: seq<Stmt>): set<string>
    decreases |ss|
  {
    if ss == [] then {}
    else Declared(ss[..|ss| - 1]) + (if ss[|ss| - 1].VarDecl? then {ss[|ss| - 1].name} else {})
  }

  /** The names a list of statements declares or assigns. */
  function Targets(ss: seq<Stmt>): set<string>
    decreases |ss|
  {
    if ss == [] then {}
    else Targets(ss[..|ss| - 1]) + (if ss[|ss| - 1].Mensaje? then {} else {ss[|ss| - 1].name})
  }

  /** The names an expression reads. */
  function Names(e: Expr): set<string>
  {
    match e
    case VarRef(n) => {n}
    case BinaryOp(_, l, r) => Names(l) + Names(r)
    case _ => {}
  }

  /** Whether an expression reads input. */
  predicate Reads(e: Expr)
  {
    match e
    case Captura(_) => true
    case BinaryOp(_, l, r) => Reads(l) || Reads(r)
    case _ => false
  }
}
