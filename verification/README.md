# A verified model of a small Spanish-keyword interpreter

The system runs programs in a four-stage pipeline. Each stage is modelled here on its own terms.

- **Lexer** (`lexer.dfy`, `lexer_facts.dfy`). It turns text into fifteen kinds of token:
  - `CADENA`, `REAL`, `ENTERO`, `TIPO`, `FUNCION` and `ID`;
  - the seven single-character kinds, `+ - * / = . ( ) ;`.

  The rules are tried in a fixed order: blanks, string literal, `digits,digits` real, integer, then identifier. An identifier is reclassified through the reserved table (`Entero`/`Real`/`Texto` give `TIPO`, `Captura`/`Mensaje` give `FUNCION`). After that come runs of newlines, then operators. An illegal character is recorded with the line counter minus one and its offset, then skipped alone. The scanner is a class (`Lexer.Lexer`) whose `Token` and `Tokens` methods loop over the offset. They are proved against the pure step functions `NextToken` and `ScanFrom`.
- **Parser** (`ast.dfy`, `parser.dfy`, `parser_facts.dfy`, `layout.dfy`). The nine node classes are datatypes: a program, three statement forms and five expression forms. The grammar is a recursive-descent parser with one function per precedence level. Each level has a left-grouping tail, so `* /` bind tighter than `+ -` and both group to the left. It accepts four statement forms, each ending in `;`:
  - a declaration, `x Entero;`;
  - an assignment, `x = expression;`;
  - a read, `x = Captura.Entero();`;
  - a write, `Mensaje.Texto("...");`.

  The first token that fits no rule ends parsing with that token, or with "input ended", and no tree. `layout.dfy` lays a tree out with the fewest parentheses its precedence needs and proves that parsing reads the tree back. `ExprParses` proves this for every printable expression, which covers the precedence and left grouping of both levels. `ParseLaidOut` proves it for whole programs. The grouping lemmas spell out how `a + b * c`, `a * b + c`, `a - b + c` and `a / b * c` group.
- **Semantic analyzer** (`semantic.dfy`, `semantic_facts.dfy`). The class `SemanticAnalyzer` keeps one symbol table (name to declared type and last value) and one defect list. The defect list only grows. Its visit methods are proved against the pure `TypeOf`, `CheckStmt` and `CheckAll`. `Analyze` fails exactly when a defect was recorded. The lemmas cover:
  - compatibility (`Entero` and `Real` mix, `Texto` matches only itself);
  - promotion to `Real`;
  - what the table holds afterwards;
  - one defect per duplicate declaration;
  - declare-before-use in every accepted program.
- **Interpreter** (`interpreter.dfy`, `interpreter_facts.dfy`). The class `Interpreter` keeps a store, an output log and a queue of input lines. `Run` executes statements in order. A failing statement adds one `Failure` entry and leaves the store alone, and the next statement still runs. `Eval` converts operands the way `_as_number` does (comma text becomes a float, digit text an integer). Integers stay exact for `+ - *`. `/` and every float operation go through `FloatLib`, an abstract parameter for Python's floats, and the dot in a float result's spelling becomes a comma.
- **Pipeline** (`pipeline.dfy`). It links the analyzer to the interpreter. A program the analyzer accepts never fails at run time for a missing variable. It can still fail for an unassigned one, and `AcceptedButUnassigned` exhibits such a program.

`wrappers.dfy` holds the `Option`/`Result`/`Outcome` datatypes. `numerals.dfy` holds ASCII digit strings, `int()` and `str()`.

## Model

| member | source | states |
|---|---|---|
| Lexer.RuleAt | analizador_lexico.py:28-72 | the rule chosen at a position: an emitted token has positive length and text well formed for its kind; a newline run covers only newlines; a skip happens exactly on a blank or tab |
| Lexer.StringRule | analizador_lexico.py:51-53 | a string literal runs from a quote to the next quote, keeps both quotes and holds no quote inside |
| Lexer.NumberRule | analizador_lexico.py:55-61 | the token is REAL exactly when the digit run is followed by a comma and a digit; its text is the whole digit run, or that run, the comma and the whole digit run after it; no digit follows the token |
| Lexer.WordRule | analizador_lexico.py:63-67 | the token is the longest identifier run (no identifier character follows it), and its kind is the reserved table's classification of exactly that text |
| Lexer.ClassifiedWellFormed | analizador_lexico.py:63-67 | every identifier-shaped word is well formed for the kind the reserved table gives it |
| Lexer.OperatorWellFormed | analizador_lexico.py:40-48 | each operator character is a one-character token of its own fixed kind |
| Lexer.WellFormedReadable | analizador_lexico.py:51-61 | what the lexer emits is what the parser relies on: digits without a comma, a literal with its quotes |
| Lexer.Advance | analizador_lexico.py:69-83 | a diagnostic is recorded exactly when no rule applies; it names the line counter minus one, the offset and the character, and only that character is skipped; a token is emitted exactly for an emitting rule, with the input's text at its offset and the line unchanged; a blank skips one character; a newline run raises the line counter by its length; nothing both reports and emits |
| Lexer.NextToken | analizador_lexico.py:69-83 | a request for a token moves forward, yields a token unless the input ends, and collects the diagnostics met on the way |
| Lexer.ScanFrom | analizador_lexico.py:50-83 | a whole scan from an offset yields at most one token per remaining input character |
| Lexer.Lexer.constructor | analizador_lexico.py:85-86 | a new scanner has empty input, offset 0, line counter 1 and no diagnostics |
| Lexer.Lexer.Input | analizador_lexico.py:85-86 | new input restarts the offset and keeps the line counter and the diagnostics |
| Lexer.Lexer.Token | analizador_lexico.py:69-83 | the scanning loop yields exactly `NextToken`'s token, offset, line counter and appended diagnostics |
| Lexer.Lexer.Tokens | analizador_lexico.py:69-83 | repeated requests yield exactly the whole scan `ScanFrom`: its tokens in order, its diagnostics appended, its final line counter |
| LexerFacts.ReservedWords | analizador_lexico.py:31-37 | a word is TIPO iff it is Entero, Real or Texto; FUNCION iff Captura or Mensaje; ID iff it is not reserved |
| LexerFacts.LongestWord | analizador_lexico.py:63-67 | at any offset, the longest identifier is taken before the reserved lookup ("Enteros" is an ID, "Entero" a TIPO) |
| LexerFacts.RealBeatsInteger | analizador_lexico.py:55-61 | at any offset, `digits,digits` is one REAL token, because the real rule comes before the integer rule |
| LexerFacts.IntegerAlone | analizador_lexico.py:59-61 | at any offset, digits not followed by a comma and a digit are one ENTERO token |
| LexerFacts.IllegalExactly | analizador_lexico.py:75-83 | a character is illegal iff no rule can start at it (including a quote with no closing quote) |
| LexerFacts.WellFormedNoBreak | analizador_lexico.py:51-67 | only a string literal can contain a line break |
| LexerFacts.NextTokenFromInput | analizador_lexico.py:69-83 | a token is the input's text at its offset and well formed; each diagnostic names an illegal character at its offset |
| LexerFacts.ScanFromInput | analizador_lexico.py:50-83 | over a whole scan, tokens are slices of the input, left to right, without overlap, and every diagnostic names an illegal input character |
| LexerFacts.AdvanceLines | analizador_lexico.py:70-72 | one step raises the line counter by exactly the newlines it passes |
| LexerFacts.NextTokenLines | analizador_lexico.py:70-72 | outside string literals, a token request raises the line counter by the newlines it skips |
| LexerFacts.ScanLines | analizador_lexico.py:70-72 | for quote-free input the final line counter is the start plus the number of newlines |
| LexerFacts.LineBreaksAppend | analizador_lexico.py:70-72 | newline counts add up over concatenation |
| LexerFacts.NewlineLegal | analizador_lexico.py:69-72 | a newline is never an illegal character |
| LexerFacts.NextTokenIncreasing | analizador_lexico.py:75-83 | the diagnostics of one token request name strictly increasing offsets |
| LexerFacts.NextTokenReports | analizador_lexico.py:75-83 | every illegal character passed over before the token is reported by that request |
| LexerFacts.NextTokenErrorLines | analizador_lexico.py:70-81 | for quote-free input each diagnostic carries the starting line counter plus the newlines before its offset, minus one |
| LexerFacts.ScanIncreasing | analizador_lexico.py:75-83 | over a whole scan the diagnostics name strictly increasing offsets, so none is reported twice |
| LexerFacts.ScanReports | analizador_lexico.py:75-83 | over a whole scan every illegal character outside a token (a comma inside a real literal is inside one) is reported |
| LexerFacts.ScanErrorLines | analizador_lexico.py:70-81 | for quote-free input each diagnostic of a scan carries the line counter at its offset minus one |
| LexerFacts.IllegalReportedOnce | analizador_lexico.py:70-83 | for quote-free input every illegal character outside a token has exactly one diagnostic, with its offset, its character and the line counter at it minus one |
| Numerals.DigitsValueOfDigits | analizador_sintactico.py:146 | `int(str(n)) == n` for every natural number |
| Parser.FailAt | analizador_sintactico.py:161-168 | the error is the offending token when there is one, and "input ended" otherwise |
| Parser.TypeNamed | analizador_sintactico.py:94-96 | a TIPO token's text names its type |
| Parser.Unquoted | analizador_sintactico.py:149-151 | the string value is the literal without its first and last character |
| Parser.NumberLiteral | analizador_sintactico.py:136-146 | a literal with a comma becomes Number(raw text, Real); one without is all digits and becomes Number(Entero) holding the decimal value of those digits, never negative |
| Parser.ParseFactor | analizador_sintactico.py:131-156 | an operand consumes at least one token and stays inside the input |
| Parser.TermTail | analizador_sintactico.py:123-128 | the product tail never moves backwards and stays inside the input |
| Parser.ExprTail | analizador_sintactico.py:123-128 | the sum tail never moves backwards and stays inside the input |
| Parser.ParseTerm | analizador_sintactico.py:123-128 | a product consumes at least one token |
| Parser.ParseExpr | analizador_sintactico.py:123-133 | an expression consumes at least one token |
| Parser.Expect | analizador_sintactico.py:108-118 | a passing fixed-form check had all its tokens available |
| Parser.ParseStatement | analizador_sintactico.py:84-118 | a statement consumes at least one token and stays inside the input |
| Parser.ParseStatements | analizador_sintactico.py:74-81 | statements are appended after those already read, in source order |
| Parser.ParseProgram | analizador_sintactico.py:69-71 | empty input is an error; a parsed program has at least one statement |
| ParserFacts.ExpectPasses | analizador_sintactico.py:108-118 | tokens of the expected kinds pass the fixed-form check |
| ParserFacts.ExpectChecks | analizador_sintactico.py:108-118 | only tokens of the expected kinds pass it |
| ParserFacts.ExpectExactly | analizador_sintactico.py:108-118 | the fixed-form check passes iff the tokens have the expected kinds |
| ParserFacts.TermFirst | analizador_sintactico.py:123-128 | a product is its first operand followed by the product tail |
| ParserFacts.TermTailStep | analizador_sintactico.py:59-62 | `*` or `/` and an operand extend the product, grouping to the left |
| ParserFacts.TermTailStop | analizador_sintactico.py:59-62 | the product tail stops at anything but `*` and `/` |
| ParserFacts.ExprFirst | analizador_sintactico.py:123-128 | a sum is its first product followed by the sum tail |
| ParserFacts.ExprTailStep | analizador_sintactico.py:59-62 | `+` or `-` and a product extend the sum, grouping to the left |
| ParserFacts.ExprTailStop | analizador_sintactico.py:59-62 | the sum tail stops at anything but `+` and `-` |
| ParserFacts.FactorBlames | analizador_sintactico.py:161-168 | an operand's error is "input ended" or a token at or after the operand's start |
| ParserFacts.TermBlames | analizador_sintactico.py:161-168 | the same for a product |
| ParserFacts.TermTailBlames | analizador_sintactico.py:161-168 | the same for the product tail |
| ParserFacts.ExprBlames | analizador_sintactico.py:161-168 | the same for an expression |
| ParserFacts.ExprTailBlames | analizador_sintactico.py:161-168 | the same for the sum tail |
| ParserFacts.ExpectBlames | analizador_sintactico.py:161-168 | the same for a fixed-form check |
| ParserFacts.StatementBlames | analizador_sintactico.py:161-168 | the same for a statement |
| ParserFacts.StatementsBlames | analizador_sintactico.py:161-168 | the same for the statement list |
| ParserFacts.ProgramBlames | analizador_sintactico.py:161-168 | a failed parse gives only an error, and that error is "input ended" or names a token of the input |
| Layout.AtomParses | analizador_sintactico.py:136-156 | a number, string or name token reads back as exactly that leaf (integer text via `int`, string without quotes) |
| Layout.OperandParses | analizador_sintactico.py:131-156 | any operand's layout (a leaf token, or an operation in parentheses) reads back as that operand, consuming exactly its width; parentheses add no node |
| Layout.ParenthesisedAlone | analizador_sintactico.py:131-133 | `( expression )` is one operand, with the inner tree unchanged |
| Layout.ProductResumes | analizador_sintactico.py:123-128 | a product laid out with the fewest parentheses is read by the product rule up to its last token, with exactly that product read so far |
| Layout.ProductOperandResumes | analizador_sintactico.py:123-128 | a single operand is a product: the product rule reads it, then resumes its tail |
| Layout.ProductOperationResumes | analizador_sintactico.py:59-62 | `l * r` and `l / r`: the left product, then the operator and one more operand, grouped to the left |
| Layout.ProductExtends | analizador_sintactico.py:123-128 | the product read so far, `*` or `/` and one more operand make the next product the tail goes on with |
| Layout.ProductParses | analizador_sintactico.py:123-128 | a product's layout followed by no `*` or `/` reads back as exactly that product |
| Layout.SumResumes | analizador_sintactico.py:123-133 | a sum laid out with the fewest parentheses, followed by no `*` or `/`, is read by the expression rule up to its last token, with exactly that sum read so far |
| Layout.SumProductResumes | analizador_sintactico.py:123-133 | a single product is a sum: the expression rule reads it, then resumes its tail |
| Layout.SumOperationResumes | analizador_sintactico.py:59-62 | `l + r` and `l - r`: the left sum, then the operator and one more product, grouped to the left |
| Layout.SumExtends | analizador_sintactico.py:123-133 | the sum read so far, `+` or `-` and one more product make the next sum the tail goes on with |
| Layout.SumStep | analizador_sintactico.py:130-133 | once the next term is read, the sum tail goes on with the sum read so far, the operator and that term, grouped to the left |
| Layout.ExprParses | analizador_sintactico.py:123-156 | every printable expression, laid out with the fewest parentheses its precedence needs and followed by no operator, reads back as exactly that expression |
| Layout.ProductRightOfSum | analizador_sintactico.py:59-62 | `a + b * c` reads as `a + (b * c)`: products bind tighter |
| Layout.ProductLeftOfSum | analizador_sintactico.py:59-62 | `a * b + c` reads as `(a * b) + c` |
| Layout.SumsGroupLeft | analizador_sintactico.py:59-62 | `a - b + c` reads as `(a - b) + c`: sums group to the left |
| Layout.ProductsGroupLeft | analizador_sintactico.py:59-62 | `a / b * c` reads as `(a / b) * c`: products group to the left |
| Layout.DeclarationParses | analizador_sintactico.py:94-96 | `ID TIPO ;` reads as VarDecl(name, type) and ends after the `;` |
| Layout.ReadAlone | analizador_sintactico.py:108-110 | the read form, with either function name, gives Assign(name, Captura(type)) |
| Layout.ReadParses | analizador_sintactico.py:108-110 | `ID = FUNCION . TIPO ( ) ;` reads back as the input read, whichever function name is written |
| Layout.ExprStart | analizador_sintactico.py:123-156 | no expression starts with a function name, so the read form and assignments do not overlap |
| Layout.AssignmentAlone | analizador_sintactico.py:101-103 | `ID =`, an expression and `;` give Assign(name, expression) |
| Layout.AssignmentParses | analizador_sintactico.py:101-103 | `ID = expression ;` reads back as the assignment |
| Layout.MessageAlone | analizador_sintactico.py:115-118 | the write form gives Mensaje of the literal without its quotes |
| Layout.MessageParses | analizador_sintactico.py:115-118 | `FUNCION . TIPO ( CADENA ) ;` reads back as the message, whichever names are written |
| Layout.StatementParses | analizador_sintactico.py:84-89 | every statement form, with its `;`, reads back as its statement |
| Layout.StatementsStep | analizador_sintactico.py:74-81 | after one statement the list continues from the next token, with the statement appended |
| Layout.StatementsCons | analizador_sintactico.py:74-81 | a statement then the rest of the list reads back as the whole list |
| Layout.FirstStatement | analizador_sintactico.py:74-81 | the first of the laid-out statements reads back, and the rest are laid out after it |
| Layout.StatementsParse | analizador_sintactico.py:74-81 | laid-out statements read back as the list, in source order, after those read before |
| Layout.ProgramIsStatements | analizador_sintactico.py:69-71 | a program is its statement list |
| Layout.ParseLaidOut | analizador_sintactico.py:69-81 | any tokens that lay out a program parse back to exactly that program |
| Semantic.Promoted | analizador_semantico.py:71 | arithmetic on numeric types is Real iff either operand is Real |
| Semantic.TypeOf | analizador_semantico.py:55-88 | an expression gets no type exactly when a defect was recorded, and then has no value |
| Semantic.CheckStmt | analizador_semantico.py:30-53 | one statement only appends defects; a declaration adds its name to the table, nothing else adds names; declared types never change |
| Semantic.CheckAll | analizador_semantico.py:26-28 | checking statements in order never removes a name from the table and never changes a declared type |
| Semantic.SemanticAnalyzer.constructor | analizador_semantico.py:4-6 | the table and the defect list start empty |
| Semantic.SemanticAnalyzer.Analyze | analizador_semantico.py:8-14 | the state after visiting is `CheckAll`; analysis fails iff a defect was recorded, reporting them all in order |
| Semantic.SemanticAnalyzer.VisitProgram | analizador_semantico.py:26-28 | statements are visited in order, the state after each being `CheckAll` of the prefix |
| Semantic.SemanticAnalyzer.VisitStmt | analizador_semantico.py:16-19 | each statement is dispatched to its visitor (messages do nothing) |
| Semantic.SemanticAnalyzer.VisitVarDecl | analizador_semantico.py:30-36 | a known name is one defect and keeps its entry; a new one is entered with its type and no value |
| Semantic.SemanticAnalyzer.VisitAssign | analizador_semantico.py:38-53 | an undeclared target is one defect and its right side is not visited; otherwise the value is stored iff the types are compatible |
| Semantic.SemanticAnalyzer.VisitExpr | analizador_semantico.py:55-78 | returns `TypeOf`'s value and type, appends its defects, and does not change the table |
| Semantic.SemanticAnalyzer.VisitVarRef | analizador_semantico.py:80-88 | an unknown name is one defect with no type; a known one gives its stored value and declared type |
| Semantic.SemanticAnalyzer.VisitBinaryOp | analizador_semantico.py:61-72 | left then right are visited; a non-numeric side is one more defect and no type; otherwise `(l op r)` with the promoted type |
| Semantic.TypeOfBinaryOp | analizador_semantico.py:61-72 | the typing of an operation in terms of its operands' typings |
| SemanticFacts.CompatibleClasses | analizador_semantico.py:90-95 | compatibility holds iff the types are equal or both numeric; it is reflexive, symmetric, transitive, and never holds for "no type" |
| SemanticFacts.TableAfterCheck | analizador_semantico.py:26-36 | after the pass the table holds exactly the old names plus the declared ones; a new name has its first declaration's type |
| SemanticFacts.ErrorsOnlyGrow | analizador_semantico.py:21-88 | defects are only ever appended |
| SemanticFacts.CheckAllAppend | analizador_semantico.py:26-28 | checking a concatenation is checking one list after the other |
| SemanticFacts.TypingReportsNoDuplicate | analizador_semantico.py:55-88 | typing an expression never reports a duplicate declaration |
| SemanticFacts.StmtDuplicates | analizador_semantico.py:30-36 | a statement adds a duplicate-declaration defect iff it declares a name already in the table |
| SemanticFacts.DuplicatesCounted | analizador_semantico.py:30-36 | every declaration of a name after its first adds exactly one duplicate defect |
| SemanticFacts.UndeclaredTargetReported | analizador_semantico.py:38-43 | an assignment to a name not declared before it is reported |
| SemanticFacts.CleanTypingReadsKnownNames | analizador_semantico.py:80-88 | an expression typed without defects reads only names in the table |
| SemanticFacts.DeclaredBeforeUse | analizador_semantico.py:26-53 | in an accepted program every assigned or read name is declared by an earlier statement |
| SemanticFacts.CleanUpTo | analizador_semantico.py:26-28 | in an accepted program every prefix and every statement after it are defect-free |
| SemanticFacts.Promotion | analizador_semantico.py:61-72 | defect-free arithmetic has only numeric operands and is Real iff some operand is Real, else Entero |
| SemanticFacts.AssignmentCompatibility | analizador_semantico.py:45-53 | text into a number is exactly one defect and leaves the table; a number into a number stores the value with no defect |
| SemanticFacts.UndeclaredTargetScenario | analizador_semantico.py:38-43 | `x Entero; y = x + 3;` has exactly one defect: `y` undeclared |
| SemanticFacts.DuplicateScenario | analizador_semantico.py:30-36 | `x Entero; x Real;` has one defect and `x` stays Entero |
| Interpreter.ToComma | interprete.py:126-131 | the result has no dot and the same length as the float's text |
| Interpreter.AsNumber | interprete.py:117-124 | comma text is read as a float after comma-to-dot (or fails when `float` refuses it); digit text becomes its integer; anything else is kept |
| Interpreter.FloatResult | interprete.py:70-72 | a float result is text with no dot in it: the dot of its spelling is turned into a comma |
| Interpreter.Apply | interprete.py:59-68 | an unknown operator fails with that operator; an integer divided by integer zero fails |
| Interpreter.ReadLine | interprete.py:101-106 | a read takes the first input line (logging a prompt only in GUI mode) and fails when none is left |
| Interpreter.Combine | interprete.py:51-74 | operator failures name the operator, and never report a variable or missing input |
| Interpreter.EvaluateBinaryOp | interprete.py:51-74 | left operand first, the right only if the left succeeds, the operator only if both do |
| Interpreter.Evaluate | interprete.py:45-112 | evaluation never shortens the log and never adds input |
| Interpreter.EvaluationFollows | interprete.py:45-112 | evaluation only appends prompts to the log and takes input from the front |
| Interpreter.OperationFollows | interprete.py:51-53 | an operation's effect on log and input is its left operand's followed by its right operand's |
| Interpreter.LeafValues | interprete.py:79-97 | literals give their own value; a variable gives its stored value, and fails iff it is missing or has no value |
| Interpreter.SilentWithoutGui | interprete.py:101-106 | outside GUI mode evaluation never writes to the log |
| Interpreter.NoReadNoEffect | interprete.py:45-112 | an expression with no read leaves the log and the input as they were |
| Interpreter.FailureCause | interprete.py:92-106 | a missing or empty variable failure names a variable the expression reads; running out of input needs a read |
| Interpreter.ExecLog | interprete.py:14-40 | a statement keeps the log it found and adds at least one entry, only prompts before its last |
| Interpreter.Exec | interprete.py:21-40 | every statement adds at least one log entry, failures included, and never adds input |
| Interpreter.ExecEffect | interprete.py:21-31 | a declaration empties its slot and logs it; an assignment logs `name = value` after the evaluation's own prompts and stores exactly the value `Evaluate` gives, or, when `Evaluate` fails, logs that failure and keeps the store; the input left is the evaluation's; a message is logged as is |
| Interpreter.ExecAll | interprete.py:17-19 | every statement adds to the log; declared names are in the store, and only declared or assigned names are |
| Interpreter.ExecAllStep | interprete.py:17-19 | one more statement extends the run of those before it |
| Interpreter.Interpreter.constructor | interprete.py:7-10 | the store and the log start empty |
| Interpreter.Interpreter.Log | interprete.py:160-161 | each call appends exactly one entry |
| Interpreter.Interpreter.Run | interprete.py:14-19 | the final state is `ExecAll` of the program's statements |
| Interpreter.Interpreter.RunStatement | interprete.py:21-40 | the state after one statement is `Exec`, failures caught and logged |
| Interpreter.Interpreter.Eval | interprete.py:45-112 | the result and the effect on log and input are those of `Evaluate` |
| Interpreter.Interpreter.ReadInput | interprete.py:101-106 | the first input line is taken, or the read fails when there is none |
| Interpreter.Interpreter.EvalBinaryOp | interprete.py:51-74 | the result and effect are those of `Evaluate` on the operation |
| InterpreterFacts.ExecAllAppend | interprete.py:17-19 | running a concatenation is running one list after the other |
| InterpreterFacts.FailureContained | interprete.py:14-40 | whatever the first statement does, failing included, the rest run from the state it leaves |
| InterpreterFacts.ExecOneEntry | interprete.py:21-31 | without the GUI a statement adds exactly one entry, and that entry describes it |
| InterpreterFacts.OneEntryPerStatement | interprete.py:14-40 | without the GUI the log gains one entry per statement, in statement order, failures included |
| InterpreterFacts.RedeclarationClears | interprete.py:21-23 | a declaration empties a slot that held a value |
| InterpreterFacts.CommaRoundTrip | interprete.py:121-131 | comma-to-dot then dot-to-comma restores dot-free text |
| InterpreterFacts.DotRoundTrip | interprete.py:121-131 | dot-to-comma then comma-to-dot restores comma-free text |
| InterpreterFacts.AsNumberOfDigits | interprete.py:122-123 | the spelling of a natural number converts back to that integer |
| InterpreterFacts.IntegerArithmetic | interprete.py:59-64 | integer `+ - *` expressions evaluate to the exact integer of a reference evaluator, with no effect on log or input |
| InterpreterFacts.DivisionIsFloat | interprete.py:65-72 | an integer quotient is float text with no dot in it, or a float failure |
| InterpreterFacts.InvalidOperatorFails | interprete.py:67-68 | an operator outside `+ - * /` always fails its expression |
| InterpreterFacts.InvalidOperatorContained | interprete.py:36-38 | such an assignment logs a failure, keeps the store, and later statements still run |
| InterpreterFacts.ExhaustedInputScenario | interprete.py:101-106 | a read with no input left logs a failure, and the following message is still logged |
| InterpreterFacts.GuiReadScenario | interprete.py:101-104 | in GUI mode a read logs a prompt, then stores the first input line |
| Pipeline.StatementFindsItsNames | interprete.py:92-94 | a statement whose names are all in the store logs no missing-variable failure |
| Pipeline.AcceptedPrefixFindsItsNames | analizador_semantico.py:80-88 | every prefix of an accepted program runs without a missing-variable failure |
| Pipeline.AcceptedProgramsFindTheirNames | analizador_semantico.py:80-88 | an accepted program never fails at run time for a missing variable |
| Pipeline.CopyOfDeclaredIsAccepted | analizador_semantico.py:80-88 | the analyzer accepts reading a declared name even when it has no value |
| Pipeline.AcceptedButUnassigned | interprete.py:95-96 | such an accepted program still fails at run time: the variable has no value |

## Left out

- The GUI (`interfaz_compilador.py`), message boxes, `print` and `gui.print_message`: the log is the sequence of entries, and GUI mode only decides whether a read logs a prompt.
- The lexing and parsing library machinery (`lex.lex()`, `yacc.yacc` and its tables): the lexer rules and the grammar are modelled directly. The LALR parser is modelled as recursive descent over the same grammar and precedence table.
- Floating point: `float()` and the `str()` of float results are an abstract parameter (`Interpreter.FloatLib`). Division by a float zero is whatever that parameter says. Only an integer divided by integer zero is failed in the model itself.
- Console and GUI input: input is a supplied sequence of lines. An empty sequence makes the read fail (`NoInput`), standing in for end of input on the console. The GUI's wait for a line that never comes is not modelled.
- The wording of error messages: errors are tagged kinds carrying the name, token, line or offset.
- `generic_visit` and the interpreter's "cannot run/evaluate node" branches: the typed syntax tree makes them unreachable.
- Non-ASCII digits: Python's `\d` and `isdigit` also accept other Unicode digits; the model uses ASCII digits only.
- The module-level lexical error lists and their clearing by the caller: the scanner object owns its diagnostics list. The line counter is kept across inputs, as the library does.
- The `Lexer.Token` type carries only what the parser relies on (digits without a comma, quotes around literals). That every emitted token is fully well formed is proved separately by `LexerFacts.ScanFromInput`.
- Parser.TypeNamed: its contract holds only for the three type names, the only TIPO texts the lexer produces.
- Layout.AtomParses: reads and negative integers cannot be written as a single token. The layout gives them stand-in tokens, and only printable trees are proved to read back.
- Layout.ProductRightOfSum: this lemma and the three other grouping lemmas cover single-token operands. Deeper operands are covered by `Layout.ExprParses`, but only for the layout with the fewest parentheses. A layout with redundant parentheses, such as `(a * b) + c`, is not proved to read back.
- Layout.OperatorAt: an operator token is required to have a kind of its precedence level, not the exact kind the lexer gives its text. The parser looks only at that level and at the text.
- ParserFacts.ProgramBlames: it shows that the error names a token of the input, not that it is the first token at which no program can continue.
- Lexical errors report the line counter minus one, as the code does.
