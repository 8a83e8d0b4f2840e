/**
 * The lexer: token kinds, the reserved-word table, the rules tried at each
 * position in their fixed priority, and the scanner object that walks the
 * input one position at a time, recording illegal characters and counting
 * newlines.
 */
module Lexer {
  import opened Wrappers
  import opened Numerals

  /** The fifteen token kinds, named as the grammar names them. */
  datatype Kind =
    | CADENA | REAL | ENTERO | TIPO | FUNCION | ID
    | PLUS | MINUS | TIMES | DIVIDE | ASSIGN | PUNTO | PAREN_A | PAREN_C | PUNTOYCOMA

  /** Reserved words: type names and function names. */
  const RESERVED: map<string, Kind> :=
    map["Entero" := TIPO, "Real" := TIPO, "Texto" := TIPO, "Captura" := FUNCION, "Mensaje" := FUNCION]

  /** Characters skipped without producing anything. */
  const IGNORE: string := " \t"

  predicate IsIdStart(c: char)
  {
    'A' <= c <= 'Z' || 'a' <= c <= 'z' || c == '_'
  }

  predicate IsIdChar(c: char)
  {
    IsIdStart(c) || IsDigit(c)
  }

  predicate IsIdentifier(w: string)
  {
    |w| > 0 && IsIdStart(w[0]) && forall k :: 1 <= k < |w| ==> IsIdChar(w[k])
  }

  /** The single-character rules. */
  function OperatorKind(c: char): Option<Kind>
  {
    match c
    case '+' => Some(PLUS)
    case '-' => Some(MINUS)
    case '*' => Some(TIMES)
    case '/' => Some(DIVIDE)
    case '=' => Some(ASSIGN)
    case '.' => Some(PUNTO)
    case '(' => Some(PAREN_A)
    case ')' => Some(PAREN_C)
    case ';' => Some(PUNTOYCOMA)
    case _ => None
  }

  /** An identifier keeps kind ID unless the reserved table reclassifies it. */
  function Classify(word: string): Kind
  {
    if word in RESERVED then RESERVED[word] else ID
  }

  /** A string literal: a quote, any run of non-quote characters, a quote. */
  predicate IsStringLiteral(t: string)
  {
    |t| >= 2 && t[0] == '"' && t[|t| - 1] == '"' && forall k :: 0 < k < |t| - 1 ==> t[k] != '"'
  }

  /** A real literal: digits, one comma, digits. */
  predicate IsRealLiteral(t: string)
  {
    exists c :: 0 < c < |t| - 1 && t[c] == ',' && IsDigits(t[..c]) && IsDigits(t[c + 1..])
  }

  /** The texts that each kind of token can carry. */
  predicate WellFormed(k: Kind, t: string)
  {
    match k
    case CADENA => IsStringLiteral(t)
    case REAL => IsRealLiteral(t)
    case ENTERO => IsDigits(t)
    case TIPO => t in RESERVED && RESERVED[t] == TIPO
    case FUNCION => t in RESERVED && RESERVED[t] == FUNCION
    case ID => IsIdentifier(t) && t !in RESERVED
    case _ => |t| == 1 && OperatorKind(t[0]) == Some(k)
  }

  /**
   * What the parser relies on in a token's text: a number without a comma
   * is all digits, and a string literal keeps its two quotes.
   */
  predicate Readable(k: Kind, t: string)
  {
    ((k == ENTERO || k == REAL) && ',' !in t ==> IsDigits(t))
    && (k == CADENA ==> |t| >= 2 && t[0] == '"' && t[|t| - 1] == '"')
  }

  lemma WellFormedReadable(k: Kind, t: string)
    requires WellFormed(k, t)
    ensures Readable(k, t)
  {
    if k == REAL {
      var c :| 0 < c < |t| - 1 && t[c] == ',' && IsDigits(t[..c]) && IsDigits(t[c + 1..]);
      assert ',' in t;
    }
  }

  /** A token: its kind, its text, the line counter when it was made, and its offset. */
  datatype Lexeme = Lexeme(kind: Kind, text: string, line: int, pos: nat)

  /**
   * Tokens as the parser sees them. The lexer makes only tokens whose text
   * is well formed for their kind (`Advance`), which is more than this.
   */
  type Token = t: Lexeme | Readable(t.kind, t.text) witness Lexeme(PLUS, "+", 1, 0)

  /** A lexical diagnostic: the line counter minus one, the offset, and the character. */
  datatype LexError = LexError(line: int, pos: nat, ch: char)

  /** Length of the longest run of digits starting at `i`. */
  function DigitRun(s: string, i: nat): (n: nat)
    requires i <= |s|
    ensures i + n <= |s|
    ensures forall k :: i <= k < i + n ==> IsDigit(s[k])
    ensures i + n < |s| ==> !IsDigit(s[i + n])
    decreases |s| - i
  {
    if i < |s| && IsDigit(s[i]) then 1 + DigitRun(s, i + 1) else 0
  }

  /** Length of the longest run of identifier characters starting at `i`. */
  function IdRun(s: string, i: nat): (n: nat)
    requires i <= |s|
    ensures i + n <= |s|
    ensures forall k :: i <= k < i + n ==> IsIdChar(s[k])
    ensures i + n < |s| ==> !IsIdChar(s[i + n])
    decreases |s| - i
  {
    if i < |s| && IsIdChar(s[i]) then 1 + IdRun(s, i + 1) else 0
  }

  /** Length of the longest run of newlines starting at `i`. */
  function NewlineRun(s: string, i: nat): (n: nat)
    requires i <= |s|
    ensures i + n <= |s|
    ensures forall k :: i <= k < i + n ==> s[k] == '\n'
    ensures i + n < |s| ==> s[i + n] != '\n'
    decreases |s| - i
  {
    if i < |s| && s[i] == '\n' then 1 + NewlineRun(s, i + 1) else 0
  }

  /** Offset of the first quote at or after `j`, if any. */
  function QuoteAt(s: string, j: nat): (r: Option<nat>)
    requires j <= |s|
    ensures r.Some? ==> j <= r.value < |s| && s[r.value] == '"'
    ensures r.Some? ==> forall k :: j <= k < r.value ==> s[k] != '"'
    ensures r.None? ==> forall k :: j <= k < |s| ==> s[k] != '"'
    decreases |s| - j
  {
    if j == |s| then None
    else if s[j] == '"' then Some(j)
    else QuoteAt(s, j + 1)
  }

  /** What the rules do at one position. */
  datatype Step = Emit(kind: Kind, len: nat) | Skip | Newlines(count: nat) | Illegal

  lemma RealLiteralAt(s: string, i: nat, d: nat, e: nat)
    requires i + d + 1 + e <= |s| && d > 0 && e > 0
    requires forall k :: i <= k < i + d ==> IsDigit(s[k])
    requires s[i + d] == ','
    requires forall k :: i + d + 1 <= k < i + d + 1 + e ==> IsDigit(s[k])
    ensures IsRealLiteral(s[i..i + d + 1 + e])
  {
    var t := s[i..i + d + 1 + e];
    assert t[d] == ',' && t[..d] == s[i..i + d] && t[d + 1..] == s[i + d + 1..i + d + 1 + e];
  }

  /** An identifier-shaped word is well formed for the kind it is classified as. */
  lemma ClassifiedWellFormed(w: string)
    requires IsIdentifier(w)
    ensures WellFormed(Classify(w), w)
  {
  }

  /** A single operator character is well formed for its kind. */
  lemma OperatorWellFormed(t: string)
    requires |t| == 1 && OperatorKind(t[0]).Some?
    ensures WellFormed(OperatorKind(t[0]).value, t)
  {
  }

  /**
   * The rules in their priority order: blanks, string literal, real, integer,
   * identifier or reserved word, newline run, single-character operators.
   */
  function RuleAt(s: string, i: nat): (r: Step)
    requires i < |s|
    ensures r.Emit? ==> 0 < r.len && i + r.len <= |s| && WellFormed(r.kind, s[i..i + r.len])
    ensures r.Newlines? ==> 0 < r.count && i + r.count <= |s|
    ensures r.Newlines? ==> forall k :: i <= k < i + r.count ==> s[k] == '\n'
    ensures r.Skip? <==> s[i] in IGNORE
  {
    var c := s[i];
    if c in IGNORE then Skip
    else if c == '"' && QuoteAt(s, i + 1).Some? then StringRule(s, i)
    else if IsDigit(c) then NumberRule(s, i)
    else if IsIdStart(c) then WordRule(s, i)
    else if c == '\n' then Newlines(NewlineRun(s, i))
    else if OperatorKind(c).Some? then
      OperatorWellFormed(s[i..i + 1]);
      Emit(OperatorKind(c).value, 1)
    else
      Illegal
  }

  /** A string literal runs to the next quote. */
  function StringRule(s: string, i: nat): (r: Step)
    requires i < |s| && s[i] == '"' && QuoteAt(s, i + 1).Some?
    ensures r.Emit? && r.kind == CADENA && 0 < r.len && i + r.len <= |s|
    ensures IsStringLiteral(s[i..i + r.len])
  {
    var q := QuoteAt(s, i + 1).value;
    assert IsStringLiteral(s[i..q + 1]);
    Emit(CADENA, q + 1 - i)
  }

  /** Digits, then a comma and digits make a real; digits alone an integer. */
  function NumberRule(s: string, i: nat): (r: Step)
    requires i < |s| && IsDigit(s[i])
    ensures r.Emit? && (r.kind == REAL || r.kind == ENTERO) && 0 < r.len && i + r.len <= |s|
    ensures r.kind == REAL ==> IsRealLiteral(s[i..i + r.len])
    ensures r.kind == ENTERO ==> IsDigits(s[i..i + r.len])
    ensures var d := DigitRun(s, i);
            r.kind == REAL <==> i + d + 1 < |s| && s[i + d] == ',' && IsDigit(s[i + d + 1])
    ensures r.kind == ENTERO ==> r.len == DigitRun(s, i)
    ensures r.kind == REAL ==> s[i + DigitRun(s, i)] == ',' && r.len == DigitRun(s, i) + 1 + DigitRun(s, i + DigitRun(s, i) + 1)
    ensures i + r.len == |s| || !IsDigit(s[i + r.len])
  {
    var d := DigitRun(s, i);
    if i + d + 1 < |s| && s[i + d] == ',' && IsDigit(s[i + d + 1]) then
      var e := DigitRun(s, i + d + 1);
      RealLiteralAt(s, i, d, e);
      Emit(REAL, d + 1 + e)
    else
      Emit(ENTERO, d)
  }

  /** An identifier, classified through the reserved table. */
  function WordRule(s: string, i: nat): (r: Step)
    requires i < |s| && IsIdStart(s[i])
    ensures r.Emit? && 0 < r.len && i + r.len <= |s| && WellFormed(r.kind, s[i..i + r.len])
    ensures r.len == IdRun(s, i) && r.kind == Classify(s[i..i + r.len])
    ensures forall k :: i <= k < i + r.len ==> IsIdChar(s[k])
    ensures i + r.len == |s| || !IsIdChar(s[i + r.len])
  {
    var n := IdRun(s, i);
    ClassifiedWellFormed(s[i..i + n]);
    Emit(Classify(s[i..i + n]), n)
  }

  /** The effect of the rule applied at one position. */
  datatype Move = Move(pos: nat, line: int, error: Option<LexError>, token: Option<Token>)

  /**
   * Apply the rule at `i`: a blank is skipped, a newline run raises the line
   * counter by its length, an illegal character is recorded with the line
   * counter minus one and skipped alone, and a token is emitted.
   */
  function Advance(s: string, i: nat, line: int): (m: Move)
    requires i < |s|
    ensures i < m.pos <= |s|
    ensures m.error.Some? ==> m.token.None?
    ensures m.token.Some? ==> WellFormed(m.token.value.kind, m.token.value.text)
    ensures m.error.Some? <==> RuleAt(s, i).Illegal?
    ensures m.error.Some? ==> m.pos == i + 1 && m.line == line && m.error.value == LexError(line - 1, i, s[i])
    ensures m.token.Some? <==> RuleAt(s, i).Emit?
    ensures m.token.Some? ==> m.line == line && m.token.value == Lexeme(RuleAt(s, i).kind, s[i..m.pos], line, i)
    ensures RuleAt(s, i).Skip? ==> m.pos == i + 1 && m.line == line
    ensures RuleAt(s, i).Newlines? ==> m.pos == i + RuleAt(s, i).count && m.line == line + RuleAt(s, i).count
  {
    match RuleAt(s, i)
    case Skip => Move(i + 1, line, None, None)
    case Newlines(n) => Move(i + n, line + n, None, None)
    case Illegal => Move(i + 1, line, Some(LexError(line - 1, i, s[i])), None)
    case Emit(k, n) =>
      WellFormedReadable(k, s[i..i + n]);
      Move(i + n, line, None, Some(Lexeme(k, s[i..i + n], line, i)))
  }

  function Recorded(m: Move): seq<LexError>
  {
    if m.error.Some? then [m.error.value] else []
  }

  /** What one request for a token yields, and where the scanner is left. */
  datatype Next = Next(token: Option<Token>, pos: nat, line: int, errors: seq<LexError>)

  /**
   * One request for a token: apply the rules from `i` until one emits a
   * token or the input ends, collecting the diagnostics on the way.
   */
  function NextToken(s: string, i: nat, line: int): (r: Next)
    requires i <= |s|
    ensures i <= r.pos <= |s|
    ensures r.token.None? ==> r.pos == |s|
    ensures r.token.Some? ==> i < r.pos
    decreases |s| - i
  {
    if i == |s| then Next(None, i, line, [])
    else
      var m := Advance(s, i, line);
      if m.token.Some? then Next(m.token, m.pos, m.line, [])
      else
        var r := NextToken(s, m.pos, m.line);
        r.(errors := Recorded(m) + r.errors)
  }

  function After(found: seq<LexError>, n: Next): Next
  {
    n.(errors := found + n.errors)
  }

  lemma NextTokenStep(s: string, i: nat, line: int, found: seq<LexError>)
    requires i < |s|
    ensures var m := Advance(s, i, line);
            After(found, NextToken(s, i, line)) ==
              if m.token.Some? then Next(m.token, m.pos, m.line, found)
              else After(found + Recorded(m), NextToken(s, m.pos, m.line))
  {
    var m := Advance(s, i, line);
    if m.token.None? {
      var r := NextToken(s, m.pos, m.line);
      assert found + (Recorded(m) + r.errors) == (found + Recorded(m)) + r.errors;
    }
  }

  /** The whole token stream from offset `i`, the diagnostics, and the final line counter. */
  datatype Scan = Scan(tokens: seq<Token>, errors: seq<LexError>, line: int)

  function ScanFrom(s: string, i: nat, line: int): (r: Scan)
    requires i <= |s|
    ensures |r.tokens| <= |s| - i
    decreases |s| - i
  {
    var n := NextToken(s, i, line);
    if n.token.None? then Scan([], n.errors, n.line)
    else
      var rest := ScanFrom(s, n.pos, n.line);
      Scan([n.token.value] + rest.tokens, n.errors + rest.errors, rest.line)
  }

  /** Tokens and diagnostics found before `r`, put in front of it. */
  function Joined(ts: seq<Token>, found: seq<LexError>, r: Scan): Scan
  {
    Scan(ts + r.tokens, found + r.errors, r.line)
  }

  lemma ScanFromStep(s: string, i: nat, line: int)
    requires i <= |s|
    ensures var n := NextToken(s, i, line);
            ScanFrom(s, i, line) ==
              if n.token.None? then Scan([], n.errors, n.line)
              else Joined([n.token.value], n.errors, ScanFrom(s, n.pos, n.line))
  {
  }

  lemma JoinedTwice(ts: seq<Token>, found: seq<LexError>, t: Token, e: seq<LexError>, r: Scan)
    ensures Joined(ts, found, Joined([t], e, r)) == Joined(ts + [t], found + e, r)
  {
    assert ts + ([t] + r.tokens) == (ts + [t]) + r.tokens;
    assert found + (e + r.errors) == (found + e) + r.errors;
  }

  lemma AppendAssoc(a: seq<LexError>, b: seq<LexError>, c: seq<LexError>)
    ensures (a + b) + c == a + (b + c)
  {
  }

  /**
   * The scanner object: the input, the current offset, the line counter and
   * the diagnostics list it appends to.
   */
  class Lexer {
    var data: string
    var lexpos: nat
    var lineno: int
    var errors: seq<LexError>

    ghost predicate Valid()
      reads this
    {
      lexpos <= |data|
    }

    constructor ()
      ensures Valid() && data == [] && lexpos == 0 && lineno == 1 && errors == []
    {
      data, lexpos, lineno, errors := [], 0, 1, [];
    }

    /** New input restarts at offset 0; the line counter is kept, not reset. */
    method Input(s: string)
      modifies this
      ensures Valid() && data == s && lexpos == 0
      ensures lineno == old(lineno) && errors == old(errors)
    {
      data, lexpos := s, 0;
    }

    /** Produces the next token, or nothing at end of input. */
    method Token() returns (t: Option<Token>)
      requires Valid()
      modifies this
      ensures Valid() && data == old(data)
      ensures var n := NextToken(old(data), old(lexpos), old(lineno));
              t == n.token && lexpos == n.pos && lineno == n.line && errors == old(errors) + n.errors
    {
      var s, i, line, found: seq<LexError> := data, lexpos, lineno, [];
      ghost var n0 := NextToken(s, i, line);
      t := None;
      while i < |s| && t.None?
        invariant i <= |s| && data == s && errors == old(errors)
        invariant t.None? ==> n0 == After(found, NextToken(s, i, line))
        invariant t.Some? ==> n0 == Next(t, i, line, found)
        decreases |s| - i, if t.None? then 1 else 0
      {
        var m := Advance(s, i, line);
        NextTokenStep(s, i, line, found);
        found := found + Recorded(m);
        t, i, line := m.token, m.pos, m.line;
      }
      if t.None? {
        assert NextToken(s, i, line) == Next(None, i, line, []);
        assert found + [] == found;
      }
      lexpos, lineno, errors := i, line, errors + found;
    }

    /** Requests tokens until the end of input, collecting them in order. */
    method Tokens() returns (ts: seq<Token>)
      requires Valid()
      modifies this
      ensures Valid() && data == old(data) && lexpos == |data|
      ensures var r := ScanFrom(old(data), old(lexpos), old(lineno));
              ts == r.tokens && lineno == r.line && errors == old(errors) + r.errors
    {
      ts := [];
      ghost var r0 := ScanFrom(data, lexpos, lineno);
      ghost var found: seq<LexError> := [];
      var done := false;
      while !done
        invariant Valid() && data == old(data) && errors == old(errors) + found
        invariant done ==> lexpos == |data| && r0 == Scan(ts, found, lineno)
        invariant !done ==> r0 == Joined(ts, found, ScanFrom(data, lexpos, lineno))
        decreases |data| - lexpos, if done then 0 else 1
      {
        ghost var n := NextToken(data, lexpos, lineno);
        ScanFromStep(data, lexpos, lineno);
        var t := Token();
        AppendAssoc(old(errors), found, n.errors);
        if t.None? {
          found := found + n.errors;
          done := true;
        } else {
          JoinedTwice(ts, found, t.value, n.errors, ScanFrom(data, lexpos, lineno));
          ts, found := ts + [t.value], found + n.errors;
        }
      }
    }
  }
}
