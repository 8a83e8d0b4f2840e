/**
 * Properties of the lexer rules and of the whole scan: where tokens and
 * diagnostics come from, which rule wins where two could apply, and how the
 * line counter follows the newlines.
 */
module LexerFacts {
  import opened Wrappers
  import opened Numerals
  import opened Lexer

  /** The number of line breaks in a text. */
  function LineBreaks(t: string): (n: nat)
    ensures n <= |t|
  {
    if t == [] then 0 else LineBreaks(t[..|t| - 1]) + (if t[|t| - 1] == '\n' then 1 else 0)
  }

  /** Newlines from `i` on: those before `j` and those from `j` on. */
  lemma LineBreaksRest(s: string, i: nat, j: nat)
    requires i <= j <= |s|
    ensures LineBreaks(s[i..]) == LineBreaks(s[i..j]) + LineBreaks(s[j..])
  {
    assert s[i..] == s[i..j] + s[j..];
    LineBreaksAppend(s[i..j], s[j..]);
  }

  lemma {:induction false} LineBreaksAppend(a: string, b: string)
    ensures LineBreaks(a + b) == LineBreaks(a) + LineBreaks(b)
    decreases |b|
  {
    if b != [] {
      assert (a + b)[..|a + b| - 1] == a + b[..|b| - 1];
      LineBreaksAppend(a, b[..|b| - 1]);
    } else {
      assert a + b == a;
    }
  }

  lemma {:induction false} LineBreaksAll(t: string)
    requires forall k :: 0 <= k < |t| ==> t[k] == '\n'
    ensures LineBreaks(t) == |t|
    decreases |t|
  {
    if t != [] {
      LineBreaksAll(t[..|t| - 1]);
    }
  }

  lemma {:induction false} LineBreaksNone(t: string)
    requires forall k :: 0 <= k < |t| ==> t[k] != '\n'
    ensures LineBreaks(t) == 0
    decreases |t|
  {
    if t != [] {
      LineBreaksNone(t[..|t| - 1]);
    }
  }

  lemma LineBreaksSplit(s: string, i: nat, j: nat, k: nat)
    requires i <= j <= k <= |s|
    ensures LineBreaks(s[i..k]) == LineBreaks(s[i..j]) + LineBreaks(s[j..k])
  {
    assert s[i..k] == s[i..j] + s[j..k];
    LineBreaksAppend(s[i..j], s[j..k]);
  }

  /** Only a string literal can hold a line break. */
  lemma WellFormedNoBreak(k: Kind, t: string)
    requires WellFormed(k, t) && k != CADENA
    ensures forall j :: 0 <= j < |t| ==> t[j] != '\n'
  {
    if k == REAL {
      var c :| 0 < c < |t| - 1 && t[c] == ',' && IsDigits(t[..c]) && IsDigits(t[c + 1..]);
      forall j | 0 <= j < |t|
        ensures t[j] != '\n'
      {
        if j < c {
          assert t[..c][j] == t[j];
        } else if j > c {
          assert t[c + 1..][j - c - 1] == t[j];
        }
      }
    } else if k == TIPO || k == FUNCION {
      assert t == "Entero" || t == "Real" || t == "Texto" || t == "Captura" || t == "Mensaje";
    }
  }

  /** A character is illegal exactly when no rule can start at it. */
  lemma IllegalExactly(s: string, i: nat)
    requires i < |s|
    ensures RuleAt(s, i).Illegal? <==>
      s[i] !in IGNORE && s[i] != '\n' && !IsDigit(s[i]) && !IsIdStart(s[i]) && OperatorKind(s[i]).None?
      && (s[i] == '"' ==> forall k :: i < k < |s| ==> s[k] != '"')
  {
    if s[i] == '"' && QuoteAt(s, i + 1).Some? {
      assert s[QuoteAt(s, i + 1).value] == '"';
    }
  }

  /** A run of digits, a comma and more digits is one real literal, wherever it starts. */
  lemma RealBeatsInteger(s: string, i: nat, a: string, b: string, rest: string)
    requires i <= |s| && s[i..] == a + "," + b + rest
    requires IsDigits(a) && IsDigits(b) && (rest == [] || !IsDigit(rest[0]))
    ensures RuleAt(s, i) == Emit(REAL, |a| + 1 + |b|)
  {
    assert forall k :: 0 <= k < |a| ==> s[i + k] == a[k];
    assert s[i + |a|] == ',';
    assert forall k :: 0 <= k < |b| ==> s[i + |a| + 1 + k] == b[k];
    assert i + |a| + 1 + |b| < |s| ==> s[i + |a| + 1 + |b|] == rest[0];
    assert DigitRun(s, i) == |a|;
    assert DigitRun(s, i + |a| + 1) == |b|;
  }

  /** Digits not followed by a comma and a digit are one integer literal, wherever they start. */
  lemma IntegerAlone(s: string, i: nat, a: string, rest: string)
    requires i <= |s| && s[i..] == a + rest
    requires IsDigits(a) && (rest == [] || !IsDigit(rest[0]))
    requires !(|rest| >= 2 && rest[0] == ',' && IsDigit(rest[1]))
    ensures RuleAt(s, i) == Emit(ENTERO, |a|)
  {
    assert forall k :: 0 <= k < |a| ==> s[i + k] == a[k];
    assert i + |a| < |s| ==> s[i + |a|] == rest[0];
    assert i + |a| + 1 < |s| ==> s[i + |a| + 1] == rest[1];
    assert DigitRun(s, i) == |a|;
  }

  /**
   * The longest identifier is taken, and only then looked up among the
   * reserved words: "Entero" is a type name, "Enteros" an identifier.
   */
  lemma LongestWord(s: string, i: nat, w: string, rest: string)
    requires i <= |s| && s[i..] == w + rest
    requires IsIdentifier(w) && (rest == [] || !IsIdChar(rest[0]))
    ensures RuleAt(s, i) == Emit(Classify(w), |w|)
  {
    assert forall k :: 0 <= k < |w| ==> s[i + k] == w[k];
    assert i + |w| < |s| ==> s[i + |w|] == rest[0];
    assert IdRun(s, i) == |w|;
    assert s[i..i + |w|] == w;
  }

  /** The reserved table: three type names, two function names, everything else an identifier. */
  lemma ReservedWords(w: string)
    ensures Classify(w) == TIPO <==> w == "Entero" || w == "Real" || w == "Texto"
    ensures Classify(w) == FUNCION <==> w == "Captura" || w == "Mensaje"
    ensures Classify(w) == ID <==> w !in RESERVED
  {
  }

  /** A diagnostic names an illegal character of the input, at its offset. */
  ghost predicate Diagnosed(s: string, e: LexError)
  {
    e.pos < |s| && e.ch == s[e.pos] && RuleAt(s, e.pos).Illegal?
  }

  /** The text of a token is the input at the token's offset, and well formed for its kind. */
  predicate Sliced(s: string, t: Token)
  {
    t.pos + |t.text| <= |s| && t.text == s[t.pos..t.pos + |t.text|] && WellFormed(t.kind, t.text)
  }

  /** Tokens are slices of the input from `i` on, left to right, without overlap. */
  predicate TakenInOrder(s: string, i: nat, ts: seq<Token>)
  {
    (forall k :: 0 <= k < |ts| ==> i <= ts[k].pos && Sliced(s, ts[k]))
    && (forall k :: 0 < k < |ts| ==> ts[k - 1].pos + |ts[k - 1].text| <= ts[k].pos)
  }

  ghost predicate AllDiagnosed(s: string, i: nat, es: seq<LexError>)
  {
    forall k :: 0 <= k < |es| ==> i <= es[k].pos && Diagnosed(s, es[k])
  }

  lemma {:induction false} NextTokenFromInput(s: string, i: nat, line: int)
    requires i <= |s|
    ensures var n := NextToken(s, i, line);
      n.token.Some? ==> i <= n.token.value.pos && n.token.value.pos + |n.token.value.text| == n.pos
                        && Sliced(s, n.token.value)
    ensures var n := NextToken(s, i, line);
      forall k :: 0 <= k < |n.errors| ==> i <= n.errors[k].pos < n.pos && Diagnosed(s, n.errors[k])
    decreases |s| - i
  {
    if i < |s| {
      var m := Advance(s, i, line);
      if m.token.None? {
        NextTokenFromInput(s, m.pos, m.line);
      }
    }
  }

  /**
   * Over a whole scan, the tokens are slices of the input taken left to
   * right without overlap, each well formed for its kind, and every
   * diagnostic names an illegal character.
   */
  lemma {:induction false} ScanFromInput(s: string, i: nat, line: int)
    requires i <= |s|
    ensures TakenInOrder(s, i, ScanFrom(s, i, line).tokens)
    ensures AllDiagnosed(s, i, ScanFrom(s, i, line).errors)
    decreases |s| - i
  {
    var n := NextToken(s, i, line);
    NextTokenFromInput(s, i, line);
    if n.token.Some? {
      var rest := ScanFrom(s, n.pos, n.line);
      ScanFromInput(s, n.pos, n.line);
      var r := ScanFrom(s, i, line);
      assert r.tokens == [n.token.value] + rest.tokens;
      assert r.errors == n.errors + rest.errors;
      assert forall k :: 0 < k < |r.tokens| ==> r.tokens[k] == rest.tokens[k - 1];
      assert r.tokens[0] == n.token.value;
      forall k | 0 < k < |r.tokens|
        ensures r.tokens[k - 1].pos + |r.tokens[k - 1].text| <= r.tokens[k].pos
      {
        assert r.tokens[k] == rest.tokens[k - 1];
        assert n.pos <= rest.tokens[k - 1].pos;
        if k > 1 {
          assert r.tokens[k - 1] == rest.tokens[k - 2];
        }
      }
      assert forall k :: |n.errors| <= k < |r.errors| ==> r.errors[k] == rest.errors[k - |n.errors|];
    }
  }

  /** One step moves the line counter by the line breaks it passes over. */
  lemma AdvanceLines(s: string, i: nat, line: int)
    requires i < |s| && s[i] != '"'
    ensures var m := Advance(s, i, line);
            m.line == line + LineBreaks(s[i..m.pos])
  {
    var m := Advance(s, i, line);
    match RuleAt(s, i)
    case Newlines(n) =>
      LineBreaksAll(s[i..i + n]);
    case Emit(k, n) =>
      WellFormedNoBreak(k, s[i..i + n]);
      LineBreaksNone(s[i..i + n]);
    case _ =>
      LineBreaksNone(s[i..i + 1]);
  }

  /** Outside string literals every line break raises the line counter by one. */
  lemma {:induction false} NextTokenLines(s: string, i: nat, line: int)
    requires i <= |s|
    requires forall k :: i <= k < |s| ==> s[k] != '"'
    ensures var n := NextToken(s, i, line);
            n.line == line + LineBreaks(s[i..n.pos])
    decreases |s| - i
  {
    if i < |s| {
      var m := Advance(s, i, line);
      AdvanceLines(s, i, line);
      if m.token.None? {
        NextTokenLines(s, m.pos, m.line);
        LineBreaksSplit(s, i, m.pos, NextToken(s, m.pos, m.line).pos);
      }
    }
  }

  /**
   * For input without quotes, the final line counter is the starting one
   * plus the number of line breaks in the rest of the input.
   */
  lemma {:induction false} ScanLines(s: string, i: nat, line: int)
    requires i <= |s|
    requires forall k :: i <= k < |s| ==> s[k] != '"'
    ensures ScanFrom(s, i, line).line == line + LineBreaks(s[i..])
    decreases |s| - i
  {
    var n := NextToken(s, i, line);
    NextTokenLines(s, i, line);
    ScanFromStep(s, i, line);
    if n.token.Some? {
      ScanLines(s, n.pos, n.line);
      LineBreaksRest(s, i, n.pos);
    } else {
      assert s[i..n.pos] == s[i..];
    }
  }

  /** Diagnostic offsets strictly increase, so no character is reported twice. */
  predicate Increasing(es: seq<LexError>)
  {
    forall a, b :: 0 <= a < b < |es| ==> es[a].pos < es[b].pos
  }

  /** The offset `k` lies inside one of the tokens. */
  predicate InsideToken(ts: seq<Token>, k: nat)
  {
    exists j :: 0 <= j < |ts| && ts[j].pos <= k < ts[j].pos + |ts[j].text|
  }

  /** Some diagnostic names offset `k`. */
  predicate ReportedAt(es: seq<LexError>, k: nat)
  {
    exists j :: 0 <= j < |es| && es[j].pos == k
  }

  /** A newline is never illegal. */
  lemma NewlineLegal(s: string, k: nat)
    requires k < |s| && s[k] == '\n'
    ensures !RuleAt(s, k).Illegal?
  {
  }

  lemma ReportedAppend(a: seq<LexError>, b: seq<LexError>, k: nat)
    ensures ReportedAt(a, k) || ReportedAt(b, k) ==> ReportedAt(a + b, k)
  {
    if ReportedAt(b, k) {
      var j :| 0 <= j < |b| && b[j].pos == k;
      assert (a + b)[|a| + j] == b[j];
    } else if ReportedAt(a, k) {
      var j :| 0 <= j < |a| && a[j].pos == k;
      assert (a + b)[j] == a[j];
    }
  }

  lemma IncreasingAppend(a: seq<LexError>, b: seq<LexError>, p: nat)
    requires Increasing(a) && Increasing(b)
    requires forall x :: 0 <= x < |a| ==> a[x].pos < p
    requires forall y :: 0 <= y < |b| ==> p <= b[y].pos
    ensures Increasing(a + b)
  {
    var c := a + b;
    forall x, y | 0 <= x < y < |c|
      ensures c[x].pos < c[y].pos
    {
      if y < |a| {
        assert c[x] == a[x] && c[y] == a[y];
      } else if x < |a| {
        assert c[x] == a[x] && c[y] == b[y - |a|];
      } else {
        assert c[x] == b[x - |a|] && c[y] == b[y - |a|];
      }
    }
  }

  /** A request for a token reports illegal characters in increasing order of offset. */
  lemma {:induction false} NextTokenIncreasing(s: string, i: nat, line: int)
    requires i <= |s|
    ensures Increasing(NextToken(s, i, line).errors)
    decreases |s| - i
  {
    if i < |s| {
      var m := Advance(s, i, line);
      if m.token.None? {
        var r := NextToken(s, m.pos, m.line);
        NextTokenIncreasing(s, m.pos, m.line);
        NextTokenFromInput(s, m.pos, m.line);
        assert var es := NextToken(s, m.pos, m.line).errors; forall j :: 0 <= j < |es| ==> m.pos <= es[j].pos;
        IncreasingAppend(Recorded(m), r.errors, m.pos);
      }
    }
  }

  /**
   * A request for a token reports every illegal character it passes before
   * the token it returns.
   */
  lemma {:induction false} NextTokenReports(s: string, i: nat, line: int)
    requires i <= |s|
    ensures var n := NextToken(s, i, line);
      forall k :: i <= k < n.pos && RuleAt(s, k).Illegal? && !(n.token.Some? && n.token.value.pos <= k) ==>
        ReportedAt(n.errors, k)
    decreases |s| - i
  {
    if i < |s| {
      var m := Advance(s, i, line);
      if m.token.None? {
        var r := NextToken(s, m.pos, m.line);
        var n := NextToken(s, i, line);
        NextTokenReports(s, m.pos, m.line);
        assert n == r.(errors := Recorded(m) + r.errors);
        forall k | i <= k < n.pos && RuleAt(s, k).Illegal? && !(n.token.Some? && n.token.value.pos <= k)
          ensures ReportedAt(n.errors, k)
        {
          if k == i {
            assert Recorded(m)[0].pos == k;
          } else if k < m.pos {
            NewlineLegal(s, k);
          }
          ReportedAppend(Recorded(m), r.errors, k);
        }
      }
    }
  }

  /** Outside string literals a diagnostic carries the line counter at its character, minus one. */
  lemma {:induction false} NextTokenErrorLines(s: string, i: nat, line: int)
    requires i <= |s|
    requires forall k :: i <= k < |s| ==> s[k] != '"'
    ensures var es := NextToken(s, i, line).errors;
      forall j :: 0 <= j < |es| ==> i <= es[j].pos <= |s| && es[j].line == line + LineBreaks(s[i..es[j].pos]) - 1
    decreases |s| - i
  {
    if i < |s| {
      var m := Advance(s, i, line);
      if m.token.None? {
        var r := NextToken(s, m.pos, m.line);
        var n := NextToken(s, i, line);
        NextTokenErrorLines(s, m.pos, m.line);
        assert var es := NextToken(s, m.pos, m.line).errors; forall j :: 0 <= j < |es| ==> m.pos <= es[j].pos;
        AdvanceLines(s, i, line);
        var d := |Recorded(m)|;
        assert n.errors == Recorded(m) + r.errors;
        forall j | 0 <= j < |n.errors|
          ensures i <= n.errors[j].pos <= |s| && n.errors[j].line == line + LineBreaks(s[i..n.errors[j].pos]) - 1
        {
          if j < d {
            assert n.errors[j] == m.error.value;
            assert s[i..i] == [];
          } else {
            assert n.errors[j] == r.errors[j - d];
            assert 0 <= j - d < |r.errors|;
            assert m.pos <= r.errors[j - d].pos;
            assert r.errors[j - d].pos <= |s|;
            LineBreaksSplit(s, i, m.pos, r.errors[j - d].pos);
          }
        }
      }
    }
  }

  /** Over a whole scan, diagnostics come in increasing order of offset. */
  lemma {:induction false} ScanIncreasing(s: string, i: nat, line: int)
    requires i <= |s|
    ensures Increasing(ScanFrom(s, i, line).errors)
    decreases |s| - i
  {
    var n := NextToken(s, i, line);
    NextTokenIncreasing(s, i, line);
    NextTokenFromInput(s, i, line);
    if n.token.Some? {
      var rest := ScanFrom(s, n.pos, n.line);
      ScanIncreasing(s, n.pos, n.line);
      ScanFromInput(s, n.pos, n.line);
      assert var es := ScanFrom(s, n.pos, n.line).errors; forall j :: 0 <= j < |es| ==> n.pos <= es[j].pos;
      IncreasingAppend(n.errors, rest.errors, n.pos);
    }
  }

  /** Over a whole scan, every illegal character that is not part of a token is reported. */
  lemma {:induction false} ScanReports(s: string, i: nat, line: int)
    requires i <= |s|
    ensures var r := ScanFrom(s, i, line);
      forall k :: i <= k < |s| && RuleAt(s, k).Illegal? && !InsideToken(r.tokens, k) ==> ReportedAt(r.errors, k)
    decreases |s| - i
  {
    var n := NextToken(s, i, line);
    var r := ScanFrom(s, i, line);
    NextTokenReports(s, i, line);
    NextTokenFromInput(s, i, line);
    if n.token.Some? {
      var rest := ScanFrom(s, n.pos, n.line);
      ScanReports(s, n.pos, n.line);
      assert r.tokens == [n.token.value] + rest.tokens && r.errors == n.errors + rest.errors;
      forall k | i <= k < |s| && RuleAt(s, k).Illegal? && !InsideToken(r.tokens, k)
        ensures ReportedAt(r.errors, k)
      {
        if k < n.pos {
          assert r.tokens[0] == n.token.value;
        } else {
          forall j | 0 <= j < |rest.tokens|
            ensures !(rest.tokens[j].pos <= k < rest.tokens[j].pos + |rest.tokens[j].text|)
          {
            assert r.tokens[j + 1] == rest.tokens[j];
          }
        }
        ReportedAppend(n.errors, rest.errors, k);
      }
    }
  }

  /** Outside string literals, every diagnostic of a scan carries the line counter at its character, minus one. */
  lemma {:induction false} ScanErrorLines(s: string, i: nat, line: int)
    requires i <= |s|
    requires forall k :: i <= k < |s| ==> s[k] != '"'
    ensures var r := ScanFrom(s, i, line);
      forall j :: 0 <= j < |r.errors| ==>
        i <= r.errors[j].pos <= |s| && r.errors[j].line == line + LineBreaks(s[i..r.errors[j].pos]) - 1
    decreases |s| - i
  {
    var n := NextToken(s, i, line);
    var r := ScanFrom(s, i, line);
    NextTokenErrorLines(s, i, line);
    ScanFromStep(s, i, line);
    if n.token.Some? {
      var rest := ScanFrom(s, n.pos, n.line);
      ScanErrorLines(s, n.pos, n.line);
      assert var es := ScanFrom(s, n.pos, n.line).errors; forall j :: 0 <= j < |es| ==> n.pos <= es[j].pos <= |s|;
      NextTokenLines(s, i, line);
      var d := |n.errors|;
      assert r.errors == n.errors + rest.errors;
      forall j | d <= j < |r.errors|
        ensures i <= r.errors[j].pos <= |s| && r.errors[j].line == line + LineBreaks(s[i..r.errors[j].pos]) - 1
      {
        assert r.errors[j] == rest.errors[j - d];
        LineBreaksSplit(s, i, n.pos, rest.errors[j - d].pos);
      }
    }
  }

  /**
   * The lexer's error handling, for input without string literals: every
   * illegal character that is not part of a token is reported exactly
   * once, with the line counter at that character minus one, its offset and
   * the character itself.
   */
  lemma IllegalReportedOnce(s: string, line: int)
    requires forall k :: 0 <= k < |s| ==> s[k] != '"'
    ensures var r := ScanFrom(s, 0, line);
      forall k :: 0 <= k < |s| && RuleAt(s, k).Illegal? && !InsideToken(r.tokens, k) ==>
        exists j :: 0 <= j < |r.errors| && r.errors[j] == LexError(line + LineBreaks(s[..k]) - 1, k, s[k])
          && forall j' :: 0 <= j' < |r.errors| && r.errors[j'].pos == k ==> j' == j
  {
    var r := ScanFrom(s, 0, line);
    ScanIncreasing(s, 0, line);
    ScanReports(s, 0, line);
    ScanErrorLines(s, 0, line);
    ScanFromInput(s, 0, line);
    forall k | 0 <= k < |s| && RuleAt(s, k).Illegal? && !InsideToken(r.tokens, k)
      ensures exists j :: 0 <= j < |r.errors| && r.errors[j] == LexError(line + LineBreaks(s[..k]) - 1, k, s[k])
                && forall j' :: 0 <= j' < |r.errors| && r.errors[j'].pos == k ==> j' == j
    {
      var j :| 0 <= j < |r.errors| && r.errors[j].pos == k;
      assert s[0..k] == s[..k];
      assert r.errors[j] == LexError(line + LineBreaks(s[..k]) - 1, k, s[k]);
    }
  }
}
