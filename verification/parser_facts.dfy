/**
 * Properties of the parser read off its definition: how the fixed
 * statement forms are checked, what can start an expression, and how the
 * two precedence levels group operands.
 */
module ParserFacts {
  import opened Wrappers
  import opened Lexer
  import opened Ast
  import opened Parser

  /** The tokens from `i` on have the kinds `ks`, in order. */
  predicate KindsAt(toks: seq<Token>, i: nat, ks: seq<Kind>)
  {
    i + |ks| <= |toks| && forall k :: 0 <= k < |ks| ==> toks[i + k].kind == ks[k]
  }

  /** Tokens of the expected kinds pass the fixed-form check. */
  lemma {:induction false} ExpectPasses(toks: seq<Token>, i: nat, ks: seq<Kind>)
    requires i <= |toks| && KindsAt(toks, i, ks)
    ensures Expect(toks, i, ks) == Pass
    decreases |ks|
  {
    if ks != [] {
      assert toks[i + 0].kind == ks[0];
      assert forall k :: 0 <= k < |ks| - 1 ==> toks[i + 1 + k].kind == ks[1..][k] by {
        forall k | 0 <= k < |ks| - 1
          ensures toks[i + 1 + k].kind == ks[1..][k]
        {
          assert toks[i + (k + 1)].kind == ks[k + 1];
        }
      }
      ExpectPasses(toks, i + 1, ks[1..]);
    }
  }

  /** Only tokens of the expected kinds pass the fixed-form check. */
  lemma {:induction false} ExpectChecks(toks: seq<Token>, i: nat, ks: seq<Kind>)
    requires i <= |toks| && Expect(toks, i, ks) == Pass
    ensures KindsAt(toks, i, ks)
    decreases |ks|
  {
    if ks != [] {
      ExpectChecks(toks, i + 1, ks[1..]);
      forall k | 0 <= k < |ks|
        ensures toks[i + k].kind == ks[k]
      {
        if k > 0 {
          assert toks[i + 1 + (k - 1)].kind == ks[1..][k - 1];
        }
      }
    }
  }

  /** The fixed-form check passes exactly when the tokens from `i` on have the kinds `ks`. */
  lemma ExpectExactly(toks: seq<Token>, i: nat, ks: seq<Kind>)
    requires i <= |toks|
    ensures Expect(toks, i, ks) == Pass <==> KindsAt(toks, i, ks)
  {
    if Expect(toks, i, ks) == Pass {
      ExpectChecks(toks, i, ks);
    } else if KindsAt(toks, i, ks) {
      ExpectPasses(toks, i, ks);
    }
  }

  /** A term is its first operand followed by the product tail. */
  lemma TermFirst(toks: seq<Token>, i: nat, f: Expr, j: nat)
    requires i <= |toks| && ParseFactor(toks, i) == Ok(Parsed(f, j))
    ensures ParseTerm(toks, i) == TermTail(toks, f, j)
  {
  }

  /** The product tail takes one more `* operand` or `/ operand`, grouping to the left. */
  lemma TermTailStep(toks: seq<Token>, left: Expr, j: nat, r: Expr, end: nat)
    requires MultiplicativeAt(toks, j) && ParseFactor(toks, j + 1) == Ok(Parsed(r, end))
    ensures TermTail(toks, left, j) == TermTail(toks, BinaryOp(toks[j].text, left, r), end)
  {
  }

  /** The product tail stops at anything but `*` and `/`. */
  lemma TermTailStop(toks: seq<Token>, left: Expr, j: nat)
    requires j <= |toks| && !MultiplicativeAt(toks, j)
    ensures TermTail(toks, left, j) == Ok(Parsed(left, j))
  {
  }

  /** An expression is its first term followed by the sum tail. */
  lemma ExprFirst(toks: seq<Token>, i: nat, t: Expr, j: nat)
    requires i <= |toks| && ParseTerm(toks, i) == Ok(Parsed(t, j))
    ensures ParseExpr(toks, i) == ExprTail(toks, t, j)
  {
  }

  /** The sum tail takes one more `+ term` or `- term`, grouping to the left. */
  lemma ExprTailStep(toks: seq<Token>, left: Expr, j: nat, r: Expr, end: nat)
    requires AdditiveAt(toks, j) && ParseTerm(toks, j + 1) == Ok(Parsed(r, end))
    ensures ExprTail(toks, left, j) == ExprTail(toks, BinaryOp(toks[j].text, left, r), end)
  {
  }

  /** The sum tail stops at anything but `+` and `-`. */
  lemma ExprTailStop(toks: seq<Token>, left: Expr, j: nat)
    requires j <= |toks| && !AdditiveAt(toks, j)
    ensures ExprTail(toks, left, j) == Ok(Parsed(left, j))
  {
  }

  /** An error that names a token names one of the input from `i` on. */
  predicate Blames(toks: seq<Token>, i: nat, e: ParseError)
  {
    e.Unexpected? ==> exists k :: i <= k < |toks| && toks[k] == e.token
  }

  /** The token at `k`, from `i` on, is one the input holds. */
  lemma BlamesToken(toks: seq<Token>, i: nat, k: nat)
    requires i <= k < |toks|
    ensures Blames(toks, i, Unexpected(toks[k]))
  {
  }

  lemma {:induction false} FactorBlames(toks: seq<Token>, i: nat)
    requires i <= |toks|
    ensures ParseFactor(toks, i).Err? ==> Blames(toks, i, ParseFactor(toks, i).error)
    decreases |toks| - i, 0
  {
    if i < |toks| && toks[i].kind == PAREN_A {
      ExprBlames(toks, i + 1);
      var r := ParseExpr(toks, i + 1);
      if r.Ok? && r.value.next < |toks| {
        BlamesToken(toks, i, r.value.next);
      }
    } else if i < |toks| {
      BlamesToken(toks, i, i);
    }
  }

  lemma {:induction false} TermBlames(toks: seq<Token>, i: nat)
    requires i <= |toks|
    ensures ParseTerm(toks, i).Err? ==> Blames(toks, i, ParseTerm(toks, i).error)
    decreases |toks| - i, 1
  {
    FactorBlames(toks, i);
    var f := ParseFactor(toks, i);
    if f.Ok? {
      TermTailBlames(toks, f.value.node, f.value.next);
    }
  }

  lemma {:induction false} TermTailBlames(toks: seq<Token>, left: Expr, i: nat)
    requires i <= |toks|
    ensures TermTail(toks, left, i).Err? ==> Blames(toks, i, TermTail(toks, left, i).error)
    decreases |toks| - i, 0
  {
    if MultiplicativeAt(toks, i) {
      FactorBlames(toks, i + 1);
      var f := ParseFactor(toks, i + 1);
      if f.Ok? {
        TermTailBlames(toks, BinaryOp(toks[i].text, left, f.value.node), f.value.next);
      }
    }
  }

  lemma {:induction false} ExprBlames(toks: seq<Token>, i: nat)
    requires i <= |toks|
    ensures ParseExpr(toks, i).Err? ==> Blames(toks, i, ParseExpr(toks, i).error)
    decreases |toks| - i, 2
  {
    TermBlames(toks, i);
    var t := ParseTerm(toks, i);
    if t.Ok? {
      ExprTailBlames(toks, t.value.node, t.value.next);
    }
  }

  lemma {:induction false} ExprTailBlames(toks: seq<Token>, left: Expr, i: nat)
    requires i <= |toks|
    ensures ExprTail(toks, left, i).Err? ==> Blames(toks, i, ExprTail(toks, left, i).error)
    decreases |toks| - i, 0
  {
    if AdditiveAt(toks, i) {
      TermBlames(toks, i + 1);
      var t := ParseTerm(toks, i + 1);
      if t.Ok? {
        ExprTailBlames(toks, BinaryOp(toks[i].text, left, t.value.node), t.value.next);
      }
    }
  }

  lemma {:induction false} ExpectBlames(toks: seq<Token>, i: nat, ks: seq<Kind>)
    requires i <= |toks|
    ensures Expect(toks, i, ks).Fail? ==> Blames(toks, i, Expect(toks, i, ks).error)
    decreases |ks|
  {
    if ks != [] {
      if KindAt(toks, i, ks[0]) {
        ExpectBlames(toks, i + 1, ks[1..]);
      } else if i < |toks| {
        BlamesToken(toks, i, i);
      }
    }
  }

  lemma StatementBlames(toks: seq<Token>, i: nat)
    requires i <= |toks|
    ensures ParseStatement(toks, i).Err? ==> Blames(toks, i, ParseStatement(toks, i).error)
  {
    if KindAt(toks, i, ID) {
      if KindAt(toks, i + 1, TIPO) {
        ExpectBlames(toks, i + 2, [PUNTOYCOMA]);
      } else if KindAt(toks, i + 1, ASSIGN) {
        if KindAt(toks, i + 2, FUNCION) {
          ExpectBlames(toks, i + 2, READ_TAIL);
        } else {
          ExprBlames(toks, i + 2);
          var x := ParseExpr(toks, i + 2);
          if x.Ok? {
            ExpectBlames(toks, x.value.next, [PUNTOYCOMA]);
          }
        }
      } else if i + 1 < |toks| {
        BlamesToken(toks, i, i + 1);
      }
    } else if KindAt(toks, i, FUNCION) {
      ExpectBlames(toks, i, WRITE_FORM);
    } else if i < |toks| {
      BlamesToken(toks, i, i);
    }
  }

  lemma {:induction false} StatementsBlames(toks: seq<Token>, i: nat, acc: seq<Stmt>)
    requires i <= |toks|
    ensures ParseStatements(toks, i, acc).Err? ==> Blames(toks, i, ParseStatements(toks, i, acc).error)
    decreases |toks| - i
  {
    if i < |toks| {
      StatementBlames(toks, i);
      var s := ParseStatement(toks, i);
      if s.Ok? {
        StatementsBlames(toks, s.value.next, acc + [s.value.node]);
      }
    }
  }

  /**
   * A parse either gives the whole program or only an error, and the error
   * is the end of input or names a token of the input.
   */
  lemma ProgramBlames(toks: seq<Token>)
    ensures ParseProgram(toks).Err? ==> Blames(toks, 0, ParseProgram(toks).error)
  {
    if toks != [] {
      StatementBlames(toks, 0);
      var s := ParseStatement(toks, 0);
      if s.Ok? {
        StatementsBlames(toks, s.value.next, [s.value.node]);
      }
    }
  }
}
