/** Properties of the formula parser's specification functions. */
module ParserLaws {
  import opened Wrappers
  import opened Tokens
  import opened Ast
  import opened Numbers
  import opened Parser
  import opened Lexer
  import opened Strings

  /** t and u hold the same first m tokens. */
  predicate Agree(t: seq<FormulaToken>, u: seq<FormulaToken>, m: nat)
  {
    m <= |t| && m <= |u| && forall k :: 0 <= k < m ==> t[k] == u[k]
  }

  lemma {:induction false} ExprAgree(t: seq<FormulaToken>, u: seq<FormulaToken>, i: nat, nc: NumberCulture)
    requires i <= |t| && ExprAt(t, i, nc).Success?
    requires Agree(t, u, ExprAt(t, i, nc).value.1 + 1)
    ensures i <= |u| && ExprAt(u, i, nc) == ExprAt(t, i, nc)
    decreases |t| - i, 2
  {
    var Success((left, j)) := TermAt(t, i, nc);
    TermAgree(t, u, i, nc);
    ExprTailAgree(t, u, j, left, nc);
  }

  lemma {:induction false} ExprTailAgree(t: seq<FormulaToken>, u: seq<FormulaToken>, j: nat, left: Node, nc: NumberCulture)
    requires j <= |t| && ExprTail(t, j, left, nc).Success?
    requires Agree(t, u, ExprTail(t, j, left, nc).value.1 + 1)
    ensures j <= |u| && ExprTail(u, j, left, nc) == ExprTail(t, j, left, nc)
    decreases |t| - j, 3
  {
    assert t[j] == u[j];
    if IsAdditive(t[j]) {
      var Success((right, k)) := TermAt(t, j + 1, nc);
      TermAgree(t, u, j + 1, nc);
      ExprTailAgree(t, u, k, BinaryNode(t[j].Text, left, right), nc);
    }
  }

  lemma {:induction false} TermAgree(t: seq<FormulaToken>, u: seq<FormulaToken>, i: nat, nc: NumberCulture)
    requires i <= |t| && TermAt(t, i, nc).Success?
    requires Agree(t, u, TermAt(t, i, nc).value.1 + 1)
    ensures i <= |u| && TermAt(u, i, nc) == TermAt(t, i, nc)
    decreases |t| - i, 1
  {
    var Success((left, j)) := FactorAt(t, i, nc);
    FactorAgree(t, u, i, nc);
    TermTailAgree(t, u, j, left, nc);
  }

  lemma {:induction false} TermTailAgree(t: seq<FormulaToken>, u: seq<FormulaToken>, j: nat, left: Node, nc: NumberCulture)
    requires j <= |t| && TermTail(t, j, left, nc).Success?
    requires Agree(t, u, TermTail(t, j, left, nc).value.1 + 1)
    ensures j <= |u| && TermTail(u, j, left, nc) == TermTail(t, j, left, nc)
    decreases |t| - j, 3
  {
    assert t[j] == u[j];
    if IsMultiplicative(t[j]) {
      var Success((right, k)) := FactorAt(t, j + 1, nc);
      FactorAgree(t, u, j + 1, nc);
      TermTailAgree(t, u, k, BinaryNode(t[j].Text, left, right), nc);
    }
  }

  /** A factor that stops at j has read the tokens before j and, when there is one, the token at j. */
  lemma {:induction false} FactorAgree(t: seq<FormulaToken>, u: seq<FormulaToken>, i: nat, nc: NumberCulture)
    requires i <= |t| && FactorAt(t, i, nc).Success?
    requires Agree(t, u, FactorAt(t, i, nc).value.1)
    requires FactorAt(t, i, nc).value.1 < |t| ==> Agree(t, u, FactorAt(t, i, nc).value.1 + 1)
    ensures i <= |u| && FactorAt(u, i, nc) == FactorAt(t, i, nc)
    decreases |t| - i, 0
  {
    assert t[i] == u[i];
    match t[i].Type
    case Number =>
    case Cell =>
      assert t[i + 1] == u[i + 1];
      if t[i + 1].Type == Colon {
        assert t[i + 2] == u[i + 2];
      }
    case Function =>
      assert t[i + 1] == u[i + 1];
      var Success((a1, j)) := ExprAt(t, i + 2, nc);
      ExprAgree(t, u, i + 2, nc);
      assert t[j] == u[j];
      if t[j].Type == Comma {
        ExprAgree(t, u, j + 1, nc);
      }
    case LParen =>
      ExprAgree(t, u, i + 1, nc);
    case _ =>
  }

  /**
   * Tokens after the first complete expression (and the token it stopped at) are
   * never looked at: replacing them leaves the parse unchanged.
   */
  lemma TrailingTokensIgnored(t: seq<FormulaToken>, v: seq<FormulaToken>, nc: NumberCulture)
    requires ParseTokens(t, nc).Success?
    ensures ExprAt(t, 0, nc).value.1 < |t|
    ensures ParseTokens(t[..ExprAt(t, 0, nc).value.1 + 1] + v, nc) == ParseTokens(t, nc)
  {
    var j := ExprAt(t, 0, nc).value.1;
    var u := t[..j + 1] + v;
    assert forall k :: 0 <= k < j + 1 ==> t[k] == u[k];
    ExprAgree(t, u, 0, nc);
  }

  function CellTok(a: string): FormulaToken { FormulaToken(Cell, a) }
  function OpTok(o: string): FormulaToken { FormulaToken(Operator, o) }

  /** A Cell token followed by an operator is a factor of its own. */
  lemma CellFactor(t: seq<FormulaToken>, i: nat, nc: NumberCulture)
    requires i + 1 < |t| && t[i].Type == Cell && t[i + 1].Type == Operator
    ensures FactorAt(t, i, nc) == Success((CellNode(t[i].Text), i + 1))
  {
  }

  /** A Cell token followed by an additive operator or End is a whole term. */
  lemma CellTerm(t: seq<FormulaToken>, i: nat, nc: NumberCulture)
    requires i + 1 < |t| && t[i].Type == Cell && (IsAdditive(t[i + 1]) || t[i + 1] == EndToken)
    ensures TermAt(t, i, nc) == Success((CellNode(t[i].Text), i + 1))
  {
    assert FactorAt(t, i, nc) == Success((CellNode(t[i].Text), i + 1));
    assert TermTail(t, i + 1, CellNode(t[i].Text), nc) == Success((CellNode(t[i].Text), i + 1));
  }

  /** `a o1 b o2 c` with two additive operators groups as `(a o1 b) o2 c`. */
  lemma AdditiveLeftAssociative(a: string, b: string, c: string, o1: string, o2: string, nc: NumberCulture)
    requires o1 == "+" || o1 == "-"
    requires o2 == "+" || o2 == "-"
    ensures ParseTokens([CellTok(a), OpTok(o1), CellTok(b), OpTok(o2), CellTok(c), EndToken], nc)
         == Success(BinaryNode(o2, BinaryNode(o1, CellNode(a), CellNode(b)), CellNode(c)))
  {
    var t := [CellTok(a), OpTok(o1), CellTok(b), OpTok(o2), CellTok(c), EndToken];
    CellTerm(t, 0, nc);
    CellTerm(t, 2, nc);
    CellTerm(t, 4, nc);
    var m := BinaryNode(o1, CellNode(a), CellNode(b));
    var n := BinaryNode(o2, m, CellNode(c));
    assert ExprTail(t, 5, n, nc) == Success((n, 5));
    assert ExprTail(t, 3, m, nc) == Success((n, 5));
    assert ExprTail(t, 1, CellNode(a), nc) == Success((n, 5));
  }

  /** `a o1 b o2 c` with two multiplicative operators groups as `(a o1 b) o2 c`. */
  lemma MultiplicativeLeftAssociative(a: string, b: string, c: string, o1: string, o2: string, nc: NumberCulture)
    requires o1 == "*" || o1 == "/"
    requires o2 == "*" || o2 == "/"
    ensures ParseTokens([CellTok(a), OpTok(o1), CellTok(b), OpTok(o2), CellTok(c), EndToken], nc)
         == Success(BinaryNode(o2, BinaryNode(o1, CellNode(a), CellNode(b)), CellNode(c)))
  {
    var t := [CellTok(a), OpTok(o1), CellTok(b), OpTok(o2), CellTok(c), EndToken];
    CellFactor(t, 0, nc);
    CellFactor(t, 2, nc);
    assert FactorAt(t, 4, nc) == Success((CellNode(c), 5));
    var m := BinaryNode(o1, CellNode(a), CellNode(b));
    var n := BinaryNode(o2, m, CellNode(c));
    assert TermTail(t, 5, n, nc) == Success((n, 5));
    assert TermTail(t, 3, m, nc) == Success((n, 5));
    assert TermTail(t, 1, CellNode(a), nc) == Success((n, 5));
    assert TermAt(t, 0, nc) == Success((n, 5));
    assert ExprTail(t, 5, n, nc) == Success((n, 5));
  }

  /** `a + b * c`: the multiplicative operator binds tighter, on the right. */
  lemma MultiplicationBindsTighterRight(a: string, b: string, c: string, o1: string, o2: string, nc: NumberCulture)
    requires o1 == "+" || o1 == "-"
    requires o2 == "*" || o2 == "/"
    ensures ParseTokens([CellTok(a), OpTok(o1), CellTok(b), OpTok(o2), CellTok(c), EndToken], nc)
         == Success(BinaryNode(o1, CellNode(a), BinaryNode(o2, CellNode(b), CellNode(c))))
  {
    var t := [CellTok(a), OpTok(o1), CellTok(b), OpTok(o2), CellTok(c), EndToken];
    CellTerm(t, 0, nc);
    CellFactor(t, 2, nc);
    assert FactorAt(t, 4, nc) == Success((CellNode(c), 5));
    var m := BinaryNode(o2, CellNode(b), CellNode(c));
    var n := BinaryNode(o1, CellNode(a), m);
    assert TermTail(t, 5, m, nc) == Success((m, 5));
    assert TermTail(t, 3, CellNode(b), nc) == Success((m, 5));
    assert TermAt(t, 2, nc) == Success((m, 5));
    assert ExprTail(t, 5, n, nc) == Success((n, 5));
    assert ExprTail(t, 1, CellNode(a), nc) == Success((n, 5));
  }

  /** `a * b + c`: the multiplicative operator binds tighter, on the left. */
  lemma MultiplicationBindsTighterLeft(a: string, b: string, c: string, o1: string, o2: string, nc: NumberCulture)
    requires o1 == "*" || o1 == "/"
    requires o2 == "+" || o2 == "-"
    ensures ParseTokens([CellTok(a), OpTok(o1), CellTok(b), OpTok(o2), CellTok(c), EndToken], nc)
         == Success(BinaryNode(o2, BinaryNode(o1, CellNode(a), CellNode(b)), CellNode(c)))
  {
    var t := [CellTok(a), OpTok(o1), CellTok(b), OpTok(o2), CellTok(c), EndToken];
    CellFactor(t, 0, nc);
    CellFactor(t, 2, nc);
    var m := BinaryNode(o1, CellNode(a), CellNode(b));
    var n := BinaryNode(o2, m, CellNode(c));
    assert TermTail(t, 3, m, nc) == Success((m, 3));
    assert TermTail(t, 1, CellNode(a), nc) == Success((m, 3));
    assert TermAt(t, 0, nc) == Success((m, 3));
    CellTerm(t, 4, nc);
    assert ExprTail(t, 5, n, nc) == Success((n, 5));
    assert ExprTail(t, 3, m, nc) == Success((n, 5));
  }

  /** A Cell then a Colon makes a range whatever kind the third token has. */
  lemma RangeTakesNextTokenText(t: seq<FormulaToken>, i: nat, nc: NumberCulture)
    requires i + 2 < |t| && t[i].Type == Cell && t[i + 1].Type == Colon
    ensures FactorAt(t, i, nc) == Success((RangeNode(t[i].Text, t[i + 2].Text), i + 3))
  {
  }

  /**
   * A function call has a second argument exactly when a Comma follows the first. The token
   * after the name and the token after the last argument are both skipped unchecked.
   */
  lemma FunctionArguments(t: seq<FormulaToken>, i: nat, nc: NumberCulture)
    requires i + 1 < |t| && t[i].Type == Function && ExprAt(t, i + 2, nc).Success?
    ensures var j := ExprAt(t, i + 2, nc).value.1;
      match FactorAt(t, i, nc)
      case Success((FunctionNode(name, a1, a2), p)) =>
        name == t[i].Text && a1 == ExprAt(t, i + 2, nc).value.0 &&
        (a2.Some? <==> t[j].Type == Comma) &&
        (a2.Some? ==> ExprAt(t, j + 1, nc).Success? && a2.value == ExprAt(t, j + 1, nc).value.0) &&
        (a2.None? ==> p == j + 1) &&
        (a2.Some? ==> p == ExprAt(t, j + 1, nc).value.1 + 1)
      case Failure => t[j].Type == Comma && ExprAt(t, j + 1, nc).Failure?
      case _ => false
  {
  }

  /** A parenthesised expression is returned as it is; the token after it is skipped unchecked. */
  lemma ParenthesesUnwrapped(t: seq<FormulaToken>, i: nat, nc: NumberCulture)
    requires i < |t| && t[i].Type == LParen && ExprAt(t, i + 1, nc).Success?
    ensures FactorAt(t, i, nc) == Success((ExprAt(t, i + 1, nc).value.0, ExprAt(t, i + 1, nc).value.1 + 1))
  {
  }

  /** Any other leading token, End included, is read as the number 0. */
  lemma OtherTokenIsZero(t: seq<FormulaToken>, i: nat, nc: NumberCulture)
    requires i < |t| && t[i].Type in {Operator, RParen, Comma, Colon, End}
    ensures FactorAt(t, i, nc) == Success((NumberNode(0.0), i + 1))
  {
  }

  /** The formula "" tokenizes to End alone, which is consumed as 0; the next Peek reads past the list. */
  lemma EmptyFormulaFails(nc: NumberCulture)
    ensures TokenList("") == [EndToken]
    ensures ParseTokens(TokenList(""), nc) == Failure
  {
    assert TokenList("") == [EndToken];
    assert FactorAt([EndToken], 0, nc) == Success((NumberNode(0.0), 1));
  }

  /** The text "1+" tokenizes to a number, an operator and End. */
  lemma TokensOfDanglingOperator()
    ensures TokenList("1+") == [FormulaToken(Number, "1"), OpTok("+"), EndToken]
  {
    var s := "1+";
    assert Upper(s) == s;
    assert DigitRun(s, 1) == 1;
    assert NumberLen(s) == 1;
    assert !IsWhiteSpace(s[0]) && s[..1] == "1";
    assert Scan(s) == ([FormulaToken(Number, "1")], 1);
    assert s[1..] == "+";
    assert NumberLen("+") == 0 && CellLen("+") == 0 && FuncLen("+") == 0;
    assert Scan("+") == ([OpTok("+")], 1);
    assert Lex("+") == [OpTok("+")] + Lex("");
    assert Lex(s) == [FormulaToken(Number, "1")] + Lex("+");
  }

  /** The text "(1" tokenizes to an opening parenthesis, a number and End. */
  lemma TokensOfUnclosedParenthesis()
    ensures TokenList("(1") == [FormulaToken(LParen, "("), FormulaToken(Number, "1"), EndToken]
  {
    var s := "(1";
    assert Upper(s) == s;
    assert NumberLen(s) == 0 && CellLen(s) == 0 && FuncLen(s) == 0;
    assert Scan(s) == ([FormulaToken(LParen, "(")], 1);
    assert s[1..] == "1";
    assert DigitRun("1", 0) == 1;
    assert NumberLen("1") == 1;
    assert !IsWhiteSpace('1') && "1"[..1] == "1";
    assert Scan("1") == ([FormulaToken(Number, "1")], 1);
    assert Lex("1") == [FormulaToken(Number, "1")] + Lex("");
    assert Lex(s) == [FormulaToken(LParen, "(")] + Lex("1");
  }

  /** The formula "1+": the right operand consumes End and the loop then peeks past it. */
  lemma DanglingOperatorFails(nc: NumberCulture)
    ensures ParseTokens(TokenList("1+"), nc) == Failure
  {
    TokensOfDanglingOperator();
    var t := [FormulaToken(Number, "1"), OpTok("+"), EndToken];
    assert FactorAt(t, 2, nc) == Success((NumberNode(0.0), 3));
    assert TermAt(t, 2, nc) == Failure;
    if nc.parse("1").Some? {
      var n := NumberNode(nc.parse("1").value);
      assert FactorAt(t, 0, nc) == Success((n, 1));
      assert TermTail(t, 1, n, nc) == Success((n, 1));
      assert TermAt(t, 0, nc) == Success((n, 1));
      assert ExprTail(t, 1, n, nc) == Failure;
    } else {
      assert FactorAt(t, 0, nc) == Failure;
      assert TermAt(t, 0, nc) == Failure;
    }
  }

  /** The formula "(1": the missing `)` makes the closing read take End, then Peek fails. */
  lemma UnclosedParenthesisFails(nc: NumberCulture)
    ensures ParseTokens(TokenList("(1"), nc) == Failure
  {
    TokensOfUnclosedParenthesis();
    var t := [FormulaToken(LParen, "("), FormulaToken(Number, "1"), EndToken];
    if nc.parse("1").Some? {
      var n := NumberNode(nc.parse("1").value);
      assert FactorAt(t, 1, nc) == Success((n, 2));
      assert TermTail(t, 2, n, nc) == Success((n, 2));
      assert ExprTail(t, 2, n, nc) == Success((n, 2));
      assert ExprAt(t, 1, nc) == Success((n, 2));
      assert FactorAt(t, 0, nc) == Success((n, 3));
      assert TermTail(t, 3, n, nc) == Failure;
      assert TermAt(t, 0, nc) == Failure;
    } else {
      assert FactorAt(t, 1, nc) == Failure;
      assert ExprAt(t, 1, nc) == Failure;
      assert FactorAt(t, 0, nc) == Failure;
      assert TermAt(t, 0, nc) == Failure;
    }
  }
}
