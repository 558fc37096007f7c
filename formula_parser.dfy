/**
 * Recursive-descent formula parser: Expr := Term (('+'|'-') Term)*,
 * Term := Factor (('*'|'/') Factor)*, Factor := Number | Cell | Cell ':' tok
 * | Function '(' Expr [',' Expr] tok | '(' Expr tok | anything else.
 *
 * The functions below are the specification: each takes the token list and a
 * position and yields the node built and the position after it, or Failure
 * where the parser would read past the end of the list (or double.Parse throws).
 * The class FormulaParser is the imperative parser, proved equal to them.
 */
module Parser {
  import opened Wrappers
  import opened Tokens
  import opened Ast
  import opened Numbers

  predicate IsAdditive(tok: FormulaToken)
  {
    tok.Type == Operator && (tok.Text == "+" || tok.Text == "-")
  }

  predicate IsMultiplicative(tok: FormulaToken)
  {
    tok.Type == Operator && (tok.Text == "*" || tok.Text == "/")
  }

  /** ParseExpr started at position i. A success always stops on a token it peeked at. */
  function ExprAt(t: seq<FormulaToken>, i: nat, nc: NumberCulture): (r: Result<(Node, nat)>)
    requires i <= |t|
    ensures r.Success? ==> i < r.value.1 < |t|
    decreases |t| - i, 2
  {
    match TermAt(t, i, nc)
    case Failure => Failure
    case Success((left, j)) => ExprTail(t, j, left, nc)
  }

  /** The `while` loop of ParseExpr at position j with `left` built so far. */
  function ExprTail(t: seq<FormulaToken>, j: nat, left: Node, nc: NumberCulture): (r: Result<(Node, nat)>)
    requires j <= |t|
    ensures r.Success? ==> j <= r.value.1 < |t|
    decreases |t| - j, 3
  {
    if j >= |t| then Failure
    else if !IsAdditive(t[j]) then Success((left, j))
    else
      match TermAt(t, j + 1, nc)
      case Failure => Failure
      case Success((right, k)) => ExprTail(t, k, BinaryNode(t[j].Text, left, right), nc)
  }

  /** ParseTerm started at position i. */
  function TermAt(t: seq<FormulaToken>, i: nat, nc: NumberCulture): (r: Result<(Node, nat)>)
    requires i <= |t|
    ensures r.Success? ==> i < r.value.1 < |t|
    decreases |t| - i, 1
  {
    match FactorAt(t, i, nc)
    case Failure => Failure
    case Success((left, j)) => TermTail(t, j, left, nc)
  }

  /** The `while` loop of ParseTerm at position j with `left` built so far. */
  function TermTail(t: seq<FormulaToken>, j: nat, left: Node, nc: NumberCulture): (r: Result<(Node, nat)>)
    requires j <= |t|
    ensures r.Success? ==> j <= r.value.1 < |t|
    decreases |t| - j, 3
  {
    if j >= |t| then Failure
    else if !IsMultiplicative(t[j]) then Success((left, j))
    else
      match FactorAt(t, j + 1, nc)
      case Failure => Failure
      case Success((right, k)) => TermTail(t, k, BinaryNode(t[j].Text, left, right), nc)
  }

  /** ParseFactor started at position i: it always consumes at least one token. */
  function FactorAt(t: seq<FormulaToken>, i: nat, nc: NumberCulture): (r: Result<(Node, nat)>)
    requires i <= |t|
    ensures r.Success? ==> i < r.value.1 <= |t|
    decreases |t| - i, 0
  {
    if i >= |t| then Failure
    else
      var tok := t[i];
      match tok.Type
      case Number =>
        (match nc.parse(tok.Text)
         case None => Failure
         case Some(v) => Success((NumberNode(v), i + 1)))
      case Cell =>
        if i + 1 >= |t| then Failure
        else if t[i + 1].Type != Colon then Success((CellNode(tok.Text), i + 1))
        else if i + 2 >= |t| then Failure
        else Success((RangeNode(tok.Text, t[i + 2].Text), i + 3))
      case Function =>
        if i + 1 >= |t| then Failure
        else
          (match ExprAt(t, i + 2, nc)
           case Failure => Failure
           case Success((a1, j)) =>
             if t[j].Type != Comma then Success((FunctionNode(tok.Text, a1, None), j + 1))
             else
               (match ExprAt(t, j + 1, nc)
                case Failure => Failure
                case Success((a2, k)) => Success((FunctionNode(tok.Text, a1, Some(a2)), k + 1))))
      case LParen =>
        (match ExprAt(t, i + 1, nc)
         case Failure => Failure
         case Success((e, j)) => Success((e, j + 1)))
      case _ => Success((NumberNode(0.0), i + 1))
  }

  /** FormulaParser.Parse: the expression starting at the first token; the rest is ignored. */
  function ParseTokens(t: seq<FormulaToken>, nc: NumberCulture): (r: Result<Node>)
    ensures r.Success? <==> ExprAt(t, 0, nc).Success?
    ensures r.Success? ==> r.value == ExprAt(t, 0, nc).value.0
  {
    match ExprAt(t, 0, nc)
    case Failure => Failure
    case Success((n, _)) => Success(n)
  }

  /** A method's result and final position agree with a specification result. */
  predicate Agrees(r: Result<Node>, spec: Result<(Node, nat)>, pos: int)
  {
    r.Success? == spec.Success? && (r.Success? ==> r.value == spec.value.0 && pos == spec.value.1)
  }

  /** The parser object: the token list `toks` and the cursor `pos` that Next advances. */
  class FormulaParser {
    var toks: seq<FormulaToken>
    var pos: int
    const culture: NumberCulture

    constructor(culture: NumberCulture)
      ensures this.culture == culture && toks == [] && pos == 0
    {
      this.culture := culture;
      toks := [];
      pos := 0;
    }

    /** Parse resets the cursor and parses one expression; reading past the list is Failure. */
    method Parse(tokens: seq<FormulaToken>) returns (r: Result<Node>)
      modifies this
      ensures toks == tokens
      ensures r == ParseTokens(tokens, culture)
    {
      toks := tokens;
      pos := 0;
      r := ParseExpr();
    }

    method Peek() returns (r: Result<FormulaToken>)
      ensures r == if 0 <= pos < |toks| then Success(toks[pos]) else Failure
    {
      if 0 <= pos < |toks| {
        r := Success(toks[pos]);
      } else {
        r := Failure;
      }
    }

    /** `_t[_i++]`: the cursor moves on even when the read is out of range. */
    method Next() returns (r: Result<FormulaToken>)
      modifies this`pos
      ensures r == if 0 <= old(pos) < |toks| then Success(toks[old(pos)]) else Failure
      ensures pos == old(pos) + 1
    {
      r := Peek();
      pos := pos + 1;
    }

    method ParseExpr() returns (r: Result<Node>)
      requires 0 <= pos <= |toks|
      modifies this`pos
      ensures Agrees(r, ExprAt(toks, old(pos), culture), pos)
      decreases |toks| - pos, 2
    {
      ghost var i0 := pos;
      var first := ParseTerm();
      if first.Failure? {
        return Failure;
      }
      var left := first.value;
      while true
        invariant i0 < pos <= |toks|
        invariant ExprTail(toks, pos, left, culture) == ExprAt(toks, i0, culture)
        decreases |toks| - pos
      {
        var p := Peek();
        if p.Failure? {
          return Failure;
        }
        if !IsAdditive(p.value) {
          break;
        }
        var op := Next();
        var right := ParseTerm();
        if right.Failure? {
          return Failure;
        }
        left := BinaryNode(op.value.Text, left, right.value);
      }
      return Success(left);
    }

    method ParseTerm() returns (r: Result<Node>)
      requires 0 <= pos <= |toks|
      modifies this`pos
      ensures Agrees(r, TermAt(toks, old(pos), culture), pos)
      decreases |toks| - pos, 1
    {
      ghost var i0 := pos;
      var first := ParseFactor();
      if first.Failure? {
        return Failure;
      }
      var left := first.value;
      while true
        invariant i0 < pos <= |toks|
        invariant TermTail(toks, pos, left, culture) == TermAt(toks, i0, culture)
        decreases |toks| - pos
      {
        var p := Peek();
        if p.Failure? {
          return Failure;
        }
        if !IsMultiplicative(p.value) {
          break;
        }
        var op := Next();
        var right := ParseFactor();
        if right.Failure? {
          return Failure;
        }
        left := BinaryNode(op.value.Text, left, right.value);
      }
      return Success(left);
    }

    method ParseFactor() returns (r: Result<Node>)
      requires 0 <= pos <= |toks|
      modifies this`pos
      ensures Agrees(r, FactorAt(toks, old(pos), culture), pos)
      decreases |toks| - pos, 0
    {
      var next := Next();
      if next.Failure? {
        return Failure;
      }
      var tok := next.value;
      if tok.Type == Number {
        match culture.parse(tok.Text)
        case None =>
          return Failure;
        case Some(v) =>
          return Success(NumberNode(v));
      }
      if tok.Type == Cell {
        var p := Peek();
        if p.Failure? {
          return Failure;
        }
        if p.value.Type == Colon {
          var _ := Next();
          var b := Next();
          if b.Failure? {
            return Failure;
          }
          return Success(RangeNode(tok.Text, b.value.Text));
        }
        return Success(CellNode(tok.Text));
      }
      if tok.Type == Function {
        var open := Next();
        if open.Failure? {
          return Failure;
        }
        var a1 := ParseExpr();
        if a1.Failure? {
          return Failure;
        }
        var p := Peek();
        if p.Failure? {
          return Failure;
        }
        var a2: Option<Node> := None;
        if p.value.Type == Comma {
          var _ := Next();
          var second := ParseExpr();
          if second.Failure? {
            return Failure;
          }
          a2 := Some(second.value);
        }
        var close := Next();
        if close.Failure? {
          return Failure;
        }
        return Success(FunctionNode(tok.Text, a1.value, a2));
      }
      if tok.Type == LParen {
        var e := ParseExpr();
        if e.Failure? {
          return Failure;
        }
        var close := Next();
        if close.Failure? {
          return Failure;
        }
        return e;
      }
      return Success(NumberNode(0.0));
    }
  }
}
