/**
 * The formula tokenizer: one left-to-right pass over the upper-cased text that
 * emits Number, Cell, Function and punctuation tokens, silently drops every
 * other character, and closes the list with the End sentinel.
 */
module Lexer {
  import opened Strings
  import opened Tokens
  import Address

  /** The end of the run of decimal digits that starts at i. */
  function DigitRun(s: string, i: nat): (j: nat)
    requires i <= |s|
    ensures i <= j <= |s|
    ensures forall k :: i <= k < j ==> IsDigit(s[k])
    ensures j < |s| ==> !IsDigit(s[j])
    decreases |s| - i
  {
    if i < |s| && IsDigit(s[i]) then DigitRun(s, i + 1) else i
  }

  /** The end of the run of letters A-Z that starts at i. */
  function UpperRun(s: string, i: nat): (j: nat)
    requires i <= |s|
    ensures i <= j <= |s|
    ensures forall k :: i <= k < j ==> IsUpperLetter(s[k])
    ensures j < |s| ==> !IsUpperLetter(s[j])
    decreases |s| - i
  {
    if i < |s| && IsUpperLetter(s[i]) then UpperRun(s, i + 1) else i
  }

  /** Length of the match of `^\d+(\.\d+)?`, 0 when there is none. */
  function NumberLen(s: string): (n: nat)
    ensures n <= |s|
    ensures n > 0 <==> |s| > 0 && IsDigit(s[0])
  {
    var d := DigitRun(s, 0);
    if d == 0 then 0
    else if d < |s| && s[d] == '.' && DigitRun(s, d + 1) > d + 1 then DigitRun(s, d + 1)
    else d
  }

  /** s[..l] is one or more letters A-Z and s[l..n] one or more digits. */
  predicate LettersThenDigits(s: string, l: nat, n: nat)
  {
    0 < l < n <= |s| &&
    (forall k :: 0 <= k < l ==> IsUpperLetter(s[k])) &&
    (forall k :: l <= k < n ==> IsDigit(s[k]))
  }

  /** Length of the match of `^[A-Z]+\d+`, 0 when there is none; the digit run is taken whole. */
  function CellLen(s: string): (n: nat)
    ensures n <= |s|
    ensures n > 0 ==> exists l :: LettersThenDigits(s, l, n)
    ensures 0 < n < |s| ==> !IsDigit(s[n])
  {
    var l := UpperRun(s, 0);
    if l == 0 then 0
    else
      var d := DigitRun(s, l);
      if d == l then 0 else assert LettersThenDigits(s, l, d); d
  }

  /** Length of the match of `^[A-Z]+(?=\()`, 0 when there is none; the `(` is not part of it. */
  function FuncLen(s: string): (n: nat)
    ensures n < |s| || n == 0
    ensures n > 0 ==> (forall k :: 0 <= k < n ==> IsUpperLetter(s[k])) && s[n] == '('
  {
    var l := UpperRun(s, 0);
    if l > 0 && l < |s| && s[l] == '(' then l else 0
  }

  /** A run of letters from i that ends at l (the end of the text, or a non-letter) is the run UpperRun finds. */
  lemma {:induction false} UpperRunExact(s: string, i: nat, l: nat)
    requires i <= l <= |s|
    requires forall k :: i <= k < l ==> IsUpperLetter(s[k])
    requires l == |s| || !IsUpperLetter(s[l])
    ensures UpperRun(s, i) == l
    decreases l - i
  {
    if i < l {
      UpperRunExact(s, i + 1, l);
    }
  }

  /** Letters followed by a digit always give a cell match, which takes those letters and the whole digit run. */
  lemma CellMatchExists(s: string, l: nat)
    requires 0 < l < |s| && IsDigit(s[l])
    requires forall k :: 0 <= k < l ==> IsUpperLetter(s[k])
    ensures CellLen(s) > 0 && LettersThenDigits(s, l, CellLen(s))
  {
    UpperRunExact(s, 0, l);
  }

  /** Letters followed by '(' always give a function match of exactly those letters. */
  lemma FuncMatchExists(s: string, l: nat)
    requires 0 < l < |s| && s[l] == '('
    requires forall k :: 0 <= k < l ==> IsUpperLetter(s[k])
    ensures FuncLen(s) == l
  {
    UpperRunExact(s, 0, l);
  }

  /** The token a single punctuation character produces; any other character produces none. */
  function Punctuation(c: char): (r: seq<FormulaToken>)
    ensures |r| <= 1
    ensures |r| == 1 ==> r[0].Text == [c] && r[0].Type != End
  {
    match c
    case '+' => [FormulaToken(Operator, "+")]
    case '-' => [FormulaToken(Operator, "-")]
    case '*' => [FormulaToken(Operator, "*")]
    case '/' => [FormulaToken(Operator, "/")]
    case '(' => [FormulaToken(LParen, "(")]
    case ')' => [FormulaToken(RParen, ")")]
    case ',' => [FormulaToken(Comma, ",")]
    case ':' => [FormulaToken(Colon, ":")]
    case _ => []
  }

  /** One step of the scan of a non-empty text: the token it emits (if any) and how many
      characters it consumes. A matched token's text is exactly the consumed prefix. */
  function Scan(s: string): (r: (seq<FormulaToken>, nat))
    requires |s| > 0
    ensures 0 < r.1 <= |s| && |r.0| <= 1
    ensures |r.0| == 1 ==> r.0[0].Type != End && r.0[0].Text == s[..r.1]
    ensures |r.0| == 0 ==> r.1 == 1
  {
    if IsWhiteSpace(s[0]) then ([], 1)
    else if NumberLen(s) > 0 then ([FormulaToken(Number, s[..NumberLen(s)])], NumberLen(s))
    else if CellLen(s) > 0 then ([FormulaToken(Cell, s[..CellLen(s)])], CellLen(s))
    else if FuncLen(s) > 0 then ([FormulaToken(Function, s[..FuncLen(s)])], FuncLen(s))
    else (Punctuation(s[0]), 1)
  }

  /** The tokens of an (already upper-cased) text, without the End sentinel. */
  function Lex(s: string): (r: seq<FormulaToken>)
    ensures forall k :: 0 <= k < |r| ==> r[k].Type != End
    decreases |s|
  {
    if s == [] then [] else Scan(s).0 + Lex(s[Scan(s).1..])
  }

  /** The token list FormulaLexer.Tokenize returns. */
  function TokenList(input: string): (r: seq<FormulaToken>)
    ensures |r| > 0 && r[|r| - 1] == EndToken
    ensures forall k :: 0 <= k < |r| - 1 ==> r[k].Type != End
  {
    Lex(Upper(input)) + [EndToken]
  }

  method Tokenize(input: string) returns (tokens: seq<FormulaToken>)
    ensures tokens == TokenList(input)
  {
    tokens := [];
    var s := Upper(input);
    while |s| > 0
      invariant tokens + Lex(s) == Lex(Upper(input))
      decreases |s|
    {
      ghost var before := s;
      ghost var emitted := tokens;
      if IsWhiteSpace(s[0]) {
        s := s[1..];
        assert Scan(before) == ([], 1);
        assert emitted + [] == emitted;
        ScanStep(emitted, before);
        assert tokens + Lex(s) == emitted + Lex(before);
        continue;
      }
      var n := NumberLen(s);
      if n > 0 {
        tokens := tokens + [FormulaToken(Number, s[..n])];
        s := s[n..];
        assert Scan(before) == ([FormulaToken(Number, before[..n])], n);
        ScanStep(emitted, before);
        assert tokens + Lex(s) == emitted + Lex(before);
        continue;
      }
      n := CellLen(s);
      if n > 0 {
        tokens := tokens + [FormulaToken(Cell, s[..n])];
        s := s[n..];
        assert Scan(before) == ([FormulaToken(Cell, before[..n])], n);
        ScanStep(emitted, before);
        assert tokens + Lex(s) == emitted + Lex(before);
        continue;
      }
      n := FuncLen(s);
      if n > 0 {
        tokens := tokens + [FormulaToken(Function, s[..n])];
        s := s[n..];
        assert Scan(before) == ([FormulaToken(Function, before[..n])], n);
        ScanStep(emitted, before);
        assert tokens + Lex(s) == emitted + Lex(before);
        continue;
      }
      var c := s[0];
      s := s[1..];
      tokens := tokens + Punctuation(c);
      assert Scan(before) == (Punctuation(c), 1);
      ScanStep(emitted, before);
      assert tokens + Lex(s) == emitted + Lex(before);
    }
    tokens := tokens + [EndToken];
  }

  /** Emitting one scan step's tokens and dropping the characters it consumed keeps
      `emitted + Lex(rest)` fixed. */
  lemma ScanStep(emitted: seq<FormulaToken>, s: string)
    requires |s| > 0
    ensures (emitted + Scan(s).0) + Lex(s[Scan(s).1..]) == emitted + Lex(s)
  {
    LexUnfold(s);
    ConcatAssoc(emitted, Scan(s).0, Lex(s[Scan(s).1..]));
  }

  lemma LexUnfold(s: string)
    requires |s| > 0
    ensures Lex(s) == Scan(s).0 + Lex(s[Scan(s).1..])
  {
  }

  lemma ConcatAssoc(a: seq<FormulaToken>, b: seq<FormulaToken>, c: seq<FormulaToken>)
    ensures (a + b) + c == a + (b + c)
  {
  }

  /** The texts of a token list, concatenated. */
  function Texts(ts: seq<FormulaToken>): string {
    if ts == [] then [] else ts[0].Text + Texts(ts[1..])
  }

  /** a can be obtained from b by deleting characters. */
  predicate IsSubsequence(a: string, b: string)
    decreases |b|
  {
    if a == [] then true
    else if b == [] then false
    else (a[0] == b[0] && IsSubsequence(a[1..], b[1..])) || IsSubsequence(a, b[1..])
  }

  lemma {:induction false} SubsequenceSkip(c: char, a: string, b: string)
    requires IsSubsequence(a, b)
    ensures IsSubsequence(a, [c] + b)
  {
    assert ([c] + b)[1..] == b;
  }

  lemma {:induction false} SubsequencePrefix(p: string, a: string, b: string)
    requires IsSubsequence(a, b)
    ensures IsSubsequence(p + a, p + b)
  {
    if p != [] {
      SubsequencePrefix(p[1..], a, b);
      assert (p + a)[1..] == p[1..] + a;
      assert (p + b)[1..] == p[1..] + b;
      assert (p + a)[0] == (p + b)[0];
    } else {
      assert p + a == a && p + b == b;
    }
  }

  lemma {:induction false} TextsAppend(a: seq<FormulaToken>, b: seq<FormulaToken>)
    ensures Texts(a + b) == Texts(a) + Texts(b)
  {
    if a != [] {
      TextsAppend(a[1..], b);
      assert (a + b)[0] == a[0] && (a + b)[1..] == a[1..] + b;
      assert Texts(a + b) == a[0].Text + Texts(a[1..] + b);
    } else {
      assert a + b == b;
    }
  }

  /** Every character the tokens carry comes from the input, in order: the token texts
      together form a subsequence of the scanned text. */
  lemma {:induction false} TextsAreSubsequence(s: string)
    ensures IsSubsequence(Texts(Lex(s)), s)
    decreases |s|
  {
    if s != [] {
      LexUnfold(s);
      TextsAreSubsequence(s[Scan(s).1..]);
      SubsequenceStep(s, Scan(s).0, Scan(s).1, Lex(s[Scan(s).1..]));
    }
  }

  /** One scan step keeps the texts a subsequence: the step's token text is the consumed
      prefix, or nothing when a single character was dropped. */
  lemma SubsequenceStep(s: string, h: seq<FormulaToken>, n: nat, rest: seq<FormulaToken>)
    requires 0 < n <= |s| && |h| <= 1
    requires |h| == 1 ==> h[0].Text == s[..n]
    requires |h| == 0 ==> n == 1
    requires IsSubsequence(Texts(rest), s[n..])
    ensures IsSubsequence(Texts(h + rest), s)
  {
    TextsAppend(h, rest);
    assert s[..n] + s[n..] == s;
    if h == [] {
      assert h + rest == rest;
      assert [s[0]] + s[1..] == s;
      SubsequenceSkip(s[0], Texts(rest), s[n..]);
    } else {
      assert Texts(h) == h[0].Text + Texts([]) == s[..n];
      SubsequencePrefix(s[..n], Texts(rest), s[n..]);
    }
  }

  /** The concatenated texts of Tokenize's output are a subsequence of the upper-cased input. */
  lemma TokenTextsSubsequenceOfInput(input: string)
    ensures IsSubsequence(Texts(TokenList(input)), Upper(input))
  {
    var l := Lex(Upper(input));
    TextsAreSubsequence(Upper(input));
    TextsAppend(l, [EndToken]);
    assert Texts([EndToken]) == "";
    assert Texts(TokenList(input)) == Texts(l);
  }

  /** A Function token never swallows its `(`: the next token is always LParen. */
  lemma {:induction false} FunctionFollowedByLParen(s: string)
    ensures forall k :: 0 <= k < |Lex(s)| && Lex(s)[k].Type == Function ==>
      k + 1 < |Lex(s)| && Lex(s)[k + 1] == FormulaToken(LParen, "(")
    decreases |s|
  {
    if s != [] {
      var h, rest := Scan(s).0, Lex(s[Scan(s).1..]);
      LexUnfold(s);
      FunctionFollowedByLParen(s[Scan(s).1..]);
      if h != [] && h[0].Type == Function {
        ScanAfterFunction(s);
      }
      LParenStep(h, rest);
    }
  }

  /** Prepending at most one token keeps every Function token followed by LParen, provided a
      prepended Function token is itself followed by LParen. */
  lemma LParenStep(h: seq<FormulaToken>, rest: seq<FormulaToken>)
    requires |h| <= 1
    requires |h| == 1 && h[0].Type == Function ==> |rest| > 0 && rest[0] == FormulaToken(LParen, "(")
    requires forall k :: 0 <= k < |rest| && rest[k].Type == Function ==>
      k + 1 < |rest| && rest[k + 1] == FormulaToken(LParen, "(")
    ensures forall k :: 0 <= k < |h + rest| && (h + rest)[k].Type == Function ==>
      k + 1 < |h + rest| && (h + rest)[k + 1] == FormulaToken(LParen, "(")
  {
    forall k | 0 <= k < |h + rest| && (h + rest)[k].Type == Function
      ensures k + 1 < |h + rest| && (h + rest)[k + 1] == FormulaToken(LParen, "(")
    {
      if k >= |h| {
        assert (h + rest)[k] == rest[k - |h|];
        assert (h + rest)[k + 1] == rest[k + 1 - |h|];
      } else {
        assert (h + rest)[k + 1] == rest[0];
      }
    }
  }

  /** The character right after a function name is `(`, which scans as LParen. */
  lemma ScanAfterFunction(s: string)
    requires |s| > 0 && |Scan(s).0| == 1 && Scan(s).0[0].Type == Function
    ensures |Lex(s[Scan(s).1..])| > 0 && Lex(s[Scan(s).1..])[0] == FormulaToken(LParen, "(")
  {
    assert !IsWhiteSpace(s[0]) && NumberLen(s) == 0 && CellLen(s) == 0 && Scan(s).1 == FuncLen(s);
    var rest := s[Scan(s).1..];
    assert rest[0] == '(';
    assert NumberLen(rest) == 0 && UpperRun(rest, 0) == 0;
    assert Scan(rest) == ([FormulaToken(LParen, "(")], 1);
    LexUnfold(rest);
  }

  /** Token texts of an upper-case text are upper-case. */
  lemma {:induction false} TextsUpper(s: string)
    requires IsUpperText(s)
    ensures forall k :: 0 <= k < |Lex(s)| ==> IsUpperText(Lex(s)[k].Text)
    decreases |s|
  {
    if s != [] {
      LexUnfold(s);
      TextsUpper(s[Scan(s).1..]);
      UpperStep(s, Scan(s).0, Scan(s).1, Lex(s[Scan(s).1..]));
    }
  }

  /** One scan step of an upper-case text emits upper-case token texts. */
  lemma UpperStep(s: string, h: seq<FormulaToken>, n: nat, rest: seq<FormulaToken>)
    requires IsUpperText(s) && n <= |s| && |h| <= 1
    requires |h| == 1 ==> h[0].Text == s[..n]
    requires forall k :: 0 <= k < |rest| ==> IsUpperText(rest[k].Text)
    ensures forall k :: 0 <= k < |h + rest| ==> IsUpperText((h + rest)[k].Text)
  {
    forall k | 0 <= k < |h + rest|
      ensures IsUpperText((h + rest)[k].Text)
    {
      if k < |h| {
        assert (h + rest)[k].Text == s[..n];
      } else {
        assert (h + rest)[k] == rest[k - |h|];
      }
    }
  }

  /** Tokenize upper-cases its input first, so every token text is upper-case. */
  lemma TokenTextsUpper(input: string)
    ensures forall k :: 0 <= k < |TokenList(input)| ==> IsUpperText(TokenList(input)[k].Text)
  {
    TextsUpper(Upper(input));
  }

  /** Whitespace produces no token. */
  lemma WhiteSpaceDropped(s: string)
    requires |s| > 0 && IsWhiteSpace(s[0])
    ensures Lex(s) == Lex(s[1..])
  {
  }

  /** A character that starts no number, cell or function and is not punctuation is dropped on
      its own; for a stray letter only that one letter goes. */
  lemma StrayCharacterDropped(s: string)
    requires |s| > 0 && !IsWhiteSpace(s[0]) && !IsDigit(s[0])
    requires CellLen(s) == 0 && FuncLen(s) == 0
    requires s[0] !in "+-*/(),:"
    ensures Lex(s) == Lex(s[1..])
  {
    assert NumberLen(s) == 0;
    assert Punctuation(s[0]) == [];
    assert Scan(s) == ([], 1);
    LexUnfold(s);
  }

  /** Whichever rule matches gives the first token: a number, else a cell, else a function. */
  lemma MatchPriority(s: string)
    requires |s| > 0 && !IsWhiteSpace(s[0])
    ensures IsDigit(s[0]) ==> Lex(s)[0] == FormulaToken(Number, s[..NumberLen(s)])
    ensures CellLen(s) > 0 ==> Lex(s)[0] == FormulaToken(Cell, s[..CellLen(s)])
    ensures CellLen(s) == 0 && FuncLen(s) > 0 ==> Lex(s)[0] == FormulaToken(Function, s[..FuncLen(s)])
  {
  }

  /** No text matches two of the number, cell and function rules, so their order is never observed. */
  lemma MatchesExclusive(s: string)
    ensures !(NumberLen(s) > 0 && CellLen(s) > 0)
    ensures !(NumberLen(s) > 0 && FuncLen(s) > 0)
    ensures !(CellLen(s) > 0 && FuncLen(s) > 0)
  {
  }

  /** A number token is `digits` or `digits.digits`. */
  lemma NumberShape(s: string)
    requires NumberLen(s) > 0
    ensures var n := NumberLen(s); var d := DigitRun(s, 0);
      && AllDigits(s[..d])
      && (n == d || (s[d] == '.' && n > d + 1 && AllDigits(s[d + 1..n])))
  {
  }

  /** A name written by CellAddress.ToName tokenises to exactly one Cell token and End. */
  lemma NameTokenizes(row: nat, col: nat)
    ensures TokenList(Address.NameOf(row, col)) ==
      [FormulaToken(Cell, Address.NameOf(row, col)), EndToken]
  {
    var name := Address.NameOf(row, col);
    var k := |Address.ColumnLetters(col + 1)|;
    Address.NameShape(row, col);
    assert IsUpperText(name);
    assert Upper(name) == name;
    assert UpperRun(name, 0) == k;
    assert DigitRun(name, k) == |name|;
    assert CellLen(name) == |name|;
    assert IsUpperLetter(name[0]) && !IsWhiteSpace(name[0]) && NumberLen(name) == 0;
    assert name[..|name|] == name;
    assert Scan(name) == ([FormulaToken(Cell, name)], |name|);
    LexUnfold(name);
    assert name[|name|..] == [];
  }
}
