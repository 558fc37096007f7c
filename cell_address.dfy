/**
 * Conversion between A1-style cell names and zero-based (row, column) pairs.
 * Column letters are a bijective base-26 numeral: A = 1, ..., Z = 26, AA = 27, ...
 */
module Address {
  import opened Wrappers
  import opened Strings

  /** The digit value of an upper-case letter: `c - 'A' + 1`. */
  function LetterValue(ch: char): int {
    ch as int - 'A' as int + 1
  }

  /** The column numeral read left to right, as the source's accumulation loop does. */
  function ColumnValue(s: string): int {
    if s == [] then 0 else ColumnValue(s[..|s| - 1]) * 26 + LetterValue(s[|s| - 1])
  }

  /** The bijective base-26 letters of n (n = 0 has no letters). */
  function ColumnLetters(n: nat): (r: string)
    ensures (|r| > 0) == (n > 0)
    ensures forall i :: 0 <= i < |r| ==> IsUpperLetter(r[i])
  {
    if n == 0 then [] else ColumnLetters((n - 1) / 26) + [('A' as int + (n - 1) % 26) as char]
  }

  /** The length of the leading run of letters. */
  function LetterRun(s: string): (i: nat)
    ensures i <= |s|
    ensures forall k :: 0 <= k < i ==> IsLetter(s[k])
    ensures i < |s| ==> !IsLetter(s[i])
  {
    if s == [] || !IsLetter(s[0]) then 0 else 1 + LetterRun(s[1..])
  }

  /** What CellAddress.Parse returns; Failure stands for int.Parse throwing on the row part. */
  function AddressOf(addr: string): Result<(int, int)> {
    var i := LetterRun(addr);
    var col := ColumnValue(Upper(addr[..i])) - 1;
    match ParseInt(addr[i..])
    case None => Failure
    case Some(n) => Success((n - 1, col))
  }

  /** What CellAddress.ToName returns: the letters of col + 1 (none when col + 1 <= 0), then row + 1. */
  function NameOf(row: int, col: int): string {
    (if col + 1 > 0 then ColumnLetters(col + 1) else "") + DecimalString(row + 1)
  }

  method Parse(addr: string) returns (r: Result<(int, int)>)
    ensures r == AddressOf(addr)
    ensures r.Failure? <==> ParseInt(addr[LetterRun(addr)..]).None?
  {
    var i := 0;
    while i < |addr| && IsLetter(addr[i])
      invariant 0 <= i <= LetterRun(addr)
    {
      i := i + 1;
    }
    var colPart := Upper(addr[..i]);
    var rowPart := addr[i..];
    var col := 0;
    for k := 0 to |colPart|
      invariant col == ColumnValue(colPart[..k])
    {
      assert colPart[..k + 1][..k] == colPart[..k];
      col := col * 26 + LetterValue(colPart[k]);
    }
    assert colPart[..|colPart|] == colPart;
    col := col - 1;
    match ParseInt(rowPart)
    case None => r := Failure;
    case Some(n) => r := Success((n - 1, col));
  }

  method ToName(row: int, col: int) returns (name: string)
    ensures name == NameOf(row, col)
  {
    var c := col + 1;
    name := "";
    while c > 0
      invariant col + 1 > 0 ==> c >= 0 && ColumnLetters(c) + name == ColumnLetters(col + 1)
      invariant col + 1 <= 0 ==> c == col + 1 && name == ""
    {
      LettersStep(c, name);
      var r := (c - 1) % 26;
      name := [('A' as int + r) as char] + name;
      c := (c - 1) / 26;
    }
    assert col + 1 > 0 ==> ColumnLetters(c) == [] && ColumnLetters(c) + name == name;
    name := name + DecimalString(row + 1);
  }

  /** One iteration of the ToName loop: the last letter of c moves to the front of the suffix. */
  lemma LettersStep(c: nat, suffix: string)
    requires c > 0
    ensures ColumnLetters((c - 1) / 26) + ([('A' as int + (c - 1) % 26) as char] + suffix) == ColumnLetters(c) + suffix
  {
    var front, last := ColumnLetters((c - 1) / 26), [('A' as int + (c - 1) % 26) as char];
    assert ColumnLetters(c) == front + last;
    assert front + (last + suffix) == (front + last) + suffix;
  }

  /** Reading the letters back gives the number they were written from. */
  lemma {:induction false} ColumnRoundTrip(n: nat)
    ensures ColumnValue(ColumnLetters(n)) == n
  {
    if n > 0 {
      var s := ColumnLetters(n);
      assert s[..|s| - 1] == ColumnLetters((n - 1) / 26);
      ColumnRoundTrip((n - 1) / 26);
    }
  }

  /** Every non-empty run of upper-case letters is the name of exactly one column. */
  lemma {:induction false} LettersRoundTrip(s: string)
    requires forall i :: 0 <= i < |s| ==> IsUpperLetter(s[i])
    ensures ColumnValue(s) >= 0
    ensures ColumnLetters(ColumnValue(s)) == s
  {
    if s != [] {
      var p := s[..|s| - 1];
      LettersRoundTrip(p);
      var v := ColumnValue(s);
      var d := LetterValue(s[|s| - 1]);
      assert 1 <= d <= 26;
      assert (v - 1) / 26 == ColumnValue(p);
      assert (v - 1) % 26 == d - 1;
      assert s == p + [s[|s| - 1]];
    }
  }

  /** CellAddress.Parse inverts CellAddress.ToName on every non-negative cell. */
  lemma ParseToNameRoundTrip(row: nat, col: nat)
    ensures AddressOf(NameOf(row, col)) == Success((row, col))
  {
    var letters := ColumnLetters(col + 1);
    var digits := DecimalString(row + 1);
    var name := NameOf(row, col);
    assert name == letters + digits;
    LetterRunOfName(letters, digits);
    assert name[..|letters|] == letters;
    assert name[|letters|..] == digits;
    ColumnRoundTrip(col + 1);
    DecimalRoundTrip(row + 1);
  }

  lemma {:induction false} LetterRunOfName(letters: string, digits: string)
    requires forall i :: 0 <= i < |letters| ==> IsUpperLetter(letters[i])
    requires |digits| > 0 && IsDigit(digits[0])
    ensures LetterRun(letters + digits) == |letters|
  {
    if letters != [] {
      assert (letters + digits)[1..] == letters[1..] + digits;
      LetterRunOfName(letters[1..], digits);
    }
  }

  /** The column part of a name is a non-empty run of A-Z, followed by the 1-based row. */
  lemma NameShape(row: nat, col: nat)
    ensures var n := NameOf(row, col);
      var k := |ColumnLetters(col + 1)|;
      && 0 < k < |n|
      && (forall i :: 0 <= i < k ==> IsUpperLetter(n[i]))
      && n[k..] == DecimalString(row + 1)
  {
  }

  /** Letters are read case-insensitively as bijective base-26 digits and then decremented. */
  lemma ParseExamples()
    ensures AddressOf("A1") == Success((0, 0))
    ensures AddressOf("AA1") == Success((0, 26))
    ensures AddressOf("aa1") == Success((0, 26))
    ensures AddressOf("B12") == Success((11, 1))
  {
    ParseA1();
    ParseAA1();
    ParseLowerAA1();
    ParseB12();
  }

  lemma ParseA1()
    ensures AddressOf("A1") == Success((0, 0))
  {
    assert LetterRun("A1") == 1;
  }

  lemma ParseAA1()
    ensures AddressOf("AA1") == Success((0, 26))
  {
    assert LetterRun("AA1") == 2;
    assert ColumnValue("AA") == 27 by { assert "AA"[..1] == "A"; }
  }

  lemma ParseLowerAA1()
    ensures AddressOf("aa1") == Success((0, 26))
  {
    assert LetterRun("aa1") == 2;
    assert Upper("aa") == "AA";
    assert ColumnValue("AA") == 27 by { assert "AA"[..1] == "A"; }
  }

  lemma ParseB12()
    ensures AddressOf("B12") == Success((11, 1))
  {
    assert LetterRun("B12") == 1;
    assert "B12"[1..] == "12";
    assert DigitsValue("12") == 12 by {
      assert "12"[..1] == "1";
    }
    assert ColumnValue(Upper("B12"[..1])) == 2;
  }

  /** With no leading letters the column is -1 and the row part alone decides success. */
  lemma NoLettersGivesColumnMinusOne(addr: string)
    requires addr == [] || !IsLetter(addr[0])
    requires ParseInt(addr).Some?
    ensures AddressOf(addr) == Success((ParseInt(addr).value - 1, -1))
  {
    assert addr[..0] == [];
  }
}
