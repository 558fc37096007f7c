/** One search hit and the way it is shown in the results list. */
module Results {
  import opened Wrappers
  import opened Strings

  /** The arrow between the location and the cell text. */
  const Arrow: string := " → "

  datatype SearchResult = SearchResult(SheetName: string, Row: int, Column: int, Text: string)
  {
    /** Sheet name, '!', 1-based row and column separated by ':', an arrow, the cell text. */
    function ToString(): (s: string)
      ensures s == SheetName + "!" + Location(Row, Column) + Arrow + Text
      ensures ReadLocation(Location(Row, Column)) == Some((Row, Column))
    {
      LocationRoundTrip(Row, Column);
      SheetName + "!" + Location(Row, Column) + Arrow + Text
    }
  }

  /** The 1-based "row:column" part of a result's text. */
  function Location(row: int, column: int): string
  {
    DecimalString(row + 1) + ":" + DecimalString(column + 1)
  }

  /** The text before the first sep and the text after it, or nothing when sep does not occur. */
  function SplitAt(s: string, sep: char): (r: Option<(string, string)>)
    ensures r.Some? ==> s == r.value.0 + [sep] + r.value.1 && sep !in r.value.0
    ensures r.None? ==> sep !in s
  {
    if |s| == 0 then None
    else if s[0] == sep then Some(([], s[1..]))
    else match SplitAt(s[1..], sep)
      case None => None
      case Some(parts) => Some(([s[0]] + parts.0, parts.1))
  }

  /** Reads a "row:column" location back as 0-based indices. */
  function ReadLocation(s: string): Option<(int, int)>
  {
    match SplitAt(s, ':')
    case None => None
    case Some(parts) =>
      match ParseInt(parts.0)
      case None => None
      case Some(row) =>
        match ParseInt(parts.1)
        case None => None
        case Some(column) => Some((row - 1, column - 1))
  }

  lemma {:induction false} SplitAtFirst(a: string, sep: char, b: string)
    requires sep !in a
    ensures SplitAt(a + [sep] + b, sep) == Some((a, b))
    decreases |a|
  {
    if |a| > 0 {
      SplitAtFirst(a[1..], sep, b);
      var s := a + [sep] + b;
      assert s[0] == a[0] && s[0] != sep;
      assert s[1..] == a[1..] + [sep] + b;
      assert [a[0]] + a[1..] == a;
    } else {
      assert (a + [sep] + b)[1..] == b;
    }
  }

  lemma NoColonInNumber(n: int)
    ensures ':' !in DecimalString(n)
  {
    if n < 0 {
      assert DecimalString(n) == "-" + Digits(-n);
      assert AllDigits(Digits(-n));
    }
  }

  /** The location part reads back as the row and column it was written from. */
  lemma LocationRoundTrip(row: int, column: int)
    ensures ReadLocation(Location(row, column)) == Some((row, column))
  {
    NoColonInNumber(row + 1);
    SplitAtFirst(DecimalString(row + 1), ':', DecimalString(column + 1));
    DecimalRoundTrip(row + 1);
    DecimalRoundTrip(column + 1);
  }
}
