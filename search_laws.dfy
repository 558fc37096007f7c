/**
 * What find-all returns: exactly the non-empty matching cells of the visible
 * sheets, each once, ordered by sheet, then row, then column.
 */
module SearchLaws {
  import opened Wrappers
  import opened Strings
  import opened Search

  /** The hit that comes first when walking sheet by sheet, row by row, left to right. */
  predicate Precedes(a: Hit, b: Hit)
  {
    a.0 < b.0 || (a.0 == b.0 && (a.1 < b.1 || (a.1 == b.1 && a.2 < b.2)))
  }

  /** Strictly increasing in walking order; in particular no hit twice. */
  predicate Ordered(hs: seq<Hit>)
  {
    forall k, k' :: 0 <= k < k' < |hs| ==> Precedes(hs[k], hs[k'])
  }

  /** Whether the cell (r, c) of sheet view v qualifies as a hit. */
  predicate CellQualifies(v: SheetView, r: nat, c: nat, query: string, matchCase: bool, matchWholeCell: bool)
  {
    r < |v.Texts| && c < |v.Texts[r]| && v.Texts[r][c] != "" && Matches(v.Texts[r][c], query, matchCase, matchWholeCell)
  }

  /** Whether a hit names a non-empty matching cell of a visible sheet. */
  predicate Qualifies(views: seq<SheetView>, h: Hit, query: string, matchCase: bool, matchWholeCell: bool)
  {
    h.0 < |views| && views[h.0].IsVisible && CellQualifies(views[h.0], h.1, h.2, query, matchCase, matchWholeCell)
  }

  lemma OrderedAppend(a: seq<Hit>, b: seq<Hit>)
    requires Ordered(a) && Ordered(b)
    requires forall x, y :: x in a && y in b ==> Precedes(x, y)
    ensures Ordered(a + b)
  {
    forall k, k' | 0 <= k < k' < |a + b|
      ensures Precedes((a + b)[k], (a + b)[k'])
    {
      if k < |a| && k' >= |a| {
        assert (a + b)[k] in a && (a + b)[k'] in b;
      }
    }
  }

  lemma {:induction false} CellHitsExactly(v: SheetView, i: nat, query: string, matchCase: bool, matchWholeCell: bool, r: nat, c: nat)
    requires r < |v.Texts| && c <= |v.Texts[r]|
    ensures forall h :: h in CellHits(v, i, query, matchCase, matchWholeCell, r, c) <==>
      h.0 == i && h.1 == r && h.2 < c && CellQualifies(v, r, h.2, query, matchCase, matchWholeCell)
    ensures Ordered(CellHits(v, i, query, matchCase, matchWholeCell, r, c))
    decreases c
  {
    if c > 0 {
      CellHitsExactly(v, i, query, matchCase, matchWholeCell, r, c - 1);
      var front := CellHits(v, i, query, matchCase, matchWholeCell, r, c - 1);
      var text := v.Texts[r][c - 1];
      var last: seq<Hit> := if text != "" && Matches(text, query, matchCase, matchWholeCell) then [(i, r, c - 1)] else [];
      var all := CellHits(v, i, query, matchCase, matchWholeCell, r, c);
      assert all == front + last;
      forall x, y | x in front && y in last
        ensures Precedes(x, y)
      {
      }
      OrderedAppend(front, last);
      forall h: Hit
        ensures h in all <==> h.0 == i && h.1 == r && h.2 < c && CellQualifies(v, r, h.2, query, matchCase, matchWholeCell)
      {
        assert h in all <==> h in front || h in last;
      }
    }
  }

  lemma {:induction false} RowHitsExactly(v: SheetView, i: nat, query: string, matchCase: bool, matchWholeCell: bool, r: nat)
    requires r <= |v.Texts|
    ensures forall h :: h in RowHits(v, i, query, matchCase, matchWholeCell, r) <==>
      h.0 == i && h.1 < r && CellQualifies(v, h.1, h.2, query, matchCase, matchWholeCell)
    ensures Ordered(RowHits(v, i, query, matchCase, matchWholeCell, r))
    decreases r
  {
    if r > 0 {
      RowHitsExactly(v, i, query, matchCase, matchWholeCell, r - 1);
      CellHitsExactly(v, i, query, matchCase, matchWholeCell, r - 1, |v.Texts[r - 1]|);
      var front := RowHits(v, i, query, matchCase, matchWholeCell, r - 1);
      var last := CellHits(v, i, query, matchCase, matchWholeCell, r - 1, |v.Texts[r - 1]|);
      var all := RowHits(v, i, query, matchCase, matchWholeCell, r);
      assert all == front + last;
      forall x, y | x in front && y in last
        ensures Precedes(x, y)
      {
      }
      OrderedAppend(front, last);
      forall h: Hit
        ensures h in all <==> h.0 == i && h.1 < r && CellQualifies(v, h.1, h.2, query, matchCase, matchWholeCell)
      {
        assert h in all <==> h in front || h in last;
      }
    }
  }

  lemma SheetHitsExactly(v: SheetView, i: nat, query: string, matchCase: bool, matchWholeCell: bool)
    ensures forall h :: h in SheetHits(v, i, query, matchCase, matchWholeCell) <==>
      h.0 == i && v.IsVisible && CellQualifies(v, h.1, h.2, query, matchCase, matchWholeCell)
    ensures Ordered(SheetHits(v, i, query, matchCase, matchWholeCell))
  {
    RowHitsExactly(v, i, query, matchCase, matchWholeCell, |v.Texts|);
  }

  /**
   * The hits of the first k sheets are exactly the qualifying cells of those
   * sheets, in walking order.
   */
  lemma {:induction false} HitsExactly(views: seq<SheetView>, query: string, matchCase: bool, matchWholeCell: bool, k: nat)
    requires k <= |views|
    ensures forall h :: h in Hits(views, query, matchCase, matchWholeCell, k) <==>
      h.0 < k && Qualifies(views, h, query, matchCase, matchWholeCell)
    ensures Ordered(Hits(views, query, matchCase, matchWholeCell, k))
    decreases k
  {
    if k > 0 {
      HitsExactly(views, query, matchCase, matchWholeCell, k - 1);
      SheetHitsExactly(views[k - 1], k - 1, query, matchCase, matchWholeCell);
      var front := Hits(views, query, matchCase, matchWholeCell, k - 1);
      var last := SheetHits(views[k - 1], k - 1, query, matchCase, matchWholeCell);
      var all := Hits(views, query, matchCase, matchWholeCell, k);
      assert all == front + last;
      forall x, y | x in front && y in last
        ensures Precedes(x, y)
      {
      }
      OrderedAppend(front, last);
      forall h: Hit
        ensures h in all <==> h.0 < k && Qualifies(views, h, query, matchCase, matchWholeCell)
      {
        assert h in all <==> h in front || h in last;
      }
    }
  }

  /** Every hit names a cell inside its sheet, so its result can be read off. */
  lemma HitsInside(views: seq<SheetView>, query: string, matchCase: bool, matchWholeCell: bool, k: nat)
    requires k <= |views|
    ensures forall h :: h in Hits(views, query, matchCase, matchWholeCell, k) ==> Inside(views, h)
  {
    HitsExactly(views, query, matchCase, matchWholeCell, k);
  }

  /** pattern is the slice of text starting at p. */
  predicate OccursAt(text: string, pattern: string, p: int)
  {
    0 <= p && p + |pattern| <= |text| && text[p..p + |pattern|] == pattern
  }

  lemma {:induction false} OccursFromPosition(text: string, pattern: string, p: nat)
    requires OccursAt(text, pattern, p)
    ensures Occurs(text, pattern)
    decreases p
  {
    if p > 0 {
      assert OccursAt(text[1..], pattern, p - 1) by {
        assert text[1..][p - 1..p - 1 + |pattern|] == text[p..p + |pattern|];
      }
      OccursFromPosition(text[1..], pattern, p - 1);
    }
  }

  lemma {:induction false} PositionOfOccurrence(text: string, pattern: string) returns (p: nat)
    requires Occurs(text, pattern)
    ensures OccursAt(text, pattern, p)
    decreases |text|
  {
    if text[..|pattern|] == pattern {
      p := 0;
    } else {
      var q := PositionOfOccurrence(text[1..], pattern);
      assert text[1..][q..q + |pattern|] == text[q + 1..q + 1 + |pattern|];
      p := q + 1;
    }
  }

  /** Occurs agrees with the textbook definition: the pattern is a slice of the text. */
  lemma OccursMeansSlice(text: string, pattern: string)
    ensures Occurs(text, pattern) <==> exists p :: OccursAt(text, pattern, p)
  {
    if Occurs(text, pattern) {
      var p := PositionOfOccurrence(text, pattern);
    }
    if exists p :: OccursAt(text, pattern, p) {
      var p :| OccursAt(text, pattern, p);
      OccursFromPosition(text, pattern, p);
    }
  }

  /** Without matchCase, the letter case of neither the cell text nor the query matters. */
  lemma CaseIgnored(text: string, query: string, matchWholeCell: bool)
    ensures Matches(text, query, false, matchWholeCell) == Matches(Upper(text), query, false, matchWholeCell)
    ensures Matches(text, query, false, matchWholeCell) == Matches(text, Upper(query), false, matchWholeCell)
  {
  }
}
