/**
 * What the pagination promises: every row is printed on exactly one page, and
 * for rows of non-negative height the greedy pages are the only pages that fit
 * and are full.
 */
module PrintingLaws {
  import opened GridControl
  import opened Printing

  /** Each row before n lies on some page of a tiling. */
  lemma {:induction false} PageOfRow(pages: seq<Page>, n: nat, r: nat) returns (k: nat)
    requires Tiles(pages, n) && r < n
    ensures k < |pages| && pages[k].First <= r < pages[k].End
  {
    k := |pages| - 1;
    while r < pages[k].First
      invariant 0 <= k < |pages| && r < pages[k].End
      decreases k
    {
      k := k - 1;
    }
  }

  /** Pages of a tiling do not overlap: a later page starts where or after an earlier one ends. */
  lemma {:induction false} PagesInOrder(pages: seq<Page>, n: nat, k: nat, k': nat)
    requires Tiles(pages, n) && k < k' < |pages|
    ensures pages[k].End <= pages[k'].First
    decreases k' - k
  {
    if k + 1 < k' {
      PagesInOrder(pages, n, k + 1, k');
    }
  }

  /** So every row before n lies on exactly one page. */
  lemma OnePagePerRow(pages: seq<Page>, n: nat, r: nat, k: nat, k': nat)
    requires Tiles(pages, n) && k < |pages| && k' < |pages|
    requires pages[k].First <= r < pages[k].End && pages[k'].First <= r < pages[k'].End
    ensures k == k'
  {
    if k < k' {
      PagesInOrder(pages, n, k, k');
    } else if k' < k {
      PagesInOrder(pages, n, k', k);
    }
  }

  /** With non-negative heights, a page's end is fixed by its start: at most one end fits and is full. */
  lemma PageEndUnique(heights: seq<real>, start: nat, e: nat, e': nat, usable: real)
    requires forall i :: 0 <= i < |heights| ==> heights[i] >= 0.0
    requires start < e && start < e'
    requires Fits(heights, Page(start, e), usable) && Full(heights, Page(start, e), usable)
    requires Fits(heights, Page(start, e'), usable) && Full(heights, Page(start, e'), usable)
    ensures e == e'
  {
    NoLongerPage(heights, start, e, e', usable);
    NoLongerPage(heights, start, e', e, usable);
  }

  /** A page that is full cannot be extended to a longer page that still fits. */
  lemma NoLongerPage(heights: seq<real>, start: nat, e: nat, e': nat, usable: real)
    requires forall i :: 0 <= i < |heights| ==> heights[i] >= 0.0
    requires start < e && start <= e' <= |heights|
    requires Full(heights, Page(start, e), usable)
    requires Fits(heights, Page(start, e'), usable)
    ensures e' <= e
  {
    if e < e' {
      SpanGrows(heights, start, e, e');
      SpanGrows(heights, start, e + 1, e');
    }
  }

  /** In a tiling of n rows whose pages fit, only the last page reaches row n. */
  lemma OnlyLastPageEnds(heights: seq<real>, pages: seq<Page>, usable: real, k: nat)
    requires Tiles(pages, |heights|)
    requires forall k :: 0 <= k < |pages| ==> Fits(heights, pages[k], usable)
    requires k < |pages|
    ensures pages[k].End == |heights| ==> k == |pages| - 1
  {
    if k < |pages| - 1 {
      assert Fits(heights, pages[k + 1], usable);
    }
  }

  /**
   * With non-negative heights there is only one way to split n rows into pages
   * that each fit and are full, so the pagination is determined by the heights.
   */
  lemma PaginationUnique(heights: seq<real>, pages: seq<Page>, pages': seq<Page>, usable: real)
    requires forall i :: 0 <= i < |heights| ==> heights[i] >= 0.0
    requires Tiles(pages, |heights|) && Tiles(pages', |heights|)
    requires forall k :: 0 <= k < |pages| ==> Fits(heights, pages[k], usable) && Full(heights, pages[k], usable)
    requires forall k :: 0 <= k < |pages'| ==> Fits(heights, pages'[k], usable) && Full(heights, pages'[k], usable)
    ensures pages == pages'
  {
    if |pages| <= |pages'| {
      SamePrefix(heights, pages, pages', usable, |pages|);
      if |pages| > 0 {
        assert pages'[|pages| - 1] == pages[..|pages|][|pages| - 1];
        OnlyLastPageEnds(heights, pages', usable, |pages| - 1);
      }
    } else {
      SamePrefix(heights, pages, pages', usable, |pages'|);
      if |pages'| > 0 {
        assert pages[|pages'| - 1] == pages'[..|pages'|][|pages'| - 1];
        OnlyLastPageEnds(heights, pages, usable, |pages'| - 1);
      }
    }
    assert pages == pages[..|pages|];
    assert pages' == pages'[..|pages'|];
  }

  lemma {:induction false} SamePrefix(heights: seq<real>, pages: seq<Page>, pages': seq<Page>, usable: real, m: nat)
    requires forall i :: 0 <= i < |heights| ==> heights[i] >= 0.0
    requires Tiles(pages, |heights|) && Tiles(pages', |heights|)
    requires forall k :: 0 <= k < |pages| ==> Fits(heights, pages[k], usable) && Full(heights, pages[k], usable)
    requires forall k :: 0 <= k < |pages'| ==> Fits(heights, pages'[k], usable) && Full(heights, pages'[k], usable)
    requires m <= |pages| && m <= |pages'|
    ensures pages[..m] == pages'[..m]
    decreases m
  {
    if m > 0 {
      SamePrefix(heights, pages, pages', usable, m - 1);
      var p, p' := pages[m - 1], pages'[m - 1];
      assert p.First == p'.First by {
        if m > 1 {
          assert pages[m - 2] == pages[..m - 1][m - 2];
          assert pages'[m - 2] == pages'[..m - 1][m - 2];
        }
      }
      PageEndUnique(heights, p.First, p.End, p'.End, usable);
      assert pages[..m] == pages[..m - 1] + [p];
      assert pages'[..m] == pages'[..m - 1] + [p'];
    }
  }
}
