/**
 * The page merge of BQLite.read_bq: every fetched page of row tuples is
 * transposed into columns, and the columns of each later page are appended
 * to those of the first.
 */
module PageMerge {
  import opened Common

  /** One fetched page: a list of row tuples. */
  type Page = seq<seq<Value>>

  /** The number of tuples zip(*page) yields: the shortest row's length, or 0 for no rows. */
  function RowWidth(page: Page): (w: nat)
    ensures forall i :: 0 <= i < |page| ==> w <= |page[i]|
    ensures page != [] ==> exists i :: 0 <= i < |page| && w == |page[i]|
    ensures page == [] ==> w == 0
  {
    if page == [] then 0
    else
      var init := page[..|page| - 1];
      var w0 := RowWidth(init);
      assert forall i :: 0 <= i < |init| ==> init[i] == page[i];
      var last := |page[|page| - 1]|;
      if init == [] || last <= w0 then last else w0
  }

  /** Field j of every row of the page, in row order. */
  function FieldOf(page: Page, j: nat): seq<Value>
    requires j < RowWidth(page)
  {
    seq(|page|, (i: int) requires 0 <= i < |page| => page[i][j])
  }

  /** The page as columns: column j holds field j of every row, as long as every row has that field. */
  function Transpose(page: Page): (cols: seq<seq<Value>>)
    ensures |cols| == RowWidth(page)
    ensures forall j :: 0 <= j < |cols| ==> |cols[j]| == |page|
  {
    seq(RowWidth(page), (j: int) requires 0 <= j < RowWidth(page) => FieldOf(page, j))
  }

  /** The number of rows over all pages. */
  function TotalRows(pages: seq<Page>): nat {
    if pages == [] then 0 else TotalRows(pages[..|pages| - 1]) + |pages[|pages| - 1]|
  }

  /** Field j of every row of every page, pages in fetch order, rows in page order. */
  function FieldAcross(pages: seq<Page>, j: nat): (r: seq<Value>)
    requires forall p :: 0 <= p < |pages| ==> j < RowWidth(pages[p])
    ensures |r| == TotalRows(pages)
  {
    if pages == [] then []
    else FieldAcross(pages[..|pages| - 1], j) + FieldOf(pages[|pages| - 1], j)
  }

  /**
   * What the merge loop relies on: a later page has at least as many fields
   * as the first; otherwise tmp_rows[row_index] is out of range. An empty
   * first page has no fields, so it demands nothing of later pages.
   */
  predicate Mergeable(pages: seq<Page>) {
    |pages| >= 1 && forall p :: 1 <= p < |pages| ==> RowWidth(pages[0]) <= RowWidth(pages[p])
  }

  /**
   * read_bq's fetch loop over the pages in the order they were fetched (the
   * first from fetch_data(), one more per continuation token): column j of
   * the result is field j of all rows of all pages, in fetch order. An empty
   * first page yields no columns, and nothing of later pages is kept.
   */
  method MergePages(pages: seq<Page>) returns (rows: seq<seq<Value>>)
    requires Mergeable(pages)
    ensures |rows| == RowWidth(pages[0])
    ensures pages[0] == [] ==> rows == []
    ensures forall j :: 0 <= j < |rows| ==> rows[j] == FieldAcross(pages, j)
    ensures forall j :: 0 <= j < |rows| ==> |rows[j]| == TotalRows(pages)
  {
    rows := Transpose(pages[0]);
    var next := 1;
    assert pages[..1] == [pages[0]];
    assert forall j :: 0 <= j < |rows| ==> FieldAcross(pages[..1], j) == FieldAcross([], j) + FieldOf(pages[0], j);
    while next < |pages|
      invariant 1 <= next <= |pages|
      invariant |rows| == RowWidth(pages[0])
      invariant forall j :: 0 <= j < |rows| ==> rows[j] == FieldAcross(pages[..next], j)
    {
      var tmpRows := Transpose(pages[next]);
      ghost var done := rows;
      for rowIndex := 0 to |rows|
        invariant |rows| == |done|
        invariant forall j :: 0 <= j < rowIndex ==> rows[j] == done[j] + tmpRows[j]
        invariant forall j :: rowIndex <= j < |rows| ==> rows[j] == done[j]
      {
        rows := rows[rowIndex := rows[rowIndex] + tmpRows[rowIndex]];
      }
      assert pages[..next + 1][..next] == pages[..next];
      next := next + 1;
    }
    assert pages[..|pages|] == pages;
  }
}
