/**
 Estimating how many bytes a scan of a Parquet file reads.

 A row group is skipped, scanned or scanned for a selection of its rows. With an offset
 index, only the pages that hold selected rows are read, and with them the dictionary page.
 */
module Estimator {
  import opened Basics

  datatype Selector = Selector(skip: bool, rowCount: nat)

  datatype Page = Page(offset: int, size: nat, firstRow: nat)

  /** A column chunk; `pages` is absent without an offset index. */
  datatype Chunk = Chunk(root: nat, compressedSize: nat, dictionaryOffset: Option<int>, pages: Option<seq<Page>>)

  datatype RowGroup = RowGroup(numRows: nat, chunks: seq<Chunk>)

  datatype Access = Skip | Scan | Selection(selectors: seq<Selector>)

  /** Rows from `lo` up to but not including `hi`. */
  datatype Rows = Rows(lo: nat, hi: nat)

  // ---- Which rows are selected ----

  predicate IsSelected(selectors: seq<Selector>, row: nat) {
    selectors != [] &&
    if row < selectors[0].rowCount then !selectors[0].skip
    else IsSelected(selectors[1..], row - selectors[0].rowCount)
  }

  function Length(selectors: seq<Selector>): nat {
    if selectors == [] then 0 else selectors[0].rowCount + Length(selectors[1..])
  }

  function SelectedCount(selectors: seq<Selector>): nat {
    if selectors == [] then 0
    else (if selectors[0].skip then 0 else selectors[0].rowCount) + SelectedCount(selectors[1..])
  }

  ghost predicate NoneEmpty(selectors: seq<Selector>) {
    forall s | s in selectors :: s.rowCount > 0
  }

  /** The number of selected rows among the first `n`. */
  function CountSelected(selectors: seq<Selector>, n: nat): nat {
    if n == 0 then 0 else CountSelected(selectors, n - 1) + if IsSelected(selectors, n - 1) then 1 else 0
  }

  lemma {:induction false} CountWithinFirst(selectors: seq<Selector>, n: nat)
    requires selectors != [] && n <= selectors[0].rowCount
    ensures CountSelected(selectors, n) == if selectors[0].skip then 0 else n
  {
    if n > 0 {
      CountWithinFirst(selectors, n - 1);
    }
  }

  lemma {:induction false} CountBeyondFirst(selectors: seq<Selector>, n: nat)
    requires selectors != []
    ensures CountSelected(selectors, selectors[0].rowCount + n)
         == (if selectors[0].skip then 0 else selectors[0].rowCount) + CountSelected(selectors[1..], n)
  {
    if n == 0 {
      CountWithinFirst(selectors, selectors[0].rowCount);
    } else {
      CountBeyondFirst(selectors, n - 1);
      assert selectors[0].rowCount + n - 1 == selectors[0].rowCount + (n - 1);
    }
  }

  /** The row count of a selection is the number of selected rows. */
  lemma {:induction false} SelectedCountIsCardinality(selectors: seq<Selector>)
    ensures SelectedCount(selectors) == CountSelected(selectors, Length(selectors))
  {
    if selectors != [] {
      SelectedCountIsCardinality(selectors[1..]);
      CountBeyondFirst(selectors, Length(selectors[1..]));
    }
  }

  // ---- Pages that are hit ----

  predicate Overlaps(a: Rows, b: Rows) {
    a.lo < b.hi && a.hi > b.lo
  }

  /** Some select run, the first one starting at row `at`, overlaps the rows. */
  predicate Touches(selectors: seq<Selector>, at: nat, rows: Rows) {
    selectors != [] &&
    ((!selectors[0].skip && Overlaps(Rows(at, at + selectors[0].rowCount), rows))
     || Touches(selectors[1..], at + selectors[0].rowCount, rows))
  }

  ghost predicate HoldsSelected(selectors: seq<Selector>, at: nat, rows: Rows) {
    exists row: nat :: rows.lo <= at + row < rows.hi && IsSelected(selectors, row)
  }

  /** A select run of no rows lies strictly inside the rows. */
  predicate EmptySelectInside(selectors: seq<Selector>, at: nat, rows: Rows) {
    selectors != [] &&
    ((!selectors[0].skip && selectors[0].rowCount == 0 && rows.lo < at < rows.hi)
     || EmptySelectInside(selectors[1..], at + selectors[0].rowCount, rows))
  }

  lemma HoldsSelectedSplit(selectors: seq<Selector>, at: nat, rows: Rows)
    requires selectors != []
    ensures HoldsSelected(selectors, at, rows)
         <==> (!selectors[0].skip && selectors[0].rowCount > 0 && rows.lo < rows.hi
               && Overlaps(Rows(at, at + selectors[0].rowCount), rows))
              || HoldsSelected(selectors[1..], at + selectors[0].rowCount, rows)
  {
    var n := selectors[0].rowCount;
    if HoldsSelected(selectors, at, rows) {
      var row: nat :| rows.lo <= at + row < rows.hi && IsSelected(selectors, row);
      if row >= n {
        assert rows.lo <= (at + n) + (row - n) < rows.hi && IsSelected(selectors[1..], row - n);
      }
    }
    if HoldsSelected(selectors[1..], at + n, rows) {
      var row: nat :| rows.lo <= at + n + row < rows.hi && IsSelected(selectors[1..], row);
      assert rows.lo <= at + (n + row) < rows.hi && IsSelected(selectors, n + row);
    }
    if !selectors[0].skip && n > 0 && rows.lo < rows.hi && Overlaps(Rows(at, at + n), rows) {
      var row := if at < rows.lo then rows.lo - at else 0;
      assert rows.lo <= at + row < rows.hi && IsSelected(selectors, row);
    }
  }

  /** The overlap test is exact but for empty select runs, which hit the page they lie in. */
  lemma {:induction false} TouchesIff(selectors: seq<Selector>, at: nat, rows: Rows)
    requires rows.lo < rows.hi
    ensures Touches(selectors, at, rows)
        <==> HoldsSelected(selectors, at, rows) || EmptySelectInside(selectors, at, rows)
  {
    if selectors != [] {
      HoldsSelectedSplit(selectors, at, rows);
      TouchesIff(selectors[1..], at + selectors[0].rowCount, rows);
    }
  }

  lemma {:induction false} NoneEmptyNoneInside(selectors: seq<Selector>, at: nat, rows: Rows)
    requires NoneEmpty(selectors)
    ensures !EmptySelectInside(selectors, at, rows)
  {
    if selectors != [] {
      assert selectors[0] in selectors;
      NoneEmptyNoneInside(selectors[1..], at + selectors[0].rowCount, rows);
    }
  }

  function PageRows(pages: seq<Page>, p: nat, numRows: nat): Rows
    requires p < |pages|
  {
    Rows(pages[p].firstRow, if p + 1 < |pages| then pages[p + 1].firstRow else numRows)
  }

  /** Every page holds at least one row. */
  ghost predicate PagesNonEmpty(pages: seq<Page>, numRows: nat) {
    forall p | 0 <= p < |pages| :: PageRows(pages, p, numRows).lo < PageRows(pages, p, numRows).hi
  }

  // ---- Bytes of a column chunk ----

  /** The bytes of those of the first `n` pages that satisfy a test. */
  ghost function BytesWhere(pages: seq<Page>, n: nat, hit: nat -> bool): nat
    requires n <= |pages|
  {
    if n == 0 then 0 else BytesWhere(pages, n - 1, hit) + if hit(n - 1) then pages[n - 1].size else 0
  }

  ghost function DictionaryBytes(chunk: Chunk): nat {
    match (chunk.dictionaryOffset, chunk.pages)
    case (Some(offset), Some(pages)) => if pages != [] && pages[0].offset > offset then pages[0].offset - offset else 0
    case _ => 0
  }

  ghost function TouchedPages(chunk: Chunk, numRows: nat, selectors: seq<Selector>): nat -> bool
    requires chunk.pages.Some?
  {
    (p: nat) => p < |chunk.pages.value| && Touches(selectors, 0, PageRows(chunk.pages.value, p, numRows))
  }

  ghost function HitPages(chunk: Chunk, numRows: nat, selectors: seq<Selector>): nat -> bool
    requires chunk.pages.Some?
  {
    (p: nat) => p < |chunk.pages.value| && HoldsSelected(selectors, 0, PageRows(chunk.pages.value, p, numRows))
  }

  /** The estimate of a chunk, by the overlap test on pages. */
  ghost function ChunkBytes(chunk: Chunk, numRows: nat, access: Access): nat {
    match access
    case Skip => 0
    case Scan => chunk.compressedSize
    case Selection(selectors) =>
      if chunk.pages.None? then chunk.compressedSize
      else
        var bytes := BytesWhere(chunk.pages.value, |chunk.pages.value|, TouchedPages(chunk, numRows, selectors));
        bytes + if bytes > 0 then DictionaryBytes(chunk) else 0
  }

  lemma {:induction false} BytesWhereMonotone(pages: seq<Page>, n: nat, f: nat -> bool, g: nat -> bool)
    requires n <= |pages| && forall p: nat | p < n :: f(p) ==> g(p)
    ensures BytesWhere(pages, n, f) <= BytesWhere(pages, n, g)
  {
    if n > 0 {
      BytesWhereMonotone(pages, n - 1, f, g);
    }
  }

  lemma {:induction false} BytesWhereIff(pages: seq<Page>, n: nat, f: nat -> bool)
    requires n <= |pages|
    ensures BytesWhere(pages, n, f) > 0 <==> exists p: nat :: p < n && f(p) && pages[p].size > 0
  {
    if n > 0 {
      BytesWhereIff(pages, n - 1, f);
    }
  }

  lemma TouchedIsHit(chunk: Chunk, numRows: nat, selectors: seq<Selector>)
    requires chunk.pages.Some? && PagesNonEmpty(chunk.pages.value, numRows) && NoneEmpty(selectors)
    ensures forall p: nat :: TouchedPages(chunk, numRows, selectors)(p) == HitPages(chunk, numRows, selectors)(p)
  {
    var pages := chunk.pages.value;
    forall p: nat
      ensures TouchedPages(chunk, numRows, selectors)(p) == HitPages(chunk, numRows, selectors)(p)
    {
      if p < |pages| {
        TouchesIff(selectors, 0, PageRows(pages, p, numRows));
        NoneEmptyNoneInside(selectors, 0, PageRows(pages, p, numRows));
      }
    }
  }

  /**
   The estimate is the size of exactly those pages that hold a selected row, and of the
   dictionary page if there is such a page.
   */
  lemma EstimateIsHitPages(chunk: Chunk, numRows: nat, selectors: seq<Selector>)
    requires chunk.pages.Some? && PagesNonEmpty(chunk.pages.value, numRows) && NoneEmpty(selectors)
    requires forall p | p in chunk.pages.value :: p.size > 0
    ensures var pages, hit := chunk.pages.value, HitPages(chunk, numRows, selectors);
            ChunkBytes(chunk, numRows, Selection(selectors))
            == BytesWhere(pages, |pages|, hit)
               + if exists p: nat :: p < |pages| && hit(p) then DictionaryBytes(chunk) else 0
  {
    var pages := chunk.pages.value;
    var touched, hit := TouchedPages(chunk, numRows, selectors), HitPages(chunk, numRows, selectors);
    TouchedIsHit(chunk, numRows, selectors);
    BytesWhereMonotone(pages, |pages|, touched, hit);
    BytesWhereMonotone(pages, |pages|, hit, touched);
    BytesWhereIff(pages, |pages|, hit);
    assert forall p: nat | p < |pages| :: pages[p] in pages;
  }

  /** An empty select run inside a page counts the page although no row is selected. */
  lemma EmptySelectCountsPage()
    ensures var chunk, selectors :=
              Chunk(0, 7, None, Some([Page(0, 7, 0)])), [Selector(true, 1), Selector(false, 0), Selector(true, 1)];
            SelectedCount(selectors) == 0 && ChunkBytes(chunk, 2, Selection(selectors)) == 7
  {
    var pages := [Page(0, 7, 0)];
    var chunk, selectors := Chunk(0, 7, None, Some(pages)), [Selector(true, 1), Selector(false, 0), Selector(true, 1)];
    assert selectors[1..] == [Selector(false, 0), Selector(true, 1)];
    assert selectors[1..][1..] == [Selector(true, 1)];
    assert SelectedCount([Selector(true, 1)]) == 0;
    assert PageRows(pages, 0, 2) == Rows(0, 2);
    assert Touches(selectors[1..], 1, Rows(0, 2));
    assert Touches(selectors, 0, Rows(0, 2));
    assert TouchedPages(chunk, 2, selectors)(0);
    assert BytesWhere(pages, 1, TouchedPages(chunk, 2, selectors)) == 7 by {
      assert BytesWhere(pages, 0, TouchedPages(chunk, 2, selectors)) == 0;
    }
  }

  /** Selecting more rows never lowers the estimate. */
  lemma EstimateMonotone(chunk: Chunk, numRows: nat, few: seq<Selector>, many: seq<Selector>)
    requires chunk.pages.Some? ==> PagesNonEmpty(chunk.pages.value, numRows)
    requires NoneEmpty(few) && NoneEmpty(many)
    requires forall row: nat | IsSelected(few, row) :: IsSelected(many, row)
    ensures ChunkBytes(chunk, numRows, Selection(few)) <= ChunkBytes(chunk, numRows, Selection(many))
  {
    if chunk.pages.Some? {
      var pages := chunk.pages.value;
      TouchedIsHit(chunk, numRows, few);
      TouchedIsHit(chunk, numRows, many);
      forall p: nat | p < |pages| && HitPages(chunk, numRows, few)(p)
        ensures HitPages(chunk, numRows, many)(p)
      {
        var rows := PageRows(pages, p, numRows);
        var row: nat :| rows.lo <= 0 + row < rows.hi && IsSelected(few, row);
        assert IsSelected(many, row);
      }
      BytesWhereMonotone(pages, |pages|, TouchedPages(chunk, numRows, few), TouchedPages(chunk, numRows, many));
    }
  }

  /**
   The dictionary page, if any, and the data pages follow each other without gaps and make
   up the chunk.
   */
  ghost predicate Contiguous(chunk: Chunk) {
    chunk.pages.Some? ==>
      var pages := chunk.pages.value;
      && (forall p | 0 <= p < |pages| - 1 :: pages[p + 1].offset == pages[p].offset + pages[p].size)
      && (pages == [] ||
          var start := if chunk.dictionaryOffset.Some? then chunk.dictionaryOffset.value else pages[0].offset;
          start <= pages[0].offset
          && pages[|pages| - 1].offset + pages[|pages| - 1].size == start + chunk.compressedSize)
  }

  lemma {:induction false} ContiguousSum(pages: seq<Page>, n: nat)
    requires forall p | 0 <= p < |pages| - 1 :: pages[p + 1].offset == pages[p].offset + pages[p].size
    requires 0 < n <= |pages|
    ensures BytesWhere(pages, n, _ => true) == pages[n - 1].offset + pages[n - 1].size - pages[0].offset
  {
    if n > 1 {
      ContiguousSum(pages, n - 1);
      assert pages[(n - 2) + 1].offset == pages[n - 2].offset + pages[n - 2].size;
    } else {
      assert BytesWhere(pages, 0, _ => true) == 0;
    }
  }

  /** No access is estimated to read more than the chunk, and reading every page reads the chunk. */
  lemma EstimateWithinChunk(chunk: Chunk, numRows: nat, access: Access)
    requires Contiguous(chunk)
    ensures ChunkBytes(chunk, numRows, access) <= chunk.compressedSize
    ensures access.Selection? && chunk.pages.Some? && chunk.compressedSize > DictionaryBytes(chunk)
            && chunk.pages.value != []
            && (forall p: nat | p < |chunk.pages.value| :: TouchedPages(chunk, numRows, access.selectors)(p))
            ==> ChunkBytes(chunk, numRows, access) == chunk.compressedSize
  {
    if access.Selection? && chunk.pages.Some? && chunk.pages.value != [] {
      var pages := chunk.pages.value;
      var touched := TouchedPages(chunk, numRows, access.selectors);
      ContiguousSum(pages, |pages|);
      BytesWhereMonotone(pages, |pages|, touched, _ => true);
      if forall p: nat | p < |pages| :: touched(p) {
        BytesWhereMonotone(pages, |pages|, _ => true, touched);
      }
    }
  }

  // ---- The estimator ----

  ghost predicate InSome(ranges: seq<Rows>, rows: Rows) {
    exists k :: 0 <= k < |ranges| && Overlaps(ranges[k], rows)
  }

  lemma {:induction false} TouchesSnoc(selectors: seq<Selector>, last: Selector, at: nat, rows: Rows)
    ensures Touches(selectors + [last], at, rows)
         <==> Touches(selectors, at, rows)
              || (!last.skip && Overlaps(Rows(at + Length(selectors), at + Length(selectors) + last.rowCount), rows))
    ensures Length(selectors + [last]) == Length(selectors) + last.rowCount
  {
    if selectors == [] {
      assert selectors + [last] == [last];
      assert Length([last][1..]) == 0;
    } else {
      assert (selectors + [last])[1..] == selectors[1..] + [last];
      TouchesSnoc(selectors[1..], last, at + selectors[0].rowCount, rows);
    }
  }

  /** The selected rows as ranges. */
  method SelectedRanges(selectors: seq<Selector>) returns (ranges: seq<Rows>)
    ensures forall rows: Rows :: InSome(ranges, rows) <==> Touches(selectors, 0, rows)
  {
    ranges := [];
    var currentRow: nat := 0;
    for n := 0 to |selectors|
      invariant currentRow == Length(selectors[..n])
      invariant forall rows: Rows :: InSome(ranges, rows) <==> Touches(selectors[..n], 0, rows)
    {
      var selector := selectors[n];
      ghost var before := ranges;
      ghost var start := currentRow;
      if !selector.skip {
        ranges := ranges + [Rows(currentRow, currentRow + selector.rowCount)];
      }
      currentRow := currentRow + selector.rowCount;
      assert selectors[..n + 1] == selectors[..n] + [selector];
      forall rows: Rows ensures InSome(ranges, rows) <==> Touches(selectors[..n + 1], 0, rows) {
        TouchesSnoc(selectors[..n], selector, 0, rows);
        InSomeSnoc(before, Rows(start, start + selector.rowCount), rows);
      }
      TouchesSnoc(selectors[..n], selector, 0, Rows(0, 0));
    }
    assert selectors[..|selectors|] == selectors;
  }

  lemma InSomeSnoc(ranges: seq<Rows>, last: Rows, rows: Rows)
    ensures InSome(ranges + [last], rows) <==> InSome(ranges, rows) || Overlaps(last, rows)
  {
    var longer := ranges + [last];
    if InSome(ranges, rows) {
      var k :| 0 <= k < |ranges| && Overlaps(ranges[k], rows);
      assert longer[k] == ranges[k];
    }
    if Overlaps(last, rows) {
      assert longer[|ranges|] == last;
    }
  }

  method AnyOverlap(ranges: seq<Rows>, rows: Rows) returns (r: bool)
    ensures r <==> InSome(ranges, rows)
  {
    for k := 0 to |ranges|
      invariant forall j :: 0 <= j < k ==> !Overlaps(ranges[j], rows)
    {
      if Overlaps(ranges[k], rows) {
        return true;
      }
    }
    return false;
  }

  /** The estimate of a chunk of a row group. */
  method EstimateChunk(chunk: Chunk, numRows: nat, access: Access) returns (bytes: nat)
    ensures bytes == ChunkBytes(chunk, numRows, access)
  {
    match access {
      case Skip => bytes := 0;
      case Scan => bytes := chunk.compressedSize;
      case Selection(selectors) =>
        if chunk.pages.None? {
          bytes := chunk.compressedSize;
        } else {
          bytes := EstimatePages(chunk, numRows, selectors);
        }
    }
  }

  method EstimatePages(chunk: Chunk, numRows: nat, selectors: seq<Selector>) returns (bytes: nat)
    requires chunk.pages.Some?
    ensures bytes == ChunkBytes(chunk, numRows, Selection(selectors))
  {
    var pages := chunk.pages.value;
    var ranges := SelectedRanges(selectors);
    bytes := 0;
    for p := 0 to |pages|
      invariant bytes == BytesWhere(pages, p, TouchedPages(chunk, numRows, selectors))
    {
      var hit := AnyOverlap(ranges, PageRows(pages, p, numRows));
      if hit {
        bytes := bytes + pages[p].size;
      }
    }
    if bytes > 0 && chunk.dictionaryOffset.Some? && pages != [] && pages[0].offset > chunk.dictionaryOffset.value {
      bytes := bytes + (pages[0].offset - chunk.dictionaryOffset.value);
    }
  }

  // ---- Totals over row groups and columns ----

  ghost function GroupBytes(group: RowGroup, access: Access, n: nat): nat
    requires n <= |group.chunks|
  {
    if n == 0 then 0 else GroupBytes(group, access, n - 1) + ChunkBytes(group.chunks[n - 1], group.numRows, access)
  }

  /** The bytes of the leaf chunks below one top-level column. */
  ghost function GroupColumnBytes(group: RowGroup, access: Access, n: nat, column: nat): nat
    requires n <= |group.chunks|
  {
    if n == 0 then 0
    else
      GroupColumnBytes(group, access, n - 1, column)
      + if group.chunks[n - 1].root == column then ChunkBytes(group.chunks[n - 1], group.numRows, access) else 0
  }

  ghost function FileBytes(groups: seq<RowGroup>, accesses: seq<Access>, n: nat): nat
    requires n <= |groups| == |accesses|
  {
    if n == 0 then 0
    else FileBytes(groups, accesses, n - 1) + GroupBytes(groups[n - 1], accesses[n - 1], |groups[n - 1].chunks|)
  }

  ghost function FileColumnBytes(groups: seq<RowGroup>, accesses: seq<Access>, n: nat, column: nat): nat
    requires n <= |groups| == |accesses|
  {
    if n == 0 then 0
    else
      FileColumnBytes(groups, accesses, n - 1, column)
      + GroupColumnBytes(groups[n - 1], accesses[n - 1], |groups[n - 1].chunks|, column)
  }

  /** The rows read from a row group. */
  function GroupRows(group: RowGroup, access: Access): nat {
    match access
    case Skip => 0
    case Scan => group.numRows
    case Selection(selectors) => SelectedCount(selectors)
  }

  ghost function FileRows(groups: seq<RowGroup>, accesses: seq<Access>, n: nat): nat
    requires n <= |groups| == |accesses|
  {
    if n == 0 then 0 else FileRows(groups, accesses, n - 1) + GroupRows(groups[n - 1], accesses[n - 1])
  }

  lemma {:induction false} SumZeros(n: nat)
    ensures Sum(seq(n, _ => 0)) == 0
  {
    if n > 0 {
      assert seq(n, _ => 0)[1..] == seq(n - 1, _ => 0);
      SumZeros(n - 1);
    }
  }

  ghost predicate RootsWithin(groups: seq<RowGroup>, numColumns: nat) {
    forall g | g in groups :: forall c | c in g.chunks :: c.root < numColumns
  }

  /** Adds the estimates of a row group to the columns. */
  method EstimateGroup(group: RowGroup, access: Access, columns: seq<nat>) returns (r: seq<nat>, bytes: nat)
    requires forall c | c in group.chunks :: c.root < |columns|
    ensures |r| == |columns| && Sum(r) == Sum(columns) + bytes
    ensures bytes == GroupBytes(group, access, |group.chunks|)
    ensures forall c: nat | c < |columns| :: r[c] == columns[c] + GroupColumnBytes(group, access, |group.chunks|, c)
  {
    r, bytes := columns, 0;
    for n := 0 to |group.chunks|
      invariant |r| == |columns| && Sum(r) == Sum(columns) + bytes
      invariant bytes == GroupBytes(group, access, n)
      invariant forall c: nat | c < |columns| :: r[c] == columns[c] + GroupColumnBytes(group, access, n, c)
    {
      var chunk := group.chunks[n];
      var b := EstimateChunk(chunk, group.numRows, access);
      SumUpdate(r, chunk.root, r[chunk.root] + b);
      r := r[chunk.root := r[chunk.root] + b];
      bytes := bytes + b;
    }
  }

  datatype Estimate = Estimate(columns: seq<nat>, bytes: Precision<nat>, rows: Precision<nat>)

  /**
   The estimate of a file: the bytes of each column over all row groups, whose sum is the
   total unless no row is read at all, which is reported as exactly nothing.
   */
  method EstimateScan(groups: seq<RowGroup>, accesses: seq<Access>, numColumns: nat) returns (r: Estimate)
    requires |groups| == |accesses| && RootsWithin(groups, numColumns)
    ensures |r.columns| == numColumns
    ensures forall c: nat | c < numColumns :: r.columns[c] == FileColumnBytes(groups, accesses, |groups|, c)
    ensures Sum(r.columns) == FileBytes(groups, accesses, |groups|)
    ensures !r.rows.Absent? && !r.bytes.Absent?
    ensures r.rows.value == FileRows(groups, accesses, |groups|)
    ensures r.rows.Exact? <==> FileRows(groups, accesses, |groups|) == 0
    ensures r.bytes.Exact? <==> FileRows(groups, accesses, |groups|) == 0
    ensures r.bytes.value == Sum(r.columns)
            <==> (FileRows(groups, accesses, |groups|) > 0 || FileBytes(groups, accesses, |groups|) == 0)
  {
    SumZeros(numColumns);
    var columns, rowCount: nat, scanned: nat, matching := seq(numColumns, _ => 0), 0, 0, false;
    for n := 0 to |groups|
      invariant |columns| == numColumns && Sum(columns) == scanned == FileBytes(groups, accesses, n)
      invariant forall c: nat | c < numColumns :: columns[c] == FileColumnBytes(groups, accesses, n, c)
      invariant rowCount == FileRows(groups, accesses, n) && (matching <==> rowCount > 0)
    {
      var group, access := groups[n], accesses[n];
      assert group in groups;
      if access.Skip? {
        SkippedGroup(group, |group.chunks|);
      } else {
        var bytes;
        columns, bytes := EstimateGroup(group, access, columns);
        scanned := scanned + bytes;
        var rows := GroupRows(group, access);
        if rows > 0 {
          rowCount, matching := rowCount + rows, true;
        }
      }
    }
    r := if matching then Estimate(columns, Inexact(scanned), Inexact(rowCount))
         else Estimate(columns, Exact(0), Exact(0));
  }

  lemma {:induction false} SkippedGroup(group: RowGroup, n: nat)
    requires n <= |group.chunks|
    ensures GroupBytes(group, Skip, n) == 0
    ensures forall c: nat :: GroupColumnBytes(group, Skip, n, c) == 0
  {
    if n > 0 {
      SkippedGroup(group, n - 1);
    }
  }

  function CompressedSizes(group: RowGroup): seq<nat> {
    seq(|group.chunks|, i requires 0 <= i < |group.chunks| => group.chunks[i].compressedSize)
  }

  lemma {:induction false} SumPrefix(s: seq<nat>, n: nat)
    requires n < |s|
    ensures Sum(s[..n + 1]) == Sum(s[..n]) + s[n]
  {
    if n > 0 {
      SumPrefix(s[1..], n - 1);
      assert s[..n + 1][1..] == s[1..][..n] && s[..n][1..] == s[1..][..n - 1];
    } else {
      assert s[..1] == [s[0]] && s[..1][1..] == [];
    }
  }

  lemma {:induction false} WholeChunks(group: RowGroup, access: Access, n: nat)
    requires n <= |group.chunks| && !access.Skip?
    requires access.Selection? ==> forall c | c in group.chunks :: c.pages.None?
    ensures GroupBytes(group, access, n) == Sum(CompressedSizes(group)[..n])
  {
    if n > 0 {
      WholeChunks(group, access, n - 1);
      assert group.chunks[n - 1] in group.chunks;
      SumPrefix(CompressedSizes(group), n - 1);
    }
  }

  /**
   Scanning a row group, or selecting from it without an offset index, reports the sum of
   the compressed sizes of its chunks.
   */
  lemma ScanReportsWholeGroup(group: RowGroup, access: Access)
    requires !access.Skip? && (access.Selection? ==> forall c | c in group.chunks :: c.pages.None?)
    ensures GroupBytes(group, access, |group.chunks|) == Sum(CompressedSizes(group))
  {
    WholeChunks(group, access, |group.chunks|);
    assert CompressedSizes(group)[..|group.chunks|] == CompressedSizes(group);
  }

  /** A chunk that is counted as a whole: the group is scanned, or there is no offset index. */
  ghost predicate CountedWhole(chunk: Chunk, access: Access) {
    && !access.Skip?
    && (access.Scan? || chunk.pages.None?)
    && chunk.compressedSize > 0
  }

  /** A chunk that is charged for a page of which no row is read: an empty select run lies inside it. */
  ghost predicate CountedForEmptyRun(chunk: Chunk, numRows: nat, access: Access) {
    && access.Selection? && chunk.pages.Some?
    && exists p: nat :: p < |chunk.pages.value| && ChargedPage(chunk.pages.value, p, numRows, access.selectors)
  }

  ghost predicate ChargedPage(pages: seq<Page>, p: nat, numRows: nat, selectors: seq<Selector>)
    requires p < |pages|
  {
    pages[p].size > 0 && EmptySelectInside(selectors, 0, PageRows(pages, p, numRows))
  }

  /** If nothing is selected, only empty select runs pass the overlap test. */
  lemma {:induction false} NothingSelectedTouches(selectors: seq<Selector>, at: nat, rows: Rows)
    requires SelectedCount(selectors) == 0
    ensures Touches(selectors, at, rows) <==> EmptySelectInside(selectors, at, rows)
  {
    if selectors != [] {
      NothingSelectedTouches(selectors[1..], at + selectors[0].rowCount, rows);
    }
  }

  lemma ChunkWithoutRows(chunk: Chunk, numRows: nat, access: Access)
    requires access.Selection? ==> SelectedCount(access.selectors) == 0
    ensures ChunkBytes(chunk, numRows, access) > 0
       <==> CountedWhole(chunk, access) || CountedForEmptyRun(chunk, numRows, access)
  {
    if access.Selection? && chunk.pages.Some? {
      var pages, selectors := chunk.pages.value, access.selectors;
      var touched := TouchedPages(chunk, numRows, selectors);
      BytesWhereIff(pages, |pages|, touched);
      forall p: nat | p < |pages|
        ensures touched(p) && pages[p].size > 0 <==> ChargedPage(pages, p, numRows, selectors)
      {
        NothingSelectedTouches(selectors, 0, PageRows(pages, p, numRows));
      }
    }
  }

  /** A chunk of a group that is not skipped reports bytes although no row is read. */
  ghost predicate CountedWithoutRows(group: RowGroup, access: Access, k: nat)
    requires k < |group.chunks|
  {
    CountedWhole(group.chunks[k], access) || CountedForEmptyRun(group.chunks[k], group.numRows, access)
  }

  lemma {:induction false} GroupWithoutRows(group: RowGroup, access: Access, n: nat)
    requires n <= |group.chunks| && GroupRows(group, access) == 0
    ensures GroupBytes(group, access, n) > 0 <==> exists k: nat :: k < n && CountedWithoutRows(group, access, k)
  {
    if n > 0 {
      GroupWithoutRows(group, access, n - 1);
      ChunkWithoutRows(group.chunks[n - 1], group.numRows, access);
      assert ChunkBytes(group.chunks[n - 1], group.numRows, access) > 0 <==> CountedWithoutRows(group, access, n - 1);
    }
  }

  /**
   For a scan that reads no row, the columns still report bytes, unlike the total, if and
   only if some chunk of a group that is not skipped is counted as a whole, or for a page
   with an empty select run inside.
   */
  lemma {:induction false} BytesWithoutRowsIff(groups: seq<RowGroup>, accesses: seq<Access>, n: nat)
    requires n <= |groups| == |accesses| && FileRows(groups, accesses, n) == 0
    ensures FileBytes(groups, accesses, n) > 0
       <==> exists g: nat, k: nat :: g < n && k < |groups[g].chunks| && CountedWithoutRows(groups[g], accesses[g], k)
  {
    if n > 0 {
      BytesWithoutRowsIff(groups, accesses, n - 1);
      GroupWithoutRows(groups[n - 1], accesses[n - 1], |groups[n - 1].chunks|);
    }
  }

  /** Without an offset index a selection of no rows still counts its chunks. */
  lemma EmptySelectionKeepsColumnBytes()
    ensures var group := RowGroup(5, [Chunk(0, 9, None, None)]);
            FileRows([group], [Selection([Selector(true, 5)])], 1) == 0
            && FileBytes([group], [Selection([Selector(true, 5)])], 1) == 9
  {
    var group, selectors := RowGroup(5, [Chunk(0, 9, None, None)]), [Selector(true, 5)];
    assert selectors[1..] == [];
    assert SelectedCount(selectors) == 0;
    assert GroupBytes(group, Selection(selectors), 0) == 0;
    assert GroupBytes(group, Selection(selectors), 1) == 9;
    assert FileRows([group], [Selection(selectors)], 0) == 0;
    assert FileBytes([group], [Selection(selectors)], 0) == 0;
  }
}
