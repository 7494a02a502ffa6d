/** The sheet extractor (`extract_cells_from_sheet`): one named block per
    configured reference, in order. A range "A1:C3" gives the rectangle
    between its corners (in either order), clamped to the sheet, with columns
    named "<ref>_Col1" ... "<ref>_ColN"; a single cell gives a one-by-one
    block named after the reference whose value is absent when the cell lies
    outside the sheet. */
module SheetExtractor {
  import opened Outcomes
  import opened PyStr
  import opened CellReference

  /** A sheet read header-less: rows of cell values, row 0 first. */
  type Grid<V> = seq<seq<V>>

  function Width<V>(grid: Grid<V>): nat {
    if grid == [] then 0 else |grid[0]|
  }

  /** A data frame is rectangular: every row has the frame's width. */
  ghost predicate Rectangular<V>(grid: Grid<V>) {
    forall i :: 0 <= i < |grid| ==> |grid[i]| == Width(grid)
  }

  /** An extraction block: column names and rows of values; `None` is the
      absent value an out-of-range single cell reads as. */
  datatype Block<V> = Block(columns: seq<string>, rows: seq<seq<Option<V>>>)

  ghost predicate WellFormed<V>(b: Block<V>) {
    forall i :: 0 <= i < |b.rows| ==> |b.rows[i]| == |b.columns|
  }

  ghost predicate DistinctColumns<V>(b: Block<V>) {
    forall i, j :: 0 <= i < j < |b.columns| ==> b.columns[i] != b.columns[j]
  }

  function Min(a: int, b: int): int { if a <= b then a else b }
  function Max(a: int, b: int): int { if a <= b then b else a }

  /** Positional access as `iat` does it: a negative index counts from the
      end; anything else outside the axis is an `IndexError` (None). */
  function Position(i: int, n: nat): (p: Option<nat>)
    ensures p.Some? <==> 0 <= i + n && i < n
    ensures p.Some? ==> p.value < n && p.value as int == (if i < 0 then i + n else i)
  {
    if 0 <= i < n then Some(i) else if 0 <= i + n && i < 0 then Some(i + n) else None
  }

  /** `df.iat[row, col]`, with its `IndexError` turned into an absent value. */
  function CellAt<V>(grid: Grid<V>, row: int, col: int): (v: Option<V>)
    requires Rectangular(grid)
    ensures 0 <= row < |grid| && 0 <= col < Width(grid) ==> v == Some(grid[row][col])
    ensures row >= |grid| || row + |grid| < 0 || col >= Width(grid) || col + Width(grid) < 0 ==> v == None
  {
    match (Position(row, |grid|), Position(col, Width(grid)))
    case (Some(r), Some(c)) => Some(grid[r][c])
    case _ => None
  }

  /** A slice endpoint as Python normalises it on an axis of length `n`. */
  function SliceEnd(i: int, n: nat): (k: nat)
    ensures k <= n
    ensures 0 <= i ==> k == Min(i, n)
  {
    if i < 0 then (if i + n < 0 then 0 else i + n) else if i > n then n else i
  }

  /** The positions `[lo, hi)` that the slice `start:stop` selects on an axis
      of length `n`; never out of range, possibly empty. */
  function SliceBounds(start: int, stop: int, n: nat): (b: (nat, nat))
    ensures b.0 <= b.1 <= n
    ensures 0 <= start <= stop ==> b == (Min(start, n), Min(stop, n))
  {
    var lo := SliceEnd(start, n);
    var hi := SliceEnd(stop, n);
    (lo, if hi < lo then lo else hi)
  }

  /** `df.iloc[r0:r1, c0:c1]`: the values of the selected sub-rectangle. */
  function ILoc<V>(grid: Grid<V>, r0: int, r1: int, c0: int, c1: int): (f: Grid<V>)
    requires Rectangular(grid)
  {
    var rows := SliceBounds(r0, r1, |grid|);
    var cols := SliceBounds(c0, c1, Width(grid));
    seq(rows.1 - rows.0, i requires 0 <= i < rows.1 - rows.0 =>
      grid[rows.0 + i][cols.0..cols.1])
  }

  /** `df.iloc[:, c0:c1].shape[1]`: how many columns the slice keeps. */
  function ILocWidth<V>(grid: Grid<V>, c0: int, c1: int): nat {
    var cols := SliceBounds(c0, c1, Width(grid));
    cols.1 - cols.0
  }

  /** The name of the `n`-th column (1-based) of range block `ref`. */
  function RangeColumnName(ref: string, n: nat): string {
    ref + "_Col" + DecimalString(n)
  }

  /** The names given to the `count` columns of range block `ref`. */
  function NumberedColumns(ref: string, count: nat): (names: seq<string>)
    ensures |names| == count
    ensures forall j :: 0 <= j < count ==> names[j] == RangeColumnName(ref, j + 1)
  {
    if count == 0 then [] else NumberedColumns(ref, count - 1) + [RangeColumnName(ref, count)]
  }

  /** No two columns of a range block share a name. */
  lemma NumberedColumnsDistinct(ref: string, count: nat)
    ensures forall i, j :: 0 <= i < j < count ==>
              NumberedColumns(ref, count)[i] != NumberedColumns(ref, count)[j]
  {
    var names := NumberedColumns(ref, count);
    forall i, j | 0 <= i < j < count ensures names[i] != names[j] {
      if names[i] == names[j] {
        var p := ref + "_Col";
        assert names[i][|p|..] == DecimalString(i + 1);
        assert names[j][|p|..] == DecimalString(j + 1);
        DecimalStringInjective(i + 1, j + 1);
      }
    }
  }

  /** Every value of a frame, as present. */
  function Present<V>(f: Grid<V>): (rows: seq<seq<Option<V>>>)
    ensures |rows| == |f|
    ensures forall i :: 0 <= i < |f| ==> |rows[i]| == |f[i]|
    ensures forall i, j :: 0 <= i < |f| && 0 <= j < |f[i]| ==> rows[i][j] == Some(f[i][j])
  {
    seq(|f|, i requires 0 <= i < |f| => seq(|f[i]|, j requires 0 <= j < |f[i]| => Some(f[i][j])))
  }

  /** The block of range `ref` whose corners resolved to `first` and `last`:
      corners normalised with min/max, both inclusive. */
  function RangeBlock<V>(grid: Grid<V>, ref: string, first: (int, int), last: (int, int)): Block<V>
    requires Rectangular(grid)
  {
    RectBlock(grid, ref, Min(first.0, last.0), Max(first.0, last.0), Min(first.1, last.1), Max(first.1, last.1))
  }

  /** `df.iloc[r0:rEnd+1, c0:cEnd+1]` with its columns renamed. */
  function RectBlock<V>(grid: Grid<V>, ref: string, r0: int, rEnd: int, c0: int, cEnd: int): Block<V>
    requires Rectangular(grid)
  {
    Block(NumberedColumns(ref, ILocWidth(grid, c0, cEnd + 1)), Present(ILoc(grid, r0, rEnd + 1, c0, cEnd + 1)))
  }

  /** The block of single cell `ref` resolved to `at`. */
  function SingleBlock<V>(grid: Grid<V>, ref: string, at: (int, int)): Block<V>
    requires Rectangular(grid)
  {
    Block([ref], [[CellAt(grid, at.0, at.1)]])
  }

  /** The block one reference yields, or the error it raises. The reference
      is stripped first; the stripped text names the block. */
  function ExtractOne<V>(grid: Grid<V>, raw: string): Result<Block<V>, RefError>
    requires Rectangular(grid)
  {
    var ref := Strip(raw);
    if ':' in ref then ExtractRange(grid, ref) else ExtractSingle(grid, ref)
  }

  /** A range reference: it must split into exactly two corners, each of
      which must resolve. */
  function ExtractRange<V>(grid: Grid<V>, ref: string): Result<Block<V>, RefError>
    requires Rectangular(grid)
  {
    var parts := Split(ref, ':');
    if |parts| != 2 then Failure(TooManyValuesToUnpack(ref))
    else match Indices(parts[0])
      case Failure(e) => Failure(e)
      case Success(first) =>
        match Indices(parts[1])
        case Failure(e) => Failure(e)
        case Success(last) => Success(RangeBlock(grid, ref, first, last))
  }

  /** A single-cell reference: it must resolve; reading never raises. */
  function ExtractSingle<V>(grid: Grid<V>, ref: string): Result<Block<V>, RefError>
    requires Rectangular(grid)
  {
    match Indices(ref)
    case Failure(e) => Failure(e)
    case Success(at) => Success(SingleBlock(grid, ref, at))
  }

  /** What each reference yields, in order. */
  function RefOutcomes<V>(grid: Grid<V>, refs: seq<string>): (rs: seq<Result<Block<V>, RefError>>)
    requires Rectangular(grid)
    ensures |rs| == |refs|
    ensures forall i :: 0 <= i < |refs| ==> rs[i] == ExtractOne(grid, refs[i])
  {
    seq(|refs|, i requires 0 <= i < |refs| => ExtractOne(grid, refs[i]))
  }

  /** The blocks of a reference list, in order, or the error of the first
      reference that raises. */
  function Extract<V>(grid: Grid<V>, refs: seq<string>): Result<seq<Block<V>>, RefError>
    requires Rectangular(grid)
  {
    Collect(RefOutcomes(grid, refs))
  }

  /** One block per reference, in order, each the block of that reference. */
  lemma ExtractSuccess<V>(grid: Grid<V>, refs: seq<string>)
    requires Rectangular(grid)
    requires Extract(grid, refs).Success?
    ensures |Extract(grid, refs).value| == |refs|
    ensures forall i :: 0 <= i < |refs| ==> ExtractOne(grid, refs[i]) == Success(Extract(grid, refs).value[i])
  {
    CollectSuccess(RefOutcomes(grid, refs));
  }

  /** The error is that of the first reference that raises: every earlier
      one succeeded. */
  lemma ExtractFailure<V>(grid: Grid<V>, refs: seq<string>)
    requires Rectangular(grid)
    requires Extract(grid, refs).Failure?
    ensures exists i :: 0 <= i < |refs| && ExtractOne(grid, refs[i]) == Failure(Extract(grid, refs).error)
                        && forall j :: 0 <= j < i ==> ExtractOne(grid, refs[j]).Success?
  {
    CollectFailure(RefOutcomes(grid, refs));
  }

  /** Once a prefix of the list raises, the whole list raises the same error. */
  lemma ExtractFailurePersists<V>(grid: Grid<V>, refs: seq<string>, k: nat)
    requires Rectangular(grid)
    requires k <= |refs| && Extract(grid, refs[..k]).Failure?
    ensures Extract(grid, refs) == Extract(grid, refs[..k])
  {
    assert RefOutcomes(grid, refs)[..k] == RefOutcomes(grid, refs[..k]);
    CollectFailurePersists(RefOutcomes(grid, refs), k);
  }

  /** Extraction goes reference by reference. */
  lemma ExtractStep<V>(grid: Grid<V>, refs: seq<string>, k: nat)
    requires Rectangular(grid)
    requires k < |refs|
    ensures Extract(grid, refs[..k + 1])
            == match Extract(grid, refs[..k])
               case Failure(e) => Failure(e)
               case Success(blocks) =>
                 match ExtractOne(grid, refs[k])
                 case Failure(e) => Failure(e)
                 case Success(b) => Success(blocks + [b])
  {
    var rs := RefOutcomes(grid, refs[..k + 1]);
    assert rs[..k] == RefOutcomes(grid, refs[..k]);
    assert rs[k] == ExtractOne(grid, refs[k]);
  }

  /** A range block: the rectangle is sliced out of the frame and its columns
      are renamed one by one. */
  method SliceRange<V>(grid: Grid<V>, cellRef: string, start: (int, int), end: (int, int))
    returns (block: Block<V>)
    requires Rectangular(grid)
    ensures block == RangeBlock(grid, cellRef, start, end)
  {
    var rowStart, rowEnd := Min(start.0, end.0), Max(start.0, end.0);
    var colStart, colEnd := Min(start.1, end.1), Max(start.1, end.1);
    var frame := ILoc(grid, rowStart, rowEnd + 1, colStart, colEnd + 1);
    var colCount := ILocWidth(grid, colStart, colEnd + 1);
    var colNames: seq<string> := [];
    for i := 0 to colCount
      invariant colNames == NumberedColumns(cellRef, i)
    {
      colNames := colNames + [RangeColumnName(cellRef, i + 1)];
    }
    block := Block(colNames, Present(frame));
  }

  /** One reference: the body of the loop of `extract_cells_from_sheet`. */
  method ExtractBlock<V>(grid: Grid<V>, raw: string) returns (r: Result<Block<V>, RefError>)
    requires Rectangular(grid)
    ensures r == ExtractOne(grid, raw)
  {
    var cellRef := Strip(raw);
    if ':' in cellRef {
      var parts := Split(cellRef, ':');
      if |parts| != 2 {
        return Failure(TooManyValuesToUnpack(cellRef));
      }
      var startCell, endCell := parts[0], parts[1];
      var start := ExcelCellToIndices(startCell);
      if start.Failure? {
        return Failure(start.error);
      }
      var end := ExcelCellToIndices(endCell);
      if end.Failure? {
        return Failure(end.error);
      }
      var block := SliceRange(grid, cellRef, start.value, end.value);
      r := Success(block);
    } else {
      var at := ExcelCellToIndices(cellRef);
      if at.Failure? {
        return Failure(at.error);
      }
      var value := CellAt(grid, at.value.0, at.value.1);
      r := Success(Block([cellRef], [[value]]));
    }
  }

  /** `extract_cells_from_sheet`: blocks are appended one reference at a time;
      the first reference that raises ends the call with its error. */
  method ExtractCellsFromSheet<V>(grid: Grid<V>, cells: seq<string>)
    returns (r: Result<seq<Block<V>>, RefError>)
    requires Rectangular(grid)
    ensures r == Extract(grid, cells)
  {
    var extractedBlocks: seq<Block<V>> := [];
    assert RefOutcomes(grid, cells[..0]) == [];
    for i := 0 to |cells|
      invariant Extract(grid, cells[..i]) == Success(extractedBlocks)
    {
      var block := ExtractBlock(grid, cells[i]);
      ExtractStep(grid, cells, i);
      if block.Failure? {
        ExtractFailurePersists(grid, cells, i + 1);
        return Failure(block.error);
      }
      extractedBlocks := extractedBlocks + [block.value];
    }
    assert cells[..|cells|] == cells;
    r := Success(extractedBlocks);
  }

  /** How many of the positions `start` ... `end` (inclusive, `start` not
      negative) lie on an axis of length `n`. */
  function ClampedSpan(start: nat, end: int, n: nat): nat {
    if start >= n || end < start then 0 else Min(end + 1, n) - start
  }

  /** A range block (row numbers at least 1) holds exactly the cells of the
      rectangle between its corners that lie on the sheet, row by row and
      left to right, and names its columns "<ref>_Col1" ... "<ref>_ColN". */
  lemma RangeBlockCovers<V>(grid: Grid<V>, ref: string, first: (int, int), last: (int, int))
    requires Rectangular(grid)
    requires first.0 >= 0 && last.0 >= 0 && first.1 >= 0 && last.1 >= 0
    ensures var b := RangeBlock(grid, ref, first, last);
            var rowStart, rowEnd := Min(first.0, last.0), Max(first.0, last.0);
            var colStart, colEnd := Min(first.1, last.1), Max(first.1, last.1);
            && |b.rows| == ClampedSpan(rowStart, rowEnd, |grid|)
            && |b.columns| == ClampedSpan(colStart, colEnd, Width(grid))
            && b.columns == NumberedColumns(ref, |b.columns|)
            && WellFormed(b)
            && forall i, j :: 0 <= i < |b.rows| && 0 <= j < |b.columns| ==>
                 b.rows[i][j] == Some(grid[rowStart + i][colStart + j])
  {
    RectBlockCovers(grid, ref, Min(first.0, last.0), Max(first.0, last.0), Min(first.1, last.1), Max(first.1, last.1));
  }

  lemma RectBlockCovers<V>(grid: Grid<V>, ref: string, r0: nat, rEnd: int, c0: nat, cEnd: int)
    requires Rectangular(grid)
    requires r0 <= rEnd && c0 <= cEnd
    ensures var b := RectBlock(grid, ref, r0, rEnd, c0, cEnd);
            && |b.rows| == ClampedSpan(r0, rEnd, |grid|)
            && |b.columns| == ClampedSpan(c0, cEnd, Width(grid))
            && b.columns == NumberedColumns(ref, |b.columns|)
            && WellFormed(b)
            && forall i, j :: 0 <= i < |b.rows| && 0 <= j < |b.columns| ==>
                 b.rows[i][j] == Some(grid[r0 + i][c0 + j])
  {
    ILocCovers(grid, r0, rEnd, c0, cEnd);
    var b := RectBlock(grid, ref, r0, rEnd, c0, cEnd);
    var width := ClampedSpan(c0, cEnd, Width(grid));
    assert b.rows == Present(ILoc(grid, r0, rEnd + 1, c0, cEnd + 1));
    assert b.columns == NumberedColumns(ref, width);
    assert |b.columns| == width;
  }

  /** With non-negative bounds, `iloc[r0:rEnd+1, c0:cEnd+1]` holds the cells
      of rows r0..rEnd and columns c0..cEnd that lie on the sheet. */
  lemma ILocCovers<V>(grid: Grid<V>, r0: nat, rEnd: int, c0: nat, cEnd: int)
    requires Rectangular(grid)
    requires r0 <= rEnd && c0 <= cEnd
    ensures ILocWidth(grid, c0, cEnd + 1) == ClampedSpan(c0, cEnd, Width(grid))
    ensures var p := Present(ILoc(grid, r0, rEnd + 1, c0, cEnd + 1));
            && |p| == ClampedSpan(r0, rEnd, |grid|)
            && (forall i :: 0 <= i < |p| ==> |p[i]| == ClampedSpan(c0, cEnd, Width(grid)))
            && (forall i, j :: 0 <= i < |p| && 0 <= j < ClampedSpan(c0, cEnd, Width(grid)) ==>
                  r0 + i < |grid| && c0 + j < Width(grid) && p[i][j] == Some(grid[r0 + i][c0 + j]))
  {
    var rows := SliceBounds(r0, rEnd + 1, |grid|);
    var cols := SliceBounds(c0, cEnd + 1, Width(grid));
    assert rows == (Min(r0, |grid|), Min(rEnd + 1, |grid|));
    assert cols == (Min(c0, Width(grid)), Min(cEnd + 1, Width(grid)));
    var f := ILoc(grid, r0, rEnd + 1, c0, cEnd + 1);
    assert forall i :: 0 <= i < |f| ==> f[i] == grid[rows.0 + i][cols.0..cols.1];
  }

  /** Swapping the corners of a range changes nothing but the block's name. */
  lemma RangeBlockSymmetric<V>(grid: Grid<V>, ref1: string, ref2: string, a: (int, int), b: (int, int))
    requires Rectangular(grid)
    ensures RangeBlock(grid, ref1, a, b).rows == RangeBlock(grid, ref2, b, a).rows
    ensures |RangeBlock(grid, ref1, a, b).columns| == |RangeBlock(grid, ref2, b, a).columns|
  {
    assert Min(a.0, b.0) == Min(b.0, a.0) && Max(a.0, b.0) == Max(b.0, a.0);
    assert Min(a.1, b.1) == Min(b.1, a.1) && Max(a.1, b.1) == Max(b.1, a.1);
  }

  /** Corners may come in either order: with corners that resolve and carry
      no ':' or surrounding whitespace, "p:q" and "q:p" select the same
      cells in the same order; only the column-name prefix differs. */
  lemma RangeOrderIrrelevant<V>(grid: Grid<V>, p: string, q: string)
    requires Rectangular(grid)
    requires ':' !in p && ':' !in q
    requires p != [] && q != []
    requires !IsSpace(p[0]) && !IsSpace(p[|p| - 1]) && !IsSpace(q[0]) && !IsSpace(q[|q| - 1])
    ensures ExtractOne(grid, p + ":" + q).Success? <==> Indices(p).Success? && Indices(q).Success?
    ensures ExtractOne(grid, q + ":" + p).Success? <==> Indices(p).Success? && Indices(q).Success?
    ensures Indices(p).Success? && Indices(q).Success? ==>
              && ExtractOne(grid, p + ":" + q).value.rows == ExtractOne(grid, q + ":" + p).value.rows
              && |ExtractOne(grid, p + ":" + q).value.columns|
                 == |ExtractOne(grid, q + ":" + p).value.columns|
  {
    var pq, qp := p + ":" + q, q + ":" + p;
    RangeReference(grid, p, q);
    RangeReference(grid, q, p);
    if Indices(p).Success? && Indices(q).Success? {
      var a, b := Indices(p).value, Indices(q).value;
      RangeBlockSymmetric(grid, pq, qp, a, b);
    }
  }

  /** The range reference "p:q" resolves its two corners in turn. */
  lemma RangeReference<V>(grid: Grid<V>, p: string, q: string)
    requires Rectangular(grid)
    requires ':' !in p && ':' !in q
    requires p != [] && q != [] && !IsSpace(p[0]) && !IsSpace(q[|q| - 1])
    ensures ExtractOne(grid, p + ":" + q) ==
              match Indices(p)
              case Failure(e) => Failure(e)
              case Success(first) =>
                match Indices(q)
                case Failure(e) => Failure(e)
                case Success(last) => Success(RangeBlock(grid, p + ":" + q, first, last))
  {
    var s := p + ":" + q;
    assert s[0] == p[0] && s[|s| - 1] == q[|q| - 1];
    StripUnchanged(s);
    assert s[|p|] == ':';
    SplitAtOne(p, q, ':');
    assert p + [':'] + q == s;
  }

  /** Surrounding whitespace never matters: a reference yields what its
      stripped text yields, name included. */
  lemma ExtractStripped<V>(grid: Grid<V>, raw: string)
    requires Rectangular(grid)
    ensures ExtractOne(grid, raw) == ExtractOne(grid, Strip(raw))
  {
    StripSpec(raw);
    StripUnchanged(Strip(raw));
  }

  /** A raw range reference such as " A1:C3 " resolves the corners of its
      stripped text and names its columns after that text. */
  lemma StrippedRangeReference<V>(grid: Grid<V>, raw: string, p: string, q: string)
    requires Rectangular(grid)
    requires Strip(raw) == p + ":" + q
    requires ':' !in p && ':' !in q && p != [] && q != []
    ensures ExtractOne(grid, raw) ==
              match Indices(p)
              case Failure(e) => Failure(e)
              case Success(first) =>
                match Indices(q)
                case Failure(e) => Failure(e)
                case Success(last) => Success(RangeBlock(grid, Strip(raw), first, last))
  {
    var r := Strip(raw);
    StripSpec(raw);
    assert r[0] == p[0] && r[|r| - 1] == q[|q| - 1];
    ExtractStripped(grid, raw);
    RangeReference(grid, p, q);
  }

  /** A reference with more than one ':' raises when its split is unpacked
      into the two corners. */
  lemma ExtraColonRaises<V>(grid: Grid<V>, raw: string)
    requires Rectangular(grid)
    requires Occurrences(Strip(raw), ':') >= 2
    ensures ExtractOne(grid, raw) == Failure(TooManyValuesToUnpack(Strip(raw)))
  {
    OccurrencesMember(Strip(raw), ':');
    SplitCount(Strip(raw), ':');
  }

  /** A single-cell reference never raises once it resolves: it yields one
      row and one column named after the stripped reference, holding the
      cell's value, or the absent value when the cell is off the sheet. */
  lemma SingleCellBlock<V>(grid: Grid<V>, raw: string)
    requires Rectangular(grid)
    requires ':' !in Strip(raw)
    ensures ExtractOne(grid, raw).Success? <==> Indices(Strip(raw)).Success?
    ensures ExtractOne(grid, raw).Success? ==>
              var at := Indices(Strip(raw)).value;
              var b := ExtractOne(grid, raw).value;
              && b.columns == [Strip(raw)] && |b.rows| == 1 && |b.rows[0]| == 1
              && (0 <= at.0 < |grid| && at.1 < Width(grid) ==> b.rows[0][0] == Some(grid[at.0][at.1]))
              && (at.0 >= |grid| || at.1 >= Width(grid) ==> b.rows[0][0] == None)
  {
  }

  /** Every block that is produced is a proper table: rows as wide as the
      column list, no column name twice, and every column name is either a
      resolvable cell address or contains the range's ':'. */
  lemma ExtractedBlockShape<V>(grid: Grid<V>, raw: string)
    requires Rectangular(grid)
    requires ExtractOne(grid, raw).Success?
    ensures WellFormed(ExtractOne(grid, raw).value)
    ensures DistinctColumns(ExtractOne(grid, raw).value)
    ensures forall k :: 0 <= k < |ExtractOne(grid, raw).value.columns| ==>
              var name := ExtractOne(grid, raw).value.columns[k];
              Indices(name).Success? || ':' in name
  {
    var ref := Strip(raw);
    var b := ExtractOne(grid, raw).value;
    if ':' in ref {
      var parts := Split(ref, ':');
      var first, last := Indices(parts[0]).value, Indices(parts[1]).value;
      assert b == RangeBlock(grid, ref, first, last);
      RangeBlockShape(grid, ref, first, last);
    }
  }

  /** A range block is well formed, and its columns are distinct and all
      carry the range's text, colon included. */
  lemma RangeBlockShape<V>(grid: Grid<V>, ref: string, first: (int, int), last: (int, int))
    requires Rectangular(grid)
    requires ':' in ref
    ensures var b := RangeBlock(grid, ref, first, last);
            && WellFormed(b) && DistinctColumns(b)
            && forall k :: 0 <= k < |b.columns| ==> ':' in b.columns[k]
  {
    var b := RangeBlock(grid, ref, first, last);
    var colStart, colEnd := Min(first.1, last.1), Max(first.1, last.1);
    var f := ILoc(grid, Min(first.0, last.0), Max(first.0, last.0) + 1, colStart, colEnd + 1);
    var cols := SliceBounds(colStart, colEnd + 1, Width(grid));
    assert forall i :: 0 <= i < |f| ==> |f[i]| == cols.1 - cols.0;
    NumberedColumnsDistinct(ref, |b.columns|);
    forall k | 0 <= k < |b.columns| ensures ':' in b.columns[k] {
      var i :| 0 <= i < |ref| && ref[i] == ':';
      assert b.columns[k][i] == ':';
    }
  }
}
