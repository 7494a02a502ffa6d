# Payout breakup consolidator: a Dafny model

`Read_data_Payout_breakup4.py` gathers configured cells from many Excel workbooks into one table.

- **Selection.** It lists a folder and keeps the candidate workbooks: names ending in `.xlsx` that start with neither `~$` nor `.`.
- **Extraction.** For every configured sheet a workbook has, it extracts one block per cell reference:
  - a range such as `A1:C3` gives a clamped sub-rectangle whose columns are named `A1:C3_Col1`, `A1:C3_Col2`, …;
  - a single cell such as `C4` gives a 1×1 block named `C4`, whose value is absent when the cell lies off the sheet.
- **Tagging.** Each block is tagged with `Source Workbook`, `Source Sheet` and its 1-based `Extraction Block` number.
- **Output.** All blocks are stacked into one table and the block number column is dropped.

The model has five modules.

- `Outcomes` (`outcomes.dfy`):
  - `Option` and `Result`;
  - `Collect`, which runs steps in order and stops at the first failure.
- `PyStr` (`builtins.dfy`): the Python string built-ins the code relies on:
  - `str.strip()` and `str.split(':')`;
  - `int()` of a digit string;
  - `str()` of a natural number, as used inside the f-string `f"{cell_ref}_Col{i+1}"`.
- `CellReference` (`cell_reference.dfy`): `excel_cell_to_indices`.
  - The regular expression `([A-Za-z]+)([0-9]+)` under `re.match` becomes `MatchCell`: the longest letter prefix, then the digit run after it.
  - The column is a bijective base-26 numeral, read without regard to case.
  - The accumulating loop is a method proved equal to the specification function `Indices`.
- `SheetExtractor` (`sheet_extractor.dfy`): `extract_cells_from_sheet`.
  - A data frame is a rectangular `seq<seq<V>>`.
  - `iat` and `iloc` follow Python's index and slice rules, negative indices included.
  - The loop is a method proved equal to `Extract`, which is the ordered collection of `ExtractOne` over the references.
- `Consolidator` (`consolidator.dfy`): `consolidate_cells_from_workbooks`.
  - **The folder** is a sequence of entries. Each entry carries a workbook when it could be opened and `None` when it could not.
  - **A workbook** maps sheet names to a grid, or to `None` when `read_excel` fails.
  - **The configuration** is the ordered list of `(sheet, references)` pairs of the `specific_cells` dict.
  - **The nested loops** are methods proved equal to the functions `FolderRecords`, `WorkbookRecords` and `SheetRecords`. The whole run is proved equal to `Consolidate`.
  - **Run outcomes.** A run ends in one of four ways: no candidate files; no data; a consolidated table; or an error raised by a reference.
  - **The output table** is a set of column names and a sequence of rows. Each row maps column names to values.

Where this model departs from a plain reading of the intended behaviour, it follows the code.

- **A bad reference stops the run.** `extract_cells_from_sheet` is called at line 84, outside both `try` blocks. A reference that does not resolve therefore ends the whole run with `ValueError`; it does not skip the file. In the model this is the `Raised` outcome. `BadReferenceStopsRun` proves that one such reference in any candidate file ends the run this way, and `RaisedByReference` proves that every `Raised` outcome comes from such a reference.
- **One row per block.** `pd.concat` stacks blocks by rows, so four single-cell references on one sheet give four output rows. Each row fills one cell column; the run does not produce one row with four filled columns. `OutputRow` and `OutputRowContents` state this.
- **Row number 0.** A reference such as `A0` resolves to row index -1.
  - `iat` reads -1 as the last row, so the single cell `A0` gives the last row's value.
  - `iloc` takes -1 as a slice start at the last row. A range lying entirely on row number 0, such as `A0:B0`, slices `-1:0` and is empty. A range such as `A0:A3` slices `-1:3`, which holds the last row when the sheet has at most three rows and nothing otherwise.
  - The model keeps both behaviours (`Position`, `SliceBounds`).
- **More than one colon.** A reference such as `A1:B2:C3` fails when its split is unpacked into two names (line 29). The model raises `TooManyValuesToUnpack` for it (`ExtraColonRaises`).

## Model

| member | source | states |
|---|---|---|
| CellReference.ColumnNumber | Read_data_Payout_breakup4.py:15-17 | the bijective base-26 value of the letters, at least 1 when there are letters; `ColumnNumberRoundTrip` and `ColumnLettersRoundTrip` state that it is a bijection |
| CellReference.UpperString | Read_data_Payout_breakup4.py:13 | `.upper()` on the letters: same length, and letters become upper-case letters; `ColumnNumberIgnoresCase` states that the column number is unchanged |
| CellReference.LetterValue | Read_data_Payout_breakup4.py:17 | `ord(c) - ord('A') + 1` for an upper-case letter, a value between 1 and 26 (lower-case letters are valued as their upper-case form); `ColumnNumberRoundTrip` states the numeral it builds is bijective |
| CellReference.ExcelCellToIndices | Read_data_Payout_breakup4.py:5-18 | the method returns exactly `Indices(cellRef)`: the resolver's pair, or `InvalidCellReference` naming the reference |
| CellReference.AccumulateColumn | Read_data_Payout_breakup4.py:15-17 | the accumulator loop over upper-case letters ends with the bijective base-26 value of the letters |
| CellReference.Indices | Read_data_Payout_breakup4.py:10-18 | a failure always carries `InvalidCellReference` of the input; a success has row index at least -1 and column index at least 0 |
| CellReference.MatchCell | Read_data_Payout_breakup4.py:10-11 | a match exists exactly when the string starts with at least one letter and a digit follows the letter run; both groups are non-empty, all letters and all digits |
| CellReference.MatchCellSpec | Read_data_Payout_breakup4.py:10 | the match is the whole leading letter run followed by the whole digit run after it; what follows is not a digit, and anything after is ignored |
| CellReference.LetterRunSpec | Read_data_Payout_breakup4.py:10 | the greedy `[A-Za-z]+` prefix is all letters and is followed by a non-letter |
| CellReference.DigitRunSpec | Read_data_Payout_breakup4.py:10 | the greedy `[0-9]+` run is all digits and is followed by a non-digit |
| CellReference.ColumnLettersRoundTrip | Read_data_Payout_breakup4.py:16-17 | every column number n >= 1 has a letter string that reads back as n |
| CellReference.ColumnNumberRoundTrip | Read_data_Payout_breakup4.py:16-17 | every non-empty upper-case letter string is the letter string of its own number, so the numeral is bijective |
| CellReference.ColumnNumberIgnoresCase | Read_data_Payout_breakup4.py:13 | upper-casing letters leaves their column number unchanged |
| CellReference.CellNameRoundTrip | Read_data_Payout_breakup4.py:10-18 | the address of zero-based (row, col), followed by any text not starting with a digit, resolves to (row, col) |
| CellReference.IndicesOfParts | Read_data_Payout_breakup4.py:10-18 | letters, then digits, then text not starting with a digit resolve to (int(digits) - 1, column number - 1) |
| CellReference.CellNameInjective | Read_data_Payout_breakup4.py:13-18 | distinct cells have distinct addresses |
| CellReference.RejectsMalformed | Read_data_Payout_breakup4.py:10-12 | the empty string, a string not starting with a letter, and a string of letters only are rejected with `InvalidCellReference` |
| CellReference.ResolverExamples | Read_data_Payout_breakup4.py:13-18 | "C4" and "c4" both resolve to (3, 2) |
| CellReference.ColumnExamples | Read_data_Payout_breakup4.py:13-18 | "A1" resolves to (0, 0) and "AA1" to (0, 26) |
| CellReference.RejectionExamples | Read_data_Payout_breakup4.py:10-12 | "4A", "A" and "1" are rejected |
| PyStr.Strip | Read_data_Payout_breakup4.py:27 | `s.strip()`; its contract is stated by `StripSpec` |
| PyStr.Split | Read_data_Payout_breakup4.py:29 | `s.split(sep)`, with at least one piece; `JoinSplit`, `SplitCount` and `SplitPiecesLackSeparator` state the rest of its contract |
| PyStr.DecimalValue | Read_data_Payout_breakup4.py:14 | `int(s)` of a digit string; `DecimalRoundTrip` states that it inverts `str(n)` |
| PyStr.DecimalString | Read_data_Payout_breakup4.py:38 | `str(n)`: at least one digit, all digits, no leading zero; `DecimalRoundTrip` and `DecimalStringInjective` state that `int()` inverts it and that it is injective |
| PyStr.OccurrencesMember | Read_data_Payout_breakup4.py:28-29 | a character occurs in a string a positive number of times exactly when it is a member |
| PyStr.StripSpec | Read_data_Payout_breakup4.py:27 | `strip()` gives the infix that neither starts nor ends with whitespace, with only whitespace removed on either side |
| PyStr.StripUnchanged | Read_data_Payout_breakup4.py:27 | a string without leading or trailing whitespace is its own strip |
| PyStr.LStripSpec | Read_data_Payout_breakup4.py:27 | `lstrip()` removes exactly the leading whitespace |
| PyStr.RStripSpec | Read_data_Payout_breakup4.py:27 | `rstrip()` removes exactly the trailing whitespace |
| PyStr.JoinSplit | Read_data_Payout_breakup4.py:29 | joining the pieces of `split(':')` with ':' gives back the string |
| PyStr.SplitCount | Read_data_Payout_breakup4.py:29 | `split(':')` has one more piece than the string has colons, so unpacking into two names succeeds exactly when there is one colon |
| PyStr.SplitAtOne | Read_data_Payout_breakup4.py:29 | "p:q" with colon-free p and q splits into exactly [p, q] |
| PyStr.SplitPiecesLackSeparator | Read_data_Payout_breakup4.py:29 | no piece of `split(':')` contains ':' |
| PyStr.DecimalRoundTrip | Read_data_Payout_breakup4.py:14 | `int(str(n)) == n` |
| PyStr.DecimalStringInjective | Read_data_Payout_breakup4.py:38 | distinct numbers print differently, so `_Col1`, `_Col2`, … differ |
| Outcomes.Collect | Read_data_Payout_breakup4.py:25-49 | the loop's results, or the first error; `CollectSuccess`, `CollectFailure` and `CollectFailurePersists` state its contract |
| Outcomes.CollectSuccess | Read_data_Payout_breakup4.py:25-49 | when no step fails, the result has one value per step, in order, each that step's value |
| Outcomes.CollectFailure | Read_data_Payout_breakup4.py:25-49 | a failure carries the error of some step, and every earlier step succeeded |
| Outcomes.CollectFailurePersists | Read_data_Payout_breakup4.py:25-49 | once a prefix fails, later steps do not change the outcome |
| SheetExtractor.Position | Read_data_Payout_breakup4.py:44 | an `iat` index is valid exactly when -n <= i < n; a negative index counts from the end |
| SheetExtractor.CellAt | Read_data_Payout_breakup4.py:43-46 | an in-range cell gives its value; an index beyond either axis gives an absent value, with no error |
| SheetExtractor.SliceEnd | Read_data_Payout_breakup4.py:34 | a slice endpoint is normalised into [0, n]; a non-negative one is clamped to n |
| SheetExtractor.SliceBounds | Read_data_Payout_breakup4.py:34 | a slice selects positions lo <= hi <= n; for 0 <= start <= stop these are (min(start, n), min(stop, n)) |
| SheetExtractor.NumberedColumns | Read_data_Payout_breakup4.py:35-39 | there are exactly `count` names, and name j is `<ref>_Col<j+1>` |
| SheetExtractor.NumberedColumnsDistinct | Read_data_Payout_breakup4.py:35-39 | no two column names of a range block are equal |
| SheetExtractor.ILoc | Read_data_Payout_breakup4.py:34 | `grid.iloc[r0:r1, c0:c1]`; `ILocCovers` states its contents |
| SheetExtractor.ExtractOne | Read_data_Payout_breakup4.py:27-48 | one reference's block or error; `ExtractStripped` states that only the stripped text matters; `StrippedRangeReference`, `ExtraColonRaises` and `SingleCellBlock` state the range, extra-colon and single-cell cases; `ExtractedBlockShape` states the block's shape |
| SheetExtractor.ExtractRange | Read_data_Payout_breakup4.py:28-40 | a range reference: exactly two corners, each resolved, then the range block; `RangeReference` and `ExtraColonRaises` state its outcomes |
| SheetExtractor.ExtractSingle | Read_data_Payout_breakup4.py:41-48 | a single-cell reference: the 1×1 block once the address resolves; `SingleCellBlock` states its outcome |
| SheetExtractor.SingleBlock | Read_data_Payout_breakup4.py:47 | the 1×1 block named after the reference, holding the cell or nothing; `SingleCellBlock` states its contents |
| SheetExtractor.RangeBlock | Read_data_Payout_breakup4.py:32-39 | the block between two corners, in either order; `RangeBlockCovers`, `RangeBlockShape` and `RangeBlockSymmetric` state its contract |
| SheetExtractor.RectBlock | Read_data_Payout_breakup4.py:34-39 | the block of the rectangle r0..rEnd × c0..cEnd with its renamed columns; `RectBlockCovers` states its contract |
| SheetExtractor.ILocWidth | Read_data_Payout_breakup4.py:35 | `block.shape[1]` of the slice; `ILocCovers` states that it is the clamped column span |
| SheetExtractor.ExtractStripped | Read_data_Payout_breakup4.py:27 | a reference yields exactly what its stripped text yields, the block's name included |
| SheetExtractor.StrippedRangeReference | Read_data_Payout_breakup4.py:27-40 | a raw range whose stripped text is "p:q", such as " A1:C3 ", resolves p, then q, and gives the range block named after the stripped text, so its columns are "A1:C3_Col1", …; otherwise it gives the first error |
| SheetExtractor.ExtraColonRaises | Read_data_Payout_breakup4.py:29 | a reference whose stripped text has two or more ':' raises `TooManyValuesToUnpack` naming that text |
| SheetExtractor.Extract | Read_data_Payout_breakup4.py:20-49 | the blocks of all references in order, or the first error; `ExtractSuccess`, `ExtractFailure` and `ExtractFailurePersists` state its contract |
| SheetExtractor.ExtractSuccess | Read_data_Payout_breakup4.py:25-49 | without error there is exactly one block per reference, in order, and block i is the block of reference i |
| SheetExtractor.ExtractFailure | Read_data_Payout_breakup4.py:25-49 | an error is the error of some reference, and every earlier reference succeeded |
| SheetExtractor.ExtractFailurePersists | Read_data_Payout_breakup4.py:25-49 | references after the first that raises do not change the outcome |
| SheetExtractor.SliceRange | Read_data_Payout_breakup4.py:32-39 | the min/max normalisation, the `iloc` slice and the renaming loop build exactly `RangeBlock` |
| SheetExtractor.ExtractBlock | Read_data_Payout_breakup4.py:27-48 | one loop iteration: strip, then range or single cell, giving exactly `ExtractOne` |
| SheetExtractor.ExtractCellsFromSheet | Read_data_Payout_breakup4.py:20-49 | the loop returns exactly `Extract(grid, cells)`: every block in reference order, or the first error |
| SheetExtractor.RangeBlockCovers | Read_data_Payout_breakup4.py:32-39 | with rows and columns >= 0, a range block has the clamped number of rows and columns; its names are `_Col1` … `_ColN`; cell (i, j) is grid cell (rowStart + i, colStart + j) |
| SheetExtractor.RectBlockCovers | Read_data_Payout_breakup4.py:34-39 | the same for the rectangle with bounds r0..rEnd and c0..cEnd |
| SheetExtractor.ILocCovers | Read_data_Payout_breakup4.py:34-35 | `iloc[r0:rEnd+1, c0:cEnd+1]` holds the clamped rectangle's cells in order, and its width is the clamped column span |
| SheetExtractor.RangeBlockSymmetric | Read_data_Payout_breakup4.py:32-33 | swapping the corners gives the same rows and the same number of columns |
| SheetExtractor.RangeOrderIrrelevant | Read_data_Payout_breakup4.py:28-34 | "p:q" succeeds exactly when both corners resolve, and so does "q:p"; both then select the same cells |
| SheetExtractor.RangeReference | Read_data_Payout_breakup4.py:28-34 | "p:q" resolves p first, then q, and gives the range block of the two corners, or the first error |
| SheetExtractor.SingleCellBlock | Read_data_Payout_breakup4.py:41-48 | a colon-free reference succeeds exactly when it resolves; it then gives one column named after the stripped reference and one row, holding the cell or nothing when off the sheet |
| SheetExtractor.ExtractedBlockShape | Read_data_Payout_breakup4.py:25-49 | every block produced is rectangular with distinct column names; each name is a cell address or contains ':' |
| SheetExtractor.RangeBlockShape | Read_data_Payout_breakup4.py:34-39 | a range block is rectangular with distinct column names, all containing ':' |
| Consolidator.CandidateFiles | Read_data_Payout_breakup4.py:58 | the candidate entries of the folder; `CandidateFilesMembers` and `CandidateFilesAppend` state which ones and in what order |
| Consolidator.IsCandidate | Read_data_Payout_breakup4.py:58 | the name ends in ".xlsx" and starts with neither "~$" nor "."; `CandidateFilesMembers` states that exactly these entries are processed |
| Consolidator.CandidateFilesMembers | Read_data_Payout_breakup4.py:58 | an entry is processed exactly when it is in the folder and its name ends in ".xlsx" and starts with neither "~$" nor "." |
| Consolidator.CandidateFilesAppend | Read_data_Payout_breakup4.py:58 | selection keeps listing order |
| Consolidator.NonCandidateIgnored | Read_data_Payout_breakup4.py:58 | adding a non-candidate entry anywhere in the folder leaves the outcome unchanged |
| Consolidator.SheetsToProcess | Read_data_Payout_breakup4.py:72 | the sheets processed are exactly the configured entries whose sheet the workbook has; their order is stated by `SheetsToProcessAppend` |
| Consolidator.SheetsToProcessAppend | Read_data_Payout_breakup4.py:72 | selection keeps configuration order: the sheets of a + b are those of a, then those of b |
| Consolidator.TagBlocks | Read_data_Payout_breakup4.py:86-89 | one record per block; record i carries the file, the sheet, block number i + 1 and block i |
| Consolidator.ConsolidateCellsFromWorkbooks | Read_data_Payout_breakup4.py:51-101 | the nested loops give exactly `Consolidate(folder, config)` |
| Consolidator.AppendFolderBlocks | Read_data_Payout_breakup4.py:63-90 | the file loop gives exactly `FolderRecords(files, config)`: every file's records in order, or the first error raised |
| Consolidator.AppendFileBlocks | Read_data_Payout_breakup4.py:63-90 | one file appends its records, or nothing when it cannot be opened |
| Consolidator.AppendWorkbookBlocks | Read_data_Payout_breakup4.py:72-90 | the sheet loop appends the records of the sheets in order, or stops with the first error |
| Consolidator.AppendSheetBlocks | Read_data_Payout_breakup4.py:77-90 | one readable sheet appends its tagged blocks, or raises its extraction error |
| Consolidator.AppendTagged | Read_data_Payout_breakup4.py:86-90 | the `enumerate` loop appends the blocks, tagged with 1-based numbers, after the existing records |
| Consolidator.Finish | Read_data_Payout_breakup4.py:92-101 | no records gives "no data"; otherwise the result is the concatenation without the block number column |
| Consolidator.DropColumn | Read_data_Payout_breakup4.py:100-101 | dropping removes exactly that column name from the table and from every row, and keeps the row count |
| Consolidator.Output | Read_data_Payout_breakup4.py:96-101 | "Extraction Block" is neither a column nor a key of any row of the output |
| Consolidator.SheetRecords | Read_data_Payout_breakup4.py:84-90 | a readable sheet's blocks, tagged, or its extraction error; `AppendSheetBlocks` and `TagBlocks` state its contract |
| Consolidator.SheetStep | Read_data_Payout_breakup4.py:77-90 | a configured sheet's records, or nothing when it cannot be read; `SheetStepCovered` and `UnreadableSheetLikeMissing` state its contract |
| Consolidator.FileRecords | Read_data_Payout_breakup4.py:63-90 | a file's records, or nothing when it cannot be opened; `AppendFileBlocks`, `UnopenableFileSkipped` and `EmptyFileRecords` state its contract |
| Consolidator.WorkbookRecords | Read_data_Payout_breakup4.py:77-90 | the records of a workbook's sheets in order, or the first error; `WorkbookRecordsProvenance`, `WorkbookRecordsComplete` and `WorkbookRecordsFailure` state its contract |
| Consolidator.FolderRecords | Read_data_Payout_breakup4.py:63-90 | the records of the files in order, or the first error; `FolderRecordsProvenance`, `FolderRecordsComplete` and `FolderRecordsFailure` state its contract |
| Consolidator.Run | Read_data_Payout_breakup4.py:59-101 | no files, an error, no data or the output table of the files' records; `RunDropsEmptyFile` relates runs that differ by a file |
| Consolidator.Consolidate | Read_data_Payout_breakup4.py:51-101 | the run over the candidate files; `RaisedByReference`, `BadReferenceStopsRun`, `ConsolidatedTable` and `ContributesNothing` state its contract |
| Consolidator.FolderRecordsAppend | Read_data_Payout_breakup4.py:63-90 | files are processed independently, in order: the records of a + b are those of a, then those of b; the first error wins |
| Consolidator.WorkbookRecordsAppend | Read_data_Payout_breakup4.py:77-90 | the same for the sheets of one workbook |
| Consolidator.FolderFailurePersists | Read_data_Payout_breakup4.py:84 | once a file raises, later files do not change the error |
| Consolidator.WorkbookFailurePersists | Read_data_Payout_breakup4.py:84 | once a sheet raises, later sheets do not change the error |
| Consolidator.ContributesNothing | Read_data_Payout_breakup4.py:63-75 | a candidate file with no records leaves the outcome as without it, except that a folder with no other candidate ends in "no data" instead of "no files" |
| Consolidator.UnopenableFileSkipped | Read_data_Payout_breakup4.py:66-70 | a workbook that cannot be opened is skipped and the run goes on |
| Consolidator.NoMatchingSheetsSkipped | Read_data_Payout_breakup4.py:72-75 | a workbook with none of the configured sheets is skipped and the run goes on |
| Consolidator.NoConfiguredSheet | Read_data_Payout_breakup4.py:72-73 | a workbook with none of the configured sheets has no sheet to process |
| Consolidator.UnreadableSheetLikeMissing | Read_data_Payout_breakup4.py:78-82 | a sheet that cannot be read gives the same records as a workbook without that sheet |
| Consolidator.EmptyFileRecords | Read_data_Payout_breakup4.py:63-90 | a file with no records leaves the records of the others unchanged |
| Consolidator.RunDropsEmptyFile | Read_data_Payout_breakup4.py:59-94 | over candidate files, a file with no records changes the outcome only when it is the sole file |
| Consolidator.WorkbookRecordsProvenance | Read_data_Payout_breakup4.py:77-90 | every record of a workbook carries its file name and is block number k of a configured, readable sheet, extracted from that sheet's k-th reference |
| Consolidator.FolderRecordsProvenance | Read_data_Payout_breakup4.py:63-90 | soundness: every record is extracted from some opened file of the list, as above |
| Consolidator.WorkbookRecordsComplete | Read_data_Payout_breakup4.py:77-90 | when no reference raises, every reference of every readable sheet processed yields its tagged block |
| Consolidator.FolderRecordsComplete | Read_data_Payout_breakup4.py:63-90 | completeness: when no reference raises, every reference of every configured sheet of every opened file yields its record |
| Consolidator.SheetStepCovered | Read_data_Payout_breakup4.py:84-90 | every reference of a readable sheet yields its record with its 1-based position |
| Consolidator.WorkbookRecordsFailure | Read_data_Payout_breakup4.py:84 | a workbook's error is raised by a reference of one of its configured, readable sheets |
| Consolidator.FolderRecordsFailure | Read_data_Payout_breakup4.py:84 | a folder's error is raised by a reference of a configured, readable sheet of an opened file of the list |
| Consolidator.RaisedByReference | Read_data_Payout_breakup4.py:84 | a run that raises names an error that a reference of a configured, readable sheet of an opened candidate file raises |
| Consolidator.BadReferenceStopsRun | Read_data_Payout_breakup4.py:84 | conversely, one reference that raises, on a configured, readable sheet of an opened candidate file, makes the whole run end with an error, whatever the other files hold |
| Consolidator.RecordsTaggable | Read_data_Payout_breakup4.py:86-89 | every record's block is rectangular, its column names are distinct, and none is a provenance name, so `block.insert` never collides |
| Consolidator.ConsolidatedTable | Read_data_Payout_breakup4.py:92-101 | a consolidated table is the output of a non-empty list of records, each extracted from a candidate file and each taggable |
| Consolidator.ProvenanceNamesPlain | Read_data_Payout_breakup4.py:87-89 | the provenance column names contain neither a digit nor ':' |
| Consolidator.ExtractedNameNotPlain | Read_data_Payout_breakup4.py:35-48 | a cell address contains a digit and a range name contains ':', so no block column name is plain |
| Consolidator.ExtractedBlockTaggable | Read_data_Payout_breakup4.py:86-89 | every extracted block is rectangular, with distinct column names, none of which is a provenance name |
| Consolidator.RowFieldsSpec | Read_data_Payout_breakup4.py:97 | a block row, read as a table row, has exactly the block's column names as keys, each holding its own cell |
| Consolidator.OutputRowContents | Read_data_Payout_breakup4.py:86-101 | an output row of a record holds the file and sheet under their columns and each cell under its block column, and nothing else |
| Consolidator.OutputRow | Read_data_Payout_breakup4.py:96-101 | the output has one row per block row; row i of record k is output row TotalRows(records[..k]) + i, without the block number |
| Consolidator.Provenance | Read_data_Payout_breakup4.py:86-89 | the three tag columns of a record; `OutputRowContents` and `ProvenanceNamesPlain` state its contract |
| Consolidator.RowFields | Read_data_Payout_breakup4.py:97 | a block row read as a table row; `RowFieldsSpec` states its keys and values |
| Consolidator.TaggedRow | Read_data_Payout_breakup4.py:86-89 | a block row with its tag columns; `OutputRowContents` states its contents |
| Consolidator.RecordRows | Read_data_Payout_breakup4.py:97 | one tagged row per block row; `OutputRow` states where each lands in the output |
| Consolidator.Columns | Read_data_Payout_breakup4.py:97 | the columns of the concatenation; `ColumnsMembers` and `OutputColumns` state which they are |
| Consolidator.ConcatRows | Read_data_Payout_breakup4.py:97 | the rows of `pd.concat`; `ConcatRowsLength`, `ConcatRowsAt` and `ConcatRowsAppend` state its contract |
| Consolidator.Concat | Read_data_Payout_breakup4.py:97 | `pd.concat` of the tagged blocks; `ColumnsMembers` states its columns and `ConcatRowsAt` its rows |
| Consolidator.ConcatRowsAt | Read_data_Payout_breakup4.py:97 | concatenation places row i of record k after the rows of every earlier record |
| Consolidator.ConcatRowsAppend | Read_data_Payout_breakup4.py:97 | concatenation stacks the rows of two record lists one after the other |
| Consolidator.ConcatRowsLength | Read_data_Payout_breakup4.py:97 | the concatenation has as many rows as all blocks together |
| Consolidator.OutputColumns | Read_data_Payout_breakup4.py:96-101 | a name is an output column exactly when it is not "Extraction Block" and is "Source Workbook", "Source Sheet" or a column of some record's block |
| Consolidator.ColumnsMembers | Read_data_Payout_breakup4.py:97 | the concatenation's columns are the union of the three provenance names and every block's columns |

## Left out

- `Read_data_excel_Summary.py` is not part of this model. It reads fixed cells through a spreadsheet library and saves them, and has no logic of its own.
- Listing the folder, opening workbooks and reading sheets are inputs to the model:
  - the folder is an ordered list of named entries;
  - a workbook that cannot be opened is `None`;
  - a sheet that cannot be read is `None` in its workbook.
- The final `to_excel` write and its caught failure (lines 103-106) are left out. The run ends with the table that would be written.
- The `print` diagnostics are left out.
- The `__main__` configuration (lines 108-119) is left out.
- The output table keeps column names as a set and rows as maps. These are left out:
  - pandas' column order;
  - the NaN fill for columns a block lacks (absent keys here);
  - the integer index written beside the rows.
- The configuration is a list of pairs. A Python dict cannot repeat a sheet name; the model does not need that restriction, and with distinct sheet names it behaves as the dict does.
- Every sheet read is required to be rectangular (`Rectangular`, `EntriesRectangular`). A data frame always is; this restates the input's type, not a demand on callers.
- `IsSpace` follows `str.isspace()` for the Unicode whitespace code points. The model does not cover the Unicode database beyond that list.
- SheetExtractor.RangeBlockCovers: it requires both corners to have row and column at least 0. A row number of 0 (row index -1) is still modelled, by `SliceBounds` and `ILoc`; this lemma does not describe that case.
- PyStr.DecimalValue: Python's limit on converting long digit strings is not modelled. Python 3.11 and later, and the security releases of 3.7 to 3.10, refuse `int()` on a string of more than 4300 digits with `ValueError`. Line 14 would then raise, and since line 84 is outside every `try`, the whole run would end. The model instead resolves such a reference to its very large row index.
- The Python value types of cells are left out. A cell is a value of a type parameter `V`.
