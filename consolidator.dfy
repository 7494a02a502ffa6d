/** The workbook consolidator (`consolidate_cells_from_workbooks`): selects
    the workbook files of a folder, extracts the configured references from
    every configured sheet a workbook has, tags each block with its file,
    sheet and 1-based block number, and stacks all blocks into one table
    from which the block number is dropped. Opening a workbook and reading a
    sheet are given as outcomes: `None` is a failure, which is skipped. */
module Consolidator {
  import opened Outcomes
  import opened PyStr
  import opened CellReference
  import opened SheetExtractor

  /** An opened workbook: each sheet name with the grid read from it, or
      `None` when reading that sheet fails. */
  type Workbook<V> = map<string, Option<Grid<V>>>

  /** A folder entry: its name, and its workbook or `None` when it cannot be
      opened as one. Entries come in directory-listing order. */
  datatype Entry<V> = Entry(name: string, workbook: Option<Workbook<V>>)

  /** Sheet name to reference list, in the configuration's insertion order. */
  type Config = seq<(string, seq<string>)>

  /** A block with its provenance; `blockNo` is its 1-based position in the
      sheet's reference list. */
  datatype Tagged<V> = Tagged(workbook: string, sheet: string, blockNo: nat, block: Block<V>)

  /** A value of the output table. */
  datatype Field<V> = Text(text: string) | Number(number: int) | Value(cell: Option<V>)

  /** An output row: the columns it has a value for. A column it lacks is
      absent, as the concatenation fills it. */
  type Row<V> = map<string, Field<V>>

  datatype Table<V> = Table(columns: set<string>, rows: seq<Row<V>>)

  /** How a run ends. Writing the table is outside the model. */
  datatype RunOutcome<V> =
    | NoExcelFiles                   // no candidate file: nothing is written
    | NoDataExtracted                // candidates, but no block: nothing is written
    | Consolidated(table: Table<V>)  // the table handed to the writer
    | Raised(error: RefError)        // a malformed reference ends the run

  const SourceWorkbook: string := "Source Workbook"
  const SourceSheet: string := "Source Sheet"
  const ExtractionBlock: string := "Extraction Block"

  predicate StartsWith(s: string, prefix: string) {
    |prefix| <= |s| && s[..|prefix|] == prefix
  }

  predicate EndsWith(s: string, suffix: string) {
    |suffix| <= |s| && s[|s| - |suffix|..] == suffix
  }

  /** A name the consolidator treats as a workbook: ends in ".xlsx" and is
      neither an Office lock file ("~$") nor hidden ("."). */
  predicate IsCandidate(name: string) {
    EndsWith(name, ".xlsx") && !StartsWith(name, "~$") && !StartsWith(name, ".")
  }

  /** The candidate entries of a folder, in listing order. */
  function CandidateFiles<V>(folder: seq<Entry<V>>): seq<Entry<V>> {
    if folder == [] then []
    else
      var last := folder[|folder| - 1];
      CandidateFiles(folder[..|folder| - 1]) + (if IsCandidate(last.name) then [last] else [])
  }

  lemma CandidatesRectangular<V>(folder: seq<Entry<V>>)
    requires EntriesRectangular(folder)
    ensures EntriesRectangular(CandidateFiles(folder))
  {
    CandidateFilesMembers(folder);
  }

  lemma PrefixRectangular<V>(files: seq<Entry<V>>, k: nat)
    requires EntriesRectangular(files) && k <= |files|
    ensures EntriesRectangular(files[..k])
  {
    assert forall e :: e in files[..k] ==> e in files;
  }

  /** The entries processed are exactly the candidate entries of the folder. */
  lemma {:induction false} CandidateFilesMembers<V>(folder: seq<Entry<V>>)
    ensures forall e :: e in CandidateFiles(folder) <==> e in folder && IsCandidate(e.name)
    decreases |folder|
  {
    if folder != [] {
      var init, last := folder[..|folder| - 1], folder[|folder| - 1];
      CandidateFilesMembers(init);
      assert folder == init + [last];
    }
  }

  /** Selection keeps listing order: the candidates of two listings one
      after the other are the candidates of each, one after the other. */
  lemma {:induction false} CandidateFilesAppend<V>(a: seq<Entry<V>>, b: seq<Entry<V>>)
    ensures CandidateFiles(a + b) == CandidateFiles(a) + CandidateFiles(b)
    decreases |b|
  {
    if b == [] {
      assert a + b == a;
    } else {
      var init := b[..|b| - 1];
      CandidateFilesAppend(a, init);
      assert (a + b)[..|a + b| - 1] == a + init;
    }
  }

  /** The configured sheets a workbook has, in configuration order. */
  function SheetsToProcess<V>(config: Config, wb: Workbook<V>): (sheets: Config)
    ensures forall c :: c in sheets ==> c in config && c.0 in wb
    ensures forall c :: c in config && c.0 in wb ==> c in sheets
  {
    if config == [] then []
    else
      var init, last := config[..|config| - 1], config[|config| - 1];
      assert config == init + [last];
      SheetsToProcess(init, wb) + (if last.0 in wb then [last] else [])
  }

  /** Sheet selection keeps configuration order: the sheets of two
      configurations one after the other are the sheets of each, one after
      the other. */
  lemma {:induction false} SheetsToProcessAppend<V>(a: Config, b: Config, wb: Workbook<V>)
    ensures SheetsToProcess(a + b, wb) == SheetsToProcess(a, wb) + SheetsToProcess(b, wb)
    decreases |b|
  {
    if b == [] {
      assert a + b == a;
    } else {
      var init, last := b[..|b| - 1], b[|b| - 1];
      var tail := if last.0 in wb then [last] else [];
      SheetsToProcessAppend(a, init, wb);
      assert (a + b)[..|a + b| - 1] == a + init;
      assert (a + b)[|a + b| - 1] == last;
      assert SheetsToProcess(a + b, wb) == SheetsToProcess(a + init, wb) + tail;
      assert SheetsToProcess(b, wb) == SheetsToProcess(init, wb) + tail;
    }
  }

  /** The blocks of one sheet, tagged with file, sheet and their 1-based
      position, in order. */
  function TagBlocks<V>(workbook: string, sheet: string, blocks: seq<Block<V>>): (r: seq<Tagged<V>>)
    ensures |r| == |blocks|
    ensures forall i :: 0 <= i < |blocks| ==> r[i] == Tagged(workbook, sheet, i + 1, blocks[i])
  {
    if blocks == [] then []
    else
      TagBlocks(workbook, sheet, blocks[..|blocks| - 1])
        + [Tagged(workbook, sheet, |blocks|, blocks[|blocks| - 1])]
  }

  /** Two record lists one after the other; the first error wins. */
  function Then<V>(a: Result<seq<Tagged<V>>, RefError>, b: Result<seq<Tagged<V>>, RefError>)
    : Result<seq<Tagged<V>>, RefError>
  {
    match a
    case Failure(e) => Failure(e)
    case Success(x) =>
      match b
      case Failure(e) => Failure(e)
      case Success(y) => Success(x + y)
  }

  lemma ThenAssociative<V>(a: Result<seq<Tagged<V>>, RefError>, b: Result<seq<Tagged<V>>, RefError>,
                           c: Result<seq<Tagged<V>>, RefError>)
    ensures Then(Then(a, b), c) == Then(a, Then(b, c))
  {
    if a.Success? && b.Success? && c.Success? {
      assert (a.value + b.value) + c.value == a.value + (b.value + c.value);
    }
  }

  lemma ThenEmpty<V>(a: Result<seq<Tagged<V>>, RefError>)
    ensures Then(a, Success([])) == a && Then(Success([]), a) == a
  {
    if a.Success? {
      assert a.value + [] == a.value && [] + a.value == a.value;
    }
  }

  ghost predicate WorkbookRectangular<V>(wb: Workbook<V>) {
    forall s :: s in wb && wb[s].Some? ==> Rectangular(wb[s].value)
  }

  /** Every sheet of every workbook is a data frame. */
  ghost predicate EntriesRectangular<V>(entries: seq<Entry<V>>) {
    forall e :: e in entries && e.workbook.Some? ==> WorkbookRectangular(e.workbook.value)
  }

  /** The records of one sheet, or the error its extraction raises. */
  function SheetRecords<V>(workbook: string, sheet: string, grid: Grid<V>, refs: seq<string>)
    : Result<seq<Tagged<V>>, RefError>
    requires Rectangular(grid)
  {
    match Extract(grid, refs)
    case Failure(e) => Failure(e)
    case Success(blocks) => Success(TagBlocks(workbook, sheet, blocks))
  }

  /** The records of the listed sheets of one workbook, sheet after sheet; a
      sheet that cannot be read is skipped. */
  function WorkbookRecords<V>(workbook: string, wb: Workbook<V>, sheets: Config)
    : Result<seq<Tagged<V>>, RefError>
    requires WorkbookRectangular(wb)
  {
    if sheets == [] then Success([])
    else Then(WorkbookRecords(workbook, wb, sheets[..|sheets| - 1]), SheetStep(workbook, wb, sheets[|sheets| - 1]))
  }

  /** One sheet of the loop: its records, or nothing when it cannot be read. */
  function SheetStep<V>(workbook: string, wb: Workbook<V>, c: (string, seq<string>)): Result<seq<Tagged<V>>, RefError>
    requires WorkbookRectangular(wb)
  {
    if c.0 in wb && wb[c.0].Some? then SheetRecords(workbook, c.0, wb[c.0].value, c.1) else Success([])
  }

  lemma WorkbookRecordsStep<V>(workbook: string, wb: Workbook<V>, sheets: Config, c: (string, seq<string>))
    requires WorkbookRectangular(wb)
    ensures WorkbookRecords(workbook, wb, sheets + [c])
            == Then(WorkbookRecords(workbook, wb, sheets), SheetStep(workbook, wb, c))
  {
    assert (sheets + [c])[..|sheets|] == sheets;
  }

  /** The records of one folder entry; a file that cannot be opened is skipped. */
  function FileRecords<V>(entry: Entry<V>, config: Config): Result<seq<Tagged<V>>, RefError>
    requires entry.workbook.Some? ==> WorkbookRectangular(entry.workbook.value)
  {
    match entry.workbook
    case None => Success([])
    case Some(wb) => WorkbookRecords(entry.name, wb, SheetsToProcess(config, wb))
  }

  /** The records of the files, file after file. */
  function FolderRecords<V>(files: seq<Entry<V>>, config: Config): Result<seq<Tagged<V>>, RefError>
    requires EntriesRectangular(files)
  {
    if files == [] then Success([])
    else
      var last := files[|files| - 1];
      assert last in files;
      Then(FolderRecords(files[..|files| - 1], config), FileRecords(last, config))
  }

  lemma FolderRecordsStep<V>(files: seq<Entry<V>>, e: Entry<V>, config: Config)
    requires EntriesRectangular(files + [e])
    ensures EntriesRectangular(files) && (e.workbook.Some? ==> WorkbookRectangular(e.workbook.value))
    ensures FolderRecords(files + [e], config) == Then(FolderRecords(files, config), FileRecords(e, config))
  {
    assert e in files + [e];
    assert forall x :: x in files ==> x in files + [e];
    assert (files + [e])[..|files|] == files;
  }

  /** Files are processed independently, in order. */
  lemma {:induction false} FolderRecordsAppend<V>(a: seq<Entry<V>>, b: seq<Entry<V>>, config: Config)
    requires EntriesRectangular(a + b)
    ensures EntriesRectangular(a) && EntriesRectangular(b)
    ensures FolderRecords(a + b, config) == Then(FolderRecords(a, config), FolderRecords(b, config))
    decreases |b|
  {
    assert forall e :: e in a ==> e in a + b;
    assert forall e :: e in b ==> e in a + b;
    if b == [] {
      assert a + b == a;
      ThenEmpty(FolderRecords(a, config));
    } else {
      var init := b[..|b| - 1];
      assert (a + b)[..|a + b| - 1] == a + init;
      assert forall e :: e in init ==> e in b;
      FolderRecordsAppend(a, init, config);
      ThenAssociative(FolderRecords(a, config), FolderRecords(init, config), FileRecords(b[|b| - 1], config));
    }
  }

  /** Sheets are processed independently, in order. */
  lemma {:induction false} WorkbookRecordsAppend<V>(workbook: string, wb: Workbook<V>, a: Config, b: Config)
    requires WorkbookRectangular(wb)
    ensures WorkbookRecords(workbook, wb, a + b)
            == Then(WorkbookRecords(workbook, wb, a), WorkbookRecords(workbook, wb, b))
    decreases |b|
  {
    if b == [] {
      assert a + b == a;
      ThenEmpty(WorkbookRecords(workbook, wb, a));
    } else {
      var init, last := b[..|b| - 1], b[|b| - 1];
      assert (a + b)[..|a + b| - 1] == a + init;
      WorkbookRecordsAppend(workbook, wb, a, init);
      ThenAssociative(WorkbookRecords(workbook, wb, a), WorkbookRecords(workbook, wb, init),
                      SheetStep(workbook, wb, last));
    }
  }

  /** The concatenated table before the block number is dropped. */
  function Provenance<V>(t: Tagged<V>): Row<V> {
    map[SourceWorkbook := Text(t.workbook), SourceSheet := Text(t.sheet), ExtractionBlock := Number(t.blockNo)]
  }

  /** The values of one block row under the block's column names. */
  function RowFields<V>(columns: seq<string>, values: seq<Option<V>>): Row<V>
    decreases |columns|
  {
    if columns == [] || values == [] then map[]
    else RowFields(columns[1..], values[1..])[columns[0] := Value(values[0])]
  }

  /** Row `i` of a tagged block: the provenance columns inserted in front of
      the block's own. */
  function TaggedRow<V>(t: Tagged<V>, i: nat): Row<V>
    requires i < |t.block.rows|
  {
    RowFields(t.block.columns, t.block.rows[i]) + Provenance(t)
  }

  function RecordRows<V>(t: Tagged<V>): (rows: seq<Row<V>>)
    ensures |rows| == |t.block.rows|
  {
    seq(|t.block.rows|, i requires 0 <= i < |t.block.rows| => TaggedRow(t, i))
  }

  /** `pd.concat(all_data, ignore_index=True)`: the rows of every block, block
      after block; the columns are the union of all blocks' columns. */
  function ConcatRows<V>(records: seq<Tagged<V>>): seq<Row<V>> {
    if records == [] then []
    else ConcatRows(records[..|records| - 1]) + RecordRows(records[|records| - 1])
  }

  function Columns<V>(records: seq<Tagged<V>>): set<string> {
    if records == [] then {}
    else
      var last := records[|records| - 1];
      Columns(records[..|records| - 1]) + {SourceWorkbook, SourceSheet, ExtractionBlock}
        + (set c | c in last.block.columns)
  }

  function Concat<V>(records: seq<Tagged<V>>): Table<V> {
    Table(Columns(records), ConcatRows(records))
  }

  /** `table.drop(columns=[name])`. */
  function DropColumn<V>(t: Table<V>, name: string): (r: Table<V>)
    ensures r.columns == t.columns - {name}
    ensures |r.rows| == |t.rows|
    ensures forall i :: 0 <= i < |t.rows| ==> r.rows[i] == t.rows[i] - {name}
  {
    Table(t.columns - {name}, seq(|t.rows|, i requires 0 <= i < |t.rows| => t.rows[i] - {name}))
  }

  /** The table handed to the writer: the concatenation without the block
      number column. */
  function Output<V>(records: seq<Tagged<V>>): (t: Table<V>)
    ensures ExtractionBlock !in t.columns
    ensures forall i :: 0 <= i < |t.rows| ==> ExtractionBlock !in t.rows[i]
  {
    var t := Concat(records);
    if ExtractionBlock in t.columns then DropColumn(t, ExtractionBlock)
    else
      ConcatRowsLack(records);
      t
  }

  /** Without any record there is no column, and so no "Extraction Block". */
  lemma {:induction false} ConcatRowsLack<V>(records: seq<Tagged<V>>)
    requires ExtractionBlock !in Columns(records)
    ensures forall i :: 0 <= i < |ConcatRows(records)| ==> ExtractionBlock !in ConcatRows(records)[i]
  {
    assert records == [];
  }

  /** The whole run as a function of the folder and the configuration. */
  function Consolidate<V>(folder: seq<Entry<V>>, config: Config): RunOutcome<V>
    requires EntriesRectangular(folder)
  {
    CandidatesRectangular(folder);
    Run(CandidateFiles(folder), config)
  }

  /** The run over the candidate files, in order. */
  function Run<V>(files: seq<Entry<V>>, config: Config): RunOutcome<V>
    requires EntriesRectangular(files)
  {
    if files == [] then NoExcelFiles
    else
      match FolderRecords(files, config)
      case Failure(e) => Raised(e)
      case Success(allData) => if allData == [] then NoDataExtracted else Consolidated(Output(allData))
  }

  /** `consolidate_cells_from_workbooks`, with opening and reading given as
      outcomes and the final write left to the caller. */
  method ConsolidateCellsFromWorkbooks<V>(folder: seq<Entry<V>>, config: Config)
    returns (outcome: RunOutcome<V>)
    requires EntriesRectangular(folder)
    ensures outcome == Consolidate(folder, config)
  {
    var files := CandidateFiles(folder);
    CandidatesRectangular(folder);
    if files == [] {
      return NoExcelFiles;
    }
    var r := AppendFolderBlocks(files, config);
    if r.Failure? {
      return Raised(r.error);
    }
    outcome := Finish(r.value);
  }

  /** The file loop: the records of every candidate file in order, or the
      error of the first reference that raises, which ends the run. */
  method AppendFolderBlocks<V>(files: seq<Entry<V>>, config: Config)
    returns (r: Result<seq<Tagged<V>>, RefError>)
    requires EntriesRectangular(files)
    ensures r == FolderRecords(files, config)
  {
    var allData: seq<Tagged<V>> := [];
    var i := 0;
    PrefixRectangular(files, 0);
    while i < |files|
      invariant 0 <= i <= |files|
      invariant EntriesRectangular(files[..i])
      invariant FolderRecords(files[..i], config) == Success(allData)
    {
      var entry := files[i];
      assert files[..i + 1] == files[..i] + [entry];
      PrefixRectangular(files, i + 1);
      FolderRecordsStep(files[..i], entry, config);
      var step := AppendFileBlocks(allData, entry, config);
      if step.Failure? {
        FolderFailurePersists(files, i + 1, config);
        return step;
      }
      allData := step.value;
      i := i + 1;
    }
    assert files[..|files|] == files;
    r := Success(allData);
  }

  /** One file of the folder loop: appends the records of its sheets to
      `allData`, or nothing when it cannot be opened. */
  method AppendFileBlocks<V>(allData: seq<Tagged<V>>, entry: Entry<V>, config: Config)
    returns (r: Result<seq<Tagged<V>>, RefError>)
    requires entry.workbook.Some? ==> WorkbookRectangular(entry.workbook.value)
    ensures r == Then(Success(allData), FileRecords(entry, config))
  {
    if entry.workbook.Some? {
      var xls := entry.workbook.value;
      var sheetsToProcess := SheetsToProcess(config, xls);
      r := AppendWorkbookBlocks(allData, entry.name, xls, sheetsToProcess);
    } else {
      assert allData + [] == allData;
      r := Success(allData);
    }
  }

  /** After the loop: no records means no data; otherwise the records are
      concatenated and the block number column is dropped. */
  method Finish<V>(allData: seq<Tagged<V>>) returns (outcome: RunOutcome<V>)
    ensures outcome == if allData == [] then NoDataExtracted else Consolidated(Output(allData))
  {
    if allData == [] {
      return NoDataExtracted;
    }
    var consolidated := Concat(allData);
    if ExtractionBlock in consolidated.columns {
      consolidated := DropColumn(consolidated, ExtractionBlock);
    }
    outcome := Consolidated(consolidated);
  }

  /** The sheet loop of one workbook: appends the records of its sheets to
      `allData`, or stops at the first sheet whose extraction raises. */
  method AppendWorkbookBlocks<V>(allData: seq<Tagged<V>>, workbook: string, xls: Workbook<V>, sheets: Config)
    returns (r: Result<seq<Tagged<V>>, RefError>)
    requires WorkbookRectangular(xls)
    ensures r == Then(Success(allData), WorkbookRecords(workbook, xls, sheets))
  {
    var acc := allData;
    assert sheets[..0] == [] && allData + [] == allData;
    for j := 0 to |sheets|
      invariant Then(Success(allData), WorkbookRecords(workbook, xls, sheets[..j])) == Success(acc)
    {
      var sheetName, refs := sheets[j].0, sheets[j].1;
      assert sheets[..j + 1] == sheets[..j] + [sheets[j]];
      WorkbookRecordsStep(workbook, xls, sheets[..j], sheets[j]);
      ThenAssociative(Success(allData), WorkbookRecords(workbook, xls, sheets[..j]), SheetStep(workbook, xls, sheets[j]));
      if sheetName in xls && xls[sheetName].Some? {
        var appended := AppendSheetBlocks(acc, workbook, sheetName, xls[sheetName].value, refs);
        if appended.Failure? {
          WorkbookFailurePersists(workbook, xls, sheets, j + 1);
          return appended;
        }
        acc := appended.value;
      } else {
        assert acc + [] == acc;
      }
    }
    assert sheets[..|sheets|] == sheets;
    r := Success(acc);
  }

  /** One readable sheet: its blocks, tagged, appended to `allData`; or the
      error its extraction raises. */
  method AppendSheetBlocks<V>(allData: seq<Tagged<V>>, workbook: string, sheet: string, df: Grid<V>,
                              refs: seq<string>)
    returns (r: Result<seq<Tagged<V>>, RefError>)
    requires Rectangular(df)
    ensures r == Then(Success(allData), SheetRecords(workbook, sheet, df, refs))
  {
    var extracted := ExtractCellsFromSheet(df, refs);
    if extracted.Failure? {
      return Failure(extracted.error);
    }
    var tagged := AppendTagged(allData, workbook, sheet, extracted.value);
    r := Success(tagged);
  }

  /** The block loop of one sheet: appends its blocks, tagged, to `allData`. */
  method AppendTagged<V>(allData: seq<Tagged<V>>, workbook: string, sheet: string, blocks: seq<Block<V>>)
    returns (r: seq<Tagged<V>>)
    ensures r == allData + TagBlocks(workbook, sheet, blocks)
  {
    r := allData;
    for idx := 0 to |blocks|
      invariant r == allData + TagBlocks(workbook, sheet, blocks[..idx])
    {
      assert blocks[..idx + 1][..idx] == blocks[..idx];
      r := r + [Tagged(workbook, sheet, idx + 1, blocks[idx])];
    }
    assert blocks[..|blocks|] == blocks;
  }

  /** Once a file's extraction raises, later files do not change the error. */
  lemma FolderFailurePersists<V>(files: seq<Entry<V>>, k: nat, config: Config)
    requires EntriesRectangular(files) && k <= |files|
    requires FolderRecords(files[..k], config).Failure?
    ensures FolderRecords(files, config) == FolderRecords(files[..k], config)
  {
    assert files[..k] + files[k..] == files;
    FolderRecordsAppend(files[..k], files[k..], config);
  }

  /** Once a sheet's extraction raises, later sheets do not change the error. */
  lemma WorkbookFailurePersists<V>(workbook: string, wb: Workbook<V>, sheets: Config, k: nat)
    requires WorkbookRectangular(wb) && k <= |sheets|
    requires WorkbookRecords(workbook, wb, sheets[..k]).Failure?
    ensures WorkbookRecords(workbook, wb, sheets) == WorkbookRecords(workbook, wb, sheets[..k])
  {
    assert sheets[..k] + sheets[k..] == sheets;
    WorkbookRecordsAppend(workbook, wb, sheets[..k], sheets[k..]);
  }

  // Which files and sheets contribute

  /** A file whose records are empty leaves the records of the others as
      they are. */
  lemma EmptyFileRecords<V>(a: seq<Entry<V>>, e: Entry<V>, b: seq<Entry<V>>, config: Config)
    requires EntriesRectangular(a + [e] + b) && EntriesRectangular(a + b)
    requires FileRecords(e, config) == Success([])
    ensures FolderRecords(a + [e] + b, config) == FolderRecords(a + b, config)
  {
    assert forall x :: x in a + [e] ==> x in a + [e] + b;
    FolderRecordsAppend(a + [e], b, config);
    FolderRecordsAppend(a, [e], config);
    FolderRecordsAppend(a, b, config);
    SingleFileRecords(e, config);
    ThenEmpty(FolderRecords(a, config));
  }

  lemma SingleFileRecords<V>(e: Entry<V>, config: Config)
    requires EntriesRectangular([e])
    ensures FolderRecords([e], config) == FileRecords(e, config)
  {
    assert [] + [e] == [e];
    FolderRecordsStep([], e, config);
    ThenEmpty(FileRecords(e, config));
  }

  /** A file whose records are empty (it cannot be opened, or has none of
      the configured sheets) changes nothing, except that a folder whose only
      candidate it is ends with "no data" rather than "no files". */
  lemma ContributesNothing<V>(a: seq<Entry<V>>, e: Entry<V>, b: seq<Entry<V>>, config: Config)
    requires EntriesRectangular(a + [e] + b) && EntriesRectangular(a + b)
    requires IsCandidate(e.name) && FileRecords(e, config) == Success([])
    ensures Consolidate(a + [e] + b, config)
            == if CandidateFiles(a + b) == [] then NoDataExtracted else Consolidate(a + b, config)
  {
    CandidateFilesAppend(a + [e], b);
    CandidateFilesAppend(a, [e]);
    CandidateFilesAppend(a, b);
    assert [e][..0] == [];
    var ca, cb := CandidateFiles(a), CandidateFiles(b);
    assert CandidateFiles(a + [e] + b) == ca + [e] + cb;
    CandidatesRectangular(a + [e] + b);
    CandidatesRectangular(a + b);
    RunDropsEmptyFile(ca, e, cb, config);
  }

  lemma RunDropsEmptyFile<V>(a: seq<Entry<V>>, e: Entry<V>, b: seq<Entry<V>>, config: Config)
    requires EntriesRectangular(a + [e] + b) && EntriesRectangular(a + b)
    requires FileRecords(e, config) == Success([])
    ensures Run(a + [e] + b, config) == if a + b == [] then NoDataExtracted else Run(a + b, config)
  {
    EmptyFileRecords(a, e, b, config);
  }

  /** A file that cannot be opened is skipped and the run goes on. */
  lemma UnopenableFileSkipped<V>(a: seq<Entry<V>>, name: string, b: seq<Entry<V>>, config: Config)
    requires EntriesRectangular(a + [Entry(name, None)] + b) && EntriesRectangular(a + b)
    requires IsCandidate(name)
    ensures Consolidate(a + [Entry(name, None)] + b, config)
            == if CandidateFiles(a + b) == [] then NoDataExtracted else Consolidate(a + b, config)
  {
    ContributesNothing(a, Entry(name, None), b, config);
  }

  /** A workbook that has none of the configured sheets contributes no rows,
      and the run goes on without error. */
  lemma NoMatchingSheetsSkipped<V>(a: seq<Entry<V>>, name: string, wb: Workbook<V>, b: seq<Entry<V>>,
                                   config: Config)
    requires EntriesRectangular(a + [Entry(name, Some(wb))] + b) && EntriesRectangular(a + b)
    requires IsCandidate(name)
    requires forall c :: c in config ==> c.0 !in wb
    ensures Consolidate(a + [Entry(name, Some(wb))] + b, config)
            == if CandidateFiles(a + b) == [] then NoDataExtracted else Consolidate(a + b, config)
  {
    var e := Entry(name, Some(wb));
    assert e in a + [e] + b;
    NoConfiguredSheet(config, wb);
    ContributesNothing(a, e, b, config);
  }

  lemma {:induction false} NoConfiguredSheet<V>(config: Config, wb: Workbook<V>)
    requires forall c :: c in config ==> c.0 !in wb
    ensures SheetsToProcess(config, wb) == []
    decreases |config|
  {
    if config != [] {
      var init := config[..|config| - 1];
      assert forall c :: c in init ==> c in config;
      assert config[|config| - 1] in config;
      NoConfiguredSheet(init, wb);
    }
  }

  /** A file that is not a candidate is never opened: removing it changes nothing. */
  lemma NonCandidateIgnored<V>(a: seq<Entry<V>>, e: Entry<V>, b: seq<Entry<V>>, config: Config)
    requires EntriesRectangular(a + [e] + b) && EntriesRectangular(a + b)
    requires !IsCandidate(e.name)
    ensures Consolidate(a + [e] + b, config) == Consolidate(a + b, config)
  {
    CandidateFilesAppend(a + [e], b);
    CandidateFilesAppend(a, [e]);
    CandidateFilesAppend(a, b);
    assert [e][..0] == [];
    assert CandidateFiles([e]) == [];
    assert CandidateFiles(a + [e] + b) == CandidateFiles(a + b);
  }

  /** A sheet that cannot be read is skipped exactly as if the workbook did
      not have it. */
  lemma {:induction false} UnreadableSheetLikeMissing<V>(workbook: string, wb: Workbook<V>, sheet: string,
                                                        config: Config)
    requires WorkbookRectangular(wb)
    ensures WorkbookRectangular(wb[sheet := None]) && WorkbookRectangular(wb - {sheet})
    ensures WorkbookRecords(workbook, wb[sheet := None], SheetsToProcess(config, wb[sheet := None]))
            == WorkbookRecords(workbook, wb - {sheet}, SheetsToProcess(config, wb - {sheet}))
    decreases |config|
  {
    var w1, w2 := wb[sheet := None], wb - {sheet};
    if config != [] {
      var init, last := config[..|config| - 1], config[|config| - 1];
      UnreadableSheetLikeMissing(workbook, wb, sheet, init);
      var l1, l2 := SheetsToProcess(init, w1), SheetsToProcess(init, w2);
      var r := WorkbookRecords(workbook, w1, l1);
      if last.0 == sheet {
        assert SheetsToProcess(config, w1) == l1 + [last];
        assert SheetsToProcess(config, w2) == l2;
        WorkbookRecordsStep(workbook, w1, l1, last);
        assert SheetStep(workbook, w1, last) == Success([]);
        ThenEmpty(r);
      } else if last.0 in wb {
        assert SheetsToProcess(config, w1) == l1 + [last];
        assert SheetsToProcess(config, w2) == l2 + [last];
        WorkbookRecordsStep(workbook, w1, l1, last);
        WorkbookRecordsStep(workbook, w2, l2, last);
        assert w1[last.0] == w2[last.0];
        assert SheetStep(workbook, w1, last) == SheetStep(workbook, w2, last);
      } else {
        assert SheetsToProcess(config, w1) == l1;
        assert SheetsToProcess(config, w2) == l2;
      }
    }
  }

  // Where records come from, and that none is missing

  /** Record `t` is block number `t.blockNo` of a configured sheet `t.sheet`
      that workbook `wb` has and that could be read. */
  ghost predicate FromSheet<V>(t: Tagged<V>, wb: Workbook<V>, config: Config)
    requires WorkbookRectangular(wb)
  {
    && t.sheet in wb && wb[t.sheet].Some?
    && exists c :: c in config && c.0 == t.sheet && 1 <= t.blockNo <= |c.1|
                   && ExtractOne(wb[t.sheet].value, c.1[t.blockNo - 1]) == Success(t.block)
  }

  /** Record `t` comes from entry `e`: a workbook that was opened. */
  ghost predicate ExtractedFrom<V>(t: Tagged<V>, e: Entry<V>, config: Config) {
    && e.workbook.Some? && WorkbookRectangular(e.workbook.value)
    && t.workbook == e.name && FromSheet(t, e.workbook.value, config)
  }

  lemma {:induction false} WorkbookRecordsProvenance<V>(workbook: string, wb: Workbook<V>, sheets: Config,
                                                       config: Config)
    requires WorkbookRectangular(wb)
    requires forall c :: c in sheets ==> c in config
    requires WorkbookRecords(workbook, wb, sheets).Success?
    ensures forall t :: t in WorkbookRecords(workbook, wb, sheets).value ==>
              t.workbook == workbook && FromSheet(t, wb, config)
    decreases |sheets|
  {
    if sheets != [] {
      var init, last := sheets[..|sheets| - 1], sheets[|sheets| - 1];
      assert forall c :: c in init ==> c in sheets;
      WorkbookRecordsProvenance(workbook, wb, init, config);
      if last.0 in wb && wb[last.0].Some? {
        var grid := wb[last.0].value;
        ExtractSuccess(grid, last.1);
        var blocks := Extract(grid, last.1).value;
        var tagged := TagBlocks(workbook, last.0, blocks);
        assert last in sheets;
        forall t | t in tagged
          ensures t.workbook == workbook && FromSheet(t, wb, config)
        {
          var i :| 0 <= i < |tagged| && tagged[i] == t;
          assert ExtractOne(grid, last.1[i]) == Success(blocks[i]);
        }
      }
    }
  }

  /** Soundness: every record is a block of a configured reference of a
      configured, readable sheet of an opened file of the list, tagged with
      that file, that sheet and the reference's 1-based position. */
  lemma {:induction false} FolderRecordsProvenance<V>(files: seq<Entry<V>>, config: Config)
    requires EntriesRectangular(files)
    requires FolderRecords(files, config).Success?
    ensures forall t :: t in FolderRecords(files, config).value ==>
              exists e :: e in files && ExtractedFrom(t, e, config)
    decreases |files|
  {
    if files != [] {
      var init, last := files[..|files| - 1], files[|files| - 1];
      assert forall e :: e in init ==> e in files;
      FolderRecordsProvenance(init, config);
      assert last in files;
      if last.workbook.Some? {
        var wb := last.workbook.value;
        WorkbookRecordsProvenance(last.name, wb, SheetsToProcess(config, wb), config);
      }
    }
  }

  /** Reference number `k + 1` of configured sheet `c` raises `err` on
      workbook `wb`, which has that sheet and could read it. */
  ghost predicate RaisesAt<V>(wb: Workbook<V>, c: (string, seq<string>), k: nat, err: RefError)
    requires WorkbookRectangular(wb)
  {
    c.0 in wb && wb[c.0].Some? && k < |c.1| && ExtractOne(wb[c.0].value, c.1[k]) == Failure(err)
  }

  lemma {:induction false} WorkbookRecordsFailure<V>(workbook: string, wb: Workbook<V>, sheets: Config,
                                                     config: Config)
    requires WorkbookRectangular(wb)
    requires forall c :: c in sheets ==> c in config
    requires WorkbookRecords(workbook, wb, sheets).Failure?
    ensures exists c, k :: c in config && RaisesAt(wb, c, k, WorkbookRecords(workbook, wb, sheets).error)
    decreases |sheets|
  {
    var init, last := sheets[..|sheets| - 1], sheets[|sheets| - 1];
    assert last in sheets;
    if WorkbookRecords(workbook, wb, init).Failure? {
      assert forall c :: c in init ==> c in sheets;
      WorkbookRecordsFailure(workbook, wb, init, config);
    } else {
      var grid := wb[last.0].value;
      ExtractFailure(grid, last.1);
      var k :| 0 <= k < |last.1| && ExtractOne(grid, last.1[k]) == Failure(Extract(grid, last.1).error);
      assert RaisesAt(wb, last, k, WorkbookRecords(workbook, wb, sheets).error);
    }
  }

  /** An error comes from a reference: some opened file of the list has a
      configured sheet, that sheet could be read, and one of its references
      raises exactly that error. */
  lemma {:induction false} FolderRecordsFailure<V>(files: seq<Entry<V>>, config: Config)
    requires EntriesRectangular(files)
    requires FolderRecords(files, config).Failure?
    ensures exists e :: e in files && e.workbook.Some?
                        && WorkbookRectangular(e.workbook.value)
                        && exists c, k :: c in config && RaisesAt(e.workbook.value, c, k, FolderRecords(files, config).error)
    decreases |files|
  {
    var init, last := files[..|files| - 1], files[|files| - 1];
    assert last in files;
    assert forall e :: e in init ==> e in files;
    if FolderRecords(init, config).Failure? {
      FolderRecordsFailure(init, config);
      var e :| e in init && e.workbook.Some? && WorkbookRectangular(e.workbook.value)
               && exists c, k :: c in config && RaisesAt(e.workbook.value, c, k, FolderRecords(init, config).error);
      assert e in files;
    } else {
      var wb := last.workbook.value;
      WorkbookRecordsFailure(last.name, wb, SheetsToProcess(config, wb), config);
    }
  }

  /** Every record can be tagged without a clash: its block is well formed,
      its column names are distinct and none is a provenance name. */
  lemma RecordsTaggable<V>(files: seq<Entry<V>>, config: Config)
    requires EntriesRectangular(files)
    requires FolderRecords(files, config).Success?
    ensures forall t :: t in FolderRecords(files, config).value ==>
              WellFormed(t.block) && DistinctColumns(t.block) && ProvenanceFree(t.block)
  {
    FolderRecordsProvenance(files, config);
    forall t | t in FolderRecords(files, config).value
      ensures WellFormed(t.block) && DistinctColumns(t.block) && ProvenanceFree(t.block)
    {
      var e :| e in files && ExtractedFrom(t, e, config);
      var wb := e.workbook.value;
      var c :| c in config && c.0 == t.sheet && 1 <= t.blockNo <= |c.1|
               && ExtractOne(wb[t.sheet].value, c.1[t.blockNo - 1]) == Success(t.block);
      ExtractedBlockTaggable(wb[t.sheet].value, c.1[t.blockNo - 1]);
    }
  }

  /** A run that raises was stopped by a reference: a candidate file that
      opened has a configured, readable sheet one of whose references raises
      that very error. */
  lemma RaisedByReference<V>(folder: seq<Entry<V>>, config: Config)
    requires EntriesRectangular(folder)
    requires Consolidate(folder, config).Raised?
    ensures exists e :: e in folder && IsCandidate(e.name) && e.workbook.Some?
                        && WorkbookRectangular(e.workbook.value)
                        && exists c, k :: c in config && RaisesAt(e.workbook.value, c, k, Consolidate(folder, config).error)
  {
    var files := CandidateFiles(folder);
    CandidateFilesMembers(folder);
    CandidatesRectangular(folder);
    assert Consolidate(folder, config).error == FolderRecords(files, config).error;
    FolderRecordsFailure(files, config);
    var e :| e in files && e.workbook.Some? && WorkbookRectangular(e.workbook.value)
             && exists c, k :: c in config && RaisesAt(e.workbook.value, c, k, FolderRecords(files, config).error);
    assert e in folder && IsCandidate(e.name);
  }

  /** One bad reference stops the whole run: when a reference of a
      configured, readable sheet of a candidate file that opens raises, the
      run ends with an error rather than a table, whatever the other files
      hold. */
  lemma BadReferenceStopsRun<V>(folder: seq<Entry<V>>, config: Config, e: Entry<V>,
                                c: (string, seq<string>), k: nat, err: RefError)
    requires EntriesRectangular(folder)
    requires e in folder && IsCandidate(e.name) && e.workbook.Some? && c in config
    requires RaisesAt(e.workbook.value, c, k, err)
    ensures Consolidate(folder, config).Raised?
  {
    var files := CandidateFiles(folder);
    CandidateFilesMembers(folder);
    CandidatesRectangular(folder);
    assert e in files;
    if FolderRecords(files, config).Success? {
      FolderRecordsComplete(files, config);
      assert false;
    }
  }

  /** A consolidated table is the output of a non-empty list of records, each
      one a block extracted from a candidate file and each one taggable. */
  lemma ConsolidatedTable<V>(folder: seq<Entry<V>>, config: Config)
    requires EntriesRectangular(folder)
    requires Consolidate(folder, config).Consolidated?
    ensures exists rs :: && rs != [] && Consolidate(folder, config).table == Output(rs)
                         && (forall t :: t in rs ==> exists e :: e in folder && IsCandidate(e.name) && ExtractedFrom(t, e, config))
                         && (forall t :: t in rs ==> WellFormed(t.block) && DistinctColumns(t.block) && ProvenanceFree(t.block))
  {
    var files := CandidateFiles(folder);
    CandidateFilesMembers(folder);
    CandidatesRectangular(folder);
    var rs := FolderRecords(files, config).value;
    FolderRecordsProvenance(files, config);
    RecordsTaggable(files, config);
    assert Consolidate(folder, config).table == Output(rs);
  }

  /** Every reference of sheet entry `c`, when the workbook has that sheet
      and it could be read, resolved and its block is among `records`,
      tagged with the file, the sheet and its 1-based position. */
  ghost predicate SheetCovered<V>(workbook: string, wb: Workbook<V>, c: (string, seq<string>),
                                  records: seq<Tagged<V>>)
    requires WorkbookRectangular(wb)
  {
    c.0 in wb && wb[c.0].Some? ==>
      forall i :: 0 <= i < |c.1| ==>
        && ExtractOne(wb[c.0].value, c.1[i]).Success?
        && Tagged(workbook, c.0, i + 1, ExtractOne(wb[c.0].value, c.1[i]).value) in records
  }

  lemma CoveredSubset<V>(workbook: string, wb: Workbook<V>, c: (string, seq<string>),
                         records: seq<Tagged<V>>, bigger: seq<Tagged<V>>)
    requires WorkbookRectangular(wb)
    requires SheetCovered(workbook, wb, c, records)
    requires forall t :: t in records ==> t in bigger
    ensures SheetCovered(workbook, wb, c, bigger)
  {
  }

  /** Every reference of a readable sheet yields its record. */
  lemma SheetStepCovered<V>(workbook: string, wb: Workbook<V>, c: (string, seq<string>))
    requires WorkbookRectangular(wb)
    requires SheetStep(workbook, wb, c).Success?
    ensures SheetCovered(workbook, wb, c, SheetStep(workbook, wb, c).value)
  {
    if c.0 in wb && wb[c.0].Some? {
      var grid := wb[c.0].value;
      ExtractSuccess(grid, c.1);
      var blocks := Extract(grid, c.1).value;
      var tagged := TagBlocks(workbook, c.0, blocks);
      assert SheetStep(workbook, wb, c).value == tagged;
      forall i | 0 <= i < |c.1|
        ensures ExtractOne(grid, c.1[i]).Success?
        ensures Tagged(workbook, c.0, i + 1, ExtractOne(grid, c.1[i]).value) in tagged
      {
        assert tagged[i] == Tagged(workbook, c.0, i + 1, blocks[i]);
      }
    }
  }

  lemma {:induction false} WorkbookRecordsComplete<V>(workbook: string, wb: Workbook<V>, sheets: Config)
    requires WorkbookRectangular(wb)
    requires WorkbookRecords(workbook, wb, sheets).Success?
    ensures forall c :: c in sheets ==> SheetCovered(workbook, wb, c, WorkbookRecords(workbook, wb, sheets).value)
    decreases |sheets|
  {
    if sheets != [] {
      var init, last := sheets[..|sheets| - 1], sheets[|sheets| - 1];
      assert sheets == init + [last];
      WorkbookRecordsStep(workbook, wb, init, last);
      WorkbookRecordsComplete(workbook, wb, init);
      var acc := WorkbookRecords(workbook, wb, init).value;
      var more := SheetStep(workbook, wb, last).value;
      var rs := WorkbookRecords(workbook, wb, sheets).value;
      assert rs == acc + more;
      SheetStepCovered(workbook, wb, last);
      CoveredSubset(workbook, wb, last, more, rs);
      forall c | c in init ensures SheetCovered(workbook, wb, c, rs) {
        CoveredSubset(workbook, wb, c, acc, rs);
      }
    }
  }

  /** Completeness: when no reference raises, every reference of every
      configured sheet of every opened file of the list yields a record. */
  lemma {:induction false} FolderRecordsComplete<V>(files: seq<Entry<V>>, config: Config)
    requires EntriesRectangular(files)
    requires FolderRecords(files, config).Success?
    ensures forall e, c :: e in files && e.workbook.Some? && c in config ==>
              SheetCovered(e.name, e.workbook.value, c, FolderRecords(files, config).value)
    decreases |files|
  {
    if files != [] {
      var init, last := files[..|files| - 1], files[|files| - 1];
      assert files == init + [last];
      FolderRecordsStep(init, last, config);
      FolderRecordsComplete(init, config);
      var acc := FolderRecords(init, config).value;
      var more := FileRecords(last, config).value;
      var rs := FolderRecords(files, config).value;
      assert rs == acc + more;
      if last.workbook.Some? {
        LastFileCovered(last, config, rs);
      }
      forall e, c | e in init && e.workbook.Some? && c in config
        ensures SheetCovered(e.name, e.workbook.value, c, rs)
      {
        CoveredSubset(e.name, e.workbook.value, c, acc, rs);
      }
    }
  }

  lemma LastFileCovered<V>(e: Entry<V>, config: Config, rs: seq<Tagged<V>>)
    requires e.workbook.Some? && WorkbookRectangular(e.workbook.value)
    requires FileRecords(e, config).Success?
    requires forall t :: t in FileRecords(e, config).value ==> t in rs
    ensures forall c :: c in config ==> SheetCovered(e.name, e.workbook.value, c, rs)
  {
    var wb := e.workbook.value;
    var sheets := SheetsToProcess(config, wb);
    WorkbookRecordsComplete(e.name, wb, sheets);
    forall c | c in config ensures SheetCovered(e.name, wb, c, rs) {
      if c.0 in wb {
        assert c in sheets;
        CoveredSubset(e.name, wb, c, FileRecords(e, config).value, rs);
      }
    }
  }

  // The output table

  /** Number of rows of the records' blocks, in total. */
  function TotalRows<V>(records: seq<Tagged<V>>): nat {
    if records == [] then 0 else TotalRows(records[..|records| - 1]) + |records[|records| - 1].block.rows|
  }

  /** Concatenation stacks the rows of the records in order. */
  lemma {:induction false} ConcatRowsAppend<V>(a: seq<Tagged<V>>, b: seq<Tagged<V>>)
    ensures ConcatRows(a + b) == ConcatRows(a) + ConcatRows(b)
    decreases |b|
  {
    if b == [] {
      assert a + b == a;
    } else {
      var init, last := b[..|b| - 1], b[|b| - 1];
      assert (a + b)[..|a + b| - 1] == a + init;
      assert (a + b)[|a + b| - 1] == last;
      ConcatRowsAppend(a, init);
      assert ConcatRows(a + b) == ConcatRows(a + init) + RecordRows(last);
      assert ConcatRows(b) == ConcatRows(init) + RecordRows(last);
    }
  }

  lemma {:induction false} TotalRowsAppend<V>(a: seq<Tagged<V>>, b: seq<Tagged<V>>)
    ensures TotalRows(a + b) == TotalRows(a) + TotalRows(b)
    decreases |b|
  {
    if b == [] {
      assert a + b == a;
    } else {
      var init := b[..|b| - 1];
      assert (a + b)[..|a + b| - 1] == a + init;
      TotalRowsAppend(a, init);
    }
  }

  lemma {:induction false} ConcatRowsLength<V>(records: seq<Tagged<V>>)
    ensures |ConcatRows(records)| == TotalRows(records)
    decreases |records|
  {
    if records != [] {
      ConcatRowsLength(records[..|records| - 1]);
    }
  }

  /** A block row's cells under the block's column names: one entry per
      column, each holding its own cell. */
  lemma RowFieldsSpec<V>(columns: seq<string>, values: seq<Option<V>>)
    requires |values| == |columns|
    requires forall i, j :: 0 <= i < j < |columns| ==> columns[i] != columns[j]
    ensures RowFields(columns, values).Keys == set c | c in columns
    ensures forall j :: 0 <= j < |columns| ==> RowFields(columns, values)[columns[j]] == Value(values[j])
  {
    RowFieldsKeys(columns, values);
    forall j | 0 <= j < |columns| ensures RowFields(columns, values)[columns[j]] == Value(values[j]) {
      RowFieldsValue(columns, values, j);
    }
  }

  lemma {:induction false} RowFieldsKeys<V>(columns: seq<string>, values: seq<Option<V>>)
    requires |values| == |columns|
    ensures RowFields(columns, values).Keys == set c | c in columns
    decreases |columns|
  {
    if columns != [] {
      RowFieldsKeys(columns[1..], values[1..]);
      assert columns == [columns[0]] + columns[1..];
    }
  }

  lemma {:induction false} RowFieldsValue<V>(columns: seq<string>, values: seq<Option<V>>, j: nat)
    requires |values| == |columns| && j < |columns|
    requires forall i :: 0 <= i < j ==> columns[i] != columns[j]
    ensures columns[j] in RowFields(columns, values)
    ensures RowFields(columns, values)[columns[j]] == Value(values[j])
    decreases |columns|
  {
    if j > 0 {
      var cs := columns[1..];
      assert forall i :: 0 <= i < j - 1 ==> cs[i] == columns[i + 1];
      RowFieldsValue(cs, values[1..], j - 1);
    }
  }

  /** No block column carries a provenance name. */
  ghost predicate ProvenanceFree<V>(b: Block<V>) {
    SourceWorkbook !in b.columns && SourceSheet !in b.columns && ExtractionBlock !in b.columns
  }

  /** Row `i` of a tagged block, as it appears in the output: the file and
      the sheet under their column names, every cell under its block column
      name, and nothing else. */
  lemma OutputRowContents<V>(t: Tagged<V>, i: nat)
    requires i < |t.block.rows|
    requires WellFormed(t.block) && DistinctColumns(t.block) && ProvenanceFree(t.block)
    ensures var row := TaggedRow(t, i) - {ExtractionBlock};
            && row.Keys == {SourceWorkbook, SourceSheet} + (set c | c in t.block.columns)
            && row[SourceWorkbook] == Text(t.workbook)
            && row[SourceSheet] == Text(t.sheet)
            && forall j :: 0 <= j < |t.block.columns| ==> row[t.block.columns[j]] == Value(t.block.rows[i][j])
  {
    var cols := t.block.columns;
    RowFieldsSpec(cols, t.block.rows[i]);
    var fields := RowFields(cols, t.block.rows[i]);
    var row := TaggedRow(t, i) - {ExtractionBlock};
    forall j | 0 <= j < |cols| ensures row[cols[j]] == Value(t.block.rows[i][j]) {
      assert cols[j] in fields.Keys;
      assert cols[j] != SourceWorkbook && cols[j] != SourceSheet && cols[j] != ExtractionBlock;
    }
  }

  /** The output is the records' rows, record after record, without the
      block number: row `i` of record `k` is output row
      `TotalRows(records[..k]) + i`. */
  lemma OutputRow<V>(records: seq<Tagged<V>>, k: nat, i: nat)
    requires k < |records| && i < |records[k].block.rows|
    ensures |Output(records).rows| == TotalRows(records)
    ensures TotalRows(records[..k]) + i < TotalRows(records)
    ensures Output(records).rows[TotalRows(records[..k]) + i] == TaggedRow(records[k], i) - {ExtractionBlock}
  {
    ConcatRowsLength(records);
    ConcatRowsAt(records, k, i);
    assert ExtractionBlock in Columns(records);
    assert Output(records) == DropColumn(Concat(records), ExtractionBlock);
  }

  /** Row `i` of record `k` sits after the rows of every earlier record. */
  lemma {:induction false} ConcatRowsAt<V>(records: seq<Tagged<V>>, k: nat, i: nat)
    requires k < |records| && i < |records[k].block.rows|
    ensures TotalRows(records[..k]) + i < |ConcatRows(records)|
    ensures ConcatRows(records)[TotalRows(records[..k]) + i] == TaggedRow(records[k], i)
    decreases |records|
  {
    var init := records[..|records| - 1];
    ConcatRowsLength(init);
    if k == |records| - 1 {
      assert records[..k] == init;
    } else {
      ConcatRowsAt(init, k, i);
      assert init[..k] == records[..k];
      assert init[k] == records[k];
    }
  }

  /** The output's columns: the file and sheet columns, and the column of
      any record's block, except the dropped block number. */
  lemma OutputColumns<V>(records: seq<Tagged<V>>, c: string)
    requires records != []
    ensures c in Output(records).columns <==>
              c != ExtractionBlock
              && (c == SourceWorkbook || c == SourceSheet
                  || exists k :: 0 <= k < |records| && c in records[k].block.columns)
  {
    ColumnsMembers(records, c);
    assert ExtractionBlock in Columns(records);
  }

  lemma {:induction false} ColumnsMembers<V>(records: seq<Tagged<V>>, c: string)
    requires records != []
    ensures c in Columns(records) <==>
              c in {SourceWorkbook, SourceSheet, ExtractionBlock}
              || exists k :: 0 <= k < |records| && c in records[k].block.columns
    decreases |records|
  {
    var init, last := records[..|records| - 1], records[|records| - 1];
    if init != [] {
      ColumnsMembers(init, c);
      if exists k :: 0 <= k < |init| && c in init[k].block.columns {
        var k :| 0 <= k < |init| && c in init[k].block.columns;
        assert records[k] == init[k];
      }
    }
    if exists k :: 0 <= k < |records| && c in records[k].block.columns {
      var k :| 0 <= k < |records| && c in records[k].block.columns;
      if k < |init| {
        assert init[k] == records[k];
      }
    }
  }

  /** A name with neither a digit nor ':' in it. */
  ghost predicate Plain(s: string) {
    forall i :: 0 <= i < |s| ==> !IsDigit(s[i]) && s[i] != ':'
  }

  /** The provenance names hold no digit and no ':'. */
  lemma ProvenanceNamesPlain()
    ensures Plain(SourceWorkbook) && Plain(SourceSheet) && Plain(ExtractionBlock)
  {
  }

  /** A cell address holds its row digits and a range holds ':', so no
      name a block column can carry is plain. */
  lemma ExtractedNameNotPlain(name: string)
    requires Indices(name).Success? || ':' in name
    ensures !Plain(name)
  {
    if Indices(name).Success? {
      assert IsDigit(name[LetterRun(name)]);
    }
  }

  /** Tagging never collides: an extracted block is well formed, its column
      names are distinct, and none is a provenance name, so inserting the
      three provenance columns cannot fail. */
  lemma ExtractedBlockTaggable<V>(grid: Grid<V>, raw: string)
    requires Rectangular(grid)
    requires ExtractOne(grid, raw).Success?
    ensures var b := ExtractOne(grid, raw).value;
            WellFormed(b) && DistinctColumns(b) && ProvenanceFree(b)
  {
    ExtractedBlockShape(grid, raw);
    ProvenanceNamesPlain();
    var b := ExtractOne(grid, raw).value;
    forall k | 0 <= k < |b.columns|
      ensures !Plain(b.columns[k])
    {
      ExtractedNameNotPlain(b.columns[k]);
    }
  }
}
