/**
  The folder manager of a test-kit workspace: the root folder set up by
  Initialize, the test-kit name rules, the reading of the Detail workbook's
  three sheets into stages, the choice of a free export file name and the
  icon shown for a file. A worksheet is a sequence of rows of cells, the
  header being row 1; the file system is a set of existing paths.
*/
module Folders {
  import opened Wrappers
  import opened Text
  import opened Paths
  import opened Records
  import opened Seqs

  // ---------------------------------------------------------------------------
  // Root folder

  datatype InitError = BlankSaveLocation | BlankProjectName

  class FolderManager {
    /** TestKitsRootFolder; a null reference is the empty string. */
    var testKitsRootFolder: string
    var projectName: string

    constructor ()
      ensures testKitsRootFolder == "" && projectName == ""
    {
      testKitsRootFolder := "";
      projectName := "";
    }

    /**
      Initialize: a blank save location or project name is refused before
      anything changes; otherwise the project name is kept and the root folder
      is the project folder inside the save location, which is returned.
    */
    method Initialize(saveLocation: string, name: string) returns (r: Result<string, InitError>)
      modifies this
      ensures IsBlank(saveLocation) ==> r == Failure(BlankSaveLocation) && unchanged(this)
      ensures !IsBlank(saveLocation) && IsBlank(name) ==> r == Failure(BlankProjectName) && unchanged(this)
      ensures !IsBlank(saveLocation) && !IsBlank(name) ==>
        && r == Success(Combine(saveLocation, name))
        && projectName == name
        && testKitsRootFolder == Combine(saveLocation, name)
        && testKitsRootFolder != ""
    {
      if IsBlank(saveLocation) {
        return Failure(BlankSaveLocation);
      }
      if IsBlank(name) {
        return Failure(BlankProjectName);
      }
      projectName := name;
      testKitsRootFolder := Combine(saveLocation, name);
      r := Success(testKitsRootFolder);
    }

    /** IsInitialized: a root folder is set and it exists among `directories`. */
    predicate IsInitialized(directories: set<string>): (r: bool)
      reads this
      ensures r ==> testKitsRootFolder in directories
      ensures testKitsRootFolder == "" ==> !r
    {
      testKitsRootFolder != "" && testKitsRootFolder in directories
    }
  }

  /**
    A fresh manager is not initialized whatever folders exist; once Initialize
    has accepted a save location and a project name and the root folder it
    returns exists, the manager is initialized.
  */
  method InitializedOnceCreated(saveLocation: string, name: string, directories: set<string>)
    returns (before: bool, after: bool)
    requires !IsBlank(saveLocation) && !IsBlank(name)
    ensures !before && after
  {
    var m := new FolderManager();
    before := m.IsInitialized(directories);
    var r := m.Initialize(saveLocation, name);
    after := m.IsInitialized(directories + {r.value});
  }

  /** A project folder inside a non-blank save location, for a relative project name, ends in that name. */
  lemma RootFolderNamesProject(saveLocation: string, name: string)
    requires !IsBlank(saveLocation) && !IsBlank(name) && !IsPathRooted(name)
    ensures var root := Combine(saveLocation, name);
      && root[..|saveLocation|] == saveLocation
      && root[|root| - |name|..] == name
  {
    assert saveLocation != [] by {
      if saveLocation == [] { assert IsBlank(saveLocation); }
    }
    assert name != [] by {
      if name == [] { assert IsBlank(name); }
    }
    CombineRelative(saveLocation, name);
  }

  /** A workbook of a test-kit folder: the file name combined with the folder. */
  function WorkbookPath(folder: string, fileName: string): string {
    Combine(folder, fileName)
  }

  /** The workbook files of a test kit. */
  function GetDetailExcelPath(folder: string): (r: string)
    ensures folder == "" ==> r == "Detail.xlsx"
    ensures folder != "" ==> r == folder + Joiner(folder) + "Detail.xlsx"
  {
    WorkbookPath(folder, "Detail.xlsx")
  }

  function GetHeaderExcelPath(folder: string): (r: string)
    ensures folder == "" ==> r == "Header.xlsx"
    ensures folder != "" ==> r == folder + Joiner(folder) + "Header.xlsx"
  {
    WorkbookPath(folder, "Header.xlsx")
  }

  /** The two workbooks of a folder are distinct files side by side in that folder. */
  lemma WorkbooksSideBySide(folder: string)
    ensures GetDetailExcelPath(folder) != GetHeaderExcelPath(folder)
    ensures |GetDetailExcelPath(folder)| == |GetHeaderExcelPath(folder)|
    ensures var n := |GetDetailExcelPath(folder)| - |"Detail.xlsx"|;
      GetDetailExcelPath(folder)[..n] == GetHeaderExcelPath(folder)[..n]
  {
    var d := GetDetailExcelPath(folder);
    var h := GetHeaderExcelPath(folder);
    var n := |d| - |"Detail.xlsx"|;
    assert d[n] == 'D' && h[n] == 'H';
  }

  // ---------------------------------------------------------------------------
  // Test-kit names

  datatype NameError = BlankName | InvalidCharacters | NameTooLong

  const MaxNameLength := 100

  /** IndexOfAny(invalid) >= 0. */
  predicate HasInvalidChar(name: string, invalid: set<char>) {
    exists i :: 0 <= i < |name| && name[i] in invalid
  }

  /**
    ValidateTestKitName: the first failing rule decides the error: blank,
    then a character of `invalid` (Path.GetInvalidFileNameChars), then more
    than 100 UTF-16 code units.
  */
  function ValidateTestKitName(name: string, invalid: set<char>): (r: Option<NameError>)
    ensures r == Some(BlankName) <==> IsBlank(name)
    ensures r == Some(InvalidCharacters) <==> !IsBlank(name) && HasInvalidChar(name, invalid)
    ensures r == Some(NameTooLong) <==>
      !IsBlank(name) && !HasInvalidChar(name, invalid) && Utf16Length(name) > MaxNameLength
    ensures r == None ==> |name| <= MaxNameLength
  {
    if IsBlank(name) then Some(BlankName)
    else if HasInvalidChar(name, invalid) then Some(InvalidCharacters)
    else if Utf16Length(name) > MaxNameLength then Some(NameTooLong)
    else None
  }

  /**
    When the separators and the drive colon are among the invalid characters
    (as they are on Windows), an accepted name is one relative path component:
    the test-kit folder lies directly inside the root folder.
  */
  lemma AcceptedNameStaysInRoot(root: string, name: string, invalid: set<char>)
    requires '\\' in invalid && '/' in invalid && ':' in invalid
    requires root != ""
    requires ValidateTestKitName(name, invalid) == None
    ensures !IsPathRooted(name)
    ensures Combine(root, name) == root + Joiner(root) + name
    ensures forall i :: 0 <= i < |name| ==> !IsDirectorySeparator(name[i])
  {
    forall i | 0 <= i < |name| ensures !IsDirectorySeparator(name[i]) && name[i] != ':' {
      assert !(name[i] in invalid);
    }
    if |name| >= 2 {
      assert name[1] != ':';
    }
  }

  // ---------------------------------------------------------------------------
  // Cells

  /**
    The value EPPlus gives for a cell: none, a boxed int, a number (double or
    decimal, with the text its ToString gives) or any other object, by the text
    its ToString gives.
  */
  datatype Cell = Null | IntCell(i: Int32) | NumberCell(value: real, shown: string) | TextCell(text: string)

  /** The (int) cast of a number: truncation toward zero. */
  function Truncate(x: real): (r: int)
    ensures 0.0 <= x ==> 0 <= r && r as real <= x < r as real + 1.0
    ensures x < 0.0 ==> r <= 0 && r as real - 1.0 < x <= r as real
  {
    if x >= 0.0 then x.Floor else -((-x).Floor)
  }

  /**
    SafeGetInt: null gives nothing, an int itself, a number its truncation,
    and anything else the Int32.TryParse of its text.
  */
  function SafeGetInt(c: Cell): (r: Option<int>)
    ensures c.Null? ==> r == None
    ensures c.IntCell? ==> r == Some(c.i)
    ensures c.NumberCell? && r.Some? ==> r.value == Truncate(c.value)
    ensures r.Some? ==> Int32Min <= r.value <= Int32Max
  {
    match c
    case Null => None
    case IntCell(i) => Some(i)
    case NumberCell(x, _) =>
      var t := Truncate(x);
      if Int32Min <= t <= Int32Max then Some(t) else None
    case TextCell(s) => TryParseInteger(s, Int32Min, Int32Max)
  }

  /** SafeGetString: the ToString of the value, the empty string for null. */
  function SafeGetString(c: Cell): (r: string)
    ensures c.Null? ==> r == ""
    ensures c.TextCell? ==> r == c.text
  {
    match c
    case Null => ""
    case IntCell(i) => IntToString(i)
    case NumberCell(_, shown) => shown
    case TextCell(s) => s
  }

  /** Apart from numbers, SafeGetInt reads back the text SafeGetString shows. */
  lemma SafeGetIntReadsText(c: Cell)
    requires !c.NumberCell?
    ensures SafeGetInt(c) == TryParseInteger(SafeGetString(c), Int32Min, Int32Max)
  {
    if c.IntCell? {
      ParseIntToString(c.i, Int32Min, Int32Max);
    }
  }

  /** An int written as text is read back as that int. */
  lemma SafeGetIntOfText(v: Int32)
    ensures SafeGetInt(TextCell(IntToString(v))) == Some(v)
  {
    ParseIntToString(v, Int32Min, Int32Max);
  }

  /** Numbers are truncated toward zero, not rounded down. */
  lemma SafeGetIntTruncates()
    ensures SafeGetInt(NumberCell(3.75, "3.75")) == Some(3)
    ensures SafeGetInt(NumberCell(-3.75, "-3.75")) == Some(-3)
  {
    assert Truncate(3.75) == 3;
    assert Truncate(-3.75) == -3;
  }

  // ---------------------------------------------------------------------------
  // Detail sheets

  type Row = seq<Cell>

  /** A worksheet: its rows from row 1 (the header) to the last used row. */
  type Sheet = seq<Row>

  /** Cells[row, col] of a row, 1-based; a cell past the end of the row is empty. */
  function CellAt(row: Row, col: nat): Cell {
    if 1 <= col <= |row| then row[col - 1] else Null
  }

  function RowStage(row: Row): Option<int> {
    SafeGetInt(CellAt(row, 1))
  }

  /** A row the loaders keep: its stage column holds a positive number. */
  predicate IsDataRow(row: Row) {
    RowStage(row).Some? && RowStage(row).value > 0
  }

  datatype SheetKind = InputClientsSheet | OutputClientsSheet | OutputServersSheet

  /** Columns Action, Input, DataType. */
  function InputRecord(stage: int, row: Row): InputClient {
    InputClient(stage, SafeGetString(CellAt(row, 2)), SafeGetString(CellAt(row, 3)), SafeGetString(CellAt(row, 4)))
  }

  /**
    Columns Method, DataResponse, Output, DataTypeMiddleWare; the StatusCode
    and ByteSize columns are not taken over (the fields keep 0).
  */
  function ClientRecord(stage: int, row: Row): OutputClient {
    OutputClient(stage, SafeGetString(CellAt(row, 2)), SafeGetString(CellAt(row, 4)), 0,
      SafeGetString(CellAt(row, 5)), SafeGetString(CellAt(row, 6)), 0)
  }

  /** Columns Method, DataRequest (column 4), Output, DataTypeMiddleware; ByteSize keeps 0. */
  function ServerRecord(stage: int, row: Row): OutputServer {
    OutputServer(stage, SafeGetString(CellAt(row, 2)), SafeGetString(CellAt(row, 4)),
      SafeGetString(CellAt(row, 5)), SafeGetString(CellAt(row, 6)), 0)
  }

  /** The record a row of the given sheet becomes, added at the end of its list. */
  function AddRecord(t: TestStage, kind: SheetKind, stage: int, row: Row): TestStage {
    match kind
    case InputClientsSheet => t.(inputClients := t.inputClients + [InputRecord(stage, row)])
    case OutputClientsSheet => t.(outputClients := t.outputClients + [ClientRecord(stage, row)])
    case OutputServersSheet => t.(outputServers := t.outputServers + [ServerRecord(stage, row)])
  }

  function StageOrEmpty(stages: map<int, TestStage>, k: int): TestStage {
    if k in stages then stages[k] else EmptyStage
  }

  /** One iteration of a loader's row loop. */
  function AddRow(stages: map<int, TestStage>, kind: SheetKind, row: Row): map<int, TestStage> {
    if IsDataRow(row) then
      var k := RowStage(row).value;
      stages[k := AddRecord(StageOrEmpty(stages, k), kind, k, row)]
    else stages
  }

  /** The dictionary after the loop has gone through `rows`, in order. */
  function LoadRows(rows: seq<Row>, kind: SheetKind, stages: map<int, TestStage>): map<int, TestStage> {
    if rows == [] then stages
    else AddRow(LoadRows(rows[..|rows| - 1], kind, stages), kind, rows[|rows| - 1])
  }

  /** Rows 2 to rowCount; nothing when the sheet has fewer than 2 rows. */
  function DataRows(sheet: Sheet): seq<Row> {
    if |sheet| < 2 then [] else sheet[1..]
  }

  /** The rows that belong to stage `k`, in sheet order. */
  function RowsOfStage(rows: seq<Row>, k: int): (r: seq<Row>)
    ensures |r| <= |rows|
    ensures k <= 0 ==> r == []
    ensures forall i :: 0 <= i < |r| ==> IsDataRow(r[i]) && RowStage(r[i]) == Some(k)
  {
    if rows == [] then []
    else
      var last := rows[|rows| - 1];
      RowsOfStage(rows[..|rows| - 1], k) + if IsDataRow(last) && RowStage(last) == Some(k) then [last] else []
  }

  /** The records of a stage's rows added one after the other. */
  function AppendRecords(t: TestStage, kind: SheetKind, k: int, rows: seq<Row>): TestStage {
    if rows == [] then t
    else AddRecord(AppendRecords(t, kind, k, rows[..|rows| - 1]), kind, k, rows[|rows| - 1])
  }

  function InputRecords(k: int, rows: seq<Row>): (r: seq<InputClient>)
    ensures |r| == |rows| && forall i :: 0 <= i < |rows| ==> r[i] == InputRecord(k, rows[i])
  {
    if rows == [] then [] else InputRecords(k, rows[..|rows| - 1]) + [InputRecord(k, rows[|rows| - 1])]
  }

  function ClientRecords(k: int, rows: seq<Row>): (r: seq<OutputClient>)
    ensures |r| == |rows| && forall i :: 0 <= i < |rows| ==> r[i] == ClientRecord(k, rows[i])
  {
    if rows == [] then [] else ClientRecords(k, rows[..|rows| - 1]) + [ClientRecord(k, rows[|rows| - 1])]
  }

  function ServerRecords(k: int, rows: seq<Row>): (r: seq<OutputServer>)
    ensures |r| == |rows| && forall i :: 0 <= i < |rows| ==> r[i] == ServerRecord(k, rows[i])
  {
    if rows == [] then [] else ServerRecords(k, rows[..|rows| - 1]) + [ServerRecord(k, rows[|rows| - 1])]
  }

  /** Appending a stage's rows extends exactly the list of the sheet's kind, by one record per row, in order. */
  lemma {:induction false} AppendRecordsLists(t: TestStage, kind: SheetKind, k: int, rows: seq<Row>)
    ensures kind == InputClientsSheet ==>
      AppendRecords(t, kind, k, rows) == t.(inputClients := t.inputClients + InputRecords(k, rows))
    ensures kind == OutputClientsSheet ==>
      AppendRecords(t, kind, k, rows) == t.(outputClients := t.outputClients + ClientRecords(k, rows))
    ensures kind == OutputServersSheet ==>
      AppendRecords(t, kind, k, rows) == t.(outputServers := t.outputServers + ServerRecords(k, rows))
    decreases |rows|
  {
    if rows != [] {
      var init := rows[..|rows| - 1];
      AppendRecordsLists(t, kind, k, init);
      match kind
      case InputClientsSheet =>
        assert t.inputClients + InputRecords(k, rows)
          == (t.inputClients + InputRecords(k, init)) + [InputRecord(k, rows[|rows| - 1])];
      case OutputClientsSheet =>
        assert t.outputClients + ClientRecords(k, rows)
          == (t.outputClients + ClientRecords(k, init)) + [ClientRecord(k, rows[|rows| - 1])];
      case OutputServersSheet =>
        assert t.outputServers + ServerRecords(k, rows)
          == (t.outputServers + ServerRecords(k, init)) + [ServerRecord(k, rows[|rows| - 1])];
    }
  }

  /** What the row loop has done for stage `k` after `rows`. */
  predicate StageLoaded(rows: seq<Row>, kind: SheetKind, stages: map<int, TestStage>, k: int) {
    && (k in LoadRows(rows, kind, stages) <==> k in stages || RowsOfStage(rows, k) != [])
    && (k in LoadRows(rows, kind, stages) ==>
      LoadRows(rows, kind, stages)[k] == AppendRecords(StageOrEmpty(stages, k), kind, k, RowsOfStage(rows, k)))
  }

  /**
    Stage by stage, the row loop gives every stage the records of its own rows
    in order: a stage is present afterwards exactly when it was before or one
    of the rows names it, and then it holds what it held (or an empty stage)
    followed by one record per such row.
  */
  lemma {:induction false} LoadRowsPerStage(rows: seq<Row>, kind: SheetKind, stages: map<int, TestStage>, k: int)
    ensures k in LoadRows(rows, kind, stages) <==> k in stages || RowsOfStage(rows, k) != []
    ensures k in LoadRows(rows, kind, stages) ==>
      LoadRows(rows, kind, stages)[k] == AppendRecords(StageOrEmpty(stages, k), kind, k, RowsOfStage(rows, k))
    decreases |rows|
  {
    if rows != [] {
      var init := rows[..|rows| - 1];
      LoadRowsPerStage(init, kind, stages, k);
      assert init + [rows[|rows| - 1]] == rows;
      LoadRowStep(init, rows[|rows| - 1], kind, stages, k);
    }
    assert StageLoaded(rows, kind, stages, k);
  }

  /** The inductive step of LoadRowsPerStage: one more row. */
  lemma LoadRowStep(init: seq<Row>, last: Row, kind: SheetKind, stages: map<int, TestStage>, k: int)
    requires StageLoaded(init, kind, stages, k)
    ensures StageLoaded(init + [last], kind, stages, k)
  {
    var rows := init + [last];
    assert rows[..|rows| - 1] == init && rows[|rows| - 1] == last;
    var before := LoadRows(init, kind, stages);
    var mine := RowsOfStage(init, k);
    assert LoadRows(rows, kind, stages) == AddRow(before, kind, last);
    if IsDataRow(last) && RowStage(last) == Some(k) {
      assert RowsOfStage(rows, k) == mine + [last];
      assert (mine + [last])[..|mine|] == mine;
      assert StageOrEmpty(before, k) == AppendRecords(StageOrEmpty(stages, k), kind, k, mine);
    } else {
      assert RowsOfStage(rows, k) == mine;
    }
  }


  /**
    LoadInputClients, LoadOutputClients and LoadOutputServers: for rows 2 to
    rowCount, a row whose stage is missing or not positive is skipped; any
    other row creates its stage on first use and adds one record to the list
    of the sheet's kind.
  */
  method LoadSheet(sheet: Sheet, kind: SheetKind, stages: map<int, TestStage>) returns (result: map<int, TestStage>)
    ensures result == LoadRows(DataRows(sheet), kind, stages)
    ensures |sheet| < 2 ==> result == stages
  {
    result := stages;
    var rowCount := |sheet|;
    if rowCount < 2 {
      return;
    }
    var row := 2;
    while row <= rowCount
      invariant 2 <= row <= rowCount + 1
      invariant result == LoadRows(sheet[1..row - 1], kind, stages)
    {
      assert sheet[1..row][..row - 2] == sheet[1..row - 1];
      result := LoadRow(result, kind, sheet[row - 1]);
      row := row + 1;
    }
    assert sheet[1..row - 1] == sheet[1..];
  }

  /** The body of a loader's row loop: skip a row without a positive stage, else create the stage if needed and add the record. */
  method LoadRow(stages: map<int, TestStage>, kind: SheetKind, row: Row) returns (result: map<int, TestStage>)
    ensures result == AddRow(stages, kind, row)
  {
    result := stages;
    var stage := SafeGetInt(CellAt(row, 1));
    if stage.None? || stage.value <= 0 {
      return;
    }
    if stage.value !in result {
      result := result[stage.value := EmptyStage];
    }
    result := result[stage.value := AddRecord(result[stage.value], kind, stage.value, row)];
  }

  /**
    A stage cell holding a number whose truncation is outside the Int32 range
    gives no stage, so its row is skipped and the dictionary is unchanged. For
    a decimal this is the source's behaviour: the cast throws and the loader's
    catch drops the row.
  */
  lemma OutOfRangeStageSkipsRow(stages: map<int, TestStage>, kind: SheetKind, row: Row)
    requires |row| > 0 && row[0].NumberCell?
    requires !(Int32Min <= Truncate(row[0].value) <= Int32Max)
    ensures RowStage(row) == None
    ensures AddRow(stages, kind, row) == stages
  {
  }

  /** A cell holding " 2 " as text names stage 2. */
  lemma PaddedTwoIsStageTwo()
    ensures SafeGetInt(TextCell(" 2 ")) == Some(2)
  {
    assert StripNumberWhite(" 2 ") == "2" by {
      assert " 2 "[1..] == "2 ";
      assert "2 "[..1] == "2";
    }
    assert DigitsValue("2") == 2 by {
      assert "2"[..0] == "";
    }
  }

  /** A cell holding "7" and a NUL terminator as text names stage 7, as int.TryParse accepts it. */
  lemma NulTerminatedSeven()
    ensures SafeGetInt(TextCell("7\0")) == Some(7)
  {
    assert StripTrailingNuls("7\0") == "7" by {
      assert "7\0"[..1] == "7";
    }
    assert DigitsValue("7") == 7 by {
      assert "7"[..0] == "";
    }
  }

  /** A sheet row by row: a header, a stage-2 row, a row without a stage, and another stage-2 row. */
  lemma LoadExample()
    ensures var sheet: Sheet := [
        [TextCell("Stage"), TextCell("Action")],
        [IntCell(2), TextCell("Login")],
        [Null, TextCell("Skipped")],
        [TextCell(" 2 "), TextCell("Logout")]];
      LoadRows(DataRows(sheet), InputClientsSheet, map[]) ==
        map[2 := TestStage([InputClient(2, "Login", "", ""), InputClient(2, "Logout", "", "")], [], [])]
  {
    var r1: Row := [IntCell(2), TextCell("Login")];
    var r2: Row := [Null, TextCell("Skipped")];
    var r3: Row := [TextCell(" 2 "), TextCell("Logout")];
    var sheet: Sheet := [[TextCell("Stage"), TextCell("Action")], r1, r2, r3];
    var rows := [r1, r2, r3];
    assert DataRows(sheet) == rows;
    var first := map[2 := TestStage([InputClient(2, "Login", "", "")], [], [])];
    assert LoadRows([r1], InputClientsSheet, map[]) == first by {
      assert [r1][..0] == [];
      assert RowStage(r1) == Some(2);
      assert CellAt(r1, 2) == TextCell("Login") && CellAt(r1, 3) == Null && CellAt(r1, 4) == Null;
      assert InputRecord(2, r1) == InputClient(2, "Login", "", "");
      assert AddRecord(EmptyStage, InputClientsSheet, 2, r1) == first[2];
    }
    assert LoadRows([r1, r2], InputClientsSheet, map[]) == first by {
      assert [r1, r2][..1] == [r1];
      assert !IsDataRow(r2);
    }
    assert RowStage(r3) == Some(2) by {
      PaddedTwoIsStageTwo();
    }
    assert InputRecord(2, r3) == InputClient(2, "Logout", "", "") by {
      assert CellAt(r3, 2) == TextCell("Logout") && CellAt(r3, 3) == Null && CellAt(r3, 4) == Null;
    }
    assert rows[..2] == [r1, r2];
    assert LoadRows(rows, InputClientsSheet, map[]) == AddRow(first, InputClientsSheet, r3);
    assert AddRecord(first[2], InputClientsSheet, 2, r3)
      == TestStage([InputClient(2, "Login", "", ""), InputClient(2, "Logout", "", "")], [], []);
  }

  // ---------------------------------------------------------------------------
  // Export file names

  /** `{prefix}_{timestamp}{extension}` (n = 0) or `{prefix}_{timestamp}_{n}{extension}`. */
  function ExportName(prefix: string, timestamp: string, extension: string, n: nat): string {
    if n == 0 then prefix + "_" + timestamp + extension
    else prefix + "_" + timestamp + "_" + NatToString(n) + extension
  }

  function ExportCandidate(folder: string, prefix: string, timestamp: string, extension: string, n: nat): string {
    Combine(folder, ExportName(prefix, timestamp, extension, n))
  }

  /** Whether a name starting with `prefix + "_"` is rooted depends on the prefix alone. */
  lemma NameRooted(prefix: string, name: string)
    requires StartsWith(name, prefix + "_")
    ensures IsPathRooted(name) == (|prefix| >= 1 && IsPathRooted(prefix + "_"))
  {
    var p := prefix + "_";
    if |prefix| >= 1 {
      assert name[..2] == p[..2] by {
        assert name[..|p|] == p;
      }
      RootedByPrefix(name, p);
    } else {
      assert name[0] == p[0] == '_';
    }
  }

  /** Distinct counters give distinct names. */
  lemma ExportNamesDistinct(prefix: string, timestamp: string, extension: string, m: nat, n: nat)
    requires m < n
    ensures ExportName(prefix, timestamp, extension, m) != ExportName(prefix, timestamp, extension, n)
  {
    var head := prefix + "_" + timestamp + "_";
    var a := ExportName(prefix, timestamp, extension, m);
    var b := ExportName(prefix, timestamp, extension, n);
    if m > 0 {
      var dm := NatToString(m);
      var dn := NatToString(n);
      assert a == head + dm + extension;
      assert b == head + dn + extension;
      if |dm| == |dn| {
        assert dm == a[|head|..|head| + |dm|];
        assert dn == b[|head|..|head| + |dn|];
      }
    }
  }

  /** Distinct counters give distinct paths in the folder. */
  lemma ExportCandidatesDistinct(folder: string, prefix: string, timestamp: string, extension: string, m: nat, n: nat)
    requires m < n
    ensures ExportCandidate(folder, prefix, timestamp, extension, m) != ExportCandidate(folder, prefix, timestamp, extension, n)
  {
    var a := ExportName(prefix, timestamp, extension, m);
    var b := ExportName(prefix, timestamp, extension, n);
    ExportNamesDistinct(prefix, timestamp, extension, m, n);
    assert StartsWith(a, prefix + "_") by {
      assert a[..|prefix + "_"|] == prefix + "_";
    }
    assert StartsWith(b, prefix + "_") by {
      assert b[..|prefix + "_"|] == prefix + "_";
    }
    NameRooted(prefix, a);
    NameRooted(prefix, b);
    if Combine(folder, a) == Combine(folder, b) {
      CombineInjective(folder, a, b);
    }
  }

  /** The paths tried before counter `n`. */
  ghost function Tried(folder: string, prefix: string, timestamp: string, extension: string, n: nat): (r: set<string>)
    ensures forall m :: 0 <= m < n ==> ExportCandidate(folder, prefix, timestamp, extension, m) in r
  {
    if n == 0 then {}
    else Tried(folder, prefix, timestamp, extension, n - 1) + {ExportCandidate(folder, prefix, timestamp, extension, n - 1)}
  }

  lemma {:induction false} TriedCount(folder: string, prefix: string, timestamp: string, extension: string, n: nat)
    ensures |Tried(folder, prefix, timestamp, extension, n)| == n
    ensures forall p :: p in Tried(folder, prefix, timestamp, extension, n) ==>
      exists m :: 0 <= m < n && p == ExportCandidate(folder, prefix, timestamp, extension, m)
  {
    if n > 0 {
      TriedCount(folder, prefix, timestamp, extension, n - 1);
      var next := ExportCandidate(folder, prefix, timestamp, extension, n - 1);
      if next in Tried(folder, prefix, timestamp, extension, n - 1) {
        var m :| 0 <= m < n - 1 && next == ExportCandidate(folder, prefix, timestamp, extension, m);
        ExportCandidatesDistinct(folder, prefix, timestamp, extension, m, n - 1);
      }
    }
  }

  /**
    GenerateExportFilePath: the base name if no file has it, otherwise the
    first of the `_1`, `_2`, ... names that is free. The result never exists.
  */
  method GenerateExportFilePath(folder: string, prefix: string, timestamp: string, extension: string, existing: set<string>)
    returns (path: string)
    ensures path !in existing
    ensures exists n: nat :: && path == ExportCandidate(folder, prefix, timestamp, extension, n)
                             && forall m :: 0 <= m < n ==> ExportCandidate(folder, prefix, timestamp, extension, m) in existing
  {
    var fileName := prefix + "_" + timestamp + extension;
    path := Combine(folder, fileName);
    var counter := 1;
    ghost var tried: set<string> := {};
    while path in existing
      invariant counter >= 1
      invariant path == ExportCandidate(folder, prefix, timestamp, extension, counter - 1)
      invariant tried == Tried(folder, prefix, timestamp, extension, counter - 1)
      invariant |tried| == counter - 1
      invariant tried <= existing
      decreases |existing| - |tried|
    {
      TriedCount(folder, prefix, timestamp, extension, counter);
      tried := tried + {path};
      SubsetCardinality(tried, existing);
      fileName := prefix + "_" + timestamp + "_" + IntToString(counter) + extension;
      assert fileName == ExportName(prefix, timestamp, extension, counter);
      path := Combine(folder, fileName);
      counter := counter + 1;
    }
    ExportedAfterTried(folder, prefix, timestamp, extension, existing, counter - 1);
  }

  /** The stopping point of the search: every earlier candidate is taken. */
  lemma ExportedAfterTried(folder: string, prefix: string, timestamp: string, extension: string, existing: set<string>, n: nat)
    requires Tried(folder, prefix, timestamp, extension, n) <= existing
    ensures forall m :: 0 <= m < n ==> ExportCandidate(folder, prefix, timestamp, extension, m) in existing
  {
  }

  // ---------------------------------------------------------------------------
  // File icons

  const DefaultIcon := "\U{1F4C4}"

  /** The icon per lower-case extension. */
  const FileIcons: map<string, string> := map[
    ".xlsx" := "\U{1F4CA}", ".xls" := "\U{1F4CA}", ".txt" := "\U{1F4C4}", ".log" := "\U{1F4DD}",
    ".json" := "\U{1F4CB}", ".xml" := "\U{1F4CB}",
    ".png" := "\U{1F5BC}\U{FE0F}", ".jpg" := "\U{1F5BC}\U{FE0F}", ".jpeg" := "\U{1F5BC}\U{FE0F}"]

  /** GetFileIcon: the switch on the lower-cased extension. */
  function GetFileIcon(extension: string): (r: string)
    ensures Lower(extension) in FileIcons ==> r == FileIcons[Lower(extension)]
    ensures Lower(extension) !in FileIcons ==> r == DefaultIcon
  {
    match Lower(extension)
    case ".xlsx" => "\U{1F4CA}"
    case ".xls" => "\U{1F4CA}"
    case ".txt" => "\U{1F4C4}"
    case ".log" => "\U{1F4DD}"
    case ".json" => "\U{1F4CB}"
    case ".xml" => "\U{1F4CB}"
    case ".png" => "\U{1F5BC}\U{FE0F}"
    case ".jpg" => "\U{1F5BC}\U{FE0F}"
    case ".jpeg" => "\U{1F5BC}\U{FE0F}"
    case _ => DefaultIcon
  }

  /** Extensions that differ only in letter case get the same icon. */
  lemma FileIconIgnoresCase(a: string, b: string)
    requires EqualsIgnoreCase(a, b)
    ensures GetFileIcon(a) == GetFileIcon(b)
  {
  }

  lemma FileIconExamples()
    ensures GetFileIcon(".XLSX") == "\U{1F4CA}"
    ensures GetFileIcon(".csv") == DefaultIcon
  {
    assert Lower(".XLSX") == ".xlsx";
    assert Lower(".csv") == ".csv";
  }
}
