/**
 * `load_df` without its cache: picks the data source, parses it, checks the
 * two required columns and cleans every row into (name, student id) pairs.
 * Parsing itself is a parameter: the model fixes only in which order the
 * parsers are tried and what their results lead to.
 */
module Loader {
  import opened Wrappers
  import opened Strings
  import opened Normalize
  import opened Paths

  type Bytes = seq<bv8>

  /** One cell of a parsed table: text, or a missing value (NaN). */
  datatype Cell = Str(s: string) | Missing

  type Row = seq<Cell>

  /** A parsed table: its header row and its data rows. */
  datatype Table = Table(headers: seq<string>, rows: seq<Row>)

  /** The three parser calls `load_df` can make. */
  datatype Reader = ExcelReader | CsvUtf8 | CsvCp949

  /** What one parser call gives. A decoding failure is kept apart from
      every other failure, because only it makes the CSV path try again. */
  datatype ParseOutcome = Parsed(table: Table) | DecodeError | ParseError

  /** One row of the cleaned roster. */
  datatype Entry = Entry(name: string, sid: string)

  /** The pair `load_df` returns: the roster, if any, and the selected source, if any. */
  datatype LoadResult = LoadResult(roster: Option<seq<Entry>>, source: Option<Path>)

  const SidColumn: string := "학번"
  const NameColumn: string := "성명"

  /** `str` of a cell after `astype(str)`: a missing value becomes "nan". */
  function AsStr(c: Cell): string {
    match c
    case Str(s) => s
    case Missing => "nan"
  }

  /** The cell in column `i`; a row shorter than the header is padded with missing values. */
  function CellAt(r: Row, i: nat): Cell {
    if i < |r| then r[i] else Missing
  }

  /** The `try` block of `load_df`: a spreadsheet gets one attempt; a
      delimited file is read as UTF-8 and, only if that fails to decode,
      as CP949. Any other failure, or a failure of the second attempt,
      gives no table. */
  function ReadTable(data: Bytes, fmt: Format, read: (Bytes, Reader) -> ParseOutcome): (r: Option<Table>)
    ensures fmt == Spreadsheet ==>
      forall t :: r == Some(t) <==> read(data, ExcelReader) == Parsed(t)
    ensures fmt == Delimited ==>
      forall t :: r == Some(t) <==>
        (read(data, CsvUtf8) == Parsed(t) ||
         (read(data, CsvUtf8) == DecodeError && read(data, CsvCp949) == Parsed(t)))
  {
    match fmt
    case Spreadsheet =>
      (match read(data, ExcelReader)
       case Parsed(t) => Some(t)
       case _ => None)
    case Delimited =>
      match read(data, CsvUtf8)
      case Parsed(t) => Some(t)
      case DecodeError =>
        (match read(data, CsvCp949)
         case Parsed(t) => Some(t)
         case _ => None)
      case ParseError => None
  }

  /** `[c.strip() for c in df.columns]` */
  function StripHeaders(hs: seq<string>): (r: seq<string>)
    ensures |r| == |hs|
    ensures forall i :: 0 <= i < |hs| ==> r[i] == Strip(hs[i])
  {
    if hs == [] then [] else [Strip(hs[0])] + StripHeaders(hs[1..])
  }

  /** The position of the first header equal to `name`, if there is one. */
  function FindColumn(hs: seq<string>, name: string): (r: Option<nat>)
    ensures r.Some? ==> r.value < |hs| && hs[r.value] == name
    ensures r.Some? ==> forall j :: 0 <= j < r.value ==> hs[j] != name
    ensures r.None? <==> name !in hs
  {
    if hs == [] then None
    else if hs[0] == name then Some(0)
    else
      match FindColumn(hs[1..], name)
      case None => None
      case Some(i) => Some(i + 1)
  }

  /** `df["학번"].astype(str).map(normalize_sid)` (app.py:47) on one cell. */
  function SidCell(c: Cell): (r: Cell)
    ensures r.Str? && AllDigits(r.s)
  {
    Str(NormalizeSid(AsStr(c)))
  }

  /** `df["성명"].astype(str).str.strip()` (app.py:48) on one cell. */
  function NameCell(c: Cell): (r: Cell)
    ensures r.Str? && (r.s != [] ==> !IsSpace(r.s[0]) && !IsSpace(r.s[|r.s| - 1]))
  {
    Str(Strip(AsStr(c)))
  }

  /** The two column rewrites of app.py:47-48 for one row, projected to (성명, 학번). */
  function CleanPair(r: Row, sidCol: nat, nameCol: nat): (c: (Cell, Cell))
    ensures c.0.Str? && c.1.Str? && AllDigits(c.1.s)
  {
    (NameCell(CellAt(r, nameCol)), SidCell(CellAt(r, sidCol)))
  }

  /** The (성명, 학번) columns of a table, row by row. */
  function Pairs(rows: seq<Row>, sidCol: nat, nameCol: nat): seq<(Cell, Cell)> {
    seq(|rows|, i requires 0 <= i < |rows| => (CellAt(rows[i], nameCol), CellAt(rows[i], sidCol)))
  }

  /** Both columns after the rewrites of app.py:47-48, row by row. */
  function CleanColumns(rows: seq<Row>, sidCol: nat, nameCol: nat): seq<(Cell, Cell)> {
    seq(|rows|, i requires 0 <= i < |rows| => CleanPair(rows[i], sidCol, nameCol))
  }

  predicate Present(p: (Cell, Cell)) { p.0.Str? && p.1.Str? }

  /** `dropna(subset=["학번", "성명"])`: removes the rows where either cell
      is missing and keeps the others in order. */
  function DropNa(ps: seq<(Cell, Cell)>): (r: seq<(Cell, Cell)>)
    ensures |r| <= |ps|
    ensures forall i :: 0 <= i < |r| ==> Present(r[i])
    ensures (forall i :: 0 <= i < |ps| ==> Present(ps[i])) ==> r == ps
  {
    if ps == [] then []
    else (if Present(ps[0]) then [ps[0]] else []) + DropNa(ps[1..])
  }

  /** `df[["성명", "학번"]]` as entries. */
  function Project(ps: seq<(Cell, Cell)>): (r: seq<Entry>)
    ensures |r| == |ps|
    ensures forall i :: 0 <= i < |ps| ==> r[i] == Entry(AsStr(ps[i].0), AsStr(ps[i].1))
  {
    if ps == [] then [] else [Entry(AsStr(ps[0].0), AsStr(ps[0].1))] + Project(ps[1..])
  }

  /** The column rewrites, `dropna` and projection of app.py:47-50 on the rows
      of a table whose id and name columns are at `sidCol` and `nameCol`. */
  function CleanRoster(rows: seq<Row>, sidCol: nat, nameCol: nat): (r: seq<Entry>)
    ensures |r| == |rows|
  {
    var cs := CleanColumns(rows, sidCol, nameCol);
    assert forall i :: 0 <= i < |cs| ==> Present(cs[i]);
    assert DropNa(cs) == cs;
    Project(DropNa(cs))
  }

  /** Cleaning keeps every row, in order: `dropna` cannot remove anything,
      because after `astype(str)` no cell is missing any more. Each entry
      holds the normalized id and the stripped name of its row. */
  lemma CleanRosterRows(rows: seq<Row>, sidCol: nat, nameCol: nat)
    ensures |CleanRoster(rows, sidCol, nameCol)| == |rows|
    ensures forall i :: 0 <= i < |rows| ==>
      CleanRoster(rows, sidCol, nameCol)[i] ==
        Entry(Strip(AsStr(CellAt(rows[i], nameCol))), NormalizeSid(AsStr(CellAt(rows[i], sidCol))))
  {
    var cs := CleanColumns(rows, sidCol, nameCol);
    assert forall i :: 0 <= i < |cs| ==> Present(cs[i]);
    assert DropNa(cs) == cs;
  }

  /** Every id in a cleaned roster is a string of ASCII digits, so a query
      can only match after the same normalisation. */
  lemma RosterIdsAreDigits(rows: seq<Row>, sidCol: nat, nameCol: nat)
    ensures forall i :: 0 <= i < |CleanRoster(rows, sidCol, nameCol)| ==> AllDigits(CleanRoster(rows, sidCol, nameCol)[i].sid)
  {
    CleanRosterRows(rows, sidCol, nameCol);
  }

  /** A row whose id cell is missing stays in the roster, with the empty id. */
  lemma MissingIdKept(rows: seq<Row>, sidCol: nat, nameCol: nat, i: nat)
    requires i < |rows| && CellAt(rows[i], sidCol) == Missing
    ensures i < |CleanRoster(rows, sidCol, nameCol)|
    ensures CleanRoster(rows, sidCol, nameCol)[i].sid == ""
  {
    CleanRosterRows(rows, sidCol, nameCol);
    NormalizeSidOfNan(AsStr(Missing));
  }

  /** The body of `load_df` after the path is chosen (app.py:30-50), for the
      file chosen at `p`, holding `data`: parse it by its suffix, then check
      and clean the two columns. */
  function LoadFile(p: Path, data: Bytes, read: (Bytes, Reader) -> ParseOutcome): (r: LoadResult)
    ensures r.source.Some? ==> r.source == Some(p)
    ensures r.roster.Some? ==> r.source.Some?
    ensures ReadTable(data, FormatOf(p), read).None? ==> r == LoadResult(None, None)
  {
    match ReadTable(data, FormatOf(p), read)
    case None => LoadResult(None, None)
    case Some(t) =>
      var hs := StripHeaders(t.headers);
      match (FindColumn(hs, SidColumn), FindColumn(hs, NameColumn))
      case (Some(si), Some(ni)) => LoadResult(Some(CleanRoster(t.rows, si, ni)), Some(p))
      case _ => LoadResult(None, Some(p))
  }

  /** `load_df` read against a filesystem given as the contents of each
      existing path; `root` is the parent of the script's directory. */
  function LoadDf(files: map<Path, Bytes>, root: Path, read: (Bytes, Reader) -> ParseOutcome): (r: LoadResult)
    ensures r.source.Some? ==> r.source == FirstExisting(Candidates(root), files.Keys)
    ensures r.roster.Some? ==> r.source.Some?
  {
    match FirstExisting(Candidates(root), files.Keys)
    case None => LoadResult(None, None)
    case Some(p) => LoadFile(p, files[p], read)
  }

  /** With no candidate on disk, or a file that cannot be parsed, neither a
      roster nor a source is returned. Otherwise the source is the first
      candidate that exists. */
  lemma LoadDfSource(files: map<Path, Bytes>, root: Path, read: (Bytes, Reader) -> ParseOutcome)
    ensures (forall j :: 0 <= j < 3 ==> Candidates(root)[j] !in files) ==>
              LoadDf(files, root, read) == LoadResult(None, None)
    ensures LoadDf(files, root, read).source.Some? ==>
              LoadDf(files, root, read).source == FirstExisting(Candidates(root), files.Keys)
    ensures forall p ::
              (FirstExisting(Candidates(root), files.Keys) == Some(p) &&
               ReadTable(files[p], FormatOf(p), read).None?) ==>
              LoadDf(files, root, read) == LoadResult(None, None)
    ensures LoadDf(files, root, read).roster.Some? ==> LoadDf(files, root, read).source.Some?
  {
  }

  /** A parsed table without a `학번` or a `성명` header (after stripping)
      gives the source and never a partial roster. */
  lemma LoadDfMissingColumn(files: map<Path, Bytes>, root: Path, read: (Bytes, Reader) -> ParseOutcome, p: Path, t: Table)
    requires FirstExisting(Candidates(root), files.Keys) == Some(p)
    requires ReadTable(files[p], FormatOf(p), read) == Some(t)
    requires SidColumn !in StripHeaders(t.headers) || NameColumn !in StripHeaders(t.headers)
    ensures LoadDf(files, root, read) == LoadResult(None, Some(p))
  {
    var hs := StripHeaders(t.headers);
    assert FindColumn(hs, SidColumn).None? || FindColumn(hs, NameColumn).None?;
  }

  /** A parsed table with both headers gives the source and the cleaned
      rows of the first `학번` and the first `성명` column: one entry per
      row, in order, each the normalized id and the stripped name. */
  lemma LoadDfRoster(files: map<Path, Bytes>, root: Path, read: (Bytes, Reader) -> ParseOutcome, p: Path, t: Table,
                     si: nat, ni: nat)
    requires FirstExisting(Candidates(root), files.Keys) == Some(p)
    requires ReadTable(files[p], FormatOf(p), read) == Some(t)
    requires FindColumn(StripHeaders(t.headers), SidColumn) == Some(si)
    requires FindColumn(StripHeaders(t.headers), NameColumn) == Some(ni)
    ensures LoadDf(files, root, read).source == Some(p)
    ensures LoadDf(files, root, read).roster == Some(CleanRoster(t.rows, si, ni))
    ensures |CleanRoster(t.rows, si, ni)| == |t.rows|
    ensures forall i :: 0 <= i < |t.rows| ==>
      CleanRoster(t.rows, si, ni)[i] ==
        Entry(Strip(AsStr(CellAt(t.rows[i], ni))), NormalizeSid(AsStr(CellAt(t.rows[i], si))))
  {
    CleanRosterRows(t.rows, si, ni);
  }

  /** The column assignments of app.py:47-48 in place: the id and name cells
      of a row are overwritten. */
  function Overwrite(r: Row, sidCol: nat, nameCol: nat): (r': Row)
    requires sidCol < |r| && nameCol < |r| && sidCol != nameCol
  {
    r[sidCol := SidCell(r[sidCol])][nameCol := NameCell(r[nameCol])]
  }

  lemma PairsOfOverwritten(before: seq<Row>, after: seq<Row>, sidCol: nat, nameCol: nat)
    requires sidCol != nameCol && |after| == |before|
    requires forall i :: 0 <= i < |before| ==> sidCol < |before[i]| && nameCol < |before[i]|
    requires forall i :: 0 <= i < |before| ==> after[i] == Overwrite(before[i], sidCol, nameCol)
    ensures Pairs(after, sidCol, nameCol) == CleanColumns(before, sidCol, nameCol)
  {
    var ps, cs := Pairs(after, sidCol, nameCol), CleanColumns(before, sidCol, nameCol);
    forall i | 0 <= i < |before|
      ensures ps[i] == cs[i]
    {
      assert after[i] == Overwrite(before[i], sidCol, nameCol);
    }
  }

  /** `df[col] = df[col].map(f)`: every row's cell in column `col` is
      replaced by `f` of it, and nothing else changes. */
  method MapColumn(rows: array<Row>, col: nat, f: Cell -> Cell)
    requires forall i :: 0 <= i < rows.Length ==> col < |rows[i]|
    modifies rows
    ensures forall i :: 0 <= i < rows.Length ==> rows[i] == old(rows[i])[col := f(old(rows[i])[col])]
  {
    var i := 0;
    while i < rows.Length
      invariant 0 <= i <= rows.Length
      invariant forall k :: 0 <= k < i ==> rows[k] == old(rows[k])[col := f(old(rows[k])[col])]
      invariant forall k :: i <= k < rows.Length ==> rows[k] == old(rows[k])
    {
      rows[i] := rows[i][col := f(rows[i][col])];
      i := i + 1;
    }
  }

  /** The cleaning of app.py:47-50 in the imperative form of the source, on a table whose
      rows all have both columns: the id column is mapped in place, then
      the name column, then the two columns are selected. */
  method CleanInPlace(rows: array<Row>, sidCol: nat, nameCol: nat) returns (roster: seq<Entry>)
    requires sidCol != nameCol
    requires forall i :: 0 <= i < rows.Length ==> sidCol < |rows[i]| && nameCol < |rows[i]|
    modifies rows
    ensures forall i :: 0 <= i < rows.Length ==> rows[i] == Overwrite(old(rows[i]), sidCol, nameCol)
    ensures roster == CleanRoster(old(rows[..]), sidCol, nameCol)
  {
    ghost var before := rows[..];
    MapColumn(rows, sidCol, SidCell);
    ghost var mid := rows[..];
    MapColumn(rows, nameCol, NameCell);
    forall i | 0 <= i < rows.Length
      ensures rows[i] == Overwrite(before[i], sidCol, nameCol)
    {
      assert mid[i] == before[i][sidCol := SidCell(before[i][sidCol])];
      assert rows[i] == mid[i][nameCol := NameCell(mid[i][nameCol])];
      assert mid[i][nameCol] == before[i][nameCol];
    }
    PairsOfOverwritten(before, rows[..], sidCol, nameCol);
    roster := Project(DropNa(Pairs(rows[..], sidCol, nameCol)));
  }
}
