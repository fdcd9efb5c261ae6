/**
 * `append_to_company_files` of merge_financials.py: every per-period extract
 * is folded, company by company, into that company's wide table, keyed by
 * the six account-identity columns, with one date/amount/currency triple per
 * period ever merged in.
 */
module Merge {
  import opened Text
  import opened Seqs
  import opened Sheet
  import opened Periods

  /** The report label of an annual report, and the statement section whose
      annual figures are turned into fourth-quarter figures. */
  const AnnualLabel: string := "사업보고서"
  const IncomeStatement: string := "손익계산서"

  // =====================================================================
  // Data
  // =====================================================================

  /** The date, amount and currency cells of one extract row. */
  datatype PeriodCells = PeriodCells(dt: Cell, amount: Cell, currency: Cell)

  datatype ExtractRow = ExtractRow(key: AccountKey, cells: PeriodCells)

  /** One per-period extract as the column selection sees it: `Malformed`
      when the workbook cannot be read or lacks one of the nine columns it
      selects. */
  datatype Extract = Malformed | Rows(rows: seq<ExtractRow>)

  /** A listed extract file: its path and what reading it yields. */
  datatype InputFile = InputFile(path: string, content: Extract)

  /** A company, as the company table's file name records it. */
  datatype CompanyId = CompanyId(name: string, code: string)

  /** A company wide table: its column names in order, and one row per
      account key holding that row's non-key cells by column name. */
  datatype Table = Table(columns: seq<string>, rows: map<AccountKey, Row>)

  /** The company tables on disk, by company. */
  type Store = map<CompanyId, Table>

  function CompanyOf(k: AccountKey): CompanyId
  {
    CompanyId(k.corpName, k.corpCode)
  }

  // =====================================================================
  // Grouping an extract by company
  // =====================================================================

  /** The group of one company: its extract rows by account key; a later
      row with the same key replaces an earlier one. */
  function GroupRows(rows: seq<ExtractRow>, c: CompanyId): map<AccountKey, PeriodCells>
    decreases |rows|
  {
    if rows == [] then map[]
    else
      var m := GroupRows(rows[..|rows| - 1], c);
      var last := rows[|rows| - 1];
      if CompanyOf(last.key) == c then m[last.key := last.cells] else m
  }

  /** The companies of an extract, each once, in order of first appearance. */
  function Companies(rows: seq<ExtractRow>): seq<CompanyId>
    decreases |rows|
  {
    if rows == [] then []
    else
      var cs := Companies(rows[..|rows| - 1]);
      var c := CompanyOf(rows[|rows| - 1].key);
      if c in cs then cs else cs + [c]
  }

  // =====================================================================
  // One company table
  // =====================================================================

  predicate IsKeyColumn(c: string) { c in KeyColumns }

  predicate HasKeyColumns(cols: seq<string>)
  {
    forall i :: 0 <= i < |KeyColumns| ==> KeyColumns[i] in cols
  }

  predicate IsCurrentColumn(c: string) { c != LegacyCurrency }

  /** Drops every column named `currency`, cells included. */
  function DropLegacyCurrency(t: Table): Table
  {
    if LegacyCurrency in t.columns then
      Table(Filter(t.columns, IsCurrentColumn),
            map k | k in t.rows :: t.rows[k] - {LegacyCurrency})
    else t
  }

  /** The non-missing values of one column, as text. */
  function ColumnDates(t: Table, c: string): set<string>
  {
    set k | k in t.rows && Lookup(t.rows[k], c) != Empty :: CellText(Lookup(t.rows[k], c))
  }

  /** The dates recorded in the `_thstrm_dt` columns among `cols`. */
  function DatesOf(t: Table, cols: seq<string>): set<string>
    decreases |cols|
  {
    if cols == [] then {}
    else
      var c := cols[|cols| - 1];
      DatesOf(t, cols[..|cols| - 1]) + (if IsDtColumn(c) then ColumnDates(t, c) else {})
  }

  /** Every date a table already records. */
  function ExistingDates(t: Table): set<string>
  {
    DatesOf(t, t.columns)
  }

  /** `existing_dates`, built as the source builds it: one `update` per dt
      column. */
  method CollectExistingDates(t: Table) returns (dates: set<string>)
    ensures dates == ExistingDates(t)
  {
    dates := {};
    var i := 0;
    while i < |t.columns|
      invariant 0 <= i <= |t.columns|
      invariant dates == DatesOf(t, t.columns[..i])
    {
      assert t.columns[..i + 1][..i] == t.columns[..i];
      var c := t.columns[i];
      if IsDtColumn(c) {
        dates := dates + ColumnDates(t, c);
      }
      i := i + 1;
    }
    assert t.columns[..i] == t.columns;
  }

  /** The three cells of one period, under that period's column names. */
  function PeriodRow(p: string, v: PeriodCells): Row
  {
    map[p + DtSuffix := v.dt, p + AmountSuffix := v.amount, p + CurrencySuffix := v.currency]
  }

  /** A company's group as a fresh table (`g.copy()`): the key columns, then
      the period's triple. */
  function GroupTable(p: string, g: map<AccountKey, PeriodCells>): Table
  {
    Table(KeyColumns + Triple(p), map k | k in g :: PeriodRow(p, g[k]))
  }

  /** The outer join on the whole account key: every key of either side,
      each once; the table's cells and the group's period cells side by
      side, a side that lacks the key contributing nothing (NaN). */
  function Joined(b: Table, p: string, g: map<AccountKey, PeriodCells>): Table
  {
    Table(b.columns + Triple(p),
          map k | k in b.rows.Keys + g.Keys ::
            (if k in b.rows then b.rows[k] else map[]) + (if k in g then PeriodRow(p, g[k]) else map[]))
  }

  // ---------------------------------------------------------------------
  // The derived fourth quarter
  // ---------------------------------------------------------------------

  function AmountColumn(year: string, q: string): string
  {
    year + "_" + q + AmountSuffix
  }

  function AnnualColumn(year: string): string { AmountColumn(year, AnnualLabel) }
  function Q1Column(year: string): string { AmountColumn(year, "1분기") }
  function H1Column(year: string): string { AmountColumn(year, "반기") }
  function Q3Column(year: string): string { AmountColumn(year, "3분기") }

  /** One subtrahend: the coerced cell when the column exists, else 0. */
  function Operand(cols: seq<string>, r: Row, c: string): int
  {
    if c in cols then ToAmount(Lookup(r, c)) else 0
  }

  /** One income-statement row after the correction: a present annual
      amount becomes annual minus the Q1, H1 and Q3 amounts. */
  function CorrectedRow(cols: seq<string>, year: string, r: Row): Row
  {
    var a := AnnualColumn(year);
    if a in cols && Lookup(r, a) != Empty then
      r[a := Whole(ToAmount(r[a]) - Operand(cols, r, Q1Column(year))
                                   - Operand(cols, r, H1Column(year))
                                   - Operand(cols, r, Q3Column(year)))]
    else r
  }

  predicate IsIncomeStatement(k: AccountKey) { k.sjName == IncomeStatement }

  /** The table after the fourth-quarter correction of `year`. */
  function Q4Corrected(t: Table, year: string): Table
  {
    Table(t.columns, map k | k in t.rows :: CorrectedEntry(t, year, k))
  }

  /** The row of `k` after the correction. */
  function CorrectedEntry(t: Table, year: string, k: AccountKey): Row
    requires k in t.rows
  {
    if IsIncomeStatement(k) then CorrectedRow(t.columns, year, t.rows[k]) else t.rows[k]
  }

  /** The correction loop: one income-statement row at a time, each reading
      its operands from its own row. */
  method CorrectAnnualColumn(t: Table, year: string) returns (u: Table)
    ensures u == Q4Corrected(t, year)
  {
    u := t;
    var todo := set k | k in t.rows && IsIncomeStatement(k);
    while todo != {}
      invariant todo <= t.rows.Keys
      invariant u.columns == t.columns && u.rows.Keys == t.rows.Keys
      invariant forall k :: k in t.rows ==> u.rows[k] == if k in todo then t.rows[k] else CorrectedEntry(t, year, k)
      invariant forall k :: k in todo ==> IsIncomeStatement(k)
      decreases |todo|
    {
      var k :| k in todo;
      var r := CorrectedRow(u.columns, year, u.rows[k]);
      u := u.(rows := u.rows[k := r]);
      todo := todo - {k};
    }
    assert u.rows == Q4Corrected(t, year).rows;
  }

  // ---------------------------------------------------------------------
  // Final layout
  // ---------------------------------------------------------------------

  /** `reindex(columns=cols)`: the columns become `cols`; each row keeps the
      cells of those columns and reads NaN in the others. */
  function Reindex(t: Table, cols: seq<string>): Table
  {
    Table(cols, map k | k in t.rows :: map c | c in t.rows[k] && c in cols :: t.rows[k][c])
  }

  /** The key columns in the table's own order, then the sorted period
      triples; `None` where `sort_period_columns` raises. */
  function Layout(t: Table): Option<Table>
  {
    match PeriodColumns(t.columns)
    case None => None
    case Some(pc) => Some(Reindex(t, Filter(t.columns, IsKeyColumn) + pc))
  }

  // ---------------------------------------------------------------------
  // One company of one extract
  // ---------------------------------------------------------------------

  /** The correction (annual reports only), the layout and the write that
      end every merge. */
  function Finish(merged: Table, year: string, report: string): Result<Option<Table>>
  {
    var corrected := if report == AnnualLabel then Q4Corrected(merged, year) else merged;
    match Layout(corrected)
    case None => Err("ValueError: period column")
    case Some(t) => Ok(Some(t))
  }

  /** The skip test: the period's date, or its amount column, is already
      in the table. */
  predicate Recorded(base: Table, p: string, dt: string)
  {
    dt in ExistingDates(base) || p + AmountSuffix in base.columns
  }

  /** The table before the correction: the group itself for a new company,
      else the existing table (legacy column dropped) joined with it. */
  function MergedOf(existing: Option<Table>, p: string, g: map<AccountKey, PeriodCells>): Table
  {
    if existing.None? then GroupTable(p, g) else Joined(DropLegacyCurrency(existing.value), p, g)
  }

  /** The body of the group loop for one company: `Err` where the source
      raises, `Ok(None)` where it skips the company, and `Ok(Some(t))` with
      the table it writes. */
  function MergeCompany(existing: Option<Table>, g: map<AccountKey, PeriodCells>,
                        year: string, report: string, dt: string): Result<Option<Table>>
  {
    var p := year + "_" + report;
    if existing.Some? && !HasKeyColumns(existing.value.columns) then Err("KeyError: key column")
    else if existing.Some? && Recorded(DropLegacyCurrency(existing.value), p, dt) then Ok(None)
    else Finish(MergedOf(existing, p, g), year, report)
  }

  /** The same step, written as the source's statements. */
  method MergeCompanyTable(existing: Option<Table>, g: map<AccountKey, PeriodCells>,
                           year: string, report: string, dt: string) returns (r: Result<Option<Table>>)
    ensures r == MergeCompany(existing, g, year, report, dt)
  {
    var p := year + "_" + report;
    var merged: Table;
    if existing.Some? {
      var base := existing.value;
      if !HasKeyColumns(base.columns) {
        return Err("KeyError: key column");
      }
      base := DropLegacyCurrency(base);
      var dates := CollectExistingDates(base);
      if dt in dates {
        return Ok(None);
      }
      if p + AmountSuffix in base.columns {
        return Ok(None);
      }
      merged := Joined(base, p, g);
    } else {
      merged := GroupTable(p, g);
    }
    if report == AnnualLabel {
      merged := CorrectAnnualColumn(merged, year);
    }
    var periodCols := SortPeriodColumns(merged.columns);
    if periodCols.None? {
      return Err("ValueError: period column");
    }
    var otherCols := Filter(merged.columns, IsKeyColumn);
    merged := Reindex(merged, otherCols + periodCols.value);
    return Ok(Some(merged));
  }

  // =====================================================================
  // Files and the batch
  // =====================================================================

  /** `os.path.basename`: the text after the last `/`. */
  function Basename(path: string): string
    decreases |path|
  {
    if '/' !in path then path else Basename(path[IndexOf(path, '/') + 1..])
  }

  /** Year and report label from `<name>_<YEAR>_<REPORT>_major_accounts.xlsx`:
      the fourth- and third-last `_`-separated parts of the base name
      without `.xlsx`; `None` when it has fewer than four parts. */
  function ParseFileName(path: string): Option<(string, string)>
  {
    var parts := Split(ReplaceAll(Basename(path), ".xlsx", ""), '_');
    if |parts| < 4 then None else Some((parts[|parts| - 4], parts[|parts| - 3]))
  }

  /** An Excel lock file (`~$...`). */
  predicate IsTempFile(f: InputFile) { StartsWith(Basename(f.path), "~$") }

  predicate IsListed(f: InputFile) { !IsTempFile(f) }

  predicate IsAnnualFile(f: InputFile) { Contains(f.path, "_사업보고서_") }

  predicate IsQuarterFile(f: InputFile) { !IsAnnualFile(f) }

  /** The processing order: lock files dropped, then every other file in
      listed order, then the annual-report files in listed order. */
  function OrderFiles(files: seq<InputFile>): seq<InputFile>
  {
    var listed := Filter(files, IsListed);
    Filter(listed, IsQuarterFile) + Filter(listed, IsAnnualFile)
  }

  /** The group loop over `cs`: stops at the first company that raises,
      reporting `false`. */
  function MergeGroups(s: Store, cs: seq<CompanyId>, rows: seq<ExtractRow>,
                       year: string, report: string, dt: string): (Store, bool)
    decreases |cs|
  {
    if cs == [] then (s, true)
    else
      var c := cs[0];
      match MergeCompany(if c in s then Some(s[c]) else None, GroupRows(rows, c), year, report, dt)
      case Err(_) => (s, false)
      case Ok(None) => MergeGroups(s, cs[1..], rows, year, report, dt)
      case Ok(Some(t)) => MergeGroups(s[c := t], cs[1..], rows, year, report, dt)
  }

  /** One file of the batch: skipped when its name does not parse, fatal
      when it cannot be read, lacks a selected column or has no rows; the
      period date is the first row's. */
  function MergeFile(s: Store, f: InputFile): (Store, bool)
  {
    match ParseFileName(f.path)
    case None => (s, true)
    case Some((year, report)) =>
      match f.content
      case Malformed => (s, false)
      case Rows(rows) =>
        if rows == [] then (s, false)
        else MergeGroups(s, Companies(rows), rows, year, report, CellText(rows[0].cells.dt))
  }

  /** The file loop: stops at the first file that raises. */
  function RunFiles(s: Store, files: seq<InputFile>): (Store, bool)
    decreases |files|
  {
    if files == [] then (s, true)
    else
      var (s1, ok) := MergeFile(s, files[0]);
      if !ok then (s1, false) else RunFiles(s1, files[1..])
  }

  /** The company-table directory, as the merge sees it. */
  class CompanyStore {
    var tables: Store

    constructor (init: Store)
      ensures tables == init
    {
      tables := init;
    }

    /** `append_to_company_files` over the listed extract files; `completed`
        is false when the run ended in an exception. */
    method AppendToCompanyFiles(files: seq<InputFile>) returns (completed: bool)
      modifies this
      ensures (tables, completed) == RunFiles(old(tables), OrderFiles(files))
    {
      var listed := Filter(files, IsListed);
      var ordered := Filter(listed, IsQuarterFile) + Filter(listed, IsAnnualFile);
      var i := 0;
      while i < |ordered|
        invariant 0 <= i <= |ordered|
        invariant RunFiles(tables, ordered[i..]) == RunFiles(old(tables), ordered)
      {
        assert ordered[i..][1..] == ordered[i + 1..];
        var ok := MergeOneFile(ordered[i]);
        if !ok {
          return false;
        }
        i := i + 1;
      }
      return true;
    }

    /** The body of the file loop for one extract file. */
    method MergeOneFile(f: InputFile) returns (ok: bool)
      modifies this
      ensures (tables, ok) == MergeFile(old(tables), f)
    {
      var parsed := ParseFileName(f.path);
      if parsed.None? {
        return true;
      }
      var (year, report) := parsed.value;
      if f.content.Malformed? || f.content.rows == [] {
        return false;
      }
      var rows := f.content.rows;
      ok := MergeGroupsInto(Companies(rows), rows, year, report, CellText(rows[0].cells.dt));
    }

    /** The group loop of one extract: one company table at a time. */
    method MergeGroupsInto(cs: seq<CompanyId>, rows: seq<ExtractRow>, year: string, report: string, dt: string)
      returns (ok: bool)
      modifies this
      ensures (tables, ok) == MergeGroups(old(tables), cs, rows, year, report, dt)
    {
      var j := 0;
      while j < |cs|
        invariant 0 <= j <= |cs|
        invariant MergeGroups(tables, cs[j..], rows, year, report, dt) == MergeGroups(old(tables), cs, rows, year, report, dt)
      {
        assert cs[j..][1..] == cs[j + 1..];
        var c := cs[j];
        var existing := if c in tables then Some(tables[c]) else None;
        var r := MergeCompanyTable(existing, GroupRows(rows, c), year, report, dt);
        if r.Err? {
          return false;
        }
        if r.value.Some? {
          tables := tables[c := r.value.value];
        }
        j := j + 1;
      }
      return true;
    }
  }
}
