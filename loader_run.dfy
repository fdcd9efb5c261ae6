/**
 * The main loop of load_financials_to_pg.py. Every company table is read,
 * its triple columns grouped by period, and for every distinct account and
 * every period the script upserts a company row, an account row, a report
 * row and a value row. The database is four tables keyed by their conflict
 * columns. Account and report identifiers are the natural keys the
 * database resolves them from.
 */
module LoaderRun {
  import opened Text
  import opened Seqs
  import opened Sheet
  import opened Periods
  import opened Loader

  // =====================================================================
  // Data
  // =====================================================================

  /** A workbook as `read_excel` yields it: its column names, and its rows
      with their cells by column name. */
  datatype Workbook = Workbook(columns: seq<string>, rows: seq<map<string, Cell>>)

  /** A listed file: `None` when it is not a zip archive or reading it
      fails; both are skipped. */
  type SourceFile = Option<Workbook>

  /** `opendart.accounts`, keyed by statement, section and account name. */
  datatype AccountRef = AccountRef(fs: Cell, sj: Cell, account: Cell)

  /** `opendart.reports`, keyed by year, standard quarter code and date. */
  datatype ReportKey = ReportKey(year: int, quarter: string, date: string)

  /** `opendart.fin_values`, keyed by company, account and report. */
  datatype ValueKey = ValueKey(corp: int, account: AccountRef, report: ReportKey)

  datatype FinValue = FinValue(amount: int, currency: string)

  datatype CompanyRow = CompanyRow(name: string, stock: int)

  /** The four tables: companies by code, the accounts, each report's name,
      and the values. */
  datatype Db = Db(companies: map<int, CompanyRow>, accounts: set<AccountRef>,
                   reports: map<ReportKey, string>, values: map<ValueKey, FinValue>)

  /** One statement the script sends. */
  datatype Write =
    | PutCompany(corp: int, row: CompanyRow)
    | PutAccount(account: AccountRef)
    | PutReport(report: ReportKey, name: string)
    | PutValue(key: ValueKey, value: FinValue)

  /** What a statement does: companies `ON CONFLICT DO NOTHING`; an account
      is looked up and inserted when absent; reports and values
      `ON CONFLICT DO UPDATE`. */
  function Apply(db: Db, w: Write): Db
  {
    match w
    case PutCompany(c, r) => if c in db.companies then db else db.(companies := db.companies[c := r])
    case PutAccount(a) => db.(accounts := db.accounts + {a})
    case PutReport(k, n) => db.(reports := db.reports[k := n])
    case PutValue(k, v) => db.(values := db.values[k := v])
  }

  function ApplyAll(db: Db, ws: seq<Write>): Db
    decreases |ws|
  {
    if ws == [] then db else Apply(ApplyAll(db, ws[..|ws| - 1]), ws[|ws| - 1])
  }

  lemma ApplyOne(db: Db, a: Write)
    ensures ApplyAll(db, [a]) == Apply(db, a)
  {
    assert [a][..0] == [];
  }

  lemma ApplyTwo(db: Db, a: Write, b: Write)
    ensures ApplyAll(db, [a, b]) == Apply(Apply(db, a), b)
  {
    assert [a, b][..1] == [a];
    ApplyOne(db, a);
  }

  /** A run of statements that either completes or stops at a statement
      that raises. */
  datatype Log = Log(writes: seq<Write>, completed: bool)

  /** `int(...)` of a cell: NaN raises. */
  function IntOf(c: Cell): Option<int>
  {
    match c
    case Empty => None
    case Whole(n) => Some(n)
    case Str(s) => ParseInt(s)
  }

  // =====================================================================
  // What one file sends
  // =====================================================================

  /** One period of one account: the report row is upserted first; a
      missing amount then skips the value. A kind missing from the group,
      or an amount that does not convert, raises. */
  function PeriodWrites(corp: int, acc: AccountRef, one: map<string, Cell>, prefix: string, parts: Parts): Log
  {
    match ParsePeriod(prefix)
    case None => Log([], false)
    case Some(per) =>
      if Dt !in parts then Log([], false)
      else
        var key := ReportKey(per.year, per.quarter, NormalizeDate(per.year, Lookup(one, parts[Dt])));
        var report := [PutReport(key, per.report)];
        if Amount !in parts || Currency !in parts then Log(report, false)
        else
          var amount := Lookup(one, parts[Amount]);
          if amount == Empty then Log(report, true)
          else
            match AmountValue(amount)
            case None => Log(report, false)
            case Some(v) =>
              Log(report + [PutValue(ValueKey(corp, acc, key), FinValue(v, CellText(Lookup(one, parts[Currency]))))], true)
  }

  /** Runs one step after another, stopping at the first that raises. */
  function Then(a: Log, b: Log): Log
  {
    if !a.completed then a else Log(a.writes + b.writes, b.completed)
  }

  /** The columns of a period in the `triples` dict (present for every
      listed prefix). */
  function PartsOf(g: Grouping, p: string): Parts
  {
    if p in g.parts then g.parts[p] else map[]
  }

  /** Every period of one account, in the dict's order. */
  function PeriodsWrites(corp: int, acc: AccountRef, one: map<string, Cell>, g: Grouping, order: seq<string>): Log
    decreases |order|
  {
    if order == [] then Log([], true)
    else
      var p := order[|order| - 1];
      Then(PeriodsWrites(corp, acc, one, g, order[..|order| - 1]), PeriodWrites(corp, acc, one, p, PartsOf(g, p)))
  }

  /** The six identity cells of a row. */
  function IdOf(r: map<string, Cell>): seq<Cell>
  {
    seq(|KeyColumns|, i requires 0 <= i < |KeyColumns| => Lookup(r, KeyColumns[i]))
  }

  /** `df[id_cols].drop_duplicates()`: each identity once, in order of first
      appearance. */
  function DistinctIds(rows: seq<map<string, Cell>>): (r: seq<seq<Cell>>)
    ensures forall i :: 0 <= i < |r| ==> |r[i]| == |KeyColumns|
    decreases |rows|
  {
    if rows == [] then []
    else
      var ids := DistinctIds(rows[..|rows| - 1]);
      var id := IdOf(rows[|rows| - 1]);
      if id in ids then ids else ids + [id]
  }

  /** Identity `k` of `ids` first appears at row `i`: every earlier row
      carries an identity listed before `k`. */
  ghost predicate FirstListedAt(rows: seq<map<string, Cell>>, ids: seq<seq<Cell>>, k: nat, i: nat)
  {
    && i < |rows| && k < |ids| && IdOf(rows[i]) == ids[k]
    && forall j :: 0 <= j < i ==> IdOf(rows[j]) in ids[..k]
  }

  ghost predicate ListedAtFirstAppearance(rows: seq<map<string, Cell>>, ids: seq<seq<Cell>>, k: nat)
  {
    exists i :: FirstListedAt(rows, ids, k, i)
  }

  /** `drop_duplicates` lists every row's identity exactly once, each at
      the place of its first appearance among the rows. */
  lemma {:induction false} DistinctIdsSpec(rows: seq<map<string, Cell>>)
    ensures Distinct(DistinctIds(rows))
    ensures forall i :: 0 <= i < |rows| ==> IdOf(rows[i]) in DistinctIds(rows)
    ensures forall k :: 0 <= k < |DistinctIds(rows)| ==> ListedAtFirstAppearance(rows, DistinctIds(rows), k)
    decreases |rows|
  {
    if rows != [] {
      var init, last := rows[..|rows| - 1], rows[|rows| - 1];
      assert rows == init + [last];
      DistinctIdsSpec(init);
      DistinctIdsSnoc(init, last);
    }
  }

  lemma DistinctIdsSnoc(init: seq<map<string, Cell>>, last: map<string, Cell>)
    requires Distinct(DistinctIds(init))
    requires forall i :: 0 <= i < |init| ==> IdOf(init[i]) in DistinctIds(init)
    requires forall k :: 0 <= k < |DistinctIds(init)| ==> ListedAtFirstAppearance(init, DistinctIds(init), k)
    ensures Distinct(DistinctIds(init + [last]))
    ensures forall i :: 0 <= i < |init + [last]| ==> IdOf((init + [last])[i]) in DistinctIds(init + [last])
    ensures forall k :: 0 <= k < |DistinctIds(init + [last])| ==>
      ListedAtFirstAppearance(init + [last], DistinctIds(init + [last]), k)
  {
    var rows := init + [last];
    var ids := DistinctIds(init);
    var r := DistinctIds(rows);
    assert rows[..|rows| - 1] == init;
    assert r == if IdOf(last) in ids then ids else ids + [IdOf(last)];
    forall i | 0 <= i < |rows| ensures IdOf(rows[i]) in r {
      if i < |init| {
        assert rows[i] == init[i];
      }
    }
    forall k | 0 <= k < |r| ensures ListedAtFirstAppearance(rows, r, k) {
      if k < |ids| {
        assert ListedAtFirstAppearance(init, ids, k);
        var i :| FirstListedAt(init, ids, k, i);
        FirstListedSnoc(init, last, ids, r, k, i);
      } else {
        assert r[..k] == ids;
        forall j | 0 <= j < |init| ensures IdOf(rows[j]) in r[..k] {
          assert rows[j] == init[j];
        }
        assert FirstListedAt(rows, r, k, |init|);
      }
    }
  }

  /** A first appearance in `init` stays one when a row is appended and
      the listing only grows. */
  lemma FirstListedSnoc(init: seq<map<string, Cell>>, last: map<string, Cell>,
                        ids: seq<seq<Cell>>, r: seq<seq<Cell>>, k: nat, i: nat)
    requires FirstListedAt(init, ids, k, i) && ids <= r
    ensures FirstListedAt(init + [last], r, k, i)
  {
    assert r[..k] == ids[..k];
    forall j | 0 <= j < i ensures IdOf((init + [last])[j]) in r[..k] {
      assert (init + [last])[j] == init[j];
    }
  }

  /** Element-wise `==` of pandas: NaN equals nothing. */
  predicate SameCell(a: Cell, b: Cell) { a != Empty && a == b }

  predicate SameAccount(r: map<string, Cell>, id: seq<Cell>)
    requires |id| == |KeyColumns|
  {
    SameCell(Lookup(r, "fs_nm"), id[3]) && SameCell(Lookup(r, "sj_nm"), id[4]) &&
    SameCell(Lookup(r, "account_nm"), id[5])
  }

  /** The first row of the account (`.iloc[0]` of the selection); `None`
      where the selection is empty and `.iloc[0]` raises. */
  function FirstRowOf(rows: seq<map<string, Cell>>, id: seq<Cell>): (r: Option<map<string, Cell>>)
    requires |id| == |KeyColumns|
    ensures r.Some? ==> r.value in rows && SameAccount(r.value, id)
    ensures r.Some? ==> exists i :: (0 <= i < |rows| && rows[i] == r.value &&
      forall j :: 0 <= j < i ==> !SameAccount(rows[j], id))
    ensures r.None? ==> forall i :: 0 <= i < |rows| ==> !SameAccount(rows[i], id)
    decreases |rows|
  {
    if rows == [] then None
    else if SameAccount(rows[0], id) then Some(rows[0])
    else FirstRowOf(rows[1..], id)
  }

  /** One account: its row is looked up or inserted, then every period. */
  function AccountWrites(corp: int, rows: seq<map<string, Cell>>, g: Grouping, id: seq<Cell>): Log
    requires |id| == |KeyColumns|
  {
    var acc := AccountRef(id[3], id[4], id[5]);
    match FirstRowOf(rows, id)
    case None => Log([PutAccount(acc)], false)
    case Some(one) => Then(Log([PutAccount(acc)], true), PeriodsWrites(corp, acc, one, g, g.order))
  }

  function AccountsWrites(corp: int, rows: seq<map<string, Cell>>, g: Grouping, ids: seq<seq<Cell>>): Log
    requires forall i :: 0 <= i < |ids| ==> |ids[i]| == |KeyColumns|
    decreases |ids|
  {
    if ids == [] then Log([], true)
    else Then(AccountsWrites(corp, rows, g, ids[..|ids| - 1]), AccountWrites(corp, rows, g, ids[|ids| - 1]))
  }

  /** One workbook: the company row from the first row, then every account.
      A missing key column, an empty sheet, or a code or stock code that
      `int` cannot read raises. */
  function FileWrites(wb: Workbook): Log
  {
    var g := Group(wb.columns);
    if wb.rows == [] || "고유번호" !in wb.columns || "회사명" !in wb.columns || "stock_code" !in wb.columns then
      Log([], false)
    else
      var first := wb.rows[0];
      match IntOf(Lookup(first, "고유번호"))
      case None => Log([], false)
      case Some(corp) =>
        match IntOf(Lookup(first, "stock_code"))
        case None => Log([], false)
        case Some(stock) =>
          var company := PutCompany(corp, CompanyRow(CellText(Lookup(first, "회사명")), stock));
          if !(forall i :: 0 <= i < |KeyColumns| ==> KeyColumns[i] in wb.columns) then Log([company], false)
          else Then(Log([company], true), AccountsWrites(corp, wb.rows, g, DistinctIds(wb.rows)))
  }

  /** The statements of a whole run, up to the first that raises. */
  function RunWrites(files: seq<SourceFile>): Log
    decreases |files|
  {
    if files == [] then Log([], true)
    else
      var f := files[|files| - 1];
      Then(RunWrites(files[..|files| - 1]), if f.None? then Log([], true) else FileWrites(f.value))
  }

  /** The database after a run, and whether the run reached its end. */
  function Load(db: Db, files: seq<SourceFile>): (Db, bool)
  {
    (ApplyAll(db, RunWrites(files).writes), RunWrites(files).completed)
  }

  // =====================================================================
  // The script, statement by statement
  // =====================================================================

  /** The database the script writes to. */
  class Warehouse {
    var companies: map<int, CompanyRow>
    var accounts: set<AccountRef>
    var reports: map<ReportKey, string>
    var values: map<ValueKey, FinValue>

    function State(): Db
      reads this
    {
      Db(companies, accounts, reports, values)
    }

    constructor(db: Db)
      ensures State() == db
    {
      companies, accounts, reports, values := db.companies, db.accounts, db.reports, db.values;
    }

    /** `upsert_company`: inserted unless the code is already there. */
    method UpsertCompany(corp: int, row: CompanyRow)
      modifies this
      ensures State() == Apply(old(State()), PutCompany(corp, row))
    {
      if corp !in companies {
        companies := companies[corp := row];
      }
    }

    /** `get_or_create_account`: the existing row, or a new one. */
    method GetOrCreateAccount(acc: AccountRef) returns (id: AccountRef)
      modifies this
      ensures id == acc && acc in accounts
      ensures State() == Apply(old(State()), PutAccount(acc))
    {
      if acc !in accounts {
        accounts := accounts + {acc};
      }
      id := acc;
    }

    /** `get_or_create_report`: the report of the year, quarter and
      normalised date, its name set to the label. */
    method GetOrCreateReport(year: int, quarter: string, name: string, dt: Cell) returns (id: ReportKey)
      modifies this
      ensures id == ReportKey(year, quarter, NormalizeDate(year, dt))
      ensures State() == Apply(old(State()), PutReport(id, name))
    {
      id := ReportKey(year, quarter, NormalizeDate(year, dt));
      reports := reports[id := name];
    }

    /** `upsert_fin_value`: raises, writing nothing, where the amount does
      not convert. */
    method UpsertFinValue(key: ValueKey, amount: Cell, currency: Cell) returns (ok: bool)
      modifies this
      ensures ok == AmountValue(amount).Some?
      ensures ok ==> State() == Apply(old(State()), PutValue(key, FinValue(AmountValue(amount).value, CellText(currency))))
      ensures !ok ==> State() == old(State())
    {
      var v := AmountValue(amount);
      if v.None? {
        return false;
      }
      values := values[key := FinValue(v.value, CellText(currency))];
      return true;
    }

    /** The body of the innermost loop, for one period. */
    method LoadPeriod(corp: int, acc: AccountRef, one: map<string, Cell>, prefix: string, parts: Parts)
      returns (ok: bool)
      modifies this
      ensures State() == ApplyAll(old(State()), PeriodWrites(corp, acc, one, prefix, parts).writes)
      ensures ok == PeriodWrites(corp, acc, one, prefix, parts).completed
    {
      ghost var start := State();
      var per := ParsePeriod(prefix);
      if per.None? || Dt !in parts {
        return false;
      }
      var year, report, quarter := per.value.year, per.value.report, per.value.quarter;
      var rep := GetOrCreateReport(year, quarter, report, Lookup(one, parts[Dt]));
      ApplyOne(start, PutReport(rep, report));
      if Amount !in parts || Currency !in parts {
        return false;
      }
      var amount := Lookup(one, parts[Amount]);
      var currency := Lookup(one, parts[Currency]);
      if amount == Empty {
        return true;
      }
      ok := UpsertFinValue(ValueKey(corp, acc, rep), amount, currency);
      if ok {
        ApplyTwo(start, PutReport(rep, report),
                 PutValue(ValueKey(corp, acc, rep), FinValue(AmountValue(amount).value, CellText(currency))));
      }
    }

    /** The innermost loop: every period of one account. */
    method LoadPeriods(corp: int, acc: AccountRef, one: map<string, Cell>, g: Grouping) returns (ok: bool)
      modifies this
      ensures State() == ApplyAll(old(State()), PeriodsWrites(corp, acc, one, g, g.order).writes)
      ensures ok == PeriodsWrites(corp, acc, one, g, g.order).completed
    {
      ghost var start := State();
      var order := g.order;
      var i := 0;
      assert order[..0] == [];
      while i < |order|
        invariant 0 <= i <= |order|
        invariant PeriodsWrites(corp, acc, one, g, order[..i]).completed
        invariant State() == ApplyAll(start, PeriodsWrites(corp, acc, one, g, order[..i]).writes)
      {
        var p := order[i];
        ghost var before := PeriodsWrites(corp, acc, one, g, order[..i]);
        ghost var step := PeriodWrites(corp, acc, one, p, PartsOf(g, p));
        PeriodsSnoc(corp, acc, one, g, order, i);
        var stepOk := LoadPeriod(corp, acc, one, p, PartsOf(g, p));
        ApplyAllConcat(start, before.writes, step.writes);
        if !stepOk {
          PeriodsStopped(corp, acc, one, g, order, i + 1);
          assert order[..|order|] == order;
          return false;
        }
        i := i + 1;
      }
      assert order[..i] == order;
      return true;
    }

    /** The body of the middle loop, for one account. */
    method LoadAccount(corp: int, rows: seq<map<string, Cell>>, g: Grouping, id: seq<Cell>) returns (ok: bool)
      requires |id| == |KeyColumns|
      modifies this
      ensures State() == ApplyAll(old(State()), AccountWrites(corp, rows, g, id).writes)
      ensures ok == AccountWrites(corp, rows, g, id).completed
    {
      ghost var start := State();
      var acc := GetOrCreateAccount(AccountRef(id[3], id[4], id[5]));
      assert State() == ApplyAll(start, [PutAccount(acc)]);
      var one := FirstRowOf(rows, id);
      if one.None? {
        return false;
      }
      ghost var periods := PeriodsWrites(corp, acc, one.value, g, g.order);
      ok := LoadPeriods(corp, acc, one.value, g);
      ApplyAllConcat(start, [PutAccount(acc)], periods.writes);
    }

    /** The middle loop: every distinct account of the sheet. */
    method LoadAccounts(corp: int, rows: seq<map<string, Cell>>, g: Grouping, ids: seq<seq<Cell>>) returns (ok: bool)
      requires forall i :: 0 <= i < |ids| ==> |ids[i]| == |KeyColumns|
      modifies this
      ensures State() == ApplyAll(old(State()), AccountsWrites(corp, rows, g, ids).writes)
      ensures ok == AccountsWrites(corp, rows, g, ids).completed
    {
      ghost var start := State();
      var i := 0;
      assert ids[..0] == [];
      while i < |ids|
        invariant 0 <= i <= |ids|
        invariant AccountsWrites(corp, rows, g, ids[..i]).completed
        invariant State() == ApplyAll(start, AccountsWrites(corp, rows, g, ids[..i]).writes)
      {
        ghost var before := AccountsWrites(corp, rows, g, ids[..i]);
        ghost var step := AccountWrites(corp, rows, g, ids[i]);
        AccountsSnoc(corp, rows, g, ids, i);
        var stepOk := LoadAccount(corp, rows, g, ids[i]);
        ApplyAllConcat(start, before.writes, step.writes);
        if !stepOk {
          AccountsStopped(corp, rows, g, ids, i + 1);
          assert ids[..|ids|] == ids;
          return false;
        }
        i := i + 1;
      }
      assert ids[..i] == ids;
      return true;
    }

    /** One file of the outer loop. */
    method LoadWorkbook(wb: Workbook) returns (ok: bool)
      modifies this
      ensures State() == ApplyAll(old(State()), FileWrites(wb).writes)
      ensures ok == FileWrites(wb).completed
    {
      ghost var start := State();
      var order, triples := GroupTriples(wb.columns);
      var g := Grouping(order, triples);
      if wb.rows == [] || "고유번호" !in wb.columns || "회사명" !in wb.columns || "stock_code" !in wb.columns {
        return false;
      }
      var first := wb.rows[0];
      var corp := IntOf(Lookup(first, "고유번호"));
      var stock := IntOf(Lookup(first, "stock_code"));
      if corp.None? || stock.None? {
        return false;
      }
      var company := CompanyRow(CellText(Lookup(first, "회사명")), stock.value);
      UpsertCompany(corp.value, company);
      assert State() == ApplyAll(start, [PutCompany(corp.value, company)]);
      if exists i :: 0 <= i < |KeyColumns| && KeyColumns[i] !in wb.columns {
        return false;
      }
      var ids := DistinctIds(wb.rows);
      var accountsLog := AccountsWrites(corp.value, wb.rows, g, ids);
      ok := LoadAccounts(corp.value, wb.rows, g, ids);
      ApplyAllConcat(start, [PutCompany(corp.value, company)], accountsLog.writes);
    }

    /** The whole run: unreadable files are skipped, and the first file
      that raises ends it. */
    method LoadFiles(files: seq<SourceFile>) returns (completed: bool)
      modifies this
      ensures (State(), completed) == Load(old(State()), files)
    {
      ghost var start := State();
      var i := 0;
      completed := true;
      assert files[..0] == [];
      while i < |files| && completed
        invariant 0 <= i <= |files|
        invariant RunWrites(files[..i]).completed == completed
        invariant State() == ApplyAll(start, RunWrites(files[..i]).writes)
      {
        RunSnoc(files, i);
        if files[i].Some? {
          ghost var before := RunWrites(files[..i]).writes;
          ghost var step := FileWrites(files[i].value);
          completed := LoadWorkbook(files[i].value);
          ApplyAllConcat(start, before, step.writes);
        }
        i := i + 1;
      }
      if completed {
        assert files[..i] == files;
      } else {
        RunStopped(files, i);
      }
    }
  }

  // =====================================================================
  // Properties
  // =====================================================================

  lemma {:induction false} ApplyAllConcat(db: Db, a: seq<Write>, b: seq<Write>)
    ensures ApplyAll(db, a + b) == ApplyAll(ApplyAll(db, a), b)
    decreases |b|
  {
    if b == [] {
      assert a + b == a;
    } else {
      var n := |b| - 1;
      assert (a + b)[..|a + b| - 1] == a + b[..n];
      ApplyAllConcat(db, a, b[..n]);
    }
  }

  lemma PeriodsSnoc(corp: int, acc: AccountRef, one: map<string, Cell>, g: Grouping, order: seq<string>, i: nat)
    requires i < |order|
    ensures PeriodsWrites(corp, acc, one, g, order[..i + 1]) ==
      Then(PeriodsWrites(corp, acc, one, g, order[..i]), PeriodWrites(corp, acc, one, order[i], PartsOf(g, order[i])))
  {
    assert order[..i + 1][..i] == order[..i];
  }

  lemma AccountsSnoc(corp: int, rows: seq<map<string, Cell>>, g: Grouping, ids: seq<seq<Cell>>, i: nat)
    requires forall i :: 0 <= i < |ids| ==> |ids[i]| == |KeyColumns|
    requires i < |ids|
    ensures AccountsWrites(corp, rows, g, ids[..i + 1]) ==
      Then(AccountsWrites(corp, rows, g, ids[..i]), AccountWrites(corp, rows, g, ids[i]))
  {
    assert ids[..i + 1][..i] == ids[..i];
  }

  lemma {:induction false} PeriodsStopped(corp: int, acc: AccountRef, one: map<string, Cell>, g: Grouping,
                                          order: seq<string>, n: nat)
    requires n <= |order| && !PeriodsWrites(corp, acc, one, g, order[..n]).completed
    ensures PeriodsWrites(corp, acc, one, g, order) == PeriodsWrites(corp, acc, one, g, order[..n])
    decreases |order| - n
  {
    if n < |order| {
      assert order[..n + 1][..n] == order[..n];
      PeriodsStopped(corp, acc, one, g, order, n + 1);
    } else {
      assert order[..n] == order;
    }
  }

  lemma {:induction false} AccountsStopped(corp: int, rows: seq<map<string, Cell>>, g: Grouping,
                                           ids: seq<seq<Cell>>, n: nat)
    requires forall i :: 0 <= i < |ids| ==> |ids[i]| == |KeyColumns|
    requires n <= |ids| && !AccountsWrites(corp, rows, g, ids[..n]).completed
    ensures AccountsWrites(corp, rows, g, ids) == AccountsWrites(corp, rows, g, ids[..n])
    decreases |ids| - n
  {
    if n < |ids| {
      assert ids[..n + 1][..n] == ids[..n];
      AccountsStopped(corp, rows, g, ids, n + 1);
    } else {
      assert ids[..n] == ids;
    }
  }

  /** One more file after a run that has not stopped: an unreadable file
      adds nothing, a workbook adds its writes and decides whether the run
      goes on. */
  lemma RunSnoc(files: seq<SourceFile>, i: nat)
    requires i < |files| && RunWrites(files[..i]).completed
    ensures files[i].None? ==> RunWrites(files[..i + 1]) == RunWrites(files[..i])
    ensures files[i].Some? ==>
      RunWrites(files[..i + 1]) ==
        Log(RunWrites(files[..i]).writes + FileWrites(files[i].value).writes, FileWrites(files[i].value).completed)
  {
    assert files[..i + 1][..i] == files[..i];
    if files[i].None? {
      assert RunWrites(files[..i]).writes + [] == RunWrites(files[..i]).writes;
    }
  }

  lemma {:induction false} RunStopped(files: seq<SourceFile>, n: nat)
    requires n <= |files| && !RunWrites(files[..n]).completed
    ensures RunWrites(files) == RunWrites(files[..n])
    decreases |files| - n
  {
    if n < |files| {
      assert files[..n + 1][..n] == files[..n];
      RunStopped(files, n + 1);
    } else {
      assert files[..n] == files;
    }
  }

  /** The database holding only what a run of statements writes. */
  const NoRows := Db(map[], {}, map[], map[])

  /** The tables of `db` with the rows of `added` laid over them: a code
      already in `db` keeps its company row, everything else is updated. */
  function Overlay(db: Db, added: Db): Db
  {
    Db(added.companies + db.companies, db.accounts + added.accounts,
       db.reports + added.reports, db.values + added.values)
  }

  /** Running statements on a database lays what they write on an empty
      database over it. */
  lemma {:induction false} ApplyAllOverlay(db: Db, ws: seq<Write>)
    ensures ApplyAll(db, ws) == Overlay(db, ApplyAll(NoRows, ws))
    decreases |ws|
  {
    if ws == [] {
      assert Overlay(db, NoRows) == db;
    } else {
      var n := |ws| - 1;
      ApplyAllOverlay(db, ws[..n]);
      OverlayStep(db, ApplyAll(NoRows, ws[..n]), ws[n]);
    }
  }

  /** One statement on the overlaid database is the overlay of that
      statement's effect. */
  lemma OverlayStep(db: Db, f: Db, w: Write)
    ensures Apply(Overlay(db, f), w) == Overlay(db, Apply(f, w))
  {
    var d := Overlay(db, f);
    match w
    case PutCompany(c, r) =>
      if c !in f.companies && c in db.companies {
        assert f.companies[c := r] + db.companies == f.companies + db.companies;
      } else if c !in f.companies {
        assert f.companies[c := r] + db.companies == (f.companies + db.companies)[c := r];
      }
    case PutAccount(a) =>
      assert db.accounts + (f.accounts + {a}) == d.accounts + {a};
    case PutReport(k, v) =>
      assert db.reports + f.reports[k := v] == d.reports[k := v];
    case PutValue(k, v) =>
      assert db.values + f.values[k := v] == d.values[k := v];
  }

  /** Sending the same statements twice leaves the database as sending
      them once: every statement is an upsert or an insert-if-absent. */
  lemma ApplyAllTwice(db: Db, ws: seq<Write>)
    ensures ApplyAll(ApplyAll(db, ws), ws) == ApplyAll(db, ws)
  {
    var f := ApplyAll(NoRows, ws);
    ApplyAllOverlay(db, ws);
    ApplyAllOverlay(ApplyAll(db, ws), ws);
    var d := Overlay(db, f);
    assert f.companies + d.companies == d.companies;
    assert d.accounts + f.accounts == d.accounts;
    assert d.reports + f.reports == d.reports;
    assert d.values + f.values == d.values;
  }

  /** Loading the same files again changes nothing, and stops where the
      first load stopped. */
  lemma LoadIdempotent(db: Db, files: seq<SourceFile>)
    ensures Load(Load(db, files).0, files) == Load(db, files)
  {
    ApplyAllTwice(db, RunWrites(files).writes);
  }

  /** A period whose amount is missing writes its report row and no value,
      and the loop goes on. */
  lemma MissingAmountSkipped(corp: int, acc: AccountRef, one: map<string, Cell>, prefix: string, parts: Parts, db: Db)
    requires ParsePeriod(prefix).Some? && Dt in parts && Amount in parts && Currency in parts
    requires Lookup(one, parts[Amount]) == Empty
    ensures PeriodWrites(corp, acc, one, prefix, parts).completed
    ensures forall w :: w in PeriodWrites(corp, acc, one, prefix, parts).writes ==> w.PutReport?
    ensures ApplyAll(db, PeriodWrites(corp, acc, one, prefix, parts).writes).values == db.values
  {
    var per := ParsePeriod(prefix).value;
    var w := PutReport(ReportKey(per.year, per.quarter, NormalizeDate(per.year, Lookup(one, parts[Dt]))), per.report);
    assert PeriodWrites(corp, acc, one, prefix, parts) == Log([w], true);
    ApplyOne(db, w);
  }

  /** A present amount is written as the value `to_float` gives it, under
      the period's report; an amount that does not convert stops the run
      after the report row. */
  lemma PresentAmountWritten(corp: int, acc: AccountRef, one: map<string, Cell>, prefix: string, parts: Parts)
    requires ParsePeriod(prefix).Some? && Dt in parts && Amount in parts && Currency in parts
    requires Lookup(one, parts[Amount]) != Empty
    ensures var log := PeriodWrites(corp, acc, one, prefix, parts);
      log.completed <==> AmountValue(Lookup(one, parts[Amount])).Some?
    ensures var log := PeriodWrites(corp, acc, one, prefix, parts);
      log.completed ==> (|log.writes| == 2 && log.writes[1].PutValue? &&
        log.writes[1].key == ValueKey(corp, acc, log.writes[0].report) &&
        log.writes[1].value.amount == ToAmount(Lookup(one, parts[Amount])))
  {
    AmountAgreesWithToFloat(Lookup(one, parts[Amount]));
  }

  /** Every value a period writes is filed under the given company code. */
  predicate ValuesUnder(ws: seq<Write>, corp: int)
  {
    forall i :: 0 <= i < |ws| && ws[i].PutValue? ==> ws[i].key.corp == corp
  }

  lemma ValuesUnderConcat(a: seq<Write>, b: seq<Write>, corp: int)
    requires ValuesUnder(a, corp) && ValuesUnder(b, corp)
    ensures ValuesUnder(a + b, corp)
  {
    forall i | 0 <= i < |a + b| && (a + b)[i].PutValue? ensures (a + b)[i].key.corp == corp {
      if i >= |a| {
        assert (a + b)[i] == b[i - |a|];
      }
    }
  }

  lemma ThenUnder(a: Log, b: Log, corp: int)
    requires ValuesUnder(a.writes, corp) && ValuesUnder(b.writes, corp)
    ensures ValuesUnder(Then(a, b).writes, corp)
  {
    if a.completed {
      ValuesUnderConcat(a.writes, b.writes, corp);
    }
  }

  lemma PeriodUnder(corp: int, acc: AccountRef, one: map<string, Cell>, prefix: string, parts: Parts)
    ensures ValuesUnder(PeriodWrites(corp, acc, one, prefix, parts).writes, corp)
  {
  }

  lemma {:induction false} PeriodsUnder(corp: int, acc: AccountRef, one: map<string, Cell>, g: Grouping, order: seq<string>)
    ensures ValuesUnder(PeriodsWrites(corp, acc, one, g, order).writes, corp)
    decreases |order|
  {
    if order != [] {
      var n := |order| - 1;
      var p := order[n];
      PeriodsUnder(corp, acc, one, g, order[..n]);
      PeriodUnder(corp, acc, one, p, PartsOf(g, p));
      ThenUnder(PeriodsWrites(corp, acc, one, g, order[..n]), PeriodWrites(corp, acc, one, p, PartsOf(g, p)), corp);
    }
  }

  lemma {:induction false} AccountsUnder(corp: int, rows: seq<map<string, Cell>>, g: Grouping, ids: seq<seq<Cell>>)
    requires forall i :: 0 <= i < |ids| ==> |ids[i]| == |KeyColumns|
    ensures ValuesUnder(AccountsWrites(corp, rows, g, ids).writes, corp)
    decreases |ids|
  {
    if ids != [] {
      var n := |ids| - 1;
      AccountsUnder(corp, rows, g, ids[..n]);
      var id := ids[n];
      var acc := AccountRef(id[3], id[4], id[5]);
      var before := AccountsWrites(corp, rows, g, ids[..n]);
      var step := AccountWrites(corp, rows, g, id);
      if FirstRowOf(rows, id).Some? {
        PeriodsUnder(corp, acc, FirstRowOf(rows, id).value, g, g.order);
        ValuesUnderConcat([PutAccount(acc)], PeriodsWrites(corp, acc, FirstRowOf(rows, id).value, g, g.order).writes, corp);
      }
      ValuesUnderConcat(before.writes, step.writes, corp);
    }
  }

  /** A file writes values only under the company code of its first row,
      and its company row first of all. */
  lemma FileValuesUnderItsCompany(wb: Workbook)
    requires FileWrites(wb).writes != []
    ensures wb.rows != [] && IntOf(Lookup(wb.rows[0], "고유번호")).Some?
    ensures FileWrites(wb).writes[0].PutCompany?
    ensures FileWrites(wb).writes[0].corp == IntOf(Lookup(wb.rows[0], "고유번호")).value
    ensures ValuesUnder(FileWrites(wb).writes, IntOf(Lookup(wb.rows[0], "고유번호")).value)
  {
    var corp := IntOf(Lookup(wb.rows[0], "고유번호")).value;
    var stock := IntOf(Lookup(wb.rows[0], "stock_code")).value;
    var company := PutCompany(corp, CompanyRow(CellText(Lookup(wb.rows[0], "회사명")), stock));
    if forall i :: 0 <= i < |KeyColumns| ==> KeyColumns[i] in wb.columns {
      var g := Group(wb.columns);
      AccountsUnder(corp, wb.rows, g, DistinctIds(wb.rows));
      ValuesUnderConcat([company], AccountsWrites(corp, wb.rows, g, DistinctIds(wb.rows)).writes, corp);
    }
  }
}
