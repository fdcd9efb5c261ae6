/**
 * The batch fetcher of fetch_corp_financials.py (`run_batch_fetch`): for
 * every selected company and every (year, report) period of the configured
 * window, in order, it requests the company's major accounts and saves the
 * answer as one spreadsheet per period under the company's directory,
 * skipping periods whose file already exists and ending the whole batch
 * when the service reports that the daily quota is used up.
 *
 * The web service is a function from request to reply, the saved
 * spreadsheets are a map from path to rows.
 */
module Fetch {
  import opened Text
  import opened Seqs
  import opened Sheet
  import Merge
  import MergeProperties

  // =====================================================================
  // Constants and configuration
  // =====================================================================

  const OutputDir: string := "dart_financial_data"
  const ListedStatus: string := "000"
  const NoDataStatus: string := "013"
  const QuotaStatus: string := "020"
  const QuotaPhrase: string := "사용한도를 초과하였습니다"
  const Unknown: string := "N/A"
  const PlaceholderStatus: string := "NO_DATA"
  const PlaceholderMessage: string := "조회된 데이터가 없습니다"
  const Consolidated: string := "CFS"
  const CodeWidth: nat := 8

  /** The settings the batch reads from its configuration module. */
  datatype Config = Config(apiKey: string, startYear: int, startQuarter: int, endYear: int, endQuarter: int,
                           targets: seq<string>, createEmpty: bool)

  /** One row of the company list: identifier, name and stock code as read. */
  datatype Corp = Corp(corpCode: Cell, corpName: string, stockCode: Cell)

  /** The quarter number 1..4 of a report of the year. */
  type Quarter = q: int | 1 <= q <= 4 witness 1

  /** A period of the window: a business year and the quarter number of its report. */
  datatype Period = Period(year: int, quarter: Quarter)

  /** The four reports of a year, in fetch order, with their service codes;
      the report at index `q - 1` has quarter number `q`. */
  const Reports: seq<(string, string)> := [("1분기", "11013"), ("반기", "11012"), ("3분기", "11014"), ("사업보고서", "11011")]

  function ReportName(q: Quarter): string { Reports[q - 1].0 }

  function ReportCode(q: Quarter): string { Reports[q - 1].1 }

  // =====================================================================
  // The period window
  // =====================================================================

  /** The two quarter filters: in the first year no report before the start
      quarter, in the last year none after the end quarter. */
  predicate InWindow(cfg: Config, year: int, q: int)
  {
    !(year == cfg.startYear && q < cfg.startQuarter) && !(year == cfg.endYear && q > cfg.endQuarter)
  }

  /** The periods of `year` among its first `n` reports that pass the filters. */
  function YearVisits(cfg: Config, year: int, n: nat): seq<Period>
    requires n <= |Reports|
  {
    if n == 0 then []
    else YearVisits(cfg, year, n - 1) + (if InWindow(cfg, year, n) then [Period(year, n)] else [])
  }

  /** The periods visited in the years from the start year up to `year`, exclusive. */
  function VisitsBefore(cfg: Config, year: int): seq<Period>
    decreases year - cfg.startYear
  {
    if year <= cfg.startYear then [] else VisitsBefore(cfg, year - 1) + YearVisits(cfg, year - 1, |Reports|)
  }

  /** Every period the batch visits for one company, in visiting order. */
  function Visits(cfg: Config): seq<Period>
  {
    VisitsBefore(cfg, cfg.endYear + 1)
  }

  /** Chronological order of periods. */
  predicate Earlier(a: Period, b: Period)
  {
    a.year < b.year || (a.year == b.year && a.quarter < b.quarter)
  }

  predicate Chronological(ps: seq<Period>)
  {
    forall i, j :: 0 <= i < j < |ps| ==> Earlier(ps[i], ps[j])
  }

  // =====================================================================
  // Companies, names and paths
  // =====================================================================

  /** `corp_code` as text, zero-padded on the left to eight characters. */
  function PaddedCode(code: Cell): string
  {
    ZFill(CellText(code), CodeWidth)
  }

  /** A non-empty target list keeps only the companies it names. */
  function Targeted(cfg: Config, corps: seq<Corp>): seq<Corp>
  {
    if cfg.targets == [] then corps else Filter(corps, (c: Corp) => c.corpName in cfg.targets)
  }

  /** A stock code that is neither missing nor empty text. */
  predicate HasStockCode(c: Corp)
  {
    c.stockCode != Empty && c.stockCode != Str("")
  }

  /** The companies the batch processes, in list order. */
  function Selected(cfg: Config, corps: seq<Corp>): seq<Corp>
  {
    Filter(Targeted(cfg, corps), HasStockCode)
  }

  /** The company's directory name: every character that is not
      alphanumeric becomes `_`. */
  function SafeName(name: string): string
  {
    seq(|name|, i requires 0 <= i < |name| => if IsAlnum(name[i]) then name[i] else '_')
  }

  /** `os.path.join` of a directory and a relative name. */
  function PathJoin(dir: string, name: string): string
  {
    if dir == [] || dir[|dir| - 1] == '/' then dir + name else dir + "/" + name
  }

  function FileName(p: Period): string
  {
    IntToString(p.year) + "_" + ReportName(p.quarter) + "_major_accounts.xlsx"
  }

  function CompanyDir(c: Corp): string
  {
    PathJoin(OutputDir, SafeName(c.corpName))
  }

  /** Where the batch saves one company's period. */
  function FilePath(c: Corp, p: Period): string
  {
    PathJoin(CompanyDir(c), FileName(p))
  }

  // =====================================================================
  // Requests, replies and saved files
  // =====================================================================

  /** The query parameters of one request. */
  datatype Request = Request(apiKey: string, corpCode: string, businessYear: string, reportCode: string,
                             statementDivision: string)

  /** The decoded JSON answer, each field possibly absent, or an exception
      while requesting or decoding. */
  datatype Reply = Answer(status: Option<string>, message: Option<string>, items: Option<seq<Row>>) | Raised

  /** What the web service answers; the same request gets the same answer
      within one run. */
  type Service = Request -> Reply

  /** The saved spreadsheets by path. */
  type Files = map<string, seq<Row>>

  datatype Outcome = Outcome(files: Files, quota: bool)

  function RequestFor(cfg: Config, c: Corp, p: Period): Request
  {
    Request(cfg.apiKey, PaddedCode(c.corpCode), IntToString(p.year), ReportCode(p.quarter), Consolidated)
  }

  function OrUnknown(o: Option<string>): string
  {
    if o.Some? then o.value else Unknown
  }

  /** The quota error ends the batch: status `020`, or the quota phrase in the message. */
  predicate IsQuotaError(status: string, message: string)
  {
    status == QuotaStatus || Contains(message, QuotaPhrase)
  }

  /** An account item tagged with the company's name, padded code and stock code. */
  function Tag(item: Row, c: Corp): Row
  {
    item["회사명" := Str(c.corpName)]["고유번호" := Str(PaddedCode(c.corpCode))]["stock_code" := c.stockCode]
  }

  function TagAll(items: seq<Row>, c: Corp): seq<Row>
  {
    seq(|items|, i requires 0 <= i < |items| => Tag(items[i], c))
  }

  /** The single row saved for a period without data. */
  function Placeholder(c: Corp, p: Period): Row
  {
    map["회사명" := Str(c.corpName), "고유번호" := Str(PaddedCode(c.corpCode)), "stock_code" := c.stockCode,
        "status" := Str(PlaceholderStatus), "message" := Str(PlaceholderMessage),
        "year" := Whole(p.year), "report_name" := Str(ReportName(p.quarter))]
  }

  /** A period without data gets a placeholder file only when configured so. */
  function NoDataFiles(files: Files, cfg: Config, c: Corp, p: Period): Files
  {
    if cfg.createEmpty then files[FilePath(c, p) := [Placeholder(c, p)]] else files
  }

  /** A saved row carries the company's three identity columns. */
  predicate NamesCompany(row: Row, c: Corp)
  {
    "회사명" in row && row["회사명"] == Str(c.corpName) &&
    "고유번호" in row && row["고유번호"] == Str(PaddedCode(c.corpCode)) &&
    "stock_code" in row && row["stock_code"] == c.stockCode
  }

  /** A saved file of the company: at least one row, each naming the company. */
  predicate WrittenFor(rows: seq<Row>, c: Corp)
  {
    rows != [] && forall i :: 0 <= i < |rows| ==> NamesCompany(rows[i], c)
  }

  // =====================================================================
  // The batch as a fold
  // =====================================================================

  /** One period of one company. */
  function Step(files: Files, cfg: Config, c: Corp, p: Period, api: Service): Outcome
  {
    var path := FilePath(c, p);
    if path in files then Outcome(files, false)
    else match api(RequestFor(cfg, c, p))
      case Raised => Outcome(files, false)
      case Answer(status, message, items) =>
        if status == Some(ListedStatus) then
          var list := if items.Some? then items.value else [];
          if list != [] then Outcome(files[path := TagAll(list, c)], false)
          else Outcome(NoDataFiles(files, cfg, c, p), false)
        else if status == Some(NoDataStatus) then Outcome(NoDataFiles(files, cfg, c, p), false)
        else Outcome(files, IsQuotaError(OrUnknown(status), OrUnknown(message)))
  }

  /** The periods `ps` of one company in order, stopping at a quota error. */
  function RunCompany(files: Files, cfg: Config, c: Corp, ps: seq<Period>, api: Service): Outcome
    decreases |ps|
  {
    if ps == [] then Outcome(files, false)
    else
      var o := RunCompany(files, cfg, c, ps[..|ps| - 1], api);
      if o.quota then o else Step(o.files, cfg, c, ps[|ps| - 1], api)
  }

  /** The companies `cs` in order, each over the whole window, stopping at a quota error. */
  function RunAll(files: Files, cfg: Config, cs: seq<Corp>, api: Service): Outcome
    decreases |cs|
  {
    if cs == [] then Outcome(files, false)
    else
      var o := RunAll(files, cfg, cs[..|cs| - 1], api);
      if o.quota then o else RunCompany(o.files, cfg, cs[|cs| - 1], Visits(cfg), api)
  }

  /** The whole batch: nothing when the company list is empty or the target
      filter leaves no company. */
  function Batch(files: Files, cfg: Config, corps: seq<Corp>, api: Service): Outcome
  {
    if corps == [] || (cfg.targets != [] && Targeted(cfg, corps) == []) then Outcome(files, false)
    else RunAll(files, cfg, Selected(cfg, corps), api)
  }

  // =====================================================================
  // The batch as the script runs it
  // =====================================================================

  /** Tags every item of an answer in place. */
  method TagItems(items: array<Row>, c: Corp)
    modifies items
    ensures items[..] == TagAll(old(items[..]), c)
  {
    for i := 0 to items.Length
      invariant forall j :: 0 <= j < i ==> items[j] == Tag(old(items[j]), c)
      invariant forall j :: i <= j < items.Length ==> items[j] == old(items[j])
    {
      items[i] := Tag(items[i], c);
    }
  }

  /** The output directory seen as the set of saved spreadsheets. */
  class Archive {
    var files: Files

    constructor (existing: Files)
      ensures files == existing
    {
      files := existing;
    }

    /** One period of one company: skip an existing file, otherwise request
        and save; reports whether the quota error was met. */
    method FetchPeriod(cfg: Config, c: Corp, p: Period, api: Service) returns (quota: bool)
      modifies this
      ensures Outcome(files, quota) == Step(old(files), cfg, c, p, api)
    {
      quota := false;
      var path := FilePath(c, p);
      if path in files {
        return;
      }
      var reply := api(RequestFor(cfg, c, p));
      match reply {
        case Raised =>
        case Answer(status, message, items) =>
          if status == Some(ListedStatus) {
            var list := if items.Some? then items.value else [];
            var rows := new Row[|list|](i requires 0 <= i < |list| => list[i]);
            assert rows[..] == list;
            TagItems(rows, c);
            if rows.Length > 0 {
              files := files[path := rows[..]];
            } else if cfg.createEmpty {
              files := files[path := [Placeholder(c, p)]];
            }
          } else if status == Some(NoDataStatus) {
            if cfg.createEmpty {
              files := files[path := [Placeholder(c, p)]];
            }
          } else {
            quota := IsQuotaError(OrUnknown(status), OrUnknown(message));
          }
      }
    }

    /** One report of a year: fetched unless one of the two quarter
        filters skips it. */
    method VisitReport(cfg: Config, c: Corp, year: int, n: nat, api: Service, ghost start: Files)
      returns (quota: bool)
      requires n < |Reports|
      requires Outcome(files, false) == RunCompany(start, cfg, c, YearVisits(cfg, year, n), api)
      modifies this
      ensures Outcome(files, quota) == RunCompany(start, cfg, c, YearVisits(cfg, year, n + 1), api)
    {
      quota := false;
      var q := n + 1;
      var skip := false;
      if year == cfg.startYear && q < cfg.startQuarter {
        skip := true;
      }
      if year == cfg.endYear && q > cfg.endQuarter {
        skip := true;
      }
      if !skip {
        quota := FetchPeriod(cfg, c, Period(year, q), api);
        RunCompanySnoc(start, cfg, c, YearVisits(cfg, year, n), Period(year, q), api);
      } else {
        assert YearVisits(cfg, year, q) == YearVisits(cfg, year, n);
      }
    }

    /** The four reports of one year for one company, in order. */
    method FetchYear(cfg: Config, c: Corp, year: int, api: Service) returns (quota: bool)
      modifies this
      ensures Outcome(files, quota) == RunCompany(old(files), cfg, c, YearVisits(cfg, year, |Reports|), api)
    {
      ghost var start := files;
      quota := false;
      var n := 0;
      while n < |Reports| && !quota
        invariant 0 <= n <= |Reports|
        invariant Outcome(files, quota) == RunCompany(start, cfg, c, YearVisits(cfg, year, n), api)
      {
        quota := VisitReport(cfg, c, year, n, api, start);
        n := n + 1;
      }
      if quota {
        YearStopped(start, cfg, c, year, n, api, Outcome(files, quota));
      }
    }

    /** The years of the window for one company, ascending; states the
        visit of one year in terms of the visits before it. */
    method VisitYear(cfg: Config, c: Corp, year: int, api: Service, ghost start: Files) returns (quota: bool)
      requires cfg.startYear <= year
      requires Outcome(files, false) == RunCompany(start, cfg, c, VisitsBefore(cfg, year), api)
      modifies this
      ensures Outcome(files, quota) == RunCompany(start, cfg, c, VisitsBefore(cfg, year + 1), api)
    {
      quota := FetchYear(cfg, c, year, api);
      RunCompanyConcat(start, cfg, c, VisitsBefore(cfg, year), YearVisits(cfg, year, |Reports|), api);
      assert VisitsBefore(cfg, year + 1) == VisitsBefore(cfg, year) + YearVisits(cfg, year, |Reports|);
    }

    /** Every period of the window for one company, years ascending. */
    method FetchCompany(cfg: Config, c: Corp, api: Service) returns (quota: bool)
      modifies this
      ensures Outcome(files, quota) == RunCompany(old(files), cfg, c, Visits(cfg), api)
    {
      ghost var start := files;
      quota := false;
      var year := cfg.startYear;
      while year <= cfg.endYear && !quota
        invariant cfg.startYear <= year && (year <= cfg.endYear + 1 || year == cfg.startYear)
        invariant Outcome(files, quota) == RunCompany(start, cfg, c, VisitsBefore(cfg, year), api)
      {
        quota := VisitYear(cfg, c, year, api, start);
        year := year + 1;
      }
      if quota {
        WindowStopped(start, cfg, c, year, api, Outcome(files, quota));
      } else {
        WindowDone(cfg, year);
      }
    }

    /** The batch over the company list. */
    method RunBatchFetch(cfg: Config, corps: seq<Corp>, api: Service) returns (quota: bool)
      modifies this
      ensures Outcome(files, quota) == Batch(old(files), cfg, corps, api)
    {
      quota := false;
      if corps == [] {
        return;
      }
      var targeted := Targeted(cfg, corps);
      if cfg.targets != [] && targeted == [] {
        return;
      }
      var selected := Filter(targeted, HasStockCode);
      quota := FetchCompanies(cfg, selected, api);
    }

    /** The selected companies in list order, up to the quota error. */
    method FetchCompanies(cfg: Config, selected: seq<Corp>, api: Service) returns (quota: bool)
      modifies this
      ensures Outcome(files, quota) == RunAll(old(files), cfg, selected, api)
    {
      ghost var start := files;
      quota := false;
      var i := 0;
      while i < |selected| && !quota
        invariant 0 <= i <= |selected|
        invariant Outcome(files, quota) == RunAll(start, cfg, selected[..i], api)
      {
        assert selected[..i] + [selected[i]] == selected[..i + 1];
        quota := FetchCompany(cfg, selected[i], api);
        RunAllSnoc(start, cfg, selected[..i], selected[i], api);
        i := i + 1;
      }
      if quota {
        RunAllStopped(start, cfg, selected[..i], selected, api);
      } else {
        assert selected[..i] == selected;
      }
    }
  }

  // =====================================================================
  // Fold lemmas
  // =====================================================================

  lemma RunCompanySnoc(files: Files, cfg: Config, c: Corp, ps: seq<Period>, p: Period, api: Service)
    ensures RunCompany(files, cfg, c, ps + [p], api) ==
      (var o := RunCompany(files, cfg, c, ps, api); if o.quota then o else Step(o.files, cfg, c, p, api))
  {
    assert (ps + [p])[..|ps|] == ps;
  }

  lemma RunAllSnoc(files: Files, cfg: Config, cs: seq<Corp>, c: Corp, api: Service)
    ensures RunAll(files, cfg, cs + [c], api) ==
      (var o := RunAll(files, cfg, cs, api); if o.quota then o else RunCompany(o.files, cfg, c, Visits(cfg), api))
  {
    assert (cs + [c])[..|cs|] == cs;
  }

  /** Visiting `ps` and then `qs` is visiting `ps + qs`. */
  lemma {:induction false} RunCompanyConcat(files: Files, cfg: Config, c: Corp, ps: seq<Period>, qs: seq<Period>,
                                            api: Service)
    ensures RunCompany(files, cfg, c, ps + qs, api) ==
      (var o := RunCompany(files, cfg, c, ps, api); if o.quota then o else RunCompany(o.files, cfg, c, qs, api))
    decreases |qs|
  {
    if qs == [] {
      assert ps + qs == ps;
    } else {
      var init, last := qs[..|qs| - 1], qs[|qs| - 1];
      AppendLast(ps, qs);
      RunCompanyConcat(files, cfg, c, ps, init, api);
      RunCompanySnoc(files, cfg, c, ps + init, last, api);
      var o := RunCompany(files, cfg, c, ps, api);
      if !o.quota {
        RunCompanySnoc(o.files, cfg, c, init, last, api);
      }
    }
  }

  /** After the quota error no later period of the company is requested. */
  lemma {:induction false} RunCompanyStopped(files: Files, cfg: Config, c: Corp, ps: seq<Period>, qs: seq<Period>,
                                             api: Service)
    requires ps <= qs
    requires RunCompany(files, cfg, c, ps, api).quota
    ensures RunCompany(files, cfg, c, qs, api) == RunCompany(files, cfg, c, ps, api)
    decreases |qs|
  {
    if |qs| > |ps| {
      assert ps <= qs[..|qs| - 1];
      RunCompanyStopped(files, cfg, c, ps, qs[..|qs| - 1], api);
    } else {
      assert ps == qs;
    }
  }

  /** After the quota error no later report of the year is requested. */
  lemma YearStopped(files: Files, cfg: Config, c: Corp, year: int, k: nat, api: Service, o: Outcome)
    requires k <= |Reports| && o.quota
    requires o == RunCompany(files, cfg, c, YearVisits(cfg, year, k), api)
    ensures o == RunCompany(files, cfg, c, YearVisits(cfg, year, |Reports|), api)
  {
    YearVisitsPrefix(cfg, year, k, |Reports|);
    RunCompanyStopped(files, cfg, c, YearVisits(cfg, year, k), YearVisits(cfg, year, |Reports|), api);
  }

  /** A year past the window has visited the whole window. */
  lemma WindowDone(cfg: Config, year: int)
    requires cfg.startYear <= year && cfg.endYear < year
    requires year <= cfg.endYear + 1 || year == cfg.startYear
    ensures VisitsBefore(cfg, year) == Visits(cfg)
  {
  }

  /** After the quota error no later year of the window is visited. */
  lemma WindowStopped(files: Files, cfg: Config, c: Corp, year: int, api: Service, o: Outcome)
    requires year <= cfg.endYear + 1 && o.quota
    requires o == RunCompany(files, cfg, c, VisitsBefore(cfg, year), api)
    ensures o == RunCompany(files, cfg, c, Visits(cfg), api)
  {
    VisitsBeforePrefix(cfg, year, cfg.endYear + 1);
    RunCompanyStopped(files, cfg, c, VisitsBefore(cfg, year), Visits(cfg), api);
  }

  /** After the quota error no later company is processed. */
  lemma {:induction false} RunAllStopped(files: Files, cfg: Config, cs: seq<Corp>, ds: seq<Corp>, api: Service)
    requires cs <= ds
    requires RunAll(files, cfg, cs, api).quota
    ensures RunAll(files, cfg, ds, api) == RunAll(files, cfg, cs, api)
    decreases |ds|
  {
    if |ds| > |cs| {
      assert cs <= ds[..|ds| - 1];
      RunAllStopped(files, cfg, cs, ds[..|ds| - 1], api);
    } else {
      assert cs == ds;
    }
  }

  // =====================================================================
  // The window
  // =====================================================================

  lemma {:induction false} YearVisitsMember(cfg: Config, year: int, n: nat, p: Period)
    requires n <= |Reports|
    ensures p in YearVisits(cfg, year, n) <==> p.year == year && p.quarter <= n && InWindow(cfg, year, p.quarter)
  {
    if n > 0 {
      YearVisitsMember(cfg, year, n - 1, p);
    }
  }

  lemma {:induction false} VisitsBeforeMember(cfg: Config, year: int, p: Period)
    ensures p in VisitsBefore(cfg, year) <==>
      cfg.startYear <= p.year < year && InWindow(cfg, p.year, p.quarter)
    decreases year - cfg.startYear
  {
    if year > cfg.startYear {
      VisitsBeforeMember(cfg, year - 1, p);
      YearVisitsMember(cfg, year - 1, |Reports|, p);
    }
  }

  /** A period is visited exactly when its year lies between the start and
      end years and it passes both quarter filters. */
  lemma VisitsMember(cfg: Config, p: Period)
    ensures p in Visits(cfg) <==>
      cfg.startYear <= p.year <= cfg.endYear &&
      !(p.year == cfg.startYear && p.quarter < cfg.startQuarter) &&
      !(p.year == cfg.endYear && p.quarter > cfg.endQuarter)
  {
    VisitsBeforeMember(cfg, cfg.endYear + 1, p);
  }

  lemma ChronologicalConcat(a: seq<Period>, b: seq<Period>)
    requires Chronological(a) && Chronological(b)
    requires forall x, y :: x in a && y in b ==> Earlier(x, y)
    ensures Chronological(a + b)
  {
    forall i, j | 0 <= i < j < |a + b|
      ensures Earlier((a + b)[i], (a + b)[j])
    {
      if j < |a| {
        assert (a + b)[i] == a[i] && (a + b)[j] == a[j];
      } else if i >= |a| {
        assert (a + b)[i] == b[i - |a|] && (a + b)[j] == b[j - |a|];
      } else {
        assert (a + b)[i] in a && (a + b)[j] in b;
      }
    }
  }

  lemma {:induction false} YearVisitsChronological(cfg: Config, year: int, n: nat)
    requires n <= |Reports|
    ensures Chronological(YearVisits(cfg, year, n))
  {
    if n > 0 {
      YearVisitsChronological(cfg, year, n - 1);
      var a := YearVisits(cfg, year, n - 1);
      var b: seq<Period> := if InWindow(cfg, year, n) then [Period(year, n)] else [];
      forall x, y | x in a && y in b
        ensures Earlier(x, y)
      {
        YearVisitsMember(cfg, year, n - 1, x);
      }
      ChronologicalConcat(a, b);
    }
  }

  lemma {:induction false} VisitsBeforeChronological(cfg: Config, year: int)
    ensures Chronological(VisitsBefore(cfg, year))
    decreases year - cfg.startYear
  {
    if year > cfg.startYear {
      VisitsBeforeChronological(cfg, year - 1);
      YearVisitsChronological(cfg, year - 1, |Reports|);
      var a := VisitsBefore(cfg, year - 1);
      var b := YearVisits(cfg, year - 1, |Reports|);
      forall x, y | x in a && y in b
        ensures Earlier(x, y)
      {
        VisitsBeforeMember(cfg, year - 1, x);
        YearVisitsMember(cfg, year - 1, |Reports|, y);
      }
      ChronologicalConcat(a, b);
    }
  }

  /** The window is visited in strictly increasing (year, quarter) order, so
      each period once. */
  lemma VisitsChronological(cfg: Config)
    ensures Chronological(Visits(cfg))
  {
    VisitsBeforeChronological(cfg, cfg.endYear + 1);
  }

  /** A window from the third quarter of 2018 to the first quarter of 2019. */
  lemma VisitsExample(cfg: Config)
    requires cfg.startYear == 2018 && cfg.startQuarter == 3 && cfg.endYear == 2019 && cfg.endQuarter == 1
    ensures Visits(cfg) == [Period(2018, 3), Period(2018, 4), Period(2019, 1)]
  {
    assert YearVisits(cfg, 2018, 1) == [];
    assert YearVisits(cfg, 2018, 2) == [];
    assert YearVisits(cfg, 2018, 3) == [Period(2018, 3)];
    assert YearVisits(cfg, 2018, 4) == [Period(2018, 3), Period(2018, 4)];
    assert YearVisits(cfg, 2019, 1) == [Period(2019, 1)];
    assert YearVisits(cfg, 2019, 3) == [Period(2019, 1)];
    assert YearVisits(cfg, 2019, 4) == [Period(2019, 1)];
    assert VisitsBefore(cfg, 2019) == [Period(2018, 3), Period(2018, 4)];
  }

  lemma {:induction false} YearVisitsPrefix(cfg: Config, year: int, k: nat, n: nat)
    requires k <= n <= |Reports|
    ensures YearVisits(cfg, year, k) <= YearVisits(cfg, year, n)
    decreases n
  {
    if k < n {
      YearVisitsPrefix(cfg, year, k, n - 1);
    }
  }

  lemma {:induction false} VisitsBeforePrefix(cfg: Config, year: int, later: int)
    requires year <= later
    ensures VisitsBefore(cfg, year) <= VisitsBefore(cfg, later)
    decreases later - year
  {
    if year < later {
      VisitsBeforePrefix(cfg, year, later - 1);
      if later - 1 < cfg.startYear {
        assert VisitsBefore(cfg, year) == [];
      }
    }
  }


  // =====================================================================
  // Companies, names and paths
  // =====================================================================

  /** A company is processed exactly when it is listed, named by the target
      list if that list is non-empty, and has a stock code. */
  lemma SelectedMember(cfg: Config, corps: seq<Corp>, c: Corp)
    ensures c in Selected(cfg, corps) <==>
      c in corps && (cfg.targets == [] || c.corpName in cfg.targets) &&
      c.stockCode != Empty && c.stockCode != Str("")
  {
    var t := Targeted(cfg, corps);
    FilterMember(t, HasStockCode, c);
    if cfg.targets != [] {
      FilterMember(corps, (d: Corp) => d.corpName in cfg.targets, c);
    }
  }

  /** A numeric identifier read without its leading zeros gets them back:
      eight or more digits denoting the same number. */
  lemma PaddedCodeOfNumber(n: nat)
    ensures IsDigitString(PaddedCode(Whole(n)))
    ensures |PaddedCode(Whole(n))| == if |NatToString(n)| >= CodeWidth then |NatToString(n)| else CodeWidth
    ensures DigitsValue(PaddedCode(Whole(n))) == n
  {
    NatToStringValue(n);
    ZFillDigits(NatToString(n), CodeWidth);
  }

  /** Padding a textual identifier of digits keeps its digits at the end and
      makes it at least eight long; a long enough one is kept as it is. */
  lemma PaddedCodeOfText(s: string)
    requires IsDigitString(s)
    ensures IsDigitString(PaddedCode(Str(s))) && EndsWith(PaddedCode(Str(s)), s)
    ensures |PaddedCode(Str(s))| == if |s| >= CodeWidth then |s| else CodeWidth
    ensures DigitsValue(PaddedCode(Str(s))) == DigitsValue(s)
    ensures |s| >= CodeWidth ==> PaddedCode(Str(s)) == s
  {
    ZFillDigits(s, CodeWidth);
  }

  /** The directory name has the name's length, keeps its alphanumeric
      characters, turns every other character into `_`, so holds no `/` or
      `.`, and
      sanitising it again changes nothing. */
  lemma SafeNameSpec(name: string)
    ensures |SafeName(name)| == |name|
    ensures forall i :: 0 <= i < |name| && IsAlnum(name[i]) ==> SafeName(name)[i] == name[i]
    ensures forall i :: 0 <= i < |name| && !IsAlnum(name[i]) ==> SafeName(name)[i] == '_'
    ensures forall i :: 0 <= i < |name| ==> IsAlnum(SafeName(name)[i]) || SafeName(name)[i] == '_'
    ensures '/' !in SafeName(name) && '.' !in SafeName(name)
    ensures SafeName(SafeName(name)) == SafeName(name)
  {
  }

  lemma IntToStringChars(i: int)
    ensures forall k :: 0 <= k < |IntToString(i)| ==> IsAsciiDigit(IntToString(i)[k]) || IntToString(i)[k] == '-'
  {
  }

  lemma NameParses(dir: string, year: string, report: string, a: string, b: string)
    requires '_' !in year && '/' !in year && '.' !in year
    requires '_' !in report && '/' !in report && '.' !in report
    requires '_' !in a && '/' !in a && '.' !in a && '_' !in b && '/' !in b && '.' !in b
    ensures Merge.ParseFileName(dir + "/" + (year + "_" + report + "_" + a + "_" + b + ".xlsx")) == Some((year, report))
  {
    var stem := year + "_" + report + "_" + a + "_" + b;
    JoinFree(year, report, a, b, '/');
    JoinFree(year, report, a, b, '.');
    MergeProperties.StemOf(dir, stem);
    JoinRegroup(year, report, a, b);
    MergeProperties.FourParts(year, report, a, b);
    FourPartName(dir + "/" + stem + ".xlsx", stem, year, report, a, b);
    assert dir + "/" + (stem + ".xlsx") == dir + "/" + stem + ".xlsx";
  }

  /** A base name whose stem splits into four parts yields the first two. */
  lemma FourPartName(path: string, stem: string, year: string, report: string, a: string, b: string)
    requires ReplaceAll(Merge.Basename(path), ".xlsx", "") == stem
    requires Split(stem, '_') == [year, report, a, b]
    ensures Merge.ParseFileName(path) == Some((year, report))
  {
  }

  /** A character other than `_` absent from four parts is absent from
      their `_`-join. */
  lemma JoinFree(year: string, report: string, a: string, b: string, x: char)
    requires x != '_' && x !in year && x !in report && x !in a && x !in b
    ensures x !in year + "_" + report + "_" + a + "_" + b
  {
  }

  lemma JoinRegroup(year: string, report: string, a: string, b: string)
    ensures year + "_" + report + "_" + a + "_" + b == year + ['_'] + (report + ['_'] + (a + ['_'] + b))
  {
  }

  lemma ReportNameChars(q: Quarter)
    ensures '_' !in ReportName(q) && '/' !in ReportName(q) && '.' !in ReportName(q)
  {
  }

  /** The file the batch saves a period under reads back, by the merge
      step's file-name rule, as that period's year and report label. */
  lemma FilePathParses(c: Corp, p: Period)
    ensures Merge.ParseFileName(FilePath(c, p)) == Some((IntToString(p.year), ReportName(p.quarter)))
  {
    var year, report := IntToString(p.year), ReportName(p.quarter);
    YearNameChars(p.year);
    ReportNameChars(p.quarter);
    FileNameJoin(p);
    CompanyDirNonEmpty(c);
    var up := JoinedUnder(CompanyDir(c), FileName(p));
    NameParses(up, year, report, "major", "accounts");
  }

  lemma YearNameChars(i: int)
    ensures '_' !in IntToString(i) && '/' !in IntToString(i) && '.' !in IntToString(i)
  {
    IntToStringChars(i);
  }

  lemma FileNameJoin(p: Period)
    ensures FileName(p) == IntToString(p.year) + "_" + ReportName(p.quarter) + "_" + "major" + "_" + "accounts" + ".xlsx"
  {
  }

  lemma CompanyDirNonEmpty(c: Corp)
    ensures CompanyDir(c) != []
  {
  }

  /** A name joined under a non-empty directory follows a `/`. */
  lemma JoinedUnder(dir: string, name: string) returns (up: string)
    requires dir != []
    ensures PathJoin(dir, name) == up + "/" + name
  {
    if dir[|dir| - 1] == '/' {
      up := dir[..|dir| - 1];
      assert dir == up + "/";
    } else {
      up := dir;
    }
  }

  lemma IntToStringInjective(i: int, j: int)
    requires IntToString(i) == IntToString(j)
    ensures i == j
  {
    ParseIntToString(i);
    ParseIntToString(j);
  }

  /** Different periods of a company are saved under different paths. */
  lemma FilePathInjective(c: Corp, p: Period, p': Period)
    requires FilePath(c, p) == FilePath(c, p')
    ensures p == p'
  {
    FilePathParses(c, p);
    FilePathParses(c, p');
    IntToStringInjective(p.year, p'.year);
  }

  // =====================================================================
  // One step
  // =====================================================================

  /** Every tagged item and every placeholder names the company, and
      tagging keeps the item's other columns. */
  lemma TagAllSpec(items: seq<Row>, c: Corp)
    ensures |TagAll(items, c)| == |items|
    ensures forall i :: 0 <= i < |items| ==> NamesCompany(TagAll(items, c)[i], c)
    ensures forall i, k :: 0 <= i < |items| && k in items[i] && k != "회사명" && k != "고유번호" && k != "stock_code" ==>
      k in TagAll(items, c)[i] && TagAll(items, c)[i][k] == items[i][k]
  {
  }

  predicate Extends(f: Files, g: Files)
  {
    forall path :: path in f ==> path in g && g[path] == f[path]
  }

  /** A step keeps every saved file and adds at most the period's own file,
      written for the company. */
  lemma StepGrows(files: Files, cfg: Config, c: Corp, p: Period, api: Service)
    ensures Extends(files, Step(files, cfg, c, p, api).files)
    ensures forall path :: path in Step(files, cfg, c, p, api).files && path !in files ==>
      path == FilePath(c, p) && WrittenFor(Step(files, cfg, c, p, api).files[path], c)
  {
    TagAllSpec(if api(RequestFor(cfg, c, p)).Answer? && api(RequestFor(cfg, c, p)).items.Some?
               then api(RequestFor(cfg, c, p)).items.value else [], c);
    PlaceholderNames(c, p);
  }

  lemma PlaceholderNames(c: Corp, p: Period)
    ensures WrittenFor([Placeholder(c, p)], c)
  {
    assert NamesCompany(Placeholder(c, p), c);
  }

  /** A reply after which a period of a missing file is left without a file
      and the batch goes on. */
  predicate QuietReply(cfg: Config, reply: Reply)
  {
    match reply
    case Raised => true
    case Answer(status, message, items) =>
      if status == Some(ListedStatus) then (items.None? || items.value == []) && !cfg.createEmpty
      else if status == Some(NoDataStatus) then !cfg.createEmpty
      else !IsQuotaError(OrUnknown(status), OrUnknown(message))
  }

  /** For a missing file a step changes nothing exactly on a quiet reply;
      otherwise it saves the file or meets the quota error. */
  lemma StepQuiet(files: Files, cfg: Config, c: Corp, p: Period, api: Service)
    requires FilePath(c, p) !in files
    ensures QuietReply(cfg, api(RequestFor(cfg, c, p))) <==> Step(files, cfg, c, p, api) == Outcome(files, false)
    ensures !QuietReply(cfg, api(RequestFor(cfg, c, p))) ==>
      FilePath(c, p) in Step(files, cfg, c, p, api).files || Step(files, cfg, c, p, api).quota
  {
  }

  // =====================================================================
  // The batch
  // =====================================================================

  lemma {:induction false} RunCompanyGrows(files: Files, cfg: Config, c: Corp, ps: seq<Period>, api: Service)
    ensures Extends(files, RunCompany(files, cfg, c, ps, api).files)
    ensures forall path :: path in RunCompany(files, cfg, c, ps, api).files && path !in files ==>
      (exists p :: p in ps && path == FilePath(c, p)) && WrittenFor(RunCompany(files, cfg, c, ps, api).files[path], c)
    decreases |ps|
  {
    if ps != [] {
      var init, last := ps[..|ps| - 1], ps[|ps| - 1];
      RunCompanyGrows(files, cfg, c, init, api);
      var o := RunCompany(files, cfg, c, init, api);
      if !o.quota {
        StepGrows(o.files, cfg, c, last, api);
        var r := RunCompany(files, cfg, c, ps, api);
        forall path | path in r.files && path !in files
          ensures (exists p :: p in ps && path == FilePath(c, p)) && WrittenFor(r.files[path], c)
        {
          if path in o.files {
            var p :| p in init && path == FilePath(c, p);
            assert p in ps;
          } else {
            assert last in ps;
          }
        }
      }
    }
  }

  lemma {:induction false} RunAllGrows(files: Files, cfg: Config, cs: seq<Corp>, api: Service)
    ensures Extends(files, RunAll(files, cfg, cs, api).files)
    ensures forall path :: path in RunAll(files, cfg, cs, api).files && path !in files ==>
      exists c, p :: c in cs && p in Visits(cfg) && path == FilePath(c, p) &&
        WrittenFor(RunAll(files, cfg, cs, api).files[path], c)
    decreases |cs|
  {
    if cs != [] {
      var init, last := cs[..|cs| - 1], cs[|cs| - 1];
      RunAllGrows(files, cfg, init, api);
      var o := RunAll(files, cfg, init, api);
      if !o.quota {
        RunCompanyGrows(o.files, cfg, last, Visits(cfg), api);
        var r := RunAll(files, cfg, cs, api);
        forall path | path in r.files && path !in files
          ensures exists c, p :: c in cs && p in Visits(cfg) && path == FilePath(c, p) && WrittenFor(r.files[path], c)
        {
          if path in o.files {
            var c, p :| c in init && p in Visits(cfg) && path == FilePath(c, p) && WrittenFor(o.files[path], c);
            assert c in cs;
          } else {
            var p :| p in Visits(cfg) && path == FilePath(last, p);
            assert last in cs;
          }
        }
      }
    }
  }

  /** The batch never overwrites or removes a saved file, and every file it
      adds is the file of a processed company for a period of the window,
      each of its rows naming that company. */
  lemma BatchWrites(files: Files, cfg: Config, corps: seq<Corp>, api: Service)
    ensures forall path :: path in files ==>
      path in Batch(files, cfg, corps, api).files && Batch(files, cfg, corps, api).files[path] == files[path]
    ensures forall path :: path in Batch(files, cfg, corps, api).files && path !in files ==>
      exists c, p :: c in Selected(cfg, corps) && p in Visits(cfg) && path == FilePath(c, p) &&
        WrittenFor(Batch(files, cfg, corps, api).files[path], c)
  {
    if !(corps == [] || (cfg.targets != [] && Targeted(cfg, corps) == [])) {
      RunAllGrows(files, cfg, Selected(cfg, corps), api);
    }
  }

  /** The batch ends at the first quota error: once the companies before
      some point have met it, no later company is processed. */
  lemma BatchQuotaStops(files: Files, cfg: Config, corps: seq<Corp>, api: Service, n: nat)
    requires corps != [] && (cfg.targets == [] || Targeted(cfg, corps) != [])
    requires n <= |Selected(cfg, corps)|
    requires RunAll(files, cfg, Selected(cfg, corps)[..n], api).quota
    ensures Batch(files, cfg, corps, api) == RunAll(files, cfg, Selected(cfg, corps)[..n], api)
  {
    RunAllStopped(files, cfg, Selected(cfg, corps)[..n], Selected(cfg, corps), api);
  }

  lemma {:induction false} RunCompanySettled(files: Files, cfg: Config, c: Corp, ps: seq<Period>, api: Service,
                                             final: Files)
    requires !RunCompany(files, cfg, c, ps, api).quota
    requires Extends(RunCompany(files, cfg, c, ps, api).files, final)
    ensures forall p :: p in ps ==> FilePath(c, p) in final || QuietReply(cfg, api(RequestFor(cfg, c, p)))
    decreases |ps|
  {
    if ps != [] {
      var init, last := ps[..|ps| - 1], ps[|ps| - 1];
      var o := RunCompany(files, cfg, c, init, api);
      assert RunCompany(files, cfg, c, ps, api) == Step(o.files, cfg, c, last, api);
      StepSettled(o.files, cfg, c, last, api, final);
      RunCompanySettled(files, cfg, c, init, api, final);
      forall p | p in ps && p != last ensures p in init {
        InitOrLast(ps, p);
      }
    }
  }

  /** A step that did not stop leaves its period settled in any extension
      of its files. */
  lemma StepSettled(files: Files, cfg: Config, c: Corp, p: Period, api: Service, final: Files)
    requires !Step(files, cfg, c, p, api).quota
    requires Extends(Step(files, cfg, c, p, api).files, final)
    ensures Extends(files, final)
    ensures FilePath(c, p) in final || QuietReply(cfg, api(RequestFor(cfg, c, p)))
  {
    StepGrows(files, cfg, c, p, api);
    if FilePath(c, p) !in files {
      StepQuiet(files, cfg, c, p, api);
    }
  }

  lemma {:induction false} RunCompanyRerun(final: Files, cfg: Config, c: Corp, ps: seq<Period>, api: Service)
    requires forall p :: p in ps ==> FilePath(c, p) in final || QuietReply(cfg, api(RequestFor(cfg, c, p)))
    ensures RunCompany(final, cfg, c, ps, api) == Outcome(final, false)
    decreases |ps|
  {
    if ps != [] {
      var init, last := ps[..|ps| - 1], ps[|ps| - 1];
      assert forall p :: p in init ==> p in ps;
      RunCompanyRerun(final, cfg, c, init, api);
      assert last in ps;
      if FilePath(c, last) !in final {
        StepQuiet(final, cfg, c, last, api);
      }
    }
  }

  lemma {:induction false} RunAllSettled(files: Files, cfg: Config, cs: seq<Corp>, api: Service, final: Files)
    requires !RunAll(files, cfg, cs, api).quota
    requires Extends(RunAll(files, cfg, cs, api).files, final)
    ensures forall c, p :: c in cs && p in Visits(cfg) ==>
      FilePath(c, p) in final || QuietReply(cfg, api(RequestFor(cfg, c, p)))
    decreases |cs|
  {
    if cs != [] {
      var init, last := cs[..|cs| - 1], cs[|cs| - 1];
      var o := RunAll(files, cfg, init, api);
      RunCompanyGrows(o.files, cfg, last, Visits(cfg), api);
      RunAllSettled(files, cfg, init, api, final);
      RunCompanySettled(o.files, cfg, last, Visits(cfg), api, final);
      forall c | c in cs && c != last ensures c in init {
        InitOrLast(cs, c);
      }
    }
  }

  lemma {:induction false} RunAllRerun(final: Files, cfg: Config, cs: seq<Corp>, api: Service)
    requires forall c, p :: c in cs && p in Visits(cfg) ==>
      FilePath(c, p) in final || QuietReply(cfg, api(RequestFor(cfg, c, p)))
    ensures RunAll(final, cfg, cs, api) == Outcome(final, false)
    decreases |cs|
  {
    if cs != [] {
      var init, last := cs[..|cs| - 1], cs[|cs| - 1];
      assert forall c :: c in init ==> c in cs;
      RunAllRerun(final, cfg, init, api);
      assert last in cs;
      RunCompanyRerun(final, cfg, last, Visits(cfg), api);
    }
  }

  /** Running the batch again with the same answers after it ended without
      the quota error changes nothing: every period either has its file now
      or got an answer that saves none. */
  lemma BatchRerun(files: Files, cfg: Config, corps: seq<Corp>, api: Service)
    requires !Batch(files, cfg, corps, api).quota
    ensures Batch(Batch(files, cfg, corps, api).files, cfg, corps, api) == Batch(files, cfg, corps, api)
  {
    if !(corps == [] || (cfg.targets != [] && Targeted(cfg, corps) == [])) {
      var r := Batch(files, cfg, corps, api);
      RunAllSettled(files, cfg, Selected(cfg, corps), api, r.files);
      RunAllRerun(r.files, cfg, Selected(cfg, corps), api);
    }
  }

  /** When every file of the window already exists, the batch requests
      nothing and changes nothing, whatever the service would answer. */
  lemma BatchComplete(files: Files, cfg: Config, corps: seq<Corp>, api: Service)
    requires forall c, p :: c in Selected(cfg, corps) && p in Visits(cfg) ==> FilePath(c, p) in files
    ensures Batch(files, cfg, corps, api) == Outcome(files, false)
  {
    if !(corps == [] || (cfg.targets != [] && Targeted(cfg, corps) == [])) {
      RunAllRerun(files, cfg, Selected(cfg, corps), api);
    }
  }
}
