/**
 * The disclosure collector of dart_by_corp.py: finds a company in the
 * company list by name, pages through the disclosure-list service once per
 * disclosure type, tags every disclosure with its type, puts the priority
 * columns first, and derives the names it saves under.
 *
 * The web service is a function from query parameters to the decoded reply.
 */
module Disclosures {
  import opened Text
  import opened Seqs
  import opened Sheet
  import Fetch

  // =====================================================================
  // Company lookup
  // =====================================================================

  /** One row of the company list. */
  datatype Entry = Entry(corpCode: Cell, corpName: Cell, stockCode: Cell)

  /** The identifier, name and stock code the lookup returns. */
  datatype CorpInfo = CorpInfo(corpCode: string, corpName: string, stockCode: string)

  predicate IsExact(e: Entry, name: string)
  {
    e.corpName == Str(name)
  }

  /** `str.contains` with `na=False`: only text cells can match. */
  predicate IsPartial(e: Entry, name: string)
  {
    e.corpName.Str? && Contains(e.corpName.s, name)
  }

  /** The exact matches if there are any, otherwise the partial ones, in list order. */
  function Candidates(entries: seq<Entry>, name: string): seq<Entry>
  {
    var exact := Filter(entries, (e: Entry) => IsExact(e, name));
    if exact != [] then exact else Filter(entries, (e: Entry) => IsPartial(e, name))
  }

  function InfoOf(e: Entry): CorpInfo
  {
    CorpInfo(Fetch.PaddedCode(e.corpCode), CellText(e.corpName), CellText(e.stockCode))
  }

  /** `get_corp_info`: the first candidate, or an error when there is none. */
  function GetCorpInfo(entries: seq<Entry>, name: string): Result<CorpInfo>
  {
    var found := Candidates(entries, name);
    if found == [] then Err("company not found: " + name) else Ok(InfoOf(found[0]))
  }

  // =====================================================================
  // Requests and pages
  // =====================================================================

  /** Python truthiness of an optional text parameter. */
  predicate Truthy(o: Option<string>)
  {
    o.Some? && o.value != ""
  }

  const PageCount: int := 100
  const ListedStatus: string := "000"

  /** The query parameters of `get_disclosure_list`. */
  function ListParams(key: string, corp: string, bgn: string, end: string, ty: Option<string>,
                      detail: Option<string>, page: int, count: int): map<string, string>
  {
    var base := map["crtfc_key" := key, "corp_code" := corp, "bgn_de" := bgn, "end_de" := end,
                    "page_no" := IntToString(page), "page_count" := IntToString(count)];
    var withType := if Truthy(ty) then base["pblntf_ty" := ty.value] else base;
    if Truthy(detail) then withType["pblntf_detail_ty" := detail.value] else withType
  }

  /** A decoded reply: its status (a failed call reads as status `999`), its
      list if present, and its page total (0 when absent). */
  datatype PageReply = PageReply(status: string, items: Option<seq<Row>>, totalPage: int)

  type ListService = map<string, string> -> PageReply

  /** What one collection asks for, apart from the page number. */
  datatype Query = Query(key: string, corp: string, bgn: string, end: string, ty: Option<string>)

  function FetchPage(api: ListService, q: Query, page: int): PageReply
  {
    api(ListParams(q.key, q.corp, q.bgn, q.end, q.ty, None, page, PageCount))
  }

  function PageItems(r: PageReply): seq<Row>
  {
    if r.items.Some? then r.items.value else []
  }

  /** The loop goes on after `page` only on status `000`, a non-empty list
      and a page total beyond `page`. */
  predicate Continues(r: PageReply, page: int)
  {
    r.status == ListedStatus && PageItems(r) != [] && page < r.totalPage
  }

  /** A service whose page totals never exceed `bound`; the loop ends on it. */
  ghost predicate Bounded(api: ListService, bound: int)
  {
    forall params :: api(params).totalPage <= bound
  }

  /** Everything the pagination loop gathers from `page` on. */
  function Collect(api: ListService, q: Query, page: int, ghost bound: int): seq<Row>
    requires Bounded(api, bound)
    decreases bound - page
  {
    var r := FetchPage(api, q, page);
    if r.status != ListedStatus || PageItems(r) == [] then []
    else if page >= r.totalPage then PageItems(r)
    else PageItems(r) + Collect(api, q, page + 1, bound)
  }

  /** The page at which the loop stops when it starts at `page`. */
  function StopPage(api: ListService, q: Query, page: int, ghost bound: int): int
    requires Bounded(api, bound)
    decreases bound - page
  {
    if Continues(FetchPage(api, q, page), page) then StopPage(api, q, page + 1, bound) else page
  }

  /** The list of the last page fetched counts only when its status is `000`. */
  function LastItems(r: PageReply): seq<Row>
  {
    if r.status == ListedStatus then PageItems(r) else []
  }

  /** The lists of the pages from `from` up to `to`, exclusive, in order. */
  function ItemsBetween(api: ListService, q: Query, from: int, to: int): seq<Row>
    decreases to - from
  {
    if from >= to then [] else PageItems(FetchPage(api, q, from)) + ItemsBetween(api, q, from + 1, to)
  }

  /** `get_all_disclosures_by_type`: pages 1, 2, ... until a stop rule
      applies, gathering every list in order; `requested` are the page
      numbers asked for. */
  method CollectPages(api: ListService, q: Query, ghost bound: int) returns (all: seq<Row>, ghost requested: seq<int>)
    requires Bounded(api, bound)
    ensures all == Collect(api, q, 1, bound)
    ensures |requested| >= 1 && (forall i :: 0 <= i < |requested| ==> requested[i] == i + 1)
    ensures requested[|requested| - 1] == StopPage(api, q, 1, bound)
  {
    all := [];
    requested := [];
    var page := 1;
    while true
      invariant all + Collect(api, q, page, bound) == Collect(api, q, 1, bound)
      invariant |requested| == page - 1 && forall i :: 0 <= i < |requested| ==> requested[i] == i + 1
      invariant StopPage(api, q, page, bound) == StopPage(api, q, 1, bound)
      decreases bound - page
    {
      var result := FetchPage(api, q, page);
      requested := requested + [page];
      if result.status != ListedStatus {
        // `013` (no data) and every other status end the loop alike
        CollectStops(api, q, page, bound);
        break;
      }
      var disclosures := PageItems(result);
      if disclosures == [] {
        CollectStops(api, q, page, bound);
        break;
      }
      all := all + disclosures;
      if page >= result.totalPage {
        CollectStops(api, q, page, bound);
        break;
      }
      CollectContinues(api, q, page, bound);
      page := page + 1;
    }
  }

  // =====================================================================
  // All disclosures of a company
  // =====================================================================

  /** The disclosure types, in the order they are collected, with their names. */
  const DisclosureTypes: seq<(string, string)> := [
    ("A", "정기공시"), ("B", "주요사항보고"), ("C", "발행공시"), ("D", "지분공시"), ("E", "기타공시"),
    ("F", "외부감사관련"), ("G", "펀드공시"), ("H", "자산유동화"), ("I", "거래소공시"), ("J", "공정위공시")]

  function TagType(d: Row, ty: string, name: string): Row
  {
    d["pblntf_ty" := Str(ty)]["pblntf_ty_nm" := Str(name)]
  }

  function TagTypeAll(ds: seq<Row>, ty: string, name: string): seq<Row>
  {
    seq(|ds|, i requires 0 <= i < |ds| => TagType(ds[i], ty, name))
  }

  /** The tagged disclosures of the first `n` types, in collection order. */
  function AllDisclosures(api: ListService, key: string, corp: string, bgn: string, end: string, n: nat,
                          ghost bound: int): seq<Row>
    requires n <= |DisclosureTypes| && Bounded(api, bound)
  {
    if n == 0 then []
    else
      var (ty, name) := DisclosureTypes[n - 1];
      AllDisclosures(api, key, corp, bgn, end, n - 1, bound) +
      TagTypeAll(Collect(api, Query(key, corp, bgn, end, Some(ty)), 1, bound), ty, name)
  }

  /** Tags every disclosure of one type in place. */
  method TagDisclosures(ds: array<Row>, ty: string, name: string)
    modifies ds
    ensures ds[..] == TagTypeAll(old(ds[..]), ty, name)
  {
    for i := 0 to ds.Length
      invariant forall j :: 0 <= j < i ==> ds[j] == TagType(old(ds[j]), ty, name)
      invariant forall j :: i <= j < ds.Length ==> ds[j] == old(ds[j])
    {
      ds[i] := TagType(ds[i], ty, name);
    }
  }

  /** `get_all_company_disclosures` up to the data frame: the company
      lookup, then every type in turn. */
  method CompanyDisclosures(entries: seq<Entry>, corpName: string, api: ListService, key: string,
                            bgn: string, end: string, ghost bound: int) returns (r: Result<seq<Row>>)
    requires Bounded(api, bound)
    ensures GetCorpInfo(entries, corpName).Err? ==> r == Err(GetCorpInfo(entries, corpName).reason)
    ensures GetCorpInfo(entries, corpName).Ok? ==>
      r == Ok(AllDisclosures(api, key, GetCorpInfo(entries, corpName).value.corpCode, bgn, end,
                             |DisclosureTypes|, bound))
  {
    var info := GetCorpInfo(entries, corpName);
    if info.Err? {
      return Err(info.reason);
    }
    var corp := info.value.corpCode;
    var all: seq<Row> := [];
    var n := 0;
    while n < |DisclosureTypes|
      invariant 0 <= n <= |DisclosureTypes|
      invariant all == AllDisclosures(api, key, corp, bgn, end, n, bound)
    {
      var (ty, name) := DisclosureTypes[n];
      var found, _ := CollectPages(api, Query(key, corp, bgn, end, Some(ty)), bound);
      var ds := new Row[|found|](i requires 0 <= i < |found| => found[i]);
      assert ds[..] == found;
      TagDisclosures(ds, ty, name);
      all := all + ds[..];
      n := n + 1;
    }
    r := Ok(all);
  }

  // =====================================================================
  // Columns and names
  // =====================================================================

  const PriorityColumns: seq<string> := ["rcept_no", "rcept_dt", "corp_name", "report_nm", "pblntf_ty", "pblntf_ty_nm"]

  /** Membership in a column list, and its negation, as conditions on columns. */
  function In(cols: seq<string>): string -> bool { c => c in cols }

  function NotIn(cols: seq<string>): string -> bool { c => c !in cols }

  /** `prio + [c for c in cols if c not in prio]`, then selecting those
      columns, which fails when the frame lacks one of `prio`. */
  function Reorder(prio: seq<string>, cols: seq<string>): Result<seq<string>>
  {
    if forall c :: c in prio ==> c in cols then Ok(prio + Filter(cols, NotIn(prio))) else Err("KeyError")
  }

  /** The priority columns first, then the others in their order. */
  function ReorderColumns(cols: seq<string>): Result<seq<string>>
  {
    Reorder(PriorityColumns, cols)
  }

  predicate IsNameChar(c: char)
  {
    IsAlnum(c) || c == ' ' || c == '-' || c == '_'
  }

  /** The alphanumerics, spaces, `-` and `_` of a name, trailing whitespace removed. */
  function Sanitize(s: string): string
  {
    RStrip(Filter(s, IsNameChar))
  }

  /** The company's result directory, `<sanitised name>_<stock code>`. */
  function CorpDirName(corpName: string, stockCode: string): string
  {
    Sanitize(corpName) + "_" + stockCode
  }

  /** A downloaded document's file name, `<receipt number>_<sanitised report name>.html`. */
  function DocumentFileName(receiptNo: string, reportName: string): string
  {
    receiptNo + "_" + Sanitize(reportName) + ".html"
  }

  const SheetNameLimit: nat := 31

  /** `<type>_<type name>`, cut to the spreadsheet's sheet-name limit. */
  function SheetName(ty: string, name: string): string
  {
    var full := ty + "_" + name;
    if |full| <= SheetNameLimit then full else full[..SheetNameLimit]
  }

  // =====================================================================
  // Lemmas: lookup
  // =====================================================================

  /** The head of a filter is the first element meeting the condition. */
  lemma {:induction false} FilterHead<T>(s: seq<T>, p: T -> bool, i: nat)
    requires i < |s| && p(s[i]) && forall j :: 0 <= j < i ==> !p(s[j])
    ensures Filter(s, p) != [] && Filter(s, p)[0] == s[i]
    decreases i
  {
    if i > 0 {
      FilterHead(s[1..], p, i - 1);
    }
  }

  lemma ExactIsPartial(e: Entry, name: string)
    requires IsExact(e, name)
    ensures IsPartial(e, name)
  {
    assert name <= name;
  }

  /** The lookup fails exactly when no listed name contains the query. */
  lemma GetCorpInfoFails(entries: seq<Entry>, name: string)
    ensures GetCorpInfo(entries, name).Err? <==> forall e :: e in entries ==> !IsPartial(e, name)
  {
    var exact := Filter(entries, (e: Entry) => IsExact(e, name));
    var partial := Filter(entries, (e: Entry) => IsPartial(e, name));
    forall e | e in entries
      ensures IsPartial(e, name) ==> e in partial
      ensures IsExact(e, name) ==> e in exact
    {
      FilterMember(entries, (e: Entry) => IsPartial(e, name), e);
      FilterMember(entries, (e: Entry) => IsExact(e, name), e);
    }
    if exact != [] {
      assert exact[0] in entries && IsExact(exact[0], name);
      ExactIsPartial(exact[0], name);
    }
  }

  /** With an exact match the first exact match wins, even after a partial one. */
  lemma GetCorpInfoExact(entries: seq<Entry>, name: string, i: nat)
    requires i < |entries| && IsExact(entries[i], name)
    requires forall j :: 0 <= j < i ==> !IsExact(entries[j], name)
    ensures GetCorpInfo(entries, name) == Ok(InfoOf(entries[i]))
  {
    FilterHead(entries, (e: Entry) => IsExact(e, name), i);
  }

  /** Without an exact match the first entry whose name contains the query wins. */
  lemma GetCorpInfoPartial(entries: seq<Entry>, name: string, i: nat)
    requires forall j :: 0 <= j < |entries| ==> !IsExact(entries[j], name)
    requires i < |entries| && IsPartial(entries[i], name)
    requires forall j :: 0 <= j < i ==> !IsPartial(entries[j], name)
    ensures GetCorpInfo(entries, name) == Ok(InfoOf(entries[i]))
  {
    FilterNone(entries, (e: Entry) => IsExact(e, name));
    FilterHead(entries, (e: Entry) => IsPartial(e, name), i);
  }

  /** A company listed after one whose name merely contains the query is
      still chosen when its name is the query. */
  lemma ExactBeatsEarlierPartial(longer: Entry, exact: Entry, name: string)
    requires longer.corpName.Str? && Contains(longer.corpName.s, name) && longer.corpName != Str(name)
    requires exact.corpName == Str(name)
    ensures GetCorpInfo([longer, exact], name) == Ok(InfoOf(exact))
  {
    GetCorpInfoExact([longer, exact], name, 1);
  }

  /** A returned identifier is at least eight characters; one read as a
      number is its eight-or-more digits. */
  lemma InfoCodePadded(e: Entry)
    ensures |InfoOf(e).corpCode| >= Fetch.CodeWidth
    ensures e.corpCode.Whole? && e.corpCode.n >= 0 ==>
      IsDigitString(InfoOf(e).corpCode) && DigitsValue(InfoOf(e).corpCode) == e.corpCode.n
  {
    if e.corpCode.Whole? && e.corpCode.n >= 0 {
      Fetch.PaddedCodeOfNumber(e.corpCode.n);
    }
  }

  // =====================================================================
  // Lemmas: requests and pagination
  // =====================================================================

  /** The optional type and detail filters are sent exactly when truthy,
      and the six others always. */
  lemma ListParamsSpec(key: string, corp: string, bgn: string, end: string, ty: Option<string>,
                       detail: Option<string>, page: int, count: int)
    ensures var m := ListParams(key, corp, bgn, end, ty, detail, page, count);
      ("pblntf_ty" in m <==> Truthy(ty)) && (Truthy(ty) ==> m["pblntf_ty"] == ty.value) &&
      ("pblntf_detail_ty" in m <==> Truthy(detail)) && (Truthy(detail) ==> m["pblntf_detail_ty"] == detail.value) &&
      m.Keys - {"pblntf_ty", "pblntf_detail_ty"} == {"crtfc_key", "corp_code", "bgn_de", "end_de", "page_no", "page_count"} &&
      m["page_no"] == IntToString(page) && m["corp_code"] == corp
  {
  }

  /** Every page before the stop page has the loop go on, the stop page
      does not. */
  lemma {:induction false} StopPageSpec(api: ListService, q: Query, page: int, bound: int)
    requires Bounded(api, bound)
    ensures page <= StopPage(api, q, page, bound)
    ensures forall p :: page <= p < StopPage(api, q, page, bound) ==> Continues(FetchPage(api, q, p), p)
    ensures !Continues(FetchPage(api, q, StopPage(api, q, page, bound)), StopPage(api, q, page, bound))
    decreases bound - page
  {
    if Continues(FetchPage(api, q, page), page) {
      StopPageSpec(api, q, page + 1, bound);
    }
  }

  lemma CollectContinues(api: ListService, q: Query, page: int, bound: int)
    requires Bounded(api, bound) && Continues(FetchPage(api, q, page), page)
    ensures Collect(api, q, page, bound) == PageItems(FetchPage(api, q, page)) + Collect(api, q, page + 1, bound)
    ensures StopPage(api, q, page, bound) == StopPage(api, q, page + 1, bound)
  {
  }

  lemma CollectStops(api: ListService, q: Query, page: int, bound: int)
    requires Bounded(api, bound) && !Continues(FetchPage(api, q, page), page)
    ensures Collect(api, q, page, bound) ==
      if FetchPage(api, q, page).status == ListedStatus then PageItems(FetchPage(api, q, page)) else []
    ensures StopPage(api, q, page, bound) == page
  {
  }

  lemma {:induction false} StopPageAtLeast(api: ListService, q: Query, page: int, bound: int)
    requires Bounded(api, bound)
    ensures page <= StopPage(api, q, page, bound)
    decreases bound - page
  {
    if Continues(FetchPage(api, q, page), page) {
      StopPageAtLeast(api, q, page + 1, bound);
    }
  }

  lemma ItemsBetweenCons(api: ListService, q: Query, from: int, to: int)
    requires from < to
    ensures ItemsBetween(api, q, from, to) == PageItems(FetchPage(api, q, from)) + ItemsBetween(api, q, from + 1, to)
  {
  }

  lemma CollectIsPagesStep(api: ListService, q: Query, page: int, bound: int)
    requires Bounded(api, bound) && Continues(FetchPage(api, q, page), page)
    requires Collect(api, q, page + 1, bound) ==
      ItemsBetween(api, q, page + 1, StopPage(api, q, page + 1, bound)) +
      LastItems(FetchPage(api, q, StopPage(api, q, page + 1, bound)))
    ensures Collect(api, q, page, bound) ==
      ItemsBetween(api, q, page, StopPage(api, q, page, bound)) + LastItems(FetchPage(api, q, StopPage(api, q, page, bound)))
  {
    CollectContinues(api, q, page, bound);
    StopPageAtLeast(api, q, page + 1, bound);
    var stop := StopPage(api, q, page + 1, bound);
    ItemsBetweenCons(api, q, page, stop);
    Regroup(PageItems(FetchPage(api, q, page)), ItemsBetween(api, q, page + 1, stop), LastItems(FetchPage(api, q, stop)));
  }

  lemma Regroup(a: seq<Row>, b: seq<Row>, c: seq<Row>)
    ensures a + (b + c) == (a + b) + c
  {
  }

  /** The collection is the lists of the pages before the stop page, then
      the stop page's list when its status is `000`. */
  lemma {:induction false} CollectIsPages(api: ListService, q: Query, page: int, bound: int)
    requires Bounded(api, bound)
    ensures Collect(api, q, page, bound) ==
      ItemsBetween(api, q, page, StopPage(api, q, page, bound)) + LastItems(FetchPage(api, q, StopPage(api, q, page, bound)))
    decreases bound - page
  {
    if Continues(FetchPage(api, q, page), page) {
      CollectIsPages(api, q, page + 1, bound);
      CollectIsPagesStep(api, q, page, bound);
    } else {
      CollectStops(api, q, page, bound);
      assert ItemsBetween(api, q, page, page) == [];
    }
  }

  // =====================================================================
  // Lemmas: tagging
  // =====================================================================

  /** Every collected disclosure carries the code and the name of one
      disclosure type, a matching pair. */
  lemma {:induction false} AllDisclosuresTagged(api: ListService, key: string, corp: string, bgn: string, end: string,
                                                n: nat, bound: int)
    requires n <= |DisclosureTypes| && Bounded(api, bound)
    ensures forall d :: d in AllDisclosures(api, key, corp, bgn, end, n, bound) ==>
      "pblntf_ty" in d && "pblntf_ty_nm" in d &&
      exists k :: 0 <= k < n && d["pblntf_ty"] == Str(DisclosureTypes[k].0) && d["pblntf_ty_nm"] == Str(DisclosureTypes[k].1)
  {
    if n > 0 {
      AllDisclosuresTagged(api, key, corp, bgn, end, n - 1, bound);
      var (ty, name) := DisclosureTypes[n - 1];
      var rest := TagTypeAll(Collect(api, Query(key, corp, bgn, end, Some(ty)), 1, bound), ty, name);
      forall d | d in AllDisclosures(api, key, corp, bgn, end, n, bound)
        ensures "pblntf_ty" in d && "pblntf_ty_nm" in d &&
          exists k :: 0 <= k < n && d["pblntf_ty"] == Str(DisclosureTypes[k].0) && d["pblntf_ty_nm"] == Str(DisclosureTypes[k].1)
      {
        if d in AllDisclosures(api, key, corp, bgn, end, n - 1, bound) {
          var k :| 0 <= k < n - 1 && d["pblntf_ty"] == Str(DisclosureTypes[k].0) && d["pblntf_ty_nm"] == Str(DisclosureTypes[k].1);
        } else {
          assert d in rest;
          assert d["pblntf_ty"] == Str(DisclosureTypes[n - 1].0);
        }
      }
    }
  }

  // =====================================================================
  // Lemmas: columns and names
  // =====================================================================

  lemma {:induction false} DistinctCount<T>(s: seq<T>, x: T)
    requires Distinct(s)
    ensures multiset(s)[x] == if x in s then 1 else 0
    decreases |s|
  {
    if s != [] {
      assert s == [s[0]] + s[1..];
      DistinctCount(s[1..], x);
    }
  }

  lemma SameElements<T>(a: seq<T>, b: seq<T>)
    requires Distinct(a) && Distinct(b)
    requires forall x :: x in a <==> x in b
    ensures multiset(a) == multiset(b)
  {
    forall x
      ensures multiset(a)[x] == multiset(b)[x]
    {
      DistinctCount(a, x);
      DistinctCount(b, x);
    }
  }

  /** The priority columns a frame has, in the frame's order, are a
      permutation of the priority list when it has them all. */
  lemma PriorityPermutation(prio: seq<string>, cols: seq<string>)
    requires Distinct(prio) && Distinct(cols)
    requires forall c :: c in prio ==> c in cols
    ensures multiset(Filter(cols, In(prio))) == multiset(prio)
  {
    FilterDistinct(cols, In(prio));
    forall x
      ensures x in Filter(cols, In(prio)) <==> x in prio
    {
      FilterMember(cols, In(prio), x);
    }
    SameElements(Filter(cols, In(prio)), prio);
  }

  /** Priority columns followed by the other columns hold the frame's
      columns, each once. */
  lemma ReorderPermutation(prio: seq<string>, cols: seq<string>)
    requires Distinct(prio) && Distinct(cols)
    requires forall c :: c in prio ==> c in cols
    ensures multiset(prio + Filter(cols, NotIn(prio))) == multiset(cols)
  {
    FilterMultiset(cols, In(prio), NotIn(prio));
    PriorityPermutation(prio, cols);
  }

  lemma ReorderDistinct(prio: seq<string>, cols: seq<string>)
    requires Distinct(prio) && Distinct(cols)
    ensures Distinct(prio + Filter(cols, NotIn(prio)))
  {
    var others := Filter(cols, NotIn(prio));
    FilterDistinct(cols, NotIn(prio));
    forall i, j | 0 <= i < |prio| && 0 <= j < |others|
      ensures prio[i] != others[j]
    {
      assert NotIn(prio)(others[j]);
    }
    DistinctConcat(prio, others);
  }

  lemma ReorderSpec(prio: seq<string>, cols: seq<string>)
    requires Distinct(prio) && Distinct(cols)
    ensures Reorder(prio, cols).Ok? <==> forall c :: c in prio ==> c in cols
    ensures Reorder(prio, cols).Ok? ==>
      var r := Reorder(prio, cols).value;
      r[..|prio|] == prio && r[|prio|..] == Filter(cols, NotIn(prio)) &&
      multiset(r) == multiset(cols) && Distinct(r)
  {
    if forall c :: c in prio ==> c in cols {
      var r := prio + Filter(cols, NotIn(prio));
      assert r[..|prio|] == prio && r[|prio|..] == Filter(cols, NotIn(prio));
      ReorderPermutation(prio, cols);
      ReorderDistinct(prio, cols);
    }
  }

  lemma PriorityColumnsDistinct()
    ensures Distinct(PriorityColumns)
  {
  }

  /** On a frame's (distinct) columns the reordering succeeds exactly when
      all six priority columns are there; it then puts them first, keeps
      the other columns in their order, and is a permutation. */
  lemma ReorderColumnsSpec(cols: seq<string>)
    requires Distinct(cols)
    ensures ReorderColumns(cols).Ok? <==> forall c :: c in PriorityColumns ==> c in cols
    ensures ReorderColumns(cols).Ok? ==>
      var r := ReorderColumns(cols).value;
      r[..|PriorityColumns|] == PriorityColumns && r[|PriorityColumns|..] == Filter(cols, NotIn(PriorityColumns)) &&
      multiset(r) == multiset(cols) && Distinct(r)
  {
    PriorityColumnsDistinct();
    ReorderSpec(PriorityColumns, cols);
  }

  /** A sanitised name has only alphanumerics, spaces, `-` and `_`, does not
      end in whitespace, keeps the allowed characters in order up to trailing
      spaces, and sanitising it again changes nothing. */
  lemma SanitizeSpec(s: string)
    ensures forall i :: 0 <= i < |Sanitize(s)| ==> IsNameChar(Sanitize(s)[i])
    ensures Sanitize(s) == [] || !IsSpace(Sanitize(s)[|Sanitize(s)| - 1])
    ensures Sanitize(s) <= Filter(s, IsNameChar)
    ensures Sanitize(Sanitize(s)) == Sanitize(s)
  {
    var f := Filter(s, IsNameChar);
    var r := Sanitize(s);
    assert forall i :: 0 <= i < |r| ==> r[i] == f[i];
    FilterAll(r, IsNameChar);
  }

  /** A name made only of allowed characters and not ending in whitespace
      is kept as it is. */
  lemma SanitizeKeeps(s: string)
    requires forall i :: 0 <= i < |s| ==> IsNameChar(s[i])
    requires s == [] || !IsSpace(s[|s| - 1])
    ensures Sanitize(s) == s
  {
    FilterAll(s, IsNameChar);
  }

  /** A sheet name is at most 31 characters, a prefix of the full name, the
      full name when that fits and exactly 31 characters when it is cut. */
  lemma SheetNameSpec(ty: string, name: string)
    ensures |SheetName(ty, name)| <= SheetNameLimit
    ensures |SheetName(ty, name)| == if |ty + "_" + name| <= SheetNameLimit then |ty + "_" + name| else SheetNameLimit
    ensures SheetName(ty, name) <= ty + "_" + name
    ensures |ty + "_" + name| <= SheetNameLimit ==> SheetName(ty, name) == ty + "_" + name
  {
  }
}
