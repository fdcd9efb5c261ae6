/**
 * What `append_to_company_files` promises, proved about the model in
 * merge.dfy: the grouping, the recorded dates, the fourth-quarter
 * correction, the outer join, the final layout, and that a period once
 * merged is never merged again.
 */
module MergeProperties {
  import opened Text
  import opened Seqs
  import opened Sheet
  import opened Periods
  import opened Merge

  // =====================================================================
  // Grouping
  // =====================================================================

  /** Each company of the extract is visited once. */
  lemma {:induction false} CompaniesDistinct(rows: seq<ExtractRow>)
    ensures Distinct(Companies(rows))
    decreases |rows|
  {
    if rows != [] {
      var front := rows[..|rows| - 1];
      CompaniesDistinct(front);
      var cs := Companies(front);
      var c := CompanyOf(rows[|rows| - 1].key);
      if c !in cs {
        DistinctConcat(cs, [c]);
      }
    }
  }

  /** The visited companies are exactly those of the extract's rows. */
  lemma {:induction false} CompaniesMember(rows: seq<ExtractRow>, c: CompanyId)
    ensures c in Companies(rows) <==> exists i :: 0 <= i < |rows| && CompanyOf(rows[i].key) == c
    decreases |rows|
  {
    if rows != [] {
      var n := |rows| - 1;
      var front := rows[..n];
      CompaniesMember(front, c);
      if exists i :: 0 <= i < n && CompanyOf(front[i].key) == c {
        var i :| 0 <= i < n && CompanyOf(front[i].key) == c;
        assert rows[i] == front[i];
      }
      if exists i :: 0 <= i < |rows| && CompanyOf(rows[i].key) == c {
        var i :| 0 <= i < |rows| && CompanyOf(rows[i].key) == c;
        if i < n {
          assert rows[i] == front[i];
        }
      }
    }
  }

  /** A company's group holds exactly the account keys of that company's
      rows, each with the cells of its last row. */
  lemma {:induction false} GroupRowsSpec(rows: seq<ExtractRow>, c: CompanyId, k: AccountKey)
    ensures k in GroupRows(rows, c) <==> CompanyOf(k) == c && exists i :: 0 <= i < |rows| && rows[i].key == k
    ensures k in GroupRows(rows, c) ==>
      exists i :: 0 <= i < |rows| && rows[i].key == k && GroupRows(rows, c)[k] == rows[i].cells
        && forall j :: i < j < |rows| ==> rows[j].key != k
  {
    GroupRowsKeys(rows, c, k);
    if k in GroupRows(rows, c) {
      var i := GroupRowsLast(rows, c, k);
    }
  }

  lemma {:induction false} GroupRowsKeys(rows: seq<ExtractRow>, c: CompanyId, k: AccountKey)
    ensures k in GroupRows(rows, c) <==> CompanyOf(k) == c && exists i :: 0 <= i < |rows| && rows[i].key == k
    decreases |rows|
  {
    if rows != [] {
      var n := |rows| - 1;
      var front := rows[..n];
      GroupRowsKeys(front, c, k);
      if CompanyOf(k) == c && rows[n].key != k && exists i :: 0 <= i < |rows| && rows[i].key == k {
        var i :| 0 <= i < |rows| && rows[i].key == k;
        assert front[i] == rows[i];
      }
      if exists i :: 0 <= i < n && front[i].key == k {
        var i :| 0 <= i < n && front[i].key == k;
        assert rows[i] == front[i];
      }
    }
  }

  /** The index of the row whose cells a group keeps for a key. */
  lemma {:induction false} GroupRowsLast(rows: seq<ExtractRow>, c: CompanyId, k: AccountKey) returns (i: nat)
    requires k in GroupRows(rows, c)
    ensures i < |rows| && rows[i].key == k && GroupRows(rows, c)[k] == rows[i].cells
    ensures forall j :: i < j < |rows| ==> rows[j].key != k
    decreases |rows|
  {
    var n := |rows| - 1;
    var front := rows[..n];
    if rows[n].key == k && CompanyOf(k) == c {
      i := n;
    } else {
      GroupRowsKeys(rows, c, k);
      i := GroupRowsLast(front, c, k);
      assert rows[i] == front[i];
      forall j | i < j < |rows| ensures rows[j].key != k {
        if j < n {
          assert rows[j] == front[j];
        }
      }
    }
  }

  // =====================================================================
  // Recorded dates
  // =====================================================================

  /** A date is recorded exactly when some `_thstrm_dt` column holds it,
      as text, in some row. */
  lemma {:induction false} DatesOfSpec(t: Table, cols: seq<string>, d: string)
    ensures d in DatesOf(t, cols) <==>
      exists i, k :: 0 <= i < |cols| && IsDtColumn(cols[i]) && k in t.rows
        && Lookup(t.rows[k], cols[i]) != Empty && CellText(Lookup(t.rows[k], cols[i])) == d
    decreases |cols|
  {
    if cols != [] {
      var n := |cols| - 1;
      var front := cols[..n];
      DatesOfSpec(t, front, d);
      if d in DatesOf(t, front) {
        var i, k :| 0 <= i < n && IsDtColumn(front[i]) && k in t.rows
          && Lookup(t.rows[k], front[i]) != Empty && CellText(Lookup(t.rows[k], front[i])) == d;
        assert cols[i] == front[i];
      }
      if (exists i, k :: 0 <= i < |cols| && IsDtColumn(cols[i]) && k in t.rows
            && Lookup(t.rows[k], cols[i]) != Empty && CellText(Lookup(t.rows[k], cols[i])) == d) {
        var i, k :| 0 <= i < |cols| && IsDtColumn(cols[i]) && k in t.rows
          && Lookup(t.rows[k], cols[i]) != Empty && CellText(Lookup(t.rows[k], cols[i])) == d;
        if i < n {
          assert cols[i] == front[i];
        }
      }
    }
  }

  lemma ExistingDatesSpec(t: Table, d: string)
    ensures d in ExistingDates(t) <==>
      exists c, k :: c in t.columns && IsDtColumn(c) && k in t.rows
        && Lookup(t.rows[k], c) != Empty && CellText(Lookup(t.rows[k], c)) == d
  {
    DatesOfSpec(t, t.columns, d);
    if exists c, k :: c in t.columns && IsDtColumn(c) && k in t.rows
        && Lookup(t.rows[k], c) != Empty && CellText(Lookup(t.rows[k], c)) == d {
      var c, k :| c in t.columns && IsDtColumn(c) && k in t.rows
        && Lookup(t.rows[k], c) != Empty && CellText(Lookup(t.rows[k], c)) == d;
      var i :| 0 <= i < |t.columns| && t.columns[i] == c;
    }
  }

  // =====================================================================
  // The derived fourth quarter
  // =====================================================================

  /** The correction changes nothing but the annual amount cell of an
      income-statement row that has one. */
  lemma Q4Frame(t: Table, year: string)
    ensures Q4Corrected(t, year).columns == t.columns
    ensures Q4Corrected(t, year).rows.Keys == t.rows.Keys
    ensures forall k, c :: k in t.rows && (c != AnnualColumn(year) || !IsIncomeStatement(k)) ==>
      Lookup(Q4Corrected(t, year).rows[k], c) == Lookup(t.rows[k], c)
    ensures forall k :: k in t.rows && (AnnualColumn(year) !in t.columns || Lookup(t.rows[k], AnnualColumn(year)) == Empty) ==>
      Q4Corrected(t, year).rows[k] == t.rows[k]
  {
  }

  /** After the correction the annual cell holds the fourth quarter alone:
      it and the Q1, H1 and Q3 amounts add up to the annual figure. */
  lemma Q4Sums(t: Table, year: string, k: AccountKey)
    requires k in t.rows && IsIncomeStatement(k)
    requires AnnualColumn(year) in t.columns && Lookup(t.rows[k], AnnualColumn(year)) != Empty
    ensures var r := t.rows[k];
      ToAmount(Lookup(Q4Corrected(t, year).rows[k], AnnualColumn(year)))
        + Operand(t.columns, r, Q1Column(year)) + Operand(t.columns, r, H1Column(year)) + Operand(t.columns, r, Q3Column(year))
      == ToAmount(Lookup(r, AnnualColumn(year)))
    ensures Lookup(Q4Corrected(t, year).rows[k], AnnualColumn(year)).Whole?
  {
  }

  /** 600 - 100 - 250 - 400 = -150. */
  lemma Q4Example(t: Table, year: string, k: AccountKey)
    requires k in t.rows && IsIncomeStatement(k)
    requires AnnualColumn(year) in t.columns && Q1Column(year) in t.columns
    requires H1Column(year) in t.columns && Q3Column(year) in t.columns
    requires Lookup(t.rows[k], AnnualColumn(year)) == Whole(600)
    requires Lookup(t.rows[k], Q1Column(year)) == Whole(100)
    requires Lookup(t.rows[k], H1Column(year)) == Whole(250)
    requires Lookup(t.rows[k], Q3Column(year)) == Whole(400)
    ensures Lookup(Q4Corrected(t, year).rows[k], AnnualColumn(year)) == Whole(-150)
  {
  }

  /** A missing quarter counts as 0: with no Q3 column, 600 - 100 - 250 = 250. */
  lemma Q4MissingQuarter(t: Table, year: string, k: AccountKey)
    requires k in t.rows && IsIncomeStatement(k)
    requires AnnualColumn(year) in t.columns && Q3Column(year) !in t.columns
    requires Q1Column(year) in t.columns && H1Column(year) in t.columns
    requires Lookup(t.rows[k], AnnualColumn(year)) == Whole(600)
    requires Lookup(t.rows[k], Q1Column(year)) == Whole(100)
    requires Lookup(t.rows[k], H1Column(year)) == Whole(250)
    ensures Lookup(Q4Corrected(t, year).rows[k], AnnualColumn(year)) == Whole(250)
  {
  }

  // =====================================================================
  // Building blocks of one merge
  // =====================================================================

  /** The cell of column `c` (one of the triple) that a period brings. */
  function PeriodCell(p: string, v: PeriodCells, c: string): Cell
  {
    if c == p + DtSuffix then v.dt else if c == p + AmountSuffix then v.amount else v.currency
  }

  lemma TripleDistinct(p: string)
    ensures p + DtSuffix != p + AmountSuffix && p + DtSuffix != p + CurrencySuffix
    ensures p + AmountSuffix != p + CurrencySuffix
  {
    assert |p + DtSuffix| != |p + AmountSuffix|;
    assert |p + DtSuffix| != |p + CurrencySuffix|;
    assert |p + AmountSuffix| != |p + CurrencySuffix|;
  }

  lemma PeriodRowLookup(p: string, v: PeriodCells, c: string)
    ensures c in PeriodRow(p, v) <==> c in Triple(p)
    ensures Lookup(PeriodRow(p, v), c) == if c in Triple(p) then PeriodCell(p, v, c) else Empty
  {
    TripleDistinct(p);
  }

  /** Dropping `currency` removes that column and its cells and nothing else. */
  lemma DropLegacySpec(t: Table)
    ensures forall c :: c in DropLegacyCurrency(t).columns <==> c in t.columns && c != LegacyCurrency
    ensures DropLegacyCurrency(t).rows.Keys == t.rows.Keys
    ensures forall k, c :: k in t.rows && c != LegacyCurrency ==>
      Lookup(DropLegacyCurrency(t).rows[k], c) == Lookup(t.rows[k], c)
    ensures LegacyCurrency !in t.columns ==> DropLegacyCurrency(t) == t
  {
    if LegacyCurrency in t.columns {
      forall c ensures c in DropLegacyCurrency(t).columns <==> c in t.columns && c != LegacyCurrency {
        FilterMember(t.columns, IsCurrentColumn, c);
      }
    }
  }

  /** `reindex` keeps the cells of the listed columns and only those. */
  lemma ReindexSpec(t: Table, cols: seq<string>)
    ensures Reindex(t, cols).columns == cols
    ensures Reindex(t, cols).rows.Keys == t.rows.Keys
    ensures forall k, c :: k in t.rows ==>
      Lookup(Reindex(t, cols).rows[k], c) == if c in cols then Lookup(t.rows[k], c) else Empty
  {
  }

  /** What the outer join holds for key `k` in column `c`. */
  function JoinedCell(b: Table, p: string, g: map<AccountKey, PeriodCells>, k: AccountKey, c: string): Cell
  {
    if k in g && c in Triple(p) then PeriodCell(p, g[k], c)
    else if k in b.rows then Lookup(b.rows[k], c)
    else Empty
  }

  /** One cell of the outer join. */
  lemma JoinedLookup(b: Table, p: string, g: map<AccountKey, PeriodCells>, k: AccountKey, c: string)
    requires k in b.rows || k in g
    ensures Lookup(Joined(b, p, g).rows[k], c) == JoinedCell(b, p, g, k, c)
  {
    var left: Row := if k in b.rows then b.rows[k] else map[];
    if k in g {
      var right := PeriodRow(p, g[k]);
      PeriodRowLookup(p, g[k], c);
      assert Joined(b, p, g).rows[k] == left + right;
      assert (c in left + right) == (c in left || c in right);
    } else {
      assert Joined(b, p, g).rows[k] == left + map[];
      assert left + map[] == left;
    }
  }

  /** The outer join: every key of either side; the period's cells where
      the group has the key, the table's cells elsewhere. */
  lemma JoinedSpec(b: Table, p: string, g: map<AccountKey, PeriodCells>)
    ensures Joined(b, p, g).columns == b.columns + Triple(p)
    ensures Joined(b, p, g).rows.Keys == b.rows.Keys + g.Keys
    ensures forall k, c :: k in Joined(b, p, g).rows ==>
      Lookup(Joined(b, p, g).rows[k], c) == JoinedCell(b, p, g, k, c)
  {
    forall k, c | k in Joined(b, p, g).rows
      ensures Lookup(Joined(b, p, g).rows[k], c) == JoinedCell(b, p, g, k, c)
    {
      JoinedLookup(b, p, g, k, c);
    }
  }

  lemma GroupTableSpec(p: string, g: map<AccountKey, PeriodCells>)
    ensures GroupTable(p, g).columns == KeyColumns + Triple(p)
    ensures GroupTable(p, g).rows.Keys == g.Keys
    ensures forall k, c :: k in g ==>
      Lookup(GroupTable(p, g).rows[k], c) == if c in Triple(p) then PeriodCell(p, g[k], c) else Empty
  {
    forall k, c | k in g
      ensures Lookup(GroupTable(p, g).rows[k], c) == if c in Triple(p) then PeriodCell(p, g[k], c) else Empty
    {
      PeriodRowLookup(p, g[k], c);
    }
  }

  /** What the correction and the layout leave: the layout's columns, the
      same keys, and the corrected cells of the kept columns. */
  lemma FinishSpec(m: Table, year: string, report: string)
    ensures Finish(m, year, report).Ok? <==> PeriodColumns(m.columns).Some?
    ensures Finish(m, year, report).Ok? ==> Finish(m, year, report).value.Some?
    ensures Finish(m, year, report).Ok? ==>
      var t := Finish(m, year, report).value.value;
      var u := if report == AnnualLabel then Q4Corrected(m, year) else m;
      && t.columns == Filter(m.columns, IsKeyColumn) + PeriodColumns(m.columns).value
      && t.rows.Keys == m.rows.Keys
      && (forall k, c :: k in t.rows && c in t.rows[k] ==> c in t.columns)
      && forall k, c :: k in m.rows ==>
        Lookup(t.rows[k], c) == if c in t.columns then Lookup(u.rows[k], c) else Empty
  {
    var u := if report == AnnualLabel then Q4Corrected(m, year) else m;
    Q4Frame(m, year);
    assert u.columns == m.columns;
    if PeriodColumns(m.columns).Some? {
      ReindexSpec(u, Filter(m.columns, IsKeyColumn) + PeriodColumns(m.columns).value);
    }
  }

  // =====================================================================
  // Well-formed company tables
  // =====================================================================

  /** A period column whose prefix parses and whose whole triple is
      present. */
  predicate PeriodClosed(cols: seq<string>, c: string)
  {
    match PeriodPrefix(c)
    case None => false
    case Some(q) => ParsePeriodKey(q).Some? && q + DtSuffix in cols && q + AmountSuffix in cols && q + CurrencySuffix in cols
  }

  /** Every column is a key column, the legacy `currency` column, or one
      of a complete period triple. */
  predicate ColumnsClosed(cols: seq<string>)
  {
    forall c :: c in cols ==> IsKeyColumn(c) || c == LegacyCurrency || PeriodClosed(cols, c)
  }

  /** A company table as the merge writes it: the key columns, complete
      period triples, and no cell outside the columns. */
  predicate WellFormed(t: Table)
  {
    && HasKeyColumns(t.columns)
    && ColumnsClosed(t.columns)
    && forall k, c :: k in t.rows && c in t.rows[k] ==> c in t.columns
  }

  lemma PrefixTriple(c: string)
    requires PeriodPrefix(c).Some?
    ensures c in Triple(PeriodPrefix(c).value)
  {
    var q := PeriodPrefix(c).value;
    if EndsWith(c, DtSuffix) {
      assert c == q + DtSuffix;
    } else if EndsWith(c, AmountSuffix) {
      assert c == q + AmountSuffix;
    } else {
      assert c == q + CurrencySuffix;
    }
  }

  lemma NotKeyIfPeriod(c: string)
    requires PeriodPrefix(c).Some?
    ensures !IsKeyColumn(c) && c != LegacyCurrency
  {
    KeyColumnsNotPeriod();
    forall i | 0 <= i < |KeyColumns| ensures KeyColumns[i] != c {
    }
  }

  /** A dt column of closed columns has a parseable prefix. */
  lemma ClosedDtParses(cols: seq<string>, c: string)
    requires ColumnsClosed(cols) && c in cols && IsDtColumn(c)
    ensures KeyOfColumn(c).Some?
  {
    assert PeriodPrefix(c) == Some(DtPrefix(c));
    NotKeyIfPeriod(c);
  }

  /** On closed columns the layout keeps every column but `currency`. */
  lemma LayoutKeepsClosed(cols: seq<string>, c: string)
    requires ColumnsClosed(cols) && PeriodColumns(cols).Some?
    ensures c in Filter(cols, IsKeyColumn) + PeriodColumns(cols).value <==> c in cols && c != LegacyCurrency
  {
    FilterMember(cols, IsKeyColumn, c);
    PeriodColumnsMembers(cols, c);
    if c in PeriodColumns(cols).value {
      var i :| 0 <= i < |cols| && IsDtColumn(cols[i]) && c in Triple(DtPrefix(cols[i]));
      var d := cols[i];
      assert PeriodPrefix(d) == Some(DtPrefix(d));
      NotKeyIfPeriod(d);
      assert PeriodClosed(cols, d);
    }
    if c in cols && c != LegacyCurrency && !IsKeyColumn(c) {
      assert PeriodClosed(cols, c);
      var q := PeriodPrefix(c).value;
      PrefixTriple(c);
      TripleKinds(q);
      var i :| 0 <= i < |cols| && cols[i] == q + DtSuffix;
      assert c in Triple(DtPrefix(cols[i]));
    }
  }

  /** Closedness carries over to any columns that keep all the old ones
      but `currency`. */
  lemma ClosedCarries(cols: seq<string>, cols2: seq<string>, c: string)
    requires ColumnsClosed(cols)
    requires forall x :: x in cols && x != LegacyCurrency ==> x in cols2
    requires c in cols && c != LegacyCurrency
    ensures IsKeyColumn(c) || PeriodClosed(cols2, c)
  {
    if !IsKeyColumn(c) {
      assert PeriodClosed(cols, c);
      var q := PeriodPrefix(c).value;
      TripleKinds(q);
      NotKeyIfPeriod(q + DtSuffix);
      NotKeyIfPeriod(q + AmountSuffix);
      NotKeyIfPeriod(q + CurrencySuffix);
    }
  }

  lemma TripleClosed(cols: seq<string>, p: string, c: string)
    requires ParsePeriodKey(p).Some? && c in Triple(p)
    requires forall x :: x in Triple(p) ==> x in cols
    ensures PeriodClosed(cols, c)
  {
    PrefixOfTripleMember(p, c);
    var t := Triple(p);
    assert t[0] in t && t[1] in t && t[2] in t;
    assert p + DtSuffix in cols && p + AmountSuffix in cols && p + CurrencySuffix in cols;
  }

  /** A closed table without the period's amount column has none of the
      period's columns. */
  lemma FreshPeriod(cols: seq<string>, p: string, c: string)
    requires ColumnsClosed(cols) && p + AmountSuffix !in cols && c in Triple(p)
    ensures c !in cols
  {
    PrefixOfTripleMember(p, c);
    NotKeyIfPeriod(c);
  }

  // =====================================================================
  // One company of one extract
  // =====================================================================

  /** The cell a company table held before the merge. */
  function OldCell(existing: Option<Table>, k: AccountKey, c: string): Cell
  {
    if existing.Some? && k in existing.value.rows then Lookup(existing.value.rows[k], c) else Empty
  }

  /** The amount the merge writes for key `k`: the extract's amount, or,
      for an income-statement row of an annual report, that amount less the
      Q1, H1 and Q3 amounts the company table already held. */
  function NewAmount(existing: Option<Table>, g: map<AccountKey, PeriodCells>,
                     year: string, report: string, k: AccountKey): Cell
    requires k in g
  {
    var a := g[k].amount;
    if report == AnnualLabel && IsIncomeStatement(k) && a != Empty then
      Whole(ToAmount(a) - ToAmount(OldCell(existing, k, Q1Column(year)))
                        - ToAmount(OldCell(existing, k, H1Column(year)))
                        - ToAmount(OldCell(existing, k, Q3Column(year))))
    else a
  }

  /** The columns before the correction and the layout. */
  lemma MergedColumns(existing: Option<Table>, p: string, g: map<AccountKey, PeriodCells>, c: string)
    ensures c in MergedOf(existing, p, g).columns <==>
      c in Triple(p) || (existing.Some? && c in existing.value.columns && c != LegacyCurrency)
        || (existing.None? && c in KeyColumns)
  {
    if existing.Some? {
      DropLegacySpec(existing.value);
    }
  }

  /** The merged columns are closed when the period prefix parses. */
  lemma MergedClosed(existing: Option<Table>, p: string, g: map<AccountKey, PeriodCells>)
    requires existing.Some? ==> WellFormed(existing.value)
    requires ParsePeriodKey(p).Some?
    ensures ColumnsClosed(MergedOf(existing, p, g).columns)
  {
    var m := MergedOf(existing, p, g);
    forall x | x in Triple(p) ensures x in m.columns {
      MergedColumns(existing, p, g, x);
    }
    forall c | c in m.columns ensures IsKeyColumn(c) || c == LegacyCurrency || PeriodClosed(m.columns, c) {
      MergedColumns(existing, p, g, c);
      if c in Triple(p) {
        TripleClosed(m.columns, p, c);
      } else if existing.Some? {
        forall x | x in existing.value.columns && x != LegacyCurrency ensures x in m.columns {
          MergedColumns(existing, p, g, x);
        }
        ClosedCarries(existing.value.columns, m.columns, c);
      }
    }
  }

  /** The only dt column of the merge that can fail to parse is the
      period's own. */
  lemma MergedParses(existing: Option<Table>, p: string, g: map<AccountKey, PeriodCells>)
    requires existing.Some? ==> WellFormed(existing.value)
    ensures PeriodColumns(MergedOf(existing, p, g).columns).Some? <==> ParsePeriodKey(p).Some?
  {
    var m := MergedOf(existing, p, g);
    PeriodColumnsFails(m.columns);
    TripleKinds(p);
    MergedColumns(existing, p, g, p + DtSuffix);
    var i :| 0 <= i < |m.columns| && m.columns[i] == p + DtSuffix;
    forall j | 0 <= j < |m.columns| && Unparseable(m.columns[j]) ensures ParsePeriodKey(p).None? {
      MergedUnparseable(existing, p, g, m.columns[j]);
    }
  }

  /** A merged dt column that fails to parse is the period's own. */
  lemma MergedUnparseable(existing: Option<Table>, p: string, g: map<AccountKey, PeriodCells>, c: string)
    requires existing.Some? ==> WellFormed(existing.value)
    requires c in MergedOf(existing, p, g).columns && Unparseable(c)
    ensures ParsePeriodKey(p).None?
  {
    MergedColumns(existing, p, g, c);
    TripleKinds(p);
    if c in Triple(p) {
      assert c == p + DtSuffix;
    } else if existing.Some? {
      ClosedDtParses(existing.value.columns, c);
    } else {
      assert false;
    }
  }

  /** The outcome of one company's step, for a well-formed company table:
      skipped exactly when the period is already recorded, an error exactly
      when the period's year is not a number, written otherwise. */
  lemma MergeCompanyOutcome(existing: Option<Table>, g: map<AccountKey, PeriodCells>,
                            year: string, report: string, dt: string)
    requires existing.Some? ==> WellFormed(existing.value)
    ensures var p := year + "_" + report;
      var skip := existing.Some? && Recorded(DropLegacyCurrency(existing.value), p, dt);
      && (MergeCompany(existing, g, year, report, dt) == Ok(None) <==> skip)
      && (MergeCompany(existing, g, year, report, dt).Err? <==> !skip && ParsePeriodKey(p).None?)
  {
    var p := year + "_" + report;
    FinishSpec(MergedOf(existing, p, g), year, report);
    MergedParses(existing, p, g);
  }

  /** A written table is the finished merge of a period not yet recorded
      whose prefix parses. */
  lemma MergeCompanyWrites(existing: Option<Table>, g: map<AccountKey, PeriodCells>,
                           year: string, report: string, dt: string, t: Table)
    requires existing.Some? ==> WellFormed(existing.value)
    requires MergeCompany(existing, g, year, report, dt) == Ok(Some(t))
    ensures existing.Some? ==> !Recorded(DropLegacyCurrency(existing.value), year + "_" + report, dt)
    ensures existing.Some? ==> (year + "_" + report) + AmountSuffix !in existing.value.columns
    ensures ParsePeriodKey(year + "_" + report).Some?
    ensures Finish(MergedOf(existing, year + "_" + report, g), year, report) == Ok(Some(t))
  {
    MergeCompanyOutcome(existing, g, year, report, dt);
    var p := year + "_" + report;
    TripleKinds(p);
    NotKeyIfPeriod(p + AmountSuffix);
    if existing.Some? {
      DropLegacySpec(existing.value);
    }
  }

  predicate IsPeriodColumn(c: string) { PeriodPrefix(c).Some? }

  /** The layout of closed columns: every column but `currency`, still
      closed, key columns first and period columns after. */
  lemma LayoutShape(cols: seq<string>)
    requires ColumnsClosed(cols) && PeriodColumns(cols).Some?
    ensures var l := Filter(cols, IsKeyColumn) + PeriodColumns(cols).value;
      && (forall c :: c in l <==> c in cols && c != LegacyCurrency)
      && ColumnsClosed(l)
      && (HasKeyColumns(cols) ==> HasKeyColumns(l))
      && l == Filter(l, IsKeyColumn) + Filter(l, IsPeriodColumn)
  {
    var keys := Filter(cols, IsKeyColumn);
    var pc := PeriodColumns(cols).value;
    var l := keys + pc;
    forall c ensures c in l <==> c in cols && c != LegacyCurrency {
      LayoutKeepsClosed(cols, c);
    }
    forall c | c in l ensures IsKeyColumn(c) || c == LegacyCurrency || PeriodClosed(l, c) {
      ClosedCarries(cols, l, c);
    }
    if HasKeyColumns(cols) {
      forall i | 0 <= i < |KeyColumns| ensures KeyColumns[i] in l {
        assert KeyColumns[i] != LegacyCurrency;
      }
    }
    LayoutSplits(cols);
  }

  lemma KeyNotPeriod(cols: seq<string>, c: string)
    requires c in Filter(cols, IsKeyColumn)
    ensures IsKeyColumn(c) && !IsPeriodColumn(c)
  {
    FilterMember(cols, IsKeyColumn, c);
    KeyColumnsNotPeriod();
    var i :| 0 <= i < |KeyColumns| && KeyColumns[i] == c;
  }

  lemma PeriodNotKey(cols: seq<string>, c: string)
    requires PeriodColumns(cols).Some? && c in PeriodColumns(cols).value
    ensures IsPeriodColumn(c) && !IsKeyColumn(c)
  {
    PeriodColumnsMembers(cols, c);
    var i :| 0 <= i < |cols| && IsDtColumn(cols[i]) && c in Triple(DtPrefix(cols[i]));
    PrefixOfTripleMember(DtPrefix(cols[i]), c);
    NotKeyIfPeriod(c);
  }

  lemma LayoutSplits(cols: seq<string>)
    requires PeriodColumns(cols).Some?
    ensures var l := Filter(cols, IsKeyColumn) + PeriodColumns(cols).value;
      && l == Filter(l, IsKeyColumn) + Filter(l, IsPeriodColumn)
      && Filter(l, IsKeyColumn) == Filter(cols, IsKeyColumn)
      && Filter(l, IsPeriodColumn) == PeriodColumns(cols).value
  {
    var keys := Filter(cols, IsKeyColumn);
    var pc := PeriodColumns(cols).value;
    forall c | c in keys ensures IsKeyColumn(c) && !IsPeriodColumn(c) {
      KeyNotPeriod(cols, c);
    }
    forall c | c in pc ensures IsPeriodColumn(c) && !IsKeyColumn(c) {
      PeriodNotKey(cols, c);
    }
    SplitByFilters(keys, pc, IsKeyColumn, IsPeriodColumn);
  }

  /** The columns a merge writes: the old ones without `currency` (the key
      columns for a new company) and the period's triple; key columns
      first, then period columns; the table stays well-formed. */
  lemma MergeCompanyColumns(existing: Option<Table>, g: map<AccountKey, PeriodCells>,
                            year: string, report: string, dt: string, t: Table)
    requires existing.Some? ==> WellFormed(existing.value)
    requires MergeCompany(existing, g, year, report, dt) == Ok(Some(t))
    ensures forall c :: c in t.columns <==>
      c in Triple(year + "_" + report) || (existing.Some? && c in existing.value.columns && c != LegacyCurrency)
        || (existing.None? && c in KeyColumns)
    ensures WellFormed(t) && LegacyCurrency !in t.columns
    ensures t.columns == Filter(t.columns, IsKeyColumn) + Filter(t.columns, IsPeriodColumn)
  {
    MergeCompanyWrites(existing, g, year, report, dt, t);
    FinishedColumns(existing, g, year, report, t);
  }

  lemma FinishedColumns(existing: Option<Table>, g: map<AccountKey, PeriodCells>,
                        year: string, report: string, t: Table)
    requires existing.Some? ==> WellFormed(existing.value)
    requires ParsePeriodKey(year + "_" + report).Some?
    requires Finish(MergedOf(existing, year + "_" + report, g), year, report) == Ok(Some(t))
    ensures forall c :: c in t.columns <==>
      c in Triple(year + "_" + report) || (existing.Some? && c in existing.value.columns && c != LegacyCurrency)
        || (existing.None? && c in KeyColumns)
    ensures WellFormed(t) && LegacyCurrency !in t.columns
    ensures t.columns == Filter(t.columns, IsKeyColumn) + Filter(t.columns, IsPeriodColumn)
  {
    var p := year + "_" + report;
    var m := MergedOf(existing, p, g);
    FinishSpec(m, year, report);
    MergedLayout(existing, p, g);
  }

  /** The layout of the merged columns. */
  lemma MergedLayout(existing: Option<Table>, p: string, g: map<AccountKey, PeriodCells>)
    requires existing.Some? ==> WellFormed(existing.value)
    requires ParsePeriodKey(p).Some?
    ensures PeriodColumns(MergedOf(existing, p, g).columns).Some?
    ensures var cols := MergedOf(existing, p, g).columns;
      var l := Filter(cols, IsKeyColumn) + PeriodColumns(cols).value;
      && (forall c :: c in l <==>
            c in Triple(p) || (existing.Some? && c in existing.value.columns && c != LegacyCurrency)
              || (existing.None? && c in KeyColumns))
      && ColumnsClosed(l) && HasKeyColumns(l) && LegacyCurrency !in l
      && l == Filter(l, IsKeyColumn) + Filter(l, IsPeriodColumn)
  {
    var cols := MergedOf(existing, p, g).columns;
    MergedParses(existing, p, g);
    MergedClosed(existing, p, g);
    MergedKeyColumns(existing, p, g);
    MergedMembers(existing, p, g);
    LayoutShape(cols);
  }

  lemma MergedKeyColumns(existing: Option<Table>, p: string, g: map<AccountKey, PeriodCells>)
    requires existing.Some? ==> HasKeyColumns(existing.value.columns)
    ensures HasKeyColumns(MergedOf(existing, p, g).columns)
  {
    forall i | 0 <= i < |KeyColumns| ensures KeyColumns[i] in MergedOf(existing, p, g).columns {
      MergedColumns(existing, p, g, KeyColumns[i]);
    }
  }

  lemma MergedMembers(existing: Option<Table>, p: string, g: map<AccountKey, PeriodCells>)
    ensures forall c :: c in MergedOf(existing, p, g).columns && c != LegacyCurrency <==>
      c in Triple(p) || (existing.Some? && c in existing.value.columns && c != LegacyCurrency)
        || (existing.None? && c in KeyColumns)
  {
    forall c ensures c in MergedOf(existing, p, g).columns && c != LegacyCurrency <==>
      c in Triple(p) || (existing.Some? && c in existing.value.columns && c != LegacyCurrency)
        || (existing.None? && c in KeyColumns)
    {
      MergedColumns(existing, p, g, c);
      if c in Triple(p) {
        PrefixOfTripleMember(p, c);
        NotKeyIfPeriod(c);
      }
    }
  }

  // ---------------------------------------------------------------------
  // Cells
  // ---------------------------------------------------------------------

  /** The cell of the merge before the correction: the period's cells for
      the group's keys, the old table's cells elsewhere. */
  function MergedCell(existing: Option<Table>, p: string, g: map<AccountKey, PeriodCells>,
                      k: AccountKey, c: string): Cell
  {
    if k in g && c in Triple(p) then PeriodCell(p, g[k], c) else OldCell(existing, k, c)
  }

  /** The cell a merge writes, correction included. */
  function WrittenCell(existing: Option<Table>, g: map<AccountKey, PeriodCells>,
                       year: string, report: string, k: AccountKey, c: string): Cell
  {
    var p := year + "_" + report;
    if k in g && c == p + AmountSuffix then NewAmount(existing, g, year, report, k)
    else MergedCell(existing, p, g, k, c)
  }

  function OldKeys(existing: Option<Table>): set<AccountKey>
  {
    if existing.Some? then existing.value.rows.Keys else {}
  }

  lemma MergedKeys(existing: Option<Table>, p: string, g: map<AccountKey, PeriodCells>)
    ensures MergedOf(existing, p, g).rows.Keys == OldKeys(existing) + g.Keys
  {
    if existing.Some? {
      DropLegacySpec(existing.value);
      JoinedSpec(DropLegacyCurrency(existing.value), p, g);
    }
  }

  lemma MergedCellSpec(existing: Option<Table>, p: string, g: map<AccountKey, PeriodCells>,
                       k: AccountKey, c: string)
    requires k in OldKeys(existing) + g.Keys && c != LegacyCurrency
    ensures k in MergedOf(existing, p, g).rows
    ensures Lookup(MergedOf(existing, p, g).rows[k], c) == MergedCell(existing, p, g, k, c)
  {
    MergedKeys(existing, p, g);
    if existing.None? {
      GroupTableSpec(p, g);
    } else {
      var e := existing.value;
      DropLegacySpec(e);
      JoinedLookup(DropLegacyCurrency(e), p, g, k, c);
    }
  }

  /** The quarter columns that the correction reads are none of the annual
      period's own columns; the annual column is its amount column. */
  lemma QuarterColumns(year: string)
    ensures var p := year + "_" + AnnualLabel;
      && AnnualColumn(year) == p + AmountSuffix
      && Q1Column(year) !in Triple(p) && H1Column(year) !in Triple(p) && Q3Column(year) !in Triple(p)
      && Q1Column(year) != LegacyCurrency && H1Column(year) != LegacyCurrency && Q3Column(year) != LegacyCurrency
  {
    var p := year + "_" + AnnualLabel;
    assert |p + DtSuffix| == |year| + 16 && |p + AmountSuffix| == |year| + 20 && |p + CurrencySuffix| == |year| + 22;
    assert |Q1Column(year)| == |year| + 18 && |H1Column(year)| == |year| + 17 && |Q3Column(year)| == |year| + 18;
  }

  /** A subtrahend of the correction is the old table's amount. */
  lemma OperandIsOld(existing: Option<Table>, p: string, g: map<AccountKey, PeriodCells>,
                     k: AccountKey, c: string)
    requires existing.Some? ==> WellFormed(existing.value)
    requires k in OldKeys(existing) + g.Keys && c != LegacyCurrency && c !in Triple(p)
    ensures k in MergedOf(existing, p, g).rows
    ensures Operand(MergedOf(existing, p, g).columns, MergedOf(existing, p, g).rows[k], c) == ToAmount(OldCell(existing, k, c))
  {
    MergedCellSpec(existing, p, g, k, c);
    MergedColumns(existing, p, g, c);
    if existing.Some? && k in existing.value.rows && c !in existing.value.columns {
      assert c !in existing.value.rows[k];
    }
  }

  /** A well-formed table without the period holds no cell of it. */
  lemma OldCellFresh(existing: Option<Table>, p: string, k: AccountKey, c: string)
    requires existing.Some? ==> WellFormed(existing.value) && p + AmountSuffix !in existing.value.columns
    requires c in Triple(p)
    ensures OldCell(existing, k, c) == Empty
  {
    if existing.Some? {
      FreshPeriod(existing.value.columns, p, c);
    }
  }

  /** The annual amount cell of an income-statement row after the
      correction. */
  lemma CorrectedAnnualCell(existing: Option<Table>, g: map<AccountKey, PeriodCells>,
                            year: string, k: AccountKey)
    requires existing.Some? ==>
      WellFormed(existing.value) && (year + "_" + AnnualLabel) + AmountSuffix !in existing.value.columns
    requires k in OldKeys(existing) + g.Keys && IsIncomeStatement(k)
    ensures var m := MergedOf(existing, year + "_" + AnnualLabel, g);
      k in m.rows
      && Lookup(Q4Corrected(m, year).rows[k], AnnualColumn(year))
        == WrittenCell(existing, g, year, AnnualLabel, k, AnnualColumn(year))
  {
    var m := MergedOf(existing, year + "_" + AnnualLabel, g);
    AnnualWritten(existing, g, year, k);
    AnnualCellOf(m, year, k);
  }

  /** The correction's formula, applied to the merged row, gives the cell
      the merge writes. */
  lemma AnnualWritten(existing: Option<Table>, g: map<AccountKey, PeriodCells>,
                      year: string, k: AccountKey)
    requires existing.Some? ==>
      WellFormed(existing.value) && (year + "_" + AnnualLabel) + AmountSuffix !in existing.value.columns
    requires k in OldKeys(existing) + g.Keys && IsIncomeStatement(k)
    ensures var m, a := MergedOf(existing, year + "_" + AnnualLabel, g), AnnualColumn(year);
      && k in m.rows
      && (if a in m.columns && Lookup(m.rows[k], a) != Empty then
            Whole(ToAmount(m.rows[k][a]) - Operand(m.columns, m.rows[k], Q1Column(year))
                                         - Operand(m.columns, m.rows[k], H1Column(year))
                                         - Operand(m.columns, m.rows[k], Q3Column(year)))
          else Lookup(m.rows[k], a))
         == WrittenCell(existing, g, year, AnnualLabel, k, a)
  {
    AnnualCellMerged(existing, g, year, k);
    if k in g && g[k].amount != Empty {
      AnnualOperands(existing, g, year, k);
    }
  }

  /** Before the correction, the annual amount cell is the extract's amount
      for a key of the extract and empty otherwise. */
  lemma AnnualCellMerged(existing: Option<Table>, g: map<AccountKey, PeriodCells>,
                         year: string, k: AccountKey)
    requires existing.Some? ==>
      WellFormed(existing.value) && (year + "_" + AnnualLabel) + AmountSuffix !in existing.value.columns
    requires k in OldKeys(existing) + g.Keys
    ensures var m, a := MergedOf(existing, year + "_" + AnnualLabel, g), AnnualColumn(year);
      && k in m.rows && a in m.columns
      && Lookup(m.rows[k], a) == (if k in g then g[k].amount else Empty)
      && WrittenCell(existing, g, year, AnnualLabel, k, a) ==
           if k in g then NewAmount(existing, g, year, AnnualLabel, k) else Empty
  {
    var p := year + "_" + AnnualLabel;
    var a := AnnualColumn(year);
    QuarterColumns(year);
    TripleDistinct(p);
    assert a != LegacyCurrency;
    MergedCellSpec(existing, p, g, k, a);
    OldCellFresh(existing, p, k, a);
    MergedColumns(existing, p, g, a);
  }

  /** The quarter amounts the annual correction subtracts are the existing
      table's. */
  lemma AnnualOperands(existing: Option<Table>, g: map<AccountKey, PeriodCells>, year: string, k: AccountKey)
    requires existing.Some? ==> WellFormed(existing.value)
    requires k in OldKeys(existing) + g.Keys
    ensures var m := MergedOf(existing, year + "_" + AnnualLabel, g);
      && k in m.rows
      && Operand(m.columns, m.rows[k], Q1Column(year)) == ToAmount(OldCell(existing, k, Q1Column(year)))
      && Operand(m.columns, m.rows[k], H1Column(year)) == ToAmount(OldCell(existing, k, H1Column(year)))
      && Operand(m.columns, m.rows[k], Q3Column(year)) == ToAmount(OldCell(existing, k, Q3Column(year)))
  {
    var p := year + "_" + AnnualLabel;
    QuarterColumns(year);
    OperandIsOld(existing, p, g, k, Q1Column(year));
    OperandIsOld(existing, p, g, k, H1Column(year));
    OperandIsOld(existing, p, g, k, Q3Column(year));
  }

  /** The annual amount of an income-statement row after the correction. */
  lemma AnnualCellOf(t: Table, year: string, k: AccountKey)
    requires k in t.rows && IsIncomeStatement(k)
    ensures k in Q4Corrected(t, year).rows
    ensures var a, r := AnnualColumn(year), t.rows[k];
      Lookup(Q4Corrected(t, year).rows[k], a) ==
        if a in t.columns && Lookup(r, a) != Empty then
          Whole(ToAmount(r[a]) - Operand(t.columns, r, Q1Column(year))
                               - Operand(t.columns, r, H1Column(year))
                               - Operand(t.columns, r, Q3Column(year)))
        else Lookup(r, a)
  {
  }

  /** Every cell of the merge after the correction. */
  lemma CorrectedCell(existing: Option<Table>, g: map<AccountKey, PeriodCells>,
                      year: string, report: string, k: AccountKey, c: string)
    requires existing.Some? ==>
      WellFormed(existing.value) && (year + "_" + report) + AmountSuffix !in existing.value.columns
    requires k in OldKeys(existing) + g.Keys && c != LegacyCurrency
    ensures var m := MergedOf(existing, year + "_" + report, g);
      var u := if report == AnnualLabel then Q4Corrected(m, year) else m;
      k in u.rows && Lookup(u.rows[k], c) == WrittenCell(existing, g, year, report, k, c)
  {
    var p := year + "_" + report;
    var m := MergedOf(existing, p, g);
    MergedCellSpec(existing, p, g, k, c);
    TripleDistinct(p);
    Q4Frame(m, year);
    if report == AnnualLabel && IsIncomeStatement(k) && c == AnnualColumn(year) {
      CorrectedAnnualCell(existing, g, year, k);
    } else if report == AnnualLabel {
      QuarterColumns(year);
    }
  }

  /** What a merge writes: the old keys and the group's keys; in every
      written column, the period's cells (the annual amount corrected) for
      the group's keys and the old cells otherwise; nothing in the other
      columns, and nothing of the new period for keys the group lacks. */
  lemma MergeCompanyCells(existing: Option<Table>, g: map<AccountKey, PeriodCells>,
                          year: string, report: string, dt: string, t: Table)
    requires existing.Some? ==> WellFormed(existing.value)
    requires MergeCompany(existing, g, year, report, dt) == Ok(Some(t))
    ensures t.rows.Keys == OldKeys(existing) + g.Keys
    ensures forall k, c :: k in t.rows && c in t.columns ==>
      Lookup(t.rows[k], c) == WrittenCell(existing, g, year, report, k, c)
    ensures forall k, c :: k in t.rows && c !in t.columns ==> Lookup(t.rows[k], c) == Empty
    ensures forall k, c :: k in t.rows && k !in g && c in Triple(year + "_" + report) ==> Lookup(t.rows[k], c) == Empty
  {
    MergeCompanyWrites(existing, g, year, report, dt, t);
    FinishedCells(existing, g, year, report, t);
  }

  lemma FinishedCells(existing: Option<Table>, g: map<AccountKey, PeriodCells>,
                      year: string, report: string, t: Table)
    requires existing.Some? ==>
      WellFormed(existing.value) && (year + "_" + report) + AmountSuffix !in existing.value.columns
    requires ParsePeriodKey(year + "_" + report).Some?
    requires Finish(MergedOf(existing, year + "_" + report, g), year, report) == Ok(Some(t))
    ensures t.rows.Keys == OldKeys(existing) + g.Keys
    ensures forall k, c :: k in t.rows && c in t.columns ==>
      Lookup(t.rows[k], c) == WrittenCell(existing, g, year, report, k, c)
    ensures forall k, c :: k in t.rows && c !in t.columns ==> Lookup(t.rows[k], c) == Empty
    ensures forall k, c :: k in t.rows && k !in g && c in Triple(year + "_" + report) ==> Lookup(t.rows[k], c) == Empty
  {
    var p := year + "_" + report;
    FinishedKeys(existing, g, year, report, t);
    forall k, c | k in t.rows
      ensures Lookup(t.rows[k], c) == if c in t.columns then WrittenCell(existing, g, year, report, k, c) else Empty
    {
      FinishedCell(existing, g, year, report, t, k, c);
    }
    forall k, c | k in t.rows && k !in g && c in Triple(year + "_" + report)
      ensures Lookup(t.rows[k], c) == Empty
    {
      FinishedCell(existing, g, year, report, t, k, c);
    }
  }

  lemma FinishedKeys(existing: Option<Table>, g: map<AccountKey, PeriodCells>,
                     year: string, report: string, t: Table)
    requires Finish(MergedOf(existing, year + "_" + report, g), year, report) == Ok(Some(t))
    ensures t.rows.Keys == OldKeys(existing) + g.Keys
  {
    FinishSpec(MergedOf(existing, year + "_" + report, g), year, report);
    MergedKeys(existing, year + "_" + report, g);
  }

  /** One cell of a finished merge. */
  lemma FinishedCell(existing: Option<Table>, g: map<AccountKey, PeriodCells>,
                     year: string, report: string, t: Table, k: AccountKey, c: string)
    requires existing.Some? ==>
      WellFormed(existing.value) && (year + "_" + report) + AmountSuffix !in existing.value.columns
    requires ParsePeriodKey(year + "_" + report).Some?
    requires Finish(MergedOf(existing, year + "_" + report, g), year, report) == Ok(Some(t))
    requires k in t.rows
    ensures Lookup(t.rows[k], c) == if c in t.columns then WrittenCell(existing, g, year, report, k, c) else Empty
    ensures k !in g && c in Triple(year + "_" + report) ==> Lookup(t.rows[k], c) == Empty
  {
    var p := year + "_" + report;
    var m := MergedOf(existing, p, g);
    FinishSpec(m, year, report);
    MergedKeys(existing, p, g);
    FinishedColumns(existing, g, year, report, t);
    assert k in m.rows;
    if c in t.columns {
      CorrectedCell(existing, g, year, report, k, c);
    }
    if k !in g && c in Triple(p) {
      OldCellFresh(existing, p, k, c);
    }
  }

  // ---------------------------------------------------------------------
  // A period is merged once
  // ---------------------------------------------------------------------

  /** Once a period is written into a company table, merging that period
      again, from any group and with any date, skips the company. */
  lemma MergeCompanyIdempotent(existing: Option<Table>, g: map<AccountKey, PeriodCells>,
                               year: string, report: string, dt: string, t: Table,
                               g2: map<AccountKey, PeriodCells>, dt2: string)
    requires existing.Some? ==> WellFormed(existing.value)
    requires MergeCompany(existing, g, year, report, dt) == Ok(Some(t))
    ensures MergeCompany(Some(t), g2, year, report, dt2) == Ok(None)
  {
    var p := year + "_" + report;
    MergeCompanyColumns(existing, g, year, report, dt, t);
    DropLegacySpec(t);
    TripleKinds(p);
    assert p + AmountSuffix in Triple(p);
    MergeCompanyOutcome(Some(t), g2, year, report, dt2);
  }

  /** A written table is recorded for its own period. */
  lemma WrittenIsRecorded(existing: Option<Table>, g: map<AccountKey, PeriodCells>,
                          year: string, report: string, dt: string, t: Table)
    requires existing.Some? ==> WellFormed(existing.value)
    requires MergeCompany(existing, g, year, report, dt) == Ok(Some(t))
    ensures WellFormed(t) && DropLegacyCurrency(t) == t
    ensures Recorded(t, year + "_" + report, dt)
  {
    var p := year + "_" + report;
    MergeCompanyColumns(existing, g, year, report, dt, t);
    DropLegacySpec(t);
    assert p + AmountSuffix in Triple(p);
  }

  /** A period recorded in a company table stays recorded when another
      period is merged into it. */
  lemma RecordedPersists(e: Table, p: string, dt: string, g: map<AccountKey, PeriodCells>,
                         year: string, report: string, dt2: string, t: Table)
    requires WellFormed(e) && Recorded(DropLegacyCurrency(e), p, dt)
    requires MergeCompany(Some(e), g, year, report, dt2) == Ok(Some(t))
    ensures Recorded(DropLegacyCurrency(t), p, dt)
  {
    var d := DropLegacyCurrency(e);
    MergeCompanyColumns(Some(e), g, year, report, dt2, t);
    MergeCompanyWrites(Some(e), g, year, report, dt2, t);
    DropLegacySpec(e);
    DropLegacySpec(t);
    TripleKinds(p);
    NotKeyIfPeriod(p + AmountSuffix);
    if dt in ExistingDates(d) {
      ExistingDatesSpec(d, dt);
      var c, k :| c in d.columns && IsDtColumn(c) && k in d.rows
        && Lookup(d.rows[k], c) != Empty && CellText(Lookup(d.rows[k], c)) == dt;
      DatePersists(e, g, year, report, dt2, t, c, k);
      ExistingDatesSpec(t, dt);
    }
  }

  /** An old cell outside the new period survives the merge. */
  lemma DatePersists(e: Table, g: map<AccountKey, PeriodCells>, year: string, report: string,
                     dt2: string, t: Table, c: string, k: AccountKey)
    requires WellFormed(e) && MergeCompany(Some(e), g, year, report, dt2) == Ok(Some(t))
    requires c in e.columns && c != LegacyCurrency && k in e.rows
    ensures c in t.columns && k in t.rows && Lookup(t.rows[k], c) == Lookup(e.rows[k], c)
  {
    var p := year + "_" + report;
    MergeCompanyWrites(Some(e), g, year, report, dt2, t);
    MergeCompanyColumns(Some(e), g, year, report, dt2, t);
    MergeCompanyCells(Some(e), g, year, report, dt2, t);
    forall x | x in Triple(p) ensures x !in e.columns {
      FreshPeriod(e.columns, p, x);
    }
    TripleKinds(p);
    assert c !in Triple(p) && c != p + AmountSuffix;
    assert WrittenCell(Some(e), g, year, report, k, c) == OldCell(Some(e), k, c);
  }

  // =====================================================================
  // The store: a run merges every period once
  // =====================================================================

  predicate StoreWellFormed(s: Store)
  {
    forall c :: c in s ==> WellFormed(s[c])
  }

  /** The company's table already records the period. */
  predicate CompanyRecorded(s: Store, c: CompanyId, p: string, dt: string)
  {
    c in s && Recorded(DropLegacyCurrency(s[c]), p, dt)
  }

  /** The group loop touches only the companies it visits. */
  lemma {:induction false} MergeGroupsFrame(s: Store, cs: seq<CompanyId>, rows: seq<ExtractRow>,
                                            year: string, report: string, dt: string, c: CompanyId)
    requires c !in cs
    ensures (c in MergeGroups(s, cs, rows, year, report, dt).0) == (c in s)
    ensures c in s ==> MergeGroups(s, cs, rows, year, report, dt).0[c] == s[c]
    decreases |cs|
  {
    if cs != [] {
      var d := cs[0];
      assert c !in cs[1..];
      match MergeCompany(if d in s then Some(s[d]) else None, GroupRows(rows, d), year, report, dt)
      case Err(_) =>
      case Ok(None) => MergeGroupsFrame(s, cs[1..], rows, year, report, dt, c);
      case Ok(Some(t)) => MergeGroupsFrame(s[d := t], cs[1..], rows, year, report, dt, c);
    }
  }

  /** The group loop keeps every table well-formed. */
  lemma {:induction false} MergeGroupsWellFormed(s: Store, cs: seq<CompanyId>, rows: seq<ExtractRow>,
                                                 year: string, report: string, dt: string)
    requires StoreWellFormed(s)
    ensures StoreWellFormed(MergeGroups(s, cs, rows, year, report, dt).0)
    decreases |cs|
  {
    if cs != [] {
      var d := cs[0];
      var existing := if d in s then Some(s[d]) else None;
      match MergeCompany(existing, GroupRows(rows, d), year, report, dt)
      case Err(_) =>
      case Ok(None) => MergeGroupsWellFormed(s, cs[1..], rows, year, report, dt);
      case Ok(Some(t)) =>
        MergeCompanyColumns(existing, GroupRows(rows, d), year, report, dt, t);
        MergeGroupsWellFormed(s[d := t], cs[1..], rows, year, report, dt);
    }
  }

  /** A completed group loop leaves every visited company recorded for
      the period. */
  lemma {:induction false} MergeGroupsSettles(s: Store, cs: seq<CompanyId>, rows: seq<ExtractRow>,
                                              year: string, report: string, dt: string)
    requires StoreWellFormed(s) && Distinct(cs)
    requires MergeGroups(s, cs, rows, year, report, dt).1
    ensures forall c :: c in cs ==> CompanyRecorded(MergeGroups(s, cs, rows, year, report, dt).0, c, year + "_" + report, dt)
    decreases |cs|
  {
    if cs != [] {
      var d := cs[0];
      var rest := cs[1..];
      assert d !in rest && Distinct(rest);
      var s1 := MergeHeadSettles(s, cs, rows, year, report, dt);
      MergeGroupsSettles(s1, rest, rows, year, report, dt);
      MergeGroupsFrame(s1, rest, rows, year, report, dt, d);
      forall c | c in cs ensures c == d || c in rest {
        var i :| 0 <= i < |cs| && cs[i] == c;
        if i > 0 {
          assert rest[i - 1] == c;
        }
      }
    }
  }

  /** The first company of a completed group loop is recorded for the
      period in the store the rest of the loop starts from. */
  lemma MergeHeadSettles(s: Store, cs: seq<CompanyId>, rows: seq<ExtractRow>,
                         year: string, report: string, dt: string) returns (s1: Store)
    requires StoreWellFormed(s) && cs != []
    requires MergeGroups(s, cs, rows, year, report, dt).1
    ensures StoreWellFormed(s1) && CompanyRecorded(s1, cs[0], year + "_" + report, dt)
    ensures MergeGroups(s, cs, rows, year, report, dt) == MergeGroups(s1, cs[1..], rows, year, report, dt)
  {
    var d := cs[0];
    var existing := if d in s then Some(s[d]) else None;
    var r := MergeCompany(existing, GroupRows(rows, d), year, report, dt);
    assert r.Ok?;
    if r.value.None? {
      HeadSkipped(s, d, rows, year, report, dt);
      s1 := s;
    } else {
      HeadWritten(s, d, rows, year, report, dt, r.value.value);
      s1 := s[d := r.value.value];
    }
  }

  lemma HeadSkipped(s: Store, d: CompanyId, rows: seq<ExtractRow>, year: string, report: string, dt: string)
    requires StoreWellFormed(s)
    requires MergeCompany(if d in s then Some(s[d]) else None, GroupRows(rows, d), year, report, dt) == Ok(None)
    ensures CompanyRecorded(s, d, year + "_" + report, dt)
  {
    MergeCompanyOutcome(if d in s then Some(s[d]) else None, GroupRows(rows, d), year, report, dt);
  }

  lemma HeadWritten(s: Store, d: CompanyId, rows: seq<ExtractRow>, year: string, report: string, dt: string,
                    t: Table)
    requires StoreWellFormed(s)
    requires MergeCompany(if d in s then Some(s[d]) else None, GroupRows(rows, d), year, report, dt) == Ok(Some(t))
    ensures StoreWellFormed(s[d := t]) && CompanyRecorded(s[d := t], d, year + "_" + report, dt)
  {
    WrittenIsRecorded(if d in s then Some(s[d]) else None, GroupRows(rows, d), year, report, dt, t);
  }

  /** A group loop over companies that all record the period changes
      nothing and completes. */
  lemma {:induction false} MergeGroupsNoop(s: Store, cs: seq<CompanyId>, rows: seq<ExtractRow>,
                                           year: string, report: string, dt: string)
    requires StoreWellFormed(s)
    requires forall c :: c in cs ==> CompanyRecorded(s, c, year + "_" + report, dt)
    ensures MergeGroups(s, cs, rows, year, report, dt) == (s, true)
    decreases |cs|
  {
    if cs != [] {
      var d := cs[0];
      assert CompanyRecorded(s, d, year + "_" + report, dt);
      MergeCompanyOutcome(Some(s[d]), GroupRows(rows, d), year, report, dt);
      assert forall c :: c in cs[1..] ==> c in cs;
      MergeGroupsNoop(s, cs[1..], rows, year, report, dt);
    }
  }

  /** A recorded period stays recorded through a group loop. */
  lemma {:induction false} MergeGroupsPersists(s: Store, cs: seq<CompanyId>, rows: seq<ExtractRow>,
                                               year: string, report: string, dt: string,
                                               c: CompanyId, p: string, d: string)
    requires StoreWellFormed(s) && CompanyRecorded(s, c, p, d)
    ensures CompanyRecorded(MergeGroups(s, cs, rows, year, report, dt).0, c, p, d)
    decreases |cs|
  {
    if cs != [] {
      var e := cs[0];
      var existing := if e in s then Some(s[e]) else None;
      var r := MergeCompany(existing, GroupRows(rows, e), year, report, dt);
      if r.Ok? && r.value.None? {
        MergeGroupsPersists(s, cs[1..], rows, year, report, dt, c, p, d);
      } else if r.Ok? {
        var t := r.value.value;
        WrittenPersists(s, e, rows, year, report, dt, t, c, p, d);
        MergeGroupsPersists(s[e := t], cs[1..], rows, year, report, dt, c, p, d);
      }
    }
  }

  /** A table the merge writes keeps every period its company had recorded. */
  lemma WrittenPersists(s: Store, e: CompanyId, rows: seq<ExtractRow>, year: string, report: string, dt: string,
                        t: Table, c: CompanyId, p: string, d: string)
    requires StoreWellFormed(s) && CompanyRecorded(s, c, p, d)
    requires MergeCompany(if e in s then Some(s[e]) else None, GroupRows(rows, e), year, report, dt) == Ok(Some(t))
    ensures StoreWellFormed(s[e := t]) && CompanyRecorded(s[e := t], c, p, d)
  {
    HeadWritten(s, e, rows, year, report, dt, t);
    if e == c {
      MergeCompanyColumns(Some(s[c]), GroupRows(rows, e), year, report, dt, t);
      RecordedPersists(s[c], p, d, GroupRows(rows, e), year, report, dt, t);
    }
  }

  // ---------------------------------------------------------------------
  // Files
  // ---------------------------------------------------------------------

  /** A file is settled in a store when merging it again would change
      nothing: its name does not parse, or every company of its rows already
      records its period. */
  predicate Settled(s: Store, f: InputFile)
  {
    match ParseFileName(f.path)
    case None => true
    case Some((year, report)) =>
      f.content.Rows? && f.content.rows != []
      && forall c :: c in Companies(f.content.rows) ==>
        CompanyRecorded(s, c, year + "_" + report, CellText(f.content.rows[0].cells.dt))
  }

  lemma MergeFileWellFormed(s: Store, f: InputFile)
    requires StoreWellFormed(s)
    ensures StoreWellFormed(MergeFile(s, f).0)
  {
    if ParseFileName(f.path).Some? && f.content.Rows? && f.content.rows != [] {
      var (year, report) := ParseFileName(f.path).value;
      var rows := f.content.rows;
      MergeGroupsWellFormed(s, Companies(rows), rows, year, report, CellText(rows[0].cells.dt));
    }
  }

  /** A file merged without error is settled afterwards. */
  lemma MergeFileSettles(s: Store, f: InputFile)
    requires StoreWellFormed(s) && MergeFile(s, f).1
    ensures Settled(MergeFile(s, f).0, f)
  {
    if ParseFileName(f.path).Some? {
      var (year, report) := ParseFileName(f.path).value;
      var rows := f.content.rows;
      CompaniesDistinct(rows);
      MergeGroupsSettles(s, Companies(rows), rows, year, report, CellText(rows[0].cells.dt));
    }
  }

  /** Merging a settled file changes nothing and completes. */
  lemma MergeFileNoop(s: Store, f: InputFile)
    requires StoreWellFormed(s) && Settled(s, f)
    ensures MergeFile(s, f) == (s, true)
  {
    if ParseFileName(f.path).Some? {
      var (year, report) := ParseFileName(f.path).value;
      var rows := f.content.rows;
      MergeGroupsNoop(s, Companies(rows), rows, year, report, CellText(rows[0].cells.dt));
    }
  }

  /** A settled file stays settled whatever file is merged next. */
  lemma MergeFilePersists(s: Store, f: InputFile, h: InputFile)
    requires StoreWellFormed(s) && Settled(s, f)
    ensures Settled(MergeFile(s, h).0, f)
  {
    if ParseFileName(f.path).Some? && ParseFileName(h.path).Some? && h.content.Rows? && h.content.rows != [] {
      var (year, report) := ParseFileName(f.path).value;
      var (y2, r2) := ParseFileName(h.path).value;
      var rows := f.content.rows;
      var hrows := h.content.rows;
      forall c | c in Companies(rows)
        ensures CompanyRecorded(MergeFile(s, h).0, c, year + "_" + report, CellText(rows[0].cells.dt))
      {
        MergeGroupsPersists(s, Companies(hrows), hrows, y2, r2, CellText(hrows[0].cells.dt),
                            c, year + "_" + report, CellText(rows[0].cells.dt));
      }
    }
  }

  // ---------------------------------------------------------------------
  // Runs
  // ---------------------------------------------------------------------

  lemma {:induction false} RunFilesWellFormed(s: Store, fs: seq<InputFile>)
    requires StoreWellFormed(s)
    ensures StoreWellFormed(RunFiles(s, fs).0)
    decreases |fs|
  {
    if fs != [] {
      MergeFileWellFormed(s, fs[0]);
      RunFilesWellFormed(MergeFile(s, fs[0]).0, fs[1..]);
    }
  }

  lemma {:induction false} RunFilesPersists(s: Store, fs: seq<InputFile>, f: InputFile)
    requires StoreWellFormed(s) && Settled(s, f)
    ensures Settled(RunFiles(s, fs).0, f)
    decreases |fs|
  {
    if fs != [] {
      MergeFileWellFormed(s, fs[0]);
      MergeFilePersists(s, f, fs[0]);
      RunFilesPersists(MergeFile(s, fs[0]).0, fs[1..], f);
    }
  }

  /** A completed run leaves every file of it settled. */
  lemma {:induction false} RunFilesSettles(s: Store, fs: seq<InputFile>)
    requires StoreWellFormed(s) && RunFiles(s, fs).1
    ensures forall i :: 0 <= i < |fs| ==> Settled(RunFiles(s, fs).0, fs[i])
    decreases |fs|
  {
    if fs != [] {
      var s1 := MergeFile(s, fs[0]).0;
      assert MergeFile(s, fs[0]).1;
      assert RunFiles(s, fs) == RunFiles(s1, fs[1..]);
      var last := RunFiles(s, fs).0;
      MergeFileWellFormed(s, fs[0]);
      MergeFileSettles(s, fs[0]);
      RunFilesSettles(s1, fs[1..]);
      RunFilesPersists(s1, fs[1..], fs[0]);
      assert Settled(last, fs[0]);
    }
  }

  /** A run over settled files changes nothing and completes. */
  lemma {:induction false} RunFilesNoop(s: Store, fs: seq<InputFile>)
    requires StoreWellFormed(s)
    requires forall i :: 0 <= i < |fs| ==> Settled(s, fs[i])
    ensures RunFiles(s, fs) == (s, true)
    decreases |fs|
  {
    if fs != [] {
      MergeFileNoop(s, fs[0]);
      assert forall i :: 0 <= i < |fs[1..]| ==> fs[1..][i] == fs[i + 1];
      RunFilesNoop(s, fs[1..]);
    }
  }

  /** Running the batch a second time over the same extracts changes no
      company table: every period is merged once. */
  lemma RunFilesIdempotent(s: Store, fs: seq<InputFile>)
    requires StoreWellFormed(s) && RunFiles(s, fs).1
    ensures RunFiles(RunFiles(s, fs).0, fs) == (RunFiles(s, fs).0, true)
  {
    RunFilesWellFormed(s, fs);
    RunFilesSettles(s, fs);
    RunFilesNoop(RunFiles(s, fs).0, fs);
  }

  /** Whether or not a first run completed, a second run over the same
      extracts returns the same store and stops where the first one did. */
  lemma {:induction false} RunFilesRerun(s: Store, fs: seq<InputFile>)
    requires StoreWellFormed(s)
    ensures RunFiles(RunFiles(s, fs).0, fs) == RunFiles(s, fs)
    decreases |fs|
  {
    if fs != [] {
      var (s1, ok) := MergeFile(s, fs[0]);
      MergeFileFailsUnchanged(s, fs[0]);
      if ok {
        var rest := fs[1..];
        var last := RunFiles(s1, rest).0;
        MergeFileWellFormed(s, fs[0]);
        MergeFileSettles(s, fs[0]);
        RunFilesPersists(s1, rest, fs[0]);
        RunFilesWellFormed(s1, rest);
        MergeFileNoop(last, fs[0]);
        RunFilesRerun(s1, rest);
      }
    }
  }

  /** A file that raises leaves the store as it found it. */
  lemma MergeFileFailsUnchanged(s: Store, f: InputFile)
    requires StoreWellFormed(s)
    ensures !MergeFile(s, f).1 ==> MergeFile(s, f).0 == s
  {
    if ParseFileName(f.path).Some? && f.content.Rows? && f.content.rows != [] {
      var (year, report) := ParseFileName(f.path).value;
      var rows := f.content.rows;
      MergeGroupsFailsUnchanged(s, Companies(rows), rows, year, report, CellText(rows[0].cells.dt));
    }
  }

  /** A group loop raises only on a period whose year does not parse, and
      then before it has written any company. */
  lemma {:induction false} MergeGroupsFailsUnchanged(s: Store, cs: seq<CompanyId>, rows: seq<ExtractRow>,
                                                     year: string, report: string, dt: string)
    requires StoreWellFormed(s)
    ensures !MergeGroups(s, cs, rows, year, report, dt).1 ==> MergeGroups(s, cs, rows, year, report, dt).0 == s
    decreases |cs|
  {
    if cs != [] {
      var d := cs[0];
      var existing := if d in s then Some(s[d]) else None;
      MergeCompanyOutcome(existing, GroupRows(rows, d), year, report, dt);
      match MergeCompany(existing, GroupRows(rows, d), year, report, dt)
      case Err(_) =>
      case Ok(None) => MergeGroupsFailsUnchanged(s, cs[1..], rows, year, report, dt);
      case Ok(Some(t)) =>
        HeadWritten(s, d, rows, year, report, dt, t);
        MergeGroupsParsedCompletes(s[d := t], cs[1..], rows, year, report, dt);
    }
  }

  /** A group loop over a period whose year parses never raises. */
  lemma {:induction false} MergeGroupsParsedCompletes(s: Store, cs: seq<CompanyId>, rows: seq<ExtractRow>,
                                                      year: string, report: string, dt: string)
    requires StoreWellFormed(s) && ParsePeriodKey(year + "_" + report).Some?
    ensures MergeGroups(s, cs, rows, year, report, dt).1
    decreases |cs|
  {
    if cs != [] {
      var d := cs[0];
      var existing := if d in s then Some(s[d]) else None;
      MergeCompanyOutcome(existing, GroupRows(rows, d), year, report, dt);
      match MergeCompany(existing, GroupRows(rows, d), year, report, dt)
      case Err(_) =>
      case Ok(None) => MergeGroupsParsedCompletes(s, cs[1..], rows, year, report, dt);
      case Ok(Some(t)) =>
        HeadWritten(s, d, rows, year, report, dt, t);
        MergeGroupsParsedCompletes(s[d := t], cs[1..], rows, year, report, dt);
    }
  }

  // ---------------------------------------------------------------------
  // Layout of a written table
  // ---------------------------------------------------------------------

  /** A run of column triples, one per parseable period, in dt, amount,
      currency order, chronologically sorted. */
  predicate ChronologicalTriples(r: seq<string>)
  {
    && |r| % 3 == 0
    && (forall i :: 0 <= i < |r| / 3 ==> ChunkKey(r, i).Some? && Chunk(r, i) == Triple(ChunkKey(r, i).value.prefix))
    && (forall i, j :: 0 <= i < j < |r| / 3 ==> KeyLe(ChunkKey(r, i).value, ChunkKey(r, j).value))
  }

  lemma TripleNotKey(p: string)
    ensures Filter(Triple(p), IsKeyColumn) == []
  {
    TripleKinds(p);
    NotKeyIfPeriod(p + DtSuffix);
    NotKeyIfPeriod(p + AmountSuffix);
    NotKeyIfPeriod(p + CurrencySuffix);
    FilterNone(Triple(p), IsKeyColumn);
  }

  lemma DropKeepsKeyOrder(e: Table)
    ensures Filter(DropLegacyCurrency(e).columns, IsKeyColumn) == Filter(e.columns, IsKeyColumn)
  {
    if LegacyCurrency in e.columns {
      FilterFilter(e.columns, IsCurrentColumn, IsKeyColumn);
    }
  }

  /** The key columns of a merge, in the table's own order. */
  lemma MergedKeyOrder(existing: Option<Table>, p: string, g: map<AccountKey, PeriodCells>)
    ensures Filter(MergedOf(existing, p, g).columns, IsKeyColumn) ==
      if existing.Some? then Filter(existing.value.columns, IsKeyColumn) else KeyColumns
  {
    TripleNotKey(p);
    var front := if existing.Some? then DropLegacyCurrency(existing.value).columns else KeyColumns;
    assert MergedOf(existing, p, g).columns == front + Triple(p);
    FilterConcat(front, Triple(p), IsKeyColumn);
    assert Filter(front, IsKeyColumn) + [] == Filter(front, IsKeyColumn);
    if existing.Some? {
      DropKeepsKeyOrder(existing.value);
    } else {
      FilterAll(KeyColumns, IsKeyColumn);
    }
  }

  /** The layout a merge writes: the key columns in the table's existing
      order (the standard order for a new company), then the period
      triples in chronological order. */
  lemma MergeCompanyLayout(existing: Option<Table>, g: map<AccountKey, PeriodCells>,
                           year: string, report: string, dt: string, t: Table)
    requires existing.Some? ==> WellFormed(existing.value)
    requires MergeCompany(existing, g, year, report, dt) == Ok(Some(t))
    ensures Filter(t.columns, IsKeyColumn) ==
      if existing.Some? then Filter(existing.value.columns, IsKeyColumn) else KeyColumns
    ensures ChronologicalTriples(Filter(t.columns, IsPeriodColumn))
  {
    var p := year + "_" + report;
    var m := MergedOf(existing, p, g);
    MergeCompanyWrites(existing, g, year, report, dt, t);
    FinishSpec(m, year, report);
    LayoutSplits(m.columns);
    MergedKeyOrder(existing, p, g);
    PeriodColumnsOrdered(m.columns);
  }

  /** No column, and so no period, appears twice in a written table. */
  lemma MergeCompanyDistinct(existing: Option<Table>, g: map<AccountKey, PeriodCells>,
                             year: string, report: string, dt: string, t: Table)
    requires existing.Some? ==> WellFormed(existing.value) && Distinct(existing.value.columns)
    requires MergeCompany(existing, g, year, report, dt) == Ok(Some(t))
    ensures Distinct(t.columns)
  {
    var p := year + "_" + report;
    var m := MergedOf(existing, p, g);
    MergeCompanyWrites(existing, g, year, report, dt, t);
    FinishSpec(m, year, report);
    MergedDistinct(existing, p, g);
    LayoutDistinct(m.columns);
  }

  lemma LayoutDistinct(cols: seq<string>)
    requires PeriodColumns(cols).Some? && Distinct(cols)
    ensures Distinct(Filter(cols, IsKeyColumn) + PeriodColumns(cols).value)
  {
    var keys := Filter(cols, IsKeyColumn);
    var pc := PeriodColumns(cols).value;
    FilterDistinct(cols, IsKeyColumn);
    PeriodColumnsDistinct(cols);
    forall i, j | 0 <= i < |keys| && 0 <= j < |pc| ensures keys[i] != pc[j] {
      KeyNotPeriod(cols, keys[i]);
      PeriodNotKey(cols, pc[j]);
    }
    DistinctConcat(keys, pc);
  }

  lemma MergedDistinct(existing: Option<Table>, p: string, g: map<AccountKey, PeriodCells>)
    requires existing.Some? ==> WellFormed(existing.value) && Distinct(existing.value.columns)
    requires existing.Some? ==> p + AmountSuffix !in existing.value.columns
    ensures Distinct(MergedOf(existing, p, g).columns)
  {
    var front := if existing.Some? then DropLegacyCurrency(existing.value).columns else KeyColumns;
    assert MergedOf(existing, p, g).columns == front + Triple(p);
    TripleDistinct(p);
    if existing.Some? {
      var e := existing.value;
      if LegacyCurrency in e.columns {
        FilterDistinct(e.columns, IsCurrentColumn);
      }
      DropLegacySpec(e);
      forall i, j | 0 <= i < |front| && 0 <= j < 3 ensures front[i] != Triple(p)[j] {
        FreshPeriod(e.columns, p, Triple(p)[j]);
      }
    } else {
      forall i, j | 0 <= i < |front| && 0 <= j < 3 ensures front[i] != Triple(p)[j] {
        PrefixOfTripleMember(p, Triple(p)[j]);
        NotKeyIfPeriod(Triple(p)[j]);
      }
    }
    DistinctConcat(front, Triple(p));
  }

  // =====================================================================
  // File names and file order
  // =====================================================================

  /** The base name of `dir/x` is `x` when `x` has no `/`. */
  lemma {:induction false} BasenameAfterSlash(dir: string, x: string)
    requires '/' !in x
    ensures Basename(dir + "/" + x) == x
    decreases |dir|
  {
    var s := dir + "/" + x;
    if '/' !in dir {
      assert s[..|dir|] == dir;
      IndexOfUnique(s, '/', |dir|);
      assert s[|dir| + 1..] == x;
    } else {
      var i := IndexOf(dir, '/');
      assert s[..i] == dir[..i];
      IndexOfUnique(s, '/', i);
      assert s[i + 1..] == dir[i + 1..] + "/" + x;
      BasenameAfterSlash(dir[i + 1..], x);
    }
  }

  /** The parts of `<name>_<year>_<report>_<a>_<b>` split at `_`: the
      name's own parts, then the four others. */
  lemma TwoParts(a: string, b: string)
    requires '_' !in a && '_' !in b
    ensures Split(a + ['_'] + b, '_') == [a, b]
  {
    SplitCons(a, '_', b);
  }

  lemma ThreeParts(report: string, a: string, b: string)
    requires '_' !in report && '_' !in a && '_' !in b
    ensures Split(report + ['_'] + (a + ['_'] + b), '_') == [report, a, b]
  {
    TwoParts(a, b);
    SplitCons(report, '_', a + ['_'] + b);
  }

  lemma FourParts(year: string, report: string, a: string, b: string)
    requires '_' !in year && '_' !in report && '_' !in a && '_' !in b
    ensures Split(year + ['_'] + (report + ['_'] + (a + ['_'] + b)), '_') == [year, report, a, b]
  {
    ThreeParts(report, a, b);
    SplitCons(year, '_', report + ['_'] + (a + ['_'] + b));
  }

  /** A base name `<stem>.xlsx` without another `.` gives back the stem. */
  lemma StemOf(dir: string, stem: string)
    requires '/' !in stem && '.' !in stem
    ensures ReplaceAll(Basename(dir + "/" + stem + ".xlsx"), ".xlsx", "") == stem
  {
    assert dir + "/" + stem + ".xlsx" == dir + "/" + (stem + ".xlsx");
    BasenameAfterSlash(dir, stem + ".xlsx");
    ReplaceTrailing(stem, ".xlsx");
  }

  /** The file name an extract is saved under. */
  function ExtractFileName(name: string, year: string, report: string): string
  {
    name + "_" + year + "_" + report + "_major_accounts.xlsx"
  }

  /** The extract name `<name>_<YEAR>_<REPORT>_major_accounts.xlsx` in any
      directory gives back its year and report label, whatever `_` the
      company name holds. */
  lemma ParseFileNameOf(dir: string, name: string, year: string, report: string)
    requires '/' !in name && '/' !in year && '/' !in report
    requires '.' !in name && '.' !in year && '.' !in report
    requires '_' !in year && '_' !in report
    ensures ParseFileName(dir + "/" + ExtractFileName(name, year, report)) == Some((year, report))
  {
    var stem := name + ['_'] + (year + ['_'] + (report + ['_'] + ("major" + ['_'] + "accounts")));
    ExtractFileNameStem(dir, name, year, report, stem);
    StemParts(dir, name, year, report, "major", "accounts");
  }

  lemma ExtractFileNameStem(dir: string, name: string, year: string, report: string, stem: string)
    requires stem == name + ['_'] + (year + ['_'] + (report + ['_'] + ("major" + ['_'] + "accounts")))
    ensures dir + "/" + ExtractFileName(name, year, report) == dir + "/" + stem + ".xlsx"
  {
  }

  /** `<dir>/<name>_<year>_<report>_<a>_<b>.xlsx` parses to (year, report)
      when no part holds `/` or `.` and the last four hold no `_`. */
  lemma StemParts(dir: string, name: string, year: string, report: string, a: string, b: string)
    requires '/' !in name && '/' !in year && '/' !in report && '/' !in a && '/' !in b
    requires '.' !in name && '.' !in year && '.' !in report && '.' !in a && '.' !in b
    requires '_' !in year && '_' !in report && '_' !in a && '_' !in b
    ensures ParseFileName(dir + "/" + (name + ['_'] + (year + ['_'] + (report + ['_'] + (a + ['_'] + b)))) + ".xlsx")
      == Some((year, report))
  {
    var rest := year + ['_'] + (report + ['_'] + (a + ['_'] + b));
    var stem := name + ['_'] + rest;
    assert '/' !in stem && '.' !in stem;
    StemOf(dir, stem);
    SplitAppend(name, '_', rest);
    FourParts(year, report, a, b);
    ParseFileNameByStem(dir + "/" + stem + ".xlsx", stem, Split(name, '_') + [year, report, a, b]);
  }

  lemma ParseFileNameByStem(path: string, stem: string, parts: seq<string>)
    requires ReplaceAll(Basename(path), ".xlsx", "") == stem && Split(stem, '_') == parts && |parts| >= 4
    ensures ParseFileName(path) == Some((parts[|parts| - 4], parts[|parts| - 3]))
  {
  }

  /** The processing order keeps exactly the files that are not lock files. */
  lemma OrderFilesMembers(files: seq<InputFile>)
    ensures forall f :: f in OrderFiles(files) <==> f in files && !IsTempFile(f)
  {
    var listed := Filter(files, IsListed);
    forall f ensures f in OrderFiles(files) <==> f in files && !IsTempFile(f) {
      FilterMember(files, IsListed, f);
      FilterMember(listed, IsQuarterFile, f);
      FilterMember(listed, IsAnnualFile, f);
    }
  }

  /** Every annual-report file comes after every other file. */
  lemma OrderFilesAnnualLast(files: seq<InputFile>)
    ensures forall i, j :: 0 <= i < j < |OrderFiles(files)| && IsAnnualFile(OrderFiles(files)[i]) ==>
      IsAnnualFile(OrderFiles(files)[j])
  {
    var listed := Filter(files, IsListed);
    var q := Filter(listed, IsQuarterFile);
    var a := Filter(listed, IsAnnualFile);
    var o := OrderFiles(files);
    assert o == q + a;
    forall i | 0 <= i < |q| ensures !IsAnnualFile(o[i]) {
      assert o[i] == q[i];
    }
    forall j | |q| <= j < |o| ensures IsAnnualFile(o[j]) {
      assert o[j] == a[j - |q|];
    }
  }

  /** The processing order: exactly the listed files, each once; every
      annual-report file after every other file; the listed order kept
      within each of the two kinds. */
  lemma OrderFilesSpec(files: seq<InputFile>)
    ensures forall f :: f in OrderFiles(files) <==> f in files && !IsTempFile(f)
    ensures multiset(OrderFiles(files)) == multiset(Filter(files, IsListed))
    ensures forall i, j :: 0 <= i < j < |OrderFiles(files)| && IsAnnualFile(OrderFiles(files)[i]) ==>
      IsAnnualFile(OrderFiles(files)[j])
    ensures Filter(OrderFiles(files), IsQuarterFile) == Filter(Filter(files, IsListed), IsQuarterFile)
    ensures Filter(OrderFiles(files), IsAnnualFile) == Filter(Filter(files, IsListed), IsAnnualFile)
  {
    var listed := Filter(files, IsListed);
    var q := Filter(listed, IsQuarterFile);
    var a := Filter(listed, IsAnnualFile);
    assert OrderFiles(files) == q + a;
    SplitByFilters(q, a, IsQuarterFile, IsAnnualFile);
    FilterMultiset(listed, IsQuarterFile, IsAnnualFile);
    OrderFilesMembers(files);
    OrderFilesAnnualLast(files);
  }
}
