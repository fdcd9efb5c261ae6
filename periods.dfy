/**
 * The two helpers at the top of merge_financials.py: the comma-tolerant
 * amount coercion `to_float`, and `sort_period_columns`, which lays out the
 * `{year}_{label}_thstrm_{dt|amount|currency}` column triples in
 * chronological order.
 */
module Periods {
  import opened Text
  import opened Seqs
  import opened Sheet

  const DtSuffix: string := "_thstrm_dt"
  const AmountSuffix: string := "_thstrm_amount"
  const CurrencySuffix: string := "_thstrm_currency"

  /** A generic currency column left over from older tables. */
  const LegacyCurrency: string := "currency"

  // =====================================================================
  // to_float
  // =====================================================================

  /** `to_float`: NaN is 0; otherwise the text with every comma removed is
      parsed, and text that still does not parse is 0. Amounts are whole
      numbers here. */
  function ToAmount(v: Cell): int
  {
    match v
    case Empty => 0
    case Whole(n) => n
    case Str(s) =>
      match ParseInt(ReplaceAll(s, ",", ""))
      case Some(n) => n
      case None => 0
  }

  /** Commas never change the coerced value. */
  lemma ToAmountIgnoresCommas(s: string)
    ensures ToAmount(Str(s)) == ToAmount(Str(ReplaceAll(s, ",", "")))
  {
    DeleteIdempotent(s, ',');
  }

  lemma {:induction false} NatToStringNoComma(n: nat)
    ensures ',' !in NatToString(n)
    decreases n
  {
    if n >= 10 {
      NatToStringNoComma(n / 10);
    }
  }

  /** An amount printed in decimal coerces back to itself. */
  lemma ToAmountOfDecimal(n: int)
    ensures ToAmount(Str(IntToString(n))) == n
  {
    var s := IntToString(n);
    if n < 0 {
      NatToStringNoComma(-n);
    } else {
      NatToStringNoComma(n);
    }
    assert ',' !in s;
    DeleteCharSpec(s, ',');
    DeleteAbsent(s, ',');
    ParseIntToString(n);
  }

  // =====================================================================
  // sort_period_columns
  // =====================================================================

  predicate IsDtColumn(c: string) { EndsWith(c, DtSuffix) }

  /** The period prefix of a `_thstrm_dt` column (`2018_1분기` of
      `2018_1분기_thstrm_dt`): the last two `_` of such a column are those
      of its suffix, so `rsplit('_', 2)[0]` is the column without it. */
  function DtPrefix(c: string): string
    requires IsDtColumn(c)
  {
    c[..|c| - |DtSuffix|]
  }

  lemma DtPrefixThenSuffix(c: string)
    requires IsDtColumn(c)
    ensures DtPrefix(c) + DtSuffix == c
  {
    assert c == c[..|c| - |DtSuffix|] + c[|c| - |DtSuffix|..];
  }

  /** The three column names of one period. */
  function Triple(p: string): seq<string>
  {
    [p + DtSuffix, p + AmountSuffix, p + CurrencySuffix]
  }

  /** The intra-year rank of a report label; an unknown label ranks 99. */
  function Rank(q: string): nat
  {
    if q == "1분기" then 0
    else if q == "반기" || q == "2분기" then 1
    else if q == "3분기" then 2
    else if q == "사업보고서" || q == "4분기" then 3
    else 99
  }

  /** The tuple `(int(year), rank, prefix)` that the columns are sorted by. */
  datatype PeriodKey = PeriodKey(year: int, rank: nat, prefix: string)

  /** `year, q = prefix.split('_', 1)` then `int(year)`; `None` where either
      raises. */
  function ParsePeriodKey(prefix: string): (r: Option<PeriodKey>)
    ensures r.Some? ==> r.value.prefix == prefix
  {
    match SplitOnce(prefix, '_')
    case None => None
    case Some((y, q)) =>
      match ParseInt(y)
      case None => None
      case Some(year) => Some(PeriodKey(year, Rank(q), prefix))
  }

  /** The sort key of a `_thstrm_dt` column, `None` for any other column or
      for a dt column whose prefix does not parse. */
  function KeyOfColumn(c: string): Option<PeriodKey>
  {
    if IsDtColumn(c) then ParsePeriodKey(DtPrefix(c)) else None
  }

  /** A dt column on which `sort_period_columns` raises. */
  predicate Unparseable(c: string)
  {
    IsDtColumn(c) && KeyOfColumn(c).None?
  }

  /** Python's tuple order on `(year, rank, prefix)`. */
  predicate KeyLess(a: PeriodKey, b: PeriodKey)
  {
    a.year < b.year
    || (a.year == b.year && (a.rank < b.rank || (a.rank == b.rank && LexLess(a.prefix, b.prefix))))
  }

  predicate KeyLe(a: PeriodKey, b: PeriodKey) { a == b || KeyLess(a, b) }

  lemma KeyLeTotal(a: PeriodKey, b: PeriodKey)
    ensures KeyLe(a, b) || KeyLe(b, a)
  {
    if a != b && a.year == b.year && a.rank == b.rank {
      LexLessTotal(a.prefix, b.prefix);
    }
  }

  lemma KeyLeTransitive(a: PeriodKey, b: PeriodKey, c: PeriodKey)
    requires KeyLe(a, b) && KeyLe(b, c)
    ensures KeyLe(a, c)
  {
    if a != b && b != c && a.year == b.year == c.year && a.rank == b.rank == c.rank {
      LexLessTransitive(a.prefix, b.prefix, c.prefix);
    }
  }

  lemma KeyLeAntisymmetric(a: PeriodKey, b: PeriodKey)
    requires KeyLe(a, b) && KeyLe(b, a)
    ensures a == b
  {
    if a != b {
      LexLessIrreflexive(a.prefix);
      if a.year == b.year && a.rank == b.rank {
        LexLessTransitive(a.prefix, b.prefix, a.prefix);
      }
    }
  }

  predicate SortedKeys(s: seq<PeriodKey>)
  {
    forall i, j :: 0 <= i < j < |s| ==> KeyLe(s[i], s[j])
  }

  function InsertKey(k: PeriodKey, s: seq<PeriodKey>): seq<PeriodKey>
    decreases |s|
  {
    if s == [] then [k]
    else if KeyLe(k, s[0]) then [k] + s
    else [s[0]] + InsertKey(k, s[1..])
  }

  lemma {:induction false} InsertKeyMultiset(k: PeriodKey, s: seq<PeriodKey>)
    ensures multiset(InsertKey(k, s)) == multiset(s) + multiset{k}
    decreases |s|
  {
    if s != [] && !KeyLe(k, s[0]) {
      InsertKeyMultiset(k, s[1..]);
      assert s == [s[0]] + s[1..];
    }
  }

  lemma {:induction false} InsertKeySpec(k: PeriodKey, s: seq<PeriodKey>)
    requires SortedKeys(s)
    ensures SortedKeys(InsertKey(k, s))
    ensures multiset(InsertKey(k, s)) == multiset(s) + multiset{k}
    decreases |s|
  {
    InsertKeyMultiset(k, s);
    if s == [] {
    } else if KeyLe(k, s[0]) {
      forall j | 0 <= j < |s| ensures KeyLe(k, s[j]) {
        if j > 0 {
          KeyLeTransitive(k, s[0], s[j]);
        }
      }
      ConsSorted(k, s);
    } else {
      var t := InsertKey(k, s[1..]);
      InsertKeySpec(k, s[1..]);
      KeyLeTotal(k, s[0]);
      HeadBelowInsert(k, s, t);
      ConsSorted(s[0], t);
    }
  }

  /** A key no greater than any key of a sorted sequence may lead it. */
  lemma ConsSorted(x: PeriodKey, t: seq<PeriodKey>)
    requires SortedKeys(t)
    requires forall j :: 0 <= j < |t| ==> KeyLe(x, t[j])
    ensures SortedKeys([x] + t)
  {
    var r := [x] + t;
    forall i, j | 0 <= i < j < |r| ensures KeyLe(r[i], r[j]) {
      assert r[j] == t[j - 1];
      if i > 0 {
        assert r[i] == t[i - 1];
      }
    }
  }

  /** The head of a sorted sequence is no greater than anything the rest
      holds after an insertion of a greater key. */
  lemma HeadBelowInsert(k: PeriodKey, s: seq<PeriodKey>, t: seq<PeriodKey>)
    requires s != [] && SortedKeys(s) && KeyLe(s[0], k)
    requires multiset(t) == multiset(s[1..]) + multiset{k}
    ensures forall j :: 0 <= j < |t| ==> KeyLe(s[0], t[j])
  {
    forall j | 0 <= j < |t| ensures KeyLe(s[0], t[j]) {
      assert t[j] in multiset(t);
      if t[j] != k {
        assert t[j] in multiset(s[1..]);
        var m :| 0 <= m < |s[1..]| && s[1..][m] == t[j];
        assert s[m + 1] == t[j];
      }
    }
  }

  /** `list.sort()` on the period keys. */
  function SortKeys(s: seq<PeriodKey>): seq<PeriodKey>
    decreases |s|
  {
    if s == [] then [] else InsertKey(s[0], SortKeys(s[1..]))
  }

  /** The sort returns the keys in ascending order, each exactly as often as
      it was given. */
  lemma {:induction false} SortKeysSpec(s: seq<PeriodKey>)
    ensures SortedKeys(SortKeys(s))
    ensures multiset(SortKeys(s)) == multiset(s)
    decreases |s|
  {
    if s != [] {
      SortKeysSpec(s[1..]);
      InsertKeySpec(s[0], SortKeys(s[1..]));
      assert s == [s[0]] + s[1..];
    }
  }

  /** The first loop of `sort_period_columns`: one key per `_thstrm_dt`
      column, in column order; `None` when a prefix has no `_` or a year that
      is not a number (the loop raises). */
  function DtKeys(cols: seq<string>): Option<seq<PeriodKey>>
    decreases |cols|
  {
    if cols == [] then Some([])
    else
      var c := cols[|cols| - 1];
      match DtKeys(cols[..|cols| - 1])
      case None => None
      case Some(ks) =>
        if !IsDtColumn(c) then Some(ks)
        else
          match KeyOfColumn(c)
          case None => None
          case Some(k) => Some(ks + [k])
  }

  /** The second loop: three columns per key, dt then amount then currency. */
  function TripleColumns(ks: seq<PeriodKey>): seq<string>
    decreases |ks|
  {
    if ks == [] then [] else TripleColumns(ks[..|ks| - 1]) + Triple(ks[|ks| - 1].prefix)
  }

  /** What `sort_period_columns(cols)` returns, or `None` where it raises. */
  function PeriodColumns(cols: seq<string>): Option<seq<string>>
  {
    match DtKeys(cols)
    case None => None
    case Some(ks) => Some(TripleColumns(SortKeys(ks)))
  }

  /** `sort_period_columns`, as the source writes it: collect the keys, sort
      them, then emit each key's triple. */
  method SortPeriodColumns(cols: seq<string>) returns (r: Option<seq<string>>)
    ensures r == PeriodColumns(cols)
  {
    var prefixes: seq<PeriodKey> := [];
    var i := 0;
    while i < |cols|
      invariant 0 <= i <= |cols|
      invariant DtKeys(cols[..i]) == Some(prefixes)
    {
      var c := cols[i];
      assert cols[..i + 1][..i] == cols[..i];
      if IsDtColumn(c) {
        var parsed := ParsePeriodKey(DtPrefix(c));
        if parsed.None? {
          assert DtKeys(cols[..i + 1]) == None;
          DtKeysNoneSticks(cols, i + 1);
          assert cols[..|cols|] == cols;
          return None;
        }
        prefixes := prefixes + [parsed.value];
      }
      i := i + 1;
    }
    assert cols[..i] == cols;
    prefixes := SortKeys(prefixes);
    var ordered: seq<string> := [];
    var j := 0;
    while j < |prefixes|
      invariant 0 <= j <= |prefixes|
      invariant ordered == TripleColumns(prefixes[..j])
    {
      assert prefixes[..j + 1][..j] == prefixes[..j];
      var p := prefixes[j].prefix;
      ordered := ordered + [p + DtSuffix, p + AmountSuffix, p + CurrencySuffix];
      j := j + 1;
    }
    assert prefixes[..j] == prefixes;
    return Some(ordered);
  }

  /** Once a prefix fails to parse, every longer column list fails too. */
  lemma {:induction false} DtKeysNoneSticks(cols: seq<string>, n: nat)
    requires n <= |cols| && DtKeys(cols[..n]) == None
    ensures DtKeys(cols) == None
    decreases |cols| - n
  {
    if n < |cols| {
      assert cols[..n + 1][..n] == cols[..n];
      DtKeysNoneSticks(cols, n + 1);
    } else {
      assert cols[..n] == cols;
    }
  }

  // ---------------------------------------------------------------------
  // What sort_period_columns promises
  // ---------------------------------------------------------------------

  /** The period prefix of any of the three period columns; `None` for every
      other column. */
  function PeriodPrefix(c: string): Option<string>
  {
    if EndsWith(c, DtSuffix) then Some(c[..|c| - |DtSuffix|])
    else if EndsWith(c, AmountSuffix) then Some(c[..|c| - |AmountSuffix|])
    else if EndsWith(c, CurrencySuffix) then Some(c[..|c| - |CurrencySuffix|])
    else None
  }

  /** Each column of a triple carries its own kind and its prefix. */
  lemma TripleKinds(p: string)
    ensures IsDtColumn(p + DtSuffix) && DtPrefix(p + DtSuffix) == p
    ensures !IsDtColumn(p + AmountSuffix) && !IsDtColumn(p + CurrencySuffix)
    ensures PeriodPrefix(p + DtSuffix) == Some(p)
    ensures PeriodPrefix(p + AmountSuffix) == Some(p)
    ensures PeriodPrefix(p + CurrencySuffix) == Some(p)
  {
    EndsWithConcat(p, DtSuffix);
    EndsWithConcat(p, AmountSuffix);
    EndsWithConcat(p, CurrencySuffix);
    var a := p + AmountSuffix;
    assert a[|a| - 2] == 'n';
    var c := p + CurrencySuffix;
    assert c[|c| - 1] == 'y';
  }

  /** No key column and no legacy `currency` column is a period column. */
  lemma KeyColumnsNotPeriod()
    ensures forall i :: 0 <= i < |KeyColumns| ==> PeriodPrefix(KeyColumns[i]).None?
    ensures PeriodPrefix(LegacyCurrency).None?
  {
    assert "stock_code"[9] != DtSuffix[9];
    assert "account_nm"[9] != DtSuffix[9];
  }

  /** The three columns that stand at triple position `i` of `r`. */
  function Chunk(r: seq<string>, i: nat): seq<string>
    requires 3 * i + 3 <= |r|
  {
    r[3 * i..3 * i + 3]
  }

  /** The sort key of the dt column at triple position `i` of `r`. */
  function ChunkKey(r: seq<string>, i: nat): Option<PeriodKey>
    requires 3 * i < |r|
  {
    KeyOfColumn(r[3 * i])
  }

  lemma {:induction false} TripleColumnsChunks(ks: seq<PeriodKey>)
    ensures |TripleColumns(ks)| == 3 * |ks|
    ensures forall i :: 0 <= i < |ks| ==> Chunk(TripleColumns(ks), i) == Triple(ks[i].prefix)
    decreases |ks|
  {
    if ks != [] {
      var n := |ks| - 1;
      var front := ks[..n];
      TripleColumnsChunks(front);
      var r := TripleColumns(ks);
      assert r == TripleColumns(front) + Triple(ks[n].prefix);
      forall i | 0 <= i < |ks| ensures Chunk(r, i) == Triple(ks[i].prefix) {
        if i < n {
          assert Chunk(r, i) == Chunk(TripleColumns(front), i);
          assert front[i] == ks[i];
        } else {
          assert Chunk(r, i) == r[3 * n..];
        }
      }
    }
  }

  lemma {:induction false} TripleColumnsMembers(ks: seq<PeriodKey>, c: string)
    ensures c in TripleColumns(ks) <==> exists i :: 0 <= i < |ks| && c in Triple(ks[i].prefix)
    decreases |ks|
  {
    if ks != [] {
      var n := |ks| - 1;
      var front := ks[..n];
      TripleColumnsMembers(front, c);
      if c in TripleColumns(front) {
        var i :| 0 <= i < |front| && c in Triple(front[i].prefix);
        assert ks[i] == front[i];
      }
      if exists i :: 0 <= i < |ks| && c in Triple(ks[i].prefix) {
        var i :| 0 <= i < |ks| && c in Triple(ks[i].prefix);
        if i < n {
          assert front[i] == ks[i];
        }
      }
    }
  }

  predicate DistinctPrefixes(ks: seq<PeriodKey>)
  {
    forall i, j :: 0 <= i < j < |ks| ==> ks[i].prefix != ks[j].prefix
  }

  lemma TripleColumnsPrefixes(ks: seq<PeriodKey>, c: string)
    requires c in TripleColumns(ks)
    ensures exists i :: 0 <= i < |ks| && PeriodPrefix(c) == Some(ks[i].prefix)
  {
    TripleColumnsMembers(ks, c);
    var i :| 0 <= i < |ks| && c in Triple(ks[i].prefix);
    var q := ks[i].prefix;
    PrefixOfTripleMember(q, c);
  }

  lemma PrefixOfTripleMember(q: string, c: string)
    requires c in Triple(q)
    ensures PeriodPrefix(c) == Some(q)
  {
    TripleKinds(q);
  }

  lemma {:induction false} TripleColumnsDistinct(ks: seq<PeriodKey>)
    requires DistinctPrefixes(ks)
    ensures Distinct(TripleColumns(ks))
    decreases |ks|
  {
    if ks != [] {
      var n := |ks| - 1;
      var front := ks[..n];
      var q := ks[n].prefix;
      assert DistinctPrefixes(front);
      TripleColumnsDistinct(front);
      TripleKinds(q);
      var a, b := TripleColumns(front), Triple(q);
      forall i, j | 0 <= i < |a| && 0 <= j < |b| ensures a[i] != b[j] {
        EarlierNotLast(ks, a[i]);
      }
      DistinctConcat(a, b);
    }
  }

  /** The columns of the earlier periods are none of the last period's. */
  lemma EarlierNotLast(ks: seq<PeriodKey>, x: string)
    requires DistinctPrefixes(ks) && ks != [] && x in TripleColumns(ks[..|ks| - 1])
    ensures x !in Triple(ks[|ks| - 1].prefix)
  {
    var n := |ks| - 1;
    var front := ks[..n];
    TripleColumnsPrefixes(front, x);
    var m :| 0 <= m < |front| && PeriodPrefix(x) == Some(front[m].prefix);
    assert front[m] == ks[m];
    TripleKinds(ks[n].prefix);
  }

  /** The first loop fails exactly when some dt column does not parse. */
  lemma {:induction false} DtKeysFails(cols: seq<string>)
    ensures DtKeys(cols).None? <==> exists i :: 0 <= i < |cols| && Unparseable(cols[i])
    decreases |cols|
  {
    if cols != [] {
      var n := |cols| - 1;
      var front := cols[..n];
      DtKeysFails(front);
      DtKeysLastStep(cols);
      ExistsSplitLast(cols, front);
    }
  }

  /** One step of the first loop: the last column fails or the rest did. */
  lemma DtKeysLastStep(cols: seq<string>)
    requires cols != []
    ensures DtKeys(cols).None? <==> DtKeys(cols[..|cols| - 1]).None? || Unparseable(cols[|cols| - 1])
  {
  }

  lemma ExistsSplitLast(cols: seq<string>, front: seq<string>)
    requires cols != [] && front == cols[..|cols| - 1]
    ensures (exists i :: 0 <= i < |cols| && Unparseable(cols[i])) <==>
      (exists i :: 0 <= i < |front| && Unparseable(front[i])) || Unparseable(cols[|cols| - 1])
  {
    if exists i :: 0 <= i < |cols| - 1 && Unparseable(front[i]) {
      var i :| 0 <= i < |cols| - 1 && Unparseable(front[i]);
      assert front[i] == cols[i];
    }
    if exists i :: 0 <= i < |cols| && Unparseable(cols[i]) {
      var i :| 0 <= i < |cols| && Unparseable(cols[i]);
      if i < |cols| - 1 {
        assert front[i] == cols[i];
      }
    }
  }

  /** Every collected key re-parses to itself. */
  lemma {:induction false} DtKeysReparse(cols: seq<string>)
    requires DtKeys(cols).Some?
    ensures forall k :: k in DtKeys(cols).value ==> ParsePeriodKey(k.prefix) == Some(k)
    decreases |cols|
  {
    if cols != [] {
      DtKeysReparse(cols[..|cols| - 1]);
    }
  }

  /** Every collected key belongs to a dt column of the input. */
  lemma {:induction false} DtKeysFromColumns(cols: seq<string>)
    requires DtKeys(cols).Some?
    ensures forall k :: k in DtKeys(cols).value ==> k.prefix + DtSuffix in cols
    decreases |cols|
  {
    if cols != [] {
      var n := |cols| - 1;
      var front := cols[..n];
      var c := cols[n];
      DtKeysSomeStep(cols, front);
      DtKeysFromColumns(front);
      var ks := DtKeys(front).value;
      if IsDtColumn(c) {
        DtPrefixThenSuffix(c);
      }
      forall x | x in DtKeys(cols).value ensures x.prefix + DtSuffix in cols {
        if x in ks {
          InInit(cols, x.prefix + DtSuffix);
        }
      }
    }
  }

  /** One successful step of the first loop. */
  lemma DtKeysSomeStep(cols: seq<string>, front: seq<string>)
    requires cols != [] && front == cols[..|cols| - 1] && DtKeys(cols).Some?
    ensures DtKeys(front).Some?
    ensures IsDtColumn(cols[|cols| - 1]) ==>
      && KeyOfColumn(cols[|cols| - 1]).Some?
      && KeyOfColumn(cols[|cols| - 1]).value.prefix == DtPrefix(cols[|cols| - 1])
      && DtKeys(cols).value == DtKeys(front).value + [KeyOfColumn(cols[|cols| - 1]).value]
    ensures !IsDtColumn(cols[|cols| - 1]) ==> DtKeys(cols).value == DtKeys(front).value
  {
  }

  /** Every dt column of the input contributes its key. */
  lemma {:induction false} DtKeysComplete(cols: seq<string>)
    requires DtKeys(cols).Some?
    ensures forall i :: 0 <= i < |cols| && IsDtColumn(cols[i]) ==>
      KeyOfColumn(cols[i]).Some? && KeyOfColumn(cols[i]).value in DtKeys(cols).value
    decreases |cols|
  {
    if cols != [] {
      var n := |cols| - 1;
      var front := cols[..n];
      DtKeysComplete(front);
      assert forall i :: 0 <= i < n ==> front[i] == cols[i];
    }
  }

  /** Distinct columns give keys with distinct prefixes. */
  lemma {:induction false} DtKeysDistinct(cols: seq<string>)
    requires DtKeys(cols).Some? && Distinct(cols)
    ensures DistinctPrefixes(DtKeys(cols).value)
    decreases |cols|
  {
    if cols != [] {
      var n := |cols| - 1;
      var front := cols[..n];
      var c := cols[n];
      DistinctPrefix(cols, n);
      DtKeysSomeStep(cols, front);
      DtKeysDistinct(front);
      var ks := DtKeys(front).value;
      if IsDtColumn(c) {
        var k := KeyOfColumn(c).value;
        forall i | 0 <= i < |ks| ensures ks[i].prefix != k.prefix {
          LaterDtPrefix(cols, ks[i]);
        }
        AppendDistinctPrefix(ks, k);
      }
    }
  }

  /** The key of a distinct last dt column is new to the earlier keys. */
  lemma LaterDtPrefix(cols: seq<string>, e: PeriodKey)
    requires cols != [] && Distinct(cols) && IsDtColumn(cols[|cols| - 1])
    requires DtKeys(cols[..|cols| - 1]).Some? && e in DtKeys(cols[..|cols| - 1]).value
    ensures e.prefix != DtPrefix(cols[|cols| - 1])
  {
    var front, c := cols[..|cols| - 1], cols[|cols| - 1];
    DistinctLast(cols);
    DtKeysFromColumns(front);
    DtPrefixThenSuffix(c);
  }

  lemma AppendDistinctPrefix(ks: seq<PeriodKey>, k: PeriodKey)
    requires DistinctPrefixes(ks)
    requires forall i :: 0 <= i < |ks| ==> ks[i].prefix != k.prefix
    ensures DistinctPrefixes(ks + [k])
  {
    var r := ks + [k];
    forall i, j | 0 <= i < j < |r| ensures r[i].prefix != r[j].prefix {
      assert r[i] == ks[i];
    }
  }

  lemma {:induction false} InsertKeyPrefixes(k: PeriodKey, s: seq<PeriodKey>)
    requires DistinctPrefixes(s)
    requires forall i :: 0 <= i < |s| ==> s[i].prefix != k.prefix
    ensures DistinctPrefixes(InsertKey(k, s))
    decreases |s|
  {
    if s == [] {
    } else if KeyLe(k, s[0]) {
      ConsPrefixes(k, s);
    } else {
      var rest := s[1..];
      assert DistinctPrefixes(rest);
      InsertKeyPrefixes(k, rest);
      var t := InsertKey(k, rest);
      InsertKeyMultiset(k, rest);
      forall j | 0 <= j < |t| ensures t[j].prefix != s[0].prefix {
        InsertedFrom(k, rest, t, j);
        if t[j] != k {
          var m :| 0 <= m < |rest| && rest[m] == t[j];
          assert s[m + 1] == t[j];
        }
      }
      ConsPrefixes(s[0], t);
    }
  }

  /** A key whose prefix no key of `t` has may lead `t`. */
  lemma ConsPrefixes(x: PeriodKey, t: seq<PeriodKey>)
    requires DistinctPrefixes(t)
    requires forall j :: 0 <= j < |t| ==> t[j].prefix != x.prefix
    ensures DistinctPrefixes([x] + t)
  {
    var r := [x] + t;
    forall i, j | 0 <= i < j < |r| ensures r[i].prefix != r[j].prefix {
      assert r[j] == t[j - 1];
      if i > 0 {
        assert r[i] == t[i - 1];
      }
    }
  }

  /** Every key of an insertion is the inserted key or one of the old. */
  lemma InsertedFrom(k: PeriodKey, rest: seq<PeriodKey>, t: seq<PeriodKey>, j: nat)
    requires multiset(t) == multiset(rest) + multiset{k} && j < |t|
    ensures t[j] == k || t[j] in rest
  {
    assert t[j] in multiset(t);
  }

  lemma {:induction false} SortKeysPrefixes(s: seq<PeriodKey>)
    requires DistinctPrefixes(s)
    ensures DistinctPrefixes(SortKeys(s))
    decreases |s|
  {
    if s != [] {
      var rest := s[1..];
      assert DistinctPrefixes(rest);
      SortKeysPrefixes(rest);
      SortKeysSpec(rest);
      var t := SortKeys(rest);
      forall j | 0 <= j < |t| ensures t[j].prefix != s[0].prefix {
        assert t[j] in multiset(rest);
        var m :| 0 <= m < |rest| && rest[m] == t[j];
        assert s[m + 1] == t[j];
      }
      InsertKeyPrefixes(s[0], t);
    }
  }

  /** `sort_period_columns` raises exactly when some dt column's prefix has
      no `_` or a year that is not an integer. */
  lemma PeriodColumnsFails(cols: seq<string>)
    ensures PeriodColumns(cols).None? <==> exists i :: 0 <= i < |cols| && Unparseable(cols[i])
  {
    DtKeysFails(cols);
  }

  /** The output holds the three columns of every dt prefix in the input
      and nothing else; in particular no key column and no legacy
      `currency` column. */
  lemma PeriodColumnsMembers(cols: seq<string>, c: string)
    requires PeriodColumns(cols).Some?
    ensures c in PeriodColumns(cols).value <==>
      exists i :: 0 <= i < |cols| && IsDtColumn(cols[i]) && c in Triple(DtPrefix(cols[i]))
    ensures c in KeyColumns || c == LegacyCurrency ==> c !in PeriodColumns(cols).value
  {
    var ks := DtKeys(cols).value;
    var s := SortKeys(ks);
    assert PeriodColumns(cols).value == TripleColumns(s);
    if c in TripleColumns(s) {
      PeriodColumnsSound(cols, ks, s, c);
    }
    if exists i :: 0 <= i < |cols| && IsDtColumn(cols[i]) && c in Triple(DtPrefix(cols[i])) {
      var i :| 0 <= i < |cols| && IsDtColumn(cols[i]) && c in Triple(DtPrefix(cols[i]));
      PeriodColumnsComplete(cols, ks, s, i, c);
    }
    if c in KeyColumns || c == LegacyCurrency {
      KeyColumnsNotPeriod();
      if c in TripleColumns(s) {
        TripleColumnsPrefixes(s, c);
      }
    }
  }

  lemma PeriodColumnsSound(cols: seq<string>, ks: seq<PeriodKey>, s: seq<PeriodKey>, c: string)
    requires DtKeys(cols) == Some(ks) && s == SortKeys(ks) && c in TripleColumns(s)
    ensures exists i :: 0 <= i < |cols| && IsDtColumn(cols[i]) && c in Triple(DtPrefix(cols[i]))
  {
    TripleColumnsMembers(s, c);
    var j :| 0 <= j < |s| && c in Triple(s[j].prefix);
    SortedKeysFrom(ks, s[j]);
    MemberFromKey(cols, s[j], c);
  }

  lemma PeriodColumnsComplete(cols: seq<string>, ks: seq<PeriodKey>, s: seq<PeriodKey>, i: nat, c: string)
    requires DtKeys(cols) == Some(ks) && s == SortKeys(ks)
    requires i < |cols| && IsDtColumn(cols[i]) && c in Triple(DtPrefix(cols[i]))
    ensures c in TripleColumns(s)
  {
    DtKeysComplete(cols);
    var k := KeyOfColumn(cols[i]).value;
    assert k.prefix == DtPrefix(cols[i]);
    SortedKeysHold(ks, k);
    var j :| 0 <= j < |s| && s[j] == k;
    assert c in Triple(s[j].prefix);
    TripleColumnsMembers(s, c);
  }

  lemma SortedKeysFrom(ks: seq<PeriodKey>, k: PeriodKey)
    requires k in SortKeys(ks)
    ensures k in ks
  {
    SortKeysSpec(ks);
    assert k in multiset(SortKeys(ks));
  }

  lemma SortedKeysHold(ks: seq<PeriodKey>, k: PeriodKey)
    requires k in ks
    ensures k in SortKeys(ks)
  {
    SortKeysSpec(ks);
    assert k in multiset(ks);
  }

  lemma MemberFromKey(cols: seq<string>, k: PeriodKey, c: string)
    requires DtKeys(cols).Some? && k in DtKeys(cols).value && c in Triple(k.prefix)
    ensures exists i :: 0 <= i < |cols| && IsDtColumn(cols[i]) && c in Triple(DtPrefix(cols[i]))
  {
    DtKeysFromColumns(cols);
    var i :| 0 <= i < |cols| && cols[i] == k.prefix + DtSuffix;
    TripleKinds(k.prefix);
    assert DtPrefix(cols[i]) == k.prefix;
  }

  /** The output is a run of triples, each for a parseable period and in
      the order dt, amount, currency, with the periods in ascending
      (year, rank, prefix) order. */
  lemma PeriodColumnsOrdered(cols: seq<string>)
    requires PeriodColumns(cols).Some?
    ensures |PeriodColumns(cols).value| % 3 == 0
    ensures var r := PeriodColumns(cols).value;
      forall i :: 0 <= i < |r| / 3 ==>
        ChunkKey(r, i).Some? && Chunk(r, i) == Triple(ChunkKey(r, i).value.prefix)
    ensures var r := PeriodColumns(cols).value;
      forall i, j :: 0 <= i < j < |r| / 3 ==> KeyLe(ChunkKey(r, i).value, ChunkKey(r, j).value)
  {
    var ks := DtKeys(cols).value;
    var s := SortKeys(ks);
    var r := PeriodColumns(cols).value;
    assert r == TripleColumns(s);
    SortKeysSpec(ks);
    TripleColumnsChunks(s);
    assert |r| / 3 == |s|;
    DtKeysReparse(cols);
    forall i | 0 <= i < |s| ensures ChunkKey(r, i) == Some(s[i]) {
      SortedKeysFrom(ks, s[i]);
      ChunkKeyOfTriple(r, i, s[i]);
    }
    forall i, j | 0 <= i < j < |s| ensures KeyLe(ChunkKey(r, i).value, ChunkKey(r, j).value) {
      assert KeyLe(s[i], s[j]);
    }
  }

  lemma ChunkKeyOfTriple(r: seq<string>, i: nat, k: PeriodKey)
    requires 3 * i + 3 <= |r| && Chunk(r, i) == Triple(k.prefix)
    requires ParsePeriodKey(k.prefix) == Some(k)
    ensures ChunkKey(r, i) == Some(k)
  {
    assert r[3 * i] == Chunk(r, i)[0];
    TripleKinds(k.prefix);
  }

  /** A period whose label is not one of the six known labels comes after
      every period of the same year with a known label. */
  lemma UnknownLabelSortsLast(cols: seq<string>)
    requires PeriodColumns(cols).Some?
    ensures var r := PeriodColumns(cols).value;
      forall i, j :: 0 <= i < |r| / 3 && 0 <= j < |r| / 3
        && ChunkKey(r, i).Some? && ChunkKey(r, j).Some?
        && ChunkKey(r, i).value.year == ChunkKey(r, j).value.year
        && ChunkKey(r, i).value.rank == 99 && ChunkKey(r, j).value.rank < 99
        ==> j < i
  {
    PeriodColumnsOrdered(cols);
    var r := PeriodColumns(cols).value;
    forall i, j | 0 <= i < |r| / 3 && 0 <= j < |r| / 3
      && ChunkKey(r, i).Some? && ChunkKey(r, j).Some?
      && ChunkKey(r, i).value.year == ChunkKey(r, j).value.year
      ensures ChunkKey(r, i).value.rank == 99 && ChunkKey(r, j).value.rank < 99 ==> j < i
    {
      OrderedRanks(cols, i, j);
    }
  }

  lemma OrderedRanks(cols: seq<string>, i: nat, j: nat)
    requires PeriodColumns(cols).Some?
    requires i < |PeriodColumns(cols).value| / 3 && j < |PeriodColumns(cols).value| / 3
    requires ChunkKey(PeriodColumns(cols).value, i).Some? && ChunkKey(PeriodColumns(cols).value, j).Some?
    ensures var r := PeriodColumns(cols).value;
      i <= j && ChunkKey(r, i).value.year == ChunkKey(r, j).value.year ==>
      ChunkKey(r, i).value.rank <= ChunkKey(r, j).value.rank
  {
    var r := PeriodColumns(cols).value;
    PeriodColumnsOrdered(cols);
    if i < j {
      assert KeyLe(ChunkKey(r, i).value, ChunkKey(r, j).value);
    }
  }

  /** Distinct input columns give distinct output columns: no period is
      listed twice. */
  lemma PeriodColumnsDistinct(cols: seq<string>)
    requires PeriodColumns(cols).Some? && Distinct(cols)
    ensures Distinct(PeriodColumns(cols).value)
  {
    var ks := DtKeys(cols).value;
    DtKeysDistinct(cols);
    SortKeysPrefixes(ks);
    TripleColumnsDistinct(SortKeys(ks));
  }

  /** A `{year}_{label}_thstrm_dt` column sorts by its year, the rank of
      its label and its prefix. */
  lemma KeyOfDtColumn(year: nat, q: string)
    ensures var p := NatToString(year) + "_" + q;
      KeyOfColumn(p + DtSuffix) == Some(PeriodKey(year, Rank(q), p))
  {
    var y := NatToString(year);
    var p := y + "_" + q;
    assert '_' !in y;
    SplitOnceAt(y, '_', q);
    assert p == y + ['_'] + q;
    ParseIntToString(year);
    TripleKinds(p);
  }
}
