/**
 * The pure rules of load_financials_to_pg.py, which loads the per-company
 * wide tables into PostgreSQL: the connection settings taken from the
 * environment, the period-prefix parse with its Korean-to-standard quarter
 * codes, the recognition and grouping of the date/amount/currency column
 * triples, the normalisation of a period's date, and the conversion of an
 * amount cell.
 */
module Loader {
  import opened Text
  import opened Seqs
  import opened Sheet
  import opened Periods

  // =====================================================================
  // Connection settings
  // =====================================================================

  /** The fallback settings used where a variable is unset or empty. The
      fallback password is a parameter of the model. */
  const DefaultHost: string := "127.0.0.1"
  const DefaultPort: string := "5432"
  const DefaultDatabase: string := "david"
  const DefaultUser: string := "inhyuk"

  datatype Settings = Settings(host: string, port: nat, database: string, user: string, password: string)

  /** `get_env_or_default`: the variable's value, unless it is unset or
      the empty string. */
  function EnvOrDefault(env: map<string, string>, name: string, default: string): string
  {
    if name in env && env[name] != "" then env[name] else default
  }

  /** The settings the script connects with; `Err` where the port text is
      not all digits (the script raises before connecting). */
  function Connect(env: map<string, string>, defaultPassword: string): Result<Settings>
  {
    var portText := EnvOrDefault(env, "PGPORT", DefaultPort);
    if !IsDigitString(portText) then Err("PGPORT must be an integer")
    else
      Ok(Settings(EnvOrDefault(env, "PGHOST", DefaultHost), DigitsValue(portText),
                  EnvOrDefault(env, "PGDATABASE", DefaultDatabase),
                  EnvOrDefault(env, "PGUSER", DefaultUser),
                  EnvOrDefault(env, "PGPASSWORD", defaultPassword)))
  }

  /** With nothing set, the fallbacks are used and the port is 5432. */
  lemma ConnectDefaults(defaultPassword: string)
    ensures Connect(map[], defaultPassword) ==
      Ok(Settings(DefaultHost, 5432, DefaultDatabase, DefaultUser, defaultPassword))
  {
    assert DigitsValue("5") == 5;
    assert "54"[..1] == "5";
    assert "543"[..2] == "54";
    assert DefaultPort[..3] == "543";
  }

  /** A variable set to the empty string counts as unset. */
  lemma ConnectEmptyIsUnset(env: map<string, string>, name: string, defaultPassword: string)
    ensures Connect(env[name := ""], defaultPassword) == Connect(env - {name}, defaultPassword)
  {
    var e1, e2 := env[name := ""], env - {name};
    forall v, d ensures EnvOrDefault(e1, v, d) == EnvOrDefault(e2, v, d) {
      if v != name {
        assert (v in e1) == (v in e2);
        if v in e1 {
          assert e1[v] == e2[v];
        }
      }
    }
  }

  /** A port given in decimal is the port connected to. */
  lemma ConnectPort(env: map<string, string>, n: nat, defaultPassword: string)
    ensures Connect(env["PGPORT" := NatToString(n)], defaultPassword).Ok?
    ensures Connect(env["PGPORT" := NatToString(n)], defaultPassword).value.port == n
  {
    NatToStringValue(n);
  }

  /** A port text that is set and holds anything but digits is refused. */
  lemma ConnectRejectsPort(env: map<string, string>, s: string, defaultPassword: string)
    requires s != "" && !AllDigits(s)
    ensures Connect(env["PGPORT" := s], defaultPassword).Err?
  {
  }

  // =====================================================================
  // parse_period
  // =====================================================================

  /** `Q_KOR_TO_STD`. */
  const QKorToStd: map<string, string> :=
    map["1분기" := "1Q", "반기" := "2Q", "3분기" := "3Q", "사업보고서" := "4Q"]

  /** `Q_KOR_TO_STD.get(q, q)`. */
  function QuarterCode(q: string): string
  {
    if q in QKorToStd then QKorToStd[q] else q
  }

  /** The standard codes of the four report labels, each label mapped to a
      different code; any other label is its own code, and only those. */
  lemma QuarterCodeSpec(q: string)
    ensures QuarterCode("1분기") == "1Q" && QuarterCode("반기") == "2Q"
    ensures QuarterCode("3분기") == "3Q" && QuarterCode("사업보고서") == "4Q"
    ensures QuarterCode(q) == q <==> q !in QKorToStd
    ensures forall a, b :: a in QKorToStd && b in QKorToStd && a != b ==> QuarterCode(a) != QuarterCode(b)
  {
  }

  /** The year, the report label and its standard code of a period prefix. */
  datatype Period = Period(year: int, report: string, quarter: string)

  /** `parse_period`: split at the first `_`, the year part through `int`;
      `None` where the unpacking or `int` raises. */
  function ParsePeriod(prefix: string): Option<Period>
  {
    match SplitOnce(prefix, '_')
    case None => None
    case Some((y, q)) =>
      match ParseInt(y)
      case None => None
      case Some(year) => Some(Period(year, q, QuarterCode(q)))
  }

  lemma {:induction false} NatToStringNoUnderscore(n: nat)
    ensures '_' !in NatToString(n)
    decreases n
  {
    if n >= 10 {
      NatToStringNoUnderscore(n / 10);
    }
  }

  /** A prefix `<year>_<label>` gives back its year, its label (which may
      itself hold `_`) and the label's code. */
  lemma ParsePeriodOf(year: int, name: string)
    ensures ParsePeriod(IntToString(year) + "_" + name) == Some(Period(year, name, QuarterCode(name)))
  {
    var y := IntToString(year);
    if year < 0 {
      NatToStringNoUnderscore(-year);
    } else {
      NatToStringNoUnderscore(year);
    }
    assert '_' !in y;
    SplitOnceAt(y, '_', name);
    ParseIntToString(year);
  }

  /** The loader and the merge read the same year out of a prefix, and
      either both can or neither can. */
  lemma ParsePeriodAgrees(prefix: string)
    ensures ParsePeriod(prefix).Some? <==> ParsePeriodKey(prefix).Some?
    ensures ParsePeriod(prefix).Some? ==> ParsePeriod(prefix).value.year == ParsePeriodKey(prefix).value.year
    ensures ParsePeriod(prefix).Some? ==> ParsePeriodKey(prefix).value.rank == Rank(ParsePeriod(prefix).value.report)
  {
  }

  // =====================================================================
  // Recognising the triple columns
  // =====================================================================

  /** Which of the three columns of a period a column is. */
  datatype Kind = Dt | Amount | Currency

  function KindSuffix(k: Kind): string
  {
    match k
    case Dt => DtSuffix
    case Amount => AmountSuffix
    case Currency => CurrencySuffix
  }

  /** The kind whose `_thstrm_` suffix starts at position `j` of `c`; the
      alternatives are tried in the order dt, amount, currency. */
  function KindAt(c: string, j: nat): Option<Kind>
    requires j <= |c|
  {
    if StartsWith(c[j..], DtSuffix) then Some(Dt)
    else if StartsWith(c[j..], AmountSuffix) then Some(Amount)
    else if StartsWith(c[j..], CurrencySuffix) then Some(Currency)
    else None
  }

  /** A kind is found exactly where its suffix starts. */
  lemma KindAtSpec(c: string, j: nat)
    requires j <= |c|
    ensures KindAt(c, j).Some? ==> StartsWith(c[j..], KindSuffix(KindAt(c, j).value))
    ensures KindAt(c, j).None? <==> forall k :: !StartsWith(c[j..], KindSuffix(k))
  {
    if KindAt(c, j).None? {
      forall k ensures !StartsWith(c[j..], KindSuffix(k)) {
      }
    }
  }

  /** The last position in `[6, j]` where a suffix starts. */
  function LastKindAt(c: string, j: nat): (r: Option<(nat, Kind)>)
    requires 6 <= j <= |c|
    ensures r.Some? ==> 6 <= r.value.0 <= j
    decreases j
  {
    if KindAt(c, j).Some? then Some((j, KindAt(c, j).value))
    else if j == 6 then None
    else LastKindAt(c, j - 1)
  }

  /** How far `.` can reach from position 5: up to the first line break. */
  function Horizon(c: string): (h: nat)
    requires |c| >= 5
    ensures 5 <= h <= |c| && '\n' !in c[5..h]
    ensures forall j :: h < j <= |c| ==> '\n' in c[5..j]
  {
    var t := c[5..];
    if '\n' in t then
      var i := IndexOf(t, '\n');
      assert c[5..5 + i] == t[..i];
      assert forall j :: 5 + i < j <= |c| ==> c[5..j][i] == '\n';
      5 + i
    else |c|
  }

  /** The shape `\d{4}_.+` asks of a period prefix: four digits, `_`, then
      at least one character, none a line break. */
  predicate PrefixShape(p: string)
  {
    |p| >= 6 && AllDigits(p[..4]) && p[4] == '_' && '\n' !in p[5..]
  }

  /** `re.match(r"(\d{4}_.+)_thstrm_(dt|amount|currency)", c)`: anchored at
      the start only, and `.+` greedy, so the LAST suffix the prefix can
      reach is the one matched. The groups are the prefix and the kind. */
  function MatchColumn(c: string): Option<(string, Kind)>
  {
    if |c| < 6 || !AllDigits(c[..4]) || c[4] != '_' then None
    else
      var h := Horizon(c);
      if h < 6 then None
      else
        match LastKindAt(c, h)
        case None => None
        case Some((j, k)) => Some((c[..j], k))
  }

  lemma {:induction false} LastKindAtNone(c: string, h: nat, j: nat)
    requires 6 <= j <= h <= |c|
    ensures LastKindAt(c, h).None? ==> KindAt(c, j).None?
    decreases h
  {
    if KindAt(c, h).None? && j < h {
      LastKindAtNone(c, h - 1, j);
    }
  }

  lemma {:induction false} LastKindAtLast(c: string, h: nat, j: nat)
    requires 6 <= h <= |c| && LastKindAt(c, h).Some? && LastKindAt(c, h).value.0 < j <= h
    ensures KindAt(c, j).None?
    decreases h
  {
    LastKindAtBelow(c, h);
    if j < h {
      LastKindAtLast(c, h - 1, j);
    }
  }

  /** The suffix found is the kind found at that position. */
  lemma {:induction false} LastKindAtFound(c: string, h: nat)
    requires 6 <= h <= |c| && LastKindAt(c, h).Some?
    ensures KindAt(c, LastKindAt(c, h).value.0) == Some(LastKindAt(c, h).value.1)
    decreases h
  {
    if KindAt(c, h).None? {
      LastKindAtFound(c, h - 1);
    }
  }

  lemma LastKindAtBelow(c: string, h: nat)
    requires 6 <= h <= |c| && LastKindAt(c, h).Some? && LastKindAt(c, h).value.0 < h
    ensures KindAt(c, h).None? && h > 6 && LastKindAt(c, h) == LastKindAt(c, h - 1)
  {
  }

  lemma LastKindAtSpec(c: string, h: nat)
    requires 6 <= h <= |c|
    ensures LastKindAt(c, h).Some? ==> forall j :: LastKindAt(c, h).value.0 < j <= h ==> KindAt(c, j).None?
    ensures LastKindAt(c, h).None? ==> forall j :: 6 <= j <= h ==> KindAt(c, j).None?
    ensures LastKindAt(c, h).Some? ==> KindAt(c, LastKindAt(c, h).value.0) == Some(LastKindAt(c, h).value.1)
  {
    forall j | 6 <= j <= h ensures LastKindAt(c, h).None? ==> KindAt(c, j).None? {
      LastKindAtNone(c, h, j);
    }
    if LastKindAt(c, h).Some? {
      LastKindAtFound(c, h);
      forall j | LastKindAt(c, h).value.0 < j <= h ensures KindAt(c, j).None? {
        LastKindAtLast(c, h, j);
      }
    }
  }

  /** What a match means: the column starts with a well-shaped prefix and
      the kind's suffix. */
  lemma MatchColumnSound(c: string)
    requires MatchColumn(c).Some?
    ensures PrefixShape(MatchColumn(c).value.0)
    ensures StartsWith(c, MatchColumn(c).value.0 + KindSuffix(MatchColumn(c).value.1))
  {
    var h := Horizon(c);
    var j, k := LastKindAt(c, h).value.0, LastKindAt(c, h).value.1;
    assert MatchColumn(c).value == (c[..j], k);
    LastKindAtFound(c, h);
    CutShape(c, h, j);
    CutThenSuffix(c, j, k);
  }

  /** Cutting a column inside the reach of `.` leaves a well-shaped prefix. */
  lemma CutShape(c: string, h: nat, j: nat)
    requires 6 <= j <= h <= |c| && AllDigits(c[..4]) && c[4] == '_' && '\n' !in c[5..h]
    ensures PrefixShape(c[..j])
  {
    var p := c[..j];
    assert p[..4] == c[..4] && p[5..] == c[5..h][..j - 5];
  }

  /** Where a kind is found, the column is the prefix before it, then its
      suffix, then the rest. */
  lemma CutThenSuffix(c: string, j: nat, k: Kind)
    requires j <= |c| && KindAt(c, j) == Some(k)
    ensures StartsWith(c, c[..j] + KindSuffix(k))
  {
    KindAtSpec(c, j);
    assert c[j..][..|KindSuffix(k)|] == KindSuffix(k);
    assert (c[..j] + KindSuffix(k)) == c[..j + |KindSuffix(k)|];
  }

  /** The match is greedy: no suffix starts further right within the
      prefix's reach. */
  lemma MatchColumnGreedy(c: string, j: nat)
    requires MatchColumn(c).Some? && |MatchColumn(c).value.0| < j <= |c| && '\n' !in c[5..j]
    ensures KindAt(c, j).None?
  {
    var h := Horizon(c);
    LastKindAtSpec(c, h);
  }

  /** A column has a match whenever a well-shaped prefix is followed by a
      suffix. */
  lemma MatchColumnComplete(c: string, j: nat)
    requires 6 <= j <= |c| && PrefixShape(c[..j]) && KindAt(c, j).Some?
    ensures MatchColumn(c).Some?
  {
    assert c[..j][..4] == c[..4] && c[..j][4] == c[4];
    var h := Horizon(c);
    assert c[..j][5..] == c[5..j];
    LastKindAtSpec(c, h);
  }

  /** Inside a suffix no `_t` begins after its first character, so no
      suffix starts within another. */
  lemma SuffixHasNoInnerSuffix(k: Kind, o: nat)
    requires 0 < o <= |KindSuffix(k)|
    ensures KindAt(KindSuffix(k), o).None?
  {
    var x := KindSuffix(k);
    forall i | 0 < i < |x| - 1 && x[i] == '_' ensures x[i + 1] != 't' {
      InnerUnderscore(k, i);
    }
    KindAtSpec(x, o);
    forall k' ensures !StartsWith(x[o..], KindSuffix(k')) {
      var y := KindSuffix(k');
      assert y[0] == '_' && y[1] == 't' && |y| >= 10;
      if |y| <= |x| - o {
        assert x[o..][0] == x[o] && x[o..][1] == x[o + 1];
      }
    }
  }

  /** The only inner `_` of a suffix is the one before its kind name. */
  lemma InnerUnderscore(k: Kind, i: nat)
    requires 0 < i < |KindSuffix(k)| - 1 && KindSuffix(k)[i] == '_'
    ensures i == 7
  {
    match k
    case Dt =>
    case Amount =>
    case Currency =>
  }

  /** Each suffix is recognised as its own kind. */
  lemma KindOfSuffix(k: Kind)
    ensures KindAt(KindSuffix(k), 0) == Some(k)
  {
    var x := KindSuffix(k);
    assert x[0..] == x;
    assert DtSuffix[8] == 'd' && AmountSuffix[8] == 'a' && CurrencySuffix[8] == 'c';
  }

  /** The column names the merge writes are matched back to their prefix and
      kind. */
  lemma MatchColumnOf(p: string, k: Kind)
    requires PrefixShape(p)
    ensures MatchColumn(p + KindSuffix(k)) == Some((p, k))
  {
    var c := p + KindSuffix(k);
    assert c[..4] == p[..4] && c[4] == p[4];
    KindAfterPrefix(p, k);
    HorizonOfColumn(p, k);
    forall j | |p| < j <= |c| ensures KindAt(c, j).None? {
      NoKindInSuffix(p, k, j);
    }
    LastKindAtSpec(c, |c|);
  }

  lemma KindAfterPrefix(p: string, k: Kind)
    ensures KindAt(p + KindSuffix(k), |p|) == Some(k)
  {
    var x := KindSuffix(k);
    assert (p + x)[|p|..] == x[0..];
    KindOfSuffix(k);
  }

  /** `.` reaches the end of a column built from a well-shaped prefix. */
  lemma HorizonOfColumn(p: string, k: Kind)
    requires PrefixShape(p)
    ensures Horizon(p + KindSuffix(k)) == |p + KindSuffix(k)|
  {
    var x := KindSuffix(k);
    assert '\n' !in x;
    assert (p + x)[5..] == p[5..] + x;
  }

  lemma NoKindInSuffix(p: string, k: Kind, j: nat)
    requires |p| < j <= |p + KindSuffix(k)|
    ensures KindAt(p + KindSuffix(k), j).None?
  {
    var x := KindSuffix(k);
    assert (p + x)[j..] == x[j - |p|..];
    SuffixHasNoInnerSuffix(k, j - |p|);
  }

  function Pow10(n: nat): nat
  {
    if n == 0 then 1 else 10 * Pow10(n - 1)
  }

  /** A string of `n` digits denotes a number below `10^n`. */
  lemma {:induction false} DigitsValueBound(s: string)
    requires AllDigits(s)
    ensures DigitsValue(s) < Pow10(|s|)
    decreases |s|
  {
    if s != [] {
      DigitsValueBound(s[..|s| - 1]);
    }
  }

  lemma FourDigitsValue(y: string)
    requires |y| == 4 && AllDigits(y)
    ensures DigitsValue(y) <= 9999
  {
    DigitsValueBound(y);
    assert Pow10(4) == 10000;
  }

  /** Every prefix the pattern recognises parses: the loop's
      `parse_period` never raises, and the year has at most four digits. */
  lemma MatchedPrefixParses(c: string)
    requires MatchColumn(c).Some?
    ensures ParsePeriod(MatchColumn(c).value.0).Some?
    ensures 0 <= ParsePeriod(MatchColumn(c).value.0).value.year <= 9999
  {
    MatchColumnSound(c);
    ShapedPrefixParses(MatchColumn(c).value.0);
  }

  lemma ShapedPrefixParses(p: string)
    requires PrefixShape(p)
    ensures ParsePeriod(p).Some? && 0 <= ParsePeriod(p).value.year <= 9999
  {
    var y := p[..4];
    assert p == y + ['_'] + p[5..];
    assert '_' !in y by {
      forall i | 0 <= i < 4 ensures y[i] != '_' {
        assert IsAsciiDigit(y[i]);
      }
    }
    SplitOnceAt(y, '_', p[5..]);
    StripNoSpace(y);
    FourDigitsValue(y);
  }

  // =====================================================================
  // Grouping the triples
  // =====================================================================

  /** The columns of one period by kind. */
  type Parts = map<Kind, string>

  /** The `triples` dict: its prefixes in insertion order, and each
      prefix's columns by kind. */
  datatype Grouping = Grouping(order: seq<string>, parts: map<string, Parts>)

  /** One column through `triples.setdefault(prefix, {})[kind] = c`. */
  function AddColumn(g: Grouping, c: string): Grouping
  {
    match MatchColumn(c)
    case None => g
    case Some((p, k)) =>
      var prev := if p in g.parts then g.parts[p] else map[];
      Grouping(if p in g.parts then g.order else g.order + [p], g.parts[p := prev[k := c]])
  }

  /** The grouping of a sheet's columns, column by column. */
  function Group(cols: seq<string>): Grouping
    decreases |cols|
  {
    if cols == [] then Grouping([], map[]) else AddColumn(Group(cols[..|cols| - 1]), cols[|cols| - 1])
  }

  /** The loop of the main script that fills `triples`. */
  method GroupTriples(cols: seq<string>) returns (order: seq<string>, triples: map<string, Parts>)
    ensures Grouping(order, triples) == Group(cols)
  {
    order, triples := [], map[];
    var i := 0;
    while i < |cols|
      invariant 0 <= i <= |cols|
      invariant Grouping(order, triples) == Group(cols[..i])
    {
      assert cols[..i + 1][..i] == cols[..i];
      var c := cols[i];
      var m := MatchColumn(c);
      if m.Some? {
        var p, k := m.value.0, m.value.1;
        if p !in triples {
          triples := triples[p := map[]];
          order := order + [p];
        }
        triples := triples[p := triples[p][k := c]];
      }
      i := i + 1;
    }
    assert cols[..i] == cols;
  }

  /** A grouping whose order lists each of its prefixes once. */
  predicate OrderMatches(g: Grouping)
  {
    Distinct(g.order) && (forall p :: p in g.order ==> p in g.parts) && forall p :: p in g.parts ==> p in g.order
  }

  /** The column a prefix and kind are grouped under, if any. */
  predicate Grouped(g: Grouping, p: string, k: Kind)
  {
    p in g.parts && k in g.parts[p]
  }

  /** Every prefix is listed once, and no prefix has an empty group. */
  lemma {:induction false} GroupOrder(cols: seq<string>)
    ensures OrderMatches(Group(cols))
    ensures forall p :: p in Group(cols).parts ==> Group(cols).parts[p] != map[]
    decreases |cols|
  {
    if cols != [] {
      var n := |cols| - 1;
      GroupOrder(cols[..n]);
      var g := Group(cols[..n]);
      var m := MatchColumn(cols[n]);
      if m.Some? {
        var q, k := m.value.0, m.value.1;
        var prev := if q in g.parts then g.parts[q] else map[];
        assert k in prev[k := cols[n]];
        if q !in g.parts {
          DistinctLast(g.order + [q]);
        }
      }
    }
  }

  /** A kind of a prefix is grouped exactly when some column matches them. */
  lemma {:induction false} GroupMembers(cols: seq<string>, p: string, k: Kind)
    ensures Grouped(Group(cols), p, k) <==> exists i :: 0 <= i < |cols| && MatchColumn(cols[i]) == Some((p, k))
    decreases |cols|
  {
    if cols != [] {
      var n := |cols| - 1;
      var front := cols[..n];
      GroupMembers(front, p, k);
      GroupedAdd(Group(front), cols[n], p, k);
      if exists i :: 0 <= i < |cols| && MatchColumn(cols[i]) == Some((p, k)) {
        var i :| 0 <= i < |cols| && MatchColumn(cols[i]) == Some((p, k));
        if i < n {
          assert front[i] == cols[i];
        }
      }
      if exists i :: 0 <= i < n && MatchColumn(front[i]) == Some((p, k)) {
        var i :| 0 <= i < n && MatchColumn(front[i]) == Some((p, k));
        assert cols[i] == front[i];
      }
    }
  }

  lemma GroupedAdd(g: Grouping, c: string, p: string, k: Kind)
    ensures Grouped(AddColumn(g, c), p, k) <==> Grouped(g, p, k) || MatchColumn(c) == Some((p, k))
  {
  }

  /** A grouped kind holds the last column that matches it. */
  lemma {:induction false} GroupLast(cols: seq<string>, p: string, k: Kind)
    requires Grouped(Group(cols), p, k)
    ensures exists i :: (0 <= i < |cols| && cols[i] == Group(cols).parts[p][k] &&
      forall j :: i < j < |cols| ==> MatchColumn(cols[j]) != Some((p, k)))
    decreases |cols|
  {
    var n := |cols| - 1;
    var front := cols[..n];
    if MatchColumn(cols[n]) == Some((p, k)) {
      assert cols[n] == Group(cols).parts[p][k];
    } else {
      assert Group(cols).parts[p][k] == Group(front).parts[p][k];
      GroupLast(front, p, k);
      var i :| 0 <= i < n && front[i] == Group(front).parts[p][k] &&
        forall j :: i < j < n ==> MatchColumn(front[j]) != Some((p, k));
      assert cols[i] == front[i];
      forall j | i < j < |cols| ensures MatchColumn(cols[j]) != Some((p, k)) {
        if j < n {
          assert cols[j] == front[j];
        }
      }
    }
  }

  /** Every prefix is listed once, in the order of its first column; a
      kind of a prefix is grouped exactly when some column matches them,
      and then under the last such column. */
  lemma GroupSpec(cols: seq<string>)
    ensures OrderMatches(Group(cols))
    ensures forall p, k :: Grouped(Group(cols), p, k) <==>
      exists i :: 0 <= i < |cols| && MatchColumn(cols[i]) == Some((p, k))
    ensures forall p, k :: Grouped(Group(cols), p, k) ==>
      exists i :: (0 <= i < |cols| && cols[i] == Group(cols).parts[p][k] &&
        forall j :: i < j < |cols| ==> MatchColumn(cols[j]) != Some((p, k)))
    ensures forall p :: p in Group(cols).parts ==> Group(cols).parts[p] != map[]
  {
    GroupOrder(cols);
    forall p, k ensures Grouped(Group(cols), p, k) <==>
      exists i :: 0 <= i < |cols| && MatchColumn(cols[i]) == Some((p, k)) {
      GroupMembers(cols, p, k);
    }
    forall p, k | Grouped(Group(cols), p, k)
      ensures exists i :: (0 <= i < |cols| && cols[i] == Group(cols).parts[p][k] &&
        forall j :: i < j < |cols| ==> MatchColumn(cols[j]) != Some((p, k)))
    {
      GroupLast(cols, p, k);
    }
  }

  /** The full triple of one period, as the merge writes it. */
  function FullParts(p: string): Parts
  {
    map[Dt := p + DtSuffix, Amount := p + AmountSuffix, Currency := p + CurrencySuffix]
  }

  function Prefixes(ks: seq<PeriodKey>): (r: seq<string>)
    ensures |r| == |ks| && forall i :: 0 <= i < |ks| ==> r[i] == ks[i].prefix
    decreases |ks|
  {
    if ks == [] then [] else Prefixes(ks[..|ks| - 1]) + [ks[|ks| - 1].prefix]
  }

  /** Grouping one more column. */
  lemma GroupSnoc(cols: seq<string>, c: string)
    ensures Group(cols + [c]) == AddColumn(Group(cols), c)
  {
    assert (cols + [c])[..|cols|] == cols;
  }

  /** A new period's three columns add that period with all three kinds. */
  lemma GroupTriple(cols: seq<string>, p: string)
    requires PrefixShape(p) && p !in Group(cols).parts
    ensures Group(cols + Triple(p)) ==
      Grouping(Group(cols).order + [p], Group(cols).parts[p := FullParts(p)])
  {
    var d, a, u := p + DtSuffix, p + AmountSuffix, p + CurrencySuffix;
    GroupSnoc(cols, d);
    GroupSnoc(cols + [d], a);
    GroupSnoc(cols + [d, a], u);
    SnocThree(cols, d, a, u);
    AddTriple(Group(cols), p);
  }

  /** The three columns of a period not yet seen, added to any grouping. */
  lemma AddTriple(g: Grouping, p: string)
    requires PrefixShape(p) && p !in g.parts
    ensures AddColumn(AddColumn(AddColumn(g, p + DtSuffix), p + AmountSuffix), p + CurrencySuffix) ==
      Grouping(g.order + [p], g.parts[p := FullParts(p)])
  {
    var d, a, u := p + DtSuffix, p + AmountSuffix, p + CurrencySuffix;
    var g1 := Grouping(g.order + [p], g.parts[p := map[Dt := d]]);
    var g2 := Grouping(g1.order, g.parts[p := map[Dt := d, Amount := a]]);
    AddNewKind(g, p, Dt, d);
    AddSeenKind(g1, p, Amount, a);
    assert g1.parts[p := g1.parts[p][Amount := a]] == g2.parts;
    AddSeenKind(g2, p, Currency, u);
    assert g2.parts[p := g2.parts[p][Currency := u]] == g.parts[p := FullParts(p)];
  }

  /** The first column of a well-shaped period lists the period. */
  lemma AddNewKind(g: Grouping, p: string, k: Kind, c: string)
    requires PrefixShape(p) && c == p + KindSuffix(k) && p !in g.parts
    ensures AddColumn(g, c) == Grouping(g.order + [p], g.parts[p := map[k := c]])
  {
    MatchColumnOf(p, k);
  }

  /** A later column of a listed period is filed under its kind. */
  lemma AddSeenKind(g: Grouping, p: string, k: Kind, c: string)
    requires PrefixShape(p) && c == p + KindSuffix(k) && p in g.parts
    ensures AddColumn(g, c) == Grouping(g.order, g.parts[p := g.parts[p][k := c]])
  {
    MatchColumnOf(p, k);
  }

  /** Columns no pattern matches group to nothing. */
  lemma {:induction false} GroupUnmatched(cols: seq<string>)
    requires forall i :: 0 <= i < |cols| ==> MatchColumn(cols[i]).None?
    ensures Group(cols) == Grouping([], map[])
    decreases |cols|
  {
    if cols != [] {
      GroupUnmatched(cols[..|cols| - 1]);
    }
  }

  /** The key columns are ignored by the pattern. */
  lemma KeyColumnsUnmatched()
    ensures forall i :: 0 <= i < |KeyColumns| ==> MatchColumn(KeyColumns[i]).None?
  {
    forall i | 0 <= i < |KeyColumns| ensures MatchColumn(KeyColumns[i]).None? {
      var c := KeyColumns[i];
      assert !IsAsciiDigit(c[0]);
      if |c| >= 6 {
        assert c[..4][0] == c[0];
      }
    }
  }

  /** A sheet laid out as the merge writes it (key columns, then one triple
      per period) groups back to those periods, in the same order, each with
      its three columns, provided every year has four digits. */
  lemma {:induction false} GroupLayout(ks: seq<PeriodKey>)
    requires DistinctPrefixes(ks)
    requires forall i :: 0 <= i < |ks| ==> PrefixShape(ks[i].prefix)
    ensures Group(KeyColumns + TripleColumns(ks)) ==
      Grouping(Prefixes(ks), map p | p in Prefixes(ks) :: FullParts(p))
    decreases |ks|
  {
    if ks == [] {
      KeyColumnsUnmatched();
      assert KeyColumns + TripleColumns(ks) == KeyColumns;
      GroupUnmatched(KeyColumns);
      assert (map p | p in Prefixes(ks) :: FullParts(p)) == map[];
    } else {
      var n := |ks| - 1;
      var front, q := ks[..n], ks[n].prefix;
      assert DistinctPrefixes(front);
      GroupLayout(front);
      var cols := KeyColumns + TripleColumns(front);
      assert KeyColumns + TripleColumns(ks) == cols + Triple(q);
      assert q !in Prefixes(front);
      GroupTriple(cols, q);
      assert Prefixes(ks) == Prefixes(front) + [q];
      FullPartsSnoc(Prefixes(front), q);
    }
  }

  lemma FullPartsSnoc(ps: seq<string>, q: string)
    ensures (map p | p in ps + [q] :: FullParts(p)) == (map p | p in ps :: FullParts(p))[q := FullParts(q)]
  {
  }

  // =====================================================================
  // The period date of a report
  // =====================================================================

  /** The text a date is looked for in: with a `~`, the stripped text
      before the first one. */
  function DatePart(s: string): string
  {
    if '~' in s then Strip(Split(s, '~')[0]) else s
  }

  predicate IsDateSeparator(ch: char) { ch == '.' || ch == '-' }

  /** `(\d{4})[.-](\d{2})[.-](\d{2})` matches at position `i`. */
  predicate DateAt(s: string, i: nat)
  {
    i + 10 <= |s| && AllDigits(s[i..i + 4]) && IsDateSeparator(s[i + 4]) &&
    AllDigits(s[i + 5..i + 7]) && IsDateSeparator(s[i + 7]) && AllDigits(s[i + 8..i + 10])
  }

  /** `re.search`: the leftmost position from `i` on where the pattern
      matches (the pattern has a fixed length). */
  function FirstDate(s: string, i: nat): (r: Option<nat>)
    ensures r.Some? ==> i <= r.value && DateAt(s, r.value)
    decreases |s| - i
  {
    if i + 10 > |s| then None else if DateAt(s, i) then Some(i) else FirstDate(s, i + 1)
  }

  /** The match at `i` rewritten as `YYYY-MM-DD`. */
  function DateText(s: string, i: nat): string
    requires DateAt(s, i)
  {
    s[i..i + 4] + "-" + s[i + 5..i + 7] + "-" + s[i + 8..i + 10]
  }

  /** The fallback `{year}-01-01`. */
  function DefaultDate(year: int): string
  {
    IntToString(year) + "-01-01"
  }

  /** The period date `get_or_create_report` stores. */
  function NormalizeDate(year: int, dt: Cell): string
  {
    if dt == Empty then DefaultDate(year)
    else
      var d := DatePart(CellText(dt));
      match FirstDate(d, 0)
      case None => DefaultDate(year)
      case Some(i) => DateText(d, i)
  }

  lemma {:induction false} FirstDateSpec(s: string, i: nat)
    ensures FirstDate(s, i).Some? ==> forall j :: i <= j < FirstDate(s, i).value ==> !DateAt(s, j)
    ensures FirstDate(s, i).None? ==> forall j :: i <= j ==> !DateAt(s, j)
    decreases |s| - i
  {
    if i + 10 <= |s| && !DateAt(s, i) {
      FirstDateSpec(s, i + 1);
    }
  }

  /** A missing date gives the year's first day; otherwise the leftmost
      date in the date part is taken, and the year's first day where there
      is none. */
  lemma NormalizeDateSpec(year: int, dt: Cell)
    ensures dt == Empty ==> NormalizeDate(year, dt) == DefaultDate(year)
    ensures dt != Empty && (forall i :: !DateAt(DatePart(CellText(dt)), i)) ==>
      NormalizeDate(year, dt) == DefaultDate(year)
    ensures forall i: nat :: (dt != Empty && DateAt(DatePart(CellText(dt)), i) &&
      (forall j :: 0 <= j < i ==> !DateAt(DatePart(CellText(dt)), j))) ==>
      NormalizeDate(year, dt) == DateText(DatePart(CellText(dt)), i)
  {
    if dt != Empty {
      var d := DatePart(CellText(dt));
      FirstDateSpec(d, 0);
      forall i: nat | DateAt(d, i) && (forall j :: 0 <= j < i ==> !DateAt(d, j))
        ensures NormalizeDate(year, dt) == DateText(d, i)
      {
        assert FirstDate(d, 0).Some?;
        assert FirstDate(d, 0).value == i;
      }
    }
  }

  /** Only the text before the first `~` matters, and it is stripped. */
  lemma NormalizeDateRange(year: int, a: string, b: string)
    requires '~' !in a
    ensures NormalizeDate(year, Str(a + "~" + b)) == NormalizeDate(year, Str(Strip(a)))
  {
    DatePartOfRange(a, b);
    StripKeepsAbsent(a, '~');
    var t := Strip(a);
    assert DatePart(t) == t;
    SameDatePart(year, a + "~" + b, t);
  }

  lemma SameDatePart(year: int, x: string, y: string)
    requires DatePart(x) == DatePart(y)
    ensures NormalizeDate(year, Str(x)) == NormalizeDate(year, Str(y))
  {
    assert CellText(Str(x)) == x && CellText(Str(y)) == y;
  }

  lemma DatePartOfRange(a: string, b: string)
    requires '~' !in a
    ensures DatePart(a + "~" + b) == Strip(a)
  {
    SplitCons(a, '~', b);
    assert a + "~" + b == a + ['~'] + b;
  }

  /** Stripping never brings in a character. */
  lemma StripKeepsAbsent(a: string, ch: char)
    requires ch !in a
    ensures ch !in Strip(a)
  {
    var l := LStrip(a);
    forall i | 0 <= i < |l| ensures l[i] != ch {
      assert l[i] == a[|a| - |l| + i];
    }
    var t := RStrip(l);
    forall i | 0 <= i < |t| ensures t[i] != ch {
      assert t[i] == l[i];
    }
  }

  /** `YYYY-MM-DD`. */
  predicate IsIsoDate(r: string)
  {
    |r| == 10 && DateAt(r, 0) && r[4] == '-' && r[7] == '-'
  }

  lemma FourDigitYear(n: nat)
    requires 1000 <= n <= 9999
    ensures |NatToString(n)| == 4
  {
    assert |NatToString(n / 1000)| == 1;
    assert n / 100 / 10 == n / 1000;
    assert |NatToString(n / 100)| == 2;
    assert n / 10 / 10 == n / 100;
    assert |NatToString(n / 10)| == 3;
  }

  /** The stored date is `YYYY-MM-DD` whenever a date was found or the year
      has four digits. */
  lemma NormalizeDateShape(year: int, dt: Cell)
    ensures dt != Empty && FirstDate(DatePart(CellText(dt)), 0).Some? ==> IsIsoDate(NormalizeDate(year, dt))
    ensures 1000 <= year <= 9999 ==> IsIsoDate(NormalizeDate(year, dt))
  {
    if dt == Empty {
      if 1000 <= year <= 9999 {
        DefaultDateShape(year);
      }
    } else {
      var d := DatePart(CellText(dt));
      match FirstDate(d, 0)
      case None =>
        if 1000 <= year <= 9999 {
          DefaultDateShape(year);
        }
      case Some(i) => DateTextShape(d, i);
    }
  }

  lemma DefaultDateShape(year: int)
    requires 1000 <= year <= 9999
    ensures IsIsoDate(DefaultDate(year))
  {
    var r := DefaultDate(year);
    FourDigitYear(year);
    var y := NatToString(year);
    assert r == y + "-01-01";
    assert r[..4] == y;
    assert r[4] == '-' && r[5] == '0' && r[6] == '1' && r[7] == '-' && r[8] == '0' && r[9] == '1';
    assert AllDigits(r[5..7]) && AllDigits(r[8..10]);
  }

  lemma DateTextShape(s: string, i: nat)
    requires DateAt(s, i)
    ensures IsIsoDate(DateText(s, i))
  {
    var r := DateText(s, i);
    assert r[..4] == s[i..i + 4];
    assert r[5..7] == s[i + 5..i + 7];
    assert r[8..10] == s[i + 8..i + 10];
  }

  /** A stored date normalises to itself. */
  lemma NormalizeIsoDate(year: int, r: string)
    requires IsIsoDate(r)
    ensures NormalizeDate(year, Str(r)) == r
  {
    assert '~' !in r by {
      forall i | 0 <= i < |r| ensures r[i] != '~' {
        if i < 4 { assert r[..4][i] == r[i]; }
        else if 4 < i < 7 { assert r[5..7][i - 5] == r[i]; }
        else if 7 < i { assert r[8..10][i - 8] == r[i]; }
      }
    }
    assert r[0..4] == r[..4];
  }

  /** Normalising a date twice is normalising it once, for a year of four
      digits. */
  lemma NormalizeDateIdempotent(year: int, dt: Cell)
    requires 1000 <= year <= 9999
    ensures NormalizeDate(year, Str(NormalizeDate(year, dt))) == NormalizeDate(year, dt)
  {
    NormalizeDateShape(year, dt);
    NormalizeIsoDate(year, NormalizeDate(year, dt));
  }

  // =====================================================================
  // The amount written
  // =====================================================================

  /** The amount conversion of `upsert_fin_value`: NaN is 0; otherwise the
      text with every comma removed is parsed, and `None` where `float`
      raises (nothing catches it). */
  function AmountValue(a: Cell): Option<int>
  {
    if a == Empty then Some(0) else ParseInt(ReplaceAll(CellText(a), ",", ""))
  }

  /** The loader and the merge's `to_float` agree wherever the loader gets
      a value, and the loader fails exactly where `to_float` falls back to
      0 on unparseable text. */
  lemma AmountAgreesWithToFloat(a: Cell)
    ensures AmountValue(a).Some? ==> AmountValue(a).value == ToAmount(a)
    ensures AmountValue(a).None? ==> a.Str? && ToAmount(a) == 0
  {
    if a.Whole? {
      AmountOfDecimal(a.n);
    }
  }

  /** An amount printed in decimal, or stored as a number, is read back. */
  lemma AmountOfDecimal(n: int)
    ensures AmountValue(Str(IntToString(n))) == Some(n)
    ensures AmountValue(Whole(n)) == Some(n)
  {
    var s := IntToString(n);
    if n < 0 {
      NatToStringNoComma(-n);
    } else {
      NatToStringNoComma(n);
    }
    assert ',' !in s;
    DeleteCharSpec(s, ',');
    DeleteAbsent(s, ',');
    ParseIntToString(n);
  }

  /** Commas never change the amount. */
  lemma AmountIgnoresCommas(s: string)
    ensures AmountValue(Str(s)) == AmountValue(Str(ReplaceAll(s, ",", "")))
  {
    DeleteIdempotent(s, ',');
  }
}
