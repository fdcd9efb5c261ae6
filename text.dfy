/**
 * String and sequence helpers shared by the four scripts' models: the few
 * Python `str` methods they rely on (`split`, `replace`, `strip`, `zfill`,
 * `in`, `isalnum`, `isdigit`, `int(...)`), written over `seq<char>`.
 */
module Text {

  datatype Option<T> = None | Some(value: T)

  datatype Result<T> = Ok(value: T) | Err(reason: string)

  // ---------------------------------------------------------------------
  // Character classes
  // ---------------------------------------------------------------------

  predicate IsAsciiDigit(c: char) { '0' <= c <= '9' }

  /** Python's `str.isalnum`, restricted to ASCII letters and digits and
      the precomposed Hangul syllables (U+AC00 to U+D7A3). */
  predicate IsAlnum(c: char)
  {
    ('a' <= c <= 'z') || ('A' <= c <= 'Z') || IsAsciiDigit(c) || ('가' <= c <= '힣')
  }

  /** The six ASCII whitespace characters, space, tab, newline, carriage
      return, vertical tab and form feed; Python's `str.strip` also removes
      `\x1c`-`\x1f` and Unicode whitespace, which this model does not. */
  predicate IsSpace(c: char)
  {
    c == ' ' || c == '\t' || c == '\n' || c == '\r' || c == '\U{000B}' || c == '\U{000C}'
  }

  predicate AllDigits(s: string)
  {
    forall i :: 0 <= i < |s| ==> IsAsciiDigit(s[i])
  }

  // ---------------------------------------------------------------------
  // Prefixes, suffixes, substrings
  // ---------------------------------------------------------------------

  predicate StartsWith(s: string, p: string) { p <= s }

  predicate EndsWith(s: string, suffix: string)
  {
    |suffix| <= |s| && s[|s| - |suffix|..] == suffix
  }

  /** Python's `sub in s`. */
  predicate Contains(s: string, sub: string)
    decreases |s|
  {
    sub <= s || (s != [] && Contains(s[1..], sub))
  }

  lemma {:induction false} ContainsAt(s: string, sub: string, i: nat)
    requires i + |sub| <= |s| && s[i..i + |sub|] == sub
    ensures Contains(s, sub)
    decreases i
  {
    if i > 0 {
      assert s[1..][i - 1..i - 1 + |sub|] == s[i..i + |sub|];
      ContainsAt(s[1..], sub, i - 1);
    }
  }

  lemma EndsWithConcat(p: string, suffix: string)
    ensures EndsWith(p + suffix, suffix)
    ensures (p + suffix)[..|p + suffix| - |suffix|] == p
  {
  }

  /** Index of the first occurrence of `c` in `s`. */
  function IndexOf(s: string, c: char): (i: nat)
    requires c in s
    ensures i < |s| && s[i] == c && c !in s[..i]
  {
    if s[0] == c then 0 else 1 + IndexOf(s[1..], c)
  }

  // ---------------------------------------------------------------------
  // split / join
  // ---------------------------------------------------------------------

  /** Python's `s.split(sep)` for a one-character separator: never empty,
      and two adjacent separators give an empty part. */
  function Split(s: string, sep: char): (parts: seq<string>)
    ensures |parts| >= 1
    ensures forall i :: 0 <= i < |parts| ==> sep !in parts[i]
    decreases |s|
  {
    if sep !in s then [s]
    else
      var i := IndexOf(s, sep);
      [s[..i]] + Split(s[i + 1..], sep)
  }

  function Join(parts: seq<string>, sep: char): string
    decreases |parts|
  {
    if |parts| == 0 then ""
    else if |parts| == 1 then parts[0]
    else parts[0] + [sep] + Join(parts[1..], sep)
  }

  /** Joining the parts of a split gives the string back. */
  lemma {:induction false} JoinSplit(s: string, sep: char)
    ensures Join(Split(s, sep), sep) == s
    decreases |s|
  {
    if sep in s {
      var i := IndexOf(s, sep);
      var parts, rest := Split(s, sep), Split(s[i + 1..], sep);
      assert parts == [s[..i]] + rest;
      assert parts[1..] == rest;
      JoinSplit(s[i + 1..], sep);
      assert Join(parts, sep) == s[..i] + [sep] + s[i + 1..];
      assert s == s[..i] + [sep] + s[i + 1..];
    }
  }

  lemma {:induction false} IndexOfUnique(s: string, c: char, i: nat)
    requires i < |s| && s[i] == c && c !in s[..i]
    ensures IndexOf(s, c) == i
    decreases i
  {
    if i > 0 {
      assert s[0] == s[..i][0];
      var t, u := s[1..][..i - 1], s[..i];
      assert forall k :: 0 <= k < |t| ==> t[k] == u[k + 1];
      IndexOfUnique(s[1..], c, i - 1);
    }
  }

  /** Splitting a string that starts with a separator-free part. */
  lemma SplitCons(a: string, sep: char, rest: string)
    requires sep !in a
    ensures Split(a + [sep] + rest, sep) == [a] + Split(rest, sep)
  {
    var s := a + [sep] + rest;
    assert s[..|a|] == a;
    IndexOfUnique(s, sep, |a|);
    assert s[|a| + 1..] == rest;
  }

  /** Splitting at a separator splits each side on its own. */
  lemma {:induction false} SplitAppend(a: string, sep: char, b: string)
    ensures Split(a + [sep] + b, sep) == Split(a, sep) + Split(b, sep)
    decreases |a|
  {
    if sep !in a {
      SplitCons(a, sep, b);
    } else {
      var i := IndexOf(a, sep);
      var head, tail := a[..i], a[i + 1..];
      assert a == head + [sep] + tail;
      assert a + [sep] + b == head + [sep] + (tail + [sep] + b);
      calc {
        Split(a + [sep] + b, sep);
        { SplitCons(head, sep, tail + [sep] + b); }
        [head] + Split(tail + [sep] + b, sep);
        { SplitAppend(tail, sep, b); }
        [head] + (Split(tail, sep) + Split(b, sep));
        ([head] + Split(tail, sep)) + Split(b, sep);
        { SplitCons(head, sep, tail); }
        Split(a, sep) + Split(b, sep);
      }
    }
  }

  /** Python's `s.split(sep, 1)` unpacked into two names: `None` when the
      separator is absent (the unpacking raises). */
  function SplitOnce(s: string, sep: char): (r: Option<(string, string)>)
    ensures r.None? <==> sep !in s
    ensures r.Some? ==> sep !in r.value.0 && r.value.0 + [sep] + r.value.1 == s
  {
    if sep !in s then None
    else
      var i := IndexOf(s, sep);
      assert s == s[..i] + [sep] + s[i + 1..];
      Some((s[..i], s[i + 1..]))
  }

  /** Splitting at the first separator recovers the two sides. */
  lemma SplitOnceAt(a: string, sep: char, b: string)
    requires sep !in a
    ensures SplitOnce(a + [sep] + b, sep) == Some((a, b))
  {
    var s := a + [sep] + b;
    assert s[..|a|] == a;
    IndexOfUnique(s, sep, |a|);
    assert s[|a| + 1..] == b;
  }

  // ---------------------------------------------------------------------
  // replace
  // ---------------------------------------------------------------------

  /** Python's `s.replace(pat, rep)`: every non-overlapping occurrence,
      scanning from the left. */
  function ReplaceAll(s: string, pat: string, rep: string): string
    requires |pat| > 0
    decreases |s|
  {
    if |s| < |pat| then s
    else if s[..|pat|] == pat then rep + ReplaceAll(s[|pat|..], pat, rep)
    else [s[0]] + ReplaceAll(s[1..], pat, rep)
  }

  /** Replacing a pattern whose first character the text lacks, at the
      text's end, removes just that occurrence. */
  lemma {:induction false} ReplaceTrailing(s: string, pat: string)
    requires |pat| > 0 && pat[0] !in s
    ensures ReplaceAll(s + pat, pat, "") == s
    decreases |s|
  {
    if s == [] {
      assert s + pat == pat;
      assert pat[|pat|..] == [];
    } else {
      var t := s + pat;
      assert t[..|pat|][0] == s[0];
      assert t[1..] == s[1..] + pat;
      ReplaceTrailing(s[1..], pat);
      assert [s[0]] + s[1..] == s;
    }
  }

  /** Deleting a character: the result is the input with every `c` taken
      out, and nothing else changed. */
  lemma {:induction false} DeleteCharSpec(s: string, c: char)
    ensures ReplaceAll(s, [c], "") == Delete(s, c)
    decreases |s|
  {
    if |s| >= 1 {
      DeleteCharSpec(s[1..], c);
      assert s == [s[0]] + s[1..];
    }
  }

  function Delete(s: string, c: char): (r: string)
    ensures c !in r
    ensures |r| <= |s|
    decreases |s|
  {
    if s == [] then [] else (if s[0] == c then [] else [s[0]]) + Delete(s[1..], c)
  }

  lemma {:induction false} DeleteAbsent(s: string, c: char)
    requires c !in s
    ensures Delete(s, c) == s
    decreases |s|
  {
    if s != [] {
      DeleteAbsent(s[1..], c);
    }
  }

  /** Removing a character twice is removing it once. */
  lemma DeleteIdempotent(s: string, c: char)
    ensures ReplaceAll(ReplaceAll(s, [c], ""), [c], "") == ReplaceAll(s, [c], "")
  {
    DeleteCharSpec(s, c);
    DeleteCharSpec(Delete(s, c), c);
    DeleteAbsent(Delete(s, c), c);
  }

  // ---------------------------------------------------------------------
  // strip
  // ---------------------------------------------------------------------

  function LStrip(s: string): (r: string)
    ensures |r| <= |s| && r == s[|s| - |r|..]
    ensures r == [] || !IsSpace(r[0])
    decreases |s|
  {
    if s != [] && IsSpace(s[0]) then LStrip(s[1..]) else s
  }

  /** Python's `s.rstrip()`. */
  function RStrip(s: string): (r: string)
    ensures r <= s
    ensures r == [] || !IsSpace(r[|r| - 1])
    ensures forall i :: |r| <= i < |s| ==> IsSpace(s[i])
    decreases |s|
  {
    if s != [] && IsSpace(s[|s| - 1]) then RStrip(s[..|s| - 1]) else s
  }

  /** Python's `s.strip()`. */
  function Strip(s: string): string
  {
    RStrip(LStrip(s))
  }

  lemma StripNoSpace(s: string)
    requires s == [] || (!IsSpace(s[0]) && !IsSpace(s[|s| - 1]))
    ensures Strip(s) == s
  {
  }

  // ---------------------------------------------------------------------
  // Decimal numbers
  // ---------------------------------------------------------------------

  function DigitValue(c: char): nat
    requires IsAsciiDigit(c)
  {
    (c as int) - ('0' as int)
  }

  function DigitChar(d: nat): (c: char)
    requires d < 10
    ensures IsAsciiDigit(c) && DigitValue(c) == d
  {
    ('0' as int + d) as char
  }

  function DigitsValue(s: string): nat
    requires AllDigits(s)
    decreases |s|
  {
    if s == [] then 0 else DigitsValue(s[..|s| - 1]) * 10 + DigitValue(s[|s| - 1])
  }

  /** Python's `str(n)` for a natural number. */
  function NatToString(n: nat): (s: string)
    ensures |s| >= 1 && AllDigits(s)
    decreases n
  {
    if n < 10 then [DigitChar(n)] else NatToString(n / 10) + [DigitChar(n % 10)]
  }

  /** Python's `str(i)` for an integer. */
  function IntToString(i: int): string
  {
    if i < 0 then "-" + NatToString(-i) else NatToString(i)
  }

  lemma {:induction false} NatToStringValue(n: nat)
    ensures DigitsValue(NatToString(n)) == n
    decreases n
  {
    if n >= 10 {
      NatToStringValue(n / 10);
      var s := NatToString(n);
      assert s[..|s| - 1] == NatToString(n / 10);
    }
  }

  /** Python's `int(s)` (and `float(s)` on integral text): surrounding
      whitespace is ignored, then an optional sign and at least one digit. */
  function ParseInt(s: string): Option<int>
  {
    ParseStripped(Strip(s))
  }

  /** The sign and digits rule, once the whitespace is gone. */
  function ParseStripped(t: string): Option<int>
  {
    if |t| >= 2 && (t[0] == '+' || t[0] == '-') && AllDigits(t[1..]) then
      Some(if t[0] == '-' then -(DigitsValue(t[1..]) as int) else DigitsValue(t[1..]))
    else if |t| >= 1 && AllDigits(t) then Some(DigitsValue(t))
    else None
  }

  lemma StrippedDigits(t: string)
    requires |t| >= 1 && AllDigits(t)
    ensures ParseStripped(t) == Some(DigitsValue(t) as int)
    ensures ParseStripped("-" + t) == Some(-(DigitsValue(t) as int))
  {
    assert ("-" + t)[1..] == t;
  }

  lemma StripSigned(t: string)
    requires |t| >= 1 && AllDigits(t)
    ensures Strip(t) == t && Strip("-" + t) == "-" + t
  {
    var s := "-" + t;
    assert s[|s| - 1] == t[|t| - 1];
    assert !IsSpace(t[0]) && !IsSpace(t[|t| - 1]);
    StripNoSpace(t);
    StripNoSpace(s);
  }

  lemma ParseDigits(t: string, n: nat)
    requires |t| >= 1 && AllDigits(t) && DigitsValue(t) == n
    ensures ParseInt(t) == Some(n as int)
  {
    calc {
      ParseInt(t);
      ParseStripped(Strip(t));
      { StripSigned(t); }
      ParseStripped(t);
      { StrippedDigits(t); }
      Some(n as int);
    }
  }

  lemma ParseNegatedDigits(t: string, n: nat)
    requires |t| >= 1 && AllDigits(t) && DigitsValue(t) == n
    ensures ParseInt("-" + t) == Some(-(n as int))
  {
    var s := "-" + t;
    calc {
      ParseInt(s);
      ParseStripped(Strip(s));
      { StripSigned(t); }
      ParseStripped(s);
      { StrippedDigits(t); }
      Some(-(n as int));
    }
  }

  /** Printing an integer and parsing it back gives the integer. */
  lemma ParseIntToString(i: int)
    ensures ParseInt(IntToString(i)) == Some(i)
  {
    var n: nat := if i < 0 then -i else i;
    var t := NatToString(n);
    NatToStringValue(n);
    if i < 0 {
      ParseNegatedDigits(t, n);
      assert IntToString(i) == "-" + t;
    } else {
      ParseDigits(t, n);
    }
  }

  /** Python's `isdigit()` on ASCII text: non-empty and only digits. */
  predicate IsDigitString(s: string) { |s| >= 1 && AllDigits(s) }

  // ---------------------------------------------------------------------
  // zfill
  // ---------------------------------------------------------------------

  function Repeat(c: char, n: nat): (r: string)
    ensures |r| == n && forall i :: 0 <= i < n ==> r[i] == c
  {
    if n == 0 then [] else [c] + Repeat(c, n - 1)
  }

  /** Python's `s.zfill(width)`: zeros on the left up to `width`, placed
      after a leading sign. */
  function ZFill(s: string, width: nat): string
  {
    if |s| >= width then s
    else if |s| >= 1 && (s[0] == '+' || s[0] == '-') then [s[0]] + Repeat('0', width - |s|) + s[1..]
    else Repeat('0', width - |s|) + s
  }

  lemma {:induction false} LeadingZerosValue(n: nat, s: string)
    requires AllDigits(s)
    ensures AllDigits(Repeat('0', n) + s) && DigitsValue(Repeat('0', n) + s) == DigitsValue(s)
    decreases |s|
  {
    var z := Repeat('0', n);
    if s == [] {
      assert z + s == z;
      ZerosValue(n);
    } else {
      LeadingZerosValue(n, s[..|s| - 1]);
      assert (z + s)[..|z + s| - 1] == z + s[..|s| - 1];
    }
  }

  lemma {:induction false} ZerosValue(n: nat)
    ensures AllDigits(Repeat('0', n)) && DigitsValue(Repeat('0', n)) == 0
    decreases n
  {
    if n > 0 {
      var z := Repeat('0', n);
      assert z[..n - 1] == Repeat('0', n - 1);
      ZerosValue(n - 1);
    }
  }

  /** Zero-padding a digit string keeps it a digit string of the same value,
      at least `width` long, that ends with the original. */
  lemma ZFillDigits(s: string, width: nat)
    requires IsDigitString(s)
    ensures |ZFill(s, width)| == if |s| >= width then |s| else width
    ensures IsDigitString(ZFill(s, width))
    ensures DigitsValue(ZFill(s, width)) == DigitsValue(s)
    ensures EndsWith(ZFill(s, width), s)
  {
    if |s| < width {
      LeadingZerosValue(width - |s|, s);
      var r := ZFill(s, width);
      assert r[|r| - |s|..] == s;
    }
  }

  // ---------------------------------------------------------------------
  // Python string ordering
  // ---------------------------------------------------------------------

  /** Python's `a < b` on strings: code point by code point. */
  predicate LexLess(a: string, b: string)
    decreases |a|
  {
    if a == [] then b != []
    else if b == [] then false
    else if a[0] != b[0] then a[0] < b[0]
    else LexLess(a[1..], b[1..])
  }

  lemma {:induction false} LexLessIrreflexive(a: string)
    ensures !LexLess(a, a)
    decreases |a|
  {
    if a != [] {
      LexLessIrreflexive(a[1..]);
    }
  }

  lemma {:induction false} LexLessTransitive(a: string, b: string, c: string)
    requires LexLess(a, b) && LexLess(b, c)
    ensures LexLess(a, c)
    decreases |a|
  {
    if a != [] && b != [] && c != [] && a[0] == b[0] && b[0] == c[0] {
      LexLessTransitive(a[1..], b[1..], c[1..]);
    }
  }

  lemma {:induction false} LexLessTotal(a: string, b: string)
    requires a != b
    ensures LexLess(a, b) || LexLess(b, a)
    decreases |a|
  {
    if a != [] && b != [] && a[0] == b[0] {
      assert a == [a[0]] + a[1..] && b == [b[0]] + b[1..];
      LexLessTotal(a[1..], b[1..]);
    }
  }
}

/** Generic sequence helpers: list comprehensions with a condition. */
module Seqs {

  /** `[x for x in s if p(x)]`. */
  function Filter<T>(s: seq<T>, p: T -> bool): (r: seq<T>)
    ensures |r| <= |s|
    ensures forall i :: 0 <= i < |r| ==> r[i] in s && p(r[i])
    ensures forall i :: 0 <= i < |s| && p(s[i]) ==> s[i] in r
    decreases |s|
  {
    if s == [] then []
    else (if p(s[0]) then [s[0]] else []) + Filter(s[1..], p)
  }

  /** An element survives the filter exactly when it is in the input and
      meets the condition. */
  lemma FilterMember<T>(s: seq<T>, p: T -> bool, x: T)
    ensures x in Filter(s, p) <==> x in s && p(x)
  {
    if x in Filter(s, p) {
      var i :| 0 <= i < |Filter(s, p)| && Filter(s, p)[i] == x;
    }
    if x in s && p(x) {
      var i :| 0 <= i < |s| && s[i] == x;
    }
  }

  /** Splitting a sequence by a condition and its negation loses and adds
      nothing. */
  lemma {:induction false} FilterMultiset<T>(s: seq<T>, p: T -> bool, q: T -> bool)
    requires forall x :: q(x) == !p(x)
    ensures multiset(Filter(s, p)) + multiset(Filter(s, q)) == multiset(s)
    decreases |s|
  {
    if s != [] {
      var t := s[1..];
      FilterMultiset(t, p, q);
      assert multiset(s) == multiset{s[0]} + multiset(t) by {
        assert s == [s[0]] + t;
      }
      FilterHeadMultiset(s, p);
      FilterHeadMultiset(s, q);
      assert q(s[0]) == !p(s[0]);
    }
  }

  /** The filter's multiset gains the head exactly when the head passes. */
  lemma FilterHeadMultiset<T>(s: seq<T>, p: T -> bool)
    requires s != []
    ensures multiset(Filter(s, p)) ==
      (if p(s[0]) then multiset{s[0]} else multiset{}) + multiset(Filter(s[1..], p))
  {
    var h := if p(s[0]) then [s[0]] else [];
    assert Filter(s, p) == h + Filter(s[1..], p);
    assert multiset(h) == if p(s[0]) then multiset{s[0]} else multiset{};
  }

  lemma {:induction false} FilterConcat<T>(a: seq<T>, b: seq<T>, p: T -> bool)
    ensures Filter(a + b, p) == Filter(a, p) + Filter(b, p)
    decreases |a|
  {
    if a == [] {
      assert a + b == b;
    } else {
      var head := if p(a[0]) then [a[0]] else [];
      calc {
        Filter(a + b, p);
        { assert (a + b)[0] == a[0]; assert (a + b)[1..] == a[1..] + b; }
        head + Filter(a[1..] + b, p);
        { FilterConcat(a[1..], b, p); }
        head + (Filter(a[1..], p) + Filter(b, p));
      }
    }
  }

  lemma {:induction false} FilterAll<T>(s: seq<T>, p: T -> bool)
    requires forall x :: x in s ==> p(x)
    ensures Filter(s, p) == s
    decreases |s|
  {
    if s != [] {
      FilterAll(s[1..], p);
    }
  }

  lemma {:induction false} FilterNone<T>(s: seq<T>, p: T -> bool)
    requires forall x :: x in s ==> !p(x)
    ensures Filter(s, p) == []
    decreases |s|
  {
    if s != [] {
      FilterNone(s[1..], p);
    }
  }

  /** A sequence made of a part meeting `p` only followed by a part meeting
      `q` only is those two filters in turn. */
  lemma SplitByFilters<T>(a: seq<T>, b: seq<T>, p: T -> bool, q: T -> bool)
    requires forall x :: x in a ==> p(x) && !q(x)
    requires forall x :: x in b ==> q(x) && !p(x)
    ensures Filter(a + b, p) == a && Filter(a + b, q) == b
    ensures a + b == Filter(a + b, p) + Filter(a + b, q)
  {
    FilterAll(a, p);
    FilterNone(b, p);
    FilterNone(a, q);
    FilterAll(b, q);
    FilterConcat(a, b, p);
    FilterConcat(a, b, q);
    assert a + [] == a && [] + b == b;
  }

  /** Filtering by a weaker condition first changes nothing. */
  lemma {:induction false} FilterFilter<T>(s: seq<T>, q: T -> bool, p: T -> bool)
    requires forall x :: p(x) ==> q(x)
    ensures Filter(Filter(s, q), p) == Filter(s, p)
    decreases |s|
  {
    if s != [] {
      FilterFilter(s[1..], q, p);
      var head := if q(s[0]) then [s[0]] else [];
      FilterConcat(head, Filter(s[1..], q), p);
    }
  }

  predicate Distinct<T(==)>(s: seq<T>)
  {
    forall i, j :: 0 <= i < j < |s| ==> s[i] != s[j]
  }

  /** Two duplicate-free sequences with no element in common concatenate to
      a duplicate-free sequence. */
  lemma DistinctConcat<T>(a: seq<T>, b: seq<T>)
    requires Distinct(a) && Distinct(b)
    requires forall i, j :: 0 <= i < |a| && 0 <= j < |b| ==> a[i] != b[j]
    ensures Distinct(a + b)
  {
    var s := a + b;
    forall i, j | 0 <= i < j < |s| ensures s[i] != s[j] {
      if j < |a| {
        assert s[i] == a[i] && s[j] == a[j];
      } else if i >= |a| {
        assert s[i] == b[i - |a|] && s[j] == b[j - |a|];
      } else {
        assert s[i] == a[i] && s[j] == b[j - |a|];
      }
    }
  }

  lemma SnocThree<T>(s: seq<T>, x: T, y: T, z: T)
    ensures s + [x] + [y] == s + [x, y] && s + [x, y] + [z] == s + [x, y, z]
  {
  }

  /** Appending a non-empty sequence is appending all but its last element,
      then the last. */
  lemma AppendLast<T>(a: seq<T>, b: seq<T>)
    requires b != []
    ensures a + b == (a + b[..|b| - 1]) + [b[|b| - 1]]
    ensures b == b[..|b| - 1] + [b[|b| - 1]]
  {
  }

  /** What is in all but the last element is in the whole. */
  lemma InInit<T>(s: seq<T>, x: T)
    requires s != [] && x in s[..|s| - 1]
    ensures x in s
  {
    var i :| 0 <= i < |s| - 1 && s[..|s| - 1][i] == x;
    assert s[i] == x;
  }

  /** An element of a non-empty sequence is its last or one before it. */
  lemma InitOrLast<T>(s: seq<T>, x: T)
    requires s != [] && x in s && x != s[|s| - 1]
    ensures x in s[..|s| - 1]
  {
    var i :| 0 <= i < |s| && s[i] == x;
    assert s[..|s| - 1][i] == x;
  }

  lemma DistinctPrefix<T>(s: seq<T>, n: nat)
    requires Distinct(s) && n <= |s|
    ensures Distinct(s[..n])
  {
  }

  lemma DistinctLast<T>(s: seq<T>)
    requires Distinct(s) && s != []
    ensures s[|s| - 1] !in s[..|s| - 1]
  {
  }

  lemma {:induction false} FilterDistinct<T>(s: seq<T>, p: T -> bool)
    requires Distinct(s)
    ensures Distinct(Filter(s, p))
    decreases |s|
  {
    if s != [] {
      FilterDistinct(s[1..], p);
    }
  }
}
