/**
  The integer parts of frontend/src/pages/Infographic.js: the pastel palette
  of the pie charts, the bucketing of release years into decades, the
  top-ten ranking of a score map, and the 25-rating gate in front of the
  page. Hues are kept as exact fractions; averages, percentages and all
  drawing are floating point and are not modelled.
 */
module Infographic {
  import opened Wrappers
  import opened Sorting
  import opened ScoreMap
  import opened Text

  // ---------------------------------------------------------------------
  // generatePastelColors

  /** The colour `hsl(num / den, 70%, 80%)`: the hue as an exact fraction. */
  datatype Pastel = Pastel(num: nat, den: nat)

  /** `generatePastelColors(n)`: `n` colours, the `i`th at hue `i * 360 / n`. */
  method GeneratePastelColors(numColors: nat) returns (colors: seq<Pastel>)
    ensures |colors| == numColors
    ensures forall i :: 0 <= i < |colors| ==> colors[i] == Pastel(i * 360, numColors)
    ensures forall i :: 0 <= i < |colors| ==> colors[i].num < 360 * colors[i].den
    ensures forall i, j :: 0 <= i < j < |colors| ==> colors[i].num < colors[j].num
  {
    colors := [];
    var i := 0;
    while i < numColors
      invariant 0 <= i <= numColors
      invariant |colors| == i
      invariant forall k :: 0 <= k < i ==> colors[k] == Pastel(k * 360, numColors)
    {
      colors := colors + [Pastel(i * 360, numColors)];
      i := i + 1;
    }
  }

  // ---------------------------------------------------------------------
  // parseInt

  predicate IsDecimalDigit(c: char)
  {
    '0' <= c <= '9'
  }

  /** A digit of radix `radix` (10, or 16 after a `0x` prefix). */
  predicate IsDigitIn(c: char, radix: nat)
  {
    IsDecimalDigit(c) || (radix == 16 && ('a' <= c <= 'f' || 'A' <= c <= 'F'))
  }

  function DigitValue(c: char, radix: nat): (v: nat)
    requires IsDigitIn(c, radix)
    ensures v < radix || (radix != 16 && v < 10)
  {
    if IsDecimalDigit(c) then (c - '0') as nat
    else if 'a' <= c <= 'f' then (c - 'a') as nat + 10
    else (c - 'A') as nat + 10
  }

  /** The length of the longest prefix of `s` made of digits of `radix`. */
  function DigitPrefix(s: string, radix: nat): (n: nat)
    ensures n <= |s|
    ensures forall k :: 0 <= k < n ==> IsDigitIn(s[k], radix)
    ensures n == |s| || !IsDigitIn(s[n], radix)
  {
    if s == [] || !IsDigitIn(s[0], radix) then 0
    else 1 + DigitPrefix(s[1..], radix)
  }

  /** The number a string of digits of `radix` denotes. */
  function Value(ds: string, radix: nat): nat
    requires forall k :: 0 <= k < |ds| ==> IsDigitIn(ds[k], radix)
  {
    if ds == [] then 0
    else Value(ds[..|ds| - 1], radix) * radix + DigitValue(ds[|ds| - 1], radix)
  }

  /**
    `parseInt(s)` with no radix: leading white space is skipped, one sign is
    read, a `0x`/`0X` prefix switches to hexadecimal, and the longest run of
    digits is read; `None` stands for `NaN`, when that run is empty.
   */
  function ParseInt(s: string): (r: Option<int>)
  {
    var t := TrimStart(s);
    var negative := t != [] && t[0] == '-';
    var u := if t != [] && (t[0] == '-' || t[0] == '+') then t[1..] else t;
    match ParseUnsigned(u)
    case None => None
    case Some(m) => Some(if negative then -(m as int) else m as int)
  }

  /** The digits after the sign: hexadecimal after `0x`/`0X`, decimal otherwise. */
  function ParseUnsigned(u: string): Option<nat>
  {
    var hex := |u| >= 2 && u[0] == '0' && (u[1] == 'x' || u[1] == 'X');
    var radix := if hex then 16 else 10;
    var v := if hex then u[2..] else u;
    var n := DigitPrefix(v, radix);
    if n == 0 then None else Some(Value(v[..n], radix))
  }

  /** The decimal numeral of `n`, without leading zeros. */
  function Decimal(n: nat): (s: string)
    ensures |s| >= 1
    ensures forall k :: 0 <= k < |s| ==> IsDecimalDigit(s[k])
    ensures s[0] == '0' ==> n == 0 && s == "0"
  {
    if n < 10 then [('0' as int + n) as char]
    else Decimal(n / 10) + [('0' as int + n % 10) as char]
  }

  /** How a year is written as an object key. */
  function IntString(y: int): string
  {
    if y < 0 then "-" + Decimal(-y) else Decimal(y)
  }

  lemma {:induction false} DecimalValue(n: nat)
    ensures Value(Decimal(n), 10) == n
  {
    if n >= 10 {
      var s := Decimal(n);
      DecimalValue(n / 10);
      assert s[..|s| - 1] == Decimal(n / 10);
    }
  }

  lemma {:induction false} DigitPrefixOf(ds: string, rest: string, radix: nat)
    requires forall k :: 0 <= k < |ds| ==> IsDigitIn(ds[k], radix)
    requires rest == [] || !IsDigitIn(rest[0], radix)
    ensures DigitPrefix(ds + rest, radix) == |ds|
  {
    if ds != [] {
      assert (ds + rest)[1..] == ds[1..] + rest;
      DigitPrefixOf(ds[1..], rest, radix);
    }
  }

  /**
    `parseInt` reads back the number a year key spells, whatever follows it
    other than a digit or `x`/`X` (so "1994" and "1990s" are read as 1994
    and 1990).
   */
  lemma ParseIntString(y: int, rest: string)
    requires rest == [] || (!IsDecimalDigit(rest[0]) && rest[0] != 'x' && rest[0] != 'X')
    ensures ParseInt(IntString(y) + rest) == Some(y)
  {
    var m: nat := if y < 0 then -y else y;
    ParseDecimal(m, rest);
    if y < 0 {
      ParseNegative(Decimal(m), rest);
    } else {
      ParseDigits(Decimal(m) + rest);
    }
  }

  /** A string that starts with a digit is read as it stands. */
  lemma ParseDigits(u: string)
    requires u != [] && IsDecimalDigit(u[0])
    ensures ParseUnsigned(u).Some? ==> ParseInt(u) == Some(ParseUnsigned(u).value as int)
  {
    assert !IsSpace(u[0]);
    assert TrimStart(u) == u;
  }

  /** A minus sign before a digit negates what follows it. */
  lemma ParseNegative(ds: string, rest: string)
    requires ds != [] && IsDecimalDigit(ds[0])
    ensures ParseUnsigned(ds + rest).Some? ==> ParseInt("-" + ds + rest) == Some(-(ParseUnsigned(ds + rest).value as int))
  {
    var s := "-" + ds + rest;
    assert !IsSpace(s[0]);
    assert TrimStart(s) == s;
    assert s[1..] == ds + rest;
  }

  lemma ParseDecimal(m: nat, rest: string)
    requires rest == [] || (!IsDecimalDigit(rest[0]) && rest[0] != 'x' && rest[0] != 'X')
    ensures ParseUnsigned(Decimal(m) + rest) == Some(m)
  {
    var ds := Decimal(m);
    var u := ds + rest;
    assert !(|u| >= 2 && u[0] == '0' && (u[1] == 'x' || u[1] == 'X')) by {
      if |u| >= 2 && u[0] == '0' {
        assert ds == "0";
        assert u[1] == rest[0];
      }
    }
    DigitPrefixOf(ds, rest, 10);
    assert u[..|ds|] == ds;
    DecimalValue(m);
  }

  /** A key that does not start, after white space and a sign, with a digit is `NaN`. */
  lemma ParseIntNaN(s: string)
    requires TrimStart(s) == [] || (!IsDecimalDigit(TrimStart(s)[0]) && TrimStart(s)[0] != '-' && TrimStart(s)[0] != '+')
    ensures ParseInt(s) == None
  {
  }

  // ---------------------------------------------------------------------
  // Decades

  /** `Math.floor(year / 10) * 10`; Dafny's `/` by a positive divisor rounds down. */
  function Decade(year: int): (d: int)
    ensures d % 10 == 0 && d <= year < d + 10
  {
    (year / 10) * 10
  }

  /** The decade of a year is the one multiple of ten in the ten years ending with it. */
  lemma DecadeUnique(year: int, d: int)
    requires d % 10 == 0 && d <= year < d + 10
    ensures d == Decade(year)
  {
    var e := Decade(year);
    assert d == (d / 10) * 10 && e == (e / 10) * 10;
    assert d / 10 == e / 10;
  }

  /** One decade's accumulator entry `{ totalScore, count }`. */
  datatype Bucket = Bucket(decade: int, totalScore: int, count: nat)

  /**
    The decade a `releaseYears` entry belongs to, or `None` when its key
    parses to `NaN`. The fold below is stated for any key parser `parse`;
    the page's is `ParseInt`.
   */
  function DecadeOf(e: Entry, parse: string -> Option<int>): Option<int>
  {
    match parse(e.key)
    case None => None
    case Some(y) => Some(Decade(y))
  }

  /** `acc[decade].totalScore += score; acc[decade].count++`, creating the entry when missing. */
  function Tally(acc: seq<Bucket>, d: int, score: int): (r: seq<Bucket>)
  {
    if acc == [] then [Bucket(d, score, 1)]
    else if acc[0].decade == d then [acc[0].(totalScore := acc[0].totalScore + score, count := acc[0].count + 1)] + acc[1..]
    else [acc[0]] + Tally(acc[1..], d, score)
  }

  /** The reducer's step on one `[year, score]` pair. */
  function AddYear(acc: seq<Bucket>, e: Entry, parse: string -> Option<int>): seq<Bucket>
  {
    match DecadeOf(e, parse)
    case None => acc
    case Some(d) => Tally(acc, d, e.score)
  }

  /** The `reduce` over `Object.entries(releaseYears)`, in entry order. */
  function DecadeFold(years: Scores, parse: string -> Option<int>): seq<Bucket>
  {
    if years == [] then [] else AddYear(DecadeFold(years[..|years| - 1], parse), years[|years| - 1], parse)
  }

  /** The number of entries whose year falls in decade `d`. */
  function CountIn(years: Scores, d: int, parse: string -> Option<int>): nat
  {
    if years == [] then 0
    else CountIn(years[..|years| - 1], d, parse) + (if DecadeOf(years[|years| - 1], parse) == Some(d) then 1 else 0)
  }

  /** The sum of the scores of the entries whose year falls in decade `d`. */
  function SumIn(years: Scores, d: int, parse: string -> Option<int>): int
  {
    if years == [] then 0
    else SumIn(years[..|years| - 1], d, parse) + (if DecadeOf(years[|years| - 1], parse) == Some(d) then years[|years| - 1].score else 0)
  }

  lemma {:induction false} NoYearsNoScore(years: Scores, d: int, parse: string -> Option<int>)
    requires CountIn(years, d, parse) == 0
    ensures SumIn(years, d, parse) == 0
  {
    if years != [] {
      NoYearsNoScore(years[..|years| - 1], d, parse);
    }
  }

  /** The entry for decade `d`, if any. */
  function Lookup(acc: seq<Bucket>, d: int): Option<Bucket>
  {
    if acc == [] then None
    else if acc[0].decade == d then Some(acc[0])
    else Lookup(acc[1..], d)
  }

  ghost predicate DistinctDecades(acc: seq<Bucket>)
  {
    forall i, j :: 0 <= i < j < |acc| ==> acc[i].decade != acc[j].decade
  }

  lemma {:induction false} LookupDecade(acc: seq<Bucket>, d: int)
    ensures Lookup(acc, d).Some? ==> Lookup(acc, d).value.decade == d
    ensures Lookup(acc, d).Some? <==> exists i :: 0 <= i < |acc| && acc[i].decade == d
    ensures DistinctDecades(acc) ==> forall i :: 0 <= i < |acc| && acc[i].decade == d ==> Lookup(acc, d) == Some(acc[i])
  {
    if acc != [] {
      LookupDecade(acc[1..], d);
      if acc[0].decade != d {
        assert forall i :: 1 <= i < |acc| ==> acc[i] == acc[1..][i - 1];
      }
    }
  }

  lemma {:induction false} TallyLookup(acc: seq<Bucket>, d: int, score: int, d': int)
    ensures Lookup(Tally(acc, d, score), d') ==
      if d' != d then Lookup(acc, d')
      else match Lookup(acc, d)
        case None => Some(Bucket(d, score, 1))
        case Some(b) => Some(b.(totalScore := b.totalScore + score, count := b.count + 1))
  {
    if acc != [] && acc[0].decade != d {
      TallyLookup(acc[1..], d, score, d');
    }
  }

  lemma {:induction false} TallyDistinct(acc: seq<Bucket>, d: int, score: int)
    requires DistinctDecades(acc)
    ensures DistinctDecades(Tally(acc, d, score))
    ensures forall b :: b in Tally(acc, d, score) ==> b.decade == d || b in acc
  {
    if acc != [] && acc[0].decade != d {
      var tail := Tally(acc[1..], d, score);
      TallyDistinct(acc[1..], d, score);
      var r := [acc[0]] + tail;
      forall j | 1 <= j < |r| ensures r[0].decade != r[j].decade {
        assert r[j] in tail;
        if r[j].decade != d {
          var k :| 0 <= k < |acc[1..]| && acc[1..][k] == r[j];
          assert acc[k + 1] == r[j];
        }
      }
      assert forall i, j :: 1 <= i < j < |r| ==> r[i] == tail[i - 1] && r[j] == tail[j - 1];
    }
  }

  /** Every bucket of the fold belongs to a distinct decade. */
  lemma {:induction false} DecadeFoldDistinct(years: Scores, parse: string -> Option<int>)
    ensures DistinctDecades(DecadeFold(years, parse))
  {
    if years != [] {
      var e := years[|years| - 1];
      DecadeFoldDistinct(years[..|years| - 1], parse);
      if DecadeOf(e, parse).Some? {
        TallyDistinct(DecadeFold(years[..|years| - 1], parse), DecadeOf(e, parse).value, e.score);
      }
    }
  }

  /**
    The reduce is a count and a sum per decade: decade `d` has a bucket
    exactly when some year falls in it, and then its `count` is the number
    of such years and its `totalScore` the sum of their scores.
   */
  lemma {:induction false} DecadeFoldLookup(years: Scores, d: int, parse: string -> Option<int>)
    ensures Lookup(DecadeFold(years, parse), d) ==
      if CountIn(years, d, parse) == 0 then None
      else Some(Bucket(d, SumIn(years, d, parse), CountIn(years, d, parse)))
  {
    if years != [] {
      var init := years[..|years| - 1];
      var e := years[|years| - 1];
      DecadeFoldLookup(init, d, parse);
      var acc := DecadeFold(init, parse);
      match DecadeOf(e, parse)
      case None =>
        assert DecadeFold(years, parse) == acc;
      case Some(d') =>
        assert DecadeFold(years, parse) == Tally(acc, d', e.score);
        assert CountIn(years, d, parse) == CountIn(init, d, parse) + (if d' == d then 1 else 0);
        assert SumIn(years, d, parse) == SumIn(init, d, parse) + (if d' == d then e.score else 0);
        if d' == d && CountIn(init, d, parse) == 0 {
          NoYearsNoScore(init, d, parse);
        }
        TallyLookup(acc, d', e.score, d);
    }
  }

  /** Every bucket of the fold holds its decade's count and total. */
  lemma BucketTotals(years: Scores, b: Bucket, parse: string -> Option<int>)
    requires b in DecadeFold(years, parse)
    ensures b.count == CountIn(years, b.decade, parse) > 0
    ensures b.totalScore == SumIn(years, b.decade, parse)
  {
    var acc := DecadeFold(years, parse);
    var i :| 0 <= i < |acc| && acc[i] == b;
    DecadeFoldDistinct(years, parse);
    LookupDecade(acc, b.decade);
    DecadeFoldLookup(years, b.decade, parse);
  }

  /** The `reduce` of lines 72-83, one entry at a time. */
  method DecadeTotals(releaseYears: Option<Scores>) returns (acc: seq<Bucket>)
    ensures releaseYears.None? ==> acc == []
    ensures releaseYears.Some? ==> acc == DecadeFold(releaseYears.value, ParseInt)
  {
    var years := if releaseYears.Some? then releaseYears.value else [];
    acc := [];
    var i := 0;
    while i < |years|
      invariant 0 <= i <= |years|
      invariant acc == DecadeFold(years[..i], ParseInt)
    {
      assert years[..i + 1][..i] == years[..i];
      ghost var next := AddYear(acc, years[i], ParseInt);
      assert DecadeFold(years[..i + 1], ParseInt) == next;
      var parsedYear := ParseInt(years[i].key);
      if parsedYear.Some? {
        var decade := Decade(parsedYear.value);
        acc := Tally(acc, decade, years[i].score);
      }
      assert acc == next;
      i := i + 1;
    }
    assert years[..i] == years;
  }

  /** `Object.entries(decadeData).sort(([a], [b]) => a - b)`: the timeline in ascending decade order. */
  function Timeline(acc: seq<Bucket>): seq<Bucket>
  {
    Sort(acc, DecadeRank, Ascending)
  }

  function DecadeRank(b: Bucket): int { b.decade }

  /**
    The timeline has one point per decade that some year falls in, each with
    that decade's count and total, in strictly ascending decade order.
   */
  lemma TimelineOfYears(years: Scores, parse: string -> Option<int>)
    ensures forall i, j :: 0 <= i < j < |Timeline(DecadeFold(years, parse))| ==>
      Timeline(DecadeFold(years, parse))[i].decade < Timeline(DecadeFold(years, parse))[j].decade
    ensures forall b :: b in Timeline(DecadeFold(years, parse)) ==>
      b.count == CountIn(years, b.decade, parse) > 0 && b.totalScore == SumIn(years, b.decade, parse)
    ensures forall d :: CountIn(years, d, parse) > 0 ==>
      Bucket(d, SumIn(years, d, parse), CountIn(years, d, parse)) in Timeline(DecadeFold(years, parse))
  {
    var acc := DecadeFold(years, parse);
    var t := Timeline(acc);
    assert multiset(t) == multiset(acc);
    DecadeFoldDistinct(years, parse);
    PermutationDistinctDecades(acc, t);
    forall i, j | 0 <= i < j < |t| ensures t[i].decade < t[j].decade {
      assert !Precedes(Ascending, DecadeRank(t[j]), DecadeRank(t[i]));
    }
    forall b | b in t ensures b.count == CountIn(years, b.decade, parse) > 0 && b.totalScore == SumIn(years, b.decade, parse) {
      assert b in multiset(acc);
      BucketTotals(years, b, parse);
    }
    forall d | CountIn(years, d, parse) > 0 ensures Bucket(d, SumIn(years, d, parse), CountIn(years, d, parse)) in t {
      DecadeFoldLookup(years, d, parse);
      LookupDecade(acc, d);
      var i :| 0 <= i < |acc| && acc[i].decade == d;
      assert acc[i] in multiset(t);
    }
  }

  /** A permutation of a list with one bucket per decade has one bucket per decade. */
  lemma PermutationDistinctDecades(acc: seq<Bucket>, t: seq<Bucket>)
    requires DistinctDecades(acc) && multiset(t) == multiset(acc)
    ensures DistinctDecades(t)
  {
    forall i, j | 0 <= i < j < |t| ensures t[i].decade != t[j].decade {
      if t[i].decade == t[j].decade {
        assert t[i] in multiset(acc) && t[j] in multiset(acc);
        var p :| 0 <= p < |acc| && acc[p] == t[i];
        var q :| 0 <= q < |acc| && acc[q] == t[j];
        assert p == q;
        assert t == t[..i] + [t[i]] + t[i + 1..j] + [t[j]] + t[j + 1..];
        assert multiset(t)[t[i]] >= 2;
        DistinctDecadesSingle(acc, t[i]);
      }
    }
  }

  lemma DistinctDecadesSingle(acc: seq<Bucket>, b: Bucket)
    requires DistinctDecades(acc)
    ensures multiset(acc)[b] <= 1
  {
    assert Distinct(acc);
    DistinctCount(acc, b);
  }

  // ---------------------------------------------------------------------
  // drawBarChart / drawPieChart

  /** The default `maxItems` of both charts. */
  const MAX_ITEMS := 10

  /** `Object.entries(data || {}).sort(([, a], [, b]) => b - a).slice(0, maxItems)`. */
  function TopEntries(data: Option<Scores>, maxItems: nat): Scores
  {
    var entries := if data.Some? then data.value else [];
    var sorted := Sort(entries, Score, Descending);
    sorted[..if maxItems < |sorted| then maxItems else |sorted|]
  }

  /**
    The chart shows the `maxItems` best-scoring entries: as many as there
    are up to `maxItems`, drawn from the data, best first, and no entry left
    out scores above one that is shown.
   */
  lemma TopEntriesRanked(data: Scores, maxItems: nat)
    ensures |TopEntries(Some(data), maxItems)| == if maxItems < |data| then maxItems else |data|
    ensures SortedBy(TopEntries(Some(data), maxItems), Score, Descending)
    ensures multiset(TopEntries(Some(data), maxItems)) <= multiset(data)
    ensures forall x, y :: (x in multiset(data) - multiset(TopEntries(Some(data), maxItems))
      && y in TopEntries(Some(data), maxItems)) ==> y.score >= x.score
  {
    var sorted := Sort(data, Score, Descending);
    var n := if maxItems < |sorted| then maxItems else |sorted|;
    assert TopEntries(Some(data), maxItems) == sorted[..n];
    TakeDrop(sorted, n);
    SortedPrefix(sorted, n);
  }

  lemma TakeDrop<T>(s: seq<T>, n: nat)
    requires n <= |s|
    ensures multiset(s) == multiset(s[..n]) + multiset(s[n..])
  {
    assert s == s[..n] + s[n..];
  }

  /** A prefix of a list sorted best first is sorted, and nothing after it scores above anything in it. */
  lemma SortedPrefix(sorted: Scores, n: nat)
    requires SortedBy(sorted, Score, Descending) && n <= |sorted|
    ensures SortedBy(sorted[..n], Score, Descending)
    ensures forall x: Entry, y: Entry :: (x in multiset(sorted[n..]) && y in sorted[..n]) ==> y.score >= x.score
  {
    var r := sorted[..n];
    var rest := sorted[n..];
    assert forall i, j :: 0 <= i < j < |r| ==> r[i] == sorted[i] && r[j] == sorted[j];
    forall x: Entry, y: Entry | x in multiset(rest) && y in r ensures y.score >= x.score {
      var j :| 0 <= j < |rest| && rest[j] == x;
      var i :| 0 <= i < |r| && r[i] == y;
      assert sorted[i] == y && sorted[n + j] == x;
      assert !Precedes(Descending, Score(sorted[n + j]), Score(sorted[i]));
    }
  }

  /** What a chart draws: the "no data available yet" message, or its entries. */
  datatype Chart = NoData | Drawn(entries: Scores)

  /** The data part of `drawBarChart`. */
  function BarChart(data: Option<Scores>): Chart
  {
    var sortedData := TopEntries(data, MAX_ITEMS);
    if |sortedData| == 0 then NoData else Drawn(sortedData)
  }

  /** A chart says "no data" exactly when its score map is missing or empty. */
  lemma BarChartNoData(data: Option<Scores>)
    ensures BarChart(data) == NoData <==> data.None? || data.value == []
    ensures BarChart(data).Drawn? ==> BarChart(data).entries == TopEntries(data, MAX_ITEMS)
  {
    if data.Some? {
      TopEntriesRanked(data.value, MAX_ITEMS);
    }
  }

  /** One line of a pie chart's key; the percentage is floating point and is not modelled. */
  datatype KeyEntry = KeyEntry(name: string, color: Pastel)

  /**
    The data part of `drawPieChart`: `None` where it returns nothing (no
    data), otherwise one key line per shown entry, in order, coloured from a
    palette exactly as long as the list.
   */
  method PieChartKeys(data: Option<Scores>) returns (keyData: Option<seq<KeyEntry>>)
    ensures keyData.None? <==> |TopEntries(data, MAX_ITEMS)| == 0
    ensures keyData.Some? ==> |keyData.value| == |TopEntries(data, MAX_ITEMS)|
    ensures keyData.Some? ==> forall i :: 0 <= i < |keyData.value| ==>
      keyData.value[i] == KeyEntry(TopEntries(data, MAX_ITEMS)[i].key, Pastel(i * 360, |TopEntries(data, MAX_ITEMS)|))
  {
    var sortedData := TopEntries(data, MAX_ITEMS);
    if |sortedData| == 0 {
      return None;
    }
    var colors := GeneratePastelColors(|sortedData|);
    var keys: seq<KeyEntry> := [];
    for index := 0 to |sortedData|
      invariant |keys| == index
      invariant forall i :: 0 <= i < index ==> keys[i] == KeyEntry(sortedData[i].key, Pastel(i * 360, |sortedData|))
    {
      keys := keys + [KeyEntry(sortedData[index].key, colors[index])];
    }
    keyData := Some(keys);
  }

  // ---------------------------------------------------------------------
  // The page gate

  const MIN_RATINGS := 25

  /** `interactionCounts`, of which the gate reads `total`. */
  datatype Counts = Counts(total: Option<int>)

  /** The part of the fetched taste profile the gate reads. */
  datatype ClientTaste = ClientTaste(interactionCounts: Option<Counts>)

  /**
    What the page renders: a spinner, the error text, the "rate at least 25
    movies" prompt with the count so far, a render error where `.total` is
    read from a missing `interactionCounts`, or the infographic.
   */
  datatype View = Spinner | Failed | RatePrompt(rated: int) | RenderError | Shown

  function PageView(loading: bool, failed: bool, tasteProfile: Option<ClientTaste>): View
  {
    if loading then Spinner
    else if failed then Failed
    else match tasteProfile
      case None => RatePrompt(0)
      case Some(t) =>
        match t.interactionCounts
        case None => RenderError
        case Some(c) =>
          // `undefined < 25` is false, so a missing total lets the page through.
          match c.total
          case None => Shown
          case Some(n) => if n < MIN_RATINGS then RatePrompt(n) else Shown
  }

  /** The infographic is shown exactly when a taste profile with counts arrived and its total is not below 25. */
  lemma ShownGate(loading: bool, failed: bool, tasteProfile: Option<ClientTaste>)
    ensures PageView(loading, failed, tasteProfile) == Shown <==>
      !loading && !failed && tasteProfile.Some? && tasteProfile.value.interactionCounts.Some?
      && (tasteProfile.value.interactionCounts.value.total.None?
          || tasteProfile.value.interactionCounts.value.total.value >= MIN_RATINGS)
    ensures (tasteProfile.Some? && tasteProfile.value.interactionCounts.Some?
      && tasteProfile.value.interactionCounts.value.total.Some? && !loading && !failed
      && tasteProfile.value.interactionCounts.value.total.value < MIN_RATINGS) ==>
      PageView(loading, failed, tasteProfile) == RatePrompt(tasteProfile.value.interactionCounts.value.total.value)
  {
  }
}
