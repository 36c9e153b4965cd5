/** The interpolated percentile and the timing summaries of the profile diagnostics, over real numbers. */
module Percentiles {
  import opened Options

  // ----- Sorting -----

  ghost predicate Ascending(s: seq<real>) {
    forall i, j :: 0 <= i <= j < |s| ==> s[i] <= s[j]
  }

  function Insert(x: real, s: seq<real>): (r: seq<real>)
    ensures multiset(r) == multiset(s) + multiset{x}
  {
    if s == [] || x <= s[0] then [x] + s
    else
      assert s == [s[0]] + s[1..];
      [s[0]] + Insert(x, s[1..])
  }

  lemma InsertedIn(x: real, s: seq<real>, r: seq<real>)
    requires multiset(r) == multiset(s) + multiset{x}
    ensures forall i :: 0 <= i < |r| ==> r[i] == x || r[i] in s
  {
    forall i | 0 <= i < |r| ensures r[i] == x || r[i] in s {
      assert r[i] in multiset(r);
    }
  }

  lemma {:induction false} InsertKeepsAscending(x: real, s: seq<real>)
    requires Ascending(s)
    ensures Ascending(Insert(x, s))
  {
    if s == [] || x <= s[0] {
    } else {
      InsertKeepsAscending(x, s[1..]);
      InsertedIn(x, s[1..], Insert(x, s[1..]));
    }
  }

  /** sorted */
  function Sorted(s: seq<real>): (r: seq<real>)
    ensures multiset(r) == multiset(s) && |r| == |s| && Ascending(r)
  {
    if s == [] then []
    else
      var n := |s| - 1;
      assert s == s[..n] + [s[n]];
      InsertKeepsAscending(s[n], Sorted(s[..n]));
      var r := Insert(s[n], Sorted(s[..n]));
      assert |multiset(r)| == |multiset(s)|;
      r
  }

  /** A multiset has only one ascending list, so the order of the input does not matter to its sorted form. */
  lemma {:induction false} AscendingIsUnique(a: seq<real>, b: seq<real>)
    requires Ascending(a) && Ascending(b) && multiset(a) == multiset(b)
    ensures a == b
  {
    assert |multiset(a)| == |a| && |multiset(b)| == |b|;
    if a == [] {
    } else {
      FirstIsNotAbove(a, b);
      FirstIsNotAbove(b, a);
      RestAfterFirst(a);
      RestAfterFirst(b);
      AscendingIsUnique(a[1..], b[1..]);
      assert a == [a[0]] + a[1..] && b == [b[0]] + b[1..];
    }
  }

  lemma FirstIsNotAbove(a: seq<real>, b: seq<real>)
    requires Ascending(a) && multiset(a) == multiset(b) && a != [] && b != []
    ensures a[0] <= b[0]
  {
    assert b[0] in multiset(a);
  }

  lemma RestAfterFirst(a: seq<real>)
    requires a != []
    ensures multiset(a[1..]) == multiset(a) - multiset{a[0]}
  {
    assert a == [a[0]] + a[1..];
  }

  // ----- Interpolation -----

  function Ceil(x: real): int {
    -(-x).Floor
  }

  /** The value at a position between the first and the last index. */
  function At(s: seq<real>, k: real): real
    requires 0.0 <= k <= (|s| - 1) as real
  {
    var low, high := k.Floor, Ceil(k);
    if low == high then s[low]
    else s[low] * (1.0 - (k - low as real)) + s[high] * (k - low as real)
  }

  /** The last index, as a position. */
  function Last(s: seq<real>): (k: real)
    requires s != []
    ensures k >= 0.0
  {
    (|s| - 1) as real
  }

  function Position(last: real, p: real): (k: real)
    requires 0.0 <= last && 0.0 <= p <= 1.0
    ensures 0.0 <= k <= last
  {
    Scale(last, p, 1.0);
    Times(last, p)
  }

  function Times(a: real, b: real): real {
    a * b
  }

  lemma Scale(a: real, p: real, q: real)
    requires 0.0 <= a && 0.0 <= p <= q
    ensures 0.0 <= Times(a, p) <= Times(a, q)
  {
    NonNegative(a, p);
    NonNegative(a, q - p);
    assert a * q == a * p + a * (q - p);
  }

  function Percentile(values: seq<real>, p: real): Option<real>
    requires 0.0 <= p <= 1.0
  {
    if values == [] then None
    else if |values| == 1 then Some(values[0])
    else Some(At(Sorted(values), Position(Last(values), p)))
  }

  lemma NonNegative(a: real, b: real)
    requires 0.0 <= a && 0.0 <= b
    ensures 0.0 <= a * b
  {
  }

  lemma Between(a: real, b: real, f: real)
    requires a <= b && 0.0 <= f <= 1.0
    ensures a <= a * (1.0 - f) + b * f <= b
  {
    Scale(b - a, f, 1.0);
    assert a * (1.0 - f) + b * f == a + (b - a) * f;
  }

  lemma Slope(a: real, b: real, f: real, g: real)
    requires a <= b && 0.0 <= f <= g <= 1.0
    ensures a * (1.0 - f) + b * f <= a * (1.0 - g) + b * g
  {
    Scale(b - a, f, g);
    assert a * (1.0 - f) + b * f == a + (b - a) * f;
    assert a * (1.0 - g) + b * g == a + (b - a) * g;
  }

  /** The interpolated value lies between its two neighbours. */
  lemma AtBetween(s: seq<real>, k: real)
    requires Ascending(s) && 0.0 <= k <= (|s| - 1) as real
    ensures s[k.Floor] <= At(s, k) <= s[Ceil(k)]
  {
    if k.Floor != Ceil(k) { Between(s[k.Floor], s[Ceil(k)], k - k.Floor as real); }
  }

  lemma AtMonotone(s: seq<real>, k: real, l: real)
    requires Ascending(s) && 0.0 <= k <= l <= (|s| - 1) as real
    ensures At(s, k) <= At(s, l)
  {
    AtBetween(s, k);
    AtBetween(s, l);
    if k.Floor == l.Floor {
      if k.Floor != Ceil(k) {
        Slope(s[k.Floor], s[Ceil(k)], k - k.Floor as real, l - k.Floor as real);
      }
    } else {
      assert Ceil(k) <= l.Floor;
    }
  }

  // ----- What percentile promises -----

  lemma SingleValue(v: real, k: real)
    requires k == 0.0
    ensures At([v], k) == v
  {
  }

  /** One value needs no case of its own. */
  lemma AsPosition(values: seq<real>, p: real)
    requires values != [] && 0.0 <= p <= 1.0
    ensures Percentile(values, p) == Some(At(Sorted(values), Position(Last(values), p)))
  {
    if |values| == 1 {
      assert values == [values[0]];
      assert Ascending([values[0]]);
      AscendingIsUnique(Sorted(values), [values[0]]);
      SingleValue(values[0], Position(0.0, p));
    }
  }

  ghost predicate IsMin(values: seq<real>, v: real) {
    v in values && forall i :: 0 <= i < |values| ==> v <= values[i]
  }

  ghost predicate IsMax(values: seq<real>, v: real) {
    v in values && forall i :: 0 <= i < |values| ==> values[i] <= v
  }

  lemma SortedEnds(values: seq<real>)
    requires values != []
    ensures var s := Sorted(values); IsMin(values, s[0]) && IsMax(values, s[|s| - 1])
  {
    var s := Sorted(values);
    assert s[0] in multiset(values) && s[|s| - 1] in multiset(values);
    forall i | 0 <= i < |values| ensures s[0] <= values[i] <= s[|s| - 1] {
      assert values[i] in multiset(s);
    }
  }

  lemma PositionMonotone(last: real, p: real, q: real)
    requires 0.0 <= last && 0.0 <= p <= q <= 1.0
    ensures Position(last, p) <= Position(last, q)
  {
    Scale(last, p, q);
  }

  lemma AtEnds(s: seq<real>)
    requires s != []
    ensures Position(Last(s), 0.0) == 0.0 && At(s, Position(Last(s), 0.0)) == s[0]
    ensures Position(Last(s), 1.0) == Last(s) && At(s, Position(Last(s), 1.0)) == s[|s| - 1]
  {
    var n := |s| - 1;
    assert (n as real).Floor == n && (-(n as real)).Floor == -n;
  }

  lemma WithinMinAndMax(values: seq<real>, p: real, low: real, high: real)
    requires values != [] && 0.0 <= p <= 1.0 && IsMin(values, low) && IsMax(values, high)
    ensures Percentile(values, p).Some? && low <= Percentile(values, p).value <= high
    ensures p == 0.0 ==> Percentile(values, p).value == low
    ensures p == 1.0 ==> Percentile(values, p).value == high
  {
    var s := Sorted(values);
    AsPosition(values, p);
    EndsAre(values, low, high);
    AtBetween(s, Position(Last(s), p));
    AtEnds(s);
  }

  lemma EndsAre(values: seq<real>, low: real, high: real)
    requires values != [] && IsMin(values, low) && IsMax(values, high)
    ensures Sorted(values)[0] == low && Sorted(values)[|values| - 1] == high
  {
    SortedEnds(values);
  }

  lemma OrderDoesNotMatter(a: seq<real>, b: seq<real>, p: real)
    requires 0.0 <= p <= 1.0 && multiset(a) == multiset(b)
    ensures Percentile(a, p) == Percentile(b, p)
  {
    assert |multiset(a)| == |a| && |multiset(b)| == |b|;
    if a != [] {
      AsPosition(a, p);
      AsPosition(b, p);
      AscendingIsUnique(Sorted(a), Sorted(b));
    }
  }

  lemma MonotoneInP(values: seq<real>, p: real, q: real)
    requires values != [] && 0.0 <= p <= q <= 1.0
    ensures Percentile(values, p).value <= Percentile(values, q).value
  {
    AsPosition(values, p);
    AsPosition(values, q);
    PositionMonotone(Last(values), p, q);
    AtMonotone(Sorted(values), Position(Last(values), p), Position(Last(values), q));
  }

  lemma FloorOf(i: int, f: real)
    requires 0.0 <= f < 1.0
    ensures (i as real + f).Floor == i && Ceil(i as real + f) == if f == 0.0 then i else i + 1
  {
    var k := i as real + f;
    assert (-k).Floor == if f == 0.0 then -i else -i - 1;
  }

  /** A fraction f of the way from the value at index i to the next one. */
  function Line(s: seq<real>, i: nat, f: real): real
    requires i < |s| && (f > 0.0 ==> i + 1 < |s|)
  {
    if f <= 0.0 then s[i] else s[i] + Times(f, s[i + 1] - s[i])
  }

  lemma AtBehind(s: seq<real>, k: real, i: nat, f: real)
    requires i < |s| && 0.0 <= f < 1.0 && (f > 0.0 ==> i + 1 < |s|) && k == i as real + f
    ensures At(s, k) == Line(s, i, f)
  {
    FloorOf(i, f);
    var part := k - k.Floor as real;
    assert part == f;
    if f > 0.0 {
      assert At(s, k) == s[i] * (1.0 - part) + s[i + 1] * part;
      OnTheLine(s[i], s[i + 1], f);
    }
  }

  lemma OnTheLine(a: real, b: real, f: real)
    ensures a * (1.0 - f) + b * f == a + Times(f, b - a)
  {
    assert a * (1.0 - f) == a - a * f;
    assert f * (b - a) == f * b - f * a;
  }

  lemma IndexIsThere(last: int, k: real, i: nat, f: real)
    requires k == i as real + f && 0.0 <= f < 1.0 && k <= last as real
    ensures i <= last && (f > 0.0 ==> i < last)
  {
    FloorOf(i, f);
    assert k.Floor <= last && Ceil(k) <= last;
  }

  lemma PositionIs(values: seq<real>, p: real, i: nat, f: real)
    requires values != [] && 0.0 <= p <= 1.0 && Times((|values| - 1) as real, p) == i as real + f && 0.0 <= f < 1.0
    ensures Position(Last(values), p) == i as real + f
    ensures i < |values| && (f > 0.0 ==> i + 1 < |values|)
  {
    IndexIsThere(|values| - 1, Position(Last(values), p), i, f);
  }

  /**
   The percentile lies on the straight line between the two values around its position (n - 1) * p in the ascending
   list.
  */
  lemma LiesOnTheLine(values: seq<real>, p: real, i: nat, f: real)
    requires values != [] && 0.0 <= p <= 1.0 && Times((|values| - 1) as real, p) == i as real + f && 0.0 <= f < 1.0
    ensures i < |values| && (f > 0.0 ==> i + 1 < |values|)
    ensures Percentile(values, p) == Some(Line(Sorted(values), i, f))
  {
    PositionIs(values, p, i, f);
    AsPosition(values, p);
    AtBehind(Sorted(values), Position(Last(values), p), i, f);
  }

  // ----- Summaries -----

  datatype Sample = Sample(target: string, vantage: string, exitCode: int, total: Option<real>)

  datatype Summary = Summary(countTotal: nat, countSuccess: nat,
                             p50: Option<real>, p95: Option<real>, p99: Option<real>, max: Option<real>,
                             slow5: nat, slow15: nat, slow90: nat)

  type Key = (string, string)

  function KeyOf(s: Sample): Key {
    (s.target, s.vantage)
  }

  function Group(samples: seq<Sample>, key: Key): seq<Sample> {
    if samples == [] then []
    else
      var n := |samples| - 1;
      Group(samples[..n], key) + if KeyOf(samples[n]) == key then [samples[n]] else []
  }

  function Totals(group: seq<Sample>): seq<real> {
    if group == [] then []
    else
      var n := |group| - 1;
      Totals(group[..n]) + if group[n].total.Some? && group[n].exitCode == 0 then [group[n].total.value] else []
  }

  function AtLeast(totals: seq<real>, limit: real): nat {
    if totals == [] then 0 else AtLeast(totals[..|totals| - 1], limit) + if totals[|totals| - 1] >= limit then 1 else 0
  }

  function MaxOf(totals: seq<real>): (m: real)
    requires totals != []
    ensures IsMax(totals, m)
  {
    var n := |totals| - 1;
    assert totals == totals[..n] + [totals[n]];
    if n == 0 then totals[0]
    else
      var m := MaxOf(totals[..n]);
      assert forall i :: 0 <= i < n ==> totals[..n][i] == totals[i];
      assert m in totals;
      if m >= totals[n] then m else totals[n]
  }

  function SummaryOf(group: seq<Sample>): Summary {
    var t := Totals(group);
    Summary(|group|, |t|, Percentile(t, 0.50), Percentile(t, 0.95), Percentile(t, 0.99),
            if t == [] then None else Some(MaxOf(t)), AtLeast(t, 5.0), AtLeast(t, 15.0), AtLeast(t, 90.0))
  }

  lemma {:induction false} FewerAbove(totals: seq<real>, low: real, high: real)
    requires low <= high
    ensures AtLeast(totals, high) <= AtLeast(totals, low) <= |totals|
  {
    if totals == [] {
    } else {
      FewerAbove(totals[..|totals| - 1], low, high);
    }
  }

  lemma {:induction false} FewerTotals(group: seq<Sample>)
    ensures |Totals(group)| <= |group|
  {
    if group == [] {
    } else {
      FewerTotals(group[..|group| - 1]);
    }
  }

  /** In every summary percentiles and counts are in order, and there are figures exactly when a sample succeeded. */
  lemma SummaryIsOrdered(group: seq<Sample>)
    ensures var s := SummaryOf(group);
      && (s.countSuccess > 0 <==> s.p50.Some?) && (s.p50.Some? <==> s.p95.Some?)
      && (s.p95.Some? <==> s.p99.Some?) && (s.p99.Some? <==> s.max.Some?)
      && (s.p50.Some? ==> s.p50.value <= s.p95.value <= s.p99.value <= s.max.value)
      && s.slow90 <= s.slow15 <= s.slow5 <= s.countSuccess <= s.countTotal
  {
    var t := Totals(group);
    FewerTotals(group);
    FewerAbove(t, 5.0, 15.0);
    FewerAbove(t, 15.0, 90.0);
    if t != [] {
      MonotoneInP(t, 0.50, 0.95);
      MonotoneInP(t, 0.95, 0.99);
      SortedEnds(t);
      WithinMinAndMax(t, 0.99, Sorted(t)[0], MaxOf(t));
    }
  }

  /** Of 100k + 1 samples the figures are the ones at 50, 95 and 99 per cent of the way. */
  lemma RanksOfSummary(group: seq<Sample>, k: nat)
    requires |Totals(group)| == 100 * k + 1
    ensures var t, s := Sorted(Totals(group)), SummaryOf(group);
      s.p50 == Some(t[50 * k]) && s.p95 == Some(t[95 * k]) && s.p99 == Some(t[99 * k])
  {
    var t := Totals(group);
    Hundredths(k, 50, 0.50);
    Hundredths(k, 95, 0.95);
    Hundredths(k, 99, 0.99);
    LiesOnTheLine(t, 0.50, 50 * k, 0.0);
    LiesOnTheLine(t, 0.95, 95 * k, 0.0);
    LiesOnTheLine(t, 0.99, 99 * k, 0.0);
  }

  lemma Hundredths(k: nat, percent: nat, p: real)
    requires (percent == 50 && p == 0.50) || (percent == 95 && p == 0.95) || (percent == 99 && p == 0.99)
    ensures Times((100 * k) as real, p) == (percent * k) as real + 0.0
  {
    assert (100 * k) as real == 100.0 * k as real;
  }

  /** The samples that count: those that ended well and have a time. */
  predicate Succeeded(s: Sample) {
    s.total.Some? && s.exitCode == 0
  }

  /** How often a time occurs among those of the samples that count. */
  function TimesOf(group: seq<Sample>, x: real): nat {
    if group == [] then 0
    else
      var last := group[|group| - 1];
      TimesOf(group[..|group| - 1], x) + if Succeeded(last) && last.total == Some(x) then 1 else 0
  }

  lemma {:induction false} TotalsAre(group: seq<Sample>, x: real)
    ensures multiset(Totals(group))[x] == TimesOf(group, x)
  {
    if group == [] {
    } else {
      TotalsAre(group[..|group| - 1], x);
    }
  }

  lemma {:induction false} AtLeastCounts(totals: seq<real>, limit: real)
    ensures AtLeast(totals, limit) == |set i | 0 <= i < |totals| && totals[i] >= limit|
  {
    var all := set i | 0 <= i < |totals| && totals[i] >= limit;
    if totals == [] {
      assert all == {};
    } else {
      var n := |totals| - 1;
      var before := set i | 0 <= i < n && totals[..n][i] >= limit;
      AtLeastCounts(totals[..n], limit);
      assert all == before + if totals[n] >= limit then {n} else {};
    }
  }

  /** The times of a group are those of its successful samples; the slow counts are how many of them reach a limit. */
  lemma CountsOfSummary(group: seq<Sample>)
    ensures var s, t := SummaryOf(group), Totals(group);
      && s.countTotal == |group| && s.countSuccess == |t|
      && (forall x :: multiset(t)[x] == TimesOf(group, x))
      && s.slow5 == |set i | 0 <= i < |t| && t[i] >= 5.0|
      && s.slow15 == |set i | 0 <= i < |t| && t[i] >= 15.0|
      && s.slow90 == |set i | 0 <= i < |t| && t[i] >= 90.0|
      && (s.max.Some? ==> IsMax(t, s.max.value))
  {
    var t := Totals(group);
    forall x ensures multiset(t)[x] == TimesOf(group, x) { TotalsAre(group, x); }
    AtLeastCounts(t, 5.0);
    AtLeastCounts(t, 15.0);
    AtLeastCounts(t, 90.0);
  }

  function NameOf(key: Key): string {
    key.0 + "@" + key.1
  }

  /** Names of groups coincide only when a part contains the separator. */
  lemma NamesAreDistinct(a: Key, b: Key)
    requires NameOf(a) == NameOf(b) && '@' !in a.0 && '@' !in b.0
    ensures a == b
  {
    var n := NameOf(a);
    assert n[|a.0|] == '@' && n[|b.0|] == '@';
    assert forall i :: 0 <= i < |a.0| ==> n[i] == a.0[i];
    assert forall i :: 0 <= i < |b.0| ==> n[i] == b.0[i];
    assert |a.0| == |b.0|;
    assert a.0 == n[..|a.0|] == b.0 && a.1 == n[|a.0| + 1..] == b.1;
  }

  lemma {:induction false} GroupEmpty(samples: seq<Sample>, key: Key)
    ensures Group(samples, key) == [] <==> forall i :: 0 <= i < |samples| ==> KeyOf(samples[i]) != key
  {
    if samples == [] {
    } else {
      var n := |samples| - 1;
      GroupEmpty(samples[..n], key);
      assert forall i :: 0 <= i < n ==> samples[..n][i] == samples[i];
    }
  }

  /** The keys in the order of their first samples. */
  function Keys(samples: seq<Sample>): (keys: seq<Key>)
    ensures forall i, j :: 0 <= i < j < |keys| ==> keys[i] != keys[j]
  {
    if samples == [] then []
    else
      var keys, key := Keys(samples[..|samples| - 1]), KeyOf(samples[|samples| - 1]);
      if key in keys then keys else keys + [key]
  }

  lemma {:induction false} KeysAreGroups(samples: seq<Sample>, key: Key)
    ensures key in Keys(samples) <==> Group(samples, key) != []
  {
    if samples == [] {
    } else {
      KeysAreGroups(samples[..|samples| - 1], key);
    }
  }

  /** The first loop of summarize_samples: the groups. Their keys are kept in the order of their first samples. */
  method GroupSamples(samples: seq<Sample>) returns (byTarget: map<Key, seq<Sample>>, keys: seq<Key>)
    ensures keys == Keys(samples)
    ensures forall k <- keys :: k in byTarget && byTarget[k] == Group(samples, k)
  {
    byTarget, keys := map[], [];
    for n := 0 to |samples|
      invariant keys == Keys(samples[..n])
      invariant forall k :: k in byTarget <==> k in keys
      invariant forall k <- byTarget :: byTarget[k] == Group(samples[..n], k)
    {
      var key := KeyOf(samples[n]);
      assert samples[..n + 1][..n] == samples[..n];
      if key !in byTarget {
        KeysAreGroups(samples[..n], key);
        keys := keys + [key];
        byTarget := byTarget[key := []];
      }
      byTarget := byTarget[key := byTarget[key] + [samples[n]]];
    }
    assert samples[..|samples|] == samples;
  }

  /** The last of the first n keys that goes by a name, or -1. */
  function LastOf(keys: seq<Key>, n: nat, name: string): (i: int)
    requires n <= |keys|
    ensures -1 <= i < n
    ensures i >= 0 ==> NameOf(keys[i]) == name
    ensures forall j :: i < j < n ==> NameOf(keys[j]) != name
  {
    if n == 0 then -1 else if NameOf(keys[n - 1]) == name then n - 1 else LastOf(keys, n - 1, name)
  }

  /** Every name of a group has an entry, the summary of the last group of that name; and there is no other entry. */
  ghost predicate Summarizes(summary: map<string, Summary>, samples: seq<Sample>, keys: seq<Key>, n: nat)
    requires n <= |keys|
  {
    && (forall name :: name in summary <==> LastOf(keys, n, name) >= 0)
    && (forall name <- summary :: summary[name] == SummaryOf(Group(samples, keys[LastOf(keys, n, name)])))
  }

  lemma SummarizesOneMore(summary: map<string, Summary>, samples: seq<Sample>, keys: seq<Key>, n: nat)
    requires n < |keys| && Summarizes(summary, samples, keys, n)
    ensures Summarizes(summary[NameOf(keys[n]) := SummaryOf(Group(samples, keys[n]))], samples, keys, n + 1)
  {
    var name, entry := NameOf(keys[n]), SummaryOf(Group(samples, keys[n]));
    forall other | other != name ensures LastOf(keys, n + 1, other) == LastOf(keys, n, other) {}
    assert LastOf(keys, n + 1, name) == n;
  }

  /** summarize_samples: of several groups of one name the last one keeps the entry. */
  method SummarizeSamples(samples: seq<Sample>) returns (summary: map<string, Summary>)
    ensures Summarizes(summary, samples, Keys(samples), |Keys(samples)|)
  {
    var byTarget, keys := GroupSamples(samples);
    summary := map[];
    for n := 0 to |keys|
      invariant Summarizes(summary, samples, keys, n)
    {
      assert keys[n] in keys;
      SummarizesOneMore(summary, samples, keys, n);
      summary := summary[NameOf(keys[n]) := SummaryOf(byTarget[keys[n]])];
    }
  }

  /** A group keeps the entry of its name exactly when no later group has that name. */
  predicate KeepsEntry(keys: seq<Key>, i: nat)
    requires i < |keys|
  {
    LastOf(keys, |keys|, NameOf(keys[i])) == i
  }

  ghost predicate DistinctNames(keys: seq<Key>) {
    forall i, j :: 0 <= i < j < |keys| ==> NameOf(keys[i]) != NameOf(keys[j])
  }

  lemma AllKeepTheirs(keys: seq<Key>)
    ensures DistinctNames(keys) <==> forall i :: 0 <= i < |keys| ==> KeepsEntry(keys, i)
  {
    if forall i :: 0 <= i < |keys| ==> KeepsEntry(keys, i) {
      forall i, j | 0 <= i < j < |keys| ensures NameOf(keys[i]) != NameOf(keys[j]) { assert KeepsEntry(keys, i); }
    }
  }

  /** The samples of the first n groups. */
  function Grouped(samples: seq<Sample>, keys: seq<Key>, n: nat): nat
    requires n <= |keys|
  {
    if n == 0 then 0 else Grouped(samples, keys, n - 1) + |Group(samples, keys[n - 1])|
  }

  /** The samples that the entries left by the first n groups count. */
  function Counted(summary: map<string, Summary>, keys: seq<Key>, n: nat): nat
    requires n <= |keys|
  {
    if n == 0 then 0
    else
      var name := NameOf(keys[n - 1]);
      Counted(summary, keys, n - 1) +
      if KeepsEntry(keys, n - 1) && name in summary then summary[name].countTotal else 0
  }

  /** One more sample adds one to the group of its key. */
  lemma {:induction false} OneMoreSample(samples: seq<Sample>, keys: seq<Key>, n: nat)
    requires samples != [] && n <= |keys|
    requires forall i, j :: 0 <= i < j < |keys| ==> keys[i] != keys[j]
    ensures Grouped(samples, keys, n) == Grouped(samples[..|samples| - 1], keys, n)
                                         + if KeyOf(samples[|samples| - 1]) in keys[..n] then 1 else 0
  {
    if n == 0 {
    } else {
      OneMoreSample(samples, keys, n - 1);
      assert keys[..n] == keys[..n - 1] + [keys[n - 1]];
    }
  }

  lemma {:induction false} SameGroups(samples: seq<Sample>, keys: seq<Key>, more: seq<Key>, n: nat)
    requires n <= |keys|
    ensures Grouped(samples, keys + more, n) == Grouped(samples, keys, n)
  {
    if n == 0 {
    } else {
      SameGroups(samples, keys, more, n - 1);
    }
  }

  /** Every sample is in one group. */
  lemma {:induction false} EverySampleIsGrouped(samples: seq<Sample>)
    ensures Grouped(samples, Keys(samples), |Keys(samples)|) == |samples|
  {
    if samples == [] {
    } else {
      var before, key := samples[..|samples| - 1], KeyOf(samples[|samples| - 1]);
      var keys := Keys(before);
      EverySampleIsGrouped(before);
      OneMoreSample(samples, Keys(samples), |Keys(samples)|);
      assert Keys(samples)[..|Keys(samples)|] == Keys(samples);
      if key !in keys {
        SameGroups(before, keys, [key], |keys|);
        KeysAreGroups(before, key);
      }
    }
  }

  /** What the entry of a group that keeps it counts. */
  ghost predicate CountsItsGroup(summary: map<string, Summary>, samples: seq<Sample>, keys: seq<Key>, i: nat)
    requires i < |keys|
  {
    var name := NameOf(keys[i]);
    && |Group(samples, keys[i])| > 0
    && (KeepsEntry(keys, i) ==> name in summary && summary[name].countTotal == |Group(samples, keys[i])|)
  }

  lemma EntryOfGroup(summary: map<string, Summary>, samples: seq<Sample>, i: nat)
    requires Summarizes(summary, samples, Keys(samples), |Keys(samples)|) && i < |Keys(samples)|
    ensures CountsItsGroup(summary, samples, Keys(samples), i)
  {
    assert Keys(samples)[i] in Keys(samples);
    KeysAreGroups(samples, Keys(samples)[i]);
  }

  /** The entries count no more samples than the groups have, and as many only if every group keeps its entry. */
  lemma {:induction false} CountedOfGrouped(summary: map<string, Summary>, samples: seq<Sample>, keys: seq<Key>, n: nat)
    requires n <= |keys|
    requires forall i :: 0 <= i < |keys| ==> CountsItsGroup(summary, samples, keys, i)
    ensures Counted(summary, keys, n) <= Grouped(samples, keys, n)
    ensures Counted(summary, keys, n) == Grouped(samples, keys, n) <==> forall i :: 0 <= i < n ==> KeepsEntry(keys, i)
  {
    if n == 0 {
    } else {
      CountedOfGrouped(summary, samples, keys, n - 1);
      assert CountsItsGroup(summary, samples, keys, n - 1);
    }
  }

  /** The entries together count every sample exactly when no two groups have the same name, and fewer otherwise. */
  lemma EverySampleIsCountedExactly(summary: map<string, Summary>, samples: seq<Sample>)
    requires Summarizes(summary, samples, Keys(samples), |Keys(samples)|)
    ensures var counted := Counted(summary, Keys(samples), |Keys(samples)|);
      counted <= |samples| && (counted == |samples| <==> DistinctNames(Keys(samples)))
  {
    EverySampleIsGrouped(samples);
    forall i | 0 <= i < |Keys(samples)| ensures CountsItsGroup(summary, samples, Keys(samples), i) {
      EntryOfGroup(summary, samples, i);
    }
    CountedOfGrouped(summary, samples, Keys(samples), |Keys(samples)|);
    AllKeepTheirs(Keys(samples));
  }

  /** Every sample's group is among those; and without the separator in a target, no two groups share a name. */
  lemma EveryGroupIsSummarized(summary: map<string, Summary>, samples: seq<Sample>, i: nat)
    requires Summarizes(summary, samples, Keys(samples), |Keys(samples)|) && i < |samples|
    requires forall j :: 0 <= j < |samples| ==> '@' !in samples[j].target
    ensures var name := NameOf(KeyOf(samples[i]));
      name in summary && summary[name] == SummaryOf(Group(samples, KeyOf(samples[i])))
  {
    var keys, key := Keys(samples), KeyOf(samples[i]);
    GroupEmpty(samples, key);
    KeysAreGroups(samples, key);
    var k :| 0 <= k < |keys| && keys[k] == key;
    var last := LastOf(keys, |keys|, NameOf(key));
    assert keys[last] in keys;
    KeysAreGroups(samples, keys[last]);
    GroupEmpty(samples, keys[last]);
    NamesAreDistinct(key, keys[last]);
  }
}
