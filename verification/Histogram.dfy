/**
 Histograms: counts of observations between bucket bounds, updated in place.  The
 percentile is found from the counts alone; it is the bound of the bucket that holds the
 percentile of the observations themselves.
 */
module Histogram {

  /** How many observations are at most `x`. */
  ghost function CountUpTo(data: seq<int>, x: int): nat
  {
    if data == [] then 0 else CountUpTo(data[..|data| - 1], x) + if data[|data| - 1] <= x then 1 else 0
  }

  lemma {:induction false} CountConcat(a: seq<int>, b: seq<int>, x: int)
    ensures CountUpTo(a + b, x) == CountUpTo(a, x) + CountUpTo(b, x)
  {
    if b == [] {
      assert a + b == a;
    } else {
      var b' := b[..|b| - 1];
      assert (a + b)[..|a + b| - 1] == a + b';
      CountConcat(a, b', x);
    }
  }

  lemma {:induction false} CountGrows(data: seq<int>, x: int, y: int)
    requires x <= y
    ensures CountUpTo(data, x) <= CountUpTo(data, y) <= |data|
  {
    if data != [] { CountGrows(data[..|data| - 1], x, y); }
  }

  lemma {:induction false} CountAll(data: seq<int>, x: int)
    requires forall i | 0 <= i < |data| :: data[i] <= x
    ensures CountUpTo(data, x) == |data|
  {
    if data != [] { CountAll(data[..|data| - 1], x); }
  }

  lemma {:induction false} CountNone(data: seq<int>, x: int)
    requires forall i | 0 <= i < |data| :: data[i] > x
    ensures CountUpTo(data, x) == 0
  {
    if data != [] { CountNone(data[..|data| - 1], x); }
  }

  /** The counts do not depend on the order of the observations. */
  lemma {:induction false} CountPermuted(a: seq<int>, b: seq<int>, x: int)
    requires multiset(a) == multiset(b)
    ensures CountUpTo(a, x) == CountUpTo(b, x)
    decreases |a|
  {
    assert |multiset(a)| == |a| && |multiset(b)| == |b|;
    if a != [] {
      var v, a' := a[|a| - 1], a[..|a| - 1];
      assert a == a' + [v];
      assert v in multiset(b);
      var k :| 0 <= k < |b| && b[k] == v;
      var b' := b[..k] + b[k + 1..];
      Removed(b, k, x);
      assert multiset(a') == multiset(a) - multiset{v};
      CountPermuted(a', b', x);
    }
  }

  /** Taking one observation out. */
  lemma Removed(data: seq<int>, k: nat, x: int)
    requires k < |data|
    ensures var rest := data[..k] + data[k + 1..];
            && multiset(rest) == multiset(data) - multiset{data[k]}
            && CountUpTo(data, x) == CountUpTo(rest, x) + if data[k] <= x then 1 else 0
  {
    var a, v, b := data[..k], [data[k]], data[k + 1..];
    assert data == (a + v) + b;
    CountConcat(a + v, b, x);
    CountConcat(a, v, x);
    CountConcat(a, b, x);
    assert CountUpTo(v, x) == CountUpTo(v[..0], x) + if data[k] <= x then 1 else 0;
  }

  // ---------------------------------------------------------------------------
  // Percentiles of the observations
  // ---------------------------------------------------------------------------

  /** `v` is an observation, and number `k` of the sorted observations. */
  ghost predicate IsRanked(data: seq<int>, k: nat, v: int)
  {
    v in data && CountUpTo(data, v - 1) <= k < CountUpTo(data, v)
  }

  ghost predicate Ascending(s: seq<int>)
  {
    forall i, j | 0 <= i < j < |s| :: s[i] <= s[j]
  }

  lemma FewBelow(sorted: seq<int>, k: nat)
    requires Ascending(sorted) && k < |sorted|
    ensures CountUpTo(sorted, sorted[k] - 1) <= k
  {
    var v, a, b := sorted[k], sorted[..k], sorted[k..];
    assert sorted == a + b;
    CountConcat(a, b, v - 1);
    forall i | 0 <= i < |b| ensures b[i] > v - 1 {
      if i > 0 { assert sorted[k] <= sorted[k + i]; }
    }
    CountNone(b, v - 1);
    CountGrows(a, v - 1, v - 1);
  }

  lemma EnoughUpTo(sorted: seq<int>, k: nat)
    requires Ascending(sorted) && k < |sorted|
    ensures k < CountUpTo(sorted, sorted[k])
  {
    var v, a, b := sorted[k], sorted[..k + 1], sorted[k + 1..];
    assert sorted == a + b;
    CountConcat(a, b, v);
    CountAll(a, v);
  }

  /** In every sorted arrangement of the observations, the element at `k` is the ranked one. */
  lemma SortedIsRanked(data: seq<int>, sorted: seq<int>, k: nat)
    requires multiset(data) == multiset(sorted) && Ascending(sorted) && k < |sorted|
    ensures IsRanked(data, k, sorted[k])
  {
    CountPermuted(data, sorted, sorted[k]);
    CountPermuted(data, sorted, sorted[k] - 1);
    FewBelow(sorted, k);
    EnoughUpTo(sorted, k);
    assert sorted[k] in multiset(data);
  }

  /** The element at `k` is at most `x` exactly if more than `k` observations are. */
  lemma RankAndCount(data: seq<int>, k: nat, v: int, x: int)
    requires IsRanked(data, k, v)
    ensures v <= x <==> k < CountUpTo(data, x)
  {
    if v <= x { CountGrows(data, v, x); } else { CountGrows(data, x, v - 1); }
  }

  /** Bounds of buckets. */
  ghost predicate Bounds(bounds: seq<int>)
  {
    bounds != [] && forall i, j | 0 <= i < j < |bounds| :: bounds[i] < bounds[j]
  }

  /** The bucket of a value. */
  ghost predicate InBucket(bounds: seq<int>, b: nat, val: int)
    requires b < |bounds|
  {
    val <= bounds[b] && (b == 0 || val > bounds[b - 1])
  }

  /** The observations up to the bounds of the buckets before `b`. */
  ghost function Below(bounds: seq<int>, data: seq<int>, b: nat): nat
    requires b <= |bounds|
  {
    if b == 0 then 0 else CountUpTo(data, bounds[b - 1])
  }

  /** The counts are the numbers of observations in each bucket. */
  ghost predicate Counts(bounds: seq<int>, data: seq<int>, counts: seq<int>)
  {
    |counts| == |bounds| && forall b: nat | b < |bounds| :: counts[b] == CountUpTo(data, bounds[b]) - Below(bounds, data, b)
  }

  lemma OneMore(data: seq<int>, val: int, x: int)
    ensures CountUpTo(data + [val], x) == CountUpTo(data, x) + if val <= x then 1 else 0
  {
    assert (data + [val])[..|data|] == data;
  }

  lemma OneMoreInBucket(bounds: seq<int>, data: seq<int>, val: int, b: nat)
    requires Bounds(bounds) && b < |bounds|
    ensures CountUpTo(data + [val], bounds[b]) - Below(bounds, data + [val], b)
         == CountUpTo(data, bounds[b]) - Below(bounds, data, b) + if InBucket(bounds, b, val) then 1 else 0
  {
    OneMore(data, val, bounds[b]);
    if b > 0 { OneMore(data, val, bounds[b - 1]); }
  }

  /** A new observation changes the count of its bucket, if it has one, and no other. */
  lemma Collected(bounds: seq<int>, data: seq<int>, counts: seq<int>, val: int, counts': seq<int>)
    requires Bounds(bounds) && Counts(bounds, data, counts) && Changed(bounds, val, counts, counts', 1)
    ensures Counts(bounds, data + [val], counts')
  {
    forall c: nat | c < |bounds| ensures counts'[c] == CountUpTo(data + [val], bounds[c]) - Below(bounds, data + [val], c) {
      OneMoreInBucket(bounds, data, val, c);
    }
  }

  /** What is left when observation `k` is taken out. */
  lemma Discarded(bounds: seq<int>, data: seq<int>, counts: seq<int>, k: nat, counts': seq<int>)
    requires Bounds(bounds) && Counts(bounds, data, counts) && k < |data| && Changed(bounds, data[k], counts, counts', -1)
    ensures Counts(bounds, data[..k] + data[k + 1..], counts')
  {
    var rest := data[..k] + data[k + 1..];
    forall c: nat | c < |bounds| ensures counts'[c] == CountUpTo(rest, bounds[c]) - Below(bounds, rest, c) {
      Removed(data, k, bounds[c]);
      if c > 0 { Removed(data, k, bounds[c - 1]); }
    }
  }

  /** A bucket with an observation has a positive count. */
  lemma CountIsPositive(bounds: seq<int>, data: seq<int>, counts: seq<int>, k: nat, b: nat)
    requires Bounds(bounds) && Counts(bounds, data, counts) && k < |data| && b < |bounds| && InBucket(bounds, b, data[k])
    ensures counts[b] > 0
  {
    var rest := data[..k] + data[k + 1..];
    Removed(data, k, bounds[b]);
    if b > 0 {
      Removed(data, k, bounds[b - 1]);
      CountGrows(rest, bounds[b - 1], bounds[b]);
    }
  }

  // ---------------------------------------------------------------------------
  // The histogram
  // ---------------------------------------------------------------------------

  /** The middle, computed without overflow, lies in the range and is not its end. */
  lemma Midpoint(begin: nat, end: nat)
    requires begin < end
    ensures begin <= begin / 2 + end / 2 < end
  {
  }

  /** Binary search for the bucket of a value; -1 if it is beyond the last bound. */
  method LookupBucket(bounds: seq<int>, val: int) returns (b: int)
    requires Bounds(bounds)
    ensures -1 <= b < |bounds| && (b >= 0 ==> InBucket(bounds, b, val)) && (b < 0 ==> val > bounds[|bounds| - 1])
  {
    var begin, end := 0, |bounds| - 1;
    while begin != end
      invariant 0 <= begin <= end < |bounds|
      invariant begin > 0 ==> val > bounds[begin - 1]
      invariant end < |bounds| - 1 ==> val <= bounds[end]
      decreases end - begin
    {
      Midpoint(begin, end);
      var mid := begin / 2 + end / 2;
      if val > bounds[mid] { begin := mid + 1; } else { end := mid; }
    }
    b := if val <= bounds[begin] then begin else -1;
  }

  /** `counts'` has `change` added in the bucket of the value, and is the same elsewhere. */
  ghost predicate Changed(bounds: seq<int>, val: int, counts: seq<int>, counts': seq<int>, change: int)
  {
    && |counts| == |counts'| == |bounds|
    && forall c: nat | c < |bounds| :: counts'[c] == counts[c] + if InBucket(bounds, c, val) then change else 0
  }

  lemma ChangeOne(bounds: seq<int>, val: int, counts: seq<int>, b: nat, change: int)
    requires Bounds(bounds) && |counts| == |bounds| && b < |bounds| && InBucket(bounds, b, val)
    ensures Changed(bounds, val, counts, counts[b := counts[b] + change], change)
  {
  }

  lemma ChangeNone(bounds: seq<int>, val: int, counts: seq<int>, change: int)
    requires Bounds(bounds) && |counts| == |bounds| && val > bounds[|bounds| - 1]
    ensures Changed(bounds, val, counts, counts, change)
  {
  }

  // ---------------------------------------------------------------------------
  // Percentiles from the counts
  // ---------------------------------------------------------------------------

  /** More than `pct` percent of the observations are up to the bound of bucket `b`, and of no earlier one. */
  ghost predicate Hit(bounds: seq<int>, data: seq<int>, pct: nat, b: nat)
  {
    && b <= |bounds| && (b < |bounds| ==> CountUpTo(data, bounds[b]) * 100 > |data| * pct)
    && (b > 0 ==> CountUpTo(data, bounds[b - 1]) * 100 <= |data| * pct)
  }

  lemma Scaled(n: nat, pct: nat, count: nat)
    ensures count * 100 > n * pct <==> count > n * pct / 100
  {
  }

  /** The bucket that is hit holds the percentile of the observations; beyond the last bucket, so does it lie. */
  lemma HitHoldsRank(bounds: seq<int>, data: seq<int>, pct: nat, b: nat, v: int)
    requires Bounds(bounds) && Hit(bounds, data, pct, b) && IsRanked(data, |data| * pct / 100, v)
    ensures if b < |bounds| then InBucket(bounds, b, v) else v > bounds[|bounds| - 1]
  {
    var k := |data| * pct / 100;
    if b < |bounds| {
      Scaled(|data|, pct, CountUpTo(data, bounds[b]));
      RankAndCount(data, k, v, bounds[b]);
    }
    if b > 0 {
      Scaled(|data|, pct, CountUpTo(data, bounds[b - 1]));
      RankAndCount(data, k, v, bounds[b - 1]);
    }
  }

  /** From 100 percent on, and without observations, no bucket is hit. */
  lemma NoHit(bounds: seq<int>, data: seq<int>, pct: nat, b: nat)
    requires Bounds(bounds) && Hit(bounds, data, pct, b) && (pct >= 100 || data == [])
    ensures b == |bounds|
  {
    assert |data| * 100 <= |data| * pct;
    if b < |bounds| { CountGrows(data, bounds[b], bounds[b]); }
  }

  /** The bucket of `v` has the upper bound `r`; beyond the last bucket it is the maximum. */
  ghost predicate IsUpper(bounds: seq<int>, max: int, v: int, r: int)
    requires Bounds(bounds)
  {
    if v > bounds[|bounds| - 1] then r == max else exists b :: 0 <= b < |bounds| && InBucket(bounds, b, v) && r == bounds[b]
  }

  /** The bucket before that of `v` has the upper bound `r`; the first bucket stands for its own predecessor. */
  ghost predicate IsLower(bounds: seq<int>, max: int, v: int, r: int)
    requires Bounds(bounds)
  {
    if v > bounds[|bounds| - 1] then r == max
    else exists b :: 0 <= b < |bounds| && InBucket(bounds, b, v) && r == bounds[if b > 0 then b - 1 else 0]
  }

  /** `v` is the percentile of the observations: what stands there when they are sorted. */
  ghost predicate IsPercentile(data: seq<int>, pct: nat, v: int)
  {
    exists sorted :: multiset(data) == multiset(sorted) && Ascending(sorted) && |data| * pct / 100 < |sorted| && v == sorted[|data| * pct / 100]
  }

  /** Below 100 percent, observations have a percentile. */
  lemma PercentileExists(data: seq<int>, pct: nat) returns (v: int)
    requires data != [] && pct < 100
    ensures IsPercentile(data, pct, v)
  {
    var sorted := SortedVersion(data);
    assert |sorted| == |multiset(sorted)| == |data|;
    assert |data| * pct / 100 < |data| by { assert |data| * pct < |data| * 100; }
    v := sorted[|data| * pct / 100];
  }

  lemma {:induction false} SortedVersion(data: seq<int>) returns (sorted: seq<int>)
    ensures multiset(data) == multiset(sorted) && Ascending(sorted)
  {
    if data == [] {
      sorted := [];
    } else {
      var last := |data| - 1;
      var rest := SortedVersion(data[..last]);
      sorted := InsertedAt(rest, data[last]);
      assert data == data[..last] + [data[last]];
    }
  }

  lemma {:induction false} InsertedAt(s: seq<int>, x: int) returns (r: seq<int>)
    requires Ascending(s)
    ensures Ascending(r) && multiset(r) == multiset(s) + multiset{x}
  {
    if s == [] || s[|s| - 1] <= x {
      r := s + [x];
    } else {
      var last := |s| - 1;
      var front := InsertedAt(s[..last], x);
      assert s == s[..last] + [s[last]];
      forall i | 0 <= i < |front| ensures front[i] <= s[last] {
        assert front[i] in multiset(front);
        if front[i] != x { assert front[i] in s[..last]; }
      }
      r := front + [s[last]];
    }
  }

  lemma PercentileIsRanked(data: seq<int>, pct: nat, v: int)
    requires IsPercentile(data, pct, v)
    ensures IsRanked(data, |data| * pct / 100, v)
  {
    var sorted :| multiset(data) == multiset(sorted) && Ascending(sorted) && |data| * pct / 100 < |sorted| && v == sorted[|data| * pct / 100];
    SortedIsRanked(data, sorted, |data| * pct / 100);
  }

  /** `r` estimates the percentile of the observations from above: it is the bound of its bucket. */
  ghost predicate UpperEstimate(bounds: seq<int>, data: seq<int>, max: int, pct: nat, r: int)
    requires Bounds(bounds)
  {
    && (pct >= 100 || data == [] ==> r == max)
    && (forall v | IsPercentile(data, pct, v) :: v <= r && IsUpper(bounds, max, v, r))
  }

  /** `r` estimates the percentile of the observations from below: strictly, except in the first bucket and beyond the last. */
  ghost predicate LowerEstimate(bounds: seq<int>, data: seq<int>, max: int, pct: nat, r: int)
    requires Bounds(bounds)
  {
    && (pct >= 100 || data == [] ==> r == max)
    && (forall v | IsPercentile(data, pct, v) :: IsLower(bounds, max, v, r) && (bounds[0] < v <= bounds[|bounds| - 1] ==> r < v))
  }

  lemma HitIsUpper(bounds: seq<int>, data: seq<int>, max: int, pct: nat, b: nat)
    requires Bounds(bounds) && Hit(bounds, data, pct, b) && forall i | 0 <= i < |data| :: data[i] <= max
    ensures UpperEstimate(bounds, data, max, pct, if b < |bounds| then bounds[b] else max)
  {
    if pct >= 100 || data == [] { NoHit(bounds, data, pct, b); }
    var r := if b < |bounds| then bounds[b] else max;
    forall v | IsPercentile(data, pct, v) ensures v <= r && IsUpper(bounds, max, v, r) {
      PercentileIsRanked(data, pct, v);
      HitHoldsRank(bounds, data, pct, b, v);
    }
  }

  lemma HitIsLower(bounds: seq<int>, data: seq<int>, max: int, pct: nat, b: nat)
    requires Bounds(bounds) && Hit(bounds, data, pct, b)
    ensures LowerEstimate(bounds, data, max, pct, if b < |bounds| then bounds[if b > 0 then b - 1 else 0] else max)
  {
    if pct >= 100 || data == [] { NoHit(bounds, data, pct, b); }
    var r := if b < |bounds| then bounds[if b > 0 then b - 1 else 0] else max;
    forall v | IsPercentile(data, pct, v) ensures IsLower(bounds, max, v, r) && (bounds[0] < v <= bounds[|bounds| - 1] ==> r < v) {
      PercentileIsRanked(data, pct, v);
      HitHoldsRank(bounds, data, pct, b, v);
    }
  }

  lemma OneBucketMore(bounds: seq<int>, data: seq<int>, counts: seq<int>, b: nat)
    requires Counts(bounds, data, counts) && b < |bounds|
    ensures Below(bounds, data, b) + counts[b] == CountUpTo(data, bounds[b]) == Below(bounds, data, b + 1)
  {
  }

  /** The first bucket with which more than `pct` percent of the observations are counted. */
  method FindHit(bounds: seq<int>, counts: array<nat>, total: nat, pct: nat, ghost data: seq<int>) returns (b: nat)
    requires Bounds(bounds) && Counts(bounds, data, counts[..]) && total == |data|
    ensures Hit(bounds, data, pct, b)
  {
    var count: nat := 0;
    b := 0;
    while b < |bounds|
      invariant 0 <= b <= |bounds| && count == Below(bounds, data, b) && (b > 0 ==> count * 100 <= total * pct)
    {
      OneBucketMore(bounds, data, counts[..], b);
      count := count + counts[..][b];
      if count * 100 > total * pct { return; }
      b := b + 1;
    }
  }

  /** The state of a histogram as values. */
  ghost predicate Describes(bounds: seq<int>, counts: seq<int>, total: int, max: int, data: seq<int>)
  {
    && Bounds(bounds) && Counts(bounds, data, counts) && total == |data|
    && bounds[|bounds| - 1] <= max && forall i | 0 <= i < |data| :: data[i] <= max
  }

  lemma DescribesNothing(bounds: seq<int>, counts: seq<int>)
    requires Bounds(bounds) && |counts| == |bounds| && forall c | 0 <= c < |counts| :: counts[c] == 0
    ensures Describes(bounds, counts, 0, bounds[|bounds| - 1], [])
  {
  }

  lemma DescribesMore(bounds: seq<int>, counts: seq<int>, total: int, max: int, data: seq<int>, val: int, counts': seq<int>)
    requires Describes(bounds, counts, total, max, data) && Changed(bounds, val, counts, counts', 1)
    ensures Describes(bounds, counts', total + 1, if max < val then val else max, data + [val])
  {
    Collected(bounds, data, counts, val, counts');
  }

  lemma DescribesLess(bounds: seq<int>, counts: seq<int>, total: int, max: int, data: seq<int>, k: nat, counts': seq<int>)
    requires Describes(bounds, counts, total, max, data) && k < |data| && Changed(bounds, data[k], counts, counts', -1)
    ensures Describes(bounds, counts', total - 1, max, data[..k] + data[k + 1..])
  {
    Discarded(bounds, data, counts, k, counts');
  }

  /** One more in the bucket of the value. */
  method Bump(bounds: seq<int>, counts: array<nat>, val: int)
    requires Bounds(bounds) && counts.Length == |bounds|
    modifies counts
    ensures Changed(bounds, val, old(counts[..]), counts[..], 1)
  {
    var b := LookupBucket(bounds, val);
    if b >= 0 {
      ChangeOne(bounds, val, counts[..], b, 1);
      counts[b] := counts[b] + 1;
    } else {
      ChangeNone(bounds, val, counts[..], 1);
    }
  }

  /** One less in the bucket of observation `k`, which is never empty. */
  method Drop(bounds: seq<int>, counts: array<nat>, val: int, ghost data: seq<int>, ghost k: nat)
    requires Bounds(bounds) && Counts(bounds, data, counts[..]) && k < |data| && data[k] == val
    modifies counts
    ensures Changed(bounds, val, old(counts[..]), counts[..], -1)
  {
    var b := LookupBucket(bounds, val);
    if b >= 0 {
      CountIsPositive(bounds, data, counts[..], k, b);
      ChangeOne(bounds, val, counts[..], b, -1);
      counts[b] := counts[b] - 1;
    } else {
      ChangeNone(bounds, val, counts[..], -1);
    }
  }

  method Zero(counts: array<nat>)
    modifies counts
    ensures forall c | 0 <= c < counts.Length :: counts[c] == 0
  {
    var i := 0;
    while i < counts.Length
      invariant 0 <= i <= counts.Length && forall c | 0 <= c < i :: counts[c] == 0
    {
      counts[i] := 0;
      i := i + 1;
    }
  }

  class Hist {
    const bounds: seq<int>
    const counts: array<nat>
    var total: nat
    var max: int
    /** The observations that were collected and not discarded. */
    ghost var data: seq<int>

    ghost predicate Valid()
      reads this, counts
    {
      Describes(bounds, counts[..], total, max, data)
    }

    constructor (buckets: seq<int>)
      requires Bounds(buckets)
      ensures Valid() && fresh(counts) && bounds == buckets && data == [] && max == buckets[|buckets| - 1]
    {
      bounds := buckets;
      counts := new nat[|buckets|](_ => 0);
      total, max, data := 0, buckets[|buckets| - 1], [];
      new;
      DescribesNothing(bounds, counts[..]);
    }

    method Reset()
      requires Valid()
      modifies this, counts
      ensures Valid() && data == [] && max == bounds[|bounds| - 1]
    {
      Zero(counts);
      total, max, data := 0, bounds[|bounds| - 1], [];
      DescribesNothing(bounds, counts[..]);
    }

    method Collect(val: int)
      requires Valid()
      modifies this, counts
      ensures Valid() && data == old(data) + [val] && max == (if old(max) < val then val else old(max))
    {
      Bump(bounds, counts, val);
      DescribesMore(bounds, old(counts[..]), total, max, data, val, counts[..]);
      if max < val { max := val; }
      total := total + 1;
      data := data + [val];
    }

    /** Take a collected observation out again. */
    method Discard(val: int)
      requires Valid() && val in data
      modifies this, counts
      ensures Valid() && multiset(data) == multiset(old(data)) - multiset{val} && max == old(max)
    {
      ghost var k :| 0 <= k < |data| && data[k] == val;
      Drop(bounds, counts, val, data, k);
      DescribesLess(bounds, old(counts[..]), total, max, data, k, counts[..]);
      Removed(data, k, 0);
      total := total - 1;
      data := data[..k] + data[k + 1..];
    }

    /** An upper bound of the percentile. */
    method Percentile(pct: nat) returns (r: int)
      requires Valid()
      ensures UpperEstimate(bounds, data, max, pct, r)
    {
      var b := FindHit(bounds, counts, total, pct, data);
      r := if b < |bounds| then bounds[b] else max;
      HitIsUpper(bounds, data, max, pct, b);
    }

    /** A lower bound of the percentile. */
    method PercentileLower(pct: nat) returns (r: int)
      requires Valid()
      ensures LowerEstimate(bounds, data, max, pct, r)
    {
      var b := FindHit(bounds, counts, total, pct, data);
      r := if b < |bounds| then bounds[if b > 0 then b - 1 else 0] else max;
      HitIsLower(bounds, data, max, pct, b);
    }
  }
}
