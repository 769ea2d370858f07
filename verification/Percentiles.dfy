/** internal/metrics/metrics.go: percentile and average of samples, and what the largest of
    several workers' percentiles says about all their samples together. */
module Percentiles {
  import opened Prelude

  ghost predicate Sorted(s: seq<int>) {
    forall i, j :: 0 <= i < j < |s| ==> s[i] <= s[j]
  }

  function Insert(x: int, s: seq<int>): seq<int> {
    if s == [] || x <= s[0] then [x] + s else [s[0]] + Insert(x, s[1..])
  }

  /** The sorted copy that sort.Slice leaves; which algorithm it uses does not matter. */
  function SortedCopy(s: seq<int>): seq<int> {
    if s == [] then [] else Insert(s[0], SortedCopy(s[1..]))
  }

  lemma {:induction false} InsertAdds(x: int, s: seq<int>)
    ensures multiset(Insert(x, s)) == multiset(s) + multiset{x}
  {
    if s != [] && x > s[0] {
      InsertAdds(x, s[1..]);
      assert s == [s[0]] + s[1..];
    }
  }

  lemma {:induction false} InsertSorts(x: int, s: seq<int>)
    requires Sorted(s)
    ensures Sorted(Insert(x, s))
    ensures Insert(x, s)[0] == if s == [] then x else Min(x, s[0])
  {
    if s != [] && x > s[0] {
      InsertSorts(x, s[1..]);
      var r := Insert(x, s[1..]);
      assert forall i :: 0 <= i < |r| ==> r[0] <= r[i];
    }
  }

  lemma {:induction false} SortedCopyKeeps(s: seq<int>)
    ensures multiset(SortedCopy(s)) == multiset(s)
  {
    if s != [] {
      SortedCopyKeeps(s[1..]);
      InsertAdds(s[0], SortedCopy(s[1..]));
      assert s == [s[0]] + s[1..];
    }
  }

  lemma {:induction false} SortedCopyIsSorted(s: seq<int>)
    ensures Sorted(SortedCopy(s))
  {
    if s != [] {
      SortedCopyIsSorted(s[1..]);
      InsertSorts(s[0], SortedCopy(s[1..]));
    }
  }

  lemma SortedCopySorts(s: seq<int>)
    ensures Sorted(SortedCopy(s)) && multiset(SortedCopy(s)) == multiset(s) && |SortedCopy(s)| == |s|
  {
    SortedCopyKeeps(s);
    SortedCopyIsSorted(s);
    SameLength(SortedCopy(s), s);
  }

  // ----- Rank --------------------------------------------------------------------------------------

  function CountAtMost(s: seq<int>, m: int): nat {
    if s == [] then 0 else (if s[0] <= m then 1 else 0) + CountAtMost(s[1..], m)
  }

  lemma {:induction false} CountConcat(s: seq<int>, t: seq<int>, m: int)
    ensures CountAtMost(s + t, m) == CountAtMost(s, m) + CountAtMost(t, m)
  {
    if s == [] {
      assert s + t == t;
    } else {
      assert (s + t)[1..] == s[1..] + t;
      CountConcat(s[1..], t, m);
    }
  }

  lemma {:induction false} CountPermuted(s: seq<int>, t: seq<int>, m: int)
    requires multiset(s) == multiset(t)
    ensures CountAtMost(s, m) == CountAtMost(t, m)
    decreases |s|
  {
    if s == [] {
      assert |multiset(t)| == 0;
    } else {
      var i := TakeOut(s, t);
      CountPermuted(s[1..], t[..i] + t[i + 1..], m);
      CountConcat(t[..i], t[i + 1..], m);
      CountConcat(t[..i], [t[i]] + t[i + 1..], m);
      CountConcat([t[i]], t[i + 1..], m);
    }
  }

  /** In a sorted list the value at k is at most m exactly when more than k values are. */
  lemma {:induction false} SortedRank(s: seq<int>, k: nat, m: int)
    requires Sorted(s) && k < |s|
    ensures s[k] <= m <==> CountAtMost(s, m) > k
  {
    if s[0] > m {
      NoneAtMost(s, m);
    } else if k > 0 {
      SortedRank(s[1..], k - 1, m);
    }
  }

  lemma {:induction false} NoneAtMost(s: seq<int>, m: int)
    requires forall i :: 0 <= i < |s| ==> s[i] > m
    ensures CountAtMost(s, m) == 0
  {
    if s != [] {
      NoneAtMost(s[1..], m);
    }
  }

  // ----- Percentile ----------------------------------------------------------------------------------

  function Percentile(sorted: seq<int>, p: nat): int {
    if |sorted| == 0 then 0
    else
      var idx := |sorted| * p / 100;
      if idx >= |sorted| then sorted[|sorted| - 1] else sorted[idx]
  }

  function PercentileOf(samples: seq<int>, p: nat): int {
    Percentile(SortedCopy(samples), p)
  }

  lemma IndexInRange(n: nat, p: nat)
    requires n > 0 && p < 100
    ensures n * p / 100 < n
  {
    assert n * p < n * 100;
  }

  /** What the index formula means, without sorting: the percentile is the least value that more
      than p hundredths of the samples, rounded down, do not exceed. */
  lemma {:induction false} PercentileRank(samples: seq<int>, p: nat, m: int)
    requires samples != [] && p < 100
    ensures PercentileOf(samples, p) in samples
    ensures PercentileOf(samples, p) <= m <==> CountAtMost(samples, m) > |samples| * p / 100
  {
    SortedCopySorts(samples);
    RankInSorted(SortedCopy(samples), samples, |samples|, p, m);
  }

  lemma RankInSorted(sorted: seq<int>, samples: seq<int>, n: nat, p: nat, m: int)
    requires Sorted(sorted) && multiset(sorted) == multiset(samples) && |sorted| == n > 0 && p < 100
    ensures Percentile(sorted, p) in samples
    ensures Percentile(sorted, p) <= m <==> CountAtMost(samples, m) > n * p / 100
  {
    PercentileIndex(sorted, p);
    PercentileAt(sorted, samples, n * p / 100, m);
  }

  /** The cut-off in the index formula never applies below 100. */
  lemma PercentileIndex(sorted: seq<int>, p: nat)
    requires sorted != [] && p < 100
    ensures |sorted| * p / 100 < |sorted| && Percentile(sorted, p) == sorted[|sorted| * p / 100]
  {
    IndexInRange(|sorted|, p);
  }

  lemma PercentileAt(sorted: seq<int>, samples: seq<int>, k: nat, m: int)
    requires Sorted(sorted) && multiset(sorted) == multiset(samples) && k < |sorted|
    ensures sorted[k] in samples
    ensures sorted[k] <= m <==> CountAtMost(samples, m) > k
  {
    SortedRank(sorted, k, m);
    CountPermuted(sorted, samples, m);
    assert sorted[k] in multiset(samples);
  }

  // ----- Several workers -------------------------------------------------------------------------------

  lemma {:induction false} CountOverParts(parts: seq<seq<int>>, p: nat, m: int)
    requires p < 100
    requires forall i :: 0 <= i < |parts| ==> PercentileOf(parts[i], p) <= m
    ensures |Flatten(parts)| > 0 ==> 100 * CountAtMost(Flatten(parts), m) > |Flatten(parts)| * p
    ensures |Flatten(parts)| == 0 ==> CountAtMost(Flatten(parts), m) == 0
  {
    if parts != [] {
      var front, last := parts[..|parts| - 1], parts[|parts| - 1];
      CountOverParts(front, p, m);
      CountConcat(Flatten(front), last, m);
      PartExceeds(last, p, m);
      ExceedTogether(|Flatten(front)|, CountAtMost(Flatten(front), m), |last|, CountAtMost(last, m), p);
    }
  }

  /** One part: strictly more than p hundredths of its samples do not exceed m. */
  lemma PartExceeds(part: seq<int>, p: nat, m: int)
    requires p < 100 && PercentileOf(part, p) <= m
    ensures |part| > 0 ==> 100 * CountAtMost(part, m) > |part| * p
    ensures |part| == 0 ==> CountAtMost(part, m) == 0
  {
    if part != [] {
      PercentileRank(part, p, m);
      var q := |part| * p / 100;
      assert |part| * p < 100 * (q + 1) <= 100 * CountAtMost(part, m);
    }
  }

  lemma ExceedTogether(n1: nat, c1: nat, n2: nat, c2: nat, p: nat)
    requires if n1 > 0 then 100 * c1 > n1 * p else c1 == 0
    requires if n2 > 0 then 100 * c2 > n2 * p else c2 == 0
    ensures if n1 + n2 > 0 then 100 * (c1 + c2) > (n1 + n2) * p else c1 + c2 == 0
  {
    assert (n1 + n2) * p == n1 * p + n2 * p;
  }

  /** The largest of the workers' percentiles is never below the percentile of all their samples
      together, in whatever order these came; workers without samples report zero. */
  lemma {:induction false} MaxPercentileIsPessimistic(parts: seq<seq<int>>, merged: seq<int>, p: nat, m: int)
    requires p < 100 && m >= 0
    requires multiset(merged) == multiset(Flatten(parts))
    requires forall i :: 0 <= i < |parts| ==> PercentileOf(parts[i], p) <= m
    ensures PercentileOf(merged, p) <= m
  {
    var all := Flatten(parts);
    SameLength(merged, all);
    if merged != [] {
      CountOverParts(parts, p, m);
      CountPermuted(merged, all, m);
      PercentileRank(merged, p, m);
    }
  }

  /** Samples in another order have the same percentile. */
  lemma PercentilePermuted(s: seq<int>, t: seq<int>, p: nat)
    requires p < 100 && multiset(s) == multiset(t)
    ensures PercentileOf(s, p) == PercentileOf(t, p)
  {
    SameLength(s, t);
    if s != [] {
      PercentileRank(s, p, PercentileOf(t, p));
      PercentileRank(t, p, PercentileOf(t, p));
      PercentileRank(s, p, PercentileOf(s, p));
      PercentileRank(t, p, PercentileOf(s, p));
      CountPermuted(s, t, PercentileOf(t, p));
      CountPermuted(s, t, PercentileOf(s, p));
    }
  }

  /** The bound can be strict: of the samples 1, 1, 1 and 9 the merged median is 1. */
  lemma MaxPercentileCanOverstate()
    ensures PercentileOf([1, 1, 1], 50) == 1 && PercentileOf([9], 50) == 9
    ensures PercentileOf([1, 1, 1, 9], 50) == 1
  {
    assert SortedCopy([9]) == [9];
    assert SortedCopy([1, 9]) == [1, 9];
    assert SortedCopy([1, 1, 9]) == [1, 1, 9] by {
      assert [1, 1, 9][1..] == [1, 9];
    }
    assert SortedCopy([1, 1, 1, 9]) == [1, 1, 1, 9] by {
      assert [1, 1, 1, 9][1..] == [1, 1, 9];
    }
    assert SortedCopy([1]) == [1];
    assert SortedCopy([1, 1]) == [1, 1] by {
      assert [1, 1][1..] == [1];
    }
    assert SortedCopy([1, 1, 1]) == [1, 1, 1] by {
      assert [1, 1, 1][1..] == [1, 1];
    }
  }

  // ----- Average ----------------------------------------------------------------------------------------

  function Average(samples: seq<int>): real {
    if samples == [] then 0.0 else Sum(samples) as real / |samples| as real
  }

  lemma {:induction false} SumPermuted(s: seq<int>, t: seq<int>)
    requires multiset(s) == multiset(t)
    ensures Sum(s) == Sum(t)
    decreases |s|
  {
    if s == [] {
      assert |multiset(t)| == 0;
    } else {
      var i := TakeOut(s, t);
      SumPermuted(s[1..], t[..i] + t[i + 1..]);
      SumConcat(t[..i], t[i + 1..]);
      SumConcat(t[..i], [t[i]] + t[i + 1..]);
      SumConcat([t[i]], t[i + 1..]);
    }
  }

  lemma {:induction false} SumConcat(s: seq<int>, t: seq<int>)
    ensures Sum(s + t) == Sum(s) + Sum(t)
  {
    if s == [] {
      assert s + t == t;
    } else {
      assert (s + t)[1..] == s[1..] + t;
      SumConcat(s[1..], t);
    }
  }

  ghost predicate SumWithin(s: seq<int>, a: real) {
    Sum(s) as real <= a * |s| as real
  }

  lemma {:induction false} SumOverParts(parts: seq<seq<int>>, a: real)
    requires forall i :: 0 <= i < |parts| ==> Average(parts[i]) <= a
    ensures SumWithin(Flatten(parts), a)
  {
    if parts != [] {
      var front, last := parts[..|parts| - 1], parts[|parts| - 1];
      SumOverParts(front, a);
      PartSum(last, a);
      WithinTogether(Flatten(front), last, a);
    }
  }

  lemma PartSum(part: seq<int>, a: real)
    requires Average(part) <= a
    ensures SumWithin(part, a)
  {
    if part != [] {
      AverageBound(Sum(part) as real, |part| as real, a);
    }
  }

  lemma WithinTogether(s: seq<int>, t: seq<int>, a: real)
    requires SumWithin(s, a) && SumWithin(t, a)
    ensures SumWithin(s + t, a)
  {
    SumConcat(s, t);
    assert a * (|s| as real + |t| as real) == a * |s| as real + a * |t| as real;
  }

  lemma AverageBound(sum: real, n: real, a: real)
    requires n > 0.0
    ensures sum / n <= a <==> sum <= a * n
  {
    assert sum == (sum / n) * n;
  }

  lemma AveragePermuted(s: seq<int>, t: seq<int>)
    requires multiset(s) == multiset(t)
    ensures Average(s) == Average(t)
  {
    SameLength(s, t);
    SumPermuted(s, t);
  }

  /** The largest of the workers' averages is never below the average of all samples. */
  lemma {:induction false} MaxAverageIsPessimistic(parts: seq<seq<int>>, merged: seq<int>, a: real)
    requires a >= 0.0
    requires multiset(merged) == multiset(Flatten(parts))
    requires forall i :: 0 <= i < |parts| ==> Average(parts[i]) <= a
    ensures Average(merged) <= a
  {
    var all := Flatten(parts);
    SumOverParts(parts, a);
    AverageFromSum(all, a);
    AveragePermuted(merged, all);
  }

  lemma AverageFromSum(s: seq<int>, a: real)
    requires a >= 0.0 && SumWithin(s, a)
    ensures Average(s) <= a
  {
    if s != [] {
      AverageBound(Sum(s) as real, |s| as real, a);
    }
  }
}
