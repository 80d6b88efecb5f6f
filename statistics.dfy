/** Descriptive statistics over the `Marks` column: mean, median, sample variance and mode. */
module Stats {
  import opened Failures
  import opened Frames

  /** The total of the values. */
  function Sum(xs: seq<real>): real
  {
    if xs == [] then 0.0 else xs[0] + Sum(xs[1..])
  }

  /** The arithmetic mean of a non-empty sequence: n times the mean gives back the sum. */
  function Mean(xs: seq<real>): (m: real)
    requires |xs| > 0
    ensures (|xs| as real) * m == Sum(xs)
  {
    Sum(xs) / (|xs| as real)
  }

  /** Bounds on every value bound the sum. */
  lemma {:induction false} SumBounds(xs: seq<real>, lo: real, hi: real)
    requires forall i :: 0 <= i < |xs| ==> lo <= xs[i] <= hi
    ensures (|xs| as real) * lo <= Sum(xs) <= (|xs| as real) * hi
  {
    if xs != [] {
      SumBounds(xs[1..], lo, hi);
    }
  }

  /** The mean lies between any lower and upper bound of the values. */
  lemma {:induction false} MeanWithinBounds(xs: seq<real>, lo: real, hi: real)
    requires |xs| > 0
    requires forall i :: 0 <= i < |xs| ==> lo <= xs[i] <= hi
    ensures lo <= Mean(xs) <= hi
  {
    SumBounds(xs, lo, hi);
  }

  /** The values shifted by `c` and divided by `s`: z-scores when `c` is the mean and `s` the deviation. */
  function Standardized(xs: seq<real>, c: real, s: real): (ys: seq<real>)
    requires s != 0.0
    ensures |ys| == |xs|
    ensures forall i :: 0 <= i < |xs| ==> ys[i] == (xs[i] - c) / s
  {
    if xs == [] then [] else [(xs[0] - c) / s] + Standardized(xs[1..], c, s)
  }

  /** Standardizing one more value in front. */
  lemma {:induction false} StandardizedCons(x: real, xs: seq<real>, c: real, s: real)
    requires s != 0.0
    ensures Standardized([x] + xs, c, s) == [(x - c) / s] + Standardized(xs, c, s)
  {
    assert ([x] + xs)[1..] == xs;
  }

  /** The total deviation of the values from `c`. */
  function Deviation(xs: seq<real>, c: real): real
  {
    if xs == [] then 0.0 else (xs[0] - c) + Deviation(xs[1..], c)
  }

  /** The total deviation from `c` is the sum less n times `c`. */
  lemma {:induction false} DeviationIs(xs: seq<real>, c: real)
    ensures Deviation(xs, c) == Sum(xs) - (|xs| as real) * c
  {
    if xs != [] {
      DeviationIs(xs[1..], c);
      assert (|xs| as real) * c == (|xs[1..]| as real) * c + c;
    }
  }

  /** Standardizing commutes with summing: the total deviation from `c` divided by `s`,
      which is the sum less n times `c`, divided by `s`. */
  lemma {:induction false} SumStandardized(xs: seq<real>, c: real, s: real)
    requires s != 0.0
    ensures Sum(Standardized(xs, c, s)) == Deviation(xs, c) / s
    ensures Sum(Standardized(xs, c, s)) == (Sum(xs) - (|xs| as real) * c) / s
  {
    if xs != [] {
      var rest := Standardized(xs[1..], c, s);
      SumStandardized(xs[1..], c, s);
      assert Standardized(xs, c, s) == [(xs[0] - c) / s] + rest;
      SumCons((xs[0] - c) / s, rest);
      DivideSum(xs[0] - c, Deviation(xs[1..], c), s);
    }
    DeviationIs(xs, c);
  }

  /** The sum of a sequence is its first value plus the sum of the others. */
  lemma {:induction false} SumCons(x: real, xs: seq<real>)
    ensures Sum([x] + xs) == x + Sum(xs)
  {
    assert ([x] + xs)[1..] == xs;
  }

  /** Two quotients by the same divisor add up to the quotient of the sum. */
  lemma {:induction false} DivideSum(p: real, q: real, s: real)
    requires s != 0.0
    ensures p / s + q / s == (p + q) / s
  {
  }

  /** Deviations from the mean cancel out: standardized values sum to zero. */
  lemma {:induction false} StandardizedSumsToZero(xs: seq<real>, s: real)
    requires |xs| > 0 && s != 0.0
    ensures Sum(Standardized(xs, Mean(xs), s)) == 0.0
  {
    SumStandardized(xs, Mean(xs), s);
    assert Sum(xs) - (|xs| as real) * Mean(xs) == 0.0;
  }

  /** The sum of squared distances of the values from `c`. */
  function SquaredDeviations(xs: seq<real>, c: real): real
  {
    if xs == [] then 0.0 else (xs[0] - c) * (xs[0] - c) + SquaredDeviations(xs[1..], c)
  }

  /** Sample variance with one delta degree of freedom (divides by n - 1). */
  function SampleVariance(xs: seq<real>): (v: real)
    requires |xs| >= 2
    ensures v >= 0.0
    ensures v * ((|xs| - 1) as real) == SquaredDeviations(xs, Mean(xs))
  {
    SquaredDeviationsNonnegative(xs, Mean(xs));
    SquaredDeviations(xs, Mean(xs)) / ((|xs| - 1) as real)
  }

  /** `std` is the sample standard deviation of `xs`: the non-negative square root of the sample
      variance whenever there are at least two values (with fewer it is undefined). */
  ghost predicate IsSampleStd(xs: seq<real>, std: real)
  {
    |xs| >= 2 ==> std >= 0.0 && std * std == SampleVariance(xs)
  }

  /** A square is never negative, and positive away from zero. */
  lemma {:induction false} SquareSign(d: real)
    ensures d * d >= 0.0
    ensures d != 0.0 ==> d * d > 0.0
  {
  }

  /** A sum of squares is never negative. */
  lemma {:induction false} SquaredDeviationsNonnegative(xs: seq<real>, c: real)
    ensures SquaredDeviations(xs, c) >= 0.0
  {
    if xs != [] {
      var d := xs[0] - c;
      calc {
        SquaredDeviations(xs, c);
      ==
        d * d + SquaredDeviations(xs[1..], c);
      >= { SquareSign(d); }
        SquaredDeviations(xs[1..], c);
      >= { SquaredDeviationsNonnegative(xs[1..], c); }
        0.0;
      }
    }
  }

  /** One value away from `c` makes the squared deviations positive. */
  lemma {:induction false} SquaredDeviationsPositive(xs: seq<real>, c: real, i: nat)
    requires i < |xs| && xs[i] != c
    ensures SquaredDeviations(xs, c) > 0.0
  {
    var d := xs[0] - c;
    if i == 0 {
      calc {
        SquaredDeviations(xs, c);
      ==
        d * d + SquaredDeviations(xs[1..], c);
      >= { SquaredDeviationsNonnegative(xs[1..], c); }
        d * d;
      > { SquareSign(d); }
        0.0;
      }
    } else {
      assert xs[1..][i - 1] == xs[i];
      calc {
        SquaredDeviations(xs, c);
      ==
        d * d + SquaredDeviations(xs[1..], c);
      >= { SquareSign(d); }
        SquaredDeviations(xs[1..], c);
      > { SquaredDeviationsPositive(xs[1..], c, i - 1); }
        0.0;
      }
    }
  }

  /** Values all equal to `c` do not deviate from it. */
  lemma {:induction false} SquaredDeviationsOfConstant(xs: seq<real>, c: real)
    requires forall i :: 0 <= i < |xs| ==> xs[i] == c
    ensures SquaredDeviations(xs, c) == 0.0
  {
    if xs != [] {
      assert xs[0] - c == 0.0;
      assert forall i :: 0 <= i < |xs[1..]| ==> xs[1..][i] == xs[i + 1];
      SquaredDeviationsOfConstant(xs[1..], c);
    }
  }

  /** The squared deviations from `c` are never negative, and vanish exactly when every value is `c`. */
  lemma {:induction false} SquaredDeviationsZero(xs: seq<real>, c: real)
    ensures SquaredDeviations(xs, c) >= 0.0
    ensures SquaredDeviations(xs, c) == 0.0 <==> forall i :: 0 <= i < |xs| ==> xs[i] == c
  {
    SquaredDeviationsNonnegative(xs, c);
    if forall i :: 0 <= i < |xs| ==> xs[i] == c {
      SquaredDeviationsOfConstant(xs, c);
    } else {
      var i :| 0 <= i < |xs| && xs[i] != c;
      SquaredDeviationsPositive(xs, c, i);
    }
  }

  /** n copies of `c` sum to n times `c`. */
  lemma {:induction false} SumConstant(xs: seq<real>, c: real)
    requires forall i :: 0 <= i < |xs| ==> xs[i] == c
    ensures Sum(xs) == (|xs| as real) * c
  {
    if xs != [] {
      assert forall i :: 0 <= i < |xs[1..]| ==> xs[1..][i] == xs[i + 1];
      SumConstant(xs[1..], c);
    }
  }

  /** The sample variance is never negative, and it is zero exactly when all values are equal:
      a positive standard deviation exists exactly for rosters whose marks are not all the same. */
  lemma {:induction false} VarianceZeroIffUniform(xs: seq<real>)
    requires |xs| >= 2
    ensures SampleVariance(xs) >= 0.0
    ensures SampleVariance(xs) == 0.0 <==> forall i :: 0 <= i < |xs| ==> xs[i] == xs[0]
  {
    var m := Mean(xs);
    var n1 := (|xs| - 1) as real;
    SquaredDeviationsZero(xs, m);
    assert SampleVariance(xs) * n1 == SquaredDeviations(xs, m);
    if forall i :: 0 <= i < |xs| ==> xs[i] == xs[0] {
      SumConstant(xs, xs[0]);
      assert m == xs[0];
    }
  }

  /** With at least two values, the sample deviation is zero exactly when all values are equal. */
  lemma {:induction false} ZeroStdIffUniform(xs: seq<real>, std: real)
    requires |xs| >= 2 && IsSampleStd(xs, std)
    ensures std == 0.0 <==> forall i :: 0 <= i < |xs| ==> xs[i] == xs[0]
  {
    VarianceZeroIffUniform(xs);
    var v := SampleVariance(xs);
    assert v == std * std;
    if std == 0.0 {
      assert v == 0.0;
    } else {
      SquareSign(std);
      calc {
        v;
        == std * std;
        > 0.0;
      }
    }
  }

  /** Ascending order. */
  predicate Sorted(s: seq<real>)
  {
    forall i, j :: 0 <= i < j < |s| ==> s[i] <= s[j]
  }

  /** `x` placed before the first value not below it. */
  function Insert(x: real, s: seq<real>): (r: seq<real>)
    ensures |r| == |s| + 1
    ensures multiset(r) == multiset(s) + multiset{x}
  {
    if s == [] || x <= s[0] then [x] + s
    else
      assert s == [s[0]] + s[1..];
      [s[0]] + Insert(x, s[1..])
  }

  /** Inserting a value that respects a lower bound keeps every entry above the bound. */
  lemma {:induction false} InsertLowerBound(x: real, s: seq<real>, lo: real)
    requires lo <= x && forall k :: 0 <= k < |s| ==> lo <= s[k]
    ensures forall k :: 0 <= k < |Insert(x, s)| ==> lo <= Insert(x, s)[k]
  {
    if s != [] && x > s[0] {
      InsertLowerBound(x, s[1..], lo);
      assert Insert(x, s) == [s[0]] + Insert(x, s[1..]);
    } else {
      assert Insert(x, s) == [x] + s;
    }
  }

  /** A value no larger than any entry of a sorted sequence can be put in front of it. */
  lemma {:induction false} SortedCons(y: real, s: seq<real>)
    requires Sorted(s) && forall k :: 0 <= k < |s| ==> y <= s[k]
    ensures Sorted([y] + s)
  {
    var r := [y] + s;
    forall i, j | 0 <= i < j < |r| ensures r[i] <= r[j] {
      assert r[j] == s[j - 1];
      if i > 0 {
        assert r[i] == s[i - 1];
      }
    }
  }

  /** Insertion keeps a sequence sorted. */
  lemma {:induction false} InsertSorted(x: real, s: seq<real>)
    requires Sorted(s)
    ensures Sorted(Insert(x, s))
  {
    if s != [] && x > s[0] {
      InsertSorted(x, s[1..]);
      InsertLowerBound(x, s[1..], s[0]);
      SortedCons(s[0], Insert(x, s[1..]));
    } else {
      SortedCons(x, s);
    }
  }

  /** The values in ascending order. */
  function Sort(xs: seq<real>): (s: seq<real>)
    ensures |s| == |xs|
    ensures Sorted(s)
    ensures multiset(s) == multiset(xs)
  {
    if xs == [] then []
    else
      assert xs == [xs[0]] + xs[1..];
      InsertSorted(xs[0], Sort(xs[1..]));
      Insert(xs[0], Sort(xs[1..]))
  }

  /** How many values lie strictly below `v`. */
  function CountBelow(xs: seq<real>, v: real): nat
  {
    if xs == [] then 0 else (if xs[0] < v then 1 else 0) + CountBelow(xs[1..], v)
  }

  /** How many values lie at or below `v`. */
  function CountAtMost(xs: seq<real>, v: real): nat
  {
    if xs == [] then 0 else (if xs[0] <= v then 1 else 0) + CountAtMost(xs[1..], v)
  }

  /** Inserting `x` adds one to each count that `x` falls into. */
  lemma {:induction false} CountsOfInsert(x: real, s: seq<real>, v: real)
    ensures CountBelow(Insert(x, s), v) == CountBelow(s, v) + (if x < v then 1 else 0)
    ensures CountAtMost(Insert(x, s), v) == CountAtMost(s, v) + (if x <= v then 1 else 0)
  {
    if s == [] || x <= s[0] {
      assert Insert(x, s)[1..] == s;
    } else {
      CountsOfInsert(x, s[1..], v);
      assert Insert(x, s)[1..] == Insert(x, s[1..]);
    }
  }

  /** Sorting does not change how many values lie below, or at or below, any value. */
  lemma {:induction false} CountsOfSort(xs: seq<real>, v: real)
    ensures CountBelow(Sort(xs), v) == CountBelow(xs, v)
    ensures CountAtMost(Sort(xs), v) == CountAtMost(xs, v)
  {
    if xs != [] {
      CountsOfSort(xs[1..], v);
      CountsOfInsert(xs[0], Sort(xs[1..]), v);
    }
  }

  /** If nothing from position k on lies below `v`, at most k values do. */
  lemma {:induction false} CountBelowBound(s: seq<real>, v: real, k: nat)
    requires k <= |s|
    requires forall j :: k <= j < |s| ==> v <= s[j]
    ensures CountBelow(s, v) <= k
  {
    if s != [] {
      var k' := if k == 0 then 0 else k - 1;
      forall j | k' <= j < |s[1..]| ensures v <= s[1..][j] {
        assert s[1..][j] == s[j + 1];
      }
      CountBelowBound(s[1..], v, k');
    }
  }

  /** If the first k values lie at or below `v`, at least k values do. */
  lemma {:induction false} CountAtMostBound(s: seq<real>, v: real, k: nat)
    requires k <= |s|
    requires forall j :: 0 <= j < k ==> s[j] <= v
    ensures CountAtMost(s, v) >= k
  {
    if s != [] && k > 0 {
      forall j | 0 <= j < k - 1 ensures s[1..][j] <= v {
        assert s[1..][j] == s[j + 1];
      }
      CountAtMostBound(s[1..], v, k - 1);
    }
  }

  /** `v` is the k-th smallest value (counting from 0): at most k values lie below it
      and more than k lie at or below it. */
  ghost predicate IsOrderStatistic(xs: seq<real>, k: nat, v: real)
  {
    v in xs && CountBelow(xs, v) <= k < CountAtMost(xs, v)
  }

  /** Everything at or below `v` lies strictly below any larger `w`. */
  lemma {:induction false} AtMostBelowOrdered(xs: seq<real>, v: real, w: real)
    requires v < w
    ensures CountAtMost(xs, v) <= CountBelow(xs, w)
  {
    if xs != [] {
      AtMostBelowOrdered(xs[1..], v, w);
    }
  }

  /** At most one value is the k-th smallest. */
  lemma {:induction false} OrderStatisticUnique(xs: seq<real>, k: nat, v: real, w: real)
    requires IsOrderStatistic(xs, k, v) && IsOrderStatistic(xs, k, w)
    ensures v == w
  {
    if v < w {
      AtMostBelowOrdered(xs, v, w);
    } else if w < v {
      AtMostBelowOrdered(xs, w, v);
    }
  }

  /** In a sorted sequence, position k holds the k-th smallest value. */
  lemma {:induction false} SortedPosition(s: seq<real>, k: nat)
    requires Sorted(s) && k < |s|
    ensures CountBelow(s, s[k]) <= k < CountAtMost(s, s[k])
  {
    CountBelowBound(s, s[k], k);
    CountAtMostBound(s, s[k], k + 1);
  }

  /** Position k of the sorted values is the k-th smallest value. */
  lemma {:induction false} SortedIsOrderStatistic(xs: seq<real>, k: nat)
    requires k < |xs|
    ensures IsOrderStatistic(xs, k, Sort(xs)[k])
  {
    var s := Sort(xs);
    var v := s[k];
    CountsOfSort(xs, v);
    SortedPosition(s, k);
    assert v in multiset(s);
  }

  /** The middle sorted value when the count is odd, else the mean of the two middle ones. */
  function Median(xs: seq<real>): (m: real)
    requires |xs| > 0
    ensures Sort(xs)[(|xs| - 1) / 2] <= m <= Sort(xs)[|xs| / 2]
  {
    var s := Sort(xs);
    var n := |xs|;
    var j := n / 2;
    assert 0 <= (n - 1) / 2 <= j < n;
    assert s[(n - 1) / 2] <= s[j];
    if n % 2 == 1 then
      assert (n - 1) / 2 == j;
      s[j]
    else
      assert (n - 1) / 2 == j - 1;
      (s[j - 1] + s[j]) / 2.0
  }

  /** The median, stated without sorting: the mean of the ((n-1)/2)-th and the (n/2)-th smallest
      values, which for an odd count n are one and the same middle value. */
  lemma {:induction false} MedianIsMiddle(xs: seq<real>, lo: real, hi: real)
    requires |xs| > 0
    requires IsOrderStatistic(xs, (|xs| - 1) / 2, lo) && IsOrderStatistic(xs, |xs| / 2, hi)
    ensures Median(xs) == (lo + hi) / 2.0
    ensures |xs| % 2 == 1 ==> Median(xs) == lo == hi
  {
    var n := |xs|;
    var s := Sort(xs);
    var i, j := (n - 1) / 2, n / 2;
    SortedIsOrderStatistic(xs, i);
    SortedIsOrderStatistic(xs, j);
    OrderStatisticUnique(xs, i, lo, s[i]);
    OrderStatisticUnique(xs, j, hi, s[j]);
    if n % 2 == 1 {
      assert i == j;
      assert Median(xs) == s[j];
    } else {
      assert i == j - 1;
      assert Median(xs) == (s[j - 1] + s[j]) / 2.0;
    }
  }

  /** Among `cands`, the value that occurs most often in `xs`, the smallest one on a tie. */
  function MostFrequent(xs: seq<real>, cands: seq<real>): (r: real)
    requires |cands| > 0
    ensures r in cands
    ensures forall y :: y in cands ==> multiset(xs)[y] <= multiset(xs)[r]
    ensures forall y :: y in cands && multiset(xs)[y] == multiset(xs)[r] ==> r <= y
  {
    if |cands| == 1 then cands[0]
    else
      var rest := MostFrequent(xs, cands[1..]);
      var c := cands[0];
      assert forall y :: y in cands ==> y == c || y in cands[1..];
      if multiset(xs)[c] > multiset(xs)[rest] || (multiset(xs)[c] == multiset(xs)[rest] && c < rest) then c
      else rest
  }

  /** The mode: a most frequent value, and the smallest one when several are equally frequent. */
  function Mode(xs: seq<real>): (r: real)
    requires |xs| > 0
    ensures r in xs
    ensures forall y :: y in xs ==> multiset(xs)[y] <= multiset(xs)[r]
    ensures forall y :: y in xs && multiset(xs)[y] == multiset(xs)[r] ==> r <= y
  {
    MostFrequent(xs, xs)
  }

  /** The statistics reported for a roster. `variance` is None when fewer than two marks make it
      undefined; the reported standard deviation is its positive square root. */
  datatype Statistics = Statistics(mean: real, median: real, variance: Option<real>, mode: real)

  /** Statistics of the numbers in the `Marks` column. Text makes the arithmetic fail; a column
      without numbers has no mode to report. */
  function ComputeStatistics(marks: seq<Cell>): (r: Result<Statistics>)
    ensures r.Err? <==> HasText(marks) || Numbers(marks) == []
    ensures r.Err? ==> r.error == if HasText(marks) then NonNumericMarks else NoMarks
    ensures r.Ok? ==> r.value.mean == Mean(Numbers(marks)) && r.value.median == Median(Numbers(marks))
    ensures r.Ok? ==> r.value.mode == Mode(Numbers(marks))
    ensures r.Ok? ==> (r.value.variance.Some? <==> |Numbers(marks)| >= 2)
    ensures r.Ok? && r.value.variance.Some? ==> r.value.variance.value == SampleVariance(Numbers(marks))
  {
    if HasText(marks) then Err(NonNumericMarks)
    else
      var xs := Numbers(marks);
      if xs == [] then Err(NoMarks)
      else Ok(Statistics(Mean(xs), Median(xs), if |xs| >= 2 then Some(SampleVariance(xs)) else None, Mode(xs)))
  }
}
