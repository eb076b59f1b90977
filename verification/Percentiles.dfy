/** The nearest-rank percentile (control_plane/evaluation/load.py:57-63). */
module Percentiles {
  import opened Contracts

  // ---------------------------------------------------------------------------------------------
  // Sorting and counting
  // ---------------------------------------------------------------------------------------------

  ghost predicate Ascending(xs: seq<real>) {
    forall i, j :: 0 <= i < j < |xs| ==> xs[i] <= xs[j]
  }

  function Insert(x: real, ys: seq<real>): (zs: seq<real>)
    ensures |zs| == |ys| + 1 && multiset(zs) == multiset(ys) + multiset{x}
  {
    if ys == [] then [x]
    else if x <= ys[0] then [x] + ys
    else
      assert ys == [ys[0]] + ys[1..];
      [ys[0]] + Insert(x, ys[1..])
  }

  function Sorted(xs: seq<real>): (ys: seq<real>)
    ensures |ys| == |xs| && multiset(ys) == multiset(xs)
  {
    if xs == [] then []
    else
      assert xs == [xs[0]] + xs[1..];
      Insert(xs[0], Sorted(xs[1..]))
  }

  function Count(xs: seq<real>, counts: real -> bool): nat {
    if xs == [] then 0 else (if counts(xs[0]) then 1 else 0) + Count(xs[1..], counts)
  }

  function AtMost(v: real): real -> bool {
    (x: real) => x <= v
  }

  function Below(v: real): real -> bool {
    (x: real) => x < v
  }

  lemma PrependAscends(x: real, ys: seq<real>)
    requires Ascending(ys) && (ys != [] ==> x <= ys[0])
    ensures Ascending([x] + ys)
  {
    FirstIsLeast(ys);
  }

  lemma {:induction false} InsertAscends(x: real, ys: seq<real>)
    requires Ascending(ys)
    ensures Ascending(Insert(x, ys))
  {
    if ys == [] {
    } else if x <= ys[0] {
      PrependAscends(x, ys);
    } else {
      InsertAscends(x, ys[1..]);
      InsertKeepsAbove(x, ys[1..], ys[0]);
      PrependAscends(ys[0], Insert(x, ys[1..]));
    }
  }

  lemma InsertKeepsAbove(x: real, ys: seq<real>, low: real)
    requires low <= x && (ys != [] ==> low <= ys[0])
    ensures low <= Insert(x, ys)[0]
  {
  }

  lemma FirstIsLeast(xs: seq<real>)
    requires Ascending(xs)
    ensures forall i :: 0 <= i < |xs| ==> xs[0] <= xs[i]
  {
  }

  lemma {:induction false} SortedAscends(xs: seq<real>)
    ensures Ascending(Sorted(xs))
  {
    if xs != [] {
      SortedAscends(xs[1..]);
      InsertAscends(xs[0], Sorted(xs[1..]));
    }
  }

  lemma {:induction false} CountInsert(x: real, ys: seq<real>, counts: real -> bool)
    ensures Count(Insert(x, ys), counts) == Count(ys, counts) + if counts(x) then 1 else 0
  {
    if ys != [] && x > ys[0] {
      CountInsert(x, ys[1..], counts);
    }
  }

  lemma {:induction false} CountSorted(xs: seq<real>, counts: real -> bool)
    ensures Count(Sorted(xs), counts) == Count(xs, counts)
  {
    if xs != [] {
      CountSorted(xs[1..], counts);
      CountInsert(xs[0], Sorted(xs[1..]), counts);
    }
  }

  /** In an ascending list at least the first k + 1 values are at most the k-th, and at most the first k below it. */
  lemma {:induction false} CountsAtPosition(ys: seq<real>, v: real, k: int)
    requires Ascending(ys) && k < |ys|
    ensures (k >= 0 ==> ys[k] <= v) ==> Count(ys, AtMost(v)) >= k + 1
    ensures k >= 0 && v <= ys[k] ==> Count(ys, Below(v)) <= k
    decreases |ys|
  {
    if k > 0 {
      CountsAtPosition(ys[1..], v, k - 1);
    } else if k == 0 {
      NoneBelow(ys, v);
    }
  }

  lemma {:induction false} NoneBelow(ys: seq<real>, v: real)
    ensures (forall i :: 0 <= i < |ys| ==> v <= ys[i]) ==> Count(ys, Below(v)) == 0
  {
    if ys != [] {
      NoneBelow(ys[1..], v);
      assert forall i :: 0 <= i < |ys[1..]| ==> ys[1..][i] == ys[i + 1];
    }
  }

  lemma AscendingStartsAtLeast(ys: seq<real>, zs: seq<real>)
    requires Ascending(ys) && Ascending(zs) && multiset(ys) == multiset(zs) && ys != [] && zs != []
    ensures ys[0] == zs[0]
  {
    assert ys[0] in multiset(zs) && zs[0] in multiset(ys);
    FirstIsLeast(ys);
    FirstIsLeast(zs);
    assert ys[0] in zs && zs[0] in ys;
  }

  lemma RestOfMultiset(ys: seq<real>)
    requires ys != []
    ensures multiset(ys[1..]) == multiset(ys) - multiset{ys[0]}
  {
    assert ys == [ys[0]] + ys[1..];
  }

  /** Two ascending lists of the same values are the same list. */
  lemma {:induction false} AscendingIsUnique(ys: seq<real>, zs: seq<real>)
    requires Ascending(ys) && Ascending(zs) && multiset(ys) == multiset(zs)
    ensures ys == zs
  {
    assert |ys| == |multiset(ys)| == |multiset(zs)| == |zs|;
    if ys != [] {
      AscendingStartsAtLeast(ys, zs);
      RestOfMultiset(ys);
      RestOfMultiset(zs);
      AscendingIsUnique(ys[1..], zs[1..]);
      assert ys == [ys[0]] + ys[1..] && zs == [zs[0]] + zs[1..];
    }
  }

  // ---------------------------------------------------------------------------------------------
  // The percentile
  // ---------------------------------------------------------------------------------------------

  function Ceil(x: real): int {
    -((-x).Floor)
  }

  function Rank(n: nat, quantile: real): (rank: int)
    ensures rank >= 1
  {
    var rank := Ceil(quantile * n as real);
    if rank < 1 then 1 else rank
  }

  datatype Error = IndexError

  /** A quantile above one can point past the end, which Python answers with an error. */
  function Percentile(values: seq<real>, quantile: real): Result<real, Error> {
    if values == [] then Ok(0.0)
    else
      var rank := Rank(|values|, quantile);
      if rank > |values| then Err(IndexError) else Ok(Sorted(values)[rank - 1])
  }

  lemma ProductSign(a: real, b: real)
    requires a >= 0.0 && b > 0.0
    ensures a * b >= 0.0
    ensures a > 0.0 ==> a * b > 0.0
  {
  }

  /** For 0 < q <= 1 the rank is ceil(q * n), and it is the rank of a value. */
  lemma RankInRange(n: nat, quantile: real)
    requires n >= 1 && 0.0 < quantile <= 1.0
    ensures Rank(n, quantile) == Ceil(quantile * n as real) && 1 <= Rank(n, quantile) <= n
  {
    var x := n as real;
    var slack := (1.0 - quantile) * x;
    ProductSign(1.0 - quantile, x);
    assert slack == x - quantile * x;
    ProductSign(quantile, x);
  }

  /** Whatever the quantile, the rank is the smallest one, from 1 on, that is not below quantile * n. */
  lemma RankMeans(n: nat, quantile: real)
    ensures var rank := Rank(n, quantile);
            && rank >= 1 && rank as real >= quantile * n as real
            && (rank == 1 || (rank - 1) as real < quantile * n as real)
  {
  }

  lemma SelectedFromAscending(ys: seq<real>, rank: nat, v: real)
    requires Ascending(ys) && 1 <= rank <= |ys|
    ensures ys[rank - 1] == v <==> v in ys && Count(ys, AtMost(v)) >= rank && Count(ys, Below(v)) < rank
  {
    if v == ys[rank - 1] {
      CountsAtPosition(ys, v, rank - 1);
    } else if v < ys[rank - 1] {
      AtMostBefore(ys, v, rank - 1);
    } else {
      BelowUpTo(ys, v, rank - 1);
    }
  }

  /** The rank-th smallest value is the one value of the list with at least that many values at most it and fewer
      below it. */
  lemma SelectedByRank(values: seq<real>, rank: nat, v: real)
    requires 1 <= rank <= |values|
    ensures Sorted(values)[rank - 1] == v <==>
              v in values && Count(values, AtMost(v)) >= rank && Count(values, Below(v)) < rank
  {
    SortedAscends(values);
    CountSorted(values, AtMost(v));
    CountSorted(values, Below(v));
    InSorted(values, v);
    SelectedFromAscending(Sorted(values), rank, v);
  }

  lemma {:induction false} CountAtMostLength(xs: seq<real>, counts: real -> bool)
    ensures Count(xs, counts) <= |xs|
  {
    if xs != [] {
      CountAtMostLength(xs[1..], counts);
    }
  }

  /** Nearest rank, exactly, whatever the quantile: the percentile is the one value of the list with at least `rank`
      values at most it and fewer than `rank` below it, and there is none exactly when the rank is past the end (which
      RankInRange excludes for 0 < q <= 1). */
  lemma PercentileIsNearestRank(values: seq<real>, quantile: real, v: real)
    requires values != []
    ensures var rank := Rank(|values|, quantile);
            Percentile(values, quantile) == Ok(v) <==>
              v in values && Count(values, AtMost(v)) >= rank && Count(values, Below(v)) < rank
    ensures Percentile(values, quantile).Err? <==> Rank(|values|, quantile) > |values|
  {
    hide Rank;
    hide Sorted;
    hide Count;
    var rank := Rank(|values|, quantile);
    if rank <= |values| {
      SelectedByRank(values, rank, v);
    } else {
      CountAtMostLength(values, AtMost(v));
    }
  }

  lemma InSorted(values: seq<real>, v: real)
    ensures v in values <==> v in Sorted(values)
  {
    assert v in values <==> v in multiset(values);
    assert v in Sorted(values) <==> v in multiset(Sorted(values));
  }

  /** If the k-th of an ascending list is above v, at most k values are at most v. */
  lemma {:induction false} AtMostBefore(ys: seq<real>, v: real, k: nat)
    requires Ascending(ys) && k < |ys| && v < ys[k]
    ensures Count(ys, AtMost(v)) <= k
  {
    if k > 0 {
      AtMostBefore(ys[1..], v, k - 1);
    } else {
      NoneAtMost(ys, v);
    }
  }

  lemma {:induction false} NoneAtMost(ys: seq<real>, v: real)
    ensures (forall i :: 0 <= i < |ys| ==> v < ys[i]) ==> Count(ys, AtMost(v)) == 0
  {
    if ys != [] {
      NoneAtMost(ys[1..], v);
      assert forall i :: 0 <= i < |ys[1..]| ==> ys[1..][i] == ys[i + 1];
    }
  }

  /** If the k-th of an ascending list is below v, at least k + 1 values are below v. */
  lemma {:induction false} BelowUpTo(ys: seq<real>, v: real, k: nat)
    requires Ascending(ys) && k < |ys| && ys[k] < v
    ensures Count(ys, Below(v)) >= k + 1
  {
    if k > 0 {
      BelowUpTo(ys[1..], v, k - 1);
    }
  }

  lemma CeilMonotone(x: real, y: real)
    requires x <= y
    ensures Ceil(x) <= Ceil(y)
  {
  }

  lemma RankIsMonotone(n: nat, lower: real, upper: real)
    requires lower <= upper
    ensures Rank(n, lower) <= Rank(n, upper)
  {
    var x := n as real;
    if n > 0 {
      ProductSign(upper - lower, x);
    }
    assert (upper - lower) * x == upper * x - lower * x;
    CeilMonotone(lower * x, upper * x);
  }

  lemma PercentileAtRank(values: seq<real>, quantile: real) returns (rank: nat)
    requires values != [] && 0.0 < quantile <= 1.0
    ensures rank == Rank(|values|, quantile) && 1 <= rank <= |values|
    ensures Percentile(values, quantile) == Ok(Sorted(values)[rank - 1])
  {
    hide Rank;
    hide Sorted;
    RankInRange(|values|, quantile);
    rank := Rank(|values|, quantile);
  }

  lemma LaterIsGreater(ys: seq<real>, i: nat, j: nat)
    requires Ascending(ys) && i <= j < |ys|
    ensures ys[i] <= ys[j]
  {
  }

  /** A higher quantile never gives a lower percentile. */
  lemma PercentileIsMonotone(values: seq<real>, lower: real, upper: real)
    requires values != [] && 0.0 < lower <= upper <= 1.0
    ensures Percentile(values, lower).Ok? && Percentile(values, upper).Ok?
    ensures Percentile(values, lower).value <= Percentile(values, upper).value
  {
    hide Percentile;
    hide Rank;
    hide Sorted;
    var low := PercentileAtRank(values, lower);
    var high := PercentileAtRank(values, upper);
    RankIsMonotone(|values|, lower, upper);
    SortedAscends(values);
    LaterIsGreater(Sorted(values), low - 1, high - 1);
  }

  /** The order of the values does not matter. */
  lemma PercentileIgnoresOrder(one: seq<real>, two: seq<real>, quantile: real)
    requires multiset(one) == multiset(two)
    ensures Percentile(one, quantile) == Percentile(two, quantile)
  {
    assert |one| == |multiset(one)| == |multiset(two)| == |two|;
    SortedAscends(one);
    SortedAscends(two);
    AscendingIsUnique(Sorted(one), Sorted(two));
  }
}
