/** Sums of integer sequences, and how they react to changing one element. */
module Sums {

  function Sum(xs: seq<int>): int {
    if xs == [] then 0 else xs[0] + Sum(xs[1..])
  }

  /** Changing one element changes the sum by the difference. */
  lemma {:induction false} SumUpdate(xs: seq<int>, i: nat, x: int)
    requires i < |xs|
    ensures Sum(xs[i := x]) == Sum(xs) - xs[i] + x
  {
    if i == 0 {
      assert xs[i := x][1..] == xs[1..];
    } else {
      assert xs[i := x][1..] == xs[1..][i - 1 := x];
      SumUpdate(xs[1..], i - 1, x);
    }
  }

  /** Elements bounded from above and below bound the sum. */
  lemma {:induction false} SumBounds(xs: seq<int>, lo: int, hi: int)
    requires forall i :: 0 <= i < |xs| ==> lo <= xs[i] <= hi
    ensures lo * |xs| <= Sum(xs) <= hi * |xs|
  {
    if xs != [] {
      SumBounds(xs[1..], lo, hi);
      assert lo * |xs| == lo + lo * (|xs| - 1);
      assert hi * |xs| == hi + hi * (|xs| - 1);
    }
  }

  /** The sum of elements that are all multiples of one factor. */
  lemma {:induction false} SumScale(xs: seq<int>, ys: seq<int>, k: int)
    requires |xs| == |ys|
    requires forall i :: 0 <= i < |xs| ==> xs[i] == k * ys[i]
    ensures Sum(xs) == k * Sum(ys)
  {
    if xs != [] {
      SumScale(xs[1..], ys[1..], k);
      assert k * (ys[0] + Sum(ys[1..])) == k * ys[0] + k * Sum(ys[1..]);
    }
  }

  lemma ProductIsNatural(x: int, y: int)
    requires x >= 0 && y >= 0
    ensures x * y >= 0
  {
  }
}
