/** The summed weight of a row of workers, which the termination measures of both worker pools are built from. */
module Tally {
  function Total<T>(xs: seq<T>, weight: T -> nat): nat {
    if xs == [] then 0 else Total(xs[..|xs| - 1], weight) + weight(xs[|xs| - 1])
  }

  /** Replacing one element changes the total by the difference of the two weights. */
  lemma {:induction false} TotalUpdate<T>(xs: seq<T>, weight: T -> nat, i: nat, x: T)
    requires i < |xs|
    ensures Total(xs[i := x], weight) == Total(xs, weight) - weight(xs[i]) + weight(x)
  {
    var n := |xs| - 1;
    if i == n {
      assert xs[i := x][..n] == xs[..n];
    } else {
      TotalUpdate(xs[..n], weight, i, x);
      assert xs[i := x][..n] == xs[..n][i := x];
    }
  }
}
