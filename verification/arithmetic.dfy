/** Reference definitions of the three reductions over already computed
    values, written independently of the evaluator's left folds: a sum and a
    product peel off the LAST element, and a difference is the first value
    minus the sum of all the others. */
module Arithmetic {

  function Sum(xs: seq<real>): real {
    if |xs| == 0 then 0.0 else Sum(xs[..|xs| - 1]) + xs[|xs| - 1]
  }

  function Product(xs: seq<real>): real {
    if |xs| == 0 then 1.0 else Product(xs[..|xs| - 1]) * xs[|xs| - 1]
  }

  /** `x0 - x1 - ... - xn`, stated as `x0 - (x1 + ... + xn)`. */
  function Difference(xs: seq<real>): real
    requires |xs| > 0
  {
    xs[0] - Sum(xs[1..])
  }

  /** Taking the first element off a sum. */
  lemma {:induction false} SumCons(x: real, xs: seq<real>)
    ensures Sum([x] + xs) == x + Sum(xs)
  {
    if |xs| > 0 {
      var ys := [x] + xs;
      assert ys[..|ys| - 1] == [x] + xs[..|xs| - 1];
      SumCons(x, xs[..|xs| - 1]);
    }
  }

  /** Taking the first element off a product. */
  lemma {:induction false} ProductCons(x: real, xs: seq<real>)
    ensures Product([x] + xs) == x * Product(xs)
  {
    if |xs| > 0 {
      var ys := [x] + xs;
      assert ys[..|ys| - 1] == [x] + xs[..|xs| - 1];
      ProductCons(x, xs[..|xs| - 1]);
    }
  }

  /** A sum over a concatenation is the sum of the two sums. */
  lemma {:induction false} SumConcat(xs: seq<real>, ys: seq<real>)
    ensures Sum(xs + ys) == Sum(xs) + Sum(ys)
  {
    if |ys| > 0 {
      var zs := xs + ys;
      assert zs[..|zs| - 1] == xs + ys[..|ys| - 1];
      SumConcat(xs, ys[..|ys| - 1]);
    } else {
      assert xs + ys == xs;
    }
  }
}
