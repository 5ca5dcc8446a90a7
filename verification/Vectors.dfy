/** Finite real vectors: sums, the L1 norm and their linearity. */
module Vectors {
  function Sum(x: seq<real>): real {
    if x == [] then 0.0 else Sum(x[..|x| - 1]) + x[|x| - 1]
  }

  function Abs(a: real): real {
    if a < 0.0 then -a else a
  }

  function Norm(x: seq<real>): real {
    if x == [] then 0.0 else Norm(x[..|x| - 1]) + Abs(x[|x| - 1])
  }

  function Fill(n: nat, c: real): (r: seq<real>)
    ensures |r| == n && forall k :: 0 <= k < n ==> r[k] == c
  {
    seq(n, _ => c)
  }

  function Add(x: seq<real>, y: seq<real>): (r: seq<real>)
    requires |x| == |y|
    ensures |r| == |x| && forall k :: 0 <= k < |x| ==> r[k] == x[k] + y[k]
  {
    seq(|x|, k requires 0 <= k < |x| => x[k] + y[k])
  }

  function Times(a: real, b: real): real {
    a * b
  }

  function Scale(c: real, x: seq<real>): (r: seq<real>)
    ensures |r| == |x| && forall k :: 0 <= k < |x| ==> r[k] == Times(c, x[k])
  {
    seq(|x|, k requires 0 <= k < |x| => Times(c, x[k]))
  }

  function Sub(x: seq<real>, y: seq<real>): (r: seq<real>)
    requires |x| == |y|
    ensures |r| == |x| && forall k :: 0 <= k < |x| ==> r[k] == x[k] - y[k]
  {
    seq(|x|, k requires 0 <= k < |x| => x[k] - y[k])
  }

  lemma {:induction false} SumAdd(x: seq<real>, y: seq<real>)
    requires |x| == |y|
    ensures Sum(Add(x, y)) == Sum(x) + Sum(y)
    decreases |x|
  {
    if x != [] {
      var n := |x| - 1;
      assert Add(x, y)[..n] == Add(x[..n], y[..n]);
      SumAdd(x[..n], y[..n]);
    }
  }

  lemma {:induction false} SumScale(c: real, x: seq<real>)
    ensures Sum(Scale(c, x)) == Times(c, Sum(x))
    decreases |x|
  {
    if x != [] {
      var n := |x| - 1;
      assert Scale(c, x)[..n] == Scale(c, x[..n]);
      SumScale(c, x[..n]);
    }
  }

  lemma {:induction false} SumFill(n: nat, c: real)
    ensures Sum(Fill(n, c)) == Times(n as real, c)
  {
    if n > 0 {
      assert Fill(n, c)[..n - 1] == Fill(n - 1, c);
      SumFill(n - 1, c);
    }
  }

  lemma {:induction false} NormAdd(x: seq<real>, y: seq<real>)
    requires |x| == |y|
    ensures Norm(Add(x, y)) <= Norm(x) + Norm(y)
    decreases |x|
  {
    if x != [] {
      var n := |x| - 1;
      assert Add(x, y)[..n] == Add(x[..n], y[..n]);
      NormAdd(x[..n], y[..n]);
    }
  }

  lemma AbsTimes(c: real, a: real)
    ensures Abs(Times(c, a)) == Times(Abs(c), Abs(a))
  {
  }

  lemma TimesAdd(c: real, a: real, b: real)
    ensures Times(c, a + b) == Times(c, a) + Times(c, b)
  {
  }

  lemma {:induction false} NormScale(c: real, x: seq<real>)
    ensures Norm(Scale(c, x)) == Times(Abs(c), Norm(x))
    decreases |x|
  {
    if x == [] {
      assert Times(Abs(c), 0.0) == 0.0;
    } else {
      hide Times; hide Abs;
      var n := |x| - 1;
      assert Scale(c, x)[..n] == Scale(c, x[..n]);
      NormScale(c, x[..n]);
      AbsTimes(c, x[n]);
      TimesAdd(Abs(c), Norm(x[..n]), Abs(x[n]));
    }
  }

  lemma {:induction false} NormOfNonNegative(x: seq<real>)
    requires forall k :: 0 <= k < |x| ==> x[k] >= 0.0
    ensures Norm(x) == Sum(x)
    decreases |x|
  {
    if x != [] { NormOfNonNegative(x[..|x| - 1]); }
  }

  /** Each component is bounded by the norm; so only the zero vector has norm zero. */
  lemma {:induction false} NormBounds(x: seq<real>, k: nat)
    requires k < |x|
    ensures Abs(x[k]) <= Norm(x)
    decreases |x|
  {
    NormNonNegative(x[..|x| - 1]);
    if k < |x| - 1 { NormBounds(x[..|x| - 1], k); }
  }

  lemma {:induction false} NormNonNegative(x: seq<real>)
    ensures Norm(x) >= 0.0
    decreases |x|
  {
    if x != [] { NormNonNegative(x[..|x| - 1]); }
  }

  lemma {:induction false} SumUpdate(x: seq<real>, k: nat, c: real)
    requires k < |x|
    ensures Sum(x[k := c]) == Sum(x) - x[k] + c
    decreases |x|
  {
    var n := |x| - 1;
    if k == n {
      assert x[k := c][..n] == x[..n];
    } else {
      assert x[k := c][..n] == x[..n][k := c];
      SumUpdate(x[..n], k, c);
    }
  }
}
