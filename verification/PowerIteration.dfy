/**
 One step of power iteration with damping, for any row-stochastic matrix: it keeps the total mass, it
 contracts distances, and its iterates settle within a number of steps that does not depend on the matrix.
 */
module PowerIteration {
  import opened Vectors

  ghost predicate Stochastic(p: seq<seq<real>>) {
    forall u :: 0 <= u < |p| ==>
      |p[u]| == |p| && Sum(p[u]) == 1.0 && forall v :: 0 <= v < |p| ==> p[u][v] >= 0.0
  }

  /** The mass that the first k nodes send out, when node u sends x[u] along row u. */
  ghost function Mix(p: seq<seq<real>>, x: seq<real>, k: nat): (r: seq<real>)
    requires Stochastic(p) && k <= |p| == |x|
    ensures |r| == |p|
  {
    if k == 0 then Fill(|p|, 0.0) else Add(Mix(p, x, k - 1), Scale(x[k - 1], p[k - 1]))
  }

  ghost function Step(p: seq<seq<real>>, d: real, x: seq<real>): (r: seq<real>)
    requires Stochastic(p) && |p| == |x| > 0
    ensures |r| == |p|
  {
    Add(Fill(|p|, (1.0 - d) / |p| as real), Scale(d, Mix(p, x, |p|)))
  }

  lemma {:induction false} MixMass(p: seq<seq<real>>, x: seq<real>, k: nat)
    requires Stochastic(p) && k <= |p| == |x|
    ensures Sum(Mix(p, x, k)) == Sum(x[..k])
    decreases k
  {
    SumFill(|p|, 0.0);
    if k > 0 {
      MixMass(p, x, k - 1);
      SumAdd(Mix(p, x, k - 1), Scale(x[k - 1], p[k - 1]));
      SumScale(x[k - 1], p[k - 1]);
      assert x[..k][..k - 1] == x[..k - 1];
    }
  }

  lemma {:induction false} MixNonNegative(p: seq<seq<real>>, x: seq<real>, k: nat)
    requires Stochastic(p) && k <= |p| == |x| && forall u :: 0 <= u < |x| ==> x[u] >= 0.0
    ensures forall v :: 0 <= v < |p| ==> Mix(p, x, k)[v] >= 0.0
    decreases k
  {
    if k > 0 {
      MixNonNegative(p, x, k - 1);
      forall v | 0 <= v < |p| ensures Mix(p, x, k)[v] >= 0.0 {
        assert Mix(p, x, k - 1)[v] >= 0.0 && Times(x[k - 1], p[k - 1][v]) >= 0.0;
      }
    }
  }

  lemma TimesSub(a: real, b: real, c: real)
    ensures Times(a - b, c) == Times(a, c) - Times(b, c)
  {
  }

  lemma {:induction false} MixSub(p: seq<seq<real>>, x: seq<real>, y: seq<real>, k: nat)
    requires Stochastic(p) && k <= |p| == |x| == |y|
    ensures Mix(p, Sub(x, y), k) == Sub(Mix(p, x, k), Mix(p, y, k))
    decreases k
  {
    if k > 0 {
      hide Times;
      MixSub(p, x, y, k - 1);
      forall v | 0 <= v < |p| ensures Mix(p, Sub(x, y), k)[v] == Sub(Mix(p, x, k), Mix(p, y, k))[v] {
        TimesSub(x[k - 1], y[k - 1], p[k - 1][v]);
      }
    }
  }

  lemma {:induction false} MixNorm(p: seq<seq<real>>, x: seq<real>, k: nat)
    requires Stochastic(p) && k <= |p| == |x|
    ensures Norm(Mix(p, x, k)) <= Norm(x[..k])
    decreases k
  {
    if k == 0 {
      SumFill(|p|, 0.0);
      NormOfNonNegative(Fill(|p|, 0.0));
    } else {
      MixNorm(p, x, k - 1);
      NormAdd(Mix(p, x, k - 1), Scale(x[k - 1], p[k - 1]));
      NormScale(x[k - 1], p[k - 1]);
      NormOfNonNegative(p[k - 1]);
      assert x[..k][..k - 1] == x[..k - 1];
    }
  }

  /** Total rank is conserved, for any damping and with any number of dangling nodes. */
  lemma StepKeepsMass(p: seq<seq<real>>, d: real, x: seq<real>)
    requires Stochastic(p) && |p| == |x| > 0 && Sum(x) == 1.0
    ensures Sum(Step(p, d, x)) == 1.0
  {
    hide Stochastic; hide Mix; hide Sum; hide Times;
    var n := |p|;
    MixMass(p, x, n);
    assert x[..n] == x;
    SumAdd(Fill(n, (1.0 - d) / n as real), Scale(d, Mix(p, x, n)));
    SumScale(d, Mix(p, x, n));
    SumFill(n, (1.0 - d) / n as real);
    Cancel(n as real, 1.0 - d);
    Unit(d);
  }

  lemma Unit(a: real)
    ensures Times(a, 1.0) == a
  {
  }

  lemma Cancel(n: real, a: real)
    requires n > 0.0
    ensures Times(n, a / n) == a
  {
  }

  lemma StepIsPositive(p: seq<seq<real>>, d: real, x: seq<real>)
    requires Stochastic(p) && |p| == |x| > 0 && 0.0 <= d < 1.0 && forall u :: 0 <= u < |x| ==> x[u] >= 0.0
    ensures forall v :: 0 <= v < |p| ==> Step(p, d, x)[v] >= (1.0 - d) / |p| as real > 0.0
  {
    MixNonNegative(p, x, |p|);
    forall v | 0 <= v < |p| ensures Step(p, d, x)[v] >= (1.0 - d) / |p| as real {
      assert Times(d, Mix(p, x, |p|)[v]) >= 0.0;
    }
  }

  function Distance(x: seq<real>, y: seq<real>): real
    requires |x| == |y|
  {
    Norm(Sub(x, y))
  }

  lemma StepEntry(p: seq<seq<real>>, d: real, x: seq<real>, v: nat)
    requires Stochastic(p) && |p| == |x| > 0 && v < |p|
    ensures Step(p, d, x)[v] == (1.0 - d) / |p| as real + Times(d, Mix(p, x, |p|)[v])
  {
    hide Stochastic; hide Mix; hide Times;
  }

  lemma StepSub(p: seq<seq<real>>, d: real, x: seq<real>, y: seq<real>)
    requires Stochastic(p) && |p| == |x| == |y| > 0
    ensures Sub(Step(p, d, x), Step(p, d, y)) == Scale(d, Mix(p, Sub(x, y), |p|))
  {
    hide Stochastic; hide Mix; hide Times; hide Step;
    MixSub(p, x, y, |p|);
    forall v | 0 <= v < |p| ensures Sub(Step(p, d, x), Step(p, d, y))[v] == Scale(d, Mix(p, Sub(x, y), |p|))[v] {
      StepEntry(p, d, x, v);
      StepEntry(p, d, y, v);
      TimesMinus(d, Mix(p, x, |p|)[v], Mix(p, y, |p|)[v]);
    }
  }

  lemma TimesMinus(d: real, a: real, b: real)
    ensures Times(d, a - b) == Times(d, a) - Times(d, b)
  {
  }

  /** A step brings any two vectors closer by the damping factor. */
  lemma StepContracts(p: seq<seq<real>>, d: real, x: seq<real>, y: seq<real>)
    requires Stochastic(p) && |p| == |x| == |y| > 0 && d >= 0.0
    ensures Distance(Step(p, d, x), Step(p, d, y)) <= Times(d, Distance(x, y))
  {
    hide Stochastic; hide Mix; hide Norm; hide Times; hide Step;
    var n := |p|;
    var z := Sub(x, y);
    StepSub(p, d, x, y);
    NormScale(d, Mix(p, z, n));
    MixNorm(p, z, n);
    assert z[..n] == z;
    Monotone(d, Norm(Mix(p, z, n)), Norm(z));
  }

  lemma Monotone(d: real, a: real, b: real)
    requires d >= 0.0 && a <= b
    ensures Times(d, a) <= Times(d, b)
  {
  }

  /** The k-th iterate from the uniform vector. */
  ghost function Iterate(p: seq<seq<real>>, d: real, k: nat): (r: seq<real>)
    requires Stochastic(p) && |p| > 0
    ensures |r| == |p|
  {
    if k == 0 then Fill(|p|, 1.0 / |p| as real) else Step(p, d, Iterate(p, d, k - 1))
  }

  ghost predicate Distribution(x: seq<real>) {
    Sum(x) == 1.0 && forall v :: 0 <= v < |x| ==> x[v] > 0.0
  }

  lemma {:induction false} IterateIsDistribution(p: seq<seq<real>>, d: real, k: nat)
    requires Stochastic(p) && |p| > 0 && 0.0 <= d < 1.0
    ensures Distribution(Iterate(p, d, k))
  {
    hide Stochastic; hide Step; hide Sum; hide Times;
    if k == 0 {
      SumFill(|p|, 1.0 / |p| as real);
      Cancel(|p| as real, 1.0);
    } else {
      IterateIsDistribution(p, d, k - 1);
      StepKeepsMass(p, d, Iterate(p, d, k - 1));
      StepIsPositive(p, d, Iterate(p, d, k - 1));
    }
  }

  function Power(d: real, k: nat): real {
    if k == 0 then 1.0 else Times(d, Power(d, k - 1))
  }

  lemma DistributionsAreClose(x: seq<real>, y: seq<real>)
    requires |x| == |y| && Distribution(x) && Distribution(y)
    ensures Distance(x, y) <= 2.0
  {
    hide Norm; hide Sum;
    var minus := Scale(-1.0, y);
    assert Sub(x, y) == Add(x, minus);
    NormAdd(x, minus);
    NormScale(-1.0, y);
    NormOfNonNegative(x);
    NormOfNonNegative(y);
  }

  /** Successive iterates differ by at most 2 d^k, whatever the matrix. */
  lemma {:induction false} DiffBound(p: seq<seq<real>>, d: real, k: nat)
    requires Stochastic(p) && |p| > 0 && 0.0 <= d < 1.0
    ensures Distance(Iterate(p, d, k + 1), Iterate(p, d, k)) <= Times(2.0, Power(d, k))
  {
    hide Stochastic; hide Step; hide Norm;
    if k == 0 {
      IterateIsDistribution(p, d, 0);
      IterateIsDistribution(p, d, 1);
      DistributionsAreClose(Iterate(p, d, 1), Iterate(p, d, 0));
    } else {
      DiffBound(p, d, k - 1);
      StepContracts(p, d, Iterate(p, d, k), Iterate(p, d, k - 1));
      Monotone(d, Distance(Iterate(p, d, k), Iterate(p, d, k - 1)), Times(2.0, Power(d, k - 1)));
    }
  }

  lemma DistanceIsSymmetric(x: seq<real>, y: seq<real>)
    requires |x| == |y|
    ensures Distance(x, y) == Distance(y, x)
  {
    hide Norm;
    assert Sub(x, y) == Scale(-1.0, Sub(y, x));
    NormScale(-1.0, Sub(y, x));
  }

  /** The iterates form a Cauchy sequence, at a rate that does not depend on the matrix. */
  lemma {:induction false} IteratesAreCauchy(p: seq<seq<real>>, d: real, m: nat, k: nat)
    requires Stochastic(p) && |p| > 0 && 0.0 <= d < 1.0
    ensures Distance(Iterate(p, d, k + m), Iterate(p, d, k)) <= Times(2.0, Power(d, k))
    decreases k
  {
    hide Stochastic; hide Step; hide Norm;
    if k == 0 {
      IterateIsDistribution(p, d, m);
      IterateIsDistribution(p, d, 0);
      DistributionsAreClose(Iterate(p, d, m), Iterate(p, d, 0));
    } else {
      IteratesAreCauchy(p, d, m, k - 1);
      assert k + m - 1 == k - 1 + m;
      StepContracts(p, d, Iterate(p, d, k + m - 1), Iterate(p, d, k - 1));
      Monotone(d, Distance(Iterate(p, d, k + m - 1), Iterate(p, d, k - 1)), Times(2.0, Power(d, k - 1)));
    }
  }

  lemma Accumulate(d: real, far: real, diff: real, next: real)
    requires 0.0 <= d < 1.0 && Times(1.0 - d, far) <= Times(d, diff) && next <= Times(d, diff + far)
    ensures Times(1.0 - d, next) <= Times(d, diff)
  {
    var a, b := Times(1.0 - d, far), Times(d, diff);
    Monotone(1.0 - d, next, Times(d, diff + far));
    assert Times(1.0 - d, Times(d, diff + far)) == Times(d, Times(1.0 - d, diff) + a) by { Regroup(d, far, diff); }
    Monotone(d, Times(1.0 - d, diff) + a, Times(1.0 - d, diff) + b);
    assert Times(1.0 - d, diff) + b == diff;
  }

  lemma Regroup(d: real, far: real, diff: real)
    ensures Times(1.0 - d, Times(d, diff + far)) == Times(d, Times(1.0 - d, diff) + Times(1.0 - d, far))
  {
  }

  /**
   What the stopping rule guarantees of all later iterates, hence of their limit: they stay within d / (1 - d) times
   the last difference.
   */
  lemma {:induction false} LaterIteratesStayClose(p: seq<seq<real>>, d: real, k: nat, m: nat)
    requires Stochastic(p) && |p| > 0 && 0.0 <= d < 1.0 && 0 < k <= m
    ensures Times(1.0 - d, Distance(Iterate(p, d, m), Iterate(p, d, k))) <=
            Times(d, Distance(Iterate(p, d, k), Iterate(p, d, k - 1)))
    decreases m
  {
    hide Stochastic; hide Step; hide Norm; hide Times;
    var x, y := Iterate(p, d, k), Iterate(p, d, k - 1);
    var diff := Distance(x, y);
    if m == k {
      DistanceToItself(x);
      NormNonNegative(Sub(x, y));
      NoDistance(d, diff);
    } else {
      var z := Iterate(p, d, m - 1);
      LaterIteratesStayClose(p, d, k, m - 1);
      StepContracts(p, d, z, y);
      Triangle(z, x, y);
      DistanceIsSymmetric(x, z);
      Monotone(d, Distance(z, y), diff + Distance(z, x));
      Accumulate(d, Distance(z, x), diff, Distance(Iterate(p, d, m), x));
    }
  }

  lemma {:induction false} DistanceToItself(x: seq<real>)
    ensures Distance(x, x) == 0.0
  {
    assert Sub(x, x) == Fill(|x|, 0.0);
    SumFill(|x|, 0.0);
    NormOfNonNegative(Fill(|x|, 0.0));
  }

  lemma NoDistance(d: real, diff: real)
    requires d >= 0.0 && diff >= 0.0
    ensures Times(1.0 - d, 0.0) <= Times(d, diff)
  {
  }

  ghost predicate Stationary(p: seq<seq<real>>, d: real, x: seq<real>) {
    Stochastic(p) && |p| == |x| > 0 && Step(p, d, x) == x
  }

  /** There is at most one stationary vector, among all real vectors. */
  lemma StationaryIsUnique(p: seq<seq<real>>, d: real, x: seq<real>, y: seq<real>)
    requires 0.0 <= d < 1.0 && Stationary(p, d, x) && Stationary(p, d, y)
    ensures x == y
  {
    hide Stochastic; hide Step; hide Norm;
    StepContracts(p, d, x, y);
    NormNonNegative(Sub(x, y));
    Shrinks(d, Distance(x, y));
    forall v | 0 <= v < |x| ensures x[v] == y[v] {
      NormBounds(Sub(x, y), v);
    }
  }

  lemma PositiveProduct(a: real, b: real)
    requires a > 0.0 && b > 0.0
    ensures Times(a, b) > 0.0
  {
  }

  lemma Shrinks(d: real, a: real)
    requires d < 1.0 && a >= 0.0 && a <= Times(d, a)
    ensures a == 0.0
  {
    if a > 0.0 {
      PositiveProduct(1.0 - d, a);
      TimesSub(1.0, d, a);
      UnitLeft(a);
    }
  }

  /** The iterates approach it geometrically. */
  lemma {:induction false} Approach(p: seq<seq<real>>, d: real, x: seq<real>, k: nat)
    requires d >= 0.0 && Stationary(p, d, x)
    ensures Distance(Iterate(p, d, k), x) <= Times(Power(d, k), Distance(Iterate(p, d, 0), x))
  {
    hide Stochastic; hide Step; hide Norm; hide Times;
    var far := Distance(Iterate(p, d, 0), x);
    if k == 0 {
      UnitLeft(far);
    } else {
      Approach(p, d, x, k - 1);
      StepContracts(p, d, Iterate(p, d, k - 1), x);
      Monotone(d, Distance(Iterate(p, d, k - 1), x), Times(Power(d, k - 1), far));
      Associative(d, Power(d, k - 1), far);
    }
  }

  lemma UnitLeft(a: real)
    ensures Times(1.0, a) == a
  {
  }

  lemma Associative(a: real, b: real, c: real)
    ensures Times(a, Times(b, c)) == Times(Times(a, b), c)
  {
  }

  lemma Triangle(a: seq<real>, b: seq<real>, c: seq<real>)
    requires |a| == |b| == |c|
    ensures Distance(a, c) <= Distance(b, a) + Distance(b, c)
  {
    hide Norm;
    var back := Scale(-1.0, Sub(b, a));
    assert Sub(a, c) == Add(back, Sub(b, c));
    NormAdd(back, Sub(b, c));
    NormScale(-1.0, Sub(b, a));
  }

  lemma Rearrange(d: real, far: real, diff: real)
    requires far <= Times(d, diff + far)
    ensures Times(1.0 - d, far) <= Times(d, diff)
  {
  }

  /** What the stopping rule guarantees: the error is at most d / (1 - d) times the last difference. */
  lemma StoppingError(p: seq<seq<real>>, d: real, x: seq<real>, y: seq<real>)
    requires 0.0 <= d < 1.0 && Stationary(p, d, x) && |y| == |p|
    ensures Times(1.0 - d, Distance(Step(p, d, y), x)) <= Times(d, Distance(Step(p, d, y), y))
  {
    hide Stochastic; hide Norm; hide Times; hide Step;
    var z := Step(p, d, y);
    StepContracts(p, d, y, x);
    Triangle(y, z, x);
    Monotone(d, Distance(y, x), Distance(z, y) + Distance(z, x));
    Rearrange(d, Distance(z, x), Distance(z, y));
  }

  // ----- the default parameters -----

  lemma {:induction false} PowerAdd(d: real, a: nat, b: nat)
    ensures Power(d, a + b) == Times(Power(d, a), Power(d, b))
  {
    hide Times;
    if a == 0 {
      UnitLeft(Power(d, b));
    } else {
      PowerAdd(d, a - 1, b);
      Associative(d, Power(d, a - 1), Power(d, b));
    }
  }

  lemma Product(a: real, b: real, bound: real)
    requires 0.0 <= a <= bound && 0.0 <= b <= bound
    ensures 0.0 <= Times(a, b) <= Times(bound, bound)
  {
    Monotone(a, b, bound);
    Monotone(bound, a, bound);
    Monotone(a, 0.0, b);
  }

  lemma Doubled(d: real, k: nat, bound: real)
    requires 0.0 <= Power(d, k) <= bound
    ensures 0.0 <= Power(d, 2 * k) <= Times(bound, bound)
  {
    PowerAdd(d, k, k);
    Product(Power(d, k), Power(d, k), bound);
  }

  /** 0.85^90 is below half the default tolerance. */
  lemma DefaultPower()
    ensures Times(2.0, Power(0.85, 90)) < 0.000001
  {
    hide Power;
    SmallPower();
    Doubled(0.85, 5, 0.44370532);
    Doubled(0.85, 10, 0.19687442);
    Doubled(0.85, 20, 0.03875954);
    Doubled(0.85, 40, 0.00150231);
    PowerAdd(0.85, 80, 10);
    Monotone(Power(0.85, 80), Power(0.85, 10), 0.19687442);
  }

  lemma SmallPower()
    ensures 0.0 <= Power(0.85, 5) <= 0.44370532
  {
    assert Power(0.85, 1) == 0.85;
    assert Power(0.85, 2) == 0.7225;
    assert Power(0.85, 3) == 0.614125;
    assert Power(0.85, 4) == 0.52200625;
  }

  /** With the default damping and tolerance the break fires at the 91st step at the latest, on every matrix. */
  lemma DefaultBreaks(p: seq<seq<real>>)
    requires Stochastic(p) && |p| > 0
    ensures Distance(Iterate(p, 0.85, 91), Iterate(p, 0.85, 90)) < 0.000001
  {
    DiffBound(p, 0.85, 90);
    DefaultPower();
  }

  // ----- the iterates, node by node -----

  /** What the first k nodes send to node v: each its rank times its share. */
  ghost function Received(p: seq<seq<real>>, x: seq<real>, v: nat, k: nat): (r: seq<real>)
    requires k <= |p| && k <= |x| && forall u :: 0 <= u < k ==> v < |p[u]|
    ensures |r| == k && forall u :: 0 <= u < k ==> r[u] == x[u] * p[u][v]
  {
    seq(k, u requires 0 <= u < k => x[u] * p[u][v])
  }

  lemma {:induction false} MixIsReceived(p: seq<seq<real>>, x: seq<real>, v: nat, k: nat)
    requires Stochastic(p) && k <= |p| == |x| && v < |p|
    ensures Mix(p, x, k)[v] == Sum(Received(p, x, v, k))
    decreases k
  {
    if k > 0 {
      MixIsReceived(p, x, v, k - 1);
      var all := Received(p, x, v, k);
      assert all[..k - 1] == Received(p, x, v, k - 1);
      assert all[k - 1] == Times(x[k - 1], p[k - 1][v]);
    }
  }

  lemma StepAt(p: seq<seq<real>>, d: real, x: seq<real>, v: nat)
    requires Stochastic(p) && |p| == |x| > 0 && v < |p|
    ensures Step(p, d, x)[v] == (1.0 - d) / |p| as real + d * Sum(Received(p, x, v, |p|))
  {
    MixIsReceived(p, x, v, |p|);
    StepEntry(p, d, x, v);
    hide Stochastic; hide Mix; hide Sum; hide Received; hide Step;
  }

  /** Every node starts with the same rank; then it gets an equal part of 1 - d, and d times what it is sent. */
  lemma IterateAt(p: seq<seq<real>>, d: real, k: nat, v: nat)
    requires Stochastic(p) && v < |p|
    ensures Iterate(p, d, 0)[v] == 1.0 / |p| as real
    ensures Iterate(p, d, k + 1)[v] == (1.0 - d) / |p| as real + d * Sum(Received(p, Iterate(p, d, k), v, |p|))
  {
    hide Stochastic; hide Step; hide Sum; hide Received;
    StepAt(p, d, Iterate(p, d, k), v);
    assert Iterate(p, d, k + 1) == Step(p, d, Iterate(p, d, k));
  }
}
