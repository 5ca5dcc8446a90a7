/** Every graph has a stationary vector: the balance of a network is found by taking out one node after the other. */
module StationaryRanks {
  import opened Vectors
  import opened PowerIteration

  // ----- networks in which every node keeps something back -----

  /** What the first k nodes send to node v. */
  ghost function Inflow(q: seq<seq<real>>, x: seq<real>, v: nat, k: nat): real
    requires k <= |q| && k <= |x| && forall u :: 0 <= u < k ==> v < |q[u]|
  {
    if k == 0 then 0.0 else Inflow(q, x, v, k - 1) + Times(x[k - 1], q[k - 1][v])
  }

  /** Square, non-negative, and every node keeps something back. */
  ghost predicate Leaky(q: seq<seq<real>>) {
    forall u :: 0 <= u < |q| ==> |q[u]| == |q| && Sum(q[u]) < 1.0 && forall v :: 0 <= v < |q| ==> q[u][v] >= 0.0
  }

  ghost predicate Balances(q: seq<seq<real>>, b: seq<real>, x: seq<real>)
    requires Leaky(q)
  {
    |x| == |b| == |q| && forall v :: 0 <= v < |q| ==> x[v] == b[v] + Inflow(q, x, v, |q|)
  }

  ghost predicate NonNegative(x: seq<real>) {
    forall v :: 0 <= v < |x| ==> x[v] >= 0.0
  }

  /** The last node is taken out: what it receives it passes on at once, with c times its share. */
  ghost function Bypass(q: seq<seq<real>>, c: real): (r: seq<seq<real>>)
    requires Leaky(q) && q != []
    ensures |r| == |q| - 1 && forall u :: 0 <= u < |r| ==> |r[u]| == |r|
    ensures forall u, v :: 0 <= u < |r| && 0 <= v < |r| ==>
              r[u][v] == q[u][v] + Times(Times(q[u][|q| - 1], c), q[|q| - 1][v])
  {
    var m := |q| - 1;
    seq(m, u requires 0 <= u < m => Add(q[u][..m], Scale(Times(q[u][m], c), q[m][..m])))
  }

  ghost function BypassSource(q: seq<seq<real>>, b: seq<real>, c: real): (r: seq<real>)
    requires Leaky(q) && q != [] && |b| == |q|
    ensures |r| == |q| - 1
    ensures forall v :: 0 <= v < |r| ==> r[v] == b[v] + Times(Times(b[|q| - 1], c), q[|q| - 1][v])
  {
    var m := |q| - 1;
    Add(b[..m], Scale(Times(b[m], c), q[m][..m]))
  }

  lemma {:induction false} SumNonNegative(x: seq<real>)
    requires NonNegative(x)
    ensures Sum(x) >= 0.0
    decreases |x|
  {
    if x != [] { SumNonNegative(x[..|x| - 1]); }
  }

  lemma BypassRow(row: seq<real>, last: seq<real>, c: real)
    requires |row| == |last| > 0 && NonNegative(row) && NonNegative(last) && Sum(row) < 1.0 && Sum(last) < 1.0
    requires c > 0.0 && Times(1.0 - last[|last| - 1], c) == 1.0
    ensures var m := |row| - 1; Sum(Add(row[..m], Scale(Times(row[m], c), last[..m]))) < 1.0
  {
    var m := |row| - 1;
    var share := Times(row[m], c);
    SumAdd(row[..m], Scale(share, last[..m]));
    SumScale(share, last[..m]);
    ShareIsSmall(row[m], c, Sum(last[..m]), last[m]);
  }

  lemma ShareIsSmall(a: real, c: real, rest: real, kept: real)
    requires a >= 0.0 && c > 0.0 && Times(1.0 - kept, c) == 1.0 && rest < 1.0 - kept
    ensures Times(Times(a, c), rest) <= a
  {
    var ac := Times(a, c);
    assert ac >= 0.0;
    Monotone(ac, rest, 1.0 - kept);
    assert Times(ac, 1.0 - kept) == Times(a, Times(1.0 - kept, c)) == a;
  }

  lemma BypassIsLeaky(q: seq<seq<real>>, c: real)
    requires Leaky(q) && q != [] && c > 0.0 && Times(1.0 - q[|q| - 1][|q| - 1], c) == 1.0
    ensures Leaky(Bypass(q, c))
  {
    var m := |q| - 1;
    var r := Bypass(q, c);
    forall u | 0 <= u < m ensures Sum(r[u]) < 1.0 && forall v :: 0 <= v < m ==> r[u][v] >= 0.0 {
      BypassRow(q[u], q[m], c);
      assert r[u] == Add(q[u][..m], Scale(Times(q[u][m], c), q[m][..m]));
      forall v | 0 <= v < m ensures r[u][v] >= 0.0 {
        NonNegativeProduct(q[u][m], c);
        NonNegativeProduct(Times(q[u][m], c), q[m][v]);
      }
    }
  }

  lemma NonNegativeProduct(a: real, b: real)
    requires a >= 0.0 && b >= 0.0
    ensures Times(a, b) >= 0.0
  {
  }

  /** Inflow in the smaller network: the direct one, and the one by way of the last node. */
  lemma {:induction false} BypassInflow(q: seq<seq<real>>, c: real, y: seq<real>, v: nat, k: nat)
    requires Leaky(q) && q != [] && |y| == |q| - 1 && v < |q| - 1 && k <= |q| - 1
    ensures Inflow(Bypass(q, c), y, v, k) ==
            Inflow(q, y, v, k) + Times(Times(Inflow(q, y, |q| - 1, k), c), q[|q| - 1][v])
    decreases k
  {
    var m := |q| - 1;
    if k == 0 {
      Zeros(c, q[m][v]);
    } else {
      BypassInflow(q, c, y, v, k - 1);
      hide Leaky; hide Inflow;
      InflowIs(Bypass(q, c), y, v, k);
      InflowIs(q, y, v, k);
      InflowIs(q, y, m, k);
      Spread(y[k - 1], q[k - 1][v], q[k - 1][m], c, q[m][v], Inflow(q, y, m, k - 1));
    }
  }

  lemma InflowIs(q: seq<seq<real>>, x: seq<real>, v: nat, k: nat)
    requires 0 < k <= |q| && k <= |x| && forall u :: 0 <= u < k ==> v < |q[u]|
    ensures Inflow(q, x, v, k) == Inflow(q, x, v, k - 1) + Times(x[k - 1], q[k - 1][v])
  {
  }

  lemma Zeros(c: real, a: real)
    ensures Times(Times(0.0, c), a) == 0.0
  {
  }

  lemma Spread(y: real, direct: real, last: real, c: real, on: real, before: real)
    ensures Times(y, direct + Times(Times(last, c), on)) + Times(Times(before, c), on) ==
            Times(y, direct) + Times(Times(before + Times(y, last), c), on)
  {
  }

  lemma {:induction false} InflowOfPrefix(q: seq<seq<real>>, y: seq<real>, x: seq<real>, v: nat, k: nat)
    requires k <= |q| && k <= |y| <= |x| && y == x[..|y|] && forall u :: 0 <= u < k ==> v < |q[u]|
    ensures Inflow(q, x, v, k) == Inflow(q, y, v, k)
    decreases k
  {
    if k > 0 { InflowOfPrefix(q, y, x, v, k - 1); }
  }

  lemma {:induction false} InflowNonNegative(q: seq<seq<real>>, x: seq<real>, v: nat, k: nat)
    requires Leaky(q) && NonNegative(x) && k <= |q| && k <= |x| && v < |q|
    ensures Inflow(q, x, v, k) >= 0.0
    decreases k
  {
    if k > 0 {
      InflowNonNegative(q, x, v, k - 1);
      NonNegativeProduct(x[k - 1], q[k - 1][v]);
    }
  }

  lemma KeepsBack(q: seq<seq<real>>) returns (c: real)
    requires Leaky(q) && q != []
    ensures c > 0.0 && Times(1.0 - q[|q| - 1][|q| - 1], c) == 1.0
  {
    var m := |q| - 1;
    SumNonNegative(q[m][..m]);
    var kept := 1.0 - q[m][m];
    assert kept > 0.0;
    c := 1.0 / kept;
  }

  /** Every leaky network has a balance, non-negative if the sources are: take out one node after the other. */
  lemma {:induction false} BalanceExists(q: seq<seq<real>>, b: seq<real>) returns (x: seq<real>)
    requires Leaky(q) && |b| == |q|
    ensures Balances(q, b, x) && (NonNegative(b) ==> NonNegative(x))
    decreases |q|
  {
    if q == [] {
      x := [];
    } else {
      var c := KeepsBack(q);
      BypassIsLeaky(q, c);
      var y := BalanceExists(Bypass(q, c), BypassSource(q, b, c));
      x := WithLast(q, b, c, y);
    }
  }

  /** The last node is put back. */
  lemma WithLast(q: seq<seq<real>>, b: seq<real>, c: real, y: seq<real>) returns (x: seq<real>)
    requires Leaky(q) && |b| == |q| > 0 && c > 0.0 && Times(1.0 - q[|q| - 1][|q| - 1], c) == 1.0
    requires Leaky(Bypass(q, c)) && Balances(Bypass(q, c), BypassSource(q, b, c), y)
    requires NonNegative(BypassSource(q, b, c)) ==> NonNegative(y)
    ensures Balances(q, b, x) && (NonNegative(b) ==> NonNegative(x))
  {
    var m := |q| - 1;
    var inflow := Inflow(q, y, m, m);
    var last := Times(b[m] + inflow, c);
    x := y + [last];
    forall v | 0 <= v < |q| ensures x[v] == b[v] + Inflow(q, x, v, |q|) {
      InflowOfPrefix(q, y, x, v, m);
      if v < m {
        BypassInflow(q, c, y, v, m);
        LastShare(b[m], inflow, c, q[m][v]);
      } else {
        LastBalances(b[m], inflow, c, q[m][m]);
      }
    }
    if NonNegative(b) { LastNonNegative(q, b, c, y); }
  }

  lemma LastShare(b: real, inflow: real, c: real, on: real)
    ensures Times(Times(b, c), on) + Times(Times(inflow, c), on) == Times(Times(b + inflow, c), on)
  {
  }

  lemma LastBalances(b: real, inflow: real, c: real, kept: real)
    requires Times(1.0 - kept, c) == 1.0
    ensures var last := Times(b + inflow, c); last == b + inflow + Times(last, kept)
  {
    var sum := b + inflow;
    assert Times(sum, Times(1.0 - kept, c)) == Times(sum, c) - Times(Times(sum, c), kept);
  }

  lemma SourceNonNegative(q: seq<seq<real>>, b: seq<real>, c: real)
    requires Leaky(q) && |b| == |q| > 0 && c > 0.0 && NonNegative(b)
    ensures NonNegative(BypassSource(q, b, c))
  {
    var m := |q| - 1;
    var source := BypassSource(q, b, c);
    hide Times; hide BypassSource;
    forall v | 0 <= v < m ensures source[v] >= 0.0 {
      NonNegativeProduct(b[m], c);
      NonNegativeProduct(Times(b[m], c), q[m][v]);
    }
  }

  lemma LastNonNegative(q: seq<seq<real>>, b: seq<real>, c: real, y: seq<real>)
    requires Leaky(q) && |b| == |q| > 0 && c > 0.0 && NonNegative(b) && |y| == |q| - 1
    requires NonNegative(BypassSource(q, b, c)) ==> NonNegative(y)
    ensures NonNegative(y + [Times(b[|q| - 1] + Inflow(q, y, |q| - 1, |q| - 1), c)])
  {
    var m := |q| - 1;
    SourceNonNegative(q, b, c);
    InflowNonNegative(q, y, m, m);
    assert b[m] >= 0.0;
    hide *;
    var inflow := b[m] + Inflow(q, y, m, m);
    NonNegativeProduct(inflow, c);
    OneMoreNonNegative(y, Times(inflow, c));
  }

  lemma OneMoreNonNegative(y: seq<real>, a: real)
    requires NonNegative(y) && a >= 0.0
    ensures NonNegative(y + [a])
  {
  }

  /** The damped matrix. */
  ghost function Damped(p: seq<seq<real>>, d: real): (r: seq<seq<real>>)
    requires Stochastic(p)
    ensures |r| == |p| && forall u :: 0 <= u < |p| ==> r[u] == Scale(d, p[u])
  {
    seq(|p|, u requires 0 <= u < |p| => Scale(d, p[u]))
  }

  lemma DampedIsLeaky(p: seq<seq<real>>, d: real)
    requires Stochastic(p) && 0.0 <= d < 1.0
    ensures Leaky(Damped(p, d))
  {
    forall u | 0 <= u < |p|
      ensures Sum(Damped(p, d)[u]) < 1.0 && forall v :: 0 <= v < |p| ==> Damped(p, d)[u][v] >= 0.0
    {
      SumScale(d, p[u]);
      Unit(d);
      forall v | 0 <= v < |p| ensures Damped(p, d)[u][v] >= 0.0 { NonNegativeProduct(d, p[u][v]); }
    }
  }

  /** One turn adds to the constant share what flows in along the damped matrix. */
  lemma {:induction false} MixIsInflow(p: seq<seq<real>>, d: real, x: seq<real>, v: nat, k: nat)
    requires Stochastic(p) && k <= |p| == |x| && v < |p|
    ensures forall u :: 0 <= u < k ==> v < |Damped(p, d)[u]|
    ensures Times(d, Mix(p, x, k)[v]) == Inflow(Damped(p, d), x, v, k)
    decreases k
  {
    hide *;
    DampedIsSquare(p, d);
    if k == 0 {
      NothingFlows(p, d, x, v);
    } else {
      MixIsInflow(p, d, x, v, k - 1);
      DampedAt(p, d, k - 1, v);
      MixAt(p, x, v, k);
      InflowIs(Damped(p, d), x, v, k);
      MixTerm(d, Mix(p, x, k - 1)[v], x[k - 1], p[k - 1][v]);
    }
  }

  lemma DampedIsSquare(p: seq<seq<real>>, d: real)
    requires Stochastic(p)
    ensures forall u :: 0 <= u < |p| ==> |p[u]| == |p| && |Damped(p, d)[u]| == |p|
  {
    hide Times;
  }

  lemma NothingFlows(p: seq<seq<real>>, d: real, x: seq<real>, v: nat)
    requires Stochastic(p) && |p| == |x| && v < |p|
    ensures Times(d, Mix(p, x, 0)[v]) == Inflow(Damped(p, d), x, v, 0)
  {
    Nothing(d);
    hide Stochastic; hide Times; hide Damped;
  }

  lemma DampedAt(p: seq<seq<real>>, d: real, u: nat, v: nat)
    requires Stochastic(p) && u < |p| && v < |p|
    ensures Damped(p, d)[u][v] == Times(d, p[u][v])
  {
  }

  lemma MixAt(p: seq<seq<real>>, x: seq<real>, v: nat, k: nat)
    requires Stochastic(p) && 0 < k <= |p| == |x| && v < |p|
    ensures Mix(p, x, k)[v] == Mix(p, x, k - 1)[v] + Times(x[k - 1], p[k - 1][v])
  {
    hide Times;
  }

  lemma Nothing(d: real)
    ensures Times(d, 0.0) == 0.0
  {
  }

  lemma MixTerm(d: real, before: real, x: real, share: real)
    ensures Times(d, before + Times(x, share)) == Times(d, before) + Times(x, Times(d, share))
  {
  }

  lemma StationaryMass(p: seq<seq<real>>, d: real, x: seq<real>)
    requires 0.0 <= d < 1.0 && Stationary(p, d, x)
    ensures Sum(x) == 1.0
  {
    hide Stochastic; hide Mix; hide Sum; hide Times;
    var n := |p|;
    MixMass(p, x, n);
    assert x[..n] == x;
    SumAdd(Fill(n, (1.0 - d) / n as real), Scale(d, Mix(p, x, n)));
    SumScale(d, Mix(p, x, n));
    SumFill(n, (1.0 - d) / n as real);
    Cancel(n as real, 1.0 - d);
    OneMass(d, Sum(x));
  }

  lemma OneMass(d: real, mass: real)
    requires 0.0 <= d < 1.0 && mass == 1.0 - d + Times(d, mass)
    ensures mass == 1.0
  {
    assert Times(1.0 - d, mass - 1.0) == 0.0;
    if mass > 1.0 { PositiveProduct(1.0 - d, mass - 1.0); }
    if mass < 1.0 { PositiveProduct(1.0 - d, 1.0 - mass); }
  }

  /** Every graph has a stationary vector, and it is a distribution with positive ranks. */
  lemma StationaryExists(p: seq<seq<real>>, d: real) returns (x: seq<real>)
    requires Stochastic(p) && |p| > 0 && 0.0 <= d < 1.0
    ensures Stationary(p, d, x) && Distribution(x)
  {
    var n := |p|;
    var b := Fill(n, (1.0 - d) / n as real);
    DampedIsLeaky(p, d);
    x := BalanceExists(Damped(p, d), b);
    BalanceIsStationary(p, d, x);
    ConstantIsPositive(n, d);
    hide Balances; hide Leaky; hide Step; hide Sum; hide Damped;
    StationaryMass(p, d, x);
    StepIsPositive(p, d, x);
  }

  lemma BalanceIsStationary(p: seq<seq<real>>, d: real, x: seq<real>)
    requires Stochastic(p) && |p| > 0 && Leaky(Damped(p, d))
    requires Balances(Damped(p, d), Fill(|p|, (1.0 - d) / |p| as real), x)
    ensures Stationary(p, d, x)
  {
    hide Stochastic; hide Leaky; hide Mix; hide Inflow; hide Times; hide Damped;
    var n := |p|;
    forall v | 0 <= v < n ensures Step(p, d, x)[v] == x[v] { MixIsInflow(p, d, x, v, n); }
    assert Step(p, d, x) == x;
  }

  lemma ConstantIsPositive(n: nat, d: real)
    requires n > 0 && 0.0 <= d < 1.0
    ensures NonNegative(Fill(n, (1.0 - d) / n as real))
  {
  }

  /** The iterates converge geometrically, on every graph, to its one stationary distribution. */
  lemma Converges(p: seq<seq<real>>, d: real) returns (x: seq<real>)
    requires Stochastic(p) && |p| > 0 && 0.0 <= d < 1.0
    ensures Stationary(p, d, x) && Distribution(x)
    ensures forall y :: Stationary(p, d, y) ==> y == x
    ensures forall k: nat :: Distance(Iterate(p, d, k), x) <= Times(2.0, Power(d, k))
  {
    x := StationaryExists(p, d);
    hide Stationary; hide Distribution; hide Stochastic; hide Step; hide Distance; hide Power; hide Times; hide Iterate;
    forall y | Stationary(p, d, y) ensures y == x { StationaryIsUnique(p, d, x, y); }
    forall k: nat ensures Distance(Iterate(p, d, k), x) <= Times(2.0, Power(d, k)) {
      IterateIsDistribution(p, d, 0);
      DistributionsAreClose(Iterate(p, d, 0), x);
      Approach(p, d, x, k);
      PowerNonNegative(d, k);
      Monotone(Power(d, k), Distance(Iterate(p, d, 0), x), 2.0);
      Commute(Power(d, k), 2.0);
    }
  }

  lemma {:induction false} PowerNonNegative(d: real, k: nat)
    requires d >= 0.0
    ensures Power(d, k) >= 0.0
  {
    if k > 0 {
      PowerNonNegative(d, k - 1);
      NonNegativeProduct(d, Power(d, k - 1));
    }
  }

  lemma Commute(a: real, b: real)
    ensures Times(a, b) == Times(b, a)
  {
  }
}
