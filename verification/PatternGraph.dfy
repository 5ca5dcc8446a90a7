/**
 The pattern graph and its PageRank.

 Ranks and weights are exact reals.  The nodes are visited in an arbitrary order: over the reals the order
 of the additions does not matter.
 */
module PatternGraph {
  import opened Vectors
  import opened PowerIteration
  import opened StationaryRanks

  datatype Pattern = Pattern(id: string, name: string)

  datatype EdgeError = UnknownSource | UnknownTarget | NoError

  class PatternGraph {
    var patterns: map<string, Pattern>
    var edges: map<string, map<string, real>>

    ghost predicate Valid()
      reads this
    {
      && edges.Keys == patterns.Keys
      && (forall u :: u in edges ==> RowOk(edges[u], patterns.Keys))
      && (forall u :: u in patterns ==> patterns[u].id == u)
    }

    constructor ()
      ensures Valid() && patterns == map[] && edges == map[]
    {
      patterns, edges := map[], map[];
    }

    /** Refuses an identifier twice. */
    method AddPattern(pattern: Pattern) returns (ok: bool)
      requires Valid()
      modifies this
      ensures Valid() && ok == (pattern.id !in old(patterns))
      ensures ok ==> patterns == old(patterns)[pattern.id := pattern] && edges == old(edges)[pattern.id := map[]]
      ensures !ok ==> patterns == old(patterns) && edges == old(edges)
    {
      if pattern.id in patterns { return false; }
      patterns := patterns[pattern.id := pattern];
      if pattern.id !in edges { edges := edges[pattern.id := map[]]; }
      return true;
    }

    /** Both ends must exist; a negative weight becomes zero; a second edge replaces the first. */
    method AddEdge(source: string, target: string, weight: real) returns (error: EdgeError)
      requires Valid()
      modifies this`edges
      ensures Valid()
      ensures error == if source !in patterns then UnknownSource
                       else if target !in patterns then UnknownTarget else NoError
      ensures error != NoError ==> edges == old(edges)
      ensures error == NoError ==>
        && edges.Keys == old(edges).Keys && target in edges[source]
        && edges[source][target] >= weight && edges[source][target] >= 0.0
        && (edges[source][target] == weight || edges[source][target] == 0.0)
        && forall u, v :: u != source || v != target ==> Weight(edges, u, v) == Weight(old(edges), u, v)
    {
      if source !in patterns { return UnknownSource; }
      if target !in patterns { return UnknownTarget; }
      var kept := if weight > 0.0 then weight else 0.0;
      EdgeSet(edges, patterns.Keys, source, target, kept);
      hide RowOk; hide Weight;
      edges := edges[source := edges[source][target := kept]];
      return NoError;
    }
  }

  ghost predicate RowOk(row: map<string, real>, nodes: set<string>) {
    row.Keys <= nodes && forall v :: v in row ==> row[v] >= 0.0
  }

  function Weight(edges: map<string, map<string, real>>, u: string, v: string): real {
    if u in edges && v in edges[u] then edges[u][v] else 0.0
  }

  lemma EdgeSet(edges: map<string, map<string, real>>, all: set<string>, source: string, target: string, kept: real)
    requires source in edges && target in all && kept >= 0.0 && RowOk(edges[source], all)
    ensures RowOk(edges[source][target := kept], all)
    ensures var more := edges[source := edges[source][target := kept]];
            forall u, v :: u != source || v != target ==> Weight(more, u, v) == Weight(edges, u, v)
  {
  }

  // ----- vectors indexed by a list of the nodes -----

  ghost predicate Enumerates(nodes: seq<string>, all: set<string>) {
    && (forall i, j :: 0 <= i < j < |nodes| ==> nodes[i] != nodes[j])
    && (forall u :: u in all <==> u in nodes)
  }

  /** The entries of a map in node order, with zero for a missing one. */
  function Vec(nodes: seq<string>, m: map<string, real>): (r: seq<real>)
    ensures |r| == |nodes|
    ensures forall k :: 0 <= k < |nodes| ==> r[k] == if nodes[k] in m then m[nodes[k]] else 0.0
  {
    seq(|nodes|, k requires 0 <= k < |nodes| => if nodes[k] in m then m[nodes[k]] else 0.0)
  }

  function Divide(x: seq<real>, c: real): (r: seq<real>)
    requires c > 0.0
    ensures |r| == |x| && forall k :: 0 <= k < |x| ==> r[k] == x[k] / c
  {
    seq(|x|, k requires 0 <= k < |x| => x[k] / c)
  }

  function Even(n: nat): (r: seq<real>)
    requires n > 0
    ensures |r| == n
  {
    Fill(n, 1.0 / n as real)
  }

  /** Where a node sends its rank: along its edges by weight, or everywhere alike if all its weights are zero. */
  function Row(nodes: seq<string>, row: map<string, real>): (r: seq<real>)
    requires |nodes| > 0
    ensures |r| == |nodes|
  {
    var out := Sum(Vec(nodes, row));
    if out > 0.0 then Divide(Vec(nodes, row), out) else Even(|nodes|)
  }

  function Matrix(nodes: seq<string>, edges: map<string, map<string, real>>): (p: seq<seq<real>>)
    requires |nodes| > 0 && forall u :: u in nodes ==> u in edges
    ensures |p| == |nodes| && forall k :: 0 <= k < |nodes| ==> p[k] == Row(nodes, edges[nodes[k]])
  {
    seq(|nodes|, k requires 0 <= k < |nodes| => Row(nodes, edges[nodes[k]]))
  }

  lemma Quotient(a: real, c: real)
    requires c > 0.0
    ensures a / c == Times(1.0 / c, a)
  {
  }

  lemma DivideIsScale(x: seq<real>, c: real)
    requires c > 0.0
    ensures Sum(Divide(x, c)) == Times(1.0 / c, Sum(x))
  {
    forall k | 0 <= k < |x| ensures Divide(x, c)[k] == Scale(1.0 / c, x)[k] { Quotient(x[k], c); }
    assert Divide(x, c) == Scale(1.0 / c, x);
    SumScale(1.0 / c, x);
  }

  lemma RowIsStochastic(nodes: seq<string>, row: map<string, real>)
    requires |nodes| > 0 && forall v :: v in row ==> row[v] >= 0.0
    ensures Sum(Row(nodes, row)) == 1.0 && forall k :: 0 <= k < |nodes| ==> Row(nodes, row)[k] >= 0.0
  {
    var x := Vec(nodes, row);
    if Sum(x) > 0.0 {
      DivideIsScale(x, Sum(x));
    } else {
      SumFill(|nodes|, 1.0 / |nodes| as real);
    }
  }

  lemma MatrixIsStochastic(nodes: seq<string>, edges: map<string, map<string, real>>)
    requires |nodes| > 0 && (forall u :: u in nodes ==> u in edges) && forall u :: u in edges ==>
        RowOk(edges[u], edges.Keys)
    ensures Stochastic(Matrix(nodes, edges))
  {
    hide Row; hide Sum;
    var p := Matrix(nodes, edges);
    forall k | 0 <= k < |p| ensures Sum(p[k]) == 1.0 && forall v :: 0 <= v < |p| ==> p[k][v] >= 0.0 {
      assert nodes[k] in nodes;
      RowIsStochastic(nodes, edges[nodes[k]]);
    }
  }

  lemma VecOneMore(nodes: seq<string>, part: map<string, real>, v: string, w: real, k: nat)
    requires Enumerates(nodes, set u | u in nodes) && k < |nodes| && nodes[k] == v && v !in part
    ensures Vec(nodes, part[v := w]) == Vec(nodes, part)[k := w]
    ensures Sum(Vec(nodes, part[v := w])) == Sum(Vec(nodes, part)) + w
  {
    hide Sum;
    SumUpdate(Vec(nodes, part), k, w);
  }

  method EnumerateNodes(all: set<string>) returns (nodes: seq<string>)
    ensures Enumerates(nodes, all) && |nodes| == |all|
  {
    nodes := [];
    var rest := all;
    while rest != {}
      invariant rest <= all && Enumerates(nodes, all - rest) && |nodes| == |all| - |rest|
      decreases rest
    {
      var u :| u in rest;
      rest := rest - {u};
      nodes := nodes + [u];
    }
    assert all - {} == all;
  }

  /** The sum over an edge table. */
  method OutWeight(nodes: seq<string>, row: map<string, real>) returns (out: real)
    requires Enumerates(nodes, set u | u in nodes) && forall v :: v in row ==> v in nodes
    ensures out == Sum(Vec(nodes, row))
  {
    hide Sum;
    out := 0.0;
    var rest := row.Keys;
    ghost var part: map<string, real> := map[];
    SumFill(|nodes|, 0.0);
    assert Vec(nodes, part) == Fill(|nodes|, 0.0);
    while rest != {}
      invariant rest <= row.Keys && part == row - rest
      invariant out == Sum(Vec(nodes, part))
      decreases rest
    {
      var v :| v in rest;
      ghost var k :| 0 <= k < |nodes| && nodes[k] == v;
      VecOneMore(nodes, part, v, row[v], k);
      out := out + row[v];
      part := part[v := row[v]];
      rest := rest - {v};
    }
    assert row - {} == row;
  }

  lemma Same(row: map<string, real>, out: real, d: real, rank: real, acc: map<string, real>, acc': map<string, real>)
    requires out > 0.0 && SharedFrom(row, out, d, rank, acc, acc')
    ensures acc'.Keys == acc.Keys
  {
  }

  /** The innermost loop: one node shares its rank along its edges. */
  method Share(row: map<string, real>, out: real, damping: real, rank: real, ranks: map<string, real>)
    returns (shared: map<string, real>)
    requires out > 0.0 && row.Keys <= ranks.Keys
    ensures SharedFrom(row, out, damping, rank, ranks, shared)
  {
    shared := ranks;
    var rest := row.Keys;
    while rest != {}
      invariant rest <= row.Keys && shared.Keys == ranks.Keys
      invariant forall v :: v in ranks ==>
        shared[v] == ranks[v] + if v in row && v !in rest then damping * rank * (row[v] / out) else 0.0
      decreases rest
    {
      var v :| v in rest;
      shared := shared[v := shared[v] + damping * rank * (row[v] / out)];
      rest := rest - {v};
    }
  }

  lemma ShareIsRow(d: real, x: real, w: real, out: real, mix: real)
    requires out > 0.0
    ensures Times(d, mix + Times(x, w / out)) == Times(d, mix) + d * x * (w / out)
    ensures d * x * (0.0 / out) == 0.0
  {
    var q := w / out;
    assert d * (mix + x * q) == d * mix + d * x * q;
  }

  /** Everybody's part of the rank of the dangling nodes. */
  function Quota(d: real, dangling: real, n: real): real
    requires n > 0.0
  {
    Times(d, dangling) / n
  }

  lemma DanglingIsRow(d: real, x: real, n: real, mix: real, dangling: real)
    requires n > 0.0
    ensures Times(d, mix + Times(x, 1.0 / n)) - Times(d, mix) == Quota(d, dangling + x, n) - Quota(d, dangling, n)
  {
  }

  /** What the accumulator holds after the first k nodes have sent their rank. */
  ghost predicate Accumulated(nodes: seq<string>, p: seq<seq<real>>, d: real, x: seq<real>, k: nat,
                              acc: map<string, real>, dangling: real)
    requires Stochastic(p) && k <= |p| == |x| == |nodes| && |nodes| > 0
  {
    Add(Vec(nodes, acc), Fill(|nodes|, Quota(d, dangling, |nodes| as real))) == Scale(d, Mix(p, x, k))
  }

  ghost predicate SharedFrom(row: map<string, real>, out: real, d: real, rank: real,
                             acc: map<string, real>, acc': map<string, real>)
    requires out > 0.0
  {
    && acc'.Keys == acc.Keys
    && forall v :: v in acc ==> acc'[v] == acc[v] + if v in row then d * rank * (row[v] / out) else 0.0
  }

  lemma SharedMoreAt(nodes: seq<string>, row: map<string, real>, out: real, d: real, rank: real, mix: real, i: nat,
                     acc: map<string, real>, acc': map<string, real>)
    requires i < |nodes| && nodes[i] in acc && out > 0.0 && SharedFrom(row, out, d, rank, acc, acc')
    ensures acc'[nodes[i]] - acc[nodes[i]] == Times(d, mix + Times(rank, Vec(nodes, row)[i] / out)) - Times(d, mix)
  {
    ShareIsRow(d, rank, Vec(nodes, row)[i], out, mix);
  }

  lemma MixNext(p: seq<seq<real>>, x: seq<real>, k: nat, i: nat)
    requires Stochastic(p) && k < |p| == |x| && i < |p|
    ensures |p[k]| == |p| && Mix(p, x, k + 1)[i] == Mix(p, x, k)[i] + Times(x[k], p[k][i])
  {
  }

  lemma AccumulatedAt(nodes: seq<string>, p: seq<seq<real>>, d: real, x: seq<real>, k: nat,
                      acc: map<string, real>, dangling: real, i: nat)
    requires Stochastic(p) && k <= |p| == |x| == |nodes| && i < |nodes|
    requires Accumulated(nodes, p, d, x, k, acc, dangling)
    ensures Vec(nodes, acc)[i] + Quota(d, dangling, |nodes| as real) == Times(d, Mix(p, x, k)[i])
  {
    hide Stochastic; hide Times; hide Mix; hide Quota;
    var v := Add(Vec(nodes, acc), Fill(|nodes|, Quota(d, dangling, |nodes| as real)));
    assert v[i] == Scale(d, Mix(p, x, k))[i];
  }

  lemma AccumulatedIf(nodes: seq<string>, p: seq<seq<real>>, d: real, x: seq<real>, k: nat,
                      acc: map<string, real>, dangling: real)
    requires Stochastic(p) && k <= |p| == |x| == |nodes| && |nodes| > 0
    requires forall i :: 0 <= i < |nodes| ==>
               Vec(nodes, acc)[i] + Quota(d, dangling, |nodes| as real) == Times(d, Mix(p, x, k)[i])
    ensures Accumulated(nodes, p, d, x, k, acc, dangling)
  {
    hide Stochastic; hide Times; hide Mix; hide Quota;
  }

  lemma SharedMoreOne(nodes: seq<string>, p: seq<seq<real>>, row: map<string, real>, out: real, d: real, x: seq<real>,
                      k: nat, acc: map<string, real>, acc': map<string, real>, dangling: real, i: nat)
    requires Stochastic(p) && k < |p| == |x| == |nodes| && out > 0.0 && p[k] == Divide(Vec(nodes, row), out)
    requires i < |nodes| && nodes[i] in acc && nodes[i] in acc'
    requires Accumulated(nodes, p, d, x, k, acc, dangling) && SharedFrom(row, out, d, x[k], acc, acc')
    ensures Vec(nodes, acc')[i] + Quota(d, dangling, |nodes| as real) == Times(d, Mix(p, x, k + 1)[i])
  {
    hide *;
    MixNext(p, x, k, i);
    AccumulatedAt(nodes, p, d, x, k, acc, dangling, i);
    SharedMoreAt(nodes, row, out, d, x[k], Mix(p, x, k)[i], i, acc, acc');
  }

  lemma SharedMore(nodes: seq<string>, p: seq<seq<real>>, row: map<string, real>, out: real, d: real, x: seq<real>,
                   k: nat, acc: map<string, real>, acc': map<string, real>, dangling: real)
    requires Stochastic(p) && k < |p| == |x| == |nodes| && out > 0.0 && p[k] == Divide(Vec(nodes, row), out)
    requires forall u :: u in nodes ==> u in acc
    requires Accumulated(nodes, p, d, x, k, acc, dangling) && SharedFrom(row, out, d, x[k], acc, acc')
    ensures Accumulated(nodes, p, d, x, k + 1, acc', dangling)
  {
    hide *;
    Same(row, out, d, x[k], acc, acc');
    forall i | 0 <= i < |nodes|
      ensures Vec(nodes, acc')[i] + Quota(d, dangling, |nodes| as real) == Times(d, Mix(p, x, k + 1)[i])
    {
      assert nodes[i] in acc;
      SharedMoreOne(nodes, p, row, out, d, x, k, acc, acc', dangling, i);
    }
    AccumulatedIf(nodes, p, d, x, k + 1, acc', dangling);
  }

  lemma EvenAt(n: nat, i: nat)
    requires i < n
    ensures Even(n)[i] == 1.0 / n as real
  {
  }

  lemma DanglingMore(nodes: seq<string>, p: seq<seq<real>>, d: real, x: seq<real>, k: nat,
                     acc: map<string, real>, dangling: real)
    requires Stochastic(p) && k < |p| == |x| == |nodes| && p[k] == Even(|nodes|)
    requires Accumulated(nodes, p, d, x, k, acc, dangling)
    ensures Accumulated(nodes, p, d, x, k + 1, acc, dangling + x[k])
  {
    hide *;
    forall i | 0 <= i < |nodes|
      ensures Vec(nodes, acc)[i] + Quota(d, dangling + x[k], |nodes| as real) == Times(d, Mix(p, x, k + 1)[i])
    {
      MixNext(p, x, k, i);
      AccumulatedAt(nodes, p, d, x, k, acc, dangling, i);
      EvenAt(|nodes|, i);
      DanglingIsRow(d, x[k], |nodes| as real, Mix(p, x, k)[i], dangling);
    }
    AccumulatedIf(nodes, p, d, x, k + 1, acc, dangling + x[k]);
  }

  /** The last pass of a turn: everybody gets the base, and the distance to the old ranks adds up. */
  method AddBase(nodes: seq<string>, spread: map<string, real>, base: real, ranks: map<string, real>)
    returns (next: map<string, real>, diff: real)
    requires Enumerates(nodes, ranks.Keys) && spread.Keys == ranks.Keys
    ensures next.Keys == ranks.Keys && Vec(nodes, next) == Add(Vec(nodes, spread), Fill(|nodes|, base))
    ensures diff == Distance(Vec(nodes, next), Vec(nodes, ranks))
  {
    hide Norm; hide Enumerates; hide Spliced; hide Abs;
    next, diff := spread, 0.0;
    ghost var before, x := Vec(nodes, spread), Vec(nodes, ranks);
    ghost var after := Add(before, Fill(|nodes|, base));
    ghost var moved := Sub(after, x);
    NormNothing(moved);
    for k := 0 to |nodes|
      invariant next.Keys == ranks.Keys
      invariant Vec(nodes, next) == Spliced(after, before, k)
      invariant diff == Norm(moved[..k])
    {
      NodeKnown(nodes, ranks.Keys, k);
      SpliceNext(after, before, k);
      VecUpdate(nodes, next, k, next[nodes[k]] + base);
      next := next[nodes[k] := next[nodes[k]] + base];
      NormSnoc(moved, k);
      diff := diff + Abs(next[nodes[k]] - ranks[nodes[k]]);
    }
    assert moved[..|nodes|] == moved;
  }

  ghost function Spliced(a: seq<real>, b: seq<real>, k: nat): (r: seq<real>)
    requires k <= |a| == |b|
    ensures |r| == |a| && (k == 0 ==> r == b) && (k == |a| ==> r == a) && (k < |a| ==> r[k] == b[k])
  {
    a[..k] + b[k..]
  }

  lemma SpliceNext(a: seq<real>, b: seq<real>, k: nat)
    requires k < |a| == |b|
    ensures Spliced(a, b, k)[k := a[k]] == Spliced(a, b, k + 1)
  {
  }

  lemma NodesAre(nodes: seq<string>, all: set<string>)
    requires Enumerates(nodes, all)
    ensures forall u :: u in nodes <==> u in all
  {
  }

  lemma RowCase(nodes: seq<string>, row: map<string, real>)
    requires |nodes| > 0
    ensures var out := Sum(Vec(nodes, row));
            Row(nodes, row) == if out > 0.0 then Divide(Vec(nodes, row), out) else Even(|nodes|)
  {
    hide Sum;
  }

  lemma NodeKnown(nodes: seq<string>, all: set<string>, k: nat)
    requires Enumerates(nodes, all) && k < |nodes|
    ensures nodes[k] in all && Enumerates(nodes, set u | u in nodes)
  {
  }

  lemma VecUpdate(nodes: seq<string>, m: map<string, real>, k: nat, c: real)
    requires Enumerates(nodes, set u | u in nodes) && k < |nodes|
    ensures Vec(nodes, m[nodes[k] := c]) == Vec(nodes, m)[k := c]
  {
  }

  /** One turn of the power iteration and the distance it moved. */
  method Iteration(nodes: seq<string>, edges: map<string, map<string, real>>, outWeights: map<string, real>,
                   damping: real, ranks: map<string, real>)
    returns (next: map<string, real>, diff: real)
    requires |nodes| > 0 && Enumerates(nodes, edges.Keys) && ranks.Keys == edges.Keys == outWeights.Keys
    requires forall u :: u in edges ==> RowOk(edges[u], edges.Keys) && outWeights[u] == Sum(Vec(nodes, edges[u]))
    requires Stochastic(Matrix(nodes, edges))
    ensures next.Keys == edges.Keys
    ensures Vec(nodes, next) == Step(Matrix(nodes, edges), damping, Vec(nodes, ranks))
    ensures diff == Distance(Vec(nodes, next), Vec(nodes, ranks))
  {
    hide *;
    var spread, dangling := Spread(nodes, edges, outWeights, damping, ranks);
    var base := (1.0 - damping) / |nodes| as real + Quota(damping, dangling, |nodes| as real);
    next, diff := AddBase(nodes, spread, base, ranks);
    NodesAre(nodes, edges.Keys);
    SpreadPlusBase(nodes, Matrix(nodes, edges), damping, Vec(nodes, ranks), spread, dangling, next);
  }

  lemma SpreadPlusBase(nodes: seq<string>, p: seq<seq<real>>, d: real, x: seq<real>,
                       spread: map<string, real>, dangling: real, next: map<string, real>)
    requires Stochastic(p) && |p| == |x| == |nodes| && |nodes| > 0
    requires Accumulated(nodes, p, d, x, |nodes|, spread, dangling) && next.Keys == spread.Keys
    requires Vec(nodes, next) ==
      Add(Vec(nodes, spread), Fill(|nodes|, (1.0 - d) / |nodes| as real + Quota(d, dangling, |nodes| as real)))
    ensures Vec(nodes, next) == Step(p, d, x)
  {
    hide Stochastic; hide Times; hide Mix; hide Quota;
    forall i | 0 <= i < |nodes| ensures Vec(nodes, next)[i] == Step(p, d, x)[i] {
      AccumulatedAt(nodes, p, d, x, |nodes|, spread, dangling, i);
    }
  }

  lemma NormNothing(x: seq<real>)
    ensures Norm(x[..0]) == 0.0
  {
  }

  lemma NormSnoc(x: seq<real>, k: nat)
    requires k < |x|
    ensures Norm(x[..k + 1]) == Norm(x[..k]) + Abs(x[k])
  {
    assert x[..k + 1][..k] == x[..k];
  }

  lemma NothingAccumulated(nodes: seq<string>, p: seq<seq<real>>, d: real, x: seq<real>, zeros: map<string, real>)
    requires Stochastic(p) && |p| == |x| == |nodes| && |nodes| > 0
    requires forall v :: v in zeros ==> zeros[v] == 0.0
    ensures Accumulated(nodes, p, d, x, 0, zeros, 0.0)
  {
    hide Stochastic;
    assert Times(d, 0.0) == 0.0 && Quota(d, 0.0, |nodes| as real) == 0.0;
    assert Vec(nodes, zeros) == Fill(|nodes|, 0.0);
  }

  method Spread(nodes: seq<string>, edges: map<string, map<string, real>>, outWeights: map<string, real>,
                damping: real, ranks: map<string, real>)
    returns (next: map<string, real>, dangling: real)
    requires |nodes| > 0 && Enumerates(nodes, edges.Keys) && ranks.Keys == edges.Keys == outWeights.Keys
    requires forall u :: u in edges ==> RowOk(edges[u], edges.Keys) && outWeights[u] == Sum(Vec(nodes, edges[u]))
    requires Stochastic(Matrix(nodes, edges))
    ensures next.Keys == edges.Keys
    ensures Accumulated(nodes, Matrix(nodes, edges), damping, Vec(nodes, ranks), |nodes|, next, dangling)
  {
    hide *;
    NodesAre(nodes, edges.Keys);
    ghost var p := Matrix(nodes, edges);
    next := Constant(nodes, 0.0);
    dangling := 0.0;
    NothingAccumulated(nodes, p, damping, Vec(nodes, ranks), next);
    for k := 0 to |nodes|
      invariant next.Keys == edges.Keys
      invariant Accumulated(nodes, p, damping, Vec(nodes, ranks), k, next, dangling)
    {
      var u := nodes[k];
      NodeKnown(nodes, edges.Keys, k);
      var out := outWeights[u];
      if out > 0.0 {
        RowKeys(edges[u], edges.Keys);
        ghost var before := next;
        next := Share(edges[u], out, damping, ranks[u], next);
        SharedTurn(nodes, p, edges[u], damping, ranks, k, out, before, next, dangling);
      } else {
        DanglingTurn(nodes, p, edges[u], damping, ranks, k, next, dangling);
        dangling := dangling + ranks[u];
      }
    }
  }

  lemma SharedTurn(nodes: seq<string>, p: seq<seq<real>>, row: map<string, real>, d: real, ranks: map<string, real>,
                   k: nat, out: real, before: map<string, real>, next: map<string, real>, dangling: real)
    requires k < |p| == |nodes| && Stochastic(p) && out == Sum(Vec(nodes, row)) > 0.0 && p[k] == Row(nodes, row)
    requires nodes[k] in ranks && before.Keys == ranks.Keys && forall u :: u in nodes ==> u in ranks
    requires Accumulated(nodes, p, d, Vec(nodes, ranks), k, before, dangling)
    requires SharedFrom(row, out, d, ranks[nodes[k]], before, next)
    ensures next.Keys == ranks.Keys && Accumulated(nodes, p, d, Vec(nodes, ranks), k + 1, next, dangling)
  {
    hide *;
    RowCase(nodes, row);
    Same(row, out, d, ranks[nodes[k]], before, next);
    SharedMore(nodes, p, row, out, d, Vec(nodes, ranks), k, before, next, dangling);
  }

  lemma DanglingTurn(nodes: seq<string>, p: seq<seq<real>>, row: map<string, real>, d: real, ranks: map<string, real>,
                     k: nat, next: map<string, real>, dangling: real)
    requires k < |p| == |nodes| && Stochastic(p) && Sum(Vec(nodes, row)) <= 0.0 && p[k] == Row(nodes, row)
    requires nodes[k] in ranks && Accumulated(nodes, p, d, Vec(nodes, ranks), k, next, dangling)
    ensures Accumulated(nodes, p, d, Vec(nodes, ranks), k + 1, next, dangling + ranks[nodes[k]])
  {
    hide *;
    RowCase(nodes, row);
    DanglingMore(nodes, p, d, Vec(nodes, ranks), k, next, dangling);
  }

  method Constant(nodes: seq<string>, c: real) returns (m: map<string, real>)
    ensures (forall v :: v in nodes <==> v in m) && forall v :: v in m ==> m[v] == c
  {
    m := map[];
    for k := 0 to |nodes|
      invariant (forall v :: v in m <==> v in nodes[..k]) && forall v :: v in m ==> m[v] == c
    {
      m := m[nodes[k] := c];
    }
    assert nodes[..|nodes|] == nodes;
  }

  lemma RowKeys(row: map<string, real>, all: set<string>)
    requires RowOk(row, all)
    ensures row.Keys <= all
  {
  }

  lemma RowKnown(nodes: seq<string>, row: map<string, real>, all: set<string>)
    requires Enumerates(nodes, all) && RowOk(row, all)
    ensures forall v :: v in row ==> v in nodes
  {
  }

  method OutWeights(nodes: seq<string>, edges: map<string, map<string, real>>) returns (weights: map<string, real>)
    requires Enumerates(nodes, edges.Keys) && forall u :: u in edges ==> RowOk(edges[u], edges.Keys)
    ensures weights.Keys == edges.Keys && forall u :: u in edges ==> weights[u] == Sum(Vec(nodes, edges[u]))
  {
    hide Sum; hide Enumerates; hide RowOk;
    NodesAre(nodes, edges.Keys);
    weights := map[];
    for k := 0 to |nodes|
      invariant forall u :: u in weights <==> u in nodes[..k]
      invariant forall u :: u in weights ==> u in edges && weights[u] == Sum(Vec(nodes, edges[u]))
    {
      NodeKnown(nodes, edges.Keys, k);
      RowKnown(nodes, edges[nodes[k]], edges.Keys);
      var out := OutWeight(nodes, edges[nodes[k]]);
      weights := weights[nodes[k] := out];
    }
    assert nodes[..|nodes|] == nodes;
  }

  /** The loop stopped after k turns, and not earlier than the rule allows. */
  ghost predicate StoppedAt(p: seq<seq<real>>, d: real, tol: real, k: nat, maxIter: nat)
    requires Stochastic(p) && |p| > 0
  {
    && k <= maxIter
    && (forall j :: 1 <= j < k ==> Distance(Iterate(p, d, j), Iterate(p, d, j - 1)) >= tol)
    && (k < maxIter ==> k >= 1 && Distance(Iterate(p, d, k), Iterate(p, d, k - 1)) < tol)
  }

  /**
   calculate_pagerank.  The result is the k-th iterate from the uniform vector, so the closing division by
   the total changes nothing; `turns` is k, and zero for a single node.
   */
  method CalculatePagerank(graph: PatternGraph, damping: real, maxIter: nat, tol: real)
    returns (ranks: map<string, real>, ghost nodes: seq<string>, ghost turns: nat)
    requires graph.Valid()
    ensures ranks.Keys == graph.patterns.Keys && Enumerates(nodes, graph.patterns.Keys) && |nodes| == |graph.patterns|
    ensures nodes != [] ==> Sum(Vec(nodes, ranks)) == 1.0
    ensures nodes != [] && 0.0 <= damping < 1.0 ==> Distribution(Vec(nodes, ranks))
    ensures nodes != [] ==>
      && (forall u :: u in nodes ==> u in graph.edges) && Stochastic(Matrix(nodes, graph.edges))
      && Vec(nodes, ranks) == Iterate(Matrix(nodes, graph.edges), damping, turns)
      && (|nodes| >= 2 ==> StoppedAt(Matrix(nodes, graph.edges), damping, tol, turns, maxIter))
  {
    hide Stochastic; hide Sum; hide Norm; hide Step; hide Row; hide Matrix;
    turns := 0;
    var list := EnumerateNodes(graph.patterns.Keys);
    nodes := list;
    var n := |list|;
    if n == 0 { return map[], nodes, turns; }
    NodesAre(list, graph.edges.Keys);
    MatrixIsStochastic(list, graph.edges);
    ranks := Constant(list, 1.0 / n as real);
    assert Vec(list, ranks) == Fill(n, 1.0 / n as real);
    if n == 1 {
      IterateMass(Matrix(list, graph.edges), damping, 0);
      if 0.0 <= damping < 1.0 { IterateIsDistribution(Matrix(list, graph.edges), damping, 0); }
      return ranks, nodes, turns;
    }
    ranks, turns := Loop(list, graph.edges, damping, maxIter, tol, ranks);
    IterateMass(Matrix(list, graph.edges), damping, turns);
    if 0.0 <= damping < 1.0 { IterateIsDistribution(Matrix(list, graph.edges), damping, turns); }
    var total := Total(list, ranks);
    if total > 0.0 { ranks := Normalize(list, ranks, total); }
  }

  lemma {:induction false} IterateMass(p: seq<seq<real>>, d: real, k: nat)
    requires Stochastic(p) && |p| > 0
    ensures Sum(Iterate(p, d, k)) == 1.0
  {
    hide Stochastic; hide Step; hide Sum;
    if k == 0 {
      SumFill(|p|, 1.0 / |p| as real);
      Cancel(|p| as real, 1.0);
    } else {
      IterateMass(p, d, k - 1);
      StepKeepsMass(p, d, Iterate(p, d, k - 1));
    }
  }

  method Loop(nodes: seq<string>, edges: map<string, map<string, real>>, damping: real, maxIter: nat, tol: real,
              uniform: map<string, real>)
    returns (ranks: map<string, real>, ghost turns: nat)
    requires |nodes| > 0 && Enumerates(nodes, edges.Keys) && uniform.Keys == edges.Keys
    requires forall u :: u in edges ==> RowOk(edges[u], edges.Keys)
    requires Stochastic(Matrix(nodes, edges)) && Vec(nodes, uniform) == Fill(|nodes|, 1.0 / |nodes| as real)
    ensures ranks.Keys == edges.Keys
    ensures Vec(nodes, ranks) == Iterate(Matrix(nodes, edges), damping, turns)
    ensures StoppedAt(Matrix(nodes, edges), damping, tol, turns, maxIter)
  {
    hide Stochastic; hide Sum; hide Norm; hide Step; hide Row; hide Enumerates; hide RowOk;
    NodesAre(nodes, edges.Keys);
    ghost var p := Matrix(nodes, edges);
    hide Matrix;
    var weights := OutWeights(nodes, edges);
    ranks, turns := uniform, 0;
    for k := 0 to maxIter
      invariant ranks.Keys == edges.Keys && turns == k && Vec(nodes, ranks) == Iterate(p, damping, k)
      invariant forall j :: 1 <= j <= k ==> Distance(Iterate(p, damping, j), Iterate(p, damping, j - 1)) >= tol
    {
      var next, diff := Iteration(nodes, edges, weights, damping, ranks);
      assert Vec(nodes, next) == Iterate(p, damping, k + 1);
      turns := k + 1;
      ranks := next;
      if diff < tol { break; }
    }
  }

  method Total(nodes: seq<string>, ranks: map<string, real>) returns (total: real)
    requires forall u :: u in nodes ==> u in ranks
    ensures total == Sum(Vec(nodes, ranks))
  {
    hide Sum;
    total := 0.0;
    ghost var x := Vec(nodes, ranks);
    SumNothing(x);
    for k := 0 to |nodes|
      invariant total == Sum(x[..k])
    {
      assert nodes[k] in nodes;
      SumSnoc(x, k);
      total := total + ranks[nodes[k]];
    }
    assert x[..|nodes|] == x;
  }

  lemma SumNothing(x: seq<real>)
    ensures Sum(x[..0]) == 0.0
  {
  }

  lemma SumSnoc(x: seq<real>, k: nat)
    requires k < |x|
    ensures Sum(x[..k + 1]) == Sum(x[..k]) + x[k]
  {
    assert x[..k + 1][..k] == x[..k];
  }

  method Normalize(nodes: seq<string>, ranks: map<string, real>, total: real) returns (scaled: map<string, real>)
    requires total > 0.0 && Enumerates(nodes, ranks.Keys)
    ensures scaled.Keys == ranks.Keys && Vec(nodes, scaled) == Divide(Vec(nodes, ranks), total)
    ensures total == 1.0 ==> Vec(nodes, scaled) == Vec(nodes, ranks)
  {
    scaled := map[];
    for k := 0 to |nodes|
      invariant forall u :: u in scaled <==> u in nodes[..k]
      invariant forall u :: u in scaled ==> u in ranks && scaled[u] == ranks[u] / total
    {
      scaled := scaled[nodes[k] := ranks[nodes[k]] / total];
    }
    assert nodes[..|nodes|] == nodes;
    assert Vec(nodes, scaled) == Divide(Vec(nodes, ranks), total);
  }

  /** With the default parameters the break always fires, at the 91st turn at the latest. */
  lemma DefaultStopsEarly(p: seq<seq<real>>, turns: nat)
    requires Stochastic(p) && |p| > 0 && StoppedAt(p, 0.85, 0.000001, turns, 100)
    ensures 1 <= turns <= 91
    ensures Distance(Iterate(p, 0.85, turns), Iterate(p, 0.85, turns - 1)) < 0.000001
  {
    hide Iterate; hide Distance;
    DefaultBreaks(p);
  }

  /** ... and then the ranks are within 0.000006 of the one stationary distribution, which every graph has. */
  lemma DefaultError(p: seq<seq<real>>, turns: nat) returns (x: seq<real>)
    requires Stochastic(p) && |p| > 0 && StoppedAt(p, 0.85, 0.000001, turns, 100)
    ensures Stationary(p, 0.85, x) && Distribution(x) && Distance(Iterate(p, 0.85, turns), x) < 0.000006
  {
    DefaultStopsEarly(p, turns);
    x := StationaryExists(p, 0.85);
    hide Distance; hide Step; hide Stochastic; hide Distribution;
    StoppingError(p, 0.85, x, Iterate(p, 0.85, turns - 1));
  }

  /** ... and every later iterate, hence their limit, is within 0.000006 of the ranks. */
  lemma DefaultSettles(p: seq<seq<real>>, turns: nat, m: nat)
    requires Stochastic(p) && |p| > 0 && StoppedAt(p, 0.85, 0.000001, turns, 100) && turns <= m
    ensures Distance(Iterate(p, 0.85, m), Iterate(p, 0.85, turns)) < 0.000006
  {
    hide Distance; hide Step; hide Stochastic;
    DefaultStopsEarly(p, turns);
    LaterIteratesStayClose(p, 0.85, turns, m);
  }

  // ----- the matrix, entry by entry -----

  lemma {:induction false} SumIsZero(x: seq<real>)
    requires forall k :: 0 <= k < |x| ==> x[k] >= 0.0
    ensures Sum(x) >= 0.0 && (Sum(x) == 0.0 <==> forall k :: 0 <= k < |x| ==> x[k] == 0.0)
    decreases |x|
  {
    if x != [] {
      var n := |x| - 1;
      SumIsZero(x[..n]);
      assert forall k :: 0 <= k < n ==> x[..n][k] == x[k];
    }
  }

  /** The weight of an edge, zero if there is none. */
  function To(row: map<string, real>, node: string): real {
    if node in row then row[node] else 0.0
  }

  lemma EntryIs(nodes: seq<string>, edges: map<string, map<string, real>>, u: nat, v: nat)
    requires (forall x :: x in nodes ==> x in edges) && u < |nodes| && v < |nodes|
    ensures var row := edges[nodes[u]]; var out := Sum(Vec(nodes, row));
            Matrix(nodes, edges)[u][v] == if out > 0.0 then To(row, nodes[v]) / out else 1.0 / |nodes| as real
  {
    hide Sum;
    RowCase(nodes, edges[nodes[u]]);
    hide Matrix; hide Row;
  }

  lemma OutIs(nodes: seq<string>, row: map<string, real>)
    requires forall x :: x in row ==> row[x] >= 0.0
    ensures Sum(Vec(nodes, row)) >= 0.0
    ensures Sum(Vec(nodes, row)) == 0.0 <==> forall k :: 0 <= k < |nodes| ==> To(row, nodes[k]) == 0.0
  {
    SumIsZero(Vec(nodes, row));
    hide Sum;
  }

  /**
   A node with outgoing weight sends its rank along its edges, in proportion to their weights; one without sends it
   everywhere alike.
   */
  lemma MatrixFollowsWeights(nodes: seq<string>, edges: map<string, map<string, real>>, u: nat, v: nat, w: nat)
    requires (forall x :: x in nodes ==> x in edges) && u < |nodes| && v < |nodes| && w < |nodes|
    requires forall x :: x in edges[nodes[u]] ==> edges[nodes[u]][x] >= 0.0
    ensures var p, row := Matrix(nodes, edges)[u], edges[nodes[u]];
            && Times(p[v], To(row, nodes[w])) == Times(p[w], To(row, nodes[v]))
            && (To(row, nodes[w]) > 0.0 ==> p[w] > 0.0 && (To(row, nodes[v]) == 0.0 ==> p[v] == 0.0))
            && ((forall k :: 0 <= k < |nodes| ==> To(row, nodes[k]) == 0.0) ==> p[v] == 1.0 / |nodes| as real)
  {
    hide *;
    var row := edges[nodes[u]];
    EntryIs(nodes, edges, u, v);
    EntryIs(nodes, edges, u, w);
    OutIs(nodes, row);
    if Sum(Vec(nodes, row)) > 0.0 { Proportion(To(row, nodes[v]), To(row, nodes[w]), Sum(Vec(nodes, row))); }
  }

  lemma Proportion(a: real, b: real, out: real)
    requires out > 0.0
    ensures Times(a / out, b) == Times(b / out, a) && (b > 0.0 ==> b / out > 0.0) && (a == 0.0 ==> a / out == 0.0)
  {
  }
}
