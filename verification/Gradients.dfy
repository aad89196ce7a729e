/** solution/model.py, the gradient part of `pointwise_step`: the scatter-add loops, and why what
    they accumulate is the derivative of the logits. */
module Gradients {
  import opened Reals
  import opened Results
  import opened Vectors
  import opened FactorizationMachine

  ghost predicate Batch(p: Parameters, features: seq<seq<nat>>, rank: nat) {
    Shaped(p, rank) && forall i | 0 <= i < |features| :: Indexes(p, features[i])
  }

  /** `summed - embedding`, for index `j` in a row. */
  function Pull(p: Parameters, row: seq<nat>, j: nat, rank: nat): (r: Vector)
    requires Shaped(p, rank) && Indexes(p, row) && j < |p.factors|
    ensures |r| == rank
  {
    Minus(Summed(Embed(p, row), rank), p.factors[j])
  }

  /** What index `j` collects from a batch: per row, one pull for each occurrence. */
  function Collected(p: Parameters, features: seq<seq<nat>>, g: seq<real>, j: nat, rank: nat): (r: Vector)
    requires Batch(p, features, rank) && |g| == |features| && j < |p.factors|
    ensures |r| == rank
  {
    if features == [] then Zero(rank) else
      var n := |features| - 1;
      Add(Collected(p, features[..n], g[..n], j, rank),
          Scale(Times(g[n], Occurrences(features[n], j)), Pull(p, features[n], j, rank)))
  }

  function CollectedWeight(features: seq<seq<nat>>, g: seq<real>, j: nat): real
    requires |g| == |features|
  {
    if features == [] then 0.0 else
      var n := |features| - 1;
      CollectedWeight(features[..n], g[..n], j) + Times(g[n], Occurrences(features[n], j))
  }

  function Times(g: real, m: nat): real { g * m as real }

  lemma {:induction false} TimesStep(g: real, m: nat)
    ensures Times(g, m + 1) == Times(g, m) + g
    ensures Times(g, 0) == 0.0
  {
    Distribute(m as real, 1.0, g);
  }

  // ----- The scatter-add loops -----

  lemma {:induction false} OccurrencesAppend(row: seq<nat>, f: nat, j: nat)
    requires f < |row|
    ensures Occurrences(row[..f + 1], j) == Occurrences(row[..f], j) + if row[f] == j then 1 else 0
  {
    if f == 0 {
      assert row[..1][1..] == [];
    } else {
      OccurrencesAppend(row[1..], f - 1, j);
      assert row[..f + 1][1..] == row[1..][..f] && row[..f][1..] == row[1..][..f - 1];
    }
  }

  /** Where the table stands after `f` fields of a row. */
  ghost predicate PartRow(p: Parameters, row: seq<nat>, f: nat, g: real, rank: nat, before: seq<Vector>,
                          after: seq<Vector>)
    requires Shaped(p, rank) && Indexes(p, row) && f <= |row|
  {
    && |before| == |after| == |p.factors| && OfRank(before, rank) && OfRank(after, rank)
    && forall j | 0 <= j < |p.factors| ::
         after[j] == Add(before[j], Scale(Times(g, Occurrences(row[..f], j)), Pull(p, row, j, rank)))
  }

  /** `np.add.at(factor_gradient, features, ...)`, one row. */
  method ScatterRow(p: Parameters, row: seq<nat>, g: real, rank: nat, before: seq<Vector>) returns (after: seq<Vector>)
    requires Shaped(p, rank) && Indexes(p, row)
    requires |before| == |p.factors| && OfRank(before, rank)
    ensures PartRow(p, row, |row|, g, rank, before, after)
  {
    hide PartRow;
    hide Summed;
    after := before;
    PartRowStart(p, row, g, rank, before);
    assert |after| == |p.factors| && OfRank(after, rank);
    var summed := Summed(Embed(p, row), rank);
    for f := 0 to |row|
      invariant PartRow(p, row, f, g, rank, before, after)
      invariant |after| == |p.factors| && OfRank(after, rank)
    {
      var j := row[f];
      var step := Scale(g, Minus(summed, p.factors[j]));
      PartRowStep(p, row, f, g, rank, before, after);
      after := after[j := Add(after[j], step)];
    }
  }

  lemma {:induction false} PartRowStart(p: Parameters, row: seq<nat>, g: real, rank: nat, before: seq<Vector>)
    requires Shaped(p, rank) && Indexes(p, row) && |before| == |p.factors| && OfRank(before, rank)
    ensures PartRow(p, row, 0, g, rank, before, before)
  {
    TimesStep(g, 0);
    forall j | 0 <= j < |p.factors|
      ensures before[j] == Add(before[j], Scale(0.0, Pull(p, row, j, rank)))
    {
      NothingAdded(before[j], Pull(p, row, j, rank));
    }
  }

  lemma {:induction false} NothingAdded(a: Vector, d: Vector)
    requires |a| == |d|
    ensures a == Add(a, Scale(0.0, d))
  {
  }

  lemma {:induction false} OneMoreAdded(a: Vector, g: real, m: nat, d: Vector)
    requires |a| == |d|
    ensures Add(Add(a, Scale(Times(g, m), d)), Scale(g, d)) == Add(a, Scale(Times(g, m + 1), d))
  {
    TimesStep(g, m);
    var x, y := Times(g, m), Times(g, m + 1);
    var l, r := Add(Add(a, Scale(x, d)), Scale(g, d)), Add(a, Scale(y, d));
    forall c | 0 <= c < |a| ensures l[c] == r[c] {
      Distribute(x, g, d[c]);
      assert Scale(x, d)[c] == x * d[c] && Scale(g, d)[c] == g * d[c] && Scale(y, d)[c] == (x + g) * d[c];
    }
  }

  lemma {:induction false} PartRowStep(p: Parameters, row: seq<nat>, f: nat, g: real, rank: nat, before: seq<Vector>,
                                        after: seq<Vector>)
    requires Shaped(p, rank) && Indexes(p, row) && f < |row|
    requires PartRow(p, row, f, g, rank, before, after)
    ensures var j := row[f];
      PartRow(p, row, f + 1, g, rank, before, after[j := Add(after[j], Scale(g, Pull(p, row, j, rank)))])
  {
    hide Pull;
    hide Times;
    hide Occurrences;
    var j := row[f];
    var next := after[j := Add(after[j], Scale(g, Pull(p, row, j, rank)))];
    forall i | 0 <= i < |p.factors|
      ensures next[i] == Add(before[i], Scale(Times(g, Occurrences(row[..f + 1], i)), Pull(p, row, i, rank)))
    {
      OccurrencesAppend(row, f, i);
      if i == j {
        OneMoreAdded(before[j], g, Occurrences(row[..f], j), Pull(p, row, j, rank));
      }
    }
  }

  ghost predicate PartBatch(p: Parameters, features: seq<seq<nat>>, g: seq<real>, rank: nat, table: seq<Vector>)
    requires Batch(p, features, rank) && |g| == |features|
  {
    && |table| == |p.factors| && OfRank(table, rank)
    && forall j | 0 <= j < |p.factors| :: table[j] == Collected(p, features, g, j, rank)
  }

  lemma {:induction false} PartBatchStep(p: Parameters, features: seq<seq<nat>>, g: seq<real>, rank: nat, r: nat,
                                          table: seq<Vector>, next: seq<Vector>)
    requires Batch(p, features, rank) && |g| == |features| && r < |features|
    requires PartBatch(p, features[..r], g[..r], rank, table)
    requires PartRow(p, features[r], |features[r]|, g[r], rank, table, next)
    ensures PartBatch(p, features[..r + 1], g[..r + 1], rank, next)
  {
    hide Pull;
    hide Times;
    hide Occurrences;
    var fs, gs := features[..r + 1], g[..r + 1];
    assert fs[..r] == features[..r] && gs[..r] == g[..r];
    assert features[r][..|features[r]|] == features[r];
    forall j | 0 <= j < |p.factors| ensures next[j] == Collected(p, fs, gs, j, rank) {
      assert table[j] == Collected(p, features[..r], g[..r], j, rank);
    }
  }

  method ScatterFactors(p: Parameters, features: seq<seq<nat>>, g: seq<real>, rank: nat) returns (table: seq<Vector>)
    requires Batch(p, features, rank) && |g| == |features|
    ensures PartBatch(p, features, g, rank, table)
  {
    table := seq(|p.factors|, _ => Zero(rank));
    for r := 0 to |features|
      invariant PartBatch(p, features[..r], g[..r], rank, table)
    {
      hide PartBatch;
      assert |table| == |p.factors| && OfRank(table, rank) by { TableShape(p, features[..r], g[..r], rank, table); }
      var next := ScatterRow(p, features[r], g[r], rank, table);
      PartBatchStep(p, features, g, rank, r, table, next);
      table := next;
    }
    assert features[..|features|] == features && g[..|g|] == g;
  }

  lemma {:induction false} TableShape(p: Parameters, features: seq<seq<nat>>, g: seq<real>, rank: nat,
                                       table: seq<Vector>)
    requires Batch(p, features, rank) && |g| == |features| && PartBatch(p, features, g, rank, table)
    ensures |table| == |p.factors| && OfRank(table, rank)
  {
  }

  /** `np.add.at(weight_gradient, features, ...)`, one row. */
  method ScatterWeightRow(row: seq<nat>, g: real, before: seq<real>) returns (after: seq<real>)
    requires forall f | 0 <= f < |row| :: row[f] < |before|
    ensures |after| == |before|
    ensures forall j | 0 <= j < |before| :: after[j] == before[j] + Times(g, Occurrences(row, j))
  {
    after := before;
    TimesStep(g, 0);
    for f := 0 to |row|
      invariant |after| == |before|
      invariant forall j | 0 <= j < |before| :: after[j] == before[j] + Times(g, Occurrences(row[..f], j))
    {
      hide Occurrences;
      hide Times;
      var next := after[row[f] := after[row[f]] + g];
      forall j | 0 <= j < |before| ensures next[j] == before[j] + Times(g, Occurrences(row[..f + 1], j)) {
        OccurrencesAppend(row, f, j);
        TimesStep(g, Occurrences(row[..f], j));
      }
      after := next;
    }
    assert row[..|row|] == row;
  }

  method ScatterWeights(p: Parameters, features: seq<seq<nat>>, g: seq<real>, rank: nat) returns (table: seq<real>)
    requires Batch(p, features, rank) && |g| == |features|
    ensures |table| == |p.weights| && forall j | 0 <= j < |table| :: table[j] == CollectedWeight(features, g, j)
  {
    table := seq(|p.weights|, _ => 0.0);
    for r := 0 to |features|
      invariant |table| == |p.weights|
      invariant forall j | 0 <= j < |table| :: table[j] == CollectedWeight(features[..r], g[..r], j)
    {
      hide Occurrences;
      hide Times;
      assert features[..r + 1][..r] == features[..r] && g[..r + 1][..r] == g[..r];
      table := ScatterWeightRow(features[r], g[r], table);
    }
    assert features[..|features|] == features && g[..|g|] == g;
  }

  datatype Gradient = Gradient(factors: seq<Vector>, weights: seq<real>, bias: real)

  function Scaled(residuals: seq<real>): (g: seq<real>)
    requires residuals != []
    ensures |g| == |residuals| && forall i | 0 <= i < |g| :: g[i] == residuals[i] / |residuals| as real
  {
    seq(|residuals|, i requires 0 <= i < |residuals| => residuals[i] / |residuals| as real)
  }

  function Total(g: seq<real>): real { if g == [] then 0.0 else Total(g[..|g| - 1]) + g[|g| - 1] }

  /** The gradients `pointwise_step` hands to its updates, from probabilities minus labels. */
  method PointwiseGradients(p: Parameters, features: seq<seq<nat>>, residuals: seq<real>, l2: real, rank: nat)
    returns (r: Result<Gradient>)
    requires Batch(p, features, rank)
    ensures r.Ok? <==> |residuals| != 0 && |features| == |residuals|
    ensures r.Err? ==> r.error == Misaligned
    ensures r.Ok? ==> |r.value.factors| == |r.value.weights| == |p.factors| && r.value.bias == Total(Scaled(residuals))
    ensures r.Ok? ==> forall j | 0 <= j < |p.factors| ::
      r.value.factors[j] == Add(Collected(p, features, Scaled(residuals), j, rank), Scale(l2, p.factors[j]))
    ensures r.Ok? ==> forall j | 0 <= j < |p.factors| ::
      r.value.weights[j] == CollectedWeight(features, Scaled(residuals), j) + l2 * p.weights[j]
  {
    if |residuals| == 0 || |features| != |residuals| { return Err(Misaligned); }
    var g := Scaled(residuals);
    var weights := ScatterWeights(p, features, g, rank);
    var factors := ScatterFactors(p, features, g, rank);
    r := Ok(Gradient(
      seq(|p.factors|, j requires 0 <= j < |p.factors| => Add(factors[j], Scale(l2, p.factors[j]))),
      seq(|p.weights|, j requires 0 <= j < |p.weights| => weights[j] + l2 * p.weights[j]),
      Total(g)));
  }

  // ----- What is accumulated is the derivative -----

  /** The batch's residual-weighted logit change from one set of parameters to another. */
  function WeightedChange(p: Parameters, q: Parameters, features: seq<seq<nat>>, g: seq<real>, rank: nat): real
    requires Batch(p, features, rank) && Batch(q, features, rank) && |g| == |features|
  {
    if features == [] then 0.0 else
      var n := |features| - 1;
      WeightedChange(p, q, features[..n], g[..n], rank)
        + g[n] * (Logit(q, features[n], rank) - Logit(p, features[n], rank))
  }

  ghost predicate NeverRepeats(features: seq<seq<nat>>, j: nat) {
    forall i | 0 <= i < |features| :: Occurrences(features[i], j) <= 1
  }

  /** Over a whole batch whose rows never repeat index `j`, the collected factor gradient dotted with
      any move is the exact weighted change of the logits: no higher-order term is missing. */
  lemma {:induction false} FactorGradientIsExact(p: Parameters, features: seq<seq<nat>>, g: seq<real>, j: nat,
                                                  h: Vector, rank: nat)
    requires Batch(p, features, rank) && |g| == |features| && j < |p.factors| && |h| == rank
    requires NeverRepeats(features, j)
    ensures Batch(Moved(p, j, h), features, rank)
    ensures Dot(h, Collected(p, features, g, j, rank)) == WeightedChange(p, Moved(p, j, h), features, g, rank)
  {
    hide Dot;
    hide Logit;
    hide Occurrences;
    hide Summed;
    hide Remainder;
    hide Times;
    if features == [] {
      DotZero(h);
    } else {
      var n := |features| - 1;
      var row, m := features[n], Occurrences(features[n], j);
      FactorGradientIsExact(p, features[..n], g[..n], j, h, rank);
      LogitMove(p, row, j, h, rank);
      NoRemainder(m, h);
      var pull := Pull(p, row, j, rank);
      DotAdd(h, Collected(p, features[..n], g[..n], j, rank), Scale(Times(g[n], m), pull));
      DotScale(h, Times(g[n], m), pull);
      ScaledMove(g[n], m, Dot(h, pull), Logit(Moved(p, j, h), row, rank) - Logit(p, row, rank));
    }
  }

  lemma {:induction false} ScaledMove(g: real, m: nat, d: real, change: real)
    requires change == m as real * d
    ensures Times(g, m) * d == g * change
  {
    var x := m as real;
    assert g * x * d == g * (x * d);
  }

  function Reweighted(p: Parameters, j: nat, delta: real): Parameters
    requires j < |p.weights|
  {
    p.(weights := p.weights[j := p.weights[j] + delta])
  }

  lemma {:induction false} WeightMove(p: Parameters, row: seq<nat>, j: nat, delta: real, rank: nat)
    requires Shaped(p, rank) && Indexes(p, row) && j < |p.weights|
    ensures WeightSum(Reweighted(p, j, delta), row) - WeightSum(p, row) == Times(delta, Occurrences(row, j))
  {
    TimesStep(delta, 0);
    if row != [] {
      WeightMove(p, row[1..], j, delta, rank);
      TimesStep(delta, Occurrences(row[1..], j));
    }
  }

  /** The weight gradient is exact for any move, repeats or not. */
  lemma {:induction false} WeightGradientIsExact(p: Parameters, features: seq<seq<nat>>, g: seq<real>, j: nat,
                                                  delta: real, rank: nat)
    requires Batch(p, features, rank) && |g| == |features| && j < |p.weights|
    ensures delta * CollectedWeight(features, g, j) == WeightedChange(p, Reweighted(p, j, delta), features, g, rank)
  {
    hide Occurrences;
    hide Interaction;
    hide WeightSum;
    hide Times;
    var q := Reweighted(p, j, delta);
    if features == [] {
      assert delta * 0.0 == 0.0;
    } else {
      var n := |features| - 1;
      WeightGradientIsExact(p, features[..n], g[..n], j, delta, rank);
      WeightMove(p, features[n], j, delta, rank);
      assert Embed(q, features[n]) == Embed(p, features[n]);
      WeightedTerm(delta, CollectedWeight(features[..n], g[..n], j), g[n], Occurrences(features[n], j),
                   Logit(q, features[n], rank) - Logit(p, features[n], rank));
    }
  }

  lemma {:induction false} WeightedTerm(delta: real, c: real, g: real, m: nat, change: real)
    requires change == Times(delta, m)
    ensures delta * (c + Times(g, m)) == delta * c + g * change
  {
    var x := m as real;
    Distribute(c, g * x, delta);
    assert delta * (g * x) == g * (delta * x);
  }

  /** The bias gradient likewise. */
  lemma {:induction false} BiasGradientIsExact(p: Parameters, features: seq<seq<nat>>, g: seq<real>, delta: real,
                                                rank: nat)
    requires Batch(p, features, rank) && |g| == |features|
    ensures delta * Total(g) == WeightedChange(p, p.(bias := p.bias + delta), features, g, rank)
  {
    hide Summed;
    var q := p.(bias := p.bias + delta);
    if features == [] {
      assert delta * 0.0 == 0.0;
    } else {
      var n := |features| - 1;
      var row := features[n];
      BiasGradientIsExact(p, features[..n], g[..n], delta, rank);
      assert Embed(q, row) == Embed(p, row);
      BiasMove(p, row, delta);
      TimesStep(g[n], 0);
      TimesStep(delta, 0);
      WeightedTerm(delta, Total(g[..n]), g[n], 1, Logit(q, row, rank) - Logit(p, row, rank));
    }
  }

  lemma {:induction false} BiasMove(p: Parameters, row: seq<nat>, delta: real)
    requires Indexes(p, row) && |p.weights| == |p.factors|
    ensures WeightSum(p.(bias := p.bias + delta), row) == WeightSum(p, row)
  {
    if row != [] { BiasMove(p, row[1..], delta); }
  }
}
