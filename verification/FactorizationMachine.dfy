/** solution/model.py: the linear-time interaction, its hand-written gradient, and batched scoring. */
module FactorizationMachine {
  import opened Reals
  import opened Results
  import opened Sums
  import opened Vectors

  datatype Parameters = Parameters(bias: real, weights: seq<real>, factors: seq<Vector>)

  /** `dimension` rows of `rank` factors, as the constructor lays them out. */
  ghost predicate Shaped(p: Parameters, rank: nat) {
    && rank > 0 && |p.factors| > 0 && |p.weights| == |p.factors|
    && (forall j | 0 <= j < |p.factors| :: |p.factors[j]| == rank)
  }

  ghost predicate Indexes(p: Parameters, row: seq<nat>) { forall f | 0 <= f < |row| :: row[f] < |p.factors| }

  ghost predicate OfRank(es: seq<Vector>, rank: nat) { forall f | 0 <= f < |es| :: |es[f]| == rank }

  /** `self.factors[features]`, for one row. */
  function Embed(p: Parameters, row: seq<nat>): (r: seq<Vector>)
    requires Indexes(p, row)
    ensures |r| == |row| && forall f | 0 <= f < |row| :: r[f] == p.factors[row[f]]
  {
    seq(|row|, f requires 0 <= f < |row| => p.factors[row[f]])
  }

  function Summed(es: seq<Vector>, rank: nat): (r: Vector)
    requires OfRank(es, rank)
    ensures |r| == rank
  {
    if es == [] then Zero(rank) else Add(es[0], Summed(es[1..], rank))
  }

  function Squares(es: seq<Vector>): real {
    if es == [] then 0.0 else Dot(es[0], es[0]) + Squares(es[1..])
  }

  /** `0.5 * ((summed ** 2).sum() - (embeddings ** 2).sum())`. */
  function Interaction(es: seq<Vector>, rank: nat): real
    requires OfRank(es, rank)
  {
    0.5 * (Dot(Summed(es, rank), Summed(es, rank)) - Squares(es))
  }

  function WeightSum(p: Parameters, row: seq<nat>): real
    requires Indexes(p, row) && |p.weights| == |p.factors|
  {
    if row == [] then 0.0 else p.weights[row[0]] + WeightSum(p, row[1..])
  }

  /** `logits`, one row: rows do not influence each other. */
  function Logit(p: Parameters, row: seq<nat>, rank: nat): real
    requires Shaped(p, rank) && Indexes(p, row)
  {
    p.bias + WeightSum(p, row) + Interaction(Embed(p, row), rank)
  }

  // ----- The linear-time formula is the pairwise one -----

  function DotsWith(x: Vector, es: seq<Vector>, rank: nat): real
    requires |x| == rank && OfRank(es, rank)
  {
    if es == [] then 0.0 else Dot(x, es[0]) + DotsWith(x, es[1..], rank)
  }

  /** Every field's embedding against every later field's. */
  function PairwiseDots(es: seq<Vector>, rank: nat): real
    requires OfRank(es, rank)
  {
    if es == [] then 0.0 else DotsWith(es[0], es[1..], rank) + PairwiseDots(es[1..], rank)
  }

  lemma {:induction false} DotOfSum(x: Vector, es: seq<Vector>, rank: nat)
    requires |x| == rank && OfRank(es, rank)
    ensures Dot(x, Summed(es, rank)) == DotsWith(x, es, rank)
  {
    if es == [] {
      DotZero(x);
    } else {
      DotOfSum(x, es[1..], rank);
      DotAdd(x, es[0], Summed(es[1..], rank));
    }
  }

  lemma {:induction false} InteractionIsPairwise(es: seq<Vector>, rank: nat)
    requires OfRank(es, rank)
    ensures Interaction(es, rank) == PairwiseDots(es, rank)
  {
    hide Dot;
    if es == [] {
      DotZero(Zero(rank));
    } else {
      InteractionIsPairwise(es[1..], rank);
      SquareOfSum(es[0], Summed(es[1..], rank));
      DotOfSum(es[0], es[1..], rank);
    }
  }

  // ----- The logit, term by term -----

  function WeightAt(p: Parameters): nat -> real { (j: nat) => if j < |p.weights| then p.weights[j] else 0.0 }

  function FactorAt(p: Parameters, j: nat, c: int): real {
    if j < |p.factors| && 0 <= c < |p.factors[j]| then p.factors[j][c] else 0.0
  }

  function CoordinateProduct(p: Parameters, i: nat, j: nat): int -> real {
    (c: int) => FactorAt(p, i, c) * FactorAt(p, j, c)
  }

  /** The inner product of two indices' embeddings, coordinate by coordinate. */
  function InnerProduct(p: Parameters, rank: nat): (nat, nat) -> real {
    (i: nat, j: nat) => Sum(Indices(rank), CoordinateProduct(p, i, j))
  }

  /** The score a factorization machine of the second order gives a row: the bias, the weights of the row's
      indices, and the inner products of all pairs of its fields. */
  function SecondOrder(p: Parameters, row: seq<nat>, rank: nat): real {
    p.bias + Sum(row, WeightAt(p)) + Triangle(row, InnerProduct(p, rank))
  }

  function ProductAt(a: Vector, b: Vector): int -> real {
    (c: int) => if 0 <= c < |a| && c < |b| then a[c] * b[c] else 0.0
  }

  lemma {:induction false} DotIsSum(a: Vector, b: Vector)
    requires |a| == |b|
    ensures Dot(a, b) == Sum(Indices(|a|), ProductAt(a, b))
  {
    hide Sum;
    if a == [] {
      SumConst(Indices(0), ProductAt(a, b), 0.0);
    } else {
      var n := |a| - 1;
      var shift := (c: int) => c + 1;
      DotIsSum(a[1..], b[1..]);
      assert Indices(n + 1) == [0] + Map(Indices(n), shift);
      SumAppend([0], Map(Indices(n), shift), ProductAt(a, b));
      SumSingle([0], 0, ProductAt(a, b));
      SumMap(Indices(n), shift, ProductAt(a, b), ProductAt(a[1..], b[1..]));
    }
  }

  lemma {:induction false} WeightSumIsSum(p: Parameters, row: seq<nat>)
    requires Indexes(p, row) && |p.weights| == |p.factors|
    ensures WeightSum(p, row) == Sum(row, WeightAt(p))
  {
    if row != [] { WeightSumIsSum(p, row[1..]); }
  }

  lemma {:induction false} DotIsInner(p: Parameters, i: nat, j: nat, rank: nat)
    requires Shaped(p, rank) && i < |p.factors| && j < |p.factors|
    ensures Dot(p.factors[i], p.factors[j]) == InnerProduct(p, rank)(i, j)
  {
    hide Sum;
    DotIsSum(p.factors[i], p.factors[j]);
    forall c | c in Indices(rank)
      ensures ProductAt(p.factors[i], p.factors[j])(c) == CoordinateProduct(p, i, j)(c)
    {
      assert FactorAt(p, i, c) == p.factors[i][c] && FactorAt(p, j, c) == p.factors[j][c];
    }
    SumExt(Indices(rank), ProductAt(p.factors[i], p.factors[j]), CoordinateProduct(p, i, j));
  }

  lemma {:induction false} DotsWithIsSum(p: Parameters, i: nat, row: seq<nat>, rank: nat)
    requires Shaped(p, rank) && i < |p.factors| && Indexes(p, row)
    ensures DotsWith(p.factors[i], Embed(p, row), rank) == Sum(row, From(InnerProduct(p, rank), i))
  {
    hide Dot;
    hide InnerProduct;
    if row != [] {
      assert Embed(p, row)[1..] == Embed(p, row[1..]);
      DotsWithIsSum(p, i, row[1..], rank);
      DotIsInner(p, i, row[0], rank);
    }
  }

  lemma {:induction false} PairwiseIsTriangle(p: Parameters, row: seq<nat>, rank: nat)
    requires Shaped(p, rank) && Indexes(p, row)
    ensures PairwiseDots(Embed(p, row), rank) == Triangle(row, InnerProduct(p, rank))
  {
    hide Dot;
    hide InnerProduct;
    if row != [] {
      assert Embed(p, row)[1..] == Embed(p, row[1..]);
      PairwiseIsTriangle(p, row[1..], rank);
      DotsWithIsSum(p, row[0], row[1..], rank);
    }
  }

  /** The linear-time logit is that score. */
  lemma {:induction false} LogitIsSecondOrder(p: Parameters, row: seq<nat>, rank: nat)
    requires Shaped(p, rank) && Indexes(p, row)
    ensures Logit(p, row, rank) == SecondOrder(p, row, rank)
  {
    hide Sum;
    hide Triangle;
    hide Interaction;
    hide PairwiseDots;
    WeightSumIsSum(p, row);
    InteractionIsPairwise(Embed(p, row), rank);
    PairwiseIsTriangle(p, row, rank);
  }

  // ----- What one embedding contributes -----

  function Occurrences(row: seq<nat>, j: nat): nat {
    if row == [] then 0 else (if row[0] == j then 1 else 0) + Occurrences(row[1..], j)
  }

  function Moved(p: Parameters, j: nat, h: Vector): Parameters
    requires j < |p.factors| && |p.factors[j]| == |h|
  {
    p.(factors := p.factors[j := Add(p.factors[j], h)])
  }

  lemma {:induction false} SummedMoved(p: Parameters, row: seq<nat>, j: nat, h: Vector, rank: nat)
    requires Shaped(p, rank) && Indexes(p, row) && j < |p.factors| && |h| == rank
    ensures Summed(Embed(Moved(p, j, h), row), rank) ==
      Add(Summed(Embed(p, row), rank), Scale(Occurrences(row, j) as real, h))
  {
    var q := Moved(p, j, h);
    if row == [] {
      assert Scale(0.0, h) == Zero(rank);
    } else {
      var m := Occurrences(row[1..], j) as real;
      SummedMoved(p, row[1..], j, h, rank);
      assert Embed(p, row)[1..] == Embed(p, row[1..]) && Embed(q, row)[1..] == Embed(q, row[1..]);
      var rest := Summed(Embed(p, row[1..]), rank);
      if row[0] == j {
        AddOnceMore(p.factors[j], h, rest, m);
      } else {
        AddAssociative(p.factors[row[0]], rest, Scale(m, h));
      }
    }
  }

  lemma {:induction false} SquaresMoved(p: Parameters, row: seq<nat>, j: nat, h: Vector, rank: nat)
    requires Shaped(p, rank) && Indexes(p, row) && j < |p.factors| && |h| == rank
    ensures Squares(Embed(Moved(p, j, h), row)) ==
      Squares(Embed(p, row)) + Occurrences(row, j) as real * (2.0 * Dot(p.factors[j], h) + Dot(h, h))
  {
    hide Dot;
    var q := Moved(p, j, h);
    var gain := 2.0 * Dot(p.factors[j], h) + Dot(h, h);
    if row == [] {
      assert 0.0 * gain == 0.0;
    } else {
      SquaresMoved(p, row[1..], j, h, rank);
      assert Embed(p, row)[1..] == Embed(p, row[1..]) && Embed(q, row)[1..] == Embed(q, row[1..]);
      SquareOfSum(p.factors[j], h);
      Distribute(1.0, Occurrences(row[1..], j) as real, gain);
    }
  }

  lemma {:induction false} WeightSumMoved(p: Parameters, row: seq<nat>, j: nat, h: Vector)
    requires Indexes(p, row) && |p.weights| == |p.factors| && j < |p.factors| && |p.factors[j]| == |h|
    ensures WeightSum(Moved(p, j, h), row) == WeightSum(p, row)
  {
    if row != [] { WeightSumMoved(p, row[1..], j, h); }
  }

  /** Half a square, for the pairs among the repeats of one index. */
  function Remainder(m: nat, h: Vector): real { (m as real * m as real - m as real) / 2.0 * Dot(h, h) }

  /** Moving the embedding of index `j` by `h` moves a row's logit by `m` times `h . (summed - v)`,
      the factor `pointwise_step` uses, plus a remainder that is there only for repeats. */
  lemma {:induction false} LogitMove(p: Parameters, row: seq<nat>, j: nat, h: Vector, rank: nat)
    requires Shaped(p, rank) && Indexes(p, row) && j < |p.factors| && |h| == rank
    ensures Shaped(Moved(p, j, h), rank)
    ensures var m, s := Occurrences(row, j), Summed(Embed(p, row), rank);
      Logit(Moved(p, j, h), row, rank) - Logit(p, row, rank) ==
        m as real * Dot(h, Minus(s, p.factors[j])) + Remainder(m, h)
  {
    hide Dot;
    var m, s, v := Occurrences(row, j) as real, Summed(Embed(p, row), rank), p.factors[j];
    SummedMoved(p, row, j, h, rank);
    SquaresMoved(p, row, j, h, rank);
    WeightSumMoved(p, row, j, h);
    SquareOfSum(s, Scale(m, h));
    DotScale(s, m, h);
    DotScale(Scale(m, h), m, h);
    DotSymmetric(Scale(m, h), h);
    DotScale(h, m, h);
    DotMinus(h, s, v);
    DotSymmetric(h, s);
    DotSymmetric(h, v);
    MoveAlgebra(m, Dot(s, s), Dot(s, h), Dot(v, h), Dot(h, h), Squares(Embed(p, row)));
  }

  lemma {:induction false} MoveAlgebra(m: real, ss: real, sh: real, vh: real, hh: real, q: real)
    ensures 0.5 * (ss + 2.0 * (m * sh) + m * (m * hh) - (q + m * (2.0 * vh + hh))) - 0.5 * (ss - q) ==
      m * (sh - vh) + (m * m - m) / 2.0 * hh
  {
    assert m * (2.0 * vh + hh) == 2.0 * (m * vh) + m * hh;
    assert m * (sh - vh) == m * sh - m * vh;
    assert (m * m - m) / 2.0 * hh == (m * m * hh - m * hh) / 2.0;
    assert m * (m * hh) == m * m * hh;
  }

  /** The move of a logit is exactly the one the hand-written factor predicts. */
  ghost predicate Predicted(p: Parameters, row: seq<nat>, j: nat, h: Vector, rank: nat)
    requires Shaped(p, rank) && Indexes(p, row) && j < |p.factors| && |h| == rank
  {
    Shaped(Moved(p, j, h), rank) &&
    Logit(Moved(p, j, h), row, rank) - Logit(p, row, rank) ==
      Occurrences(row, j) as real * Dot(h, Minus(Summed(Embed(p, row), rank), p.factors[j]))
  }

  /** The hand-written factor is the exact change, for every move, exactly when the index occurs at
      most once in the row. */
  lemma {:induction false} ExactIffNotRepeated(p: Parameters, row: seq<nat>, j: nat, rank: nat)
    requires Shaped(p, rank) && Indexes(p, row) && j < |p.factors|
    ensures Occurrences(row, j) <= 1 <==> forall h: Vector | |h| == rank :: Predicted(p, row, j, h, rank)
  {
    hide Predicted;
    if Occurrences(row, j) <= 1 {
      forall h: Vector | |h| == rank ensures Predicted(p, row, j, h, rank) {
        NoRemainder(Occurrences(row, j), h);
        PredictedIffNoRemainder(p, row, j, h, rank);
      }
    } else {
      RepeatRemainder(Occurrences(row, j), rank);
      PredictedIffNoRemainder(p, row, j, Unit(rank), rank);
    }
  }

  lemma {:induction false} PredictedIffNoRemainder(p: Parameters, row: seq<nat>, j: nat, h: Vector, rank: nat)
    requires Shaped(p, rank) && Indexes(p, row) && j < |p.factors| && |h| == rank
    ensures Predicted(p, row, j, h, rank) <==> Remainder(Occurrences(row, j), h) == 0.0
  {
    hide Dot;
    hide Logit;
    hide Summed;
    hide Remainder;
    LogitMove(p, row, j, h, rank);
  }

  lemma {:induction false} NoRemainder(m: nat, h: Vector)
    requires m <= 1
    ensures Remainder(m, h) == 0.0
  {
    assert m as real * m as real == m as real;
  }

  lemma {:induction false} RepeatRemainder(m: nat, rank: nat)
    requires m > 1 && rank > 0
    ensures Remainder(m, Unit(rank)) > 0.0
  {
    UnitSquare(rank);
    MulLess(1.0, m as real, m as real);
  }

  // ----- Batched scoring -----

  /** `logits` over a batch. */
  function Logits(p: Parameters, features: seq<seq<nat>>, rank: nat): (r: seq<real>)
    requires Shaped(p, rank) && forall i | 0 <= i < |features| :: Indexes(p, features[i])
    ensures |r| == |features| && forall i | 0 <= i < |features| :: r[i] == Logit(p, features[i], rank)
  {
    seq(|features|, i requires 0 <= i < |features| => Logit(p, features[i], rank))
  }

  /** `predict`: the batch size is invisible in the scores. */
  method Predict(p: Parameters, features: seq<seq<nat>>, batchSize: int, rank: nat)
    returns (r: Result<seq<real>>)
    requires Shaped(p, rank) && forall i | 0 <= i < |features| :: Indexes(p, features[i])
    ensures batchSize < 1 ==> r == Err(BadBatch)
    ensures batchSize >= 1 ==> r == Ok(Logits(p, features, rank))
    ensures batchSize >= 1 ==> forall i | 0 <= i < |features| :: r.value[i] == SecondOrder(p, features[i], rank)
  {
    if batchSize < 1 { return Err(BadBatch); }
    forall i | 0 <= i < |features| ensures Logit(p, features[i], rank) == SecondOrder(p, features[i], rank) {
      LogitIsSecondOrder(p, features[i], rank);
    }
    hide SecondOrder;
    if |features| == 0 { return Ok([]); }
    var scores: seq<real> := [];
    var start := 0;
    while start < |features|
      invariant 0 <= start
      invariant scores == Logits(p, features, rank)[..if start < |features| then start else |features|]
    {
      hide Logit;
      var end := if start + batchSize < |features| then start + batchSize else |features|;
      var batch := features[start..end];
      scores := scores + Logits(p, batch, rank);
      start := start + batchSize;
    }
    assert Logits(p, features, rank)[..|features|] == Logits(p, features, rank);
    r := Ok(scores);
  }
}
