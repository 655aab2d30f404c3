/** Exact merging of counts, means and centred scatter matrices. */
module Moments {
  import opened Sums
  import opened Vectors

  /** The fitted statistics: how many rows, their mean and their centred scatter matrix. */
  datatype Moments = Moments(count: nat, mean: Vec, m2: seq<Vec>)

  const NOTHING := Moments(0, [], [])

  function Column(rows: seq<Vec>, d: nat, j: nat): (xs: seq<real>)
    requires Uniform(rows, d) && j < d
    ensures |xs| == |rows|
    ensures forall i :: 0 <= i < |xs| ==> xs[i] == rows[i][j]
  {
    seq(|rows|, i requires 0 <= i < |rows| => rows[i][j])
  }

  function Average(xs: seq<real>): real
    requires |xs| > 0
  {
    Sum(xs) / |xs| as real
  }

  function Mean(rows: seq<Vec>, d: nat): (mean: Vec)
    requires Uniform(rows, d) && |rows| > 0
    ensures |mean| == d
    ensures forall j :: 0 <= j < d ==> mean[j] == Average(Column(rows, d, j))
  {
    seq(d, j requires 0 <= j < d => Average(Column(rows, d, j)))
  }

  /** The sum of products of the deviations of two columns from their own averages. */
  function Covariation(xs: seq<real>, ys: seq<real>): real
    requires |xs| == |ys| > 0
  {
    Dot(Centred(xs, Average(xs)), Centred(ys, Average(ys)))
  }

  function ScatterRow(rows: seq<Vec>, d: nat, j: nat): (row: Vec)
    requires Uniform(rows, d) && |rows| > 0 && j < d
    ensures |row| == d
    ensures forall k :: 0 <= k < d ==> row[k] == Covariation(Column(rows, d, j), Column(rows, d, k))
  {
    seq(d, k requires 0 <= k < d => Covariation(Column(rows, d, j), Column(rows, d, k)))
  }

  function Scatter(rows: seq<Vec>, d: nat): (m2: seq<Vec>)
    requires Uniform(rows, d) && |rows| > 0
    ensures |m2| == d && Uniform(m2, d)
    ensures forall j :: 0 <= j < d ==> m2[j] == ScatterRow(rows, d, j)
  {
    seq(d, j requires 0 <= j < d => ScatterRow(rows, d, j))
  }

  /** The statistics of rows, computed directly from their definition. */
  function MomentsOf(rows: seq<Vec>, d: nat): (m: Moments)
    requires Uniform(rows, d)
  {
    if |rows| == 0 then NOTHING else Moments(|rows|, Mean(rows, d), Scatter(rows, d))
  }

  ghost predicate WellFormed(m: Moments, d: nat)
  {
    if m.count == 0 then m == NOTHING else |m.mean| == d && |m.m2| == d && Uniform(m.m2, d)
  }

  // ---- the merge step ----

  /** The share of the first of two counts in their total. */
  function Share(a: nat, b: nat): real
    requires a > 0 && b > 0
  {
    a as real / (a + b) as real
  }

  /** How much of the product of the mean differences a merge of `a` and `b` rows adds. */
  function Weight(a: nat, b: nat): real
    requires a > 0 && b > 0
  {
    a as real * b as real / (a + b) as real
  }

  function MergedAverage(ma: real, a: nat, mb: real, b: nat): real
    requires a > 0 && b > 0
  {
    ma + Times(mb - ma, Share(b, a))
  }

  function MergedMean(m: Moments, b: Moments, d: nat): (mean: Vec)
    requires WellFormed(m, d) && WellFormed(b, d) && m.count > 0 && b.count > 0
    ensures |mean| == d
    ensures forall j :: 0 <= j < d ==> mean[j] == MergedAverage(m.mean[j], m.count, b.mean[j], b.count)
  {
    seq(d, j requires 0 <= j < d => MergedAverage(m.mean[j], m.count, b.mean[j], b.count))
  }

  function MergedEntry(xa: real, xb: real, u: real, v: real, a: nat, b: nat): real
    requires a > 0 && b > 0
  {
    xa + (xb + Times(Times(u, v), Weight(a, b)))
  }

  function MergedRow(m: Moments, b: Moments, d: nat, j: nat): (row: Vec)
    requires WellFormed(m, d) && WellFormed(b, d) && m.count > 0 && b.count > 0 && j < d
    ensures |row| == d
    ensures forall k :: 0 <= k < d ==>
              row[k] == MergedEntry(m.m2[j][k], b.m2[j][k], b.mean[j] - m.mean[j], b.mean[k] - m.mean[k], m.count, b.count)
  {
    seq(d, k requires 0 <= k < d =>
      MergedEntry(m.m2[j][k], b.m2[j][k], b.mean[j] - m.mean[j], b.mean[k] - m.mean[k], m.count, b.count))
  }

  function MergedScatter(m: Moments, b: Moments, d: nat): (m2: seq<Vec>)
    requires WellFormed(m, d) && WellFormed(b, d) && m.count > 0 && b.count > 0
    ensures |m2| == d && Uniform(m2, d)
    ensures forall j :: 0 <= j < d ==> m2[j] == MergedRow(m, b, d, j)
  {
    seq(d, j requires 0 <= j < d => MergedRow(m, b, d, j))
  }

  /** Folds the statistics of one more chunk into `m`. */
  function Merge(m: Moments, b: Moments, d: nat): (r: Moments)
    requires WellFormed(m, d) && WellFormed(b, d) && b.count > 0
    ensures WellFormed(r, d) && r.count == m.count + b.count
  {
    if m.count == 0 then b
    else Moments(m.count + b.count, MergedMean(m, b, d), MergedScatter(m, b, d))
  }

  // ---- exactness ----

  lemma TotalFromAverage(xs: seq<real>)
    requires |xs| > 0
    ensures Times(Average(xs), |xs| as real) == Sum(xs)
  {
    DivideBack(Sum(xs), |xs| as real);
    Commute(Average(xs), |xs| as real);
  }

  lemma DeviationsCancel(xs: seq<real>)
    requires |xs| > 0
    ensures Sum(Centred(xs, Average(xs))) == 0.0
  {
    hide Times;
    SumCentred(xs, Average(xs));
    TotalFromAverage(xs);
  }

  /** About any other centres the covariation grows by a multiple of the two offsets alone. */
  lemma DotAboutMean(xs: seq<real>, ys: seq<real>, c: real, e: real, p: real, q: real)
    requires |xs| == |ys| > 0 && c == Average(xs) + p && e == Average(ys) + q
    ensures Dot(Centred(xs, c), Centred(ys, e)) == Covariation(xs, ys) + Times(Times(p, q), |xs| as real)
  {
    hide Times;
    hide Average;
    var us, vs := Centred(xs, Average(xs)), Centred(ys, Average(ys));
    DotShift(us, vs, p, q);
    DeviationsCancel(xs);
    DeviationsCancel(ys);
    TimesOne(p);
    TimesOne(q);
    assert Centred(xs, c) == Centred(us, p);
    assert Centred(ys, e) == Centred(vs, q);
  }

  lemma SharesOfOne(a: nat, b: nat)
    requires a > 0 && b > 0
    ensures Share(a, b) + Share(b, a) == 1.0
    ensures Times(Share(a, b), (a + b) as real) == a as real
  {
    var t := (a + b) as real;
    DivideBack(a as real, t);
    DivideBack(b as real, t);
    Distribute(t, Share(a, b), Share(b, a));
    CancelFactor(t, Share(a, b) + Share(b, a), 1.0);
  }

  /** Moving from `x` towards `y` by the share of `y` is moving from `y` towards `x` by the share of `x`. */
  lemma WeightedMean(p: real, q: real, x: real, y: real)
    requires p + q == 1.0
    ensures x + Times(y - x, q) == Times(p, x) + Times(q, y)
    ensures x + Times(y - x, q) == y - Times(y - x, p)
  {
    assert p == 1.0 - q;
  }

  /** The offsets of a merged average from the averages of the two blocks, whose difference is `u`. */
  ghost predicate Offsets(a: nat, b: nat, u: real, ao: real, bo: real)
    requires a > 0 && b > 0
  {
    ao == Times(u, Share(b, a)) && bo == -Times(u, Share(a, b))
  }

  lemma WeightedTotal(t: real, p: real, q: real, x: real, y: real)
    ensures Times(t, Times(p, x) + Times(q, y)) == Times(x, Times(p, t)) + Times(y, Times(q, t))
  {
  }

  lemma AverageOfBoth(xa: seq<real>, xb: seq<real>) returns (ao: real, bo: real)
    requires |xa| > 0 && |xb| > 0
    ensures Average(xa + xb) == MergedAverage(Average(xa), |xa|, Average(xb), |xb|)
    ensures Average(xa + xb) == Average(xa) + ao == Average(xb) + bo
    ensures Offsets(|xa|, |xb|, Average(xb) - Average(xa), ao, bo)
  {
    hide Times;
    hide Average;
    hide Share;
    var a, b, x, y := |xa|, |xb|, Average(xa), Average(xb);
    var t, p, q := (a + b) as real, Share(a, b), Share(b, a);
    ao, bo := Times(y - x, q), -Times(y - x, p);
    SharesOfOne(a, b);
    SharesOfOne(b, a);
    WeightedMean(p, q, x, y);
    WeightedTotal(t, p, q, x, y);
    TotalFromAverage(xa);
    TotalFromAverage(xb);
    SumAppend(xa, xb);
    TotalFromAverage(xa + xb);
    Commute(Average(xa + xb), t);
    CancelFactor(t, x + ao, Average(xa + xb));
  }

  /** With p and q the shares of a and b: a * q^2 + b * p^2 = a * b / (a + b). */
  lemma CorrectionWeight(a: nat, b: nat)
    requires a > 0 && b > 0
    ensures var p, q := Share(a, b), Share(b, a);
            Times(Times(q, q), a as real) + Times(Times(p, p), b as real) == Weight(a, b)
  {
    var t, p, q := (a + b) as real, Share(a, b), Share(b, a);
    SharesOfOne(a, b);
    SharesOfOne(b, a);
    WeightAlgebra(t, p, q, a as real, b as real);
    DivideBack(a as real * b as real, t);
    CancelFactor(t, Times(Times(q, q), a as real) + Times(Times(p, p), b as real), Weight(a, b));
  }

  lemma WeightAlgebra(t: real, p: real, q: real, a: real, b: real)
    requires p + q == 1.0 && Times(p, t) == a && Times(q, t) == b
    ensures Times(t, Times(Times(q, q), a) + Times(Times(p, p), b)) == a * b
  {
    assert q * q * (p * t) + p * p * (q * t) == p * q * t * (p + q);
    assert t * (p * q * t) == (p * t) * (q * t);
  }

  lemma OffsetProduct(u: real, v: real, q: real, n: real)
    ensures Times(Times(Times(u, q), Times(v, q)), n) == Times(Times(u, v), Times(Times(q, q), n))
    ensures Times(-Times(u, q), -Times(v, q)) == Times(Times(u, q), Times(v, q))
  {
  }

  lemma OffsetProducts(a: nat, b: nat, u: real, v: real, au: real, av: real, bu: real, bv: real)
    requires a > 0 && b > 0 && Offsets(a, b, u, au, bu) && Offsets(a, b, v, av, bv)
    ensures Times(Times(au, av), a as real) + Times(Times(bu, bv), b as real) == Times(Times(u, v), Weight(a, b))
  {
    hide Times;
    hide Share;
    hide Weight;
    var p, q := Share(a, b), Share(b, a);
    OffsetProduct(u, v, q, a as real);
    OffsetProduct(u, v, p, b as real);
    CorrectionWeight(a, b);
    Distribute(Times(u, v), Times(Times(q, q), a as real), Times(Times(p, p), b as real));
  }

  /** Two columns of both blocks together: the merged entry is their covariation. */
  lemma CovariationOfBoth(xa: seq<real>, ya: seq<real>, xb: seq<real>, yb: seq<real>)
    requires |xa| == |ya| > 0 && |xb| == |yb| > 0
    ensures Covariation(xa + xb, ya + yb)
         == MergedEntry(Covariation(xa, ya), Covariation(xb, yb),
                        Average(xb) - Average(xa), Average(yb) - Average(ya), |xa|, |xb|)
  {
    hide Times;
    hide Average;
    hide Weight;
    hide Offsets;
    var c, e := Average(xa + xb), Average(ya + yb);
    var au, bu := AverageOfBoth(xa, xb);
    var av, bv := AverageOfBoth(ya, yb);
    DotAboutMean(xa, ya, c, e, au, av);
    DotAboutMean(xb, yb, c, e, bu, bv);
    assert Centred(xa + xb, c) == Centred(xa, c) + Centred(xb, c);
    assert Centred(ya + yb, e) == Centred(ya, e) + Centred(yb, e);
    DotAppend(Centred(xa, c), Centred(ya, e), Centred(xb, c), Centred(yb, e));
    OffsetProducts(|xa|, |xb|, Average(xb) - Average(xa), Average(yb) - Average(ya), au, av, bu, bv);
  }

  lemma ColumnAppend(a: seq<Vec>, b: seq<Vec>, d: nat, j: nat)
    requires Uniform(a, d) && Uniform(b, d) && j < d
    ensures Column(a + b, d, j) == Column(a, d, j) + Column(b, d, j)
  {
  }

  /** Merging the statistics of two row blocks gives exactly the statistics of their concatenation. */
  lemma MergeExact(a: seq<Vec>, b: seq<Vec>, d: nat)
    requires Uniform(a, d) && Uniform(b, d) && |b| > 0
    ensures Merge(MomentsOf(a, d), MomentsOf(b, d), d) == MomentsOf(a + b, d)
  {
    if |a| == 0 {
      assert a + b == b;
    } else {
      MergeMeanExact(a, b, d);
      MergeScatterExact(a, b, d);
    }
  }

  lemma MergeMeanExact(a: seq<Vec>, b: seq<Vec>, d: nat)
    requires Uniform(a, d) && Uniform(b, d) && |a| > 0 && |b| > 0
    ensures MergedMean(MomentsOf(a, d), MomentsOf(b, d), d) == Mean(a + b, d)
  {
    forall j | 0 <= j < d ensures MergedMean(MomentsOf(a, d), MomentsOf(b, d), d)[j] == Mean(a + b, d)[j] {
      ColumnAppend(a, b, d, j);
      var ao, bo := AverageOfBoth(Column(a, d, j), Column(b, d, j));
    }
  }

  lemma MergeEntryExact(a: seq<Vec>, b: seq<Vec>, d: nat, j: nat, k: nat)
    requires Uniform(a, d) && Uniform(b, d) && |a| > 0 && |b| > 0 && j < d && k < d
    ensures MergedRow(MomentsOf(a, d), MomentsOf(b, d), d, j)[k] == ScatterRow(a + b, d, j)[k]
  {
    hide Covariation;
    hide MergedEntry;
    hide Average;
    ColumnAppend(a, b, d, j);
    ColumnAppend(a, b, d, k);
    CovariationOfBoth(Column(a, d, j), Column(a, d, k), Column(b, d, j), Column(b, d, k));
  }

  lemma MergeScatterExact(a: seq<Vec>, b: seq<Vec>, d: nat)
    requires Uniform(a, d) && Uniform(b, d) && |a| > 0 && |b| > 0
    ensures MergedScatter(MomentsOf(a, d), MomentsOf(b, d), d) == Scatter(a + b, d)
  {
    forall j | 0 <= j < d ensures MergedScatter(MomentsOf(a, d), MomentsOf(b, d), d)[j] == Scatter(a + b, d)[j] {
      forall k | 0 <= k < d
        ensures MergedRow(MomentsOf(a, d), MomentsOf(b, d), d, j)[k] == ScatterRow(a + b, d, j)[k]
      {
        MergeEntryExact(a, b, d, j, k);
      }
      assert MergedRow(MomentsOf(a, d), MomentsOf(b, d), d, j) == ScatterRow(a + b, d, j);
    }
  }

  /** Adds rows in chunks of at most `size` rows. */
  function AddChunks(m: Moments, rows: seq<Vec>, d: nat, size: nat): (r: Moments)
    requires WellFormed(m, d) && Uniform(rows, d) && size > 0
    ensures WellFormed(r, d) && r.count == m.count + |rows|
    decreases |rows|
  {
    if |rows| == 0 then m
    else
      var take := if |rows| < size then |rows| else size;
      AddChunks(Merge(m, MomentsOf(rows[..take], d), d), rows[take..], d, size)
  }

  lemma MomentsOfCount(rows: seq<Vec>, d: nat)
    requires Uniform(rows, d)
    ensures WellFormed(MomentsOf(rows, d), d) && MomentsOf(rows, d).count == |rows|
  {
  }

  lemma AddNothing(m: Moments, d: nat, size: nat)
    requires WellFormed(m, d) && size > 0
    ensures AddChunks(m, [], d, size) == m
  {
  }

  lemma AddChunksStep(m: Moments, rows: seq<Vec>, d: nat, size: nat)
    requires WellFormed(m, d) && Uniform(rows, d) && size > 0 && |rows| > 0
    ensures var take := if |rows| < size then |rows| else size;
            && WellFormed(MomentsOf(rows[..take], d), d) && MomentsOf(rows[..take], d).count == take
            && AddChunks(m, rows, d, size)
            == AddChunks(Merge(m, MomentsOf(rows[..take], d), d), rows[take..], d, size)
  {
  }

  /** Whatever the chunk size, adding rows to the statistics of earlier rows gives the statistics of them all. */
  lemma {:induction false} AddChunksExact(before: seq<Vec>, rows: seq<Vec>, d: nat, size: nat)
    requires Uniform(before, d) && Uniform(rows, d) && size > 0
    ensures AddChunks(MomentsOf(before, d), rows, d, size) == MomentsOf(before + rows, d)
    decreases |rows|
  {
    if |rows| == 0 {
      assert before + rows == before;
    } else {
      var take := if |rows| < size then |rows| else size;
      MergeExact(before, rows[..take], d);
      AddChunksExact(before + rows[..take], rows[take..], d, size);
      assert before + rows[..take] + rows[take..] == before + rows;
    }
  }

  /** A run of successful additions: each batch with the chunk size it was added with. */
  function AddBatches(m: Moments, batches: seq<(seq<Vec>, nat)>, d: nat): (r: Moments)
    requires WellFormed(m, d)
    requires forall i :: 0 <= i < |batches| ==> Uniform(batches[i].0, d) && batches[i].1 > 0
    ensures WellFormed(r, d)
  {
    if |batches| == 0 then m
    else
      var last := batches[|batches| - 1];
      AddChunks(AddBatches(m, batches[..|batches| - 1], d), last.0, d, last.1)
  }

  ghost function Concatenated(batches: seq<(seq<Vec>, nat)>): seq<Vec>
  {
    if |batches| == 0 then [] else Concatenated(batches[..|batches| - 1]) + batches[|batches| - 1].0
  }

  lemma {:induction false} ConcatenatedUniform(batches: seq<(seq<Vec>, nat)>, d: nat)
    requires forall i :: 0 <= i < |batches| ==> Uniform(batches[i].0, d)
    ensures Uniform(Concatenated(batches), d)
  {
    if |batches| > 0 {
      ConcatenatedUniform(batches[..|batches| - 1], d);
    }
  }

  /** However the training rows are split into batches and chunks, the statistics are those of all the rows. */
  lemma {:induction false} AnySplitIsExact(batches: seq<(seq<Vec>, nat)>, d: nat)
    requires forall i :: 0 <= i < |batches| ==> Uniform(batches[i].0, d) && batches[i].1 > 0
    ensures Uniform(Concatenated(batches), d)
    ensures AddBatches(NOTHING, batches, d) == MomentsOf(Concatenated(batches), d)
  {
    ConcatenatedUniform(batches, d);
    if |batches| > 0 {
      var front, last := batches[..|batches| - 1], batches[|batches| - 1];
      AnySplitIsExact(front, d);
      AddChunksExact(Concatenated(front), last.0, d, last.1);
    }
  }
}
