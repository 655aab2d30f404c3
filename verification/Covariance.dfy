/** The regularized covariance of accumulated sums and second moments is positive definite. */
module Covariance {
  import opened Sums
  import opened Vectors
  import opened Moments

  /** The columns of a data matrix, each a sequence of `n` samples. */
  ghost predicate Columns(cols: seq<seq<real>>, n: nat)
  {
    forall r :: 0 <= r < |cols| ==> |cols[r]| == n
  }

  /** The entry of the regularized covariance of two columns, as accumulated data give it. */
  function Entry(moment: real, sumRow: real, sumColumn: real, inverse: real, diagonal: bool, regularization: real): real {
    Times(moment, inverse) - Times(Times(sumRow, inverse), Times(sumColumn, inverse))
    + (if diagonal then regularization else 0.0)
  }

  ghost predicate IsCovariance(c: seq<seq<real>>, cols: seq<seq<real>>, n: nat, regularization: real)
  {
    && n > 0 && Columns(cols, n) && |c| == |cols| && Columns(c, |cols|)
    && forall i, j {:trigger c[i][j]} :: 0 <= i < |cols| && 0 <= j < |cols| ==>
         c[i][j] == Entry(Dot(cols[i], cols[j]), Sum(cols[i]), Sum(cols[j]), 1.0 / n as real, i == j, regularization)
  }

  /** The quadratic form of a matrix at a vector. */
  ghost function Quadratic(c: seq<seq<real>>, v: seq<real>): real
    requires |c| == |v| && Columns(c, |v|)
  {
    Dot(v, Applied(c, v))
  }

  ghost function Applied(c: seq<seq<real>>, v: seq<real>): (r: seq<real>)
    requires Columns(c, |v|)
    ensures |r| == |c|
    ensures forall i :: 0 <= i < |r| ==> r[i] == Dot(c[i], v)
  {
    seq(|c|, i requires 0 <= i < |c| => Dot(c[i], v))
  }

  /** The samples of the linear combination of the columns with coefficients `v`. */
  ghost function Combined(cols: seq<seq<real>>, v: seq<real>, n: nat): (y: seq<real>)
    requires |cols| == |v| && Columns(cols, n)
    ensures |y| == n
  {
    if |cols| == 0 then Constant(n, 0.0)
    else
      var last := |cols| - 1;
      Added(Combined(cols[..last], v[..last], n), Scaled(cols[last], v[last]))
  }

  function Added(a: seq<real>, b: seq<real>): (r: seq<real>)
    requires |a| == |b|
    ensures |r| == |a|
    ensures forall i :: 0 <= i < |r| ==> r[i] == a[i] + b[i]
  {
    seq(|a|, i requires 0 <= i < |a| => a[i] + b[i])
  }

  lemma ProductsSplit(a: seq<real>, b: seq<real>, z: seq<real>, p: real)
    requires |a| == |b| == |z|
    ensures Dot(Added(a, Scaled(b, p)), z) == Dot(a, z) + Times(p, Dot(b, z))
  {
    hide Times;
    hide Sum;
    forall i | 0 <= i < |z|
      ensures Products(Added(a, Scaled(b, p)), z)[i] == Products(a, z)[i] + Scaled(Products(b, z), p)[i]
    {
      SplitTerm(a[i], b[i], z[i], p);
    }
    SumOfTwo(Products(Added(a, Scaled(b, p)), z), Products(a, z), Scaled(Products(b, z), p));
    SumScaled(Products(b, z), p);
  }

  lemma SplitTerm(a: real, b: real, z: real, p: real)
    ensures Times(a + Times(p, b), z) == Times(a, z) + Times(p, Times(b, z))
  {
  }

  lemma ZeroDot(n: nat, z: seq<real>)
    requires |z| == n
    ensures Dot(Constant(n, 0.0), z) == 0.0
  {
    forall i | 0 <= i < n ensures Products(Constant(n, 0.0), z)[i] == Constant(n, 0.0)[i] {
      TimesOne(z[i]);
      Commute(z[i], 0.0);
    }
    assert Products(Constant(n, 0.0), z) == Constant(n, 0.0);
    SumConstant(n, 0.0);
  }

  lemma {:induction false} DotCommutes(a: seq<real>, b: seq<real>)
    requires |a| == |b|
    ensures Dot(a, b) == Dot(b, a)
  {
    forall i | 0 <= i < |a| ensures Products(a, b)[i] == Products(b, a)[i] {
      Commute(a[i], b[i]);
    }
    assert Products(a, b) == Products(b, a);
  }

  /** A combination's inner product with `z` is the combination of the columns' inner products. */
  lemma {:induction false} CombinedDot(cols: seq<seq<real>>, v: seq<real>, z: seq<real>)
    requires |cols| == |v| && Columns(cols, |z|)
    ensures Dot(Combined(cols, v, |z|), z) == Dot(v, Applied(cols, z))
  {
    hide Times;
    hide Dot;
    if |cols| == 0 {
      ZeroDot(|z|, z);
      EmptyDot(v, Applied(cols, z));
    } else {
      var last := |cols| - 1;
      CombinedDot(cols[..last], v[..last], z);
      ProductsSplit(Combined(cols[..last], v[..last], |z|), cols[last], z, v[last]);
      DotLast(v, Applied(cols, z));
      assert Applied(cols, z)[..last] == Applied(cols[..last], z);
    }
  }

  function Ones(n: nat): seq<real> {
    Constant(n, 1.0)
  }

  lemma DotOnes(xs: seq<real>)
    ensures Dot(xs, Ones(|xs|)) == Sum(xs)
  {
    forall i | 0 <= i < |xs| ensures Products(xs, Ones(|xs|))[i] == xs[i] {
      TimesOne(xs[i]);
    }
    assert Products(xs, Ones(|xs|)) == xs;
  }

  // ---- squares ----

  lemma {:induction false} SumNonNegative(xs: seq<real>)
    requires forall i :: 0 <= i < |xs| ==> xs[i] >= 0.0
    ensures Sum(xs) >= 0.0
  {
    if |xs| > 0 {
      SumNonNegative(xs[..|xs| - 1]);
    }
  }

  lemma SquareNonNegative(x: real)
    ensures Times(x, x) >= 0.0
  {
  }

  lemma DotSelf(xs: seq<real>)
    ensures Dot(xs, xs) >= 0.0
  {
    hide Times;
    forall i | 0 <= i < |xs| ensures Products(xs, xs)[i] >= 0.0 {
      SquareNonNegative(xs[i]);
    }
    SumNonNegative(Products(xs, xs));
  }

  /** The mean square is at least the square of the mean. */
  lemma MeanSquare(y: seq<real>)
    requires |y| > 0
    ensures var inverse := 1.0 / |y| as real;
            Times(Dot(y, y), inverse) >= Times(Times(Sum(y), inverse), Times(Sum(y), inverse))
  {
    hide Sum;
    hide Times;
    hide Dot;
    var n, inverse := |y| as real, 1.0 / |y| as real;
    var mean := Times(Sum(y), inverse);
    DotShift(y, y, mean, mean);
    DotSelf(Centred(y, mean));
    InverseIs(n);
    MeanSquareAlgebra(Dot(y, y), Sum(y), n, inverse, mean);
  }

  lemma InverseIs(n: real)
    requires n > 0.0
    ensures Times(n, 1.0 / n) == 1.0 && 1.0 / n > 0.0
  {
    DivideBack(1.0, n);
  }

  lemma MeanSquareAlgebra(square: real, sum: real, n: real, inverse: real, mean: real)
    requires Times(n, inverse) == 1.0 && inverse > 0.0 && mean == Times(sum, inverse)
    requires square >= Times(mean, sum) + (Times(mean, sum) - Times(Times(mean, mean), n))
    ensures Times(square, inverse) >= Times(mean, mean)
  {
    assert Times(mean, n) == sum by {
      assert sum * inverse * n == sum * (n * inverse);
    }
    assert Times(Times(mean, mean), n) == Times(mean, sum) by {
      assert mean * mean * n == mean * (mean * n);
    }
    assert square >= mean * sum;
    assert (square - mean * sum) * inverse >= 0.0;
    assert mean * sum * inverse == mean * mean;
  }

  // ---- positive definiteness ----

  lemma SumZeros(xs: seq<real>)
    requires forall i :: 0 <= i < |xs| ==> xs[i] == 0.0
    ensures Sum(xs) == 0.0
  {
    assert xs == Constant(|xs|, 0.0);
    SumConstant(|xs|, 0.0);
  }

  lemma {:induction false} SumSingle(xs: seq<real>, k: nat)
    requires k < |xs| && forall i :: 0 <= i < |xs| && i != k ==> xs[i] == 0.0
    ensures Sum(xs) == xs[k]
  {
    var last := |xs| - 1;
    if k == last {
      SumZeros(xs[..last]);
    } else {
      SumSingle(xs[..last], k);
    }
  }

  function Unit(n: nat, k: nat): (r: seq<real>)
    ensures |r| == n
    ensures forall i :: 0 <= i < n ==> r[i] == if i == k then 1.0 else 0.0
  {
    seq(n, i => if i == k then 1.0 else 0.0)
  }

  lemma DotUnit(n: nat, k: nat, v: seq<real>)
    requires k < n == |v|
    ensures Dot(Unit(n, k), v) == v[k]
  {
    hide Sum;
    var terms := Products(Unit(n, k), v);
    forall i | 0 <= i < n ensures terms[i] == if i == k then v[k] else 0.0 {
      TimesOne(v[i]);
      Commute(v[i], Unit(n, k)[i]);
    }
    SumSingle(terms, k);
  }

  /** The inner product of a row that is a combination of three others. */
  lemma DotOfThree(row: seq<real>, g: seq<real>, s: seq<real>, e: seq<real>, p: real, q: real, r: real, z: seq<real>)
    requires |row| == |g| == |s| == |e| == |z|
    requires forall j :: 0 <= j < |row| ==> row[j] == Times(p, g[j]) + Times(q, s[j]) + Times(r, e[j])
    ensures Dot(row, z) == Times(p, Dot(g, z)) + Times(q, Dot(s, z)) + Times(r, Dot(e, z))
  {
    hide Times;
    hide Dot;
    var zero := Constant(|z|, 0.0);
    var one := Added(zero, Scaled(g, p));
    var two := Added(one, Scaled(s, q));
    assert row == Added(two, Scaled(e, r));
    ProductsSplit(two, e, z, r);
    ProductsSplit(one, s, z, q);
    ProductsSplit(zero, g, z, p);
    ZeroDot(|z|, z);
  }

  ghost function SumsOf(cols: seq<seq<real>>): (r: seq<real>)
    ensures |r| == |cols|
    ensures forall i :: 0 <= i < |r| ==> r[i] == Sum(cols[i])
  {
    seq(|cols|, i requires 0 <= i < |cols| => Sum(cols[i]))
  }

  lemma SumOfCombined(cols: seq<seq<real>>, v: seq<real>, n: nat)
    requires |cols| == |v| && Columns(cols, n)
    ensures Dot(SumsOf(cols), v) == Sum(Combined(cols, v, n))
  {
    hide Times;
    hide Sum;
    hide Dot;
    hide Combined;
    forall i | 0 <= i < |cols| ensures SumsOf(cols)[i] == Applied(cols, Ones(n))[i] {
      DotOnes(cols[i]);
    }
    assert SumsOf(cols) == Applied(cols, Ones(n));
    CombinedDot(cols, v, Ones(n));
    DotOnes(Combined(cols, v, n));
    DotCommutes(SumsOf(cols), v);
  }

  lemma EntryTerms(moment: real, a: real, b: real, inverse: real, regularization: real, unit: real, diagonal: bool)
    requires unit == if diagonal then 1.0 else 0.0
    ensures Entry(moment, a, b, inverse, diagonal, regularization)
         == Times(inverse, moment) + Times(-Times(Times(a, inverse), inverse), b) + Times(regularization, unit)
  {
    assert a * inverse * (b * inverse) == a * inverse * inverse * b;
  }

  /** One row of the covariance applied to a vector. */
  lemma AppliedRow(c: seq<seq<real>>, cols: seq<seq<real>>, n: nat, regularization: real, v: seq<real>, i: nat)
    requires IsCovariance(c, cols, n, regularization) && |v| == |cols| && i < |cols|
    ensures var inverse, y := 1.0 / n as real, Combined(cols, v, n);
            Dot(c[i], v) == Times(inverse, Dot(cols[i], y)) + Times(-Times(Times(Sum(cols[i]), inverse), inverse), Sum(y))
                            + Times(regularization, v[i])
  {
    hide Times;
    hide Sum;
    hide Dot;
    hide Entry;
    hide Combined;
    var d, inverse, y := |cols|, 1.0 / n as real, Combined(cols, v, n);
    var weight := -Times(Times(Sum(cols[i]), inverse), inverse);
    var g, s, e := Applied(cols, cols[i]), SumsOf(cols), Unit(d, i);
    forall j | 0 <= j < d
      ensures c[i][j] == Times(inverse, g[j]) + Times(weight, s[j]) + Times(regularization, e[j])
    {
      DotCommutes(cols[i], cols[j]);
      EntryTerms(Dot(cols[i], cols[j]), Sum(cols[i]), Sum(cols[j]), inverse, regularization, e[j], i == j);
    }
    DotOfThree(c[i], g, s, e, inverse, weight, regularization, v);
    CombinedDot(cols, v, cols[i]);
    DotCommutes(g, v);
    DotCommutes(y, cols[i]);
    SumOfCombined(cols, v, n);
    DotUnit(d, i, v);
  }

  lemma MoveFactor(a: real, inverse: real, b: real)
    ensures Times(-Times(Times(a, inverse), inverse), b) == Times(-Times(Times(b, inverse), inverse), a)
    ensures Times(-Times(Times(a, inverse), inverse), a) == -Times(Times(a, inverse), Times(a, inverse))
  {
    assert a * inverse * inverse * b == b * inverse * inverse * a;
    assert a * inverse * inverse * a == a * inverse * (a * inverse);
  }

  /** The quadratic form is the mean square of the combined samples about their mean, plus the regularization. */
  lemma QuadraticIs(c: seq<seq<real>>, cols: seq<seq<real>>, n: nat, regularization: real, v: seq<real>)
    requires IsCovariance(c, cols, n, regularization) && |v| == |cols|
    ensures var inverse, y := 1.0 / n as real, Combined(cols, v, n);
            Quadratic(c, v) == Times(Dot(y, y), inverse) - Times(Times(Sum(y), inverse), Times(Sum(y), inverse))
                               + Times(regularization, Dot(v, v))
  {
    hide Times;
    hide Sum;
    hide Dot;
    hide Combined;
    hide IsCovariance;
    CovarianceShape(c, cols, n, regularization);
    var inverse, y := 1.0 / n as real, Combined(cols, v, n);
    var weight := -Times(Times(Sum(y), inverse), inverse);
    var applied, g, s := Applied(c, v), Applied(cols, y), SumsOf(cols);
    forall i | 0 <= i < |applied|
      ensures applied[i] == Times(inverse, g[i]) + Times(weight, s[i]) + Times(regularization, v[i])
    {
      AppliedRow(c, cols, n, regularization, v, i);
      MoveFactor(Sum(cols[i]), inverse, Sum(y));
    }
    DotOfThree(applied, g, s, v, inverse, weight, regularization, v);
    DotCommutes(v, applied);
    CombinedDot(cols, v, y);
    DotCommutes(g, v);
    SumOfCombined(cols, v, n);
    MoveFactor(Sum(y), inverse, Sum(y));
    Commute(inverse, Dot(y, y));
  }

  lemma CovarianceShape(c: seq<seq<real>>, cols: seq<seq<real>>, n: nat, regularization: real)
    requires IsCovariance(c, cols, n, regularization)
    ensures n > 0 && Columns(cols, n) && |c| == |cols| && Columns(c, |cols|)
  {
  }

  lemma Symmetric(c: seq<seq<real>>, cols: seq<seq<real>>, n: nat, regularization: real, i: nat, j: nat)
    requires IsCovariance(c, cols, n, regularization) && i < |cols| && j < |cols|
    ensures c[i][j] == c[j][i]
  {
    hide Times;
    hide Dot;
    hide Sum;
    DotCommutes(cols[i], cols[j]);
    Commute(Times(Sum(cols[i]), 1.0 / n as real), Times(Sum(cols[j]), 1.0 / n as real));
  }

  /**
   * Whatever data were accumulated, v' C v >= regularization * |v|^2 for every vector v: the regularized
   * covariance is positive definite, and its Cholesky factorization exists.
   */
  lemma PositiveDefinite(c: seq<seq<real>>, cols: seq<seq<real>>, n: nat, regularization: real, v: seq<real>)
    requires IsCovariance(c, cols, n, regularization) && |v| == |cols|
    ensures Quadratic(c, v) >= Times(regularization, Dot(v, v))
  {
    hide Times;
    hide Sum;
    hide Dot;
    hide Combined;
    CovarianceShape(c, cols, n, regularization);
    hide IsCovariance;
    QuadraticIs(c, cols, n, regularization, v);
    MeanSquare(Combined(cols, v, n));
  }

  /** With a positive regularization only the zero vector has a zero form. */
  lemma StrictlyPositive(c: seq<seq<real>>, cols: seq<seq<real>>, n: nat, regularization: real, v: seq<real>, k: nat)
    requires IsCovariance(c, cols, n, regularization) && |v| == |cols| && regularization > 0.0
    requires k < |v| && v[k] != 0.0
    ensures Quadratic(c, v) > 0.0
  {
    hide IsCovariance;
    hide Quadratic;
    PositiveDefinite(c, cols, n, regularization, v);
    SquareDominates(v, k);
    assert regularization * Dot(v, v) > 0.0;
  }

  lemma SameSign(a: real, b: real)
    requires (a > 0.0 && b > 0.0) || (a < 0.0 && b < 0.0)
    ensures Times(a, b) > 0.0
  {
  }

  lemma {:induction false} SquareDominates(v: seq<real>, k: nat)
    requires k < |v| && v[k] != 0.0
    ensures Dot(v, v) > 0.0
  {
    hide Times;
    hide Dot;
    var last := |v| - 1;
    DotLast(v, v);
    SquareNonNegative(v[last]);
    if k < last {
      SquareDominates(v[..last], k);
    } else {
      DotSelf(v[..last]);
      SameSign(v[last], v[last]);
    }
  }
}
