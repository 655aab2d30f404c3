/** The means and regularized covariances of accumulated PaDiM statistics. */
module PadimCovariance {
  import opened Numbers
  import opened Sums
  import opened Vectors
  import opened Moments
  import opened Covariance
  import opened Cholesky
  import opened PadimSizing
  import opened Padim

  // ---- checkpoint files ----

  /** The fields of a checkpoint file. */
  datatype PadimFile = PadimFile(
    dimension: nat, height: nat, width: nat, samples: nat,
    indices: seq<int32>, sums: seq<Float>, moments: seq<Float>, trailing: bool)

  predicate Acceptable(file: PadimFile, config: PadimConfig)
    requires config.Valid()
  {
    && file.dimension == config.embeddingDimension && file.height == config.featureHeight
    && file.width == config.featureWidth && 0 < file.samples <= SIZE_MAX
    && |file.sums| == config.Size() && |file.moments| == config.Size() * config.Dimension()
    && !file.trailing && file.indices == config.channelIndices
    && AllFinite(file.sums) && AllFinite(file.moments)
  }

  /** The state an accepted file holds. */
  function Restored(file: PadimFile, config: PadimConfig): (s: Snapshot)
    requires config.Valid() && Acceptable(file, config)
    ensures Sized(s, config.Locations(), config.Dimension()) && s.samples > 0
  {
    Snapshot(file.samples, Reals(file.sums), Reals(file.moments))
  }

  function Floats(values: seq<real>): (r: seq<Float>)
    ensures |r| == |values| && AllFinite(r) && Reals(r) == values
  {
    var r := seq(|values|, i requires 0 <= i < |values| => Finite(values[i]));
    assert Reals(r) == values;
    r
  }

  /** The file a checkpoint is saved as. */
  function Saved(s: Snapshot, config: PadimConfig): PadimFile
    requires config.Valid()
  {
    PadimFile(config.embeddingDimension, config.featureHeight, config.featureWidth, s.samples,
              config.channelIndices, Floats(s.sums), Floats(s.moments), false)
  }

  /** A saved checkpoint is accepted and holds the state it was taken of. */
  lemma SavedIsRestored(s: Snapshot, config: PadimConfig)
    requires config.Valid() && Sized(s, config.Locations(), config.Dimension()) && 0 < s.samples <= SIZE_MAX
    ensures Acceptable(Saved(s, config), config) && Restored(Saved(s, config), config) == s
  {
  }

  /** Nothing else is accepted: an accepted file is the saved form of the state it holds. */
  lemma AcceptedIsSaved(file: PadimFile, config: PadimConfig)
    requires config.Valid() && Acceptable(file, config)
    ensures file == Saved(Restored(file, config), config) && 0 < Restored(file, config).samples <= SIZE_MAX
  {
    assert Floats(Reals(file.sums)) == file.sums;
    assert Floats(Reals(file.moments)) == file.moments;
  }

  // ---- covariances of accumulated data ----

  /** The mean of channel `r` at location `l`. */
  function MeanAt(sums: seq<real>, n: nat, locations: nat, d: nat, l: nat, r: nat): real
    requires d > 0 && n > 0 && |sums| == locations * d && l < locations && r < d
  {
    CellIndex(locations, d, l, r);
    Times(sums[l * d + r], 1.0 / n as real)
  }

  ghost predicate IsMean(mean: Vec, sums: seq<real>, n: nat, locations: nat, d: nat, l: nat)
    requires d > 0 && n > 0 && |sums| == locations * d && l < locations
  {
    |mean| == d && forall r :: 0 <= r < d ==> mean[r] == MeanAt(sums, n, locations, d, l, r)
  }

  /** The covariance entry at row `r`, column `c` of location `l`. */
  function EntryAt(sums: seq<real>, moments: seq<real>, n: nat, regularization: real,
                   locations: nat, d: nat, l: nat, r: nat, c: nat): real
    requires d > 0 && n > 0 && |sums| == locations * d && |moments| == locations * d * d
    requires l < locations && r < d && c < d
  {
    FlatIndex(locations, d, l, r, c);
    Entry(moments[(l * d + r) * d + c], sums[l * d + r], sums[l * d + c], 1.0 / n as real, r == c, regularization)
  }

  ghost predicate IsAccumulatedCovariance(m: seq<Vec>, sums: seq<real>, moments: seq<real>, n: nat, regularization: real,
                                          locations: nat, d: nat, l: nat)
    requires d > 0 && n > 0 && |sums| == locations * d && |moments| == locations * d * d && l < locations
  {
    |m| == d && forall r {:trigger m[r]} :: 0 <= r < d ==>
      |m[r]| == d && forall c {:trigger m[r][c]} :: 0 <= c < d ==>
        m[r][c] == EntryAt(sums, moments, n, regularization, locations, d, l, r, c)
  }

  /** The covariance of location `l`. */
  ghost function CovarianceOf(s: Snapshot, regularization: real, locations: nat, d: nat, l: nat): (m: seq<Vec>)
    requires d > 0 && s.samples > 0 && Sized(s, locations, d) && l < locations
    ensures IsSquare(m) && IsAccumulatedCovariance(m, s.sums, s.moments, s.samples, regularization, locations, d, l)
  {
    seq(d, r requires 0 <= r < d =>
      seq(d, c requires 0 <= c < d => EntryAt(s.sums, s.moments, s.samples, regularization, locations, d, l, r, c)))
  }

  lemma CovarianceUnique(m: seq<Vec>, s: Snapshot, regularization: real, locations: nat, d: nat, l: nat)
    requires d > 0 && s.samples > 0 && Sized(s, locations, d) && l < locations
    requires IsAccumulatedCovariance(m, s.sums, s.moments, s.samples, regularization, locations, d, l)
    ensures m == CovarianceOf(s, regularization, locations, d, l)
  {
    hide EntryAt;
    var c := CovarianceOf(s, regularization, locations, d, l);
    forall r | 0 <= r < d ensures m[r] == c[r] {
      assert forall k :: 0 <= k < d ==> m[r][k] == c[r][k];
    }
  }

  method CovarianceAt(sums: seq<real>, moments: seq<real>, n: nat, regularization: real, locations: nat, d: nat, l: nat)
    returns (means: Vec, covariance: seq<Vec>)
    requires d > 0 && n > 0 && |sums| == locations * d && |moments| == locations * d * d && l < locations
    ensures IsMean(means, sums, n, locations, d, l)
    ensures IsAccumulatedCovariance(covariance, sums, moments, n, regularization, locations, d, l)
  {
    hide MeanAt;
    hide EntryAt;
    means, covariance := [], [];
    for r := 0 to d
      invariant |means| == |covariance| == r
      invariant forall k :: 0 <= k < r ==> means[k] == MeanAt(sums, n, locations, d, l, k)
      invariant forall k {:trigger covariance[k]} :: 0 <= k < r ==>
                  |covariance[k]| == d && forall c {:trigger covariance[k][c]} :: 0 <= c < d ==>
                    covariance[k][c] == EntryAt(sums, moments, n, regularization, locations, d, l, k, c)
    {
      var mean := MeanAt(sums, n, locations, d, l, r);
      var row := CovarianceRow(sums, moments, n, regularization, locations, d, l, r, mean);
      means, covariance := means + [mean], covariance + [row];
    }
  }

  method CovarianceRow(sums: seq<real>, moments: seq<real>, n: nat, regularization: real,
                       locations: nat, d: nat, l: nat, r: nat, mean: real) returns (row: Vec)
    requires d > 0 && n > 0 && |sums| == locations * d && |moments| == locations * d * d && l < locations && r < d
    requires mean == MeanAt(sums, n, locations, d, l, r)
    ensures |row| == d
    ensures forall c :: 0 <= c < d ==> row[c] == EntryAt(sums, moments, n, regularization, locations, d, l, r, c)
  {
    hide Times;
    var inverse := 1.0 / n as real;
    row := [];
    for c := 0 to d
      invariant |row| == c
      invariant forall k :: 0 <= k < c ==> row[k] == EntryAt(sums, moments, n, regularization, locations, d, l, r, k)
    {
      FlatIndex(locations, d, l, r, c);
      var value := Times(moments[(l * d + r) * d + c], inverse) - Times(mean, Times(sums[l * d + c], inverse));
      if r == c {
        value := value + regularization;
      }
      row := row + [value];
    }
  }

  /** The samples of one channel at one location. */
  ghost function LocationColumn(images: seq<Vec>, locations: nat, d: nat, l: nat, r: nat): (xs: seq<real>)
    requires d > 0 && Uniform(images, locations * d) && l < locations && r < d
    ensures |xs| == |images|
  {
    CellIndex(locations, d, l, r);
    Column(images, locations * d, l * d + r)
  }

  ghost function LocationColumns(images: seq<Vec>, locations: nat, d: nat, l: nat): (cols: seq<seq<real>>)
    requires d > 0 && Uniform(images, locations * d) && l < locations
    ensures |cols| == d && Columns(cols, |images|)
    ensures forall r :: 0 <= r < d ==> cols[r] == LocationColumn(images, locations, d, l, r)
  {
    seq(d, r requires 0 <= r < d => LocationColumn(images, locations, d, l, r))
  }

  /** What was accumulated from nothing has, at every location, the covariance of the images' samples there. */
  lemma AccumulatedEntry(images: seq<Vec>, s: Snapshot, regularization: real, locations: nat, d: nat,
                         l: nat, r: nat, c: nat)
    requires d > 0 && |images| > 0 && l < locations && r < d && c < d
    requires Accumulated(Snapshot(0, Zeros(locations * d), Zeros(locations * d * d)), images, s, locations, d)
    ensures var x, y := LocationColumn(images, locations, d, l, r), LocationColumn(images, locations, d, l, c);
              EntryAt(s.sums, s.moments, s.samples, regularization, locations, d, l, r, c)
              == Entry(Dot(x, y), Sum(x), Sum(y), 1.0 / |images| as real, r == c, regularization)
  {
    hide Entry;
    hide Times;
    hide Sum;
    hide Dot;
    var size := locations * d;
    FlatIndex(locations, d, l, r, c);
    var i, j, m := l * d + r, l * d + c, (l * d + r) * d + c;
    SumAtIsSum(images, size, i);
    SumAtIsSum(images, size, j);
    MomentAtIsDot(images, size, i, j);
    assert s.sums[i] == SumAt(0.0, images, i) && s.sums[j] == SumAt(0.0, images, j);
    var base := Snapshot(0, Zeros(locations * d), Zeros(locations * d * d));
    assert MomentMatches(base, images, s.moments, m, locations, d) by {
      assert s.moments[m] == s.moments[m];
    }
  }

  /** So are the means: each is the mean of the images' samples there. */
  lemma AccumulatedMean(mean: Vec, images: seq<Vec>, s: Snapshot, locations: nat, d: nat, l: nat, r: nat)
    requires d > 0 && |images| > 0 && l < locations && r < d
    requires Accumulated(Snapshot(0, Zeros(locations * d), Zeros(locations * d * d)), images, s, locations, d)
    requires IsMean(mean, s.sums, s.samples, locations, d, l)
    ensures Times(mean[r], |images| as real) == Sum(LocationColumn(images, locations, d, l, r))
  {
    hide Sum;
    CellIndex(locations, d, l, r);
    SumAtIsSum(images, locations * d, l * d + r);
    assert s.sums[l * d + r] == SumAt(0.0, images, l * d + r);
    MeanTimesCount(s.sums[l * d + r], |images| as real);
  }

  lemma MeanTimesCount(sum: real, n: real)
    requires n > 0.0
    ensures Times(Times(sum, 1.0 / n), n) == sum
  {
    assert sum * (1.0 / n) * n == sum * (1.0 / n * n);
  }

  /**
   * The covariance written for any location of a fit that started from nothing is positive definite, so
   * its factorization cannot fail: for every vector v, v' C v >= regularization * |v|^2.
   */
  lemma ArtifactsPositiveDefinite(m: seq<Vec>, images: seq<Vec>, s: Snapshot, regularization: real,
                                  locations: nat, d: nat, l: nat, v: seq<real>)
    requires d > 0 && |images| > 0 && l < locations && |v| == d
    requires Accumulated(Snapshot(0, Zeros(locations * d), Zeros(locations * d * d)), images, s, locations, d)
    requires IsAccumulatedCovariance(m, s.sums, s.moments, s.samples, regularization, locations, d, l)
    ensures Columns(m, d) && Quadratic(m, v) >= Times(regularization, Dot(v, v))
    ensures regularization > 0.0 && (exists k :: 0 <= k < d && v[k] != 0.0) ==> Quadratic(m, v) > 0.0
  {
    var cols := LocationColumns(images, locations, d, l);
    assert IsCovariance(m, cols, |images|, regularization) by {
      hide Entry;
      forall i, j {:trigger m[i][j]} | 0 <= i < d && 0 <= j < d
        ensures m[i][j] == Entry(Dot(cols[i], cols[j]), Sum(cols[i]), Sum(cols[j]), 1.0 / |images| as real, i == j, regularization)
      {
        AccumulatedEntry(images, s, regularization, locations, d, l, i, j);
        assert m[i][j] == EntryAt(s.sums, s.moments, s.samples, regularization, locations, d, l, i, j);
      }
    }
    hide *;
    CovarianceShape(m, cols, |images|, regularization);
    PositiveDefinite(m, cols, |images|, regularization, v);
    if regularization > 0.0 {
      if k :| 0 <= k < d && v[k] != 0.0 {
        StrictlyPositive(m, cols, |images|, regularization, v, k);
      }
    }
  }

  lemma AccumulatedSymmetric(m: seq<Vec>, images: seq<Vec>, s: Snapshot, regularization: real,
                             locations: nat, d: nat, l: nat)
    requires d > 0 && |images| > 0 && l < locations
    requires Accumulated(Snapshot(0, Zeros(locations * d), Zeros(locations * d * d)), images, s, locations, d)
    requires IsAccumulatedCovariance(m, s.sums, s.moments, s.samples, regularization, locations, d, l)
    ensures IsSquare(m) && IsSymmetric(m)
  {
    forall r, c | 0 <= r < d && 0 <= c < d ensures m[r][c] == m[c][r] {
      AccumulatedEntry(images, s, regularization, locations, d, l, r, c);
      AccumulatedEntry(images, s, regularization, locations, d, l, c, r);
      var x, y := LocationColumn(images, locations, d, l, r), LocationColumn(images, locations, d, l, c);
      hide *;
      DotCommutes(x, y);
      EntrySymmetric(Dot(x, y), Sum(x), Sum(y), 1.0 / |images| as real, r == c, regularization);
    }
  }

  lemma EntrySymmetric(moment: real, a: real, b: real, inverse: real, diagonal: bool, regularization: real)
    ensures Entry(moment, a, b, inverse, diagonal, regularization) == Entry(moment, b, a, inverse, diagonal, regularization)
  {
    hide Times;
    Commute(Times(a, inverse), Times(b, inverse));
  }

  /** No covariance of data accumulated from nothing fails to factorize. */
  lemma AccumulatedFactorizes(m: seq<Vec>, images: seq<Vec>, s: Snapshot, regularization: real,
                              locations: nat, d: nat, l: nat)
    requires d > 0 && |images| > 0 && l < locations && regularization > 0.0
    requires Accumulated(Snapshot(0, Zeros(locations * d), Zeros(locations * d * d)), images, s, locations, d)
    requires IsAccumulatedCovariance(m, s.sums, s.moments, s.samples, regularization, locations, d, l)
    ensures IsSquare(m) && Definite(m) && Factorizes(m)
  {
    hide Quadratic;
    hide Accumulated;
    hide IsSymmetric;
    hide Factorizes;
    AccumulatedSymmetric(m, images, s, regularization, locations, d, l);
    assert |m| == d;
    forall v: seq<real> | |v| == d && NotZero(v) ensures Quadratic(m, v) > 0.0 {
      ArtifactsPositiveDefinite(m, images, s, regularization, locations, d, l, v);
    }
    PivotsDecide(m);
  }

  /** Nor do those of a fit that was saved, restored and continued. */
  lemma ResumedFactorizes(m: seq<Vec>, earlier: seq<Vec>, base: Snapshot, images: seq<Vec>, s: Snapshot,
                          regularization: real, locations: nat, d: nat, l: nat)
    requires d > 0 && |earlier + images| > 0 && l < locations && regularization > 0.0
    requires Accumulated(Snapshot(0, Zeros(locations * d), Zeros(locations * d * d)), earlier, base, locations, d)
    requires Accumulated(base, images, s, locations, d)
    requires IsAccumulatedCovariance(m, s.sums, s.moments, s.samples, regularization, locations, d, l)
    ensures IsSquare(m) && Definite(m) && Factorizes(m)
  {
    hide Definite;
    hide Factorizes;
    hide Accumulated;
    AccumulatedTwice(Snapshot(0, Zeros(locations * d), Zeros(locations * d * d)), earlier, base, images, s, locations, d);
    AccumulatedFactorizes(m, earlier + images, s, regularization, locations, d, l);
  }

  /** A state restored from arbitrary finite values need not have a covariance that factorizes. */
  lemma RestoredMayNotFactorize(config: PadimConfig)
    requires config == PadimConfig(1, 1, 1, Finite(0.01), [0], false, 0)
    ensures config.Valid()
    ensures exists file :: Acceptable(file, config)
              && !Factorizes(CovarianceOf(Restored(file, config), 0.01, 1, 1, 0))
              && !Definite(CovarianceOf(Restored(file, config), 0.01, 1, 1, 0))
  {
    GuardIsExact(1, 1);
    var file := PadimFile(1, 1, 1, 1, [0], [Finite(2.0)], [Finite(0.0)], false);
    assert Acceptable(file, config);
    var m := CovarianceOf(Restored(file, config), 0.01, 1, 1, 0);
    assert m[0][0] == -3.99;
    assert !Factorizes(m);
    PivotsDecide(m);
  }

}
