/** PaDiM training: per-location sums and second moments, on the host or in device chunks. */
module Padim {
  import opened Numbers
  import opened Sums
  import opened Vectors
  import opened Moments
  import opened Covariance
  import opened PadimSizing

  datatype PadimConfig = PadimConfig(
    embeddingDimension: int32,
    featureHeight: int32,
    featureWidth: int32,
    regularization: Float,
    channelIndices: seq<int32>,
    gpu: bool,
    gpuMemoryBudgetBytes: nat)
  {
    /** Positive dimensions, a positive regularization, and as many different channels as dimensions. */
    predicate Sane() {
      && embeddingDimension > 0 && featureHeight > 0 && featureWidth > 0
      && regularization.Finite? && regularization.value > 0.0
      && |channelIndices| == embeddingDimension
      && (forall i :: 0 <= i < |channelIndices| ==> channelIndices[i] >= 0)
      && (forall i, j :: 0 <= i < j < |channelIndices| ==> channelIndices[i] != channelIndices[j])
    }

    /** The error of a configuration that is not valid. */
    function Refusal(): Error {
      if Sane() && !GuardAccepts(Locations(), embeddingDimension) then OutOfMemory else InvalidArgument
    }

    predicate Valid() {
      && Sane() && GuardAccepts(Locations(), embeddingDimension)
      && (gpu ==> Locations() <= INT_MAX && gpuMemoryBudgetBytes > 0)
    }

    function Locations(): nat
      requires featureHeight > 0 && featureWidth > 0
    {
      featureHeight * featureWidth
    }

    function Dimension(): (d: nat)
      requires Valid()
      ensures d > 0
    {
      embeddingDimension
    }

    /** The number of sums. */
    function Size(): nat
      requires Valid()
    {
      ProductNonNegative(Locations(), Dimension());
      Locations() * Dimension()
    }
  }

  /** The configuration check, in the order of its tests. */
  method ValidateConfig(config: PadimConfig) returns (status: Status)
    ensures status == if config.Valid() then Success else Failure(config.Refusal())
  {
    if config.embeddingDimension <= 0 || config.featureHeight <= 0 || config.featureWidth <= 0 {
      return Failure(InvalidArgument);
    }
    if config.regularization.NonFinite? || config.regularization.value <= 0.0 {
      return Failure(InvalidArgument);
    }
    if |config.channelIndices| != config.embeddingDimension {
      return Failure(InvalidArgument);
    }
    var unique: set<int> := {};
    for i := 0 to |config.channelIndices|
      invariant forall j :: 0 <= j < i ==> config.channelIndices[j] >= 0
      invariant forall j, k :: 0 <= j < k < i ==> config.channelIndices[j] != config.channelIndices[k]
      invariant forall x :: x in unique <==> exists j :: 0 <= j < i && config.channelIndices[j] == x
    {
      var index := config.channelIndices[i];
      if index < 0 || index in unique {
        return Failure(InvalidArgument);
      }
      unique := unique + {index};
    }
    var dimension, locations := config.embeddingDimension, config.featureHeight * config.featureWidth;
    if locations > SIZE_MAX / dimension
       || Mul(locations, dimension) > SIZE_MAX / dimension / 8
       || Mul(Mul(locations, dimension), dimension) > Sub(SIZE_MAX / 8, Mul(locations, dimension))
    {
      return Failure(OutOfMemory);
    }
    if config.gpu && (locations > INT_MAX || config.gpuMemoryBudgetBytes == 0) {
      return Failure(InvalidArgument);
    }
    return Success;
  }

  /** A selected embedding: for each image its values by location and channel. */
  type Image = seq<Float>

  /** The row and column component of a second moment stored at flat index `m`. */
  function RowOf(m: nat, d: nat): nat
    requires d > 0
  {
    m / d
  }

  function ColumnOf(m: nat, d: nat): nat
    requires d > 0
  {
    m / d / d * d + m % d
  }

  lemma ColumnInRange(locations: nat, d: nat, m: nat)
    requires d > 0 && m < locations * d * d
    ensures RowOf(m, d) < locations * d && ColumnOf(m, d) < locations * d
  {
    var i := m / d;
    BelowQuotient(m, locations * d, d);
    BelowQuotient(i, locations, d);
    MultiplesApart(i / d, locations, d);
  }

  lemma BelowQuotient(m: nat, n: nat, d: nat)
    requires d > 0 && m < n * d
    ensures m / d < n
  {
    MultiplesApart(n - 1, m / d, d);
    Distributes(n - 1, 1, d);
  }

  lemma CellIndex(n: nat, d: nat, i: nat, c: nat)
    requires d > 0 && i < n && c < d
    ensures 0 <= i * d && i * d + c < n * d && (i * d + c) / d == i && (i * d + c) % d == c
  {
    ProductNonNegative(i, d);
    MultiplesApart(i, n, d);
    DivUnique(i * d + c, d, i, c);
  }

  /** The flat indices of one location, row and column. */
  lemma FlatIndex(locations: nat, d: nat, location: nat, row: nat, column: nat)
    requires d > 0 && location < locations && row < d && column < d
    ensures var i := location * d + row;
            && 0 <= location * d && i < locations * d && 0 <= i * d && i * d + column < locations * d * d
            && RowOf(i * d + column, d) == i && ColumnOf(i * d + column, d) == location * d + column
            && location * d + column < locations * d
  {
    CellIndex(locations, d, location, row);
    CellIndex(locations, d, location, column);
    CellIndex(locations * d, d, location * d + row, column);
  }

  function Zeros(n: nat): (r: seq<real>)
    ensures |r| == n
    ensures forall i :: 0 <= i < n ==> r[i] == 0.0
  {
    seq(n, i => 0.0)
  }

  // ---- what accumulation means ----

  /** The sum at index `q` after more images, starting from `x`. */
  function SumAt(x: real, images: seq<Vec>, q: nat): real
    requires forall k :: 0 <= k < |images| ==> q < |images[k]|
  {
    if |images| == 0 then x else SumAt(x, images[..|images| - 1], q) + images[|images| - 1][q]
  }

  /** The second moment of components `a` and `b` after more images, starting from `x`. */
  function MomentAt(x: real, images: seq<Vec>, a: nat, b: nat): real
    requires forall k :: 0 <= k < |images| ==> a < |images[k]| && b < |images[k]|
  {
    if |images| == 0 then x
    else
      var last := images[|images| - 1];
      MomentAt(x, images[..|images| - 1], a, b) + Times(last[a], last[b])
  }

  lemma {:induction false} SumAtIsSum(images: seq<Vec>, size: nat, q: nat)
    requires Uniform(images, size) && q < size
    ensures SumAt(0.0, images, q) == Sum(Column(images, size, q))
  {
    if |images| > 0 {
      var front := images[..|images| - 1];
      SumAtIsSum(front, size, q);
      assert Column(images, size, q)[..|images| - 1] == Column(front, size, q);
    }
  }

  lemma {:induction false} MomentAtIsDot(images: seq<Vec>, size: nat, a: nat, b: nat)
    requires Uniform(images, size) && a < size && b < size
    ensures MomentAt(0.0, images, a, b) == Dot(Column(images, size, a), Column(images, size, b))
  {
    hide Times;
    if |images| == 0 {
      EmptyDot(Column(images, size, a), Column(images, size, b));
    } else {
      var front := images[..|images| - 1];
      MomentAtIsDot(front, size, a, b);
      DotLast(Column(images, size, a), Column(images, size, b));
      assert Column(images, size, a)[..|images| - 1] == Column(front, size, a);
      assert Column(images, size, b)[..|images| - 1] == Column(front, size, b);
    }
  }

  lemma {:induction false} SumAtAppend(x: real, a: seq<Vec>, b: seq<Vec>, size: nat, q: nat)
    requires Uniform(a, size) && Uniform(b, size) && q < size
    ensures SumAt(x, a + b, q) == SumAt(SumAt(x, a, q), b, q)
  {
    if |b| == 0 {
      assert a + b == a;
    } else {
      SumAtAppend(x, a, b[..|b| - 1], size, q);
      assert (a + b)[..|a + b| - 1] == a + b[..|b| - 1];
    }
  }

  lemma {:induction false} MomentAtAppend(x: real, a: seq<Vec>, b: seq<Vec>, size: nat, p: nat, q: nat)
    requires Uniform(a, size) && Uniform(b, size) && p < size && q < size
    ensures MomentAt(x, a + b, p, q) == MomentAt(MomentAt(x, a, p, q), b, p, q)
  {
    hide Times;
    if |b| == 0 {
      assert a + b == a;
    } else {
      MomentAtAppend(x, a, b[..|b| - 1], size, p, q);
      assert (a + b)[..|a + b| - 1] == a + b[..|b| - 1];
    }
  }

  // ---- snapshots ----

  datatype Snapshot = Snapshot(samples: nat, sums: seq<real>, moments: seq<real>)

  ghost predicate Sized(s: Snapshot, locations: nat, d: nat)
  {
    |s.sums| == locations * d && |s.moments| == locations * d * d
  }

  /** `s` is what `base` becomes when exactly the images `images` are added to it. */
  ghost predicate Accumulated(base: Snapshot, images: seq<Vec>, s: Snapshot, locations: nat, d: nat)
    requires d > 0
  {
    && Sized(base, locations, d) && Sized(s, locations, d) && Uniform(images, locations * d)
    && s.samples == base.samples + |images|
    && SumsMatch(base, images, s.sums, 0, locations * d, locations, d)
    && MomentsMatch(base, images, s.moments, 0, locations * d * d, locations, d)
  }

  /** The sums in the index range [from, to) are those of `base` with the images added. */
  ghost predicate SumsMatch(base: Snapshot, images: seq<Vec>, sums: seq<real>, from: nat, to: nat, locations: nat, d: nat)
    requires d > 0 && Uniform(images, locations * d) && Sized(base, locations, d)
    requires |sums| == locations * d && to <= locations * d
  {
    forall q {:trigger sums[q]} :: from <= q < to ==> sums[q] == SumAt(base.sums[q], images, q)
  }

  ghost predicate MomentsMatch(base: Snapshot, images: seq<Vec>, moments: seq<real>, from: nat, to: nat,
                               locations: nat, d: nat)
    requires d > 0 && Uniform(images, locations * d) && Sized(base, locations, d)
    requires |moments| == locations * d * d && to <= locations * d * d
  {
    forall m {:trigger moments[m]} :: from <= m < to ==> MomentMatches(base, images, moments, m, locations, d)
  }

  ghost predicate MomentMatches(base: Snapshot, images: seq<Vec>, moments: seq<real>, m: nat, locations: nat, d: nat)
    requires d > 0 && Uniform(images, locations * d) && Sized(base, locations, d)
    requires m < |moments| == locations * d * d
  {
    MomentIs(base.moments[m], images, moments[m], m, locations, d)
  }

  /** The second moment at flat index `m` is `y` after the images were added to `x`. */
  ghost predicate MomentIs(x: real, images: seq<Vec>, y: real, m: nat, locations: nat, d: nat)
    requires d > 0 && Uniform(images, locations * d) && m < locations * d * d
  {
    ColumnInRange(locations, d, m);
    y == MomentAt(x, images, RowOf(m, d), ColumnOf(m, d))
  }

  /** Adding two groups of images one after the other is adding them all. */
  lemma AccumulatedTwice(base: Snapshot, a: seq<Vec>, s: Snapshot, b: seq<Vec>, t: Snapshot, locations: nat, d: nat)
    requires d > 0 && Accumulated(base, a, s, locations, d) && Accumulated(s, b, t, locations, d)
    ensures Accumulated(base, a + b, t, locations, d)
  {
    forall q | 0 <= q < locations * d ensures t.sums[q] == SumAt(base.sums[q], a + b, q) {
      assert s.sums[q] == SumAt(base.sums[q], a, q);
      SumAtAppend(base.sums[q], a, b, locations * d, q);
    }
    forall m | 0 <= m < locations * d * d ensures MomentMatches(base, a + b, t.moments, m, locations, d) {
      ColumnInRange(locations, d, m);
      assert MomentMatches(base, a, s.moments, m, locations, d) && MomentMatches(s, b, t.moments, m, locations, d) by {
        assert s.moments[m] == s.moments[m] && t.moments[m] == t.moments[m];
      }
      MomentAtAppend(base.moments[m], a, b, locations * d, RowOf(m, d), ColumnOf(m, d));
    }
  }

  /** The one state that comes of adding the images to `base`. */
  ghost function SnapshotAfter(base: Snapshot, images: seq<Vec>, locations: nat, d: nat): (s: Snapshot)
    requires d > 0 && Sized(base, locations, d) && Uniform(images, locations * d)
    ensures Accumulated(base, images, s, locations, d)
  {
    var sums := seq(locations * d, q requires 0 <= q < locations * d => SumAt(base.sums[q], images, q));
    var moments := seq(locations * d * d, m requires 0 <= m < locations * d * d => MomentAfter(base, images, m, locations, d));
    assert MomentsMatch(base, images, moments, 0, locations * d * d, locations, d) by {
      forall m | 0 <= m < |moments| ensures MomentMatches(base, images, moments, m, locations, d) {
        assert moments[m] == MomentAfter(base, images, m, locations, d);
      }
    }
    Snapshot(base.samples + |images|, sums, moments)
  }

  ghost function MomentAfter(base: Snapshot, images: seq<Vec>, m: nat, locations: nat, d: nat): (y: real)
    requires d > 0 && Sized(base, locations, d) && Uniform(images, locations * d) && m < locations * d * d
    ensures MomentIs(base.moments[m], images, y, m, locations, d)
  {
    ColumnInRange(locations, d, m);
    MomentAt(base.moments[m], images, RowOf(m, d), ColumnOf(m, d))
  }

  lemma AccumulatedUnique(base: Snapshot, images: seq<Vec>, s: Snapshot, t: Snapshot, locations: nat, d: nat)
    requires d > 0 && Accumulated(base, images, s, locations, d) && Accumulated(base, images, t, locations, d)
    ensures s == t
  {
    forall m | 0 <= m < locations * d * d ensures s.moments[m] == t.moments[m] {
      ColumnInRange(locations, d, m);
      assert MomentMatches(base, images, s.moments, m, locations, d);
      assert MomentMatches(base, images, t.moments, m, locations, d);
    }
    assert s.sums == t.sums;
  }

  lemma AccumulatedNothing(base: Snapshot, locations: nat, d: nat)
    requires d > 0 && Sized(base, locations, d)
    ensures Accumulated(base, [], base, locations, d)
  {
    forall m | 0 <= m < locations * d * d ensures MomentMatches(base, [], base.moments, m, locations, d) {
      ColumnInRange(locations, d, m);
    }
  }

  // ---- the host loop ----

  ghost function Taken(samples: nat, sums: array<real>, moments: array<real>): Snapshot
    reads sums, moments
  {
    Snapshot(samples, sums[..], moments[..])
  }

  /** One image has been added to the second moments below index `m`. */
  ghost predicate MomentsUpTo(before: seq<real>, moments: seq<real>, image: Vec, m: nat, locations: nat, d: nat)
    requires d > 0 && |before| == |moments| == locations * d * d && |image| == locations * d
  {
    forall k {:trigger moments[k]} :: 0 <= k < |moments| ==>
      moments[k] == before[k] + (if k < m then MomentTerm(image, k, locations, d) else 0.0)
  }

  /** What one image adds to the second moment at flat index `k`. */
  function MomentTerm(image: Vec, k: nat, locations: nat, d: nat): real
    requires d > 0 && k < locations * d * d && |image| == locations * d
  {
    ColumnInRange(locations, d, k);
    Times(image[RowOf(k, d)], image[ColumnOf(k, d)])
  }

  ghost predicate SumsUpTo(before: seq<real>, sums: seq<real>, image: Vec, i: nat)
    requires |before| == |sums| == |image|
  {
    forall k {:trigger sums[k]} :: 0 <= k < |sums| ==> sums[k] == before[k] + (if k < i then image[k] else 0.0)
  }

  /** Adds one row of the outer product of a patch with itself. */
  method AddMomentRow(moments: array<real>, image: Vec, locations: nat, d: nat, location: nat, row: nat, ghost before: seq<real>)
    requires d > 0 && location < locations && row < d && |image| == locations * d
    requires moments.Length == |before| == locations * d * d
    requires MomentsUpTo(before, moments[..], image, (location * d + row) * d, locations, d)
    modifies moments
    ensures MomentsUpTo(before, moments[..], image, (location * d + row) * d + d, locations, d)
  {
    FlatIndex(locations, d, location, row, 0);
    var i := location * d + row;
    for column := 0 to d
      invariant MomentsUpTo(before, moments[..], image, i * d + column, locations, d)
    {
      FlatIndex(locations, d, location, row, column);
      var m := i * d + column;
      moments[m] := moments[m] + Times(image[i], image[location * d + column]);
    }
  }

  method AddImage(sums: array<real>, moments: array<real>, image: Vec, locations: nat, d: nat)
    requires d > 0 && sums != moments && sums.Length == |image| == locations * d
    requires moments.Length == locations * d * d
    modifies sums, moments
    ensures SumsUpTo(old(sums[..]), sums[..], image, |image|)
    ensures MomentsUpTo(old(moments[..]), moments[..], image, moments.Length, locations, d)
  {
    ghost var sums0, moments0 := sums[..], moments[..];
    for location := 0 to locations
      invariant SumsUpTo(sums0, sums[..], image, location * d)
      invariant MomentsUpTo(moments0, moments[..], image, location * d * d, locations, d)
    {
      for row := 0 to d
        invariant SumsUpTo(sums0, sums[..], image, location * d + row)
        invariant MomentsUpTo(moments0, moments[..], image, (location * d + row) * d, locations, d)
      {
        FlatIndex(locations, d, location, row, 0);
        var i := location * d + row;
        sums[i] := sums[i] + image[i];
        AddMomentRow(moments, image, locations, d, location, row, moments0);
        Distributes(i, 1, d);
      }
      Distributes(location, 1, d);
    }
  }

  lemma OneImage(base: Snapshot, image: Vec, s: Snapshot, locations: nat, d: nat)
    requires d > 0 && Sized(base, locations, d) && Sized(s, locations, d) && |image| == locations * d
    requires s.samples == base.samples + 1
    requires SumsUpTo(base.sums, s.sums, image, |image|)
    requires MomentsUpTo(base.moments, s.moments, image, |s.moments|, locations, d)
    ensures Accumulated(base, [image], s, locations, d)
  {
    assert [image][..0] == [];
    forall q | 0 <= q < locations * d ensures s.sums[q] == SumAt(base.sums[q], [image], q) {
      assert SumAt(base.sums[q], [image], q) == SumAt(base.sums[q], [], q) + image[q];
    }
    forall m | 0 <= m < locations * d * d ensures MomentMatches(base, [image], s.moments, m, locations, d) {
      ColumnInRange(locations, d, m);
      assert s.moments[m] == base.moments[m] + MomentTerm(image, m, locations, d);
    }
  }

  /** The host path: images one after the other. */
  method AddOnHost(sums: array<real>, moments: array<real>, images: seq<Vec>, locations: nat, d: nat, ghost samples: nat)
    requires d > 0 && sums != moments && Uniform(images, locations * d)
    requires sums.Length == locations * d && moments.Length == locations * d * d
    modifies sums, moments
    ensures Accumulated(old(Taken(samples, sums, moments)), images, Taken(samples + |images|, sums, moments), locations, d)
  {
    hide SumAt;
    hide MomentAt;
    ghost var base := Taken(samples, sums, moments);
    AccumulatedNothing(base, locations, d);
    assert images[..0] == [];
    for k := 0 to |images|
      invariant Accumulated(base, images[..k], Taken(samples + k, sums, moments), locations, d)
    {
      ghost var before := Taken(samples + k, sums, moments);
      AddImage(sums, moments, images[k], locations, d);
      OneImage(before, images[k], Taken(samples + k + 1, sums, moments), locations, d);
      AccumulatedTwice(base, images[..k], before, [images[k]], Taken(samples + k + 1, sums, moments), locations, d);
      assert images[..k + 1] == images[..k] + [images[k]];
    }
    assert images[..|images|] == images;
  }

  // ---- the device path ----

  /** Everything outside the index range [from, to) is as before. */
  ghost predicate SameOutside(before: seq<real>, after: seq<real>, from: nat, to: nat)
  {
    |before| == |after| && forall q {:trigger after[q]} :: 0 <= q < |after| && !(from <= q < to) ==> after[q] == before[q]
  }

  method AccumulateSums(sums: array<real>, images: seq<Vec>, from: nat, to: nat)
    requires from <= to <= sums.Length && Uniform(images, sums.Length)
    modifies sums
    ensures SameOutside(old(sums[..]), sums[..], from, to)
    ensures forall q {:trigger sums[q]} :: from <= q < to ==> sums[q] == SumAt(old(sums[q]), images, q)
  {
    ghost var before := sums[..];
    for q := from to to
      invariant SameOutside(before, sums[..], from, q)
      invariant forall p {:trigger sums[p]} :: from <= p < q ==> sums[p] == SumAt(before[p], images, p)
    {
      var x := sums[q];
      for k := 0 to |images|
        invariant x == SumAt(before[q], images[..k], q)
      {
        x := x + images[k][q];
        assert images[..k + 1][..k] == images[..k];
      }
      assert images[..|images|] == images;
      sums[q] := x;
    }
  }

  method AccumulateMoments(moments: array<real>, images: seq<Vec>, locations: nat, d: nat, from: nat, to: nat)
    requires d > 0 && from <= to <= moments.Length == locations * d * d && Uniform(images, locations * d)
    modifies moments
    ensures SameOutside(old(moments[..]), moments[..], from, to)
    ensures forall m {:trigger moments[m]} :: from <= m < to ==> MomentIs(old(moments[m]), images, moments[m], m, locations, d)
  {
    ghost var before := moments[..];
    for m := from to to
      invariant SameOutside(before, moments[..], from, m)
      invariant forall p {:trigger moments[p]} :: from <= p < m ==> MomentIs(before[p], images, moments[p], p, locations, d)
    {
      ColumnInRange(locations, d, m);
      var a, b := RowOf(m, d), ColumnOf(m, d);
      var x := moments[m];
      for k := 0 to |images|
        invariant x == MomentAt(before[m], images[..k], a, b)
      {
        x := x + Times(images[k][a], images[k][b]);
        assert images[..k + 1][..k] == images[..k];
      }
      assert images[..|images|] == images;
      moments[m] := x;
    }
  }

  /**
   * One device call for the locations [begin, begin + count): it updates their statistics in place, or
   * fails and may leave anything in them.
   */
  method AccumulateChunk(sums: array<real>, moments: array<real>, images: seq<Vec>, locations: nat, d: nat,
                         begin: nat, count: nat, fails: bool) returns (ok: bool)
    requires d > 0 && sums != moments && Uniform(images, locations * d) && begin + count <= locations
    requires sums.Length == locations * d && moments.Length == locations * d * d
    modifies sums, moments
    ensures ok == !fails
    ensures begin * d <= (begin + count) * d <= sums.Length
    ensures begin * d * d <= (begin + count) * d * d <= moments.Length
    ensures SameOutside(old(sums[..]), sums[..], begin * d, (begin + count) * d)
    ensures SameOutside(old(moments[..]), moments[..], begin * d * d, (begin + count) * d * d)
    ensures ok ==> forall q {:trigger sums[q]} :: begin * d <= q < (begin + count) * d ==>
                     sums[q] == SumAt(old(sums[q]), images, q)
    ensures ok ==> forall m {:trigger moments[m]} :: begin * d * d <= m < (begin + count) * d * d ==>
                     MomentIs(old(moments[m]), images, moments[m], m, locations, d)
  {
    var end := begin + count;
    Smaller(begin, end, d);
    Smaller(end, locations, d);
    Smaller(begin * d, end * d, d);
    Smaller(end * d, locations * d, d);
    if fails {
      ghost var sums0, moments0 := sums[..], moments[..];
      for q := begin * d to end * d
        invariant SameOutside(sums0, sums[..], begin * d, q) && moments[..] == moments0
      {
        sums[q] := *;
      }
      for m := begin * d * d to end * d * d
        invariant SameOutside(moments0, moments[..], begin * d * d, m)
        invariant SameOutside(sums0, sums[..], begin * d, end * d)
      {
        moments[m] := *;
      }
      return false;
    }
    AccumulateSums(sums, images, begin * d, end * d);
    AccumulateMoments(moments, images, locations, d, begin * d * d, end * d * d);
    return true;
  }

  /** How many locations one device call handles: at least one, and no more than the budget or the grid allow. */
  function ChunkLocations(budget: nat, bytesPerLocation: nat, locations: nat): (chunk: nat)
    requires bytesPerLocation > 0 && locations > 0
    ensures 1 <= chunk <= locations
    ensures chunk > 1 ==> chunk * bytesPerLocation <= budget
    ensures chunk < locations ==> (chunk + 1) * bytesPerLocation > budget
  {
    var fitting := budget / bytesPerLocation;
    var chunk := if fitting < 1 then 1 else fitting;
    var r := if locations < chunk then locations else chunk;
    Smaller(r, chunk, bytesPerLocation);
    QuotientBound(budget, bytesPerLocation, r + 1);
    r
  }

  /**
   * The device path: location chunks one after the other, each with all the images. Where no chunk
   * fails the result is that of the host path, whatever the chunk size.
   */
  method AddOnDevice(sums: array<real>, moments: array<real>, images: seq<Vec>, locations: nat, d: nat,
                     chunk: nat, failsAt: Option<nat>, ghost samples: nat) returns (ok: bool)
    requires d > 0 && chunk > 0 && sums != moments && Uniform(images, locations * d)
    requires sums.Length == locations * d && moments.Length == locations * d * d
    modifies sums, moments
    ensures ok <==> failsAt.None? || failsAt.value >= locations
    ensures ok ==>
              Accumulated(old(Taken(samples, sums, moments)), images, Taken(samples + |images|, sums, moments), locations, d)
  {
    ghost var base := Taken(samples, sums, moments);
    var begin := 0;
    while begin < locations
      invariant 0 <= begin <= locations && begin * d <= locations * d && begin * d * d <= locations * d * d
      invariant failsAt.Some? ==> failsAt.value >= begin
      invariant SumsMatch(base, images, sums[..], 0, begin * d, locations, d)
      invariant MomentsMatch(base, images, moments[..], 0, begin * d * d, locations, d)
      invariant SameOutside(base.sums, sums[..], 0, begin * d)
      invariant SameOutside(base.moments, moments[..], 0, begin * d * d)
    {
      var count := if locations - begin < chunk then locations - begin else chunk;
      var fails := failsAt.Some? && failsAt.value < begin + count;
      ghost var before := moments[..];
      var end := begin + count;
      var done := AccumulateChunk(sums, moments, images, locations, d, begin, count, fails);
      if !done {
        return false;
      }
      ghost var after := moments[..];
      forall m | 0 <= m < end * d * d ensures MomentMatches(base, images, after, m, locations, d) {
        assert after[m] == moments[m];
        if m < begin * d * d {
          assert MomentMatches(base, images, before, m, locations, d);
        } else {
          assert before[m] == base.moments[m];
          assert MomentIs(before[m], images, moments[m], m, locations, d);
        }
      }
      begin := end;
    }
    return true;
  }
}
