/** Replaying the feature file into a bounded memory bank. */
module MemoryBank {
  import opened Numbers
  import opened Sums
  import opened Vectors
  import opened FarthestFirst
  import opened Coreset

  /** The frozen projection: `rank` basis rows in `d` dimensions with one scale each. */
  datatype Whitening = Whitening(mean: Vec, basis: seq<Vec>, scales: Vec)
  {
    predicate Valid(d: nat) {
      && |mean| == d && |basis| > 0 && |scales| == |basis|
      && forall j :: 0 <= j < |basis| ==> |basis[j]| == d
    }
  }

  function Difference(x: Vec, y: Vec): (r: Vec)
    requires |x| == |y|
    ensures |r| == |x|
  {
    seq(|x|, i requires 0 <= i < |x| => x[i] - y[i])
  }

  /** The whitened coordinates of one patch. */
  function Transformed(w: Whitening, d: nat, x: Vec): (z: Vec)
    requires w.Valid(d) && |x| == d
    ensures |z| == |w.basis|
  {
    seq(|w.basis|, j requires 0 <= j < |w.basis| => Times(Dot(Difference(x, w.mean), w.basis[j]), w.scales[j]))
  }

  function TransformedRows(w: Whitening, d: nat, rows: seq<Vec>): (r: seq<Vec>)
    requires w.Valid(d) && Uniform(rows, d)
    ensures |r| == |rows| && Uniform(r, |w.basis|)
    ensures forall i :: 0 <= i < |r| ==> r[i] == Transformed(w, d, rows[i])
  {
    seq(|rows|, i requires 0 <= i < |rows| => Transformed(w, d, rows[i]))
  }

  // ---- what whitening means ----

  lemma DotOfDifference(x: Vec, y: Vec, b: Vec)
    requires |x| == |y| == |b|
    ensures Dot(Difference(x, y), b) == Dot(x, b) - Dot(y, b)
  {
    hide Sum;
    forall i | 0 <= i < |b| ensures Products(x, b)[i] == Products(Difference(x, y), b)[i] + Products(y, b)[i] {
      DifferenceTerm(x[i], y[i], b[i]);
    }
    SumOfTwo(Products(x, b), Products(Difference(x, y), b), Products(y, b));
  }

  lemma DifferenceTerm(x: real, y: real, b: real)
    ensures Times(x, b) == Times(x - y, b) + Times(y, b)
  {
  }

  /**
   * `z` is the point `x` seen from the mean: each coordinate is the scaled difference of the inner products
   * of `x` and of the mean with a basis row.
   */
  ghost predicate Whitened(w: Whitening, d: nat, x: Vec, z: Vec)
    requires w.Valid(d) && |x| == d
  {
    |z| == |w.basis| && forall j :: 0 <= j < |z| ==>
      z[j] == Times(w.scales[j], Dot(x, w.basis[j]) - Dot(w.mean, w.basis[j]))
  }

  lemma TransformedWhitens(w: Whitening, d: nat, x: Vec)
    requires w.Valid(d) && |x| == d
    ensures Whitened(w, d, x, Transformed(w, d, x))
  {
    hide Times;
    hide Dot;
    forall j | 0 <= j < |w.basis|
      ensures Transformed(w, d, x)[j] == Times(w.scales[j], Dot(x, w.basis[j]) - Dot(w.mean, w.basis[j]))
    {
      DotOfDifference(x, w.mean, w.basis[j]);
      Commute(Dot(Difference(x, w.mean), w.basis[j]), w.scales[j]);
    }
  }

  /** The mean becomes the origin. */
  lemma MeanBecomesZero(w: Whitening, d: nat, z: Vec)
    requires w.Valid(d) && Whitened(w, d, w.mean, z)
    ensures forall j :: 0 <= j < |z| ==> z[j] == 0.0
  {
    hide Times;
    hide Dot;
    forall j | 0 <= j < |z| ensures z[j] == 0.0 {
      TimesOne(w.scales[j]);
    }
  }

  /** Coordinates differ by the scaled inner products of the points' difference. */
  lemma DifferencesScale(w: Whitening, d: nat, x: Vec, y: Vec, zx: Vec, zy: Vec, j: nat)
    requires w.Valid(d) && |x| == |y| == d && Whitened(w, d, x, zx) && Whitened(w, d, y, zy) && j < |w.basis|
    ensures zx[j] - zy[j] == Times(w.scales[j], Dot(Difference(x, y), w.basis[j]))
  {
    hide Dot;
    DotOfDifference(x, y, w.basis[j]);
    SplitScale(w.scales[j], Dot(x, w.basis[j]), Dot(y, w.basis[j]), Dot(w.mean, w.basis[j]));
  }

  lemma SplitScale(s: real, a: real, b: real, c: real)
    ensures Times(s, a - c) - Times(s, b - c) == Times(s, a - b)
  {
  }

  /** Whitened rows in row-major order. */
  ghost predicate WhitenedRows(w: Whitening, d: nat, rows: seq<Vec>, result: seq<real>)
    requires w.Valid(d) && Uniform(rows, d)
  {
    && |result| / |w.basis| == |rows|
    && forall i :: 0 <= i < |rows| ==> Whitened(w, d, rows[i], Rows(result, |w.basis|)[i])
  }

  lemma TransformedRowsWhiten(w: Whitening, d: nat, rows: seq<Vec>)
    requires w.Valid(d) && Uniform(rows, d)
    ensures WhitenedRows(w, d, rows, Flat(TransformedRows(w, d, rows)))
  {
    hide Transformed;
    hide Whitened;
    RowsOfFlat(TransformedRows(w, d, rows), |w.basis|);
    forall i | 0 <= i < |rows| ensures Whitened(w, d, rows[i], TransformedRows(w, d, rows)[i]) {
      TransformedWhitens(w, d, rows[i]);
    }
  }

  lemma EmptyFlat()
    ensures Flat([]) == []
  {
  }

  /** A run of whole rows cut out of row-major data. */
  lemma RowsSlice(data: seq<real>, d: nat, a: nat, b: nat)
    requires d > 0 && a <= b <= |data| / d
    ensures a * d <= b * d <= |data| && |data[a * d..b * d]| == (b - a) * d
    ensures Rows(data[a * d..b * d], d) == Rows(data, d)[a..b]
  {
    hide Flat;
    hide RowsTo;
    var n := |data| / d;
    var rows := Rows(data, d);
    FlatOfRows(data, d, n);
    assert rows == rows[..a] + rows[a..b] + rows[b..];
    FlatAppend(rows[..a] + rows[a..b], rows[b..]);
    FlatAppend(rows[..a], rows[a..b]);
    FlatLength(rows[..a], d);
    FlatLength(rows[a..b], d);
    Distributes(a, b - a, d);
    assert data[a * d..b * d] == Flat(rows[a..b]) by {
      assert Flat(rows[..a]) + Flat(rows[a..b]) <= data;
    }
    RowsOfFlat(rows[a..b], d);
  }

  /** Transforms row-major patches in tiles of at most 256 rows; it refuses none and incomplete ones. */
  method Transform(w: Whitening, d: nat, data: seq<real>) returns (r: Result<seq<real>>)
    requires d > 0 ==> w.Valid(d)
    ensures r == if d == 0 || data == [] || |data| % d != 0 then Err(TensorShapeMismatch)
                 else Ok(Flat(TransformedRows(w, d, Rows(data, d))))
    ensures r.Ok? ==> WhitenedRows(w, d, Rows(data, d), r.value)
  {
    hide Transformed;
    hide WhitenedRows;
    hide Flat;
    if d == 0 || |data| == 0 || |data| % d != 0 {
      return Err(TensorShapeMismatch);
    }
    var n := |data| / d;
    ghost var rows := Rows(data, d);
    var result := [];
    assert TransformedRows(w, d, rows[..0]) == [];
    EmptyFlat();
    var start := 0;
    while start < n
      invariant 0 <= start <= n
      invariant result == Flat(TransformedRows(w, d, rows[..start]))
    {
      var end := if n - start < 256 then n else start + 256;
      for i := start to end
        invariant result == Flat(TransformedRows(w, d, rows[..i]))
      {
        RowsAt(data, d, n, i);
        var z := Transformed(w, d, Row(data, d, i));
        assert TransformedRows(w, d, rows[..i + 1]) == TransformedRows(w, d, rows[..i]) + [z];
        FlatAppend(TransformedRows(w, d, rows[..i]), [z]);
        FlatOne(z);
        result := result + z;
      }
      start := end;
    }
    assert rows[..n] == rows;
    TransformedRowsWhiten(w, d, rows);
    r := Ok(result);
  }

  /** A bank that holds, for each entry of `origin`, the transformed training patch at that stream position. */
  ghost predicate Holds(bank: seq<real>, all: seq<Vec>, origin: seq<nat>)
  {
    && Distinct(origin) && (forall t :: 0 <= t < |origin| ==> origin[t] < |all|)
    && bank == Flat(Gather<Vec>(all, origin))
  }

  lemma HoldsRows(bank: seq<real>, all: seq<Vec>, origin: seq<nat>, rank: nat)
    requires rank > 0 && Uniform(all, rank) && Holds(bank, all, origin)
    ensures |bank| / rank == |origin| && Rows(bank, rank) == Gather<Vec>(all, origin)
  {
    RowsOfFlat(Gather<Vec>(all, origin), rank);
    FlatLength(Gather<Vec>(all, origin), rank);
    DivExact(|origin|, rank);
  }

  ghost function Range(a: nat, b: nat): (r: seq<nat>)
    requires a <= b
    ensures |r| == b - a
    ensures forall t :: 0 <= t < |r| ==> r[t] == a + t
  {
    seq(b - a, t requires 0 <= t < b - a => a + t)
  }

  /** Appending the next chunk of the stream. */
  lemma HoldsMore(bank: seq<real>, all: seq<Vec>, origin: seq<nat>, a: nat, b: nat)
    requires Holds(bank, all, origin) && a <= b <= |all|
    requires forall t :: 0 <= t < |origin| ==> origin[t] < a
    ensures Holds(bank + Flat(all[a..b]), all, origin + Range(a, b))
  {
    assert Gather<Vec>(all, origin + Range(a, b)) == Gather<Vec>(all, origin) + all[a..b];
    FlatAppend(Gather<Vec>(all, origin), all[a..b]);
  }

  lemma HoldsSelected(bank: seq<real>, all: seq<Vec>, origin: seq<nat>, rank: nat, chosen: seq<nat>)
    requires rank > 0 && Uniform(all, rank) && Holds(bank, all, origin)
    requires Distinct(chosen) && forall t :: 0 <= t < |chosen| ==> chosen[t] < |origin|
    ensures |bank| / rank == |origin| && Holds(Selected(bank, rank, chosen), all, Gather<nat>(origin, chosen))
  {
    HoldsRows(bank, all, origin, rank);
    assert Gather<Vec>(Rows(bank, rank), chosen) == Gather<Vec>(all, Gather<nat>(origin, chosen));
  }

  /** The bank after the first `start` patches of the stream. */
  ghost predicate Streamed(bank: seq<real>, all: seq<Vec>, origin: seq<nat>, start: nat, budget: nat)
  {
    && Holds(bank, all, origin)
    && (forall t :: 0 <= t < |origin| ==> origin[t] < start)
    && if start <= budget then origin == Range(0, start) else |origin| == budget
  }

  /** How many rows the bank holds after each chunk is appended and before it is reduced. */
  ghost function Sizes(start: nat, count: nat, budget: nat, chunk: nat): (sizes: seq<nat>)
    requires chunk > 0
    ensures forall k :: 0 <= k < |sizes| ==> sizes[k] <= budget + chunk
    decreases count - start
  {
    if start >= count then []
    else
      var n := if count - start < chunk then count - start else chunk;
      [(if start <= budget then start else budget) + n] + Sizes(start + n, count, budget, chunk)
  }

  lemma OneMoreSize(sizes: seq<nat>, size: nat, start: nat, n: nat, count: nat, budget: nat, chunk: nat, all: seq<nat>)
    requires chunk > 0 && start < count && sizes + Sizes(start, count, budget, chunk) == all
    requires n == (if count - start < chunk then count - start else chunk)
    requires size == (if start <= budget then start else budget) + n
    ensures sizes + [size] + Sizes(start + n, count, budget, chunk) == all
  {
  }

  lemma NoSizes(count: nat, budget: nat, chunk: nat)
    requires chunk > 0
    ensures Sizes(count, count, budget, chunk) == []
  {
  }

  /**
   * Streams the transformed patches through a bank of at most `budget` rows. The bank ends with
   * min(count, budget) patches from distinct stream positions, and never holds more than
   * budget + chunk rows; while the stream fits the budget it is kept whole and in order.
   */
  method StreamBank(w: Whitening, d: nat, data: seq<real>, budget: nat, chunk: nat)
    returns (bank: seq<real>, ghost origin: seq<nat>, ghost sizes: seq<nat>)
    requires d > 0 && w.Valid(d) && |data| % d == 0 && budget > 0 && chunk > 0
    ensures var all := TransformedRows(w, d, Rows(data, d));
              && Holds(bank, all, origin)
              && |origin| == |bank| / |w.basis| == (if |all| <= budget then |all| else budget)
              && (|all| <= budget ==> bank == Flat(all))
    ensures forall t :: 0 <= t < |origin| ==>
              origin[t] < |data| / d && Whitened(w, d, Rows(data, d)[origin[t]], Rows(bank, |w.basis|)[t])
    ensures sizes == Sizes(0, |data| / d, budget, chunk) && forall k :: 0 <= k < |sizes| ==> sizes[k] <= budget + chunk
  {
    hide Transformed;
    hide Whitened;
    hide Flat;
    hide Rows;
    hide TransformedRows;
    hide Sizes;
    var count := |data| / d;
    ghost var all := TransformedRows(w, d, Rows(data, d));
    var rank := |w.basis|;
    bank, origin, sizes := [], [], [];
    var start := 0;
    StreamedNothing(all, budget);
    while start < count
      invariant 0 <= start <= count
      invariant Streamed(bank, all, origin, start, budget)
      invariant sizes + Sizes(start, count, budget, chunk) == Sizes(0, count, budget, chunk)
    {
      hide Streamed;
      var n := if count - start < chunk then count - start else chunk;
      RowsSlice(data, d, start, start + n);
      WholeRows(n, d);
      var z := Transform(w, d, data[start * d..(start + n) * d]);
      assert TransformedRows(w, d, Rows(data, d)[start..start + n]) == all[start..start + n];
      ghost var size;
      bank, origin, size := Grow(bank, z.value, all, origin, rank, start, n, budget);
      OneMoreSize(sizes, size, start, n, count, budget, chunk, Sizes(0, count, budget, chunk));
      sizes := sizes + [size];
      start := start + n;
    }
    NoSizes(count, budget, chunk);
    HoldsRows(bank, all, origin, rank);
    if count <= budget {
      assert Gather<Vec>(all, origin) == all;
    }
    forall t | 0 <= t < |origin| ensures Whitened(w, d, Rows(data, d)[origin[t]], Rows(bank, rank)[t]) {
      TransformedWhitens(w, d, Rows(data, d)[origin[t]]);
    }
  }

  lemma StreamedNothing(all: seq<Vec>, budget: nat)
    ensures Streamed([], all, [], 0, budget)
  {
  }

  lemma WholeRows(n: nat, d: nat)
    requires n > 0 && d > 0
    ensures n * d > 0 && n * d % d == 0
  {
    DivExact(n, d);
    MultiplesApart(0, n, d);
  }

  method Grow(bank: seq<real>, z: seq<real>, ghost all: seq<Vec>, ghost origin: seq<nat>, rank: nat,
              ghost start: nat, ghost n: nat, budget: nat)
    returns (next: seq<real>, ghost kept: seq<nat>, ghost size: nat)
    requires rank > 0 && Uniform(all, rank) && start + n <= |all| && Streamed(bank, all, origin, start, budget)
    requires z == Flat(all[start..start + n])
    ensures next == Reduced(bank + z, rank, budget)
    ensures Streamed(next, all, kept, start + n, budget)
    ensures size == |bank + z| / rank == (if start <= budget then start else budget) + n
  {
    hide Holds;
    hide Flat;
    hide Gather;
    hide Reduced;
    HoldsMore(bank, all, origin, start, start + n);
    ghost var longer := origin + Range(start, start + n);
    HoldsRows(bank + z, all, longer, rank);
    size := |bank + z| / rank;
    if start <= budget {
      assert longer == Range(0, start + n);
    }
    next, kept := Shrink(bank + z, all, longer, rank, budget);
    forall t | 0 <= t < |kept| ensures kept[t] < start + n {
      assert kept[t] in longer;
    }
  }

  method Shrink(bank: seq<real>, ghost all: seq<Vec>, ghost origin: seq<nat>, rank: nat, budget: nat)
    returns (smaller: seq<real>, ghost kept: seq<nat>)
    requires rank > 0 && Uniform(all, rank) && Holds(bank, all, origin)
    ensures smaller == Reduced(bank, rank, budget)
    ensures Holds(smaller, all, kept)
    ensures |origin| <= budget ==> smaller == bank && kept == origin
    ensures |origin| > budget ==> |kept| == budget
    ensures forall t :: 0 <= t < |kept| ==> kept[t] in origin
  {
    HoldsRows(bank, all, origin, rank);
    smaller := ReduceBank(bank, rank, budget);
    kept := origin;
    if |origin| > budget {
      ghost var chosen := Traversal(SpaceOfData(bank, rank), 0, budget);
      TraversalDistinct(SpaceOfData(bank, rank), 0, budget);
      HoldsSelected(bank, all, origin, rank, chosen);
      kept := Gather<nat>(origin, chosen);
    }
  }
}
