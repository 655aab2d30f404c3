/** Feature vectors, their squared Euclidean distance and row-major storage. */
module Vectors {
  import opened Sums

  type Vec = seq<real>

  function Square(x: real): (r: real)
    ensures r >= 0.0
  {
    x * x
  }

  /** The squared distance over the first `n` components, accumulated left to right. */
  function SqDistTo(a: Vec, b: Vec, n: nat): (r: real)
    requires n <= |a| && n <= |b|
    ensures r >= 0.0
  {
    if n == 0 then 0.0 else SqDistTo(a, b, n - 1) + Square(a[n - 1] - b[n - 1])
  }

  lemma {:induction false} SqDistSelf(a: Vec, n: nat)
    requires n <= |a|
    ensures SqDistTo(a, a, n) == 0.0
  {
    if n > 0 {
      SqDistSelf(a, n - 1);
    }
  }

  lemma {:induction false} SqDistSymmetric(a: Vec, b: Vec, n: nat)
    requires n <= |a| && n <= |b|
    ensures SqDistTo(a, b, n) == SqDistTo(b, a, n)
  {
    if n > 0 {
      SqDistSymmetric(a, b, n - 1);
    }
  }

  lemma SquareOfDifference(a: real, b: real)
    ensures Square(a - b) == Times(a, a) - 2.0 * Times(a, b) + Times(b, b)
  {
  }

  /** The squared distance by inner products. */
  lemma {:induction false} SqDistIs(a: Vec, b: Vec, n: nat)
    requires n <= |a| && n <= |b|
    ensures SqDistTo(a, b, n) == Dot(a[..n], a[..n]) - 2.0 * Dot(a[..n], b[..n]) + Dot(b[..n], b[..n])
  {
    if n == 0 {
      EmptyDot(a[..0], a[..0]);
      EmptyDot(a[..0], b[..0]);
      EmptyDot(b[..0], b[..0]);
    } else {
      SqDistIs(a, b, n - 1);
      var x, y := a[..n], b[..n];
      assert x[..n - 1] == a[..n - 1] && y[..n - 1] == b[..n - 1];
      DotLast(x, x);
      DotLast(x, y);
      DotLast(y, y);
      SquareOfDifference(a[n - 1], b[n - 1]);
      hide Dot;
      hide Square;
      hide Times;
    }
  }

  lemma SquareOfSum(u: real, v: real)
    ensures Square(u + v) <= 2.0 * Square(u) + 2.0 * Square(v)
  {
    assert 2.0 * Square(u) + 2.0 * Square(v) - Square(u + v) == Square(u - v);
  }

  /** Squared distance is not a metric, but it obeys the triangle inequality up to a factor of two. */
  lemma {:induction false} RelaxedTriangle(a: Vec, b: Vec, c: Vec, n: nat)
    requires n <= |a| && n <= |b| && n <= |c|
    ensures SqDistTo(a, c, n) <= 2.0 * SqDistTo(a, b, n) + 2.0 * SqDistTo(b, c, n)
  {
    if n > 0 {
      RelaxedTriangle(a, b, c, n - 1);
      var u, v := a[n - 1] - b[n - 1], b[n - 1] - c[n - 1];
      assert a[n - 1] - c[n - 1] == u + v;
      SquareOfSum(u, v);
    }
  }

  // ---- row-major storage ----

  lemma RowFits(size: nat, d: nat, i: nat)
    requires d > 0 && i < size / d
    ensures 0 <= i * d && i * d + d == (i + 1) * d <= size
  {
    assert (i + 1) * d <= (size / d) * d <= size;
  }

  function Row(data: seq<real>, d: nat, i: nat): (row: Vec)
    requires d > 0 && i < |data| / d
    ensures |row| == d
  {
    RowFits(|data|, d, i);
    data[i * d..i * d + d]
  }

  lemma RowEntry(data: seq<real>, d: nat, i: nat, c: nat)
    requires d > 0 && i < |data| / d && c < d
    ensures 0 <= i * d + c < |data| && Row(data, d, i)[c] == data[i * d + c]
  {
    RowFits(|data|, d, i);
  }

  /** The first `k` rows stored in `data`. */
  function RowsTo(data: seq<real>, d: nat, k: nat): (rows: seq<Vec>)
    requires d > 0 && k <= |data| / d
    ensures |rows| == k && Uniform(rows, d)
  {
    if k == 0 then [] else RowsTo(data, d, k - 1) + [Row(data, d, k - 1)]
  }

  /** The whole rows stored in `data`; an incomplete last row does not count. */
  function Rows(data: seq<real>, d: nat): (rows: seq<Vec>)
    requires d > 0
    ensures |rows| == |data| / d && Uniform(rows, d)
  {
    RowsTo(data, d, |data| / d)
  }

  lemma {:induction false} RowsAt(data: seq<real>, d: nat, k: nat, i: nat)
    requires d > 0 && i < k <= |data| / d
    ensures RowsTo(data, d, k)[i] == Row(data, d, i)
  {
    if i < k - 1 {
      RowsAt(data, d, k - 1, i);
    }
  }

  ghost predicate Uniform(rows: seq<Vec>, d: nat)
  {
    forall i :: 0 <= i < |rows| ==> |rows[i]| == d
  }

  function Flat(rows: seq<Vec>): seq<real>
  {
    if |rows| == 0 then [] else Flat(rows[..|rows| - 1]) + rows[|rows| - 1]
  }

  lemma {:induction false} FlatLength(rows: seq<Vec>, d: nat)
    requires Uniform(rows, d)
    ensures |Flat(rows)| == |rows| * d
  {
    if |rows| > 0 {
      FlatLength(rows[..|rows| - 1], d);
      assert |rows| * d == (|rows| - 1) * d + d;
    }
  }

  lemma {:induction false} FlatAppend(a: seq<Vec>, b: seq<Vec>)
    ensures Flat(a + b) == Flat(a) + Flat(b)
  {
    if |b| == 0 {
      assert a + b == a;
    } else {
      FlatAppend(a, b[..|b| - 1]);
      assert (a + b)[..|a + b| - 1] == a + b[..|b| - 1];
    }
  }

  lemma {:induction false} FlatOne(v: Vec)
    ensures Flat([v]) == v
  {
    assert [v][..0] == [];
    assert Flat([v]) == Flat([]) + v;
  }

  /** Row-major storage loses nothing: cutting the flattened rows gives them back. */
  lemma {:induction false} RowsOfFlat(rows: seq<Vec>, d: nat)
    requires d > 0 && Uniform(rows, d)
    ensures Rows(Flat(rows), d) == rows
  {
    FlatLength(rows, d);
    DivExact(|rows|, d);
    forall i | 0 <= i < |rows| ensures Rows(Flat(rows), d)[i] == rows[i] {
      RowsAt(Flat(rows), d, |rows|, i);
      RowOfFlat(rows, d, i);
    }
  }

  lemma DivExact(n: nat, d: nat)
    requires d > 0
    ensures n * d / d == n && n * d % d == 0
  {
    DivUnique(n * d, d, n, 0);
  }

  lemma Distributes(a: int, b: int, d: int)
    ensures (a + b) * d == a * d + b * d
  {
  }

  lemma ProductNonNegative(a: nat, b: nat)
    ensures a * b >= 0
  {
  }

  lemma MultiplesApart(a: int, b: int, d: nat)
    ensures a < b ==> a * d + d <= b * d
  {
    if a < b {
      Distributes(a, b - a, d);
      Distributes(1, b - a - 1, d);
      ProductNonNegative(b - a - 1, d);
    }
  }

  /** The guard `count > limit / d` is the exact test `count * d > limit`. */
  lemma QuotientBound(limit: nat, d: nat, count: nat)
    requires d > 0
    ensures count > limit / d <==> count * d > limit
  {
    MultiplesApart(limit / d, count, d);
    MultiplesApart(count, limit / d, d);
  }

  lemma QuotientUnique(d: nat, q: nat, r: nat, k: nat, s: nat)
    requires d > 0 && r < d && s < d && q * d + r == k * d + s
    ensures q == k && r == s
  {
    MultiplesApart(q, k, d);
    MultiplesApart(k, q, d);
  }

  /** Quotient and remainder are determined by their defining equation. */
  lemma DivUnique(m: nat, d: nat, q: nat, r: nat)
    requires d > 0 && m == q * d + r && r < d
    ensures m / d == q && m % d == r
  {
    QuotientUnique(d, q, r, m / d, m % d);
  }

  lemma {:induction false} RowOfFlat(rows: seq<Vec>, d: nat, i: nat)
    requires d > 0 && Uniform(rows, d) && i < |rows|
    ensures |Flat(rows)| / d == |rows| && Row(Flat(rows), d, i) == rows[i]
  {
    FlatLength(rows, d);
    DivExact(|rows|, d);
    var front, rest := rows[..i], rows[i + 1..];
    assert rows == front + [rows[i]] + rest;
    FlatAppend(front + [rows[i]], rest);
    FlatAppend(front, [rows[i]]);
    FlatOne(rows[i]);
    FlatLength(front, d);
  }

  lemma {:induction false} FlatOfRows(data: seq<real>, d: nat, k: nat)
    requires d > 0 && k <= |data| / d
    ensures k * d <= |data| && Flat(RowsTo(data, d, k)) == data[..k * d]
  {
    if k > 0 {
      FlatOfRows(data, d, k - 1);
      RowFits(|data|, d, k - 1);
      assert RowsTo(data, d, k)[..k - 1] == RowsTo(data, d, k - 1);
      assert data[..k * d] == data[..(k - 1) * d] + Row(data, d, k - 1);
    }
  }
}
