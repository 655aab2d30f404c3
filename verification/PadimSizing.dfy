/** The 64-bit size computations of the PaDiM pipeline. */
module PadimSizing {
  import opened Numbers
  import opened Vectors

  const MODULUS: nat := SIZE_MAX + 1

  /** The machine's multiplication and subtraction, which wrap around. */
  function Mul(a: nat, b: nat): (r: nat)
    ensures r <= SIZE_MAX
  {
    a * b % MODULUS
  }

  function Sub(a: nat, b: nat): (r: nat)
    ensures r <= SIZE_MAX
  {
    (a - b) % MODULUS
  }

  function Add(a: nat, b: nat): (r: nat)
    ensures r <= SIZE_MAX
  {
    (a + b) % MODULUS
  }

  lemma Exact(a: nat, b: nat)
    requires a * b <= SIZE_MAX
    ensures Mul(a, b) == a * b
  {
  }

  lemma AddExact(a: nat, b: nat)
    requires a + b <= SIZE_MAX
    ensures Add(a, b) == a + b
  {
  }

  /** The overflow guard of the configuration check, evaluated in wrapping arithmetic. */
  predicate GuardAccepts(locations: nat, dimension: nat)
    requires dimension > 0
  {
    && !(locations > SIZE_MAX / dimension)
    && !(Mul(locations, dimension) > SIZE_MAX / dimension / 8)
    && !(Mul(Mul(locations, dimension), dimension) > Sub(SIZE_MAX / 8, Mul(locations, dimension)))
  }

  /** The bytes of both statistics together, without wrap-around. */
  function StatisticsBytes(locations: nat, dimension: nat): nat {
    (locations * dimension + locations * dimension * dimension) * 8
  }

  /**
   * The guard accepts exactly the sizes whose combined byte count fits 64 bits: no wrap-around inside the
   * guard changes its answer, and its subtraction never underflows when it is reached.
   */
  lemma GuardIsExact(locations: nat, dimension: nat)
    requires dimension > 0
    ensures GuardAccepts(locations, dimension) <==> StatisticsBytes(locations, dimension) <= SIZE_MAX
    ensures locations <= SIZE_MAX / dimension && Mul(locations, dimension) <= SIZE_MAX / dimension / 8 ==>
              Mul(locations, dimension) <= SIZE_MAX / 8
  {
    var s := locations * dimension;
    QuotientBound(SIZE_MAX, dimension, locations);
    if s <= SIZE_MAX {
      Exact(locations, dimension);
      EighthBound(SIZE_MAX, dimension, s);
      AtLeastItself(s, dimension);
      if s * dimension * 8 <= SIZE_MAX {
        Exact(s, dimension);
      }
    } else {
      ProductNonNegative(s, dimension);
    }
  }

  lemma AtLeastItself(s: nat, d: nat)
    requires d > 0
    ensures s <= s * d
  {
    MultiplesApart(0, d, s);
  }

  lemma EighthBound(limit: nat, d: nat, s: nat)
    requires d > 0
    ensures s > limit / d / 8 <==> s * d * 8 > limit
  {
    QuotientBound(limit, d, s * 8);
    assert s * 8 * d == s * d * 8;
    assert s > limit / d / 8 <==> s * 8 > limit / d;
  }

  lemma Smaller(a: nat, b: nat, d: nat)
    requires a <= b
    ensures a * d <= b * d
  {
    Distributes(a, b - a, d);
    ProductNonNegative(b - a, d);
  }

  /** With an accepted configuration every size and byte offset of a location chunk is computed exactly. */
  lemma ChunkSizesExact(locations: nat, dimension: nat, begin: nat, count: nat)
    requires dimension > 0 && GuardAccepts(locations, dimension) && begin + count <= locations
    ensures Mul(locations, dimension) == locations * dimension
    ensures Mul(Mul(locations, dimension), dimension) == locations * dimension * dimension
    ensures Mul(Add(Mul(locations, dimension), Mul(Mul(locations, dimension), dimension)), 8)
         == StatisticsBytes(locations, dimension)
    ensures Mul(Mul(begin, dimension), 8) == begin * dimension * 8
    ensures Mul(Mul(count, dimension), 8) == count * dimension * 8
    ensures Mul(Mul(Mul(begin, dimension), dimension), 8) == begin * dimension * dimension * 8
    ensures Mul(Mul(Mul(count, dimension), dimension), 8) == count * dimension * dimension * 8
    ensures begin * dimension * dimension * 8 + count * dimension * dimension * 8
         <= locations * dimension * dimension * 8 <= SIZE_MAX
  {
    hide Mul;
    hide Add;
    hide GuardAccepts;
    GuardIsExact(locations, dimension);
    OffsetsExact(locations, dimension, locations);
    ProductNonNegative(locations * dimension, dimension);
    AddExact(locations * dimension, locations * dimension * dimension);
    Exact(locations * dimension + locations * dimension * dimension, 8);
    OffsetsExact(locations, dimension, begin);
    OffsetsExact(locations, dimension, count);
    Distributes(begin, count, dimension);
    Distributes(begin * dimension, count * dimension, dimension);
    Smaller(begin + count, locations, dimension);
    Smaller((begin + count) * dimension, locations * dimension, dimension);
  }

  lemma OffsetsExact(locations: nat, dimension: nat, n: nat)
    requires dimension > 0 && StatisticsBytes(locations, dimension) <= SIZE_MAX && n <= locations
    ensures Mul(n, dimension) == n * dimension
    ensures Mul(Mul(n, dimension), 8) == n * dimension * 8
    ensures Mul(Mul(n, dimension), dimension) == n * dimension * dimension
    ensures Mul(Mul(Mul(n, dimension), dimension), 8) == n * dimension * dimension * 8
  {
    Smaller(n, locations, dimension);
    Smaller(n * dimension, locations * dimension, dimension);
    ProductNonNegative(locations * dimension, dimension);
    Exact(n, dimension);
    Exact(n * dimension, 8);
    Exact(n * dimension, dimension);
    Exact(n * dimension * dimension, 8);
  }

  /** The bytes of one location are computed exactly and are positive, so the chunk size is well defined. */
  lemma LocationBytesExact(locations: nat, dimension: nat)
    requires dimension > 0 && locations > 0 && GuardAccepts(locations, dimension)
    ensures Mul(Add(dimension, Mul(dimension, dimension)), 8) == (dimension + dimension * dimension) * 8 > 0
  {
    hide Mul;
    hide Add;
    hide GuardAccepts;
    GuardIsExact(locations, dimension);
    MultiplesApart(0, locations, dimension);
    Smaller(dimension, locations * dimension, dimension);
    ProductNonNegative(dimension, dimension);
    Exact(dimension, dimension);
    AddExact(dimension, dimension * dimension);
    Exact(dimension + dimension * dimension, 8);
  }
}
