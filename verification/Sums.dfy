/** Sums and inner products of real sequences. */
module Sums {

  /** Multiplication as a function of its own, so that equal factors give equal products by congruence. */
  function Times(x: real, y: real): real {
    x * y
  }

  function Sum(xs: seq<real>): real {
    if |xs| == 0 then 0.0 else Sum(xs[..|xs| - 1]) + xs[|xs| - 1]
  }

  function Products(xs: seq<real>, ys: seq<real>): (r: seq<real>)
    requires |xs| == |ys|
    ensures |r| == |xs|
    ensures forall i :: 0 <= i < |r| ==> r[i] == Times(xs[i], ys[i])
  {
    seq(|xs|, i requires 0 <= i < |xs| => Times(xs[i], ys[i]))
  }

  function Dot(xs: seq<real>, ys: seq<real>): real
    requires |xs| == |ys|
  {
    Sum(Products(xs, ys))
  }

  function Scaled(xs: seq<real>, p: real): (r: seq<real>)
    ensures |r| == |xs|
    ensures forall i :: 0 <= i < |r| ==> r[i] == Times(p, xs[i])
  {
    seq(|xs|, i requires 0 <= i < |xs| => Times(p, xs[i]))
  }

  function Constant(n: nat, c: real): (r: seq<real>)
    ensures |r| == n
    ensures forall i :: 0 <= i < n ==> r[i] == c
  {
    seq(n, i => c)
  }

  /** The deviations of `xs` from `c`. */
  function Centred(xs: seq<real>, c: real): (r: seq<real>)
    ensures |r| == |xs|
    ensures forall i :: 0 <= i < |r| ==> r[i] == xs[i] - c
  {
    seq(|xs|, i requires 0 <= i < |xs| => xs[i] - c)
  }

  lemma Distribute(p: real, a: real, b: real)
    ensures Times(p, a + b) == Times(p, a) + Times(p, b)
  {
  }

  lemma Commute(p: real, q: real)
    ensures Times(p, q) == Times(q, p)
  {
  }

  lemma TimesOne(p: real)
    ensures Times(p, 1.0) == p && Times(p, 0.0) == 0.0
  {
  }

  lemma DivideBack(x: real, n: real)
    requires n > 0.0
    ensures Times(n, x / n) == x
  {
  }

  lemma CancelFactor(t: real, x: real, y: real)
    requires t > 0.0 && Times(t, x) == Times(t, y)
    ensures x == y
  {
    assert t * (x - y) == 0.0;
  }

  lemma {:induction false} SumAppend(a: seq<real>, b: seq<real>)
    ensures Sum(a + b) == Sum(a) + Sum(b)
  {
    if |b| == 0 {
      assert a + b == a;
    } else {
      SumAppend(a, b[..|b| - 1]);
      assert (a + b)[..|a + b| - 1] == a + b[..|b| - 1];
    }
  }

  lemma {:induction false} SumScaled(xs: seq<real>, p: real)
    ensures Sum(Scaled(xs, p)) == Times(p, Sum(xs))
  {
    if |xs| == 0 {
      TimesOne(p);
    } else {
      hide Times;
      var last := |xs| - 1;
      SumScaled(xs[..last], p);
      assert Scaled(xs, p)[..last] == Scaled(xs[..last], p);
      Distribute(p, Sum(xs[..last]), xs[last]);
    }
  }

  lemma {:induction false} SumConstant(n: nat, c: real)
    ensures Sum(Constant(n, c)) == Times(c, n as real)
  {
    TimesOne(c);
    if n > 0 {
      hide Times;
      SumConstant(n - 1, c);
      assert Constant(n, c)[..n - 1] == Constant(n - 1, c);
      Distribute(c, (n - 1) as real, 1.0);
    }
  }

  /** Sums of sequences that agree pointwise with a sum of two others. */
  lemma {:induction false} SumOfTwo(r: seq<real>, a: seq<real>, b: seq<real>)
    requires |r| == |a| == |b|
    requires forall i :: 0 <= i < |r| ==> r[i] == a[i] + b[i]
    ensures Sum(r) == Sum(a) + Sum(b)
  {
    if |r| > 0 {
      var last := |r| - 1;
      SumOfTwo(r[..last], a[..last], b[..last]);
    }
  }

  lemma SumCentred(xs: seq<real>, c: real)
    ensures Sum(Centred(xs, c)) == Sum(xs) - Times(c, |xs| as real)
  {
    hide Times;
    SumOfTwo(xs, Centred(xs, c), Constant(|xs|, c));
    SumConstant(|xs|, c);
  }

  lemma DotAppend(xa: seq<real>, ya: seq<real>, xb: seq<real>, yb: seq<real>)
    requires |xa| == |ya| && |xb| == |yb|
    ensures Dot(xa + xb, ya + yb) == Dot(xa, ya) + Dot(xb, yb)
  {
    hide Times;
    assert Products(xa + xb, ya + yb) == Products(xa, ya) + Products(xb, yb);
    SumAppend(Products(xa, ya), Products(xb, yb));
  }

  lemma EmptyDot(a: seq<real>, b: seq<real>)
    requires |a| == |b| == 0
    ensures Dot(a, b) == 0.0
  {
  }

  lemma DotLast(a: seq<real>, b: seq<real>)
    requires |a| == |b| > 0
    ensures var last := |a| - 1;
            Dot(a, b) == Dot(a[..last], b[..last]) + Times(a[last], b[last])
  {
    var last := |a| - 1;
    assert Products(a, b)[..last] == Products(a[..last], b[..last]);
  }

  lemma ShiftedProduct(u: real, v: real, p: real, q: real)
    ensures Times(u, v) == Times(u - p, v - q) + (Times(p, v) + (Times(q, u) - Times(p, q)))
  {
  }

  /** What moving the centres of an inner product by (p, q) adds to each of its terms. */
  function ShiftTerms(us: seq<real>, vs: seq<real>, p: real, q: real): (r: seq<real>)
    requires |us| == |vs|
    ensures |r| == |us|
    ensures forall i :: 0 <= i < |r| ==> r[i] == Scaled(vs, p)[i] + Centred(Scaled(us, q), Times(p, q))[i]
  {
    seq(|us|, i requires 0 <= i < |us| => Scaled(vs, p)[i] + Centred(Scaled(us, q), Times(p, q))[i])
  }

  lemma ShiftEntry(us: seq<real>, vs: seq<real>, p: real, q: real, i: nat)
    requires |us| == |vs| && i < |us|
    ensures Products(us, vs)[i] == Products(Centred(us, p), Centred(vs, q))[i] + ShiftTerms(us, vs, p, q)[i]
  {
    hide Times;
    ShiftedProduct(us[i], vs[i], p, q);
    assert Scaled(vs, p)[i] == Times(p, vs[i]) && Scaled(us, q)[i] == Times(q, us[i]);
  }

  lemma SumShiftTerms(us: seq<real>, vs: seq<real>, p: real, q: real)
    requires |us| == |vs|
    ensures Sum(ShiftTerms(us, vs, p, q))
         == Times(p, Sum(vs)) + (Times(q, Sum(us)) - Times(Times(p, q), |us| as real))
  {
    hide Times;
    hide Sum;
    SumOfTwo(ShiftTerms(us, vs, p, q), Scaled(vs, p), Centred(Scaled(us, q), Times(p, q)));
    SumCentred(Scaled(us, q), Times(p, q));
    SumScaled(vs, p);
    SumScaled(us, q);
  }

  /** Moving both centres of an inner product by (p, q). */
  lemma DotShift(us: seq<real>, vs: seq<real>, p: real, q: real)
    requires |us| == |vs|
    ensures Dot(us, vs) == Dot(Centred(us, p), Centred(vs, q))
                           + (Times(p, Sum(vs)) + (Times(q, Sum(us)) - Times(Times(p, q), |us| as real)))
  {
    hide Times;
    hide Sum;
    forall i | 0 <= i < |us|
      ensures Products(us, vs)[i] == Products(Centred(us, p), Centred(vs, q))[i] + ShiftTerms(us, vs, p, q)[i]
    {
      ShiftEntry(us, vs, p, q, i);
    }
    SumOfTwo(Products(us, vs), Products(Centred(us, p), Centred(vs, q)), ShiftTerms(us, vs, p, q));
    SumShiftTerms(us, vs, p, q);
  }
}
