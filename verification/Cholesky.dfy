/** When a symmetric matrix has a Cholesky factorization: by its pivots, and by its quadratic form. */
module Cholesky {
  import opened Sums
  import opened Vectors
  import opened Covariance

  predicate IsSquare(m: seq<Vec>) {
    forall i :: 0 <= i < |m| ==> |m[i]| == |m|
  }

  ghost predicate IsSymmetric(m: seq<Vec>)
    requires IsSquare(m)
  {
    forall i, j :: 0 <= i < |m| && 0 <= j < |m| ==> m[i][j] == m[j][i]
  }

  /** What elimination by the first pivot leaves at row `i`, column `j`. */
  function Left(m: seq<Vec>, i: nat, j: nat): real
    requires IsSquare(m) && 0 < i < |m| && 0 < j < |m| && m[0][0] != 0.0
  {
    m[i][j] - Times(Times(m[i][0], 1.0 / m[0][0]), m[j][0])
  }

  /** The matrix left after eliminating the first row and column. */
  function Eliminated(m: seq<Vec>): (s: seq<Vec>)
    requires IsSquare(m) && |m| > 0 && m[0][0] != 0.0
    ensures |s| == |m| - 1 && IsSquare(s)
    ensures forall i, j :: 0 <= i < |s| && 0 <= j < |s| ==> s[i][j] == Left(m, i + 1, j + 1)
  {
    var n := |m| - 1;
    seq(n, i requires 0 <= i < n => seq(n, j requires 0 <= j < n => Left(m, i + 1, j + 1)))
  }

  /** Whether the factorization succeeds: every pivot it meets is positive. */
  predicate Factorizes(m: seq<Vec>)
    requires IsSquare(m)
    decreases |m|
  {
    |m| == 0 || (m[0][0] > 0.0 && Factorizes(Eliminated(m)))
  }

  ghost predicate NotZero(v: seq<real>) {
    exists k :: 0 <= k < |v| && v[k] != 0.0
  }

  /** A positive form at every vector but zero. */
  ghost predicate Definite(m: seq<Vec>)
    requires IsSquare(m)
  {
    forall v: seq<real> :: |v| == |m| && NotZero(v) ==> Quadratic(m, v) > 0.0
  }

  // ---- the form of a matrix by its first row and column ----

  lemma DotOne(t: real, p: real)
    ensures Dot([t], [p]) == Times(t, p)
  {
    var terms := Products([t], [p]);
    assert terms[..0] == [];
    assert Sum(terms) == Sum([]) + terms[0];
  }

  lemma DotFirst(t: real, w: seq<real>, p: real, q: seq<real>)
    requires |w| == |q|
    ensures Dot([t] + w, [p] + q) == Times(t, p) + Dot(w, q)
  {
    DotOne(t, p);
    DotAppend([t], [p], w, q);
  }

  ghost function Column0(m: seq<Vec>): (b: Vec)
    requires IsSquare(m) && |m| > 0
    ensures |b| == |m| - 1
    ensures forall i :: 0 <= i < |b| ==> b[i] == m[i + 1][0]
  {
    seq(|m| - 1, i requires 0 <= i < |m| - 1 => m[i + 1][0])
  }

  ghost function Corner(m: seq<Vec>): (c: seq<Vec>)
    requires IsSquare(m) && |m| > 0
    ensures |c| == |m| - 1 && IsSquare(c)
    ensures forall i :: 0 <= i < |c| ==> c[i] == m[i + 1][1..]
  {
    seq(|m| - 1, i requires 0 <= i < |m| - 1 => m[i + 1][1..])
  }

  /** The form at `[t] + w` of a symmetric matrix with first pivot `a`, first column `b` and corner `c`. */
  lemma QuadraticSplits(m: seq<Vec>, t: real, w: Vec)
    requires IsSquare(m) && |m| > 0 && IsSymmetric(m) && |w| == |m| - 1
    ensures var a, b, c := m[0][0], Column0(m), Corner(m);
            Quadratic(m, [t] + w) == Times(t, Times(a, t)) + Times(t, Dot(b, w)) + Times(t, Dot(b, w)) + Quadratic(c, w)
  {
    hide Times;
    hide Dot;
    var a, b, c, v := m[0][0], Column0(m), Corner(m), [t] + w;
    var below := Added(Applied(c, w), Scaled(b, t));
    forall i | 0 <= i < |m| ensures Applied(m, v)[i] == ([Times(a, t) + Dot(b, w)] + below)[i] {
      assert m[i] == [m[i][0]] + m[i][1..];
      DotFirst(m[i][0], m[i][1..], t, w);
      if i == 0 {
        assert m[0][1..] == b;
      } else {
        Commute(b[i - 1], t);
      }
    }
    assert Applied(m, v) == [Times(a, t) + Dot(b, w)] + below;
    DotFirst(t, w, Times(a, t) + Dot(b, w), below);
    Distribute(t, Times(a, t), Dot(b, w));
    DotCommutes(w, below);
    ProductsSplit(Applied(c, w), b, w, t);
    DotCommutes(Applied(c, w), w);
  }

  /** The form of the eliminated matrix. */
  lemma QuadraticEliminated(m: seq<Vec>, w: Vec)
    requires IsSquare(m) && |m| > 0 && m[0][0] != 0.0 && |w| == |m| - 1
    ensures var beta := Dot(Column0(m), w);
            Quadratic(Eliminated(m), w) == Quadratic(Corner(m), w) + Times(-Times(beta, 1.0 / m[0][0]), beta)
  {
    hide Times;
    hide Dot;
    var b, c, s := Column0(m), Corner(m), Eliminated(m);
    var inverse, beta := 1.0 / m[0][0], Dot(Column0(m), w);
    var q := -Times(beta, inverse);
    forall i | 0 <= i < |s| ensures Applied(s, w)[i] == Added(Applied(c, w), Scaled(b, q))[i] {
      var p := -Times(b[i], inverse);
      forall j | 0 <= j < |s| ensures s[i][j] == Added(c[i], Scaled(b, p))[j] {
        Negate(Times(b[i], inverse), b[j]);
      }
      assert s[i] == Added(c[i], Scaled(b, p));
      ProductsSplit(c[i], b, w, p);
      MoveOver(b[i], inverse, beta);
    }
    assert Applied(s, w) == Added(Applied(c, w), Scaled(b, q));
    DotCommutes(w, Applied(s, w));
    ProductsSplit(Applied(c, w), b, w, q);
    DotCommutes(Applied(c, w), w);
  }

  lemma Negate(x: real, y: real)
    ensures Times(-x, y) == -Times(x, y)
  {
  }

  lemma MoveOver(x: real, inverse: real, y: real)
    ensures Times(-Times(x, inverse), y) == Times(-Times(y, inverse), x)
  {
    assert x * inverse * y == y * inverse * x;
  }

  /** Completing the square. */
  lemma Completed(a: real, t: real, beta: real)
    requires a != 0.0
    ensures var x := Times(beta, 1.0 / a);
            Times(t, Times(a, t)) + Times(t, beta) + Times(t, beta) == Times(a, Times(t + x, t + x)) + Times(-x, beta)
  {
    var x := beta * (1.0 / a);
    assert a * x == beta;
    SquareOfShift(a, t, x);
  }

  lemma SquareOfShift(a: real, t: real, x: real)
    ensures a * ((t + x) * (t + x)) == t * (a * t) + t * (a * x) + t * (a * x) + x * (a * x)
  {
    assert (t + x) * (t + x) == t * t + t * x + t * x + x * x;
  }

  /** The form is a square weighted by the first pivot plus the form of the eliminated matrix. */
  lemma QuadraticByPivot(m: seq<Vec>, t: real, w: Vec)
    requires IsSquare(m) && |m| > 0 && IsSymmetric(m) && m[0][0] != 0.0 && |w| == |m| - 1
    ensures var u := t + Times(Dot(Column0(m), w), 1.0 / m[0][0]);
            Quadratic(m, [t] + w) == Times(m[0][0], Times(u, u)) + Quadratic(Eliminated(m), w)
  {
    hide Times;
    hide Dot;
    hide Quadratic;
    QuadraticSplits(m, t, w);
    QuadraticEliminated(m, w);
    Completed(m[0][0], t, Dot(Column0(m), w));
  }

  lemma EliminatedSymmetric(m: seq<Vec>)
    requires IsSquare(m) && |m| > 0 && IsSymmetric(m) && m[0][0] != 0.0
    ensures IsSymmetric(Eliminated(m))
  {
    hide Times;
    var s := Eliminated(m);
    forall i, j | 0 <= i < |s| && 0 <= j < |s| ensures s[i][j] == s[j][i] {
      MoveOver(m[i + 1][0], 1.0 / m[0][0], m[j + 1][0]);
      Negate(Times(m[i + 1][0], 1.0 / m[0][0]), m[j + 1][0]);
      Negate(Times(m[j + 1][0], 1.0 / m[0][0]), m[i + 1][0]);
    }
  }

  // ---- the criterion ----

  lemma SquareWeighted(a: real, u: real)
    requires a > 0.0
    ensures Times(a, Times(u, u)) >= 0.0 && (u != 0.0 ==> Times(a, Times(u, u)) > 0.0)
           && (u == 0.0 ==> Times(a, Times(u, u)) == 0.0)
  {
    TimesOne(a);
    TimesOne(u);
    if u != 0.0 {
      hide Times;
      SameSign(u, u);
      SameSign(a, Times(u, u));
    }
  }

  lemma ZeroForm(m: seq<Vec>, w: Vec)
    requires IsSquare(m) && |w| == |m| && !NotZero(w)
    ensures Quadratic(m, w) == 0.0
  {
    assert w == Constant(|m|, 0.0);
    ZeroDot(|m|, Applied(m, w));
  }

  /** With a positive first pivot the matrix is definite exactly when the eliminated one is. */
  lemma DefiniteByPivot(m: seq<Vec>)
    requires IsSquare(m) && |m| > 0 && IsSymmetric(m) && m[0][0] > 0.0
    ensures Definite(m) <==> Definite(Eliminated(m))
  {
    hide Quadratic;
    hide Times;
    hide Dot;
    var a, s, inverse := m[0][0], Eliminated(m), 1.0 / m[0][0];
    if Definite(s) {
      forall v: seq<real> | |v| == |m| && NotZero(v) ensures Quadratic(m, v) > 0.0 {
        var t, w := v[0], v[1..];
        assert v == [t] + w;
        QuadraticByPivot(m, t, w);
        SquareWeighted(a, t + Times(Dot(Column0(m), w), inverse));
        if !NotZero(w) {
          ZeroForm(s, w);
          assert w == Constant(|w|, 0.0);
          ZeroDot(|w|, Column0(m));
          DotCommutes(w, Column0(m));
          Commute(0.0, inverse);
          TimesOne(inverse);
          assert t != 0.0;
        }
      }
    }
    if Definite(m) {
      forall w: seq<real> | |w| == |s| && NotZero(w) ensures Quadratic(s, w) > 0.0 {
        var t := -Times(Dot(Column0(m), w), inverse);
        var k :| 0 <= k < |w| && w[k] != 0.0;
        assert ([t] + w)[k + 1] != 0.0;
        QuadraticByPivot(m, t, w);
        SquareWeighted(a, 0.0);
      }
    }
  }

  /** The first diagonal entry of a definite matrix is positive. */
  lemma FirstPivot(m: seq<Vec>)
    requires IsSquare(m) && |m| > 0 && Definite(m)
    ensures m[0][0] > 0.0
  {
    hide Times;
    hide Dot;
    var e := Unit(|m|, 0);
    assert e[0] != 0.0;
    DotUnit(|m|, 0, Applied(m, e));
    DotUnit(|m|, 0, m[0]);
    DotCommutes(m[0], e);
  }

  /** A symmetric matrix factorizes if and only if its form is positive at every vector but zero. */
  lemma {:induction false} PivotsDecide(m: seq<Vec>)
    requires IsSquare(m) && IsSymmetric(m)
    ensures Factorizes(m) <==> Definite(m)
    decreases |m|
  {
    hide Definite;
    hide IsSymmetric;
    if |m| == 0 {
      NoVector(m);
    } else if m[0][0] > 0.0 {
      EliminatedSymmetric(m);
      DefiniteByPivot(m);
      PivotsDecide(Eliminated(m));
    } else if Definite(m) {
      FirstPivot(m);
    }
  }

  lemma NoVector(m: seq<Vec>)
    requires m == []
    ensures Definite(m)
  {
  }

  // ---- what a factorization reads ----

  /** The symmetric matrix with the lower triangle of `m`. */
  function Mirrored(m: seq<Vec>): (r: seq<Vec>)
    requires IsSquare(m)
    ensures |r| == |m| && IsSquare(r)
    ensures forall i, j :: 0 <= i < |m| && 0 <= j < |m| ==> r[i][j] == if j <= i then m[i][j] else m[j][i]
  {
    var n := |m|;
    seq(n, i requires 0 <= i < n => seq(n, j requires 0 <= j < n => if j <= i then m[i][j] else m[j][i]))
  }

  ghost predicate SameLower(a: seq<Vec>, b: seq<Vec>)
    requires IsSquare(a) && IsSquare(b)
  {
    |a| == |b| && forall i, j :: 0 <= j <= i < |a| ==> a[i][j] == b[i][j]
  }

  lemma {:induction false} LowerDecides(a: seq<Vec>, b: seq<Vec>)
    requires IsSquare(a) && IsSquare(b) && SameLower(a, b)
    ensures Factorizes(a) <==> Factorizes(b)
    decreases |a|
  {
    if |a| > 0 && a[0][0] > 0.0 {
      assert SameLower(Eliminated(a), Eliminated(b));
      LowerDecides(Eliminated(a), Eliminated(b));
    }
  }

  lemma MirroredIs(m: seq<Vec>)
    requires IsSquare(m)
    ensures SameLower(m, Mirrored(m)) && IsSymmetric(Mirrored(m))
    ensures IsSymmetric(m) ==> Mirrored(m) == m
  {
    if IsSymmetric(m) {
      forall i | 0 <= i < |m| ensures Mirrored(m)[i] == m[i] {
        assert forall j :: 0 <= j < |m| ==> Mirrored(m)[i][j] == m[i][j];
      }
    }
  }

  /** Any square matrix: only the lower triangle is read, and what decides is the form it mirrors into. */
  lemma FactorizesExactly(m: seq<Vec>)
    requires IsSquare(m)
    ensures Factorizes(m) <==> Definite(Mirrored(m))
  {
    hide Factorizes;
    hide Definite;
    hide SameLower;
    hide IsSymmetric;
    MirroredIs(m);
    LowerDecides(m, Mirrored(m));
    PivotsDecide(Mirrored(m));
  }
}
