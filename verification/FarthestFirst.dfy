/** Farthest-first traversal of finitely many points and the k-centre bound it satisfies. */
module FarthestFirst {
  import opened Numbers
  import opened Vectors

  /** The rows of a matrix with `d` columns, as points under squared Euclidean distance. */
  datatype Space = Space(n: nat, rows: seq<Vec>, d: nat)
  {
    function Dist(i: nat, j: nat): (r: real)
      ensures r >= 0.0
    {
      if i < |rows| && j < |rows| && d <= |rows[i]| && d <= |rows[j]| then SqDistTo(rows[i], rows[j], d) else 0.0
    }
  }

  ghost function SpaceOf(rows: seq<Vec>, d: nat): (s: Space)
  {
    Space(|rows|, rows, d)
  }

  /** Point `i` is among the first `k` points of the traversal that starts at `first`. */
  ghost predicate Taken(s: Space, first: nat, k: nat, i: nat)
    requires first < s.n && k <= s.n
    decreases k, 0
  {
    k > 0 && (i == Pick(s, first, k - 1) || Taken(s, first, k - 1, i))
  }

  /** The smallest distance from point `i` to the first `k` points of the traversal. */
  ghost function Nearest(s: Space, first: nat, k: nat, i: nat): (r: real)
    requires first < s.n && 1 <= k <= s.n
    decreases k, 0
  {
    var distance := s.Dist(i, Pick(s, first, k - 1));
    if k == 1 then distance else Min(Nearest(s, first, k - 1, i), distance)
  }

  /** Among the untaken points below `m`, `c` is farthest from the first `k` points, the lowest such point on ties. */
  ghost predicate FarthestBelow(s: Space, first: nat, k: nat, m: nat, c: nat)
    requires first < s.n && 1 <= k <= s.n
    decreases k, 1
  {
    && c < m && !Taken(s, first, k, c)
    && forall i: nat :: i < m && !Taken(s, first, k, i) ==>
         && Nearest(s, first, k, i) <= Nearest(s, first, k, c)
         && (i < c ==> Nearest(s, first, k, i) < Nearest(s, first, k, c))
  }

  /** The point that follows the first `k` points of the traversal: always the farthest one left. */
  ghost function Pick(s: Space, first: nat, k: nat): (c: nat)
    requires first < s.n && k < s.n
    ensures c < s.n
    decreases k, 4
  {
    if k == 0 then first
    else
      FarthestExists(s, first, k);
      var c: nat :| FarthestBelow(s, first, k, s.n, c);
      c
  }

  lemma PickIsFarthest(s: Space, first: nat, k: nat)
    requires first < s.n && k < s.n
    ensures !Taken(s, first, k, Pick(s, first, k))
    ensures if k == 0 then Pick(s, first, k) == first else FarthestBelow(s, first, k, s.n, Pick(s, first, k))
  {
    if k > 0 {
      FarthestExists(s, first, k);
    }
  }

  /** The first `k` points of the traversal, in order. */
  ghost function Traversal(s: Space, first: nat, k: nat): (chosen: seq<nat>)
    requires first < s.n && k <= s.n
    ensures |chosen| == k
    ensures forall t :: 0 <= t < k ==> chosen[t] == Pick(s, first, t)
  {
    seq(k, t requires 0 <= t < k => Pick(s, first, t))
  }

  // ---- existence and uniqueness of the next point ----

  lemma {:induction false} FindFarthest(s: Space, first: nat, k: nat, m: nat, some: nat) returns (c: nat)
    requires first < s.n && 1 <= k <= s.n && some < m && !Taken(s, first, k, some)
    ensures FarthestBelow(s, first, k, m, c)
    decreases k, 2, m
  {
    var last := m - 1;
    if other: nat :| other < last && !Taken(s, first, k, other) {
      c := FindFarthest(s, first, k, last, other);
      if !Taken(s, first, k, last) && Nearest(s, first, k, last) > Nearest(s, first, k, c) {
        c := last;
      }
    } else {
      c := last;
    }
  }

  lemma FarthestExists(s: Space, first: nat, k: nat)
    requires first < s.n && 1 <= k < s.n
    ensures exists c: nat :: FarthestBelow(s, first, k, s.n, c)
    decreases k, 3
  {
    var i := Untaken(s, first, k);
    var c := FindFarthest(s, first, k, s.n, i);
  }

  lemma FarthestUnique(s: Space, first: nat, k: nat, c: nat)
    requires first < s.n && 1 <= k < s.n && FarthestBelow(s, first, k, s.n, c)
    ensures c == Pick(s, first, k)
  {
    PickIsFarthest(s, first, k);
  }

  // ---- counting ----

  ghost function Below(n: nat): (r: set<nat>)
    ensures |r| == n && forall i: nat :: i in r <==> i < n
  {
    if n == 0 then {} else Below(n - 1) + {n - 1}
  }

  ghost function TakenSet(s: Space, first: nat, k: nat): (r: set<nat>)
    requires first < s.n && k <= s.n
    ensures |r| <= k && forall i: nat :: i in r <==> Taken(s, first, k, i)
    decreases k, 1, 0
  {
    if k == 0 then {} else TakenSet(s, first, k - 1) + {Pick(s, first, k - 1)}
  }

  lemma SubsetSize(a: set<nat>, b: set<nat>)
    requires a <= b
    ensures |a| <= |b|
  {
    assert b == a + (b - a);
  }

  /** Fewer than `n` points never exhaust the space. */
  lemma Untaken(s: Space, first: nat, k: nat) returns (i: nat)
    requires first < s.n && k < s.n
    ensures i < s.n && !Taken(s, first, k, i)
    decreases k, 1, 1
  {
    if forall i: nat :: i < s.n ==> Taken(s, first, k, i) {
      SubsetSize(Below(s.n), TakenSet(s, first, k));
      assert false;
    }
    i :| i < s.n && !Taken(s, first, k, i);
  }

  ghost predicate Distinct(values: seq<nat>)
  {
    forall i, j :: 0 <= i < j < |values| ==> values[i] != values[j]
  }

  ghost function Elements(values: seq<nat>): (r: set<nat>)
    ensures forall i :: i in r <==> i in values
    ensures Distinct(values) ==> |r| == |values|
  {
    if |values| == 0 then {}
    else
      var front := values[..|values| - 1];
      assert values == front + [values[|values| - 1]];
      Elements(front) + {values[|values| - 1]}
  }

  /** Pigeonhole: more than `m` values below `m` cannot all differ. */
  lemma Pigeonhole(values: seq<nat>, m: nat) returns (i: nat, j: nat)
    requires |values| > m && forall i :: 0 <= i < |values| ==> values[i] < m
    ensures i < j < |values| && values[i] == values[j]
  {
    if Distinct(values) {
      SubsetSize(Elements(values), Below(m));
      assert false;
    }
    i, j :| 0 <= i < j < |values| && values[i] == values[j];
  }

  // ---- what the traversal guarantees ----

  lemma {:induction false} TakenIsPicked(s: Space, first: nat, k: nat, i: nat)
    requires first < s.n && k <= s.n
    ensures Taken(s, first, k, i) <==> exists t :: 0 <= t < k && Pick(s, first, t) == i
  {
    if k > 0 {
      TakenIsPicked(s, first, k - 1, i);
      if i == Pick(s, first, k - 1) {
        assert exists t :: t == k - 1 && 0 <= t < k && Pick(s, first, t) == i;
      }
    }
  }

  lemma TraversalDistinct(s: Space, first: nat, k: nat)
    requires first < s.n && k <= s.n
    ensures Distinct(Traversal(s, first, k))
  {
    forall t, u | 0 <= t < u < k ensures Pick(s, first, t) != Pick(s, first, u) {
      TakenIsPicked(s, first, u, Pick(s, first, t));
      PickIsFarthest(s, first, u);
    }
  }

  lemma {:induction false} NearestNonNegative(s: Space, first: nat, k: nat, i: nat)
    requires first < s.n && 1 <= k <= s.n
    ensures Nearest(s, first, k, i) >= 0.0
  {
    if k > 1 {
      NearestNonNegative(s, first, k - 1, i);
    }
  }

  lemma {:induction false} NearestIsMinimum(s: Space, first: nat, k: nat, i: nat)
    requires first < s.n && 1 <= k <= s.n
    ensures forall t :: 0 <= t < k ==> Nearest(s, first, k, i) <= s.Dist(i, Pick(s, first, t))
    ensures exists t :: 0 <= t < k && Nearest(s, first, k, i) == s.Dist(i, Pick(s, first, t))
  {
    if k == 1 {
      assert Nearest(s, first, 1, i) == s.Dist(i, Pick(s, first, 0));
    } else {
      NearestIsMinimum(s, first, k - 1, i);
      var t :| 0 <= t < k - 1 && Nearest(s, first, k - 1, i) == s.Dist(i, Pick(s, first, t));
      var u := if s.Dist(i, Pick(s, first, k - 1)) < Nearest(s, first, k - 1, i) then k - 1 else t;
      assert Nearest(s, first, k, i) == s.Dist(i, Pick(s, first, u));
    }
  }

  lemma {:induction false} NearestShrinks(s: Space, first: nat, j: nat, k: nat, i: nat)
    requires first < s.n && 1 <= j <= k <= s.n
    ensures Nearest(s, first, k, i) <= Nearest(s, first, j, i)
    decreases k
  {
    if j < k {
      NearestShrinks(s, first, j, k - 1, i);
    }
  }

  lemma {:induction false} TakenGrows(s: Space, first: nat, j: nat, k: nat, i: nat)
    requires first < s.n && j <= k <= s.n && Taken(s, first, j, i)
    ensures Taken(s, first, k, i)
    decreases k
  {
    if j < k {
      TakenGrows(s, first, j, k - 1, i);
    }
  }

  /** Two chosen points are at least as far apart as any point left is from all of them. */
  lemma ChosenFarApart(s: Space, first: nat, k: nat, i: nat, t: nat, u: nat)
    requires first < s.n && t < u < k <= s.n && i < s.n && !Taken(s, first, k, i)
    ensures s.Dist(Pick(s, first, u), Pick(s, first, t)) >= Nearest(s, first, k, i)
  {
    PickIsFarthest(s, first, u);
    NearestIsMinimum(s, first, u, Pick(s, first, u));
    NearestShrinks(s, first, u, k, i);
    if Taken(s, first, u, i) {
      TakenGrows(s, first, u, k, i);
    }
  }

  // ---- the k-centre bound for feature vectors ----

  ghost predicate Within(rows: seq<Vec>, d: nat, centres: seq<Vec>, radius: real, i: nat, c: nat)
    requires Uniform(rows, d) && Uniform(centres, d) && i < |rows|
  {
    c < |centres| && SqDistTo(rows[i], centres[c], d) <= radius
  }

  /** Every row lies within squared distance `radius` of one of `centres`. */
  ghost predicate Covers(rows: seq<Vec>, d: nat, centres: seq<Vec>, radius: real)
    requires Uniform(rows, d) && Uniform(centres, d)
  {
    forall i: nat :: i < |rows| ==> Covered(rows, d, centres, radius, i)
  }

  ghost predicate Covered(rows: seq<Vec>, d: nat, centres: seq<Vec>, radius: real, i: nat)
    requires Uniform(rows, d) && Uniform(centres, d) && i < |rows|
  {
    exists c: nat :: Within(rows, d, centres, radius, i, c)
  }

  ghost function CentreOf(rows: seq<Vec>, d: nat, centres: seq<Vec>, radius: real, i: nat): (c: nat)
    requires Uniform(rows, d) && Uniform(centres, d) && Covers(rows, d, centres, radius) && i < |rows|
    ensures Within(rows, d, centres, radius, i, c)
  {
    assert Covered(rows, d, centres, radius, i);
    var c: nat :| Within(rows, d, centres, radius, i, c);
    c
  }

  lemma SharedCentre(rows: seq<Vec>, d: nat, centres: seq<Vec>, radius: real, i: nat, j: nat, c: nat)
    requires Uniform(rows, d) && Uniform(centres, d) && i < |rows| && j < |rows|
    requires Within(rows, d, centres, radius, i, c) && Within(rows, d, centres, radius, j, c)
    ensures SqDistTo(rows[i], rows[j], d) <= 4.0 * radius
  {
    RelaxedTriangle(rows[i], centres[c], rows[j], d);
    SqDistSymmetric(rows[j], centres[c], d);
  }

  /**
   * Farthest-first selection is a 2-approximation of the best k centres (a factor of 4 on squared
   * distances): whatever `k` or fewer centres cover the rows within `radius`, the first `k` rows of the
   * traversal cover them within four times `radius`. The centres need not be rows.
   */
  lemma KCentreBound(rows: seq<Vec>, d: nat, first: nat, k: nat, centres: seq<Vec>, radius: real, i: nat)
    requires Uniform(rows, d) && Uniform(centres, d) && Covers(rows, d, centres, radius)
    requires first < |rows| && 1 <= k <= |rows| && |centres| <= k && i < |rows|
    ensures Nearest(SpaceOf(rows, d), first, k, i) <= 4.0 * radius
  {
    var s := SpaceOf(rows, d);
    NearestIsMinimum(s, first, k, i);
    if Taken(s, first, k, i) {
      TakenIsPicked(s, first, k, i);
      SqDistSelf(rows[i], d);
      var c := CentreOf(rows, d, centres, radius, i);
    } else {
      var points := Traversal(s, first, k) + [i];
      var near := seq(k + 1, p requires 0 <= p <= k => CentreOf(rows, d, centres, radius, points[p]));
      var t, u := Pigeonhole(near, |centres|);
      SharedCentre(rows, d, centres, radius, points[u], points[t], near[t]);
      if u < k {
        ChosenFarApart(s, first, k, i, t, u);
      }
    }
  }
}
