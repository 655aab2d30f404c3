/** The two farthest-first loops: the streaming reduction and the PatchCore coreset. */
module Coreset {
  import opened Numbers
  import opened Vectors
  import opened FarthestFirst

  /** A cached distance; the tables start at infinity. */
  datatype Distance = Infinite | Known(value: real)

  function Closer(cached: Distance, distance: real): real {
    match cached
    case Infinite => distance
    case Known(value) => Min(value, distance)
  }

  ghost function Gather<T>(rows: seq<T>, chosen: seq<nat>): (picked: seq<T>)
    requires forall t :: 0 <= t < |chosen| ==> chosen[t] < |rows|
    ensures |picked| == |chosen|
    ensures forall t :: 0 <= t < |picked| ==> picked[t] == rows[chosen[t]]
  {
    seq(|chosen|, t requires 0 <= t < |chosen| => rows[chosen[t]])
  }

  lemma GatherAppend(rows: seq<Vec>, chosen: seq<nat>, c: nat)
    requires c < |rows| && forall t :: 0 <= t < |chosen| ==> chosen[t] < |rows|
    ensures Flat(Gather<Vec>(rows, chosen + [c])) == Flat(Gather<Vec>(rows, chosen)) + rows[c]
  {
    assert Gather<Vec>(rows, chosen + [c]) == Gather<Vec>(rows, chosen) + [rows[c]];
    FlatAppend(Gather<Vec>(rows, chosen), [rows[c]]);
    FlatOne(rows[c]);
  }

  ghost function SpaceOfData(data: seq<real>, d: nat): (s: Space)
    requires d > 0
    ensures s.n == |data| / d
  {
    SpaceOf(Rows(data, d), d)
  }

  /** The rows of row-major data that a traversal of their space selects. */
  ghost function Selected(data: seq<real>, d: nat, chosen: seq<nat>): seq<real>
    requires d > 0 && forall t :: 0 <= t < |chosen| ==> chosen[t] < |data| / d
  {
    Flat(Gather<Vec>(Rows(data, d), chosen))
  }

  // ---- how good the selected rows are ----

  /** Whatever `k` or fewer centres cover the rows within, the picked rows cover them within four times that. */
  ghost predicate NearOptimal(rows: seq<Vec>, d: nat, picked: seq<Vec>, k: nat)
    requires Uniform(rows, d) && Uniform(picked, d)
  {
    forall centres: seq<Vec>, radius: real ::
      Uniform(centres, d) && |centres| <= k && Covers(rows, d, centres, radius) ==> Covers(rows, d, picked, 4.0 * radius)
  }

  lemma TraversalNearOptimal(rows: seq<Vec>, d: nat, first: nat, k: nat)
    requires Uniform(rows, d) && first < |rows| && 1 <= k <= |rows|
    ensures NearOptimal(rows, d, Gather<Vec>(rows, Traversal(SpaceOf(rows, d), first, k)), k)
  {
    hide Nearest;
    var s := SpaceOf(rows, d);
    var picked := Gather<Vec>(rows, Traversal(s, first, k));
    forall centres: seq<Vec>, radius: real | Uniform(centres, d) && |centres| <= k && Covers(rows, d, centres, radius)
      ensures Covers(rows, d, picked, 4.0 * radius)
    {
      var wider := 4.0 * radius;
      forall i: nat | i < |rows| ensures Covered(rows, d, picked, wider, i) {
        KCentreBound(rows, d, first, k, centres, radius, i);
        NearestIsMinimum(s, first, k, i);
        var t :| 0 <= t < k && Nearest(s, first, k, i) == s.Dist(i, Pick(s, first, t));
        assert Within(rows, d, picked, wider, i, t);
      }
    }
  }

  lemma AllNearOptimal(rows: seq<Vec>, d: nat, k: nat)
    requires Uniform(rows, d)
    ensures NearOptimal(rows, d, rows, k)
  {
    forall centres: seq<Vec>, radius: real | Uniform(centres, d) && |centres| <= k && Covers(rows, d, centres, radius)
      ensures Covers(rows, d, rows, 4.0 * radius)
    {
      var wider := 4.0 * radius;
      forall i: nat | i < |rows| ensures Covered(rows, d, rows, wider, i) {
        var c := CentreOf(rows, d, centres, radius, i);
        SqDistSelf(rows[i], d);
        assert Within(rows, d, rows, wider, i, i);
      }
    }
  }

  lemma NothingNearOptimal(rows: seq<Vec>, d: nat)
    requires Uniform(rows, d) && |rows| > 0
    ensures NearOptimal(rows, d, [], 0)
  {
    forall centres: seq<Vec>, radius: real | Uniform(centres, d) && |centres| == 0
      ensures !Covers(rows, d, centres, radius)
    {
      assert !Covered(rows, d, centres, radius, 0);
    }
  }

  /** The reduction of a bank covers it within a factor of four of the best possible centres. */
  lemma ReducedNearOptimal(data: seq<real>, d: nat, budget: nat)
    requires d > 0
    ensures NearOptimal(Rows(data, d), d, Rows(Reduced(data, d, budget), d), budget)
  {
    hide NearOptimal;
    var rows := Rows(data, d);
    if |rows| <= budget {
      AllNearOptimal(rows, d, budget);
    } else {
      var picked := Gather<Vec>(rows, Traversal(SpaceOf(rows, d), 0, budget));
      RowsOfFlat(picked, d);
      if budget == 0 {
        NothingNearOptimal(rows, d);
      } else {
        TraversalNearOptimal(rows, d, 0, budget);
      }
    }
  }

  /** The squared distance of rows `i` and `j` of row-major data. */
  method SquaredDistance(data: seq<real>, d: nat, i: nat, j: nat, ghost s: Space) returns (distance: real)
    requires d > 0 && s == SpaceOfData(data, d) && i < s.n && j < s.n
    ensures distance == s.Dist(i, j)
  {
    ghost var x, y := Row(data, d, i), Row(data, d, j);
    distance := 0.0;
    for c := 0 to d
      invariant distance == SqDistTo(x, y, c)
    {
      RowEntry(data, d, i, c);
      RowEntry(data, d, j, c);
      var delta := data[i * d + c] - data[j * d + c];
      assert delta * delta == Square(x[c] - y[c]);
      distance := distance + delta * delta;
    }
    RowsAt(data, d, |data| / d, i);
    RowsAt(data, d, |data| / d, j);
  }

  /** The cached distance of point `i` is its true distance to the first `k` points of the traversal. */
  ghost predicate Cached(s: Space, first: nat, k: nat, cached: Distance, i: nat)
    requires first < s.n && k <= s.n
  {
    cached == if k == 0 then Infinite else Known(Nearest(s, first, k, i))
  }

  /** Lowers the cached distances after point `added` was chosen and finds the next point to choose. */
  method LowerAndScan(data: seq<real>, d: nat, nearest: array<Distance>, used: array<bool>, added: nat,
                      ghost s: Space, ghost before: nat, ghost k: nat)
    returns (candidate: nat)
    requires d > 0 && s == SpaceOfData(data, d)
    requires nearest.Length == used.Length == s.n > k == before + 1 && added == Pick(s, 0, before)
    requires forall i: nat :: i < s.n ==> (used[i] <==> Taken(s, 0, k, i))
    requires forall i: nat :: i < s.n && !used[i] ==> Cached(s, 0, before, nearest[i], i)
    modifies nearest
    ensures candidate == Pick(s, 0, k)
    ensures forall i: nat :: i < s.n && !used[i] ==> Cached(s, 0, k, nearest[i], i)
  {
    var farthest := -1.0;
    candidate := 0;
    for i := 0 to nearest.Length
      invariant forall j: nat :: j < s.n ==> (used[j] <==> Taken(s, 0, k, j))
      invariant forall j: nat :: j < i && !used[j] ==> Cached(s, 0, k, nearest[j], j)
      invariant forall j: nat :: i <= j < s.n && !used[j] ==> Cached(s, 0, before, nearest[j], j)
      invariant farthest < 0.0 ==> farthest == -1.0 && forall j: nat :: j < i ==> Taken(s, 0, k, j)
      invariant farthest >= 0.0 ==> FarthestBelow(s, 0, k, i, candidate)
                                    && farthest == Nearest(s, 0, k, candidate)
    {
      if !used[i] {
        var distance := SquaredDistance(data, d, i, added, s);
        var lowered := Closer(nearest[i], distance);
        assert lowered == Nearest(s, 0, k, i);
        NearestNonNegative(s, 0, k, i);
        nearest[i] := Known(lowered);
        if lowered > farthest {
          farthest, candidate := lowered, i;
        }
      }
    }
    ghost var i := Untaken(s, 0, k);
    FarthestUnique(s, 0, k, candidate);
  }

  /**
   * Deterministic farthest-first reduction of a bank of `d`-component rows to `budget` rows: the
   * retained rows are rows of the bank, starting with row 0, in the order of the traversal.
   */
  method ReduceBank(data: seq<real>, d: nat, budget: nat) returns (result: seq<real>)
    requires d > 0
    ensures result == Reduced(data, d, budget)
    ensures NearOptimal(Rows(data, d), d, Rows(result, d), budget)
  {
    hide NearOptimal;
    ReducedNearOptimal(data, d, budget);
    var n := |data| / d;
    if n <= budget {
      return data;
    }
    ghost var s := SpaceOfData(data, d);
    var nearest := new Distance[n](_ => Infinite);
    var used := new bool[n](_ => false);
    result := [];
    var next: nat := 0;
    for step := 0 to budget
      invariant next == Pick(s, 0, step)
      invariant forall i: nat :: i < n ==> (used[i] <==> Taken(s, 0, step, i))
      invariant forall i: nat :: i < n && !used[i] ==> Cached(s, 0, step, nearest[i], i)
      invariant result == Selected(data, d, Traversal(s, 0, step))
    {
      used[next] := true;
      result := AppendRow(result, data, d, Traversal(s, 0, step), next);
      assert Traversal(s, 0, step + 1) == Traversal(s, 0, step) + [next];
      next := LowerAndScan(data, d, nearest, used, next, s, step, step + 1);
    }
  }

  /** What the reduction keeps of a bank. */
  ghost function Reduced(data: seq<real>, d: nat, budget: nat): seq<real>
    requires d > 0
  {
    if |data| / d <= budget then data
    else Selected(data, d, Traversal(SpaceOfData(data, d), 0, budget))
  }

  method AppendRow(result: seq<real>, data: seq<real>, d: nat, ghost chosen: seq<nat>, c: nat)
    returns (longer: seq<real>)
    requires d > 0 && c < |data| / d && forall t :: 0 <= t < |chosen| ==> chosen[t] < |data| / d
    requires result == Selected(data, d, chosen)
    ensures longer == Selected(data, d, chosen + [c])
  {
    RowsAt(data, d, |data| / d, c);
    GatherAppend(Rows(data, d), chosen, c);
    longer := result + Row(data, d, c);
  }

  // ---- the PatchCore pipeline ----

  datatype Config = Config(
    embeddingDimension: int32,
    samplingRatio: Float,
    projectionDimension: nat,
    maxExactDistanceEvaluations: nat)
  {
    predicate Valid() {
      && embeddingDimension > 0
      && samplingRatio.Finite? && 0.0 < samplingRatio.value <= 1.0
      && projectionDimension > 0 && maxExactDistanceEvaluations > 0
    }
  }

  method ValidateConfig(config: Config) returns (status: Status)
    ensures status == if config.Valid() then Success else Failure(InvalidArgument)
  {
    if config.embeddingDimension <= 0 {
      return Failure(InvalidArgument);
    }
    if config.samplingRatio.NonFinite? || config.samplingRatio.value <= 0.0 || config.samplingRatio.value > 1.0 {
      return Failure(InvalidArgument);
    }
    if config.projectionDimension == 0 || config.maxExactDistanceEvaluations == 0 {
      return Failure(InvalidArgument);
    }
    return Success;
  }

  function AtLeast(low: int, x: int): int {
    if x < low then low else x
  }

  /** How many of `n` rows a sampling ratio keeps. */
  function TargetCount(n: nat, ratio: real): (target: nat)
    requires n > 0 && 0.0 < ratio <= 1.0
    ensures 1 <= target <= n
    ensures n as real * ratio <= target as real < n as real * ratio + 1.0
  {
    var exact := n as real * ratio;
    assert 0.0 < exact <= n as real;
    AtLeast(1, Ceiling(exact))
  }

  /** `order` lists every index below `n` once. */
  ghost predicate Permutation(order: seq<nat>, n: nat)
  {
    |order| == n && Distinct(order) && forall t :: 0 <= t < n ==> order[t] < n
  }

  /** The random draws of one coreset: the first row, a shuffle, and the projected features. */
  datatype Draws = Draws(first: nat, shuffled: seq<nat>, projected: seq<real>)

  class PatchCorePipeline {
    const config: Config
    var features: seq<real>

    constructor (config: Config)
      ensures this.config == config && features == []
    {
      this.config := config;
      features := [];
    }

    method AddFeatures(values: seq<Float>, vectorCount: nat) returns (status: Status)
      modifies this
      ensures status.Success? <==>
              && config.Valid() && vectorCount > 0
              && |values| == vectorCount * config.embeddingDimension <= SIZE_MAX
              && AllFinite(values)
              && |old(features)| + |values| <= SIZE_MAX
      ensures status.Success? ==> features == old(features) + Reals(values)
      ensures !status.Success? ==>
              && features == old(features)
              && (status == Failure(OutOfMemory) <==>
                  && config.Valid() && 0 < vectorCount && |values| == vectorCount * config.embeddingDimension <= SIZE_MAX
                  && AllFinite(values))
              && (status == Failure(OutOfMemory) || status == Failure(InvalidArgument))
    {
      var valid := ValidateConfig(config);
      if !valid.Success? {
        return valid;
      }
      ghost var d := config.embeddingDimension;
      assert vectorCount > SIZE_MAX / d <==> vectorCount * d > SIZE_MAX by {
        QuotientBound(SIZE_MAX, d, vectorCount);
      }
      if vectorCount == 0 || vectorCount > SIZE_MAX / config.embeddingDimension
         || |values| != vectorCount * config.embeddingDimension {
        return Failure(InvalidArgument);
      }
      for i := 0 to |values|
        invariant AllFinite(values[..i])
      {
        if values[i].NonFinite? {
          return Failure(InvalidArgument);
        }
        assert values[..i + 1] == values[..i] + [values[i]];
      }
      assert values[..|values|] == values;
      if |features| > SIZE_MAX - |values| {
        return Failure(OutOfMemory);
      }
      features := features + Reals(values);
      return Success;
    }

    /** The features the exact path measures distances in: projected when that makes them shorter. */
    function SelectionDimension(): (p: nat)
      requires config.Valid()
      ensures 0 < p <= config.projectionDimension && p <= config.embeddingDimension
      ensures p == config.projectionDimension || p == config.embeddingDimension
    {
      if config.projectionDimension < config.embeddingDimension
      then config.projectionDimension else config.embeddingDimension
    }

    function SelectionFeatures(draws: Draws): (selection: seq<real>)
      requires config.Valid()
      reads this
      ensures config.projectionDimension >= config.embeddingDimension ==> selection == features
      ensures config.projectionDimension < config.embeddingDimension ==> selection == draws.projected
    {
      var unprojected := features;
      if SelectionDimension() >= config.embeddingDimension then unprojected else draws.projected
    }

    ghost predicate Possible(draws: Draws)
      requires config.Valid()
      reads this
    {
      var n := |features| / config.embeddingDimension;
      && (n > 0 ==> draws.first < n)
      && Permutation(draws.shuffled, n)
      && |SelectionFeatures(draws)| / SelectionDimension() == n
    }

    /**
     * The host path of the coreset. Within the evaluation limit the coreset is the farthest-first
     * traversal in the selection space, read back in the original space; beyond it, a sample without
     * replacement.
     */
    method BuildCoreset(draws: Draws) returns (r: Result<seq<real>>)
      requires config.Valid() ==> Possible(draws)
      ensures !config.Valid() ==> r == Err(InvalidArgument)
      ensures config.Valid() ==>
                var d, p := config.embeddingDimension, SelectionDimension();
                var n := |features| / d;
                if n == 0 then r == Err(NotInitialized)
                else
                  var target := TargetCount(n, config.samplingRatio.value);
                  if target >= n then r == Ok(features)
                  else if target * n > config.maxExactDistanceEvaluations then
                    r == Ok(Selected(features, d, draws.shuffled[..target]))
                  else
                    r == Ok(Selected(features, d, Traversal(SpaceOfData(SelectionFeatures(draws), p), draws.first, target)))
    {
      var valid := ValidateConfig(config);
      if !valid.Success? {
        return Err(valid.error);
      }
      var d := config.embeddingDimension;
      var n := |features| / d;
      if n == 0 {
        return Err(NotInitialized);
      }
      var target := TargetCount(n, config.samplingRatio.value);
      if target >= n {
        return Ok(features);
      }
      QuotientBound(config.maxExactDistanceEvaluations, n, target);
      if target > config.maxExactDistanceEvaluations / n {
        var sample := GatherRows(features, d, draws.shuffled[..target]);
        return Ok(sample);
      }
      var p := SelectionDimension();
      var selected := SelectExact(SelectionFeatures(draws), p, draws.first, target);
      var coreset := GatherRows(features, d, selected);
      return Ok(coreset);
    }
  }

  method GatherRows(data: seq<real>, d: nat, chosen: seq<nat>) returns (result: seq<real>)
    requires d > 0 && forall t :: 0 <= t < |chosen| ==> chosen[t] < |data| / d
    ensures result == Selected(data, d, chosen)
  {
    result := [];
    for t := 0 to |chosen|
      invariant result == Selected(data, d, chosen[..t])
    {
      result := AppendRow(result, data, d, chosen[..t], chosen[t]);
      assert chosen[..t + 1] == chosen[..t] + [chosen[t]];
    }
    assert chosen[..|chosen|] == chosen;
  }

  /**
   * The exact greedy selection: the cached table always holds the true distance of every unselected
   * row to the selected ones, so the loop never leaves early and selects exactly `target` rows.
   */
  method SelectExact(data: seq<real>, d: nat, first: nat, target: nat) returns (selected: seq<nat>)
    requires d > 0 && first < |data| / d && 1 <= target <= |data| / d
    ensures selected == Traversal(SpaceOfData(data, d), first, target)
    ensures NearOptimal(Rows(data, d), d, Gather<Vec>(Rows(data, d), selected), target)
  {
    hide NearOptimal;
    TraversalNearOptimal(Rows(data, d), d, first, target);
    ghost var s := SpaceOfData(data, d);
    var n := |data| / d;
    selected := [first];
    var isSelected := new bool[n](i => i == first);
    var minimum := new real[n](_ => 0.0);
    for i := 0 to n
      invariant forall j :: 0 <= j < n ==> (isSelected[j] <==> j == first)
      invariant forall j: nat :: j < i ==> minimum[j] == Nearest(s, first, 1, j)
    {
      minimum[i] := SquaredDistance(data, d, i, first, s);
    }
    minimum[first] := 0.0;
    while |selected| < target
      invariant 1 <= |selected| <= target && selected == Traversal(s, first, |selected|)
      invariant forall i: nat :: i < n ==> (isSelected[i] <==> Taken(s, first, |selected|, i))
      invariant forall i: nat :: i < n && !isSelected[i] ==> minimum[i] == Nearest(s, first, |selected|, i)
    {
      var best := ScanFarthest(isSelected, minimum, s, first, |selected|);
      if best == n {
        assert false;
        break;
      }
      selected := selected + [best];
      isSelected[best] := true;
      assert selected == Traversal(s, first, |selected|);
      LowerMinimum(data, d, isSelected, minimum, best, s, first, |selected| - 1, |selected|);
    }
  }

  /** The farthest unselected point; it exists while fewer than all points are selected. */
  method ScanFarthest(isSelected: array<bool>, minimum: array<real>, ghost s: Space, ghost first: nat, ghost k: nat)
    returns (best: nat)
    requires isSelected.Length == minimum.Length == s.n && first < s.n && 1 <= k < s.n
    requires forall i: nat :: i < s.n ==> (isSelected[i] <==> Taken(s, first, k, i))
    requires forall i: nat :: i < s.n && !isSelected[i] ==> minimum[i] == Nearest(s, first, k, i)
    ensures best < s.n && best == Pick(s, first, k)
  {
    var n, bestDistance := minimum.Length, -1.0;
    best := n;
    for i := 0 to n
      invariant best == n ==> bestDistance == -1.0 && forall j: nat :: j < i ==> Taken(s, first, k, j)
      invariant best != n ==> FarthestBelow(s, first, k, i, best) && bestDistance == minimum[best]
    {
      NearestNonNegative(s, first, k, i);
      if !isSelected[i] && minimum[i] > bestDistance {
        best, bestDistance := i, minimum[i];
      }
    }
    ghost var i := Untaken(s, first, k);
    FarthestUnique(s, first, k, best);
  }

  method LowerMinimum(data: seq<real>, d: nat, isSelected: array<bool>, minimum: array<real>, best: nat,
                      ghost s: Space, ghost first: nat, ghost before: nat, ghost k: nat)
    requires d > 0 && s == SpaceOfData(data, d) && isSelected.Length == minimum.Length == s.n
    requires first < s.n && 1 <= before && k == before + 1 <= s.n && best == Pick(s, first, before)
    requires forall i: nat :: i < s.n && !isSelected[i] ==> minimum[i] == Nearest(s, first, before, i)
    modifies minimum
    ensures forall i: nat :: i < s.n && !isSelected[i] ==> minimum[i] == Nearest(s, first, k, i)
  {
    for i := 0 to minimum.Length
      invariant forall j: nat :: j < i && !isSelected[j] ==> minimum[j] == Nearest(s, first, k, j)
      invariant forall j: nat :: i <= j < s.n && !isSelected[j] ==> minimum[j] == Nearest(s, first, before, j)
    {
      if !isSelected[i] {
        var distance := SquaredDistance(data, d, i, best, s);
        minimum[i] := Min(minimum[i], distance);
      }
    }
  }
}
