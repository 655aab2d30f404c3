/** YOLO post-processing: decoding, non-maximum suppression and painting of one image. */
module Nms {
  import opened Numbers
  import opened Sums
  import opened Vectors

  datatype Detection = Detection(x1: real, y1: real, x2: real, y2: real, score: real, classId: int)

  function Extent(low: real, high: real): real {
    Max(0.0, high - low)
  }

  function Area(a: Detection): real {
    Times(Extent(a.x1, a.x2), Extent(a.y1, a.y2))
  }

  function Intersection(a: Detection, b: Detection): real {
    Times(Extent(Max(a.x1, b.x1), Min(a.x2, b.x2)), Extent(Max(a.y1, b.y1), Min(a.y2, b.y2)))
  }

  function IntersectionOverUnion(a: Detection, b: Detection): real {
    var union := Area(a) + Area(b) - Intersection(a, b);
    if union > 0.0 then Intersection(a, b) / union else 0.0
  }

  lemma ProductGrows(a: real, b: real, c: real, d: real)
    requires 0.0 <= a <= c && 0.0 <= b <= d
    ensures 0.0 <= Times(a, b) <= Times(c, d)
  {
    assert a * b <= c * b;
    assert c * b <= c * d;
  }

  lemma IntersectionWithin(a: Detection, b: Detection)
    ensures 0.0 <= Intersection(a, b) <= Area(a)
  {
    ProductGrows(Extent(Max(a.x1, b.x1), Min(a.x2, b.x2)), Extent(Max(a.y1, b.y1), Min(a.y2, b.y2)),
                 Extent(a.x1, a.x2), Extent(a.y1, a.y2));
  }

  lemma OverlapSymmetric(a: Detection, b: Detection)
    ensures IntersectionOverUnion(a, b) == IntersectionOverUnion(b, a)
  {
    assert Intersection(a, b) == Intersection(b, a);
  }

  lemma Fraction(x: real, y: real)
    requires 0.0 <= x <= y && y > 0.0
    ensures 0.0 <= x / y <= 1.0
  {
  }

  lemma OverlapBounded(a: Detection, b: Detection)
    ensures 0.0 <= IntersectionOverUnion(a, b) <= 1.0
  {
    hide Intersection;
    hide Area;
    IntersectionWithin(a, b);
    IntersectionWithin(b, a);
    IntersectionSymmetric(a, b);
    var union := Area(a) + Area(b) - Intersection(a, b);
    if union > 0.0 {
      Fraction(Intersection(a, b), union);
    }
  }

  lemma IntersectionSymmetric(a: Detection, b: Detection)
    ensures Intersection(a, b) == Intersection(b, a)
  {
  }

  /** A box with positive area overlaps itself completely. */
  lemma OverlapSelf(a: Detection)
    ensures IntersectionOverUnion(a, a) == if Area(a) > 0.0 then 1.0 else 0.0
  {
    assert Intersection(a, a) == Area(a);
    IntersectionWithin(a, a);
    hide Area;
    hide Intersection;
    if Area(a) > 0.0 {
      Whole(Area(a));
    }
  }

  lemma Whole(x: real)
    requires x > 0.0
    ensures x / x == 1.0
  {
  }

  // ---- the overlap in terms of the points of the boxes ----

  /** The unit cells of a rectangle with whole corners. */
  ghost function Cells(x1: int, x2: int, y1: int, y2: int): set<(int, int)> {
    set x: int, y: int | x1 <= x < x2 && y1 <= y < y2 :: (x, y)
  }

  lemma {:induction false} ColumnSize(x: int, y1: int, y2: int)
    requires y1 <= y2
    ensures |Cells(x, x + 1, y1, y2)| == y2 - y1
    decreases y2 - y1
  {
    if y1 == y2 {
      assert Cells(x, x + 1, y1, y2) == {};
    } else {
      ColumnSize(x, y1, y2 - 1);
      assert Cells(x, x + 1, y1, y2) == Cells(x, x + 1, y1, y2 - 1) + {(x, y2 - 1)};
    }
  }

  lemma {:induction false} RectangleSize(x1: int, x2: int, y1: int, y2: int)
    requires x1 <= x2 && y1 <= y2
    ensures |Cells(x1, x2, y1, y2)| == (x2 - x1) * (y2 - y1)
    decreases x2 - x1
  {
    if x1 == x2 {
      assert Cells(x1, x2, y1, y2) == {};
    } else {
      RectangleSize(x1, x2 - 1, y1, y2);
      ColumnSize(x2 - 1, y1, y2);
      assert Cells(x1, x2, y1, y2) == Cells(x1, x2 - 1, y1, y2) + Cells(x2 - 1, x2, y1, y2);
      assert Cells(x1, x2 - 1, y1, y2) !! Cells(x2 - 1, x2, y1, y2);
      Distributed(x2 - 1 - x1, y2 - y1);
    }
  }

  lemma Distributed(a: int, b: int)
    ensures (a + 1) * b == a * b + b
  {
  }

  predicate WholeCorners(a: Detection) {
    && a.x1 == a.x1.Floor as real && a.x2 == a.x2.Floor as real
    && a.y1 == a.y1.Floor as real && a.y2 == a.y2.Floor as real
  }

  ghost function CellsOf(a: Detection): set<(int, int)> {
    Cells(a.x1.Floor, a.x2.Floor, a.y1.Floor, a.y2.Floor)
  }

  /** A product of extents counts the cells of the rectangle, which has none when it is inverted. */
  lemma ExtentsCountCells(x1: int, x2: int, y1: int, y2: int)
    ensures Times(Extent(x1 as real, x2 as real), Extent(y1 as real, y2 as real)) == |Cells(x1, x2, y1, y2)| as real
  {
    if x1 <= x2 && y1 <= y2 {
      RectangleSize(x1, x2, y1, y2);
      assert (x2 - x1) as real * (y2 - y1) as real == ((x2 - x1) * (y2 - y1)) as real;
    } else {
      assert Cells(x1, x2, y1, y2) == {};
      ZeroExtent(Extent(x1 as real, x2 as real), Extent(y1 as real, y2 as real));
    }
  }

  lemma ZeroExtent(a: real, b: real)
    requires a == 0.0 || b == 0.0
    ensures Times(a, b) == 0.0
  {
  }

  lemma CellsInCommon(a: Detection, b: Detection)
    requires WholeCorners(a) && WholeCorners(b)
    ensures Area(a) == |CellsOf(a)| as real && Intersection(a, b) == |CellsOf(a) * CellsOf(b)| as real
  {
    ExtentsCountCells(a.x1.Floor, a.x2.Floor, a.y1.Floor, a.y2.Floor);
    var x1 := if a.x1.Floor < b.x1.Floor then b.x1.Floor else a.x1.Floor;
    var x2 := if b.x2.Floor < a.x2.Floor then b.x2.Floor else a.x2.Floor;
    var y1 := if a.y1.Floor < b.y1.Floor then b.y1.Floor else a.y1.Floor;
    var y2 := if b.y2.Floor < a.y2.Floor then b.y2.Floor else a.y2.Floor;
    ExtentsCountCells(x1, x2, y1, y2);
    assert Cells(x1, x2, y1, y2) == CellsOf(a) * CellsOf(b);
  }

  /** With whole corners the overlap is the share of the cells in both boxes among those in either. */
  lemma OverlapCountsCells(a: Detection, b: Detection)
    requires WholeCorners(a) && WholeCorners(b)
    ensures Times(IntersectionOverUnion(a, b), |CellsOf(a) + CellsOf(b)| as real) == |CellsOf(a) * CellsOf(b)| as real
  {
    hide Area;
    hide Intersection;
    hide CellsOf;
    CellsInCommon(a, b);
    CellsInCommon(b, a);
    var both, either := |CellsOf(a) * CellsOf(b)| as real, |CellsOf(a) + CellsOf(b)| as real;
    assert either == Area(a) + Area(b) - Intersection(a, b);
    if either > 0.0 {
      DivideBack(both, either);
      Commute(either, both / either);
    } else {
      assert CellsOf(a) * CellsOf(b) <= CellsOf(a) + CellsOf(b);
      assert CellsOf(a) + CellsOf(b) == {};
    }
  }

  function Enlarged(a: Detection, f: real): Detection {
    a.(x1 := Times(f, a.x1), x2 := Times(f, a.x2), y1 := Times(f, a.y1), y2 := Times(f, a.y2))
  }

  lemma PositiveProduct(a: real, b: real)
    requires a > 0.0 && b > 0.0
    ensures Times(a, b) > 0.0
  {
  }

  lemma Enlarges(f: real, u: real, v: real)
    requires f > 0.0
    ensures Max(Times(f, u), Times(f, v)) == Times(f, Max(u, v)) && Min(Times(f, u), Times(f, v)) == Times(f, Min(u, v))
    ensures Extent(Times(f, u), Times(f, v)) == Times(f, Extent(u, v))
  {
    assert f * v - f * u == f * (v - u);
    if u < v {
      PositiveProduct(f, v - u);
    } else if v < u {
      PositiveProduct(f, u - v);
    }
  }

  lemma ExtentsEnlarge(f: real, x1: real, x2: real, y1: real, y2: real)
    requires f > 0.0
    ensures Times(Extent(Times(f, x1), Times(f, x2)), Extent(Times(f, y1), Times(f, y2)))
         == Times(Times(f, f), Times(Extent(x1, x2), Extent(y1, y2)))
  {
    Enlarges(f, x1, x2);
    Enlarges(f, y1, y2);
    RegroupFactors(f, Extent(x1, x2), Extent(y1, y2));
  }

  lemma RegroupFactors(f: real, u: real, v: real)
    ensures Times(Times(f, u), Times(f, v)) == Times(Times(f, f), Times(u, v))
  {
  }

  lemma RatioOfMultiples(g: real, x: real, y: real)
    requires g > 0.0
    ensures Times(g, y) > 0.0 <==> y > 0.0
    ensures y > 0.0 ==> Times(g, x) / Times(g, y) == x / y
  {
    if y > 0.0 {
      PositiveProduct(g, y);
      assert x / y * (g * y) == g * (x / y * y) == g * x;
    } else if y < 0.0 {
      PositiveProduct(g, -y);
    }
  }

  /** Enlarging both boxes keeps their overlap, so that rational corners reduce to whole ones. */
  lemma OverlapScales(a: Detection, b: Detection, f: real)
    requires f > 0.0
    ensures IntersectionOverUnion(Enlarged(a, f), Enlarged(b, f)) == IntersectionOverUnion(a, b)
  {
    hide Max;
    hide Min;
    hide Extent;
    var c, d, g := Enlarged(a, f), Enlarged(b, f), Times(f, f);
    Enlarges(f, a.x1, b.x1);
    Enlarges(f, a.y1, b.y1);
    Enlarges(f, a.x2, b.x2);
    Enlarges(f, a.y2, b.y2);
    hide Times;
    ExtentsEnlarge(f, a.x1, a.x2, a.y1, a.y2);
    ExtentsEnlarge(f, b.x1, b.x2, b.y1, b.y2);
    ExtentsEnlarge(f, Max(a.x1, b.x1), Min(a.x2, b.x2), Max(a.y1, b.y1), Min(a.y2, b.y2));
    SumOfMultiples(g, Area(a), Area(b), Intersection(a, b));
    PositiveProduct(f, f);
    RatioOfMultiples(g, Intersection(a, b), Area(a) + Area(b) - Intersection(a, b));
  }

  lemma SumOfMultiples(g: real, x: real, y: real, z: real)
    ensures Times(g, x) + Times(g, y) - Times(g, z) == Times(g, x + y - z)
  {
  }

  // ---- suppression ----

  predicate Conflict(a: Detection, b: Detection, threshold: real) {
    a.classId == b.classId && IntersectionOverUnion(a, b) > threshold
  }

  predicate Descending(candidates: seq<Detection>) {
    forall i, j :: 0 <= i < j < |candidates| ==> candidates[i].score >= candidates[j].score
  }

  /**
   * Which candidates are kept: exactly those that conflict with no kept candidate before them. There is
   * one such selection, by `SelectionExists` and `SelectionUnique`.
   */
  ghost predicate IsSelection(candidates: seq<Detection>, threshold: real, kept: seq<bool>)
  {
    && |kept| == |candidates|
    && forall i :: 0 <= i < |kept| ==>
         (kept[i] <==> forall j :: 0 <= j < i && kept[j] ==> !Conflict(candidates[j], candidates[i], threshold))
  }

  lemma {:induction false} SelectionUnique(candidates: seq<Detection>, threshold: real, a: seq<bool>, b: seq<bool>)
    requires IsSelection(candidates, threshold, a) && IsSelection(candidates, threshold, b)
    ensures a == b
  {
    SelectionAgrees(candidates, threshold, a, b, |a|);
  }

  lemma {:induction false} SelectionAgrees(candidates: seq<Detection>, threshold: real, a: seq<bool>, b: seq<bool>, n: nat)
    requires IsSelection(candidates, threshold, a) && IsSelection(candidates, threshold, b) && n <= |a|
    ensures forall i :: 0 <= i < n ==> a[i] == b[i]
  {
    if n > 0 {
      SelectionAgrees(candidates, threshold, a, b, n - 1);
      var i := n - 1;
      assert a[i] == b[i] by {
        assert forall j :: 0 <= j < i ==> a[j] == b[j];
      }
    }
  }

  lemma SelectionPrefix(candidates: seq<Detection>, threshold: real, flags: seq<bool>, n: nat)
    requires IsSelection(candidates, threshold, flags) && n <= |flags|
    ensures IsSelection(candidates[..n], threshold, flags[..n])
  {
    hide Conflict;
    var front, head := candidates[..n], flags[..n];
    forall i | 0 <= i < n
      ensures head[i] <==> forall j :: 0 <= j < i && head[j] ==> !Conflict(front[j], front[i], threshold)
    {
      assert forall j :: 0 <= j <= i ==> head[j] == flags[j] && front[j] == candidates[j];
      assert flags[i] <==> forall j :: 0 <= j < i && flags[j] ==> !Conflict(candidates[j], candidates[i], threshold);
    }
  }

  function Chosen(candidates: seq<Detection>, kept: seq<bool>): (r: seq<Detection>)
    requires |kept| == |candidates|
  {
    if |candidates| == 0 then []
    else
      var last := |candidates| - 1;
      Chosen(candidates[..last], kept[..last]) + (if kept[last] then [candidates[last]] else [])
  }

  lemma {:induction false} ChosenMember(candidates: seq<Detection>, kept: seq<bool>, d: Detection)
    requires |kept| == |candidates|
    ensures d in Chosen(candidates, kept) <==> exists i :: 0 <= i < |kept| && kept[i] && candidates[i] == d
  {
    if |candidates| > 0 {
      var last := |candidates| - 1;
      ChosenMember(candidates[..last], kept[..last], d);
      if i :| 0 <= i < last && kept[..last][i] && candidates[..last][i] == d {
        assert kept[i] && candidates[i] == d;
      }
      if i :| 0 <= i < |kept| && kept[i] && candidates[i] == d {
        if i < last {
          assert kept[..last][i] && candidates[..last][i] == d;
        }
      }
    }
  }

  /** No kept box conflicts with the candidate. */
  ghost predicate Free(kept: seq<Detection>, candidate: Detection, threshold: real)
  {
    forall d :: d in kept ==> !Conflict(d, candidate, threshold)
  }

  lemma FreeIsUnconflicted(candidates: seq<Detection>, flags: seq<bool>, candidate: Detection, threshold: real)
    requires |flags| == |candidates|
    ensures Free(Chosen(candidates, flags), candidate, threshold)
       <==> forall j :: 0 <= j < |flags| && flags[j] ==> !Conflict(candidates[j], candidate, threshold)
  {
    forall d ensures d in Chosen(candidates, flags) <==> exists i :: 0 <= i < |flags| && flags[i] && candidates[i] == d {
      ChosenMember(candidates, flags, d);
    }
    if Free(Chosen(candidates, flags), candidate, threshold) {
      forall j | 0 <= j < |flags| && flags[j] ensures !Conflict(candidates[j], candidate, threshold) {
        assert candidates[j] in Chosen(candidates, flags);
      }
    }
  }

  lemma SelectionExtends(candidates: seq<Detection>, threshold: real, flags: seq<bool>, candidate: Detection, keep: bool)
    requires IsSelection(candidates, threshold, flags)
    requires keep <==> Free(Chosen(candidates, flags), candidate, threshold)
    ensures IsSelection(candidates + [candidate], threshold, flags + [keep])
    ensures Chosen(candidates + [candidate], flags + [keep])
         == Chosen(candidates, flags) + (if keep then [candidate] else [])
  {
    hide Conflict;
    FreeIsUnconflicted(candidates, flags, candidate, threshold);
    var more, longer := candidates + [candidate], flags + [keep];
    assert more[..|candidates|] == candidates && longer[..|flags|] == flags;
    forall i | 0 <= i < |longer|
      ensures longer[i] <==> forall j :: 0 <= j < i && longer[j] ==> !Conflict(more[j], more[i], threshold)
    {
      if i < |flags| {
        assert flags[i] <==> forall j :: 0 <= j < i && flags[j] ==> !Conflict(candidates[j], candidates[i], threshold);
        assert forall j :: 0 <= j < i ==> longer[j] == flags[j] && more[j] == candidates[j];
      } else {
        assert forall j :: 0 <= j < i ==> longer[j] == flags[j] && more[j] == candidates[j];
      }
    }
  }

  lemma EmptySelection(threshold: real)
    ensures IsSelection([], threshold, []) && Chosen([], []) == [] && Selection([], threshold) == []
  {
  }

  /** The selection, one candidate after the other. */
  ghost function Selection(candidates: seq<Detection>, threshold: real): (kept: seq<bool>)
    ensures |kept| == |candidates|
  {
    if |candidates| == 0 then []
    else
      var last := |candidates| - 1;
      var before := Selection(candidates[..last], threshold);
      before + [Keeps(candidates, threshold, before)]
  }

  /** Whether the last candidate is kept, given which ones before it are. */
  ghost predicate Keeps(candidates: seq<Detection>, threshold: real, before: seq<bool>)
    requires |candidates| == |before| + 1
  {
    var last := |before|;
    forall j :: 0 <= j < last && before[j] ==> !Conflict(candidates[j], candidates[last], threshold)
  }

  lemma KeepsIsFree(candidates: seq<Detection>, threshold: real, before: seq<bool>)
    requires |candidates| == |before| + 1
    ensures Keeps(candidates, threshold, before)
       <==> Free(Chosen(candidates[..|before|], before), candidates[|before|], threshold)
  {
    hide Conflict;
    FreeIsUnconflicted(candidates[..|before|], before, candidates[|before|], threshold);
    assert forall j :: 0 <= j < |before| ==> candidates[..|before|][j] == candidates[j];
  }

  lemma SelectionUnfolds(candidates: seq<Detection>, threshold: real)
    requires |candidates| > 0
    ensures var before := Selection(candidates[..|candidates| - 1], threshold);
              Selection(candidates, threshold) == before + [Keeps(candidates, threshold, before)]
  {
    hide Keeps;
  }

  /** One more candidate, judged as `Selection` judges it. */
  lemma SelectionSteps(candidates: seq<Detection>, threshold: real, before: seq<bool>)
    requires |candidates| == |before| + 1 && IsSelection(candidates[..|before|], threshold, before)
    ensures IsSelection(candidates, threshold, before + [Keeps(candidates, threshold, before)])
  {
    hide *;
    var front, candidate := candidates[..|before|], candidates[|before|];
    KeepsIsFree(candidates, threshold, before);
    SelectionExtends(front, threshold, before, candidate, Keeps(candidates, threshold, before));
    assert front + [candidate] == candidates;
  }

  lemma {:induction false} SelectionExists(candidates: seq<Detection>, threshold: real)
    ensures IsSelection(candidates, threshold, Selection(candidates, threshold))
  {
    hide *;
    if |candidates| == 0 {
      EmptySelection(threshold);
    } else {
      var front := candidates[..|candidates| - 1];
      SelectionExists(front, threshold);
      SelectionUnfolds(candidates, threshold);
      SelectionSteps(candidates, threshold, Selection(front, threshold));
    }
  }

  /** The suppression loops: the kept boxes are those of the one selection. */
  method Suppress(candidates: seq<Detection>, threshold: real) returns (kept: seq<Detection>)
    ensures kept == Chosen(candidates, Selection(candidates, threshold))
  {
    hide IsSelection;
    hide Selection;
    hide Free;
    EmptySelection(threshold);
    kept := [];
    ghost var flags := [];
    for i := 0 to |candidates|
      invariant |flags| == i
      invariant IsSelection(candidates[..i], threshold, flags)
      invariant kept == Chosen(candidates[..i], flags)
    {
      var suppressed := IsSuppressed(kept, candidates[i], threshold);
      SelectionExtends(candidates[..i], threshold, flags, candidates[i], !suppressed);
      assert candidates[..i] + [candidates[i]] == candidates[..i + 1];
      flags := flags + [!suppressed];
      if !suppressed {
        kept := kept + [candidates[i]];
      }
    }
    assert candidates[..|candidates|] == candidates;
    SelectionExists(candidates, threshold);
    SelectionUnique(candidates, threshold, flags, Selection(candidates, threshold));
  }

  method IsSuppressed(kept: seq<Detection>, candidate: Detection, threshold: real) returns (suppressed: bool)
    ensures suppressed <==> !Free(kept, candidate, threshold)
  {
    hide IntersectionOverUnion;
    for j := 0 to |kept|
      invariant forall k :: 0 <= k < j ==> !Conflict(kept[k], candidate, threshold)
    {
      if kept[j].classId == candidate.classId && IntersectionOverUnion(kept[j], candidate) > threshold {
        assert kept[j] in kept && Conflict(kept[j], candidate, threshold);
        return true;
      }
    }
    return false;
  }

  /** Kept boxes of one class overlap by at most the threshold. */
  lemma KeptApart(candidates: seq<Detection>, threshold: real, flags: seq<bool>, i: nat, j: nat)
    requires IsSelection(candidates, threshold, flags) && i < |flags| && j < |flags| && i != j
    requires flags[i] && flags[j] && candidates[i].classId == candidates[j].classId
    ensures IntersectionOverUnion(candidates[i], candidates[j]) <= threshold
  {
    hide IntersectionOverUnion;
    OverlapSymmetric(candidates[i], candidates[j]);
    var first, second := if i < j then i else j, if i < j then j else i;
    assert !Conflict(candidates[first], candidates[second], threshold);
  }

  /** Every dropped candidate overlaps an earlier kept box of its class that scores at least as much. */
  lemma DroppedForABetterBox(candidates: seq<Detection>, threshold: real, flags: seq<bool>, i: nat) returns (j: nat)
    requires Descending(candidates) && IsSelection(candidates, threshold, flags) && i < |flags| && !flags[i]
    ensures j < i && flags[j] && candidates[j].classId == candidates[i].classId
    ensures IntersectionOverUnion(candidates[j], candidates[i]) > threshold
    ensures candidates[j].score >= candidates[i].score
  {
    j :| 0 <= j < i && flags[j] && Conflict(candidates[j], candidates[i], threshold);
  }

  lemma {:induction false} ChosenDescending(candidates: seq<Detection>, kept: seq<bool>)
    requires |kept| == |candidates| && Descending(candidates)
    ensures Descending(Chosen(candidates, kept))
  {
    if |candidates| > 0 {
      var last := |candidates| - 1;
      ChosenDescending(candidates[..last], kept[..last]);
      var front := Chosen(candidates[..last], kept[..last]);
      forall d | d in front ensures d.score >= candidates[last].score {
        ChosenMember(candidates[..last], kept[..last], d);
        var i :| 0 <= i < last && kept[..last][i] && candidates[..last][i] == d;
        assert candidates[i] == d;
      }
    }
  }

  /** Boxes without conflicts are all kept. */
  lemma {:induction false} NothingSuppressed(kept: seq<Detection>, threshold: real, flags: seq<bool>)
    requires IsSelection(kept, threshold, flags)
    requires forall i, j :: 0 <= i < j < |kept| ==> !Conflict(kept[i], kept[j], threshold)
    ensures Chosen(kept, flags) == kept
  {
    hide Conflict;
    if |kept| > 0 {
      var last := |kept| - 1;
      SelectionPrefix(kept, threshold, flags, last);
      NothingSuppressed(kept[..last], threshold, flags[..last]);
      assert flags[last];
      assert kept == kept[..last] + [kept[last]];
    }
  }

  lemma {:induction false} ChosenFree(candidates: seq<Detection>, threshold: real, flags: seq<bool>)
    requires IsSelection(candidates, threshold, flags)
    ensures var kept := Chosen(candidates, flags);
              forall i, j :: 0 <= i < j < |kept| ==> !Conflict(kept[i], kept[j], threshold)
  {
    hide Conflict;
    if |candidates| > 0 {
      var last := |candidates| - 1;
      var front, head := candidates[..last], flags[..last];
      SelectionPrefix(candidates, threshold, flags, last);
      ChosenFree(front, threshold, head);
      var before := Chosen(front, head);
      if flags[last] {
        FreeIsUnconflicted(front, head, candidates[last], threshold);
        assert Chosen(candidates, flags) == before + [candidates[last]];
      } else {
        assert Chosen(candidates, flags) == before;
      }
    }
  }

  /** Suppressing the kept boxes again keeps them all, in order. */
  lemma SuppressionIdempotent(candidates: seq<Detection>, threshold: real, flags: seq<bool>, again: seq<bool>)
    requires IsSelection(candidates, threshold, flags)
    requires IsSelection(Chosen(candidates, flags), threshold, again)
    ensures Chosen(Chosen(candidates, flags), again) == Chosen(candidates, flags)
  {
    hide Conflict;
    hide Chosen;
    ChosenFree(candidates, threshold, flags);
    NothingSuppressed(Chosen(candidates, flags), threshold, again);
  }

  // ---- decoding ----

  /** The network's output for one image, channel by channel: 4 box channels and one per class. */
  datatype Output = Output(data: seq<real>, classes: nat, anchors: nat)
  {
    ghost predicate Valid() {
      |data| == (4 + classes) * anchors
    }

    function At(channel: nat, anchor: nat): real
      requires Valid() && channel < 4 + classes && anchor < anchors
    {
      MultiplesApart(channel, 4 + classes, anchors);
      ProductNonNegative(channel, anchors);
      data[channel * anchors + anchor]
    }

    /** The score of a class: after the four box channels, each channel has one value for every anchor. */
    ghost function Score(c: nat, anchor: nat): real
      requires Valid() && c < classes && anchor < anchors
    {
      Within(4 + c, anchor);
      data[(4 + c) * anchors + anchor]
    }

    /** One of the four numbers of a box: centre, width and height. */
    ghost function Box(k: nat, anchor: nat): real
      requires Valid() && k < 4 && anchor < anchors
    {
      Within(k, anchor);
      data[k * anchors + anchor]
    }

    lemma Within(channel: nat, anchor: nat)
      requires Valid() && channel < 4 + classes && anchor < anchors
      ensures 0 <= channel * anchors + anchor < |data|
    {
      MultiplesApart(channel, 4 + classes, anchors);
      ProductNonNegative(channel, anchors);
    }
  }

  /** Class `c` scores highest at the anchor, and no lower class scores as high. */
  ghost predicate IsBest(o: Output, anchor: nat, c: nat)
    requires o.Valid() && anchor < o.anchors
  {
    && c < o.classes
    && forall k: nat :: k < o.classes ==>
         && o.Score(k, anchor) <= o.Score(c, anchor)
         && (k < c ==> o.Score(k, anchor) < o.Score(c, anchor))
  }

  ghost predicate IsBox(o: Output, anchor: nat, d: Detection)
    requires o.Valid() && anchor < o.anchors
  {
    && d.classId >= 0 && IsBest(o, anchor, d.classId) && d.score == o.Score(d.classId, anchor)
    && d.x1 + d.x2 == 2.0 * o.Box(0, anchor) && d.x2 - d.x1 == o.Box(2, anchor)
    && d.y1 + d.y2 == 2.0 * o.Box(1, anchor) && d.y2 - d.y1 == o.Box(3, anchor)
  }

  /** Some class reaches the confidence threshold at the anchor. */
  ghost predicate Confident(o: Output, anchor: nat, threshold: real)
    requires o.Valid() && anchor < o.anchors
  {
    exists k: nat :: k < o.classes && o.Score(k, anchor) >= threshold
  }

  /** `anchors` lists in increasing order the anchors below `n` that reach the threshold. */
  ghost predicate Selects(o: Output, threshold: real, anchors: seq<nat>, n: nat)
    requires o.Valid() && n <= o.anchors
  {
    && (forall t, u :: 0 <= t < u < |anchors| ==> anchors[t] < anchors[u])
    && (forall t :: 0 <= t < |anchors| ==> anchors[t] < n)
    && (forall m: nat :: m < n ==> (m in anchors <==> Confident(o, m, threshold)))
  }

  /** The boxes of exactly the confident anchors, in the order of the anchors. */
  ghost predicate IsDecoded(o: Output, threshold: real, candidates: seq<Detection>)
    requires o.Valid()
  {
    exists anchors :: DecodedAt(o, threshold, candidates, anchors, o.anchors)
  }

  ghost predicate DecodedAt(o: Output, threshold: real, candidates: seq<Detection>, anchors: seq<nat>, n: nat)
    requires o.Valid() && n <= o.anchors
  {
    && Selects(o, threshold, anchors, n) && |candidates| == |anchors|
    && forall t :: 0 <= t < |candidates| ==> IsBox(o, anchors[t], candidates[t])
  }

  method Decode(o: Output, threshold: real) returns (candidates: seq<Detection>)
    requires o.Valid()
    ensures IsDecoded(o, threshold, candidates)
  {
    candidates := [];
    ghost var anchors: seq<nat> := [];
    for m := 0 to o.anchors
      invariant DecodedAt(o, threshold, candidates, anchors, m)
    {
      var found, best, bestClass := BestClass(o, m);
      if found && best >= threshold {
        var cx, cy, w, h := o.At(0, m), o.At(1, m), o.At(2, m), o.At(3, m);
        var d := Detection(cx - w * 0.5, cy - h * 0.5, cx + w * 0.5, cy + h * 0.5, best, bestClass);
        assert Confident(o, m, threshold);
        candidates, anchors := candidates + [d], anchors + [m];
      }
    }
  }

  method BestClass(o: Output, m: nat) returns (found: bool, best: real, bestClass: nat)
    requires o.Valid() && m < o.anchors
    ensures found <==> o.classes > 0
    ensures found ==> IsBest(o, m, bestClass) && best == o.Score(bestClass, m)
  {
    found, best, bestClass := false, 0.0, 0;
    for c := 0 to o.classes
      invariant found <==> c > 0
      invariant found ==> bestClass < c && best == o.Score(bestClass, m)
      invariant found ==> forall k: nat :: k < c ==>
                  o.Score(k, m) <= best && (k < bestClass ==> o.Score(k, m) < best)
    {
      var score := o.At(4 + c, m);
      if !found || score > best {
        found, best, bestClass := true, score, c;
      }
    }
  }

  // ---- ordering ----

  function Inserted(sorted: seq<Detection>, k: nat, d: Detection): seq<Detection>
    requires k <= |sorted|
  {
    sorted[..k] + [d] + sorted[k..]
  }

  /** `d` belongs at place `k`: at least its score before, less from there on. */
  ghost predicate Belongs(sorted: seq<Detection>, k: nat, d: Detection)
    requires k <= |sorted|
  {
    && (forall j :: 0 <= j < k ==> sorted[j].score >= d.score)
    && (forall j :: k <= j < |sorted| ==> sorted[j].score < d.score)
  }

  lemma InsertKeepsOrder(sorted: seq<Detection>, k: nat, d: Detection)
    requires Descending(sorted) && k <= |sorted| && Belongs(sorted, k, d)
    ensures Descending(Inserted(sorted, k, d))
  {
    var after := Inserted(sorted, k, d);
    assert forall j :: 0 <= j < |after| ==>
        after[j] == if j < k then sorted[j] else if j == k then d else sorted[j - 1];
    forall i, j | 0 <= i < j < |after| ensures after[i].score >= after[j].score {
      InOrder(sorted, if i > k then i - 1 else i, if j > k then j - 1 else j);
    }
  }

  lemma InOrder(sorted: seq<Detection>, i: nat, j: nat)
    requires Descending(sorted) && i <= j
    ensures j < |sorted| ==> sorted[i].score >= sorted[j].score
  {
  }

  lemma InsertAddsOne(sorted: seq<Detection>, k: nat, d: Detection)
    requires k <= |sorted|
    ensures multiset(Inserted(sorted, k, d)) == multiset(sorted) + multiset{d}
  {
    assert sorted == sorted[..k] + sorted[k..];
  }

  /** Where a candidate goes: after the scores at least its own. */
  method Place(sorted: seq<Detection>, d: Detection) returns (k: nat)
    requires Descending(sorted)
    ensures k <= |sorted| && Belongs(sorted, k, d)
  {
    k := |sorted|;
    while k > 0 && sorted[k - 1].score < d.score
      invariant 0 <= k <= |sorted|
      invariant forall j :: k <= j < |sorted| ==> sorted[j].score < d.score
    {
      k := k - 1;
    }
    forall j | 0 <= j < k ensures sorted[j].score >= d.score {
      InOrder(sorted, j, k - 1);
    }
  }

  /** Sorts by descending score; the order of equal scores is left open by the callers' contracts. */
  method SortByScore(candidates: seq<Detection>) returns (sorted: seq<Detection>)
    ensures Descending(sorted) && multiset(sorted) == multiset(candidates)
  {
    hide Descending;
    hide Belongs;
    hide Inserted;
    sorted := [];
    NothingToOrder();
    for i := 0 to |candidates|
      invariant Descending(sorted) && multiset(sorted) == multiset(candidates[..i])
    {
      var k := Place(sorted, candidates[i]);
      InsertKeepsOrder(sorted, k, candidates[i]);
      InsertAddsOne(sorted, k, candidates[i]);
      sorted := Inserted(sorted, k, candidates[i]);
      assert candidates[..i + 1] == candidates[..i] + [candidates[i]];
    }
    assert candidates[..|candidates|] == candidates;
  }

  lemma NothingToOrder()
    ensures Descending([])
  {
  }

  // ---- painting ----

  function IntMax(a: int, b: int): int {
    if a < b then b else a
  }

  function IntMin(a: int, b: int): int {
    if b < a then b else a
  }

  /** The pixels a box paints: its rectangle, rounded outwards and clipped to the map. */
  predicate Paints(d: Detection, width: int, height: int, x: int, y: int) {
    && IntMax(0, d.x1.Floor) <= x < IntMin(width, Ceiling(d.x2))
    && IntMax(0, d.y1.Floor) <= y < IntMin(height, Ceiling(d.y2))
  }

  /** A pixel is painted when its cell meets the inside of the box, and it is on the map. */
  lemma PaintsWhatItMeets(d: Detection, width: int, height: int, x: int, y: int)
    ensures Paints(d, width, height, x, y) <==>
              && 0 <= x < width && 0 <= y < height
              && d.x1 < (x + 1) as real && x as real < d.x2 && d.y1 < (y + 1) as real && y as real < d.y2
  {
    RoundsOutwards(d.x1, d.x2, x);
    RoundsOutwards(d.y1, d.y2, y);
  }

  lemma RoundsOutwards(low: real, high: real, x: int)
    ensures low.Floor <= x <==> low < (x + 1) as real
    ensures x < Ceiling(high) <==> x as real < high
  {
  }

  /** A pixel after painting boxes one over the other. */
  function PixelAfter(kept: seq<Detection>, width: int, height: int, x: int, y: int): real {
    if |kept| == 0 then 0.0
    else
      var last := |kept| - 1;
      if Paints(kept[last], width, height, x, y) then kept[last].score
      else PixelAfter(kept[..last], width, height, x, y)
  }

  /**
   * Boxes come in descending score, so later and weaker boxes paint over stronger ones: a pixel ends
   * with the lowest score among the boxes that cover it, and with 0 where none does.
   */
  lemma {:induction false} PixelIsLowestCover(kept: seq<Detection>, width: int, height: int, x: int, y: int)
    requires Descending(kept)
    ensures var p := PixelAfter(kept, width, height, x, y);
              if exists d :: d in kept && Paints(d, width, height, x, y)
              then (exists d :: d in kept && Paints(d, width, height, x, y) && d.score == p)
                   && forall d :: d in kept && Paints(d, width, height, x, y) ==> p <= d.score
              else p == 0.0
  {
    hide Paints;
    if |kept| > 0 {
      var last := |kept| - 1;
      assert kept == kept[..last] + [kept[last]];
      if Paints(kept[last], width, height, x, y) {
        assert kept[last] in kept;
        forall d | d in kept ensures kept[last].score <= d.score {
          var i :| 0 <= i < |kept| && kept[i] == d;
        }
      } else {
        PixelIsLowestCover(kept[..last], width, height, x, y);
      }
    }
  }

  /** The image score: the best kept score, and at least 0. */
  ghost predicate IsImageScore(kept: seq<Detection>, score: real) {
    && score >= 0.0 && (forall d :: d in kept ==> d.score <= score)
    && (score == 0.0 || exists d :: d in kept && d.score == score)
  }

  /** No pixel exceeds the image score. */
  lemma PixelBelowImageScore(kept: seq<Detection>, width: int, height: int, x: int, y: int, score: real)
    requires Descending(kept) && IsImageScore(kept, score)
    ensures PixelAfter(kept, width, height, x, y) <= score
  {
    hide Paints;
    PixelIsLowestCover(kept, width, height, x, y);
  }

  method FillRectangle(canvas: array2<real>, d: Detection, x1: int, y1: int, x2: int, y2: int)
    requires 0 <= x1 <= x2 <= canvas.Length1 && 0 <= y1 <= y2 <= canvas.Length0
    modifies canvas
    ensures forall y, x :: 0 <= y < canvas.Length0 && 0 <= x < canvas.Length1 ==>
              canvas[y, x] == if x1 <= x < x2 && y1 <= y < y2 then d.score else old(canvas[y, x])
  {
    forall y, x | y1 <= y < y2 && x1 <= x < x2 {
      canvas[y, x] := d.score;
    }
  }

  method Paint(kept: seq<Detection>, width: nat, height: nat) returns (imageScore: real, canvas: array2<real>)
    ensures fresh(canvas) && canvas.Length0 == height && canvas.Length1 == width
    ensures forall y, x :: 0 <= y < height && 0 <= x < width ==> canvas[y, x] == PixelAfter(kept, width, height, x, y)
    ensures IsImageScore(kept, imageScore)
  {
    imageScore := 0.0;
    canvas := new real[height, width]((y, x) => 0.0);
    for i := 0 to |kept|
      invariant forall y, x :: 0 <= y < height && 0 <= x < width ==>
                  canvas[y, x] == PixelAfter(kept[..i], width, height, x, y)
      invariant IsImageScore(kept[..i], imageScore)
    {
      var d := kept[i];
      assert kept[..i + 1] == kept[..i] + [d] && kept[..i + 1][..i] == kept[..i];
      assert d in kept[..i + 1];
      imageScore := Max(imageScore, d.score);
      var x1, y1 := IntMax(0, d.x1.Floor), IntMax(0, d.y1.Floor);
      var x2, y2 := IntMin(width, Ceiling(d.x2)), IntMin(height, Ceiling(d.y2));
      if x2 <= x1 || y2 <= y1 {
        continue;
      }
      FillRectangle(canvas, d, x1, y1, x2, y2);
    }
    assert kept[..|kept|] == kept;
  }

  /** The decoded boxes of an image in descending score; the order of equal scores is open. */
  ghost predicate IsSorted(o: Output, threshold: real, sorted: seq<Detection>)
    requires o.Valid()
  {
    Descending(sorted) && exists candidates ::
      IsDecoded(o, threshold, candidates) && multiset(sorted) == multiset(candidates)
  }

  /** The whole post-processing of one image: decoded, sorted, suppressed and painted. */
  method Predict(o: Output, confidence: real, threshold: real, width: nat, height: nat)
    returns (imageScore: real, canvas: array2<real>, ghost sorted: seq<Detection>)
    requires o.Valid()
    ensures IsSorted(o, confidence, sorted)
    ensures var kept := Chosen(sorted, Selection(sorted, threshold));
              && IsImageScore(kept, imageScore)
              && fresh(canvas) && canvas.Length0 == height && canvas.Length1 == width
              && forall y, x :: 0 <= y < height && 0 <= x < width ==>
                   canvas[y, x] == PixelAfter(kept, width, height, x, y)
  {
    hide IsDecoded;
    hide Descending;
    hide Selection;
    var candidates := Decode(o, confidence);
    var ordered := SortByScore(candidates);
    sorted := ordered;
    var kept := Suppress(ordered, threshold);
    imageScore, canvas := Paint(kept, width, height);
  }

  /** An anchor has one box. */
  lemma BoxUnique(o: Output, m: nat, a: Detection, b: Detection)
    requires o.Valid() && m < o.anchors && IsBox(o, m, a) && IsBox(o, m, b)
    ensures a == b
  {
  }
}
