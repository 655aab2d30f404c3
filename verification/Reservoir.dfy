/** Sampling a stream into a reservoir: which positions are kept, and how often over all random draws. */
module Reservoir {
  import opened FarthestFirst

  /**
   * The stream positions in a reservoir of `k` slots after `k + |draws|` items, where `draws` are the
   * random draws since the reservoir was full: the draw for position t selects one of 0..t.
   */
  ghost function Positions(k: nat, draws: seq<nat>): (r: seq<nat>)
    ensures |r| == k
  {
    if |draws| == 0 then seq(k, i => i)
    else
      var before := Positions(k, draws[..|draws| - 1]);
      Replaced<nat>(before, draws[|draws| - 1], k + |draws| - 1)
  }

  ghost function SetOf(slots: seq<nat>): set<nat> {
    set x | x in slots
  }

  function Replaced<T>(slots: seq<T>, draw: nat, item: T): (r: seq<T>)
    ensures |r| == |slots|
  {
    if draw < |slots| then slots[draw := item] else slots
  }

  lemma {:induction false} PositionsValid(k: nat, draws: seq<nat>)
    ensures Distinct(Positions(k, draws))
    ensures forall i :: 0 <= i < k ==> Positions(k, draws)[i] < k + |draws|
  {
    if |draws| > 0 {
      PositionsValid(k, draws[..|draws| - 1]);
    }
  }

  /** All draws for the `m` items that follow a full reservoir of `k` slots. */
  ghost function Draws(k: nat, m: nat): (r: set<seq<nat>>)
  {
    if m == 0 then {[]} else Extend(Draws(k, m - 1), 0, k + m)
  }

  // ---- counting sequences by their last element ----

  ghost function WithLast(a: set<seq<nat>>, s: nat): set<seq<nat>> {
    set cs | cs in a :: cs + [s]
  }

  ghost function Extend(a: set<seq<nat>>, lo: nat, hi: nat): set<seq<nat>>
    requires lo <= hi
  {
    set cs, s: nat | cs in a && s in Interval(lo, hi) :: cs + [s]
  }

  ghost function Interval(lo: nat, hi: nat): (r: set<nat>)
    requires lo <= hi
    ensures forall i: nat :: i in r <==> lo <= i < hi
  {
    Below(hi) - Below(lo)
  }

  lemma LastDiffers(a: seq<nat>, b: seq<nat>, s: nat, t: nat)
    ensures a + [s] == b + [t] <==> a == b && s == t
  {
    if a + [s] == b + [t] {
      assert (a + [s])[..|a|] == a && (b + [t])[..|b|] == b;
      assert (a + [s])[|a|] == s && (b + [t])[|b|] == t;
    }
  }

  /** Appending to every sequence an element that depends only on the sequence keeps their number. */
  lemma {:induction false} ImageSize(a: set<seq<nat>>, image: set<seq<nat>>, last: map<seq<nat>, nat>)
    requires forall cs :: cs in a ==> cs in last
    requires image == set cs | cs in a :: cs + [last[cs]]
    ensures |image| == |a|
    decreases |a|
  {
    if cs :| cs in a {
      var rest := a - {cs};
      var restImage := set ds | ds in rest :: ds + [last[ds]];
      ImageSize(rest, restImage, last);
      forall ds | ds in rest ensures ds + [last[ds]] != cs + [last[cs]] {
        LastDiffers(ds, cs, last[ds], last[cs]);
      }
      assert image == restImage + {cs + [last[cs]]};
    } else {
      assert image == {};
    }
  }

  lemma WithLastSize(a: set<seq<nat>>, s: nat)
    ensures |WithLast(a, s)| == |a|
  {
    var last := map cs | cs in a :: s;
    assert WithLast(a, s) == set cs | cs in a :: cs + [last[cs]];
    ImageSize(a, WithLast(a, s), last);
  }

  lemma ExtendNothing(a: set<seq<nat>>, lo: nat)
    ensures Extend(a, lo, lo) == {}
  {
  }

  lemma {:induction false} ExtendSize(a: set<seq<nat>>, lo: nat, hi: nat)
    requires lo <= hi
    ensures |Extend(a, lo, hi)| == |a| * (hi - lo)
    decreases hi - lo
  {
    hide Extend;
    hide WithLast;
    if lo == hi {
      ExtendNothing(a, lo);
    } else {
      ExtendSize(a, lo, hi - 1);
      WithLastSize(a, hi - 1);
      ExtendSplit(a, lo, hi - 1);
      MoreByOne(|a|, hi - 1 - lo);
    }
  }

  lemma MoreByOne(x: nat, n: nat)
    ensures x * (n + 1) == x * n + x
  {
  }

  lemma ExtendSplit(a: set<seq<nat>>, lo: nat, hi: nat)
    requires lo <= hi
    ensures Extend(a, lo, hi + 1) == Extend(a, lo, hi) + WithLast(a, hi)
    ensures Extend(a, lo, hi) !! WithLast(a, hi)
  {
    forall cs ensures cs in Extend(a, lo, hi + 1) <==> cs in Extend(a, lo, hi) || cs in WithLast(a, hi) {
      ExtendMember(a, lo, hi, cs);
      ExtendMember(a, lo, hi + 1, cs);
      WithLastMember(a, hi, cs);
    }
    forall cs ensures !(cs in Extend(a, lo, hi) && cs in WithLast(a, hi)) {
      ExtendMember(a, lo, hi, cs);
      WithLastMember(a, hi, cs);
    }
  }

  lemma ExtendMember(a: set<seq<nat>>, lo: nat, hi: nat, cs: seq<nat>)
    requires lo <= hi
    ensures cs in Extend(a, lo, hi) <==> cs != [] && cs[..|cs| - 1] in a && lo <= cs[|cs| - 1] < hi
  {
    if cs != [] {
      assert cs == cs[..|cs| - 1] + [cs[|cs| - 1]];
      if cs[..|cs| - 1] in a && lo <= cs[|cs| - 1] < hi {
        assert cs[|cs| - 1] in Interval(lo, hi);
      }
    }
    if cs in Extend(a, lo, hi) {
      var ds, s: nat :| ds in a && s in Interval(lo, hi) && cs == ds + [s];
      assert cs[..|cs| - 1] == ds;
    }
  }

  lemma WithLastMember(a: set<seq<nat>>, s: nat, cs: seq<nat>)
    ensures cs in WithLast(a, s) <==> cs != [] && cs[..|cs| - 1] in a && cs[|cs| - 1] == s
  {
    if cs != [] {
      assert cs == cs[..|cs| - 1] + [cs[|cs| - 1]];
    }
    if cs in WithLast(a, s) {
      var ds :| ds in a && cs == ds + [s];
      assert cs[..|cs| - 1] == ds;
    }
  }

  /** The possible draws are exactly the sequences whose i-th draw selects one of 0..k+i. */
  lemma {:induction false} DrawsAre(k: nat, m: nat, cs: seq<nat>)
    ensures cs in Draws(k, m) <==> |cs| == m && forall i :: 0 <= i < m ==> cs[i] <= k + i
  {
    hide Extend;
    if m > 0 {
      ExtendMember(Draws(k, m - 1), 0, k + m, cs);
      if cs != [] {
        DrawsAre(k, m - 1, cs[..|cs| - 1]);
      }
    }
  }

  // ---- marginal uniformity ----

  /** The draws after which stream position `j` is in the reservoir. */
  ghost function Retaining(k: nat, m: nat, j: nat): set<seq<nat>> {
    set cs | cs in Draws(k, m) && j in Positions(k, cs)
  }

  ghost function SlotOf(k: nat, cs: seq<nat>, j: nat): (s: nat)
    requires j in Positions(k, cs)
    ensures s < k && Positions(k, cs)[s] == j
  {
    var s :| 0 <= s < k && Positions(k, cs)[s] == j;
    s
  }

  /** The draws that throw position `j` out at the next item. */
  ghost function Evicting(k: nat, m: nat, j: nat): set<seq<nat>> {
    set cs | cs in Retaining(k, m, j) :: cs + [SlotOf(k, cs, j)]
  }

  lemma PositionsStep(k: nat, cs: seq<nat>, s: nat)
    ensures Positions(k, cs + [s]) == Replaced<nat>(Positions(k, cs), s, k + |cs|)
  {
    assert (cs + [s])[..|cs|] == cs;
  }

  lemma EvictingMember(k: nat, m: nat, j: nat, front: seq<nat>, s: nat)
    ensures front + [s] in Evicting(k, m, j) <==> front in Retaining(k, m, j) && s == SlotOf(k, front, j)
  {
    if front + [s] in Evicting(k, m, j) {
      var ds :| ds in Retaining(k, m, j) && front + [s] == ds + [SlotOf(k, ds, j)];
      LastDiffers(front, ds, s, SlotOf(k, ds, j));
    }
  }

  /** One more draw keeps position `j` unless it selects the slot that holds it. */
  lemma KeptUnlessHit(k: nat, front: seq<nat>, s: nat, j: nat)
    requires j < k + |front|
    ensures j in Positions(k, front + [s]) <==> j in Positions(k, front) && s != SlotOf(k, front, j)
  {
    PositionsValid(k, front);
    PositionsStep(k, front, s);
    var before, after := Positions(k, front), Positions(k, front + [s]);
    if j in before {
      var slot := SlotOf(k, front, j);
      if s != slot {
        assert after[slot] == j;
      }
    }
  }

  lemma RetainingStep(k: nat, m: nat, j: nat, cs: seq<nat>)
    requires j < k + m
    ensures cs in Retaining(k, m + 1, j) <==> cs in Extend(Retaining(k, m, j), 0, k + m + 1) - Evicting(k, m, j)
  {
    hide Extend;
    hide Evicting;
    hide Positions;
    ExtendMember(Draws(k, m), 0, k + m + 1, cs);
    ExtendMember(Retaining(k, m, j), 0, k + m + 1, cs);
    if cs != [] {
      var front, s := cs[..|cs| - 1], cs[|cs| - 1];
      assert cs == front + [s];
      EvictingMember(k, m, j, front, s);
      DrawsAre(k, m, front);
      if front in Draws(k, m) {
        KeptUnlessHit(k, front, s, j);
      }
    }
  }

  lemma RetainingNew(k: nat, m: nat)
    requires k > 0
    ensures Retaining(k, m + 1, k + m) == Extend(Draws(k, m), 0, k)
  {
    hide Extend;
    hide Positions;
    forall cs ensures cs in Retaining(k, m + 1, k + m) <==> cs in Extend(Draws(k, m), 0, k) {
      ExtendMember(Draws(k, m), 0, k + m + 1, cs);
      ExtendMember(Draws(k, m), 0, k, cs);
      if cs != [] {
        var front, s := cs[..|cs| - 1], cs[|cs| - 1];
        assert cs == front + [s];
        DrawsAre(k, m, front);
        PositionsValid(k, front);
        PositionsStep(k, front, s);
        if front in Draws(k, m) && s < k {
          assert Positions(k, cs)[s] == k + m;
        }
      }
    }
  }

  lemma EvictingSize(k: nat, m: nat, j: nat)
    requires j < k + m
    ensures |Evicting(k, m, j)| == |Retaining(k, m, j)|
    ensures Evicting(k, m, j) <= Extend(Retaining(k, m, j), 0, k + m + 1)
  {
    hide Extend;
    hide Positions;
    var last := map cs | cs in Retaining(k, m, j) :: SlotOf(k, cs, j);
    assert Evicting(k, m, j) == set cs | cs in Retaining(k, m, j) :: cs + [last[cs]];
    ImageSize(Retaining(k, m, j), Evicting(k, m, j), last);
    forall cs | cs in Evicting(k, m, j) ensures cs in Extend(Retaining(k, m, j), 0, k + m + 1) {
      ExtendMember(Retaining(k, m, j), 0, k + m + 1, cs);
    }
  }

  lemma RetainingGrows(k: nat, m: nat, j: nat)
    requires j < k + m
    ensures |Retaining(k, m + 1, j)| == |Retaining(k, m, j)| * (k + m)
  {
    hide Extend;
    hide Evicting;
    hide Retaining;
    var grown, extended := Retaining(k, m + 1, j), Extend(Retaining(k, m, j), 0, k + m + 1);
    forall cs ensures cs in grown <==> cs in extended - Evicting(k, m, j) {
      RetainingStep(k, m, j, cs);
    }
    assert grown == extended - Evicting(k, m, j);
    EvictingSize(k, m, j);
    ExtendSize(Retaining(k, m, j), 0, k + m + 1);
    MoreByOne(|Retaining(k, m, j)|, k + m);
  }

  /**
   * Every stream position is kept equally often: of all draws for a stream of k + m items, the share
   * that keeps position `j` is exactly k / (k + m).
   */
  lemma {:induction false} EveryPositionEquallyLikely(k: nat, m: nat, j: nat)
    requires k > 0 && j < k + m
    ensures |Retaining(k, m, j)| * (k + m) == k * |Draws(k, m)|
  {
    hide Extend;
    if m == 0 {
      assert Positions(k, [])[j] == j;
      assert Retaining(k, 0, j) == {[]};
    } else {
      var n := k + m - 1;
      ExtendSize(Draws(k, m - 1), 0, k + m);
      if j == n {
        RetainingNew(k, m - 1);
        ExtendSize(Draws(k, m - 1), 0, k);
        Regroup(|Draws(k, m - 1)|, k, k + m);
      } else {
        EveryPositionEquallyLikely(k, m - 1, j);
        RetainingGrows(k, m - 1, j);
        Regroup'(|Retaining(k, m - 1, j)|, |Draws(k, m - 1)|, k, n, k + m);
      }
    }
  }

  lemma Regroup(x: nat, k: nat, n: nat)
    ensures x * k * n == k * (x * n)
  {
  }

  lemma Regroup'(r: nat, d: nat, k: nat, n: nat, n': nat)
    requires r * n == k * d
    ensures r * n * n' == k * (d * n')
  {
  }

  // ---- joint uniformity ----

  /** The draws after which exactly the positions of `kept` are in the reservoir. */
  ghost function Yielding(k: nat, m: nat, kept: set<nat>): set<seq<nat>> {
    set cs | cs in Draws(k, m) && SetOf(Positions(k, cs)) == kept
  }

  function Factorial(m: nat): nat {
    if m == 0 then 1 else Factorial(m - 1) * m
  }

  /** The draws whose next draw throws out position `x` and leaves `rest` besides the newest position. */
  ghost function Swapping(k: nat, m: nat, rest: set<nat>, x: nat): set<seq<nat>>
    requires x !in rest
  {
    set cs | cs in Yielding(k, m, rest + {x}) && x in Positions(k, cs) :: cs + [SlotOf(k, cs, x)]
  }

  ghost function SwappingAny(k: nat, m: nat, rest: set<nat>, xs: set<nat>): set<seq<nat>>
    requires xs !! rest
  {
    set x, cs | x in xs && cs in Swapping(k, m, rest, x) :: cs
  }

  lemma SwappingMember(k: nat, m: nat, rest: set<nat>, x: nat, front: seq<nat>, s: nat)
    requires x !in rest
    ensures front + [s] in Swapping(k, m, rest, x)
       <==> front in Yielding(k, m, rest + {x}) && x in Positions(k, front) && s == SlotOf(k, front, x)
  {
    hide Positions;
    if front + [s] in Swapping(k, m, rest, x) {
      var ds :| ds in Yielding(k, m, rest + {x}) && x in Positions(k, ds) && front + [s] == ds + [SlotOf(k, ds, x)];
      LastDiffers(front, ds, s, SlotOf(k, ds, x));
    }
  }

  lemma SwappingSize(k: nat, m: nat, rest: set<nat>, x: nat)
    requires x !in rest
    ensures |Swapping(k, m, rest, x)| == |Yielding(k, m, rest + {x})|
  {
    hide Positions;
    var source := Yielding(k, m, rest + {x});
    forall cs | cs in source ensures x in Positions(k, cs) {
      assert x in SetOf(Positions(k, cs));
    }
    var last := map cs | cs in source :: SlotOf(k, cs, x);
    assert Swapping(k, m, rest, x) == set cs | cs in source :: cs + [last[cs]];
    ImageSize(source, Swapping(k, m, rest, x), last);
  }

  lemma SwappingDisjoint(k: nat, m: nat, rest: set<nat>, x: nat, y: nat, cs: seq<nat>)
    requires x !in rest && y !in rest && x != y
    ensures !(cs in Swapping(k, m, rest, x) && cs in Swapping(k, m, rest, y))
  {
    hide Swapping;
    hide Positions;
    if cs != [] {
      assert cs == cs[..|cs| - 1] + [cs[|cs| - 1]];
      SwappingMember(k, m, rest, x, cs[..|cs| - 1], cs[|cs| - 1]);
      SwappingMember(k, m, rest, y, cs[..|cs| - 1], cs[|cs| - 1]);
    } else {
      SwappingNonEmpty(k, m, rest, x);
    }
  }

  lemma SwappingNonEmpty(k: nat, m: nat, rest: set<nat>, x: nat)
    requires x !in rest
    ensures [] !in Swapping(k, m, rest, x)
  {
  }

  lemma {:induction false} SwappingAnySize(k: nat, m: nat, rest: set<nat>, xs: set<nat>, each: nat)
    requires xs !! rest
    requires forall x :: x in xs ==> |Swapping(k, m, rest, x)| == each
    ensures |SwappingAny(k, m, rest, xs)| == each * |xs|
    decreases |xs|
  {
    hide Swapping;
    if x :| x in xs {
      var others := xs - {x};
      SwappingAnySize(k, m, rest, others, each);
      assert SwappingAny(k, m, rest, xs) == SwappingAny(k, m, rest, others) + Swapping(k, m, rest, x);
      forall cs ensures !(cs in SwappingAny(k, m, rest, others) && cs in Swapping(k, m, rest, x)) {
        if cs in SwappingAny(k, m, rest, others) {
          var y :| y in others && cs in Swapping(k, m, rest, y);
          SwappingDisjoint(k, m, rest, x, y, cs);
        }
      }
      MoreByOne(each, |others|);
    } else {
      assert SwappingAny(k, m, rest, xs) == {};
    }
  }

  /** When the newest position is not kept, the last draw selected no slot. */
  lemma YieldingOld(k: nat, m: nat, kept: set<nat>)
    requires k + m !in kept
    ensures Yielding(k, m + 1, kept) == Extend(Yielding(k, m, kept), k, k + m + 1)
  {
    hide Extend;
    hide Positions;
    var longer, extended := Yielding(k, m + 1, kept), Extend(Yielding(k, m, kept), k, k + m + 1);
    forall cs ensures cs in longer <==> cs in extended {
      ExtendMember(Draws(k, m), 0, k + m + 1, cs);
      ExtendMember(Yielding(k, m, kept), k, k + m + 1, cs);
      if cs != [] {
        var front, s := cs[..|cs| - 1], cs[|cs| - 1];
        assert cs == front + [s];
        DrawsAre(k, m, front);
        PositionsStep(k, front, s);
        if front in Draws(k, m) && s < k {
          assert Positions(k, cs)[s] == k + m;
          assert k + m in SetOf(Positions(k, cs));
        }
      }
    }
  }

  /** Overwriting slot `s` of distinct positions swaps its position for the new one. */
  lemma SwapElements(before: seq<nat>, s: nat, item: nat, rest: set<nat>)
    requires Distinct(before) && s < |before| && item !in before && item !in rest
    ensures SetOf(before[s := item]) == rest + {item} <==> before[s] !in rest && SetOf(before) == rest + {before[s]}
  {
    var after := before[s := item];
    forall y | y in before && y != before[s] ensures y in after {
      var i :| 0 <= i < |before| && before[i] == y;
      assert after[i] == y;
    }
    assert after[s] == item;
    forall y | y in after && y != item ensures y in before && y != before[s] {
      var i :| 0 <= i < |after| && after[i] == y;
      assert before[i] == y;
    }
    if SetOf(after) == rest + {item} {
      forall y | y in rest ensures y in before && y != before[s] {
        assert y in SetOf(after);
      }
      forall y | y in before && y != before[s] ensures y in rest {
        assert y in SetOf(after);
      }
    }
    if before[s] !in rest && SetOf(before) == rest + {before[s]} {
      forall y | y in rest ensures y in after {
        assert y in SetOf(before);
      }
      forall y | y in after && y != item ensures y in rest {
        assert y in SetOf(before);
      }
    }
  }

  lemma SlotUnique(k: nat, cs: seq<nat>, s: nat)
    requires s < k
    ensures SlotOf(k, cs, Positions(k, cs)[s]) == s
  {
    PositionsValid(k, cs);
  }

  lemma ReplacedElements(before: seq<nat>, s: nat, item: nat, rest: set<nat>)
    requires Distinct(before) && item !in before && item !in rest
    ensures SetOf(Replaced<nat>(before, s, item)) == rest + {item}
       <==> s < |before| && before[s] !in rest && SetOf(before) == rest + {before[s]}
  {
    if s < |before| {
      SwapElements(before, s, item, rest);
    } else {
      assert item !in SetOf(before);
    }
  }

  lemma NewestNotIn(k: nat, front: seq<nat>)
    ensures k + |front| !in Positions(k, front) && Distinct(Positions(k, front))
  {
    PositionsValid(k, front);
  }

  /** The last draw that makes room for the newest position selects a slot that is not to be kept. */
  lemma YieldingByDraw(k: nat, m: nat, rest: set<nat>, front: seq<nat>, s: nat)
    requires (forall x :: x in rest ==> x < k + m) && |front| == m
    ensures SetOf(Positions(k, front + [s])) == rest + {k + m}
       <==> && s < k && Positions(k, front)[s] !in rest
            && SetOf(Positions(k, front)) == rest + {Positions(k, front)[s]}
  {
    hide Positions;
    hide Replaced;
    hide SetOf;
    NewestNotIn(k, front);
    PositionsStep(k, front, s);
    ReplacedElements(Positions(k, front), s, k + m, rest);
  }

  lemma SwappingSource(k: nat, m: nat, rest: set<nat>, x: nat, front: seq<nat>, s: nat)
    requires x !in rest && front + [s] in Swapping(k, m, rest, x)
    ensures front in Draws(k, m) && s < k && x == Positions(k, front)[s] && SetOf(Positions(k, front)) == rest + {x}
  {
    hide Swapping;
    hide Positions;
    SwappingMember(k, m, rest, x, front, s);
  }

  lemma SwappingTarget(k: nat, m: nat, rest: set<nat>, front: seq<nat>, s: nat)
    requires front in Draws(k, m) && s < k && Positions(k, front)[s] !in rest
    requires SetOf(Positions(k, front)) == rest + {Positions(k, front)[s]}
    ensures Positions(k, front)[s] < k + m && front + [s] in Swapping(k, m, rest, Positions(k, front)[s])
  {
    hide Swapping;
    hide Positions;
    DrawsAre(k, m, front);
    PositionsValid(k, front);
    SlotUnique(k, front, s);
    SwappingMember(k, m, rest, Positions(k, front)[s], front, s);
  }

  lemma YieldingNewMember(k: nat, m: nat, rest: set<nat>, front: seq<nat>, s: nat)
    requires (forall x :: x in rest ==> x < k + m) && |front| == m
    ensures front + [s] in Yielding(k, m + 1, rest + {k + m})
       <==> exists x :: x in Below(k + m) - rest && front + [s] in Swapping(k, m, rest, x)
  {
    hide Swapping;
    hide Positions;
    hide Extend;
    hide SetOf;
    ExtendMember(Draws(k, m), 0, k + m + 1, front + [s]);
    assert (front + [s])[..m] == front;
    YieldingByDraw(k, m, rest, front, s);
    forall x | x in Below(k + m) - rest && front + [s] in Swapping(k, m, rest, x)
      ensures front in Draws(k, m) && s < k && x == Positions(k, front)[s] && SetOf(Positions(k, front)) == rest + {x}
    {
      SwappingSource(k, m, rest, x, front, s);
    }
    if front in Draws(k, m) && s < k && Positions(k, front)[s] !in rest
       && SetOf(Positions(k, front)) == rest + {Positions(k, front)[s]} {
      SwappingTarget(k, m, rest, front, s);
      DrawsAre(k, m, front);
      assert Positions(k, front)[s] in Below(k + m) - rest;
    }
    if front in Draws(k, m) {
      DrawsAre(k, m, front);
    }
  }

  lemma SwappingAnyMember(k: nat, m: nat, rest: set<nat>, xs: set<nat>, cs: seq<nat>)
    requires xs !! rest
    ensures cs in SwappingAny(k, m, rest, xs) <==> exists x :: x in xs && cs in Swapping(k, m, rest, x)
  {
    hide Swapping;
  }

  lemma YieldingNewAt(k: nat, m: nat, rest: set<nat>, cs: seq<nat>)
    requires forall x :: x in rest ==> x < k + m
    ensures cs in Yielding(k, m + 1, rest + {k + m})
       <==> exists x :: x in Below(k + m) - rest && cs in Swapping(k, m, rest, x)
  {
    hide Swapping;
    hide Positions;
    hide SetOf;
    DrawsAre(k, m + 1, cs);
    if |cs| == m + 1 {
      assert cs == cs[..m] + [cs[m]];
      YieldingNewMember(k, m, rest, cs[..m], cs[m]);
    } else {
      forall x | x in Below(k + m) - rest ensures cs !in Swapping(k, m, rest, x) {
        SwappingLength(k, m, rest, x, cs);
      }
    }
  }

  lemma YieldingNew(k: nat, m: nat, rest: set<nat>)
    requires forall x :: x in rest ==> x < k + m
    ensures Yielding(k, m + 1, rest + {k + m}) == SwappingAny(k, m, rest, Below(k + m) - rest)
  {
    hide Swapping;
    hide SwappingAny;
    hide Yielding;
    var longer, any := Yielding(k, m + 1, rest + {k + m}), SwappingAny(k, m, rest, Below(k + m) - rest);
    forall cs ensures cs in longer <==> cs in any {
      YieldingNewAt(k, m, rest, cs);
      SwappingAnyMember(k, m, rest, Below(k + m) - rest, cs);
    }
  }

  lemma SwappingLength(k: nat, m: nat, rest: set<nat>, x: nat, cs: seq<nat>)
    requires x !in rest
    ensures cs in Swapping(k, m, rest, x) ==> |cs| == m + 1
  {
    hide Positions;
    if cs in Swapping(k, m, rest, x) {
      var ds :| ds in Yielding(k, m, rest + {x}) && x in Positions(k, ds) && cs == ds + [SlotOf(k, ds, x)];
      DrawsAre(k, m, ds);
    }
  }

  /** A set that keeps the newest position is reached by swapping it for any one of m + 1 others. */
  lemma YieldingNewSize(k: nat, m: nat, kept: set<nat>, each: nat)
    requires |kept| == k && k + m in kept && forall x :: x in kept ==> x <= k + m
    requires forall other: set<nat> :: |other| == k && (forall x :: x in other ==> x < k + m) ==>
               |Yielding(k, m, other)| == each
    ensures |Yielding(k, m + 1, kept)| == each * (m + 1)
  {
    hide Swapping;
    hide Yielding;
    hide SwappingAny;
    var rest := kept - {k + m};
    var out := Below(k + m) - rest;
    assert kept == rest + {k + m};
    forall x | x in out ensures |Swapping(k, m, rest, x)| == each {
      assert |rest + {x}| == k && forall y :: y in rest + {x} ==> y < k + m;
      SwappingSize(k, m, rest, x);
    }
    SwappingAnySize(k, m, rest, out, each);
    YieldingNew(k, m, rest);
    assert Below(k + m) == out + rest;
    assert |out| == m + 1;
  }

  /**
   * The reservoir is a uniform sample without replacement: every set of `k` of the k + m stream positions
   * is what the reservoir holds after exactly m! of the possible draws.
   */
  lemma {:induction false} EverySubsetEquallyLikely(k: nat, m: nat, kept: set<nat>)
    requires |kept| == k && forall x :: x in kept ==> x < k + m
    ensures |Yielding(k, m, kept)| == Factorial(m)
  {
    hide Extend;
    hide Yielding;
    if m == 0 {
      FullPrefix(k, kept);
    } else {
      forall other: set<nat> | |other| == k && (forall x :: x in other ==> x < k + (m - 1))
        ensures |Yielding(k, m - 1, other)| == Factorial(m - 1)
      {
        EverySubsetEquallyLikely(k, m - 1, other);
      }
      if k + (m - 1) in kept {
        YieldingNewSize(k, m - 1, kept, Factorial(m - 1));
      } else {
        YieldingOld(k, m - 1, kept);
        ExtendSize(Yielding(k, m - 1, kept), k, k + m);
      }
    }
  }

  lemma FullPrefix(k: nat, kept: set<nat>)
    requires |kept| == k && forall x :: x in kept ==> x < k
    ensures |Yielding(k, 0, kept)| == 1
  {
    assert kept <= Below(k);
    assert Below(k) == kept + (Below(k) - kept);
    assert |Below(k) - kept| == 0;
    var slots := Positions(k, []);
    forall x: nat | x < k ensures x in SetOf(slots) {
      assert slots[x] == x;
    }
    assert SetOf(slots) == Below(k) == kept;
    assert Yielding(k, 0, kept) == {[]};
  }
}
