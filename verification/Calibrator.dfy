/** The calibrator: score collection with a bounded pixel reservoir, and the thresholds it computes. */
module Calibrator {
  import opened Numbers
  import opened FarthestFirst
  import opened Reservoir

  datatype Prediction = Prediction(rawScore: Float, anomalyMap: seq<seq<Float>>)

  /** The scores of a batch in the order the calibrator reads them. */
  datatype Item = Image(score: Float) | Pixel(score: Float)

  function LineItems(line: seq<Float>): (items: seq<Item>)
    ensures |items| == |line|
    ensures forall i :: 0 <= i < |items| ==> items[i] == Pixel(line[i])
  {
    seq(|line|, i requires 0 <= i < |line| => Pixel(line[i]))
  }

  function MapItems(lines: seq<seq<Float>>): seq<Item> {
    if |lines| == 0 then [] else MapItems(lines[..|lines| - 1]) + LineItems(lines[|lines| - 1])
  }

  function PredictionItems(p: Prediction): seq<Item> {
    [Image(p.rawScore)] + MapItems(p.anomalyMap)
  }

  function Items(batch: seq<Prediction>): seq<Item> {
    if |batch| == 0 then [] else Items(batch[..|batch| - 1]) + PredictionItems(batch[|batch| - 1])
  }

  predicate AllUsable(items: seq<Item>) {
    |items| == 0 || (items[0].score.Finite? && AllUsable(items[1..]))
  }

  function ImageOf(item: Item): seq<real> {
    match item
    case Image(Finite(value)) => [value]
    case _ => []
  }

  function PixelOf(item: Item): seq<real> {
    match item
    case Pixel(Finite(value)) => [value]
    case _ => []
  }

  lemma Reassociate(x: seq<real>, y: seq<real>, z: seq<real>)
    ensures x + (y + z) == x + y + z
  {
  }

  /** The image scores before the first score that is not finite. */
  function Images(items: seq<Item>): seq<real> {
    if |items| == 0 || items[0].score.NonFinite? then []
    else ImageOf(items[0]) + Images(items[1..])
  }

  /** The pixel scores before the first score that is not finite. */
  function Pixels(items: seq<Item>): (r: seq<real>)
    ensures |r| <= |items|
  {
    if |items| == 0 || items[0].score.NonFinite? then []
    else PixelOf(items[0]) + Pixels(items[1..])
  }

  lemma {:induction false} UsableAppend(a: seq<Item>, b: seq<Item>)
    ensures AllUsable(a + b) <==> AllUsable(a) && AllUsable(b)
  {
    if |a| == 0 {
      assert a + b == b;
    } else {
      assert (a + b)[1..] == a[1..] + b;
      UsableAppend(a[1..], b);
    }
  }

  lemma {:induction false} ImagesAppend(a: seq<Item>, b: seq<Item>)
    ensures Images(a + b) == Images(a) + (if AllUsable(a) then Images(b) else [])
  {
    if |a| == 0 {
      assert a + b == b;
    } else {
      assert (a + b)[1..] == a[1..] + b;
      ImagesAppend(a[1..], b);
      Reassociate(ImageOf(a[0]), Images(a[1..]), if AllUsable(a[1..]) then Images(b) else []);
    }
  }

  lemma {:induction false} PixelsAppend(a: seq<Item>, b: seq<Item>)
    ensures Pixels(a + b) == Pixels(a) + (if AllUsable(a) then Pixels(b) else [])
  {
    if |a| == 0 {
      assert a + b == b;
    } else {
      assert (a + b)[1..] == a[1..] + b;
      PixelsAppend(a[1..], b);
      Reassociate(PixelOf(a[0]), Pixels(a[1..]), if AllUsable(a[1..]) then Pixels(b) else []);
    }
  }

  lemma ReadAppend(a: seq<Item>, b: seq<Item>)
    ensures Images(a + b) == Images(a) + (if AllUsable(a) then Images(b) else [])
    ensures Pixels(a + b) == Pixels(a) + (if AllUsable(a) then Pixels(b) else [])
    ensures AllUsable(a + b) <==> AllUsable(a) && AllUsable(b)
  {
    UsableAppend(a, b);
    ImagesAppend(a, b);
    PixelsAppend(a, b);
  }

  lemma {:induction false} MapPrefix(lines: seq<seq<Float>>, r: nat) returns (rest: seq<Item>)
    requires r <= |lines|
    ensures MapItems(lines) == MapItems(lines[..r]) + rest
  {
    if r == |lines| {
      assert lines[..r] == lines;
      rest := [];
    } else {
      var last := |lines| - 1;
      var middle := MapPrefix(lines[..last], r);
      assert lines[..last][..r] == lines[..r];
      rest := middle + LineItems(lines[last]);
    }
  }

  lemma {:induction false} BatchPrefix(batch: seq<Prediction>, p: nat) returns (rest: seq<Item>)
    requires p <= |batch|
    ensures Items(batch) == Items(batch[..p]) + rest
  {
    if p == |batch| {
      assert batch[..p] == batch;
      rest := [];
    } else {
      var last := |batch| - 1;
      var middle := BatchPrefix(batch[..last], p);
      assert batch[..last][..p] == batch[..p];
      rest := middle + PredictionItems(batch[last]);
    }
  }

  /**
   * The reservoir holds min(seen, max) values, those of the stream positions that the draws so far
   * select; `draws` is one of the possible draw sequences.
   */
  ghost predicate Sampled(max: nat, stream: seq<real>, scores: seq<real>, draws: seq<nat>)
  {
    if |stream| <= max then scores == stream && draws == []
    else
      && |draws| == |stream| - max && draws in Draws(max, |draws|)
      && |scores| == max
      && forall i :: 0 <= i < max ==>
           Positions(max, draws)[i] < |stream| && scores[i] == stream[Positions(max, draws)[i]]
  }

  lemma SampledEarly(max: nat, stream: seq<real>, scores: seq<real>, draws: seq<nat>, value: real)
    requires Sampled(max, stream, scores, draws) && |stream| < max
    ensures |scores| < max && Sampled(max, stream + [value], scores + [value], draws)
  {
  }

  /** A full reservoir holds in each slot the value at the slot's position. */
  lemma SampledAt(max: nat, stream: seq<real>, scores: seq<real>, draws: seq<nat>, i: nat)
    requires Sampled(max, stream, scores, draws) && |stream| >= max && i < max
    ensures |scores| == max && |draws| == |stream| - max
    ensures var position := Positions(max, draws)[i]; position < |stream| && scores[i] == stream[position]
  {
    hide Draws;
    hide Positions;
    if |stream| == max {
      NoDraws(max);
    }
  }

  lemma SampledLate(max: nat, stream: seq<real>, scores: seq<real>, draws: seq<nat>, value: real, draw: nat)
    requires Sampled(max, stream, scores, draws) && |stream| >= max && draw <= |stream|
    ensures |scores| == max && |draws| == |stream| - max
    ensures Sampled(max, stream + [value], Replaced<real>(scores, draw, value), draws + [draw])
  {
    var next := draws + [draw];
    hide Draws;
    hide Positions;
    PositionsStep(max, draws, draw);
    DrawsAre(max, |draws|, draws);
    DrawsAre(max, |next|, next);
    PositionsValid(max, next);
    if |stream| == max {
      NoDraws(max);
    }
    forall i | 0 <= i < max
      ensures var position := Positions(max, next)[i];
              position <= |stream| && Replaced<real>(scores, draw, value)[i] == (stream + [value])[position]
    {
      SampledAt(max, stream, scores, draws, i);
    }
  }

  lemma SampledSize(max: nat, stream: seq<real>, scores: seq<real>, draws: seq<nat>)
    requires Sampled(max, stream, scores, draws)
    ensures |scores| == if |stream| < max then |stream| else max
  {
  }

  lemma NoDraws(max: nat)
    ensures forall i :: 0 <= i < max ==> Positions(max, [])[i] == i
  {
  }

  /** Which of the draws offered with pixels are used: those of the pixels that find the reservoir full. */
  function Drawn(max: nat, seen: nat, random: seq<nat>): seq<nat> {
    if seen >= max then random
    else if seen + |random| <= max then []
    else random[max - seen..]
  }

  lemma DrawnMore(max: nat, seen: nat, random: seq<nat>, from: nat, middle: nat, to: nat)
    requires from <= middle <= to <= |random|
    ensures Drawn(max, seen, random[from..to])
         == Drawn(max, seen, random[from..middle]) + Drawn(max, seen + (middle - from), random[middle..to])
  {
    assert random[from..to] == random[from..middle] + random[middle..to];
  }

  lemma NoneDrawn(max: nat, seen: nat, random: seq<nat>, at: nat)
    requires at <= |random|
    ensures Drawn(max, seen, random[at..at]) == []
  {
  }

  lemma DrawnOne(max: nat, seen: nat, random: seq<nat>, at: nat)
    requires at < |random|
    ensures Drawn(max, seen, random[at..at + 1]) == if seen < max then [] else [random[at]]
  {
  }

  /** One part more was read: its draws follow those of the parts before it. */
  lemma DrawsFollow(draws0: seq<nat>, draws1: seq<nat>, draws2: seq<nat>, max: nat, seen: nat, random: seq<nat>,
                    from: nat, middle: nat, to: nat)
    requires from <= middle <= to <= |random|
    requires draws1 == draws0 + Drawn(max, seen, random[from..middle])
    requires draws2 == draws1 + Drawn(max, seen + (middle - from), random[middle..to])
    ensures draws2 == draws0 + Drawn(max, seen, random[from..to])
  {
    hide Drawn;
    DrawnMore(max, seen, random, from, middle, to);
  }

  class Calibrator {
    const maxPixelSamples: nat
    const targetFalsePositiveRate: real
    var imageScores: seq<real>
    var pixelScores: seq<real>
    var seenPixels: nat
    ghost var stream: seq<real>
    ghost var draws: seq<nat>

    constructor (maxPixelSamples: nat, targetFalsePositiveRate: real)
      requires maxPixelSamples > 0 && 0.0 < targetFalsePositiveRate < 1.0
      ensures Valid() && imageScores == [] && stream == [] && draws == []
      ensures this.maxPixelSamples == maxPixelSamples && this.targetFalsePositiveRate == targetFalsePositiveRate
    {
      this.maxPixelSamples, this.targetFalsePositiveRate := maxPixelSamples, targetFalsePositiveRate;
      imageScores, pixelScores, seenPixels := [], [], 0;
      stream, draws := [], [];
    }

    ghost predicate Valid()
      reads this
    {
      && maxPixelSamples > 0 && 0.0 < targetFalsePositiveRate < 1.0
      && seenPixels == |stream| && Sampled(maxPixelSamples, stream, pixelScores, draws)
    }

    /** Offers one pixel to the reservoir; `draw` is the random draw, used only when the reservoir is full. */
    method AddPixel(value: real, draw: nat)
      requires Valid() && (|stream| >= maxPixelSamples ==> draw <= |stream|)
      modifies this
      ensures Valid() && imageScores == old(imageScores)
      ensures stream == old(stream) + [value]
      ensures draws == if |old(stream)| < maxPixelSamples then old(draws) else old(draws) + [draw]
    {
      hide Sampled;
      ghost var before := stream;
      SampledSize(maxPixelSamples, stream, pixelScores, draws);
      seenPixels := seenPixels + 1;
      stream := stream + [value];
      if |pixelScores| < maxPixelSamples {
        SampledEarly(maxPixelSamples, before, pixelScores, draws, value);
        pixelScores := pixelScores + [value];
      } else {
        SampledLate(maxPixelSamples, before, pixelScores, draws, value, draw);
        draws := draws + [draw];
        if draw < maxPixelSamples {
          pixelScores := pixelScores[draw := value];
        }
      }
    }

    /** `random[used..]` are possible draws for the next pixels. */
    ghost predicate Ready(random: seq<nat>, used: nat, pixels: nat)
      reads this
    {
      && used + pixels <= |random|
      && forall i :: used <= i < |random| && |stream| + (i - used) >= maxPixelSamples ==>
           random[i] <= |stream| + (i - used)
    }

    method AddImage(score: real)
      requires Valid()
      modifies `imageScores
      ensures Valid() && imageScores == old(imageScores) + [score]
    {
      imageScores := imageScores + [score];
    }

    method AddLine(line: seq<Float>, random: seq<nat>, used: nat) returns (ok: bool, next: nat)
      requires Valid() && Ready(random, used, |line|)
      modifies this
      ensures Valid() && imageScores == old(imageScores)
      ensures stream == old(stream) + Pixels(LineItems(line)) && next == used + |Pixels(LineItems(line))|
      ensures draws == old(draws) + Drawn(maxPixelSamples, |old(stream)|, random[used..next])
      ensures ok <==> AllUsable(LineItems(line))
    {
      hide AllUsable;
      hide Images;
      hide Pixels;
      hide Valid;
      Empty();
      hide Drawn;
      assert LineItems(line[..0]) == [];
      next := used;
      NoneDrawn(maxPixelSamples, |stream|, random, used);
      for column := 0 to |line|
        invariant Valid() && imageScores == old(imageScores)
        invariant AllUsable(LineItems(line[..column])) && next == used + column
        invariant stream == old(stream) + Pixels(LineItems(line[..column])) && |Pixels(LineItems(line[..column]))| == column
        invariant draws == old(draws) + Drawn(maxPixelSamples, |old(stream)|, random[used..next])
      {
        var value := line[column];
        LineStep(line, column);
        if value.NonFinite? {
          return false, next;
        }
        ghost var drawn, seen := draws, |stream|;
        AddPixel(value.value, random[next]);
        DrawnOne(maxPixelSamples, seen, random, next);
        DrawsFollow(old(draws), drawn, draws, maxPixelSamples, |old(stream)|, random, used, next, next + 1);
        next := next + 1;
      }
      assert line[..|line|] == line;
      return true, next;
    }

    method AddMap(lines: seq<seq<Float>>, random: seq<nat>, used: nat) returns (ok: bool, next: nat)
      requires Valid() && Ready(random, used, |MapItems(lines)|)
      modifies this
      ensures Valid() && imageScores == old(imageScores) + Images(MapItems(lines))
      ensures stream == old(stream) + Pixels(MapItems(lines)) && next == used + |Pixels(MapItems(lines))|
      ensures draws == old(draws) + Drawn(maxPixelSamples, |old(stream)|, random[used..next])
      ensures ok <==> AllUsable(MapItems(lines))
    {
      hide AllUsable;
      hide Images;
      hide Pixels;
      hide Valid;
      hide Drawn;
      Empty();
      next := used;
      NoneDrawn(maxPixelSamples, |stream|, random, used);
      for row := 0 to |lines|
        invariant Valid() && AllUsable(MapItems(lines[..row]))
        invariant imageScores == old(imageScores) + Images(MapItems(lines[..row]))
        invariant stream == old(stream) + Pixels(MapItems(lines[..row]))
        invariant next == used + |Pixels(MapItems(lines[..row]))| <= |random|
        invariant draws == old(draws) + Drawn(maxPixelSamples, |old(stream)|, random[used..next])
      {
        hide MapItems;
        MapStep(lines, row);
        ghost var drawn, at := draws, next;
        ok, next := AddLine(lines[row], random, next);
        DrawsFollow(old(draws), drawn, draws, maxPixelSamples, |old(stream)|, random, used, at, next);
        if !ok {
          return;
        }
      }
      assert lines[..|lines|] == lines;
      return true, next;
    }

    method AddPrediction(p: Prediction, random: seq<nat>, used: nat) returns (ok: bool, next: nat)
      requires Valid() && Ready(random, used, |PredictionItems(p)|)
      modifies this
      ensures Valid() && imageScores == old(imageScores) + Images(PredictionItems(p))
      ensures stream == old(stream) + Pixels(PredictionItems(p)) && next == used + |Pixels(PredictionItems(p))|
      ensures draws == old(draws) + Drawn(maxPixelSamples, |old(stream)|, random[used..next])
      ensures ok <==> AllUsable(PredictionItems(p))
    {
      hide AllUsable;
      hide Images;
      hide Pixels;
      hide Valid;
      hide MapItems;
      ReadAppend([Image(p.rawScore)], MapItems(p.anomalyMap));
      OneImage(p.rawScore);
      NoneDrawn(maxPixelSamples, |stream|, random, used);
      hide Drawn;
      if p.rawScore.NonFinite? {
        return false, used;
      }
      AddImage(p.rawScore.value);
      ok, next := AddMap(p.anomalyMap, random, used);
    }

    /**
     * Adds the scores of a batch. A score that is not finite stops the batch; what was read before it
     * stays. `random[i]` is the draw for the i-th pixel of the batch.
     */
    method AddBatch(batch: seq<Prediction>, random: seq<nat>) returns (status: Status)
      requires Valid() && Ready(random, 0, |Items(batch)|)
      modifies this
      ensures Valid()
      ensures status == if batch == [] then Failure(InvalidArgument)
                        else if AllUsable(Items(batch)) then Success else Failure(InferenceFailed)
      ensures imageScores == old(imageScores) + Images(Items(batch))
      ensures stream == old(stream) + Pixels(Items(batch))
      ensures |Pixels(Items(batch))| <= |random|
      ensures draws == old(draws) + Drawn(maxPixelSamples, |old(stream)|, random[..|Pixels(Items(batch))|])
    {
      hide AllUsable;
      hide Images;
      hide Pixels;
      hide Valid;
      hide PredictionItems;
      hide Drawn;
      Empty();
      NoneDrawn(maxPixelSamples, |stream|, random, 0);
      assert random[..0] == random[0..0];
      if |batch| == 0 {
        return Failure(InvalidArgument);
      }
      var used := 0;
      for p := 0 to |batch|
        invariant Valid() && AllUsable(Items(batch[..p]))
        invariant imageScores == old(imageScores) + Images(Items(batch[..p]))
        invariant stream == old(stream) + Pixels(Items(batch[..p]))
        invariant used == |Pixels(Items(batch[..p]))| <= |random|
        invariant draws == old(draws) + Drawn(maxPixelSamples, |old(stream)|, random[0..used])
      {
        hide Items;
        BatchStep(batch, p);
        var ok;
        ghost var drawn, at := draws, used;
        ok, used := AddPrediction(batch[p], random, used);
        DrawsFollow(old(draws), drawn, draws, maxPixelSamples, |old(stream)|, random, 0, at, used);
        assert random[0..used] == random[..used];
        if !ok {
          return Failure(InferenceFailed);
        }
      }
      assert batch[..|batch|] == batch;
      return Success;
    }

    /** Ranges and thresholds of everything collected so far. */
    method Compute() returns (r: Result<Calibration>)
      requires Valid()
      ensures imageScores == [] ==> r == Err(InvalidArgument)
      ensures imageScores != [] ==>
                && r.Ok? && r.value.sampleCount == |imageScores|
                && IsRange(imageScores, r.value.imageMin, r.value.imageMax)
                && IsThreshold(imageScores, targetFalsePositiveRate, r.value.imageThreshold)
                && (r.value.hasPixelStatistics <==> seenPixels > 0)
                && if seenPixels > 0 then
                     && IsRange(pixelScores, r.value.pixelMin, r.value.pixelMax)
                     && IsThreshold(pixelScores, targetFalsePositiveRate, r.value.pixelThreshold)
                   else r.value.pixelMin == 0.0 && r.value.pixelMax == 1.0 && r.value.pixelThreshold == 0.5
    {
      if |imageScores| == 0 {
        return Err(InvalidArgument);
      }
      SampledSize(maxPixelSamples, stream, pixelScores, draws);
      var imageMin, imageMax := RangeOf(imageScores);
      var imageThreshold := Quantile(imageScores, targetFalsePositiveRate);
      if |pixelScores| == 0 {
        return Ok(Calibration(|imageScores|, imageMin, imageMax, imageThreshold, 0.0, 1.0, 0.5, false));
      }
      var pixelMin, pixelMax := RangeOf(pixelScores);
      var pixelThreshold := Quantile(pixelScores, targetFalsePositiveRate);
      return Ok(Calibration(|imageScores|, imageMin, imageMax, imageThreshold,
                            pixelMin, pixelMax, pixelThreshold, true));
    }
  }

  /**
   * A new calibrator after one batch: a stream that fits is kept whole; of a longer one the reservoir
   * holds the positions that the draws for its later pixels select. Over all possible draws each
   * position of the stream is kept equally often, and so is each set of positions.
   */
  method SampleBatch(maxPixelSamples: nat, targetFalsePositiveRate: real, batch: seq<Prediction>, random: seq<nat>)
    returns (c: Calibrator)
    requires maxPixelSamples > 0 && 0.0 < targetFalsePositiveRate < 1.0
    requires |Items(batch)| <= |random|
    requires forall i :: maxPixelSamples <= i < |random| ==> random[i] <= i
    ensures fresh(c) && c.Valid() && c.stream == Pixels(Items(batch)) && |c.stream| <= |random|
    ensures |c.stream| <= maxPixelSamples ==> c.pixelScores == c.stream
    ensures |c.stream| > maxPixelSamples ==>
              var k, m := maxPixelSamples, |c.stream| - maxPixelSamples;
              var later := random[k..k + m];
              && later in Draws(k, m) && |c.pixelScores| == k
              && (forall i :: 0 <= i < k ==>
                    var position := Positions(k, later)[i];
                    position < |c.stream| && c.pixelScores[i] == c.stream[position])
              && (forall j :: 0 <= j < |c.stream| ==> |Retaining(k, m, j)| * |c.stream| == k * |Draws(k, m)|)
              && (forall kept: set<nat> :: |kept| == k && (forall x :: x in kept ==> x < |c.stream|) ==>
                    |Yielding(k, m, kept)| == Factorial(m))
  {
    hide Draws;
    hide Positions;
    hide Retaining;
    hide Yielding;
    hide Items;
    hide Pixels;
    hide AllUsable;
    hide Factorial;
    c := new Calibrator(maxPixelSamples, targetFalsePositiveRate);
    if batch == [] {
      NoItems();
      return;
    }
    var _ := c.AddBatch(batch, random);
    if |c.stream| > maxPixelSamples {
      var k, m := maxPixelSamples, |c.stream| - maxPixelSamples;
      assert c.draws == random[..k + m][k..] == random[k..k + m];
      forall i | 0 <= i < k
        ensures var position := Positions(k, c.draws)[i];
                position < |c.stream| && c.pixelScores[i] == c.stream[position]
      {
        SampledAt(k, c.stream, c.pixelScores, c.draws, i);
      }
      DrawnEvenly(k, m);
    }
  }

  /** Over all draws every position is kept equally often, and every set of positions. */
  lemma DrawnEvenly(k: nat, m: nat)
    requires k > 0
    ensures forall j :: 0 <= j < k + m ==> |Retaining(k, m, j)| * (k + m) == k * |Draws(k, m)|
    ensures forall kept: set<nat> :: |kept| == k && (forall x :: x in kept ==> x < k + m) ==>
              |Yielding(k, m, kept)| == Factorial(m)
  {
    hide Draws;
    hide Retaining;
    hide Yielding;
    forall j | 0 <= j < k + m ensures |Retaining(k, m, j)| * (k + m) == k * |Draws(k, m)| {
      EveryPositionEquallyLikely(k, m, j);
    }
    forall kept: set<nat> | |kept| == k && (forall x :: x in kept ==> x < k + m)
      ensures |Yielding(k, m, kept)| == Factorial(m)
    {
      EverySubsetEquallyLikely(k, m, kept);
    }
  }

  lemma NoItems()
    ensures Items([]) == [] && Pixels([]) == []
  {
  }

  /** What reading one part more adds, and that an unusable part ends the reading. */
  lemma ReadStep(all: seq<Item>, before: seq<Item>, part: seq<Item>, rest: seq<Item>)
    requires all == before + part + rest && AllUsable(before)
    ensures Images(before + part) == Images(before) + Images(part)
    ensures Pixels(before + part) == Pixels(before) + Pixels(part)
    ensures AllUsable(before + part) <==> AllUsable(part)
    ensures !AllUsable(part) ==> !AllUsable(all) && Images(all) == Images(before) + Images(part)
                                 && Pixels(all) == Pixels(before) + Pixels(part)
    ensures |Pixels(before)| + |part| <= |all|
  {
    hide Images;
    hide Pixels;
    hide AllUsable;
    ReadAppend(before, part);
    ReadAppend(before + part, rest);
  }

  lemma LineStep(line: seq<Float>, c: nat)
    requires c < |line| && AllUsable(LineItems(line[..c]))
    ensures var before, after := LineItems(line[..c]), LineItems(line[..c + 1]);
            && (line[c].Finite? ==> AllUsable(after) && Pixels(after) == Pixels(before) + [line[c].value])
            && (line[c].NonFinite? ==>
                !AllUsable(LineItems(line)) && Pixels(LineItems(line)) == Pixels(before))
  {
    var before := LineItems(line[..c]);
    assert LineItems(line[..c + 1]) == before + [Pixel(line[c])];
    assert LineItems(line) == before + [Pixel(line[c])] + LineItems(line[c + 1..]);
    hide Images;
    hide Pixels;
    hide AllUsable;
    ReadStep(LineItems(line), before, [Pixel(line[c])], LineItems(line[c + 1..]));
  }

  lemma MapStep(lines: seq<seq<Float>>, r: nat)
    requires r < |lines| && AllUsable(MapItems(lines[..r]))
    ensures var before, line, after := MapItems(lines[..r]), LineItems(lines[r]), MapItems(lines[..r + 1]);
            && Images(after) == Images(before) && Pixels(after) == Pixels(before) + Pixels(line)
            && (AllUsable(after) <==> AllUsable(line))
            && |Pixels(before)| + |line| <= |MapItems(lines)|
            && (!AllUsable(line) ==>
                !AllUsable(MapItems(lines)) && Images(MapItems(lines)) == Images(before)
                && Pixels(MapItems(lines)) == Pixels(before) + Pixels(line))
  {
    assert lines[..r + 1][..r] == lines[..r];
    var rest := MapPrefix(lines, r + 1);
    hide Images;
    hide Pixels;
    hide AllUsable;
    NoImages(lines[r]);
    ReadStep(MapItems(lines), MapItems(lines[..r]), LineItems(lines[r]), rest);
  }

  lemma BatchStep(batch: seq<Prediction>, p: nat)
    requires p < |batch| && AllUsable(Items(batch[..p]))
    ensures var before, items, after := Items(batch[..p]), PredictionItems(batch[p]), Items(batch[..p + 1]);
            && Images(after) == Images(before) + Images(items) && Pixels(after) == Pixels(before) + Pixels(items)
            && (AllUsable(after) <==> AllUsable(items))
            && |Pixels(before)| + |items| <= |Items(batch)|
            && (!AllUsable(items) ==>
                !AllUsable(Items(batch)) && Images(Items(batch)) == Images(before) + Images(items)
                && Pixels(Items(batch)) == Pixels(before) + Pixels(items))
  {
    assert batch[..p + 1][..p] == batch[..p];
    var rest := BatchPrefix(batch, p + 1);
    hide Images;
    hide Pixels;
    hide AllUsable;
    hide PredictionItems;
    ReadStep(Items(batch), Items(batch[..p]), PredictionItems(batch[p]), rest);
  }

  lemma {:induction false} NoImages(line: seq<Float>)
    ensures Images(LineItems(line)) == []
  {
    if |line| > 0 {
      NoImages(line[1..]);
      assert LineItems(line)[1..] == LineItems(line[1..]);
    }
  }

  lemma OneImage(score: Float)
    ensures Images([Image(score)]) == if score.Finite? then [score.value] else []
    ensures Pixels([Image(score)]) == []
    ensures AllUsable([Image(score)]) <==> score.Finite?
  {
  }

  lemma Empty()
    ensures AllUsable([]) && Images([]) == [] && Pixels([]) == []
  {
  }

  // ---- ranges and thresholds ----

  datatype Calibration = Calibration(
    sampleCount: nat,
    imageMin: real, imageMax: real, imageThreshold: real,
    pixelMin: real, pixelMax: real, pixelThreshold: real,
    hasPixelStatistics: bool)

  function CountAbove(values: seq<real>, r: real): nat {
    if |values| == 0 then 0 else CountAbove(values[1..], r) + if values[0] > r then 1 else 0
  }

  function CountFrom(values: seq<real>, r: real): nat {
    if |values| == 0 then 0 else CountFrom(values[1..], r) + if values[0] >= r then 1 else 0
  }

  /** How many of `n` values a false positive rate lets through. */
  function Quota(n: nat, rate: real): real {
    rate * (n as real - 1.0)
  }

  /**
   * The threshold at a false positive rate: the one value with fewer than rate * (n - 1) + 1 values above
   * it, and at least as many at or above it.
   */
  ghost predicate IsThreshold(values: seq<real>, rate: real, r: real)
  {
    && r in values
    && CountAbove(values, r) as real < Quota(|values|, rate) + 1.0
    && CountFrom(values, r) as real >= Quota(|values|, rate) + 1.0
  }

  lemma {:induction false} CountsOrdered(values: seq<real>, low: real, high: real)
    requires low < high
    ensures CountAbove(values, low) >= CountFrom(values, high)
  {
    if |values| > 0 {
      CountsOrdered(values[1..], low, high);
    }
  }

  /** The rate and the values leave no choice of the threshold. */
  lemma ThresholdUnique(values: seq<real>, rate: real, r: real, s: real)
    requires IsThreshold(values, rate, r) && IsThreshold(values, rate, s)
    ensures r == s
  {
    hide Quota;
    hide CountAbove;
    hide CountFrom;
    if r < s {
      CountsOrdered(values, r, s);
    } else if s < r {
      CountsOrdered(values, s, r);
    }
  }

  /**
   * The range of the values: from the least to the greatest; where all coincide, widened on both sides by
   * the larger of one millionth and one millionth of the value.
   */
  ghost predicate IsRange(values: seq<real>, low: real, high: real)
  {
    && low < high
    && (forall x :: x in values ==> low <= x <= high)
    && ((low in values && high in values)
        || forall x :: x in values ==>
             && x - low == high - x
             && x - low >= 0.000001 && x - low >= 0.000001 * x && x - low >= -0.000001 * x
             && (x - low == 0.000001 || x - low == 0.000001 * x || x - low == -0.000001 * x))
  }

  predicate Ascending(values: seq<real>) {
    forall i, j :: 0 <= i < j < |values| ==> values[i] <= values[j]
  }

  function Insert(sorted: seq<real>, x: real): (r: seq<real>) {
    if |sorted| == 0 || x <= sorted[0] then [x] + sorted else [sorted[0]] + Insert(sorted[1..], x)
  }

  lemma {:induction false} InsertSorts(sorted: seq<real>, x: real)
    requires Ascending(sorted)
    ensures Ascending(Insert(sorted, x)) && |Insert(sorted, x)| == |sorted| + 1
    ensures forall y :: y in Insert(sorted, x) <==> y == x || y in sorted
  {
    if |sorted| > 0 && x > sorted[0] {
      InsertSorts(sorted[1..], x);
      assert sorted == [sorted[0]] + sorted[1..];
      var rest := Insert(sorted[1..], x);
      forall i | 0 <= i < |rest| ensures sorted[0] <= rest[i] {
        assert rest[i] in rest;
      }
    }
  }

  lemma {:induction false} InsertCounts(sorted: seq<real>, x: real, r: real)
    ensures CountAbove(Insert(sorted, x), r) == CountAbove(sorted, r) + if x > r then 1 else 0
    ensures CountFrom(Insert(sorted, x), r) == CountFrom(sorted, r) + if x >= r then 1 else 0
  {
    if |sorted| > 0 && x > sorted[0] {
      InsertCounts(sorted[1..], x, r);
      assert Insert(sorted, x)[1..] == Insert(sorted[1..], x);
    } else {
      assert Insert(sorted, x)[1..] == sorted;
    }
  }

  function SortedValues(values: seq<real>): seq<real> {
    if |values| == 0 then [] else Insert(SortedValues(values[1..]), values[0])
  }

  lemma {:induction false} Sorts(values: seq<real>, r: real)
    ensures Ascending(SortedValues(values)) && |SortedValues(values)| == |values|
    ensures forall y :: y in SortedValues(values) <==> y in values
    ensures CountAbove(SortedValues(values), r) == CountAbove(values, r)
    ensures CountFrom(SortedValues(values), r) == CountFrom(values, r)
  {
    if |values| > 0 {
      Sorts(values[1..], r);
      InsertSorts(SortedValues(values[1..]), values[0]);
      InsertCounts(SortedValues(values[1..]), values[0], r);
      assert values == [values[0]] + values[1..];
    }
  }

  /** In sorted values the position bounds how many values lie above or at it. */
  lemma {:induction false} SortedCounts(sorted: seq<real>, index: nat)
    requires Ascending(sorted) && index < |sorted|
    ensures CountAbove(sorted, sorted[index]) <= |sorted| - 1 - index
    ensures CountFrom(sorted, sorted[index]) >= |sorted| - index
  {
    if index > 0 {
      SortedCounts(sorted[1..], index - 1);
    } else {
      CountsAtMost(sorted[1..], sorted[0]);
    }
  }

  lemma {:induction false} CountsAtMost(values: seq<real>, r: real)
    requires forall i :: 0 <= i < |values| ==> values[i] >= r
    ensures CountAbove(values, r) <= |values| && CountFrom(values, r) == |values|
  {
    if |values| > 0 {
      CountsAtMost(values[1..], r);
    }
  }

  lemma Part(q: real, span: real)
    requires 0.0 < q < 1.0 && span >= 0.0
    ensures 0.0 <= q * span <= span && (1.0 - q) * span == span - q * span
  {
  }

  /** The position of the quantile among `n` sorted values. */
  function QuantileIndex(n: nat, rate: real): (index: nat)
    requires n > 0 && 0.0 < rate < 1.0
    ensures index < n
    ensures (n - 1 - index) as real < Quota(n, rate) + 1.0
    ensures (n - index) as real >= Quota(n, rate) + 1.0
  {
    var span := n as real - 1.0;
    Part(1.0 - rate, span);
    ((1.0 - rate) * span).Floor
  }

  method Quantile(values: seq<real>, rate: real) returns (r: real)
    requires |values| > 0 && 0.0 < rate < 1.0
    ensures IsThreshold(values, rate, r)
  {
    hide QuantileIndex;
    hide Quota;
    var sorted := SortedValues(values);
    Sorts(values, 0.0);
    var index := QuantileIndex(|values|, rate);
    r := sorted[index];
    assert r in sorted;
    Sorts(values, r);
    SortedCounts(sorted, index);
  }

  method RangeOf(values: seq<real>) returns (low: real, high: real)
    requires |values| > 0
    ensures IsRange(values, low, high)
  {
    low, high := values[0], values[0];
    for i := 1 to |values|
      invariant low <= high && low in values && high in values
      invariant forall j :: 0 <= j < i ==> low <= values[j] <= high
    {
      low := if values[i] < low then values[i] else low;
      high := if values[i] > high then values[i] else high;
    }
    if high <= low {
      var scaled := (if low < 0.0 then -low else low) * 0.000001;
      var delta := if scaled < 0.000001 then 0.000001 else scaled;
      low, high := low - delta, high + delta;
    }
  }
}
