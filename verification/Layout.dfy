/** Feature tensors in NCHW order: joining channels, selecting channels, and flattening into patches. */
module Layout {
  import opened Numbers
  import Vectors

  // ---- positions ----

  /** Position `j` of block `i`, for blocks of a size. */
  function Cell(i: nat, size: nat, j: nat): nat {
    i * size + j
  }

  lemma CellInside(i: nat, size: nat, j: nat, blocks: nat)
    requires i < blocks && j < size
    ensures Cell(i, size, j) < blocks * size
  {
    Vectors.MultiplesApart(i, blocks, size);
  }

  lemma CellUnique(i: nat, size: nat, j: nat, k: nat, l: nat)
    requires j < size && l < size && Cell(i, size, j) == Cell(k, size, l)
    ensures i == k && j == l
  {
    Vectors.QuotientUnique(size, i, j, k, l);
  }

  lemma CellSplit(m: nat, size: nat)
    requires size > 0
    ensures m % size < size && Cell(m / size, size, m % size) == m
  {
  }

  lemma BlockInside(m: nat, size: nat, blocks: nat)
    requires size > 0 && m < blocks * size
    ensures m / size < blocks
  {
    if m / size >= blocks {
      Vectors.MultiplesApart(blocks, m / size + 1, size);
      Vectors.Distributes(m / size, 1, size);
    }
  }

  // ---- tensors ----

  datatype Tensor = Tensor(float32: bool, dims: seq<int>, data: seq<real>)

  datatype Nchw = Nchw(batch: nat, channels: nat, height: nat, width: nat, data: seq<real>)
  {
    function Locations(): nat {
      height * width
    }

    predicate Valid() {
      |data| == batch * channels * Locations()
    }

    /** The value of a channel of an image at a location. */
    function At(n: nat, c: nat, l: nat): real
      requires Valid() && n < batch && c < channels && l < Locations()
    {
      CellInside(n, channels, c, batch);
      CellInside(Cell(n, channels, c), Locations(), l, batch * channels);
      data[Cell(Cell(n, channels, c), Locations(), l)]
    }
  }

  /** Four positive dimensions, and as many values as they say. */
  predicate Shaped(t: Tensor) {
    && |t.dims| == 4 && (forall k :: 0 <= k < 4 ==> 0 < t.dims[k] <= INT_MAX)
    && |t.data| == t.dims[0] * t.dims[1] * t.dims[2] * t.dims[3]
  }

  /** Where a value stands by image, channel, row and column: the last varies fastest. */
  function Index(channels: nat, height: nat, width: nat, n: nat, c: nat, y: nat, x: nat): int {
    ((n * channels + c) * height + y) * width + x
  }

  /** The value at an image, channel, row and column of a tensor. */
  function Value(t: Tensor, n: nat, c: nat, y: nat, x: nat): real
    requires Shaped(t) && n < t.dims[0] && c < t.dims[1] && y < t.dims[2] && x < t.dims[3]
  {
    IndexInside(t.dims[0], t.dims[1], t.dims[2], t.dims[3], n, c, y, x);
    t.data[Index(t.dims[1], t.dims[2], t.dims[3], n, c, y, x)]
  }

  lemma IndexInside(batch: nat, channels: nat, height: nat, width: nat, n: nat, c: nat, y: nat, x: nat)
    requires n < batch && c < channels && y < height && x < width
    ensures 0 <= Index(channels, height, width, n, c, y, x) < batch * channels * height * width
    ensures Cell(y, width, x) < height * width
    ensures Cell(Cell(n, channels, c), height * width, Cell(y, width, x)) == Index(channels, height, width, n, c, y, x)
  {
    var plane := Cell(n, channels, c);
    CellInside(n, channels, c, batch);
    CellInside(plane, height, y, batch * channels);
    CellInside(Cell(plane, height, y), width, x, batch * channels * height);
    CellInside(y, width, x, height);
    Vectors.Distributes(plane * height, y, width);
    assert plane * (height * width) == plane * height * width;
  }

  function View(t: Tensor): (r: Result<Nchw>)
    ensures r.Ok? <==> t.float32 && Shaped(t)
    ensures r.Err? ==> r.error == if t.float32 then TensorShapeMismatch else TensorTypeMismatch
    ensures r.Ok? ==>
              && r.value.Valid() && r.value.Locations() > 0 && r.value.data == t.data
              && [r.value.batch, r.value.channels, r.value.height, r.value.width] == t.dims
  {
    if !t.float32 then Err(TensorTypeMismatch)
    else if |t.dims| != 4 || exists k :: 0 <= k < 4 && !(0 < t.dims[k] <= INT_MAX) then Err(TensorShapeMismatch)
    else
      var v := Nchw(t.dims[0], t.dims[1], t.dims[2], t.dims[3], t.data);
      Positive(v.height, v.width);
      Regroup(v.batch * v.channels, v.height, v.width);
      if v.Valid() then Ok(v) else Err(TensorShapeMismatch)
  }

  lemma Positive(a: nat, b: nat)
    requires a > 0 && b > 0
    ensures a * b > 0
  {
  }

  lemma Regroup(a: nat, b: nat, c: nat)
    ensures a * (b * c) == a * b * c
  {
  }

  /** The view of a tensor has its values. */
  lemma ViewValue(t: Tensor, n: nat, c: nat, y: nat, x: nat)
    requires View(t).Ok? && n < t.dims[0] && c < t.dims[1] && y < t.dims[2] && x < t.dims[3]
    ensures Cell(y, t.dims[3], x) < View(t).value.Locations()
    ensures View(t).value.At(n, c, Cell(y, t.dims[3], x)) == Value(t, n, c, y, x)
  {
    IndexInside(t.dims[0], t.dims[1], t.dims[2], t.dims[3], n, c, y, x);
  }

  /** Copies one block into a buffer, within the bounds of both. */
  method CopyBlock(target: array<real>, at: nat, source: seq<real>, from: nat, count: nat)
    requires at + count <= target.Length && from + count <= |source|
    modifies target
    ensures forall p :: 0 <= p < target.Length ==>
      target[p] == if at <= p < at + count then source[from + (p - at)] else old(target[p])
  {
    for k := 0 to count
      invariant forall p :: 0 <= p < target.Length ==>
        target[p] == if at <= p < at + k then source[from + (p - at)] else old(target[p])
    {
      target[at + k] := source[from + k];
    }
  }

  // ---- joining channels ----

  ghost predicate SameGrid(views: seq<Nchw>, batch: nat, height: nat, width: nat) {
    forall k :: 0 <= k < |views| ==>
      && views[k].Valid() && views[k].batch == batch && views[k].height == height && views[k].width == width
  }

  /** How many channels the layers before layer `k` have. */
  function Before(views: seq<Nchw>, k: nat): nat
    requires k <= |views|
  {
    if k == 0 then 0 else Before(views, k - 1) + views[k - 1].channels
  }

  lemma {:induction false} BeforeGrows(views: seq<Nchw>, k: nat, m: nat)
    requires k < m <= |views|
    ensures Before(views, k) + views[k].channels <= Before(views, m)
    decreases m
  {
    if k + 1 < m {
      BeforeGrows(views, k, m - 1);
    }
  }

  /** Where the value of a channel of layer `k` belongs in the joined buffer. */
  function Place(views: seq<Nchw>, channels: nat, n: nat, k: nat, c: nat, l: nat): nat
    requires k < |views|
  {
    Cell(Cell(n, channels, Before(views, k) + c), views[k].Locations(), l)
  }

  lemma PlaceInside(views: seq<Nchw>, channels: nat, n: nat, k: nat, c: nat, l: nat)
    requires k < |views| && channels == Before(views, |views|)
    requires n < views[k].batch && c < views[k].channels && l < views[k].Locations()
    ensures Before(views, k) + c < channels
    ensures Place(views, channels, n, k, c, l) < views[k].batch * channels * views[k].Locations()
  {
    BeforeGrows(views, k, |views|);
    CellInside(n, channels, Before(views, k) + c, views[k].batch);
    CellInside(Cell(n, channels, Before(views, k) + c), views[k].Locations(), l, views[k].batch * channels);
  }

  /** The values of an image in layer `k` stand at the layer's channels in the joined buffer. */
  ghost predicate LayerStands(views: seq<Nchw>, channels: nat, out: seq<real>, n: nat, k: nat)
    requires k < |views| && views[k].Valid() && n < views[k].batch
    requires channels == Before(views, |views|) && |out| == views[k].batch * channels * views[k].Locations()
  {
    forall c: nat, l: nat :: c < views[k].channels && l < views[k].Locations() ==>
      (PlaceInside(views, channels, n, k, c, l);
       out[Place(views, channels, n, k, c, l)] == views[k].At(n, c, l))
  }

  /** Where a layer of an image starts, and how many values it has. */
  function Start(views: seq<Nchw>, channels: nat, n: nat, k: nat): nat
    requires k < |views|
  {
    Cell(n, channels, Before(views, k)) * views[k].Locations()
  }

  function Size(v: Nchw): nat {
    v.channels * v.Locations()
  }

  /** A layer's block and its place in the source are where the loop copies them. */
  lemma BlockPlaces(views: seq<Nchw>, channels: nat, n: nat, k: nat, c: nat, l: nat)
    requires k < |views| && views[k].Valid()
    requires n < views[k].batch && c < views[k].channels && l < views[k].Locations()
    ensures var p, j := Place(views, channels, n, k, c, l), Cell(c, views[k].Locations(), l);
              && p == Start(views, channels, n, k) + j && j < Size(views[k])
              && Cell(Cell(n, views[k].channels, c), views[k].Locations(), l) == n * Size(views[k]) + j
  {
    var locations := views[k].Locations();
    CellInside(c, locations, l, views[k].channels);
    Vectors.Distributes(Cell(n, channels, Before(views, k)), c, locations);
    Vectors.Distributes(n * views[k].channels, c, locations);
    assert n * views[k].channels * locations == n * (views[k].channels * locations);
  }

  lemma BlockBounds(views: seq<Nchw>, channels: nat, n: nat, k: nat)
    requires k < |views| && views[k].Valid() && n < views[k].batch && channels == Before(views, |views|)
    ensures Start(views, channels, n, k) + Size(views[k]) <= views[k].batch * channels * views[k].Locations()
    ensures n * Size(views[k]) + Size(views[k]) <= |views[k].data|
  {
    var v := views[k];
    BeforeGrows(views, k, |views|);
    Vectors.MultiplesApart(n, v.batch, channels);
    BlockEnds(Cell(n, channels, Before(views, k)), v.channels, v.batch * channels, v.Locations());
    Vectors.MultiplesApart(n, v.batch, Size(v));
    assert v.batch * v.channels * v.Locations() == v.batch * Size(v);
  }

  lemma BlockEnds(start: nat, count: nat, blocks: nat, size: nat)
    requires start + count <= blocks
    ensures start * size + count * size <= blocks * size
  {
    Vectors.Distributes(start, count, size);
    Vectors.Distributes(start + count, blocks - start - count, size);
    Vectors.ProductNonNegative(blocks - start - count, size);
  }

  /** An earlier layer's values lie before a later block, in the same image or a later one. */
  lemma BlocksInOrder(views: seq<Nchw>, channels: nat, m: nat, j: nat, n: nat, k: nat, c: nat, l: nat)
    requires j < |views| && k < |views| && channels == Before(views, |views|)
    requires views[j].Locations() == views[k].Locations()
    requires c < views[j].channels && l < views[j].Locations()
    requires m < n || (m == n && j < k)
    ensures Place(views, channels, m, j, c, l) < Start(views, channels, n, k)
  {
    BeforeGrows(views, j, |views|);
    if m < n {
      Vectors.MultiplesApart(m, n, channels);
    } else {
      BeforeGrows(views, j, k);
    }
    var earlier, later := Cell(m, channels, Before(views, j) + c), Cell(n, channels, Before(views, k));
    CellInside(earlier, views[j].Locations(), l, later);
  }

  /** Copying a layer's block puts the layer in its place. */
  lemma LayerCopied(views: seq<Nchw>, channels: nat, before: seq<real>, out: seq<real>, n: nat, k: nat)
    requires k < |views| && views[k].Valid() && n < views[k].batch && channels == Before(views, |views|)
    requires |out| == |before| == views[k].batch * channels * views[k].Locations()
    requires var start, size := Start(views, channels, n, k), Size(views[k]);
               && start + size <= |out| && n * size + size <= |views[k].data|
               && forall p :: 0 <= p < |out| ==>
                    out[p] == if start <= p < start + size then views[k].data[n * size + (p - start)] else before[p]
    ensures LayerStands(views, channels, out, n, k)
  {
    forall c: nat, l: nat | c < views[k].channels && l < views[k].Locations()
      ensures Place(views, channels, n, k, c, l) < |out|
      ensures out[Place(views, channels, n, k, c, l)] == views[k].At(n, c, l)
    {
      PlaceInside(views, channels, n, k, c, l);
      BlockPlaces(views, channels, n, k, c, l);
    }
  }

  /** Layers copied earlier stay in place. */
  lemma LayerStays(views: seq<Nchw>, channels: nat, before: seq<real>, out: seq<real>, m: nat, j: nat, n: nat, k: nat)
    requires j < |views| && k < |views| && views[j].Valid() && m < views[j].batch && channels == Before(views, |views|)
    requires views[j].Locations() == views[k].Locations() && (m < n || (m == n && j < k))
    requires |out| == |before| == views[j].batch * channels * views[j].Locations()
    requires LayerStands(views, channels, before, m, j)
    requires forall p :: 0 <= p < |out| && p < Start(views, channels, n, k) ==> out[p] == before[p]
    ensures LayerStands(views, channels, out, m, j)
  {
    forall c: nat, l: nat | c < views[j].channels && l < views[j].Locations()
      ensures Place(views, channels, m, j, c, l) < |out|
      ensures out[Place(views, channels, m, j, c, l)] == views[j].At(m, c, l)
    {
      PlaceInside(views, channels, m, j, c, l);
      BlocksInOrder(views, channels, m, j, n, k, c, l);
    }
  }

  /** All layers of all images stand in the joined tensor, at their channels. */
  ghost predicate Joins(views: seq<Nchw>, joined: Nchw) {
    && joined.Valid() && SameGrid(views, joined.batch, joined.height, joined.width)
    && joined.channels == Before(views, |views|)
    && forall n: nat, k: nat :: n < joined.batch && k < |views| ==>
         LayerStands(views, joined.channels, joined.data, n, k)
  }

  /** What stops a tensor from being joined with the first. */
  function Problem(inputs: seq<Tensor>, k: nat): Option<Error>
    requires k < |inputs| && View(inputs[0]).Ok?
  {
    match View(inputs[k])
    case Err(e) => Some(e)
    case Ok(v) =>
      var first := View(inputs[0]).value;
      if v.batch != first.batch || v.height != first.height || v.width != first.width then Some(TensorShapeMismatch)
      else None
  }

  /** The first problem among the tensors. */
  ghost predicate FirstProblem(inputs: seq<Tensor>, k: nat, e: Error)
    requires k < |inputs| && View(inputs[0]).Ok?
  {
    Problem(inputs, k) == Some(e) && forall j :: 0 <= j < k ==> Problem(inputs, j) == None
  }

  method ViewAll(inputs: seq<Tensor>) returns (views: Result<seq<Nchw>>, channels: nat)
    requires inputs != [] && View(inputs[0]).Ok?
    ensures views.Ok? ==>
              && |views.value| == |inputs| && channels == Before(views.value, |inputs|)
              && (forall k :: 0 <= k < |inputs| ==> View(inputs[k]) == Ok(views.value[k]))
              && SameGrid(views.value, views.value[0].batch, views.value[0].height, views.value[0].width)
    ensures views.Err? ==> exists k :: 0 <= k < |inputs| && FirstProblem(inputs, k, views.error)
  {
    var first := View(inputs[0]).value;
    channels := 0;
    var all: seq<Nchw> := [];
    for i := 0 to |inputs|
      invariant |all| == i && channels == Before(all, i) && SameGrid(all, first.batch, first.height, first.width)
      invariant forall k :: 0 <= k < i ==> View(inputs[k]) == Ok(all[k]) && Problem(inputs, k) == None
    {
      var view := View(inputs[i]);
      if view.Err? {
        assert FirstProblem(inputs, i, view.error);
        return Err(view.error), 0;
      }
      if view.value.batch != first.batch || view.value.height != first.height || view.value.width != first.width {
        assert FirstProblem(inputs, i, TensorShapeMismatch);
        return Err(TensorShapeMismatch), 0;
      }
      BeforeAppend(all, view.value, i);
      channels := channels + view.value.channels;
      all := all + [view.value];
    }
    views := Ok(all);
  }

  lemma {:induction false} BeforeAppend(views: seq<Nchw>, last: Nchw, k: nat)
    requires k <= |views|
    ensures Before(views + [last], k) == Before(views, k)
    decreases k
  {
    if k > 0 {
      BeforeAppend(views, last, k - 1);
    }
  }

  /** Copies the block of every layer of every image; each copy stays within both buffers. */
  method CopyLayers(views: seq<Nchw>, channels: nat, batch: nat, height: nat, width: nat) returns (out: array<real>)
    requires SameGrid(views, batch, height, width) && channels == Before(views, |views|)
    ensures fresh(out) && out.Length == batch * channels * (height * width)
    ensures forall n: nat, k: nat :: n < batch && k < |views| ==> LayerStands(views, channels, out[..], n, k)
  {
    var planes := height * width;
    Vectors.ProductNonNegative(batch, channels);
    Vectors.ProductNonNegative(batch * channels, planes);
    out := new real[batch * channels * planes](_ => 0.0);
    for n := 0 to batch
      invariant forall m: nat, j: nat :: m < n && j < |views| ==> LayerStands(views, channels, out[..], m, j)
    {
      var channelOffset := 0;
      for k := 0 to |views|
        invariant channelOffset == Before(views, k)
        invariant forall m: nat, j: nat :: (m < n && j < |views|) || (m == n && j < k) ==>
          LayerStands(views, channels, out[..], m, j)
      {
        ghost var before := out[..];
        var view := views[k];
        BlockBounds(views, channels, n, k);
        CopyBlock(out, (n * channels + channelOffset) * planes, view.data, n * (view.channels * planes),
                  view.channels * planes);
        LayerCopied(views, channels, before, out[..], n, k);
        forall m: nat, j: nat | (m < n && j < |views|) || (m == n && j < k)
          ensures LayerStands(views, channels, out[..], m, j)
        {
          LayerStays(views, channels, before, out[..], m, j, n, k);
        }
        channelOffset := channelOffset + view.channels;
      }
    }
  }

  /** How many channels the tensors before tensor `k` have. */
  function ChannelsBefore(inputs: seq<Tensor>, k: nat): int
    requires k <= |inputs| && forall j :: 0 <= j < |inputs| ==> Shaped(inputs[j])
  {
    if k == 0 then 0 else ChannelsBefore(inputs, k - 1) + inputs[k - 1].dims[1]
  }

  /** The tensors have one batch size and one grid, and the joined one has all their channels. */
  ghost predicate JoinedShape(inputs: seq<Tensor>, joined: Nchw) {
    && joined.Valid()
    && (forall k :: 0 <= k < |inputs| ==>
          && Shaped(inputs[k])
          && [joined.batch, inputs[k].dims[1], joined.height, joined.width] == inputs[k].dims)
    && joined.channels == ChannelsBefore(inputs, |inputs|)
  }

  /** The joined tensor has the values of tensor `k` at its channels. */
  ghost predicate HasLayer(inputs: seq<Tensor>, joined: Nchw, k: nat)
    requires JoinedShape(inputs, joined) && k < |inputs|
  {
    forall n: nat, c: nat, y: nat, x: nat {:trigger Value(inputs[k], n, c, y, x)} ::
      n < joined.batch && c < inputs[k].dims[1] && y < joined.height && x < joined.width ==>
        HasValue(joined, n, ChannelsBefore(inputs, k) + c, y, x, Value(inputs[k], n, c, y, x))
  }

  /** The value at an image, channel, row and column of a feature tensor. */
  predicate HasValue(t: Nchw, n: nat, c: int, y: nat, x: nat, value: real)
    requires t.Valid() && n < t.batch && y < t.height && x < t.width
  {
    && 0 <= c < t.channels
    && (IndexInside(t.batch, t.channels, t.height, t.width, n, c, y, x);
        Regroup(t.batch * t.channels, t.height, t.width);
        t.data[Index(t.channels, t.height, t.width, n, c, y, x)] == value)
  }

  lemma {:induction false} BeforeIs(inputs: seq<Tensor>, views: seq<Nchw>, k: nat)
    requires IsView(inputs, views) && k <= |inputs|
    ensures ChannelsBefore(inputs, k) == Before(views, k)
    decreases k
  {
    if k > 0 {
      BeforeIs(inputs, views, k - 1);
    }
  }

  /** What stands in the joined tensor, in terms of the tensors that were joined. */
  lemma JoinedValues(inputs: seq<Tensor>, views: seq<Nchw>, joined: Nchw)
    requires IsView(inputs, views) && Joins(views, joined)
    ensures JoinedShape(inputs, joined) && forall k: nat :: k < |inputs| ==> HasLayer(inputs, joined, k)
  {
    BeforeIs(inputs, views, |inputs|);
    forall k: nat | k < |inputs| ensures HasLayer(inputs, joined, k) {
      BeforeIs(inputs, views, k);
      forall n: nat, c: nat, y: nat, x: nat
        | n < joined.batch && c < inputs[k].dims[1] && y < joined.height && x < joined.width
        ensures HasValue(joined, n, ChannelsBefore(inputs, k) + c, y, x, Value(inputs[k], n, c, y, x))
      {
        JoinedValue(inputs, views, joined, k, n, c, y, x);
      }
    }
  }

  lemma JoinedValue(inputs: seq<Tensor>, views: seq<Nchw>, joined: Nchw, k: nat, n: nat, c: nat, y: nat, x: nat)
    requires IsView(inputs, views) && Joins(views, joined) && k < |inputs|
    requires n < joined.batch && c < views[k].channels && y < joined.height && x < joined.width
    ensures HasValue(joined, n, Before(views, k) + c, y, x, Value(inputs[k], n, c, y, x))
  {
    hide Cell;
    hide Index;
    hide Value;
    hide Before;
    hide View;
    hide Nchw.At;
    var l := Cell(y, joined.width, x);
    ViewValue(inputs[k], n, c, y, x);
    PlaceInside(views, joined.channels, n, k, c, l);
    assert LayerStands(views, joined.channels, joined.data, n, k);
    IndexInside(joined.batch, joined.channels, joined.height, joined.width, n, Before(views, k) + c, y, x);
  }

  method ConcatenateChannels(inputs: seq<Tensor>) returns (r: Result<Nchw>)
    ensures inputs == [] ==> r == Err(InvalidArgument)
    ensures inputs != [] && View(inputs[0]).Err? ==> r == Err(View(inputs[0]).error)
    ensures inputs != [] && View(inputs[0]).Ok? && r.Err? ==>
              exists k :: 0 <= k < |inputs| && FirstProblem(inputs, k, r.error)
    ensures r.Ok? ==> exists views :: IsView(inputs, views) && Joins(views, r.value)
    ensures r.Ok? ==>
              JoinedShape(inputs, r.value) && forall k: nat :: k < |inputs| ==> HasLayer(inputs, r.value, k)
  {
    if inputs == [] {
      return Err(InvalidArgument);
    }
    var first := View(inputs[0]);
    if first.Err? {
      return Err(first.error);
    }
    var views, channels := ViewAll(inputs);
    if views.Err? {
      return Err(views.error);
    }
    var v := views.value[0];
    var out := CopyLayers(views.value, channels, v.batch, v.height, v.width);
    r := Ok(Nchw(v.batch, channels, v.height, v.width, out[..]));
    JoinedValues(inputs, views.value, r.value);
  }

  ghost predicate IsView(inputs: seq<Tensor>, views: seq<Nchw>) {
    |views| == |inputs| && forall k :: 0 <= k < |inputs| ==> View(inputs[k]) == Ok(views[k])
  }

  // ---- selecting channels ----

  /** Where a value of a selected channel belongs. */
  lemma SelectedInside(batch: nat, count: nat, planes: nat, n: nat, c: nat, l: nat)
    requires n < batch && c < count && l < planes
    ensures Cell(Cell(n, count, c), planes, l) < batch * count * planes
  {
    CellInside(n, count, c, batch);
    CellInside(Cell(n, count, c), planes, l, batch * count);
  }

  /** Channel `c` of an image in the buffer is the source's channel `selected`. */
  ghost predicate ChannelStands(source: Nchw, out: seq<real>, count: nat, n: nat, c: nat, selected: nat)
    requires source.Valid() && n < source.batch && c < count && selected < source.channels
    requires |out| == source.batch * count * source.Locations()
  {
    forall l: nat :: l < source.Locations() ==>
      (SelectedInside(source.batch, count, source.Locations(), n, c, l);
       out[Cell(Cell(n, count, c), source.Locations(), l)] == source.At(n, selected, l))
  }

  lemma ChannelBounds(batch: nat, count: nat, planes: nat, n: nat, c: nat)
    requires n < batch && c < count
    ensures Cell(n, count, c) * planes + planes <= batch * count * planes
  {
    CellInside(n, count, c, batch);
    BlockEnds(Cell(n, count, c), 1, batch * count, planes);
  }

  lemma ChannelCopied(source: Nchw, before: seq<real>, out: seq<real>, count: nat, n: nat, c: nat, selected: nat)
    requires source.Valid() && n < source.batch && c < count && selected < source.channels
    requires |out| == |before| == source.batch * count * source.Locations()
    requires var planes := source.Locations(); var at, from := Cell(n, count, c) * planes,
               Cell(n, source.channels, selected) * planes;
               && at + planes <= |out| && from + planes <= |source.data|
               && forall p :: 0 <= p < |out| ==>
                    out[p] == if at <= p < at + planes then source.data[from + (p - at)] else before[p]
    ensures ChannelStands(source, out, count, n, c, selected)
  {
    forall l: nat | l < source.Locations()
      ensures Cell(Cell(n, count, c), source.Locations(), l) < |out|
      ensures out[Cell(Cell(n, count, c), source.Locations(), l)] == source.At(n, selected, l)
    {
      SelectedInside(source.batch, count, source.Locations(), n, c, l);
    }
  }

  lemma ChannelStays(source: Nchw, before: seq<real>, out: seq<real>, count: nat, m: nat, d: nat, selected: nat,
                     n: nat, c: nat)
    requires source.Valid() && m < source.batch && d < count && n < source.batch && c < count
    requires selected < source.channels && (m != n || d != c)
    requires |out| == |before| == source.batch * count * source.Locations()
    requires ChannelStands(source, before, count, m, d, selected)
    requires var at := Cell(n, count, c) * source.Locations();
               forall p :: 0 <= p < |out| && !(at <= p < at + source.Locations()) ==> out[p] == before[p]
    ensures ChannelStands(source, out, count, m, d, selected)
  {
    var planes := source.Locations();
    forall l: nat | l < planes
      ensures Cell(Cell(m, count, d), planes, l) < |out|
      ensures out[Cell(Cell(m, count, d), planes, l)] == source.At(m, selected, l)
    {
      SelectedInside(source.batch, count, planes, m, d, l);
      var p, at := Cell(Cell(m, count, d), planes, l), Cell(n, count, c) * planes;
      if at <= p < at + planes {
        CellUnique(Cell(m, count, d), planes, l, Cell(n, count, c), p - at);
        CellUnique(m, count, d, n, c);
      }
    }
  }

  ghost predicate Selects(source: Nchw, indices: seq<int>, selected: Nchw) {
    && source.Valid() && selected.Valid() && selected.channels == |indices|
    && selected.batch == source.batch && selected.height == source.height && selected.width == source.width
    && (forall c :: 0 <= c < |indices| ==> 0 <= indices[c] < source.channels)
    && forall n: nat, c: nat :: n < source.batch && c < |indices| ==>
         ChannelStands(source, selected.data, |indices|, n, c, indices[c])
  }

  /** The channels below `c`, and channel `c` of the images below `n`. */
  ghost predicate Copied(source: Nchw, indices: seq<int>, out: seq<real>, n: nat, c: nat)
    requires source.Valid() && |out| == source.batch * |indices| * source.Locations()
    requires forall d :: 0 <= d < |indices| && d <= c ==> 0 <= indices[d] < source.channels
  {
    forall m: nat, d: nat :: m < source.batch && d < |indices| && (d < c || (d == c && m < n)) ==>
      ChannelStands(source, out, |indices|, m, d, indices[d])
  }

  lemma CopiedOneMore(source: Nchw, indices: seq<int>, before: seq<real>, out: seq<real>, n: nat, c: nat)
    requires source.Valid() && n < source.batch && c < |indices|
    requires |out| == |before| == source.batch * |indices| * source.Locations()
    requires forall d :: 0 <= d < |indices| && d <= c ==> 0 <= indices[d] < source.channels
    requires Copied(source, indices, before, n, c)
    requires var planes := source.Locations();
             var at, from := Cell(n, |indices|, c) * planes, Cell(n, source.channels, indices[c]) * planes;
               && at + planes <= |out| && from + planes <= |source.data|
               && forall p :: 0 <= p < |out| ==>
                    out[p] == if at <= p < at + planes then source.data[from + (p - at)] else before[p]
    ensures Copied(source, indices, out, n + 1, c)
  {
    hide Cell;
    ChannelCopied(source, before, out, |indices|, n, c, indices[c]);
    forall m: nat, d: nat | m < source.batch && d < |indices| && (d < c || (d == c && m < n))
      ensures ChannelStands(source, out, |indices|, m, d, indices[d])
    {
      ChannelStays(source, before, out, |indices|, m, d, indices[d], n, c);
    }
  }

  /** Copies one channel of every image. */
  method CopyChannel(source: Nchw, indices: seq<int>, c: nat, out: array<real>)
    requires source.Valid() && out.Length == source.batch * |indices| * source.Locations()
    requires c < |indices| && forall d :: 0 <= d < |indices| && d <= c ==> 0 <= indices[d] < source.channels
    requires Copied(source, indices, out[..], 0, c)
    modifies out
    ensures Copied(source, indices, out[..], source.batch, c)
  {
    hide Copied;
    var planes, count, selected := source.height * source.width, |indices|, indices[c];
    for n := 0 to source.batch
      invariant Copied(source, indices, out[..], n, c)
    {
      ghost var before := out[..];
      ChannelBounds(source.batch, count, planes, n, c);
      ChannelBounds(source.batch, source.channels, planes, n, selected);
      CopyBlock(out, (n * count + c) * planes, source.data, (n * source.channels + selected) * planes, planes);
      CopiedOneMore(source, indices, before, out[..], n, c);
    }
  }

  /** The selected tensor has the values of the listed channels of the input. */
  ghost predicate HasChannels(input: Tensor, indices: seq<int>, selected: Nchw)
    requires Shaped(input)
  {
    && selected.Valid() && [selected.batch, input.dims[1], selected.height, selected.width] == input.dims
    && forall n: nat, c: nat, y: nat, x: nat {:trigger HasSelected(input, indices, selected, n, c, y, x)} ::
         n < selected.batch && c < |indices| && y < selected.height && x < selected.width ==>
           HasSelected(input, indices, selected, n, c, y, x)
  }

  ghost predicate HasSelected(input: Tensor, indices: seq<int>, selected: Nchw, n: nat, c: nat, y: nat, x: nat)
    requires Shaped(input) && selected.Valid()
    requires [selected.batch, input.dims[1], selected.height, selected.width] == input.dims
    requires n < selected.batch && c < |indices| && y < selected.height && x < selected.width
  {
    && 0 <= indices[c] < input.dims[1]
    && HasValue(selected, n, c, y, x, Value(input, n, indices[c], y, x))
  }

  lemma SelectedValues(input: Tensor, indices: seq<int>, selected: Nchw)
    requires View(input).Ok? && Selects(View(input).value, indices, selected)
    ensures HasChannels(input, indices, selected)
  {
    hide Cell;
    hide Index;
    hide Value;
    hide Selects;
    var source := View(input).value;
    SelectsShape(source, indices, selected);
    forall n: nat, c: nat, y: nat, x: nat
      | n < selected.batch && c < |indices| && y < selected.height && x < selected.width
      ensures HasSelected(input, indices, selected, n, c, y, x)
    {
      SelectedValue(input, indices, selected, n, c, y, x);
    }
  }

  lemma SelectsShape(source: Nchw, indices: seq<int>, selected: Nchw)
    requires Selects(source, indices, selected)
    ensures selected.Valid() && selected.channels == |indices|
    ensures selected.batch == source.batch && selected.height == source.height && selected.width == source.width
    ensures forall c :: 0 <= c < |indices| ==> 0 <= indices[c] < source.channels
  {
  }

  lemma SelectedValue(input: Tensor, indices: seq<int>, selected: Nchw, n: nat, c: nat, y: nat, x: nat)
    requires View(input).Ok? && Selects(View(input).value, indices, selected)
    requires n < selected.batch && c < |indices| && y < selected.height && x < selected.width
    ensures HasSelected(input, indices, selected, n, c, y, x)
  {
    hide Cell;
    hide Index;
    hide Value;
    var source := View(input).value;
    ViewValue(input, n, indices[c], y, x);
    IndexInside(selected.batch, selected.channels, selected.height, selected.width, n, c, y, x);
    assert ChannelStands(source, selected.data, |indices|, n, c, indices[c]);
    SelectedInside(source.batch, |indices|, source.Locations(), n, c, Cell(y, source.width, x));
  }

  method SelectChannels(input: Tensor, indices: seq<int>) returns (r: Result<Nchw>)
    ensures r.Ok? <==>
              && View(input).Ok? && indices != []
              && forall c :: 0 <= c < |indices| ==> 0 <= indices[c] < View(input).value.channels
    ensures r.Err? ==>
              r.error == if View(input).Err? then View(input).error
                         else if indices == [] then InvalidArgument else TensorShapeMismatch
    ensures r.Ok? ==> Selects(View(input).value, indices, r.value)
    ensures r.Ok? ==> r.value.channels == |indices| && HasChannels(input, indices, r.value)
  {
    var view := View(input);
    if view.Err? {
      return Err(view.error);
    }
    var source := view.value;
    if indices == [] {
      return Err(InvalidArgument);
    }
    var planes, count := source.height * source.width, |indices|;
    Vectors.ProductNonNegative(source.batch, count);
    Vectors.ProductNonNegative(source.batch * count, planes);
    var out := new real[source.batch * count * planes](_ => 0.0);
    for c := 0 to count
      invariant forall d :: 0 <= d < c ==> 0 <= indices[d] < source.channels
      invariant forall m: nat, d: nat :: m < source.batch && d < c ==>
        ChannelStands(source, out[..], count, m, d, indices[d])
    {
      if indices[c] < 0 || indices[c] >= source.channels {
        return Err(TensorShapeMismatch);
      }
      CopyChannel(source, indices, c, out);
    }
    r := Ok(Nchw(source.batch, count, source.height, source.width, out[..]));
    SelectedValues(input, indices, r.value);
  }

  // ---- patches ----

  /** Where the value of a channel at a location of an image belongs among the patches. */
  function PatchPlace(t: Nchw, n: nat, c: nat, l: nat): nat {
    Cell(Cell(n, t.Locations(), l), t.channels, c)
  }

  lemma PatchInside(t: Nchw, n: nat, c: nat, l: nat)
    requires n < t.batch && c < t.channels && l < t.Locations()
    ensures PatchPlace(t, n, c, l) < t.batch * t.Locations() * t.channels
  {
    CellInside(n, t.Locations(), l, t.batch);
    CellInside(Cell(n, t.Locations(), l), t.channels, c, t.batch * t.Locations());
  }

  /** The patches hold every value of the tensor at its place. */
  ghost predicate Flattens(t: Nchw, out: seq<real>)
    requires t.Valid()
  {
    && |out| == t.batch * t.Locations() * t.channels
    && forall n: nat, c: nat, l: nat :: n < t.batch && c < t.channels && l < t.Locations() ==>
         (PatchInside(t, n, c, l); out[PatchPlace(t, n, c, l)] == t.At(n, c, l))
  }

  predicate Earlier(t: Nchw, n: nat, c: nat, l: nat, m: nat, d: nat) {
    Cell(n, t.Locations(), l) < m || (Cell(n, t.Locations(), l) == m && c < d)
  }

  /** The first `m` patches and `d` values of the next are filled. */
  ghost predicate Filled(t: Nchw, out: seq<real>, m: nat, d: nat)
    requires t.Valid() && |out| == t.batch * t.Locations() * t.channels
  {
    forall n: nat, c: nat, l: nat ::
      n < t.batch && c < t.channels && l < t.Locations() && Earlier(t, n, c, l, m, d) ==>
        (PatchInside(t, n, c, l); out[PatchPlace(t, n, c, l)] == t.At(n, c, l))
  }

  lemma FilledOneMore(t: Nchw, before: seq<real>, out: seq<real>, n: nat, c: nat, l: nat)
    requires t.Valid() && |before| == |out| == t.batch * t.Locations() * t.channels
    requires n < t.batch && c < t.channels && l < t.Locations() && PatchPlace(t, n, c, l) < |out|
    requires Filled(t, before, Cell(n, t.Locations(), l), c)
    requires out == before[PatchPlace(t, n, c, l) := t.At(n, c, l)]
    ensures Filled(t, out, Cell(n, t.Locations(), l), c + 1)
  {
    var m := Cell(n, t.Locations(), l);
    forall i: nat, d: nat, j: nat
      | i < t.batch && d < t.channels && j < t.Locations() && Earlier(t, i, d, j, m, c + 1)
      ensures PatchPlace(t, i, d, j) < |out| && out[PatchPlace(t, i, d, j)] == t.At(i, d, j)
    {
      PatchInside(t, i, d, j);
      if PatchPlace(t, i, d, j) == PatchPlace(t, n, c, l) {
        SamePlace(t, i, d, j, n, c, l);
      } else if Cell(i, t.Locations(), j) == m {
        CellUnique(i, t.Locations(), j, n, l);
      }
    }
  }

  lemma SamePlace(t: Nchw, i: nat, d: nat, j: nat, n: nat, c: nat, l: nat)
    requires d < t.channels && j < t.Locations() && c < t.channels && l < t.Locations()
    requires PatchPlace(t, i, d, j) == PatchPlace(t, n, c, l)
    ensures i == n && d == c && j == l
  {
    CellUnique(Cell(i, t.Locations(), j), t.channels, d, Cell(n, t.Locations(), l), c);
    CellUnique(i, t.Locations(), j, n, l);
  }

  method FlattenPatches(t: Nchw) returns (out: array<real>)
    requires t.Valid()
    ensures fresh(out) && Flattens(t, out[..])
  {
    var locations := t.height * t.width;
    Vectors.ProductNonNegative(t.batch, locations);
    Vectors.ProductNonNegative(t.batch * locations, t.channels);
    out := new real[t.batch * locations * t.channels](_ => 0.0);
    for n := 0 to t.batch
      invariant Filled(t, out[..], n * locations, 0)
    {
      for l := 0 to locations
        invariant Filled(t, out[..], n * locations + l, 0)
      {
        for c := 0 to t.channels
          invariant Filled(t, out[..], n * locations + l, c)
        {
          ghost var before := out[..];
          PatchInside(t, n, c, l);
          CellInside(n, t.channels, c, t.batch);
          CellInside(Cell(n, t.channels, c), locations, l, t.batch * t.channels);
          out[(n * locations + l) * t.channels + c] := t.data[(n * t.channels + c) * locations + l];
          FilledOneMore(t, before, out[..], n, c, l);
        }
      }
      Vectors.Distributes(n, 1, locations);
    }
    AllFilled(t, out[..]);
  }

  lemma AllFilled(t: Nchw, out: seq<real>)
    requires t.Valid() && |out| == t.batch * t.Locations() * t.channels && Filled(t, out, t.batch * t.Locations(), 0)
    ensures Flattens(t, out)
  {
    forall n: nat, c: nat, l: nat | n < t.batch && c < t.channels && l < t.Locations()
      ensures PatchPlace(t, n, c, l) < |out| && out[PatchPlace(t, n, c, l)] == t.At(n, c, l)
    {
      PatchInside(t, n, c, l);
      CellInside(n, t.Locations(), l, t.batch);
    }
  }

  // ---- flattening is a permutation ----

  function Quotient(p: nat, size: nat): nat
    requires size > 0
  {
    p / size
  }

  function Rest(p: nat, size: nat): nat
    requires size > 0
  {
    p % size
  }

  /** Where the value at a position of the patches comes from. */
  function Source(t: Nchw, p: nat): nat
    requires t.channels > 0 && t.Locations() > 0
  {
    var patch, c := Quotient(p, t.channels), Rest(p, t.channels);
    Cell(Cell(Quotient(patch, t.Locations()), t.channels, c), t.Locations(), Rest(patch, t.Locations()))
  }

  /** Where the value at a position of the tensor goes. */
  function Target(t: Nchw, q: nat): nat
    requires t.channels > 0 && t.Locations() > 0
  {
    var plane, l := Quotient(q, t.Locations()), Rest(q, t.Locations());
    Cell(Cell(Quotient(plane, t.channels), t.Locations(), l), t.channels, Rest(plane, t.channels))
  }

  lemma CellParts(i: nat, size: nat, j: nat)
    requires j < size
    ensures Quotient(Cell(i, size, j), size) == i && Rest(Cell(i, size, j), size) == j
  {
    Vectors.DivUnique(Cell(i, size, j), size, i, j);
  }

  /** A position and the image, channel and location it stands for. */
  lemma SourceOf(t: Nchw, n: nat, c: nat, l: nat)
    requires c < t.channels && l < t.Locations()
    ensures Source(t, PatchPlace(t, n, c, l)) == Cell(Cell(n, t.channels, c), t.Locations(), l)
    ensures Target(t, Cell(Cell(n, t.channels, c), t.Locations(), l)) == PatchPlace(t, n, c, l)
  {
    CellParts(Cell(n, t.Locations(), l), t.channels, c);
    CellParts(n, t.Locations(), l);
    CellParts(Cell(n, t.channels, c), t.Locations(), l);
    CellParts(n, t.channels, c);
  }

  lemma PositionParts(p: nat, batch: nat, middle: nat, inner: nat) returns (n: nat, j: nat, i: nat)
    requires p < batch * middle * inner
    ensures n < batch && j < middle && i < inner && p == Cell(Cell(n, middle, j), inner, i)
  {
    InnerPositive(batch * middle, inner, p);
    BlockInside(p, inner, batch * middle);
    CellSplit(p, inner);
    var m := p / inner;
    InnerPositive(batch, middle, m);
    BlockInside(m, middle, batch);
    CellSplit(m, middle);
    n, j, i := m / middle, m % middle, p % inner;
  }

  lemma InnerPositive(blocks: nat, size: nat, p: nat)
    requires p < blocks * size
    ensures size > 0
  {
  }

  /** The two position maps undo each other and stay inside, so flattening permutes the values. */
  lemma PermutationOfPositions(t: Nchw, p: nat)
    requires t.channels > 0 && t.Locations() > 0
    ensures p < t.batch * t.Locations() * t.channels ==>
              Source(t, p) < t.batch * t.channels * t.Locations() && Target(t, Source(t, p)) == p
    ensures p < t.batch * t.channels * t.Locations() ==>
              Target(t, p) < t.batch * t.Locations() * t.channels && Source(t, Target(t, p)) == p
  {
    if p < t.batch * t.Locations() * t.channels {
      var n, l, c := PositionParts(p, t.batch, t.Locations(), t.channels);
      SourceOf(t, n, c, l);
      SelectedInside(t.batch, t.channels, t.Locations(), n, c, l);
    }
    if p < t.batch * t.channels * t.Locations() {
      var n, c, l := PositionParts(p, t.batch, t.channels, t.Locations());
      SourceOf(t, n, c, l);
      PatchInside(t, n, c, l);
    }
  }

  /** The patches give the tensor back: the value at a position is the one its target holds. */
  lemma FlatteningUndone(t: Nchw, out: seq<real>, q: nat)
    requires t.Valid() && Flattens(t, out) && q < |t.data|
    ensures t.channels > 0 && t.Locations() > 0 && Target(t, q) < |out| && out[Target(t, q)] == t.data[q]
  {
    var n, c, l := PositionParts(q, t.batch, t.channels, t.Locations());
    SourceOf(t, n, c, l);
    PatchInside(t, n, c, l);
    assert out[PatchPlace(t, n, c, l)] == t.At(n, c, l);
  }

  /** Two tensors of one shape with the same patches are the same. */
  lemma FlatteningInjective(t: Nchw, u: Nchw, out: seq<real>)
    requires t.Valid() && u.Valid() && Flattens(t, out) && Flattens(u, out)
    requires t.batch == u.batch && t.channels == u.channels && t.height == u.height && t.width == u.width
    ensures t == u
  {
    forall q | 0 <= q < |t.data| ensures t.data[q] == u.data[q] {
      FlatteningUndone(t, out, q);
      FlatteningUndone(u, out, q);
    }
  }

  // ---- the layout law ----

  /** Layer `k` holds the channel, as its own channel `local`. */
  predicate HoldsChannel(views: seq<Nchw>, k: nat, local: nat, channel: nat) {
    k < |views| && local < views[k].channels && channel == Before(views, k) + local
  }

  lemma {:induction false} LayerOfChannel(views: seq<Nchw>, m: nat, channel: nat) returns (k: nat, local: nat)
    requires m <= |views| && channel < Before(views, m)
    ensures k < m && HoldsChannel(views, k, local, channel)
    decreases m
  {
    if channel >= Before(views, m - 1) {
      k, local := m - 1, channel - Before(views, m - 1);
    } else {
      k, local := LayerOfChannel(views, m - 1, channel);
    }
  }

  /** No two layers hold one channel. */
  lemma OneLayer(views: seq<Nchw>, k: nat, local: nat, j: nat, other: nat, channel: nat)
    requires HoldsChannel(views, k, local, channel) && HoldsChannel(views, j, other, channel)
    ensures k == j && local == other
  {
    if k < j {
      BeforeGrows(views, k, j);
    } else if j < k {
      BeforeGrows(views, j, k);
    }
  }

  /**
   * Joining layers, selecting channels and flattening puts at each patch and selected channel the
   * value of the layer that holds the channel, at its local channel and the patch's location.
   */
  lemma LayoutLaw(views: seq<Nchw>, joined: Nchw, indices: seq<int>, selected: Nchw, out: seq<real>,
                  n: nat, c: nat, l: nat) returns (k: nat, local: nat)
    requires Joins(views, joined) && Selects(joined, indices, selected) && Flattens(selected, out)
    requires n < joined.batch && c < |indices| && l < joined.Locations()
    ensures HoldsChannel(views, k, local, indices[c])
    ensures PatchPlace(selected, n, c, l) < |out|
    ensures out[PatchPlace(selected, n, c, l)] == views[k].At(n, local, l)
  {
    k, local := LayerOfChannel(views, |views|, indices[c]);
    PatchInside(selected, n, c, l);
    assert out[PatchPlace(selected, n, c, l)] == selected.At(n, c, l);
    assert ChannelStands(joined, selected.data, |indices|, n, c, indices[c]);
    SelectedInside(joined.batch, |indices|, joined.Locations(), n, c, l);
    assert LayerStands(views, joined.channels, joined.data, n, k);
    PlaceInside(views, joined.channels, n, k, local, l);
  }

  /** The same law for the tensors that were joined, by image, row and column. */
  lemma LayoutLawOfTensors(inputs: seq<Tensor>, views: seq<Nchw>, joined: Nchw, indices: seq<int>, selected: Nchw,
                           out: seq<real>, n: nat, c: nat, y: nat, x: nat) returns (k: nat, local: nat)
    requires IsView(inputs, views) && Joins(views, joined) && Selects(joined, indices, selected) && Flattens(selected, out)
    requires n < joined.batch && c < |indices| && y < joined.height && x < joined.width
    ensures k < |inputs| && local < inputs[k].dims[1] && indices[c] == ChannelsBefore(inputs, k) + local
    ensures [joined.batch, inputs[k].dims[1], joined.height, joined.width] == inputs[k].dims
    ensures var place := ((n * joined.height + y) * joined.width + x) * |indices| + c;
              0 <= place < |out| && out[place] == Value(inputs[k], n, local, y, x)
  {
    hide Value;
    var l := Cell(y, joined.width, x);
    CellInside(y, joined.width, x, joined.height);
    k, local := LayoutLaw(views, joined, indices, selected, out, n, c, l);
    BeforeIs(inputs, views, k);
    ViewValue(inputs[k], n, local, y, x);
    PatchIndex(joined.height, joined.width, |indices|, n, c, y, x);
  }

  lemma PatchIndex(height: nat, width: nat, count: nat, n: nat, c: nat, y: nat, x: nat)
    ensures Cell(Cell(n, height * width, Cell(y, width, x)), count, c) == ((n * height + y) * width + x) * count + c
  {
    Vectors.Distributes(n * height, y, width);
    assert n * (height * width) == n * height * width;
  }
}
