/** The byte layout of statistical checkpoints, read back and written. */
module Checkpoint {
  import opened Numbers
  import opened Vectors
  import opened Moments

  type Byte = b: nat | b < 256

  // ---- little-endian integers ----

  function ToBytes(n: nat, k: nat): (bytes: seq<Byte>)
    ensures |bytes| == k
  {
    if k == 0 then [] else [n % 256] + ToBytes(n / 256, k - 1)
  }

  function FromBytes(bytes: seq<Byte>): nat {
    if |bytes| == 0 then 0 else bytes[0] + 256 * FromBytes(bytes[1..])
  }

  lemma {:induction false} IntegerRoundTrip(n: nat, k: nat)
    requires n < Power256(k)
    ensures FromBytes(ToBytes(n, k)) == n
  {
    if k > 0 {
      IntegerRoundTrip(n / 256, k - 1);
      assert ToBytes(n, k)[1..] == ToBytes(n / 256, k - 1);
    }
  }

  lemma {:induction false} BytesRoundTrip(bytes: seq<Byte>)
    ensures FromBytes(bytes) < Power256(|bytes|) && ToBytes(FromBytes(bytes), |bytes|) == bytes
  {
    if |bytes| > 0 {
      BytesRoundTrip(bytes[1..]);
      var rest := FromBytes(bytes[1..]);
      assert (bytes[0] + 256 * rest) % 256 == bytes[0] && (bytes[0] + 256 * rest) / 256 == rest;
    }
  }

  /** The first byte is the least significant. */
  lemma {:induction false} ByteIs(n: nat, k: nat, i: nat)
    requires i < k
    ensures ToBytes(n, k)[i] == n / Power256(i) % 256
    decreases i
  {
    if i > 0 {
      ByteIs(n / 256, k - 1, i - 1);
      DivideTwice(n, Power256(i - 1));
    }
  }

  lemma DivideTwice(n: nat, m: nat)
    requires m > 0
    ensures n / 256 / m == n / (256 * m)
  {
    var q, r := n / 256 / m, n / 256 % m;
    var s := n % 256;
    assert n == q * (256 * m) + (256 * r + s);
    assert 256 * r + s < 256 * m;
    DivUnique(n, 256 * m, q, 256 * r + s);
  }

  // ---- floating-point values ----

  /** How values are stored: doubles in 8 bytes and floats in 4. */
  datatype Codec = Codec(encode: (nat, real) -> seq<Byte>, decode: (nat, seq<Byte>) -> Float)
  {
    function Encode(width: nat, x: real): seq<Byte> {
      encode(width, x)
    }

    function Decode(width: nat, bytes: seq<Byte>): Float {
      decode(width, bytes)
    }

    /** Every value of `xs` is exactly representable in `width` bytes. */
    ghost predicate Represents(width: nat, xs: seq<real>) {
      forall i :: 0 <= i < |xs| ==>
        |Encode(width, xs[i])| == width && Decode(width, Encode(width, xs[i])) == Finite(xs[i])
    }
  }

  function EncodeValues(codec: Codec, width: nat, xs: seq<real>): seq<Byte> {
    if |xs| == 0 then [] else codec.Encode(width, xs[0]) + EncodeValues(codec, width, xs[1..])
  }

  /** Reads `n` finite values from the front of `bytes`. */
  function DecodeValues(codec: Codec, width: nat, bytes: seq<Byte>, n: nat): (r: Option<seq<real>>)
    ensures r.Some? ==> |r.value| == n
  {
    if n == 0 then Some([])
    else if |bytes| < width then None
    else
      match codec.Decode(width, bytes[..width])
      case NonFinite => None
      case Finite(x) =>
        match DecodeValues(codec, width, bytes[width..], n - 1)
        case None => None
        case Some(xs) => Some([x] + xs)
  }

  lemma {:induction false} ValuesLength(codec: Codec, width: nat, xs: seq<real>)
    requires codec.Represents(width, xs)
    ensures |EncodeValues(codec, width, xs)| == |xs| * width
  {
    if |xs| > 0 {
      ValuesLength(codec, width, xs[1..]);
      Distributes(1, |xs| - 1, width);
    }
  }

  lemma {:induction false} ValuesRoundTrip(codec: Codec, width: nat, xs: seq<real>, rest: seq<Byte>)
    requires codec.Represents(width, xs)
    ensures DecodeValues(codec, width, EncodeValues(codec, width, xs) + rest, |xs|) == Some(xs)
  {
    if |xs| > 0 {
      var bytes := EncodeValues(codec, width, xs) + rest;
      ValuesRoundTrip(codec, width, xs[1..], rest);
      assert bytes[..width] == codec.Encode(width, xs[0]);
      assert bytes[width..] == EncodeValues(codec, width, xs[1..]) + rest;
      assert xs == [xs[0]] + xs[1..];
    }
  }

  lemma {:induction false} EncodeAppend(codec: Codec, width: nat, xs: seq<real>, ys: seq<real>)
    ensures EncodeValues(codec, width, xs + ys) == EncodeValues(codec, width, xs) + EncodeValues(codec, width, ys)
  {
    if |xs| == 0 {
      assert xs + ys == ys;
    } else {
      EncodeAppend(codec, width, xs[1..], ys);
      assert (xs + ys)[1..] == xs[1..] + ys;
    }
  }

  function Joined(front: Option<seq<real>>, rest: Option<seq<real>>): Option<seq<real>> {
    if front.Some? && rest.Some? then Some(front.value + rest.value) else None
  }

  /** Reading values in two steps is reading them in one. */
  lemma {:induction false} DecodeSplit(codec: Codec, width: nat, bytes: seq<Byte>, m: nat, n: nat)
    requires m * width <= |bytes|
    ensures DecodeValues(codec, width, bytes, m + n)
         == Joined(DecodeValues(codec, width, bytes, m), DecodeValues(codec, width, bytes[m * width..], n))
  {
    if m == 0 {
      var all := DecodeValues(codec, width, bytes, n);
      assert bytes[0 * width..] == bytes;
      assert all.Some? ==> [] + all.value == all.value;
    } else {
      Distributes(1, m - 1, width);
      ProductNonNegative(m - 1, width);
      var rest := bytes[width..];
      DecodeSplit(codec, width, rest, m - 1, n);
      assert rest[(m - 1) * width..] == bytes[m * width..];
      var front, back := DecodeValues(codec, width, rest, m - 1), DecodeValues(codec, width, bytes[m * width..], n);
      if codec.Decode(width, bytes[..width]).Finite? && front.Some? && back.Some? {
        var x := codec.Decode(width, bytes[..width]).value;
        assert [x] + (front.value + back.value) == ([x] + front.value) + back.value;
      }
    }
  }

  // ---- the file ----

  /** What a fit has learnt: the statistics, and for Mahalanobis fits the committed feature values. */
  datatype State = State(moments: Moments, features: seq<real>)

  const MAGIC: seq<Byte> := [65, 78, 80, 67, 83, 70, 73, 84]
  const VERSION := 1
  const HEADER_BYTES := 28

  function Header(mode: nat, d: nat, n: nat): (bytes: seq<Byte>)
    ensures |bytes| == HEADER_BYTES
  {
    MAGIC + ToBytes(VERSION, 4) + ToBytes(mode, 4) + ToBytes(d, 4) + ToBytes(n, 8)
  }

  function EncodeFile(codec: Codec, mode: nat, d: nat, s: State): seq<Byte> {
    Header(mode, d, s.moments.count)
    + EncodeValues(codec, 8, s.moments.mean)
    + EncodeValues(codec, 8, Flat(s.moments.m2))
    + EncodeValues(codec, 4, s.features)
  }

  /** The sample count in an acceptable header. */
  function HeaderCount(mode: nat, d: nat, file: seq<Byte>): Option<nat>
    requires |file| >= HEADER_BYTES
  {
    var n := FromBytes(file[20..28]);
    if && file[..8] == MAGIC
       && FromBytes(file[8..12]) == VERSION
       && FromBytes(file[12..16]) == mode
       && FromBytes(file[16..20]) == d
       && n != 0
    then Some(n) else None
  }

  function Cells(d: nat): nat {
    d * d
  }

  function MatrixBytes(d: nat): nat {
    8 * d + 8 * Cells(d)
  }

  /** The state in a payload of suitable size. */
  function DecodePayload(codec: Codec, d: nat, n: nat, spooled: bool, payload: seq<Byte>): Option<State>
    requires d > 0 && |payload| >= MatrixBytes(d)
  {
    var mean := DecodeValues(codec, 8, payload, d);
    var m2 := DecodeValues(codec, 8, payload[8 * d..], Cells(d));
    var features := DecodeValues(codec, 4, payload[MatrixBytes(d)..], if spooled then n * d else 0);
    if mean.None? || m2.None? || features.None? then None
    else Some(State(Moments(n, mean.value, Rows(m2.value, d)), features.value))
  }

  predicate SizeAccepted(d: nat, n: nat, spooled: bool, size: nat)
    requires d > 0
  {
    && Cells(d) + d <= (SIZE_MAX - HEADER_BYTES) / 8 && HEADER_BYTES + MatrixBytes(d) <= size
    && var remaining := size - HEADER_BYTES - MatrixBytes(d);
       if spooled then remaining % 4 == 0 && remaining / 4 / d == n && remaining / 4 % d == 0 else remaining == 0
  }

  /** What a loader accepts; `spooled` fits carry their feature values. */
  function DecodeFile(codec: Codec, mode: nat, d: nat, spooled: bool, file: seq<Byte>): Option<State>
    requires d > 0
  {
    if |file| < HEADER_BYTES then None
    else
      match HeaderCount(mode, d, file)
      case None => None
      case Some(n) =>
        if SizeAccepted(d, n, spooled, |file|) then DecodePayload(codec, d, n, spooled, file[HEADER_BYTES..]) else None
  }

  /** A state that a fit can be in after at least one batch. */
  ghost predicate Saveable(codec: Codec, mode: nat, d: nat, spooled: bool, s: State)
  {
    && 0 < d < 0x1_0000_0000 && mode < 0x1_0000_0000 && 0 < s.moments.count <= SIZE_MAX
    && WellFormed(s.moments, d)
    && |s.features| == (if spooled then s.moments.count * d else 0)
    && codec.Represents(8, s.moments.mean) && codec.Represents(8, Flat(s.moments.m2))
    && codec.Represents(4, s.features)
  }

  lemma Powers()
    ensures Power256(4) == 0x1_0000_0000 && Power256(8) == SIZE_MAX + 1
  {
    assert Power256(2) == 65536;
    assert Power256(3) == 0x100_0000;
    assert Power256(4) == 0x1_0000_0000;
    assert Power256(5) == 0x100_0000_0000;
    assert Power256(6) == 0x1_0000_0000_0000;
    assert Power256(7) == 0x100_0000_0000_0000;
  }

  lemma HeaderRoundTrip(mode: nat, d: nat, n: nat, rest: seq<Byte>)
    requires mode < 0x1_0000_0000 && d < 0x1_0000_0000 && 0 < n <= SIZE_MAX
    ensures HeaderCount(mode, d, Header(mode, d, n) + rest) == Some(n)
  {
    var h := Header(mode, d, n);
    var file := h + rest;
    Powers();
    IntegerRoundTrip(VERSION, 4);
    IntegerRoundTrip(mode, 4);
    IntegerRoundTrip(d, 4);
    IntegerRoundTrip(n, 8);
    HeaderParts(MAGIC, ToBytes(VERSION, 4), ToBytes(mode, 4), ToBytes(d, 4), ToBytes(n, 8));
    assert file[..8] == h[..8] && file[8..12] == h[8..12] && file[12..16] == h[12..16];
    assert file[16..20] == h[16..20] && file[20..28] == h[20..28];
  }

  /** An accepted header is the one written for its count: the parts are where and what they must be. */
  lemma AcceptedHeader(mode: nat, d: nat, file: seq<Byte>)
    requires |file| >= HEADER_BYTES && HeaderCount(mode, d, file).Some?
    ensures var n := HeaderCount(mode, d, file).value;
            n > 0 && file[..HEADER_BYTES] == Header(mode, d, n)
  {
    BytesRoundTrip(file[8..12]);
    BytesRoundTrip(file[12..16]);
    BytesRoundTrip(file[16..20]);
    BytesRoundTrip(file[20..28]);
    assert file[..28] == file[..8] + file[8..12] + file[12..16] + file[16..20] + file[20..28];
  }

  /** The header says what the file is: eight letters, then version, kind of fit, dimension and count. */
  lemma HeaderLayout(mode: nat, d: nat, n: nat)
    requires mode < 0x1_0000_0000 && d < 0x1_0000_0000 && n <= SIZE_MAX
    ensures var h := Header(mode, d, n);
            && (forall i :: 0 <= i < 8 ==> h[i] == "ANPCSFIT"[i] as int)
            && FromBytes(h[8..12]) == 1 && FromBytes(h[12..16]) == mode
            && FromBytes(h[16..20]) == d && FromBytes(h[20..28]) == n
  {
    Powers();
    IntegerRoundTrip(VERSION, 4);
    IntegerRoundTrip(mode, 4);
    IntegerRoundTrip(d, 4);
    IntegerRoundTrip(n, 8);
    HeaderParts(MAGIC, ToBytes(VERSION, 4), ToBytes(mode, 4), ToBytes(d, 4), ToBytes(n, 8));
  }

  lemma HeaderParts(a: seq<Byte>, b: seq<Byte>, c: seq<Byte>, d: seq<Byte>, e: seq<Byte>)
    requires |a| == 8 && |b| == |c| == |d| == 4 && |e| == 8
    ensures var h := a + b + c + d + e;
            |h| == 28 && h[..8] == a && h[8..12] == b && h[12..16] == c && h[16..20] == d && h[20..28] == e
  {
  }

  /** Whatever is accepted has an intact header and exactly the size its count calls for. */
  lemma AcceptedFile(codec: Codec, mode: nat, d: nat, spooled: bool, file: seq<Byte>)
    requires d > 0 && DecodeFile(codec, mode, d, spooled, file).Some?
    ensures var n := DecodeFile(codec, mode, d, spooled, file).value.moments.count;
            && n > 0 && file[..HEADER_BYTES] <= file && file[..HEADER_BYTES] == Header(mode, d, n)
            && |file| == HEADER_BYTES + MatrixBytes(d) + (if spooled then 4 * (n * d) else 0)
  {
    hide DecodeValues;
    hide Header;
    AcceptedHeader(mode, d, file);
    SizeTest(d, HeaderCount(mode, d, file).value, spooled, |file|);
  }

  /** A checkpoint of another kind of fit or another dimension is refused. */
  lemma ForeignFileRefused(codec: Codec, mode: nat, d: nat, spooled: bool, kind: nat, dimension: nat,
                           written: bool, s: State)
    requires d > 0 && Saveable(codec, kind, dimension, written, s)
    requires kind != mode || dimension != d
    ensures DecodeFile(codec, mode, d, spooled, EncodeFile(codec, kind, dimension, s)) == None
  {
    var file := EncodeFile(codec, kind, dimension, s);
    var h := Header(kind, dimension, s.moments.count);
    assert h <= file && forall i, j :: 0 <= i <= j <= 28 ==> file[i..j] == h[i..j];
    HeaderLayout(kind, dimension, s.moments.count);
    hide Header;
    assert file[12..16] == h[12..16] && file[16..20] == h[16..20];
  }

  lemma FileLength(codec: Codec, mode: nat, d: nat, spooled: bool, s: State)
    requires Saveable(codec, mode, d, spooled, s)
    ensures |Flat(s.moments.m2)| == Cells(d)
    ensures |EncodeValues(codec, 8, s.moments.mean)| == 8 * d
    ensures |EncodeValues(codec, 8, Flat(s.moments.m2))| == 8 * Cells(d)
    ensures |EncodeValues(codec, 4, s.features)| == 4 * |s.features|
    ensures |EncodeFile(codec, mode, d, s)| == HEADER_BYTES + MatrixBytes(d) + 4 * |s.features|
  {
    FlatLength(s.moments.m2, d);
    ValuesLength(codec, 8, s.moments.mean);
    ValuesLength(codec, 8, Flat(s.moments.m2));
    ValuesLength(codec, 4, s.features);
  }

  /** The size test a loader makes is exact. */
  lemma SizeTest(d: nat, n: nat, spooled: bool, size: nat)
    requires d > 0
    ensures SizeAccepted(d, n, spooled, size)
       <==> && HEADER_BYTES + MatrixBytes(d) <= SIZE_MAX
            && size == HEADER_BYTES + MatrixBytes(d) + (if spooled then 4 * (n * d) else 0)
  {
    var remaining := size - HEADER_BYTES - MatrixBytes(d);
    DivExact(n, d);
    var m := remaining / 4;
    assert m == m / d * d + m % d;
  }

  /**
   * Loading a saved state restores it exactly, if and only if its matrices fit the loader's size guard;
   * beyond the guard the loader refuses its own checkpoints.
   */
  lemma FileRoundTrip(codec: Codec, mode: nat, d: nat, spooled: bool, s: State)
    requires Saveable(codec, mode, d, spooled, s)
    ensures DecodeFile(codec, mode, d, spooled, EncodeFile(codec, mode, d, s))
         == if HEADER_BYTES + MatrixBytes(d) <= SIZE_MAX then Some(s) else None
  {
    hide Cells;
    hide Power256;
    var file, n := EncodeFile(codec, mode, d, s), s.moments.count;
    FileLength(codec, mode, d, spooled, s);
    SizeTest(d, n, spooled, |file|);
    assert file == Header(mode, d, n) + file[HEADER_BYTES..];
    HeaderRoundTrip(mode, d, n, file[HEADER_BYTES..]);
    if HEADER_BYTES + MatrixBytes(d) <= SIZE_MAX {
      PayloadRoundTrip(codec, mode, d, spooled, s);
    }
  }

  lemma Parts(header: seq<Byte>, means: seq<Byte>, matrix: seq<Byte>, values: seq<Byte>)
    ensures var file := header + means + matrix + values; var payload := file[|header|..];
            && payload == means + (matrix + values)
            && payload[|means|..] == matrix + values
            && payload[|means| + |matrix|..] == values + []
  {
    var file := header + means + matrix + values;
    assert file == header + (means + (matrix + values));
  }

  lemma PayloadRoundTrip(codec: Codec, mode: nat, d: nat, spooled: bool, s: State)
    requires Saveable(codec, mode, d, spooled, s)
    ensures |EncodeFile(codec, mode, d, s)| >= HEADER_BYTES + MatrixBytes(d)
    ensures DecodePayload(codec, d, s.moments.count, spooled, EncodeFile(codec, mode, d, s)[HEADER_BYTES..]) == Some(s)
  {
    hide Cells;
    hide Header;
    hide EncodeValues;
    FileLength(codec, mode, d, spooled, s);
    var means, matrix := EncodeValues(codec, 8, s.moments.mean), EncodeValues(codec, 8, Flat(s.moments.m2));
    var values := EncodeValues(codec, 4, s.features);
    Parts(Header(mode, d, s.moments.count), means, matrix, values);
    ValuesRoundTrip(codec, 8, s.moments.mean, matrix + values);
    ValuesRoundTrip(codec, 8, Flat(s.moments.m2), values);
    ValuesRoundTrip(codec, 4, s.features, []);
    RowsOfFlat(s.moments.m2, d);
  }

  /** A checkpoint cut short anywhere is refused. */
  lemma TruncatedFileRejected(codec: Codec, mode: nat, d: nat, spooled: bool, s: State, k: nat)
    requires Saveable(codec, mode, d, spooled, s) && k < |EncodeFile(codec, mode, d, s)|
    ensures DecodeFile(codec, mode, d, spooled, EncodeFile(codec, mode, d, s)[..k]) == None
  {
    hide Cells;
    var file, n := EncodeFile(codec, mode, d, s)[..k], s.moments.count;
    FileLength(codec, mode, d, spooled, s);
    SizeTest(d, n, spooled, k);
    if k >= HEADER_BYTES {
      assert file == Header(mode, d, n) + file[HEADER_BYTES..];
      HeaderRoundTrip(mode, d, n, file[HEADER_BYTES..]);
    }
  }
}
