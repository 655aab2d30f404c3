/** Streaming SHA-256, proved against FIPS 180-4. */
module Sha256 {
  import opened BigEndianBytes
  import opened Numbers

  // ---- FIPS 180-4: functions and constants, sections 3.2, 4.1.2, 4.2.2 and 5.3.3 ----

  /** Addition modulo 2^32. */
  function Add(x: bv32, y: bv32): bv32 {
    x + y
  }

  function Sum4(a: bv32, b: bv32, c: bv32, d: bv32): bv32 {
    a + b + c + d
  }

  function Xor3(x: bv32, y: bv32, z: bv32): bv32 {
    (x ^ y) ^ z
  }

  function Ch(x: bv32, y: bv32, z: bv32): bv32 {
    (x & y) ^ (!x & z)
  }

  function Maj(x: bv32, y: bv32, z: bv32): bv32 {
    Xor3(x & y, x & z, y & z)
  }

  /** Addition counts up, and wraps around after the greatest word. */
  lemma AddCountsUp(x: bv32, y: bv32)
    ensures Add(x, 0) == x && Add(x, y) == Add(y, x)
    ensures Add(y, 1) == if y == 0xFFFF_FFFF then 0 else y + 1
  {
  }

  lemma SumOfTwo(a: bv32, b: bv32)
    ensures Sum4(a, b, 0, 0) == Sum4(0, 0, a, b) == Add(a, b)
  {
  }

  /** In each bit: the parity of three words, */
  lemma ParityOfBits(x: bv32, y: bv32, z: bv32)
    ensures Xor3(x, y, z) == (x & y & z) | (x & !y & !z) | (!x & y & !z) | (!x & !y & z)
  {
  }

  /** one of two words chosen by the first, */
  lemma ChoiceOfBits(x: bv32, y: bv32, z: bv32)
    ensures Ch(x, y, z) == (x & y) | (!x & z)
  {
  }

  /** and the majority of three. */
  lemma MajorityOfBits(x: bv32, y: bv32, z: bv32)
    ensures Maj(x, y, z) == (x & y) | (x & z) | (y & z)
  {
  }

  function BigSigma0(x: bv32): bv32 {
    Xor3(x.RotateRight(2), x.RotateRight(13), x.RotateRight(22))
  }

  function BigSigma1(x: bv32): bv32 {
    Xor3(x.RotateRight(6), x.RotateRight(11), x.RotateRight(25))
  }

  function SmallSigma0(x: bv32): bv32 {
    Xor3(x.RotateRight(7), x.RotateRight(18), x >> 3)
  }

  function SmallSigma1(x: bv32): bv32 {
    Xor3(x.RotateRight(17), x.RotateRight(19), x >> 10)
  }

  /** The round constants, as numbers. */
  function Constant(t: nat): nat
    requires t < 64
  {
    match t / 8
    case 0 => [0x428a2f98, 0x71374491, 0xb5c0fbcf, 0xe9b5dba5, 0x3956c25b, 0x59f111f1, 0x923f82a4, 0xab1c5ed5][t % 8]
    case 1 => [0xd807aa98, 0x12835b01, 0x243185be, 0x550c7dc3, 0x72be5d74, 0x80deb1fe, 0x9bdc06a7, 0xc19bf174][t % 8]
    case 2 => [0xe49b69c1, 0xefbe4786, 0x0fc19dc6, 0x240ca1cc, 0x2de92c6f, 0x4a7484aa, 0x5cb0a9dc, 0x76f988da][t % 8]
    case 3 => [0x983e5152, 0xa831c66d, 0xb00327c8, 0xbf597fc7, 0xc6e00bf3, 0xd5a79147, 0x06ca6351, 0x14292967][t % 8]
    case 4 => [0x27b70a85, 0x2e1b2138, 0x4d2c6dfc, 0x53380d13, 0x650a7354, 0x766a0abb, 0x81c2c92e, 0x92722c85][t % 8]
    case 5 => [0xa2bfe8a1, 0xa81a664b, 0xc24b8b70, 0xc76c51a3, 0xd192e819, 0xd6990624, 0xf40e3585, 0x106aa070][t % 8]
    case 6 => [0x19a4c116, 0x1e376c08, 0x2748774c, 0x34b0bcb5, 0x391c0cb3, 0x4ed8aa4a, 0x5b9cca4f, 0x682e6ff3][t % 8]
    case _ => [0x748f82ee, 0x78a5636f, 0x84c87814, 0x8cc70208, 0x90befffa, 0xa4506ceb, 0xbef9a3f7, 0xc67178f2][t % 8]
  }

  predicate Is32Bits(n: nat) {
    n < 0x1_0000_0000
  }

  lemma ConstantsFit(t: nat)
    requires t < 64
    ensures Is32Bits(Constant(t))
  {
  }

  function RoundConstant(t: nat): bv32
    requires t < 64
  {
    ConstantsFit(t);
    Constant(t) as bv32
  }

  /** The eight words of an intermediate hash value, or the eight working variables. */
  datatype Words = Words(a: bv32, b: bv32, c: bv32, d: bv32, e: bv32, f: bv32, g: bv32, h: bv32)

  function Initial(): Words {
    Words(0x6a09e667, 0xbb67ae85, 0x3c6ef372, 0xa54ff53a, 0x510e527f, 0x9b05688c, 0x1f83d9ab, 0x5be0cd19)
  }

  // ---- FIPS 180-4: the computation, sections 5.1.1, 5.2.1 and 6.2.2 ----

  /** Bytes are the digits, the first the most significant. */
  function Word(b0: bv8, b1: bv8, b2: bv8, b3: bv8): bv32 {
    ((((b0 as bv32) << 24) | ((b1 as bv32) << 16)) | ((b2 as bv32) << 8)) | (b3 as bv32)
  }

  function Schedule(block: Bytes, t: nat): bv32
    requires |block| == 64 && t < 64
  {
    if t < 16 then Word(block[4 * t], block[4 * t + 1], block[4 * t + 2], block[4 * t + 3])
    else
      Extend(Schedule(block, t - 16), Schedule(block, t - 15), Schedule(block, t - 7), Schedule(block, t - 2))
  }

  function Extend(w16: bv32, w15: bv32, w7: bv32, w2: bv32): bv32 {
    Sum4(SmallSigma1(w2), w7, SmallSigma0(w15), w16)
  }

  function Round(v: Words, k: bv32, w: bv32): Words {
    var t1 := Add(Add(Add(Add(v.h, BigSigma1(v.e)), Ch(v.e, v.f, v.g)), k), w);
    var t2 := Add(BigSigma0(v.a), Maj(v.a, v.b, v.c));
    Words(Add(t1, t2), v.a, v.b, v.c, Add(v.d, t1), v.e, v.f, v.g)
  }

  /** The working variables after `t` rounds. */
  function Rounds(hash: Words, block: Bytes, t: nat): Words
    requires |block| == 64 && t <= 64
  {
    if t == 0 then hash
    else Round(Rounds(hash, block, t - 1), RoundConstant(t - 1), Schedule(block, t - 1))
  }

  function Plus(x: Words, y: Words): Words {
    Words(Add(x.a, y.a), Add(x.b, y.b), Add(x.c, y.c), Add(x.d, y.d),
          Add(x.e, y.e), Add(x.f, y.f), Add(x.g, y.g), Add(x.h, y.h))
  }

  function Compress(hash: Words, block: Bytes): Words
    requires |block| == 64
  {
    Plus(hash, Rounds(hash, block, 64))
  }

  /** The intermediate hash value after all blocks of `m`. */
  function Hashed(m: Bytes): Words
    requires |m| % 64 == 0
  {
    if m == [] then Initial() else Compress(Hashed(m[..|m| - 64]), m[|m| - 64..])
  }

  function Zeros(k: nat): Bytes {
    seq(k, _ => 0)
  }

  /** How many zero bytes bring the message, its marker byte and the length to whole blocks. */
  function ZeroCount(length: nat): nat {
    var over := length % 64;
    if over <= 55 then 55 - over else 119 - over
  }

  /** Section 5.1.1; the length is kept to 64 bits, as the source keeps it. */
  function Padded(m: Bytes): Bytes {
    m + [0x80] + Zeros(ZeroCount(|m|)) + BigEndian(8 * |m| % LENGTH_LIMIT, 8)
  }

  function WordBytes(w: bv32): (bytes: Bytes)
    ensures |bytes| == 4
  {
    [((w >> 24) & 0xFF) as bv8, ((w >> 16) & 0xFF) as bv8, ((w >> 8) & 0xFF) as bv8, (w & 0xFF) as bv8]
  }

  function DigestOf(hash: Words): Bytes {
    WordBytes(hash.a) + WordBytes(hash.b) + WordBytes(hash.c) + WordBytes(hash.d)
    + WordBytes(hash.e) + WordBytes(hash.f) + WordBytes(hash.g) + WordBytes(hash.h)
  }

  lemma PaddedLength(m: Bytes)
    ensures |Padded(m)| == |m| + 1 + ZeroCount(|m|) + 8 && |Padded(m)| % 64 == 0
  {
    hide BigEndian;
    BigEndianLength(8 * |m| % LENGTH_LIMIT, 8);
    WholeBlocks(|m|);
  }

  lemma WholeBlocks(length: nat)
    ensures (length + 1 + ZeroCount(length) + 8) % 64 == 0
  {
  }

  /** The hash of a message. */
  function Digest(m: Bytes): Bytes {
    PaddedLength(m);
    DigestOf(Hashed(Padded(m)))
  }

  /** The words of a hash value, in order. */
  function WordAt(w: Words, i: nat): bv32
    requires i < 8
  {
    match i
    case 0 => w.a
    case 1 => w.b
    case 2 => w.c
    case 3 => w.d
    case 4 => w.e
    case 5 => w.f
    case 6 => w.g
    case 7 => w.h
  }

  /** Hash values are added word by word. */
  lemma PlusByWords(x: Words, y: Words, i: nat)
    requires i < 8
    ensures WordAt(Plus(x, y), i) == Add(WordAt(x, i), WordAt(y, i))
  {
    hide Add;
  }

  /** The word spelled by the four bytes from `p`, the most significant first. */
  function WordFrom(d: Bytes, p: nat): bv32
    requires p + 4 <= |d|
  {
    Word(d[p], d[p + 1], d[p + 2], d[p + 3])
  }

  /** The digest has 32 bytes: the eight words of the last hash value, in order, each by its four bytes. */
  lemma DigestSpellsTheWords(m: Bytes)
    ensures |Padded(m)| % 64 == 0 && |Digest(m)| == 32
    ensures var d, w := Digest(m), Hashed(Padded(m));
            && WordFrom(d, 0) == w.a && WordFrom(d, 4) == w.b
            && WordFrom(d, 8) == w.c && WordFrom(d, 12) == w.d
            && WordFrom(d, 16) == w.e && WordFrom(d, 20) == w.f
            && WordFrom(d, 24) == w.g && WordFrom(d, 28) == w.h
  {
    hide Hashed;
    hide Padded;
    hide WordFrom;
    hide WordBytes;
    PaddedLength(m);
    var w := Hashed(Padded(m));
    DigestBytes(w);
    var d := Digest(m);
    assert d == DigestOf(w);
    hide Digest;
    hide DigestOf;
    Spelled(d, 0, w.a);
    Spelled(d, 4, w.b);
    Spelled(d, 8, w.c);
    Spelled(d, 12, w.d);
    Spelled(d, 16, w.e);
    Spelled(d, 20, w.f);
    Spelled(d, 24, w.g);
    Spelled(d, 28, w.h);
  }

  lemma Spelled(d: Bytes, p: nat, w: bv32)
    requires p + 4 <= |d| && d[p..p + 4] == WordBytes(w)
    ensures WordFrom(d, p) == w
  {
    hide Word;
    hide WordBytes;
    WordOfBytes(w);
    var four := WordBytes(w);
    assert d[p] == four[0] && d[p + 1] == four[1] && d[p + 2] == four[2] && d[p + 3] == four[3];
  }

  lemma DigestBytes(w: Words)
    ensures var d := DigestOf(w);
            && |d| == 32
            && d[0..4] == WordBytes(w.a) && d[4..8] == WordBytes(w.b)
            && d[8..12] == WordBytes(w.c) && d[12..16] == WordBytes(w.d)
            && d[16..20] == WordBytes(w.e) && d[20..24] == WordBytes(w.f)
            && d[24..28] == WordBytes(w.g) && d[28..32] == WordBytes(w.h)
  {
    hide WordBytes;
    EightFours(WordBytes(w.a), WordBytes(w.b), WordBytes(w.c), WordBytes(w.d),
               WordBytes(w.e), WordBytes(w.f), WordBytes(w.g), WordBytes(w.h));
  }

  lemma EightFours(a: Bytes, b: Bytes, c: Bytes, d: Bytes, e: Bytes, f: Bytes, g: Bytes, h: Bytes)
    requires |a| == |b| == |c| == |d| == |e| == |f| == |g| == |h| == 4
    ensures var all := a + b + c + d + e + f + g + h;
            && |all| == 32 && all[0..4] == a && all[4..8] == b && all[8..12] == c && all[12..16] == d
            && all[16..20] == e && all[20..24] == f && all[24..28] == g && all[28..32] == h
  {
  }

  // ---- the constants are the standard's ----

  /** The first 64 primes. */
  function Prime(t: nat): nat
    requires t < 64
  {
    match t / 8
    case 0 => [2, 3, 5, 7, 11, 13, 17, 19][t % 8]
    case 1 => [23, 29, 31, 37, 41, 43, 47, 53][t % 8]
    case 2 => [59, 61, 67, 71, 73, 79, 83, 89][t % 8]
    case 3 => [97, 101, 103, 107, 109, 113, 127, 131][t % 8]
    case 4 => [137, 139, 149, 151, 157, 163, 167, 173][t % 8]
    case 5 => [179, 181, 191, 193, 197, 199, 211, 223][t % 8]
    case 6 => [227, 229, 233, 239, 241, 251, 257, 263][t % 8]
    case _ => [269, 271, 277, 281, 283, 293, 307, 311][t % 8]
  }

  /** `k` is the first 32 bits of the fractional part of the cube root of `p`, whose whole part is `q`. */
  predicate IsCubeRootFraction(k: int, p: nat, q: nat) {
    var r := q * 0x1_0000_0000 + k;
    0 <= k < 0x1_0000_0000 && r * r * r <= p * 0x1_0000_0000_0000_0000_0000_0000 < (r + 1) * (r + 1) * (r + 1)
  }

  /** So for the square root. */
  predicate IsSquareRootFraction(k: int, p: nat, q: nat) {
    var r := q * 0x1_0000_0000 + k;
    0 <= k < 0x1_0000_0000 && r * r <= p * 0x1_0000_0000_0000_0000 < (r + 1) * (r + 1)
  }

  ghost predicate IsConstant(t: nat)
    requires t < 64
  {
    exists q :: IsCubeRootFraction(Constant(t), Prime(t), q)
  }

  lemma IsItsConstant(t: nat, k: int, p: nat, q: nat)
    requires t < 64 && Constant(t) == k && Prime(t) == p && IsCubeRootFraction(k, p, q)
    ensures IsConstant(t)
  {
  }

  lemma ConstantsFrom0(t: nat)
    requires 0 <= t < 8
    ensures IsConstant(t)
  {
    hide IsConstant;
    match t {
      case 0 => IsItsConstant(0, 0x428a2f98, 2, 1);
      case 1 => IsItsConstant(1, 0x71374491, 3, 1);
      case 2 => IsItsConstant(2, 0xb5c0fbcf, 5, 1);
      case 3 => IsItsConstant(3, 0xe9b5dba5, 7, 1);
      case 4 => IsItsConstant(4, 0x3956c25b, 11, 2);
      case 5 => IsItsConstant(5, 0x59f111f1, 13, 2);
      case 6 => IsItsConstant(6, 0x923f82a4, 17, 2);
      case 7 => IsItsConstant(7, 0xab1c5ed5, 19, 2);
    }
  }

  lemma ConstantsFrom8(t: nat)
    requires 8 <= t < 16
    ensures IsConstant(t)
  {
    hide IsConstant;
    match t {
      case 8 => IsItsConstant(8, 0xd807aa98, 23, 2);
      case 9 => IsItsConstant(9, 0x12835b01, 29, 3);
      case 10 => IsItsConstant(10, 0x243185be, 31, 3);
      case 11 => IsItsConstant(11, 0x550c7dc3, 37, 3);
      case 12 => IsItsConstant(12, 0x72be5d74, 41, 3);
      case 13 => IsItsConstant(13, 0x80deb1fe, 43, 3);
      case 14 => IsItsConstant(14, 0x9bdc06a7, 47, 3);
      case 15 => IsItsConstant(15, 0xc19bf174, 53, 3);
    }
  }

  lemma ConstantsFrom16(t: nat)
    requires 16 <= t < 24
    ensures IsConstant(t)
  {
    hide IsConstant;
    match t {
      case 16 => IsItsConstant(16, 0xe49b69c1, 59, 3);
      case 17 => IsItsConstant(17, 0xefbe4786, 61, 3);
      case 18 => IsItsConstant(18, 0x0fc19dc6, 67, 4);
      case 19 => IsItsConstant(19, 0x240ca1cc, 71, 4);
      case 20 => IsItsConstant(20, 0x2de92c6f, 73, 4);
      case 21 => IsItsConstant(21, 0x4a7484aa, 79, 4);
      case 22 => IsItsConstant(22, 0x5cb0a9dc, 83, 4);
      case 23 => IsItsConstant(23, 0x76f988da, 89, 4);
    }
  }

  lemma ConstantsFrom24(t: nat)
    requires 24 <= t < 32
    ensures IsConstant(t)
  {
    hide IsConstant;
    match t {
      case 24 => IsItsConstant(24, 0x983e5152, 97, 4);
      case 25 => IsItsConstant(25, 0xa831c66d, 101, 4);
      case 26 => IsItsConstant(26, 0xb00327c8, 103, 4);
      case 27 => IsItsConstant(27, 0xbf597fc7, 107, 4);
      case 28 => IsItsConstant(28, 0xc6e00bf3, 109, 4);
      case 29 => IsItsConstant(29, 0xd5a79147, 113, 4);
      case 30 => IsItsConstant(30, 0x06ca6351, 127, 5);
      case 31 => IsItsConstant(31, 0x14292967, 131, 5);
    }
  }

  lemma ConstantsFrom32(t: nat)
    requires 32 <= t < 40
    ensures IsConstant(t)
  {
    hide IsConstant;
    match t {
      case 32 => IsItsConstant(32, 0x27b70a85, 137, 5);
      case 33 => IsItsConstant(33, 0x2e1b2138, 139, 5);
      case 34 => IsItsConstant(34, 0x4d2c6dfc, 149, 5);
      case 35 => IsItsConstant(35, 0x53380d13, 151, 5);
      case 36 => IsItsConstant(36, 0x650a7354, 157, 5);
      case 37 => IsItsConstant(37, 0x766a0abb, 163, 5);
      case 38 => IsItsConstant(38, 0x81c2c92e, 167, 5);
      case 39 => IsItsConstant(39, 0x92722c85, 173, 5);
    }
  }

  lemma ConstantsFrom40(t: nat)
    requires 40 <= t < 48
    ensures IsConstant(t)
  {
    hide IsConstant;
    match t {
      case 40 => IsItsConstant(40, 0xa2bfe8a1, 179, 5);
      case 41 => IsItsConstant(41, 0xa81a664b, 181, 5);
      case 42 => IsItsConstant(42, 0xc24b8b70, 191, 5);
      case 43 => IsItsConstant(43, 0xc76c51a3, 193, 5);
      case 44 => IsItsConstant(44, 0xd192e819, 197, 5);
      case 45 => IsItsConstant(45, 0xd6990624, 199, 5);
      case 46 => IsItsConstant(46, 0xf40e3585, 211, 5);
      case 47 => IsItsConstant(47, 0x106aa070, 223, 6);
    }
  }

  lemma ConstantsFrom48(t: nat)
    requires 48 <= t < 56
    ensures IsConstant(t)
  {
    hide IsConstant;
    match t {
      case 48 => IsItsConstant(48, 0x19a4c116, 227, 6);
      case 49 => IsItsConstant(49, 0x1e376c08, 229, 6);
      case 50 => IsItsConstant(50, 0x2748774c, 233, 6);
      case 51 => IsItsConstant(51, 0x34b0bcb5, 239, 6);
      case 52 => IsItsConstant(52, 0x391c0cb3, 241, 6);
      case 53 => IsItsConstant(53, 0x4ed8aa4a, 251, 6);
      case 54 => IsItsConstant(54, 0x5b9cca4f, 257, 6);
      case 55 => IsItsConstant(55, 0x682e6ff3, 263, 6);
    }
  }

  lemma ConstantsFrom56(t: nat)
    requires 56 <= t < 64
    ensures IsConstant(t)
  {
    hide IsConstant;
    match t {
      case 56 => IsItsConstant(56, 0x748f82ee, 269, 6);
      case 57 => IsItsConstant(57, 0x78a5636f, 271, 6);
      case 58 => IsItsConstant(58, 0x84c87814, 277, 6);
      case 59 => IsItsConstant(59, 0x8cc70208, 281, 6);
      case 60 => IsItsConstant(60, 0x90befffa, 283, 6);
      case 61 => IsItsConstant(61, 0xa4506ceb, 293, 6);
      case 62 => IsItsConstant(62, 0xbef9a3f7, 307, 6);
      case 63 => IsItsConstant(63, 0xc67178f2, 311, 6);
    }
  }

  /** Section 4.2.2: the round constants are those bits of the cube roots of the first 64 primes. */
  lemma RoundConstantsAreTheStandards(t: nat)
    requires t < 64
    ensures exists q :: IsCubeRootFraction(Constant(t), Prime(t), q)
  {
    match t / 8 {
      case 0 => ConstantsFrom0(t);
      case 1 => ConstantsFrom8(t);
      case 2 => ConstantsFrom16(t);
      case 3 => ConstantsFrom24(t);
      case 4 => ConstantsFrom32(t);
      case 5 => ConstantsFrom40(t);
      case 6 => ConstantsFrom48(t);
      case 7 => ConstantsFrom56(t);
    }
  }

  /** The initial hash value, as numbers. */
  function InitialNumber(i: nat): nat
    requires i < 8
  {
    [0x6a09e667, 0xbb67ae85, 0x3c6ef372, 0xa54ff53a, 0x510e527f, 0x9b05688c, 0x1f83d9ab, 0x5be0cd19][i]
  }

  ghost predicate IsInitial(i: nat, word: int)
    requires i < 8
  {
    exists q :: IsSquareRootFraction(word, Prime(i), q)
  }

  lemma InitialNumbers(i: nat)
    requires i < 8
    ensures WordAt(Initial(), i) as int == InitialNumber(i)
  {
  }

  lemma InitialRoots(i: nat)
    requires i < 8
    ensures IsInitial(i, InitialNumber(i))
  {
    var q := if i < 2 then 1 else if i < 4 then 2 else if i < 6 then 3 else 4;
    assert IsSquareRootFraction(InitialNumber(i), Prime(i), q);
  }

  /** Section 5.3.3: the initial hash value is those bits of the square roots of the first eight primes. */
  lemma InitialIsTheStandards(i: nat)
    requires i < 8
    ensures IsInitial(i, WordAt(Initial(), i) as int)
  {
    hide *;
    InitialNumbers(i);
    InitialRoots(i);
  }

  // ---- the padding is the standard's ----

  /** The padding of section 5.1.1, for whole bytes: marker, fewest zeros, length in bits. */
  ghost predicate IsPadding(m: Bytes, padded: Bytes, zeros: nat, digits: seq<nat>) {
    && padded == m + [0x80] + Zeros(zeros) + AsBytes(digits)
    && IsDigits(digits) && |digits| == 8 && NumberOf(digits) == 8 * |m|
    && zeros < 64 && |padded| % 64 == 0
  }

  /** Within the standard's length limit the padding is the standard's, and the only one. */
  lemma PaddingIsTheStandards(m: Bytes, padded: Bytes)
    requires 8 * |m| < LENGTH_LIMIT
    ensures padded == Padded(m) <==> exists zeros, digits :: IsPadding(m, padded, zeros, digits)
  {
    hide Digits;
    hide NumberOf;
    hide Power256;
    LimitIsPower();
    if padded == Padded(m) {
      PaddedLength(m);
      DigitsShape(8 * |m|, 8);
      DigitsSpell(8 * |m|, 8);
      assert IsPadding(m, padded, ZeroCount(|m|), Digits(8 * |m|, 8));
    }
    if exists zeros, digits :: IsPadding(m, padded, zeros, digits) {
      var zeros: nat, digits: seq<nat> :| IsPadding(m, padded, zeros, digits);
      DigitsOfNumber(digits);
      OneZeroCount(|m|, zeros);
    }
  }

  lemma OneZeroCount(length: nat, zeros: nat)
    requires zeros < 64 && (length + 1 + zeros + 8) % 64 == 0
    ensures zeros == ZeroCount(length)
  {
  }

  // ---- words and bytes ----

  /** A digest's bytes spell its words. */
  lemma WordOfBytes(w: bv32)
    ensures var b := WordBytes(w); Word(b[0], b[1], b[2], b[3]) == w
  {
  }

  /** The source's rotation, by shifts. */
  function RotateRight(value: bv32, count: bv6): bv32
    requires 0 < count < 32
  {
    (value >> count) | (value << (32 - count))
  }

  lemma ScheduleSigmas(x: bv32)
    ensures SmallSigma0(x) == Xor3(RotateRight(x, 7), RotateRight(x, 18), x >> 3)
    ensures SmallSigma1(x) == Xor3(RotateRight(x, 17), RotateRight(x, 19), x >> 10)
  {
    hide Xor3;
    assert RotateRight(x, 7) == x.RotateRight(7) && RotateRight(x, 18) == x.RotateRight(18);
    assert RotateRight(x, 17) == x.RotateRight(17) && RotateRight(x, 19) == x.RotateRight(19);
    hide RotateRight;
  }

  lemma RoundSigmas(x: bv32)
    ensures BigSigma0(x) == Xor3(RotateRight(x, 2), RotateRight(x, 13), RotateRight(x, 22))
    ensures BigSigma1(x) == Xor3(RotateRight(x, 6), RotateRight(x, 11), RotateRight(x, 25))
  {
    hide Xor3;
    assert RotateRight(x, 2) == x.RotateRight(2) && RotateRight(x, 13) == x.RotateRight(13);
    assert RotateRight(x, 22) == x.RotateRight(22) && RotateRight(x, 6) == x.RotateRight(6);
    assert RotateRight(x, 11) == x.RotateRight(11) && RotateRight(x, 25) == x.RotateRight(25);
    hide RotateRight;
  }

  lemma AnyOrder(a: bv32, b: bv32, c: bv32, d: bv32)
    ensures Sum4(a, b, c, d) == Sum4(d, c, b, a)
  {
  }

  // ---- one step of each loop ----

  lemma ScheduleStarts(block: Bytes, t: nat)
    requires |block| == 64 && t < 16
    ensures Schedule(block, t) == Word(block[4 * t], block[4 * t + 1], block[4 * t + 2], block[4 * t + 3])
  {
    hide Word;
  }

  lemma ScheduleGoesOn(block: Bytes, t: nat)
    requires |block| == 64 && 16 <= t < 64
    ensures Schedule(block, t)
         == Extend(Schedule(block, t - 16), Schedule(block, t - 15), Schedule(block, t - 7), Schedule(block, t - 2))
  {
    hide Extend;
    hide Word;
  }

  lemma NoRounds(hash: Words, block: Bytes)
    requires |block| == 64
    ensures Rounds(hash, block, 0) == hash
  {
  }

  lemma OneRound(hash: Words, block: Bytes, t: nat)
    requires |block| == 64 && t < 64
    ensures Rounds(hash, block, t + 1) == Round(Rounds(hash, block, t), RoundConstant(t), Schedule(block, t))
  {
    hide Round;
    hide Schedule;
    hide RoundConstant;
  }

  lemma CompressIs(hash: Words, block: Bytes)
    requires |block| == 64
    ensures Compress(hash, block) == Plus(hash, Rounds(hash, block, 64))
  {
    hide Plus;
    hide Rounds;
  }

  method NextWord(w16: bv32, w15: bv32, w7: bv32, w2: bv32) returns (w: bv32)
    ensures w == Extend(w16, w15, w7, w2)
  {
    hide Sum4;
    hide Xor3;
    hide RotateRight;
    hide SmallSigma0;
    hide SmallSigma1;
    ScheduleSigmas(w15);
    ScheduleSigmas(w2);
    var s0 := Xor3(RotateRight(w15, 7), RotateRight(w15, 18), w15 >> 3);
    var s1 := Xor3(RotateRight(w2, 17), RotateRight(w2, 19), w2 >> 10);
    w := Sum4(w16, s0, w7, s1);
    AnyOrder(w16, s0, w7, s1);
  }

  /** The working variables move down one place, and two of them take up the new sums. */
  method RoundStep(v: Words, k: bv32, w: bv32) returns (next: Words)
    ensures next == Round(v, k, w)
  {
    hide Add;
    hide Xor3;
    hide RotateRight;
    hide BigSigma0;
    hide BigSigma1;
    hide Ch;
    hide Maj;
    RoundSigmas(v.a);
    RoundSigmas(v.e);
    var a, b, c, d, e, f, g, h := v.a, v.b, v.c, v.d, v.e, v.f, v.g, v.h;
    var sum1 := Xor3(RotateRight(e, 6), RotateRight(e, 11), RotateRight(e, 25));
    var choose := Ch(e, f, g);
    var temporary1 := Add(Add(Add(Add(h, sum1), choose), k), w);
    var sum0 := Xor3(RotateRight(a, 2), RotateRight(a, 13), RotateRight(a, 22));
    var majority := Maj(a, b, c);
    var temporary2 := Add(sum0, majority);
    h := g;
    g := f;
    f := e;
    e := Add(d, temporary1);
    d := c;
    c := b;
    b := a;
    a := Add(temporary1, temporary2);
    next := Words(a, b, c, d, e, f, g, h);
  }

  lemma HashedNothing()
    ensures Hashed([]) == Initial()
  {
  }

  /** The 64-bit counter after `more` bits. */
  function Counted(bits: nat, more: nat): nat {
    (bits + more) % LENGTH_LIMIT
  }

  function BitsOf(bytes: nat): nat {
    8 * bytes % LENGTH_LIMIT
  }

  lemma BitsCounted(bytes: nat, more: nat)
    ensures Counted(BitsOf(bytes), 8 * more) == BitsOf(bytes + more)
  {
    RemainderOfSum(8 * bytes, 8 * more, LENGTH_LIMIT);
    assert 8 * bytes + 8 * more == 8 * (bytes + more);
  }

  lemma Rejoin(a: Bytes, b: Bytes, c: Bytes)
    ensures (a + b) + c == a + (b + c)
  {
  }

  lemma HashedOneMore(m: Bytes, block: Bytes)
    requires |m| % 64 == 0 && |block| == 64
    ensures Hashed(m + block) == Compress(Hashed(m), block)
  {
    hide Compress;
    var longer := m + block;
    assert longer[..|longer| - 64] == m && longer[|longer| - 64..] == block;
  }

  lemma ZerosJoin(a: nat, b: nat)
    ensures Zeros(a) + Zeros(b) == Zeros(a + b)
  {
  }

  lemma CountZeros(length: nat, waiting: nat)
    requires waiting == length % 64
    ensures ZeroCount(length) == if waiting + 1 > 56 then 63 - waiting + 56 else 55 - waiting
  {
  }

  lemma PaddedIs(m: Bytes)
    ensures Padded(m) == m + [0x80] + Zeros(ZeroCount(|m|)) + BigEndian(BitsOf(|m|), 8)
  {
  }

  // ---- the streaming object ----

  class Sha256 {
    var state: Words
    const buffer: array<bv8>
    var bufferSize: nat
    var totalBits: nat
    ghost var hashed: Bytes

    /** The state is the hash of whole blocks, and the buffer holds no more than its length. */
    ghost predicate Consistent()
      reads this, buffer
    {
      buffer.Length == 64 && bufferSize <= 64 && |hashed| % 64 == 0 && state == Hashed(hashed)
    }

    /** Between calls some of the buffer is free, and the counter is the hashed bits, modulo 2^64. */
    ghost predicate Valid()
      reads this, buffer
    {
      Consistent() && bufferSize < 64 && totalBits == BitsOf(|hashed|)
    }

    /** All bytes put in so far: the blocks hashed, then the bytes waiting. */
    ghost function Message(): Bytes
      requires Consistent()
      reads this, buffer
    {
      hashed + buffer[..bufferSize]
    }

    constructor ()
      ensures Valid() && Message() == [] && fresh(buffer)
    {
      hide Initial;
      state := Initial();
      buffer := new bv8[64];
      bufferSize, totalBits, hashed := 0, 0, [];
      new;
      hide Hashed;
      HashedNothing();
      assert Message() == [];
    }

    method Transform()
      requires buffer.Length == 64
      modifies this`state
      ensures state == Compress(old(state), buffer[..])
    {
      hide *;
      ghost var hash, block := state, buffer[..];
      var schedule := ExpandSchedule();
      var v := state;
      NoRounds(hash, block);
      for i := 0 to 64
        invariant v == Rounds(hash, block, i) && state == hash && buffer[..] == block
        invariant forall t :: 0 <= t < 64 ==> schedule[t] == Schedule(block, t)
      {
        v := RoundStep(v, RoundConstant(i), schedule[i]);
        OneRound(hash, block, i);
      }
      state := Plus(state, v);
      CompressIs(hash, block);
    }

    method ExpandSchedule() returns (schedule: array<bv32>)
      requires buffer.Length == 64
      ensures fresh(schedule) && schedule.Length == 64
      ensures forall t :: 0 <= t < 64 ==> schedule[t] == Schedule(buffer[..], t)
    {
      hide *;
      ghost var block := buffer[..];
      schedule := new bv32[64];
      for i := 0 to 16
        invariant forall t :: 0 <= t < i ==> schedule[t] == Schedule(block, t)
        invariant buffer[..] == block
      {
        var offset := 4 * i;
        schedule[i] := WordAt(offset);
        ScheduleStarts(block, i);
      }
      for i := 16 to 64
        invariant forall t :: 0 <= t < i ==> schedule[t] == Schedule(block, t)
        invariant buffer[..] == block
      {
        schedule[i] := NextWord(schedule[i - 16], schedule[i - 15], schedule[i - 7], schedule[i - 2]);
        ScheduleGoesOn(block, i);
      }
    }

    method WordAt(offset: nat) returns (w: bv32)
      requires offset + 4 <= buffer.Length
      ensures w == Word(buffer[offset], buffer[offset + 1], buffer[offset + 2], buffer[offset + 3])
    {
      w := ((((buffer[offset] as bv32) << 24) | ((buffer[offset + 1] as bv32) << 16))
            | ((buffer[offset + 2] as bv32) << 8)) | (buffer[offset + 3] as bv32);
    }

    /** Stores one byte; the buffer is never written past its end. */
    method Put(b: bv8)
      requires Consistent() && bufferSize < 64
      modifies this`bufferSize, buffer
      ensures Consistent() && Message() == old(Message()) + [b] && bufferSize == old(bufferSize) + 1
    {
      hide Hashed;
      ghost var waiting := buffer[..bufferSize];
      buffer[bufferSize] := b;
      bufferSize := bufferSize + 1;
      assert buffer[..bufferSize] == waiting + [b];
      Rejoin(hashed, waiting, [b]);
    }

    /** Hashes the full buffer and empties it. */
    method Flush()
      requires Consistent() && bufferSize == 64
      modifies this`state, this`bufferSize, this`hashed
      ensures Consistent() && bufferSize == 0 && Message() == old(Message())
      ensures hashed == old(Message())
    {
      hide Hashed;
      hide Compress;
      assert buffer[..64] == buffer[..];
      Transform();
      HashedOneMore(hashed, buffer[..]);
      hashed := hashed + buffer[..];
      bufferSize := 0;
      assert hashed + buffer[..0] == hashed;
    }

    method Update(bytes: Bytes)
      requires Valid()
      modifies this, buffer
      ensures Valid() && Message() == old(Message()) + bytes
    {
      hide Hashed;
      hide Counted;
      hide BitsOf;
      ghost var before := Message();
      assert before + bytes[..0] == before;
      for i := 0 to |bytes|
        invariant Valid() && Message() == before + bytes[..i]
      {
        Rejoin(before, bytes[..i], [bytes[i]]);
        assert bytes[..i + 1] == bytes[..i] + [bytes[i]];
        Put(bytes[i]);
        if bufferSize == 64 {
          BitsCounted(|hashed|, 64);
          Flush();
          totalBits := Counted(totalBits, 512);
        }
      }
      assert bytes[..|bytes|] == bytes;
    }

    /** Puts in zero bytes until the buffer holds `size`. */
    method FillWithZeros(size: nat)
      requires Consistent() && bufferSize <= size <= 64
      modifies this`bufferSize, buffer
      ensures Consistent() && bufferSize == size
      ensures Message() == old(Message()) + Zeros(size - old(bufferSize))
    {
      hide Hashed;
      ghost var before, start := Message(), bufferSize;
      assert before + Zeros(0) == before;
      while bufferSize < size
        invariant Consistent() && start <= bufferSize <= size && Message() == before + Zeros(bufferSize - start)
      {
        Rejoin(before, Zeros(bufferSize - start), [0]);
        assert Zeros(bufferSize - start) + [0] == Zeros(bufferSize - start + 1);
        Put(0);
      }
    }

    method PutLength()
      requires Consistent() && bufferSize == 56
      modifies this`bufferSize, buffer
      ensures Consistent() && bufferSize == 64 && Message() == old(Message()) + BigEndian(totalBits, 8)
    {
      hide Hashed;
      hide BigEndian;
      hide ByteOf;
      hide ShiftRight;
      ghost var before := Message();
      LeadingBytes(totalBits);
      assert before + [] == before;
      for k := 0 to 8
        invariant Consistent() && bufferSize == 56 + k
        invariant Message() == before + BigEndian(ShiftRight(totalBits, 8 - k), k)
      {
        NextByte(totalBits, k);
        var b := ByteOf(ShiftRight(totalBits, 7 - k));
        Rejoin(before, BigEndian(ShiftRight(totalBits, 8 - k), k), [b]);
        Put(b);
      }
    }

    /** Counts the waiting bits and puts in the marker. */
    method Mark()
      requires Valid()
      modifies this, buffer
      ensures Consistent() && Message() == old(Message()) + [0x80] && bufferSize == old(bufferSize) + 1
      ensures totalBits == BitsOf(|old(Message())|)
      ensures old(bufferSize) == |old(Message())| % 64
    {
      hide Hashed;
      hide Counted;
      hide BitsOf;
      BitsCounted(|hashed|, bufferSize);
      totalBits := Counted(totalBits, 8 * bufferSize);
      Put(0x80);
    }

    /** Leaves just the room of the length in the buffer, going on to another block when there is less. */
    method ZeroPad()
      requires Consistent()
      modifies this`state, this`bufferSize, this`hashed, buffer
      ensures Consistent() && bufferSize == 56
      ensures Message() == old(Message()) + Zeros((if old(bufferSize) > 56 then 120 else 56) - old(bufferSize))
    {
      hide Hashed;
      hide Zeros;
      ghost var before, size := Message(), bufferSize;
      if bufferSize > 56 {
        FillWithZeros(64);
        Flush();
        Rejoin(before, Zeros(64 - size), Zeros(56));
        ZerosJoin(64 - size, 56);
      }
      FillWithZeros(56);
    }

    /** Brings the message to whole blocks, the last of them in the buffer. */
    method Pad()
      requires Valid()
      modifies this, buffer
      ensures Consistent() && bufferSize == 64 && Message() == Padded(old(Message()))
    {
      hide Hashed;
      hide Padded;
      hide Zeros;
      hide ZeroCount;
      hide BigEndian;
      hide BitsOf;
      ghost var m := Message();
      Mark();
      CountZeros(|m|, bufferSize - 1);
      ZeroPad();
      PutLength();
      PaddedIs(m);
    }

    /** The digest of everything put in, however it was cut into updates. */
    method Finish() returns (digest: Bytes)
      requires Valid()
      modifies this, buffer
      ensures digest == Digest(old(Message()))
    {
      hide Hashed;
      hide Padded;
      hide DigestOf;
      ghost var m := Message();
      Pad();
      PaddedLength(m);
      Flush();
      digest := DigestOf(state);
    }
  }

  function Joined(chunks: seq<Bytes>): Bytes {
    if chunks == [] then [] else Joined(chunks[..|chunks| - 1]) + chunks[|chunks| - 1]
  }

  lemma JoinedOneMore(chunks: seq<Bytes>, i: nat)
    requires i < |chunks|
    ensures Joined(chunks[..i + 1]) == Joined(chunks[..i]) + chunks[i]
  {
    assert chunks[..i + 1][..i] == chunks[..i];
  }

  /** A file read in chunks of any sizes: the digest of its bytes, unless opening or reading failed. */
  method DigestFile(readable: bool, chunks: seq<Bytes>, complete: bool) returns (r: Result<Bytes>)
    ensures r == if readable && complete then Ok(Digest(Joined(chunks))) else Err(IoError)
  {
    hide Digest;
    hide Hashed;
    if !readable {
      return Err(IoError);
    }
    var hash := new Sha256();
    for i := 0 to |chunks|
      invariant hash.Valid() && hash.Message() == Joined(chunks[..i]) && fresh(hash) && fresh(hash.buffer)
    {
      JoinedOneMore(chunks, i);
      hash.Update(chunks[i]);
    }
    assert chunks[..|chunks|] == chunks;
    if !complete {
      return Err(IoError);
    }
    var digest := hash.Finish();
    r := Ok(digest);
  }
}
