/** Numbers in base 256, the most significant digit first. */
module BigEndianBytes {
  import opened Numbers
  import Vectors

  type Bytes = seq<bv8>

  /** Where a 64-bit counter wraps around. */
  const LENGTH_LIMIT: nat := 0x1_0000_0000_0000_0000

  predicate IsDigits(digits: seq<nat>) {
    forall k :: 0 <= k < |digits| ==> digits[k] < 256
  }

  /** The number base-256 digits spell. */
  function NumberOf(digits: seq<nat>): nat {
    if digits == [] then 0 else 256 * NumberOf(digits[..|digits| - 1]) + digits[|digits| - 1]
  }

  /** The low `k` digits of a number. */
  function Digits(n: nat, k: nat): seq<nat> {
    if k == 0 then [] else Digits(n / 256, k - 1) + [n % 256]
  }

  function ByteOf(digit: nat): bv8 {
    (digit % 256) as bv8
  }

  function AsBytes(digits: seq<nat>): Bytes {
    seq(|digits|, k requires 0 <= k < |digits| => ByteOf(digits[k]))
  }

  /** The low `k` bytes of a number, as they are written out. */
  function BigEndian(n: nat, k: nat): Bytes {
    AsBytes(Digits(n, k))
  }

  lemma {:induction false} DigitsShape(n: nat, k: nat)
    ensures |Digits(n, k)| == k && IsDigits(Digits(n, k))
    decreases k
  {
    if k > 0 {
      DigitsShape(n / 256, k - 1);
    }
  }

  lemma BigEndianLength(n: nat, k: nat)
    ensures |BigEndian(n, k)| == k
  {
    DigitsShape(n, k);
  }

  /** The low digits of a number spell it, modulo a power of 256. */
  lemma {:induction false} DigitsSpell(n: nat, k: nat)
    ensures NumberOf(Digits(n, k)) == n % Power256(k)
    decreases k
  {
    if k > 0 {
      DigitsSpell(n / 256, k - 1);
      var front := Digits(n / 256, k - 1);
      assert (front + [n % 256])[..|front|] == front;
      SplitDigit(n, Power256(k - 1));
    }
  }

  lemma SplitDigit(n: nat, p: nat)
    requires p > 0
    ensures 256 * (n / 256 % p) + n % 256 == n % (256 * p)
  {
    var q, r := n / 256 / p, n / 256 % p;
    assert n / 256 == q * p + r;
    assert 256 * (q * p) == q * (256 * p);
    Vectors.DivUnique(n, 256 * p, q, 256 * r + n % 256);
  }

  lemma RemainderOfSum(x: nat, y: nat, limit: nat)
    requires limit > 0
    ensures (x % limit + y) % limit == (x + y) % limit
  {
    var q, r := x / limit, x % limit;
    var k, s := (r + y) / limit, (r + y) % limit;
    assert x == q * limit + r;
    assert r + y == k * limit + s;
    Vectors.Distributes(q, k, limit);
    Vectors.DivUnique(x + y, limit, q + k, s);
  }

  /** Digits are recovered from the number they spell. */
  lemma {:induction false} DigitsOfNumber(digits: seq<nat>)
    requires IsDigits(digits)
    ensures Digits(NumberOf(digits), |digits|) == digits
    decreases |digits|
  {
    if digits != [] {
      var front, last := digits[..|digits| - 1], digits[|digits| - 1];
      DigitsOfNumber(front);
      assert digits == front + [last];
    }
  }

  lemma LimitIsPower()
    ensures Power256(8) == LENGTH_LIMIT
  {
    assert Power256(4) == 0x1_0000_0000;
    assert Power256(8) == 256 * (256 * (256 * (256 * Power256(4))));
  }

  /** A number shifted right by whole bytes. */
  function ShiftRight(n: nat, bytes: nat): nat {
    if bytes == 0 then n else ShiftRight(n, bytes - 1) / 256
  }

  /** The byte after the leading `k` of the eight bytes of a number. */
  lemma NextByte(n: nat, k: nat)
    requires k < 8
    ensures BigEndian(ShiftRight(n, 7 - k), k + 1)
         == BigEndian(ShiftRight(n, 8 - k), k) + [ByteOf(ShiftRight(n, 7 - k))]
  {
    hide ByteOf;
    var m := ShiftRight(n, 7 - k);
    var front := Digits(m / 256, k);
    assert AsBytes(front + [m % 256]) == AsBytes(front) + [ByteOf(m % 256)];
    LowByte(m);
  }

  lemma LowByte(n: nat)
    ensures ByteOf(n % 256) == ByteOf(n)
  {
  }

  lemma LeadingBytes(n: nat)
    ensures BigEndian(ShiftRight(n, 8), 0) == [] && ShiftRight(n, 0) == n
  {
  }
}
