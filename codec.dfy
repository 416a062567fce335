/**
 * Fixed-width little-endian integer codecs shared by the server
 * (server/src/utils/byte.js) and the browser client (client/src/utils.js).
 * The two copies of the 16- and 32-bit codecs are textually identical, so one
 * definition models both; only `bytesToLong` exists on the client alone.
 *
 * JavaScript's bitwise operators first convert a number to a 32-bit two's
 * complement integer, and BigInt `>>`/`&` behave like floor division and a
 * non-negative remainder. For integer inputs both coincide with Dafny's
 * Euclidean `/` and `%` by powers of 256, which is how the encoders are written.
 */
module Codec {
  import opened Wrappers

  type Byte = x: int | 0 <= x < 256

  const TWO16: int := 65536
  const TWO31: int := 2147483648
  const TWO32: int := 4294967296
  const TWO64: int := 18446744073709551616

  /** Reading index `i` of a typed array: past the end JavaScript yields
      `undefined`, and `undefined & 0xff` is 0. */
  function At(b: seq<Byte>, i: int): Byte {
    if 0 <= i < |b| then b[i] else 0
  }

  /** `payload[i]` of a byte array: `None` is `undefined` past the end. */
  function PAt(p: seq<Byte>, i: int): Option<Byte> {
    if 0 <= i < |p| then Some(p[i]) else None
  }

  /** `payload.subarray(a, b)`, clamped to the array. */
  function Sub(p: seq<Byte>, a: nat, b: nat): (r: seq<Byte>)
    ensures |r| <= |p|
    ensures a <= b <= |p| ==> |r| == b - a
    ensures forall i :: 0 <= i < |r| ==> a + i < |p| && r[i] == p[a + i]
  {
    var lo := if a < |p| then a else |p|;
    var hi := if b < |p| then b else |p|;
    if lo <= hi then p[lo..hi] else []
  }

  /** `p` without its first k bytes (empty once k passes the end). */
  function Drop(p: seq<Byte>, k: nat): (r: seq<Byte>)
    ensures |r| <= |p|
    ensures k <= |p| ==> |r| == |p| - k
    ensures forall i :: 0 <= i < |r| ==> k + i < |p| && r[i] == p[k + i]
  {
    if k < |p| then p[k..] else []
  }

  /** What storing a number into a Uint8Array keeps of it. */
  function ToUint8(n: int): Byte {
    n % 256
  }

  function Pow256(k: nat): (p: nat)
    ensures p >= 1
  {
    if k == 0 then 1 else 256 * Pow256(k - 1)
  }

  // ---------------------------------------------------------------------
  // Reference definitions: the k low bytes of n, and the value of a byte
  // string read least significant byte first.

  function LittleEndian(n: int, k: nat): seq<Byte>
    decreases k
  {
    if k == 0 then [] else [n % 256] + LittleEndian(n / 256, k - 1)
  }

  function Value(b: seq<Byte>): nat {
    if b == [] then 0 else b[0] + 256 * Value(b[1..])
  }

  /** The signed reading of a 32-bit pattern. */
  function Signed32(u: int): int {
    if u >= TWO31 then u - TWO32 else u
  }

  /** ECMAScript ToInt32. */
  function ToInt32(n: int): (r: int)
    ensures -TWO31 <= r < TWO31
  {
    Signed32(n % TWO32)
  }

  // ---------------------------------------------------------------------
  // The codecs as the source writes them.

  function ShortToBytes(n: int): (r: seq<Byte>)
    ensures |r| == 2
  {
    [n % 256, (n / 256) % 256]
  }

  /** The two masked bytes occupy disjoint bits, so `|` is addition. */
  function BytesToShort(b: seq<Byte>): (r: int)
    ensures 0 <= r < TWO16
  {
    At(b, 0) + 256 * At(b, 1)
  }

  function IntToBytes(n: int): (r: seq<Byte>)
    ensures |r| == 4
  {
    [n % 256, (n / 256) % 256, (n / 65536) % 256, (n / 16777216) % 256]
  }

  /** `(b3 & 0xff) << 24` is a signed 32-bit result in JavaScript, so a top
      byte of 128 or more makes the value negative. */
  function BytesToInt(b: seq<Byte>): (r: int)
    ensures -TWO31 <= r < TWO31
  {
    Signed32(At(b, 0) + 256 * At(b, 1) + 65536 * At(b, 2) + 16777216 * At(b, 3))
  }

  function LongToBytes(n: int): (r: seq<Byte>)
    ensures |r| == 8
  {
    [n % 256, (n / 256) % 256, (n / 65536) % 256, (n / 16777216) % 256,
     (n / 4294967296) % 256, (n / 1099511627776) % 256,
     (n / 281474976710656) % 256, (n / 72057594037927936) % 256]
  }

  /** `BigInt(bytes[k])` throws when the element is missing, hence `None`. */
  function BytesToLong(b: seq<Byte>): (r: Option<int>)
    ensures r.Some? <==> |b| >= 8
  {
    if |b| < 8 then None
    else
      Some(b[0] as int + 256 * (b[1] as int) + 65536 * (b[2] as int)
           + 16777216 * (b[3] as int) + 4294967296 * (b[4] as int)
           + 1099511627776 * (b[5] as int) + 281474976710656 * (b[6] as int)
           + 72057594037927936 * (b[7] as int))
  }

  // ---------------------------------------------------------------------
  // Arithmetic helpers.

  lemma DivModUnique(n: int, d: int, q: int, r: int)
    requires d > 0 && 0 <= r < d && n == d * q + r
    ensures n / d == q && n % d == r
  {
    var q', r' := n / d, n % d;
    assert d * q' + r' == d * q + r;
    assert d * (q' - q) == r - r';
    if q' - q >= 1 {
      MulAtLeast(d, q' - q);
    } else if q - q' >= 1 {
      MulAtLeast(d, q - q');
    }
  }

  lemma MulAtLeast(d: int, x: int)
    requires d > 0 && x >= 1
    ensures d * x >= d
  {
    assert d * x == d * (x - 1) + d;
  }

  /** The product of a positive number and a fraction of it, bounded. */
  lemma MulBelow(a: int, x: int, b: int)
    requires a > 0 && 0 <= x < b
    ensures 0 <= a * x && a * x + a <= a * b
  {
    if x > 0 {
      MulAtLeast(a, x);
    }
    assert a * b == a * x + a * (b - x);
    MulAtLeast(a, b - x);
  }

  /** Division by a product is division by each factor in turn; the remainder nests likewise. */
  lemma DivDiv(n: int, a: int, b: int)
    requires a > 0 && b > 0
    ensures a * b > 0
    ensures (n / a) / b == n / (a * b)
    ensures n % (a * b) == n % a + a * ((n / a) % b)
  {
    var q1, r1 := n / a, n % a;
    var q2, r2 := q1 / b, q1 % b;
    MulAtLeast(a, b);
    assert n == a * q1 + r1;
    assert q1 == b * q2 + r2;
    assert a * q1 == (a * b) * q2 + a * r2 by {
      assert a * (b * q2 + r2) == a * (b * q2) + a * r2;
      assert a * (b * q2) == (a * b) * q2;
    }
    MulBelow(a, r2, b);
    DivModUnique(n, a * b, q2, a * r2 + r1);
  }

  /** Dividing by 256 once more moves to the next byte. */
  lemma DivStep(n: int, k: nat)
    ensures (n / Pow256(k)) / 256 == n / Pow256(k + 1)
  {
    DivDiv(n, Pow256(k), 256);
  }

  // ---------------------------------------------------------------------
  // Properties of the reference definitions.

  lemma {:induction false} ValueBound(b: seq<Byte>)
    ensures Value(b) < Pow256(|b|)
  {
    if b != [] {
      ValueBound(b[1..]);
    }
  }

  /** Encoding keeps exactly the value modulo 256^k. */
  lemma {:induction false} ValueOfLittleEndian(n: int, k: nat)
    decreases k
    ensures |LittleEndian(n, k)| == k
    ensures Value(LittleEndian(n, k)) == n % Pow256(k)
  {
    if k > 0 {
      ValueOfLittleEndian(n / 256, k - 1);
      assert LittleEndian(n, k)[1..] == LittleEndian(n / 256, k - 1);
      assert Value(LittleEndian(n, k)) == n % 256 + 256 * ((n / 256) % Pow256(k - 1));
      DivDiv(n, 256, Pow256(k - 1));
    }
  }

  /** Decoding then encoding at the same width gives the bytes back. */
  lemma {:induction false} LittleEndianOfValue(b: seq<Byte>)
    ensures LittleEndian(Value(b), |b|) == b
  {
    if b != [] {
      LittleEndianOfValue(b[1..]);
      DivModUnique(Value(b), 256, Value(b[1..]), b[0]);
    }
  }

  /** Byte k of the k'-byte encoding holds bits 8k..8k+7. */
  lemma {:induction false} LittleEndianByte(n: int, width: nat, k: nat)
    decreases k
    requires k < width
    ensures |LittleEndian(n, width)| == width
    ensures LittleEndian(n, width)[k] == (n / Pow256(k)) % 256
  {
    ValueOfLittleEndian(n, width);
    if k > 0 {
      LittleEndianByte(n / 256, width - 1, k - 1);
      DivDiv(n, 256, Pow256(k - 1));
    }
  }

  /** Encodings agree whenever the values agree modulo 256^k. */
  lemma LittleEndianMod(n: int, k: nat)
    ensures LittleEndian(n % Pow256(k), k) == LittleEndian(n, k)
  {
    ValueOfLittleEndian(n, k);
    LittleEndianOfValue(LittleEndian(n, k));
  }

  // ---------------------------------------------------------------------
  // The source's codecs are the reference definitions at widths 2, 4 and 8.

  lemma ShortToBytesIsLittleEndian(n: int)
    ensures ShortToBytes(n) == LittleEndian(n, 2)
  {
  }

  lemma IntToBytesIsLittleEndian(n: int)
    ensures IntToBytes(n) == LittleEndian(n, 4)
  {
    DivDiv(n, 256, 256);
    DivDiv(n, 65536, 256);
    assert LittleEndian(n, 4) == [n % 256] + LittleEndian(n / 256, 3);
  }

  lemma LongToBytesIsLittleEndian(n: int)
    ensures LongToBytes(n) == LittleEndian(n, 8)
  {
    var e := LittleEndian(n, 8);
    ValueOfLittleEndian(n, 8);
    forall k | 0 <= k < 8
      ensures e[k] == LongToBytes(n)[k]
    {
      LittleEndianByte(n, 8, k);
      assert Pow256(1) == 256;
      assert Pow256(2) == 65536;
      assert Pow256(3) == 16777216;
      assert Pow256(4) == 4294967296;
      assert Pow256(5) == 1099511627776;
      assert Pow256(6) == 281474976710656;
      assert Pow256(7) == 72057594037927936;
    }
    ValueOfLittleEndian(n, 8);
  }

  // ---------------------------------------------------------------------
  // Round trips.

  /** A short survives encoding, and only its low 16 bits are kept. */
  lemma ShortRoundTrip(n: int)
    ensures BytesToShort(ShortToBytes(n)) == n % TWO16
    ensures 0 <= n < TWO16 ==> BytesToShort(ShortToBytes(n)) == n
  {
    ShortToBytesIsLittleEndian(n);
    ValueOfLittleEndian(n, 2);
    assert [At(ShortToBytes(n), 0), At(ShortToBytes(n), 1)] == ShortToBytes(n);
  }

  /** Two bytes survive decoding then encoding; bytes past the second are never read. */
  lemma ShortBytesRoundTrip(b: seq<Byte>)
    requires |b| >= 2
    ensures ShortToBytes(BytesToShort(b)) == b[..2]
    ensures BytesToShort(b) == BytesToShort(b[..2])
  {
    assert [At(b, 0), At(b, 1)] == b[..2];
    LittleEndianOfValue(b[..2]);
    ShortToBytesIsLittleEndian(BytesToShort(b));
  }

  lemma Value4(b: seq<Byte>)
    requires |b| == 4
    ensures Value(b) == b[0] as int + 256 * (b[1] as int) + 65536 * (b[2] as int) + 16777216 * (b[3] as int)
  {
    var t1 := b[1..];
    var t2 := t1[1..];
    var t3 := t2[1..];
    assert Value(t3) == t3[0] + 256 * Value(t3[1..]);
    assert t3[1..] == [];
    assert Value(t2) == t2[0] + 256 * Value(t3);
    assert Value(t1) == t1[0] + 256 * Value(t2);
  }

  lemma Value8(b: seq<Byte>)
    requires |b| == 8
    ensures Value(b) == b[0] as int + 256 * (b[1] as int) + 65536 * (b[2] as int)
           + 16777216 * (b[3] as int) + 4294967296 * (b[4] as int)
           + 1099511627776 * (b[5] as int) + 281474976710656 * (b[6] as int)
           + 72057594037927936 * (b[7] as int)
  {
    var hi := b[4..];
    Value4(hi);
    var t1 := b[1..];
    var t2 := t1[1..];
    var t3 := t2[1..];
    assert t3[1..] == hi;
    assert Value(t3) == t3[0] + 256 * Value(hi);
    assert Value(t2) == t2[0] + 256 * Value(t3);
    assert Value(t1) == t1[0] + 256 * Value(t2);
  }

  /** The 32-bit decoder is the signed reading of the four-byte value. */
  lemma BytesToIntIsSigned(b: seq<Byte>)
    requires |b| == 4
    ensures BytesToInt(b) == Signed32(Value(b))
  {
    Value4(b);
  }

  /** An int comes back as its ToInt32 value: itself below 2^31, n - 2^32 from 2^31 to 2^32. */
  lemma IntRoundTrip(n: int)
    ensures BytesToInt(IntToBytes(n)) == ToInt32(n)
    ensures 0 <= n < TWO31 ==> BytesToInt(IntToBytes(n)) == n
    ensures TWO31 <= n < TWO32 ==> BytesToInt(IntToBytes(n)) == n - TWO32
  {
    IntToBytesIsLittleEndian(n);
    ValueOfLittleEndian(n, 4);
    BytesToIntIsSigned(IntToBytes(n));
    assert Pow256(4) == TWO32;
    if 0 <= n < TWO32 {
      DivModUnique(n, TWO32, 0, n);
    }
  }

  /** Four bytes survive decoding then encoding, whatever their sign bit. */
  lemma IntBytesRoundTrip(b: seq<Byte>)
    requires |b| == 4
    ensures IntToBytes(BytesToInt(b)) == b
  {
    var v := Value(b);
    BytesToIntIsSigned(b);
    ValueBound(b);
    assert Pow256(4) == TWO32;
    LittleEndianOfValue(b);
    IntToBytesIsLittleEndian(BytesToInt(b));
    if v >= TWO31 {
      DivModUnique(v - TWO32, TWO32, -1, v);
      LittleEndianMod(v - TWO32, 4);
      LittleEndianMod(v, 4);
      DivModUnique(v, TWO32, 0, v);
    }
  }

  /** Every 64-bit unsigned value survives the client's long codec. */
  lemma LongRoundTrip(n: int)
    requires 0 <= n < TWO64
    ensures BytesToLong(LongToBytes(n)) == Some(n)
  {
    LongToBytesIsLittleEndian(n);
    ValueOfLittleEndian(n, 8);
    Value8(LongToBytes(n));
    assert Pow256(8) == TWO64;
    DivModUnique(n, TWO64, 0, n);
  }

  /** Eight bytes survive decoding then encoding. */
  lemma LongBytesRoundTrip(b: seq<Byte>)
    requires |b| == 8
    ensures BytesToLong(b).Some? && LongToBytes(BytesToLong(b).value) == b
  {
    Value8(b);
    LittleEndianOfValue(b);
    LongToBytesIsLittleEndian(Value(b));
  }
}
