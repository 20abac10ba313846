/** Machine words as the hash code sees them: counters with C's unsigned arithmetic,
    and words in memory, loaded, stored and byte-swapped in the host's byte order. */
module Words {

  type byte = bv8
  type word = bv32
  type dword = bv64

  const TWO32 := 0x1_0000_0000
  const TWO64 := 0x1_0000_0000_0000_0000

  type uint32 = n: nat | n < TWO32
  type uint64 = n: nat | n < TWO64

  /** The byte order the code is compiled for (WORDS_BIGENDIAN). */
  datatype ByteOrder = LittleEndian | BigEndian

  // ----- numbers as bytes

  /** The k low-order bytes of n, least significant first. */
  function Bytes(n: nat, k: nat): (s: seq<byte>)
    ensures |s| == k
    decreases k
  {
    if k == 0 then [] else [(n % 256) as byte] + Bytes(n / 256, k - 1)
  }

  function Reverse(s: seq<byte>): (r: seq<byte>)
    ensures |r| == |s|
  {
    if s == [] then [] else Reverse(s[1..]) + [s[0]]
  }

  lemma {:induction false} ReverseConcat(a: seq<byte>, b: seq<byte>)
    ensures Reverse(a + b) == Reverse(b) + Reverse(a)
  {
    if a == [] {
      assert a + b == b;
    } else {
      assert (a + b)[1..] == a[1..] + b;
      ReverseConcat(a[1..], b);
    }
  }

  lemma {:induction false} ReverseTwice(s: seq<byte>)
    ensures Reverse(Reverse(s)) == s
  {
    if s != [] {
      ReverseConcat(Reverse(s[1..]), [s[0]]);
      ReverseTwice(s[1..]);
      assert Reverse([s[0]]) == [s[0]];
      assert s == [s[0]] + s[1..];
    }
  }

  function Pow256(k: nat): nat { if k == 0 then 1 else 256 * Pow256(k - 1) }

  // The digits of n + 256 * m: the lowest one of n, then those of n / 256 + m
  lemma LowDigit(n: nat, m: nat)
    ensures (n + 256 * m) % 256 == n % 256
    ensures (n + 256 * m) / 256 == n / 256 + m
  {}

  lemma TimesPower(n: nat, k: nat)
    requires k > 0
    ensures n * Pow256(k) == 256 * (n * Pow256(k - 1))
  {}

  /** A number below 256^j followed by another is one longer number. */
  lemma {:induction false} BytesConcat(low: nat, high: nat, j: nat, k: nat)
    requires low < Pow256(j)
    ensures Bytes(low + high * Pow256(j), j + k) == Bytes(low, j) + Bytes(high, k)
  {
    if j > 0 {
      TimesPower(high, j);
      LowDigit(low, high * Pow256(j - 1));
      BytesConcat(low / 256, high, j - 1, k);
    }
  }

  /** Only the low-order digits of a number show in its low-order bytes. */
  lemma {:induction false} BytesWrap(n: nat, m: nat, k: nat)
    ensures Bytes(n + m * Pow256(k), k) == Bytes(n, k)
    decreases k
  {
    if k > 0 {
      TimesPower(m, k);
      LowDigit(n, m * Pow256(k - 1));
      BytesWrap(n / 256, m, k - 1);
    }
  }

  lemma Increment(b: byte)
    requires b != 0xff
    ensures (b + 1) as int == b as int + 1
  {}

  lemma {:induction false} ByteWithValue(d: nat) returns (b: byte)
    requires d < 256
    ensures b as int == d
  {
    if d == 0 {
      b := 0;
    } else {
      b := ByteWithValue(d - 1);
      Increment(b);
      b := b + 1;
    }
  }

  lemma ByteIsFaithful(d: nat)
    requires d < 256
    ensures (d as byte) as int == d
  {
    var b := ByteWithValue(d);
  }

  /** Bytes determine the number they were taken from. */
  lemma {:induction false} BytesInjective(m: nat, n: nat, k: nat)
    requires m < Pow256(k) && n < Pow256(k)
    requires Bytes(m, k) == Bytes(n, k)
    ensures m == n
    decreases k
  {
    if k > 0 {
      var x, y := Bytes(m, k), Bytes(n, k);
      assert x[0] == y[0] && x[1..] == y[1..];
      ByteIsFaithful(m % 256);
      ByteIsFaithful(n % 256);
      BytesInjective(m / 256, n / 256, k - 1);
    }
  }

  lemma PowersOf256()
    ensures Pow256(4) == TWO32
    ensures Pow256(8) == TWO64
  {
    assert Pow256(2) == 0x1_0000;
    assert Pow256(6) == 0x1_0000_0000_0000;
  }

  // ----- C's unsigned arithmetic

  lemma AddModulo(a: nat, b: nat)
    ensures (a % TWO64 + b) % TWO64 == (a + b) % TWO64
  {}

  function BitOr(a: nat, b: nat): nat
    decreases a + b
  {
    if a == 0 && b == 0 then 0
    else 2 * BitOr(a / 2, b / 2) + (if a % 2 == 1 || b % 2 == 1 then 1 else 0)
  }

  lemma {:induction false} OrZero(a: nat)
    ensures BitOr(a, 0) == a
  {
    if a > 0 { OrZero(a / 2); }
  }

  lemma OrDouble(a: nat, b: nat)
    ensures BitOr(2 * a, b) == 2 * BitOr(a, b / 2) + b % 2
  {}

  function Pow2(k: nat): nat { if k == 0 then 1 else 2 * Pow2(k - 1) }

  /** Or-ing into k vacated low bits is addition. */
  lemma {:induction false} OrDisjoint(a: nat, b: nat, k: nat)
    requires b < Pow2(k)
    ensures BitOr(a * Pow2(k), b) == a * Pow2(k) + b
    decreases k
  {
    if k == 0 {
      OrZero(a);
    } else {
      var p := Pow2(k - 1);
      assert a * Pow2(k) == 2 * (a * p);
      OrDouble(a * p, b);
      OrDisjoint(a, b / 2, k - 1);
    }
  }

  // ----- words in registers

  /** Addition modulo 2^32. */
  function Plus(x: word, y: word): word { x + y }

  /** Plus counts: one more in y is one more in the sum.  With the sum of x and 0 this
      determines it for all words. */
  lemma PlusCounts(x: word, y: word)
    ensures Plus(x, 0) == x
    ensures Plus(x, y + 1) == Plus(x, y) + 1
  {}

  /** The largest word is followed by 0. */
  lemma PlusWraps(x: word)
    ensures Plus(x, !x) == 0xffff_ffff
    ensures Plus(0xffff_ffff, 1) == 0
  {}

  /** Words without a common bit are or-ed, equal ones shifted. */
  lemma PlusAndBits(x: word, y: word)
    ensures x & y == 0 ==> Plus(x, y) == x | y
    ensures Plus(x, x) == x << 1
  {}

  /** Circular shift to the left. */
  function Rotate(w: word, s: nat): word
    requires 0 < s < 32
  {
    (w << s) | (w >> (32 - s))
  }

  /** One of four table entries. */
  function Pick(j: int, a: word, b: word, c: word, d: word): word {
    if j < 2 then (if j < 1 then a else b) else (if j < 3 then c else d)
  }

  // ----- words in memory

  function ToByte(w: word): byte { (w & 0xff) as byte }

  function BigEndianBytes(w: word): (s: seq<byte>)
    ensures |s| == 4
  {
    [ToByte(w >> 24), ToByte(w >> 16), ToByte(w >> 8), ToByte(w)]
  }

  function LittleEndianBytes(w: word): (s: seq<byte>)
    ensures |s| == 4
  {
    [ToByte(w), ToByte(w >> 8), ToByte(w >> 16), ToByte(w >> 24)]
  }

  function FromBigEndian(b: seq<byte>): word
    requires |b| == 4
  {
    (b[0] as word << 24) | (b[1] as word << 16) | (b[2] as word << 8) | b[3] as word
  }

  function FromLittleEndian(b: seq<byte>): word
    requires |b| == 4
  {
    (b[3] as word << 24) | (b[2] as word << 16) | (b[1] as word << 8) | b[0] as word
  }

  /** The bytes a 32-bit store leaves in memory. */
  function Stored32(order: ByteOrder, w: word): (s: seq<byte>)
    ensures |s| == 4
  {
    if order.BigEndian? then BigEndianBytes(w) else LittleEndianBytes(w)
  }

  /** The word a 32-bit load reads from memory. */
  function Loaded32(order: ByteOrder, b: seq<byte>): word
    requires |b| == 4
  {
    if order.BigEndian? then FromBigEndian(b) else FromLittleEndian(b)
  }

  function Low32(t: dword): word { (t & 0xffff_ffff) as word }

  function High32(t: dword): word { (t >> 32) as word }

  function Join(high: word, low: word): dword { (high as dword << 32) | low as dword }

  /** The bytes a 64-bit store leaves in memory. */
  function Stored64(order: ByteOrder, t: dword): (s: seq<byte>)
    ensures |s| == 8
  {
    if order.BigEndian? then BigEndianBytes(High32(t)) + BigEndianBytes(Low32(t))
    else LittleEndianBytes(Low32(t)) + LittleEndianBytes(High32(t))
  }

  /** The register holding a counter. */
  function Register32(n: uint32): word { FromLittleEndian(Bytes(n, 4)) }

  function Register64(n: uint64): dword {
    Join(FromLittleEndian(Bytes(n, 8)[4..]), FromLittleEndian(Bytes(n, 8)[..4]))
  }

  // ----- byte swapping

  function ByteSwap32(n: word): word {
    (n << 24) | ((n & 0xff00) << 8) | ((n >> 8) & 0xff00) | (n >> 24)
  }

  function ByteSwap64(n: dword): dword {
    (n << 56) | ((n & 0xff00) << 40) | ((n & 0xff0000) << 24) | ((n & 0xff000000) << 8)
    | ((n >> 8) & 0xff000000) | ((n >> 24) & 0xff0000) | ((n >> 40) & 0xff00) | (n >> 56)
  }

  lemma SwapReversesLoad(b: seq<byte>)
    requires |b| == 4
    ensures ByteSwap32(FromLittleEndian(b)) == FromBigEndian(b)
    ensures ByteSwap32(FromBigEndian(b)) == FromLittleEndian(b)
  {}

  lemma SwapReversesStore(w: word)
    ensures LittleEndianBytes(ByteSwap32(w)) == BigEndianBytes(w)
    ensures BigEndianBytes(ByteSwap32(w)) == LittleEndianBytes(w)
  {}

  lemma SwapHalves(t: dword)
    ensures Low32(ByteSwap64(t)) == ByteSwap32(High32(t))
    ensures High32(ByteSwap64(t)) == ByteSwap32(Low32(t))
  {}

  lemma StoreAfterLoad(b: seq<byte>)
    requires |b| == 4
    ensures LittleEndianBytes(FromLittleEndian(b)) == b
    ensures BigEndianBytes(FromLittleEndian(b)) == [b[3], b[2], b[1], b[0]]
  {}

  lemma ReverseFour(b: seq<byte>)
    requires |b| == 4
    ensures Reverse(b) == [b[3], b[2], b[1], b[0]]
  {
    assert Reverse(b[2..]) == [b[3], b[2]];
    assert b[1..][1..] == b[2..];
  }

  lemma Halves(high: word, low: word)
    ensures High32(Join(high, low)) == high
    ensures Low32(Join(high, low)) == low
  {}

  // ----- a count in the length field

  lemma OrThreeBits(a: nat, b: nat)
    requires b < 8
    ensures BitOr(8 * a, b) == 8 * a + b
  {
    assert Pow2(3) == 8;
    OrDisjoint(a, b, 3);
  }

  lemma Remainder32(n: nat, q: nat, r: nat)
    requires n == r + q * TWO32 && r < TWO32
    ensures n % TWO32 == r
  {}

  lemma Remainder64(n: nat, q: nat, r: nat)
    requires n == r + q * TWO64 && r < TWO64
    ensures n % TWO64 == r
  {}

  /** Three places to the left in a 64-bit register, computed on its 32-bit halves:
      low << 3 and (high << 3) | (low >> 29). */
  function ShiftedLow(low: uint32): uint32 { low * 8 % TWO32 }

  function ShiftedHigh(high: uint32, low: uint32): uint32 {
    ShiftedHighValue(high, low);
    BitOr(high * 8 % TWO32, low / 0x2000_0000)
  }

  lemma ShiftedHighValue(high: uint32, low: uint32)
    ensures BitOr(high * 8 % TWO32, low / 0x2000_0000) == 8 * (high % 0x2000_0000) + low / 0x2000_0000
  {
    Remainder32(high * 8, high / 0x2000_0000, 8 * (high % 0x2000_0000));
    OrThreeBits(high % 0x2000_0000, low / 0x2000_0000);
  }

  lemma ShiftHalves(high: uint32, low: uint32)
    ensures ShiftedHigh(high, low) * TWO32 + ShiftedLow(low) == (high * TWO32 + low) * 8 % TWO64
  {
    var h, c := high % 0x2000_0000, low / 0x2000_0000;
    ShiftedHighValue(high, low);
    Remainder32(low * 8, c, low * 8 - c * TWO32);
    Remainder64((high * TWO32 + low) * 8, high / 0x2000_0000, (8 * h + c) * TWO32 + ShiftedLow(low));
  }

  // The next three lemmas name the number of bytes so that Bytes is not unrolled
  lemma JoinedBytes(high: nat, low: nat, k: nat)
    requires Pow256(k) == TWO32 && low < TWO32
    ensures Bytes(high * TWO32 + low, k + k) == Bytes(low, k) + Bytes(high, k)
  {
    BytesConcat(low, high, k, k);
  }

  lemma ReducedBytes(n: nat, k: nat)
    requires Pow256(k) == TWO64
    ensures Bytes(n % TWO64, k) == Bytes(n, k)
  {
    BytesWrap(n % TWO64, n / TWO64, k);
    assert n == n % TWO64 + n / TWO64 * TWO64;
  }

  lemma BitCountBytes(n: nat, total: uint64, k: nat)
    requires Pow256(k) == TWO64
    requires total == n % TWO64
    ensures Bytes(total * 8 % TWO64, k) == Bytes(8 * n, k)
  {
    ReducedBytes(total * 8, k);
    BytesWrap(total * 8, 8 * (n / TWO64), k);
    assert 8 * n == total * 8 + 8 * (n / TWO64) * TWO64;
  }
}
