/** MD5 as RFC 1321 defines it: sections 3.1 and 3.2 (padding and length), 3.3 (initial
    value), 3.4 (the 64 steps, written as one loop) and 3.5 (output). */
module Md5Spec {
  import opened Words
  import opened Blocks

  datatype HashValue = HashValue(a: word, b: word, c: word, d: word)

  const IV := HashValue(0x67452301, 0xefcdab89, 0x98badcfe, 0x10325476)

  /** The table of section 3.4, counted from 0. */
  function T(i: nat): word
    requires i < 64
  {
    if i < 32 then
      if i < 16 then
        if i < 8 then
          if i < 4 then Pick(i, 0xd76aa478, 0xe8c7b756, 0x242070db, 0xc1bdceee)
          else Pick(i - 4, 0xf57c0faf, 0x4787c62a, 0xa8304613, 0xfd469501)
        else
          if i < 12 then Pick(i - 8, 0x698098d8, 0x8b44f7af, 0xffff5bb1, 0x895cd7be)
          else Pick(i - 12, 0x6b901122, 0xfd987193, 0xa679438e, 0x49b40821)
      else
        if i < 24 then
          if i < 20 then Pick(i - 16, 0xf61e2562, 0xc040b340, 0x265e5a51, 0xe9b6c7aa)
          else Pick(i - 20, 0xd62f105d, 0x02441453, 0xd8a1e681, 0xe7d3fbc8)
        else
          if i < 28 then Pick(i - 24, 0x21e1cde6, 0xc33707d6, 0xf4d50d87, 0x455a14ed)
          else Pick(i - 28, 0xa9e3e905, 0xfcefa3f8, 0x676f02d9, 0x8d2a4c8a)
    else
      if i < 48 then
        if i < 40 then
          if i < 36 then Pick(i - 32, 0xfffa3942, 0x8771f681, 0x6d9d6122, 0xfde5380c)
          else Pick(i - 36, 0xa4beea44, 0x4bdecfa9, 0xf6bb4b60, 0xbebfbc70)
        else
          if i < 44 then Pick(i - 40, 0x289b7ec6, 0xeaa127fa, 0xd4ef3085, 0x04881d05)
          else Pick(i - 44, 0xd9d4d039, 0xe6db99e5, 0x1fa27cf8, 0xc4ac5665)
      else
        if i < 56 then
          if i < 52 then Pick(i - 48, 0xf4292244, 0x432aff97, 0xab9423a7, 0xfc93a039)
          else Pick(i - 52, 0x655b59c3, 0x8f0ccc92, 0xffeff47d, 0x85845dd1)
        else
          if i < 60 then Pick(i - 56, 0x6fa87e4f, 0xfe2ce6e0, 0xa3014314, 0x4e0811a1)
          else Pick(i - 60, 0xf7537e82, 0xbd3af235, 0x2ad7d2bb, 0xeb86d391)
  }

  function F(x: word, y: word, z: word): word { (x & y) | (!x & z) }

  function G(x: word, y: word, z: word): word { (x & z) | (y & !z) }

  function H(x: word, y: word, z: word): word { x ^ y ^ z }

  function I(x: word, y: word, z: word): word { y ^ (x | !z) }

  /** F chooses, bit by bit, between y and z. */
  lemma FChooses(x: word, y: word, z: word)
    ensures F(x, y, z) & x == y & x && F(x, y, z) & !x == z & !x
  {}

  /** G chooses between x and y. */
  lemma GChooses(x: word, y: word, z: word)
    ensures G(x, y, z) & z == x & z && G(x, y, z) & !z == y & !z
  {}

  /** H is the parity of the three words. */
  lemma Parity(x: word, y: word, z: word)
    ensures H(x, y, z) ^ z == x ^ y && H(x, x, z) == z
  {}

  /** I inverts y where x is set or z is not. */
  lemma Inversion(x: word, y: word, z: word)
    ensures I(x, y, z) & (x | !z) == !y & (x | !z)
    ensures I(x, y, z) & !(x | !z) == y & !(x | !z)
  {}

  function Auxiliary(i: nat, x: word, y: word, z: word): word {
    if i < 16 then F(x, y, z) else if i < 32 then G(x, y, z) else if i < 48 then H(x, y, z) else I(x, y, z)
  }

  /** Which message word step i uses. */
  function WordIndex(i: nat): (k: nat)
    ensures k < 16
  {
    if i < 16 then i else if i < 32 then (5 * i + 1) % 16 else if i < 48 then (3 * i + 5) % 16 else 7 * i % 16
  }

  /** How far step i rotates. */
  function Shift(i: nat): (s: nat)
    ensures 0 < s < 32
  {
    var j := i % 4;
    if i < 16 then 7 + 5 * j
    else if i < 32 then (if j == 0 then 5 else if j == 1 then 9 else if j == 2 then 14 else 20)
    else if i < 48 then (if j == 0 then 4 else if j == 1 then 11 else if j == 2 then 16 else 23)
    else (if j == 0 then 6 else if j == 1 then 10 else if j == 2 then 15 else 21)
  }

  /** The rotation really is circular, for every amount the steps use. */
  lemma RotationIsCircular(w: word)
    ensures Rotate(w, 4) == w.RotateLeft(4)
    ensures Rotate(w, 5) == w.RotateLeft(5)
    ensures Rotate(w, 6) == w.RotateLeft(6)
    ensures Rotate(w, 7) == w.RotateLeft(7)
    ensures Rotate(w, 9) == w.RotateLeft(9)
    ensures Rotate(w, 10) == w.RotateLeft(10)
    ensures Rotate(w, 11) == w.RotateLeft(11)
    ensures Rotate(w, 12) == w.RotateLeft(12)
    ensures Rotate(w, 14) == w.RotateLeft(14)
    ensures Rotate(w, 15) == w.RotateLeft(15)
    ensures Rotate(w, 16) == w.RotateLeft(16)
    ensures Rotate(w, 17) == w.RotateLeft(17)
    ensures Rotate(w, 20) == w.RotateLeft(20)
    ensures Rotate(w, 21) == w.RotateLeft(21)
    ensures Rotate(w, 22) == w.RotateLeft(22)
    ensures Rotate(w, 23) == w.RotateLeft(23)
  {}

  /** Message word k of a block, low-order byte first. */
  function MessageWords(block: Block, n: nat): (x: seq<word>)
    requires n <= 16
    ensures |x| == n
  {
    if n == 0 then []
    else MessageWords(block, n - 1) + [FromLittleEndian(block[4 * (n - 1)..4 * n])]
  }

  lemma {:induction false} WordOfBlock(block: Block, n: nat, k: nat)
    requires k < n <= 16
    ensures MessageWords(block, n)[k] == FromLittleEndian(block[4 * k..4 * k + 4])
  {
    hide FromLittleEndian;
    if k < n - 1 {
      WordOfBlock(block, n - 1, k);
    }
  }

  /** Step i: a takes part, then the four registers move round by one. */
  function Step(v: HashValue, x: seq<word>, i: nat): HashValue
    requires |x| == 16 && i < 64
  {
    var sum := Plus(v.a, Plus(Plus(Auxiliary(i, v.b, v.c, v.d), x[WordIndex(i)]), T(i)));
    HashValue(v.d, Plus(Rotate(sum, Shift(i)), v.b), v.b, v.c)
  }

  /** Steps i up to but not including n. */
  function Steps(v: HashValue, x: seq<word>, i: nat, n: nat): HashValue
    requires |x| == 16 && i <= n <= 64
    decreases n
  {
    if i == n then v else Step(Steps(v, x, i, n - 1), x, n - 1)
  }

  lemma {:induction false} StepsCompose(v: HashValue, x: seq<word>, i: nat, j: nat, n: nat)
    requires |x| == 16 && i <= j <= n <= 64
    ensures Steps(Steps(v, x, i, j), x, j, n) == Steps(v, x, i, n)
    decreases n
  {
    hide Step;
    if j < n {
      StepsCompose(v, x, i, j, n - 1);
    }
  }

  function Add(v: HashValue, w: HashValue): HashValue {
    HashValue(Plus(v.a, w.a), Plus(v.b, w.b), Plus(v.c, w.c), Plus(v.d, w.d))
  }

  function Compress(v: HashValue, block: Block): HashValue {
    Add(Steps(v, MessageWords(block, 16), 0, 64), v)
  }

  /** Section 3.2: the bit length, low-order byte first. */
  function LengthField(n: nat): (s: seq<byte>)
    ensures |s| == 8
  {
    Bytes(8 * n, 8)
  }

  function Output(v: HashValue): (s: seq<byte>)
    ensures |s| == 16
  {
    LittleEndianBytes(v.a) + LittleEndianBytes(v.b) + LittleEndianBytes(v.c) + LittleEndianBytes(v.d)
  }

  function Digest(message: seq<byte>): (s: seq<byte>)
    ensures |s| == 16
  {
    Output(HashPadded(Compress, IV, message, LengthField(|message|)))
  }

  lemma DigestOf(message: seq<byte>)
    ensures Digest(message) == Output(HashPadded(Compress, IV, message, LengthField(|message|)))
  {
    hide Output, HashPadded, Compress, LengthField;
  }
}
