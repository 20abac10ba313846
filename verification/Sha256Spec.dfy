/** SHA-256 as FIPS 180-2 defines it: sections 4.1.2 (functions), 4.2.2 (constants),
    5.1.1 (padding), 5.3.2 (initial value) and 6.2.2 (computation). */
module Sha256Spec {
  import opened Words
  import opened Blocks

  datatype HashValue = HashValue(a: word, b: word, c: word, d: word, e: word, f: word, g: word, h: word)

  const IV := HashValue(0x6a09e667, 0xbb67ae85, 0x3c6ef372, 0xa54ff53a,
                        0x510e527f, 0x9b05688c, 0x1f83d9ab, 0x5be0cd19)

  /** The constants of section 4.2.2. */
  function K(t: nat): word
    requires t < 64
  {
    if t < 32 then
      if t < 16 then
        if t < 8 then
          if t < 4 then Pick(t, 0x428a2f98, 0x71374491, 0xb5c0fbcf, 0xe9b5dba5)
          else Pick(t - 4, 0x3956c25b, 0x59f111f1, 0x923f82a4, 0xab1c5ed5)
        else
          if t < 12 then Pick(t - 8, 0xd807aa98, 0x12835b01, 0x243185be, 0x550c7dc3)
          else Pick(t - 12, 0x72be5d74, 0x80deb1fe, 0x9bdc06a7, 0xc19bf174)
      else
        if t < 24 then
          if t < 20 then Pick(t - 16, 0xe49b69c1, 0xefbe4786, 0x0fc19dc6, 0x240ca1cc)
          else Pick(t - 20, 0x2de92c6f, 0x4a7484aa, 0x5cb0a9dc, 0x76f988da)
        else
          if t < 28 then Pick(t - 24, 0x983e5152, 0xa831c66d, 0xb00327c8, 0xbf597fc7)
          else Pick(t - 28, 0xc6e00bf3, 0xd5a79147, 0x06ca6351, 0x14292967)
    else
      if t < 48 then
        if t < 40 then
          if t < 36 then Pick(t - 32, 0x27b70a85, 0x2e1b2138, 0x4d2c6dfc, 0x53380d13)
          else Pick(t - 36, 0x650a7354, 0x766a0abb, 0x81c2c92e, 0x92722c85)
        else
          if t < 44 then Pick(t - 40, 0xa2bfe8a1, 0xa81a664b, 0xc24b8b70, 0xc76c51a3)
          else Pick(t - 44, 0xd192e819, 0xd6990624, 0xf40e3585, 0x106aa070)
      else
        if t < 56 then
          if t < 52 then Pick(t - 48, 0x19a4c116, 0x1e376c08, 0x2748774c, 0x34b0bcb5)
          else Pick(t - 52, 0x391c0cb3, 0x4ed8aa4a, 0x5b9cca4f, 0x682e6ff3)
        else
          if t < 60 then Pick(t - 56, 0x748f82ee, 0x78a5636f, 0x84c87814, 0x8cc70208)
          else Pick(t - 60, 0x90befffa, 0xa4506ceb, 0xbef9a3f7, 0xc67178f2)
  }

  function Ch(x: word, y: word, z: word): word { (x & y) ^ (!x & z) }

  function Maj(x: word, y: word, z: word): word { (x & y) ^ (x & z) ^ (y & z) }

  /** Ch chooses, bit by bit, between y and z. */
  lemma ChChooses(x: word, y: word, z: word)
    ensures Ch(x, y, z) & x == y & x && Ch(x, y, z) & !x == z & !x
  {}

  /** Maj is the common value of x and y where they agree, and z where they do not. */
  lemma MajIsMajority(x: word, y: word, z: word)
    ensures Maj(x, y, z) & !(x ^ y) == x & !(x ^ y)
    ensures Maj(x, y, z) & (x ^ y) == z & (x ^ y)
  {}

  function BigSigma0(x: word): word { x.RotateRight(2) ^ x.RotateRight(13) ^ x.RotateRight(22) }

  function BigSigma1(x: word): word { x.RotateRight(6) ^ x.RotateRight(11) ^ x.RotateRight(25) }

  function SmallSigma0(x: word): word { x.RotateRight(7) ^ x.RotateRight(18) ^ (x >> 3) }

  function SmallSigma1(x: word): word { x.RotateRight(17) ^ x.RotateRight(19) ^ (x >> 10) }

  /** Word t of the message schedule (step 1), given the words before it. */
  function ScheduleWord(block: Block, w: seq<word>): word
    requires |w| < 64
  {
    var t := |w|;
    if t < 16 then FromBigEndian(block[4 * t..4 * t + 4])
    else Plus(Plus(Plus(SmallSigma1(w[t - 2]), w[t - 7]), SmallSigma0(w[t - 15])), w[t - 16])
  }

  /** The first n words of the message schedule. */
  function Schedule(block: Block, n: nat): (w: seq<word>)
    requires n <= 64
    ensures |w| == n
  {
    if n == 0 then [] else
      var w := Schedule(block, n - 1);
      w + [ScheduleWord(block, w)]
  }

  /** One round of step 3 with constant k and schedule word w. */
  function Round(v: HashValue, k: word, w: word): HashValue {
    var t1 := Plus(Plus(Plus(Plus(v.h, BigSigma1(v.e)), Ch(v.e, v.f, v.g)), k), w);
    var t2 := Plus(BigSigma0(v.a), Maj(v.a, v.b, v.c));
    HashValue(Plus(t1, t2), v.a, v.b, v.c, Plus(v.d, t1), v.e, v.f, v.g)
  }

  /** The working variables after t rounds over the schedule w. */
  function Rounds(v: HashValue, w: seq<word>, t: nat): HashValue
    requires t <= |w| == 64
  {
    if t == 0 then v else Round(Rounds(v, w, t - 1), K(t - 1), w[t - 1])
  }

  function Add(v: HashValue, w: HashValue): HashValue {
    HashValue(Plus(v.a, w.a), Plus(v.b, w.b), Plus(v.c, w.c), Plus(v.d, w.d),
              Plus(v.e, w.e), Plus(v.f, w.f), Plus(v.g, w.g), Plus(v.h, w.h))
  }

  /** Steps 1 to 4 for one block. */
  function Compress(v: HashValue, block: Block): HashValue {
    Add(Rounds(v, Schedule(block, 64), 64), v)
  }

  /** Section 5.1.1: the bit length as a 64-bit big-endian number. */
  function LengthField(n: nat): (s: seq<byte>)
    ensures |s| == 8
  {
    Reverse(Bytes(8 * n, 8))
  }

  function ConcatWords(w: seq<word>): (s: seq<byte>)
    ensures |s| == 4 * |w|
  {
    if w == [] then [] else ConcatWords(w[..|w| - 1]) + BigEndianBytes(w[|w| - 1])
  }

  lemma ConcatNext(w: seq<word>, x: word)
    ensures ConcatWords(w + [x]) == ConcatWords(w) + BigEndianBytes(x)
  {
    assert (w + [x])[..|w|] == w;
  }

  function Output(v: HashValue): (s: seq<byte>)
    ensures |s| == 32
  {
    ConcatWords([v.a, v.b, v.c, v.d, v.e, v.f, v.g, v.h])
  }

  lemma {:induction false} ConcatAppend(w: seq<word>, x: seq<word>)
    ensures ConcatWords(w + x) == ConcatWords(w) + ConcatWords(x)
  {
    hide BigEndianBytes;
    if x == [] {
      assert w + x == w;
    } else {
      var last := |x| - 1;
      assert (w + x)[..|w| + last] == w + x[..last];
      ConcatAppend(w, x[..last]);
    }
  }

  lemma OneWord(x: word)
    ensures ConcatWords([x]) == BigEndianBytes(x)
  {
    ConcatNext([], x);
    assert [] + [x] == [x];
  }

  lemma FourWords(a: word, b: word, c: word, d: word)
    ensures ConcatWords([a, b, c, d]) == BigEndianBytes(a) + BigEndianBytes(b) + BigEndianBytes(c) + BigEndianBytes(d)
  {
    hide BigEndianBytes, ConcatWords;
    OneWord(a);
    OneWord(b);
    OneWord(c);
    OneWord(d);
    ConcatAppend([a], [b]);
    ConcatAppend([a] + [b], [c]);
    ConcatAppend([a] + [b] + [c], [d]);
    assert [a, b, c, d] == [a] + [b] + [c] + [d];
  }

  /** The digest is the eight words one after the other, most significant byte first. */
  lemma OutputWords(v: HashValue)
    ensures Output(v) == BigEndianBytes(v.a) + BigEndianBytes(v.b) + BigEndianBytes(v.c) + BigEndianBytes(v.d)
                      + (BigEndianBytes(v.e) + BigEndianBytes(v.f) + BigEndianBytes(v.g) + BigEndianBytes(v.h))
  {
    hide BigEndianBytes, ConcatWords;
    assert [v.a, v.b, v.c, v.d, v.e, v.f, v.g, v.h] == [v.a, v.b, v.c, v.d] + [v.e, v.f, v.g, v.h];
    ConcatAppend([v.a, v.b, v.c, v.d], [v.e, v.f, v.g, v.h]);
    FourWords(v.a, v.b, v.c, v.d);
    FourWords(v.e, v.f, v.g, v.h);
  }

  function Digest(message: seq<byte>): (s: seq<byte>)
    ensures |s| == 32
  {
    Output(HashPadded(Compress, IV, message, LengthField(|message|)))
  }

  lemma DigestOf(message: seq<byte>)
    ensures Digest(message) == Output(HashPadded(Compress, IV, message, LengthField(|message|)))
  {
    hide Output, HashPadded, Compress, LengthField;
  }

  // The length field of short messages determines their length
  lemma LengthFieldInjective(m: nat, n: nat, k: nat)
    requires Pow256(k) == TWO64
    requires 8 * m < TWO64 && 8 * n < TWO64
    requires Reverse(Bytes(8 * m, k)) == Reverse(Bytes(8 * n, k))
    ensures m == n
  {
    ReverseTwice(Bytes(8 * m, k));
    ReverseTwice(Bytes(8 * n, k));
    BytesInjective(8 * m, 8 * n, k);
  }

  /** Below 2^61 bytes, where the standard is defined, padding is unambiguous. */
  lemma PaddingUnambiguous(m1: seq<byte>, m2: seq<byte>)
    requires 8 * |m1| < TWO64 && 8 * |m2| < TWO64
    requires m1 + Padding(|m1|, LengthField(|m1|)) == m2 + Padding(|m2|, LengthField(|m2|))
    ensures m1 == m2
  {
    if LengthField(|m1|) == LengthField(|m2|) {
      PowersOf256();
      LengthFieldInjective(|m1|, |m2|, 8);
    }
    PaddingInjective(m1, LengthField(|m1|), m2, LengthField(|m2|));
  }
}
