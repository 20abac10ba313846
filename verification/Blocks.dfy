/** What SHA-256 and MD5 share: a message is padded once, cut into 64-byte blocks and
    folded through a compression function. */
module Blocks {
  import opened Words

  type Block = b: seq<byte> | |b| == 64 witness seq(64, _ => 0)

  /** Folding a compression function over the blocks of s. */
  function Fold<H>(compress: (H, Block) -> H, h: H, s: seq<byte>): H
    requires |s| % 64 == 0
  {
    if s == [] then h else Fold(compress, compress(h, s[..64]), s[64..])
  }

  lemma FoldBlock<H>(compress: (H, Block) -> H, h: H, block: Block)
    ensures Fold(compress, h, block) == compress(h, block)
  {
    assert block[..64] == block && block[64..] == [];
  }

  lemma {:induction false} FoldConcat<H>(compress: (H, Block) -> H, h: H, a: seq<byte>, b: seq<byte>)
    requires |a| % 64 == 0 && |b| % 64 == 0
    ensures Fold(compress, h, a + b) == Fold(compress, Fold(compress, h, a), b)
    decreases |a|
  {
    if a == [] {
      assert a + b == b;
    } else {
      assert (a + b)[..64] == a[..64] && (a + b)[64..] == a[64..] + b;
      FoldConcat(compress, compress(h, a[..64]), a[64..], b);
    }
  }

  // ----- quotients and remainders

  lemma BlockQuotient(n: int) returns (q: int)
    ensures n == 64 * q + n % 64
  {
    q := n / 64;
  }

  lemma BlockRemainder(n: int, q: int, r: nat)
    requires n == 64 * q + r && r < 64
    ensures n % 64 == r
  {}

  lemma Quotient512(n: int) returns (q: int)
    ensures n == 512 * q + n % 512
  {
    q := n / 512;
  }

  lemma Remainder512(n: int, q: int, r: nat)
    requires n == 512 * q + r && r < 512
    ensures n % 512 == r
  {}

  // ----- padding

  function Zeros(n: nat): (s: seq<byte>)
    ensures |s| == n
  {
    seq(n, _ => 0)
  }

  lemma {:induction false} ReverseZeros(n: nat)
    ensures Reverse(Zeros(n)) == Zeros(n)
  {
    if n > 0 {
      assert Zeros(n)[1..] == Zeros(n - 1);
      ReverseZeros(n - 1);
    }
  }

  lemma ReversePair(x: byte, y: byte)
    ensures Reverse([x, y]) == [y, x]
  {
    assert Reverse([y]) == [y];
    assert [x, y][1..] == [y];
  }

  lemma {:induction false} BytesOfZero(k: nat)
    ensures Bytes(0, k) == Zeros(k)
  {
    if k > 0 {
      BytesOfZero(k - 1);
    }
  }

  /** A number below 2^16 has two bytes and zeros after them. */
  lemma SmallNumber(n: nat, k: nat)
    requires n < 0x1_0000 && k >= 2
    ensures Bytes(n, k) == [(n % 256) as byte, (n / 256) as byte] + Zeros(k - 2)
  {
    assert n / 256 / 256 == 0;
    BytesOfZero(k - 2);
  }

  /** The number of zero bytes that follow the mark byte 0x80. */
  function ZeroCount(n: nat): (z: nat)
    ensures z < 64
  {
    (55 - n) % 64
  }

  function MarkAndZeros(n: nat): (s: seq<byte>)
    ensures |s| == 1 + ZeroCount(n)
  {
    [0x80] + Zeros(ZeroCount(n))
  }

  /** Mark byte, zeros and the 8-byte length field of an n-byte message. */
  function Padding(n: nat, lengthField: seq<byte>): seq<byte> {
    MarkAndZeros(n) + lengthField
  }

  /** The standards ask for the smallest k >= 0 with 8n + 1 + k = 448 modulo 512 (in bits):
      one mark bit, seven zero bits that complete its byte, then ZeroCount(n) zero bytes. */
  lemma PaddingIsMinimal(n: nat, k: nat)
    requires (8 * n + 1 + k) % 512 == 448
    ensures (8 * n + 8 + 8 * ZeroCount(n)) % 512 == 448
    ensures 7 + 8 * ZeroCount(n) <= k
  {
    var z := ZeroCount(n);
    var q := BlockQuotient(55 - n);
    Remainder512(8 * n + 8 + 8 * z, -q, 448);
    var r := Quotient512(8 * n + 1 + k);
    assert k == 7 + 8 * z + 512 * (r + q);
  }

  lemma PaddedLength(n: nat, lengthField: seq<byte>)
    requires |lengthField| == 8
    ensures (n + |Padding(n, lengthField)|) % 64 == 0
  {
    var q := BlockQuotient(55 - n);
    BlockRemainder(n + |Padding(n, lengthField)|, 1 - q, 0);
  }

  /** The digest skeleton: pad the whole message once, then fold. */
  function HashPadded<H>(compress: (H, Block) -> H, iv: H, message: seq<byte>, lengthField: seq<byte>): H
    requires |lengthField| == 8
  {
    PaddedLength(|message|, lengthField);
    Fold(compress, iv, message + Padding(|message|, lengthField))
  }

  lemma SameSuffix(a: seq<byte>, f: seq<byte>, b: seq<byte>, g: seq<byte>)
    requires |f| == |g|
    requires a + f == b + g
    ensures a == b && f == g
  {
    assert a == (a + f)[..|a|] && b == (b + g)[..|b|];
    assert f == (a + f)[|a|..] && g == (b + g)[|b|..];
  }

  /** No two messages have the same padded form when the length field determines the length. */
  lemma PaddingInjective(m1: seq<byte>, f1: seq<byte>, m2: seq<byte>, f2: seq<byte>)
    requires |f1| == |f2| == 8
    requires f1 == f2 ==> |m1| == |m2|
    requires m1 + Padding(|m1|, f1) == m2 + Padding(|m2|, f2)
    ensures m1 == m2
  {
    var rest1, rest2 := MarkAndZeros(|m1|), MarkAndZeros(|m2|);
    assert m1 + Padding(|m1|, f1) == (m1 + rest1) + f1;
    assert m2 + Padding(|m2|, f2) == (m2 + rest2) + f2;
    SameSuffix(m1 + rest1, f1, m2 + rest2, f2);
    assert m1 == (m1 + rest1)[..|m1|] && m2 == (m2 + rest2)[..|m2|];
  }

  /** The padding of a message depends on the length of its tail only, but for the length. */
  lemma MarkAndZerosOfTail(n: nat, tail: nat)
    requires tail <= n && (n - tail) % 64 == 0
    ensures MarkAndZeros(n) == MarkAndZeros(tail)
  {
    var k := BlockQuotient(n - tail);
    var q := BlockQuotient(55 - n);
    BlockRemainder(55 - tail, q + k, ZeroCount(n));
  }

  /** Hashing the tail and its padding after the blocks before it hashes the padded message. */
  lemma FinishedByPadding<H>(compress: (H, Block) -> H, iv: H, message: seq<byte>, start: seq<byte>,
                             tail: seq<byte>, lengthField: seq<byte>)
    requires message == start + tail && |start| % 64 == 0
    requires |lengthField| == 8
    ensures |start + (tail + Padding(|message|, lengthField))| % 64 == 0
    ensures Fold(compress, iv, start + (tail + Padding(|message|, lengthField)))
         == HashPadded(compress, iv, message, lengthField)
  {
    hide Padding;
    PaddedLength(|message|, lengthField);
    assert start + (tail + Padding(|message|, lengthField)) == message + Padding(|message|, lengthField);
  }

  // ----- the staging buffer

  /** Two compile-time choices: byte order, and whether unaligned accesses are allowed. */
  datatype Target = Target(order: ByteOrder, unalignedAccess: bool)

  const FILLBUF: seq<byte> := [0x80] + Zeros(63)

  predicate IsUnaligned(address: nat) { address % 4 != 0 }

  /** n & ~63 */
  function WholeBlocks(n: nat): (w: nat)
    ensures w % 64 == 0 && w <= n < w + 64 && n == w + n % 64
  {
    n - n % 64
  }

  /** How many bytes are buffered after n more bytes: a buffer that fills up exactly
      stays full, everything else is reduced modulo 64. */
  function Buffered(buflen: nat, n: nat): nat {
    if buflen != 0 && buflen + n <= 64 then buflen + n else (buflen + n) % 64
  }

  // What is left after merging and after skipping whole blocks is the tail of the chunk
  lemma BufferedTail(buflen: nat, n: nat, merged: nat, at: nat)
    requires merged <= at <= n && (at - merged) % 64 == 0
    requires merged == if buflen == 0 then 0 else 128 - buflen
    requires buflen == 0 || (buflen <= 64 && merged < n)
    ensures Buffered(buflen, n) == (n - at) % 64
  {
    var k := BlockQuotient(at - merged);
    var q := BlockQuotient(n - at);
    BlockRemainder(buflen + n, q + k + if buflen == 0 then 0 else 2, (n - at) % 64);
  }

  lemma Splice(a: seq<byte>, b: seq<byte>, i: nat, j: nat)
    requires i <= j <= |b|
    ensures a + b[..i] + b[i..j] == a + b[..j]
  {}

  lemma NextSlice(s: seq<byte>, from: nat, at: nat, to: nat)
    requires from <= at <= to <= |s|
    ensures s[from..at] + s[at..to] == s[from..to]
  {}

  // ----- messages in pieces

  /** A piece of a message and where it lies in memory. */
  datatype Piece = Piece(data: seq<byte>, address: nat)

  function Joined(pieces: seq<Piece>): seq<byte> {
    if pieces == [] then [] else pieces[0].data + Joined(pieces[1..])
  }

  lemma JoinedNext(before: seq<byte>, pieces: seq<Piece>, i: nat)
    requires i < |pieces|
    ensures before + Joined(pieces[i..]) == before + pieces[i].data + Joined(pieces[i + 1..])
  {}

  lemma AllPieces(pieces: seq<Piece>)
    ensures [] + Joined(pieces[0..]) == Joined(pieces) && Joined(pieces[|pieces|..]) == []
  {}
}
