/** The streaming MD5 code: 64 unrolled steps and a two-word byte counter. */
module Md5 {
  import opened Words
  import opened Blocks
  import opened Memory
  import opened Md5Spec

  // ----- the byte counter total[1]:total[0]

  /** total[0] += (uint32) len */
  function CountLow(low: uint32, len: nat): uint32 { (low + len % TWO32) % TWO32 }

  /** if (total[0] < len) ++total[1], after the addition to total[0] */
  function CountHigh(high: uint32, low: uint32, len: nat): uint32 {
    if CountLow(low, len) < len then (high + 1) % TWO32 else high
  }

  /** The one carry that the comparison can see is the right one. */
  predicate Carries(low: uint32, len: nat) {
    len < TWO32 || (len < 2 * TWO32 && low + len % TWO32 < TWO32)
  }

  lemma CarryOut(low: uint32, l: uint32)
    ensures (low + l) % TWO32 == if low + l < TWO32 then low + l else low + l - TWO32
  {}

  // The true sum, with the low word split off
  lemma SumOfWords(high: uint32, low: uint32, h: uint32, l: uint32, c: nat)
    requires c == if low + l < TWO32 then 0 else 1
    ensures (high * TWO32 + low + (h * TWO32 + l)) % TWO64
         == (high + h + c) % TWO32 * TWO32 + (low + l - c * TWO32)
  {
    var q, r := (high + h + c) / TWO32, (high + h + c) % TWO32;
    Remainder64(high * TWO32 + low + (h * TWO32 + l), q, r * TWO32 + (low + l - c * TWO32));
  }

  lemma SameModulo(high: uint32, x: nat, y: nat)
    requires x <= TWO32 && y <= 1
    ensures (high + x) % TWO32 == (high + y) % TWO32 <==> x == y || x == y + TWO32
  {}

  /** The two-word addition is exact for every length below 2^32; beyond that only when
      the true carry into the high word happens to be one. */
  lemma CountExact(high: uint32, low: uint32, len: uint64)
    ensures CountHigh(high, low, len) * TWO32 + CountLow(low, len) == (high * TWO32 + low + len) % TWO64
       <==> Carries(low, len)
  {
    var h, l := len / TWO32, len % TWO32;
    var c := if low + l < TWO32 then 0 else 1;
    CarryOut(low, l);
    SumOfWords(high, low, h, l, c);
    SameModulo(high, h + c, if CountLow(low, len) < len then 1 else 0);
  }

  /** A wrong count stays wrong, a right one stays right. */
  lemma SameCount(t: uint64, n: nat, len: nat)
    ensures (t + len) % TWO64 == (n + len) % TWO64 <==> t == n % TWO64
  {
    var q, r := n / TWO64, n % TWO64;
    assert n == q * TWO64 + r;
    var qr, rr := (r + len) / TWO64, (r + len) % TWO64;
    Remainder64(n + len, q + qr, rr);
    var qt, rt := (t + len) / TWO64, (t + len) % TWO64;
    assert t + len == qt * TWO64 + rt && r + len == qr * TWO64 + rr;
  }

  // ----- byte order

  /** SWAP: little-endian words on any host. */
  function Swap(order: ByteOrder, n: word): word {
    if order.BigEndian? then ByteSwap32(n) else n
  }

  lemma SwapLoads(order: ByteOrder, b: seq<byte>)
    requires |b| == 4
    ensures Swap(order, Loaded32(order, b)) == FromLittleEndian(b)
  {
    SwapReversesLoad(b);
  }

  lemma SwapStores(order: ByteOrder, w: word)
    ensures Stored32(order, Swap(order, w)) == LittleEndianBytes(w)
  {
    SwapReversesStore(w);
  }

  /** The two words of the bit length, low word first. */
  function LowLengthWord(order: ByteOrder, low: uint32): word {
    Swap(order, Register32(ShiftedLow(low)))
  }

  function HighLengthWord(order: ByteOrder, high: uint32, low: uint32): word {
    Swap(order, Register32(ShiftedHigh(high, low)))
  }

  lemma RegisterStores(order: ByteOrder, n: uint32)
    ensures Stored32(order, Swap(order, Register32(n))) == Bytes(n, 4)
  {
    SwapStores(order, Register32(n));
    StoreAfterLoad(Bytes(n, 4));
  }

  // The number of bytes is named so that Bytes is not unrolled
  lemma LengthBytes(n: nat, high: uint32, low: uint32, k: nat)
    requires Pow256(k) == TWO32 && Pow256(k + k) == TWO64
    requires high * TWO32 + low == n % TWO64
    ensures Bytes(ShiftedLow(low), k) + Bytes(ShiftedHigh(high, low), k) == Bytes(8 * n, k + k)
  {
    ShiftHalves(high, low);
    BitCountBytes(n, high * TWO32 + low, k + k);
    JoinedBytes(ShiftedHigh(high, low), ShiftedLow(low), k);
  }

  lemma LengthStores(order: ByteOrder, n: nat, high: uint32, low: uint32)
    requires high * TWO32 + low == n % TWO64
    ensures Stored32(order, LowLengthWord(order, low)) + Stored32(order, HighLengthWord(order, high, low))
         == LengthField(n)
  {
    hide Stored32, Swap, Register32, Bytes;
    PowersOf256();
    LengthBytes(n, high, low, 4);
    RegisterStores(order, ShiftedLow(low));
    RegisterStores(order, ShiftedHigh(high, low));
  }

  // ----- the macros of the block loop

  function FF(b: word, c: word, d: word): word { d ^ (b & (c ^ d)) }

  function FG(b: word, c: word, d: word): word { FF(d, b, c) }

  function FH(b: word, c: word, d: word): word { b ^ c ^ d }

  function FI(b: word, c: word, d: word): word { c ^ (b | !d) }

  lemma SelectF(b: word, c: word, d: word)
    ensures d ^ (b & (c ^ d)) == (b & c) | (!b & d)
  {}

  lemma SelectG(b: word, c: word, d: word)
    ensures c ^ (d & (b ^ c)) == (b & d) | (c & !d)
  {}

  lemma FFIsF(b: word, c: word, d: word)
    ensures FF(b, c, d) == F(b, c, d)
  {
    SelectF(b, c, d);
  }

  lemma FGIsG(b: word, c: word, d: word)
    ensures FG(b, c, d) == G(b, c, d)
  {
    SelectG(b, c, d);
  }

  lemma MacrosAreAuxiliary(b: word, c: word, d: word)
    ensures FF(b, c, d) == F(b, c, d) && FG(b, c, d) == G(b, c, d)
    ensures FH(b, c, d) == H(b, c, d) && FI(b, c, d) == I(b, c, d)
  {
    hide FF, FG, F, G;
    FFIsF(b, c, d);
    FGIsG(b, c, d);
  }

  // ----- the OP macro
  //
  // Each use of the macro is one step of RFC 1321.  The ghost arguments say which: from
  // start, steps first to i have led to the registers (a, b, c, d), and the macro's word,
  // shift and constant are those of step i.

  ghost predicate At(start: HashValue, x: seq<word>, first: nat, i: nat, a: word, b: word, c: word, d: word) {
    |x| == 16 && first <= i <= 64 && Steps(start, x, first, i) == HashValue(a, b, c, d)
  }

  lemma AtStart(v: HashValue, x: seq<word>, i: nat)
    requires |x| == 16 && i <= 64
    ensures At(v, x, i, i, v.a, v.b, v.c, v.d)
  {}

  ghost predicate Operands(i: nat, k: nat, s: nat, t: word) {
    i < 64 && k == WordIndex(i) && s == Shift(i) && t == T(i)
  }

  method OpFF(a: word, b: word, c: word, d: word, correctWords: array<word>, k: nat, s: nat, t: word,
              ghost start: HashValue, ghost first: nat, ghost i: nat) returns (r: word)
    requires 0 <= i < 16 && Operands(i, k, s, t)
    requires correctWords.Length == 16 && At(start, correctWords[..], first, i, a, b, c, d)
    ensures At(start, correctWords[..], first, i + 1, d, r, b, c)
  {
    hide Plus, Rotate, FF, F;
    MacrosAreAuxiliary(b, c, d);
    r := Plus(a, Plus(Plus(FF(b, c, d), correctWords[k]), t));
    r := Rotate(r, s);
    r := Plus(r, b);
  }

  method OpFG(a: word, b: word, c: word, d: word, correctWords: array<word>, k: nat, s: nat, t: word,
              ghost start: HashValue, ghost first: nat, ghost i: nat) returns (r: word)
    requires 16 <= i < 32 && Operands(i, k, s, t)
    requires correctWords.Length == 16 && At(start, correctWords[..], first, i, a, b, c, d)
    ensures At(start, correctWords[..], first, i + 1, d, r, b, c)
  {
    hide Plus, Rotate, FG, G;
    MacrosAreAuxiliary(b, c, d);
    r := Plus(a, Plus(Plus(FG(b, c, d), correctWords[k]), t));
    r := Rotate(r, s);
    r := Plus(r, b);
  }

  method OpFH(a: word, b: word, c: word, d: word, correctWords: array<word>, k: nat, s: nat, t: word,
              ghost start: HashValue, ghost first: nat, ghost i: nat) returns (r: word)
    requires 32 <= i < 48 && Operands(i, k, s, t)
    requires correctWords.Length == 16 && At(start, correctWords[..], first, i, a, b, c, d)
    ensures At(start, correctWords[..], first, i + 1, d, r, b, c)
  {
    hide Plus, Rotate, FH, H;
    MacrosAreAuxiliary(b, c, d);
    r := Plus(a, Plus(Plus(FH(b, c, d), correctWords[k]), t));
    r := Rotate(r, s);
    r := Plus(r, b);
  }

  method OpFI(a: word, b: word, c: word, d: word, correctWords: array<word>, k: nat, s: nat, t: word,
              ghost start: HashValue, ghost first: nat, ghost i: nat) returns (r: word)
    requires 48 <= i < 64 && Operands(i, k, s, t)
    requires correctWords.Length == 16 && At(start, correctWords[..], first, i, a, b, c, d)
    ensures At(start, correctWords[..], first, i + 1, d, r, b, c)
  {
    hide Plus, Rotate, FI, I;
    MacrosAreAuxiliary(b, c, d);
    r := Plus(a, Plus(Plus(FI(b, c, d), correctWords[k]), t));
    r := Rotate(r, s);
    r := Plus(r, b);
  }

  // ----- the four rounds, unrolled

  method Round1(v: HashValue, correctWords: array<word>) returns (A: word, B: word, C: word, D: word)
    requires correctWords.Length == 16
    ensures At(v, correctWords[..], 0, 16, A, B, C, D)
  {
    A, B, C, D := v.a, v.b, v.c, v.d;
    hide At;
    AtStart(v, correctWords[..], 0);
    A := OpFF(A, B, C, D, correctWords, 0, 7, 0xd76aa478, v, 0, 0);
    D := OpFF(D, A, B, C, correctWords, 1, 12, 0xe8c7b756, v, 0, 1);
    C := OpFF(C, D, A, B, correctWords, 2, 17, 0x242070db, v, 0, 2);
    B := OpFF(B, C, D, A, correctWords, 3, 22, 0xc1bdceee, v, 0, 3);
    A := OpFF(A, B, C, D, correctWords, 4, 7, 0xf57c0faf, v, 0, 4);
    D := OpFF(D, A, B, C, correctWords, 5, 12, 0x4787c62a, v, 0, 5);
    C := OpFF(C, D, A, B, correctWords, 6, 17, 0xa8304613, v, 0, 6);
    B := OpFF(B, C, D, A, correctWords, 7, 22, 0xfd469501, v, 0, 7);
    A := OpFF(A, B, C, D, correctWords, 8, 7, 0x698098d8, v, 0, 8);
    D := OpFF(D, A, B, C, correctWords, 9, 12, 0x8b44f7af, v, 0, 9);
    C := OpFF(C, D, A, B, correctWords, 10, 17, 0xffff5bb1, v, 0, 10);
    B := OpFF(B, C, D, A, correctWords, 11, 22, 0x895cd7be, v, 0, 11);
    A := OpFF(A, B, C, D, correctWords, 12, 7, 0x6b901122, v, 0, 12);
    D := OpFF(D, A, B, C, correctWords, 13, 12, 0xfd987193, v, 0, 13);
    C := OpFF(C, D, A, B, correctWords, 14, 17, 0xa679438e, v, 0, 14);
    B := OpFF(B, C, D, A, correctWords, 15, 22, 0x49b40821, v, 0, 15);
  }

  method Round2(v: HashValue, correctWords: array<word>) returns (A: word, B: word, C: word, D: word)
    requires correctWords.Length == 16
    ensures At(v, correctWords[..], 16, 32, A, B, C, D)
  {
    A, B, C, D := v.a, v.b, v.c, v.d;
    hide At;
    AtStart(v, correctWords[..], 16);
    A := OpFG(A, B, C, D, correctWords, 1, 5, 0xf61e2562, v, 16, 16);
    D := OpFG(D, A, B, C, correctWords, 6, 9, 0xc040b340, v, 16, 17);
    C := OpFG(C, D, A, B, correctWords, 11, 14, 0x265e5a51, v, 16, 18);
    B := OpFG(B, C, D, A, correctWords, 0, 20, 0xe9b6c7aa, v, 16, 19);
    A := OpFG(A, B, C, D, correctWords, 5, 5, 0xd62f105d, v, 16, 20);
    D := OpFG(D, A, B, C, correctWords, 10, 9, 0x02441453, v, 16, 21);
    C := OpFG(C, D, A, B, correctWords, 15, 14, 0xd8a1e681, v, 16, 22);
    B := OpFG(B, C, D, A, correctWords, 4, 20, 0xe7d3fbc8, v, 16, 23);
    A := OpFG(A, B, C, D, correctWords, 9, 5, 0x21e1cde6, v, 16, 24);
    D := OpFG(D, A, B, C, correctWords, 14, 9, 0xc33707d6, v, 16, 25);
    C := OpFG(C, D, A, B, correctWords, 3, 14, 0xf4d50d87, v, 16, 26);
    B := OpFG(B, C, D, A, correctWords, 8, 20, 0x455a14ed, v, 16, 27);
    A := OpFG(A, B, C, D, correctWords, 13, 5, 0xa9e3e905, v, 16, 28);
    D := OpFG(D, A, B, C, correctWords, 2, 9, 0xfcefa3f8, v, 16, 29);
    C := OpFG(C, D, A, B, correctWords, 7, 14, 0x676f02d9, v, 16, 30);
    B := OpFG(B, C, D, A, correctWords, 12, 20, 0x8d2a4c8a, v, 16, 31);
  }

  method Round3(v: HashValue, correctWords: array<word>) returns (A: word, B: word, C: word, D: word)
    requires correctWords.Length == 16
    ensures At(v, correctWords[..], 32, 48, A, B, C, D)
  {
    A, B, C, D := v.a, v.b, v.c, v.d;
    hide At;
    AtStart(v, correctWords[..], 32);
    A := OpFH(A, B, C, D, correctWords, 5, 4, 0xfffa3942, v, 32, 32);
    D := OpFH(D, A, B, C, correctWords, 8, 11, 0x8771f681, v, 32, 33);
    C := OpFH(C, D, A, B, correctWords, 11, 16, 0x6d9d6122, v, 32, 34);
    B := OpFH(B, C, D, A, correctWords, 14, 23, 0xfde5380c, v, 32, 35);
    A := OpFH(A, B, C, D, correctWords, 1, 4, 0xa4beea44, v, 32, 36);
    D := OpFH(D, A, B, C, correctWords, 4, 11, 0x4bdecfa9, v, 32, 37);
    C := OpFH(C, D, A, B, correctWords, 7, 16, 0xf6bb4b60, v, 32, 38);
    B := OpFH(B, C, D, A, correctWords, 10, 23, 0xbebfbc70, v, 32, 39);
    A := OpFH(A, B, C, D, correctWords, 13, 4, 0x289b7ec6, v, 32, 40);
    D := OpFH(D, A, B, C, correctWords, 0, 11, 0xeaa127fa, v, 32, 41);
    C := OpFH(C, D, A, B, correctWords, 3, 16, 0xd4ef3085, v, 32, 42);
    B := OpFH(B, C, D, A, correctWords, 6, 23, 0x04881d05, v, 32, 43);
    A := OpFH(A, B, C, D, correctWords, 9, 4, 0xd9d4d039, v, 32, 44);
    D := OpFH(D, A, B, C, correctWords, 12, 11, 0xe6db99e5, v, 32, 45);
    C := OpFH(C, D, A, B, correctWords, 15, 16, 0x1fa27cf8, v, 32, 46);
    B := OpFH(B, C, D, A, correctWords, 2, 23, 0xc4ac5665, v, 32, 47);
  }

  method Round4(v: HashValue, correctWords: array<word>) returns (A: word, B: word, C: word, D: word)
    requires correctWords.Length == 16
    ensures At(v, correctWords[..], 48, 64, A, B, C, D)
  {
    A, B, C, D := v.a, v.b, v.c, v.d;
    hide At;
    AtStart(v, correctWords[..], 48);
    A := OpFI(A, B, C, D, correctWords, 0, 6, 0xf4292244, v, 48, 48);
    D := OpFI(D, A, B, C, correctWords, 7, 10, 0x432aff97, v, 48, 49);
    C := OpFI(C, D, A, B, correctWords, 14, 15, 0xab9423a7, v, 48, 50);
    B := OpFI(B, C, D, A, correctWords, 5, 21, 0xfc93a039, v, 48, 51);
    A := OpFI(A, B, C, D, correctWords, 12, 6, 0x655b59c3, v, 48, 52);
    D := OpFI(D, A, B, C, correctWords, 3, 10, 0x8f0ccc92, v, 48, 53);
    C := OpFI(C, D, A, B, correctWords, 10, 15, 0xffeff47d, v, 48, 54);
    B := OpFI(B, C, D, A, correctWords, 1, 21, 0x85845dd1, v, 48, 55);
    A := OpFI(A, B, C, D, correctWords, 8, 6, 0x6fa87e4f, v, 48, 56);
    D := OpFI(D, A, B, C, correctWords, 15, 10, 0xfe2ce6e0, v, 48, 57);
    C := OpFI(C, D, A, B, correctWords, 6, 15, 0xa3014314, v, 48, 58);
    B := OpFI(B, C, D, A, correctWords, 13, 21, 0x4e0811a1, v, 48, 59);
    A := OpFI(A, B, C, D, correctWords, 4, 6, 0xf7537e82, v, 48, 60);
    D := OpFI(D, A, B, C, correctWords, 11, 10, 0xbd3af235, v, 48, 61);
    C := OpFI(C, D, A, B, correctWords, 2, 15, 0x2ad7d2bb, v, 48, 62);
    B := OpFI(B, C, D, A, correctWords, 9, 21, 0xeb86d391, v, 48, 63);
  }

  /** correct_words: the block's words, swapped where the host requires it. */
  method LoadWords(order: ByteOrder, words: Block) returns (correctWords: array<word>)
    ensures fresh(correctWords) && correctWords.Length == 16
    ensures correctWords[..] == MessageWords(words, 16)
  {
    hide Loaded32, FromLittleEndian, Swap;
    correctWords := new word[16];
    for k := 0 to 16
      invariant correctWords[..k] == MessageWords(words, k)
    {
      SwapLoads(order, words[4 * k..4 * k + 4]);
      correctWords[k] := Swap(order, Loaded32(order, words[4 * k..4 * k + 4]));
      assert correctWords[..k + 1] == correctWords[..k] + [correctWords[k]];
    }
    assert correctWords[..16] == correctWords[..];
  }

  lemma FourRounds(v: HashValue, x: seq<word>, v1: HashValue, v2: HashValue, v3: HashValue, v4: HashValue)
    requires |x| == 16
    requires At(v, x, 0, 16, v1.a, v1.b, v1.c, v1.d) && At(v1, x, 16, 32, v2.a, v2.b, v2.c, v2.d)
    requires At(v2, x, 32, 48, v3.a, v3.b, v3.c, v3.d) && At(v3, x, 48, 64, v4.a, v4.b, v4.c, v4.d)
    ensures v4 == Steps(v, x, 0, 64)
  {
    hide Steps;
    StepsCompose(v, x, 0, 16, 32);
    StepsCompose(v, x, 0, 32, 48);
    StepsCompose(v, x, 0, 48, 64);
  }

  /** One 64-byte block. */
  method HashBlock(order: ByteOrder, words: Block, v: HashValue) returns (r: HashValue)
    ensures r == Compress(v, words)
  {
    hide At, Steps;
    var correctWords := LoadWords(order, words);
    var A, B, C, D := Round1(v, correctWords);
    ghost var v1 := HashValue(A, B, C, D);
    A, B, C, D := Round2(HashValue(A, B, C, D), correctWords);
    ghost var v2 := HashValue(A, B, C, D);
    A, B, C, D := Round3(HashValue(A, B, C, D), correctWords);
    ghost var v3 := HashValue(A, B, C, D);
    A, B, C, D := Round4(HashValue(A, B, C, D), correctWords);
    FourRounds(v, correctWords[..], v1, v2, v3, HashValue(A, B, C, D));
    r := Add(HashValue(A, B, C, D), v);
  }

  /** The loop over the blocks of data. */
  method HashBlocks(order: ByteOrder, data: seq<byte>, start: HashValue) returns (v: HashValue)
    requires |data| % 64 == 0
    ensures v == Fold(Compress, start, data)
  {
    hide Compress;
    v := start;
    var at := 0;
    while at < |data|
      invariant at <= |data| && at % 64 == 0
      invariant Fold(Compress, v, data[at..]) == Fold(Compress, start, data)
    {
      var words: Block := data[at..at + 64];
      assert data[at..][..64] == words && data[at..][64..] == data[at + 64..];
      v := HashBlock(order, words, v);
      at := at + 64;
    }
  }

  // ----- the context

  class Context {
    const target: Target
    var A: word
    var B: word
    var C: word
    var D: word
    var total0: uint32
    var total1: uint32
    var buflen: nat
    var buffer: array<byte>

    // The bytes of all blocks hashed since initialisation
    ghost var hashed: seq<byte>

    constructor (target: Target)
      ensures this.target == target
      ensures Allocated() && fresh(buffer)
    {
      this.target := target;
      A, B, C, D := 0, 0, 0, 0;
      total0, total1 := 0, 0;
      buflen := 0;
      buffer := new byte[128];
    }

    ghost predicate Allocated()
      reads this`buffer
    {
      buffer.Length == 128
    }

    function Chaining(): HashValue
      reads this`A, this`B, this`C, this`D
    {
      HashValue(A, B, C, D)
    }

    /** A to D are the fold over the blocks hashed so far. */
    ghost predicate Folded()
      reads this`A, this`B, this`C, this`D, this`hashed
    {
      |hashed| % 64 == 0 && Chaining() == Fold(Compress, IV, hashed)
    }

    /** total1:total0 counts the bytes of those blocks as one 64-bit number. */
    ghost predicate Counted()
      reads this`total0, this`total1, this`hashed
    {
      total1 * TWO32 + total0 == |hashed| % TWO64
    }

    /** The representation between calls. */
    ghost predicate Valid()
      reads this
    {
      Allocated() && Folded() && buflen <= 64
    }

    /** Everything given to the context since initialisation. */
    ghost function Message(): seq<byte>
      requires Valid()
      reads this, buffer
    {
      hashed + buffer[..buflen]
    }

    method Init()
      requires Allocated()
      modifies this`A, this`B, this`C, this`D, this`total0, this`total1, this`buflen, this`hashed
      ensures Valid() && Counted() && Message() == [] && buflen == 0
    {
      A := 0x67452301;
      B := 0xefcdab89;
      C := 0x98badcfe;
      D := 0x10325476;
      total0, total1 := 0, 0;
      buflen := 0;
      hashed := [];
    }

    /** Add len to the two-word counter. */
    method CountUp(len: nat)
      modifies this`total0, this`total1
      ensures total0 == CountLow(old(total0), len)
      ensures total1 == CountHigh(old(total1), old(total0), len)
      ensures len < TWO64 ==>
                (total1 * TWO32 + total0 == (old(total1 * TWO32 + total0) + len) % TWO64 <==> Carries(old(total0), len))
    {
      if len < TWO64 {
        CountExact(total1, total0, len);
      }
      var low := (total0 + len % TWO32) % TWO32;
      if low < len {
        total1 := (total1 + 1) % TWO32;
      }
      total0 := low;
    }

    /** Hash whole blocks and count their bytes. */
    method ProcessBlock(data: seq<byte>)
      requires Folded() && |data| % 64 == 0
      modifies this`A, this`B, this`C, this`D, this`total0, this`total1, this`hashed
      ensures Folded() && hashed == old(hashed) + data
      ensures total0 == CountLow(old(total0), |data|)
      ensures total1 == CountHigh(old(total1), old(total0), |data|)
      ensures |data| < TWO32 ==> (Counted() <==> old(Counted()))
      ensures |data| < TWO64 && old(Counted()) ==> (Counted() <==> Carries(old(total0), |data|))
    {
      hide Compress, Fold, CountLow, CountHigh, Counted, Carries;
      CountUp(|data|);
      FoldOn(data);
      var v := HashBlocks(target.order, data, Chaining());
      hashed := hashed + data;
      A, B, C, D := v.a, v.b, v.c, v.d;
      if |data| < TWO64 {
        CountOn(data);
      }
    }

    lemma FoldOn(data: seq<byte>)
      requires Folded() && |data| % 64 == 0
      ensures |hashed + data| % 64 == 0
      ensures Fold(Compress, Chaining(), data) == Fold(Compress, IV, hashed + data)
    {
      hide Compress, Fold;
      FoldConcat(Compress, IV, hashed, data);
    }

    twostate lemma CountOn(data: seq<byte>)
      requires hashed == old(hashed) + data && |data| < TWO64
      requires total1 * TWO32 + total0 == (old(total1 * TWO32 + total0) + |data|) % TWO64
               <==> Carries(old(total0), |data|)
      ensures |data| < TWO32 ==> (Counted() <==> old(Counted()))
      ensures old(Counted()) ==> (Counted() <==> Carries(old(total0), |data|))
    {
      SameCount(old(total1 * TWO32 + total0), |old(hashed)|, |data|);
    }

    /** Hash the whole blocks of an overfull buffer and move the rest to its front. */
    method Drain()
      requires Allocated() && Folded() && 64 < buflen <= 128
      modifies this`A, this`B, this`C, this`D, this`total0, this`total1, this`buflen, this`hashed, buffer
      ensures Valid() && Message() == old(hashed + buffer[..buflen])
      ensures buflen == old(buflen) % 64
      ensures Counted() <==> old(Counted())
      ensures total0 == CountLow(old(total0), WholeBlocks(old(buflen)))
    {
      hide Folded, Counted, WholeBlocks, CountLow, CountHigh, Carries;
      var whole := WholeBlocks(buflen);
      ghost var filled := buffer[..buflen];
      Splice(hashed, filled, whole, buflen);
      assert buffer[..whole] == filled[..whole] && buffer[whole..buflen] == filled[whole..buflen];
      ProcessBlock(buffer[..whole]);
      buflen := buflen % 64;
      MemcpyWithin(buffer, 0, whole, buflen);
    }

    /** First phase: merge the chunk with a partly filled buffer. */
    method MergeBuffered(chunk: seq<byte>) returns (add: nat)
      requires Valid() && buflen != 0
      modifies this`A, this`B, this`C, this`D, this`total0, this`total1, this`buflen, this`hashed, buffer
      ensures Valid() && add <= |chunk| && Message() == old(Message()) + chunk[..add]
      ensures add < |chunk| ==> buflen == 0 && add == 128 - old(buflen)
      ensures add == |chunk| ==> buflen == Buffered(old(buflen), |chunk|)
      ensures Counted() <==> old(Counted())
      ensures add == if 128 - old(buflen) > |chunk| then |chunk| else 128 - old(buflen)
      ensures add < |chunk| ==> total0 == CountLow(old(total0), 128)
    {
      hide Folded, Counted, CountLow;
      var leftOver := buflen;
      add := if 128 - leftOver > |chunk| then |chunk| else 128 - leftOver;
      Memcpy(buffer, leftOver, chunk[..add]);
      buflen := buflen + add;
      assert hashed + buffer[..buflen] == old(Message()) + chunk[..add];
      if buflen > 64 {
        Drain();
      }
    }

    /** Copy one block after the other into the buffer and hash it there. */
    method HashCopies(chunk: seq<byte>, from: nat) returns (at: nat)
      requires Valid() && from <= |chunk| && |chunk| - from >= 64 && buflen == 0
      modifies this`A, this`B, this`C, this`D, this`total0, this`total1, this`hashed, buffer
      ensures Valid() && from <= at <= |chunk| && |chunk| - at <= 64 && (at - from) % 64 == 0
      ensures hashed == old(hashed) + chunk[from..at]
      ensures Counted() <==> old(Counted())
    {
      hide Folded, Counted, CountLow, CountHigh, Carries;
      at := from;
      while |chunk| - at > 64
        invariant Valid() && buflen == 0 && from <= at <= |chunk| && (at - from) % 64 == 0
        invariant hashed == old(hashed) + chunk[from..at]
        invariant Counted() <==> old(Counted())
      {
        Memcpy(buffer, 0, chunk[at..at + 64]);
        ProcessBlock(buffer[..64]);
        assert buffer[..64] == chunk[at..at + 64];
        NextSlice(chunk, from, at, at + 64);
        assert hashed == old(hashed) + chunk[from..at] + chunk[at..at + 64];
        at := at + 64;
      }
    }

    /** Blocks at this address are copied into the buffer one at a time. */
    predicate Copied(address: nat) {
      !target.unalignedAccess && IsUnaligned(address)
    }

    /** Second phase: hash whole blocks straight from the caller's memory, or one at a
        time through the buffer when that memory is unaligned.  The two ways stop at
        different points. */
    method HashWholeBlocks(chunk: seq<byte>, from: nat, address: nat) returns (at: nat)
      requires Valid() && from <= |chunk| && |chunk| - from >= 64 && buflen == 0
      modifies this`A, this`B, this`C, this`D, this`total0, this`total1, this`hashed, buffer
      ensures Valid() && buflen == 0 && from <= at <= |chunk|
      ensures Message() == old(Message()) + chunk[from..at]
      ensures |chunk| - at <= 64 && (at - from) % 64 == 0
      ensures |chunk| < TWO32 || Copied(address + from) ==> (Counted() <==> old(Counted()))
      ensures |chunk| < TWO64 && !Copied(address + from) && old(Counted()) ==>
                (Counted() <==> Carries(old(total0), WholeBlocks(|chunk| - from)))
    {
      hide Folded, Counted, CountLow, CountHigh, Carries;
      at := from;
      if Copied(address + from) {
        at := HashCopies(chunk, from);
      } else {
        at := from + WholeBlocks(|chunk| - from);
        ProcessBlock(chunk[from..at]);
      }
    }

    /** Third phase: keep the remaining bytes. */
    method KeepTail(tail: seq<byte>)
      requires Valid() && buflen == 0 && 0 < |tail| <= 64
      modifies this`A, this`B, this`C, this`D, this`total0, this`total1, this`buflen, this`hashed, buffer
      ensures Valid() && Message() == old(Message()) + tail
      ensures buflen == |tail| % 64
      ensures Counted() <==> old(Counted())
    {
      hide Folded, Counted, CountLow, CountHigh, Carries;
      var leftOver := buflen;
      Memcpy(buffer, leftOver, tail);
      assert buffer[..|tail|] == tail;
      leftOver := leftOver + |tail|;
      if leftOver >= 64 {
        ProcessBlock(buffer[..64]);
        leftOver := leftOver - 64;
        MemcpyWithin(buffer, 0, 64, leftOver);
      }
      buflen := leftOver;
    }

    /** Whether a chunk that is longer than the low counter word is counted rightly: the bytes that
        fill up the buffer come first, the whole blocks after them are counted at once. */
    predicate KeepsCount(low: uint32, buffered: nat, address: nat, len: nat)
      requires buffered <= 64 && 128 <= len
    {
      var merged := if buffered == 0 then 0 else 128 - buffered;
      Copied(address + merged) || Carries(if buffered == 0 then low else CountLow(low, 128), WholeBlocks(len - merged))
    }

    /** md5_process_bytes on memory that starts at address. */
    method ProcessBytes(chunk: seq<byte>, address: nat)
      requires Valid()
      modifies this`A, this`B, this`C, this`D, this`total0, this`total1, this`buflen, this`hashed, buffer
      ensures Valid() && Message() == old(Message()) + chunk
      ensures buflen == Buffered(old(buflen), |chunk|)
      ensures |chunk| < TWO32 ==> (Counted() <==> old(Counted()))
      ensures TWO32 <= |chunk| < TWO64 && old(Counted()) ==>
                (Counted() <==> KeepsCount(old(total0), old(buflen), address, |chunk|))
    {
      hide Folded, Counted, Buffered, CountLow, CountHigh, Carries, Message, WholeBlocks, Copied;
      ghost var before := Message();
      var at := 0;
      if buflen != 0 {
        at := MergeBuffered(chunk);
      }
      ghost var merged := at;
      if |chunk| - at >= 64 {
        at := HashWholeBlocks(chunk, at, address);
        Splice(before, chunk, merged, at);
      }
      if |chunk| - at > 0 {
        KeepTail(chunk[at..]);
        Splice(before, chunk, at, |chunk|);
      }
      if merged < |chunk| || old(buflen) == 0 {
        BufferedTail(old(buflen), |chunk|, merged, at);
      }
      assert chunk[..|chunk|] == chunk;
    }

    /** Append the mark byte and zeros; returns where the length belongs. */
    method Mark() returns (n: nat)
      requires Allocated() && buflen <= 64
      modifies buffer
      ensures n == buflen + 1 + ZeroCount(buflen) && n % 64 == 56
      ensures buffer[..n] == old(buffer[..buflen]) + MarkAndZeros(buflen)
    {
      var bytes := buflen;
      var pad := if bytes >= 56 then 64 + 56 - bytes else 56 - bytes;
      Memcpy(buffer, bytes, FILLBUF[..pad]);
      n := bytes + pad;
    }

    /** Store the bit length of an n-byte message. */
    method StoreLength(at: nat, ghost n: nat)
      requires Allocated() && at % 64 == 56 && at <= 120
      modifies buffer
      ensures total1 * TWO32 + total0 == n % TWO64 ==>
                buffer[..at + 8] == old(buffer[..at]) + LengthField(n)
    {
      hide LengthField, HighLengthWord, LowLengthWord, Stored32;
      StoreWord(target.order, buffer, at / 4, LowLengthWord(target.order, total0));
      StoreWord(target.order, buffer, (at + 4) / 4, HighLengthWord(target.order, total1, total0));
      if total1 * TWO32 + total0 == n % TWO64 {
        LengthStores(target.order, n, total1, total0);
        assert buffer[at..at + 8] == LengthField(n);
      }
    }

    /** md5_read_ctx: the digest words, least significant byte first. */
    method ReadDigest(resbuf: array<byte>)
      requires resbuf.Length >= 16
      modifies resbuf
      ensures resbuf[..16] == Output(Chaining())
      ensures forall k :: 16 <= k < resbuf.Length ==> resbuf[k] == old(resbuf[k])
    {
      hide LittleEndianBytes, Stored32;
      SwapStores(target.order, A);
      SwapStores(target.order, B);
      SwapStores(target.order, C);
      SwapStores(target.order, D);
      StoreWord(target.order, resbuf, 0, Swap(target.order, A));
      StoreWord(target.order, resbuf, 1, Swap(target.order, B));
      StoreWord(target.order, resbuf, 2, Swap(target.order, C));
      StoreWord(target.order, resbuf, 3, Swap(target.order, D));
    }

    /** The first half of md5_finish_ctx: pad the tail of a size-byte message in place. */
    method PadTail(ghost size: nat) returns (n: nat)
      requires Allocated() && buflen <= 64
      requires |hashed| % 64 == 0 && size == |hashed| + buflen
      modifies this`total0, this`total1, buffer
      ensures n <= 128 && n % 64 == 0
      ensures old(Counted()) ==> buffer[..n] == old(buffer[..buflen]) + Padding(size, LengthField(size))
    {
      hide LengthField, MarkAndZeros, CountLow, CountHigh;
      ghost var tail := buffer[..buflen];
      MarkAndZerosOfTail(size, buflen);
      CountUp(buflen);
      SameCount(old(total1 * TWO32 + total0), |hashed|, buflen);
      var at := Mark();
      StoreLength(at, size);
      n := at + 8;
      assert tail + MarkAndZeros(size) + LengthField(size) == tail + (MarkAndZeros(size) + LengthField(size));
    }

    /** md5_finish_ctx */
    method Finish(resbuf: array<byte>)
      requires Valid() && resbuf.Length >= 16 && resbuf != buffer
      modifies this`A, this`B, this`C, this`D, this`total0, this`total1, this`hashed, buffer, resbuf
      ensures Allocated()
      ensures old(Counted()) ==> resbuf[..16] == Digest(old(Message()))
      ensures forall k :: 16 <= k < resbuf.Length ==> resbuf[k] == old(resbuf[k])
    {
      hide Compress, Fold, Folded, Output, LengthField, Padding, HashPadded, Digest;
      ghost var message := Message();
      DigestOf(message);
      FoldedMeans();
      FinishedByPadding(Compress, IV, message, hashed, buffer[..buflen], LengthField(|message|));
      var n := PadTail(|message|);
      ProcessBlock(buffer[..n]);
      FoldedMeans();
      ReadDigest(resbuf);
    }

    lemma FoldedMeans()
      requires Folded()
      ensures |hashed| % 64 == 0 && Chaining() == Fold(Compress, IV, hashed)
    {
      hide Compress, Fold;
    }
  }

  /** However the message is cut up, the digest is that of RFC 1321. */
  method HashPieces(target: Target, pieces: seq<Piece>) returns (digest: seq<byte>)
    ensures (forall k :: 0 <= k < |pieces| ==> |pieces[k].data| < TWO32) ==> digest == Digest(Joined(pieces))
  {
    hide Digest, Joined, Context.Folded, Context.Counted, Context.Valid, Context.Message;
    AllPieces(pieces);
    var ctx := new Context(target);
    ctx.Init();
    var i := 0;
    while i < |pieces|
      invariant i <= |pieces|
      invariant (forall k :: 0 <= k < i ==> |pieces[k].data| < TWO32) ==> ctx.Counted()
      invariant ctx.Valid() && fresh(ctx) && fresh(ctx.buffer)
      invariant ctx.Message() + Joined(pieces[i..]) == Joined(pieces)
    {
      JoinedNext(ctx.Message(), pieces, i);
      ctx.ProcessBytes(pieces[i].data, pieces[i].address);
      i := i + 1;
    }
    assert ctx.Message() + [] == ctx.Message();
    var resbuf := new byte[16];
    ctx.Finish(resbuf);
    digest := resbuf[..];
    assert digest == resbuf[..16];
  }
}
