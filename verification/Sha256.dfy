/** The streaming SHA-256 code: a context object with a 128-byte staging buffer. */
module Sha256 {
  import opened Words
  import opened Blocks
  import opened Memory
  import opened Sha256Spec

  // ----- the macros of the block loop

  function S0(x: word): word { ((x >> 2) | (x << 30)) ^ ((x >> 13) | (x << 19)) ^ ((x >> 22) | (x << 10)) }

  function S1(x: word): word { ((x >> 6) | (x << 26)) ^ ((x >> 11) | (x << 21)) ^ ((x >> 25) | (x << 7)) }

  function R0(x: word): word { ((x >> 7) | (x << 25)) ^ ((x >> 18) | (x << 14)) ^ (x >> 3) }

  function R1(x: word): word { ((x >> 17) | (x << 15)) ^ ((x >> 19) | (x << 13)) ^ (x >> 10) }

  lemma MacrosAreSigmas(x: word)
    ensures S0(x) == BigSigma0(x) && S1(x) == BigSigma1(x)
    ensures R0(x) == SmallSigma0(x) && R1(x) == SmallSigma1(x)
  {}

  /** SWAP: big-endian words on any host. */
  function Swap(order: ByteOrder, n: word): word {
    if order.LittleEndian? then ByteSwap32(n) else n
  }

  function Swap64(order: ByteOrder, n: dword): dword {
    if order.LittleEndian? then ByteSwap64(n) else n
  }

  lemma SwapLoads(order: ByteOrder, b: seq<byte>)
    requires |b| == 4
    ensures Swap(order, Loaded32(order, b)) == FromBigEndian(b)
  {
    SwapReversesLoad(b);
  }

  lemma SwapStores(order: ByteOrder, w: word)
    ensures Stored32(order, Swap(order, w)) == BigEndianBytes(w)
  {
    SwapReversesStore(w);
  }

  // ----- the length field

  lemma SwapStores64(order: ByteOrder, t: dword)
    ensures Stored64(order, Swap64(order, t)) == BigEndianBytes(High32(t)) + BigEndianBytes(Low32(t))
  {
    SwapHalves(t);
    SwapReversesStore(High32(t));
    SwapReversesStore(Low32(t));
  }

  lemma RegisterBytes(b: seq<byte>)
    requires |b| == 4
    ensures BigEndianBytes(FromLittleEndian(b)) == Reverse(b)
  {
    StoreAfterLoad(b);
    ReverseFour(b);
  }

  /** The single 64-bit store of the shifted count. */
  lemma WideStore(order: ByteOrder, x: uint64)
    ensures Stored64(order, Swap64(order, Register64(x))) == Reverse(Bytes(x, 8))
  {
    var b := Bytes(x, 8);
    SwapStores64(order, Register64(x));
    Halves(FromLittleEndian(b[4..]), FromLittleEndian(b[..4]));
    RegisterBytes(b[4..]);
    RegisterBytes(b[..4]);
    assert b == b[..4] + b[4..];
    ReverseConcat(b[..4], b[4..]);
  }

  /** The two 32-bit stores, high half first. */
  lemma NarrowStores(order: ByteOrder, high: uint32, low: uint32)
    ensures Stored32(order, Swap(order, Register32(high))) + Stored32(order, Swap(order, Register32(low)))
         == Reverse(Bytes(high * TWO32 + low, 8))
  {
    SwapStores(order, Register32(high));
    SwapStores(order, Register32(low));
    RegisterBytes(Bytes(high, 4));
    RegisterBytes(Bytes(low, 4));
    PowersOf256();
    JoinedBytes(high, low, 4);
    ReverseConcat(Bytes(low, 4), Bytes(high, 4));
  }

  function LengthDoubleword(order: ByteOrder, total: uint64): dword {
    Swap64(order, Register64(total * 8 % TWO64))
  }

  function HighLengthWord(order: ByteOrder, total: uint64): word {
    Swap(order, Register32(ShiftedHigh(total / TWO32, total % TWO32)))
  }

  function LowLengthWord(order: ByteOrder, total: uint64): word {
    Swap(order, Register32(ShiftedLow(total % TWO32)))
  }

  lemma LengthBytes(n: nat, total: uint64)
    requires total == n % TWO64
    ensures Reverse(Bytes(total * 8 % TWO64, 8)) == LengthField(n)
  {
    PowersOf256();
    BitCountBytes(n, total, 8);
  }

  /** Both ways of storing the count leave the length field of section 5.1.1. */
  lemma LengthStores(order: ByteOrder, n: nat, total: uint64)
    requires total == n % TWO64
    ensures Stored64(order, LengthDoubleword(order, total)) == LengthField(n)
    ensures Stored32(order, HighLengthWord(order, total)) + Stored32(order, LowLengthWord(order, total))
         == LengthField(n)
  {
    hide Stored32, Stored64, Swap, Swap64, Register32, Register64, LengthField, Bytes;
    LengthBytes(n, total);
    WideStore(order, total * 8 % TWO64);
    var high, low := total / TWO32, total % TWO32;
    ShiftHalves(high, low);
    NarrowStores(order, ShiftedHigh(high, low), ShiftedLow(low));
  }

  // ----- the block loop

  lemma ScheduleStep(block: Block, w: seq<word>)
    requires 16 <= |w| < 64 && w == Schedule(block, |w|)
    ensures w + [Plus(Plus(Plus(R1(w[|w| - 2]), w[|w| - 7]), R0(w[|w| - 15])), w[|w| - 16])]
         == Schedule(block, |w| + 1)
  {
    hide R0, R1, SmallSigma0, SmallSigma1, Plus;
    MacrosAreSigmas(w[|w| - 2]);
    MacrosAreSigmas(w[|w| - 15]);
  }

  lemma ScheduleLoad(order: ByteOrder, block: Block, w: seq<word>)
    requires |w| < 16 && w == Schedule(block, |w|)
    ensures w + [Swap(order, Loaded32(order, block[4 * |w|..4 * |w| + 4]))] == Schedule(block, |w| + 1)
  {
    hide Swap, Loaded32, FromBigEndian;
    SwapLoads(order, block[4 * |w|..4 * |w| + 4]);
  }

  lemma RoundStep(v: HashValue, k: word, w: word)
    ensures var T1 := Plus(Plus(Plus(Plus(v.h, S1(v.e)), Ch(v.e, v.f, v.g)), k), w);
            var T2 := Plus(S0(v.a), Maj(v.a, v.b, v.c));
            Round(v, k, w) == HashValue(Plus(T1, T2), v.a, v.b, v.c, Plus(v.d, T1), v.e, v.f, v.g)
  {}

  /** FIPS 180-2 section 6.2.2 step 2. */
  method ExpandSchedule(order: ByteOrder, words: Block) returns (W: array<word>)
    ensures fresh(W) && W.Length == 64
    ensures W[..] == Schedule(words, 64)
  {
    hide Swap, Loaded32, R0, R1, Plus, Schedule;
    W := new word[64];
    for t := 0 to 16
      invariant W[..t] == Schedule(words, t)
    {
      ScheduleLoad(order, words, W[..t]);
      W[t] := Swap(order, Loaded32(order, words[4 * t..4 * t + 4]));
      assert W[..t + 1] == W[..t] + [W[t]];
    }
    for t := 16 to 64
      invariant W[..t] == Schedule(words, t)
    {
      ScheduleStep(words, W[..t]);
      W[t] := Plus(Plus(Plus(R1(W[t - 2]), W[t - 7]), R0(W[t - 15])), W[t - 16]);
      assert W[..t + 1] == W[..t] + [W[t]];
    }
    assert W[..] == W[..64];
  }

  /** Steps 3 and 4: 64 rounds, then the starting values are added. */
  method HashBlock(order: ByteOrder, words: Block, v: HashValue) returns (r: HashValue)
    ensures r == Compress(v, words)
  {
    var W := ExpandSchedule(order, words);
    ghost var w := W[..];
    var a, b, c, d, e, f, g, h := v.a, v.b, v.c, v.d, v.e, v.f, v.g, v.h;
    for t := 0 to 64
      invariant W[..] == w
      invariant HashValue(a, b, c, d, e, f, g, h) == Rounds(v, w, t)
    {
      RoundStep(HashValue(a, b, c, d, e, f, g, h), K(t), W[t]);
      var T1 := Plus(Plus(Plus(Plus(h, S1(e)), Ch(e, f, g)), K(t)), W[t]);
      var T2 := Plus(S0(a), Maj(a, b, c));
      h := g;
      g := f;
      f := e;
      e := Plus(d, T1);
      d := c;
      c := b;
      b := a;
      a := Plus(T1, T2);
    }
    r := Add(HashValue(a, b, c, d, e, f, g, h), v);
  }

  /** The loop over the blocks of data. */
  method HashBlocks(order: ByteOrder, data: seq<byte>, start: HashValue) returns (v: HashValue)
    requires |data| % 64 == 0
    ensures v == Fold(Compress, start, data)
  {
    hide Compress;
    v := start;
    var at := 0;
    while at < |data|
      invariant at <= |data| && at % 64 == 0
      invariant Fold(Compress, v, data[at..]) == Fold(Compress, start, data)
    {
      var words: Block := data[at..at + 64];
      assert data[at..][..64] == words && data[at..][64..] == data[at + 64..];
      v := HashBlock(order, words, v);
      at := at + 64;
    }
  }

  // ----- the context

  class Context {
    const target: Target
    var H: array<word>
    var total64: uint64
    var buflen: nat
    var buffer: array<byte>

    // The bytes of all blocks hashed since initialisation
    ghost var hashed: seq<byte>

    constructor (target: Target)
      ensures this.target == target
      ensures Allocated() && fresh(H) && fresh(buffer)
    {
      this.target := target;
      H := new word[8];
      total64 := 0;
      buflen := 0;
      buffer := new byte[128];
    }

    ghost predicate Allocated()
      reads this
    {
      H.Length == 8 && buffer.Length == 128
    }

    function Chaining(): HashValue
      requires H.Length == 8
      reads this`H, H
    {
      HashValue(H[0], H[1], H[2], H[3], H[4], H[5], H[6], H[7])
    }

    /** H is the fold over the blocks hashed so far. */
    ghost predicate Folded()
      reads this`H, this`hashed, H
    {
      H.Length == 8 && |hashed| % 64 == 0 && Chaining() == Fold(Compress, IV, hashed)
    }

    /** total64 counts the bytes of those blocks, modulo 2^64. */
    ghost predicate Counted()
      reads this`total64, this`hashed
    {
      total64 == |hashed| % TWO64
    }

    /** The representation between calls. */
    ghost predicate Valid()
      reads this, H
    {
      Allocated() && Folded() && Counted() && buflen <= 64
    }

    /** Everything given to the context since initialisation. */
    ghost function Message(): seq<byte>
      requires Valid()
      reads this, H, buffer
    {
      hashed + buffer[..buflen]
    }

    /** *this = *src; buffer bytes that are not in use are copied too. */
    method CopyFrom(src: Context)
      requires Allocated() && src.Allocated()
      requires src == this || (src.H != H && src.buffer != buffer)
      modifies this`total64, this`buflen, this`hashed, H, buffer
      ensures Allocated()
      ensures total64 == old(src.total64) && buflen == old(src.buflen) && hashed == old(src.hashed)
      ensures H[..] == old(src.H[..]) && buffer[..] == old(src.buffer[..])
      ensures old(src.Valid()) ==> Valid() && Message() == old(src.Message())
    {
      hide Folded;
      ghost var represents := src.Valid();
      total64, buflen, hashed := src.total64, src.buflen, src.hashed;
      forall i | 0 <= i < 8 { H[i] := src.H[i]; }
      forall i | 0 <= i < 128 { buffer[i] := src.buffer[i]; }
      if represents {
        CopyIsFaithful(src, this);
      }
    }

    method SetChaining(v: HashValue)
      requires H.Length == 8
      modifies H
      ensures Chaining() == v
    {
      H[0], H[1], H[2], H[3] := v.a, v.b, v.c, v.d;
      H[4], H[5], H[6], H[7] := v.e, v.f, v.g, v.h;
    }

    method Init()
      requires Allocated()
      modifies this`total64, this`buflen, this`hashed, H
      ensures Valid() && Message() == [] && buflen == 0
    {
      SetChaining(HashValue(0x6a09e667, 0xbb67ae85, 0x3c6ef372, 0xa54ff53a,
                            0x510e527f, 0x9b05688c, 0x1f83d9ab, 0x5be0cd19));
      total64 := 0;
      buflen := 0;
      hashed := [];
    }

    /** Hash whole blocks and count their bytes. */
    method ProcessBlock(data: seq<byte>)
      requires Folded() && |data| % 64 == 0
      modifies this`total64, this`hashed, H
      ensures Folded() && hashed == old(hashed) + data
      ensures total64 == (old(total64) + |data|) % TWO64
      ensures old(Counted()) ==> Counted()
    {
      hide Compress, Fold, Counted;
      FoldOn(data);
      total64 := (total64 + |data|) % TWO64;
      var v := HashBlocks(target.order, data, Chaining());
      hashed := hashed + data;
      SetChaining(v);
      if old(Counted()) {
        CountOn(data);
      }
    }

    lemma FoldOn(data: seq<byte>)
      requires Folded() && |data| % 64 == 0
      ensures H.Length == 8 && |hashed + data| % 64 == 0
      ensures Fold(Compress, Chaining(), data) == Fold(Compress, IV, hashed + data)
    {
      hide Compress, Fold;
      FoldConcat(Compress, IV, hashed, data);
    }

    twostate lemma CountOn(data: seq<byte>)
      requires old(Counted()) && hashed == old(hashed) + data && total64 == (old(total64) + |data|) % TWO64
      ensures Counted()
    {
      AddModulo(|old(hashed)|, |data|);
    }

    /** Hash the whole blocks of an overfull buffer and move the rest to its front. */
    method Drain()
      requires Allocated() && Folded() && Counted() && 64 < buflen <= 128
      modifies this`total64, this`buflen, this`hashed, H, buffer
      ensures Valid() && Message() == old(hashed + buffer[..buflen])
      ensures buflen == old(buflen) % 64
    {
      hide Folded, Counted, WholeBlocks;
      var whole := WholeBlocks(buflen);
      ghost var filled := buffer[..buflen];
      Splice(hashed, filled, whole, buflen);
      assert buffer[..whole] == filled[..whole] && buffer[whole..buflen] == filled[whole..buflen];
      ProcessBlock(buffer[..whole]);
      buflen := buflen % 64;
      MemcpyWithin(buffer, 0, whole, buflen);
    }

    /** First phase: merge the chunk with a partly filled buffer. */
    method MergeBuffered(chunk: seq<byte>) returns (add: nat)
      requires Valid() && buflen != 0
      modifies this`total64, this`buflen, this`hashed, H, buffer
      ensures Valid() && add <= |chunk| && Message() == old(Message()) + chunk[..add]
      ensures add < |chunk| ==> buflen == 0 && add == 128 - old(buflen)
      ensures add == |chunk| ==> buflen == Buffered(old(buflen), |chunk|)
    {
      hide Folded, Counted;
      var leftOver := buflen;
      add := if 128 - leftOver > |chunk| then |chunk| else 128 - leftOver;
      Memcpy(buffer, leftOver, chunk[..add]);
      buflen := buflen + add;
      assert hashed + buffer[..buflen] == old(Message()) + chunk[..add];
      if buflen > 64 {
        Drain();
      }
    }

    /** Copy one block after the other into the buffer and hash it there. */
    method HashCopies(chunk: seq<byte>, from: nat) returns (at: nat)
      requires Valid() && from <= |chunk| && |chunk| - from >= 64 && buflen == 0
      modifies this`total64, this`hashed, H, buffer
      ensures Valid() && from <= at <= |chunk| && |chunk| - at <= 64 && (at - from) % 64 == 0
      ensures hashed == old(hashed) + chunk[from..at]
    {
      hide Folded, Counted;
      at := from;
      while |chunk| - at > 64
        invariant Valid() && buflen == 0 && from <= at <= |chunk| && (at - from) % 64 == 0
        invariant hashed == old(hashed) + chunk[from..at]
      {
        Memcpy(buffer, 0, chunk[at..at + 64]);
        ProcessBlock(buffer[..64]);
        assert buffer[..64] == chunk[at..at + 64];
        NextSlice(chunk, from, at, at + 64);
        assert hashed == old(hashed) + chunk[from..at] + chunk[at..at + 64];
        at := at + 64;
      }
    }

    /** Second phase: hash whole blocks straight from the caller's memory, or one at a
        time through the buffer when that memory is unaligned.  The two ways stop at
        different points. */
    method HashWholeBlocks(chunk: seq<byte>, from: nat, address: nat) returns (at: nat)
      requires Valid() && from <= |chunk| && |chunk| - from >= 64 && buflen == 0
      modifies this`total64, this`hashed, H, buffer
      ensures Valid() && buflen == 0 && from <= at <= |chunk|
      ensures Message() == old(Message()) + chunk[from..at]
      ensures |chunk| - at <= 64 && (at - from) % 64 == 0
    {
      hide Folded, Counted;
      at := from;
      if !target.unalignedAccess && IsUnaligned(address + from) {
        at := HashCopies(chunk, from);
      } else {
        at := from + WholeBlocks(|chunk| - from);
        ProcessBlock(chunk[from..at]);
      }
    }

    /** Third phase: keep the remaining bytes. */
    method KeepTail(tail: seq<byte>)
      requires Valid() && buflen == 0 && 0 < |tail| <= 64
      modifies this`total64, this`buflen, this`hashed, H, buffer
      ensures Valid() && Message() == old(Message()) + tail
      ensures buflen == |tail| % 64
    {
      hide Folded, Counted;
      var leftOver := buflen;
      Memcpy(buffer, leftOver, tail);
      assert buffer[..|tail|] == tail;
      leftOver := leftOver + |tail|;
      if leftOver >= 64 {
        ProcessBlock(buffer[..64]);
        leftOver := leftOver - 64;
        MemcpyWithin(buffer, 0, 64, leftOver);
      }
      buflen := leftOver;
    }

    /** sha256_process_bytes on memory that starts at address. */
    method ProcessBytes(chunk: seq<byte>, address: nat)
      requires Valid()
      modifies this`total64, this`buflen, this`hashed, H, buffer
      ensures Valid() && Message() == old(Message()) + chunk
      ensures buflen == Buffered(old(buflen), |chunk|)
    {
      hide Folded, Counted, Buffered, Message;
      ghost var before := Message();
      var at := 0;
      if buflen != 0 {
        at := MergeBuffered(chunk);
      }
      ghost var merged := at;
      if |chunk| - at >= 64 {
        at := HashWholeBlocks(chunk, at, address);
        Splice(before, chunk, merged, at);
      }
      if |chunk| - at > 0 {
        KeepTail(chunk[at..]);
        Splice(before, chunk, at, |chunk|);
      }
      if merged < |chunk| || old(buflen) == 0 {
        BufferedTail(old(buflen), |chunk|, merged, at);
      }
      assert chunk[..|chunk|] == chunk;
    }

    /** Append the mark byte and zeros; returns where the length belongs. */
    method Mark() returns (n: nat)
      requires Allocated() && buflen <= 64
      modifies buffer
      ensures n == buflen + 1 + ZeroCount(buflen) && n % 64 == 56
      ensures buffer[..n] == old(buffer[..buflen]) + MarkAndZeros(buflen)
    {
      var bytes := buflen;
      var pad := if bytes >= 56 then 64 + 56 - bytes else 56 - bytes;
      Memcpy(buffer, bytes, FILLBUF[..pad]);
      n := bytes + pad;
    }

    /** Store the bit length of an n-byte message. */
    method StoreLength(at: nat, ghost n: nat)
      requires Allocated() && at % 64 == 56 && at <= 120
      requires total64 == n % TWO64
      modifies buffer
      ensures buffer[..at + 8] == old(buffer[..at]) + LengthField(n)
    {
      hide LengthField, LengthDoubleword, HighLengthWord, LowLengthWord, Stored32, Stored64;
      LengthStores(target.order, n, total64);
      if target.unalignedAccess {
        StoreDoubleword(target.order, buffer, at / 8, LengthDoubleword(target.order, total64));
      } else {
        StoreWord(target.order, buffer, (at + 4) / 4, LowLengthWord(target.order, total64));
        StoreWord(target.order, buffer, at / 4, HighLengthWord(target.order, total64));
      }
      assert buffer[at..at + 8] == LengthField(n);
    }

    lemma WordsInOrder()
      requires H.Length == 8
      ensures ConcatWords(H[..8]) == Output(Chaining())
    {
      hide BigEndianBytes;
      var v := Chaining();
      assert H[..8] == [v.a, v.b, v.c, v.d, v.e, v.f, v.g, v.h];
    }

    /** The digest words, most significant byte first. */
    method WriteDigest(resbuf: array<byte>)
      requires Allocated() && resbuf.Length >= 32 && resbuf != buffer
      modifies resbuf
      ensures resbuf[..32] == Output(Chaining())
      ensures forall k :: 32 <= k < resbuf.Length ==> resbuf[k] == old(resbuf[k])
    {
      hide BigEndianBytes, Stored32, ConcatWords, Swap, Output;
      for i := 0 to 8
        invariant resbuf[..4 * i] == ConcatWords(H[..i])
        invariant forall k :: 32 <= k < resbuf.Length ==> resbuf[k] == old(resbuf[k])
      {
        SwapStores(target.order, H[i]);
        StoreWord(target.order, resbuf, i, Swap(target.order, H[i]));
        assert resbuf[4 * i..4 * i + 4] == BigEndianBytes(H[i]);
        ConcatNext(H[..i], H[i]);
        assert H[..i + 1] == H[..i] + [H[i]];
        assert resbuf[..4 * (i + 1)] == resbuf[..4 * i] + resbuf[4 * i..4 * i + 4];
      }
      WordsInOrder();
    }

    /** The first half of sha256_finish_ctx: pad the tail of a size-byte message in place. */
    method PadTail(ghost size: nat) returns (n: nat)
      requires Allocated() && Counted() && buflen <= 64
      requires |hashed| % 64 == 0 && size == |hashed| + buflen
      modifies this`total64, buffer
      ensures n <= 128
      ensures buffer[..n] == old(buffer[..buflen]) + Padding(size, LengthField(size))
    {
      hide LengthField, MarkAndZeros;
      ghost var tail := buffer[..buflen];
      MarkAndZerosOfTail(size, buflen);
      AddModulo(|hashed|, buflen);
      total64 := (total64 + buflen) % TWO64;
      var at := Mark();
      StoreLength(at, size);
      n := at + 8;
      assert tail + MarkAndZeros(size) + LengthField(size) == tail + (MarkAndZeros(size) + LengthField(size));
    }

    /** sha256_finish_ctx */
    method Finish(resbuf: array<byte>)
      requires Valid() && resbuf.Length >= 32 && resbuf != buffer
      modifies this`total64, this`hashed, H, buffer, resbuf
      ensures Allocated()
      ensures resbuf[..32] == Digest(old(Message()))
      ensures forall k :: 32 <= k < resbuf.Length ==> resbuf[k] == old(resbuf[k])
    {
      hide Compress, Fold, Folded, Counted, Output, LengthField, Padding, HashPadded, Digest;
      ghost var message := Message();
      DigestOf(message);
      FoldedMeans();
      FinishedByPadding(Compress, IV, message, hashed, buffer[..buflen], LengthField(|message|));
      var n := PadTail(|message|);
      ProcessBlock(buffer[..n]);
      FoldedMeans();
      WriteDigest(resbuf);
    }

    lemma FoldedMeans()
      requires Folded()
      ensures |hashed| % 64 == 0 && Chaining() == Fold(Compress, IV, hashed)
    {
      hide Compress, Fold;
    }
  }

  /** Equal fields represent equal messages. */
  twostate lemma CopyIsFaithful(src: Context, new dst: Context)
    requires old(src.Valid()) && dst.Allocated()
    requires dst.total64 == old(src.total64) && dst.buflen == old(src.buflen) && dst.hashed == old(src.hashed)
    requires dst.H[..] == old(src.H[..]) && dst.buffer[..] == old(src.buffer[..])
    ensures dst.Valid() && dst.Message() == old(src.Message())
  {
    hide Compress, Fold;
    assert forall i :: 0 <= i < 8 ==> dst.H[i] == dst.H[..][i];
    assert forall i :: 0 <= i < 8 ==> old(src.H[i]) == old(src.H[..])[i];
    assert dst.Chaining() == old(src.Chaining());
    assert dst.buffer[..dst.buflen] == dst.buffer[..][..dst.buflen];
    assert old(src.buffer[..src.buflen]) == old(src.buffer[..])[..dst.buflen];
  }

  /** Alignment, byte order and the cutting points leave no trace: the message and the
      buffered length determine everything later calls can see. */
  lemma StateIsDetermined(a: Context, b: Context)
    requires a.Valid() && b.Valid()
    requires a.Message() == b.Message() && a.buflen == b.buflen
    ensures a.Chaining() == b.Chaining() && a.total64 == b.total64
    ensures a.buffer[..a.buflen] == b.buffer[..b.buflen]
  {
    hide Compress, Fold;
    var tailA, tailB := a.buffer[..a.buflen], b.buffer[..b.buflen];
    assert a.hashed + tailA == b.hashed + tailB;
    SameSuffix(a.hashed, tailA, b.hashed, tailB);
  }
}
