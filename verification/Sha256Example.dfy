/** The worked example of FIPS 180-2, appendix B.1: the message "abc" in one block, followed
    through the message schedule and the 64 rounds to its digest. */
module Sha256Example {
  import opened Words
  import opened Blocks
  import opened Sha256Spec

  const ABC: seq<byte> := [0x61, 0x62, 0x63]

  /** The message schedule. */
  function W(t: nat): word
    requires t < 64
  {
    if t < 32 then
      if t < 16 then
        if t < 8 then
          if t < 4 then Pick(t, 0x61626380, 0x00000000, 0x00000000, 0x00000000)
          else Pick(t - 4, 0x00000000, 0x00000000, 0x00000000, 0x00000000)
        else
          if t < 12 then Pick(t - 8, 0x00000000, 0x00000000, 0x00000000, 0x00000000)
          else Pick(t - 12, 0x00000000, 0x00000000, 0x00000000, 0x00000018)
      else
        if t < 24 then
          if t < 20 then Pick(t - 16, 0x61626380, 0x000f0000, 0x7da86405, 0x600003c6)
          else Pick(t - 20, 0x3e9d7b78, 0x0183fc00, 0x12dcbfdb, 0xe2e2c38e)
        else
          if t < 28 then Pick(t - 24, 0xc8215c1a, 0xb73679a2, 0xe5bc3909, 0x32663c5b)
          else Pick(t - 28, 0x9d209d67, 0xec8726cb, 0x702138a4, 0xd3b7973b)
    else
      if t < 48 then
        if t < 40 then
          if t < 36 then Pick(t - 32, 0x93f5997f, 0x3b68ba73, 0xaff4ffc1, 0xf10a5c62)
          else Pick(t - 36, 0x0a8b3996, 0x72af830a, 0x9409e33e, 0x24641522)
        else
          if t < 44 then Pick(t - 40, 0x9f47bf94, 0xf0a64f5a, 0x3e246a79, 0x27333ba3)
          else Pick(t - 44, 0x0c4763f2, 0x840abf27, 0x7a290d5d, 0x065c43da)
      else
        if t < 56 then
          if t < 52 then Pick(t - 48, 0xfb3e89cb, 0xcc7617db, 0xb9e66c34, 0xa9993667)
          else Pick(t - 52, 0x84badedd, 0xc21462bc, 0x1487472c, 0xb20f7a99)
        else
          if t < 60 then Pick(t - 56, 0xef57b9cd, 0xebe6b238, 0x9fe3095e, 0x78bc8d4b)
          else Pick(t - 60, 0xa43fcf15, 0x668b2ff8, 0xeeaba2cc, 0x12b1edeb)
  }

  /** Working variable a after t - 3 rounds; b, c and d are its earlier values. */
  function A(t: nat): word
    requires t < 68
  {
    if t < 64 then
      if t < 32 then
        if t < 16 then
          if t < 8 then
            if t < 4 then Pick(t, 0xa54ff53a, 0x3c6ef372, 0xbb67ae85, 0x6a09e667)
            else Pick(t - 4, 0x5d6aebcd, 0x5a6ad9ad, 0xc8c347a7, 0xd550f666)
          else
            if t < 12 then Pick(t - 8, 0x04409a6a, 0x2b4209f5, 0xe5030380, 0x85a07b5f)
            else Pick(t - 12, 0x8e04ecb9, 0x8c87346b, 0x4798a3f4, 0xf71fc5a9)
        else
          if t < 24 then
            if t < 20 then Pick(t - 16, 0x87912990, 0xd932eb16, 0xc0645fde, 0xb0fa238e)
            else Pick(t - 20, 0x21da9a9b, 0xc2fbd9d1, 0xfe777bbf, 0xe1f20c33)
          else
            if t < 28 then Pick(t - 24, 0x9dc68b63, 0xc2606d6d, 0xa7a3623f, 0xc5d53d8d)
            else Pick(t - 28, 0x1c2c2838, 0xcde8037d, 0xb62ec4bc, 0x77d37528)
      else
        if t < 48 then
          if t < 40 then
            if t < 36 then Pick(t - 32, 0x363482c9, 0xa0060b30, 0xea992a22, 0x73b33bf5)
            else Pick(t - 36, 0x98e12507, 0xfe604df5, 0xa9a7738c, 0x65a0cfe4)
          else
            if t < 44 then Pick(t - 40, 0x41a65cb1, 0x34df1604, 0x6dc57a8a, 0x79ea687a)
            else Pick(t - 44, 0xd6670766, 0xdf46652f, 0x17aa0dfe, 0x9d4baf93)
        else
          if t < 56 then
            if t < 52 then Pick(t - 48, 0x26628815, 0x72ab4b91, 0xa14c14b0, 0x4172328d)
            else Pick(t - 52, 0x05757ceb, 0xf11bfaa8, 0x7a0508a1, 0x886e7a22)
          else
            if t < 60 then Pick(t - 56, 0x101fd28f, 0xf5702fdb, 0x3ec45cdb, 0x38cc9913)
            else Pick(t - 60, 0xfcd1887b, 0xc062d46f, 0xffb70472, 0xb6ae8fff)
    else
      Pick(t - 64, 0xb85e2ce9, 0x04d24d6c, 0xd39a2165, 0x506e3058)
  }

  /** Working variable e after t - 3 rounds; f, g and h are its earlier values. */
  function E(t: nat): word
    requires t < 68
  {
    if t < 64 then
      if t < 32 then
        if t < 16 then
          if t < 8 then
            if t < 4 then Pick(t, 0x5be0cd19, 0x1f83d9ab, 0x9b05688c, 0x510e527f)
            else Pick(t - 4, 0xfa2a4622, 0x78ce7989, 0xf92939eb, 0x24e00850)
          else
            if t < 12 then Pick(t - 8, 0x43ada245, 0x714260ad, 0x9b27a401, 0x0c657a79)
            else Pick(t - 12, 0x32ca2d8c, 0x1cc92596, 0x436b23e8, 0x816fd6e9)
        else
          if t < 24 then
            if t < 20 then Pick(t - 16, 0x1e578218, 0x745a48de, 0x0b92f20c, 0x07590dcd)
            else Pick(t - 20, 0x8034229c, 0x846ee454, 0xcc899961, 0xb0638179)
          else
            if t < 28 then Pick(t - 24, 0x8ada8930, 0xe1257970, 0x49f5114a, 0xaa47c347)
            else Pick(t - 28, 0x2823ef91, 0x14383d8e, 0xc74c6516, 0xedffbff8)
      else
        if t < 48 then
          if t < 40 then
            if t < 36 then Pick(t - 32, 0x6112a3b7, 0xade79437, 0x0109ab3a, 0xba591112)
            else Pick(t - 36, 0x9cd9f5f6, 0x59249dd3, 0x085f3833, 0xf4b002d6)
          else
            if t < 44 then Pick(t - 40, 0x0772a26b, 0xa507a53d, 0xf0781bc8, 0x1efbc0a0)
            else Pick(t - 44, 0x26352d63, 0x838b2711, 0xdecd4715, 0xfda24c2e)
        else
          if t < 56 then
            if t < 52 then Pick(t - 48, 0xa80f11f0, 0xb7755da1, 0xd57b94a9, 0xfecf0bc6)
            else Pick(t - 52, 0xbd714038, 0x6e5c390c, 0x52f1ccf7, 0x49231c1e)
          else
            if t < 60 then Pick(t - 56, 0x529e7d00, 0x9f4787c3, 0xe50e1b4f, 0x54cb266b)
            else Pick(t - 60, 0x9b5e906c, 0x7e44008e, 0x6d83bfc6, 0xb21bad3d)
    else
      Pick(t - 64, 0x961f4894, 0x948d25b6, 0xfb121210, 0x5ef50f24)
  }

  /** The working variables after t rounds. */
  function State(t: nat): HashValue
    requires t <= 64
  {
    HashValue(A(t + 3), A(t + 2), A(t + 1), A(t), E(t + 3), E(t + 2), E(t + 1), E(t))
  }

  // ----- the padded message

  lemma PaddingOfThree()
    ensures Padding(3, LengthField(3)) == [0x80] + Zeros(52) + (Zeros(6) + [0, 24])
  {
    hide Bytes, Reverse;
    SmallNumber(24, 8);
    ReverseConcat([24, 0], Zeros(6));
    ReverseZeros(6);
    ReversePair(24, 0);
  }

  lemma PaddedMessage() returns (block: Block)
    ensures |ABC| == 3 && ABC + Padding(3, LengthField(3)) == block
    ensures block[0..4] == [0x61, 0x62, 0x63, 0x80] && block[60..64] == [0, 0, 0, 24]
    ensures forall t | 0 < t < 15 :: block[4 * t..4 * t + 4] == [0, 0, 0, 0]
  {
    hide Padding, LengthField;
    PaddingOfThree();
    block := ABC + Padding(3, LengthField(3));
  }

  // ----- the message schedule

  /** The first n words of the schedule are those of the table. */
  ghost predicate Expanded(block: Block, n: nat)
    requires n <= 64
  {
    forall t | 0 <= t < n :: Schedule(block, n)[t] == W(t)
  }

  lemma FirstWords()
    ensures FromBigEndian([0x61, 0x62, 0x63, 0x80]) == W(0)
    ensures forall t | 0 < t < 15 :: FromBigEndian([0, 0, 0, 0]) == W(t)
    ensures FromBigEndian([0, 0, 0, 24]) == W(15)
  {}

  lemma {:induction false} LoadedWords(block: Block, n: nat)
    requires block[0..4] == [0x61, 0x62, 0x63, 0x80] && block[60..64] == [0, 0, 0, 24]
    requires forall t | 0 < t < 15 :: block[4 * t..4 * t + 4] == [0, 0, 0, 0]
    requires n <= 16
    ensures Expanded(block, n)
  {
    hide W, FromBigEndian;
    if n > 0 {
      LoadedWords(block, n - 1);
      FirstWords();
    }
  }

  lemma NextWord(block: Block, t: nat)
    requires 16 <= t < 64 && Expanded(block, t)
    requires W(t) == Plus(Plus(Plus(SmallSigma1(W(t - 2)), W(t - 7)), SmallSigma0(W(t - 15))), W(t - 16))
    ensures Expanded(block, t + 1)
  {
    hide W, Plus, SmallSigma0, SmallSigma1;
  }

  lemma Words16(block: Block)
    requires Expanded(block, 16)
    ensures Expanded(block, 32)
  {
    hide Expanded, Schedule;
    NextWord(block, 16); NextWord(block, 17); NextWord(block, 18); NextWord(block, 19);
    NextWord(block, 20); NextWord(block, 21); NextWord(block, 22); NextWord(block, 23);
    NextWord(block, 24); NextWord(block, 25); NextWord(block, 26); NextWord(block, 27);
    NextWord(block, 28); NextWord(block, 29); NextWord(block, 30); NextWord(block, 31);
  }

  lemma Words32(block: Block)
    requires Expanded(block, 32)
    ensures Expanded(block, 48)
  {
    hide Expanded, Schedule;
    NextWord(block, 32); NextWord(block, 33); NextWord(block, 34); NextWord(block, 35);
    NextWord(block, 36); NextWord(block, 37); NextWord(block, 38); NextWord(block, 39);
    NextWord(block, 40); NextWord(block, 41); NextWord(block, 42); NextWord(block, 43);
    NextWord(block, 44); NextWord(block, 45); NextWord(block, 46); NextWord(block, 47);
  }

  lemma Words48(block: Block)
    requires Expanded(block, 48)
    ensures Expanded(block, 64)
  {
    hide Expanded, Schedule;
    NextWord(block, 48); NextWord(block, 49); NextWord(block, 50); NextWord(block, 51);
    NextWord(block, 52); NextWord(block, 53); NextWord(block, 54); NextWord(block, 55);
    NextWord(block, 56); NextWord(block, 57); NextWord(block, 58); NextWord(block, 59);
    NextWord(block, 60); NextWord(block, 61); NextWord(block, 62); NextWord(block, 63);
  }

  lemma AllWords(block: Block)
    requires block[0..4] == [0x61, 0x62, 0x63, 0x80] && block[60..64] == [0, 0, 0, 24]
    requires forall t | 0 < t < 15 :: block[4 * t..4 * t + 4] == [0, 0, 0, 0]
    ensures Expanded(block, 64)
  {
    hide Expanded;
    LoadedWords(block, 16);
    Words16(block);
    Words32(block);
    Words48(block);
  }

  // ----- the rounds

  lemma NextRound(w: seq<word>, t: nat)
    requires t < 64 == |w| && w[t] == W(t)
    requires Rounds(State(0), w, t) == State(t)
    requires Round(State(t), K(t), W(t)) == State(t + 1)
    ensures Rounds(State(0), w, t + 1) == State(t + 1)
  {
    hide State, Round, K, W;
  }

  lemma Rounds0(w: seq<word>)
    requires |w| == 64 && forall t | 0 <= t < 64 :: w[t] == W(t)
    requires Rounds(State(0), w, 0) == State(0)
    ensures Rounds(State(0), w, 16) == State(16)
  {
    hide Rounds;
    NextRound(w, 0); NextRound(w, 1); NextRound(w, 2); NextRound(w, 3);
    NextRound(w, 4); NextRound(w, 5); NextRound(w, 6); NextRound(w, 7);
    NextRound(w, 8); NextRound(w, 9); NextRound(w, 10); NextRound(w, 11);
    NextRound(w, 12); NextRound(w, 13); NextRound(w, 14); NextRound(w, 15);
  }

  lemma Rounds16(w: seq<word>)
    requires |w| == 64 && forall t | 0 <= t < 64 :: w[t] == W(t)
    requires Rounds(State(0), w, 16) == State(16)
    ensures Rounds(State(0), w, 32) == State(32)
  {
    hide Rounds;
    NextRound(w, 16); NextRound(w, 17); NextRound(w, 18); NextRound(w, 19);
    NextRound(w, 20); NextRound(w, 21); NextRound(w, 22); NextRound(w, 23);
    NextRound(w, 24); NextRound(w, 25); NextRound(w, 26); NextRound(w, 27);
    NextRound(w, 28); NextRound(w, 29); NextRound(w, 30); NextRound(w, 31);
  }

  lemma Rounds32(w: seq<word>)
    requires |w| == 64 && forall t | 0 <= t < 64 :: w[t] == W(t)
    requires Rounds(State(0), w, 32) == State(32)
    ensures Rounds(State(0), w, 48) == State(48)
  {
    hide Rounds;
    NextRound(w, 32); NextRound(w, 33); NextRound(w, 34); NextRound(w, 35);
    NextRound(w, 36); NextRound(w, 37); NextRound(w, 38); NextRound(w, 39);
    NextRound(w, 40); NextRound(w, 41); NextRound(w, 42); NextRound(w, 43);
    NextRound(w, 44); NextRound(w, 45); NextRound(w, 46); NextRound(w, 47);
  }

  lemma Rounds48(w: seq<word>)
    requires |w| == 64 && forall t | 0 <= t < 64 :: w[t] == W(t)
    requires Rounds(State(0), w, 48) == State(48)
    ensures Rounds(State(0), w, 64) == State(64)
  {
    hide Rounds;
    NextRound(w, 48); NextRound(w, 49); NextRound(w, 50); NextRound(w, 51);
    NextRound(w, 52); NextRound(w, 53); NextRound(w, 54); NextRound(w, 55);
    NextRound(w, 56); NextRound(w, 57); NextRound(w, 58); NextRound(w, 59);
    NextRound(w, 60); NextRound(w, 61); NextRound(w, 62); NextRound(w, 63);
  }

  // ----- the digest

  lemma FinalValue()
    ensures Add(State(64), State(0)) == HashValue(0xba7816bf, 0x8f01cfea, 0x414140de, 0x5dae2223,
                                             0xb00361a3, 0x96177a9c, 0xb410ff61, 0xf20015ad)
  {}

  lemma FinalBytes()
    ensures BigEndianBytes(0xba7816bf) == [0xba, 0x78, 0x16, 0xbf]
    ensures BigEndianBytes(0x8f01cfea) == [0x8f, 0x01, 0xcf, 0xea]
    ensures BigEndianBytes(0x414140de) == [0x41, 0x41, 0x40, 0xde]
    ensures BigEndianBytes(0x5dae2223) == [0x5d, 0xae, 0x22, 0x23]
    ensures BigEndianBytes(0xb00361a3) == [0xb0, 0x03, 0x61, 0xa3]
    ensures BigEndianBytes(0x96177a9c) == [0x96, 0x17, 0x7a, 0x9c]
    ensures BigEndianBytes(0xb410ff61) == [0xb4, 0x10, 0xff, 0x61]
    ensures BigEndianBytes(0xf20015ad) == [0xf2, 0x00, 0x15, 0xad]
  {}

  lemma AllRounds(w: seq<word>)
    requires |w| == 64 && forall t | 0 <= t < 64 :: w[t] == W(t)
    ensures Rounds(State(0), w, 64) == State(64)
  {
    hide State, W;
    assert Rounds(State(0), w, 0) == State(0);
    hide Rounds;
    Rounds0(w);
    Rounds16(w);
    Rounds32(w);
    Rounds48(w);
  }

  lemma StartIsIV()
    ensures State(0) == IV
  {}

  lemma Compressed(block: Block)
    requires block[0..4] == [0x61, 0x62, 0x63, 0x80] && block[60..64] == [0, 0, 0, 24]
    requires forall t | 0 < t < 15 :: block[4 * t..4 * t + 4] == [0, 0, 0, 0]
    ensures Compress(IV, block) == Add(State(64), State(0))
  {
    hide Add, Rounds, Schedule, State, W;
    AllWords(block);
    AllRounds(Schedule(block, 64));
    StartIsIV();
  }

  lemma OneBlock(block: Block)
    requires |ABC| == 3 && ABC + Padding(3, LengthField(3)) == block
    ensures HashPadded(Compress, IV, ABC, LengthField(3)) == Compress(IV, block)
  {
    hide Compress, LengthField, Padding;
    assert HashPadded(Compress, IV, ABC, LengthField(3)) == Fold(Compress, IV, block);
    FoldBlock(Compress, IV, block);
  }

  /** The digest of "abc" is ba7816bf 8f01cfea 414140de 5dae2223 b00361a3 96177a9c b410ff61 f20015ad. */
  lemma DigestOfAbc()
    ensures Digest([0x61, 0x62, 0x63]) == [0xba, 0x78, 0x16, 0xbf, 0x8f, 0x01, 0xcf, 0xea,
                                          0x41, 0x41, 0x40, 0xde, 0x5d, 0xae, 0x22, 0x23,
                                          0xb0, 0x03, 0x61, 0xa3, 0x96, 0x17, 0x7a, 0x9c,
                                          0xb4, 0x10, 0xff, 0x61, 0xf2, 0x00, 0x15, 0xad]
  {
    hide Digest, Padding, LengthField, HashPadded, Compress, Add, State, Output, BigEndianBytes;
    DigestOf(ABC);
    var block := PaddedMessage();
    OneBlock(block);
    Compressed(block);
    FinalValue();
    OutputWords(Add(State(64), State(0)));
    FinalBytes();
  }
}
