/** Two lines of the test suite of RFC 1321, appendix A.5, followed step by step: the empty
    message, and the letters and digits.  The latter fill two blocks, and the sixteen words
    of the first are all different. */
module Md5Example {
  import opened Words
  import opened Blocks
  import opened Md5Spec

  // ----- one step: a, b, c and d are the registers before it, m its message word, s its
  // rotation and r the new register b

  predicate Operands(i: nat, k: nat, s: nat) { k == WordIndex(i) && s == Shift(i) }

  lemma NextF(v: HashValue, x: seq<word>, i: nat, k: nat, m: word, s: nat,
              a: word, b: word, c: word, d: word, r: word)
    requires i < 16 && |x| == 16 && Operands(i, k, s) && x[k] == m
    requires Steps(v, x, 0, i) == HashValue(a, b, c, d)
    requires Plus(Rotate(Plus(a, Plus(Plus(F(b, c, d), m), T(i))), s), b) == r
    ensures Steps(v, x, 0, i + 1) == HashValue(d, r, b, c)
  {
    hide Plus, Rotate, F, T;
  }

  lemma NextG(v: HashValue, x: seq<word>, i: nat, k: nat, m: word, s: nat,
              a: word, b: word, c: word, d: word, r: word)
    requires 16 <= i < 32 && |x| == 16 && Operands(i, k, s) && x[k] == m
    requires Steps(v, x, 0, i) == HashValue(a, b, c, d)
    requires Plus(Rotate(Plus(a, Plus(Plus(G(b, c, d), m), T(i))), s), b) == r
    ensures Steps(v, x, 0, i + 1) == HashValue(d, r, b, c)
  {
    hide Plus, Rotate, G, T;
  }

  lemma NextH(v: HashValue, x: seq<word>, i: nat, k: nat, m: word, s: nat,
              a: word, b: word, c: word, d: word, r: word)
    requires 32 <= i < 48 && |x| == 16 && Operands(i, k, s) && x[k] == m
    requires Steps(v, x, 0, i) == HashValue(a, b, c, d)
    requires Plus(Rotate(Plus(a, Plus(Plus(H(b, c, d), m), T(i))), s), b) == r
    ensures Steps(v, x, 0, i + 1) == HashValue(d, r, b, c)
  {
    hide Plus, Rotate, H, T;
  }

  lemma NextI(v: HashValue, x: seq<word>, i: nat, k: nat, m: word, s: nat,
              a: word, b: word, c: word, d: word, r: word)
    requires 48 <= i < 64 && |x| == 16 && Operands(i, k, s) && x[k] == m
    requires Steps(v, x, 0, i) == HashValue(a, b, c, d)
    requires Plus(Rotate(Plus(a, Plus(Plus(I(b, c, d), m), T(i))), s), b) == r
    ensures Steps(v, x, 0, i + 1) == HashValue(d, r, b, c)
  {
    hide Plus, Rotate, I, T;
  }

  lemma Operands1()
    ensures Operands(0, 0, 7) && Operands(1, 1, 12) && Operands(2, 2, 17) && Operands(3, 3, 22)
    ensures Operands(4, 4, 7) && Operands(5, 5, 12) && Operands(6, 6, 17) && Operands(7, 7, 22)
    ensures Operands(8, 8, 7) && Operands(9, 9, 12) && Operands(10, 10, 17) && Operands(11, 11, 22)
    ensures Operands(12, 12, 7) && Operands(13, 13, 12) && Operands(14, 14, 17) && Operands(15, 15, 22)
  {}

  lemma Operands2()
    ensures Operands(16, 1, 5) && Operands(17, 6, 9) && Operands(18, 11, 14) && Operands(19, 0, 20)
    ensures Operands(20, 5, 5) && Operands(21, 10, 9) && Operands(22, 15, 14) && Operands(23, 4, 20)
    ensures Operands(24, 9, 5) && Operands(25, 14, 9) && Operands(26, 3, 14) && Operands(27, 8, 20)
    ensures Operands(28, 13, 5) && Operands(29, 2, 9) && Operands(30, 7, 14) && Operands(31, 12, 20)
  {}

  lemma Operands3()
    ensures Operands(32, 5, 4) && Operands(33, 8, 11) && Operands(34, 11, 16) && Operands(35, 14, 23)
    ensures Operands(36, 1, 4) && Operands(37, 4, 11) && Operands(38, 7, 16) && Operands(39, 10, 23)
    ensures Operands(40, 13, 4) && Operands(41, 0, 11) && Operands(42, 3, 16) && Operands(43, 6, 23)
    ensures Operands(44, 9, 4) && Operands(45, 12, 11) && Operands(46, 15, 16) && Operands(47, 2, 23)
  {}

  lemma Operands4()
    ensures Operands(48, 0, 6) && Operands(49, 7, 10) && Operands(50, 14, 15) && Operands(51, 5, 21)
    ensures Operands(52, 12, 6) && Operands(53, 3, 10) && Operands(54, 10, 15) && Operands(55, 1, 21)
    ensures Operands(56, 8, 6) && Operands(57, 15, 10) && Operands(58, 6, 15) && Operands(59, 13, 21)
    ensures Operands(60, 4, 6) && Operands(61, 11, 10) && Operands(62, 2, 15) && Operands(63, 9, 21)
  {}

  // ----- the empty message

  predicate EmptyWords(x: seq<word>) { |x| == 16 && x[0] == 0x80 && forall k | 1 <= k < 16 :: x[k] == 0 }

  lemma EmptyRound1(v: HashValue, x: seq<word>)
    requires EmptyWords(x)
    requires v == HashValue(0x67452301, 0xefcdab89, 0x98badcfe, 0x10325476)
    ensures Steps(v, x, 0, 16) == HashValue(0xf56c7cf1, 0xd6819c6a, 0x5aa53f75, 0x374943a7)
  {
    assert Steps(v, x, 0, 0) == v;
    hide Steps, Operands;
    Operands1();
    NextF(v, x, 0, 0, 0x80, 7, 0x67452301, 0xefcdab89, 0x98badcfe, 0x10325476, 0xa5202774);
    NextF(v, x, 1, 1, 0x0, 12, 0x10325476, 0xa5202774, 0xefcdab89, 0x98badcfe, 0xf59592dd);
    NextF(v, x, 2, 2, 0x0, 17, 0x98badcfe, 0xf59592dd, 0xa5202774, 0xefcdab89, 0xe7f06b23);
    NextF(v, x, 3, 3, 0x0, 22, 0xefcdab89, 0xe7f06b23, 0xf59592dd, 0xa5202774, 0x1b163203);
    NextF(v, x, 4, 4, 0x0, 7, 0xa5202774, 0x1b163203, 0xe7f06b23, 0xf59592dd, 0x32033344);
    NextF(v, x, 5, 5, 0x0, 12, 0xf59592dd, 0x32033344, 0x1b163203, 0xe7f06b23, 0x2f35d494);
    NextF(v, x, 6, 6, 0x0, 17, 0xe7f06b23, 0x2f35d494, 0x32033344, 0x1b163203, 0xf5b158db);
    NextF(v, x, 7, 7, 0x0, 22, 0x1b163203, 0xf5b158db, 0x2f35d494, 0x32033344, 0x9bc13ce9);
    NextF(v, x, 8, 8, 0x0, 7, 0x32033344, 0x9bc13ce9, 0xf5b158db, 0x2f35d494, 0x3893b991);
    NextF(v, x, 9, 9, 0x0, 12, 0x2f35d494, 0x3893b991, 0x9bc13ce9, 0xf5b158db, 0xfce4a312);
    NextF(v, x, 10, 10, 0x0, 17, 0xf5b158db, 0xfce4a312, 0x3893b991, 0x9bc13ce9, 0xe1ef0576);
    NextF(v, x, 11, 11, 0x0, 22, 0x9bc13ce9, 0xe1ef0576, 0xfce4a312, 0x3893b991, 0x70768a29);
    NextF(v, x, 12, 12, 0x0, 7, 0x3893b991, 0x70768a29, 0xe1ef0576, 0xfce4a312, 0xf56c7cf1);
    NextF(v, x, 13, 13, 0x0, 12, 0xfce4a312, 0xf56c7cf1, 0x70768a29, 0xe1ef0576, 0x374943a7);
    NextF(v, x, 14, 14, 0x0, 17, 0xe1ef0576, 0x374943a7, 0xf56c7cf1, 0x70768a29, 0x5aa53f75);
    NextF(v, x, 15, 15, 0x0, 22, 0x70768a29, 0x5aa53f75, 0x374943a7, 0xf56c7cf1, 0xd6819c6a);
  }

  lemma EmptyRound2(v: HashValue, x: seq<word>)
    requires EmptyWords(x)
    requires Steps(v, x, 0, 16) == HashValue(0xf56c7cf1, 0xd6819c6a, 0x5aa53f75, 0x374943a7)
    ensures Steps(v, x, 0, 32) == HashValue(0x13707036, 0xa2205f1f, 0x1c31c384, 0xae7813db)
  {
    hide Steps, Operands;
    Operands2();
    NextG(v, x, 16, 1, 0x0, 5, 0xf56c7cf1, 0xd6819c6a, 0x5aa53f75, 0x374943a7, 0x1c7d7513);
    NextG(v, x, 17, 6, 0x0, 9, 0x374943a7, 0x1c7d7513, 0xd6819c6a, 0x5aa53f75, 0x7bd57a3a);
    NextG(v, x, 18, 11, 0x0, 14, 0x5aa53f75, 0x7bd57a3a, 0x1c7d7513, 0xd6819c6a, 0xc095f13a);
    NextG(v, x, 19, 0, 0x80, 20, 0xd6819c6a, 0xc095f13a, 0x7bd57a3a, 0x1c7d7513, 0xbd782e17);
    NextG(v, x, 20, 5, 0x0, 5, 0x1c7d7513, 0xbd782e17, 0xc095f13a, 0x7bd57a3a, 0x3d1e3e6c);
    NextG(v, x, 21, 10, 0x0, 9, 0x7bd57a3a, 0x3d1e3e6c, 0xbd782e17, 0xc095f13a, 0x68b7b3e3);
    NextG(v, x, 22, 15, 0x0, 14, 0xc095f13a, 0x68b7b3e3, 0x3d1e3e6c, 0xbd782e17, 0xeb41643e);
    NextG(v, x, 23, 4, 0x0, 20, 0xbd782e17, 0xeb41643e, 0x68b7b3e3, 0x3d1e3e6c, 0xe422531a);
    NextG(v, x, 24, 9, 0x0, 5, 0x3d1e3e6c, 0xe422531a, 0xeb41643e, 0x68b7b3e3, 0x306ec122);
    NextG(v, x, 25, 14, 0x0, 9, 0x68b7b3e3, 0x306ec122, 0xe422531a, 0xeb41643e, 0xd28c77c2);
    NextG(v, x, 26, 3, 0x0, 14, 0xeb41643e, 0xd28c77c2, 0x306ec122, 0xe422531a, 0xa3c663da);
    NextG(v, x, 27, 8, 0x0, 20, 0xe422531a, 0xa3c663da, 0xd28c77c2, 0x306ec122, 0xa0572807);
    NextG(v, x, 28, 13, 0x0, 5, 0x306ec122, 0xa0572807, 0xa3c663da, 0xd28c77c2, 0x13707036);
    NextG(v, x, 29, 2, 0x0, 9, 0xd28c77c2, 0x13707036, 0xa0572807, 0xa3c663da, 0xae7813db);
    NextG(v, x, 30, 7, 0x0, 14, 0xa3c663da, 0xae7813db, 0x13707036, 0xa0572807, 0x1c31c384);
    NextG(v, x, 31, 12, 0x0, 20, 0xa0572807, 0x1c31c384, 0xae7813db, 0x13707036, 0xa2205f1f);
  }

  lemma EmptyRound3(v: HashValue, x: seq<word>)
    requires EmptyWords(x)
    requires Steps(v, x, 0, 32) == HashValue(0x13707036, 0xa2205f1f, 0x1c31c384, 0xae7813db)
    ensures Steps(v, x, 0, 48) == HashValue(0x3f55edfd, 0xca7d2dbd, 0x68d84ea2, 0x22a31f54)
  {
    hide Steps, Operands;
    Operands3();
    NextH(v, x, 32, 5, 0x0, 4, 0x13707036, 0xa2205f1f, 0x1c31c384, 0xae7813db, 0xdf63eaa1);
    NextH(v, x, 33, 8, 0x0, 11, 0xae7813db, 0xdf63eaa1, 0xa2205f1f, 0x1c31c384, 0xc3689f5b);
    NextH(v, x, 34, 11, 0x0, 16, 0x1c31c384, 0xc3689f5b, 0xdf63eaa1, 0xa2205f1f, 0x12f3e755);
    NextH(v, x, 35, 14, 0x0, 23, 0xa2205f1f, 0x12f3e755, 0xc3689f5b, 0xdf63eaa1, 0x004b6669);
    NextH(v, x, 36, 1, 0x0, 4, 0xdf63eaa1, 0x004b6669, 0x12f3e755, 0xc3689f5b, 0x5f7a9b2e);
    NextH(v, x, 37, 4, 0x0, 11, 0xc3689f5b, 0x5f7a9b2e, 0x004b6669, 0x12f3e755, 0xabc34e16);
    NextH(v, x, 38, 7, 0x0, 16, 0x12f3e755, 0xabc34e16, 0x5f7a9b2e, 0x004b6669, 0x91ca4cb7);
    NextH(v, x, 39, 10, 0x0, 23, 0x004b6669, 0x91ca4cb7, 0xabc34e16, 0x5f7a9b2e, 0xc5dc8c15);
    NextH(v, x, 40, 13, 0x0, 4, 0x5f7a9b2e, 0xc5dc8c15, 0x91ca4cb7, 0xabc34e16, 0x4497169d);
    NextH(v, x, 41, 0, 0x80, 11, 0xabc34e16, 0x4497169d, 0xc5dc8c15, 0x91ca4cb7, 0x76fd93d4);
    NextH(v, x, 42, 3, 0x0, 16, 0x91ca4cb7, 0x76fd93d4, 0x4497169d, 0xc5dc8c15, 0xfd95f243);
    NextH(v, x, 43, 6, 0x0, 23, 0xc5dc8c15, 0xfd95f243, 0x76fd93d4, 0x4497169d, 0x0fe32453);
    NextH(v, x, 44, 9, 0x0, 4, 0x4497169d, 0x0fe32453, 0xfd95f243, 0x76fd93d4, 0x3f55edfd);
    NextH(v, x, 45, 12, 0x0, 11, 0x76fd93d4, 0x3f55edfd, 0x0fe32453, 0xfd95f243, 0x22a31f54);
    NextH(v, x, 46, 15, 0x0, 16, 0xfd95f243, 0x22a31f54, 0x3f55edfd, 0x0fe32453, 0x68d84ea2);
    NextH(v, x, 47, 2, 0x0, 23, 0x0fe32453, 0x68d84ea2, 0x22a31f54, 0x3f55edfd, 0xca7d2dbd);
  }

  lemma EmptyRound4(v: HashValue, x: seq<word>)
    requires EmptyWords(x)
    requires Steps(v, x, 0, 48) == HashValue(0x3f55edfd, 0xca7d2dbd, 0x68d84ea2, 0x22a31f54)
    ensures Steps(v, x, 0, 64) == HashValue(0x7246fad3, 0x14e45506, 0xff4ea3eb, 0x6e10a476)
  {
    hide Steps, Operands;
    Operands4();
    NextI(v, x, 48, 0, 0x80, 6, 0x3f55edfd, 0xca7d2dbd, 0x68d84ea2, 0x22a31f54, 0x93aa2577);
    NextI(v, x, 49, 7, 0x0, 10, 0x22a31f54, 0x93aa2577, 0xca7d2dbd, 0x68d84ea2, 0x1688dc85);
    NextI(v, x, 50, 14, 0x0, 15, 0x68d84ea2, 0x1688dc85, 0x93aa2577, 0xca7d2dbd, 0xcd85b8cb);
    NextI(v, x, 51, 5, 0x0, 21, 0xca7d2dbd, 0xcd85b8cb, 0x1688dc85, 0x93aa2577, 0x561e0689);
    NextI(v, x, 52, 12, 0x0, 6, 0x93aa2577, 0x561e0689, 0xcd85b8cb, 0x1688dc85, 0x5625a114);
    NextI(v, x, 53, 3, 0x0, 10, 0x1688dc85, 0x5625a114, 0x561e0689, 0xcd85b8cb, 0x3450f42b);
    NextI(v, x, 54, 10, 0x0, 15, 0xcd85b8cb, 0x3450f42b, 0x5625a114, 0x561e0689, 0x392ad0d0);
    NextI(v, x, 55, 1, 0x0, 21, 0x561e0689, 0x392ad0d0, 0x3450f42b, 0x5625a114, 0x1e77fa61);
    NextI(v, x, 56, 8, 0x0, 6, 0x5625a114, 0x1e77fa61, 0x392ad0d0, 0x3450f42b, 0x474a9c8c);
    NextI(v, x, 57, 15, 0x0, 10, 0x3450f42b, 0x474a9c8c, 0x1e77fa61, 0x392ad0d0, 0xdfce00bc);
    NextI(v, x, 58, 6, 0x0, 15, 0x392ad0d0, 0xdfce00bc, 0x474a9c8c, 0x1e77fa61, 0x36594b14);
    NextI(v, x, 59, 13, 0x0, 21, 0x1e77fa61, 0x36594b14, 0xdfce00bc, 0x474a9c8c, 0x30130182);
    NextI(v, x, 60, 4, 0x0, 6, 0x474a9c8c, 0x30130182, 0x36594b14, 0xdfce00bc, 0x7246fad3);
    NextI(v, x, 61, 11, 0x0, 10, 0xdfce00bc, 0x7246fad3, 0x30130182, 0x36594b14, 0x6e10a476);
    NextI(v, x, 62, 2, 0x0, 15, 0x36594b14, 0x6e10a476, 0x7246fad3, 0x30130182, 0xff4ea3eb);
    NextI(v, x, 63, 9, 0x0, 21, 0x30130182, 0xff4ea3eb, 0x6e10a476, 0x7246fad3, 0x14e45506);
  }

  // ----- the letters and digits

  predicate AlnumWords(x: seq<word>) {
    |x| == 16
    && x[0] == 0x44434241 && x[1] == 0x48474645 && x[2] == 0x4c4b4a49 && x[3] == 0x504f4e4d
    && x[4] == 0x54535251 && x[5] == 0x58575655 && x[6] == 0x62615a59 && x[7] == 0x66656463
    && x[8] == 0x6a696867 && x[9] == 0x6e6d6c6b && x[10] == 0x7271706f && x[11] == 0x76757473
    && x[12] == 0x7a797877 && x[13] == 0x33323130 && x[14] == 0x37363534 && x[15] == 0x00803938
  }

  /** The second block holds the length only, 496 bits. */
  predicate LengthWords(x: seq<word>) { |x| == 16 && x[14] == 0x1f0 && forall k | 0 <= k < 16 && k != 14 :: x[k] == 0 }

  lemma AlnumRound1(v: HashValue, x: seq<word>)
    requires AlnumWords(x)
    requires v == HashValue(0x67452301, 0xefcdab89, 0x98badcfe, 0x10325476)
    ensures Steps(v, x, 0, 16) == HashValue(0x3cbdcd45, 0x5d38e690, 0xfa148c8a, 0xb8dec763)
  {
    assert Steps(v, x, 0, 0) == v;
    hide Steps, Operands;
    Operands1();
    NextF(v, x, 0, 0, 0x44434241, 7, 0x67452301, 0xefcdab89, 0x98badcfe, 0x10325476, 0xc6c10796);
    NextF(v, x, 1, 1, 0x48474645, 12, 0x10325476, 0xc6c10796, 0xefcdab89, 0x98badcfe, 0x99a09999);
    NextF(v, x, 2, 2, 0x4c4b4a49, 17, 0x98badcfe, 0x99a09999, 0xc6c10796, 0xefcdab89, 0x11067980);
    NextF(v, x, 3, 3, 0x504f4e4d, 22, 0xefcdab89, 0x11067980, 0x99a09999, 0xc6c10796, 0x27bce07a);
    NextF(v, x, 4, 4, 0x54535251, 7, 0xc6c10796, 0x27bce07a, 0x11067980, 0x99a09999, 0xf22e6c4e);
    NextF(v, x, 5, 5, 0x58575655, 12, 0x99a09999, 0xf22e6c4e, 0x27bce07a, 0x11067980, 0xb4ac9218);
    NextF(v, x, 6, 6, 0x62615a59, 17, 0x11067980, 0xb4ac9218, 0xf22e6c4e, 0x27bce07a, 0xa95a2fc0);
    NextF(v, x, 7, 7, 0x66656463, 22, 0x27bce07a, 0xa95a2fc0, 0xb4ac9218, 0xf22e6c4e, 0xa4799506);
    NextF(v, x, 8, 8, 0x6a696867, 7, 0xf22e6c4e, 0xa4799506, 0xa95a2fc0, 0xb4ac9218, 0x1eb3e7c1);
    NextF(v, x, 9, 9, 0x6e6d6c6b, 12, 0xb4ac9218, 0x1eb3e7c1, 0xa4799506, 0xa95a2fc0, 0xa6e70cfe);
    NextF(v, x, 10, 10, 0x7271706f, 17, 0xa95a2fc0, 0xa6e70cfe, 0x1eb3e7c1, 0xa4799506, 0xca27520b);
    NextF(v, x, 11, 11, 0x76757473, 22, 0xa4799506, 0xca27520b, 0xa6e70cfe, 0x1eb3e7c1, 0x8a7612ec);
    NextF(v, x, 12, 12, 0x7a797877, 7, 0x1eb3e7c1, 0x8a7612ec, 0xca27520b, 0xa6e70cfe, 0x3cbdcd45);
    NextF(v, x, 13, 13, 0x33323130, 12, 0xa6e70cfe, 0x3cbdcd45, 0x8a7612ec, 0xca27520b, 0xb8dec763);
    NextF(v, x, 14, 14, 0x37363534, 17, 0xca27520b, 0xb8dec763, 0x3cbdcd45, 0x8a7612ec, 0xfa148c8a);
    NextF(v, x, 15, 15, 0x803938, 22, 0x8a7612ec, 0xfa148c8a, 0xb8dec763, 0x3cbdcd45, 0x5d38e690);
  }

  lemma AlnumRound2(v: HashValue, x: seq<word>)
    requires AlnumWords(x)
    requires Steps(v, x, 0, 16) == HashValue(0x3cbdcd45, 0x5d38e690, 0xfa148c8a, 0xb8dec763)
    ensures Steps(v, x, 0, 32) == HashValue(0x9b085fa9, 0xdd789ecc, 0x5993248f, 0x4400a9bd)
  {
    hide Steps, Operands;
    Operands2();
    NextG(v, x, 16, 1, 0x48474645, 5, 0x3cbdcd45, 0x5d38e690, 0xfa148c8a, 0xb8dec763, 0x04b9d52a);
    NextG(v, x, 17, 6, 0x62615a59, 9, 0xb8dec763, 0x04b9d52a, 0x5d38e690, 0xfa148c8a, 0x783002eb);
    NextG(v, x, 18, 11, 0x76757473, 14, 0xfa148c8a, 0x783002eb, 0x04b9d52a, 0x5d38e690, 0xd3ee3ed1);
    NextG(v, x, 19, 0, 0x44434241, 20, 0x5d38e690, 0xd3ee3ed1, 0x783002eb, 0x04b9d52a, 0x47ae7c81);
    NextG(v, x, 20, 5, 0x58575655, 5, 0x04b9d52a, 0x47ae7c81, 0xd3ee3ed1, 0x783002eb, 0x2d7d8a3f);
    NextG(v, x, 21, 10, 0x7271706f, 9, 0x783002eb, 0x2d7d8a3f, 0x47ae7c81, 0xd3ee3ed1, 0xd1210823);
    NextG(v, x, 22, 15, 0x803938, 14, 0xd3ee3ed1, 0xd1210823, 0x2d7d8a3f, 0x47ae7c81, 0x4b534dc3);
    NextG(v, x, 23, 4, 0x54535251, 20, 0x47ae7c81, 0x4b534dc3, 0xd1210823, 0x2d7d8a3f, 0x75292030);
    NextG(v, x, 24, 9, 0x6e6d6c6b, 5, 0x2d7d8a3f, 0x75292030, 0x4b534dc3, 0xd1210823, 0x9d2a6e33);
    NextG(v, x, 25, 14, 0x37363534, 9, 0xd1210823, 0x9d2a6e33, 0x75292030, 0x4b534dc3, 0x0e8d2e44);
    NextG(v, x, 26, 3, 0x504f4e4d, 14, 0x4b534dc3, 0x0e8d2e44, 0x9d2a6e33, 0x75292030, 0xd473b564);
    NextG(v, x, 27, 8, 0x6a696867, 20, 0x75292030, 0xd473b564, 0x0e8d2e44, 0x9d2a6e33, 0xf2ff6ea0);
    NextG(v, x, 28, 13, 0x33323130, 5, 0x9d2a6e33, 0xf2ff6ea0, 0xd473b564, 0x0e8d2e44, 0x9b085fa9);
    NextG(v, x, 29, 2, 0x4c4b4a49, 9, 0x0e8d2e44, 0x9b085fa9, 0xf2ff6ea0, 0xd473b564, 0x4400a9bd);
    NextG(v, x, 30, 7, 0x66656463, 14, 0xd473b564, 0x4400a9bd, 0x9b085fa9, 0xf2ff6ea0, 0x5993248f);
    NextG(v, x, 31, 12, 0x7a797877, 20, 0xf2ff6ea0, 0x5993248f, 0x4400a9bd, 0x9b085fa9, 0xdd789ecc);
  }

  lemma AlnumRound3(v: HashValue, x: seq<word>)
    requires AlnumWords(x)
    requires Steps(v, x, 0, 32) == HashValue(0x9b085fa9, 0xdd789ecc, 0x5993248f, 0x4400a9bd)
    ensures Steps(v, x, 0, 48) == HashValue(0x2dbee21d, 0xf166f514, 0xee46e961, 0xe95c3a43)
  {
    hide Steps, Operands;
    Operands3();
    NextH(v, x, 32, 5, 0x58575655, 4, 0x9b085fa9, 0xdd789ecc, 0x5993248f, 0x4400a9bd, 0x21c8d2b7);
    NextH(v, x, 33, 8, 0x6a696867, 11, 0x4400a9bd, 0x21c8d2b7, 0xdd789ecc, 0x5993248f, 0x1d55a18e);
    NextH(v, x, 34, 11, 0x76757473, 16, 0x5993248f, 0x1d55a18e, 0x21c8d2b7, 0xdd789ecc, 0x056ec119);
    NextH(v, x, 35, 14, 0x37363534, 23, 0xdd789ecc, 0x056ec119, 0x1d55a18e, 0x21c8d2b7, 0x1b9504f8);
    NextH(v, x, 36, 1, 0x48474645, 4, 0x21c8d2b7, 0x1b9504f8, 0x056ec119, 0x1d55a18e, 0x436b7fe9);
    NextH(v, x, 37, 4, 0x54535251, 11, 0x1d55a18e, 0x436b7fe9, 0x1b9504f8, 0x056ec119, 0x075800c1);
    NextH(v, x, 38, 7, 0x66656463, 16, 0x056ec119, 0x075800c1, 0x436b7fe9, 0x1b9504f8, 0xf404c2f6);
    NextH(v, x, 39, 10, 0x7271706f, 23, 0x1b9504f8, 0xf404c2f6, 0x075800c1, 0x436b7fe9, 0xcf0341ed);
    NextH(v, x, 40, 13, 0x33323130, 4, 0x436b7fe9, 0xcf0341ed, 0xf404c2f6, 0x075800c1, 0x888e7d8a);
    NextH(v, x, 41, 0, 0x44434241, 11, 0x075800c1, 0x888e7d8a, 0xcf0341ed, 0xf404c2f6, 0xbbdaecd8);
    NextH(v, x, 42, 3, 0x504f4e4d, 16, 0xf404c2f6, 0xbbdaecd8, 0x888e7d8a, 0xcf0341ed, 0xce620273);
    NextH(v, x, 43, 6, 0x62615a59, 23, 0xcf0341ed, 0xce620273, 0xbbdaecd8, 0x888e7d8a, 0x047b9419);
    NextH(v, x, 44, 9, 0x6e6d6c6b, 4, 0x888e7d8a, 0x047b9419, 0xce620273, 0xbbdaecd8, 0x2dbee21d);
    NextH(v, x, 45, 12, 0x7a797877, 11, 0xbbdaecd8, 0x2dbee21d, 0x047b9419, 0xce620273, 0xe95c3a43);
    NextH(v, x, 46, 15, 0x803938, 16, 0xce620273, 0xe95c3a43, 0x2dbee21d, 0x047b9419, 0xee46e961);
    NextH(v, x, 47, 2, 0x4c4b4a49, 23, 0x047b9419, 0xee46e961, 0xe95c3a43, 0x2dbee21d, 0xf166f514);
  }

  lemma AlnumRound4(v: HashValue, x: seq<word>)
    requires AlnumWords(x)
    requires Steps(v, x, 0, 48) == HashValue(0x2dbee21d, 0xf166f514, 0xee46e961, 0xe95c3a43)
    ensures Steps(v, x, 0, 64) == HashValue(0x1cb80f0a, 0xef2e3a46, 0x10f68731, 0xea3d3eb4)
  {
    hide Steps, Operands;
    Operands4();
    NextI(v, x, 48, 0, 0x44434241, 6, 0x2dbee21d, 0xf166f514, 0xee46e961, 0xe95c3a43, 0xe47fd4f3);
    NextI(v, x, 49, 7, 0x66656463, 10, 0xe95c3a43, 0xe47fd4f3, 0xf166f514, 0xee46e961, 0xfb887751);
    NextI(v, x, 50, 14, 0x37363534, 15, 0xee46e961, 0xfb887751, 0xe47fd4f3, 0xf166f514, 0xf22aedcc);
    NextI(v, x, 51, 5, 0x58575655, 21, 0xf166f514, 0xf22aedcc, 0xfb887751, 0xe47fd4f3, 0x7a13bc5c);
    NextI(v, x, 52, 12, 0x7a797877, 6, 0xe47fd4f3, 0x7a13bc5c, 0xf22aedcc, 0xfb887751, 0xa691d430);
    NextI(v, x, 53, 3, 0x504f4e4d, 10, 0xfb887751, 0xa691d430, 0x7a13bc5c, 0xf22aedcc, 0x528452f2);
    NextI(v, x, 54, 10, 0x7271706f, 15, 0xf22aedcc, 0x528452f2, 0xa691d430, 0x7a13bc5c, 0x3fc23df6);
    NextI(v, x, 55, 1, 0x48474645, 21, 0x7a13bc5c, 0x3fc23df6, 0x528452f2, 0xa691d430, 0xefb0e72f);
    NextI(v, x, 56, 8, 0x6a696867, 6, 0xa691d430, 0xefb0e72f, 0x3fc23df6, 0x528452f2, 0x27145703);
    NextI(v, x, 57, 15, 0x803938, 10, 0x528452f2, 0x27145703, 0xefb0e72f, 0x3fc23df6, 0x21a11069);
    NextI(v, x, 58, 6, 0x62615a59, 15, 0x3fc23df6, 0x21a11069, 0x27145703, 0xefb0e72f, 0x374fbe79);
    NextI(v, x, 59, 13, 0x33323130, 21, 0xefb0e72f, 0x374fbe79, 0x21a11069, 0x27145703, 0x49d9a5b4);
    NextI(v, x, 60, 4, 0x54535251, 6, 0x27145703, 0x49d9a5b4, 0x374fbe79, 0x21a11069, 0x1cb80f0a);
    NextI(v, x, 61, 11, 0x76757473, 10, 0x21a11069, 0x1cb80f0a, 0x49d9a5b4, 0x374fbe79, 0xea3d3eb4);
    NextI(v, x, 62, 2, 0x4c4b4a49, 15, 0x374fbe79, 0xea3d3eb4, 0x1cb80f0a, 0x49d9a5b4, 0x10f68731);
    NextI(v, x, 63, 9, 0x6e6d6c6b, 21, 0x49d9a5b4, 0x10f68731, 0xea3d3eb4, 0x1cb80f0a, 0xef2e3a46);
  }

  lemma LengthRound1(v: HashValue, x: seq<word>)
    requires LengthWords(x)
    requires v == HashValue(0x83fd320b, 0xdefbe5cf, 0xa9b1642f, 0xfa6f932a)
    ensures Steps(v, x, 0, 16) == HashValue(0xa70737da, 0xa36f556f, 0x96f6586e, 0x5473f8a7)
  {
    assert Steps(v, x, 0, 0) == v;
    hide Steps, Operands;
    Operands1();
    NextF(v, x, 0, 0, 0x0, 7, 0x83fd320b, 0xdefbe5cf, 0xa9b1642f, 0xfa6f932a, 0xeda23ed1);
    NextF(v, x, 1, 1, 0x0, 12, 0xfa6f932a, 0xeda23ed1, 0xdefbe5cf, 0xa9b1642f, 0x989939cf);
    NextF(v, x, 2, 2, 0x0, 17, 0xa9b1642f, 0x989939cf, 0xeda23ed1, 0xdefbe5cf, 0x3c307338);
    NextF(v, x, 3, 3, 0x0, 22, 0xdefbe5cf, 0x3c307338, 0x989939cf, 0xeda23ed1, 0xddcf0634);
    NextF(v, x, 4, 4, 0x0, 7, 0xeda23ed1, 0xddcf0634, 0x3c307338, 0x989939cf, 0x75144433);
    NextF(v, x, 5, 5, 0x0, 12, 0x989939cf, 0x75144433, 0xddcf0634, 0x3c307338, 0xc8875807);
    NextF(v, x, 6, 6, 0x0, 17, 0x3c307338, 0xc8875807, 0x75144433, 0xddcf0634, 0xc783cb60);
    NextF(v, x, 7, 7, 0x0, 22, 0xddcf0634, 0xc783cb60, 0xc8875807, 0x75144433, 0x99b6b699);
    NextF(v, x, 8, 8, 0x0, 7, 0x75144433, 0x99b6b699, 0xc783cb60, 0xc8875807, 0xa60a3f69);
    NextF(v, x, 9, 9, 0x0, 12, 0xc8875807, 0xa60a3f69, 0x99b6b699, 0xc783cb60, 0xaa6630be);
    NextF(v, x, 10, 10, 0x0, 17, 0xc783cb60, 0xaa6630be, 0xa60a3f69, 0x99b6b699, 0x64db26e9);
    NextF(v, x, 11, 11, 0x0, 22, 0x99b6b699, 0x64db26e9, 0xaa6630be, 0xa60a3f69, 0x64cc7c5a);
    NextF(v, x, 12, 12, 0x0, 7, 0xa60a3f69, 0x64cc7c5a, 0x64db26e9, 0xaa6630be, 0xa70737da);
    NextF(v, x, 13, 13, 0x0, 12, 0xaa6630be, 0xa70737da, 0x64cc7c5a, 0x64db26e9, 0x5473f8a7);
    NextF(v, x, 14, 14, 0x1f0, 17, 0x64db26e9, 0x5473f8a7, 0xa70737da, 0x64cc7c5a, 0x96f6586e);
    NextF(v, x, 15, 15, 0x0, 22, 0x64cc7c5a, 0x96f6586e, 0x5473f8a7, 0xa70737da, 0xa36f556f);
  }

  lemma LengthRound2(v: HashValue, x: seq<word>)
    requires LengthWords(x)
    requires Steps(v, x, 0, 16) == HashValue(0xa70737da, 0xa36f556f, 0x96f6586e, 0x5473f8a7)
    ensures Steps(v, x, 0, 32) == HashValue(0x24eba695, 0x9c03e2e8, 0x10c42a2f, 0x4bd0378b)
  {
    hide Steps, Operands;
    Operands2();
    NextG(v, x, 16, 1, 0x0, 5, 0xa70737da, 0xa36f556f, 0x96f6586e, 0x5473f8a7, 0xa5050ad3);
    NextG(v, x, 17, 6, 0x0, 9, 0x5473f8a7, 0xa5050ad3, 0xa36f556f, 0x96f6586e, 0x28776046);
    NextG(v, x, 18, 11, 0x0, 14, 0x96f6586e, 0x28776046, 0xa5050ad3, 0xa36f556f, 0x27dcd8b4);
    NextG(v, x, 19, 0, 0x0, 20, 0xa36f556f, 0x27dcd8b4, 0x28776046, 0xa5050ad3, 0x82b8827c);
    NextG(v, x, 20, 5, 0x0, 5, 0xa5050ad3, 0x82b8827c, 0x27dcd8b4, 0x28776046, 0xe04f070c);
    NextG(v, x, 21, 10, 0x0, 9, 0x28776046, 0xe04f070c, 0x82b8827c, 0x27dcd8b4, 0x2f3cd2a2);
    NextG(v, x, 22, 15, 0x0, 14, 0x27dcd8b4, 0x2f3cd2a2, 0xe04f070c, 0x82b8827c, 0xc0d22b61);
    NextG(v, x, 23, 4, 0x0, 20, 0x82b8827c, 0xc0d22b61, 0x2f3cd2a2, 0xe04f070c, 0xdf35cb56);
    NextG(v, x, 24, 9, 0x0, 5, 0xe04f070c, 0xdf35cb56, 0xc0d22b61, 0x2f3cd2a2, 0x242dd210);
    NextG(v, x, 25, 14, 0x1f0, 9, 0x2f3cd2a2, 0x242dd210, 0xdf35cb56, 0xc0d22b61, 0x576ace33);
    NextG(v, x, 26, 3, 0x0, 14, 0xc0d22b61, 0x576ace33, 0x242dd210, 0xdf35cb56, 0x5c295967);
    NextG(v, x, 27, 8, 0x0, 20, 0xdf35cb56, 0x5c295967, 0x576ace33, 0x242dd210, 0x2291191a);
    NextG(v, x, 28, 13, 0x0, 5, 0x242dd210, 0x2291191a, 0x5c295967, 0x576ace33, 0x24eba695);
    NextG(v, x, 29, 2, 0x0, 9, 0x576ace33, 0x24eba695, 0x2291191a, 0x5c295967, 0x4bd0378b);
    NextG(v, x, 30, 7, 0x0, 14, 0x5c295967, 0x4bd0378b, 0x24eba695, 0x2291191a, 0x10c42a2f);
    NextG(v, x, 31, 12, 0x0, 20, 0x2291191a, 0x10c42a2f, 0x4bd0378b, 0x24eba695, 0x9c03e2e8);
  }

  lemma LengthRound3(v: HashValue, x: seq<word>)
    requires LengthWords(x)
    requires Steps(v, x, 0, 32) == HashValue(0x24eba695, 0x9c03e2e8, 0x10c42a2f, 0x4bd0378b)
    ensures Steps(v, x, 0, 48) == HashValue(0x54c9eb3a, 0x79c0710a, 0x2ec86f72, 0xd4d9c6ac)
  {
    hide Steps, Operands;
    Operands3();
    NextH(v, x, 32, 5, 0x0, 4, 0x24eba695, 0x9c03e2e8, 0x10c42a2f, 0x4bd0378b, 0x5be1d526);
    NextH(v, x, 33, 8, 0x0, 11, 0x4bd0378b, 0x5be1d526, 0x9c03e2e8, 0x10c42a2f, 0x9e414279);
    NextH(v, x, 34, 11, 0x0, 16, 0x10c42a2f, 0x9e414279, 0x5be1d526, 0x9c03e2e8, 0x9f4a1a7e);
    NextH(v, x, 35, 14, 0x1f0, 23, 0x9c03e2e8, 0x9f4a1a7e, 0x9e414279, 0x5be1d526, 0xa2448453);
    NextH(v, x, 36, 1, 0x0, 4, 0x5be1d526, 0xa2448453, 0x9f4a1a7e, 0x9e414279, 0xe14e403d);
    NextH(v, x, 37, 4, 0x0, 11, 0x9e414279, 0xe14e403d, 0xa2448453, 0x9f4a1a7e, 0xe8cfd670);
    NextH(v, x, 38, 7, 0x0, 16, 0x9f4a1a7e, 0xe8cfd670, 0xe14e403d, 0xa2448453, 0x60cc183a);
    NextH(v, x, 39, 10, 0x0, 23, 0xa2448453, 0x60cc183a, 0xe8cfd670, 0xe14e403d, 0xfe314121);
    NextH(v, x, 40, 13, 0x0, 4, 0xe14e403d, 0xfe314121, 0x60cc183a, 0xe8cfd670, 0xfff62809);
    NextH(v, x, 41, 0, 0x0, 11, 0xe8cfd670, 0xfff62809, 0xfe314121, 0x60cc183a, 0xe37209ac);
    NextH(v, x, 42, 3, 0x0, 16, 0x60cc183a, 0xe37209ac, 0xfff62809, 0xfe314121, 0x8cb5221c);
    NextH(v, x, 43, 6, 0x0, 23, 0xfe314121, 0x8cb5221c, 0xe37209ac, 0xfff62809, 0x7c7e974c);
    NextH(v, x, 44, 9, 0x0, 4, 0xfff62809, 0x7c7e974c, 0x8cb5221c, 0xe37209ac, 0x54c9eb3a);
    NextH(v, x, 45, 12, 0x0, 11, 0xe37209ac, 0x54c9eb3a, 0x7c7e974c, 0x8cb5221c, 0xd4d9c6ac);
    NextH(v, x, 46, 15, 0x0, 16, 0x8cb5221c, 0xd4d9c6ac, 0x54c9eb3a, 0x7c7e974c, 0x2ec86f72);
    NextH(v, x, 47, 2, 0x0, 23, 0x7c7e974c, 0x2ec86f72, 0xd4d9c6ac, 0x54c9eb3a, 0x79c0710a);
  }

  lemma LengthRound4(v: HashValue, x: seq<word>)
    requires LengthWords(x)
    requires Steps(v, x, 0, 48) == HashValue(0x54c9eb3a, 0x79c0710a, 0x2ec86f72, 0xd4d9c6ac)
    ensures Steps(v, x, 0, 64) == HashValue(0x14ae42c6, 0x16dd9203, 0x826afd76, 0xa52dae75)
  {
    hide Steps, Operands;
    Operands4();
    NextI(v, x, 48, 0, 0x0, 6, 0x54c9eb3a, 0x79c0710a, 0x2ec86f72, 0xd4d9c6ac, 0x02095af1);
    NextI(v, x, 49, 7, 0x0, 10, 0xd4d9c6ac, 0x02095af1, 0x79c0710a, 0x2ec86f72, 0x13d245fd);
    NextI(v, x, 50, 14, 0x1f0, 15, 0x2ec86f72, 0x13d245fd, 0x02095af1, 0x79c0710a, 0xa8dcfe26);
    NextI(v, x, 51, 5, 0x0, 21, 0x79c0710a, 0xa8dcfe26, 0x13d245fd, 0x02095af1, 0x2ba98e3f);
    NextI(v, x, 52, 12, 0x0, 6, 0x02095af1, 0x2ba98e3f, 0xa8dcfe26, 0x13d245fd, 0xe126c1aa);
    NextI(v, x, 53, 3, 0x0, 10, 0x13d245fd, 0xe126c1aa, 0x2ba98e3f, 0xa8dcfe26, 0x96b00fa7);
    NextI(v, x, 54, 10, 0x0, 15, 0xa8dcfe26, 0x96b00fa7, 0xe126c1aa, 0x2ba98e3f, 0x6f287ff5);
    NextI(v, x, 55, 1, 0x0, 21, 0x2ba98e3f, 0x6f287ff5, 0x96b00fa7, 0xe126c1aa, 0xfb7bcee0);
    NextI(v, x, 56, 8, 0x0, 6, 0xe126c1aa, 0xfb7bcee0, 0x6f287ff5, 0x96b00fa7, 0x452c1099);
    NextI(v, x, 57, 15, 0x0, 10, 0x96b00fa7, 0x452c1099, 0xfb7bcee0, 0x6f287ff5, 0xca801ba6);
    NextI(v, x, 58, 6, 0x0, 15, 0x6f287ff5, 0xca801ba6, 0x452c1099, 0xfb7bcee0, 0xc197ea8e);
    NextI(v, x, 59, 13, 0x0, 21, 0xfb7bcee0, 0xc197ea8e, 0xca801ba6, 0x452c1099, 0x5ac74608);
    NextI(v, x, 60, 4, 0x0, 6, 0x452c1099, 0x5ac74608, 0xc197ea8e, 0xca801ba6, 0x14ae42c6);
    NextI(v, x, 61, 11, 0x0, 10, 0xca801ba6, 0x14ae42c6, 0x5ac74608, 0xc197ea8e, 0xa52dae75);
    NextI(v, x, 62, 2, 0x0, 15, 0xc197ea8e, 0xa52dae75, 0x14ae42c6, 0x5ac74608, 0x826afd76);
    NextI(v, x, 63, 9, 0x0, 21, 0x5ac74608, 0x826afd76, 0xa52dae75, 0x14ae42c6, 0x16dd9203);
  }

  // ----- the padded messages

  lemma EmptyBlock() returns (block: Block)
    ensures block == Padding(0, LengthField(0)) && EmptyWords(MessageWords(block, 16))
  {
    hide Bytes, FromLittleEndian;
    SmallNumber(0, 8);
    block := [0x80] + Zeros(55) + ([0, 0] + Zeros(6));
    Loads();
    forall k | 0 <= k < 16
      ensures MessageWords(block, 16)[k] == if k == 0 then 0x80 else 0
    {
      WordOfBlock(block, 16, k);
      assert block[4 * k..4 * k + 4] == if k == 0 then [0x80, 0, 0, 0] else [0, 0, 0, 0];
    }
  }

  lemma Loads()
    ensures FromLittleEndian([0, 0, 0, 0]) == 0 && FromLittleEndian([0x80, 0, 0, 0]) == 0x80
    ensures FromLittleEndian([0xf0, 0x01, 0, 0]) == 0x1f0
  {}

  /** Capital letters, small letters, digits. */
  function Alnum(i: nat): byte
    requires i < 62
  {
    (if i < 26 then 0x41 + i else if i < 52 then 0x61 + (i - 26) else 0x30 + (i - 52)) as byte
  }

  const ALNUM: seq<byte> := seq(62, i requires 0 <= i < 62 => Alnum(i))

  function Four(k: nat): seq<byte>
    requires k < 15
  {
    [Alnum(4 * k), Alnum(4 * k + 1), Alnum(4 * k + 2), Alnum(4 * k + 3)]
  }

  lemma AlnumSlices(block: Block)
    requires |ALNUM| == 62 && ALNUM + [0x80, 0] == block
    ensures forall k | 0 <= k < 15 :: block[4 * k..4 * k + 4] == Four(k)
    ensures block[60..64] == [Alnum(60), Alnum(61), 0x80, 0]
  {
    hide Alnum;
    assert forall i | 0 <= i < 62 :: block[i] == Alnum(i);
    assert block[62] == 0x80 && block[63] == 0;
  }

  lemma LoadLetters(block: Block, k: nat, a: byte, b: byte, c: byte, d: byte, w: word)
    requires k < 15 && block[4 * k..4 * k + 4] == Four(k)
    requires Alnum(4 * k) == a && Alnum(4 * k + 1) == b && Alnum(4 * k + 2) == c && Alnum(4 * k + 3) == d
    requires FromLittleEndian([a, b, c, d]) == w
    ensures MessageWords(block, 16)[k] == w
  {
    hide Alnum, FromLittleEndian;
    WordOfBlock(block, 16, k);
  }

  lemma AlnumFrom0(block: Block)
    requires forall k | 0 <= k < 15 :: block[4 * k..4 * k + 4] == Four(k)
    ensures var x := MessageWords(block, 16);
            x[0] == 0x44434241 && x[1] == 0x48474645 && x[2] == 0x4c4b4a49 && x[3] == 0x504f4e4d &&
            x[4] == 0x54535251 && x[5] == 0x58575655 && x[6] == 0x62615a59 && x[7] == 0x66656463
  {
    hide MessageWords, Four;
    LoadLetters(block, 0, 0x41, 0x42, 0x43, 0x44, 0x44434241);
    LoadLetters(block, 1, 0x45, 0x46, 0x47, 0x48, 0x48474645);
    LoadLetters(block, 2, 0x49, 0x4a, 0x4b, 0x4c, 0x4c4b4a49);
    LoadLetters(block, 3, 0x4d, 0x4e, 0x4f, 0x50, 0x504f4e4d);
    LoadLetters(block, 4, 0x51, 0x52, 0x53, 0x54, 0x54535251);
    LoadLetters(block, 5, 0x55, 0x56, 0x57, 0x58, 0x58575655);
    LoadLetters(block, 6, 0x59, 0x5a, 0x61, 0x62, 0x62615a59);
    LoadLetters(block, 7, 0x63, 0x64, 0x65, 0x66, 0x66656463);
  }

  lemma AlnumFrom8(block: Block)
    requires forall k | 0 <= k < 15 :: block[4 * k..4 * k + 4] == Four(k)
    ensures var x := MessageWords(block, 16);
            x[8] == 0x6a696867 && x[9] == 0x6e6d6c6b && x[10] == 0x7271706f && x[11] == 0x76757473 &&
            x[12] == 0x7a797877 && x[13] == 0x33323130 && x[14] == 0x37363534
  {
    hide MessageWords, Four;
    LoadLetters(block, 8, 0x67, 0x68, 0x69, 0x6a, 0x6a696867);
    LoadLetters(block, 9, 0x6b, 0x6c, 0x6d, 0x6e, 0x6e6d6c6b);
    LoadLetters(block, 10, 0x6f, 0x70, 0x71, 0x72, 0x7271706f);
    LoadLetters(block, 11, 0x73, 0x74, 0x75, 0x76, 0x76757473);
    LoadLetters(block, 12, 0x77, 0x78, 0x79, 0x7a, 0x7a797877);
    LoadLetters(block, 13, 0x30, 0x31, 0x32, 0x33, 0x33323130);
    LoadLetters(block, 14, 0x34, 0x35, 0x36, 0x37, 0x37363534);
  }

  lemma AlnumFirst(block: Block)
    requires |ALNUM| == 62 && ALNUM + [0x80, 0] == block
    ensures AlnumWords(MessageWords(block, 16))
  {
    hide MessageWords, Four;
    AlnumSlices(block);
    AlnumFrom0(block);
    AlnumFrom8(block);
    WordOfBlock(block, 16, 15);
    assert FromLittleEndian([0x38, 0x39, 0x80, 0]) == 0x00803938;
    assert Alnum(60) == 0x38 && Alnum(61) == 0x39;
  }

  lemma LengthBlock(block: Block)
    requires Zeros(56) + ([0xf0, 0x01] + Zeros(6)) == block
    ensures LengthWords(MessageWords(block, 16))
  {
    hide FromLittleEndian;
    Loads();
    forall k | 0 <= k < 16
      ensures MessageWords(block, 16)[k] == if k == 14 then 0x1f0 else 0
    {
      WordOfBlock(block, 16, k);
      assert block[4 * k..4 * k + 4] == if k == 14 then [0xf0, 0x01, 0, 0] else [0, 0, 0, 0];
    }
  }

  lemma AlnumBlocks() returns (first: Block, second: Block)
    ensures |ALNUM| == 62 && ALNUM + Padding(62, LengthField(62)) == first + second
    ensures AlnumWords(MessageWords(first, 16)) && LengthWords(MessageWords(second, 16))
  {
    hide Bytes, AlnumWords, LengthWords, MessageWords, Alnum;
    SmallNumber(496, 8);
    first := ALNUM + [0x80, 0];
    second := Zeros(56) + ([0xf0, 0x01] + Zeros(6));
    AlnumFirst(first);
    LengthBlock(second);
  }

  // ----- the digests

  lemma EmptyValue(block: Block)
    requires EmptyWords(MessageWords(block, 16))
    ensures Compress(HashValue(0x67452301, 0xefcdab89, 0x98badcfe, 0x10325476), block)
         == HashValue(0xd98c1dd4, 0x04b2008f, 0x980980e9, 0x7e42f8ec)
  {
    hide EmptyWords, MessageWords;
    var v, x := HashValue(0x67452301, 0xefcdab89, 0x98badcfe, 0x10325476), MessageWords(block, 16);
    EmptyRound1(v, x);
    EmptyRound2(v, x);
    EmptyRound3(v, x);
    EmptyRound4(v, x);
  }

  lemma AlnumValue(block: Block)
    requires AlnumWords(MessageWords(block, 16))
    ensures Compress(HashValue(0x67452301, 0xefcdab89, 0x98badcfe, 0x10325476), block)
         == HashValue(0x83fd320b, 0xdefbe5cf, 0xa9b1642f, 0xfa6f932a)
  {
    hide AlnumWords, MessageWords;
    var v, x := HashValue(0x67452301, 0xefcdab89, 0x98badcfe, 0x10325476), MessageWords(block, 16);
    AlnumRound1(v, x);
    AlnumRound2(v, x);
    AlnumRound3(v, x);
    AlnumRound4(v, x);
  }

  lemma LengthValue(block: Block)
    requires LengthWords(MessageWords(block, 16))
    ensures Compress(HashValue(0x83fd320b, 0xdefbe5cf, 0xa9b1642f, 0xfa6f932a), block)
         == HashValue(0x98ab74d1, 0xf5d977d2, 0x2c1c61a5, 0x9f9d419f)
  {
    hide LengthWords, MessageWords;
    var v, x := HashValue(0x83fd320b, 0xdefbe5cf, 0xa9b1642f, 0xfa6f932a), MessageWords(block, 16);
    LengthRound1(v, x);
    LengthRound2(v, x);
    LengthRound3(v, x);
    LengthRound4(v, x);
  }

  lemma EmptyBytes()
    ensures Output(HashValue(0xd98c1dd4, 0x04b2008f, 0x980980e9, 0x7e42f8ec))
         == [0xd4, 0x1d, 0x8c, 0xd9, 0x8f, 0x00, 0xb2, 0x04,
             0xe9, 0x80, 0x09, 0x98, 0xec, 0xf8, 0x42, 0x7e]
  {
    assert LittleEndianBytes(0xd98c1dd4) == [0xd4, 0x1d, 0x8c, 0xd9];
    assert LittleEndianBytes(0x04b2008f) == [0x8f, 0x00, 0xb2, 0x04];
    assert LittleEndianBytes(0x980980e9) == [0xe9, 0x80, 0x09, 0x98];
    assert LittleEndianBytes(0x7e42f8ec) == [0xec, 0xf8, 0x42, 0x7e];
    hide LittleEndianBytes;
  }

  lemma AlnumBytes()
    ensures Output(HashValue(0x98ab74d1, 0xf5d977d2, 0x2c1c61a5, 0x9f9d419f))
         == [0xd1, 0x74, 0xab, 0x98, 0xd2, 0x77, 0xd9, 0xf5,
             0xa5, 0x61, 0x1c, 0x2c, 0x9f, 0x41, 0x9d, 0x9f]
  {
    assert LittleEndianBytes(0x98ab74d1) == [0xd1, 0x74, 0xab, 0x98];
    assert LittleEndianBytes(0xf5d977d2) == [0xd2, 0x77, 0xd9, 0xf5];
    assert LittleEndianBytes(0x2c1c61a5) == [0xa5, 0x61, 0x1c, 0x2c];
    assert LittleEndianBytes(0x9f9d419f) == [0x9f, 0x41, 0x9d, 0x9f];
    hide LittleEndianBytes;
  }

  lemma OneBlock(block: Block)
    requires Padding(0, LengthField(0)) == block
    ensures HashPadded(Compress, IV, [], LengthField(0)) == Compress(IV, block)
  {
    hide Compress, LengthField, Padding;
    assert HashPadded(Compress, IV, [], LengthField(0)) == Fold(Compress, IV, [] + block);
    assert [] + block == block;
    FoldBlock(Compress, IV, block);
  }

  lemma TwoBlocks(first: Block, second: Block)
    requires |ALNUM| == 62 && ALNUM + Padding(62, LengthField(62)) == first + second
    ensures HashPadded(Compress, IV, ALNUM, LengthField(62)) == Compress(Compress(IV, first), second)
  {
    hide Compress, LengthField, Padding;
    assert HashPadded(Compress, IV, ALNUM, LengthField(62)) == Fold(Compress, IV, first + second);
    FoldConcat(Compress, IV, first, second);
    FoldBlock(Compress, IV, first);
    FoldBlock(Compress, Compress(IV, first), second);
  }

  /** MD5 ("") = d41d8cd98f00b204e9800998ecf8427e */
  lemma DigestOfEmpty()
    ensures Digest([]) == [0xd4, 0x1d, 0x8c, 0xd9, 0x8f, 0x00, 0xb2, 0x04,
                           0xe9, 0x80, 0x09, 0x98, 0xec, 0xf8, 0x42, 0x7e]
  {
    hide Digest, Padding, LengthField, HashPadded, Compress, Output, EmptyWords, MessageWords;
    DigestOf([]);
    var block := EmptyBlock();
    OneBlock(block);
    EmptyValue(block);
    EmptyBytes();
  }

  /** MD5 ("ABCDEFGHIJKLMNOPQRSTUVWXYZabcdefghijklmnopqrstuvwxyz0123456789")
      = d174ab98d277d9f5a5611c2c9f419d9f */
  lemma DigestOfAlnum()
    ensures Digest(ALNUM) == [0xd1, 0x74, 0xab, 0x98, 0xd2, 0x77, 0xd9, 0xf5,
                              0xa5, 0x61, 0x1c, 0x2c, 0x9f, 0x41, 0x9d, 0x9f]
  {
    hide Digest, Padding, LengthField, HashPadded, Compress, Output, AlnumWords, LengthWords, MessageWords;
    DigestOf(ALNUM);
    var first, second := AlnumBlocks();
    TwoBlocks(first, second);
    AlnumValue(first);
    LengthValue(second);
    AlnumBytes();
  }
}
