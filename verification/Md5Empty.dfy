/** The digest of the empty message, computed step by step: the first value that section A.5 of RFC 1321 lists. */
module Md5Empty {
  import opened Bytes
  import opened Md5Block
  import opened Md5

  /** The words of the only block: the padding bit and nothing else. */
  predicate OneBit(x: seq<bv32>) { |x| == 16 && x[0] == 0x80 && forall k :: 0 < k < 16 ==> x[k] == 0 }

  /** One operation more, with every value on the way named. */
  lemma {:induction false} Step(x: seq<bv32>, i: nat, s: State, mix: bv32, w: bv32, ac: bv32, n: nat, out: bv32)
    requires |x| == 16 && i < 64 && MixOf(i, s.b, s.c, s.d) == mix && x[WordOf(i)] == w && Sine(i) == ac
    requires ShiftOf(i) == n && Turn(s.a, mix, w, ac, n, s.b) == out && Operations(INITIAL, x, i) == s
    ensures Operations(INITIAL, x, i + 1) == State(s.d, out, s.b, s.c)
  {
    hide MixOf, WordOf, Sine, ShiftOf, Turn;
  }

  lemma {:induction false} After4(x: seq<bv32>)
    requires OneBit(x)
    ensures Operations(INITIAL, x, 4) == State(0xa5202774, 0x1b163203, 0xe7f06b23, 0xf59592dd)
  {
    hide Operations;
    After0(x);
    Step(x, 0, State(0x67452301, 0xefcdab89, 0x98badcfe, 0x10325476), 0x98badcfe, 0x80, 0xd76aa478, 7, 0xa5202774);
    Step(x, 1, State(0x10325476, 0xa5202774, 0xefcdab89, 0x98badcfe), 0xbd9afb8a, 0x0, 0xe8c7b756, 12, 0xf59592dd);
    Step(x, 2, State(0x98badcfe, 0xf59592dd, 0xa5202774, 0xefcdab89), 0xaf482b54, 0x0, 0x242070db, 17, 0xe7f06b23);
    Step(x, 3, State(0xefcdab89, 0xe7f06b23, 0xf59592dd, 0xa5202774), 0xe5900655, 0x0, 0xc1bdceee, 22, 0x1b163203);
  }

  lemma {:induction false} After8(x: seq<bv32>)
    requires OneBit(x)
    ensures Operations(INITIAL, x, 8) == State(0x32033344, 0x9bc13ce9, 0xf5b158db, 0x2f35d494)
  {
    hide Operations;
    After4(x);
    Step(x, 4, State(0xa5202774, 0x1b163203, 0xe7f06b23, 0xf59592dd), 0xe791a2df, 0x0, 0xf57c0faf, 7, 0x32033344);
    Step(x, 5, State(0xf59592dd, 0x32033344, 0x1b163203, 0xe7f06b23), 0xd7f27a23, 0x0, 0x4787c62a, 12, 0x2f35d494);
    Step(x, 6, State(0xe7f06b23, 0x2f35d494, 0x32033344, 0x1b163203), 0x32033207, 0x0, 0xa8304613, 17, 0xf5b158db);
    Step(x, 7, State(0x1b163203, 0xf5b158db, 0x2f35d494, 0x32033344), 0x27337394, 0x0, 0xfd469501, 22, 0x9bc13ce9);
  }

  lemma {:induction false} After12(x: seq<bv32>)
    requires OneBit(x)
    ensures Operations(INITIAL, x, 12) == State(0x3893b991, 0x70768a29, 0xe1ef0576, 0xfce4a312)
  {
    hide Operations;
    After8(x);
    Step(x, 8, State(0x32033344, 0x9bc13ce9, 0xf5b158db, 0x2f35d494), 0xb5b5d8dd, 0x0, 0x698098d8, 7, 0x3893b991);
    Step(x, 9, State(0x2f35d494, 0x3893b991, 0x9bc13ce9, 0xf5b158db), 0xdda178cb, 0x0, 0x8b44f7af, 12, 0xfce4a312);
    Step(x, 10, State(0xf5b158db, 0xfce4a312, 0x3893b991, 0x9bc13ce9), 0x3b81bdf9, 0x0, 0xffff5bb1, 17, 0xe1ef0576);
    Step(x, 11, State(0x9bc13ce9, 0xe1ef0576, 0xfce4a312, 0x3893b991), 0xf8f4b993, 0x0, 0x895cd7be, 22, 0x70768a29);
  }

  lemma {:induction false} After16(x: seq<bv32>)
    requires OneBit(x)
    ensures Operations(INITIAL, x, 16) == State(0xf56c7cf1, 0xd6819c6a, 0x5aa53f75, 0x374943a7)
  {
    hide Operations;
    After12(x);
    Step(x, 12, State(0x3893b991, 0x70768a29, 0xe1ef0576, 0xfce4a312), 0xece62132, 0x0, 0x6b901122, 7, 0xf56c7cf1);
    Step(x, 13, State(0xfce4a312, 0xf56c7cf1, 0x70768a29, 0xe1ef0576), 0x70e70927, 0x0, 0xfd987193, 12, 0x374943a7);
    Step(x, 14, State(0xe1ef0576, 0x374943a7, 0xf56c7cf1, 0x70768a29), 0x757ec8a9, 0x0, 0xa679438e, 17, 0x5aa53f75);
    Step(x, 15, State(0x70768a29, 0x5aa53f75, 0x374943a7, 0xf56c7cf1), 0xb74943a5, 0x0, 0x49b40821, 22, 0xd6819c6a);
  }

  lemma {:induction false} After20(x: seq<bv32>)
    requires OneBit(x)
    ensures Operations(INITIAL, x, 20) == State(0x1c7d7513, 0xbd782e17, 0xc095f13a, 0x7bd57a3a)
  {
    hide Operations;
    After16(x);
    Step(x, 16, State(0xf56c7cf1, 0xd6819c6a, 0x5aa53f75, 0x374943a7), 0x5ea53c72, 0x0, 0xf61e2562, 5, 0x1c7d7513);
    Step(x, 17, State(0x374943a7, 0x1c7d7513, 0xd6819c6a, 0x5aa53f75), 0x9c25b51b, 0x0, 0xc040b340, 9, 0x7bd57a3a);
    Step(x, 18, State(0x5aa53f75, 0x7bd57a3a, 0x1c7d7513, 0xd6819c6a), 0x5afd793b, 0x0, 0x265e5a51, 14, 0xc095f13a);
    Step(x, 19, State(0xd6819c6a, 0xc095f13a, 0x7bd57a3a, 0x1c7d7513), 0x63957b3a, 0x80, 0xe9b6c7aa, 20, 0xbd782e17);
  }

  lemma {:induction false} After24(x: seq<bv32>)
    requires OneBit(x)
    ensures Operations(INITIAL, x, 24) == State(0x3d1e3e6c, 0xe422531a, 0xeb41643e, 0x68b7b3e3)
  {
    hide Operations;
    After20(x);
    Step(x, 20, State(0x1c7d7513, 0xbd782e17, 0xc095f13a, 0x7bd57a3a), 0xb950ab12, 0x0, 0xd62f105d, 5, 0x3d1e3e6c);
    Step(x, 21, State(0x7bd57a3a, 0x3d1e3e6c, 0xbd782e17, 0xc095f13a), 0x3d7c3e2d, 0x0, 0x2441453, 9, 0x68b7b3e3);
    Step(x, 22, State(0xc095f13a, 0x68b7b3e3, 0x3d1e3e6c, 0xbd782e17), 0x2836326b, 0x0, 0xd8a1e681, 14, 0xeb41643e);
    Step(x, 23, State(0xbd782e17, 0xeb41643e, 0x68b7b3e3, 0x3d1e3e6c), 0x69a1a5af, 0x0, 0xe7d3fbc8, 20, 0xe422531a);
  }

  lemma {:induction false} After28(x: seq<bv32>)
    requires OneBit(x)
    ensures Operations(INITIAL, x, 28) == State(0x306ec122, 0xa0572807, 0xa3c663da, 0xd28c77c2)
  {
    hide Operations;
    After24(x);
    Step(x, 24, State(0x3d1e3e6c, 0xe422531a, 0xeb41643e, 0x68b7b3e3), 0xe362571e, 0x0, 0x21e1cde6, 5, 0x306ec122);
    Step(x, 25, State(0x68b7b3e3, 0x306ec122, 0xe422531a, 0xeb41643e), 0x24625322, 0x0, 0xc33707d6, 9, 0xd28c77c2);
    Step(x, 26, State(0xeb41643e, 0xd28c77c2, 0x306ec122, 0xe422531a), 0xd04cd322, 0x0, 0xf4d50d87, 14, 0xa3c663da);
    Step(x, 27, State(0xe422531a, 0xa3c663da, 0xd28c77c2, 0x306ec122), 0xe2c677c2, 0x0, 0x455a14ed, 20, 0xa0572807);
  }

  lemma {:induction false} After32(x: seq<bv32>)
    requires OneBit(x)
    ensures Operations(INITIAL, x, 32) == State(0x13707036, 0xa2205f1f, 0x1c31c384, 0xae7813db)
  {
    hide Operations;
    After28(x);
    Step(x, 28, State(0x306ec122, 0xa0572807, 0xa3c663da, 0xd28c77c2), 0xa146201a, 0x0, 0xa9e3e905, 5, 0x13707036);
    Step(x, 29, State(0xd28c77c2, 0x13707036, 0xa0572807, 0xa3c663da), 0x3516817, 0x0, 0xfcefa3f8, 9, 0xae7813db);
    Step(x, 30, State(0xa3c663da, 0xae7813db, 0x13707036, 0xa0572807), 0xb3705033, 0x0, 0x676f02d9, 14, 0x1c31c384);
    Step(x, 31, State(0xa0572807, 0x1c31c384, 0xae7813db, 0x13707036), 0xbc3843cd, 0x0, 0x8d2a4c8a, 20, 0xa2205f1f);
  }

  lemma {:induction false} After36(x: seq<bv32>)
    requires OneBit(x)
    ensures Operations(INITIAL, x, 36) == State(0xdf63eaa1, 0x4b6669, 0x12f3e755, 0xc3689f5b)
  {
    hide Operations;
    After32(x);
    Step(x, 32, State(0x13707036, 0xa2205f1f, 0x1c31c384, 0xae7813db), 0x10698f40, 0x0, 0xfffa3942, 4, 0xdf63eaa1);
    Step(x, 33, State(0xae7813db, 0xdf63eaa1, 0xa2205f1f, 0x1c31c384), 0x6172763a, 0x0, 0x8771f681, 11, 0xc3689f5b);
    Step(x, 34, State(0x1c31c384, 0xc3689f5b, 0xdf63eaa1, 0xa2205f1f), 0xbe2b2ae5, 0x0, 0x6d9d6122, 16, 0x12f3e755);
    Step(x, 35, State(0xa2205f1f, 0x12f3e755, 0xc3689f5b, 0xdf63eaa1), 0xef892af, 0x0, 0xfde5380c, 23, 0x4b6669);
  }

  lemma {:induction false} After40(x: seq<bv32>)
    requires OneBit(x)
    ensures Operations(INITIAL, x, 40) == State(0x5f7a9b2e, 0xc5dc8c15, 0x91ca4cb7, 0xabc34e16)
  {
    hide Operations;
    After36(x);
    Step(x, 36, State(0xdf63eaa1, 0x4b6669, 0x12f3e755, 0xc3689f5b), 0xd1d01e67, 0x0, 0xa4beea44, 4, 0x5f7a9b2e);
    Step(x, 37, State(0xc3689f5b, 0x5f7a9b2e, 0x4b6669, 0x12f3e755), 0x4dc21a12, 0x0, 0x4bdecfa9, 11, 0xabc34e16);
    Step(x, 38, State(0x12f3e755, 0xabc34e16, 0x5f7a9b2e, 0x4b6669), 0xf4f2b351, 0x0, 0xf6bb4b60, 16, 0x91ca4cb7);
    Step(x, 39, State(0x4b6669, 0x91ca4cb7, 0xabc34e16, 0x5f7a9b2e), 0x6573998f, 0x0, 0xbebfbc70, 23, 0xc5dc8c15);
  }

  lemma {:induction false} After44(x: seq<bv32>)
    requires OneBit(x)
    ensures Operations(INITIAL, x, 44) == State(0x4497169d, 0xfe32453, 0xfd95f243, 0x76fd93d4)
  {
    hide Operations;
    After40(x);
    Step(x, 40, State(0x5f7a9b2e, 0xc5dc8c15, 0x91ca4cb7, 0xabc34e16), 0xffd58eb4, 0x0, 0x289b7ec6, 4, 0x4497169d);
    Step(x, 41, State(0xabc34e16, 0x4497169d, 0xc5dc8c15, 0x91ca4cb7), 0x1081d63f, 0x80, 0xeaa127fa, 11, 0x76fd93d4);
    Step(x, 42, State(0x91ca4cb7, 0x76fd93d4, 0x4497169d, 0xc5dc8c15), 0xf7b6095c, 0x0, 0xd4ef3085, 16, 0xfd95f243);
    Step(x, 43, State(0xc5dc8c15, 0xfd95f243, 0x76fd93d4, 0x4497169d), 0xcfff770a, 0x0, 0x4881d05, 23, 0xfe32453);
  }

  lemma {:induction false} After48(x: seq<bv32>)
    requires OneBit(x)
    ensures Operations(INITIAL, x, 48) == State(0x3f55edfd, 0xca7d2dbd, 0x68d84ea2, 0x22a31f54)
  {
    hide Operations;
    After44(x);
    Step(x, 44, State(0x4497169d, 0xfe32453, 0xfd95f243, 0x76fd93d4), 0x848b45c4, 0x0, 0xd9d4d039, 4, 0x3f55edfd);
    Step(x, 45, State(0x76fd93d4, 0x3f55edfd, 0xfe32453, 0xfd95f243), 0xcd233bed, 0x0, 0xe6db99e5, 11, 0x22a31f54);
    Step(x, 46, State(0xfd95f243, 0x22a31f54, 0x3f55edfd, 0xfe32453), 0x1215d6fa, 0x0, 0x1fa27cf8, 16, 0x68d84ea2);
    Step(x, 47, State(0xfe32453, 0x68d84ea2, 0x22a31f54, 0x3f55edfd), 0x752ebc0b, 0x0, 0xc4ac5665, 23, 0xca7d2dbd);
  }

  lemma {:induction false} After52(x: seq<bv32>)
    requires OneBit(x)
    ensures Operations(INITIAL, x, 52) == State(0x93aa2577, 0x561e0689, 0xcd85b8cb, 0x1688dc85)
  {
    hide Operations;
    After48(x);
    Step(x, 48, State(0x3f55edfd, 0xca7d2dbd, 0x68d84ea2, 0x22a31f54), 0xb7a5a31d, 0x80, 0xf4292244, 6, 0x93aa2577);
    Step(x, 49, State(0x22a31f54, 0x93aa2577, 0xca7d2dbd, 0x68d84ea2), 0x5dd298c2, 0x0, 0x432aff97, 10, 0x1688dc85);
    Step(x, 50, State(0x68d84ea2, 0x1688dc85, 0x93aa2577, 0xca7d2dbd), 0xa420fbb0, 0x0, 0xab9423a7, 15, 0xcd85b8cb);
    Step(x, 51, State(0xca7d2dbd, 0xcd85b8cb, 0x1688dc85, 0x93aa2577), 0xfb5d264e, 0x0, 0xfc93a039, 21, 0x561e0689);
  }

  lemma {:induction false} After56(x: seq<bv32>)
    requires OneBit(x)
    ensures Operations(INITIAL, x, 56) == State(0x5625a114, 0x1e77fa61, 0x392ad0d0, 0x3450f42b)
  {
    hide Operations;
    After52(x);
    Step(x, 52, State(0x93aa2577, 0x561e0689, 0xcd85b8cb, 0x1688dc85), 0x32fa9f30, 0x0, 0x655b59c3, 6, 0x5625a114);
    Step(x, 53, State(0x1688dc85, 0x5625a114, 0x561e0689, 0xcd85b8cb), 0x2061e1bd, 0x0, 0x8f0ccc92, 10, 0x3450f42b);
    Step(x, 54, State(0xcd85b8cb, 0x3450f42b, 0x5625a114, 0x561e0689), 0xebd45c6b, 0x0, 0xffeff47d, 15, 0x392ad0d0);
    Step(x, 55, State(0x561e0689, 0x392ad0d0, 0x3450f42b, 0x5625a114), 0x8daa2ad0, 0x0, 0x85845dd1, 21, 0x1e77fa61);
  }

  lemma {:induction false} After60(x: seq<bv32>)
    requires OneBit(x)
    ensures Operations(INITIAL, x, 60) == State(0x474a9c8c, 0x30130182, 0x36594b14, 0xdfce00bc)
  {
    hide Operations;
    After56(x);
    Step(x, 56, State(0x5625a114, 0x1e77fa61, 0x392ad0d0, 0x3450f42b), 0xe6d52b25, 0x0, 0x6fa87e4f, 6, 0x474a9c8c);
    Step(x, 57, State(0x3450f42b, 0x474a9c8c, 0x1e77fa61, 0x392ad0d0), 0xd9a845ce, 0x0, 0xfe2ce6e0, 10, 0xdfce00bc);
    Step(x, 58, State(0x392ad0d0, 0xdfce00bc, 0x474a9c8c, 0x1e77fa61), 0xb8849932, 0x0, 0xa3014314, 15, 0x36594b14);
    Step(x, 59, State(0x1e77fa61, 0x36594b14, 0xdfce00bc, 0x474a9c8c), 0x61336bcb, 0x0, 0x4e0811a1, 21, 0x30130182);
  }

  lemma {:induction false} After64(x: seq<bv32>)
    requires OneBit(x)
    ensures Operations(INITIAL, x, 64) == State(0x7246fad3, 0x14e45506, 0xff4ea3eb, 0x6e10a476)
  {
    hide Operations;
    After60(x);
    Step(x, 60, State(0x474a9c8c, 0x30130182, 0x36594b14, 0xdfce00bc), 0x66ab4d7, 0x0, 0xf7537e82, 6, 0x7246fad3);
    Step(x, 61, State(0xdfce00bc, 0x7246fad3, 0x30130182, 0x36594b14), 0xcbf5ff79, 0x0, 0xbd3af235, 10, 0x6e10a476);
    Step(x, 62, State(0x36594b14, 0x6e10a476, 0x7246fad3, 0x30130182), 0x9dba04ac, 0x0, 0x2ad7d2bb, 15, 0xff4ea3eb);
    Step(x, 63, State(0x30130182, 0xff4ea3eb, 0x6e10a476, 0x7246fad3), 0x91ef0399, 0x0, 0xeb86d391, 21, 0x14e45506);
  }

  lemma {:induction false} After0(x: seq<bv32>)
    requires |x| == 16
    ensures Operations(INITIAL, x, 0) == State(0x67452301, 0xefcdab89, 0x98badcfe, 0x10325476)
  {
  }

  /** The padding of no bytes is one block. */
  lemma {:induction false} Block() returns (block: seq<byte>)
    ensures block == [] + Padding(0) && |block| == 64 && OneBit(Words(block))
  {
    hide LeDec, Word;
    block := [] + Padding(0);
    NoCount();
    Sum128();
    assert block[0..4] == [0x80, 0, 0, 0];
    assert Word(block[0..4]) == 0x80;
    forall k | 0 < k < 16 ensures Words(block)[k] == 0 {
      assert block[4 * k..4 * k + 4] == [0, 0, 0, 0];
    }
  }

  lemma {:induction false} NoCount()
    ensures Le(0, 8) == [0, 0, 0, 0, 0, 0, 0, 0]
  {
    assert Le(0, 2) == [0, 0] && Le(0, 4) == [0, 0, 0, 0] && Le(0, 6) == [0, 0, 0, 0, 0, 0];
  }

  lemma {:induction false} Sum128()
    ensures Word([0x80, 0, 0, 0]) == 0x80 && Word([0, 0, 0, 0]) == 0
  {
    var z: seq<byte> := [0, 0, 0];
    assert z[1..] == [0, 0] && [0, 0][1..] == [0] && [0][1..] == [];
    assert LeDec([0]) == 0 && LeDec([0, 0]) == 0 && LeDec(z) == 0;
    assert [0x80, 0, 0, 0][1..] == z && [0, 0, 0, 0][1..] == z;
  }

  lemma {:induction false} Folded(block: seq<byte>)
    requires |block| == 64
    requires Operations(INITIAL, Words(block), 64) == State(0x7246fad3, 0x14e45506, 0xff4ea3eb, 0x6e10a476)
    ensures Fold(INITIAL, block) == State(0xd98c1dd4, 0x4b2008f, 0x980980e9, 0x7e42f8ec)
  {
    hide Operations, Words;
    assert block[..64] == block && block[64..] == [];
    assert Compress(INITIAL, block) == State(0xd98c1dd4, 0x4b2008f, 0x980980e9, 0x7e42f8ec);
  }

  lemma {:induction false} Encoded()
    ensures Encode(State(0xd98c1dd4, 0x4b2008f, 0x980980e9, 0x7e42f8ec)) ==
      [0xd4, 0x1d, 0x8c, 0xd9, 0x8f, 0x00, 0xb2, 0x04, 0xe9, 0x80, 0x09, 0x98, 0xec, 0xf8, 0x42, 0x7e]
  {
    hide Le;
    Bytes4(0xd98c1dd4, 0xd4, 0x1d, 0x8c, 0xd9);
    Bytes4(0x4b2008f, 0x8f, 0x00, 0xb2, 0x04);
    Bytes4(0x980980e9, 0xe9, 0x80, 0x09, 0x98);
    Bytes4(0x7e42f8ec, 0xec, 0xf8, 0x42, 0x7e);
  }

  /** What the algorithm gives for no bytes at all is what the RFC lists. */
  lemma {:induction false} EmptyDigest()
    ensures Digest([]) ==
      [0xd4, 0x1d, 0x8c, 0xd9, 0x8f, 0x00, 0xb2, 0x04, 0xe9, 0x80, 0x09, 0x98, 0xec, 0xf8, 0x42, 0x7e]
  {
    hide Operations, Words, Padding, Le, Fold, Encode, Compress;
    var block := Block();
    After64(Words(block));
    Folded(block);
    Encoded();
  }

  lemma {:induction false} Bytes4(n: nat, a: byte, b: byte, c: byte, d: byte)
    requires n == a + 256 * (b + 256 * (c + 256 * d))
    ensures Le(n, 4) == [a, b, c, d]
  {
    assert n / 256 == b + 256 * (c + 256 * d) && n / 256 / 256 == c + 256 * d && n / 256 / 256 / 256 == d;
    assert Le(d, 1) == [d];
    assert Le(c + 256 * d, 2) == [c] + Le(d, 1);
    assert Le(b + 256 * (c + 256 * d), 3) == [b] + Le(c + 256 * d, 2);
  }
}
