// Digests that section A.5 of RFC 1321 lists, worked out operation by operation.
//
// The program and the standard share the operations on words, the table of sines and the
// order of bytes. Here they meet values that nothing in the model computes.
module Md5Known {
  import opened Md5Rounds
  import opened Md5Words
  import opened Md5

  // ---------- one operation ----------

  lemma AddIs(x: bv32, y: bv32)
    ensures Standard().add(x, y) == Add(x, y)
  {
    hide Add;
  }

  lemma RotateIs(x: bv32, s: nat)
    ensures Standard().rotate(x, s) == RotateLeft(x, s)
  {
    hide RotateLeft;
  }

  lemma ConstantIs(w: bv32)
    ensures Standard().constant(w as nat) == w
  {}

  lemma NoOperations(x: seq<bv32>)
    requires |x| == 16
    ensures Operations(Standard(), 0, InitialState(), x) == State(0x67452301, 0xefcdab89, 0x98badcfe, 0x10325476)
  {}

  lemma OperationIs(x: seq<bv32>, i: nat, s: State<bv32>, word: bv32, mixed: bv32, sine: bv32, shift: nat)
    requires |x| == 16 && x[Word(i)] == word && Standard().constant(Sine(i)) == sine && Shift(i) == shift
    requires Mix(Standard(), i, s.b, s.c, s.d) == mixed
    ensures Operation(Standard(), i, s, x) == State(s.d, Add(RotateLeft(Add(s.a, Add(mixed, Add(word, sine))), shift), s.b), s.b, s.c)
  {
    hide Sine, Shift, Word, Mix, RotateLeft, Constant, Add;
    AddIs(word, sine);
    AddIs(mixed, Add(word, sine));
    AddIs(s.a, Add(mixed, Add(word, sine)));
    RotateIs(Add(s.a, Add(mixed, Add(word, sine))), shift);
    AddIs(RotateLeft(Add(s.a, Add(mixed, Add(word, sine))), shift), s.b);
  }

  lemma Known(x: seq<bv32>, i: nat, s: State<bv32>, word: bv32, mixed: bv32, sine: bv32, shift: nat, next: bv32)
    requires |x| == 16 && Operations(Standard(), i, InitialState(), x) == s
    requires x[Word(i)] == word && Sine(i) == sine as nat && Shift(i) == shift
    requires Mix(Standard(), i, s.b, s.c, s.d) == mixed
    requires Add(RotateLeft(Add(s.a, Add(mixed, Add(word, sine))), shift), s.b) == next
    ensures Operations(Standard(), i + 1, InitialState(), x) == State(s.d, next, s.b, s.c)
  {
    hide Sine, Shift, Word, Mix, RotateLeft, Operation, Add;
    ConstantIs(sine);
    OperationIs(x, i, s, word, mixed, sine, shift);
  }

  // ---------- one block ----------

  lemma OneBlock(m: seq<Byte>)
    requires |m| < 56
    ensures |Padded(m)| == 64 && Chained(Padded(m)) == Compress(InitialState(), Padded(m))
  {
    hide Compress;
    var p := Padded(m);
    assert p[..|p| - 64] == [] && p[|p| - 64..] == p;
  }

  lemma WordIs(block: seq<Byte>, k: nat, w: bv32)
    requires |block| == 64 && k < 16 && WordOf(block[4 * k..4 * k + 4]) == w as nat
    ensures Words(block)[k] == w
  {
    hide WordOf;
  }

  lemma FirstBytes(block: seq<Byte>, k: nat)
    requires |block| == 64 && k < 16
    ensures
      var b := block[4 * k..4 * k + 4];
      b[0] == block[4 * k] && b[1] == block[4 * k + 1] && b[2] == block[4 * k + 2] && b[3] == block[4 * k + 3]
  {}

  // The registers at the end, as they are written out.
  lemma Printed(s: State<bv32>, x: seq<bv32>, t: State<bv32>)
    requires |x| == 16 && Operations(Standard(), 64, s, x) == t
    ensures Transform(Standard(), s, x) == State(Add(s.a, t.a), Add(s.b, t.b), Add(s.c, t.c), Add(s.d, t.d))
  {
    hide Operations, Add;
    AddIs(s.a, t.a);
    AddIs(s.b, t.b);
    AddIs(s.c, t.c);
    AddIs(s.d, t.d);
  }

  // Section 3.3: the registers at the start hold the bytes 01 23 45 ... in this order.
  lemma InitialBytes()
    ensures Output(InitialState()) ==
      [0x01, 0x23, 0x45, 0x67, 0x89, 0xab, 0xcd, 0xef, 0xfe, 0xdc, 0xba, 0x98, 0x76, 0x54, 0x32, 0x10]
  {}

  // ---------- the empty message ----------

  lemma EmptyBlock()
    ensures |Padded([])| == 64 && Padded([])[0] == 0x80 && forall k :: 1 <= k < 64 ==> Padded([])[k] == 0
  {}

  predicate OfEmpty(x: seq<bv32>) {
    |x| == 16 && x[0] == 0x80 && forall k :: 0 <= k < 16 && k != 0 ==> x[k] == 0
  }

  lemma EmptyRoundOne(x: seq<bv32>)
    requires OfEmpty(x)
    ensures Operations(Standard(), 16, InitialState(), x) == State(0xf56c7cf1, 0xd6819c6a, 0x5aa53f75, 0x374943a7)
  {
    hide Operations, Operation;
    NoOperations(x);
    Known(x, 0, State(0x67452301, 0xefcdab89, 0x98badcfe, 0x10325476), 0x80, 0x98badcfe, 0xd76aa478, 7, 0xa5202774);
    Known(x, 1, State(0x10325476, 0xa5202774, 0xefcdab89, 0x98badcfe), 0x0, 0xbd9afb8a, 0xe8c7b756, 12, 0xf59592dd);
    Known(x, 2, State(0x98badcfe, 0xf59592dd, 0xa5202774, 0xefcdab89), 0x0, 0xaf482b54, 0x242070db, 17, 0xe7f06b23);
    Known(x, 3, State(0xefcdab89, 0xe7f06b23, 0xf59592dd, 0xa5202774), 0x0, 0xe5900655, 0xc1bdceee, 22, 0x1b163203);
    Known(x, 4, State(0xa5202774, 0x1b163203, 0xe7f06b23, 0xf59592dd), 0x0, 0xe791a2df, 0xf57c0faf, 7, 0x32033344);
    Known(x, 5, State(0xf59592dd, 0x32033344, 0x1b163203, 0xe7f06b23), 0x0, 0xd7f27a23, 0x4787c62a, 12, 0x2f35d494);
    Known(x, 6, State(0xe7f06b23, 0x2f35d494, 0x32033344, 0x1b163203), 0x0, 0x32033207, 0xa8304613, 17, 0xf5b158db);
    Known(x, 7, State(0x1b163203, 0xf5b158db, 0x2f35d494, 0x32033344), 0x0, 0x27337394, 0xfd469501, 22, 0x9bc13ce9);
    Known(x, 8, State(0x32033344, 0x9bc13ce9, 0xf5b158db, 0x2f35d494), 0x0, 0xb5b5d8dd, 0x698098d8, 7, 0x3893b991);
    Known(x, 9, State(0x2f35d494, 0x3893b991, 0x9bc13ce9, 0xf5b158db), 0x0, 0xdda178cb, 0x8b44f7af, 12, 0xfce4a312);
    Known(x, 10, State(0xf5b158db, 0xfce4a312, 0x3893b991, 0x9bc13ce9), 0x0, 0x3b81bdf9, 0xffff5bb1, 17, 0xe1ef0576);
    Known(x, 11, State(0x9bc13ce9, 0xe1ef0576, 0xfce4a312, 0x3893b991), 0x0, 0xf8f4b993, 0x895cd7be, 22, 0x70768a29);
    Known(x, 12, State(0x3893b991, 0x70768a29, 0xe1ef0576, 0xfce4a312), 0x0, 0xece62132, 0x6b901122, 7, 0xf56c7cf1);
    Known(x, 13, State(0xfce4a312, 0xf56c7cf1, 0x70768a29, 0xe1ef0576), 0x0, 0x70e70927, 0xfd987193, 12, 0x374943a7);
    Known(x, 14, State(0xe1ef0576, 0x374943a7, 0xf56c7cf1, 0x70768a29), 0x0, 0x757ec8a9, 0xa679438e, 17, 0x5aa53f75);
    Known(x, 15, State(0x70768a29, 0x5aa53f75, 0x374943a7, 0xf56c7cf1), 0x0, 0xb74943a5, 0x49b40821, 22, 0xd6819c6a);
  }

  lemma EmptyRoundTwo(x: seq<bv32>)
    requires OfEmpty(x)
    ensures Operations(Standard(), 32, InitialState(), x) == State(0x13707036, 0xa2205f1f, 0x1c31c384, 0xae7813db)
  {
    hide Operations, Operation;
    EmptyRoundOne(x);
    Known(x, 16, State(0xf56c7cf1, 0xd6819c6a, 0x5aa53f75, 0x374943a7), 0x0, 0x5ea53c72, 0xf61e2562, 5, 0x1c7d7513);
    Known(x, 17, State(0x374943a7, 0x1c7d7513, 0xd6819c6a, 0x5aa53f75), 0x0, 0x9c25b51b, 0xc040b340, 9, 0x7bd57a3a);
    Known(x, 18, State(0x5aa53f75, 0x7bd57a3a, 0x1c7d7513, 0xd6819c6a), 0x0, 0x5afd793b, 0x265e5a51, 14, 0xc095f13a);
    Known(x, 19, State(0xd6819c6a, 0xc095f13a, 0x7bd57a3a, 0x1c7d7513), 0x80, 0x63957b3a, 0xe9b6c7aa, 20, 0xbd782e17);
    Known(x, 20, State(0x1c7d7513, 0xbd782e17, 0xc095f13a, 0x7bd57a3a), 0x0, 0xb950ab12, 0xd62f105d, 5, 0x3d1e3e6c);
    Known(x, 21, State(0x7bd57a3a, 0x3d1e3e6c, 0xbd782e17, 0xc095f13a), 0x0, 0x3d7c3e2d, 0x02441453, 9, 0x68b7b3e3);
    Known(x, 22, State(0xc095f13a, 0x68b7b3e3, 0x3d1e3e6c, 0xbd782e17), 0x0, 0x2836326b, 0xd8a1e681, 14, 0xeb41643e);
    Known(x, 23, State(0xbd782e17, 0xeb41643e, 0x68b7b3e3, 0x3d1e3e6c), 0x0, 0x69a1a5af, 0xe7d3fbc8, 20, 0xe422531a);
    Known(x, 24, State(0x3d1e3e6c, 0xe422531a, 0xeb41643e, 0x68b7b3e3), 0x0, 0xe362571e, 0x21e1cde6, 5, 0x306ec122);
    Known(x, 25, State(0x68b7b3e3, 0x306ec122, 0xe422531a, 0xeb41643e), 0x0, 0x24625322, 0xc33707d6, 9, 0xd28c77c2);
    Known(x, 26, State(0xeb41643e, 0xd28c77c2, 0x306ec122, 0xe422531a), 0x0, 0xd04cd322, 0xf4d50d87, 14, 0xa3c663da);
    Known(x, 27, State(0xe422531a, 0xa3c663da, 0xd28c77c2, 0x306ec122), 0x0, 0xe2c677c2, 0x455a14ed, 20, 0xa0572807);
    Known(x, 28, State(0x306ec122, 0xa0572807, 0xa3c663da, 0xd28c77c2), 0x0, 0xa146201a, 0xa9e3e905, 5, 0x13707036);
    Known(x, 29, State(0xd28c77c2, 0x13707036, 0xa0572807, 0xa3c663da), 0x0, 0x03516817, 0xfcefa3f8, 9, 0xae7813db);
    Known(x, 30, State(0xa3c663da, 0xae7813db, 0x13707036, 0xa0572807), 0x0, 0xb3705033, 0x676f02d9, 14, 0x1c31c384);
    Known(x, 31, State(0xa0572807, 0x1c31c384, 0xae7813db, 0x13707036), 0x0, 0xbc3843cd, 0x8d2a4c8a, 20, 0xa2205f1f);
  }

  lemma EmptyRoundThree(x: seq<bv32>)
    requires OfEmpty(x)
    ensures Operations(Standard(), 48, InitialState(), x) == State(0x3f55edfd, 0xca7d2dbd, 0x68d84ea2, 0x22a31f54)
  {
    hide Operations, Operation;
    EmptyRoundTwo(x);
    Known(x, 32, State(0x13707036, 0xa2205f1f, 0x1c31c384, 0xae7813db), 0x0, 0x10698f40, 0xfffa3942, 4, 0xdf63eaa1);
    Known(x, 33, State(0xae7813db, 0xdf63eaa1, 0xa2205f1f, 0x1c31c384), 0x0, 0x6172763a, 0x8771f681, 11, 0xc3689f5b);
    Known(x, 34, State(0x1c31c384, 0xc3689f5b, 0xdf63eaa1, 0xa2205f1f), 0x0, 0xbe2b2ae5, 0x6d9d6122, 16, 0x12f3e755);
    Known(x, 35, State(0xa2205f1f, 0x12f3e755, 0xc3689f5b, 0xdf63eaa1), 0x0, 0x0ef892af, 0xfde5380c, 23, 0x004b6669);
    Known(x, 36, State(0xdf63eaa1, 0x004b6669, 0x12f3e755, 0xc3689f5b), 0x0, 0xd1d01e67, 0xa4beea44, 4, 0x5f7a9b2e);
    Known(x, 37, State(0xc3689f5b, 0x5f7a9b2e, 0x004b6669, 0x12f3e755), 0x0, 0x4dc21a12, 0x4bdecfa9, 11, 0xabc34e16);
    Known(x, 38, State(0x12f3e755, 0xabc34e16, 0x5f7a9b2e, 0x004b6669), 0x0, 0xf4f2b351, 0xf6bb4b60, 16, 0x91ca4cb7);
    Known(x, 39, State(0x004b6669, 0x91ca4cb7, 0xabc34e16, 0x5f7a9b2e), 0x0, 0x6573998f, 0xbebfbc70, 23, 0xc5dc8c15);
    Known(x, 40, State(0x5f7a9b2e, 0xc5dc8c15, 0x91ca4cb7, 0xabc34e16), 0x0, 0xffd58eb4, 0x289b7ec6, 4, 0x4497169d);
    Known(x, 41, State(0xabc34e16, 0x4497169d, 0xc5dc8c15, 0x91ca4cb7), 0x80, 0x1081d63f, 0xeaa127fa, 11, 0x76fd93d4);
    Known(x, 42, State(0x91ca4cb7, 0x76fd93d4, 0x4497169d, 0xc5dc8c15), 0x0, 0xf7b6095c, 0xd4ef3085, 16, 0xfd95f243);
    Known(x, 43, State(0xc5dc8c15, 0xfd95f243, 0x76fd93d4, 0x4497169d), 0x0, 0xcfff770a, 0x04881d05, 23, 0x0fe32453);
    Known(x, 44, State(0x4497169d, 0x0fe32453, 0xfd95f243, 0x76fd93d4), 0x0, 0x848b45c4, 0xd9d4d039, 4, 0x3f55edfd);
    Known(x, 45, State(0x76fd93d4, 0x3f55edfd, 0x0fe32453, 0xfd95f243), 0x0, 0xcd233bed, 0xe6db99e5, 11, 0x22a31f54);
    Known(x, 46, State(0xfd95f243, 0x22a31f54, 0x3f55edfd, 0x0fe32453), 0x0, 0x1215d6fa, 0x1fa27cf8, 16, 0x68d84ea2);
    Known(x, 47, State(0x0fe32453, 0x68d84ea2, 0x22a31f54, 0x3f55edfd), 0x0, 0x752ebc0b, 0xc4ac5665, 23, 0xca7d2dbd);
  }

  lemma EmptyRoundFour(x: seq<bv32>)
    requires OfEmpty(x)
    ensures Operations(Standard(), 64, InitialState(), x) == State(0x7246fad3, 0x14e45506, 0xff4ea3eb, 0x6e10a476)
  {
    hide Operations, Operation;
    EmptyRoundThree(x);
    Known(x, 48, State(0x3f55edfd, 0xca7d2dbd, 0x68d84ea2, 0x22a31f54), 0x80, 0xb7a5a31d, 0xf4292244, 6, 0x93aa2577);
    Known(x, 49, State(0x22a31f54, 0x93aa2577, 0xca7d2dbd, 0x68d84ea2), 0x0, 0x5dd298c2, 0x432aff97, 10, 0x1688dc85);
    Known(x, 50, State(0x68d84ea2, 0x1688dc85, 0x93aa2577, 0xca7d2dbd), 0x0, 0xa420fbb0, 0xab9423a7, 15, 0xcd85b8cb);
    Known(x, 51, State(0xca7d2dbd, 0xcd85b8cb, 0x1688dc85, 0x93aa2577), 0x0, 0xfb5d264e, 0xfc93a039, 21, 0x561e0689);
    Known(x, 52, State(0x93aa2577, 0x561e0689, 0xcd85b8cb, 0x1688dc85), 0x0, 0x32fa9f30, 0x655b59c3, 6, 0x5625a114);
    Known(x, 53, State(0x1688dc85, 0x5625a114, 0x561e0689, 0xcd85b8cb), 0x0, 0x2061e1bd, 0x8f0ccc92, 10, 0x3450f42b);
    Known(x, 54, State(0xcd85b8cb, 0x3450f42b, 0x5625a114, 0x561e0689), 0x0, 0xebd45c6b, 0xffeff47d, 15, 0x392ad0d0);
    Known(x, 55, State(0x561e0689, 0x392ad0d0, 0x3450f42b, 0x5625a114), 0x0, 0x8daa2ad0, 0x85845dd1, 21, 0x1e77fa61);
    Known(x, 56, State(0x5625a114, 0x1e77fa61, 0x392ad0d0, 0x3450f42b), 0x0, 0xe6d52b25, 0x6fa87e4f, 6, 0x474a9c8c);
    Known(x, 57, State(0x3450f42b, 0x474a9c8c, 0x1e77fa61, 0x392ad0d0), 0x0, 0xd9a845ce, 0xfe2ce6e0, 10, 0xdfce00bc);
    Known(x, 58, State(0x392ad0d0, 0xdfce00bc, 0x474a9c8c, 0x1e77fa61), 0x0, 0xb8849932, 0xa3014314, 15, 0x36594b14);
    Known(x, 59, State(0x1e77fa61, 0x36594b14, 0xdfce00bc, 0x474a9c8c), 0x0, 0x61336bcb, 0x4e0811a1, 21, 0x30130182);
    Known(x, 60, State(0x474a9c8c, 0x30130182, 0x36594b14, 0xdfce00bc), 0x0, 0x066ab4d7, 0xf7537e82, 6, 0x7246fad3);
    Known(x, 61, State(0xdfce00bc, 0x7246fad3, 0x30130182, 0x36594b14), 0x0, 0xcbf5ff79, 0xbd3af235, 10, 0x6e10a476);
    Known(x, 62, State(0x36594b14, 0x6e10a476, 0x7246fad3, 0x30130182), 0x0, 0x9dba04ac, 0x2ad7d2bb, 15, 0xff4ea3eb);
    Known(x, 63, State(0x30130182, 0xff4ea3eb, 0x6e10a476, 0x7246fad3), 0x0, 0x91ef0399, 0xeb86d391, 21, 0x14e45506);
  }

  lemma EmptyWords()
    ensures |Padded([])| == 64 && OfEmpty(Words(Padded([])))
  {
    var p := Padded([]);
    EmptyBlock();
    forall k | 0 <= k < 16 && k != 0 ensures Words(p)[k] == 0 {
      FirstBytes(p, k);
      WordIs(p, k, 0);
    }
    FirstBytes(p, 0);
    WordIs(p, 0, 0x80);
  }

  lemma EmptyDigest()
    ensures Digest([]) == [0xd4, 0x1d, 0x8c, 0xd9, 0x8f, 0x00, 0xb2, 0x04, 0xe9, 0x80, 0x09, 0x98, 0xec, 0xf8, 0x42, 0x7e]
  {
    hide Operations, Padded, Words;
    var p := Padded([]);
    EmptyWords();
    OneBlock([]);
    EmptyRoundFour(Words(p));
    Printed(InitialState(), Words(p), State(0x7246fad3, 0x14e45506, 0xff4ea3eb, 0x6e10a476));
    assert Chained(p) == State(0xd98c1dd4, 0x04b2008f, 0x980980e9, 0x7e42f8ec);
  }

  // ---------- abc ----------

  const ABC: seq<Byte> := [0x61, 0x62, 0x63]

  lemma AbcLength()
    ensures LittleEndian(24, 8) == [0x18, 0, 0, 0, 0, 0, 0, 0]
  {}

  lemma AbcBlock()
    ensures |Padded(ABC)| == 64 && Padded(ABC)[..4] == [0x61, 0x62, 0x63, 0x80] && Padded(ABC)[56] == 0x18
    ensures forall k :: 4 <= k < 64 && k != 56 ==> Padded(ABC)[k] == 0
  {
    hide LittleEndian;
    AbcLength();
  }

  predicate OfAbc(x: seq<bv32>) {
    |x| == 16 && x[0] == 0x80636261 && x[14] == 0x18 && forall k :: 0 <= k < 16 && k != 0 && k != 14 ==> x[k] == 0
  }

  lemma AbcRoundOne(x: seq<bv32>)
    requires OfAbc(x)
    ensures Operations(Standard(), 16, InitialState(), x) == State(0xdda9b9a6, 0x72aff2e0, 0xe396856b, 0xa1051895)
  {
    hide Operations, Operation;
    NoOperations(x);
    Known(x, 0, State(0x67452301, 0xefcdab89, 0x98badcfe, 0x10325476), 0x80636261, 0x98badcfe, 0xd76aa478, 7, 0xd6d117b4);
    Known(x, 1, State(0x10325476, 0xd6d117b4, 0xefcdab89, 0x98badcfe), 0x0, 0xceebcbca, 0xe8c7b756, 12, 0x344a8432);
    Known(x, 2, State(0x98badcfe, 0x344a8432, 0xd6d117b4, 0xefcdab89), 0x0, 0xdfc52fb9, 0x242070db, 17, 0x2f6fbd72);
    Known(x, 3, State(0xefcdab89, 0x2f6fbd72, 0x344a8432, 0xd6d117b4), 0x0, 0xf4da86b6, 0xc1bdceee, 22, 0x7ad956f2);
    Known(x, 4, State(0xd6d117b4, 0x7ad956f2, 0x2f6fbd72, 0x344a8432), 0x0, 0x2e4b9472, 0xf57c0faf, 7, 0xc73741ef);
    Known(x, 5, State(0x344a8432, 0xc73741ef, 0x7ad956f2, 0x2f6fbd72), 0x0, 0x6a59fcf2, 0x4787c62a, 12, 0x8bac3051);
    Known(x, 6, State(0x2f6fbd72, 0x8bac3051, 0xc73741ef, 0x7ad956f2), 0x0, 0xf37546e3, 0xa8304613, 17, 0x207dc67b);
    Known(x, 7, State(0x7ad956f2, 0x207dc67b, 0x8bac3051, 0xc73741ef), 0x0, 0xc72e01d5, 0xfd469501, 22, 0x928d99f6);
    Known(x, 8, State(0xc73741ef, 0x928d99f6, 0x207dc67b, 0x8bac3051), 0x0, 0x092da073, 0x698098d8, 7, 0x854b3712);
    Known(x, 9, State(0x8bac3051, 0x854b3712, 0x928d99f6, 0x207dc67b), 0x0, 0xa03dd17b, 0x8b44f7af, 12, 0x74e2f284);
    Known(x, 10, State(0x207dc67b, 0x74e2f284, 0x854b3712, 0x928d99f6), 0x0, 0x864f3b72, 0xffff5bb1, 17, 0x3020401c);
    Known(x, 11, State(0x928d99f6, 0x3020401c, 0x74e2f284, 0x854b3712), 0x0, 0xb56b7706, 0x895cd7be, 22, 0x5ed49596);
    Known(x, 12, State(0x854b3712, 0x5ed49596, 0x3020401c, 0x74e2f284), 0x0, 0x30226214, 0x6b901122, 7, 0xdda9b9a6);
    Known(x, 13, State(0x74e2f284, 0xdda9b9a6, 0x5ed49596, 0x3020401c), 0x0, 0x7c80d19e, 0xfd987193, 12, 0xa1051895);
    Known(x, 14, State(0x3020401c, 0xa1051895, 0xdda9b9a6, 0x5ed49596), 0x18, 0xdfd19d86, 0xa679438e, 17, 0xe396856b);
    Known(x, 15, State(0x5ed49596, 0xe396856b, 0xa1051895, 0xdda9b9a6), 0x0, 0xbd2d3885, 0x49b40821, 22, 0x72aff2e0);
  }

  lemma AbcRoundTwo(x: seq<bv32>)
    requires OfAbc(x)
    ensures Operations(Standard(), 32, InitialState(), x) == State(0x790a77fb, 0x726342d3, 0xa62884aa, 0x9f47e4f8)
  {
    hide Operations, Operation;
    AbcRoundOne(x);
    Known(x, 16, State(0xdda9b9a6, 0x72aff2e0, 0xe396856b, 0xa1051895), 0x0, 0x629795ea, 0xf61e2562, 5, 0x3e9e9126);
    Known(x, 17, State(0xa1051895, 0x3e9e9126, 0x72aff2e0, 0xe396856b), 0x0, 0x32bff3a2, 0xc040b340, 9, 0x4a1d804e);
    Known(x, 18, State(0xe396856b, 0x4a1d804e, 0x3e9e9126, 0x72aff2e0), 0x0, 0x4e1d8146, 0x265e5a51, 14, 0xe25e1652);
    Known(x, 19, State(0x72aff2e0, 0xe25e1652, 0x4a1d804e, 0x3e9e9126), 0x80636261, 0x621f104a, 0xe9b6c7aa, 20, 0xb5b204e4);
    Known(x, 20, State(0x3e9e9126, 0xb5b204e4, 0xe25e1652, 0x4a1d804e), 0x0, 0xa0521654, 0xd62f105d, 5, 0x59a8ffda);
    Known(x, 21, State(0x4a1d804e, 0x59a8ffda, 0xb5b204e4, 0xe25e1652), 0x0, 0x55a816f6, 0x02441453, 9, 0x6d002f1e);
    Known(x, 22, State(0xe25e1652, 0x6d002f1e, 0x59a8ffda, 0xb5b204e4), 0x0, 0x6d08ff1e, 0xd8a1e681, 14, 0xabfc7920);
    Known(x, 23, State(0xb5b204e4, 0xabfc7920, 0x6d002f1e, 0x59a8ffda), 0x0, 0x2da87904, 0xe7d3fbc8, 20, 0x47092c07);
    Known(x, 24, State(0x59a8ffda, 0x47092c07, 0xabfc7920, 0x6d002f1e), 0x0, 0xc7fc7c26, 0x21e1cde6, 5, 0xb7f268cf);
    Known(x, 25, State(0x6d002f1e, 0xb7f268cf, 0x47092c07, 0xabfc7920), 0x18, 0xe7f16c07, 0xc33707d6, 9, 0x09388eff);
    Known(x, 26, State(0xabfc7920, 0x09388eff, 0xb7f268cf, 0x47092c07), 0x0, 0xb1fa4ccf, 0xf4d50d87, 14, 0xfe1623b1);
    Known(x, 27, State(0x47092c07, 0xfe1623b1, 0x09388eff, 0xb7f268cf), 0x0, 0xbe1aa6b1, 0x455a14ed, 20, 0x786acb8f);
    Known(x, 28, State(0xb7f268cf, 0x786acb8f, 0xfe1623b1, 0x09388eff), 0x0, 0xfe2eab8f, 0xa9e3e905, 5, 0x790a77fb);
    Known(x, 29, State(0x09388eff, 0x790a77fb, 0x786acb8f, 0xfe1623b1), 0x0, 0x786aebbf, 0xfcefa3f8, 9, 0x9f47e4f8);
    Known(x, 30, State(0xfe1623b1, 0x9f47e4f8, 0x790a77fb, 0x786acb8f), 0x0, 0x1942f4f8, 0x676f02d9, 14, 0xa62884aa);
    Known(x, 31, State(0x786acb8f, 0xa62884aa, 0x9f47e4f8, 0x790a77fb), 0x0, 0xa64d84aa, 0x8d2a4c8a, 20, 0x726342d3);
  }

  lemma AbcRoundThree(x: seq<bv32>)
    requires OfAbc(x)
    ensures Operations(Standard(), 48, InitialState(), x) == State(0x7f2e507b, 0x7beb9700, 0x8fae6399, 0x99d9679d)
  {
    hide Operations, Operation;
    AbcRoundTwo(x);
    Known(x, 32, State(0x790a77fb, 0x726342d3, 0xa62884aa, 0x9f47e4f8), 0x0, 0x4b0c2281, 0xfffa3942, 4, 0xb3707ebf);
    Known(x, 33, State(0x9f47e4f8, 0xb3707ebf, 0x726342d3, 0xa62884aa), 0x0, 0x673bb8c6, 0x8771f681, 11, 0x60127b2e);
    Known(x, 34, State(0xa62884aa, 0x60127b2e, 0xb3707ebf, 0x726342d3), 0x0, 0xa1014742, 0x6d9d6122, 16, 0x8d212ff5);
    Known(x, 35, State(0x726342d3, 0x8d212ff5, 0x60127b2e, 0xb3707ebf), 0x18, 0x5e432a64, 0xfde5380c, 23, 0x3b0875c7);
    Known(x, 36, State(0xb3707ebf, 0x3b0875c7, 0x8d212ff5, 0x60127b2e), 0x0, 0xd63b211c, 0xa4beea44, 4, 0x21b117b9);
    Known(x, 37, State(0x60127b2e, 0x21b117b9, 0x3b0875c7, 0x8d212ff5), 0x0, 0x97984d8b, 0x4bdecfa9, 11, 0x6e7429d5);
    Known(x, 38, State(0x8d212ff5, 0x6e7429d5, 0x21b117b9, 0x3b0875c7), 0x0, 0x74cd4bab, 0xf6bb4b60, 16, 0x3575227e);
    Known(x, 39, State(0x3b0875c7, 0x3575227e, 0x6e7429d5, 0x21b117b9), 0x0, 0x7ab01c12, 0xbebfbc70, 23, 0x5a2f5ea5);
    Known(x, 40, State(0x21b117b9, 0x5a2f5ea5, 0x3575227e, 0x6e7429d5), 0x0, 0x012e550e, 0x289b7ec6, 4, 0x11de1779);
    Known(x, 41, State(0x6e7429d5, 0x11de1779, 0x5a2f5ea5, 0x3575227e), 0x80636261, 0x7e846ba2, 0xeaa127fa, 11, 0xfadcaa38);
    Known(x, 42, State(0x3575227e, 0xfadcaa38, 0x11de1779, 0x5a2f5ea5), 0x0, 0xb12de3e4, 0xd4ef3085, 16, 0x31c465ca);
    Known(x, 43, State(0x5a2f5ea5, 0x31c465ca, 0xfadcaa38, 0x11de1779), 0x0, 0xdac6d88b, 0x04881d05, 23, 0x4c6124f4);
    Known(x, 44, State(0x11de1779, 0x4c6124f4, 0x31c465ca, 0xfadcaa38), 0x0, 0x8779eb06, 0xd9d4d039, 4, 0x7f2e507b);
    Known(x, 45, State(0xfadcaa38, 0x7f2e507b, 0x4c6124f4, 0x31c465ca), 0x0, 0x028b1145, 0xe6db99e5, 11, 0x99d9679d);
    Known(x, 46, State(0x31c465ca, 0x99d9679d, 0x7f2e507b, 0x4c6124f4), 0x0, 0xaa961312, 0x1fa27cf8, 16, 0x8fae6399);
    Known(x, 47, State(0x4c6124f4, 0x8fae6399, 0x99d9679d, 0x7f2e507b), 0x0, 0x6959547f, 0xc4ac5665, 23, 0x7beb9700);
  }

  lemma AbcRoundFour(x: seq<bv32>)
    requires OfAbc(x)
    ensures Operations(Standard(), 64, InitialState(), x) == State(0x310ade8f, 0xc08226b3, 0xe484b9d8, 0x624d8cb2)
  {
    hide Operations, Operation;
    AbcRoundThree(x);
    Known(x, 48, State(0x7f2e507b, 0x7beb9700, 0x8fae6399, 0x99d9679d), 0x80636261, 0xf041fcfb, 0xf4292244, 6, 0x7b201df8);
    Known(x, 49, State(0x99d9679d, 0x7b201df8, 0x7beb9700, 0x8fae6399), 0x0, 0x009a0afe, 0x432aff97, 10, 0xf4e8e96e);
    Known(x, 50, State(0x8fae6399, 0xf4e8e96e, 0x7b201df8, 0x7beb9700), 0x18, 0x8fdcf407, 0xab9423a7, 15, 0xb298cefd);
    Known(x, 51, State(0x7beb9700, 0xb298cefd, 0xf4e8e96e, 0x7b201df8), 0x0, 0x42370791, 0xfc93a039, 21, 0x8bf025c4);
    Known(x, 52, State(0x7b201df8, 0x8bf025c4, 0xb298cefd, 0xf4e8e96e), 0x0, 0x396ff928, 0x655b59c3, 6, 0x06cc5e8a);
    Known(x, 53, State(0xf4e8e96e, 0x06cc5e8a, 0x8bf025c4, 0xb298cefd), 0x0, 0xc41f5a4e, 0x8f0ccc92, 10, 0x5b0d97aa);
    Known(x, 54, State(0xb298cefd, 0x5b0d97aa, 0x06cc5e8a, 0x8bf025c4), 0x0, 0x79c38131, 0xffeff47d, 15, 0x7d632dd0);
    Known(x, 55, State(0x8bf025c4, 0x7d632dd0, 0x5b0d97aa, 0x06cc5e8a), 0x0, 0xa67e3a5f, 0x85845dd1, 21, 0x3bfa2c27);
    Known(x, 56, State(0x06cc5e8a, 0x3bfa2c27, 0x7d632dd0, 0x5b0d97aa), 0x0, 0xc29941a7, 0x6fa87e4f, 6, 0x7f81cc35);
    Known(x, 57, State(0x5b0d97aa, 0x7f81cc35, 0x3bfa2c27, 0x7d632dd0), 0x0, 0xc467f218, 0xfe2ce6e0, 10, 0x094454ab);
    Known(x, 58, State(0x7d632dd0, 0x094454ab, 0x7f81cc35, 0x3bfa2c27), 0x0, 0xb2c41bce, 0xa3014314, 15, 0x4f9dbe3f);
    Known(x, 59, State(0x3bfa2c27, 0x4f9dbe3f, 0x094454ab, 0x7f81cc35), 0x0, 0xc6bbeb54, 0x4e0811a1, 21, 0x7327d604);
    Known(x, 60, State(0x7f81cc35, 0x7327d604, 0x4f9dbe3f, 0x094454ab), 0x0, 0xb822416b, 0xf7537e82, 6, 0x310ade8f);
    Known(x, 61, State(0x094454ab, 0x310ade8f, 0x7327d604, 0x4f9dbe3f), 0x0, 0xc24d09cb, 0xbd3af235, 10, 0x624d8cb2);
    Known(x, 62, State(0x4f9dbe3f, 0x624d8cb2, 0x310ade8f, 0x7327d604), 0x0, 0xdfd77374, 0x2ad7d2bb, 15, 0xe484b9d8);
    Known(x, 63, State(0x7327d604, 0xe484b9d8, 0x624d8cb2, 0x310ade8f), 0x0, 0x8cb8354a, 0xeb86d391, 21, 0xc08226b3);
  }

  lemma AbcWords()
    ensures |Padded(ABC)| == 64 && OfAbc(Words(Padded(ABC)))
  {
    var p := Padded(ABC);
    AbcBlock();
    forall k | 0 <= k < 16 && k != 0 && k != 14 ensures Words(p)[k] == 0 {
      FirstBytes(p, k);
      WordIs(p, k, 0);
    }
    FirstBytes(p, 0);
    WordIs(p, 0, 0x80636261);
    FirstBytes(p, 14);
    WordIs(p, 14, 0x18);
  }

  lemma AbcDigest()
    ensures Digest(ABC) == [0x90, 0x01, 0x50, 0x98, 0x3c, 0xd2, 0x4f, 0xb0, 0xd6, 0x96, 0x3f, 0x7d, 0x28, 0xe1, 0x7f, 0x72]
  {
    hide Operations, Padded, Words;
    var p := Padded(ABC);
    AbcWords();
    OneBlock(ABC);
    AbcRoundFour(Words(p));
    Printed(InitialState(), Words(p), State(0x310ade8f, 0xc08226b3, 0xe484b9d8, 0x624d8cb2));
    assert Chained(p) == State(0x98500190, 0xb04fd23c, 0x7d3f96d6, 0x727fe128);
  }
}
