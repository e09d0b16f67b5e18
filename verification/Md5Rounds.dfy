// The block transform of MD5: the 64 steps as the program writes them out, and as
// section 3.4 of RFC 1321 generates them.
//
// That the two agree does not depend on what the operations on words compute, so it is
// proved for any; bit-vectors of 32 bits come in at the end.
module Md5Rounds {

  datatype State<W> = State(a: W, b: W, c: W, d: W)

  // Addition, the four mixing functions, rotation to the left, and constants.
  datatype Arithmetic<!W> = Arithmetic(
    add: (W, W) -> W,
    f: (W, W, W) -> W,
    g: (W, W, W) -> W,
    h: (W, W, W) -> W,
    i: (W, W, W) -> W,
    rotate: (W, nat) -> W,
    constant: nat -> W)

  // ---------- RFC 1321, section 3.4 ----------

  // The function, the message word, the shift and the table entry of operation i.
  function Mix<W>(ops: Arithmetic<W>, i: nat, x: W, y: W, z: W): W {
    if i < 16 then ops.f(x, y, z) else if i < 32 then ops.g(x, y, z) else if i < 48 then ops.h(x, y, z) else ops.i(x, y, z)
  }

  function Word(i: nat): (k: nat)
    ensures k < 16
  {
    if i < 16 then i else if i < 32 then (5 * i + 1) % 16 else if i < 48 then (3 * i + 5) % 16 else 7 * i % 16
  }

  function Shift(i: nat): nat {
    if i < 16 then (if i % 4 == 0 then 7 else if i % 4 == 1 then 12 else if i % 4 == 2 then 17 else 22)
    else if i < 32 then (if i % 4 == 0 then 5 else if i % 4 == 1 then 9 else if i % 4 == 2 then 14 else 20)
    else if i < 48 then (if i % 4 == 0 then 4 else if i % 4 == 1 then 11 else if i % 4 == 2 then 16 else 23)
    else (if i % 4 == 0 then 6 else if i % 4 == 1 then 10 else if i % 4 == 2 then 15 else 21)
  }

  // The integer part of 4294967296 times abs(sin(i + 1)).
  function Sine(i: nat): nat {
    if i < 16 then SineOne(i) else if i < 32 then SineTwo(i) else if i < 48 then SineThree(i) else SineFour(i)
  }

  function SineOne(i: nat): nat {
    match i
    case 0 => 0xd76aa478
    case 1 => 0xe8c7b756
    case 2 => 0x242070db
    case 3 => 0xc1bdceee
    case 4 => 0xf57c0faf
    case 5 => 0x4787c62a
    case 6 => 0xa8304613
    case 7 => 0xfd469501
    case 8 => 0x698098d8
    case 9 => 0x8b44f7af
    case 10 => 0xffff5bb1
    case 11 => 0x895cd7be
    case 12 => 0x6b901122
    case 13 => 0xfd987193
    case 14 => 0xa679438e
    case _ => 0x49b40821
  }

  function SineTwo(i: nat): nat {
    match i
    case 16 => 0xf61e2562
    case 17 => 0xc040b340
    case 18 => 0x265e5a51
    case 19 => 0xe9b6c7aa
    case 20 => 0xd62f105d
    case 21 => 0x02441453
    case 22 => 0xd8a1e681
    case 23 => 0xe7d3fbc8
    case 24 => 0x21e1cde6
    case 25 => 0xc33707d6
    case 26 => 0xf4d50d87
    case 27 => 0x455a14ed
    case 28 => 0xa9e3e905
    case 29 => 0xfcefa3f8
    case 30 => 0x676f02d9
    case _ => 0x8d2a4c8a
  }

  function SineThree(i: nat): nat {
    match i
    case 32 => 0xfffa3942
    case 33 => 0x8771f681
    case 34 => 0x6d9d6122
    case 35 => 0xfde5380c
    case 36 => 0xa4beea44
    case 37 => 0x4bdecfa9
    case 38 => 0xf6bb4b60
    case 39 => 0xbebfbc70
    case 40 => 0x289b7ec6
    case 41 => 0xeaa127fa
    case 42 => 0xd4ef3085
    case 43 => 0x04881d05
    case 44 => 0xd9d4d039
    case 45 => 0xe6db99e5
    case 46 => 0x1fa27cf8
    case _ => 0xc4ac5665
  }

  function SineFour(i: nat): nat {
    match i
    case 48 => 0xf4292244
    case 49 => 0x432aff97
    case 50 => 0xab9423a7
    case 51 => 0xfc93a039
    case 52 => 0x655b59c3
    case 53 => 0x8f0ccc92
    case 54 => 0xffeff47d
    case 55 => 0x85845dd1
    case 56 => 0x6fa87e4f
    case 57 => 0xfe2ce6e0
    case 58 => 0xa3014314
    case 59 => 0x4e0811a1
    case 60 => 0xf7537e82
    case 61 => 0xbd3af235
    case 62 => 0x2ad7d2bb
    case _ => 0xeb86d391
  }

  // a = b + ((a + f(b, c, d) + X[k] + T[i]) <<< s), after which the registers change roles.
  function Operation<W>(ops: Arithmetic<W>, i: nat, s: State<W>, x: seq<W>): State<W>
    requires |x| == 16
  {
    var data := ops.add(x[Word(i)], ops.constant(Sine(i)));
    State(s.d, ops.add(ops.rotate(ops.add(s.a, ops.add(Mix(ops, i, s.b, s.c, s.d), data)), Shift(i)), s.b), s.b, s.c)
  }

  // The registers after the first n operations.
  function Operations<W>(ops: Arithmetic<W>, n: nat, s: State<W>, x: seq<W>): State<W>
    requires |x| == 16
  {
    if n == 0 then s else Operation(ops, n - 1, Operations(ops, n - 1, s, x), x)
  }

  function Transform<W>(ops: Arithmetic<W>, s: State<W>, x: seq<W>): State<W>
    requires |x| == 16
  {
    var t := Operations(ops, 64, s, x);
    State(ops.add(s.a, t.a), ops.add(s.b, t.b), ops.add(s.c, t.c), ops.add(s.d, t.d))
  }

  // Operations n to n + 3, after which every register is back in its role.
  function Four<W>(ops: Arithmetic<W>, n: nat, s: State<W>, x: seq<W>): State<W>
    requires |x| == 16
  {
    Operation(ops, n + 3, Operation(ops, n + 2, Operation(ops, n + 1, Operation(ops, n, s, x), x), x), x)
  }

  // Operations n to n + 15.
  function Sixteen<W>(ops: Arithmetic<W>, n: nat, s: State<W>, x: seq<W>): State<W>
    requires |x| == 16
  {
    Four(ops, n + 12, Four(ops, n + 8, Four(ops, n + 4, Four(ops, n, s, x), x), x), x)
  }

  lemma FourOperations<W>(ops: Arithmetic<W>, n: nat, s: State<W>, x: seq<W>)
    requires |x| == 16
    ensures Operations(ops, n + 4, s, x) == Four(ops, n, Operations(ops, n, s, x), x)
  {
    assert Operations(ops, n + 4, s, x) == Operation(ops, n + 3, Operations(ops, n + 3, s, x), x);
    assert Operations(ops, n + 3, s, x) == Operation(ops, n + 2, Operations(ops, n + 2, s, x), x);
    assert Operations(ops, n + 2, s, x) == Operation(ops, n + 1, Operations(ops, n + 1, s, x), x);
  }

  lemma SixteenOperations<W>(ops: Arithmetic<W>, n: nat, s: State<W>, x: seq<W>)
    requires |x| == 16
    ensures Operations(ops, n + 16, s, x) == Sixteen(ops, n, Operations(ops, n, s, x), x)
  {
    FourOperations(ops, n, s, x);
    FourOperations(ops, n + 4, s, x);
    FourOperations(ops, n + 8, s, x);
    FourOperations(ops, n + 12, s, x);
  }

  lemma SixtyFourOperations<W>(ops: Arithmetic<W>, n: nat, s: State<W>, x: seq<W>)
    requires |x| == 16
    ensures Operations(ops, n + 64, s, x) ==
      Sixteen(ops, n + 48, Sixteen(ops, n + 32, Sixteen(ops, n + 16, Sixteen(ops, n, Operations(ops, n, s, x), x), x), x), x)
  {
    SixteenOperations(ops, n, s, x);
    SixteenOperations(ops, n + 16, s, x);
    SixteenOperations(ops, n + 32, s, x);
    SixteenOperations(ops, n + 48, s, x);
  }

  // ---------- the program's steps ----------

  // MD5STEP, the value of f given.
  function Step<W>(ops: Arithmetic<W>, f: W, w: W, x: W, data: W, constant: nat, s: nat): W {
    ops.add(ops.rotate(ops.add(w, ops.add(f, ops.add(data, ops.constant(constant)))), s), x)
  }

  method RoundOne<W>(ops: Arithmetic<W>, x: seq<W>, a0: W, b0: W, c0: W, d0: W) returns (a: W, b: W, c: W, d: W)
    requires |x| == 16
    ensures State(a, b, c, d) == Sixteen(ops, 0, State(a0, b0, c0, d0), x)
  {
    a, b, c, d := a0, b0, c0, d0;
    a := Step(ops, ops.f(b, c, d), a, b, x[0], 0xd76aa478, 7);
    d := Step(ops, ops.f(a, b, c), d, a, x[1], 0xe8c7b756, 12);
    c := Step(ops, ops.f(d, a, b), c, d, x[2], 0x242070db, 17);
    b := Step(ops, ops.f(c, d, a), b, c, x[3], 0xc1bdceee, 22);
    assert State(a, b, c, d) == Four(ops, 0, State(a0, b0, c0, d0), x);
    ghost var a1, b1, c1, d1 := a, b, c, d;
    a := Step(ops, ops.f(b, c, d), a, b, x[4], 0xf57c0faf, 7);
    d := Step(ops, ops.f(a, b, c), d, a, x[5], 0x4787c62a, 12);
    c := Step(ops, ops.f(d, a, b), c, d, x[6], 0xa8304613, 17);
    b := Step(ops, ops.f(c, d, a), b, c, x[7], 0xfd469501, 22);
    assert State(a, b, c, d) == Four(ops, 4, State(a1, b1, c1, d1), x);
    ghost var a2, b2, c2, d2 := a, b, c, d;
    a := Step(ops, ops.f(b, c, d), a, b, x[8], 0x698098d8, 7);
    d := Step(ops, ops.f(a, b, c), d, a, x[9], 0x8b44f7af, 12);
    c := Step(ops, ops.f(d, a, b), c, d, x[10], 0xffff5bb1, 17);
    b := Step(ops, ops.f(c, d, a), b, c, x[11], 0x895cd7be, 22);
    assert State(a, b, c, d) == Four(ops, 8, State(a2, b2, c2, d2), x);
    ghost var a3, b3, c3, d3 := a, b, c, d;
    a := Step(ops, ops.f(b, c, d), a, b, x[12], 0x6b901122, 7);
    d := Step(ops, ops.f(a, b, c), d, a, x[13], 0xfd987193, 12);
    c := Step(ops, ops.f(d, a, b), c, d, x[14], 0xa679438e, 17);
    b := Step(ops, ops.f(c, d, a), b, c, x[15], 0x49b40821, 22);
    assert State(a, b, c, d) == Four(ops, 12, State(a3, b3, c3, d3), x);
  }

  method RoundTwo<W>(ops: Arithmetic<W>, x: seq<W>, a0: W, b0: W, c0: W, d0: W) returns (a: W, b: W, c: W, d: W)
    requires |x| == 16
    ensures State(a, b, c, d) == Sixteen(ops, 16, State(a0, b0, c0, d0), x)
  {
    a, b, c, d := a0, b0, c0, d0;
    a := Step(ops, ops.g(b, c, d), a, b, x[1], 0xf61e2562, 5);
    d := Step(ops, ops.g(a, b, c), d, a, x[6], 0xc040b340, 9);
    c := Step(ops, ops.g(d, a, b), c, d, x[11], 0x265e5a51, 14);
    b := Step(ops, ops.g(c, d, a), b, c, x[0], 0xe9b6c7aa, 20);
    assert State(a, b, c, d) == Four(ops, 16, State(a0, b0, c0, d0), x);
    ghost var a1, b1, c1, d1 := a, b, c, d;
    a := Step(ops, ops.g(b, c, d), a, b, x[5], 0xd62f105d, 5);
    d := Step(ops, ops.g(a, b, c), d, a, x[10], 0x02441453, 9);
    c := Step(ops, ops.g(d, a, b), c, d, x[15], 0xd8a1e681, 14);
    b := Step(ops, ops.g(c, d, a), b, c, x[4], 0xe7d3fbc8, 20);
    assert State(a, b, c, d) == Four(ops, 20, State(a1, b1, c1, d1), x);
    ghost var a2, b2, c2, d2 := a, b, c, d;
    a := Step(ops, ops.g(b, c, d), a, b, x[9], 0x21e1cde6, 5);
    d := Step(ops, ops.g(a, b, c), d, a, x[14], 0xc33707d6, 9);
    c := Step(ops, ops.g(d, a, b), c, d, x[3], 0xf4d50d87, 14);
    b := Step(ops, ops.g(c, d, a), b, c, x[8], 0x455a14ed, 20);
    assert State(a, b, c, d) == Four(ops, 24, State(a2, b2, c2, d2), x);
    ghost var a3, b3, c3, d3 := a, b, c, d;
    a := Step(ops, ops.g(b, c, d), a, b, x[13], 0xa9e3e905, 5);
    d := Step(ops, ops.g(a, b, c), d, a, x[2], 0xfcefa3f8, 9);
    c := Step(ops, ops.g(d, a, b), c, d, x[7], 0x676f02d9, 14);
    b := Step(ops, ops.g(c, d, a), b, c, x[12], 0x8d2a4c8a, 20);
    assert State(a, b, c, d) == Four(ops, 28, State(a3, b3, c3, d3), x);
  }

  method RoundThree<W>(ops: Arithmetic<W>, x: seq<W>, a0: W, b0: W, c0: W, d0: W) returns (a: W, b: W, c: W, d: W)
    requires |x| == 16
    ensures State(a, b, c, d) == Sixteen(ops, 32, State(a0, b0, c0, d0), x)
  {
    a, b, c, d := a0, b0, c0, d0;
    a := Step(ops, ops.h(b, c, d), a, b, x[5], 0xfffa3942, 4);
    d := Step(ops, ops.h(a, b, c), d, a, x[8], 0x8771f681, 11);
    c := Step(ops, ops.h(d, a, b), c, d, x[11], 0x6d9d6122, 16);
    b := Step(ops, ops.h(c, d, a), b, c, x[14], 0xfde5380c, 23);
    assert State(a, b, c, d) == Four(ops, 32, State(a0, b0, c0, d0), x);
    ghost var a1, b1, c1, d1 := a, b, c, d;
    a := Step(ops, ops.h(b, c, d), a, b, x[1], 0xa4beea44, 4);
    d := Step(ops, ops.h(a, b, c), d, a, x[4], 0x4bdecfa9, 11);
    c := Step(ops, ops.h(d, a, b), c, d, x[7], 0xf6bb4b60, 16);
    b := Step(ops, ops.h(c, d, a), b, c, x[10], 0xbebfbc70, 23);
    assert State(a, b, c, d) == Four(ops, 36, State(a1, b1, c1, d1), x);
    ghost var a2, b2, c2, d2 := a, b, c, d;
    a := Step(ops, ops.h(b, c, d), a, b, x[13], 0x289b7ec6, 4);
    d := Step(ops, ops.h(a, b, c), d, a, x[0], 0xeaa127fa, 11);
    c := Step(ops, ops.h(d, a, b), c, d, x[3], 0xd4ef3085, 16);
    b := Step(ops, ops.h(c, d, a), b, c, x[6], 0x04881d05, 23);
    assert State(a, b, c, d) == Four(ops, 40, State(a2, b2, c2, d2), x);
    ghost var a3, b3, c3, d3 := a, b, c, d;
    a := Step(ops, ops.h(b, c, d), a, b, x[9], 0xd9d4d039, 4);
    d := Step(ops, ops.h(a, b, c), d, a, x[12], 0xe6db99e5, 11);
    c := Step(ops, ops.h(d, a, b), c, d, x[15], 0x1fa27cf8, 16);
    b := Step(ops, ops.h(c, d, a), b, c, x[2], 0xc4ac5665, 23);
    assert State(a, b, c, d) == Four(ops, 44, State(a3, b3, c3, d3), x);
  }

  method RoundFour<W>(ops: Arithmetic<W>, x: seq<W>, a0: W, b0: W, c0: W, d0: W) returns (a: W, b: W, c: W, d: W)
    requires |x| == 16
    ensures State(a, b, c, d) == Sixteen(ops, 48, State(a0, b0, c0, d0), x)
  {
    a, b, c, d := a0, b0, c0, d0;
    a := Step(ops, ops.i(b, c, d), a, b, x[0], 0xf4292244, 6);
    d := Step(ops, ops.i(a, b, c), d, a, x[7], 0x432aff97, 10);
    c := Step(ops, ops.i(d, a, b), c, d, x[14], 0xab9423a7, 15);
    b := Step(ops, ops.i(c, d, a), b, c, x[5], 0xfc93a039, 21);
    assert State(a, b, c, d) == Four(ops, 48, State(a0, b0, c0, d0), x);
    ghost var a1, b1, c1, d1 := a, b, c, d;
    a := Step(ops, ops.i(b, c, d), a, b, x[12], 0x655b59c3, 6);
    d := Step(ops, ops.i(a, b, c), d, a, x[3], 0x8f0ccc92, 10);
    c := Step(ops, ops.i(d, a, b), c, d, x[10], 0xffeff47d, 15);
    b := Step(ops, ops.i(c, d, a), b, c, x[1], 0x85845dd1, 21);
    assert State(a, b, c, d) == Four(ops, 52, State(a1, b1, c1, d1), x);
    ghost var a2, b2, c2, d2 := a, b, c, d;
    a := Step(ops, ops.i(b, c, d), a, b, x[8], 0x6fa87e4f, 6);
    d := Step(ops, ops.i(a, b, c), d, a, x[15], 0xfe2ce6e0, 10);
    c := Step(ops, ops.i(d, a, b), c, d, x[6], 0xa3014314, 15);
    b := Step(ops, ops.i(c, d, a), b, c, x[13], 0x4e0811a1, 21);
    assert State(a, b, c, d) == Four(ops, 56, State(a2, b2, c2, d2), x);
    ghost var a3, b3, c3, d3 := a, b, c, d;
    a := Step(ops, ops.i(b, c, d), a, b, x[4], 0xf7537e82, 6);
    d := Step(ops, ops.i(a, b, c), d, a, x[11], 0xbd3af235, 10);
    c := Step(ops, ops.i(d, a, b), c, d, x[2], 0x2ad7d2bb, 15);
    b := Step(ops, ops.i(c, d, a), b, c, x[9], 0xeb86d391, 21);
    assert State(a, b, c, d) == Four(ops, 60, State(a3, b3, c3, d3), x);
  }

  // MD5Transform
  method UnrolledTransform<W>(ops: Arithmetic<W>, s: State<W>, x: seq<W>) returns (r: State<W>)
    requires |x| == 16
    ensures r == Transform(ops, s, x)
  {
    hide Operation;
    var a, b, c, d := s.a, s.b, s.c, s.d;
    a, b, c, d := RoundOne(ops, x, a, b, c, d);
    a, b, c, d := RoundTwo(ops, x, a, b, c, d);
    a, b, c, d := RoundThree(ops, x, a, b, c, d);
    a, b, c, d := RoundFour(ops, x, a, b, c, d);
    SixtyFourOperations(ops, 0, s, x);
    r := State(ops.add(s.a, a), ops.add(s.b, b), ops.add(s.c, c), ops.add(s.d, d));
  }
}
