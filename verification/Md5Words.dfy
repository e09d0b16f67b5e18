// The block transform of MD5 on words of 32 bits.
//
// The program computes the first two mixing functions with one operation fewer than section
// 3.4 of RFC 1321 defines them. They agree on every triple of words, so its transform is the
// transform of the standard.
module Md5Words {
  import opened Md5Rounds

  type Byte = b: nat | b < 256

  // ---------- RFC 1321, section 3.4 ----------

  function F(x: bv32, y: bv32, z: bv32): bv32 { (x & y) | (!x & z) }
  function G(x: bv32, y: bv32, z: bv32): bv32 { (x & z) | (y & !z) }
  function H(x: bv32, y: bv32, z: bv32): bv32 { x ^ y ^ z }
  function I(x: bv32, y: bv32, z: bv32): bv32 { y ^ (x | !z) }

  function Add(x: bv32, y: bv32): bv32 { x + y }

  function RotateLeft(x: bv32, s: nat): bv32 {
    if 0 < s < 32 then (x << s) | (x >> (32 - s)) else x
  }

  // No constant is wider than a word.
  function Constant(n: nat): bv32 { if n < 0x1_0000_0000 then n as bv32 else 0 }

  function Standard(): Arithmetic<bv32> {
    Arithmetic(Add, F, G, H, I, RotateLeft, Constant)
  }

  // ---------- the program's mixing functions ----------

  function F1(x: bv32, y: bv32, z: bv32): bv32 { z ^ (x & (y ^ z)) }
  function F2(x: bv32, y: bv32, z: bv32): bv32 { F1(z, x, y) }

  lemma SelectAgrees(x: bv32, y: bv32, z: bv32)
    ensures F1(x, y, z) == F(x, y, z)
  {
    assert z ^ (x & (y ^ z)) == (x & y) | (!x & z);
  }

  lemma MajorAgrees(x: bv32, y: bv32, z: bv32)
    ensures F2(x, y, z) == G(x, y, z)
  {
    assert y ^ (z & (x ^ y)) == (x & z) | (y & !z);
  }

  function Program(): Arithmetic<bv32> {
    Standard().(f := F1, g := F2)
  }

  // ---------- the two transforms ----------

  lemma OperationAgrees(i: nat, s: State<bv32>, x: seq<bv32>)
    requires |x| == 16
    ensures Operation(Program(), i, s, x) == Operation(Standard(), i, s, x)
  {
    hide Sine, Word, Shift, RotateLeft, F1, F2, F, G;
    SelectAgrees(s.b, s.c, s.d);
    MajorAgrees(s.b, s.c, s.d);
    assert Mix(Program(), i, s.b, s.c, s.d) == Mix(Standard(), i, s.b, s.c, s.d);
  }

  lemma {:induction false} OperationsAgree(n: nat, s: State<bv32>, x: seq<bv32>)
    requires |x| == 16
    ensures Operations(Program(), n, s, x) == Operations(Standard(), n, s, x)
  {
    hide Operation, Sine, Word, Shift, Mix;
    if n > 0 {
      OperationsAgree(n - 1, s, x);
      OperationAgrees(n - 1, Operations(Standard(), n - 1, s, x), x);
    }
  }

  // Four bytes as a word and a word as four bytes, low byte first.
  function WordOf(b: seq<Byte>): (w: nat)
    requires |b| == 4
    ensures w < 0x1_0000_0000
  {
    var b0: nat, b1: nat, b2: nat, b3: nat := b[0], b[1], b[2], b[3];
    b0 + 0x100 * b1 + 0x1_0000 * b2 + 0x100_0000 * b3
  }

  function ByteAt(w: nat, unit: nat): Byte
    requires unit > 0
  {
    var b: nat := w / unit % 0x100;
    b
  }

  function BytesOf(w: nat): (b: seq<Byte>)
    ensures |b| == 4
  {
    [ByteAt(w, 1), ByteAt(w, 0x100), ByteAt(w, 0x1_0000), ByteAt(w, 0x100_0000)]
  }

  function Words(block: seq<Byte>): (x: seq<bv32>)
    requires |block| == 64
    ensures |x| == 16
  {
    seq(16, k requires 0 <= k < 16 => WordOf(block[4 * k..4 * k + 4]) as bv32)
  }

  // What processing one block of 64 bytes makes of the four registers.
  function Compress(s: State<bv32>, block: seq<Byte>): State<bv32>
    requires |block| == 64
  {
    Transform(Standard(), s, Words(block))
  }

  // MD5Transform
  method TransformBlock(s: State<bv32>, block: seq<Byte>) returns (r: State<bv32>)
    requires |block| == 64
    ensures r == Compress(s, block)
  {
    r := UnrolledTransform(Program(), s, Words(block));
    OperationsAgree(64, s, Words(block));
  }
}
