// The MD5 context: a message given in pieces of any length, a buffer of one block, and a
// bit counter of two 32-bit words.
//
// Sections 3.1 and 3.2 of RFC 1321 pad the whole message and section 3.4 processes it block
// by block; the context never sees the whole message, and its digest is that one.
module Md5 {
  import opened Md5Rounds
  import opened Md5Words

  const TWO32: nat := 0x1_0000_0000
  const TWO64: nat := 0x1_0000_0000_0000_0000

  // ---------- RFC 1321 ----------

  // Section 3.3
  function InitialState(): State<bv32> {
    State(0x67452301, 0xefcdab89, 0x98badcfe, 0x10325476)
  }

  // Section 3.4: the registers once every block of m is processed.
  function Chained(m: seq<Byte>): State<bv32>
    requires |m| % 64 == 0
  {
    if |m| == 0 then InitialState() else Compress(Chained(m[..|m| - 64]), m[|m| - 64..])
  }

  function Zeros(n: nat): (z: seq<Byte>)
    ensures |z| == n
  {
    seq(n, _ => 0)
  }

  // The low n bytes of w, low byte first.
  function LittleEndian(w: nat, n: nat): (b: seq<Byte>)
    ensures |b| == n
  {
    if n == 0 then [] else [ByteAt(w, 1)] + LittleEndian(w / 0x100, n - 1)
  }

  // Section 3.1: one bit, then as few zero bits as make the length 448 modulo 512.
  // Section 3.2: the bit length of the message modulo 2^64.
  function Padded(m: seq<Byte>): (p: seq<Byte>)
    ensures |p| % 64 == 0
  {
    PaddedLength(|m|);
    m + [0x80] + Zeros((119 - |m| % 64) % 64) + LittleEndian(8 * |m| % TWO64, 8)
  }

  lemma PaddedLength(n: nat)
    ensures (n + 1 + (119 - n % 64) % 64 + 8) % 64 == 0
  {
    var q := n / 64 + if n % 64 <= 55 then 1 else 2;
    assert (119 - n % 64) % 64 == if n % 64 <= 55 then 55 - n % 64 else 119 - n % 64;
    assert n + 1 + (119 - n % 64) % 64 + 8 == 0 + 64 * q;
    Modulo(0, q, 64);
  }

  // Section 3.5
  function Output(s: State<bv32>): seq<Byte> {
    BytesOf(s.a as nat) + BytesOf(s.b as nat) + BytesOf(s.c as nat) + BytesOf(s.d as nat)
  }

  function Digest(m: seq<Byte>): seq<Byte> {
    Output(Chained(Padded(m)))
  }

  // ---------- the blocks of a message ----------

  // The whole blocks of m, and what is left over.
  function Whole(m: seq<Byte>): (w: seq<Byte>)
    ensures |w| % 64 == 0
  {
    m[..|m| - |m| % 64]
  }

  function Rest(m: seq<Byte>): (r: seq<Byte>)
    ensures |r| == |m| % 64
  {
    m[|m| - |m| % 64..]
  }

  lemma ChainedBlock(m: seq<Byte>, block: seq<Byte>)
    requires |m| % 64 == 0 && |block| == 64
    ensures Chained(m + block) == Compress(Chained(m), block)
  {
    assert (m + block)[..|m + block| - 64] == m;
    assert (m + block)[|m + block| - 64..] == block;
  }

  // Bytes that do not fill the block change the rest only.
  lemma RestGrows(m: seq<Byte>, more: seq<Byte>)
    requires |m| % 64 + |more| < 64
    ensures Whole(m + more) == Whole(m) && Rest(m + more) == Rest(m) + more
  {
    Remainder(|m|, |more|);
  }

  lemma Remainder(n: nat, k: nat)
    requires n % 64 + k < 64
    ensures (n + k) % 64 == n % 64 + k
  {}

  // Bytes that fill it make one more whole block.
  lemma RestFills(m: seq<Byte>, more: seq<Byte>)
    requires |m| % 64 + |more| == 64
    ensures Rest(m + more) == []
    ensures Whole(m + more) == m + more == Whole(m) + (Rest(m) + more)
  {
    Filled(|m|, |more|);
    assert m == Whole(m) + Rest(m);
  }

  lemma Filled(n: nat, k: nat)
    requires n % 64 + k == 64
    ensures (n + k) % 64 == 0
  {}

  // ---------- the counter ----------

  // Adding a length in bytes to the two words, with the carry the program looks for.
  lemma CounterAdds(low: nat, high: nat, n: nat, low': nat, high': nat)
    requires low < TWO32 && high < TWO32 && n < TWO32
    requires low' == (low + 8 * n % TWO32) % TWO32
    requires high' == ((if low' < low then (high + 1) % TWO32 else high) + n / 0x2000_0000) % TWO32
    ensures low' + TWO32 * high' == (low + TWO32 * high + 8 * n) % TWO64
  {
    var part, carry := 8 * n % TWO32, if low' < low then 1 else 0;
    Carry(low, part, low');
    Parts(n);
    var total := high + carry + n / 0x2000_0000;
    ModuloOfSum(high + carry, n / 0x2000_0000, TWO32);
    assert high' == total % TWO32;
    assert low + TWO32 * high + 8 * n == low' + TWO32 * total;
    assert total == high' + TWO32 * (total / TWO32);
    assert low + TWO32 * high + 8 * n == (low' + TWO32 * high') + TWO64 * (total / TWO32);
    Modulo(low' + TWO32 * high', total / TWO32, TWO64);
  }

  lemma Carry(low: nat, part: nat, low': nat)
    requires low < TWO32 && part < TWO32 && low' == (low + part) % TWO32
    ensures low + part == low' + TWO32 * if low' < low then 1 else 0
  {}

  lemma Parts(n: nat)
    ensures 8 * n == 8 * n % TWO32 + TWO32 * (n / 0x2000_0000)
  {}

  lemma Modulo(r: nat, q: nat, m: nat)
    requires r < m
    ensures (r + m * q) % m == r
  {
    var x := r + m * q;
    var d := x / m - q;
    assert x == m * (x / m) + x % m;
    assert m * d == r - x % m;
    assert d >= 1 ==> m * d >= m;
    assert d <= -1 ==> m * d + m <= 0;
  }

  lemma ModuloOfSum(a: nat, b: nat, m: nat)
    requires m > 0
    ensures (a % m + b) % m == (a + b) % m
  {
    var r := (a % m + b) % m;
    var q, p := (a % m + b) / m, a / m;
    assert a + b == r + m * (p + q) by {
      assert a == m * p + a % m;
      assert a % m + b == m * q + r;
      assert m * (p + q) == m * p + m * q;
    }
    Modulo(r, p + q, m);
  }

  // The counter also says how much of the block is filled.
  lemma CounterTellsFill(low: nat, high: nat, n: nat)
    requires low < TWO32 && low + TWO32 * high == 8 * n % TWO64
    ensures low / 8 % 64 == n % 64
  {
    var q := 8 * n / TWO64;
    assert 8 * n == low + TWO32 * high + TWO64 * q;
    var above := 0x80_0000 * high + 0x80_0000_0000_0000 * q;
    assert 8 * n == low + 512 * above;
    Eighth(low, above, n);
    ModuloOfSum(64 * above, low / 8, 64);
    Modulo(0, above, 64);
  }

  lemma Eighth(low: nat, above: nat, n: nat)
    requires 8 * n == low + 512 * above
    ensures n == 64 * above + low / 8
  {}

  lemma CounterBytes(low: nat, high: nat)
    requires low < TWO32 && high < TWO32
    ensures BytesOf(low) + BytesOf(high) == LittleEndian(low + TWO32 * high, 8)
  {
    FourBytes(low, high, 4);
    FourBytes(high, 0, 0);
  }

  lemma FourBytes(low: nat, high: nat, n: nat)
    requires low < TWO32
    ensures LittleEndian(low + TWO32 * high, n + 4) == BytesOf(low) + LittleEndian(high, n)
  {
    hide ByteAt, LittleEndian;
    var w := low + TWO32 * high;
    var w1, w2, w3 := low / 0x100 + 0x100_0000 * high, low / 0x1_0000 + 0x1_0000 * high, low / 0x100_0000 + 0x100 * high;
    Shifted(low, high);
    LittleEndianStep(w, w1, n + 3);
    LittleEndianStep(w1, w2, n + 2);
    LittleEndianStep(w2, w3, n + 1);
    LittleEndianStep(w3, high, n);
  }

  lemma LittleEndianStep(w: nat, v: nat, n: nat)
    requires w / 0x100 == v
    ensures LittleEndian(w, n + 1) == [ByteAt(w, 1)] + LittleEndian(v, n)
  {}

  lemma Shifted(low: nat, high: nat)
    requires low < TWO32
    ensures
      var w := low + TWO32 * high;
      var w1, w2, w3 := low / 0x100 + 0x100_0000 * high, low / 0x1_0000 + 0x1_0000 * high, low / 0x100_0000 + 0x100 * high;
      && w / 0x100 == w1 && w1 / 0x100 == w2 && w2 / 0x100 == w3 && w3 / 0x100 == high
      && ByteAt(w, 1) == ByteAt(low, 1) && ByteAt(w1, 1) == ByteAt(low, 0x100)
      && ByteAt(w2, 1) == ByteAt(low, 0x1_0000) && ByteAt(w3, 1) == ByteAt(low, 0x100_0000)
  {
    DropByte(low, 0x100_0000 * high);
    DropByte(low / 0x100, 0x1_0000 * high);
    DropByte(low / 0x1_0000, 0x100 * high);
    DropByte(low / 0x100_0000, high);
    DropBytes(low);
  }

  lemma DropByte(low: nat, above: nat)
    ensures (low + 0x100 * above) / 0x100 == low / 0x100 + above
    ensures ByteAt(low + 0x100 * above, 1) == ByteAt(low, 1)
  {}

  lemma DropBytes(low: nat)
    ensures low / 0x100 / 0x100 == low / 0x1_0000 && low / 0x1_0000 / 0x100 == low / 0x100_0000
    ensures low < TWO32 ==> low / 0x100_0000 / 0x100 == 0
  {}

  // ---------- the last blocks ----------

  // The end of the message with its padding fills a block of its own, or else leaves room
  // for the length in the last one.
  function EndBlock(m: seq<Byte>): (block: seq<Byte>)
    requires |m| % 64 > 55
    ensures |block| == 64
  {
    Rest(m) + [0x80] + Zeros(63 - |m| % 64)
  }

  function LastStart(m: seq<Byte>): (start: seq<Byte>)
    ensures |start| == 56
  {
    if |m| % 64 > 55 then Zeros(56) else Rest(m) + [0x80] + Zeros(55 - |m| % 64)
  }

  function LastBlock(m: seq<Byte>): (block: seq<Byte>)
    ensures |block| == 64
  {
    LastStart(m) + LittleEndian(8 * |m| % TWO64, 8)
  }

  function BeforeLast(m: seq<Byte>): State<bv32> {
    if |m| % 64 > 55 then Compress(Chained(Whole(m)), EndBlock(m)) else Chained(Whole(m))
  }

  lemma LastBlocks(m: seq<Byte>)
    ensures Chained(Padded(m)) == Compress(BeforeLast(m), LastBlock(m))
  {
    hide Compress, Chained, Padded, LittleEndian, LastBlock, Whole, Rest, EndBlock;
    if |m| % 64 > 55 {
      PaddedLong(m);
      ChainedBlock(Whole(m), EndBlock(m));
      ChainedBlock(Whole(m) + EndBlock(m), LastBlock(m));
    } else {
      PaddedShort(m);
      ChainedBlock(Whole(m), LastBlock(m));
    }
  }

  lemma PaddedLong(m: seq<Byte>)
    requires |m| % 64 > 55
    ensures Padded(m) == (Whole(m) + EndBlock(m)) + LastBlock(m)
  {
    hide LittleEndian;
    var t := |m| % 64;
    assert (119 - t) % 64 == (63 - t) + 56;
    ZerosJoin(63 - t, 56);
    assert m == Whole(m) + Rest(m);
    RegroupTwo(Whole(m), Rest(m), [0x80], Zeros(63 - t), Zeros(56), LittleEndian(8 * |m| % TWO64, 8));
  }

  lemma PaddedShort(m: seq<Byte>)
    requires |m| % 64 <= 55
    ensures Padded(m) == Whole(m) + LastBlock(m)
  {
    hide LittleEndian;
    assert (119 - |m| % 64) % 64 == 55 - |m| % 64;
    Regroup(Whole(m), Rest(m), [0x80], Zeros(55 - |m| % 64), LittleEndian(8 * |m| % TWO64, 8));
    assert m == Whole(m) + Rest(m);
  }

  lemma ZerosJoin(n: nat, k: nat)
    ensures Zeros(n) + Zeros(k) == Zeros(n + k)
  {}

  lemma Regroup<T>(a: seq<T>, b: seq<T>, c: seq<T>, d: seq<T>, e: seq<T>)
    ensures (a + b) + c + d + e == a + (b + c + d + e)
  {}

  lemma RegroupTwo<T>(a: seq<T>, b: seq<T>, c: seq<T>, d: seq<T>, e: seq<T>, f: seq<T>)
    ensures (a + b) + c + (d + e) + f == (a + (b + c + d)) + (e + f)
  {}

  // ---------- MD5_CTX ----------

  class Context {
    var low: nat
    var high: nat
    var buf: State<bv32>
    const block: array<Byte>
    ghost var message: seq<Byte>

    ghost predicate Valid()
      reads this, block
    {
      && block.Length == 64
      && low < TWO32 && high < TWO32
      && low + TWO32 * high == 8 * |message| % TWO64
      && buf == Chained(Whole(message))
      && block[..|message| % 64] == Rest(message)
    }

    // MD5Init
    constructor ()
      ensures Valid() && fresh(block) && message == []
    {
      hide Compress;
      low, high, buf := 0, 0, InitialState();
      block := new Byte[64](_ => 0);
      message := [];
    }

    // memcpy into the block
    method Copy(at: nat, data: seq<Byte>)
      requires block.Length == 64 && at + |data| <= 64
      modifies block
      ensures block[..] == old(block[..at]) + data + old(block[at + |data|..])
    {
      var k := 0;
      while k < |data|
        invariant k <= |data|
        invariant block[..] == old(block[..at]) + data[..k] + old(block[at + k..])
      {
        block[at + k] := data[k];
        k := k + 1;
      }
    }

    // MD5Update, of fewer than 2^32 bytes.
    method Update(input: seq<Byte>)
      requires Valid() && |input| < TWO32
      modifies this, block
      ensures Valid() && message == old(message) + input
    {
      hide Compress;
      ghost var m := message;
      var filled := low / 8 % 64;
      CounterTellsFill(low, high, |m|);
      low, high := Counted(low, high, |input|, |m|);
      message := m + input;
      if filled > 0 && |input| < 64 - filled {
        Copy(filled, input);
        RestGrows(m, input);
        return;
      }
      if filled > 0 {
        Fill(filled, input[..64 - filled], m);
        assert m + input == (m + input[..64 - filled]) + input[64 - filled..];
        Blocks(input[64 - filled..], m + input[..64 - filled]);
      } else {
        assert Whole(m) == m;
        Blocks(input, m);
      }
    }

    // Bytes that fill the block.
    method Fill(filled: nat, lead: seq<Byte>, ghost m: seq<Byte>)
      requires block.Length == 64 && filled == |m| % 64 && filled + |lead| == 64
      requires block[..filled] == Rest(m) && buf == Chained(Whole(m))
      modifies this`buf, block
      ensures |m + lead| % 64 == 0 && buf == Chained(m + lead)
    {
      hide Compress, Chained;
      Copy(filled, lead);
      RestFills(m, lead);
      ChainedBlock(Whole(m), Rest(m) + lead);
      Filled(|m|, |lead|);
      assert block[..] == Rest(m) + lead;
      buf := TransformBlock(buf, block[..]);
    }

    // Whole blocks, and what is left.
    method Blocks(input: seq<Byte>, ghost m: seq<Byte>)
      requires block.Length == 64 && |m| % 64 == 0 && buf == Chained(m)
      modifies this`buf, block
      ensures buf == Chained(Whole(m + input))
      ensures block[..|m + input| % 64] == Rest(m + input)
    {
      hide Compress;
      var rest := input;
      ghost var done := m;
      while |rest| >= 64
        invariant |done| % 64 == 0 && buf == Chained(done) && done + rest == m + input
      {
        Copy(0, rest[..64]);
        assert block[..] == rest[..64];
        ChainedBlock(done, rest[..64]);
        assert done + rest == (done + rest[..64]) + rest[64..];
        buf := TransformBlock(buf, block[..]);
        done := done + rest[..64];
        rest := rest[64..];
      }
      Copy(0, rest);
      Split(done, rest);
      assert block[..|rest|] == rest;
    }

    // MD5Final
    method Final() returns (digest: seq<Byte>)
      requires Valid()
      modifies this, block
      ensures digest == Digest(old(message))
    {
      hide Compress, Chained, Padded, LittleEndian;
      ghost var m := message;
      CounterTellsFill(low, high, |m|);
      CounterBytes(low, high);
      Pad(low / 8 % 64, m);
      Copy(56, BytesOf(low) + BytesOf(high));
      assert block[..] == LastBlock(m);
      buf := TransformBlock(buf, block[..]);
      LastBlocks(m);
      digest := Output(buf);
    }

    method Pad(count: nat, ghost m: seq<Byte>)
      requires block.Length == 64 && count == |m| % 64 && block[..count] == Rest(m) && buf == Chained(Whole(m))
      modifies this`buf, block
      ensures block[..56] == LastStart(m) && buf == BeforeLast(m)
    {
      hide Compress, Chained;
      Copy(count, [0x80]);
      if 63 - count < 8 {
        Copy(count + 1, Zeros(63 - count));
        EndIs(block[..], m);
        buf := TransformBlock(buf, block[..]);
        Copy(0, Zeros(56));
      } else {
        Copy(count + 1, Zeros(63 - count - 8));
        StartIs(block[..56], m);
      }
    }
  }

  lemma EndIs(block: seq<Byte>, m: seq<Byte>)
    requires |m| % 64 > 55 && |block| == 64
    requires block[..|m| % 64] == Rest(m) && block[|m| % 64] == 0x80
    requires block[|m| % 64 + 1..] == Zeros(63 - |m| % 64)
    ensures block == EndBlock(m)
  {}

  lemma StartIs(start: seq<Byte>, m: seq<Byte>)
    requires |m| % 64 <= 55 && |start| == 56
    requires start[..|m| % 64] == Rest(m) && start[|m| % 64] == 0x80
    requires start[|m| % 64 + 1..] == Zeros(55 - |m| % 64)
    ensures start == LastStart(m)
  {}

  lemma Split(done: seq<Byte>, rest: seq<Byte>)
    requires |done| % 64 == 0 && |rest| < 64
    ensures |done + rest| % 64 == |rest| && Whole(done + rest) == done && Rest(done + rest) == rest
  {
    Remainder(|done|, |rest|);
  }

  // The counter takes a length in bytes.
  method Counted(low: nat, high: nat, length: nat, ghost n: nat) returns (low': nat, high': nat)
    requires low < TWO32 && high < TWO32 && length < TWO32
    requires low + TWO32 * high == 8 * n % TWO64
    ensures low' < TWO32 && high' < TWO32
    ensures low' + TWO32 * high' == 8 * (n + length) % TWO64
  {
    low' := (low + 8 * length % TWO32) % TWO32;
    high' := if low' < low then (high + 1) % TWO32 else high;
    high' := (high' + length / 0x2000_0000) % TWO32;
    CounterAdds(low, high, length, low', high');
    CounterCounts(low + TWO32 * high, n, length);
  }

  lemma CounterCounts(counter: nat, n: nat, length: nat)
    requires counter == 8 * n % TWO64
    ensures (counter + 8 * length) % TWO64 == 8 * (n + length) % TWO64
  {
    ModuloOfSum(8 * n, 8 * length, TWO64);
    assert 8 * n + 8 * length == 8 * (n + length);
  }

  // ---------- any split of a message ----------

  function Joined(pieces: seq<seq<Byte>>): seq<Byte> {
    if |pieces| == 0 then [] else Joined(pieces[..|pieces| - 1]) + pieces[|pieces| - 1]
  }

  method DigestOfPieces(pieces: seq<seq<Byte>>) returns (digest: seq<Byte>)
    requires forall k :: 0 <= k < |pieces| ==> |pieces[k]| < TWO32
    ensures digest == Digest(Joined(pieces))
  {
    hide Compress;
    var context := new Context();
    var k := 0;
    while k < |pieces|
      invariant k <= |pieces| && context.Valid() && context.message == Joined(pieces[..k])
      invariant fresh(context) && fresh(context.block)
    {
      assert pieces[..k + 1][..k] == pieces[..k];
      context.Update(pieces[k]);
      k := k + 1;
    }
    assert pieces[..k] == pieces;
    digest := context.Final();
  }
}
