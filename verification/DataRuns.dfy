// NTFS data runs: a byte with two widths, a length, and a signed distance from the run
// before; a zero byte ends the list.
module DataRuns {

  const TWO63: nat := 0x8000_0000_0000_0000
  const TWO64: nat := 0x1_0000_0000_0000_0000

  // A run as it is written: with a width of 0 for the distance it is a sparse one.
  datatype Run = Run(length: nat, lengthBytes: nat, delta: int, deltaBytes: nat)

  datatype End = Finished | Corrupt | Cut

  datatype Listed = Listed(runs: seq<Run>, end: End)

  datatype Entry = Entry(sectorOffset: nat, lengthInSectors: nat)

  ghost predicate Bytes(b: seq<nat>) {
    forall k :: 0 <= k < |b| ==> b[k] < 256
  }

  // ---------- numbers as bytes ----------

  function Range(n: nat): (r: nat)
    ensures r >= 1
  {
    if n == 0 then 1 else 256 * Range(n - 1)
  }

  // Low byte first.
  function Little(b: seq<nat>): nat {
    if |b| == 0 then 0 else b[0] + 256 * Little(b[1..])
  }

  function ToLittle(x: nat, n: nat): (b: seq<nat>)
    ensures |b| == n && Bytes(b)
  {
    if n == 0 then [] else [x % 256] + ToLittle(x / 256, n - 1)
  }

  lemma {:induction false} LittleReturns(x: nat, n: nat)
    requires x < Range(n)
    ensures Little(ToLittle(x, n)) == x
  {
    if n > 0 {
      Shrinks(x, Range(n - 1));
      LittleReturns(x / 256, n - 1);
      var b := ToLittle(x, n);
      assert b[1..] == ToLittle(x / 256, n - 1);
    }
  }

  lemma Shrinks(x: nat, r: nat)
    requires x < 256 * r
    ensures x / 256 < r
  {}

  lemma {:induction false} BytesReturn(b: seq<nat>)
    requires Bytes(b)
    ensures Little(b) < Range(|b|) && ToLittle(Little(b), |b|) == b
  {
    if |b| > 0 {
      BytesReturn(b[1..]);
      assert b == [b[0]] + b[1..];
      assert Little(b) % 256 == b[0] && Little(b) / 256 == Little(b[1..]);
    }
  }

  // The bytes are copied over a word of all ones when the sign bit of the last one is set.
  function SignedLittle(b: seq<nat>): int {
    if |b| > 0 && b[|b| - 1] >= 0x80 then Little(b) - Range(|b|) else Little(b)
  }

  function ToSignedLittle(d: int, n: nat): (b: seq<nat>)
    requires SignedFits(d, n)
    ensures |b| == n && Bytes(b)
  {
    ToLittle(if d < 0 then d + Range(n) else d, n)
  }

  predicate SignedFits(d: int, n: nat) {
    if n == 0 then d == 0 else 0 <= 2 * d + Range(n) && 2 * d < Range(n)
  }

  // The sign bit tells which half of the range a number is in.
  lemma {:induction false} SignBit(b: seq<nat>)
    requires Bytes(b) && |b| > 0
    ensures b[|b| - 1] >= 0x80 <==> 2 * Little(b) >= Range(|b|)
  {
    BytesReturn(b[1..]);
    if |b| == 1 {
      assert b[1..] == [];
      assert Range(1) == 256;
    } else {
      SignBit(b[1..]);
      HalfRange(|b| - 1);
      TopHalf(b[0], Little(b[1..]), Range(|b| - 1) / 2);
      assert b[1..][|b| - 2] == b[|b| - 1];
    }
  }

  lemma TopHalf(low: nat, above: nat, half: nat)
    requires low < 256
    ensures 2 * (low + 256 * above) >= 256 * (2 * half) <==> 2 * above >= 2 * half
  {}

  lemma HalfRange(n: nat)
    requires n > 0
    ensures Range(n) % 2 == 0
  {
    assert Range(n) == 256 * Range(n - 1);
  }

  lemma SignedReturns(d: int, n: nat)
    requires SignedFits(d, n)
    ensures SignedLittle(ToSignedLittle(d, n)) == d
  {
    var x := if d < 0 then d + Range(n) else d;
    var b := ToSignedLittle(d, n);
    LittleReturns(x, n);
    if n > 0 {
      SignBit(b);
    }
  }

  lemma SignedBytesReturn(b: seq<nat>)
    requires Bytes(b)
    ensures SignedFits(SignedLittle(b), |b|) && ToSignedLittle(SignedLittle(b), |b|) == b
  {
    BytesReturn(b);
    if |b| > 0 {
      SignBit(b);
    }
  }

  // ---------- the list ----------

  ghost predicate Fits(r: Run) {
    && 1 <= r.lengthBytes <= 8 && r.deltaBytes <= 8
    && r.length < Range(r.lengthBytes) && SignedFits(r.delta, r.deltaBytes)
  }

  function Written(r: Run): seq<nat>
    requires Fits(r)
  {
    [16 * r.deltaBytes + r.lengthBytes] + ToLittle(r.length, r.lengthBytes) + ToSignedLittle(r.delta, r.deltaBytes)
  }

  function WrittenAll(runs: seq<Run>): seq<nat>
    requires forall r :: r in runs ==> Fits(r)
  {
    if |runs| == 0 then [] else Written(runs[0]) + WrittenAll(runs[1..])
  }

  // The run at the front, when there is a whole one.
  function Front(b: seq<nat>): (r: Run)
    requires Whole(b)
  {
    var n, m := b[0] % 16, b[0] / 16;
    Run(Little(b[1..1 + n]), n, SignedLittle(b[1 + n..1 + n + m]), m)
  }

  predicate Sound(header: nat) {
    1 <= header % 16 <= 8 && header / 16 <= 8
  }

  predicate Whole(b: seq<nat>) {
    |b| > 0 && Sound(b[0]) && |b| >= 1 + b[0] % 16 + b[0] / 16
  }

  // What bytes list, and how the list ends.
  function Listing(b: seq<nat>): Listed
    decreases |b|
  {
    if |b| == 0 then Listed([], Cut)
    else if b[0] == 0 then Listed([], Finished)
    else if !Sound(b[0]) then Listed([], Corrupt)
    else if !Whole(b) then Listed([], Cut)
    else
      var rest := Listing(b[1 + b[0] % 16 + b[0] / 16..]);
      Listed([Front(b)] + rest.runs, rest.end)
  }

  lemma WrittenFront(r: Run, rest: seq<nat>)
    requires Fits(r)
    ensures
      var b := Written(r) + rest;
      Whole(b) && b[0] != 0 && Front(b) == r && b[1 + b[0] % 16 + b[0] / 16..] == rest
  {
    hide ToLittle, Little, SignedLittle, ToSignedLittle, Range;
    var b, n, m := Written(r) + rest, r.lengthBytes, r.deltaBytes;
    assert b[0] == 16 * m + n && b[0] % 16 == n && b[0] / 16 == m;
    assert b[1..1 + n] == ToLittle(r.length, n);
    assert b[1 + n..1 + n + m] == ToSignedLittle(r.delta, m);
    LittleReturns(r.length, n);
    SignedReturns(r.delta, m);
  }

  lemma ListingStep(b: seq<nat>)
    requires Whole(b) && b[0] != 0
    ensures
      var rest := Listing(b[1 + b[0] % 16 + b[0] / 16..]);
      Listing(b) == Listed([Front(b)] + rest.runs, rest.end)
  {}

  lemma ListingOfZero(rest: seq<nat>)
    ensures Listing([0] + rest) == Listed([], Finished)
  {}

  // Reading undoes writing, in any widths that fit.
  lemma {:induction false} ListingReturns(runs: seq<Run>, rest: seq<nat>)
    requires forall r :: r in runs ==> Fits(r)
    ensures Listing(WrittenAll(runs) + [0] + rest) == Listed(runs, Finished)
  {
    hide Written, Front, Fits, Listing, Whole;
    var b := WrittenAll(runs) + [0] + rest;
    if |runs| == 0 {
      assert b == [0] + rest;
      ListingOfZero(rest);
    } else {
      var after := WrittenAll(runs[1..]) + [0] + rest;
      ListingReturns(runs[1..], rest);
      WrittenFront(runs[0], after);
      assert b == Written(runs[0]) + after;
      ListingStep(b);
    }
  }

  lemma FrontWasWritten(b: seq<nat>)
    requires Bytes(b) && Whole(b)
    ensures Fits(Front(b)) && Written(Front(b)) == b[..1 + b[0] % 16 + b[0] / 16]
  {
    hide ToLittle, Little, SignedLittle, ToSignedLittle, Range, SignedFits;
    var n, m := b[0] % 16, b[0] / 16;
    BytesReturn(b[1..1 + n]);
    SignedBytesReturn(b[1 + n..1 + n + m]);
    assert b[..1 + n + m] == [b[0]] + b[1..1 + n] + b[1 + n..1 + n + m];
  }

  // Whatever reads to the end was written so.
  lemma {:induction false} FinishedWasWritten(b: seq<nat>)
    requires Bytes(b) && Listing(b).end == Finished
    ensures forall r :: r in Listing(b).runs ==> Fits(r)
    ensures
      var w := WrittenAll(Listing(b).runs) + [0];
      |w| <= |b| && b[..|w|] == w
    decreases |b|
  {
    hide Written, Front, Fits, Sound;
    if b[0] != 0 {
      var size := 1 + b[0] % 16 + b[0] / 16;
      var rest, tail := b[size..], Listing(b[size..]).runs;
      FinishedWasWritten(rest);
      FrontWasWritten(b);
      assert Listing(b).runs == [Front(b)] + tail;
      WrittenBefore(b, size, Front(b), tail);
    }
  }

  lemma WrittenBefore(b: seq<nat>, size: nat, r: Run, tail: seq<Run>)
    requires size <= |b| && Fits(r) && Written(r) == b[..size] && forall q :: q in tail ==> Fits(q)
    requires |WrittenAll(tail) + [0]| <= |b[size..]| && b[size..][..|WrittenAll(tail) + [0]|] == WrittenAll(tail) + [0]
    ensures
      var w := WrittenAll([r] + tail) + [0];
      |w| <= |b| && b[..|w|] == w
  {
    hide Written, Fits;
    assert ([r] + tail)[1..] == tail;
    assert b == b[..size] + b[size..];
    assert WrittenAll([r] + tail) + [0] == b[..size] + (WrittenAll(tail) + [0]);
  }

  // ---------- NtfsGetDataRuns ----------

  datatype Stop = Ended(end: End) | BadOffset

  // How far the first n runs go, and how many clusters they hold.
  function Distance(runs: seq<Run>, n: nat): int
    requires n <= |runs|
  {
    if n == 0 then 0 else Distance(runs, n - 1) + runs[n - 1].delta
  }

  function Clusters(runs: seq<Run>, n: nat): nat
    requires n <= |runs|
  {
    if n == 0 then 0 else Clusters(runs, n - 1) + runs[n - 1].length
  }

  predicate InRange(x: int) { 0 <= x < TWO63 }

  // Every one of the first n runs starts where it may.
  ghost predicate AllInRange(runs: seq<Run>, n: nat)
    requires n <= |runs|
  {
    forall k :: 0 <= k <= n ==> InRange(Distance(runs, k))
  }

  // Where the first n runs are, in sectors.
  function Entries(runs: seq<Run>, n: nat, sectorsPerCluster: nat): (entries: seq<Entry>)
    requires n <= |runs| && AllInRange(runs, n)
    ensures |entries| == n
  {
    if n == 0 then []
    else
      Entries(runs, n - 1, sectorsPerCluster)
      + [Entry(Distance(runs, n) * sectorsPerCluster % TWO64, runs[n - 1].length * sectorsPerCluster % TWO64)]
  }

  // A 64-bit sum as a signed number: the one in range that agrees with it modulo 2 to the 64.
  function Signed64(x: int): (r: int)
    ensures -0x8000_0000_0000_0000 <= r < 0x8000_0000_0000_0000 && (x - r) % 0x1_0000_0000_0000_0000 == 0
  {
    if x % TWO64 < TWO63 then x % TWO64 else x % TWO64 - TWO64
  }

  // RtlCopyMemory over the low bytes of a signed word.
  function CopyOver(word: int, bytes: seq<nat>): int {
    word / Range(|bytes|) * Range(|bytes|) + Little(bytes)
  }

  lemma CopiedSigned(bytes: seq<nat>)
    ensures |bytes| > 0 && bytes[|bytes| - 1] >= 0x80 ==> CopyOver(-1, bytes) == SignedLittle(bytes)
    ensures |bytes| == 0 || bytes[|bytes| - 1] < 0x80 ==> CopyOver(0, bytes) == SignedLittle(bytes)
  {
    var r := Range(|bytes|);
    Floor(-1, -1, r - 1, r);
    Floor(0, 0, 0, r);
  }

  lemma Floor(x: int, q: int, m: nat, r: nat)
    requires r > 0 && x == q * r + m && m < r
    ensures x / r == q
  {
    var d := x / r - q;
    assert x == x / r * r + x % r;
    assert d * r == m - x % r;
    assert d >= 1 ==> d * r >= r;
    assert d <= -1 ==> d * r + r <= 0;
  }

  // The wrap-around of the running sum is what its sign check finds.
  lemma SumCheck(absolute: int, delta: int)
    requires InRange(absolute) && 0 <= 2 * delta + TWO64 && 2 * delta < TWO64
    ensures Signed64(absolute + delta) < 0 <==> !InRange(absolute + delta)
    ensures InRange(absolute + delta) ==> Signed64(absolute + delta) == absolute + delta
  {}

  // How the runs go on from where the loop is.
  ghost predicate Progress(b: seq<nat>, offset: nat, done: nat) {
    && offset <= |b| && done <= |Listing(b).runs|
    && Listing(b[offset..]).runs == Listing(b).runs[done..] && Listing(b[offset..]).end == Listing(b).end
  }

  lemma OneMore(b: seq<nat>, offset: nat, done: nat)
    requires Bytes(b) && Progress(b, offset, done) && offset < |b| && b[offset] != 0 && Whole(b[offset..])
    ensures
      var n, m := b[offset] % 16, b[offset] / 16;
      && offset + 1 + n + m <= |b|
      && done < |Listing(b).runs| && Progress(b, offset + 1 + n + m, done + 1)
      && Listing(b).runs[done] == Run(Little(b[offset + 1..offset + 1 + n]), n, SignedLittle(b[offset + 1 + n..offset + 1 + n + m]), m)
      && Fits(Listing(b).runs[done])
  {
    hide Front, Whole, Fits, Listing, Little, SignedLittle;
    FrontAt(b, offset);
    var rest := b[offset..];
    var size := 1 + b[offset] % 16 + b[offset] / 16;
    ListingStep(rest);
    assert rest[0] == b[offset] && rest[size..] == b[offset + size..];
    SuffixStep(Listing(b).runs, done, Front(rest), Listing(rest[size..]).runs);
  }

  lemma SuffixStep<T>(all: seq<T>, done: nat, front: T, tail: seq<T>)
    requires done <= |all| && all[done..] == [front] + tail
    ensures done < |all| && all[done] == front && all[done + 1..] == tail
  {
    assert |all[done..]| == 1 + |tail|;
    assert all[done..][0] == front;
    assert all[done + 1..] == all[done..][1..];
  }

  lemma FrontAt(b: seq<nat>, offset: nat)
    requires Bytes(b) && offset < |b| && Whole(b[offset..])
    ensures Sound(b[offset])
    ensures
      var n, m := b[offset] % 16, b[offset] / 16;
      && offset + 1 + n + m <= |b| && Fits(Front(b[offset..]))
      && Front(b[offset..]) == Run(Little(b[offset + 1..offset + 1 + n]), n, SignedLittle(b[offset + 1 + n..offset + 1 + n + m]), m)
  {
    hide Little, SignedLittle, Range, Fits;
    var rest, n, m := b[offset..], b[offset] % 16, b[offset] / 16;
    assert rest[0] == b[offset];
    assert rest[1..1 + n] == b[offset + 1..offset + 1 + n];
    assert rest[1 + n..1 + n + m] == b[offset + 1 + n..offset + 1 + n + m];
    FrontWasWritten(rest);
  }

  lemma DeltaBound(r: Run)
    requires Fits(r)
    ensures 0 <= 2 * r.delta + TWO64 && 2 * r.delta < TWO64
  {
    RangeBound(r.deltaBytes);
  }

  lemma RangeBound(n: nat)
    requires n <= 8
    ensures Range(n) <= TWO64
    decreases 8 - n
  {
    if n < 8 { RangeGrows(n); RangeBound(n + 1); } else { assert Range(8) == TWO64; }
  }

  lemma RangeGrows(n: nat)
    ensures Range(n) <= Range(n + 1)
  {}

  // One run, copied into words of 64 bits.
  method ReadRun(b: seq<nat>, offset: nat, n: nat, m: nat) returns (length: nat, delta: int)
    requires offset + 1 + n + m <= |b|
    ensures length == Little(b[offset + 1..offset + 1 + n])
    ensures delta == SignedLittle(b[offset + 1 + n..offset + 1 + n + m])
  {
    hide Little, SignedLittle, CopyOver;
    var at := offset + 1;
    length := Little(b[at..at + n]);
    at := at + n;
    var bytes := b[at..at + m];
    CopiedSigned(bytes);
    delta := 0;
    if m != 0 {
      if b[at + m - 1] >= 0x80 {
        delta := -1;
      }
      delta := CopyOver(delta, bytes);
    } else {
      NoBytes(bytes);
    }
  }

  lemma NoBytes(bytes: seq<nat>)
    requires |bytes| == 0
    ensures SignedLittle(bytes) == 0
  {}

  // One more run, when it starts where it may.
  lemma Accepted(runs: seq<Run>, done: nat, sectorsPerCluster: nat, total: nat)
    requires done < |runs| && AllInRange(runs, done) && total == Clusters(runs, done) % TWO64
    ensures Clusters(runs, done + 1) % TWO64 == (total + runs[done].length) % TWO64
    ensures InRange(Distance(runs, done + 1)) ==>
      && AllInRange(runs, done + 1)
      && Entries(runs, done + 1, sectorsPerCluster) ==
           Entries(runs, done, sectorsPerCluster)
           + [Entry(Distance(runs, done + 1) * sectorsPerCluster % TWO64, runs[done].length * sectorsPerCluster % TWO64)]
  {}

  // The entries are the runs up to the first that starts where it may not; the list is
  // read to its end exactly when there is no such run.
  ghost predicate Reads(l: Listed, sectorsPerCluster: nat, entries: seq<Entry>, stop: Stop) {
    && |entries| <= |l.runs| && AllInRange(l.runs, |entries|)
    && entries == Entries(l.runs, |entries|, sectorsPerCluster)
    && (if |entries| < |l.runs| then stop == BadOffset && !InRange(Distance(l.runs, |entries| + 1)) else stop == Ended(l.end))
  }

  method GetDataRuns(b: seq<nat>, sectorsPerCluster: nat, bytesPerSector: nat, allocSize: nat)
      returns (entries: seq<Entry>, stop: Stop, complete: bool)
    requires Bytes(b)
    ensures Reads(Listing(b), sectorsPerCluster, entries, stop)
    ensures stop == Ended(Finished) ==>
      (complete <==> allocSize == Clusters(Listing(b).runs, |entries|) % TWO64 * sectorsPerCluster * bytesPerSector % TWO64)
  {
    hide Listing, Whole, Little, SignedLittle, Signed64, Range, Fits, AllInRange, Entries, Clusters, Progress;
    ghost var runs := Listing(b).runs;
    var offset, absolute, total := 0, 0, 0;
    entries, complete := [], false;
    AtStart(b, sectorsPerCluster);
    while true
      invariant 0 <= offset <= |b| && |entries| <= |runs| && Progress(b, offset, |entries|)
      invariant InRange(absolute) && absolute == Distance(runs, |entries|) && total == Clusters(runs, |entries|) % TWO64
      invariant AllInRange(runs, |entries|) && entries == Entries(runs, |entries|, sectorsPerCluster)
      decreases |b| - offset
    {
      AtEnd(b, offset, |entries|);
      if offset == |b| {
        return entries, Ended(Cut), false;
      }
      var header := b[offset];
      if header == 0 {
        complete := allocSize == total * sectorsPerCluster * bytesPerSector % TWO64;
        return entries, Ended(Finished), complete;
      }
      var n, m := header % 16, header / 16;
      if n == 0 || n > 8 || m > 8 {
        return entries, Ended(Corrupt), false;
      }
      if offset + 1 + n + m > |b| {
        return entries, Ended(Cut), false;
      }
      OneMore(b, offset, |entries|);
      var length, delta := ReadRun(b, offset, n, m);
      DeltaBound(runs[|entries|]);
      SumCheck(absolute, delta);
      Accepted(runs, |entries|, sectorsPerCluster, total);
      total := (total + length) % TWO64;
      absolute := Signed64(absolute + delta);
      if absolute < 0 {
        return entries, BadOffset, false;
      }
      entries := entries + [Entry(absolute * sectorsPerCluster % TWO64, length * sectorsPerCluster % TWO64)];
      offset := offset + 1 + n + m;
    }
  }

  lemma AtStart(b: seq<nat>, sectorsPerCluster: nat)
    ensures
      var runs := Listing(b).runs;
      && Progress(b, 0, 0) && AllInRange(runs, 0) && Entries(runs, 0, sectorsPerCluster) == [] && Clusters(runs, 0) % TWO64 == 0
  {
    assert b[0..] == b && Listing(b).runs[0..] == Listing(b).runs;
  }

  lemma AtEnd(b: seq<nat>, offset: nat, done: nat)
    requires Progress(b, offset, done)
    ensures offset == |b| ==> done == |Listing(b).runs| && Listing(b).end == Cut
    ensures offset < |b| && b[offset] == 0 ==> done == |Listing(b).runs| && Listing(b).end == Finished
    ensures offset < |b| && b[offset] != 0 && !Sound(b[offset]) ==> done == |Listing(b).runs| && Listing(b).end == Corrupt
    ensures offset < |b| && b[offset] != 0 && Sound(b[offset]) && offset + 1 + b[offset] % 16 + b[offset] / 16 > |b| ==>
      done == |Listing(b).runs| && Listing(b).end == Cut
    ensures offset < |b| && Sound(b[offset]) && offset + 1 + b[offset] % 16 + b[offset] / 16 <= |b| ==> Whole(b[offset..])
  {
    assert offset < |b| ==> b[offset..][0] == b[offset];
  }

  // A written list is read back whole exactly when every run starts where it may, and its
  // entries are then the running sums.
  lemma WrittenIsRead(runs: seq<Run>, rest: seq<nat>, sectorsPerCluster: nat, entries: seq<Entry>, stop: Stop)
    requires forall r :: r in runs ==> Fits(r)
    requires Reads(Listing(WrittenAll(runs) + [0] + rest), sectorsPerCluster, entries, stop)
    ensures stop == Ended(Finished) <==> AllInRange(runs, |runs|)
    ensures stop == Ended(Finished) ==> entries == Entries(runs, |runs|, sectorsPerCluster)
  {
    ListingReturns(runs, rest);
  }

  // ---------- absolute starts ----------

  // The runs tell of each start how far it is from the one before.
  ghost predicate Differences(runs: seq<Run>, starts: seq<int>) {
    |runs| == |starts| && forall k :: 0 <= k < |runs| ==> runs[k].delta == starts[k] - (if k == 0 then 0 else starts[k - 1])
  }

  lemma {:induction false} StartsSummed(runs: seq<Run>, starts: seq<int>, n: nat)
    requires Differences(runs, starts) && n <= |runs|
    ensures Distance(runs, n) == if n == 0 then 0 else starts[n - 1]
  {
    if n > 0 {
      StartsSummed(runs, starts, n - 1);
      assert runs[n - 1].delta == starts[n - 1] - (if n == 1 then 0 else starts[n - 2]);
      assert Distance(runs, n - 1) == if n == 1 then 0 else starts[n - 2];
    }
  }

  lemma {:induction false} EntriesAt(runs: seq<Run>, n: nat, sectorsPerCluster: nat, k: nat)
    requires n <= |runs| && AllInRange(runs, n) && k < n
    ensures Entries(runs, n, sectorsPerCluster)[k] ==
      Entry(Distance(runs, k + 1) * sectorsPerCluster % TWO64, runs[k].length * sectorsPerCluster % TWO64)
  {
    if k < n - 1 {
      EntriesAt(runs, n - 1, sectorsPerCluster, k);
    }
  }

  lemma StartsInRange(runs: seq<Run>, starts: seq<int>)
    requires Differences(runs, starts)
    ensures AllInRange(runs, |runs|) <==> forall k :: 0 <= k < |starts| ==> InRange(starts[k])
  {
    forall n | 0 <= n <= |runs| ensures Distance(runs, n) == if n == 0 then 0 else starts[n - 1] {
      StartsSummed(runs, starts, n);
    }
    if AllInRange(runs, |runs|) {
      forall k | 0 <= k < |starts| ensures InRange(starts[k]) {
        assert InRange(Distance(runs, k + 1));
      }
    }
  }

  // A list of absolute starts, written as differences, is read back as those starts if and
  // only if each of them is in range.
  lemma StartsAreRead(runs: seq<Run>, starts: seq<int>, rest: seq<nat>, sectorsPerCluster: nat, entries: seq<Entry>, stop: Stop)
    requires (forall r :: r in runs ==> Fits(r)) && Differences(runs, starts)
    requires Reads(Listing(WrittenAll(runs) + [0] + rest), sectorsPerCluster, entries, stop)
    ensures stop == Ended(Finished) <==> forall k :: 0 <= k < |starts| ==> InRange(starts[k])
    ensures stop == Ended(Finished) ==> |entries| == |starts| && forall k :: 0 <= k < |starts| ==>
      entries[k] == Entry(starts[k] * sectorsPerCluster % TWO64, runs[k].length * sectorsPerCluster % TWO64)
  {
    hide Fits, Listing, WrittenAll, Entries, AllInRange, Reads, Distance;
    StartsInRange(runs, starts);
    WrittenIsRead(runs, rest, sectorsPerCluster, entries, stop);
    if stop == Ended(Finished) {
      EntriesSize(runs, |runs|, sectorsPerCluster);
      forall k | 0 <= k < |starts|
        ensures entries[k] == Entry(starts[k] * sectorsPerCluster % TWO64, runs[k].length * sectorsPerCluster % TWO64)
      {
        StartsSummed(runs, starts, k + 1);
        EntriesAt(runs, |runs|, sectorsPerCluster, k);
      }
    }
  }

  lemma EntriesSize(runs: seq<Run>, n: nat, sectorsPerCluster: nat)
    requires n <= |runs| && AllInRange(runs, n)
    ensures |Entries(runs, n, sectorsPerCluster)| == n
  {}

  // Lengths and distances are stored low byte first: 0x18 clusters from 0x5634 on, then
  // 0x30 clusters from 0x20 below that.
  lemma ListExample()
    ensures Listing([0x21, 0x18, 0x34, 0x56, 0x11, 0x30, 0xe0, 0x00]) ==
      Listed([Run(0x18, 1, 0x5634, 2), Run(0x30, 1, -0x20, 1)], Finished)
  {
    hide Listing, Front, Whole;
    var b, c := [0x21, 0x18, 0x34, 0x56, 0x11, 0x30, 0xe0, 0x00], [0x11, 0x30, 0xe0, 0x00];
    ThreeByteRun(b, 0x18, 0x34, 0x56);
    TwoByteRun(c, 0x30, 0xe0);
    ListingStep(b);
    ListingStep(c);
    assert b[4..] == c && c[3..] == [0x00] + [];
    ListingOfZero([]);
  }

  lemma ThreeByteRun(b: seq<nat>, length: nat, low: nat, high: nat)
    requires |b| >= 4 && b[0] == 0x21 && b[1] == length < 256 && b[2] == low < 256 && b[3] == high < 0x80
    ensures Whole(b) && Front(b) == Run(length, 1, low + 256 * high, 2)
  {
    hide Little, SignedLittle;
    assert b[1..2] == [length] && b[2..4] == [low, high];
    OneByte(length);
    TwoBytes(low, high);
  }

  lemma TwoByteRun(b: seq<nat>, length: nat, delta: nat)
    requires |b| >= 3 && b[0] == 0x11 && b[1] == length < 256 && b[2] == delta < 256
    ensures Whole(b) && Front(b) == Run(length, 1, if delta < 0x80 then delta else delta - 256, 1)
  {
    hide Little, SignedLittle;
    assert b[1..2] == [length] && b[2..3] == [delta];
    OneByte(length);
    OneByte(delta);
  }

  lemma OneByte(x: nat)
    requires x < 256
    ensures Little([x]) == x && SignedLittle([x]) == if x < 0x80 then x else x - 256
  {
    assert Little([x]) == x + 256 * Little([]);
    assert Range(1) == 256;
  }

  lemma TwoBytes(x: nat, y: nat)
    requires x < 256 && y < 0x80
    ensures Little([x, y]) == SignedLittle([x, y]) == x + 256 * y
  {
    OneByte(y);
    assert [x, y][1..] == [y];
  }
}
