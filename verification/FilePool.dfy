// Allocating and freeing spans of blocks in a file pool.
module FilePool {
  import opened FilePoolBlocks
  import opened FilePoolLists
  import opened Listings

  const BLOCK_HEADER := 8
  const SEGMENT_HEADER := 320
  const FILE_HEADER := 56
  const WORD := 0x1_0000_0000

  function Ceiling(n: nat, d: nat): nat
    requires d > 0
  {
    (n + d - 1) / d
  }

  // (8 + Size + BlockSize - 1) >> BlockShift in 32 bits.
  function NumberOfBlocks(size: nat, blockSize: nat): nat
    requires blockSize > 0
  {
    (BLOCK_HEADER + size + blockSize - 1) % WORD / blockSize
  }

  predicate Wraps(size: nat, blockSize: nat) {
    BLOCK_HEADER + size + blockSize - 1 >= WORD
  }

  // The blocks hold the header and size bytes exactly when the sum does not wrap.
  lemma EnoughBlocks(size: nat, blockSize: nat)
    requires size < WORD && 0 < blockSize < WORD
    ensures NumberOfBlocks(size, blockSize) * blockSize >= BLOCK_HEADER + size <==> !Wraps(size, blockSize)
  {
    var sum := BLOCK_HEADER + size + blockSize - 1;
    var q := sum % WORD / blockSize;
    assert q * blockSize <= sum % WORD < q * blockSize + blockSize;
    if sum >= WORD {
      assert sum % WORD <= sum - WORD;
    }
  }

  // And they are the fewest that do.
  lemma FewestBlocks(size: nat, blockSize: nat, blocks: nat)
    requires size < WORD && 0 < blockSize < WORD && !Wraps(size, blockSize)
    ensures blocks * blockSize >= BLOCK_HEADER + size <==> blocks >= NumberOfBlocks(size, blockSize)
  {
    var sum := BLOCK_HEADER + size + blockSize - 1;
    var q := sum / blockSize;
    assert q * blockSize <= sum < q * blockSize + blockSize;
    if blocks >= q {
      TimesGrows(q, blocks, blockSize);
    } else {
      TimesGrows(blocks, q - 1, blockSize);
      assert (q - 1) * blockSize == q * blockSize - blockSize;
    }
  }

  // A size at which the wrap gives away fewer blocks than asked for.
  lemma WrapExample()
    ensures NumberOfBlocks(0xFFFF_FFF8, 128) == 0
  {
  }

  // The sizes for which there are no blocks at all.
  lemma NoBlocks(size: nat, blockSize: nat)
    requires size < WORD && 0 < blockSize && blockSize + 7 <= WORD
    ensures NumberOfBlocks(size, blockSize) == 0 <==> WORD - 7 - blockSize <= size < WORD - 7
  {
    var sum := BLOCK_HEADER + size + blockSize - 1;
    var rest := if sum >= WORD then sum - WORD else sum;
    assert sum % WORD == rest;
    QuotientZero(rest, blockSize);
  }

  lemma QuotientZero(v: nat, d: nat)
    requires d > 0
    ensures v / d == 0 <==> v < d
  {
    var q := v / d;
    assert q * d <= v < q * d + d;
    TimesGrows(1, q, d);
  }

  // ---------- the size of the file ----------

  // (SegmentCount + 1) << SegmentShift and SegmentIndex << SegmentShift, in 32 bits.
  function SizeAfter(count: nat, segmentSize: nat): nat { (count + 1) * segmentSize % WORD }
  function OffsetOf(segment: nat, segmentSize: nat): nat { segment * segmentSize % WORD }

  // The file is extended far enough for one more segment exactly when it stays below 4 GB.
  lemma GrowthFits(count: nat, segmentSize: nat)
    requires 0 < segmentSize < WORD && count * segmentSize < WORD
    ensures OffsetOf(count, segmentSize) + segmentSize <= SizeAfter(count, segmentSize) <==> (count + 1) * segmentSize < WORD
    ensures (count + 1) * segmentSize < WORD ==> SizeAfter(count, segmentSize) == (count + 1) * segmentSize
  {
    var size := (count + 1) * segmentSize;
    assert size == count * segmentSize + segmentSize;
    if size >= WORD {
      assert size % WORD == size - WORD;
    }
  }

  // From there on offsets repeat: the next segment would lie on the first one.
  lemma OffsetsRepeat(segment: nat, segmentSize: nat, most: nat)
    requires most * segmentSize == WORD
    ensures OffsetOf(segment + most, segmentSize) == OffsetOf(segment, segmentSize)
  {
    assert (segment + most) * segmentSize == segment * segmentSize + WORD;
  }

  lemma GrowthExample()
    ensures SizeAfter(65535, 65536) == 0 && OffsetOf(65536, 65536) == OffsetOf(0, 65536)
  {
  }

  // ---------- relative virtual addresses ----------

  datatype Rva = Invalid | Rva(segment: nat, offset: nat)

  // (SegmentIndex << SegmentShift) + offset, in 32 bits.
  function EncodeRva(segmentSize: nat, segment: nat, offset: nat): nat {
    (segment * segmentSize % WORD + offset) % WORD
  }

  function DecodeRva(segmentSize: nat, segmentCount: nat, rva: nat): Rva
    requires 0 < segmentSize
  {
    if rva / segmentSize >= segmentCount then Invalid else Rva(rva / segmentSize, rva % segmentSize)
  }

  lemma RvaInRange(segmentSize: nat, segmentCount: nat, segment: nat, offset: nat)
    requires segmentCount * segmentSize <= WORD && segment < segmentCount && offset < segmentSize
    ensures EncodeRva(segmentSize, segment, offset) == segment * segmentSize + offset < WORD
  {
    TimesGrows(segment + 1, segmentCount, segmentSize);
    assert (segment + 1) * segmentSize == segment * segmentSize + segmentSize;
  }

  // In a file of at most 4 GB positions and addresses determine each other.
  lemma RvaDecodes(segmentSize: nat, segmentCount: nat, segment: nat, offset: nat)
    requires segmentCount * segmentSize <= WORD && segment < segmentCount && offset < segmentSize
    ensures DecodeRva(segmentSize, segmentCount, EncodeRva(segmentSize, segment, offset)) == Rva(segment, offset)
  {
    RvaInRange(segmentSize, segmentCount, segment, offset);
    DivMod(segment * segmentSize + offset, segmentSize, segment, offset);
  }

  lemma RvaEncodes(segmentSize: nat, segmentCount: nat, rva: nat)
    requires 0 < segmentSize && segmentCount * segmentSize <= WORD && rva < WORD
    ensures var d := DecodeRva(segmentSize, segmentCount, rva);
      && (d.Rva? <==> rva < segmentCount * segmentSize)
      && (d.Rva? ==> d.segment < segmentCount && d.offset < segmentSize && EncodeRva(segmentSize, d.segment, d.offset) == rva)
  {
    var q, r := rva / segmentSize, rva % segmentSize;
    assert rva == q * segmentSize + r;
    if q >= segmentCount {
      TimesGrows(segmentCount, q, segmentSize);
    } else {
      TimesGrows(q + 1, segmentCount, segmentSize);
      RvaInRange(segmentSize, segmentCount, q, r);
      assert rva == q * segmentSize + r;
    }
  }

  lemma DivMod(v: nat, d: nat, q: nat, r: nat)
    requires d > 0 && r < d && v == q * d + r
    ensures v / d == q && v % d == r
  {
    var p := v / d;
    assert v == p * d + v % d;
    TimesGrows(p + 1, q, d);
    TimesGrows(q + 1, p, d);
  }

  // ---------- where the headers lie ----------

  // The header of a segment lies behind the block header of its span, which the span does
  // not allow for: with blocks of 32 or 64 bytes its last eight reserved bytes lie outside.
  lemma SegmentHeaderFits(shift: nat, blockSize: nat)
    requires 16 <= shift <= 28 && blockSize == Power(shift - 11) && 0 < blockSize
    ensures BLOCK_HEADER + SEGMENT_HEADER <= Ceiling(SEGMENT_HEADER, blockSize) * blockSize <==> shift >= 18
    ensures BLOCK_HEADER + SEGMENT_HEADER - 52 <= Ceiling(SEGMENT_HEADER, blockSize) * blockSize
    ensures BLOCK_HEADER + FILE_HEADER <= Ceiling(FILE_HEADER, blockSize) * blockSize
    ensures BLOCKS * blockSize == Power(shift)
  {
    PowerSum(shift - 11);
    if shift <= 17 {
      assert Power(5) == 32 && Power(6) == 64;
    } else if shift == 18 {
      assert Power(7) == 128;
    } else {
      assert Power(8) == 256 && Power(9) == 512;
      if shift >= 20 {
        PowerGrows(9, shift - 11);
      }
      CeilingFrom(SEGMENT_HEADER, blockSize);
      CeilingFrom(FILE_HEADER, blockSize);
    }
  }

  function Power(k: nat): nat {
    if k == 0 then 1 else 2 * Power(k - 1)
  }

  lemma {:induction false} PowerSum(k: nat)
    ensures Power(k + 11) == 2048 * Power(k)
  {
    if k == 0 {
      assert Power(11) == 2048;
    } else {
      PowerSum(k - 1);
    }
  }

  lemma {:induction false} PowerGrows(j: nat, k: nat)
    requires j <= k
    ensures Power(j) <= Power(k)
  {
    if j < k {
      PowerGrows(j, k - 1);
    }
  }

  lemma CeilingFrom(n: nat, d: nat)
    requires 0 < n && (d == 256 || d >= 512) && (n == SEGMENT_HEADER || n == FILE_HEADER)
    ensures BLOCK_HEADER + n <= Ceiling(n, d) * d
  {
    var q := (n + d - 1) / d;
    assert q * d <= n + d - 1 < q * d + d;
    TimesGrows(2, q, d);
  }

  lemma CeilingBound(n: nat, d: nat, most: nat)
    requires d > 0 && n <= most * d
    ensures Ceiling(n, d) <= most && n <= Ceiling(n, d) * d
  {
    var q := (n + d - 1) / d;
    assert q * d <= n + d - 1 < q * d + d;
    TimesGrows(most + 1, q, d);
  }

  lemma TimesGrows(a: nat, b: nat, d: nat)
    ensures a <= b ==> a * d <= b * d
  {
    if a <= b {
      assert b * d == a * d + (b - a) * d;
    }
  }

  // Any run of n clear bits, set; NONE if there is none. The hint only says where the
  // search begins, so it is not part of the contract. No bits are found at any bit.
  method FindClearBitsAndSet(bitmap: seq<bool>, n: nat) returns (at: nat, bitmap': seq<bool>)
    requires 0 < |bitmap| < NONE
    ensures if at == NONE then bitmap' == bitmap && forall p :: !ClearRun(bitmap, p, n)
      else at < |bitmap| && ClearRun(bitmap, at, n) && bitmap' == Fill(bitmap, at, n, true)
    ensures n == 0 ==> at != NONE
  {
    if p: nat :| p < |bitmap| && ClearRun(bitmap, p, n) {
      at := p;
      bitmap' := Fill(bitmap, p, n, true);
    } else {
      assert n == 0 ==> ClearRun(bitmap, 0, n);
      at := NONE;
      bitmap' := bitmap;
    }
  }

  // A segment that is in use from its first block up to used.
  function NewSegment(used: nat, span: seq<nat>): Segment
    requires used <= BLOCKS
  {
    Segment(seq(BLOCKS, k => k < used), BLOCKS - used, NONE, NONE, span)
  }

  lemma {:induction false} ClearFrom(b: seq<bool>, used: nat)
    requires used <= |b| && forall k :: 0 <= k < |b| ==> b[k] == (k < used)
    ensures ClearBits(b) == |b| - used
  {
    if |b| > used {
      ClearFrom(b[..|b| - 1], used);
    } else {
      NoneClear(b);
    }
  }

  lemma {:induction false} NoneClear(b: seq<bool>)
    requires forall k :: 0 <= k < |b| ==> b[k]
    ensures ClearBits(b) == 0
  {
    if b != [] {
      NoneClear(b[..|b| - 1]);
    }
  }

  lemma FilledOk(used: nat, span: seq<nat>, live: map<nat, nat>)
    requires used <= BLOCKS == |span| && Apart(live)
    requires forall s :: s in live ==> 0 < live[s] && s + live[s] <= BLOCKS && span[s] == live[s]
    requires forall k :: 0 <= k < BLOCKS ==> (k < used <==> Covers(live, k))
    ensures SegmentOk(NewSegment(used, span), live)
  {
    ClearFrom(NewSegment(used, span).bitmap, used);
  }

  lemma OneSpanOk(span: seq<nat>, n: nat)
    requires 0 < n <= BLOCKS == |span| && span[0] == n
    ensures SegmentOk(NewSegment(n, span), map[0 := n])
  {
    forall k | 0 <= k < BLOCKS ensures k < n <==> Covers(map[0 := n], k) {
      assert k < n ==> 0 in map[0 := n] && 0 <= k < 0 + n;
    }
    FilledOk(n, span, map[0 := n]);
  }

  lemma TwoSpansOk(span: seq<nat>, n: nat, m: nat)
    requires 0 < n && 0 < m && n + m <= BLOCKS == |span| && span[0] == n && span[n] == m
    ensures SegmentOk(NewSegment(n + m, span), map[0 := n, n := m])
  {
    hide Apart, SegmentOk;
    var live := map[0 := n, n := m];
    forall k | 0 <= k < BLOCKS ensures k < n + m <==> Covers(live, k) {
      assert k < n ==> 0 in live && 0 <= k < 0 + live[0];
      assert n <= k < n + m ==> n in live && n <= k < n + live[n];
    }
    FilledOk(n + m, span, live);
  }

  lemma FiledMore(g: seq<Segment>, heads: seq<nat>, lists: seq<seq<nat>>, place: seq<nat>, s: Segment)
    requires Filed(g, heads, lists, place) && |g| + 1 < NONE
    ensures Filed(g + [s], heads, lists, place + [LISTS])
  {
    forall k | 0 <= k < LISTS ensures Linked(g + [s], heads[k], lists[k]) && Listed(place + [LISTS], lists[k], k) {
      ListedMore(place, lists[k], k, [LISTS]);
    }
  }

  class Pool {
    const blockSize: nat
    const segmentSize: nat
    const fileHeaderSpan: nat
    const headerSpan: nat
    var segments: seq<Segment>
    var freeLists: seq<nat>
    ghost var live: seq<map<nat, nat>>
    ghost var lists: seq<seq<nat>>
    ghost var place: seq<nat>

    // The spans that hold the headers of segment i.
    ghost function Headers(i: nat): map<nat, nat> {
      if i == 0 then map[0 := fileHeaderSpan, fileHeaderSpan := headerSpan] else map[0 := headerSpan]
    }

    ghost predicate Sized() {
      && 32 <= blockSize && segmentSize == BLOCKS * blockSize < WORD
      && 0 < fileHeaderSpan && 0 < headerSpan && fileHeaderSpan + headerSpan <= BLOCKS / 2
    }

    // Everything but that segment i is on the right list.
    ghost predicate ValidBut(i: int)
      reads this
    {
      && Sized() && Filed(segments, freeLists, lists, place) && |live| == |segments| && 0 < |segments|
      && |segments| * segmentSize < WORD
      && (forall k :: 0 <= k < |segments| ==> SegmentOk(segments[k], live[k]))
      && (forall k :: 0 <= k < |segments| && k != i ==> place[k] == ListIndex(headerSpan, segments[k].free))
      && (forall k :: 0 <= k < |segments| ==> forall s :: s in Headers(k) ==> s in live[k] && live[k][s] == Headers(k)[s])
    }

    ghost predicate Valid()
      reads this
    {
      ValidBut(-1)
    }

    constructor (blockSize: nat)
      requires 32 <= blockSize && BLOCKS * blockSize < WORD
      ensures Valid() && this.blockSize == blockSize && |segments| == 1 && live[0] == Headers(0)
    {
      var f, h := Ceiling(FILE_HEADER, blockSize), Ceiling(SEGMENT_HEADER, blockSize);
      CeilingBound(FILE_HEADER, blockSize, 2);
      CeilingBound(SEGMENT_HEADER, blockSize, 10);
      this.blockSize, segmentSize, fileHeaderSpan, headerSpan := blockSize, BLOCKS * blockSize, f, h;
      var span := seq(BLOCKS, b => if b == 0 then f else if b == f then h else 0);
      segments := [NewSegment(f + h, span)];
      freeLists := [NONE, 0, NONE, NONE, NONE, NONE, NONE, NONE];
      live := [map[0 := f, f := h]];
      lists := [[], [0], [], [], [], [], [], []];
      place := [1];
      TwoSpansOk(span, f, h);
    }

    method InsertFreeList(k: nat, i: nat)
      requires k < LISTS && i < |segments| && Filed(segments, freeLists, lists, place) && place[i] == LISTS
      modifies `segments, `freeLists, `lists, `place
      ensures Filed(segments, freeLists, lists, place) && place == old(place)[i := k]
      ensures SameBlocks(old(segments), segments)
    {
      ghost var g := segments;
      FiledInsert(segments, freeLists, lists, place, k, i);
      var oldHead := freeLists[k];
      segments := segments[i := segments[i].(blink := NONE, flink := oldHead)];
      freeLists := freeLists[k := i];
      if oldHead != NONE {
        HeadInRange(g, lists[k], oldHead);
        segments := segments[oldHead := segments[oldHead].(blink := i)];
      }
      lists, place := lists[k := [i] + lists[k]], place[i := k];
    }

    method RemoveFreeList(k: nat, i: nat)
      requires k < LISTS && i < |segments| && Filed(segments, freeLists, lists, place) && place[i] == k
      modifies `segments, `freeLists, `lists, `place
      ensures Filed(segments, freeLists, lists, place) && place == old(place)[i := LISTS]
      ensures SameBlocks(old(segments), segments)
    {
      ghost var g := segments;
      ghost var c := RemoveReady(segments, freeLists, lists, place, k, i);
      var flink, blink := segments[i].flink, segments[i].blink;
      if flink != NONE {
        segments := segments[flink := segments[flink].(blink := blink)];
      }
      if blink != NONE {
        segments := segments[blink := segments[blink].(flink := flink)];
      } else {
        freeLists := freeLists[k := flink];
      }
      assert segments == Unlinked(g, i);
      lists, place := lists[k := c], place[i := LISTS];
    }

    // Moves segment i to the list for the number of free blocks it has now.
    method Relist(k: nat, i: nat)
      requires ValidBut(i) && i < |segments| && k < LISTS && place[i] == k
      modifies `segments, `freeLists, `lists, `place
      ensures Valid() && SameBlocks(old(segments), segments)
    {
      var newIndex := ListIndex(headerSpan, segments[i].free);
      if newIndex != k {
        ghost var g := segments;
        RemoveFreeList(k, i);
        InsertFreeList(newIndex, i);
        BlocksKept(g, segments, live);
      }
    }

    // PhFppAllocateBlocks. A span of no blocks changes nothing but the Span field of a block
    // header, which may be that of a live span.
    method AllocateBlocks(i: nat, n: nat) returns (at: nat)
      requires Valid() && i < |segments|
      modifies `segments, `live
      ensures at == NONE ==> Valid() && segments == old(segments) && live == old(live) && !HasRun(segments[i], n)
      ensures at != NONE && n > 0 ==> ValidBut(i) && HasTaken(old(segments), old(live), i, at, n)
      ensures n == 0 ==> at != NONE && HasZeroed(old(segments), old(live), i, at)
    {
      var bitmap;
      at, bitmap := FindClearBitsAndSet(segments[i].bitmap, n);
      if at == NONE {
        return;
      }
      var g := segments[i];
      if n == 0 {
        segments := segments[i := g.(bitmap := bitmap, free := g.free - n, span := g.span[at := n])];
        assert segments[i] == Zeroed(g, at);
        return;
      }
      TakenOk(g, live[i], at, n);
      FiledSame(segments, freeLists, lists, place, i, Taken(g, at, n));
      AllTakenOk(segments, live, i, at, n);
      segments := segments[i := g.(bitmap := bitmap, free := g.free - n, span := g.span[at := n])];
      assert segments[i] == Taken(g, at, n);
      live := live[i := WithSpan(live[i], at, n)];
    }

    // Segment i has given n clear blocks from at on to a new span; all others are as they were.
    ghost predicate HasTaken(g: seq<Segment>, spans: seq<map<nat, nat>>, i: nat, at: nat, n: nat)
      reads this
    {
      && i < |g| == |segments| == |spans| && ClearRun(g[i].bitmap, at, n) && at !in spans[i] && n <= g[i].free && at < |g[i].span|
      && live == spans[i := WithSpan(spans[i], at, n)]
      && SameBlocks(g[i := Taken(g[i], at, n)], segments)
    }

    // Segment i has recorded a span of no blocks at block at; nothing else has changed.
    ghost predicate HasZeroed(g: seq<Segment>, spans: seq<map<nat, nat>>, i: nat, at: nat)
      reads this
    {
      i < |g| && at < BLOCKS && at < |g[i].span| && segments == g[i := Zeroed(g[i], at)] && live == spans
    }

    // Tries the segments of one list.
    method AllocateFromList(k: nat, n: nat) returns (i: nat, at: nat)
      requires Valid() && k < LISTS
      modifies `segments, `live
      ensures at == NONE ==> Valid() && segments == old(segments) && live == old(live) && NoRunIn(segments, lists[k], n)
      ensures at != NONE ==> i < |segments| == |place| && place[i] == k
      ensures at != NONE && n > 0 ==> ValidBut(i) && HasTaken(old(segments), old(live), i, at, n)
      ensures at != NONE && n == 0 ==> HasZeroed(old(segments), old(live), i, at)
    {
      i, at := freeLists[k], NONE;
      ghost var j := 0;
      while i != NONE
        invariant Valid() && segments == old(segments) && live == old(live) && j <= |lists[k]| && i == At(lists[k], j) && at == NONE
        invariant forall m :: 0 <= m < j ==> lists[k][m] < |segments| && !HasRun(segments[lists[k][m]], n)
        decreases |lists[k]| - j
      {
        assert lists[k][j] in lists[k];
        var next := segments[i].flink;
        at := AllocateBlocks(i, n);
        if at != NONE {
          return;
        }
        i, j := next, j + 1;
      }
    }

    // The segments that the lists up to limit do not hold have fewer than n free blocks.
    lemma ScannedAll(n: nat)
      requires Valid()
      requires NoRunBefore(segments, lists, ListIndex(headerSpan, n) + 1, n)
      ensures !FitsSomewhere(segments, n)
    {
      forall s | 0 <= s < |segments| ensures !HasRun(segments[s], n) {
        var k := place[s];
        assert s in lists[k];
        if n <= segments[s].free {
          ListIndexFalls(headerSpan, n, segments[s].free);
        } else {
          NoRun(segments[s], live[s], n);
        }
      }
    }

    // The size of the file with one more segment can be said in 32 bits.
    ghost predicate Room()
      reads this
    {
      (|segments| + 1) * segmentSize < WORD
    }

    lemma RoomForIndex()
      requires Valid() && Room()
      ensures |segments| + 1 < 65536 && SizeAfter(|segments|, segmentSize) == (|segments| + 1) * segmentSize
    {
      TimesGrows(65536, |segments| + 1, segmentSize);
      GrowthFits(|segments|, segmentSize);
    }

    // The address of a span that starts at block at of segment i leads back to it.
    ghost predicate Addressed(i: nat, at: nat)
      reads this
    {
      && 0 < segmentSize
      && DecodeRva(segmentSize, |segments|, EncodeRva(segmentSize, i, at * blockSize + BLOCK_HEADER)) == Rva(i, at * blockSize + BLOCK_HEADER)
    }

    lemma SpanAddressed(i: nat, at: nat)
      requires Sized() && |segments| * segmentSize < WORD && i < |segments| && at < BLOCKS
      ensures Addressed(i, at)
    {
      TimesGrows(at + 1, BLOCKS, blockSize);
      assert (at + 1) * blockSize == at * blockSize + blockSize;
      RvaDecodes(segmentSize, |segments|, i, at * blockSize + BLOCK_HEADER);
    }

    method AllocateSegment() returns (i: nat)
      requires Valid() && Room()
      modifies `segments, `freeLists, `live, `lists, `place
      ensures Valid() && i == old(|segments|) && |segments| == i + 1 && live == old(live) + [Headers(i)]
      ensures SameBlocks(old(segments), segments[..i])
      ensures place[i] == 0 && ClearRun(segments[i].bitmap, headerSpan, BLOCKS - headerSpan)
      ensures forall k :: 0 <= k < headerSpan ==> segments[i].bitmap[k]
    {
      RoomForIndex();
      i := |segments|;
      var h := headerSpan;
      var span := seq(BLOCKS, b => if b == 0 then h else 0);
      FiledMore(segments, freeLists, lists, place, NewSegment(h, span));
      OneSpanOk(span, h);
      segments := segments + [NewSegment(h, span)];
      live, place := live + [Headers(i)], place + [LISTS];
      ghost var g := segments;
      InsertFreeList(0, i);
      BlocksKept(g, segments, live);
    }

    // Scans each list that may hold a segment with a run of n clear blocks.
    method AllocateFromLists(n: nat) returns (k: nat, i: nat, at: nat)
      requires Valid()
      modifies `segments, `live
      ensures at == NONE ==> Valid() && segments == old(segments) && live == old(live) && !FitsSomewhere(segments, n)
      ensures at != NONE ==> i < |segments| == |place| && place[i] == k < LISTS
      ensures at != NONE && n > 0 ==> ValidBut(i) && HasTaken(old(segments), old(live), i, at, n)
      ensures at != NONE && n == 0 ==> HasZeroed(old(segments), old(live), i, at)
    {
      ghost var g, ls := segments, lists;
      k, i, at := 0, NONE, NONE;
      while k <= ListIndex(headerSpan, n)
        invariant Valid() && segments == g && lists == ls && live == old(live) && at == NONE && k <= LISTS
        invariant NoRunBefore(g, ls, k, n)
      {
        i, at := AllocateFromList(k, n);
        if at != NONE {
          return;
        }
        assert NoRunIn(g, ls[k], n);
        ScannedOne(g, ls, k, n);
        k := k + 1;
      }
      ScannedAll(n);
    }

    // PhAllocateFilePool for a span of n blocks. canExtend says whether the file can be made
    // larger and the new segment mapped, for which there must be room.
    method Allocate(n: nat, canExtend: bool) returns (i: nat, at: nat)
      requires Valid() && (canExtend ==> Room())
      modifies `segments, `freeLists, `live, `lists, `place
      ensures n > 0 ==> Valid()
      ensures n > 0 && at != NONE ==> Addressed(i, at)
      // too large for any segment
      ensures n > BLOCKS - headerSpan ==> at == NONE && segments == old(segments) && live == old(live)
      // an existing segment has a long enough run: one such is used
      ensures 0 < n <= BLOCKS - headerSpan && FitsSomewhere(old(segments), n) ==>
        && at != NONE && i < |old(segments)| && HasTaken(old(segments), old(live), i, at, n)
      // none has: only then is a segment added
      ensures 0 < n <= BLOCKS - headerSpan && !FitsSomewhere(old(segments), n) ==>
        && (at != NONE <==> canExtend)
        && (at == NONE ==> segments == old(segments) && live == old(live))
        && (at != NONE ==>
             && i == |old(segments)| && |segments| == i + 1 && headerSpan <= at && at + n <= BLOCKS
             && live == old(live) + [WithSpan(Headers(i), at, n)] && SameBlocks(old(segments), segments[..i]))
      // no blocks: everything stays exact if and only if the span begins inside no live one's header
      ensures n == 0 ==> at != NONE && HasZeroed(old(segments), old(live), i, at) && i < |live| && (Valid() <==> at !in live[i])
    {
      if n > BLOCKS - headerSpan {
        return NONE, NONE;
      }
      var k;
      k, i, at := AllocateFromLists(n);
      if at == NONE {
        NothingFits(n);
        if !canExtend {
          return;
        }
        i, at := AllocateFresh(n);
      } else if n == 0 {
        // the number of free blocks is the same, so the segment is on its list already
        AllZeroedOk(old(segments), live, i, at);
        FiledSame(old(segments), freeLists, lists, place, i, Zeroed(old(segments)[i], at));
        assert ListIndex(headerSpan, segments[i].free) == k;
        return;
      } else {
        Relist(k, i);
      }
      SpanAddressed(i, at);
    }

    lemma NothingFits(n: nat)
      requires Valid() && !FitsSomewhere(segments, n)
      ensures n > 0
    {
      assert ClearRun(segments[0].bitmap, 0, 0);
      assert HasRun(segments[0], 0);
    }

    method AllocateFresh(n: nat) returns (i: nat, at: nat)
      requires Valid() && 0 < n <= BLOCKS - headerSpan && Room()
      modifies `segments, `freeLists, `live, `lists, `place
      ensures Valid() && i == |old(segments)| && |segments| == i + 1 && headerSpan <= at && at + n <= BLOCKS
      ensures live == old(live) + [WithSpan(Headers(i), at, n)] && SameBlocks(old(segments), segments[..i])
    {
      i := AllocateSegment();
      ghost var g, spans := segments, live;
      assert ClearRun(segments[i].bitmap, headerSpan, n);
      at := AllocateBlocks(i, n);
      AfterHeader(g[i], headerSpan, at, n);
      Relist(0, i);
    }

    // PhAllocateFilePool, for any size.
    method AllocateBytes(size: nat, canExtend: bool) returns (i: nat, at: nat)
      requires Valid() && (canExtend ==> Room()) && size < WORD
      modifies `segments, `freeLists, `live, `lists, `place
      ensures NumberOfBlocks(size, blockSize) > 0 ==> Valid()
      ensures NumberOfBlocks(size, blockSize) > 0 && at != NONE ==>
        && i < |live| && at in live[i] && live[i][at] == NumberOfBlocks(size, blockSize) && Addressed(i, at)
      ensures at != NONE && !Wraps(size, blockSize) ==>
        i < |live| && at in live[i] && live[i][at] * blockSize >= BLOCK_HEADER + size
      ensures NumberOfBlocks(size, blockSize) == 0 ==>
        at != NONE && HasZeroed(old(segments), old(live), i, at) && i < |live| && (Valid() <==> at !in live[i])
    {
      i, at := Allocate(NumberOfBlocks(size, blockSize), canExtend);
      EnoughBlocks(size, blockSize);
    }

    // PhpFreeFilePool for the span that starts at block at.
    method Free(i: nat, at: nat)
      requires Valid() && i < |segments| && at in live[i] && at !in Headers(i)
      modifies `segments, `freeLists, `live, `lists, `place
      ensures Valid() && live == old(live)[i := old(live[i]) - {at}]
      ensures i < |segments| == |old(segments)| && at < |old(segments)[i].span| && at + old(segments)[i].span[at] <= |old(segments)[i].bitmap|
      ensures SameBlocks(old(segments)[i := Given(old(segments)[i], at)], segments)
    {
      var oldIndex := ListIndex(headerSpan, segments[i].free);
      var g := segments[i];
      GivenOk(g, live[i], at);
      FiledSame(segments, freeLists, lists, place, i, Given(g, at));
      AllGivenOk(segments, live, i, at);
      var blockSpan := g.span[at];
      segments := segments[i := g.(bitmap := Fill(g.bitmap, at, blockSpan, false), free := g.free + blockSpan)];
      assert segments[i] == Given(g, at);
      live := live[i := live[i] - {at}];
      Relist(oldIndex, i);
    }
  }

  lemma AllTakenOk(g: seq<Segment>, live: seq<map<nat, nat>>, i: nat, at: nat, n: nat)
    requires |live| == |g| && i < |g| && ClearRun(g[i].bitmap, at, n) && n > 0
    requires forall k :: 0 <= k < |g| ==> SegmentOk(g[k], live[k])
    ensures n <= g[i].free && at < |g[i].span|
    ensures var g', live' := g[i := Taken(g[i], at, n)], live[i := WithSpan(live[i], at, n)];
      forall k :: 0 <= k < |g'| ==> SegmentOk(g'[k], live'[k])
  {
    TakenOk(g[i], live[i], at, n);
  }

  // A span of no blocks keeps the spans exact for all segments exactly when no live span
  // begins where it does.
  lemma AllZeroedOk(g: seq<Segment>, live: seq<map<nat, nat>>, i: nat, at: nat)
    requires |live| == |g| && i < |g| && at < BLOCKS && at < |g[i].span|
    requires forall k :: 0 <= k < |g| ==> SegmentOk(g[k], live[k])
    ensures var g' := g[i := Zeroed(g[i], at)];
      (forall k :: 0 <= k < |g'| ==> SegmentOk(g'[k], live[k])) <==> at !in live[i]
  {
    ZeroedOk(g[i], live[i], at);
    var g' := g[i := Zeroed(g[i], at)];
    assert g'[i] == Zeroed(g[i], at);
  }

  lemma AllGivenOk(g: seq<Segment>, live: seq<map<nat, nat>>, i: nat, at: nat)
    requires |live| == |g| && i < |g| && SegmentOk(g[i], live[i]) && at in live[i]
    requires forall k :: 0 <= k < |g| ==> SegmentOk(g[k], live[k])
    ensures at < |g[i].span| && at + g[i].span[at] <= |g[i].bitmap|
    ensures var g', live' := g[i := Given(g[i], at)], live[i := live[i] - {at}];
      forall k :: 0 <= k < |g'| ==> SegmentOk(g'[k], live'[k])
  {
    GivenOk(g[i], live[i], at);
  }

  ghost predicate HasRun(g: Segment, n: nat) {
    exists p :: ClearRun(g.bitmap, p, n)
  }

  ghost predicate NoRunIn(g: seq<Segment>, c: seq<nat>, n: nat) {
    forall s :: s in c ==> s < |g| && !HasRun(g[s], n)
  }

  ghost predicate NoRunBefore(g: seq<Segment>, lists: seq<seq<nat>>, k: nat, n: nat)
    requires k <= |lists|
  {
    forall m :: 0 <= m < k ==> NoRunIn(g, lists[m], n)
  }

  lemma ScannedOne(g: seq<Segment>, lists: seq<seq<nat>>, k: nat, n: nat)
    requires k < |lists| && NoRunBefore(g, lists, k, n) && NoRunIn(g, lists[k], n)
    ensures NoRunBefore(g, lists, k + 1, n)
  {
  }

  ghost predicate FitsSomewhere(g: seq<Segment>, n: nat) {
    exists i :: 0 <= i < |g| && HasRun(g[i], n)
  }

  // A run of clear bits cannot reach into the header at the front.
  lemma AfterHeader(g: Segment, headerSpan: nat, at: nat, n: nat)
    requires 0 < n && ClearRun(g.bitmap, at, n) && headerSpan <= |g.bitmap|
    requires forall k :: 0 <= k < headerSpan ==> g.bitmap[k]
    ensures headerSpan <= at
  {
    assert !g.bitmap[at];
  }

  // Fewer clear bits than n leave no run of n.
  lemma NoRun(g: Segment, live: map<nat, nat>, n: nat)
    requires SegmentOk(g, live) && g.free < n
    ensures !HasRun(g, n)
  {
    RunBound(g, n);
  }

  lemma RunBound(g: Segment, n: nat)
    ensures HasRun(g, n) ==> n <= ClearBits(g.bitmap)
  {
    if HasRun(g, n) {
      var p :| ClearRun(g.bitmap, p, n);
      ClearBitsFilled(g.bitmap, p, n);
    }
  }

  // The list that is left when segment i is taken off list k.
  lemma IndexOnList(g: seq<Segment>, heads: seq<nat>, lists: seq<seq<nat>>, place: seq<nat>, k: nat, i: nat) returns (j: nat)
    requires Filed(g, heads, lists, place) && k < LISTS && i < |g| && place[i] == k
    ensures j < |lists[k]| && lists[k][j] == i
  {
    assert i in lists[k];
    j :| 0 <= j < |lists[k]| && lists[k][j] == i;
  }

  lemma RemoveReady(g: seq<Segment>, heads: seq<nat>, lists: seq<seq<nat>>, place: seq<nat>, k: nat, i: nat) returns (c: seq<nat>)
    requires Filed(g, heads, lists, place) && k < LISTS && i < |g| && place[i] == k
    ensures g[i].flink < |g| || g[i].flink == NONE
    ensures g[i].blink < |g| || g[i].blink == NONE
    ensures Filed(Unlinked(g, i), heads[k := HeadWithout(g, heads[k], i)], lists[k := c], place[i := LISTS])
    ensures SameBlocks(g, Unlinked(g, i))
  {
    hide Listed, Linked, At;
    var j := IndexOnList(g, heads, lists, place, k, i);
    FiledRemove(g, heads, lists, place, k, j);
    c := lists[k][..j] + lists[k][j + 1..];
    LinkInRange(g, heads[k], lists[k], j);
  }

  lemma LinkInRange(g: seq<Segment>, head: nat, c: seq<nat>, j: nat)
    requires Linked(g, head, c) && j < |c|
    ensures c[j] < |g|
    ensures g[c[j]].flink < |g| || g[c[j]].flink == NONE
    ensures g[c[j]].blink < |g| || g[c[j]].blink == NONE
  {
  }

  // The segments differ in their links at most.
  predicate SameBlocks(g: seq<Segment>, g': seq<Segment>) {
    && |g'| == |g|
    && forall i :: 0 <= i < |g| ==> g'[i].bitmap == g[i].bitmap && g'[i].free == g[i].free && g'[i].span == g[i].span
  }

  lemma BlocksKept(g: seq<Segment>, g': seq<Segment>, live: seq<map<nat, nat>>)
    requires SameBlocks(g, g') && |live| == |g| && forall k :: 0 <= k < |g| ==> SegmentOk(g[k], live[k])
    ensures forall k :: 0 <= k < |g'| ==> SegmentOk(g'[k], live[k])
  {
  }

  lemma HeadInRange(g: seq<Segment>, c: seq<nat>, head: nat)
    requires Linked(g, head, c) && head != NONE
    ensures c != [] && head == c[0] < |g|
  {
  }
}
