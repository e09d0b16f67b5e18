// The blocks of one segment of a file pool: the allocation bitmap, the free count and
// the spans recorded in block headers.
module FilePoolBlocks {

  const BLOCKS := 2048
  const NONE := 0xFFFF_FFFF

  // What a segment of the file holds. span[b] is the Span field of the block header that
  // starts at block b.
  datatype Segment = Segment(bitmap: seq<bool>, free: nat, flink: nat, blink: nat, span: seq<nat>)

  // ---------- bitmaps ----------

  ghost function ClearBits(b: seq<bool>): nat {
    if b == [] then 0 else ClearBits(b[..|b| - 1]) + (if b[|b| - 1] then 0 else 1)
  }

  predicate ClearRun(b: seq<bool>, at: nat, n: nat) {
    at + n <= |b| && forall k :: at <= k < at + n ==> !b[k]
  }

  function Fill(b: seq<bool>, at: nat, n: nat, v: bool): (r: seq<bool>)
    requires at + n <= |b|
    ensures |r| == |b| && forall k :: 0 <= k < |b| ==> r[k] == (if at <= k < at + n then v else b[k])
  {
    seq(|b|, k requires 0 <= k < |b| => if at <= k < at + n then v else b[k])
  }

  lemma {:induction false} ClearBitsUpdate(b: seq<bool>, k: nat, v: bool)
    requires k < |b|
    ensures ClearBits(b[k := v]) == ClearBits(b) + (if v then 0 else 1) - (if b[k] then 0 else 1)
  {
    var n := |b| - 1;
    if k < n {
      assert b[k := v][..n] == b[..n][k := v];
      ClearBitsUpdate(b[..n], k, v);
    } else {
      assert b[k := v][..n] == b[..n];
    }
  }

  // Setting a run of clear bits uses up exactly that many.
  lemma {:induction false} ClearBitsFilled(b: seq<bool>, at: nat, n: nat)
    requires ClearRun(b, at, n)
    ensures ClearBits(Fill(b, at, n, true)) + n == ClearBits(b)
    decreases n
  {
    if n == 0 {
      assert Fill(b, at, n, true) == b;
    } else {
      ClearBitsFilled(b, at, n - 1);
      var c := Fill(b, at, n - 1, true);
      assert Fill(b, at, n, true) == c[at + n - 1 := true];
      ClearBitsUpdate(c, at + n - 1, true);
    }
  }

  lemma {:induction false} AllClear(b: seq<bool>)
    requires forall k :: 0 <= k < |b| ==> !b[k]
    ensures ClearBits(b) == |b|
  {
    if b != [] {
      AllClear(b[..|b| - 1]);
    }
  }

  // ---------- one segment ----------

  // live maps the first block of every span in use to its length; the spans of the
  // headers are among them.
  ghost predicate Apart(live: map<nat, nat>) {
    forall s, t :: s in live && t in live && s != t ==> s + live[s] <= t || t + live[t] <= s
  }

  ghost predicate Covers(live: map<nat, nat>, k: int) {
    exists s :: s in live && s <= k < s + live[s]
  }

  ghost predicate SegmentOk(g: Segment, live: map<nat, nat>) {
    && |g.bitmap| == BLOCKS && |g.span| == BLOCKS
    && g.free == ClearBits(g.bitmap)
    && (forall s :: s in live ==> 0 < live[s] && s + live[s] <= BLOCKS && g.span[s] == live[s])
    && Apart(live)
    && (forall k :: 0 <= k < BLOCKS ==> (g.bitmap[k] <==> Covers(live, k)))
  }

  function WithSpan(live: map<nat, nat>, at: nat, n: nat): map<nat, nat> {
    live[at := n]
  }

  function Taken(g: Segment, at: nat, n: nat): Segment
    requires at + n <= |g.bitmap| && n <= g.free && at < |g.span|
  {
    g.(bitmap := Fill(g.bitmap, at, n, true), free := g.free - n, span := g.span[at := n])
  }

  // What is left of a span of no blocks: its length in the header of a block.
  function Zeroed(g: Segment, at: nat): Segment
    requires at < |g.span|
  {
    g.(span := g.span[at := 0])
  }

  // That is harmless exactly when no live span begins there.
  lemma ZeroedOk(g: Segment, live: map<nat, nat>, at: nat)
    requires SegmentOk(g, live) && at < |g.span|
    ensures SegmentOk(Zeroed(g, at), live) <==> at !in live
  {}

  function Given(g: Segment, at: nat): Segment
    requires at < |g.span| && at + g.span[at] <= |g.bitmap|
  {
    g.(bitmap := Fill(g.bitmap, at, g.span[at], false), free := g.free + g.span[at])
  }

  lemma TakenOk(g: Segment, live: map<nat, nat>, at: nat, n: nat)
    requires SegmentOk(g, live) && ClearRun(g.bitmap, at, n) && n > 0
    ensures n <= g.free && at !in live && SegmentOk(Taken(g, at, n), WithSpan(live, at, n))
  {
    ClearBitsFilled(g.bitmap, at, n);
    var g', live' := Taken(g, at, n), live[at := n];
    forall s | s in live ensures s + live[s] <= at || at + n <= s {
      NotCovered(live, at, s);
      CoversItself(live, s);
    }
    assert at !in live;
    forall k | 0 <= k < BLOCKS ensures g'.bitmap[k] <==> Covers(live', k) {
      CoversMore(live, at, n, k);
    }
  }

  lemma NotCovered(live: map<nat, nat>, k: int, s: nat)
    requires s in live && !Covers(live, k)
    ensures !(s <= k < s + live[s])
  {
  }

  lemma CoversItself(live: map<nat, nat>, s: nat)
    requires s in live && live[s] > 0
    ensures Covers(live, s)
  {
    assert s <= s < s + live[s];
  }

  lemma OnlyOne(live: map<nat, nat>, at: nat, k: int)
    requires Apart(live) && at in live && at <= k < at + live[at]
    ensures Covers(live, k) && !Covers(live - {at}, k)
  {
    forall s | s in live - {at} ensures !(s <= k < s + live[s]) {
    }
  }

  lemma CoversMore(live: map<nat, nat>, at: nat, n: nat, k: int)
    requires at !in live
    ensures Covers(live[at := n], k) <==> Covers(live, k) || at <= k < at + n
  {
    var live' := live[at := n];
    if Covers(live', k) {
      var s :| s in live' && s <= k < s + live'[s];
      assert s != at ==> s in live && live[s] == live'[s];
    }
    if Covers(live, k) {
      var s :| s in live && s <= k < s + live[s];
      assert s in live' && live'[s] == live[s];
    }
    if at <= k < at + n {
      assert at in live' && live'[at] == n;
    }
  }

  lemma GivenOk(g: Segment, live: map<nat, nat>, at: nat)
    requires SegmentOk(g, live) && at in live
    ensures at < |g.span| && at + g.span[at] <= |g.bitmap| && SegmentOk(Given(g, at), live - {at})
    ensures g.free + g.span[at] <= BLOCKS && ClearRun(Given(g, at).bitmap, at, live[at])
  {
    hide ClearBits;
    var n := live[at];
    var g', live' := Given(g, at), live - {at};
    assert Fill(g'.bitmap, at, n, true) == g.bitmap by {
      forall k | at <= k < at + n ensures g.bitmap[k] {
        OnlyOne(live, at, k);
      }
    }
    ClearBitsFilled(g'.bitmap, at, n);
    ClearBitsBound(g'.bitmap);
    assert live == live'[at := n];
    forall k | 0 <= k < BLOCKS ensures g'.bitmap[k] <==> Covers(live', k) {
      CoversMore(live', at, n, k);
      if at <= k < at + n {
        OnlyOne(live, at, k);
      }
    }
  }

  lemma {:induction false} ClearBitsBound(b: seq<bool>)
    ensures ClearBits(b) <= |b|
  {
    if b != [] {
      ClearBitsBound(b[..|b| - 1]);
    }
  }
}
