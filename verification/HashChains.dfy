// The chains of a hashtable: one for each bucket and one of free entries, all threaded
// through the Next fields of the same entry array.
module HashChains {
  import opened Chains
  import opened Listings

  const NONE := 0xFFFF_FFFF

  // The chain an entry is on; a loose entry is on none.
  datatype Place = Bucket(k: nat) | Free | Loose

  // The chain of every bucket, the chain of free entries, and which chain each entry is on.
  datatype Books = Books(chains: seq<seq<nat>>, free: seq<nat>, place: seq<Place>)

  ghost predicate Kept(next: seq<nat>, buckets: seq<nat>, freeEntry: nat, b: Books) {
    Shaped(next, buckets, freeEntry, b.chains, b.free, b.place)
  }

  ghost predicate Shaped(next: seq<nat>, buckets: seq<nat>, freeEntry: nat, chains: seq<seq<nat>>, free: seq<nat>, place: seq<Place>) {
    && |chains| == |buckets| && |place| == |next| && |next| < NONE
    && (forall k :: 0 <= k < |buckets| ==> LinkedTo(next, buckets[k], chains[k], NONE) && Listed(place, chains[k], Bucket(k)))
    && LinkedTo(next, freeEntry, free, NONE) && Listed(place, free, Free)
    && (forall v :: 0 <= v < |place| && place[v].Bucket? ==> place[v].k < |buckets|)
  }

  lemma PushBucket(next: seq<nat>, buckets: seq<nat>, freeEntry: nat, chains: seq<seq<nat>>, free: seq<nat>, place: seq<Place>, v: nat, k: nat)
    requires Shaped(next, buckets, freeEntry, chains, free, place) && v < |place| && place[v] == Loose && k < |buckets|
    ensures Shaped(next[v := buckets[k]], buckets[k := v], freeEntry, chains[k := [v] + chains[k]], free, place[v := Bucket(k)])
  {
    var next', place' := next[v := buckets[k]], place[v := Bucket(k)];
    forall m | 0 <= m < |buckets|
      ensures LinkedTo(next', buckets[k := v][m], chains[k := [v] + chains[k]][m], NONE)
      ensures Listed(place', chains[k := [v] + chains[k]][m], Bucket(m))
    {
      LinkedStore(next, buckets[m], chains[m], NONE, v, buckets[k]);
      if m == k {
        LinkedPush(next', buckets[k], chains[k], NONE, v);
        ListedPush(place, chains[k], Bucket(k), v);
      } else {
        ListedOther(place, chains[m], Bucket(m), v, Bucket(k));
      }
    }
    LinkedStore(next, freeEntry, free, NONE, v, buckets[k]);
    ListedOther(place, free, Free, v, Bucket(k));
  }

  lemma PushFree(next: seq<nat>, buckets: seq<nat>, freeEntry: nat, chains: seq<seq<nat>>, free: seq<nat>, place: seq<Place>, v: nat)
    requires Shaped(next, buckets, freeEntry, chains, free, place) && v < |place| && place[v] == Loose
    ensures Shaped(next[v := freeEntry], buckets, v, chains, [v] + free, place[v := Free])
  {
    var next', place' := next[v := freeEntry], place[v := Free];
    forall m | 0 <= m < |buckets| ensures LinkedTo(next', buckets[m], chains[m], NONE) && Listed(place', chains[m], Bucket(m)) {
      LinkedStore(next, buckets[m], chains[m], NONE, v, freeEntry);
      ListedOther(place, chains[m], Bucket(m), v, Free);
    }
    LinkedStore(next, freeEntry, free, NONE, v, freeEntry);
    LinkedPush(next', freeEntry, free, NONE, v);
    ListedPush(place, free, Free, v);
  }

  lemma PopFree(next: seq<nat>, buckets: seq<nat>, freeEntry: nat, chains: seq<seq<nat>>, free: seq<nat>, place: seq<Place>)
    requires Shaped(next, buckets, freeEntry, chains, free, place) && freeEntry != NONE
    ensures free != [] && freeEntry == free[0] < |place| && place[freeEntry] == Free
    ensures Shaped(next, buckets, next[freeEntry], chains, free[1..], place[freeEntry := Loose])
  {
    LinkedPop(next, freeEntry, free, NONE);
    assert free[0] in free;
    ListedPop(place, free, Free, Loose);
    forall m | 0 <= m < |buckets| ensures Listed(place[freeEntry := Loose], chains[m], Bucket(m)) {
      ListedOther(place, chains[m], Bucket(m), freeEntry, Loose);
    }
  }

  lemma Extend(next: seq<nat>, buckets: seq<nat>, freeEntry: nat, chains: seq<seq<nat>>, free: seq<nat>, place: seq<Place>, x: nat)
    requires Shaped(next, buckets, freeEntry, chains, free, place) && |next| + 1 < NONE
    ensures Shaped(next + [x], buckets, freeEntry, chains, free, place + [Loose])
  {
    forall m | 0 <= m < |buckets| ensures LinkedTo(next + [x], buckets[m], chains[m], NONE) && Listed(place + [Loose], chains[m], Bucket(m)) {
      LinkedMore(next, buckets[m], chains[m], NONE, [x]);
      ListedMore(place, chains[m], Bucket(m), [Loose]);
    }
    LinkedMore(next, freeEntry, free, NONE, [x]);
    ListedMore(place, free, Free, [Loose]);
  }

  // next and the buckets after unlinking the element at place j of chain k.
  function NextWithout(next: seq<nat>, c: seq<nat>, j: nat): seq<nat>
    requires j < |c| && c[j] < |next| && (j > 0 ==> c[j - 1] < |next|)
  {
    if j == 0 then next else next[c[j - 1] := next[c[j]]]
  }

  lemma DropLinked(next: seq<nat>, head: nat, c: seq<nat>, j: nat)
    requires LinkedTo(next, head, c, NONE) && Distinct(c) && j < |c|
    ensures c[j] < |next| && (j > 0 ==> c[j - 1] < |next|)
    ensures LinkedTo(NextWithout(next, c, j), if j == 0 then next[c[0]] else head, c[..j] + c[j + 1..], NONE)
  {
    if j == 0 {
      LinkedPop(next, head, c, NONE);
      assert c[..0] + c[1..] == c[1..];
    } else {
      LinkedRemove(next, head, c, NONE, j);
    }
  }

  lemma DropBucket(next: seq<nat>, buckets: seq<nat>, freeEntry: nat, chains: seq<seq<nat>>, free: seq<nat>, place: seq<Place>, k: nat, j: nat)
    requires Shaped(next, buckets, freeEntry, chains, free, place) && k < |buckets| && j < |chains[k]|
    ensures var c := chains[k];
      && c[j] < |next| && (j > 0 ==> c[j - 1] < |next|) && place[c[j]] == Bucket(k)
      && Shaped(NextWithout(next, c, j), if j == 0 then buckets[k := next[c[j]]] else buckets, freeEntry,
                chains[k := c[..j] + c[j + 1..]], free, place[c[j] := Loose])
  {
    hide LinkedTo;
    var c := chains[k];
    var v := c[j];
    assert v in c && (j > 0 ==> c[j - 1] in c);
    DropLinked(next, buckets[k], c, j);
    ListedRemove(place, c, Bucket(k), j, Loose);
    forall m | 0 <= m < |buckets| && m != k
      ensures LinkedTo(NextWithout(next, c, j), buckets[m], chains[m], NONE) && Listed(place[v := Loose], chains[m], Bucket(m))
    {
      if j > 0 {
        LinkedStore(next, buckets[m], chains[m], NONE, c[j - 1], next[v]);
      }
      ListedOther(place, chains[m], Bucket(m), v, Loose);
    }
    if j > 0 {
      LinkedStore(next, freeEntry, free, NONE, c[j - 1], next[v]);
    }
    ListedOther(place, free, Free, v, Loose);
  }

  // Every entry of a bucket comes loose.
  function Loosened(place: seq<Place>): (r: seq<Place>)
    ensures |r| == |place| && forall v :: 0 <= v < |r| ==> r[v] == (if place[v] == Free then Free else Loose)
  {
    seq(|place|, v requires 0 <= v < |place| => if place[v] == Free then Free else Loose)
  }

  lemma Emptied(next: seq<nat>, buckets: seq<nat>, freeEntry: nat, chains: seq<seq<nat>>, free: seq<nat>, place: seq<Place>, n: nat)
    requires Shaped(next, buckets, freeEntry, chains, free, place)
    ensures Shaped(next, seq(n, _ => NONE), freeEntry, seq(n, _ => []), free, Loosened(place))
  {
    forall m | 0 <= m < n ensures LinkedTo(next, NONE, [], NONE) && Listed(Loosened(place), [], Bucket(m)) {
    }
  }

  // ---------- what the table does, on the books ----------

  // A loose entry goes to the front of bucket k.
  function InBucket(b: Books, v: nat, k: nat): Books
    requires v < |b.place| && k < |b.chains|
  {
    b.(chains := b.chains[k := [v] + b.chains[k]], place := b.place[v := Bucket(k)])
  }

  lemma KeptSizes(next: seq<nat>, buckets: seq<nat>, freeEntry: nat, b: Books)
    requires Kept(next, buckets, freeEntry, b)
    ensures |b.chains| == |buckets| && |b.place| == |next|
  {
  }

  // The chain of bucket k, and the step along it from its j-th entry.
  lemma ChainKept(next: seq<nat>, buckets: seq<nat>, freeEntry: nat, b: Books, k: nat)
    requires Kept(next, buckets, freeEntry, b) && k < |buckets|
    ensures k < |b.chains| && buckets[k] == At(b.chains[k], 0, NONE) && Listed(b.place, b.chains[k], Bucket(k))
  {
  }

  lemma ChainStep(next: seq<nat>, buckets: seq<nat>, freeEntry: nat, b: Books, k: nat, j: nat)
    requires Kept(next, buckets, freeEntry, b) && k < |buckets| && k < |b.chains| && j < |b.chains[k]|
    ensures b.chains[k][j] < |next| < NONE && next[b.chains[k][j]] == At(b.chains[k], j + 1, NONE)
  {
  }

  // The first free entry becomes the first of bucket k.
  function FreeInBucket(b: Books, v: nat, k: nat): Books
    requires v < |b.place| && k < |b.chains| && b.free != []
  {
    InBucket(b.(free := b.free[1..]), v, k)
  }

  lemma FreeTaken(next: seq<nat>, buckets: seq<nat>, freeEntry: nat, b: Books, k: nat)
    requires Kept(next, buckets, freeEntry, b) && freeEntry != NONE && k < |buckets|
    ensures b.free != [] && freeEntry < |next| && b.place[freeEntry] == Free
    ensures Kept(next[freeEntry := buckets[k]], buckets[k := freeEntry], next[freeEntry], FreeInBucket(b, freeEntry, k))
  {
    var v := freeEntry;
    PopFree(next, buckets, freeEntry, b.chains, b.free, b.place);
    PushBucket(next, buckets, next[v], b.chains, b.free[1..], b.place[v := Loose], v, k);
    assert b.place[v := Loose][v := Bucket(k)] == b.place[v := Bucket(k)];
  }

  // The entry behind the last becomes the first of bucket k.
  function NextInBucket(b: Books, k: nat): Books
    requires k < |b.chains|
  {
    b.(chains := b.chains[k := [|b.place|] + b.chains[k]], place := b.place + [Bucket(k)])
  }

  lemma NextTaken(next: seq<nat>, buckets: seq<nat>, freeEntry: nat, b: Books, k: nat)
    requires Kept(next, buckets, freeEntry, b) && |next| + 1 < NONE && k < |buckets|
    ensures Kept(next + [buckets[k]], buckets[k := |next|], freeEntry, NextInBucket(b, k))
  {
    var x, v := buckets[k], |next|;
    Extend(next, buckets, freeEntry, b.chains, b.free, b.place, x);
    PushBucket(next + [x], buckets, freeEntry, b.chains, b.free, b.place + [Loose], v, k);
    assert (next + [x])[v := x] == next + [x];
    assert (b.place + [Loose])[v := Bucket(k)] == b.place + [Bucket(k)];
  }

  // The element at place j of bucket k comes loose.
  function OutOfBucket(b: Books, k: nat, j: nat): Books
    requires k < |b.chains| && j < |b.chains[k]| && b.chains[k][j] < |b.place|
  {
    var c := b.chains[k];
    b.(chains := b.chains[k := c[..j] + c[j + 1..]], place := b.place[c[j] := Loose])
  }

  lemma Dropped(next: seq<nat>, buckets: seq<nat>, freeEntry: nat, b: Books, k: nat, j: nat)
    requires Kept(next, buckets, freeEntry, b) && k < |buckets| && j < |b.chains[k]|
    ensures var c := b.chains[k];
      && c[j] < |next| && (j > 0 ==> c[j - 1] < |next|) && b.place[c[j]] == Bucket(k)
      && Kept(NextWithout(next, c, j), if j == 0 then buckets[k := next[c[j]]] else buckets, freeEntry, OutOfBucket(b, k, j))
  {
    hide LinkedTo, Listed, NextWithout;
    DropBucket(next, buckets, freeEntry, b.chains, b.free, b.place, k, j);
  }

  // A loose entry becomes the first free one.
  function Freed(b: Books, v: nat): Books
    requires v < |b.place|
  {
    b.(free := [v] + b.free, place := b.place[v := Free])
  }

  lemma Returned(next: seq<nat>, buckets: seq<nat>, freeEntry: nat, b: Books, v: nat)
    requires Kept(next, buckets, freeEntry, b) && v < |b.place| && b.place[v] == Loose
    ensures Kept(next[v := freeEntry], buckets, v, Freed(b, v))
  {
    PushFree(next, buckets, freeEntry, b.chains, b.free, b.place, v);
  }
}
