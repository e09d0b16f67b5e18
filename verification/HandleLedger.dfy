// Chains through NextFreeValue, and the books that say where every handle is.
module HandleLedger {
  import opened HandleProtocol
  import opened Chains
  import opened Listings

  // Where a handle is: on the main or the alternate free list, held by a client, in the
  // hand of the owner of the table lock, or being freed by a thread.
  datatype Place = Main | Alt | Out | Hand | Freeing(who: nat)

  // The chains are listed from the head on. moving is what is left of a detached chain,
  // moved what the owner of the table lock is about to push.
  datatype Ledger = Ledger(main: seq<nat>, alt: seq<nat>, moving: seq<nat>, moved: seq<nat>, place: seq<Place>)

  // ---------- the books ----------

  function Recolor(place: seq<Place>, a: Place, b: Place): (r: seq<Place>)
    ensures |r| == |place| && forall v :: 0 <= v < |r| ==> r[v] == (if place[v] == a then b else place[v])
  {
    seq(|place|, v requires 0 <= v < |place| => if place[v] == a then b else place[v])
  }

  lemma ListedRecolored(place: seq<Place>, c: seq<nat>, a: Place, d: seq<nat>, b: Place)
    requires Listed(place, c, a) && Listed(place, d, b) && a != b
    ensures Listed(Recolor(place, a, b), c + d, b) && Listed(Recolor(place, a, b), [], a)
  {
    var e := c + d;
    forall j, k | 0 <= j < k < |e| ensures e[j] != e[k] {
      assert e[j] in (if j < |c| then c else d) && e[k] in (if k < |c| then c else d);
    }
  }

  lemma ListedElsewhere(place: seq<Place>, c: seq<nat>, p: Place, a: Place, b: Place)
    requires Listed(place, c, p) && p != a && p != b
    ensures Listed(Recolor(place, a, b), c, p)
  {
  }

  function Range(base: nat): (r: seq<nat>)
    ensures |r| == LEVEL_ENTRIES && (forall j :: 0 <= j < LEVEL_ENTRIES ==> r[j] == base + j)
  {
    seq(LEVEL_ENTRIES, j requires 0 <= j < LEVEL_ENTRIES => base + j)
  }

  function AllHand(): (r: seq<Place>)
    ensures |r| == LEVEL_ENTRIES && (forall j :: 0 <= j < LEVEL_ENTRIES ==> r[j] == Hand)
  {
    seq(LEVEL_ENTRIES, _ => Hand)
  }

  lemma ListedBatch(place: seq<Place>)
    requires Listed(place, [], Hand)
    ensures Listed(place + AllHand(), Range(|place|), Hand)
  {
    var r := Range(|place|);
    assert forall u :: 0 <= u < |place| ==> place[u] != Hand;
    forall v | 0 <= v < |place + AllHand()| && (place + AllHand())[v] == Hand ensures v in r {
      assert r[v - |place|] == v;
    }
  }

  lemma LinkedBatch(next: seq<nat>)
    ensures LinkedTo(next + Fresh(|next|), |next|, Range(|next|), INVALID)
  {
    var n, r := next + Fresh(|next|), Range(|next|);
    forall k | 0 <= k < |r| ensures r[k] < |n| && n[r[k]] == At(r, k + 1, INVALID) {
      assert n[|next| + k] == Fresh(|next|)[k];
    }
  }
}
