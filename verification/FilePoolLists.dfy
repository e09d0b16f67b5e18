// The free lists of a file pool: doubly linked lists threaded through the segments.
module FilePoolLists {
  import opened FilePoolBlocks
  import opened Listings

  const LISTS := 8

  // The list for segments with n free blocks, and the first list to give up on when n
  // blocks are wanted.
  function ListIndex(headerSpan: nat, n: nat): (k: nat)
    ensures k < LISTS
  {
    if n >= BLOCKS / 64 then
      if n >= BLOCKS / 2 then
        if n >= BLOCKS - headerSpan then 0 else 1
      else
        if n >= BLOCKS / 16 then 2 else 3
    else
      if n >= 4 then
        if n >= BLOCKS / 256 then 4 else 5
      else
        if n >= 1 then 6 else 7
  }

  // The fewest free blocks for list k.
  function Least(headerSpan: nat, k: nat): int
    requires k < LISTS
  {
    [BLOCKS - headerSpan, BLOCKS / 2, BLOCKS / 16, BLOCKS / 64, BLOCKS / 256, 4, 1, 0][k]
  }

  // The lists divide the segments by these bounds, list 0 having the most free blocks.
  lemma ListIndexIs(headerSpan: nat, n: nat, k: nat)
    requires k < LISTS && headerSpan <= BLOCKS / 2
    ensures ListIndex(headerSpan, n) <= k <==> n >= Least(headerSpan, k)
  {}

  // More free blocks never put a segment on a later list, so the lists up to that of n
  // hold every segment with n free blocks.
  lemma ListIndexFalls(headerSpan: nat, n: nat, free: nat)
    requires n <= free
    ensures ListIndex(headerSpan, free) <= ListIndex(headerSpan, n)
  {
  }

  function At(c: seq<nat>, k: int): nat {
    if 0 <= k < |c| then c[k] else NONE
  }

  // Following the links from head and back gives c.
  predicate Linked(g: seq<Segment>, head: nat, c: seq<nat>) {
    && head == At(c, 0)
    && forall k :: 0 <= k < |c| ==> c[k] < |g| && g[c[k]].flink == At(c, k + 1) && g[c[k]].blink == At(c, k - 1)
  }

  // Every segment is on the list that place says; place LISTS means none.
  ghost predicate Filed(g: seq<Segment>, heads: seq<nat>, lists: seq<seq<nat>>, place: seq<nat>) {
    && |heads| == |lists| == LISTS && |place| == |g| < NONE
    && (forall k :: 0 <= k < LISTS ==> Linked(g, heads[k], lists[k]) && Listed(place, lists[k], k))
  }

  // ---------- insertion at the front ----------

  function Inserted(g: seq<Segment>, head: nat, i: nat): (r: seq<Segment>)
    requires i < |g|
    ensures |r| == |g|
  {
    var g1 := g[i := g[i].(blink := NONE, flink := head)];
    if head < |g| then g1[head := g1[head].(blink := i)] else g1
  }

  lemma InsertedLinked(g: seq<Segment>, head: nat, c: seq<nat>, i: nat)
    requires Linked(g, head, c) && i < |g| < NONE && i !in c && Distinct(c)
    ensures Linked(Inserted(g, head, i), i, [i] + c)
  {
    var g', d := Inserted(g, head, i), [i] + c;
    assert c != [] ==> c[0] in c;
    forall k | 0 <= k < |d|
      ensures d[k] < |g'| && g'[d[k]].flink == At(d, k + 1) && g'[d[k]].blink == At(d, k - 1)
    {
      if k > 0 {
        assert d[k] == c[k - 1] && c[k - 1] in c;
        assert k > 1 ==> c[k - 1] != c[0] && d[k - 1] == c[k - 2];
      }
    }
  }

  // A list that has neither i nor the old head of the other list stays as it is.
  lemma LinkedElsewhere(g: seq<Segment>, g': seq<Segment>, head: nat, c: seq<nat>)
    requires Linked(g, head, c) && |g'| == |g|
    requires forall v :: v in c && v < |g| ==> g'[v].flink == g[v].flink && g'[v].blink == g[v].blink
    ensures Linked(g', head, c)
  {
    forall k | 0 <= k < |c| ensures g'[c[k]].flink == At(c, k + 1) && g'[c[k]].blink == At(c, k - 1) {
      assert c[k] in c;
    }
  }

  lemma FiledInsert(g: seq<Segment>, heads: seq<nat>, lists: seq<seq<nat>>, place: seq<nat>, k: nat, i: nat)
    requires Filed(g, heads, lists, place) && k < LISTS && i < |g| && place[i] == LISTS
    ensures Filed(Inserted(g, heads[k], i), heads[k := i], lists[k := [i] + lists[k]], place[i := k])
  {
    var head := heads[k];
    var g', heads', lists', place' := Inserted(g, head, i), heads[k := i], lists[k := [i] + lists[k]], place[i := k];
    forall m | 0 <= m < LISTS ensures Linked(g', heads'[m], lists'[m]) && Listed(place', lists'[m], m) {
      if m == k {
        InsertedLinked(g, head, lists[k], i);
        ListedPush(place, lists[k], k, i);
      } else {
        assert head < |g| ==> head in lists[k];
        LinkedElsewhere(g, g', heads[m], lists[m]);
        ListedOther(place, lists[m], m, i, k);
      }
    }
  }

  // ---------- removal from anywhere ----------

  function Unlinked(g: seq<Segment>, i: nat): (r: seq<Segment>)
    requires i < |g|
    ensures |r| == |g|
  {
    var flink, blink := g[i].flink, g[i].blink;
    var g1 := if flink < |g| then g[flink := g[flink].(blink := blink)] else g;
    if blink < |g| then g1[blink := g1[blink].(flink := flink)] else g1
  }

  // The new head of the list that i is taken from.
  function HeadWithout(g: seq<Segment>, head: nat, i: nat): nat
    requires i < |g|
  {
    if g[i].blink != NONE then head else g[i].flink
  }

  lemma Without(c: seq<nat>, j: nat, k: int)
    requires j < |c| && k >= -1
    ensures At(c[..j] + c[j + 1..], k) == (if k < j then At(c, k) else At(c, k + 1))
  {
  }

  lemma UnlinkedAt(g: seq<Segment>, i: nat, v: nat)
    requires i < |g| && v < |g|
    ensures Unlinked(g, i)[v].flink == (if v == g[i].blink then g[i].flink else g[v].flink)
    ensures Unlinked(g, i)[v].blink == (if v == g[i].flink then g[i].blink else g[v].blink)
  {
  }

  lemma AtOnlyThere(c: seq<nat>, m: nat, k: int)
    requires Distinct(c) && m < |c| && c[m] < NONE
    ensures c[m] == At(c, k) <==> m == k
  {
  }

  // The links of an element that stays.
  lemma StaysLinked(g: seq<Segment>, head: nat, c: seq<nat>, j: nat, m: nat)
    requires Linked(g, head, c) && Distinct(c) && j < |c| && |g| < NONE && c[j] < |g| && m < |c| && m != j
    ensures c[m] < |g|
    ensures Unlinked(g, c[j])[c[m]].flink == At(c, if m + 1 == j then j + 1 else m + 1)
    ensures Unlinked(g, c[j])[c[m]].blink == At(c, if m == j + 1 then j - 1 else m - 1)
  {
    UnlinkedAt(g, c[j], c[m]);
    AtOnlyThere(c, m, j - 1);
    AtOnlyThere(c, m, j + 1);
  }

  lemma WithoutLinked(g': seq<Segment>, c: seq<nat>, j: nat, d: seq<nat>, k: nat)
    requires j < |c| && k + 1 < |c| && d == c[..j] + c[j + 1..]
    requires var m := if k < j then k else k + 1;
      && c[m] < |g'|
      && g'[c[m]].flink == At(c, if m + 1 == j then j + 1 else m + 1)
      && g'[c[m]].blink == At(c, if m == j + 1 then j - 1 else m - 1)
    ensures d[k] < |g'| && g'[d[k]].flink == At(d, k + 1) && g'[d[k]].blink == At(d, k - 1)
  {
    Without(c, j, k);
    Without(c, j, k + 1);
    Without(c, j, k - 1);
  }

  lemma HeadStays(g: seq<Segment>, head: nat, c: seq<nat>, j: nat, d: seq<nat>)
    requires Linked(g, head, c) && j < |c| && |g| < NONE && c[j] < |g| && d == c[..j] + c[j + 1..]
    ensures HeadWithout(g, head, c[j]) == At(d, 0)
  {
    Without(c, j, 0);
    assert j > 0 ==> At(c, j - 1) != NONE;
  }

  lemma UnlinkedLinked(g: seq<Segment>, head: nat, c: seq<nat>, j: nat, d: seq<nat>)
    requires Linked(g, head, c) && Distinct(c) && j < |c| && |g| < NONE && c[j] < |g| && d == c[..j] + c[j + 1..]
    ensures Linked(Unlinked(g, c[j]), HeadWithout(g, head, c[j]), d)
  {
    hide At;
    var g' := Unlinked(g, c[j]);
    forall k | 0 <= k < |d|
      ensures d[k] < |g'| && g'[d[k]].flink == At(d, k + 1) && g'[d[k]].blink == At(d, k - 1)
    {
      StaysLinked(g, head, c, j, if k < j then k else k + 1);
      WithoutLinked(g', c, j, d, k);
    }
    HeadStays(g, head, c, j, d);
  }

  lemma FiledRemove(g: seq<Segment>, heads: seq<nat>, lists: seq<seq<nat>>, place: seq<nat>, k: nat, j: nat)
    requires Filed(g, heads, lists, place) && k < LISTS && j < |lists[k]|
    ensures var i := lists[k][j];
      && i < |g| && place[i] == k
      && Filed(Unlinked(g, i), heads[k := HeadWithout(g, heads[k], i)], lists[k := lists[k][..j] + lists[k][j + 1..]], place[i := LISTS])
  {
    var i := lists[k][j];
    assert i in lists[k];
    var g', heads' := Unlinked(g, i), heads[k := HeadWithout(g, heads[k], i)];
    var lists', place' := lists[k := lists[k][..j] + lists[k][j + 1..]], place[i := LISTS];
    forall m | 0 <= m < LISTS ensures Linked(g', heads'[m], lists'[m]) && Listed(place', lists'[m], m) {
      if m == k {
        UnlinkedLinked(g, heads[k], lists[k], j, lists'[k]);
        ListedRemove(place, lists[k], k, j, LISTS);
      } else {
        forall v | v in lists[m] ensures v !in lists[k] {
          assert place[v] == m;
        }
        OtherUnlinked(g, heads[k], lists[k], j, heads[m], lists[m]);
        ListedOther(place, lists[m], m, i, LISTS);
      }
    }
  }

  lemma NeighboursListed(g: seq<Segment>, head: nat, c: seq<nat>, j: nat)
    requires Linked(g, head, c) && j < |c|
    ensures var i := c[j]; i < |g| && (g[i].flink < NONE ==> g[i].flink in c) && (g[i].blink < NONE ==> g[i].blink in c)
  {
  }

  lemma OtherUnlinked(g: seq<Segment>, head: nat, c: seq<nat>, j: nat, head': nat, c': seq<nat>)
    requires Linked(g, head, c) && Linked(g, head', c') && j < |c| && |g| < NONE && (forall v :: v in c' ==> v !in c)
    ensures c[j] < |g| && Linked(Unlinked(g, c[j]), head', c')
  {
    NeighboursListed(g, head, c, j);
    LinkedElsewhere(g, Unlinked(g, c[j]), head', c');
  }

  // A write that leaves all links alone leaves the lists alone.
  lemma FiledSame(g: seq<Segment>, heads: seq<nat>, lists: seq<seq<nat>>, place: seq<nat>, i: nat, s: Segment)
    requires Filed(g, heads, lists, place) && i < |g| && s.flink == g[i].flink && s.blink == g[i].blink
    ensures Filed(g[i := s], heads, lists, place)
  {
    forall m | 0 <= m < LISTS ensures Linked(g[i := s], heads[m], lists[m]) {
      LinkedElsewhere(g, g[i := s], heads[m], lists[m]);
    }
  }
}
