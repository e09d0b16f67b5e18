// The mapped views of a file pool: found by segment through hash buckets and by address
// through an AVL tree, and kept for a while after their last reference is gone.
module ViewCache {
  import opened Listings
  import opened AvlShape
  import opened AvlTree
  import AvlFind
  import AvlRemove

  const BUCKETS := 32

  // links is the node of the view in the tree of bases. The reference count, the one field
  // of a view that changes, is kept by the cache.
  datatype View = View(segment: nat, base: nat, links: Links)

  datatype Search = Missing | Found(view: View)

  // The circular list of a bucket, starting at its head.
  type Chain = seq<View>

  ghost predicate OnePerSegment(views: set<View>) {
    forall u, v :: u in views && v in views && u.segment == v.segment ==> u == v
  }

  // The buckets hold exactly the views, each where its segment says.
  ghost predicate Indexed(buckets: seq<Chain>, views: set<View>) {
    && |buckets| == BUCKETS
    && (forall k :: 0 <= k < BUCKETS ==> Distinct(buckets[k]))
    && (forall k :: 0 <= k < BUCKETS ==> forall v :: v in buckets[k] ==> v in views && v.segment % BUCKETS == k)
    && (forall v :: v in views ==> v in buckets[v.segment % BUCKETS])
  }

  // The nodes of the tree are those of the views, ordered by base. viewOf leads from a node
  // to the view that it is a field of.
  ghost predicate Threaded(nodes: set<Links>, viewOf: map<Links, View>, views: set<View>) {
    && nodes == viewOf.Keys
    && (forall l :: l in viewOf ==> viewOf[l] in views && viewOf[l].links == l && viewOf[l].base == l.key)
    && (forall v :: v in views ==> v.links in viewOf && viewOf[v.links] == v)
  }

  // The views without references are exactly those in the list.
  ghost predicate Released(inactive: seq<View>, refCount: map<View, nat>) {
    && Distinct(inactive) && (forall v :: v in inactive ==> v in refCount)
    && (forall v :: v in refCount ==> (refCount[v] == 0 <==> v in inactive))
  }

  lemma ThreadedMore(nodes: set<Links>, viewOf: map<Links, View>, views: set<View>, v: View)
    requires Threaded(nodes, viewOf, views) && v.links !in nodes && v.base == v.links.key
    ensures Threaded(nodes + {v.links}, viewOf[v.links := v], views + {v})
  {
  }

  lemma ThreadedLess(nodes: set<Links>, viewOf: map<Links, View>, views: set<View>, v: View)
    requires Threaded(nodes, viewOf, views) && v in views
    ensures Threaded(nodes - {v.links}, viewOf - {v.links}, views - {v})
  {
  }

  // ---------- the list of inactive views ----------

  lemma ReleasedPush(inactive: seq<View>, refCount: map<View, nat>, v: View)
    requires Released(inactive, refCount - {v}) && v in refCount && refCount[v] == 0
    ensures Released([v] + inactive, refCount)
  {
    assert forall u :: u in inactive ==> u in refCount - {v};
    assert forall u :: u in refCount && u != v ==> u in refCount - {v} && (refCount - {v})[u] == refCount[u];
    assert Distinct([v] + inactive) by {
      assert forall k :: 0 <= k < |inactive| ==> inactive[k] in inactive && inactive[k] != v;
    }
  }

  lemma ReleasedPop(inactive: seq<View>, refCount: map<View, nat>)
    requires Released(inactive, refCount) && inactive != []
    ensures var n := |inactive| - 1;
      inactive[n] in refCount && refCount[inactive[n]] == 0 && Released(inactive[..n], refCount - {inactive[n]})
  {
    var n := |inactive| - 1;
    var v, rest := inactive[n], inactive[..n];
    assert inactive == rest + [v] && v in inactive;
    assert forall u :: u in inactive <==> u in rest || u == v;
  }

  lemma ReleasedRemove(inactive: seq<View>, refCount: map<View, nat>, j: nat, count: nat)
    requires Released(inactive, refCount) && j < |inactive| && count > 0
    ensures inactive[j] in refCount && Released(inactive[..j] + inactive[j + 1..], refCount[inactive[j] := count])
  {
    assert inactive[j] in inactive;
    RemovedFrom(inactive, j);
  }

  // ---------- chains ----------

  function AddedTo(c: Chain, v: View): Chain {
    if c == [] then [v] else [c[0], v] + c[1..]
  }

  lemma AddedIndexed(buckets: seq<Chain>, views: set<View>, v: View)
    requires Indexed(buckets, views) && v !in views
    ensures var k := v.segment % BUCKETS; Indexed(buckets[k := AddedTo(buckets[k], v)], views + {v})
  {
    var k := v.segment % BUCKETS;
    var c, d := buckets[k], AddedTo(buckets[k], v);
    assert v !in c;
    assert forall u :: u in d <==> u in c || u == v by {
      assert c != [] ==> c == [c[0]] + c[1..];
    }
    assert Distinct(d);
  }

  lemma RemovedIndexed(buckets: seq<Chain>, views: set<View>, v: View, j: nat)
    requires Indexed(buckets, views) && v in views
    requires var c := buckets[v.segment % BUCKETS]; j < |c| && c[j] == v
    ensures var k := v.segment % BUCKETS; Indexed(buckets[k := buckets[k][..j] + buckets[k][j + 1..]], views - {v})
  {
    RemovedFrom(buckets[v.segment % BUCKETS], j);
  }

  lemma RemovedFrom(c: Chain, j: nat)
    requires Distinct(c) && j < |c|
    ensures var d := c[..j] + c[j + 1..]; Distinct(d) && forall u :: u in d <==> u in c && u != c[j]
  {
    var d := c[..j] + c[j + 1..];
    forall u | u in c && u != c[j] ensures u in d {
      var k :| 0 <= k < |c| && c[k] == u;
      assert u == d[if k < j then k else k - 1];
    }
    assert forall k :: 0 <= k < |d| ==> d[k] == c[if k < j then k else k + 1];
  }

  lemma EvictedOne(all: seq<View>, n: nat, counts: map<View, nat>)
    requires n < |all|
    ensures counts - Evicted(all, n) == counts - Evicted(all, n + 1) - {all[n]} && all[..n + 1][..n] == all[..n]
  {
  }

  // The views behind the first n of the list.
  ghost function Evicted(all: seq<View>, n: nat): set<View>
    requires n <= |all|
  {
    set k | n <= k < |all| :: all[k]
  }

  ghost predicate Mapped(buckets: seq<Chain>, nodes: set<Links>, viewOf: map<Links, View>, views: set<View>) {
    OnePerSegment(views) && Indexed(buckets, views) && Threaded(nodes, viewOf, views)
  }

  ghost predicate Absent(views: set<View>, segment: nat, base: nat) {
    forall u :: u in views ==> u.segment != segment && u.base != base
  }

  lemma CountsMore(refCount: map<View, nat>, inactive: seq<View>, v: View, counts: map<View, nat>)
    requires OnePerSegment(refCount.Keys) && Released(inactive, refCount) && Absent(refCount.Keys, v.segment, v.base)
    requires counts == refCount[v := 1]
    ensures v !in refCount && counts.Keys == refCount.Keys + {v} && OnePerSegment(counts.Keys) && Released(inactive, counts)
  {
  }

  predicate Holds(v: View, address: nat, size: nat) {
    v.base <= address < v.base + size
  }

  class Views {
    const segmentSize: nat
    const maximum: nat
    const byBase: Tree
    var buckets: seq<Chain>
    var viewOf: map<Links, View>
    var refCount: map<View, nat>
    // from the one most recently released to the one least recently released
    var inactive: seq<View>
    var inactiveCount: nat

    // The two indexes hold the same views, at most one for each segment.
    ghost predicate Indexes()
      reads `buckets, `viewOf, `refCount, byBase, byBase.All()
    {
      0 < segmentSize && byBase.Valid() && Mapped(buckets, byBase.nodes, viewOf, refCount.Keys)
    }

    // The views without references are exactly the inactive ones, of which there are not
    // too many.
    ghost predicate Valid()
      reads this, byBase, byBase.All()
    {
      Indexes() && inactiveCount == |inactive| <= maximum && Released(inactive, refCount)
    }

    constructor (segmentSize: nat, maximum: nat)
      requires 0 < segmentSize
      ensures Valid() && fresh(byBase) && fresh(byBase.All())
      ensures refCount == map[] && this.segmentSize == segmentSize && this.maximum == maximum
    {
      this.segmentSize, this.maximum := segmentSize, maximum;
      byBase := new Tree();
      buckets := seq(BUCKETS, _ => []);
      viewOf, refCount, inactive, inactiveCount := map[], map[], [], 0;
    }

    // PhFppFindViewByIndex
    method FindByIndex(segment: nat) returns (r: Search)
      requires Valid()
      ensures if r.Found? then r.view in refCount && r.view.segment == segment else forall v :: v in refCount ==> v.segment != segment
    {
      hide Released, Threaded, Tree.Valid, Distinct;
      var chain := buckets[segment % BUCKETS];
      var j := 0;
      while j < |chain|
        invariant j <= |chain|
        invariant forall k :: 0 <= k < j ==> chain[k].segment != segment
      {
        if chain[j].segment == segment {
          return Found(chain[j]);
        }
        j := j + 1;
      }
      r := Missing;
    }

    // PhFppFindViewByBase: what a linear scan over the views would find.
    method FindByBase(address: nat) returns (r: Search)
      requires Valid()
      ensures if r.Found? then r.view in refCount && Holds(r.view, address, segmentSize)
        else forall v :: v in refCount ==> !Holds(v, address, segmentSize)
    {
      hide Released, Indexed, OnePerSegment;
      var links := AvlFind.FindContaining(byBase, address, segmentSize);
      if links != null {
        r := Found(viewOf[links]);
      } else {
        r := Missing;
        forall v | v in refCount ensures !Holds(v, address, segmentSize) {
          assert v.links in byBase.nodes;
        }
      }
    }

    // PhFppCreateView: base is where the system has mapped the segment, which is not where
    // any other view begins.
    method CreateView(segment: nat, base: nat) returns (view: View)
      requires Valid() && Absent(refCount.Keys, segment, base)
      modifies `buckets, `viewOf, `refCount, byBase, byBase.All()
      ensures Valid() && view.segment == segment && view.base == base && fresh(view.links)
      ensures byBase.nodes == old(byBase.nodes) + {view.links}
      ensures view !in old(refCount) && refCount == old(refCount)[view := 1]
    {
      hide Released, Indexed, Threaded, OnePerSegment, Absent, Tree.Valid, Distinct;
      var links := new Links(base);
      view := View(segment, base, links);
      ghost var views := refCount.Keys;
      CountsMore(refCount, inactive, view, refCount[view := 1]);
      refCount := refCount[view := 1];
      AddByIndex(view, views);
      AddByBase(view, views);
    }

    // PhFppAddViewByIndex
    method AddByIndex(view: View, ghost views: set<View>)
      requires Indexed(buckets, views) && view !in views
      modifies `buckets
      ensures Indexed(buckets, views + {view})
    {
      AddedIndexed(buckets, views, view);
      var k := view.segment % BUCKETS;
      buckets := buckets[k := AddedTo(buckets[k], view)];
    }

    // PhFppAddViewByBase
    method AddByBase(view: View, ghost views: set<View>)
      requires byBase.Valid() && Threaded(byBase.nodes, viewOf, views) && view.links !in byBase.All()
      requires view.base == view.links.key && Absent(views, view.segment, view.base)
      modifies `viewOf, byBase, byBase.All(), view.links
      ensures byBase.Valid() && Threaded(byBase.nodes, viewOf, views + {view})
      ensures byBase.nodes == old(byBase.nodes) + {view.links}
    {
      ThreadedMore(byBase.nodes, viewOf, views, view);
      assert forall l :: l in byBase.nodes ==> l.key != view.base;
      var existing;
      ghost var at, rebalances;
      existing, at, rebalances := byBase.Add(view.links);
      assert existing == null;
      viewOf := viewOf[view.links := view];
    }

    // PhFppDestroyView
    method DestroyView(view: View)
      requires Indexes() && view in refCount
      modifies `buckets, `viewOf, `refCount, byBase, byBase.All()
      ensures Indexes() && refCount == old(refCount) - {view} && byBase.nodes == old(byBase.nodes) - {view.links}
    {
      hide Indexed, Threaded, Tree.Valid;
      var j := IndexInBucket(view);
      var chain := buckets[view.segment % BUCKETS];
      RemovedIndexed(buckets, refCount.Keys, view, j);
      ThreadedLess(byBase.nodes, viewOf, refCount.Keys, view);
      NodeOf(view);
      ghost var views := refCount.Keys;
      // if view was the head, the next view in the chain becomes the head
      buckets := buckets[view.segment % BUCKETS := chain[..j] + chain[j + 1..]];
      viewOf, refCount := viewOf - {view.links}, refCount - {view};
      assert refCount.Keys == views - {view} && OnePerSegment(views - {view});
      ghost var at := AvlRemove.RemoveElement(byBase, view.links);
    }

    method IndexInBucket(view: View) returns (j: nat)
      requires Indexed(buckets, refCount.Keys) && view in refCount
      ensures |buckets| == BUCKETS && j < |buckets[view.segment % BUCKETS]| && buckets[view.segment % BUCKETS][j] == view
    {
      var chain := buckets[view.segment % BUCKETS];
      var i: nat :| i < |chain| && chain[i] == view;
      j := i;
    }

    lemma NodeOf(view: View)
      requires Threaded(byBase.nodes, viewOf, refCount.Keys) && view in refCount
      ensures view.links in byBase.nodes
    {
    }

    // PhFppDeactivateView: the view goes to the front of the inactive ones, and those least
    // recently released are destroyed until there are no more than allowed.
    method DeactivateView(view: View)
      requires Indexes() && view in refCount && refCount[view] == 0
      requires inactiveCount == |inactive| <= maximum && Released(inactive, refCount - {view})
      modifies this, byBase, byBase.All()
      ensures Valid() && Deactivated(view, old(inactive), old(refCount))
    {
      hide Mapped, Released, Tree.Valid, Indexes;
      ghost var all := [view] + inactive;
      ReleasedPush(inactive, refCount, view);
      assert all[..|all|] == all && Evicted(all, |all|) == {} && refCount - {} == refCount;
      inactive, inactiveCount := [view] + inactive, inactiveCount + 1;
      while inactiveCount > maximum
        invariant Indexes() && byBase.nodes <= old(byBase.nodes) && inactiveCount == |inactive| && Released(inactive, refCount)
        invariant |inactive| <= |all| && inactive == all[..|inactive|] && refCount == old(refCount) - Evicted(all, |inactive|)
        invariant |inactive| == |all| || |inactive| >= maximum
        decreases inactiveCount
      {
        EvictedOne(all, |inactive| - 1, old(refCount));
        Evict();
      }
    }

    // The view least recently released is unmapped.
    method Evict()
      requires Indexes() && inactiveCount == |inactive| > 0 && Released(inactive, refCount)
      modifies this, byBase, byBase.All()
      ensures Indexes() && byBase.nodes <= old(byBase.nodes) && inactiveCount == |inactive| && Released(inactive, refCount)
      ensures inactive == old(inactive)[..|old(inactive)| - 1] && refCount == old(refCount) - {old(inactive)[|old(inactive)| - 1]}
    {
      hide Mapped, Released;
      var n := |inactive| - 1;
      var lru := inactive[n];
      ReleasedPop(inactive, refCount);
      inactive, inactiveCount := inactive[..n], inactiveCount - 1;
      DestroyView(lru);
    }

    // view was released after all others; what no longer fits was released first.
    ghost predicate Deactivated(view: View, before: seq<View>, counts: map<View, nat>)
      reads this
    {
      var all := [view] + before;
      && |inactive| == (if |all| <= maximum then |all| else maximum)
      && inactive == all[..|inactive|] && refCount == counts - Evicted(all, |inactive|)
    }

    // PhFppActivateView, which leaves the reference count to its caller
    method ActivateView(view: View) returns (ghost j: nat)
      requires inactiveCount == |inactive| <= maximum && Released(inactive, refCount) && view in refCount && refCount[view] == 0
      modifies `inactive, `inactiveCount
      ensures j < |old(inactive)| && old(inactive)[j] == view && inactive == old(inactive)[..j] + old(inactive)[j + 1..]
      ensures inactiveCount == |inactive| <= maximum && Released(inactive, refCount[view := 1])
    {
      var i: nat :| i < |inactive| && inactive[i] == view;
      j := i;
      ReleasedRemove(inactive, refCount, i, 1);
      inactive, inactiveCount := inactive[..i] + inactive[i + 1..], inactiveCount - 1;
    }

    // PhFppReferenceView
    method ReferenceView(view: View) returns (ghost j: nat)
      requires Valid() && view in refCount
      modifies `refCount, `inactive, `inactiveCount
      ensures Valid() && refCount == old(refCount)[view := old(refCount)[view] + 1]
      ensures old(refCount)[view] > 0 ==> inactive == old(inactive)
      ensures old(refCount)[view] == 0 ==>
        j < |old(inactive)| && old(inactive)[j] == view && inactive == old(inactive)[..j] + old(inactive)[j + 1..]
    {
      hide Mapped, Distinct;
      assert refCount[view := refCount[view] + 1].Keys == refCount.Keys;
      j := 0;
      if refCount[view] == 0 {
        j := ActivateView(view);
      }
      refCount := refCount[view := refCount[view] + 1];
      assert Mapped(buckets, byBase.nodes, viewOf, refCount.Keys);
    }

    // PhFppDereferenceView: a client gives up a reference it has. An exception is raised when
    // that was the last one to the first segment, which is then neither referenced nor inactive.
    method DereferenceView(view: View) returns (raised: bool)
      requires Valid() && view in refCount && refCount[view] > 0
      modifies this, byBase, byBase.All()
      ensures raised <==> view.segment == 0 && old(refCount)[view] == 1
      ensures raised ==> Indexes() && refCount == old(refCount)[view := 0] && inactive == old(inactive)
      ensures !raised ==> Valid()
      ensures old(refCount)[view] > 1 ==> inactive == old(inactive) && refCount == old(refCount)[view := old(refCount)[view] - 1]
      ensures !raised && old(refCount)[view] == 1 ==> Deactivated(view, old(inactive), old(refCount)[view := 0])
    {
      hide Mapped;
      ghost var counts := refCount;
      refCount := refCount[view := refCount[view] - 1];
      assert refCount.Keys == counts.Keys;
      raised := false;
      if refCount[view] == 0 {
        if view.segment == 0 {
          return true;
        }
        ReleasedStill(inactive, counts, view);
        DeactivateView(view);
      }
    }

    // PhFppReferenceSegment: base is where the system maps the segment if it has to.
    method ReferenceSegment(segment: nat, segmentCount: nat, base: nat) returns (r: Search)
      requires Valid() && forall v :: v in refCount ==> v.base != base
      modifies this, byBase, byBase.All()
      ensures Valid() && (r.Found? <==> segment == 0 || segment < segmentCount)
      ensures r.Found? ==> r.view in refCount && r.view.segment == segment
      ensures r.Found? ==> refCount == old(refCount)[r.view := (if r.view in old(refCount) then old(refCount)[r.view] else 0) + 1]
      ensures r.Found? && r.view !in old(refCount) ==> forall v :: v in old(refCount) ==> v.segment != segment
      ensures r.Missing? ==> refCount == old(refCount) && inactive == old(inactive)
    {
      hide Mapped, Released, Tree.Valid;
      if segment != 0 && segment >= segmentCount {
        return Missing;
      }
      r := FindByIndex(segment);
      if r.Found? {
        ghost var j := ReferenceView(r.view);
      } else {
        var view := CreateView(segment, base);
        r := Found(view);
      }
    }
  }

  lemma ReleasedStill(inactive: seq<View>, refCount: map<View, nat>, v: View)
    requires Released(inactive, refCount) && v in refCount && refCount[v] > 0
    ensures Released(inactive, refCount[v := 0] - {v})
  {
  }
}
