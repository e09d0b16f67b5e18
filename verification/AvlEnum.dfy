// Enumerating an AVL tree with an explicit stack of 47 slots.
module AvlEnum {
  import opened AvlShape
  import opened AvlRotate
  import opened AvlBalance
  import opened AvlTree

  const STACK_SIZE := 47

  // ---------- how high a tree can be ----------

  // The fewest elements that an AVL tree of height h can have.
  ghost function Fewest(h: nat): nat {
    if h < 2 then h else 1 + Fewest(h - 1) + Fewest(h - 2)
  }

  lemma {:induction false} FewestGrows(h: nat, k: nat)
    requires h <= k
    ensures Fewest(h) <= Fewest(k)
  {
    if h < k {
      FewestGrows(h, k - 1);
    }
  }

  lemma {:induction false} FewestInOrder(m: Memory, t: Shape)
    requires Weighed(m, t)
    ensures Fewest(Height(t)) <= |InOrder(t)|
  {
    if t.Node? {
      FewestInOrder(m, t.left);
      FewestInOrder(m, t.right);
      var h := Height(t);
      if h >= 2 {
        FewestGrows(h - 2, Height(t.left));
        FewestGrows(h - 2, Height(t.right));
      }
    }
  }

  lemma FewestAt46()
    ensures Fewest(45) == 2971215072 && Fewest(46) == 4807526975
  {
    assert Fewest(10) == 143 && Fewest(11) == 232;
    assert Fewest(20) == 17710 && Fewest(21) == 28656;
    assert Fewest(30) == 2178308 && Fewest(31) == 3524577;
    assert Fewest(40) == 267914295 && Fewest(41) == 433494436;
  }

  // A height that a tree of 2^32 elements cannot reach.
  lemma OutOfReach() returns (h: nat)
    ensures h <= 46 && 0x1_0000_0000 < Fewest(h)
  {
    h := 46;
    FewestAt46();
  }

  lemma HeightBound(m: Memory, t: Shape)
    requires Weighed(m, t) && |InOrder(t)| <= 0x1_0000_0000
    ensures Height(t) <= 45
  {
    var h := OutOfReach();
    FewestInOrder(m, t);
    if Height(t) >= h {
      FewestGrows(h, Height(t));
    }
  }

  // ---------- the stack ----------

  // The order in which the elements of t are visited.
  ghost function Listing(t: Shape, forward: bool): seq<Links> {
    match t
    case Leaf => []
    case Node(_, x, _) => Listing(Near(t, forward), forward) + [x] + Listing(Near(t, !forward), forward)
  }

  ghost function Reversed(s: seq<Links>): seq<Links> {
    if s == [] then [] else Reversed(s[1..]) + [s[0]]
  }

  lemma {:induction false} ReversedConcat(a: seq<Links>, b: seq<Links>)
    ensures Reversed(a + b) == Reversed(b) + Reversed(a)
  {
    if a == [] {
      assert a + b == b;
    } else {
      assert (a + b)[1..] == a[1..] + b;
      ReversedConcat(a[1..], b);
    }
  }

  lemma {:induction false} ListingIsInOrder(t: Shape)
    ensures Listing(t, true) == InOrder(t)
    ensures Listing(t, false) == Reversed(InOrder(t))
  {
    if t.Node? {
      ListingIsInOrder(t.left);
      ListingIsInOrder(t.right);
      ReversedConcat(InOrder(t.left) + [t.links], InOrder(t.right));
      ReversedConcat(InOrder(t.left), [t.links]);
    }
  }

  // What is still to be visited when the roots of the subtrees in pending are stacked:
  // each root, topmost first, followed by its far side.
  ghost function Rest(pending: seq<Shape>, forward: bool): seq<Links>
    requires forall t :: t in pending ==> t.Node?
  {
    if pending == [] then []
    else
      var t := pending[|pending| - 1];
      [t.links] + Listing(Near(t, !forward), forward) + Rest(pending[..|pending| - 1], forward)
  }

  // The roots of the subtrees in pending are stacked, and none lies deeper than height allows.
  ghost predicate Stacked(m: Memory, stack: seq<Links?>, pending: seq<Shape>, height: nat) {
    && |pending| <= |stack|
    && (forall t :: t in pending ==> t.Node?)
    && (forall i :: 0 <= i < |pending| ==> stack[i] == pending[i].links && Joined(m, pending[i]) && Height(pending[i]) + i <= height)
  }

  lemma RestPushed(pending: seq<Shape>, t: Shape, forward: bool)
    requires t.Node? && forall u :: u in pending ==> u.Node?
    ensures Rest(pending + [t], forward) == [t.links] + Listing(Near(t, !forward), forward) + Rest(pending, forward)
    ensures Listing(t, forward) + Rest(pending, forward) == Listing(Near(t, forward), forward) + Rest(pending + [t], forward)
  {
    assert (pending + [t])[..|pending|] == pending;
  }

  lemma Pushed(m: Memory, stack: seq<Links?>, pending: seq<Shape>, t: Shape, forward: bool, height: nat)
    requires Stacked(m, stack, pending, height) && Joined(m, t) && t.Node? && Height(t) + |pending| <= height < |stack|
    ensures Stacked(m, stack[|pending| := t.links], pending + [t], height)
    ensures Joined(m, Near(t, forward)) && Height(Near(t, forward)) + |pending| + 1 <= height
    ensures t.links in m && m[t.links].left == Pointer(t.left) && m[t.links].right == Pointer(t.right)
  {
    RestPushed(pending, t, forward);
  }

  lemma Popped(m: Memory, stack: seq<Links?>, pending: seq<Shape>, forward: bool, height: nat)
      returns (x: Links, far: Shape, below: seq<Shape>)
    requires Stacked(m, stack, pending, height) && pending != []
    ensures Stacked(m, stack, below, height) && |below| == |pending| - 1 && stack[|below|] == x
    ensures x in m && Slot(m[x], !forward) == Pointer(far) && Joined(m, far) && Height(far) + |below| <= height
    ensures Rest(pending, forward) == [x] + (Listing(far, forward) + Rest(below, forward))
  {
    var n := |pending| - 1;
    assert Joined(m, pending[n]);
    x, far, below := pending[n].links, Near(pending[n], !forward), pending[..n];
  }

  // Pushes links and everything below it on the near side.
  method PushAll(start: Links?, forward: bool, stack: array<Links?>, n0: nat,
      ghost all: set<Links>, ghost m: Memory, ghost pending0: seq<Shape>, ghost t0: Shape, ghost height: nat)
      returns (n: nat, ghost pending: seq<Shape>)
    requires m == Snap(all) && Stacked(m, stack[..], pending0, height) && |pending0| == n0 && height < stack.Length
    requires Joined(m, t0) && Pointer(t0) == start && Height(t0) + n0 <= height
    modifies stack
    ensures m == Snap(all) && Stacked(m, stack[..], pending, height) && |pending| == n
    ensures Rest(pending, forward) == Listing(t0, forward) + Rest(pending0, forward)
  {
    hide Height, Rest, Hangs;
    var links := start;
    ghost var t := t0;
    n, pending := n0, pending0;
    while links != null
      invariant m == Snap(all)
      invariant Stacked(m, stack[..], pending, height) && |pending| == n
      invariant Joined(m, t) && Pointer(t) == links && Height(t) + n <= height
      invariant Listing(t, forward) + Rest(pending, forward) == Listing(t0, forward) + Rest(pending0, forward)
      decreases t
    {
      RestPushed(pending, t, forward);
      Pushed(m, stack[..], pending, t, forward, height);
      stack[n] := links;
      n, pending := n + 1, pending + [t];
      links := if forward then links.left else links.right;
      t := Near(t, forward);
    }
  }

  // The callback is told every element in turn until it declines; goOn is its answer
  // after the elements it has been told so far.
  ghost predicate Told(visited: seq<Links>, listing: seq<Links>, goOn: seq<Links> -> bool) {
    && visited <= listing
    && (forall k :: 0 < k < |visited| ==> goOn(visited[..k]))
    && (visited == listing || (visited != [] && !goOn(visited)))
  }

  ghost predicate Telling(visited: seq<Links>, rest: seq<Links>, listing: seq<Links>, goOn: seq<Links> -> bool) {
    && visited + rest == listing
    && (forall k :: 0 < k <= |visited| ==> goOn(visited[..k]))
  }

  lemma VisitedOne(visited: seq<Links>, x: Links, rest: seq<Links>, listing: seq<Links>, goOn: seq<Links> -> bool)
    requires Telling(visited, [x] + rest, listing, goOn)
    ensures if goOn(visited + [x]) then Telling(visited + [x], rest, listing, goOn) else Told(visited + [x], listing, goOn)
  {
    var next := visited + [x];
    assert next + rest == listing;
    forall k | 0 < k <= |visited| ensures goOn(next[..k]) {
      assert next[..k] == visited[..k];
    }
    assert next[..|next|] == next;
  }

  method Enumerate(tree: Tree, forward: bool, goOn: seq<Links> -> bool) returns (visited: seq<Links>)
    requires tree.Valid() && tree.count <= 0x1_0000_0000
    ensures Told(visited, Listing(tree.shape, forward), goOn)
  {
    HeightBound(Snap(tree.All()), tree.shape);
    var stack := new Links?[STACK_SIZE](_ => null);
    visited := Visit(tree.root.right, forward, goOn, stack, tree.All(), tree.shape);
  }

  method Visit(start: Links?, forward: bool, goOn: seq<Links> -> bool, stack: array<Links?>, ghost all: set<Links>, ghost t0: Shape)
      returns (visited: seq<Links>)
    requires Joined(Snap(all), t0) && Pointer(t0) == start && Height(t0) <= 45 < stack.Length
    modifies stack
    ensures Told(visited, Listing(t0, forward), goOn)
  {
    hide Joined, Listing, Pointer;
    var n;
    ghost var m, pending := Snap(all), [];
    n, pending := PushAll(start, forward, stack, 0, all, m, [], t0, 45);
    visited := [];
    while n != 0
      invariant m == Snap(all) && Stacked(m, stack[..], pending, 45) && |pending| == n
      invariant Telling(visited, Rest(pending, forward), Listing(t0, forward), goOn)
      decreases |Rest(pending, forward)|
    {
      ghost var x, far;
      x, far, pending := Popped(m, stack[..], pending, forward, 45);
      n := n - 1;
      var links := stack[n];
      VisitedOne(visited, x, Listing(far, forward) + Rest(pending, forward), Listing(t0, forward), goOn);
      visited := visited + [links];
      if !goOn(visited) {
        return;
      }
      n, pending := PushAll(if forward then links.right else links.left, forward, stack, n, all, m, pending, far, 45);
    }
  }
}
