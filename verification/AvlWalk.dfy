// Walking over an AVL tree in key order: the neighbour of an element, found through
// the parent links, and the enumeration with a stack of 47 slots.
module AvlWalk {
  import opened AvlShape
  import opened AvlRotate
  import opened AvlBalance
  import opened AvlPath
  import opened AvlTree
  import opened AvlRemove

  // ---------- neighbours ----------

  // The element right after e in a listing, null if there is none.
  ghost function Next(s: seq<Links>, e: Links): Links? {
    if s == [] then null
    else if s[0] == e then (if |s| == 1 then null else s[1])
    else Next(s[1..], e)
  }

  // The element right before e in a listing, null if there is none.
  ghost function Previous(s: seq<Links>, e: Links): Links? {
    if |s| < 2 then null
    else if s[1] == e then s[0]
    else Previous(s[1..], e)
  }

  lemma {:induction false} NextIndex(s: seq<Links>, i: nat)
    requires Sorted(s) && i < |s|
    ensures Next(s, s[i]) == (if i + 1 < |s| then s[i + 1] else null)
  {
    if i > 0 {
      assert s[0].key < s[i].key;
      NextIndex(s[1..], i - 1);
    }
  }

  lemma {:induction false} PreviousIndex(s: seq<Links>, i: nat)
    requires Sorted(s) && i < |s|
    ensures Previous(s, s[i]) == (if i > 0 then s[i - 1] else null)
  {
    if i > 1 {
      assert s[1].key < s[i].key;
      PreviousIndex(s[1..], i - 1);
    } else if i == 0 {
      PreviousLater(s[1..], s[0].key, s[0]);
    }
  }

  lemma {:induction false} PreviousLater(s: seq<Links>, key: int, e: Links)
    requires forall j :: 0 <= j < |s| ==> s[j].key > key
    requires e.key == key
    ensures Previous(s, e) == null
  {
    if |s| >= 2 {
      PreviousLater(s[1..], key, e);
    }
  }

  // In a listing without repetition they undo each other.
  lemma NextPrevious(s: seq<Links>, e: Links, x: Links)
    requires Sorted(s) && e in s && x in s
    ensures Next(s, e) == x <==> Previous(s, x) == e
  {
    var i :| 0 <= i < |s| && s[i] == e;
    var j :| 0 <= j < |s| && s[j] == x;
    NextIndex(s, i);
    PreviousIndex(s, j);
    OnlyIndex(s, i, j - 1);
    OnlyIndex(s, i + 1, j);
  }

  lemma OnlyIndex(s: seq<Links>, i: int, j: int)
    requires Sorted(s)
    ensures 0 <= i < |s| && 0 <= j < |s| && s[i] == s[j] ==> i == j
  {
  }

  // The order of the tree around the place of e.
  lemma AroundOrder(c: Path, u: Shape)
    requires u.Node?
    ensures InOrder(Plug(c, u)) == (Before(c) + InOrder(u.left)) + [u.links] + (InOrder(u.right) + After(c))
  {
    PlugInOrder(c, u);
    AroundAssoc(Before(c), InOrder(u.left), u.links, InOrder(u.right), After(c));
  }

  lemma AroundAssoc(b: seq<Links>, l: seq<Links>, x: Links, r: seq<Links>, a: seq<Links>)
    ensures b + (l + [x] + r) + a == (b + l) + [x] + (r + a)
  {
  }

  lemma NextIs(c: Path, u: Shape)
    requires u.Node? && Sorted(InOrder(Plug(c, u)))
    ensures var rest := InOrder(u.right) + After(c);
      Next(InOrder(Plug(c, u)), u.links) == (if rest == [] then null else rest[0])
  {
    AroundOrder(c, u);
    NextIndex(InOrder(Plug(c, u)), |Before(c) + InOrder(u.left)|);
  }

  lemma PreviousIs(c: Path, u: Shape)
    requires u.Node? && Sorted(InOrder(Plug(c, u)))
    ensures var rest := Before(c) + InOrder(u.left);
      Previous(InOrder(Plug(c, u)), u.links) == (if rest == [] then null else rest[|rest| - 1])
  {
    AroundOrder(c, u);
    PreviousIndex(InOrder(Plug(c, u)), |Before(c) + InOrder(u.left)|);
  }

  ghost predicate Placed(s: seq<Links>, i: nat, e: Links) {
    i < |s| && s[i] == e
  }

  // Where the root of u stands in the order of the tree around it.
  ghost function Place(c: Path, u: Shape): nat
    requires u.Node?
  {
    |Before(c)| + |InOrder(u.left)|
  }

  lemma PlaceInOrder(c: Path, u: Shape)
    requires u.Node?
    ensures Placed(InOrder(Plug(c, u)), Place(c, u), u.links)
    ensures |InOrder(Plug(c, u))| == Place(c, u) + 1 + |InOrder(u.right)| + |After(c)|
  {
    AroundOrder(c, u);
  }

  // e is right before x in the listing.
  ghost predicate Adjacent(s: seq<Links>, e: Links, x: Links) {
    exists i :: 0 <= i && i + 1 < |s| && s[i] == e && s[i + 1] == x
  }

  lemma AdjacentAt(s: seq<Links>, i: nat, e: Links, j: nat, x: Links)
    requires Placed(s, i, e) && Placed(s, j, x) && j == i + 1
    ensures Adjacent(s, e, x)
  {
  }

  lemma NextOf(s: seq<Links>, e: Links, x: Links)
    requires Sorted(s) && Adjacent(s, e, x)
    ensures Next(s, e) == x && Previous(s, x) == e
  {
    var i :| 0 <= i && i + 1 < |s| && s[i] == e && s[i + 1] == x;
    NextIndex(s, i);
    PreviousIndex(s, i + 1);
  }

  lemma PlaceSingle(c: Path, x: Links, s: Shape, onLeft: bool)
    ensures var v := Single(x, s, onLeft);
      v.Node? && v.links == x && Place(c, v) == |Before(c)| + (if onLeft then |InOrder(s)| else 0) && |InOrder(v.right)| == (if onLeft then 0 else |InOrder(s)|)
  {
  }

  // The leftmost element of the right subtree comes next.
  lemma DownNext(c: Path, u: Shape, c1: Path, v: Shape)
    requires u.Node? && v.Node? && Plug(c1, v) == Plug(c, u)
    requires Place(c1, v) == Place(c, u) + 1
    ensures Adjacent(InOrder(Plug(c, u)), u.links, v.links)
  {
    PlaceInOrder(c1, v);
    PlaceInOrder(c, u);
    AdjacentAt(InOrder(Plug(c, u)), Place(c, u), u.links, Place(c1, v), v.links);
  }

  lemma PlaceBefore(c: Path, u: Shape, c1: Path, v: Shape)
    requires u.Node? && v.Node? && Plug(c1, v) == Plug(c, u)
    requires |InOrder(v.right)| + |After(c1)| == |InOrder(u.right)| + |After(c)| + 1
    ensures Place(c, u) == Place(c1, v) + 1
  {
    PlaceInOrder(c1, v);
    PlaceInOrder(c, u);
  }

  method Successor(element: Links, ghost tree: Tree) returns (next: Links?)
    requires tree.Valid() && element in tree.nodes
    ensures next == Next(InOrder(tree.shape), element)
  {
    ghost var m, all, root, whole := Snap(tree.All()), tree.All(), tree.root, tree.shape;
    ghost var c, u := Locate(m, all, root, whole, Top(root), whole, element);
    AtDown(m, all, root, whole, c, u, false);
    NextIs(c, u);
    if element.right != null {
      ghost var c1, s;
      next, c1, s := Leftmost(element.right, all, root, whole, Below(c, element, u.left, false), u.right);
      PlaceSingle(c1, next, s, false);
      DownNext(c, u, c1, Single(next, s, false));
      NextOf(InOrder(whole), element, next);
    } else {
      next := ClimbLeft(element, all, root, whole, c, u);
    }
  }

  method Predecessor(element: Links, ghost tree: Tree) returns (previous: Links?)
    requires tree.Valid() && element in tree.nodes
    ensures previous == Previous(InOrder(tree.shape), element)
  {
    ghost var m, all, root, whole := Snap(tree.All()), tree.All(), tree.root, tree.shape;
    ghost var c, u := Locate(m, all, root, whole, Top(root), whole, element);
    AtDown(m, all, root, whole, c, u, true);
    PreviousIs(c, u);
    if element.left != null {
      ghost var c1, s;
      previous, c1, s := Rightmost(element.left, all, root, whole, Below(c, element, u.right, true), u.left);
      PlaceSingle(c1, previous, s, true);
      PlaceBefore(c, u, c1, Single(previous, s, true));
      DownNext(c1, Single(previous, s, true), c, u);
      NextOf(InOrder(whole), previous, element);
    } else {
      previous := ClimbRight(element, all, root, whole, c, u);
    }
  }

  // One link up, from whichever side.
  lemma AtUp(m: Memory, all: set<Links>, root: Links, whole: Shape, c: Path, t: Shape)
    requires At(m, all, root, whole, c, t) && t.Node?
    ensures t.links in m && m[t.links].parent == Owner(c) && Owner(c) in m && Owner(c) in all
    ensures (m[Owner(c)].left == t.links) == OnLeft(c) && (m[Owner(c)].right == t.links) == !OnLeft(c)
    ensures c.Below? ==> At(m, all, root, whole, c.up, Wider(c, t)) && Wider(c, t).links == c.links
    ensures c.Top? ==> m[Owner(c)].parent == null
  {
    SlotSide(m, c, t);
    PathNodesOwned(c);
    if c.Below? {
      Wide(m, c, t);
      HeightJoint(t, c.links, c.sibling, c.isLeft);
      GapBalance(m, c, Height(t), Height(Wider(c, t)));
      WeighedJoints(m, t, c.links, c.sibling, c.isLeft);
      assert Root(c.sibling) <= Nodes(c.sibling);
    }
  }

  // Traces back to the first link that has the element on its left.
  method ClimbLeft(element: Links, ghost all: set<Links>, ghost root: Links, ghost whole: Shape, ghost c0: Path, ghost u: Shape)
      returns (links: Links?)
    requires At(Snap(all), all, root, whole, c0, u) && Pointer(u) == element
    ensures links == if After(c0) == [] then null else After(c0)[0]
  {
    ghost var m, c, t := Snap(all), c0, u;
    var e := element;
    AtUp(m, all, root, whole, c, t);
    links := e.parent;
    while links != null && links.right == e
      invariant links != null ==> At(m, all, root, whole, c, t) && t.Node? && Pointer(t) == e && links == Owner(c) && links in all && After(c) == After(c0)
      invariant links == null ==> After(c0) == []
      decreases if links == null then 0 else 1, c
    {
      AtUp(m, all, root, whole, c, t);
      e := links;
      links := links.parent;
      if c.Below? {
        c, t := c.up, Wider(c, t);
        AtUp(m, all, root, whole, c, t);
      }
    }
    if links != null {
      AtUp(m, all, root, whole, c, t);
    }
  }

  // Traces back to the first link that has the element on its right; the sentinel does not count.
  method ClimbRight(element: Links, ghost all: set<Links>, ghost root: Links, ghost whole: Shape, ghost c0: Path, ghost u: Shape)
      returns (links: Links?)
    requires At(Snap(all), all, root, whole, c0, u) && Pointer(u) == element
    ensures links == if Before(c0) == [] then null else Before(c0)[|Before(c0)| - 1]
  {
    ghost var m, c, t := Snap(all), c0, u;
    var e := element;
    AtUp(m, all, root, whole, c, t);
    links := e.parent;
    while links != null && links.left == e
      invariant links != null && At(m, all, root, whole, c, t) && t.Node? && Pointer(t) == e && links == Owner(c) && links in all && Before(c) == Before(c0)
      decreases c
    {
      AtUp(m, all, root, whole, c, t);
      e := links;
      links := links.parent;
      c, t := c.up, Wider(c, t);
      AtUp(m, all, root, whole, c, t);
    }
    AtUp(m, all, root, whole, c, t);
    if links != null && links.parent == null {
      links := null;
    }
    if c.Below? {
      AtUp(m, all, root, whole, c.up, Wider(c, t));
    }
  }
}
