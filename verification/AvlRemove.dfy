// Removal from the AVL tree.
module AvlRemove {
  import opened AvlShape
  import opened AvlRotate
  import opened AvlBalance
  import opened AvlPath
  import opened AvlTree

  // The subtree of a links that has at most one child, s.
  ghost function Single(x: Links, s: Shape, onLeft: bool): Shape {
    Joint(s, x, Leaf, onLeft)
  }

  // A subtree that has become one lower than the balances above it say.
  ghost predicate Shrunk(m: Memory, c: Path, t: Shape) {
    Hung(m, c, t) && Weighed(m, t) && PathWeighed(m, c, Height(t) + 1)
  }

  // -1 for a left child, 1 for a right child.
  ghost function SideOf(c: Path): int {
    if OnLeft(c) then -1 else 1
  }

  // The records that putting s in the place of x writes.
  ghost predicate UnlinkWrites(m: Memory, m': Memory, owner: Links, onLeft: bool, child: Links?) {
    && owner in m && child != owner && (child != null ==> child in m)
    && m'.Keys == m.Keys
    && m'[owner] == SetSlot(m[owner], onLeft, child)
    && (child != null ==> m'[child] == m[child].(parent := owner))
    && (forall n :: n in m && n != owner && n != child ==> m'[n] == m[n])
  }

  lemma UnlinkedHung(m: Memory, m': Memory, c: Path, x: Links, s: Shape, onLeft: bool)
    requires Hung(m, c, Single(x, s, onLeft)) && UnlinkWrites(m, m', Owner(c), OnLeft(c), Pointer(s))
    ensures Hung(m', c, s)
  {
    PathNodesOwned(c);
    Joints(m, s, x, Leaf, onLeft);
    assert Root(s) <= Nodes(s);
    PathJoinedKept(m, m', c, x, Pointer(s));
    JoinedKept(m, m', s);
  }

  lemma Unlinked(m: Memory, m': Memory, c: Path, x: Links, s: Shape, onLeft: bool)
    requires Even(m, c, Single(x, s, onLeft)) && UnlinkWrites(m, m', Owner(c), OnLeft(c), Pointer(s))
    ensures Shrunk(m', c, s)
  {
    hide PathJoined, Apart, PathWeighed, Weighed;
    UnlinkedHung(m, m', c, x, s, onLeft);
    WeighedJoints(m, s, x, Leaf, onLeft);
    PathWeighedKept(m, m', c, Height(s) + 1);
    WeighedKept(m, m', s);
  }

  // What the stored balance of the parent says about a subtree that was one higher.
  lemma ShrunkGap(m: Memory, c: Path, t: Shape)
    requires Shrunk(m, c, t) && c.Below?
    ensures c.links in m && -1 <= m[c.links].balance <= 1
    ensures m[c.links].balance == -Sign(c.isLeft) ==> Height(c.sibling) == Height(t)
    ensures m[c.links].balance == 0 ==> Height(c.sibling) == Height(t) + 1
    ensures m[c.links].balance == Sign(c.isLeft) ==> Height(c.sibling) == Height(t) + 2
    ensures Weighed(m, c.sibling)
    ensures Height(Wider(c, t)) == 1 + Max(Height(t), Height(c.sibling))
  {
    GapBalance(m, c, Height(t) + 1, 1 + Max(Height(t) + 1, Height(c.sibling)));
    HeightJoint(t, c.links, c.sibling, c.isLeft);
  }

  // The lowered side was the higher one: the sides are even now, and the tree above has shrunk.
  lemma ShrunkOn(m: Memory, c: Path, t: Shape)
    requires Shrunk(m, c, t) && c.Below? && c.links in m && m[c.links].balance == -Sign(c.isLeft)
    ensures Shrunk(m[c.links := m[c.links].(balance := 0)], c.up, Wider(c, t))
  {
    hide Height, Apart, Hung, PathWeighed, Weighed;
    ShrunkGap(m, c, t);
    Raise(m, m[c.links := m[c.links].(balance := 0)], c, t, Height(t) + 1, 0, Height(Wider(c, t)) + 1);
  }

  // The sides were even: now the other side is the higher one.
  lemma ShrunkEven(m: Memory, c: Path, t: Shape)
    requires Shrunk(m, c, t) && c.Below? && c.links in m && m[c.links].balance == 0
    ensures Even(m[c.links := m[c.links].(balance := Sign(c.isLeft))], c.up, Wider(c, t))
  {
    hide Apart;
    ShrunkGap(m, c, t);
    Raise(m, m[c.links := m[c.links].(balance := Sign(c.isLeft))], c, t, Height(t) + 1, Sign(c.isLeft), Height(Wider(c, t)));
  }

  // The other side was the higher one already.
  lemma ShrunkTipped(m: Memory, c: Path, t: Shape)
    requires Shrunk(m, c, t) && c.Below? && c.links in m && m[c.links].balance == Sign(c.isLeft)
    ensures Tipped(m, c.up, Wider(c, t), Height(Wider(c, t)))
  {
    ShrunkGap(m, c, t);
    GapBalance(m, c, Height(t) + 1, Height(Wider(c, t)));
    Ascend(m, c, t);
    LeaningJoint(m, c.sibling, c.links, t, !c.isLeft);
  }

  // The records that Unlink reads and writes, of a node x with no child but child.
  ghost predicate Unlinks(m: Memory, x: Links, owner: Links, onLeft: bool, child: Links?) {
    && x in m && owner in m && x != owner && child != x && child != owner && (child != null ==> child in m)
    && m[x].parent == owner && (m[owner].left == x <==> onLeft)
    && (if m[x].right == null then m[x].left else m[x].right) == child
  }

  lemma CanUnlink(m: Memory, c: Path, x: Links, s: Shape, onLeft: bool)
    requires Hung(m, c, Single(x, s, onLeft))
    ensures Unlinks(m, x, Owner(c), OnLeft(c), Pointer(s))
    ensures Owner(c) in PathNodes(c) && (s.Node? ==> s.links in Nodes(s))
  {
    hide PathNodes;
    PathNodesOwned(c);
    SlotSide(m, c, Single(x, s, onLeft));
    Joints(m, s, x, Leaf, onLeft);
    assert Root(s) <= Nodes(s);
  }

  method WriteUnlink(x: Links, ghost all: set<Links>, ghost owner: Links, ghost onLeft: bool, ghost c: Links?)
      returns (balance: int)
    requires Unlinks(Snap(all), x, owner, onLeft, c)
    modifies owner`left, owner`right, (if c == null then {} else {c})`parent
    ensures UnlinkWrites(old(Snap(all)), Snap(all), owner, onLeft, c)
    ensures x.parent == owner && balance == if onLeft then -1 else 1
  {
    var parent := x.parent;
    var child := if x.right == null then x.left else x.right;
    if parent.left == x {
      balance := -1;
      parent.left := child;
    } else {
      balance := 1;
      parent.right := child;
    }
    if child != null {
      child.parent := parent;
    }
  }

  // Puts the only child of x, if it has one, in the place of x.
  method Unlink(x: Links, ghost all: set<Links>, ghost c: Path, ghost s: Shape, ghost onLeft: bool) returns (balance: int)
    requires Even(Snap(all), c, Single(x, s, onLeft)) && all == PathNodes(c) + Nodes(Single(x, s, onLeft))
    modifies Owner(c)`left, Owner(c)`right, Root(s)`parent
    ensures Shrunk(Snap(all), c, s)
    ensures x.parent == Owner(c) && balance == SideOf(c)
  {
    hide Unlinks, UnlinkWrites, Shrunk, PathNodes, Nodes, Joined, Weighed, PathWeighed, PathJoined;
    ghost var m := Snap(all);
    CanUnlink(m, c, x, s, onLeft);
    balance := WriteUnlink(x, all, Owner(c), OnLeft(c), Pointer(s));
    Unlinked(m, Snap(all), c, x, s, onLeft);
  }

  // What is seen from a link above a shrunk subtree.
  lemma LookAbove(m: Memory, c: Path, t: Shape)
    requires Shrunk(m, c, t) && c.Below?
    ensures c.links in m && -1 <= m[c.links].balance <= 1
    ensures Plug(c.up, Wider(c, t)) == Plug(c, t) && Sentinel(c.up) == Sentinel(c) && c.links == Wider(c, t).links
    ensures PathNodes(c.up) + Nodes(Wider(c, t)) == PathNodes(c) + Nodes(t) && c.links in PathNodes(c)
  {
    Wide(m, c, t);
    ShrunkGap(m, c, t);
  }

  // One turn of the trace of a removal: the side of P0 that balance0 names has become lower.
  method ShrinkStep(P0: Links, balance0: int, ghost all: set<Links>, ghost c0: Path, ghost t0: Shape)
      returns (P: Links, balance: int, stop: bool, ghost c: Path, ghost t: Shape)
    requires Shrunk(Snap(all), c0, t0) && c0.Below? && P0 == Owner(c0) && balance0 == SideOf(c0)
    requires PathNodes(c0) + Nodes(t0) <= all
    modifies all
    ensures if stop then Even(Snap(all), c, t) else Shrunk(Snap(all), c, t) && P == Owner(c) && balance == SideOf(c)
    ensures c == c0.up && Sentinel(c) == Sentinel(c0) && PathNodes(c) + Nodes(t) == PathNodes(c0) + Nodes(t0)
    ensures InOrder(Plug(c, t)) == InOrder(Plug(c0, t0))
  {
    hide Joined, PathJoined, Weighed, PathWeighed;
    LookAbove(Snap(all), c0, t0);
    P, balance := P0, balance0;
    c, t, stop := c0.up, Wider(c0, t0), false;
    if P.balance == balance {
      ShrunkOn(Snap(all), c0, t0);
      SetBalance(P, 0, all);
    } else if P.balance == 0 {
      ShrunkEven(Snap(all), c0, t0);
      SetBalance(P, -balance, all);
      stop := true;
    } else {
      ShrunkTipped(Snap(all), c0, t0);
      var code;
      code, t := RebalanceAt(P, all, c, t, Height(t));
      if code == 3 {
        stop := true;
      } else {
        P := P.parent;
      }
    }
    if !stop {
      SlotSide(Snap(all), c, t);
      PathNodesOwned(c);
      balance := if P.parent.left == P then -1 else 1;
      P := P.parent;
    }
  }

  // Traces up from a removed link until the balances above are right again.
  method TraceShrunk(P0: Links, balance0: int, root: Links, ghost all: set<Links>, ghost c0: Path, ghost t0: Shape)
      returns (ghost c: Path, ghost t: Shape)
    requires Shrunk(Snap(all), c0, t0) && P0 == Owner(c0) && balance0 == SideOf(c0)
    requires PathNodes(c0) + Nodes(t0) <= all && Sentinel(c0) == root
    modifies all
    ensures Even(Snap(all), c, t) && Sentinel(c) == root && PathNodes(c) + Nodes(t) == PathNodes(c0) + Nodes(t0)
    ensures InOrder(Plug(c, t)) == InOrder(Plug(c0, t0))
  {
    var P, balance := P0, balance0;
    c, t := c0, t0;
    while P != root
      invariant Shrunk(Snap(all), c, t) && P == Owner(c) && balance == SideOf(c)
      invariant PathNodes(c) + Nodes(t) == PathNodes(c0) + Nodes(t0) && Sentinel(c) == root
      invariant InOrder(Plug(c, t)) == InOrder(Plug(c0, t0))
      decreases c
    {
      var stop;
      P, balance, stop, c, t := ShrinkStep(P, balance, all, c, t);
      if stop {
        return;
      }
    }
    if c.Below? {
      PathNodesOwned(c.up);
    }
  }

  // The records that putting x in the place of e, between l and r, writes.
  ghost predicate ReplaceWrites(m: Memory, m': Memory, owner: Links, onLeft: bool, l: Links?, e: Links, r: Links?, x: Links) {
    && owner in m && e in m && x in m && (l != null ==> l in m) && (r != null ==> r in m)
    && m'.Keys == m.Keys
    && m'[x] == m[e]
    && m'[owner] == SetSlot(m[owner], onLeft, x)
    && (l != null ==> m'[l] == m[l].(parent := x))
    && (r != null ==> m'[r] == m[r].(parent := x))
    && (forall n :: n in m && n != x && n != owner && n != l && n != r ==> m'[n] == m[n])
  }

  // Only the parents of l and r change elsewhere.
  lemma ReplacedElsewhere(m: Memory, m': Memory, owner: Links, onLeft: bool, l: Links?, e: Links, r: Links?, x: Links, s: set<Links>)
    requires ReplaceWrites(m, m', owner, onLeft, l, e, r, x) && x !in s && owner !in s && l !in s && r !in s
    ensures SameLinks(m, m', s)
  {
  }

  lemma ReplacedSide(m: Memory, m': Memory, owner: Links, onLeft: bool, l: Links?, e: Links, r: Links?, x: Links, t: Shape)
    requires ReplaceWrites(m, m', owner, onLeft, l, e, r, x) && x !in Nodes(t) && owner !in Nodes(t)
    requires Joined(m, t) && Proper(t) && (Pointer(t) == l || Pointer(t) == r) && (l == r ==> l == null)
    requires l !in Nodes(t) - Root(t) && r !in Nodes(t) - Root(t)
    ensures Joined(m', t)
  {
    assert Root(t) <= Nodes(t);
    ReplacedElsewhere(m, m', owner, onLeft, l, e, r, x, Nodes(t) - Root(t));
    JoinedKept(m, m', t);
  }

  lemma ReplacedHung(m: Memory, m': Memory, c: Path, l: Shape, e: Links, r: Shape, x: Links)
    requires Hung(m, c, Node(l, e, r)) && x !in PathNodes(c) + Nodes(Node(l, e, r))
    requires ReplaceWrites(m, m', Owner(c), OnLeft(c), Pointer(l), e, Pointer(r), x)
    ensures Hung(m', c, Node(l, x, r))
  {
    hide PathJoined, OnLeft, SameLinks;
    PathNodesOwned(c);
    assert Root(l) <= Nodes(l) && Root(r) <= Nodes(r);
    ReplacedElsewhere(m, m', Owner(c), OnLeft(c), Pointer(l), e, Pointer(r), x, PathNodes(c) - {Owner(c)});
    PathJoinedKept(m, m', c, e, x);
    ReplacedSide(m, m', Owner(c), OnLeft(c), Pointer(l), e, Pointer(r), x, l);
    ReplacedSide(m, m', Owner(c), OnLeft(c), Pointer(l), e, Pointer(r), x, r);
  }

  lemma ReplacedWeighed(m: Memory, m': Memory, c: Path, l: Shape, e: Links, r: Shape, x: Links)
    requires Weighed(m, Node(l, e, r)) && PathWeighed(m, c, Height(Node(l, e, r))) && x !in PathNodes(c) + Nodes(Node(l, e, r))
    requires SameBalance(m, m', m.Keys - {x}) && e in m && x in m' && m'[x].balance == m[e].balance
    ensures Weighed(m', Node(l, x, r)) && PathWeighed(m', c, Height(Node(l, x, r)))
  {
    hide Joined, PathWeighed, PathJoined;
    PathWeighedKept(m, m', c, Height(Node(l, e, r)));
    WeighedKept(m, m', l);
    WeighedKept(m, m', r);
  }

  lemma Replaced(m: Memory, m': Memory, c: Path, l: Shape, e: Links, r: Shape, x: Links)
    requires Even(m, c, Node(l, e, r)) && x !in PathNodes(c) + Nodes(Node(l, e, r))
    requires ReplaceWrites(m, m', Owner(c), OnLeft(c), Pointer(l), e, Pointer(r), x)
    ensures Even(m', c, Node(l, x, r))
  {
    ReplacedHung(m, m', c, l, e, r, x);
    assert SameBalance(m, m', m.Keys - {x});
    ReplacedWeighed(m, m', c, l, e, r, x);
  }

  // The records that Replace reads and writes.
  ghost predicate Replaces(m: Memory, owner: Links, onLeft: bool, l: Links?, e: Links, r: Links?, x: Links) {
    && owner in m && e in m && x in m && (l != null ==> l in m) && (r != null ==> r in m)
    && x != owner && x != l && x != e && x != r && owner != l && owner != e && owner != r && l != e && r != e && (l != null ==> l != r)
    && m[e].parent == owner && (m[owner].left == e <==> onLeft) && m[e].left == l && m[e].right == r
  }

  lemma CanReplace(m: Memory, c: Path, l: Shape, e: Links, r: Shape, x: Links)
    requires Hung(m, c, Node(l, e, r)) && x in m && x !in PathNodes(c) + Nodes(Node(l, e, r))
    ensures Replaces(m, Owner(c), OnLeft(c), Pointer(l), e, Pointer(r), x)
  {
    hide PathNodes, PathJoined;
    PathNodesOwned(c);
    SlotSide(m, c, Node(l, e, r));
    assert Root(l) <= Nodes(l) && Root(r) <= Nodes(r);
  }

  method WriteReplace(e: Links, x: Links, ghost all: set<Links>, ghost owner: Links, ghost onLeft: bool, ghost l: Links?, ghost r: Links?)
    requires Replaces(Snap(all), owner, onLeft, l, e, r, x)
    modifies owner`left, owner`right, x, (if l == null then {} else {l})`parent, (if r == null then {} else {r})`parent
    ensures ReplaceWrites(old(Snap(all)), Snap(all), owner, onLeft, l, e, r, x)
  {
    x.parent, x.left, x.right, x.balance := e.parent, e.left, e.right, e.balance;
    if e.parent.left == e {
      x.parent.left := x;
    } else {
      x.parent.right := x;
    }
    if x.left != null {
      x.left.parent := x;
    }
    if x.right != null {
      x.right.parent := x;
    }
  }

  // Puts x, with all the fields of e, in the place of e.
  method Replace(e: Links, x: Links, ghost all: set<Links>, ghost c: Path, ghost l: Shape, ghost r: Shape)
    requires Even(Snap(all), c, Node(l, e, r)) && x in all && x !in PathNodes(c) + Nodes(Node(l, e, r))
    requires PathNodes(c) + Nodes(Node(l, e, r)) <= all
    modifies Owner(c)`left, Owner(c)`right, x, Root(l)`parent, Root(r)`parent
    ensures Even(Snap(all), c, Node(l, x, r))
  {
    hide Replaces, ReplaceWrites, PathNodes, Nodes, Joined, Weighed, PathWeighed, PathJoined;
    ghost var m := Snap(all);
    CanReplace(m, c, l, e, r, x);
    WriteReplace(e, x, all, Owner(c), OnLeft(c), Pointer(l), Pointer(r));
    Replaced(m, Snap(all), c, l, e, r, x);
  }

  // The tree whole, hung off root and made of all, seen from its subtree t.
  ghost predicate At(m: Memory, all: set<Links>, root: Links, whole: Shape, c: Path, t: Shape) {
    Even(m, c, t) && all == PathNodes(c) + Nodes(t) && Plug(c, t) == whole && Sentinel(c) == root
  }

  lemma AtDown(m: Memory, all: set<Links>, root: Links, whole: Shape, c: Path, t: Shape, isLeft: bool)
    requires At(m, all, root, whole, c, t) && t.Node?
    ensures At(m, all, root, whole, Below(c, t.links, Near(t, !isLeft), isLeft), Near(t, isLeft))
    ensures t.links in m && Slot(m[t.links], isLeft) == Pointer(Near(t, isLeft)) && t.links in all
  {
    DescendWeighed(m, c, t, isLeft);
  }

  lemma {:induction false} Locate(m: Memory, all: set<Links>, root: Links, whole: Shape, c: Path, t: Shape, e: Links)
      returns (c': Path, t': Shape)
    requires At(m, all, root, whole, c, t) && e in Nodes(t)
    ensures At(m, all, root, whole, c', t') && t'.Node? && t'.links == e
    decreases t
  {
    if e == t.links {
      c', t' := c, t;
    } else {
      var isLeft := e in Nodes(t.left);
      AtDown(m, all, root, whole, c, t, isLeft);
      c', t' := Locate(m, all, root, whole, Below(c, t.links, Near(t, !isLeft), isLeft), Near(t, isLeft), e);
    }
  }

  // The first element of a subtree.
  method Leftmost(start: Links, ghost all: set<Links>, ghost root: Links, ghost whole: Shape, ghost c0: Path, ghost t0: Shape)
      returns (x: Links, ghost c: Path, ghost s: Shape)
    requires At(Snap(all), all, root, whole, c0, t0) && Pointer(t0) == start
    ensures At(Snap(all), all, root, whole, c, Single(x, s, false))
    ensures Before(c) == Before(c0) && x !in PathNodes(c0)
  {
    ghost var m := Snap(all);
    x, c := start, c0;
    ghost var t := t0;
    AtDown(m, all, root, whole, c, t, true);
    while x.left != null
      invariant At(m, all, root, whole, c, t) && Pointer(t) == x && x in all
      invariant Before(c) == Before(c0) && PathNodes(c0) <= PathNodes(c)
      invariant At(m, all, root, whole, Below(c, x, t.right, true), t.left) && m[x].left == Pointer(t.left)
      decreases t
    {
      x := x.left;
      c, t := Below(c, t.links, t.right, true), t.left;
      AtDown(m, all, root, whole, c, t, true);
    }
    s := t.right;
  }

  // The last element of a subtree.
  method Rightmost(start: Links, ghost all: set<Links>, ghost root: Links, ghost whole: Shape, ghost c0: Path, ghost t0: Shape)
      returns (x: Links, ghost c: Path, ghost s: Shape)
    requires At(Snap(all), all, root, whole, c0, t0) && Pointer(t0) == start
    ensures At(Snap(all), all, root, whole, c, Single(x, s, true))
    ensures After(c) == After(c0) && x !in PathNodes(c0)
  {
    ghost var m := Snap(all);
    x, c := start, c0;
    ghost var t := t0;
    AtDown(m, all, root, whole, c, t, false);
    while x.right != null
      invariant At(m, all, root, whole, c, t) && Pointer(t) == x && x in all
      invariant After(c) == After(c0) && PathNodes(c0) <= PathNodes(c)
      invariant At(m, all, root, whole, Below(c, x, t.left, false), t.right) && m[x].right == Pointer(t.right)
      decreases t
    {
      x := x.right;
      c, t := Below(c, t.links, t.left, false), t.right;
      AtDown(m, all, root, whole, c, t, false);
    }
    s := t.left;
  }

  ghost function Without(s: seq<Links>, i: nat): seq<Links>
    requires i < |s|
  {
    s[..i] + s[i + 1..]
  }

  lemma WithoutSorted(s: seq<Links>, i: nat)
    requires Sorted(s) && i < |s|
    ensures Sorted(Without(s, i))
  {
  }

  // Where x stands in the order of the tree around its subtree.
  ghost function Rank(c: Path, s: Shape, onLeft: bool): nat {
    |Before(c)| + (if onLeft then |InOrder(s)| else 0)
  }

  lemma OutOnLeft(b: seq<Links>, s: seq<Links>, x: Links, a: seq<Links>)
    ensures var w, i := b + (s + [x] + []) + a, |b| + |s|; i < |w| && w[i] == x && b + s + a == Without(w, i)
  {
  }

  lemma OutOnRight(b: seq<Links>, s: seq<Links>, x: Links, a: seq<Links>)
    ensures var w, i := b + ([] + [x] + s) + a, |b|; i < |w| && w[i] == x && b + s + a == Without(w, i)
  {
  }

  // Closing the gap over x takes exactly x out of the order.
  lemma TakenOut(c: Path, x: Links, s: Shape, onLeft: bool)
    ensures var i, whole := Rank(c, s, onLeft), InOrder(Plug(c, Single(x, s, onLeft)));
      i < |whole| && whole[i] == x && InOrder(Plug(c, s)) == Without(whole, i)
  {
    PlugInOrder(c, Single(x, s, onLeft));
    PlugInOrder(c, s);
    if onLeft {
      OutOnLeft(Before(c), InOrder(s), x, After(c));
    } else {
      OutOnRight(Before(c), InOrder(s), x, After(c));
    }
  }

  // Takes x, which has at most the one child s, out of the tree and rebalances above it.
  method TakeOut(x: Links, root: Links, ghost all: set<Links>, ghost whole: Shape, ghost c0: Path, ghost s: Shape, ghost onLeft: bool)
      returns (ghost t: Shape)
    requires At(Snap(all), all, root, whole, c0, Single(x, s, onLeft)) && Sorted(InOrder(whole))
    modifies all
    ensures Standing(Snap(all), root, t) && Nodes(t) + {root} == all - {x} && x in all && x != root && root !in Nodes(t)
    ensures var i := Rank(c0, s, onLeft);
      i < |InOrder(whole)| && InOrder(whole)[i] == x && InOrder(t) == Without(InOrder(whole), i)
  {
    hide Snap, Without, Rank;
    TakenOut(c0, x, s, onLeft);
    WithoutSorted(InOrder(whole), Rank(c0, s, onLeft));
    Joints(Snap(all), s, x, Leaf, onLeft);
    ghost var rest := PathNodes(c0) + Nodes(s);
    assert x !in rest && all == rest + {x};
    var balance := Unlink(x, all, c0, s, onLeft);
    ghost var c;
    c, t := TraceShrunk(x.parent, balance, root, all, c0, s);
    assert PathNodes(c) + Nodes(t) == rest;
    ClosedOver(Snap(all), root, c, t);
    t := Plug(c, t);
    assert Nodes(t) + {root} == rest;
    assert rest == all - {x};
  }

  lemma ClosedOver(m: Memory, root: Links, c: Path, t: Shape)
    requires Even(m, c, t) && Sentinel(c) == root && Sorted(InOrder(Plug(c, t)))
    ensures Standing(m, root, Plug(c, t)) && Nodes(Plug(c, t)) + {root} == PathNodes(c) + Nodes(t)
    ensures root in PathNodes(c)
  {
    PlugHung(m, c, t);
    PlugNodes(c, t);
    PathNodesOwned(c);
  }

  // In a sorted sequence an element has one place.
  lemma OnePlace(a: seq<Links>, x: Links, b: seq<Links>, a': seq<Links>, b': seq<Links>)
    requires a + [x] + b == a' + [x] + b' && Sorted(a + [x] + b)
    ensures a == a' && b == b'
  {
    var s, s' := a + [x] + b, a' + [x] + b';
    assert s[|a|] == x && s'[|a'|] == x;
    assert s[..|a|] == a && s'[..|a'|] == a' && s[|a| + 1..] == b && s'[|a'| + 1..] == b';
  }

  // In a tree that stands without x, puts x in the place of e.
  method PutInPlace(e: Links, x: Links, root: Links, ghost all: set<Links>, ghost t: Shape, ghost a: seq<Links>, ghost b: seq<Links>)
      returns (ghost t': Shape)
    requires Standing(Snap(all), root, t) && e in Nodes(t) && x in all && x !in Nodes(t) && x != root && Nodes(t) + {root} <= all
    requires InOrder(t) == a + [e] + b && Sorted(a + [x] + b)
    modifies all
    ensures Standing(Snap(all), root, t') && Nodes(t') == Nodes(t) - {e} + {x} && InOrder(t') == a + [x] + b
  {
    ghost var c, l, r := PlaceOf(Snap(all), root, t, e, x, a, b);
    Replace(e, x, all, c, l, r);
    ClosedOver(Snap(all), root, c, Node(l, x, r));
    t' := Plug(c, Node(l, x, r));
  }

  lemma PlaceOf(m: Memory, root: Links, t: Shape, e: Links, x: Links, a: seq<Links>, b: seq<Links>)
      returns (c: Path, l: Shape, r: Shape)
    requires Standing(m, root, t) && e in Nodes(t) && x !in Nodes(t) && x != root && InOrder(t) == a + [e] + b
    ensures Even(m, c, Node(l, e, r)) && Sentinel(c) == root && Plug(c, Node(l, e, r)) == t
    ensures PathNodes(c) + Nodes(Node(l, e, r)) == Nodes(t) + {root}
    ensures InOrder(Plug(c, Node(l, x, r))) == a + [x] + b
    ensures root !in Nodes(Plug(c, Node(l, x, r))) ==> Nodes(Plug(c, Node(l, x, r))) == Nodes(t) - {e} + {x}
  {
    var u;
    c, u := Locate(m, Nodes(t) + {root}, root, t, Top(root), t, e);
    l, r := u.left, u.right;
    PlugInOrder(c, u);
    PlugInOrder(c, Node(l, x, r));
    OneOrder(Before(c), InOrder(l), e, InOrder(r), After(c), x, a, b);
    Swapped(root, c, l, e, r, x, t);
  }

  lemma OneOrder(f: seq<Links>, l: seq<Links>, e: Links, r: seq<Links>, g: seq<Links>, x: Links, a: seq<Links>, b: seq<Links>)
    requires f + (l + [e] + r) + g == a + [e] + b && Sorted(a + [e] + b)
    ensures f + (l + [x] + r) + g == a + [x] + b
  {
    assert f + (l + [e] + r) + g == (f + l) + [e] + (r + g);
    OnePlace(f + l, e, r + g, a, b);
    assert f + (l + [x] + r) + g == (f + l) + [x] + (r + g);
  }

  lemma Swapped(root: Links, c: Path, l: Shape, e: Links, r: Shape, x: Links, t: Shape)
    requires Apart(c, Node(l, e, r)) && Sentinel(c) == root && t == Plug(c, Node(l, e, r))
    requires x !in Nodes(t) && x != root && root !in Nodes(t)
    ensures Nodes(Plug(c, Node(l, x, r))) - {root} == Nodes(t) - {e} + {x}
  {
    PlugNodes(c, Node(l, e, r));
    PlugNodes(c, Node(l, x, r));
  }

  lemma Neighbours(w: seq<Links>, a: seq<Links>, y: Links, z: Links, b: seq<Links>)
    requires w == a + [y, z] + b
    ensures |a| + 1 < |w| && w[|a|] == y && w[|a| + 1] == z
    ensures Without(w, |a|) == a + [z] + b && Without(w, |a| + 1) == a + [y] + b
  {
  }

  // The element that stands next to e in the order takes its place: x is to be
  // unlinked, and what is left of the order then reads a, e, b.
  ghost predicate Stands(whole: Shape, c: Path, x: Links, s: Shape, onLeft: bool, e: Links, a: seq<Links>, b: seq<Links>, at: nat) {
    Beside(InOrder(whole), Rank(c, s, onLeft), x, e, a, b, at)
  }

  ghost predicate Beside(order: seq<Links>, i: nat, x: Links, e: Links, a: seq<Links>, b: seq<Links>, at: nat) {
    && i < |order| && at < |order| && order[at] == e
    && Without(order, i) == a + [e] + b && Without(order, at) == a + [x] + b
  }

  lemma NextBeside(a: seq<Links>, e: Links, x: Links, s: seq<Links>, g: seq<Links>, i: nat)
    requires i == |a + [e]|
    ensures Beside(a + [e] + ([] + [x] + s) + g, i, x, e, a, s + g, |a|)
  {
    var w := a + [e] + ([] + [x] + s) + g;
    assert w == a + [e, x] + (s + g);
    Neighbours(w, a, e, x, s + g);
  }

  lemma PreviousBeside(f: seq<Links>, s: seq<Links>, x: Links, e: Links, b: seq<Links>, i: nat)
    requires i == |f| + |s|
    ensures Beside(f + (s + [x] + []) + ([e] + b), i, x, e, f + s, b, i + 1)
  {
    var w := f + (s + [x] + []) + ([e] + b);
    assert w == (f + s) + [x, e] + b;
    Neighbours(w, f + s, x, e, b);
  }

  // The one after e ...
  lemma AfterOrder(c: Path, x: Links, s: Shape, e: Links, a: seq<Links>)
    requires Before(c) == a + [e]
    ensures Stands(Plug(c, Single(x, s, false)), c, x, s, false, e, a, InOrder(s) + After(c), |a|)
  {
    PlugInOrder(c, Single(x, s, false));
    NextBeside(a, e, x, InOrder(s), After(c), Rank(c, s, false));
  }

  // ... or the one before it.
  lemma BeforeOrder(c: Path, x: Links, s: Shape, e: Links, b: seq<Links>)
    requires After(c) == [e] + b
    ensures Stands(Plug(c, Single(x, s, true)), c, x, s, true, e, Before(c) + InOrder(s), b, Rank(c, s, true) + 1)
  {
    PlugInOrder(c, Single(x, s, true));
    PreviousBeside(Before(c), InOrder(s), x, e, b, Rank(c, s, true));
  }

  lemma OnlyChild(m: Memory, all: set<Links>, root: Links, whole: Shape, c: Path, u: Shape)
    requires At(m, all, root, whole, c, u) && u.Node? && (u.left == Leaf || u.right == Leaf)
    ensures var onLeft := u.right == Leaf; var s := if onLeft then u.left else u.right;
      && u == Single(u.links, s, onLeft) && Rank(c, s, onLeft) < |InOrder(whole)| && InOrder(whole)[Rank(c, s, onLeft)] == u.links
  {
    TakenOut(c, u.links, if u.right == Leaf then u.left else u.right, u.right == Leaf);
  }

  method ChooseAfter(e: Links, ghost all: set<Links>, ghost root: Links, ghost whole: Shape, ghost c0: Path, ghost u: Shape)
      returns (x: Links, ghost c: Path, ghost s: Shape, ghost a: seq<Links>, ghost b: seq<Links>, ghost at: nat)
    requires At(Snap(all), all, root, whole, c0, u) && u.Node? && u.links == e && e.right != null
    ensures x != e && At(Snap(all), all, root, whole, c, Single(x, s, false)) && Stands(whole, c, x, s, false, e, a, b, at)
  {
    AtDown(Snap(all), all, root, whole, c0, u, false);
    x, c, s := Leftmost(e.right, all, root, whole, Below(c0, e, u.left, false), u.right);
    a := Before(c0) + InOrder(u.left);
    b, at := InOrder(s) + After(c), |a|;
    AfterOrder(c, x, s, e, a);
  }

  method ChooseBefore(e: Links, ghost all: set<Links>, ghost root: Links, ghost whole: Shape, ghost c0: Path, ghost u: Shape)
      returns (x: Links, ghost c: Path, ghost s: Shape, ghost a: seq<Links>, ghost b: seq<Links>, ghost at: nat)
    requires At(Snap(all), all, root, whole, c0, u) && u.Node? && u.links == e && e.left != null
    ensures x != e && At(Snap(all), all, root, whole, c, Single(x, s, true)) && Stands(whole, c, x, s, true, e, a, b, at)
  {
    hide At, Even, Nodes;
    AtDown(Snap(all), all, root, whole, c0, u, true);
    x, c, s := Rightmost(e.left, all, root, whole, Below(c0, e, u.right, true), u.left);
    b := InOrder(u.right) + After(c0);
    assert After(c) == [e] + b;
    a, at := Before(c) + InOrder(s), Rank(c, s, true) + 1;
    BeforeOrder(c, x, s, e, b);
  }

  // The element that is to be unlinked in order to remove e: e itself, or a neighbour
  // of e that will take its place.
  method Choose(e: Links, ghost all: set<Links>, ghost root: Links, ghost whole: Shape)
      returns (x: Links, ghost c: Path, ghost s: Shape, ghost onLeft: bool, ghost a: seq<Links>, ghost b: seq<Links>, ghost at: nat)
    requires At(Snap(all), all, root, whole, Top(root), whole) && e in Nodes(whole)
    ensures At(Snap(all), all, root, whole, c, Single(x, s, onLeft))
    ensures if x == e
      then at == Rank(c, s, onLeft) < |InOrder(whole)| && InOrder(whole)[at] == e
      else Stands(whole, c, x, s, onLeft, e, a, b, at)
    ensures x == e <==> e.left == null || e.right == null
    ensures x != e ==> (onLeft <==> e.balance < 0)
  {
    ghost var u;
    c, u := Locate(Snap(all), all, root, whole, Top(root), whole, e);
    assert e in all && (e.left == null ==> u.left == Leaf) && (e.right == null ==> u.right == Leaf);
    a, b, at := [], [], 0;
    if e.left == null || e.right == null {
      x := e;
      OnlyChild(Snap(all), all, root, whole, c, u);
      onLeft := u.right == Leaf;
      s := if onLeft then u.left else u.right;
      at := Rank(c, s, onLeft);
    } else if e.balance >= 0 {
      onLeft := false;
      x, c, s, a, b, at := ChooseAfter(e, all, root, whole, c, u);
    } else {
      onLeft := true;
      x, c, s, a, b, at := ChooseBefore(e, all, root, whole, c, u);
    }
  }

  lemma SetLess(s: set<Links>, w: set<Links>, all: set<Links>, root: Links, x: Links)
    requires s + {root} == all - {x} && w + {root} == all && root !in w && x != root && root !in s && x in all
    ensures s == w - {x} && s + {root} <= all && x !in s
    ensures forall e :: e in w && e != x ==> e in s && s - {e} + {x} == w - {e}
  {
    forall e | e in w && e != x ensures e in s && s - {e} + {x} == w - {e} {
      assert x in w;
    }
  }

  // Unlinks x and, if x is not e, puts it in the place of e.
  method Detach(e: Links, x: Links, root: Links, ghost all: set<Links>, ghost whole: Shape,
      ghost c: Path, ghost s: Shape, ghost onLeft: bool, ghost a: seq<Links>, ghost b: seq<Links>, ghost at: nat)
      returns (ghost t: Shape)
    requires At(Snap(all), all, root, whole, c, Single(x, s, onLeft)) && Sorted(InOrder(whole)) && e in Nodes(whole)
    requires Nodes(whole) + {root} == all && root !in Nodes(whole)
    requires if x == e
      then at == Rank(c, s, onLeft) < |InOrder(whole)| && InOrder(whole)[at] == e
      else Stands(whole, c, x, s, onLeft, e, a, b, at)
    modifies all
    ensures Standing(Snap(all), root, t) && Nodes(t) == Nodes(whole) - {e}
    ensures at < |InOrder(whole)| && InOrder(t) == Without(InOrder(whole), at)
  {
    WithoutSorted(InOrder(whole), at);
    t := TakeOut(x, root, all, whole, c, s, onLeft);
    SetLess(Nodes(t), Nodes(whole), all, root, x);
    if x != e {
      t := PutInPlace(e, x, root, all, t, a, b);
    }
  }

  lemma TopAt(m: Memory, root: Links, t: Shape)
    requires Standing(m, root, t)
    ensures At(m, Nodes(t) + {root}, root, t, Top(root), t) && root !in Nodes(t)
  {
  }

  method RemoveElement(tree: Tree, element: Links) returns (ghost at: nat)
    requires tree.Valid() && element in tree.nodes
    modifies tree, tree.All()
    ensures tree.Valid() && tree.nodes == old(tree.nodes) - {element} && tree.count == old(tree.count) - 1
    ensures at < |old(InOrder(tree.shape))| && old(InOrder(tree.shape))[at] == element
    ensures InOrder(tree.shape) == Without(old(InOrder(tree.shape)), at)
  {
    hide Snap;
    ghost var all, whole := tree.All(), tree.shape;
    var x;
    ghost var c, s, onLeft, a, b, t;
    TopAt(Snap(all), tree.root, whole);
    x, c, s, onLeft, a, b, at := Choose(element, all, tree.root, whole);
    t := Detach(element, x, tree.root, all, whole, c, s, onLeft, a, b, at);
    tree.count := tree.count - 1;
    tree.Adopt(all, t);
  }
}
