// The AVL tree itself: search, insertion.
module AvlTree {
  import opened AvlShape
  import opened AvlRotate
  import opened AvlBalance
  import opened AvlPath

  ghost predicate Sorted(s: seq<Links>) {
    forall i, j :: 0 <= i < j < |s| ==> s[i].key < s[j].key
  }

  ghost predicate AllBelow(s: seq<Links>, key: int) {
    forall x :: x in s ==> x.key < key
  }

  ghost predicate AllAbove(s: seq<Links>, key: int) {
    forall x :: x in s ==> x.key > key
  }

  lemma {:induction false} InOrderNodes(t: Shape, x: Links)
    ensures x in InOrder(t) <==> x in Nodes(t)
  {
    if t.Node? {
      InOrderNodes(t.left, x);
      InOrderNodes(t.right, x);
    }
  }

  lemma SplitOrder(b: seq<Links>, l: seq<Links>, x: Links, r: seq<Links>, a: seq<Links>)
    requires Sorted(b + (l + [x] + r) + a)
    ensures AllBelow(l, x.key) && AllAbove(r, x.key)
  {
    var s := b + (l + [x] + r) + a;
    assert s[|b| + |l|] == x;
    forall y | y in r ensures y.key > x.key {
      var i :| 0 <= i < |r| && r[i] == y;
      assert s[|b| + |l| + 1 + i] == y;
    }
    forall y | y in l ensures y.key < x.key {
      var i :| 0 <= i < |l| && l[i] == y;
      assert s[|b| + i] == y;
    }
  }

  // A comparison with the root of a subtree decides for a whole side of it.
  lemma Side(c: Path, t: Shape, key: int, isLeft: bool)
    requires t.Node? && Sorted(InOrder(Plug(c, t)))
    requires if isLeft then key < t.links.key else key > t.links.key
    requires AllBelow(Before(c), key) && AllAbove(After(c), key)
    ensures var c' := Below(c, t.links, Near(t, !isLeft), isLeft); AllBelow(Before(c'), key) && AllAbove(After(c'), key)
  {
    PlugInOrder(c, t);
    SplitOrder(Before(c), InOrder(t.left), t.links, InOrder(t.right), After(c));
  }

  // The search for key has come to the subtree t of the tree whole.
  ghost predicate Seeking(m: Memory, root: Links, whole: Shape, key: int, c: Path, t: Shape) {
    && Hung(m, c, t) && Weighed(m, t) && PathWeighed(m, c, Height(t))
    && Plug(c, t) == whole && Sentinel(c) == root && Sorted(InOrder(whole))
    && AllBelow(Before(c), key) && AllAbove(After(c), key)
  }

  lemma SeekDown(m: Memory, root: Links, whole: Shape, key: int, c: Path, t: Shape, isLeft: bool)
    requires Seeking(m, root, whole, key, c, t) && t.Node?
    requires if isLeft then key < t.links.key else key > t.links.key
    ensures Seeking(m, root, whole, key, Below(c, t.links, Near(t, !isLeft), isLeft), Near(t, isLeft))
    ensures t.links in m && Slot(m[t.links], isLeft) == Pointer(Near(t, isLeft))
  {
    Side(c, t, key, isLeft);
    DescendWeighed(m, c, t, isLeft);
  }

  lemma SeekHere(m: Memory, root: Links, whole: Shape, key: int, c: Path, t: Shape)
    requires Seeking(m, root, whole, key, c, t)
    ensures Nodes(t) + PathNodes(c) == Nodes(whole) + {root} && root !in Nodes(t) && root !in Nodes(whole)
    ensures Owner(c) in PathNodes(c)
  {
    PlugHung(m, c, t);
    PlugNodes(c, t);
    PathNodesOwned(c);
  }

  // Stores element into an empty field of P and clears its links.
  method Attach(P: Links, onLeft: bool, element: Links, ghost all: set<Links>)
    requires P in all && element !in all
    modifies P`left, P`right, element
    ensures var m, m' := old(Snap(all)), Snap(all + {element});
      && m'[element] == Record(P, null, null, 0)
      && m'[P] == SetSlot(m[P], onLeft, element)
      && Same(m, m', m.Keys - {P, element})
  {
    if onLeft {
      P.left := element;
    } else {
      P.right := element;
    }
    element.parent := P;
    element.left := null;
    element.right := null;
    element.balance := 0;
  }

  ghost predicate Even(m: Memory, c: Path, t: Shape) {
    Hung(m, c, t) && Weighed(m, t) && PathWeighed(m, c, Height(t))
  }

  // A subtree that has become one higher than the balances above it say.
  ghost predicate Grown(m: Memory, c: Path, t: Shape) {
    && Hung(m, c, t) && Weighed(m, t) && t.Node? && PathWeighed(m, c, Height(t) - 1)
    && t.links in m && (m[t.links].balance == 0 ==> Height(t) == 1)
  }

  // A subtree whose root leans too far, below balances that still hold for the
  // height it will have once it is rebalanced.
  ghost predicate Tipped(m: Memory, c: Path, t: Shape, h: nat) {
    Hung(m, c, t) && Leaning(m, t) && PathWeighed(m, c, h)
  }

  ghost function Wider(c: Path, t: Shape): Shape
    requires c.Below?
  {
    Joint(t, c.links, c.sibling, c.isLeft)
  }

  // The same tree seen from one link higher up.
  lemma Wide(m: Memory, c: Path, t: Shape)
    requires Hung(m, c, t) && c.Below?
    ensures Hung(m, c.up, Wider(c, t)) && Sentinel(c.up) == Sentinel(c) && Plug(c.up, Wider(c, t)) == Plug(c, t)
    ensures PathNodes(c.up) + Nodes(Wider(c, t)) == PathNodes(c) + Nodes(t)
    ensures c.links in m && c.links == Wider(c, t).links
  {
    Ascend(m, c, t);
    Joints(m, t, c.links, c.sibling, c.isLeft);
  }

  // The balance at the gap says how the sides compare; up is the height above it.
  lemma GapBalance(m: Memory, c: Path, h: nat, up: nat)
    requires PathWeighed(m, c, h) && c.Below? && up == 1 + Max(h, Height(c.sibling))
    ensures c.links in m && m[c.links].balance == (if c.isLeft then Height(c.sibling) - h else h - Height(c.sibling)) && -1 <= m[c.links].balance <= 1
    ensures Weighed(m, c.sibling) && PathWeighed(m, c.up, up)
  {
  }

  lemma HeightJoint(t: Shape, x: Links, s: Shape, isLeft: bool)
    ensures Height(Joint(t, x, s, isLeft)) == 1 + Max(Height(t), Height(s))
  {
  }

  // What is seen from the root of a grown subtree that is not the whole tree.
  lemma LookUp(m: Memory, root: Links, c: Path, t: Shape)
    requires Grown(m, c, t) && t.links != root && Pointer(Plug(c, t)) == root
    ensures c.Below? && t.links in m && m[t.links].parent == c.links && c.links in m && (m[c.links].left == t.links) == c.isLeft
    ensures -1 <= m[c.links].balance <= 1
    ensures Plug(c.up, Wider(c, t)) == Plug(c, t) && Sentinel(c.up) == Sentinel(c) && c.links == Wider(c, t).links
    ensures PathNodes(c.up) + Nodes(Wider(c, t)) == PathNodes(c) + Nodes(t) && c.links in PathNodes(c)
  {
    hide Hung, Max, Weighed, Nodes;
    SlotSide(m, c, t);
    Wide(m, c, t);
    GapBalance(m, c, Height(t) - 1, 1 + Max(Height(t) - 1, Height(c.sibling)));
  }

  // What the stored balance of the parent says about a subtree that was one lower.
  lemma GrownGap(m: Memory, c: Path, t: Shape)
    requires Grown(m, c, t) && c.Below?
    ensures c.links in m
    ensures m[c.links].balance == 0 ==> Height(c.sibling) == Height(t) - 1
    ensures m[c.links].balance == Sign(c.isLeft) ==> Height(c.sibling) == Height(t)
    ensures m[c.links].balance == -Sign(c.isLeft) ==> Height(c.sibling) == Height(t) - 2
    ensures Weighed(m, c.sibling) && PathWeighed(m, c.up, 1 + Max(Height(t) - 1, Height(c.sibling)))
    ensures Height(Wider(c, t)) == 1 + Max(Height(t), Height(c.sibling))
  {
    GapBalance(m, c, Height(t) - 1, 1 + Max(Height(t) - 1, Height(c.sibling)));
    HeightJoint(t, c.links, c.sibling, c.isLeft);
  }

  // The sides were even: now the grown side is the higher one, and the tree above has grown.
  lemma GrownOn(m: Memory, c: Path, t: Shape)
    requires Grown(m, c, t) && c.Below? && c.links in m && m[c.links].balance == 0
    ensures Grown(m[c.links := m[c.links].(balance := -Sign(c.isLeft))], c.up, Wider(c, t))
  {
    GrownGap(m, c, t);
    Raise(m, m[c.links := m[c.links].(balance := -Sign(c.isLeft))], c, t, Height(t) - 1, -Sign(c.isLeft), Height(Wider(c, t)) - 1);
  }

  // The other side was the higher one: now they are even.
  lemma GrownEven(m: Memory, c: Path, t: Shape)
    requires Grown(m, c, t) && c.Below? && c.links in m && m[c.links].balance == Sign(c.isLeft)
    ensures Even(m[c.links := m[c.links].(balance := 0)], c.up, Wider(c, t))
  {
    GrownGap(m, c, t);
    Raise(m, m[c.links := m[c.links].(balance := 0)], c, t, Height(t) - 1, 0, Height(Wider(c, t)));
  }

  // The grown side was the higher one already.
  lemma GrownTipped(m: Memory, c: Path, t: Shape)
    requires Grown(m, c, t) && c.Below? && c.links in m && m[c.links].balance == -Sign(c.isLeft)
    ensures Tipped(m, c.up, Wider(c, t), Height(t)) && Height(Wider(c, t)) == Height(t) + 1
    ensures m[t.links].balance != 0 && Near(Wider(c, t), c.isLeft) == t
  {
    GrownGap(m, c, t);
    GapBalance(m, c, Height(t) - 1, Height(t));
    Ascend(m, c, t);
    LeaningJoint(m, t, c.links, c.sibling, c.isLeft);
  }

  // Rebalances the subtree at P through the field of its parent that holds it.
  method RebalanceAt(P: Links, ghost all: set<Links>, ghost c: Path, ghost t: Shape, ghost h: nat)
      returns (code: int, ghost t': Shape)
    requires Tipped(Snap(all), c, t, h) && P == t.links && PathNodes(c) + Nodes(t) <= all
    modifies all
    ensures Hung(Snap(all), c, t') && Weighed(Snap(all), t') && PathWeighed(Snap(all), c, h)
    ensures 1 <= code <= 3 && Height(t') == (if code == 3 then Height(t) else Height(t) - 1)
    ensures InOrder(Plug(c, t')) == InOrder(Plug(c, t)) && Nodes(t') == Nodes(t)
    ensures code == 3 <==> old(Snap(all)[Near(t, t.links.balance == -1).links].balance) == 0
    ensures P.parent == Pointer(t')
  {
    ghost var m := Snap(all);
    SlotSide(m, c, t);
    HungHeld(m, c, t);
    PathNodesOwned(c);
    var onLeft := P.parent.left == P;
    code, t' := Rebalance(P.parent, onLeft, all, t);
    RaiseRebalanced(m, Snap(all), c, t, h, code, t');
    PlugInOrder(c, t);
    PlugInOrder(c, t');
  }

  // The side that has grown was the higher one: one rebalancing puts everything right.
  method RebalanceGrown(P: Links, ghost all: set<Links>, ghost c0: Path, ghost t0: Shape) returns (ghost t: Shape)
    requires Grown(Snap(all), c0, t0) && c0.Below? && c0.links == P && P in all && P.balance == -Sign(c0.isLeft)
    requires PathNodes(c0.up) + Nodes(Wider(c0, t0)) <= all
    modifies all
    ensures Even(Snap(all), c0.up, t) && Nodes(t) == Nodes(Wider(c0, t0))
    ensures InOrder(Plug(c0.up, t)) == InOrder(Plug(c0.up, Wider(c0, t0)))
  {
    GrownTipped(Snap(all), c0, t0);
    var code;
    code, t := RebalanceAt(P, all, c0.up, Wider(c0, t0), Height(t0));
  }

  // One turn of the trace of an insertion: P is the root of a grown subtree.
  method TraceStep(P0: Links, ghost root: Links, ghost all: set<Links>, ghost c0: Path, ghost t0: Shape)
      returns (P: Links, stop: bool, ghost c: Path, ghost t: Shape, ghost rebalances: nat)
    requires Grown(Snap(all), c0, t0) && t0.links == P0 && all == PathNodes(c0) + Nodes(t0)
    requires Pointer(Plug(c0, t0)) == root && P0 != root
    modifies all
    ensures if stop then Even(Snap(all), c, t) else Grown(Snap(all), c, t) && P == t.links && Plug(c, t) == Plug(c0, t0)
    ensures c0.Below? && c == c0.up && Sentinel(c) == Sentinel(c0) && PathNodes(c) + Nodes(t) == all
    ensures InOrder(Plug(c, t)) == InOrder(Plug(c0, t0)) && rebalances == (if stop then rebalances else 0) <= 1
  {
    ghost var m := Snap(all);
    LookUp(m, root, c0, t0);
    P := P0;
    c, t, rebalances := c0.up, Wider(c0, t0), 0;
    var balance := if P.parent.left == P then -1 else 1;
    P := P.parent;
    if P.balance == 0 {
      GrownOn(m, c0, t0);
      SetBalance(P, balance, all);
      stop := false;
    } else if P.balance != balance {
      GrownEven(m, c0, t0);
      SetBalance(P, 0, all);
      stop := true;
    } else {
      t := RebalanceGrown(P, all, c0, t0);
      rebalances := 1;
      stop := true;
    }
  }

  // Traces up from a new element until the balances above are right again.
  method TraceGrown(element: Links, root: Links, ghost all: set<Links>, ghost c0: Path, ghost t0: Shape)
      returns (ghost c: Path, ghost t: Shape, ghost rebalances: nat)
    requires Grown(Snap(all), c0, t0) && t0.links == element && all == PathNodes(c0) + Nodes(t0)
    requires Pointer(Plug(c0, t0)) == root
    modifies all
    ensures Even(Snap(all), c, t) && Sentinel(c) == Sentinel(c0) && rebalances <= 1
    ensures InOrder(Plug(c, t)) == InOrder(Plug(c0, t0)) && PathNodes(c) + Nodes(t) == all
  {
    var P := element;
    c, t, rebalances := c0, t0, 0;
    while P != root
      invariant Grown(Snap(all), c, t) && P == t.links && all == PathNodes(c) + Nodes(t)
      invariant Plug(c, t) == Plug(c0, t0) && Sentinel(c) == Sentinel(c0) && rebalances == 0
      decreases c
    {
      var stop;
      P, stop, c, t, rebalances := TraceStep(P, root, all, c, t);
      if stop {
        return;
      }
    }
    TopOnly(c, t);
  }

  lemma TopOnly(c: Path, t: Shape)
    requires t.Node? && Apart(c, t) && Pointer(Plug(c, t)) == t.links
    ensures c.Top?
  {
    if c.Below? {
      PlugPointer(c, t);
    }
  }

  // The first element of a hung tree is what the sentinel's Right points at.
  lemma {:induction false} TopPointer(m: Memory, c: Path, t: Shape)
    requires Hung(m, c, t)
    ensures Sentinel(c) in m && m[Sentinel(c)].right == Pointer(Plug(c, t)) && (t.Node? ==> Plug(c, t).Node?)
    decreases c
  {
    if c.Below? {
      Ascend(m, c, t);
      TopPointer(m, c.up, Wider(c, t));
    }
  }

  // A search that ended in an empty gap inserts a key that was not there, in order.
  lemma NewKey(c: Path, whole: Shape, e: Links)
    requires Plug(c, Leaf) == whole && Sorted(InOrder(whole))
    requires AllBelow(Before(c), e.key) && AllAbove(After(c), e.key)
    ensures |Before(c)| <= |InOrder(whole)|
    ensures forall x :: x in Nodes(whole) ==> x.key != e.key
    ensures var s := InOrder(Plug(c, Node(Leaf, e, Leaf)));
      && s == InOrder(whole)[..|Before(c)|] + [e] + InOrder(whole)[|Before(c)|..] && Sorted(s)
  {
    hide Before, Sorted;
    PlugInOrder(c, Leaf);
    PlugInOrder(c, Node(Leaf, e, Leaf));
    AbsentKey(whole, Before(c), After(c), e.key);
    assert InOrder(whole) == Before(c) + After(c);
    SortedInsert(Before(c), e, After(c));
    assert InOrder(Plug(c, Node(Leaf, e, Leaf))) == Before(c) + [e] + After(c);
  }

  lemma AbsentKey(t: Shape, b: seq<Links>, a: seq<Links>, key: int)
    requires InOrder(t) == b + a && AllBelow(b, key) && AllAbove(a, key)
    ensures forall x :: x in Nodes(t) ==> x.key != key
  {
    forall x: Links | x in Nodes(t) ensures x.key != key {
      InOrderNodes(t, x);
      assert x in b + a;
    }
  }

  lemma SortedInsert(b: seq<Links>, e: Links, a: seq<Links>)
    requires Sorted(b + a) && AllBelow(b, e.key) && AllAbove(a, e.key)
    ensures Sorted(b + [e] + a)
  {
    var s, s' := b + a, b + [e] + a;
    forall i, j | 0 <= i < j < |s'| ensures s'[i].key < s'[j].key {
      assert i < |b| ==> s'[i] == s[i] == b[i];
      assert i > |b| ==> s'[i] == s[i - 1] == a[i - 1 - |b|];
      assert j < |b| ==> s'[j] == s[j] == b[j];
      assert j > |b| ==> s'[j] == s[j - 1] == a[j - 1 - |b|];
    }
  }

  // Everything that is always true of a tree that hangs off root: the pointers and
  // balances are those its shape calls for, and its elements are in key order.
  ghost predicate Standing(m: Memory, root: Links, t: Shape) {
    Hung(m, Top(root), t) && Weighed(m, t) && Sorted(InOrder(t))
  }

  // A standing tree does not depend on links that are not part of it.
  lemma StandingKept(m: Memory, m': Memory, root: Links, t: Shape)
    requires Standing(m, root, t) && Same(m, m', Nodes(t) + {root})
    ensures Standing(m', root, t)
  {
    JoinedIn(m, t);
    JoinedKept(m, m', t);
    WeighedKept(m, m', t);
  }

  // Stores element into the empty field that a search found.
  method Graft(P: Links, onLeft: bool, element: Links, ghost all: set<Links>, ghost c: Path)
    requires Hung(Snap(all), c, Leaf) && PathWeighed(Snap(all), c, 0) && all == PathNodes(c)
    requires Owner(c) == P && OnLeft(c) == onLeft && element !in all
    modifies P`left, P`right, element
    ensures Grown(Snap(all + {element}), c, Node(Leaf, element, Leaf))
    ensures Sentinel(c).right != null && Sentinel(c).right == Pointer(Plug(c, Node(Leaf, element, Leaf)))
  {
    ghost var m := Snap(all);
    PathNodesOwned(c);
    Attach(P, onLeft, element, all);
    Inserted(m, Snap(all + {element}), c, element);
    TopPointer(Snap(all + {element}), c, Node(Leaf, element, Leaf));
  }

  // Adds element where a search ended, and rebalances above it.
  method Insert(root: Links, P: Links, onLeft: bool, element: Links, ghost all: set<Links>, ghost whole: Shape, ghost c: Path)
      returns (ghost t: Shape, ghost rebalances: nat)
    requires Seeking(Snap(all), root, whole, element.key, c, Leaf) && all == Nodes(whole) + {root}
    requires Owner(c) == P && OnLeft(c) == onLeft && element !in all
    modifies all, element
    ensures Standing(Snap(all + {element}), root, t) && Nodes(t) == Nodes(whole) + {element}
    ensures |Before(c)| <= |InOrder(whole)| && (forall x :: x in Nodes(whole) ==> x.key != element.key)
    ensures InOrder(t) == InOrder(whole)[..|Before(c)|] + [element] + InOrder(whole)[|Before(c)|..] && rebalances <= 1
  {
    hide Snap, InOrder, AllBelow, Hung, PathWeighed, Sorted;
    SeekHere(Snap(all), root, whole, element.key, c, Leaf);
    NewKey(c, whole, element);
    ghost var s := Nodes(whole) + {element};
    assert all + {element} == s + {root} && root !in s;
    Graft(P, onLeft, element, all, c);
    t := Node(Leaf, element, Leaf);
    ghost var c';
    c', t, rebalances := TraceGrown(element, root.right, all + {element}, c, t);
    Closed(Snap(all + {element}), root, c', t, s);
    t := Plug(c', t);
  }

  // Once the gap is closed, the whole tree stands again.
  lemma Closed(m: Memory, root: Links, c: Path, t: Shape, s: set<Links>)
    requires Even(m, c, t) && Sentinel(c) == root && root !in s
    requires PathNodes(c) + Nodes(t) == s + {root} && Sorted(InOrder(Plug(c, t)))
    ensures Standing(m, root, Plug(c, t)) && Nodes(Plug(c, t)) == s
  {
    PlugHung(m, c, t);
    PlugNodes(c, t);
    assert root !in Nodes(Plug(c, t));
  }

  class Tree {
    const root: Links
    var count: nat
    ghost var shape: Shape
    ghost var nodes: set<Links>

    constructor ()
      ensures Valid() && fresh(root) && shape == Leaf
    {
      root := new Links(0);
      count := 0;
      shape := Leaf;
      nodes := {};
    }

    ghost function All(): set<Links>
      reads this
    {
      nodes + {root}
    }

    ghost predicate Valid()
      reads this, All()
    {
      nodes == Nodes(shape) && Standing(Snap(All()), root, shape) && count == |InOrder(shape)|
    }

    // Where an element with this key is, or the field it would be stored in.
    method FindPosition(key: int) returns (links: Links, result: int, ghost c: Path)
      requires Valid()
      ensures -1 <= result <= 1 && links in All()
      ensures result == 0 ==> links in Nodes(shape) && links.key == key
      ensures result != 0 ==>
        Seeking(Snap(All()), root, shape, key, c, Leaf) && Owner(c) == links && OnLeft(c) == (result < 0)
    {
      hide Nodes, InOrder;
      ghost var m := Snap(All());
      c := Top(root);
      if root.right == null {
        return root, 1, c;
      }
      links := root.right;
      ghost var t := shape;
      while true
        invariant Seeking(m, root, shape, key, c, t) && Pointer(t) == links
        decreases t
      {
        SeekHere(m, root, shape, key, c, t);
        if key == links.key {
          return links, 0, c;
        } else if key < links.key {
          SeekDown(m, root, shape, key, c, t, true);
          c, t := Below(c, t.links, t.right, true), t.left;
          if links.left != null {
            links := links.left;
          } else {
            return links, -1, c;
          }
        } else {
          SeekDown(m, root, shape, key, c, t, false);
          c, t := Below(c, t.links, t.left, false), t.right;
          if links.right != null {
            links := links.right;
          } else {
            return links, 1, c;
          }
        }
      }
    }

    // Names the shape and the elements that the pointers now show.
    ghost method Adopt(all: set<Links>, t: Shape)
      requires Standing(Snap(all), root, t) && Nodes(t) + {root} <= all && count == |InOrder(t)|
      modifies this`shape, this`nodes
      ensures shape == t && nodes == Nodes(t) && Valid()
    {
      hide Pointer, Owner, InOrder;
      StandingKept(Snap(all), Snap(Nodes(t) + {root}), root, t);
      shape := t;
      nodes := Nodes(t);
    }

    // Returns the element that was there already, or null if element was added.
    method Add(element: Links) returns (existing: Links?, ghost at: nat, ghost rebalances: nat)
      requires Valid() && element !in All()
      modifies this, All(), element
      ensures Valid() && rebalances <= 1
      ensures existing != null ==>
        existing in old(nodes) && existing.key == element.key && shape == old(shape) && nodes == old(nodes) && count == old(count)
        && Snap(All()) == old(Snap(All())) && Snap({element}) == old(Snap({element}))
      ensures existing == null ==>
        && at <= |old(InOrder(shape))| && count == old(count) + 1 && nodes == old(nodes) + {element}
        && (forall x :: x in old(nodes) ==> x.key != element.key)
        && InOrder(shape) == old(InOrder(shape))[..at] + [element] + old(InOrder(shape))[at..]
    {
      hide InOrder, Joined, Weighed, PathJoined, PathWeighed, Even, Grown, Snap, Before, Pointer, Hangs, Height, Owner, Max, Hung, Apart;
      at, rebalances := 0, 0;
      var P, result, c := FindPosition(element.key);
      if result == 0 {
        existing := P;
      } else {
        existing := null;
        at := |Before(c)|;
        ghost var all, t := All(), shape;
        t, rebalances := Insert(root, P, result < 0, element, all, shape, c);
        count := count + 1;
        Adopt(all + {element}, t);
      }
    }
  }
}
