// Walking down and up a tree: a subtree hung in the path around it.
module AvlPath {
  import opened AvlShape
  import opened AvlRotate
  import opened AvlBalance

  ghost function OnLeft(c: Path): bool {
    c.Below? && c.isLeft
  }

  // The subtree t stands in the gap of the path c, and all their fields agree.
  ghost predicate Hung(m: Memory, c: Path, t: Shape) {
    && Apart(c, t) && PathJoined(m, c, Pointer(t)) && Joined(m, t) && Hangs(m, t, Owner(c))
  }

  lemma {:induction false} PathNodesOwned(c: Path)
    ensures Owner(c) in PathNodes(c) && Sentinel(c) in PathNodes(c)
  {
    if c.Below? {
      PathNodesOwned(c.up);
    }
  }

  lemma HungHeld(m: Memory, c: Path, t: Shape)
    requires Hung(m, c, t)
    ensures Held(m, Owner(c), OnLeft(c), t)
  {
    PathNodesOwned(c);
  }

  lemma {:induction false} PathJoinedIn(m: Memory, c: Path, child: Links?)
    requires PathJoined(m, c, child)
    ensures PathNodes(c) <= m.Keys
  {
    if c.Below? {
      PathJoinedIn(m, c.up, c.links);
      JoinedIn(m, c.sibling);
    }
  }

  lemma {:induction false} JoinedIn(m: Memory, t: Shape)
    requires Joined(m, t)
    ensures Nodes(t) <= m.Keys
  {
    if t.Node? {
      JoinedIn(m, t.left);
      JoinedIn(m, t.right);
    }
  }

  lemma Descend(m: Memory, c: Path, t: Shape, isLeft: bool)
    requires Hung(m, c, t) && t.Node?
    ensures Hung(m, Below(c, t.links, Near(t, !isLeft), isLeft), Near(t, isLeft))
    ensures Plug(Below(c, t.links, Near(t, !isLeft), isLeft), Near(t, isLeft)) == Plug(c, t)
  {
    Joints(m, Near(t, isLeft), t.links, Near(t, !isLeft), isLeft);
  }

  lemma DescendBalance(m: Memory, c: Path, t: Shape, isLeft: bool)
    requires t.Node? && Weighed(m, t) && PathWeighed(m, c, Height(t))
    ensures var c', t' := Below(c, t.links, Near(t, !isLeft), isLeft), Near(t, isLeft);
      Weighed(m, t') && PathWeighed(m, c', Height(t'))
  {
    assert Height(t) == 1 + Max(Height(Near(t, isLeft)), Height(Near(t, !isLeft)));
  }

  lemma DescendWeighed(m: Memory, c: Path, t: Shape, isLeft: bool)
    requires Hung(m, c, t) && t.Node? && Weighed(m, t) && PathWeighed(m, c, Height(t))
    ensures var c', t' := Below(c, t.links, Near(t, !isLeft), isLeft), Near(t, isLeft);
      && Hung(m, c', t') && Weighed(m, t') && PathWeighed(m, c', Height(t')) && Plug(c', t') == Plug(c, t)
      && t.links in m && Slot(m[t.links], isLeft) == Pointer(t')
  {
    DescendBalance(m, c, t, isLeft);
    Descend(m, c, t, isLeft);
  }

  lemma Ascend(m: Memory, c: Path, t: Shape)
    requires Hung(m, c, t) && c.Below?
    ensures Hung(m, c.up, Joint(t, c.links, c.sibling, c.isLeft))
  {
    Joints(m, t, c.links, c.sibling, c.isLeft);
  }

  // Storing another child in the gap changes one field of one record.
  lemma {:induction false} PathJoinedKept(m: Memory, m': Memory, c: Path, child: Links?, child': Links?)
    requires PathJoined(m, c, child) && ProperPath(c)
    requires SameLinks(m, m', PathNodes(c) - {Owner(c)})
    requires Owner(c) in m && Owner(c) in m'
    requires m'[Owner(c)].(balance := m[Owner(c)].balance) == SetSlot(m[Owner(c)], OnLeft(c), child')
    ensures PathJoined(m', c, child')
  {
    if c.Below? {
      PathNodesOwned(c.up);
      JoinedKept(m, m', c.sibling);
      PathJoinedIn(m, c.up, c.links);
      PathSame(m, m', c.up, c.links);
    }
  }

  lemma {:induction false} PathSame(m: Memory, m': Memory, c: Path, child: Links?)
    requires PathJoined(m, c, child) && ProperPath(c) && SameLinks(m, m', PathNodes(c))
    ensures PathJoined(m', c, child)
  {
    PathNodesOwned(c);
    if c.Below? {
      JoinedKept(m, m', c.sibling);
      PathSame(m, m', c.up, c.links);
    }
  }

  lemma {:induction false} PathWeighedKept(m: Memory, m': Memory, c: Path, h: nat)
    requires PathWeighed(m, c, h) && SameBalance(m, m', PathNodes(c))
    ensures PathWeighed(m', c, h)
  {
    if c.Below? {
      WeighedKept(m, m', c.sibling);
      PathWeighedKept(m, m', c.up, 1 + Max(h, Height(c.sibling)));
    }
  }

  // The pointers of path and subtree do not depend on balances.
  lemma HungKept(m: Memory, m': Memory, c: Path, t: Shape)
    requires Hung(m, c, t) && SameLinks(m, m', m.Keys)
    ensures Hung(m', c, t)
  {
    PathSame(m, m', c, Pointer(t));
    JoinedIn(m, t);
    JoinedKept(m, m', t);
  }

  // Going up one link whose balance is stored anew.
  lemma Raise(m: Memory, m': Memory, c: Path, t: Shape, h: nat, balance: int, up: nat)
    requires c.Below? && Hung(m, c, t) && Weighed(m, t) && PathWeighed(m, c, h) && up == 1 + Max(h, Height(c.sibling))
    requires m' == m[c.links := m[c.links].(balance := balance)]
    requires balance == (if c.isLeft then Height(c.sibling) - Height(t) else Height(t) - Height(c.sibling)) && -1 <= balance <= 1
    ensures var t' := Joint(t, c.links, c.sibling, c.isLeft);
      && Hung(m', c.up, t') && Weighed(m', t') && PathWeighed(m', c.up, up)
  {
    HungKept(m, m', c, t);
    Ascend(m', c, t);
    RaiseWeighed(m, m', c, t, h, up);
    WeighedJoints(m', t, c.links, c.sibling, c.isLeft);
  }

  lemma RaiseWeighed(m: Memory, m': Memory, c: Path, t: Shape, h: nat, up: nat)
    requires c.Below? && Apart(c, t) && Weighed(m, t) && PathWeighed(m, c, h) && up == 1 + Max(h, Height(c.sibling))
    requires SameBalance(m, m', m.Keys - {c.links})
    ensures Weighed(m', t) && Weighed(m', c.sibling) && PathWeighed(m', c.up, up)
  {
    hide Height, Weighed, Nodes;
    WeighedKept(m, m', t);
    WeighedKept(m, m', c.sibling);
    PathWeighedKept(m, m', c.up, up);
  }

  // A rebalanced subtree hangs where the leaning one hung.
  lemma RaiseRebalanced(m: Memory, m': Memory, c: Path, t: Shape, h: nat, code: int, t': Shape)
    requires Hung(m, c, t) && PathWeighed(m, c, h)
    requires Rebalanced(m, m', Owner(c), OnLeft(c), t, code, t')
    ensures Hung(m', c, t') && Weighed(m', t') && PathWeighed(m', c, h)
  {
    hide PathWeighed, PathJoined, Proper;
    PathNodesOwned(c);
    PathJoinedIn(m, c, Pointer(t));
    PathJoinedKept(m, m', c, Pointer(t), Pointer(t'));
    PathWeighedKept(m, m', c, h);
    assert Proper(t');
  }

  lemma {:induction false} PlugInOrder(c: Path, t: Shape)
    ensures InOrder(Plug(c, t)) == Before(c) + InOrder(t) + After(c)
    decreases c
  {
    if c.Below? {
      PlugInOrder(c.up, Joint(t, c.links, c.sibling, c.isLeft));
    }
  }

  lemma {:induction false} PlugNodes(c: Path, t: Shape)
    ensures Nodes(Plug(c, t)) + {Sentinel(c)} == PathNodes(c) + Nodes(t)
    decreases c
  {
    if c.Below? {
      PlugNodes(c.up, Joint(t, c.links, c.sibling, c.isLeft));
    }
  }

  // Closing the gap again gives a whole tree that hangs off the sentinel.
  lemma {:induction false} PlugHung(m: Memory, c: Path, t: Shape)
    requires Hung(m, c, t) && Weighed(m, t) && PathWeighed(m, c, Height(t))
    ensures Hung(m, Top(Sentinel(c)), Plug(c, t)) && Weighed(m, Plug(c, t))
    decreases c
  {
    if c.Below? {
      Ascend(m, c, t);
      WeighedJoints(m, t, c.links, c.sibling, c.isLeft);
      PlugHung(m, c.up, Joint(t, c.links, c.sibling, c.isLeft));
    }
  }

  // Hanging a new single element in an empty gap.
  lemma Inserted(m: Memory, m': Memory, c: Path, e: Links)
    requires Hung(m, c, Leaf) && PathWeighed(m, c, 0) && e !in PathNodes(c) && Owner(c) in m
    requires m'.Keys == m.Keys + {e} && m'[e] == Record(Owner(c), null, null, 0)
    requires m'[Owner(c)] == SetSlot(m[Owner(c)], OnLeft(c), e)
    requires Same(m, m', m.Keys - {Owner(c), e})
    ensures Hung(m', c, Node(Leaf, e, Leaf)) && Weighed(m', Node(Leaf, e, Leaf)) && PathWeighed(m', c, 0)
  {
    PathNodesOwned(c);
    PathJoinedIn(m, c, null);
    PathJoinedKept(m, m', c, null, e);
    PathWeighedKept(m, m', c, 0);
  }

  // Which field of its parent a link sits in can be read off the parent.
  lemma SlotSide(m: Memory, c: Path, t: Shape)
    requires Hung(m, c, t) && t.Node?
    ensures t.links in m && Owner(c) in m && m[t.links].parent == Owner(c)
    ensures (m[Owner(c)].left == t.links) == OnLeft(c)
  {
    PathNodesOwned(c);
    if c.Below? {
      assert Root(c.sibling) <= Nodes(c.sibling);
    }
  }

  lemma {:induction false} PlugPointer(c: Path, t: Shape)
    requires c.Below?
    ensures Pointer(Plug(c, t)) in PathNodes(c)
    decreases c
  {
    if c.up.Below? {
      PlugPointer(c.up, Joint(t, c.links, c.sibling, c.isLeft));
    }
  }
}
