// Exact and approximate search in an AVL tree.
module AvlFind {
  import opened AvlShape
  import opened AvlRotate
  import opened AvlBalance
  import opened AvlPath
  import opened AvlTree
  import opened AvlWalk

  // PhFindElementAvlTree
  method FindElement(tree: Tree, key: int) returns (links: Links?)
    requires tree.Valid()
    ensures if links != null then links in tree.nodes && links.key == key else forall x :: x in tree.nodes ==> x.key != key
  {
    var P, result, c := tree.FindPosition(key);
    if result == 0 {
      return P;
    }
    links := null;
    PlugInOrder(c, Leaf);
    AbsentKey(tree.shape, Before(c), After(c), key);
  }

  // The gap in which a search for key ended, seen from its owner.
  lemma GapOrder(c: Path, whole: Shape)
    requires Plug(c, Leaf) == whole
    ensures InOrder(whole) == Before(c) + After(c)
    ensures c.Below? ==> if c.isLeft then After(c) != [] && After(c)[0] == c.links else Before(c) != [] && Before(c)[|Before(c)| - 1] == c.links
  {
    PlugInOrder(c, Leaf);
    assert Before(c) + [] + After(c) == Before(c) + After(c);
  }

  // The key would stand at place at; links is the element just below it (result 1) or
  // just above it (result -1).
  ghost predicate Between(order: seq<Links>, key: int, at: nat, links: Links, result: int) {
    && at <= |order| && AllBelow(order[..at], key) && AllAbove(order[at..], key)
    && (if result < 0 then at < |order| && order[at] == links else 0 < at && order[at - 1] == links)
  }

  lemma GapBetween(c: Path, whole: Shape, key: int)
    requires Plug(c, Leaf) == whole && AllBelow(Before(c), key) && AllAbove(After(c), key) && c.Below?
    ensures Between(InOrder(whole), key, |Before(c)|, c.links, if c.isLeft then -1 else 1)
  {
    GapOrder(c, whole);
    assert InOrder(whole)[..|Before(c)|] == Before(c) && InOrder(whole)[|Before(c)|..] == After(c);
  }

  // PhFindElementAvlTree2: the closest element, null only if the tree is empty.
  method FindNearest(tree: Tree, key: int) returns (links: Links?, result: int, ghost at: nat)
    requires tree.Valid()
    ensures links == null <==> tree.nodes == {}
    ensures links != null ==> links in tree.nodes && -1 <= result <= 1
    ensures links != null && result == 0 ==> links.key == key
    ensures links != null && result != 0 ==> Between(InOrder(tree.shape), key, at, links, result)
  {
    var P, r, c := tree.FindPosition(key);
    result, at := r, |Before(c)|;
    if r != 0 {
      SeekHere(Snap(tree.All()), tree.root, tree.shape, key, c, Leaf);
      if P == tree.root {
        TopGap(Snap(tree.All()), tree.root, tree.shape, key, c);
        return null, r, at;
      }
      BelowGap(Snap(tree.All()), tree.root, tree.shape, key, c);
      GapBetween(c, tree.shape, key);
    }
    links := P;
  }

  lemma TopGap(m: Memory, root: Links, whole: Shape, key: int, c: Path)
    requires Seeking(m, root, whole, key, c, Leaf) && Owner(c) == root
    ensures whole == Leaf
  {
    if c.Below? {
      PathNodesOwned(c.up);
    }
  }

  lemma BelowGap(m: Memory, root: Links, whole: Shape, key: int, c: Path)
    requires Seeking(m, root, whole, key, c, Leaf) && Owner(c) != root
    ensures c.Below? && Owner(c) in Nodes(whole)
  {
    SeekHere(m, root, whole, key, c, Leaf);
  }

  // ---------- views by base address ----------

  ghost predicate Holds(x: Links, address: int, size: nat) {
    x.key <= address < x.key + size
  }

  // If any range holds the address, then the one with the last base not above it does.
  lemma LastBaseHolds(order: seq<Links>, address: int, size: nat, at: nat, x: Links)
    requires Sorted(order) && at <= |order| && AllBelow(order[..at], address) && AllAbove(order[at..], address)
    requires x in order && Holds(x, address, size)
    ensures 0 < at && Holds(order[at - 1], address, size)
  {
    var i :| 0 <= i < |order| && order[i] == x;
    forall j | at <= j < |order| ensures order[j].key > address {
      assert order[at..][j - at] == order[j];
    }
    assert order[..at][at - 1] == order[at - 1];
    assert order[at - 1] in order[..at];
  }

  // PhFppFindViewByBase: a range of size bytes that holds the address, null exactly if
  // there is none.
  method FindContaining(tree: Tree, address: int, size: nat) returns (links: Links?)
    requires tree.Valid() && 0 < size
    ensures links != null ==> links in tree.nodes && Holds(links, address, size)
    ensures links == null ==> forall x :: x in tree.nodes ==> !Holds(x, address, size)
  {
    var P, result, at := FindNearest(tree, address);
    if P == null {
      return null;
    }
    if result == 0 {
      return P;
    }
    ghost var order := InOrder(tree.shape);
    assert Between(order, address, at, P, result);
    links := P;
    if result < 0 {
      links := Predecessor(P, tree);
      PreviousIndex(order, at);
    }
    OnlyLastBase(tree.shape, order, address, size, at);
    if links != null {
      InOrderNodes(tree.shape, links);
      if !(links.key <= address < links.key + size) {
        links := null;
      }
    }
  }

  lemma OnlyLastBase(t: Shape, order: seq<Links>, address: int, size: nat, at: nat)
    requires order == InOrder(t) && Sorted(order)
    requires at <= |order| && AllBelow(order[..at], address) && AllAbove(order[at..], address)
    ensures forall x :: x in Nodes(t) && Holds(x, address, size) ==> 0 < at && Holds(order[at - 1], address, size)
  {
    forall x: Links | x in Nodes(t) && Holds(x, address, size) ensures 0 < at && Holds(order[at - 1], address, size) {
      InOrderNodes(t, x);
      LastBaseHolds(order, address, size, at, x);
    }
  }
}
