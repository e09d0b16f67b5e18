// The links of an AVL tree, snapshots of them, and the shapes that describe how
// they hang together.
//
// A shape is the tree a reader sees when following Left and Right; a path is the
// tree with one subtree cut out. Every pointer and balance fact is stated about a
// snapshot of the links' fields, so that an update in place is related to the
// facts through the few records it changed.
module AvlShape {

  class Links {
    var parent: Links?
    var left: Links?
    var right: Links?
    var balance: int
    // What the compare function of the tree orders this element by.
    const key: int

    constructor (key: int)
      ensures this.key == key
      ensures parent == null && left == null && right == null && balance == 0
    {
      this.key := key;
      parent, left, right, balance := null, null, null, 0;
    }
  }

  datatype Record = Record(parent: Links?, left: Links?, right: Links?, balance: int)

  type Memory = map<Links, Record>

  ghost function Snap(s: set<Links>): Memory
    reads s
  {
    map x | x in s :: Record(x.parent, x.left, x.right, x.balance)
  }

  datatype Shape = Leaf | Node(left: Shape, links: Links, right: Shape)

  // Top: the whole tree hangs off the Right field of the sentinel.
  // Below: the missing subtree is the left (or right) child of links.
  datatype Path =
    | Top(root: Links)
    | Below(up: Path, links: Links, sibling: Shape, isLeft: bool)

  // ---------- values ----------

  ghost function Nodes(t: Shape): set<Links> {
    match t
    case Leaf => {}
    case Node(l, x, r) => Nodes(l) + {x} + Nodes(r)
  }

  ghost function InOrder(t: Shape): seq<Links> {
    match t
    case Leaf => []
    case Node(l, x, r) => InOrder(l) + [x] + InOrder(r)
  }

  ghost function Max(a: nat, b: nat): nat { if a < b then b else a }

  ghost function Height(t: Shape): nat {
    match t
    case Leaf => 0
    case Node(l, _, r) => 1 + Max(Height(l), Height(r))
  }

  ghost function Pointer(t: Shape): Links? {
    match t
    case Leaf => null
    case Node(_, x, _) => x
  }

  ghost function Root(t: Shape): set<Links> {
    if t.Node? then {t.links} else {}
  }

  ghost predicate Proper(t: Shape) {
    match t
    case Leaf => true
    case Node(l, x, r) =>
      && x !in Nodes(l) && x !in Nodes(r) && Nodes(l) !! Nodes(r)
      && Proper(l) && Proper(r)
  }

  ghost function PathNodes(c: Path): set<Links> {
    match c
    case Top(root) => {root}
    case Below(up, x, s, _) => PathNodes(up) + {x} + Nodes(s)
  }

  ghost predicate ProperPath(c: Path) {
    match c
    case Top(_) => true
    case Below(up, x, s, _) =>
      && x !in PathNodes(up) && x !in Nodes(s) && PathNodes(up) !! Nodes(s)
      && ProperPath(up) && Proper(s)
  }

  // The subtree and the tree around it share no links.
  ghost predicate Apart(c: Path, t: Shape) {
    Proper(t) && ProperPath(c) && PathNodes(c) !! Nodes(t)
  }

  ghost function Owner(c: Path): Links {
    match c
    case Top(root) => root
    case Below(_, x, _, _) => x
  }

  ghost function Sentinel(c: Path): Links {
    match c
    case Top(root) => root
    case Below(up, _, _, _) => Sentinel(up)
  }

  ghost function Joint(t: Shape, x: Links, s: Shape, isLeft: bool): Shape {
    if isLeft then Node(t, x, s) else Node(s, x, t)
  }

  ghost function Plug(c: Path, t: Shape): Shape {
    match c
    case Top(_) => t
    case Below(up, x, s, isLeft) => Plug(up, Joint(t, x, s, isLeft))
  }

  // What is in order before and after the missing subtree.
  ghost function Before(c: Path): seq<Links> {
    match c
    case Top(_) => []
    case Below(up, x, s, isLeft) => if isLeft then Before(up) else Before(up) + InOrder(s) + [x]
  }

  ghost function After(c: Path): seq<Links> {
    match c
    case Top(_) => []
    case Below(up, x, s, isLeft) => if isLeft then [x] + InOrder(s) + After(up) else After(up)
  }

  // ---------- pointers and balances ----------

  // The root of t, if there is one, points up to parent.
  ghost predicate Hangs(m: Memory, t: Shape, parent: Links) {
    t.Node? ==> t.links in m && m[t.links].parent == parent
  }

  // The links inside t are those the shape shows; the parent of its root is left open.
  ghost predicate Joined(m: Memory, t: Shape) {
    match t
    case Leaf => true
    case Node(l, x, r) =>
      && x in m && m[x].left == Pointer(l) && m[x].right == Pointer(r)
      && Hangs(m, l, x) && Hangs(m, r, x)
      && Joined(m, l) && Joined(m, r)
  }

  // Every balance is right height minus left height, and within -1..1.
  ghost predicate Weighed(m: Memory, t: Shape) {
    match t
    case Leaf => true
    case Node(l, x, r) =>
      && x in m && m[x].balance == Height(r) - Height(l) && -1 <= m[x].balance <= 1
      && Weighed(m, l) && Weighed(m, r)
  }

  // The fields of the path agree with child standing in the gap.
  ghost predicate PathJoined(m: Memory, c: Path, child: Links?) {
    match c
    case Top(root) => root in m && m[root].parent == null && m[root].left == null && m[root].right == child
    case Below(up, x, s, isLeft) =>
      && x in m && m[x].parent == Owner(up)
      && m[x].left == (if isLeft then child else Pointer(s))
      && m[x].right == (if isLeft then Pointer(s) else child)
      && Hangs(m, s, x) && Joined(m, s)
      && PathJoined(m, up, x)
  }

  // The balances of the path are those of a tree with height h in the gap.
  ghost predicate PathWeighed(m: Memory, c: Path, h: nat) {
    match c
    case Top(_) => true
    case Below(up, x, s, isLeft) =>
      && x in m && m[x].balance == (if isLeft then Height(s) - h else h - Height(s))
      && -1 <= m[x].balance <= 1
      && Weighed(m, s)
      && PathWeighed(m, up, 1 + Max(h, Height(s)))
  }

  // ---------- unchanged records ----------

  ghost predicate SameLinks(m: Memory, m': Memory, s: set<Links>) {
    forall n :: n in s && n in m ==> n in m' && m'[n].parent == m[n].parent && m'[n].left == m[n].left && m'[n].right == m[n].right
  }

  ghost predicate SameBalance(m: Memory, m': Memory, s: set<Links>) {
    forall n :: n in s && n in m ==> n in m' && m'[n].balance == m[n].balance
  }

  lemma {:induction false} JoinedKept(m: Memory, m': Memory, t: Shape)
    requires Joined(m, t) && Proper(t)
    requires SameLinks(m, m', Nodes(t) - Root(t))
    requires t.Node? ==> t.links in m' && m'[t.links].left == m[t.links].left && m'[t.links].right == m[t.links].right
    ensures Joined(m', t)
  {
    if t.Node? {
      JoinedKept(m, m', t.left);
      JoinedKept(m, m', t.right);
    }
  }

  lemma {:induction false} WeighedKept(m: Memory, m': Memory, t: Shape)
    requires Weighed(m, t) && SameBalance(m, m', Nodes(t))
    ensures Weighed(m', t)
  {
    if t.Node? {
      WeighedKept(m, m', t.left);
      WeighedKept(m, m', t.right);
    }
  }
}
