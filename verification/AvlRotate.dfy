// The four rotations of the AVL tree. The C code is handed the address of the
// Left or Right field that holds the subtree; here that address is the owner of
// the field and which of its two fields it is.
//
// With d true a turn is a left rotation, with d false its mirror image:
// Joint(a, p, Joint(b, q, c, d), d) becomes Joint(Joint(a, p, b, d), q, c, d).
module AvlRotate {
  import opened AvlShape

  ghost function Slot(r: Record, onLeft: bool): Links? {
    if onLeft then r.left else r.right
  }

  ghost function SetSlot(r: Record, onLeft: bool, x: Links?): Record {
    if onLeft then r.(left := x) else r.(right := x)
  }

  ghost function Opt(x: Links?): set<Links> {
    if x != null then {x} else {}
  }

  // owner, p and q are distinct links of m, each hanging in a field of the one before.
  ghost predicate CanTurn(m: Memory, owner: Links, onLeft: bool, d: bool, p: Links, q: Links) {
    && owner in m && p in m && q in m
    && owner != p && owner != q && p != q
    && Slot(m[owner], onLeft) == p && Slot(m[p], !d) == q
    && var b := Slot(m[q], d);
      (b != null ==> b in m) && b != owner && b != p && b != q
  }

  // The memory after rotating p and its child q.
  ghost function Turn(m: Memory, owner: Links, onLeft: bool, d: bool, p: Links, q: Links): Memory
    requires CanTurn(m, owner, onLeft, d, p, q)
  {
    var b := Slot(m[q], d);
    var m1 := m[owner := SetSlot(m[owner], onLeft, q)]
               [q := SetSlot(m[q], d, p).(parent := m[p].parent)]
               [p := SetSlot(m[p], !d, b).(parent := q)];
    if b == null then m1 else m1[b := m[b].(parent := p)]
  }

  // The subtree t hangs in one field of its owner.
  ghost predicate Held(m: Memory, owner: Links, onLeft: bool, t: Shape) {
    && owner in m && owner !in Nodes(t)
    && Proper(t) && Joined(m, t) && Hangs(m, t, owner) && Slot(m[owner], onLeft) == Pointer(t)
  }

  // The links x and the subtrees l and s form a subtree of their own.
  ghost predicate Fits(t: Shape, x: Links, s: Shape) {
    x !in Nodes(t) && x !in Nodes(s) && Nodes(t) !! Nodes(s) && Proper(t) && Proper(s)
  }

  ghost predicate Linked(m: Memory, t: Shape, x: Links, s: Shape, isLeft: bool) {
    && x in m && Slot(m[x], isLeft) == Pointer(t) && Slot(m[x], !isLeft) == Pointer(s)
    && Hangs(m, t, x) && Hangs(m, s, x) && Joined(m, t) && Joined(m, s)
  }

  lemma Joints(m: Memory, t: Shape, x: Links, s: Shape, isLeft: bool)
    ensures Proper(Joint(t, x, s, isLeft)) <==> Fits(t, x, s)
    ensures Joined(m, Joint(t, x, s, isLeft)) <==> Linked(m, t, x, s, isLeft)
    ensures Nodes(Joint(t, x, s, isLeft)) == Nodes(t) + {x} + Nodes(s)
  {
  }

  ghost predicate ThreeFit(owner: Links, a: Shape, p: Links, b: Shape, q: Links, c: Shape) {
    && {owner, p, q} !! Nodes(a) + Nodes(b) + Nodes(c)
    && Nodes(a) !! Nodes(b) !! Nodes(c)
    && Proper(a) && Proper(b) && Proper(c)
  }

  // Only four records are written, and of b only its parent.
  lemma TurnSame(m: Memory, owner: Links, onLeft: bool, d: bool, p: Links, q: Links, s: set<Links>)
    requires CanTurn(m, owner, onLeft, d, p, q) && {owner, p, q} !! s && Opt(Slot(m[q], d)) !! s
    ensures SameLinks(m, Turn(m, owner, onLeft, d, p, q), s)
  {
  }

  lemma TurnKeeps(m: Memory, owner: Links, onLeft: bool, d: bool, a: Shape, p: Links, b: Shape, q: Links, c: Shape)
    requires CanTurn(m, owner, onLeft, d, p, q) && Slot(m[q], d) == Pointer(b)
    requires ThreeFit(owner, a, p, b, q, c) && Joined(m, a) && Joined(m, b) && Joined(m, c)
    ensures var m' := Turn(m, owner, onLeft, d, p, q); Joined(m', a) && Joined(m', b) && Joined(m', c)
  {
    var m' := Turn(m, owner, onLeft, d, p, q);
    TurnSame(m, owner, onLeft, d, p, q, Nodes(a));
    TurnSame(m, owner, onLeft, d, p, q, Nodes(c));
    TurnSame(m, owner, onLeft, d, p, q, Nodes(b) - Root(b));
    JoinedKept(m, m', a);
    JoinedKept(m, m', b);
    JoinedKept(m, m', c);
  }

  lemma TurnReady(m: Memory, owner: Links, onLeft: bool, d: bool, a: Shape, p: Links, b: Shape, q: Links, c: Shape)
    requires Held(m, owner, onLeft, Joint(a, p, Joint(b, q, c, d), d))
    ensures CanTurn(m, owner, onLeft, d, p, q) && ThreeFit(owner, a, p, b, q, c)
    ensures Linked(m, a, p, Joint(b, q, c, d), d) && Linked(m, b, q, c, d) && m[p].parent == owner
  {
    Joints(m, b, q, c, d);
    Joints(m, a, p, Joint(b, q, c, d), d);
  }

  // The records of the turned memory.
  lemma TurnedLinks(m: Memory, owner: Links, onLeft: bool, d: bool, a: Shape, p: Links, b: Shape, q: Links, c: Shape)
    requires CanTurn(m, owner, onLeft, d, p, q) && ThreeFit(owner, a, p, b, q, c)
    requires Linked(m, a, p, Joint(b, q, c, d), d) && Linked(m, b, q, c, d) && m[p].parent == owner
    ensures
      var m' := Turn(m, owner, onLeft, d, p, q);
      && Linked(m', a, p, b, d)
      && Slot(m'[q], d) == p && Slot(m'[q], !d) == Pointer(c) && Hangs(m', c, q) && Joined(m', c)
      && m'[p].parent == q && m'[q].parent == owner && Slot(m'[owner], onLeft) == q
  {
    hide Joined;
    TurnKeeps(m, owner, onLeft, d, a, p, b, q, c);
  }

  lemma Turned(m: Memory, owner: Links, onLeft: bool, d: bool, a: Shape, p: Links, b: Shape, q: Links, c: Shape)
    requires Held(m, owner, onLeft, Joint(a, p, Joint(b, q, c, d), d))
    ensures CanTurn(m, owner, onLeft, d, p, q)
    ensures Held(Turn(m, owner, onLeft, d, p, q), owner, onLeft, Joint(Joint(a, p, b, d), q, c, d))
  {
    TurnReady(m, owner, onLeft, d, a, p, b, q, c);
    TurnedLinks(m, owner, onLeft, d, a, p, b, q, c);
    TurnedHeld(Turn(m, owner, onLeft, d, p, q), owner, onLeft, d, a, p, b, q, c);
  }

  lemma TurnedHeld(m': Memory, owner: Links, onLeft: bool, d: bool, a: Shape, p: Links, b: Shape, q: Links, c: Shape)
    requires ThreeFit(owner, a, p, b, q, c) && owner != p && owner != q && p != q
    requires owner in m' && p in m' && q in m' && Linked(m', a, p, b, d)
    requires Slot(m'[q], d) == p && Slot(m'[q], !d) == Pointer(c) && Hangs(m', c, q) && Joined(m', c)
    requires m'[p].parent == q && m'[q].parent == owner && Slot(m'[owner], onLeft) == q
    ensures Held(m', owner, onLeft, Joint(Joint(a, p, b, d), q, c, d))
  {
    Joints(m', a, p, b, d);
    Joints(m', Joint(a, p, b, d), q, c, d);
  }

  // A turn is known by the records that it writes.
  lemma TurnIs(m: Memory, m': Memory, owner: Links, onLeft: bool, d: bool, p: Links, q: Links)
    requires CanTurn(m, owner, onLeft, d, p, q) && m'.Keys == m.Keys
    requires m'[owner] == SetSlot(m[owner], onLeft, q)
    requires m'[q] == SetSlot(m[q], d, p).(parent := m[p].parent)
    requires m'[p] == SetSlot(m[p], !d, Slot(m[q], d)).(parent := q)
    requires forall x :: x in m && x != owner && x != p && x != q ==>
      m'[x] == if x == Slot(m[q], d) then m[x].(parent := p) else m[x]
    ensures m' == Turn(m, owner, onLeft, d, p, q)
  {
  }

  method RotateLeft(owner: Links, onLeft: bool, ghost all: set<Links>, ghost p: Links, ghost q: Links)
    requires owner in all && CanTurn(Snap(all), owner, onLeft, true, p, q)
    modifies owner`left, owner`right, p`parent, p`right, q`parent, q`left, Opt(q.left)`parent
    ensures Snap(all) == Turn(old(Snap(all)), owner, onLeft, true, p, q)
  {
    var P := if onLeft then owner.left else owner.right;
    var Q := P.right;
    if onLeft { owner.left := Q; } else { owner.right := Q; }
    Q.parent := P.parent;
    P.right := Q.left;
    if P.right != null {
      P.right.parent := P;
    }
    Q.left := P;
    P.parent := Q;
    TurnIs(old(Snap(all)), Snap(all), owner, onLeft, true, p, q);
  }

  method RotateRight(owner: Links, onLeft: bool, ghost all: set<Links>, ghost p: Links, ghost q: Links)
    requires owner in all && CanTurn(Snap(all), owner, onLeft, false, p, q)
    modifies owner`left, owner`right, p`parent, p`left, q`parent, q`right, Opt(q.right)`parent
    ensures Snap(all) == Turn(old(Snap(all)), owner, onLeft, false, p, q)
  {
    var Q := if onLeft then owner.left else owner.right;
    var P := Q.left;
    if onLeft { owner.left := P; } else { owner.right := P; }
    P.parent := Q.parent;
    Q.left := P.right;
    if Q.left != null {
      Q.left.parent := Q;
    }
    P.right := Q;
    Q.parent := P;
    TurnIs(old(Snap(all)), Snap(all), owner, onLeft, false, p, q);
  }

  // owner, p, q and r are distinct links of m, each hanging in a field of the one before.
  ghost predicate CanTwice(m: Memory, owner: Links, onLeft: bool, d: bool, p: Links, q: Links, r: Links) {
    && owner in m && p in m && q in m && r in m
    && owner != p && owner != q && owner != r && p != q && p != r && q != r
    && Slot(m[owner], onLeft) == p && Slot(m[p], !d) == q && Slot(m[q], d) == r
    && var b, c := Slot(m[r], d), Slot(m[r], !d);
      && (b != null ==> b in m && b != c) && (c != null ==> c in m)
      && b != owner && b != p && b != q && b != r && c != owner && c != p && c != q && c != r
  }

  // Record by record, what a double rotation writes.
  ghost predicate Twice(m: Memory, m': Memory, owner: Links, onLeft: bool, d: bool, p: Links, q: Links, r: Links)
    requires CanTwice(m, owner, onLeft, d, p, q, r)
  {
    var b := Slot(m[r], d);
    var c := Slot(m[r], !d);
    && m'.Keys == m.Keys
    && m'[owner] == SetSlot(m[owner], onLeft, r)
    && m'[r] == SetSlot(SetSlot(m[r].(parent := m[p].parent), d, p), !d, q)
    && m'[p] == SetSlot(m[p], !d, b).(parent := r)
    && m'[q] == SetSlot(m[q], d, c).(parent := r)
    && (b != null ==> m'[b] == m[b].(parent := p))
    && (c != null ==> m'[c] == m[c].(parent := q))
    && (forall n :: n in m && n != owner && n != p && n != q && n != r && n != b && n != c ==> m'[n] == m[n])
  }

  method RotateLeftTwice(owner: Links, onLeft: bool, ghost all: set<Links>, ghost p: Links, ghost q: Links, ghost r: Links)
    requires owner in all && CanTwice(Snap(all), owner, onLeft, true, p, q, r)
    modifies owner`left, owner`right, p`parent, p`right, q`parent, q`left, r, Opt(r.left)`parent, Opt(r.right)`parent
    ensures Twice(old(Snap(all)), Snap(all), owner, onLeft, true, p, q, r)
  {
    var P := if onLeft then owner.left else owner.right;
    var Q := P.right;
    var R := Q.left;
    if onLeft { owner.left := R; } else { owner.right := R; }
    R.parent := P.parent;
    Q.left := R.right;
    if Q.left != null {
      Q.left.parent := Q;
    }
    R.right := Q;
    Q.parent := R;
    P.right := R.left;
    if P.right != null {
      P.right.parent := P;
    }
    R.left := P;
    P.parent := R;
  }

  method RotateRightTwice(owner: Links, onLeft: bool, ghost all: set<Links>, ghost p: Links, ghost q: Links, ghost r: Links)
    requires owner in all && CanTwice(Snap(all), owner, onLeft, false, p, q, r)
    modifies owner`left, owner`right, p`parent, p`left, q`parent, q`right, r, Opt(r.left)`parent, Opt(r.right)`parent
    ensures Twice(old(Snap(all)), Snap(all), owner, onLeft, false, p, q, r)
  {
    var P := if onLeft then owner.left else owner.right;
    var Q := P.left;
    var R := Q.right;
    if onLeft { owner.left := R; } else { owner.right := R; }
    R.parent := P.parent;
    Q.right := R.left;
    if Q.right != null {
      Q.right.parent := Q;
    }
    R.left := Q;
    Q.parent := R;
    P.left := R.right;
    if P.left != null {
      P.left.parent := P;
    }
    R.right := P;
    P.parent := R;
  }

  // A double rotation is two turns: first of q and its child r, then of p and r.
  ghost predicate CanTurnTwice(m: Memory, owner: Links, onLeft: bool, d: bool, p: Links, q: Links, r: Links) {
    && p in m && CanTurn(m, p, !d, !d, q, r)
    && CanTurn(Turn(m, p, !d, !d, q, r), owner, onLeft, d, p, r)
  }

  ghost function TurnTwice(m: Memory, owner: Links, onLeft: bool, d: bool, p: Links, q: Links, r: Links): Memory
    requires CanTurnTwice(m, owner, onLeft, d, p, q, r)
  {
    Turn(Turn(m, p, !d, !d, q, r), owner, onLeft, d, p, r)
  }

  lemma TwiceTurned(m: Memory, owner: Links, onLeft: bool, d: bool, p: Links, q: Links, r: Links)
    requires CanTwice(m, owner, onLeft, d, p, q, r)
    ensures CanTurnTwice(m, owner, onLeft, d, p, q, r)
    ensures Twice(m, TurnTwice(m, owner, onLeft, d, p, q, r), owner, onLeft, d, p, q, r)
  {
    assert CanTurn(m, p, !d, !d, q, r);
  }

  lemma TwiceIsTwoTurns(m: Memory, m': Memory, owner: Links, onLeft: bool, d: bool, p: Links, q: Links, r: Links)
    requires CanTwice(m, owner, onLeft, d, p, q, r) && Twice(m, m', owner, onLeft, d, p, q, r)
    ensures CanTurnTwice(m, owner, onLeft, d, p, q, r) && m' == TurnTwice(m, owner, onLeft, d, p, q, r)
  {
    TwiceTurned(m, owner, onLeft, d, p, q, r);
    TwiceUnique(m, m', TurnTwice(m, owner, onLeft, d, p, q, r), owner, onLeft, d, p, q, r);
  }

  lemma TwiceUnique(m: Memory, m1: Memory, m2: Memory, owner: Links, onLeft: bool, d: bool, p: Links, q: Links, r: Links)
    requires CanTwice(m, owner, onLeft, d, p, q, r)
    requires Twice(m, m1, owner, onLeft, d, p, q, r) && Twice(m, m2, owner, onLeft, d, p, q, r)
    ensures m1 == m2
  {
    forall n | n in m ensures m1[n] == m2[n] {
    }
  }

  // Turning inside the child subtree of p leaves the rest of what p holds in place.
  lemma InnerTurned(m: Memory, owner: Links, onLeft: bool, d: bool, a: Shape, p: Links, t: Shape, q: Links, r: Links, t': Shape)
    requires Held(m, owner, onLeft, Joint(a, p, t, d)) && CanTurn(m, p, !d, !d, q, r) && {q, r} + Opt(Slot(m[r], !d)) <= Nodes(t)
    requires Held(Turn(m, p, !d, !d, q, r), p, !d, t') && Nodes(t') == Nodes(t)
    ensures Held(Turn(m, p, !d, !d, q, r), owner, onLeft, Joint(a, p, t', d))
  {
    var m' := Turn(m, p, !d, !d, q, r);
    Joints(m, a, p, t, d);
    Joints(m', a, p, t', d);
    assert SameLinks(m, m', Nodes(a));
    JoinedKept(m, m', a);
  }

  lemma CanBeTwice(m: Memory, owner: Links, onLeft: bool, d: bool,
      a: Shape, p: Links, b: Shape, r: Links, c: Shape, q: Links, e: Shape)
    requires Held(m, owner, onLeft, Joint(a, p, Joint(Joint(b, r, c, d), q, e, d), d))
    ensures CanTwice(m, owner, onLeft, d, p, q, r)
  {
    Joints(m, b, r, c, d);
    Joints(m, Joint(b, r, c, d), q, e, d);
    Joints(m, a, p, Joint(Joint(b, r, c, d), q, e, d), d);
    assert Root(b) <= Nodes(b) && Root(c) <= Nodes(c);
  }

  lemma TurnedTwice(m: Memory, m': Memory, owner: Links, onLeft: bool, d: bool,
      a: Shape, p: Links, b: Shape, r: Links, c: Shape, q: Links, e: Shape)
    requires Held(m, owner, onLeft, Joint(a, p, Joint(Joint(b, r, c, d), q, e, d), d))
    requires CanTwice(m, owner, onLeft, d, p, q, r) && Twice(m, m', owner, onLeft, d, p, q, r)
    ensures Held(m', owner, onLeft, Joint(Joint(a, p, b, d), r, Joint(c, q, e, d), d))
  {
    hide CanTurn, Turn, Twice, CanTwice, Hangs;
    TwiceIsTwoTurns(m, m', owner, onLeft, d, p, q, r);
    var t := Joint(e, q, Joint(c, r, b, !d), !d);
    Joints(m, a, p, t, d);
    Turned(m, p, !d, !d, e, q, c, r, b);
    InnerTurned(m, owner, onLeft, d, a, p, t, q, r, Joint(b, r, Joint(c, q, e, d), d));
    Turned(Turn(m, p, !d, !d, q, r), owner, onLeft, d, a, p, b, r, Joint(c, q, e, d));
  }
}
