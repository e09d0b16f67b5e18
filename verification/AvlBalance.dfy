// Rebalancing one subtree whose two sides differ in height by two.
module AvlBalance {
  import opened AvlShape
  import opened AvlRotate

  ghost function Sign(d: bool): int { if d then 1 else -1 }

  // The stored balance of p still says -1 or 1 although its heavy side is two higher.
  ghost predicate Leaning(m: Memory, t: Shape) {
    && t.Node? && t.links in m && Weighed(m, t.left) && Weighed(m, t.right)
    && ((m[t.links].balance == -1 && Height(t.left) == Height(t.right) + 2)
        || (m[t.links].balance == 1 && Height(t.right) == Height(t.left) + 2))
  }

  ghost predicate Same(m: Memory, m': Memory, s: set<Links>) {
    forall n :: n in s && n in m ==> n in m' && m'[n] == m[n]
  }

  lemma {:induction false} HeldKept(m: Memory, m': Memory, owner: Links, onLeft: bool, t: Shape)
    requires Held(m, owner, onLeft, t) && SameLinks(m, m', Nodes(t) + {owner})
    ensures Held(m', owner, onLeft, t)
  {
    JoinedKept(m, m', t);
  }

  ghost predicate WeighedThree(m: Memory, m': Memory, a: Shape, b: Shape, c: Shape) {
    && Weighed(m, a) && Weighed(m, b) && Weighed(m, c)
    && SameBalance(m, m', Nodes(a)) && SameBalance(m, m', Nodes(b)) && SameBalance(m, m', Nodes(c))
  }

  lemma WeighedJoints(m: Memory, t: Shape, x: Links, s: Shape, isLeft: bool)
    ensures Height(Joint(t, x, s, isLeft)) == 1 + Max(Height(t), Height(s))
    ensures Weighed(m, Joint(t, x, s, isLeft)) <==>
      x in m && m[x].balance == Sign(isLeft) * (Height(s) - Height(t)) && -1 <= m[x].balance <= 1 && Weighed(m, t) && Weighed(m, s)
  {
  }

  lemma LeaningJoint(m: Memory, t: Shape, x: Links, s: Shape, isLeft: bool)
    requires Weighed(m, t) && Weighed(m, s) && Height(t) == Height(s) + 2
    requires x in m && m[x].balance == -Sign(isLeft)
    ensures Leaning(m, Joint(t, x, s, isLeft)) && Height(Joint(t, x, s, isLeft)) == Height(t) + 1
    ensures Near(Joint(t, x, s, isLeft), isLeft) == t
  {
  }

  // One rotation: the outer grandchild is the higher one (code 1), or both are equal (code 3).
  lemma WeighedOnce(m: Memory, m': Memory, d: bool, a: Shape, p: Links, b: Shape, q: Links, c: Shape)
    requires WeighedThree(m, m', a, b, c) && p in m' && q in m'
    requires Height(c) == Height(a) + 1 && Height(a) <= Height(b) <= Height(c)
    requires m'[p].balance == Sign(d) * (Height(b) - Height(a)) && m'[q].balance == -m'[p].balance
    ensures Weighed(m', Joint(Joint(a, p, b, d), q, c, d))
    ensures Height(Joint(Joint(a, p, b, d), q, c, d)) == Height(b) + 2
  {
    WeighedKept(m, m', a);
    WeighedKept(m, m', b);
    WeighedKept(m, m', c);
    WeighedJoints(m', a, p, b, d);
    WeighedJoints(m', Joint(a, p, b, d), q, c, d);
  }

  // Two rotations: the inner grandchild r is the higher one (code 2).
  lemma WeighedTwice(m: Memory, m': Memory, d: bool, a: Shape, p: Links, b: Shape, r: Links, c: Shape, q: Links, e: Shape)
    requires WeighedThree(m, m', a, b, c) && Weighed(m, e) && SameBalance(m, m', Nodes(e))
    requires p in m' && q in m' && r in m'
    requires Height(e) == Height(a) == Max(Height(b), Height(c)) && -1 <= Height(b) - Height(c) <= 1
    requires m'[p].balance == Sign(d) * (Height(b) - Height(a))
    requires m'[q].balance == Sign(d) * (Height(e) - Height(c))
    requires m'[r].balance == 0
    ensures Weighed(m', Joint(Joint(a, p, b, d), r, Joint(c, q, e, d), d))
    ensures Height(Joint(Joint(a, p, b, d), r, Joint(c, q, e, d), d)) == Height(a) + 2
  {
    hide Height, SameBalance;
    WeighedKept(m, m', a);
    WeighedKept(m, m', b);
    WeighedKept(m, m', c);
    WeighedKept(m, m', e);
    WeighedJoints(m', a, p, b, d);
    WeighedJoints(m', c, q, e, d);
    WeighedJoints(m', Joint(a, p, b, d), r, Joint(c, q, e, d), d);
  }

  // What a call of Rebalance leaves behind.
  ghost predicate Rebalanced(m: Memory, m': Memory, owner: Links, onLeft: bool, t: Shape, code: int, t': Shape) {
    && m'.Keys == m.Keys && owner in m
    && Held(m', owner, onLeft, t') && Weighed(m', t')
    && InOrder(t') == InOrder(t) && Nodes(t') == Nodes(t)
    && 1 <= code <= 3
    && Height(t') == (if code == 3 then Height(t) else Height(t) - 1)
    && Same(m, m', m.Keys - Nodes(t) - {owner})
    && m'[owner] == SetSlot(m[owner], onLeft, Pointer(t'))
    && (t.Node? ==> t.links in m' && m'[t.links].parent == Pointer(t'))
  }

  // The memory after one rotation and the balance stores that follow it.
  ghost predicate OnceStored(m: Memory, m': Memory, owner: Links, onLeft: bool, d: bool, p: Links, q: Links, code: int) {
    && CanTurn(m, owner, onLeft, d, p, q) && m[p].balance == Sign(d)
    && var m1 := Turn(m, owner, onLeft, d, p, q);
      if code == 1
      then m[q].balance == Sign(d) && m' == m1[p := m1[p].(balance := 0)][q := m1[q].(balance := 0)]
      else code == 3 && m[q].balance == 0 && m' == m1[q := m1[q].(balance := -Sign(d))]
  }

  lemma OnceValues(m: Memory, m': Memory, owner: Links, onLeft: bool, d: bool, p: Links, q: Links, code: int)
    requires OnceStored(m, m', owner, onLeft, d, p, q, code)
    ensures m'.Keys == m.Keys && SameLinks(Turn(m, owner, onLeft, d, p, q), m', m.Keys)
    ensures SameBalance(m, m', m.Keys - {p, q})
    ensures m'[p].balance == (if code == 1 then 0 else Sign(d)) && m'[q].balance == -m'[p].balance
    ensures m'[owner] == SetSlot(m[owner], onLeft, q)
    ensures Same(m, m', m.Keys - {owner, p, q} - Opt(Slot(m[q], d)))
  {
  }

  lemma OnceDone(m: Memory, m': Memory, owner: Links, onLeft: bool, d: bool, a: Shape, p: Links, b: Shape, q: Links, c: Shape, code: int)
    requires Held(m, owner, onLeft, Joint(a, p, Joint(b, q, c, d), d)) && Leaning(m, Joint(a, p, Joint(b, q, c, d), d))
    requires OnceStored(m, m', owner, onLeft, d, p, q, code)
    ensures Rebalanced(m, m', owner, onLeft, Joint(a, p, Joint(b, q, c, d), d), code, Joint(Joint(a, p, b, d), q, c, d))
  {
    var t, t' := Joint(a, p, Joint(b, q, c, d), d), Joint(Joint(a, p, b, d), q, c, d);
    Turned(m, owner, onLeft, d, a, p, b, q, c);
    OnceValues(m, m', owner, onLeft, d, p, q, code);
    HeldKept(Turn(m, owner, onLeft, d, p, q), m', owner, onLeft, t');
    OnceWeighed(m, m', d, a, p, b, q, c, code);
    OnceInOrder(d, a, p, b, q, c);
    Joints(m, b, q, c, d);
    assert Root(b) <= Nodes(b);
  }

  lemma OnceWeighed(m: Memory, m': Memory, d: bool, a: Shape, p: Links, b: Shape, q: Links, c: Shape, code: int)
    requires Proper(Joint(a, p, Joint(b, q, c, d), d)) && Leaning(m, Joint(a, p, Joint(b, q, c, d), d))
    requires m[p].balance == Sign(d) && q in m && m[q].balance == (if code == 1 then Sign(d) else 0)
    requires p in m' && q in m' && SameBalance(m, m', m.Keys - {p, q})
    requires m'[p].balance == (if code == 1 then 0 else Sign(d)) && m'[q].balance == -m'[p].balance
    ensures Weighed(m', Joint(Joint(a, p, b, d), q, c, d))
    ensures Height(Joint(Joint(a, p, b, d), q, c, d)) == Height(Joint(a, p, Joint(b, q, c, d), d)) - (if code == 1 then 1 else 0)
  {
    Joints(m, b, q, c, d);
    Joints(m, a, p, Joint(b, q, c, d), d);
    WeighedJoints(m, b, q, c, d);
    WeighedJoints(m, a, p, Joint(b, q, c, d), d);
    assert SameBalance(m, m', Nodes(a)) && SameBalance(m, m', Nodes(b)) && SameBalance(m, m', Nodes(c));
    WeighedOnce(m, m', d, a, p, b, q, c);
  }

  lemma OnceInOrder(d: bool, a: Shape, p: Links, b: Shape, q: Links, c: Shape)
    ensures InOrder(Joint(Joint(a, p, b, d), q, c, d)) == InOrder(Joint(a, p, Joint(b, q, c, d), d))
    ensures Nodes(Joint(Joint(a, p, b, d), q, c, d)) == Nodes(Joint(a, p, Joint(b, q, c, d), d))
  {
  }

  // The balance stores that follow a double rotation.
  ghost function Settled(m1: Memory, d: bool, p: Links, q: Links, r: Links): Memory
    requires p in m1 && q in m1 && r in m1
  {
    var tilt := m1[r].balance;
    m1[p := m1[p].(balance := if tilt == Sign(d) then -tilt else 0)]
      [q := m1[q].(balance := if tilt == -Sign(d) then -tilt else 0)]
      [r := m1[r].(balance := 0)]
  }

  lemma TwiceValues(m: Memory, m1: Memory, m': Memory, owner: Links, onLeft: bool, d: bool, p: Links, q: Links, r: Links)
    requires CanTwice(m, owner, onLeft, d, p, q, r)
    requires Twice(m, m1, owner, onLeft, d, p, q, r) && m' == Settled(m1, d, p, q, r)
    ensures m'.Keys == m.Keys && SameLinks(m1, m', m.Keys)
    ensures SameBalance(m, m', m.Keys - {p, q, r})
    ensures m'[p].balance == (if m[r].balance == Sign(d) then -m[r].balance else 0)
    ensures m'[q].balance == (if m[r].balance == -Sign(d) then -m[r].balance else 0)
    ensures m'[r].balance == 0
    ensures m'[owner] == SetSlot(m[owner], onLeft, r)
    ensures Same(m, m', m.Keys - {owner, p, q, r} - Opt(Slot(m[r], d)) - Opt(Slot(m[r], !d)))
  {
    hide Held;
  }

  lemma TwiceDone(m: Memory, m1: Memory, m': Memory, owner: Links, onLeft: bool, d: bool,
      a: Shape, p: Links, b: Shape, r: Links, c: Shape, q: Links, e: Shape)
    requires var t := Joint(a, p, Joint(Joint(b, r, c, d), q, e, d), d); Held(m, owner, onLeft, t) && Leaning(m, t)
    requires CanTwice(m, owner, onLeft, d, p, q, r) && m[p].balance == Sign(d) && m[q].balance == -Sign(d)
    requires Twice(m, m1, owner, onLeft, d, p, q, r) && m' == Settled(m1, d, p, q, r)
    ensures Rebalanced(m, m', owner, onLeft, Joint(a, p, Joint(Joint(b, r, c, d), q, e, d), d), 2,
                       Joint(Joint(a, p, b, d), r, Joint(c, q, e, d), d))
  {
    var t' := Joint(Joint(a, p, b, d), r, Joint(c, q, e, d), d);
    TurnedTwice(m, m1, owner, onLeft, d, a, p, b, r, c, q, e);
    TwiceValues(m, m1, m', owner, onLeft, d, p, q, r);
    HeldKept(m1, m', owner, onLeft, t');
    TwiceWeighed(m, m', d, a, p, b, r, c, q, e);
    TwiceInOrder(d, a, p, b, r, c, q, e);
    Joints(m, b, r, c, d);
    Joints(m, Joint(b, r, c, d), q, e, d);
    assert Root(b) <= Nodes(b) && Root(c) <= Nodes(c);
  }

  lemma TwiceWeighed(m: Memory, m': Memory, d: bool, a: Shape, p: Links, b: Shape, r: Links, c: Shape, q: Links, e: Shape)
    requires var t := Joint(a, p, Joint(Joint(b, r, c, d), q, e, d), d); Proper(t) && Leaning(m, t)
    requires q in m && r in m && m[p].balance == Sign(d) && m[q].balance == -Sign(d)
    requires p in m' && q in m' && r in m' && SameBalance(m, m', m.Keys - {p, q, r})
    requires m'[p].balance == (if m[r].balance == Sign(d) then -m[r].balance else 0)
    requires m'[q].balance == (if m[r].balance == -Sign(d) then -m[r].balance else 0)
    requires m'[r].balance == 0
    ensures Weighed(m', Joint(Joint(a, p, b, d), r, Joint(c, q, e, d), d))
    ensures Height(Joint(Joint(a, p, b, d), r, Joint(c, q, e, d), d)) == Height(Joint(a, p, Joint(Joint(b, r, c, d), q, e, d), d)) - 1
  {
    hide Weighed, Leaning, Height, Proper, Nodes, SameBalance, Joint;
    TwicePartsKept(m, m', d, a, p, b, r, c, q, e);
    TwiceHeights(m, d, a, p, b, r, c, q, e);
    WeighedTwice(m, m', d, a, p, b, r, c, q, e);
  }

  // The four subtrees that only move hold none of the three records that change.
  lemma TwicePartsKept(m: Memory, m': Memory, d: bool, a: Shape, p: Links, b: Shape, r: Links, c: Shape, q: Links, e: Shape)
    requires Proper(Joint(a, p, Joint(Joint(b, r, c, d), q, e, d), d)) && SameBalance(m, m', m.Keys - {p, q, r})
    ensures SameBalance(m, m', Nodes(a)) && SameBalance(m, m', Nodes(b)) && SameBalance(m, m', Nodes(c)) && SameBalance(m, m', Nodes(e))
  {
    hide Proper, Nodes, Joined, Joint, SameBalance;
    var h, k := Joint(Joint(b, r, c, d), q, e, d), Joint(b, r, c, d);
    JointFits(a, p, h, d);
    JointFits(k, q, e, d);
    JointFits(b, r, c, d);
    Elsewhere(m, m', Nodes(a), p, q, r);
    Elsewhere(m, m', Nodes(b), p, q, r);
    Elsewhere(m, m', Nodes(c), p, q, r);
    Elsewhere(m, m', Nodes(e), p, q, r);
  }

  lemma JointFits(t: Shape, x: Links, s: Shape, isLeft: bool)
    requires Proper(Joint(t, x, s, isLeft))
    ensures Proper(t) && Proper(s) && x !in Nodes(t) && x !in Nodes(s) && x in Nodes(Joint(t, x, s, isLeft))
    ensures Nodes(t) <= Nodes(Joint(t, x, s, isLeft)) && Nodes(s) <= Nodes(Joint(t, x, s, isLeft))
    ensures forall n :: n in Nodes(t) ==> n !in Nodes(s)
  {
  }

  lemma Elsewhere(m: Memory, m': Memory, s: set<Links>, p: Links, q: Links, r: Links)
    requires SameBalance(m, m', m.Keys - {p, q, r}) && p !in s && q !in s && r !in s
    ensures SameBalance(m, m', s)
  {
  }

  lemma TwiceHeights(m: Memory, d: bool, a: Shape, p: Links, b: Shape, r: Links, c: Shape, q: Links, e: Shape)
    requires Leaning(m, Joint(a, p, Joint(Joint(b, r, c, d), q, e, d), d))
    requires q in m && r in m && m[p].balance == Sign(d) && m[q].balance == -Sign(d)
    ensures Weighed(m, a) && Weighed(m, b) && Weighed(m, c) && Weighed(m, e)
    ensures Height(a) == Height(e) == Max(Height(b), Height(c)) && m[r].balance == Sign(d) * (Height(c) - Height(b)) && -1 <= m[r].balance <= 1
    ensures Height(Joint(a, p, Joint(Joint(b, r, c, d), q, e, d), d)) == Height(a) + 3
  {
    WeighedJoints(m, b, r, c, d);
    WeighedJoints(m, Joint(b, r, c, d), q, e, d);
    WeighedJoints(m, a, p, Joint(Joint(b, r, c, d), q, e, d), d);
  }

  lemma TwiceInOrder(d: bool, a: Shape, p: Links, b: Shape, r: Links, c: Shape, q: Links, e: Shape)
    ensures var t, t' := Joint(a, p, Joint(Joint(b, r, c, d), q, e, d), d), Joint(Joint(a, p, b, d), r, Joint(c, q, e, d), d);
      InOrder(t') == InOrder(t) && Nodes(t') == Nodes(t)
  {
    OnceInOrder(!d, e, q, c, r, b);
    OnceInOrder(d, a, p, b, r, Joint(c, q, e, d));
  }

  ghost function Near(t: Shape, d: bool): Shape
    requires t.Node?
  {
    if d then t.left else t.right
  }

  // The heavy child of a leaning subtree exists, and leans by its own balance.
  lemma HeavyChild(m: Memory, owner: Links, onLeft: bool, t: Shape, d: bool)
    requires Held(m, owner, onLeft, t) && Leaning(m, t) && m[t.links].balance == Sign(d)
    ensures var h := Near(t, !d);
      && h.Node? && h.links in m && t == Joint(Near(t, d), t.links, Joint(Near(h, d), h.links, Near(h, !d), d), d)
      && Slot(m[t.links], !d) == h.links && h.links in Nodes(t)
      && -1 <= m[h.links].balance <= 1
      && (m[h.links].balance == -Sign(d) ==>
          var g := Near(h, d);
          && g.Node? && g.links in m && Slot(m[h.links], d) == g.links && g.links in Nodes(t)
          && h == Joint(Joint(Near(g, d), g.links, Near(g, !d), d), h.links, Near(h, !d), d))
  {
    var h := Near(t, !d);
    assert Joined(m, h) && Weighed(m, h);
    Joints(m, Near(t, d), t.links, h, d);
    if m[h.links].balance == -Sign(d) {
      assert Joined(m, Near(h, d)) && Weighed(m, Near(h, d));
      Joints(m, Near(h, d), h.links, Near(h, !d), d);
    }
  }

  lemma OnceReady(m: Memory, owner: Links, onLeft: bool, t: Shape, d: bool)
    requires Held(m, owner, onLeft, t) && Leaning(m, t) && m[t.links].balance == Sign(d)
    ensures var h := Near(t, !d);
      h.Node? && CanTurn(m, owner, onLeft, d, t.links, h.links) && {h.links} + Opt(Slot(m[h.links], d)) <= Nodes(t)
  {
    HeavyChild(m, owner, onLeft, t, d);
    var h := Near(t, !d);
    Turned(m, owner, onLeft, d, Near(t, d), t.links, Near(h, d), h.links, Near(h, !d));
    Joints(m, Near(h, d), h.links, Near(h, !d), d);
    Joints(m, Near(t, d), t.links, h, d);
    assert Root(Near(h, d)) <= Nodes(Near(h, d));
  }

  lemma TwiceReady(m: Memory, owner: Links, onLeft: bool, t: Shape, d: bool)
    requires Held(m, owner, onLeft, t) && Leaning(m, t) && m[t.links].balance == Sign(d)
    requires var h := Near(t, !d); h.Node? && h.links in m && m[h.links].balance == -Sign(d)
    ensures var h := Near(t, !d); var g := Near(h, d);
      && g.Node? && CanTwice(m, owner, onLeft, d, t.links, h.links, g.links) && -1 <= m[g.links].balance <= 1
      && {h.links, g.links} + Opt(m[g.links].left) + Opt(m[g.links].right) <= Nodes(t)
  {
    HeavyChild(m, owner, onLeft, t, d);
    var h := Near(t, !d);
    var g := Near(h, d);
    CanBeTwice(m, owner, onLeft, d, Near(t, d), t.links, Near(g, d), g.links, Near(g, !d), h.links, Near(h, !d));
    assert Weighed(m, h) && Weighed(m, g) && Joined(m, h) && Joined(m, g);
    Joints(m, Near(h, d), h.links, Near(h, !d), d);
    Joints(m, Near(t, d), t.links, h, d);
    assert Root(g.left) <= Nodes(g) && Root(g.right) <= Nodes(g);
  }

  method SetBalance(x: Links, value: int, ghost all: set<Links>)
    requires x in all
    modifies x`balance
    ensures Snap(all) == old(Snap(all))[x := old(Snap(all)[x]).(balance := value)]
  {
    x.balance := value;
  }

  // Left-left, right-right, and the case that only removal meets.
  method SettleOnce(owner: Links, onLeft: bool, P: Links, Q: Links, ghost all: set<Links>) returns (code: int)
    requires owner in all && CanTurn(Snap(all), owner, onLeft, P.balance == 1, P, Q)
    requires P.balance in {-1, 1} && Q.balance in {0, P.balance}
    modifies owner`left, owner`right, P, Q, Opt(if P.balance == 1 then Q.left else Q.right)`parent
    ensures OnceStored(old(Snap(all)), Snap(all), owner, onLeft, old(P.balance) == 1, P, Q, code)
  {
    ghost var m := Snap(all);
    if P.balance == -1 {
      RotateRight(owner, onLeft, all, P, Q);
    } else {
      RotateLeft(owner, onLeft, all, P, Q);
    }
    assert P.balance == m[P].balance && Q.balance == m[Q].balance;
    if Q.balance == P.balance {
      SetBalance(P, 0, all);
      SetBalance(Q, 0, all);
      code := 1;
    } else {
      SetBalance(Q, -P.balance, all);
      code := 3;
    }
  }

  // Left-right
  method SettleLeftRight(owner: Links, onLeft: bool, P: Links, Q: Links, R: Links, ghost all: set<Links>)
      returns (ghost m1: Memory)
    requires owner in all && CanTwice(Snap(all), owner, onLeft, false, P, Q, R) && -1 <= R.balance <= 1
    modifies owner`left, owner`right, P, Q, R, Opt(R.left)`parent, Opt(R.right)`parent
    ensures Twice(old(Snap(all)), m1, owner, onLeft, false, P, Q, R)
    ensures Snap(all) == Settled(m1, false, P, Q, R)
  {
    RotateRightTwice(owner, onLeft, all, P, Q, R);
    m1 := Snap(all);
    assert R.balance == m1[R].balance == old(R.balance);
    if R.balance == -1 {
      SetBalance(P, 1, all);
      SetBalance(Q, 0, all);
    } else if R.balance == 1 {
      SetBalance(P, 0, all);
      SetBalance(Q, -1, all);
    } else {
      SetBalance(P, 0, all);
      SetBalance(Q, 0, all);
    }
    SetBalance(R, 0, all);
  }

  // Right-left
  method SettleRightLeft(owner: Links, onLeft: bool, P: Links, Q: Links, R: Links, ghost all: set<Links>)
      returns (ghost m1: Memory)
    requires owner in all && CanTwice(Snap(all), owner, onLeft, true, P, Q, R) && -1 <= R.balance <= 1
    modifies owner`left, owner`right, P, Q, R, Opt(R.left)`parent, Opt(R.right)`parent
    ensures Twice(old(Snap(all)), m1, owner, onLeft, true, P, Q, R)
    ensures Snap(all) == Settled(m1, true, P, Q, R)
  {
    RotateLeftTwice(owner, onLeft, all, P, Q, R);
    m1 := Snap(all);
    assert R.balance == m1[R].balance == old(R.balance);
    if R.balance == -1 {
      SetBalance(P, 0, all);
      SetBalance(Q, 1, all);
    } else if R.balance == 1 {
      SetBalance(P, -1, all);
      SetBalance(Q, 0, all);
    } else {
      SetBalance(P, 0, all);
      SetBalance(Q, 0, all);
    }
    SetBalance(R, 0, all);
  }

  method Rebalance(owner: Links, onLeft: bool, ghost all: set<Links>, ghost t: Shape) returns (code: int, ghost t': Shape)
    requires Held(Snap(all), owner, onLeft, t) && Leaning(Snap(all), t) && Nodes(t) + {owner} <= all
    modifies owner`left, owner`right, Nodes(t)
    ensures Rebalanced(old(Snap(all)), Snap(all), owner, onLeft, t, code, t')
    ensures code == 3 <==> old(Snap(all)[Near(t, t.links.balance == -1).links].balance) == 0
    ensures code == 2 <==> old(Snap(all)[Near(t, t.links.balance == -1).links].balance) == -old(t.links.balance)
  {
    ghost var m := Snap(all);
    var P := if onLeft then owner.left else owner.right;
    ghost var d := P.balance == 1;
    HeavyChild(m, owner, onLeft, t, d);
    var Q := if P.balance == -1 then P.left else P.right;
    ghost var h := Near(t, !d);
    if Q.balance != -P.balance {
      OnceReady(m, owner, onLeft, t, d);
      code := SettleOnce(owner, onLeft, P, Q, all);
      t' := Joint(Joint(Near(t, d), P, Near(h, d), d), Q, Near(h, !d), d);
      OnceDone(m, Snap(all), owner, onLeft, d, Near(t, d), P, Near(h, d), Q, Near(h, !d), code);
    } else {
      TwiceReady(m, owner, onLeft, t, d);
      ghost var g := Near(h, d);
      ghost var m1: Memory;
      if P.balance == -1 {
        m1 := SettleLeftRight(owner, onLeft, P, Q, Q.right, all);
      } else {
        m1 := SettleRightLeft(owner, onLeft, P, Q, Q.left, all);
      }
      code := 2;
      t' := Joint(Joint(Near(t, d), P, Near(g, d), d), g.links, Joint(Near(g, !d), Q, Near(h, !d), d), d);
      TwiceDone(m, m1, Snap(all), owner, onLeft, d, Near(t, d), P, Near(g, d), g.links, Near(g, !d), Q, Near(h, !d));
    }
  }
}
