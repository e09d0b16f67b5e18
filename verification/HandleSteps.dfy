// The actions that change the free lists, one lemma each.
module HandleSteps {
  import opened HandleProtocol
  import opened HandleLedger
  import opened Chains
  import opened Listings
  import opened HandleSafety

  // No handle that a reader may rely on gets back to the main list.
  ghost predicate Steady(s: Table, l: Ledger, s': Table, l': Ledger) {
    && LockOwned(s) && LockOwned(s') && |s.next| == |l.place| && |s'.next| == |l'.place|
    && forall f: nat :: Barred(s, l, f) ==>
         Barred(s', l', f) && (l'.place[f] == Main ==> l.place[f] == Main && s'.next[f] == s.next[f])
  }

  lemma ReadersSteady(s: Table, l: Ledger, i: nat, t: Thread, s': Table, l': Ledger)
    requires Steady(s, l, s', l') && Readers(s, l) && i < |s.threads| && s'.threads == s.threads[i := t] && !Reads(t)
    ensures Readers(s', l')
  {
    forall j | 0 <= j < |s'.threads| ensures Reader(s', l', s'.threads[j]) {
      if j != i {
        assert Reader(s, l, s.threads[j]);
      }
    }
  }

  lemma NamesKept(s: Table, i: nat, t: Thread, s': Table)
    requires NamesExist(s) && i < |s.threads| && s'.threads == s.threads[i := t] && |s.next| <= |s'.next|
    requires Named(t) ==> t.f < |s'.next|
    ensures NamesExist(s')
  {
  }

  lemma LockKept(s: Table, i: nat, t: Thread, s': Table)
    requires LockOwned(s) && i < |s.threads| && s'.threads == s.threads[i := t] && s'.lock == s.lock && (Owns(t) <==> Owns(s.threads[i]))
    ensures LockOwned(s') && Owner(s') == (if i == s.lock then t else Owner(s))
  {
  }

  predicate SameFreeing(s: Table, l: Ledger, s': Table, l': Ledger) {
    && (forall v :: 0 <= v < |l.place| && l.place[v].Freeing? ==> v < |l'.place| && l'.place[v] == l.place[v] && Load(s', v) == Load(s, v))
    && (forall v :: 0 <= v < |l'.place| && l'.place[v].Freeing? ==> v < |l.place| && l.place[v] == l'.place[v])
  }

  lemma FreersKept(s: Table, l: Ledger, i: nat, t: Thread, s': Table, l': Ledger)
    requires Freers(s, l) && SameFreeing(s, l, s', l') && i < |s.threads| && s'.threads == s.threads[i := t]
    requires !Frees(t) && !Frees(s.threads[i])
    ensures Freers(s', l')
  {
  }

  // What a thread that is not freeing leaves for the others.
  lemma OthersKept(s: Table, l: Ledger, i: nat, t: Thread, s': Table, l': Ledger)
    requires LockOwned(s) && Freers(s, l) && Readers(s, l) && NamesExist(s)
    requires Steady(s, l, s', l') && SameFreeing(s, l, s', l') && i < |s.threads| && s'.threads == s.threads[i := t]
    requires !Frees(t) && !Frees(s.threads[i]) && !Reads(t) && |s.next| <= |s'.next| && (Named(t) ==> t.f < |s'.next|)
    ensures Freers(s', l') && Readers(s', l') && NamesExist(s')
  {
    FreersKept(s, l, i, t, s', l');
    ReadersSteady(s, l, i, t, s', l');
    NamesKept(s, i, t, s');
  }

  lemma BarredKept(s: Table, l: Ledger, i: nat, t: Thread, s': Table, l': Ledger, f: nat)
    requires LockOwned(s) && LockOwned(s') && Barred(s, l, f)
    requires i < |s.threads| && s'.threads == s.threads[i := t] && !ForMain(t) && f < |l'.place|
    requires l'.place[f] == l.place[f] || l'.place[f] in {Out, Alt, Freeing(i)}
          || (l'.place[f] == Hand && Owner(s').Passing? && Owner(s').k == 0)
    requires l.place[f] == Hand && l'.place[f] == Hand && Owner(s).Passing? ==> Owner(s') == Owner(s)
    ensures Barred(s', l', f)
  {
  }

  // ---------- taking a handle ----------

  function Popped(l: Ledger): Ledger
    requires l.main != [] && l.main[0] < |l.place|
  {
    l.(main := l.main[1..], place := l.place[l.main[0] := Out])
  }

  // The reader who saw the head before and still sees it has read its true successor.
  lemma TrueSuccessor(s: Table, l: Ledger, i: nat)
    requires Inv(s, l) && i < |s.threads| && s.threads[i].Ready? && s.free == s.threads[i].f
    ensures l.main != [] && l.main[0] == s.threads[i].f && l.place[l.main[0]] == Main && l.main[0] !in s.out
    ensures s.threads[i].n == At(l.main, 1, INVALID)
  {
    var t := s.threads[i];
    assert Named(t);
    HeadExists(s, l);
    assert Reader(s, l, t);
    LinkedPop(s.next, s.free, l.main, INVALID);
  }

  lemma PopFiled(s: Table, l: Ledger, s': Table)
    requires Filed(s, l) && l.main != [] && l.main[0] < |l.place| && s'.out == s.out + {l.main[0]}
    ensures Filed(s', Popped(l))
  {
    var f := l.main[0];
    assert f in l.main;
    ListedPop(l.place, l.main, Main, Out);
    ListedOther(l.place, l.alt, Alt, f, Out);
    ListedOther(l.place, l.moving + l.moved, Hand, f, Out);
  }

  lemma PopSteady(s: Table, l: Ledger, i: nat, n: nat, won: Thread)
    requires Inv(s, l) && i < |s.threads| && s.threads[i].Ready? && l.main != [] && l.main[0] < |l.place| && l.place[l.main[0]] == Main
    requires won.Unlock?
    ensures var s' := To(s.(free := n, out := s.out + {l.main[0]}), i, won);
      Steady(s, l, s', Popped(l)) && SameFreeing(s, l, s', Popped(l)) && Owner(s') == Owner(s)
  {
    hide Chained, Filed, Freers;
    var s', l' := To(s.(free := n, out := s.out + {l.main[0]}), i, won), Popped(l);
    LockKept(s, i, won, s');
    forall f: nat | Barred(s, l, f) ensures Barred(s', l', f) && (l'.place[f] == Main ==> l.place[f] == Main && s'.next[f] == s.next[f]) {
      BarredKept(s, l, i, won, s', l', f);
    }
  }

  lemma HandleTaken(s: Table, l: Ledger, i: nat)
    requires Inv(s, l) && i < |s.threads| && s.threads[i].Ready? && s.free == s.threads[i].f
    ensures l.main != [] && l.main[0] < |l.place|
    ensures Inv(To(s.(free := s.threads[i].n, out := s.out + {s.free}), i, Unlock(s.free, true)), Popped(l))
  {
    hide LinkedTo, Freers, Owner, Filed;
    TrueSuccessor(s, l, i);
    var n, t := s.threads[i].n, Unlock(s.free, true);
    var s', l' := To(s.(free := n, out := s.out + {s.free}), i, t), Popped(l);
    LinkedPop(s.next, s.free, l.main, INVALID);
    PopFiled(s, l, s');
    PopSteady(s, l, i, n, t);
    OthersKept(s, l, i, t, s', l');
  }

  // ---------- the table lock ----------

  lemma TableLocked(s: Table, l: Ledger, i: nat)
    requires Inv(s, l) && i < |s.threads| && s.threads[i].Want? && s.lock == -1
    ensures Inv(To(s.(lock := i), i, Recheck), l)
  {
    hide LinkedTo;
    var s' := To(s.(lock := i), i, Recheck);
    forall f: nat | Barred(s, l, f) ensures Barred(s', l, f) {
      BarredKept(s, l, i, Recheck, s', l, f);
    }
    OthersKept(s, l, i, Recheck, s', l);
  }

  lemma TableUnlocked(s: Table, l: Ledger, i: nat, t: Thread)
    requires Inv(s, l) && i < |s.threads| && (s.threads[i].Release? || s.threads[i].Grown?)
    requires !Owns(t) && !Frees(t) && !Reads(t) && (Named(t) ==> t.f < |s.next|)
    ensures Inv(To(s.(lock := -1), i, t), l)
  {
    var s' := To(s.(lock := -1), i, t);
    forall f: nat | Barred(s, l, f) ensures Barred(s', l, f) {
      BarredKept(s, l, i, t, s', l, f);
    }
    OthersKept(s, l, i, t, s', l);
  }

  // ---------- moving the alternate list ----------

  function Detached(l: Ledger): Ledger {
    l.(alt := [], moving := l.alt, place := Recolor(l.place, Alt, Hand))
  }

  lemma DetachFiled(s: Table, l: Ledger, s': Table)
    requires Filed(s, l) && l.moving == [] && l.moved == [] && s'.out == s.out
    ensures Filed(s', Detached(l))
  {
    ListedRecolored(l.place, l.alt, Alt, [], Hand);
    assert l.alt + [] == l.alt;
    ListedElsewhere(l.place, l.main, Main, Alt, Hand);
  }

  lemma ChainDetached(s: Table, l: Ledger, i: nat)
    requires Inv(s, l) && i < |s.threads| && s.threads[i].Swap? && s.freeAlt != INVALID
    ensures Inv(To(s.(freeAlt := INVALID), i, Passing(s.freeAlt, 0)), Detached(l))
  {
    HeadExists(s, l);
    HolderHas(s, l, i);
    var t := Passing(s.freeAlt, 0);
    var s', l' := To(s.(freeAlt := INVALID), i, t), Detached(l);
    DetachFiled(s, l, s');
    LockKept(s, i, t, s');
    forall f: nat | Barred(s, l, f) ensures Barred(s', l', f) && (l'.place[f] == Main ==> l.place[f] == Main && s'.next[f] == s.next[f]) {
      BarredKept(s, l, i, t, s', l', f);
    }
    OthersKept(s, l, i, t, s', l');
  }

  // The chain in hand becomes the front of the main list.
  function Delivered(l: Ledger): Ledger {
    l.(main := l.moving + l.moved + l.main, moving := [], moved := [], place := Recolor(l.place, Hand, Main))
  }

  lemma DeliverFiled(s: Table, l: Ledger, s': Table)
    requires Filed(s, l) && s'.out == s.out
    ensures Filed(s', Delivered(l))
  {
    ListedRecolored(l.place, l.moving + l.moved, Hand, l.main, Main);

    ListedElsewhere(l.place, l.alt, Alt, Hand, Main);
  }

  // What is in hand past the last lock may go to the main list.
  lemma ChainDelivered(s: Table, l: Ledger, i: nat, index: nat, t: Thread)
    requires Inv(s, l) && i < |s.threads| && Owns(s.threads[i]) && !s.threads[i].Passing?
    requires LinkedTo(s.next, index, l.moving + l.moved, s.free)
    requires t.Grow? || t.Grown? || (t.Release? && t.f < |s.next|)
    ensures Inv(To(s.(free := index), i, t), Delivered(l))
  {
    hide LinkedTo, Freers, NamesExist;
    var s', l' := To(s.(free := index), i, t), Delivered(l);
    DeliverFiled(s, l, s');
    LinkedJoin(s.next, index, l.moving + l.moved, s.free, l.main, INVALID);
    LockKept(s, i, t, s');
    forall f: nat | Barred(s, l, f) ensures Barred(s', l', f) && (l'.place[f] == Main ==> l.place[f] == Main && s'.next[f] == s.next[f]) {
      BarredKept(s, l, i, t, s', l', f);
    }
    OthersKept(s, l, i, t, s', l');
  }

  lemma ShortDelivers(s: Table, l: Ledger, i: nat)
    requires Inv(s, l) && i < |s.threads| && s.threads[i].Short? && s.free == INVALID
    ensures var index := s.threads[i].index; Inv(To(s.(free := index), i, Release(index)), Delivered(l))
  {
    HolderHas(s, l, i);
    assert l.moving + l.moved == l.moving;
    HeadInRange(s.next, s.threads[i].index, l.moving, INVALID);
    ChainDelivered(s, l, i, s.threads[i].index, Release(s.threads[i].index));
  }

  lemma HeadInRange(next: seq<nat>, head: nat, c: seq<nat>, tail: nat)
    requires LinkedTo(next, head, c, tail) && c != []
    ensures head < |next|
  {
  }

  // t is where the owner goes on from once its chain has been pushed.
  lemma PushDelivers(s: Table, l: Ledger, i: nat, t: Thread)
    requires Inv(s, l) && i < |s.threads| && (s.threads[i].PushCas? || s.threads[i].BatchCas?) && s.threads[i].seen == s.free
    requires t.Grow? || t.Grown? || (t.Release? && t.f == s.threads[i].index)
    ensures Inv(To(s.(free := s.threads[i].index), i, t), Delivered(l))
  {
    hide LinkedTo, InHand, Delivered, Freers, Inv, Listed, Filed;
    HolderHas(s, l, i);
    assert l.moving + l.moved == l.moved;
    HeadInRange(s.next, s.threads[i].index, l.moved, s.free);
    ChainDelivered(s, l, i, s.threads[i].index, t);
  }

  lemma HandSteady(s: Table, l: Ledger, i: nat, v: nat, x: nat, t: Thread, s': Table, l': Ledger)
    requires Inv(s, l) && i < |s.threads| && Owns(s.threads[i]) && Owns(t) && !s.threads[i].Passing?
    requires v < |l.place| && l.place[v] == Hand && l'.place == l.place && s' == To(s.(next := s.next[v := x]), i, t)
    ensures Steady(s, l, s', l') && SameFreeing(s, l, s', l') && Owner(s') == t
  {
    hide Filed;
    LockKept(s, i, t, s');
    forall f: nat | Barred(s, l, f) ensures Barred(s', l', f) && (l'.place[f] == Main ==> s'.next[f] == s.next[f]) {
      BarredKept(s, l, i, t, s', l', f);
    }
  }

  lemma ChainsStored(s: Table, l: Ledger, v: nat, x: nat)
    requires Filed(s, l) && Chained(s, l) && v < |l.place| == |s.next| && l.place[v] != Main && l.place[v] != Alt
    ensures Chained(s.(next := s.next[v := x]), l)
  {
    LinkedStore(s.next, s.free, l.main, INVALID, v, x);
    LinkedStore(s.next, s.freeAlt, l.alt, INVALID, v, x);
  }

  lemma HandOthers(s: Table, l: Ledger, i: nat, v: nat, x: nat, t: Thread, s': Table, l': Ledger)
    requires Inv(s, l) && i < |s.threads| && (s.threads[i].Reverse? || s.threads[i].Push? || s.threads[i].Batch?)
    requires t.Reverse? || t.Push? || t.PushCas? || t.BatchCas?
    requires v < |l.place| && l.place[v] == Hand && l'.place == l.place && s' == To(s.(next := s.next[v := x]), i, t)
    ensures LockOwned(s') && Owner(s') == t && Freers(s', l') && Readers(s', l') && NamesExist(s')
  {
    hide Filed, InHand, Owner, NamesExist, Freers;
    HandSteady(s, l, i, v, x, t, s', l');
    OthersKept(s, l, i, t, s', l');
  }

  // A store into an entry in hand disturbs no list.
  lemma HandStored(s: Table, l: Ledger, i: nat, v: nat, x: nat, t: Thread, l': Ledger)
    requires Inv(s, l) && i < |s.threads| && (s.threads[i].Reverse? || s.threads[i].Push? || s.threads[i].Batch?)
    requires t.Reverse? || t.Push? || t.PushCas? || t.BatchCas?
    requires v < |l.place| && l.place[v] == Hand
    requires l' == l.(moving := l'.moving, moved := l'.moved) && Listed(l.place, l'.moving + l'.moved, Hand)
    requires InHand(To(Store(s, v, x), i, t), l', t)
    ensures Inv(To(Store(s, v, x), i, t), l')
  {
    var s' := To(s.(next := s.next[v := x]), i, t);
    assert s' == To(Store(s, v, x), i, t);
    ChainsStored(s, l, v, x);
    HandOthers(s, l, i, v, x, t, s', l');
  }

  lemma LastInHand(s: Table, l: Ledger)
    requires Filed(s, l) && l.moving == [] && l.moved != []
    ensures var v := l.moved[|l.moved| - 1]; v < |l.place| && l.place[v] == Hand && Distinct(l.moved)
    ensures l.moving + l.moved == l.moved
  {
    assert l.moving + l.moved == l.moved;
    assert l.moved[|l.moved| - 1] in l.moving + l.moved;
  }

  lemma LastReady(s: Table, l: Ledger, i: nat, t: Thread, v: nat)
    requires i < |s.threads| && l.moving == [] && l.moved != [] && l.moved[|l.moved| - 1] == v < |s.next| && Distinct(l.moved)
    requires (t.PushCas? || t.BatchCas?) && t.seen == s.free && LinkedTo(s.next, t.index, l.moved, Load(s, v))
    requires v == (if t.PushCas? then t.first else t.index + LEVEL_ENTRIES - 1)
    ensures InHand(To(Store(s, v, s.free), i, t), l, t)
  {
    LinkedLast(s.next, t.index, l.moved, Load(s, v), s.free);
  }

  // The last entry of what is to be pushed is linked to the head just read.
  lemma LastLinked(s: Table, l: Ledger, i: nat, v: nat, t: Thread)
    requires Inv(s, l) && i < |s.threads| && (s.threads[i].Push? || s.threads[i].Batch?) && (t.PushCas? || t.BatchCas?)
    requires l.moving == [] && l.moved != [] && l.moved[|l.moved| - 1] == v && LinkedTo(s.next, t.index, l.moved, Load(s, v))
    requires v == (if t.PushCas? then t.first else t.index + LEVEL_ENTRIES - 1) && t.seen == s.free
    ensures Inv(To(Store(s, v, s.free), i, t), l)
  {
    LastInHand(s, l);
    LastReady(s, l, i, t, v);
    HandStored(s, l, i, v, s.free, t, l);
  }

  lemma PushLinked(s: Table, l: Ledger, i: nat)
    requires Inv(s, l) && i < |s.threads| && s.threads[i].Push?
    ensures var t := s.threads[i]; Inv(To(Store(s, t.first, s.free), i, PushCas(t.index, t.first, s.free, t.count, t.strict)), l)
  {
    var t := s.threads[i];
    HolderHas(s, l, i);
    LastLinked(s, l, i, t.first, PushCas(t.index, t.first, s.free, t.count, t.strict));
  }

  lemma BatchLinked(s: Table, l: Ledger, i: nat)
    requires Inv(s, l) && i < |s.threads| && s.threads[i].Batch?
    ensures var t := s.threads[i]; Inv(To(Store(s, t.index + LEVEL_ENTRIES - 1, s.free), i, BatchCas(t.index, s.free)), l)
  {
    HolderHas(s, l, i);
    LastLinked(s, l, i, s.threads[i].index + LEVEL_ENTRIES - 1, BatchCas(s.threads[i].index, s.free));
  }

  // One link of the detached chain is turned round.
  function Turned(l: Ledger): Ledger
    requires l.moving != []
  {
    l.(moving := l.moving[1..], moved := [l.moving[0]] + l.moved)
  }

  lemma FirstMovedOver(x: nat, a: seq<nat>, b: seq<nat>)
    requires Distinct([x] + a + b)
    ensures Distinct(a + ([x] + b)) && x !in a && x !in b
    ensures forall v :: v in [x] + a + b <==> v in a + ([x] + b)
  {
    var c, d := [x] + a + b, a + ([x] + b);
    assert x == c[0] && |c| == |d| == 1 + |a| + |b|;
    forall k | 0 <= k < |d| ensures d[k] == c[CameFrom(k, |a|)] {}
    assert forall j, k :: 0 <= j < |d| && 0 <= k < |d| && j != k ==> CameFrom(j, |a|) != CameFrom(k, |a|);
    NotBehind(x, a, b);
  }

  function CameFrom(k: nat, n: nat): nat {
    if k < n then k + 1 else if k == n then 0 else k
  }

  lemma NotBehind(x: nat, a: seq<nat>, b: seq<nat>)
    requires Distinct([x] + a + b)
    ensures x !in a && x !in b
  {
    var c := [x] + a + b;
    assert c[0] == x;
    assert forall k :: 0 <= k < |a| ==> a[k] == c[k + 1];
    assert forall k :: 0 <= k < |b| ==> b[k] == c[k + 1 + |a|];
  }

  lemma TurnFiled(place: seq<Place>, l: Ledger)
    requires l.moving != [] && Listed(place, l.moving + l.moved, Hand)
    ensures Listed(place, Turned(l).moving + Turned(l).moved, Hand)
    ensures l.moving[0] < |place| && place[l.moving[0]] == Hand && l.moving[0] !in l.moving[1..] && l.moving[0] !in l.moved
  {
    var x, a := l.moving[0], l.moving[1..];
    assert l.moving + l.moved == [x] + a + l.moved;
    assert x in [x] + a + l.moved;
    FirstMovedOver(x, a, l.moved);
    ListedReordered(place, [x] + a + l.moved, a + ([x] + l.moved), Hand);
  }

  lemma LinkTurned(s: Table, l: Ledger, i: nat)
    requires Inv(s, l) && i < |s.threads| && s.threads[i].Reverse?
    ensures var t := s.threads[i];
      l.moving != [] && Inv(To(Store(s, t.index, t.last), i, AfterTurn(t, Load(s, t.index))), Turned(l))
  {
    var t := s.threads[i];
    var n := Load(s, t.index);
    HolderHas(s, l, i);
    TurnFiled(l.place, l);
    LinkedPop(s.next, t.index, l.moving, INVALID);
    TurnedInHand(s, l, i, t, n);
    HandStored(s, l, i, t.index, t.last, AfterTurn(t, n), Turned(l));
  }

  // Where the owner goes on from, n being the link it has read.
  function AfterTurn(t: Thread, n: nat): Thread
    requires t.Reverse?
  {
    if n == INVALID then Push(t.index, t.first, t.count + 1, t.strict) else Reverse(n, t.index, t.first, t.count + 1, t.strict)
  }

  lemma TurnedInHand(s: Table, l: Ledger, i: nat, t: Thread, n: nat)
    requires i < |s.threads| && t.Reverse? && l.moving != [] && t.index == l.moving[0] < |s.next| <= MAXIMUM_HANDLES
    requires t.first == (if l.moved == [] then t.index else l.moved[|l.moved| - 1])
    requires t.index !in l.moving[1..] && t.index !in l.moved
    requires LinkedTo(s.next, n, l.moving[1..], INVALID) && LinkedTo(s.next, t.last, l.moved, INVALID)
    ensures InHand(To(Store(s, t.index, t.last), i, AfterTurn(t, n)), Turned(l), AfterTurn(t, n))
  {
    LinkedStore(s.next, n, l.moving[1..], INVALID, t.index, t.last);
    LinkedStore(s.next, t.last, l.moved, INVALID, t.index, t.last);
    LinkedPush(s.next[t.index := t.last], t.last, l.moved, INVALID, t.index);
    if l.moving[1..] != [] {
      HeadInRange(s.next, n, l.moving[1..], INVALID);
    }
    if n == INVALID {
      LinkedLastIs(s.next[t.index := t.last], t.index, [t.index] + l.moved, INVALID);
    }
  }

  // ---------- new handles ----------

  function Enlarged(l: Ledger): Ledger {
    l.(moved := Range(|l.place|), place := l.place + AllHand())
  }

  lemma EnlargeFiled(s: Table, l: Ledger, s': Table)
    requires Filed(s, l) && l.moving == [] && l.moved == [] && s'.out == s.out
    ensures Filed(s', Enlarged(l))
  {
    assert l.moving + l.moved == [];
    ListedBatch(l.place);
    assert [] + Range(|l.place|) == Range(|l.place|);
    ListedMore(l.place, l.main, Main, AllHand());
    ListedMore(l.place, l.alt, Alt, AllHand());
  }

  lemma GrowSteady(s: Table, l: Ledger, i: nat, s': Table)
    requires Inv(s, l) && i < |s.threads| && s.threads[i].Grow?
    requires s' == To(s.(next := s.next + Fresh(|s.next|)), i, Batch(|s.next|))
    ensures Steady(s, l, s', Enlarged(l)) && SameFreeing(s, l, s', Enlarged(l)) && Owner(s') == Batch(|s.next|)
  {
    HolderHas(s, l, i);
    var t, l' := Batch(|s.next|), Enlarged(l);
    LockKept(s, i, t, s');
    forall f: nat | Barred(s, l, f) ensures Barred(s', l', f) && (l'.place[f] == Main ==> l.place[f] == Main && s'.next[f] == s.next[f]) {
      BarredKept(s, l, i, t, s', l', f);
    }
  }

  lemma GrowChained(s: Table, l: Ledger, s': Table)
    requires Chained(s, l) && s'.next == s.next + Fresh(|s.next|) && s'.free == s.free && s'.freeAlt == s.freeAlt && |l.place| == |s.next|
    requires l.moving == []
    ensures Chained(s', Enlarged(l)) && InHand(s', Enlarged(l), Batch(|s.next|))
  {
    LinkedMore(s.next, s.free, l.main, INVALID, Fresh(|s.next|));
    LinkedMore(s.next, s.freeAlt, l.alt, INVALID, Fresh(|s.next|));
    LinkedBatch(s.next);
    LinkedLastIs(s'.next, |s.next|, Range(|l.place|), INVALID);
  }

  lemma TableGrown(s: Table, l: Ledger, i: nat)
    requires Inv(s, l) && i < |s.threads| && s.threads[i].Grow? && |s.next| + LEVEL_ENTRIES <= MAXIMUM_HANDLES
    ensures Inv(To(s.(next := s.next + Fresh(|s.next|)), i, Batch(|s.next|)), Enlarged(l))
  {
    HolderHas(s, l, i);
    var s', l' := To(s.(next := s.next + Fresh(|s.next|)), i, Batch(|s.next|)), Enlarged(l);
    EnlargeFiled(s, l, s');
    GrowChained(s, l, s');
    GrowSteady(s, l, i, s');
    OthersKept(s, l, i, Batch(|s.next|), s', l');
  }

  // ---------- giving a handle back ----------

  lemma FreersChanged(s: Table, l: Ledger, i: nat, t: Thread, s': Table, l': Ledger, v: nat)
    requires Freers(s, l) && i < |s.threads| && s'.threads == s.threads[i := t] && |s.next| == |l.place|
    requires v < |l.place| == |l'.place| && l'.place == l.place[v := l'.place[v]] && (Frees(s.threads[i]) ==> s.threads[i].v == v)
    requires if Frees(t) then t.v == v && l'.place[v] == Freeing(i) && (t.GiveCas? ==> Load(s', v) == t.seen) else !l'.place[v].Freeing?
    requires l.place[v] == Freeing(i) || !l.place[v].Freeing?
    requires s'.next == s.next || (v < |s.next| && s'.next == s.next[v := Load(s', v)])
    ensures Freers(s', l')
  {
    hide Returning;
  }

  function Returning(l: Ledger, v: nat, i: nat): Ledger
    requires v < |l.place|
  {
    l.(place := l.place[v := Freeing(i)])
  }

  lemma ReturnFiled(s: Table, l: Ledger, v: nat, i: nat, s': Table)
    requires Filed(s, l) && v in s.out && s'.out == s.out - {v}
    ensures v < |l.place| && Filed(s', Returning(l, v, i))
  {
    ListedOther(l.place, l.main, Main, v, Freeing(i));
    ListedOther(l.place, l.alt, Alt, v, Freeing(i));
    ListedOther(l.place, l.moving + l.moved, Hand, v, Freeing(i));
  }

  lemma FreeStarts(s: Table, l: Ledger, i: nat, v: nat)
    requires Inv(s, l) && i < |s.threads| && s.threads[i].Idle? && v in s.out
    ensures v < |l.place| && Inv(To(s.(out := s.out - {v}), i, Choose(v)), Returning(l, v, i))
  {
    hide LinkedTo, Listed, Freers, Owner;
    var t := Choose(v);
    var s', l' := To(s.(out := s.out - {v}), i, t), Returning(l, v, i);
    ReturnFiled(s, l, v, i, s');
    LockKept(s, i, t, s');
    forall f: nat | Barred(s, l, f) ensures Barred(s', l', f) && (l'.place[f] == Main ==> l.place[f] == Main) {
      BarredKept(s, l, i, t, s', l', f);
    }
    ReadersSteady(s, l, i, t, s', l');
    FreersChanged(s, l, i, t, s', l', v);
  }

  lemma GiveSteady(s: Table, l: Ledger, i: nat, t: Thread, s': Table)
    requires Inv(s, l) && i < |s.threads| && s.threads[i].Give? && t.GiveCas? && t.v == s.threads[i].v && t.main == s.threads[i].main
    requires t.v < |s.next| && s' == To(s.(next := s.next[t.v := t.seen]), i, t) && l.place[t.v] == Freeing(i)
    ensures Steady(s, l, s', l) && Owner(s') == Owner(s)
  {
    LockKept(s, i, t, s');
  }

  lemma LinkStored(s: Table, l: Ledger, i: nat, seen: nat)
    requires Inv(s, l) && i < |s.threads| && s.threads[i].Give?
    ensures var v := s.threads[i].v; Inv(To(Store(s, v, seen), i, GiveCas(v, s.threads[i].main, seen)), l)
  {
    var v := s.threads[i].v;
    var t := GiveCas(v, s.threads[i].main, seen);
    assert v < |l.place| && l.place[v] == Freeing(i);
    var s' := To(s.(next := s.next[v := seen]), i, t);
    ChainsStored(s, l, v, seen);
    GiveSteady(s, l, i, t, s');
    ReadersSteady(s, l, i, t, s', l);
    FreersChanged(s, l, i, t, s', l, v);
    HandUntouched(s, l, s', v, seen);
  }

  // What is in hand does not depend on entries elsewhere.
  lemma HandUntouched(s: Table, l: Ledger, s': Table, v: nat, x: nat)
    requires LockOwned(s) && InHand(s, l, Owner(s)) && Listed(l.place, l.moving + l.moved, Hand)
    requires v < |l.place| == |s.next| && l.place[v] != Hand && s'.next == s.next[v := x]
    ensures InHand(s', l, Owner(s))
  {
    hide At, Owner;
    assert v !in l.moving + l.moved;
    assert forall u :: u in l.moving || u in l.moved ==> u != v;
  }

  function Returned(l: Ledger, v: nat, main: bool): Ledger
    requires v < |l.place|
  {
    if main then l.(main := [v] + l.main, place := l.place[v := Main]) else l.(alt := [v] + l.alt, place := l.place[v := Alt])
  }

  lemma ReturnedFiled(s: Table, l: Ledger, v: nat, main: bool, s': Table)
    requires Filed(s, l) && v < |l.place| && l.place[v].Freeing? && s'.out == s.out
    ensures Filed(s', Returned(l, v, main))
  {
    var q := if main then Main else Alt;
    if main {
      ListedPush(l.place, l.main, Main, v);
      ListedOther(l.place, l.alt, Alt, v, q);
    } else {
      ListedPush(l.place, l.alt, Alt, v);
      ListedOther(l.place, l.main, Main, v, q);
    }
    ListedOther(l.place, l.moving + l.moved, Hand, v, q);
  }

  lemma ReturnedSteady(s: Table, l: Ledger, i: nat, s': Table, v: nat, main: bool)
    requires Inv(s, l) && i < |s.threads| && s.threads[i].GiveCas? && s.threads[i].v == v && s.threads[i].main == main
    requires v < |l.place| && l.place[v] == Freeing(i) && s'.threads == s.threads[i := Idle] && s'.lock == s.lock && s'.next == s.next
    ensures Steady(s, l, s', Returned(l, v, main)) && Owner(s') == Owner(s)
  {
    var l' := Returned(l, v, main);
    LockKept(s, i, Idle, s');
    forall f: nat | Barred(s, l, f) ensures Barred(s', l', f) && (l'.place[f] == Main ==> l.place[f] == Main) {
      assert f == v ==> !main;
      BarredKept(s, l, i, Idle, s', l', f);
    }
  }

  lemma HandleReturned(s: Table, l: Ledger, i: nat)
    requires Inv(s, l) && i < |s.threads| && s.threads[i].GiveCas?
    requires var t := s.threads[i]; t.seen == (if t.main then s.free else s.freeAlt)
    ensures var t := s.threads[i];
      && t.v < |l.place|
      && Inv(To(if t.main then s.(free := t.v) else s.(freeAlt := t.v), i, Idle), Returned(l, t.v, t.main))
  {
    hide Filed, Chained, LockOwned, Owner, NamesExist, Reader, Readers, LinkedTo, Distinct, Barred, Named;
    var t := s.threads[i];
    assert t.v < |l.place| && l.place[t.v] == Freeing(i);
    var s' := To(if t.main then s.(free := t.v) else s.(freeAlt := t.v), i, Idle);
    ReturnedFiled(s, l, t.v, t.main, s');
    ReturnedChained(s, l, t.v, t.main, s');
    ReturnedSteady(s, l, i, s', t.v, t.main);
    ReturnedOthers(s, l, i, s', t.v, t.main);
  }

  lemma ReturnedChained(s: Table, l: Ledger, v: nat, main: bool, s': Table)
    requires Chained(s, l) && v < |l.place| == |s.next| && s.next[v] == (if main then s.free else s.freeAlt) && s'.next == s.next
    requires if main then s'.free == v && s'.freeAlt == s.freeAlt else s'.freeAlt == v && s'.free == s.free
    ensures Chained(s', Returned(l, v, main))
  {
    if main {
      LinkedPush(s.next, s.free, l.main, INVALID, v);
    } else {
      LinkedPush(s.next, s.freeAlt, l.alt, INVALID, v);
    }
  }

  lemma ReturnedOthers(s: Table, l: Ledger, i: nat, s': Table, v: nat, main: bool)
    requires Inv(s, l) && i < |s.threads| && s.threads[i].GiveCas? && s.threads[i].v == v && v < |l.place| && l.place[v] == Freeing(i)
    requires s'.threads == s.threads[i := Idle] && s'.next == s.next && Steady(s, l, s', Returned(l, v, main))
    ensures Readers(s', Returned(l, v, main)) && Freers(s', Returned(l, v, main)) && NamesExist(s')
  {
    ReadersSteady(s, l, i, Idle, s', Returned(l, v, main));
    FreersChanged(s, l, i, Idle, s', Returned(l, v, main), v);
    NamesKept(s, i, Idle, s');
  }

  // ---------- clients ----------

  lemma ClientWrites(s: Table, l: Ledger, v: nat, x: nat)
    requires Inv(s, l) && v in s.out
    ensures Inv(Store(s, v, x), l)
  {
    hide LinkedTo;
    var s' := s.(next := s.next[v := x]);
    assert v < |l.place| && l.place[v] == Out;
    ChainsStored(s, l, v, x);
    HandUntouched(s, l, s', v, x);
    forall j | 0 <= j < |s'.threads| ensures Reader(s', l, s'.threads[j]) {
      assert Reader(s, l, s.threads[j]);
    }
  }

  lemma ClientSetsFlags(s: Table, l: Ledger, b: bool)
    requires Inv(s, l)
    ensures Inv(s.(strict := b), l)
  {
    forall j | 0 <= j < |s.threads| ensures Reader(s.(strict := b), l, s.threads[j]) {
      assert Reader(s, l, s.threads[j]);
    }
  }
}
