// What every action of every thread keeps.
module HandleSafety {
  import opened HandleProtocol
  import opened HandleLedger
  import opened Chains
  import opened Listings

  predicate Named(t: Thread) {
    t.Got? || t.Locked? || t.Checked? || t.Ready? || t.Unlock? || t.Release?
  }

  predicate Reads(t: Thread) {
    t.Checked? || t.Ready?
  }

  predicate Frees(t: Thread) {
    t.Choose? || t.Test? || t.Give? || t.GiveCas?
  }

  // The thread has decided to free to the main list.
  predicate ForMain(t: Thread) {
    (t.Give? || t.GiveCas?) && t.main
  }

  // The thread is inside the table lock.
  predicate Owns(t: Thread) {
    t.Recheck? || t.Release? || t.Grown? || t.Swap? || t.Passing? || t.Flags? || t.Short?
    || t.Reverse? || t.Push? || t.PushCas? || t.Grow? || t.Batch? || t.BatchCas?
  }

  predicate Sized(s: Table, l: Ledger) {
    |l.place| == |s.next| <= MAXIMUM_HANDLES && !s.fault
  }

  predicate Filed(s: Table, l: Ledger) {
    && Listed(l.place, l.main, Main) && Listed(l.place, l.alt, Alt) && Listed(l.place, l.moving + l.moved, Hand)
    && (forall v :: v in s.out ==> v < |l.place|)
    && (forall v :: 0 <= v < |l.place| ==> (l.place[v] == Out <==> v in s.out))
  }

  predicate Chained(s: Table, l: Ledger) {
    LinkedTo(s.next, s.free, l.main, INVALID) && LinkedTo(s.next, s.freeAlt, l.alt, INVALID)
  }

  // What the owner of the table lock has in hand.
  predicate InHand(s: Table, l: Ledger, t: Thread) {
    if t.Passing? || t.Flags? || t.Short? then
      l.moved == [] && l.moving != [] && LinkedTo(s.next, t.index, l.moving, INVALID)
    else if t.Reverse? then
      && l.moving != [] && LinkedTo(s.next, t.index, l.moving, INVALID)
      && LinkedTo(s.next, t.last, l.moved, INVALID)
      && t.first == (if l.moved == [] then t.index else l.moved[|l.moved| - 1])
    else if t.Push? || t.Batch? then
      && l.moving == [] && l.moved != [] && LinkedTo(s.next, t.index, l.moved, Load(s, l.moved[|l.moved| - 1]))
      && l.moved[|l.moved| - 1] == (if t.Push? then t.first else t.index + LEVEL_ENTRIES - 1)
    else if t.PushCas? || t.BatchCas? then
      && l.moving == [] && l.moved != [] && LinkedTo(s.next, t.index, l.moved, t.seen)
      && l.moved[|l.moved| - 1] == (if t.PushCas? then t.first else t.index + LEVEL_ENTRIES - 1)
    else
      l.moving == [] && l.moved == []
  }

  predicate LockOwned(s: Table) {
    && -1 <= s.lock < |s.threads|
    && (forall j :: 0 <= j < |s.threads| ==> (Owns(s.threads[j]) <==> j == s.lock))
  }

  function Owner(s: Table): Thread
    requires LockOwned(s)
  {
    if s.lock == -1 then Idle else s.threads[s.lock]
  }

  predicate NamesExist(s: Table) {
    forall j :: 0 <= j < |s.threads| && Named(s.threads[j]) ==> s.threads[j].f < |s.next|
  }

  // While somebody holds the lock of f in shared mode, f cannot come back to the main
  // list once it has left it: a handle given out has to be freed first, a free that has
  // not decided yet will find the lock held, and a detached chain still has to pass it.
  predicate Barred(s: Table, l: Ledger, f: nat)
    requires LockOwned(s)
  {
    && f < |l.place|
    && match l.place[f]
       case Main => true
       case Alt => true
       case Out => true
       case Freeing(who) => who < |s.threads| && !ForMain(s.threads[who])
       case Hand => Owner(s).Passing? && Owner(s).k <= f % LOCKS
  }

  predicate Reader(s: Table, l: Ledger, t: Thread)
    requires LockOwned(s)
  {
    Reads(t) ==>
      && Barred(s, l, t.f) && t.f < |s.next|
      && (t.Ready? && l.place[t.f] == Main ==> t.n == s.next[t.f])
  }

  predicate Readers(s: Table, l: Ledger)
    requires LockOwned(s)
  {
    forall j :: 0 <= j < |s.threads| ==> Reader(s, l, s.threads[j])
  }

  predicate Freers(s: Table, l: Ledger) {
    && (forall j :: 0 <= j < |s.threads| && Frees(s.threads[j]) ==>
          var t := s.threads[j];
          t.v < |l.place| && l.place[t.v] == Freeing(j) && (t.GiveCas? ==> Load(s, t.v) == t.seen))
    && (forall v :: 0 <= v < |l.place| && l.place[v].Freeing? ==>
          l.place[v].who < |s.threads| && Frees(s.threads[l.place[v].who]) && s.threads[l.place[v].who].v == v)
  }

  predicate Inv(s: Table, l: Ledger) {
    && Sized(s, l) && Filed(s, l) && Chained(s, l)
    && LockOwned(s) && InHand(s, l, Owner(s))
    && NamesExist(s) && Readers(s, l) && Freers(s, l)
  }

  // ---------- actions that only move the thread on ----------

  lemma OwnerAfter(s: Table, i: nat, t: Thread)
    requires LockOwned(s) && i < |s.threads| && (Owns(t) <==> Owns(s.threads[i]))
    ensures LockOwned(To(s, i, t)) && Owner(To(s, i, t)) == (if i == s.lock then t else Owner(s))
  {
  }

  // Barred can only end by a decision for the main list or by passing the last lock.
  lemma BarredAfter(s: Table, l: Ledger, i: nat, t: Thread, f: nat)
    requires LockOwned(s) && i < |s.threads| && (Owns(t) <==> Owns(s.threads[i])) && Barred(s, l, f)
    requires ForMain(t) ==> ForMain(s.threads[i]) || l.place[f] != Freeing(i)
    requires s.threads[i].Passing? ==> l.place[f] != Hand || (t.Passing? && t.k <= f % LOCKS)
    ensures LockOwned(To(s, i, t)) && Barred(To(s, i, t), l, f)
  {
    OwnerAfter(s, i, t);
  }

  lemma MovedOn(s: Table, l: Ledger, i: nat, t: Thread)
    requires Inv(s, l) && i < |s.threads| && (Owns(t) <==> Owns(s.threads[i]))
    requires Named(t) ==> t.f < |s.next|
    requires Frees(t) <==> Frees(s.threads[i])
    requires Frees(t) ==> t.v == s.threads[i].v && !t.GiveCas?
    requires Owns(t) ==> InHand(s, l, t)
    requires LockOwned(To(s, i, t)) ==> Readers(To(s, i, t), l)
    ensures Inv(To(s, i, t), l)
  {
    OwnerAfter(s, i, t);
    var s' := To(s, i, t);
    assert NamesExist(s');
    assert Freers(s', l);
    assert InHand(s', l, Owner(s'));
  }

  // The readers do not mind a thread that neither decides nor passes a lock.
  lemma ReadersCalm(s: Table, l: Ledger, i: nat, t: Thread)
    requires LockOwned(s) && Readers(s, l) && i < |s.threads| && (Owns(t) <==> Owns(s.threads[i]))
    requires ForMain(t) ==> ForMain(s.threads[i])
    requires !s.threads[i].Passing?
    requires Reader(s, l, t)
    ensures LockOwned(To(s, i, t)) && Readers(To(s, i, t), l)
  {
    OwnerAfter(s, i, t);
    var s' := To(s, i, t);
    forall j | 0 <= j < |s'.threads| ensures Reader(s', l, s'.threads[j]) {
      var u := s'.threads[j];
      if Reads(u) {
        BarredAfter(s, l, i, t, u.f);
      }
    }
  }

  lemma HeadExists(s: Table, l: Ledger)
    requires Inv(s, l)
    ensures s.free == INVALID <==> l.main == []
    ensures s.free != INVALID ==> s.free < |s.next| && l.main[0] == s.free && l.place[s.free] == Main
    ensures s.freeAlt == INVALID <==> l.alt == []
  {
    assert l.main != [] ==> l.main[0] in l.main;
    assert l.alt != [] ==> l.alt[0] in l.alt;
  }

  lemma Moves(s: Table, l: Ledger, i: nat, t: Thread)
    requires Inv(s, l) && i < |s.threads| && (Owns(t) <==> Owns(s.threads[i]))
    requires Named(t) ==> t.f < |s.next|
    requires !Frees(t) && !Frees(s.threads[i]) && !s.threads[i].Passing?
    requires Owns(t) ==> InHand(s, l, t)
    requires Reader(s, l, t)
    ensures Inv(To(s, i, t), l)
  {
    ReadersCalm(s, l, i, t);
    MovedOn(s, l, i, t);
  }

  // Reading the head of the main list afresh.
  lemma HeadRead(s: Table, l: Ledger, i: nat)
    requires Inv(s, l) && i < |s.threads| && !Owns(s.threads[i]) && !Frees(s.threads[i])
    ensures Inv(To(s, i, Loaded(s.free)), l)
  {
    HeadExists(s, l);
    Moves(s, l, i, Loaded(s.free));
  }

  lemma Idles(s: Table, l: Ledger, i: nat)
    requires Inv(s, l) && i < |s.threads| && !Owns(s.threads[i]) && !Frees(s.threads[i])
    ensures Inv(To(s, i, Idle), l)
  {
    Moves(s, l, i, Idle);
  }

  lemma TriesAgain(s: Table, l: Ledger, i: nat)
    requires Inv(s, l) && i < |s.threads| && !Owns(s.threads[i]) && !Frees(s.threads[i])
    ensures Inv(To(s, i, Again), l)
  {
    Moves(s, l, i, Again);
  }

  lemma LockTaken(s: Table, l: Ledger, i: nat)
    requires Inv(s, l) && i < |s.threads| && s.threads[i].Got?
    ensures Inv(To(s, i, Locked(s.threads[i].f)), l)
  {
    Moves(s, l, i, Locked(s.threads[i].f));
  }

  lemma HeadReadAgain(s: Table, l: Ledger, i: nat)
    requires Inv(s, l) && i < |s.threads| && s.threads[i].Recheck?
    ensures Inv(To(s, i, if s.free != INVALID then Release(s.free) else Swap), l)
  {
    HeadExists(s, l);
    Moves(s, l, i, if s.free != INVALID then Release(s.free) else Swap);
  }

  // Under the lock: f is the head of the main list, so it is not barred from anything.
  lemma HeadChecked(s: Table, l: Ledger, i: nat)
    requires Inv(s, l) && i < |s.threads| && s.threads[i].Locked?
    ensures var f := s.threads[i].f; Inv(To(s, i, if s.free == f then Checked(f) else Unlock(f, false)), l)
  {
    hide LockOwned, InHand, Chained, Listed;
    HeadExists(s, l);
    var f := s.threads[i].f;
    var t := if s.free == f then Checked(f) else Unlock(f, false);
    assert Reader(s, l, t);
    Moves(s, l, i, t);
  }

  lemma NextRead(s: Table, l: Ledger, i: nat)
    requires Inv(s, l) && i < |s.threads| && s.threads[i].Checked?
    ensures var f := s.threads[i].f; f < |s.next| && Inv(To(s, i, Ready(f, s.next[f])), l)
  {
    var f := s.threads[i].f;
    assert Reader(s, l, s.threads[i]);
    Moves(s, l, i, Ready(f, s.next[f]));
  }

  lemma TakeFails(s: Table, l: Ledger, i: nat)
    requires Inv(s, l) && i < |s.threads| && s.threads[i].Ready?
    ensures Inv(To(s, i, Unlock(s.threads[i].f, false)), l)
  {
    Moves(s, l, i, Unlock(s.threads[i].f, false));
  }

  lemma GrowFails(s: Table, l: Ledger, i: nat)
    requires Inv(s, l) && i < |s.threads| && s.threads[i].Grow?
    ensures Inv(To(s, i, Grown(false)), l)
  {
    ReadersCalm(s, l, i, Grown(false));
    MovedOn(s, l, i, Grown(false));
  }

  lemma LinkedLastIs(next: seq<nat>, head: nat, c: seq<nat>, tail: nat)
    requires LinkedTo(next, head, c, tail) && c != []
    ensures c[|c| - 1] < |next| && next[c[|c| - 1]] == tail
  {
  }

  lemma HolderHas(s: Table, l: Ledger, i: nat)
    requires Inv(s, l) && i < |s.threads| && Owns(s.threads[i])
    ensures s.lock == i && Owner(s) == s.threads[i] && InHand(s, l, s.threads[i])
  {
  }

  // The chain has to be turned round before it can be pushed.
  lemma TurnStarts(s: Table, l: Ledger, i: nat, strict: bool)
    requires Inv(s, l) && i < |s.threads| && (s.threads[i].Flags? || s.threads[i].Short?)
    ensures var index := s.threads[i].index; Inv(To(s, i, Reverse(index, INVALID, index, 0, strict)), l)
  {
    HolderHas(s, l, i);
    var index := s.threads[i].index;
    Moves(s, l, i, Reverse(index, INVALID, index, 0, strict));
  }

  lemma ShortStarts(s: Table, l: Ledger, i: nat)
    requires Inv(s, l) && i < |s.threads| && s.threads[i].Flags?
    ensures Inv(To(s, i, Short(s.threads[i].index)), l)
  {
    HolderHas(s, l, i);
    Moves(s, l, i, Short(s.threads[i].index));
  }

  // The compare-exchange lost: t tries again.
  lemma PushFails(s: Table, l: Ledger, i: nat, t: Thread)
    requires Inv(s, l) && i < |s.threads|
    requires if s.threads[i].PushCas? then t.Push? && t.first == s.threads[i].first else s.threads[i].BatchCas? && t.Batch?
    requires t.index == s.threads[i].index
    ensures Inv(To(s, i, t), l)
  {
    hide LinkedTo, Inv, Freers, Listed, Filed;
    HolderHas(s, l, i);
    LinkedLastIs(s.next, t.index, l.moved, s.threads[i].seen);
    Moves(s, l, i, t);
  }

  // Passing a lock: nobody holds it, so no reader relies on it.
  lemma LockPassed(s: Table, l: Ledger, i: nat, t: Thread)
    requires Inv(s, l) && i < |s.threads| && s.threads[i].Passing? && s.threads[i].k < LOCKS && Vacant(s, s.threads[i].k)
    requires if s.threads[i].k + 1 < LOCKS then t.Passing? && t.k == s.threads[i].k + 1 else t.Flags?
    requires t.index == s.threads[i].index
    ensures Inv(To(s, i, t), l)
  {
    HolderHas(s, l, i);
    PassReaders(s, l, i, t);
    MovedOn(s, l, i, t);
  }

  lemma PassReaders(s: Table, l: Ledger, i: nat, t: Thread)
    requires LockOwned(s) && Readers(s, l) && i < |s.threads| && s.threads[i].Passing? && Vacant(s, s.threads[i].k)
    requires t.Flags? || (t.Passing? && t.k == s.threads[i].k + 1)
    requires t.Flags? ==> s.threads[i].k + 1 >= LOCKS
    ensures LockOwned(To(s, i, t)) && Readers(To(s, i, t), l)
  {
    var s' := To(s, i, t);
    OwnerAfter(s, i, t);
    forall j | 0 <= j < |s'.threads| ensures Reader(s', l, s'.threads[j]) {
      var u := s'.threads[j];
      if Reads(u) {
        assert j != i && u == s.threads[j] && !Holds(u, s.threads[i].k);
        assert Reader(s, l, u);
        BarredAfter(s, l, i, t, u.f);
      }
    }
  }

  // Deciding for the main list: nobody holds the lock of v, so no reader has v.
  lemma MainDecided(s: Table, l: Ledger, i: nat)
    requires Inv(s, l) && i < |s.threads| && s.threads[i].Test? && Vacant(s, s.threads[i].v % LOCKS)
    ensures Inv(To(s, i, Give(s.threads[i].v, true)), l)
  {
    hide Chained, Filed, InHand, LockOwned, NamesExist, Barred, Owner;
    var v := s.threads[i].v;
    var t := Give(v, true);
    var s' := To(s, i, t);
    OwnerAfter(s, i, t);
    forall j | 0 <= j < |s'.threads| ensures Reader(s', l, s'.threads[j]) {
      var u := s'.threads[j];
      if Reads(u) {
        assert u == s.threads[j] && !Holds(u, v % LOCKS);
        BarredAfter(s, l, i, t, u.f);
      }
    }
    MovedOn(s, l, i, t);
  }

  lemma FreeMoves(s: Table, l: Ledger, i: nat, t: Thread)
    requires Inv(s, l) && i < |s.threads| && Frees(s.threads[i]) && Frees(t) && !t.GiveCas? && t.v == s.threads[i].v
    requires ForMain(t) ==> ForMain(s.threads[i])
    ensures Inv(To(s, i, t), l)
  {
    hide LinkedTo, Listed, InHand, Freers, Filed, Sized;
    ReadersCalm(s, l, i, t);
    MovedOn(s, l, i, t);
  }
}
