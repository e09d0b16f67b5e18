// What an allocation and a free come to when no other thread acts in between.
//
// Other threads may be anywhere except inside a lock; a step that cannot be taken fails.
module HandleAlone {
  import opened HandleProtocol
  import opened HandleLedger
  import opened Chains
  import opened Listings
  import opened HandleSafety
  import opened HandleSteps
  import opened HandleRuns
  import opened HandleGiveUp

  // The next step of thread i, if it has one.
  function Step(s: Table, i: nat): Table {
    if Enabled(s, i, Go) then Act(s, i, Go) else if Enabled(s, i, Fail) then Act(s, i, Fail) else s
  }

  function Alone(s: Table, i: nat, n: nat): Table
    decreases n
  {
    if n == 0 then s else Alone(Step(s, i), i, n - 1)
  }

  // No other thread is inside one of the eight locks or the table lock.
  ghost predicate Undisturbed(s: Table, i: nat) {
    && i < |s.threads| && (s.lock == -1 || s.lock == i)
    && forall j, k: int :: 0 <= j < |s.threads| && j != i ==> !Holds(s.threads[j], k)
  }

  lemma StepKeeps(s: Table, l: Ledger, i: nat) returns (l': Ledger)
    requires Inv(s, l) && i < |s.threads| && !s.threads[i].Idle?
    ensures Inv(Step(s, i), l')
    ensures Enabled(s, i, Go) ==> HandStep(s, l, i, Go, l')
  {
    hide Inv, Act, HandStep;
    l' := l;
    if Enabled(s, i, Go) {
      l' := ActionKeeps(s, l, i, Go);
    } else if Enabled(s, i, Fail) {
      l' := ActionKeeps(s, l, i, Fail);
    }
  }

  // After n steps thread i has a handle that nobody held, and the table has so many entries.
  ghost predicate Gets(s: Table, i: nat, n: nat, size: nat) {
    var e := Alone(s, i, n);
    && i < |e.threads| && e.threads[i].Unlock? && e.threads[i].won
    && e.threads[i].f !in s.out && e.out == s.out + {e.threads[i].f} && |e.next| == size
  }

  lemma OneMore(s: Table, i: nat, n: nat, size: nat)
    requires Gets(Step(s, i), i, n, size) && Step(s, i).out == s.out
    ensures Gets(s, i, n + 1, size)
  {}

  // The size after growing, if there is room and need.
  function Larger(s: Table, need: bool): nat {
    if need && Room(s) then |s.next| + 256 else |s.next|
  }

  // These steps wait for nobody.
  predicate WaitsForNobody(t: Thread) {
    !t.Idle? && !t.Want? && !t.Passing? && !t.Grow? && !t.Test?
  }

  lemma StepIs(s: Table, i: nat)
    requires i < |s.threads| && WaitsForNobody(s.threads[i])
    ensures Enabled(s, i, Go) && Step(s, i) == Advance(s, i)
  {
    hide Advance, Vacant;
  }

  // ---------- the pop ----------

  lemma HeadHere(s: Table, l: Ledger)
    requires Inv(s, l) && s.free != INVALID
    ensures s.free < |s.next| && s.free !in s.out
  {
    HeadExists(s, l);
  }

  lemma FourSteps(s: Table, i: nat, s1: Table, s2: Table, s3: Table)
    requires s1 == Step(s, i) && s2 == Step(s1, i) && s3 == Step(s2, i)
    ensures Alone(s, i, 4) == Step(s3, i)
  {
    hide Step;
    assert Alone(s, i, 4) == Alone(s1, i, 3) == Alone(s2, i, 2) == Alone(s3, i, 1);
    assert Alone(s3, i, 1) == Alone(Step(s3, i), i, 0);
  }

  lemma FromGot(s: Table, l: Ledger, i: nat) returns (n: nat)
    requires Inv(s, l) && i < |s.threads| && s.free != INVALID && s.threads[i] == Got(s.free)
    ensures Gets(s, i, n, |s.next|)
  {
    hide Inv, Step, Alone, Enabled;
    HeadHere(s, l);
    var f := s.free;
    StepIs(s, i);
    var s1 := To(s, i, Locked(f));
    StepIs(s1, i);
    var s2 := To(s1, i, Checked(f));
    StepIs(s2, i);
    var s3 := To(s2, i, Ready(f, Load(s, f)));
    StepIs(s3, i);
    FourSteps(s, i, s1, s2, s3);
    n := 4;
  }

  lemma FromRelease(s: Table, l: Ledger, i: nat) returns (n: nat)
    requires Inv(s, l) && i < |s.threads| && s.free != INVALID && s.threads[i] == Release(s.free)
    ensures Gets(s, i, n, |s.next|)
  {
    hide Inv, Step, Alone, Enabled, Gets;
    StepIs(s, i);
    var l' := StepKeeps(s, l, i);
    n := FromGot(Step(s, i), l', i);
    OneMore(s, i, n, |s.next|);
    n := n + 1;
  }

  lemma FromAfter(s: Table, l: Ledger, i: nat) returns (n: nat)
    requires Inv(s, l) && i < |s.threads| && s.free != INVALID && s.threads[i].After?
    ensures Gets(s, i, n, |s.next|)
  {
    hide Inv, Step, Alone, Enabled, Gets;
    StepIs(s, i);
    var l' := StepKeeps(s, l, i);
    n := FromGot(Step(s, i), l', i);
    OneMore(s, i, n, |s.next|);
    n := n + 1;
  }

  lemma FromGrown(s: Table, l: Ledger, i: nat) returns (n: nat)
    requires Inv(s, l) && i < |s.threads| && s.free != INVALID && s.threads[i].Grown?
    ensures Gets(s, i, n, |s.next|)
  {
    hide Inv, Step, Alone, Enabled, Gets;
    StepIs(s, i);
    var l' := StepKeeps(s, l, i);
    n := FromAfter(Step(s, i), l', i);
    OneMore(s, i, n, |s.next|);
    n := n + 1;
  }

  // ---------- growth ----------

  lemma HeadOfHand(s: Table, l: Ledger, i: nat)
    requires Inv(s, l) && i < |s.threads| && (s.threads[i].BatchCas? || s.threads[i].PushCas? || s.threads[i].Short?)
    ensures s.threads[i].index < |s.next| && s.threads[i].index != INVALID
  {
    HolderHas(s, l, i);
    assert Sized(s, l);
  }

  lemma FromBatchCas(s: Table, l: Ledger, i: nat) returns (n: nat)
    requires Inv(s, l) && i < |s.threads| && s.threads[i].BatchCas? && s.threads[i].seen == s.free
    ensures Gets(s, i, n, |s.next|)
  {
    hide Inv, Step, Alone, Enabled, Gets;
    HeadOfHand(s, l, i);
    StepIs(s, i);
    var l' := StepKeeps(s, l, i);
    n := FromGrown(Step(s, i), l', i);
    OneMore(s, i, n, |s.next|);
    n := n + 1;
  }

  lemma FromBatch(s: Table, l: Ledger, i: nat) returns (n: nat)
    requires Inv(s, l) && i < |s.threads| && s.threads[i].Batch?
    ensures Gets(s, i, n, |s.next|)
  {
    hide Inv, Step, Alone, Enabled, Gets;
    StepIs(s, i);
    var l' := StepKeeps(s, l, i);
    n := FromBatchCas(Step(s, i), l', i);
    OneMore(s, i, n, |s.next|);
    n := n + 1;
  }

  // There can be 2^24 handles.
  predicate Room(s: Table) { |s.next| + 256 <= 0x100_0000 }

  lemma FromGrow(s: Table, l: Ledger, i: nat) returns (n: nat)
    requires Inv(s, l) && i < |s.threads| && s.threads[i].Grow? && (s.free != INVALID || Room(s))
    ensures Gets(s, i, n, Larger(s, true))
  {
    hide Inv, Alone, Gets, Vacant;
    var l' := StepKeeps(s, l, i);
    if Room(s) {
      assert Step(s, i) == GrowStep(s, i, s.threads[i]);
      n := FromBatch(Step(s, i), l', i);
    } else {
      assert Step(s, i) == To(s, i, Grown(false));
      n := FromGrown(Step(s, i), l', i);
    }
    OneMore(s, i, n, Larger(s, true));
    n := n + 1;
  }

  // ---------- the alternate list ----------

  lemma FromPushCas(s: Table, l: Ledger, i: nat) returns (n: nat)
    requires Inv(s, l) && i < |s.threads| && s.threads[i].PushCas? && s.threads[i].seen == s.free
    ensures Gets(s, i, n, Larger(s, s.threads[i].strict && s.threads[i].count < 64))
  {
    hide Inv, Step, Alone, Enabled, Gets;
    HeadOfHand(s, l, i);
    StepIs(s, i);
    var l' := StepKeeps(s, l, i);
    var t := s.threads[i];
    if t.strict && t.count < FREE_COUNT {
      n := FromGrow(Step(s, i), l', i);
    } else {
      n := FromRelease(Step(s, i), l', i);
    }
    OneMore(s, i, n, Larger(s, s.threads[i].strict && s.threads[i].count < 64));
    n := n + 1;
  }

  lemma FromPush(s: Table, l: Ledger, i: nat) returns (n: nat)
    requires Inv(s, l) && i < |s.threads| && s.threads[i].Push?
    ensures Gets(s, i, n, Larger(s, s.threads[i].strict && s.threads[i].count < 64))
  {
    hide Inv, Step, Alone, Enabled, Gets;
    StepIs(s, i);
    var l' := StepKeeps(s, l, i);
    n := FromPushCas(Step(s, i), l', i);
    OneMore(s, i, n, Larger(s, s.threads[i].strict && s.threads[i].count < 64));
    n := n + 1;
  }

  lemma {:induction false} FromReverse(s: Table, l: Ledger, i: nat) returns (n: nat)
    requires Inv(s, l) && i < |s.threads| && s.threads[i].Reverse?
    ensures Gets(s, i, n, Larger(s, s.threads[i].strict && s.threads[i].count + |l.moving| < 64))
    decreases |l.moving|
  {
    hide Inv, Step, Alone, Enabled, Gets;
    StepIs(s, i);
    var l' := StepKeeps(s, l, i);
    if Step(s, i).threads[i].Push? {
      HandAfterTurn(Step(s, i), l', i);
      n := FromPush(Step(s, i), l', i);
    } else {
      n := FromReverse(Step(s, i), l', i);
    }
    OneMore(s, i, n, Larger(s, s.threads[i].strict && s.threads[i].count + |l.moving| < 64));
    n := n + 1;
  }

  lemma FromShort(s: Table, l: Ledger, i: nat) returns (n: nat)
    requires Inv(s, l) && i < |s.threads| && s.threads[i].Short?
    ensures Gets(s, i, n, |s.next|)
  {
    hide Inv, Step, Alone, Enabled, Gets;
    HeadOfHand(s, l, i);
    StepIs(s, i);
    var l' := StepKeeps(s, l, i);
    if s.free == INVALID {
      n := FromRelease(Step(s, i), l', i);
    } else {
      n := FromReverse(Step(s, i), l', i);
    }
    OneMore(s, i, n, |s.next|);
    n := n + 1;
  }

  lemma FromFlags(s: Table, l: Ledger, i: nat) returns (n: nat)
    requires Inv(s, l) && i < |s.threads| && s.threads[i].Flags?
    ensures Gets(s, i, n, Larger(s, s.strict && |l.moving| < 64))
  {
    hide Inv, Step, Alone, Enabled, Gets;
    StepIs(s, i);
    var l' := StepKeeps(s, l, i);
    if s.strict {
      n := FromReverse(Step(s, i), l', i);
    } else {
      n := FromShort(Step(s, i), l', i);
    }
    OneMore(s, i, n, Larger(s, s.strict && |l.moving| < 64));
    n := n + 1;
  }

  lemma PassStep(s: Table, i: nat)
    requires Undisturbed(s, i) && s.threads[i].Passing? && s.threads[i].k < LOCKS
    ensures Enabled(s, i, Go) && Step(s, i) == DetachStep(s, i, s.threads[i]) && Undisturbed(Step(s, i), i)
  {
  }

  lemma {:induction false} FromPassing(s: Table, l: Ledger, i: nat) returns (n: nat)
    requires Inv(s, l) && Undisturbed(s, i) && s.threads[i].Passing? && s.threads[i].k < LOCKS
    ensures Gets(s, i, n, Larger(s, s.strict && |l.moving| < 64))
    decreases LOCKS - s.threads[i].k
  {
    hide Inv, Step, Alone, Enabled, Gets, Undisturbed;
    PassStep(s, i);
    var l' := StepKeeps(s, l, i);
    if Step(s, i).threads[i].Flags? {
      n := FromFlags(Step(s, i), l', i);
    } else {
      n := FromPassing(Step(s, i), l', i);
    }
    OneMore(s, i, n, Larger(s, s.strict && |l.moving| < 64));
    n := n + 1;
  }

  // ---------- a whole allocation ----------

  // After n steps thread i has come back without a handle, and nobody else has lost one.
  ghost predicate ComesBack(s: Table, i: nat, n: nat) {
    var e := Alone(s, i, n);
    i < |e.threads| && e.threads[i].Idle? && e.out == s.out
  }

  ghost predicate Ends(s: Table, i: nat, n: nat, ok: bool, size: nat) {
    if ok then Gets(s, i, n, size) else ComesBack(s, i, n)
  }

  lemma OneMoreEnds(s: Table, i: nat, n: nat, ok: bool, size: nat)
    requires Ends(Step(s, i), i, n, ok, size) && Step(s, i).out == s.out
    ensures Ends(s, i, n + 1, ok, size)
  {}

  lemma NoRoom(s: Table, i: nat) returns (n: nat)
    requires i < |s.threads| && s.threads[i].Grow? && s.free == INVALID && !Room(s)
    ensures ComesBack(s, i, n)
  {
    hide Alone, Enabled, Step;
    GrowFailsHere(s, i);
    var s1 := To(s, i, Grown(false));
    StepIs(s1, i);
    var s2 := To(s1.(lock := -1), i, After(false));
    StepIs(s2, i);
    ThreeSteps(s, i, s1, s2);
    n := 3;
  }

  lemma GrowFailsHere(s: Table, i: nat)
    requires i < |s.threads| && s.threads[i].Grow? && !Room(s)
    ensures Step(s, i) == To(s, i, Grown(false))
  {
    hide Vacant, Advance;
  }

  lemma ThreeSteps(s: Table, i: nat, s1: Table, s2: Table)
    requires s1 == Step(s, i) && s2 == Step(s1, i)
    ensures Alone(s, i, 3) == Step(s2, i)
  {
    hide Step;
    assert Alone(s, i, 3) == Alone(s1, i, 2) == Alone(s2, i, 1);
    assert Alone(s2, i, 1) == Alone(Step(s2, i), i, 0);
  }

  // There is a free handle, or room for more.
  predicate CanServe(s: Table) {
    s.free != INVALID || s.freeAlt != INVALID || Room(s)
  }

  // The table grows if it must: there are no free handles, or it is strict and there are
  // fewer than 64 on the alternate list.
  ghost function SizeAfter(s: Table, l: Ledger): nat {
    Larger(s, s.free == INVALID && (s.freeAlt == INVALID || (s.strict && |l.alt| < 64)))
  }

  lemma FromSwap(s: Table, l: Ledger, i: nat) returns (n: nat)
    requires Inv(s, l) && Undisturbed(s, i) && s.threads[i].Swap? && s.free == INVALID
    ensures Ends(s, i, n, CanServe(s), SizeAfter(s, l))
  {
    hide Inv, Step, Alone, Enabled, Gets, ComesBack;
    StepIs(s, i);
    var l' := StepKeeps(s, l, i);
    if s.freeAlt != INVALID {
      n := FromPassing(Step(s, i), l', i);
    } else if Room(s) {
      n := FromGrow(Step(s, i), l', i);
    } else {
      n := NoRoom(Step(s, i), i);
    }
    OneMoreEnds(s, i, n, CanServe(s), SizeAfter(s, l));
    n := n + 1;
  }

  lemma FromRecheck(s: Table, l: Ledger, i: nat) returns (n: nat)
    requires Inv(s, l) && Undisturbed(s, i) && s.threads[i].Recheck? && s.free == INVALID
    ensures Ends(s, i, n, CanServe(s), SizeAfter(s, l))
  {
    hide Inv, Step, Alone, Enabled, Ends;
    StepIs(s, i);
    var l' := StepKeeps(s, l, i);
    n := FromSwap(Step(s, i), l', i);
    OneMoreEnds(s, i, n, CanServe(s), SizeAfter(s, l));
    n := n + 1;
  }

  lemma WantStep(s: Table, i: nat)
    requires Undisturbed(s, i) && s.threads[i].Want? && s.lock == -1
    ensures Enabled(s, i, Go) && Step(s, i) == To(s.(lock := i), i, Recheck) && Undisturbed(Step(s, i), i)
  {
  }

  lemma FromWant(s: Table, l: Ledger, i: nat) returns (n: nat)
    requires Inv(s, l) && Undisturbed(s, i) && s.threads[i].Want? && s.lock == -1 && s.free == INVALID
    ensures Ends(s, i, n, CanServe(s), SizeAfter(s, l))
  {
    hide Inv, Step, Alone, Enabled, Ends, Undisturbed;
    WantStep(s, i);
    var l' := StepKeeps(s, l, i);
    n := FromRecheck(Step(s, i), l', i);
    OneMoreEnds(s, i, n, CanServe(s), SizeAfter(s, l));
    n := n + 1;
  }

  // With nobody inside a lock and nobody acting in between, an allocation gets a handle that
  // was free if there is one on either list or room for a new table, and comes back without
  // one otherwise.
  lemma AllocatesAlone(s: Table, l: Ledger, i: nat) returns (n: nat)
    requires Inv(s, l) && Undisturbed(s, i) && s.lock == -1 && Enabled(s, i, Allocate)
    ensures Ends(Act(s, i, Allocate), i, n, CanServe(s), SizeAfter(s, l)) && Act(s, i, Allocate).out == s.out
  {
    hide Inv, Step, Alone, Ends;
    var s' := Act(s, i, Allocate);
    var l' := ActionKeeps(s, l, i, Allocate);
    if s.free == INVALID {
      n := FromWant(s', l', i);
    } else {
      n := FromGot(s', l', i);
      GetsEnds(s', i, n, |s.next|);
    }
  }

  // In one more step a thread that has got a handle returns with it.
  lemma Returns(s: Table, i: nat, n: nat, size: nat)
    requires Gets(s, i, n, size)
    ensures var e := Alone(s, i, n + 1);
      i < |e.threads| && e.threads[i].Idle? && e.out == Alone(s, i, n).out && |e.out - s.out| == 1 && |e.next| == size
  {
    hide Step;
    AloneAdds(s, i, n, 1);
    var m := Alone(s, i, n);
    OneStep(m, i);
    StepIs(m, i);
    assert m.out - s.out == {m.threads[i].f};
  }

  lemma FromAgain(s: Table, l: Ledger, i: nat) returns (n: nat)
    requires Inv(s, l) && Undisturbed(s, i) && s.lock == -1 && s.threads[i].Again?
    ensures Ends(s, i, n, CanServe(s), SizeAfter(s, l))
  {
    hide Inv, Step, Alone, Enabled, Ends;
    StepIs(s, i);
    var l' := StepKeeps(s, l, i);
    if s.free == INVALID {
      n := FromWant(Step(s, i), l', i);
    } else {
      n := FromGot(Step(s, i), l', i);
      GetsEnds(Step(s, i), i, n, |s.next|);
    }
    OneMoreEnds(s, i, n, CanServe(s), SizeAfter(s, l));
    n := n + 1;
  }

  // A thread that has lost the head of the list to another one starts again, and comes to
  // the same.
  lemma RetriesAlone(s: Table, l: Ledger, i: nat) returns (n: nat)
    requires Inv(s, l) && Undisturbed(s, i) && s.lock == -1 && s.threads[i].Unlock? && !s.threads[i].won
    ensures Ends(s, i, n, CanServe(s), SizeAfter(s, l))
  {
    hide Inv, Step, Alone, Enabled, Ends;
    StepIs(s, i);
    var l' := StepKeeps(s, l, i);
    n := FromAgain(Step(s, i), l', i);
    OneMoreEnds(s, i, n, CanServe(s), SizeAfter(s, l));
    n := n + 1;
  }

  // So it is in every run.
  lemma ServesAlone(states: seq<Table>, who: seq<nat>, what: seq<Action>, k: nat, i: nat) returns (l: Ledger, n: nat)
    requires Run(states, who, what) && k < |states| && Undisturbed(states[k], i)
    requires states[k].lock == -1 && states[k].threads[i].Idle?
    ensures LinkedTo(states[k].next, states[k].freeAlt, l.alt, INVALID)
    ensures
      var s := states[k];
      Enabled(s, i, Allocate) && Ends(Act(s, i, Allocate), i, n, CanServe(s), SizeAfter(s, l))
  {
    hide Ends;
    l := Reached(states, who, what, k);
    n := AllocatesAlone(states[k], l, i);
  }

  lemma GetsEnds(s: Table, i: nat, n: nat, size: nat)
    requires Gets(s, i, n, size)
    ensures Ends(s, i, n, true, size)
  {}

  // ---------- a whole free ----------

  lemma TwoSteps(s: Table, i: nat, s1: Table)
    requires s1 == Step(s, i)
    ensures Alone(s, i, 2) == Step(s1, i)
  {
    hide Step;
    assert Alone(s, i, 2) == Alone(s1, i, 1);
    assert Alone(s1, i, 1) == Alone(Step(s1, i), i, 0);
  }

  lemma GiveStep(s: Table, i: nat)
    requires i < |s.threads| && s.threads[i].Give? && s.threads[i].v < |s.next|
    ensures
      var v, main := s.threads[i].v, s.threads[i].main;
      var seen := if main then s.free else s.freeAlt;
      Step(s, i) == To(s.(next := s.next[v := seen]), i, GiveCas(v, main, seen))
  {
    hide Step, Enabled;
    StepIs(s, i);
  }

  lemma CasStep(s: Table, i: nat)
    requires i < |s.threads| && s.threads[i].GiveCas? && s.threads[i].seen == if s.threads[i].main then s.free else s.freeAlt
    ensures Step(s, i) == To(if s.threads[i].main then s.(free := s.threads[i].v) else s.(freeAlt := s.threads[i].v), i, Idle)
  {
    hide Step, Enabled;
    StepIs(s, i);
  }

  lemma FromGive(s: Table, i: nat) returns (e: Table)
    requires i < |s.threads| && s.threads[i].Give? && s.threads[i].v < |s.next|
    ensures Alone(s, i, 2) == e && e.threads == s.threads[i := Idle] && e.out == s.out
    ensures
      var v, main := s.threads[i].v, s.threads[i].main;
      && e.next == s.next[v := if main then s.free else s.freeAlt]
      && e.free == (if main then v else s.free) && e.freeAlt == (if main then s.freeAlt else v)
  {
    hide Alone, Step;
    GiveStep(s, i);
    CasStep(Step(s, i), i);
    TwoSteps(s, i, Step(s, i));
    e := Step(Step(s, i), i);
  }

  // The lock of the handle is tried, once, unless the table is strict.
  lemma FromChoose(s: Table, i: nat) returns (s': Table, n: nat)
    requires i < |s.threads| && s.threads[i].Choose?
    ensures
      var v := s.threads[i].v;
      Alone(s, i, n) == s' == To(s, i, Give(v, !s.strict && Vacant(s, v % LOCKS)))
  {
    hide Alone, Step, Enabled;
    var v := s.threads[i].v;
    StepIs(s, i);
    if s.strict {
      s', n := Step(s, i), 1;
      OneStep(s, i);
    } else {
      var s1 := To(s, i, Test(v));
      TestStep(s1, i);
      SameVacancy(s, i, Test(v), v % LOCKS);
      TwoSteps(s, i, s1);
      s', n := Step(s1, i), 2;
    }
  }

  lemma OneStep(s: Table, i: nat)
    ensures Alone(s, i, 1) == Step(s, i)
  {
    hide Step;
    assert Alone(s, i, 1) == Alone(Step(s, i), i, 0);
  }

  lemma TestStep(s: Table, i: nat)
    requires i < |s.threads| && s.threads[i].Test?
    ensures Step(s, i) == To(s, i, Give(s.threads[i].v, Vacant(s, s.threads[i].v % LOCKS)))
  {
    hide Vacant;
  }

  lemma SameVacancy(s: Table, i: nat, t: Thread, k: int)
    requires i < |s.threads| && !Holds(s.threads[i], k) && !Holds(t, k)
    ensures Vacant(To(s, i, t), k) == Vacant(s, k)
  {
    var s' := To(s, i, t);
    assert forall j :: 0 <= j < |s.threads| ==> s'.threads[j] == if j == i then t else s.threads[j];
  }

  lemma {:induction false} AloneAdds(s: Table, i: nat, m: nat, n: nat)
    ensures Alone(s, i, m + n) == Alone(Alone(s, i, m), i, n)
    decreases m
  {
    hide Step;
    if m > 0 {
      AloneAdds(Step(s, i), i, m - 1, n);
    }
  }

  // A handle that is freed goes to the front of the main list, or of the alternate one if
  // the table is strict or somebody is inside the lock of that handle.
  lemma FreesAlone(s: Table, l: Ledger, i: nat, v: nat) returns (n: nat)
    requires Inv(s, l) && Enabled(s, i, Free(v))
    ensures
      var e := Alone(Act(s, i, Free(v)), i, n);
      && v < |s.next| && e.threads == s.threads && e.out == s.out - {v}
      && if !s.strict && Vacant(s, v % 8)
         then e.free == v && e.freeAlt == s.freeAlt && e.next == s.next[v := s.free]
         else e.free == s.free && e.freeAlt == v && e.next == s.next[v := s.freeAlt]
  {
    hide Alone, Step, Vacant, Inv, Advance;
    Exists(s, l, v);
    var s1 := Act(s, i, Free(v));
    SameVacancy(s, i, Choose(v), v % LOCKS);
    VacantOut(s, i, Choose(v), v);
    var s2, m := FromChoose(s1, i);
    var e := FromGive(s2, i);
    AloneAdds(s1, i, m, 2);
    assert s1.threads[i := Idle] == s.threads;
    n := m + 2;
  }

  lemma Exists(s: Table, l: Ledger, v: nat)
    requires Inv(s, l) && v in s.out
    ensures v < |s.next|
  {}

  lemma VacantOut(s: Table, i: nat, t: Thread, v: nat)
    requires i < |s.threads|
    ensures Vacant(To(s.(out := s.out - {v}), i, t), v % LOCKS) == Vacant(To(s, i, t), v % LOCKS)
  {}
}
