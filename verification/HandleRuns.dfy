// The free lists over whole runs.
module HandleRuns {
  import opened HandleProtocol
  import opened HandleLedger
  import opened Chains
  import opened Listings
  import opened HandleSafety
  import opened HandleSteps

  // What an action of thread i does to the chains in the hand of the owner of the table
  // lock, to the main list when it delivers them, and to the alternate list.
  ghost predicate HandStep(s: Table, l: Ledger, i: nat, a: Action, l': Ledger)
    requires i < |s.threads|
  {
    var t := s.threads[i];
    && ((a == Go && (t.Swap? || t.GiveCas?)) || l'.alt == l.alt)
    && if a != Go then l'.moving == l.moving && l'.moved == l.moved
       else if t.Swap? then l'.moving == l.alt && l'.moved == l.moved
       else if t.Reverse? then l.moving != [] && l'.moving == l.moving[1..] && l'.moved == [l.moving[0]] + l.moved
       else if t.Grow? then l'.moving == l.moving
       else if (t.Short? && s.free == INVALID) || (t.PushCas? && t.seen == s.free) || (t.BatchCas? && t.seen == s.free) then
         l'.moving == [] && l'.moved == [] && l'.main == l.moving + l.moved + l.main
       else l'.moving == l.moving && l'.moved == l.moved
  }

  lemma PopKeeps(s: Table, l: Ledger, i: nat, t: Thread) returns (l': Ledger)
    requires Inv(s, l) && i < |s.threads| && s.threads[i] == t && (t.Got? || t.Locked? || t.Checked? || t.Ready?)
    ensures Inv(PopStep(s, i, t), l')
    ensures HandStep(s, l, i, Go, l')
  {
    hide Inv, InHand, Filed, Freers, To, Listed;
    l' := l;
    match t
    case Got(_) => LockTaken(s, l, i);
    case Locked(_) => HeadChecked(s, l, i);
    case Checked(_) => NextRead(s, l, i);
    case Ready(f, _) =>
      if s.free == f {
        HandleTaken(s, l, i);
        l' := Popped(l);
      } else {
        TakeFails(s, l, i);
      }
  }

  lemma WaitKeeps(s: Table, l: Ledger, i: nat, t: Thread)
    requires Inv(s, l) && i < |s.threads| && s.threads[i] == t && (t.Want? ==> s.lock == -1)
    requires t.Unlock? || t.Again? || t.Want? || t.Recheck? || t.Release? || t.Grown? || t.After?
    ensures Inv(WaitStep(s, i, t), l)
  {
    hide LinkedTo, Chained, InHand, Freers, Owner;
    match t
    case Unlock(_, won) =>
      if won { Idles(s, l, i); } else { TriesAgain(s, l, i); }
    case Again => HeadRead(s, l, i);
    case Want => TableLocked(s, l, i);
    case Recheck => HeadReadAgain(s, l, i);
    case Release(f) => TableUnlocked(s, l, i, Got(f));
    case Grown(ok) => TableUnlocked(s, l, i, After(ok));
    case After(ok) =>
      if !ok && s.free == INVALID { Idles(s, l, i); } else { HeadRead(s, l, i); }
  }

  lemma AltEmpty(s: Table, l: Ledger, i: nat)
    requires Inv(s, l) && i < |s.threads| && s.threads[i].Swap? && s.freeAlt == INVALID
    ensures Inv(To(s.(freeAlt := INVALID), i, Grow), l) && l.alt == [] && l.moving == []
  {
    HolderHas(s, l, i);
    HeadExists(s, l);
    Moves(s, l, i, Grow);
    assert s.(freeAlt := INVALID) == s;
  }

  lemma SwapKeeps(s: Table, l: Ledger, i: nat) returns (l': Ledger)
    requires Inv(s, l) && i < |s.threads| && s.threads[i].Swap?
    ensures Inv(DetachStep(s, i, s.threads[i]), l') && l'.moving == l.alt && l'.moved == l.moved
  {
    hide Inv, Filed, InHand, Freers, Listed;
    if s.freeAlt == INVALID {
      AltEmpty(s, l, i);
      l' := l;
    } else {
      ChainDetached(s, l, i);
      l' := Detached(l);
    }
  }

  lemma ShortKeeps(s: Table, l: Ledger, i: nat) returns (l': Ledger)
    requires Inv(s, l) && i < |s.threads| && s.threads[i].Short?
    ensures Inv(DetachStep(s, i, s.threads[i]), l') && l' == if s.free == INVALID then Delivered(l) else l
  {
    hide Inv, Freers, Delivered, InHand;
    if s.free == INVALID {
      ShortDelivers(s, l, i);
      l' := Delivered(l);
    } else {
      TurnStarts(s, l, i, false);
      l' := l;
    }
  }

  lemma DetachKeeps(s: Table, l: Ledger, i: nat, t: Thread) returns (l': Ledger)
    requires Inv(s, l) && i < |s.threads| && s.threads[i] == t && (t.Swap? || t.Passing? || t.Flags? || t.Short?)
    requires t.Passing? ==> t.k < LOCKS && Vacant(s, t.k)
    ensures Inv(DetachStep(s, i, t), l')
    ensures HandStep(s, l, i, Go, l')
  {
    hide Filed, Chained, InHand, LockOwned, NamesExist, Readers, Freers, Sized;
    l' := l;
    match t
    case Swap => l' := SwapKeeps(s, l, i);
    case Passing(index, k) => LockPassed(s, l, i, if k + 1 < LOCKS then Passing(index, k + 1) else Flags(index));
    case Flags(_) =>
      if s.strict { TurnStarts(s, l, i, true); } else { ShortStarts(s, l, i); }
    case Short(_) => l' := ShortKeeps(s, l, i);
  }

  lemma ReverseKeeps(s: Table, l: Ledger, i: nat, t: Thread) returns (l': Ledger)
    requires Inv(s, l) && i < |s.threads| && s.threads[i] == t && (t.Reverse? || t.Push? || t.PushCas?)
    ensures Inv(ReverseStep(s, i, t), l')
    ensures HandStep(s, l, i, Go, l')
  {
    hide Inv, Freers, To, Filed;
    l' := l;
    match t
    case Reverse(_, _, _, _, _) =>
      LinkTurned(s, l, i);
      l' := Turned(l);
    case Push(_, _, _, _) => PushLinked(s, l, i);
    case PushCas(index, first, seen, count, strict) =>
      if s.free == seen {
        PushDelivers(s, l, i, if strict && count < FREE_COUNT then Grow else Release(index));
        l' := Delivered(l);
      } else {
        PushFails(s, l, i, Push(index, first, count, strict));
      }
  }

  lemma GrowKeeps(s: Table, l: Ledger, i: nat, t: Thread) returns (l': Ledger)
    requires Inv(s, l) && i < |s.threads| && s.threads[i] == t && (t.Grow? || t.Batch? || t.BatchCas?)
    requires t.Grow? ==> |s.next| + LEVEL_ENTRIES <= MAXIMUM_HANDLES
    ensures Inv(GrowStep(s, i, t), l')
    ensures HandStep(s, l, i, Go, l')
  {
    hide Inv, Filed, Freers, InHand, NamesExist, To;
    l' := l;
    match t
    case Grow =>
      TableGrown(s, l, i);
      l' := Enlarged(l);
    case Batch(_) => BatchLinked(s, l, i);
    case BatchCas(index, seen) =>
      if s.free == seen {
        PushDelivers(s, l, i, Grown(true));
        l' := Delivered(l);
      } else {
        PushFails(s, l, i, Batch(index));
      }
  }

  lemma FreeKeeps(s: Table, l: Ledger, i: nat, t: Thread) returns (l': Ledger)
    requires Inv(s, l) && i < |s.threads| && s.threads[i] == t && (t.Choose? || t.Test? || t.Give? || t.GiveCas?)
    requires t.Test? ==> Vacant(s, t.v % LOCKS)
    ensures Inv(FreeStep(s, i, t), l')
    ensures HandStep(s, l, i, Go, l')
  {
    hide Inv, Freers, To, Filed;
    l' := l;
    match t
    case Choose(v) => FreeMoves(s, l, i, if s.strict then Give(v, false) else Test(v));
    case Test(_) => MainDecided(s, l, i);
    case Give(v, main) => LinkStored(s, l, i, if main then s.free else s.freeAlt);
    case GiveCas(v, main, seen) =>
      if (if main then s.free else s.freeAlt) == seen {
        HandleReturned(s, l, i);
        l' := Returned(l, v, main);
      } else {
        FreeMoves(s, l, i, Give(v, main));
      }
  }

  lemma AdvanceKeeps(s: Table, l: Ledger, i: nat) returns (l': Ledger)
    requires Inv(s, l) && Enabled(s, i, Go)
    ensures Inv(Advance(s, i), l') && HandStep(s, l, i, Go, l')
  {
    hide Inv, Freers, Filed;
    l' := l;
    var t := s.threads[i];
    if t.Got? || t.Locked? || t.Checked? || t.Ready? {
      l' := PopKeeps(s, l, i, t);
    } else if t.Unlock? || t.Again? || t.Want? || t.Recheck? || t.Release? || t.Grown? || t.After? {
      WaitKeeps(s, l, i, t);
    } else if t.Swap? || t.Passing? || t.Flags? || t.Short? {
      l' := DetachKeeps(s, l, i, t);
    } else if t.Reverse? || t.Push? || t.PushCas? {
      l' := ReverseKeeps(s, l, i, t);
    } else if t.Grow? || t.Batch? || t.BatchCas? {
      l' := GrowKeeps(s, l, i, t);
    } else {
      l' := FreeKeeps(s, l, i, t);
    }
  }

  // Every action of every thread keeps the books.
  lemma ActionKeeps(s: Table, l: Ledger, i: nat, a: Action) returns (l': Ledger)
    requires Inv(s, l) && Enabled(s, i, a)
    ensures Inv(Act(s, i, a), l') && HandStep(s, l, i, a, l')
  {
    l' := l;
    match a
    case Allocate => HeadRead(s, l, i);
    case Free(v) =>
      FreeStarts(s, l, i, v);
      l' := Returning(l, v, i);
    case Write(v, x) => ClientWrites(s, l, v, x);
    case SetStrict(b) => ClientSetsFlags(s, l, b);
    case Fail =>
      if s.threads[i].Grow? {
        GrowFails(s, l, i);
      } else {
        FreeMoves(s, l, i, Give(s.threads[i].v, false));
      }
    case Go =>
      l' := AdvanceKeeps(s, l, i);
  }

  lemma InitiallyListed(place: seq<Place>)
    requires |place| == LEVEL_ENTRIES && forall v :: 0 <= v < |place| ==> place[v] == Main
    ensures Listed(place, Range(0), Main) && Listed(place, [], Alt) && Listed(place, [] + [], Hand)
  {
    var r := Range(0);
    forall v | 0 <= v < LEVEL_ENTRIES ensures v in r {
      assert r[v] == v;
    }
  }

  lemma InitiallyChained()
    ensures LinkedTo(Fresh(0), 0, Range(0), INVALID)
  {
    var none: seq<nat> := [];
    LinkedBatch(none);
    assert none + Fresh(0) == Fresh(0);
  }

  lemma InitialThreads(s: Table, l: Ledger)
    requires Initial(s) && |l.place| == LEVEL_ENTRIES && forall v :: 0 <= v < |l.place| ==> l.place[v] == Main
    ensures LockOwned(s) && Owner(s) == Idle && NamesExist(s) && Readers(s, l) && Freers(s, l)
  {
    forall j | 0 <= j < |s.threads| ensures s.threads[j] == Idle {
      assert s.threads[j] in s.threads;
    }
  }

  lemma InitialBooks(s: Table) returns (l: Ledger)
    requires Initial(s)
    ensures Inv(s, l)
  {
    l := Ledger(Range(0), [], [], [], seq(LEVEL_ENTRIES, _ => Main));
    InitiallyListed(l.place);
    InitiallyChained();
    InitialThreads(s, l);
  }

  lemma {:induction false} Reached(states: seq<Table>, who: seq<nat>, what: seq<Action>, k: nat) returns (l: Ledger)
    requires Run(states, who, what) && k < |states|
    ensures Inv(states[k], l)
  {
    if k == 0 {
      l := InitialBooks(states[0]);
    } else {
      l := Reached(states, who, what, k - 1);
      l := ActionKeeps(states[k - 1], l, who[k - 1], what[k - 1]);
    }
  }

  // ---------- what follows for every run ----------

  function Bit(b: bool): nat { if b then 1 else 0 }

  // The threads that are freeing v.
  function FreersOf(s: Table, v: nat): set<int> {
    set j | 0 <= j < |s.threads| && Frees(s.threads[j]) && s.threads[j].v == v
  }

  // In how many places v is.
  function Places(s: Table, main: seq<nat>, alt: seq<nat>, hand: seq<nat>, v: nat): nat {
    Bit(v in main) + Bit(v in alt) + Bit(v in hand) + Bit(v in s.out) + |FreersOf(s, v)|
  }

  lemma OneFreer(s: Table, l: Ledger, v: nat)
    requires Inv(s, l) && v < |l.place|
    ensures |FreersOf(s, v)| == Bit(l.place[v].Freeing?)
  {
    if l.place[v].Freeing? {
      assert FreersOf(s, v) == {l.place[v].who};
    } else {
      assert FreersOf(s, v) == {};
    }
  }

  lemma OnePlaceEach(s: Table, l: Ledger, v: nat)
    requires Inv(s, l) && v < |s.next|
    ensures Places(s, l.main, l.alt, l.moving + l.moved, v) == 1
  {
    OneFreer(s, l, v);
  }

  // At every moment the two free lists, the chains in the hand of the owner of the table
  // lock, what clients hold and what is being freed divide all handles among them, and no
  // entry that does not exist has been used. What is in hand is what the owner can reach
  // from its own variables, and nothing when there is no owner.
  lemma HandlesPartitioned(states: seq<Table>, who: seq<nat>, what: seq<Action>, k: nat) returns (l: Ledger)
    requires Run(states, who, what) && k < |states|
    ensures var s := states[k];
      && LinkedTo(s.next, s.free, l.main, INVALID) && LinkedTo(s.next, s.freeAlt, l.alt, INVALID)
      && LockOwned(s) && InHand(s, l, Owner(s))
      && Distinct(l.main) && Distinct(l.alt) && Distinct(l.moving + l.moved)
      && (forall v: nat :: v < |s.next| ==> Places(s, l.main, l.alt, l.moving + l.moved, v) == 1)
      && !s.fault
  {
    var s := states[k];
    l := Reached(states, who, what, k);
    forall v: nat | v < |s.next| ensures Places(s, l.main, l.alt, l.moving + l.moved, v) == 1 {
      OnePlaceEach(s, l, v);
    }
  }

  // A successful compare-exchange of an allocation takes the head of the main list,
  // which nobody holds, and installs its true successor.
  lemma NoAba(states: seq<Table>, who: seq<nat>, what: seq<Action>, k: nat) returns (main: seq<nat>)
    requires Run(states, who, what) && k < |who| && what[k] == Go
    requires var s, i := states[k], who[k]; s.threads[i].Ready? && s.free == s.threads[i].f
    ensures var s, s', f := states[k], states[k + 1], states[k].free;
      && LinkedTo(s.next, s.free, main, INVALID) && Distinct(main) && main != [] && main[0] == f
      && f !in s.out && s'.out == s.out + {f}
      && LinkedTo(s'.next, s'.free, main[1..], INVALID)
  {
    var s, i := states[k], who[k];
    var l := Reached(states, who, what, k);
    main := l.main;
    TrueSuccessor(s, l, i);
    LinkedPop(s.next, s.free, main, INVALID);
  }
}
