// The lock over whole runs.
module FastLockRuns {
  import opened FastLock
  import opened FastLockSafety

  lemma {:induction false} SomeoneWaits(ts: seq<Thread>) returns (i: nat, j: nat)
    ensures Sum(ts).exclusiveBlocked > 0 ==> i < |ts| && ts[i].ExWait?
    ensures Sum(ts).sharedBlocked > 0 ==> j < |ts| && ts[j].ShWait?
  {
    i, j := 0, 0;
    if ts != [] {
      var n := |ts| - 1;
      i, j := SomeoneWaits(ts[..n]);
      if ts[n].ExWait? { i := n; }
      if ts[n].ShWait? { j := n; }
    }
  }

  lemma SwapSame(c: Tally, t: Thread, u: Thread)
    requires Has(c, t) && Of(u) == Of(t)
    ensures Swap(c, t, u) == c
  {
  }

  lemma CountedSame(s: State, s': State, c: Tally)
    requires Counted(s, c) && s'.word == s.word && s'.exclusive == s.exclusive && s'.shared == s.shared
    ensures Counted(s', c)
  {
  }

  // One thread went on to u while the shared fields became those of r.
  lemma Stepped(s: State, i: nat, u: Thread, r: State)
    requires Inv(s) && i < |s.threads| && r.threads == s.threads
    requires Has(Sum(s.threads), s.threads[i]) && Counted(r, Swap(Sum(s.threads), s.threads[i], u))
    requires !r.fault && (s.exclusiveMade ==> r.exclusiveMade) && (s.sharedMade ==> r.sharedMade)
    requires Local(u) && (u.ExQueue? || u.ExWait? ==> r.exclusiveMade) && (u.ShQueue? || u.ShWait? ==> r.sharedMade)
    ensures Inv(To(r, i, u))
  {
    hide Counted, Sum, Of, Swap, Local;
    Swapped(s.threads, i, u);
    CountedSame(r, To(r, i, u), Swap(Sum(s.threads), s.threads[i], u));
  }

  // A thread that counts as the same before and after.
  lemma Plain(s: State, i: nat, u: Thread, r: State)
    requires Inv(s) && i < |s.threads| && Of(u) == Of(s.threads[i]) && Local(u)
    requires r == s.(exclusiveMade := r.exclusiveMade, sharedMade := r.sharedMade)
    requires (s.exclusiveMade ==> r.exclusiveMade) && (s.sharedMade ==> r.sharedMade)
    requires (u.ExQueue? || u.ExWait? ==> r.exclusiveMade) && (u.ShQueue? || u.ShWait? ==> r.sharedMade)
    ensures Inv(To(r, i, u))
  {
    Swapped(s.threads, i, u);
    SwapSame(Sum(s.threads), s.threads[i], u);
    CountedSame(s, r, Sum(s.threads));
    Stepped(s, i, u, r);
  }

  // There is room in every field for one thread more, since it is one of at most 1023.
  lemma Room(s: State, i: nat, u: Thread)
    requires Inv(s) && i < |s.threads|
    ensures var c := Sum(s.threads); var t := s.threads[i];
      && Has(c, t)
      && c.writers - Of(t).writers + Of(u).writers < FIELD && c.readers - Of(t).readers + Of(u).readers < FIELD
      && c.exclusiveBlocked - Of(t).exclusiveBlocked + Of(u).exclusiveBlocked < FIELD
      && c.sharedBlocked - Of(t).sharedBlocked + Of(u).sharedBlocked < FIELD
  {
    Swapped(s.threads, i, u);
    SumBound(s.threads[i := u]);
  }

  lemma TakeKeeps(s: State, i: nat, t: Thread)
    requires Inv(s) && i < |s.threads| && t == s.threads[i] && (t.ExTry? || t.TryEx?) && s.word == t.v
    ensures Inv(To(Stored(s, OWNED), i, ExOwn))
  {
    assert Local(t);
    Room(s, i, ExOwn);
    ExclusiveTaken(s, Sum(s.threads), t);
    Stepped(s, i, ExOwn, Stored(s, OWNED));
  }

  lemma QueueKeeps(s: State, i: nat, t: Thread)
    requires Inv(s) && i < |s.threads| && t == s.threads[i] && t.ExQueue? && s.word == t.v
    ensures Inv(To(Stored(s, EXCLUSIVE_WAITER), i, ExWait))
  {
    assert Local(t);
    Room(s, i, ExWait);
    ExclusiveQueued(s, Sum(s.threads), t);
    Stepped(s, i, ExWait, Stored(s, EXCLUSIVE_WAITER));
  }

  lemma InheritKeeps(s: State, i: nat, t: Thread)
    requires Inv(s) && i < |s.threads| && t == s.threads[i] && t.ExClaim? && s.word == t.v
    ensures Inv(To(Stored(s, OWNED - WAKING), i, ExOwn))
  {
    Room(s, i, ExOwn);
    ExclusiveInherited(s, Sum(s.threads), t);
    Stepped(s, i, ExOwn, Stored(s, OWNED - WAKING));
  }

  lemma WakeKeeps(s: State, i: nat)
    requires Inv(s) && i < |s.threads| && s.threads[i].ExWait? && s.exclusive > 0
    ensures Inv(To(s.(exclusive := s.exclusive - 1), i, ExWoken))
  {
    Room(s, i, ExWoken);
    ExclusiveWoken(s, Sum(s.threads), s.threads[i]);
    Stepped(s, i, ExWoken, s.(exclusive := s.exclusive - 1));
  }

  lemma ExclusiveKeeps(s: State, i: nat, t: Thread)
    requires Inv(s) && i < |s.threads| && t == s.threads[i]
    requires t.ExTry? || t.TryEx? || t.ExMake? || t.ExQueue? || t.ExWait? || t.ExWoken? || t.ExClaim?
    ensures Inv(Exclusive(s, i, t))
  {
    hide Counted, Sum;
    match t
    case ExTry(v) => if s.word == v { TakeKeeps(s, i, t); } else { Plain(s, i, ExLoad, s); }
    case TryEx(v) => if s.word == v { TakeKeeps(s, i, t); } else { Plain(s, i, Idle, s); }
    case ExMake(v) =>
      assert Local(t);
      Plain(s, i, ExQueue(v), s.(exclusiveMade := true));
    case ExQueue(v) => if s.word == v { QueueKeeps(s, i, t); } else { Plain(s, i, ExLoad, s); }
    case ExWait => if s.exclusive > 0 { WakeKeeps(s, i); }
    case ExWoken => Plain(s, i, ExClaim(s.word), s);
    case ExClaim(v) => if s.word == v { InheritKeeps(s, i, t); } else { Plain(s, i, ExWoken, s); }
  }

  lemma ShareKeeps(s: State, i: nat, t: Thread)
    requires Inv(s) && i < |s.threads| && t == s.threads[i] && (t.ShTry? || (t.TrySh? && !t.join)) && s.word == t.v
    ensures Inv(To(Stored(s, OWNED + SHARED_OWNER), i, ShOwn))
  {
    hide Counted, Sum;
    assert Local(t);
    Room(s, i, ShOwn);
    SharedTaken(s, Sum(s.threads), t);
    Stepped(s, i, ShOwn, Stored(s, OWNED + SHARED_OWNER));
  }

  lemma JoinKeeps(s: State, i: nat, t: Thread)
    requires Inv(s) && i < |s.threads| && t == s.threads[i] && (t.ShJoin? || (t.TrySh? && t.join)) && s.word == t.v
    ensures Inv(To(Stored(s, SHARED_OWNER), i, ShOwn))
  {
    hide Counted, Sum;
    assert Local(t);
    Room(s, i, ShOwn);
    SharedJoined(s, Sum(s.threads), t);
    Stepped(s, i, ShOwn, Stored(s, SHARED_OWNER));
  }

  lemma SharedQueueKeeps(s: State, i: nat, t: Thread)
    requires Inv(s) && i < |s.threads| && t == s.threads[i] && t.ShQueue? && s.word == t.v
    ensures Inv(To(Stored(s, SHARED_WAITER), i, ShWait))
  {
    assert Local(t);
    Room(s, i, ShWait);
    SharedQueued(s, Sum(s.threads), t);
    Stepped(s, i, ShWait, Stored(s, SHARED_WAITER));
  }

  lemma SharedWakeKeeps(s: State, i: nat)
    requires Inv(s) && i < |s.threads| && s.threads[i].ShWait? && s.shared > 0
    ensures Inv(To(s.(shared := s.shared - 1), i, ShLoad))
  {
    Room(s, i, ShLoad);
    SharedWoken(s, Sum(s.threads), s.threads[i]);
    Stepped(s, i, ShLoad, s.(shared := s.shared - 1));
  }

  lemma SharedKeeps(s: State, i: nat, t: Thread)
    requires Inv(s) && i < |s.threads| && t == s.threads[i]
    requires t.ShTry? || t.ShJoin? || t.ShMake? || t.ShQueue? || t.ShWait? || t.TrySh?
    ensures Inv(Shared(s, i, t))
  {
    hide Counted, Sum;
    match t
    case ShTry(v) => if s.word == v { ShareKeeps(s, i, t); } else { Plain(s, i, ShLoad, s); }
    case ShJoin(v) => if s.word == v { JoinKeeps(s, i, t); } else { Plain(s, i, ShLoad, s); }
    case ShMake(v) =>
      assert Local(t);
      Plain(s, i, ShQueue(v), s.(sharedMade := true));
    case ShQueue(v) => if s.word == v { SharedQueueKeeps(s, i, t); } else { Plain(s, i, ShLoad, s); }
    case ShWait => if s.shared > 0 { SharedWakeKeeps(s, i); }
    case TrySh(v, join) =>
      if s.word != v { Plain(s, i, Idle, s); } else if join { JoinKeeps(s, i, t); } else { ShareKeeps(s, i, t); }
  }

  lemma HandOverKeeps(s: State, i: nat, t: Thread)
    requires Inv(s) && i < |s.threads| && t == s.threads[i] && t.ExDrop? && ExclusiveWaiters(s.word) > 0
    ensures Inv(To(Stored(s, WAKING - OWNED - EXCLUSIVE_WAITER), i, SignalExclusive))
  {
    Room(s, i, SignalExclusive);
    ExclusiveHandedOver(s, Sum(s.threads), t);
    Stepped(s, i, SignalExclusive, Stored(s, WAKING - OWNED - EXCLUSIVE_WAITER));
  }

  lemma GiveUpKeeps(s: State, i: nat, t: Thread, v: nat, u: Thread)
    requires Inv(s) && i < |s.threads| && t == s.threads[i] && t.ExDrop? && v == s.word && ExclusiveWaiters(v) == 0
    requires u == if SharedWaiters(v) > 0 then SignalShared(SharedWaiters(v)) else Idle
    ensures Inv(To(Stored(s, -1 * (Owned(v) + SHARED_WAITER * SharedWaiters(v))), i, u))
  {
    hide Counted, Of, SharedQueue, Sum, WakingBit;
    Room(s, i, u);
    ExclusiveGivenUp(s, Sum(s.threads), t, u);
    Stepped(s, i, u, Stored(s, -1 * (Owned(v) + SHARED_WAITER * SharedWaiters(v))));
  }

  lemma ExclusiveDropKeeps(s: State, i: nat, t: Thread, v: nat)
    requires Inv(s) && i < |s.threads| && t == s.threads[i] && t == ExDrop(v)
    ensures Inv(ExclusiveDrop(s, i, v))
  {
    hide Inv, Owned;
    if s.word != v {
      Plain(s, i, ExLeave, s);
    } else if ExclusiveWaiters(v) > 0 {
      HandOverKeeps(s, i, t);
    } else {
      GiveUpKeeps(s, i, t, v, if SharedWaiters(v) > 0 then SignalShared(SharedWaiters(v)) else Idle);
    }
  }

  lemma SharedDropKeeps(s: State, i: nat, t: Thread)
    requires Inv(s) && i < |s.threads| && t == s.threads[i] && t.ShDrop?
    ensures Inv(SharedDrop(s, i, t.v))
  {
    hide Counted, ExclusiveQueue, Sum;
    var c := Sum(s.threads);
    Room(s, i, Idle);
    if s.word != t.v {
      Plain(s, i, ShLeave, s);
    } else if SharedOwners(t.v) > 1 {
      SharedLeft(s, c, t);
      Stepped(s, i, Idle, Stored(s, -SHARED_OWNER));
    } else if ExclusiveWaiters(t.v) > 0 {
      SharedHandedOver(s, c, t);
      Stepped(s, i, SignalExclusive, Stored(s, WAKING - OWNED - SHARED_OWNER - EXCLUSIVE_WAITER));
    } else {
      SharedGivenUp(s, c, t);
      Stepped(s, i, Idle, Stored(s, -OWNED - SHARED_OWNER));
    }
  }

  // Whoever puts tokens into a semaphore finds it created: somebody waits on it.
  lemma SemaphoreMade(s: State, i: nat)
    requires Inv(s) && i < |s.threads| && (s.threads[i].SignalExclusive? || s.threads[i].SignalShared?)
    ensures if s.threads[i].SignalExclusive? then s.exclusiveMade else s.sharedMade
  {
    var t := s.threads[i];
    assert Local(t);
    DueIsCounted(s.threads, i);
    var j, k := SomeoneWaits(s.threads);
    if t.SignalExclusive? {
      assert s.threads[j].ExWait? && s.threads[j] in s.threads;
    } else {
      assert s.threads[k].ShWait? && s.threads[k] in s.threads;
    }
  }

  lemma DueIsCounted(ts: seq<Thread>, i: nat)
    requires i < |ts|
    ensures Sum(ts).exclusiveDue >= Of(ts[i]).exclusiveDue && Sum(ts).sharedDue >= Of(ts[i]).sharedDue
  {
    Swapped(ts, i, Idle);
  }

  lemma ExclusiveSignalKeeps(s: State, i: nat, t: Thread)
    requires Inv(s) && i < |s.threads| && t == s.threads[i] && t.SignalExclusive?
    ensures Inv(To(s.(exclusive := s.exclusive + 1), i, Idle))
  {
    Room(s, i, Idle);
    ExclusiveSignalled(s, Sum(s.threads), t);
    Stepped(s, i, Idle, s.(exclusive := s.exclusive + 1));
  }

  lemma SharedSignalKeeps(s: State, i: nat, t: Thread)
    requires Inv(s) && i < |s.threads| && t == s.threads[i] && t.SignalShared?
    ensures Inv(To(s.(shared := s.shared + t.n), i, Idle))
  {
    Room(s, i, Idle);
    SharedSignalled(s, Sum(s.threads), t);
    Stepped(s, i, Idle, s.(shared := s.shared + t.n));
  }

  lemma ReleaseKeeps(s: State, i: nat, t: Thread)
    requires Inv(s) && i < |s.threads| && t == s.threads[i]
    requires t.ExLeave? || t.ExDrop? || t.ShLeave? || t.ShDrop? || t.SignalExclusive? || t.SignalShared?
    ensures Inv(Releasing(s, i, t))
  {
    hide Counted, Sum;
    match t
    case ExLeave => Plain(s, i, ExDrop(s.word), s);
    case ExDrop(v) => ExclusiveDropKeeps(s, i, t, v);
    case ShLeave => Plain(s, i, ShDrop(s.word), s);
    case ShDrop(_) => SharedDropKeeps(s, i, t);
    case SignalExclusive =>
      SemaphoreMade(s, i);
      ExclusiveSignalKeeps(s, i, t);
    case SignalShared(_) =>
      SemaphoreMade(s, i);
      SharedSignalKeeps(s, i, t);
  }

  lemma LoadKeeps(s: State, i: nat, spun: bool)
    requires Inv(s) && i < |s.threads| && (s.threads[i].ExLoad? || s.threads[i].ShLoad?)
    ensures Inv(Loaded(s, i, spun))
  {
    hide Inv, Local;
    Plain(s, i, Loaded(s, i, spun).threads[i], s);
  }

  // A thread goes on to something that counts as the same, and the shared fields stay.
  lemma WentOn(s: State, i: nat, u: Thread)
    requires Inv(s) && i < |s.threads| && Of(u) == Of(s.threads[i]) && Local(u)
    requires !u.ExQueue? && !u.ExWait? && !u.ShQueue? && !u.ShWait?
    ensures Inv(To(s, i, u))
  {
    hide Sum, Of, Local, Inv;
    Plain(s, i, u, s);
  }

  lemma TryKeeps(s: State, i: nat, a: Action)
    requires Inv(s) && Enabled(s, i, a) && (a == TryExclusive || a == TryShared)
    ensures Inv(Act(s, i, a))
  {
    hide Sum, Inv, Owned, Waking, SharedOwners, ExclusiveWaiters, Loaded;
    var v := s.word;
    WentOn(s, i, Idle);
    if a == TryExclusive {
      if Owned(v) == 0 && Waking(v) == 0 {
        WentOn(s, i, TryEx(v));
      }
    } else if Waking(v) == 0 && ExclusiveWaiters(v) == 0 {
      if Owned(v) == 0 {
        WentOn(s, i, TrySh(v, false));
      } else if SharedOwners(v) != 0 {
        WentOn(s, i, TrySh(v, true));
      }
    }
  }

  lemma BeginKeeps(s: State, i: nat, a: Action)
    requires Inv(s) && Enabled(s, i, a) && (a == AcquireExclusive || a == AcquireShared || a == Release)
    ensures Inv(Act(s, i, a))
  {
    hide Sum, Inv, Loaded;
    WentOn(s, i, if a == AcquireExclusive then ExLoad else if a == AcquireShared then ShLoad
                 else if s.threads[i].ExOwn? then ExLeave else ShLeave);
  }

  lemma ActionKeeps(s: State, i: nat, a: Action)
    requires Inv(s) && Enabled(s, i, a)
    ensures Inv(Act(s, i, a))
  {
    hide Sum, Local, Inv, Exclusive, Shared, Releasing, Loaded;
    match a
    case Go =>
      var t := s.threads[i];
      if t.ExLoad? || t.ShLoad? {
        LoadKeeps(s, i, false);
      } else if t.ExTry? || t.ExMake? || t.ExQueue? || t.ExWait? || t.ExWoken? || t.ExClaim? || t.TryEx? {
        ExclusiveKeeps(s, i, t);
      } else if t.ShTry? || t.ShJoin? || t.ShMake? || t.ShQueue? || t.ShWait? || t.TrySh? {
        SharedKeeps(s, i, t);
      } else {
        ReleaseKeeps(s, i, t);
      }
    case Block => LoadKeeps(s, i, true);
    case TryExclusive => TryKeeps(s, i, a);
    case TryShared => TryKeeps(s, i, a);
    case _ => BeginKeeps(s, i, a);
  }

  lemma Started(s: State)
    requires Initial(s)
    ensures Inv(s)
  {
    hide Sum;
    assert forall k :: 0 <= k < |s.threads| ==> s.threads[k] in s.threads;
    SumIdle(s.threads);
  }

  lemma {:induction false} Reached(states: seq<State>, who: seq<nat>, what: seq<Action>, k: nat)
    requires Run(states, who, what) && k < |states|
    ensures Inv(states[k])
  {
    if k == 0 {
      Started(states[0]);
    } else {
      Reached(states, who, what, k - 1);
      ActionKeeps(states[k - 1], who[k - 1], what[k - 1]);
    }
  }

  // ---------- what follows for every run ----------

  predicate Writes(t: Thread) { t.ExOwn? || t.ExLeave? || t.ExDrop? }
  predicate Shares(t: Thread) { t.ShOwn? || t.ShLeave? || t.ShDrop? }

  // Two threads count separately.
  lemma Both(ts: seq<Thread>, i: nat, j: nat)
    requires i < |ts| && j < |ts| && i != j
    ensures Sum(ts).writers >= Of(ts[i]).writers + Of(ts[j]).writers
    ensures Sum(ts).writers >= Of(ts[i]).writers && Sum(ts).readers >= Of(ts[j]).readers
  {
    Swapped(ts, i, Idle);
    Swapped(ts, j, Idle);
    Swapped(ts[i := Idle], j, Idle);
  }

  // There is never a second owner beside an exclusive one.
  lemma MutualExclusion(states: seq<State>, who: seq<nat>, what: seq<Action>, k: nat, i: nat, j: nat)
    requires Run(states, who, what) && k < |states| && i < |states[k].threads| && j < |states[k].threads| && i != j
    requires Writes(states[k].threads[i])
    ensures !Writes(states[k].threads[j]) && !Shares(states[k].threads[j])
  {
    Reached(states, who, what, k);
    Both(states[k].threads, i, j);
  }

  // The word is the packing of five numbers that describe the threads, OWNED never
  // stands together with EXCLUSIVE_WAKING, one of the two is set while anyone is registered
  // as waiting, and no semaphore is used before it exists.
  lemma WordIsExact(states: seq<State>, who: seq<nat>, what: seq<Action>, k: nat)
    requires Run(states, who, what) && k < |states|
    ensures var s := states[k]; var c := Sum(s.threads);
      && s.word < WORD && !s.fault
      && Owned(s.word) == (if c.writers + c.readers > 0 then 1 else 0)
      && Waking(s.word) == s.exclusive + c.exclusiveDue + c.heirs
      && SharedOwners(s.word) == c.readers
      && SharedWaiters(s.word) + s.shared + c.sharedDue == c.sharedBlocked
      && ExclusiveWaiters(s.word) + s.exclusive + c.exclusiveDue == c.exclusiveBlocked
      && Owned(s.word) + Waking(s.word) <= 1
      && (SharedWaiters(s.word) + ExclusiveWaiters(s.word) > 0 ==> Owned(s.word) + Waking(s.word) == 1)
  {
    var s := states[k];
    var c := Sum(s.threads);
    Reached(states, who, what, k);
    FieldsOf(s, c);
    Unpacked(OwnedBit(c), WakingBit(s, c), c.readers, SharedQueue(s, c), ExclusiveQueue(s, c));
  }

  predicate Blocked(t: Thread) { t.ExWait? || t.ShWait? }

  lemma {:induction false} NothingPending(ts: seq<Thread>)
    requires forall j :: 0 <= j < |ts| ==> ts[j].Idle? || Blocked(ts[j])
    ensures var c := Sum(ts); c.writers == c.readers == c.heirs == c.exclusiveDue == c.sharedDue == 0
  {
    if ts != [] {
      var r, t := ts[..|ts| - 1], ts[|ts| - 1];
      assert forall j :: 0 <= j < |r| ==> r[j] == ts[j];
      NothingPending(r);
      assert Of(t).writers == Of(t).readers == Of(t).heirs == Of(t).exclusiveDue == Of(t).sharedDue == 0;
    }
  }

  lemma SomeoneIsCounted(ts: seq<Thread>, i: nat)
    requires i < |ts|
    ensures Sum(ts).exclusiveBlocked >= Of(ts[i]).exclusiveBlocked && Sum(ts).sharedBlocked >= Of(ts[i]).sharedBlocked
  {
    Swapped(ts, i, Idle);
  }

  // No wake-up is lost: when every thread is idle or waits on a semaphore, and one does
  // wait, then one of those that wait finds a token.
  lemma NoLostWakeUp(states: seq<State>, who: seq<nat>, what: seq<Action>, k: nat, i: nat) returns (j: nat)
    requires Run(states, who, what) && k < |states|
    requires forall j :: 0 <= j < |states[k].threads| ==> states[k].threads[j].Idle? || Blocked(states[k].threads[j])
    requires i < |states[k].threads| && Blocked(states[k].threads[i])
    ensures Enabled(states[k], j, Go) && Blocked(states[k].threads[j])
  {
    var s := states[k];
    Reached(states, who, what, k);
    NothingPending(s.threads);
    SomeoneIsCounted(s.threads, i);
    var e, h := SomeoneWaits(s.threads);
    j := if s.exclusive > 0 then e else h;
  }
}
