// The lock word counts its owners and waiters exactly, writers exclude everybody else,
// and no wake-up is lost.
module FastLockSafety {
  import opened FastLock

  // What the threads add up to. An owner is one until the compare-exchange that gives the
  // lock up; an heir has been woken to be the next exclusive owner but is not it yet; a due
  // token is one that a thread is about to put into a semaphore.
  datatype Tally = Tally(
    writers: nat, readers: nat, heirs: nat, exclusiveBlocked: nat, sharedBlocked: nat, exclusiveDue: nat, sharedDue: nat)

  function Bit(b: bool): nat { if b then 1 else 0 }

  function Of(t: Thread): Tally {
    Tally(
      Bit(t.ExOwn? || t.ExLeave? || t.ExDrop?),
      Bit(t.ShOwn? || t.ShLeave? || t.ShDrop?),
      Bit(t.ExWoken? || t.ExClaim?),
      Bit(t.ExWait?),
      Bit(t.ShWait?),
      Bit(t.SignalExclusive?),
      if t.SignalShared? then t.n else 0)
  }

  function Plus(a: Tally, b: Tally): Tally {
    Tally(a.writers + b.writers, a.readers + b.readers, a.heirs + b.heirs, a.exclusiveBlocked + b.exclusiveBlocked,
          a.sharedBlocked + b.sharedBlocked, a.exclusiveDue + b.exclusiveDue, a.sharedDue + b.sharedDue)
  }

  function Sum(ts: seq<Thread>): Tally {
    if ts == [] then Tally(0, 0, 0, 0, 0, 0, 0) else Plus(Sum(ts[..|ts| - 1]), Of(ts[|ts| - 1]))
  }

  lemma {:induction false} SumUpdate(ts: seq<Thread>, i: nat, t: Thread)
    requires i < |ts|
    ensures Plus(Sum(ts[i := t]), Of(ts[i])) == Plus(Sum(ts), Of(t))
  {
    hide Of;
    var n := |ts| - 1;
    if i < n {
      assert ts[i := t][..n] == ts[..n][i := t];
      SumUpdate(ts[..n], i, t);
    } else {
      assert ts[i := t][..n] == ts[..n];
    }
  }

  // Every thread is at most one of these.
  lemma {:induction false} SumBound(ts: seq<Thread>)
    ensures var c := Sum(ts); c.writers + c.readers + c.heirs + c.exclusiveBlocked + c.sharedBlocked + c.exclusiveDue <= |ts|
  {
    if ts != [] {
      SumBound(ts[..|ts| - 1]);
    }
  }

  lemma {:induction false} SumIdle(ts: seq<Thread>)
    requires forall k :: 0 <= k < |ts| ==> ts[k] == Idle
    ensures Sum(ts) == Tally(0, 0, 0, 0, 0, 0, 0)
  {
    if ts != [] {
      var r := ts[..|ts| - 1];
      assert forall k :: 0 <= k < |r| ==> r[k] == ts[k];
      SumIdle(r);
      assert Of(ts[|ts| - 1]) == Tally(0, 0, 0, 0, 0, 0, 0);
    }
  }

  predicate Bounds(owned: nat, waking: nat, owners: nat, sharedWaiters: nat, exclusiveWaiters: nat) {
    owned <= 1 && waking <= 1 && owners < FIELD && sharedWaiters < FIELD && exclusiveWaiters < FIELD
  }

  lemma LowBits(v: nat, owned: nat, waking: nat, q: nat)
    requires v == owned + 2 * waking + 4 * q && owned <= 1 && waking <= 1
    ensures v % 2 == owned && v / 2 % 2 == waking && v / 4 == q
  {
    assert v / 2 == waking + 2 * q;
    if owned == 0 {
      assert v % 2 == 0;
    } else {
      assert v % 2 == 1;
    }
  }

  lemma Digit(v: nat, low: nat, q: nat)
    requires v == low + FIELD * q && low < FIELD
    ensures v % FIELD == low
  {
  }

  // Packing loses nothing and fits in 32 bits.
  lemma Unpacked(owned: nat, waking: nat, owners: nat, sharedWaiters: nat, exclusiveWaiters: nat)
    requires Bounds(owned, waking, owners, sharedWaiters, exclusiveWaiters)
    ensures var v := Pack(owned, waking, owners, sharedWaiters, exclusiveWaiters);
      && v < WORD
      && Owned(v) == owned && Waking(v) == waking && SharedOwners(v) == owners
      && SharedWaiters(v) == sharedWaiters && ExclusiveWaiters(v) == exclusiveWaiters
  {
    var v := Pack(owned, waking, owners, sharedWaiters, exclusiveWaiters);
    var upper := sharedWaiters + FIELD * exclusiveWaiters;
    LowBits(v, owned, waking, owners + FIELD * upper);
    Digit(owners + FIELD * upper, owners, upper);
    assert v / SHARED_WAITER == upper;
    Digit(upper, sharedWaiters, exclusiveWaiters);
    assert v / EXCLUSIVE_WAITER == exclusiveWaiters;
  }

  // What a thread that has loaded v knows of it.
  predicate Local(t: Thread) {
    match t
    case ExTry(v) => Owned(v) == 0 && Waking(v) == 0
    case TryEx(v) => Owned(v) == 0 && Waking(v) == 0
    case ExMake(v) => Owned(v) == 1 || Waking(v) == 1
    case ExQueue(v) => Owned(v) == 1 || Waking(v) == 1
    case ShTry(v) => Owned(v) == 0 && Waking(v) == 0 && ExclusiveWaiters(v) == 0
    case ShJoin(v) => SharedOwners(v) > 0 && Waking(v) == 0 && ExclusiveWaiters(v) == 0
    case TrySh(v, join) => (if join then SharedOwners(v) > 0 else Owned(v) == 0) && Waking(v) == 0 && ExclusiveWaiters(v) == 0
    case ShMake(v) => MustWait(v)
    case ShQueue(v) => MustWait(v)
    case SignalShared(n) => n > 0
    case _ => true
  }

  predicate MustWait(v: nat) {
    Waking(v) != 0 || ExclusiveWaiters(v) != 0 || (if Owned(v) == 0 then SharedOwners(v) != 0 else SharedOwners(v) == 0)
  }

  // The five fields, computed from what the threads are doing and the tokens.
  function OwnedBit(c: Tally): nat { c.writers + Bit(c.readers > 0) }
  function WakingBit(s: State, c: Tally): nat { s.exclusive + c.exclusiveDue + c.heirs }
  function ExclusiveQueue(s: State, c: Tally): int { c.exclusiveBlocked - s.exclusive - c.exclusiveDue }
  function SharedQueue(s: State, c: Tally): int { c.sharedBlocked - s.shared - c.sharedDue }

  predicate Counted(s: State, c: Tally) {
    && OwnedBit(c) + WakingBit(s, c) <= 1
    && 0 <= SharedQueue(s, c) && 0 <= ExclusiveQueue(s, c)
    && c.readers < FIELD && c.sharedBlocked < FIELD && c.exclusiveBlocked < FIELD
    && s.word == Pack(OwnedBit(c), WakingBit(s, c), c.readers, SharedQueue(s, c), ExclusiveQueue(s, c))
    && (ExclusiveQueue(s, c) > 0 ==> OwnedBit(c) + WakingBit(s, c) == 1)
    && (SharedQueue(s, c) > 0 ==> c.writers == 1 || WakingBit(s, c) == 1 || ExclusiveQueue(s, c) > 0)
  }

  predicate Made(s: State) {
    && !s.fault
    && forall t :: t in s.threads ==>
        && Local(t)
        && (t.ExQueue? || t.ExWait? ==> s.exclusiveMade)
        && (t.ShQueue? || t.ShWait? ==> s.sharedMade)
  }

  predicate Inv(s: State) {
    |s.threads| <= MAXIMUM_THREADS && Made(s) && Counted(s, Sum(s.threads))
  }

  // ---------- one action ----------

  // The tally includes the thread t.
  predicate Has(c: Tally, t: Thread) {
    && c.writers >= Of(t).writers && c.readers >= Of(t).readers && c.heirs >= Of(t).heirs
    && c.exclusiveBlocked >= Of(t).exclusiveBlocked && c.sharedBlocked >= Of(t).sharedBlocked
    && c.exclusiveDue >= Of(t).exclusiveDue && c.sharedDue >= Of(t).sharedDue
  }

  // The tally when one thread goes from t to u.
  function Swap(c: Tally, t: Thread, u: Thread): Tally
    requires Has(c, t)
  {
    Tally(c.writers - Of(t).writers + Of(u).writers, c.readers - Of(t).readers + Of(u).readers,
          c.heirs - Of(t).heirs + Of(u).heirs, c.exclusiveBlocked - Of(t).exclusiveBlocked + Of(u).exclusiveBlocked,
          c.sharedBlocked - Of(t).sharedBlocked + Of(u).sharedBlocked,
          c.exclusiveDue - Of(t).exclusiveDue + Of(u).exclusiveDue, c.sharedDue - Of(t).sharedDue + Of(u).sharedDue)
  }

  lemma SwapFromPlus(c: Tally, d: Tally, e: Tally, t: Thread, u: Thread)
    requires Plus(d, Of(t)) == Plus(c, Of(u)) && Plus(e, Of(t)) == Plus(c, Of(Idle))
    ensures Has(c, t) && d == Swap(c, t, u)
  {
    hide Sum;
  }

  lemma Swapped(ts: seq<Thread>, i: nat, u: Thread)
    requires i < |ts|
    ensures Has(Sum(ts), ts[i]) && Sum(ts[i := u]) == Swap(Sum(ts), ts[i], u)
  {
    SumUpdate(ts, i, u);
    SumUpdate(ts, i, Idle);
    SwapFromPlus(Sum(ts), Sum(ts[i := u]), Sum(ts[i := Idle]), ts[i], u);
  }

  // ---------- the word follows the tally ----------

  lemma FieldsOf(s: State, c: Tally)
    requires Counted(s, c)
    ensures Owned(s.word) == OwnedBit(c) && Waking(s.word) == WakingBit(s, c) && SharedOwners(s.word) == c.readers
    ensures SharedWaiters(s.word) == SharedQueue(s, c) && ExclusiveWaiters(s.word) == ExclusiveQueue(s, c)
  {
    Unpacked(OwnedBit(c), WakingBit(s, c), c.readers, SharedQueue(s, c), ExclusiveQueue(s, c));
  }

  // A sum that is the packing of five fields in range neither carries nor wraps.
  lemma NoCarry(v: nat, change: int, owned: nat, waking: nat, owners: nat, sharedWaiters: nat, exclusiveWaiters: nat)
    requires v + change == Pack(owned, waking, owners, sharedWaiters, exclusiveWaiters)
    requires Bounds(owned, waking, owners, sharedWaiters, exclusiveWaiters)
    ensures (v + change) % WORD == Pack(owned, waking, owners, sharedWaiters, exclusiveWaiters)
  {
    Unpacked(owned, waking, owners, sharedWaiters, exclusiveWaiters);
  }

  // s' has stored v + change, and its tally is c'.
  lemma StoredCounts(s: State, c: Tally, s': State, c': Tally, change: int)
    requires s'.word == (s.word + change) % WORD
    requires OwnedBit(c') + WakingBit(s', c') <= 1 && 0 <= SharedQueue(s', c') && 0 <= ExclusiveQueue(s', c')
    requires c'.readers < FIELD && c'.sharedBlocked < FIELD && c'.exclusiveBlocked < FIELD
    requires s.word + change == Pack(OwnedBit(c'), WakingBit(s', c'), c'.readers, SharedQueue(s', c'), ExclusiveQueue(s', c'))
    ensures s'.word == Pack(OwnedBit(c'), WakingBit(s', c'), c'.readers, SharedQueue(s', c'), ExclusiveQueue(s', c'))
  {
    NoCarry(s.word, change, OwnedBit(c'), WakingBit(s', c'), c'.readers, SharedQueue(s', c'), ExclusiveQueue(s', c'));
  }

  lemma ExclusiveTaken(s: State, c: Tally, t: Thread)
    requires Counted(s, c) && (t.ExTry? || t.TryEx?) && Owned(s.word) == 0 && Waking(s.word) == 0 && c.writers + 1 < FIELD
    ensures Counted(Stored(s, OWNED), Swap(c, t, ExOwn))
  {
    hide Owned, Waking, SharedOwners, SharedWaiters, ExclusiveWaiters;
    FieldsOf(s, c);
    assert Swap(c, t, ExOwn) == c.(writers := c.writers + 1);
    StoredCounts(s, c, Stored(s, OWNED), c.(writers := c.writers + 1), OWNED);
  }

  lemma ExclusiveQueued(s: State, c: Tally, t: Thread)
    requires Counted(s, c) && t.ExQueue? && (Owned(s.word) == 1 || Waking(s.word) == 1) && c.exclusiveBlocked + 1 < FIELD
    ensures Counted(Stored(s, EXCLUSIVE_WAITER), Swap(c, t, ExWait))
  {
    hide Owned, Waking, SharedOwners, SharedWaiters, ExclusiveWaiters;
    FieldsOf(s, c);
    assert Swap(c, t, ExWait) == c.(exclusiveBlocked := c.exclusiveBlocked + 1);
    StoredCounts(s, c, Stored(s, EXCLUSIVE_WAITER), c.(exclusiveBlocked := c.exclusiveBlocked + 1), EXCLUSIVE_WAITER);
  }

  lemma ExclusiveInherited(s: State, c: Tally, t: Thread)
    requires Counted(s, c) && t.ExClaim? && Has(c, t)
    ensures Counted(Stored(s, OWNED - WAKING), Swap(c, t, ExOwn))
  {
    hide Owned, Waking, SharedOwners, SharedWaiters, ExclusiveWaiters;
    FieldsOf(s, c);
    assert Swap(c, t, ExOwn) == c.(writers := c.writers + 1, heirs := c.heirs - 1);
    StoredCounts(s, c, Stored(s, OWNED - WAKING), c.(writers := c.writers + 1, heirs := c.heirs - 1), OWNED - WAKING);
  }

  lemma SharedTaken(s: State, c: Tally, t: Thread)
    requires Counted(s, c) && (t.ShTry? || t.TrySh?) && Owned(s.word) == 0 && Waking(s.word) == 0 && c.readers + 1 < FIELD
    requires ExclusiveWaiters(s.word) == 0
    ensures Counted(Stored(s, OWNED + SHARED_OWNER), Swap(c, t, ShOwn))
  {
    hide Owned, Waking, SharedOwners, SharedWaiters, ExclusiveWaiters;
    FieldsOf(s, c);
    assert Swap(c, t, ShOwn) == c.(readers := c.readers + 1);
    StoredCounts(s, c, Stored(s, OWNED + SHARED_OWNER), c.(readers := c.readers + 1), OWNED + SHARED_OWNER);
  }

  lemma SharedJoined(s: State, c: Tally, t: Thread)
    requires Counted(s, c) && (t.ShJoin? || t.TrySh?) && SharedOwners(s.word) > 0 && c.readers + 1 < FIELD
    ensures Counted(Stored(s, SHARED_OWNER), Swap(c, t, ShOwn))
  {
    hide Owned, Waking, SharedOwners, SharedWaiters, ExclusiveWaiters;
    FieldsOf(s, c);
    assert Swap(c, t, ShOwn) == c.(readers := c.readers + 1);
    StoredCounts(s, c, Stored(s, SHARED_OWNER), c.(readers := c.readers + 1), SHARED_OWNER);
  }

  lemma SharedQueued(s: State, c: Tally, t: Thread)
    requires Counted(s, c) && t.ShQueue? && MustWait(s.word) && c.sharedBlocked + 1 < FIELD
    ensures Counted(Stored(s, SHARED_WAITER), Swap(c, t, ShWait))
  {
    hide Owned, Waking, SharedOwners, SharedWaiters, ExclusiveWaiters;
    FieldsOf(s, c);
    assert Swap(c, t, ShWait) == c.(sharedBlocked := c.sharedBlocked + 1);
    StoredCounts(s, c, Stored(s, SHARED_WAITER), c.(sharedBlocked := c.sharedBlocked + 1), SHARED_WAITER);
  }

  lemma ExclusiveHandedOver(s: State, c: Tally, t: Thread)
    requires Counted(s, c) && t.ExDrop? && Has(c, t) && ExclusiveWaiters(s.word) > 0
    ensures var change := WAKING - OWNED - EXCLUSIVE_WAITER; Counted(Stored(s, change), Swap(c, t, SignalExclusive))
  {
    hide Owned, Waking, SharedOwners, SharedWaiters, ExclusiveWaiters;
    FieldsOf(s, c);
    var change := WAKING - OWNED - EXCLUSIVE_WAITER;
    assert Swap(c, t, SignalExclusive) == c.(writers := c.writers - 1, exclusiveDue := c.exclusiveDue + 1);
    StoredCounts(s, c, Stored(s, change), c.(writers := c.writers - 1, exclusiveDue := c.exclusiveDue + 1), change);
  }

  lemma ExclusiveGivenUp(s: State, c: Tally, t: Thread, u: Thread)
    requires Counted(s, c) && t.ExDrop? && Has(c, t) && ExclusiveWaiters(s.word) == 0
    requires u == if SharedWaiters(s.word) > 0 then SignalShared(SharedWaiters(s.word)) else Idle
    ensures var change := -1 * (Owned(s.word) + SHARED_WAITER * SharedWaiters(s.word));
      s.word + change >= 0 && Counted(Stored(s, change), Swap(c, t, u))
  {
    hide Owned, Waking, SharedOwners, SharedWaiters, ExclusiveWaiters;
    FieldsOf(s, c);
    var change := -1 * (Owned(s.word) + SHARED_WAITER * SharedWaiters(s.word));
    StoredCounts(s, c, Stored(s, change), Swap(c, t, u), change);
  }

  lemma SharedLeft(s: State, c: Tally, t: Thread)
    requires Counted(s, c) && t.ShDrop? && Has(c, t) && SharedOwners(s.word) > 1
    ensures Counted(Stored(s, -SHARED_OWNER), Swap(c, t, Idle))
  {
    hide Owned, Waking, SharedOwners, SharedWaiters, ExclusiveWaiters;
    FieldsOf(s, c);
    assert Swap(c, t, Idle) == c.(readers := c.readers - 1);
    StoredCounts(s, c, Stored(s, -SHARED_OWNER), c.(readers := c.readers - 1), -SHARED_OWNER);
  }

  lemma SharedHandedOver(s: State, c: Tally, t: Thread)
    requires Counted(s, c) && t.ShDrop? && Has(c, t) && SharedOwners(s.word) <= 1 && ExclusiveWaiters(s.word) > 0
    ensures var change := WAKING - OWNED - SHARED_OWNER - EXCLUSIVE_WAITER;
      Counted(Stored(s, change), Swap(c, t, SignalExclusive))
  {
    hide Owned, Waking, SharedOwners, SharedWaiters, ExclusiveWaiters;
    FieldsOf(s, c);
    var change := WAKING - OWNED - SHARED_OWNER - EXCLUSIVE_WAITER;
    assert c.readers == 1 && c.writers == 0 && WakingBit(s, c) == 0;
    assert Swap(c, t, SignalExclusive) == c.(readers := c.readers - 1, exclusiveDue := c.exclusiveDue + 1);
    StoredCounts(s, c, Stored(s, change), c.(readers := c.readers - 1, exclusiveDue := c.exclusiveDue + 1), change);
  }

  lemma SharedGivenUp(s: State, c: Tally, t: Thread)
    requires Counted(s, c) && t.ShDrop? && Has(c, t) && SharedOwners(s.word) <= 1 && ExclusiveWaiters(s.word) == 0
    ensures Counted(Stored(s, -OWNED - SHARED_OWNER), Swap(c, t, Idle))
  {
    hide Has, Owned, Waking, SharedOwners, SharedWaiters, ExclusiveWaiters;
    FieldsOf(s, c);
    assert Swap(c, t, Idle) == c.(readers := c.readers - 1);
    StoredCounts(s, c, Stored(s, -OWNED - SHARED_OWNER), c.(readers := c.readers - 1), -OWNED - SHARED_OWNER);
  }

  // Tokens go from a thread to a semaphore and from a semaphore to a thread.
  lemma ExclusiveSignalled(s: State, c: Tally, t: Thread)
    requires Counted(s, c) && Has(c, t) && t.SignalExclusive?
    ensures Counted(s.(exclusive := s.exclusive + 1), Swap(c, t, Idle))
  {
    hide Pack, Has;
  }

  lemma SharedSignalled(s: State, c: Tally, t: Thread)
    requires Counted(s, c) && Has(c, t) && t.SignalShared?
    ensures Counted(s.(shared := s.shared + t.n), Swap(c, t, Idle))
  {
    hide Pack, Has;
  }

  lemma ExclusiveWoken(s: State, c: Tally, t: Thread)
    requires Counted(s, c) && Has(c, t) && t.ExWait? && s.exclusive > 0
    ensures Counted(s.(exclusive := s.exclusive - 1), Swap(c, t, ExWoken))
  {
    hide Pack, Has;
  }

  lemma SharedWoken(s: State, c: Tally, t: Thread)
    requires Counted(s, c) && Has(c, t) && t.ShWait? && s.shared > 0
    ensures Counted(s.(shared := s.shared - 1), Swap(c, t, ShLoad))
  {
    hide Pack, Has;
  }
}
