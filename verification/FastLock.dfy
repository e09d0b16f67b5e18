// A reader/writer lock packed in one 32-bit word, with two semaphores to wait on.
//
// Every load and every compare-exchange of the word, every creation of a semaphore, and
// every wait and release of one is an action of its own. A thread is where it is in the
// code together with the value of the word that it has loaded.
module FastLock {

  const WORD := 0x1_0000_0000
  const OWNED := 1
  const WAKING := 2
  const SHARED_OWNER := 4
  const SHARED_WAITER := 0x1000
  const EXCLUSIVE_WAITER := 0x40_0000
  const FIELD := 0x400
  const MAXIMUM_THREADS := 1023

  datatype Thread =
    | Idle
    // PhfAcquireFastLockExclusive
    | ExLoad
    | ExTry(v: nat)
    | ExMake(v: nat)
    | ExQueue(v: nat)
    | ExWait
    | ExWoken
    | ExClaim(v: nat)
    | ExOwn
    // PhfReleaseFastLockExclusive
    | ExLeave
    | ExDrop(v: nat)
    | SignalExclusive
    | SignalShared(n: nat)
    // PhfAcquireFastLockShared
    | ShLoad
    | ShTry(v: nat)
    | ShJoin(v: nat)
    | ShMake(v: nat)
    | ShQueue(v: nat)
    | ShWait
    | ShOwn
    // PhfReleaseFastLockShared
    | ShLeave
    | ShDrop(v: nat)
    // PhfTryAcquireFastLockExclusive, PhfTryAcquireFastLockShared
    | TryEx(v: nat)
    | TrySh(v: nat, join: bool)

  // exclusive and shared count the tokens of the two semaphores; the flags tell
  // whether the semaphores have been created. fault records the use of one that has not.
  datatype State = State(
    word: nat,
    exclusive: nat,
    shared: nat,
    exclusiveMade: bool,
    sharedMade: bool,
    fault: bool,
    threads: seq<Thread>)

  datatype Action = AcquireExclusive | AcquireShared | TryExclusive | TryShared | Release | Go | Block

  // ---------- the fields of the word ----------

  function Owned(v: nat): nat { v % 2 }
  function Waking(v: nat): nat { v / 2 % 2 }
  function SharedOwners(v: nat): nat { v / SHARED_OWNER % FIELD }
  function SharedWaiters(v: nat): nat { v / SHARED_WAITER % FIELD }
  function ExclusiveWaiters(v: nat): nat { v / EXCLUSIVE_WAITER % FIELD }

  function Pack(owned: nat, waking: nat, sharedOwners: nat, sharedWaiters: nat, exclusiveWaiters: nat): nat {
    owned + WAKING * waking + SHARED_OWNER * sharedOwners + SHARED_WAITER * sharedWaiters + EXCLUSIVE_WAITER * exclusiveWaiters
  }

  // ---------- the actions ----------

  function To(s: State, i: nat, t: Thread): State
    requires i < |s.threads|
  {
    s.(threads := s.threads[i := t])
  }

  // 32-bit addition to the word.
  function Stored(s: State, change: int): State {
    s.(word := (s.word + change) % WORD)
  }

  // Compare-exchange: yes if the word still is v, which becomes (v + change) mod 2^32.
  function Cas(s: State, i: nat, v: nat, change: int, yes: Thread, no: Thread): State
    requires i < |s.threads|
  {
    if s.word == v then To(Stored(s, change), i, yes) else To(s, i, no)
  }

  predicate Enabled(s: State, i: nat, a: Action) {
    && i < |s.threads|
    && var t := s.threads[i];
      match a
      case AcquireExclusive => t.Idle?
      case AcquireShared => t.Idle?
      case TryExclusive => t.Idle?
      case TryShared => t.Idle?
      case Release => t.ExOwn? || t.ShOwn?
      case Block => t.ExLoad? || t.ShLoad?
      case Go => !t.Idle? && !t.ExOwn? && !t.ShOwn? && (t.ExWait? ==> s.exclusive > 0) && (t.ShWait? ==> s.shared > 0)
  }

  function Act(s: State, i: nat, a: Action): State
    requires Enabled(s, i, a)
  {
    match a
    case AcquireExclusive => To(s, i, ExLoad)
    case AcquireShared => To(s, i, ShLoad)
    case TryExclusive => To(s, i, if Owned(s.word) == 0 && Waking(s.word) == 0 then TryEx(s.word) else Idle)
    case TryShared =>
      To(s, i,
         if Waking(s.word) != 0 || ExclusiveWaiters(s.word) != 0 then Idle
         else if Owned(s.word) == 0 then TrySh(s.word, false)
         else if SharedOwners(s.word) != 0 then TrySh(s.word, true)
         else Idle)
    case Release => To(s, i, if s.threads[i].ExOwn? then ExLeave else ShLeave)
    case Block => Loaded(s, i, true)
    case Go =>
      var t := s.threads[i];
      if t.ExLoad? || t.ShLoad? then Loaded(s, i, false)
      else if t.ExTry? || t.ExMake? || t.ExQueue? || t.ExWait? || t.ExWoken? || t.ExClaim? || t.TryEx? then Exclusive(s, i, t)
      else if t.ShTry? || t.ShJoin? || t.ShMake? || t.ShQueue? || t.ShWait? || t.TrySh? then Shared(s, i, t)
      else Releasing(s, i, t)
  }

  // A fresh look at the word; spun says that the spin count has been used up.
  function Loaded(s: State, i: nat, spun: bool): State
    requires i < |s.threads|
  {
    var v := s.word;
    if s.threads[i].ExLoad? then
      To(s, i, if Owned(v) == 0 && Waking(v) == 0 then ExTry(v) else if spun then ExMake(v) else ExLoad)
    else
      To(s, i,
         if Owned(v) == 0 && SharedOwners(v) == 0 && Waking(v) == 0 && ExclusiveWaiters(v) == 0 then ShTry(v)
         else if Owned(v) == 1 && SharedOwners(v) > 0 && Waking(v) == 0 && ExclusiveWaiters(v) == 0 then ShJoin(v)
         else if spun then ShMake(v) else ShLoad)
  }

  function Exclusive(s: State, i: nat, t: Thread): State
    requires i < |s.threads|
  {
    match t
    case ExTry(v) => Cas(s, i, v, OWNED, ExOwn, ExLoad)
    case ExMake(v) => To(s.(exclusiveMade := true), i, ExQueue(v))
    case ExQueue(v) => Cas(s, i, v, EXCLUSIVE_WAITER, ExWait, ExLoad)
    case ExWait => if s.exclusive > 0 then To(s.(exclusive := s.exclusive - 1), i, ExWoken) else s
    case ExWoken => To(s, i, ExClaim(s.word))
    case ExClaim(v) => Cas(s, i, v, OWNED - WAKING, ExOwn, ExWoken)
    case TryEx(v) => Cas(s, i, v, OWNED, ExOwn, Idle)
    case _ => s
  }

  function Shared(s: State, i: nat, t: Thread): State
    requires i < |s.threads|
  {
    match t
    case ShTry(v) => Cas(s, i, v, OWNED + SHARED_OWNER, ShOwn, ShLoad)
    case ShJoin(v) => Cas(s, i, v, SHARED_OWNER, ShOwn, ShLoad)
    case ShMake(v) => To(s.(sharedMade := true), i, ShQueue(v))
    case ShQueue(v) => Cas(s, i, v, SHARED_WAITER, ShWait, ShLoad)
    case ShWait => if s.shared > 0 then To(s.(shared := s.shared - 1), i, ShLoad) else s
    case TrySh(v, join) => Cas(s, i, v, if join then SHARED_OWNER else OWNED + SHARED_OWNER, ShOwn, Idle)
    case _ => s
  }

  function ExclusiveDrop(s: State, i: nat, v: nat): State
    requires i < |s.threads|
  {
    if ExclusiveWaiters(v) > 0
    then Cas(s, i, v, WAKING - OWNED - EXCLUSIVE_WAITER, SignalExclusive, ExLeave)
    else
      // value & ~(OWNED | all shared waiters)
      Cas(s, i, v, -1 * (Owned(v) + SHARED_WAITER * SharedWaiters(v)),
          if SharedWaiters(v) > 0 then SignalShared(SharedWaiters(v)) else Idle, ExLeave)
  }

  function SharedDrop(s: State, i: nat, v: nat): State
    requires i < |s.threads|
  {
    if SharedOwners(v) > 1
    then Cas(s, i, v, -SHARED_OWNER, Idle, ShLeave)
    else if ExclusiveWaiters(v) > 0
    then Cas(s, i, v, WAKING - OWNED - SHARED_OWNER - EXCLUSIVE_WAITER, SignalExclusive, ShLeave)
    else Cas(s, i, v, -OWNED - SHARED_OWNER, Idle, ShLeave)
  }

  function Releasing(s: State, i: nat, t: Thread): State
    requires i < |s.threads|
  {
    match t
    case ExLeave => To(s, i, ExDrop(s.word))
    case ExDrop(v) => ExclusiveDrop(s, i, v)
    case ShLeave => To(s, i, ShDrop(s.word))
    case ShDrop(v) => SharedDrop(s, i, v)
    case SignalExclusive =>
      To(if s.exclusiveMade then s.(exclusive := s.exclusive + 1) else s.(fault := true), i, Idle)
    case SignalShared(n) =>
      To(if s.sharedMade then s.(shared := s.shared + n) else s.(fault := true), i, Idle)
    case _ => s
  }

  predicate Initial(s: State) {
    && s.word == 0 && s.exclusive == 0 && s.shared == 0 && !s.exclusiveMade && !s.sharedMade && !s.fault
    && |s.threads| <= MAXIMUM_THREADS && (forall t :: t in s.threads ==> t == Idle)
  }

  predicate Run(states: seq<State>, who: seq<nat>, what: seq<Action>) {
    && |states| > 0 && |who| == |what| == |states| - 1 && Initial(states[0])
    && forall k :: 0 <= k < |who| ==> Enabled(states[k], who[k], what[k]) && states[k + 1] == Act(states[k], who[k], what[k])
  }
}
