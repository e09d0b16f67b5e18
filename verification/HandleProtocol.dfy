// The free lists of the handle table under concurrency.
//
// Every shared access of the C code (a load, a store, a compare-exchange, taking or
// releasing a lock) is one action of one thread; a thread is where it is in the code
// together with its local variables. Accesses to an entry that no other thread may
// use at the time are joined with the access next to them.
module HandleProtocol {

  const LEVEL_ENTRIES := 256
  const LOCKS := 8
  const INVALID := 0xFFFF_FFFF
  const MAXIMUM_HANDLES := 0x100_0000
  const FREE_COUNT := 64

  datatype Thread =
    | Idle
    // PhpAllocateHandleTableEntry
    | Got(f: nat)
    | Locked(f: nat)
    | Checked(f: nat)
    | Ready(f: nat, n: nat)
    | Unlock(f: nat, won: bool)
    | Again
    | Want
    | Recheck
    | Release(f: nat)
    | Grown(ok: bool)
    | After(ok: bool)
    // PhpMoveFreeHandleTableEntries
    | Swap
    | Passing(index: nat, k: nat)
    | Flags(index: nat)
    | Short(index: nat)
    | Reverse(index: nat, last: nat, first: nat, count: nat, strict: bool)
    | Push(index: nat, first: nat, count: nat, strict: bool)
    | PushCas(index: nat, first: nat, seen: nat, count: nat, strict: bool)
    // PhpAllocateMoreHandleTableEntries
    | Grow
    | Batch(index: nat)
    | BatchCas(index: nat, seen: nat)
    // PhpFreeHandleTableEntry
    | Choose(v: nat)
    | Test(v: nat)
    | Give(v: nat, main: bool)
    | GiveCas(v: nat, main: bool, seen: nat)

  // next holds the NextFreeValue of every entry below NextValue. out is not a field
  // of the table: it is the set of handles that clients hold. fault records an access
  // to an entry that does not exist.
  datatype Table = Table(
    free: nat,
    freeAlt: nat,
    next: seq<nat>,
    strict: bool,
    lock: int,
    threads: seq<Thread>,
    out: set<nat>,
    fault: bool)

  datatype Action =
    | Go
    | Fail
    | Allocate
    | Free(v: nat)
    | Write(v: nat, x: nat)
    | SetStrict(b: bool)

  // The thread holds one of the eight locks in shared mode.
  predicate Holds(t: Thread, l: int) {
    (t.Locked? || t.Checked? || t.Ready? || t.Unlock?) && t.f % LOCKS == l
  }

  // The lock can be had in exclusive mode.
  predicate Vacant(s: Table, l: int) {
    forall j :: 0 <= j < |s.threads| ==> !Holds(s.threads[j], l)
  }

  function To(s: Table, i: nat, t: Thread): Table
    requires i < |s.threads|
  {
    s.(threads := s.threads[i := t])
  }

  function Load(s: Table, v: nat): nat {
    if v < |s.next| then s.next[v] else INVALID
  }

  function Store(s: Table, v: nat, x: nat): Table {
    if v < |s.next| then s.(next := s.next[v := x]) else s.(fault := true)
  }

  function Loaded(f: nat): Thread {
    if f == INVALID then Want else Got(f)
  }

  function Fresh(base: nat): (batch: seq<nat>)
    ensures |batch| == LEVEL_ENTRIES
  {
    seq(LEVEL_ENTRIES, j requires 0 <= j < LEVEL_ENTRIES => if j + 1 < LEVEL_ENTRIES then base + j + 1 else INVALID)
  }

  predicate Enabled(s: Table, i: nat, a: Action) {
    && i < |s.threads|
    && var t := s.threads[i];
      match a
      case Allocate => t.Idle?
      case Free(v) => t.Idle? && v in s.out
      case Write(v, x) => v in s.out && x <= INVALID
      case SetStrict(_) => true
      case Fail => t.Grow? || t.Test?
      case Go =>
        && !t.Idle?
        && (t.Want? ==> s.lock == -1)
        && (t.Passing? ==> t.k < LOCKS && Vacant(s, t.k))
        && (t.Grow? ==> |s.next| + LEVEL_ENTRIES <= MAXIMUM_HANDLES)
        && (t.Test? ==> Vacant(s, t.v % LOCKS))
  }

  function Act(s: Table, i: nat, a: Action): Table
    requires Enabled(s, i, a)
  {
    match a
    case Allocate => To(s, i, Loaded(s.free))
    case Free(v) => To(s.(out := s.out - {v}), i, Choose(v))
    case Write(v, x) => Store(s, v, x)
    case SetStrict(b) => s.(strict := b)
    case Fail => if s.threads[i].Grow? then To(s, i, Grown(false)) else To(s, i, Give(s.threads[i].v, false))
    case Go => Advance(s, i)
  }

  // PhpAllocateHandleTableEntry
  function PopStep(s: Table, i: nat, t: Thread): Table
    requires i < |s.threads|
  {
    match t
    case Got(f) => To(s, i, Locked(f))
    case Locked(f) => To(s, i, if s.free == f then Checked(f) else Unlock(f, false))
    case Checked(f) => To(if f < |s.next| then s else s.(fault := true), i, Ready(f, Load(s, f)))
    case Ready(f, n) =>
      if s.free == f then To(s.(free := n, out := s.out + {f}), i, Unlock(f, true)) else To(s, i, Unlock(f, false))
    case _ => s
  }

  function WaitStep(s: Table, i: nat, t: Thread): Table
    requires i < |s.threads|
  {
    match t
    case Unlock(f, won) => To(s, i, if won then Idle else Again)
    case Again => To(s, i, Loaded(s.free))
    case Want => To(s.(lock := i), i, Recheck)
    case Recheck => To(s, i, if s.free != INVALID then Release(s.free) else Swap)
    case Release(f) => To(s.(lock := -1), i, Got(f))
    case Grown(ok) => To(s.(lock := -1), i, After(ok))
    case After(ok) => To(s, i, if !ok && s.free == INVALID then Idle else Loaded(s.free))
    case _ => s
  }

  // PhpMoveFreeHandleTableEntries
  function DetachStep(s: Table, i: nat, t: Thread): Table
    requires i < |s.threads|
  {
    match t
    case Swap => To(s.(freeAlt := INVALID), i, if s.freeAlt == INVALID then Grow else Passing(s.freeAlt, 0))
    case Passing(index, k) => To(s, i, if k + 1 < LOCKS then Passing(index, k + 1) else Flags(index))
    case Flags(index) => To(s, i, if s.strict then Reverse(index, INVALID, index, 0, true) else Short(index))
    case Short(index) =>
      if s.free == INVALID then To(s.(free := index), i, Release(index)) else To(s, i, Reverse(index, INVALID, index, 0, false))
    case _ => s
  }

  function ReverseStep(s: Table, i: nat, t: Thread): Table
    requires i < |s.threads|
  {
    match t
    case Reverse(index, last, first, count, strict) =>
      var n := Load(s, index);
      To(Store(s, index, last), i,
         if n == INVALID then Push(index, first, count + 1, strict) else Reverse(n, index, first, count + 1, strict))
    case Push(index, first, count, strict) => To(Store(s, first, s.free), i, PushCas(index, first, s.free, count, strict))
    case PushCas(index, first, seen, count, strict) =>
      if s.free == seen
      then To(s.(free := index), i, if strict && count < FREE_COUNT then Grow else Release(index))
      else To(s, i, Push(index, first, count, strict))
    case _ => s
  }

  // PhpAllocateMoreHandleTableEntries
  function GrowStep(s: Table, i: nat, t: Thread): Table
    requires i < |s.threads|
  {
    match t
    case Grow => To(s.(next := s.next + Fresh(|s.next|)), i, Batch(|s.next|))
    case Batch(index) => To(Store(s, index + LEVEL_ENTRIES - 1, s.free), i, BatchCas(index, s.free))
    case BatchCas(index, seen) => if s.free == seen then To(s.(free := index), i, Grown(true)) else To(s, i, Batch(index))
    case _ => s
  }

  // PhpFreeHandleTableEntry
  function FreeStep(s: Table, i: nat, t: Thread): Table
    requires i < |s.threads|
  {
    match t
    case Choose(v) => To(s, i, if s.strict then Give(v, false) else Test(v))
    case Test(v) => To(s, i, Give(v, true))
    case Give(v, main) =>
      var seen := if main then s.free else s.freeAlt;
      To(Store(s, v, seen), i, GiveCas(v, main, seen))
    case GiveCas(v, main, seen) =>
      if (if main then s.free else s.freeAlt) == seen
      then To(if main then s.(free := v) else s.(freeAlt := v), i, Idle)
      else To(s, i, Give(v, main))
    case _ => s
  }

  function Advance(s: Table, i: nat): Table
    requires Enabled(s, i, Go)
  {
    var t := s.threads[i];
    if t.Got? || t.Locked? || t.Checked? || t.Ready? then PopStep(s, i, t)
    else if t.Unlock? || t.Again? || t.Want? || t.Recheck? || t.Release? || t.Grown? || t.After? then WaitStep(s, i, t)
    else if t.Swap? || t.Passing? || t.Flags? || t.Short? then DetachStep(s, i, t)
    else if t.Reverse? || t.Push? || t.PushCas? then ReverseStep(s, i, t)
    else if t.Grow? || t.Batch? || t.BatchCas? then GrowStep(s, i, t)
    else FreeStep(s, i, t)
  }

  predicate Initial(s: Table) {
    && s.free == 0 && s.freeAlt == INVALID && s.next == Fresh(0) && !s.strict && s.lock == -1
    && (forall t :: t in s.threads ==> t == Idle)
    && s.out == {} && !s.fault
  }

  // A run: the initial state and the state after each action.
  predicate Run(states: seq<Table>, who: seq<nat>, what: seq<Action>) {
    && |states| > 0 && |who| == |what| == |states| - 1 && Initial(states[0])
    && forall k :: 0 <= k < |who| ==> Enabled(states[k], who[k], what[k]) && states[k + 1] == Act(states[k], who[k], what[k])
  }
}
