// Callback registration: threads that register, unregister and invoke, over a list under a
// queued lock, with a busy counter for every registration and one condition variable.
//
// The lock is an abstract shared/exclusive lock and every access to shared memory is a
// step. A callback function that uses the callback object itself is one more thread.
module Callback {

  // A link of the list: the head, or the entry of a registration.
  datatype Link = Head | Entry(r: nat)

  datatype Thread =
    | Idle
    // PhRegisterCallbackEx: before the lock, inside it.
    | Registering(r: nat) | Inserting(r: nat)
    // PhUnregisterCallback: before the lock, inside it, on the condition variable, about to
    // unlink the entry.
    | Unregistering(r: nat) | Holding(r: nat) | Waiting(r: nat) | Removing(r: nat)
    // Both: about to release the lock.
    | Releasing
    // PhInvokeCallback: before the lock, at an entry or at the head, about to count itself.
    | Entering | Looking(at: Link) | Counting(r: nat)
    // The counter is up; the function executes; it has returned; the lock is back.
    | Called(r: nat) | Executing(r: nat) | Returned(r: nat) | Back(r: nat)
    // The counter is down to busy; about to pulse; on to the next entry.
    | Left(r: nat, busy: int) | Pulsing(r: nat) | Following(r: nat)

  datatype State = State(list: seq<nat>, busy: seq<int>, leaving: seq<bool>, threads: seq<Thread>)

  datatype Action = StartRegister(r: nat) | StartUnregister(r: nat) | StartInvoke | Go | Wake

  predicate Exclusive(t: Thread) { t.Inserting? || t.Holding? || t.Removing? || t.Releasing? }

  predicate Shared(t: Thread) { t.Looking? || t.Counting? || t.Called? || t.Back? || t.Left? || t.Pulsing? || t.Following? }

  predicate Registers(t: Thread, r: nat) { t == Registering(r) || t == Inserting(r) }

  predicate Unregisters(t: Thread, r: nat) {
    t == Unregistering(r) || t == Holding(r) || t == Waiting(r) || t == Removing(r)
  }

  function First(list: seq<nat>): Link {
    if |list| == 0 then Head else Entry(list[0])
  }

  // Flink of an entry that is in the list.
  function Next(list: seq<nat>, r: nat): Link {
    if |list| == 0 then Head else if list[0] == r then First(list[1..]) else Next(list[1..], r)
  }

  // RemoveEntryList
  function Without(list: seq<nat>, r: nat): seq<nat> {
    if |list| == 0 then [] else if list[0] == r then list[1..] else [list[0]] + Without(list[1..], r)
  }

  // PhPulseAllCondition: everyone on the condition variable goes for the lock again.
  function Woken(ts: seq<Thread>): (w: seq<Thread>)
    ensures |w| == |ts|
    ensures forall k :: 0 <= k < |ts| ==> w[k] == if ts[k].Waiting? then Unregistering(ts[k].r) else ts[k]
  {
    seq(|ts|, k requires 0 <= k < |ts| => if ts[k].Waiting? then Unregistering(ts[k].r) else ts[k])
  }

  function To(s: State, i: nat, t: Thread): State
    requires i < |s.threads|
  {
    s.(threads := s.threads[i := t])
  }

  // Whether thread i can do this now. A caller registers only what is not registered, and
  // unregisters once what is.
  predicate Enabled(s: State, i: nat, a: Action)
  {
    && i < |s.threads|
    && var t := s.threads[i];
       match a
       case StartRegister(r) =>
         t.Idle? && r < |s.busy| && r !in s.list && forall u :: u in s.threads ==> !Registers(u, r)
       case StartUnregister(r) =>
         t.Idle? && r in s.list && forall u :: u in s.threads ==> !Unregisters(u, r)
       case StartInvoke => t.Idle?
       case Wake => t.Waiting?
       case Go =>
         match t
         case Idle => false
         case Waiting(_) => false
         case Registering(_) => forall u :: u in s.threads ==> !Exclusive(u) && !Shared(u)
         case Unregistering(_) => forall u :: u in s.threads ==> !Exclusive(u) && !Shared(u)
         case Entering => forall u :: u in s.threads ==> !Exclusive(u)
         case Returned(_) => forall u :: u in s.threads ==> !Exclusive(u)
         case _ => true
  }

  ghost predicate Named(s: State, t: Thread) {
    && |s.leaving| == |s.busy|
    && (t.Registering? || t.Unregistering? || t.Holding? || t.Counting? || t.Back? || t.Left? ==> t.r < |s.busy|)
    && (t.Looking? && t.at.Entry? ==> t.at.r < |s.busy|)
  }

  function Act(s: State, i: nat, a: Action): State
    requires Enabled(s, i, a) && Named(s, s.threads[i]) && (a.StartUnregister? ==> a.r < |s.leaving|)
  {
    match a
    case StartRegister(r) =>
      To(s.(busy := s.busy[r := 0], leaving := s.leaving[r := false]), i, Registering(r))
    case StartUnregister(r) => To(s.(leaving := s.leaving[r := true]), i, Unregistering(r))
    case StartInvoke => To(s, i, Entering)
    case Wake => To(s, i, Unregistering(s.threads[i].r))
    case Go => Advance(s, i)
  }

  function Advance(s: State, i: nat): State
    requires i < |s.threads| && Named(s, s.threads[i])
  {
    match s.threads[i]
    case Registering(r) => To(s, i, Inserting(r))
    case Inserting(r) => To(s.(list := s.list + [r]), i, Releasing)
    case Unregistering(r) => To(s, i, Holding(r))
    case Holding(r) => To(s, i, if s.busy[r] != 0 then Waiting(r) else Removing(r))
    case Removing(r) => To(s.(list := Without(s.list, r)), i, Releasing)
    case Releasing => To(s, i, Idle)
    case Entering => To(s, i, Looking(First(s.list)))
    case Looking(Head) => To(s, i, Idle)
    // The program looks at the same entry again for as long as it is being unregistered.
    case Looking(Entry(r)) => if s.leaving[r] then s else To(s, i, Counting(r))
    case Counting(r) => To(s.(busy := s.busy[r := s.busy[r] + 1]), i, Called(r))
    case Called(r) => To(s, i, Executing(r))
    case Executing(r) => To(s, i, Returned(r))
    case Returned(r) => To(s, i, Back(r))
    case Back(r) => To(s.(busy := s.busy[r := s.busy[r] - 1]), i, Left(r, s.busy[r] - 1))
    case Left(r, busy) => To(s, i, if s.leaving[r] && busy == 0 then Pulsing(r) else Following(r))
    case Pulsing(r) =>
      var u := To(s, i, Following(r));
      u.(threads := Woken(u.threads))
    case Following(r) => To(s, i, Looking(Next(s.list, r)))
    case _ => s
  }

  ghost predicate Initial(s: State) {
    s.list == [] && |s.leaving| == |s.busy| && forall t :: t in s.threads ==> t.Idle?
  }
}
