// What a caller of the fast lock asked for, and what it gets.
//
// The history of a thread is read off the actions alone; the state machine is then shown to
// serve it.
module FastLockCalls {
  import opened FastLock
  import opened FastLockSafety
  import opened FastLockRuns

  // What a thread has last asked for, and whether it has given that back since.
  datatype Call = Nothing | Asked(a: Action) | Returned(a: Action)

  predicate Asks(a: Action) { a.AcquireExclusive? || a.AcquireShared? || a.TryExclusive? || a.TryShared? }

  predicate ForWriting(a: Action) { a.AcquireExclusive? || a.TryExclusive? }

  function NextCall(before: Call, a: Action): Call {
    if Asks(a) then Asked(a) else if a.Release? && before.Asked? then Returned(before.a) else before
  }

  function CallOf(who: seq<nat>, what: seq<Action>, i: nat, k: nat): Call
    requires k <= |who| == |what|
  {
    if k == 0 then Nothing
    else
      var before := CallOf(who, what, i, k - 1);
      if who[k - 1] == i then NextCall(before, what[k - 1]) else before
  }

  // Where a thread can be that serves the call c.
  predicate Serves(t: Thread, c: Call) {
    match c
    case Nothing => t.Idle?
    case Asked(a) => ServesAsked(t, a)
    case Returned(a) => t.Idle? || t.SignalExclusive? || t.SignalShared? || (if ForWriting(a) then t.ExLeave? || t.ExDrop? else t.ShLeave? || t.ShDrop?)
  }

  // An acquisition that may wait ends with the lock and not without it.
  predicate ServesAsked(t: Thread, a: Action) {
    match a
    case AcquireExclusive => t.ExLoad? || t.ExTry? || t.ExMake? || t.ExQueue? || t.ExWait? || t.ExWoken? || t.ExClaim? || t.ExOwn?
    case AcquireShared => t.ShLoad? || t.ShTry? || t.ShJoin? || t.ShMake? || t.ShQueue? || t.ShWait? || t.ShOwn?
    case TryExclusive => t.Idle? || t.TryEx? || t.ExOwn?
    case TryShared => t.Idle? || t.TrySh? || t.ShOwn?
    case _ => false
  }

  // Only thread i moves.
  predicate Moves(s: State, i: nat, s': State)
    requires i < |s.threads|
  {
    |s'.threads| == |s.threads| && s'.threads == s.threads[i := s'.threads[i]]
  }

  lemma LoadMoves(s: State, i: nat, spun: bool)
    requires i < |s.threads|
    ensures Moves(s, i, Loaded(s, i, spun))
  {
    hide Owned, Waking, SharedOwners, SharedWaiters, ExclusiveWaiters;
  }

  lemma ExclusiveMoves(s: State, i: nat, t: Thread)
    requires i < |s.threads|
    ensures Moves(s, i, Exclusive(s, i, t))
  {}

  lemma SharedMoves(s: State, i: nat, t: Thread)
    requires i < |s.threads|
    ensures Moves(s, i, Shared(s, i, t))
  {}

  lemma ReleaseMoves(s: State, i: nat, t: Thread)
    requires i < |s.threads|
    ensures Moves(s, i, Releasing(s, i, t))
  {
    hide Owned, Waking, SharedOwners, SharedWaiters, ExclusiveWaiters;
  }

  lemma OneMoves(s: State, i: nat, a: Action)
    requires Enabled(s, i, a)
    ensures Moves(s, i, Act(s, i, a))
  {
    hide Owned, Waking, SharedOwners, SharedWaiters, ExclusiveWaiters, Loaded, Exclusive, Shared, Releasing;
    LoadMoves(s, i, a.Block?);
    ExclusiveMoves(s, i, s.threads[i]);
    SharedMoves(s, i, s.threads[i]);
    ReleaseMoves(s, i, s.threads[i]);
  }

  // Where the acting thread goes.
  function Goes(s: State, i: nat, a: Action): Thread
    requires Enabled(s, i, a)
  {
    OneMoves(s, i, a);
    Act(s, i, a).threads[i]
  }

  lemma BeginsServed(s: State, i: nat, a: Action)
    requires Enabled(s, i, a) && Asks(a)
    ensures ServesAsked(Goes(s, i, a), a)
  {
    hide Owned, Waking, SharedOwners, SharedWaiters, ExclusiveWaiters, Loaded, Exclusive, Shared, Releasing;
  }

  lemma GoesOnServed(s: State, i: nat, a: Action, asked: Action)
    requires Enabled(s, i, a) && (a.Go? || a.Block?) && ServesAsked(s.threads[i], asked)
    ensures ServesAsked(Goes(s, i, a), asked)
  {
    hide Owned, Waking, SharedOwners, SharedWaiters, ExclusiveWaiters, Releasing;
  }

  lemma ReturnServed(s: State, i: nat, a: Action, asked: Action)
    requires Enabled(s, i, a) && (a.Go? || a.Block?) && Serves(s.threads[i], Returned(asked))
    ensures Serves(Goes(s, i, a), Returned(asked))
  {
    hide Owned, Waking, SharedOwners, SharedWaiters, ExclusiveWaiters, Loaded, Exclusive, Shared;
  }

  lemma ReleaseServed(s: State, i: nat, asked: Action)
    requires Enabled(s, i, Release) && ServesAsked(s.threads[i], asked)
    ensures Serves(Goes(s, i, Release), Returned(asked))
  {
    hide Owned, Waking, SharedOwners, SharedWaiters, ExclusiveWaiters, Loaded, Exclusive, Shared, Releasing;
  }

  // In every run every thread is somewhere in what it was last called for.
  lemma {:induction false} CallsServed(states: seq<State>, who: seq<nat>, what: seq<Action>, k: nat, i: nat)
    requires Run(states, who, what) && k < |states| && i < |states[0].threads|
    ensures |states[k].threads| == |states[0].threads| && Serves(states[k].threads[i], CallOf(who, what, i, k))
  {
    hide ServesAsked, Act, Enabled;
    if k == 0 {
      assert states[0].threads[i] in states[0].threads;
    } else {
      CallsServed(states, who, what, k - 1, i);
      var s, j, a := states[k - 1], who[k - 1], what[k - 1];
      OneMoves(s, j, a);
      if j == i {
        StepServed(s, i, a, CallOf(who, what, i, k - 1));
      }
    }
  }

  lemma StepServed(s: State, i: nat, a: Action, c: Call)
    requires Enabled(s, i, a) && Serves(s.threads[i], c)
    ensures Serves(Goes(s, i, a), NextCall(c, a))
  {
    hide Act, ServesAsked;
    if Asks(a) {
      BeginsServed(s, i, a);
    } else if c.Asked? {
      if a.Release? { ReleaseServed(s, i, c.a); } else { GoesOnServed(s, i, a, c.a); }
    } else if c.Returned? {
      ReturnServed(s, i, a, c.a);
    }
  }

  predicate Owns(t: Thread) { Writes(t) || Shares(t) }

  // Whoever owns the lock owns it as it asked: exclusively if and only if that was the request.
  lemma OwnedAsAsked(states: seq<State>, who: seq<nat>, what: seq<Action>, k: nat, i: nat)
    requires Run(states, who, what) && k < |states| && i < |states[k].threads| && Owns(states[k].threads[i])
    ensures !CallOf(who, what, i, k).Nothing?
    ensures Writes(states[k].threads[i]) <==> ForWriting(CallOf(who, what, i, k).a)
  {
    SameThreads(states, who, what, k);
    CallsServed(states, who, what, k, i);
  }

  lemma {:induction false} SameThreads(states: seq<State>, who: seq<nat>, what: seq<Action>, k: nat)
    requires Run(states, who, what) && k < |states|
    ensures |states[k].threads| == |states[0].threads|
  {
    hide Act, Enabled;
    if k > 0 {
      SameThreads(states, who, what, k - 1);
      OneMoves(states[k - 1], who[k - 1], what[k - 1]);
    }
  }

  // When a thread that has asked for writing owns the lock, nobody else does, whatever it
  // has asked for.
  lemma RequestsExclude(states: seq<State>, who: seq<nat>, what: seq<Action>, k: nat, i: nat, j: nat)
    requires Run(states, who, what) && k < |states| && i < |states[k].threads| && j < |states[k].threads| && i != j
    requires Owns(states[k].threads[i]) && !CallOf(who, what, i, k).Nothing? && ForWriting(CallOf(who, what, i, k).a)
    ensures !Owns(states[k].threads[j])
  {
    OwnedAsAsked(states, who, what, k, i);
    MutualExclusion(states, who, what, k, i, j);
  }

  // An acquisition that may wait does not come back without the lock: until it is given
  // back the thread is not idle.
  lemma AcquiresOwn(states: seq<State>, who: seq<nat>, what: seq<Action>, k: nat, i: nat)
    requires Run(states, who, what) && k < |states| && i < |states[k].threads|
    requires var c := CallOf(who, what, i, k); c == Asked(AcquireExclusive) || c == Asked(AcquireShared)
    ensures !states[k].threads[i].Idle?
  {
    SameThreads(states, who, what, k);
    CallsServed(states, who, what, k, i);
  }

  // ---------- without interference ----------

  // Steps k to k + n - 1 are those of thread i.
  ghost predicate Alone(who: seq<nat>, k: nat, n: nat, i: nat) {
    k + n <= |who| && forall m :: k <= m < k + n ==> who[m] == i
  }

  // Nobody owns the lock and no exclusive waiter has been handed it.
  predicate Free(s: State) {
    var c := Sum(s.threads);
    c.writers == 0 && c.readers == 0 && c.heirs == 0 && c.exclusiveDue == 0 && s.exclusive == 0
  }

  // Nobody owns it exclusively, waits to, or has been handed it.
  predicate Open(s: State) {
    var c := Sum(s.threads);
    c.writers == 0 && c.exclusiveBlocked == 0 && c.heirs == 0
  }

  lemma FreeWord(states: seq<State>, who: seq<nat>, what: seq<Action>, k: nat)
    requires Run(states, who, what) && k < |states|
    ensures var v := states[k].word; Free(states[k]) <==> Owned(v) == 0 && Waking(v) == 0
  {
    hide Owned, Waking, SharedOwners, SharedWaiters, ExclusiveWaiters, Sum, Run;
    WordIsExact(states, who, what, k);
  }

  lemma OpenWord(states: seq<State>, who: seq<nat>, what: seq<Action>, k: nat)
    requires Run(states, who, what) && k < |states|
    ensures var v := states[k].word;
      && (Open(states[k]) <==> Waking(v) == 0 && ExclusiveWaiters(v) == 0 && (Owned(v) == 0 || SharedOwners(v) > 0))
      && (SharedOwners(v) > 0 ==> Owned(v) == 1)
  {
    hide Owned, Waking, SharedOwners, SharedWaiters, ExclusiveWaiters, Sum;
    Reached(states, who, what, k);
    FieldsOf(states[k], Sum(states[k].threads));
  }

  // The actions of a thread that is in the middle of something are its next steps.
  lemma Continues(states: seq<State>, who: seq<nat>, what: seq<Action>, k: nat)
    requires Run(states, who, what) && k < |who|
    ensures |states| == |who| + 1 && |what| == |who|
    ensures Enabled(states[k], who[k], what[k]) && states[k + 1] == Act(states[k], who[k], what[k])
  {}

  // Trying for exclusive ownership succeeds, with nobody in between, exactly when the lock
  // is free: otherwise it comes back at once.
  lemma TryExclusiveSucceeds(states: seq<State>, who: seq<nat>, what: seq<Action>, k: nat, i: nat)
    requires Run(states, who, what) && Alone(who, k, 1, i) && what[k] == TryExclusive
    ensures i < |states[k + 1].threads| && (states[k + 1].threads[i].Idle? <==> !Free(states[k]))
    ensures Free(states[k]) && Alone(who, k, 2, i) ==> states[k + 2].threads == states[k].threads[i := ExOwn]
  {
    hide Owned, Waking;
    FreeWord(states, who, what, k);
    Continues(states, who, what, k);
    if Alone(who, k, 2, i) {
      Continues(states, who, what, k + 1);
    }
  }

  // Trying for shared ownership: exactly when it is open to readers.
  lemma TrySharedSucceeds(states: seq<State>, who: seq<nat>, what: seq<Action>, k: nat, i: nat)
    requires Run(states, who, what) && Alone(who, k, 1, i) && what[k] == TryShared
    ensures i < |states[k + 1].threads| && (states[k + 1].threads[i].Idle? <==> !Open(states[k]))
    ensures Open(states[k]) && Alone(who, k, 2, i) ==> states[k + 2].threads == states[k].threads[i := ShOwn]
  {
    hide Owned, Waking, SharedOwners, ExclusiveWaiters;
    OpenWord(states, who, what, k);
    Continues(states, who, what, k);
    if Alone(who, k, 2, i) {
      Continues(states, who, what, k + 1);
    }
  }

  // An acquisition of a lock that is to be had takes three steps.
  lemma AcquireAlone(states: seq<State>, who: seq<nat>, what: seq<Action>, k: nat, i: nat)
    requires Run(states, who, what) && Alone(who, k, 3, i)
    requires (what[k] == AcquireExclusive && Free(states[k])) || (what[k] == AcquireShared && Open(states[k]))
    ensures i < |states[k].threads|
    ensures states[k + 3].threads == states[k].threads[i := if what[k] == AcquireExclusive then ExOwn else ShOwn]
  {
    hide Owned, Waking, SharedOwners, ExclusiveWaiters;
    FreeWord(states, who, what, k);
    OpenWord(states, who, what, k);
    Continues(states, who, what, k);
    Continues(states, who, what, k + 1);
    Continues(states, who, what, k + 2);
  }

  // One that is not, once it has spun enough, takes three steps to wait on its semaphore.
  lemma BlocksAlone(states: seq<State>, who: seq<nat>, what: seq<Action>, k: nat, i: nat)
    requires Run(states, who, what) && Alone(who, k, 3, i) && what[k] == Block && i < |states[k].threads|
    requires if states[k].threads[i].ExLoad? then !Free(states[k]) else !Open(states[k])
    ensures states[k + 3].threads == states[k].threads[i := if states[k].threads[i].ExLoad? then ExWait else ShWait]
  {
    hide Owned, Waking, SharedOwners, ExclusiveWaiters;
    FreeWord(states, who, what, k);
    OpenWord(states, who, what, k);
    Continues(states, who, what, k);
    Continues(states, who, what, k + 1);
    Continues(states, who, what, k + 2);
  }

  // A woken exclusive waiter owns the lock after three steps, a woken shared one starts again.
  lemma WokenAlone(states: seq<State>, who: seq<nat>, what: seq<Action>, k: nat, i: nat)
    requires Run(states, who, what) && Alone(who, k, 1, i) && i < |states[k].threads|
    ensures states[k].threads[i].ShWait? ==> states[k + 1].threads == states[k].threads[i := ShLoad]
    ensures states[k].threads[i].ExWait? && Alone(who, k, 3, i) ==> states[k + 3].threads == states[k].threads[i := ExOwn]
  {
    hide Owned, Waking, SharedOwners, SharedWaiters, ExclusiveWaiters;
    Continues(states, who, what, k);
    if states[k].threads[i].ExWait? && Alone(who, k, 3, i) {
      Continues(states, who, what, k + 1);
      Continues(states, who, what, k + 2);
    }
  }

  lemma Drops(s: State, i: nat)
    requires i < |s.threads| && (s.threads[i].ExLeave? || s.threads[i].ShLeave?)
    ensures var s' := Releasing(s, i, s.threads[i]);
      && |s'.threads| == |s.threads| && (s'.threads[i].ExDrop? || s'.threads[i].ShDrop?)
      && var s'' := Releasing(s', i, s'.threads[i]);
      && |s''.threads| == |s.threads| && (s''.threads[i].Idle? || s''.threads[i].SignalExclusive? || s''.threads[i].SignalShared?)
  {
    hide Owned, SharedOwners, SharedWaiters, ExclusiveWaiters;
    var v := s.word;
    var s' := Releasing(s, i, s.threads[i]);
    assert s' == To(s, i, if s.threads[i].ExLeave? then ExDrop(v) else ShDrop(v));
    ReleaseMoves(s', i, s'.threads[i]);
  }

  lemma Releases(s: State, i: nat, a: Action)
    requires Enabled(s, i, a)
    requires var t := s.threads[i]; t.ExLeave? || t.ExDrop? || t.ShLeave? || t.ShDrop? || t.SignalExclusive? || t.SignalShared?
    ensures a == Go && Act(s, i, a) == Releasing(s, i, s.threads[i])
  {
    hide Releasing;
  }

  // Giving the lock back takes three steps, and one more for whoever must be woken.
  lemma ReleaseAlone(states: seq<State>, who: seq<nat>, what: seq<Action>, k: nat, i: nat)
    requires Run(states, who, what) && Alone(who, k, 3, i) && what[k] == Release
    ensures i < |states[k + 3].threads| && !Owns(states[k + 3].threads[i])
    ensures !states[k + 3].threads[i].Idle? && Alone(who, k, 4, i) ==> i < |states[k + 4].threads| && states[k + 4].threads[i].Idle?
  {
    hide Run, Act, Releasing, Enabled;
    ReleaseBegins(states, who, what, k);
    Drops(states[k + 1], i);
    Continues(states, who, what, k + 1);
    Releases(states[k + 1], i, what[k + 1]);
    Continues(states, who, what, k + 2);
    Releases(states[k + 2], i, what[k + 2]);
    if !states[k + 3].threads[i].Idle? && Alone(who, k, 4, i) {
      Continues(states, who, what, k + 3);
      Releases(states[k + 3], i, what[k + 3]);
      Signals(states[k + 3], i);
    }
  }

  lemma ReleaseBegins(states: seq<State>, who: seq<nat>, what: seq<Action>, k: nat)
    requires Run(states, who, what) && k < |who| && what[k] == Release
    ensures |states| == |who| + 1 && |what| == |who|
    ensures who[k] < |states[k + 1].threads| && (states[k + 1].threads[who[k]].ExLeave? || states[k + 1].threads[who[k]].ShLeave?)
  {
    Continues(states, who, what, k);
  }

  lemma Signals(s: State, i: nat)
    requires i < |s.threads| && (s.threads[i].SignalExclusive? || s.threads[i].SignalShared?)
    ensures var s' := Releasing(s, i, s.threads[i]); |s'.threads| == |s.threads| && s'.threads[i].Idle?
  {}
}
