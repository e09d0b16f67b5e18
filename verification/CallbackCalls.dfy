// Whole calls of the callback functions: what holds when one returns, and what one does when
// nobody else is about.
module CallbackCalls {
  import opened Listings
  import opened Callback
  import opened CallbackRuns

  lemma Continues(states: seq<State>, who: seq<nat>, what: seq<Action>, k: nat)
    requires Run(states, who, what) && k < |who|
    ensures |states| == |who| + 1 == |what| + 1 && Happens(states[k], who[k], what[k], states[k + 1])
  {}

  // A step of one thread leaves the others where they are, or wakes them.
  lemma OthersStay(s: State, i: nat, a: Action, s': State)
    requires Happens(s, i, a, s')
    ensures |s'.threads| == |s.threads|
    ensures forall j :: 0 <= j < |s.threads| && j != i ==>
      s'.threads[j] == s.threads[j] || (s.threads[j].Waiting? && s'.threads[j] == Unregistering(s.threads[j].r))
  {
    hide First, Next, Without;
  }

  lemma {:induction false} SameThreads(states: seq<State>, who: seq<nat>, what: seq<Action>, j: nat, k: nat)
    requires Run(states, who, what) && j <= k < |states|
    ensures |states[k].threads| == |states[j].threads|
  {
    hide Run, Happens;
    if j < k {
      SizeOf(states, who, what);
      SameThreads(states, who, what, j, k - 1);
      Continues(states, who, what, k - 1);
      OthersStay(states[k - 1], who[k - 1], what[k - 1], states[k]);
    }
  }

  lemma SizeOf(states: seq<State>, who: seq<nat>, what: seq<Action>)
    requires Run(states, who, what)
    ensures |states| == |who| + 1 == |what| + 1
  {}

  // Thread i has made its call at step j, and it has not returned by k.
  ghost predicate Calling(states: seq<State>, who: seq<nat>, what: seq<Action>, i: nat, j: nat, k: nat, a: Action) {
    && Run(states, who, what) && j < k < |states| && who[j] == i && what[j] == a
    && forall m :: j < m <= k ==> i < |states[m].threads| && !states[m].threads[i].Idle?
  }

  // It returns at k.
  ghost predicate Returns(states: seq<State>, who: seq<nat>, what: seq<Action>, i: nat, j: nat, k: nat, a: Action) {
    && j + 1 < k < |states| && Calling(states, who, what, i, j, k - 1, a)
    && i < |states[k].threads| && states[k].threads[i].Idle?
  }

  // ---------- PhUnregisterCallback ----------

  // Where a thread that is unregistering r is after one more step.
  lemma LeavesOn(s: State, i: nat, a: Action, s': State, r: nat)
    requires Happens(s, i, a, s') && LeaverOf(s.threads[i]) == Entry(r)
    ensures i < |s'.threads|
    ensures LeaverOf(s'.threads[i]) == Entry(r) || (a.Go? && s.threads[i] == Removing(r) && s'.threads[i] == Releasing)
  {
    hide First, Next, Without;
  }

  lemma ReleasesOn(s: State, i: nat, a: Action, s': State)
    requires Happens(s, i, a, s') && s.threads[i].Releasing?
    ensures a.Go? && s' == To(s, i, Idle)
  {}

  // Until it returns it is on its way to unlinking the entry, or has just done so.
  lemma {:induction false} UnregisterGoesOn(states: seq<State>, who: seq<nat>, what: seq<Action>, i: nat, j: nat, k: nat, r: nat)
      returns (m: nat)
    requires Calling(states, who, what, i, j, k, StartUnregister(r))
    ensures i < |states[k].threads|
    ensures LeaverOf(states[k].threads[i]) == Entry(r) || (states[k].threads[i].Releasing? && j < m <= k && Quiet(states[m], r))
  {
    hide Run, Happens, LeaverOf, Quiet;
    m := k;
    SizeOf(states, who, what);
    Continues(states, who, what, k - 1);
    if k == j + 1 {
      UnregisterBegins(states[j], i, r, states[k]);
    } else {
      var n := UnregisterGoesOn(states, who, what, i, j, k - 1, r);
      var s, a := states[k - 1], what[k - 1];
      if who[k - 1] != i {
        OthersStay(s, who[k - 1], a, states[k]);
        WokenLeaves(s.threads[i], states[k].threads[i]);
        m := n;
      } else if LeaverOf(s.threads[i]) == Entry(r) {
        LeavesOn(s, i, a, states[k], r);
        if s.threads[i] == Removing(r) && a.Go? {
          GoesOn(s, i, a, states[k]);
          UnregisteredIsQuiet(states, who, what, k - 1, r);
        }
      } else {
        ReleasesOn(s, i, a, states[k]);
      }
    }
  }

  lemma UnregisterBegins(s: State, i: nat, r: nat, s': State)
    requires Happens(s, i, StartUnregister(r), s')
    ensures i < |s'.threads| && LeaverOf(s'.threads[i]) == Entry(r)
  {}

  lemma GoesOn(s: State, i: nat, a: Action, s': State)
    requires Happens(s, i, a, s')
    ensures Enabled(s, i, a)
  {}

  lemma WokenLeaves(t: Thread, u: Thread)
    requires u == t || (t.Waiting? && u == Unregistering(t.r))
    ensures LeaverOf(u) == LeaverOf(t) && (t.Releasing? ==> u.Releasing?)
  {}

  // Step k puts r in the list.
  ghost predicate Inserts(states: seq<State>, who: seq<nat>, what: seq<Action>, k: nat, r: nat)
    requires k < |who| && k < |what| && k < |states|
  {
    what[k].Go? && who[k] < |states[k].threads| && states[k].threads[who[k]] == Inserting(r)
  }

  lemma {:induction false} QuietUntil(states: seq<State>, who: seq<nat>, what: seq<Action>, m: nat, k: nat, r: nat)
    requires Run(states, who, what) && m <= k < |states| && Quiet(states[m], r)
    requires |states| == |who| + 1 == |what| + 1
    requires forall n :: m <= n < k ==> !Inserts(states, who, what, n, r)
    ensures Quiet(states[k], r)
  {
    hide Run, Quiet;
    if m < k {
      QuietUntil(states, who, what, m, k - 1, r);
      Continues(states, who, what, k - 1);
      GoesOn(states[k - 1], who[k - 1], what[k - 1], states[k]);
      assert !Inserts(states, who, what, k - 1, r);
      QuietLasts(states, who, what, k - 1, r);
    }
  }

  // PhUnregisterCallback does not return before a moment when no thread was executing the
  // function or about to and the entry was out of the list; unless somebody has registered
  // it again since, it is so when it returns.
  lemma Unregistered(states: seq<State>, who: seq<nat>, what: seq<Action>, i: nat, j: nat, k: nat, r: nat) returns (m: nat)
    requires Returns(states, who, what, i, j, k, StartUnregister(r))
    requires |states| == |who| + 1 == |what| + 1
    ensures j < m < k && Quiet(states[m], r)
    ensures (forall n :: m <= n < k ==> !Inserts(states, who, what, n, r)) ==> Quiet(states[k], r)
  {
    hide Run, Quiet, LeaverOf, Happens;
    m := UnregisterGoesOn(states, who, what, i, j, k - 1, r);
    Continues(states, who, what, k - 1);
    ReturnsFromUnregister(states[k - 1], who[k - 1], what[k - 1], states[k], i, r);
    if forall n :: m <= n < k ==> !Inserts(states, who, what, n, r) {
      QuietUntil(states, who, what, m, k, r);
    }
  }

  lemma ReturnsFromUnregister(s: State, w: nat, a: Action, s': State, i: nat, r: nat)
    requires Happens(s, w, a, s') && i < |s.threads| && i < |s'.threads|
    requires (LeaverOf(s.threads[i]) == Entry(r) || s.threads[i].Releasing?) && s'.threads[i].Idle?
    ensures s.threads[i].Releasing? && LeaverOf(s.threads[i]) != Entry(r)
  {
    if w == i && LeaverOf(s.threads[i]) == Entry(r) {
      LeavesOn(s, i, a, s', r);
    } else if w != i {
      OthersStay(s, w, a, s');
    }
  }

  // ---------- PhRegisterCallback ----------

  lemma {:induction false} RegisterGoesOn(states: seq<State>, who: seq<nat>, what: seq<Action>, i: nat, j: nat, k: nat, r: nat)
      returns (m: nat)
    requires Calling(states, who, what, i, j, k, StartRegister(r))
    ensures i < |states[k].threads|
    ensures states[k].threads[i] == Registering(r) || states[k].threads[i] == Inserting(r)
      || (states[k].threads[i].Releasing? && j < m <= k && states[m].list == states[m - 1].list + [r])
  {
    hide Run;
    m := k;
    SizeOf(states, who, what);
    Continues(states, who, what, k - 1);
    if k > j + 1 {
      var n := RegisterGoesOn(states, who, what, i, j, k - 1, r);
      if who[k - 1] != i {
        OthersStay(states[k - 1], who[k - 1], what[k - 1], states[k]);
        m := n;
      }
    }
  }

  // PhRegisterCallback does not return before the entry has become the last of the list.
  lemma Registered(states: seq<State>, who: seq<nat>, what: seq<Action>, i: nat, j: nat, k: nat, r: nat) returns (m: nat)
    requires Returns(states, who, what, i, j, k, StartRegister(r))
    ensures j < m < k && states[m].list == states[m - 1].list + [r]
  {
    hide Run;
    m := RegisterGoesOn(states, who, what, i, j, k - 1, r);
    SizeOf(states, who, what);
    Continues(states, who, what, k - 1);
    if who[k - 1] != i {
      OthersStay(states[k - 1], who[k - 1], what[k - 1], states[k]);
    }
  }

  // ---------- PhInvokeCallback ----------

  // The entry whose function thread i executes in step k.
  function ExecutedAt(s: State, w: nat, a: Action, i: nat): seq<nat> {
    if w == i && a.Go? && i < |s.threads| && s.threads[i].Executing? then [s.threads[i].r] else []
  }

  // The functions that thread i executes in the steps from j on before k, in order.
  ghost function Executed(states: seq<State>, who: seq<nat>, what: seq<Action>, i: nat, j: nat, k: nat): seq<nat>
    requires k <= |who| && |states| == |who| + 1 == |what| + 1
  {
    if k <= j then [] else Executed(states, who, what, i, j, k - 1) + ExecutedAt(states[k - 1], who[k - 1], what[k - 1], i)
  }

  // What an invoker has executed of the list when it is at t.
  ghost predicate Visiting(list: seq<nat>, t: Thread, done: seq<nat>) {
    match t
    case Entering => done == []
    case Looking(Head) => done == list
    case Looking(Entry(r)) => Before(list, r, done)
    case Counting(r) => Before(list, r, done)
    case Called(r) => Before(list, r, done)
    case Executing(r) => Before(list, r, done)
    case Returned(r) => Through(list, r, done)
    case Back(r) => Through(list, r, done)
    case Left(r, _) => Through(list, r, done)
    case Pulsing(r) => Through(list, r, done)
    case Following(r) => Through(list, r, done)
    case _ => false
  }

  ghost predicate Before(list: seq<nat>, r: nat, done: seq<nat>) {
    |done| < |list| && list[|done|] == r && done == list[..|done|]
  }

  ghost predicate Through(list: seq<nat>, r: nat, done: seq<nat>) {
    0 < |done| <= |list| && list[|done| - 1] == r && done == list[..|done|]
  }

  // The link of the entry at place p of the list.
  lemma {:induction false} NextAt(list: seq<nat>, p: nat)
    requires Distinct(list) && p < |list|
    ensures Next(list, list[p]) == if p + 1 < |list| then Entry(list[p + 1]) else Head
  {
    if p > 0 {
      NextAt(list[1..], p - 1);
    }
  }

  lemma VisitsOn(s: State, i: nat, a: Action, s': State, done: seq<nat>)
    requires Happens(s, i, a, s') && Distinct(s.list) && Visiting(s.list, s.threads[i], done)
    requires i < |s'.threads| && !s'.threads[i].Idle? && s'.list == s.list
    ensures Visiting(s.list, s'.threads[i], done + ExecutedAt(s, i, a, i))
  {
    hide Next, Without;
    var t := s.threads[i];
    if t.Following? {
      NextAt(s.list, |done| - 1);
    }
  }

  lemma {:induction false} Visits(states: seq<State>, who: seq<nat>, what: seq<Action>, i: nat, j: nat, k: nat)
    requires Calling(states, who, what, i, j, k, StartInvoke) && |states| == |who| + 1 == |what| + 1
    requires forall n :: j <= n <= k ==> states[n].list == states[j].list
    ensures i < |states[k].threads| && Visiting(states[j].list, states[k].threads[i], Executed(states, who, what, i, j, k))
  {
    hide Run, Visiting, Happens, Distinct;
    Continues(states, who, what, k - 1);
    if k == j + 1 {
      InvokeBegins(states[j], i, states[k]);
      assert Executed(states, who, what, i, j, k) == Executed(states, who, what, i, j, j) + [] == [];
    } else {
      Visits(states, who, what, i, j, k - 1);
      var done := Executed(states, who, what, i, j, k - 1);
      if who[k - 1] != i {
        OthersStay(states[k - 1], who[k - 1], what[k - 1], states[k]);
        NotWaiting(states[j].list, states[k - 1].threads[i], done);
        assert done + [] == done;
      } else {
        ListDistinct(states, who, what, k - 1);
        VisitsOn(states[k - 1], i, what[k - 1], states[k], done);
      }
    }
  }

  lemma InvokeBegins(s: State, i: nat, s': State)
    requires Happens(s, i, StartInvoke, s')
    ensures i < |s'.threads| && Visiting(s.list, s'.threads[i], []) && ExecutedAt(s, i, StartInvoke, i) == []
  {}

  lemma NotWaiting(list: seq<nat>, t: Thread, done: seq<nat>)
    requires Visiting(list, t, done)
    ensures !t.Waiting?
  {}

  lemma ListDistinct(states: seq<State>, who: seq<nat>, what: seq<Action>, k: nat)
    requires Run(states, who, what) && k < |states|
    ensures Distinct(states[k].list)
  {
    Reached(states, who, what, k);
  }

  // An invocation that comes to the head of a list that has not changed meanwhile has
  // executed the function of every entry, once each and in the order of the list.
  lemma InvokesAll(states: seq<State>, who: seq<nat>, what: seq<Action>, i: nat, j: nat, k: nat)
    requires Calling(states, who, what, i, j, k, StartInvoke) && |states| == |who| + 1 == |what| + 1
    requires forall n :: j <= n <= k ==> states[n].list == states[j].list
    requires states[k].threads[i] == Looking(Head)
    ensures Executed(states, who, what, i, j, k) == states[j].list && Distinct(states[j].list)
  {
    Visits(states, who, what, i, j, k);
    ListDistinct(states, who, what, j);
  }

  // ---------- without interference ----------

  // Steps k to k + n - 1 are those of thread i.
  ghost predicate Alone(who: seq<nat>, k: nat, n: nat, i: nat) {
    k + n <= |who| && forall m :: k <= m < k + n ==> who[m] == i
  }

  // Registering takes four steps.
  lemma RegisterAlone(states: seq<State>, who: seq<nat>, what: seq<Action>, k: nat, i: nat, r: nat)
    requires Run(states, who, what) && Alone(who, k, 4, i) && |states| == |who| + 1 == |what| + 1 && what[k] == StartRegister(r)
    ensures i < |states[k].threads| && states[k + 4].threads == states[k].threads
    ensures states[k + 4].list == states[k].list + [r]
  {
    Continues(states, who, what, k);
    Continues(states, who, what, k + 1);
    Continues(states, who, what, k + 2);
    Continues(states, who, what, k + 3);
  }

  // Unregistering takes five when the callback is not busy.
  lemma UnregisterAlone(states: seq<State>, who: seq<nat>, what: seq<Action>, k: nat, i: nat, r: nat)
    requires Run(states, who, what) && Alone(who, k, 5, i) && |states| == |who| + 1 == |what| + 1 && what[k] == StartUnregister(r)
    requires Count(states[k].threads, r) == 0
    ensures i < |states[k].threads| && states[k + 5].threads == states[k].threads
    ensures states[k + 5].list == Without(states[k].list, r)
  {
    hide Count, Without;
    Continues(states, who, what, k);
    BusyIsExact(states, who, what, k, r);
    Continues(states, who, what, k + 1);
    Continues(states, who, what, k + 2);
    Continues(states, who, what, k + 3);
    Continues(states, who, what, k + 4);
  }

  // One that had to wait takes five once it is woken and the callback is not busy any more.
  lemma WokenAlone(states: seq<State>, who: seq<nat>, what: seq<Action>, k: nat, i: nat, r: nat)
    requires Run(states, who, what) && Alone(who, k, 5, i) && |states| == |who| + 1 == |what| + 1 && what[k] == Wake
    requires i < |states[k].threads| && states[k].threads[i] == Waiting(r) && Count(states[k].threads, r) == 0
    ensures states[k + 5].threads == states[k].threads[i := Idle]
    ensures states[k + 5].list == Without(states[k].list, r)
  {
    hide Count, Without;
    WaitsForListed(states, who, what, k, i, r);
    BusyIsExact(states, who, what, k, r);
    Continues(states, who, what, k);
    Continues(states, who, what, k + 1);
    Continues(states, who, what, k + 2);
    Continues(states, who, what, k + 3);
    Continues(states, who, what, k + 4);
  }

  lemma WaitsForListed(states: seq<State>, who: seq<nat>, what: seq<Action>, k: nat, i: nat, r: nat)
    requires Run(states, who, what) && k < |states| && i < |states[k].threads| && states[k].threads[i] == Waiting(r)
    ensures r in states[k].list
  {
    Reached(states, who, what, k);
    assert LeaverOf(states[k].threads[i]) == Entry(r);
  }

  // RemoveEntryList leaves the order of the others as it is.
  lemma {:induction false} WithoutAt(list: seq<nat>, p: nat)
    requires Distinct(list) && p < |list|
    ensures Without(list, list[p]) == list[..p] + list[p + 1..]
  {
    if p > 0 {
      WithoutAt(list[1..], p - 1);
    }
  }

  lemma CallsAlone(states: seq<State>, who: seq<nat>, what: seq<Action>, k: nat, i: nat, r: nat)
    requires Run(states, who, what) && Alone(who, k, 4, i) && |states| == |who| + 1 == |what| + 1
    requires i < |states[k].threads| && states[k].threads[i] == Looking(Entry(r))
    requires r < |states[k].leaving| && !states[k].leaving[r]
    ensures states[k + 4].threads == states[k].threads[i := Returned(r)]
    ensures states[k + 4].list == states[k].list && states[k + 4].leaving == states[k].leaving
  {
    Continues(states, who, what, k);
    Continues(states, who, what, k + 1);
    Continues(states, who, what, k + 2);
    Continues(states, who, what, k + 3);
  }

  lemma FollowsAlone(states: seq<State>, who: seq<nat>, what: seq<Action>, k: nat, i: nat, r: nat)
    requires Run(states, who, what) && Alone(who, k, 4, i) && |states| == |who| + 1 == |what| + 1
    requires i < |states[k].threads| && states[k].threads[i] == Returned(r)
    requires r < |states[k].leaving| && !states[k].leaving[r]
    ensures states[k + 4].threads == states[k].threads[i := Looking(Next(states[k].list, r))]
    ensures states[k + 4].list == states[k].list && states[k + 4].leaving == states[k].leaving
  {
    hide Next;
    Continues(states, who, what, k);
    Continues(states, who, what, k + 1);
    Continues(states, who, what, k + 2);
    Continues(states, who, what, k + 3);
  }

  // The eight steps of an invocation at an entry that is not being unregistered.
  lemma VisitsAlone(states: seq<State>, who: seq<nat>, what: seq<Action>, k: nat, i: nat, r: nat)
    requires Run(states, who, what) && Alone(who, k, 8, i) && |states| == |who| + 1 == |what| + 1
    requires i < |states[k].threads| && states[k].threads[i] == Looking(Entry(r))
    requires r < |states[k].leaving| && !states[k].leaving[r]
    ensures states[k + 8].threads == states[k].threads[i := Looking(Next(states[k].list, r))]
    ensures states[k + 8].list == states[k].list && states[k + 8].leaving == states[k].leaving
  {
    hide Run, Next;
    CallsAlone(states, who, what, k, i, r);
    FollowsAlone(states, who, what, k + 4, i, r);
  }

  ghost predicate NothingLeaves(s: State) {
    forall r :: r in s.list ==> r < |s.leaving| && !s.leaving[r]
  }

  lemma {:induction false} VisitsAllAlone(states: seq<State>, who: seq<nat>, what: seq<Action>, k: nat, i: nat, p: nat)
    requires Run(states, who, what) && Alone(who, k, 2 + 8 * p, i) && |states| == |who| + 1 == |what| + 1 && what[k] == StartInvoke
    requires NothingLeaves(states[k]) && p <= |states[k].list|
    ensures i < |states[k].threads|
    ensures var n := k + 2 + 8 * p;
      && states[n].list == states[k].list && states[n].leaving == states[k].leaving
      && states[n].threads == states[k].threads[i := Looking(if p < |states[k].list| then Entry(states[k].list[p]) else Head)]
  {
    hide Run, Happens, Next, Distinct;
    if p == 0 {
      EntersAlone(states, who, what, k, i);
    } else {
      VisitsAllAlone(states, who, what, k, i, p - 1);
      var r := states[k].list[p - 1];
      assert r in states[k].list;
      VisitsAlone(states, who, what, k + 2 + 8 * (p - 1), i, r);
      ListDistinct(states, who, what, k);
      NextAt(states[k].list, p - 1);
    }
  }

  lemma EntersAlone(states: seq<State>, who: seq<nat>, what: seq<Action>, k: nat, i: nat)
    requires Run(states, who, what) && Alone(who, k, 2, i) && |states| == |who| + 1 == |what| + 1 && what[k] == StartInvoke
    ensures i < |states[k].threads|
    ensures states[k + 2] == states[k].(threads := states[k].threads[i := Looking(First(states[k].list))])
  {
    Continues(states, who, what, k);
    Continues(states, who, what, k + 1);
  }

  // With nothing being unregistered an invocation of n entries comes to the head in 2 + 8 n
  // steps and returns in the next.
  lemma InvokeAlone(states: seq<State>, who: seq<nat>, what: seq<Action>, k: nat, i: nat)
    requires Run(states, who, what) && |states| == |who| + 1 == |what| + 1 && k < |who| && what[k] == StartInvoke
    requires NothingLeaves(states[k]) && Alone(who, k, 3 + 8 * |states[k].list|, i)
    ensures var n := k + 2 + 8 * |states[k].list|;
      && i < |states[n].threads| && states[n].threads[i] == Looking(Head)
      && states[n + 1].threads == states[k].threads && states[n + 1].list == states[k].list
  {
    hide Run, Happens;
    var p := |states[k].list|;
    VisitsAllAlone(states, who, what, k, i, p);
    LooksAtHead(states, who, what, k, i);
    Continues(states, who, what, k + 2 + 8 * p);
    HeadReturns(states[k + 2 + 8 * p], i, what[k + 2 + 8 * p], states[k + 3 + 8 * p]);
    assert states[k].threads[i := Looking(Head)][i := Idle] == states[k].threads;
  }

  lemma LooksAtHead(states: seq<State>, who: seq<nat>, what: seq<Action>, k: nat, i: nat)
    requires Run(states, who, what) && k < |who| && who[k] == i && what[k] == StartInvoke && |states| == |who| + 1 == |what| + 1
    ensures i < |states[k].threads| && states[k].threads[i].Idle?
  {
    Continues(states, who, what, k);
  }

  lemma HeadReturns(s: State, i: nat, a: Action, s': State)
    requires Happens(s, i, a, s') && s.threads[i] == Looking(Head)
    ensures s' == To(s, i, Idle)
  {}
}
