// Callback registration over whole runs: whoever is at an entry finds it in the list, the
// busy counters are exact, and an unregistered callback is not executing.
module CallbackRuns {
  import opened Listings
  import opened Callback

  // The entry a thread is at, the one it unregisters, the one it registers.
  function UsedBy(t: Thread): Link {
    match t
    case Looking(at) => at
    case Counting(r) => Entry(r)
    case Called(r) => Entry(r)
    case Executing(r) => Entry(r)
    case Returned(r) => Entry(r)
    case Back(r) => Entry(r)
    case Left(r, _) => Entry(r)
    case Pulsing(r) => Entry(r)
    case Following(r) => Entry(r)
    case _ => Head
  }

  function LeaverOf(t: Thread): Link {
    match t
    case Unregistering(r) => Entry(r)
    case Holding(r) => Entry(r)
    case Waiting(r) => Entry(r)
    case Removing(r) => Entry(r)
    case _ => Head
  }

  function JoinerOf(t: Thread): Link {
    match t
    case Registering(r) => Entry(r)
    case Inserting(r) => Entry(r)
    case _ => Head
  }

  // Between the two changes of the busy counter.
  function Counts(t: Thread, r: nat): nat {
    if t == Called(r) || t == Executing(r) || t == Returned(r) || t == Back(r) then 1 else 0
  }

  function Count(ts: seq<Thread>, r: nat): nat {
    if |ts| == 0 then 0 else Count(ts[..|ts| - 1], r) + Counts(ts[|ts| - 1], r)
  }

  lemma {:induction false} CountUpdate(ts: seq<Thread>, i: nat, t: Thread, r: nat)
    requires i < |ts|
    ensures Count(ts[i := t], r) + Counts(ts[i], r) == Count(ts, r) + Counts(t, r)
  {
    var n := |ts| - 1;
    if i < n {
      assert ts[i := t][..n] == ts[..n][i := t];
      CountUpdate(ts[..n], i, t, r);
    } else {
      assert ts[i := t][..n] == ts[..n];
    }
  }

  lemma {:induction false} CountZero(ts: seq<Thread>, r: nat)
    ensures Count(ts, r) == 0 <==> forall k :: 0 <= k < |ts| ==> Counts(ts[k], r) == 0
  {
    if |ts| > 0 {
      var n := |ts| - 1;
      CountZero(ts[..n], r);
      assert forall k :: 0 <= k < n ==> ts[..n][k] == ts[k];
    }
  }

  lemma {:induction false} CountSame(ts: seq<Thread>, us: seq<Thread>, r: nat)
    requires |ts| == |us| && forall k :: 0 <= k < |ts| ==> Counts(ts[k], r) == Counts(us[k], r)
    ensures Count(ts, r) == Count(us, r)
  {
    if |ts| > 0 {
      var n := |ts| - 1;
      CountSame(ts[..n], us[..n], r);
    }
  }

  // ---------- the invariant ----------

  ghost predicate Sized(s: State) {
    && |s.leaving| == |s.busy| && Distinct(s.list) && forall r :: r in s.list ==> r < |s.busy|
  }

  ghost predicate Locked(ts: seq<Thread>) {
    forall i, j :: 0 <= i < |ts| && 0 <= j < |ts| && i != j && Exclusive(ts[i]) ==> !Exclusive(ts[j]) && !Shared(ts[j])
  }

  ghost predicate Users(list: seq<nat>, ts: seq<Thread>) {
    forall i :: 0 <= i < |ts| && UsedBy(ts[i]).Entry? ==> UsedBy(ts[i]).r in list
  }

  ghost predicate Leavers(list: seq<nat>, leaving: seq<bool>, ts: seq<Thread>) {
    && (forall i :: 0 <= i < |ts| && LeaverOf(ts[i]).Entry? ==>
          var r := LeaverOf(ts[i]).r; r in list && r < |leaving| && leaving[r])
    && (forall i, j :: 0 <= i < j < |ts| && LeaverOf(ts[i]).Entry? ==> LeaverOf(ts[i]) != LeaverOf(ts[j]))
  }

  ghost predicate Joiners(list: seq<nat>, busy: seq<int>, ts: seq<Thread>) {
    && (forall i :: 0 <= i < |ts| && JoinerOf(ts[i]).Entry? ==>
          var r := JoinerOf(ts[i]).r; r !in list && r < |busy| && busy[r] == 0)
    && (forall i, j :: 0 <= i < j < |ts| && JoinerOf(ts[i]).Entry? ==> JoinerOf(ts[i]) != JoinerOf(ts[j]))
  }

  ghost predicate Exact(list: seq<nat>, busy: seq<int>, ts: seq<Thread>) {
    forall r :: r in list ==> r < |busy| && busy[r] == Count(ts, r)
  }

  // Who waits on the condition variable waits for a counter that is up, or for a thread
  // that has brought it down and is about to pulse.
  ghost predicate Pulses(busy: seq<int>, ts: seq<Thread>) {
    forall i :: 0 <= i < |ts| && ts[i].Waiting? && ts[i].r < |busy| && busy[ts[i].r] == 0 ==>
      Left(ts[i].r, 0) in ts || Pulsing(ts[i].r) in ts
  }

  // Who is about to unlink an entry has found it not busy.
  ghost predicate Removers(busy: seq<int>, ts: seq<Thread>) {
    forall i :: 0 <= i < |ts| && ts[i].Removing? ==> ts[i].r < |busy| && busy[ts[i].r] == 0
  }

  ghost predicate Inv(s: State) {
    && Sized(s) && Locked(s.threads) && Users(s.list, s.threads)
    && Leavers(s.list, s.leaving, s.threads) && Joiners(s.list, s.busy, s.threads)
    && Exact(s.list, s.busy, s.threads) && Pulses(s.busy, s.threads) && Removers(s.busy, s.threads)
  }

  lemma InvNames(s: State, i: nat)
    requires Inv(s) && i < |s.threads|
    ensures Named(s, s.threads[i])
  {
    hide Locked, Exact, Pulses, Distinct;
  }

  // ---------- one thread goes on, the list stays ----------

  ghost predicate MayLeave(s: State, s': State, at: Link) {
    && at.Entry? && at.r in s.list && at.r < |s'.leaving| && s'.leaving[at.r]
    && forall v :: v in s.threads ==> LeaverOf(v) != at
  }

  ghost predicate MayJoin(s: State, s': State, at: Link) {
    && at.Entry? && at.r !in s.list && at.r < |s'.busy| && s'.busy[at.r] == 0
    && forall v :: v in s.threads ==> JoinerOf(v) != at
  }

  // What the step of thread i to u must do for the invariant to be kept.
  ghost predicate Fits(s: State, i: nat, u: Thread, s': State)
    requires i < |s.threads| && Sized(s)
  {
    var t := s.threads[i];
    && s'.list == s.list && s'.threads == s.threads[i := u] && |s'.busy| == |s'.leaving| == |s.busy|
    // the lock
    && (Exclusive(u) ==> Exclusive(t) || forall v :: v in s.threads ==> !Exclusive(v) && !Shared(v))
    && (Shared(u) ==> Shared(t) || forall v :: v in s.threads ==> !Exclusive(v))
    // the entries
    && (UsedBy(u).Entry? ==> UsedBy(u).r in s.list)
    && (LeaverOf(u).Entry? ==> LeaverOf(u) == LeaverOf(t) || MayLeave(s, s', LeaverOf(u)))
    && (JoinerOf(u).Entry? ==> JoinerOf(u) == JoinerOf(t) || MayJoin(s, s', JoinerOf(u)))
    // the flags and the counters
    && (forall r :: r in s.list && s.leaving[r] ==> s'.leaving[r])
    && (forall r :: r in s.list ==> s'.busy[r] + Counts(t, r) == s.busy[r] + Counts(u, r))
    && (forall r :: 0 <= r < |s.busy| && r !in s.list && s.busy[r] == 0 ==> s'.busy[r] == 0)
    // the waiters
    && (forall r :: r in s.list && s'.busy[r] == 0 && s.busy[r] != 0 ==> u == Left(r, 0))
    && (u.Waiting? ==> u.r in s.list && u.r < |s.busy| && s'.busy[u.r] != 0)
    && !t.Pulsing? && (t.Left? && t.busy == 0 ==> u == Pulsing(t.r) || (t.r in s.list && !s.leaving[t.r]))
    // the one that unlinks
    && (u.Removing? ==> u.r < |s.busy| && s'.busy[u.r] == 0)
    && (forall v :: v in s.threads && v.Removing? ==> v.r < |s.busy| && s'.busy[v.r] == 0)
  }

  lemma LockKept(ts: seq<Thread>, i: nat, u: Thread)
    requires Locked(ts) && i < |ts|
    requires Exclusive(u) ==> Exclusive(ts[i]) || forall v :: v in ts ==> !Exclusive(v) && !Shared(v)
    requires Shared(u) ==> Shared(ts[i]) || forall v :: v in ts ==> !Exclusive(v)
    ensures Locked(ts[i := u])
  {
    assert forall j :: 0 <= j < |ts| ==> ts[j] in ts;
  }

  lemma LeaversKept(s: State, i: nat, u: Thread, s': State)
    requires Inv(s) && i < |s.threads| && Fits(s, i, u, s')
    ensures Leavers(s'.list, s'.leaving, s'.threads)
  {
    hide Exact, Pulses, Joiners, Users, Locked;
    var ts, us := s.threads, s'.threads;
    assert forall j :: 0 <= j < |ts| ==> ts[j] in ts;
    forall j | 0 <= j < |us| && LeaverOf(us[j]).Entry? ensures
      var r := LeaverOf(us[j]).r; r in s'.list && r < |s'.leaving| && s'.leaving[r] {
      assert j != i ==> us[j] == ts[j];
    }
  }

  lemma JoinersKept(s: State, i: nat, u: Thread, s': State)
    requires Inv(s) && i < |s.threads| && Fits(s, i, u, s')
    ensures Joiners(s'.list, s'.busy, s'.threads)
  {
    hide Exact, Pulses, Leavers, Users, Locked;
    var ts, us := s.threads, s'.threads;
    assert forall j :: 0 <= j < |ts| ==> ts[j] in ts;
    forall j | 0 <= j < |us| && JoinerOf(us[j]).Entry? ensures
      var r := JoinerOf(us[j]).r; r !in s'.list && r < |s'.busy| && s'.busy[r] == 0 {
      assert j != i ==> us[j] == ts[j];
    }
  }

  lemma ExactKept(s: State, i: nat, u: Thread, s': State)
    requires Inv(s) && i < |s.threads| && Fits(s, i, u, s')
    ensures Exact(s'.list, s'.busy, s'.threads)
  {
    hide Pulses, Leavers, Joiners, Users, Locked;
    forall r | r in s'.list ensures r < |s'.busy| && s'.busy[r] == Count(s'.threads, r) {
      CountUpdate(s.threads, i, u, r);
    }
  }

  lemma PulsesKept(s: State, i: nat, u: Thread, s': State)
    requires Inv(s) && i < |s.threads| && Fits(s, i, u, s')
    ensures Pulses(s'.busy, s'.threads)
  {
    hide Joiners, Users, Locked, Count, MayJoin;
    var ts, us := s.threads, s'.threads;
    forall j | 0 <= j < |us| && us[j].Waiting? && us[j].r < |s'.busy| && s'.busy[us[j].r] == 0
      ensures Left(us[j].r, 0) in us || Pulsing(us[j].r) in us
    {
      var r := us[j].r;
      assert us[i] == u;
      if j != i && u != Left(r, 0) && u != Pulsing(r) {
        assert us[j] == ts[j] && LeaverOf(ts[j]) == Entry(r);
        assert s.busy[r] == 0;
        var k :| 0 <= k < |ts| && (ts[k] == Left(r, 0) || ts[k] == Pulsing(r));
        assert us[k] == ts[k];
      }
    }
  }

  lemma Stepped(s: State, i: nat, u: Thread, s': State)
    requires Inv(s) && i < |s.threads| && Fits(s, i, u, s')
    ensures Inv(s')
  {
    LockKept(s.threads, i, u);
    LeaversKept(s, i, u, s');
    JoinersKept(s, i, u, s');
    ExactKept(s, i, u, s');
    PulsesKept(s, i, u, s');
    UsersKept(s, i, u, s');
    RemoversKept(s, i, u, s');
    hide Locked, Leavers, Joiners, Exact, Pulses, Users, Removers;
  }

  lemma RemoversKept(s: State, i: nat, u: Thread, s': State)
    requires Inv(s) && i < |s.threads| && Fits(s, i, u, s')
    ensures Removers(s'.busy, s'.threads)
  {
    hide Locked, Leavers, Joiners, Exact, Pulses, Users;
    var ts, us := s.threads, s'.threads;
    forall j | 0 <= j < |us| && us[j].Removing? ensures us[j].r < |s'.busy| && s'.busy[us[j].r] == 0 {
      assert j != i ==> us[j] == ts[j] && ts[j] in ts;
    }
  }

  lemma UsersKept(s: State, i: nat, u: Thread, s': State)
    requires Inv(s) && i < |s.threads| && Fits(s, i, u, s')
    ensures Users(s'.list, s'.threads)
  {
    hide Locked, Leavers, Joiners, Exact, Pulses;
    var ts, us := s.threads, s'.threads;
    forall j | 0 <= j < |us| && UsedBy(us[j]).Entry? ensures UsedBy(us[j]).r in s'.list {
      assert j != i ==> us[j] == ts[j];
    }
  }

  // ---------- the list changes ----------

  lemma NextInList(list: seq<nat>, r: nat)
    ensures Next(list, r).Entry? ==> Next(list, r).r in list
    ensures First(list).Entry? ==> First(list).r in list
  {
    if |list| > 0 && list[0] != r {
      NextInList(list[1..], r);
    }
  }

  // RemoveEntryList takes r out and nothing else.
  lemma {:induction false} WithoutRemoves(list: seq<nat>, r: nat)
    requires Distinct(list)
    ensures Distinct(Without(list, r)) && forall x :: x in Without(list, r) <==> x in list && x != r
  {
    if |list| > 0 {
      var rest := list[1..];
      assert list == [list[0]] + rest;
      assert forall k :: 0 <= k < |rest| ==> rest[k] == list[k + 1];
      WithoutRemoves(rest, r);
      var w := Without(rest, r);
      assert list[0] !in rest;
      if list[0] != r {
        assert Without(list, r) == [list[0]] + w;
        forall j, k | 0 <= j < k < |w| + 1 ensures ([list[0]] + w)[j] != ([list[0]] + w)[k] {
          assert ([list[0]] + w)[k] == w[k - 1] && w[k - 1] in w;
          assert j > 0 ==> ([list[0]] + w)[j] == w[j - 1];
        }
      }
    }
  }

  lemma InsertKeeps(s: State, i: nat, r: nat)
    requires Inv(s) && i < |s.threads| && s.threads[i] == Inserting(r)
    ensures Inv(To(s.(list := s.list + [r]), i, Releasing))
  {
    hide Exact, Pulses, Locked;
    var ts, us := s.threads, s.threads[i := Releasing];
    var list := s.list + [r];
    assert JoinerOf(ts[i]) == Entry(r);
    LockKept(ts, i, Releasing);
    assert Users(list, us) by { hide Locked, Leavers, Joiners, Exact, Pulses; }
    LeaversShown(s, i, list);
    assert Joiners(list, s.busy, us) by {
      hide Locked, Leavers, Exact, Pulses;
      assert forall j :: 0 <= j < |us| && j != i ==> us[j] == ts[j];
    }
    ExactShown(s, i, r, list);
    PulsesShown(s.busy, ts, i);
    hide Locked, Leavers, Exact, Pulses, Joiners, Users;
  }

  lemma LeaversShown(s: State, i: nat, list: seq<nat>)
    requires Inv(s) && i < |s.threads| && (forall x :: x in s.list && LeaverOf(s.threads[i]) != Entry(x) ==> x in list)
    ensures Leavers(list, s.leaving, s.threads[i := Releasing])
  {
    hide Locked, Joiners, Exact, Pulses, Users;
    var ts, us := s.threads, s.threads[i := Releasing];
    assert forall j :: 0 <= j < |us| && j != i ==> us[j] == ts[j];
  }

  lemma PulsesShown(busy: seq<int>, ts: seq<Thread>, i: nat)
    requires Pulses(busy, ts) && i < |ts| && !ts[i].Left? && !ts[i].Pulsing?
    ensures Pulses(busy, ts[i := Releasing])
  {
    var us := ts[i := Releasing];
    forall j | 0 <= j < |us| && us[j].Waiting? && us[j].r < |busy| && busy[us[j].r] == 0
      ensures Left(us[j].r, 0) in us || Pulsing(us[j].r) in us
    {
      var r := us[j].r;
      var k :| 0 <= k < |ts| && (ts[k] == Left(r, 0) || ts[k] == Pulsing(r));
      assert us[k] == ts[k];
    }
  }

  // Nobody counts at an entry that is not in the list.
  lemma NobodyCounts(list: seq<nat>, ts: seq<Thread>, r: nat)
    requires Users(list, ts) && r !in list
    ensures Count(ts, r) == 0
  {
    CountZero(ts, r);
  }

  lemma ExactShown(s: State, i: nat, r: nat, list: seq<nat>)
    requires Inv(s) && i < |s.threads| && s.threads[i] == Inserting(r) && list == s.list + [r]
    ensures Exact(list, s.busy, s.threads[i := Releasing])
  {
    hide Locked, Leavers, Pulses;
    assert JoinerOf(s.threads[i]) == Entry(r);
    NobodyCounts(s.list, s.threads, r);
    forall x | x in list ensures x < |s.busy| && s.busy[x] == Count(s.threads[i := Releasing], x) {
      CountUpdate(s.threads, i, Releasing, x);
    }
  }

  // An entry that is not busy can be taken out under the lock: nobody is at it.
  lemma NobodyAt(s: State, i: nat, r: nat)
    requires Inv(s) && i < |s.threads| && s.threads[i] == Removing(r) && r < |s.busy| && s.busy[r] == 0
    ensures forall j :: 0 <= j < |s.threads| ==> UsedBy(s.threads[j]) != Entry(r)
    ensures forall j :: 0 <= j < |s.threads| && j != i ==> LeaverOf(s.threads[j]) != Entry(r)
  {
    assert LeaverOf(s.threads[i]) == Entry(r);
    CountZero(s.threads, r);
    assert Exclusive(s.threads[i]);
  }

  lemma RemoveKeeps(s: State, i: nat, r: nat)
    requires Inv(s) && i < |s.threads| && s.threads[i] == Removing(r) && r < |s.busy| && s.busy[r] == 0
    ensures Inv(To(s.(list := Without(s.list, r)), i, Releasing))
  {
    hide Count, Distinct, Without, Leavers, Pulses;
    var ts, us := s.threads, s.threads[i := Releasing];
    var list := Without(s.list, r);
    WithoutRemoves(s.list, r);
    NobodyAt(s, i, r);
    LockKept(ts, i, Releasing);
    assert forall j :: 0 <= j < |us| && j != i ==> us[j] == ts[j];
    assert Users(list, us) by { hide Locked, Leavers, Joiners, Exact, Pulses; }
    LeaversLeft(s, i, r, list);
    assert Joiners(list, s.busy, us) by { hide Locked, Leavers, Exact, Pulses; }
    assert Exact(list, s.busy, us) by {
      hide Locked, Leavers, Joiners, Pulses;
      forall x | x in list ensures x < |s.busy| && s.busy[x] == Count(us, x) {
        CountUpdate(ts, i, Releasing, x);
      }
    }
    PulsesShown(s.busy, ts, i);
    hide Locked, Leavers, Exact, Pulses, Joiners, Users;
  }

  lemma LeaversLeft(s: State, i: nat, r: nat, list: seq<nat>)
    requires Inv(s) && i < |s.threads| && s.threads[i] == Removing(r)
    requires forall x :: x in s.list && x != r ==> x in list
    requires forall j :: 0 <= j < |s.threads| && j != i ==> LeaverOf(s.threads[j]) != Entry(r)
    ensures Leavers(list, s.leaving, s.threads[i := Releasing])
  {
    hide Locked, Joiners, Exact, Pulses, Users;
    var ts, us := s.threads, s.threads[i := Releasing];
    assert forall j :: 0 <= j < |us| && j != i ==> us[j] == ts[j];
  }

  // ---------- every action ----------

  // A pulse changes what waiters do next and nothing else.
  ghost predicate Alike(ts: seq<Thread>, us: seq<Thread>) {
    && |us| == |ts|
    && forall j :: 0 <= j < |ts| ==>
         && LeaverOf(us[j]) == LeaverOf(ts[j]) && UsedBy(us[j]) == UsedBy(ts[j]) && JoinerOf(us[j]) == JoinerOf(ts[j])
         && Exclusive(us[j]) == Exclusive(ts[j]) && Shared(us[j]) == Shared(ts[j]) && !us[j].Waiting? && (us[j].Removing? ==> us[j] == ts[j])
         && forall r :: Counts(us[j], r) == Counts(ts[j], r)
  }

  lemma PulseKeeps(s: State, i: nat, r: nat)
    requires Inv(s) && i < |s.threads| && s.threads[i] == Pulsing(r)
    ensures Inv(s.(threads := Woken(s.threads[i := Following(r)])))
  {
    hide Inv, Woken;
    var ts, us := s.threads, Woken(s.threads[i := Following(r)]);
    assert Alike(ts, us);
    AlikeKeeps(s, us);
  }

  lemma AlikeKeeps(s: State, us: seq<Thread>)
    requires Inv(s) && Alike(s.threads, us)
    ensures Inv(s.(threads := us))
  {
    hide Counts, UsedBy, LeaverOf, JoinerOf, Exclusive, Shared, Count, Distinct;
    var ts := s.threads;
    forall x | x in s.list ensures s.busy[x] == Count(us, x) {
      CountSame(ts, us, x);
    }
  }

  lemma StartKeeps(s: State, i: nat, a: Action)
    requires Inv(s) && Enabled(s, i, a) && !a.Go?
    ensures Named(s, s.threads[i]) && (a.StartUnregister? ==> a.r < |s.leaving|)
    ensures Inv(Act(s, i, a))
  {
    InvNames(s, i);
    match a
    case StartRegister(r) =>
      RegisterFits(s, i, r);
      Stepped(s, i, Registering(r), Act(s, i, a));
    case StartUnregister(r) => UnregisterKeeps(s, i, r);
    case StartInvoke => EnterKeeps(s, i);
    case Wake => WakeKeeps(s, i);
  }

  lemma UnregisterKeeps(s: State, i: nat, r: nat)
    requires Inv(s) && Enabled(s, i, StartUnregister(r)) && |s.leaving| == |s.busy| && r < |s.busy|
    ensures Inv(To(s.(leaving := s.leaving[r := true]), i, Unregistering(r)))
  {
    hide Exact, Locked, Users, Leavers;
    var s' := To(s.(leaving := s.leaving[r := true]), i, Unregistering(r));
    assert forall v :: v in s.threads ==> LeaverOf(v) != Entry(r);
    assert Fits(s, i, Unregistering(r), s') by { hide Locked, Exact, Pulses, Joiners, Users; }
    Stepped(s, i, Unregistering(r), s');
  }

  lemma EnterKeeps(s: State, i: nat)
    requires Inv(s) && i < |s.threads| && s.threads[i].Idle?
    ensures Inv(To(s, i, Entering))
  {
    assert Fits(s, i, Entering, To(s, i, Entering)) by { hide Locked, Exact, Pulses, Joiners, Users, Leavers; }
    Stepped(s, i, Entering, To(s, i, Entering));
  }

  lemma WakeKeeps(s: State, i: nat)
    requires Inv(s) && i < |s.threads| && s.threads[i].Waiting?
    ensures Inv(To(s, i, Unregistering(s.threads[i].r)))
  {
    hide Exact, Pulses, Leavers, Users;
    var u := Unregistering(s.threads[i].r);
    assert Fits(s, i, u, To(s, i, u)) by { hide Locked, Exact, Pulses, Joiners, Users, Leavers; }
    Stepped(s, i, u, To(s, i, u));
  }

  lemma RegisterFits(s: State, i: nat, r: nat)
    requires Inv(s) && Enabled(s, i, StartRegister(r)) && |s.leaving| == |s.busy|
    ensures Fits(s, i, Registering(r), Act(s, i, StartRegister(r)))
  {
    hide Joiners, Exact;
    assert forall v :: v in s.threads ==> JoinerOf(v) != Entry(r);
  }

  // To an entry by the head or by the entry before.
  lemma LinkKeeps(s: State, i: nat, at: Link)
    requires Inv(s) && Enabled(s, i, Go) && (s.threads[i].Entering? || s.threads[i].Following?)
    requires at.Entry? ==> at.r in s.list
    ensures Inv(To(s, i, Looking(at)))
  {
    hide Users;
    assert Fits(s, i, Looking(at), To(s, i, Looking(at))) by { hide Locked, Exact, Pulses, Joiners, Users, Leavers; }
    Stepped(s, i, Looking(at), To(s, i, Looking(at)));
  }

  lemma CallKeeps(s: State, i: nat, u: Thread)
    requires Inv(s) && Enabled(s, i, Go)
    requires
      match s.threads[i]
      case Called(r) => u == Executing(r)
      case Executing(r) => u == Returned(r)
      case Returned(r) => u == Back(r)
      case Looking(at) => if at == Head then u == Idle else u == Counting(at.r)
      case _ => false
    ensures Inv(To(s, i, u))
  {
    hide Exact, Leavers, Joiners;
    assert UsedBy(s.threads[i]) == UsedBy(u);
    assert Fits(s, i, u, To(s, i, u)) by { hide Locked, Exact, Pulses, Joiners, Leavers; }
    Stepped(s, i, u, To(s, i, u));
  }

  lemma CountedKeeps(s: State, i: nat, r: nat)
    requires Inv(s) && i < |s.threads| && s.threads[i] == Counting(r) && r < |s.busy|
    ensures Inv(To(s.(busy := s.busy[r := s.busy[r] + 1]), i, Called(r)))
  {
    var s' := To(s.(busy := s.busy[r := s.busy[r] + 1]), i, Called(r));
    assert UsedBy(s.threads[i]) == Entry(r);
    assert s.busy[r] == Count(s.threads, r);
    assert Fits(s, i, Called(r), s') by { hide Locked, Exact, Pulses, Joiners, Leavers, Count; }
    Stepped(s, i, Called(r), s');
  }

  lemma InvokeKeeps(s: State, i: nat)
    requires Inv(s) && Enabled(s, i, Go)
    requires var t := s.threads[i]; t.Entering? || t.Looking? || t.Counting? || t.Called? || t.Executing? || t.Returned? || t.Following?
    ensures Named(s, s.threads[i]) && Inv(Advance(s, i))
  {
    hide Inv;
    InvNames(s, i);
    hide Fits, Enabled;
    match s.threads[i]
    case Entering =>
      NextInList(s.list, 0);
      LinkKeeps(s, i, First(s.list));
    case Following(r) =>
      NextInList(s.list, r);
      LinkKeeps(s, i, Next(s.list, r));
    case Looking(Entry(r)) =>
      if !s.leaving[r] {
        CallKeeps(s, i, Counting(r));
      }
    case Counting(r) => CountedKeeps(s, i, r);
    case Looking(Head) => CallKeeps(s, i, Idle);
    case Called(r) => CallKeeps(s, i, Executing(r));
    case Executing(r) => CallKeeps(s, i, Returned(r));
    case Returned(r) => CallKeeps(s, i, Back(r));
  }

  // While one thread holds the lock in shared mode nobody holds it exclusively.
  lemma NobodyExclusive(s: State, i: nat)
    requires Locked(s.threads) && i < |s.threads| && Shared(s.threads[i])
    ensures forall v :: v in s.threads ==> !Exclusive(v)
  {}

  lemma LeaveKeeps(s: State, i: nat)
    requires Inv(s) && Enabled(s, i, Go) && (s.threads[i].Back? || s.threads[i].Left? || s.threads[i].Pulsing?)
    ensures Named(s, s.threads[i]) && Inv(Advance(s, i))
  {
    hide Exact, Joiners, Leavers, Locked;
    InvNames(s, i);
    var t, s' := s.threads[i], Advance(s, i);
    if t.Pulsing? {
      PulseKeeps(s, i, t.r);
    } else {
      NobodyExclusive(s, i);
      Stepped(s, i, s'.threads[i], s');
    }
  }

  lemma LockedKeeps(s: State, i: nat)
    requires Inv(s) && Enabled(s, i, Go)
    requires var t := s.threads[i]; t.Registering? || t.Inserting? || t.Unregistering? || t.Holding? || t.Removing? || t.Releasing?
    ensures Named(s, s.threads[i]) && Inv(Advance(s, i))
  {
    hide Exact, Pulses, Unregisters;
    InvNames(s, i);
    var t, s' := s.threads[i], Advance(s, i);
    if t.Inserting? {
      InsertKeeps(s, i, t.r);
    } else if t.Removing? {
      RemoveKeeps(s, i, t.r);
    } else {
      assert t.Holding? ==> LeaverOf(t) == Entry(t.r);
      Stepped(s, i, s'.threads[i], s');
    }
  }

  lemma ActionKeeps(s: State, i: nat, a: Action)
    requires Inv(s) && Enabled(s, i, a)
    ensures Named(s, s.threads[i]) && (a.StartUnregister? ==> a.r < |s.leaving|)
    ensures Inv(Act(s, i, a))
  {
    if !a.Go? {
      StartKeeps(s, i, a);
    } else if s.threads[i].Back? || s.threads[i].Left? || s.threads[i].Pulsing? {
      LeaveKeeps(s, i);
    } else if UsedBy(s.threads[i]).Entry? || s.threads[i].Entering? || s.threads[i].Looking? {
      InvokeKeeps(s, i);
    } else {
      LockedKeeps(s, i);
    }
  }

  // ---------- whole runs ----------

  ghost predicate Run(states: seq<State>, who: seq<nat>, what: seq<Action>) {
    && |states| == |who| + 1 == |what| + 1 && Initial(states[0])
    && forall k :: 0 <= k < |who| ==> Happens(states[k], who[k], what[k], states[k + 1])
  }

  // That the fields of the entry exist excludes no step: ActionKeeps shows it always holds.
  ghost predicate Happens(s: State, i: nat, a: Action, s': State) {
    && Enabled(s, i, a)
    && Named(s, s.threads[i]) && (a.StartUnregister? ==> a.r < |s.leaving|)
    && s' == Act(s, i, a)
  }

  lemma {:induction false} Reached(states: seq<State>, who: seq<nat>, what: seq<Action>, k: nat)
    requires Run(states, who, what) && k < |states|
    ensures Inv(states[k])
  {
    hide Enabled;
    if k == 0 {
      assert forall j :: 0 <= j < |states[0].threads| ==> states[0].threads[j] in states[0].threads;
    } else {
      Reached(states, who, what, k - 1);
      assert Happens(states[k - 1], who[k - 1], what[k - 1], states[k]);
      ActionKeeps(states[k - 1], who[k - 1], what[k - 1]);
    }
  }

  // Whoever executes a callback function, or will go on from an entry, is at an entry that
  // is in the list, and the link it reads there leads into the list or to its head.
  lemma LinksAreSound(states: seq<State>, who: seq<nat>, what: seq<Action>, k: nat, i: nat, r: nat)
    requires Run(states, who, what) && k < |states| && i < |states[k].threads|
    requires UsedBy(states[k].threads[i]) == Entry(r)
    ensures r in states[k].list
    ensures Next(states[k].list, r).Entry? ==> Next(states[k].list, r).r in states[k].list
  {
    Reached(states, who, what, k);
    NextInList(states[k].list, r);
  }

  ghost predicate Quiet(s: State, r: nat) {
    r !in s.list && forall j :: 0 <= j < |s.threads| ==> UsedBy(s.threads[j]) != Entry(r)
  }

  // Once PhUnregisterCallback returns, the entry is unlinked, nobody else has been, and no
  // thread executes the function, is about to, or has just done so.
  lemma UnregisteredIsQuiet(states: seq<State>, who: seq<nat>, what: seq<Action>, k: nat, r: nat)
    requires Run(states, who, what) && k + 1 < |states|
    requires Enabled(states[k], who[k], what[k]) && what[k].Go? && states[k].threads[who[k]] == Removing(r)
    ensures r in states[k].list && Quiet(states[k + 1], r)
    ensures forall x :: x != r ==> (x in states[k].list <==> x in states[k + 1].list)
  {
    var s := states[k];
    Reached(states, who, what, k);
    Reached(states, who, what, k + 1);
    assert Happens(s, who[k], what[k], states[k + 1]);
    InvNames(s, who[k]);
    assert LeaverOf(s.threads[who[k]]) == Entry(r);
    WithoutRemoves(s.list, r);
  }

  // It stays so until somebody registers it again.
  lemma QuietLasts(states: seq<State>, who: seq<nat>, what: seq<Action>, k: nat, r: nat)
    requires Run(states, who, what) && k + 1 < |states| && Quiet(states[k], r)
    requires who[k] < |states[k].threads| && !(what[k].Go? && states[k].threads[who[k]] == Inserting(r))
    ensures Quiet(states[k + 1], r)
  {
    var s := states[k];
    Reached(states, who, what, k);
    Reached(states, who, what, k + 1);
    assert Happens(s, who[k], what[k], states[k + 1]);
    ActionKeeps(s, who[k], what[k]);
    var t := s.threads[who[k]];
    if t.Removing? {
      WithoutRemoves(s.list, t.r);
    }
  }

  // The busy counter of a registered callback is the number of threads inside it.
  lemma BusyIsExact(states: seq<State>, who: seq<nat>, what: seq<Action>, k: nat, r: nat)
    requires Run(states, who, what) && k < |states| && r in states[k].list
    ensures r < |states[k].busy| && states[k].busy[r] == Count(states[k].threads, r)
  {
    Reached(states, who, what, k);
  }

  // No wake-up is lost: a thread on the condition variable waits for a thread inside the
  // callback, or for one that is about to pulse.
  lemma WaitersAreWoken(states: seq<State>, who: seq<nat>, what: seq<Action>, k: nat, i: nat) returns (j: nat)
    requires Run(states, who, what) && k < |states| && i < |states[k].threads| && states[k].threads[i].Waiting?
    ensures j < |states[k].threads|
    ensures var t, r := states[k].threads[j], states[k].threads[i].r; Counts(t, r) == 1 || t == Left(r, 0) || t == Pulsing(r)
    ensures
      var s, r := states[k], states[k].threads[i].r;
      r < |s.leaving| && s.leaving[r]
  {
    var s := states[k];
    var r := s.threads[i].r;
    Reached(states, who, what, k);
    assert LeaverOf(s.threads[i]) == Entry(r);
    CountZero(s.threads, r);
    if s.busy[r] == 0 {
      j :| 0 <= j < |s.threads| && (s.threads[j] == Left(r, 0) || s.threads[j] == Pulsing(r));
    } else {
      j :| 0 <= j < |s.threads| && Counts(s.threads[j], r) != 0;
    }
  }
}
