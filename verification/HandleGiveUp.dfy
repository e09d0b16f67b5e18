// When an allocation may give up.
//
// The story of an allocation is told in terms of the actions of its thread and of the two
// free lists: it has found the main list empty under the table lock, has taken what was on
// the alternate list and put all of it on the main list, and has failed to get a new table.
module HandleGiveUp {
  import opened HandleProtocol
  import opened HandleLedger
  import opened Chains
  import opened Listings
  import opened HandleSafety
  import opened HandleSteps
  import opened HandleRuns

  function Rev(c: seq<nat>): (r: seq<nat>)
    ensures |r| == |c|
  {
    if c == [] then [] else Rev(c[1..]) + [c[0]]
  }

  // The steps at which the thread wanted the table lock, found no free handle under it, took
  // the alternate list, which was the chain, delivered it, and failed to grow.
  datatype Story = Story(want: nat, check: nat, swap: nat, put: nat, fail: nat, chain: seq<nat>)

  // Thread i does a in step n, being where p says.
  ghost predicate Did(states: seq<Table>, who: seq<nat>, what: seq<Action>, i: nat, n: nat, a: Action) {
    n + 1 < |states| && n < |who| && n < |what| && who[n] == i && what[n] == a && i < |states[n].threads|
  }

  ghost predicate Wanted(states: seq<Table>, who: seq<nat>, what: seq<Action>, i: nat, k: nat, h: Story) {
    && h.want < k < |states| && Did(states, who, what, i, h.want, Go) && states[h.want].threads[i].Want?
    && forall n :: h.want < n <= k ==> i < |states[n].threads| && !states[n].threads[i].Want?
  }

  ghost predicate Checked(states: seq<Table>, who: seq<nat>, what: seq<Action>, i: nat, k: nat, h: Story) {
    && h.want < h.check < k && Did(states, who, what, i, h.check, Go)
    && states[h.check].threads[i].Recheck? && states[h.check].free == INVALID
  }

  ghost predicate Swapped(states: seq<Table>, who: seq<nat>, what: seq<Action>, i: nat, k: nat, h: Story) {
    && h.check < h.swap < k && Did(states, who, what, i, h.swap, Go) && states[h.swap].threads[i].Swap?
    && LinkedTo(states[h.swap].next, states[h.swap].freeAlt, h.chain, INVALID)
  }

  // In step n thread i puts the chain on the main list, turned round, in front of the rest.
  ghost predicate Puts(states: seq<Table>, who: seq<nat>, what: seq<Action>, i: nat, n: nat, chain: seq<nat>) {
    && Did(states, who, what, i, n, Go)
    && exists rest: seq<nat> ::
         && LinkedTo(states[n].next, states[n].free, rest, INVALID)
         && LinkedTo(states[n + 1].next, states[n + 1].free, Rev(chain) + rest, INVALID)
  }

  ghost predicate Put(states: seq<Table>, who: seq<nat>, what: seq<Action>, i: nat, k: nat, h: Story) {
    h.chain == [] || (h.swap < h.put < k && Puts(states, who, what, i, h.put, h.chain))
  }

  ghost predicate Failed(states: seq<Table>, who: seq<nat>, what: seq<Action>, i: nat, k: nat, h: Story) {
    && h.swap < h.fail < k && (h.chain == [] || h.put < h.fail)
    && Did(states, who, what, i, h.fail, Fail) && states[h.fail].threads[i].Grow?
  }

  // What has happened when thread i is at t.
  ghost predicate Told(states: seq<Table>, who: seq<nat>, what: seq<Action>, i: nat, k: nat, h: Story, t: Thread, l: Ledger) {
    && (Searches(t) ==> Wanted(states, who, what, i, k, h))
    && (Searches(t) && !t.Recheck? ==> Checked(states, who, what, i, k, h))
    && (Searches(t) && !t.Recheck? && !t.Swap? ==> Swapped(states, who, what, i, k, h))
    && (t.Passing? || t.Flags? || t.Short? ==> l.moving == h.chain && l.moved == [])
    && (t.Reverse? ==> Rev(l.moved) + l.moving == h.chain)
    && (t.Push? || t.PushCas? ==> l.moving == [] && Rev(l.moved) == h.chain)
    && (t.Grow? || GivingUp(t) ==> Put(states, who, what, i, k, h))
    && (GivingUp(t) ==> Failed(states, who, what, i, k, h))
  }

  predicate GivingUp(t: Thread) { (t.Grown? && !t.ok) || (t.After? && !t.ok) }

  predicate Searches(t: Thread) {
    t.Recheck? || t.Swap? || t.Passing? || t.Flags? || t.Short? || t.Reverse? || t.Push? || t.PushCas? || t.Grow? || GivingUp(t)
  }

  lemma {:induction false} RevRev(c: seq<nat>)
    ensures Rev(Rev(c)) == c
  {
    if c != [] {
      RevRev(c[1..]);
      RevAppend(Rev(c[1..]), c[0]);
    }
  }

  lemma {:induction false} RevAppend(c: seq<nat>, x: nat)
    ensures Rev(c + [x]) == [x] + Rev(c)
  {
    if c != [] {
      RevAppend(c[1..], x);
      assert (c + [x])[1..] == c[1..] + [x];
    }
  }

  lemma TurnedRev(moving: seq<nat>, moved: seq<nat>)
    requires moving != []
    ensures Rev([moving[0]] + moved) + moving[1..] == Rev(moved) + moving
  {
    assert ([moving[0]] + moved)[1..] == moved;
  }

  // ---------- one step ----------

  // Only thread i moves.
  predicate OnlyMoves(s: Table, i: nat, s': Table)
    requires i < |s.threads|
  {
    |s'.threads| == |s.threads| && s'.threads == s.threads[i := s'.threads[i]]
  }

  lemma StepsMove(s: Table, i: nat, t: Thread)
    requires i < |s.threads|
    ensures OnlyMoves(s, i, PopStep(s, i, t)) && OnlyMoves(s, i, WaitStep(s, i, t)) && OnlyMoves(s, i, GrowStep(s, i, t))
  {
  }

  lemma MoreStepsMove(s: Table, i: nat, t: Thread)
    requires i < |s.threads|
    ensures OnlyMoves(s, i, DetachStep(s, i, t)) && OnlyMoves(s, i, ReverseStep(s, i, t)) && OnlyMoves(s, i, FreeStep(s, i, t))
  {
  }

  lemma OneMoves(s: Table, i: nat, a: Action)
    requires Enabled(s, i, a)
    ensures OnlyMoves(s, i, Act(s, i, a))
  {
    hide Vacant, PopStep, WaitStep, DetachStep, ReverseStep, GrowStep, FreeStep;
    StepsMove(s, i, s.threads[i]);
    MoreStepsMove(s, i, s.threads[i]);
  }

  // Where thread i is after its own action.
  function Goes(s: Table, i: nat, a: Action): Thread
    requires Enabled(s, i, a)
  {
    OneMoves(s, i, a);
    Act(s, i, a).threads[i]
  }

  predicate Own(a: Action) { a.Go? || a.Fail? }

  lemma WaitSearches(s: Table, i: nat, t: Thread)
    requires i < |s.threads| && !Searches(t) && !t.Want? && s.threads[i] == t
    ensures !Searches(PopStep(s, i, t).threads[i]) && !Searches(WaitStep(s, i, t).threads[i])
  {
  }

  lemma GrowSearches(s: Table, i: nat, t: Thread)
    requires i < |s.threads| && !Searches(t) && s.threads[i] == t
    ensures !Searches(GrowStep(s, i, t).threads[i]) && !Searches(FreeStep(s, i, t).threads[i])
  {
  }

  // A search for free handles under the table lock is entered by its beginning only.
  lemma SearchEntered(s: Table, i: nat, a: Action)
    requires Enabled(s, i, a) && !s.threads[i].Want? && !Searches(s.threads[i])
    ensures !Searches(Goes(s, i, a))
  {
    hide Vacant, PopStep, WaitStep, DetachStep, ReverseStep, GrowStep, FreeStep;
    WaitSearches(s, i, s.threads[i]);
    GrowSearches(s, i, s.threads[i]);
  }

  // And it is not left for a second one.
  lemma SearchGoesOn(s: Table, i: nat, a: Action)
    requires Enabled(s, i, a) && Own(a) && (Searches(s.threads[i]) || s.threads[i].Want?) && Searches(Goes(s, i, a))
    ensures
      var t, u := s.threads[i], Goes(s, i, a);
      && (a == Fail <==> t.Grow?)
      && match t
         case Want => u == Recheck
         case Recheck => u == Swap && s.free == INVALID
         case Swap => u == if s.freeAlt == INVALID then Grow else Passing(s.freeAlt, 0)
         case Passing(_, _) => u.Passing? || u.Flags?
         case Flags(_) => u.Short? || u.Reverse?
         case Short(_) => u.Reverse? && s.free != INVALID
         case Reverse(_, _, _, _, _) => u.Reverse? || u.Push?
         case Push(_, _, _, _) => u.PushCas?
         case PushCas(_, _, seen, _, _) => if seen == s.free then u.Grow? else u.Push?
         case Grow => u == Grown(false)
         case Grown(ok) => !ok && u == After(false)
         case _ => false
  {
    hide Vacant;
  }

  lemma ClientStays(s: Table, i: nat, a: Action)
    requires Enabled(s, i, a) && (a.Write? || a.SetStrict?)
    ensures Goes(s, i, a) == s.threads[i]
  {
    hide Vacant;
  }

  lemma BeginsElsewhere(s: Table, i: nat, a: Action)
    requires Enabled(s, i, a) && (a.Allocate? || a.Free?)
    ensures s.threads[i].Idle?
  {
    hide Vacant;
  }

  // ---------- the story told step by step ----------

  lemma ToldNothing(states: seq<Table>, who: seq<nat>, what: seq<Action>, i: nat, k: nat, h: Story, t: Thread, l: Ledger)
    requires !Searches(t)
    ensures Told(states, who, what, i, k, h, t, l)
  {}

  // What has happened has happened.
  lemma Still(states: seq<Table>, who: seq<nat>, what: seq<Action>, i: nat, k: nat, h: Story)
    requires k + 1 < |states| && i < |states[k + 1].threads| && !states[k + 1].threads[i].Want?
    ensures Wanted(states, who, what, i, k, h) ==> Wanted(states, who, what, i, k + 1, h)
    ensures Checked(states, who, what, i, k, h) ==> Checked(states, who, what, i, k + 1, h)
    ensures Swapped(states, who, what, i, k, h) ==> Swapped(states, who, what, i, k + 1, h)
    ensures Put(states, who, what, i, k, h) ==> Put(states, who, what, i, k + 1, h)
    ensures Failed(states, who, what, i, k, h) ==> Failed(states, who, what, i, k + 1, h)
  {
    hide LinkedTo, Rev, Puts, Did;
  }

  lemma ToldStill(states: seq<Table>, who: seq<nat>, what: seq<Action>, i: nat, k: nat, h: Story, t: Thread, l: Ledger, l': Ledger)
    requires Told(states, who, what, i, k, h, t, l) && k + 1 < |states|
    requires i < |states[k + 1].threads| && states[k + 1].threads[i] == t
    requires t.After? || (l'.moving == l.moving && l'.moved == l.moved)
    ensures Told(states, who, what, i, k + 1, h, t, l')
  {
    hide Wanted, Checked, Swapped, Put, Failed, Rev;
    if Searches(t) {
      Still(states, who, what, i, k, h);
    }
  }

  // Nobody touches what the owner of the table lock has in hand.
  lemma OthersHand(s: Table, l: Ledger, i: nat, j: nat, a: Action, l': Ledger)
    requires Inv(s, l) && i < |s.threads| && j < |s.threads| && i != j && Searches(s.threads[i]) && !s.threads[i].After?
    requires HandStep(s, l, j, a, l')
    ensures l'.moving == l.moving && l'.moved == l.moved
  {
    hide Filed, Chained, InHand, NamesExist, Readers, Freers, Sized;
    assert Owns(s.threads[i]);
  }

  // Thread i searches on, from t in step k to u, the first of the two books being l.
  ghost predicate SearchesOn(states: seq<Table>, who: seq<nat>, what: seq<Action>, i: nat, k: nat, h: Story, l: Ledger, l': Ledger) {
    && k + 1 < |states| && k < |what| && Did(states, who, what, i, k, what[k]) && Own(what[k])
    && Inv(states[k], l) && Inv(states[k + 1], l') && HandStep(states[k], l, i, what[k], l')
    && Told(states, who, what, i, k, h, states[k].threads[i], l)
    && i < |states[k + 1].threads| && Searches(states[k + 1].threads[i])
  }

  lemma WantTells(states: seq<Table>, who: seq<nat>, what: seq<Action>, i: nat, k: nat, h: Story, l: Ledger, l': Ledger) returns (h': Story)
    requires SearchesOn(states, who, what, i, k, h, l, l')
    requires states[k].threads[i].Want? && what[k] == Go && states[k + 1].threads[i].Recheck?
    ensures Told(states, who, what, i, k + 1, h', states[k + 1].threads[i], l')
  {
    hide Inv, HandStep, Checked, Swapped, Put, Failed, Told;
    h' := h.(want := k);
    WantTold(states, who, what, i, k, h', states[k + 1].threads[i], l');
  }

  lemma WantTold(states: seq<Table>, who: seq<nat>, what: seq<Action>, i: nat, k: nat, h: Story, u: Thread, l: Ledger)
    requires u == Recheck && k + 1 < |states| && Did(states, who, what, i, k, Go) && states[k].threads[i].Want? && h.want == k
    requires i < |states[k + 1].threads| && states[k + 1].threads[i] == u
    ensures Told(states, who, what, i, k + 1, h, u, l)
  {
    hide Checked, Swapped, Put, Failed;
  }

  lemma RecheckTells(states: seq<Table>, who: seq<nat>, what: seq<Action>, i: nat, k: nat, h: Story, l: Ledger, l': Ledger) returns (h': Story)
    requires SearchesOn(states, who, what, i, k, h, l, l')
    requires states[k].threads[i].Recheck? && what[k] == Go && states[k].free == INVALID && states[k + 1].threads[i].Swap?
    ensures Told(states, who, what, i, k + 1, h', states[k + 1].threads[i], l')
  {
    hide Inv, HandStep, Swapped, Put, Failed;
    Still(states, who, what, i, k, h);
    h' := h.(check := k);
  }

  lemma AltChain(s: Table, l: Ledger, i: nat)
    requires Inv(s, l) && i < |s.threads| && s.threads[i].Swap?
    ensures LinkedTo(s.next, s.freeAlt, l.alt, INVALID) && l.moved == []
    ensures s.freeAlt == INVALID <==> l.alt == []
  {
    HeadExists(s, l);
    HolderHas(s, l, i);
  }

  lemma MainChain(s: Table, l: Ledger)
    requires Inv(s, l)
    ensures LinkedTo(s.next, s.free, l.main, INVALID)
  {
    hide LinkedTo;
  }

  lemma SwapTells(states: seq<Table>, who: seq<nat>, what: seq<Action>, i: nat, k: nat, h: Story, l: Ledger, l': Ledger) returns (h': Story)
    requires SearchesOn(states, who, what, i, k, h, l, l')
    requires states[k].threads[i].Swap? && what[k] == Go
    requires if states[k].freeAlt == INVALID then states[k + 1].threads[i].Grow? else states[k + 1].threads[i].Passing?
    ensures Told(states, who, what, i, k + 1, h', states[k + 1].threads[i], l')
  {
    hide Inv, Failed, Rev, LinkedTo, Puts;
    h' := h.(swap := k, chain := l.alt);
    AltChain(states[k], l, i);
    Still(states, who, what, i, k, h);
  }

  lemma DetachTells(states: seq<Table>, who: seq<nat>, what: seq<Action>, i: nat, k: nat, h: Story, l: Ledger, l': Ledger)
    requires SearchesOn(states, who, what, i, k, h, l, l') && what[k] == Go
    requires var t, u := states[k].threads[i], states[k + 1].threads[i];
      ((t.Passing? || t.Flags?) && (u.Passing? || u.Flags? || u.Short? || u.Reverse?)) || (t.Short? && u.Reverse? && states[k].free != INVALID)
    ensures Told(states, who, what, i, k + 1, h, states[k + 1].threads[i], l')
  {
    hide Inv, Wanted, Checked, Swapped, Put, Failed;
    Still(states, who, what, i, k, h);
  }

  lemma HandAfterTurn(s: Table, l: Ledger, i: nat)
    requires Inv(s, l) && i < |s.threads| && s.threads[i].Push?
    ensures l.moving == []
  {
    HolderHas(s, l, i);
  }

  lemma ReverseTells(states: seq<Table>, who: seq<nat>, what: seq<Action>, i: nat, k: nat, h: Story, l: Ledger, l': Ledger)
    requires SearchesOn(states, who, what, i, k, h, l, l') && what[k] == Go
    requires states[k].threads[i].Reverse? && (states[k + 1].threads[i].Reverse? || states[k + 1].threads[i].Push?)
    ensures Told(states, who, what, i, k + 1, h, states[k + 1].threads[i], l')
  {
    hide Inv, Wanted, Checked, Swapped, Put, Failed, LinkedTo, Rev;
    if states[k + 1].threads[i].Push? {
      HandAfterTurn(states[k + 1], l', i);
    }
    Still(states, who, what, i, k, h);
    TurnedRev(l.moving, l.moved);
    assert states[k + 1].threads[i].Push? ==> Rev(l'.moved) + [] == Rev(l'.moved);
  }

  lemma PushTells(states: seq<Table>, who: seq<nat>, what: seq<Action>, i: nat, k: nat, h: Story, l: Ledger, l': Ledger)
    requires SearchesOn(states, who, what, i, k, h, l, l') && what[k] == Go
    requires var t, u := states[k].threads[i], states[k + 1].threads[i];
      (t.Push? && u.PushCas?) || (t.PushCas? && t.seen != states[k].free && u.Push?)
    ensures Told(states, who, what, i, k + 1, h, states[k + 1].threads[i], l')
  {
    hide Inv, Wanted, Checked, Swapped, Put, Failed, LinkedTo, Rev;
    Still(states, who, what, i, k, h);
  }

  lemma CasTells(states: seq<Table>, who: seq<nat>, what: seq<Action>, i: nat, k: nat, h: Story, l: Ledger, l': Ledger) returns (h': Story)
    requires SearchesOn(states, who, what, i, k, h, l, l') && what[k] == Go
    requires states[k].threads[i].PushCas? && states[k].threads[i].seen == states[k].free && states[k + 1].threads[i].Grow?
    ensures Told(states, who, what, i, k + 1, h', states[k + 1].threads[i], l')
  {
    hide Inv, Wanted, Checked, Swapped, Failed, LinkedTo, Rev;
    h' := h.(put := k);
    ChainPut(states, who, what, i, k, h.chain, l, l');
    SwapBefore(states, who, what, i, k, h);
    Still(states, who, what, i, k, h);
    SameWant(states, who, what, i, k + 1, h, h');
  }

  lemma SwapBefore(states: seq<Table>, who: seq<nat>, what: seq<Action>, i: nat, k: nat, h: Story)
    requires Swapped(states, who, what, i, k, h)
    ensures h.swap < k
  {}

  lemma ChainPut(states: seq<Table>, who: seq<nat>, what: seq<Action>, i: nat, k: nat, chain: seq<nat>, l: Ledger, l': Ledger)
    requires k + 1 < |states| && Did(states, who, what, i, k, Go) && Inv(states[k], l) && Inv(states[k + 1], l')
    requires l.moving == [] && Rev(l.moved) == chain && l'.main == l.moving + l.moved + l.main
    ensures Puts(states, who, what, i, k, chain)
  {
    hide Inv, LinkedTo, Rev;
    MainChain(states[k], l);
    MainChain(states[k + 1], l');
    RevRev(l.moved);
    assert l'.main == Rev(chain) + l.main;
  }

  lemma SameWant(states: seq<Table>, who: seq<nat>, what: seq<Action>, i: nat, k: nat, h: Story, h': Story)
    requires h'.want == h.want && h'.check == h.check && h'.swap == h.swap && h'.chain == h.chain
    ensures Wanted(states, who, what, i, k, h) == Wanted(states, who, what, i, k, h')
    ensures Checked(states, who, what, i, k, h) == Checked(states, who, what, i, k, h')
    ensures Swapped(states, who, what, i, k, h) == Swapped(states, who, what, i, k, h')
    ensures h'.put == h.put ==> Put(states, who, what, i, k, h) == Put(states, who, what, i, k, h')
  {}

  lemma GrowTells(states: seq<Table>, who: seq<nat>, what: seq<Action>, i: nat, k: nat, h: Story, l: Ledger, l': Ledger) returns (h': Story)
    requires SearchesOn(states, who, what, i, k, h, l, l')
    requires var t, u := states[k].threads[i], states[k + 1].threads[i];
      (t.Grow? && what[k] == Fail && u == Grown(false)) || (t == Grown(false) && what[k] == Go && u == After(false))
    ensures Told(states, who, what, i, k + 1, h', states[k + 1].threads[i], l')
  {
    h' := if states[k].threads[i].Grow? then h.(fail := k) else h;
    assert states[k].threads[i].Grow? ==> Failed(states, who, what, i, k + 1, h');
    hide Inv, Wanted, Checked, Swapped, Put, Failed, LinkedTo, Rev;
    Still(states, who, what, i, k, h);
    SameWant(states, who, what, i, k + 1, h, h');
  }

  lemma SearchTells(states: seq<Table>, who: seq<nat>, what: seq<Action>, i: nat, k: nat, h: Story, l: Ledger, l': Ledger) returns (h': Story)
    requires SearchesOn(states, who, what, i, k, h, l, l')
    requires Enabled(states[k], i, what[k]) && states[k + 1].threads[i] == Goes(states[k], i, what[k])
    ensures Told(states, who, what, i, k + 1, h', states[k + 1].threads[i], l')
  {
    hide Inv, Told, HandStep, Enabled, Goes, Searches;
    var s, t := states[k], states[k].threads[i];
    if !t.Want? && !Searches(t) {
      SearchEntered(s, i, what[k]);
    }
    SearchGoesOn(s, i, what[k]);
    h' := h;
    match t
    case Want => h' := WantTells(states, who, what, i, k, h, l, l');
    case Recheck => h' := RecheckTells(states, who, what, i, k, h, l, l');
    case Swap => h' := SwapTells(states, who, what, i, k, h, l, l');
    case Passing(_, _) => DetachTells(states, who, what, i, k, h, l, l');
    case Flags(_) => DetachTells(states, who, what, i, k, h, l, l');
    case Short(_) => DetachTells(states, who, what, i, k, h, l, l');
    case Reverse(_, _, _, _, _) => ReverseTells(states, who, what, i, k, h, l, l');
    case Push(_, _, _, _) => PushTells(states, who, what, i, k, h, l, l');
    case PushCas(_, _, seen, _, _) =>
      if seen == s.free { h' := CasTells(states, who, what, i, k, h, l, l'); } else { PushTells(states, who, what, i, k, h, l, l'); }
    case _ => h' := GrowTells(states, who, what, i, k, h, l, l');
  }

  lemma TellOn(states: seq<Table>, who: seq<nat>, what: seq<Action>, i: nat, k: nat, h: Story, l: Ledger, l': Ledger) returns (h': Story)
    requires Run(states, who, what) && k < |who| && i < |states[k].threads|
    requires Inv(states[k], l) && Inv(states[k + 1], l')
    requires Enabled(states[k], who[k], what[k]) && HandStep(states[k], l, who[k], what[k], l')
    requires Told(states, who, what, i, k, h, states[k].threads[i], l)
    ensures i < |states[k + 1].threads| && Told(states, who, what, i, k + 1, h', states[k + 1].threads[i], l')
  {
    hide Inv, Told, Enabled, Act;
    h' := h;
    var s, a, t := states[k], what[k], states[k].threads[i];
    OneMoves(s, who[k], a);
    Continues(states, who, what, k);
    var u := states[k + 1].threads[i];
    if !Searches(u) {
      ToldNothing(states, who, what, i, k + 1, h, u, l');
    } else if who[k] != i {
      OthersTell(s, l, i, who[k], a, l');
      ToldStill(states, who, what, i, k, h, t, l, l');
    } else if Own(a) {
      h' := SearchTells(states, who, what, i, k, h, l, l');
    } else if a.Write? || a.SetStrict? {
      ClientStays(s, i, a);
      ToldStill(states, who, what, i, k, h, t, l, l');
    } else {
      BeginsElsewhere(s, i, a);
      SearchEntered(s, i, a);
    }
  }

  lemma OthersTell(s: Table, l: Ledger, i: nat, j: nat, a: Action, l': Ledger)
    requires Inv(s, l) && i < |s.threads| && j < |s.threads| && i != j && Searches(s.threads[i]) && HandStep(s, l, j, a, l')
    ensures s.threads[i].After? || (l'.moving == l.moving && l'.moved == l.moved)
  {
    hide Inv, HandStep;
    if !s.threads[i].After? {
      OthersHand(s, l, i, j, a, l');
    }
  }

  lemma Continues(states: seq<Table>, who: seq<nat>, what: seq<Action>, k: nat)
    requires Run(states, who, what) && k < |who|
    ensures |states| == |who| + 1 == |what| + 1
    ensures Enabled(states[k], who[k], what[k]) && states[k + 1] == Act(states[k], who[k], what[k])
  {}

  // The story of thread i up to step k, beside the books.
  lemma {:induction false} Tale(states: seq<Table>, who: seq<nat>, what: seq<Action>, i: nat, k: nat) returns (h: Story, l: Ledger)
    requires Run(states, who, what) && k < |states| && i < |states[0].threads|
    ensures i < |states[k].threads| && Inv(states[k], l) && Told(states, who, what, i, k, h, states[k].threads[i], l)
  {
    hide Inv, Told, Enabled, Act, HandStep;
    if k == 0 {
      l := InitialBooks(states[0]);
      h := Story(0, 0, 0, 0, 0, []);
      assert states[0].threads[i] in states[0].threads;
      ToldNothing(states, who, what, i, 0, h, states[0].threads[i], l);
    } else {
      var l0;
      h, l0 := Tale(states, who, what, i, k - 1);
      Continues(states, who, what, k - 1);
      l := ActionKeeps(states[k - 1], l0, who[k - 1], what[k - 1]);
      h := TellOn(states, who, what, i, k - 1, h, l0, l);
    }
  }

  lemma {:induction false} SameThreads(states: seq<Table>, who: seq<nat>, what: seq<Action>, k: nat)
    requires Run(states, who, what) && k < |states|
    ensures |states[k].threads| == |states[0].threads|
  {
    hide Enabled, Act;
    if k > 0 {
      SameThreads(states, who, what, k - 1);
      Continues(states, who, what, k - 1);
      OneMoves(states[k - 1], who[k - 1], what[k - 1]);
    }
  }

  // An allocation returns without a handle only if the main list is empty, and since it last
  // wanted the table lock it has itself found it empty under the lock, then taken the
  // alternate list, put what was on it on the main list, the handle freed first in front, and
  // then failed to get a new table.
  lemma GivesUp(states: seq<Table>, who: seq<nat>, what: seq<Action>, k: nat) returns (h: Story)
    requires Run(states, who, what) && k < |who| && who[k] < |states[k].threads| && states[k].threads[who[k]].After?
    requires who[k] < |states[k + 1].threads| && states[k + 1].threads[who[k]].Idle?
    ensures states[k].free == INVALID
    ensures Wanted(states, who, what, who[k], k, h) && Checked(states, who, what, who[k], k, h)
    ensures Swapped(states, who, what, who[k], k, h) && Put(states, who, what, who[k], k, h) && Failed(states, who, what, who[k], k, h)
  {
    hide Wanted, Checked, Swapped, Put, Failed, Inv;
    SameThreads(states, who, what, k);
    var l;
    h, l := Tale(states, who, what, who[k], k);
    Continues(states, who, what, k);
    IdleAfter(states[k], who[k], what[k]);
  }

  lemma IdleAfter(s: Table, i: nat, a: Action)
    requires Enabled(s, i, a) && s.threads[i].After? && Goes(s, i, a).Idle?
    ensures !s.threads[i].ok && s.free == INVALID
  {
    hide Vacant;
  }

  // ---------- the other returns ----------

  lemma InitiallyIdle(s: Table, i: nat)
    requires Initial(s) && i < |s.threads|
    ensures s.threads[i].Idle?
  {
    assert s.threads[i] in s.threads;
  }

  lemma WaitEnds(s: Table, i: nat, t: Thread)
    requires i < |s.threads| && s.threads[i] == t && !t.Idle?
    ensures !PopStep(s, i, t).threads[i].Idle?
    ensures WaitStep(s, i, t).threads[i].Idle? ==> WaitStep(s, i, t).out == s.out && (t.After? || (t.Unlock? && t.won))
  {}

  lemma FreeEnds(s: Table, i: nat, t: Thread)
    requires i < |s.threads| && s.threads[i] == t && !t.Idle?
    ensures var s' := FreeStep(s, i, t);
      s'.threads[i].Idle? ==> s'.out == s.out && t.GiveCas? && (if t.main then s'.free else s'.freeAlt) == t.v
  {}

  lemma OthersEnd(s: Table, i: nat, t: Thread)
    requires i < |s.threads| && s.threads[i] == t && !t.Idle?
    ensures !DetachStep(s, i, t).threads[i].Idle? && !ReverseStep(s, i, t).threads[i].Idle? && !GrowStep(s, i, t).threads[i].Idle?
  {}

  // A thread comes to an end only by giving up, with a handle, or by having freed one.
  lemma ReturnsHow(s: Table, i: nat, a: Action)
    requires Enabled(s, i, a) && !s.threads[i].Idle? && Goes(s, i, a).Idle?
    ensures var t, s' := s.threads[i], Act(s, i, a);
      && a == Go && s'.out == s.out
      && (t.After? || (t.Unlock? && t.won) || (t.GiveCas? && (if t.main then s'.free else s'.freeAlt) == t.v))
  {
    hide Vacant, PopStep, WaitStep, DetachStep, ReverseStep, GrowStep, FreeStep;
    WaitEnds(s, i, s.threads[i]);
    FreeEnds(s, i, s.threads[i]);
    OthersEnd(s, i, s.threads[i]);
  }

  lemma WonHow(s: Table, i: nat, a: Action)
    requires Enabled(s, i, a) && Goes(s, i, a).Unlock? && Goes(s, i, a).won && s.threads[i] != Goes(s, i, a)
    ensures a == Go && s.threads[i].Ready? && s.threads[i].f == s.free == Goes(s, i, a).f
    ensures Act(s, i, a).out == s.out + {s.free}
  {
    hide Vacant;
  }

  // A thread that returns with a handle has taken it from the head of the main list itself,
  // and has done nothing since.
  lemma {:induction false} Won(states: seq<Table>, who: seq<nat>, what: seq<Action>, i: nat, k: nat) returns (n: nat)
    requires Run(states, who, what) && k < |states| && i < |states[0].threads| && i < |states[k].threads|
    requires states[k].threads[i].Unlock? && states[k].threads[i].won
    ensures n < k && Did(states, who, what, i, n, Go) && states[n].threads[i].Ready?
    ensures var f := states[k].threads[i].f;
      states[n].free == f == states[n].threads[i].f && f !in states[n].out && states[n + 1].out == states[n].out + {f}
    ensures forall m :: n < m <= k ==> i < |states[m].threads| && states[m].threads[i] == states[k].threads[i]
  {
    hide Enabled, Act;
    if k == 0 {
      InitiallyIdle(states[0], i);
    } else {
      SameThreads(states, who, what, k - 1);
      var s, j, a := states[k - 1], who[k - 1], what[k - 1];
      Continues(states, who, what, k - 1);
      OneMoves(s, j, a);
      if s.threads[i] == states[k].threads[i] {
        n := Won(states, who, what, i, k - 1);
      } else {
        WonHow(s, i, a);
        var main := NoAba(states, who, what, k - 1);
        n := k - 1;
      }
    }
  }
}
