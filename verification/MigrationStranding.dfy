/** The runs in which ending all executors leaves somebody, and hence when exactly it does not. */
module MigrationStranding {
  import opened Executor
  import opened LoadRebalance
  import opened Migration
  import opened MigrationTheorems
  import opened MigrationTermination

  // ---------------------------------------------------------------- telling everybody to end

  lemma TellStep(n: nat, p: Policy, st: Engine, e: nat) returns (st': Engine)
    requires Under(n, p, st) && e < n
    ensures Under(n, p, st') && |st.sites| == n && st' == st.(sites := st.sites[e := Post(st.sites[e], Termination)])
    ensures Lost(st) ==> Lost(st')
  {
    SitesUnder(n, p, st);
    hide Under, Lost;
    Next(n, p, st, Terminate(e));
    st' := Apply(st, Terminate(e));
    if Lost(st) {
      StillLostStep(st, Terminate(e));
    }
  }

  lemma {:induction false} TellFrom(n: nat, p: Policy, st: Engine, e: nat) returns (st': Engine)
    requires Under(n, p, st) && e <= n == |st.sites|
    requires forall f :: 0 <= f < e ==> ToldToEnd(st.sites[f])
    ensures Under(n, p, st') && |st'.sites| == n && forall f :: 0 <= f < n ==> ToldToEnd(st'.sites[f])
    ensures st'.spawned == st.spawned && st'.alive == st.alive && (Lost(st) ==> Lost(st'))
    ensures forall f :: 0 <= f < n ==> Mailed(st.sites[f], st'.sites[f])
    decreases n - e
  {
    hide Under, Lost;
    if e == n {
      st' := st;
    } else {
      var mid := TellStep(n, p, st, e);
      assert ToldToEnd(mid.sites[e]) && Mailed(st.sites[e], mid.sites[e]);
      st' := TellFrom(n, p, mid, e + 1);
    }
  }

  ghost predicate AllTold(st: Engine) {
    forall e :: 0 <= e < |st.sites| ==> ToldToEnd(st.sites[e])
  }

  lemma StillLostWork(st: Engine, st': Engine)
    requires Lost(st) && GoesTo(st, st')
    ensures Lost(st')
  {
    var run :| Works(st, run, st');
    StillLost(st, run);
  }

  /** All are told to end, and end. */
  lemma EndAll(n: nat, p: Policy, st: Engine) returns (st': Engine)
    requires Under(n, p, st)
    ensures Under(n, p, st') && AllStopped(st') && st'.spawned == st.spawned && 0 <= st'.alive <= st.alive
    ensures Lost(st) ==> st'.alive > 0
  {
    SitesUnder(n, p, st);
    hide Under, Lost;
    st' := TellFrom(n, p, st, 0);
    st' := EndTold(n, p, st');
  }

  lemma EndTold(n: nat, p: Policy, st: Engine) returns (st': Engine)
    requires Under(n, p, st) && AllTold(st)
    ensures Under(n, p, st') && AllStopped(st') && st'.spawned == st.spawned && 0 <= st'.alive <= st.alive
    ensures Lost(st) ==> st'.alive > 0
  {
    hide Under, Lost;
    st' := AllCanStop(n, p, st);
    if Lost(st) {
      StillLostWork(st, st');
    }
    UnderIsReachable(n, p, st');
    StoppedDoneExactly(n, st');
  }

  // ---------------------------------------------------------------- new actors

  /** Each of the first k executors has a new actor in its mailbox. */
  ghost predicate Spawned(n: nat, st: Engine, k: nat) {
    && |st.sites| == |st.counts| == n && st.alive == k
    && (forall e :: 0 <= e < n ==> st.sites[e] == if e < k then Post(Start(e), NewActor(n + e)) else Start(e))
    && (forall a :: a in st.spawned ==> n <= a < n + k)
    && (forall e :: 0 <= e < n ==> st.counts[e] == 0)
  }

  lemma SpawnNext(n: nat, st: Engine, k: nat)
    requires 0 < k <= n && Spawned(n, st, k - 1)
    ensures Enabled(st, Spawn(k - 1, n + k - 1)) && Spawned(n, Apply(st, Spawn(k - 1, n + k - 1)), k)
  {
  }

  lemma {:induction false} SpawnFirst(n: nat, p: Policy, k: nat) returns (run: seq<Action>, st: Engine)
    requires k <= n
    ensures Leads(n, p, run, st) && Spawned(n, st, k) && forall i :: 0 <= i < |run| ==> run[i].Spawn?
  {
    if k == 0 {
      run, st := [], Init(n);
      assert Legal(Init(n), []) && After(Init(n), []) == Init(n);
    } else {
      run, st := SpawnFirst(n, p, k - 1);
      var act := Spawn(k - 1, n + k - 1);
      SpawnNext(n, st, k);
      hide Leads, Spawned, Enabled, Apply;
      Extend(n, p, run, st, act);
      run, st := run + [act], Apply(st, act);
    }
  }

  // ---------------------------------------------------------------- an actor whose start leaves it inactive

  lemma DropStep(n: nat, p: Policy, st: Engine) returns (st': Engine)
    requires Under(n, p, st) && n >= 1 && !p.startsStay && Spawned(n, st, 1)
    ensures Under(n, p, st') && Lost(st') && st'.alive == 1
  {
    hide Under;
    var poll := Poll(0, _ => false);
    Next(n, p, st, poll);
    var s1 := Apply(st, poll);
    var act := VisitHead(0, 0, _ => Leaves);
    Next(n, p, s1, act);
    st' := Apply(s1, act);
    assert LostAt(st'.sites[0]);
  }

  lemma DroppedForever(n: nat, p: Policy) returns (st: Engine)
    requires n >= 1 && !p.startsStay
    ensures Under(n, p, st) && AllStopped(st) && st.alive == 1
  {
    hide Under, Spawned;
    var run;
    run, st := SpawnFirst(n, p, 1);
    LeadsUnder(n, p, run, st);
    st := DropStep(n, p, st);
    st := EndAll(n, p, st);
  }

  lemma LeadsUnder(n: nat, p: Policy, run: seq<Action>, st: Engine)
    requires Leads(n, p, run, st)
    ensures Under(n, p, st)
  {
  }

  // ---------------------------------------------------------------- an actor spawned too late

  lemma SpawnedTooLate(n: nat, p: Policy) returns (st: Engine)
    requires n >= 1 && !p.spawnsFirst
    ensures Under(n, p, st) && AllStopped(st) && st.alive == 1
  {
    hide Under;
    var run;
    run, st := SpawnFirst(n, p, 0);
    LeadsUnder(n, p, run, st);
    st := EndAll(n, p, st);
    SitesUnder(n, p, st);
    var act := Spawn(0, n);
    Next(n, p, st, act);
    st := Apply(st, act);
  }

  // ---------------------------------------------------------------- an actor on its way to an executor that has stopped

  /** Executor e is between two rounds and hosts one actor. */
  predicate Hosts(s: Site, e: nat, a: ActorId) {
    && !s.stopped && s.x.activated && s.next == s.x.num && s.x.actors == [e, a]
    && s.mail == []
  }

  /** What one round of executor e changes that sends nothing. */
  ghost predicate OneRound(st: Engine, st': Engine, e: nat) {
    && e < |st.sites| == |st.counts| == |st'.sites|
    && st' == st.(sites := st.sites[e := st'.sites[e]], counts := st.counts[e := st.counts[e] + 1])
  }

  lemma HostRound(n: nat, p: Policy, st: Engine, e: nat, a: ActorId) returns (st': Engine)
    requires Under(n, p, st) && e < n == |st.sites| == |st.counts| && st.sites[e] == Post(Start(e), NewActor(a))
    ensures Under(n, p, st') && OneRound(st, st', e) && Hosts(st'.sites[e], e, a)
  {
    hide Under;
    var poll := Poll(e, _ => false);
    Next(n, p, st, poll);
    var s1 := Apply(st, poll);
    var head := VisitHead(e, 0, _ => Stays);
    Next(n, p, s1, head);
    var s2 := Apply(s1, head);
    assert s2.sites == s1.sites[e := s2.sites[e]];
    var next := VisitNext(e, _ => Stays);
    Next(n, p, s2, next);
    st' := Apply(s2, next);
    assert st'.sites == st.sites[e := st'.sites[e]];
  }

  /** The poll says that the hosted actor has something, and nobody else. */
  predicate Busy(s: Site, e: nat, a: ActorId) {
    && !s.stopped && s.x.activated && s.next == 0 && s.x.actors == [e, a] && s.mail == [] && s.x.outbox == []
    && SameLength(s.x) && s.x.items == [PollItem(e, false), PollItem(a, true)]
  }

  /** The actor has work. */
  lemma BusyRound(n: nat, p: Policy, st: Engine, e: nat, a: ActorId) returns (st': Engine)
    requires Under(n, p, st) && e < n == |st.sites| && Hosts(st.sites[e], e, a)
    ensures Under(n, p, st') && OneRound(st, st', e) && Hosts(st'.sites[e], e, a)
  {
    SitesUnder(n, p, st);
    hide Under, Inv;
    var poll := Poll(e, _ => true);
    BusyPoll(st.sites[e], e, n, a, poll.ready);
    hide Polled, Hosts, SiteOk;
    Next(n, p, st, poll);
    var s1 := Apply(st, poll);
    st' := BusyVisits(n, p, s1, e, a);
  }

  lemma BusyPoll(s: Site, e: nat, n: nat, a: ActorId, ready: ActorId -> bool)
    requires SiteOk(s, e, n) && Hosts(s, e, a) && ready(a)
    ensures Wakes(s, ready) && s.next == s.x.num && !s.stopped && s.x.activated && Busy(Polled(s, ready), e, a)
  {
    assert ready(s.x.items[1].socket);
  }

  lemma BusyVisits(n: nat, p: Policy, st: Engine, e: nat, a: ActorId) returns (st': Engine)
    requires Under(n, p, st) && e < |st.sites| == |st.counts| && Busy(st.sites[e], e, a)
    ensures Under(n, p, st') && OneRound(st, st', e) && Hosts(st'.sites[e], e, a)
  {
    hide Under;
    var head := VisitHead(e, 0, _ => Stays);
    Next(n, p, st, head);
    var s2 := Apply(st, head);
    assert s2.sites == st.sites[e := s2.sites[e]];
    var next := VisitNext(e, _ => Stays);
    Next(n, p, s2, next);
    st' := Apply(s2, next);
    assert st'.sites == st.sites[e := st'.sites[e]];
  }

  lemma {:induction false} BusyRounds(n: nat, p: Policy, st: Engine, e: nat, a: ActorId, k: nat) returns (st': Engine)
    requires Under(n, p, st) && e < n == |st.sites| == |st.counts| && Hosts(st.sites[e], e, a)
    ensures Under(n, p, st') && |st'.sites| == n && Hosts(st'.sites[e], e, a)
    ensures st' == st.(sites := st.sites[e := st'.sites[e]], counts := st.counts[e := st.counts[e] + k])
    decreases k
  {
    hide Under, Hosts;
    if k == 0 {
      st' := st;
      assert st.sites[e := st.sites[e]] == st.sites && st.counts[e := st.counts[e]] == st.counts;
    } else {
      var mid := BusyRound(n, p, st, e, a);
      st' := BusyRounds(n, p, mid, e, a, k - 1);
      assert st'.sites == st.sites[e := st'.sites[e]] && st'.counts == st.counts[e := st.counts[e] + k];
    }
  }

  /** The executors from k on took in their actors, in a round each. */
  ghost predicate HostedFrom(n: nat, st: Engine, k: nat) {
    && |st.sites| == |st.counts| == n
    && (forall e :: 0 <= e < k <= n ==> st.sites[e] == Post(Start(e), NewActor(n + e)) && st.counts[e] == 0)
    && (forall e :: k <= e < n ==> Hosts(st.sites[e], e, n + e) && st.counts[e] == 1)
  }

  lemma {:induction false} HostFrom(n: nat, p: Policy, k: nat) returns (st: Engine)
    requires k <= n
    ensures Under(n, p, st) && HostedFrom(n, st, k)
    decreases n - k
  {
    hide Under, Hosts, Post;
    if k == n {
      var run;
      run, st := SpawnFirst(n, p, n);
      LeadsUnder(n, p, run, st);
    } else {
      var mid := HostFrom(n, p, k + 1);
      st := HostRound(n, p, mid, k, n + k);
    }
  }

  /** Enough rounds for a rebalancing in which an executor that made one round counts as too slow. */
  function Enough(p: Policy): nat {
    var far := if p.limit > 0.0 then 2 * p.limit.Floor + 3 else 1;
    if p.period > far then p.period else far
  }

  lemma EnoughIsApart(p: Policy)
    ensures Enough(p) >= 1 && Ratio(1, Enough(p)) >= p.limit
  {
    var k := Enough(p);
    if p.limit > 0.0 {
      assert (k - 1) as real >= 2.0 * p.limit;
      QuotientMonotone((k - 1) as real, 1.000001, 2.0 * p.limit, 2.0);
    }
  }

  /** All host one actor; the last executor made enough rounds, the others one. */
  ghost predicate Uneven(n: nat, p: Policy, st: Engine) {
    && |st.sites| == |st.counts| == n >= 2
    && Hosts(st.sites[0], 0, n)
    && forall e :: 0 <= e < n ==> st.counts[e] == if e == n - 1 then Enough(p) else 1
  }

  /** The last executor is busy while executor 0 has not made its first round yet. */
  lemma MakeUneven(n: nat, p: Policy) returns (st: Engine)
    requires n >= 2
    ensures Under(n, p, st) && Uneven(n, p, st)
  {
    hide Under, Hosts, Post;
    var s1 := HostFrom(n, p, 1);
    EnoughIsApart(p);
    var s2 := BusyRounds(n, p, s1, n - 1, n + n - 1, Enough(p) - 1);
    st := HostRound(n, p, s2, 0, n);
  }

  /** Executor 0 is asked to give its actor to the last one. */
  ghost predicate Asked(n: nat, st: Engine) {
    && |st.sites| == n >= 2
    && var s := st.sites[0];
       && !s.stopped && s.x.activated && s.next == s.x.num && s.x.actors == [0, n]
       && s.mail != [] && s.mail[0] == Rebalance(n - 1)
  }

  /** Executor 0 is through with its round and balances the load at once. */
  lemma BalanceStep(n: nat, p: Policy, st: Engine) returns (st': Engine)
    requires Under(n, p, st) && Uneven(n, p, st) && p.period > 0
    ensures Under(n, p, st') && Asked(n, st')
  {
    hide Under;
    EnoughIsApart(p);
    var order := seq(n, k requires 0 <= k < n => k);
    assert st.counts[n - 1] >= p.period;
    var act := Balance(0, order, p.limit, p.period);
    Next(n, p, st, act);
    st' := Apply(st, act);
    FirstAsked(n, p, st, order);
  }

  lemma FirstAsked(n: nat, p: Policy, st: Engine, order: seq<nat>)
    requires Uneven(n, p, st) && order == seq(n, k requires 0 <= k < n => k) && SortedBy(st.counts, order)
    requires Ratio(1, Enough(p)) >= p.limit
    ensures Asked(n, st.(sites := Deliver(st.sites, Requests(Wanted(st.counts, order, p.limit, 0)))))
  {
    var w := Wanted(st.counts, order, p.limit, 0);
    assert Apart(st.counts, order, p.limit, 0);
    assert w[0] == (0, n - 1);
    var out := Requests(w);
    assert out[0] == (0, Rebalance(n - 1));
    var sites := st.sites[0 := Post(st.sites[0], Rebalance(n - 1))];
    DeliverLeaves(sites, out[1..], 0);
  }

  /** All are told to end, and the last executor ends before executor 0 gets to the request. */
  lemma LastEnds(n: nat, p: Policy, st: Engine) returns (st': Engine)
    requires Under(n, p, st) && Asked(n, st)
    ensures Under(n, p, st') && Asked(n, st') && st'.sites[n - 1].stopped && AllTold(st')
  {
    hide Under, Lost;
    var mid := TellFrom(n, p, st, 0);
    assert Mailed(st.sites[0], mid.sites[0]);
    NoWorkYet(n, p, mid);
    var k := 0;
    if Termination in mid.sites[n - 1].mail {
      k :| 0 <= k < |mid.sites[n - 1].mail| && mid.sites[n - 1].mail[k] == Termination;
    }
    st' := StopOne(n, p, mid, mid, n - 1, k);
    assert Mailed(mid.sites[0], st'.sites[0]);
    OthersStillTold(mid, st', n - 1);
  }

  /** The poll finds the request. */
  ghost predicate Requested(n: nat, st: Engine) {
    && |st.sites| == |st.counts| == n >= 2 && AllTold(st) && st.sites[n - 1].stopped
    && var s := st.sites[0];
       && !s.stopped && s.x.activated && s.next == 0 && s.x.actors == [0, n] && SameLength(s.x) && s.x.items[0].ready
       && s.mail != [] && s.mail[0] == Rebalance(n - 1)
  }

  lemma RequestFound(n: nat, p: Policy, st: Engine) returns (st': Engine)
    requires Under(n, p, st) && Asked(n, st) && st.sites[n - 1].stopped && AllTold(st)
    ensures Under(n, p, st') && Requested(n, st')
  {
    SitesUnder(n, p, st);
    hide Under, Inv;
    var poll := Poll(0, _ => false);
    Next(n, p, st, poll);
    st' := Apply(st, poll);
  }

  lemma GiveStep(n: nat, p: Policy, st: Engine) returns (st': Engine)
    requires Under(n, p, st) && Requested(n, st)
    ensures Under(n, p, st') && Lost(st') && AllTold(st')
  {
    SitesUnder(n, p, st);
    hide Under, Inv, Lost, Apply;
    var act := VisitHead(0, 0, _ => Stays);
    Given(n, st, act.outcome);
    Next(n, p, st, act);
    WorkBeside(st, act);
    st' := Apply(st, act);
    hide Enabled, SiteOk, SameLength;
    var s := st.sites[0];
    assert s.mail == [s.mail[0]] + s.mail[1..];
    OthersStillTold(st, st', 0);
  }

  lemma OthersStillTold(st: Engine, st': Engine, e: nat)
    requires Beside(st, st', e) && AllTold(st) && e < |st.sites| && ToldToEnd(st'.sites[e])
    ensures AllTold(st')
  {
    forall f | 0 <= f < |st.sites| && f != e ensures ToldToEnd(st'.sites[f]) {
      ToldStays(st.sites[f], st'.sites[f]);
    }
  }

  lemma Given(n: nat, st: Engine, outcome: ActorId -> Outcome)
    requires |st.sites| == |st.counts| == n >= 2 && SiteOk(st.sites[0], 0, n)
    requires Enabled(st, VisitHead(0, 0, outcome)) && st.sites[n - 1].stopped
    requires var s := st.sites[0]; s.x.actors == [0, n] && s.x.items[0].ready && s.mail[0] == Rebalance(n - 1)
    ensures var st' := Apply(st, VisitHead(0, 0, outcome));
            && Lost(st') && |st'.sites| == n && st'.sites[0].x.activated == st.sites[0].x.activated
            && st'.sites[0].mail == st.sites[0].mail[1..]
  {
    var s := st.sites[0];
    var x := s.x.(ran := s.x.ran + [s.x.actors[0]]);
    RebalanceSends(x, n - 1, 0);
    hide OnRebalance;
    var s' := HeadVisited(s, 0, outcome);
    var sent := ActorTransfer(n, Handlers(n));
    var sites := st.sites[0 := s'.(x := s'.x.(outbox := []))];
    DeliverOne(sites, s'.x.outbox);
    InMailPost(sites[n - 1].mail, sent, Unfinished);
    assert LostAt(Apply(st, VisitHead(0, 0, outcome)).sites[n - 1]);
  }

  /** Load balancing asks an executor to give an actor to one that ends before it gets it. */
  lemma TransferStranded(n: nat, p: Policy) returns (st: Engine)
    requires n >= 2 && p.period > 0
    ensures Under(n, p, st) && AllStopped(st) && st.alive > 0
  {
    hide Under, Uneven, Asked, Requested, Lost, AllTold;
    st := MakeUneven(n, p);
    st := BalanceStep(n, p, st);
    st := LastEnds(n, p, st);
    st := RequestFound(n, p, st);
    st := GiveStep(n, p, st);
    st := EndTold(n, p, st);
  }

  // ---------------------------------------------------------------- exactly when

  /** Once all executors have stopped everybody is finished, in every run, if and only if there is no
      executor, or every start leaves its actor active, everything is spawned before its executor is told
      to end, and actors cannot move: balancing is off or there is one executor. */
  lemma TerminationFinishesExactly(n: nat, p: Policy)
    ensures (forall st :: Under(n, p, st) && AllStopped(st) ==> st.alive == 0) <==> n == 0 || Finishing(n, p)
  {
    if n == 0 {
      forall st | Under(n, p, st) ensures st.alive == 0 {
        UnderIsReachable(n, p, st);
        ReachableInv(n, st);
      }
    } else if Finishing(n, p) {
      forall st | Under(n, p, st) && AllStopped(st) ensures st.alive == 0 {
        FinishingFinishes(n, p, st);
      }
    } else if !p.startsStay {
      var st := DroppedForever(n, p);
    } else if !p.spawnsFirst {
      var st := SpawnedTooLate(n, p);
    } else {
      var st := TransferStranded(n, p);
    }
  }
}
