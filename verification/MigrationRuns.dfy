/**
 Executors, told by what was done in a run: a round from its poll on, how many rounds were made, who is
 asked to give an actor to whom because of that, and why an executor ends.
 */
module MigrationRuns {
  import opened Wrappers
  import opened Executor
  import opened LoadRebalance
  import opened Migration
  import opened MigrationTheorems
  import opened MigrationTermination

  // ---------------------------------------------------------------- a round from its poll on

  /** Executor e does nothing, the others do anything. */
  ghost predicate Waits(run: seq<Action>, e: nat) {
    forall i :: 0 <= i < |run| ==> (run[i].e == e ==> run[i].Spawn? || run[i].Balance? || run[i].Terminate?)
  }

  lemma {:induction false} WaitsUnchanged(n: nat, st: Engine, run: seq<Action>, e: nat)
    requires Inv(n, st) && Legal(st, run) && Waits(run, e) && e < n
    ensures Inv(n, After(st, run)) && e < |After(st, run).sites|
    ensures After(st, run).sites[e] == st.sites[e].(mail := After(st, run).sites[e].mail)
    decreases |run|
  {
    hide Enabled, Apply;
    SitesInv(n, st);
    hide Inv;
    if run != [] {
      StepInv(n, st, run[0]);
      SitesInv(n, Apply(st, run[0]));
      OthersOnlySend(st, run[0], e);
      WaitsUnchanged(n, Apply(st, run[0]), run[1..], e);
    }
  }

  lemma {:induction false} LegalOn(st: Engine, run: seq<Action>, run': seq<Action>)
    requires Legal(st, run) && Legal(After(st, run), run')
    ensures Legal(st, run + run') && After(st, run + run') == After(After(st, run), run')
    decreases |run|
  {
    hide Enabled, Apply;
    if run == [] {
      assert [] + run' == run';
    } else {
      LegalOn(Apply(st, run[0]), run[1..], run');
      assert (run + run')[0] == run[0] && (run + run')[1..] == run[1..] + run';
    }
  }

  lemma ReachableOn(n: nat, st: Engine, run: seq<Action>)
    requires Reachable(n, st) && Legal(st, run)
    ensures Reachable(n, After(st, run))
  {
    var run0 :| Legal(Init(n), run0) && After(Init(n), run0) == st;
    LegalOn(Init(n), run0, run);
  }

  lemma OneLegal(st: Engine, act: Action)
    requires Enabled(st, act)
    ensures Legal(st, [act]) && After(st, [act]) == Apply(st, act)
  {
    assert [act][1..] == [];
  }

  /** What the poll marks: an actor that is hosted and whose socket has something. */
  lemma PollMarks(s: Site, e: nat, n: nat, ready: ActorId -> bool, a: ActorId)
    requires SiteOk(s, e, n) && !s.stopped && a != e
    ensures PollItem(a, true) in Polled(s, ready).x.items <==> a in s.x.actors && ready(a)
  {
    var items := Polled(s, ready).x.items;
    if a in s.x.actors && ready(a) {
      var k :| 0 <= k < |s.x.actors| && s.x.actors[k] == a;
      assert items[k] == PollItem(a, true);
    }
    if PollItem(a, true) in items {
      var k :| 0 <= k < |items| && items[k] == PollItem(a, true);
      assert s.x.actors[k] == a;
    }
  }

  /** A round in any run, from its poll on: the poll finds out whose sockets have something, the executor
      handles its command, and goes through its entries, while the others do anything before and between.
      When it is through, each actor that was hosted and had something at the poll, and is still hosted
      after the command, has run exactly once, and nobody else. */
  lemma RoundFromThePoll(n: nat, st: Engine, e: nat, ready: ActorId -> bool, others: seq<Action>, rand: nat,
                         outcome: ActorId -> Outcome, run: seq<Action>, a: ActorId)
    requires Reachable(n, st) && Enabled(st, Poll(e, ready)) && a != e
    requires Legal(Apply(st, Poll(e, ready)), others) && Waits(others, e)
    requires Enabled(After(Apply(st, Poll(e, ready)), others), VisitHead(e, rand, outcome))
    requires var st1 := Apply(After(Apply(st, Poll(e, ready)), others), VisitHead(e, rand, outcome));
             && Legal(st1, run) && GoesOn(run, e, outcome)
             && e < |After(st1, run).sites| && After(st1, run).sites[e].next == After(st1, run).sites[e].x.num
    ensures var st1 := Apply(After(Apply(st, Poll(e, ready)), others), VisitHead(e, rand, outcome));
            && e < |st1.sites|
            && var runs := a in st.sites[e].x.actors && ready(a) && a in st1.sites[e].x.actors;
               Times(After(st1, run).sites[e].x.ran, a) == (if runs then 1 else 0)
  {
    var polled := Apply(st, Poll(e, ready));
    ReachableInv(n, st);
    SitesInv(n, st);
    PollMarks(st.sites[e], e, n, ready, a);
    StepInv(n, st, Poll(e, ready));
    OneLegal(st, Poll(e, ready));
    ReachableOn(n, st, [Poll(e, ready)]);
    assert polled.sites[e] == Polled(st.sites[e], ready);
    hide Inv, Enabled, Apply, Polled, Reachable, GoesOn;
    WaitsUnchanged(n, polled, others, e);
    ReachableOn(n, polled, others);
    EveryRoundIsExact(n, After(polled, others), run, e, rand, outcome, a);
  }

  // ---------------------------------------------------------------- how many rounds were made

  /** The step ends a round of executor e that goes on. */
  ghost predicate EndsRound(st: Engine, act: Action, e: nat)
    requires Enabled(st, act)
  {
    && act.e == e && (act.VisitHead? || act.VisitNext?)
    && e < |Apply(st, act).sites|
    && var s := Apply(st, act).sites[e]; s.next == s.x.num && s.x.activated
  }

  /** The rounds of e in a run, without those before the last rebalancing; `before` it made so many. */
  ghost function Rounds(st: Engine, run: seq<Action>, e: nat, before: nat): nat
    requires Legal(st, run)
    decreases |run|
  {
    if run == [] then before
    else
      Rounds(Apply(st, run[0]), run[1..], e,
             if run[0].Balance? then 0 else if EndsRound(st, run[0], e) then before + 1 else before)
  }

  lemma CountsStep(n: nat, st: Engine, act: Action, e: nat)
    requires Inv(n, st) && Enabled(st, act) && e < n
    ensures var st' := Apply(st, act);
            |st'.counts| == n
            && st'.counts[e] == if act.Balance? then 0 else if EndsRound(st, act, e) then st.counts[e] + 1 else st.counts[e]
  {
    SitesInv(n, st);
    hide Inv, HeadVisited, NextVisited, StopAll, Wanted, IsOrder, SortedBy;
    var f, s := act.e, st.sites[act.e];
    match act
    case VisitHead(_, rand, outcome) =>
      var s' := HeadVisited(s, rand, outcome);
      DeliverLeaves(st.sites[f := s'.(x := s'.x.(outbox := []))], s'.x.outbox, f);
    case VisitNext(_, outcome) =>
      var s' := NextVisited(s, outcome);
      DeliverLeaves(st.sites[f := s'.(x := s'.x.(outbox := []))], s'.x.outbox, f);
    case Stop(_) => StoppedUncounted(s);
    case _ =>
  }

  lemma StoppedUncounted(s: Site)
    requires !s.x.activated
    ensures !StopAll(s.x).activated
  {
  }

  /** The counts are the rounds made since the last rebalancing, in every run. */
  lemma {:induction false} CountsAreRounds(n: nat, st: Engine, run: seq<Action>, e: nat)
    requires Inv(n, st) && Legal(st, run) && e < n
    ensures |After(st, run).counts| == n && After(st, run).counts[e] == Rounds(st, run, e, st.counts[e])
    decreases |run|
  {
    SitesInv(n, st);
    hide Inv, Enabled, Apply, EndsRound;
    if run != [] {
      StepInv(n, st, run[0]);
      CountsStep(n, st, run[0], e);
      CountsAreRounds(n, Apply(st, run[0]), run[1..], e);
    }
  }

  // ---------------------------------------------------------------- who is asked

  /** What is for e, in order. */
  function For(outbox: seq<(nat, Command)>, e: nat): seq<Command> {
    if outbox == [] then [] else (if outbox[0].0 == e then [outbox[0].1] else []) + For(outbox[1..], e)
  }

  lemma {:induction false} DeliverGives(sites: seq<Site>, outbox: seq<(nat, Command)>, e: nat)
    requires e < |sites|
    ensures |Deliver(sites, outbox)| == |sites|
    ensures Deliver(sites, outbox)[e] == sites[e].(mail := sites[e].mail + For(outbox, e))
    decreases |outbox|
  {
    if outbox != [] {
      var (peer, c) := outbox[0];
      DeliverGives(if peer < |sites| then sites[peer := Post(sites[peer], c)] else sites, outbox[1..], e);
    }
  }

  lemma {:induction false} ForRequests(pairs: seq<(nat, nat)>, e: nat, c: Command)
    ensures c in For(Requests(pairs), e) <==> c.Rebalance? && (e, c.peer) in pairs
    decreases |pairs|
  {
    if pairs != [] {
      assert Requests(pairs)[1..] == Requests(pairs[1..]);
      ForRequests(pairs[1..], e, c);
      assert pairs == [pairs[0]] + pairs[1..];
    }
  }

  /** Load balancing in a run: it happens only when somebody made a whole period of rounds since it happened
      last, and it asks e to give an actor to f exactly if they stand at mirror places of the order by
      rounds, e in the first half, and f made too many more rounds. Nobody's mail changes otherwise. */
  lemma BalancesByRounds(n: nat, run: seq<Action>, order: seq<nat>, limit: real, period: nat, e: nat) returns (rounds: seq<nat>)
    requires Legal(Init(n), run) && Enabled(After(Init(n), run), Balance(0, order, limit, period)) && e < n
    ensures |rounds| == n && forall k :: 0 <= k < n ==> rounds[k] == Rounds(Init(n), run, k, 0)
    ensures period > 0 && exists k :: 0 <= k < n && rounds[k] >= period
    ensures IsOrder(order, n) && SortedBy(rounds, order)
    ensures var st, st' := After(Init(n), run), Apply(After(Init(n), run), Balance(0, order, limit, period));
            && |st.sites| == |st'.sites| == n
            && exists asked: seq<Command> :: st'.sites[e] == st.sites[e].(mail := st.sites[e].mail + asked)
                 && forall c :: c in asked <==> c.Rebalance? && c.peer < n && TooFar(rounds[e], rounds[c.peer], limit)
                                                && exists m :: MirrorPair(order, m, e, c.peer)
  {
    var st := After(Init(n), run);
    InitInv(n);
    RunInv(n, Init(n), run);
    SitesInv(n, st);
    rounds := st.counts;
    forall k | 0 <= k < n ensures rounds[k] == Rounds(Init(n), run, k, 0) {
      CountsAreRounds(n, Init(n), run, k);
    }
    var w := Wanted(st.counts, order, limit, 0);
    WantedIsTooFar(st.counts, order, limit);
    hide Inv, Wanted, Rounds, TooFar, MirrorPair;
    DeliverGives(st.sites, Requests(w), e);
    var asked := For(Requests(w), e);
    forall c: Command
      ensures c in asked <==> c.Rebalance? && c.peer < n && TooFar(rounds[e], rounds[c.peer], limit)
                              && exists m :: MirrorPair(order, m, e, c.peer)
    {
      ForRequests(w, e, c);
    }
  }

  // ---------------------------------------------------------------- who is given away, and who ends

  /** Each hosted actor can be the one that goes, and it goes with its own handlers. */
  lemma EverybodyCanGo(x: Exec, peer: nat, i: nat)
    requires Aligned(x) && 0 < i < x.num && x.outbox == []
    ensures var y := OnRebalance(x, peer, i - 1);
            && y.outbox == [(peer, ActorTransfer(x.actors[i], Handlers(x.actors[i])))]
            && y.actors == x.actors[i := x.actors[x.num - 1]][..x.num - 1]
  {
    RebalanceSends(x, peer, i - 1);
    if x.num > 1 {
      SmallRemainder(i - 1, x.num - 1);
    }
  }

  lemma SmallRemainder(k: nat, m: nat)
    requires k < m
    ensures k % m == k
  {
  }

  /** An executor is deactivated by a Termination, or by a start that throws, and by nothing else. */
  lemma DeactivatedExactly(n: nat, st: Engine, act: Action, e: nat)
    requires Reachable(n, st) && Enabled(st, act) && e < n && |st.sites| == n && st.sites[e].x.activated
    ensures |Apply(st, act).sites| == n
    ensures !Apply(st, act).sites[e].x.activated <==>
              act.VisitHead? && act.e == e && st.sites[e].x.items[0].ready
              && (st.sites[e].mail[0].Termination?
                  || (st.sites[e].mail[0].NewActor? && act.outcome(st.sites[e].mail[0].actor).Throws?))
  {
    ReachableInv(n, st);
    SitesInv(n, st);
    hide Inv, Reachable;
    if act.e != e || act.Spawn? || act.Balance? || act.Terminate? {
      OthersOnlySend(st, act, e);
      hide Apply;
    } else {
      OwnActivity(n, st, act);
    }
  }

  lemma OwnActivity(n: nat, st: Engine, act: Action)
    requires |st.sites| == n && Enabled(st, act) && SiteOk(st.sites[act.e], act.e, n) && st.sites[act.e].x.activated
    requires act.Poll? || act.VisitHead? || act.VisitNext? || act.Stop?
    ensures |Apply(st, act).sites| == n
    ensures var s := st.sites[act.e];
            !Apply(st, act).sites[act.e].x.activated <==>
              act.VisitHead? && s.x.items[0].ready
              && (s.mail[0].Termination? || (s.mail[0].NewActor? && act.outcome(s.mail[0].actor).Throws?))
  {
    var e, s := act.e, st.sites[act.e];
    match act
    case VisitHead(_, rand, outcome) =>
      var s' := HeadVisited(s, rand, outcome);
      DeliverLeaves(st.sites[e := s'.(x := s'.x.(outbox := []))], s'.x.outbox, e);
    case VisitNext(_, outcome) =>
      var s' := NextVisited(s, outcome);
      DeliverLeaves(st.sites[e := s'.(x := s'.x.(outbox := []))], s'.x.outbox, e);
    case _ =>
  }
}
