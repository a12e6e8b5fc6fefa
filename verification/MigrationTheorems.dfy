/** What holds in every state of every run of an engine's executors. */
module MigrationTheorems {
  import opened Wrappers
  import opened Executor
  import opened LoadRebalance
  import opened Migration

  lemma {:induction false} TotalAtLeast(sites: seq<Site>, e: nat, m: Measure)
    requires e < |sites|
    ensures AtSite(sites[e], m) <= Total(sites, m)
    decreases |sites|
  {
    hide AtSite;
    if e > 0 {
      TotalAtLeast(sites[1..], e - 1, m);
    }
  }

  lemma {:induction false} TotalAtLeastTwo(sites: seq<Site>, e: nat, f: nat, m: Measure)
    requires e < f < |sites|
    ensures AtSite(sites[e], m) + AtSite(sites[f], m) <= Total(sites, m)
    decreases |sites|
  {
    hide AtSite;
    if e > 0 {
      TotalAtLeastTwo(sites[1..], e - 1, f - 1, m);
    } else {
      TotalAtLeast(sites[1..], f - 1, m);
    }
  }

  lemma {:induction false} SomeSite(sites: seq<Site>, m: Measure) returns (e: nat)
    requires Total(sites, m) > 0
    ensures e < |sites| && AtSite(sites[e], m) > 0
    decreases |sites|
  {
    if AtSite(sites[0], m) > 0 {
      e := 0;
    } else {
      var e0 := SomeSite(sites[1..], m);
      e := e0 + 1;
    }
  }

  lemma {:induction false} InMailOf(mail: seq<Command>, k: nat, m: Measure)
    requires k < |mail|
    ensures InMail(mail, m) >= Carries(mail[k], m)
    decreases |mail|
  {
    if k > 0 {
      InMailOf(mail[1..], k - 1, m);
    }
  }

  lemma SpawnedOnce(n: nat, st: Engine, a: ActorId)
    requires Inv(n, st)
    ensures Total(st.sites, Of(a)) == if a in st.spawned then 1 else 0
  {
    DistinctTimes(st.spawned);
    assert Total(st.sites, Of(a)) == Times(st.spawned, a);
    assert Times(st.spawned, a) <= 1 && (a in st.spawned <==> Times(st.spawned, a) > 0);
  }

  ghost predicate OnlyAt(st: Engine, a: ActorId, e: nat) {
    forall f :: 0 <= f < |st.sites| ==> AtSite(st.sites[f], Of(a)) == if f == e then 1 else 0
  }

  /** Every spawned actor is in exactly one place, once: in a NewActor or an ActorTransfer in some
      executor's mailbox, hosted there, dropped there or finished there; and wherever it is hosted or
      carried, its own handlers are with it. Nobody else is anywhere. */
  lemma ExactlyOnePlace(n: nat, st: Engine, a: ActorId)
    requires Reachable(n, st)
    ensures |st.sites| == n
    ensures a in st.spawned ==> exists e :: 0 <= e < n && OnlyAt(st, a, e)
    ensures a !in st.spawned ==> forall e :: 0 <= e < n ==> AtSite(st.sites[e], Of(a)) == 0
    ensures forall e :: 0 <= e < n ==>
              Aligned(st.sites[e].x) && forall k :: 0 <= k < |st.sites[e].mail| ==> CarriesOwnHandlers(st.sites[e].mail[k])
  {
    hide AtSite, Total;
    ReachableInv(n, st);
    SpawnedOnce(n, st, a);
    forall e | 0 <= e < n
      ensures AtSite(st.sites[e], Of(a)) <= Total(st.sites, Of(a))
      ensures SiteOk(st.sites[e], e, n)
    {
      TotalAtLeast(st.sites, e, Of(a));
    }
    if a in st.spawned {
      var e := SomeSite(st.sites, Of(a));
      forall f | 0 <= f < n && f != e ensures AtSite(st.sites[f], Of(a)) == 0 {
        if e < f { TotalAtLeastTwo(st.sites, e, f, Of(a)); } else { TotalAtLeastTwo(st.sites, f, e, Of(a)); }
      }
      assert OnlyAt(st, a, e);
    }
  }

  lemma AtSiteHosted(s: Site, a: ActorId)
    ensures AtSite(s, Of(a)) >= Times(Hosted(s.x), a) + InMail(s.mail, Of(a))
  {
  }

  /** In every reachable state the lists of an executor hold no actor twice and the next command names
      no actor it already hosts. */
  lemma HostedDistinct(n: nat, st: Engine, e: nat)
    requires Reachable(n, st) && e < |st.sites| && !st.sites[e].stopped
    ensures var s := st.sites[e];
            && Aligned(s.x) && s.x.num > 0 && s.x.actors[0] == e && Distinct(s.x.actors)
            && forall k :: 0 <= k < |s.mail| ==> Fresh(s.x, s.mail[k]) && CarriesOwnHandlers(s.mail[k])
  {
    ReachableInv(n, st);
    var s := st.sites[e];
    assert SiteOk(s, e, n);
    assert s.x.actors == [s.x.actors[0]] + Hosted(s.x);
    forall a: ActorId
      ensures Times(Hosted(s.x), a) + InMail(s.mail, Of(a)) <= 1
      ensures Times(Hosted(s.x), a) + InMail(s.mail, Of(a)) > 0 ==> a >= n
    {
      SpawnedOnce(n, st, a);
      TotalAtLeast(st.sites, e, Of(a));
      AtSiteHosted(s, a);
    }
    hide AtSite, Total, Conserved, InMail;
    forall a: ActorId ensures Times(s.x.actors, a) <= 1 {
      TimesSplit([s.x.actors[0]], Hosted(s.x), a);
      TimesOne(s.x.actors[0], a);
    }
    DistinctTimes(s.x.actors);
    forall k | 0 <= k < |s.mail| ensures Fresh(s.x, s.mail[k]) && CarriesOwnHandlers(s.mail[k]) {
      var c := s.mail[k];
      assert CommandOk(c, n);
      if c.NewActor? || c.ActorTransfer? {
        InMailOf(s.mail, k, Of(c.actor));
        TimesOne(c.actor, c.actor);
        assert Times(Hosted(s.x), c.actor) == 0;
      }
    }
  }

  // ---------------------------------------------------------------- rounds, interleaved

  /** Executor e does nothing but go on with its round; everybody else does anything. */
  ghost predicate GoesOn(run: seq<Action>, e: nat, outcome: ActorId -> Outcome) {
    forall i :: 0 <= i < |run| ==>
      (run[i].e == e ==> run[i].Spawn? || run[i].Balance? || run[i].Terminate? || run[i] == VisitNext(e, outcome))
  }

  lemma {:induction false} DeliverLeaves(sites: seq<Site>, outbox: seq<(nat, Command)>, e: nat)
    requires e < |sites|
    ensures |Deliver(sites, outbox)| == |sites|
    ensures var s := Deliver(sites, outbox)[e]; s == sites[e].(mail := s.mail) && sites[e].mail <= s.mail
    decreases |outbox|
  {
    if outbox != [] {
      var (peer, c) := outbox[0];
      DeliverLeaves(if peer < |sites| then sites[peer := Post(sites[peer], c)] else sites, outbox[1..], e);
    }
  }

  /** Others reach an executor only through its mailbox. */
  lemma OthersOnlySend(st: Engine, act: Action, e: nat)
    requires Enabled(st, act) && e < |st.sites|
    requires act.e != e || act.Spawn? || act.Balance? || act.Terminate?
    ensures var s := Apply(st, act).sites;
            |s| == |st.sites| && s[e] == st.sites[e].(mail := s[e].mail) && st.sites[e].mail <= s[e].mail
  {
    hide HeadVisited, NextVisited, Polled, StopAll;
    var f, s := act.e, st.sites[act.e];
    match act
    case VisitHead(_, rand, outcome) =>
      var s' := HeadVisited(s, rand, outcome);
      DeliverLeaves(st.sites[f := s'.(x := s'.x.(outbox := []))], s'.x.outbox, e);
    case VisitNext(_, outcome) =>
      var s' := NextVisited(s, outcome);
      DeliverLeaves(st.sites[f := s'.(x := s'.x.(outbox := []))], s'.x.outbox, e);
    case Stop(_) =>
      var s' := s.(x := StopAll(s.x), next := 0, stopped := true);
      DeliverLeaves(st.sites[f := s'.(x := s'.x.(outbox := []))], s'.x.outbox, e);
    case Balance(_, order, limit, _) => DeliverLeaves(st.sites, Requests(Wanted(st.counts, order, limit, 0)), e);
    case _ =>
  }

  lemma GoesOnStep(n: nat, st: Engine, e: nat, outcome: ActorId -> Outcome)
    requires Inv(n, st) && Enabled(st, VisitNext(e, outcome))
    ensures Apply(st, VisitNext(e, outcome)).sites == st.sites[e := NextVisited(st.sites[e], outcome)]
  {
    var s := st.sites[e];
    assert SiteOk(s, e, n);
    NextKeeps(s, e, n, outcome);
    NothingSent(NextVisited(s, outcome), e, n);
  }

  /** The steps of one executor in any interleaving do what its loop does. */
  lemma {:induction false} RestOfRound(n: nat, st: Engine, run: seq<Action>, e: nat, outcome: ActorId -> Outcome)
    requires Inv(n, st) && e < n && Legal(st, run) && GoesOn(run, e, outcome)
    requires SiteOk(st.sites[e], e, n) && !st.sites[e].stopped && 0 < st.sites[e].next
    ensures Inv(n, After(st, run))
    ensures var s, s' := st.sites[e], After(st, run).sites[e];
            && SiteOk(s', e, n) && !s'.stopped && 0 < s'.next
            && Sweep(s'.x, s'.next, outcome) == Sweep(s.x, s.next, outcome)
    decreases |run|
  {
    hide Enabled, Apply, Conserved, NextVisited;
    if run != [] {
      StepInv(n, st, run[0]);
      var st1 := Apply(st, run[0]);
      assert SiteOk(st1.sites[e], e, n);
      if run[0] == VisitNext(e, outcome) {
        OneMore(n, st, e, outcome);
      } else {
        OthersOnlySend(st, run[0], e);
      }
      RestOfRound(n, st1, run[1..], e, outcome);
    }
  }

  lemma OneMore(n: nat, st: Engine, e: nat, outcome: ActorId -> Outcome)
    requires Inv(n, st) && Enabled(st, VisitNext(e, outcome)) && SiteOk(st.sites[e], e, n)
    ensures var s, s' := st.sites[e], Apply(st, VisitNext(e, outcome)).sites[e];
            && 0 < s'.next <= s'.x.num && s'.stopped == s.stopped && SameLength(s'.x)
            && Sweep(s'.x, s'.next, outcome) == Sweep(s.x, s.next, outcome)
  {
    GoesOnStep(n, st, e, outcome);
    VisitShrinks(st.sites[e].x, st.sites[e].next, outcome);
  }

  /** A round in any run: the executor handles its command, then goes through its entries while all the
      others go on with their work and send it mail. When it is through, each actor that was ready at the
      poll and was still hosted after the command has run exactly once, nobody else has; and whoever ran
      and did not stay is finished and no longer hosted. */
  lemma EveryRoundIsExact(n: nat, st: Engine, run: seq<Action>, e: nat, rand: nat, outcome: ActorId -> Outcome, a: ActorId)
    requires Reachable(n, st) && e < |st.sites| && Enabled(st, VisitHead(e, rand, outcome)) && a != e
    requires var st1 := Apply(st, VisitHead(e, rand, outcome));
             && Legal(st1, run) && GoesOn(run, e, outcome)
             && e < |After(st1, run).sites| && After(st1, run).sites[e].next == After(st1, run).sites[e].x.num
    ensures var st1 := Apply(st, VisitHead(e, rand, outcome));
            && e < |st1.sites|
            && var x, z, y := st.sites[e].x, st1.sites[e].x, After(st1, run).sites[e].x;
            var runs := PollItem(a, true) in x.items && a in z.actors;
            && Times(y.ran, a) == (if runs then 1 else 0)
            && Times(y.finished, a) == Times(x.finished, a) + (if runs && !outcome(a).Stays? then 1 else 0)
            && (a in y.actors <==> a in z.actors && !(runs && !outcome(a).Stays?))
  {
    ReachableInv(n, st);
    HostedDistinct(n, st, e);
    var s := st.sites[e];
    assert SiteOk(s, e, n);
    var command := if s.x.items[0].ready then Some(s.mail[0]) else None;
    HeadGives(n, st, e, rand, outcome);
    VisitSelfFacts(s.x, command, rand, outcome, a);
    var st1 := Apply(st, VisitHead(e, rand, outcome));
    hide VisitSelf, Sweep, Distinct, Enabled, Apply, Fresh, Conserved;
    var z := st1.sites[e].x;
    RestOfRound(n, st1, run, e, outcome);
    SweepRunsEachReadyOnce(z, outcome, a);
    var y := After(st1, run).sites[e].x;
    Through(y, outcome);
    DistinctTimes(z.actors);
    assert a in z.actors <==> Times(z.actors, a) == 1;
  }

  lemma Through(y: Exec, outcome: ActorId -> Outcome)
    requires SameLength(y)
    ensures Sweep(y, y.num, outcome) == y
  {
  }

  lemma HeadGives(n: nat, st: Engine, e: nat, rand: nat, outcome: ActorId -> Outcome)
    requires Inv(n, st) && Enabled(st, VisitHead(e, rand, outcome)) && SiteOk(st.sites[e], e, n)
    ensures var s := st.sites[e];
            var command := if s.x.items[0].ready then Some(s.mail[0]) else None;
            var st1 := Apply(st, VisitHead(e, rand, outcome));
            && Inv(n, st1) && SiteOk(st1.sites[e], e, n) && st1.sites[e].next == 1 && !st1.sites[e].stopped
            && st1.sites[e].x == VisitSelf(s.x, command, rand, outcome).(outbox := [])
  {
    StepInv(n, st, VisitHead(e, rand, outcome));
    hide VisitSelf, Conserved;
    var st1 := Apply(st, VisitHead(e, rand, outcome));
    assert SiteOk(st1.sites[e], e, n);
    var s' := HeadVisited(st.sites[e], rand, outcome);
    DeliverLeaves(st.sites[e := s'.(x := s'.x.(outbox := []))], s'.x.outbox, e);
  }

  // ---------------------------------------------------------------- the group's counter

  lemma {:induction false} FinishedOrUnfinished(n: nat, st: Engine, a: ActorId, e: nat)
    requires Inv(n, st) && e < n && AtSite(st.sites[e], Of(a)) > 0 && AtSite(st.sites[e], Unfinished) == 0
    ensures a in st.sites[e].x.finished
  {
    var s := st.sites[e];
    EmptyMail(s.mail, a);
  }

  lemma {:induction false} EmptyMail(mail: seq<Command>, a: ActorId)
    requires InMail(mail, Unfinished) == 0
    ensures InMail(mail, Of(a)) == 0
    decreases |mail|
  {
    if mail != [] {
      EmptyMail(mail[1..], a);
    }
  }

  /** Somebody unfinished is somewhere. */
  lemma {:induction false} SomeUnfinishedInMail(mail: seq<Command>) returns (a: ActorId)
    requires InMail(mail, Unfinished) > 0
    ensures InMail(mail, Of(a)) > 0
    decreases |mail|
  {
    if Carries(mail[0], Unfinished) > 0 {
      a := mail[0].actor;
    } else {
      a := SomeUnfinishedInMail(mail[1..]);
    }
  }

  lemma SomeUnfinished(s: Site) returns (a: ActorId)
    requires AtSite(s, Unfinished) > 0
    ensures AtSite(s, Of(a)) > Times(s.x.finished, a)
  {
    if InMail(s.mail, Unfinished) > 0 {
      a := SomeUnfinishedInMail(s.mail);
    } else if Hosted(s.x) != [] {
      a := Hosted(s.x)[0];
    } else {
      a := s.x.dropped[0];
    }
  }

  ghost predicate IsFinished(st: Engine, a: ActorId) {
    exists e :: 0 <= e < |st.sites| && a in st.sites[e].x.finished
  }

  /** The counter is zero exactly when every spawned actor has been finished. */
  lemma DoneExactlyWhenAllFinished(n: nat, st: Engine)
    requires Reachable(n, st)
    ensures st.alive >= 0
    ensures st.alive == 0 <==> forall a :: a in st.spawned ==> IsFinished(st, a)
  {
    hide AtSite, Total;
    ReachableInv(n, st);
    if st.alive == 0 {
      forall a | a in st.spawned ensures IsFinished(st, a) {
        SpawnedOnce(n, st, a);
        var e := SomeSite(st.sites, Of(a));
        TotalAtLeast(st.sites, e, Unfinished);
        FinishedOrUnfinished(n, st, a, e);
      }
    } else {
      assert Total(st.sites, Unfinished) == st.alive;
      var e := SomeSite(st.sites, Unfinished);
      var a := SomeUnfinished(st.sites[e]);
      UnfinishedSpawned(n, st, a, e);
    }
  }

  lemma UnfinishedSpawned(n: nat, st: Engine, a: ActorId, e: nat)
    requires Inv(n, st) && e < n && AtSite(st.sites[e], Of(a)) > Times(st.sites[e].x.finished, a)
    ensures a in st.spawned && !IsFinished(st, a)
  {
    hide Total, SitesOk, InMail;
    SpawnedOnce(n, st, a);
    TotalAtLeast(st.sites, e, Of(a));
    if f :| 0 <= f < n && a in st.sites[f].x.finished {
      assert Times(st.sites[f].x.finished, a) > 0;
      if e < f {
        TotalAtLeastTwo(st.sites, e, f, Of(a));
      } else if f < e {
        TotalAtLeastTwo(st.sites, f, e, Of(a));
      }
    }
  }

  // ---------------------------------------------------------------- actors nobody will finish

  /** An actor dropped by its start, or carried by a command to an executor that has stopped. */
  predicate LostAt(s: Site) {
    s.x.dropped != [] || (s.stopped && InMail(s.mail, Unfinished) > 0)
  }

  ghost predicate Lost(st: Engine) {
    exists e :: 0 <= e < |st.sites| && LostAt(st.sites[e])
  }

  lemma StillLostPost(s: Site, c: Command)
    requires LostAt(s)
    ensures LostAt(Post(s, c))
  {
    InMailPost(s.mail, c, Unfinished);
  }

  lemma {:induction false} StillLostDeliver(sites: seq<Site>, outbox: seq<(nat, Command)>, e: nat)
    requires e < |sites| && LostAt(sites[e])
    ensures |Deliver(sites, outbox)| == |sites| && LostAt(Deliver(sites, outbox)[e])
    decreases |outbox|
  {
    hide LostAt;
    if outbox != [] {
      var (peer, c) := outbox[0];
      StillLostPost(sites[e], c);
      StillLostDeliver(if peer < |sites| then sites[peer := Post(sites[peer], c)] else sites, outbox[1..], e);
    }
  }

  lemma StillLostStep(st: Engine, act: Action)
    requires Lost(st) && Enabled(st, act)
    ensures Lost(Apply(st, act))
  {
    var e :| 0 <= e < |st.sites| && LostAt(st.sites[e]);
    var st' := Apply(st, act);
    assert |st'.sites| == |st.sites| && LostAt(st'.sites[e]) by {
      match act {
        case Spawn(_, a) => StillLostPost(st.sites[e], NewActor(a));
        case Balance(_, order, limit, _) => StillLostDeliver(st.sites, Requests(Wanted(st.counts, order, limit, 0)), e);
        case Terminate(_) => StillLostPost(st.sites[e], Termination);
        case Poll(_, _) =>
        case VisitHead(f, rand, outcome) =>
          var s' := HeadVisited(st.sites[f], rand, outcome);
          StillLostDeliver(st.sites[f := s'.(x := s'.x.(outbox := []))], s'.x.outbox, e);
        case VisitNext(f, outcome) =>
          var s' := NextVisited(st.sites[f], outcome);
          StillLostDeliver(st.sites[f := s'.(x := s'.x.(outbox := []))], s'.x.outbox, e);
        case Stop(f) =>
          var s' := st.sites[f].(x := StopAll(st.sites[f].x), next := 0, stopped := true);
          StillLostDeliver(st.sites[f := s'.(x := s'.x.(outbox := []))], s'.x.outbox, e);
      }
    }
  }

  lemma {:induction false} StillLost(st: Engine, run: seq<Action>)
    requires Lost(st) && Legal(st, run)
    ensures Lost(After(st, run))
    decreases |run|
  {
    hide Lost, Enabled, Apply;
    if run != [] {
      StillLostStep(st, run[0]);
      StillLost(Apply(st, run[0]), run[1..]);
    }
  }

  /** Once an actor is lost the group is never done again: waiting for it never ends. */
  lemma LostKeepsGroupAlive(n: nat, st: Engine, run: seq<Action>)
    requires Reachable(n, st) && Lost(st) && Legal(st, run)
    ensures After(st, run).alive > 0
  {
    ReachableInv(n, st);
    RunInv(n, st, run);
    StillLost(st, run);
    var later := After(st, run);
    var e :| 0 <= e < |later.sites| && LostAt(later.sites[e]);
    TotalAtLeast(later.sites, e, Unfinished);
  }
}
