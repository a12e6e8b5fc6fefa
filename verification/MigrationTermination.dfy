/**
 Ending all executors: what the caller has to see to so that it ends all actors, and that executors that
 were told to end can always do so.
 */
module MigrationTermination {
  import opened Executor
  import opened LoadRebalance
  import opened Migration
  import opened MigrationTheorems

  ghost predicate AllStopped(st: Engine) {
    forall e :: 0 <= e < |st.sites| ==> st.sites[e].stopped
  }

  /** With all executors stopped, everybody is finished exactly if nobody was dropped and nothing that
      carries an actor is left in a mailbox. */
  lemma StoppedDoneExactly(n: nat, st: Engine)
    requires Reachable(n, st) && AllStopped(st)
    ensures st.alive >= 0 && (st.alive == 0 <==> !Lost(st))
  {
    ReachableInv(n, st);
    if Lost(st) {
      assert Legal(st, []) && After(st, []) == st;
      LostKeepsGroupAlive(n, st, []);
    }
    if st.alive > 0 {
      assert Total(st.sites, Unfinished) == st.alive;
      var e := SomeSite(st.sites, Unfinished);
      assert SiteOk(st.sites[e], e, n) && Hosted(st.sites[e].x) == [];
      assert LostAt(st.sites[e]);
    }
  }

  // ---------------------------------------------------------------- what the caller may rule out

  /** The period and the limit of load balancing, which is off at period 0; whether every start leaves its
      actor active; whether everything is spawned on an executor before that executor is told to end. */
  datatype Policy = Policy(period: nat, limit: real, startsStay: bool, spawnsFirst: bool)

  ghost predicate Allowed(p: Policy, before: seq<Action>, act: Action) {
    match act
    case Spawn(e, _) => p.spawnsFirst ==> Terminate(e) !in before
    case Balance(_, _, limit, period) => period == p.period && limit == p.limit
    case VisitHead(_, _, outcome) => p.startsStay ==> forall a: ActorId :: outcome(a).Stays?
    case _ => true
  }

  ghost predicate Follows(p: Policy, run: seq<Action>) {
    forall i :: 0 <= i < |run| ==> Allowed(p, run[..i], run[i])
  }

  /** The states some run under the policy leads to. */
  ghost predicate Under(n: nat, p: Policy, st: Engine) {
    exists run :: Leads(n, p, run, st)
  }

  ghost predicate Leads(n: nat, p: Policy, run: seq<Action>, st: Engine) {
    Legal(Init(n), run) && Follows(p, run) && After(Init(n), run) == st
  }

  lemma UnderIsReachable(n: nat, p: Policy, st: Engine)
    requires Under(n, p, st)
    ensures Reachable(n, st)
  {
  }

  // ---------------------------------------------------------------- safety

  /** An executor that takes in what was spawned and then ends. `told` is whether it was told to end. */
  ghost predicate Orderly(s: Site, told: bool) {
    && s.x.dropped == [] && s.x.outbox == []
    && (!told ==> s.x.activated && !s.stopped && Termination !in s.mail)
    && (forall k :: 0 <= k < |s.mail| ==> s.mail[k].NewActor? || s.mail[k].Termination?)
    && (forall j, k :: 0 <= j < k < |s.mail| && s.mail[j].Termination? ==> s.mail[k].Termination?)
    && (!s.x.activated ==> forall k :: 0 <= k < |s.mail| ==> s.mail[k].Termination?)
    && (s.stopped ==> !s.x.activated)
  }

  ghost predicate AllOrderly(n: nat, st: Engine, run: seq<Action>) {
    |st.sites| == n && forall e :: 0 <= e < n ==> Orderly(st.sites[e], Terminate(e) in run)
  }

  ghost predicate Finishing(n: nat, p: Policy) {
    p.startsStay && p.spawnsFirst && (p.period == 0 || n <= 1)
  }

  lemma HeadOrderly(s: Site, told: bool, rand: nat, outcome: ActorId -> Outcome)
    requires Orderly(s, told) && SameLength(s.x) && s.x.num > 0 && (s.x.items[0].ready ==> s.mail != [])
    requires forall a: ActorId :: outcome(a).Stays?
    ensures Orderly(HeadVisited(s, rand, outcome), told)
  {
    if s.x.items[0].ready {
      assert s.mail == [s.mail[0]] + s.mail[1..];
      assert s.mail[0].NewActor? || s.mail[0].Termination?;
    }
  }

  lemma OrderlyStep(n: nat, p: Policy, st: Engine, run: seq<Action>, act: Action)
    requires Finishing(n, p) && AllOrderly(n, st, run) && Enabled(st, act) && Allowed(p, run, act)
    ensures AllOrderly(n, Apply(st, act), run + [act])
  {
    var e := act.e;
    var s := st.sites[e];
    assert Orderly(s, Terminate(e) in run);
    hide Orderly;
    match act {
      case VisitHead(_, rand, outcome) =>
        HeadOrderly(s, Terminate(e) in run, rand, outcome);
        hide HeadVisited;
        OrderlySendsNothing(HeadVisited(s, rand, outcome), Terminate(e) in run);
      case Balance(_, order, limit, _) => assert Wanted(st.counts, order, limit, 0) == [];
      case VisitNext(_, outcome) =>
        OthersOrderly(s, Terminate(e) in run, NextVisited(s, outcome));
        hide NextVisited;
        OrderlySendsNothing(NextVisited(s, outcome), Terminate(e) in run);
      case Stop(_) =>
        var s' := s.(x := StopAll(s.x), next := 0, stopped := true);
        OthersOrderly(s, Terminate(e) in run, s');
        hide StopAll;
        OrderlySendsNothing(s', Terminate(e) in run);
      case Poll(_, ready) => OthersOrderly(s, Terminate(e) in run, Polled(s, ready));
      case Spawn(_, a) => PostOrderly(s, Terminate(e) in run, false, NewActor(a));
      case Terminate(_) => PostOrderly(s, Terminate(e) in run, true, Termination);
    }
  }

  lemma OrderlySendsNothing(s: Site, told: bool)
    requires Orderly(s, told)
    ensures s.(x := s.x.(outbox := [])) == s && s.x.outbox == []
  {
  }

  /** Rounds and the end of an executor touch neither its mail nor what it dropped. */
  lemma OthersOrderly(s: Site, told: bool, s': Site)
    requires Orderly(s, told) && s'.mail == s.mail && s'.x.dropped == s.x.dropped && s'.x.outbox == s.x.outbox
    requires s'.x.activated == s.x.activated && (s'.stopped ==> s.stopped || !s.x.activated)
    ensures Orderly(s', told)
  {
  }

  /** Nothing is spawned after the executor was told to end. */
  lemma PostOrderly(s: Site, was: bool, told: bool, c: Command)
    requires Orderly(s, was) && ((c.NewActor? && !was && !told) || (c.Termination? && told))
    ensures Orderly(Post(s, c), told)
  {
  }

  lemma LegalPrefix(st: Engine, run: seq<Action>, act: Action)
    requires Legal(st, run + [act])
    ensures Legal(st, run) && Enabled(After(st, run), act)
    ensures After(st, run + [act]) == Apply(After(st, run), act)
    decreases |run|
  {
    hide Enabled, Apply;
    if run == [] {
      assert [] + [act] == [act] && [act][1..] == [];
    } else {
      assert (run + [act])[0] == run[0] && (run + [act])[1..] == run[1..] + [act];
      LegalPrefix(Apply(st, run[0]), run[1..], act);
    }
  }

  lemma {:induction false} OrderlyRun(n: nat, p: Policy, run: seq<Action>)
    requires Finishing(n, p) && Legal(Init(n), run) && Follows(p, run)
    ensures AllOrderly(n, After(Init(n), run), run)
    decreases |run|
  {
    if run != [] {
      var before, act := run[..|run| - 1], run[|run| - 1];
      assert run == before + [act];
      LegalPrefix(Init(n), before, act);
      forall i | 0 <= i < |before| ensures Allowed(p, before[..i], before[i]) {
        assert before[..i] == run[..i];
      }
      OrderlyRun(n, p, before);
      hide AllOrderly, Enabled, Apply;
      OrderlyStep(n, p, After(Init(n), before), before, act);
    }
  }

  lemma {:induction false} NobodyInMail(mail: seq<Command>)
    requires forall k :: 0 <= k < |mail| ==> mail[k].Termination?
    ensures InMail(mail, Unfinished) == 0
    decreases |mail|
  {
    if mail != [] {
      NobodyInMail(mail[1..]);
    }
  }

  lemma FinishingFinishes(n: nat, p: Policy, st: Engine)
    requires Finishing(n, p) && Under(n, p, st) && AllStopped(st)
    ensures st.alive == 0
  {
    var run :| Leads(n, p, run, st);
    OrderlyRun(n, p, run);
    forall e | 0 <= e < |st.sites|
      ensures !LostAt(st.sites[e])
    {
      assert Orderly(st.sites[e], Terminate(e) in run);
      NobodyInMail(st.sites[e].mail);
    }
    UnderIsReachable(n, p, st);
    StoppedDoneExactly(n, st);
  }

  // ---------------------------------------------------------------- extending a run

  lemma {:induction false} LegalAppend(st: Engine, run: seq<Action>, act: Action)
    requires Legal(st, run) && Enabled(After(st, run), act)
    ensures Legal(st, run + [act]) && After(st, run + [act]) == Apply(After(st, run), act)
    decreases |run|
  {
    hide Enabled, Apply;
    if run == [] {
      assert [] + [act] == [act] && [act][1..] == [];
    } else {
      LegalAppend(Apply(st, run[0]), run[1..], act);
      assert (run + [act])[0] == run[0] && (run + [act])[1..] == run[1..] + [act];
    }
  }

  lemma Extend(n: nat, p: Policy, run: seq<Action>, st: Engine, act: Action)
    requires Leads(n, p, run, st) && Enabled(st, act) && Allowed(p, run, act)
    ensures Leads(n, p, run + [act], Apply(st, act))
  {
    hide Enabled, Apply, Allowed;
    LegalAppend(Init(n), run, act);
    forall i | 0 <= i < |run + [act]| ensures Allowed(p, (run + [act])[..i], (run + [act])[i]) {
      assert (run + [act])[..i] == if i < |run| then run[..i] else run;
    }
  }

  /** Steps the policy allows at any time. */
  lemma Next(n: nat, p: Policy, st: Engine, act: Action)
    requires Under(n, p, st) && Enabled(st, act) && Allowed(p, [], act) && (act.Spawn? ==> !p.spawnsFirst)
    ensures Under(n, p, Apply(st, act))
  {
    hide Enabled, Apply;
    var run :| Leads(n, p, run, st);
    Extend(n, p, run, st, act);
  }

  // ---------------------------------------------------------------- executors at work

  /** Nothing is spawned, balanced or told to end. */
  ghost predicate OwnWork(act: Action) {
    act.Poll? || act.VisitNext? || act.Stop? || (act.VisitHead? && forall a: ActorId :: act.outcome(a).Stays?)
  }

  ghost predicate Works(st: Engine, run: seq<Action>, st': Engine) {
    Legal(st, run) && After(st, run) == st' && forall i :: 0 <= i < |run| ==> OwnWork(run[i])
  }

  /** The executors, left alone, can get from one state to the other. */
  ghost predicate GoesTo(st: Engine, st': Engine) {
    exists run :: Works(st, run, st')
  }

  /** A state under the policy that is reached from `st0` by work alone. */
  ghost predicate WorkedFrom(n: nat, p: Policy, st0: Engine, st: Engine) {
    Under(n, p, st) && GoesTo(st0, st)
  }

  lemma NoWorkYet(n: nat, p: Policy, st: Engine)
    requires Under(n, p, st)
    ensures WorkedFrom(n, p, st, st)
  {
    hide Under;
    assert Works(st, [], st);
  }

  lemma Work(n: nat, p: Policy, st0: Engine, st: Engine, act: Action)
    requires WorkedFrom(n, p, st0, st) && Enabled(st, act) && OwnWork(act)
    ensures WorkedFrom(n, p, st0, Apply(st, act))
  {
    assert Allowed(p, [], act);
    hide Under, Enabled, Apply, Allowed;
    Next(n, p, st, act);
    var run :| Works(st0, run, st);
    LegalAppend(st0, run, act);
    assert Works(st0, run + [act], Apply(st, act));
  }

  lemma SitesUnder(n: nat, p: Policy, st: Engine)
    requires Under(n, p, st)
    ensures |st.sites| == |st.counts| == n && Inv(n, st) && forall e :: 0 <= e < n ==> SiteOk(st.sites[e], e, n)
  {
    UnderIsReachable(n, p, st);
    ReachableInv(n, st);
    SitesInv(n, st);
  }

  /** The executor only got mail. */
  predicate Mailed(s: Site, s': Site) {
    s' == s.(mail := s'.mail) && s.mail <= s'.mail
  }

  /** The work of executor e reaches the others only by mail. */
  ghost predicate Beside(st: Engine, st': Engine, e: nat) {
    && |st'.sites| == |st.sites| && st'.spawned == st.spawned && st'.alive <= st.alive
    && forall f :: 0 <= f < |st.sites| && f != e ==> Mailed(st.sites[f], st'.sites[f])
  }

  lemma BesideOn(st: Engine, st1: Engine, st2: Engine, e: nat)
    requires Beside(st, st1, e) && Beside(st1, st2, e)
    ensures Beside(st, st2, e)
  {
  }

  lemma WorkBeside(st: Engine, act: Action)
    requires Enabled(st, act) && OwnWork(act)
    ensures Beside(st, Apply(st, act), act.e)
  {
    forall f | 0 <= f < |st.sites| && f != act.e
      ensures |Apply(st, act).sites| == |st.sites| && Mailed(st.sites[f], Apply(st, act).sites[f])
    {
      OthersOnlySend(st, act, f);
    }
    AliveShrinks(st, act);
    hide Enabled, Apply;
  }

  lemma AliveShrinks(st: Engine, act: Action)
    requires Enabled(st, act) && OwnWork(act)
    ensures var st' := Apply(st, act);
            |st'.sites| == |st.sites| && st'.spawned == st.spawned && st'.alive <= st.alive
  {
    var s := st.sites[act.e];
    match act
    case VisitHead(e, rand, outcome) =>
      var s' := HeadVisited(s, rand, outcome);
      DeliverLeaves(st.sites[e := s'.(x := s'.x.(outbox := []))], s'.x.outbox, e);
    case VisitNext(e, outcome) =>
      var s' := NextVisited(s, outcome);
      DeliverLeaves(st.sites[e := s'.(x := s'.x.(outbox := []))], s'.x.outbox, e);
    case Stop(e) =>
      var s' := s.(x := StopAll(s.x), next := 0, stopped := true);
      DeliverLeaves(st.sites[e := s'.(x := s'.x.(outbox := []))], s'.x.outbox, e);
    case _ =>
  }

  // ---------------------------------------------------------------- one executor comes to its end

  /** The executor stopped, is about to, or finds a Termination after k other commands. */
  predicate WillEnd(s: Site, k: nat) {
    s.stopped || !s.x.activated || (k < |s.mail| && s.mail[k].Termination?)
  }

  /** How far it is through its round. */
  function Rank(s: Site): int {
    if s.next == 0 then (if s.x.activated && s.x.items != [] && s.x.items[0].ready then 0 else s.x.num + 3)
    else if s.next == s.x.num then 1
    else 2 + s.x.num - s.next
  }

  /** Fewer commands before the end, or the same and further through the round. */
  predicate Closer(s: Site, k: nat, s': Site, k': nat) {
    var (m, m') := (if s.x.activated then 1 + k else 0, if s'.x.activated then 1 + k' else 0);
    m' < m || (m' == m && 0 <= Rank(s') < Rank(s))
  }

  lemma PolledCloser(s: Site, e: nat, n: nat, k: nat, ready: ActorId -> bool)
    requires SiteOk(s, e, n) && !s.stopped && s.next == s.x.num && s.x.activated && WillEnd(s, k)
    ensures WillEnd(Polled(s, ready), k) && Closer(s, k, Polled(s, ready), k)
  {
  }

  lemma NextCloser(s: Site, e: nat, n: nat, k: nat, outcome: ActorId -> Outcome)
    requires SiteOk(s, e, n) && !s.stopped && 0 < s.next < s.x.num && WillEnd(s, k)
    ensures WillEnd(NextVisited(s, outcome), k) && Closer(s, k, NextVisited(s, outcome), k)
  {
    VisitShrinks(s.x, s.next, outcome);
  }

  lemma HeadCloser(s: Site, e: nat, n: nat, k: nat, outcome: ActorId -> Outcome, s': Site) returns (k': nat)
    requires SiteOk(s, e, n) && !s.stopped && s.next == 0 && WillEnd(s, k) && forall a: ActorId :: outcome(a).Stays?
    requires var h := HeadVisited(s, 0, outcome); Mailed(h.(x := h.x.(outbox := [])), s')
    ensures WillEnd(s', k') && Closer(s, k, s', k')
  {
    k' := k;
    if s.x.items[0].ready {
      assert s.mail == [s.mail[0]] + s.mail[1..];
      if s.x.activated && k > 0 && !s.mail[0].Termination? {
        k' := k - 1;
        assert s.mail[1..][k'] == s.mail[k];
      }
      HeadEntries(s.x.(ran := s.x.ran + [s.x.actors[0]]), s.mail[0], outcome);
      hide OnCommand;
    }
  }

  /** A command adds at most one entry, and only Termination ends the executor. */
  lemma HeadEntries(x: Exec, c: Command, outcome: ActorId -> Outcome)
    requires SameLength(x) && x.num > 0 && forall a: ActorId :: outcome(a).Stays?
    ensures var y := OnCommand(x, c, 0, outcome);
            0 < y.num <= x.num + 1 && y.activated == (x.activated && !c.Termination?)
  {
  }

  lemma MoveOn(n: nat, p: Policy, st0: Engine, st: Engine, e: nat, k: nat) returns (st': Engine, k': nat)
    requires WorkedFrom(n, p, st0, st) && e < n == |st.sites| && !st.sites[e].stopped && WillEnd(st.sites[e], k)
    ensures WorkedFrom(n, p, st0, st') && Beside(st, st', e) && WillEnd(st'.sites[e], k')
    ensures st'.sites[e].stopped || Closer(st.sites[e], k, st'.sites[e], k')
  {
    SitesUnder(n, p, st);
    hide Under, Inv, SiteOk, WillEnd, Closer, Beside;
    var act := WorkOf(n, st, e, k);
    Work(n, p, st0, st, act);
    WorkBeside(st, act);
    st' := Apply(st, act);
    hide WorkedFrom;
    k' := AfterWork(n, st, act, k);
  }

  /** There is always something to do for an executor that will end. */
  lemma WorkOf(n: nat, st: Engine, e: nat, k: nat) returns (act: Action)
    requires e < n == |st.sites| == |st.counts| && SiteOk(st.sites[e], e, n) && !st.sites[e].stopped && WillEnd(st.sites[e], k)
    ensures act.e == e && Enabled(st, act) && OwnWork(act) && (act.VisitHead? ==> act.rand == 0)
  {
    var s := st.sites[e];
    if s.next == 0 {
      act := VisitHead(e, 0, _ => Stays);
    } else if s.next < s.x.num {
      act := VisitNext(e, _ => Stays);
    } else if s.x.activated {
      act := Poll(e, _ => false);
    } else {
      act := Stop(e);
    }
  }

  lemma AfterWork(n: nat, st: Engine, act: Action, k: nat) returns (k': nat)
    requires Inv(n, st) && act.e < n && SiteOk(st.sites[act.e], act.e, n) && WillEnd(st.sites[act.e], k)
    requires Enabled(st, act) && OwnWork(act) && (act.VisitHead? ==> act.rand == 0)
    ensures |Apply(st, act).sites| == n && WillEnd(Apply(st, act).sites[act.e], k')
    ensures Apply(st, act).sites[act.e].stopped || Closer(st.sites[act.e], k, Apply(st, act).sites[act.e], k')
  {
    k' := k;
    var e, s, st' := act.e, st.sites[act.e], Apply(st, act);
    hide Inv, Closer;
    match act
    case Poll(_, ready) => PolledCloser(s, e, n, k, ready);
    case VisitNext(_, outcome) =>
      GoesOnStep(n, st, e, outcome);
      hide NextVisited;
      NextCloser(s, e, n, k, outcome);
    case VisitHead(_, _, outcome) =>
      hide HeadVisited;
      var s' := HeadVisited(s, 0, outcome);
      DeliverLeaves(st.sites[e := s'.(x := s'.x.(outbox := []))], s'.x.outbox, e);
      k' := HeadCloser(s, e, n, k, outcome, st'.sites[e]);
    case Stop(_) =>
      var s' := s.(x := StopAll(s.x), next := 0, stopped := true);
      DeliverLeaves(st.sites[e := s'.(x := s'.x.(outbox := []))], s'.x.outbox, e);
  }

  lemma {:induction false} StopOne(n: nat, p: Policy, st0: Engine, st: Engine, e: nat, k: nat) returns (st': Engine)
    requires WorkedFrom(n, p, st0, st) && e < n == |st.sites| && WillEnd(st.sites[e], k)
    ensures WorkedFrom(n, p, st0, st') && Beside(st, st', e) && st'.sites[e].stopped
    decreases if st.sites[e].x.activated then 1 + k else 0, Rank(st.sites[e])
  {
    st' := st;
    if !st.sites[e].stopped {
      var k';
      st', k' := MoveOn(n, p, st0, st, e, k);
      hide WorkedFrom, WillEnd;
      if !st'.sites[e].stopped {
        var mid := st';
        st' := StopOne(n, p, st0, mid, e, k');
        BesideOn(st, mid, st', e);
      }
    }
  }

  // ---------------------------------------------------------------- all executors come to their end

  predicate ToldToEnd(s: Site) {
    s.stopped || !s.x.activated || Termination in s.mail
  }

  lemma ToldStays(s: Site, s': Site)
    requires ToldToEnd(s) && Mailed(s, s')
    ensures ToldToEnd(s')
  {
  }

  lemma {:induction false} StopFrom(n: nat, p: Policy, st0: Engine, st: Engine, e: nat) returns (st': Engine)
    requires WorkedFrom(n, p, st0, st) && e <= n == |st.sites|
    requires forall f :: 0 <= f < e ==> st.sites[f].stopped
    requires forall f :: e <= f < n ==> ToldToEnd(st.sites[f])
    ensures WorkedFrom(n, p, st0, st') && AllStopped(st') && st'.spawned == st.spawned && st'.alive <= st.alive
    decreases n - e
  {
    hide WorkedFrom;
    if e == n {
      st' := st;
    } else {
      var k := 0;
      if Termination in st.sites[e].mail {
        k :| 0 <= k < |st.sites[e].mail| && st.sites[e].mail[k] == Termination;
      }
      var st1 := StopOne(n, p, st0, st, e, k);
      forall f | e < f < n ensures ToldToEnd(st1.sites[f]) {
        ToldStays(st.sites[f], st1.sites[f]);
      }
      st' := StopFrom(n, p, st0, st1, e + 1);
    }
  }

  /** Whatever happened before: once every executor was told to end, they can all stop, by going on with
      their own work; and if the caller saw to it, everybody is finished then. */
  lemma AllCanStop(n: nat, p: Policy, st: Engine) returns (st': Engine)
    requires Under(n, p, st) && forall e :: 0 <= e < |st.sites| ==> ToldToEnd(st.sites[e])
    ensures GoesTo(st, st') && Under(n, p, st') && AllStopped(st') && st'.spawned == st.spawned
    ensures st'.alive <= st.alive && (Finishing(n, p) ==> st'.alive == 0)
  {
    SitesUnder(n, p, st);
    hide Under;
    NoWorkYet(n, p, st);
    st' := StopFrom(n, p, st, st, 0);
    if Finishing(n, p) {
      FinishingFinishes(n, p, st');
    }
  }
}
