/**
 Actors on the move between the executors of an engine. Executors work on their own lists, one entry
 of their loop a step, in any interleaving, and meet only in each other's mailboxes.
 */
module Migration {
  import opened Wrappers
  import opened Executor
  import opened LoadRebalance

  /** `next` is the loop's index; the round is over when it reaches the end. */
  datatype Site = Site(x: Exec, next: nat, mail: seq<Command>, stopped: bool)

  /** `counts` are the rounds each executor made since the last rebalancing; `spawned` is history; `alive`
      is the group's counter. */
  datatype Engine = Engine(sites: seq<Site>, counts: seq<nat>, spawned: seq<ActorId>, alive: int)

  function Start(self: ActorId): Site {
    Site(Exec([self], [Handlers(self)], [PollItem(self, false)], 1, true, [], [], [], []), 1, [], false)
  }

  /** Executor number e is actor number e. */
  function Init(n: nat): Engine {
    Engine(seq(n, e requires 0 <= e => Start(e)), seq(n, _ => 0), [], 0)
  }

  datatype Action =
    | Spawn(e: nat, a: ActorId)
    | Balance(e: nat, order: seq<nat>, limit: real, period: nat)  // executor 0, after a round
    | Terminate(e: nat)
    | Poll(e: nat, ready: ActorId -> bool)
    | VisitHead(e: nat, rand: nat, outcome: ActorId -> Outcome)
    | VisitNext(e: nat, outcome: ActorId -> Outcome)
    | Stop(e: nat)

  /** Somebody made a whole period of rounds; `order` is what sorting the executors by their counts gave. */
  ghost predicate Due(counts: seq<nat>, order: seq<nat>, period: nat) {
    && period > 0 && (exists k :: 0 <= k < |counts| && counts[k] >= period)
    && IsOrder(order, |counts|) && SortedBy(counts, order)
  }

  /** The poll returns only if some socket has something. */
  predicate Wakes(s: Site, ready: ActorId -> bool) {
    s.mail != [] || exists k :: 0 < k < |s.x.items| && ready(s.x.items[k].socket)
  }

  ghost predicate Enabled(st: Engine, act: Action) {
    && act.e < |st.sites| == |st.counts|
    && var s := st.sites[act.e];
       match act
       case Spawn(_, a) => a >= |st.sites| && a !in st.spawned
       case Balance(e, order, _, period) =>
         e == 0 && !s.stopped && s.x.activated && s.next == s.x.num && Due(st.counts, order, period)
       case Terminate(_) => true
       case Poll(_, ready) => !s.stopped && s.next == s.x.num && s.x.activated && Wakes(s, ready)
       case VisitHead(_, _, _) =>
         !s.stopped && SameLength(s.x) && s.next == 0 < s.x.num && (s.x.items[0].ready ==> s.mail != [])
       case VisitNext(_, _) => !s.stopped && SameLength(s.x) && 0 < s.next < s.x.num
       case Stop(_) => !s.stopped && s.next == s.x.num && !s.x.activated
  }

  function Post(s: Site, c: Command): Site {
    s.(mail := s.mail + [c])
  }

  /** Entry 0 is ready if the executor has mail. */
  function Polled(s: Site, ready: ActorId -> bool): Site {
    var items := seq(|s.x.items|, k requires 0 <= k < |s.x.items| =>
      s.x.items[k].(ready := if k == 0 then s.mail != [] else ready(s.x.items[k].socket)));
    s.(x := s.x.(items := items, ran := []), next := 0)
  }

  function HeadVisited(s: Site, rand: nat, outcome: ActorId -> Outcome): Site
    requires SameLength(s.x) && s.x.num > 0 && (s.x.items[0].ready ==> s.mail != [])
  {
    if s.x.items[0].ready
    then s.(x := VisitSelf(s.x, Some(s.mail[0]), rand, outcome), next := 1, mail := s.mail[1..])
    else s.(x := VisitSelf(s.x, None, rand, outcome), next := 1)
  }

  function NextVisited(s: Site, outcome: ActorId -> Outcome): Site
    requires SameLength(s.x) && 0 < s.next < s.x.num
  {
    var (y, j) := Visit(s.x, s.next, outcome);
    s.(x := y, next := j)
  }

  function Deliver(sites: seq<Site>, outbox: seq<(nat, Command)>): seq<Site>
    decreases |outbox|
  {
    if outbox == [] then sites
    else
      var (peer, c) := outbox[0];
      Deliver(if peer < |sites| then sites[peer := Post(sites[peer], c)] else sites, outbox[1..])
  }

  /** A round that is through is counted, unless the executor is about to stop. */
  function Counted(counts: seq<nat>, e: nat, s: Site): seq<nat>
    requires e < |counts|
  {
    if s.next == s.x.num && s.x.activated then counts[e := counts[e] + 1] else counts
  }

  /** Executor e becomes s; what it sent is delivered; whom it finished is no longer alive. */
  function Moved(st: Engine, e: nat, s: Site): Engine
    requires e < |st.sites| == |st.counts|
  {
    var sites := Deliver(st.sites[e := s.(x := s.x.(outbox := []))], s.x.outbox);
    st.(sites := sites, counts := Counted(st.counts, e, s),
        alive := st.alive - (|s.x.finished| - |st.sites[e].x.finished|))
  }

  /** The slower of each pair is asked to give an actor to the faster one. */
  function Requests(pairs: seq<(nat, nat)>): seq<(nat, Command)> {
    seq(|pairs|, k requires 0 <= k < |pairs| => (pairs[k].0, Rebalance(pairs[k].1)))
  }

  ghost function Apply(st: Engine, act: Action): Engine
    requires Enabled(st, act)
  {
    var e := act.e;
    var s := st.sites[e];
    match act
    case Spawn(_, a) => st.(sites := st.sites[e := Post(s, NewActor(a))], spawned := st.spawned + [a], alive := st.alive + 1)
    case Balance(_, order, limit, _) =>
      st.(sites := Deliver(st.sites, Requests(Wanted(st.counts, order, limit, 0))), counts := seq(|st.counts|, _ => 0))
    case Terminate(_) => st.(sites := st.sites[e := Post(s, Termination)])
    case Poll(_, ready) => st.(sites := st.sites[e := Polled(s, ready)])
    case VisitHead(_, rand, outcome) => Moved(st, e, HeadVisited(s, rand, outcome))
    case VisitNext(_, outcome) => Moved(st, e, NextVisited(s, outcome))
    case Stop(_) => Moved(st, e, s.(x := StopAll(s.x), next := 0, stopped := true))
  }

  ghost predicate Legal(st: Engine, run: seq<Action>)
    decreases |run|
  {
    run == [] || (Enabled(st, run[0]) && Legal(Apply(st, run[0]), run[1..]))
  }

  ghost function After(st: Engine, run: seq<Action>): Engine
    requires Legal(st, run)
    decreases |run|
  {
    if run == [] then st else After(Apply(st, run[0]), run[1..])
  }

  ghost predicate Reachable(n: nat, st: Engine) {
    exists run :: Legal(Init(n), run) && After(Init(n), run) == st
  }

  // ---------------------------------------------------------------- counting

  /** What is counted: the places of one actor, or all actors not finished yet. */
  datatype Measure = Of(a: ActorId) | Unfinished

  function Amount(s: seq<ActorId>, m: Measure): nat {
    match m case Of(a) => Times(s, a) case Unfinished => |s|
  }

  function Carries(c: Command, m: Measure): nat {
    if c.NewActor? || c.ActorTransfer? then Amount([c.actor], m) else 0
  }

  function InMail(mail: seq<Command>, m: Measure): nat {
    if mail == [] then 0 else Carries(mail[0], m) + InMail(mail[1..], m)
  }

  /** The executor itself stands at index 0. */
  function Hosted(x: Exec): seq<ActorId> {
    if x.actors == [] then [] else x.actors[1..]
  }

  function Finished(x: Exec, m: Measure): nat {
    if m.Of? then Times(x.finished, m.a) else 0
  }

  /** In flight to the executor, hosted there, dropped there, finished there. */
  function AtSite(s: Site, m: Measure): nat {
    InMail(s.mail, m) + Amount(Hosted(s.x), m) + Amount(s.x.dropped, m) + Finished(s.x, m)
  }

  function Total(sites: seq<Site>, m: Measure): nat {
    if sites == [] then 0 else AtSite(sites[0], m) + Total(sites[1..], m)
  }

  lemma AmountSplit(s: seq<ActorId>, t: seq<ActorId>, m: Measure)
    ensures Amount(s + t, m) == Amount(s, m) + Amount(t, m)
  {
    if m.Of? { TimesSplit(s, t, m.a); }
  }

  lemma {:induction false} InMailPost(mail: seq<Command>, c: Command, m: Measure)
    ensures InMail(mail + [c], m) == InMail(mail, m) + Carries(c, m)
    decreases |mail|
  {
    if mail == [] {
      assert [] + [c] == [c];
    } else {
      InMailPost(mail[1..], c, m);
      assert (mail + [c])[0] == mail[0] && (mail + [c])[1..] == mail[1..] + [c];
    }
  }

  lemma PostCounts(s: Site, c: Command, m: Measure)
    ensures AtSite(Post(s, c), m) == AtSite(s, m) + Carries(c, m)
  {
    InMailPost(s.mail, c, m);
  }

  lemma {:induction false} TotalUpdate(sites: seq<Site>, e: nat, s: Site, m: Measure)
    requires e < |sites|
    ensures Total(sites[e := s], m) + AtSite(sites[e], m) == Total(sites, m) + AtSite(s, m)
    decreases |sites|
  {
    hide AtSite;
    if e == 0 {
      assert sites[e := s][1..] == sites[1..];
    } else {
      TotalUpdate(sites[1..], e - 1, s, m);
      assert sites[e := s][1..] == sites[1..][e - 1 := s];
    }
  }

  // ---------------------------------------------------------------- the invariant

  ghost predicate CommandOk(c: Command, n: nat) {
    CarriesOwnHandlers(c) && (c.Rebalance? ==> c.peer < n)
  }

  ghost predicate SiteOk(s: Site, e: nat, n: nat) {
    && Aligned(s.x) && s.x.outbox == []
    && (!s.stopped ==> s.x.num > 0 && s.x.actors[0] == e && s.next <= s.x.num)
    && (s.stopped ==> s.x.num == 0)
    && (!s.stopped && s.next == 0 ==> s.x.ran == [] && (s.x.items[0].ready ==> s.mail != []))
    && forall k :: 0 <= k < |s.mail| ==> CommandOk(s.mail[k], n)
  }

  ghost predicate SitesOk(st: Engine) {
    forall e :: 0 <= e < |st.sites| ==> SiteOk(st.sites[e], e, |st.sites|)
  }

  ghost predicate Conserved(st: Engine) {
    && (forall a :: Total(st.sites, Of(a)) == Times(st.spawned, a))
    && Total(st.sites, Unfinished) == st.alive
  }

  ghost predicate Inv(n: nat, st: Engine) {
    |st.sites| == |st.counts| == n && SitesOk(st) && Conserved(st) && Distinct(st.spawned)
    && forall a :: a in st.spawned ==> a >= n
  }

  lemma {:induction false} TotalOfStarts(sites: seq<Site>, m: Measure)
    requires forall e :: 0 <= e < |sites| ==>
               (Hosted(sites[e].x) == [] && sites[e].mail == [] && sites[e].x.dropped == [] && sites[e].x.finished == [])
    ensures Total(sites, m) == 0
    decreases |sites|
  {
    if sites != [] {
      TotalOfStarts(sites[1..], m);
    }
  }

  lemma InitInv(n: nat)
    ensures Inv(n, Init(n))
  {
    forall m: Measure ensures Total(Init(n).sites, m) == 0 {
      TotalOfStarts(Init(n).sites, m);
    }
  }

  /** What a step of one executor may do to the count: actors leave only by being sent or by being
      finished, and only finishing lowers the counter. */
  ghost predicate Keeps(s: Site, s': Site, n: nat) {
    && |s'.x.outbox| <= 1 && (forall k :: 0 <= k < |s'.x.outbox| ==> s'.x.outbox[k].0 < n && CommandOk(s'.x.outbox[k].1, n))
    && forall m: Measure ::
         AtSite(s', m) + Sent(s'.x.outbox, m) + Fewer(s, s', m) == AtSite(s, m)
  }

  /** How many of the unfinished a step finished. */
  function Fewer(s: Site, s': Site, m: Measure): int {
    if m.Unfinished? then |s'.x.finished| - |s.x.finished| else 0
  }

  function Sent(outbox: seq<(nat, Command)>, m: Measure): nat {
    if outbox == [] then 0 else Carries(outbox[0].1, m) + Sent(outbox[1..], m)
  }

  /** Only a Rebalance sends anything: one actor, with its own handlers, to the peer it names. */
  ghost predicate SentBy(c: Command, outbox: seq<(nat, Command)>) {
    && |outbox| <= 1
    && (outbox != [] ==> c.Rebalance? && outbox[0].0 == c.peer && outbox[0].1.ActorTransfer? && CarriesOwnHandlers(outbox[0].1))
  }

  lemma RebalanceSends(x: Exec, peer: nat, rand: nat)
    requires Aligned(x) && x.num > 1 && x.outbox == []
    ensures var i, y := 1 + rand % (x.num - 1), OnRebalance(x, peer, rand);
            && y.actors == x.actors[i := x.actors[x.num - 1]][..x.num - 1] && |y.actors| > 0
            && y.outbox == [(peer, ActorTransfer(x.actors[i], Handlers(x.actors[i])))]
            && y.dropped == x.dropped && y.finished == x.finished
  {
    var i := 1 + rand % (x.num - 1);
    assert SwapWithLast(x.actors, i)[..x.num - 1] == x.actors[i := x.actors[x.num - 1]][..x.num - 1];
  }

  lemma RebalanceKeeps(x: Exec, peer: nat, rand: nat, m: Measure)
    requires Aligned(x) && x.num > 0 && x.outbox == []
    ensures var y := OnRebalance(x, peer, rand);
            && SentBy(Rebalance(peer), y.outbox) && y.dropped == x.dropped && y.finished == x.finished
            && Amount(Hosted(x), m) == Amount(Hosted(y), m) + Sent(y.outbox, m)
  {
    if x.num > 1 {
      RebalanceSends(x, peer, rand);
      hide OnRebalance;
      var i, y := 1 + rand % (x.num - 1), OnRebalance(x, peer, rand);
      assert y.outbox[1..] == [];
      if m.Of? {
        hide Times;
        RemovedFromActors(x.actors, i, m.a);
      }
    }
  }

  lemma ListenKeeps(x: Exec, a: ActorId, h: Handlers, m: Measure)
    requires x.actors != []
    ensures Amount(Hosted(Listen(x, a, h)), m) == Amount(Hosted(x), m) + Amount([a], m)
  {
    assert (x.actors + [a])[1..] == x.actors[1..] + [a];
    AmountSplit(x.actors[1..], [a], m);
  }

  lemma CommandKeeps(x: Exec, c: Command, rand: nat, outcome: ActorId -> Outcome, m: Measure)
    requires Aligned(x) && x.num > 0 && x.outbox == []
    ensures var y := OnCommand(x, c, rand, outcome);
            && y.finished == x.finished && SentBy(c, y.outbox)
            && Amount(Hosted(x), m) + Amount(x.dropped, m) + Carries(c, m)
               == Amount(Hosted(y), m) + Amount(y.dropped, m) + Sent(y.outbox, m)
  {
    hide Amount, OnRebalance;
    match c {
      case NewActor(a) => ListenKeeps(x, a, Handlers(a), m); AmountSplit(x.dropped, [a], m);
      case ActorTransfer(a, h) => ListenKeeps(x, a, h, m);
      case Rebalance(peer) => RebalanceKeeps(x, peer, rand, m);
      case Termination =>
    }
  }

  lemma HeadKeeps(s: Site, e: nat, n: nat, rand: nat, outcome: ActorId -> Outcome)
    requires SiteOk(s, e, n) && !s.stopped && s.next == 0
    ensures var s' := HeadVisited(s, rand, outcome);
            Keeps(s, s', n) && SiteOk(s'.(x := s'.x.(outbox := [])), e, n)
  {
    HeadOk(s, e, n, rand, outcome);
    if s.x.items[0].ready {
      HeadSends(s, e, n, rand, outcome);
    }
  }

  lemma HeadSends(s: Site, e: nat, n: nat, rand: nat, outcome: ActorId -> Outcome)
    requires SiteOk(s, e, n) && !s.stopped && s.next == 0 && s.x.items[0].ready
    ensures Keeps(s, HeadVisited(s, rand, outcome), n)
  {
    assert CommandOk(s.mail[0], n);
    hide AtSite, HeadVisited, Sent, Aligned;
    var s' := HeadVisited(s, rand, outcome);
    forall m: Measure
      ensures AtSite(s', m) + Sent(s'.x.outbox, m) + Fewer(s, s', m) == AtSite(s, m)
      ensures SentBy(s.mail[0], s'.x.outbox)
    {
      HeadCounts(s, e, n, rand, outcome, m);
    }
    HeadCounts(s, e, n, rand, outcome, Unfinished);
  }

  lemma HeadOk(s: Site, e: nat, n: nat, rand: nat, outcome: ActorId -> Outcome)
    requires SiteOk(s, e, n) && !s.stopped && s.next == 0
    ensures var s' := HeadVisited(s, rand, outcome); SiteOk(s'.(x := s'.x.(outbox := [])), e, n)
  {
    hide OnCommand;
    if s.x.items[0].ready {
      assert CommandOk(s.mail[0], n);
      CommandAligned(s.x.(ran := s.x.ran + [s.x.actors[0]]), s.mail[0], rand, outcome);
    }
  }

  lemma HeadCounts(s: Site, e: nat, n: nat, rand: nat, outcome: ActorId -> Outcome, m: Measure)
    requires SiteOk(s, e, n) && !s.stopped && s.next == 0 && s.x.items[0].ready
    ensures var s' := HeadVisited(s, rand, outcome);
            && AtSite(s', m) + Sent(s'.x.outbox, m) == AtSite(s, m)
            && s'.x.finished == s.x.finished && SentBy(s.mail[0], s'.x.outbox)
  {
    hide Amount, OnCommand, Carries, Sent;
    CommandKeeps(s.x.(ran := s.x.ran + [s.x.actors[0]]), s.mail[0], rand, outcome, m);
  }

  lemma NextKeeps(s: Site, e: nat, n: nat, outcome: ActorId -> Outcome)
    requires SiteOk(s, e, n) && !s.stopped && 0 < s.next < s.x.num
    ensures var s' := NextVisited(s, outcome);
            Keeps(s, s', n) && SiteOk(s', e, n)
  {
    var s' := NextVisited(s, outcome);
    VisitAligned(s.x, s.next, outcome);
    forall m: Measure
      ensures AtSite(s', m) + Fewer(s, s', m) == AtSite(s, m)
    {
      NextCounts(s, outcome, m);
    }
  }

  lemma NextCounts(s: Site, outcome: ActorId -> Outcome, m: Measure)
    requires Aligned(s.x) && 0 < s.next < s.x.num
    ensures var s' := NextVisited(s, outcome);
            AtSite(s', m) + Fewer(s, s', m) == AtSite(s, m)
  {
    if m.Of? {
      hide Times, InMail, Visit, Leaving, Ready;
      VisitRuns(s.x, s.next, outcome, m.a);
    }
  }

  lemma StopKeeps(s: Site, e: nat, n: nat)
    requires SiteOk(s, e, n) && !s.stopped
    ensures var s' := s.(x := StopAll(s.x), next := 0, stopped := true);
            Keeps(s, s', n) && SiteOk(s', e, n)
  {
    var s' := s.(x := StopAll(s.x), next := 0, stopped := true);
    forall m: Measure
      ensures AtSite(s', m) + Fewer(s, s', m) == AtSite(s, m)
    {
      if m.Of? { TimesSplit(s.x.finished, Hosted(s.x), m.a); }
    }
  }

  lemma PostOk(s: Site, c: Command, e: nat, n: nat)
    requires SiteOk(s, e, n) && CommandOk(c, n)
    ensures SiteOk(Post(s, c), e, n)
  {
  }

  lemma PolledKeeps(s: Site, e: nat, n: nat, ready: ActorId -> bool, m: Measure)
    requires SiteOk(s, e, n) && !s.stopped
    ensures SiteOk(Polled(s, ready), e, n) && AtSite(Polled(s, ready), m) == AtSite(s, m)
  {
  }

  lemma DeliverOne(sites: seq<Site>, outbox: seq<(nat, Command)>)
    requires |outbox| <= 1 && forall k :: 0 <= k < |outbox| ==> outbox[k].0 < |sites|
    ensures Deliver(sites, outbox) ==
            if outbox == [] then sites else sites[outbox[0].0 := Post(sites[outbox[0].0], outbox[0].1)]
  {
    if outbox != [] {
      assert outbox[1..] == [];
    }
  }

  /** Any step of an executor that keeps its own count keeps the engine's. */
  lemma MovedInv(n: nat, st: Engine, e: nat, s': Site)
    requires Inv(n, st) && e < n && Keeps(st.sites[e], s', n) && SiteOk(s'.(x := s'.x.(outbox := [])), e, n)
    ensures Inv(n, Moved(st, e, s'))
  {
    hide AtSite, SiteOk, Distinct;
    var s := st.sites[e];
    var kept := s'.(x := s'.x.(outbox := []));
    var mid := st.sites[e := kept];
    var st' := Moved(st, e, s');
    DeliverOne(mid, s'.x.outbox);
    forall m: Measure
      ensures Total(st'.sites, m) + Fewer(s, s', m) == Total(st.sites, m)
    {
      SameCounts(s', kept, m);
      TotalUpdate(st.sites, e, kept, m);
      assert AtSite(s', m) + Sent(s'.x.outbox, m) + Fewer(s, s', m) == AtSite(s, m);
      assert Total(mid, m) + AtSite(s, m) == Total(st.sites, m) + AtSite(s', m);
      if s'.x.outbox != [] {
        var (peer, c) := s'.x.outbox[0];
        assert s'.x.outbox[1..] == [];
        TotalUpdate(mid, peer, Post(mid[peer], c), m);
        PostCounts(mid[peer], c, m);
        assert Total(st'.sites, m) == Total(mid, m) + Carries(c, m);
        assert Sent(s'.x.outbox, m) == Carries(c, m);
      }
    }
    forall k | 0 <= k < n ensures SiteOk(st'.sites[k], k, n) {
      if s'.x.outbox != [] {
        var (peer, c) := s'.x.outbox[0];
        assert SiteOk(mid[peer], peer, n);
        PostOk(mid[peer], c, peer, n);
      }
    }
    assert Total(st'.sites, Unfinished) == st'.alive;
  }

  lemma SameCounts(s: Site, t: Site, m: Measure)
    requires s.mail == t.mail && s.x.actors == t.x.actors && s.x.dropped == t.x.dropped && s.x.finished == t.x.finished
    ensures AtSite(s, m) == AtSite(t, m)
  {
  }

  /** Replacing one executor's site by one that counts the same. */
  lemma ReplacedInv(n: nat, st: Engine, e: nat, s': Site)
    requires Inv(n, st) && e < n && SiteOk(s', e, n) && forall m: Measure :: AtSite(s', m) == AtSite(st.sites[e], m)
    ensures Inv(n, st.(sites := st.sites[e := s']))
  {
    hide AtSite, SiteOk, Distinct;
    forall m: Measure ensures Total(st.sites[e := s'], m) == Total(st.sites, m) {
      TotalUpdate(st.sites, e, s', m);
    }
    assert Total(st.sites[e := s'], Unfinished) == st.alive;
  }

  lemma SpawnInv(n: nat, st: Engine, e: nat, a: ActorId)
    requires Inv(n, st) && e < n && a !in st.spawned && a >= n
    ensures Inv(n, Apply(st, Spawn(e, a)))
  {
    hide AtSite, SiteOk;
    var c := NewActor(a);
    var st' := Apply(st, Spawn(e, a));
    forall m: Measure ensures Total(st'.sites, m) == Total(st.sites, m) + Amount([a], m) {
      TotalUpdate(st.sites, e, Post(st.sites[e], c), m);
      PostCounts(st.sites[e], c, m);
    }
    assert Total(st'.sites, Unfinished) == st'.alive;
    forall b ensures Total(st'.sites, Of(b)) == Times(st'.spawned, b) {
      TimesSplit(st.spawned, [a], b);
      assert Total(st.sites, Of(b)) == Times(st.spawned, b);
    }
    PostOk(st.sites[e], c, e, n);
  }

  /** Requests carry nobody. */
  lemma {:induction false} AskedInv(n: nat, st: Engine, outbox: seq<(nat, Command)>)
    requires Inv(n, st)
    requires forall k :: 0 <= k < |outbox| ==> outbox[k].1.Rebalance? && outbox[k].1.peer < n
    ensures Inv(n, st.(sites := Deliver(st.sites, outbox)))
    decreases |outbox|
  {
    hide Inv, Post;
    if outbox == [] {
      assert st.(sites := st.sites) == st;
    } else {
      var (peer, c) := outbox[0];
      SitesInv(n, st);
      if peer < n {
        forall m: Measure ensures AtSite(Post(st.sites[peer], c), m) == AtSite(st.sites[peer], m) {
          PostCounts(st.sites[peer], c, m);
        }
        PostOk(st.sites[peer], c, peer, n);
        ReplacedInv(n, st, peer, Post(st.sites[peer], c));
        AskedInv(n, st.(sites := st.sites[peer := Post(st.sites[peer], c)]), outbox[1..]);
      } else {
        AskedInv(n, st, outbox[1..]);
      }
    }
  }

  lemma SitesInv(n: nat, st: Engine)
    requires Inv(n, st)
    ensures |st.sites| == |st.counts| == n && forall e :: 0 <= e < n ==> SiteOk(st.sites[e], e, n)
  {
  }

  lemma BalanceInv(n: nat, st: Engine, order: seq<nat>, limit: real)
    requires Inv(n, st) && IsOrder(order, n) && SortedBy(st.counts, order)
    ensures Inv(n, st.(sites := Deliver(st.sites, Requests(Wanted(st.counts, order, limit, 0))),
                       counts := seq(|st.counts|, _ => 0)))
  {
    var w := Wanted(st.counts, order, limit, 0);
    forall k | 0 <= k < |w| ensures w[k].1 < n {
      WantedInward(st.counts, order, limit, 0, k);
    }
    AskedInv(n, st, Requests(w));
    hide Deliver, SitesOk, Conserved, Wanted;
  }

  lemma StepInv(n: nat, st: Engine, act: Action)
    requires Inv(n, st) && Enabled(st, act)
    ensures Inv(n, Apply(st, act))
  {
    hide Keeps, AtSite, Conserved, Distinct, Moved, HeadVisited, NextVisited, Polled, Post, StopAll;
    var e := act.e;
    var s := st.sites[e];
    assert SiteOk(s, e, n);
    match act {
      case Spawn(_, a) => SpawnInv(n, st, e, a);
      case Balance(_, order, limit, _) =>
        BalanceInv(n, st, order, limit);
      case Terminate(_) =>
        PostOk(s, Termination, e, n);
        forall m: Measure ensures AtSite(Post(s, Termination), m) == AtSite(s, m) { PostCounts(s, Termination, m); }
        ReplacedInv(n, st, e, Post(s, Termination));
      case Poll(_, ready) =>
        PolledKeeps(s, e, n, ready, Unfinished);
        forall m: Measure ensures AtSite(Polled(s, ready), m) == AtSite(s, m) { PolledKeeps(s, e, n, ready, m); }
        ReplacedInv(n, st, e, Polled(s, ready));
      case VisitHead(_, rand, outcome) =>
        HeadKeeps(s, e, n, rand, outcome);
        MovedInv(n, st, e, HeadVisited(s, rand, outcome));
      case VisitNext(_, outcome) =>
        NextKeeps(s, e, n, outcome);
        NothingSent(NextVisited(s, outcome), e, n);
        MovedInv(n, st, e, NextVisited(s, outcome));
      case Stop(_) =>
        StopKeeps(s, e, n);
        var s' := s.(x := StopAll(s.x), next := 0, stopped := true);
        NothingSent(s', e, n);
        MovedInv(n, st, e, s');
    }
  }

  lemma NothingSent(s: Site, e: nat, n: nat)
    requires SiteOk(s, e, n)
    ensures s.(x := s.x.(outbox := [])) == s
  {
  }

  lemma {:induction false} RunInv(n: nat, st: Engine, run: seq<Action>)
    requires Inv(n, st) && Legal(st, run)
    ensures Inv(n, After(st, run))
    decreases |run|
  {
    hide Inv, Enabled, Apply;
    if run != [] {
      StepInv(n, st, run[0]);
      RunInv(n, Apply(st, run[0]), run[1..]);
    }
  }

  lemma ReachableInv(n: nat, st: Engine)
    requires Reachable(n, st)
    ensures Inv(n, st)
  {
    hide Inv;
    InitInv(n);
    var run :| Legal(Init(n), run) && After(Init(n), run) == st;
    RunInv(n, Init(n), run);
  }
}
