/**
 One executor of an engine: three vectors side by side, changed while a loop runs over them. Index 0
 is the executor itself, so its own command is handled before any hosted actor runs in that round.
 */
module Executor {
  import opened Wrappers

  type ActorId = nat

  /** What `behavior()` of an actor returned. */
  datatype Handlers = Handlers(owner: ActorId)

  /** `ready` is what the last poll said. */
  datatype PollItem = PollItem(socket: ActorId, ready: bool)

  datatype Command =
    | NewActor(actor: ActorId)
    | Rebalance(peer: nat)
    | ActorTransfer(actor: ActorId, handlers: Handlers)
    | Termination

  /** How running an actor (or starting a new one) ends. */
  datatype Outcome = Stays | Leaves | Throws

  /** `ran` lists the actors run in this round; `finished` those stopped and deleted; `dropped` those
      whose start left them inactive; `outbox` what was sent to other executors. */
  datatype Exec = Exec(
    actors: seq<ActorId>, handlers: seq<Handlers>, items: seq<PollItem>, num: nat, activated: bool,
    ran: seq<ActorId>, finished: seq<ActorId>, dropped: seq<ActorId>, outbox: seq<(nat, Command)>)

  predicate SameLength(x: Exec) {
    x.num == |x.actors| == |x.handlers| == |x.items|
  }

  /** The vectors agree: every actor stands beside its own handlers and its own socket. */
  predicate Aligned(x: Exec) {
    && SameLength(x)
    && forall k :: 0 <= k < x.num ==> x.handlers[k] == Handlers(x.actors[k]) && x.items[k].socket == x.actors[k]
  }

  function Listen(x: Exec, a: ActorId, h: Handlers): Exec {
    x.(actors := x.actors + [a], handlers := x.handlers + [h], items := x.items + [PollItem(a, false)], num := x.num + 1)
  }

  function OnNewActor(x: Exec, a: ActorId, outcome: Outcome): Exec {
    match outcome
    case Stays => Listen(x, a, Handlers(a))
    case Leaves => x.(dropped := x.dropped + [a])
    case Throws => x.(dropped := x.dropped + [a], activated := false)
  }

  function SwapWithLast<T>(s: seq<T>, i: nat): seq<T>
    requires i < |s|
  {
    s[i := s[|s| - 1]][|s| - 1 := s[i]]
  }

  function OnRebalance(x: Exec, peer: nat, rand: nat): Exec
    requires SameLength(x) && x.num > 0
  {
    if x.num == 1 then x
    else
      var i := 1 + rand % (x.num - 1);
      var last := x.num - 1;
      var (actors, handlers, items) := (SwapWithLast(x.actors, i), SwapWithLast(x.handlers, i), SwapWithLast(x.items, i));
      x.(actors := actors[..last], handlers := handlers[..last], items := items[..last], num := last,
         outbox := x.outbox + [(peer, ActorTransfer(actors[last], handlers[last]))])
  }

  function OnCommand(x: Exec, c: Command, rand: nat, outcome: ActorId -> Outcome): Exec
    requires SameLength(x) && x.num > 0
  {
    match c
    case NewActor(a) => OnNewActor(x, a, outcome(a))
    case Rebalance(peer) => OnRebalance(x, peer, rand)
    case ActorTransfer(a, h) => Listen(x, a, h)
    case Termination => x.(activated := false)
  }

  /** The entry at i is finished and the last one takes its place. */
  function Remove(x: Exec, i: nat): Exec
    requires SameLength(x) && i < x.num
  {
    var last := x.num - 1;
    x.(actors := x.actors[i := x.actors[last]][..last], handlers := x.handlers[i := x.handlers[last]][..last],
       items := x.items[i := x.items[last]][..last], num := last, finished := x.finished + [x.actors[i]])
  }

  /** The loop at index 0. */
  function VisitSelf(x: Exec, command: Option<Command>, rand: nat, outcome: ActorId -> Outcome): Exec
    requires SameLength(x) && x.num > 0
  {
    match command
    case None => x
    case Some(c) => OnCommand(x.(ran := x.ran + [x.actors[0]]), c, rand, outcome)
  }

  /** The loop at index i > 0, with the index the next iteration uses. */
  function Visit(x: Exec, i: nat, outcome: ActorId -> Outcome): (Exec, nat)
    requires SameLength(x) && i < x.num
  {
    if !x.items[i].ready then (x, i + 1)
    else
      var y := x.(ran := x.ran + [x.actors[i]]);
      if outcome(x.actors[i]).Stays? then (y, i + 1) else (Remove(y, i), i)
  }

  function Sweep(x: Exec, i: nat, outcome: ActorId -> Outcome): Exec
    requires SameLength(x) && i <= x.num
    decreases x.num - i
  {
    if i == x.num then x else var (y, j) := Visit(x, i, outcome); Sweep(y, j, outcome)
  }

  /** One round over what the poll said. */
  function Round(x: Exec, command: Option<Command>, rand: nat, outcome: ActorId -> Outcome): Exec
    requires SameLength(x) && x.num > 0
  {
    Sweep(VisitSelf(x, command, rand, outcome), 1, outcome)
  }

  /** After its last round the executor finishes whom it still hosts. */
  function StopAll(x: Exec): Exec {
    x.(finished := x.finished + (if x.actors == [] then [] else x.actors[1..]),
       actors := [], handlers := [], items := [], num := 0)
  }

  // ---------------------------------------------------------------- alignment

  predicate CarriesOwnHandlers(c: Command) {
    c.ActorTransfer? ==> c.handlers == Handlers(c.actor)
  }

  lemma CommandAligned(x: Exec, c: Command, rand: nat, outcome: ActorId -> Outcome)
    requires Aligned(x) && x.num > 0 && CarriesOwnHandlers(c)
    ensures var y := OnCommand(x, c, rand, outcome);
            && Aligned(y) && y.num > 0 && y.actors[0] == x.actors[0]
            && x.outbox <= y.outbox
            && forall m :: m in y.outbox[|x.outbox|..] ==> CarriesOwnHandlers(m.1)
  {
  }

  lemma VisitSelfAligned(x: Exec, command: Option<Command>, rand: nat, outcome: ActorId -> Outcome)
    requires Aligned(x) && x.num > 0 && (command.Some? ==> CarriesOwnHandlers(command.value))
    ensures var y := VisitSelf(x, command, rand, outcome); Aligned(y) && y.num > 0 && y.actors[0] == x.actors[0]
  {
    hide OnCommand;
    if command.Some? {
      CommandAligned(x.(ran := x.ran + [x.actors[0]]), command.value, rand, outcome);
    }
  }

  lemma VisitShrinks(x: Exec, i: nat, outcome: ActorId -> Outcome)
    requires SameLength(x) && 0 < i < x.num
    ensures var (y, j) := Visit(x, i, outcome); 0 < j <= y.num && y.num - j < x.num - i
  {
  }

  lemma VisitAligned(x: Exec, i: nat, outcome: ActorId -> Outcome)
    requires Aligned(x) && 0 < i < x.num
    ensures var y := Visit(x, i, outcome).0; Aligned(y) && y.num > 0 && y.actors[0] == x.actors[0]
  {
  }

  lemma {:induction false} SweepAligned(x: Exec, i: nat, outcome: ActorId -> Outcome)
    requires Aligned(x) && 0 < i <= x.num
    ensures var y := Sweep(x, i, outcome); Aligned(y) && y.num > 0 && y.actors[0] == x.actors[0] && y.outbox == x.outbox
    decreases x.num - i
  {
    if i < x.num {
      VisitAligned(x, i, outcome);
      var (y, j) := Visit(x, i, outcome);
      SweepAligned(y, j, outcome);
    }
  }

  // ---------------------------------------------------------------- who runs

  /** The actors that the poll found ready, in the order of the vector. */
  function Ready(items: seq<PollItem>): seq<ActorId> {
    if items == [] then [] else (if items[0].ready then [items[0].socket] else []) + Ready(items[1..])
  }

  /** The ready ones that do not stay. */
  function Leaving(items: seq<PollItem>, outcome: ActorId -> Outcome): seq<ActorId> {
    if items == [] then []
    else (if items[0].ready && !outcome(items[0].socket).Stays? then [items[0].socket] else [])
         + Leaving(items[1..], outcome)
  }

  lemma {:induction false} ReadySplit(a: seq<PollItem>, b: seq<PollItem>)
    ensures Ready(a + b) == Ready(a) + Ready(b)
    decreases |a|
  {
    if a == [] {
      assert a + b == b;
    } else {
      ReadySplit(a[1..], b);
      assert (a + b)[0] == a[0] && (a + b)[1..] == a[1..] + b;
      var head := if a[0].ready then [a[0].socket] else [];
      assert head + (Ready(a[1..]) + Ready(b)) == (head + Ready(a[1..])) + Ready(b);
    }
  }

  lemma {:induction false} LeavingSplit(a: seq<PollItem>, b: seq<PollItem>, outcome: ActorId -> Outcome)
    ensures Leaving(a + b, outcome) == Leaving(a, outcome) + Leaving(b, outcome)
    decreases |a|
  {
    if a == [] {
      assert a + b == b;
    } else {
      LeavingSplit(a[1..], b, outcome);
      assert (a + b)[0] == a[0] && (a + b)[1..] == a[1..] + b;
      var head := if a[0].ready && !outcome(a[0].socket).Stays? then [a[0].socket] else [];
      assert head + (Leaving(a[1..], outcome) + Leaving(b, outcome)) == (head + Leaving(a[1..], outcome)) + Leaving(b, outcome);
    }
  }

  /** How often a occurs. */
  function Times(s: seq<ActorId>, a: ActorId): nat {
    multiset(s)[a]
  }

  lemma TimesSplit(s: seq<ActorId>, t: seq<ActorId>, a: ActorId)
    ensures Times(s + t, a) == Times(s, a) + Times(t, a)
  {
  }

  /** Taking the entry at i out by swap-remove takes just that entry out of what is still to be visited. */
  lemma RemovedFromRest(items: seq<PollItem>, i: nat, outcome: ActorId -> Outcome, a: ActorId)
    requires i < |items| && items[i].ready && !outcome(items[i].socket).Stays?
    ensures var rest := items[i := items[|items| - 1]][..|items| - 1][i..];
            && Times(Ready(items[i..]), a) == Times([items[i].socket], a) + Times(Ready(rest), a)
            && Times(Leaving(items[i..], outcome), a) == Times([items[i].socket], a) + Times(Leaving(rest, outcome), a)
  {
    var n := |items| - 1;
    var rest := items[i := items[n]][..n][i..];
    var tail := items[i..][1..];
    TimesSplit([items[i].socket], Ready(tail), a);
    TimesSplit([items[i].socket], Leaving(tail, outcome), a);
    hide Times, Ready, Leaving;
    if i < n {
      var mid := items[i + 1..n];
      assert rest == [items[n]] + mid && tail == mid + [items[n]];
      ReadySplit([items[n]], mid);
      ReadySplit(mid, [items[n]]);
      LeavingSplit([items[n]], mid, outcome);
      LeavingSplit(mid, [items[n]], outcome);
      TimesSplit(Ready([items[n]]), Ready(mid), a);
      TimesSplit(Ready(mid), Ready([items[n]]), a);
      TimesSplit(Leaving([items[n]], outcome), Leaving(mid, outcome), a);
      TimesSplit(Leaving(mid, outcome), Leaving([items[n]], outcome), a);
    } else {
      assert rest == [] && tail == [];
    }
  }

  lemma RemovedFromActors(s: seq<ActorId>, i: nat, a: ActorId)
    requires 0 < i < |s|
    ensures var t := s[i := s[|s| - 1]][..|s| - 1];
            Times(s[1..], a) == Times(t[1..], a) + Times([s[i]], a)
  {
    hide Times;
    var n := |s| - 1;
    var t := s[i := s[n]][..n];
    if i < n {
      var before, between := s[1..i], s[i + 1..n];
      assert s[1..] == (before + [s[i]]) + (between + [s[n]]);
      assert t[1..] == (before + [s[n]]) + between;
      TimesSplit(before + [s[i]], between + [s[n]], a);
      TimesSplit(before, [s[i]], a);
      TimesSplit(between, [s[n]], a);
      TimesSplit(before + [s[n]], between, a);
      TimesSplit(before, [s[n]], a);
    } else {
      assert s[1..] == t[1..] + [s[n]];
      TimesSplit(t[1..], [s[n]], a);
    }
  }

  lemma LeavesRuns(x: Exec, i: nat, outcome: ActorId -> Outcome, a: ActorId)
    requires Aligned(x) && 0 < i < x.num && x.items[i].ready && !outcome(x.actors[i]).Stays?
    ensures var y := Remove(x, i);
            && Times([x.actors[i]], a) + Times(Ready(y.items[i..]), a) == Times(Ready(x.items[i..]), a)
            && Times([x.actors[i]], a) + Times(Leaving(y.items[i..], outcome), a) == Times(Leaving(x.items[i..], outcome), a)
            && Times(x.actors[1..], a) == Times(y.actors[1..], a) + Times([x.actors[i]], a)
  {
    hide Ready, Leaving;
    RemovedFromRest(x.items, i, outcome, a);
    RemovedFromActors(x.actors, i, a);
  }

  lemma StepsOver(x: Exec, i: nat, outcome: ActorId -> Outcome)
    requires Aligned(x) && 0 < i < x.num
    ensures Ready(x.items[i..]) == (if x.items[i].ready then [x.actors[i]] else []) + Ready(x.items[i + 1..])
    ensures !x.items[i].ready || outcome(x.actors[i]).Stays? ==>
              Leaving(x.items[i..], outcome) == Leaving(x.items[i + 1..], outcome)
  {
    assert x.items[i..][1..] == x.items[i + 1..];
  }

  /** What one iteration runs and finishes comes out of what is still to be visited. */
  lemma VisitRuns(x: Exec, i: nat, outcome: ActorId -> Outcome, a: ActorId)
    requires Aligned(x) && 0 < i < x.num
    ensures var (y, j) := Visit(x, i, outcome);
            && y.dropped == x.dropped && y.activated == x.activated && 0 < j <= y.num == |y.items| == |y.actors|
            && Times(y.ran, a) + Times(Ready(y.items[j..]), a) == Times(x.ran, a) + Times(Ready(x.items[i..]), a)
            && Times(y.finished, a) + Times(Leaving(y.items[j..], outcome), a)
               == Times(x.finished, a) + Times(Leaving(x.items[i..], outcome), a)
            && Times(x.actors[1..], a) + Times(Leaving(y.items[j..], outcome), a)
               == Times(y.actors[1..], a) + Times(Leaving(x.items[i..], outcome), a)
  {
    hide Ready, Leaving, Times;
    TimesSplit(x.ran, [x.actors[i]], a);
    if x.items[i].ready && !outcome(x.actors[i]).Stays? {
      LeavesRuns(x, i, outcome, a);
      TimesSplit(x.finished, [x.actors[i]], a);
    } else {
      StepsOver(x, i, outcome);
      TimesSplit([x.actors[i]], Ready(x.items[i + 1..]), a);
      assert [] + Ready(x.items[i + 1..]) == Ready(x.items[i + 1..]);
    }
  }

  /** From index i on, exactly the ready entries run, each as often as it is there; exactly those of them
      that do not stay are finished; the others stay hosted. */
  lemma {:induction false} SweepRuns(x: Exec, i: nat, outcome: ActorId -> Outcome, a: ActorId)
    requires Aligned(x) && 0 < i <= x.num
    ensures var y := Sweep(x, i, outcome);
            && 0 < y.num == |y.actors| && y.dropped == x.dropped && y.activated == x.activated
            && Times(y.ran, a) == Times(x.ran, a) + Times(Ready(x.items[i..]), a)
            && Times(y.finished, a) == Times(x.finished, a) + Times(Leaving(x.items[i..], outcome), a)
            && Times(x.actors[1..], a) == Times(y.actors[1..], a) + Times(Leaving(x.items[i..], outcome), a)
    decreases x.num - i
  {
    if i < x.num {
      hide Visit, Times;
      VisitAligned(x, i, outcome);
      VisitRuns(x, i, outcome, a);
      SweepRuns(Visit(x, i, outcome).0, Visit(x, i, outcome).1, outcome, a);
    }
  }

  // ---------------------------------------------------------------- a whole round

  ghost predicate Distinct(s: seq<ActorId>) {
    forall j, k :: 0 <= j < k < |s| ==> s[j] != s[k]
  }

  predicate Fresh(x: Exec, c: Command) {
    (c.NewActor? || c.ActorTransfer?) ==> c.actor !in x.actors
  }

  ghost predicate SocketsOf(items: seq<PollItem>, actors: seq<ActorId>) {
    |items| == |actors| && forall k :: 0 <= k < |items| ==> items[k].socket == actors[k]
  }

  lemma TimesOne(b: ActorId, a: ActorId)
    ensures Times([b], a) == (if a == b then 1 else 0) && Times([], a) == 0
  {
  }

  lemma TailDistinct(items: seq<PollItem>, actors: seq<ActorId>, a: ActorId)
    requires items != [] && SocketsOf(items, actors) && Distinct(actors)
    ensures SocketsOf(items[1..], actors[1..]) && Distinct(actors[1..]) && |actors| == |items|
    ensures PollItem(a, true) in items <==> items[0] == PollItem(a, true) || PollItem(a, true) in items[1..]
    ensures a == items[0].socket ==> PollItem(a, true) !in items[1..]
  {
    assert items == [items[0]] + items[1..];
    assert PollItem(a, true) in items[1..] ==> a in actors[1..];
  }

  lemma {:induction false} ReadyOnce(items: seq<PollItem>, actors: seq<ActorId>, a: ActorId)
    requires SocketsOf(items, actors) && Distinct(actors)
    ensures Times(Ready(items), a) == (if PollItem(a, true) in items then 1 else 0)
    decreases |items|
  {
    if items != [] {
      hide Times, Distinct, SocketsOf;
      TailDistinct(items, actors, a);
      ReadyOnce(items[1..], actors[1..], a);
      var now := if items[0].ready then [items[0].socket] else [];
      TimesSplit(now, Ready(items[1..]), a);
      TimesOne(items[0].socket, a);
    }
  }

  lemma {:induction false} LeavingOnce(items: seq<PollItem>, actors: seq<ActorId>, outcome: ActorId -> Outcome, a: ActorId)
    requires SocketsOf(items, actors) && Distinct(actors)
    ensures Times(Leaving(items, outcome), a) == (if PollItem(a, true) in items && !outcome(a).Stays? then 1 else 0)
    decreases |items|
  {
    if items != [] {
      hide Times, Distinct, SocketsOf;
      TailDistinct(items, actors, a);
      LeavingOnce(items[1..], actors[1..], outcome, a);
      var leaves := if items[0].ready && !outcome(items[0].socket).Stays? then [items[0].socket] else [];
      TimesSplit(leaves, Leaving(items[1..], outcome), a);
      TimesOne(items[0].socket, a);
    }
  }

  lemma {:induction false} DistinctTimes(s: seq<ActorId>)
    ensures Distinct(s) <==> forall a :: Times(s, a) <= 1
    decreases |s|
  {
    if s != [] {
      DistinctTimes(s[1..]);
      assert s == [s[0]] + s[1..];
      forall a ensures Times(s, a) == Times(s[1..], a) + if a == s[0] then 1 else 0 {
        TimesSplit([s[0]], s[1..], a);
      }
      assert Distinct(s) <==> Distinct(s[1..]) && s[0] !in s[1..] by {
        assert forall k :: 0 <= k < |s| - 1 ==> s[1..][k] == s[k + 1];
        if Distinct(s[1..]) && s[0] !in s[1..] {
          forall j, k | 0 <= j < k < |s| ensures s[j] != s[k] {
            assert s[1..][k - 1] == s[k];
            if j > 0 { assert s[1..][j - 1] == s[j]; }
          }
        }
      }
      assert Times(s, s[0]) == Times(s[1..], s[0]) + 1;
      assert s[0] in s[1..] <==> Times(s[1..], s[0]) > 0;
    }
  }

  /** Where each entry left by a Rebalance was before. */
  function Origin(num: nat, rand: nat, k: nat): (m: nat)
    requires k < num - 1
    ensures m < num
  {
    if k == 1 + rand % (num - 1) then num - 1 else k
  }

  lemma RebalanceEntries(x: Exec, peer: nat, rand: nat, k: nat)
    requires SameLength(x) && x.num > 1 && k < x.num - 1
    ensures var y := OnRebalance(x, peer, rand);
            var m := Origin(x.num, rand, k);
            SameLength(y) && y.num == x.num - 1 && y.actors[k] == x.actors[m] && y.items[k] == x.items[m]
  {
  }

  lemma RebalanceDistinct(x: Exec, peer: nat, rand: nat)
    requires SameLength(x) && x.num > 0 && Distinct(x.actors)
    ensures Distinct(OnRebalance(x, peer, rand).actors)
  {
    var y := OnRebalance(x, peer, rand);
    if x.num > 1 {
      hide OnRebalance;
      RebalanceEntries(x, peer, rand, 0);
      forall j, k | 0 <= j < k < |y.actors| ensures y.actors[j] != y.actors[k] {
        RebalanceEntries(x, peer, rand, j);
        RebalanceEntries(x, peer, rand, k);
      }
    }
  }

  /** Entries are told apart by their actor. */
  lemma ReadyBySocket(items: seq<PollItem>, actors: seq<ActorId>, k: nat)
    requires SocketsOf(items, actors) && Distinct(actors) && k < |items|
    ensures PollItem(actors[k], true) in items <==> items[k].ready
  {
    if items[k].ready {
      assert items[k] == PollItem(actors[k], true);
    }
  }

  lemma NotHostedNotReady(items: seq<PollItem>, actors: seq<ActorId>, a: ActorId)
    requires SocketsOf(items, actors) && a !in actors
    ensures PollItem(a, true) !in items
  {
  }

  lemma RebalanceKeepsReady(x: Exec, peer: nat, rand: nat, a: ActorId)
    requires Aligned(x) && x.num > 0 && Distinct(x.actors)
    ensures var z := OnRebalance(x, peer, rand);
            a in z.actors ==> (PollItem(a, true) in z.items <==> PollItem(a, true) in x.items)
  {
    var z := OnRebalance(x, peer, rand);
    assert z == OnCommand(x, Rebalance(peer), rand, _ => Stays);
    CommandAligned(x, Rebalance(peer), rand, _ => Stays);
    if a in z.actors && x.num > 1 {
      hide OnRebalance;
      var k :| 0 <= k < z.num && z.actors[k] == a;
      RebalanceEntries(x, peer, rand, 0);
      RebalanceEntries(x, peer, rand, k);
      RebalanceDistinct(x, peer, rand);
      ReadyBySocket(z.items, z.actors, k);
      ReadyBySocket(x.items, x.actors, Origin(x.num, rand, k));
    }
  }

  lemma ListenKeepsReady(x: Exec, b: ActorId, h: Handlers, a: ActorId)
    requires Aligned(x) && Distinct(x.actors) && b !in x.actors
    ensures Distinct(Listen(x, b, h).actors)
    ensures PollItem(a, true) in Listen(x, b, h).items <==> PollItem(a, true) in x.items
  {
  }

  /** The command neither makes a hosted actor ready nor takes its readiness away. */
  lemma CommandKeepsReady(x: Exec, c: Command, rand: nat, outcome: ActorId -> Outcome, a: ActorId)
    requires Aligned(x) && x.num > 0 && Distinct(x.actors) && Fresh(x, c) && CarriesOwnHandlers(c)
    ensures var z := OnCommand(x, c, rand, outcome);
            && Distinct(z.actors) && z.ran == x.ran && z.finished == x.finished
            && (a in z.actors ==> (PollItem(a, true) in z.items <==> PollItem(a, true) in x.items))
  {
    match c {
      case NewActor(b) => ListenKeepsReady(x, b, Handlers(b), a);
      case ActorTransfer(b, h) => ListenKeepsReady(x, b, h, a);
      case Rebalance(peer) =>
        hide Listen, Distinct;
        RebalanceKeepsReady(x, peer, rand, a);
        RebalanceDistinct(x, peer, rand);
      case Termination =>
    }
  }

  /** The part of a round over the hosted actors. */
  lemma SweepRunsEachReadyOnce(z: Exec, outcome: ActorId -> Outcome, a: ActorId)
    requires Aligned(z) && z.num > 0 && Distinct(z.actors)
    ensures var y := Sweep(z, 1, outcome);
            var runs := PollItem(a, true) in z.items && a != z.actors[0];
            && Aligned(y) && y.num > 0 && y.actors[0] == z.actors[0]
            && Times(y.ran, a) == Times(z.ran, a) + (if runs then 1 else 0)
            && Times(y.finished, a) == Times(z.finished, a) + (if runs && !outcome(a).Stays? then 1 else 0)
            && Times(y.actors, a) == Times(z.actors, a) - (if runs && !outcome(a).Stays? then 1 else 0)
  {
    hide Sweep, Ready, Leaving, Times;
    SweepAligned(z, 1, outcome);
    SweepRuns(z, 1, outcome, a);
    ReadyOnce(z.items[1..], z.actors[1..], a);
    LeavingOnce(z.items[1..], z.actors[1..], outcome, a);
    var y := Sweep(z, 1, outcome);
    assert z.items == [z.items[0]] + z.items[1..] && z.actors == [z.actors[0]] + z.actors[1..];
    assert y.actors == [y.actors[0]] + y.actors[1..];
    TimesSplit([y.actors[0]], y.actors[1..], a);
    TimesSplit([z.actors[0]], z.actors[1..], a);
    if a == z.actors[0] {
      assert a !in z.actors[1..];
      NotHostedNotReady(z.items[1..], z.actors[1..], a);
    }
  }

  lemma SweepDistinct(z: Exec, outcome: ActorId -> Outcome)
    requires Aligned(z) && z.num > 0 && Distinct(z.actors)
    ensures Distinct(Sweep(z, 1, outcome).actors)
  {
    hide Sweep, Distinct, Times;
    forall b ensures Times(Sweep(z, 1, outcome).actors, b) <= 1 {
      SweepRunsEachReadyOnce(z, outcome, b);
      DistinctTimes(z.actors);
    }
    DistinctTimes(Sweep(z, 1, outcome).actors);
  }

  lemma VisitSelfFacts(x: Exec, command: Option<Command>, rand: nat, outcome: ActorId -> Outcome, a: ActorId)
    requires Aligned(x) && x.num > 0 && Distinct(x.actors)
    requires command.Some? ==> Fresh(x, command.value) && CarriesOwnHandlers(command.value)
    ensures var z := VisitSelf(x, command, rand, outcome);
            && Aligned(z) && z.num > 0 && Distinct(z.actors) && z.actors[0] == x.actors[0]
            && z.ran == x.ran + (if command.Some? then [x.actors[0]] else []) && z.finished == x.finished
            && (a in z.actors ==> (PollItem(a, true) in z.items <==> PollItem(a, true) in x.items))
            && (a !in z.actors ==> PollItem(a, true) !in z.items)
  {
    hide OnCommand;
    var z := VisitSelf(x, command, rand, outcome);
    if command.Some? {
      var x1 := x.(ran := x.ran + [x.actors[0]]);
      CommandAligned(x1, command.value, rand, outcome);
      CommandKeepsReady(x1, command.value, rand, outcome, a);
    }
    if a !in z.actors {
      NotHostedNotReady(z.items, z.actors, a);
    }
  }

  /** A round: the executor runs once if it has a command; of the others, each that was ready at the
      poll and is still hosted after the command runs exactly once, and nobody else does. An actor is
      finished exactly if it ran and did not stay, and then it is no longer hosted. */
  lemma RoundRunsEachReadyOnce(x: Exec, command: Option<Command>, rand: nat, outcome: ActorId -> Outcome, a: ActorId)
    requires Aligned(x) && x.num > 0 && Distinct(x.actors) && x.ran == []
    requires command.Some? ==> Fresh(x, command.value) && CarriesOwnHandlers(command.value)
    ensures var z := VisitSelf(x, command, rand, outcome);
            var y := Round(x, command, rand, outcome);
            var runs := PollItem(a, true) in x.items && a in z.actors && a != x.actors[0];
            && Aligned(y) && Distinct(y.actors) && y.num > 0 && y.actors[0] == x.actors[0]
            && Times(y.ran, a) == (if runs || (command.Some? && a == x.actors[0]) then 1 else 0)
            && Times(y.finished, a) == Times(x.finished, a) + (if runs && !outcome(a).Stays? then 1 else 0)
            && (a in y.actors <==> a in z.actors && !(runs && !outcome(a).Stays?))
  {
    hide VisitSelf, Sweep, Distinct;
    var z := VisitSelf(x, command, rand, outcome);
    VisitSelfFacts(x, command, rand, outcome, a);
    SweepRunsEachReadyOnce(z, outcome, a);
    SweepDistinct(z, outcome);
    DistinctTimes(z.actors);
    assert a in z.actors <==> Times(z.actors, a) == 1;
  }
}
