/** A lookup of a registered name at a live peer can always be brought to its end. */
module NetGateProgress {
  import opened NetGate
  import opened NetGateChannel
  import opened NetGateLookup
  import opened NetGateSteps
  import opened NetGateTheorems

  predicate Registered(st: Net, b: Url, n: Name) {
    b in st.nodes && Get(st.nodes[b].actors, n, NOT_REGISTERED).actor.Some?
  }

  /** What a has for b moves: the next message on the wire, or else what waits for the pong, whose ping
      can arrive. */
  predicate Moves(st: Net, a: Url, b: Url) {
    || Enabled(st, Deliver(a, b))
    || (ConnOf(st, a, b).pending != [] && !ConnOf(st, a, b).isPonged && Enabled(st, DeliverPing(a, b, 0)))
  }

  /** While somebody at a waits for a name registered at a live peer b, the request or the reply moves, or
      what is before it on its way does. */
  lemma WaitingGoesOn(urls: set<Url>, st: Net, a: Url, b: Url, n: Name)
    requires Reachable(urls, st) && a in st.nodes && Registered(st, b, n)
    requires Get(ConnOf(st, a, b).lookups, n, []) != []
    ensures (Under(st, a, b, false, n) == 1 && Moves(st, a, b)) || (Under(st, b, a, true, n) == 1 && Moves(st, b, a))
  {
    ReachableInv(urls, st);
    LookupIsOneToken(urls, st, a, b, n);
    assert NodeInv(st, b) && PairInv(st, a, b) && PairInv(st, b, a);
    assert Waiting(st, b, n) == [];
  }

  // ---------------------------------------------------------------- the handshake

  predicate BothPonged(st: Net, a: Url, b: Url) {
    ConnOf(st, a, b).isPonged && ConnOf(st, b, a).isPonged
  }

  /** What the continuation leaves alone: who asked, and what is registered. */
  ghost predicate SameQuestions(st: Net, st': Net) {
    && st'.nodes.Keys == st.nodes.Keys
    && (forall p, q :: ConnOf(st', p, q).asked == ConnOf(st, p, q).asked)
    && (forall q, n :: Registered(st, q, n) ==> Registered(st', q, n))
  }

  lemma PingStep(st: Net, a: Url, b: Url)
    requires Inv(st) && Connected(st, a, b) && b in st.nodes
    ensures Enabled(st, DeliverPing(a, b, 0))
    ensures var st' := Apply(st, DeliverPing(a, b, 0));
            && Inv(st') && SameQuestions(st, st') && Connected(st', a, b) && Connected(st', b, a)
            && ConnOf(st', b, a).pongSent
            && (ConnOf(st, a, b).isPonged ==> ConnOf(st', a, b).isPonged)
            && (ConnOf(st, b, a).isPonged ==> ConnOf(st', b, a).isPonged)
  {
    assert PairInv(st, a, b);
    PingKeeps(st, a, b, 0);
    hide Inv;
    PingRecords(st, a, b);
  }

  lemma PingRecords(st: Net, a: Url, b: Url)
    requires Connected(st, a, b) && b in st.nodes && ConnOf(st, a, b).pinged
    ensures var st' := Apply(st, DeliverPing(a, b, 0));
            && SameQuestions(st, st') && Connected(st', a, b) && Connected(st', b, a) && ConnOf(st', b, a).pongSent
            && (ConnOf(st, a, b).isPonged ==> ConnOf(st', a, b).isPonged)
            && (ConnOf(st, b, a).isPonged ==> ConnOf(st', b, a).isPonged)
  {
    PingNode(st.nodes[b], a);
    hide OnPing;
    var v := OnPing(st.nodes[b], a, 0);
    assert Apply(st, DeliverPing(a, b, 0)) == Put(st, b, v);
    NodeReplaced(st, b, v, a);
  }

  lemma PingNode(u: Node, a: Url)
    ensures var v := OnPing(u, a, 0);
            && v.actors == u.actors && a in v.conns && v.conns[a].pongSent
            && (a in u.conns ==> v.conns[a] == u.conns[a].(pongSent := true))
            && (a !in u.conns ==> v.conns[a].asked == map[])
            && (forall p :: p != a ==> (p in v.conns <==> p in u.conns) && (p in u.conns ==> v.conns[p] == u.conns[p]))
  {
  }

  /** One record of one node is new or marked. */
  lemma NodeReplaced(st: Net, b: Url, v: Node, a: Url)
    requires b in st.nodes && v.actors == st.nodes[b].actors && a in v.conns
    requires var u := st.nodes[b];
             && (a in u.conns ==> v.conns[a] == u.conns[a].(pongSent := true))
             && (a !in u.conns ==> v.conns[a].asked == map[])
             && (forall p :: p != a ==> (p in v.conns <==> p in u.conns) && (p in u.conns ==> v.conns[p] == u.conns[p]))
    ensures var st' := Put(st, b, v);
            && SameQuestions(st, st')
            && (forall p, q :: Connected(st, p, q) ==> Connected(st', p, q))
            && (forall p, q :: ConnOf(st, p, q).isPonged ==> ConnOf(st', p, q).isPonged)
            && ConnOf(st', b, a) == v.conns[a]
  {
    var st' := Put(st, b, v);
    assert forall p, q :: p != b || q != a ==> ConnOf(st', p, q) == ConnOf(st, p, q);
    assert ConnOf(st', b, a).asked == ConnOf(st, b, a).asked;
    assert forall q, n :: Registered(st, q, n) ==> Registered(st', q, n);
    hide Registered, ConnOf;
  }

  lemma PongStep(st: Net, b: Url, a: Url)
    requires Inv(st) && Connected(st, a, b) && ConnOf(st, b, a).pongSent
    ensures Enabled(st, DeliverPong(b, a))
    ensures var st' := Apply(st, DeliverPong(b, a));
            && Inv(st') && SameQuestions(st, st') && ConnOf(st', a, b).isPonged
            && (Connected(st, b, a) ==> Connected(st', b, a))
            && (ConnOf(st, b, a).isPonged ==> ConnOf(st', b, a).isPonged)
  {
    StepKeepsInv(st, DeliverPong(b, a));
    hide Inv;
    PongRecords(st, b, a);
  }

  lemma PongRecords(st: Net, b: Url, a: Url)
    requires Connected(st, a, b)
    ensures var st' := Put(st, a, OnPong(st.nodes[a], b));
            && SameQuestions(st, st') && ConnOf(st', a, b).isPonged
            && (forall p, q :: Connected(st, p, q) ==> Connected(st', p, q))
            && (forall p, q :: ConnOf(st, p, q).isPonged ==> ConnOf(st', p, q).isPonged)
  {
    var v := OnPong(st.nodes[a], b);
    assert b in v.conns && v.conns[b].isPonged && v.conns[b].asked == st.nodes[a].conns[b].asked;
    assert v.actors == st.nodes[a].actors && v.conns == st.nodes[a].conns[b := v.conns[b]];
    hide OnPong;
    var st' := Put(st, a, v);
    assert forall p, q :: p != a || q != b ==> ConnOf(st', p, q) == ConnOf(st, p, q);
    assert ConnOf(st', a, b) == v.conns[b];
    assert forall q, n :: Registered(st, q, n) ==> Registered(st', q, n);
    hide Registered, ConnOf;
  }

  lemma Cons(st: Net, act: Action, run: seq<Action>)
    requires Enabled(st, act) && Legal(Apply(st, act), run)
    ensures Legal(st, [act] + run) && After(st, [act] + run) == After(Apply(st, act), run)
  {
    assert ([act] + run)[0] == act && ([act] + run)[1..] == run;
  }

  /** A ping and a pong each way. */
  lemma Handshake(st: Net, a: Url, b: Url) returns (run: seq<Action>)
    requires Inv(st) && Connected(st, a, b) && b in st.nodes
    ensures Legal(st, run)
    ensures var st' := After(st, run); Inv(st') && SameQuestions(st, st') && BothPonged(st', a, b)
  {
    hide Inv, Enabled, Apply;
    var a1, a2, a3, a4 := DeliverPing(a, b, 0), DeliverPong(b, a), DeliverPing(b, a, 0), DeliverPong(a, b);
    PingStep(st, a, b);
    var s1 := Apply(st, a1);
    PongStep(s1, b, a);
    var s2 := Apply(s1, a2);
    PingStep(s2, b, a);
    var s3 := Apply(s2, a3);
    PongStep(s3, a, b);
    var s4 := Apply(s3, a4);
    assert Legal(s4, []) && After(s4, []) == s4;
    Cons(s3, a4, []);
    Cons(s2, a3, [a4] + []);
    Cons(s1, a2, [a3] + ([a4] + []));
    run := [a1] + ([a2] + ([a3] + ([a4] + [])));
    Cons(st, a1, [a2] + ([a3] + ([a4] + [])));
  }

  // ---------------------------------------------------------------- delivering everything

  /** A request weighs more than the reply it may cause. */
  function Weight(u: seq<Msg>): nat {
    if u == [] then 0 else (if u[0].LookupReq? then 2 else 1) + Weight(u[1..])
  }

  lemma {:induction false} WeightAppend(u: seq<Msg>, w: seq<Msg>)
    ensures Weight(u + w) == Weight(u) + Weight(w)
    decreases |u|
  {
    if u == [] {
      assert u + w == w;
    } else {
      assert (u + w)[0] == u[0] && (u + w)[1..] == u[1..] + w;
      WeightAppend(u[1..], w);
    }
  }

  function Load(st: Net, a: Url, b: Url): nat {
    Weight(InFlight(st, a, b)) + Weight(InFlight(st, b, a))
  }

  /** What a delivery from a to b does to the two records. */
  ghost predicate Effect(st: Net, st': Net, a: Url, b: Url, more: seq<Msg>) {
    && SameQuestions(st, st') && BothPonged(st', a, b)
    && ConnOf(st', b, a).got == ConnOf(st, b, a).got + 1 && ConnOf(st', b, a).sent == ConnOf(st, b, a).sent + more
    && (a != b ==> ConnOf(st', a, b) == ConnOf(st, a, b))
  }

  /** A change of b's record of a and of the registry that forgets no registration. */
  lemma RecordEffect(st: Net, a: Url, b: Url, v: Node, more: seq<Msg>)
    requires BothPonged(st, a, b) && Connected(st, b, a) && a in v.conns
    requires forall u :: u in v.conns || u in st.nodes[b].conns ==>
               (u in v.conns && u in st.nodes[b].conns && (u != a ==> v.conns[u] == st.nodes[b].conns[u]))
    requires var x, y := st.nodes[b].conns[a], v.conns[a];
             y.asked == x.asked && y.isPonged && y.got == x.got + 1 && y.sent == x.sent + more
    requires forall n :: n in st.nodes[b].actors ==>
               n in v.actors && (st.nodes[b].actors[n].actor.Some? ==> v.actors[n].actor.Some?)
    ensures Effect(st, Put(st, b, v), a, b, more)
  {
  }

  lemma DeliverEffect(st: Net, a: Url, b: Url) returns (more: seq<Msg>)
    requires Inv(st) && Enabled(st, Deliver(a, b)) && BothPonged(st, a, b)
    ensures Effect(st, Apply(st, Deliver(a, b)), a, b, more) && Weight(more) < Weight([InFlight(st, a, b)[0]])
  {
    NextInFlight(st, a, b);
    StepKeepsInv(st, Deliver(a, b));
    var m := InFlight(st, a, b)[0];
    var v := OnMessage(st.nodes[b], a, m);
    assert NodeInv(Apply(st, Deliver(a, b)), b);
    hide Inv, SameQuestions, Effect, Weight;
    match m {
      case DataConnReq(_) => more := [];
      case LookupReq(n) =>
        var l := Get(st.nodes[b].actors, n, NOT_REGISTERED);
        more := if l.actor.Some? then [LookupRep(n, l.actor.value)] else [];
      case LookupRep(n, actor) => more := [];
    }
    RecordEffect(st, a, b, v, more);
    Lighter(m, more);
  }

  lemma Lighter(m: Msg, more: seq<Msg>)
    requires more == [] || (m.LookupReq? && |more| == 1 && more[0].LookupRep?)
    ensures Weight(more) < Weight([m])
  {
    assert [m][1..] == [];
    if more != [] {
      assert more[1..] == [];
    }
  }

  /** The first message leaves one channel, and the other gains `more`. */
  lemma FlightAfter(st: Net, st': Net, a: Url, b: Url, more: seq<Msg>)
    requires Effect(st, st', a, b, more) && InFlight(st, a, b) != []
    requires ConnOf(st, b, a).got <= |ConnOf(st, a, b).sent| && ConnOf(st, a, b).got <= |ConnOf(st, b, a).sent|
    ensures a == b ==> InFlight(st', a, b) == InFlight(st, a, b)[1..] + more
    ensures a != b ==> InFlight(st', a, b) == InFlight(st, a, b)[1..] && InFlight(st', b, a) == InFlight(st, b, a) + more
  {
    hide SameQuestions, BothPonged;
  }

  lemma DeliverLightens(st: Net, a: Url, b: Url)
    requires Inv(st) && Enabled(st, Deliver(a, b)) && BothPonged(st, a, b)
    ensures var st' := Apply(st, Deliver(a, b));
            Inv(st') && SameQuestions(st, st') && BothPonged(st', a, b) && Load(st', a, b) < Load(st, a, b)
  {
    assert PairInv(st, a, b) && PairInv(st, b, a);
    hide Inv, Apply, SameQuestions;
    StepKeepsInv(st, Deliver(a, b));
    var more := DeliverEffect(st, a, b);
    FlightAfter(st, Apply(st, Deliver(a, b)), a, b, more);
    hide InFlight, Effect, ConnOf;
    var u := InFlight(st, a, b);
    assert u == [u[0]] + u[1..];
    WeightAppend([u[0]], u[1..]);
    WeightAppend(u[1..], more);
    WeightAppend(InFlight(st, b, a), more);
  }

  /** Everything between the two is delivered, replies it causes included. */
  lemma {:induction false} DeliverAll(st: Net, a: Url, b: Url) returns (run: seq<Action>)
    requires Inv(st) && BothPonged(st, a, b) && a in st.nodes && b in st.nodes
    ensures Legal(st, run)
    ensures var st' := After(st, run);
            Inv(st') && SameQuestions(st, st') && BothPonged(st', a, b) && InFlight(st', a, b) == InFlight(st', b, a) == []
    decreases Load(st, a, b)
  {
    hide Inv, Apply;
    if InFlight(st, a, b) != [] {
      DeliverLightens(st, a, b);
      run := DeliverAll(Apply(st, Deliver(a, b)), a, b);
      Cons(st, Deliver(a, b), run);
      run := [Deliver(a, b)] + run;
    } else if InFlight(st, b, a) != [] {
      DeliverLightens(st, b, a);
      run := DeliverAll(Apply(st, Deliver(b, a)), a, b);
      Cons(st, Deliver(b, a), run);
      run := [Deliver(b, a)] + run;
    } else {
      run := [];
    }
  }

  lemma {:induction false} Join(st: Net, run: seq<Action>, more: seq<Action>)
    requires Legal(st, run) && Legal(After(st, run), more)
    ensures Legal(st, run + more) && After(st, run + more) == After(After(st, run), more)
    decreases |run|
  {
    hide Enabled, Apply;
    if run == [] {
      assert run + more == more;
    } else {
      Join(Apply(st, run[0]), run[1..], more);
      assert (run + more)[0] == run[0] && (run + more)[1..] == run[1..] + more;
    }
  }

  /** From every reachable state, a continuation answers everybody at a who asked for a name that is
      registered at the live peer b. */
  lemma EverybodyCanBeAnswered(urls: set<Url>, st: Net, a: Url, b: Url, n: Name) returns (run: seq<Action>)
    requires Reachable(urls, st) && Connected(st, a, b) && Registered(st, b, n)
    ensures Legal(st, run)
    ensures Get(ConnOf(After(st, run), a, b).answered, n, []) == Get(ConnOf(st, a, b).asked, n, [])
  {
    hide Inv, Enabled, Apply;
    ReachableInv(urls, st);
    var greet := Handshake(st, a, b);
    var s1 := After(st, greet);
    var rest := DeliverAll(s1, a, b);
    Join(st, greet, rest);
    run := greet + rest;
    var s2 := After(st, run);
    var run0 :| Legal(Init(urls), run0) && After(Init(urls), run0) == st;
    Join(Init(urls), run0, run);
    assert Reachable(urls, s2);
    ReliableOrderedChannel(urls, s2, a, b);
    ReliableOrderedChannel(urls, s2, b, a);
    assert Registered(s2, b, n);
    QuietMeansAnswered(urls, s2, a, b, n);
  }
}
