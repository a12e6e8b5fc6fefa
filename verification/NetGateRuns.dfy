/**
 The gates' records, told by what was done in a run: who asked, what is registered, which port the data
 connection is for, and with which actor a lookup is answered.
 */
module NetGateRuns {
  import opened Wrappers
  import opened NetGate
  import opened NetGateChannel
  import opened NetGateLookup
  import opened NetGateSteps
  import opened NetGateTheorems

  lemma Prefix(st: Net, run: seq<Action>, a: Action)
    requires Legal(st, run + [a])
    ensures Legal(st, run) && Enabled(After(st, run), a) && After(st, run + [a]) == Apply(After(st, run), a)
    decreases |run|
  {
    hide Enabled, Apply;
    if run == [] {
      assert [] + [a] == [a] && [a][1..] == [];
    } else {
      assert (run + [a])[0] == run[0] && (run + [a])[1..] == run[1..] + [a];
      Prefix(Apply(st, run[0]), run[1..], a);
    }
  }

  /** A run without its last step. */
  lemma WithoutLast(urls: set<Url>, run: seq<Action>) returns (st: Net, a: Action)
    requires run != [] && Legal(Init(urls), run)
    ensures a == run[|run| - 1] && Legal(Init(urls), run[..|run| - 1]) && st == After(Init(urls), run[..|run| - 1])
    ensures Enabled(st, a) && After(Init(urls), run) == Apply(st, a)
  {
    hide Enabled, Apply;
    a := run[|run| - 1];
    assert run == run[..|run| - 1] + [a];
    Prefix(Init(urls), run[..|run| - 1], a);
    st := After(Init(urls), run[..|run| - 1]);
  }

  // ---------------------------------------------------------------- what is registered

  /** The actor last registered at b under the name. */
  function LastRegistered(run: seq<Action>, b: Url, n: Name): Option<Handle> {
    if run == [] then None
    else
      match run[|run| - 1]
      case Register(b', n', actor) =>
        if b' == b && n' == n then Some(actor) else LastRegistered(run[..|run| - 1], b, n)
      case _ => LastRegistered(run[..|run| - 1], b, n)
  }

  function ActorAt(st: Net, b: Url, n: Name): Option<Handle> {
    if b in st.nodes then Get(st.nodes[b].actors, n, NOT_REGISTERED).actor else None
  }

  lemma {:induction false} SendToAllActors(v: Node, urls: seq<Url>, m: Msg)
    ensures SendToAll(v, urls, m).actors == v.actors && SendToAll(v, urls, m).registered == v.registered
    decreases |urls|
  {
    if urls != [] {
      SendToAllActors(v, urls[..|urls| - 1], m);
    }
  }

  lemma RegistryStep1(st: Net, act: Action, b: Url, n: Name)
    requires Enabled(st, act)
    ensures ActorAt(Apply(st, act), b, n) ==
            if act.Register? && act.b == b && act.name == n then Some(act.actor) else ActorAt(st, b, n)
  {
    hide SendToAll, Append;
    if act.Register? {
      var waiting := Get(st.nodes[act.b].actors, act.name, NOT_REGISTERED).requesters;
      SendToAllActors(st.nodes[act.b], waiting, LookupRep(act.name, act.actor));
    }
  }

  /** The registry holds the actor registered last, in every run. */
  lemma {:induction false} RegistryIsLast(urls: set<Url>, run: seq<Action>, b: Url, n: Name)
    requires Legal(Init(urls), run)
    ensures ActorAt(After(Init(urls), run), b, n) == LastRegistered(run, b, n)
    decreases |run|
  {
    hide Enabled, Apply;
    if run != [] {
      var st, a := WithoutLast(urls, run);
      RegistryIsLast(urls, run[..|run| - 1], b, n);
      RegistryStep1(st, a, b, n);
    }
  }

  /** A request that reaches b is answered with the actor registered last, and kept if there is none. */
  lemma AnsweredWithLast(urls: set<Url>, run: seq<Action>, a: Url, b: Url, n: Name)
    requires Legal(Init(urls), run)
    requires var st := After(Init(urls), run);
             Enabled(st, Deliver(a, b)) && InFlight(st, a, b)[0] == LookupReq(n)
    ensures var st := After(Init(urls), run);
            var st' := Apply(st, Deliver(a, b));
            && Connected(st, b, a)
            && match LastRegistered(run, b, n)
               case Some(actor) =>
                 && ConnOf(st', b, a).logged == ConnOf(st, b, a).logged + [LookupRep(n, actor)]
                 && Waiting(st', b, n) == Waiting(st, b, n)
               case None =>
                 && ConnOf(st', b, a).logged == ConnOf(st, b, a).logged
                 && Waiting(st', b, n) == Waiting(st, b, n) + [a]
  {
    RegistryIsLast(urls, run, b, n);
    var st := After(Init(urls), run);
    assert Reachable(urls, st);
    ReachableInv(urls, st);
    NextInFlight(st, a, b);
  }

  /** Everybody who waited for the name is answered with the actor just registered, in order. */
  lemma {:induction false} SentToAll(v: Node, urls: seq<Url>, m: Msg, a: Url)
    requires a in v.conns
    ensures var v' := SendToAll(v, urls, m);
            a in v'.conns && v'.conns[a].logged == v.conns[a].logged + Copies(multiset(urls)[a], m)
    decreases |urls|
  {
    if urls == [] {
      assert Copies(0, m) == [];
    } else {
      var last := |urls| - 1;
      SentToAll(v, urls[..last], m, a);
      assert multiset(urls) == multiset(urls[..last]) + multiset{urls[last]} by {
        assert urls == urls[..last] + [urls[last]];
      }
      assert Copies(multiset(urls[..last])[a] + 1, m) == Copies(multiset(urls[..last])[a], m) + [m];
    }
  }

  lemma RegistrationAnswers(st: Net, a: Url, b: Url, n: Name, actor: Handle)
    requires b in st.nodes && Connected(st, b, a)
    ensures var st' := Apply(st, Register(b, n, actor));
            && ConnOf(st', b, a).logged
               == ConnOf(st, b, a).logged + Copies(multiset(Waiting(st, b, n))[a], LookupRep(n, actor))
            && Waiting(st', b, n) == []
  {
    SentToAll(st.nodes[b], Waiting(st, b, n), LookupRep(n, actor), a);
  }

  // ---------------------------------------------------------------- who asked

  /** Who asked a for the name of b, in order. */
  function Askers(run: seq<Action>, a: Url, b: Url, n: Name): seq<Asker> {
    if run == [] then []
    else
      Askers(run[..|run| - 1], a, b, n) +
      match run[|run| - 1]
      case Lookup(a', b', n', asker, _) => if a' == a && b' == b && n' == n then [asker] else []
      case _ => []
  }

  function AskedOf(st: Net, a: Url, b: Url, n: Name): seq<Asker> {
    Get(ConnOf(st, a, b).asked, n, [])
  }

  lemma {:induction false} SendToAllAsked(v: Node, urls: seq<Url>, m: Msg, b: Url)
    ensures Get(SendToAll(v, urls, m).conns, b, NO_CONN).asked == Get(v.conns, b, NO_CONN).asked
    decreases |urls|
  {
    if urls != [] {
      SendToAllAsked(v, urls[..|urls| - 1], m, b);
    }
  }

  /** The gate whose handler runs. */
  function Who(act: Action): Url {
    match act
    case Connect(a, _, _) => a
    case Lookup(a, _, _, _, _) => a
    case Register(b, _, _) => b
    case DeliverPing(_, b, _) => b
    case DeliverPong(_, a) => a
    case Retry(a, _) => a
    case Deliver(_, b) => b
  }

  function Handled(v: Node, act: Action, next: Msg): Node {
    match act
    case Connect(_, b, port) => Establish(v, b, port)
    case Lookup(_, b, name, asker, port) => OnLookupReq(v, b, name, asker, port)
    case Register(_, name, actor) => OnRegistration(v, name, actor)
    case DeliverPing(a, _, port) => OnPing(v, a, port)
    case DeliverPong(b, _) => OnPong(v, b)
    case Retry(_, b) => OnPingRetry(v, b)
    case Deliver(a, _) => OnMessage(v, a, next)
  }

  /** A step runs one handler at one gate. */
  lemma OneHandler(st: Net, act: Action) returns (next: Msg)
    requires Enabled(st, act)
    ensures Who(act) in st.nodes && Apply(st, act) == Put(st, Who(act), Handled(st.nodes[Who(act)], act, next))
  {
    hide Establish, OnLookupReq, OnRegistration, OnPing, OnPong, OnPingRetry, OnMessage;
    next := if act.Deliver? then InFlight(st, act.a, act.b)[0] else DataConnReq(0);
  }

  function AskedBy(v: Node, b: Url, n: Name): seq<Asker> {
    Get(Get(v.conns, b, NO_CONN).asked, n, [])
  }

  lemma AskedNode(v: Node, act: Action, next: Msg, b: Url, n: Name)
    ensures AskedBy(Handled(v, act, next), b, n) ==
            AskedBy(v, b, n) + if act.Lookup? && act.b == b && act.name == n then [act.asker] else []
  {
    match act
    case Register(_, name, actor) =>
      SendToAllAsked(v, Get(v.actors, name, NOT_REGISTERED).requesters, LookupRep(name, actor), b);
      hide SendToAll;
    case Lookup(_, url, name, asker, port) => AskedAtLookup(v, url, name, asker, port, b, n);
    case _ =>
  }

  lemma AskedAtLookup(v: Node, url: Url, name: Name, asker: Asker, port: nat, b: Url, n: Name)
    ensures AskedBy(OnLookupReq(v, url, name, asker, port), b, n) ==
            AskedBy(v, b, n) + if url == b && name == n then [asker] else []
  {
    var v1 := Establish(v, url, port);
    assert AskedBy(v1, b, n) == AskedBy(v, b, n);
    hide Establish;
  }

  lemma AskedStep(st: Net, act: Action, a: Url, b: Url, n: Name)
    requires Enabled(st, act)
    ensures AskedOf(Apply(st, act), a, b, n) == AskedOf(st, a, b, n) +
            if act.Lookup? && act.a == a && act.b == b && act.name == n then [act.asker] else []
  {
    var next := OneHandler(st, act);
    hide Apply, Enabled, Handled;
    if Who(act) == a {
      AskedNode(st.nodes[a], act, next, b, n);
    }
  }

  lemma {:induction false} AskedIsAskers(urls: set<Url>, run: seq<Action>, a: Url, b: Url, n: Name)
    requires Legal(Init(urls), run)
    ensures AskedOf(After(Init(urls), run), a, b, n) == Askers(run, a, b, n)
    decreases |run|
  {
    hide Enabled, Apply;
    if run != [] {
      var st, act := WithoutLast(urls, run);
      AskedIsAskers(urls, run[..|run| - 1], a, b, n);
      AskedStep(st, act, a, b, n);
    }
  }

  /** In every run: the answered, then those still waiting, are all who asked, in order. */
  lemma EveryAskerOnce(urls: set<Url>, run: seq<Action>, a: Url, b: Url, n: Name)
    requires Legal(Init(urls), run)
    ensures var c := ConnOf(After(Init(urls), run), a, b);
            Askers(run, a, b, n) == Get(c.answered, n, []) + Get(c.lookups, n, [])
  {
    AskedIsAskers(urls, run, a, b, n);
    assert Reachable(urls, After(Init(urls), run));
    EveryAskerAnsweredOnce(urls, After(Init(urls), run), a, b, n);
  }

  function RegisteredBy(run: seq<Action>, b: Url): set<(Name, Handle)> {
    if run == [] then {}
    else
      RegisteredBy(run[..|run| - 1], b) +
      match run[|run| - 1]
      case Register(b', n, actor) => if b' == b then {(n, actor)} else {}
      case _ => {}
  }

  lemma RegisteredStep(st: Net, act: Action, b: Url)
    requires Enabled(st, act)
    ensures RegisteredAt(Apply(st, act), b) == RegisteredAt(st, b) +
            if act.Register? && act.b == b then {(act.name, act.actor)} else {}
  {
    hide SendToAll, Append;
    if act.Register? {
      var waiting := Get(st.nodes[act.b].actors, act.name, NOT_REGISTERED).requesters;
      SendToAllActors(st.nodes[act.b], waiting, LookupRep(act.name, act.actor));
    }
  }

  lemma {:induction false} RegisteredIsRun(urls: set<Url>, run: seq<Action>, b: Url)
    requires Legal(Init(urls), run)
    ensures RegisteredAt(After(Init(urls), run), b) == RegisteredBy(run, b)
    decreases |run|
  {
    hide Enabled, Apply;
    if run != [] {
      var st, act := WithoutLast(urls, run);
      RegisteredIsRun(urls, run[..|run| - 1], b);
      RegisteredStep(st, act, b);
    }
  }

  /** A reply tells everybody who waits the actor it carries, and nobody waits after it. */
  lemma ReplyTellsItsActor(urls: set<Url>, st: Net, b: Url, a: Url, n: Name, actor: Handle)
    requires Reachable(urls, st) && Enabled(st, Deliver(b, a)) && InFlight(st, b, a)[0] == LookupRep(n, actor)
    ensures var c, c' := ConnOf(st, a, b), ConnOf(Apply(st, Deliver(b, a)), a, b);
            && Get(c.lookups, n, []) != [] && n !in c'.lookups
            && Get(c'.answered, n, []) == Get(c.answered, n, []) + Get(c.lookups, n, [])
            && c'.learned == c.learned + {(n, actor)}
  {
    ReplyFindsItsAskers(urls, st, b, a);
    ReachableInv(urls, st);
    NextInFlight(st, b, a);
  }

  // ---------------------------------------------------------------- the port of the data connection

  /** The step has a connect to b, if it is not connected yet, and tells it this port. */
  function PortGiven(act: Action, a: Url, b: Url): Option<nat> {
    match act
    case Connect(a', b', port) => if a' == a && b' == b then Some(port) else None
    case Lookup(a', b', _, _, port) => if a' == a && b' == b then Some(port) else None
    case DeliverPing(b', a', port) => if a' == a && b' == b then Some(port) else None
    case _ => None
  }

  /** The port given first. */
  function PortOf(run: seq<Action>, a: Url, b: Url): Option<nat> {
    if run == [] then None
    else
      var before := PortOf(run[..|run| - 1], a, b);
      if before.Some? then before else PortGiven(run[|run| - 1], a, b)
  }

  /** What a asked b for first, if they are connected. */
  function FirstSent(st: Net, a: Url, b: Url): Option<Msg> {
    if Connected(st, a, b) && ConnOf(st, a, b).logged != [] then Some(ConnOf(st, a, b).logged[0]) else None
  }

  lemma {:induction false} SendToAllFirst(v: Node, urls: seq<Url>, m: Msg, b: Url)
    ensures var v' := SendToAll(v, urls, m);
            && (b in v'.conns <==> b in v.conns)
            && (b in v.conns && v.conns[b].logged != [] ==>
                  v'.conns[b].logged != [] && v'.conns[b].logged[0] == v.conns[b].logged[0])
    decreases |urls|
  {
    if urls != [] {
      SendToAllFirst(v, urls[..|urls| - 1], m, b);
    }
  }

  lemma FirstSentStep(st: Net, act: Action, a: Url, b: Url)
    requires Enabled(st, act) && (Connected(st, a, b) ==> ConnOf(st, a, b).logged != [])
    ensures var st' := Apply(st, act);
            && (Connected(st', a, b) ==> ConnOf(st', a, b).logged != [])
            && FirstSent(st', a, b) == (if FirstSent(st, a, b).Some? then FirstSent(st, a, b)
                                        else match PortGiven(act, a, b)
                                             case Some(port) => Some(DataConnReq(port))
                                             case None => None)
  {
    var next := OneHandler(st, act);
    hide Apply, Enabled, Handled;
    if Who(act) == a {
      FirstSentNode(st.nodes[a], act, next, a, b);
    }
  }

  function FirstTo(v: Node, b: Url): Option<Msg> {
    if b in v.conns && v.conns[b].logged != [] then Some(v.conns[b].logged[0]) else None
  }

  lemma FirstSentNode(v: Node, act: Action, next: Msg, a: Url, b: Url)
    requires Who(act) == a && (b in v.conns ==> v.conns[b].logged != [])
    ensures var v' := Handled(v, act, next);
            && (b in v'.conns ==> v'.conns[b].logged != [])
            && FirstTo(v', b) == (if FirstTo(v, b).Some? then FirstTo(v, b)
                                  else match PortGiven(act, a, b)
                                       case Some(port) => Some(DataConnReq(port))
                                       case None => None)
  {
    match act
    case Register(_, name, actor) =>
      SendToAllFirst(v, Get(v.actors, name, NOT_REGISTERED).requesters, LookupRep(name, actor), b);
      hide SendToAll;
    case Connect(_, url, port) => FirstEstablished(v, url, port, b);
    case Lookup(_, url, name, asker, port) =>
      FirstEstablished(v, url, port, b);
      FirstAtLookup(v, url, name, asker, port, b);
      hide OnLookupReq;
    case DeliverPing(peer, _, port) =>
      FirstEstablished(v, peer, port, b);
      hide Establish;
    case Deliver(peer, _) =>
      FirstAtMessage(v, peer, next, b);
      hide OnMessage;
    case _ =>
  }

  lemma FirstAtMessage(v: Node, peer: Url, m: Msg, b: Url)
    requires b in v.conns ==> v.conns[b].logged != []
    ensures var v' := OnMessage(v, peer, m); (b in v'.conns ==> v'.conns[b].logged != []) && FirstTo(v', b) == FirstTo(v, b)
  {
  }

  lemma FirstEstablished(v: Node, url: Url, port: nat, b: Url)
    requires b in v.conns ==> v.conns[b].logged != []
    ensures var v' := Establish(v, url, port);
            && url in v'.conns && (b in v'.conns ==> v'.conns[b].logged != [])
            && FirstTo(v', b) == if FirstTo(v, b).None? && url == b then Some(DataConnReq(port)) else FirstTo(v, b)
  {
  }

  lemma FirstAtLookup(v: Node, url: Url, name: Name, asker: Asker, port: nat, b: Url)
    requires var v1 := Establish(v, url, port); url in v1.conns && (b in v1.conns ==> v1.conns[b].logged != [])
    ensures var v1, v' := Establish(v, url, port), OnLookupReq(v, url, name, asker, port);
            (b in v'.conns ==> v'.conns[b].logged != []) && FirstTo(v', b) == FirstTo(v1, b)
  {
    hide Establish;
  }

  /** Two gates are connected exactly if a step gave a port, and the first message asks for a data
      connection to the port given first. */
  lemma {:induction false} FirstAsksForThePort(urls: set<Url>, run: seq<Action>, a: Url, b: Url)
    requires Legal(Init(urls), run)
    ensures var st := After(Init(urls), run);
            && (Connected(st, a, b) <==> PortOf(run, a, b).Some?)
            && (Connected(st, a, b) ==>
                  ConnOf(st, a, b).logged != [] && ConnOf(st, a, b).logged[0] == DataConnReq(PortOf(run, a, b).value))
    decreases |run|
  {
    hide Enabled, Apply;
    if run != [] {
      var st, act := WithoutLast(urls, run);
      FirstAsksForThePort(urls, run[..|run| - 1], a, b);
      FirstSentStep(st, act, a, b);
    }
  }

  // ---------------------------------------------------------------- the end of the retries

  /** Once a pong came in a timer that fires is not set again. */
  lemma TimerEnds(urls: set<Url>, st: Net, a: Url, b: Url)
    requires Reachable(urls, st) && Enabled(st, Retry(a, b))
    ensures var c, c' := ConnOf(st, a, b), ConnOf(Apply(st, Retry(a, b)), a, b);
            c.retries == 1 && c'.retries == (if c.isPonged then 0 else 1) && (!c.isPonged ==> c'.pinged)
  {
    ReachableInv(urls, st);
    assert PairInv(st, a, b);
  }
}
