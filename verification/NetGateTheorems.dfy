/** What holds between any two gates in every run, whatever the loss, repetition and order of pings. */
module NetGateTheorems {
  import opened NetGate
  import opened NetGateChannel
  import opened NetGateLookup
  import opened NetGateSteps

  /** Handled, then on the wire, then held back: together the log of sends, in order. Nothing is held
      back after a pong. The data connection is asked for exactly once, first, and forwarded to the
      local sender when it was handled. */
  lemma ReliableOrderedChannel(urls: set<Url>, st: Net, a: Url, b: Url)
    requires Reachable(urls, st)
    ensures var x, y := ConnOf(st, a, b), ConnOf(st, b, a);
            && y.got <= |x.logged|
            && x.logged == x.logged[..y.got] + InFlight(st, a, b) + x.pending
            && (x.isPonged ==> x.pending == [])
            && (!x.isPonged ==> InFlight(st, a, b) == [] && y.got == 0)
            && (Connected(st, a, b) ==> FirstIsDataConn(x.logged))
            && (!Connected(st, a, b) ==> x.logged == [])
            && y.dataConns == if y.got > 0 then 1 else 0
  {
    ReachableInv(urls, st);
    assert PairInv(st, a, b) && PairInv(st, b, a);
  }

  /** Whoever may be sent to, or is being sent to, knows the sender. */
  lemma ReceiverKnowsSender(urls: set<Url>, st: Net, a: Url, b: Url)
    requires Reachable(urls, st)
    requires ConnOf(st, a, b).isPonged || InFlight(st, a, b) != [] || ConnOf(st, a, b).pongSent
    ensures Connected(st, a, b) && Connected(st, b, a)
  {
    ReachableInv(urls, st);
    assert PairInv(st, a, b) && PairInv(st, b, a);
  }

  /** No handler looks up a missing connection or requester list, in any run. */
  lemma NoGateFails(urls: set<Url>, st: Net, b: Url)
    requires Reachable(urls, st) && b in st.nodes
    ensures !st.nodes[b].failed
  {
    ReachableInv(urls, st);
    assert NodeInv(st, b);
  }

  /** Until a pong comes in there is exactly one retry timer, and the ping can still be answered. */
  lemma HandshakeGoesOn(urls: set<Url>, st: Net, a: Url, b: Url)
    requires Reachable(urls, st) && Connected(st, a, b) && !ConnOf(st, a, b).isPonged
    ensures ConnOf(st, a, b).retries == 1 && Enabled(st, Retry(a, b))
    ensures b in st.nodes ==> forall port :: Enabled(st, DeliverPing(a, b, port))
  {
    ReachableInv(urls, st);
    assert PairInv(st, a, b);
  }

  /** Requests for n, or replies about it, on the wire and held back on the way from a to b. */
  function Under(st: Net, a: Url, b: Url, reply: bool, n: Name): nat {
    Count(InFlight(st, a, b), reply, n) + Count(ConnOf(st, a, b).pending, reply, n)
  }

  lemma UnderIsUndelivered(st: Net, a: Url, b: Url, reply: bool, n: Name)
    requires ChannelInv(st)
    ensures Under(st, a, b, reply, n) == Count(Undelivered(st, a, b), reply, n)
  {
    assert PairInv(st, a, b);
    assert Undelivered(st, a, b) == InFlight(st, a, b) + ConnOf(st, a, b).pending;
    CountAppend(InFlight(st, a, b), ConnOf(st, a, b).pending, reply, n);
  }

  /** Somebody at a waits for (b, n) exactly when there is one token for it: the request under way, a
      among the requesters of b, or the reply under way. There are never two. */
  lemma LookupIsOneToken(urls: set<Url>, st: Net, a: Url, b: Url, n: Name)
    requires Reachable(urls, st)
    ensures Under(st, a, b, false, n) + multiset(Waiting(st, b, n))[a] + Under(st, b, a, true, n)
            == if Get(ConnOf(st, a, b).lookups, n, []) != [] then 1 else 0
  {
    ReachableInv(urls, st);
    assert TokenInv(st, a, b, n) && BookInv(st, a, b);
    UnderIsUndelivered(st, a, b, false, n);
    UnderIsUndelivered(st, b, a, true, n);
  }

  /** The answered, in the order they asked, followed by those still waiting, are all that asked. */
  lemma EveryAskerAnsweredOnce(urls: set<Url>, st: Net, a: Url, b: Url, n: Name)
    requires Reachable(urls, st)
    ensures var c := ConnOf(st, a, b);
            Get(c.asked, n, []) == Get(c.answered, n, []) + Get(c.lookups, n, [])
  {
    ReachableInv(urls, st);
    assert BookInv(st, a, b);
  }

  /** Once the name is registered and nothing is under way between the two, everybody was answered. */
  lemma QuietMeansAnswered(urls: set<Url>, st: Net, a: Url, b: Url, n: Name)
    requires Reachable(urls, st)
    requires b in st.nodes && Get(st.nodes[b].actors, n, NOT_REGISTERED).actor.Some?
    requires InFlight(st, a, b) == [] && ConnOf(st, a, b).pending == []
    requires InFlight(st, b, a) == [] && ConnOf(st, b, a).pending == []
    ensures Get(ConnOf(st, a, b).answered, n, []) == Get(ConnOf(st, a, b).asked, n, [])
  {
    ReachableInv(urls, st);
    LookupIsOneToken(urls, st, a, b, n);
    EveryAskerAnsweredOnce(urls, st, a, b, n);
    assert NodeInv(st, b);
  }

  /** The next reply of a peer finds the askers it is for. */
  lemma ReplyFindsItsAskers(urls: set<Url>, st: Net, b: Url, a: Url)
    requires Reachable(urls, st)
    requires InFlight(st, b, a) != [] && InFlight(st, b, a)[0].LookupRep?
    ensures Get(ConnOf(st, a, b).lookups, InFlight(st, b, a)[0].name, []) != []
  {
    ReachableInv(urls, st);
    var n := InFlight(st, b, a)[0].name;
    LookupIsOneToken(urls, st, a, b, n);
  }

  /** Every answer given names an actor that was registered under that name at the peer. */
  lemma AnswersAreTrue(urls: set<Url>, st: Net, a: Url, b: Url, n: Name, actor: Handle)
    requires Reachable(urls, st) && (n, actor) in ConnOf(st, a, b).learned
    ensures b in st.nodes && (n, actor) in st.nodes[b].registered
  {
    ReachableInv(urls, st);
    assert BookInv(st, a, b);
  }
}
