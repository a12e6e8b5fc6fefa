/** Registrations and deliveries keep the lookup tokens, hence every step does. */
module NetGateSteps {
  import opened Wrappers
  import opened NetGate
  import opened NetGateChannel
  import opened NetGateLookup

  function Copies(k: nat, m: Msg): seq<Msg> {
    seq(k, _ => m)
  }

  lemma {:induction false} CountCopies(k: nat, m: Msg, reply: bool, n: Name)
    ensures Count(Copies(k, m), reply, n) == if Matches(m, reply, n) then k else 0
    decreases k
  {
    if k > 0 {
      assert Copies(k, m)[1..] == Copies(k - 1, m);
      CountCopies(k - 1, m, reply, n);
    }
  }

  /** The channels from b to each of `urls` grew by one copy of m for every time it is listed. */
  ghost predicate GrewAll(st: Net, st': Net, b: Url, urls: seq<Url>, m: Msg) {
    forall p, q :: Undelivered(st', p, q) ==
                   Undelivered(st, p, q) + if p == b then Copies(multiset(urls)[q], m) else []
  }

  lemma {:induction false} SendsAll(st: Net, b: Url, urls: seq<Url>, m: Msg) returns (st': Net)
    requires ChannelInv(st) && b in st.nodes && !m.DataConnReq?
    requires forall u :: u in urls ==> Connected(st, b, u)
    ensures st' == Put(st, b, SendToAll(st.nodes[b], urls, m))
    ensures ChannelInv(st') && SameLookups(st, st') && SameActors(st, st')
    ensures GrewAll(st, st', b, urls, m)
    decreases |urls|
  {
    if urls == [] {
      st' := st;
      assert Put(st, b, st.nodes[b]) == st;
    } else {
      hide ChannelInv, SameLookups, SameActors, GrewAll;
      var init, last := urls[..|urls| - 1], urls[|urls| - 1];
      st' := SendsAll(st, b, init, m);
      st' := SendsLast(st, st', b, init, last, m);
      assert urls == init + [last];
    }
  }

  lemma SendsLast(st: Net, st1: Net, b: Url, init: seq<Url>, last: Url, m: Msg) returns (st': Net)
    requires ChannelInv(st1) && SameLookups(st, st1) && SameActors(st, st1) && GrewAll(st, st1, b, init, m)
    requires b in st.nodes && Connected(st, b, last) && !m.DataConnReq?
    requires st1 == Put(st, b, SendToAll(st.nodes[b], init, m))
    ensures st' == Put(st, b, SendTo(SendToAll(st.nodes[b], init, m), last, m))
    ensures ChannelInv(st') && SameLookups(st, st') && SameActors(st, st')
    ensures GrewAll(st, st', b, init + [last], m)
  {
    assert Connected(st1, b, last);
    hide ChannelInv, SameLookups, SameActors, GrewAll, SendTo;
    st' := Sends(st1, b, last, m);
    LookupsChain(st, st1, st');
    GrewChain(st, st1, st', b, init, last, m);
  }

  lemma GrewChain(st: Net, st1: Net, st2: Net, b: Url, init: seq<Url>, last: Url, m: Msg)
    requires GrewAll(st, st1, b, init, m) && Grew(st1, st2, b, last, [m])
    ensures GrewAll(st, st2, b, init + [last], m)
  {
    hide Undelivered;
    forall p, q
      ensures Undelivered(st2, p, q) ==
              Undelivered(st, p, q) + if p == b then Copies(multiset(init + [last])[q], m) else []
    {
      if p == b && q == last {
        assert Copies(multiset(init)[q], m) + [m] == Copies(multiset(init)[q] + 1, m);
      }
    }
  }

  lemma LookupsChain(st: Net, st1: Net, st2: Net)
    requires SameLookups(st, st1) && SameLookups(st1, st2)
    ensures SameLookups(st, st2)
  {
    forall p, q
      ensures SameBooks(ConnOf(st, p, q), ConnOf(st2, p, q))
    {
      assert SameBooks(ConnOf(st, p, q), ConnOf(st1, p, q));
    }
  }

  // ---------------------------------------------------------------- registering

  /** Only the entry `n` of b's registry changes. */
  ghost predicate RegistryStep(st: Net, st': Net, b: Url, n: Name, l: LocalActor, added: set<(Name, Handle)>) {
    && b in st.nodes
    && st' == Put(st, b, st.nodes[b].(actors := st.nodes[b].actors[n := l], registered := st.nodes[b].registered + added))
  }

  lemma RegistryViews(st: Net, st': Net, b: Url, n: Name, l: LocalActor, added: set<(Name, Handle)>)
    requires RegistryStep(st, st', b, n, l, added)
    ensures forall p, q :: ConnOf(st', p, q) == ConnOf(st, p, q) && (Connected(st', p, q) <==> Connected(st, p, q))
    ensures forall p, q :: Undelivered(st', p, q) == Undelivered(st, p, q)
    ensures forall p, k :: Waiting(st', p, k) == if p == b && k == n then l.requesters else Waiting(st, p, k)
    ensures forall p :: RegisteredAt(st', p) == RegisteredAt(st, p) + if p == b then added else {}
    ensures ChannelInv(st) ==> ChannelInv(st')
  {
    if ChannelInv(st) {
      forall p, q
        ensures PairInv(st', p, q)
      {
        assert PairInv(st, p, q);
      }
    }
  }

  /** Books, nodes and replies do not mind a sound change of one registry entry. */
  lemma RegistryKeeps(st: Net, st': Net, b: Url, n: Name, l: LocalActor, added: set<(Name, Handle)>)
    requires RegistryStep(st, st', b, n, l, added)
    requires AllBooks(st) && AllNodes(st)
    requires l.actor.Some? ==> l.requesters == [] && (n, l.actor.value) in st'.nodes[b].registered
    requires forall u :: u in l.requesters ==> Connected(st, b, u)
    ensures AllBooks(st') && AllNodes(st')
  {
    RegistryViews(st, st', b, n, l, added);
    forall p, q
      ensures BookInv(st', p, q)
    {
      assert BookInv(st, p, q);
    }
    forall p | p in st'.nodes
      ensures NodeInv(st', p)
    {
      assert NodeInv(st, p);
      forall k, u | u in Waiting(st', p, k)
        ensures Connected(st', p, u)
      {
        assert Connected(st, p, u);
      }
    }
  }

  lemma RegisterTokens(st: Net, st1: Net, st': Net, b: Url, n: Name, actor: Handle)
    requires AllTokens(st) && SameLookups(st, st1) && SameActors(st, st1)
    requires GrewAll(st, st1, b, Waiting(st, b, n), LookupRep(n, actor))
    requires RegistryStep(st1, st', b, n, LocalActor(Some(actor), []), {(n, actor)})
    ensures AllTokens(st')
  {
    hide GrewAll, RegistryStep, TokenInv, SameLookups, SameActors;
    forall p, q, k
      ensures TokenInv(st', p, q, k)
    {
      assert TokenInv(st, p, q, k);
      RegisterOneToken(st, st1, st', b, n, actor, p, q, k);
    }
  }

  lemma RegisterOneToken(st: Net, st1: Net, st': Net, b: Url, n: Name, actor: Handle, p: Url, q: Url, k: Name)
    requires TokenInv(st, p, q, k) && SameLookups(st, st1) && SameActors(st, st1)
    requires GrewAll(st, st1, b, Waiting(st, b, n), LookupRep(n, actor))
    requires RegistryStep(st1, st', b, n, LocalActor(Some(actor), []), {(n, actor)})
    ensures TokenInv(st', p, q, k)
  {
    RegistryViews(st1, st', b, n, LocalActor(Some(actor), []), {(n, actor)});
    hide ChannelInv, RegistryStep, TokenInv, Undelivered;
    var m, waiting := LookupRep(n, actor), Waiting(st, b, n);
    assert SameBooks(ConnOf(st, p, q), ConnOf(st1, p, q));
    assert Waiting(st1, q, k) == Waiting(st, q, k);
    var out, back := if p == b then multiset(waiting)[q] else 0, if q == b then multiset(waiting)[p] else 0;
    NoCopies(m);
    RegisteredToken(st, st', p, q, k, m, out, back);
  }

  lemma NoCopies(m: Msg)
    ensures Copies(0, m) == []
  {
  }

  /** One lookup after `out` replies were sent from p to q and `back` ones from q to p. */
  lemma RegisteredToken(st: Net, st': Net, p: Url, q: Url, k: Name, m: Msg, out: nat, back: nat)
    requires TokenInv(st, p, q, k) && m.LookupRep? && ConnOf(st', p, q).lookups == ConnOf(st, p, q).lookups
    requires Undelivered(st', p, q) == Undelivered(st, p, q) + Copies(out, m)
    requires Undelivered(st', q, p) == Undelivered(st, q, p) + Copies(back, m)
    requires multiset(Waiting(st', q, k))[p] + (if k == m.name then back else 0) == multiset(Waiting(st, q, k))[p]
    ensures TokenInv(st', p, q, k)
  {
    hide Undelivered, ConnOf, Waiting;
    CountAppend(Undelivered(st, p, q), Copies(out, m), false, k);
    CountAppend(Undelivered(st, q, p), Copies(back, m), true, k);
    CountCopies(out, m, false, k);
    CountCopies(back, m, true, k);
  }

  lemma RegisterKeeps(st: Net, b: Url, n: Name, actor: Handle)
    requires Inv(st) && b in st.nodes
    ensures Inv(Apply(st, Register(b, n, actor)))
  {
    hide ChannelInv, AllTokens, AllBooks, TokenInv, BookInv;
    var m, waiting := LookupRep(n, actor), Waiting(st, b, n);
    assert NodeInv(st, b);
    var st1 := SendsAll(st, b, waiting, m);
    var l := LocalActor(Some(actor), []);
    var st' := Put(st1, b, st1.nodes[b].(actors := st1.nodes[b].actors[n := l],
                                         registered := st1.nodes[b].registered + {(n, actor)}));
    assert st' == Apply(st, Register(b, n, actor));
    RegisterTokens(st, st1, st', b, n, actor);
    RegistryViews(st1, st', b, n, l, {(n, actor)});
    OthersKeep(st, st1);
    RegistryKeeps(st1, st', b, n, l, {(n, actor)});
    forall p, q
      ensures RepliesTrue(st', p, q)
    {
      assert RepliesTrue(st, p, q);
      assert RegisteredAt(st1, p) == RegisteredAt(st, p);
    }
  }

  // ---------------------------------------------------------------- delivering

  /** The next message left the channel from a to b; everything else is as before. */
  ghost predicate TookFirst(st: Net, st1: Net, a: Url, b: Url) {
    && Undelivered(st, a, b) != []
    && SameLookups(st, st1) && SameActors(st, st1)
    && (forall p, q :: Undelivered(st1, p, q) ==
                       if p == a && q == b then Undelivered(st, p, q)[1..] else Undelivered(st, p, q))
  }

  lemma RepliesShrink(st: Net, st1: Net, a: Url, b: Url)
    requires AllReplies(st) && TookFirst(st, st1, a, b)
    ensures AllReplies(st1)
  {
    forall p, q
      ensures RepliesTrue(st1, p, q)
    {
      assert RepliesTrue(st, p, q);
      assert RegisteredAt(st1, p) == RegisteredAt(st, p);
    }
  }

  lemma TokensMoved(st: Net, st1: Net, a: Url, b: Url, p: Url, q: Url, k: Name)
    requires TokenInv(st, p, q, k) && TookFirst(st, st1, a, b)
    ensures var m := Undelivered(st, a, b)[0];
            && Tokens(st1, p, q, k)
               + (if p == a && q == b && Matches(m, false, k) then 1 else 0)
               + (if p == b && q == a && Matches(m, true, k) then 1 else 0)
               == (if k in ConnOf(st, p, q).lookups then 1 else 0)
            && (k in ConnOf(st1, p, q).lookups <==> k in ConnOf(st, p, q).lookups)
  {
    assert SameBooks(ConnOf(st, p, q), ConnOf(st1, p, q));
    assert Waiting(st1, q, k) == Waiting(st, q, k);
  }

  lemma DataConnKeeps(st: Net, st1: Net, a: Url, b: Url)
    requires Inv(st) && ChannelInv(st1) && TookFirst(st, st1, a, b) && Undelivered(st, a, b)[0].DataConnReq?
    ensures Inv(st1)
  {
    forall p, q, k
      ensures TokenInv(st1, p, q, k)
    {
      assert TokenInv(st, p, q, k);
      TokensMoved(st, st1, a, b, p, q, k);
    }
    OthersKeep(st, st1);
    RepliesShrink(st, st1, a, b);
  }

  /** A request meets a registered actor and is answered, or waits for the registration. */
  lemma RequestKeeps(st: Net, st1: Net, a: Url, b: Url, n: Name)
    requires Inv(st) && ChannelInv(st1) && TookFirst(st, st1, a, b) && Undelivered(st, a, b)[0] == LookupReq(n)
    requires Connected(st1, b, a)
    ensures Inv(Put(st1, b, OnRemoteLookupReq(st1.nodes[b], a, n)))
  {
    hide ChannelInv;
    OthersKeep(st, st1);
    RepliesShrink(st, st1, a, b);
    assert NodeInv(st1, b);
    var l := Get(st1.nodes[b].actors, n, NOT_REGISTERED);
    match l.actor
    case Some(actor) =>
      AnswerKeeps(st, st1, a, b, n, actor);
    case None =>
      var l' := l.(requesters := l.requesters + [a]);
      var st' := Put(st1, b, st1.nodes[b].(actors := st1.nodes[b].actors[n := l']));
      assert st1.nodes[b].registered + {} == st1.nodes[b].registered;
      WaitKeeps(st, st1, st', a, b, n);
  }

  lemma AnswerKeeps(st: Net, st1: Net, a: Url, b: Url, n: Name, actor: Handle)
    requires Inv(st) && ChannelInv(st1) && TookFirst(st, st1, a, b) && Undelivered(st, a, b)[0] == LookupReq(n)
    requires AllBooks(st1) && AllNodes(st1) && AllReplies(st1) && Connected(st1, b, a)
    requires (n, actor) in RegisteredAt(st1, b)
    ensures Inv(Put(st1, b, SendTo(st1.nodes[b], a, LookupRep(n, actor))))
  {
    hide ChannelInv, SendTo;
    var m := LookupRep(n, actor);
    var st' := Sends(st1, b, a, m);
    OthersKeep(st1, st');
    RepliesGrow(st1, st', b, a, [m]);
    AnswerTokens(st, st1, st', a, b, n, actor);
  }

  lemma AnswerTokens(st: Net, st1: Net, st': Net, a: Url, b: Url, n: Name, actor: Handle)
    requires AllTokens(st) && TookFirst(st, st1, a, b) && Undelivered(st, a, b)[0] == LookupReq(n)
    requires Grew(st1, st', b, a, [LookupRep(n, actor)]) && SameLookups(st1, st') && SameActors(st1, st')
    ensures AllTokens(st')
  {
    hide Undelivered, ConnOf, TokenInv, Grew, SameLookups, SameActors, TookFirst;
    forall p, q, k
      ensures TokenInv(st', p, q, k)
    {
      assert TokenInv(st, p, q, k);
      AnswerOneToken(st, st1, st', a, b, n, actor, p, q, k);
    }
  }

  lemma AnswerOneToken(st: Net, st1: Net, st': Net, a: Url, b: Url, n: Name, actor: Handle, p: Url, q: Url, k: Name)
    requires TokenInv(st, p, q, k) && TookFirst(st, st1, a, b) && Undelivered(st, a, b)[0] == LookupReq(n)
    requires Grew(st1, st', b, a, [LookupRep(n, actor)]) && SameLookups(st1, st') && SameActors(st1, st')
    ensures TokenInv(st', p, q, k)
  {
    hide Undelivered, ConnOf;
    var m := LookupRep(n, actor);
    assert SameBooks(ConnOf(st1, p, q), ConnOf(st', p, q));
    TokensMoved(st, st1, a, b, p, q, k);
    CountAppend(Undelivered(st1, p, q), if p == b && q == a then [m] else [], false, k);
    CountAppend(Undelivered(st1, q, p), if q == b && p == a then [m] else [], true, k);
    assert Waiting(st', q, k) == Waiting(st1, q, k);
  }

  lemma WaitKeeps(st: Net, st1: Net, st': Net, a: Url, b: Url, n: Name)
    requires Inv(st) && ChannelInv(st1) && TookFirst(st, st1, a, b) && Undelivered(st, a, b)[0] == LookupReq(n)
    requires AllBooks(st1) && AllNodes(st1) && AllReplies(st1) && Connected(st1, b, a)
    requires var l := Get(st1.nodes[b].actors, n, NOT_REGISTERED);
             l.actor.None? && RegistryStep(st1, st', b, n, l.(requesters := l.requesters + [a]), {})
    ensures Inv(st')
  {
    hide ChannelInv;
    var l := Get(st1.nodes[b].actors, n, NOT_REGISTERED);
    var l' := l.(requesters := l.requesters + [a]);
    RegistryViews(st1, st', b, n, l', {});
    assert NodeInv(st1, b);
    assert l.requesters == Waiting(st1, b, n);
    RegistryKeeps(st1, st', b, n, l', {});
    WaitTokens(st, st1, st', a, b, n);
    forall p, q
      ensures RepliesTrue(st', p, q)
    {
      assert RepliesTrue(st1, p, q);
    }
  }

  lemma WaitTokens(st: Net, st1: Net, st': Net, a: Url, b: Url, n: Name)
    requires AllTokens(st) && TookFirst(st, st1, a, b) && Undelivered(st, a, b)[0] == LookupReq(n)
    requires forall p, q :: Undelivered(st', p, q) == Undelivered(st1, p, q)
    requires forall p, q :: ConnOf(st', p, q) == ConnOf(st1, p, q)
    requires forall p, k :: Waiting(st', p, k) == Waiting(st1, p, k) + if p == b && k == n then [a] else []
    ensures AllTokens(st')
  {
    hide Undelivered, ConnOf, Waiting;
    forall p, q, k
      ensures TokenInv(st', p, q, k)
    {
      assert TokenInv(st, p, q, k);
      TokensMoved(st, st1, a, b, p, q, k);
      assert multiset(Waiting(st1, q, k) + [a]) == multiset(Waiting(st1, q, k)) + multiset{a};
    }
  }

  function Answered(c: Conn, n: Name, actor: Handle): Conn
    requires n in c.lookups
  {
    c.(lookups := c.lookups - {n},
       answered := c.answered[n := Get(c.answered, n, []) + c.lookups[n]],
       learned := c.learned + {(n, actor)})
  }

  lemma AnsweredBooks(st: Net, b: Url, a: Url, n: Name, actor: Handle)
    requires AllBooks(st) && Connected(st, b, a) && n in st.nodes[b].conns[a].lookups
    requires (n, actor) in RegisteredAt(st, a)
    ensures AllBooks(Replaced(st, b, a, Answered(st.nodes[b].conns[a], n, actor)))
  {
    var x := st.nodes[b].conns[a];
    var c := Answered(x, n, actor);
    var st' := Replaced(st, b, a, c);
    ReplacedViews(st, b, a, c);
    forall p, q
      ensures BookInv(st', p, q)
    {
      assert BookInv(st, p, q);
      assert RegisteredAt(st', q) == RegisteredAt(st, q);
      if p == b && q == a {
        forall k
          ensures Get(c.answered, k, []) + Get(c.lookups, k, []) == Get(c.asked, k, [])
        {
          assert Get(x.answered, k, []) + Get(x.lookups, k, []) == Get(x.asked, k, []);
        }
      }
    }
  }

  /** A reply always finds its askers, and answers all of them. */
  lemma ReplyKeeps(st: Net, st1: Net, a: Url, b: Url, n: Name, actor: Handle)
    requires Inv(st) && ChannelInv(st1) && TookFirst(st, st1, a, b) && Undelivered(st, a, b)[0] == LookupRep(n, actor)
    requires Connected(st1, b, a)
    ensures n in st1.nodes[b].conns[a].lookups
    ensures Inv(Put(st1, b, OnRemoteLookupRep(st1.nodes[b], a, n, actor)))
  {
    hide ChannelInv;
    OthersKeep(st, st1);
    RepliesShrink(st, st1, a, b);
    assert TokenInv(st, b, a, n);
    TokensMoved(st, st1, a, b, b, a, n);
    assert n in ConnOf(st1, b, a).lookups;
    assert RepliesTrue(st, a, b);
    var c := Answered(st1.nodes[b].conns[a], n, actor);
    BooksOnly(st1, b, a, c);
    var st' := Replaced(st1, b, a, c);
    AnsweredBooks(st1, b, a, n, actor);
    NodesKeep(st1, st');
    ReplyTokens(st, st1, a, b, n, c);
    forall p, q
      ensures RepliesTrue(st', p, q)
    {
      assert RepliesTrue(st1, p, q);
      assert RegisteredAt(st', p) == RegisteredAt(st1, p);
    }
  }

  lemma ReplyTokens(st: Net, st1: Net, a: Url, b: Url, n: Name, c: Conn)
    requires AllTokens(st) && TookFirst(st, st1, a, b)
    requires Undelivered(st, a, b)[0].LookupRep? && Undelivered(st, a, b)[0].name == n
    requires Connected(st1, b, a) && c.lookups == ConnOf(st1, b, a).lookups - {n}
    requires var st' := Replaced(st1, b, a, c);
             && SameActors(st1, st')
             && (forall p, q :: Undelivered(st', p, q) == Undelivered(st1, p, q))
             && (forall p, q :: ConnOf(st', p, q) == if p == b && q == a then c else ConnOf(st1, p, q))
    ensures AllTokens(Replaced(st1, b, a, c))
  {
    hide Undelivered, ConnOf, Replaced;
    var st' := Replaced(st1, b, a, c);
    forall p, q, k
      ensures TokenInv(st', p, q, k)
    {
      assert TokenInv(st, p, q, k);
      TokensMoved(st, st1, a, b, p, q, k);
      assert Waiting(st', q, k) == Waiting(st1, q, k);
    }
  }

  lemma DeliverKeeps(st: Net, a: Url, b: Url)
    requires Inv(st) && Enabled(st, Deliver(a, b))
    ensures Inv(Apply(st, Deliver(a, b)))
  {
    hide ChannelInv, AllTokens, AllBooks, AllNodes, AllReplies;
    NextInFlight(st, a, b);
    var st1 := Takes(st, a, b);
    var m := InFlight(st, a, b)[0];
    var v1 := st1.nodes[b];
    match m
    case DataConnReq(_) =>
      DataConnKeeps(st, st1, a, b);
      var w := st.nodes[b].conns[a].(got := st.nodes[b].conns[a].got + 1);
      assert st.nodes[b].conns[a := w][a := v1.conns[a]] == st.nodes[b].conns[a := v1.conns[a]];
      assert Apply(st, Deliver(a, b)) == st1;
    case LookupReq(n) =>
      RequestKeeps(st, st1, a, b, n);
      OthersDelivered(st, st1, a, b);
    case LookupRep(n, actor) =>
      ReplyKeeps(st, st1, a, b, n, actor);
      OthersDelivered(st, st1, a, b);
  }

  /** A handler sees the channel without the message it was called for. */
  lemma OthersDelivered(st: Net, st1: Net, a: Url, b: Url)
    requires Enabled(st, Deliver(a, b)) && Connected(st, b, a) && !InFlight(st, a, b)[0].DataConnReq?
    requires st1 == Replaced(st, b, a, Taken(st.nodes[b].conns[a], InFlight(st, a, b)[0]))
    ensures var v1 := st1.nodes[b];
            Apply(st, Deliver(a, b)) ==
            match InFlight(st, a, b)[0]
            case LookupReq(n) => Put(st1, b, OnRemoteLookupReq(v1, a, n))
            case LookupRep(n, actor) => Put(st1, b, OnRemoteLookupRep(v1, a, n, actor))
            case _ => st1
  {
    hide OnRemoteLookupReq, OnRemoteLookupRep;
    var c := st.nodes[b].conns[a];
    assert Taken(c, InFlight(st, a, b)[0]) == c.(got := c.got + 1);
  }

  lemma StepKeepsInv(st: Net, act: Action)
    requires Inv(st) && Enabled(st, act)
    ensures Inv(Apply(st, act))
  {
    match act
    case Connect(a, b, port) => ConnectKeeps(st, a, b, port);
    case Lookup(a, b, name, asker, port) => LookupKeeps(st, a, b, name, asker, port);
    case Register(b, name, actor) => RegisterKeeps(st, b, name, actor);
    case DeliverPing(a, b, port) => PingKeeps(st, a, b, port);
    case DeliverPong(b, a) =>
      PongKeeps(st, b, a);
      HandshakeKeeps(st, Apply(st, act));
    case Retry(a, b) =>
      RetryKeeps(st, a, b);
      HandshakeKeeps(st, Apply(st, act));
    case Deliver(a, b) => DeliverKeeps(st, a, b);
  }

  lemma {:induction false} RunKeepsInv(st: Net, run: seq<Action>)
    requires Inv(st) && Legal(st, run)
    ensures Inv(After(st, run))
    decreases |run|
  {
    if run != [] {
      StepKeepsInv(st, run[0]);
      RunKeepsInv(Apply(st, run[0]), run[1..]);
    }
  }

  lemma ReachableInv(urls: set<Url>, st: Net)
    requires Reachable(urls, st)
    ensures Inv(st)
  {
    InitInv(urls);
    var run :| Legal(Init(urls), run) && After(Init(urls), run) == st;
    RunKeepsInv(Init(urls), run);
  }
}
