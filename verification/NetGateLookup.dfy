/** Lookups of remote actors by name: each is one token that moves between two gates. */
module NetGateLookup {
  import opened NetGate
  import opened NetGateChannel

  /** A request for the name, or a reply about it. */
  predicate Matches(m: Msg, reply: bool, n: Name) {
    if reply then m.LookupRep? && m.name == n else m == LookupReq(n)
  }

  function Count(u: seq<Msg>, reply: bool, n: Name): nat {
    if u == [] then 0 else (if Matches(u[0], reply, n) then 1 else 0) + Count(u[1..], reply, n)
  }

  lemma {:induction false} CountAppend(u: seq<Msg>, w: seq<Msg>, reply: bool, n: Name)
    ensures Count(u + w, reply, n) == Count(u, reply, n) + Count(w, reply, n)
    decreases |u|
  {
    if u == [] {
      assert u + w == w;
    } else {
      assert (u + w)[1..] == u[1..] + w;
      CountAppend(u[1..], w, reply, n);
    }
  }

  function Waiting(st: Net, b: Url, n: Name): seq<Url> {
    if b in st.nodes then Get(st.nodes[b].actors, n, NOT_REGISTERED).requesters else []
  }

  function RegisteredAt(st: Net, b: Url): set<(Name, Handle)> {
    if b in st.nodes then st.nodes[b].registered else {}
  }

  /** Tokens of a's lookup of (b, n): the request under way, a queued among b's requesters, the reply
      under way. Under way means held back or on the wire. */
  ghost function Tokens(st: Net, a: Url, b: Url, n: Name): nat {
    Count(Undelivered(st, a, b), false, n) + multiset(Waiting(st, b, n))[a] + Count(Undelivered(st, b, a), true, n)
  }

  ghost predicate TokenInv(st: Net, a: Url, b: Url, n: Name) {
    Tokens(st, a, b, n) == if n in ConnOf(st, a, b).lookups then 1 else 0
  }

  /** Nobody is forgotten or answered twice: the answered followed by the waiting are the askers. */
  ghost predicate BookInv(st: Net, a: Url, b: Url) {
    var c := ConnOf(st, a, b);
    && (forall n :: n in c.lookups ==> c.lookups[n] != [])
    && (forall n :: Get(c.answered, n, []) + Get(c.lookups, n, []) == Get(c.asked, n, []))
    && c.learned <= RegisteredAt(st, b)
  }

  ghost predicate NodeInv(st: Net, b: Url)
    requires b in st.nodes
  {
    var v := st.nodes[b];
    && !v.failed
    && (forall n :: n in v.actors && v.actors[n].actor.Some? ==>
          v.actors[n].requesters == [] && (n, v.actors[n].actor.value) in v.registered)
    && (forall n, u :: u in Waiting(st, b, n) ==> Connected(st, b, u))
  }

  ghost predicate RepliesTrue(st: Net, b: Url, a: Url) {
    forall m :: m in Undelivered(st, b, a) && m.LookupRep? ==> (m.name, m.actor) in RegisteredAt(st, b)
  }

  ghost predicate AllTokens(st: Net) {
    forall a, b, n :: TokenInv(st, a, b, n)
  }

  ghost predicate AllBooks(st: Net) {
    forall a, b :: BookInv(st, a, b)
  }

  ghost predicate AllNodes(st: Net) {
    forall b :: b in st.nodes ==> NodeInv(st, b)
  }

  ghost predicate AllReplies(st: Net) {
    forall b, a :: RepliesTrue(st, b, a)
  }

  ghost predicate Inv(st: Net) {
    ChannelInv(st) && AllTokens(st) && AllBooks(st) && AllNodes(st) && AllReplies(st)
  }

  lemma InitInv(urls: set<Url>)
    ensures Inv(Init(urls))
  {
    var st := Init(urls);
    forall a, b
      ensures PairInv(st, a, b) && BookInv(st, a, b)
    {
      assert ConnOf(st, a, b) == NO_CONN;
    }
  }

  /** Books, actors and tokens do not see a step that appends nothing a lookup counts. */
  lemma NeutralKeeps(st: Net, st': Net, a: Url, b: Url, more: seq<Msg>)
    requires Inv(st) && ChannelInv(st') && SameLookups(st, st') && SameActors(st, st') && Grew(st, st', a, b, more)
    requires forall i :: 0 <= i < |more| ==> more[i].DataConnReq?
    ensures Inv(st')
  {
    NeutralTokens(st, st', a, b, more);
    hide AllTokens, ChannelInv;
    OthersKeep(st, st');
    forall p, q
      ensures RepliesTrue(st', p, q)
    {
      assert RepliesTrue(st, p, q);
    }
  }

  lemma NeutralTokens(st: Net, st': Net, a: Url, b: Url, more: seq<Msg>)
    requires AllTokens(st) && SameLookups(st, st') && SameActors(st, st') && Grew(st, st', a, b, more)
    requires forall i :: 0 <= i < |more| ==> more[i].DataConnReq?
    ensures AllTokens(st')
  {
    forall p, q, n
      ensures TokenInv(st', p, q, n)
    {
      assert TokenInv(st, p, q, n);
      NothingCounted(more, n);
      CountAppend(Undelivered(st, p, q), if p == a && q == b then more else [], false, n);
      CountAppend(Undelivered(st, q, p), if q == a && p == b then more else [], true, n);
    }
  }

  lemma {:induction false} NothingCounted(more: seq<Msg>, n: Name)
    requires forall i :: 0 <= i < |more| ==> more[i].DataConnReq?
    ensures Count(more, false, n) == 0 && Count(more, true, n) == 0
    decreases |more|
  {
    if more != [] {
      NothingCounted(more[1..], n);
    }
  }

  /** Nodes stay sound when actors stay and connections only grow. */
  lemma NodesKeep(st: Net, st': Net)
    requires SameActors(st, st') && (forall p, q :: Connected(st, p, q) ==> Connected(st', p, q))
    requires AllNodes(st)
    ensures AllNodes(st')
  {
    forall p | p in st'.nodes
      ensures NodeInv(st', p)
    {
      assert NodeInv(st, p);
      forall n, u | u in Waiting(st', p, n)
        ensures Connected(st', p, u)
      {
        assert u in Waiting(st, p, n);
      }
    }
  }

  lemma OthersKeep(st: Net, st': Net)
    requires SameLookups(st, st') && SameActors(st, st')
    requires AllBooks(st) && AllNodes(st)
    ensures AllBooks(st') && AllNodes(st')
  {
    forall p, q
      ensures BookInv(st', p, q)
    {
      assert BookInv(st, p, q) && SameBooks(ConnOf(st, p, q), ConnOf(st', p, q));
    }
    NodesKeep(st, st');
  }

  lemma ConnectKeeps(st: Net, a: Url, b: Url, port: nat)
    requires Inv(st) && a in st.nodes
    ensures Inv(Put(st, a, Establish(st.nodes[a], b, port)))
    ensures Connected(Put(st, a, Establish(st.nodes[a], b, port)), a, b)
  {
    var st', more := Establishes(st, a, b, port);
    NeutralKeeps(st, st', a, b, more);
  }

  lemma HandshakeKeeps(st: Net, st': Net)
    requires Inv(st) && HandshakeOnly(st, st')
    ensures Inv(st')
  {
    NeutralKeeps(st, st', "", "", []);
  }

  lemma PingKeeps(st: Net, a: Url, b: Url, port: nat)
    requires Inv(st) && Enabled(st, DeliverPing(a, b, port))
    ensures Inv(Apply(st, DeliverPing(a, b, port)))
  {
    hide Establish, AllTokens, AllBooks, AllNodes, AllReplies, Grew;
    assert PairInv(st, a, b);
    ConnectKeeps(st, b, a, port);
    var st1 := Put(st, b, Establish(st.nodes[b], a, port));
    var same, more := Establishes(st, b, a, port);
    assert Connected(st1, a, b);
    var st2 := PongSent(st1, a, b);
    HandshakeKeeps(st1, st2);
    assert st2 == Apply(st, DeliverPing(a, b, port));
  }

  // ---------------------------------------------------------------- asking

  function Asked(c: Conn, n: Name, asker: Asker): Conn {
    c.(lookups := c.lookups[n := Get(c.lookups, n, []) + [asker]],
       asked := c.asked[n := Get(c.asked, n, []) + [asker]])
  }

  /** The request goes out for the first asker only. */
  lemma AskTokens(st: Net, st': Net, a: Url, b: Url, n: Name, more: seq<Msg>)
    requires AllTokens(st) && Grew(st, st', a, b, more) && SameActors(st, st')
    requires more == if n in ConnOf(st, a, b).lookups then [] else [LookupReq(n)]
    requires forall p, q, k :: k in ConnOf(st', p, q).lookups <==>
                               k in ConnOf(st, p, q).lookups || (p == a && q == b && k == n)
    ensures AllTokens(st')
  {
    forall p, q, k
      ensures TokenInv(st', p, q, k)
    {
      assert TokenInv(st, p, q, k);
      CountAppend(Undelivered(st, p, q), if p == a && q == b then more else [], false, k);
      CountAppend(Undelivered(st, q, p), if q == a && p == b then more else [], true, k);
    }
  }

  lemma AskedBook(st: Net, a: Url, b: Url, n: Name, asker: Asker)
    requires AllBooks(st) && Connected(st, a, b)
    ensures AllBooks(Replaced(st, a, b, Asked(st.nodes[a].conns[b], n, asker)))
  {
    var x := st.nodes[a].conns[b];
    var c := Asked(x, n, asker);
    var st' := Replaced(st, a, b, c);
    ReplacedViews(st, a, b, c);
    forall p, q
      ensures BookInv(st', p, q)
    {
      assert BookInv(st, p, q);
      assert RegisteredAt(st', q) == RegisteredAt(st, q);
      if p == a && q == b {
        forall k
          ensures Get(c.answered, k, []) + Get(c.lookups, k, []) == Get(c.asked, k, [])
        {
          assert Get(x.answered, k, []) + Get(x.lookups, k, []) == Get(x.asked, k, []);
        }
      }
    }
  }

  lemma AskKeeps(st: Net, a: Url, b: Url, n: Name, asker: Asker) returns (st': Net)
    requires Inv(st) && Connected(st, a, b)
    ensures Inv(st')
    ensures var v := if n in st.nodes[a].conns[b].lookups then st.nodes[a] else SendTo(st.nodes[a], b, LookupReq(n));
            b in v.conns && st' == Put(st, a, v.(conns := v.conns[b := Asked(v.conns[b], n, asker)]))
  {
    hide ChannelInv, AllTokens, AllBooks, AllNodes, RepliesTrue;
    var more := if n in st.nodes[a].conns[b].lookups then [] else [LookupReq(n)];
    var st1 := st;
    if more != [] {
      st1 := Sends(st, a, b, LookupReq(n));
    }
    assert Connected(st1, a, b) && Grew(st, st1, a, b, more);
    var c := Asked(st1.nodes[a].conns[b], n, asker);
    BooksOnly(st1, a, b, c);
    st' := Replaced(st1, a, b, c);
    assert SameBooks(ConnOf(st, a, b), ConnOf(st1, a, b));
    assert Grew(st, st', a, b, more);
    AskTokens(st, st', a, b, n, more);
    OthersKeep(st, st1);
    AskedBook(st1, a, b, n, asker);
    NodesKeep(st1, st');
    RepliesGrow(st, st', a, b, more);
  }

  /** Replies stay true when no reply was added. */
  lemma RepliesGrow(st: Net, st': Net, a: Url, b: Url, more: seq<Msg>)
    requires AllReplies(st) && Grew(st, st', a, b, more) && SameActors(st, st')
    requires forall m :: m in more && m.LookupRep? ==> (m.name, m.actor) in RegisteredAt(st, a)
    ensures AllReplies(st')
  {
    forall p, q
      ensures RepliesTrue(st', p, q)
    {
      assert RepliesTrue(st, p, q);
      assert RegisteredAt(st', p) == RegisteredAt(st, p);
    }
  }

  lemma NoEmptyLists(st: Net, a: Url, b: Url)
    requires Inv(st)
    ensures forall n :: n in ConnOf(st, a, b).lookups ==> ConnOf(st, a, b).lookups[n] != []
  {
    assert BookInv(st, a, b);
  }

  lemma LookupKeeps(st: Net, a: Url, b: Url, n: Name, asker: Asker, port: nat)
    requires Inv(st) && a in st.nodes
    ensures Inv(Apply(st, Lookup(a, b, n, asker, port)))
  {
    hide Inv, ChannelInv, AllTokens, AllBooks, AllNodes, AllReplies, TokenInv;
    ConnectKeeps(st, a, b, port);
    var v := Establish(st.nodes[a], b, port);
    var st1 := Put(st, a, v);
    NoEmptyLists(st1, a, b);
    assert st1.nodes[a] == v && b in v.conns && ConnOf(st1, a, b) == v.conns[b];
    var st2 := AskKeeps(st1, a, b, n, asker);
    assert st2 == Put(st, a, OnLookupReq(st.nodes[a], b, n, asker, port));
  }
}
