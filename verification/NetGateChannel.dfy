/** The reliable channel between two gates over the lossy handshake: what every step keeps. */
module NetGateChannel {
  import opened NetGate

  /** The connection request for data comes first and only once. */
  ghost predicate FirstIsDataConn(log: seq<Msg>) {
    && log != [] && log[0].DataConnReq?
    && forall i :: 0 < i < |log| ==> !log[i].DataConnReq?
  }

  ghost predicate ConnInv(c: Conn) {
    && c.pinged
    && (c.isPonged ==> c.pending == [] && c.retries <= 1)
    && (!c.isPonged ==> c.sent == [] && c.retries == 1)
    && c.logged == c.sent + c.pending
    && FirstIsDataConn(c.logged)
    && c.dataConns == if c.got > 0 then 1 else 0
  }

  /** The record x of a peer that holds, or not, the record y in return. */
  ghost predicate Paired(hasX: bool, x: Conn, hasY: bool, y: Conn) {
    && (hasX ==> ConnInv(x))
    && (x.isPonged ==> hasY)
    && (y.pongSent ==> hasX)
    && y.got <= |x.sent|
  }

  ghost predicate PairInv(st: Net, a: Url, b: Url) {
    Paired(Connected(st, a, b), ConnOf(st, a, b), Connected(st, b, a), ConnOf(st, b, a))
  }

  ghost predicate ChannelInv(st: Net) {
    forall a, b :: PairInv(st, a, b)
  }

  /** Logged and not yet handled by the receiver. */
  function Undelivered(st: Net, a: Url, b: Url): seq<Msg> {
    var logged, got := ConnOf(st, a, b).logged, ConnOf(st, b, a).got;
    if got <= |logged| then logged[got..] else []
  }

  /** The books of lookups are the same. */
  ghost predicate SameBooks(c: Conn, c': Conn) {
    && c'.lookups == c.lookups && c'.asked == c.asked
    && c'.answered == c.answered && c'.learned == c.learned
  }

  ghost predicate SameLookups(st: Net, st': Net) {
    && st'.nodes.Keys == st.nodes.Keys
    && (forall p, q :: SameBooks(ConnOf(st, p, q), ConnOf(st', p, q)))
    && (forall p, q :: Connected(st, p, q) ==> Connected(st', p, q))
  }

  ghost predicate SameActors(st: Net, st': Net) {
    && st'.nodes.Keys == st.nodes.Keys
    && (forall p | p in st.nodes ::
          st'.nodes[p].actors == st.nodes[p].actors && st'.nodes[p].registered == st.nodes[p].registered
          && st'.nodes[p].failed == st.nodes[p].failed)
  }

  /** The channel from a to b grew by `more`; all other channels are as before. */
  ghost predicate Grew(st: Net, st': Net, a: Url, b: Url, more: seq<Msg>) {
    forall p, q :: Undelivered(st', p, q) == Undelivered(st, p, q) + if p == a && q == b then more else []
  }

  function Replaced(st: Net, a: Url, b: Url, c: Conn): Net
    requires a in st.nodes
  {
    Put(st, a, st.nodes[a].(conns := st.nodes[a].conns[b := c]))
  }

  lemma ReplacedViews(st: Net, a: Url, b: Url, c: Conn)
    requires a in st.nodes
    ensures var st' := Replaced(st, a, b, c);
            && SameActors(st, st')
            && (forall p, q :: ConnOf(st', p, q) == if p == a && q == b then c else ConnOf(st, p, q))
            && (forall p, q :: Connected(st', p, q) <==> Connected(st, p, q) || (p == a && q == b))
  {
  }

  /** One record changes; what must hold of it for all pairs to stay sound. */
  lemma ReplaceKeeps(st: Net, a: Url, b: Url, c: Conn)
    requires ChannelInv(st) && a in st.nodes
    requires var y, hasY := (if a == b then c else ConnOf(st, b, a)), Connected(st, b, a) || a == b;
             Paired(true, c, hasY, y) && Paired(hasY, y, true, c)
    ensures ChannelInv(Replaced(st, a, b, c))
  {
    var st' := Replaced(st, a, b, c);
    ReplacedViews(st, a, b, c);
    forall p, q
      ensures PairInv(st', p, q)
    {
      assert PairInv(st, p, q);
    }
  }

  lemma AppendKeeps(c: Conn, m: Msg)
    requires ConnInv(c) && !m.DataConnReq?
    ensures ConnInv(Append(c, m)) && |Append(c, m).sent| >= |c.sent|
  {
  }

  lemma Sends(st: Net, a: Url, b: Url, m: Msg) returns (st': Net)
    requires ChannelInv(st) && Connected(st, a, b) && !m.DataConnReq?
    ensures st' == Put(st, a, SendTo(st.nodes[a], b, m))
    ensures ChannelInv(st') && SameLookups(st, st') && SameActors(st, st')
    ensures Grew(st, st', a, b, [m])
  {
    hide ConnInv;
    var x := st.nodes[a].conns[b];
    var c := Append(x, m);
    st' := Replaced(st, a, b, c);
    assert PairInv(st, a, b) && PairInv(st, b, a);
    AppendKeeps(x, m);
    LoggedBeyondGot(st, a, b);
    ReplacedViews(st, a, b, c);
    ReplaceKeeps(st, a, b, c);
  }

  lemma LoggedBeyondGot(st: Net, a: Url, b: Url)
    requires ChannelInv(st)
    ensures ConnOf(st, b, a).got <= |ConnOf(st, a, b).logged|
  {
    assert PairInv(st, a, b);
  }

  function Opened(port: nat): Conn {
    Append(NO_CONN.(pinged := true, retries := 1), DataConnReq(port))
  }

  lemma Establishes(st: Net, a: Url, b: Url, port: nat) returns (st': Net, more: seq<Msg>)
    requires ChannelInv(st) && a in st.nodes
    ensures st' == Put(st, a, Establish(st.nodes[a], b, port))
    ensures ChannelInv(st') && SameLookups(st, st') && SameActors(st, st')
    ensures Connected(st', a, b) && more == if Connected(st, a, b) then [] else [DataConnReq(port)]
    ensures Grew(st, st', a, b, more)
  {
    if Connected(st, a, b) {
      st', more := st, [];
      assert Put(st, a, st.nodes[a]) == st;
    } else {
      more := [DataConnReq(port)];
      var c := Opened(port);
      st' := Replaced(st, a, b, c);
      var v := st.nodes[a];
      assert v.conns[b := NO_CONN.(pinged := true, retries := 1)][b := c] == v.conns[b := c];
      OpenedIsSound(port);
      assert ConnOf(st, a, b) == NO_CONN && PairInv(st, a, b) && PairInv(st, b, a);
      hide ConnInv, ChannelInv, Opened;
      ReplacedViews(st, a, b, c);
      ReplaceKeeps(st, a, b, c);
    }
  }

  lemma OpenedIsSound(port: nat)
    ensures ConnInv(Opened(port)) && Opened(port) == NO_CONN.(pinged := true, retries := 1,
              pending := [DataConnReq(port)], logged := [DataConnReq(port)])
  {
  }

  /** The receiver of a message has a record of the sender, and the message is the next undelivered one. */
  lemma NextInFlight(st: Net, a: Url, b: Url)
    requires ChannelInv(st) && InFlight(st, a, b) != []
    ensures Connected(st, a, b) && Connected(st, b, a)
    ensures Undelivered(st, a, b) != [] && InFlight(st, a, b)[0] == Undelivered(st, a, b)[0]
    ensures Undelivered(st, a, b) == InFlight(st, a, b) && ConnOf(st, a, b).isPonged
  {
    assert PairInv(st, a, b);
  }

  /** Taking the next message off the channel, and counting the data connection if it is one. */
  function Taken(c: Conn, m: Msg): Conn {
    c.(got := c.got + 1, dataConns := c.dataConns + if m.DataConnReq? then 1 else 0)
  }

  lemma Takes(st: Net, a: Url, b: Url) returns (st': Net)
    requires ChannelInv(st) && InFlight(st, a, b) != []
    ensures Connected(st, b, a)
    ensures st' == Replaced(st, b, a, Taken(st.nodes[b].conns[a], InFlight(st, a, b)[0]))
    ensures ChannelInv(st') && SameLookups(st, st') && SameActors(st, st')
    ensures Undelivered(st, a, b) != []
    ensures forall p, q ::
              Undelivered(st', p, q) == if p == a && q == b then Undelivered(st, p, q)[1..] else Undelivered(st, p, q)
  {
    NextInFlight(st, a, b);
    var c := Taken(st.nodes[b].conns[a], InFlight(st, a, b)[0]);
    st' := Replaced(st, b, a, c);
    assert PairInv(st, a, b) && PairInv(st, b, a);
    ReplacedViews(st, b, a, c);
    ReplaceKeeps(st, b, a, c);
  }

  /** The handshake moves no message in or out of the channels. */
  ghost predicate HandshakeOnly(st: Net, st': Net) {
    && ChannelInv(st') && SameLookups(st, st') && SameActors(st, st')
    && (forall p, q :: Undelivered(st', p, q) == Undelivered(st, p, q))
  }

  lemma PongKeeps(st: Net, b: Url, a: Url)
    requires ChannelInv(st) && Enabled(st, DeliverPong(b, a))
    ensures HandshakeOnly(st, Apply(st, DeliverPong(b, a)))
  {
    assert PairInv(st, a, b) && PairInv(st, b, a);
    var x := st.nodes[a].conns[b];
    if x.isPonged {
      assert Apply(st, DeliverPong(b, a)) == st;
    } else {
      var c := x.(isPonged := true, sent := x.sent + x.pending, pending := []);
      assert ConnInv(c) && |c.sent| >= |x.sent|;
      hide ConnInv, ChannelInv;
      ReplacedViews(st, a, b, c);
      ReplaceKeeps(st, a, b, c);
    }
  }

  lemma RetryKeeps(st: Net, a: Url, b: Url)
    requires ChannelInv(st) && Enabled(st, Retry(a, b))
    ensures HandshakeOnly(st, Apply(st, Retry(a, b)))
  {
    assert PairInv(st, a, b) && PairInv(st, b, a);
    var x := st.nodes[a].conns[b];
    var c := Retried(x);
    assert ConnInv(c);
    hide ConnInv, ChannelInv;
    ReplacedViews(st, a, b, c);
    ReplaceKeeps(st, a, b, c);
  }

  /** Marking that a pong went out; the peer whose ping came in has a connection. */
  lemma PongSent(st: Net, a: Url, b: Url) returns (st': Net)
    requires ChannelInv(st) && Connected(st, a, b) && Connected(st, b, a)
    ensures st' == Replaced(st, b, a, st.nodes[b].conns[a].(pongSent := true))
    ensures HandshakeOnly(st, st')
  {
    var c := st.nodes[b].conns[a].(pongSent := true);
    st' := Replaced(st, b, a, c);
    assert PairInv(st, a, b) && PairInv(st, b, a);
    ReplacedViews(st, b, a, c);
    ReplaceKeeps(st, b, a, c);
  }

  /** A change of the books of one connection leaves the channels alone. */
  lemma BooksOnly(st: Net, a: Url, b: Url, c: Conn)
    requires ChannelInv(st) && Connected(st, a, b)
    requires var x := st.nodes[a].conns[b];
             c == x.(lookups := c.lookups, asked := c.asked, answered := c.answered, learned := c.learned)
    ensures var st' := Replaced(st, a, b, c);
            && ChannelInv(st') && SameActors(st, st')
            && (forall p, q :: Undelivered(st', p, q) == Undelivered(st, p, q))
            && (forall p, q :: Connected(st', p, q) == Connected(st, p, q))
            && (forall p, q :: ConnOf(st', p, q) == if p == a && q == b then c else ConnOf(st, p, q))
  {
    assert PairInv(st, a, b) && PairInv(st, b, a);
    ReplacedViews(st, a, b, c);
    ReplaceKeeps(st, a, b, c);
  }
}
