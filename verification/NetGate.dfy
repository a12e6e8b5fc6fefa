/**
 The net gates: one actor per machine, which establishes connections to peers, holds messages back
 until a peer answered a ping, and looks actors up by name on behalf of local actors.

 Pings and pongs may be lost, repeated and reordered. Once a pong came in, messages to that peer go
 over a reliable ordered channel. A handler is one step: the wait for the receiver's port inside
 `establish_connection` stashes everything else, so no other handler runs in between.
 */
module NetGate {
  import opened Wrappers

  type Url = string
  type Name = string
  type Asker = nat // a held lookup message

  datatype Handle = Handle(id: nat, swsr: bool)

  /** What travels over the reliable channel between two gates. */
  datatype Msg =
    | DataConnReq(port: nat)
    | LookupReq(name: Name)
    | LookupRep(name: Name, actor: Handle)

  /** One gate's record of a peer. The second line is history. `sent` is what was handed to the
      socket, `logged` every call of `send_to_net_gate`, `got` how many messages of the peer were
      handled, `dataConns` how often the local sender was told to connect. */
  datatype Conn = Conn(
    isPonged: bool, lookups: map<Name, seq<Asker>>, pending: seq<Msg>, retries: nat,
    pinged: bool, pongSent: bool, sent: seq<Msg>, logged: seq<Msg>, got: nat, dataConns: nat,
    asked: map<Name, seq<Asker>>, answered: map<Name, seq<Asker>>, learned: set<(Name, Handle)>)

  datatype LocalActor = LocalActor(actor: Option<Handle>, requesters: seq<Url>)

  /** `failed` records a lookup of a missing connection or requester list, which throws in the source.
      `registered` is history. */
  datatype Node = Node(conns: map<Url, Conn>, actors: map<Name, LocalActor>, failed: bool,
                       registered: set<(Name, Handle)>)

  const NO_CONN := Conn(false, map[], [], 0, false, false, [], [], 0, 0, map[], map[], {})
  const NOT_REGISTERED := LocalActor(None, [])
  const EMPTY_NODE := Node(map[], map[], false, {})

  function Get<K, V>(m: map<K, V>, k: K, default: V): V {
    if k in m then m[k] else default
  }

  // ---------------------------------------------------------------- handlers of one gate

  function Append(c: Conn, m: Msg): Conn {
    var c' := c.(logged := c.logged + [m]);
    if c.isPonged then c'.(sent := c.sent + [m]) else c'.(pending := c.pending + [m])
  }

  function SendTo(v: Node, url: Url, m: Msg): Node {
    if url in v.conns then v.(conns := v.conns[url := Append(v.conns[url], m)]) else v.(failed := true)
  }

  /** A new connection is pinged, its retry scheduled, and the data connection is asked for first. */
  function Establish(v: Node, url: Url, port: nat): Node {
    if url in v.conns then v
    else SendTo(v.(conns := v.conns[url := NO_CONN.(pinged := true, retries := 1)]), url, DataConnReq(port))
  }

  function OnLookupReq(v: Node, url: Url, name: Name, asker: Asker, port: nat): Node {
    var v1 := Establish(v, url, port);
    var askers := Get(v1.conns[url].lookups, name, []);
    var v2 := if askers == [] then SendTo(v1, url, LookupReq(name)) else v1;
    var c := v2.conns[url];
    v2.(conns := v2.conns[url := c.(lookups := c.lookups[name := askers + [asker]],
                                    asked := c.asked[name := Get(c.asked, name, []) + [asker]])])
  }

  /** The reply goes to the requesters in order. */
  function SendToAll(v: Node, urls: seq<Url>, m: Msg): Node {
    if urls == [] then v else SendTo(SendToAll(v, urls[..|urls| - 1], m), urls[|urls| - 1], m)
  }

  function OnRegistration(v: Node, name: Name, actor: Handle): Node {
    var waiting := Get(v.actors, name, NOT_REGISTERED).requesters;
    SendToAll(v, waiting, LookupRep(name, actor)).(
      actors := v.actors[name := LocalActor(Some(actor), [])],
      registered := v.registered + {(name, actor)})
  }

  function OnRemoteLookupReq(v: Node, peer: Url, name: Name): Node {
    var l := Get(v.actors, name, NOT_REGISTERED);
    match l.actor
    case Some(actor) => SendTo(v, peer, LookupRep(name, actor))
    case None => v.(actors := v.actors[name := l.(requesters := l.requesters + [peer])])
  }

  function OnRemoteLookupRep(v: Node, peer: Url, name: Name, actor: Handle): Node {
    if peer !in v.conns || name !in v.conns[peer].lookups then v.(failed := true)
    else
      var c := v.conns[peer];
      v.(conns := v.conns[peer := c.(
           lookups := c.lookups - {name},
           answered := c.answered[name := Get(c.answered, name, []) + c.lookups[name]],
           learned := c.learned + {(name, actor)})])
  }

  function OnDataConnReq(v: Node, peer: Url): Node {
    if peer !in v.conns then v.(failed := true)
    else v.(conns := v.conns[peer := v.conns[peer].(dataConns := v.conns[peer].dataConns + 1)])
  }

  function OnPing(v: Node, peer: Url, port: nat): Node {
    var v1 := Establish(v, peer, port);
    v1.(conns := v1.conns[peer := v1.conns[peer].(pongSent := true)])
  }

  function OnPong(v: Node, peer: Url): Node {
    if peer !in v.conns then v.(failed := true)
    else if v.conns[peer].isPonged then v
    else
      var c := v.conns[peer];
      v.(conns := v.conns[peer := c.(isPonged := true, sent := c.sent + c.pending, pending := [])])
  }

  /** A fired timer is gone; it pings and is set again unless a pong came in. */
  function Retried(c: Conn): Conn {
    if !c.isPonged then c.(pinged := true)
    else c.(retries := if c.retries == 0 then 0 else c.retries - 1)
  }

  function OnPingRetry(v: Node, url: Url): Node {
    if url !in v.conns then v.(failed := true)
    else v.(conns := v.conns[url := Retried(v.conns[url])])
  }

  /** The next message of a peer's channel. */
  function OnMessage(v: Node, peer: Url, m: Msg): Node {
    var v1 := if peer in v.conns then v.(conns := v.conns[peer := v.conns[peer].(got := v.conns[peer].got + 1)])
              else v.(failed := true);
    match m
    case DataConnReq(_) => OnDataConnReq(v1, peer)
    case LookupReq(name) => OnRemoteLookupReq(v1, peer, name)
    case LookupRep(name, actor) => OnRemoteLookupRep(v1, peer, name, actor)
  }

  // ---------------------------------------------------------------- many gates

  datatype Net = Net(nodes: map<Url, Node>)

  datatype Action =
    | Connect(a: Url, b: Url, port: nat)
    | Lookup(a: Url, b: Url, name: Name, asker: Asker, port: nat)
    | Register(b: Url, name: Name, actor: Handle)
    | DeliverPing(a: Url, b: Url, port: nat)  // a ping of a reaches b, possibly again
    | DeliverPong(b: Url, a: Url)             // a pong of b reaches a, possibly again
    | Retry(a: Url, b: Url)                   // the retry timer of a for b fires
    | Deliver(a: Url, b: Url)                 // b receives the next message of a

  function ConnOf(st: Net, a: Url, b: Url): Conn {
    if a in st.nodes then Get(st.nodes[a].conns, b, NO_CONN) else NO_CONN
  }

  predicate Connected(st: Net, a: Url, b: Url) {
    a in st.nodes && b in st.nodes[a].conns
  }

  /** Messages of a on their way to b. */
  function InFlight(st: Net, a: Url, b: Url): seq<Msg> {
    var sent, got := ConnOf(st, a, b).sent, ConnOf(st, b, a).got;
    if got <= |sent| then sent[got..] else []
  }

  predicate Enabled(st: Net, act: Action) {
    match act
    case Connect(a, _, _) => a in st.nodes
    case Lookup(a, _, _, _, _) => a in st.nodes
    case Register(b, _, _) => b in st.nodes
    case DeliverPing(a, b, _) => ConnOf(st, a, b).pinged && b in st.nodes
    case DeliverPong(b, a) => ConnOf(st, b, a).pongSent && a in st.nodes
    case Retry(a, b) => ConnOf(st, a, b).retries > 0
    case Deliver(a, b) => InFlight(st, a, b) != [] && b in st.nodes
  }

  function Put(st: Net, a: Url, v: Node): Net {
    st.(nodes := st.nodes[a := v])
  }

  function Apply(st: Net, act: Action): Net
    requires Enabled(st, act)
  {
    match act
    case Connect(a, b, port) => Put(st, a, Establish(st.nodes[a], b, port))
    case Lookup(a, b, name, asker, port) => Put(st, a, OnLookupReq(st.nodes[a], b, name, asker, port))
    case Register(b, name, actor) => Put(st, b, OnRegistration(st.nodes[b], name, actor))
    case DeliverPing(a, b, port) => Put(st, b, OnPing(st.nodes[b], a, port))
    case DeliverPong(b, a) => Put(st, a, OnPong(st.nodes[a], b))
    case Retry(a, b) => Put(st, a, OnPingRetry(st.nodes[a], b))
    case Deliver(a, b) => Put(st, b, OnMessage(st.nodes[b], a, InFlight(st, a, b)[0]))
  }

  function Init(urls: set<Url>): Net {
    Net(map u | u in urls :: EMPTY_NODE)
  }

  ghost predicate Legal(st: Net, run: seq<Action>)
    decreases |run|
  {
    run == [] || (Enabled(st, run[0]) && Legal(Apply(st, run[0]), run[1..]))
  }

  ghost function After(st: Net, run: seq<Action>): Net
    requires Legal(st, run)
    decreases |run|
  {
    if run == [] then st else After(Apply(st, run[0]), run[1..])
  }

  ghost predicate Reachable(urls: set<Url>, st: Net) {
    exists run :: Legal(Init(urls), run) && After(Init(urls), run) == st
  }
}
