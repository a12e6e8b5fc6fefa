/** The gate as an object: its handlers change the maps in place, message by message. */
module NetGateActor {
  import opened Wrappers
  import opened NetGate

  class NetGateActor {
    var connections: map<Url, Conn>
    var localRegisteredActors: map<Name, LocalActor>
    var failed: bool
    ghost var everRegistered: set<(Name, Handle)>

    ghost function State(): Node
      reads this
    {
      Node(connections, localRegisteredActors, failed, everRegistered)
    }

    constructor ()
      ensures State() == EMPTY_NODE
    {
      connections, localRegisteredActors, failed := map[], map[], false;
      everRegistered := {};
    }

    /** On the wire if the peer answered a ping, held back otherwise. */
    method SendToNetGate(url: Url, m: Msg)
      modifies this
      ensures State() == SendTo(old(State()), url, m)
    {
      if url !in connections {
        failed := true;
        return;
      }
      var c := connections[url];
      c := c.(logged := c.logged + [m]);
      if c.isPonged {
        c := c.(sent := c.sent + [m]);
      } else {
        c := c.(pending := c.pending + [m]);
      }
      connections := connections[url := c];
    }

    method PingNetGate(url: Url)
      modifies this
      ensures url !in old(connections) ==> State() == old(State()).(failed := true)
      ensures url in old(connections) ==>
                State() == old(State()).(conns := old(connections)[url :=
                  if old(connections)[url].isPonged then old(connections)[url]
                  else old(connections)[url].(pinged := true, retries := old(connections)[url].retries + 1)])
    {
      if url !in connections {
        failed := true;
      } else if !connections[url].isPonged {
        connections := connections[url := connections[url].(pinged := true, retries := connections[url].retries + 1)];
      }
    }

    /** `port` is what the new receiver replies while this handler waits for it. */
    method EstablishConnection(url: Url, port: nat) returns (isNew: bool)
      modifies this
      ensures State() == Establish(old(State()), url, port)
      ensures isNew <==> url !in old(connections)
    {
      if url in connections {
        return false;
      }
      connections := connections[url := NO_CONN];
      PingNetGate(url);
      SendToNetGate(url, DataConnReq(port));
      return true;
    }

    method PingRetry(url: Url)
      requires url in connections ==> connections[url].retries > 0
      modifies this
      ensures State() == OnPingRetry(old(State()), url)
    {
      if url in connections {
        connections := connections[url := connections[url].(retries := connections[url].retries - 1)];
      }
      PingNetGate(url);
    }

    method ActorLookupReq(url: Url, name: Name, asker: Asker, port: nat)
      modifies this
      ensures State() == OnLookupReq(old(State()), url, name, asker, port)
    {
      var isNew := EstablishConnection(url, port);
      var askers := Get(connections[url].lookups, name, []);
      if askers == [] {
        SendToNetGate(url, LookupReq(name));
      }
      var c := connections[url];
      connections := connections[url := c.(lookups := c.lookups[name := askers + [asker]],
                                           asked := c.asked[name := Get(c.asked, name, []) + [asker]])];
    }

    method ActorRegistration(name: Name, actor: Handle)
      modifies this
      ensures State() == OnRegistration(old(State()), name, actor)
    {
      var waiting := Get(localRegisteredActors, name, NOT_REGISTERED).requesters;
      localRegisteredActors := localRegisteredActors[name := LocalActor(Some(actor), waiting)];
      everRegistered := everRegistered + {(name, actor)};
      ghost var start := State();
      var i := 0;
      while i < |waiting|
        invariant 0 <= i <= |waiting|
        invariant State() == SendToAll(start, waiting[..i], LookupRep(name, actor))
      {
        assert waiting[..i + 1][..i] == waiting[..i];
        SendToNetGate(waiting[i], LookupRep(name, actor));
        i := i + 1;
      }
      assert waiting[..i] == waiting;
      SendToAllActors(start, waiting, LookupRep(name, actor));
      SendToAllElsewhere(old(State()), waiting, LookupRep(name, actor), start.actors, start.registered);
      localRegisteredActors := localRegisteredActors[name := LocalActor(Some(actor), [])];
    }

    method RemoteActorLookupReq(peer: Url, name: Name)
      modifies this
      ensures State() == OnRemoteLookupReq(old(State()), peer, name)
    {
      var l := Get(localRegisteredActors, name, NOT_REGISTERED);
      match l.actor {
        case Some(actor) => SendToNetGate(peer, LookupRep(name, actor));
        case None =>
          localRegisteredActors := localRegisteredActors[name := l.(requesters := l.requesters + [peer])];
      }
    }

    /** Every waiting asker is replied to in turn, then the list goes. */
    method RemoteActorLookupRep(peer: Url, name: Name, actor: Handle) returns (replies: seq<(Asker, Handle)>)
      modifies this
      ensures State() == OnRemoteLookupRep(old(State()), peer, name, actor)
      ensures peer in old(connections) && name in old(connections)[peer].lookups ==>
                && |replies| == |old(connections)[peer].lookups[name]|
                && forall i :: 0 <= i < |replies| ==> replies[i] == (old(connections)[peer].lookups[name][i], actor)
    {
      replies := [];
      if peer !in connections || name !in connections[peer].lookups {
        failed := true;
        return;
      }
      var c := connections[peer];
      var askers := c.lookups[name];
      var i := 0;
      while i < |askers|
        invariant 0 <= i <= |askers| && |replies| == i
        invariant forall j :: 0 <= j < i ==> replies[j] == (askers[j], actor)
        invariant State() == old(State())
      {
        replies := replies + [(askers[i], actor)];
        i := i + 1;
      }
      connections := connections[peer := c.(lookups := c.lookups - {name},
                                            answered := c.answered[name := Get(c.answered, name, []) + askers],
                                            learned := c.learned + {(name, actor)})];
    }

    /** The held-back messages go out one by one, in order. */
    method ReceivePong(peer: Url)
      modifies this
      ensures State() == OnPong(old(State()), peer)
    {
      if peer !in connections {
        failed := true;
        return;
      }
      var c := connections[peer];
      if c.isPonged {
        return;
      }
      var sent := c.sent;
      var i := 0;
      while i < |c.pending|
        invariant 0 <= i <= |c.pending|
        invariant sent == c.sent + c.pending[..i]
        invariant State() == old(State())
      {
        sent := sent + [c.pending[i]];
        i := i + 1;
      }
      assert c.pending[..i] == c.pending;
      connections := connections[peer := c.(isPonged := true, sent := sent, pending := [])];
    }

    method Ping(peer: Url, port: nat)
      modifies this
      ensures State() == OnPing(old(State()), peer, port)
    {
      var isNew := EstablishConnection(peer, port);
      connections := connections[peer := connections[peer].(pongSent := true)];
    }
  }

  /** Sending changes connections only. */
  lemma {:induction false} SendToAllActors(v: Node, urls: seq<Url>, m: Msg)
    ensures SendToAll(v, urls, m).actors == v.actors && SendToAll(v, urls, m).registered == v.registered
    decreases |urls|
  {
    if urls != [] {
      SendToAllActors(v, urls[..|urls| - 1], m);
    }
  }

  /** Sending does not look at the registry. */
  lemma {:induction false} SendToAllElsewhere(v: Node, urls: seq<Url>, m: Msg, actors: map<Name, LocalActor>,
                                              registered: set<(Name, Handle)>)
    ensures SendToAll(v.(actors := actors, registered := registered), urls, m)
            == SendToAll(v, urls, m).(actors := actors, registered := registered)
    decreases |urls|
  {
    if urls != [] {
      SendToAllElsewhere(v, urls[..|urls| - 1], m, actors, registered);
    }
  }
}
