/** The executor as an object: its loop removes entries from the vectors it runs over. */
module ExecutorActor {
  import opened Wrappers
  import opened Executor

  class ExecutorActor {
    var actors: seq<ActorId>
    var handlers: seq<Handlers>
    var pollItems: seq<PollItem>
    var numPollItems: nat
    var activated: bool
    var outbox: seq<(nat, Command)>
    ghost var ran: seq<ActorId>
    ghost var finished: seq<ActorId>
    ghost var dropped: seq<ActorId>

    ghost function State(): Exec
      reads this
    {
      Exec(actors, handlers, pollItems, numPollItems, activated, ran, finished, dropped, outbox)
    }

    /** The state `launch` starts its loop in. */
    constructor (self: ActorId)
      ensures State() == Exec([self], [Handlers(self)], [PollItem(self, false)], 1, true, [], [], [], [])
      ensures Aligned(State())
    {
      actors, handlers, pollItems, numPollItems := [self], [Handlers(self)], [PollItem(self, false)], 1;
      activated, outbox, ran, finished, dropped := true, [], [], [], [];
    }

    method ListenToActor(a: ActorId, h: Handlers)
      modifies this
      ensures State() == Listen(old(State()), a, h)
    {
      actors := actors + [a];
      handlers := handlers + [h];
      pollItems := pollItems + [PollItem(a, false)];
      numPollItems := numPollItems + 1;
    }

    method HandleNewActor(a: ActorId, outcome: Outcome)
      modifies this
      ensures State() == OnNewActor(old(State()), a, outcome)
    {
      match outcome {
        case Stays => ListenToActor(a, Handlers(a));
        case Leaves => dropped := dropped + [a];
        case Throws =>
          dropped := dropped + [a];
          activated := false;
      }
    }

    method HandleRebalance(peer: nat, rand: nat)
      requires SameLength(State()) && numPollItems > 0
      modifies this
      ensures State() == OnRebalance(old(State()), peer, rand)
    {
      if numPollItems == 1 {
        return;
      }
      var i := 1 + rand % (numPollItems - 1);
      var last := numPollItems - 1;
      if i != last {
        actors := actors[i := actors[last]][last := actors[i]];
        handlers := handlers[i := handlers[last]][last := handlers[i]];
        pollItems := pollItems[i := pollItems[last]][last := pollItems[i]];
      }
      assert actors == SwapWithLast(old(actors), i) && handlers == SwapWithLast(old(handlers), i)
          && pollItems == SwapWithLast(old(pollItems), i);
      outbox := outbox + [(peer, ActorTransfer(actors[last], handlers[last]))];
      actors := actors[..last];
      handlers := handlers[..last];
      pollItems := pollItems[..last];
      numPollItems := numPollItems - 1;
    }

    method HandleCommand(c: Command, rand: nat, outcome: ActorId -> Outcome)
      requires SameLength(State()) && numPollItems > 0
      modifies this
      ensures State() == OnCommand(old(State()), c, rand, outcome)
    {
      match c {
        case NewActor(a) => HandleNewActor(a, outcome(a));
        case Rebalance(peer) => HandleRebalance(peer, rand);
        case ActorTransfer(a, h) => ListenToActor(a, h);
        case Termination => activated := false;
      }
    }

    /** The body of the loop at index i > 0; the result is the index of the next iteration. */
    method RunEntry(i: nat, outcome: ActorId -> Outcome) returns (next: nat)
      requires SameLength(State()) && 0 < i < numPollItems
      modifies this
      ensures (State(), next) == Visit(old(State()), i, outcome)
    {
      next := i;
      if pollItems[i].ready {
        ran := ran + [actors[i]];
        if !outcome(actors[i]).Stays? {
          var last := numPollItems - 1;
          finished := finished + [actors[i]];
          actors := actors[i := actors[last]][..last];
          handlers := handlers[i := handlers[last]][..last];
          pollItems := pollItems[i := pollItems[last]][..last];
          numPollItems := numPollItems - 1;
          next := next - 1;
        }
      }
      next := next + 1;
    }

    /** One round of the loop. Entry 0 is ready exactly if there is a command. */
    method RunRound(command: Option<Command>, rand: nat, outcome: ActorId -> Outcome)
      requires Aligned(State()) && numPollItems > 0
      requires pollItems[0].ready <==> command.Some?
      requires command.Some? ==> CarriesOwnHandlers(command.value)
      modifies this
      ensures State() == Round(old(State()), command, rand, outcome)
      ensures Aligned(State()) && numPollItems > 0 && actors[0] == old(actors[0])
    {
      hide Visit, OnCommand, CarriesOwnHandlers;
      VisitSelfAligned(State(), command, rand, outcome);
      var i := 0;
      while i < numPollItems
        invariant Aligned(State()) && 0 <= i <= numPollItems && 0 < numPollItems && actors[0] == old(actors[0])
        invariant i == 0 ==> State() == old(State())
        invariant i > 0 ==> Sweep(State(), i, outcome) == Sweep(VisitSelf(old(State()), command, rand, outcome), 1, outcome)
        decreases if i == 0 then 1 else 0, numPollItems - i
      {
        if i == 0 {
          if pollItems[0].ready {
            ran := ran + [actors[0]];
            HandleCommand(command.value, rand, outcome);
          }
          i := 1;
        } else {
          VisitAligned(State(), i, outcome);
          VisitShrinks(State(), i, outcome);
          i := RunEntry(i, outcome);
        }
      }
    }

    method Stop()
      requires SameLength(State()) && numPollItems > 0
      modifies this
      ensures State() == StopAll(old(State()))
    {
      var i, n := 1, |actors|;
      while i < n
        invariant 1 <= i <= n
        invariant actors == old(actors) && n == |actors|
        invariant State() == old(State()).(finished := old(finished) + actors[1..i])
      {
        finished := finished + [actors[i]];
        i := i + 1;
      }
      actors, pollItems, handlers, numPollItems := [], [], [], 0;
    }
  }
}
