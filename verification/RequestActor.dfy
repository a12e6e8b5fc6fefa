/**
 Requests and replies as the code runs them: `on_reply` calls `receive`, whose loop calls handlers,
 which may call `on_reply` again. Every moment of these nested loops is a reachable state of the
 stack machine, so all that is proved about that machine holds of them.
 */
module RequestActor {
  import opened Wrappers
  import opened Requests
  import opened RequestPlays
  import opened RequestProofs
  import opened RequestRuns
  import opened RequestTheorems

  /** The steps, or handlers inside them, use that request handler. */
  predicate Uses(steps: seq<Step>, id: ReqId) {
    steps != [] && (StepUses(steps[0], id) || Uses(steps[1..], id))
  }

  predicate StepUses(step: Step, id: ReqId) {
    match step
    case DropHandler(i) => i == id
    case AwaitReply(i, handler) => i == id || Uses(handler, id)
    case _ => false
  }

  lemma OneUses(step: Step, id: ReqId)
    requires StepUses(step, id)
    ensures Uses([step], id)
  {
    assert [step][0] == step;
  }

  lemma FirstUses(steps: seq<Step>, id: ReqId)
    requires steps != [] && Uses([steps[0]], id)
    ensures Uses(steps, id)
  {
    assert [steps[0]][1..] == [];
    assert !Uses([], id);
  }

  /** A message comes in and is taken at once. */
  lemma ReceivedAndTaken(st: State, mail: Mail)
    requires Reachable(st) && Receiving(Top(st)) && st.activated && !FromStash(st) && st.mailbox == [] && Possible(st, mail)
    ensures Reachable(Taken(st, mail))
  {
    var a := match mail case Ordinary(m) => Arrive(m) case Response(id, body) => Answer(id, body);
    Extend(st, a);
    var st1 := Apply(st, a);
    assert st1 == Recorded(st, mail).(mailbox := [mail]);
    Extend(st1, Take);
    assert Apply(st1, Take) == Taken(st, mail);
  }

  /** The handler of a stored or awaited response has a live request's entry to erase. */
  lemma EntryOf(st: State, id: ReqId)
    requires Reachable(st) && id in st.live
    ensures id in st.unfinished && !Handled(st, id)
  {
    OnReplyFindsItsEntry(st, id);
    ReachableInv(st);
  }

  lemma NoLongerLive(before: State, st: State, id: ReqId)
    requires Reachable(st) && FirstHandled(before, st, id)
    ensures Handled(st, id) && id !in st.live
  {
    var (i, b) := st.handled[|before.handled|];
    assert i == id && (i, b) in st.handled;
    RoutedToItsOwnHandler(st, id, b);
  }

  /** What the code on top of the stack comes to is played, whatever is below it. */
  lemma StepsPlayed(st: State, inc: seq<Mail>, steps: seq<Step>)
    requires Reachable(st) && UserCode(Top(st)) && st.mailbox == []
    ensures |st.stack| > 0 && PlaysSteps(st, inc, steps, RunSteps(st, inc, steps))
  {
    ReachableInv(st);
    StepsPlay(NO_PROGRAM, st, inc, steps, Blank(|st.stack| - 1));
  }

  lemma OnReplyPlayed(st: State, inc: seq<Mail>, id: ReqId, handler: seq<Step>)
    requires Reachable(st) && UserCode(Top(st)) && st.mailbox == [] && id in st.live
    ensures |st.stack| > 0 && PlaysSteps(st, inc, [AwaitReply(id, handler)], RunOnReply(st, inc, id, handler))
  {
    ReachableInv(st);
    OnReplyPlay(NO_PROGRAM, st, inc, id, handler, [], Blank(|st.stack| - 1));
    assert [AwaitReply(id, handler)] + [] == [AwaitReply(id, handler)];
  }

  /** The machine plays exactly these steps in the frame on top, and the handlers they give in frames of
      their own. */
  ghost predicate PlaysSteps(st: State, inc: seq<Mail>, steps: seq<Step>, r: Res)
    requires |st.stack| > 0
  {
    PlaysOut(NO_PROGRAM, st, Blank(|st.stack| - 1) + [steps], inc, r, Blank(|st.stack| - 1) + [[]])
  }

  lemma LoopPlayed(st: State, inc: seq<Mail>, program: Program)
    requires st.stack == [Script] && st.waiting == 0 && st.mailbox == []
    ensures PlaysOut(program, Apply(st, StartLoop), [[], []], inc, RunLoop(Apply(st, StartLoop), inc, program), [[]])
  {
    var below: Codes := [[]];
    LoopPlay(program, Apply(st, StartLoop), inc, below);
    assert below + [[]] == [[], []];
  }

  lemma NobodyWaits(st: State)
    requires Reachable(st) && st.stack == [Script]
    ensures st.waiting == 0
  {
    ReachableInv(st);
  }

  lemma LoopInOrder(st: State, inc: seq<Mail>, program: Message -> seq<Step>)
    requires st.stack == [Script] && st.waiting == 0
    ensures var r := RunLoop(Apply(st, StartLoop), inc, program);
            && Progress(st, inc, r.st, r.incoming)
            && (r.end.Done? ==> !r.st.activated && InOrder(st, inc, r.st, r.incoming))
  {
    hide RunLoop;
    RunLoopInOrder(Apply(st, StartLoop), inc, program);
  }

  lemma AllInOrder(st: State)
    requires Reachable(st) && st.stack == [Script] && st.mailbox == []
    ensures st.started + st.stash == st.arrivals
  {
    NothingLostOrReordered(st);
    assert st.started + st.stash + [] == st.started + st.stash;
  }

  class ActorBehavior {
    var pendingMessages: seq<Message>
    var activated: bool
    var waitingForResponse: nat
    var unfinishedRequests: map<ReqId, Option<Body>>
    var nextRequestId: ReqId
    var incoming: seq<Mail>          // what the socket will deliver
    var answered: map<ReqId, Body>   // the peers' record
    var live: set<ReqId>             // request handlers in scope and not asked yet
    ghost var stack: seq<Frame>
    ghost var arrivals: seq<Message>
    ghost var started: seq<Message>
    ghost var handled: seq<(ReqId, Body)>
    ghost var dropped: set<ReqId>
    ghost var destroyed: set<ReqId>

    ghost function Now(): State
      reads this
    {
      State(stack, [], pendingMessages, activated, waitingForResponse, unfinishedRequests, nextRequestId, live,
            arrivals, started, answered, handled, dropped, destroyed)
    }

    /** Nothing was started, and the ordinary messages taken went to the end of the stash; if the code
        came to its end, the handlers on the stack and the number of waits are as before. */
    twostate predicate Kept(end: End)
      reads this
    {
      Stashing(old(Now()), old(incoming), Now(), incoming) && (end.Done? ==> Back(old(Now()), Now()))
    }

    /** Why user code did not return: it receives, and nothing more comes that a peer would send; or a
        request handler it uses is not there. */
    ghost predicate Stopped(end: End, steps: seq<Step>)
      reads this
    {
      match end
      case Done => true
      case Blocks => Silent()
      case Throws(id) => id !in live && Uses(steps, id)
    }

    ghost predicate Silent()
      reads this
    {
      && Receiving(Top(Now())) && activated && !FromStash(Now())
      && (incoming == [] || !Possible(Now(), incoming[0]))
    }

    constructor (incoming: seq<Mail>)
      ensures Now() == INIT && Reachable(Now()) && this.incoming == incoming
    {
      pendingMessages, activated, waitingForResponse := [], false, 0;
      unfinishedRequests, nextRequestId, this.incoming := map[], 0, incoming;
      stack, live, arrivals, started, answered, handled, dropped, destroyed := [Script], {}, [], [], map[], [], {}, {};
      new;
      assert Legal(INIT, []) && After(INIT, []) == INIT;
    }

    method StoreResponse(id: ReqId, body: Body)
      modifies `unfinishedRequests, `dropped
      ensures Now() == Requests.StoreResponse(old(Now()), id, body)
    {
      if id in unfinishedRequests {
        unfinishedRequests := unfinishedRequests[id := Some(body)];
      } else {
        dropped := dropped + {id};
      }
    }

    /** The next message of the socket; None if it is silent from now on, or says what no peer would. */
    method Receive() returns (mail: Option<Mail>)
      modifies `incoming, `arrivals, `answered
      ensures mail.None? ==> Now() == old(Now()) && incoming == old(incoming)
      ensures mail.None? <==> old(incoming) == [] || !Possible(old(Now()), old(incoming)[0])
      ensures mail.Some? ==> Possible(old(Now()), mail.value) && Now() == Recorded(old(Now()), mail.value)
      ensures mail.Some? ==> old(incoming) != [] && mail.value == old(incoming)[0] && incoming == old(incoming)[1..]
    {
      if incoming == [] {
        return None;
      }
      var next := incoming[0];
      match next {
        case Ordinary(m) => arrivals := arrivals + [m];
        case Response(id, body) =>
          if id >= nextRequestId || id in answered {
            return None;
          }
          answered := answered[id := body];
      }
      incoming := incoming[1..];
      return Some(next);
    }

    /** User code, step by step. */
    method Run(steps: seq<Step>) returns (end: End)
      requires Reachable(Now()) && UserCode(Top(Now()))
      modifies this
      ensures Reachable(Now()) && Stopped(end, steps)
      ensures Res(Now(), incoming, end) == RunSteps(old(Now()), old(incoming), steps) && Kept(end)
      ensures |old(stack)| > 0 && PlaysSteps(old(Now()), old(incoming), steps, Res(Now(), incoming, end))
      decreases steps, 0
    {
      hide Reachable, Stashing, RunOne, PlaysSteps;
      StepsProgress(Now(), incoming, steps);
      StepsPlayed(Now(), incoming, steps);
      if steps == [] {
        return Done;
      }
      end := RunStep(steps[0]);
      if end.Throws? {
        FirstUses(steps, end.id);
      }
      if end.Done? {
        end := Run(steps[1..]);
      }
    }

    method RunStep(step: Step) returns (end: End)
      requires Reachable(Now()) && UserCode(Top(Now()))
      modifies this
      ensures Reachable(Now()) && Stopped(end, [step])
      ensures Res(Now(), incoming, end) == RunOne(old(Now()), old(incoming), step) && Kept(end)
      decreases step, 2
    {
      hide Reachable, Stashing, RunOnReply;
      OneProgress(Now(), incoming, step);
      end := Done;
      match step {
        case SendRequest => NewRequest();
        case DropHandler(id) =>
          if id !in live {
            OneUses(step, id);
            return Throws(id);
          }
          DestroyHandler(id);
        case AwaitReply(id, handler) =>
          if id !in live {
            OneUses(step, id);
            return Throws(id);
          }
          end := OnReplyTo(id, handler);
          if end.Throws? {
            OneUses(step, end.id);
          }
        case SetActive(active) =>
          Extend(Now(), if active then Activate else Deactivate);
          activated := active;
      }
    }

    /** A request handler with an entry of its own. */
    method NewRequest()
      requires Reachable(Now()) && UserCode(Top(Now()))
      modifies `unfinishedRequests, `live, `nextRequestId
      ensures Reachable(Now()) && Now() == Apply(old(Now()), Request)
    {
      hide Reachable;
      Extend(Now(), Request);
      unfinishedRequests := unfinishedRequests[nextRequestId := None];
      live := live + {nextRequestId};
      nextRequestId := nextRequestId + 1;
    }

    /** The entry goes with the request handler, and its response if it came already. */
    method DestroyHandler(id: ReqId)
      requires Reachable(Now()) && UserCode(Top(Now())) && id in live
      modifies `unfinishedRequests, `live, `destroyed, `dropped
      ensures Reachable(Now()) && Now() == Apply(old(Now()), Destroy(id))
    {
      hide Reachable;
      Extend(Now(), Destroy(id));
      dropped := dropped + if id in unfinishedRequests && unfinishedRequests[id].Some? then {id} else {};
      live, unfinishedRequests, destroyed := live - {id}, unfinishedRequests - {id}, destroyed + {id};
    }

    /** `on_reply`: the handler runs on the stored response at once, or the actor starts to receive
        until its own response came and was handled. No response is handled before its own. */
    method OnReplyTo(id: ReqId, handler: seq<Step>) returns (end: End)
      requires Reachable(Now()) && UserCode(Top(Now())) && id in live
      modifies this
      ensures Reachable(Now()) && Stopped(end, handler)
      ensures Res(Now(), incoming, end) == RunOnReply(old(Now()), old(incoming), id, handler) && Kept(end)
      ensures |old(stack)| > 0 && PlaysSteps(old(Now()), old(incoming), [AwaitReply(id, handler)], Res(Now(), incoming, end))
      ensures !Handled(old(Now()), id)
      ensures end.Done? ==> FirstHandled(old(Now()), Now(), id) && id !in live
      decreases handler, 4
    {
      hide Reachable, Stashing, RunSteps, RunWait, FirstHandled, Handled, CallOnReply, PlaysSteps;
      EntryOf(Now(), id);
      OnReplyProgress(Now(), incoming, id, handler);
      OnReplyPlayed(Now(), incoming, id, handler);
      var stored, wasActive := FindEntry(id);
      if stored {
        end := RunStored(id, handler);
      } else {
        end := Wait(id, handler, wasActive);
      }
      if end.Done? {
        NoLongerLive(old(Now()), Now(), id);
      }
    }

    /** The response is there, or the wait for it begins. */
    method FindEntry(id: ReqId) returns (stored: bool, wasActive: bool)
      requires Reachable(Now()) && UserCode(Top(Now())) && id in live && id in unfinishedRequests
      modifies this
      ensures Reachable(Now()) && Now() == CallOnReply(old(Now()), id) && incoming == old(incoming)
      ensures |stack| > 0 && Top(Now()) == if stored then Replying(id, true) else Waiting(id, wasActive)
      ensures !stored ==> waitingForResponse > 0
    {
      hide Reachable;
      Extend(Now(), OnReply(id));
      live := live - {id};
      var response := unfinishedRequests[id];
      stored, wasActive := response.Some?, activated;
      if stored {
        handled, stack := handled + [(id, response.value)], stack + [Replying(id, true)];
      } else {
        unfinishedRequests := unfinishedRequests - {id};
        waitingForResponse := waitingForResponse + 1;
        stack := stack + [Waiting(id, wasActive)];
        activated := true;
      }
    }

    /** The handler of a stored response, and the end of the request. */
    method RunStored(id: ReqId, handler: seq<Step>) returns (end: End)
      requires Reachable(Now()) && |stack| > 0 && Top(Now()) == Replying(id, true)
      modifies this
      ensures Reachable(Now()) && Stopped(end, handler)
      ensures Res(Now(), incoming, end) == Returned(RunSteps(old(Now()), old(incoming), handler))
      decreases handler, 3
    {
      hide Reachable, Stashing, RunSteps;
      end := Run(handler);
      if end.Done? {
        Extend(Now(), Return);
        stack := stack[..|stack| - 1];
        unfinishedRequests := unfinishedRequests - {id};
      }
    }

    /** The wait, and what `on_reply` restores after it. */
    method Wait(id: ReqId, handler: seq<Step>, wasActive: bool) returns (end: End)
      requires Reachable(Now()) && |stack| > 0 && Top(Now()) == Waiting(id, wasActive) && waitingForResponse > 0
      modifies this
      ensures Reachable(Now()) && Stopped(end, handler)
      ensures Res(Now(), incoming, end) == RunWait(old(Now()), old(incoming), id, handler)
      ensures Stashing(old(Now()), old(incoming), Now(), incoming)
      ensures end.Done? ==> stack == old(stack)[..|old(stack)| - 1] && waitingForResponse + 1 == old(waitingForResponse)
      ensures end.Done? ==> activated == wasActive
      ensures end.Done? && old(activated) ==> FirstHandled(old(Now()), Now(), id)
      decreases handler, 3
    {
      hide Reachable, Stashing, WaitTurn, FirstHandled;
      WaitProgress(Now(), incoming, id, handler);
      while activated
        invariant Reachable(Now()) && stack == old(stack) && waitingForResponse == old(waitingForResponse)
        invariant RunWait(Now(), incoming, id, handler) == RunWait(old(Now()), old(incoming), id, handler)
        decreases |incoming|
      {
        WaitTurnProgress(Now(), incoming, id, handler);
        end := ReceiveOnceWaiting(id, handler);
        if !end.Done? {
          return;
        }
      }
      LeaveWait(id, wasActive);
      end := Done;
    }

    method LeaveWait(ghost id: ReqId, wasActive: bool)
      requires Reachable(Now()) && |stack| > 0 && Top(Now()) == Waiting(id, wasActive) && !activated
      requires waitingForResponse > 0
      modifies this
      ensures Reachable(Now()) && Now() == ExitLoop(old(Now())) && incoming == old(incoming)
    {
      hide Reachable;
      Extend(Now(), Exit);
      stack := stack[..|stack| - 1];
      if wasActive {
        activated := true;
      }
      waitingForResponse := waitingForResponse - 1;
    }

    /** One turn of a wait: the awaited response ends it, another response is kept for its own request,
        and everything else is stashed. */
    method ReceiveOnceWaiting(id: ReqId, handler: seq<Step>) returns (end: End)
      requires Reachable(Now()) && |stack| > 0 && Top(Now()).Waiting? && Top(Now()).id == id
      requires waitingForResponse > 0 && activated
      modifies this
      ensures Reachable(Now()) && Stopped(end, handler)
      ensures Res(Now(), incoming, end) == WaitTurn(old(Now()), old(incoming), id, handler)
      decreases handler, 2
    {
      hide Reachable, Stashing, RunSteps;
      ghost var before := Now();
      var mail := Receive();
      if mail.None? {
        return Blocks;
      }
      ReceivedAndTaken(before, mail.value);
      end := Done;
      match mail.value {
        case Ordinary(m) => pendingMessages := pendingMessages + [m];
        case Response(i, body) =>
          if i != id {
            StoreResponse(i, body);
          } else {
            handled, stack := handled + [(id, body)], stack + [Replying(id, false)];
            end := RunAwaited(id, handler);
          }
      }
    }

    /** The handler of the awaited response; deactivating ends the loop of the wait. */
    method RunAwaited(id: ReqId, handler: seq<Step>) returns (end: End)
      requires Reachable(Now()) && |stack| > 0 && Top(Now()) == Replying(id, false)
      modifies this
      ensures Reachable(Now()) && Stopped(end, handler)
      ensures Res(Now(), incoming, end) == Returned(RunSteps(old(Now()), old(incoming), handler))
      decreases handler, 1
    {
      hide Reachable, Stashing, RunSteps;
      end := Run(handler);
      if end.Done? {
        Extend(Now(), Return);
        stack := stack[..|stack| - 1];
        activated := false;
      }
    }

    /** The actor's own loop. `program` is what its handlers do. When it ends, what was started is what
        had been stashed, then what came in, in order, without the stash at the end; and nobody waits. */
    method ReceiveLoop(program: Message -> seq<Step>) returns (end: End)
      requires Reachable(Now()) && stack == [Script]
      modifies this
      ensures Reachable(Now()) && StoppedIn(end, program)
      ensures old(waitingForResponse) == 0
      ensures Res(Now(), incoming, end) == RunLoop(Apply(old(Now()), StartLoop), old(incoming), program)
      ensures PlaysOut(program, Apply(old(Now()), StartLoop), [[], []], old(incoming), Res(Now(), incoming, end), [[]])
      ensures Progress(old(Now()), old(incoming), Now(), incoming)
      ensures end.Done? ==> stack == [Script] && !activated && waitingForResponse == 0
      ensures end.Done? ==> InOrder(old(Now()), old(incoming), Now(), incoming) && started + pendingMessages == arrivals
      ensures end.Done? ==> forall id, body :: (id, body) in handled ==>
                (id in answered && answered[id] == body && multiset(handled)[(id, body)] == 1)
    {
      hide Reachable, LoopTurn, Progress, PlaysOut;
      NobodyWaits(Now());
      Extend(Now(), StartLoop);
      LoopInOrder(Now(), incoming, program);
      LoopPlayed(Now(), incoming, program);
      stack := [Script, Loop];
      activated := true;
      ghost var entered := Now();
      while activated
        invariant Reachable(Now()) && stack == [Script, Loop] && waitingForResponse == 0
        invariant RunLoop(Now(), incoming, program) == RunLoop(entered, old(incoming), program)
        decreases |pendingMessages| + |incoming|
      {
        LoopTurnProgress(Now(), incoming, program);
        end := ReceiveOnce(program);
        if !end.Done? {
          return;
        }
      }
      Extend(Now(), Exit);
      assert [Script, Loop][..1] == [Script];
      stack := [Script];
      end := Done;
      AllInOrder(Now());
      forall id, body | (id, body) in handled
        ensures id in answered && answered[id] == body && multiset(handled)[(id, body)] == 1
      {
        RoutedToItsOwnHandler(Now(), id, body);
      }
    }

    /** Why the loop did not end. */
    ghost predicate StoppedIn(end: End, program: Message -> seq<Step>)
      reads this
    {
      match end
      case Done => true
      case Blocks => Silent()
      case Throws(id) => id !in live && exists m :: Uses(program(m), id)
    }

    /** One turn of that loop: the front of the stash, which is popped after its handler returned, or
        the next message. */
    method ReceiveOnce(program: Message -> seq<Step>) returns (end: End)
      requires Reachable(Now()) && stack == [Script, Loop] && waitingForResponse == 0 && activated
      modifies this
      ensures Reachable(Now()) && StoppedIn(end, program)
      ensures Res(Now(), incoming, end) == LoopTurn(old(Now()), old(incoming), program)
    {
      hide Reachable, RunSteps;
      end := Done;
      if waitingForResponse == 0 && pendingMessages != [] {
        var m := pendingMessages[0];
        Extend(Now(), Take);
        started, stack := started + [m], stack + [Handling(m, true)];
        end := RunHandler(m, true, program(m));
        return;
      }
      ghost var before := Now();
      var mail := Receive();
      if mail.None? {
        return Blocks;
      }
      ReceivedAndTaken(before, mail.value);
      match mail.value {
        case Ordinary(m) =>
          started, stack := started + [m], stack + [Handling(m, false)];
          end := RunHandler(m, false, program(m));
        case Response(id, body) => StoreResponse(id, body);
      }
    }

    /** The handler of an ordinary message; the front of the stash goes only now. */
    method RunHandler(m: Message, fromStash: bool, steps: seq<Step>) returns (end: End)
      requires Reachable(Now()) && stack == [Script, Loop, Handling(m, fromStash)] && waitingForResponse == 0
      requires fromStash ==> pendingMessages != []
      modifies this
      ensures Reachable(Now()) && Stopped(end, steps)
      ensures Res(Now(), incoming, end) == Returned(RunSteps(old(Now()), old(incoming), steps))
    {
      hide Reachable, RunSteps, Ordinaries;
      end := Run(steps);
      if end.Done? {
        Extend(Now(), Return);
        stack := stack[..|stack| - 1];
        if fromStash {
          pendingMessages := pendingMessages[1..];
        }
      }
    }
  }
}
