/** What holds at every moment of every actor that blocks only through `on_reply`, to any depth. */
module RequestTheorems {
  import opened Wrappers
  import opened Requests
  import opened RequestProofs

  lemma {:induction false} RunKeepsInv(st: State, run: seq<Action>)
    requires Inv(st) && Legal(st, run)
    ensures Inv(After(st, run))
    decreases |run|
  {
    hide StackInv, OrderInv, ResponseInv, FateInv;
    if run != [] {
      StackStep(st, run[0]);
      OrderStep(st, run[0]);
      ResponseStep(st, run[0]);
      FateStep(st, run[0]);
      RunKeepsInv(Apply(st, run[0]), run[1..]);
    }
  }

  lemma ReachableInv(st: State)
    requires Reachable(st)
    ensures Inv(st)
  {
    InitInv();
    var run :| Legal(INIT, run) && After(INIT, run) == st;
    RunKeepsInv(INIT, run);
  }

  /** Ordinary messages are started in the order they arrived, each once: the started, the stash
      without the one being handled, and the mailbox always make up the arrivals. */
  lemma NothingLostOrReordered(st: State)
    requires Reachable(st)
    ensures st.started + Stashed(st) + Ordinaries(st.mailbox) == st.arrivals
    ensures FrontInProgress(st) ==> st.stash != [] && st.stash[0] == st.stack[2].m
  {
    ReachableInv(st);
  }

  /** Back in the actor's own loop with nothing to read, everything that arrived was started. */
  lemma QuietMeansAllStarted(st: State)
    requires Reachable(st) && Top(st).Loop? && !Enabled(st, Take) && st.activated
    ensures st.started == st.arrivals && st.waiting == 0
  {
    ReachableInv(st);
    LoopIsOutermost(st);
  }

  /** A handler given to `on_reply` gets the response to its own request, at most once. */
  lemma RoutedToItsOwnHandler(st: State, id: ReqId, b: Body)
    requires Reachable(st) && (id, b) in st.handled
    ensures id in st.answered && st.answered[id] == b
    ensures multiset(st.handled)[(id, b)] == 1
    ensures id !in st.live
  {
    ReachableInv(st);
    assert AnsweredWith(st, id, b);
    assert Places(st, id) == 1;
    assert Handled(st, id);
  }

  /** A response is ignored only if its handler was destroyed. */
  lemma IgnoredOnlyWhenDestroyed(st: State, id: ReqId)
    requires Reachable(st) && id in st.dropped
    ensures id in st.destroyed
  {
    ReachableInv(st);
  }

  /** The awaited response, once given, is in the mailbox and nowhere else: it was neither stored nor
      ignored, and the innermost wait will find it. */
  lemma AwaitedIsNeverDropped(st: State, id: ReqId)
    requires Reachable(st) && Awaited(st) == Some(id)
    ensures id !in st.dropped && id !in st.unfinished
    ensures id in st.answered ==> multiset(st.mailbox)[Response(id, st.answered[id])] == 1
  {
    ReachableInv(st);
    if id in st.answered {
      assert Places(st, id) == 1;
      assert !Handled(st, id);
    }
  }

  /** Of all waits on the stack only the innermost can lack its response. */
  lemma OneUnreceivedWait(st: State, i: nat)
    requires Reachable(st) && i < |st.stack| && st.stack[i].Waiting? && !Handled(st, st.stack[i].id)
    ensures i == |st.stack| - 1 && Awaited(st) == Some(st.stack[i].id)
  {
    ReachableInv(st);
  }

  /** A live request handler always finds its entry when asked for the reply. */
  lemma OnReplyFindsItsEntry(st: State, id: ReqId)
    requires Reachable(st) && id in st.live
    ensures id in st.unfinished
    ensures st.unfinished[id].Some? ==> id in st.answered && st.unfinished[id].value == st.answered[id]
  {
    ReachableInv(st);
    if st.unfinished[id].Some? {
      assert AnsweredWith(st, id, st.unfinished[id].value);
    }
  }

  /** A wait ends only after its own response was handled, and leaves the actor as active as it was. */
  lemma WaitEndsWithItsResponse(st: State)
    requires Reachable(st) && Top(st).Waiting? && Enabled(st, Exit)
    ensures Handled(st, Top(st).id)
    ensures Apply(st, Exit).activated == Top(st).wasActive
    ensures Apply(st, Exit).waiting + 1 == st.waiting && UserCode(Top(Apply(st, Exit)))
  {
    ReachableInv(st);
    WaitingCounts(st);
    assert Follows(st.stack[|st.stack| - 2], st.stack[|st.stack| - 1]);
  }

  // ---------------------------------------------------------------- the histories are those of the run

  /** Ordinary messages that came in. */
  function Came(run: seq<Action>): seq<Message> {
    if run == [] then []
    else (if run[0].Arrive? then [run[0].m] else []) + Came(run[1..])
  }

  /** Messages whose handlers were entered. */
  ghost function Entered(st: State, run: seq<Action>): seq<Message>
    requires Legal(st, run)
    decreases |run|
  {
    if run == [] then []
    else
      var st1 := Apply(st, run[0]);
      (if run[0].Take? && Top(st1).Handling? then [Top(st1).m] else []) + Entered(st1, run[1..])
  }

  /** Requests whose reply handlers were entered. */
  ghost function Replied(st: State, run: seq<Action>): seq<ReqId>
    requires Legal(st, run)
    decreases |run|
  {
    if run == [] then []
    else
      var st1 := Apply(st, run[0]);
      (if (run[0].Take? || run[0].OnReply?) && Top(st1).Replying? then [Top(st1).id] else []) + Replied(st1, run[1..])
  }

  function Ids(handled: seq<(ReqId, Body)>): seq<ReqId> {
    seq(|handled|, k requires 0 <= k < |handled| => handled[k].0)
  }

  /** What the state records is what happened: arrivals are what came in, started are the messages whose
      handlers were entered, handled the requests whose reply handlers were. */
  lemma {:induction false} HistoriesOfRun(st: State, run: seq<Action>)
    requires Legal(st, run)
    ensures var st' := After(st, run);
            && st'.arrivals == st.arrivals + Came(run)
            && st'.started == st.started + Entered(st, run)
            && Ids(st'.handled) == Ids(st.handled) + Replied(st, run)
    decreases |run|
  {
    hide Enabled, Apply, Ids;
    if run != [] {
      HistoriesOfStep(st, run[0]);
      var st1, a := Apply(st, run[0]), run[0];
      HistoriesOfRun(st1, run[1..]);
      hide Legal, After, Came, Entered, Replied;
      Regroup(st.arrivals, if a.Arrive? then [a.m] else [], Came(run[1..]));
      Regroup(st.started, if a.Take? && Top(st1).Handling? then [Top(st1).m] else [], Entered(st1, run[1..]));
      Regroup(Ids(st.handled), if (a.Take? || a.OnReply?) && Top(st1).Replying? then [Top(st1).id] else [],
              Replied(st1, run[1..]));
    }
  }

  lemma Regroup<T>(a: seq<T>, b: seq<T>, c: seq<T>)
    ensures (a + b) + c == a + (b + c)
  {
  }

  lemma HistoriesOfStep(st: State, a: Action)
    requires Enabled(st, a)
    ensures var st' := Apply(st, a);
            && st'.arrivals == st.arrivals + (if a.Arrive? then [a.m] else [])
            && st'.started == st.started + (if a.Take? && Top(st').Handling? then [Top(st').m] else [])
            && Ids(st'.handled) == Ids(st.handled) + if (a.Take? || a.OnReply?) && Top(st').Replying? then [Top(st').id] else []
  {
    match a
    case Take => HistoriesOfTake(st);
    case OnReply(id) =>
    case _ =>
      var st' := Apply(st, a);
      assert st'.started == st.started && st'.handled == st.handled;
      hide ReturnFrom, ExitLoop, Ids;
  }

  lemma HistoriesOfTake(st: State)
    requires Enabled(st, Take)
    ensures var st' := Apply(st, Take);
            && st'.arrivals == st.arrivals
            && st'.started == st.started + (if Top(st').Handling? then [Top(st').m] else [])
            && Ids(st'.handled) == Ids(st.handled) + if Top(st').Replying? then [Top(st').id] else []
  {
  }

  // ---------------------------------------------------------------- deactivating in a reply handler

  /** The state user code is back in once the handler of a reply returned. */
  function AfterReply(st: State): State
    requires Top(st).Replying?
  {
    var st1 := Apply(st, Return);
    if Enabled(st1, Exit) && Top(st1).Waiting? then Apply(st1, Exit) else st1
  }

  /** Deactivating the actor in the handler of a reply lasts exactly when the reply had been stored
      before `on_reply` was called, or the actor was not active then. */
  lemma DeactivationLastsExactly(st: State)
    requires Reachable(st) && Top(st).Replying? && !st.activated
    ensures |st.stack| >= 2 && (!Top(st).stored ==> st.stack[|st.stack| - 2].Waiting?)
    ensures UserCode(Top(AfterReply(st)))
    ensures !AfterReply(st).activated <==> Top(st).stored || !st.stack[|st.stack| - 2].wasActive
  {
    ReachableInv(st);
    AfterReplyExactly(st);
  }

  lemma AfterReplyExactly(st: State)
    requires StackInv(st) && Top(st).Replying? && !st.activated
    ensures |st.stack| >= 2 && (!Top(st).stored ==> st.stack[|st.stack| - 2].Waiting?)
    ensures UserCode(Top(AfterReply(st)))
    ensures !AfterReply(st).activated <==> Top(st).stored || !st.stack[|st.stack| - 2].wasActive
  {
    var n := |st.stack|;
    assert Follows(st.stack[n - 2], st.stack[n - 1]);
    assert !Top(st).stored ==> Follows(st.stack[n - 3], st.stack[n - 2]);
    hide StackInv, Follows;
    var st1 := Apply(st, Return);
    assert Top(st1) == st.stack[n - 2];
    if !Top(st).stored {
      assert Top(Apply(st1, Exit)) == st.stack[n - 3];
    }
  }

  // ---------------------------------------------------------------- the loop goes on until somebody deactivates

  /** The actor's own loop is on the stack, and activity will be back when the waits above it are over. */
  ghost predicate Awake(st: State) {
    && |st.stack| >= 2 && st.stack[0] == Script && st.stack[1] == Loop
    && (forall i {:trigger st.stack[i]} :: 2 <= i < |st.stack| ==> !st.stack[i].Script? && !st.stack[i].Loop?)
    && (forall i {:trigger st.stack[i]} :: 0 <= i < |st.stack| && st.stack[i].Waiting? ==> st.stack[i].wasActive)
    && (st.activated || Top(st).Waiting?)
    && (forall i {:trigger st.stack[i]} :: 2 <= i < |st.stack| && st.stack[i].Replying? && !st.stack[i].stored ==>
          st.stack[i - 1].Waiting?)
  }

  lemma AwakeStep(st: State, a: Action)
    requires Awake(st) && Enabled(st, a) && a != Deactivate
    ensures Awake(Apply(st, a))
  {
    match a
    case Take => AwakeTake(st);
    case OnReply(id) => AwakeOnReply(st, id);
    case Return => AwakePop(st, Apply(st, a));
    case Exit => AwakePop(st, Apply(st, a));
    case _ =>
  }

  lemma AwakeTake(st: State)
    requires Awake(st) && Enabled(st, Take)
    ensures Awake(Apply(st, Take))
  {
    var st' := Apply(st, Take);
    assert st'.activated == st.activated == true;
    if st'.stack != st.stack {
      assert st'.stack == st.stack + [Top(st')] && (Top(st').Handling? || (Top(st').Replying? && Top(st).Waiting?));
      hide Apply, Enabled;
      AwakePush(st, st', Top(st'));
    } else {
      hide Apply, Enabled;
      AwakeSame(st, st');
    }
  }

  lemma AwakeOnReply(st: State, id: ReqId)
    requires Awake(st) && Enabled(st, OnReply(id))
    ensures Awake(Apply(st, OnReply(id)))
  {
    var st' := Apply(st, OnReply(id));
    var f := Top(st');
    assert st'.stack == st.stack + [f] && st'.activated && st.activated;
    hide Apply, Enabled;
    AwakePush(st, st', f);
  }

  lemma AwakeSame(st: State, st': State)
    requires Awake(st) && st'.stack == st.stack && st'.activated
    ensures Awake(st')
  {
  }

  /** A frame is entered while the actor is active. */
  lemma AwakePush(st: State, st': State, f: Frame)
    requires Awake(st) && st'.stack == st.stack + [f] && st'.activated && !f.Script? && !f.Loop?
    requires (f.Waiting? ==> f.wasActive) && (f.Replying? && !f.stored ==> Top(st).Waiting?)
    ensures Awake(st')
  {
  }

  /** A frame above the loop goes. */
  lemma AwakePop(st: State, st': State)
    requires Awake(st) && |st.stack| > 2 && st'.stack == Rest(st) && (st'.activated || Top(st').Waiting?)
    ensures Awake(st')
  {
  }

  /** The loop ends only if some user code in it deactivates the actor: as long as none does it stays on the
      stack, however active the actor was when it began. */
  lemma {:induction false} LoopStaysAwake(st: State, run: seq<Action>)
    requires Awake(st) && Legal(st, run) && Deactivate !in run
    ensures Awake(After(st, run))
    decreases |run|
  {
    hide Awake, Apply, Enabled;
    if run != [] {
      AwakeStep(st, run[0]);
      LoopStaysAwake(Apply(st, run[0]), run[1..]);
    }
  }

  lemma LoopEndsByDeactivating(st: State, run: seq<Action>)
    requires Enabled(st, StartLoop) && Legal(Apply(st, StartLoop), run) && Deactivate !in run
    ensures |After(Apply(st, StartLoop), run).stack| >= 2 && After(Apply(st, StartLoop), run).stack[1] == Loop
  {
    LoopStaysAwake(Apply(st, StartLoop), run);
  }

  // ---------------------------------------------------------------- and it does happen

  lemma {:induction false} LegalAppend(st: State, run: seq<Action>, a: Action)
    requires Legal(st, run) && Enabled(After(st, run), a)
    ensures Legal(st, run + [a]) && After(st, run + [a]) == Apply(After(st, run), a)
    decreases |run|
  {
    hide Enabled, Apply;
    if run == [] {
      assert [] + [a] == [a] && [a][1..] == [];
    } else {
      LegalAppend(Apply(st, run[0]), run[1..], a);
      assert (run + [a])[0] == run[0] && (run + [a])[1..] == run[1..] + [a];
    }
  }

  lemma Extend(st: State, a: Action)
    requires Reachable(st) && Enabled(st, a)
    ensures Reachable(Apply(st, a))
  {
    hide Enabled, Apply;
    var run :| Legal(INIT, run) && After(INIT, run) == st;
    LegalAppend(INIT, run, a);
  }

  lemma NotYetAnswered(st: State)
    requires Reachable(st)
    ensures st.nextId !in st.answered && st.nextId !in st.unfinished
  {
    ReachableInv(st);
  }

  /** From any moment at which active user code runs and nothing is in the mailbox: send a request, wait
      for the reply, and deactivate in its handler. The actor is active again afterwards. */
  lemma DeactivationUndone(st: State, body: Body) returns (st': State)
    requires Reachable(st) && UserCode(Top(st)) && st.activated && st.mailbox == []
    ensures Reachable(st') && !st'.activated && AfterReplyIsActive(st')
    ensures st'.stack == st.stack + [Waiting(st.nextId, true), Replying(st.nextId, false)]
  {
    hide Reachable;
    var id := st.nextId;
    NotYetAnswered(st);
    Extend(st, Request);
    var s1 := Apply(st, Request);
    Extend(s1, OnReply(id));
    var s2 := Apply(s1, OnReply(id));
    Extend(s2, Answer(id, body));
    var s3 := Apply(s2, Answer(id, body));
    Extend(s3, Take);
    var s4 := Apply(s3, Take);
    Extend(s4, Deactivate);
    st' := Apply(s4, Deactivate);
    DeactivationLastsExactly(st');
  }

  predicate AfterReplyIsActive(st: State) {
    Top(st).Replying? && AfterReply(st).activated
  }

  /** There is such a moment right after the start. */
  lemma DeactivationCanBeUndone() returns (st: State)
    ensures Reachable(st) && Top(st).Replying? && !st.activated && AfterReply(st).activated
  {
    assert Legal(INIT, []) && After(INIT, []) == INIT;
    Extend(INIT, Activate);
    st := DeactivationUndone(Apply(INIT, Activate), 0);
  }
}
