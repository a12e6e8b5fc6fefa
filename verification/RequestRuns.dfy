/**
 What a piece of user code comes to that sends requests and waits for replies, as a function of the
 state and of the messages the actor will get: handlers run inside waits, to any depth. The nested loops
 of `RequestActor` compute this function; here is what holds of it.
 */
module RequestRuns {
  import opened Wrappers
  import opened Requests
  import opened RequestProofs

  /** What user code does. Request handlers are named by their request numbers. */
  datatype Step =
    | SendRequest
    | DropHandler(id: ReqId)
    | AwaitReply(id: ReqId, handler: seq<Step>)
    | SetActive(active: bool)

  /** How user code ends: it returns, it waits for a message that never comes, or it uses a request
      handler it does not have, which throws. */
  datatype End = Done | Blocks | Throws(id: ReqId)

  /** A peer answers only requests that were sent, and each once. */
  predicate Possible(st: State, mail: Mail) {
    mail.Response? ==> mail.id < st.nextId && mail.id !in st.answered
  }

  function Recorded(st: State, mail: Mail): State {
    match mail
    case Ordinary(m) => st.(arrivals := st.arrivals + [m])
    case Response(id, body) => st.(answered := st.answered[id := body])
  }

  /** A message comes in and is taken at once. */
  function Taken(st: State, mail: Mail): State {
    TakeMail(Recorded(st, mail), mail)
  }

  datatype Res = Res(st: State, incoming: seq<Mail>, end: End)

  /** The handler on top of the stack ran; it returns if it came to its end. */
  function Returned(r: Res): Res {
    if r.end.Done? then r.(st := ReturnFrom(r.st, Top(r.st))) else r
  }

  function RunSteps(st: State, inc: seq<Mail>, steps: seq<Step>): (r: Res)
    ensures |r.incoming| <= |inc|
    decreases steps, 0
  {
    if steps == [] then Res(st, inc, Done)
    else
      var r := RunOne(st, inc, steps[0]);
      if r.end.Done? then RunSteps(r.st, r.incoming, steps[1..]) else r
  }

  function RunOne(st: State, inc: seq<Mail>, step: Step): (r: Res)
    ensures |r.incoming| <= |inc|
    decreases step, 2
  {
    match step
    case SendRequest => Res(AddRequest(st), inc, Done)
    case DropHandler(id) => if id in st.live then Res(DestroyHandler(st, id), inc, Done) else Res(st, inc, Throws(id))
    case AwaitReply(id, handler) => if id in st.live then RunOnReply(st, inc, id, handler) else Res(st, inc, Throws(id))
    case SetActive(active) => Res(st.(activated := active), inc, Done)
  }

  function RunOnReply(st: State, inc: seq<Mail>, id: ReqId, handler: seq<Step>): (r: Res)
    ensures |r.incoming| <= |inc|
    decreases handler, 4
  {
    var st1 := CallOnReply(st, id);
    if Top(st1).Replying? then Returned(RunSteps(st1, inc, handler)) else RunWait(st1, inc, id, handler)
  }

  /** The receive loop of a wait. */
  function RunWait(st: State, inc: seq<Mail>, id: ReqId, handler: seq<Step>): (r: Res)
    ensures |r.incoming| <= |inc|
    decreases handler, 3, |inc|
  {
    if !st.activated then Res(ExitLoop(st), inc, Done)
    else
      var r := WaitTurn(st, inc, id, handler);
      if r.end.Done? then RunWait(r.st, r.incoming, id, handler) else r
  }

  /** One turn of it: only the awaited response starts a handler. */
  function WaitTurn(st: State, inc: seq<Mail>, id: ReqId, handler: seq<Step>): (r: Res)
    ensures |r.incoming| <= |inc| && (r.end.Done? ==> |r.incoming| < |inc|)
    decreases handler, 2
  {
    if inc == [] || !Possible(st, inc[0]) then Res(st, inc, Blocks)
    else if inc[0].Response? && inc[0].id == id then Returned(RunSteps(Taken(st, inc[0]), inc[1..], handler))
    else Res(Taken(st, inc[0]), inc[1..], Done)
  }

  /** One turn of the actor's own loop, the stash first. */
  function LoopTurn(st: State, inc: seq<Mail>, program: Message -> seq<Step>): Res {
    if FromStash(st) then Returned(RunSteps(TakeStash(st), inc, program(st.stash[0])))
    else if inc == [] || !Possible(st, inc[0]) then Res(st, inc, Blocks)
    else if inc[0].Ordinary? then Returned(RunSteps(Taken(st, inc[0]), inc[1..], program(inc[0].m)))
    else Res(Taken(st, inc[0]), inc[1..], Done)
  }

  /** The actor's own loop. */
  function RunLoop(st: State, inc: seq<Mail>, program: Message -> seq<Step>): Res
    requires Top(st).Loop? && st.waiting == 0
    decreases |st.stash| + |inc|
  {
    if !st.activated then Res(ExitLoop(st), inc, Done)
    else
      var r := LoopTurn(st, inc, program);
      LoopTurnProgress(st, inc, program);
      if r.end.Done? then RunLoop(r.st, r.incoming, program) else r
  }

  // ---------------------------------------------------------------- what came in, and what became of it

  function Took(inc: seq<Mail>, rest: seq<Mail>): seq<Mail> {
    if |rest| <= |inc| then inc[..|inc| - |rest|] else []
  }

  /** What was taken from the front of the incoming was recorded, and nothing handled or started is
      forgotten. */
  ghost predicate Progress(st: State, inc: seq<Mail>, st': State, rest: seq<Mail>) {
    && inc == Took(inc, rest) + rest
    && st'.arrivals == st.arrivals + Ordinaries(Took(inc, rest))
    && st.started <= st'.started && st.handled <= st'.handled
  }

  /** Moreover nothing was started, and every ordinary message taken went to the end of the stash. */
  ghost predicate Stashing(st: State, inc: seq<Mail>, st': State, rest: seq<Mail>) {
    && Progress(st, inc, st', rest)
    && st'.started == st.started && st'.stash == st.stash + Ordinaries(Took(inc, rest))
  }

  /** Back where the user code began. */
  predicate Back(st: State, st': State) {
    st'.stack == st.stack && st'.waiting == st.waiting
  }

  lemma {:induction false} OrdinariesSplit(a: seq<Mail>, b: seq<Mail>)
    ensures Ordinaries(a + b) == Ordinaries(a) + Ordinaries(b)
    decreases |a|
  {
    if a == [] {
      assert a + b == b;
    } else {
      assert (a + b)[0] == a[0] && (a + b)[1..] == a[1..] + b;
      OrdinariesSplit(a[1..], b);
    }
  }

  lemma TookSplit(inc: seq<Mail>, mid: seq<Mail>, rest: seq<Mail>)
    requires inc == Took(inc, mid) + mid && mid == Took(mid, rest) + rest
    ensures inc == Took(inc, rest) + rest
    ensures Ordinaries(Took(inc, rest)) == Ordinaries(Took(inc, mid)) + Ordinaries(Took(mid, rest))
  {
    assert Took(inc, rest) == Took(inc, mid) + Took(mid, rest);
    OrdinariesSplit(Took(inc, mid), Took(mid, rest));
  }

  lemma PrefixOn<T>(a: seq<T>, b: seq<T>, c: seq<T>)
    requires a <= b <= c
    ensures a <= c
  {
  }

  lemma ProgressOn(st: State, inc: seq<Mail>, st1: State, mid: seq<Mail>, st2: State, rest: seq<Mail>)
    requires Progress(st, inc, st1, mid) && Progress(st1, mid, st2, rest)
    ensures Progress(st, inc, st2, rest)
    ensures Ordinaries(Took(inc, rest)) == Ordinaries(Took(inc, mid)) + Ordinaries(Took(mid, rest))
  {
    hide Ordinaries, Took;
    TookSplit(inc, mid, rest);
    PrefixOn(st.started, st1.started, st2.started);
    PrefixOn(st.handled, st1.handled, st2.handled);
    Regroup(st.arrivals, Ordinaries(Took(inc, mid)), Ordinaries(Took(mid, rest)));
  }

  lemma Regroup<T>(a: seq<T>, b: seq<T>, c: seq<T>)
    ensures (a + b) + c == a + (b + c)
  {
  }

  lemma StashingOn(st: State, inc: seq<Mail>, st1: State, mid: seq<Mail>, st2: State, rest: seq<Mail>)
    requires Stashing(st, inc, st1, mid) && Stashing(st1, mid, st2, rest)
    ensures Stashing(st, inc, st2, rest)
  {
    hide Ordinaries, Took, Progress;
    ProgressOn(st, inc, st1, mid, st2, rest);
    Regroup(st.stash, Ordinaries(Took(inc, mid)), Ordinaries(Took(mid, rest)));
  }

  lemma NothingTaken(st: State, st': State, inc: seq<Mail>)
    requires st'.arrivals == st.arrivals && st.started <= st'.started && st.handled <= st'.handled
    ensures Progress(st, inc, st', inc)
    ensures st'.started == st.started && st'.stash == st.stash ==> Stashing(st, inc, st', inc)
  {
    assert Took(inc, inc) == [];
  }

  lemma OneTaken(st: State, inc: seq<Mail>)
    requires inc != []
    ensures Progress(st, inc, Taken(st, inc[0]), inc[1..])
    ensures Top(st).Waiting? ==> Stashing(st, inc, Taken(st, inc[0]), inc[1..])
  {
    assert Took(inc, inc[1..]) == [inc[0]];
    assert [inc[0]][1..] == [];
  }

  // ---------------------------------------------------------------- user code

  lemma {:induction false} StepsProgress(st: State, inc: seq<Mail>, steps: seq<Step>)
    ensures var r := RunSteps(st, inc, steps);
            Stashing(st, inc, r.st, r.incoming) && (r.end.Done? ==> Back(st, r.st))
    decreases steps, 0
  {
    hide Stashing;
    if steps == [] {
      NothingTaken(st, st, inc);
    } else {
      OneProgress(st, inc, steps[0]);
      var r := RunOne(st, inc, steps[0]);
      if r.end.Done? {
        StepsProgress(r.st, r.incoming, steps[1..]);
        var r' := RunSteps(r.st, r.incoming, steps[1..]);
        StashingOn(st, inc, r.st, r.incoming, r'.st, r'.incoming);
      }
    }
  }

  lemma {:induction false} OneProgress(st: State, inc: seq<Mail>, step: Step)
    ensures var r := RunOne(st, inc, step);
            Stashing(st, inc, r.st, r.incoming) && (r.end.Done? ==> Back(st, r.st))
    decreases step, 2
  {
    hide Stashing, RunSteps, RunOnReply;
    var r := RunOne(st, inc, step);
    if step.AwaitReply? && step.id in st.live {
      OnReplyProgress(st, inc, step.id, step.handler);
    } else {
      NothingTaken(st, r.st, inc);
    }
  }

  lemma {:induction false} OnReplyProgress(st: State, inc: seq<Mail>, id: ReqId, handler: seq<Step>)
    ensures var r := RunOnReply(st, inc, id, handler);
            Stashing(st, inc, r.st, r.incoming) && (r.end.Done? ==> Back(st, r.st))
    ensures var r := RunOnReply(st, inc, id, handler); r.end.Done? ==> FirstHandled(st, r.st, id)
    decreases handler, 4
  {
    hide Stashing, RunSteps, RunWait;
    var st1 := CallOnReply(st, id);
    NothingTaken(st, st1, inc);
    assert Rest(st1) == st.stack;
    if Top(st1).Replying? {
      HandlerProgress(st1, inc, handler);
      var r := Returned(RunSteps(st1, inc, handler));
      StashingOn(st, inc, st1, inc, r.st, r.incoming);
      HandledGrows(st1, inc, r.st, r.incoming);
    } else {
      WaitProgress(st1, inc, id, handler);
      var r := RunWait(st1, inc, id, handler);
      StashingOn(st, inc, st1, inc, r.st, r.incoming);
    }
  }

  /** The first response handled since is that of this request. */
  predicate FirstHandled(st: State, st': State, id: ReqId) {
    st.handled <= st'.handled && |st.handled| < |st'.handled| && st'.handled[|st.handled|].0 == id
  }

  /** The handler of a response, and its return. */
  lemma {:induction false} HandlerProgress(st: State, inc: seq<Mail>, steps: seq<Step>)
    requires Top(st).Replying?
    ensures var r := Returned(RunSteps(st, inc, steps));
            && Stashing(st, inc, r.st, r.incoming)
            && (r.end.Done? ==> r.st.stack == Rest(st) && r.st.waiting == st.waiting
                                && (!Top(st).stored ==> !r.st.activated))
    decreases steps, 1, 0
  {
    hide Stashing, RunSteps;
    StepsProgress(st, inc, steps);
    var r := RunSteps(st, inc, steps);
    if r.end.Done? {
      var st' := ReturnFrom(r.st, Top(r.st));
      NothingTaken(r.st, st', r.incoming);
      StashingOn(st, inc, r.st, r.incoming, st', r.incoming);
    }
  }

  lemma {:induction false} WaitProgress(st: State, inc: seq<Mail>, id: ReqId, handler: seq<Step>)
    requires Top(st).Waiting? && Top(st).id == id && st.waiting > 0
    ensures var r := RunWait(st, inc, id, handler);
            && Stashing(st, inc, r.st, r.incoming)
            && (r.end.Done? ==> r.st.stack == Rest(st) && r.st.waiting + 1 == st.waiting
                                && r.st.activated == Top(st).wasActive)
            && (r.end.Done? && st.activated ==> FirstHandled(st, r.st, id))
    decreases handler, 3, |inc|
  {
    hide Stashing, RunSteps, WaitTurn;
    if !st.activated {
      NothingTaken(st, ExitLoop(st), inc);
    } else {
      WaitTurnProgress(st, inc, id, handler);
      var r := WaitTurn(st, inc, id, handler);
      if r.end.Done? {
        WaitProgress(r.st, r.incoming, id, handler);
        var r' := RunWait(r.st, r.incoming, id, handler);
        StashingOn(st, inc, r.st, r.incoming, r'.st, r'.incoming);
        HandledGrows(r.st, r.incoming, r'.st, r'.incoming);
      }
    }
  }

  lemma HandledGrows(st: State, inc: seq<Mail>, st': State, rest: seq<Mail>)
    requires Stashing(st, inc, st', rest)
    ensures st.handled <= st'.handled
  {
  }

  lemma {:induction false} WaitTurnProgress(st: State, inc: seq<Mail>, id: ReqId, handler: seq<Step>)
    requires Top(st).Waiting? && Top(st).id == id && st.waiting > 0
    ensures var r := WaitTurn(st, inc, id, handler);
            && Stashing(st, inc, r.st, r.incoming)
            && (r.end.Done? ==> Back(st, r.st))
            && (r.end.Done? ==> if r.st.activated then r.st.handled == st.handled && st.activated
                                else st.activated ==> FirstHandled(st, r.st, id))
    decreases handler, 2
  {
    hide Stashing, RunSteps, FirstHandled;
    NothingTaken(st, st, inc);
    if inc != [] && Possible(st, inc[0]) {
      OneTaken(st, inc);
      if inc[0].Response? && inc[0].id == id {
        AwaitedTurn(st, inc, handler);
      }
    }
  }

  /** The awaited response comes: its handler runs, and the wait is over. */
  lemma {:induction false} AwaitedTurn(st: State, inc: seq<Mail>, handler: seq<Step>)
    requires Top(st).Waiting? && inc != [] && inc[0].Response? && inc[0].id == Top(st).id
    ensures var r := Returned(RunSteps(Taken(st, inc[0]), inc[1..], handler));
            && Stashing(st, inc, r.st, r.incoming)
            && (r.end.Done? ==> Back(st, r.st) && !r.st.activated && FirstHandled(st, r.st, Top(st).id))
    decreases handler, 1, 1
  {
    hide Stashing, RunSteps;
    OneTaken(st, inc);
    var st1 := Taken(st, inc[0]);
    assert Rest(st1) == st.stack;
    HandlerProgress(st1, inc[1..], handler);
    var r := Returned(RunSteps(st1, inc[1..], handler));
    StashingOn(st, inc, st1, inc[1..], r.st, r.incoming);
    HandledGrows(st1, inc[1..], r.st, r.incoming);
  }

  // ---------------------------------------------------------------- the actor's own loop

  /** Nothing is lost or reordered: started, then stashed, is what it was, then what was taken. */
  ghost predicate InOrder(st: State, inc: seq<Mail>, st': State, rest: seq<Mail>) {
    st'.started + st'.stash == st.started + st.stash + Ordinaries(Took(inc, rest))
  }

  /** The handler of an ordinary message, which is the last one started, and its return. */
  lemma OrdinaryHandler(st: State, inc: seq<Mail>, steps: seq<Step>)
    requires Top(st).Handling? && (Top(st).fromStash ==> st.stash != [])
    ensures var r := Returned(RunSteps(st, inc, steps));
            && Progress(st, inc, r.st, r.incoming) && r.st.started == st.started
            && (r.end.Done? ==>
                  && r.st.stack == Rest(st) && r.st.waiting == st.waiting
                  && r.st.stash == (if Top(st).fromStash then st.stash[1..] else st.stash)
                                   + Ordinaries(Took(inc, r.incoming)))
  {
    hide RunSteps, Progress;
    StepsProgress(st, inc, steps);
    var r := RunSteps(st, inc, steps);
    ProgressOf(st, inc, r.st, r.incoming);
    if r.end.Done? {
      var st' := ReturnFrom(r.st, Top(r.st));
      NothingTaken(r.st, st', r.incoming);
      ProgressOn(st, inc, r.st, r.incoming, st', r.incoming);
      if Top(st).fromStash {
        var more := Ordinaries(Took(inc, r.incoming));
        assert (st.stash + more)[1..] == st.stash[1..] + more;
      }
    }
  }

  lemma ProgressOf(st: State, inc: seq<Mail>, st': State, rest: seq<Mail>)
    requires Stashing(st, inc, st', rest)
    ensures Progress(st, inc, st', rest)
  {
  }

  lemma {:induction false} FewerOrdinaries(mails: seq<Mail>)
    ensures |Ordinaries(mails)| <= |mails|
    decreases |mails|
  {
    if mails != [] {
      FewerOrdinaries(mails[1..]);
    }
  }

  /** What a turn of the loop does, if it ends: the loop goes on, and fewer messages are to be handled. */
  ghost predicate TurnDone(st: State, inc: seq<Mail>, st': State, rest: seq<Mail>) {
    && Back(st, st') && InOrder(st, inc, st', rest)
    && |st'.stash| + |rest| < |st.stash| + |inc|
  }

  /** The front of the stash is started, and popped when its handler returned. */
  lemma StashTurn(st: State, inc: seq<Mail>, steps: seq<Step>)
    requires Top(st).Loop? && FromStash(st)
    ensures var r := Returned(RunSteps(TakeStash(st), inc, steps));
            Progress(st, inc, r.st, r.incoming) && (r.end.Done? ==> TurnDone(st, inc, r.st, r.incoming))
  {
    hide RunSteps, Progress, Ordinaries;
    var st1 := TakeStash(st);
    NothingTaken(st, st1, inc);
    assert Rest(st1) == st.stack;
    OrdinaryHandler(st1, inc, steps);
    var r := Returned(RunSteps(st1, inc, steps));
    ProgressOn(st, inc, st1, inc, r.st, r.incoming);
    if r.end.Done? {
      var more := Ordinaries(Took(inc, r.incoming));
      FewerOrdinaries(Took(inc, r.incoming));
      assert st.stash == [st.stash[0]] + st.stash[1..];
      Regroup(st.started, [st.stash[0]], st.stash[1..] + more);
    }
  }

  /** An ordinary message is started at once. */
  lemma MailTurn(st: State, inc: seq<Mail>, steps: seq<Step>)
    requires Top(st).Loop? && st.stash == [] && inc != [] && inc[0].Ordinary?
    ensures var r := Returned(RunSteps(Taken(st, inc[0]), inc[1..], steps));
            Progress(st, inc, r.st, r.incoming) && (r.end.Done? ==> TurnDone(st, inc, r.st, r.incoming))
  {
    hide RunSteps, Progress;
    OneTaken(st, inc);
    var st1 := Taken(st, inc[0]);
    assert Rest(st1) == st.stack;
    OrdinaryHandler(st1, inc[1..], steps);
    var r := Returned(RunSteps(st1, inc[1..], steps));
    ProgressOn(st, inc, st1, inc[1..], r.st, r.incoming);
    if r.end.Done? {
      assert Took(inc, inc[1..]) == [inc[0]] && [inc[0]][1..] == [];
      FewerOrdinaries(Took(inc[1..], r.incoming));
      hide Ordinaries;
      Regroup(st.started, [inc[0].m], Ordinaries(Took(inc[1..], r.incoming)));
    }
  }

  lemma LoopTurnProgress(st: State, inc: seq<Mail>, program: Message -> seq<Step>)
    requires Top(st).Loop? && st.waiting == 0
    ensures var r := LoopTurn(st, inc, program);
            Progress(st, inc, r.st, r.incoming) && (r.end.Done? ==> TurnDone(st, inc, r.st, r.incoming))
  {
    hide RunSteps, Progress;
    NothingTaken(st, st, inc);
    if FromStash(st) {
      StashTurn(st, inc, program(st.stash[0]));
    } else if inc != [] && Possible(st, inc[0]) {
      OneTaken(st, inc);
      if inc[0].Ordinary? {
        MailTurn(st, inc, program(inc[0].m));
      } else {
        assert Took(inc, inc[1..]) == [inc[0]] && [inc[0]][1..] == [];
      }
    }
  }

  /** When the actor's own loop ends, everything taken was started in order or is in the stash. */
  lemma {:induction false} RunLoopInOrder(st: State, inc: seq<Mail>, program: Message -> seq<Step>)
    requires Top(st).Loop? && st.waiting == 0
    ensures var r := RunLoop(st, inc, program);
            && Progress(st, inc, r.st, r.incoming)
            && (r.end.Done? ==> r.st.stack == Rest(st) && r.st.waiting == 0 && !r.st.activated
                                && InOrder(st, inc, r.st, r.incoming))
    decreases |st.stash| + |inc|
  {
    hide RunSteps, Progress, LoopTurn, Ordinaries;
    if !st.activated {
      NothingTaken(st, ExitLoop(st), inc);
      assert Took(inc, inc) == [];
      NoOrdinaries();
    } else {
      LoopTurnProgress(st, inc, program);
      var r := LoopTurn(st, inc, program);
      if r.end.Done? {
        RunLoopInOrder(r.st, r.incoming, program);
        var r' := RunLoop(r.st, r.incoming, program);
        ProgressOn(st, inc, r.st, r.incoming, r'.st, r'.incoming);
        Regroup(st.started + st.stash, Ordinaries(Took(inc, r.incoming)), Ordinaries(Took(r.incoming, r'.incoming)));
      }
    }
  }

  lemma NoOrdinaries()
    ensures Ordinaries([]) == []
  {
  }
}
