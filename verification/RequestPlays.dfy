/**
 What user code means, step by step: a run of the stack machine plays the code of the handlers on the
 stack if each of its actions is the next step of the innermost one, a handler returns only when nothing
 is left of its code, and the code of a handler that starts is the one the actor has for its message, or
 the one given to `on_reply`. The results of `RequestRuns` are reached by such runs.
 */
module RequestPlays {
  import opened Wrappers
  import opened Requests
  import opened RequestProofs
  import opened RequestRuns

  type Program = Message -> seq<Step>

  /** What is left of the code of each frame; of a wait, the handler it was given. */
  type Codes = seq<seq<Step>>

  const NO_PROGRAM: Program := _ => []

  function Blank(n: nat): Codes {
    seq(n, _ => [])
  }

  /** The machine's name for a step. */
  function ActionOf(step: Step): Action {
    match step
    case SendRequest => Request
    case DropHandler(id) => Destroy(id)
    case AwaitReply(id, _) => OnReply(id)
    case SetActive(true) => Activate
    case SetActive(false) => Deactivate
  }

  /** The action is what the innermost code says next. A message comes in only when it is waited for. */
  predicate Plays(st: State, codes: Codes, a: Action) {
    && |codes| == |st.stack| > 0 && Enabled(st, a)
    && var code := codes[|codes| - 1];
       match a
       case Arrive(_) => Receiving(Top(st)) && st.activated && !FromStash(st) && st.mailbox == []
       case Answer(_, _) => Receiving(Top(st)) && st.activated && !FromStash(st) && st.mailbox == []
       case Take => true
       case Exit => true
       case StartLoop => false
       case Return => code == []
       case _ => code != [] && a == ActionOf(code[0])
  }

  function CodesAfter(program: Program, st: State, codes: Codes, a: Action): Codes
    requires Plays(st, codes, a)
  {
    var n := |codes| - 1;
    match a
    case Arrive(_) => codes
    case Answer(_, _) => codes
    case Take =>
      (match Top(Apply(st, a))
       case Handling(m, _) => codes + [program(m)]
       case Replying(_, _) => codes + [codes[n]]
       case _ => codes)
    case Return => codes[..n]
    case Exit => codes[..n]
    case OnReply(_) => codes[n := codes[n][1..]] + [codes[n][0].handler]
    case _ => codes[n := codes[n][1..]]
  }

  ghost predicate Played(program: Program, st: State, codes: Codes, run: seq<Action>, st': State, codes': Codes)
    decreases |run|
  {
    if run == [] then st' == st && codes' == codes
    else Plays(st, codes, run[0])
         && Played(program, Apply(st, run[0]), CodesAfter(program, st, codes, run[0]), run[1..], st', codes')
  }

  /** What came in during a run. */
  function Mails(run: seq<Action>): seq<Mail> {
    if run == [] then []
    else (match run[0]
          case Arrive(m) => [Ordinary(m)]
          case Answer(id, body) => [Response(id, body)]
          case _ => []) + Mails(run[1..])
  }

  ghost predicate By(program: Program, st: State, codes: Codes, inc: seq<Mail>, run: seq<Action>,
                     st': State, codes': Codes, rest: seq<Mail>) {
    Played(program, st, codes, run, st', codes') && inc == Mails(run) + rest
  }

  /** The code is played from one state to the other, and takes the incoming up to `rest`. */
  ghost predicate Goes(program: Program, st: State, codes: Codes, inc: seq<Mail>, st': State, codes': Codes, rest: seq<Mail>) {
    exists run :: By(program, st, codes, inc, run, st', codes', rest)
  }

  /** The play is over: the code came to its end, or the actor receives and gets nothing more that a peer
      would send, or the next step is for a request handler that is not there. */
  predicate Over(r: Res, codes: Codes, done: Codes) {
    match r.end
    case Done => codes == done
    case Blocks =>
      && Receiving(Top(r.st)) && r.st.activated && !FromStash(r.st)
      && (r.incoming == [] || !Possible(r.st, r.incoming[0]))
    case Throws(id) =>
      && |codes| == |r.st.stack| > 0 && UserCode(Top(r.st)) && id !in r.st.live
      && var code := codes[|codes| - 1];
         code != [] && (code[0] == DropHandler(id) || (code[0].AwaitReply? && code[0].id == id))
  }

  ghost predicate PlaysOut(program: Program, st: State, codes: Codes, inc: seq<Mail>, r: Res, done: Codes) {
    exists codes' :: Goes(program, st, codes, inc, r.st, codes', r.incoming) && Over(r, codes', done)
  }

  // ---------------------------------------------------------------- putting plays together

  lemma {:induction false} PlayedOn(program: Program, st: State, codes: Codes, run: seq<Action>, st1: State, codes1: Codes,
                                    run': seq<Action>, st2: State, codes2: Codes)
    requires Played(program, st, codes, run, st1, codes1) && Played(program, st1, codes1, run', st2, codes2)
    ensures Played(program, st, codes, run + run', st2, codes2)
    decreases |run|
  {
    hide CodesAfter, Apply, Enabled, ActionOf;
    if run == [] {
      assert run + run' == run';
    } else {
      var whole := run + run';
      assert whole[0] == run[0] && whole[1..] == run[1..] + run';
      PlayedOn(program, Apply(st, run[0]), CodesAfter(program, st, codes, run[0]), run[1..], st1, codes1, run', st2, codes2);
    }
  }

  lemma {:induction false} MailsOn(run: seq<Action>, run': seq<Action>)
    ensures Mails(run + run') == Mails(run) + Mails(run')
    decreases |run|
  {
    if run == [] {
      assert run + run' == run';
    } else {
      assert (run + run')[0] == run[0] && (run + run')[1..] == run[1..] + run';
      MailsOn(run[1..], run');
      var first := Mails([run[0]]);
      assert [run[0]][1..] == [];
      Regroup(first, Mails(run[1..]), Mails(run'));
    }
  }

  lemma Nowhere(program: Program, st: State, codes: Codes, inc: seq<Mail>)
    ensures Goes(program, st, codes, inc, st, codes, inc)
  {
    assert By(program, st, codes, inc, [], st, codes, inc);
  }

  lemma GoesOn(program: Program, st: State, codes: Codes, inc: seq<Mail>, st1: State, codes1: Codes, inc1: seq<Mail>,
               st2: State, codes2: Codes, inc2: seq<Mail>)
    requires Goes(program, st, codes, inc, st1, codes1, inc1) && Goes(program, st1, codes1, inc1, st2, codes2, inc2)
    ensures Goes(program, st, codes, inc, st2, codes2, inc2)
  {
    var run :| By(program, st, codes, inc, run, st1, codes1, inc1);
    var run' :| By(program, st1, codes1, inc1, run', st2, codes2, inc2);
    hide By;
    ByOn(program, st, codes, inc, run, st1, codes1, inc1, run', st2, codes2, inc2);
  }

  lemma ByOn(program: Program, st: State, codes: Codes, inc: seq<Mail>, run: seq<Action>, st1: State, codes1: Codes,
             inc1: seq<Mail>, run': seq<Action>, st2: State, codes2: Codes, inc2: seq<Mail>)
    requires By(program, st, codes, inc, run, st1, codes1, inc1) && By(program, st1, codes1, inc1, run', st2, codes2, inc2)
    ensures By(program, st, codes, inc, run + run', st2, codes2, inc2)
  {
    hide Played, Mails;
    PlayedOn(program, st, codes, run, st1, codes1, run', st2, codes2);
    MailsOn(run, run');
    Regroup(Mails(run), Mails(run'), inc2);
  }

  lemma OutOn(program: Program, st: State, codes: Codes, inc: seq<Mail>, st1: State, codes1: Codes, inc1: seq<Mail>,
              r: Res, done: Codes)
    requires Goes(program, st, codes, inc, st1, codes1, inc1) && PlaysOut(program, st1, codes1, inc1, r, done)
    ensures PlaysOut(program, st, codes, inc, r, done)
  {
    hide Goes, Over;
    var codes' :| Goes(program, st1, codes1, inc1, r.st, codes', r.incoming) && Over(r, codes', done);
    GoesOn(program, st, codes, inc, st1, codes1, inc1, r.st, codes', r.incoming);
  }

  /** One code is played out, and then the next. */
  lemma OutThen(program: Program, st: State, codes: Codes, inc: seq<Mail>, r1: Res, codes1: Codes, r: Res, done: Codes)
    requires PlaysOut(program, st, codes, inc, r1, codes1)
    requires if r1.end.Done? then PlaysOut(program, r1.st, codes1, r1.incoming, r, done) else r == r1
    ensures PlaysOut(program, st, codes, inc, r, done)
  {
    hide Goes;
    var c :| Goes(program, st, codes, inc, r1.st, c, r1.incoming) && Over(r1, c, codes1);
    if r1.end.Done? {
      hide Over;
      OutOn(program, st, codes, inc, r1.st, codes1, r1.incoming, r, done);
    }
  }

  lemma Acts(program: Program, st: State, codes: Codes, inc: seq<Mail>, a: Action)
    requires Plays(st, codes, a) && !a.Arrive? && !a.Answer?
    ensures Goes(program, st, codes, inc, Apply(st, a), CodesAfter(program, st, codes, a), inc)
  {
    hide CodesAfter, Apply, Enabled, ActionOf;
    assert Mails([a]) == [] by {
      assert [a][1..] == [];
    }
    assert Played(program, Apply(st, a), CodesAfter(program, st, codes, a), [a][1..], Apply(st, a),
                  CodesAfter(program, st, codes, a));
    assert By(program, st, codes, inc, [a], Apply(st, a), CodesAfter(program, st, codes, a), inc);
  }

  /** Only the code that acts last decides whether the play is over. */
  lemma ActsOut(program: Program, st: State, codes: Codes, inc: seq<Mail>, a: Action)
    requires Plays(st, codes, a) && !a.Arrive? && !a.Answer?
    ensures PlaysOut(program, st, codes, inc, Res(Apply(st, a), inc, Done), CodesAfter(program, st, codes, a))
  {
    Acts(program, st, codes, inc, a);
    hide Goes, Enabled, Apply, CodesAfter;
    assert Over(Res(Apply(st, a), inc, Done), CodesAfter(program, st, codes, a), CodesAfter(program, st, codes, a));
  }

  /** A message comes in and is taken. */
  lemma TakesMail(program: Program, st: State, codes: Codes, inc: seq<Mail>)
    requires |codes| == |st.stack| > 0 && Receiving(Top(st)) && st.activated && !FromStash(st) && st.mailbox == []
    requires inc != [] && Possible(st, inc[0])
    ensures var st' := Taken(st, inc[0]);
            Goes(program, st, codes, inc, st', match Top(st')
                                               case Handling(m, _) => codes + [program(m)]
                                               case Replying(_, _) => codes + [codes[|codes| - 1]]
                                               case _ => codes, inc[1..])
  {
    var a := match inc[0] case Ordinary(m) => Arrive(m) case Response(id, body) => Answer(id, body);
    var st1 := Apply(st, a);
    assert st1 == Recorded(st, inc[0]).(mailbox := [inc[0]]);
    assert Apply(st1, Take) == Taken(st, inc[0]);
    var codes2 := CodesAfter(program, st1, codes, Take);
    Comes(program, st, codes, inc, a);
    Acts(program, st1, codes, inc[1..], Take);
    hide Goes, Apply, Plays;
    GoesOn(program, st, codes, inc, st1, codes, inc[1..], Taken(st, inc[0]), codes2, inc[1..]);
  }

  lemma Comes(program: Program, st: State, codes: Codes, inc: seq<Mail>, a: Action)
    requires inc != [] && Plays(st, codes, a)
    requires a == match inc[0] case Ordinary(m) => Arrive(m) case Response(id, body) => Answer(id, body)
    ensures Goes(program, st, codes, inc, Apply(st, a), codes, inc[1..])
  {
    hide Enabled, Apply, ActionOf;
    assert Mails([a]) == [inc[0]] by {
      assert [a][1..] == [];
    }
    assert Played(program, Apply(st, a), codes, [a][1..], Apply(st, a), codes);
    assert inc == [inc[0]] + inc[1..];
    assert By(program, st, codes, inc, [a], Apply(st, a), codes, inc[1..]);
  }

  // ---------------------------------------------------------------- the results are played

  /** User code on top of the stack: its steps are what the run does there, in order and to the last. */
  lemma {:induction false} StepsPlay(program: Program, st: State, inc: seq<Mail>, steps: seq<Step>, below: Codes)
    requires UserCode(Top(st)) && st.mailbox == [] && |below| + 1 == |st.stack|
    ensures var r := RunSteps(st, inc, steps);
            r.st.mailbox == [] && PlaysOut(program, st, below + [steps], inc, r, below + [[]])
    decreases steps, 0
  {
    hide PlaysOut, Stashing, RunOne;
    if steps == [] {
      OutAlready(program, st, below + [[]], inc);
    } else {
      var r1 := RunOne(st, inc, steps[0]);
      OnePlay(program, st, inc, steps[0], steps[1..], below);
      assert [steps[0]] + steps[1..] == steps;
      OneProgress(st, inc, steps[0]);
      if r1.end.Done? {
        StepsPlay(program, r1.st, r1.incoming, steps[1..], below);
      }
      OutThen(program, st, below + [steps], inc, r1, below + [steps[1..]], RunSteps(st, inc, steps), below + [[]]);
    }
  }

  lemma OutAlready(program: Program, st: State, codes: Codes, inc: seq<Mail>)
    ensures PlaysOut(program, st, codes, inc, Res(st, inc, Done), codes)
  {
    Nowhere(program, st, codes, inc);
    assert Over(Res(st, inc, Done), codes, codes);
  }

  lemma ActOnTop(program: Program, st: State, step: Step, rest: seq<Step>, below: Codes)
    requires |below| + 1 == |st.stack| && Enabled(st, ActionOf(step))
    ensures var codes := below + [[step] + rest];
            && Plays(st, codes, ActionOf(step))
            && CodesAfter(program, st, codes, ActionOf(step)) ==
               below + [rest] + if step.AwaitReply? then [step.handler] else []
  {
    var codes := below + [[step] + rest];
    assert ([step] + rest)[1..] == rest;
    assert codes[|below| := rest] == below + [rest];
  }

  lemma {:induction false} OnePlay(program: Program, st: State, inc: seq<Mail>, step: Step, rest: seq<Step>, below: Codes)
    requires UserCode(Top(st)) && st.mailbox == [] && |below| + 1 == |st.stack|
    ensures var r := RunOne(st, inc, step);
            r.st.mailbox == [] && PlaysOut(program, st, below + [[step] + rest], inc, r, below + [rest])
    decreases step, 2
  {
    var codes := below + [[step] + rest];
    var a := ActionOf(step);
    if !Enabled(st, a) {
      Nowhere(program, st, codes, inc);
      assert Over(RunOne(st, inc, step), codes, below + [rest]);
    } else {
      ActOnTop(program, st, step, rest, below);
      if step.AwaitReply? {
        OnReplyPlay(program, st, inc, step.id, step.handler, rest, below);
      } else {
        hide CodesAfter, Plays, PlaysOut;
        ActsOut(program, st, codes, inc, a);
      }
    }
  }

  /** `on_reply` plays the handler in a frame of its own, when the response is there. */
  lemma {:induction false} OnReplyPlay(program: Program, st: State, inc: seq<Mail>, id: ReqId, handler: seq<Step>,
                                       rest: seq<Step>, below: Codes)
    requires UserCode(Top(st)) && st.mailbox == [] && |below| + 1 == |st.stack| && id in st.live
    ensures var r := RunOnReply(st, inc, id, handler);
            && r.st.mailbox == []
            && PlaysOut(program, st, below + [[AwaitReply(id, handler)] + rest], inc, r, below + [rest])
    decreases handler, 4
  {
    var codes := below + [[AwaitReply(id, handler)] + rest];
    ActOnTop(program, st, AwaitReply(id, handler), rest, below);
    Acts(program, st, codes, inc, OnReply(id));
    hide Plays, CodesAfter, PlaysOut, Goes;
    var st1 := CallOnReply(st, id);
    var r := RunOnReply(st, inc, id, handler);
    if Top(st1).Replying? {
      HandlerPlay(program, st1, inc, handler, below + [rest]);
    } else {
      WaitPlay(program, st1, inc, id, handler, below + [rest]);
    }
    OutOn(program, st, codes, inc, st1, below + [rest] + [handler], inc, r, below + [rest]);
  }

  /** A handler returns when its code came to its end. */
  lemma {:induction false} HandlerPlay(program: Program, st: State, inc: seq<Mail>, steps: seq<Step>, below: Codes)
    requires (Top(st).Replying? || Top(st).Handling?) && st.mailbox == [] && |below| + 1 == |st.stack|
    ensures var r := Returned(RunSteps(st, inc, steps));
            r.st.mailbox == [] && PlaysOut(program, st, below + [steps], inc, r, below)
    decreases steps, 1, 0
  {
    hide PlaysOut, Stashing;
    StepsPlay(program, st, inc, steps, below);
    StepsProgress(st, inc, steps);
    hide RunSteps;
    var r1 := RunSteps(st, inc, steps);
    if r1.end.Done? {
      ReturnPlays(program, r1.st, r1.incoming, below);
    }
    OutThen(program, st, below + [steps], inc, r1, below + [[]], Returned(r1), below);
  }

  lemma ReturnPlays(program: Program, st: State, inc: seq<Mail>, below: Codes)
    requires (Top(st).Replying? || Top(st).Handling?) && |below| + 1 == |st.stack|
    ensures PlaysOut(program, st, below + [[]], inc, Res(ReturnFrom(st, Top(st)), inc, Done), below)
  {
    var codes := below + [[]];
    assert codes[..|below|] == below;
    ActsOut(program, st, codes, inc, Return);
  }

  lemma {:induction false} WaitPlay(program: Program, st: State, inc: seq<Mail>, id: ReqId, handler: seq<Step>, below: Codes)
    requires Top(st).Waiting? && Top(st).id == id && st.waiting > 0 && st.mailbox == [] && |below| + 1 == |st.stack|
    ensures var r := RunWait(st, inc, id, handler);
            r.st.mailbox == [] && PlaysOut(program, st, below + [handler], inc, r, below)
    decreases handler, 3, |inc|
  {
    hide PlaysOut, Stashing, WaitTurn;
    var codes := below + [handler];
    if !st.activated {
      ExitPlays(program, st, inc, codes);
      assert codes[..|below|] == below;
    } else {
      WaitTurnPlay(program, st, inc, id, handler, below);
      WaitTurnProgress(st, inc, id, handler);
      var r1 := WaitTurn(st, inc, id, handler);
      if r1.end.Done? {
        WaitPlay(program, r1.st, r1.incoming, id, handler, below);
      }
      OutThen(program, st, codes, inc, r1, codes, RunWait(st, inc, id, handler), below);
    }
  }

  lemma ExitPlays(program: Program, st: State, inc: seq<Mail>, codes: Codes)
    requires Receiving(Top(st)) && !st.activated && |codes| == |st.stack|
    ensures PlaysOut(program, st, codes, inc, Res(ExitLoop(st), inc, Done), codes[..|codes| - 1])
  {
    ActsOut(program, st, codes, inc, Exit);
  }

  lemma BlocksHere(program: Program, st: State, codes: Codes, inc: seq<Mail>, done: Codes)
    requires Receiving(Top(st)) && st.activated && !FromStash(st) && (inc == [] || !Possible(st, inc[0]))
    ensures PlaysOut(program, st, codes, inc, Res(st, inc, Blocks), done)
  {
    Nowhere(program, st, codes, inc);
    assert Over(Res(st, inc, Blocks), codes, done);
  }

  lemma {:induction false} WaitTurnPlay(program: Program, st: State, inc: seq<Mail>, id: ReqId, handler: seq<Step>, below: Codes)
    requires Top(st).Waiting? && Top(st).id == id && st.waiting > 0 && st.activated
    requires st.mailbox == [] && |below| + 1 == |st.stack|
    ensures var r := WaitTurn(st, inc, id, handler);
            r.st.mailbox == [] && PlaysOut(program, st, below + [handler], inc, r, below + [handler])
    decreases handler, 2
  {
    hide PlaysOut, Stashing, RunSteps, Goes;
    var codes := below + [handler];
    if inc == [] || !Possible(st, inc[0]) {
      BlocksHere(program, st, codes, inc, codes);
    } else {
      TakesMail(program, st, codes, inc);
      var st1 := Taken(st, inc[0]);
      if inc[0].Response? && inc[0].id == id {
        HandlerPlay(program, st1, inc[1..], handler, codes);
        OutOn(program, st, codes, inc, st1, codes + [handler], inc[1..], WaitTurn(st, inc, id, handler), codes);
      } else {
        OutAlready(program, st1, codes, inc[1..]);
        OutOn(program, st, codes, inc, st1, codes, inc[1..], WaitTurn(st, inc, id, handler), codes);
      }
    }
  }

  // ---------------------------------------------------------------- the actor's own loop

  lemma LoopTurnPlay(program: Program, st: State, inc: seq<Mail>, below: Codes)
    requires Top(st).Loop? && st.waiting == 0 && st.activated && st.mailbox == [] && |below| + 1 == |st.stack|
    ensures var r := LoopTurn(st, inc, program);
            r.st.mailbox == [] && PlaysOut(program, st, below + [[]], inc, r, below + [[]])
  {
    hide PlaysOut, RunSteps, Goes;
    var codes := below + [[]];
    var r := LoopTurn(st, inc, program);
    if FromStash(st) {
      var st1 := TakeStash(st);
      Acts(program, st, codes, inc, Take);
      HandlerPlay(program, st1, inc, program(st.stash[0]), codes);
      OutOn(program, st, codes, inc, st1, codes + [program(st.stash[0])], inc, r, codes);
    } else if inc == [] || !Possible(st, inc[0]) {
      BlocksHere(program, st, codes, inc, codes);
    } else {
      TakesMail(program, st, codes, inc);
      var st1 := Taken(st, inc[0]);
      if inc[0].Ordinary? {
        HandlerPlay(program, st1, inc[1..], program(inc[0].m), codes);
        OutOn(program, st, codes, inc, st1, codes + [program(inc[0].m)], inc[1..], r, codes);
      } else {
        OutAlready(program, st1, codes, inc[1..]);
        OutOn(program, st, codes, inc, st1, codes, inc[1..], r, codes);
      }
    }
  }

  /** The actor's own loop plays the code of each message it starts, in a frame of its own. */
  lemma {:induction false} LoopPlay(program: Program, st: State, inc: seq<Mail>, below: Codes)
    requires Top(st).Loop? && st.waiting == 0 && st.mailbox == [] && |below| + 1 == |st.stack|
    ensures var r := RunLoop(st, inc, program);
            r.st.mailbox == [] && PlaysOut(program, st, below + [[]], inc, r, below)
    decreases |st.stash| + |inc|
  {
    hide PlaysOut, LoopTurn, Progress, Ordinaries;
    var codes := below + [[]];
    if !st.activated {
      ExitPlays(program, st, inc, codes);
      assert codes[..|below|] == below;
    } else {
      LoopTurnPlay(program, st, inc, below);
      LoopTurnProgress(st, inc, program);
      var r1 := LoopTurn(st, inc, program);
      if r1.end.Done? {
        LoopPlay(program, r1.st, r1.incoming, below);
      }
      OutThen(program, st, codes, inc, r1, codes, RunLoop(st, inc, program), below);
    }
  }
}
