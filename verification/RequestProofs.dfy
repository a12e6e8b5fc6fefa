/** Nested waits lose nothing, reorder nothing and answer every handler with its own response. */
module RequestProofs {
  import opened Wrappers
  import opened Requests

  // ---------------------------------------------------------------- the stack

  /** What may run on top of what. */
  predicate Follows(lower: Frame, upper: Frame) {
    match upper
    case Script => false
    case Loop => lower.Script?
    case Handling(_, _) => lower.Loop?
    case Waiting(_, _) => UserCode(lower)
    case Replying(id, stored) => if stored then UserCode(lower) else lower.Waiting? && lower.id == id
  }

  function Waits(stack: seq<Frame>): nat {
    if stack == [] then 0
    else Waits(stack[..|stack| - 1]) + if stack[|stack| - 1].Waiting? then 1 else 0
  }

  /** The front of the stash is being handled. */
  predicate FrontInProgress(st: State) {
    |st.stack| > 2 && st.stack[2].Handling? && st.stack[2].fromStash
  }

  ghost predicate StackInv(st: State) {
    && st.stack != [] && st.stack[0] == Script
    && (forall i {:trigger st.stack[i]} :: 0 < i < |st.stack| ==> Follows(st.stack[i - 1], st.stack[i]))
    && st.waiting == Waits(st.stack)
    && (FrontInProgress(st) ==> st.stash != [] && st.stash[0] == st.stack[2].m)
  }

  /** The request whose response the innermost loop waits for. */
  function Awaited(st: State): Option<ReqId> {
    if Top(st).Waiting? && st.activated then Some(Top(st).id) else None
  }

  /** A loop on the actor's own handlers is never inside a wait. */
  lemma LoopIsOutermost(st: State)
    requires StackInv(st) && Top(st).Loop?
    ensures |st.stack| == 2 && st.waiting == 0 && !FrontInProgress(st)
  {
    var n := |st.stack|;
    assert Follows(st.stack[n - 2], st.stack[n - 1]);
    assert st.stack[n - 2] == Script;
    assert st.stack == [Script, Loop];
    assert st.stack[..|st.stack| - 1] == [Script] && [Script][..0] == [];
    assert Waits([Script]) == 0;
  }

  lemma WaitingCounts(st: State)
    requires StackInv(st) && Top(st).Waiting?
    ensures st.waiting > 0
  {
  }

  // ---------------------------------------------------------------- order

  function Ordinaries(mailbox: seq<Mail>): seq<Message> {
    if mailbox == [] then []
    else (if mailbox[0].Ordinary? then [mailbox[0].m] else []) + Ordinaries(mailbox[1..])
  }

  lemma {:induction false} OrdinariesAppend(mailbox: seq<Mail>, mail: Mail)
    ensures Ordinaries(mailbox + [mail]) == Ordinaries(mailbox) + if mail.Ordinary? then [mail.m] else []
    decreases |mailbox|
  {
    if mailbox == [] {
      assert (mailbox + [mail])[1..] == [];
    } else {
      var head := if mailbox[0].Ordinary? then [mailbox[0].m] else [];
      var last := if mail.Ordinary? then [mail.m] else [];
      assert (mailbox + [mail])[0] == mailbox[0] && (mailbox + [mail])[1..] == mailbox[1..] + [mail];
      OrdinariesAppend(mailbox[1..], mail);
      assert head + (Ordinaries(mailbox[1..]) + last) == (head + Ordinaries(mailbox[1..])) + last;
    }
  }

  /** The stash without the front that is being handled. */
  function Stashed(st: State): seq<Message> {
    if FrontInProgress(st) && st.stash != [] then st.stash[1..] else st.stash
  }

  ghost predicate OrderInv(st: State) {
    st.started + Stashed(st) + Ordinaries(st.mailbox) == st.arrivals
  }

  // ---------------------------------------------------------------- responses

  /** Where the response to an answered request is: in the mailbox, stored, handed to its handler, or
      ignored. */
  ghost function Places(st: State, id: ReqId): nat
    requires id in st.answered
  {
    var b := st.answered[id];
    multiset(st.mailbox)[Response(id, b)]
    + (if id in st.live && id in st.unfinished && st.unfinished[id] == Some(b) then 1 else 0)
    + multiset(st.handled)[(id, b)]
    + (if id in st.dropped then 1 else 0)
  }

  ghost predicate AnsweredWith(st: State, id: ReqId, b: Body) {
    id in st.answered && st.answered[id] == b
  }

  ghost predicate ResponseInv(st: State) {
    && (forall id :: id in st.answered ==> id < st.nextId && Places(st, id) == 1)
    && (forall id, b :: Response(id, b) in st.mailbox ==> AnsweredWith(st, id, b))
    && (forall id, b :: (id, b) in st.handled ==> AnsweredWith(st, id, b))
    && (forall id :: id in st.unfinished && st.unfinished[id].Some? ==> AnsweredWith(st, id, st.unfinished[id].value))
    && (forall id :: id in st.dropped ==> id in st.answered)
  }

  ghost predicate Handled(st: State, id: ReqId) {
    exists b :: (id, b) in st.handled
  }

  /** What became of each request: still to be asked for, destroyed, replied to, or awaited right now. */
  ghost predicate FateInv(st: State) {
    && (forall id :: id in st.live ==> id in st.unfinished && id < st.nextId && !Handled(st, id))
    && (forall id :: id in st.destroyed ==> id !in st.live && id < st.nextId)
    && (forall id :: id in st.unfinished && id !in st.live ==> Handled(st, id))
    && (forall id :: 0 <= id < st.nextId ==>
          id in st.live || id in st.destroyed || Handled(st, id) || Awaited(st) == Some(id))
    && (Awaited(st).Some? ==> var id := Awaited(st).value;
          id < st.nextId && id !in st.unfinished && id !in st.destroyed && !Handled(st, id))
    && (forall id :: id in st.dropped ==> id in st.destroyed)
    && RepliesRun(st)
  }

  /** Every wait that is not innermost, or is over, got its response; every reply handler got its own. */
  ghost predicate RepliesRun(st: State) {
    && (forall i {:trigger st.stack[i]} :: 0 <= i < |st.stack| && st.stack[i].Waiting? && i < |st.stack| - 1 ==>
          Handled(st, st.stack[i].id))
    && (Top(st).Waiting? && !st.activated ==> Handled(st, Top(st).id))
    && (forall i {:trigger st.stack[i]} :: 0 <= i < |st.stack| && st.stack[i].Replying? ==> Handled(st, st.stack[i].id))
  }

  ghost predicate Inv(st: State) {
    StackInv(st) && OrderInv(st) && ResponseInv(st) && FateInv(st)
  }

  lemma InitInv()
    ensures Inv(INIT)
  {
  }

  // ---------------------------------------------------------------- every step keeps it

  lemma PopFrame(st: State)
    requires StackInv(st) && |st.stack| > 1
    ensures var st' := st.(stack := Rest(st), waiting := Waits(Rest(st)));
            StackInv(st') && st.waiting == st'.waiting + if Top(st).Waiting? then 1 else 0
    ensures FrontInProgress(st) && !FrontInProgress(st.(stack := Rest(st))) ==>
              |st.stack| == 3 && Top(st) == st.stack[2]
  {
  }

  lemma PushFrame(st: State, f: Frame)
    requires StackInv(st) && Follows(Top(st), f)
    requires f.Handling? && f.fromStash ==> st.stash != [] && f.m == st.stash[0]
    ensures StackInv(st.(stack := st.stack + [f], waiting := st.waiting + if f.Waiting? then 1 else 0))
  {
    var s' := st.stack + [f];
    assert s'[..|s'| - 1] == st.stack;
    hide Follows;
    forall i | 0 < i < |s'| ensures Follows(s'[i - 1], s'[i]) {
      assert i < |st.stack| ==> Follows(st.stack[i - 1], st.stack[i]);
    }
  }

  lemma StackStep(st: State, a: Action)
    requires StackInv(st) && Enabled(st, a)
    ensures StackInv(Apply(st, a))
  {
    match a
    case OnReply(id) => StackOnReply(st, id);
    case Return => StackReturn(st);
    case Exit => PopFrame(st);
    case StartLoop =>
      PushFrame(st, Loop);
      assert [Script] + [Loop] == [Script, Loop];
    case Take => StackTake(st);
    case _ =>
  }

  lemma StackSame(st: State, st': State)
    requires StackInv(st) && st'.stack == st.stack && st'.waiting == st.waiting && st'.stash == st.stash
    ensures StackInv(st')
  {
    hide Follows, Waits;
  }

  lemma StackOnReply(st: State, id: ReqId)
    requires StackInv(st) && Enabled(st, OnReply(id))
    ensures StackInv(Apply(st, OnReply(id)))
  {
    PushFrame(st, Replying(id, true));
    PushFrame(st, Waiting(id, st.activated));
    var st' := Apply(st, OnReply(id));
    if Top(st').Replying? {
      StackSame(st.(stack := st.stack + [Replying(id, true)]), st');
    } else {
      StackSame(st.(stack := st.stack + [Waiting(id, st.activated)], waiting := st.waiting + 1), st');
    }
  }

  lemma StackReturn(st: State)
    requires StackInv(st) && Enabled(st, Return)
    ensures StackInv(Apply(st, Return))
  {
    PopFrame(st);
    HandlingIsThird(st);
  }

  /** An ordinary message is handled only right above the actor's own loop. */
  lemma HandlingIsThird(st: State)
    requires StackInv(st)
    ensures Top(st).Handling? ==> |st.stack| == 3
  {
    var n := |st.stack|;
    if Top(st).Handling? {
      assert Follows(st.stack[n - 2], st.stack[n - 1]);
      assert Follows(st.stack[n - 3], st.stack[n - 2]);
      assert st.stack[n - 3] == Script;
    }
  }

  lemma StackTake(st: State)
    requires StackInv(st) && Enabled(st, Take)
    ensures StackInv(Apply(st, Take))
  {
    if Top(st).Loop? {
      LoopIsOutermost(st);
      if FromStash(st) {
        PushFrame(st, Handling(st.stash[0], true));
      } else if st.mailbox[0].Ordinary? {
        PushFrame(st, Handling(st.mailbox[0].m, false));
      }
    } else {
      WaitingCounts(st);
      if st.mailbox[0].Response? && st.mailbox[0].id == Top(st).id {
        PushFrame(st, Replying(st.mailbox[0].id, false));
      }
    }
  }

  lemma OrderStep(st: State, a: Action)
    requires StackInv(st) && OrderInv(st) && Enabled(st, a)
    ensures OrderInv(Apply(st, a))
  {
    match a
    case Arrive(m) => OrdinariesAppend(st.mailbox, Ordinary(m));
    case Answer(id, body) => OrdinariesAppend(st.mailbox, Response(id, body));
    case Return => OrderReturn(st);
    case Take => OrderTake(st);
    case _ => ProgressSame(st, a);
  }

  /** Nothing else starts or ends the handling of the front of the stash. */
  lemma ProgressSame(st: State, a: Action)
    requires StackInv(st) && Enabled(st, a) && !a.Return? && !a.Take?
    ensures FrontInProgress(Apply(st, a)) == FrontInProgress(st)
  {
    if a.Exit? {
      PopFrame(st);
    }
  }

  lemma OrderReturn(st: State)
    requires StackInv(st) && OrderInv(st) && Enabled(st, Return)
    ensures OrderInv(Apply(st, Return))
  {
    HandlingIsThird(st);
    PopFrame(st);
    if Top(st).Handling? {
      assert st.stack[2] == Top(st);
    }
  }

  lemma OrderTake(st: State)
    requires StackInv(st) && OrderInv(st) && Enabled(st, Take)
    ensures OrderInv(Apply(st, Take))
  {
    if Top(st).Loop? {
      LoopIsOutermost(st);
      hide StackInv, Waits, Follows;
      if FromStash(st) {
        assert st.stash == [st.stash[0]] + st.stash[1..];
        assert st.started + st.stash == (st.started + [st.stash[0]]) + st.stash[1..];
      } else if st.mailbox[0].Ordinary? {
        assert st.started + [] + ([st.mailbox[0].m] + Ordinaries(st.mailbox[1..])) ==
               (st.started + [st.mailbox[0].m]) + [] + Ordinaries(st.mailbox[1..]);
      }
    } else {
      WaitingCounts(st);
      OrderWait(st);
    }
  }

  /** A wait moves ordinary messages from the mailbox to the end of the stash. */
  lemma OrderWait(st: State)
    requires StackInv(st) && OrderInv(st) && Enabled(st, Take) && Top(st).Waiting? && st.mailbox != [] && !FromStash(st)
    ensures OrderInv(Apply(st, Take))
  {
    hide Waits, Follows;
    var st' := Apply(st, Take);
    WaitKeepsProgress(st);
    if st.mailbox[0].Ordinary? {
      assert Stashed(st') == Stashed(st) + [st.mailbox[0].m];
    }
  }

  lemma WaitKeepsProgress(st: State)
    requires StackInv(st) && Enabled(st, Take) && Top(st).Waiting? && st.mailbox != [] && !FromStash(st)
    ensures FrontInProgress(Apply(st, Take)) == FrontInProgress(st)
  {
    hide Waits, Follows;
  }

  // ---------------------------------------------------------------- responses

  lemma MailTail(mailbox: seq<Mail>)
    requires mailbox != []
    ensures multiset(mailbox) == multiset{mailbox[0]} + multiset(mailbox[1..])
    ensures forall m :: m in mailbox[1..] ==> m in mailbox
  {
    assert mailbox == [mailbox[0]] + mailbox[1..];
  }

  lemma ResponseStep(st: State, a: Action)
    requires StackInv(st) && ResponseInv(st) && FateInv(st) && Enabled(st, a)
    ensures ResponseInv(Apply(st, a))
  {
    match a
    case Answer(id, body) => AnswerKeeps(st, id, body);
    case Take => ResponseTake(st);
    case OnReply(id) => ResponseOnReply(st, id);
    case Destroy(id) => ResponseDestroy(st, id);
    case Return => ResponseReturn(st);
    case _ => ResponseOther(st, a);
  }

  lemma RepliedIsNotLive(st: State)
    requires FateInv(st) && Top(st).Replying?
    ensures Top(st).id !in st.live
  {
    hide Handled;
    assert st.stack[|st.stack| - 1].Replying?;
  }

  lemma ResponseReturn(st: State)
    requires StackInv(st) && ResponseInv(st) && FateInv(st) && Enabled(st, Return)
    ensures ResponseInv(Apply(st, Return))
  {
    if Top(st).Replying? {
      RepliedIsNotLive(st);
    }
    hide StackInv, FateInv, ResponseInv;
    ReturnKeepsStored(st);
    var st' := Apply(st, Return);
    hide Stored, Enabled;
    ResponseFrame(st, st');
  }

  /** A handler that returns may erase its own entry, which nobody can ask for any more. */
  lemma ReturnKeepsStored(st: State)
    requires Enabled(st, Return) && (Top(st).Replying? ==> Top(st).id !in st.live)
    ensures forall id: ReqId, b: Body :: Stored(Apply(st, Return), id, b) == Stored(st, id, b)
  {
    var st' := Apply(st, Return);
    assert st'.live == st.live;
    assert forall id :: id in st.live ==> (id in st'.unfinished <==> id in st.unfinished);
  }

  lemma ResponseOther(st: State, a: Action)
    requires ResponseInv(st) && Enabled(st, a)
    requires !a.Answer? && !a.Take? && !a.OnReply? && !a.Destroy? && !a.Return?
    ensures ResponseInv(Apply(st, a))
  {
    hide ResponseInv;
    ResponseFrame(st, Apply(st, a));
  }

  /** A response is stored for a request handler that was not asked yet. */
  predicate Stored(st: State, id: ReqId, b: Body) {
    id in st.live && id in st.unfinished && st.unfinished[id] == Some(b)
  }

  lemma ResponseFrame(st: State, st': State)
    requires ResponseInv(st)
    requires st'.answered == st.answered && st'.handled == st.handled && st'.dropped == st.dropped
    requires st'.mailbox == st.mailbox || exists m :: st'.mailbox == st.mailbox + [Ordinary(m)]
    requires st'.nextId >= st.nextId
    requires forall id: ReqId, b: Body :: id < st.nextId ==> Stored(st', id, b) == Stored(st, id, b)
    requires forall id :: id in st'.unfinished && st'.unfinished[id].Some? ==>
                          id in st.unfinished && st'.unfinished[id] == st.unfinished[id]
    ensures ResponseInv(st')
  {
    forall id | id in st'.answered
      ensures Places(st', id) == 1
    {
      assert Places(st, id) == 1;
      assert Stored(st', id, st.answered[id]) == Stored(st, id, st.answered[id]);
    }
  }

  lemma ResponseDestroy(st: State, id: ReqId)
    requires ResponseInv(st) && FateInv(st) && Enabled(st, Destroy(id))
    ensures ResponseInv(Apply(st, Destroy(id)))
  {
    var st' := Apply(st, Destroy(id));
    forall k | k in st'.answered
      ensures Places(st', k) == 1
    {
      assert Places(st, k) == 1;
    }
  }

  lemma AnswerKeeps(st: State, id: ReqId, body: Body)
    requires ResponseInv(st) && FateInv(st) && Enabled(st, Answer(id, body))
    ensures ResponseInv(Apply(st, Answer(id, body)))
  {
    hide FateInv;
    var st' := Apply(st, Answer(id, body));
    forall k | k in st'.answered
      ensures Places(st', k) == 1
    {
      if k == id {
        assert Response(id, body) !in st.mailbox && (id, body) !in st.handled && id !in st.dropped;
      } else {
        assert Places(st, k) == 1;
      }
    }
  }

  lemma ResponseOnReply(st: State, id: ReqId)
    requires ResponseInv(st) && FateInv(st) && Enabled(st, OnReply(id))
    ensures ResponseInv(Apply(st, OnReply(id)))
  {
    assert id in st.unfinished && !Handled(st, id);
    hide FateInv;
    if st.unfinished[id].Some? {
      ResponseHandedOver(st, id, st.unfinished[id].value);
    } else {
      ResponseAwaited(st, id);
    }
  }

  lemma ResponseHandedOver(st: State, id: ReqId, b: Body)
    requires ResponseInv(st) && Stored(st, id, b) && !Handled(st, id)
    ensures ResponseInv(CallOnReply(st, id))
  {
    var st' := CallOnReply(st, id);
    forall k | k in st'.answered
      ensures Places(st', k) == 1
    {
      assert Places(st, k) == 1;
    }
  }

  lemma ResponseAwaited(st: State, id: ReqId)
    requires ResponseInv(st) && id in st.unfinished && st.unfinished[id].None?
    ensures ResponseInv(CallOnReply(st, id))
  {
    var st' := CallOnReply(st, id);
    forall k | k in st'.answered
      ensures Places(st', k) == 1
    {
      assert Places(st, k) == 1;
    }
  }

  /** A response taken from the mailbox was in no other place. */
  lemma TakenWasOnlyThere(st: State)
    requires ResponseInv(st) && st.mailbox != [] && st.mailbox[0].Response?
    ensures var id, b := st.mailbox[0].id, st.mailbox[0].body;
            && AnsweredWith(st, id, b) && Response(id, b) !in st.mailbox[1..]
            && (id, b) !in st.handled && id !in st.dropped
            && !(id in st.live && id in st.unfinished && st.unfinished[id] == Some(b))
            && !Handled(st, id) && id < st.nextId
  {
    var id, b := st.mailbox[0].id, st.mailbox[0].body;
    MailTail(st.mailbox);
    assert Response(id, b) in st.mailbox;
    assert Places(st, id) == 1;
  }

  lemma ResponseTake(st: State)
    requires StackInv(st) && ResponseInv(st) && FateInv(st) && Enabled(st, Take)
    ensures ResponseInv(Apply(st, Take))
  {
    hide ResponseInv, FateInv, Ordinaries;
    if Top(st).Waiting? {
      WaitingCounts(st);
    }
    if FromStash(st) {
      ResponseFrame(st, Apply(st, Take));
    } else {
      var st1 := st.(mailbox := st.mailbox[1..]);
      MailTail(st.mailbox);
      match st.mailbox[0]
      case Ordinary(m) =>
        OrdinaryLeaves(st);
        ResponseFrame(st1, Apply(st, Take));
      case Response(id, b) =>
        TakenWasOnlyThere(st);
        if Top(st).Waiting? && id == Top(st).id {
          HandedOver(st, id, b);
        } else {
          StoredOrIgnored(st, id, b);
        }
    }
  }

  lemma OrdinaryLeaves(st: State)
    requires ResponseInv(st) && st.mailbox != [] && st.mailbox[0].Ordinary?
    ensures ResponseInv(st.(mailbox := st.mailbox[1..]))
  {
    MailTail(st.mailbox);
    var st1 := st.(mailbox := st.mailbox[1..]);
    forall k | k in st1.answered
      ensures Places(st1, k) == 1
    {
      assert Places(st, k) == 1;
    }
  }

  lemma HandedOver(st: State, id: ReqId, b: Body)
    requires ResponseInv(st) && st.mailbox != [] && st.mailbox[0] == Response(id, b)
    ensures ResponseInv(st.(mailbox := st.mailbox[1..], stack := st.stack + [Replying(id, false)],
                            handled := st.handled + [(id, b)]))
  {
    MailTail(st.mailbox);
    TakenWasOnlyThere(st);
    var st' := st.(mailbox := st.mailbox[1..], stack := st.stack + [Replying(id, false)], handled := st.handled + [(id, b)]);
    forall k | k in st'.answered
      ensures Places(st', k) == 1
    {
      assert Places(st, k) == 1;
    }
  }

  lemma StoredOrIgnored(st: State, id: ReqId, b: Body)
    requires ResponseInv(st) && FateInv(st) && st.mailbox != [] && st.mailbox[0] == Response(id, b)
    ensures ResponseInv(StoreResponse(st.(mailbox := st.mailbox[1..]), id, b))
  {
    TakenWasOnlyThere(st);
    assert id in st.unfinished ==> id in st.live;
    hide FateInv, Handled, ResponseInv;
    if id in st.unfinished {
      ResponseKept(st, id, b);
    } else {
      ResponseIgnored(st, id, b);
    }
  }

  lemma ResponseKept(st: State, id: ReqId, b: Body)
    requires ResponseInv(st) && st.mailbox != [] && st.mailbox[0] == Response(id, b)
    requires id in st.live && id in st.unfinished && !Stored(st, id, b)
    ensures ResponseInv(StoreResponse(st.(mailbox := st.mailbox[1..]), id, b))
  {
    MailTail(st.mailbox);
    assert Response(id, b) in st.mailbox;
    var st' := StoreResponse(st.(mailbox := st.mailbox[1..]), id, b);
    forall k | k in st'.answered
      ensures Places(st', k) == 1
    {
      assert Places(st, k) == 1;
    }
  }

  lemma ResponseIgnored(st: State, id: ReqId, b: Body)
    requires ResponseInv(st) && st.mailbox != [] && st.mailbox[0] == Response(id, b)
    requires id !in st.unfinished && id !in st.dropped
    ensures ResponseInv(StoreResponse(st.(mailbox := st.mailbox[1..]), id, b))
  {
    MailTail(st.mailbox);
    assert Response(id, b) in st.mailbox;
    var st' := StoreResponse(st.(mailbox := st.mailbox[1..]), id, b);
    forall k | k in st'.answered
      ensures Places(st', k) == 1
    {
      assert Places(st, k) == 1;
    }
  }

  // ---------------------------------------------------------------- fates

  lemma FateStep(st: State, a: Action)
    requires StackInv(st) && ResponseInv(st) && FateInv(st) && Enabled(st, a)
    ensures FateInv(Apply(st, a))
  {
    match a
    case OnReply(id) => FateOnReply(st, id);
    case Take => FateTake(st);
    case Return => FateReturn(st);
    case Exit => FateExit(st);
    case Request => FateRequest(st);
    case Destroy(id) => FateDestroy(st, id);
    case Answer(_, _) =>
    case Arrive(_) =>
    case _ => FateActivity(st, a);
  }

  lemma FateExit(st: State)
    requires StackInv(st) && FateInv(st) && Enabled(st, Exit)
    ensures FateInv(Apply(st, Exit))
  {
    PopFrame(st);
    if Top(st).Waiting? {
      assert st.stack[|st.stack| - 1].Waiting?;
      assert Follows(st.stack[|st.stack| - 2], st.stack[|st.stack| - 1]);
    } else {
      LoopIsOutermost(st);
    }
  }

  lemma FateRequest(st: State)
    requires StackInv(st) && ResponseInv(st) && FateInv(st) && Enabled(st, Request)
    ensures FateInv(Apply(st, Request))
  {
    assert !Handled(st, st.nextId);
  }

  lemma FateDestroy(st: State, id: ReqId)
    requires StackInv(st) && ResponseInv(st) && FateInv(st) && Enabled(st, Destroy(id))
    ensures FateInv(Apply(st, Destroy(id)))
  {
    var st' := Apply(st, Destroy(id));
    assert forall k :: Handled(st', k) <==> Handled(st, k);
    assert Awaited(st') == Awaited(st);
    DestroyedEntry(st, id);
    hide Handled, StackInv, ResponseInv, Awaited, Enabled;
  }

  lemma DestroyedEntry(st: State, id: ReqId)
    requires FateInv(st) && id in st.live
    ensures Awaited(st) != Some(id) && !Handled(st, id) && id in st.unfinished && id < st.nextId
  {
    hide Handled;
  }

  lemma FateActivity(st: State, a: Action)
    requires FateInv(st) && Enabled(st, a) && (a.Activate? || a.Deactivate? || a.StartLoop?)
    ensures FateInv(Apply(st, a))
  {
    assert forall id :: Handled(Apply(st, a), id) <==> Handled(st, id);
    hide Handled;
  }

  lemma FateOnReply(st: State, id: ReqId)
    requires StackInv(st) && ResponseInv(st) && FateInv(st) && Enabled(st, OnReply(id))
    ensures FateInv(Apply(st, OnReply(id)))
  {
    if st.unfinished[id].Some? {
      FateStoredReply(st, id, st.unfinished[id].value);
    } else {
      FateWait(st, id);
    }
  }

  lemma FateStoredReply(st: State, id: ReqId, b: Body)
    requires FateInv(st) && UserCode(Top(st)) && id in st.live && st.unfinished[id] == Some(b)
    ensures FateInv(CallOnReply(st, id))
  {
    var st' := CallOnReply(st, id);
    HandledAfter(st, st', id, b);
    assert RepliesRun(st') by {
      hide Handled;
    }
    hide Handled, RepliesRun;
  }

  lemma FateWait(st: State, id: ReqId)
    requires FateInv(st) && UserCode(Top(st)) && id in st.live && st.unfinished[id].None?
    ensures FateInv(CallOnReply(st, id))
  {
    var st' := CallOnReply(st, id);
    assert forall k :: Handled(st', k) <==> Handled(st, k);
    assert RepliesRun(st') by {
      hide Handled;
    }
    hide Handled, RepliesRun;
  }

  /** A step that hands nothing over and awaits nothing before or after. */
  lemma FateFrame(st: State, st': State)
    requires FateInv(st) && RepliesRun(st') && Awaited(st).None? && Awaited(st').None?
    requires st' == st.(stack := st'.stack, stash := st'.stash, unfinished := st'.unfinished, activated := st'.activated)
    requires forall id :: id in st'.unfinished ==> id in st.unfinished
    requires forall id :: id in st.live ==> id in st'.unfinished
    ensures FateInv(st')
  {
    assert forall id :: Handled(st', id) <==> Handled(st, id);
    hide Handled, RepliesRun;
  }

  lemma RepliesReturn(st: State)
    requires StackInv(st) && RepliesRun(st) && Enabled(st, Return)
    ensures RepliesRun(Apply(st, Return)) && Awaited(Apply(st, Return)).None?
  {
    var st' := Apply(st, Return);
    var n := |st.stack|;
    assert Follows(st.stack[n - 2], st.stack[n - 1]);
    assert st.stack[n - 1] == Top(st);
    assert forall id :: Handled(st', id) <==> Handled(st, id);
    hide Handled, StackInv, Waits;
    assert Top(st') == st.stack[n - 2];
  }

  lemma FateReturn(st: State)
    requires StackInv(st) && FateInv(st) && Enabled(st, Return)
    ensures FateInv(Apply(st, Return))
  {
    RepliesReturn(st);
    if Top(st).Replying? {
      RepliedIsNotLive(st);
    }
    assert forall id :: id in st.live ==> id in st.unfinished;
    hide StackInv, RepliesRun, FateInv, Waits;
    FateFrame(st, Apply(st, Return));
  }

  lemma FateTake(st: State)
    requires StackInv(st) && ResponseInv(st) && FateInv(st) && Enabled(st, Take)
    ensures FateInv(Apply(st, Take))
  {
    hide ResponseInv, RepliesRun, Handled, Ordinaries, Waits;
    if Top(st).Waiting? {
      WaitingCounts(st);
    }
    if FromStash(st) {
      FateOrdinary(st, Apply(st, Take));
    } else if st.mailbox[0].Ordinary? {
      FateOrdinary(st, Apply(st, Take));
    } else {
      var id, b := st.mailbox[0].id, st.mailbox[0].body;
      TakenWasOnlyThere(st);
      if Top(st).Waiting? && id == Top(st).id {
        FateHanded(st, id, b);
      } else {
        FateStored(st, id, b);
      }
    }
  }

  lemma FateOrdinary(st: State, st': State)
    requires StackInv(st) && FateInv(st) && st.activated
    requires st'.stack == st.stack || (Top(st).Loop? && exists m, s :: st'.stack == st.stack + [Handling(m, s)])
    requires st' == st.(stack := st'.stack, mailbox := st'.mailbox, stash := st'.stash, started := st'.started)
    ensures FateInv(st')
  {
    assert forall id :: Handled(st', id) <==> Handled(st, id);
    assert Awaited(st') == Awaited(st);
    hide Handled, StackInv, Follows, Waits;
    if st'.stack != st.stack {
      var m, s :| st'.stack == st.stack + [Handling(m, s)];
      PushedRuns(st, st', Handling(m, s));
    }
    hide RepliesRun, Awaited;
  }

  lemma PushedRuns(st: State, st': State, f: Frame)
    requires RepliesRun(st) && Top(st).Loop? && f.Handling? && st'.stack == st.stack + [f]
    requires forall id :: Handled(st', id) <==> Handled(st, id)
    ensures RepliesRun(st')
  {
    hide Handled;
    var n := |st.stack|;
    assert Top(st') == f;
    forall i | 0 <= i <= n
      ensures st'.stack[i].Waiting? || st'.stack[i].Replying? ==> Handled(st', st'.stack[i].id)
    {
      assert i < n ==> st'.stack[i] == st.stack[i];
    }
  }

  /** The awaited response reaches the handler that waits for it. */
  lemma FateHanded(st: State, id: ReqId, b: Body)
    requires FateInv(st) && Awaited(st) == Some(id) && st.mailbox != []
    ensures FateInv(st.(mailbox := st.mailbox[1..], stack := st.stack + [Replying(id, false)],
                        handled := st.handled + [(id, b)]))
  {
    var st' := st.(mailbox := st.mailbox[1..], stack := st.stack + [Replying(id, false)], handled := st.handled + [(id, b)]);
    HandledAfter(st, st', id, b);
    HandedRuns(st, st', id);
    hide Handled, RepliesRun;
  }

  lemma HandedRuns(st: State, st': State, id: ReqId)
    requires RepliesRun(st) && Top(st).Waiting? && Top(st).id == id
    requires st'.stack == st.stack + [Replying(id, false)]
    requires forall k :: Handled(st', k) <==> Handled(st, k) || k == id
    ensures RepliesRun(st')
  {
    hide Handled;
  }

  lemma HandledAfter(st: State, st': State, id: ReqId, b: Body)
    requires st'.handled == st.handled + [(id, b)]
    ensures forall k :: Handled(st', k) <==> Handled(st, k) || k == id
  {
    assert st'.handled[|st.handled|] == (id, b);
    forall k, c | (k, c) in st.handled
      ensures (k, c) in st'.handled
    {
    }
  }

  /** A response nobody awaits is stored, or its handler was destroyed. */
  lemma FateStored(st: State, id: ReqId, b: Body)
    requires FateInv(st) && !Handled(st, id) && id < st.nextId && st.mailbox != []
    requires Awaited(st) != Some(id)
    ensures FateInv(StoreResponse(st.(mailbox := st.mailbox[1..]), id, b))
  {
  }
}
