/** What holds in every reachable state of the wake-up protocol, whatever the interleaving. */
module WakeUpTheorems {
  import opened Words
  import opened RingSlots
  import opened WakeUp
  import opened WakeUpInvariant

  lemma StepKeepsInv(c: Config, st: State, a: Action)
    requires ValidConfig(c) && Inv(c, st) && Enabled(c, st, a)
    ensures Inv(c, Apply(c, st, a))
  {
    match a
    case Sender(s, w) => SenderStepKeepsInv(c, st, s, w);
    case Receive(s) => ReceiveStepKeepsInv(c, st, s);
    case Consume =>
    case Read => ReadStepKeepsInv(c, st);
  }

  lemma SenderStepKeepsInv(c: Config, st: State, s: Id, w: WriterAction)
    requires ValidConfig(c) && Inv(c, st) && Enabled(c, st, Sender(s, w))
    ensures Inv(c, Apply(c, st, Sender(s, w)))
  {
    hide QueueInv, OwnInv;
    ApplyKeepsShape(c, st, Sender(s, w));
    var st' := Apply(c, st, Sender(s, w));
    SlotInRange(c, st.queues[s], st.queues[s].writeIdx);
    WriterKeeps(c, st.queues[s], s in st.active, FocusOn(st, s), w);
    if s == c.own {
      OwnWriterKeeps(c, st.queues[s], FocusOn(st, s), w);
    }
    forall t | t in st'.queues
      ensures QueueInv(c, st'.queues[t], t in st'.active, FocusOn(st', t))
    {
      assert QueueInv(c, st.queues[t], t in st.active, FocusOn(st, t));
      assert FocusOn(st', t) == FocusOn(st, t);
    }
  }

  lemma ReceiveStepKeepsInv(c: Config, st: State, s: Id)
    requires ValidConfig(c) && Inv(c, st) && Enabled(c, st, Receive(s))
    ensures Inv(c, Apply(c, st, Receive(s)))
  {
    hide QueueInv, OwnInv;
    ApplyKeepsShape(c, st, Receive(s));
    var st' := Apply(c, st, Receive(s));
    assert QueueInv(c, st.queues[s], s in st.active, FocusOn(st, s));
    ReceiveKeeps(c, st.queues[s], s in st.active);
    var q := st.queues[s];
    OwnReceiveKeeps(c, q, FocusOn(st, s), q.mail[1..], true);
    OwnReceiveKeeps(c, q, FocusOn(st, s), q.mail[1..], q.registered);
    forall t | t in st'.queues
      ensures QueueInv(c, st'.queues[t], t in st'.active, FocusOn(st', t))
    {
      assert QueueInv(c, st.queues[t], t in st.active, FocusOn(st, t));
    }
  }

  lemma ReadStepKeepsInv(c: Config, st: State)
    requires ValidConfig(c) && Inv(c, st) && Enabled(c, st, Read)
    ensures Inv(c, Apply(c, st, Read))
  {
    hide QueueInv, OwnInv;
    ApplyKeepsShape(c, st, Read);
    match st.reader
    case Visit(i, n) => VisitStepKeepsInv(c, st);
    case At(i, n, f) => AtStepKeepsInv(c, st);
  }

  lemma VisitStepKeepsInv(c: Config, st: State)
    requires ValidConfig(c) && Inv(c, st) && st.reader.Visit? && Shape(c, Apply(c, st, Read))
    ensures Inv(c, Apply(c, st, Read))
  {
    hide QueueInv, OwnInv;
    var i := st.reader.i;
    if i < st.reader.n {
      var s := st.active[i];
      assert QueueInv(c, st.queues[s], true, FocusOn(st, s));
      VisitKeeps(c, st.queues[s]);
      OwnVisitKeeps(c, st.queues[s]);
    }
  }

  lemma AtStepKeepsInv(c: Config, st: State)
    requires ValidConfig(c) && Inv(c, st) && st.reader.At? && Shape(c, Apply(c, st, Read))
    ensures Inv(c, Apply(c, st, Read))
  {
    hide QueueInv, OwnInv;
    var st' := Apply(c, st, Read);
    var s := st.active[st.reader.i];
    SlotInRange(c, st.queues[s], st.queues[s].readIdx);
    assert QueueInv(c, st.queues[s], true, FocusOn(st, s));
    ReadKeeps(c, st.queues[s], st.reader.focus);
    if s == c.own {
      OwnReadKeeps(c, st.queues[s], st.reader.focus);
    }
    SwapRemoveOne(st.active, st.reader.i);
    forall t | t in st'.queues
      ensures QueueInv(c, st'.queues[t], t in st'.active, FocusOn(st', t))
    {
      assert QueueInv(c, st.queues[t], t in st.active, FocusOn(st, t));
    }
  }

  lemma {:induction false} RunKeepsInv(c: Config, st: State, run: seq<Action>)
    requires ValidConfig(c) && Inv(c, st) && Legal(c, st, run)
    ensures Inv(c, After(c, st, run))
    decreases |run|
  {
    if run != [] {
      ApplyKeepsShape(c, st, run[0]);
      StepKeepsInv(c, st, run[0]);
      RunKeepsInv(c, Apply(c, st, run[0]), run[1..]);
    }
  }

  lemma ReachableInv(c: Config, st: State)
    requires ValidConfig(c) && Reachable(c, st)
    ensures Inv(c, st)
  {
    InitInv(c);
    var run :| Legal(c, Init(c), run) && After(c, Init(c), run) == st;
    RunKeepsInv(c, Init(c), run);
  }

  // ---------------------------------------------------------------- first in, first out

  /** The reader is not between the handler and the bump of the read index of this queue. */
  predicate HandlerDone(st: State, s: Id) {
    !(st.reader.At? && st.reader.focus.Bumping? && st.reader.i < |st.active| && st.active[st.reader.i] == s)
  }

  /** Nothing is lost, repeated, reordered or overwritten: what was handled, followed by what the
      slots between the wrapping indices hold, is what was published, and it never exceeds the
      capacity. */
  lemma FirstInFirstOut(c: Config, st: State, s: Id)
    requires ValidConfig(c) && Reachable(c, st) && s in st.queues
    ensures var q := st.queues[s];
            && Sub32(q.writeIdx, q.readIdx) <= |q.items| == Cap(c)
            && q.delivered <= q.log
            && (HandlerDone(st, s) ==> q.log == q.delivered + Window(q.items, q.writeIdx, q.readIdx))
  {
    ReachableInv(c, st);
    assert QueueInv(c, st.queues[s], s in st.active, FocusOn(st, s));
    hide Reachable, Inv, DrainInv, TokenInv, MailInv, QuietInv;
    var r := Popped(st.queues[s], FocusOn(st, s));
    WindowIsTheRest(st.queues[s].items, st.queues[s].log, r, c.scale);
  }

  /** What s was given to push in a run, in order. */
  function Given(run: seq<Action>, s: Id): seq<Message> {
    if run == [] then []
    else (if run[0].Sender? && run[0].s == s && run[0].w.Send? then [run[0].w.x] else []) + Given(run[1..], s)
  }

  /** The item of a push that did not publish it yet. */
  function InHand(w: Writer): seq<Message> {
    match w
    case Loading(x) => [x]
    case Writing(x) => [x]
    case Publishing(x) => [x]
    case _ => []
  }

  lemma GivenStep(c: Config, st: State, a: Action, s: Id)
    requires Shape(c, st) && Enabled(c, st, a) && s in st.queues
    ensures s in Apply(c, st, a).queues
    ensures var q, q' := st.queues[s], Apply(c, st, a).queues[s];
            q'.log + InHand(q'.writer) ==
            q.log + InHand(q.writer) + if a.Sender? && a.s == s && a.w.Send? then [a.w.x] else []
  {
    match a
    case Sender(t, w) =>
      SlotInRange(c, st.queues[t], st.queues[t].writeIdx);
      WriterGiven(st.queues[t], w);
      hide WriterStep;
    case Read => ReadLeavesWriters(c, st, s);
    case _ =>
  }

  lemma WriterGiven(q: Queue, w: WriterAction)
    requires |q.items| > 0 && Slot(q, q.writeIdx) < |q.items| && WriterEnabled(q, w)
    ensures var q' := WriterStep(q, w);
            q'.log + InHand(q'.writer) == q.log + InHand(q.writer) + if w.Send? then [w.x] else []
  {
  }

  lemma ReadLeavesWriters(c: Config, st: State, s: Id)
    requires Shape(c, st) && Enabled(c, st, Read) && s in st.queues
    ensures s in Apply(c, st, Read).queues
    ensures var q, q' := st.queues[s], Apply(c, st, Read).queues[s]; q'.log == q.log && q'.writer == q.writer
  {
    if st.reader.At? {
      var q := st.queues[st.active[st.reader.i]];
      SlotInRange(c, q, q.readIdx);
      var (q', out) := ReadStep(c, q, st.reader.focus);
      assert q'.log == q.log && q'.writer == q.writer;
      hide ReadStep;
    }
  }

  lemma Regroup<T>(a: seq<T>, b: seq<T>, c: seq<T>)
    ensures (a + b) + c == a + (b + c)
  {
  }

  lemma {:induction false} LogIsGiven(c: Config, st: State, run: seq<Action>, s: Id)
    requires Shape(c, st) && Legal(c, st, run) && s in st.queues
    ensures s in After(c, st, run).queues
    ensures var q, q' := st.queues[s], After(c, st, run).queues[s];
            q'.log + InHand(q'.writer) == q.log + InHand(q.writer) + Given(run, s)
    decreases |run|
  {
    if run != [] {
      hide Apply, Enabled, Shape, InHand;
      ApplyKeepsShape(c, st, run[0]);
      GivenStep(c, st, run[0], s);
      LogIsGiven(c, Apply(c, st, run[0]), run[1..], s);
      var q := st.queues[s];
      var one := if run[0].Sender? && run[0].s == s && run[0].w.Send? then [run[0].w.x] else [];
      Regroup(q.log + InHand(q.writer), one, Given(run[1..], s));
    }
  }

  /** Handled, then in the slots, then in the hand of the sender, is what it was given to push, in order. */
  lemma GivenIsHandled(c: Config, run: seq<Action>, s: Id)
    requires ValidConfig(c) && Shape(c, Init(c)) && Legal(c, Init(c), run) && s in c.senders
    ensures var st := After(c, Init(c), run);
            && s in st.queues
            && var q := st.queues[s];
               HandlerDone(st, s) ==>
                 Given(run, s) == q.delivered + Window(q.items, q.writeIdx, q.readIdx) + InHand(q.writer)
  {
    LogIsGiven(c, Init(c), run, s);
    assert Reachable(c, After(c, Init(c), run));
    FirstInFirstOut(c, After(c, Init(c), run), s);
  }

  // ---------------------------------------------------------------- tokens

  /** The flag is true exactly when one token exists, and never two do. */
  lemma FlagCountsTokens(c: Config, st: State, s: Id)
    requires ValidConfig(c) && Reachable(c, st) && s in st.queues
    ensures st.reader.At? ==> st.reader.i < |st.active|
    ensures Tokens(st.queues[s], s in st.active, FocusOn(st, s)) == if st.queues[s].mayHaveMessage then 1 else 0
  {
    ReachableInv(c, st);
  }

  /** No queue is listed twice, every listed queue is registered, and between two handlers exactly one
      Consumption is outstanding if the list is not empty, none otherwise. */
  lemma OneConsumptionOutstanding(c: Config, st: State)
    requires ValidConfig(c) && Reachable(c, st)
    ensures NoRepeats(st.active)
    ensures forall s :: s in st.active ==> s in st.queues && st.queues[s].registered
    ensures st.reader.Idle? ==> st.consumptions == if st.active == [] then 0 else 1
    ensures !st.reader.Idle? ==> st.consumptions == 0
  {
    ReachableInv(c, st);
    forall s | s in st.active
      ensures s in st.queues && st.queues[s].registered
    {
      assert QueueInv(c, st.queues[s], true, FocusOn(st, s));
    }
  }

  /** A Notification at the head of the mail finds its queue registered and not yet listed. */
  lemma NotificationFindsItsQueue(c: Config, st: State, s: Id)
    requires ValidConfig(c) && Reachable(c, st) && st.reader.Idle?
    requires s in st.queues && st.queues[s].mail != [] && st.queues[s].mail[0].Notification?
    ensures st.queues[s].registered && s !in st.active
  {
    ReachableInv(c, st);
    assert QueueInv(c, st.queues[s], s in st.active, FocusOn(st, s));
    ReceiveKeeps(c, st.queues[s], s in st.active);
  }

  // ---------------------------------------------------------------- going to sleep

  /** The step that takes the reader off the list leaves, of the items the final drain saw, exactly
      those beyond the budget. */
  lemma SleepLeavesTheExcess(c: Config, st: State)
    requires ValidConfig(c) && Reachable(c, st)
    requires st.reader.At? && |Apply1(c, st).active| < |st.active|
    ensures var q := st.queues[st.active[st.reader.i]];
            var backlog := q.snapAt - q.snapFrom;
            q.snapAt - |q.delivered| == if backlog > c.budget then backlog - c.budget else 0
  {
    ReachableInv(c, st);
    var s := st.active[st.reader.i];
    var q := st.queues[s];
    assert QueueInv(c, q, true, FocusOn(st, s));
    hide Reachable, Inv, TokenInv, MailInv, QuietInv;
    CapacityBound(c.scale);
    SlotInRange(c, q, q.readIdx);
    if st.reader.focus.Popping? {
      WrappedEquality(Popped(q, FocusOn(st, s)), q.snapAt);
    }
  }

  /** One step of the reader. */
  ghost function Apply1(c: Config, st: State): State {
    if Shape(c, st) && Enabled(c, st, Read) then Apply(c, st, Read) else st
  }

  /** The sender is not between publishing an item and the end of its push; the reader sleeps on this
      queue and no notification is on its way. */
  predicate Unattended(st: State, s: Id)
    requires s in st.queues
  {
    && !st.queues[s].writer.Exchanging? && !st.queues[s].writer.Notifying?
    && s !in st.active
    && Notification !in st.queues[s].mail
  }

  /** With a budget of at least the capacity, an unattended queue is empty. */
  lemma NoLostWakeUp(c: Config, st: State, s: Id)
    requires ValidConfig(c) && c.budget >= Cap(c)
    requires Reachable(c, st) && s in st.queues && Unattended(st, s)
    ensures st.queues[s].delivered == st.queues[s].log
    ensures st.queues[s].writeIdx == st.queues[s].readIdx
  {
    ReachableInv(c, st);
    assert QueueInv(c, st.queues[s], false, FocusOn(st, s));
  }

  /** The queue of the reader to itself never loses a wake-up, whatever its capacity, as long as the
      budget is positive. */
  lemma OwnQueueNeverStrands(c: Config, st: State)
    requires ValidConfig(c) && c.budget > 0
    requires Reachable(c, st) && c.own in st.queues && Unattended(st, c.own)
    ensures st.queues[c.own].delivered == st.queues[c.own].log
  {
    ReachableInv(c, st);
    assert QueueInv(c, st.queues[c.own], false, FocusOn(st, c.own));
  }

  /** The sender is about to load the read index, and the ring is full. */
  predicate Blocked(c: Config, q: Queue) {
    q.writer.Loading? && Sub32(q.writeIdx, Cap(c)) == q.readIdx
  }

  /** A sender that waits for room has the reader's attention, or a notification on its way to it, as long
      as a drain takes anything at all. */
  lemma BlockedWriterIsAttended(c: Config, st: State, s: Id)
    requires ValidConfig(c) && c.budget > 0
    requires Reachable(c, st) && s in st.queues && Blocked(c, st.queues[s])
    ensures s in st.active || Notification in st.queues[s].mail
  {
    ReachableInv(c, st);
    var q, f := st.queues[s], FocusOn(st, s);
    assert QueueInv(c, q, s in st.active, f);
    FullTest(Popped(q, f), |q.log|, c.scale);
  }
}
