/**
 A budget below the capacity strands items of another sender: the run that does it, for every such
 configuration. The sender fills the queue after the last empty read and before the flag is stored; the
 final drain takes `budget` items and the reader sleeps on the others.
 */
module Stranding {
  import opened Words
  import opened RingSlots
  import opened WakeUp
  import opened WakeUpInvariant
  import opened WakeUpTheorems

  // ---------------------------------------------------------------- extending a run

  lemma {:induction false} RunAppend(c: Config, st: State, run: seq<Action>, a: Action)
    requires Shape(c, st) && Legal(c, st, run) && Enabled(c, After(c, st, run), a)
    ensures Legal(c, st, run + [a]) && After(c, st, run + [a]) == Apply(c, After(c, st, run), a)
    decreases |run|
  {
    if run == [] {
      assert run + [a] == [a];
      ApplyKeepsShape(c, st, a);
      assert Legal(c, Apply(c, st, a), []);
    } else {
      ApplyKeepsShape(c, st, run[0]);
      RunAppend(c, Apply(c, st, run[0]), run[1..], a);
      assert (run + [a])[1..] == run[1..] + [a];
    }
  }

  lemma Extend(c: Config, st: State, a: Action) returns (st': State)
    requires ValidConfig(c) && Reachable(c, st) && Shape(c, st) && Enabled(c, st, a)
    ensures st' == Apply(c, st, a) && Reachable(c, st') && Shape(c, st')
  {
    var run :| Legal(c, Init(c), run) && After(c, Init(c), run) == st;
    RunAppend(c, Init(c), run, a);
    st' := Apply(c, st, a);
    ApplyKeepsShape(c, st, a);
  }

  lemma Writes(c: Config, st: State, s: Id, w: WriterAction) returns (st': State)
    requires ValidConfig(c) && Reachable(c, st) && Shape(c, st)
    requires s in st.queues && WriterEnabled(st.queues[s], w) && (s == c.own ==> HandlersRun(st))
    ensures Reachable(c, st') && Shape(c, st')
    ensures |st.queues[s].items| > 0 && Slot(st.queues[s], st.queues[s].writeIdx) < |st.queues[s].items|
    ensures st' == st.(queues := st.queues[s := WriterStep(st.queues[s], w)])
  {
    SlotInRange(c, st.queues[s], st.queues[s].writeIdx);
    st' := Extend(c, st, Sender(s, w));
  }

  /** The reader's step inside the only listed queue. */
  lemma Reads(c: Config, st: State, s: Id) returns (st': State, q': Queue, out: Outcome)
    requires ValidConfig(c) && Reachable(c, st) && Shape(c, st)
    requires st.active == [s] && st.reader.At?
    ensures Reachable(c, st') && Shape(c, st') && s in st.queues
    ensures |st.queues[s].items| > 0 && Slot(st.queues[s], st.queues[s].readIdx) < |st.queues[s].items|
    ensures (q', out) == ReadStep(c, st.queues[s], st.reader.focus)
    ensures st'.queues == st.queues[s := q']
    ensures st'.consumptions == st.consumptions
    ensures st'.active == if out.Remove? then [] else [s]
    ensures st'.reader == match out { case Stay(f) => At(0, 1, f) case Next => Visit(1, 1) case Remove => Visit(0, 0) }
  {
    SlotInRange(c, st.queues[s], st.queues[s].readIdx);
    var r := ReadStep(c, st.queues[s], st.reader.focus);
    q', out := r.0, r.1;
    st' := Extend(c, st, Read);
  }

  /** Where the drain stands, in unwrapped numbers. */
  lemma DrainFacts(c: Config, st: State, s: Id)
    requires ValidConfig(c) && Reachable(c, st) && st.active == [s] && st.reader.At? && st.reader.focus.Popping?
    ensures Shape(c, st) && s in st.queues
    ensures var q := st.queues[s];
            && |q.delivered| == q.snapFrom + st.reader.focus.count
            && |q.delivered| <= q.snapAt
            && (q.readIdx == st.reader.focus.snap <==> |q.delivered| == q.snapAt)
  {
    ReachableInv(c, st);
    var q := st.queues[s];
    assert QueueInv(c, q, true, FocusOn(st, s));
    CapacityBound(c.scale);
    WrappedEquality(|q.delivered|, q.snapAt);
  }

  lemma RoomFacts(c: Config, st: State, s: Id)
    requires ValidConfig(c) && Reachable(c, st) && s in st.queues && HandlerDone(st, s)
    ensures var q := st.queues[s];
            && Shape(c, st)
            && |q.items| == Cap(c)
            && |q.log| <= |q.delivered| + Cap(c)
            && |q.delivered| <= |q.log|
            && (Sub32(q.writeIdx, Cap(c)) == q.readIdx <==> |q.log| == |q.delivered| + Cap(c))
  {
    ReachableInv(c, st);
    var q := st.queues[s];
    assert QueueInv(c, q, s in st.active, FocusOn(st, s));
    FullTest(|q.delivered|, |q.log|, c.scale);
  }

  // ---------------------------------------------------------------- only `s` does anything

  ghost predicate Lone(c: Config, st: State, s: Id) {
    && ValidConfig(c) && Reachable(c, st) && Shape(c, st) && s in st.queues
    && st.queues[s].connected && st.queues[s].registered && st.queues[s].writer.Ready?
    && (forall t :: t in st.queues && t != s ==> st.queues[t] == EmptyQueue(c, t == c.own))
  }

  /** The reader attends to `s`; nothing is in flight. */
  ghost predicate Attended(c: Config, st: State, s: Id) {
    && Lone(c, st, s)
    && st.active == [s] && st.queues[s].mail == [] && st.queues[s].mayHaveMessage
  }

  function Left(q: Queue): int {
    |q.log| - |q.delivered|
  }

  lemma Started(c: Config, s: Id) returns (st: State)
    requires ValidConfig(c) && s in c.senders
    ensures Lone(c, st, s) && st.active == [] && st.reader.Idle? && st.consumptions == 0
    ensures var q := st.queues[s]; q.mail == [] && !q.mayHaveMessage && q.log == [] && q.delivered == [] && q.numEmpty == 0
  {
    st := Init(c);
    InitInv(c);
    assert Legal(c, st, []) && After(c, st, []) == st;
    if s != c.own {
      st := Extend(c, st, Sender(s, Connect));
      st := Extend(c, st, Receive(s));
    }
  }

  /** A push into a queue with room, up to the exchange of the flag. */
  lemma Pushed(c: Config, st: State, s: Id, x: Message) returns (st': State)
    requires Lone(c, st, s) && !(st.reader.At? && st.reader.focus.Bumping?) && Left(st.queues[s]) < Cap(c)
    requires s == c.own ==> st.reader.Idle?
    ensures ValidConfig(c) && Reachable(c, st') && Shape(c, st')
    ensures s in st'.queues && st'.queues == st.queues[s := st'.queues[s]]
    ensures st' == st.(queues := st'.queues)
    ensures var q, q' := st.queues[s], st'.queues[s];
            && q'.log == q.log + [x] && q'.delivered == q.delivered && q'.numEmpty == q.numEmpty
            && q'.mail == q.mail && q'.connected && q'.registered && q'.mayHaveMessage
            && q'.writer == if q.mayHaveMessage then Ready else Notifying
  {
    hide Reachable;
    RoomFacts(c, st, s);
    var q := st.queues[s];
    var s1 := Writes(c, st, s, Send(x));
    var q1 := q.(writer := Loading(x));
    assert s1 == st.(queues := st.queues[s := q1]);
    var s2 := Writes(c, s1, s, LoadIndex);
    var q2 := q.(writer := Writing(x));
    assert s2 == st.(queues := st.queues[s := q2]);
    st' := Written(c, st, s2, s, x);
  }

  lemma Written(c: Config, st: State, st2: State, s: Id, x: Message) returns (st': State)
    requires ValidConfig(c) && s in st.queues && Reachable(c, st2) && Shape(c, st2)
    requires st2 == st.(queues := st.queues[s := st.queues[s].(writer := Writing(x))])
    requires s == c.own ==> HandlersRun(st)
    ensures Reachable(c, st') && Shape(c, st')
    ensures s in st'.queues && st'.queues == st.queues[s := st'.queues[s]]
    ensures st' == st.(queues := st'.queues)
    ensures var q, q' := st.queues[s], st'.queues[s];
            && q' == q.(items := q'.items, writeIdx := q'.writeIdx, log := q.log + [x], mayHaveMessage := true,
                        writer := if q.mayHaveMessage then Ready else Notifying)
  {
    hide Reachable;
    var s4 := Published(c, st, st2, s, x);
    st' := Exchanged(c, s4, s);
  }

  lemma Published(c: Config, st: State, st2: State, s: Id, x: Message) returns (st': State)
    requires ValidConfig(c) && s in st.queues && Reachable(c, st2) && Shape(c, st2)
    requires st2 == st.(queues := st.queues[s := st.queues[s].(writer := Writing(x))])
    requires s == c.own ==> HandlersRun(st)
    ensures Reachable(c, st') && Shape(c, st')
    ensures s in st'.queues && st' == st.(queues := st.queues[s := st'.queues[s]])
    ensures var q, q' := st.queues[s], st'.queues[s];
            q' == q.(items := q'.items, writeIdx := q'.writeIdx, log := q.log + [x], writer := Exchanging)
  {
    hide Reachable, Shape;
    var q := st.queues[s];
    var s3 := Writes(c, st2, s, WriteSlot);
    var q3 := s3.queues[s];
    assert q3 == q.(items := q3.items, writer := Publishing(x));
    st' := Writes(c, s3, s, Publish);
  }

  lemma Exchanged(c: Config, st: State, s: Id) returns (st': State)
    requires ValidConfig(c) && s in st.queues && Reachable(c, st) && Shape(c, st) && st.queues[s].writer.Exchanging?
    requires s == c.own ==> HandlersRun(st)
    ensures Reachable(c, st') && Shape(c, st')
    ensures st' == st.(queues := st.queues[s := st.queues[s].(mayHaveMessage := true,
                         writer := if st.queues[s].mayHaveMessage then Ready else Notifying)])
  {
    hide Reachable;
    st' := Writes(c, st, s, Exchange);
  }

  lemma {:induction false} Filled(c: Config, st: State, s: Id) returns (st': State)
    requires Attended(c, st, s) && Left(st.queues[s]) <= Cap(c)
    requires st.reader.Idle? || (st.reader.At? && st.reader.focus.Storing? && s != c.own)
    ensures Attended(c, st', s) && st'.reader == st.reader && st'.consumptions == st.consumptions
    ensures Left(st'.queues[s]) == Cap(c)
    decreases Cap(c) - Left(st.queues[s])
  {
    if Left(st.queues[s]) == Cap(c) {
      st' := st;
    } else {
      st' := Pushed(c, st, s, 0);
      st' := Filled(c, st', s);
    }
  }

  /** The first message wakes the reader, which drains it if the budget allows. */
  lemma Woken(c: Config, s: Id) returns (st: State)
    requires ValidConfig(c) && s in c.senders
    ensures Attended(c, st, s) && st.reader.Idle? && st.consumptions == 1
    ensures Left(st.queues[s]) == 1 && st.queues[s].numEmpty == 0
  {
    var s0 := Started(c, s);
    var s1 := Pushed(c, s0, s, 0);
    st := Noticed(c, s1, s);
  }

  lemma Noticed(c: Config, st: State, s: Id) returns (st': State)
    requires ValidConfig(c) && Reachable(c, st) && Shape(c, st) && s in st.queues
    requires st.queues[s].writer.Notifying? && st.queues[s].mail == [] && st.reader.Idle? && st.active == []
    ensures Reachable(c, st') && Shape(c, st')
    ensures st' == st.(queues := st.queues[s := st.queues[s].(writer := Ready)], active := [s],
                       consumptions := st.consumptions + 1)
  {
    hide Reachable;
    var s2 := Writes(c, st, s, Notify);
    var q2 := s2.queues[s];
    assert q2 == st.queues[s].(mail := [Notification], writer := Ready);
    st' := Extend(c, s2, Receive(s));
    assert st'.queues == st.queues[s := q2.(mail := [])];
  }

  lemma Snapped(c: Config, st: State, s: Id) returns (st': State)
    requires Attended(c, st, s) && st.reader.Idle? && st.consumptions == 1
    ensures Attended(c, st', s) && st'.consumptions == 0
    ensures st'.reader == At(0, 1, Popping(st'.queues[s].writeIdx, 0, false))
    ensures st'.queues[s] == Visited(st.queues[s])
  {
    var s1 := Extend(c, st, Consume);
    st' := Extend(c, s1, Read);
  }

  /** One item handled and its slot given back. */
  lemma Popped1(c: Config, st: State, s: Id) returns (st': State)
    requires Lone(c, st, s) && st.active == [s] && st.reader.At? && st.reader.i == 0 && st.reader.n == 1
    requires st.reader.focus.Popping? && st.reader.focus.count < c.budget
    requires |st.queues[s].delivered| < st.queues[s].snapAt
    ensures Lone(c, st', s)
    ensures var q, q', f := st.queues[s], st'.queues[s], st.reader.focus;
            && st' == st.(queues := st'.queues, reader := At(0, 1, Popping(f.snap, f.count + 1, f.final)))
            && q' == q.(delivered := q'.delivered, readIdx := q'.readIdx)
            && |q'.delivered| == |q.delivered| + 1
  {
    hide Reachable;
    DrainFacts(c, st, s);
    var s1, q1, out1 := Reads(c, st, s);
    var q2, out2;
    st', q2, out2 := Reads(c, s1, s);
    assert st'.queues == st.queues[s := q2];
  }

  lemma {:induction false} Drained(c: Config, st: State, s: Id) returns (st': State)
    requires Lone(c, st, s) && st.active == [s] && st.reader.At? && st.reader.i == 0 && st.reader.n == 1
    requires st.reader.focus.Popping? && st.reader.focus.count <= c.budget
    requires c.budget <= st.queues[s].snapAt - st.queues[s].snapFrom
    ensures Lone(c, st', s)
    ensures var q, q', f := st.queues[s], st'.queues[s], st.reader.focus;
            && st' == st.(queues := st'.queues, reader := At(0, 1, Popping(f.snap, c.budget, f.final)))
            && q' == q.(delivered := q'.delivered, readIdx := q'.readIdx)
            && |q'.delivered| == |q.delivered| + c.budget - f.count
    decreases c.budget - st.reader.focus.count
  {
    if st.reader.focus.count == c.budget {
      st' := st;
    } else {
      DrainFacts(c, st, s);
      st' := Popped1(c, st, s);
      st' := Drained(c, st', s);
    }
  }

  /** Nothing to read: the backlog is empty, or the budget is zero. */
  ghost predicate Starved(c: Config, q: Queue) {
    Left(q) == 0 || c.budget == 0
  }

  /** After the first drain the reader finds nothing to read. */
  lemma FirstDrain(c: Config, s: Id) returns (st: State)
    requires ValidConfig(c) && s in c.senders
    ensures Attended(c, st, s) && st.reader.Idle? && st.consumptions == 1
    ensures Starved(c, st.queues[s]) && Left(st.queues[s]) <= 1 && st.queues[s].numEmpty == 0
  {
    st := Woken(c, s);
    if c.budget > 0 {
      st := DrainedFirst(c, st, s);
    }
  }

  lemma DrainedFirst(c: Config, st: State, s: Id) returns (st': State)
    requires Attended(c, st, s) && st.reader.Idle? && st.consumptions == 1
    requires Left(st.queues[s]) == 1 && c.budget > 0
    ensures Attended(c, st', s) && st'.reader.Idle? && st'.consumptions == 1
    ensures Left(st'.queues[s]) == 0 && st'.queues[s].numEmpty == 0
  {
    hide Reachable, Shape;
    var s1 := Snapped(c, st, s);
    var s2 := Popped1(c, s1, s);
    DrainFacts(c, s2, s);
    var s3, q3, out := Reads(c, s2, s);
    st' := Extend(c, s3, Read);
  }

  /** One empty read: the last allowed one ends with the reader about to store false. */
  lemma EmptyRead(c: Config, st: State, s: Id) returns (st': State)
    requires Attended(c, st, s) && st.reader.Idle? && st.consumptions == 1
    requires Starved(c, st.queues[s])
    ensures Attended(c, st', s) && Left(st'.queues[s]) == Left(st.queues[s])
    ensures var n := Add32(st.queues[s].numEmpty, 1);
            if n == c.maxEmpty then st'.reader == At(0, 1, Storing) && st'.consumptions == 0
            else st'.reader.Idle? && st'.consumptions == 1 && st'.queues[s].numEmpty == n
  {
    hide Reachable;
    var s1 := Snapped(c, st, s);
    DrainFacts(c, s1, s);
    RoomFacts(c, st, s);
    var q, out;
    st', q, out := Reads(c, s1, s);
    if Add32(st.queues[s].numEmpty, 1) != c.maxEmpty {
      st' := Extend(c, st', Read);
    }
  }

  /** Empty reads up to the last one bring the reader to the point where it stores false. */
  lemma {:induction false} AboutToStore(c: Config, st: State, s: Id) returns (st': State)
    requires Attended(c, st, s) && st.reader.Idle? && st.consumptions == 1
    requires Starved(c, st.queues[s])
    ensures Attended(c, st', s) && st'.reader == At(0, 1, Storing) && st'.consumptions == 0
    ensures Left(st'.queues[s]) == Left(st.queues[s])
    decreases Sub32(c.maxEmpty, st.queues[s].numEmpty + 1)
  {
    hide Attended, Left;
    st' := EmptyRead(c, st, s);
    InQueues(c, st, s);
    if Add32(st.queues[s].numEmpty, 1) != c.maxEmpty {
      InQueues(c, st', s);
      st' := AboutToStore(c, st', s);
    }
  }

  lemma InQueues(c: Config, st: State, s: Id)
    requires Attended(c, st, s)
    ensures s in st.queues
  {
  }

  /** The reader sleeps, nothing is on its way anywhere, and `left` items are left. */
  ghost predicate Stranded(c: Config, st: State, s: Id, left: int) {
    && Reachable(c, st) && s in st.queues && Unattended(st, s)
    && st.reader.Idle? && st.consumptions == 0 && st.active == []
    && (forall t :: t in st.queues ==> st.queues[t].mail == [] && st.queues[t].writer.Ready?)
    && st.queues[s].connected && Left(st.queues[s]) == left
  }

  /** Another sender fills its queue after the last empty read. */
  lemma StrandingRun(c: Config, s: Id) returns (st: State)
    requires ValidConfig(c) && s in c.senders && s != c.own && c.budget < Cap(c)
    ensures Stranded(c, st, s, Cap(c) - c.budget)
  {
    st := FirstDrain(c, s);
    st := AboutToStore(c, st, s);
    st := Filled(c, st, s);
    st := FinalDrain(c, st, s);
  }

  /** With a budget of zero nothing is ever drained, not even from the reader itself. */
  lemma ZeroBudgetRun(c: Config, s: Id) returns (st: State)
    requires ValidConfig(c) && s in c.senders && c.budget == 0
    ensures Stranded(c, st, s, 1)
  {
    st := Woken(c, s);
    st := AboutToStore(c, st, s);
    st := FinalDrain(c, st, s);
  }

  lemma FinalDrain(c: Config, st: State, s: Id) returns (st': State)
    requires Attended(c, st, s) && st.reader == At(0, 1, Storing) && st.consumptions == 0
    requires c.budget <= Left(st.queues[s]) <= Cap(c)
    ensures Stranded(c, st', s, Left(st.queues[s]) - c.budget)
  {
    hide Reachable;
    var s1, q1, out1 := Reads(c, st, s);
    var s2, q2, out2 := Reads(c, s1, s);
    assert s2.queues[s] == Snapshot(st.queues[s].(mayHaveMessage := false, sleeps := st.queues[s].sleeps + 1));
    st' := LastDrain(c, s2, s);
  }

  lemma LastDrain(c: Config, st: State, s: Id) returns (st': State)
    requires Lone(c, st, s) && st.active == [s] && st.consumptions == 0
    requires st.reader.At? && st.reader.focus.Popping? && st.reader == At(0, 1, Popping(st.reader.focus.snap, 0, true))
    requires var q := st.queues[s];
             && q.mail == [] && !q.mayHaveMessage && q.snapAt == |q.log| && q.snapFrom == |q.delivered|
             && c.budget <= Left(q) <= Cap(c)
    ensures Stranded(c, st', s, Left(st.queues[s]) - c.budget)
  {
    hide Reachable;
    var s3 := Drained(c, st, s);
    DrainFacts(c, s3, s);
    var s4, q4, out4 := Reads(c, s3, s);
    assert out4.Remove?;
    st' := Extend(c, s4, Read);
  }

  /** When a sleeping reader can be relied on to have emptied the queue of `s`. */
  predicate Suffices(c: Config, s: Id) {
    if s == c.own then c.budget > 0 else c.budget >= Cap(c)
  }

  /** No wake-up of sender s is ever lost, in any run, if and only if one drain can take a full queue;
      for the reader itself, if and only if a drain takes anything at all. */
  lemma NoLostWakeUpExactly(c: Config, s: Id)
    requires ValidConfig(c) && s in c.senders
    ensures (forall st :: Reachable(c, st) && s in st.queues && Unattended(st, s) ==>
               st.queues[s].delivered == st.queues[s].log)
            <==> Suffices(c, s)
  {
    if Suffices(c, s) {
      forall st | Reachable(c, st) && s in st.queues && Unattended(st, s)
        ensures st.queues[s].delivered == st.queues[s].log
      {
        if s == c.own { OwnQueueNeverStrands(c, st); } else { NoLostWakeUp(c, st, s); }
      }
    } else if s == c.own {
      var st := ZeroBudgetRun(c, s);
    } else {
      var st := StrandingRun(c, s);
    }
  }

  /** Nothing is ever taken out, so a full queue has a sender wait for a reader that sleeps. */
  lemma BlockedForGood(c: Config, s: Id) returns (st: State)
    requires ValidConfig(c) && s in c.senders && c.budget == 0
    ensures Reachable(c, st) && s in st.queues && Blocked(c, st.queues[s])
    ensures s !in st.active && st.queues[s].mail == []
  {
    st := Woken(c, s);
    st := Filled(c, st, s);
    st := AboutToStore(c, st, s);
    st := FinalDrain(c, st, s);
    RoomFacts(c, st, s);
    st := Writes(c, st, s, Send(0));
  }

  /** A sender blocked by a full queue is attended to in every run exactly if a drain takes anything. */
  lemma BlockedIsAttendedExactly(c: Config, s: Id)
    requires ValidConfig(c) && s in c.senders
    ensures (forall st :: Reachable(c, st) && s in st.queues && Blocked(c, st.queues[s]) ==>
               s in st.active || Notification in st.queues[s].mail)
            <==> c.budget > 0
  {
    if c.budget > 0 {
      forall st | Reachable(c, st) && s in st.queues && Blocked(c, st.queues[s])
        ensures s in st.active || Notification in st.queues[s].mail
      {
        BlockedWriterIsAttended(c, st, s);
      }
    } else {
      var st := BlockedForGood(c, s);
    }
  }

  /** The defaults, a capacity of 2^15 and a budget of 100, leave up to 32668 items unattended. */
  lemma DefaultsStrand()
    ensures exists st :: Stranded(Config(15, 100, 100, {1}, 0), st, 1, 32668)
  {
    var c := Config(15, 100, 100, {1}, 0);
    Pow2Sum(8, 7);
    assert Pow2(8) == 256 && Pow2(7) == 128;
    var st := StrandingRun(c, 1);
  }
}
