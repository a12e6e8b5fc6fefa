/**
 What was published can be delivered: from every reachable state the senders and the reader can go on,
 without anything new being sent, until the reader has handled all that a sender had published.
 */
module WakeUpProgress {
  import opened Words
  import opened RingSlots
  import opened WakeUp
  import opened WakeUpInvariant
  import opened WakeUpTheorems
  import opened Stranding
  import opened Wrappers

  /** Nothing new is sent; a push under way may go on. */
  predicate NothingNew(a: Action) {
    a.Sender? ==> !a.w.Send? && !a.w.Connect?
  }

  ghost predicate Continues(c: Config, st: State, run: seq<Action>, st': State) {
    && Shape(c, st) && Legal(c, st, run) && After(c, st, run) == st'
    && forall k :: 0 <= k < |run| ==> NothingNew(run[k])
  }

  ghost predicate GoesOn(c: Config, st: State, st': State) {
    exists run :: Continues(c, st, run, st')
  }

  /** A reachable state that a continuation of `st0` leads to. */
  ghost predicate From(c: Config, st0: State, st: State) {
    ValidConfig(c) && Reachable(c, st) && Shape(c, st) && GoesOn(c, st0, st)
  }

  lemma FromHere(c: Config, st: State)
    requires ValidConfig(c) && Reachable(c, st)
    ensures From(c, st, st)
  {
    ReachableInv(c, st);
    hide Reachable, Inv;
    assert Continues(c, st, [], st);
  }

  lemma On(c: Config, st0: State, st: State, a: Action) returns (st': State)
    requires From(c, st0, st) && Enabled(c, st, a) && NothingNew(a)
    ensures st' == Apply(c, st, a) && From(c, st0, st')
  {
    hide Reachable, Apply, Enabled, Shape;
    st' := Extend(c, st, a);
    var run :| Continues(c, st0, run, st);
    RunAppend(c, st0, run, a);
    assert Continues(c, st0, run + [a], st');
  }

  /** The reader only handled items of the queue. */
  predicate Later(q: Queue, q': Queue) {
    && q'.log == q.log && q.delivered <= q'.delivered
    && q'.mail == q.mail && q'.writer == q.writer
  }

  // ---------------------------------------------------------------- one visit

  /** Where the reader stands in its queue, in unwrapped numbers. */
  lemma FocusFacts(c: Config, st: State, t: Id)
    requires ValidConfig(c) && Reachable(c, st) && Shape(c, st)
    requires st.reader.At? && st.active[st.reader.i] == t
    ensures t in st.queues && |st.queues[t].items| > 0 && Slot(st.queues[t], st.queues[t].readIdx) < |st.queues[t].items|
    ensures var q, f := st.queues[t], st.reader.focus;
            && (f.Popping? ==> f.count <= c.budget && (q.readIdx == f.snap <==> |q.delivered| == q.snapAt))
            && (f.Bumping? ==> f.count < c.budget)
  {
    ReachableInv(c, st);
    hide Reachable;
    var q, f := st.queues[t], st.reader.focus;
    assert QueueInv(c, q, true, FocusOn(st, t));
    SlotInRange(c, q, q.readIdx);
    CapacityBound(c.scale);
    if f.Popping? {
      WrappedEquality(|q.delivered|, q.snapAt);
    }
  }

  function Phase(f: Focus): nat {
    match f
    case Popping(_, _, final) => if final then 1 else 4
    case Bumping(_, _, final) => if final then 1 else 4
    case Storing => 3
    case Stored => 2
  }

  function Remaining(c: Config, f: Focus): int {
    match f
    case Popping(_, count, _) => 2 * (c.budget - count) + 1
    case Bumping(_, count, _) => 2 * (c.budget - count)
    case _ => 0
  }

  /** The visit of the queue at i is over; nothing else changed. */
  ghost predicate VisitOver(st: State, st': State, t: Id) {
    && st.reader.At? && st.reader.i < st.reader.n == |st.active| && st.active[st.reader.i] == t
    && t in st.queues && t in st'.queues
    && st'.queues == st.queues[t := st'.queues[t]] && Later(st.queues[t], st'.queues[t])
    && st'.consumptions == st.consumptions
    && var i, n := st.reader.i, st.reader.n;
       || (st'.reader == Visit(i + 1, n) && st'.active == st.active)
       || (st'.reader == Visit(i, n - 1) && st'.active == SwapRemove(st.active, i))
  }

  predicate Nearer(c: Config, f: Focus, f': Focus) {
    Phase(f') < Phase(f) || (Phase(f') == Phase(f) && 0 <= Remaining(c, f') < Remaining(c, f))
  }

  lemma AccessNearer(c: Config, q: Queue, f: Focus)
    requires |q.items| > 0 && Slot(q, q.readIdx) < |q.items|
    requires (f.Popping? ==> f.count <= c.budget) && (f.Bumping? ==> f.count < c.budget)
    ensures var r := ReadStep(c, q, f);
            && Later(q, r.0) && (r.1.Stay? ==> Nearer(c, f, r.1.focus))
            && (f.Popping? && q.readIdx != f.snap && f.count < c.budget ==> |r.0.delivered| > |q.delivered|)
  {
  }

  /** One access: the visit is over or still on. */
  lemma OneAccess(c: Config, st0: State, st: State, t: Id) returns (st': State)
    requires From(c, st0, st) && st.reader.At? && st.active[st.reader.i] == t
    ensures From(c, st0, st') && t in st.queues && t in st'.queues
    ensures var q, q', f := st.queues[t], st'.queues[t], st.reader.focus;
            && st'.queues == st.queues[t := q'] && Later(q, q') && st'.consumptions == st.consumptions
            && (f.Popping? && q.readIdx != f.snap && f.count < c.budget ==> |q'.delivered| > |q.delivered|)
    ensures if st'.reader.At?
            then var f, f' := st.reader.focus, st'.reader.focus;
                 && st'.active == st.active && st'.reader == At(st.reader.i, st.reader.n, f')
                 && Nearer(c, f, f')
            else VisitOver(st, st', t)
  {
    FocusFacts(c, st, t);
    AccessNearer(c, st.queues[t], st.reader.focus);
    AtShape(c, st0, st);
    ReadEnabled(st);
    hide From, ReadStep, Nearer, Later, Apply, Enabled;
    st' := On(c, st0, st, Read);
    ReadsAt(c, st0, st, t);
  }

  lemma ReadEnabled(st: State)
    requires st.reader.At?
    ensures forall c: Config :: Enabled(c, st, Read)
  {
  }

  /** What an access inside a queue changes. */
  lemma ReadsAt(c: Config, st0: State, st: State, t: Id)
    requires From(c, st0, st) && st.reader.At? && st.active[st.reader.i] == t && Enabled(c, st, Read)
    requires t in st.queues && |st.queues[t].items| > 0 && Slot(st.queues[t], st.queues[t].readIdx) < |st.queues[t].items|
    ensures var (q', out) := ReadStep(c, st.queues[t], st.reader.focus);
            Apply(c, st, Read) ==
            State(st.queues[t := q'], if out.Remove? then SwapRemove(st.active, st.reader.i) else st.active, st.consumptions,
                  match out
                  case Stay(f) => At(st.reader.i, st.reader.n, f)
                  case Next => Visit(st.reader.i + 1, st.reader.n)
                  case Remove => Visit(st.reader.i, st.reader.n - 1))
  {
    hide Reachable, GoesOn, ReadStep;
  }

  lemma {:induction false} FinishVisit(c: Config, st0: State, st: State, t: Id) returns (st': State)
    requires From(c, st0, st) && st.reader.At? && st.active[st.reader.i] == t
    ensures From(c, st0, st') && VisitOver(st, st', t)
    ensures var q, q', f := st.queues[t], st'.queues[t], st.reader.focus;
            f.Popping? && q.readIdx != f.snap && f.count < c.budget ==> |q'.delivered| > |q.delivered|
    decreases Phase(st.reader.focus), Remaining(c, st.reader.focus)
  {
    hide From;
    var mid := OneAccess(c, st0, st, t);
    if mid.reader.At? {
      AtShape(c, st0, st);
      st' := FinishVisit(c, st0, mid, t);
    } else {
      st' := mid;
    }
  }

  lemma AtShape(c: Config, st0: State, st: State)
    requires From(c, st0, st) && st.reader.At?
    ensures st.reader.i < st.reader.n == |st.active|
  {
  }

  // ---------------------------------------------------------------- one consumption

  ghost predicate AllLater(st: State, st': State) {
    st'.queues.Keys == st.queues.Keys && forall t :: t in st.queues ==> Later(st.queues[t], st'.queues[t])
  }

  lemma AllLaterOn(st: State, st1: State, st2: State)
    requires AllLater(st, st1) && AllLater(st1, st2)
    ensures AllLater(st, st2)
  {
    forall t | t in st.queues ensures Later(st.queues[t], st2.queues[t]) {
      assert Later(st.queues[t], st1.queues[t]) && Later(st1.queues[t], st2.queues[t]);
    }
  }

  /** Items are waiting that a drain would take. */
  predicate Waits(c: Config, q: Queue) {
    c.budget > 0 && |q.delivered| < |q.log|
  }

  /** The reader turns to the queue at i, and is through with it. */
  lemma VisitHere(c: Config, st0: State, st: State) returns (st': State)
    requires From(c, st0, st) && st.reader.Visit? && st.reader.i < st.reader.n
    ensures From(c, st0, st') && st.reader.i < |st.active| && st'.reader.Visit?
    ensures var t, removed := st.active[st.reader.i], st'.reader.i == st.reader.i;
            && t in st.queues && t in st'.queues && st'.queues == st.queues[t := st'.queues[t]]
            && Later(st.queues[t], st'.queues[t])
            && (Waits(c, st.queues[t]) ==> |st'.queues[t].delivered| > |st.queues[t].delivered|)
            && st'.active == (if removed then SwapRemove(st.active, st.reader.i) else st.active)
            && st'.reader.i == (if removed then st.reader.i else st.reader.i + 1)
  {
    hide Reachable, GoesOn;
    var t := st.active[st.reader.i];
    var mid := On(c, st0, st, Read);
    FocusFacts(c, mid, t);
    LogBound(c, st, t);
    st' := FinishVisit(c, st0, mid, t);
  }

  lemma LogBound(c: Config, st: State, t: Id)
    requires ValidConfig(c) && Reachable(c, st) && t in st.queues
    ensures st.queues[t].delivered <= st.queues[t].log
  {
    FirstInFirstOut(c, st, t);
  }

  lemma {:induction false} FinishRound(c: Config, st0: State, st: State, s: Id) returns (st': State)
    requires From(c, st0, st) && st.reader.Visit? && s in st.queues
    ensures From(c, st0, st') && st'.reader.Idle? && AllLater(st, st')
    ensures st.reader.i <= |st.active|
    ensures s in st.active[st.reader.i..] && Waits(c, st.queues[s]) ==>
              |st'.queues[s].delivered| > |st.queues[s].delivered|
    decreases st.reader.n - st.reader.i
  {
    hide Reachable, GoesOn;
    var i := st.reader.i;
    if i == st.reader.n {
      st' := On(c, st0, st, Read);
    } else {
      NoneTwice(c, st0, st);
      var mid := VisitHere(c, st0, st);
      NoneTwice(c, st0, mid);
      RestOfList(st.active, i, mid.reader.i == i);
      assert AllLater(st, mid);
      hide From;
      st' := FinishRound(c, st0, mid, s);
      AllLaterOn(st, mid, st');
    }
  }

  lemma NoneTwice(c: Config, st0: State, st: State)
    requires From(c, st0, st)
    ensures NoRepeats(st.active) && (st.reader.Visit? ==> st.reader.i <= st.reader.n == |st.active|)
  {
    OneConsumptionOutstanding(c, st);
  }

  lemma ToIdle(c: Config, st0: State, st: State, s: Id) returns (st': State)
    requires From(c, st0, st) && s in st.queues
    ensures From(c, st0, st') && st'.reader.Idle? && AllLater(st, st')
  {
    st' := st;
    if st.reader.At? {
      var t := st.active[st.reader.i];
      hide From;
      st' := FinishVisit(c, st0, st, t);
    }
    hide From;
    assert AllLater(st, st');
    if st'.reader.Visit? {
      var mid := st';
      st' := FinishRound(c, st0, mid, s);
      AllLaterOn(st, mid, st');
    }
  }

  // ---------------------------------------------------------------- what is on its way to the reader

  /** The push of s, if one is past publishing, comes to its end. */
  lemma EndPush(c: Config, st0: State, st: State, s: Id) returns (st': State)
    requires From(c, st0, st) && st.reader.Idle? && s in st.queues
    ensures From(c, st0, st') && st'.reader.Idle? && s in st'.queues
    ensures !st'.queues[s].writer.Exchanging? && !st'.queues[s].writer.Notifying?
    ensures st'.queues[s].log == st.queues[s].log && st'.queues[s].delivered == st.queues[s].delivered
  {
    hide Reachable, GoesOn;
    st' := st;
    if st'.queues[s].writer.Exchanging? {
      st' := On(c, st0, st', Sender(s, Exchange));
    }
    if st'.queues[s].writer.Notifying? {
      st' := On(c, st0, st', Sender(s, Notify));
    }
  }

  lemma {:induction false} ReadMail(c: Config, st0: State, st: State, s: Id) returns (st': State)
    requires From(c, st0, st) && st.reader.Idle? && s in st.queues
    ensures From(c, st0, st') && st'.reader.Idle? && s in st'.queues && st'.queues[s].mail == []
    ensures st'.queues[s].writer == st.queues[s].writer
    ensures st'.queues[s].log == st.queues[s].log && st'.queues[s].delivered == st.queues[s].delivered
    decreases |st.queues[s].mail|
  {
    hide Reachable, GoesOn;
    st' := st;
    if st.queues[s].mail != [] {
      st' := On(c, st0, st, Receive(s));
      st' := ReadMail(c, st0, st', s);
    }
  }

  // ---------------------------------------------------------------- all that was published

  lemma {:induction false} ConsumeAll(c: Config, st0: State, st: State, s: Id) returns (st': State)
    requires From(c, st0, st) && st.reader.Idle? && s in st.queues && Suffices(c, s)
    requires st.queues[s].mail == [] && !st.queues[s].writer.Exchanging? && !st.queues[s].writer.Notifying?
    ensures From(c, st0, st') && s in st'.queues && st'.queues[s].log == st.queues[s].log == st'.queues[s].delivered
    decreases |st.queues[s].log| - |st.queues[s].delivered|
  {
    LogBound(c, st, s);
    st' := st;
    if |st.queues[s].delivered| < |st.queues[s].log| {
      if s !in st.active {
        if s == c.own { OwnQueueNeverStrands(c, st); } else { NoLostWakeUp(c, st, s); }
        assert false;
      }
      st' := OneConsumption(c, st0, st, s);
      LogBound(c, st', s);
      st' := ConsumeAll(c, st0, st', s);
    }
  }

  lemma OneConsumption(c: Config, st0: State, st: State, s: Id) returns (st': State)
    requires From(c, st0, st) && st.reader.Idle? && s in st.queues && s in st.active && Waits(c, st.queues[s])
    ensures From(c, st0, st') && st'.reader.Idle? && s in st'.queues && Later(st.queues[s], st'.queues[s])
    ensures |st'.queues[s].delivered| > |st.queues[s].delivered|
  {
    OneConsumptionOutstanding(c, st);
    var mid := On(c, st0, st, Consume);
    assert mid.active[0..] == st.active;
    hide From;
    st' := FinishRound(c, st0, mid, s);
  }

  /** The reader handled all that s had published before. */
  predicate Delivered(st: State, st': State, s: Id) {
    s in st.queues && s in st'.queues && st'.queues[s].delivered == st.queues[s].log == st'.queues[s].log
  }

  lemma CanBeDelivered(c: Config, st: State, s: Id) returns (st': State)
    requires ValidConfig(c) && Reachable(c, st) && s in st.queues && Suffices(c, s)
    ensures GoesOn(c, st, st') && Delivered(st, st', s)
  {
    FromHere(c, st);
    hide Reachable, GoesOn;
    st' := ToIdle(c, st, st, s);
    assert Later(st.queues[s], st'.queues[s]);
    st' := EndPush(c, st, st', s);
    st' := ReadMail(c, st, st', s);
    st' := ConsumeAll(c, st, st', s);
  }

  lemma NothingToDo(c: Config, st: State, s: Id, left: int, st': State)
    requires Stranded(c, st, s, left) && GoesOn(c, st, st')
    ensures st' == st
  {
    var run :| Continues(c, st, run, st');
    hide Stranded;
    if run != [] {
      StrandedStops(c, st, s, left, run[0]);
    }
  }

  lemma StrandedStops(c: Config, st: State, s: Id, left: int, a: Action)
    requires Stranded(c, st, s, left)
    ensures !(NothingNew(a) && Enabled(c, st, a))
  {
  }

  /** From every reachable state all that s has published can be delivered without anything new being sent,
      if and only if one drain can take a full queue; for the reader itself, if a drain takes anything. */
  lemma CanBeDeliveredExactly(c: Config, s: Id)
    requires ValidConfig(c) && s in c.senders
    ensures (forall st :: Reachable(c, st) && s in st.queues ==> exists st' :: GoesOn(c, st, st') && Delivered(st, st', s))
            <==> Suffices(c, s)
  {
    if Suffices(c, s) {
      forall st | Reachable(c, st) && s in st.queues
        ensures exists st' :: GoesOn(c, st, st') && Delivered(st, st', s)
      {
        var st' := CanBeDelivered(c, st, s);
      }
    } else {
      var st;
      var left;
      if s == c.own { st := ZeroBudgetRun(c, s); left := 1; } else { st := StrandingRun(c, s); left := Cap(c) - c.budget; }
      forall st' | GoesOn(c, st, st') ensures !Delivered(st, st', s) {
        NothingToDo(c, st, s, left, st');
      }
    }
  }
}
