/**
 The reader as an object: the handlers of Registration, Notification and Consumption, and the drains of
 its queues, access by access. Between any two accesses the senders may do whatever `others` says; every
 moment is a reachable state of the step machine, so all that is proved about that machine holds here.
 */
module ConsumeActor {
  import opened Words
  import opened WakeUp
  import opened WakeUpInvariant
  import opened WakeUpTheorems
  import Stranding

  /** There is a run from `from` to `st`. */
  ghost predicate Leads(c: Config, from: State, st: State) {
    Shape(c, from) && exists run :: Legal(c, from, run) && After(c, from, run) == st
  }

  lemma LeadsNowhere(c: Config, st: State)
    requires Shape(c, st)
    ensures Leads(c, st, st)
  {
    assert Legal(c, st, []) && After(c, st, []) == st;
  }

  lemma LeadsOn(c: Config, from: State, st: State, a: Action)
    requires Shape(c, st) && Leads(c, from, st) && Enabled(c, st, a)
    ensures Leads(c, from, Apply(c, st, a))
  {
    hide Apply, Enabled, Shape;
    var run :| Legal(c, from, run) && After(c, from, run) == st;
    Stranding.RunAppend(c, from, run, a);
  }

  lemma Step(c: Config, from: State, st: State, a: Action) returns (st': State)
    requires ValidConfig(c) && Reachable(c, st) && Shape(c, st) && Leads(c, from, st) && Enabled(c, st, a)
    ensures st' == Apply(c, st, a) && Reachable(c, st') && Shape(c, st') && Leads(c, from, st')
  {
    hide Reachable, Leads, Apply, Enabled, Shape;
    LeadsOn(c, from, st, a);
    st' := Stranding.Extend(c, st, a);
  }

  /** The reader's next access inside a queue. */
  lemma ReadAt(c: Config, from: State, st: State, s: Id) returns (st': State, q': Queue, out: Outcome)
    requires ValidConfig(c) && Reachable(c, st) && Shape(c, st) && Leads(c, from, st)
    requires st.reader.At? && st.reader.i < |st.active| && st.active[st.reader.i] == s
    ensures Reachable(c, st') && Shape(c, st') && Leads(c, from, st')
    ensures s in st.queues && |st.queues[s].items| > 0 && Slot(st.queues[s], st.queues[s].readIdx) < |st.queues[s].items|
    ensures (q', out) == ReadStep(c, st.queues[s], st.reader.focus)
    ensures st' == State(st.queues[s := q'], if out.Remove? then SwapRemove(st.active, st.reader.i) else st.active,
                         st.consumptions, ReaderAfter(st.reader, out))
  {
    hide Reachable, Leads;
    SlotInRange(c, st.queues[s], st.queues[s].readIdx);
    var r := ReadStep(c, st.queues[s], st.reader.focus);
    q', out := r.0, r.1;
    st' := Step(c, from, st, Read);
  }

  function ReaderAfter(r: Reader, out: Outcome): Reader
    requires r.At? && r.n > 0
  {
    match out
    case Stay(f) => At(r.i, r.n, f)
    case Next => Visit(r.i + 1, r.n)
    case Remove => Visit(r.i, r.n - 1)
  }

  /** The reader did nothing to the queue. */
  predicate Untouched(q: Queue, q': Queue) {
    && q'.readIdx == q.readIdx && q'.numEmpty == q.numEmpty && q'.delivered == q.delivered
    && q'.visits == q.visits && q'.sleeps == q.sleeps
  }

  /** One drain handled `num` more items. */
  predicate Drained(q: Queue, q': Queue, num: nat) {
    && q.delivered <= q'.delivered && |q'.delivered| == |q.delivered| + num
    && q'.numEmpty == q.numEmpty && q'.visits == q.visits && q'.sleeps == q.sleeps
  }

  /** One turn of the consume loop on a queue. It goes to sleep only at the last allowed empty read in a
      row; otherwise an empty read is counted, and anything handled starts the count again. */
  predicate Turn(c: Config, q: Queue, q': Queue, slept: bool) {
    && q'.visits == q.visits + 1
    && q'.sleeps == q.sleeps + (if slept then 1 else 0)
    && q.delivered <= q'.delivered
    && if slept then Add32(q.numEmpty, 1) == c.maxEmpty && q'.numEmpty == 0
       else if q'.delivered == q.delivered then q'.numEmpty == Add32(q.numEmpty, 1) != c.maxEmpty
       else q'.numEmpty == 0
  }

  lemma TurnOf(c: Config, q: Queue, drained: Queue, counted: Queue, q': Queue, num: nat, slept: bool)
    requires Drained(q.(visits := q.visits + 1), drained, num)
    requires counted == drained.(numEmpty := if num == 0 then Add32(q.numEmpty, 1) else 0)
    requires slept <==> num == 0 && Add32(q.numEmpty, 1) == c.maxEmpty
    requires if slept then q'.visits == counted.visits && q'.sleeps == counted.sleeps + 1 && q'.numEmpty == 0
                           && counted.delivered <= q'.delivered
             else q' == counted
    ensures Turn(c, q, q', slept)
  {
  }

  class ActorBehaviorX {
    const config: Config
    var queues: map<Id, Queue>
    var activeRecvQueues: seq<Id>
    var consumptions: nat                     // Consumption messages to itself not handled yet
    var others: seq<seq<(Id, WriterAction)>>  // what senders do between the accesses of the reader
    ghost var reader: Reader
    ghost var since: State                    // where the handler that runs, or ran last, began

    ghost function Now(): State
      reads this
    {
      State(queues, activeRecvQueues, consumptions, reader)
    }

    ghost predicate Valid()
      reads this
    {
      ValidConfig(config) && Reachable(config, Now()) && Shape(config, Now()) && Leads(config, since, Now())
    }

    constructor (c: Config, others: seq<seq<(Id, WriterAction)>>)
      requires ValidConfig(c)
      ensures Valid() && config == c && Now() == Init(c) && this.others == others
    {
      config := c;
      queues, activeRecvQueues, consumptions := map s | s in c.senders :: EmptyQueue(c, s == c.own), [], 0;
      this.others, reader, since := others, Idle, Init(c);
      new;
      InitInv(c);
      assert Legal(c, Init(c), []) && After(c, Init(c), []) == Init(c);
    }

    /** What the senders leave alone. */
    twostate predicate ReaderSide()
      reads this
    {
      && queues.Keys == old(queues.Keys)
      && forall t :: t in queues ==> Untouched(old(queues)[t], queues[t])
    }

    /** The reader was at no other queue. */
    twostate predicate OnlyAt(s: Id)
      reads this
    {
      && queues.Keys == old(queues.Keys)
      && forall t :: t in queues && t != s ==> Untouched(old(queues)[t], queues[t])
    }

    /** What a whole consumption does: one turn on each queue that was listed, and nothing to the others. */
    twostate predicate EachVisitedOnce()
      reads this
    {
      && queues.Keys == old(queues.Keys)
      && (forall s :: s in queues ==>
            if s in old(activeRecvQueues) then Turn(config, old(queues)[s], queues[s], s !in activeRecvQueues)
            else Untouched(old(queues)[s], queues[s]))
      && NoRepeats(activeRecvQueues) && forall s :: s in activeRecvQueues ==> s in old(activeRecvQueues)
    }

    /** The senders get their turn; the reader's own pushes only while its handlers run. */
    method Others(handlersRun: bool)
      requires Valid() && (handlersRun ==> HandlersRun(Now()))
      modifies `queues, `others
      ensures Valid() && ReaderSide()
    {
      if others == [] {
        return;
      }
      var steps := others[0];
      others := others[1..];
      var i := 0;
      while i < |steps|
        invariant 0 <= i <= |steps| && Valid() && ReaderSide()
      {
        hide Reachable, Shape, Leads;
        SenderStep(steps[i].0, steps[i].1, handlersRun);
        i := i + 1;
      }
    }

    method SenderStep(s: Id, w: WriterAction, handlersRun: bool)
      requires Valid() && (handlersRun ==> HandlersRun(Now()))
      modifies `queues
      ensures Valid() && ReaderSide()
    {
      hide Reachable, Leads;
      if s in queues && WriterEnabled(queues[s], w) && (s == config.own ==> handlersRun) {
        SlotInRange(config, queues[s], queues[s].writeIdx);
        ghost var next := Step(config, since, Now(), Sender(s, w));
        queues := queues[s := WriterStep(queues[s], w)];
      }
    }

    /** A sender's queue arrives. */
    method RegisterSwsrQueue(s: Id)
      requires Valid() && reader.Idle? && s in queues && queues[s].mail != [] && queues[s].mail[0] == Registration
      modifies `queues
      ensures Valid() && Now() == Apply(config, old(Now()), Receive(s))
    {
      hide Reachable, Leads;
      ghost var next := Step(config, since, Now(), Receive(s));
      queues := queues[s := queues[s].(mail := queues[s].mail[1..], registered := true)];
    }

    /** A sender's queue, which is known and not listed, is listed; the first one listed has a
        Consumption sent. */
    method NotifySwsrQueue(s: Id)
      requires Valid() && reader.Idle? && s in queues && queues[s].mail != [] && queues[s].mail[0] == Notification
      modifies `queues, `activeRecvQueues, `consumptions
      ensures Valid() && Now() == Apply(config, old(Now()), Receive(s))
      ensures old(queues[s]).registered && s !in old(activeRecvQueues) && activeRecvQueues == old(activeRecvQueues) + [s]
      ensures consumptions == 1
    {
      hide Reachable, Leads;
      NotificationFindsItsQueue(config, Now(), s);
      OneConsumptionOutstanding(config, Now());
      ghost var next := Step(config, since, Now(), Receive(s));
      queues := queues[s := queues[s].(mail := queues[s].mail[1..])];
      if activeRecvQueues == [] {
        consumptions := consumptions + 1;
      }
      activeRecvQueues := activeRecvQueues + [s];
    }

    /** `pop_some`: items up to the snapshot w, no more than the budget. */
    method PopSome(s: Id, w: u32, ghost i: nat, ghost n: nat, ghost final: bool) returns (num: u32)
      requires Valid() && reader == At(i, n, Popping(w, 0, final)) && i < |activeRecvQueues| && activeRecvQueues[i] == s
      requires s in queues
      modifies `queues, `others, `reader
      ensures Valid() && reader == At(i, n, Popping(w, num, final)) && OnlyAt(s)
      ensures queues[s].readIdx == w || num == config.budget
      ensures Drained(old(queues[s]), queues[s], num)
    {
      hide Reachable, Shape, Leads;
      num := 0;
      while queues[s].readIdx != w && num < config.budget
        invariant Valid() && reader == At(i, n, Popping(w, num, final)) && OnlyAt(s)
        invariant num <= config.budget && Drained(old(queues[s]), queues[s], num)
        decreases config.budget - num
      {
        PopOne(s, w, i, n, num, final);
        num := num + 1;
        Others(false);
      }
    }

    /** `pop_one`: the slot is given back after the handler returned. */
    method PopOne(s: Id, w: u32, ghost i: nat, ghost n: nat, ghost num: u32, ghost final: bool)
      requires Valid() && reader == At(i, n, Popping(w, num, final)) && i < |activeRecvQueues| && activeRecvQueues[i] == s
      requires s in queues && queues[s].readIdx != w && num < config.budget
      modifies `queues, `others, `reader
      ensures Valid() && reader == At(i, n, Popping(w, num + 1, final)) && OnlyAt(s)
      ensures Drained(old(queues[s]), queues[s], 1)
    {
      hide Reachable, Shape, Leads;
      ghost var next, q, out := ReadAt(config, since, Now(), s);
      var item := queues[s].items[Slot(queues[s], queues[s].readIdx)];
      queues := queues[s := queues[s].(delivered := queues[s].delivered + [item])];
      reader := At(i, n, Bumping(w, num, final));
      assert Now() == next;
      Others(true);
      next, q, out := ReadAt(config, since, Now(), s);
      queues := queues[s := queues[s].(readIdx := Add32(queues[s].readIdx, 1))];
      reader := At(i, n, Popping(w, num + 1, final));
      assert Now() == next;
    }

    /** One turn of the consume loop: `pop_some` on the queue at i; at the last allowed empty read in a
        row the flag is stored, the queue drained once more, and taken out of the list. */
    method VisitQueue(i: nat, n: nat) returns (slept: bool)
      requires Valid() && reader == Visit(i, n) && i < n
      modifies `queues, `others, `reader, `activeRecvQueues
      ensures Valid() && i < |old(activeRecvQueues)|
      ensures var s := old(activeRecvQueues)[i];
              OnlyAt(s) && s in queues && Turn(config, old(queues)[s], queues[s], slept)
      ensures reader == if slept then Visit(i, n - 1) else Visit(i + 1, n)
      ensures activeRecvQueues == if slept then SwapRemove(old(activeRecvQueues), i) else old(activeRecvQueues)
    {
      hide Reachable, Leads;
      var s := activeRecvQueues[i];
      assert s in queues;
      hide Shape, Turn, Untouched, Drained;
      var w, num := FirstDrain(s, i, n);
      ghost var drained := queues;
      slept := AfterDrain(s, w, num, i, n);
      ghost var counted := queues;
      if slept {
        StoreAndDrain(s, i, n);
      }
      TurnOf(config, old(queues)[s], drained[s], counted[s], queues[s], num, slept);
      forall t | t in queues && t != s ensures Untouched(old(queues)[t], queues[t]) {
        ThenUntouched(config, old(queues)[t], drained[t], counted[t]);
        ThenUntouched(config, old(queues)[t], counted[t], queues[t]);
      }
    }

    method FirstDrain(s: Id, ghost i: nat, ghost n: nat) returns (w: u32, num: u32)
      requires Valid() && reader == Visit(i, n) && i < n && s in queues && i < |activeRecvQueues| && activeRecvQueues[i] == s
      modifies `queues, `others, `reader
      ensures Valid() && OnlyAt(s) && reader == At(i, n, Popping(w, num, false))
      ensures queues[s].readIdx == w || num == config.budget
      ensures Drained(old(queues[s]).(visits := old(queues[s]).visits + 1), queues[s], num)
      ensures queues[s].numEmpty == old(queues[s]).numEmpty
    {
      hide Reachable, Leads, Shape;
      w := TakeSnapshot(s, i, n);
      Others(false);
      num := PopSome(s, w, i, n, false);
    }

    method TakeSnapshot(s: Id, ghost i: nat, ghost n: nat) returns (w: u32)
      requires Valid() && reader == Visit(i, n) && i < n && s in queues && i < |activeRecvQueues| && activeRecvQueues[i] == s
      modifies `queues, `reader
      ensures Valid() && OnlyAt(s) && queues[s] == Visited(old(queues[s])) && w == queues[s].writeIdx
      ensures reader == At(i, n, Popping(w, 0, false))
    {
      hide Reachable, Leads;
      ghost var next := Step(config, since, Now(), Read);
      w := queues[s].writeIdx;
      queues := queues[s := Visited(queues[s])];
      reader := At(i, n, Popping(w, 0, false));
    }

    /** The empty reads are counted; true at the last allowed one. */
    method AfterDrain(s: Id, ghost w: u32, num: u32, ghost i: nat, ghost n: nat) returns (last: bool)
      requires Valid() && reader == At(i, n, Popping(w, num, false)) && i < |activeRecvQueues| && activeRecvQueues[i] == s
      requires s in queues && (queues[s].readIdx == w || num == config.budget)
      modifies `queues, `reader
      ensures Valid() && OnlyAt(s) && reader == if last then At(i, n, Storing) else Visit(i + 1, n)
      ensures last <==> num == 0 && Add32(old(queues[s]).numEmpty, 1) == config.maxEmpty
      ensures queues[s] == old(queues[s]).(numEmpty := if num == 0 then Add32(old(queues[s]).numEmpty, 1) else 0)
    {
      hide Reachable, Shape, Leads;
      ghost var next, q, out := ReadAt(config, since, Now(), s);
      if num == 0 {
        queues := queues[s := queues[s].(numEmpty := Add32(queues[s].numEmpty, 1))];
        last := queues[s].numEmpty == config.maxEmpty;
      } else {
        queues := queues[s := queues[s].(numEmpty := 0)];
        last := false;
      }
      reader := if last then At(i, n, Storing) else Visit(i + 1, n);
      assert Now() == next;
    }

    /** `inc_read_progress`, the last drain, and the removal from the list. */
    method StoreAndDrain(s: Id, i: nat, ghost n: nat)
      requires Valid() && reader == At(i, n, Storing) && i < |activeRecvQueues| && activeRecvQueues[i] == s
      requires s in queues && n > 0
      modifies `queues, `others, `reader, `activeRecvQueues
      ensures Valid() && OnlyAt(s) && reader == Visit(i, n - 1)
      ensures var q, q' := old(queues[s]), queues[s];
              q'.visits == q.visits && q'.sleeps == q.sleeps + 1 && q'.numEmpty == 0 && q.delivered <= q'.delivered
      ensures activeRecvQueues == SwapRemove(old(activeRecvQueues), i)
    {
      hide Reachable, Shape, Leads;
      Others(false);
      StoreFalse(s, i, n);
      Others(false);
      var w := TakeLastSnapshot(s, i, n);
      Others(false);
      var num := PopSome(s, w, i, n, true);
      Unlist(s, w, num, i, n);
    }

    /** The last entry of the list takes the place of the queue. */
    method Unlist(s: Id, ghost w: u32, ghost num: u32, i: nat, ghost n: nat)
      requires Valid() && reader == At(i, n, Popping(w, num, true)) && i < |activeRecvQueues| && activeRecvQueues[i] == s
      requires s in queues && (queues[s].readIdx == w || num == config.budget) && n > 0
      modifies `queues, `reader, `activeRecvQueues
      ensures Valid() && OnlyAt(s) && queues[s] == old(queues[s]).(numEmpty := 0) && reader == Visit(i, n - 1)
      ensures activeRecvQueues == SwapRemove(old(activeRecvQueues), i)
    {
      hide Reachable, Shape, Leads;
      ghost var next, q, out := ReadAt(config, since, Now(), s);
      queues := queues[s := queues[s].(numEmpty := 0)];
      activeRecvQueues := activeRecvQueues[i := activeRecvQueues[|activeRecvQueues| - 1]];
      activeRecvQueues := activeRecvQueues[..|activeRecvQueues| - 1];
      reader := Visit(i, n - 1);
      assert Now() == next;
    }

    method StoreFalse(s: Id, ghost i: nat, ghost n: nat)
      requires Valid() && reader == At(i, n, Storing) && i < |activeRecvQueues| && activeRecvQueues[i] == s && s in queues
      modifies `queues, `reader
      ensures Valid() && OnlyAt(s) && reader == At(i, n, Stored)
      ensures queues[s] == old(queues[s]).(mayHaveMessage := false, sleeps := old(queues[s]).sleeps + 1)
    {
      hide Reachable, Shape, Leads;
      ghost var next, q, out := ReadAt(config, since, Now(), s);
      queues := queues[s := queues[s].(mayHaveMessage := false, sleeps := queues[s].sleeps + 1)];
      reader := At(i, n, Stored);
      assert Now() == next;
    }

    method TakeLastSnapshot(s: Id, ghost i: nat, ghost n: nat) returns (w: u32)
      requires Valid() && reader == At(i, n, Stored) && i < |activeRecvQueues| && activeRecvQueues[i] == s && s in queues
      modifies `queues, `reader
      ensures Valid() && OnlyAt(s) && queues[s] == Snapshot(old(queues[s])) && w == queues[s].writeIdx
      ensures reader == At(i, n, Popping(w, 0, true))
    {
      hide Reachable, Shape, Leads;
      ghost var next, q, out := ReadAt(config, since, Now(), s);
      w := queues[s].writeIdx;
      queues := queues[s := Snapshot(queues[s])];
      reader := At(i, n, Popping(w, 0, true));
      assert Now() == next;
    }

    /** The handler of a Consumption. A run of the machine leads from the state before to the state after.
        Every listed queue had exactly one turn, no other queue was touched, exactly those that went to
        sleep are no longer listed, and the next Consumption is sent exactly if some are. */
    method HandleConsumption()
      requires Valid() && reader.Idle? && consumptions > 0
      modifies this
      ensures Valid() && reader.Idle? && Leads(config, old(Now()), Now())
      ensures EachVisitedOnce()
      ensures consumptions == if activeRecvQueues == [] then 0 else 1
    {
      hide Reachable, Shape, Leads;
      LeadsNowhere(config, Now());
      since := Now();
      Begin();
      ConsumeSwsrRecvQueues();
      End();
    }

    method Begin()
      requires Valid() && reader.Idle? && consumptions > 0
      modifies `consumptions, `reader
      ensures Valid() && consumptions == 0 && reader == Visit(0, |activeRecvQueues|) && NoRepeats(activeRecvQueues)
    {
      hide Reachable, Leads;
      OneConsumptionOutstanding(config, Now());
      ghost var next := Step(config, since, Now(), Consume);
      consumptions := consumptions - 1;
      reader := Visit(0, |activeRecvQueues|);
    }

    method End()
      requires Valid() && consumptions == 0 && reader == Visit(|activeRecvQueues|, |activeRecvQueues|)
      modifies `consumptions, `reader
      ensures Valid() && reader.Idle? && consumptions == if activeRecvQueues == [] then 0 else 1
    {
      hide Reachable, Leads;
      ghost var next := Step(config, since, Now(), Read);
      if activeRecvQueues != [] {
        consumptions := consumptions + 1;
      }
      reader := Idle;
    }

    /** The loop over the list it takes entries out of: those before i had their turn and stay. */
    method ConsumeSwsrRecvQueues()
      requires Valid() && reader == Visit(0, |activeRecvQueues|) && NoRepeats(activeRecvQueues)
      modifies `queues, `others, `reader, `activeRecvQueues
      ensures Valid() && reader == Visit(|activeRecvQueues|, |activeRecvQueues|)
      ensures EachVisitedOnce()
    {
      hide Reachable, Shape, Leads, Turn, Untouched;
      forall t | t in queues ensures Untouched(queues[t], queues[t]) {
        ThenUntouched(config, queues[t], queues[t], queues[t]);
      }
      var i, n := 0, |activeRecvQueues|;
      while i < n
        invariant Valid() && 0 <= i <= n == |activeRecvQueues| && reader == Visit(i, n) && queues.Keys == old(queues.Keys)
        invariant NoRepeats(activeRecvQueues) && forall s :: s in activeRecvQueues ==> s in old(activeRecvQueues)
        invariant forall s :: s in queues ==>
                    if s !in old(activeRecvQueues) || s in activeRecvQueues[i..] then Untouched(old(queues)[s], queues[s])
                    else Turn(config, old(queues)[s], queues[s], s !in activeRecvQueues)
        decreases n - i
      {
        ghost var list, s, before := activeRecvQueues, activeRecvQueues[i], queues;
        var empty := VisitQueue(i, n);
        RestOfList(list, i, empty);
        forall t | t in queues
          ensures t == s ==> Turn(config, old(queues)[t], queues[t], empty)
          ensures t != s && Untouched(old(queues)[t], before[t]) ==> Untouched(old(queues)[t], queues[t])
          ensures t != s && Turn(config, old(queues)[t], before[t], t !in list) ==> Turn(config, old(queues)[t], queues[t], t !in list)
        {
          ThenUntouched(config, old(queues)[t], before[t], queues[t]);
        }
        if empty {
          i := i - 1;
          n := n - 1;
        }
        i := i + 1;
      }
    }
  }

  lemma ThenUntouched(c: Config, q: Queue, q1: Queue, q2: Queue)
    ensures Untouched(q, q)
    ensures Untouched(q, q1) && Untouched(q1, q2) ==> Untouched(q, q2)
    ensures forall slept :: Untouched(q, q1) && Turn(c, q1, q2, slept) ==> Turn(c, q, q2, slept)
    ensures forall slept :: Turn(c, q, q1, slept) && Untouched(q1, q2) ==> Turn(c, q, q2, slept)
  {
  }
}
