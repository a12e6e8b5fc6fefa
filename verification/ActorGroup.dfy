/**
 Waiting for all actors of a group to be done. Two counters are updated outside the lock; whoever
 sees its update make a condition true takes the lock and notifies. One thread waits; any number of
 others update. A step is one load, one update, or one action under the lock.
 */
module ActorGroup {
  import opened Wrappers

  type Tid = nat

  datatype Thread =
    | Done
    | Incremented(detached: nat)             // about to load the alive counter
    | Decremented(alive: nat)                // about to load the detached counter
    | NotifyingAlive(thenAlive: Option<nat>) // about to lock and notify; a decrement looks at zero next
    | NotifyingAll

  datatype Waiter =
    | LoadAlive                    // await_alive_actors_done, before the lock
    | LoadDetached(alive: nat)
    | LockAlive
    | TestAlive                    // the condition, under the lock
    | TestAliveEqual(alive: nat)
    | BlockedAlive
    | FlushTerminators
    | LoadZero
    | LockAll
    | TestAll
    | TestAllDiffer(alive: nat)
    | BlockedAll
    | Returned

  datatype State = State(alive: nat, detached: nat, threads: map<Tid, Thread>, waiter: Waiter)

  const INIT := State(0, 0, map[], LoadAlive)

  function ThreadOf(st: State, t: Tid): Thread {
    if t in st.threads then st.threads[t] else Done
  }

  predicate WaiterHoldsLock(st: State) {
    st.waiter.TestAlive? || st.waiter.TestAliveEqual? || st.waiter.TestAll? || st.waiter.TestAllDiffer?
  }

  datatype Action =
    | IncAlive
    | DecDetached
    | IncDetached(t: Tid)
    | DecAlive(t: Tid)
    | Go(t: Tid)     // the next step of a thread after its update
    | Wait           // the next step of the waiter
    | Spurious       // the waiter wakes up without a notification

  /** Updates keep the detached counter within the alive one, as the source demands. */
  predicate Enabled(st: State, a: Action) {
    match a
    case IncAlive => true
    case DecDetached => st.detached > 0
    case IncDetached(t) => ThreadOf(st, t).Done? && st.detached < st.alive
    case DecAlive(t) => ThreadOf(st, t).Done? && st.detached < st.alive
    case Go(t) =>
      var th := ThreadOf(st, t);
      !th.Done? && (th.NotifyingAlive? || th.NotifyingAll? ==> !WaiterHoldsLock(st))
    case Wait => !st.waiter.BlockedAlive? && !st.waiter.BlockedAll? && !st.waiter.Returned?
    case Spurious => st.waiter.BlockedAlive? || st.waiter.BlockedAll?
  }

  function AfterAlive(alive: nat): Thread {
    if alive == 0 then NotifyingAll else Done
  }

  function GoThread(st: State, th: Thread): (Thread, Waiter)
    requires !th.Done?
  {
    match th
    case Incremented(d) => (if d == st.alive then NotifyingAlive(None) else Done, st.waiter)
    case Decremented(a) => (if a == st.detached then NotifyingAlive(Some(a)) else AfterAlive(a), st.waiter)
    case NotifyingAlive(thenAlive) =>
      (if thenAlive.Some? then AfterAlive(thenAlive.value) else Done,
       if st.waiter.BlockedAlive? then LockAlive else st.waiter)
    case NotifyingAll => (Done, if st.waiter.BlockedAll? then LockAll else st.waiter)
  }

  function WaitStep(st: State): State
    requires Enabled(st, Wait)
  {
    match st.waiter
    case LoadAlive => st.(waiter := LoadDetached(st.alive))
    case LoadDetached(a) => st.(waiter := if a == st.detached then FlushTerminators else LockAlive)
    case LockAlive => st.(waiter := TestAlive)
    case TestAlive => st.(waiter := TestAliveEqual(st.alive))
    case TestAliveEqual(a) => st.(waiter := if a == st.detached then FlushTerminators else BlockedAlive)
    case FlushTerminators => st.(waiter := LoadZero)
    case LoadZero => if st.alive == 0 then st.(waiter := Returned) else st.(waiter := LockAll)
    case LockAll => st.(waiter := TestAll)
    case TestAll => st.(waiter := if st.alive == 0 then LoadAlive else TestAllDiffer(st.alive))
    case TestAllDiffer(a) => st.(waiter := if a != st.detached then LoadAlive else BlockedAll)
  }

  function Apply(st: State, a: Action): State
    requires Enabled(st, a)
  {
    match a
    case IncAlive => st.(alive := st.alive + 1)
    case DecDetached => st.(detached := st.detached - 1)
    case IncDetached(t) =>
      st.(detached := st.detached + 1, threads := st.threads[t := Incremented(st.detached + 1)])
    case DecAlive(t) =>
      st.(alive := st.alive - 1, threads := st.threads[t := Decremented(st.alive - 1)])
    case Go(t) =>
      var (th, w) := GoThread(st, ThreadOf(st, t));
      st.(threads := st.threads[t := th], waiter := w)
    case Wait => WaitStep(st)
    case Spurious => st.(waiter := if st.waiter.BlockedAlive? then LockAlive else LockAll)
  }

  ghost predicate Legal(st: State, run: seq<Action>)
    decreases |run|
  {
    run == [] || (Enabled(st, run[0]) && Legal(Apply(st, run[0]), run[1..]))
  }

  ghost function After(st: State, run: seq<Action>): State
    requires Legal(st, run)
    decreases |run|
  {
    if run == [] then st else After(Apply(st, run[0]), run[1..])
  }

  ghost predicate Reachable(st: State) {
    exists run :: Legal(INIT, run) && After(INIT, run) == st
  }

  // ---------------------------------------------------------------- who will notify

  /** The thread will notify the waiter for alive actors, if the counters stay as they are. */
  predicate WillNotifyAlive(st: State, t: Tid) {
    match ThreadOf(st, t)
    case Incremented(d) => d == st.alive
    case Decremented(a) => a == st.detached
    case NotifyingAlive(_) => true
    case _ => false
  }

  /** The thread will notify the waiter for all actors. */
  predicate WillNotifyAll(st: State, t: Tid) {
    match ThreadOf(st, t)
    case Decremented(a) => a == 0
    case NotifyingAlive(thenAlive) => thenAlive == Some(0)
    case NotifyingAll => true
    case _ => false
  }

  ghost predicate Inv(st: State) {
    && st.detached <= st.alive
    && (st.alive == st.detached && (st.waiter.BlockedAlive? || (st.waiter.TestAliveEqual? && st.waiter.alive != st.alive)) ==>
          exists t :: WillNotifyAlive(st, t))
    && (st.alive == 0 && (st.waiter.BlockedAll? || st.waiter.TestAllDiffer?) ==> exists t :: WillNotifyAll(st, t))
    && (st.waiter.TestAllDiffer? ==> st.waiter.alive > 0)
  }

  lemma UpdateKeepsInv(st: State, a: Action)
    requires Inv(st) && Enabled(st, a)
    requires a.IncAlive? || a.DecDetached? || a.IncDetached? || a.DecAlive?
    ensures Inv(Apply(st, a))
  {
    var st' := Apply(st, a);
    if a.IncDetached? || a.DecAlive? {
      assert st'.alive == st'.detached ==> WillNotifyAlive(st', a.t);
      assert a.DecAlive? && st'.alive == 0 ==> WillNotifyAll(st', a.t);
    }
    if st.alive == 0 && (st.waiter.BlockedAll? || st.waiter.TestAllDiffer?) {
      var t :| WillNotifyAll(st, t);
      assert a.DecDetached? ==> WillNotifyAll(st', t);
    }
  }

  lemma GoKeepsInv(st: State, t: Tid)
    requires Inv(st) && Enabled(st, Go(t))
    ensures Inv(Apply(st, Go(t)))
  {
    var st' := Apply(st, Go(t));
    if exists u :: WillNotifyAlive(st, u) {
      var u :| WillNotifyAlive(st, u);
      assert WillNotifyAlive(st', u) || (u == t && ThreadOf(st, t).NotifyingAlive?);
    }
    if exists u :: WillNotifyAll(st, u) {
      var u :| WillNotifyAll(st, u);
      assert WillNotifyAll(st', u) || (u == t && ThreadOf(st, t).NotifyingAll?);
    }
  }

  lemma WaitKeepsInv(st: State)
    requires Inv(st) && Enabled(st, Wait)
    ensures Inv(Apply(st, Wait))
  {
    var st' := Apply(st, Wait);
    if exists u :: WillNotifyAlive(st, u) {
      var u :| WillNotifyAlive(st, u);
      assert WillNotifyAlive(st', u);
    }
    if exists u :: WillNotifyAll(st, u) {
      var u :| WillNotifyAll(st, u);
      assert WillNotifyAll(st', u);
    }
  }

  lemma {:induction false} RunKeepsInv(st: State, run: seq<Action>)
    requires Inv(st) && Legal(st, run)
    ensures Inv(After(st, run))
    decreases |run|
  {
    if run != [] {
      match run[0] {
        case Go(t) => GoKeepsInv(st, t);
        case Wait => WaitKeepsInv(st);
        case Spurious =>
        case _ => UpdateKeepsInv(st, run[0]);
      }
      RunKeepsInv(Apply(st, run[0]), run[1..]);
    }
  }

  lemma ReachableInv(st: State)
    requires Reachable(st)
    ensures Inv(st)
  {
    var run :| Legal(INIT, run) && After(INIT, run) == st;
    RunKeepsInv(INIT, run);
  }

  /** A waiter blocked although only detached actors are left is about to be notified. */
  lemma NoLostAliveNotification(st: State)
    requires Reachable(st) && st.waiter.BlockedAlive? && st.alive == st.detached
    ensures exists t :: WillNotifyAlive(st, t)
  {
    ReachableInv(st);
  }

  /** A waiter blocked although no actor is left is about to be notified. */
  lemma NoLostAllNotification(st: State)
    requires Reachable(st) && st.waiter.BlockedAll? && st.alive == 0
    ensures exists t :: WillNotifyAll(st, t)
  {
    ReachableInv(st);
  }

  /** The promise is kept: left alone, such a thread does notify, in at most three steps. */
  lemma PromiseIsKept(st: State, t: Tid)
    requires st.waiter.BlockedAlive? && st.alive == st.detached && WillNotifyAlive(st, t)
    ensures Enabled(st, Go(t))
    ensures var st1 := Apply(st, Go(t));
            st1.waiter.LockAlive? || (Enabled(st1, Go(t)) && Apply(st1, Go(t)).waiter.LockAlive?)
  {
  }

  lemma AllPromiseIsKept(st: State, t: Tid)
    requires st.waiter.BlockedAll? && WillNotifyAll(st, t)
    ensures Enabled(st, Go(t))
    ensures var st1 := Apply(st, Go(t));
            st1.waiter.LockAll? || (Enabled(st1, Go(t)) &&
              (var st2 := Apply(st1, Go(t)); st2.waiter.LockAll? || (Enabled(st2, Go(t)) && Apply(st2, Go(t)).waiter.LockAll?)))
  {
  }

  /** `await_all_actors_done` returns only after it loaded the counter while no actor was alive: every run
      that ends returned has a moment at which it does. */
  lemma ReturnsOnlyAfterZero(run: seq<Action>) returns (k: nat)
    requires Legal(INIT, run) && After(INIT, run).waiter.Returned?
    ensures k < |run| && run[k].Wait? && Legal(INIT, run[..k])
    ensures var st := After(INIT, run[..k]); st.waiter.LoadZero? && st.alive == 0
  {
    k := ZeroLoaded(INIT, run);
  }

  lemma {:induction false} ZeroLoaded(st: State, run: seq<Action>) returns (k: nat)
    requires Legal(st, run) && !st.waiter.Returned? && After(st, run).waiter.Returned?
    ensures k < |run| && run[k].Wait? && Legal(st, run[..k])
    ensures var st1 := After(st, run[..k]); st1.waiter.LoadZero? && st1.alive == 0
    decreases |run|
  {
    var st1 := Apply(st, run[0]);
    if st1.waiter.Returned? {
      k := 0;
    } else {
      var k1 := ZeroLoaded(st1, run[1..]);
      k := k1 + 1;
      assert run[..k][0] == run[0] && run[..k][1..] == run[1..][..k1];
    }
  }

  /** The only step that returns is a load of the counter while no actor is alive, and such a load does. */
  lemma ReturnsExactlyAtZero(st: State)
    requires Enabled(st, Wait)
    ensures Apply(st, Wait).waiter.Returned? <==> st.waiter.LoadZero? && st.alive == 0
  {
  }

  // ---------------------------------------------------------------- what a test compares

  /** The waiter stands at w after k steps of the run. */
  ghost predicate StandsAt(run: seq<Action>, k: nat, w: Waiter) {
    k <= |run| && Legal(INIT, run[..k]) && After(INIT, run[..k]).waiter == w
  }

  /** The waiter compares a value of the alive counter, loaded before, with the detached counter. */
  predicate Comparing(w: Waiter) {
    w.LoadDetached? || w.TestAliveEqual? || w.TestAllDiffer?
  }

  /** The k-th step of the run begins the test in which the waiter stands at w: it loads the alive counter. */
  ghost predicate Loads(run: seq<Action>, k: nat, w: Waiter)
    requires Comparing(w)
  {
    && k < |run| && run[k].Wait? && Legal(INIT, run[..k])
    && var st := After(INIT, run[..k]);
       st.alive == w.alive
       && st.waiter == if w.LoadDetached? then LoadAlive else if w.TestAliveEqual? then TestAlive else TestAll
  }

  lemma Prefix(st: State, run: seq<Action>, a: Action)
    requires Legal(st, run + [a])
    ensures Legal(st, run) && Enabled(After(st, run), a) && After(st, run + [a]) == Apply(After(st, run), a)
    decreases |run|
  {
    hide Enabled, Apply;
    if run == [] {
      assert [] + [a] == [a] && [a][1..] == [];
    } else {
      assert (run + [a])[0] == run[0] && (run + [a])[1..] == run[1..] + [a];
      Prefix(Apply(st, run[0]), run[1..], a);
    }
  }

  /** A run without its last step. */
  lemma WithoutLast(run: seq<Action>) returns (before: seq<Action>, a: Action)
    requires run != [] && Legal(INIT, run)
    ensures run == before + [a] && |before| + 1 == |run|
    ensures Legal(INIT, before) && Enabled(After(INIT, before), a) && After(INIT, run) == Apply(After(INIT, before), a)
    ensures forall k :: 0 <= k <= |before| ==> before[..k] == run[..k]
    ensures run[..|before|] == before && run[..|run|] == run
  {
    before, a := run[..|run| - 1], run[|run| - 1];
    assert run == before + [a];
    Prefix(INIT, before, a);
  }

  /** A waiter that compares did load the value, and has stood there since. */
  lemma {:induction false} TestBegan(run: seq<Action>) returns (i: nat)
    requires Legal(INIT, run) && Comparing(After(INIT, run).waiter)
    ensures Loads(run, i, After(INIT, run).waiter)
    ensures forall k :: i < k <= |run| ==> StandsAt(run, k, After(INIT, run).waiter)
    decreases |run|
  {
    var before, a := WithoutLast(run);
    var w := After(INIT, run).waiter;
    if After(INIT, before).waiter == w {
      i := TestBegan(before);
    } else {
      LoadsNow(After(INIT, before), a);
      i := |before|;
    }
    forall k | i < k <= |run| ensures StandsAt(run, k, w) {
      if k <= |before| { StandsOn(before, run, k, w); }
    }
  }

  lemma StandsOn(before: seq<Action>, run: seq<Action>, k: nat, w: Waiter)
    requires k <= |before| <= |run| && before[..k] == run[..k]
    ensures StandsAt(before, k, w) <==> StandsAt(run, k, w)
  {
  }

  lemma LoadsNow(st: State, a: Action)
    requires Enabled(st, a) && Comparing(Apply(st, a).waiter) && st.waiter != Apply(st, a).waiter
    ensures var w := Apply(st, a).waiter;
            a.Wait? && st.alive == w.alive
            && st.waiter == if w.LoadDetached? then LoadAlive else if w.TestAliveEqual? then TestAlive else TestAll
  {
  }

  /** Terminators are flushed only after a test found the counters equal: the waiter loaded the alive
      counter in step i, was in that test until it loaded the same value from the detached counter in step
      j, and has been there since. */
  lemma {:induction false} FlushesOnlyAfterEqual(run: seq<Action>) returns (i: nat, j: nat, w: Waiter)
    requires Legal(INIT, run) && After(INIT, run).waiter.FlushTerminators?
    ensures i < j < |run| && (w.LoadDetached? || w.TestAliveEqual?) && Loads(run, i, w)
    ensures forall k :: i < k <= j ==> StandsAt(run, k, w)
    ensures StandsAt(run, j, w) && run[j].Wait? && After(INIT, run[..j]).detached == After(INIT, run[..i]).alive
    ensures forall k :: j < k <= |run| ==> StandsAt(run, k, FlushTerminators)
    decreases |run|
  {
    var before, a := WithoutLast(run);
    if After(INIT, before).waiter.FlushTerminators? {
      i, j, w := FlushesOnlyAfterEqual(before);
    } else {
      j, w := |before|, After(INIT, before).waiter;
      i := TestBegan(before);
    }
    forall k | i < k <= j ensures StandsAt(run, k, w) {
      StandsOn(before, run, k, w);
    }
    forall k | j < k <= |run| ensures StandsAt(run, k, FlushTerminators) {
      if k <= |before| { StandsOn(before, run, k, FlushTerminators); }
    }
  }

  /** What a test leads to depends on the two loads and on nothing else. */
  lemma TestsExactly(run: seq<Action>) returns (i: nat)
    requires Legal(INIT, run) && Comparing(After(INIT, run).waiter)
    ensures Loads(run, i, After(INIT, run).waiter) && Legal(INIT, run + [Wait])
    ensures var equal := After(INIT, run).detached == After(INIT, run[..i]).alive;
            After(INIT, run + [Wait]).waiter ==
            match After(INIT, run).waiter
            case LoadDetached(_) => if equal then FlushTerminators else LockAlive
            case TestAliveEqual(_) => if equal then FlushTerminators else BlockedAlive
            case _ => if equal then BlockedAll else LoadAlive
  {
    i := TestBegan(run);
    RunAppend(INIT, run, Wait);
  }

  // ---------------------------------------------------------------- what nobody notifies

  /** The condition of the second wait. */
  predicate AllCondition(st: State) {
    st.alive == 0 || st.alive != st.detached
  }

  /** While the waiter is blocked its condition becomes true in exactly two ways, and neither notifies. */
  lemma BecomesTrueExactly(st: State, a: Action)
    requires Reachable(st) && st.waiter.BlockedAll? && !AllCondition(st)
    requires Enabled(st, a) && Apply(st, a).waiter.BlockedAll?
    ensures AllCondition(Apply(st, a)) <==> a.IncAlive? || a.DecDetached?
  {
    ReachableInv(st);
  }

  /** The waiter is in its second wait, between its load of the alive counter and its wake-up, all along. */
  ghost predicate StaysInWait(st: State, run: seq<Action>)
    requires Legal(st, run)
    decreases |run|
  {
    && (st.waiter.TestAllDiffer? || st.waiter.BlockedAll?)
    && (run != [] ==> StaysInWait(Apply(st, run[0]), run[1..]))
  }

  /** If since its load nobody did either, a blocked waiter's condition is false; so a true condition that
      nobody else brought about always has a thread about to notify. */
  lemma TrueOnlyByOthers(st: State, run: seq<Action>)
    requires Reachable(st) && st.waiter.TestAll?
    requires Legal(Apply(st, Wait), run) && StaysInWait(Apply(st, Wait), run)
    requires forall i :: 0 <= i < |run| ==> !run[i].IncAlive? && !run[i].DecDetached?
    ensures var st' := After(Apply(st, Wait), run); st'.waiter.BlockedAll? ==> !AllCondition(st')
  {
    ReachableInv(st);
    WaitKeepsInv(st);
    ConditionStaysFalse(Apply(st, Wait), run);
  }

  ghost predicate NotYetTrue(st: State) {
    && st.detached <= st.alive
    && (st.waiter.TestAllDiffer? ==> 0 < st.waiter.alive && st.alive <= st.waiter.alive)
    && (st.waiter.BlockedAll? ==> !AllCondition(st))
  }

  lemma {:induction false} ConditionStaysFalse(st: State, run: seq<Action>)
    requires Legal(st, run) && StaysInWait(st, run) && NotYetTrue(st)
    requires forall i :: 0 <= i < |run| ==> !run[i].IncAlive? && !run[i].DecDetached?
    ensures NotYetTrue(After(st, run))
    decreases |run|
  {
    if run != [] {
      StaysFalseStep(st, run[0]);
      ConditionStaysFalse(Apply(st, run[0]), run[1..]);
    }
  }

  lemma StaysFalseStep(st: State, a: Action)
    requires Enabled(st, a) && NotYetTrue(st) && !a.IncAlive? && !a.DecDetached?
    requires st.waiter.TestAllDiffer? || st.waiter.BlockedAll?
    ensures NotYetTrue(Apply(st, a))
  {
  }

  /** The waiter can be blocked with its condition true and no thread about to notify it, with these
      counters, exactly while somebody is alive who is not detached. */
  lemma UnnotifiedExactly(alive: nat, detached: nat)
    ensures (exists st :: Reachable(st) && Unnotified(st) && st.alive == alive && st.detached == detached)
            <==> detached < alive
  {
    forall st | Reachable(st) && Unnotified(st)
      ensures st.detached < st.alive
    {
      ReachableInv(st);
    }
    if detached < alive {
      var st := UnnotifiedRun(alive, detached);
    }
  }

  ghost predicate Unnotified(st: State) {
    st.waiter.BlockedAll? && AllCondition(st) && forall t :: !WillNotifyAll(st, t)
  }

  lemma Extend(st: State, a: Action) returns (st': State)
    requires Reachable(st) && Enabled(st, a)
    ensures Reachable(st') && st' == Apply(st, a)
  {
    var run :| Legal(INIT, run) && After(INIT, run) == st;
    RunAppend(INIT, run, a);
    st' := Apply(st, a);
  }

  lemma {:induction false} RunAppend(st: State, run: seq<Action>, a: Action)
    requires Legal(st, run) && Enabled(After(st, run), a)
    ensures Legal(st, run + [a]) && After(st, run + [a]) == Apply(After(st, run), a)
    decreases |run|
  {
    if run == [] {
      assert run + [a] == [a] && [a][1..] == [];
    } else {
      RunAppend(Apply(st, run[0]), run[1..], a);
      assert (run + [a])[1..] == run[1..] + [a];
    }
  }

  /** Only thread 0 ever did anything, and it is done. */
  function Quiet(alive: nat, detached: nat, waiter: Waiter): State {
    State(alive, detached, map[0 := Done], waiter)
  }

  lemma UnnotifiedRun(alive: nat, detached: nat) returns (st: State)
    requires detached < alive
    ensures Reachable(st) && Unnotified(st) && st == Quiet(alive, detached, BlockedAll)
  {
    assert Legal(INIT, []) && After(INIT, []) == INIT;
    st := Extend(INIT, IncAlive);
    st := Extend(st, IncDetached(0));
    st := Extend(st, Go(0));
    st := Extend(st, Go(0));
    assert st == Quiet(1, 1, LoadAlive);
    st := BlockedOnAll(st);
    if detached == 0 {
      st := Extend(st, DecDetached);
      st := Climb(1, 0, alive);
    } else {
      st := Climb(1, 1, alive);
      st := Detach(alive, 1, detached);
    }
  }

  lemma {:induction false} Climb(from: nat, detached: nat, alive: nat) returns (st: State)
    requires Reachable(Quiet(from, detached, BlockedAll)) && from <= alive
    ensures Reachable(st) && st == Quiet(alive, detached, BlockedAll)
    decreases alive - from
  {
    st := Quiet(from, detached, BlockedAll);
    if from < alive {
      st := Extend(st, IncAlive);
      assert st == Quiet(from + 1, detached, BlockedAll);
      st := Climb(from + 1, detached, alive);
    }
  }

  lemma {:induction false} Detach(alive: nat, from: nat, detached: nat) returns (st: State)
    requires Reachable(Quiet(alive, from, BlockedAll)) && from <= detached < alive
    ensures Reachable(st) && st == Quiet(alive, detached, BlockedAll)
    decreases detached - from
  {
    st := Quiet(alive, from, BlockedAll);
    if from < detached {
      st := Extend(st, IncDetached(0));
      st := Extend(st, Go(0));
      assert st.threads == map[0 := Done];
      assert st == Quiet(alive, from + 1, BlockedAll);
      st := Detach(alive, from + 1, detached);
    }
  }

  lemma BlockedOnAll(s0: State) returns (s: State)
    requires Reachable(s0) && s0 == Quiet(1, 1, LoadAlive)
    ensures Reachable(s) && s == Quiet(1, 1, BlockedAll)
  {
    hide Reachable;
    s := Extend(s0, Wait);
    s := Extend(s, Wait);
    s := Extend(s, Wait);
    s := Extend(s, Wait);
    s := Extend(s, Wait);
    s := Extend(s, Wait);
    s := Extend(s, Wait);
  }

  // ---------------------------------------------------------------- waiting comes to its end

  /** The waiter and the threads that are about to notify go on; nobody updates a counter. */
  predicate OwnStep(a: Action) {
    a.Wait? || a.Go?
  }

  ghost predicate GoesTo(st: State, st': State) {
    exists run :: Goes(st, run, st')
  }

  ghost predicate Goes(st: State, run: seq<Action>, st': State) {
    Legal(st, run) && After(st, run) == st' && forall k :: 0 <= k < |run| ==> OwnStep(run[k])
  }

  lemma GoesOn(st0: State, st: State, a: Action)
    requires Reachable(st) && GoesTo(st0, st) && Enabled(st, a) && OwnStep(a)
    ensures Reachable(Apply(st, a)) && GoesTo(st0, Apply(st, a))
  {
    var s := Extend(st, a);
    var run :| Goes(st0, run, st);
    RunAppend(st0, run, a);
    assert Goes(st0, run + [a], Apply(st, a));
  }

  /** How far the waiter is from the end once nobody is alive. */
  function Distance(w: Waiter): nat {
    match w
    case Returned => 0
    case LoadZero => 1
    case FlushTerminators => 2
    case LoadDetached(a) => if a == 0 then 3 else 6
    case TestAliveEqual(a) => if a == 0 then 3 else 7
    case LoadAlive => 4
    case TestAlive => 4
    case LockAlive => 5
    case BlockedAlive => 6
    case TestAll => 5
    case TestAllDiffer(_) => 5
    case LockAll => 6
    case BlockedAll => 7
  }

  /** A thread that will notify does so in its next steps. */
  lemma Woken(st0: State, st: State) returns (st': State)
    requires Reachable(st) && GoesTo(st0, st) && st.alive == 0 && (st.waiter.BlockedAlive? || st.waiter.BlockedAll?)
    ensures Reachable(st') && GoesTo(st0, st') && st'.alive == 0
    ensures st'.waiter == if st.waiter.BlockedAlive? then LockAlive else LockAll
  {
    ReachableInv(st);
    hide Reachable, GoesTo;
    if st.waiter.BlockedAlive? {
      var t :| WillNotifyAlive(st, t);
      PromiseIsKept(st, t);
      st' := Notified(st0, st, t);
    } else {
      var t :| WillNotifyAll(st, t);
      AllPromiseIsKept(st, t);
      st' := Notified(st0, st, t);
    }
  }

  lemma {:induction false} Notified(st0: State, st: State, t: Tid) returns (st': State)
    requires Reachable(st) && GoesTo(st0, st) && st.alive == st.detached == 0
    requires (st.waiter.BlockedAlive? && WillNotifyAlive(st, t)) || (st.waiter.BlockedAll? && WillNotifyAll(st, t))
    ensures Reachable(st') && GoesTo(st0, st') && st'.alive == 0
    ensures st'.waiter == if st.waiter.BlockedAlive? then LockAlive else LockAll
    decreases match ThreadOf(st, t) case Done => 0 case NotifyingAll => 1 case NotifyingAlive(_) => 2 case _ => 3
  {
    hide Reachable, GoesTo;
    GoesOn(st0, st, Go(t));
    st' := Apply(st, Go(t));
    if st'.waiter == st.waiter {
      st' := Notified(st0, st', t);
    }
  }

  lemma {:induction false} ComesToItsEnd(st0: State, st: State) returns (st': State)
    requires Reachable(st) && GoesTo(st0, st) && st.alive == 0
    ensures Reachable(st') && GoesTo(st0, st') && st'.waiter.Returned?
    decreases Distance(st.waiter)
  {
    ReachableInv(st);
    hide Reachable, GoesTo;
    if st.waiter.Returned? {
      st' := st;
    } else if st.waiter.BlockedAlive? || st.waiter.BlockedAll? {
      st' := Woken(st0, st);
      st' := ComesToItsEnd(st0, st');
    } else {
      GoesOn(st0, st, Wait);
      st' := ComesToItsEnd(st0, Apply(st, Wait));
    }
  }

  lemma {:induction false} OwnStepsKeepAlive(st: State, run: seq<Action>)
    requires Legal(st, run) && forall k :: 0 <= k < |run| ==> OwnStep(run[k])
    ensures After(st, run).alive == st.alive
    decreases |run|
  {
    if run != [] {
      OwnStepsKeepAlive(Apply(st, run[0]), run[1..]);
    }
  }

  lemma {:induction false} ReturnsOnlyAtZero(st: State, run: seq<Action>)
    requires Legal(st, run) && !st.waiter.Returned? && After(st, run).waiter.Returned?
    requires forall k :: 0 <= k < |run| ==> OwnStep(run[k])
    ensures st.alive == 0
    decreases |run|
  {
    var k := ZeroLoaded(st, run);
    OwnStepsKeepAlive(st, run[..k]);
  }

  /** While nobody updates the counters, a waiter that did not return can come to its return, by its own steps
      and those of threads about to notify, if and only if nobody is alive. */
  lemma ReturnsExactlyWhenAllDone(st: State)
    requires Reachable(st) && !st.waiter.Returned?
    ensures (exists st' :: GoesTo(st, st') && st'.waiter.Returned?) <==> st.alive == 0
  {
    if st.alive == 0 {
      assert Goes(st, [], st);
      var st' := ComesToItsEnd(st, st);
    }
    forall st' | GoesTo(st, st') && st'.waiter.Returned?
      ensures st.alive == 0
    {
      var run :| Goes(st, run, st');
      ReturnsOnlyAtZero(st, run);
    }
  }

  // ---------------------------------------------------------------- the counters and the notifications

  /** What a step does to the counters. */
  function AliveBy(run: seq<Action>): int {
    if run == [] then 0
    else (if run[0].IncAlive? then 1 else if run[0].DecAlive? then -1 else 0) + AliveBy(run[1..])
  }

  function DetachedBy(run: seq<Action>): int {
    if run == [] then 0
    else (if run[0].IncDetached? then 1 else if run[0].DecDetached? then -1 else 0) + DetachedBy(run[1..])
  }

  lemma {:induction false} CountersOfRun(st: State, run: seq<Action>)
    requires Legal(st, run)
    ensures After(st, run).alive == st.alive + AliveBy(run) && After(st, run).detached == st.detached + DetachedBy(run)
    decreases |run|
  {
    if run != [] {
      CountersOfRun(Apply(st, run[0]), run[1..]);
    }
  }

  /** A thread goes on to notify exactly if what its update left is what it loads of the other counter, or
      if its update left nobody alive; and a waiter that wakes up, for whatever reason, tests again. */
  lemma NotifiesExactly(st: State, t: Tid)
    requires Enabled(st, Go(t))
    ensures var was, next := ThreadOf(st, t), ThreadOf(Apply(st, Go(t)), t);
            && (next.NotifyingAlive? <==>
                  (was.Incremented? && was.detached == st.alive) || (was.Decremented? && was.alive == st.detached))
            && (next.NotifyingAll? <==>
                  (was.Decremented? && was.alive == 0 && st.detached != 0) || (was.NotifyingAlive? && was.thenAlive == Some(0)))
  {
  }

  lemma WakesToTest(st: State, a: Action)
    requires Enabled(st, a) && (st.waiter.BlockedAlive? || st.waiter.BlockedAll?)
    ensures var w := Apply(st, a).waiter;
            && (w != st.waiter ==> w == if st.waiter.BlockedAlive? then LockAlive else LockAll)
            && (a.Spurious? ==> w != st.waiter)
  {
  }
}
