/**
 Many writers, one reader, and the flag that decides who wakes the reader.

 Every sender has its own delivery queue towards one receiving actor. A step is one shared-memory
 access or one message handled, under sequential consistency. The fields from `log` on are history: no
 step reads them to decide anything. `visits` counts how often the reader turned to the queue, `sleeps`
 how often it stored false.
 */
module WakeUp {
  import opened Words

  type Id = nat
  type Message = int

  /** `budget` is the bound on one drain, `maxEmpty` the number of empty reads before sleeping.
      The actor's consume loop passes `max_empty_read` for both. `own` is the reader's own id, whose
      queue exists from the start. */
  datatype Config = Config(scale: nat, budget: u32, maxEmpty: u32, senders: set<Id>, own: Id)

  ghost predicate ValidConfig(c: Config) {
    c.scale <= 31
  }

  function Cap(c: Config): nat {
    Pow2(c.scale)
  }

  datatype Mail = Registration | Notification

  /** Where the sender stands inside `push`. */
  datatype Writer =
    | Ready
    | Loading(x: Message)     // about to load the read index
    | Writing(x: Message)     // saw room, about to fill the slot
    | Publishing(x: Message)  // about to bump the write index
    | Exchanging              // about to exchange the flag
    | Notifying               // the flag was false: about to send the notification

  datatype Queue = Queue(
    items: seq<Message>,
    writeIdx: u32,
    readIdx: u32,
    mayHaveMessage: bool,
    numEmpty: u32,
    writer: Writer,
    connected: bool,
    mail: seq<Mail>,
    registered: bool,
    log: seq<Message>,
    delivered: seq<Message>,
    snapAt: nat,
    snapFrom: nat,
    visits: nat,
    sleeps: nat)

  /** Where the reader stands inside `pop_some` on one queue. `final` marks the drain after the flag
      was stored. */
  datatype Focus =
    | Popping(snap: u32, count: nat, final: bool)
    | Bumping(snap: u32, count: nat, final: bool)  // the handler returned, the read index did not move yet
    | Storing                                      // about to store false
    | Stored                                       // about to take the snapshot of the final drain

  datatype Reader =
    | Idle
    | Visit(i: nat, n: nat)
    | At(i: nat, n: nat, focus: Focus)

  datatype State = State(queues: map<Id, Queue>, active: seq<Id>, consumptions: nat, reader: Reader)

  datatype WriterAction = Connect | Send(x: Message) | LoadIndex | WriteSlot | Publish | Exchange | Notify

  datatype Action = Sender(s: Id, w: WriterAction) | Receive(s: Id) | Consume | Read

  function EmptyQueue(c: Config, own: bool): Queue {
    Queue(seq(Cap(c), _ => 0), 0, 0, false, 0, Ready, own, [], own, [], [], 0, 0, 0, 0)
  }

  function Init(c: Config): State {
    State(map s | s in c.senders :: EmptyQueue(c, s == c.own), [], 0, Idle)
  }

  // ---------------------------------------------------------------- the writer

  predicate WriterEnabled(q: Queue, w: WriterAction) {
    match w
    case Connect => q.writer.Ready? && !q.connected
    case Send(_) => q.writer.Ready? && q.connected
    case LoadIndex => q.writer.Loading?
    case WriteSlot => q.writer.Writing?
    case Publish => q.writer.Publishing?
    case Exchange => q.writer.Exchanging?
    case Notify => q.writer.Notifying?
  }

  function Slot(q: Queue, idx: u32): nat
    requires |q.items| > 0
  {
    And(idx, |q.items| - 1)
  }

  function WriterStep(q: Queue, w: WriterAction): (q': Queue)
    requires |q.items| > 0 && Slot(q, q.writeIdx) < |q.items|
    requires WriterEnabled(q, w)
    ensures |q'.items| == |q.items|
  {
    match w
    case Connect => q.(connected := true, mail := q.mail + [Registration])
    case Send(x) => q.(writer := Loading(x))
    case LoadIndex =>
      if Sub32(q.writeIdx, |q.items|) == q.readIdx then q else q.(writer := Writing(q.writer.x))
    case WriteSlot =>
      q.(items := q.items[Slot(q, q.writeIdx) := q.writer.x], writer := Publishing(q.writer.x))
    case Publish => q.(writeIdx := Add32(q.writeIdx, 1), log := q.log + [q.writer.x], writer := Exchanging)
    case Exchange => q.(mayHaveMessage := true, writer := if q.mayHaveMessage then Ready else Notifying)
    case Notify => q.(mail := q.mail + [Notification], writer := Ready)
  }

  // ---------------------------------------------------------------- the reader inside one queue

  /** What the reader does next: stay in this queue, go on to the next one, or remove this one. */
  datatype Outcome = Stay(focus: Focus) | Next | Remove

  function Snapshot(q: Queue): Queue {
    q.(snapAt := |q.log|, snapFrom := |q.delivered|)
  }

  /** The reader turns to the queue. */
  function Visited(q: Queue): Queue {
    Snapshot(q).(visits := q.visits + 1)
  }

  function ReadStep(c: Config, q: Queue, f: Focus): (r: (Queue, Outcome))
    requires |q.items| > 0 && Slot(q, q.readIdx) < |q.items|
    ensures |r.0.items| == |q.items|
  {
    match f
    case Popping(snap, count, final) =>
      if q.readIdx != snap && count < c.budget then
        (q.(delivered := q.delivered + [q.items[Slot(q, q.readIdx)]]), Stay(Bumping(snap, count, final)))
      else if final then
        (q.(numEmpty := 0), Remove)
      else if count != 0 then
        (q.(numEmpty := 0), Next)
      else
        (q.(numEmpty := Add32(q.numEmpty, 1)), if Add32(q.numEmpty, 1) == c.maxEmpty then Stay(Storing) else Next)
    case Bumping(snap, count, final) =>
      (q.(readIdx := Add32(q.readIdx, 1)), Stay(Popping(snap, count + 1, final)))
    case Storing =>
      (q.(mayHaveMessage := false, sleeps := q.sleeps + 1), Stay(Stored))
    case Stored =>
      (Snapshot(q), Stay(Popping(q.writeIdx, 0, true)))
  }

  // ---------------------------------------------------------------- the whole system

  ghost predicate Shape(c: Config, st: State) {
    && st.queues.Keys == c.senders
    && (forall s | s in st.queues :: |st.queues[s].items| == Cap(c))
    && (forall s | s in st.active :: s in c.senders)
    && (st.reader.Visit? ==> st.reader.i <= st.reader.n == |st.active|)
    && (st.reader.At? ==> st.reader.i < st.reader.n == |st.active|)
  }

  /** User code of the reader may run: between two messages, or inside the handler of one. */
  predicate HandlersRun(st: State) {
    st.reader.Idle? || (st.reader.At? && st.reader.focus.Bumping?)
  }

  /** The reader's own queue is written by the reader's own user code. */
  predicate Enabled(c: Config, st: State, a: Action) {
    match a
    case Sender(s, w) => s in st.queues && WriterEnabled(st.queues[s], w) && (s == c.own ==> HandlersRun(st))
    case Receive(s) => st.reader.Idle? && s in st.queues && st.queues[s].mail != []
    case Consume => st.reader.Idle? && st.consumptions > 0
    case Read => !st.reader.Idle?
  }

  lemma SlotInRange(c: Config, q: Queue, idx: u32)
    requires |q.items| == Cap(c)
    ensures Slot(q, idx) == idx % Cap(c) < Cap(c)
  {
    AndMask(idx, c.scale);
  }

  function SwapRemove<T>(a: seq<T>, i: nat): seq<T>
    requires i < |a|
  {
    a[i := a[|a| - 1]][..|a| - 1]
  }

  ghost function Apply(c: Config, st: State, a: Action): State
    requires Shape(c, st) && Enabled(c, st, a)
  {
    match a
    case Sender(s, w) =>
      SlotInRange(c, st.queues[s], st.queues[s].writeIdx);
      st.(queues := st.queues[s := WriterStep(st.queues[s], w)])
    case Receive(s) =>
      var q := st.queues[s];
      var rest := q.(mail := q.mail[1..]);
      if q.mail[0].Registration? then
        st.(queues := st.queues[s := rest.(registered := true)])
      else
        st.(queues := st.queues[s := rest],
            active := st.active + [s],
            consumptions := st.consumptions + if st.active == [] then 1 else 0)
    case Consume =>
      st.(consumptions := st.consumptions - 1, reader := Visit(0, |st.active|))
    case Read =>
      match st.reader
      case Visit(i, n) =>
        if i < n then
          var s := st.active[i];
          var q := st.queues[s];
          st.(queues := st.queues[s := Visited(q)], reader := At(i, n, Popping(q.writeIdx, 0, false)))
        else
          st.(consumptions := st.consumptions + (if st.active == [] then 0 else 1), reader := Idle)
      case At(i, n, f) =>
        var s := st.active[i];
        SlotInRange(c, st.queues[s], st.queues[s].readIdx);
        var (q, out) := ReadStep(c, st.queues[s], f);
        var next := st.(queues := st.queues[s := q]);
        match out
        case Stay(f') => next.(reader := At(i, n, f'))
        case Next => next.(reader := Visit(i + 1, n))
        case Remove => next.(active := SwapRemove(st.active, i), reader := Visit(i, n - 1))
  }

  /** Exactly the element at `i` leaves a list without repetitions; the last one takes its place, and all
      others keep theirs. */
  lemma SwapRemoveOne<T>(a: seq<T>, i: nat)
    requires i < |a|
    ensures |SwapRemove(a, i)| == |a| - 1
    ensures forall k :: 0 <= k < |a| - 1 ==> SwapRemove(a, i)[k] == if k == i then a[|a| - 1] else a[k]
    ensures forall x :: x in SwapRemove(a, i) ==> x in a
    ensures NoRepeats(a) ==> NoRepeats(SwapRemove(a, i))
    ensures NoRepeats(a) ==> forall x :: x in SwapRemove(a, i) <==> x in a && x != a[i]
  {
    var b := SwapRemove(a, i);
    if NoRepeats(a) {
      forall x | x in a && x != a[i]
        ensures x in b
      {
        var j :| 0 <= j < |a| && a[j] == x;
        assert b[if j == |a| - 1 then i else j] == x;
      }
    }
  }

  /** Who is listed, and who has yet to be visited, after the turn of the queue at i. */
  lemma RestOfList(list: seq<Id>, i: nat, removed: bool)
    requires NoRepeats(list) && i < |list|
    ensures var list', i' := if removed then SwapRemove(list, i) else list, if removed then i else i + 1;
            && NoRepeats(list') && i' <= |list'|
            && (forall s :: s in list'[i'..] <==> s in list[i..] && s != list[i])
            && (forall s :: s in list' <==> s in list && (removed ==> s != list[i]))
            && list[i] !in list'[i'..]
  {
    SwapRemoveOne(list, i);
    if removed {
      var b := SwapRemove(list, i);
      forall s | s in list[i..] && s != list[i]
        ensures s in b[i..]
      {
        var j :| i <= j < |list| && list[j] == s;
        assert b[if j == |list| - 1 then i else j] == s;
      }
    }
  }

  ghost predicate NoRepeats<T>(a: seq<T>) {
    forall i, j :: 0 <= i < j < |a| ==> a[i] != a[j]
  }

  lemma ApplyKeepsShape(c: Config, st: State, a: Action)
    requires Shape(c, st) && Enabled(c, st, a)
    ensures Shape(c, Apply(c, st, a))
  {
    match a
    case Sender(s, w) =>
      SlotInRange(c, st.queues[s], st.queues[s].writeIdx);
      ReplaceKeepsShape(c, st, s, WriterStep(st.queues[s], w));
    case Receive(s) =>
      var q := st.queues[s].(mail := st.queues[s].mail[1..]);
      ReplaceKeepsShape(c, st, s, q);
      ReplaceKeepsShape(c, st, s, q.(registered := true));
    case Consume =>
    case Read =>
      ReadKeepsShape(c, st);
  }

  lemma ReplaceKeepsShape(c: Config, st: State, s: Id, q: Queue)
    requires Shape(c, st) && s in st.queues && |q.items| == Cap(c)
    ensures Shape(c, st.(queues := st.queues[s := q]))
  {
  }

  lemma ReadKeepsShape(c: Config, st: State)
    requires Shape(c, st) && Enabled(c, st, Read)
    ensures Shape(c, Apply(c, st, Read))
  {
    match st.reader
    case Visit(i, n) =>
      if i < n {
        ReplaceKeepsShape(c, st, st.active[i], Visited(st.queues[st.active[i]]));
      }
    case At(i, n, f) =>
      var s := st.active[i];
      SlotInRange(c, st.queues[s], st.queues[s].readIdx);
      ReplaceKeepsShape(c, st, s, ReadStep(c, st.queues[s], f).0);
      SwapRemoveOne(st.active, i);
  }

  ghost predicate Legal(c: Config, st: State, run: seq<Action>)
    requires Shape(c, st)
    decreases |run|
  {
    run == [] || (Enabled(c, st, run[0]) &&
                  (ApplyKeepsShape(c, st, run[0]); Legal(c, Apply(c, st, run[0]), run[1..])))
  }

  ghost function After(c: Config, st: State, run: seq<Action>): (r: State)
    requires Shape(c, st) && Legal(c, st, run)
    ensures Shape(c, r)
    decreases |run|
  {
    if run == [] then st
    else (ApplyKeepsShape(c, st, run[0]); After(c, Apply(c, st, run[0]), run[1..]))
  }

  ghost predicate Reachable(c: Config, st: State) {
    Shape(c, Init(c)) && exists run :: Legal(c, Init(c), run) && After(c, Init(c), run) == st
  }
}
