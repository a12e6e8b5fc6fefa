/** What every step of the wake-up protocol keeps. */
module WakeUpInvariant {
  import opened Words
  import opened RingSlots
  import opened WakeUp
  import opened Wrappers

  /** Where the reader stands in the queue of `s`, if it is there. */
  function FocusOn(st: State, s: Id): Option<Focus>
    requires st.reader.At? ==> st.reader.i < |st.active|
  {
    if st.reader.At? && st.active[st.reader.i] == s then Some(st.reader.focus) else None
  }

  /** The reader stored false for this visit: the entry is still listed but holds no token any more. */
  predicate PastStore(f: Option<Focus>) {
    f.Some? && (f.value.Stored? || ((f.value.Popping? || f.value.Bumping?) && f.value.final))
  }

  predicate Draining(f: Option<Focus>) {
    f.Some? && (f.value.Popping? || f.value.Bumping?)
  }

  /** Items whose slot the reader gave back. */
  function Popped(q: Queue, f: Option<Focus>): int {
    |q.delivered| - if f.Some? && f.value.Bumping? then 1 else 0
  }

  /** The ring refines a queue: slots hold exactly what was published and not yet given back. */
  ghost predicate RingInv(c: Config, q: Queue, f: Option<Focus>) {
    var r := Popped(q, f);
    && 0 <= r
    && |q.items| == Cap(c)
    && |q.delivered| <= |q.log|
    && q.delivered == q.log[..|q.delivered|]
    && Holds(q.items, q.log, r)
    && q.readIdx == r % U32
    && q.writeIdx == |q.log| % U32
    && (q.writer.Writing? || q.writer.Publishing? ==> |q.log| < r + |q.items|)
    && (q.writer.Publishing? ==> q.items[|q.log| % |q.items|] == q.writer.x)
  }

  ghost predicate DrainInv(c: Config, q: Queue, f: Option<Focus>) {
    Draining(f) ==>
      var r := Popped(q, f);
      && r <= q.snapAt <= |q.log|
      && q.snapAt <= q.snapFrom + Cap(c)
      && f.value.snap == q.snapAt % U32
      && r == q.snapFrom + f.value.count
      && f.value.count <= c.budget
      && (f.value.Bumping? ==> f.value.count < c.budget && r < q.snapAt)
  }

  function Indicator(b: bool): nat {
    if b then 1 else 0
  }

  /** Tokens entitling someone to have the reader look at the queue: a writer about to notify, a
      notification in flight, an entry of the active list before it stored false. */
  ghost function Tokens(q: Queue, active: bool, f: Option<Focus>): nat {
    Indicator(q.writer.Notifying?) + multiset(q.mail)[Notification] + Indicator(active && !PastStore(f))
  }

  ghost predicate TokenInv(q: Queue, active: bool, f: Option<Focus>) {
    && Tokens(q, active, f) == Indicator(q.mayHaveMessage)
    && (f.Some? ==> active)
  }

  ghost predicate MailInv(q: Queue, active: bool) {
    && (active ==> q.registered)
    && (!q.connected ==> q.mail == [] && !q.registered && q.writer.Ready?)
    && (q.registered ==> multiset(q.mail)[Registration] == 0)
    && (q.connected && !q.registered ==>
          q.mail != [] && q.mail[0] == Registration && multiset(q.mail)[Registration] == 1)
  }

  /** With a budget of at least the capacity nothing stays behind a false flag, except an item whose
      writer did not exchange the flag yet. */
  ghost predicate QuietInv(c: Config, q: Queue, f: Option<Focus>) {
    c.budget >= Cap(c) && !q.mayHaveMessage && (f.None? || !f.value.Stored?) ==>
      |q.log| <= (if Draining(f) then q.snapAt else |q.delivered|) + Indicator(q.writer.Exchanging?)
  }

  /** The reader's own queue: nothing is pushed to it between an empty read and the end of the final
      drain, so with any positive budget that drain finds it empty. */
  ghost predicate OwnInv(c: Config, q: Queue, f: Option<Focus>) {
    c.budget > 0 ==>
      && (f.Some? && f.value.Popping? && (f.value.count == 0 || f.value.final) ==> q.snapAt == |q.log|)
      && (PastStore(f) || (f.Some? && f.value.Storing?) ==>
            |q.delivered| == |q.log| && !f.value.Bumping? && (f.value.Popping? ==> f.value.count == 0))
      && (f.None? && !q.mayHaveMessage ==> |q.log| <= |q.delivered| + Indicator(q.writer.Exchanging?))
  }

  /** A queue with a sleeping reader is never full, but for an item whose writer is about to wake the
      reader; so a writer that waits for room does not wait for ever. */
  ghost predicate RoomInv(c: Config, q: Queue, f: Option<Focus>) {
    c.budget > 0 && !q.mayHaveMessage ==>
      if Draining(f) then |q.log| <= q.snapAt + Indicator(q.writer.Exchanging?)
      else if f.None? then |q.log| < |q.delivered| + Cap(c) + Indicator(q.writer.Exchanging?)
      else true
  }

  ghost predicate QueueInv(c: Config, q: Queue, active: bool, f: Option<Focus>) {
    && RingInv(c, q, f)
    && DrainInv(c, q, f)
    && TokenInv(q, active, f)
    && MailInv(q, active)
    && QuietInv(c, q, f)
    && RoomInv(c, q, f)
  }

  ghost predicate Inv(c: Config, st: State) {
    && Shape(c, st)
    && NoRepeats(st.active)
    && st.consumptions == Indicator(st.reader.Idle? && st.active != [])
    && (forall s | s in st.queues :: QueueInv(c, st.queues[s], s in st.active, FocusOn(st, s)))
    && (c.own in st.queues ==> OwnInv(c, st.queues[c.own], FocusOn(st, c.own)))
  }

  // ---------------------------------------------------------------- one queue at a time

  lemma InitInv(c: Config)
    requires ValidConfig(c)
    ensures Inv(c, Init(c))
  {
    var st := Init(c);
    forall s | s in st.queues
      ensures |st.queues[s].items| == Cap(c) && QueueInv(c, st.queues[s], false, None)
    {
    }
  }

  lemma MailAppend(mail: seq<Mail>, m: Mail)
    ensures multiset(mail + [m]) == multiset(mail) + multiset{m}
  {
  }

  lemma MailPop(mail: seq<Mail>)
    requires mail != []
    ensures multiset(mail) == multiset{mail[0]} + multiset(mail[1..])
  {
    assert mail == [mail[0]] + mail[1..];
  }

  lemma WriterKeeps(c: Config, q: Queue, active: bool, f: Option<Focus>, w: WriterAction)
    requires ValidConfig(c) && QueueInv(c, q, active, f)
    requires WriterEnabled(q, w)
    requires Slot(q, q.writeIdx) < |q.items|
    ensures QueueInv(c, WriterStep(q, w), active, f)
  {
    WriterKeepsRing(c, q, f, w);
    WriterKeepsTokens(c, q, active, f, w);
    WriterKeepsRoom(c, q, f, w);
  }

  lemma WriterKeepsRoom(c: Config, q: Queue, f: Option<Focus>, w: WriterAction)
    requires RingInv(c, q, f) && RoomInv(c, q, f) && WriterEnabled(q, w)
    requires Slot(q, q.writeIdx) < |q.items|
    ensures RoomInv(c, WriterStep(q, w), f)
  {
  }

  lemma WriterKeepsRing(c: Config, q: Queue, f: Option<Focus>, w: WriterAction)
    requires ValidConfig(c) && RingInv(c, q, f)
    requires WriterEnabled(q, w)
    requires Slot(q, q.writeIdx) < |q.items|
    ensures RingInv(c, WriterStep(q, w), f)
  {
    var r := Popped(q, f);
    match w
    case LoadIndex => FullTest(r, |q.log|, c.scale);
    case WriteSlot => WriteSlotKeepsRing(c, q, f);
    case Publish => PublishKeepsRing(c, q, f);
    case _ =>
  }

  lemma WriteSlotKeepsRing(c: Config, q: Queue, f: Option<Focus>)
    requires ValidConfig(c) && RingInv(c, q, f) && q.writer.Writing?
    requires Slot(q, q.writeIdx) < |q.items|
    ensures RingInv(c, WriterStep(q, WriteSlot), f)
  {
    MaskOfWrapped(|q.log|, c.scale);
    assert Slot(q, q.writeIdx) == |q.log| % |q.items|;
    StaleWriterIsSafe(q.items, q.log, Popped(q, f), Popped(q, f), q.writer.x);
  }

  lemma PublishKeepsRing(c: Config, q: Queue, f: Option<Focus>)
    requires RingInv(c, q, f) && q.writer.Publishing?
    requires Slot(q, q.writeIdx) < |q.items|
    ensures RingInv(c, WriterStep(q, Publish), f)
  {
    StaleWriterIsSafe(q.items, q.log, Popped(q, f), Popped(q, f), q.writer.x);
    assert q.items[|q.log| % |q.items| := q.writer.x] == q.items;
    WrappedSuccessor(|q.log|);
  }

  lemma WriterKeepsTokens(c: Config, q: Queue, active: bool, f: Option<Focus>, w: WriterAction)
    requires DrainInv(c, q, f) && TokenInv(q, active, f) && MailInv(q, active) && QuietInv(c, q, f)
    requires WriterEnabled(q, w) && |q.items| > 0
    requires Slot(q, q.writeIdx) < |q.items|
    ensures DrainInv(c, WriterStep(q, w), f) && TokenInv(WriterStep(q, w), active, f)
    ensures MailInv(WriterStep(q, w), active) && QuietInv(c, WriterStep(q, w), f)
  {
    match w
    case Connect => MailAppend(q.mail, Registration);
    case Notify => MailAppend(q.mail, Notification);
    case _ =>
  }

  lemma ReceiveKeeps(c: Config, q: Queue, active: bool)
    requires QueueInv(c, q, active, None) && q.mail != []
    ensures q.mail[0].Registration? ==> QueueInv(c, q.(mail := q.mail[1..], registered := true), active, None)
    ensures q.mail[0].Notification? ==> q.registered && !active && QueueInv(c, q.(mail := q.mail[1..]), true, None)
  {
    MailPop(q.mail);
  }

  /** What a reader's step inside a queue leaves. */
  ghost predicate OutcomeInv(c: Config, q: Queue, out: Outcome) {
    match out
    case Stay(f) => QueueInv(c, q, true, Some(f))
    case Next => QueueInv(c, q, true, None)
    case Remove => QueueInv(c, q, false, None)
  }

  lemma ReadKeeps(c: Config, q: Queue, f: Focus)
    requires ValidConfig(c) && QueueInv(c, q, true, Some(f))
    requires Slot(q, q.readIdx) < |q.items|
    ensures OutcomeInv(c, ReadStep(c, q, f).0, ReadStep(c, q, f).1)
  {
    CapacityBound(c.scale);
    var r := Popped(q, Some(f));
    if f.Popping? {
      WrappedEquality(r, q.snapAt);
    }
    ReadKeepsRing(c, q, f);
    ReadKeepsTokens(c, q, f);
    ReadKeepsRoom(c, q, f);
  }

  lemma ReadKeepsRoom(c: Config, q: Queue, f: Focus)
    requires DrainInv(c, q, Some(f)) && TokenInv(q, true, Some(f)) && RoomInv(c, q, Some(f)) && Cap(c) > 0
    requires |q.items| > 0 && Slot(q, q.readIdx) < |q.items|
    requires f.Popping? ==> (q.readIdx == f.snap <==> Popped(q, Some(f)) == q.snapAt)
    ensures RoomInv(c, ReadStep(c, q, f).0, FocusAfter(ReadStep(c, q, f).1))
  {
  }

  function FocusAfter(out: Outcome): Option<Focus> {
    if out.Stay? then Some(out.focus) else None
  }

  lemma ReadKeepsRing(c: Config, q: Queue, f: Focus)
    requires ValidConfig(c) && RingInv(c, q, Some(f))
    requires Slot(q, q.readIdx) < |q.items|
    requires f.Popping? && q.readIdx != f.snap ==> Popped(q, Some(f)) < |q.log|
    ensures RingInv(c, ReadStep(c, q, f).0, FocusAfter(ReadStep(c, q, f).1))
  {
    match f
    case Popping(snap, count, final) =>
      if q.readIdx != snap && count < c.budget {
        HandleKeepsRing(c, q, f);
      }
    case Bumping(snap, count, final) => BumpKeepsRing(c, q, f);
    case _ =>
  }

  lemma HandleKeepsRing(c: Config, q: Queue, f: Focus)
    requires ValidConfig(c) && RingInv(c, q, Some(f)) && f.Popping?
    requires |q.delivered| < |q.log|
    requires Slot(q, q.readIdx) < |q.items|
    ensures RingInv(c, q.(delivered := q.delivered + [q.items[Slot(q, q.readIdx)]]),
                    Some(Bumping(f.snap, f.count, f.final)))
  {
    var r := |q.delivered|;
    MaskOfWrapped(r, c.scale);
    assert Slot(q, q.readIdx) == r % |q.items|;
    assert q.items[r % |q.items|] == q.log[r];
    assert q.log[..r] + [q.log[r]] == q.log[..r + 1];
  }

  lemma BumpKeepsRing(c: Config, q: Queue, f: Focus)
    requires RingInv(c, q, Some(f)) && f.Bumping?
    ensures RingInv(c, q.(readIdx := Add32(q.readIdx, 1)), Some(Popping(f.snap, f.count + 1, f.final)))
  {
    WrappedSuccessor(Popped(q, Some(f)));
  }

  lemma ReadKeepsTokens(c: Config, q: Queue, f: Focus)
    requires DrainInv(c, q, Some(f)) && TokenInv(q, true, Some(f)) && MailInv(q, true) && QuietInv(c, q, Some(f))
    requires |q.items| > 0 && Slot(q, q.readIdx) < |q.items|
    requires |q.delivered| <= |q.log| <= Popped(q, Some(f)) + Cap(c) && q.writeIdx == |q.log| % U32
    requires f.Popping? ==> (q.readIdx == f.snap <==> Popped(q, Some(f)) == q.snapAt)
    ensures var r := ReadStep(c, q, f);
            && DrainInv(c, r.0, FocusAfter(r.1))
            && TokenInv(r.0, !r.1.Remove?, FocusAfter(r.1))
            && MailInv(r.0, !r.1.Remove?)
            && QuietInv(c, r.0, FocusAfter(r.1))
  {
  }

  lemma VisitKeeps(c: Config, q: Queue)
    requires QueueInv(c, q, true, None)
    ensures QueueInv(c, Visited(q), true, Some(Popping(q.writeIdx, 0, false)))
  {
  }

  // ---------------------------------------------------------------- the reader's own queue

  lemma OwnWriterKeeps(c: Config, q: Queue, f: Option<Focus>, w: WriterAction)
    requires OwnInv(c, q, f) && (f.None? || f.value.Bumping?)
    requires WriterEnabled(q, w) && |q.items| > 0 && Slot(q, q.writeIdx) < |q.items|
    ensures OwnInv(c, WriterStep(q, w), f)
  {
  }

  lemma OwnReceiveKeeps(c: Config, q: Queue, f: Option<Focus>, mail: seq<Mail>, registered: bool)
    ensures OwnInv(c, q, f) ==> OwnInv(c, q.(mail := mail, registered := registered), f)
  {
  }

  lemma OwnReadKeeps(c: Config, q: Queue, f: Focus)
    requires ValidConfig(c) && QueueInv(c, q, true, Some(f)) && OwnInv(c, q, Some(f))
    requires Slot(q, q.readIdx) < |q.items|
    ensures var r := ReadStep(c, q, f); OwnInv(c, r.0, FocusAfter(r.1))
  {
    CapacityBound(c.scale);
    if f.Popping? {
      WrappedEquality(Popped(q, Some(f)), q.snapAt);
    }
  }

  lemma OwnVisitKeeps(c: Config, q: Queue)
    ensures OwnInv(c, Visited(q), Some(Popping(q.writeIdx, 0, false)))
  {
  }
}
