/**
 The single-writer single-reader delivery queue as an object, one thread at a time. What two threads
 do to it at once is the subject of the module WakeUp.
 */
module DeliveryQueue {
  import opened Words
  import opened RingSlots
  import opened RingGrowth

  datatype FullStrategy = Blocking | Resize | Giveup

  /** What a message handler does to its own queue: it may send, and it may stop the drain. */
  datatype Effect<T> = Effect(sent: seq<T>, stop: bool)

  /** What the handlers of these messages sent, in order. */
  ghost function SentBy<T>(effects: T -> Effect<T>, handled: seq<T>): seq<T> {
    if handled == [] then []
    else SentBy(effects, handled[..|handled| - 1]) + effects(handled[|handled| - 1]).sent
  }

  /** `num` is how far a drain gets: to the end, to the budget, or past the first handler that stops it. */
  ghost predicate PrefixAllowed<T>(effects: T -> Effect<T>, queued: seq<T>, max: nat, num: nat) {
    && num <= |queued| && num <= max
    && (forall i :: 0 <= i < num - 1 ==> !effects(queued[i]).stop)
    && (num == |queued| || num == max || (num > 0 && effects(queued[num - 1]).stop))
  }

  /** After `num` handlers of a drain over `c`: what is queued, and whether the last handler stopped it. */
  ghost predicate DrainedTo<T>(effects: T -> Effect<T>, c: seq<T>, num: nat, queued: seq<T>, stop: bool) {
    && num <= |c|
    && queued == c[num..] + SentBy(effects, c[..num])
    && (stop <==> num > 0 && effects(c[num - 1]).stop)
    && (forall i :: 0 <= i < num - 1 ==> !effects(c[i]).stop)
  }

  lemma DrainOne<T>(effects: T -> Effect<T>, c: seq<T>, num: nat, queued: seq<T>)
    requires DrainedTo(effects, c, num, queued, false) && num < |c|
    ensures queued != []
    ensures DrainedTo(effects, c, num + 1, queued[1..] + effects(queued[0]).sent, effects(queued[0]).stop)
  {
    assert queued[0] == c[num];
    assert c[..num + 1][..num] == c[..num];
  }

  lemma DrainStarts<T>(effects: T -> Effect<T>, c: seq<T>)
    ensures DrainedTo(effects, c, 0, c, false)
  {
  }

  lemma DrainEnds<T>(effects: T -> Effect<T>, c: seq<T>, max: nat, num: nat, queued: seq<T>, stop: bool)
    requires DrainedTo(effects, c, num, queued, stop) && num <= max
    requires num == |c| || stop || num == max
    ensures PrefixAllowed(effects, c, max, num)
    ensures num <= |c| && queued == c[num..] + SentBy(effects, c[..num])
  {
  }

  lemma HandlerFits(n: nat, i: nat, sends: nat)
    requires i < n && n * (sends + 1) < 0x8000_0000
    ensures n - i + i * sends + sends < 0x8000_0000
    ensures (i + 1) * sends == i * sends + sends
  {
    assert (i + 1) * sends <= n * sends;
  }

  class SwsrDeliveryQueue<T(!new)> {
    var writeIdx: u32
    var readIdx: u32
    var mayHaveMessage: bool
    var cap: u32
    var bitMask: u32
    var items: seq<T>
    var flagStopPopSome: bool
    var numEmptyRead: u32
    var maxEmptyRead: u32
    const blank: T // a default-constructed item

    ghost var scale: nat
    ghost var log: seq<T>   // everything pushed
    ghost var popped: nat
    ghost var aligned: bool // every growth so far happened while the new bit of readIdx was clear

    ghost predicate Valid()
      reads this
    {
      && cap == |items| && bitMask == cap - 1
      && Sound(Ring(items, writeIdx, readIdx), scale, log, popped)
    }

    ghost function State(): Ring<T>
      reads this
    {
      Ring(items, writeIdx, readIdx)
    }

    ghost function Queued(): seq<T>
      reads this
      requires Valid()
    {
      Contents(State())
    }

    constructor (k: nat, blank: T)
      requires k <= 31
      ensures Valid() && Queued() == [] && cap == Pow2(k) && aligned && !mayHaveMessage
      ensures this.blank == blank && maxEmptyRead == 100
    {
      CapacityBound(k);
      writeIdx, readIdx, mayHaveMessage := 0, 0, false;
      cap := Pow2(k);
      bitMask := Pow2(k) - 1;
      items := seq(Pow2(k), _ => blank);
      flagStopPopSome, numEmptyRead, maxEmptyRead := false, 0, 100;
      this.blank := blank;
      scale, log, popped, aligned := k, [], 0, true;
      new;
      FullExactly(State(), scale, log, popped);
    }

    /** The growth inside `push` under Resize: twice the slots, then the prefix up to the write slot is
        moved behind the old slots. */
    method Grow()
      requires Valid() && Full(State()) && cap < 0x8000_0000
      modifies `items, `cap, `bitMask, `scale, `log, `aligned
      ensures Valid() && State() == Grown(old(State()), blank) && popped == old(popped)
      ensures |log| == old(|log|) && aligned == (old(aligned) && NewBitClear(readIdx, |old(items)|))
      ensures cap == 2 * old(cap)
      ensures old(Lost(State())) <= |old(Queued())|
      ensures Queued() == if NewBitClear(readIdx, |old(items)|) then old(Queued())
                          else Misplaced(old(Queued()), old(Lost(State())), blank)
    {
      hide And;
      ghost var before := State();
      ghost var log' := GrowFacts();
      var m := And(writeIdx, bitMask);
      items := items + seq(cap, _ => blank);
      items := items[..cap] + items[..m] + items[cap + m..];
      assert items == GrownItems(before.items, m, blank);
      cap := 2 * cap;
      bitMask := cap - 1;
      aligned := aligned && NewBitClear(readIdx, |before.items|);
      log, scale := log', scale + 1;
    }

    lemma GrowFacts() returns (log': seq<T>)
      requires Valid() && Full(State()) && cap < 0x8000_0000
      ensures scale <= 30 && And(writeIdx, bitMask) == writeIdx % |items| < |items|
      ensures Sound(Grown(State(), blank), scale + 1, log', popped) && |log'| == |log|
      ensures Lost(State()) <= |Queued()|
      ensures Contents(Grown(State(), blank)) == if NewBitClear(readIdx, |items|) then Queued()
                                                 else Misplaced(Queued(), Lost(State()), blank)
    {
      FullExactly(State(), scale, log, popped);
      PowerAtMost(scale);
      AndMask(writeIdx, scale);
      log' := GrownSound(State(), scale, log, popped, blank);
      FullExactly(Grown(State(), blank), scale + 1, log', popped);
    }

    /** The slot is filled, then the write index moves. */
    method Store(elem: T)
      requires Valid() && !Full(State())
      modifies `items, `writeIdx, `log
      ensures Valid() && State() == Stored(old(State()), elem)
      ensures log == old(log) + [elem] && Queued() == old(Queued()) + [elem]
    {
      FullExactly(State(), scale, log, popped);
      AndMask(writeIdx, scale);
      StoredSound(State(), scale, log, popped, elem);
      items := items[And(writeIdx, bitMask) := elem];
      writeIdx := Add32(writeIdx, 1);
      log := log + [elem];
      FullExactly(State(), scale, log, popped);
    }

    /** Waiting for room is the other thread's business: with Blocking the queue has room here. */
    method Push(elem: T, s: FullStrategy) returns (ok: bool)
      requires Valid()
      requires s.Blocking? ==> !Full(State())
      requires s.Resize? && Full(State()) ==> cap < 0x8000_0000
      modifies `items, `writeIdx, `cap, `bitMask, `scale, `log, `aligned
      ensures Valid() && popped == old(popped) && readIdx == old(readIdx)
      ensures !ok <==> old(Full(State())) && s.Giveup?
      ensures !ok ==> State() == old(State()) && log == old(log) && aligned == old(aligned)
      ensures ok ==> aligned == (old(aligned) && !BadGrowth(old(State()), RingGrowth.Push(elem)))
      ensures ok ==> State() == Step(old(State()), RingGrowth.Push(elem), blank)
      ensures ok && BadGrowth(old(State()), RingGrowth.Push(elem)) ==>
                old(Lost(State())) <= |old(Queued())| &&
                Queued() == Misplaced(old(Queued()), old(Lost(State())), blank) + [elem]
      ensures ok && !BadGrowth(old(State()), RingGrowth.Push(elem)) ==> Queued() == old(Queued()) + [elem]
      ensures ok ==> |log| == old(|log|) + 1
    {
      if Sub32(writeIdx, cap) == readIdx {
        match s {
          case Blocking => assert false;
          case Resize =>
            Grow();
            DoubledHasRoom();
          case Giveup =>
            return false;
        }
      }
      Store(elem);
      return true;
    }

    /** A ring that was full before it doubled is not full. */
    lemma DoubledHasRoom()
      requires Valid() && |log| - popped < |items|
      ensures !Full(State())
    {
      FullExactly(State(), scale, log, popped);
    }

    /** Giving back the read slot takes the first item off the queue. */
    lemma GaveBack()
      requires Valid() && popped < |log|
      ensures Sound(Ring(items, writeIdx, Add32(readIdx, 1)), scale, log, popped + 1)
      ensures Queued() != [] && Contents(Ring(items, writeIdx, Add32(readIdx, 1))) == Queued()[1..]
      ensures |Queued()| == |log| - popped
    {
      WrappedSuccessor(popped);
      FullExactly(State(), scale, log, popped);
      FullExactly(Ring(items, writeIdx, Add32(readIdx, 1)), scale, log, popped + 1);
    }

    /** The handler's own doing while it runs inside a drain. */
    method RunHandler(e: Effect<T>)
      requires Valid() && |log| - popped + |e.sent| < 0x8000_0000
      modifies `items, `writeIdx, `cap, `bitMask, `scale, `log, `aligned, `flagStopPopSome
      ensures Valid() && popped == old(popped) && |log| == old(|log|) + |e.sent| && readIdx == old(readIdx)
      ensures flagStopPopSome == (old(flagStopPopSome) || e.stop)
      ensures aligned ==> old(aligned) && Queued() == old(Queued()) + e.sent
    {
      var j := 0;
      while j < |e.sent|
        invariant 0 <= j <= |e.sent|
        invariant Valid() && popped == old(popped) && |log| == old(|log|) + j
        invariant readIdx == old(readIdx)
        invariant aligned ==> old(aligned) && Queued() == old(Queued()) + e.sent[..j]
        invariant flagStopPopSome == old(flagStopPopSome)
      {
        hide Step, Misplaced, Lost, NewBitClear;
        RoomBelowLimit();
        assert e.sent[..j + 1] == e.sent[..j] + [e.sent[j]];
        var ok := Push(e.sent[j], Resize);
        j := j + 1;
      }
      assert e.sent[..j] == e.sent;
      if e.stop {
        flagStopPopSome := true;
      }
    }

    lemma RoomBelowLimit()
      requires Valid() && |log| - popped < 0x8000_0000
      ensures Full(State()) ==> cap < 0x8000_0000
    {
      FullExactly(State(), scale, log, popped);
    }

    lemma HeadFacts()
      requires Valid() && Queued() != []
      ensures And(readIdx, bitMask) < |items|
      ensures popped < |log| && items[And(readIdx, bitMask)] == Queued()[0]
      ensures |Queued()| == |log| - popped
    {
      FullExactly(State(), scale, log, popped);
      AndMask(readIdx, scale);
      WrappedMod(popped, scale);
      assert items[popped % |items|] == log[popped];
    }

    /** The top item is handled first and its slot given back afterwards. */
    method PopOne(effects: T -> Effect<T>)
      requires Valid() && Queued() != []
      requires |Queued()| + |effects(Queued()[0]).sent| < 0x8000_0000
      modifies `items, `readIdx, `writeIdx, `cap, `bitMask, `scale, `log, `popped, `aligned, `flagStopPopSome
      ensures Valid() && popped == old(popped) + 1 && readIdx == Add32(old(readIdx), 1)
      ensures |Queued()| == old(|Queued()|) - 1 + |effects(old(Queued())[0]).sent|
      ensures flagStopPopSome == (old(flagStopPopSome) || effects(old(Queued())[0]).stop)
      ensures aligned ==> old(aligned) && Queued() == old(Queued())[1..] + effects(old(Queued())[0]).sent
    {
      hide And, Pow2;
      HeadFacts();
      var x := items[And(readIdx, bitMask)];
      RunHandler(effects(x));
      GaveBack();
      readIdx := Add32(readIdx, 1);
      popped := popped + 1;
    }

    /** Exactly the prefix allowed by the snapshot, the budget and the stop flag is handled, in order;
        what the handlers sent is queued behind the rest. `sends` bounds what one handler sends. */
    method PopSome(effects: T -> Effect<T>, max: u32, ghost sends: nat) returns (num: nat)
      requires Valid()
      requires forall x :: |effects(x).sent| <= sends
      requires |Queued()| * (sends + 1) < 0x8000_0000
      modifies this
      ensures Valid() && popped == old(popped) + num && num <= |old(Queued())|
      ensures num == 0 <==> old(Queued()) == [] || max == 0
      ensures num == 0 ==> Queued() == old(Queued())
      ensures aligned ==> old(aligned) && PrefixAllowed(effects, old(Queued()), max, num)
      ensures aligned ==> Queued() == old(Queued())[num..] + SentBy(effects, old(Queued())[..num])
      ensures mayHaveMessage == old(mayHaveMessage) && numEmptyRead == old(numEmptyRead) && maxEmptyRead == old(maxEmptyRead)
    {
      hide And, Pow2, Contents, Sound, SentBy, DrainedTo;
      ghost var c := Queued();
      ghost var p := popped;
      SnapshotFacts();
      var w := writeIdx;
      var r := readIdx;
      flagStopPopSome := false;
      num := 0;
      DrainStarts(effects, c);
      while r != w && !flagStopPopSome && num < max
        invariant Valid() && popped == p + num && num <= |c| && num <= max
        invariant r == readIdx == (p + num) % U32 && w == (p + |c|) % U32
        invariant |c| - num <= |Queued()| <= |c| - num + num * sends
        invariant num == 0 ==> !flagStopPopSome && Queued() == c
        invariant aligned ==> old(aligned) && DrainedTo(effects, c, num, Queued(), flagStopPopSome)
        invariant mayHaveMessage == old(mayHaveMessage) && numEmptyRead == old(numEmptyRead) && maxEmptyRead == old(maxEmptyRead)
        decreases |c| - num
      {
        WrappedEquality(p + num, p + |c|);
        HandlerFits(|c|, num, sends);
        assert |effects(Queued()[0]).sent| <= sends;
        if aligned {
          DrainOne(effects, c, num, Queued());
        }
        WrappedSuccessor(p + num);
        PopOne(effects);
        num := num + 1;
        r := Add32(r, 1);
      }
      WrappedEquality(p + num, p + |c|);
      if aligned {
        DrainEnds(effects, c, max, num, Queued(), flagStopPopSome);
      }
    }

    lemma SnapshotFacts()
      requires Valid()
      ensures readIdx == popped % U32 && writeIdx == (popped + |Queued()|) % U32 && |Queued()| < U32
    {
      FullExactly(State(), scale, log, popped);
      CapacityBound(scale);
    }

    /** True for the writer whose push finds the reader not reading. */
    method IncWriteProgress() returns (notify: bool)
      modifies `mayHaveMessage
      ensures mayHaveMessage && notify == !old(mayHaveMessage)
    {
      notify := !mayHaveMessage;
      mayHaveMessage := true;
    }

    method PushAndNotify(elem: T, s: FullStrategy) returns (ok: bool, notify: bool)
      requires Valid()
      requires s.Blocking? ==> !Full(State())
      requires s.Resize? && Full(State()) ==> cap < 0x8000_0000
      modifies `items, `writeIdx, `cap, `bitMask, `scale, `log, `aligned, `mayHaveMessage
      ensures Valid()
      ensures ok <==> !(old(Full(State())) && s.Giveup?)
      ensures State() == if ok then Step(old(State()), RingGrowth.Push(elem), blank) else old(State())
      ensures notify == (ok && !old(mayHaveMessage)) && mayHaveMessage == (old(mayHaveMessage) || ok)
    {
      notify := false;
      ok := Push(elem, s);
      if ok {
        notify := IncWriteProgress();
      }
    }

    /** Sleeps at the empty read number `maxEmptyRead` in a row, after storing false and draining once
        more. `num` is how many items were handled. */
    method PopSomeOrSleep(effects: T -> Effect<T>, max: u32, ghost sends: nat) returns (slept: bool, ghost num: nat)
      requires Valid()
      requires forall x :: |effects(x).sent| <= sends
      requires |Queued()| * (sends + 1) < 0x8000_0000
      modifies this
      ensures Valid() && maxEmptyRead == old(maxEmptyRead)
      ensures slept <==> (old(Queued()) == [] || max == 0) && Add32(old(numEmptyRead), 1) == maxEmptyRead
      ensures mayHaveMessage == (old(mayHaveMessage) && !slept)
      ensures numEmptyRead == if (old(Queued()) == [] || max == 0) && !slept then Add32(old(numEmptyRead), 1) else 0
      ensures popped == old(popped) + num && num <= |old(Queued())| && (slept ==> num == 0)
      ensures num == 0 ==> Queued() == old(Queued())
      ensures aligned ==> old(aligned) && PrefixAllowed(effects, old(Queued()), max, num)
      ensures aligned ==> Queued() == old(Queued())[num..] + SentBy(effects, old(Queued())[..num])
    {
      hide PrefixAllowed, SentBy, Sound;
      slept := false;
      var read := PopSome(effects, max, sends);
      num := read;
      if read == 0 {
        numEmptyRead := Add32(numEmptyRead, 1);
        if numEmptyRead == maxEmptyRead {
          mayHaveMessage := false;
          read := PopSome(effects, max, sends);
          numEmptyRead := 0;
          slept := true;
        }
      } else {
        numEmptyRead := 0;
      }
    }
  }
}
