/**
 The sender's runs, told by what was done and not by what it remembers: what was forwarded arrives, the
 end of a consumption puts everything buffered on the wire, and so does a stop inside a consumption.
 */
module NetSenderRuns {
  import opened Words
  import opened Wrappers
  import opened Bytes
  import opened Frames
  import opened NetSender

  /** The messages handed over in a run, in order. */
  function Forwarded(run: seq<Action>): seq<Frame> {
    if run == [] then [] else (if run[0].Forward? then [run[0].f] else []) + Forwarded(run[1..])
  }

  lemma {:induction false} PushAllLog(s: Sender, fs: seq<Frame>)
    ensures PushAll(s, fs).log == s.log
    decreases |fs|
  {
    if fs != [] {
      PushAllLog(s, fs[..|fs| - 1]);
    }
  }

  lemma LogStep(s: Sender, a: Action)
    requires Enabled(s, a)
    ensures Apply(s, a).log == s.log + if a.Forward? then [a.f] else []
  {
    hide Encode, PushAll;
    if a.Connect? {
      PushAllLog(s.(connected := true), s.pending);
    }
  }

  lemma Regroup<T>(a: seq<T>, b: seq<T>, c: seq<T>)
    ensures (a + b) + c == a + (b + c)
  {
  }

  lemma {:induction false} LogIsForwarded(s: Sender, run: seq<Action>)
    requires Legal(s, run)
    ensures After(s, run).log == s.log + Forwarded(run)
    decreases |run|
  {
    hide Enabled, Apply;
    if run != [] {
      LogStep(s, run[0]);
      LogIsForwarded(Apply(s, run[0]), run[1..]);
      Regroup(s.log, if run[0].Forward? then [run[0].f] else [], Forwarded(run[1..]));
    }
  }

  // ---------------------------------------------------------------- the counter does not wrap

  lemma {:induction false} PushAllWraps(s: Sender, fs: seq<Frame>)
    requires BufferInv(s) && !s.wrapped && PushAll(s, fs).wrapped
    ensures |s.buffered| + |fs| >= U32
    decreases |fs|
  {
    hide Encode;
    if fs != [] {
      var before := fs[..|fs| - 1];
      if PushAll(s, before).wrapped {
        PushAllWraps(s, before);
      } else {
        PushAllFraming(s, before);
      }
    }
  }

  lemma WrapStep(s: Sender, a: Action)
    requires FramingInv(s) && !s.wrapped && Enabled(s, a) && Apply(s, a).wrapped
    ensures |Apply(s, a).log| >= U32
  {
    hide Encode, EncodeAll, PushAll;
    LogStep(s, a);
    if a.Connect? {
      PushAllLog(s.(connected := true), s.pending);
      PushAllWraps(s.(connected := true), s.pending);
    }
  }

  lemma {:induction false} WrapsOnlyBeyond(s: Sender, run: seq<Action>)
    requires FramingInv(s) && !s.wrapped && Legal(s, run) && After(s, run).wrapped
    ensures |After(s, run).log| >= U32
    decreases |run|
  {
    hide Enabled, Apply, FramingInv;
    if run != [] {
      var s1 := Apply(s, run[0]);
      if s1.wrapped {
        WrapStep(s, run[0]);
        LogIsForwarded(s1, run[1..]);
      } else {
        FramingStep(s, run[0]);
        WrapsOnlyBeyond(s1, run[1..]);
      }
    }
  }

  lemma InitFraming(n: nat)
    ensures FramingInv(Init(n))
  {
    assert EncodeAll([]) == [];
  }

  /** Fewer than 2^32 messages never make the counter of a batch wrap. */
  lemma NeverWraps(n: nat, run: seq<Action>)
    requires Legal(Init(n), run) && |Forwarded(run)| < U32
    ensures !After(Init(n), run).wrapped
  {
    InitFraming(n);
    LogIsForwarded(Init(n), run);
    if After(Init(n), run).wrapped {
      WrapsOnlyBeyond(Init(n), run);
    }
  }

  // ---------------------------------------------------------------- end to end

  /** In every run of fewer than 2^32 messages, what the receiver parsed, then what is buffered, then what
      is held back, is what was forwarded, in order. */
  lemma ForwardedArrives(n: nat, run: seq<Action>)
    requires Legal(Init(n), run) && |Forwarded(run)| < U32 && AllFit(Forwarded(run))
    ensures var s := After(Init(n), run);
            && Received(s.wire).Some?
            && Forwarded(run) == Received(s.wire).value + s.buffered + s.pending
            && DecodeMany(s.numBuffered, s.byteBuffer) == Some((s.buffered, []))
  {
    LogIsForwarded(Init(n), run);
    NeverWraps(n, run);
    EndToEnd(n, After(Init(n), run));
  }

  // ---------------------------------------------------------------- the flush

  /** The end of a consumption, or the sender's own request to flush. */
  predicate Flushes(s: Sender, a: Action) {
    a.PostConsumption? || (a.Own? && s.selfMail != [] && s.selfMail[0].FlushBuffer?)
  }

  /** One batch of exactly what was buffered goes on the wire, or none if nothing was. */
  ghost predicate Flushed(s: Sender, s': Sender) {
    && s'.numBuffered == 0 && s'.byteBuffer == [] && s'.buffered == []
    && s'.wire == s.wire + (if s.buffered == [] then [] else [Batch(|s.buffered| % U32, EncodeAll(s.buffered))])
    && s'.pending == s.pending && s'.connected == s.connected
  }

  lemma {:induction false} FramingOfRun(n: nat, run: seq<Action>)
    requires Legal(Init(n), run)
    ensures FramingInv(After(Init(n), run))
  {
    InitFraming(n);
    RunKeepsFraming(Init(n), run);
  }

  lemma FlushStep(s: Sender, a: Action)
    requires FramingInv(s) && !s.wrapped && Enabled(s, a) && Flushes(s, a)
    ensures Flushed(s, Apply(s, a))
  {
    hide Encode;
    assert EncodeAll([]) == [];
  }

  /** Whatever was done before: after a flush nothing is buffered, and the wire gained the batch. */
  lemma FlushesAll(n: nat, run: seq<Action>, a: Action)
    requires Legal(Init(n), run) && |Forwarded(run)| < U32
    requires Enabled(After(Init(n), run), a) && Flushes(After(Init(n), run), a)
    ensures Flushed(After(Init(n), run), Apply(After(Init(n), run), a))
  {
    FramingOfRun(n, run);
    NeverWraps(n, run);
    FlushStep(After(Init(n), run), a);
  }

  /** A message that finds the buffer empty has the sender ask itself for a flush, any other does not. */
  lemma AsksToFlushExactly(n: nat, run: seq<Action>, f: Frame)
    requires Legal(Init(n), run) && |Forwarded(run)| < U32
    requires var s := After(Init(n), run); Enabled(s, Forward(f)) && s.connected
    ensures var s, s' := After(Init(n), run), Apply(After(Init(n), run), Forward(f));
            && s'.buffered == s.buffered + [f]
            && s'.selfMail == s.selfMail + if s.buffered == [] then [FlushBuffer] else []
  {
    FramingOfRun(n, run);
    NeverWraps(n, run);
    hide Encode, EncodeAll;
  }

  // ---------------------------------------------------------------- stopping inside a consumption

  lemma NothingMore(s: Sender, run: seq<Action>)
    requires Stopped(s) && Legal(s, run)
    ensures run == []
  {
  }

  /** A sender that is deactivated while it consumes goes on to the end of the consumption, and stops there. */
  lemma {:induction false} StopsAtTheEnd(s: Sender, run: seq<Action>)
    requires !s.activated && s.consuming && Legal(s, run) && Stopped(After(s, run))
    ensures run != [] && run[|run| - 1].PostConsumption?
    decreases |run|
  {
    hide PushAll, Encode;
    PushAllKeeps(s.(connected := true), s.pending);
    var s1 := Apply(s, run[0]);
    if run[0].PostConsumption? {
      NothingMore(s1, run[1..]);
    } else {
      assert !s1.activated && s1.consuming;
      StopsAtTheEnd(s1, run[1..]);
    }
  }

  lemma {:induction false} PushAllKeeps(s: Sender, fs: seq<Frame>)
    ensures PushAll(s, fs).activated == s.activated && PushAll(s, fs).consuming == s.consuming
    decreases |fs|
  {
    if fs != [] {
      PushAllKeeps(s, fs[..|fs| - 1]);
    }
  }

  lemma {:induction false} Splits(s: Sender, run: seq<Action>, k: nat)
    requires Legal(s, run) && k <= |run|
    ensures Legal(s, run[..k]) && Legal(After(s, run[..k]), run[k..])
    ensures After(After(s, run[..k]), run[k..]) == After(s, run)
    decreases k
  {
    hide Enabled, Apply;
    if k == 0 {
      assert run[0..] == run && run[..0] == [];
    } else {
      Splits(Apply(s, run[0]), run[1..], k - 1);
      assert run[..k][0] == run[0] && run[..k][1..] == run[1..][..k - 1] && run[1..][k - 1..] == run[k..];
    }
  }

  /** However many Terminations are sent: a sender that one of them deactivates while it consumes stops with
      nothing buffered. What is lost can only be held back for a connection that was never made. */
  lemma StopsFlushedInConsumption(n: nat, run: seq<Action>, k: nat)
    requires Legal(Init(n), run) && Stopped(After(Init(n), run)) && |Forwarded(run)| < U32
    requires k <= |run| && Legal(Init(n), run[..k])
    requires var s := After(Init(n), run[..k]); s.consuming && !s.activated
    ensures var s := After(Init(n), run);
            && s.numBuffered == 0 && s.byteBuffer == [] && s.buffered == []
            && (s.connected ==> s.pending == [] && Forwarded(run) == Concat(s.flushed))
  {
    hide Apply, Stopped, Enabled;
    Splits(Init(n), run, k);
    StopsAtTheEnd(After(Init(n), run[..k]), run[k..]);
    var m := |run| - 1;
    assert run[k..][|run[k..]| - 1] == run[m];
    Splits(Init(n), run, m);
    assert run[m..] == [PostConsumption] && [PostConsumption][1..] == [];
    assert After(Init(n), run) == Apply(After(Init(n), run[..m]), PostConsumption);
    FramingOfRun(n, run);
    FramingOfRun(n, run[..m]);
    NeverWraps(n, run);
    LogIsForwarded(Init(n), run);
    hide Legal, After, Forwarded;
    LastFlush(After(Init(n), run[..m]));
  }

  lemma LastFlush(s: Sender)
    requires FramingInv(s) && Enabled(s, PostConsumption)
    ensures var s' := Apply(s, PostConsumption);
            FramingInv(s') && !s'.wrapped ==>
              && s'.numBuffered == 0 && s'.byteBuffer == [] && s'.buffered == []
              && (s'.connected ==> s'.pending == [] && s'.log == Concat(s'.flushed))
  {
    var s' := Apply(s, PostConsumption);
    if !s'.wrapped {
      FlushStep(s, PostConsumption);
      hide Concat;
      assert Concat(s'.flushed) + [] + [] == Concat(s'.flushed);
    }
  }
}
