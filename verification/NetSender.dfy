/**
 The actor that sends one peer's messages: it holds them back until the data connection exists, puts
 them into one buffer, flushes the buffer as a batch, and stops only when nothing is left.
 */
module NetSender {
  import opened Words
  import opened Wrappers
  import opened Bytes
  import opened Frames

  datatype SelfMsg = FlushBuffer | Termination

  /** A flush puts the count and the bytes on the wire. */
  datatype Batch = Batch(num: u32, bytes: seq<byte>)

  /** `selfMail` is the sender's own mailbox, first in first out; `delayed` and `external` count the
      Terminations waiting for their timer or not handed over yet. External ones come through a delivery
      queue, so they are handled while the sender is `consuming`. The last four are history:
      everything forwarded, what the buffer holds, what each batch holds, and whether the 32-bit
      counter ever wrapped. */
  datatype Sender = Sender(
    connected: bool, pending: seq<Frame>, byteBuffer: seq<byte>, numBuffered: u32, forwardAny: bool,
    selfMail: seq<SelfMsg>, delayed: nat, external: nat, activated: bool, consuming: bool, wire: seq<Batch>,
    log: seq<Frame>, buffered: seq<Frame>, flushed: seq<seq<Frame>>, wrapped: bool)

  function Init(external: nat): Sender {
    Sender(false, [], [], 0, true, [], 0, external, true, false, [], [], [], [], false)
  }

  function PushToBuffer(s: Sender, f: Frame): Sender {
    s.(byteBuffer := s.byteBuffer + Encode(f),
       numBuffered := Add32(s.numBuffered, 1),
       selfMail := s.selfMail + if s.numBuffered == 0 then [FlushBuffer] else [],
       buffered := s.buffered + [f],
       wrapped := s.wrapped || s.numBuffered == U32 - 1)
  }

  function PushAll(s: Sender, fs: seq<Frame>): Sender {
    if fs == [] then s else PushToBuffer(PushAll(s, fs[..|fs| - 1]), fs[|fs| - 1])
  }

  function Flush(s: Sender): Sender {
    if s.numBuffered == 0 then s
    else s.(wire := s.wire + [Batch(s.numBuffered, s.byteBuffer)], byteBuffer := [], numBuffered := 0,
            flushed := s.flushed + [s.buffered], buffered := [])
  }

  function OnForward(s: Sender, f: Frame): Sender {
    var s1 := s.(forwardAny := true, log := s.log + [f]);
    if s.connected then PushToBuffer(s1, f) else s1.(pending := s.pending + [f])
  }

  function OnDataConnReq(s: Sender): Sender {
    PushAll(s.(connected := true), s.pending).(pending := [])
  }

  /** One more round if anything was forwarded since the last one. */
  function OnTermination(s: Sender): Sender {
    if s.forwardAny then s.(forwardAny := s.pending != [], delayed := s.delayed + 1)
    else s.(activated := false)
  }

  datatype Action =
    | Forward(f: Frame)    // from a delivery queue, or from the mailbox
    | Connect              // DataConnReq
    | Begin                // a Consumption: the delivery queues are drained
    | Terminate            // an external Termination
    | PostConsumption      // the flush after the queues were drained
    | Timer                // a delayed Termination moves to the own mailbox
    | Own                  // the next message of the own mailbox

  /** A consumption once begun goes on to its flush even if the sender deactivates on the way. */
  predicate Enabled(s: Sender, a: Action) {
    match a
    case Forward(_) => s.activated || s.consuming
    case Connect => s.activated || s.consuming
    case Begin => s.activated && !s.consuming
    case Terminate => s.consuming && s.external > 0
    case PostConsumption => s.consuming
    case Timer => s.activated && !s.consuming && s.delayed > 0
    case Own => s.activated && !s.consuming && s.selfMail != []
  }

  /** Nothing more will be done. */
  predicate Stopped(s: Sender) {
    !s.activated && !s.consuming
  }

  function Apply(s: Sender, a: Action): Sender
    requires Enabled(s, a)
  {
    match a
    case Forward(f) => OnForward(s, f)
    case Connect => OnDataConnReq(s)
    case Terminate => OnTermination(s.(external := s.external - 1))
    case Timer => s.(delayed := s.delayed - 1, selfMail := s.selfMail + [Termination])
    case Own =>
      var s1 := s.(selfMail := s.selfMail[1..]);
      if s.selfMail[0].FlushBuffer? then Flush(s1) else OnTermination(s1)
    case Begin => s.(consuming := true)
    case PostConsumption => Flush(s.(consuming := false))
  }

  ghost predicate Legal(s: Sender, run: seq<Action>)
    decreases |run|
  {
    run == [] || (Enabled(s, run[0]) && Legal(Apply(s, run[0]), run[1..]))
  }

  ghost function After(s: Sender, run: seq<Action>): Sender
    requires Legal(s, run)
    decreases |run|
  {
    if run == [] then s else After(Apply(s, run[0]), run[1..])
  }

  ghost predicate Reachable(external: nat, s: Sender) {
    exists run :: Legal(Init(external), run) && After(Init(external), run) == s
  }

  // ---------------------------------------------------------------- framing

  function Concat(fss: seq<seq<Frame>>): seq<Frame> {
    if fss == [] then [] else Concat(fss[..|fss| - 1]) + fss[|fss| - 1]
  }

  /** The buffer and every batch hold whole frames, counted right unless the counter wrapped. */
  ghost predicate BufferInv(s: Sender) {
    && s.byteBuffer == EncodeAll(s.buffered)
    && |s.wire| == |s.flushed|
    && (forall i :: 0 <= i < |s.wire| ==> s.wire[i].bytes == EncodeAll(s.flushed[i]))
    && (!s.wrapped ==>
          && s.numBuffered == |s.buffered|
          && forall i :: 0 <= i < |s.wire| ==> s.wire[i].num == |s.flushed[i]|)
  }

  ghost predicate FramingInv(s: Sender) {
    && BufferInv(s)
    && s.log == Concat(s.flushed) + s.buffered + s.pending
    && (s.connected ==> s.pending == [])
  }

  lemma BufferOnly(s: Sender, t: Sender)
    requires BufferInv(s) && t == s.(connected := t.connected, pending := t.pending)
    ensures BufferInv(t)
  {
  }

  lemma PushFraming(s: Sender, f: Frame)
    requires BufferInv(s)
    ensures BufferInv(PushToBuffer(s, f))
  {
    hide Encode;
    assert (s.buffered + [f])[..|s.buffered|] == s.buffered;
  }

  lemma {:induction false} PushAllFraming(s: Sender, fs: seq<Frame>)
    requires BufferInv(s)
    ensures var s' := PushAll(s, fs);
            && BufferInv(s') && s'.buffered == s.buffered + fs && s'.flushed == s.flushed && s'.pending == s.pending
            && s'.log == s.log && s'.connected == s.connected
    decreases |fs|
  {
    hide Encode, BufferInv;
    if fs != [] {
      PushAllFraming(s, fs[..|fs| - 1]);
      PushFraming(PushAll(s, fs[..|fs| - 1]), fs[|fs| - 1]);
    }
  }

  lemma FlushFraming(s: Sender)
    requires FramingInv(s)
    ensures FramingInv(Flush(s))
  {
    var s' := Flush(s);
    assert (s.flushed + [s.buffered])[..|s.flushed|] == s.flushed;
    assert EncodeAll([]) == [];
    assert Concat(s.flushed + [s.buffered]) == Concat(s.flushed) + s.buffered;
    hide EncodeAll, Concat;
  }

  lemma FramingStep(s: Sender, a: Action)
    requires FramingInv(s) && Enabled(s, a)
    ensures FramingInv(Apply(s, a))
  {
    match a
    case Forward(f) => ForwardFraming(s, f);
    case Connect => ConnectFraming(s);
    case Own => FlushFraming(s.(selfMail := s.selfMail[1..]));
    case PostConsumption => FlushFraming(s.(consuming := false));
    case _ =>
  }

  lemma ForwardFraming(s: Sender, f: Frame)
    requires FramingInv(s)
    ensures FramingInv(OnForward(s, f))
  {
    var s1 := s.(forwardAny := true, log := s.log + [f]);
    if s.connected {
      PushFraming(s1, f);
      hide BufferInv, Concat, Encode;
      assert Concat(s.flushed) + s.buffered + [] + [f] == Concat(s.flushed) + (s.buffered + [f]) + [];
    } else {
      assert Concat(s.flushed) + s.buffered + s.pending + [f] == Concat(s.flushed) + s.buffered + (s.pending + [f]);
    }
  }

  lemma ConnectFraming(s: Sender)
    requires FramingInv(s)
    ensures FramingInv(OnDataConnReq(s))
  {
    var s1 := s.(connected := true);
    BufferOnly(s, s1);
    PushAllFraming(s1, s.pending);
    BufferOnly(PushAll(s1, s.pending), OnDataConnReq(s));
    AllBuffered(Concat(s.flushed), s.buffered, s.pending);
    hide Concat, PushAll, BufferInv;
  }

  lemma AllBuffered(a: seq<Frame>, b: seq<Frame>, c: seq<Frame>)
    ensures a + b + c == a + (b + c) + []
  {
  }

  // ---------------------------------------------------------------- draining

  function Tokens(s: Sender): nat {
    s.external + s.delayed + multiset(s.selfMail)[Termination]
  }

  /** With a single Termination about: once nothing was forwarded for a round, the buffer is flushed
      before the Termination comes up again. */
  ghost predicate DrainInv(s: Sender) {
    && (s.pending != [] ==> s.forwardAny)
    && (s.activated && s.buffered != [] ==> FlushBuffer in s.selfMail || s.wrapped)
    && (s.activated ==> Tokens(s) == 1) && (s.consuming ==> s.activated)
    && (s.activated && s.external > 0 ==> s.forwardAny)
    && (s.activated && !s.forwardAny && s.buffered != [] && !s.wrapped ==>
          forall t :: 0 <= t < |s.selfMail| && s.selfMail[t].Termination? ==> FlushBuffer in s.selfMail[..t])
    && (!s.activated && !s.wrapped ==> s.pending == [] && s.buffered == [])
  }

  ghost predicate Inv(s: Sender) {
    FramingInv(s) && DrainInv(s)
  }

  lemma {:induction false} PushAllMail(s: Sender, fs: seq<Frame>)
    requires s.activated && (s.numBuffered == |s.buffered| || s.wrapped)
    requires s.buffered != [] ==> FlushBuffer in s.selfMail || s.wrapped
    ensures var s' := PushAll(s, fs);
            && (s'.buffered != [] ==> FlushBuffer in s'.selfMail || s'.wrapped)
            && (s'.numBuffered == |s'.buffered| || s'.wrapped)
            && multiset(s'.selfMail)[Termination] == multiset(s.selfMail)[Termination]
            && s' == s.(byteBuffer := s'.byteBuffer, numBuffered := s'.numBuffered, selfMail := s'.selfMail,
                        buffered := s'.buffered, wrapped := s'.wrapped)
            && (fs == [] ==> s' == s)
            && (s.wrapped ==> s'.wrapped)
    decreases |fs|
  {
    if fs != [] {
      PushAllMail(s, fs[..|fs| - 1]);
      PushOneMail(PushAll(s, fs[..|fs| - 1]), fs[|fs| - 1]);
    }
  }

  lemma PushOneMail(s: Sender, f: Frame)
    requires s.activated && (s.numBuffered == |s.buffered| || s.wrapped)
    requires s.buffered != [] ==> FlushBuffer in s.selfMail || s.wrapped
    ensures var s' := PushToBuffer(s, f);
            && (FlushBuffer in s'.selfMail || s'.wrapped)
            && (s'.numBuffered == |s'.buffered| || s'.wrapped)
            && multiset(s'.selfMail)[Termination] == multiset(s.selfMail)[Termination]
            && (s.wrapped ==> s'.wrapped)
            && s' == s.(byteBuffer := s'.byteBuffer, numBuffered := s'.numBuffered, selfMail := s'.selfMail,
                        buffered := s'.buffered, wrapped := s'.wrapped)
  {
    var s' := PushToBuffer(s, f);
    if s.numBuffered == 0 {
      assert s'.selfMail[|s.selfMail|] == FlushBuffer;
    } else {
      assert s'.selfMail == s.selfMail;
    }
  }

  /** What draining needs to know of framing. */
  ghost predicate Counted(s: Sender) {
    (s.numBuffered == |s.buffered| || s.wrapped) && (s.connected ==> s.pending == [])
  }

  lemma DrainStep(s: Sender, a: Action)
    requires Counted(s) && DrainInv(s) && Enabled(s, a)
    ensures DrainInv(Apply(s, a))
  {
    match a
    case Forward(f) => ForwardDrain(s, f);
    case Connect => ConnectDrain(s);
    case Terminate =>
    case Timer => TimerDrain(s);
    case Own => OwnDrain(s);
    case _ =>
  }

  lemma ForwardDrain(s: Sender, f: Frame)
    requires Counted(s) && DrainInv(s) && s.activated
    ensures DrainInv(OnForward(s, f))
  {
    hide PushToBuffer, Encode;
    var s1 := s.(forwardAny := true, log := s.log + [f]);
    PushOneMail(s1, f);
  }

  lemma ConnectDrain(s: Sender)
    requires Counted(s) && DrainInv(s) && s.activated
    ensures DrainInv(OnDataConnReq(s))
  {
    hide PushAll;
    PushAllMail(s.(connected := true), s.pending);
  }

  /** A Termination that comes back queues behind the FlushBuffer. */
  lemma TimerDrain(s: Sender)
    requires DrainInv(s) && Enabled(s, Timer)
    ensures DrainInv(Apply(s, Timer))
  {
    var mail := s.selfMail + [Termination];
    assert Termination !in s.selfMail;
    assert forall t :: 0 <= t < |s.selfMail| ==> s.selfMail[t] in s.selfMail;
    assert mail[..|s.selfMail|] == s.selfMail;
    assert FlushBuffer in s.selfMail ==> FlushBuffer in mail;
  }

  lemma OwnDrain(s: Sender)
    requires Counted(s) && DrainInv(s) && Enabled(s, Own)
    ensures DrainInv(Apply(s, Own))
  {
    assert s.selfMail == [s.selfMail[0]] + s.selfMail[1..];
    if s.selfMail[0].Termination? {
      OwnTermination(s);
    } else {
      OwnFlush(s);
    }
  }

  lemma OwnFlush(s: Sender)
    requires Counted(s) && DrainInv(s) && Enabled(s, Own) && s.selfMail[0].FlushBuffer?
    ensures DrainInv(Apply(s, Own))
  {
    var rest := s.selfMail[1..];
    assert s.selfMail == [FlushBuffer] + rest;
    assert multiset(rest)[Termination] == multiset(s.selfMail)[Termination];
  }

  lemma OwnTermination(s: Sender)
    requires Counted(s) && DrainInv(s) && Enabled(s, Own) && s.selfMail[0].Termination?
    ensures DrainInv(Apply(s, Own))
  {
    var rest := s.selfMail[1..];
    assert s.selfMail == [Termination] + rest;
    assert multiset(s.selfMail)[Termination] == 1 + multiset(rest)[Termination];
    assert Termination !in rest;
    assert !s.forwardAny && !s.wrapped ==> s.buffered == [] by {
      assert FlushBuffer !in s.selfMail[..0];
    }
    assert FlushBuffer in s.selfMail ==> FlushBuffer in rest;
    assert forall t :: 0 <= t < |rest| ==> rest[t] in rest;
  }

  lemma {:induction false} RunKeepsInv(s: Sender, run: seq<Action>)
    requires Inv(s) && Legal(s, run)
    ensures Inv(After(s, run))
    decreases |run|
  {
    if run != [] {
      FramingStep(s, run[0]);
      DrainStep(s, run[0]);
      RunKeepsInv(Apply(s, run[0]), run[1..]);
    }
  }

  lemma {:induction false} RunKeepsFraming(s: Sender, run: seq<Action>)
    requires FramingInv(s) && Legal(s, run)
    ensures FramingInv(After(s, run))
    decreases |run|
  {
    if run != [] {
      FramingStep(s, run[0]);
      RunKeepsFraming(Apply(s, run[0]), run[1..]);
    }
  }

  /** The drain at the end, given at most one external Termination. */
  lemma StopsOnlyWhenDrained(s: Sender)
    requires Reachable(1, s) && Stopped(s) && !s.wrapped
    ensures s.pending == [] && s.byteBuffer == [] && s.numBuffered == 0
    ensures s.log == Concat(s.flushed)
  {
    var run :| Legal(Init(1), run) && After(Init(1), run) == s;
    assert EncodeAll([]) == [];
    assert Tokens(Init(1)) == 1;
    RunKeepsInv(Init(1), run);
    assert Concat(s.flushed) + [] + [] == Concat(s.flushed);
  }

  lemma {:induction false} NoTerminationNoStop(s: Sender, run: seq<Action>)
    requires Legal(s, run) && s.activated && Tokens(s) == 0
    ensures After(s, run).activated
    decreases |run|
  {
    if run != [] {
      TokenlessStep(s, run[0]);
      NoTerminationNoStop(Apply(s, run[0]), run[1..]);
    }
  }

  lemma TokenlessStep(s: Sender, a: Action)
    requires Enabled(s, a) && s.activated && Tokens(s) == 0
    ensures Apply(s, a).activated && Tokens(Apply(s, a)) == 0
  {
    hide Encode;
    match a
    case Connect => PushAllPlain(s.(connected := true), s.pending);
    case Own => OwnTokenless(s);
    case _ =>
  }

  lemma OwnTokenless(s: Sender)
    requires Enabled(s, Own) && s.activated && Tokens(s) == 0
    ensures Apply(s, Own).activated && Tokens(Apply(s, Own)) == 0
  {
    assert s.selfMail == [s.selfMail[0]] + s.selfMail[1..];
    assert multiset(s.selfMail) == multiset{s.selfMail[0]} + multiset(s.selfMail[1..]);
  }

  lemma {:induction false} PushAllPlain(s: Sender, fs: seq<Frame>)
    ensures var s' := PushAll(s, fs);
            && multiset(s'.selfMail)[Termination] == multiset(s.selfMail)[Termination]
            && s'.activated == s.activated && s'.external == s.external && s'.delayed == s.delayed
    decreases |fs|
  {
    if fs != [] {
      PushAllPlain(s, fs[..|fs| - 1]);
    }
  }

  lemma {:induction false} LegalAppend(s: Sender, run: seq<Action>, a: Action)
    requires Legal(s, run) && Enabled(After(s, run), a)
    ensures Legal(s, run + [a]) && After(s, run + [a]) == Apply(After(s, run), a)
    decreases |run|
  {
    hide Enabled, Apply;
    if run == [] {
      assert [] + [a] == [a] && [a][1..] == [];
    } else {
      LegalAppend(Apply(s, run[0]), run[1..], a);
      assert (run + [a])[0] == run[0] && (run + [a])[1..] == run[1..] + [a];
    }
  }

  lemma Next(n: nat, s: Sender, a: Action) returns (s': Sender)
    requires Reachable(n, s) && Enabled(s, a)
    ensures Reachable(n, s') && s' == Apply(s, a)
  {
    hide Enabled, Apply;
    var run :| Legal(Init(n), run) && After(Init(n), run) == s;
    LegalAppend(Init(n), run, a);
    s' := Apply(s, a);
  }

  /** One message was forwarded, and two Terminations came, all inside one consumption. */
  lemma TwoDelayed(n: nat, f: Frame) returns (s: Sender)
    requires n >= 2
    ensures Reachable(n, s) && s.connected && s.activated && s.consuming && !s.wrapped
    ensures s.delayed == 2 && s.selfMail == [FlushBuffer] && s.pending == [] && s.buffered != [] && s.numBuffered == 1
  {
    hide Reachable, Encode;
    s := Init(n);
    assert Reachable(n, s) by { Starts(n); }
    s := Next(n, s, Begin);
    s := Next(n, s, Connect);
    s := Next(n, s, Terminate);
    s := Next(n, s, Forward(f));
    s := Next(n, s, Terminate);
  }

  /** One message was forwarded and flushed, and two Terminations are on their way back. */
  lemma TwoOnTheirWay(n: nat, f: Frame) returns (s: Sender)
    requires n >= 2
    ensures Reachable(n, s) && s.connected && s.activated && !s.consuming && s.numBuffered == 0 && s.buffered == []
    ensures s.byteBuffer == [] && s.pending == [] && s.selfMail == [Termination, Termination] && !s.wrapped
  {
    hide Reachable, Encode;
    s := TwoDelayed(n, f);
    s := Next(n, s, PostConsumption);
    s := Next(n, s, Timer);
    s := Next(n, s, Timer);
    assert s.selfMail == [FlushBuffer, Termination, Termination];
    s := Next(n, s, Own);
  }

  lemma Starts(n: nat)
    ensures Reachable(n, Init(n))
  {
    assert Legal(Init(n), []) && After(Init(n), []) == Init(n);
  }

  /** Two external Terminations can stop the sender with a message still in its buffer: both are sent on
      to the own mailbox, and the second finds that nothing was forwarded since the first. */
  lemma TwoTerminationsLose(n: nat, f: Frame)
    requires n >= 2
    ensures exists s :: Reachable(n, s) && Stopped(s) && !s.wrapped && s.byteBuffer != []
  {
    var s := TwoOnTheirWay(n, f);
    hide Reachable;
    s := Next(n, s, Forward(f));
    assert s.selfMail == [Termination, Termination, FlushBuffer] && s.forwardAny;
    s := Next(n, s, Own);
    assert s.selfMail == [Termination, FlushBuffer] && !s.forwardAny;
    s := Next(n, s, Own);
    assert |Encode(f)| >= 30 && s.byteBuffer == [] + Encode(f);
  }

  /** The sender always stops drained exactly when at most one external Termination is ever sent. */
  lemma StopsDrainedExactly(n: nat)
    ensures (forall s :: Reachable(n, s) && Stopped(s) && !s.wrapped ==> s.pending == [] && s.byteBuffer == [])
            <==> n <= 1
  {
    if n == 0 {
      forall s | Reachable(n, s)
        ensures s.activated
      {
        var run :| Legal(Init(n), run) && After(Init(n), run) == s;
        NoTerminationNoStop(Init(n), run);
      }
    } else if n == 1 {
      forall s | Reachable(n, s) && Stopped(s) && !s.wrapped
        ensures s.pending == [] && s.byteBuffer == []
      {
        StopsOnlyWhenDrained(s);
      }
    } else {
      TwoTerminationsLose(n, Frame(ActorHandle(0, false), ActorHandle(0, false), 0, 0, []));
    }
  }

  // ---------------------------------------------------------------- end to end

  /** What the receiver's actors get from these batches; None if a batch cannot be read. */
  function Received(wire: seq<Batch>): Option<seq<Frame>> {
    if wire == [] then Some([])
    else
      var last := wire[|wire| - 1];
      match (Received(wire[..|wire| - 1]), DecodeMany(last.num, last.bytes))
      case (Some(fs), Some((gs, rest))) => if rest == [] then Some(fs + gs) else None
      case _ => None
  }

  lemma {:induction false} ReceivedIsFlushed(wire: seq<Batch>, flushed: seq<seq<Frame>>)
    requires |wire| == |flushed| && AllFit(Concat(flushed))
    requires forall i :: 0 <= i < |wire| ==> wire[i].num == |flushed[i]| && wire[i].bytes == EncodeAll(flushed[i])
    ensures Received(wire) == Some(Concat(flushed))
    decreases |wire|
  {
    if wire != [] {
      var n := |wire| - 1;
      var init := Concat(flushed[..n]);
      assert Concat(flushed) == init + flushed[n];
      forall i | 0 <= i < |init|
        ensures |init[i].content| < U32
      {
        assert Concat(flushed)[i] == init[i];
      }
      forall i | 0 <= i < |flushed[n]|
        ensures |flushed[n][i].content| < U32
      {
        assert Concat(flushed)[|init| + i] == flushed[n][i];
      }
      ReceivedIsFlushed(wire[..n], flushed[..n]);
      BatchRoundTrip(flushed[n], []);
      assert EncodeAll(flushed[n]) + [] == EncodeAll(flushed[n]);
    }
  }

  /** What the receiver parsed from the batches so far, then what is buffered, then what is pending, is
      everything forwarded, in order; the counter is the number of whole frames in the buffer. */
  lemma EndToEnd(n: nat, s: Sender)
    requires Reachable(n, s) && !s.wrapped && AllFit(s.log)
    ensures Received(s.wire).Some?
    ensures s.log == Received(s.wire).value + s.buffered + s.pending
    ensures DecodeMany(s.numBuffered, s.byteBuffer) == Some((s.buffered, []))
  {
    var run :| Legal(Init(n), run) && After(Init(n), run) == s;
    assert EncodeAll([]) == [];
    RunKeepsFraming(Init(n), run);
    PartsFit(Concat(s.flushed), s.buffered, s.pending);
    ReceivedIsFlushed(s.wire, s.flushed);
    BatchRoundTrip(s.buffered, []);
    assert EncodeAll(s.buffered) + [] == s.byteBuffer;
  }

  lemma PartsFit(a: seq<Frame>, b: seq<Frame>, c: seq<Frame>)
    requires AllFit(a + b + c)
    ensures AllFit(a) && AllFit(b)
  {
    assert forall i :: 0 <= i < |a| ==> (a + b + c)[i] == a[i];
    assert forall i :: 0 <= i < |b| ==> (a + b + c)[|a| + i] == b[i];
  }
}
