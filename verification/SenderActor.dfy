/** The sender as an object: its handlers change the buffer and the counters in place. */
module SenderActor {
  import opened Words
  import opened Frames
  import opened Bytes
  import opened NetSender

  class SenderActor {
    var connected: bool
    var pendingMessages: seq<Frame>
    var byteBuffer: seq<byte>
    var numBufferedMessages: u32
    var forwardAnyMessage: bool
    var selfMail: seq<SelfMsg>
    var delayed: nat
    var external: nat
    var activated: bool
    ghost var consuming: bool
    var wire: seq<Batch>
    ghost var log: seq<Frame>
    ghost var buffered: seq<Frame>
    ghost var flushed: seq<seq<Frame>>
    ghost var wrapped: bool

    ghost function State(): Sender
      reads this
    {
      Sender(connected, pendingMessages, byteBuffer, numBufferedMessages, forwardAnyMessage, selfMail,
             delayed, external, activated, consuming, wire, log, buffered, flushed, wrapped)
    }

    constructor (external: nat)
      ensures State() == Init(external)
    {
      connected, pendingMessages, byteBuffer, numBufferedMessages := false, [], [], 0;
      forwardAnyMessage, selfMail, delayed, this.external, activated, wire := true, [], 0, external, true, [];
      consuming, log, buffered, flushed, wrapped := false, [], [], [], false;
    }

    method PushToBuffer(f: Frame)
      modifies this
      ensures State() == NetSender.PushToBuffer(old(State()), f)
    {
      hide Header, EncodeAll;
      byteBuffer := byteBuffer + Header(f);
      byteBuffer := byteBuffer + f.content;
      wrapped := wrapped || numBufferedMessages == U32 - 1;
      buffered := buffered + [f];
      if numBufferedMessages == 0 {
        selfMail := selfMail + [FlushBuffer];
      }
      numBufferedMessages := Add32(numBufferedMessages, 1);
      assert byteBuffer == old(byteBuffer) + Encode(f);
    }

    method FlushByteBuffer()
      modifies this
      ensures State() == Flush(old(State()))
    {
      if numBufferedMessages != 0 {
        wire := wire + [Batch(numBufferedMessages, byteBuffer)];
        byteBuffer := [];
        numBufferedMessages := 0;
        flushed, buffered := flushed + [buffered], [];
      }
    }

    method HandleDataConnReq()
      modifies this
      ensures State() == OnDataConnReq(old(State()))
    {
      connected := true;
      var waiting := pendingMessages;
      ghost var start := State();
      var i := 0;
      while i < |waiting|
        invariant 0 <= i <= |waiting|
        invariant State() == PushAll(start, waiting[..i])
      {
        assert waiting[..i + 1][..i] == waiting[..i];
        PushToBuffer(waiting[i]);
        i := i + 1;
      }
      assert waiting[..i] == waiting;
      pendingMessages := [];
    }

    method HandleTermination()
      modifies this
      ensures State() == OnTermination(old(State()))
    {
      if forwardAnyMessage {
        forwardAnyMessage := |pendingMessages| != 0;
        delayed := delayed + 1;
      } else {
        activated := false;
      }
    }

    method HandleForwardMessage(f: Frame)
      modifies this
      ensures State() == OnForward(old(State()), f)
    {
      forwardAnyMessage := true;
      log := log + [f];
      if connected {
        PushToBuffer(f);
      } else {
        pendingMessages := pendingMessages + [f];
      }
    }

    /** The end of a consumption, also of one in which the sender was deactivated. */
    method PostSwsrConsumption()
      requires consuming
      modifies this
      ensures State() == Apply(old(State()), PostConsumption)
      ensures numBufferedMessages == 0 && (old(numBufferedMessages) != 0 ==> byteBuffer == [])
      ensures wire == old(wire) + if old(numBufferedMessages) == 0 then []
                                  else [Batch(old(numBufferedMessages), old(byteBuffer))]
    {
      consuming := false;
      FlushByteBuffer();
    }
  }
}
