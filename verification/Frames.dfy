/** Frames of messages between machines: a fixed header with the content's length, then the content. */
module Frames {
  import opened Words
  import opened Wrappers
  import opened Bytes

  datatype ActorHandle = ActorHandle(id: u32, swsr: bool)

  datatype Frame = Frame(sender: ActorHandle, receiver: ActorHandle, code: u64, typesHash: u64, content: seq<byte>)

  function EncodeHandle(h: ActorHandle): (b: seq<byte>)
    ensures |b| == 5
  {
    Le(4, h.id) + [BoolByte(h.swsr)]
  }

  /** The length is cast to 32 bits. */
  function Header(f: Frame): (b: seq<byte>)
    ensures |b| == 30
  {
    EncodeHandle(f.sender) + EncodeHandle(f.receiver) + Le(8, f.code) + Le(8, f.typesHash) + Le(4, |f.content| % U32)
  }

  function Encode(f: Frame): seq<byte> {
    Header(f) + f.content
  }

  function EncodeAll(fs: seq<Frame>): seq<byte> {
    if fs == [] then [] else EncodeAll(fs[..|fs| - 1]) + Encode(fs[|fs| - 1])
  }

  function DecodeHandle(b: seq<byte>): ActorHandle
    requires |b| == 5
  {
    FromLeBound(b[..4]);
    WordSizes();
    ActorHandle(FromLe(b[..4]), b[4] != 0)
  }

  /** The receiver's reading of one frame: the header's fields one after the other, then as many bytes
      as the header says. */
  function Decode(b: seq<byte>): Option<(Frame, seq<byte>)> {
    match Take(30, b)
    case None => None
    case Some((h, rest)) =>
      FromLeBound(h[10..18]);
      FromLeBound(h[18..26]);
      WordSizes();
      match Take(FromLe(h[26..30]), rest)
      case None => None
      case Some((content, rest')) =>
        Some((Frame(DecodeHandle(h[..5]), DecodeHandle(h[5..10]), FromLe(h[10..18]), FromLe(h[18..26]), content), rest'))
  }

  /** `num` frames off the front. */
  function DecodeMany(num: nat, b: seq<byte>): Option<(seq<Frame>, seq<byte>)> {
    if num == 0 then Some(([], b))
    else match Decode(b)
      case None => None
      case Some((f, rest)) =>
        match DecodeMany(num - 1, rest)
        case None => None
        case Some((fs, rest')) => Some(([f] + fs, rest'))
  }

  lemma HandleRoundTrip(h: ActorHandle)
    ensures DecodeHandle(EncodeHandle(h)) == h
  {
    Le32(h.id);
    assert EncodeHandle(h)[..4] == Le(4, h.id);
  }

  lemma HeaderParts(f: Frame)
    ensures var h := Header(f);
            && h[..5] == EncodeHandle(f.sender) && h[5..10] == EncodeHandle(f.receiver)
            && h[10..18] == Le(8, f.code) && h[18..26] == Le(8, f.typesHash)
            && h[26..30] == Le(4, |f.content| % U32)
  {
  }

  /** Decoding a frame followed by anything gives the frame back exactly when its content is shorter
      than 2^32 bytes. */
  lemma FrameRoundTripExactly(f: Frame, rest: seq<byte>)
    ensures Decode(Encode(f) + rest) == Some((f, rest)) <==> |f.content| < U32
  {
    var n := |f.content| % U32;
    HeaderParts(f);
    HandleRoundTrip(f.sender);
    HandleRoundTrip(f.receiver);
    Le64(f.code);
    Le64(f.typesHash);
    Le32(n);
    assert Encode(f) + rest == Header(f) + (f.content + rest);
    TakeExact(Header(f), f.content + rest);
    if |f.content| < U32 {
      TakeExact(f.content, rest);
    } else {
      assert n < |f.content|;
    }
  }

  ghost predicate AllFit(fs: seq<Frame>) {
    forall i :: 0 <= i < |fs| ==> |fs[i].content| < U32
  }

  lemma {:induction false} EncodeAllFront(fs: seq<Frame>)
    requires fs != []
    ensures EncodeAll(fs) == Encode(fs[0]) + EncodeAll(fs[1..])
    decreases |fs|
  {
    hide Encode;
    var n := |fs| - 1;
    if n == 0 {
      assert fs[..0] == [] && fs[1..] == [];
    } else {
      EncodeAllFront(fs[..n]);
      assert fs[..n][1..] == fs[1..][..n - 1];
      assert EncodeAll(fs[1..]) == EncodeAll(fs[1..][..n - 1]) + Encode(fs[n]);
      hide EncodeAll;
      assert (Encode(fs[0]) + EncodeAll(fs[1..][..n - 1])) + Encode(fs[n])
          == Encode(fs[0]) + (EncodeAll(fs[1..][..n - 1]) + Encode(fs[n]));
    }
  }

  /** A batch is parsed into the frames it was made of. */
  lemma {:induction false} BatchRoundTrip(fs: seq<Frame>, rest: seq<byte>)
    requires AllFit(fs)
    ensures DecodeMany(|fs|, EncodeAll(fs) + rest) == Some((fs, rest))
    decreases |fs|
  {
    if fs != [] {
      EncodeAllFront(fs);
      var tail := EncodeAll(fs[1..]) + rest;
      assert EncodeAll(fs) + rest == Encode(fs[0]) + tail;
      FrameRoundTripExactly(fs[0], tail);
      BatchRoundTrip(fs[1..], rest);
      assert [fs[0]] + fs[1..] == fs;
    } else {
      assert EncodeAll(fs) + rest == rest;
    }
  }

  // ---------------------------------------------------------------- the receiver

  lemma {:induction false} DecodeManySplit(i: nat, j: nat, b: seq<byte>)
    ensures DecodeMany(i + j, b) ==
            match DecodeMany(i, b)
            case None => None
            case Some((fs, rest)) =>
              match DecodeMany(j, rest)
              case None => None
              case Some((gs, rest')) => Some((fs + gs, rest'))
    decreases i
  {
    if i == 0 {
      if DecodeMany(j, b).Some? {
        assert [] + DecodeMany(j, b).value.0 == DecodeMany(j, b).value.0;
      }
    } else if Decode(b).Some? {
      var (f, rest) := Decode(b).value;
      DecodeManySplit(i - 1, j, rest);
      if DecodeMany(i - 1, rest).Some? {
        var (fs, rest') := DecodeMany(i - 1, rest).value;
        if DecodeMany(j, rest').Some? {
          assert [f] + (fs + DecodeMany(j, rest').value.0) == ([f] + fs) + DecodeMany(j, rest').value.0;
        }
      }
    }
  }

  class Receiver {
    /** Reads one batch: the number of frames came in a message of its own. `forwarded` is what local
        actors are sent, None where the source would read past the end of the batch. */
    method ReceiveOnceFromNet(num: u32, bytes: seq<byte>) returns (forwarded: Option<seq<Frame>>)
      ensures forwarded == match DecodeMany(num, bytes) case None => None case Some((fs, _)) => Some(fs)
    {
      var fs: seq<Frame> := [];
      var rest := bytes;
      var i := 0;
      while i < num
        invariant 0 <= i <= num
        invariant DecodeMany(i, bytes) == Some((fs, rest))
      {
        DecodeManySplit(i, 1, bytes);
        DecodeManySplit(i, num - i, bytes);
        match Decode(rest) {
          case None => return None;
          case Some((f, rest')) =>
            assert DecodeMany(0, rest') == Some(([], rest')) && [f] + [] == [f];
            fs, rest := fs + [f], rest';
        }
        i := i + 1;
      }
      return Some(fs);
    }
  }
}
