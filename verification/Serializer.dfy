/**
 The serialiser writes through a pointer that may stand inside the buffer: that is how the length of a
 message body is filled in once its content has been written. The deserialiser walks over a buffer.
 */
module Serializer {
  import opened Words
  import opened Wrappers
  import opened Bytes
  import opened Wire
  import Frames

  /** b written at p, over what is there and beyond the end. */
  function Overwrite(s: seq<byte>, p: nat, b: seq<byte>): (r: seq<byte>)
    requires p <= |s|
    ensures |r| == if p + |b| <= |s| then |s| else p + |b|
    ensures forall i :: 0 <= i < |r| ==> r[i] == if p <= i < p + |b| then b[i - p] else s[i]
  {
    s[..p] + b + if p + |b| <= |s| then s[p + |b|..] else []
  }

  lemma {:induction false} EncodeAllSplit(vs: seq<Val>, ws: seq<Val>)
    ensures EncodeAll(vs + ws) == EncodeAll(vs) + EncodeAll(ws)
    decreases |vs|
  {
    hide Encode;
    if vs == [] {
      assert vs + ws == ws;
    } else {
      EncodeAllSplit(vs[1..], ws);
      assert (vs + ws)[0] == vs[0] && (vs + ws)[1..] == vs[1..] + ws;
    }
  }

  lemma EncodeAllNext(vs: seq<Val>, i: nat)
    requires i < |vs|
    ensures EncodeAll(vs[..i + 1]) == EncodeAll(vs[..i]) + Encode(vs[i])
  {
    hide Encode;
    assert vs[..i + 1] == vs[..i] + [vs[i]];
    EncodeAllSplit(vs[..i], [vs[i]]);
    assert EncodeAll([vs[i]]) == Encode(vs[i]);
  }

  /** Filling in the length afterwards leaves what writing it first would have. */
  lemma PatchedLength(before: seq<byte>, len: seq<byte>, zeros: seq<byte>, content: seq<byte>)
    requires |len| == |zeros|
    ensures Overwrite(((before + zeros) + content), |before|, len) == (before + len) + content
  {
  }

  lemma BodyLayout(before: seq<byte>, m: MessageBody, len: seq<byte>)
    requires len == Le(4, |Content(m)| % U32)
    ensures (((before + Le(8, m.code)) + Le(8, m.typesHash)) + len) + Content(m) == before + EncodeBody(m)
  {
    hide Content;
  }

  class Serializer {
    var bytes: seq<byte>
    var wptr: nat

    /** Appends to a given buffer. */
    constructor (buffer: seq<byte>)
      ensures bytes == buffer && wptr == |bytes|
    {
      bytes, wptr := buffer, |buffer|;
    }

    method WriteBytes(b: seq<byte>)
      requires wptr <= |bytes|
      modifies this
      ensures bytes == Overwrite(old(bytes), old(wptr), b) && wptr == old(wptr) + |b|
      ensures old(wptr) == |old(bytes)| ==> bytes == old(bytes) + b && wptr == |bytes|
    {
      if wptr == |bytes| {
        bytes := bytes + b;
      } else {
        var copyLen := if |bytes| - wptr < |b| then |bytes| - wptr else |b|;
        bytes := bytes[..wptr] + b[..copyLen] + bytes[wptr + copyLen..];
        if copyLen < |b| {
          bytes := bytes + b[copyLen..];
        }
      }
      wptr := wptr + |b|;
    }

    /** Refused if the pointer would be past the end. */
    method MoveWritePtrTo(p: nat) returns (ok: bool)
      modifies this`wptr
      ensures ok <==> p <= |bytes|
      ensures wptr == if ok then p else old(wptr)
    {
      if p > |bytes| {
        return false;
      }
      wptr := p;
      return true;
    }

    method MoveWritePtrToEnd()
      modifies this`wptr
      ensures wptr == |bytes|
    {
      wptr := |bytes|;
    }

    /** With the pointer at the end the encoding is appended, and the pointer is at the end again. */
    method Serialize(v: Val, ghost ty: Ty)
      requires wptr == |bytes| && HasType(v, ty)
      modifies this
      ensures bytes == old(bytes) + Encode(v) && wptr == |bytes|
      decreases v, 1
    {
      hide EncodeAll, EncodeBody, BodyHasType, Overwrite, NoRepeats, KeysComparable;
      match v {
        case VPod(b) => WriteBytes(b);
        case VStr(chars) =>
          WriteBytes(Le(8, |chars|));
          WriteBytes(chars);
          Regroup(old(bytes), Le(8, |chars|), chars);
        case VItems(items) => SerializeItems(items, ty.elem);
        case VPair(a, b) =>
          Serialize(a, ty.first);
          Serialize(b, ty.second);
          Regroup(old(bytes), Encode(a), Encode(b));
        case VTuple(members) => WriteEach(members, ty.members);
        case VNone => WriteBytes([BoolByte(false)]);
        case VSome(value) =>
          WriteBytes([BoolByte(true)]);
          Serialize(value, ty.elem);
          Regroup(old(bytes), [BoolByte(true)], Encode(value));
        case VBody(m) => SerializeBody(m);
      }
    }

    /** A container: its size, then its items in a loop. */
    method SerializeItems(items: seq<Val>, ghost elem: Ty)
      requires wptr == |bytes| && forall i :: 0 <= i < |items| ==> HasType(items[i], elem)
      modifies this
      ensures bytes == old(bytes) + (Le(8, |items|) + EncodeAll(items)) && wptr == |bytes|
      decreases items, 1
    {
      hide Encode, HasType;
      WriteBytes(Le(8, |items|));
      var i := 0;
      while i < |items|
        invariant 0 <= i <= |items| && wptr == |bytes|
        invariant bytes == (old(bytes) + Le(8, |items|)) + EncodeAll(items[..i])
      {
        Serialize(items[i], elem);
        EncodeAllNext(items, i);
        i := i + 1;
      }
      assert items[..i] == items;
    }

    /** `write` with several arguments. */
    method WriteEach(vs: seq<Val>, ghost types: seq<Ty>)
      requires wptr == |bytes| && HaveTypes(vs, types)
      modifies this
      ensures bytes == old(bytes) + EncodeAll(vs) && wptr == |bytes|
      decreases vs, 1
    {
      if vs != [] {
        Serialize(vs[0], types[0]);
        WriteEach(vs[1..], types[1..]);
      }
    }

    method SerializeContent(m: MessageBody)
      requires wptr == |bytes| && BodyHasType(m)
      modifies this
      ensures bytes == old(bytes) + Content(m) && wptr == |bytes|
      decreases m, 0
    {
      match m {
        case Memory(_, _, types, args) => WriteEach(args, types);
        case Serialized(_, _, content, offset) => WriteBytes(content[offset..]);
      }
    }

    /** Any body: a zero where the length belongs, the content, then back to fill the length in. */
    method SerializeBody(m: MessageBody)
      requires wptr == |bytes| && BodyHasType(m)
      modifies this
      ensures bytes == old(bytes) + EncodeBody(m) && wptr == |bytes|
      decreases m, 1
    {
      WriteBytes(Le(8, m.code));
      WriteBytes(Le(8, m.typesHash));
      ghost var before := bytes;
      var ptr := |bytes|;
      WriteBytes(Le(4, 0));
      SerializeContent(m);
      var moved := MoveWritePtrTo(ptr);
      var len := Le(4, (|bytes| - ptr - 4) % U32);
      assert bytes == (before + Le(4, 0)) + Content(m);
      PatchedLength(before, len, Le(4, 0), Content(m));
      WriteBytes(len);
      MoveWritePtrToEnd();
      BodyLayout(old(bytes), m, len);
    }

    /** A local actor's handle: its number and a flag. */
    method SerializeHandle(h: Frames.ActorHandle)
      requires wptr == |bytes|
      modifies this
      ensures bytes == old(bytes) + Frames.EncodeHandle(h) && wptr == |bytes|
    {
      WriteBytes(Le(4, h.id));
      WriteBytes([BoolByte(h.swsr)]);
      Regroup(old(bytes), Le(4, h.id), [BoolByte(h.swsr)]);
    }

    /** A received body knows its length beforehand. */
    method SerializeReceived(m: MessageBody)
      requires wptr == |bytes| && m.Serialized? && m.offset <= |m.bytes|
      modifies this
      ensures bytes == old(bytes) + EncodeBody(m) && wptr == |bytes|
    {
      WriteBytes(Le(8, m.code));
      WriteBytes(Le(8, m.typesHash));
      WriteBytes(Le(4, (|m.bytes| - m.offset) % U32));
      WriteBytes(m.bytes[m.offset..]);
      BodyLayout(old(bytes), m, Le(4, (|m.bytes| - m.offset) % U32));
    }
  }

  class Deserializer {
    const buffer: seq<byte>
    var offset: nat

    ghost predicate Valid()
      reads this
    {
      offset <= |buffer|
    }

    /** What is still to be read. */
    ghost function Rest(): seq<byte>
      requires Valid()
      reads this
    {
      buffer[offset..]
    }

    constructor (buffer: seq<byte>)
      ensures Valid() && this.buffer == buffer && Rest() == buffer
    {
      this.buffer, offset := buffer, 0;
    }

    /** None where the source would read past the end; then nothing is read. */
    method ReadBytes(n: nat) returns (r: Option<seq<byte>>)
      requires Valid()
      modifies this`offset
      ensures Valid()
      ensures match Take(n, old(Rest()))
              case None => r == None && Rest() == old(Rest())
              case Some((b, rest)) => r == Some(b) && Rest() == rest
    {
      if n > |buffer| - offset {
        return None;
      }
      assert Rest()[..n] == buffer[offset..offset + n] && Rest()[n..] == buffer[offset + n..];
      r := Some(buffer[offset..offset + n]);
      offset := offset + n;
    }

    method Deserialize(ty: Ty) returns (r: Option<Val>)
      requires Valid()
      modifies this`offset
      ensures Valid()
      ensures match Decode(ty, old(Rest()))
              case None => r == None
              case Some((v, rest)) => r == Some(v) && Rest() == rest
      decreases ty, 2
    {
      match ty {
        case Pod(n) =>
          var b := ReadBytes(n);
          r := if b.None? then None else Some(VPod(b.value));
        case Str =>
          var size := ReadBytes(8);
          if size.None? { return None; }
          var chars := ReadBytes(FromLe(size.value));
          r := if chars.None? then None else Some(VStr(chars.value));
        case Container(kind, elem) =>
          var size := ReadBytes(8);
          if size.None? { return None; }
          r := Fill(kind, elem, FromLe(size.value));
        case Pair(t, u) =>
          var v := Deserialize(t);
          if v.None? { return None; }
          var w := Deserialize(u);
          r := if w.None? then None else Some(VPair(v.value, w.value));
        case Tuple(ts) =>
          var vs := ReadEach(ts);
          r := if vs.None? then None else Some(VTuple(vs.value));
        case Opt(elem) => r := DeserializeOptional(elem);
        case Ptr(elem) => r := DeserializeOptional(elem);
        case Body => r := DeserializeBody();
      }
    }

    method DeserializeOptional(elem: Ty) returns (r: Option<Val>)
      requires Valid()
      modifies this`offset
      ensures Valid()
      ensures match DecodeOptional(elem, old(Rest()))
              case None => r == None
              case Some((v, rest)) => r == Some(v) && Rest() == rest
      decreases elem, 3
    {
      var flag := ReadBytes(1);
      if flag.None? { return None; }
      if flag.value[0] == 0 { return Some(VNone); }
      var v := Deserialize(elem);
      r := if v.None? then None else Some(VSome(v.value));
    }

    /** The loop that fills a container. */
    method Fill(kind: Kind, elem: Ty, size: nat) returns (r: Option<Val>)
      requires Valid()
      modifies this`offset
      ensures Valid()
      ensures match DecodeMany(kind, elem, size, old(Rest()), [])
              case None => r == None
              case Some((items, rest)) => r == Some(VItems(items)) && Rest() == rest
      decreases elem, 3
    {
      var items: seq<Val> := [];
      var i := 0;
      while i < size
        invariant Valid() && 0 <= i <= size
        invariant DecodeMany(kind, elem, size - i, Rest(), items) == DecodeMany(kind, elem, size, old(Rest()), [])
      {
        var v := Deserialize(elem);
        if v.None? { return None; }
        items := Insert(kind, items, v.value);
        i := i + 1;
      }
      r := Some(VItems(items));
    }

    /** `read` with several arguments; also a handler's arguments from a body. */
    method ReadEach(types: seq<Ty>) returns (r: Option<seq<Val>>)
      requires Valid()
      modifies this`offset
      ensures Valid()
      ensures match DecodeEach(types, old(Rest()))
              case None => r == None
              case Some((vs, rest)) => r == Some(vs) && Rest() == rest
      decreases types, 3
    {
      if types == [] { return Some([]); }
      var v := Deserialize(types[0]);
      if v.None? { return None; }
      var vs := ReadEach(types[1..]);
      r := if vs.None? then None else Some([v.value] + vs.value);
    }

    method DeserializeBody() returns (r: Option<Val>)
      requires Valid()
      modifies this`offset
      ensures Valid()
      ensures match DecodeBody(old(Rest()))
              case None => r == None
              case Some((v, rest)) => r == Some(v) && Rest() == rest
    {
      var code := ReadBytes(8);
      if code.None? { return None; }
      var hash := ReadBytes(8);
      if hash.None? { return None; }
      var size := ReadBytes(4);
      if size.None? { return None; }
      ghost var start := old(Rest());
      assert Take(20, start).Some? && Take(20, start).value.1 == Rest();
      assert start[..20][..8] == code.value && start[..20][8..16] == hash.value && start[..20][16..20] == size.value;
      var bytes := ReadBytes(FromLe(size.value));
      if bytes.None? { return None; }
      FromLeBound(code.value);
      FromLeBound(hash.value);
      WordSizes();
      r := Some(VBody(Serialized(FromLe(code.value), FromLe(hash.value), bytes.value, 0)));
    }
  }

  /** A message for another machine: its header, and its content. The header is made in two parts, the
      length last. */
  method MakeMessageBytes(send: Frames.ActorHandle, recv: Frames.ActorHandle, code: u64, typesHash: u64,
                          args: seq<Val>, ghost types: seq<Ty>)
    returns (header: seq<byte>, content: seq<byte>)
    requires HaveTypes(args, types)
    ensures content == EncodeAll(args)
    ensures header == Frames.Header(Frames.Frame(send, recv, code, typesHash, content))
  {
    var h := new Serializer([]);
    h.SerializeHandle(send);
    h.SerializeHandle(recv);
    h.WriteBytes(Le(8, code));
    h.WriteBytes(Le(8, typesHash));
    var c := new Serializer([]);
    c.WriteEach(args, types);
    var h' := new Serializer(h.bytes);
    h'.WriteBytes(Le(4, |c.bytes| % U32));
    return h'.bytes, c.bytes;
  }
}
