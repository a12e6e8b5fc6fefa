/**
 Which byte stands where: the encoding of a value, a message body or a frame's header, read as positions in
 a buffer, independently of the functions that produce it.
 */
module WireLayout {
  import opened Words
  import opened Wrappers
  import opened Bytes
  import opened Wire
  import Frames

  // ---------------------------------------------------------------- sizes

  function Size(v: Val): nat
    decreases v
  {
    match v
    case VPod(bytes) => |bytes|
    case VStr(chars) => 8 + |chars|
    case VItems(items) => 8 + SizeAll(items)
    case VPair(a, b) => Size(a) + Size(b)
    case VTuple(members) => SizeAll(members)
    case VNone => 1
    case VSome(value) => 1 + Size(value)
    case VBody(m) => 20 + SizeContent(m)
  }

  function SizeAll(vs: seq<Val>): nat
    decreases vs
  {
    if vs == [] then 0 else Size(vs[0]) + SizeAll(vs[1..])
  }

  function SizeContent(m: MessageBody): nat
    decreases m
  {
    match m
    case Memory(_, _, _, args) => SizeAll(args)
    case Serialized(_, _, bytes, offset) => if offset <= |bytes| then |bytes| - offset else 0
  }

  // ---------------------------------------------------------------- positions

  ghost predicate BytesAt(b: seq<byte>, at: nat, part: seq<byte>) {
    at + |part| <= |b| && forall i :: 0 <= i < |part| ==> b[at + i] == part[i]
  }

  /** The value stands in the buffer from `at` on: plain values and characters as they are, lengths as
      eight bytes in front, the parts of a value one after the other, one byte before what may be missing,
      and before the content of a body its code, its hash and four bytes of its length. */
  ghost predicate StandsAt(v: Val, b: seq<byte>, at: nat)
    decreases v
  {
    && at + Size(v) <= |b|
    && match v
       case VPod(bytes) => BytesAt(b, at, bytes)
       case VStr(chars) => NumberAt(b, at, 8, |chars|) && BytesAt(b, at + 8, chars)
       case VItems(items) => NumberAt(b, at, 8, |items|) && AllStandAt(items, b, at + 8)
       case VPair(first, second) => StandsAt(first, b, at) && StandsAt(second, b, at + Size(first))
       case VTuple(members) => AllStandAt(members, b, at)
       case VNone => b[at] == 0
       case VSome(value) => b[at] == 1 && StandsAt(value, b, at + 1)
       case VBody(m) =>
         && NumberAt(b, at, 8, m.code) && NumberAt(b, at + 8, 8, m.typesHash)
         && NumberAt(b, at + 16, 4, SizeContent(m) % U32)
         && ContentStandsAt(m, b, at + 20)
  }

  ghost predicate AllStandAt(vs: seq<Val>, b: seq<byte>, at: nat)
    decreases vs
  {
    vs == [] || (StandsAt(vs[0], b, at) && AllStandAt(vs[1..], b, at + Size(vs[0])))
  }

  ghost predicate ContentStandsAt(m: MessageBody, b: seq<byte>, at: nat)
    decreases m
  {
    match m
    case Memory(_, _, _, args) => AllStandAt(args, b, at)
    case Serialized(_, _, bytes, offset) => offset <= |bytes| ==> BytesAt(b, at, bytes[offset..])
  }

  // ---------------------------------------------------------------- the encoding is laid out so

  lemma {:induction false} EncodedSize(v: Val)
    ensures |Encode(v)| == Size(v)
    decreases v, 0
  {
    match v
    case VItems(items) => EncodedSizes(items);
    case VPair(a, b) => EncodedSize(a); EncodedSize(b);
    case VTuple(members) => EncodedSizes(members);
    case VSome(value) => EncodedSize(value);
    case VBody(m) => ContentSize(m);
    case _ =>
  }

  lemma {:induction false} EncodedSizes(vs: seq<Val>)
    ensures |EncodeAll(vs)| == SizeAll(vs)
    decreases vs, 0
  {
    if vs != [] {
      EncodedSize(vs[0]);
      EncodedSizes(vs[1..]);
    }
  }

  lemma {:induction false} ContentSize(m: MessageBody)
    ensures |Content(m)| == SizeContent(m)
    decreases m, 0
  {
    if m.Memory? {
      EncodedSizes(m.args);
    }
  }

  lemma Shift(pre: seq<byte>, a: seq<byte>, c: seq<byte>, post: seq<byte>)
    ensures pre + (a + c) + post == pre + a + (c + post) == (pre + a) + c + post
  {
  }

  /** Wherever the encoding stands, the value stands. */
  lemma {:induction false} EncodingStands(v: Val, pre: seq<byte>, post: seq<byte>)
    ensures StandsAt(v, pre + Encode(v) + post, |pre|)
    decreases v, 1
  {
    EncodedSize(v);
    match v
    case VPod(bytes) =>
    case VStr(chars) =>
      Shift(pre, Le(8, |chars|), chars, post);
      LeAt(pre, 8, |chars|, chars + post);
    case VItems(items) =>
      Shift(pre, Le(8, |items|), EncodeAll(items), post);
      LeAt(pre, 8, |items|, EncodeAll(items) + post);
      EncodingsStand(items, pre + Le(8, |items|), post);
    case VPair(a, b) =>
      Shift(pre, Encode(a), Encode(b), post);
      EncodedSize(a);
      EncodingStands(a, pre, Encode(b) + post);
      EncodingStands(b, pre + Encode(a), post);
    case VTuple(members) => EncodingsStand(members, pre, post);
    case VNone =>
    case VSome(value) =>
      Shift(pre, [BoolByte(true)], Encode(value), post);
      EncodingStands(value, pre + [BoolByte(true)], post);
    case VBody(m) => BodyStands(m, pre, post);
  }

  lemma {:induction false} EncodingsStand(vs: seq<Val>, pre: seq<byte>, post: seq<byte>)
    ensures AllStandAt(vs, pre + EncodeAll(vs) + post, |pre|)
    decreases vs, 1
  {
    if vs != [] {
      Shift(pre, Encode(vs[0]), EncodeAll(vs[1..]), post);
      EncodedSize(vs[0]);
      EncodingStands(vs[0], pre, EncodeAll(vs[1..]) + post);
      EncodingsStand(vs[1..], pre + Encode(vs[0]), post);
    }
  }

  lemma {:induction false} BodyStands(m: MessageBody, pre: seq<byte>, post: seq<byte>)
    ensures StandsAt(VBody(m), pre + EncodeBody(m) + post, |pre|)
    decreases m, 1
  {
    hide StandsAt, Encode, Le;
    ContentSize(m);
    var (c, h, n, t) := (Le(8, m.code), Le(8, m.typesHash), Le(4, |Content(m)| % U32), Content(m));
    var b := pre + EncodeBody(m) + post;
    BodyParts(pre, c, h, n, t, post);
    LeAt(pre, 8, m.code, h + n + t + post);
    LeAt(pre + c, 8, m.typesHash, n + t + post);
    LeAt(pre + c + h, 4, |Content(m)| % U32, t + post);
    ContentStands(m, pre + c + h + n, post);
    BodyFields(m, b, |pre|);
  }

  lemma BodyParts(pre: seq<byte>, c: seq<byte>, h: seq<byte>, n: seq<byte>, t: seq<byte>, post: seq<byte>)
    ensures var b := pre + (c + h + n + t) + post;
            && b == pre + c + (h + n + t + post)
            && b == pre + c + h + (n + t + post)
            && b == pre + c + h + n + (t + post)
            && b == pre + c + h + n + t + post
  {
  }

  lemma BodyFields(m: MessageBody, b: seq<byte>, at: nat)
    requires at + 20 + SizeContent(m) <= |b|
    requires NumberAt(b, at, 8, m.code) && NumberAt(b, at + 8, 8, m.typesHash) && NumberAt(b, at + 16, 4, SizeContent(m) % U32)
    requires ContentStandsAt(m, b, at + 20)
    ensures StandsAt(VBody(m), b, at)
  {
  }

  lemma {:induction false} ContentStands(m: MessageBody, pre: seq<byte>, post: seq<byte>)
    ensures ContentStandsAt(m, pre + Content(m) + post, |pre|)
    decreases m, 0
  {
    match m
    case Memory(_, _, _, args) => EncodingsStand(args, pre, post);
    case Serialized(_, _, bytes, offset) =>
  }

  /** Every value is laid out like this, from the first byte of its encoding to the last. */
  lemma EncodingLayout(v: Val)
    ensures |Encode(v)| == Size(v) && StandsAt(v, Encode(v), 0)
  {
    EncodedSize(v);
    EncodingStands(v, [], []);
    assert [] + Encode(v) + [] == Encode(v);
  }

  // ---------------------------------------------------------------- frames

  /** The header of a message to another machine, field by field, and the content behind it. */
  lemma FrameLayout(f: Frames.Frame)
    ensures var b := Frames.Encode(f);
            && |b| == 30 + |f.content|
            && NumberAt(b, 0, 4, f.sender.id) && b[4] == (if f.sender.swsr then 1 else 0)
            && NumberAt(b, 5, 4, f.receiver.id) && b[9] == (if f.receiver.swsr then 1 else 0)
            && NumberAt(b, 10, 8, f.code) && NumberAt(b, 18, 8, f.typesHash)
            && NumberAt(b, 26, 4, |f.content| % U32)
            && BytesAt(b, 30, f.content)
  {
    var (b, h) := (Frames.Encode(f), Frames.Header(f));
    Frames.HeaderParts(f);
    hide Frames.Header, Le;
    assert forall i :: 0 <= i < 30 ==> b[i] == h[i];
    HandleLayout(f.sender);
    HandleLayout(f.receiver);
    FieldAt(b, h, 0, 5, Frames.EncodeHandle(f.sender));
    FieldAt(b, h, 5, 5, Frames.EncodeHandle(f.receiver));
    FieldAt(b, h, 10, 8, Le(8, f.code));
    FieldAt(b, h, 18, 8, Le(8, f.typesHash));
    FieldAt(b, h, 26, 4, Le(4, |f.content| % U32));
    hide Frames.EncodeHandle;
    NumberHere(b, 10, 8, f.code);
    NumberHere(b, 18, 8, f.typesHash);
    NumberHere(b, 26, 4, |f.content| % U32);
  }

  lemma HandleLayout(a: Frames.ActorHandle)
    ensures var e := Frames.EncodeHandle(a); NumberAt(e, 0, 4, a.id) && e[4] == if a.swsr then 1 else 0
  {
    LeAt([], 4, a.id, [BoolByte(a.swsr)]);
    assert [] + Le(4, a.id) + [BoolByte(a.swsr)] == Frames.EncodeHandle(a);
  }

  lemma FieldAt(b: seq<byte>, h: seq<byte>, at: nat, n: nat, part: seq<byte>)
    requires at + n <= |h| <= |b| && (forall i :: 0 <= i < |h| ==> b[i] == h[i]) && h[at..at + n] == part
    ensures forall i :: 0 <= i < n ==> b[at + i] == part[i]
  {
    forall i | 0 <= i < n ensures b[at + i] == part[i] {
      assert h[at..at + n][i] == h[at + i];
    }
  }

  lemma NumberHere(b: seq<byte>, at: nat, n: nat, x: nat)
    requires at + n <= |b| && forall i :: 0 <= i < n ==> b[at + i] == Le(n, x)[i]
    ensures NumberAt(b, at, n, x)
  {
    forall i | 0 <= i < n ensures b[at + i] == ByteOf(x, i) {
      LeByte(n, x, i);
    }
  }
}
