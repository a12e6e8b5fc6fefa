/** The wire format: what serialising a value writes and what deserialising at its type reads back. */
module Wire {
  import opened Words
  import opened Wrappers
  import opened Bytes

  /** How a container takes in a decoded item: at its end (vector, list, deque, multiset, and sets of
      pointers, whose addresses are all new), unless it is there already (set), or unless its key is
      there already (map). */
  datatype Kind = Append | Once | OnceByKey

  /** Pod(n) is any plain type of n bytes, bool and std::vector<bool>'s items included; Ptr is a unique
      or shared pointer; Body a pointer to a message body. */
  datatype Ty =
    | Pod(n: nat)
    | Str
    | Container(kind: Kind, elem: Ty)
    | Pair(first: Ty, second: Ty)
    | Tuple(members: seq<Ty>)
    | Opt(elem: Ty)
    | Ptr(elem: Ty)
    | Body

  /** A container is the sequence of its items in the order of iteration. */
  datatype Val =
    | VPod(bytes: seq<byte>)
    | VStr(chars: seq<byte>)
    | VItems(items: seq<Val>)
    | VPair(first: Val, second: Val)
    | VTuple(members: seq<Val>)
    | VNone
    | VSome(value: Val)
    | VBody(body: MessageBody)

  /** A body holds its arguments, or the bytes it was received as from an offset on. */
  datatype MessageBody =
    | Memory(code: u64, typesHash: u64, types: seq<Ty>, args: seq<Val>)
    | Serialized(code: u64, typesHash: u64, bytes: seq<byte>, offset: nat)

  const U64 := 0x1_0000_0000_0000_0000

  // ---------------------------------------------------------------- types

  /** Whether equality of keys is equality of values: pointers compare by address. */
  predicate Keyable(ty: Ty) {
    match ty
    case Pod(_) => true
    case Str => true
    case Container(_, elem) => Keyable(elem)
    case Pair(a, b) => Keyable(a) && Keyable(b)
    case Tuple(ts) => forall i :: 0 <= i < |ts| ==> Keyable(ts[i])
    case Opt(elem) => Keyable(elem)
    case Ptr(_) => false
    case Body => false
  }

  predicate KeysComparable(kind: Kind, elem: Ty) {
    match kind
    case Append => true
    case Once => Keyable(elem)
    case OnceByKey => elem.Pair? && Keyable(elem.first)
  }

  /** Whether a container of that kind already has v. */
  predicate Present(kind: Kind, items: seq<Val>, v: Val) {
    match kind
    case Append => false
    case Once => v in items
    case OnceByKey => v.VPair? && exists i :: 0 <= i < |items| && items[i].VPair? && items[i].first == v.first
  }

  function Insert(kind: Kind, items: seq<Val>, v: Val): seq<Val> {
    if Present(kind, items, v) then items else items + [v]
  }

  ghost predicate NoRepeats(kind: Kind, items: seq<Val>) {
    forall i :: 0 <= i < |items| ==> !Present(kind, items[..i], items[i])
  }

  ghost predicate HasType(v: Val, ty: Ty)
    decreases v
  {
    match ty
    case Pod(n) => v.VPod? && |v.bytes| == n
    case Str => v.VStr? && |v.chars| < U64
    case Container(kind, elem) =>
      && v.VItems? && |v.items| < U64 && KeysComparable(kind, elem) && NoRepeats(kind, v.items)
      && forall i :: 0 <= i < |v.items| ==> HasType(v.items[i], elem)
    case Pair(a, b) => v.VPair? && HasType(v.first, a) && HasType(v.second, b)
    case Tuple(ts) =>
      v.VTuple? && |v.members| == |ts| && forall i :: 0 <= i < |ts| ==> HasType(v.members[i], ts[i])
    case Opt(elem) => v.VNone? || (v.VSome? && HasType(v.value, elem))
    case Ptr(elem) => v.VNone? || (v.VSome? && HasType(v.value, elem))
    case Body => v.VBody? && BodyHasType(v.body)
  }

  ghost predicate BodyHasType(m: MessageBody)
    decreases m
  {
    match m
    case Memory(_, _, types, args) => |args| == |types| && forall i :: 0 <= i < |types| ==> HasType(args[i], types[i])
    case Serialized(_, _, bytes, offset) => offset <= |bytes|
  }

  ghost predicate HaveTypes(vs: seq<Val>, types: seq<Ty>) {
    |vs| == |types| && forall i :: 0 <= i < |vs| ==> HasType(vs[i], types[i])
  }

  // ---------------------------------------------------------------- encoding

  function Encode(v: Val): seq<byte>
    decreases v
  {
    match v
    case VPod(bytes) => bytes
    case VStr(chars) => Le(8, |chars|) + chars
    case VItems(items) => Le(8, |items|) + EncodeAll(items)
    case VPair(a, b) => Encode(a) + Encode(b)
    case VTuple(members) => EncodeAll(members)
    case VNone => [BoolByte(false)]
    case VSome(value) => [BoolByte(true)] + Encode(value)
    case VBody(m) => EncodeBody(m)
  }

  function EncodeAll(vs: seq<Val>): seq<byte>
    decreases vs
  {
    if vs == [] then [] else Encode(vs[0]) + EncodeAll(vs[1..])
  }

  function Content(m: MessageBody): seq<byte>
    decreases m, 0
  {
    match m
    case Memory(_, _, _, args) => EncodeAll(args)
    case Serialized(_, _, bytes, offset) => if offset <= |bytes| then bytes[offset..] else []
  }

  /** Code, hash, the length of the content cast to 32 bits, the content. */
  function EncodeBody(m: MessageBody): seq<byte>
    decreases m, 1
  {
    Le(8, m.code) + Le(8, m.typesHash) + Le(4, |Content(m)| % U32) + Content(m)
  }

  // ---------------------------------------------------------------- decoding

  /** None where the source would read past the end of the buffer. */
  function Decode(ty: Ty, b: seq<byte>): Option<(Val, seq<byte>)>
    decreases ty, 0
  {
    match ty
    case Pod(n) =>
      (match Take(n, b) case None => None case Some((bytes, rest)) => Some((VPod(bytes), rest)))
    case Str =>
      (match Take(8, b)
       case None => None
       case Some((size, rest)) =>
         match Take(FromLe(size), rest) case None => None case Some((chars, rest')) => Some((VStr(chars), rest')))
    case Container(kind, elem) =>
      (match Take(8, b)
       case None => None
       case Some((size, rest)) =>
         match DecodeMany(kind, elem, FromLe(size), rest, [])
         case None => None
         case Some((items, rest')) => Some((VItems(items), rest')))
    case Pair(t, u) =>
      (match Decode(t, b)
       case None => None
       case Some((v, rest)) =>
         match Decode(u, rest) case None => None case Some((w, rest')) => Some((VPair(v, w), rest')))
    case Tuple(ts) =>
      (match DecodeEach(ts, b) case None => None case Some((vs, rest)) => Some((VTuple(vs), rest)))
    case Opt(elem) => DecodeOptional(elem, b)
    case Ptr(elem) => DecodeOptional(elem, b)
    case Body => DecodeBody(b)
  }

  function DecodeOptional(elem: Ty, b: seq<byte>): Option<(Val, seq<byte>)>
    decreases elem, 1
  {
    if b == [] then None
    else if b[0] == 0 then Some((VNone, b[1..]))
    else match Decode(elem, b[1..]) case None => None case Some((v, rest)) => Some((VSome(v), rest))
  }

  /** n more items, put into the container that already has `items`. */
  function DecodeMany(kind: Kind, elem: Ty, n: nat, b: seq<byte>, items: seq<Val>): Option<(seq<Val>, seq<byte>)>
    decreases elem, n + 1
  {
    if n == 0 then Some((items, b))
    else match Decode(elem, b)
      case None => None
      case Some((v, rest)) => DecodeMany(kind, elem, n - 1, rest, Insert(kind, items, v))
  }

  function DecodeEach(types: seq<Ty>, b: seq<byte>): Option<(seq<Val>, seq<byte>)>
    decreases types, 0
  {
    if types == [] then Some(([], b))
    else match Decode(types[0], b)
      case None => None
      case Some((v, rest)) =>
        match DecodeEach(types[1..], rest)
        case None => None
        case Some((vs, rest')) => Some(([v] + vs, rest'))
  }

  function DecodeBody(b: seq<byte>): Option<(Val, seq<byte>)> {
    match Take(20, b)
    case None => None
    case Some((h, rest)) =>
      FromLeBound(h[..8]);
      FromLeBound(h[8..16]);
      WordSizes();
      match Take(FromLe(h[16..20]), rest)
      case None => None
      case Some((bytes, rest')) => Some((VBody(Serialized(FromLe(h[..8]), FromLe(h[8..16]), bytes, 0)), rest'))
  }

  // ---------------------------------------------------------------- what arrives

  /** The value at the other end: every message body has become its bytes. */
  function Receive(v: Val): Val
    decreases v
  {
    match v
    case VPod(_) => v
    case VStr(_) => v
    case VItems(items) => VItems(ReceiveAll(items))
    case VPair(a, b) => VPair(Receive(a), Receive(b))
    case VTuple(members) => VTuple(ReceiveAll(members))
    case VNone => VNone
    case VSome(value) => VSome(Receive(value))
    case VBody(m) => VBody(Serialized(m.code, m.typesHash, Content(m), 0))
  }

  function ReceiveAll(vs: seq<Val>): (r: seq<Val>)
    ensures |r| == |vs| && forall i :: 0 <= i < |vs| ==> r[i] == Receive(vs[i])
    decreases vs
  {
    if vs == [] then [] else [Receive(vs[0])] + ReceiveAll(vs[1..])
  }

  /** Every message body in the value has a content shorter than 2^32 bytes. */
  ghost predicate BodiesFit(v: Val)
    decreases v
  {
    match v
    case VPod(_) => true
    case VStr(_) => true
    case VItems(items) => AllBodiesFit(items)
    case VPair(a, b) => BodiesFit(a) && BodiesFit(b)
    case VTuple(members) => AllBodiesFit(members)
    case VNone => true
    case VSome(value) => BodiesFit(value)
    case VBody(m) => |Content(m)| < U32
  }

  ghost predicate AllBodiesFit(vs: seq<Val>)
    decreases vs
  {
    forall i :: 0 <= i < |vs| ==> BodiesFit(vs[i])
  }
}
