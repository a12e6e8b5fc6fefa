/** Decoding undoes encoding, for every value of every type. */
module WireTheorems {
  import opened Words
  import opened Wrappers
  import opened Bytes
  import opened Wire
  import Frames

  // ---------------------------------------------------------------- plain keys

  /** A value without pointers and bodies arrives as it was sent. */
  lemma {:induction false} KeyableArrivesAsIs(v: Val, ty: Ty)
    requires HasType(v, ty) && Keyable(ty)
    ensures Receive(v) == v
    decreases v
  {
    match ty
    case Pod(_) =>
    case Str =>
    case Container(_, elem) =>
      forall i | 0 <= i < |v.items| ensures Receive(v.items[i]) == v.items[i] { KeyableArrivesAsIs(v.items[i], elem); }
      assert ReceiveAll(v.items) == v.items;
    case Pair(a, b) => KeyableArrivesAsIs(v.first, a); KeyableArrivesAsIs(v.second, b);
    case Tuple(ts) =>
      forall i | 0 <= i < |ts| ensures Receive(v.members[i]) == v.members[i] { KeyableArrivesAsIs(v.members[i], ts[i]); }
      assert ReceiveAll(v.members) == v.members;
    case Opt(elem) => if v.VSome? { KeyableArrivesAsIs(v.value, elem); }
  }

  /** So a set or map still has no repeats when its items have arrived. */
  lemma ArrivedNoRepeats(items: seq<Val>, kind: Kind, elem: Ty)
    requires KeysComparable(kind, elem) && NoRepeats(kind, items)
    requires forall i :: 0 <= i < |items| ==> HasType(items[i], elem)
    ensures NoRepeats(kind, ReceiveAll(items))
  {
    var got := ReceiveAll(items);
    match kind
    case Append =>
    case Once =>
      forall i | 0 <= i < |items| ensures Receive(items[i]) == items[i] { KeyableArrivesAsIs(items[i], elem); }
      assert got == items;
    case OnceByKey =>
      forall i | 0 <= i < |items| ensures got[i].VPair? && got[i].first == items[i].first {
        KeyableArrivesAsIs(items[i].first, elem.first);
      }
      forall i | 0 <= i < |got| ensures !Present(kind, got[..i], got[i]) {
        assert !Present(kind, items[..i], items[i]);
        forall j | 0 <= j < i ensures got[..i][j].first != got[i].first {
          assert items[..i][j] == items[j];
        }
      }
  }

  // ---------------------------------------------------------------- round trip

  lemma SizePrefix(n: nat, tail: seq<byte>)
    requires n < U64
    ensures Take(8, Le(8, n) + tail) == Some((Le(8, n), tail)) && FromLe(Le(8, n)) == n
  {
    Le64(n);
    TakeExact(Le(8, n), tail);
  }

  /** A body is read back whole exactly if the length of its content fits 32 bits. */
  lemma BodyRoundTrip(m: MessageBody, rest: seq<byte>)
    requires |Content(m)| < U32
    ensures DecodeBody(EncodeBody(m) + rest) == Some((VBody(Serialized(m.code, m.typesHash, Content(m), 0)), rest))
  {
    var c := Content(m);
    var h := Le(8, m.code) + Le(8, m.typesHash) + Le(4, |c|);
    assert |c| % U32 == |c|;
    assert h[..8] == Le(8, m.code) && h[8..16] == Le(8, m.typesHash) && h[16..20] == Le(4, |c|);
    Le64(m.code);
    Le64(m.typesHash);
    Le32(|c|);
    assert EncodeBody(m) + rest == h + (c + rest);
    TakeExact(h, c + rest);
    TakeExact(c, rest);
  }

  lemma {:induction false} RoundTrip(v: Val, ty: Ty, rest: seq<byte>)
    requires HasType(v, ty) && BodiesFit(v)
    ensures Decode(ty, Encode(v) + rest) == Some((Receive(v), rest))
    decreases v, 1
  {
    match ty
    case Pod(_) => TakeExact(v.bytes, rest);
    case Str =>
      Regroup(Le(8, |v.chars|), v.chars, rest);
      SizePrefix(|v.chars|, v.chars + rest);
      TakeExact(v.chars, rest);
    case Container(kind, elem) =>
      Regroup(Le(8, |v.items|), EncodeAll(v.items), rest);
      SizePrefix(|v.items|, EncodeAll(v.items) + rest);
      ArrivedNoRepeats(v.items, kind, elem);
      assert [] + ReceiveAll(v.items) == ReceiveAll(v.items);
      ManyRoundTrip(kind, elem, v.items, [], rest);
    case Pair(a, b) =>
      Regroup(Encode(v.first), Encode(v.second), rest);
      RoundTrip(v.first, a, Encode(v.second) + rest);
      RoundTrip(v.second, b, rest);
    case Tuple(ts) => EachRoundTrip(v.members, ts, rest);
    case Opt(elem) => OptionalRoundTrip(v, elem, rest);
    case Ptr(elem) => OptionalRoundTrip(v, elem, rest);
    case Body => BodyRoundTrip(v.body, rest);
  }

  lemma {:induction false} OptionalRoundTrip(v: Val, elem: Ty, rest: seq<byte>)
    requires v.VNone? || (v.VSome? && HasType(v.value, elem) && BodiesFit(v.value))
    ensures DecodeOptional(elem, Encode(v) + rest) == Some((Receive(v), rest))
    decreases v, 0
  {
    if v.VNone? {
      assert (Encode(v) + rest)[1..] == rest;
    } else {
      assert (Encode(v) + rest)[1..] == Encode(v.value) + rest;
      RoundTrip(v.value, elem, rest);
    }
  }

  lemma {:induction false} ManyRoundTrip(kind: Kind, elem: Ty, items: seq<Val>, got: seq<Val>, rest: seq<byte>)
    requires (forall i :: 0 <= i < |items| ==> HasType(items[i], elem)) && AllBodiesFit(items)
    requires NoRepeats(kind, got + ReceiveAll(items))
    ensures DecodeMany(kind, elem, |items|, EncodeAll(items) + rest, got) == Some((got + ReceiveAll(items), rest))
    decreases items, 0
  {
    if items == [] {
      assert EncodeAll(items) + rest == rest && got + ReceiveAll(items) == got;
    } else {
      hide Encode, Decode, Receive, BodiesFit, HasType, NoRepeats;
      var tail := EncodeAll(items[1..]) + rest;
      var v := Receive(items[0]);
      Regroup(Encode(items[0]), EncodeAll(items[1..]), rest);
      RoundTrip(items[0], elem, tail);
      assert got + ReceiveAll(items) == (got + [v]) + ReceiveAll(items[1..]);
      NewItem(kind, got, v, ReceiveAll(items[1..]));
      AllFitSplit(items);
      ManyRoundTrip(kind, elem, items[1..], got + [v], rest);
    }
  }

  lemma NewItem(kind: Kind, got: seq<Val>, v: Val, more: seq<Val>)
    requires NoRepeats(kind, (got + [v]) + more)
    ensures Insert(kind, got, v) == got + [v]
  {
    hide Present;
    var all := (got + [v]) + more;
    assert all[..|got|] == got && all[|got|] == v;
  }

  lemma {:induction false} EachRoundTrip(vs: seq<Val>, types: seq<Ty>, rest: seq<byte>)
    requires HaveTypes(vs, types) && AllBodiesFit(vs)
    ensures DecodeEach(types, EncodeAll(vs) + rest) == Some((ReceiveAll(vs), rest))
    decreases vs, 0
  {
    if vs == [] {
      assert EncodeAll(vs) + rest == rest;
    } else {
      hide Encode, Decode, Receive, BodiesFit, HasType;
      var tail := EncodeAll(vs[1..]) + rest;
      AllFitSplit(vs);
      Regroup(Encode(vs[0]), EncodeAll(vs[1..]), rest);
      RoundTrip(vs[0], types[0], tail);
      EachRoundTrip(vs[1..], types[1..], rest);
    }
  }

  // ---------------------------------------------------------------- exactly when

  /** No decoded body is longer than its 32-bit length says. */
  lemma {:induction false} DecodedFits(ty: Ty, b: seq<byte>)
    ensures var r := Decode(ty, b); r.Some? ==> BodiesFit(r.value.0)
    decreases ty, 0
  {
    match ty
    case Pod(_) =>
    case Str =>
    case Container(kind, elem) =>
      if Take(8, b).Some? { DecodedManyFit(kind, elem, FromLe(Take(8, b).value.0), Take(8, b).value.1, []); }
    case Pair(t, u) =>
      DecodedFits(t, b);
      if Decode(t, b).Some? { DecodedFits(u, Decode(t, b).value.1); }
    case Tuple(ts) => DecodedEachFit(ts, b);
    case Opt(elem) => if b != [] { DecodedFits(elem, b[1..]); }
    case Ptr(elem) => if b != [] { DecodedFits(elem, b[1..]); }
    case Body => if Take(20, b).Some? { FromLeBound(Take(20, b).value.0[16..20]); WordSizes(); }
  }

  lemma {:induction false} DecodedManyFit(kind: Kind, elem: Ty, n: nat, b: seq<byte>, items: seq<Val>)
    requires AllBodiesFit(items)
    ensures var r := DecodeMany(kind, elem, n, b, items); r.Some? ==> AllBodiesFit(r.value.0)
    decreases elem, n + 1
  {
    hide BodiesFit, Decode, Present;
    if n > 0 {
      DecodedFits(elem, b);
      if Decode(elem, b).Some? {
        DecodedManyFit(kind, elem, n - 1, Decode(elem, b).value.1, Insert(kind, items, Decode(elem, b).value.0));
      }
    }
  }

  lemma {:induction false} DecodedEachFit(types: seq<Ty>, b: seq<byte>)
    ensures var r := DecodeEach(types, b); r.Some? ==> AllBodiesFit(r.value.0)
    decreases types, 0
  {
    hide BodiesFit, Decode;
    if types != [] {
      DecodedFits(types[0], b);
      if Decode(types[0], b).Some? {
        DecodedEachFit(types[1..], Decode(types[0], b).value.1);
      }
    }
  }

  lemma {:induction false} ReceivedFits(v: Val)
    ensures BodiesFit(Receive(v)) <==> BodiesFit(v)
    decreases v, 1
  {
    match v
    case VItems(items) => ReceivedAllFit(items);
    case VPair(a, b) => ReceivedFits(a); ReceivedFits(b);
    case VTuple(members) => ReceivedAllFit(members);
    case VSome(value) => ReceivedFits(value);
    case _ =>
  }

  lemma {:induction false} ReceivedAllFit(vs: seq<Val>)
    ensures AllBodiesFit(ReceiveAll(vs)) <==> AllBodiesFit(vs)
    decreases vs, 0
  {
    hide BodiesFit, Receive;
    if vs != [] {
      ReceivedFits(vs[0]);
      ReceivedAllFit(vs[1..]);
      AllFitSplit(vs);
      AllFitSplit(ReceiveAll(vs));
      assert ReceiveAll(vs)[1..] == ReceiveAll(vs[1..]);
    }
  }

  lemma AllFitSplit(vs: seq<Val>)
    requires vs != []
    ensures AllBodiesFit(vs) <==> BodiesFit(vs[0]) && AllBodiesFit(vs[1..])
  {
    hide BodiesFit;
    assert vs == [vs[0]] + vs[1..];
  }

  /** For every value of every type, decoding its encoding followed by anything gives the value, its
      bodies as bytes, and what followed, exactly if no body in it reaches 2^32 bytes. */
  lemma RoundTripExactly(v: Val, ty: Ty, rest: seq<byte>)
    requires HasType(v, ty)
    ensures Decode(ty, Encode(v) + rest) == Some((Receive(v), rest)) <==> BodiesFit(v)
  {
    if BodiesFit(v) {
      RoundTrip(v, ty, rest);
    } else {
      DecodedFits(ty, Encode(v) + rest);
      ReceivedFits(v);
    }
  }

  /** An encoding shorter than 2^32 bytes has no body in it that is not. */
  lemma {:induction false} ShortMeansFit(v: Val)
    requires |Encode(v)| < U32
    ensures BodiesFit(v)
    decreases v, 1
  {
    match v
    case VItems(items) => ShortMeansAllFit(items);
    case VPair(a, b) => ShortMeansFit(a); ShortMeansFit(b);
    case VTuple(members) => ShortMeansAllFit(members);
    case VSome(value) => ShortMeansFit(value);
    case _ =>
  }

  lemma {:induction false} ShortMeansAllFit(vs: seq<Val>)
    requires |EncodeAll(vs)| < U32
    ensures AllBodiesFit(vs)
    decreases vs, 0
  {
    hide Encode, BodiesFit;
    if vs != [] {
      ShortMeansFit(vs[0]);
      ShortMeansAllFit(vs[1..]);
      AllFitSplit(vs);
    }
  }

  /** What a handler gets: the arguments, decoded at the handler's types from the bytes of the body that
      arrived, with nothing left over. */
  lemma ContentRoundTrip(m: MessageBody, rest: seq<byte>)
    requires m.Memory? && BodyHasType(m) && |Content(m)| < U32
    ensures var r := Decode(Body, Encode(VBody(m)) + rest);
            r == Some((Receive(VBody(m)), rest))
            && DecodeEach(m.types, r.value.0.body.bytes) == Some((ReceiveAll(m.args), []))
  {
    BodyRoundTrip(m, rest);
    ShortMeansAllFit(m.args);
    EachRoundTrip(m.args, m.types, []);
    assert EncodeAll(m.args) + [] == EncodeAll(m.args);
  }

  /** A message to another machine: the frame is read back and its content decodes to the arguments
      exactly if the content is shorter than 2^32 bytes. */
  lemma MessageArrivesExactly(f: Frames.Frame, args: seq<Val>, types: seq<Ty>, rest: seq<byte>)
    requires HaveTypes(args, types) && f.content == EncodeAll(args)
    ensures (Frames.Decode(Frames.Encode(f) + rest) == Some((f, rest))
             && DecodeEach(types, f.content) == Some((ReceiveAll(args), []))) <==> |f.content| < U32
  {
    Frames.FrameRoundTripExactly(f, rest);
    if |f.content| < U32 {
      ShortMeansAllFit(args);
      EachRoundTrip(args, types, []);
      assert EncodeAll(args) + [] == EncodeAll(args);
    }
  }

  // ---------------------------------------------------------------- forwarding

  lemma {:induction false} ReserialiseAll(vs: seq<Val>)
    ensures EncodeAll(ReceiveAll(vs)) == EncodeAll(vs)
    decreases vs, 0
  {
    if vs != [] {
      Reserialise(vs[0]);
      ReserialiseAll(vs[1..]);
      assert ReceiveAll(vs)[1..] == ReceiveAll(vs[1..]);
    }
  }

  /** What was received serialises to the very bytes it came as, whatever is in it. */
  lemma {:induction false} Reserialise(v: Val)
    ensures Encode(Receive(v)) == Encode(v)
    decreases v, 1
  {
    match v
    case VItems(items) => ReserialiseAll(items);
    case VPair(a, b) => Reserialise(a); Reserialise(b);
    case VTuple(members) => ReserialiseAll(members);
    case VSome(value) => Reserialise(value);
    case VBody(m) =>
      var got := Serialized(m.code, m.typesHash, Content(m), 0);
      assert Content(got) == Content(m)[0..] == Content(m);
      assert EncodeBody(got) == EncodeBody(m);
    case _ =>
  }

  /** Nothing is confused on the wire: equal bytes arrive as equal values. */
  lemma EncodingTellsApart(v: Val, w: Val, ty: Ty)
    requires HasType(v, ty) && HasType(w, ty) && BodiesFit(v) && BodiesFit(w)
    ensures Encode(v) == Encode(w) <==> Receive(v) == Receive(w)
  {
    RoundTrip(v, ty, []);
    RoundTrip(w, ty, []);
    Reserialise(v);
    Reserialise(w);
  }
}
