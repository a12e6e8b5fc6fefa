/** Bytes and little-endian machine integers, as `memcpy` of an integer leaves them. */
module Bytes {
  import opened Words
  import opened Wrappers

  type byte = x: int | 0 <= x < 256
  type u64 = x: int | 0 <= x < 0x1_0000_0000_0000_0000

  /** The low n bytes of x. */
  function Le(n: nat, x: nat): (b: seq<byte>)
    ensures |b| == n
  {
    if n == 0 then [] else [x % 256] + Le(n - 1, x / 256)
  }

  function FromLe(b: seq<byte>): nat {
    if b == [] then 0 else b[0] + 256 * FromLe(b[1..])
  }

  /** Reading back what was written gives the number if it fits. */
  lemma {:induction false} LeRoundTrip(n: nat, x: nat)
    requires x < Pow2(8 * n)
    ensures FromLe(Le(n, x)) == x
    decreases n
  {
    if n > 0 {
      Pow2Sum(8, 8 * (n - 1));
      assert Pow2(8) == 256;
      LeRoundTrip(n - 1, x / 256);
      assert Le(n, x)[1..] == Le(n - 1, x / 256);
    }
  }

  /** The i-th byte of a number, from the lowest: what is left after i shifts by eight bits, modulo 256. */
  function ByteOf(x: nat, i: nat): byte {
    if i == 0 then x % 256 else ByteOf(x / 256, i - 1)
  }

  /** The number stands in n bytes from `at` on, its lowest byte first. */
  ghost predicate NumberAt(b: seq<byte>, at: nat, n: nat, x: nat) {
    at + n <= |b| && forall i :: 0 <= i < n ==> b[at + i] == ByteOf(x, i)
  }

  lemma {:induction false} LeByte(n: nat, x: nat, i: nat)
    requires i < n
    ensures Le(n, x)[i] == ByteOf(x, i)
    decreases n
  {
    if i > 0 {
      LeByte(n - 1, x / 256, i - 1);
    }
  }

  lemma LeAt(pre: seq<byte>, n: nat, x: nat, post: seq<byte>)
    ensures NumberAt(pre + Le(n, x) + post, |pre|, n, x)
  {
    forall i | 0 <= i < n
      ensures (pre + Le(n, x) + post)[|pre| + i] == ByteOf(x, i)
    {
      LeByte(n, x, i);
    }
  }

  lemma {:induction false} FromLeBound(b: seq<byte>)
    ensures FromLe(b) < Pow2(8 * |b|)
    decreases |b|
  {
    if b != [] {
      FromLeBound(b[1..]);
      Pow2Sum(8, 8 * (|b| - 1));
      assert Pow2(8) == 256;
    }
  }

  lemma WordSizes()
    ensures Pow2(8 * 4) == U32 && Pow2(8 * 8) == 0x1_0000_0000_0000_0000
  {
    Pow2Of32();
    Pow2Sum(32, 32);
  }

  lemma Le32(x: u32)
    ensures FromLe(Le(4, x)) == x
  {
    WordSizes();
    LeRoundTrip(4, x);
  }

  lemma Le64(x: u64)
    ensures FromLe(Le(8, x)) == x
  {
    WordSizes();
    LeRoundTrip(8, x);
  }

  /** The next n bytes and the rest; None where the source would read past the end. */
  function Take(n: nat, b: seq<byte>): Option<(seq<byte>, seq<byte>)> {
    if n <= |b| then Some((b[..n], b[n..])) else None
  }

  lemma TakeExact(a: seq<byte>, rest: seq<byte>)
    ensures Take(|a|, a + rest) == Some((a, rest))
  {
    assert (a + rest)[..|a|] == a && (a + rest)[|a|..] == rest;
  }

  lemma Regroup(a: seq<byte>, b: seq<byte>, c: seq<byte>)
    ensures (a + b) + c == a + (b + c)
  {
  }

  function BoolByte(b: bool): byte {
    if b then 1 else 0
  }
}
