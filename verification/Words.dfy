/** Machine words: 32-bit wrap-around, powers of two and bitwise and, as the C++ code uses them. */
module Words {
  const U32: int := 0x1_0000_0000

  type u32 = x: int | 0 <= x < 0x1_0000_0000

  function Add32(a: int, b: int): u32 {
    (a + b) % U32
  }

  function Sub32(a: int, b: int): u32 {
    (a - b) % U32
  }

  function Pow2(k: nat): (p: nat)
    ensures p > 0
  {
    if k == 0 then 1 else 2 * Pow2(k - 1)
  }

  /** The bitwise `a & b`. */
  function And(a: nat, b: nat): nat
    decreases a
  {
    if a == 0 then 0 else 2 * And(a / 2, b / 2) + (if a % 2 == 1 && b % 2 == 1 then 1 else 0)
  }

  lemma ModUnique(x: int, m: int, q: int, r: int)
    requires 0 <= r < m && x == q * m + r
    ensures x % m == r && x / m == q
  {
    var d := x / m - q;
    assert x == (x / m) * m + x % m;
    assert d * m == (x / m) * m - q * m;
    assert d * m == r - x % m;
    SmallMultiple(d, m);
  }

  lemma SmallMultiple(d: int, m: int)
    requires -m < d * m < m
    ensures d == 0
  {
  }

  /** Masking with 2^k - 1 is reduction modulo 2^k. */
  lemma {:induction false} AndMask(w: nat, k: nat)
    ensures And(w, Pow2(k) - 1) == w % Pow2(k)
    decreases k
  {
    if k == 0 {
      AndZero(w);
    } else if w > 0 {
      var p := Pow2(k - 1);
      HalfMask(p);
      AndMask(w / 2, k - 1);
      ModDouble(w, p);
    } else {
      ModUnique(0, Pow2(k), 0, 0);
    }
  }

  lemma HalfMask(p: nat)
    requires p > 0
    ensures (2 * p - 1) / 2 == p - 1 && (2 * p - 1) % 2 == 1
  {
  }

  lemma ModDouble(w: nat, p: nat)
    requires p > 0
    ensures w % (2 * p) == 2 * ((w / 2) % p) + w % 2
  {
    var h := w / 2;
    var q, r := h / p, h % p;
    assert h == q * p + r;
    assert w == 2 * h + w % 2;
    assert 2 * (q * p) == q * (2 * p);
    ModUnique(w, 2 * p, q, 2 * r + w % 2);
  }

  lemma {:induction false} AndZero(w: nat)
    ensures And(w, 0) == 0
    decreases w
  {
    if w > 0 {
      AndZero(w / 2);
    }
  }

  lemma {:induction false} Pow2Sum(a: nat, b: nat)
    ensures Pow2(a + b) == Pow2(a) * Pow2(b)
    decreases a
  {
    if a > 0 {
      Pow2Sum(a - 1, b);
    }
  }

  lemma Pow2Of32()
    ensures Pow2(32) == U32
  {
    assert Pow2(8) == 0x100;
    Pow2Sum(8, 8);
    Pow2Sum(16, 16);
  }

  /** A 32-bit index masked with a capacity reads the slot of the unwrapped index. */
  lemma MaskOfWrapped(n: nat, k: nat)
    requires k <= 32
    ensures And(n % U32, Pow2(k) - 1) == n % Pow2(k)
  {
    AndMask(n % U32, k);
    WrappedMod(n, k);
  }

  lemma WrappedMod(n: nat, k: nat)
    requires k <= 32
    ensures (n % U32) % Pow2(k) == n % Pow2(k)
  {
    Pow2Of32();
    Pow2Sum(k, 32 - k);
    ModOfMod(n, Pow2(k), Pow2(32 - k));
  }

  lemma ModOfMod(n: nat, p: nat, m: nat)
    requires p > 0 && m > 0
    ensures p * m > 0 && (n % (p * m)) % p == n % p
  {
    var u := p * m;
    var q, r := n / u, n % u;
    assert n == q * u + r;
    assert q * u == (q * m) * p;
    assert r == (r / p) * p + r % p;
    assert (q * m + r / p) * p == (q * m) * p + (r / p) * p;
    ModUnique(n, p, q * m + r / p, r % p);
  }

  /** Wrapping subtraction recovers the distance between two unwrapped indices. */
  lemma WrappedDistance(lo: nat, hi: nat)
    requires 0 <= hi - lo < U32
    ensures Sub32(hi % U32, lo % U32) == hi - lo
  {
    ModUnique(hi % U32 - lo % U32, U32, lo / U32 - hi / U32, hi - lo);
  }

  lemma WrappedSuccessor(n: nat)
    ensures Add32(n % U32, 1) == (n + 1) % U32
  {
  }
}
