/** The slots of a ring buffer against the unbounded log of everything pushed into it. */
module RingSlots {
  import opened Words

  /** The slots hold `log[popped..]`, the item number j in slot j modulo the capacity. */
  ghost predicate Holds<T>(items: seq<T>, log: seq<T>, popped: nat) {
    && 0 < |items|
    && popped <= |log| <= popped + |items|
    && forall j :: popped <= j < |log| ==> items[j % |items|] == log[j]
  }

  lemma DistinctSlots(i: nat, j: nat, c: nat)
    requires i < j < i + c
    ensures i % c != j % c
  {
    if i % c == j % c {
      assert i == (i / c) * c + i % c && j == (j / c) * c + j % c;
      assert (j / c - i / c) * c == j - i;
      SmallMultiple(j / c - i / c, c);
    }
  }

  /** A writer that saw room, even through an older value of the read index, overwrites no slot the
      reader may still read. */
  lemma StaleWriterIsSafe<T>(items: seq<T>, log: seq<T>, popped: nat, stale: nat, x: T)
    requires Holds(items, log, popped)
    requires stale <= popped && |log| < stale + |items|
    ensures Holds(items[|log| % |items| := x], log, popped)
    ensures Holds(items[|log| % |items| := x], log + [x], popped)
  {
    var n := |items|;
    forall j | popped <= j < |log|
      ensures items[|log| % n := x][j % n] == log[j]
    {
      DistinctSlots(j, |log|, n);
    }
  }

  /** The writer's test `w - cap == r` on wrapping indices. */
  lemma FullTest(popped: nat, pushed: nat, k: nat)
    requires k <= 31 && popped <= pushed <= popped + Pow2(k)
    ensures Pow2(k) < U32
    ensures Sub32(pushed % U32, Pow2(k)) == popped % U32 <==> pushed == popped + Pow2(k)
  {
    CapacityBound(k);
    WrappedDifference(popped, pushed, Pow2(k));
  }

  lemma WrappedDifference(popped: nat, pushed: nat, c: nat)
    requires 0 < 2 * c <= U32 && popped <= pushed <= popped + c
    ensures Sub32(pushed % U32, c) == popped % U32 <==> pushed == popped + c
  {
    if pushed >= c {
      assert (pushed % U32 - c) % U32 == (pushed - c) % U32 by {
        ModUnique(pushed % U32 - c, U32, (pushed - c) / U32 - pushed / U32, (pushed - c) % U32);
      }
      WrappedEquality(pushed - c, popped);
    } else {
      assert Sub32(pushed % U32, c) == pushed - c + U32;
    }
  }

  lemma CapacityBound(k: nat)
    requires k <= 31
    ensures 2 * Pow2(k) <= U32
  {
    Pow2Of32();
    assert Pow2(k + 1) == 2 * Pow2(k);
    Pow2Sum(k + 1, 31 - k);
    var a, b := Pow2(k + 1), Pow2(31 - k);
    assert a * b >= a;
  }

  /** The items between the two wrapping indices, read off the slots. */
  function Window<T>(items: seq<T>, writeIdx: u32, readIdx: u32): seq<T>
    requires |items| > 0
  {
    seq(Sub32(writeIdx, readIdx), j requires 0 <= j => items[Add32(readIdx, j) % |items|])
  }

  /** The window of a ring that holds `log[r..]` is `log[r..]`. */
  lemma WindowIsTheRest<T>(items: seq<T>, log: seq<T>, r: nat, k: nat)
    requires k <= 31 && |items| == Pow2(k) && Holds(items, log, r)
    ensures Sub32(|log| % U32, r % U32) == |log| - r
    ensures Window(items, |log| % U32, r % U32) == log[r..]
  {
    CapacityBound(k);
    WrappedDistance(r, |log|);
    forall j | 0 <= j < |log| - r
      ensures items[Add32(r % U32, j) % |items|] == log[r + j]
    {
      WrappedSlot(r, j, k);
    }
  }

  lemma WrappedSlot(r: nat, j: nat, k: nat)
    requires k <= 31
    ensures Add32(r % U32, j) % Pow2(k) == (r + j) % Pow2(k)
  {
    assert Add32(r % U32, j) == (r + j) % U32;
    WrappedMod(r + j, k);
  }

  /** Wrapped indices less than 2^32 apart are equal only when the indices are. */
  lemma WrappedEquality(a: nat, b: nat)
    requires -U32 < a - b < U32
    ensures a % U32 == b % U32 <==> a == b
  {
  }
}
