/** Growing a full ring: when moving the wrapped prefix keeps the items, and what it loses otherwise. */
module RingGrowth {
  import opened Words
  import opened RingSlots

  /** The slots after growth: twice the capacity, the first `m` slots copied behind the old ones. */
  function GrownItems<T>(items: seq<T>, m: nat, blank: T): (r: seq<T>)
    requires m <= |items|
    ensures |r| == 2 * |items|
  {
    items + items[..m] + seq(|items| - m, _ => blank)
  }

  /** The other way to grow: the slots from `m` on are copied into the upper half instead. */
  function GrownOtherHalf<T>(items: seq<T>, m: nat, blank: T): (r: seq<T>)
    requires m <= |items|
    ensures |r| == 2 * |items|
  {
    items + seq(m, _ => blank) + items[m..]
  }

  /** The bit of the read index that the larger mask uncovers. */
  predicate NewBitClear(readIdx: u32, cap: nat)
    requires cap > 0
  {
    (readIdx / cap) % 2 == 0
  }

  /** Where the item number r + i lives before and after the capacity c doubles. */
  lemma SlotAfterDoubling(r: nat, i: nat, c: nat)
    requires c > 0 && i < c
    ensures var m := r % c;
            && (r + i) % c == (if m + i < c then m + i else m + i - c)
            && ((r / c) % 2 == 0 ==> (r + i) % (2 * c) == m + i)
            && ((r / c) % 2 == 1 ==> (r + i) % (2 * c) == if m + i < c then c + m + i else m + i - c)
  {
    var m, q := r % c, r / c;
    assert r == q * c + m;
    SlotOf(r, i, c, q, m);
    var h := q / 2;
    if q % 2 == 0 {
      Regroup(h, c);
      SlotOf(r, i, 2 * c, h, m);
    } else {
      Regroup(h, c);
      SlotOf(r, i, 2 * c, h, c + m);
    }
  }

  lemma Regroup(h: nat, c: nat)
    ensures (2 * h) * c == h * (2 * c) && (2 * h + 1) * c == h * (2 * c) + c
  {
  }

  lemma SlotOf(r: nat, i: nat, c: nat, q: nat, m: nat)
    requires m < c && i <= c && r == q * c + m
    ensures (r + i) % c == if m + i < c then m + i else m + i - c
  {
    if m + i < c {
      ModUnique(r + i, c, q, m + i);
    } else {
      assert (q + 1) * c == q * c + c;
      ModUnique(r + i, c, q + 1, m + i - c);
    }
  }

  /** The bit of the wrapped index is the bit of the index. */
  lemma BitOfWrapped(r: nat, k: nat)
    requires k <= 30
    ensures ((r % U32) / Pow2(k)) % 2 == (r / Pow2(k)) % 2
  {
    Pow2Of32();
    Pow2Sum(k, 32 - k);
    BitOfMod(r, Pow2(k), Pow2(31 - k), U32);
  }

  lemma Multiples(q: nat, c: nat, e: nat)
    ensures q * (c * (2 * e)) == (2 * (q * e)) * c
  {
    assert c * (2 * e) == 2 * (e * c);
    assert q * (2 * (e * c)) == 2 * (q * (e * c));
    assert q * (e * c) == (q * e) * c;
  }

  lemma Distribute(x: nat, y: nat, c: nat)
    ensures (x + y) * c == x * c + y * c
  {
  }

  lemma EvenPlus(x: nat, v: nat)
    ensures (2 * x + v) % 2 == v % 2
  {
  }

  lemma QuotientParity(r: nat, c: nat, e: nat, n: nat, q: nat, v: nat, w: nat)
    requires w < c && n == c * (2 * e) && r == q * n + (v * c + w)
    ensures (r / c) % 2 == v % 2
  {
    Multiples(q, c, e);
    Distribute(2 * (q * e), v, c);
    ModUnique(r, c, 2 * (q * e) + v, w);
    EvenPlus(q * e, v);
  }

  lemma Divide(x: nat, d: nat)
    requires d > 0
    ensures x == (x / d) * d + x % d && x % d < d
  {
  }

  lemma BitOfMod(r: nat, c: nat, e: nat, n: nat)
    requires c > 0 && n > 0 && n == c * (2 * e)
    ensures ((r % n) / c) % 2 == (r / c) % 2
  {
    Divide(r, n);
    Divide(r % n, c);
    QuotientParity(r, c, e, n, r / n, (r % n) / c, (r % n) % c);
  }

  /** With the bit clear, growth keeps every item where the larger mask looks for it. */
  lemma GrowthKeeps<T>(items: seq<T>, log: seq<T>, r: nat, blank: T)
    requires Holds(items, log, r) && |log| == r + |items|
    requires (r / |items|) % 2 == 0
    ensures Holds(GrownItems(items, r % |items|, blank), log, r)
  {
    var grown := GrownItems(items, r % |items|, blank);
    forall j | r <= j < |log|
      ensures grown[j % |grown|] == log[j]
    {
      GrowthKeepsAt(items, r, j - r, blank);
      assert items[j % |items|] == log[j];
    }
  }

  lemma GrowthKeepsAt<T>(items: seq<T>, r: nat, i: nat, blank: T)
    requires i < |items| && (r / |items|) % 2 == 0
    ensures var grown := GrownItems(items, r % |items|, blank); grown[(r + i) % |grown|] == items[(r + i) % |items|]
  {
    SlotAfterDoubling(r, i, |items|);
  }

  /** What the larger mask reads after growth with the bit set: blanks for the oldest items. */
  function Misplaced<T>(contents: seq<T>, lost: nat, blank: T): seq<T>
    requires lost <= |contents|
  {
    seq(lost, _ => blank) + contents[lost..]
  }

  /** With the bit set, growth misplaces the oldest cap - (r mod cap) items and keeps the others. */
  lemma GrowthMisplaces<T>(items: seq<T>, log: seq<T>, r: nat, blank: T)
    requires Holds(items, log, r) && |log| == r + |items|
    requires (r / |items|) % 2 == 1
    ensures r % |items| <= |items|
    ensures Holds(GrownItems(items, r % |items|, blank),
                  log[..r] + Misplaced(log[r..], |items| - r % |items|, blank), r)
  {
    var c := |items|;
    var m := r % c;
    var grown := GrownItems(items, m, blank);
    var log' := log[..r] + Misplaced(log[r..], c - m, blank);
    forall j | r <= j < |log'|
      ensures grown[j % |grown|] == log'[j]
    {
      SlotAfterDoubling(r, j - r, c);
      assert items[j % c] == log[j];
    }
  }

  /** With the bit set, copying the other half keeps every item. */
  lemma OtherHalfKeeps<T>(items: seq<T>, log: seq<T>, r: nat, blank: T)
    requires Holds(items, log, r) && |log| == r + |items|
    requires (r / |items|) % 2 == 1
    ensures Holds(GrownOtherHalf(items, r % |items|, blank), log, r)
  {
    var c := |items|;
    var grown := GrownOtherHalf(items, r % c, blank);
    forall j | r <= j < |log|
      ensures grown[j % |grown|] == log[j]
    {
      SlotAfterDoubling(r, j - r, c);
      assert items[j % c] == log[j];
    }
  }

  // ---------------------------------------------------------------- whole runs of a growing ring

  datatype Ring<T> = Ring(items: seq<T>, writeIdx: u32, readIdx: u32)

  datatype Op<T> = Push(x: T) | Pop

  /** A power-of-two capacity and indices that hold some log. */
  ghost predicate Sound<T>(g: Ring<T>, k: nat, log: seq<T>, r: nat) {
    && k <= 31 && |g.items| == Pow2(k)
    && Holds(g.items, log, r)
    && g.readIdx == r % U32
    && g.writeIdx == |log| % U32
  }

  function Contents<T>(g: Ring<T>): seq<T>
    requires |g.items| > 0
  {
    Window(g.items, g.writeIdx, g.readIdx)
  }

  predicate Full<T>(g: Ring<T>) {
    Sub32(g.writeIdx, |g.items|) == g.readIdx
  }

  function Grown<T>(g: Ring<T>, blank: T): (g': Ring<T>)
    requires |g.items| > 0
    ensures |g'.items| == 2 * |g.items|
  {
    g.(items := GrownItems(g.items, g.writeIdx % |g.items|, blank))
  }

  function Stored<T>(g: Ring<T>, x: T): (g': Ring<T>)
    requires |g.items| > 0
    ensures |g'.items| == |g.items|
  {
    g.(items := g.items[g.writeIdx % |g.items| := x], writeIdx := Add32(g.writeIdx, 1))
  }

  /** A push under the Resize strategy, or a pop, which callers guard against the empty queue. */
  function Step<T>(g: Ring<T>, op: Op<T>, blank: T): (g': Ring<T>)
    requires |g.items| > 0
    ensures |g'.items| > 0
  {
    match op
    case Push(x) => Stored(if Full(g) then Grown(g, blank) else g, x)
    case Pop => if g.writeIdx == g.readIdx then g else g.(readIdx := Add32(g.readIdx, 1))
  }

  function Fifo<T>(contents: seq<T>, op: Op<T>): seq<T> {
    match op
    case Push(x) => contents + [x]
    case Pop => if contents == [] then [] else contents[1..]
  }

  function Run<T>(g: Ring<T>, ops: seq<Op<T>>, blank: T): (g': Ring<T>)
    requires |g.items| > 0
    ensures |g'.items| > 0
    decreases |ops|
  {
    if ops == [] then g else Run(Step(g, ops[0], blank), ops[1..], blank)
  }

  function RunFifo<T>(contents: seq<T>, ops: seq<Op<T>>): seq<T>
    decreases |ops|
  {
    if ops == [] then contents else RunFifo(Fifo(contents, ops[0]), ops[1..])
  }

  /** Growth happens at this step with the bit set. */
  predicate BadGrowth<T>(g: Ring<T>, op: Op<T>)
    requires |g.items| > 0
  {
    op.Push? && Full(g) && !NewBitClear(g.readIdx, |g.items|)
  }

  /** Every growth of the run happens while the bit is clear. */
  predicate Aligned<T>(g: Ring<T>, ops: seq<Op<T>>, blank: T)
    requires |g.items| > 0
    decreases |ops|
  {
    ops == [] || (!BadGrowth(g, ops[0]) && Aligned(Step(g, ops[0], blank), ops[1..], blank))
  }

  /** After every prefix of the run the ring holds what a queue would hold. */
  ghost predicate Faithful<T>(g: Ring<T>, ops: seq<Op<T>>, blank: T)
    requires |g.items| > 0
  {
    forall k | 0 <= k <= |ops| :: Contents(Run(g, ops[..k], blank)) == RunFifo(Contents(g), ops[..k])
  }

  /** No growth of the run doubles a capacity of 2^31. */
  predicate Bounded<T>(g: Ring<T>, ops: seq<Op<T>>, blank: T)
    requires |g.items| > 0
    decreases |ops|
  {
    ops == [] || (!(ops[0].Push? && Full(g) && |g.items| >= 0x8000_0000) &&
                  Bounded(Step(g, ops[0], blank), ops[1..], blank))
  }

  lemma FullExactly<T>(g: Ring<T>, k: nat, log: seq<T>, r: nat)
    requires Sound(g, k, log, r)
    ensures Full(g) <==> |log| == r + |g.items|
    ensures Contents(g) == log[r..]
    ensures g.writeIdx == g.readIdx <==> |log| == r
    ensures g.writeIdx % |g.items| == |log| % |g.items|
  {
    FullTest(r, |log|, k);
    WindowIsTheRest(g.items, log, r, k);
    CapacityBound(k);
    WrappedEquality(|log|, r);
    WrappedMod(|log|, k);
  }

  lemma StoredSound<T>(g: Ring<T>, k: nat, log: seq<T>, r: nat, x: T)
    requires Sound(g, k, log, r) && |log| < r + |g.items|
    ensures Sound(Stored(g, x), k, log + [x], r)
  {
    FullExactly(g, k, log, r);
    StaleWriterIsSafe(g.items, log, r, r, x);
    WrappedSuccessor(|log|);
  }

  /** The items growth misplaces if the bit is set: those from the read slot to the old end. */
  function Lost<T>(g: Ring<T>): nat
    requires |g.items| > 0
  {
    |g.items| - g.readIdx % |g.items|
  }

  lemma AddModulus(r: nat, c: nat)
    requires c > 0
    ensures (r + c) % c == r % c
  {
    assert r == (r / c) * c + r % c;
    SlotOf(r, c, c, r / c, r % c);
  }

  lemma FullFacts<T>(g: Ring<T>, k: nat, log: seq<T>, r: nat)
    requires Sound(g, k, log, r) && Full(g) && k <= 30
    ensures |log| == r + |g.items|
    ensures g.readIdx % |g.items| == g.writeIdx % |g.items| == r % |g.items|
    ensures NewBitClear(g.readIdx, |g.items|) <==> (r / |g.items|) % 2 == 0
  {
    FullExactly(g, k, log, r);
    BitOfWrapped(r, k);
    WrappedMod(r, k);
    AddModulus(r, |g.items|);
  }

  /** Growth of a full ring, exactly. */
  lemma GrownSound<T>(g: Ring<T>, k: nat, log: seq<T>, r: nat, blank: T) returns (log': seq<T>)
    requires Sound(g, k, log, r) && Full(g) && k <= 30
    ensures Sound(Grown(g, blank), k + 1, log', r)
    ensures |log'| == |log| && Lost(g) <= |log| - r
    ensures log'[r..] == if NewBitClear(g.readIdx, |g.items|) then log[r..] else Misplaced(log[r..], Lost(g), blank)
    ensures NewBitClear(g.readIdx, |g.items|) ==> log' == log
  {
    FullFacts(g, k, log, r);
    if NewBitClear(g.readIdx, |g.items|) {
      log' := log;
      GrowthKeeps(g.items, log, r, blank);
    } else {
      log' := log[..r] + Misplaced(log[r..], Lost(g), blank);
      GrowthMisplaces(g.items, log, r, blank);
    }
  }

  lemma PowerAtMost(k: nat)
    requires k <= 31 && Pow2(k) < 0x8000_0000
    ensures k <= 30
  {
    if k == 31 {
      Pow2Of32();
    }
  }

  /** One good step: the ring does what a queue does. */
  lemma StepSound<T>(g: Ring<T>, k: nat, log: seq<T>, r: nat, op: Op<T>, blank: T)
    returns (k': nat, log': seq<T>, r': nat)
    requires Sound(g, k, log, r) && !BadGrowth(g, op)
    requires !(op.Push? && Full(g) && |g.items| >= 0x8000_0000)
    ensures Sound(Step(g, op, blank), k', log', r')
    ensures log'[r'..] == Fifo(log[r..], op)
  {
    FullExactly(g, k, log, r);
    k', log', r' := k, log, r;
    match op
    case Push(x) =>
      log' := log + [x];
      if Full(g) {
        PowerAtMost(k);
        k' := k + 1;
        var same := GrownSound(g, k, log, r, blank);
        StoredSound(Grown(g, blank), k', log, r, x);
      } else {
        StoredSound(g, k, log, r, x);
      }
    case Pop =>
      if |log| > r {
        r' := r + 1;
        WrappedSuccessor(r);
      }
  }

  /** A bad growth shows: the ring then holds a blank where the oldest item was. */
  lemma BadGrowthShows<T>(g: Ring<T>, k: nat, log: seq<T>, r: nat, op: Op<T>, blank: T)
    requires Sound(g, k, log, r) && BadGrowth(g, op) && |g.items| < 0x8000_0000
    requires blank !in log[r..]
    ensures Contents(Step(g, op, blank)) != Fifo(log[r..], op)
  {
    FullExactly(g, k, log, r);
    PowerAtMost(k);
    var log' := GrownSound(g, k, log, r, blank);
    StoredSound(Grown(g, blank), k + 1, log', r, op.x);
    FullExactly(Step(g, op, blank), k + 1, log' + [op.x], r);
    assert Contents(Step(g, op, blank))[0] == blank;
    assert Fifo(log[r..], op)[0] == log[r..][0];
  }

  /** Messages are never null: no push carries the blank. */
  predicate NoBlank<T(==)>(ops: seq<Op<T>>, blank: T) {
    forall i | 0 <= i < |ops| :: ops[i].Push? ==> ops[i].x != blank
  }

  /** A run of pushes and pops under Resize behaves as a queue at every point exactly when all its
      growths happen while the bit `cap` of the read index is 0. */
  lemma {:induction false} FaithfulExactlyWhenAligned<T>(g: Ring<T>, k: nat, log: seq<T>, r: nat, ops: seq<Op<T>>, blank: T)
    requires Sound(g, k, log, r) && Bounded(g, ops, blank)
    requires blank !in Contents(g) && NoBlank(ops, blank)
    ensures Faithful(g, ops, blank) <==> Aligned(g, ops, blank)
    decreases |ops|
  {
    FullExactly(g, k, log, r);
    if ops == [] {
      assert Contents(Run(g, ops[..0], blank)) == RunFifo(Contents(g), ops[..0]);
    } else if BadGrowth(g, ops[0]) {
      BadGrowthShows(g, k, log, r, ops[0], blank);
      assert Run(Step(g, ops[0], blank), [], blank) == Step(g, ops[0], blank);
      assert ops[..1][1..] == [];
      assert Contents(Run(g, ops[..1], blank)) != RunFifo(Contents(g), ops[..1]);
    } else {
      var g' := Step(g, ops[0], blank);
      var k', log', r' := StepSound(g, k, log, r, ops[0], blank);
      FullExactly(g', k', log', r');
      FaithfulExactlyWhenAligned(g', k', log', r', ops[1..], blank);
      PrefixShift(g, ops, blank);
    }
  }

  lemma PrefixShift<T>(g: Ring<T>, ops: seq<Op<T>>, blank: T)
    requires |g.items| > 0 && ops != []
    requires Contents(Step(g, ops[0], blank)) == Fifo(Contents(g), ops[0])
    ensures Faithful(g, ops, blank) <==> Faithful(Step(g, ops[0], blank), ops[1..], blank)
  {
    var g' := Step(g, ops[0], blank);
    forall k | 1 <= k <= |ops|
      ensures Run(g, ops[..k], blank) == Run(g', ops[1..][..k - 1], blank)
      ensures RunFifo(Contents(g), ops[..k]) == RunFifo(Contents(g'), ops[1..][..k - 1])
    {
      assert ops[..k][1..] == ops[1..][..k - 1];
    }
    if Faithful(g, ops, blank) {
      forall k | 0 <= k <= |ops[1..]|
        ensures Contents(Run(g', ops[1..][..k], blank)) == RunFifo(Contents(g'), ops[1..][..k])
      {
        assert Contents(Run(g, ops[..k + 1], blank)) == RunFifo(Contents(g), ops[..k + 1]);
      }
    }
    if Faithful(g', ops[1..], blank) {
      forall k | 0 <= k <= |ops|
        ensures Contents(Run(g, ops[..k], blank)) == RunFifo(Contents(g), ops[..k])
      {
        if k > 0 {
          assert Contents(Run(g', ops[1..][..k - 1], blank)) == RunFifo(Contents(g'), ops[1..][..k - 1]);
        }
      }
    }
  }

  // ---------------------------------------------------------------- such a run exists

  function FreshRing<T>(k: nat, blank: T): Ring<T> {
    Ring(seq(Pow2(k), _ => blank), 0, 0)
  }

  function Pushes<T>(m: nat, x: T): seq<Op<T>> {
    if m == 0 then [] else [Push(x)] + Pushes(m - 1, x)
  }

  /** One item at a time goes through the ring, then m more are pushed. */
  function PassThenPush<T>(j: nat, m: nat, x: T): seq<Op<T>> {
    if j == 0 then Pushes(m, x) else [Push(x), Pop] + PassThenPush(j - 1, m, x)
  }

  ghost predicate Misplaces<T>(g: Ring<T>, ops: seq<Op<T>>, blank: T)
    requires |g.items| > 0
  {
    Bounded(g, ops, blank) && NoBlank(ops, blank) && !Aligned(g, ops, blank)
  }

  lemma MisplacesFirst<T>(g: Ring<T>, op: Op<T>, ops: seq<Op<T>>, blank: T)
    requires |g.items| > 0 && !(op.Push? && Full(g)) && (op.Push? ==> op.x != blank)
    requires Misplaces(Step(g, op, blank), ops, blank)
    ensures Misplaces(g, [op] + ops, blank)
  {
    assert ([op] + ops)[0] == op && ([op] + ops)[1..] == ops;
  }

  /** Pushing one item more than there is room for grows the ring. */
  lemma {:induction false} FillsUp<T>(g: Ring<T>, k: nat, log: seq<T>, r: nat, m: nat, x: T, blank: T)
    requires Sound(g, k, log, r) && k <= 30 && |log| - r + m == |g.items| + 1 && m > 0
    requires (r / |g.items|) % 2 == 1 && x != blank
    ensures Misplaces(g, Pushes(m, x), blank)
    decreases m
  {
    FullExactly(g, k, log, r);
    if m == 1 {
      BitOfWrapped(r, k);
      CapacityBound(k + 1);
      assert BadGrowth(g, Push(x));
      assert Pushes(1, x) == [Push(x)];
    } else {
      StoredSound(g, k, log, r, x);
      FillsUp(Stored(g, x), k, log + [x], r, m - 1, x, blank);
      MisplacesFirst(g, Push(x), Pushes(m - 1, x), blank);
    }
  }

  lemma {:induction false} PassesThrough<T>(g: Ring<T>, k: nat, log: seq<T>, r: nat, j: nat, x: T, blank: T)
    requires Sound(g, k, log, r) && k <= 30 && |log| == r && r + j == |g.items| && x != blank
    ensures Misplaces(g, PassThenPush(j, |g.items| + 1, x), blank)
    decreases j
  {
    FullExactly(g, k, log, r);
    if j == 0 {
      assert r / |g.items| == 1;
      FillsUp(g, k, log, r, |g.items| + 1, x, blank);
    } else {
      StoredSound(g, k, log, r, x);
      var g1 := Stored(g, x);
      FullExactly(g1, k, log + [x], r);
      var g2 := Step(g1, Pop, blank);
      WrappedSuccessor(r);
      PassesThrough(g2, k, log + [x], r + 1, j - 1, x, blank);
      var rest := PassThenPush(j - 1, |g.items| + 1, x);
      MisplacesFirst(g1, Pop, rest, blank);
      MisplacesFirst(g, Push(x), [Pop] + rest, blank);
      assert [Push(x)] + ([Pop] + rest) == [Push(x), Pop] + rest;
    }
  }

  /** For every capacity below 2^31, a fresh ring has a run that is not faithful: as many items as the
      capacity go through one by one, then one more than the capacity is pushed. */
  lemma EveryCapacityMisplaces<T>(k: nat, x: T, blank: T)
    requires k <= 30 && x != blank
    ensures var g, ops := FreshRing(k, blank), PassThenPush(Pow2(k), Pow2(k) + 1, x);
            Misplaces(g, ops, blank) && !Faithful(g, ops, blank)
  {
    var g := FreshRing(k, blank);
    CapacityBound(k);
    assert Sound(g, k, [], 0);
    hide Pow2, PassThenPush, Aligned, Bounded;
    PassesThrough(g, k, [], 0, Pow2(k), x, blank);
    FullExactly(g, k, [], 0);
    FaithfulExactlyWhenAligned(g, k, [], 0, PassThenPush(Pow2(k), Pow2(k) + 1, x), blank);
  }
}
