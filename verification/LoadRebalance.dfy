/**
 Choosing who gives an actor to whom. The executors are sorted by the number of rounds they made, the
 slowest is paired with the fastest and so on inwards, and the search stops at the first pair that is
 close enough. Doubles are reals here, and the counts do not change meanwhile.
 */
module LoadRebalance {

  /** How far apart two executors are, relative to the slower one. */
  function Ratio(slow: nat, fast: nat): real
    requires slow <= fast
  {
    (fast - slow) as real / (slow as real + 0.000001)
  }

  lemma RatioMonotone(slow: nat, fast: nat, slow': nat, fast': nat)
    requires slow <= slow' <= fast' <= fast
    ensures Ratio(slow', fast') <= Ratio(slow, fast)
  {
    var (a, b) := ((fast - slow) as real, slow as real + 0.000001);
    var (a', b') := ((fast' - slow') as real, slow' as real + 0.000001);
    assert 0.0 <= a' <= a && 0.0 < b <= b';
    QuotientMonotone(a, b, a', b');
  }

  lemma QuotientMonotone(a: real, b: real, a': real, b': real)
    requires 0.0 <= a' <= a && 0.0 < b <= b'
    ensures a' / b' <= a / b
  {
    var q := a / b;
    assert q * b == a && q >= 0.0;
    assert q * b' >= q * b;
    assert a' / b' * b' == a';
    if a' / b' > q {
      assert false;
    }
  }

  ghost predicate IsOrder(order: seq<nat>, n: nat) {
    && |order| == n
    && (forall k :: 0 <= k < n ==> order[k] < n)
    && forall j, k :: 0 <= j < k < n ==> order[j] != order[k]
  }

  predicate SortedBy(counts: seq<nat>, order: seq<nat>) {
    && (forall k :: 0 <= k < |order| ==> order[k] < |counts|)
    && forall j, k :: 0 <= j <= k < |order| ==> counts[order[j]] <= counts[order[k]]
  }

  /** The k-th pair from outside is too far apart. */
  predicate Apart(counts: seq<nat>, order: seq<nat>, limit: real, k: nat)
    requires SortedBy(counts, order) && 2 * k + 1 < |order|
  {
    Ratio(counts[order[k]], counts[order[|order| - 1 - k]]) >= limit
  }

  /** All the pairs from the k-th on inwards that are too far apart: (slow, fast). */
  function Wanted(counts: seq<nat>, order: seq<nat>, limit: real, k: nat): seq<(nat, nat)>
    requires SortedBy(counts, order)
    decreases |order| - k
  {
    if 2 * k + 1 >= |order| then []
    else (if Apart(counts, order, limit, k) then [(order[k], order[|order| - 1 - k])] else [])
         + Wanted(counts, order, limit, k + 1)
  }

  /** The ratio does not grow inwards, so behind a pair that is close enough there is nothing to do. */
  lemma {:induction false} NothingFurtherIn(counts: seq<nat>, order: seq<nat>, limit: real, j: nat, k: nat)
    requires SortedBy(counts, order) && j <= k && 2 * j + 1 < |order| && !Apart(counts, order, limit, j)
    ensures Wanted(counts, order, limit, k) == []
    decreases |order| - k
  {
    if 2 * k + 1 < |order| {
      var n := |order|;
      RatioMonotone(counts[order[j]], counts[order[n - 1 - j]], counts[order[k]], counts[order[n - 1 - k]]);
      NothingFurtherIn(counts, order, limit, j, k + 1);
    }
  }

  /** p is the m-th pair from outside, and too far apart. */
  predicate IsPair(counts: seq<nat>, order: seq<nat>, limit: real, m: nat, p: (nat, nat))
    requires SortedBy(counts, order)
  {
    2 * m + 1 < |order| && p == (order[m], order[|order| - 1 - m]) && Apart(counts, order, limit, m)
  }

  /** The requests are exactly the pairs too far apart, from outside inwards. */
  lemma {:induction false} WantedExactly(counts: seq<nat>, order: seq<nat>, limit: real, k: nat, p: (nat, nat))
    requires SortedBy(counts, order)
    ensures p in Wanted(counts, order, limit, k) <==> exists m :: k <= m && IsPair(counts, order, limit, m, p)
    decreases |order| - k
  {
    if 2 * k + 1 < |order| {
      WantedExactly(counts, order, limit, k + 1, p);
      assert p in Wanted(counts, order, limit, k) <==>
             IsPair(counts, order, limit, k, p) || p in Wanted(counts, order, limit, k + 1);
      hide Wanted, IsPair, SortedBy;
    }
  }

  /** The fast one made so many more rounds than the slow one that they are `limit` times those of the slow
      one, which count as a little more than they are. */
  predicate TooFar(slow: nat, fast: nat, limit: real) {
    (fast - slow) as real >= limit * (slow as real + 0.000001)
  }

  lemma RatioIsTooFar(slow: nat, fast: nat, limit: real)
    requires slow <= fast
    ensures Ratio(slow, fast) >= limit <==> TooFar(slow, fast, limit)
  {
    var (a, b) := ((fast - slow) as real, slow as real + 0.000001);
    var q := a / b;
    assert q * b == a && b > 0.0;
    Scale(q, limit, b);
  }

  lemma Scale(p: real, q: real, b: real)
    requires b > 0.0
    ensures p >= q <==> p * b >= q * b
  {
    assert p >= q ==> p * b >= q * b;
    assert p < q ==> p * b < q * b;
  }

  /** slow and fast stand at mirror places of the order, slow in its first half. */
  predicate MirrorPair(order: seq<nat>, m: nat, slow: nat, fast: nat) {
    2 * m + 1 < |order| && order[m] == slow && order[|order| - 1 - m] == fast
  }

  /** Who is asked to give to whom, in terms of the counts: the executors at mirror places whose counts are
      too far apart. */
  ghost predicate AsksTooFar(counts: seq<nat>, order: seq<nat>, limit: real, requests: seq<(nat, nat)>) {
    forall slow: nat, fast: nat :: (slow, fast) in requests <==>
      slow < |counts| && fast < |counts| && TooFar(counts[slow], counts[fast], limit)
      && exists m :: MirrorPair(order, m, slow, fast)
  }

  lemma WantedIsTooFar(counts: seq<nat>, order: seq<nat>, limit: real)
    requires SortedBy(counts, order)
    ensures AsksTooFar(counts, order, limit, Wanted(counts, order, limit, 0))
  {
    hide Wanted, Ratio, TooFar;
    forall slow: nat, fast: nat
      ensures (slow, fast) in Wanted(counts, order, limit, 0) <==>
              slow < |counts| && fast < |counts| && TooFar(counts[slow], counts[fast], limit)
              && exists m :: MirrorPair(order, m, slow, fast)
    {
      WantedExactly(counts, order, limit, 0, (slow, fast));
      if slow < |counts| && fast < |counts| && counts[slow] <= counts[fast] {
        RatioIsTooFar(counts[slow], counts[fast], limit);
      }
      forall m: nat ensures IsPair(counts, order, limit, m, (slow, fast)) <==>
                            MirrorPair(order, m, slow, fast) && TooFar(counts[slow], counts[fast], limit) {
      }
    }
  }

  /** No executor is asked twice, and none both gives and takes. */
  lemma EachInOnePair(counts: seq<nat>, order: seq<nat>, limit: real, i: nat, j: nat)
    requires IsOrder(order, |counts|) && SortedBy(counts, order)
    requires i < j < |Wanted(counts, order, limit, 0)|
    ensures var w := Wanted(counts, order, limit, 0);
            w[i].0 != w[i].1 && w[i].0 != w[j].0 && w[i].0 != w[j].1 && w[i].1 != w[j].0 && w[i].1 != w[j].1
  {
    var w := Wanted(counts, order, limit, 0);
    WantedInward(counts, order, limit, 0, i);
    WantedInward(counts, order, limit, 0, j);
  }

  lemma {:induction false} WantedInward(counts: seq<nat>, order: seq<nat>, limit: real, k: nat, i: nat)
    requires SortedBy(counts, order) && i < |Wanted(counts, order, limit, k)|
    ensures 2 * (k + i) + 1 < |order|
    ensures Wanted(counts, order, limit, k)[i] == (order[k + i], order[|order| - 1 - (k + i)])
    decreases |order| - k
  {
    if Apart(counts, order, limit, k) {
      if i > 0 {
        WantedInward(counts, order, limit, k + 1, i - 1);
      }
    } else {
      NothingFurtherIn(counts, order, limit, k, k + 1);
      assert false;
    }
  }

  datatype LoadInfo = LoadInfo(counts: seq<nat>, needRebalance: bool)

  class LoadBalancer {
    const numExecutors: nat
    const diffRatio: real
    const period: nat
    var loadInfos: seq<LoadInfo>
    var current: bool
    var order: seq<nat>

    ghost predicate Valid()
      reads this
    {
      && |loadInfos| == 2
      && (forall i :: 0 <= i < 2 ==> |loadInfos[i].counts| == numExecutors)
      && IsOrder(order, numExecutors)
    }

    constructor (n: nat, ratio: real, period: nat)
      ensures Valid() && numExecutors == n && diffRatio == ratio && this.period == period
      ensures forall i :: 0 <= i < 2 ==> loadInfos[i] == LoadInfo(seq(n, _ => 0), false)
    {
      numExecutors, diffRatio, this.period := n, ratio, period;
      loadInfos := [LoadInfo(seq(n, _ => 0), false), LoadInfo(seq(n, _ => 0), false)];
      current := false;
      order := seq(n, k requires 0 <= k => k);
    }

    function Index(): nat
      reads this
    {
      if current then 1 else 0
    }

    /** An executor made a round. */
    method CountRound(eid: nat)
      requires Valid() && eid < numExecutors
      modifies this`loadInfos
      ensures Valid() && loadInfos[1 - Index()] == old(loadInfos)[1 - Index()]
      ensures period == 0 ==> loadInfos == old(loadInfos)
      ensures period > 0 ==>
                var was := old(loadInfos)[Index()];
                loadInfos[Index()] == LoadInfo(was.counts[eid := was.counts[eid] + 1],
                                               was.needRebalance || was.counts[eid] + 1 == period)
    {
      if period != 0 {
        var load := loadInfos[Index()];
        var count := load.counts[eid] + 1;
        load := load.(counts := load.counts[eid := count]);
        if count == period {
          load := load.(needRebalance := true);
        }
        loadInfos := loadInfos[Index() := load];
      }
    }

    /** `sorted` is what sorting the executors by their counts gave. The loop stops at the first pair
        close enough, yet asks for exactly what looking at all the pairs would; the counts used start
        again from zero, and the executors count in the other record from now on. */
    method Rebalance(sorted: seq<nat>) returns (requests: seq<(nat, nat)>)
      requires Valid() && IsOrder(sorted, numExecutors)
      requires SortedBy(loadInfos[Index()].counts, sorted)
      modifies this
      ensures Valid() && order == sorted && current == !old(current)
      ensures requests == Wanted(old(loadInfos[Index()].counts), sorted, diffRatio, 0)
      ensures AsksTooFar(old(loadInfos[Index()].counts), sorted, diffRatio, requests)
      ensures loadInfos[1 - Index()] == LoadInfo(seq(numExecutors, _ => 0), false)
      ensures loadInfos[Index()] == old(loadInfos)[Index()]
    {
      var was := Index();
      current := !current;
      var counts := loadInfos[was].counts;
      order := sorted;
      requests := FindPairs(counts, sorted, diffRatio);
      var zeros := Zeros(counts);
      loadInfos := loadInfos[was := LoadInfo(zeros, false)];
    }

    /** The loop over the pairs. */
    static method FindPairs(counts: seq<nat>, order: seq<nat>, limit: real) returns (requests: seq<(nat, nat)>)
      requires SortedBy(counts, order)
      ensures requests == Wanted(counts, order, limit, 0) && AsksTooFar(counts, order, limit, requests)
    {
      hide AsksTooFar;
      requests := [];
      var i, j := 0, |order| - 1;
      while i < j
        invariant 0 <= i && j == |order| - 1 - i
        invariant requests + Wanted(counts, order, limit, i) == Wanted(counts, order, limit, 0)
      {
        var diff := (counts[order[j]] - counts[order[i]]) as real / (counts[order[i]] as real + 0.000001);
        if diff >= limit {
          requests := requests + [(order[i], order[j])];
        } else {
          NothingFurtherIn(counts, order, limit, i, i);
          break;
        }
        i, j := i + 1, j - 1;
      }
      assert requests + [] == requests;
      WantedIsTooFar(counts, order, limit);
    }

    /** The reset of the counts. */
    static method Zeros(counts: seq<nat>) returns (zeros: seq<nat>)
      ensures zeros == seq(|counts|, _ => 0)
    {
      zeros := counts;
      var k := 0;
      while k < |zeros|
        invariant 0 <= k <= |zeros| == |counts|
        invariant forall m :: 0 <= m < k ==> zeros[m] == 0
      {
        zeros := zeros[k := 0];
        k := k + 1;
      }
    }
  }
}
