/** The one chain a node follows, and runs of consecutive heights on it. */
module Chains {
  import opened Headers

  /** One header per height, and the height a hash belongs to; the store is only ever given such headers. */
  datatype Chain = Chain(at: nat -> Header, heightOf: Hash -> nat)

  ghost predicate Canonical(chain: Chain) {
    forall n: nat :: chain.at(n).height == n && chain.heightOf(chain.at(n).hash) == n
  }

  /** Each header names the hash of the one before it. */
  ghost predicate HashLinked(chain: Chain) {
    forall n: nat :: LinkedAt(chain, n)
  }

  predicate LinkedAt(chain: Chain, n: nat) {
    n > 0 ==> chain.at(n).lastHeader == chain.at(n - 1).hash
  }

  /** The header a hash identifies. */
  function Named(chain: Chain, hash: Hash): Header {
    chain.at(chain.heightOf(hash))
  }

  predicate OnChain(chain: Chain, h: Header) {
    h == chain.at(h.height) && h.height <= MAX_UINT64
  }

  /** The headers of the heights [low, high), in order. */
  function Slice(chain: Chain, low: nat, high: nat): (hs: seq<Header>)
    requires low <= high
    ensures |hs| == high - low && forall i: nat | i < |hs| :: hs[i] == chain.at(low + i)
    decreases high - low
  {
    if low == high then [] else [chain.at(low)] + Slice(chain, low + 1, high)
  }

  /** The heights of a batch of headers. */
  function HeightsOf(hs: seq<Header>): set<nat> {
    if hs == [] then {} else HeightsOf(hs[..|hs| - 1]) + {hs[|hs| - 1].height}
  }

  lemma HeightsOfSnoc(hs: seq<Header>, i: nat)
    requires i < |hs|
    ensures HeightsOf(hs[..i + 1]) == HeightsOf(hs[..i]) + {hs[i].height}
  {
    assert hs[..i + 1][..i] == hs[..i];
  }

  lemma {:induction false} HeightIn(hs: seq<Header>, i: nat)
    requires i < |hs|
    ensures hs[i].height in HeightsOf(hs)
  {
    if i < |hs| - 1 {
      HeightIn(hs[..|hs| - 1], i);
    }
  }

  /** The heights as a set are those of the list of heights. */
  lemma {:induction false} HeightsAre(hs: seq<Header>, heights: seq<nat>)
    requires |heights| == |hs| && forall i | 0 <= i < |hs| :: heights[i] == hs[i].height
    ensures HeightsOf(hs) == set n | n in heights
  {
    if hs != [] {
      var k := |hs| - 1;
      HeightsAre(hs[..k], heights[..k]);
      assert heights == heights[..k] + [heights[k]];
    }
  }

  ghost predicate AllOnChain(chain: Chain, hs: seq<Header>) {
    forall i | 0 <= i < |hs| :: OnChain(chain, hs[i])
  }

  lemma AppendHeader(chain: Chain, hs: seq<Header>, h: Header)
    requires AllOnChain(chain, hs) && OnChain(chain, h)
    ensures AllOnChain(chain, hs + [h]) && HeightsOf(hs + [h]) == HeightsOf(hs) + {h.height}
  {
    HeightsOfSnoc(hs + [h], |hs|);
    assert (hs + [h])[..|hs|] == hs && (hs + [h])[..|hs| + 1] == hs + [h];
  }

  lemma NoHeaders(hs: seq<Header>)
    ensures hs == [] <==> HeightsOf(hs) == {}
  {
    if hs != [] {
      HeightIn(hs, 0);
    }
  }

  datatype Run = Run(tail: nat, head: nat)

  /** All heights from a to b, taken in either order. */
  ghost predicate Between(present: set<nat>, a: nat, b: nat) {
    forall n: nat | a <= n <= b || b <= n <= a :: n in present
  }

  predicate LowEnd(present: set<nat>, tail: nat) {
    tail <= 1 || tail - 1 !in present
  }

  predicate HighEnd(present: set<nat>, head: nat) {
    head >= MAX_UINT64 || head + 1 !in present
  }

  /** [tail, head] is gap-free and cannot be made longer at either end. */
  ghost predicate IsMaximalRun(present: set<nat>, r: Run) {
    r.tail <= r.head && Between(present, r.tail, r.head) && LowEnd(present, r.tail) && HighEnd(present, r.head)
  }

  /** Two maximal runs of the same heights that meet are the same run. */
  lemma MaximalRunsCoincide(present: set<nat>, r: Run, q: Run, x: nat)
    requires IsMaximalRun(present, r) && IsMaximalRun(present, q)
    requires forall h | h in present :: 1 <= h <= MAX_UINT64
    requires r.tail <= x <= r.head && q.tail <= x <= q.head
    ensures r == q
  {
    assert r.tail in present && q.tail in present && r.head in present && q.head in present;
    assert r.tail < q.tail ==> q.tail - 1 in present;
    assert q.tail < r.tail ==> r.tail - 1 in present;
    assert r.head < q.head ==> r.head + 1 in present;
    assert q.head < r.head ==> q.head + 1 in present;
  }

  /** From `start` up to `head` while headers are present. */
  ghost predicate WalkedUp(present: set<nat>, start: nat, head: nat) {
    && start <= head && (forall n: nat | start < n <= head :: n in present) && HighEnd(present, head)
    && (start <= MAX_UINT64 ==> head <= MAX_UINT64)
  }

  /** From `start` down to `tail` while headers are present, but not below 1. */
  ghost predicate WalkedDown(present: set<nat>, start: nat, tail: nat) {
    && tail <= start && (forall n: nat | tail <= n < start :: n in present) && LowEnd(present, tail)
    && (start >= 1 ==> tail >= 1)
  }

  /** `r` is `base` with both ends walked outwards. */
  ghost predicate Walked(present: set<nat>, base: Run, r: Run) {
    WalkedDown(present, base.tail, r.tail) && WalkedUp(present, base.head, r.head)
  }

  lemma WalkKeepsMaximal(before: set<nat>, present: set<nat>, base: Run, r: Run)
    requires before <= present && IsMaximalRun(before, base) && Walked(present, base, r)
    ensures IsMaximalRun(present, r) && r.tail <= base.tail && base.head <= r.head
  {
  }

  /** Walking on, when more headers are present, is walking from where the walk began. */
  lemma WalksCompose(before: set<nat>, present: set<nat>, base: Run, q: Run, r: Run)
    requires before <= present && Walked(before, base, q) && Walked(present, q, r)
    ensures Walked(present, base, r)
  {
  }

  /**
   * Walking from the first and the last header of a batch ends in one maximal run exactly when every
   * height between those two is present.
   */
  lemma FirstWalkIsMaximal(present: set<nat>, base: Run, r: Run)
    requires Walked(present, base, r) && base.tail in present && base.head in present
    requires r.head <= MAX_UINT64 && 1 <= r.tail && base.tail <= MAX_UINT64
    ensures IsMaximalRun(present, r) <==> Between(present, base.tail, base.head)
  {
    if base.tail > base.head {
      if Between(present, base.tail, base.head) {
        assert r.head < base.tail ==> r.head + 1 in present;
        assert base.head < r.tail ==> r.tail - 1 in present;
      }
      if IsMaximalRun(present, r) {
        assert r.head < base.tail ==> r.head + 1 in present;
        assert base.head < r.tail ==> r.tail - 1 in present;
      }
    }
  }
}
