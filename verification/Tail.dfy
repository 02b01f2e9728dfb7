/** Where the syncer puts its tail (sync/syncer_tail.go): estimates from times, and the search in the store. */
module Tail {
  import opened Headers
  import opened StoreDelete
  import S = Store

  const WRAP: nat := MAX_UINT64 + 1

  /** Subtraction of uint64 values. */
  function Minus(a: nat, b: nat): nat {
    (a - b) % WRAP
  }

  // ---------------------------------------------------------------- times

  /** Block time is an upper bound on the gap between blocks, and times do not fall. */
  ghost predicate Paced(time: nat -> int, blockTime: int) {
    forall n: nat :: GapOk(time, blockTime, n)
  }

  predicate GapOk(time: nat -> int, blockTime: int, n: nat) {
    time(n) <= time(n + 1) <= time(n) + blockTime
  }

  /** n block times. */
  function Span(n: nat, blockTime: int): int {
    n * blockTime
  }

  lemma SpanStep(n: nat, blockTime: int)
    ensures Span(n + 1, blockTime) == Span(n, blockTime) + blockTime
  {
  }

  lemma {:induction false} TimeBetween(time: nat -> int, blockTime: int, a: nat, b: nat)
    requires Paced(time, blockTime) && a <= b
    ensures 0 <= time(b) - time(a) <= Span(b - a, blockTime)
    decreases b - a
  {
    if a < b {
      TimeBetween(time, blockTime, a, b - 1);
      assert GapOk(time, blockTime, b - 1);
      SpanStep(b - 1 - a, blockTime);
    }
  }

  /** A whole number of block times fits into a period, and one more does not. */
  lemma DivisionFits(period: int, blockTime: int)
    requires blockTime > 0 && period >= 0
    ensures period / blockTime >= 0
    ensures Span(period / blockTime, blockTime) <= period < Span(period / blockTime, blockTime) + blockTime
  {
  }

  lemma {:induction false} SpanRises(a: nat, b: nat, blockTime: int)
    requires blockTime > 0 && a <= b
    ensures Span(a, blockTime) <= Span(b, blockTime)
    ensures a < b ==> Span(a, blockTime) + blockTime <= Span(b, blockTime)
    decreases b - a
  {
    if a < b {
      SpanRises(a, b - 1, blockTime);
      SpanStep(b - 1, blockTime);
    }
  }

  // ---------------------------------------------------------------- without a tail

  /** estimateTailHeight. */
  function EstimateTailHeight(head: nat, trustingPeriod: int, blockTime: int): nat
    requires blockTime > 0 && trustingPeriod >= 0
  {
    var headersToRetain := trustingPeriod / blockTime;
    if headersToRetain >= head then 1 else Minus(head, headersToRetain)
  }

  /**
   * The estimated tail is at most one trusting period older than the head, and never wraps around. It is
   * also the lowest such estimate: it is 1, or one block time more would exceed the period.
   */
  lemma EstimateIsTrusted(time: nat -> int, head: nat, trustingPeriod: int, blockTime: int)
    requires blockTime > 0 && trustingPeriod >= 0 && Paced(time, blockTime) && 1 <= head <= MAX_UINT64
    ensures var tail := EstimateTailHeight(head, trustingPeriod, blockTime);
            && 1 <= tail <= head && time(head) - time(tail) <= trustingPeriod
            && (tail == 1 || trustingPeriod < Span(head - tail, blockTime) + blockTime)
  {
    var retain := trustingPeriod / blockTime;
    var tail := EstimateTailHeight(head, trustingPeriod, blockTime);
    DivisionFits(trustingPeriod, blockTime);
    assert tail == if retain >= head then 1 else head - retain;
    TimeBetween(time, blockTime, tail, head);
    SpanRises(head - tail, retain, blockTime);
  }

  // ---------------------------------------------------------------- with a tail

  datatype Case = Relevant | Far | Close

  /** Whether the old tail is inside the pruning window, two windows behind the head or more, or in between. */
  function CaseOf(oldTime: int, headTime: int, window: int): (c: Case)
    ensures c.Relevant? <==> headTime - window <= oldTime
    ensures c.Far? <==> oldTime < headTime - window && oldTime <= headTime - 2 * window
  {
    var diff := headTime - window - oldTime;
    if diff <= 0 then Relevant else if diff >= window then Far else Close
  }

  /** The height findTailHeight starts its search from. */
  function Estimate(oldTail: nat, oldTime: int, head: nat, headTime: int, window: int, blockTime: int): nat
    requires blockTime > 0 && window >= 0
  {
    match CaseOf(oldTime, headTime, window)
    case Relevant => oldTail
    case Far => Minus(head, window / blockTime)
    case Close => oldTail + (headTime - window - oldTime) / blockTime
  }

  /** The far estimate does not wrap, lies above the old tail, and its header is inside the window. */
  lemma FarEstimateIsInWindow(time: nat -> int, oldTail: nat, head: nat, window: int, blockTime: int)
    requires blockTime > 0 && window >= 0 && Paced(time, blockTime) && oldTail <= head <= MAX_UINT64
    requires CaseOf(time(oldTail), time(head), window).Far?
    ensures var e := Estimate(oldTail, time(oldTail), head, time(head), window, blockTime);
            e == head - window / blockTime && oldTail < e <= head && time(head) - window <= time(e)
  {
    var kept := window / blockTime;
    DivisionFits(window, blockTime);
    TimeBetween(time, blockTime, oldTail, head);
    if head - oldTail <= kept {
      SpanRises(head - oldTail, kept, blockTime);
    }
    TimeBetween(time, blockTime, head - kept, head);
  }

  /** The close estimate does not pass the window: every header below it is out of the window. */
  lemma CloseEstimateIsBeforeWindow(time: nat -> int, oldTail: nat, head: nat, window: int, blockTime: int, n: nat)
    requires blockTime > 0 && window >= 0 && Paced(time, blockTime) && oldTail <= head <= MAX_UINT64
    requires CaseOf(time(oldTail), time(head), window).Close?
    ensures oldTail <= Estimate(oldTail, time(oldTail), head, time(head), window, blockTime)
    ensures oldTail <= n < Estimate(oldTail, time(oldTail), head, time(head), window, blockTime) ==> time(n) < time(head) - window
  {
    var diff := time(head) - window - time(oldTail);
    DivisionFits(diff, blockTime);
    if oldTail <= n < oldTail + diff / blockTime {
      TimeBetween(time, blockTime, oldTail, n);
      SpanRises(n - oldTail, diff / blockTime, blockTime);
    }
  }

  /** Headers by height in the store, whose height is `storeHeight`; None is a failed read. */
  datatype Local = Local(at: nat -> Option<int>, storeHeight: nat)

  /** findTailHeight. `at` gives header times. */
  method FindTailHeight(store: Local, oldTail: nat, oldTime: int, head: nat, headTime: int, window: int, blockTime: int)
    returns (height: Option<nat>)
    requires blockTime > 0 && window >= 0
    ensures CaseOf(oldTime, headTime, window).Relevant? ==> height == Some(oldTail)
    ensures !CaseOf(oldTime, headTime, window).Relevant? ==>
              var e := Estimate(oldTail, oldTime, head, headTime, window, blockTime);
              && (height.None? ==> exists n: nat :: n >= e && oldTail < n < store.storeHeight && store.at(n).None?)
              && (height.Some? ==> SearchedTo(store, oldTail, headTime - window, e, height.value))
  {
    var expectedTailTime := headTime - window;
    var tailTimeDiff := expectedTailTime - oldTime;
    if tailTimeDiff <= 0 {
      return Some(oldTail);
    }
    var newTailHeight: nat := Estimate(oldTail, oldTime, head, headTime, window, blockTime);
    ghost var e: nat := newTailHeight;
    while newTailHeight > oldTail && newTailHeight < store.storeHeight
      invariant e <= newTailHeight && (newTailHeight <= store.storeHeight || newTailHeight == e)
      invariant forall n: nat | e <= n < newTailHeight :: OutOfWindow(store, expectedTailTime, n)
      invariant newTailHeight > e ==> e > oldTail
      decreases store.storeHeight - newTailHeight
    {
      var newTail := store.at(newTailHeight);
      if newTail.None? {
        return None;
      }
      if expectedTailTime <= newTail.value {
        break;
      }
      newTailHeight := newTailHeight + 1;
    }
    return Some(newTailHeight);
  }

  predicate OutOfWindow(store: Local, expected: int, n: nat) {
    store.at(n).Some? && store.at(n).value < expected
  }

  /** From `e` upwards, past every stored header that is out of the window, and no further. */
  ghost predicate SearchedTo(store: Local, oldTail: nat, expected: int, e: nat, height: nat) {
    && e <= height
    && (forall n: nat | e <= n < height :: OutOfWindow(store, expected, n))
    && (oldTail < height < store.storeHeight ==> store.at(height).Some? && expected <= store.at(height).value)
    && (e <= oldTail || e >= store.storeHeight ==> height == e)
  }

  /** The store holds the headers of the chain. */
  ghost predicate Reads(store: Local, time: nat -> int) {
    forall n: nat :: store.at(n).Some? ==> store.at(n).value == time(n)
  }

  /** Close to the window, no header inside the window ends up below the new tail. */
  lemma CloseTailPrunesNothingRecent(store: Local, time: nat -> int, oldTail: nat, head: nat, window: int, blockTime: int, height: nat, n: nat)
    requires blockTime > 0 && window >= 0 && Paced(time, blockTime) && Reads(store, time) && oldTail <= head <= MAX_UINT64
    requires CaseOf(time(oldTail), time(head), window).Close?
    requires SearchedTo(store, oldTail, time(head) - window, Estimate(oldTail, time(oldTail), head, time(head), window, blockTime), height)
    ensures oldTail <= height && (oldTail <= n < height ==> time(n) < time(head) - window)
  {
    var e := Estimate(oldTail, time(oldTail), head, time(head), window, blockTime);
    CloseEstimateIsBeforeWindow(time, oldTail, head, window, blockTime, n);
    if e <= n < height {
      assert OutOfWindow(store, time(head) - window, n);
    }
  }

  /**
   * Close to the window the new tail is the first header inside it, or it lies at the height of the
   * store or above, if at least one block time is out of the window; otherwise the tail stays.
   */
  lemma CloseTailIsFirstRecent(store: Local, time: nat -> int, oldTail: nat, head: nat, window: int, blockTime: int, height: nat)
    requires blockTime > 0 && window >= 0 && Paced(time, blockTime) && Reads(store, time) && oldTail <= head <= MAX_UINT64
    requires CaseOf(time(oldTail), time(head), window).Close?
    requires SearchedTo(store, oldTail, time(head) - window, Estimate(oldTail, time(oldTail), head, time(head), window, blockTime), height)
    ensures var expected := time(head) - window;
            if expected - time(oldTail) < blockTime then height == oldTail
            else && oldTail < height && (forall n: nat | oldTail <= n < height :: time(n) < expected)
                 && (height < store.storeHeight ==> expected <= time(height))
  {
    var diff := time(head) - window - time(oldTail);
    DivisionFits(diff, blockTime);
    if diff >= blockTime {
      assert diff / blockTime >= 1;
      forall n: nat | oldTail <= n < height ensures time(n) < time(head) - window {
        CloseTailPrunesNothingRecent(store, time, oldTail, head, window, blockTime, height, n);
      }
    }
  }

  /** Far from the window the search does not move: the tail is the estimate, inside the window. */
  lemma FarTailIsTheEstimate(store: Local, time: nat -> int, oldTail: nat, head: nat, window: int, blockTime: int, height: nat)
    requires blockTime > 0 && window >= 0 && Paced(time, blockTime) && Reads(store, time) && oldTail <= head <= MAX_UINT64
    requires CaseOf(time(oldTail), time(head), window).Far?
    requires SearchedTo(store, oldTail, time(head) - window, Estimate(oldTail, time(oldTail), head, time(head), window, blockTime), height)
    ensures height == head - window / blockTime && oldTail < height && time(head) - window <= time(height)
  {
    FarEstimateIsInWindow(time, oldTail, head, window, blockTime);
    var e := Estimate(oldTail, time(oldTail), head, time(head), window, blockTime);
    assert !OutOfWindow(store, time(head) - window, e);
  }

  /** It prunes headers that are inside the window exactly when the header below the estimate is inside. */
  lemma FarTailPrunesRecentExactlyWhen(time: nat -> int, oldTail: nat, head: nat, window: int, blockTime: int)
    requires blockTime > 0 && window >= 0 && Paced(time, blockTime) && oldTail <= head <= MAX_UINT64
    requires CaseOf(time(oldTail), time(head), window).Far?
    ensures var height := head - window / blockTime;
            height > oldTail && ((exists n: nat :: oldTail <= n < height && time(head) - window <= time(n))
                                 <==> time(head) - window <= time(height - 1))
  {
    FarEstimateIsInWindow(time, oldTail, head, window, blockTime);
    var height := head - window / blockTime;
    forall n: nat | oldTail <= n < height ensures time(n) <= time(height - 1) {
      TimeBetween(time, blockTime, n, height - 1);
    }
  }

  /** It does prune recent headers when blocks come faster than the block time. */
  lemma FarTailCanPruneRecent()
    ensures var time: nat -> int := n => if n <= 10 then 0 else if n <= 20 then 10 * (n - 10) else 100 + (n - 20);
            && Paced(time, 10) && CaseOf(time(1), time(40), 50).Far?
            && Estimate(1, time(1), 40, time(40), 50, 10) == 35 && time(40) - 50 <= time(34)
  {
    var time: nat -> int := n => if n <= 10 then 0 else if n <= 20 then 10 * (n - 10) else 100 + (n - 20);
    assert forall n: nat :: GapOk(time, 10, n);
  }

  // ---------------------------------------------------------------- moving the tail

  /** SyncDown leaves it to the sync loop to fetch the headers from `to` up to the old tail. */
  datatype Move = Stays | SyncDown | Pruned(result: Result)

  /**
   * moveTail, from the store's tail. Pruning up to a header within the run that is done leaves the run
   * from exactly that header to the old head; cut short, it leaves a gap-free run from where it
   * stopped, unless a parallel deletion failed. Beyond the run it is refused, or it wipes the store
   * if it ends right above the head and no header is there.
   */
  method MoveTail(s: S.Store, from: Option<Header>, to: Header, course: Course) returns (m: Move, ghost gone: set<nat>)
    requires s.Valid() && s.ServedRun().Some? && GapFree(s.Abs())
    requires from.Some? ==> from == s.tailHeader
    requires from.Some? && Parallel(from.value.height, to.height) ==> SoundRun(s.ds.index.Keys, from.value.height, to.height, course.run)
    modifies s`cache, s`contiguousHead, s`tailHeader, s.heightIndex`cache, s.pending, s.ds
    ensures s.ValidData()
    ensures m.Stays? <==> from.None? || from.value.height == to.height
    ensures m.SyncDown? <==> from.Some? && to.height < from.value.height
    ensures !m.Pruned? ==> s.Valid() && s.Abs() == old(s.Abs())
    ensures m.Pruned? ==>
              var head, low := old(s.ServedRun()).value.head, from.value.height;
              && (m.result == Refused(BeyondHead) <==> head + 1 < to.height)
              && (m.result.Wiped? <==> to.height == head + 1 && to.height !in old(s.Present()))
              && (m.result.Refused? ==> s.Abs() == old(s.Abs()))
              && (to.height <= head && Tidy(low, to.height, !m.result.Done?) ==>
                    && s.Valid() && GapFree(s.Abs()) && s.ServedRun().value.head == head
                    && m.result == (if m.result.Done? then Done else Incomplete(s.ServedRun().value.tail))
                    && s.ServedRun().value.tail <= to.height && (m.result.Done? ==> s.ServedRun().value.tail == to.height)
                    && s.Present() == old(s.Present()) - gone && OnlyBelow(gone, low, s.ServedRun().value.tail))
  {
    gone := {};
    if from.None? {
      return Stays, gone;
    }
    if from.value.height < to.height {
      ghost var before := s.Abs();
      var result;
      ghost var d, stop;
      result, d, stop, gone := DeleteRange(s, from.value.height, to.height, course);
      if d.FromTail? {
        RawResultFacts(before.disk, from.value.height, to.height, course, stop, !result.Done?, gone);
        if Tidy(from.value.height, to.height, !result.Done?) {
          TailDeletionIsSafe(before, from.value.height, stop, gone, s.Abs());
        }
      }
      return Pruned(result), gone;
    }
    if from.value.height > to.height {
      return SyncDown, gone;
    }
    return Stays, gone;
  }
}
