/**
 * Deletion from the header store (store/store_delete.go): which ranges are accepted, what one call
 * removes, and where it leaves the run of the store. Large ranges are deleted in parallel, by a
 * finished run of DeleteParallel.
 */
module StoreDelete {
  import opened Headers
  import opened Chains
  import opened StoreRuns
  import P = DeleteParallel
  import Runs
  import S = Store

  // ---------------------------------------------------------------- outcomes

  /** What a registered handler returned; SaysNotFound is an error wrapping the datastore's not-found error. */
  datatype HandlerResult = Fine | SaysNotFound | Fails

  /** What the attempt to delete one height meets: an expired context, or the handlers in turn. */
  datatype Attempt = Cancelled | Handlers(results: seq<HandlerResult>)

  datatype Outcome = Deleted | Missing | Failed

  /** The first result that is not Fine decides. */
  function HandlersOutcome(results: seq<HandlerResult>): Outcome {
    if results == [] then Deleted
    else if results[0].Fails? then Failed
    else if results[0].SaysNotFound? then Missing
    else HandlersOutcome(results[1..])
  }

  function OutcomeOf(indexed: bool, attempt: Attempt): Outcome {
    if attempt.Cancelled? then Failed
    else if !indexed then Missing
    else HandlersOutcome(attempt.results)
  }

  /** A header goes only after every handler returned nil for it. */
  lemma {:induction false} DeletedMeansAllFine(results: seq<HandlerResult>)
    ensures HandlersOutcome(results).Deleted? <==> forall i | 0 <= i < |results| :: results[i].Fine?
  {
    if results != [] {
      DeletedMeansAllFine(results[1..]);
      assert forall i | 0 < i < |results| :: results[i] == results[1..][i - 1];
    }
  }

  /** Some handler answered "not found", and all before it were fine. */
  ghost predicate CalledNotFound(results: seq<HandlerResult>) {
    exists i :: 0 <= i < |results| && NotFoundFirst(results, i)
  }

  predicate NotFoundFirst(results: seq<HandlerResult>, i: nat)
    requires i < |results|
  {
    results[i].SaysNotFound? && forall j | 0 <= j < i :: results[j].Fine?
  }

  lemma {:induction false} MissingMeansCalledNotFound(results: seq<HandlerResult>)
    ensures HandlersOutcome(results).Missing? <==> CalledNotFound(results)
  {
    if results != [] {
      MissingMeansCalledNotFound(results[1..]);
      if results[0].Fine? {
        if i: nat :| i < |results[1..]| && NotFoundFirst(results[1..], i) {
          assert forall j | 0 < j < i + 1 :: results[j] == results[1..][j - 1];
          assert NotFoundFirst(results, i + 1);
        }
        if i: nat :| i < |results| && NotFoundFirst(results, i) {
          assert forall j | 0 <= j < i - 1 :: results[1..][j] == results[j + 1];
          assert NotFoundFirst(results[1..], i - 1);
        }
      } else if results[0].SaysNotFound? {
        assert NotFoundFirst(results, 0);
      }
    }
  }

  /** Some handler failed otherwise, and all before it were fine. */
  ghost predicate StoppedByHandler(results: seq<HandlerResult>) {
    exists i :: 0 <= i < |results| && FailsFirst(results, i)
  }

  predicate FailsFirst(results: seq<HandlerResult>, i: nat)
    requires i < |results|
  {
    results[i].Fails? && forall j | 0 <= j < i :: results[j].Fine?
  }

  lemma {:induction false} FailedMeansStopped(results: seq<HandlerResult>)
    ensures HandlersOutcome(results).Failed? <==> StoppedByHandler(results)
  {
    if results != [] {
      FailedMeansStopped(results[1..]);
      if results[0].Fine? {
        if i: nat :| i < |results[1..]| && FailsFirst(results[1..], i) {
          assert forall j | 0 < j < i + 1 :: results[j] == results[1..][j - 1];
          assert FailsFirst(results, i + 1);
        }
        if i: nat :| i < |results| && FailsFirst(results, i) {
          assert forall j | 0 <= j < i - 1 :: results[1..][j] == results[j + 1];
          assert FailsFirst(results[1..], i - 1);
        }
      } else if results[0].Fails? {
        assert FailsFirst(results, 0);
      }
    }
  }

  /**
   * What one attempt ends with. An unindexed height is missing whatever the handlers would say; only an
   * expired context, or the error of a handler for an indexed height, fails.
   */
  lemma AttemptEnds(indexed: bool, attempt: Attempt)
    ensures OutcomeOf(indexed, attempt).Failed? <==> attempt.Cancelled? || (indexed && StoppedByHandler(attempt.results))
    ensures OutcomeOf(indexed, attempt).Missing? <==> attempt.Handlers? && (!indexed || CalledNotFound(attempt.results))
    ensures OutcomeOf(indexed, attempt).Deleted? <==>
              attempt.Handlers? && indexed && forall i | 0 <= i < |attempt.results| :: attempt.results[i].Fine?
  {
    if attempt.Handlers? {
      FailedMeansStopped(attempt.results);
      MissingMeansCalledNotFound(attempt.results);
      DeletedMeansAllFine(attempt.results);
    }
  }

  type Attempts = nat -> Attempt

  function At(indexed: set<nat>, attempts: Attempts, h: nat): Outcome {
    OutcomeOf(h in indexed, attempts(h))
  }

  /** The heights [from, stop) whose headers were deleted. */
  function Gone(indexed: set<nat>, from: nat, stop: nat, attempts: Attempts): set<nat> {
    set h | h in indexed && from <= h < stop && At(indexed, attempts, h).Deleted?
  }

  /** `stop` is the first height of [from, to) whose attempt failed, or `to`. */
  ghost predicate StopsAt(indexed: set<nat>, from: nat, to: nat, attempts: Attempts, stop: nat) {
    && from <= stop <= to
    && (forall h: nat | from <= h < stop :: !At(indexed, attempts, h).Failed?)
    && (stop < to ==> At(indexed, attempts, stop).Failed?)
  }

  /** The context has expired at h, or h is indexed and a handler fails for it with all before fine. */
  ghost predicate Blocked(indexed: set<nat>, attempts: Attempts, h: nat) {
    attempts(h).Cancelled? || (h in indexed && StoppedByHandler(attempts(h).results))
  }

  /**
   * A deletion stops at the first height that is blocked, or at the end of the range. In particular a
   * height that is not indexed never stops it while the context is live. Below the stop, exactly the
   * indexed headers go whose handlers were all fine.
   */
  lemma StopsExactlyAt(indexed: set<nat>, from: nat, to: nat, attempts: Attempts, stop: nat)
    ensures StopsAt(indexed, from, to, attempts, stop) <==>
              && from <= stop <= to
              && (forall h: nat | from <= h < stop :: !Blocked(indexed, attempts, h))
              && (stop < to ==> Blocked(indexed, attempts, stop))
    ensures forall h :: h in Gone(indexed, from, stop, attempts) <==>
              && from <= h < stop && h in indexed && attempts(h).Handlers?
              && (forall i | 0 <= i < |attempts(h).results| :: attempts(h).results[i].Fine?)
  {
    forall h: nat ensures At(indexed, attempts, h).Failed? <==> Blocked(indexed, attempts, h) {
      AttemptEnds(h in indexed, attempts(h));
    }
    forall h: nat ensures At(indexed, attempts, h).Deleted? <==>
                            && h in indexed && attempts(h).Handlers?
                            && (forall i | 0 <= i < |attempts(h).results| :: attempts(h).results[i].Fine?) {
      AttemptEnds(h in indexed, attempts(h));
    }
  }

  // ---------------------------------------------------------------- the store after a deletion

  /** The heights `gone` are deleted, and one end of the run is moved. */
  ghost predicate TailMoved(s: State, gone: set<nat>, stop: nat, t: State) {
    && s.run.Some? && t.run.Some?
    && t.present == s.present - gone && t.disk == s.disk - gone
    && t.run.value.tail == stop
    && (if stop <= s.run.value.head then t.run.value.head == s.run.value.head
        else WalkedUp(t.present, stop, t.run.value.head))
  }

  ghost predicate HeadMoved(s: State, gone: set<nat>, from: nat, stop: nat, t: State) {
    && s.run.Some? && 0 < from
    && t.present == s.present - gone && t.disk == s.disk - gone
    && t.run == if from < stop then Some(Run(s.run.value.tail, from - 1)) else s.run
  }

  ghost predicate GapFree(s: State) {
    s.run.Some? && s.run.value.tail <= s.run.value.head && Between(s.present, s.run.value.tail, s.run.value.head)
  }

  /** Only heights of [from, stop) are deleted. */
  ghost predicate OnlyBelow(gone: set<nat>, from: nat, stop: nat) {
    forall h | h in gone :: from <= h < stop
  }

  /** Every height from tail to head stays present, and nothing outside [from, stop) is touched. */
  lemma TailDeletionIsSafe(s: State, from: nat, stop: nat, gone: set<nat>, t: State)
    requires GapFree(s) && from == s.run.value.tail && from <= stop && OnlyBelow(gone, from, stop)
    requires TailMoved(s, gone, stop, t)
    requires stop <= s.run.value.head || stop in s.present
    ensures GapFree(t) && t.run.value.tail >= s.run.value.tail && t.run.value.head >= s.run.value.head
    ensures forall h | h in s.present && !(from <= h < stop) :: h in t.present
  {
  }

  /**
   * A tail deletion keeps the run maximal if and only if the height below the new tail was deleted. If
   * it was not, the next walk takes the tail back to it.
   */
  lemma TailDeletionStaysMaximalExactlyWhen(s: State, from: nat, stop: nat, gone: set<nat>, t: State, u: State)
    requires s.run.Some? && IsMaximalRun(s.present, s.run.value) && from == s.run.value.tail
    requires 1 <= from < stop <= s.run.value.head && OnlyBelow(gone, from, stop) && TailMoved(s, gone, stop, t)
    ensures IsMaximalRun(t.present, t.run.value) <==> stop - 1 in gone
    ensures ExtendStep(t, u) && stop - 1 !in gone && 1 < stop ==> u.run.value.tail < stop
  {
    assert stop - 1 in s.present;
  }

  lemma HeadDeletionIsSafe(s: State, from: nat, to: nat, stop: nat, gone: set<nat>, t: State)
    requires GapFree(s) && s.run.value.tail < from <= s.run.value.head + 1 == to && from <= stop <= to && OnlyBelow(gone, from, stop)
    requires HeadMoved(s, gone, from, stop, t)
    ensures GapFree(t) && t.run.value.tail == s.run.value.tail && t.run.value.head <= s.run.value.head
    ensures forall h | h in s.present && !(from <= h < stop) :: h in t.present
  {
  }

  /**
   * A processed height is still present exactly when it was only pending, or a handler answered "not
   * found" for it and all handlers before that one were fine. If the last processed height stays, the
   * next batch takes the tail back to it.
   */
  lemma WhatStays(s: State, from: nat, to: nat, stop: nat, attempts: Attempts, h: nat)
    requires StopsAt(s.disk, from, to, attempts, stop) && from <= h < stop && h in s.present
    ensures attempts(h).Handlers?
    ensures h in s.present - Gone(s.disk, from, stop, attempts)
            <==> h !in s.disk || CalledNotFound(attempts(h).results)
  {
    assert !At(s.disk, attempts, h).Failed?;
    MissingMeansCalledNotFound(attempts(h).results);
  }

  /** It does happen: a deletion of 1 and 2 that ends without an error, moves the tail to 3, and keeps 1. */
  lemma HandlerCanKeepHeader()
    ensures var s := State({1, 2, 3}, Some(Run(1, 3)), {1, 2, 3}, Some(Run(1, 3)));
            var t := State({1, 3}, Some(Run(3, 3)), {1, 3}, Some(Run(3, 3)));
            var attempts: Attempts := h => Handlers(if h == 1 then [SaysNotFound] else [Fine]);
            StopsAt(s.disk, 1, 3, attempts, 3) && TailMoved(s, Gone(s.disk, 1, 3, attempts), 3, t) && 1 in t.present
  {
    var attempts: Attempts := h => Handlers(if h == 1 then [SaysNotFound] else [Fine]);
    DeletedMeansAllFine([Fine]);
    assert Gone({1, 2, 3}, 1, 3, attempts) == {2};
  }

  // ---------------------------------------------------------------- retries

  /** No handler answers with the not-found error. */
  ghost predicate Plain(attempts: Attempts) {
    forall h :: !OutcomeOf(true, attempts(h)).Missing?
  }

  /** One tail deletion up to `to`, cut short or not. */
  ghost predicate TailTry(s: State, to: nat, attempts: Attempts, t: State) {
    s.run.Some? && exists stop: nat :: StopsAt(s.disk, s.run.value.tail, to, attempts, stop)
                                       && TailMoved(s, Gone(s.disk, s.run.value.tail, stop, attempts), stop, t)
  }

  ghost predicate TryAt(states: seq<State>, to: nat, tries: seq<Attempts>, i: nat)
    requires i < |tries| == |states| - 1
  {
    Plain(tries[i]) && TailTry(states[i], to, tries[i], states[i + 1])
  }

  ghost predicate Tries(states: seq<State>, to: nat, tries: seq<Attempts>) {
    && |states| == |tries| + 1
    && (forall i | 0 <= i < |tries| :: TryAt(states, to, tries, i))
  }

  predicate Within(from: nat, h: nat, to: nat) {
    from <= h < to
  }

  function Interval(from: nat, to: nat): set<nat> {
    set h: nat | from <= h < to && Within(from, h, to)
  }

  lemma {:induction false} TriesOnlyMoveTheTail(states: seq<State>, to: nat, tries: seq<Attempts>, k: nat)
    requires Tries(states, to, tries) && k <= |tries|
    requires GapFree(states[0]) && states[0].run.value.tail <= to <= states[0].run.value.head
    requires states[0].disk <= states[0].present
    requires forall h | h in states[0].present && states[0].run.value.tail <= h < to :: h in states[0].disk
    ensures states[k].run.Some? && states[0].run.value.tail <= states[k].run.value.tail <= to
    ensures states[k].run.value.head == states[0].run.value.head
    ensures states[k].present == states[0].present - Interval(states[0].run.value.tail, states[k].run.value.tail)
    ensures states[k].disk == states[0].disk - Interval(states[0].run.value.tail, states[k].run.value.tail)
  {
    var first := states[0];
    if k == 0 {
      assert Interval(first.run.value.tail, first.run.value.tail) == {};
    } else {
      TriesOnlyMoveTheTail(states, to, tries, k - 1);
      var s, t, attempts := states[k - 1], states[k], tries[k - 1];
      assert TryAt(states, to, tries, k - 1);
      TryRemovesAll(s, to, attempts, t);
    }
  }

  lemma TryRemovesAll(s: State, to: nat, attempts: Attempts, t: State)
    requires s.run.Some? && Plain(attempts) && TailTry(s, to, attempts, t) && to <= s.run.value.head
    requires forall h: nat | s.run.value.tail <= h < to :: h in s.disk
    ensures t.run.Some? && s.run.value.tail <= t.run.value.tail <= to && t.run.value.head == s.run.value.head
    ensures t.present == s.present - Interval(s.run.value.tail, t.run.value.tail)
    ensures t.disk == s.disk - Interval(s.run.value.tail, t.run.value.tail)
  {
    var from := s.run.value.tail;
    var stop: nat :| StopsAt(s.disk, from, to, attempts, stop) && TailMoved(s, Gone(s.disk, from, stop, attempts), stop, t);
    assert Gone(s.disk, from, stop, attempts) == Interval(from, stop) by {
      forall h: nat | from <= h < stop ensures h in Gone(s.disk, from, stop, attempts) {
        assert !At(s.disk, attempts, h).Failed? && h in s.disk;
      }
    }
  }

  /** Retried partial tail deletions end in the state of one uninterrupted deletion. */
  lemma RetriesEndAlike(states: seq<State>, tries: seq<Attempts>, others: seq<State>, once: Attempts, to: nat)
    requires Tries(states, to, tries) && Tries(others, to, [once]) && others[0] == states[0]
    requires GapFree(states[0]) && states[0].run.value.tail <= to <= states[0].run.value.head
    requires states[0].disk <= states[0].present
    requires forall h | h in states[0].present && states[0].run.value.tail <= h < to :: h in states[0].disk
    requires states[|tries|].run.Some? && states[|tries|].run.value.tail == to
    requires others[1].run.Some? && others[1].run.value.tail == to
    ensures states[|tries|].present == others[1].present && states[|tries|].run == others[1].run
    ensures states[|tries|].disk == others[1].disk == states[0].disk - Interval(states[0].run.value.tail, to)
  {
    TriesOnlyMoveTheTail(states, to, tries, |tries|);
    TriesOnlyMoveTheTail(others, to, [once], 1);
  }

  // ---------------------------------------------------------------- deleting headers

  /**
   * deleteSingle: it fails by an expired context or the error of a handler, finds nothing to delete at a
   * height that is not indexed or that a handler calls not found, and otherwise deletes the header.
   */
  method DeleteSingle(s: S.Store, height: nat, attempt: Attempt) returns (o: Outcome)
    requires s.ValidData()
    modifies s`cache, s.heightIndex`cache, s.pending, s.ds`headers, s.ds`index
    ensures s.ValidData() && o == OutcomeOf(height in old(s.ds.index), attempt)
    ensures o.Failed? <==> attempt.Cancelled? || (height in old(s.ds.index) && StoppedByHandler(attempt.results))
    ensures o.Missing? <==> attempt.Handlers? && (height !in old(s.ds.index) || CalledNotFound(attempt.results))
    ensures s.ds.index.Keys == old(s.ds.index.Keys) - if o.Deleted? then {height} else {}
    ensures s.pending.headers.Keys == old(s.pending.headers.Keys) - if o.Deleted? then {height} else {}
  {
    AttemptEnds(height in s.ds.index, attempt);
    if attempt.Cancelled? {
      return Failed;
    }
    var hash := s.heightIndex.HashByHeight(height, false);
    if hash.None? {
      return Missing;
    }
    o := CallHandlers(attempt.results);
    if o.Deleted? {
      Remove(s, height, hash.value);
    }
  }

  /** The end of deleteSingle: a header leaves the datastore, both caches and the pending batch. */
  method Remove(s: S.Store, height: nat, hash: Hash)
    requires s.ValidData() && height in s.ds.index && hash == s.ds.index[height]
    modifies s`cache, s.heightIndex`cache, s.pending, s.ds`headers, s.ds`index
    ensures s.ValidData()
    ensures s.ds.index.Keys == old(s.ds.index.Keys) - {height}
    ensures s.pending.headers.Keys == old(s.pending.headers.Keys) - {height}
  {
    s.pending.DeleteRange(height, height + 1, s.chain);
    RemoveFromDisk(s, height, hash);
  }

  method RemoveFromDisk(s: S.Store, height: nat, hash: Hash)
    requires s.ValidData() && height in s.ds.index && hash == s.ds.index[height]
    modifies s`cache, s.heightIndex`cache, s.ds`headers, s.ds`index
    ensures s.ValidData() && s.ds.index.Keys == old(s.ds.index.Keys) - {height}
  {
    s.PresentIsOnChain(height);
    s.ds.Delete(height, s.chain);
    s.cache := s.cache - {hash};
    s.heightIndex.Forget(height);
  }

  /** The handler loop of deleteSingle. */
  method CallHandlers(results: seq<HandlerResult>) returns (o: Outcome)
    ensures o == HandlersOutcome(results)
  {
    for i := 0 to |results|
      invariant HandlersOutcome(results) == HandlersOutcome(results[i..])
    {
      match results[i]
      case Fine =>
      case SaysNotFound => return Missing;
      case Fails => return Failed;
    }
    return Deleted;
  }

  /** deleteSequential. Its count of missing headers is only logged, and left out. */
  method DeleteSequential(s: S.Store, from: nat, to: nat, attempts: Attempts) returns (stop: nat)
    requires s.ValidData() && from <= to
    modifies s`cache, s.heightIndex`cache, s.pending, s.ds`headers, s.ds`index
    ensures s.ValidData() && StopsAt(old(s.ds.index.Keys), from, to, attempts, stop)
    ensures forall h: nat | from <= h < stop :: !Blocked(old(s.ds.index.Keys), attempts, h)
    ensures stop < to ==> Blocked(old(s.ds.index.Keys), attempts, stop)
    ensures s.ds.index.Keys == old(s.ds.index.Keys) - Gone(old(s.ds.index.Keys), from, stop, attempts)
    ensures s.pending.headers.Keys == old(s.pending.headers.Keys) - Gone(old(s.ds.index.Keys), from, stop, attempts)
  {
    ghost var indexed, pending := s.ds.index.Keys, s.pending.headers.Keys;
    stop := from;
    while stop < to
      invariant from <= stop <= to && s.ValidData()
      invariant forall h: nat | from <= h < stop :: !At(indexed, attempts, h).Failed?
      invariant s.ds.index.Keys == indexed - Gone(indexed, from, stop, attempts)
      invariant s.pending.headers.Keys == pending - Gone(indexed, from, stop, attempts)
    {
      ghost var here, waiting := s.ds.index.Keys, s.pending.headers.Keys;
      var o := DeleteSingle(s, stop, attempts(stop));
      GoneGrows(indexed, indexed, here, from, stop, attempts, o);
      GoneGrows(indexed, pending, waiting, from, stop, attempts, o);
      if o.Failed? {
        StopsExactlyAt(indexed, from, to, attempts, stop);
        return;
      }
      stop := stop + 1;
    }
    StopsExactlyAt(indexed, from, to, attempts, stop);
  }

  lemma GoneGrows(indexed: set<nat>, all: set<nat>, left: set<nat>, from: nat, stop: nat, attempts: Attempts, o: Outcome)
    requires from <= stop && left == all - Gone(indexed, from, stop, attempts)
    requires o == At(indexed, attempts, stop)
    ensures left - (if o.Deleted? then {stop} else {}) == all - Gone(indexed, from, stop + 1, attempts)
    ensures stop in all ==> stop in left
  {
  }

  // ---------------------------------------------------------------- in parallel

  /** What a finished run of the parallel deletion did at each height, and what it returned. */
  datatype ParallelRun = ParallelRun(done: map<nat, P.Outcome>, resume: P.Resume)

  /** The promise of the parallel deletion, for outcomes that fit what is indexed. */
  ghost predicate SoundRun(indexed: set<nat>, from: nat, to: nat, run: ParallelRun) {
    && from <= run.resume.height <= to
    && (forall h | h in run.done :: from <= h < to && FitsIndex(indexed, h, run.done[h]))
    && (forall h: nat | from <= h < run.resume.height :: h in run.done && !run.done[h].Failed?)
    && (if run.resume.err.None? then run.resume.height == to
        else run.resume.height in run.done && P.ErrorOf(run.done[run.resume.height]) == run.resume.err)
  }

  /** An unindexed height is missing; an indexed one is deleted or stopped by its handlers. */
  predicate FitsIndex(indexed: set<nat>, h: nat, o: P.Outcome) {
    (o.Missing? ==> h !in indexed) && (o.Deleted? || o.HandlerNotFound? ==> h in indexed)
  }

  /** Every finished run of the protocol keeps the promise. */
  lemma FinishedRunIsSound(p: P.Params, steps: seq<P.Step>, s: P.State, sorted: seq<P.Result>, r: P.Resume, indexed: set<nat>)
    requires p.from < p.to && p.workerNum > 0
    requires Runs.Exec(P.Machine(p), P.Init(p), steps) == Some(s) && P.Final(s)
    requires multiset(sorted) == multiset(P.Results(s)) && P.Sorted(sorted) && P.Collected(sorted, r)
    requires forall h | h in s.done :: FitsIndex(indexed, h, s.done[h])
    ensures SoundRun(indexed, p.from, p.to, ParallelRun(s.done, r))
  {
    P.ResumeHeightIsSound(p, steps, s, sorted, r);
    P.ReachableInv(p, steps);
  }

  function DeletedBelow(run: ParallelRun, high: nat): set<nat> {
    set h | h in run.done && h < high && run.done[h].Deleted?
  }

  /** What the workers of deleteParallel do to the store, height by height; the order makes no difference. */
  method DeleteInParallel(s: S.Store, from: nat, to: nat, run: ParallelRun)
    requires s.ValidData() && from <= to && SoundRun(s.ds.index.Keys, from, to, run)
    modifies s`cache, s.heightIndex`cache, s.pending, s.ds`headers, s.ds`index
    ensures s.ValidData()
    ensures s.ds.index.Keys == old(s.ds.index.Keys) - DeletedBelow(run, to)
    ensures s.pending.headers.Keys == old(s.pending.headers.Keys) - DeletedBelow(run, to)
  {
    ghost var indexed, pending := s.ds.index.Keys, s.pending.headers.Keys;
    assert DeletedBelow(run, from) == {};
    for h := from to to
      invariant s.ValidData()
      invariant s.ds.index.Keys == indexed - DeletedBelow(run, h)
      invariant s.pending.headers.Keys == pending - DeletedBelow(run, h)
    {
      assert DeletedBelow(run, h + 1) == DeletedBelow(run, h) + if h in run.done && run.done[h].Deleted? then {h} else {};
      if h in run.done && run.done[h].Deleted? {
        Remove(s, h, s.ds.index[h]);
      }
    }
  }

  // ---------------------------------------------------------------- deleteRangeRaw

  const PARALLEL_THRESHOLD: nat := 10000

  /** What a deletion meets: its attempts if it is sequential, its finished run if it is parallel. */
  datatype Course = Course(attempts: Attempts, run: ParallelRun)

  predicate Parallel(from: nat, to: nat) {
    to >= from + PARALLEL_THRESHOLD
  }

  /** What deleteRangeRaw returns, and which heights it deleted. */
  ghost predicate RawResult(indexed: set<nat>, from: nat, to: nat, course: Course, stop: nat, failed: bool, gone: set<nat>) {
    if Parallel(from, to)
    then stop == course.run.resume.height && failed == course.run.resume.err.Some? && gone == DeletedBelow(course.run, to)
    else StopsAt(indexed, from, to, course.attempts, stop) && failed == (stop < to) && gone == Gone(indexed, from, stop, course.attempts)
  }

  /** A failed parallel deletion may have deleted headers above the height it returns; nothing else does. */
  predicate Tidy(from: nat, to: nat, failed: bool) {
    !Parallel(from, to) || !failed
  }

  lemma RawResultFacts(indexed: set<nat>, from: nat, to: nat, course: Course, stop: nat, failed: bool, gone: set<nat>)
    requires from <= to && RawResult(indexed, from, to, course, stop, failed, gone)
    requires Parallel(from, to) ==> SoundRun(indexed, from, to, course.run)
    ensures from <= stop <= to && OnlyBelow(gone, from, to) && stop !in gone
    ensures !failed ==> stop == to
    ensures Tidy(from, to, failed) ==> OnlyBelow(gone, from, stop)
  {
  }

  method DeleteRangeRaw(s: S.Store, from: nat, to: nat, course: Course) returns (stop: nat, failed: bool, ghost gone: set<nat>)
    requires s.ValidData() && from <= to
    requires Parallel(from, to) ==> SoundRun(s.ds.index.Keys, from, to, course.run)
    modifies s`cache, s.heightIndex`cache, s.pending, s.ds`headers, s.ds`index
    ensures s.ValidData() && RawResult(old(s.ds.index.Keys), from, to, course, stop, failed, gone)
    ensures s.ds.index.Keys == old(s.ds.index.Keys) - gone
    ensures s.pending.headers.Keys == old(s.pending.headers.Keys) - gone
  {
    ghost var indexed := s.ds.index.Keys;
    if to - from < PARALLEL_THRESHOLD {
      stop := DeleteSequential(s, from, to, course.attempts);
      failed, gone := stop < to, Gone(indexed, from, stop, course.attempts);
    } else {
      DeleteInParallel(s, from, to, course.run);
      stop, failed, gone := course.run.resume.height, course.run.resume.err.Some?, DeletedBelow(course.run, to);
    }
  }

  // ---------------------------------------------------------------- moving the pointers

  /** setTail: to a present height; when it lies above the head, the head follows it and is advanced. */
  method SetTail(s: S.Store, to: nat)
    requires s.ValidData() && s.ServedRun().Some? && PointersOnChain(s) && to in s.Present()
    modifies s`cache, s`contiguousHead, s`tailHeader, s.heightIndex`cache, s.ds`tailKey, s.ds`headKey
    ensures s.ValidData() && s.ServedRun().Some? && s.tailHeader.value.height == to
    ensures to > old(s.contiguousHead.value.height) || old(s.contiguousHead.value.height in s.Present()) ==> s.Valid()
    ensures if to <= old(s.contiguousHead.value.height) then s.contiguousHead == old(s.contiguousHead)
            else WalkedUp(s.Present(), to, s.contiguousHead.value.height)
    ensures s.ds.tailKey == Some(s.codec.marshal(s.chain.at(to).hash))
    ensures s.ds.headKey == if to <= old(s.contiguousHead.value.height) then old(s.ds.headKey) else s.ds.tailKey
  {
    s.PresentIsOnChain(to);
    var newTail := HeaderAt(s, to);
    s.tailHeader := Some(newTail);
    s.ds.tailKey := Some(s.codec.marshal(newTail.hash));
    if to > s.contiguousHead.value.height {
      s.ds.headKey := Some(s.codec.marshal(newTail.hash));
      s.contiguousHead := Some(newTail);
      s.AdvanceHead();
    }
  }

  /** getByHeight finds a present header also while a pointer names a deleted one. */
  method HeaderAt(s: S.Store, height: nat) returns (h: Header)
    requires s.ValidData() && PointersOnChain(s) && height in s.Present()
    modifies s`cache, s.heightIndex`cache
    ensures s.ValidData() && h == s.chain.at(height)
  {
    var found := s.GetByHeight(height);
    h := found.value;
  }

  ghost predicate PointersOnChain(s: S.Store)
    reads s`contiguousHead, s`tailHeader
  {
    && (s.contiguousHead.Some? ==> OnChain(s.chain, s.contiguousHead.value))
    && (s.tailHeader.Some? ==> OnChain(s.chain, s.tailHeader.value))
  }

  /** setHead: down to a present height. */
  method SetHead(s: S.Store, to: nat)
    requires s.ValidData() && s.ServedRun().Some? && PointersOnChain(s) && to in s.Present()
    requires s.tailHeader.value.height in s.Present()
    modifies s`cache, s`contiguousHead, s.heightIndex`cache, s.ds`headKey
    ensures s.Valid() && s.contiguousHead.Some? && s.contiguousHead.value.height == to
    ensures s.ds.headKey == Some(s.codec.marshal(s.chain.at(to).hash))
    ensures old(TailSaved(s)) ==> AllSaved(s)
  {
    s.PresentIsOnChain(to);
    var newHead := HeaderAt(s, to);
    s.contiguousHead := Some(newHead);
    s.ds.headKey := Some(s.codec.marshal(newHead.hash));
  }

  /** wipe: both pointers and their keys go, and the caches; the headers and their index stay behind. */
  method Wipe(s: S.Store)
    requires s.ValidData()
    modifies s`cache, s`contiguousHead, s`tailHeader, s.heightIndex`cache, s.ds`tailKey, s.ds`headKey
    ensures s.ValidData() && s.contiguousHead == s.tailHeader == None
    ensures s.ds.headKey == s.ds.tailKey == None && s.cache == map[] && s.heightIndex.cache == map[]
  {
    s.cache := map[];
    s.heightIndex.Purge();
    s.contiguousHead, s.tailHeader := None, None;
    s.ds.headKey, s.ds.tailKey := None, None;
  }

  // ---------------------------------------------------------------- DeleteRange

  datatype Refusal = EmptyStore | InvalidRange | NotInStore | BeyondHead | BelowTail | WouldLeaveGap

  datatype Decision = Refuse(why: Refusal) | WipeAll | FromTail | FromHead

  /** The checks of DeleteRange, in its order. */
  method Decide(s: S.Store, from: nat, to: nat) returns (d: Decision)
    requires s.Valid() && (s.ServedRun().Some? ==> s.ServedRun().value.tail <= s.ServedRun().value.head)
    modifies s`cache, s.heightIndex`cache
    ensures s.Valid()
    ensures d == Refuse(EmptyStore) <==> s.ServedRun().None?
    ensures s.ServedRun().Some? ==> Decides(s.ServedRun().value, from, to, to in s.Present(), d)
  {
    if s.contiguousHead.None? {
      return Refuse(EmptyStore);
    }
    var head, tail := s.contiguousHead.value.height, s.tailHeader.value.height;
    if from >= to {
      return Refuse(InvalidRange);
    }
    if from > head || to <= tail {
      return Refuse(NotInStore);
    }
    var updateTail, updateHead := from == tail, to == head + 1;
    if updateTail && updateHead {
      s.ReadsAgree(to);
      var h := s.GetByHeight(to);
      if h.None? {
        return WipeAll;
      }
    }
    if updateTail {
      return if to > head + 1 then Refuse(BeyondHead) else FromTail;
    }
    if updateHead {
      return if from < tail then Refuse(BelowTail) else FromHead;
    }
    return Refuse(WouldLeaveGap);
  }

  /** Which ranges are accepted, and which end they move. */
  predicate Decides(run: Run, from: nat, to: nat, nextPresent: bool, d: Decision) {
    && d != Refuse(EmptyStore)
    && (d.FromTail? <==> from == run.tail && from < to && (to <= run.head || (to == run.head + 1 && nextPresent)))
    && (d.WipeAll? <==> from == run.tail && to == run.head + 1 && !nextPresent)
    && (d.FromHead? <==> run.tail < from < to == run.head + 1)
    && (d == Refuse(InvalidRange) <==> from >= to)
    && (d == Refuse(NotInStore) <==> from < to && (run.head < from || to <= run.tail))
    && (d == Refuse(BeyondHead) <==> from == run.tail && run.head + 1 < to)
    && (d == Refuse(BelowTail) <==> from < run.tail && to == run.head + 1)
  }

  datatype Result = Refused(why: Refusal) | Wiped | Done | Incomplete(actualTo: nat)

  /**
   * DeleteRange. A refusal changes nothing. Otherwise exactly the heights `gone` are deleted; unless a
   * parallel deletion failed, the store stays valid with one end of its run moved, and keys that
   * name the run still do.
   */
  method DeleteRange(s: S.Store, from: nat, to: nat, course: Course)
    returns (r: Result, ghost d: Decision, ghost stop: nat, ghost gone: set<nat>)
    requires s.Valid() && (s.ServedRun().Some? ==> GapFree(s.Abs()))
    requires Parallel(from, to) ==> SoundRun(s.ds.index.Keys, from, to, course.run)
    modifies s`cache, s`contiguousHead, s`tailHeader, s.heightIndex`cache, s.pending, s.ds
    ensures s.ValidData()
    ensures if old(s.ServedRun()).None? then d == Refuse(EmptyStore)
            else Decides(old(s.ServedRun()).value, from, to, to in old(s.Present()), d)
    ensures d.Refuse? <==> r.Refused?
    ensures d.Refuse? ==> r.why == d.why && s.Valid() && s.Abs() == old(s.Abs())
    ensures d.WipeAll? <==> r == Wiped
    ensures d.WipeAll? ==> s.Present() == old(s.Present()) && s.ServedRun() == s.SavedRun() == None
    ensures d.FromTail? || d.FromHead? ==>
              && r == (if r.Done? then Done else Incomplete(stop))
              && RawResult(old(s.ds.index.Keys), from, to, course, stop, !r.Done?, gone)
              && s.Present() == old(s.Present()) - gone && s.ServedRun().Some?
              && (d.FromTail? ==> s.tailHeader.value.height == stop)
              && (d.FromHead? && stop > from ==> s.contiguousHead.value.height == from - 1)
    ensures (d.FromTail? || d.FromHead?) && Tidy(from, to, !r.Done?) ==>
              && s.Valid()
              && (if d.FromTail? then TailMoved(old(s.Abs()), gone, stop, s.Abs()) else HeadMoved(old(s.Abs()), gone, from, stop, s.Abs()))
              && (d.FromHead? || to <= old(s.ServedRun()).value.head ==> old(AllSaved(s)) ==> AllSaved(s))
  {
    var decision := Decide(s, from, to);
    d := decision;
    stop, gone := from, {};
    match decision
    case Refuse(why) => r := Refused(why);
    case WipeAll =>
      Wipe(s);
      r := Wiped;
    case FromTail =>
      var actualTo, failed;
      actualTo, failed, gone := DeleteFromTail(s, from, to, course);
      stop := actualTo;
      r := if failed then Incomplete(actualTo) else Done;
    case FromHead =>
      var actualTo, failed;
      actualTo, failed, gone := DeleteFromHead(s, from, to, course);
      stop := actualTo;
      r := if failed then Incomplete(actualTo) else Done;
  }

  /** Nothing waits in the pending batch, and the keys on disk name the served run. */
  ghost predicate AllSaved(s: S.Store)
    reads s`contiguousHead, s`tailHeader, s.ds`index, s.ds`headKey, s.ds`tailKey, s.pending`headers
  {
    s.pending.headers.Keys == {} && s.ServedRun().Some? && s.SavedAs(s.ServedRun().value)
  }

  /** The same of the tail alone. */
  ghost predicate TailSaved(s: S.Store)
    reads s`tailHeader, s.ds`index, s.ds`tailKey, s.pending`headers
  {
    && s.pending.headers.Keys == {} && s.tailHeader.Some? && s.tailHeader.value.height in s.ds.index
    && s.ds.tailKey == Some(s.codec.marshal(s.chain.at(s.tailHeader.value.height).hash))
  }

  /** Then a crash loses nothing: a restart serves the same run. */
  lemma AllSavedSurvivesRestart(s: S.Store)
    requires s.LayersOk() && AllSaved(s)
    ensures s.SavedOk() && s.SavedRun() == s.ServedRun() && s.Present() == s.ds.index.Keys
  {
    s.SavedRunIs(s.ServedRun().value);
  }

  method DeleteFromTail(s: S.Store, from: nat, to: nat, course: Course) returns (stop: nat, failed: bool, ghost gone: set<nat>)
    requires s.Valid() && GapFree(s.Abs())
    requires from == s.ServedRun().value.tail && from < to
    requires to <= s.ServedRun().value.head || (to == s.ServedRun().value.head + 1 && to in s.Present())
    requires Parallel(from, to) ==> SoundRun(s.ds.index.Keys, from, to, course.run)
    modifies s`cache, s`contiguousHead, s`tailHeader, s.heightIndex`cache, s.pending, s.ds
    ensures s.ValidData() && RawResult(old(s.ds.index.Keys), from, to, course, stop, failed, gone)
    ensures s.Present() == old(s.Present()) - gone && s.ServedRun().Some? && s.tailHeader.value.height == stop
    ensures Tidy(from, to, failed) ==> s.Valid() && TailMoved(old(s.Abs()), gone, stop, s.Abs())
    ensures old(AllSaved(s)) && Tidy(from, to, failed) && stop <= old(s.ServedRun()).value.head ==> AllSaved(s)
  {
    ghost var before := s.Abs();
    assert before.run.value.head in before.present;
    stop, failed, gone := DeleteRangeRaw(s, from, to, course);
    RawResultFacts(before.disk, from, to, course, stop, failed, gone);
    assert s.Present() == before.present - gone;
    assert stop in before.present;
    SetTail(s, stop);
  }

  lemma BelowHeadStays(s: State, gone: set<nat>, from: nat, to: nat, stop: nat)
    requires GapFree(s) && s.run.value.tail < from < to == s.run.value.head + 1 && OnlyBelow(gone, from, to)
    ensures from - 1 in s.present - gone && s.run.value.tail in s.present - gone
    ensures OnlyBelow(gone, from, stop) && stop <= from ==> gone == {}
  {
    assert from - 1 in s.present && s.run.value.tail in s.present;
    if OnlyBelow(gone, from, stop) && stop <= from {
      forall n ensures n !in gone {
      }
    }
  }

  /** The head moves below a range deleted from the head, unless nothing of it was deleted. */
  method FollowWithHead(s: S.Store, from: nat, stop: nat)
    requires s.ValidData() && s.ServedRun().Some? && PointersOnChain(s) && 0 < from && from - 1 in s.Present()
    requires s.tailHeader.value.height in s.Present()
    modifies s`cache, s`contiguousHead, s.heightIndex`cache, s.ds`headKey
    ensures s.ValidData() && (from < stop || old(s.Valid()) ==> s.Valid())
    ensures s.ServedRun() == if from < stop then Some(Run(s.tailHeader.value.height, from - 1)) else old(s.ServedRun())
    ensures s.Present() == old(s.Present()) && s.ds.index == old(s.ds.index)
    ensures if from < stop then old(TailSaved(s)) ==> AllSaved(s) else old(AllSaved(s)) ==> AllSaved(s)
  {
    if stop > from {
      SetHead(s, from - 1);
    }
  }

  method DeleteFromHead(s: S.Store, from: nat, to: nat, course: Course) returns (stop: nat, failed: bool, ghost gone: set<nat>)
    requires s.Valid() && GapFree(s.Abs())
    requires s.ServedRun().value.tail < from < to == s.ServedRun().value.head + 1
    requires Parallel(from, to) ==> SoundRun(s.ds.index.Keys, from, to, course.run)
    modifies s`cache, s`contiguousHead, s.heightIndex`cache, s.pending, s.ds
    ensures s.ValidData() && RawResult(old(s.ds.index.Keys), from, to, course, stop, failed, gone)
    ensures s.Present() == old(s.Present()) - gone && s.ServedRun().Some?
    ensures stop > from ==> s.contiguousHead.value.height == from - 1
    ensures Tidy(from, to, failed) ==> s.Valid() && HeadMoved(old(s.Abs()), gone, from, stop, s.Abs())
    ensures old(AllSaved(s)) && Tidy(from, to, failed) ==> AllSaved(s)
  {
    ghost var before := s.Abs();
    stop, failed, gone := DeleteRangeRaw(s, from, to, course);
    RawResultFacts(before.disk, from, to, course, stop, failed, gone);
    assert s.Present() == before.present - gone;
    BelowHeadStays(before, gone, from, to, stop);
    assert old(AllSaved(s)) ==> TailSaved(s);
    assert Tidy(from, to, failed) && stop <= from ==> s.Valid();
    FollowWithHead(s, from, stop);
  }
}
