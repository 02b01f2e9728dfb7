/**
 * Which runs of the parallel deletion return nil, when each height has one fixed outcome: runs are
 * built step by step to show that the condition for it is exact.
 */
module DeleteParallelRuns {
  import opened Headers
  import opened Runs
  import opened Sums
  import opened DeleteParallel

  type Outcomes = nat -> Outcome

  /** Each job ended as the outcomes say; no job is done twice, so `done` has them all. */
  ghost predicate Agrees(s: State, outcomes: Outcomes) {
    forall h | h in s.done :: s.done[h] == outcomes(h)
  }

  predicate NoErrors(s: State) {
    forall w | 0 <= w < |s.workers| :: s.workers[w].last.err.None?
  }

  /** However the results are sorted, nil is returned exactly when no worker kept an error. */
  lemma NilMeansNoErrors(s: State, sorted: seq<Result>, r: Resume)
    requires multiset(sorted) == multiset(Results(s)) && Sorted(sorted) && Collected(sorted, r)
    ensures r.err.None? <==> NoErrors(s)
  {
    if r.err.Some? {
      var w := ReturnedByWorker(s, sorted, r);
    } else {
      forall w: nat | w < |s.workers| ensures s.workers[w].last.err.None? {
        if s.workers[w].last.err.Some? {
          LowestErrorReturned(s, sorted, r, w);
        }
      }
    }
  }

  /** The results of every finished run can be sorted and scanned. */
  lemma SomethingIsReturned(s: State) returns (sorted: seq<Result>, r: Resume)
    ensures multiset(sorted) == multiset(Results(s)) && Sorted(sorted) && Collected(sorted, r)
  {
    var key: Result -> nat := (x: Result) => x.height;
    sorted := SortedExists(Results(s), key);
    assert forall i, j | 0 <= i < j < |sorted| :: key(sorted[i]) <= key(sorted[j]);
    r := ScanExists(sorted);
  }

  lemma {:induction false} ScanExists(results: seq<Result>) returns (r: Resume)
    ensures Collected(results, r)
  {
    if results == [] {
      return Resume(1, 0, None);
    }
    var n := |results| - 1;
    var front := results[..n];
    r := ScanExists(front);
    if r.err.Some? {
      var k :| 0 <= k < n && front[k].err == r.err && front[k].height == r.height && forall i | 0 <= i < k :: front[i].err.None?;
      assert results[k].err == r.err && forall i | 0 <= i < k :: results[i].err.None?;
    } else if results[n].err.Some? {
      assert forall i | 0 <= i < n :: results[i] == front[i];
      r := Resume(results[n].height, 0, results[n].err);
    } else {
      var top := if results[n].height < r.height then r.height else results[n].height + 1;
      assert forall i | 0 <= i < n :: results[i] == front[i];
      if top == r.height && r.height != 1 {
        var i :| 0 <= i < n && front[i].height + 1 == r.height;
        assert results[i].height + 1 == top;
      }
      r := Resume(top, SumMissing(results), None);
    }
  }

  // ---------------------------------------------------------------- the exact condition

  /** Every finished run of the range with these outcomes returns nil. */
  ghost predicate AlwaysNil(p: Params, outcomes: Outcomes) {
    forall steps :: EndsNil(p, outcomes, steps)
  }

  ghost predicate EndsNil(p: Params, outcomes: Outcomes, steps: seq<Step>) {
    var end := Exec(Machine(p), Init(p), steps);
    end.Some? && Final(end.value) && Agrees(end.value, outcomes) ==> NoErrors(end.value)
  }

  predicate DeletedAt(outcomes: Outcomes, h: nat) {
    outcomes(h).Deleted?
  }

  predicate FailedOutcome(outcomes: Outcomes, h: nat) {
    outcomes(h).Failed?
  }

  /** With one worker only the outcome of the last job survives; with more, that of any job can. */
  ghost predicate NilCondition(p: Params, outcomes: Outcomes)
    requires p.from < p.to
  {
    if p.workerNum == 1
    then DeletedAt(outcomes, p.to - 1) && forall h: nat | p.from <= h < p.to :: !FailedOutcome(outcomes, h)
    else forall h: nat | p.from <= h < p.to :: DeletedAt(outcomes, h)
  }

  lemma NilExactlyWhen(p: Params, outcomes: Outcomes)
    requires p.from < p.to && p.workerNum > 0
    ensures AlwaysNil(p, outcomes) <==> NilCondition(p, outcomes)
  {
    if NilCondition(p, outcomes) {
      forall steps ensures EndsNil(p, outcomes, steps) {
        ConditionGivesNil(p, outcomes, steps);
      }
    } else {
      var steps, s := FailingRun(p, outcomes);
      assert !EndsNil(p, outcomes, steps);
    }
  }

  lemma ConditionGivesNil(p: Params, outcomes: Outcomes, steps: seq<Step>)
    requires p.from < p.to && p.workerNum > 0 && NilCondition(p, outcomes)
    ensures EndsNil(p, outcomes, steps)
  {
    var end := Exec(Machine(p), Init(p), steps);
    if end.Some? && Final(end.value) && Agrees(end.value, outcomes) {
      Reached(p, steps, end.value);
      if p.workerNum == 1 {
        OnlyWorkerHasTop(p, end.value, outcomes);
      } else {
        DeletedLeavesNoErrors(p, end.value, outcomes);
      }
    }
  }

  predicate At(p: Params, steps: seq<Step>, s: State) {
    Exec(Machine(p), Init(p), steps) == Some(s)
  }

  lemma Reached(p: Params, steps: seq<Step>, s: State)
    requires At(p, steps, s)
    ensures Bounds(p, s) && WorkersOk(p, s) && Covered(p, s) && ReportsKept(s) && Signalled(s)
  {
    ReachableInv(p, steps);
  }

  lemma DeletedLeavesNoErrors(p: Params, s: State, outcomes: Outcomes)
    requires Bounds(p, s) && WorkersOk(p, s) && Final(s) && Agrees(s, outcomes) && p.from < p.to
    requires forall h: nat | p.from <= h < p.to :: DeletedAt(outcomes, h)
    ensures NoErrors(s)
  {
    forall w | 0 <= w < |s.workers| ensures s.workers[w].last.err.None? {
      assert WorkerOk(p, s, s.workers[w]);
      if s.workers[w].last.err.Some? {
        assert DeletedAt(outcomes, s.workers[w].last.height);
      }
    }
  }

  /** Without a failure a single worker ends with the outcome of the top height, which was deleted. */
  lemma OnlyWorkerHasTop(p: Params, s: State, outcomes: Outcomes)
    requires Bounds(p, s) && WorkersOk(p, s) && Covered(p, s) && ReportsKept(s) && Signalled(s)
    requires Final(s) && Agrees(s, outcomes) && p.from < p.to && p.workerNum == 1
    requires DeletedAt(outcomes, p.to - 1) && forall h: nat | p.from <= h < p.to :: !FailedOutcome(outcomes, h)
    ensures NoErrors(s)
  {
    assert WorkerOk(p, s, s.workers[0]);
    assert forall h | h in s.done :: !FailedOutcome(outcomes, h);
    var w := ReporterOfTop(p, s);
  }

  // ---------------------------------------------------------------- building runs

  /** Worker w waits for a job, and no job is under way. */
  predicate Quiet(p: Params, s: State, w: nat) {
    |s.workers| == p.workerNum && w < p.workerNum && s.queue == [] && !s.closed && s.workers[w].phase.Waiting?
  }

  function WorkerAfter(k: Worker, h: nat, o: Outcome): Worker {
    var err := ErrorOf(o);
    Worker(if o.Failed? then Broken else Waiting, Result(k.last.missing + if err == Some(NotFound) then 1 else 0, h, err))
  }

  /** The next height is fed to worker w, who does it. */
  lemma DoJob(p: Params, steps: seq<Step>, s: State, w: nat, o: Outcome) returns (longer: seq<Step>, t: State)
    requires At(p, steps, s) && Quiet(p, s, w) && s.next < p.to
    ensures At(p, longer, t)
    ensures t == s.(next := s.next + 1, done := s.done[s.next := o],
                    workers := s.workers[w := WorkerAfter(s.workers[w], s.next, o)])
  {
    var s1 := Next(p, s, Feed).value;
    ExecSnoc(Machine(p), Init(p), steps, Feed);
    var s2 := Next(p, s1, Take(w)).value;
    ExecSnoc(Machine(p), Init(p), steps + [Feed], Take(w));
    t := Next(p, s2, Finish(w, o)).value;
    ExecSnoc(Machine(p), Init(p), steps + [Feed] + [Take(w)], Finish(w, o));
    longer := steps + [Feed] + [Take(w)] + [Finish(w, o)];
    assert t.workers == s.workers[w := WorkerAfter(s.workers[w], s.next, o)] && t.queue == s.queue;
  }

  /** What worker w has to show after the jobs up to `high`, or up to its first failure. */
  ghost predicate Worked(p: Params, s: State, outcomes: Outcomes, w: nat, high: nat, t: State) {
    && |t.workers| == |s.workers| == p.workerNum && w < p.workerNum && t.queue == [] && !t.closed
    && (forall v | 0 <= v < |s.workers| && v != w :: t.workers[v] == s.workers[v])
    && Agrees(t, outcomes) && t.next <= p.to
    && (t.workers[w].last.height < high || t.workers[w].last == s.workers[w].last)
    && (if t.workers[w].phase.Broken? then t.workers[w].last.err.Some?
        else && Quiet(p, t, w) && t.next == high && (forall h | h in s.done :: h in t.done)
             && (forall h: nat | s.next <= h < high :: h in t.done && !FailedOutcome(outcomes, h))
             && (t.workers[w].last.err == if s.next < high then ErrorOf(outcomes(high - 1)) else s.workers[w].last.err))
  }

  lemma {:induction false} WorkThrough(p: Params, outcomes: Outcomes, steps: seq<Step>, s: State, w: nat, high: nat)
    returns (longer: seq<Step>, t: State)
    requires At(p, steps, s) && Quiet(p, s, w) && Agrees(s, outcomes) && s.next <= high <= p.to
    ensures At(p, longer, t) && Worked(p, s, outcomes, w, high, t)
    ensures t.workers[w].phase.Broken? ==> exists h: nat :: s.next <= h < high && FailedOutcome(outcomes, h)
    decreases high - s.next
  {
    if s.next == high {
      return steps, s;
    }
    var o := outcomes(s.next);
    var once, u := DoJob(p, steps, s, w, o);
    if o.Failed? {
      assert FailedOutcome(outcomes, s.next);
      return once, u;
    }
    longer, t := WorkThrough(p, outcomes, once, u, w, high);
    assert s.next in u.done;
  }

  /** A run that can only be wound up: nobody works, and if heights are left some worker has failed. */
  predicate Windable(p: Params, s: State) {
    && |s.workers| == p.workerNum && s.queue == [] && s.next <= p.to
    && (forall w | 0 <= w < |s.workers| :: !s.workers[w].phase.Busy?)
    && (s.next < p.to ==> s.errClosed)
  }

  /** Winding up changes neither what is done nor what a worker last did. */
  predicate SameWork(s: State, t: State) {
    && t.done == s.done && |t.workers| == |s.workers|
    && (forall w | 0 <= w < |s.workers| :: t.workers[w].last == s.workers[w].last)
  }

  lemma {:induction false} SkipRest(p: Params, steps: seq<Step>, s: State) returns (longer: seq<Step>, t: State)
    requires At(p, steps, s) && Windable(p, s) && !s.closed
    ensures At(p, longer, t) && Windable(p, t) && SameWork(s, t) && t.closed
    decreases p.to - s.next
  {
    if s.next < p.to {
      var u := Next(p, s, Skip).value;
      ExecSnoc(Machine(p), Init(p), steps, Skip);
      longer, t := SkipRest(p, steps + [Skip], u);
    } else {
      t := Next(p, s, CloseJobs).value;
      ExecSnoc(Machine(p), Init(p), steps, CloseJobs);
      longer := steps + [CloseJobs];
    }
  }

  lemma {:induction false} StopAll(p: Params, steps: seq<Step>, s: State, k: nat) returns (longer: seq<Step>, t: State)
    requires At(p, steps, s) && Windable(p, s) && s.closed && k <= p.workerNum
    requires forall w | 0 <= w < k :: s.workers[w].phase.Stopped?
    ensures At(p, longer, t) && Final(t) && SameWork(s, t)
    decreases p.workerNum - k
  {
    if k == p.workerNum {
      return steps, s;
    }
    if s.workers[k].phase.Stopped? {
      longer, t := StopAll(p, steps, s, k + 1);
    } else {
      var u := Next(p, s, Exit(k)).value;
      ExecSnoc(Machine(p), Init(p), steps, Exit(k));
      longer, t := StopAll(p, steps + [Exit(k)], u, k + 1);
    }
  }

  /** After a worker is through, the run is wound up. */
  lemma WindUp(p: Params, outcomes: Outcomes, steps: seq<Step>, s: State, w: nat) returns (longer: seq<Step>, t: State)
    requires At(p, steps, s) && |s.workers| == p.workerNum && w < p.workerNum && s.queue == [] && !s.closed && s.next <= p.to
    requires forall v | 0 <= v < |s.workers| :: !s.workers[v].phase.Busy?
    requires s.next < p.to ==> s.workers[w].phase.Broken? && s.workers[w].last.err.Some?
    ensures At(p, longer, t) && Final(t) && SameWork(s, t)
  {
    var once, u := steps, s;
    if s.next < p.to {
      u := Next(p, s, Exit(w)).value;
      ExecSnoc(Machine(p), Init(p), steps, Exit(w));
      once := steps + [Exit(w)];
    }
    var twice, v := SkipRest(p, once, u);
    longer, t := StopAll(p, twice, v, 0);
  }

  /** If the condition fails, some finished run keeps an error. */
  lemma FailingRun(p: Params, outcomes: Outcomes) returns (steps: seq<Step>, s: State)
    requires p.from < p.to && p.workerNum > 0 && !NilCondition(p, outcomes)
    ensures At(p, steps, s) && Final(s) && Agrees(s, outcomes) && !NoErrors(s)
  {
    var split := p.to;
    if p.workerNum > 1 {
      var m :| p.from <= m < p.to && !DeletedAt(outcomes, m);
      split := m + 1;
    }
    steps, s := RunWithSplit(p, outcomes, split);
  }

  /** Worker 0 does the heights below the split, and worker 1 the others; both as far as they get. */
  lemma RunWithSplit(p: Params, outcomes: Outcomes, split: nat) returns (steps: seq<Step>, s: State)
    requires p.from < split <= p.to && p.workerNum > 0 && (split < p.to ==> p.workerNum > 1)
    ensures At(p, steps, s) && Final(s) && Agrees(s, outcomes) && |s.workers| == p.workerNum
    ensures s.workers[0].last.err.None? ==>
              ErrorOf(outcomes(split - 1)).None? && forall h: nat | p.from <= h < split :: !FailedOutcome(outcomes, h)
    ensures s.workers[0].last.height < split
    ensures (forall h: nat | p.from <= h < p.to :: !FailedOutcome(outcomes, h)) ==> forall h: nat | p.from <= h < p.to :: h in s.done
  {
    var start := Init(p);
    var first, a := WorkThrough(p, outcomes, [], start, 0, split);
    if a.workers[0].phase.Broken? || split == p.to {
      steps, s := WindUp(p, outcomes, first, a, 0);
    } else {
      var second, b := WorkThrough(p, outcomes, first, a, 1, p.to);
      steps, s := WindUp(p, outcomes, second, b, 1);
    }
  }

  // ---------------------------------------------------------------- two runs

  /**
   * Any missing height is enough for a failure: as the last job of a worker, it is what that worker
   * reports. Headers above the height returned are deleted all the same.
   */
  lemma MissingHeightCanFail(p: Params, outcomes: Outcomes, m: nat)
    returns (steps: seq<Step>, s: State, sorted: seq<Result>, r: Resume)
    requires p.from <= m < p.to && p.workerNum > 1 && outcomes(m).Missing?
    ensures At(p, steps, s) && Final(s) && Agrees(s, outcomes)
    ensures multiset(sorted) == multiset(Results(s)) && Sorted(sorted) && Collected(sorted, r) && r.err.Some? && r.height <= m
    ensures (forall h: nat | p.from <= h < p.to :: !FailedOutcome(outcomes, h)) ==>
              forall h: nat | m < h < p.to && DeletedAt(outcomes, h) :: h in s.done && s.done[h].Deleted?
  {
    steps, s := RunWithSplit(p, outcomes, m + 1);
    sorted, r := SomethingIsReturned(s);
    NilMeansNoErrors(s, sorted, r);
    LowestErrorReturned(s, sorted, r, 0);
  }

  /** The first height's handler answers "not found"; every other height is deleted. */
  function FirstNotFound(from: nat): Outcomes {
    (h: nat) => if h == from then HandlerNotFound else Deleted
  }

  /**
   * In every range of two heights or more, for any number of workers: a run that returns nil and the
   * end of the range although the first header was not deleted.
   */
  lemma HandlerNotFoundIsPassedOver(p: Params) returns (steps: seq<Step>, s: State, sorted: seq<Result>, r: Resume)
    requires p.from + 2 <= p.to && p.workerNum > 0
    ensures At(p, steps, s) && Final(s) && Agrees(s, FirstNotFound(p.from))
    ensures multiset(sorted) == multiset(Results(s)) && Sorted(sorted) && Collected(sorted, r)
    ensures r.err.None? && r.height == p.to && p.from in s.done && s.done[p.from] == HandlerNotFound
  {
    var outcomes := FirstNotFound(p.from);
    assert forall h: nat :: !FailedOutcome(outcomes, h);
    var worked, a := WorkThrough(p, outcomes, [], Init(p), 0, p.to);
    steps, s := WindUp(p, outcomes, worked, a, 0);
    sorted, r := SomethingIsReturned(s);
    NilMeansNoErrors(s, sorted, r);
    ResumeHeightIsSound(p, steps, s, sorted, r);
  }
}
