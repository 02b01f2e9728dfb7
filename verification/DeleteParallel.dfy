/**
 * Parallel deletion of the heights [from, to): one feeder, a buffered FIFO channel of jobs and a
 * fixed number of workers, as a step system. A step is one channel operation or the end of one
 * job, so every interleaving of the goroutines is a run.
 */
module DeleteParallel {
  import opened Headers
  import opened Runs

  /** How deleting one height can end. A handler's error may itself wrap "not found". */
  datatype Outcome = Deleted | Missing | HandlerNotFound | Failed(code: int)

  datatype Error = NotFound | Fatal(code: int)

  /** What a worker leaves in its slot of `results`. */
  datatype Result = Result(missing: nat, height: nat, err: Option<Error>)

  datatype Phase = Waiting | Busy(height: nat) | Broken | Stopped

  datatype Worker = Worker(phase: Phase, last: Result)

  datatype Params = Params(from: nat, to: nat, workerNum: nat)

  /** `done` and `skipped` record history; the rest is the state the goroutines share. */
  datatype State = State(
    next: nat,
    queue: seq<nat>,
    closed: bool,
    errClosed: bool,
    workers: seq<Worker>,
    done: map<nat, Outcome>,
    skipped: set<nat>)

  datatype Step = Feed | Skip | CloseJobs | Take(w: nat) | Finish(w: nat, outcome: Outcome) | Exit(w: nat)

  function ErrorOf(o: Outcome): Option<Error> {
    match o
    case Deleted => None
    case Missing => Some(NotFound)
    case HandlerNotFound => Some(NotFound)
    case Failed(code) => Some(Fatal(code))
  }

  function Init(p: Params): State {
    State(p.from, [], false, false, seq(p.workerNum, _ => Worker(Waiting, Result(0, 0, None))), map[], {})
  }

  function Next(p: Params, s: State, step: Step): Option<State> {
    match step
    case Feed =>
      if s.next < p.to && |s.queue| < p.workerNum
      then Some(s.(queue := s.queue + [s.next], next := s.next + 1)) else None
    case Skip =>
      if s.next < p.to && s.errClosed
      then Some(s.(next := s.next + 1, skipped := s.skipped + {s.next})) else None
    case CloseJobs =>
      if p.to <= s.next && !s.closed then Some(s.(closed := true)) else None
    case Take(w) =>
      if w < |s.workers| && s.workers[w].phase.Waiting? && s.queue != [] then
        var h := s.queue[0];
        var last := s.workers[w].last.(height := h);
        Some(s.(queue := s.queue[1..], workers := s.workers[w := Worker(Busy(h), last)]))
      else None
    case Finish(w, o) =>
      if w < |s.workers| && s.workers[w].phase.Busy? then
        var h := s.workers[w].phase.height;
        var err := ErrorOf(o);
        var missing := s.workers[w].last.missing + if err == Some(NotFound) then 1 else 0;
        var phase := if o.Failed? then Broken else Waiting;
        Some(s.(done := s.done[h := o], workers := s.workers[w := Worker(phase, Result(missing, h, err))]))
      else None
    case Exit(w) =>
      if w < |s.workers| && (s.workers[w].phase.Broken? || (s.workers[w].phase.Waiting? && s.closed && s.queue == [])) then
        Some(s.(workers := s.workers[w := s.workers[w].(phase := Stopped)],
                errClosed := s.errClosed || s.workers[w].last.err.Some?))
      else None
  }

  function Machine(p: Params): (State, Step) -> Option<State> {
    (s, step) => Next(p, s, step)
  }

  predicate Final(s: State) {
    s.closed && forall w | 0 <= w < |s.workers| :: s.workers[w].phase.Stopped?
  }

  // ---------------------------------------------------------------- invariant

  /** A worker that stopped, or is about to stop, on a failure at height h. */
  predicate FailedAt(k: Worker, h: nat) {
    (k.phase.Broken? || k.phase.Stopped?) && k.last.height == h && k.last.err.Some? && k.last.err.value.Fatal?
  }

  /** The worker that finished h either went on to a higher height or still reports h's own error. */
  predicate Reports(k: Worker, h: nat, o: Outcome) {
    h < k.last.height || (k.last.height == h && !k.phase.Busy? && k.last.err == ErrorOf(o))
  }

  ghost predicate SomeBusy(ws: seq<Worker>, h: nat) {
    exists w :: 0 <= w < |ws| && ws[w].phase == Busy(h)
  }

  ghost predicate SomeFailedAt(ws: seq<Worker>, h: nat) {
    exists w :: 0 <= w < |ws| && FailedAt(ws[w], h)
  }

  ghost predicate SomeReports(ws: seq<Worker>, h: nat, o: Outcome) {
    exists w :: 0 <= w < |ws| && Reports(ws[w], h, o)
  }

  ghost predicate Bounds(p: Params, s: State) {
    && p.from <= s.next
    && (s.next <= p.to || s.next == p.from)
    && |s.workers| == p.workerNum
    && (s.closed ==> p.to <= s.next)
    && (forall h | h in s.done :: p.from <= h < s.next)
  }

  /** Heights leave the channel in the order they were fed. */
  ghost predicate Fifo(p: Params, s: State) {
    && (forall i | 0 <= i < |s.queue| :: p.from <= s.queue[i] < s.next)
    && (forall i, j | 0 <= i < j < |s.queue| :: s.queue[i] < s.queue[j])
    && (forall h, i | h in s.done && 0 <= i < |s.queue| :: h < s.queue[i])
    && (forall w, i | 0 <= w < |s.workers| && s.workers[w].phase.Busy? && 0 <= i < |s.queue| ::
          s.workers[w].phase.height < s.queue[i])
  }

  predicate WorkerOk(p: Params, s: State, k: Worker) {
    && (k.phase.Busy? ==> p.from <= k.phase.height < s.next && k.last.height == k.phase.height)
    && (k.phase.Broken? ==> k.last.err.Some? && k.last.err.value.Fatal?)
    && (!k.phase.Busy? && k.last.err.Some? ==> k.last.height in s.done && ErrorOf(s.done[k.last.height]) == k.last.err)
    && (k.phase.Waiting? && k.last.err.Some? ==> k.last.err.value.NotFound?)
    && (k.phase.Stopped? && (k.last.err.None? || k.last.err.value.NotFound?) ==> s.closed && s.queue == [])
    && (k.phase.Stopped? && k.last.err.Some? ==> s.errClosed)
    && (k.last.height == 0 || k.last.height < s.next)
  }

  ghost predicate WorkersOk(p: Params, s: State) {
    forall w | 0 <= w < |s.workers| :: WorkerOk(p, s, s.workers[w])
  }

  /** No job is done twice. */
  ghost predicate Once(s: State) {
    && (forall w | 0 <= w < |s.workers| && s.workers[w].phase.Busy? :: s.workers[w].phase.height !in s.done)
    && (forall v, w | 0 <= v < w < |s.workers| && s.workers[v].phase.Busy? && s.workers[w].phase.Busy? ::
          s.workers[v].phase.height != s.workers[w].phase.height)
  }

  /** Every fed height was skipped, waits in the channel, is being deleted, or is done. */
  ghost predicate Covered(p: Params, s: State) {
    forall h | p.from <= h < s.next :: h in s.skipped || h in s.queue || h in s.done || SomeBusy(s.workers, h)
  }

  ghost predicate FailuresKept(s: State) {
    forall h | h in s.done && s.done[h].Failed? :: SomeFailedAt(s.workers, h)
  }

  ghost predicate ReportsKept(s: State) {
    forall h | h in s.done :: SomeReports(s.workers, h, s.done[h])
  }

  /** errCh is closed only by a failed worker while jobs are still being fed. */
  ghost predicate Signalled(s: State) {
    && (s.errClosed && !s.closed ==> exists h :: h in s.done && s.done[h].Failed?)
    && (forall h | h in s.skipped :: exists e :: e in s.done && s.done[e].Failed? && e < h)
  }

  ghost predicate Inv(p: Params, s: State) {
    && Bounds(p, s) && Fifo(p, s) && WorkersOk(p, s) && Once(s) && Covered(p, s)
    && FailuresKept(s) && ReportsKept(s) && Signalled(s)
  }

  lemma FeedKeepsInv(p: Params, s: State)
    requires Inv(p, s) && Next(p, s, Feed).Some?
    ensures Inv(p, Next(p, s, Feed).value)
  {
    var t := Next(p, s, Feed).value;
    forall h | p.from <= h < t.next
      ensures h in t.skipped || h in t.queue || h in t.done || SomeBusy(t.workers, h)
    {
      if h == s.next { assert t.queue[|s.queue|] == h; }
    }
    assert WorkersOk(p, t) by {
      forall w | 0 <= w < |t.workers| ensures WorkerOk(p, t, t.workers[w]) { assert WorkerOk(p, s, s.workers[w]); }
    }
  }

  lemma SkipKeepsWorkers(p: Params, s: State)
    requires WorkersOk(p, s) && Next(p, s, Skip).Some?
    ensures WorkersOk(p, Next(p, s, Skip).value)
  {
    var t := Next(p, s, Skip).value;
    forall w | 0 <= w < |t.workers| ensures WorkerOk(p, t, t.workers[w]) { assert WorkerOk(p, s, s.workers[w]); }
  }

  lemma SkipKeepsSignalled(p: Params, s: State)
    requires Bounds(p, s) && Signalled(s) && Next(p, s, Skip).Some?
    ensures Signalled(Next(p, s, Skip).value)
  {
    var t := Next(p, s, Skip).value;
    var f :| f in s.done && s.done[f].Failed?;
    forall h | h in t.skipped ensures exists e :: e in t.done && t.done[e].Failed? && e < h {
      if h == s.next {
        assert f in t.done && t.done[f].Failed? && f < h;
      } else {
        var e :| e in s.done && s.done[e].Failed? && e < h;
        assert e in t.done && t.done[e].Failed? && e < h;
      }
    }
  }

  lemma SkipKeepsCovered(p: Params, s: State)
    requires Covered(p, s) && Next(p, s, Skip).Some?
    ensures Covered(p, Next(p, s, Skip).value)
  {
  }

  lemma SkipKeepsOrder(p: Params, s: State)
    requires Bounds(p, s) && Fifo(p, s) && Once(s) && FailuresKept(s) && ReportsKept(s) && Next(p, s, Skip).Some?
    ensures var t := Next(p, s, Skip).value; Bounds(p, t) && Fifo(p, t) && Once(t) && FailuresKept(t) && ReportsKept(t)
  {
  }

  lemma SkipKeepsInv(p: Params, s: State)
    requires Inv(p, s) && Next(p, s, Skip).Some?
    ensures Inv(p, Next(p, s, Skip).value)
  {
    SkipKeepsWorkers(p, s);
    SkipKeepsSignalled(p, s);
    SkipKeepsCovered(p, s);
    SkipKeepsOrder(p, s);
  }

  lemma TakeKeepsWorkers(p: Params, s: State, w: nat)
    requires Bounds(p, s) && Fifo(p, s) && WorkersOk(p, s) && Once(s) && Next(p, s, Take(w)).Some?
    ensures var t := Next(p, s, Take(w)).value;
            Bounds(p, t) && Fifo(p, t) && WorkersOk(p, t) && Once(t)
  {
    var t := Next(p, s, Take(w)).value;
    forall v | 0 <= v < |t.workers| ensures WorkerOk(p, t, t.workers[v]) { assert WorkerOk(p, s, s.workers[v]); }
  }

  lemma TakeKeepsCovered(p: Params, s: State, w: nat)
    requires Covered(p, s) && Next(p, s, Take(w)).Some?
    ensures Covered(p, Next(p, s, Take(w)).value)
  {
    var t := Next(p, s, Take(w)).value;
    forall h | p.from <= h < t.next
      ensures h in t.skipped || h in t.queue || h in t.done || SomeBusy(t.workers, h)
    {
      if h == s.queue[0] {
        assert t.workers[w].phase == Busy(h);
      } else if SomeBusy(s.workers, h) {
        var v :| 0 <= v < |s.workers| && s.workers[v].phase == Busy(h);
        assert t.workers[v].phase == Busy(h);
      }
    }
  }

  lemma TakeKeepsReports(p: Params, s: State, w: nat)
    requires Fifo(p, s) && FailuresKept(s) && ReportsKept(s) && Next(p, s, Take(w)).Some?
    ensures FailuresKept(Next(p, s, Take(w)).value) && ReportsKept(Next(p, s, Take(w)).value)
  {
    var t := Next(p, s, Take(w)).value;
    forall h | h in t.done ensures SomeReports(t.workers, h, t.done[h]) {
      var v :| 0 <= v < |s.workers| && Reports(s.workers[v], h, s.done[h]);
      assert Reports(t.workers[v], h, t.done[h]);
    }
    forall h | h in t.done && t.done[h].Failed? ensures SomeFailedAt(t.workers, h) {
      var v :| 0 <= v < |s.workers| && FailedAt(s.workers[v], h);
      assert FailedAt(t.workers[v], h);
    }
  }

  lemma TakeKeepsInv(p: Params, s: State, w: nat)
    requires Inv(p, s) && Next(p, s, Take(w)).Some?
    ensures Inv(p, Next(p, s, Take(w)).value)
  {
    TakeKeepsWorkers(p, s, w);
    TakeKeepsCovered(p, s, w);
    TakeKeepsReports(p, s, w);
  }

  lemma FinishKeepsWorkers(p: Params, s: State, w: nat, o: Outcome)
    requires Bounds(p, s) && Fifo(p, s) && WorkersOk(p, s) && Once(s) && Next(p, s, Finish(w, o)).Some?
    ensures var t := Next(p, s, Finish(w, o)).value;
            Bounds(p, t) && Fifo(p, t) && WorkersOk(p, t) && Once(t)
  {
    var t := Next(p, s, Finish(w, o)).value;
    assert WorkerOk(p, s, s.workers[w]);
    forall v | 0 <= v < |t.workers| ensures WorkerOk(p, t, t.workers[v]) {
      assert WorkerOk(p, s, s.workers[v]);
    }
  }

  lemma FinishKeepsCovered(p: Params, s: State, w: nat, o: Outcome)
    requires Covered(p, s) && Next(p, s, Finish(w, o)).Some?
    ensures Covered(p, Next(p, s, Finish(w, o)).value)
  {
    var t := Next(p, s, Finish(w, o)).value;
    forall h | p.from <= h < t.next
      ensures h in t.skipped || h in t.queue || h in t.done || SomeBusy(t.workers, h)
    {
      if SomeBusy(s.workers, h) && h !in t.done {
        var v :| 0 <= v < |s.workers| && s.workers[v].phase == Busy(h);
        assert t.workers[v].phase == Busy(h);
      }
    }
  }

  lemma FinishKeepsReports(p: Params, s: State, w: nat, o: Outcome)
    requires WorkersOk(p, s) && ReportsKept(s) && Next(p, s, Finish(w, o)).Some?
    ensures ReportsKept(Next(p, s, Finish(w, o)).value)
  {
    var t := Next(p, s, Finish(w, o)).value;
    var h0 := s.workers[w].phase.height;
    assert WorkerOk(p, s, s.workers[w]);
    assert Reports(t.workers[w], h0, o);
    forall h | h in t.done ensures SomeReports(t.workers, h, t.done[h]) {
      if h != h0 {
        var v :| 0 <= v < |s.workers| && Reports(s.workers[v], h, s.done[h]);
        assert Reports(t.workers[v], h, t.done[h]);
      }
    }
  }

  lemma FinishKeepsFailures(p: Params, s: State, w: nat, o: Outcome)
    requires Once(s) && FailuresKept(s) && Next(p, s, Finish(w, o)).Some?
    ensures FailuresKept(Next(p, s, Finish(w, o)).value)
  {
    var t := Next(p, s, Finish(w, o)).value;
    var h0 := s.workers[w].phase.height;
    forall h | h in t.done && t.done[h].Failed? ensures SomeFailedAt(t.workers, h) {
      if h == h0 {
        assert FailedAt(t.workers[w], h);
      } else {
        var v :| 0 <= v < |s.workers| && FailedAt(s.workers[v], h);
        assert FailedAt(t.workers[v], h);
      }
    }
  }

  lemma FinishKeepsSignalled(p: Params, s: State, w: nat, o: Outcome)
    requires Once(s) && Signalled(s) && Next(p, s, Finish(w, o)).Some?
    ensures Signalled(Next(p, s, Finish(w, o)).value)
  {
    var t := Next(p, s, Finish(w, o)).value;
    forall h | h in t.skipped ensures exists e :: e in t.done && t.done[e].Failed? && e < h {
      var e :| e in s.done && s.done[e].Failed? && e < h;
      assert t.done[e].Failed?;
    }
    if t.errClosed && !t.closed {
      var e :| e in s.done && s.done[e].Failed?;
      assert t.done[e].Failed?;
    }
  }

  lemma FinishKeepsInv(p: Params, s: State, w: nat, o: Outcome)
    requires Inv(p, s) && Next(p, s, Finish(w, o)).Some?
    ensures Inv(p, Next(p, s, Finish(w, o)).value)
  {
    FinishKeepsWorkers(p, s, w, o);
    FinishKeepsCovered(p, s, w, o);
    FinishKeepsReports(p, s, w, o);
    FinishKeepsFailures(p, s, w, o);
    FinishKeepsSignalled(p, s, w, o);
  }

  lemma ExitKeepsCovered(p: Params, s: State, w: nat)
    requires Covered(p, s) && FailuresKept(s) && ReportsKept(s) && Next(p, s, Exit(w)).Some?
    ensures var t := Next(p, s, Exit(w)).value; Covered(p, t) && FailuresKept(t) && ReportsKept(t)
  {
    var t := Next(p, s, Exit(w)).value;
    forall h | SomeBusy(s.workers, h) ensures SomeBusy(t.workers, h) {
      var v :| 0 <= v < |s.workers| && s.workers[v].phase == Busy(h);
      assert t.workers[v].phase == Busy(h);
    }
    forall h | h in t.done ensures SomeReports(t.workers, h, t.done[h]) {
      var v :| 0 <= v < |s.workers| && Reports(s.workers[v], h, s.done[h]);
      assert Reports(t.workers[v], h, t.done[h]);
    }
    forall h | h in t.done && t.done[h].Failed? ensures SomeFailedAt(t.workers, h) {
      var v :| 0 <= v < |s.workers| && FailedAt(s.workers[v], h);
      assert FailedAt(t.workers[v], h);
    }
  }

  lemma ExitKeepsWorkers(p: Params, s: State, w: nat)
    requires Bounds(p, s) && Fifo(p, s) && WorkersOk(p, s) && Once(s) && Next(p, s, Exit(w)).Some?
    ensures var t := Next(p, s, Exit(w)).value; Bounds(p, t) && Fifo(p, t) && WorkersOk(p, t) && Once(t)
  {
    var t := Next(p, s, Exit(w)).value;
    assert WorkerOk(p, s, s.workers[w]);
    forall v | 0 <= v < |t.workers| ensures WorkerOk(p, t, t.workers[v]) {
      assert WorkerOk(p, s, s.workers[v]);
    }
  }

  lemma ExitKeepsSignalled(p: Params, s: State, w: nat)
    requires WorkersOk(p, s) && Signalled(s) && Next(p, s, Exit(w)).Some?
    ensures Signalled(Next(p, s, Exit(w)).value)
  {
    assert WorkerOk(p, s, s.workers[w]);
    var t := Next(p, s, Exit(w)).value;
    if t.errClosed && !t.closed && !s.errClosed {
      var e := s.workers[w].last.height;
      assert e in t.done && t.done[e].Failed?;
    }
  }

  lemma ExitKeepsInv(p: Params, s: State, w: nat)
    requires Inv(p, s) && Next(p, s, Exit(w)).Some?
    ensures Inv(p, Next(p, s, Exit(w)).value)
  {
    ExitKeepsWorkers(p, s, w);
    ExitKeepsCovered(p, s, w);
    ExitKeepsSignalled(p, s, w);
  }

  lemma StepKeepsInv(p: Params, s: State, step: Step)
    requires Inv(p, s) && Next(p, s, step).Some?
    ensures Inv(p, Next(p, s, step).value)
  {
    match step
    case Feed => FeedKeepsInv(p, s);
    case Skip => SkipKeepsInv(p, s);
    case CloseJobs =>
      forall w | 0 <= w < |s.workers| ensures WorkerOk(p, s.(closed := true), s.workers[w]) {
        assert WorkerOk(p, s, s.workers[w]);
      }
    case Take(w) => TakeKeepsInv(p, s, w);
    case Finish(w, o) => FinishKeepsInv(p, s, w, o);
    case Exit(w) => ExitKeepsInv(p, s, w);
  }

  lemma ReachableInv(p: Params, steps: seq<Step>)
    ensures var end := Exec(Machine(p), Init(p), steps); end.Some? ==> Inv(p, end.value)
  {
    forall s, a | Inv(p, s) && Machine(p)(s, a).Some? ensures Inv(p, Machine(p)(s, a).value) {
      StepKeepsInv(p, s, a);
    }
    InvariantHolds(Machine(p), s => Inv(p, s), Init(p), steps);
  }

  // ---------------------------------------------------------------- the resume height

  /** What scanning the sorted results returns. */
  datatype Resume = Resume(height: nat, missing: nat, err: Option<Error>)

  predicate Sorted(rs: seq<Result>) {
    forall i, j | 0 <= i < j < |rs| :: rs[i].height <= rs[j].height
  }

  /** The slots of `results` after all workers are gone. */
  function Results(s: State): (rs: seq<Result>)
    ensures |rs| == |s.workers|
    ensures forall i | 0 <= i < |rs| :: rs[i] == s.workers[i].last
  {
    seq(|s.workers|, i requires 0 <= i < |s.workers| => s.workers[i].last)
  }

  function SumMissing(rs: seq<Result>): nat {
    if rs == [] then 0 else SumMissing(rs[..|rs| - 1]) + rs[|rs| - 1].missing
  }

  /** The first error wins; without one the height after the highest processed one is returned. */
  ghost predicate Collected(results: seq<Result>, r: Resume) {
    && (r.err.Some? ==> exists k :: 0 <= k < |results| && results[k].err == r.err && results[k].height == r.height
                                     && forall i | 0 <= i < k :: results[i].err.None?)
    && (r.err.None? ==> && r.missing == SumMissing(results)
                        && (forall i | 0 <= i < |results| :: results[i].err.None? && results[i].height < r.height)
                        && (r.height == 1 || exists i :: 0 <= i < |results| && results[i].height + 1 == r.height))
  }

  method CollectResults(results: seq<Result>) returns (r: Resume)
    ensures Collected(results, r)
  {
    var highest: nat, missing: nat := 0, 0;
    for k := 0 to |results|
      invariant forall i | 0 <= i < k :: results[i].err.None? && results[i].height <= highest
      invariant highest == 0 || exists i :: 0 <= i < k && results[i].height == highest
      invariant missing == SumMissing(results[..k])
    {
      if results[k].err.Some? {
        return Resume(results[k].height, missing, results[k].err);
      }
      if highest < results[k].height {
        highest := results[k].height;
      }
      assert results[..k + 1][..k] == results[..k];
      missing := missing + results[k].missing;
    }
    assert results[..|results|] == results;
    return Resume(highest + 1, missing, None);
  }

  /** A returned error belongs to the lowest height any worker ended on with an error. */
  lemma LowestErrorReturned(s: State, sorted: seq<Result>, r: Resume, w: nat)
    requires multiset(sorted) == multiset(Results(s)) && Sorted(sorted) && Collected(sorted, r)
    requires w < |s.workers| && s.workers[w].last.err.Some?
    ensures r.err.Some? && r.height <= s.workers[w].last.height
  {
    assert Results(s)[w] in multiset(sorted);
    var i :| 0 <= i < |sorted| && sorted[i] == s.workers[w].last;
    assert r.err.Some?;
  }

  lemma ReturnedByWorker(s: State, sorted: seq<Result>, r: Resume) returns (w: nat)
    requires multiset(sorted) == multiset(Results(s)) && Collected(sorted, r) && r.err.Some?
    ensures w < |s.workers| && s.workers[w].last.err == r.err && s.workers[w].last.height == r.height
  {
    var k :| 0 <= k < |sorted| && sorted[k].err == r.err && sorted[k].height == r.height;
    assert sorted[k] in multiset(Results(s));
    w :| 0 <= w < |Results(s)| && Results(s)[w] == sorted[k];
  }

  /** What is not done at the end lies above every error. */
  lemma NotDoneIsAbove(p: Params, s: State, sorted: seq<Result>, r: Resume, h: nat)
    requires Bounds(p, s) && Fifo(p, s) && WorkersOk(p, s) && Covered(p, s) && FailuresKept(s) && Signalled(s) && Final(s) && p.workerNum > 0
    requires multiset(sorted) == multiset(Results(s)) && Sorted(sorted) && Collected(sorted, r)
    requires p.from <= h < s.next && (h !in s.done || s.done[h].Failed?)
    ensures r.err.Some? && (if h in s.done then r.height <= h else r.height < h)
  {
    if h in s.done {
      var w :| 0 <= w < |s.workers| && FailedAt(s.workers[w], h);
      LowestErrorReturned(s, sorted, r, w);
    } else if h in s.skipped {
      var e :| e in s.done && s.done[e].Failed? && e < h;
      var w :| 0 <= w < |s.workers| && FailedAt(s.workers[w], e);
      LowestErrorReturned(s, sorted, r, w);
    } else {
      assert h in s.queue;
      assert WorkerOk(p, s, s.workers[0]);
      LowestErrorReturned(s, sorted, r, 0);
    }
  }

  lemma ReporterOfTop(p: Params, s: State) returns (w: nat)
    requires Bounds(p, s) && WorkersOk(p, s) && ReportsKept(s) && Final(s)
    requires p.from < p.to && p.to - 1 in s.done
    ensures w < |s.workers| && s.workers[w].last.height == p.to - 1 && s.workers[w].last.err == ErrorOf(s.done[p.to - 1])
  {
    var top := p.to - 1;
    w :| 0 <= w < |s.workers| && Reports(s.workers[w], top, s.done[top]);
    assert WorkerOk(p, s, s.workers[w]);
  }

  lemma NilMeansWholeRange(p: Params, s: State, sorted: seq<Result>, r: Resume)
    requires Bounds(p, s) && WorkersOk(p, s) && ReportsKept(s) && Final(s)
    requires multiset(sorted) == multiset(Results(s)) && Collected(sorted, r) && r.err.None?
    requires p.from < p.to && p.to - 1 in s.done
    ensures r.height == p.to
  {
    var w := ReporterOfTop(p, s);
    assert Results(s)[w] in multiset(sorted);
    var j :| 0 <= j < |sorted| && sorted[j].height + 1 == r.height;
    assert sorted[j] in multiset(Results(s));
    var v :| 0 <= v < |Results(s)| && Results(s)[v] == sorted[j];
    assert WorkerOk(p, s, s.workers[v]);
  }

  /**
   * The resume height is sound in every run, whatever fails: every height below it was deleted, was
   * missing, or had a handler answering "not found"; skipped heights are above it; a nil error
   * means the whole range was processed.
   */
  lemma ResumeHeightIsSound(p: Params, steps: seq<Step>, s: State, sorted: seq<Result>, r: Resume)
    requires p.from < p.to && p.workerNum > 0
    requires Exec(Machine(p), Init(p), steps) == Some(s) && Final(s)
    requires multiset(sorted) == multiset(Results(s)) && Sorted(sorted) && Collected(sorted, r)
    ensures p.from <= r.height <= p.to
    ensures forall h | p.from <= h < r.height :: h in s.done && !s.done[h].Failed?
    ensures forall h | h in s.skipped :: r.height < h
    ensures r.err.None? ==> r.height == p.to
    ensures r.err.Some? ==> r.height in s.done && ErrorOf(s.done[r.height]) == r.err
  {
    ReachableInv(p, steps);
    assert s.next == p.to;
    forall h | p.from <= h < s.next && (h !in s.done || s.done[h].Failed?)
      ensures r.err.Some? && (if h in s.done then r.height <= h else r.height < h)
    {
      NotDoneIsAbove(p, s, sorted, r, h);
    }
    forall h | h in s.skipped ensures r.height < h {
      var e :| e in s.done && s.done[e].Failed? && e < h;
    }
    if r.err.Some? {
      var w := ReturnedByWorker(s, sorted, r);
      assert WorkerOk(p, s, s.workers[w]);
    } else {
      NilMeansWholeRange(p, s, sorted, r);
    }
  }

  /**
   * A nil error needs more than an undisturbed run: a worker keeps the "not found" of its last job,
   * so a range whose top height is missing never returns nil.
   */
  lemma MissingTopIsReported(p: Params, steps: seq<Step>, s: State, sorted: seq<Result>, r: Resume)
    requires p.from < p.to && p.workerNum > 0
    requires Exec(Machine(p), Init(p), steps) == Some(s) && Final(s)
    requires multiset(sorted) == multiset(Results(s)) && Sorted(sorted) && Collected(sorted, r)
    requires p.to - 1 in s.done && s.done[p.to - 1] != Deleted
    ensures r.err.Some?
  {
    ReachableInv(p, steps);
    var w := ReporterOfTop(p, s);
    LowestErrorReturned(s, sorted, r, w);
  }

  // ---------------------------------------------------------------- every run ends

  function WorkLeft(ws: seq<Worker>): nat {
    if ws == [] then 0
    else WorkLeft(ws[..|ws| - 1]) + match ws[|ws| - 1].phase
                                    case Waiting => 1
                                    case Busy(_) => 3
                                    case Broken => 1
                                    case Stopped => 0
  }

  function StepsLeft(p: Params, s: State): nat
    requires s.next <= p.to
  {
    4 * (p.to - s.next) + 3 * |s.queue| + WorkLeft(s.workers) + if s.closed then 0 else 1
  }

  lemma {:induction false} WorkLeftUpdate(ws: seq<Worker>, w: nat, k: Worker)
    requires w < |ws|
    ensures WorkLeft(ws[w := k]) == WorkLeft(ws) - WorkLeft([ws[w]]) + WorkLeft([k])
  {
    var n := |ws| - 1;
    if w == n {
      assert ws[w := k][..n] == ws[..n];
    } else {
      assert ws[w := k][..n] == ws[..n][w := k];
      WorkLeftUpdate(ws[..n], w, k);
    }
    assert [ws[w]][..0] == [] && [k][..0] == [];
  }

  /** Every step uses up work, so no run is longer than StepsLeft of its start. */
  lemma EveryStepUsesWork(p: Params, s: State, step: Step)
    requires s.next <= p.to && Next(p, s, step).Some?
    ensures Next(p, s, step).value.next <= p.to
    ensures StepsLeft(p, Next(p, s, step).value) < StepsLeft(p, s)
  {
    match step
    case Take(w) => WorkLeftUpdate(s.workers, w, Next(p, s, step).value.workers[w]);
    case Finish(w, o) => WorkLeftUpdate(s.workers, w, Next(p, s, step).value.workers[w]);
    case Exit(w) => WorkLeftUpdate(s.workers, w, Next(p, s, step).value.workers[w]);
    case _ =>
  }

  /** Every run ends: none has more steps than StepsLeft of its start. */
  lemma {:induction false} RunsAreBounded(p: Params, steps: seq<Step>)
    requires p.from <= p.to && Exec(Machine(p), Init(p), steps).Some?
    ensures var end := Exec(Machine(p), Init(p), steps).value;
            end.next <= p.to && |steps| + StepsLeft(p, end) <= StepsLeft(p, Init(p))
  {
    if steps != [] {
      var front := steps[..|steps| - 1];
      RunsAreBounded(p, front);
      EveryStepUsesWork(p, Exec(Machine(p), Init(p), front).value, steps[|steps| - 1]);
    }
  }

  /** The feeder and the workers never block each other for good. */
  lemma NoDeadlock(p: Params, s: State)
    requires Bounds(p, s) && WorkersOk(p, s) && p.workerNum > 0 && !Final(s)
    ensures exists step :: Next(p, s, step).Some?
  {
    if w: nat :| w < |s.workers| && s.workers[w].phase.Busy? {
      assert Next(p, s, Finish(w, Deleted)).Some?;
    } else if w: nat :| w < |s.workers| && s.workers[w].phase.Broken? {
      assert Next(p, s, Exit(w)).Some?;
    } else if w: nat :| w < |s.workers| && s.workers[w].phase.Waiting? && (s.queue != [] || s.closed) {
      if s.queue != [] {
        assert Next(p, s, Take(w)).Some?;
      } else {
        assert Next(p, s, Exit(w)).Some?;
      }
    } else if p.to <= s.next {
      assert Next(p, s, CloseJobs).Some?;
    } else if s.queue == [] {
      assert Next(p, s, Feed).Some?;
    } else {
      assert s.workers[0].phase.Stopped? && WorkerOk(p, s, s.workers[0]);
      assert Next(p, s, Skip).Some?;
    }
  }
}
