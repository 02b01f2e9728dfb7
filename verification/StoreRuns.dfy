/**
 * What any sequence of batches, flushes and crashes does to the run of consecutive heights a store
 * serves: the store seen as sets of heights. Each step is the promise of a method of Store.
 */
module StoreRuns {
  import opened Headers
  import opened Chains

  /** `disk` and `saved` are what the last commit left in the datastore. */
  datatype State = State(present: set<nat>, run: Option<Run>, disk: set<nat>, saved: Option<Run>)

  datatype Step = Batch(heights: seq<nat>) | Crash

  const EMPTY := State({}, None, {}, None)

  function SetOf(heights: seq<nat>): set<nat> {
    set h | h in heights
  }

  /** Where the ends of the run are walked from. */
  function Base(s: State, heights: seq<nat>): Run
    requires heights != []
  {
    if s.run.Some? then s.run.value else Run(heights[0], heights[|heights| - 1])
  }

  ghost predicate BatchStep(s: State, heights: seq<nat>, t: State) {
    && heights != []
    && t.present == s.present + SetOf(heights)
    && t.run.Some? && Walked(t.present, Base(s, heights), t.run.value)
    && ((t.disk == s.disk && t.saved == s.saved) || (t.disk == t.present && t.saved == t.run))
  }

  /** A batch joins what is pending; the first one of all sets both pointers. */
  predicate AppendStep(s: State, heights: seq<nat>, t: State) {
    heights != [] && t == s.(present := s.present + SetOf(heights), run := Some(Base(s, heights)))
  }

  /** Both ends are walked outwards. */
  ghost predicate ExtendStep(s: State, t: State) {
    s.run.Some? && t.run.Some? && Walked(s.present, s.run.value, t.run.value) && t == s.(run := t.run)
  }

  /** A commit writes all heights and the run, or there was nothing to write. */
  predicate FlushStep(s: State, t: State) {
    t.present == s.present && t.run == s.run
    && ((t.disk == s.disk && t.saved == s.saved) || (t.disk == t.present && t.saved == t.run))
  }

  /** A maximal run cannot be walked outwards. */
  lemma MaximalStays(s: State, t: State)
    ensures s.run.Some? && s.run.value.head <= MAX_UINT64 && IsMaximalRun(s.present, s.run.value) && ExtendStep(s, t) ==> t == s
  {
    if s.run.Some? && s.run.value.head <= MAX_UINT64 && IsMaximalRun(s.present, s.run.value) && ExtendStep(s, t) {
      var base, r := s.run.value, t.run.value;
      assert r.tail < base.tail ==> base.tail - 1 in s.present;
      assert base.head < r.head ==> base.head + 1 in s.present;
    }
  }

  lemma StepsCompose(s: State, heights: seq<nat>, a: State, b: State, t: State)
    requires AppendStep(s, heights, a) && ExtendStep(a, b) && (t == b || FlushStep(b, t))
    ensures BatchStep(s, heights, t)
  {
  }

  /** A restart finds what was committed. */
  ghost predicate CrashStep(s: State, t: State) {
    t == State(s.disk, s.saved, s.disk, s.saved)
  }

  ghost predicate StepOk(s: State, step: Step, t: State) {
    match step
    case Batch(heights) => BatchStep(s, heights, t)
    case Crash => CrashStep(s, t)
  }

  ghost predicate UintHeights(heights: seq<nat>) {
    forall h | h in heights :: 1 <= h <= MAX_UINT64
  }

  /** The first batch of an empty store has every height between its first and its last one. */
  ghost predicate GoodStart(s: State, step: Step) {
    s.run.None? && step.Batch? && step.heights != [] ==>
      Between(SetOf(step.heights), step.heights[0], step.heights[|step.heights| - 1])
  }

  ghost predicate IsHistory(states: seq<State>, steps: seq<Step>) {
    && |states| == |steps| + 1 && states[0] == EMPTY
    && (forall i | 0 <= i < |steps| :: StepOk(states[i], steps[i], states[i + 1]))
    && (forall i | 0 <= i < |steps| && steps[i].Batch? :: UintHeights(steps[i].heights))
  }

  ghost predicate RunOk(present: set<nat>, run: Option<Run>) {
    && (forall h | h in present :: 1 <= h <= MAX_UINT64)
    && (if run.Some? then IsMaximalRun(present, run.value) else present == {})
  }

  ghost predicate Inv(s: State) {
    RunOk(s.present, s.run) && RunOk(s.disk, s.saved) && s.disk <= s.present
  }

  lemma BatchKeepsInv(s: State, heights: seq<nat>, t: State)
    requires Inv(s) && BatchStep(s, heights, t) && UintHeights(heights)
    requires GoodStart(s, Batch(heights))
    ensures Inv(t)
    ensures s.run.Some? ==> t.run.value.tail <= s.run.value.tail && s.run.value.head <= t.run.value.head
    ensures s.run.None? ==> forall h | h in SetOf(heights) && Between(t.present, h, heights[0]) ::
                              t.run.value.tail <= h <= t.run.value.head
  {
    var base, r := Base(s, heights), t.run.value;
    if s.run.Some? {
      WalkKeepsMaximal(s.present, t.present, base, r);
    } else {
      assert heights[0] in heights && heights[|heights| - 1] in heights;
      assert r.tail in t.present && r.head in t.present by {
        assert r.tail == base.tail || r.tail in t.present;
        assert r.head == base.head || r.head in t.present;
      }
      FirstWalkIsMaximal(t.present, base, r);
      forall h | h in SetOf(heights) && Between(t.present, h, heights[0]) ensures r.tail <= h <= r.head {
        assert r.head < h ==> r.head + 1 in t.present;
        assert h < r.tail ==> r.tail - 1 in t.present;
      }
    }
  }

  lemma StepKeepsInv(s: State, step: Step, t: State)
    requires Inv(s) && StepOk(s, step, t) && GoodStart(s, step)
    requires step.Batch? ==> UintHeights(step.heights)
    ensures Inv(t)
  {
    if step.Batch? {
      BatchKeepsInv(s, step.heights, t);
    }
  }

  /** In every history, with crashes anywhere, the served run and the saved run are maximal. */
  lemma {:induction false} RunsStayMaximal(states: seq<State>, steps: seq<Step>, k: nat)
    requires IsHistory(states, steps) && k <= |steps|
    requires forall i | 0 <= i < |steps| :: GoodStart(states[i], steps[i])
    ensures Inv(states[k])
  {
    if k > 0 {
      RunsStayMaximal(states, steps, k - 1);
      StepKeepsInv(states[k - 1], steps[k - 1], states[k]);
    }
  }

  // ---------------------------------------------------------------- the exact condition

  /** The first and the last height of the batch that initialised the store, if it is initialised after k steps. */
  ghost function BaseAt(states: seq<State>, steps: seq<Step>, k: nat): Option<Run>
    requires |states| == |steps| + 1 && k <= |steps|
  {
    if k == 0 then None
    else
      match steps[k - 1]
      case Batch(heights) =>
        if states[k - 1].run.None? && heights != [] then Some(Run(heights[0], heights[|heights| - 1]))
        else BaseAt(states, steps, k - 1)
      case Crash => if states[k - 1].saved.None? then None else BaseAt(states, steps, k - 1)
  }

  /** A run is walked from the ends of the batch that initialised the store, both of which are present. */
  ghost predicate WalkedFrom(base: Option<Run>, present: set<nat>, run: Option<Run>) {
    && (forall h | h in present :: 1 <= h <= MAX_UINT64)
    && (if run.None? then present == {}
        else base.Some? && base.value.tail in present && base.value.head in present && Walked(present, base.value, run.value))
  }

  /** Served and saved run alike. */
  ghost predicate Traced(base: Option<Run>, s: State) {
    && WalkedFrom(base, s.present, s.run) && WalkedFrom(base, s.disk, s.saved)
    && s.disk <= s.present && (s.run.None? ==> s.saved.None?)
  }

  lemma BatchKeepsTraced(base: Option<Run>, s: State, heights: seq<nat>, t: State)
    requires Traced(base, s) && BatchStep(s, heights, t) && UintHeights(heights)
    ensures Traced(if s.run.None? then Some(Run(heights[0], heights[|heights| - 1])) else base, t)
  {
    if s.run.Some? {
      WalksCompose(s.present, t.present, base.value, s.run.value, t.run.value);
    } else {
      assert heights[0] in heights && heights[|heights| - 1] in heights;
    }
  }

  lemma {:induction false} HistoryIsTraced(states: seq<State>, steps: seq<Step>, k: nat)
    requires IsHistory(states, steps) && k <= |steps|
    ensures Traced(BaseAt(states, steps, k), states[k])
  {
    if k > 0 {
      HistoryIsTraced(states, steps, k - 1);
      assert StepOk(states[k - 1], steps[k - 1], states[k]);
      if steps[k - 1].Batch? {
        BatchKeepsTraced(BaseAt(states, steps, k - 1), states[k - 1], steps[k - 1].heights, states[k]);
      }
    }
  }

  lemma WalkedFromIsMaximal(base: Option<Run>, present: set<nat>, run: Option<Run>)
    requires WalkedFrom(base, present, run) && run.Some?
    ensures IsMaximalRun(present, run.value) <==> Between(present, base.value.tail, base.value.head)
  {
    FirstWalkIsMaximal(present, base.value, run.value);
  }

  /**
   * At every point of every history of batches, flushes and crashes: the served run is maximal if and
   * only if every height between the first and the last header of the batch that initialised the
   * store is present; and likewise the saved run, with what is on disk.
   */
  lemma RunIsMaximalExactlyWhen(states: seq<State>, steps: seq<Step>, k: nat)
    requires IsHistory(states, steps) && k <= |steps|
    ensures var s, base := states[k], BaseAt(states, steps, k);
            && (s.run.Some? || s.saved.Some? ==> base.Some?)
            && (s.run.Some? ==>
                  (IsMaximalRun(s.present, s.run.value) <==> Between(s.present, base.value.tail, base.value.head)))
            && (s.saved.Some? ==>
                  (IsMaximalRun(s.disk, s.saved.value) <==> Between(s.disk, base.value.tail, base.value.head)))
  {
    var s, base := states[k], BaseAt(states, steps, k);
    HistoryIsTraced(states, steps, k);
    if s.run.Some? {
      WalkedFromIsMaximal(base, s.present, s.run);
    }
    if s.saved.Some? {
      WalkedFromIsMaximal(base, s.disk, s.saved);
    }
  }

  // ---------------------------------------------------------------- a first batch over a hole

  /** A first batch in ascending order with a hole leaves a run that is not gap-free. */
  lemma AscendingOverHole()
    ensures var t := State({1, 3}, Some(Run(1, 3)), {}, None);
            IsHistory([EMPTY, t], [Batch([1, 3])]) && !IsMaximalRun(t.present, t.run.value)
  {
    assert [1, 3][0] == 1 && [1, 3][1] == 3 && SetOf([1, 3]) == {1, 3};
    var t := State({1, 3}, Some(Run(1, 3)), {}, None);
    HistoryOfOne([1, 3], t);
    assert 2 !in t.present;
  }

  /** In descending order it leaves a head below the tail. */
  lemma DescendingOverHole()
    ensures var t := State({1, 3}, Some(Run(3, 1)), {}, None);
            IsHistory([EMPTY, t], [Batch([3, 1])]) && !IsMaximalRun(t.present, t.run.value)
  {
    assert [3, 1][0] == 3 && [3, 1][1] == 1 && SetOf([3, 1]) == {1, 3};
    HistoryOfOne([3, 1], State({1, 3}, Some(Run(3, 1)), {}, None));
  }

  lemma HistoryOfOne(heights: seq<nat>, t: State)
    requires BatchStep(EMPTY, heights, t) && UintHeights(heights)
    ensures IsHistory([EMPTY, t], [Batch(heights)])
  {
  }

  // ---------------------------------------------------------------- arrival order

  /** The history begins with a batch that has every height between its first and its last one. */
  ghost predicate GoodFirst(steps: seq<Step>) {
    steps != [] && steps[0].Batch? && steps[0].heights != [] && GoodStart(EMPTY, steps[0])
  }

  /** All heights appended by the first k steps. */
  ghost function Appended(steps: seq<Step>, k: nat): set<nat>
    requires k <= |steps|
  {
    if k == 0 then {}
    else Appended(steps, k - 1) + if steps[k - 1].Batch? then SetOf(steps[k - 1].heights) else {}
  }

  ghost predicate OnlyBatches(steps: seq<Step>) {
    forall i | 0 <= i < |steps| :: steps[i].Batch?
  }

  lemma {:induction false} RunFollowsBatches(states: seq<State>, steps: seq<Step>, k: nat)
    requires IsHistory(states, steps) && OnlyBatches(steps) && 0 < k <= |steps| && GoodFirst(steps)
    ensures states[k].present == Appended(steps, k)
    ensures states[k].run.Some? && IsMaximalRun(states[k].present, states[k].run.value) && Inv(states[k])
    ensures states[k].run.value.tail <= steps[0].heights[0] <= states[k].run.value.head
  {
    var s, t, heights := states[k - 1], states[k], steps[k - 1].heights;
    assert StepOk(s, steps[k - 1], t);
    if k == 1 {
      assert Appended(steps, 0) == {};
      BatchKeepsInv(s, heights, t);
      assert heights[0] in SetOf(heights) && Between(t.present, heights[0], heights[0]);
    } else {
      RunFollowsBatches(states, steps, k - 1);
      BatchKeepsInv(s, heights, t);
    }
  }

  /**
   * Arrival order does not matter: after a first batch without gaps, however the rest arrives and
   * whenever it is flushed, the served run is the maximal run of consecutive heights around the
   * first batch among all heights appended.
   */
  lemma RunIsMaximalAroundFirstBatch(states: seq<State>, steps: seq<Step>, h: nat)
    requires IsHistory(states, steps) && OnlyBatches(steps) && GoodFirst(steps)
    requires h in steps[0].heights && Between(SetOf(steps[0].heights), h, steps[0].heights[0])
    ensures var s := states[|steps|];
            s.present == Appended(steps, |steps|) && s.run.Some? && IsMaximalRun(s.present, s.run.value)
            && s.run.value.tail <= h <= s.run.value.head
  {
    var s, first := states[|steps|], steps[0].heights[0];
    RunFollowsBatches(states, steps, |steps|);
    AppendedGrows(steps, |steps|);
    assert Between(s.present, h, first);
    StaysInRun(s.present, s.run.value, first, h);
  }

  lemma {:induction false} AppendedGrows(steps: seq<Step>, k: nat)
    requires 0 < k <= |steps| && steps[0].Batch?
    ensures SetOf(steps[0].heights) <= Appended(steps, k)
  {
    if k > 1 {
      AppendedGrows(steps, k - 1);
    } else {
      assert Appended(steps, 0) == {};
    }
  }

  /** Two histories that append the same heights, with a height of their first batches in common runs, agree. */
  lemma ArrivalOrderDoesNotMatter(ss: seq<State>, ps: seq<Step>, ts: seq<State>, qs: seq<Step>)
    requires IsHistory(ss, ps) && OnlyBatches(ps) && GoodFirst(ps)
    requires IsHistory(ts, qs) && OnlyBatches(qs) && GoodFirst(qs)
    requires Appended(ps, |ps|) == Appended(qs, |qs|)
    requires Between(Appended(ps, |ps|), ps[0].heights[0], qs[0].heights[0])
    ensures ss[|ps|].present == ts[|qs|].present && ss[|ps|].run == ts[|qs|].run
  {
    RunFollowsBatches(ss, ps, |ps|);
    RunFollowsBatches(ts, qs, |qs|);
    var s, t := ss[|ps|], ts[|qs|];
    assert s.present == t.present;
    StaysInRun(t.present, t.run.value, qs[0].heights[0], ps[0].heights[0]);
    MaximalRunsCoincide(s.present, s.run.value, t.run.value, ps[0].heights[0]);
  }

  /** What is joined to a height of a maximal run by present heights lies in that run. */
  lemma StaysInRun(present: set<nat>, r: Run, x: nat, y: nat)
    requires RunOk(present, Some(r)) && r.tail <= x <= r.head && Between(present, y, x)
    ensures r.tail <= y <= r.head
  {
    assert r.head in present && r.tail in present;
    assert r.head < y ==> r.head + 1 in present;
    assert y < r.tail ==> r.tail - 1 in present;
  }

  /** A crash and restart serve the run of the last commit, all of it on disk. */
  lemma CrashServesLastCommit(states: seq<State>, steps: seq<Step>, k: nat)
    requires IsHistory(states, steps) && k < |steps| && steps[k].Crash?
    requires forall i | 0 <= i < |steps| :: GoodStart(states[i], steps[i])
    ensures states[k + 1].run == states[k].saved
    ensures states[k].saved.Some? ==> IsMaximalRun(states[k + 1].disk, states[k].saved.value)
  {
    RunsStayMaximal(states, steps, k);
    assert StepOk(states[k], steps[k], states[k + 1]);
  }
}
