/**
 * The syncer's wrapper of the store (sync/sync_store.go): a cached head that appends publish, and
 * that readers fill in lazily.
 */
module SyncStore {
  import opened Headers
  import opened Runs
  import opened Ranges

  /** What the wrapped store answers when asked for its head. */
  datatype HeadAnswer = Found(head: Header) | Empty | Broken

  datatype AppendError = NonAdjacent(head: nat, attempted: nat) | Cancelled | ReadFailed | WriteFailed

  /** The batch continues a head: its heights follow it one by one. */
  predicate Follows(head: Header, batch: seq<Header>) {
    forall i | 0 <= i < |batch| :: batch[i].height == head.height + 1 + i
  }

  /** The batch does not lie in the past of the head, so it has to continue it. */
  predicate Advances(head: Header, batch: seq<Header>)
    requires batch != []
  {
    batch[0].height >= head.height
  }

  /** The wrapped store's side of one Append: whether the lock is got, the head it reports, and whether it writes. */
  datatype Backend = Backend(locked: bool, answer: HeadAnswer, writes: bool)

  /** The head an append finds: the cached one, or what the wrapped store answers. */
  function Base(cached: Option<Header>, answer: HeadAnswer): HeadAnswer {
    if cached.Some? then Found(cached.value) else answer
  }

  /** An empty store takes any batch; otherwise a batch that does not lie in the past continues the head. */
  predicate Fits(base: HeadAnswer, batch: seq<Header>)
    requires batch != []
  {
    base.Empty? || (base.Found? && (Advances(base.head, batch) ==> Follows(base.head, batch)))
  }

  class SyncStore {
    var head: Option<Header>
    /** All headers the wrapped store has accepted, in order. */
    ghost var written: seq<Header>

    constructor ()
      ensures head == None && written == []
    {
      head, written := None, [];
    }

    method Head(answer: HeadAnswer) returns (h: HeadAnswer)
      modifies `head
      ensures h == if old(head).Some? then Found(old(head).value) else answer
      ensures head == if h.Found? then Some(h.head) else None
    {
      if head.Some? {
        return Found(head.value);
      }
      if !answer.Found? {
        return answer;
      }
      head := Some(answer.head);
      return answer;
    }

    /**
     * Append, alone. It succeeds exactly when the lock is got, the batch fits the head it finds and the
     * write succeeds. The head then moves to the end of a batch that continues it, or that
     * initialises an empty store; a refused or failed batch at most fills in a nil head.
     */
    method Append(headers: seq<Header>, backend: Backend) returns (err: Option<AppendError>)
      modifies this
      ensures written == old(written) + if err.None? then headers else []
      ensures headers == [] ==> err.None? && head == old(head)
      ensures headers != [] ==>
                var base := Base(old(head), backend.answer);
                && (err.None? <==> backend.locked && backend.writes && Fits(base, headers))
                && head == (if err.None? && (base.Empty? || Advances(base.head, headers)) then Some(Last(headers))
                            else if backend.locked && base.Found? then Some(base.head) else old(head))
                && (err.Some? && err.value.NonAdjacent? ==> base.Found? && !Follows(base.head, headers))
    {
      if |headers| == 0 {
        return None;
      }
      if head.Some? && headers[0].height > head.value.height + 1 {
        return Some(NonAdjacent(head.value.height, headers[0].height));
      }
      if !backend.locked {
        return Some(Cancelled);
      }
      var read := Head(backend.answer);
      match read
      case Broken => return Some(ReadFailed);
      case Empty =>
        if !backend.writes {
          return Some(WriteFailed);
        }
        written := written + headers;
        head := Some(headers[|headers| - 1]);
        return None;
      case Found(base) =>
        var advance := headers[0].height >= base.height;
        var last := base;
        if advance {
          for i := 0 to |headers|
            invariant forall j | 0 <= j < i :: headers[j].height == base.height + 1 + j
            invariant last == if i == 0 then base else headers[i - 1]
          {
            if headers[i].height != last.height + 1 {
              return Some(NonAdjacent(last.height, headers[i].height));
            }
            last := headers[i];
          }
        }
        if !backend.writes {
          return Some(WriteFailed);
        }
        written := written + headers;
        if advance {
          head := Some(last);
        }
        return None;
    }
  }

  // ---------------------------------------------------------------- any number of callers

  type Batch = hs: seq<Header> | hs != [] witness [Header("", 0, [], [], 0)]

  /**
   * Where a caller stands. Locked to InitWrote happen while it holds appendSem: the head not loaded
   * yet, found nil, read from the store, known, the batch checked against it, and the batch written.
   */
  datatype Phase =
    | Idle
    | Waiting(batch: Batch)
    | Locked(batch: Batch)
    | Nil(batch: Batch)
    | Read(batch: Batch, answer: Header)
    | Known(batch: Batch, head: Header)
    | Checked(batch: Batch, head: Header)
    | Wrote(batch: Batch, head: Header)
    | Initialising(batch: Batch)
    | InitWrote(batch: Batch)
    | HeadNil
    | HeadRead(answer: Header)

  datatype State = State(cached: Option<Header>, written: seq<Batch>, callers: seq<Phase>)

  datatype Step =
    | BeginAppend(i: nat, batch: Batch) | BeginHead(i: nat) | Lock(i: nat) | Load(i: nat) | Ask(i: nat, answer: HeadAnswer)
    | Swap(i: nat) | Check(i: nat) | Write(i: nat, ok: bool) | Publish(i: nat) | GiveUp(i: nat)

  predicate Holds(p: Phase) {
    p.Locked? || p.Nil? || p.Read? || p.Known? || p.Checked? || p.Wrote? || p.Initialising? || p.InitWrote?
  }

  predicate Free(s: State) {
    forall i | 0 <= i < |s.callers| :: !Holds(s.callers[i])
  }

  function Goto(s: State, i: nat, p: Phase): State
    requires i < |s.callers|
  {
    s.(callers := s.callers[i := p])
  }

  function Next(s: State, step: Step): Option<State> {
    if step.i >= |s.callers| then None
    else
      var i, p := step.i, s.callers[step.i];
      match step
      // the check for a gap comes before waiting for the lock
      case BeginAppend(_, batch) =>
        if !p.Idle? then None
        else if s.cached.Some? && batch[0].height > s.cached.value.height + 1 then Some(s)
        else Some(Goto(s, i, Waiting(batch)))
      case BeginHead(_) =>
        if !p.Idle? then None else Some(if s.cached.Some? then s else Goto(s, i, HeadNil))
      case Lock(_) => if p.Waiting? && Free(s) then Some(Goto(s, i, Locked(p.batch))) else None
      case Load(_) =>
        if !p.Locked? then None
        else Some(Goto(s, i, if s.cached.Some? then Known(p.batch, s.cached.value) else Nil(p.batch)))
      case Ask(_, answer) =>
        if p.Nil? then
          Some(Goto(s, i, match answer case Found(h) => Read(p.batch, h) case Empty => Initialising(p.batch) case Broken => Idle))
        else if p.HeadNil? then Some(Goto(s, i, if answer.Found? then HeadRead(answer.head) else Idle))
        else None
      // the compare-and-swap from nil; whoever loses it loads the head again
      case Swap(_) =>
        if p.Read? then
          Some(if s.cached.Some? then Goto(s, i, Locked(p.batch)) else Goto(s, i, Known(p.batch, p.answer)).(cached := Some(p.answer)))
        else if p.HeadRead? then
          Some(if s.cached.Some? then Goto(s, i, Idle) else Goto(s, i, Idle).(cached := Some(p.answer)))
        else None
      case Check(_) =>
        if !p.Known? then None
        else Some(Goto(s, i, if Advances(p.head, p.batch) && !Follows(p.head, p.batch) then Idle else Checked(p.batch, p.head)))
      case Write(_, ok) =>
        if p.Checked? then
          Some(if ok then Goto(s, i, Wrote(p.batch, p.head)).(written := s.written + [p.batch]) else Goto(s, i, Idle))
        else if p.Initialising? then
          Some(if ok then Goto(s, i, InitWrote(p.batch)).(written := s.written + [p.batch]) else Goto(s, i, Idle))
        else None
      case Publish(_) =>
        if p.Wrote? then
          Some(if Advances(p.head, p.batch) then Goto(s, i, Idle).(cached := Some(Last(p.batch))) else Goto(s, i, Idle))
        else if p.InitWrote? then Some(Goto(s, i, Idle).(cached := Some(Last(p.batch))))
        else None
      case GiveUp(_) => if p.Waiting? then Some(Goto(s, i, Idle)) else None
  }

  function Machine(): (State, Step) -> Option<State> {
    (s, step) => Next(s, step)
  }

  // ---------------------------------------------------------------- what every run keeps

  predicate OneHolder(s: State) {
    forall i, j | 0 <= i < j < |s.callers| :: !(Holds(s.callers[i]) && Holds(s.callers[j]))
  }

  /** Who has loaded the head still sees the same head cached, and checks its batch against it. */
  predicate CallerOk(s: State, p: Phase) {
    && (p.Known? || p.Checked? || p.Wrote? ==> s.cached == Some(p.head))
    && (p.Checked? || p.Wrote? ==> Advances(p.head, p.batch) ==> Follows(p.head, p.batch))
    && (p.Wrote? || p.InitWrote? ==> s.written != [] && s.written[|s.written| - 1] == p.batch)
  }

  predicate Inv(s: State) {
    OneHolder(s) && forall i | 0 <= i < |s.callers| :: CallerOk(s, s.callers[i])
  }

  lemma OnlyLockTakes(s: State, step: Step, j: nat)
    requires Next(s, step).Some? && j < |s.callers| && Holds(Next(s, step).value.callers[j])
    ensures Holds(s.callers[j]) || (step == Lock(j) && Free(s))
    ensures |Next(s, step).value.callers| == |s.callers|
  {
  }

  lemma StepKeepsOneHolder(s: State, step: Step)
    requires OneHolder(s) && Next(s, step).Some?
    ensures OneHolder(Next(s, step).value)
  {
    var t := Next(s, step).value;
    forall i, j | 0 <= i < j < |t.callers| && Holds(t.callers[i]) && Holds(t.callers[j]) ensures false {
      OnlyLockTakes(s, step, i);
      OnlyLockTakes(s, step, j);
    }
  }

  /** A step that touches the cached head or the write log is a step of the only holder, or fills a nil head. */
  lemma StepKeepsCallers(s: State, step: Step, j: nat)
    requires Inv(s) && Next(s, step).Some? && j < |s.callers|
    ensures CallerOk(Next(s, step).value, Next(s, step).value.callers[j])
  {
    var i := step.i;
    assert CallerOk(s, s.callers[i]) && CallerOk(s, s.callers[j]);
    if i < j {
      assert !(Holds(s.callers[i]) && Holds(s.callers[j]));
    } else if j < i {
      assert !(Holds(s.callers[j]) && Holds(s.callers[i]));
    }
  }

  lemma StepKeepsInv(s: State, step: Step)
    requires Inv(s) && Next(s, step).Some?
    ensures Inv(Next(s, step).value)
  {
    StepKeepsOneHolder(s, step);
    var t := Next(s, step).value;
    forall j | 0 <= j < |t.callers| ensures CallerOk(t, t.callers[j]) {
      StepKeepsCallers(s, step, j);
    }
  }

  predicate AllIdle(s: State) {
    forall i | 0 <= i < |s.callers| :: s.callers[i].Idle?
  }

  lemma ReachableInv(start: State, steps: seq<Step>)
    requires AllIdle(start)
    ensures var end := Exec(Machine(), start, steps); end.Some? ==> Inv(end.value)
  {
    forall s, step | Inv(s) && Machine()(s, step).Some? ensures Inv(Machine()(s, step).value) {
      StepKeepsInv(s, step);
    }
    InvariantHolds(Machine(), s => Inv(s), start, steps);
  }

  // ---------------------------------------------------------------- how the head moves

  /** The last thing written is a batch that continues the old head one by one, and the new head is its end. */
  predicate Published(s: State, t: State) {
    && s.cached.Some? && s.written != [] && t.written == s.written
    && Follows(s.cached.value, s.written[|s.written| - 1])
    && t.cached == Some(Last(s.written[|s.written| - 1]))
  }

  predicate Falls(s: State, t: State) {
    s.cached.Some? && (t.cached.None? || t.cached.value.height < s.cached.value.height)
  }

  /** The empty-store path is about to publish a batch it wrote, and its end lies below the cached head. */
  predicate LowersByInit(s: State, step: Step) {
    && step.Publish? && step.i < |s.callers| && s.callers[step.i].InitWrote?
    && s.cached.Some? && Last(s.callers[step.i].batch).height < s.cached.value.height
  }

  /**
   * How the cached head may change: not at all, out of nil, by publishing a written batch that
   * continues it, or by the empty-store path. It falls exactly when that path publishes a lower head.
   */
  lemma StepMovesHead(s: State, step: Step)
    requires Inv(s) && Next(s, step).Some?
    ensures var t := Next(s, step).value;
            && (t.cached == s.cached || (s.cached.None? && step.Swap?) || (step.Publish? && Published(s, t))
                || (step.Publish? && s.callers[step.i].InitWrote? && t.cached == Some(Last(s.written[|s.written| - 1]))))
            && (Falls(s, t) <==> LowersByInit(s, step))
            && (step.Write? && !step.ok ==> t.cached == s.cached && t.written == s.written && t.callers[step.i].Idle?)
            && (step.Write? && step.ok ==> t.written == s.written + [s.callers[step.i].batch])
            && (step.Publish? ==>
                  t.cached == if s.callers[step.i].Wrote? && !Advances(s.callers[step.i].head, s.callers[step.i].batch) then s.cached
                              else Some(Last(s.callers[step.i].batch)))
            && (step.Swap? && s.cached.None? ==> t.cached == Some(s.callers[step.i].answer))
  {
    var p := s.callers[step.i];
    assert CallerOk(s, p);
    if step.Publish? && p.Wrote? && Advances(p.head, p.batch) {
      assert Last(p.batch).height == p.head.height + |p.batch|;
    }
  }

  /** In every run, over any store, the cached head falls exactly at the steps where the empty-store path lowers it. */
  lemma RunFallsExactlyWhen(start: State, steps: seq<Step>, step: Step)
    requires AllIdle(start) && Exec(Machine(), start, steps + [step]).Some?
    ensures Exec(Machine(), start, steps).Some?
    ensures var s, t := Exec(Machine(), start, steps).value, Exec(Machine(), start, steps + [step]).value;
            Falls(s, t) <==> LowersByInit(s, step)
  {
    assert (steps + [step])[..|steps|] == steps;
    ReachableInv(start, steps);
    StepMovesHead(Exec(Machine(), start, steps).value, step);
  }

  // ---------------------------------------------------------------- a started store

  /** The wrapped store is started and not empty: it never answers that it has no head. */
  predicate Started(steps: seq<Step>) {
    forall i | 0 <= i < |steps| :: !EmptyAnswer(steps[i])
  }

  predicate EmptyAnswer(step: Step) {
    step.Ask? && step.answer.Empty?
  }

  predicate Initialised(s: State) {
    forall i | 0 <= i < |s.callers| :: !s.callers[i].Initialising? && !s.callers[i].InitWrote?
  }

  lemma {:induction false} StartedNeverInitialises(start: State, steps: seq<Step>)
    requires AllIdle(start) && Started(steps)
    ensures var end := Exec(Machine(), start, steps); end.Some? ==> Initialised(end.value)
  {
    if steps != [] {
      var n := |steps| - 1;
      StartedNeverInitialises(start, steps[..n]);
      var before := Exec(Machine(), start, steps[..n]);
      if before.Some? && Next(before.value, steps[n]).Some? {
        StepKeepsInitialised(before.value, steps[n]);
      }
    }
  }

  lemma StepKeepsInitialised(s: State, step: Step)
    requires Initialised(s) && !EmptyAnswer(step) && Next(s, step).Some?
    ensures Initialised(Next(s, step).value)
  {
  }

  /** In every run over a started store, from any cached head, the cached head never goes down. */
  lemma {:induction false} HeadNeverFalls(start: State, steps: seq<Step>, k: nat)
    requires AllIdle(start) && Started(steps) && k <= |steps|
    requires Exec(Machine(), start, steps).Some?
    ensures Exec(Machine(), start, steps[..k]).Some?
    ensures !Falls(Exec(Machine(), start, steps[..k]).value, Exec(Machine(), start, steps).value)
  {
    if k == |steps| {
      assert steps[..k] == steps;
    } else {
      var front, last := steps[..|steps| - 1], steps[|steps| - 1];
      HeadNeverFalls(start, front, k);
      assert front[..k] == steps[..k] && front + [last] == steps;
      StartedNeverInitialises(start, front);
      RunFallsExactlyWhen(start, front, last);
    }
  }

  // ---------------------------------------------------------------- an empty store

  /** One caller initialises the empty store; meanwhile another one reads a head that got there in another way. */
  function Lowering(low: Header, high: Header): seq<Step> {
    [BeginAppend(0, [low]), Lock(0), Load(0), Ask(0, Empty), Write(0, true),
     BeginHead(1), Ask(1, Found(high)), Swap(1), Publish(0)]
  }

  function AfterLowering(low: Header, high: Header, k: nat): State {
    if k == 0 then State(None, [], [Idle, Idle])
    else if k == 1 then State(None, [], [Waiting([low]), Idle])
    else if k == 2 then State(None, [], [Locked([low]), Idle])
    else if k == 3 then State(None, [], [Nil([low]), Idle])
    else if k == 4 then State(None, [], [Initialising([low]), Idle])
    else if k == 5 then State(None, [[low]], [InitWrote([low]), Idle])
    else if k == 6 then State(None, [[low]], [InitWrote([low]), HeadNil])
    else if k == 7 then State(None, [[low]], [InitWrote([low]), HeadRead(high)])
    else if k == 8 then State(Some(high), [[low]], [InitWrote([low]), Idle])
    else State(Some(low), [[low]], [Idle, Idle])
  }

  lemma LoweringStep(low: Header, high: Header, k: nat)
    requires k < 9
    ensures Next(AfterLowering(low, high, k), Lowering(low, high)[k]) == Some(AfterLowering(low, high, k + 1))
  {
    var next, want := Next(AfterLowering(low, high, k), Lowering(low, high)[k]).value, AfterLowering(low, high, k + 1);
    assert next.callers == want.callers && next.written == want.written;
  }

  /**
   * The path for an empty store publishes without looking: in this run a cached head, after eight
   * steps, is replaced by a lower one.
   */
  lemma {:induction false} InitialisationCanLower(low: Header, high: Header, k: nat)
    requires low.height < high.height && k <= 9
    ensures Exec(Machine(), State(None, [], [Idle, Idle]), Lowering(low, high)[..k]) == Some(AfterLowering(low, high, k))
    ensures AfterLowering(low, high, 8).cached == Some(high) && AfterLowering(low, high, 9).cached == Some(low)
  {
    var start, steps := State(None, [], [Idle, Idle]), Lowering(low, high);
    if k > 0 {
      InitialisationCanLower(low, high, k - 1);
      LoweringStep(low, high, k - 1);
      assert steps[..k] == steps[..k - 1] + [steps[k - 1]];
      ExecSnoc(Machine(), start, steps[..k - 1], steps[k - 1]);
    }
  }

  // ---------------------------------------------------------------- one caller, alone

  predicate At(start: State, steps: seq<Step>, s: State) {
    Exec(Machine(), start, steps) == Some(s)
  }

  lemma Then(start: State, steps: seq<Step>, s: State, step: Step)
    requires At(start, steps, s) && Next(s, step).Some?
    ensures At(start, steps + [step], Next(s, step).value)
  {
    ExecSnoc(Machine(), start, steps, step);
  }

  /** The head after an append alone, as Append of SyncStore promises it. */
  function HeadAfter(cached: Option<Header>, batch: Batch, backend: Backend): Option<Header> {
    var base := Base(cached, backend.answer);
    if Succeeds(cached, batch, backend) && (base.Empty? || (base.Found? && Advances(base.head, batch))) then Some(Last(batch))
    else if backend.locked && base.Found? then Some(base.head)
    else cached
  }

  predicate Succeeds(cached: Option<Header>, batch: Batch, backend: Backend) {
    backend.locked && backend.writes && Fits(Base(cached, backend.answer), batch)
  }

  /** What a lone caller leaves: it is idle again, and head and log are as Append leaves them. */
  predicate Appended(s: State, batch: Batch, backend: Backend, t: State) {
    && t.callers == s.callers && t.cached == HeadAfter(s.cached, batch, backend)
    && t.written == s.written + if Succeeds(s.cached, batch, backend) then [batch] else []
  }

  /** From a known head: check, write, publish. */
  lemma KnownGoesOn(start: State, steps: seq<Step>, s: State, i: nat, writes: bool) returns (longer: seq<Step>, t: State)
    requires At(start, steps, s) && i < |s.callers| && s.callers[i].Known? && s.cached == Some(s.callers[i].head)
    ensures var p, ok := s.callers[i], writes && Fits(Found(s.callers[i].head), s.callers[i].batch);
            && At(start, longer, t) && t.callers == s.callers[i := Idle]
            && t.written == s.written + (if ok then [p.batch] else [])
            && t.cached == if ok && Advances(p.head, p.batch) then Some(Last(p.batch)) else s.cached
  {
    var p := s.callers[i];
    Then(start, steps, s, Check(i));
    longer, t := steps + [Check(i)], Next(s, Check(i)).value;
    if t.callers[i].Idle? {
      return;
    }
    Then(start, longer, t, Write(i, writes));
    longer, t := longer + [Write(i, writes)], Next(t, Write(i, writes)).value;
    if !writes {
      return;
    }
    Then(start, longer, t, Publish(i));
    longer, t := longer + [Publish(i)], Next(t, Publish(i)).value;
  }

  lemma InitialisingGoesOn(start: State, steps: seq<Step>, s: State, i: nat, writes: bool) returns (longer: seq<Step>, t: State)
    requires At(start, steps, s) && i < |s.callers| && s.callers[i].Initialising?
    ensures At(start, longer, t) && t.callers == s.callers[i := Idle]
    ensures t.written == s.written + if writes then [s.callers[i].batch] else []
    ensures t.cached == if writes then Some(Last(s.callers[i].batch)) else s.cached
  {
    Then(start, steps, s, Write(i, writes));
    longer, t := steps + [Write(i, writes)], Next(s, Write(i, writes)).value;
    if writes {
      Then(start, longer, t, Publish(i));
      longer, t := longer + [Publish(i)], Next(t, Publish(i)).value;
    }
  }

  /** From a nil head: what the store answers decides. */
  lemma NilGoesOn(start: State, steps: seq<Step>, s: State, i: nat, backend: Backend) returns (longer: seq<Step>, t: State)
    requires At(start, steps, s) && i < |s.callers| && s.callers[i].Nil? && s.cached.None? && backend.locked
    ensures At(start, longer, t) && Appended(s.(callers := s.callers[i := Idle]), s.callers[i].batch, backend, t)
  {
    var batch := s.callers[i].batch;
    Then(start, steps, s, Ask(i, backend.answer));
    longer, t := steps + [Ask(i, backend.answer)], Next(s, Ask(i, backend.answer)).value;
    match backend.answer
    case Broken =>
    case Empty => longer, t := InitialisingGoesOn(start, longer, t, i, backend.writes);
    case Found(h) =>
      Then(start, longer, t, Swap(i));
      longer, t := longer + [Swap(i)], Next(t, Swap(i)).value;
      longer, t := KnownGoesOn(start, longer, t, i, backend.writes);
  }

  /**
   * An append in the step system that nobody interrupts does what the method Append does: for every
   * state in which no caller holds the lock, and everything the wrapped store may do.
   */
  lemma LoneAppend(s: State, i: nat, batch: Batch, backend: Backend) returns (steps: seq<Step>, t: State)
    requires i < |s.callers| && s.callers[i].Idle? && Free(s)
    ensures At(s, steps, t) && Appended(s, batch, backend, t)
  {
    Then(s, [], s, BeginAppend(i, batch));
    steps, t := [] + [BeginAppend(i, batch)], Next(s, BeginAppend(i, batch)).value;
    if t.callers[i].Idle? {
      return;
    }
    if !backend.locked {
      Then(s, steps, t, GiveUp(i));
      return steps + [GiveUp(i)], Next(t, GiveUp(i)).value;
    }
    Then(s, steps, t, Lock(i));
    steps, t := steps + [Lock(i)], Next(t, Lock(i)).value;
    Then(s, steps, t, Load(i));
    steps, t := steps + [Load(i)], Next(t, Load(i)).value;
    assert t.callers[i := Idle] == s.callers;
    if s.cached.Some? {
      steps, t := KnownGoesOn(s, steps, t, i, backend.writes);
    } else {
      steps, t := NilGoesOn(s, steps, t, i, backend);
    }
  }
}
