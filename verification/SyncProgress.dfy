/**
 * What setLocalHead and the sync loop achieve while they interleave (sync/syncer_head.go,
 * sync/syncer.go): the step system of SubjectiveHead never gets stuck, a new head counts once its call
 * returns, and a sync that finishes has stored its target.
 */
module SyncProgress {
  import opened Headers
  import opened Runs
  import opened Ranges
  import opened SubjectiveHead
  import SS = SyncStore

  // ---------------------------------------------------------------- appends

  /**
   * An append of consecutive headers, seen by its first and last height, does what the wrapper of the
   * store does to its cached head: it is refused, moves the head to the end of the batch, or leaves it.
   */
  lemma AppendToIsAppend(head: Header, batch: seq<Header>)
    requires batch != [] && Consecutive(batch)
    ensures var after := AppendTo(head.height, batch[0].height, Last(batch).height);
            && (after.Some? <==> SS.Fits(SS.Found(head), batch))
            && (after.Some? ==> after.value == if SS.Advances(head, batch) then Last(batch).height else head.height)
  {
    if batch[0].height == head.height + 1 {
      forall i | 0 <= i < |batch| ensures batch[i].height == head.height + 1 + i {
        assert batch[i].height == batch[0].height + i;
      }
    }
  }

  // ---------------------------------------------------------------- calls


  /** Each call has a next step, which keeps its header or ends it. */
  lemma CallGoesOn(s: State, i: nat) returns (step: Step)
    requires i < |s.callers| && !s.callers[i].Idle?
    ensures OfCaller(step) && step.i == i && Next(s, step).Some?
    ensures Next(s, step).value.callers[i].Idle? || Next(s, step).value.callers[i].net == s.callers[i].net
  {
    return match s.callers[i]
      case Entered(_) => CallAppend(i, true)
      case Appended(_) => CallRead(i)
      case Pruning(_, _) => CallPrune(i)
      case Adding(_) => CallAdd(i);
  }

  /**
   * In every run: when a setLocalHead call ends, the subjective head is at its header or above, whatever
   * happened meanwhile.
   */
  lemma NewHeadCounts(start: State, steps: seq<Step>, s: State, step: Step)
    requires Start(start) && Exec(Machine(), start, steps) == Some(s)
    requires OfCaller(step) && Next(s, step).Some? && !s.callers[step.i].Idle? && Next(s, step).value.callers[step.i].Idle?
    ensures Subjective(Next(s, step).value) >= s.callers[step.i].net.height
  {
    ReachableSound(start, steps);
    assert CallerOk(s, s.callers[step.i]);
    SoundCallerStep(s, step);
    if step.CallAdd? {
      AddCounts(s.pending, s.callers[step.i].net, s.stored);
    }
  }

  lemma AddCounts(lists: Lists, net: Header, stored: nat)
    requires Separated(lists)
    ensures Top(Flat(AddTo(lists, net)), stored) >= net.height
  {
    AddAppends(lists, net);
  }

  // ---------------------------------------------------------------- the sync loop

  /** In every run the sync loop has a next step; its failures take it back to rest. */
  lemma SyncGoesOn(start: State, steps: seq<Step>, s: State) returns (step: Step)
    requires Start(start) && Exec(Machine(), start, steps) == Some(s)
    ensures !OfCaller(step) && Next(s, step).Some? && Next(s, step).value.sync != s.sync
  {
    ReachableSound(start, steps);
    return match s.sync
      case Resting => SeePending
      case SawPending(_) => SeeStore
      case Target(_) => SeeStore
      case SawStore(_, _) => PruneOwn
      case Looping(_, _) => First
      case HasRange(_, _) => Get
      case HasList(_, from, list) => if from + 1 < list[0].height then Request(1, false) else Apply(false)
      case Applied(_, _, _) => Remove
      case Finishing(to, from) => if from >= to then Finish else Request(1, false);
  }

  /** The append of a step is refused by the store's wrapper. */
  predicate AppendRefused(s: State, step: Step) {
    match step
    case Request(n, _) => (s.sync.HasList? || s.sync.Finishing?) && AppendTo(s.stored, s.sync.from + 1, s.sync.from + n).None?
    case Apply(_) => s.sync.HasList? && s.sync.list != []
                     && AppendTo(s.stored, s.sync.list[0].height, Last(s.sync.list).height).None?
    case _ => false
  }

  /** A sync comes to rest only when its target was stored at its start, it finishes, or a request or append fails. */
  lemma SyncRestsForAReason(s: State, step: Step)
    requires !OfCaller(step) && Next(s, step).Some? && !s.sync.Resting? && Next(s, step).value.sync.Resting?
    ensures || (step.PruneOwn? && s.sync.to <= s.sync.storeHead)
            || (step.Finish? && s.sync.to <= s.sync.from)
            || ((step.Request? || step.Apply?) && (!step.ok || AppendRefused(s, step)))
  {
  }

  /** No batch of the step starts below the stored head and ends above it. */
  predicate WithinStored(s: State, step: Step) {
    && (step.Apply? ==> ApplyIsGood(s))
    && (step.Request? && (s.sync.HasList? || s.sync.Finishing?) && s.sync.from + 1 < s.stored ==> s.sync.from + step.n <= s.stored)
  }

  function StrictMachine(): (State, Step) -> Option<State> {
    (s: State, step: Step) => if WithinStored(s, step) then Next(s, step) else None
  }

  /** The loop is not ahead of the stored head. */
  predicate FromStored(s: State) {
    s.sync.Looping? || s.sync.HasRange? || s.sync.HasList? || s.sync.Finishing? ==> s.sync.from <= s.stored
  }

  lemma StoredRises(s: State, step: Step)
    requires Inv(s) && Next(s, step).Some?
    ensures s.stored <= Next(s, step).value.stored
  {
  }

  lemma StepKeepsFrom(s: State, step: Step)
    requires Inv(s) && FromStored(s) && WithinStored(s, step) && Next(s, step).Some?
    ensures FromStored(Next(s, step).value)
  {
    StoredRises(s, step);
  }

  /**
   * In every run in which no batch is written across the stored head: when a sync that has read its
   * target comes to rest by finishing, everything up to the target is stored.
   */
  lemma FinishedSyncHasItsTarget(start: State, steps: seq<Step>, s: State)
    requires Start(start) && Exec(StrictMachine(), start, steps) == Some(s) && Next(s, Finish).Some?
    ensures s.sync.to <= s.stored && Next(s, Finish).value == s.(sync := Resting)
  {
    forall a, step | Inv(a) && FromStored(a) && StrictMachine()(a, step).Some?
      ensures Inv(StrictMachine()(a, step).value) && FromStored(StrictMachine()(a, step).value)
    {
      StepKeepsFrom(a, step);
      if OfCaller(step) {
        CallerStep(a, step);
      } else {
        SyncStep(a, step);
      }
    }
    InvariantHolds(StrictMachine(), a => Inv(a) && FromStored(a), start, steps);
  }
}
