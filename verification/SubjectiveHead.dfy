/**
 * The subjective head, the higher one of the pending head and the stored head, while the sync loop
 * (sync/syncer.go) and any number of setLocalHead calls (sync/syncer_head.go) interleave. Each method
 * of the pending ranges, and each append to or read of the store, is one step.
 */
module SubjectiveHead {
  import opened Headers
  import opened Runs
  import opened Ranges

  /** A setLocalHead call. */
  datatype Caller = Idle | Entered(net: Header) | Appended(net: Header) | Pruning(net: Header, storeHead: nat) | Adding(net: Header)

  /**
   * The sync loop: localHead reads the pending head, then the stored one; the stored head is read
   * again for pruning; processHeaders then takes a range, its list up to `to`, applies and removes it.
   */
  datatype Sync =
    | Resting | SawPending(pend: Option<Header>) | Target(to: nat) | SawStore(to: nat, storeHead: nat)
    | Looping(to: nat, from: nat) | HasRange(to: nat, from: nat) | HasList(to: nat, from: nat, list: seq<Header>)
    | Applied(to: nat, from: nat, list: seq<Header>) | Finishing(to: nat, from: nat)

  /** `held`: the range the sync loop has taken is still the first pending one. */
  datatype State = State(stored: nat, pending: Lists, held: bool, sync: Sync, callers: seq<Caller>)

  datatype Step =
    | SeePending | SeeStore | PruneOwn | First | Get | Request(n: nat, ok: bool) | Apply(ok: bool) | Remove | Finish
    | Enter(i: nat, net: Header) | CallAppend(i: nat, ok: bool) | CallRead(i: nat) | CallPrune(i: nat) | CallAdd(i: nat)

  /** syncStore.Append of the heights [first, last]: the new stored head, or None for a refusal. */
  function AppendTo(stored: nat, first: nat, last: nat): Option<nat> {
    if first < stored then Some(stored)
    else if first == stored + 1 then Some(last)
    else None
  }

  function Pruned(s: State, k: nat): State {
    s.(pending := PruneTo(s.pending, k), held := s.held && s.pending != [] && Above(s.pending[0], k) != [])
  }

  function CutFirst(lists: Lists, end: nat): Lists
    requires lists != []
  {
    lists[0 := Above(lists[0], end)]
  }

  function Taken(s: State, end: nat): seq<Header> {
    if s.held && s.pending != [] then s.pending[0][..Count(s.pending[0], end)] else []
  }

  function NextSync(s: State, step: Step): Option<State> {
    match (step, s.sync)
    case (SeePending, Resting) => Some(s.(sync := SawPending(HeadOf(s.pending))))
    case (SeeStore, SawPending(p)) =>
      Some(s.(sync := Target(if p.Some? && p.value.height > s.stored then p.value.height else s.stored)))
    case (SeeStore, Target(to)) => Some(s.(sync := SawStore(to, s.stored)))
    case (PruneOwn, SawStore(to, k)) => Some(Pruned(s, k).(sync := if k >= to then Resting else Looping(to, k)))
    case (First, Looping(to, from)) =>
      var left := DropEmpty(s.pending);
      Some(s.(pending := left, held := left != [], sync := if left == [] then Finishing(to, from) else HasRange(to, from)))
    case (Get, HasRange(to, from)) =>
      Some(s.(sync := if Taken(s, to) == [] then Finishing(to, from) else HasList(to, from, Taken(s, to))))
    // one turn of requestHeaders: n headers above `from` are fetched and appended
    case (Request(n, ok), HasList(to, from, list)) =>
      if n == 0 || list == [] || from + n >= list[0].height then None
      else
        var stored := AppendTo(s.stored, from + 1, from + n);
        Some(if !ok || stored.None? then s.(sync := Resting) else s.(stored := stored.value, sync := HasList(to, from + n, list)))
    case (Request(n, ok), Finishing(to, from)) =>
      if n == 0 || from + n > to then None
      else
        var stored := AppendTo(s.stored, from + 1, from + n);
        Some(if !ok || stored.None? then s.(sync := Resting) else s.(stored := stored.value, sync := Finishing(to, from + n)))
    case (Apply(ok), HasList(to, from, list)) =>
      if list == [] || from + 1 < list[0].height then None
      else
        var stored := AppendTo(s.stored, list[0].height, Last(list).height);
        Some(if !ok || stored.None? then s.(sync := Resting) else s.(stored := stored.value, sync := Applied(to, from, list)))
    case (Remove, Applied(to, from, list)) =>
      if list == [] then None
      else
        Some(s.(pending := if s.held && s.pending != [] then CutFirst(s.pending, to) else s.pending,
                held := false, sync := Looping(to, Last(list).height)))
    case (Finish, Finishing(to, from)) => if from >= to then Some(s.(sync := Resting)) else None
    case _ => None
  }

  function NextCaller(s: State, step: Step, i: nat): Option<State>
    requires i < |s.callers|
  {
    match (step, s.callers[i])
    case (Enter(_, net), Idle) => Some(Goto(s, i, Entered(net)))
    case (CallAppend(_, ok), Entered(net)) =>
      var stored := AppendTo(s.stored, net.height, net.height);
      Some(if ok && stored.Some? then Goto(s, i, Appended(net)).(stored := stored.value) else Goto(s, i, Appended(net)))
    case (CallRead(_), Appended(net)) =>
      Some(Goto(s, i, if s.stored >= net.height then Pruning(net, s.stored) else Adding(net)))
    case (CallPrune(_), Pruning(_, k)) => Some(Goto(Pruned(s, k), i, Idle))
    case (CallAdd(_), Adding(net)) => Some(Goto(s, i, Idle).(pending := AddTo(s.pending, net)))
    case _ => None
  }

  function Goto(s: State, i: nat, c: Caller): State
    requires i < |s.callers|
  {
    s.(callers := s.callers[i := c])
  }

  predicate OfCaller(step: Step) {
    step.Enter? || step.CallAppend? || step.CallRead? || step.CallPrune? || step.CallAdd?
  }

  function Next(s: State, step: Step): Option<State> {
    if OfCaller(step) then if step.i < |s.callers| then NextCaller(s, step, step.i) else None
    else NextSync(s, step)
  }

  function Subjective(s: State): nat {
    Top(Flat(s.pending), s.stored)
  }

  /**
   * The guard that decides: the batch of a pending range does not start below the stored head and
   * end above it, where it would be written without being published.
   */
  predicate ApplyIsGood(s: State) {
    s.sync.HasList? && s.sync.list != [] && s.sync.list[0].height < s.stored ==> Last(s.sync.list).height <= s.stored
  }

  function Machine(): (State, Step) -> Option<State> {
    (s: State, step: Step) => Next(s, step)
  }

  function GoodMachine(): (State, Step) -> Option<State> {
    (s: State, step: Step) => if step.Apply? && !ApplyIsGood(s) then None else Next(s, step)
  }

  // ---------------------------------------------------------------- what good runs keep

  predicate Has(hs: seq<Header>, n: nat) {
    exists i :: 0 <= i < |hs| && hs[i].height == n
  }

  predicate Holds(lists: Lists, n: nat) {
    Has(Flat(lists), n)
  }

  /** The target of a sync is stored already, or still pending. */
  predicate TargetOk(s: State, to: nat) {
    to <= s.stored || Holds(s.pending, to)
  }

  predicate HasTarget(p: Sync) {
    !p.Resting? && !p.SawPending?
  }

  /** Of the range the loop holds, nothing above the list it took is at or below the target. */
  predicate ListOk(s: State, to: nat, list: seq<Header>) {
    && list != [] && Consecutive(list)
    && (s.held && to > s.stored ==>
          s.pending != [] && forall i | 0 <= i < |s.pending[0]| && s.pending[0][i].height <= to :: s.pending[0][i].height <= Last(list).height)
  }

  predicate SyncOk(s: State) {
    && (s.sync.SawPending? && s.sync.pend.Some? ==> TargetOk(s, s.sync.pend.value.height))
    && (HasTarget(s.sync) ==> TargetOk(s, s.sync.to))
    && (s.sync.SawStore? ==> s.sync.storeHead <= s.stored)
    && (s.sync.HasRange? ==> s.held ==> s.pending != [])
    && (s.sync.HasList? || s.sync.Applied? ==> ListOk(s, s.sync.to, s.sync.list))
    && (s.sync.Applied? ==> Last(s.sync.list).height <= s.stored)
  }

  predicate CallerOk(s: State, c: Caller) {
    c.Pruning? ==> c.net.height <= c.storeHead <= s.stored
  }

  predicate Inv(s: State) {
    Separated(s.pending) && SyncOk(s) && forall i | 0 <= i < |s.callers| :: CallerOk(s, s.callers[i])
  }

  // ---------------------------------------------------------------- the ranges' methods

  lemma TopHolds(lists: Lists, n: nat)
    requires Separated(lists) && Holds(lists, n)
    ensures HeadOf(lists).Some? && HeadOf(lists).value.height >= n
  {
    HeadIsTop(lists);
    FlatAscends(lists);
    HasTop(Flat(lists), n);
  }

  lemma HasTop(hs: seq<Header>, n: nat)
    requires Ascending(hs) && Has(hs, n)
    ensures hs != [] && Last(hs).height >= n
  {
    var i :| 0 <= i < |hs| && hs[i].height == n;
    assert i < |hs| - 1 ==> hs[i].height < hs[|hs| - 1].height;
  }

  /** Dropping headers that are stored keeps the higher one of the top and the stored head, and all that is not stored. */
  lemma DropKeeps(hs: seq<Header>, c: nat, stored: nat, n: nat)
    requires c <= |hs| && forall i | 0 <= i < c :: hs[i].height <= stored
    ensures Top(hs[c..], stored) == Top(hs, stored)
    ensures n > stored && Has(hs, n) ==> Has(hs[c..], n)
  {
    if n > stored && Has(hs, n) {
      var i :| 0 <= i < |hs| && hs[i].height == n;
      assert hs[c..][i - c] == hs[i];
    }
  }

  /** Pruning up to a stored height keeps the subjective head and every pending header that is not stored. */
  lemma PruneKeeps(lists: Lists, k: nat, stored: nat, n: nat)
    requires Separated(lists) && k <= stored
    ensures Separated(PruneTo(lists, k)) && Top(Flat(PruneTo(lists, k)), stored) == Top(Flat(lists), stored)
    ensures n > stored && Holds(lists, n) ==> Holds(PruneTo(lists, k), n)
  {
    PruneKeepsSeparated(lists, k);
    PruneDropsExactly(lists, k);
    DropKeeps(Flat(lists), Count(Flat(lists), k), stored, n);
  }

  lemma AddKeeps(lists: Lists, h: Header, stored: nat, n: nat)
    requires Separated(lists)
    ensures Separated(AddTo(lists, h)) && Top(Flat(AddTo(lists, h)), stored) >= Top(Flat(lists), stored)
    ensures Holds(lists, n) ==> Holds(AddTo(lists, h), n)
  {
    AddAppends(lists, h);
    SnocKeeps(Flat(lists), h, n);
  }

  lemma SnocKeeps(hs: seq<Header>, h: Header, n: nat)
    ensures Has(hs, n) ==> Has(hs + [h], n)
  {
    if Has(hs, n) {
      var i :| 0 <= i < |hs| && hs[i].height == n;
      assert (hs + [h])[i] == hs[i];
    }
  }

  /** Removing up to `end` from the first range, all of it stored, does the same. */
  lemma CutKeeps(lists: Lists, end: nat, stored: nat, n: nat)
    requires Separated(lists) && lists != []
    requires forall i | 0 <= i < |lists[0]| && lists[0][i].height <= end :: lists[0][i].height <= stored
    ensures Separated(CutFirst(lists, end)) && Top(Flat(CutFirst(lists, end)), stored) == Top(Flat(lists), stored)
    ensures n > stored && Holds(lists, n) ==> Holds(CutFirst(lists, end), n)
  {
    CutKeepsSeparated(lists, Above(lists[0], end));
    FlatOfCut(lists, end);
    var c := Count(lists[0], end);
    assert forall i | 0 <= i < c :: Flat(lists)[i] == lists[0][i];
    DropKeeps(Flat(lists), c, stored, n);
  }

  lemma FlatOfCut(lists: Lists, end: nat)
    requires lists != []
    ensures Flat(CutFirst(lists, end)) == Flat(lists)[Count(lists[0], end)..]
  {
    assert CutFirst(lists, end)[1..] == lists[1..];
  }

  // ---------------------------------------------------------------- every step

  lemma PruneKeepsFirst(s: State, k: nat)
    ensures Pruned(s, k).held ==> s.held && s.pending != [] && Pruned(s, k).pending == CutFirst(s.pending, k)
  {
  }

  lemma PruneStep(s: State, k: nat)
    requires Inv(s) && k <= s.stored
    ensures Inv(Pruned(s, k)) && Subjective(Pruned(s, k)) == Subjective(s)
  {
    var t := Pruned(s, k);
    var target := if s.sync.SawPending? && s.sync.pend.Some? then s.sync.pend.value.height
                  else if HasTarget(s.sync) then s.sync.to else 0;
    PruneKeeps(s.pending, k, s.stored, target);
    assert TargetOk(s, target) ==> TargetOk(t, target);
    PruneKeepsFirst(s, k);
    assert forall i | 0 <= i < |t.callers| :: CallerOk(s, s.callers[i]);
  }

  lemma AddKeepsTarget(s: State, net: Header, n: nat)
    requires Separated(s.pending) && TargetOk(s, n)
    ensures TargetOk(s.(pending := AddTo(s.pending, net)), n)
  {
    AddKeeps(s.pending, net, s.stored, n);
  }

  /** A header added above the target does not come between the list taken and the target. */
  lemma AddKeepsList(s: State, net: Header, to: nat, list: seq<Header>)
    requires Separated(s.pending) && TargetOk(s, to) && ListOk(s, to, list)
    ensures ListOk(s.(pending := AddTo(s.pending, net)), to, list)
  {
    if to > s.stored {
      TopHolds(s.pending, to);
    }
  }

  lemma AddKeepsSync(s: State, net: Header)
    requires Separated(s.pending) && SyncOk(s)
    ensures SyncOk(s.(pending := AddTo(s.pending, net)))
  {
    if s.sync.SawPending? && s.sync.pend.Some? {
      AddKeepsTarget(s, net, s.sync.pend.value.height);
    }
    if HasTarget(s.sync) {
      AddKeepsTarget(s, net, s.sync.to);
    }
    if s.sync.HasList? || s.sync.Applied? {
      AddKeepsList(s, net, s.sync.to, s.sync.list);
    }
    assert s.pending != [] ==> AddTo(s.pending, net) != [];
  }

  lemma AddStep(s: State, net: Header)
    requires Inv(s)
    ensures var t := s.(pending := AddTo(s.pending, net)); Inv(t) && Subjective(t) >= Subjective(s)
  {
    AddKeeps(s.pending, net, s.stored, 0);
    AddKeepsSync(s, net);
    assert forall i | 0 <= i < |s.callers| :: CallerOk(s, s.callers[i]);
  }

  lemma StoreStep(s: State, stored: nat)
    requires Inv(s) && s.stored <= stored
    ensures Inv(s.(stored := stored)) && Subjective(s.(stored := stored)) >= Subjective(s)
  {
    assert forall i | 0 <= i < |s.callers| :: CallerOk(s, s.callers[i]);
  }

  lemma CallerStep(s: State, step: Step)
    requires Inv(s) && OfCaller(step) && Next(s, step).Some?
    ensures Inv(Next(s, step).value) && Subjective(Next(s, step).value) >= Subjective(s)
  {
    var i := step.i;
    assert CallerOk(s, s.callers[i]);
    match step
    case CallPrune(_) =>
      PruneStep(s, s.callers[i].storeHead);
      CallerMoves(Pruned(s, s.callers[i].storeHead), i, Idle);
    case CallAdd(_) =>
      AddStep(s, s.callers[i].net);
      CallerMoves(s.(pending := AddTo(s.pending, s.callers[i].net)), i, Idle);
    case CallAppend(_, _) =>
      StoreStep(s, Next(s, step).value.stored);
      CallerMoves(s.(stored := Next(s, step).value.stored), i, Next(s, step).value.callers[i]);
    case Enter(_, _) => CallerMoves(s, i, Next(s, step).value.callers[i]);
    case CallRead(_) => CallerMoves(s, i, Next(s, step).value.callers[i]);
    case _ =>
  }

  lemma CallerMoves(s: State, i: nat, c: Caller)
    requires Inv(s) && i < |s.callers| && CallerOk(s, c)
    ensures Inv(Goto(s, i, c)) && Subjective(Goto(s, i, c)) == Subjective(s)
  {
    assert forall j | 0 <= j < |s.callers| :: CallerOk(s, s.callers[j]);
  }

  lemma RemoveStep(s: State)
    requires Inv(s) && s.sync.Applied?
    ensures Next(s, Remove).Some?
    ensures Inv(Next(s, Remove).value) && Subjective(Next(s, Remove).value) == Subjective(s)
  {
    var to := s.sync.to;
    if s.held && s.pending != [] {
      CutKeeps(s.pending, to, s.stored, to);
    }
    assert forall i | 0 <= i < |s.callers| :: CallerOk(s, s.callers[i]);
  }

  lemma FirstStep(s: State)
    requires Inv(s) && Next(s, First).Some?
    ensures Inv(Next(s, First).value) && Subjective(Next(s, First).value) == Subjective(s)
  {
    DropEmptyKeeps(s.pending);
    assert forall i | 0 <= i < |s.callers| :: CallerOk(s, s.callers[i]);
  }

  lemma GetStep(s: State)
    requires Inv(s) && Next(s, Get).Some?
    ensures Inv(Next(s, Get).value) && Subjective(Next(s, Get).value) == Subjective(s)
  {
    assert forall i | 0 <= i < |s.callers| :: CallerOk(s, s.callers[i]);
  }

  lemma RequestStep(s: State, step: Step)
    requires Inv(s) && step.Request? && Next(s, step).Some?
    ensures Inv(Next(s, step).value) && Subjective(Next(s, step).value) >= Subjective(s)
  {
    StoreStep(s, Next(s, step).value.stored);
  }

  lemma ApplyStep(s: State, step: Step)
    requires Inv(s) && step.Apply? && ApplyIsGood(s) && Next(s, step).Some?
    ensures Inv(Next(s, step).value) && Subjective(Next(s, step).value) >= Subjective(s)
  {
    StoreStep(s, Next(s, step).value.stored);
  }

  lemma SyncStep(s: State, step: Step)
    requires Inv(s) && !OfCaller(step) && Next(s, step).Some? && (step.Apply? ==> ApplyIsGood(s))
    ensures Inv(Next(s, step).value) && Subjective(Next(s, step).value) >= Subjective(s)
  {
    match step
    case PruneOwn => PruneStep(s, s.sync.storeHead);
    case First => FirstStep(s);
    case Get => GetStep(s);
    case Remove => RemoveStep(s);
    case Request(_, _) => RequestStep(s, step);
    case Apply(_) => ApplyStep(s, step);
    case SeePending => SeeStep(s, step);
    case SeeStore => SeeStep(s, step);
    case _ =>
  }

  lemma SeeStep(s: State, step: Step)
    requires Inv(s) && (step.SeePending? || step.SeeStore?) && Next(s, step).Some?
    ensures Inv(Next(s, step).value) && Subjective(Next(s, step).value) == Subjective(s)
  {
    HeadIsTop(s.pending);
    assert forall i | 0 <= i < |s.callers| :: CallerOk(s, s.callers[i]);
  }

  // ---------------------------------------------------------------- runs

  predicate Start(s: State) {
    Separated(s.pending) && s.sync == Resting && forall i | 0 <= i < |s.callers| :: s.callers[i].Idle?
  }

  /** In every run whose range batches pass the guard, the subjective head never goes down. */
  lemma {:induction false} SubjectiveHeadNeverFalls(start: State, steps: seq<Step>, k: nat)
    requires Start(start) && k <= |steps| && Exec(GoodMachine(), start, steps).Some?
    ensures Exec(GoodMachine(), start, steps[..k]).Some? && Inv(Exec(GoodMachine(), start, steps).value)
    ensures Subjective(Exec(GoodMachine(), start, steps[..k]).value) <= Subjective(Exec(GoodMachine(), start, steps).value)
    decreases |steps|, |steps| - k
  {
    if |steps| > 0 {
      var front, last := steps[..|steps| - 1], steps[|steps| - 1];
      var s := Exec(GoodMachine(), start, front).value;
      SubjectiveHeadNeverFalls(start, front, if k < |steps| then k else 0);
      assert k < |steps| ==> front[..k] == steps[..k];
      if OfCaller(last) {
        CallerStep(s, last);
      } else {
        SyncStep(s, last);
      }
    }
    assert k == |steps| ==> steps[..k] == steps;
  }

  // ---------------------------------------------------------------- every run, whatever the batches

  /** What all runs keep, also those in which a batch is written without being published. */
  predicate Sound(s: State) {
    && Separated(s.pending)
    && (s.sync.SawStore? ==> s.sync.storeHead <= s.stored)
    && (s.sync.HasList? || s.sync.Applied? ==> s.sync.list != [] && Consecutive(s.sync.list))
    && (forall i | 0 <= i < |s.callers| :: CallerOk(s, s.callers[i]))
  }

  /** The loop is about to remove the highest pending header, and that one is not stored. */
  predicate DropsUnstoredTop(s: State) {
    && s.sync.Applied? && s.held && |s.pending| == 1 && s.pending[0] != []
    && s.stored < Last(s.pending[0]).height <= s.sync.to
  }

  lemma RemoveLowersExactlyWhen(s: State)
    requires Separated(s.pending) && Next(s, Remove).Some?
    ensures Subjective(Next(s, Remove).value) < Subjective(s) <==> DropsUnstoredTop(s)
  {
    if s.held && s.pending != [] {
      var lists := s.pending;
      var rest, left := Flat(lists[1..]), Above(lists[0], s.sync.to);
      assert CutFirst(lists, s.sync.to)[1..] == lists[1..];
      TopOfConcat(lists[0], rest, s.stored);
      TopOfConcat(left, rest, s.stored);
      RestIsEmpty(lists);
    }
  }

  lemma TopOfConcat(a: seq<Header>, b: seq<Header>, stored: nat)
    ensures Top(a + b, stored) == if b != [] then Top(b, stored) else Top(a, stored)
  {
    assert b == [] ==> a + b == a;
  }

  lemma RestIsEmpty(lists: Lists)
    requires Separated(lists) && lists != []
    ensures Flat(lists[1..]) == [] <==> |lists| == 1
  {
    if |lists| > 1 {
      assert Flat(lists[1..]) == lists[1..][0] + Flat(lists[1..][1..]);
      assert lists[1..][0] == lists[1] != [];
    }
  }

  lemma CallersStayOk(s: State, t: State)
    requires (forall i | 0 <= i < |s.callers| :: CallerOk(s, s.callers[i])) && t.callers == s.callers && s.stored <= t.stored
    ensures forall i | 0 <= i < |t.callers| :: CallerOk(t, t.callers[i])
  {
    forall i | 0 <= i < |t.callers| ensures CallerOk(t, t.callers[i]) {
      assert CallerOk(s, s.callers[i]);
    }
  }

  lemma SoundPruned(s: State, k: nat)
    requires Sound(s) && k <= s.stored
    ensures Sound(Pruned(s, k)) && Subjective(Pruned(s, k)) == Subjective(s)
  {
    PruneKeeps(s.pending, k, s.stored, 0);
    CallersStayOk(s, Pruned(s, k));
  }

  lemma SoundCallerStep(s: State, step: Step)
    requires Sound(s) && OfCaller(step) && Next(s, step).Some?
    ensures Sound(Next(s, step).value) && Subjective(Next(s, step).value) >= Subjective(s)
  {
    assert CallerOk(s, s.callers[step.i]);
    assert forall i | 0 <= i < |s.callers| :: CallerOk(s, s.callers[i]);
    match step
    case CallPrune(i) => SoundPruned(s, s.callers[i].storeHead);
    case CallAdd(i) => AddKeeps(s.pending, s.callers[i].net, s.stored, 0);
    case _ =>
  }

  lemma SoundPruneOwn(s: State)
    requires Sound(s) && Next(s, PruneOwn).Some?
    ensures Sound(Next(s, PruneOwn).value) && Subjective(Next(s, PruneOwn).value) == Subjective(s)
  {
    var to, k := s.sync.to, s.sync.storeHead;
    SoundPruned(s, k);
    SyncMoves(Pruned(s, k), if k >= to then Resting else Looping(to, k));
  }

  lemma SyncMoves(s: State, phase: Sync)
    requires Sound(s) && (phase.Resting? || phase.Looping?)
    ensures Sound(s.(sync := phase)) && Subjective(s.(sync := phase)) == Subjective(s)
  {
    CallersStayOk(s, s.(sync := phase));
  }

  lemma SoundFirst(s: State)
    requires Sound(s) && Next(s, First).Some?
    ensures Sound(Next(s, First).value) && Subjective(Next(s, First).value) == Subjective(s)
  {
    DropEmptyKeeps(s.pending);
    CallersStayOk(s, Next(s, First).value);
  }

  lemma SoundRemove(s: State)
    requires Sound(s) && Next(s, Remove).Some?
    ensures Sound(Next(s, Remove).value)
  {
    if s.pending != [] {
      CutKeepsSeparated(s.pending, Above(s.pending[0], s.sync.to));
    }
    CallersStayOk(s, Next(s, Remove).value);
  }

  lemma SoundStoreStep(s: State, step: Step)
    requires Sound(s) && (step.Request? || step.Apply?) && Next(s, step).Some?
    ensures Sound(Next(s, step).value) && Subjective(Next(s, step).value) >= Subjective(s)
  {
    CallersStayOk(s, Next(s, step).value);
  }

  lemma SoundSyncStep(s: State, step: Step)
    requires Sound(s) && !OfCaller(step) && Next(s, step).Some?
    ensures Sound(Next(s, step).value) && (step.Remove? || Subjective(Next(s, step).value) >= Subjective(s))
  {
    match step
    case PruneOwn => SoundPruneOwn(s);
    case First => SoundFirst(s);
    case Remove => SoundRemove(s);
    case Request(_, _) => SoundStoreStep(s, step);
    case Apply(_) => SoundStoreStep(s, step);
    case SeePending => CallersStayOk(s, Next(s, step).value);
    case SeeStore => CallersStayOk(s, Next(s, step).value);
    case Get => CallersStayOk(s, Next(s, step).value);
    case Finish => CallersStayOk(s, Next(s, step).value);
    case _ =>
  }

  lemma ReachableSound(start: State, steps: seq<Step>)
    requires Start(start)
    ensures var end := Exec(Machine(), start, steps); end.Some? ==> Sound(end.value)
  {
    forall s, step | Sound(s) && Machine()(s, step).Some? ensures Sound(Machine()(s, step).value) {
      if OfCaller(step) {
        SoundCallerStep(s, step);
      } else {
        SoundSyncStep(s, step);
      }
    }
    InvariantHolds(Machine(), s => Sound(s), start, steps);
  }

  /**
   * In every run, a step lowers the subjective head exactly when it is the removal of the highest
   * pending header by the sync loop and that header is not stored.
   */
  lemma RunLowersExactlyWhen(start: State, steps: seq<Step>, step: Step)
    requires Start(start) && Exec(Machine(), start, steps + [step]).Some?
    ensures Exec(Machine(), start, steps).Some?
    ensures var s, t := Exec(Machine(), start, steps).value, Exec(Machine(), start, steps + [step]).value;
            Subjective(t) < Subjective(s) <==> step.Remove? && DropsUnstoredTop(s)
  {
    assert (steps + [step])[..|steps|] == steps;
    ReachableSound(start, steps);
    var s := Exec(Machine(), start, steps).value;
    if OfCaller(step) {
      SoundCallerStep(s, step);
    } else if step.Remove? {
      RemoveLowersExactlyWhen(s);
    } else {
      SoundSyncStep(s, step);
    }
  }

  // ---------------------------------------------------------------- a run in which it falls

  predicate FiveSixSeven(list: seq<Header>) {
    |list| == 3 && list[0].height == 5 && list[1].height == 6 && list[2].height == 7
  }

  /** The sync loop takes 5, 6 and 7; late calls for 5 and 6 append them; then the loop stores and removes its list. */
  function FallStep(list: seq<Header>, k: nat): Step
    requires FiveSixSeven(list)
  {
    if k == 0 then SeePending
    else if k <= 2 then SeeStore
    else if k == 3 then PruneOwn
    else if k == 4 then First
    else if k == 5 then Get
    else if k == 6 then Enter(0, list[0])
    else if k == 7 then CallAppend(0, true)
    else if k == 8 then CallRead(0)
    else if k == 9 then CallPrune(0)
    else if k == 10 then Enter(0, list[1])
    else if k == 11 then CallAppend(0, true)
    else if k == 12 then Apply(true)
    else Remove
  }

  function AfterFall(list: seq<Header>, k: nat): State
    requires FiveSixSeven(list)
  {
    var taken := HasList(7, 4, list);
    if k == 0 then State(4, [list], false, Resting, [Idle])
    else if k == 1 then State(4, [list], false, SawPending(Some(list[2])), [Idle])
    else if k == 2 then State(4, [list], false, Target(7), [Idle])
    else if k == 3 then State(4, [list], false, SawStore(7, 4), [Idle])
    else if k == 4 then State(4, [list], false, Looping(7, 4), [Idle])
    else if k == 5 then State(4, [list], true, HasRange(7, 4), [Idle])
    else if k == 6 then State(4, [list], true, taken, [Idle])
    else if k == 7 then State(4, [list], true, taken, [Entered(list[0])])
    else if k == 8 then State(5, [list], true, taken, [Appended(list[0])])
    else if k == 9 then State(5, [list], true, taken, [Pruning(list[0], 5)])
    else if k == 10 then State(5, [list[1..]], true, taken, [Idle])
    else if k == 11 then State(5, [list[1..]], true, taken, [Entered(list[1])])
    else if k == 12 then State(6, [list[1..]], true, taken, [Appended(list[1])])
    else if k == 13 then State(6, [list[1..]], true, Applied(7, 4, list), [Appended(list[1])])
    else State(6, [[]], false, Looping(7, 7), [Appended(list[1])])
  }

  lemma CountsOfFall(list: seq<Header>)
    requires FiveSixSeven(list)
    ensures list[..Count(list, 7)] == list
    ensures PruneTo([list], 4) == [list] && PruneTo([list], 5) == [list[1..]] && CutFirst([list[1..]], 7) == [[]]
    ensures Above(list, 4) != [] && Above(list, 5) != []
    ensures Flat([list]) == list && Flat([[]]) == []
  {
    assert list[1].height > 5;
    assert Count(list, 4) == 0 && Count(list, 5) == 1 && Count(list, 7) == 3 && Count(list[1..], 7) == 2;
    assert Flat([list]) == list + Flat([list][1..]) && Flat([[]]) == [] + Flat([[]][1..]);
    assert [list][0 := list[1..]] == [list[1..]] && [list][0 := list] == [list];
  }

  lemma FallBegins(list: seq<Header>, k: nat)
    requires FiveSixSeven(list) && k < 6
    ensures Next(AfterFall(list, k), FallStep(list, k)) == Some(AfterFall(list, k + 1))
  {
    CountsOfFall(list);
  }

  lemma FirstCallInFall(list: seq<Header>, k: nat)
    requires FiveSixSeven(list) && 6 <= k < 10
    ensures Next(AfterFall(list, k), FallStep(list, k)) == Some(AfterFall(list, k + 1))
  {
    CountsOfFall(list);
    var next, want := Next(AfterFall(list, k), FallStep(list, k)).value, AfterFall(list, k + 1);
    assert next.callers == want.callers && next.pending == want.pending;
  }

  lemma SecondCallInFall(list: seq<Header>, k: nat)
    requires FiveSixSeven(list) && 10 <= k < 12
    ensures Next(AfterFall(list, k), FallStep(list, k)) == Some(AfterFall(list, k + 1))
  {
    CountsOfFall(list);
    var next, want := Next(AfterFall(list, k), FallStep(list, k)).value, AfterFall(list, k + 1);
    assert next.callers == want.callers && next.pending == want.pending;
  }

  lemma FallEnds(list: seq<Header>, k: nat)
    requires FiveSixSeven(list) && 12 <= k < 14
    ensures Next(AfterFall(list, k), FallStep(list, k)) == Some(AfterFall(list, k + 1))
  {
    CountsOfFall(list);
  }

  lemma {:induction false} FallRun(list: seq<Header>, k: nat) returns (steps: seq<Step>)
    requires FiveSixSeven(list) && k <= 14
    ensures |steps| == k && Exec(Machine(), AfterFall(list, 0), steps) == Some(AfterFall(list, k))
  {
    if k == 0 {
      return [];
    }
    var front := FallRun(list, k - 1);
    if k <= 6 {
      FallBegins(list, k - 1);
    } else if k <= 10 {
      FirstCallInFall(list, k - 1);
    } else if k <= 12 {
      SecondCallInFall(list, k - 1);
    } else {
      FallEnds(list, k - 1);
    }
    ExecSnoc(Machine(), AfterFall(list, 0), front, FallStep(list, k - 1));
    return front + [FallStep(list, k - 1)];
  }

  /**
   * It does happen: a run from the stored head 4 and the pending headers 5, 6 and 7 after which 7 is
   * neither stored nor pending.
   */
  lemma SubjectiveHeadCanFall(list: seq<Header>) returns (steps: seq<Step>)
    requires FiveSixSeven(list)
    ensures var start := State(4, [list], false, Resting, [Idle]);
            var end := Exec(Machine(), start, steps);
            Start(start) && Subjective(start) == 7 && end.Some? && Subjective(end.value) == 6
  {
    steps := FallRun(list, 14);
    CountsOfFall(list);
  }
}
