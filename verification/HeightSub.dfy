/**
 * Waiting for a height: an atomic height, and a lock-protected table of one signal channel per
 * awaited height. A step is one atomic access, one lock operation or one notified height, so every
 * interleaving of Wait, SetHeight, Notify and cancellation is a run.
 */
module HeightSub {
  import opened Headers
  import opened Runs

  /** A `sub`: `closes` counts how often its signal channel was closed. */
  datatype Sub = Sub(height: nat, count: int, closes: nat)

  /** Where a goroutine stands inside one call. `Checked` has read a height below `h` under the lock. */
  datatype Thread =
    | SetLoading(target: nat)
    | SetSwapping(target: nat, curr: nat)
    | SetLocking(target: nat, from: nat)
    | SetNotifying(target: nat, cur: nat)
    | WaitEntering(h: nat)
    | WaitLocking(h: nat)
    | WaitLocked(h: nat)
    | WaitChecked(h: nat)
    | WaitBlocked(h: nat, sub: nat)
    | WaitCancelled(h: nat, sub: nat)
    | NotifyLocking(heights: seq<nat>)
    | Notifying(heights: seq<nat>)

  /** `heightSubs` maps heights to indices into `subs`, which keeps every sub ever made. */
  datatype State = State(height: nat, lock: Option<nat>, heightSubs: map<nat, nat>, subs: seq<Sub>, threads: map<nat, Thread>)

  datatype Step =
    | Call(t: nat, call: Thread)  // a goroutine starts SetHeight, Wait or Notify
    | Move(t: nat)                // its next own step
    | Cancel(t: nat)              // its context ends while it is blocked

  const EMPTY := State(0, None, map[], [], map[])

  predicate IsCall(c: Thread) {
    c.SetLoading? || c.WaitEntering? || c.NotifyLocking?
  }

  function Leave(s: State, t: nat): State {
    s.(threads := s.threads - {t})
  }

  function Goto(s: State, t: nat, to: Thread): State {
    s.(threads := s.threads[t := to])
  }

  /** heightSub.notify, called with the lock held. */
  function NotifySub(s: State, h: nat, all: bool): State
    requires h in s.heightSubs ==> s.heightSubs[h] < |s.subs|
  {
    if h !in s.heightSubs then s
    else
      var i := s.heightSubs[h];
      var sac := s.subs[i].(count := s.subs[i].count - 1);
      if all || sac.count == 0
      then s.(subs := s.subs[i := sac.(closes := sac.closes + 1)], heightSubs := s.heightSubs - {h})
      else s.(subs := s.subs[i := sac])
  }

  /** The registration inside Wait: join the sub of h or make one. */
  function Register(s: State, t: nat, h: nat): State
    requires h in s.heightSubs ==> s.heightSubs[h] < |s.subs|
  {
    if h in s.heightSubs then
      var i := s.heightSubs[h];
      s.(subs := s.subs[i := s.subs[i].(count := s.subs[i].count + 1)], lock := None, threads := s.threads[t := WaitBlocked(h, i)])
    else
      s.(subs := s.subs + [Sub(h, 1, 0)], heightSubs := s.heightSubs[h := |s.subs|], lock := None,
         threads := s.threads[t := WaitBlocked(h, |s.subs|)])
  }

  predicate TableOk(s: State) {
    forall h | h in s.heightSubs :: s.heightSubs[h] < |s.subs| && s.subs[s.heightSubs[h]].height == h
                                    && s.subs[s.heightSubs[h]].closes == 0
  }

  function MoveSet(s: State, t: nat): Option<State>
    requires TableOk(s) && t in s.threads
  {
    match s.threads[t]
    case SetLoading(target) =>
      if target <= s.height then Some(Leave(s, t)) else Some(Goto(s, t, SetSwapping(target, s.height)))
    case SetSwapping(target, curr) =>
      if s.height == curr then Some(Goto(s.(height := target), t, SetLocking(target, curr)))
      else Some(Goto(s, t, SetLoading(target)))
    case SetLocking(target, from) =>
      if s.lock.None? then Some(Goto(s.(lock := Some(t)), t, SetNotifying(target, from))) else None
    case SetNotifying(target, cur) =>
      if cur <= target then Some(Goto(NotifySub(s, cur, true), t, SetNotifying(target, cur + 1)))
      else Some(Leave(s.(lock := None), t))
    case _ => None
  }

  function MoveWait(s: State, t: nat): Option<State>
    requires TableOk(s) && t in s.threads
  {
    match s.threads[t]
    case WaitEntering(h) =>
      if h <= s.height then Some(Leave(s, t)) else Some(Goto(s, t, WaitLocking(h)))
    case WaitLocking(h) =>
      if s.lock.None? then Some(Goto(s.(lock := Some(t)), t, WaitLocked(h))) else None
    case WaitLocked(h) =>
      if h <= s.height then Some(Leave(s.(lock := None), t)) else Some(Goto(s, t, WaitChecked(h)))
    case WaitChecked(h) => Some(Register(s, t, h))
    case WaitBlocked(h, i) =>
      if i < |s.subs| && s.subs[i].closes > 0 then Some(Leave(s, t)) else None
    case WaitCancelled(h, i) =>
      if s.lock.None? then Some(Leave(NotifySub(s, h, false), t)) else None
    case _ => None
  }

  function MoveNotify(s: State, t: nat): Option<State>
    requires TableOk(s) && t in s.threads
  {
    match s.threads[t]
    case NotifyLocking(hs) =>
      if s.lock.None? then Some(Goto(s.(lock := Some(t)), t, Notifying(hs))) else None
    case Notifying(hs) =>
      if hs == [] then Some(Leave(s.(lock := None), t))
      else Some(Goto(NotifySub(s, hs[0], true), t, Notifying(hs[1..])))
    case _ => None
  }

  function Next(s: State, step: Step): Option<State> {
    if !TableOk(s) then None else
    match step
    case Call(t, c) =>
      if t !in s.threads && IsCall(c) then Some(Goto(s, t, c)) else None
    case Move(t) =>
      if t !in s.threads then None
      else if MoveSet(s, t).Some? then MoveSet(s, t)
      else if MoveWait(s, t).Some? then MoveWait(s, t)
      else MoveNotify(s, t)
    case Cancel(t) =>
      if t in s.threads && s.threads[t].WaitBlocked?
      then Some(Goto(s, t, WaitCancelled(s.threads[t].h, s.threads[t].sub))) else None
  }

  function Machine(): (State, Step) -> Option<State> {
    (s, step) => Next(s, step)
  }

  // ---------------------------------------------------------------- invariant

  /** A SetHeight between its swap and the notification of h. */
  predicate Covers(c: Thread, h: nat) {
    (c.SetLocking? && c.from <= h <= c.target) || (c.SetNotifying? && c.cur <= h <= c.target)
  }

  ghost predicate Covered(s: State, h: nat) {
    exists t :: t in s.threads && Covers(s.threads[t], h)
  }

  predicate Holds(c: Thread) {
    c.SetNotifying? || c.WaitLocked? || c.WaitChecked? || c.Notifying?
  }

  /** Whoever is in a critical section has the lock, and the lock is never left behind. */
  ghost predicate LockOk(s: State) {
    && (forall t | t in s.threads && Holds(s.threads[t]) :: s.lock == Some(t))
    && (s.lock.Some? ==> s.lock.value in s.threads && Holds(s.threads[s.lock.value]))
  }

  /** Every waiter's sub is still in the table or its channel is closed, and never twice. */
  ghost predicate WaitersOk(s: State) {
    && (forall t | t in s.threads && (s.threads[t].WaitBlocked? || s.threads[t].WaitCancelled?) ::
          var c := s.threads[t];
          c.sub < |s.subs| && s.subs[c.sub].height == c.h
          && (s.subs[c.sub].closes > 0 || (c.h in s.heightSubs && s.heightSubs[c.h] == c.sub)))
    && (forall i | 0 <= i < |s.subs| :: s.subs[i].closes <= 1)
  }

  ghost predicate TableCovered(s: State) {
    forall h | h in s.heightSubs && h <= s.height :: Covered(s, h)
  }

  /** A registered or registering height that was reached is covered by a SetHeight on its way. */
  ghost predicate CoverOk(s: State) {
    && TableCovered(s)
    && (forall t | t in s.threads && s.threads[t].WaitChecked? && s.threads[t].h <= s.height :: Covered(s, s.threads[t].h))
    && (forall t | t in s.threads && s.threads[t].SetSwapping? :: s.threads[t].curr < s.threads[t].target)
  }

  ghost predicate Inv(s: State) {
    TableOk(s) && LockOk(s) && WaitersOk(s) && CoverOk(s)
  }

  lemma SwapKeepsCover(s: State, t: nat)
    requires LockOk(s) && CoverOk(s) && TableOk(s) && t in s.threads
    requires s.threads[t].SetLoading? || s.threads[t].SetSwapping? || s.threads[t].SetLocking?
    requires MoveSet(s, t).Some?
    ensures CoverOk(MoveSet(s, t).value)
  {
    var n := MoveSet(s, t).value;
    forall h | Covered(s, h) ensures Covered(n, h) {
      var u :| u in s.threads && Covers(s.threads[u], h);
      assert Covers(n.threads[u], h);
    }
    forall h | s.height < h <= n.height ensures Covered(n, h) {
      assert Covers(n.threads[t], h);
    }
  }

  lemma NotifyingKeepsCover(s: State, t: nat)
    requires LockOk(s) && CoverOk(s) && TableOk(s) && t in s.threads && s.threads[t].SetNotifying?
    ensures CoverOk(MoveSet(s, t).value)
  {
    var n := MoveSet(s, t).value;
    var cur, target := s.threads[t].cur, s.threads[t].target;
    forall h | h in n.heightSubs && h <= n.height ensures Covered(n, h) {
      assert Covered(s, h);
      var u :| u in s.threads && Covers(s.threads[u], h);
      assert h != cur || target < cur;
      assert Covers(n.threads[u], h);
    }
  }

  lemma NotifySubKeepsTables(s: State, h: nat, all: bool)
    requires TableOk(s) && WaitersOk(s)
    ensures TableOk(NotifySub(s, h, all)) && WaitersOk(NotifySub(s, h, all))
  {
  }

  lemma RegisterKeepsTables(s: State, t: nat, h: nat)
    requires TableOk(s) && WaitersOk(s)
    ensures TableOk(Register(s, t, h)) && WaitersOk(Register(s, t, h))
  {
  }

  lemma SetKeepsLock(s: State, t: nat)
    requires TableOk(s) && LockOk(s) && t in s.threads && MoveSet(s, t).Some?
    ensures LockOk(MoveSet(s, t).value)
  {
  }

  /** A move that only changes where a goroutine stands, and not to a blocked wait, keeps the tables. */
  lemma MovingKeepsTables(s: State, n: State, t: nat)
    requires TableOk(s) && WaitersOk(s)
    requires n.heightSubs == s.heightSubs && n.subs == s.subs
    requires n.threads.Keys <= s.threads.Keys
    requires forall u | u in n.threads && u != t :: n.threads[u] == s.threads[u]
    requires t in n.threads ==> !n.threads[t].WaitBlocked? && !n.threads[t].WaitCancelled?
    ensures TableOk(n) && WaitersOk(n)
  {
  }

  lemma SetKeepsTables(s: State, t: nat)
    requires TableOk(s) && WaitersOk(s) && t in s.threads && MoveSet(s, t).Some?
    ensures TableOk(MoveSet(s, t).value) && WaitersOk(MoveSet(s, t).value)
  {
    var n := MoveSet(s, t).value;
    if s.threads[t].SetNotifying? && s.threads[t].cur <= s.threads[t].target {
      var m := NotifySub(s, s.threads[t].cur, true);
      NotifySubKeepsTables(s, s.threads[t].cur, true);
      MovingKeepsTables(m, n, t);
    } else {
      MovingKeepsTables(s, n, t);
    }
  }

  lemma SetKeepsInv(s: State, t: nat)
    requires Inv(s) && t in s.threads && MoveSet(s, t).Some?
    ensures Inv(MoveSet(s, t).value)
  {
    SetKeepsLock(s, t);
    SetKeepsTables(s, t);
    if s.threads[t].SetNotifying? {
      NotifyingKeepsCover(s, t);
    } else {
      SwapKeepsCover(s, t);
    }
  }

  lemma WaitKeepsTableCover(s: State, t: nat)
    requires TableOk(s) && CoverOk(s) && t in s.threads && MoveWait(s, t).Some?
    ensures TableCovered(MoveWait(s, t).value)
  {
    var n := MoveWait(s, t).value;
    forall h | h in n.heightSubs && h <= n.height ensures Covered(n, h) {
      CoverStays(s, n, t, h);
    }
  }

  lemma WaitKeepsCover(s: State, t: nat)
    requires TableOk(s) && CoverOk(s) && t in s.threads && MoveWait(s, t).Some?
    ensures CoverOk(MoveWait(s, t).value)
  {
    var n := MoveWait(s, t).value;
    WaitKeepsTableCover(s, t);
    forall u | u in n.threads && n.threads[u].WaitChecked? && n.threads[u].h <= n.height ensures Covered(n, n.threads[u].h) {
      CoverStays(s, n, t, n.threads[u].h);
    }
  }

  lemma CoverStays(s: State, n: State, t: nat, h: nat)
    requires Covered(s, h) && t in s.threads && !Covers(s.threads[t], h)
    requires forall u | u in s.threads && u != t :: u in n.threads && n.threads[u] == s.threads[u]
    ensures Covered(n, h)
  {
    var u :| u in s.threads && Covers(s.threads[u], h);
    assert Covers(n.threads[u], h);
  }

  lemma WaitKeepsLock(s: State, t: nat)
    requires TableOk(s) && LockOk(s) && t in s.threads && MoveWait(s, t).Some?
    ensures LockOk(MoveWait(s, t).value)
  {
  }

  lemma WaitKeepsTables(s: State, t: nat)
    requires TableOk(s) && WaitersOk(s) && t in s.threads && MoveWait(s, t).Some?
    ensures TableOk(MoveWait(s, t).value) && WaitersOk(MoveWait(s, t).value)
  {
    var n := MoveWait(s, t).value;
    if s.threads[t].WaitChecked? {
      RegisterKeepsTables(s, t, s.threads[t].h);
    } else if s.threads[t].WaitCancelled? {
      NotifySubKeepsTables(s, s.threads[t].h, false);
      MovingKeepsTables(NotifySub(s, s.threads[t].h, false), n, t);
    } else {
      MovingKeepsTables(s, n, t);
    }
  }

  lemma WaitKeepsInv(s: State, t: nat)
    requires Inv(s) && t in s.threads && MoveWait(s, t).Some?
    ensures Inv(MoveWait(s, t).value)
  {
    WaitKeepsCover(s, t);
    WaitKeepsLock(s, t);
    WaitKeepsTables(s, t);
  }

  lemma NotifyKeepsTables(s: State, t: nat)
    requires TableOk(s) && WaitersOk(s) && t in s.threads && MoveNotify(s, t).Some?
    ensures TableOk(MoveNotify(s, t).value) && WaitersOk(MoveNotify(s, t).value)
  {
    var n := MoveNotify(s, t).value;
    if s.threads[t].Notifying? && s.threads[t].heights != [] {
      NotifySubKeepsTables(s, s.threads[t].heights[0], true);
      MovingKeepsTables(NotifySub(s, s.threads[t].heights[0], true), n, t);
    } else {
      MovingKeepsTables(s, n, t);
    }
  }

  lemma NotifyKeepsCover(s: State, t: nat)
    requires TableOk(s) && LockOk(s) && CoverOk(s) && t in s.threads && MoveNotify(s, t).Some?
    ensures CoverOk(MoveNotify(s, t).value) && LockOk(MoveNotify(s, t).value)
  {
    var n := MoveNotify(s, t).value;
    forall h | Covered(s, h) ensures Covered(n, h) {
      var u :| u in s.threads && Covers(s.threads[u], h);
      assert Covers(n.threads[u], h);
    }
  }

  lemma NotifyKeepsInv(s: State, t: nat)
    requires Inv(s) && t in s.threads && MoveNotify(s, t).Some?
    ensures Inv(MoveNotify(s, t).value)
  {
    NotifyKeepsTables(s, t);
    NotifyKeepsCover(s, t);
  }

  lemma StepKeepsInv(s: State, step: Step)
    requires Inv(s) && Next(s, step).Some?
    ensures Inv(Next(s, step).value)
  {
    match step
    case Move(t) =>
      if MoveSet(s, t).Some? { SetKeepsInv(s, t); }
      else if MoveWait(s, t).Some? { WaitKeepsInv(s, t); }
      else { NotifyKeepsInv(s, t); }
    case _ =>
      var n := Next(s, step).value;
      forall h | Covered(s, h) ensures Covered(n, h) {
        var u :| u in s.threads && Covers(s.threads[u], h);
        assert Covers(n.threads[u], h);
      }
  }

  lemma ReachableInv(steps: seq<Step>)
    ensures var end := Exec(Machine(), EMPTY, steps); end.Some? ==> Inv(end.value)
  {
    forall s, a | Inv(s) && Machine()(s, a).Some? ensures Inv(Machine()(s, a).value) {
      StepKeepsInv(s, a);
    }
    InvariantHolds(Machine(), s => Inv(s), EMPTY, steps);
  }

  // ---------------------------------------------------------------- what every run keeps

  /**
   * No wake-up is lost, in any interleaving: a blocked waiter whose height was reached either has
   * its channel closed or is covered by a SetHeight that has still to notify it; its sub is in the
   * table or closed; no channel is closed twice.
   */
  lemma NoLostWakeup(steps: seq<Step>, s: State)
    requires Exec(Machine(), EMPTY, steps) == Some(s)
    ensures forall t | t in s.threads && s.threads[t].WaitBlocked? ::
              && s.threads[t].sub < |s.subs|
              && (s.subs[s.threads[t].sub].closes > 0
                  || (s.threads[t].h in s.heightSubs && s.heightSubs[s.threads[t].h] == s.threads[t].sub))
              && (s.threads[t].h <= s.height ==> s.subs[s.threads[t].sub].closes > 0 || Covered(s, s.threads[t].h))
    ensures forall i | 0 <= i < |s.subs| :: s.subs[i].closes <= 1
  {
    ReachableInv(steps);
  }

  /** Once no SetHeight is under way, every waiter whose height was reached can return. */
  lemma QuiescentWaitersReturn(steps: seq<Step>, s: State, t: nat)
    requires Exec(Machine(), EMPTY, steps) == Some(s)
    requires forall u | u in s.threads :: !s.threads[u].SetLocking? && !s.threads[u].SetNotifying?
    requires t in s.threads && s.threads[t].WaitBlocked? && s.threads[t].h <= s.height
    ensures Next(s, Move(t)) == Some(Leave(s, t))
  {
    ReachableInv(steps);
  }

  predicate Asleep(s: State, c: Thread) {
    c.WaitBlocked? && c.sub < |s.subs| && s.subs[c.sub].closes == 0
  }

  /** In every run: as long as somebody is not asleep on an open channel, somebody can go on. */
  lemma NoDeadlock(steps: seq<Step>, s: State, t: nat) returns (u: nat)
    requires Exec(Machine(), EMPTY, steps) == Some(s) && t in s.threads && !Asleep(s, s.threads[t])
    ensures u in s.threads && Next(s, Move(u)).Some?
  {
    ReachableInv(steps);
    u := if s.lock.Some? then s.lock.value else t;
  }

  lemma StepRaisesHeight(s: State, step: Step)
    requires CoverOk(s) && Next(s, step).Some?
    ensures s.height <= Next(s, step).value.height
  {
  }

  lemma {:induction false} HeightNeverFalls(steps: seq<Step>, k: nat)
    requires k <= |steps| && Exec(Machine(), EMPTY, steps).Some?
    ensures Exec(Machine(), EMPTY, steps[..k]).Some?
    ensures Exec(Machine(), EMPTY, steps[..k]).value.height <= Exec(Machine(), EMPTY, steps).value.height
  {
    if k == |steps| {
      assert steps[..k] == steps;
    } else {
      var front := steps[..|steps| - 1];
      HeightNeverFalls(front, k);
      assert front[..k] == steps[..k];
      ReachableInv(front);
      StepRaisesHeight(Exec(Machine(), EMPTY, front).value, steps[|steps| - 1]);
    }
  }

  // ---------------------------------------------------------------- what a call has done when it returns

  predicate Setting(c: Thread) {
    c.SetLoading? || c.SetSwapping? || c.SetLocking? || c.SetNotifying?
  }

  predicate WaitingCall(c: Thread) {
    c.WaitEntering? || c.WaitLocking? || c.WaitLocked? || c.WaitChecked? || c.WaitBlocked? || c.WaitCancelled?
  }

  /** A SetHeight past its swap has raised the height. */
  predicate TargetsReached(s: State) {
    forall t | t in s.threads && (s.threads[t].SetLocking? || s.threads[t].SetNotifying?) :: s.threads[t].target <= s.height
  }

  lemma SetKeepsTargets(s: State, t: nat)
    requires TableOk(s) && CoverOk(s) && TargetsReached(s) && t in s.threads && MoveSet(s, t).Some?
    ensures TargetsReached(MoveSet(s, t).value)
  {
  }

  lemma WaitKeepsTargets(s: State, t: nat)
    requires TableOk(s) && TargetsReached(s) && t in s.threads && MoveWait(s, t).Some?
    ensures TargetsReached(MoveWait(s, t).value)
  {
  }

  lemma NotifyKeepsTargets(s: State, t: nat)
    requires TableOk(s) && TargetsReached(s) && t in s.threads && MoveNotify(s, t).Some?
    ensures TargetsReached(MoveNotify(s, t).value)
  {
  }

  lemma StepKeepsTargets(s: State, step: Step)
    requires Inv(s) && TargetsReached(s) && Next(s, step).Some?
    ensures TargetsReached(Next(s, step).value)
  {
    match step
    case Move(t) =>
      if MoveSet(s, t).Some? { SetKeepsTargets(s, t); }
      else if MoveWait(s, t).Some? { WaitKeepsTargets(s, t); }
      else { NotifyKeepsTargets(s, t); }
    case _ =>
  }

  lemma ReachableTargets(steps: seq<Step>)
    ensures var end := Exec(Machine(), EMPTY, steps); end.Some? ==> Inv(end.value) && TargetsReached(end.value)
  {
    forall s, a | Inv(s) && TargetsReached(s) && Machine()(s, a).Some?
      ensures Inv(Machine()(s, a).value) && TargetsReached(Machine()(s, a).value)
    {
      StepKeepsInv(s, a);
      StepKeepsTargets(s, a);
    }
    InvariantHolds(Machine(), s => Inv(s) && TargetsReached(s), EMPTY, steps);
  }

  /** Another SetHeight than t's has still to notify h. */
  ghost predicate CoveredByOther(s: State, t: nat, h: nat) {
    exists u :: u != t && u in s.threads && Covers(s.threads[u], h)
  }

  /**
   * In every run: when a SetHeight returns, its target is reached. A waiter at or below it still sleeps
   * exactly when its channel is registered, and then another SetHeight under way has still to notify it.
   * A call that goes on keeps its target.
   */
  lemma SetHeightReturnsReached(steps: seq<Step>, s: State, t: nat)
    requires Exec(Machine(), EMPTY, steps) == Some(s)
    requires t in s.threads && Setting(s.threads[t]) && Next(s, Move(t)).Some?
    ensures var n := Next(s, Move(t)).value;
            if t in n.threads then Setting(n.threads[t]) && n.threads[t].target == s.threads[t].target
            else
              && s.threads[t].target <= n.height
              && (forall u | u in n.threads && n.threads[u].WaitBlocked? && n.threads[u].h <= s.threads[t].target ::
                    && n.threads[u].sub < |n.subs|
                    && (Asleep(n, n.threads[u]) <==> n.threads[u].h in n.heightSubs && n.heightSubs[n.threads[u].h] == n.threads[u].sub)
                    && (Asleep(n, n.threads[u]) ==> CoveredByOther(n, t, n.threads[u].h)))
  {
    ReachableTargets(steps);
    var n := Next(s, Move(t)).value;
    if t !in n.threads {
      SetKeepsInv(s, t);
      forall h | Covered(n, h) ensures CoveredByOther(n, t, h) {
        var u :| u in n.threads && Covers(n.threads[u], h);
        assert u != t;
      }
    }
  }

  /** In every run: a Wait returns only when its height is reached, its channel is closed, or it was cancelled. */
  lemma WaitReturnsForAReason(steps: seq<Step>, s: State, t: nat)
    requires Exec(Machine(), EMPTY, steps) == Some(s)
    requires t in s.threads && WaitingCall(s.threads[t]) && Next(s, Move(t)).Some?
    ensures var c, n := s.threads[t], Next(s, Move(t)).value;
            if t in n.threads then WaitingCall(n.threads[t]) && n.threads[t].h == c.h
            else c.h <= n.height || c.WaitCancelled? || (c.WaitBlocked? && c.sub < |n.subs| && n.subs[c.sub].closes > 0)
  {
  }

  // ---------------------------------------------------------------- one call, alone

  /** After the channels of the registered heights in `woken` are closed, and nothing else changed. */
  ghost predicate Woken(s: State, woken: set<nat>, t: State) {
    && t.height == s.height && |t.subs| == |s.subs|
    && (forall h :: h in t.heightSubs <==> h in s.heightSubs && h !in woken)
    && (forall h | h in t.heightSubs :: t.heightSubs[h] == s.heightSubs[h])
    && (forall h | h in s.heightSubs :: s.heightSubs[h] < |s.subs|)
    && (forall h | h in s.heightSubs && h in woken :: t.subs[s.heightSubs[h]].closes > 0)
    && (forall i | 0 <= i < |s.subs| :: s.subs[i].closes <= t.subs[i].closes)
    && (forall i | 0 <= i < |s.subs| && s.subs[i].height !in woken :: t.subs[i] == s.subs[i])
  }

  lemma NotifyOneWakes(s: State, h: nat)
    requires TableOk(s)
    ensures var n := NotifySub(s, h, true); Woken(s, {h}, n) && TableOk(n) && n.threads == s.threads && n.lock == s.lock
    ensures SameHeights(s, NotifySub(s, h, true))
  {
  }

  predicate SameHeights(s: State, t: State) {
    |s.subs| == |t.subs| && forall i | 0 <= i < |s.subs| :: t.subs[i].height == s.subs[i].height
  }

  lemma WokenMoves(s: State, woken: set<nat>, m: State, t: nat, to: Thread)
    requires Woken(s, woken, m) && TableOk(m)
    ensures Woken(s, woken, Goto(m, t, to)) && TableOk(Goto(m, t, to))
  {
  }

  lemma WokenTwice(a: State, x: set<nat>, b: State, y: set<nat>, c: State)
    requires TableOk(a) && Woken(a, x, b) && Woken(b, y, c)
    requires SameHeights(a, b)
    ensures Woken(a, x + y, c)
  {
  }

  predicate At(start: State, steps: seq<Step>, s: State) {
    Exec(Machine(), start, steps) == Some(s)
  }

  predicate InRange(low: nat, h: nat, high: nat) {
    low <= h <= high
  }

  function Heights(low: nat, high: nat): set<nat> {
    set h: nat | h <= high && InRange(low, h, high)
  }

  lemma NotifyStep(start: State, steps: seq<Step>, s: State, t: nat, cur: nat, target: nat) returns (n: State)
    requires At(start, steps, s) && TableOk(s) && Notifies(s, t, cur, target) && cur <= target
    ensures At(start, steps + [Move(t)], n) && TableOk(n) && SameHeights(s, n) && Woken(s, {cur}, n)
    ensures Notifies(n, t, cur + 1, target) && OthersStay(s, n, t)
  {
    n := NotifyMove(s, t, cur, target);
    ExecSnoc(Machine(), start, steps, Move(t));
  }

  lemma NotifyMove(s: State, t: nat, cur: nat, target: nat) returns (n: State)
    requires TableOk(s) && Notifies(s, t, cur, target) && cur <= target
    ensures Next(s, Move(t)) == Some(n) && TableOk(n) && SameHeights(s, n) && Woken(s, {cur}, n)
    ensures Notifies(n, t, cur + 1, target) && OthersStay(s, n, t)
  {
    var m := NotifySub(s, cur, true);
    NotifyOneWakes(s, cur);
    WokenMoves(s, {cur}, m, t, SetNotifying(target, cur + 1));
    n := Goto(m, t, SetNotifying(target, cur + 1));
  }

  /** The other goroutines stand where they stood. */
  predicate OthersStay(s: State, n: State, t: nat) {
    && (forall u | u in s.threads && u != t :: u in n.threads && n.threads[u] == s.threads[u])
    && (forall u | u in n.threads && u != t :: u in s.threads)
  }

  lemma LastNotifyStep(start: State, steps: seq<Step>, s: State, t: nat, cur: nat, target: nat) returns (n: State)
    requires At(start, steps, s) && TableOk(s) && Notifies(s, t, cur, target) && target < cur
    ensures At(start, steps + [Move(t)], n) && Woken(s, Heights(cur, target), n)
    ensures n.lock == None && t !in n.threads && OthersStay(s, n, t)
  {
    assert Heights(cur, target) == {};
    ExecSnoc(Machine(), start, steps, Move(t));
    n := MoveSet(s, t).value;
  }

  predicate Notifies(s: State, t: nat, cur: nat, target: nat) {
    t in s.threads && s.threads[t] == SetNotifying(target, cur)
  }

  /** The notifying loop of SetHeight, alone. */
  lemma {:induction false} NotifyUpTo(start: State, steps: seq<Step>, s: State, t: nat, cur: nat, target: nat)
    returns (longer: seq<Step>, e: State)
    requires At(start, steps, s) && TableOk(s) && Notifies(s, t, cur, target)
    ensures At(start, longer, e) && Woken(s, Heights(cur, target), e)
    ensures e.lock == None && t !in e.threads && OthersStay(s, e, t)
    decreases target + 1 - cur
  {
    longer := steps + [Move(t)];
    if cur > target {
      e := LastNotifyStep(start, steps, s, t, cur, target);
    } else {
      var n := NotifyStep(start, steps, s, t, cur, target);
      longer, e := NotifyUpTo(start, longer, n, t, cur + 1, target);
      WokenFrom(s, cur, target, n, e);
    }
  }

  lemma WokenFrom(s: State, cur: nat, target: nat, n: State, e: State)
    requires TableOk(s) && SameHeights(s, n) && cur <= target
    requires Woken(s, {cur}, n) && Woken(n, Heights(cur + 1, target), e)
    ensures Woken(s, Heights(cur, target), e)
  {
    WokenTwice(s, {cur}, n, Heights(cur + 1, target), e);
    assert {cur} + Heights(cur + 1, target) == Heights(cur, target);
  }

  /** The calls up to the notifying loop: load, swap, lock. */
  lemma SetHeightBegins(s: State, t: nat, target: nat) returns (steps: seq<Step>, e: State)
    requires TableOk(s) && s.lock == None && t !in s.threads && s.height < target
    ensures At(s, steps, e)
    ensures e == s.(height := target, lock := Some(t), threads := s.threads[t := SetNotifying(target, s.height)])
  {
    var one := [Call(t, SetLoading(target))];
    assert Exec(Machine(), s, []) == Some(s);
    ExecSnoc(Machine(), s, [], Call(t, SetLoading(target)));
    assert [] + one == one;
    var two := one + [Move(t)];
    ExecSnoc(Machine(), s, one, Move(t));
    var three := two + [Move(t)];
    ExecSnoc(Machine(), s, two, Move(t));
    steps := three + [Move(t)];
    ExecSnoc(Machine(), s, three, Move(t));
    e := s.(height := target, lock := Some(t), threads := s.threads[t := SetNotifying(target, s.height)]);
    assert e.threads == s.threads[t := SetLoading(target)][t := SetSwapping(target, s.height)][t := SetLocking(target, s.height)]
                         [t := SetNotifying(target, s.height)];
  }

  predicate Quiet(s: State) {
    forall u | u in s.threads :: !s.threads[u].SetLocking? && !s.threads[u].SetNotifying?
  }

  lemma NothingLeftBelow(s: State, h: nat)
    requires CoverOk(s) && Quiet(s) && h in s.heightSubs
    ensures s.height < h
  {
    assert h <= s.height ==> Covered(s, h);
  }

  /**
   * From every reached state with the lock free and no other SetHeight under way, SetHeight alone ends
   * with the height at its target; every waiter at or below the target can return, no registered height
   * is left there, and the waiters above it sleep on.
   */
  lemma SetHeightAlone(before: seq<Step>, s: State, t: nat, target: nat) returns (steps: seq<Step>, e: State)
    requires Exec(Machine(), EMPTY, before) == Some(s) && s.lock == None && Quiet(s) && t !in s.threads && s.height < target
    ensures At(s, steps, e) && e.height == target && e.lock == None && e.threads == s.threads
    ensures forall h :: h in e.heightSubs <==> h in s.heightSubs && target < h
    ensures forall u | u in e.threads && e.threads[u].WaitBlocked? && e.threads[u].h <= target :: Next(e, Move(u)) == Some(Leave(e, u))
    ensures |e.subs| == |s.subs|
    ensures forall u | u in e.threads && e.threads[u].WaitBlocked? && target < e.threads[u].h ::
              e.threads[u].sub < |s.subs| && e.subs[e.threads[u].sub] == s.subs[e.threads[u].sub]
  {
    ReachableInv(before);
    var begun, b := SetHeightBegins(s, t, target);
    steps, e := NotifyUpTo(s, begun, b, t, s.height, target);
    assert e.threads == s.threads;
    forall h: nat | h in s.heightSubs ensures s.height < h {
      NothingLeftBelow(s, h);
    }
    assert TableOk(e);
  }

  function SetOf(heights: seq<nat>): set<nat> {
    set h | h in heights
  }

  lemma NotifyNext(start: State, steps: seq<Step>, s: State, t: nat) returns (n: State)
    requires At(start, steps, s) && TableOk(s) && t in s.threads && s.threads[t].Notifying? && s.threads[t].heights != []
    ensures At(start, steps + [Move(t)], n) && TableOk(n) && SameHeights(s, n) && Woken(s, {s.threads[t].heights[0]}, n)
    ensures n.threads == s.threads[t := Notifying(s.threads[t].heights[1..])]
  {
    var hs := s.threads[t].heights;
    NotifyOneWakes(s, hs[0]);
    WokenMoves(s, {hs[0]}, NotifySub(s, hs[0], true), t, Notifying(hs[1..]));
    ExecSnoc(Machine(), start, steps, Move(t));
    n := MoveNotify(s, t).value;
  }

  /** The loop of Notify, alone: exactly the channels of the given heights are closed. */
  lemma {:induction false} NotifyAlone(start: State, steps: seq<Step>, s: State, t: nat) returns (longer: seq<Step>, e: State)
    requires At(start, steps, s) && TableOk(s) && t in s.threads && s.threads[t].Notifying?
    ensures At(start, longer, e) && Woken(s, SetOf(s.threads[t].heights), e)
    ensures e.lock == None && e.threads == s.threads - {t}
    decreases |s.threads[t].heights|
  {
    var hs := s.threads[t].heights;
    if hs == [] {
      ExecSnoc(Machine(), start, steps, Move(t));
      return steps + [Move(t)], MoveNotify(s, t).value;
    }
    var n := NotifyNext(start, steps, s, t);
    longer, e := NotifyAlone(start, steps + [Move(t)], n, t);
    assert e.threads == s.threads - {t};
    WokenTwice(s, {hs[0]}, n, SetOf(hs[1..]), e);
    assert hs == [hs[0]] + hs[1..];
    assert {hs[0]} + SetOf(hs[1..]) == SetOf(hs);
  }

  /** With the lock free, a whole Notify call closes exactly the channels of its heights. */
  lemma NotifyCallAlone(s: State, t: nat, heights: seq<nat>) returns (steps: seq<Step>, e: State)
    requires TableOk(s) && s.lock == None && t !in s.threads
    ensures At(s, steps, e) && Woken(s, SetOf(heights), e) && e.lock == None && e.threads == s.threads
  {
    assert Exec(Machine(), s, []) == Some(s);
    ExecSnoc(Machine(), s, [], Call(t, NotifyLocking(heights)));
    var called := [] + [Call(t, NotifyLocking(heights))];
    ExecSnoc(Machine(), s, called, Move(t));
    var begun := s.(lock := Some(t), threads := s.threads[t := Notifying(heights)]);
    assert s.threads[t := NotifyLocking(heights)][t := Notifying(heights)] == s.threads[t := Notifying(heights)];
    steps, e := NotifyAlone(s, called + [Move(t)], begun, t);
    assert e.threads == s.threads;
  }

  // ---------------------------------------------------------------- a SetHeight overtaken by another

  /** A waiter at 5, a SetHeight to 7 that has raised the height, and a SetHeight to 5. */
  function OvertakenStep(k: nat): Step {
    if k == 0 then Call(0, WaitEntering(5))
    else if k <= 4 then Move(0)
    else if k == 5 then Call(1, SetLoading(7))
    else if k <= 7 then Move(1)
    else if k == 8 then Call(2, SetLoading(5))
    else Move(2)
  }

  function AfterOvertaken(k: nat): State {
    var waiting := map[5 := 0];
    var subs := [Sub(5, 1, 0)];
    if k == 0 then EMPTY
    else if k == 1 then State(0, None, map[], [], map[0 := WaitEntering(5)])
    else if k == 2 then State(0, None, map[], [], map[0 := WaitLocking(5)])
    else if k == 3 then State(0, Some(0), map[], [], map[0 := WaitLocked(5)])
    else if k == 4 then State(0, Some(0), map[], [], map[0 := WaitChecked(5)])
    else if k == 5 then State(0, None, waiting, subs, map[0 := WaitBlocked(5, 0)])
    else if k == 6 then State(0, None, waiting, subs, map[0 := WaitBlocked(5, 0), 1 := SetLoading(7)])
    else if k == 7 then State(0, None, waiting, subs, map[0 := WaitBlocked(5, 0), 1 := SetSwapping(7, 0)])
    else if k == 8 then State(7, None, waiting, subs, map[0 := WaitBlocked(5, 0), 1 := SetLocking(7, 0)])
    else if k == 9 then State(7, None, waiting, subs, map[0 := WaitBlocked(5, 0), 1 := SetLocking(7, 0), 2 := SetLoading(5)])
    else State(7, None, waiting, subs, map[0 := WaitBlocked(5, 0), 1 := SetLocking(7, 0)])
  }

  lemma WaiterInOvertaken(k: nat)
    requires k < 5
    ensures Next(AfterOvertaken(k), OvertakenStep(k)) == Some(AfterOvertaken(k + 1))
  {
    var n, want := Next(AfterOvertaken(k), OvertakenStep(k)).value, AfterOvertaken(k + 1);
    assert n.threads == want.threads && n.subs == want.subs && n.heightSubs == want.heightSubs;
  }

  lemma SettersInOvertaken(k: nat)
    requires 5 <= k < 10
    ensures Next(AfterOvertaken(k), OvertakenStep(k)) == Some(AfterOvertaken(k + 1))
  {
    var n, want := Next(AfterOvertaken(k), OvertakenStep(k)).value, AfterOvertaken(k + 1);
    assert n.threads == want.threads;
  }

  /** It does happen that SetHeight(5) returns while a waiter at 5 still sleeps. */
  lemma {:induction false} OvertakenSetHeight(k: nat) returns (steps: seq<Step>)
    requires k <= 10
    ensures At(EMPTY, steps, AfterOvertaken(k))
    ensures 2 in AfterOvertaken(9).threads && AfterOvertaken(9).threads[2] == SetLoading(5) && 2 !in AfterOvertaken(10).threads
    ensures AfterOvertaken(10).threads[0] == WaitBlocked(5, 0) && AfterOvertaken(10).subs[0].closes == 0
  {
    if k == 0 {
      return [];
    }
    var front := OvertakenSetHeight(k - 1);
    if k <= 5 {
      WaiterInOvertaken(k - 1);
    } else {
      SettersInOvertaken(k - 1);
    }
    ExecSnoc(Machine(), EMPTY, front, OvertakenStep(k - 1));
    return front + [OvertakenStep(k - 1)];
  }
}
