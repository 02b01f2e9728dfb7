/**
 * Cancelled waits (store/heightsub.go): a wait that ends with its context takes itself off its channel,
 * and closes the channel if nobody else is on it. With Notify calls under way the count can be off by one.
 */
module HeightSubCancel {
  import opened Headers
  import opened Runs
  import opened HeightSub

  predicate WaitsOn(c: Thread, i: nat) {
    (c.WaitBlocked? || c.WaitCancelled?) && c.sub == i
  }

  function Waiters(s: State, i: nat): set<nat> {
    set t | t in s.threads && WaitsOn(s.threads[t], i)
  }

  // ---------------------------------------------------------------- runs without Notify

  predicate IsNotify(step: Step) {
    step.Call? && step.call.NotifyLocking?
  }

  function QuietMachine(): (State, Step) -> Option<State> {
    (s: State, step: Step) => if IsNotify(step) then None else Next(s, step)
  }

  /** The count of a registered channel is the number of goroutines on it. */
  ghost predicate Counted(s: State) {
    forall h | h in s.heightSubs :: CountOf(s, s.heightSubs[h])
  }

  predicate CountOf(s: State, i: nat) {
    i < |s.subs| && s.subs[i].count == |Waiters(s, i)|
  }

  predicate Woken(s: State, c: Thread) {
    (c.WaitBlocked? || c.WaitCancelled?) && c.sub < |s.subs| && s.subs[c.sub].closes > 0
  }

  /** Whoever is on a closed channel has its height reached, so nobody registers for that height again. */
  ghost predicate NoneBehind(s: State) {
    forall t | t in s.threads && Woken(s, s.threads[t]) ::
      s.threads[t].h <= s.height && s.threads[t].h !in s.heightSubs
      && forall u | u in s.threads :: s.threads[u] != WaitChecked(s.threads[t].h)
  }

  ghost predicate NoNotify(s: State) {
    forall t | t in s.threads :: !s.threads[t].NotifyLocking? && !s.threads[t].Notifying?
  }

  ghost predicate Inv(s: State) {
    HeightSub.Inv(s) && TargetsReached(s) && NoNotify(s) && Counted(s) && NoneBehind(s)
  }

  /** A goroutine that moves neither onto a channel nor off one. */
  lemma SameWaiters(s: State, n: State, t: nat, i: nat)
    requires t in s.threads ==> !WaitsOn(s.threads[t], i)
    requires t in n.threads ==> !WaitsOn(n.threads[t], i)
    requires OthersStay(s, n, t)
    ensures Waiters(n, i) == Waiters(s, i)
  {
  }

  lemma OneLess(s: State, n: State, t: nat, i: nat)
    requires t in s.threads && WaitsOn(s.threads[t], i) && t !in n.threads && OthersStay(s, n, t)
    ensures Waiters(n, i) == Waiters(s, i) - {t} && t in Waiters(s, i)
  {
  }

  lemma OneMore(s: State, n: State, t: nat, i: nat)
    requires t in s.threads && !WaitsOn(s.threads[t], i) && t in n.threads && WaitsOn(n.threads[t], i) && OthersStay(s, n, t)
    ensures Waiters(n, i) == Waiters(s, i) + {t} && t !in Waiters(s, i)
  {
  }

  /** Steps that touch no table and leave the channels as they are. */
  lemma PlainMove(s: State, n: State, t: nat)
    requires Inv(s) && n.subs == s.subs && n.heightSubs == s.heightSubs && s.height <= n.height && OthersStay(s, n, t)
    requires t in s.threads ==> !s.threads[t].WaitBlocked? && !s.threads[t].WaitCancelled?
    requires t in n.threads ==> !n.threads[t].WaitBlocked? && !n.threads[t].WaitCancelled?
    requires t in n.threads && n.threads[t].WaitChecked? ==> s.height < n.threads[t].h
    ensures Counted(n) && NoneBehind(n)
  {
    forall h | h in n.heightSubs ensures CountOf(n, n.heightSubs[h]) {
      assert CountOf(s, s.heightSubs[h]);
      SameWaiters(s, n, t, n.heightSubs[h]);
    }
  }

  lemma BlockedReturns(s: State, n: State, t: nat)
    requires Inv(s) && t in s.threads && s.threads[t].WaitBlocked? && Woken(s, s.threads[t]) && n == Leave(s, t)
    ensures Counted(n) && NoneBehind(n)
  {
    forall h | h in n.heightSubs ensures CountOf(n, n.heightSubs[h]) {
      assert CountOf(s, s.heightSubs[h]);
      SameWaiters(s, n, t, n.heightSubs[h]);
    }
  }

  lemma NotifiedBySetHeight(s: State, n: State, t: nat, cur: nat, target: nat)
    requires Inv(s) && Notifies(s, t, cur, target) && cur <= target
    requires n == Goto(NotifySub(s, cur, true), t, SetNotifying(target, cur + 1))
    ensures Counted(n) && NoneBehind(n)
  {
    forall h | h in n.heightSubs ensures CountOf(n, n.heightSubs[h]) {
      assert CountOf(s, s.heightSubs[h]);
      SameWaiters(s, n, t, n.heightSubs[h]);
    }
    forall v | v in n.threads && Woken(n, n.threads[v])
      ensures n.threads[v].h <= n.height && n.threads[v].h !in n.heightSubs
              && forall u | u in n.threads :: n.threads[u] != WaitChecked(n.threads[v].h)
    {
      assert v != t && s.threads[v] == n.threads[v];
      assert forall u | u in s.threads && s.threads[u].WaitChecked? :: s.lock == Some(u);
    }
  }

  lemma RegisteredKeepsCounts(s: State, n: State, t: nat, h: nat)
    requires Inv(s) && t in s.threads && s.threads[t] == WaitChecked(h) && n == Register(s, t, h)
    ensures Counted(n)
  {
    forall k | k in n.heightSubs ensures CountOf(n, n.heightSubs[k]) {
      if k == h {
        RegisteredCounts(s, n, t, h);
      } else {
        assert CountOf(s, s.heightSubs[k]);
        SameWaiters(s, n, t, s.heightSubs[k]);
      }
    }
  }

  lemma RegisteredCounts(s: State, n: State, t: nat, h: nat)
    requires HeightSub.Inv(s) && Counted(s) && t in s.threads && s.threads[t] == WaitChecked(h) && n == Register(s, t, h)
    ensures CountOf(n, n.heightSubs[h])
  {
    var i := n.heightSubs[h];
    OneMore(s, n, t, i);
    if h in s.heightSubs {
      assert CountOf(s, i);
    } else {
      assert Waiters(s, i) == {};
    }
  }

  lemma RegisteredLeavesNoneBehind(s: State, n: State, t: nat, h: nat)
    requires Inv(s) && t in s.threads && s.threads[t] == WaitChecked(h) && n == Register(s, t, h)
    ensures NoneBehind(n)
  {
    forall v | v in n.threads && Woken(n, n.threads[v])
      ensures n.threads[v].h <= n.height && n.threads[v].h !in n.heightSubs
              && forall u | u in n.threads :: n.threads[u] != WaitChecked(n.threads[v].h)
    {
      assert v != t && n.threads[v] == s.threads[v] && Woken(s, s.threads[v]);
      assert s.threads[t] != WaitChecked(s.threads[v].h);
    }
  }

  lemma Registered(s: State, n: State, t: nat, h: nat)
    requires Inv(s) && t in s.threads && s.threads[t] == WaitChecked(h) && n == Register(s, t, h)
    ensures Counted(n) && NoneBehind(n)
  {
    RegisteredKeepsCounts(s, n, t, h);
    RegisteredLeavesNoneBehind(s, n, t, h);
  }

  /** A cancelled wait whose channel was closed finds nothing of its height registered. */
  lemma CancelledReturns(s: State, n: State, t: nat)
    requires Inv(s) && t in s.threads && s.threads[t].WaitCancelled? && n == Leave(NotifySub(s, s.threads[t].h, false), t)
    ensures Counted(n) && NoneBehind(n)
    ensures OthersSleepOn(s, n)
  {
    CancelKeepsCounts(s, n, t);
    CancelClosesForNobody(s, n, t);
  }

  /** No blocked wait finds its channel closed that was open before. */
  predicate OthersSleepOn(s: State, n: State) {
    && |n.subs| == |s.subs|
    && forall u | u in n.threads && n.threads[u].WaitBlocked? ::
         n.threads[u].sub < |s.subs| && n.subs[n.threads[u].sub].closes == s.subs[n.threads[u].sub].closes
  }

  lemma CancelCountsOther(s: State, n: State, t: nat, k: nat)
    requires HeightSub.Inv(s) && t in s.threads && s.threads[t].WaitCancelled? && n == Leave(NotifySub(s, s.threads[t].h, false), t)
    requires k in n.heightSubs && k != s.threads[t].h && k in s.heightSubs && CountOf(s, s.heightSubs[k])
    ensures CountOf(n, n.heightSubs[k])
  {
    SameWaiters(s, n, t, s.heightSubs[k]);
  }

  lemma CancelCountsOwn(s: State, n: State, t: nat)
    requires Inv(s) && t in s.threads && s.threads[t].WaitCancelled? && n == Leave(NotifySub(s, s.threads[t].h, false), t)
    requires s.threads[t].h in n.heightSubs
    ensures CountOf(n, n.heightSubs[s.threads[t].h])
  {
    var i := s.heightSubs[s.threads[t].h];
    assert CountOf(s, i);
    OneLess(s, n, t, i);
  }

  lemma CancelKeepsCounts(s: State, n: State, t: nat)
    requires Inv(s) && t in s.threads && s.threads[t].WaitCancelled? && n == Leave(NotifySub(s, s.threads[t].h, false), t)
    ensures Counted(n)
  {
    forall k | k in n.heightSubs ensures CountOf(n, n.heightSubs[k]) {
      if k == s.threads[t].h {
        CancelCountsOwn(s, n, t);
      } else {
        CancelCountsOther(s, n, t, k);
      }
    }
  }

  lemma CancelClosesForNobody(s: State, n: State, t: nat)
    requires Inv(s) && t in s.threads && s.threads[t].WaitCancelled? && n == Leave(NotifySub(s, s.threads[t].h, false), t)
    ensures OthersSleepOn(s, n) && NoneBehind(n)
  {
    var c := s.threads[t];
    if c.h in s.heightSubs {
      var i := s.heightSubs[c.h];
      assert CountOf(s, i);
      OneLess(s, n, t, i);
      if s.subs[i].count == 1 {
        assert |Waiters(n, i)| == 0;
        assert Waiters(n, i) == {};
        forall u | u in n.threads ensures !WaitsOn(n.threads[u], i) {
          assert u !in Waiters(n, i);
        }
      }
    }
  }

  lemma SetMoveKeeps(s: State, t: nat)
    requires Inv(s) && t in s.threads && MoveSet(s, t).Some?
    ensures Counted(MoveSet(s, t).value) && NoneBehind(MoveSet(s, t).value)
  {
    var c, n := s.threads[t], MoveSet(s, t).value;
    if c.SetNotifying? && c.cur <= c.target {
      NotifiedBySetHeight(s, n, t, c.cur, c.target);
    } else {
      PlainMove(s, n, t);
    }
  }

  lemma WaitMoveKeeps(s: State, t: nat)
    requires Inv(s) && t in s.threads && MoveWait(s, t).Some?
    ensures Counted(MoveWait(s, t).value) && NoneBehind(MoveWait(s, t).value)
  {
    var c, n := s.threads[t], MoveWait(s, t).value;
    if c.WaitChecked? {
      Registered(s, n, t, c.h);
    } else if c.WaitCancelled? {
      CancelledReturns(s, n, t);
    } else if c.WaitBlocked? {
      BlockedReturns(s, n, t);
    } else {
      PlainMove(s, n, t);
    }
  }

  lemma CancelKeeps(s: State, t: nat)
    requires Inv(s) && t in s.threads && s.threads[t].WaitBlocked?
    ensures var n := Goto(s, t, WaitCancelled(s.threads[t].h, s.threads[t].sub)); Counted(n) && NoneBehind(n)
  {
    var n := Goto(s, t, WaitCancelled(s.threads[t].h, s.threads[t].sub));
    forall h | h in n.heightSubs ensures CountOf(n, n.heightSubs[h]) {
      assert CountOf(s, s.heightSubs[h]);
      assert Waiters(n, n.heightSubs[h]) == Waiters(s, s.heightSubs[h]);
    }
  }

  lemma SetKeepsNoNotify(s: State, t: nat)
    requires TableOk(s) && NoNotify(s) && t in s.threads && MoveSet(s, t).Some?
    ensures NoNotify(MoveSet(s, t).value)
  {
  }

  lemma WaitKeepsNoNotify(s: State, t: nat)
    requires TableOk(s) && NoNotify(s) && t in s.threads && MoveWait(s, t).Some?
    ensures NoNotify(MoveWait(s, t).value)
  {
  }

  lemma StepKeepsNoNotify(s: State, step: Step)
    requires HeightSub.Inv(s) && NoNotify(s) && QuietMachine()(s, step).Some?
    ensures NoNotify(QuietMachine()(s, step).value)
  {
    match step
    case Move(t) =>
      if MoveSet(s, t).Some? { SetKeepsNoNotify(s, t); } else { WaitKeepsNoNotify(s, t); }
    case _ =>
  }

  lemma StepKeeps(s: State, step: Step)
    requires Inv(s) && QuietMachine()(s, step).Some?
    ensures Inv(QuietMachine()(s, step).value)
  {
    StepKeepsInv(s, step);
    StepKeepsTargets(s, step);
    StepKeepsNoNotify(s, step);
    match step
    case Move(t) =>
      if MoveSet(s, t).Some? { SetMoveKeeps(s, t); } else { WaitMoveKeeps(s, t); }
    case Cancel(t) => CancelKeeps(s, t);
    case Call(t, c) => PlainMove(s, Goto(s, t, c), t);
  }

  /**
   * In every run without Notify calls: the count of a registered channel is the number of goroutines on
   * it, and a cancelled wait closes nobody else's channel.
   */
  lemma CancelWakesNobodyElse(steps: seq<Step>, s: State, t: nat)
    requires Exec(QuietMachine(), EMPTY, steps) == Some(s)
    ensures forall h | h in s.heightSubs :: CountOf(s, s.heightSubs[h])
    ensures t in s.threads && s.threads[t].WaitCancelled? && Next(s, Move(t)).Some? ==> OthersSleepOn(s, Next(s, Move(t)).value)
  {
    forall a, step | Inv(a) && QuietMachine()(a, step).Some? ensures Inv(QuietMachine()(a, step).value) {
      StepKeeps(a, step);
    }
    InvariantHolds(QuietMachine(), a => Inv(a), EMPTY, steps);
    if t in s.threads && s.threads[t].WaitCancelled? && Next(s, Move(t)).Some? {
      CancelledReturns(s, Next(s, Move(t)).value, t);
    }
  }

  // ---------------------------------------------------------------- every run

  /** The registered channel of h has the count one, and another goroutine than t is blocked on it. */
  predicate WakesAnother(s: State, t: nat, h: nat) {
    && h in s.heightSubs && s.heightSubs[h] < |s.subs| && s.subs[s.heightSubs[h]].count == 1
    && exists u :: u in s.threads && u != t && s.threads[u].WaitBlocked? && s.threads[u].sub == s.heightSubs[h]
  }

  /** In every run, a cancelled wait wakes somebody else exactly when the count leaves out a waiter. */
  lemma CancelWakesAnotherExactlyWhen(steps: seq<Step>, s: State, t: nat)
    requires Exec(Machine(), EMPTY, steps) == Some(s)
    requires t in s.threads && s.threads[t].WaitCancelled? && Next(s, Move(t)).Some?
    ensures !OthersSleepOn(s, Next(s, Move(t)).value) <==> WakesAnother(s, t, s.threads[t].h)
  {
    ReachableInv(steps);
    var n, h := Next(s, Move(t)).value, s.threads[t].h;
    if WakesAnother(s, t, h) {
      var u :| u in s.threads && u != t && s.threads[u].WaitBlocked? && s.threads[u].sub == s.heightSubs[h];
      assert n.threads[u] == s.threads[u] && n.subs[s.heightSubs[h]].closes == 1;
    }
  }

  // ---------------------------------------------------------------- with a Notify under way

  /**
   * A waiter at 5 is notified and cancelled at once, so it has left the table when it goes to take itself
   * off. Meanwhile another waiter at 5 has registered.
   */
  function SpuriousStep(k: nat): Step {
    if k == 0 then Call(0, WaitEntering(5))
    else if k <= 4 then Move(0)
    else if k == 5 then Call(1, NotifyLocking([5]))
    else if k <= 8 then Move(1)
    else if k == 9 then Cancel(0)
    else if k == 10 then Call(2, WaitEntering(5))
    else if k <= 14 then Move(2)
    else Move(0)
  }

  function AfterSpurious(k: nat): State {
    var open, closed := [Sub(5, 1, 0)], [Sub(5, 0, 1)];
    var first, gone := map[0 := WaitBlocked(5, 0)], map[0 := WaitCancelled(5, 0)];
    if k == 0 then EMPTY
    else if k == 1 then State(0, None, map[], [], map[0 := WaitEntering(5)])
    else if k == 2 then State(0, None, map[], [], map[0 := WaitLocking(5)])
    else if k == 3 then State(0, Some(0), map[], [], map[0 := WaitLocked(5)])
    else if k == 4 then State(0, Some(0), map[], [], map[0 := WaitChecked(5)])
    else if k == 5 then State(0, None, map[5 := 0], open, first)
    else if k == 6 then State(0, None, map[5 := 0], open, first[1 := NotifyLocking([5])])
    else if k == 7 then State(0, Some(1), map[5 := 0], open, first[1 := Notifying([5])])
    else if k == 8 then State(0, Some(1), map[], closed, first[1 := Notifying([])])
    else if k == 9 then State(0, None, map[], closed, first)
    else if k == 10 then State(0, None, map[], closed, gone)
    else if k == 11 then State(0, None, map[], closed, gone[2 := WaitEntering(5)])
    else if k == 12 then State(0, None, map[], closed, gone[2 := WaitLocking(5)])
    else if k == 13 then State(0, Some(2), map[], closed, gone[2 := WaitLocked(5)])
    else if k == 14 then State(0, Some(2), map[], closed, gone[2 := WaitChecked(5)])
    else if k == 15 then State(0, None, map[5 := 1], closed + [Sub(5, 1, 0)], gone[2 := WaitBlocked(5, 1)])
    else State(0, None, map[], closed + [Sub(5, 0, 1)], map[2 := WaitBlocked(5, 1)])
  }

  lemma SpuriousBegins(k: nat)
    requires k < 6
    ensures Next(AfterSpurious(k), SpuriousStep(k)) == Some(AfterSpurious(k + 1))
  {
    SameState(Next(AfterSpurious(k), SpuriousStep(k)).value, AfterSpurious(k + 1));
  }

  lemma SpuriousNotifies(k: nat)
    requires 6 <= k < 10
    ensures Next(AfterSpurious(k), SpuriousStep(k)) == Some(AfterSpurious(k + 1))
  {
    assert [5][1..] == [];
    SameState(Next(AfterSpurious(k), SpuriousStep(k)).value, AfterSpurious(k + 1));
  }

  lemma SpuriousEnds(k: nat)
    requires 10 <= k < 16
    ensures Next(AfterSpurious(k), SpuriousStep(k)) == Some(AfterSpurious(k + 1))
  {
    SameState(Next(AfterSpurious(k), SpuriousStep(k)).value, AfterSpurious(k + 1));
  }

  lemma SameState(a: State, b: State)
    requires a.height == b.height && a.lock == b.lock && a.subs == b.subs
    requires a.heightSubs == b.heightSubs && a.threads == b.threads
    ensures a == b
  {
  }

  /**
   * It does happen: the second waiter returns without an error, though its height is not reached and
   * nothing notified it.
   */
  lemma {:induction false} CancelCanWakeAnother(k: nat) returns (steps: seq<Step>)
    requires k <= 16
    ensures Exec(Machine(), EMPTY, steps) == Some(AfterSpurious(k))
    ensures AfterSpurious(15).subs[1].closes == 0 && AfterSpurious(16).subs[1].closes == 1 && SpuriousStep(15) == Move(0)
    ensures WakesAnother(AfterSpurious(15), 0, 5) && AfterSpurious(16).height < 5 && Next(AfterSpurious(16), Move(2)) == Some(Leave(AfterSpurious(16), 2))
  {
    assert 2 in AfterSpurious(15).threads && AfterSpurious(15).threads[2] == WaitBlocked(5, 1);
    if k == 0 {
      return [];
    }
    var front := CancelCanWakeAnother(k - 1);
    if k <= 6 {
      SpuriousBegins(k - 1);
    } else if k <= 10 {
      SpuriousNotifies(k - 1);
    } else {
      SpuriousEnds(k - 1);
    }
    ExecSnoc(Machine(), EMPTY, front, SpuriousStep(k - 1));
    return front + [SpuriousStep(k - 1)];
  }
}
