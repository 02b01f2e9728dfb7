/**
 * Verification of a new network head by bisection: headers between the trusted head and the new one
 * are fetched until a chain of verified links reaches the new head (sync/syncer_head.go).
 */
module Bifurcation {
  import opened Headers
  import opened Verification

  /** What the search calls; `t` numbers the calls, so answers may change from one call to the next. */
  datatype Env = Env(verify: (nat, Header, Header) -> Verdict, getter: (nat, nat) -> Option<Header>)

  datatype Result = Confirmed | GetFailed(height: nat) | Refused(err: VerifyError)

  /** One fetch, the t-th call, made while `trusted` was the trusted header. */
  datatype Probe = Probe(t: nat, trusted: Header, height: nat)

  /** `heads` lists the arguments of setLocalHead in order. */
  datatype Outcome = Outcome(result: Result, heads: seq<Header>, probes: seq<Probe>)

  /** The calls as the syncer makes them: header.Verify at the time of the call, and the getter. */
  function SyncerEnv(user: UserVerify, clock: nat -> int, getter: (nat, nat) -> Option<Header>): Env {
    Env((t: nat, trusted: Header, untrusted: Header) => Verify(user, clock(t), Some(trusted), Some(untrusted)), getter)
  }

  /** The getter returns the requested height or an error; Verify passes, or fails softly, only upwards. */
  ghost predicate Contract(env: Env) {
    && (forall t, h :: env.getter(t, h).Some? ==> env.getter(t, h).value.height == h)
    && (forall t, a, b :: env.verify(t, a, b).Passed? || env.verify(t, a, b).err.soft ==> a.height < b.height)
    && (forall t, a :: env.verify(t, a, a) == Failed(VerifyError(KnownHeader, false)))
  }

  lemma SyncerMeetsContract(user: UserVerify, clock: nat -> int, getter: (nat, nat) -> Option<Header>)
    requires forall t, h :: getter(t, h).Some? ==> getter(t, h).value.height == h
    ensures Contract(SyncerEnv(user, clock, getter))
  {
    var env := SyncerEnv(user, clock, getter);
    forall t, a, b | env.verify(t, a, b).Passed? || env.verify(t, a, b).err.soft ensures a.height < b.height {
      VerdictsRise(user, clock(t), a, b);
    }
    forall t, a ensures env.verify(t, a, a) == Failed(VerifyError(KnownHeader, false)) {
      assert GeneralChecks(clock(t), Some(a), Some(a)) == Some(KnownHeader);
    }
  }

  /** One round of the loop: it ends the search, or goes on with a trusted header and a distance to look ahead. */
  datatype Round = Stop(result: Result, heads: seq<Header>) | Go(subj: Header, diff: nat, heads: seq<Header>, t: nat)

  function RoundOf(env: Env, t: nat, subj: Header, newHead: Header, diff: nat): Round
    requires subj.height < newHead.height
  {
    var got := env.getter(t, subj.height + diff / 2);
    if got.None? then Stop(GetFailed(subj.height + diff / 2), [])
    else
      var verdict := env.verify(t + 1, subj, got.value);
      if verdict.Failed? then
        if verdict.err.soft then Go(subj, diff / 2, [], t + 2) else Stop(Refused(verdict.err), [])
      else
        var final := env.verify(t + 2, got.value, newHead);
        if final.Passed? then Stop(Confirmed, [got.value])
        else if newHead.height - got.value.height <= 1 then Stop(Refused(final.err), [got.value])
        else Go(got.value, newHead.height - got.value.height, [got.value], t + 3)
  }

  /** A round halves the distance under the same trusted header, or moves to a higher one that is linked to it. */
  lemma RoundMakesProgress(env: Env, t: nat, subj: Header, newHead: Header, diff: nat)
    requires Contract(env) && 1 <= diff <= newHead.height - subj.height
    ensures var r := RoundOf(env, t, subj, newHead, diff);
            && (r.heads == [] || (|r.heads| == 1 && Link(env, subj, r.heads[0]) && r.heads[0].height < newHead.height))
            && (r.Stop? && r.result == Confirmed ==> r.heads != [] && Link(env, r.heads[0], newHead))
            && (r.Go? && r.heads == [] ==> r.subj == subj && r.diff == diff / 2 && 2 <= diff)
            && (r.Go? && r.heads != [] ==> r.subj == r.heads[0] && r.diff == newHead.height - r.subj.height && 2 <= r.diff)
  {
  }

  /** What the search does from a trusted header `subj`, looking `diff` heights ahead. */
  ghost function Bifurcate(env: Env, t: nat, subj: Header, newHead: Header, diff: nat): Outcome
    requires Contract(env) && 1 <= diff <= newHead.height - subj.height
    decreases newHead.height - subj.height, diff
  {
    var probe := Probe(t, subj, subj.height + diff / 2);
    RoundMakesProgress(env, t, subj, newHead, diff);
    match RoundOf(env, t, subj, newHead, diff)
    case Stop(result, heads) => Outcome(result, heads, [probe])
    case Go(subj', diff', heads, t') =>
      var rest := Bifurcate(env, t', subj', newHead, diff');
      Outcome(rest.result, heads + rest.heads, [probe] + rest.probes)
  }

  /** Part of a search is done: what is left of it, after `heads` and `probes`, makes up `all`. */
  ghost predicate Underway(env: Env, t: nat, subj: Header, newHead: Header, diff: nat, heads: seq<Header>, probes: seq<Probe>, all: Outcome)
    requires Contract(env)
  {
    && 1 <= diff <= newHead.height - subj.height
    && var rest := Bifurcate(env, t, subj, newHead, diff);
       all == Outcome(rest.result, heads + rest.heads, probes + rest.probes)
  }

  lemma OneRound(env: Env, t: nat, subj: Header, newHead: Header, diff: nat, heads: seq<Header>, probes: seq<Probe>, all: Outcome)
    requires Contract(env) && Underway(env, t, subj, newHead, diff, heads, probes, all)
    ensures var r, probe := RoundOf(env, t, subj, newHead, diff), Probe(t, subj, subj.height + diff / 2);
            && (r.Stop? ==> all == Outcome(r.result, heads + r.heads, probes + [probe]))
            && (r.Go? ==> && Underway(env, r.t, r.subj, newHead, r.diff, heads + r.heads, probes + [probe], all)
                          && (subj.height < r.subj.height || (r.subj == subj && r.diff < diff)))
  {
    RoundMakesProgress(env, t, subj, newHead, diff);
    var r, probe := RoundOf(env, t, subj, newHead, diff), Probe(t, subj, subj.height + diff / 2);
    if r.Go? {
      var rest := Bifurcate(env, r.t, r.subj, newHead, r.diff);
      Regroup(heads, r.heads, rest.heads);
      Regroup(probes, [probe], rest.probes);
    }
  }

  lemma Regroup<T>(a: seq<T>, b: seq<T>, c: seq<T>)
    ensures a + (b + c) == a + b + c
  {
  }

  // ---------------------------------------------------------------- a search, probe by probe

  function Candidate(env: Env, p: Probe): Option<Header> {
    env.getter(p.t, p.height)
  }

  /** The check of a fetched header against the one trusted then. */
  function Check(env: Env, p: Probe): Verdict
    requires Candidate(env, p).Some?
  {
    env.verify(p.t + 1, p.trusted, Candidate(env, p).value)
  }

  /** The check of the new head against a fetched header that passed. */
  function FinalCheck(env: Env, newHead: Header, p: Probe): Verdict
    requires Candidate(env, p).Some?
  {
    env.verify(p.t + 2, Candidate(env, p).value, newHead)
  }

  /** The search goes on from p to q: after a soft failure half as far, after a candidate that passed from there. */
  predicate GoesOn(env: Env, newHead: Header, p: Probe, q: Probe) {
    && Candidate(env, p).Some? && p.trusted.height <= p.height
    && var c := Candidate(env, p).value;
       if Check(env, p).Failed? then
         Check(env, p).err.soft && q == Probe(p.t + 2, p.trusted, p.trusted.height + (p.height - p.trusted.height) / 2)
       else
         && FinalCheck(env, newHead, p).Failed? && c.height + 1 < newHead.height
         && q == Probe(p.t + 3, c, c.height + (newHead.height - c.height) / 2)
  }

  /** The search ends at p: nothing fetched, a hard failure, the new head confirmed, or refused right above a candidate. */
  predicate EndsAt(env: Env, newHead: Header, p: Probe, result: Result) {
    if Candidate(env, p).None? then result == GetFailed(p.height)
    else if Check(env, p).Failed? then !Check(env, p).err.soft && result == Refused(Check(env, p).err)
    else if FinalCheck(env, newHead, p).Passed? then result == Confirmed
    else newHead.height <= Candidate(env, p).value.height + 1 && result == Refused(FinalCheck(env, newHead, p).err)
  }

  /** The fetched headers that passed, in order. */
  function PassedCandidates(env: Env, probes: seq<Probe>): seq<Header> {
    if probes == [] then []
    else
      var p := probes[0];
      (if Candidate(env, p).Some? && Check(env, p).Passed? then [Candidate(env, p).value] else [])
      + PassedCandidates(env, probes[1..])
  }

  /** From its first probe every search goes on by soft failures and candidates that pass, and sets exactly those. */
  ghost predicate IsSearch(env: Env, first: Probe, newHead: Header, o: Outcome) {
    && o.probes != [] && o.probes[0] == first
    && (forall i | 0 <= i < |o.probes| - 1 :: GoesOn(env, newHead, o.probes[i], o.probes[i + 1]))
    && EndsAt(env, newHead, o.probes[|o.probes| - 1], o.result)
    && o.heads == PassedCandidates(env, o.probes)
  }

  lemma OneProbe(env: Env, p: Probe)
    ensures PassedCandidates(env, [p]) == if Candidate(env, p).Some? && Check(env, p).Passed? then [Candidate(env, p).value] else []
  {
    assert PassedCandidates(env, [p][1..]) == [];
  }

  lemma RoundIsProbe(env: Env, t: nat, subj: Header, newHead: Header, diff: nat)
    requires Contract(env) && 1 <= diff <= newHead.height - subj.height
    ensures var r, p := RoundOf(env, t, subj, newHead, diff), Probe(t, subj, subj.height + diff / 2);
            && r.heads == PassedCandidates(env, [p])
            && (r.Stop? ==> EndsAt(env, newHead, p, r.result))
            && (r.Go? ==> GoesOn(env, newHead, p, Probe(r.t, r.subj, r.subj.height + r.diff / 2)))
  {
    OneProbe(env, Probe(t, subj, subj.height + diff / 2));
  }

  lemma ProbeInFront(env: Env, p: Probe, q: Probe, newHead: Header, rest: Outcome)
    requires GoesOn(env, newHead, p, q) && IsSearch(env, q, newHead, rest)
    ensures IsSearch(env, p, newHead, Outcome(rest.result, PassedCandidates(env, [p]) + rest.heads, [p] + rest.probes))
  {
    var probes := [p] + rest.probes;
    OneProbe(env, p);
    assert probes[1..] == rest.probes;
    forall i | 0 <= i < |probes| - 1 ensures GoesOn(env, newHead, probes[i], probes[i + 1]) {
      if i > 0 {
        assert GoesOn(env, newHead, rest.probes[i - 1], rest.probes[i]);
      }
    }
  }

  lemma {:induction false} BifurcateIsSearch(env: Env, t: nat, subj: Header, newHead: Header, diff: nat)
    requires Contract(env) && 1 <= diff <= newHead.height - subj.height
    ensures IsSearch(env, Probe(t, subj, subj.height + diff / 2), newHead, Bifurcate(env, t, subj, newHead, diff))
    decreases newHead.height - subj.height, diff
  {
    var p := Probe(t, subj, subj.height + diff / 2);
    RoundMakesProgress(env, t, subj, newHead, diff);
    RoundIsProbe(env, t, subj, newHead, diff);
    var r := RoundOf(env, t, subj, newHead, diff);
    if r.Go? {
      BifurcateIsSearch(env, r.t, r.subj, newHead, r.diff);
      ProbeInFront(env, p, Probe(r.t, r.subj, r.subj.height + r.diff / 2), newHead, Bifurcate(env, r.t, r.subj, newHead, r.diff));
    }
  }

  /** A hard failure of a fetched header ends the search there with its error: no search goes past one. */
  lemma HardFailureEndsTheSearch(env: Env, t: nat, subj: Header, newHead: Header, diff: nat, i: nat)
    requires Contract(env) && 1 <= diff <= newHead.height - subj.height
    requires i < |Bifurcate(env, t, subj, newHead, diff).probes|
    requires var p := Bifurcate(env, t, subj, newHead, diff).probes[i];
             Candidate(env, p).Some? && Check(env, p).Failed? && !Check(env, p).err.soft
    ensures var o := Bifurcate(env, t, subj, newHead, diff);
            i == |o.probes| - 1 && o.result == Refused(Check(env, o.probes[i]).err) && o.result != Confirmed
  {
    BifurcateIsSearch(env, t, subj, newHead, diff);
    var o := Bifurcate(env, t, subj, newHead, diff);
    assert i < |o.probes| - 1 ==> GoesOn(env, newHead, o.probes[i], o.probes[i + 1]);
  }

  /** So does one of the very first candidate, before any head is set. */
  lemma HardFailureOfTheFirst(env: Env, t: nat, subj: Header, newHead: Header, diff: nat, c: Header)
    requires Contract(env) && 1 <= diff <= newHead.height - subj.height
    requires env.getter(t, subj.height + diff / 2) == Some(c)
    requires env.verify(t + 1, subj, c).Failed? && !env.verify(t + 1, subj, c).err.soft
    ensures Bifurcate(env, t, subj, newHead, diff)
            == Outcome(Refused(env.verify(t + 1, subj, c).err), [], [Probe(t, subj, subj.height + diff / 2)])
  {
    BifurcateIsSearch(env, t, subj, newHead, diff);
    HardFailureEndsTheSearch(env, t, subj, newHead, diff, 0);
  }

  /** The loop of the source. */
  method SearchLoop(env: Env, start: nat, subjHead: Header, newHead: Header)
    returns (result: Result, heads: seq<Header>, probes: seq<Probe>)
    requires Contract(env) && subjHead.height < newHead.height
    ensures Outcome(result, heads, probes) == Bifurcate(env, start, subjHead, newHead, newHead.height - subjHead.height)
  {
    var subj, t, diff: nat := subjHead, start, newHead.height - subjHead.height;
    heads, probes := [], [];
    ghost var all := Bifurcate(env, start, subjHead, newHead, diff);
    while true
      invariant Underway(env, t, subj, newHead, diff, heads, probes, all)
      decreases newHead.height - subj.height, diff
    {
      OneRound(env, t, subj, newHead, diff, heads, probes, all);
      var round := RoundOf(env, t, subj, newHead, diff);
      probes := probes + [Probe(t, subj, subj.height + diff / 2)];
      heads := heads + round.heads;
      if round.Stop? {
        result := round.result;
        return;
      }
      subj, diff, t := round.subj, round.diff, round.t;
    }
  }

  /** verifyBifurcating. It is entered only after a soft failure, so newHead is above subjHead. */
  method VerifyBifurcating(env: Env, start: nat, subjHead: Header, newHead: Header)
    returns (result: Result, heads: seq<Header>, probes: seq<Probe>)
    requires Contract(env) && subjHead.height < newHead.height
    ensures Outcome(result, heads, probes) == Bifurcate(env, start, subjHead, newHead, newHead.height - subjHead.height)
    ensures IsSearch(env, Probe(start, subjHead, subjHead.height + (newHead.height - subjHead.height) / 2), newHead,
                     Outcome(result, heads, probes))
  {
    BifurcateIsSearch(env, start, subjHead, newHead, newHead.height - subjHead.height);
    result, heads, probes := SearchLoop(env, start, subjHead, newHead);
  }

  // ---------------------------------------------------------------- soundness

  ghost predicate Link(env: Env, a: Header, b: Header) {
    a.height < b.height && exists t :: env.verify(t, a, b).Passed?
  }

  /** A strictly rising chain of headers whose every link passed Verify. */
  ghost predicate Linked(env: Env, chain: seq<Header>) {
    forall i | 0 <= i < |chain| - 1 :: Link(env, chain[i], chain[i + 1])
  }

  lemma PassedLinks(env: Env, t: nat, a: Header, b: Header)
    requires Contract(env) && env.verify(t, a, b).Passed?
    ensures Link(env, a, b)
  {
  }

  /**
   * Soundness: whatever the search ends with, every header it set as local head is linked to the
   * trusted one; it confirms the new head only with a linked chain that ends there.
   */
  lemma {:induction false} BifurcationIsSound(env: Env, t: nat, subj: Header, newHead: Header, diff: nat)
    requires Contract(env) && 1 <= diff <= newHead.height - subj.height
    ensures var o := Bifurcate(env, t, subj, newHead, diff);
            && Linked(env, [subj] + o.heads)
            && (o.result == Confirmed ==> Linked(env, [subj] + o.heads + [newHead]))
    decreases newHead.height - subj.height, diff
  {
    var o := Bifurcate(env, t, subj, newHead, diff);
    RoundMakesProgress(env, t, subj, newHead, diff);
    var r := RoundOf(env, t, subj, newHead, diff);
    if r.Go? {
      BifurcationIsSound(env, r.t, r.subj, newHead, r.diff);
      var rest := Bifurcate(env, r.t, r.subj, newHead, r.diff);
      if r.heads == [] {
        assert o.heads == rest.heads;
      } else {
        LinkInFront(env, subj, [r.subj] + rest.heads);
        assert [subj] + o.heads == [subj] + ([r.subj] + rest.heads);
        if o.result == Confirmed {
          LinkInFront(env, subj, [r.subj] + rest.heads + [newHead]);
          assert [subj] + o.heads + [newHead] == [subj] + ([r.subj] + rest.heads + [newHead]);
        }
      }
    }
  }

  lemma LinkInFront(env: Env, a: Header, chain: seq<Header>)
    requires chain != [] && Linked(env, chain) && Link(env, a, chain[0])
    ensures Linked(env, [a] + chain)
  {
    var longer := [a] + chain;
    forall i | 0 <= i < |longer| - 1 ensures Link(env, longer[i], longer[i + 1]) {
      if i > 0 {
        assert Link(env, chain[i - 1], chain[i]);
      }
    }
  }

  // ---------------------------------------------------------------- number of fetches

  /** The floor of the binary logarithm. */
  function Log2(n: nat): nat
    requires n > 0
  {
    if n == 1 then 0 else 1 + Log2(n / 2)
  }

  lemma {:induction false} Log2Rises(a: nat, b: nat)
    requires 0 < a <= b
    ensures Log2(a) <= Log2(b)
  {
    if a > 1 {
      Log2Rises(a / 2, b / 2);
    }
  }

  /** n times m, by repeated addition. */
  function Times(n: nat, m: nat): nat {
    if n == 0 then 0 else m + Times(n - 1, m)
  }

  lemma {:induction false} TimesIsProduct(n: nat, m: nat)
    ensures Times(n, m) == n * m
  {
    if n > 0 {
      TimesIsProduct(n - 1, m);
      assert n * m == (n - 1) * m + m;
    }
  }

  lemma {:induction false} TimesRises(a: nat, b: nat, m: nat)
    requires a <= b
    ensures Times(a, m) <= Times(b, m)
  {
    if a < b {
      TimesRises(a, b - 1, m);
    }
  }

  /** What may be left after a round that set a head at most `next` below the new one. */
  lemma HeadSetBound(gap: nat, next: nat, limit: nat, rest: nat)
    requires 1 <= next < gap && Log2(next) <= limit
    requires rest <= Times(next - 1, limit + 1) + Log2(next) + 1
    ensures rest <= Times(gap - 1, limit + 1)
  {
    TimesRises(next, gap - 1, limit + 1);
    assert rest <= Times(next, limit + 1);
  }

  /** At most gap * (log2(gap) + 1) fetches, where gap is the distance to the new head. */
  lemma FetchBound(env: Env, t: nat, subj: Header, newHead: Header)
    requires Contract(env) && subj.height < newHead.height
    ensures var gap := newHead.height - subj.height;
            |Bifurcate(env, t, subj, newHead, gap).probes| <= gap * (Log2(gap) + 1)
  {
    var gap := newHead.height - subj.height;
    FetchBoundFrom(env, t, subj, newHead, gap, Log2(gap));
    TimesIsProduct(gap, Log2(gap) + 1);
  }

  /** log2(diff) + 1 fetches may be left under the trusted header, and limit + 1 under each higher one. */
  lemma {:induction false} FetchBoundFrom(env: Env, t: nat, subj: Header, newHead: Header, diff: nat, limit: nat)
    requires Contract(env) && 1 <= diff <= newHead.height - subj.height
    requires Log2(newHead.height - subj.height) <= limit
    ensures |Bifurcate(env, t, subj, newHead, diff).probes|
            <= Times(newHead.height - subj.height - 1, limit + 1) + Log2(diff) + 1
    decreases newHead.height - subj.height, diff
  {
    RoundMakesProgress(env, t, subj, newHead, diff);
    var r, gap := RoundOf(env, t, subj, newHead, diff), newHead.height - subj.height;
    if r.Go? {
      Log2Rises(newHead.height - r.subj.height, gap);
      FetchBoundFrom(env, r.t, r.subj, newHead, r.diff, limit);
      var rest := |Bifurcate(env, r.t, r.subj, newHead, r.diff).probes|;
      assert |Bifurcate(env, t, subj, newHead, diff).probes| == 1 + rest;
      if r.heads != [] {
        HeadSetBound(gap, r.diff, limit, rest);
      } else {
        assert Log2(diff) == 1 + Log2(r.diff);
      }
    }
  }

  // ---------------------------------------------------------------- completeness

  /**
   * An honest network between two heights: the getter serves one chain, adjacent headers always
   * verify, and a non-adjacent pair at worst fails softly.
   */
  ghost predicate Honest(env: Env, chain: nat -> Header, low: nat, high: nat) {
    && (forall h :: chain(h).height == h)
    && (forall t, h | low < h < high :: env.getter(t, h) == Some(chain(h)))
    && (forall t, a, b | low <= a < b <= high :: HonestPair(env, t, chain(a), chain(b)))
  }

  predicate HonestPair(env: Env, t: nat, a: Header, b: Header) {
    var v := env.verify(t, a, b);
    v.Passed? || (v.err.soft && b.height != a.height + 1)
  }

  /** Every fetch was above the header trusted at its time, and below the new head. */
  predicate AllAhead(probes: seq<Probe>, high: nat) {
    forall i | 0 <= i < |probes| :: probes[i].trusted.height < probes[i].height < high
  }

  lemma HonestRound(env: Env, t: nat, chain: nat -> Header, low: nat, high: nat, diff: nat)
    requires Honest(env, chain, low, high) && 2 <= diff <= high - low
    ensures var r, mid := RoundOf(env, t, chain(low), chain(high), diff), low + diff / 2;
            && (r.Stop? ==> r.result == Confirmed)
            && (r.Go? && r.heads == [] ==> r.subj == chain(low) && r.diff == diff / 2 && 2 <= r.diff)
            && (r.Go? && r.heads != [] ==> r.subj == chain(mid) && r.diff == high - mid && 2 <= r.diff)
  {
    var mid := low + diff / 2;
    assert env.getter(t, mid) == Some(chain(mid));
    assert HonestPair(env, t + 1, chain(low), chain(mid));
    assert HonestPair(env, t + 2, chain(mid), chain(high));
  }

  /** Completeness: on an honest chain the search succeeds and only ever looks ahead of its trusted header. */
  lemma {:induction false} BifurcationIsComplete(env: Env, t: nat, chain: nat -> Header, low: nat, high: nat, diff: nat)
    requires Contract(env) && Honest(env, chain, low, high) && 2 <= diff <= high - low
    ensures var o := Bifurcate(env, t, chain(low), chain(high), diff);
            o.result == Confirmed && AllAhead(o.probes, high)
    decreases high - low, diff
  {
    HonestRound(env, t, chain, low, high, diff);
    var r := RoundOf(env, t, chain(low), chain(high), diff);
    if r.Go? {
      var low' := if r.heads == [] then low else low + diff / 2;
      BifurcationIsComplete(env, r.t, chain, low', high, r.diff);
    }
  }

  /** Whenever the new head of an honest chain failed directly, it failed softly and the search confirms it. */
  lemma HonestHeadIsConfirmed(env: Env, t: nat, chain: nat -> Header, low: nat, high: nat)
    requires Contract(env) && Honest(env, chain, low, high) && low < high
    requires env.verify(t, chain(low), chain(high)).Failed?
    ensures env.verify(t, chain(low), chain(high)).err.soft
    ensures var o := Bifurcate(env, t + 1, chain(low), chain(high), high - low);
            o.result == Confirmed && AllAhead(o.probes, high)
  {
    assert HonestPair(env, t, chain(low), chain(high));
    BifurcationIsComplete(env, t + 1, chain, low, high, high - low);
  }

  // ---------------------------------------------------------------- a new network head

  datatype HeadResult = Set | NotSet(reason: Result)

  predicate AllBetween(low: nat, hs: seq<Header>, high: nat) {
    forall i | 0 <= i < |hs| :: low < hs[i].height < high
  }

  /** The search never sets a header at or above the new head itself. */
  lemma {:induction false} HeadsStayBelow(env: Env, t: nat, subj: Header, newHead: Header, diff: nat)
    requires Contract(env) && 1 <= diff <= newHead.height - subj.height
    ensures AllBetween(subj.height, Bifurcate(env, t, subj, newHead, diff).heads, newHead.height)
    decreases newHead.height - subj.height, diff
  {
    RoundMakesProgress(env, t, subj, newHead, diff);
    var r := RoundOf(env, t, subj, newHead, diff);
    if r.Go? {
      HeadsStayBelow(env, r.t, r.subj, newHead, r.diff);
      assert Bifurcate(env, t, subj, newHead, diff).heads == r.heads + Bifurcate(env, r.t, r.subj, newHead, r.diff).heads;
    }
  }

  lemma SearchedHeadsAreLinked(env: Env, t: nat, local: Header, newHead: Header)
    requires Contract(env) && local.height < newHead.height
    ensures var o := Bifurcate(env, t, local, newHead, newHead.height - local.height);
            && Linked(env, [local] + o.heads)
            && (o.result == Confirmed ==> Linked(env, [local] + (o.heads + [newHead])))
            && newHead !in o.heads
  {
    var o := Bifurcate(env, t, local, newHead, newHead.height - local.height);
    BifurcationIsSound(env, t, local, newHead, newHead.height - local.height);
    HeadsStayBelow(env, t, local, newHead, newHead.height - local.height);
    NotBetween(local.height, o.heads, newHead);
    Regroup([local], o.heads, [newHead]);
  }

  lemma NotBetween(low: nat, hs: seq<Header>, newHead: Header)
    requires AllBetween(low, hs, newHead.height)
    ensures newHead !in hs
  {
  }

  /** A soft failure: the search sets the heads it confirms, and at last the new one. */
  method SearchForHead(env: Env, t: nat, local: Header, newHead: Header)
    returns (result: HeadResult, heads: seq<Header>)
    requires Contract(env) && local.height < newHead.height
    ensures Linked(env, [local] + heads)
    ensures result.Set? <==> heads != [] && heads[|heads| - 1] == newHead
    ensures var o := Bifurcate(env, t, local, newHead, newHead.height - local.height);
            && result == (if o.result == Confirmed then Set else NotSet(o.result))
            && heads == o.heads + (if o.result == Confirmed then [newHead] else [])
  {
    var found, probes;
    found, heads, probes := VerifyBifurcating(env, t, local, newHead);
    SearchedHeadsAreLinked(env, t, local, newHead);
    if found == Confirmed {
      return Set, heads + [newHead];
    }
    return NotSet(found), heads;
  }

  /** Syncer.verify followed by setLocalHead, as incomingNetworkHead runs them under its lock. */
  method IncomingNetworkHead(env: Env, t: nat, local: Header, newHead: Header)
    returns (result: HeadResult, heads: seq<Header>)
    requires Contract(env)
    ensures Linked(env, [local] + heads)
    ensures result.Set? <==> heads != [] && heads[|heads| - 1] == newHead
    ensures newHead == local ==> result == NotSet(Refused(VerifyError(KnownHeader, true))) && heads == []
    ensures newHead.height <= local.height ==> heads == []
    ensures env.verify(t, local, newHead).Passed? ==> heads == [newHead]
    ensures var v := env.verify(t, local, newHead);
            && (v.Failed? && v.err.soft ==>
                  var o := Bifurcate(env, t + 1, local, newHead, newHead.height - local.height);
                  && result == (if o.result == Confirmed then Set else NotSet(o.result))
                  && heads == o.heads + (if o.result == Confirmed then [newHead] else []))
            && (v.Failed? && !v.err.soft ==>
                  && heads == []
                  && result == NotSet(Refused(if v.err.reason.KnownHeader? && newHead.hash == local.hash then VerifyError(KnownHeader, true)
                                              else v.err)))
  {
    var verdict := env.verify(t, local, newHead);
    heads := [];
    if verdict.Passed? {
      PassedLinks(env, t, local, newHead);
      return Set, [newHead];
    }
    if verdict.err.soft {
      result, heads := SearchForHead(env, t + 1, local, newHead);
      return;
    }
    if verdict.err.reason.KnownHeader? && newHead.hash == local.hash {
      return NotSet(Refused(VerifyError(KnownHeader, true))), [];
    }
    return NotSet(Refused(verdict.err)), [];
  }
}
