/** Verification of one untrusted header, and of a range of them, against a trusted one (verify.go). */
module Verification {
  import opened Headers

  datatype Reason =
    | ZeroHeader | WrongChainID | KnownHeader | UnorderedTime | FromFuture
    | EmptyRange | NonAdjacentRange | UserDefined(code: int)

  datatype VerifyError = VerifyError(reason: Reason, soft: bool)

  datatype Verdict = Passed | Failed(err: VerifyError)

  /** What a header type's own Verify may answer: nil, some error, or a VerifyError. */
  datatype UserVerdict = Accepted | Plain(code: int) | Typed(err: VerifyError)

  type UserVerify = (Header, Header) -> UserVerdict

  /** Ten seconds, in nanoseconds. */
  const CLOCK_DRIFT := 10_000_000_000

  function GeneralChecks(now: int, trusted: Option<Header>, untrusted: Option<Header>): Option<Reason> {
    if trusted.None? || untrusted.None? then Some(ZeroHeader)
    else if untrusted.value.chainID != trusted.value.chainID then Some(WrongChainID)
    else if untrusted.value.height <= trusted.value.height then Some(KnownHeader)
    else if untrusted.value.time < trusted.value.time then Some(UnorderedTime)
    else if untrusted.value.time > now + CLOCK_DRIFT then Some(FromFuture)
    else None
  }

  function Verify(user: UserVerify, now: int, trusted: Option<Header>, untrusted: Option<Header>): Verdict {
    var general := GeneralChecks(now, trusted, untrusted);
    if general.Some? then Failed(VerifyError(general.value, false))
    else
      match user(trusted.value, untrusted.value)
      case Accepted => Passed
      case Plain(code) => Failed(MarkSoft(trusted.value, untrusted.value, VerifyError(UserDefined(code), false)))
      case Typed(err) => Failed(MarkSoft(trusted.value, untrusted.value, err))
  }

  function MarkSoft(trusted: Header, untrusted: Header, err: VerifyError): VerifyError {
    if untrusted.height == trusted.height + 1 then err else err.(soft := true)
  }

  /** A header that passes is a newer header of the same chain; a soft failure is never about an old one. */
  lemma VerdictsRise(user: UserVerify, now: int, trusted: Header, untrusted: Header)
    ensures var v := Verify(user, now, Some(trusted), Some(untrusted));
            v.Passed? || v.err.soft ==> trusted.height < untrusted.height && trusted.chainID == untrusted.chainID
                                        && trusted.time <= untrusted.time <= now + CLOCK_DRIFT
  {
  }

  /** The general checks hold: a header of the same chain, later, not older, and not from the future. */
  predicate Plausible(now: int, trusted: Header, untrusted: Header) {
    && untrusted.chainID == trusted.chainID && trusted.height < untrusted.height
    && trusted.time <= untrusted.time <= now + CLOCK_DRIFT
  }

  /**
   * A header passes exactly when it is plausible and its own Verify accepts it. The first general check
   * that fails gives the reason, and the failure is hard. A refusal by the header's own Verify keeps its
   * reason; it is soft exactly when the headers are not adjacent or it came as a soft VerifyError.
   */
  lemma VerdictIs(user: UserVerify, now: int, trusted: Header, untrusted: Header)
    ensures var v, u := Verify(user, now, Some(trusted), Some(untrusted)), user(trusted, untrusted);
            && (v.Passed? <==> Plausible(now, trusted, untrusted) && u.Accepted?)
            && (v.Failed? && !Plausible(now, trusted, untrusted) ==>
                  && !v.err.soft
                  && (v.err.reason == WrongChainID <==> untrusted.chainID != trusted.chainID)
                  && (v.err.reason == KnownHeader <==> untrusted.chainID == trusted.chainID && untrusted.height <= trusted.height)
                  && (v.err.reason == UnorderedTime <==>
                        untrusted.chainID == trusted.chainID && trusted.height < untrusted.height && untrusted.time < trusted.time)
                  && (v.err.reason == FromFuture <==>
                        && untrusted.chainID == trusted.chainID && trusted.height < untrusted.height
                        && trusted.time <= untrusted.time && now + CLOCK_DRIFT < untrusted.time))
            && (v.Failed? && Plausible(now, trusted, untrusted) ==>
                  && v.err.reason == (if u.Plain? then UserDefined(u.code) else u.err.reason)
                  && (v.err.soft <==> untrusted.height != trusted.height + 1 || (u.Typed? && u.err.soft)))
    ensures Verify(user, now, None, Some(untrusted)) == Verify(user, now, Some(trusted), None)
            == Failed(VerifyError(ZeroHeader, false))
  {
    var u := user(trusted, untrusted);
    if Plausible(now, trusted, untrusted) && u.Typed? && untrusted.height == trusted.height + 1 {
      assert MarkSoft(trusted, untrusted, u.err) == u.err;
    }
  }

  /** `trusted` of the k-th check of a range: the header before it, or the one the range is checked against. */
  function Before(trusted: Option<Header>, range: seq<Header>, k: nat): Option<Header>
    requires k < |range|
  {
    if k == 0 then trusted else Some(range[k - 1])
  }

  /** The k-th header of the range passes. The first one may leave a gap to the trusted header. */
  predicate Extends(user: UserVerify, clock: nat -> int, trusted: Option<Header>, range: seq<Header>, k: nat)
    requires k < |range|
  {
    && Verify(user, clock(k), Before(trusted, range, k), Some(range[k])).Passed?
    && (k > 0 ==> range[k].height == range[k - 1].height + 1)
  }

  /** `n` is the length of the longest prefix of the range whose headers all pass. */
  ghost predicate LongestVerified(user: UserVerify, clock: nat -> int, trusted: Option<Header>, range: seq<Header>, n: nat) {
    && n <= |range|
    && (forall k | 0 <= k < n :: Extends(user, clock, trusted, range, k))
    && (n < |range| ==> !Extends(user, clock, trusted, range, n))
  }

  /** `clock(k)` is the time read for the k-th header. */
  method VerifyRange(user: UserVerify, clock: nat -> int, trusted: Option<Header>, range: seq<Header>)
    returns (verified: seq<Header>, err: Option<VerifyError>)
    ensures LongestVerified(user, clock, trusted, range, |verified|) && verified == range[..|verified|]
    ensures err.None? <==> |range| > 0 && verified == range
    ensures |range| == 0 ==> err == Some(VerifyError(EmptyRange, false))
    ensures |verified| < |range| ==>
              var v := Verify(user, clock(|verified|), Before(trusted, range, |verified|), Some(range[|verified|]));
              err == Some(if v.Failed? then v.err else VerifyError(NonAdjacentRange, false))
  {
    verified := [];
    if |range| == 0 {
      return verified, Some(VerifyError(EmptyRange, false));
    }
    var trstd := trusted;
    for i := 0 to |range|
      invariant verified == range[..i]
      invariant i < |range| ==> trstd == Before(trusted, range, i)
      invariant forall k | 0 <= k < i :: Extends(user, clock, trusted, range, k)
    {
      var verdict := Verify(user, clock(i), trstd, Some(range[i]));
      if verdict.Failed? {
        return verified, Some(verdict.err);
      }
      if i > 0 && trstd.value.height + 1 != range[i].height {
        return verified, Some(VerifyError(NonAdjacentRange, false));
      }
      verified := verified + [range[i]];
      trstd := Some(range[i]);
    }
    err := None;
  }

  /** A verified range has consecutive heights above the trusted header. */
  lemma {:induction false} VerifiedIsConsecutive(user: UserVerify, clock: nat -> int, trusted: Option<Header>, range: seq<Header>, n: nat, k: nat)
    requires LongestVerified(user, clock, trusted, range, n) && k < n
    ensures range[k].height == range[0].height + k
    ensures trusted.Some? && trusted.value.height < range[0].height
  {
    assert Extends(user, clock, trusted, range, 0);
    assert Extends(user, clock, trusted, range, k);
    if k > 0 {
      VerifiedIsConsecutive(user, clock, trusted, range, n, k - 1);
    }
  }
}
