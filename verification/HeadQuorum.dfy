/**
 * Choosing the network head from the answers of the asked peers (p2p/exchange.go): an answer given
 * by enough peers wins at once, otherwise the highest one is taken.
 */
module HeadQuorum {
  import opened Headers
  import opened Verification

  /** One peer's answer: a header, or None if the request failed or the header failed hard. */
  type Reply = Option<Header>

  /** `Cancelled` is the end of the context before all answers arrived. */
  datatype HeadResult = Found(header: Header, softErr: Option<VerifyError>) | NotFound | Cancelled

  /** The soft failure of a header against the trusted head, the same whichever peer sent the header. */
  type SoftErr = Header -> Option<VerifyError>

  function MinHeadResponses(numPeers: nat): nat {
    if numPeers <= 2 then numPeers else (numPeers * 2 + 2) / 3
  }

  /** The quorum is all of one or two peers, and the least number that is two thirds of three or more. */
  lemma QuorumIsTwoThirds(n: nat, q: nat)
    ensures q == MinHeadResponses(n) <==> if n <= 2 then q == n else 2 * n <= 3 * q && 3 * (q - 1) < 2 * n
  {
    if n > 2 && 2 * n <= 3 * q && 3 * (q - 1) < 2 * n {
      assert (2 * n + 2) / 3 == q;
    }
  }

  predicate VotesFor(reply: Reply, hash: Hash) {
    reply.Some? && reply.value.hash == hash
  }

  function Votes(replies: seq<Reply>, hash: Hash): (n: nat)
    ensures n <= |replies|
  {
    if replies == [] then 0
    else Votes(replies[..|replies| - 1], hash) + if VotesFor(replies[|replies| - 1], hash) then 1 else 0
  }

  predicate HasQuorum(n: nat, replies: seq<Reply>, hash: Hash) {
    n > 0 && MinHeadResponses(n) <= Votes(replies, hash)
  }

  ghost predicate SomeQuorum(n: nat, replies: seq<Reply>) {
    exists hash :: HasQuorum(n, replies, hash)
  }

  /** `h` is among the answers and none is higher. */
  predicate IsHighest(replies: seq<Reply>, h: Header) {
    && Some(h) in replies
    && (forall r | r in replies && r.Some? :: r.value.height <= h.height)
  }

  predicate NoHeaders(replies: seq<Reply>) {
    forall r | r in replies :: r.None?
  }

  /** A hash identifies its header. */
  ghost predicate Identified(byHash: Hash -> Header, replies: seq<Reply>) {
    forall r | r in replies && r.Some? :: r.value == byHash(r.value.hash)
  }

  /** What the answers, in any order, allow as result. */
  ghost predicate Allowed(n: nat, soft: SoftErr, replies: seq<Reply>, r: HeadResult) {
    && (r.Found? ==> Some(r.header) in replies && r.softErr == soft(r.header))
    && (forall hash | HasQuorum(n, replies, hash) :: r.Found? && r.header.hash == hash)
    && (!SomeQuorum(n, replies) ==>
          if |replies| < n then r.Cancelled?
          else if NoHeaders(replies) then r.NotFound?
          else r.Found? && IsHighest(replies, r.header))
  }

  lemma {:induction false} VotesOfPrefix(replies: seq<Reply>, k: nat, hash: Hash)
    requires k <= |replies|
    ensures Votes(replies[..k], hash) <= Votes(replies, hash)
  {
    if k < |replies| {
      VotesOfPrefix(replies[..|replies| - 1], k, hash);
      assert replies[..|replies| - 1][..k] == replies[..k];
    } else {
      assert replies[..k] == replies;
    }
  }

  /** Two different answers share the peers between them. */
  lemma {:induction false} VotesAreSplit(replies: seq<Reply>, a: Hash, b: Hash)
    requires a != b
    ensures Votes(replies, a) + Votes(replies, b) <= |replies|
  {
    if replies != [] {
      VotesAreSplit(replies[..|replies| - 1], a, b);
    }
  }

  /** At most one hash reaches the quorum of n single-vote peers. */
  lemma QuorumIsUnique(n: nat, replies: seq<Reply>, a: Hash, b: Hash)
    requires |replies| <= n && HasQuorum(n, replies, a) && HasQuorum(n, replies, b)
    ensures a == b
  {
    if a != b {
      VotesAreSplit(replies, a, b);
    }
  }

  lemma QuorumOfPrefix(n: nat, replies: seq<Reply>, k: nat, hash: Hash)
    requires |replies| <= n && k <= |replies| && HasQuorum(n, replies[..k], hash)
    ensures HasQuorum(n, replies, hash) && forall other | HasQuorum(n, replies, other) :: other == hash
  {
    VotesOfPrefix(replies, k, hash);
    forall other | HasQuorum(n, replies, other) ensures other == hash {
      QuorumIsUnique(n, replies, other, hash);
    }
  }

  /** The counters after some answers. */
  ghost predicate Counted(n: nat, replies: seq<Reply>, counter: map<Hash, nat>) {
    forall hash :: Votes(replies, hash) == (if hash in counter then counter[hash] else 0) && !HasQuorum(n, replies, hash)
  }

  lemma CountOne(n: nat, replies: seq<Reply>, reply: Reply, counter: map<Hash, nat>)
    requires n > 0 && Counted(n, replies, counter)
    ensures reply.None? ==> Counted(n, replies + [reply], counter)
    ensures reply.Some? ==>
              var hash := reply.value.hash;
              var count := (if hash in counter then counter[hash] else 0) + 1;
              Votes(replies + [reply], hash) == count
              && (count < MinHeadResponses(n) ==> Counted(n, replies + [reply], counter[hash := count]))
  {
    assert (replies + [reply])[..|replies|] == replies;
  }

  /** The soft failures kept under the hashes of the answers so far. */
  ghost predicate SoftKept(soft: SoftErr, replies: seq<Reply>, softErrs: map<Hash, VerifyError>) {
    forall r | r in replies && r.Some? :: SoftErrOf(softErrs, r.value.hash) == soft(r.value)
  }

  function SoftErrOf(softErrs: map<Hash, VerifyError>, hash: Hash): Option<VerifyError> {
    if hash in softErrs then Some(softErrs[hash]) else None
  }

  lemma SomethingArrived(replies: seq<Reply>, headers: seq<Header>)
    requires forall h :: h in headers <==> Some(h) in replies
    ensures NoHeaders(replies) || headers != []
  {
    if r :| r in replies && r.Some? {
      assert r.value in headers;
    }
  }

  lemma SoftKeptAfter(soft: SoftErr, byHash: Hash -> Header, replies: seq<Reply>, h: Header,
                      before: map<Hash, VerifyError>, after: map<Hash, VerifyError>)
    requires SoftKept(soft, replies, before) && Identified(byHash, replies + [Some(h)])
    requires forall hash | hash in before :: Some(byHash(hash)) in replies
    requires after == if soft(h).Some? then before[h.hash := soft(h).value] else before
    ensures SoftKept(soft, replies + [Some(h)], after)
  {
    assert Some(h) in replies + [Some(h)];
    forall r | r in replies + [Some(h)] && r.Some? ensures SoftErrOf(after, r.value.hash) == soft(r.value) {
      if r.value.hash == h.hash {
        assert r.value == byHash(h.hash) == h;
      }
    }
  }

  lemma QuorumIsAllowed(n: nat, soft: SoftErr, replies: seq<Reply>, k: nat, h: Header)
    requires k < |replies| <= n && replies[k] == Some(h) && HasQuorum(n, replies[..k + 1], h.hash)
    ensures Allowed(n, soft, replies, Found(h, soft(h)))
  {
    QuorumOfPrefix(n, replies, k + 1, h.hash);
  }

  lemma NoQuorum(n: nat, replies: seq<Reply>, counter: map<Hash, nat>)
    requires n > 0 ==> Counted(n, replies, counter)
    ensures !SomeQuorum(n, replies)
  {
  }

  /** What is left when all answers that arrived are counted without a quorum. */
  lemma LeftOverIsAllowed(n: nat, soft: SoftErr, replies: seq<Reply>, headers: seq<Header>, r: HeadResult)
    requires |replies| <= n && !SomeQuorum(n, replies) && forall h :: h in headers <==> Some(h) in replies
    requires if |replies| < n then r == Cancelled
             else if headers == [] then r == NotFound
             else r.Found? && r.header in headers && r.softErr == soft(r.header)
                  && forall h | h in headers :: h.height <= r.header.height
    ensures Allowed(n, soft, replies, r)
  {
    SomethingArrived(replies, headers);
    forall x | x in replies && x.Some? ensures x.value in headers {
      assert Some(x.value) in replies;
    }
  }

  /** The counting loop. `replies` are the answers in the order they arrive before the context ends. */
  method Head(n: nat, soft: SoftErr, replies: seq<Reply>, ghost byHash: Hash -> Header) returns (r: HeadResult)
    requires |replies| <= n && Identified(byHash, replies)
    ensures Allowed(n, soft, replies, r)
  {
    var headers: seq<Header> := [];
    var counter: map<Hash, nat> := map[];
    var softErrs: map<Hash, VerifyError> := map[];
    for k := 0 to |replies|
      invariant n > 0 ==> Counted(n, replies[..k], counter)
      invariant forall h :: h in headers <==> Some(h) in replies[..k]
      invariant forall hash | hash in softErrs :: Some(byHash(hash)) in replies[..k]
      invariant SoftKept(soft, replies[..k], softErrs)
    {
      assert replies[..k + 1] == replies[..k] + [replies[k]];
      CountOne(n, replies[..k], replies[k], counter);
      if replies[k].Some? {
        var h := replies[k].value;
        headers := headers + [h];
        ghost var kept := softErrs;
        if soft(h).Some? {
          softErrs := softErrs[h.hash := soft(h).value];
        }
        SoftKeptAfter(soft, byHash, replies[..k], h, kept, softErrs);
        counter := counter[h.hash := (if h.hash in counter then counter[h.hash] else 0) + 1];
        if counter[h.hash] >= MinHeadResponses(n) {
          QuorumIsAllowed(n, soft, replies, k, h);
          return Found(h, SoftErrOf(softErrs, h.hash));
        }
      }
    }
    assert replies[..|replies|] == replies;
    NoQuorum(n, replies, counter);
    if |replies| < n {
      r := Cancelled;
    } else if |headers| == 0 {
      r := NotFound;
    } else {
      HighestExists(headers);
      var best :| best in headers && forall h | h in headers :: h.height <= best.height;
      r := Found(best, SoftErrOf(softErrs, best.hash));
    }
    LeftOverIsAllowed(n, soft, replies, headers, r);
  }

  lemma {:induction false} HighestExists(headers: seq<Header>)
    requires headers != []
    ensures exists best :: best in headers && forall h | h in headers :: h.height <= best.height
  {
    var last := headers[|headers| - 1];
    if |headers| == 1 {
      assert last in headers;
    } else {
      var front := headers[..|headers| - 1];
      HighestExists(front);
      var best :| best in front && forall h | h in front :: h.height <= best.height;
      var top := if best.height < last.height then last else best;
      assert top in headers && forall h | h in headers :: h.height <= top.height;
    }
  }

  // ---------------------------------------------------------------- arrival order

  lemma {:induction false} VotesOfConcat(a: seq<Reply>, b: seq<Reply>, hash: Hash)
    ensures Votes(a + b, hash) == Votes(a, hash) + Votes(b, hash)
  {
    if b == [] {
      assert a + b == a;
    } else {
      VotesOfConcat(a, b[..|b| - 1], hash);
      assert (a + b)[..|a + b| - 1] == a + b[..|b| - 1];
    }
  }

  lemma VotesWithout(b: seq<Reply>, k: nat, hash: Hash)
    requires k < |b|
    ensures Votes(b, hash) == Votes(b[..k] + b[k + 1..], hash) + Votes([b[k]], hash)
  {
    assert b == b[..k] + ([b[k]] + b[k + 1..]);
    VotesOfConcat(b[..k], b[k + 1..], hash);
    VotesOfConcat(b[..k], [b[k]] + b[k + 1..], hash);
    VotesOfConcat([b[k]], b[k + 1..], hash);
  }

  lemma {:induction false} VotesIgnoreOrder(a: seq<Reply>, b: seq<Reply>, hash: Hash)
    requires multiset(a) == multiset(b)
    ensures Votes(a, hash) == Votes(b, hash)
  {
    if a == [] {
      assert |multiset(b)| == 0;
    } else {
      var front, last := a[..|a| - 1], a[|a| - 1];
      assert a == front + [last];
      assert last in multiset(b);
      var k :| 0 <= k < |b| && b[k] == last;
      var rest := b[..k] + b[k + 1..];
      assert b == b[..k] + ([last] + b[k + 1..]);
      assert multiset(rest) == multiset(b) - multiset{last};
      VotesIgnoreOrder(front, rest, hash);
      VotesWithout(b, k, hash);
      VotesOfConcat(front, [last], hash);
    }
  }

  lemma QuorumIgnoresOrder(n: nat, a: seq<Reply>, b: seq<Reply>, hash: Hash)
    requires multiset(a) == multiset(b)
    ensures HasQuorum(n, a, hash) == HasQuorum(n, b, hash)
  {
    VotesIgnoreOrder(a, b, hash);
  }

  /** A hash with a quorum is returned for every arrival order, with the same header and soft failure. */
  lemma QuorumWinsInEveryOrder(n: nat, soft: SoftErr, byHash: Hash -> Header, a: seq<Reply>, b: seq<Reply>,
                               hash: Hash, ra: HeadResult, rb: HeadResult)
    requires multiset(a) == multiset(b) && Identified(byHash, a)
    requires Allowed(n, soft, a, ra) && Allowed(n, soft, b, rb)
    requires HasQuorum(n, a, hash)
    ensures ra == rb == Found(byHash(hash), soft(byHash(hash)))
  {
    QuorumIgnoresOrder(n, a, b, hash);
    assert Some(rb.header) in multiset(a);
  }

  /** Without a quorum, every arrival order of all n answers returns a header of the greatest height. */
  lemma HighestInEveryOrder(n: nat, soft: SoftErr, a: seq<Reply>, b: seq<Reply>, ra: HeadResult, rb: HeadResult)
    requires multiset(a) == multiset(b) && |a| == n && !SomeQuorum(n, a)
    requires Allowed(n, soft, a, ra) && Allowed(n, soft, b, rb)
    ensures ra.Found? == rb.Found? == !NoHeaders(a)
    ensures ra.Found? ==> ra.header.height == rb.header.height && IsHighest(a, ra.header) && IsHighest(a, rb.header)
  {
    assert |b| == |multiset(b)| == |multiset(a)| == n;
    forall hash ensures !HasQuorum(n, b, hash) {
      QuorumIgnoresOrder(n, a, b, hash);
    }
    assert forall r :: r in a <==> r in multiset(a);
    assert forall r :: r in b <==> r in multiset(b);
  }
}
