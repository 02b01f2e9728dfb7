/**
 * The range session (p2p/session.go): a range of heights is split into requests, the requests go to
 * peers, failed ones are put back and partial answers leave a smaller request behind.
 */
module Session {
  import opened Headers
  import opened Runs
  import opened Sums
  import opened Verification

  datatype Request = Request(origin: nat, amount: nat)

  predicate Asks(r: Request, n: nat) {
    r.origin <= n < r.origin + r.amount
  }

  // ---------------------------------------------------------------- splitting

  /** How often a list of requests asks for height n. */
  function Weight(n: nat): Request -> nat {
    (r: Request) => if Asks(r, n) then 1 else 0
  }

  function Once(low: nat, high: nat, n: nat): nat {
    if low <= n < high then 1 else 0
  }

  /** The requests follow each other through the range [from, from+amount), none of them empty. */
  predicate Splits(requests: seq<Request>, from: nat, amount: nat) {
    if requests == [] then amount == 0
    else
      && requests[0].origin == from && 0 < requests[0].amount <= amount
      && Splits(requests[1..], from + requests[0].amount, amount - requests[0].amount)
  }

  lemma {:induction false} SplitsSnoc(requests: seq<Request>, from: nat, amount: nat, r: Request)
    requires Splits(requests, from, amount) && r.origin == from + amount && r.amount > 0
    ensures Splits(requests + [r], from, amount + r.amount)
  {
    if requests == [] {
      assert [r][1..] == [];
    } else {
      var first := requests[0].amount;
      SplitsSnoc(requests[1..], from + first, amount - first, r);
      assert (requests + [r])[1..] == requests[1..] + [r];
    }
  }

  /** Every height of the range is asked for exactly once, and none outside it. */
  lemma {:induction false} SplitsAskOnce(requests: seq<Request>, from: nat, amount: nat, n: nat)
    requires Splits(requests, from, amount)
    ensures Sum(requests, Weight(n)) == Once(from, from + amount, n)
  {
    if requests != [] {
      SplitsAskOnce(requests[1..], from + requests[0].amount, amount - requests[0].amount, n);
    }
  }

  /** prepareRequests: the requests split the range, and all but the last have the given size. */
  method PrepareRequests(from: nat, amount: nat, headersPerPeer: nat) returns (requests: seq<Request>)
    requires headersPerPeer > 0
    ensures Splits(requests, from, amount)
    ensures forall i | 0 <= i < |requests| :: requests[i].amount <= headersPerPeer
    ensures forall i | 0 <= i < |requests| - 1 :: requests[i].amount == headersPerPeer
    ensures amount <= headersPerPeer ==> requests == if amount == 0 then [] else [Request(from, amount)]
  {
    requests := [];
    var low: nat, left: nat := from, amount;
    while left > 0
      invariant left > 0 ==> from <= low && low + left == from + amount && Splits(requests, from, low - from)
      invariant left == 0 ==> Splits(requests, from, amount)
      invariant forall i | 0 <= i < |requests| :: requests[i].amount <= headersPerPeer
      invariant forall i | 0 <= i < |requests| - 1 :: requests[i].amount == headersPerPeer
      invariant left > 0 && requests != [] ==> requests[|requests| - 1].amount == headersPerPeer
      invariant left == amount ==> low == from && requests == []
      invariant left < amount <= headersPerPeer ==> left == 0 && requests == [Request(from, amount)]
      decreases left
    {
      var request: Request;
      if left < headersPerPeer {
        request := Request(low, left);
        SplitsSnoc(requests, from, low - from, request);
        left := 0;
      } else {
        request := Request(low, headersPerPeer);
        SplitsSnoc(requests, from, low - from, request);
        left, low := left - headersPerPeer, low + headersPerPeer;
      }
      requests := requests + [request];
    }
  }

  // ---------------------------------------------------------------- answers

  datatype Response = StatusError(notFound: bool) | Malformed | Decoded(header: Header)

  datatype AnswerError = EmptyResponse | NotFound | UnexpectedRange | Rejected

  datatype Answer = Good(headers: seq<Header>) | Bad(err: AnswerError)

  /** The first response that does not hold a header decides. */
  method Decode(responses: seq<Response>) returns (a: Answer)
    ensures a.Good? <==> responses != [] && forall i | 0 <= i < |responses| :: responses[i].Decoded?
    ensures a.Good? ==> |a.headers| == |responses| && forall i | 0 <= i < |responses| :: a.headers[i] == responses[i].header
    ensures a == Bad(EmptyResponse) <==> responses == []
    ensures a == Bad(NotFound) <==> exists i | 0 <= i < |responses| ::
                                      responses[i] == StatusError(true) && forall j | 0 <= j < i :: responses[j].Decoded?
    ensures a != Bad(UnexpectedRange)
  {
    if |responses| == 0 {
      return Bad(EmptyResponse);
    }
    var hdrs := [];
    for i := 0 to |responses|
      invariant |hdrs| == i && forall j | 0 <= j < i :: responses[j].Decoded? && hdrs[j] == responses[j].header
    {
      match responses[i]
      case StatusError(notFound) => return Bad(if notFound then NotFound else Rejected);
      case Malformed => return Bad(Rejected);
      case Decoded(header) => hdrs := hdrs + [header];
    }
    return Good(hdrs);
  }

  predicate AllDecoded(responses: seq<Response>) {
    forall i | 0 <= i < |responses| :: responses[i].Decoded?
  }

  /** The headers of responses that all hold one. */
  function HeadersOf(responses: seq<Response>): (hs: seq<Header>)
    requires AllDecoded(responses)
    ensures |hs| == |responses| && forall i | 0 <= i < |hs| :: responses[i] == Decoded(hs[i])
  {
    seq(|responses|, i requires 0 <= i < |responses| => responses[i].header)
  }

  /** Every header of an answer passes, against the one before it or the trusted one. */
  predicate AllExtend(user: UserVerify, clock: nat -> int, trusted: Option<Header>, hs: seq<Header>) {
    forall k | 0 <= k < |hs| :: Extends(user, clock, trusted, hs, k)
  }

  /** What an accepted answer guarantees; in a session with a trusted header its heights are consecutive. */
  predicate Answers(validated: bool, r: Request, hs: seq<Header>) {
    && hs != [] && hs[0].height == r.origin
    && (validated ==> forall k | 0 <= k < |hs| :: hs[k].height == r.origin + k)
  }

  /**
   * session.processResponses. `trusted` is None when the session does not validate. An answer is accepted
   * exactly when there is one, all of it decodes, it starts at the requested height, and in a session
   * that validates all of it is verified. The error decides whether the peer stays.
   */
  method ProcessResponses(user: UserVerify, clock: nat -> int, trusted: Option<Header>, r: Request, responses: seq<Response>)
    returns (a: Answer)
    ensures a.Good? ==> |a.headers| == |responses| && Answers(trusted.Some?, r, a.headers)
    ensures a.Good? ==> forall i | 0 <= i < |responses| :: responses[i] == Decoded(a.headers[i])
    ensures a.Good? && trusted.Some? ==> LongestVerified(user, clock, trusted, a.headers, |a.headers|)
    ensures a.Good? <==> && responses != [] && AllDecoded(responses) && responses[0].header.height == r.origin
                         && (trusted.None? || AllExtend(user, clock, trusted, HeadersOf(responses)))
    ensures a == Bad(EmptyResponse) <==> responses == []
    ensures a == Bad(NotFound) <==> exists i | 0 <= i < |responses| ::
                                      responses[i] == StatusError(true) && forall j | 0 <= j < i :: responses[j].Decoded?
    ensures a == Bad(UnexpectedRange) <==>
              responses != [] && AllDecoded(responses) && responses[0].header.height != r.origin
  {
    a := Decode(responses);
    if a.Bad? {
      return;
    }
    assert a.headers == HeadersOf(responses);
    if a.headers[0].height != r.origin {
      return Bad(UnexpectedRange);
    }
    if trusted.None? {
      return;
    }
    var verified, err := VerifyRange(user, clock, trusted, a.headers);
    if err.Some? {
      return Bad(Rejected);
    }
    forall k: nat | k < |verified| ensures verified[k].height == verified[0].height + k {
      VerifiedIsConsecutive(user, clock, trusted, a.headers, |verified|, k);
    }
  }

  // ---------------------------------------------------------------- the session as a step system

  datatype Config = Config(from: nat, amount: nat, capacity: nat, validated: bool)

  /** A doRequest goroutine: waiting for its peer, or about to hand over headers. */
  datatype Task = Working(req: Request) | Delivering(headers: seq<Header>)

  /**
   * `toSend` is what getRangeByHeight has still to put into `reqCh`; `held` is the request
   * handleOutgoingRequests took out of it and has no peer for yet.
   */
  datatype State = State(toSend: seq<Request>, reqCh: seq<Request>, held: Option<Request>, tasks: seq<Task>,
                         result: seq<seq<Header>>, headers: seq<Header>, closed: bool)

  datatype Step =
    | Send | Take | Assign | Fail(task: nat) | Succeed(task: nat, answer: seq<Header>) | Deliver(task: nat) | Collect
    | Close | Abandon(task: nat) | Leave

  /** What is left of a request after an answer, as prepareRequests makes it. */
  function Rest(r: Request, hs: seq<Header>): seq<Request>
    requires hs != [] && |hs| <= r.amount
  {
    if |hs| == r.amount then [] else [Request(hs[|hs| - 1].height + 1, r.amount - |hs|)]
  }

  function Next(c: Config, s: State, step: Step): Option<State> {
    match step
    case Send =>
      if s.toSend == [] || |s.reqCh| >= c.capacity then None
      else Some(s.(toSend := s.toSend[1..], reqCh := s.reqCh + [s.toSend[0]]))
    case Take =>
      if s.reqCh == [] || s.held.Some? then None else Some(s.(reqCh := s.reqCh[1..], held := Some(s.reqCh[0])))
    case Assign =>
      if s.held.None? then None else Some(s.(held := None, tasks := s.tasks + [Working(s.held.value)]))
    case Fail(i) =>
      if i >= |s.tasks| || !s.tasks[i].Working? || |s.reqCh| >= c.capacity then None
      else Some(s.(tasks := Without(s.tasks, i), reqCh := s.reqCh + [s.tasks[i].req]))
    case Succeed(i, hs) =>
      if i >= |s.tasks| || !s.tasks[i].Working? || !Answers(c.validated, s.tasks[i].req, hs) || |hs| > s.tasks[i].req.amount
         || |s.reqCh| + |Rest(s.tasks[i].req, hs)| > c.capacity
      then None
      else Some(s.(reqCh := s.reqCh + Rest(s.tasks[i].req, hs), tasks := s.tasks[i := Delivering(hs)]))
    case Deliver(i) =>
      if i >= |s.tasks| || !s.tasks[i].Delivering? || |s.result| >= c.capacity then None
      else Some(s.(tasks := Without(s.tasks, i), result := s.result + [s.tasks[i].headers]))
    case Collect =>
      if s.toSend != [] || s.result == [] || Complete(c, s) then None
      else Some(s.(result := s.result[1..], headers := s.headers + s.result[0]))
    case Close => Some(s.(closed := true))
    case Abandon(i) =>
      if !s.closed || i >= |s.tasks| || !s.tasks[i].Working? then None else Some(s.(tasks := Without(s.tasks, i)))
    case Leave =>
      if !s.closed then None else Some(s.(held := None))
  }

  function Machine(c: Config): (State, Step) -> Option<State> {
    (s, step) => Next(c, s, step)
  }

  /** getRangeByHeight leaves its loop, after an answer that completes the amount: never, for an empty range. */
  predicate Complete(c: Config, s: State) {
    s.headers != [] && |s.headers| >= c.amount
  }

  /** The requests are those prepareRequests makes, and the channels have room for as many. */
  predicate Start(c: Config, s: State) {
    && Splits(s.toSend, c.from, c.amount)
    && s.reqCh == [] && s.held == None && s.tasks == [] && s.result == [] && s.headers == [] && !s.closed
    && |s.toSend| == c.capacity
  }

  // ---------------------------------------------------------------- conservation

  function Height(n: nat): Header -> nat {
    (h: Header) => if h.height == n then 1 else 0
  }

  function Got(n: nat): seq<Header> -> nat {
    (hs: seq<Header>) => Sum(hs, Height(n))
  }

  function OfTask(n: nat, task: Task): nat {
    match task
    case Working(r) => Weight(n)(r)
    case Delivering(hs) => Got(n)(hs)
  }

  function InTask(n: nat): Task -> nat {
    (task: Task) => OfTask(n, task)
  }

  function Held(s: State): seq<Request> {
    if s.held.Some? then [s.held.value] else []
  }

  /** How often height n is requested or received, counting every place a session keeps it. */
  function Total(s: State, n: nat): nat {
    Sum(s.toSend, Weight(n)) + Sum(s.reqCh, Weight(n)) + Sum(Held(s), Weight(n))
    + Sum(s.tasks, InTask(n)) + Sum(s.result, Got(n)) + Sum(s.headers, Height(n))
  }

  /** A validated answer and what is left of its request together cover the request, once. */
  lemma {:induction false} AnswerSplitsRequest(r: Request, hs: seq<Header>, n: nat)
    requires Answers(true, r, hs) && |hs| <= r.amount
    ensures Sum(hs, Height(n)) + Sum(Rest(r, hs), Weight(n)) == Weight(n)(r)
  {
    ConsecutiveOnce(hs, r.origin, n);
  }

  lemma {:induction false} ConsecutiveOnce(hs: seq<Header>, origin: nat, n: nat)
    requires forall k | 0 <= k < |hs| :: hs[k].height == origin + k
    ensures Sum(hs, Height(n)) == Once(origin, origin + |hs|, n)
  {
    if hs != [] {
      ConsecutiveOnce(hs[1..], origin + 1, n);
    }
  }

  predicate OfTaskStep(step: Step) {
    step.Fail? || step.Succeed? || step.Deliver? || step.Abandon?
  }

  /** An answer that is accepted has consecutive heights. */
  predicate AnswerIsStrict(s: State, step: Step) {
    step.Succeed? && step.task < |s.tasks| && s.tasks[step.task].Working? ==> Answers(true, s.tasks[step.task].req, step.answer)
  }

  lemma TaskStepConserves(c: Config, s: State, step: Step, n: nat)
    requires OfTaskStep(step) && Next(c, s, step).Some? && AnswerIsStrict(s, step)
    ensures if step.Abandon? then Total(Next(c, s, step).value, n) <= Total(s, n)
            else Total(Next(c, s, step).value, n) == Total(s, n)
  {
    match step
    case Fail(i) =>
      SumWithout(s.tasks, i, InTask(n));
      SumSnoc(s.reqCh, s.tasks[i].req, Weight(n));
    case Succeed(i, hs) =>
      var r := s.tasks[i].req;
      SumUpdate(s.tasks, i, Delivering(hs), InTask(n));
      SumConcat(s.reqCh, Rest(r, hs), Weight(n));
      AnswerSplitsRequest(r, hs, n);
    case Deliver(i) =>
      SumWithout(s.tasks, i, InTask(n));
      SumSnoc(s.result, s.tasks[i].headers, Got(n));
    case Abandon(i) => SumWithout(s.tasks, i, InTask(n));
  }

  /** Every step moves heights between places; only a closed session loses some. */
  lemma StepConserves(c: Config, s: State, step: Step, n: nat)
    requires Next(c, s, step).Some? && AnswerIsStrict(s, step)
    ensures var t := Next(c, s, step).value;
            Total(t, n) <= Total(s, n) && (step.Abandon? || step.Leave? || Total(t, n) == Total(s, n))
  {
    match step
    case Send => SumSnoc(s.reqCh, s.toSend[0], Weight(n));
    case Take => SumOne(s.reqCh[0], Weight(n));
    case Assign =>
      SumOne(s.held.value, Weight(n));
      SumSnoc(s.tasks, Working(s.held.value), InTask(n));
    case Collect => SumConcat(s.headers, s.result[0], Height(n));
    case Close =>
    case Leave =>
    case _ => TaskStepConserves(c, s, step, n);
  }

  // ---------------------------------------------------------------- tokens

  function Token(): Task -> nat {
    (task: Task) => if task.Working? then 1 else 0
  }

  /** Requests that are, or will be, in the request channel. */
  function Tokens(s: State): nat {
    |s.toSend| + |s.reqCh| + |Held(s)| + Sum(s.tasks, Token())
  }

  lemma StepKeepsTokens(c: Config, s: State, step: Step)
    requires Next(c, s, step).Some?
    ensures Tokens(Next(c, s, step).value) <= Tokens(s)
  {
    match step
    case Assign => SumSnoc(s.tasks, Working(s.held.value), Token());
    case Fail(i) => SumWithout(s.tasks, i, Token());
    case Succeed(i, hs) => SumUpdate(s.tasks, i, Delivering(hs), Token());
    case Deliver(i) => SumWithout(s.tasks, i, Token());
    case Abandon(i) => SumWithout(s.tasks, i, Token());
    case _ =>
  }

  lemma {:induction false} TokensFitTheChannel(c: Config, start: State, steps: seq<Step>)
    requires Start(c, start)
    ensures var end := Exec(Machine(c), start, steps); end.Some? ==> Tokens(end.value) <= c.capacity
  {
    if steps == [] {
      assert Tokens(start) == |start.toSend|;
    } else {
      var front := steps[..|steps| - 1];
      TokensFitTheChannel(c, start, front);
      var before := Exec(Machine(c), start, front);
      if before.Some? && Next(c, before.value, steps[|front|]).Some? {
        StepKeepsTokens(c, before.value, steps[|front|]);
      }
    }
  }

  /**
   * In every run, validated or not, the request tokens fit the request channel, so no send into it
   * ever blocks: there is room for the next request, for a failed one and for what is left of one.
   */
  lemma SendsNeverBlock(c: Config, start: State, steps: seq<Step>, s: State, i: nat, hs: seq<Header>)
    requires Start(c, start) && Exec(Machine(c), start, steps) == Some(s)
    ensures Tokens(s) <= c.capacity
    ensures s.toSend != [] ==> Next(c, s, Send).Some?
    ensures i < |s.tasks| && s.tasks[i].Working? ==> Next(c, s, Fail(i)).Some?
    ensures i < |s.tasks| && s.tasks[i].Working? && Answers(c.validated, s.tasks[i].req, hs) && |hs| <= s.tasks[i].req.amount ==>
              Next(c, s, Succeed(i, hs)).Some?
  {
    TokensFitTheChannel(c, start, steps);
    if i < |s.tasks| {
      SumHas(s.tasks, i, Token());
    }
  }

  // ---------------------------------------------------------------- runs

  predicate SmallOnly(requests: seq<Request>) {
    forall r | r in requests :: r.amount <= 1
  }

  /** No request, wherever it is, asks for more than one header. */
  predicate Small(s: State) {
    && SmallOnly(s.toSend) && SmallOnly(s.reqCh) && SmallOnly(Held(s))
    && (forall task | task in s.tasks && task.Working? :: task.req.amount <= 1)
  }

  ghost predicate Inv(c: Config, s: State) {
    && (c.validated || Small(s))
    && (forall n :: Total(s, n) <= Once(c.from, c.from + c.amount, n))
    && (!s.closed ==> forall n :: Total(s, n) == Once(c.from, c.from + c.amount, n))
  }

  lemma StepKeepsSmall(c: Config, s: State, step: Step)
    requires Small(s) && Next(c, s, step).Some?
    ensures Small(Next(c, s, step).value)
  {
    match step
    case Assign => assert s.held.value in Held(s);
    case Fail(i) => assert s.tasks[i] in s.tasks;
    case Succeed(i, hs) => assert s.tasks[i] in s.tasks;
    case _ =>
  }

  lemma StepKeepsInv(c: Config, s: State, step: Step)
    requires Inv(c, s) && Next(c, s, step).Some?
    ensures Inv(c, Next(c, s, step).value)
  {
    if !c.validated {
      StepKeepsSmall(c, s, step);
    }
    forall n ensures Total(Next(c, s, step).value, n) <= Total(s, n)
                     && (step.Abandon? || step.Leave? || Total(Next(c, s, step).value, n) == Total(s, n)) {
      StepConserves(c, s, step, n);
    }
  }

  /**
   * In every run of a validated session, or of one whose requests are for one header each, every
   * height of the range is in exactly one place, requested or received, and nowhere twice; a closed
   * session may only have lost some.
   */
  lemma {:induction false} HeightsAreConserved(c: Config, start: State, steps: seq<Step>)
    requires Start(c, start) && (c.validated || SmallOnly(start.toSend))
    ensures var end := Exec(Machine(c), start, steps); end.Some? ==> Inv(c, end.value)
  {
    forall n ensures Total(start, n) == Once(c.from, c.from + c.amount, n) {
      SplitsAskOnce(start.toSend, c.from, c.amount, n);
    }
    forall s, a | Inv(c, s) && Machine(c)(s, a).Some? ensures Inv(c, Machine(c)(s, a).value) {
      StepKeepsInv(c, s, a);
    }
    InvariantHolds(Machine(c), s => Inv(c, s), start, steps);
  }

  // ---------------------------------------------------------------- completion

  predicate SortedByHeight(hs: seq<Header>) {
    forall i, j | 0 <= i < j < |hs| :: hs[i].height <= hs[j].height
  }

  lemma SortedHeaders(hs: seq<Header>) returns (out: seq<Header>)
    ensures multiset(out) == multiset(hs) && SortedByHeight(out)
  {
    var key: Header -> nat := (h: Header) => h.height;
    out := SortedExists(hs, key);
    forall j, k | 0 <= j < k < |out| ensures out[j].height <= out[k].height {
      assert key(out[j]) <= key(out[k]);
    }
  }

  /** The heights from, from+1, ..., from+amount-1, in this order. */
  predicate IsTheRange(c: Config, out: seq<Header>) {
    |out| == c.amount && forall i | 0 <= i < |out| :: out[i].height == c.from + i
  }

  /** What getRangeByHeight returns, its headers sorted by height: exactly the heights it was asked for. */
  lemma CompleteIsTheRange(c: Config, s: State, out: seq<Header>)
    requires Inv(c, s) && Complete(c, s)
    requires multiset(out) == multiset(s.headers) && SortedByHeight(out)
    ensures IsTheRange(c, out)
  {
    forall n ensures Sum(out, Height(n)) <= Once(c.from, c.from + c.amount, n) {
      SumOfPermutation(out, s.headers, Height(n));
      assert Total(s, n) <= Once(c.from, c.from + c.amount, n);
    }
    assert |out| == |multiset(out)| == |multiset(s.headers)| == |s.headers|;
    DistinctAndSorted(out, c.from, c.from + c.amount);
    if out != [] {
      RisesByOne(out, 0, |out| - 1);
    }
    forall i: nat | i < |out| ensures out[i].height == c.from + i {
      RisesByOne(out, 0, i);
      RisesByOne(out, i, |out| - 1);
    }
  }

  /** Every completed run of a validated session returns exactly the range, whatever failed on the way. */
  lemma SessionReturnsTheRange(c: Config, start: State, steps: seq<Step>, s: State, out: seq<Header>)
    requires Start(c, start) && Exec(Machine(c), start, steps) == Some(s) && Complete(c, s)
    requires c.validated || SmallOnly(start.toSend)
    requires multiset(out) == multiset(s.headers) && SortedByHeight(out)
    ensures IsTheRange(c, out)
  {
    HeightsAreConserved(c, start, steps);
    CompleteIsTheRange(c, s, out);
  }

  predicate PositiveOnly(requests: seq<Request>) {
    forall r | r in requests :: r.amount > 0
  }

  /** Every request asks for something, and every answer holds something. */
  predicate Positive(s: State) {
    && PositiveOnly(s.toSend) && PositiveOnly(s.reqCh) && PositiveOnly(Held(s))
    && (forall task | task in s.tasks :: if task.Working? then task.req.amount > 0 else task.headers != [])
    && (forall i | 0 <= i < |s.result| :: s.result[i] != [])
  }

  lemma {:induction false} SplitsArePositive(requests: seq<Request>, from: nat, amount: nat)
    requires Splits(requests, from, amount)
    ensures PositiveOnly(requests)
  {
    if requests != [] {
      SplitsArePositive(requests[1..], from + requests[0].amount, amount - requests[0].amount);
      assert requests == [requests[0]] + requests[1..];
    }
  }

  lemma StepKeepsPositive(c: Config, s: State, step: Step)
    requires Positive(s) && Next(c, s, step).Some?
    ensures Positive(Next(c, s, step).value)
  {
    match step
    case Send => assert s.toSend[0] in s.toSend;
    case Take => assert s.reqCh[0] in s.reqCh;
    case Assign => assert s.held.value in Held(s);
    case Fail(i) => assert s.tasks[i] in s.tasks;
    case Succeed(i, hs) => assert s.tasks[i] in s.tasks;
    case Deliver(i) => assert s.tasks[i] in s.tasks;
    case _ =>
  }

  lemma RunIsPositive(c: Config, start: State, steps: seq<Step>)
    requires Start(c, start)
    ensures var end := Exec(Machine(c), start, steps); end.Some? ==> Positive(end.value)
  {
    SplitsArePositive(start.toSend, c.from, c.amount);
    forall s, a | Positive(s) && Machine(c)(s, a).Some? ensures Positive(Machine(c)(s, a).value) {
      StepKeepsPositive(c, s, a);
    }
    InvariantHolds(Machine(c), Positive, start, steps);
  }

  lemma NoRequestLeft(requests: seq<Request>)
    requires PositiveOnly(requests) && forall n :: Sum(requests, Weight(n)) == 0
    ensures requests == []
  {
    if requests != [] {
      SumHas(requests, 0, Weight(requests[0].origin));
    }
  }

  lemma NoAnswerLeft(hs: seq<Header>)
    requires hs != []
    ensures Got(hs[0].height)(hs) > 0
  {
    SumHas(hs, 0, Height(hs[0].height));
  }

  lemma NoTaskLeft(tasks: seq<Task>)
    requires forall task | task in tasks :: if task.Working? then task.req.amount > 0 else task.headers != []
    requires forall n :: Sum(tasks, InTask(n)) == 0
    ensures tasks == []
  {
    if tasks != [] {
      var n := if tasks[0].Working? then tasks[0].req.origin else tasks[0].headers[0].height;
      SumHas(tasks, 0, InTask(n));
      if tasks[0].Delivering? {
        NoAnswerLeft(tasks[0].headers);
      }
    }
  }

  lemma NoResultLeft(result: seq<seq<Header>>)
    requires forall i | 0 <= i < |result| :: result[i] != []
    requires forall n :: Sum(result, Got(n)) == 0
    ensures result == []
  {
    if result != [] {
      NoAnswerLeft(result[0]);
      SumHas(result, 0, Got(result[0][0].height));
    }
  }

  /** Once the range is complete, conservation leaves nothing for any other place. */
  lemma NothingElse(c: Config, s: State, n: nat)
    requires Inv(c, s) && Complete(c, s)
    ensures Total(s, n) == Sum(s.headers, Height(n))
  {
    var out := SortedHeaders(s.headers);
    CompleteIsTheRange(c, s, out);
    ConsecutiveOnce(out, c.from, n);
    assert Total(s, n) <= Once(c.from, c.from + c.amount, n);
    SumOfPermutation(out, s.headers, Height(n));
  }

  lemma EmptyButForHeaders(s: State)
    requires Positive(s) && forall n :: Total(s, n) == Sum(s.headers, Height(n))
    ensures s.toSend == s.reqCh == [] && s.held == None && s.tasks == [] && s.result == []
  {
    forall n ensures Sum(s.toSend, Weight(n)) == Sum(s.reqCh, Weight(n)) == Sum(Held(s), Weight(n)) == 0
                     && Sum(s.tasks, InTask(n)) == 0 && Sum(s.result, Got(n)) == 0 {
      assert Total(s, n) == Sum(s.headers, Height(n));
    }
    NoRequestLeft(s.toSend);
    NoRequestLeft(s.reqCh);
    NoRequestLeft(Held(s));
    NoTaskLeft(s.tasks);
    NoResultLeft(s.result);
  }

  /**
   * When such a session completes, no request is queued, held or with a peer, and no task waits to
   * hand over headers nobody collects any more.
   */
  lemma CompletionLeavesNothing(c: Config, start: State, steps: seq<Step>, s: State)
    requires Start(c, start) && Exec(Machine(c), start, steps) == Some(s) && Complete(c, s)
    requires c.validated || SmallOnly(start.toSend)
    ensures s.toSend == s.reqCh == [] && s.held == None && s.tasks == [] && s.result == []
  {
    RunIsPositive(c, start, steps);
    HeightsAreConserved(c, start, steps);
    forall n ensures Total(s, n) == Sum(s.headers, Height(n)) {
      NothingElse(c, s, n);
    }
    EmptyButForHeaders(s);
  }

  predicate Rising(hs: seq<Header>) {
    forall i | 0 <= i < |hs| - 1 :: hs[i].height < hs[i + 1].height
  }

  lemma DistinctAndSorted(hs: seq<Header>, low: nat, high: nat)
    requires SortedByHeight(hs) && forall n :: Sum(hs, Height(n)) <= Once(low, high, n)
    ensures Rising(hs) && forall i | 0 <= i < |hs| :: low <= hs[i].height < high
  {
    forall i | 0 <= i < |hs| ensures low <= hs[i].height < high {
      SumHas(hs, i, Height(hs[i].height));
      assert Sum(hs, Height(hs[i].height)) <= Once(low, high, hs[i].height);
    }
    forall i | 0 <= i < |hs| - 1 ensures hs[i].height < hs[i + 1].height {
      SumHasTwo(hs, i, i + 1, Height(hs[i].height));
      assert Sum(hs, Height(hs[i].height)) <= Once(low, high, hs[i].height);
    }
  }

  lemma {:induction false} RisesByOne(hs: seq<Header>, i: nat, j: nat)
    requires Rising(hs) && i <= j < |hs|
    ensures hs[i].height + (j - i) <= hs[j].height
    decreases j - i
  {
    if i < j {
      RisesByOne(hs, i, j - 1);
      assert hs[j - 1].height < hs[j - 1 + 1].height;
    }
  }

  // ---------------------------------------------------------------- completion stays possible

  predicate At(c: Config, start: State, steps: seq<Step>, s: State) {
    Exec(Machine(c), start, steps) == Some(s)
  }

  function Amount(): Request -> nat {
    (r: Request) => r.amount
  }

  function TaskAmount(): Task -> nat {
    (task: Task) => if task.Working? then task.req.amount else |task.headers|
  }

  function Length(): seq<Header> -> nat {
    (hs: seq<Header>) => |hs|
  }

  /** How many headers are requested or received. */
  function Amounts(s: State): nat {
    Sum(s.toSend, Amount()) + Sum(s.reqCh, Amount()) + Sum(Held(s), Amount())
    + Sum(s.tasks, TaskAmount()) + Sum(s.result, Length()) + |s.headers|
  }

  lemma {:induction false} SplitsTakeTheAmount(requests: seq<Request>, from: nat, amount: nat)
    requires Splits(requests, from, amount)
    ensures Sum(requests, Amount()) == amount
  {
    if requests != [] {
      SplitsTakeTheAmount(requests[1..], from + requests[0].amount, amount - requests[0].amount);
    }
  }

  lemma TaskStepKeepsAmounts(c: Config, s: State, step: Step)
    requires OfTaskStep(step) && Next(c, s, step).Some? && !step.Abandon?
    ensures Amounts(Next(c, s, step).value) == Amounts(s)
  {
    match step
    case Fail(i) =>
      SumWithout(s.tasks, i, TaskAmount());
      SumSnoc(s.reqCh, s.tasks[i].req, Amount());
    case Succeed(i, hs) =>
      var rest := Rest(s.tasks[i].req, hs);
      SumUpdate(s.tasks, i, Delivering(hs), TaskAmount());
      SumConcat(s.reqCh, rest, Amount());
      if rest != [] {
        SumOne(rest[0], Amount());
      }
    case Deliver(i) =>
      SumWithout(s.tasks, i, TaskAmount());
      SumSnoc(s.result, s.tasks[i].headers, Length());
  }

  lemma StepKeepsAmounts(c: Config, s: State, step: Step)
    requires Next(c, s, step).Some? && !step.Abandon? && !step.Leave?
    ensures Amounts(Next(c, s, step).value) == Amounts(s)
  {
    match step
    case Send => SumSnoc(s.reqCh, s.toSend[0], Amount());
    case Take => SumOne(s.reqCh[0], Amount());
    case Assign =>
      SumOne(s.held.value, Amount());
      SumSnoc(s.tasks, Working(s.held.value), TaskAmount());
    case Collect =>
    case Close =>
    case _ => TaskStepKeepsAmounts(c, s, step);
  }

  /** As long as a session is open, what is received and what is requested make up the range. */
  predicate AmountKept(c: Config, s: State) {
    s.closed || Amounts(s) == c.amount
  }

  lemma RunKeepsAmounts(c: Config, start: State, steps: seq<Step>)
    requires Start(c, start)
    ensures var end := Exec(Machine(c), start, steps); end.Some? ==> AmountKept(c, end.value)
  {
    SplitsTakeTheAmount(start.toSend, c.from, c.amount);
    forall s, a | AmountKept(c, s) && Machine(c)(s, a).Some? ensures AmountKept(c, Machine(c)(s, a).value) {
      if !s.closed {
        StepKeepsAmounts(c, s, a);
      }
    }
    InvariantHolds(Machine(c), s => AmountKept(c, s), start, steps);
  }

  /** A peer's full and correct answer. */
  function Honest(r: Request): (hs: seq<Header>)
    ensures |hs| == r.amount && forall k | 0 <= k < |hs| :: hs[k].height == r.origin + k
  {
    seq(r.amount, k requires 0 <= k < r.amount => Header("", r.origin + k, [], [], 0))
  }

  function TaskWork(): Task -> nat {
    (task: Task) => if task.Working? then 3 else 2
  }

  /** The steps left if every peer answers fully at once. */
  function Work(s: State): nat {
    6 * |s.toSend| + 5 * |s.reqCh| + 4 * |Held(s)| + Sum(s.tasks, TaskWork()) + |s.result|
  }

  lemma HonestTaskStep(c: Config, s: State) returns (step: Step)
    requires Positive(s) && Tokens(s) <= c.capacity && c.capacity > 0 && s.tasks != [] && s.result == []
    ensures Next(c, s, step).Some? && Next(c, s, step).value.closed == s.closed
    ensures Work(Next(c, s, step).value) < Work(s)
  {
    SumHas(s.tasks, 0, Token());
    assert s.tasks[0] in s.tasks;
    if s.tasks[0].Delivering? {
      SumWithout(s.tasks, 0, TaskWork());
      return Deliver(0);
    }
    SumUpdate(s.tasks, 0, Delivering(Honest(s.tasks[0].req)), TaskWork());
    return Succeed(0, Honest(s.tasks[0].req));
  }

  /** While a session is open and not complete, some step with an honest answer brings it forward. */
  lemma HonestStep(c: Config, s: State) returns (step: Step)
    requires Positive(s) && Tokens(s) <= c.capacity && !s.closed && !Complete(c, s)
    requires Amounts(s) == c.amount && c.amount > 0 && c.capacity > 0
    ensures Next(c, s, step).Some? && !Next(c, s, step).value.closed
    ensures Work(Next(c, s, step).value) < Work(s)
  {
    if s.toSend != [] {
      return Send;
    }
    if s.result != [] {
      return Collect;
    }
    if s.tasks != [] {
      step := HonestTaskStep(c, s);
      return;
    }
    if s.held.Some? {
      SumSnoc(s.tasks, Working(s.held.value), TaskWork());
      return Assign;
    }
    return Take;
  }

  /**
   * From every reached state of an open session, validated or not, honest answers complete it: no
   * failure, partial answer or interleaving before leaves it stuck.
   */
  lemma {:induction false} CompletionStaysPossible(c: Config, start: State, steps: seq<Step>, s: State)
    returns (longer: seq<Step>, t: State)
    requires Start(c, start) && At(c, start, steps, s) && !s.closed && c.amount > 0
    ensures At(c, start, longer, t) && Complete(c, t)
    decreases Work(s)
  {
    if Complete(c, s) {
      return steps, s;
    }
    RunIsPositive(c, start, steps);
    TokensFitTheChannel(c, start, steps);
    RunKeepsAmounts(c, start, steps);
    var step := HonestStep(c, s);
    ExecSnoc(Machine(c), start, steps, step);
    longer, t := CompletionStaysPossible(c, start, steps + [step], Next(c, s, step).value);
  }

  /** A session can be closed at any time, stays closed, and then lets go of its requests. */
  lemma ClosedSessionLetsGo(c: Config, s: State, i: nat)
    ensures Next(c, s, Close) == Some(s.(closed := true))
    ensures s.closed && i < |s.tasks| && s.tasks[i].Working? ==>
              Next(c, s, Abandon(i)).Some? && Next(c, s, Abandon(i)).value.tasks == s.tasks[..i] + s.tasks[i + 1..]
    ensures s.closed ==> Next(c, s, Leave).Some? && Next(c, s, Leave).value.held == None
    ensures forall step | s.closed && Next(c, s, step).Some? :: Next(c, s, step).value.closed
  {
  }

  // ---------------------------------------------------------------- without a trusted header

  /** Every completed run returns the range. */
  ghost predicate AlwaysReturnsTheRange(c: Config, start: State) {
    forall steps, out :: EndsWithTheRange(c, start, steps, out)
  }

  ghost predicate EndsWithTheRange(c: Config, start: State, steps: seq<Step>, out: seq<Header>) {
    var end := Exec(Machine(c), start, steps);
    end.Some? && Complete(c, end.value) && multiset(out) == multiset(end.value.headers) && SortedByHeight(out) ==> IsTheRange(c, out)
  }

  /**
   * Exactly when the session validates, or none of its requests is for more than one header, does
   * every completed run return the range.
   */
  lemma ReturnsTheRangeExactlyWhen(c: Config, start: State)
    requires Start(c, start)
    ensures AlwaysReturnsTheRange(c, start) <==> c.validated || SmallOnly(start.toSend)
  {
    if c.validated || SmallOnly(start.toSend) {
      forall steps, out ensures EndsWithTheRange(c, start, steps, out) {
        var end := Exec(Machine(c), start, steps);
        if end.Some? && Complete(c, end.value) && multiset(out) == multiset(end.value.headers) && SortedByHeight(out) {
          SessionReturnsTheRange(c, start, steps, end.value, out);
        }
      }
    } else {
      var steps, out := UnvalidatedCanSkip(c, start);
      assert !EndsWithTheRange(c, start, steps, out);
    }
  }

  /** A peer's answer that starts at the right height and repeats it. */
  function Repeated(r: Request): seq<Header> {
    seq(r.amount, _ => Header("", r.origin, [], [], 0))
  }

  lemma {:induction false} RepeatedHeights(r: Request, hs: seq<Header>)
    requires forall i | 0 <= i < |hs| :: hs[i].height == r.origin
    ensures Sum(hs, Height(r.origin)) == |hs|
  {
    if hs != [] {
      RepeatedHeights(r, hs[1..]);
    }
  }

  lemma {:induction false} SendAll(c: Config, start: State, steps: seq<Step>, s: State) returns (longer: seq<Step>, t: State)
    requires At(c, start, steps, s) && |s.toSend| + |s.reqCh| <= c.capacity
    ensures At(c, start, longer, t) && t == s.(toSend := [], reqCh := s.reqCh + s.toSend)
    decreases |s.toSend|
  {
    if s.toSend == [] {
      assert s.reqCh + s.toSend == s.reqCh;
      return steps, s;
    }
    var u := Next(c, s, Send).value;
    ExecSnoc(Machine(c), start, steps, Send);
    longer, t := SendAll(c, start, steps + [Send], u);
    assert u.reqCh + u.toSend == s.reqCh + s.toSend;
  }

  /** Only requests in the channel are left to serve. */
  predicate Serving(s: State) {
    s.toSend == [] && s.held == None && s.tasks == [] && s.result == []
  }

  /** The request r is out of the channel and held, or with its only task. */
  function Taking(s: State, r: Request): State
    requires s.reqCh != []
  {
    s.(reqCh := s.reqCh[1..], held := Some(r))
  }

  function WithTask(s: State, task: Task): State
    requires s.reqCh != []
  {
    s.(reqCh := s.reqCh[1..], tasks := [task])
  }

  lemma TakenAndAssigned(c: Config, s: State, r: Request)
    requires Serving(s) && s.reqCh != [] && s.reqCh[0] == r
    ensures Next(c, s, Take) == Some(Taking(s, r))
    ensures Next(c, Taking(s, r), Assign) == Some(WithTask(s, Working(r)))
  {
    assert s.tasks + [Working(r)] == [Working(r)];
  }

  lemma AnsweredAndDelivered(c: Config, s: State, r: Request)
    requires Serving(s) && !c.validated && s.reqCh != [] && |s.reqCh| <= c.capacity && r.amount > 0 && !Complete(c, s)
    ensures Next(c, WithTask(s, Working(r)), Succeed(0, Repeated(r))) == Some(WithTask(s, Delivering(Repeated(r))))
    ensures var delivered := s.(reqCh := s.reqCh[1..], result := [Repeated(r)]);
            && Next(c, WithTask(s, Delivering(Repeated(r))), Deliver(0)) == Some(delivered)
            && Next(c, delivered, Collect) == Some(s.(reqCh := s.reqCh[1..], headers := s.headers + Repeated(r)))
  {
    var hs, rest := Repeated(r), s.reqCh[1..];
    assert rest + [] == rest && [Working(r)][0 := Delivering(hs)] == [Delivering(hs)];
    assert Without([Delivering(hs)], 0) == [] && s.result + [hs] == [hs] && [hs][1..] == [];
  }

  /** The first request in the channel is served with a repeated height. */
  lemma ServeOne(c: Config, start: State, steps: seq<Step>, s: State) returns (longer: seq<Step>, t: State)
    requires At(c, start, steps, s) && Serving(s) && !c.validated && |s.reqCh| <= c.capacity && c.capacity > 0
    requires s.reqCh != [] && s.reqCh[0].amount > 0 && !Complete(c, s)
    ensures At(c, start, longer, t) && t == s.(reqCh := s.reqCh[1..], headers := s.headers + Repeated(s.reqCh[0]))
  {
    var r := s.reqCh[0];
    var hs := Repeated(r);
    TakenAndAssigned(c, s, r);
    AnsweredAndDelivered(c, s, r);
    ExecSnoc(Machine(c), start, steps, Take);
    var one := steps + [Take];
    ExecSnoc(Machine(c), start, one, Assign);
    var two := one + [Assign];
    ExecSnoc(Machine(c), start, two, Succeed(0, hs));
    var three := two + [Succeed(0, hs)];
    ExecSnoc(Machine(c), start, three, Deliver(0));
    var four := three + [Deliver(0)];
    ExecSnoc(Machine(c), start, four, Collect);
    longer := four + [Collect];
    t := s.(reqCh := s.reqCh[1..], headers := s.headers + hs);
  }

  /** All requests are served like that: the session completes with heights that occur more than once. */
  lemma {:induction false} ServeAll(c: Config, start: State, steps: seq<Step>, s: State, from: nat, left: nat)
    returns (longer: seq<Step>, t: State)
    requires At(c, start, steps, s) && Serving(s) && !c.validated && |s.reqCh| <= c.capacity && c.capacity > 0
    requires Splits(s.reqCh, from, left) && |s.headers| + left == c.amount > 0
    ensures At(c, start, longer, t) && Complete(c, t)
    ensures forall n :: Sum(t.headers, Height(n)) >= Sum(s.headers, Height(n))
    ensures forall i | 0 <= i < |s.reqCh| :: Sum(t.headers, Height(s.reqCh[i].origin)) >= s.reqCh[i].amount
    decreases |s.reqCh|
  {
    if s.reqCh == [] {
      return steps, s;
    }
    var r := s.reqCh[0];
    var once, u := ServeOne(c, start, steps, s);
    forall n ensures Sum(u.headers, Height(n)) == Sum(s.headers, Height(n)) + Sum(Repeated(r), Height(n)) {
      SumConcat(s.headers, Repeated(r), Height(n));
    }
    RepeatedHeights(r, Repeated(r));
    longer, t := ServeAll(c, start, once, u, from + r.amount, left - r.amount);
    forall i | 0 <= i < |s.reqCh| ensures Sum(t.headers, Height(s.reqCh[i].origin)) >= s.reqCh[i].amount {
      if i == 0 {
        assert Sum(t.headers, Height(r.origin)) >= Sum(u.headers, Height(r.origin));
      } else {
        assert s.reqCh[i] == u.reqCh[i - 1];
      }
    }
  }

  /** Without a trusted header a session with a request for more than one header can return other heights. */
  lemma UnvalidatedCanSkip(c: Config, start: State) returns (steps: seq<Step>, out: seq<Header>)
    requires Start(c, start) && !c.validated && !SmallOnly(start.toSend)
    ensures !EndsWithTheRange(c, start, steps, out)
  {
    var r :| r in start.toSend && r.amount > 1;
    var i :| 0 <= i < |start.toSend| && start.toSend[i] == r;
    var sent, s := SendAll(c, start, [], start);
    assert s.reqCh == start.toSend;
    var t;
    steps, t := ServeAll(c, start, sent, s, c.from, c.amount);
    out := SortedHeaders(t.headers);
    var n := start.toSend[i].origin;
    SumOfPermutation(out, t.headers, Height(n));
    if IsTheRange(c, out) {
      ConsecutiveOnce(out, c.from, n);
    }
  }
}
