/**
 * The peers of a session: the tracker they come from (p2p/peer_tracker.go), the queue they wait in
 * (p2p/peer_stats.go), and the wake-ups between them and the one goroutine that pops peers.
 */
module SessionPeers {
  import opened Headers
  import opened Runs

  type Peer = nat

  // ---------------------------------------------------------------- the queue

  /** peerQueue. Which peer pop takes depends on scores that change while it waits, and is left open. */
  class PeerQueue {
    var stats: multiset<Peer>
    var havePeer: bool

    constructor ()
      ensures stats == multiset{} && !havePeer
    {
      stats, havePeer := multiset{}, false;
    }

    method Pop() returns (p: Option<Peer>)
      modifies `stats
      ensures p.None? <==> old(stats) == multiset{}
      ensures p.None? ==> stats == old(stats)
      ensures p.Some? ==> p.value in old(stats) && stats == old(stats) - multiset{p.value}
    {
      if |stats| == 0 {
        return None;
      }
      var best :| best in stats;
      stats := stats - multiset{best};
      return Some(best);
    }

    method Push(p: Peer)
      modifies this
      ensures stats == old(stats) + multiset{p} && havePeer
    {
      stats := stats + multiset{p};
      Signal();
    }

    /** At most one signal waits in the channel; sending never blocks. */
    method Signal()
      modifies `havePeer
      ensures havePeer
    {
      if !havePeer {
        havePeer := true;
      }
    }
  }

  // ---------------------------------------------------------------- the tracker

  const MAX_TRACKED := 100

  /** peerTracker. `newPeer` numbers the channel that is closed and replaced when a peer gets tracked. */
  class PeerTracker {
    const self: Peer
    var tracked: set<Peer>
    var disconnected: set<Peer>
    var newPeer: nat

    ghost predicate Valid()
      reads this
    {
      tracked !! disconnected && self !in tracked
    }

    constructor (self: Peer)
      ensures Valid() && tracked == {} && this.self == self
    {
      this.self := self;
      tracked, disconnected, newPeer := {}, {}, 0;
    }

    /** A new peer is tracked exactly when the channel of that moment is closed. */
    method Connected(p: Peer, limited: bool)
      requires Valid()
      modifies this
      ensures Valid()
      ensures newPeer == old(newPeer) + (if p in tracked && p !in old(tracked) then 1 else 0)
      ensures tracked == old(tracked) || tracked == old(tracked) + {p}
      ensures p in tracked - old(tracked) <==>
                p != self && !limited && p !in old(tracked)
                && (|old(tracked)| + |old(disconnected)| <= MAX_TRACKED || |old(tracked)| <= |old(disconnected)|)
      ensures disconnected == old(disconnected) - (tracked - old(tracked))
    {
      if self == p || limited || p in tracked {
        return;
      }
      if |tracked| + |disconnected| > MAX_TRACKED && |tracked| > |disconnected| {
        return;
      }
      disconnected := disconnected - {p};
      tracked := tracked + {p};
      newPeer := newPeer + 1;
    }

    method Disconnected(p: Peer)
      requires Valid()
      modifies this
      ensures Valid() && newPeer == old(newPeer) && tracked == old(tracked) - {p}
      ensures disconnected == old(disconnected) + (old(tracked) * {p})
    {
      if p !in tracked {
        return;
      }
      disconnected := disconnected + {p};
      tracked := tracked - {p};
    }
  }

  // ---------------------------------------------------------------- the step system

  /**
   * Where a consumer stands: before its loop, holding a channel, holding the peers it is about to
   * add, or asleep on the channel and on the queue's signal. `gen` numbers the channel it holds.
   */
  datatype Consumer = Ready | Listening(gen: nat) | Adding(gen: nat, list: seq<Peer>) | Retrying(gen: nat) | Sleeping(gen: nat)

  /**
   * `gen` numbers the open channel of the tracker. `signals` counts signal calls that are due: the
   * caller has changed the queue or forgotten a peer and has not reached the channel yet. `away`
   * are tracked peers the consumer found not connected when it last looked.
   */
  datatype State = State(
    tracked: set<Peer>, gen: nat,
    known: set<Peer>, queue: multiset<Peer>, inFlight: multiset<Peer>, awaiting: multiset<Peer>,
    havePeer: bool, signals: nat,
    consumer: Consumer, away: set<Peer>,
    waiter: Consumer)

  datatype Step =
    | Track(p: Peer) | Untrack(p: Peer) | Begin(list: seq<Peer>)
    | TakeCh | Pop(p: Peer) | PopEmpty(list: seq<Peer>) | Add | Sleep | WakeBySignal | WakeByTracker
    | Requeue(p: Peer) | Postpone(p: Peer) | Timer(p: Peer) | Forget(p: Peer) | Signal
    | WaiterTakeCh | WaiterSleep | WaiterWake | WaiterReturn

  const START := State({}, 0, {}, multiset{}, multiset{}, multiset{}, false, 0, Ready, {}, Ready)

  /** Peers of a list the session does not know yet, each once. */
  function Fresh(known: set<Peer>, list: seq<Peer>): set<Peer> {
    (set p | p in list) - known
  }

  predicate Popping(c: Consumer) {
    c.Listening? || c.Retrying?
  }

  function Next(s: State, step: Step): Option<State> {
    match step
    // the tracker
    case Track(p) => if p in s.tracked then None else Some(s.(tracked := s.tracked + {p}, gen := s.gen + 1))
    case Untrack(p) => Some(s.(tracked := s.tracked - {p}))
    // getRangeByHeight adds the peers waitPeers gave it
    case Begin(list) =>
      var added := Fresh(s.known, list);
      Some(s.(known := s.known + added, queue := s.queue + multiset(added), signals := s.signals + |added|))
    // nextPeer
    case TakeCh => if !s.consumer.Ready? then None else Some(s.(consumer := Listening(s.gen)))
    case Pop(p) =>
      if !Popping(s.consumer) || p !in s.queue then None
      else Some(s.(consumer := Ready, queue := s.queue - multiset{p}, inFlight := s.inFlight + multiset{p}))
    case PopEmpty(list) =>
      if !s.consumer.Listening? || s.queue != multiset{} || !(forall p | p in list :: p in s.tracked) then None
      else Some(s.(consumer := Adding(s.consumer.gen, list), away := s.tracked - (set p | p in list)))
    case Add =>
      if !s.consumer.Adding? then None
      else
        var added := Fresh(s.known, s.consumer.list);
        Some(s.(consumer := Retrying(s.consumer.gen), known := s.known + added,
                queue := s.queue + multiset(added), signals := s.signals + |added|))
    case Sleep =>
      if !s.consumer.Retrying? || s.queue != multiset{} then None else Some(s.(consumer := Sleeping(s.consumer.gen)))
    case WakeBySignal =>
      if !s.consumer.Sleeping? || !s.havePeer then None else Some(s.(consumer := Ready, havePeer := false))
    case WakeByTracker =>
      if !s.consumer.Sleeping? || s.consumer.gen == s.gen then None else Some(s.(consumer := Ready))
    // doRequest, when it is done with its peer
    case Requeue(p) =>
      if p !in s.inFlight then None
      else Some(s.(inFlight := s.inFlight - multiset{p}, queue := s.queue + multiset{p}, signals := s.signals + 1))
    case Postpone(p) =>
      if p !in s.inFlight then None
      else Some(s.(inFlight := s.inFlight - multiset{p}, awaiting := s.awaiting + multiset{p}))
    case Timer(p) =>
      if p !in s.awaiting then None
      else Some(s.(awaiting := s.awaiting - multiset{p}, queue := s.queue + multiset{p}, signals := s.signals + 1))
    case Forget(p) =>
      if p !in s.inFlight then None
      else Some(s.(inFlight := s.inFlight - multiset{p}, known := s.known - {p}, signals := s.signals + 1))
    case Signal => if s.signals == 0 then None else Some(s.(signals := s.signals - 1, havePeer := true))
    // waitPeers
    case WaiterTakeCh => if !s.waiter.Ready? then None else Some(s.(waiter := Listening(s.gen)))
    case WaiterSleep =>
      if !s.waiter.Listening? || s.tracked != {} then None else Some(s.(waiter := Sleeping(s.waiter.gen)))
    case WaiterWake =>
      if !s.waiter.Sleeping? || s.waiter.gen == s.gen then None else Some(s.(waiter := Ready))
    case WaiterReturn =>
      if !s.waiter.Listening? || s.tracked == {} then None else Some(s.(waiter := Ready))
  }

  function Machine(): (State, Step) -> Option<State> {
    (s, step) => Next(s, step)
  }

  // ---------------------------------------------------------------- what every run keeps

  /** Every known peer is queued, in flight or awaiting its requeue: in exactly one of them, once. */
  ghost predicate Accounted(s: State) {
    forall p :: AccountOf(s, p)
  }

  predicate AccountOf(s: State, p: Peer) {
    s.queue[p] + s.inFlight[p] + s.awaiting[p] == if p in s.known then 1 else 0
  }

  /** A signal is in the channel, or on its way there. */
  predicate SignalDue(s: State) {
    s.havePeer || s.signals > 0
  }

  predicate HoldsOldChannels(s: State) {
    (!s.consumer.Ready? ==> s.consumer.gen <= s.gen) && (!s.waiter.Ready? ==> s.waiter.gen <= s.gen)
  }

  predicate QueueSeen(s: State) {
    s.consumer.Sleeping? && s.queue != multiset{} ==> SignalDue(s)
  }

  /** Unless its channel is closed, a consumer past the tracker has seen every tracked peer. */
  predicate TrackerSeen(s: State) {
    && (s.consumer.Adding? && s.consumer.gen == s.gen ==>
          SignalDue(s) || forall p | p in s.tracked - s.away :: p in s.known || p in s.consumer.list)
    && ((s.consumer.Retrying? || s.consumer.Sleeping?) && s.consumer.gen == s.gen ==>
          SignalDue(s) || s.tracked - s.away <= s.known)
  }

  predicate WaiterSeen(s: State) {
    && (s.waiter.Sleeping? && s.waiter.gen == s.gen ==> s.tracked == {})
    && !s.waiter.Adding? && !s.waiter.Retrying?
  }

  ghost predicate Inv(s: State) {
    Accounted(s) && HoldsOldChannels(s) && QueueSeen(s) && TrackerSeen(s) && WaiterSeen(s)
  }

  /** Peers added are not yet known; the other steps move one peer. */
  lemma StepKeepsAccount(s: State, step: Step, p: Peer)
    requires AccountOf(s, p) && Next(s, step).Some?
    ensures AccountOf(Next(s, step).value, p)
  {
    match step
    case Begin(list) => assert multiset(Fresh(s.known, list))[p] == if p in Fresh(s.known, list) then 1 else 0;
    case Add => assert multiset(Fresh(s.known, s.consumer.list))[p] == if p in Fresh(s.known, s.consumer.list) then 1 else 0;
    case _ =>
  }

  lemma StepKeepsAccounts(s: State, step: Step)
    requires Accounted(s) && Next(s, step).Some?
    ensures Accounted(Next(s, step).value)
  {
    forall p ensures AccountOf(Next(s, step).value, p) {
      StepKeepsAccount(s, step, p);
    }
  }

  lemma StepKeepsQueueSeen(s: State, step: Step)
    requires QueueSeen(s) && Next(s, step).Some?
    ensures QueueSeen(Next(s, step).value)
  {
  }

  lemma StepKeepsTrackerSeen(s: State, step: Step)
    requires TrackerSeen(s) && HoldsOldChannels(s) && Next(s, step).Some?
    ensures TrackerSeen(Next(s, step).value)
  {
  }

  lemma StepKeepsInv(s: State, step: Step)
    requires Inv(s) && Next(s, step).Some?
    ensures Inv(Next(s, step).value)
  {
    StepKeepsAccounts(s, step);
    StepKeepsQueueSeen(s, step);
    StepKeepsTrackerSeen(s, step);
  }

  lemma ReachableInv(steps: seq<Step>)
    ensures var end := Exec(Machine(), START, steps); end.Some? ==> Inv(end.value)
  {
    forall s, step | Inv(s) && Machine()(s, step).Some? ensures Inv(Machine()(s, step).value) {
      StepKeepsInv(s, step);
    }
    InvariantHolds(Machine(), s => Inv(s), START, steps);
  }

  /** In every run: a peer is queued once at most, has one request in flight at most, and never both. */
  lemma PeersAreInOnePlace(steps: seq<Step>, s: State, p: Peer)
    requires Exec(Machine(), START, steps) == Some(s)
    ensures s.queue[p] + s.inFlight[p] + s.awaiting[p] == if p in s.known then 1 else 0
  {
    ReachableInv(steps);
    assert AccountOf(s, p);
  }

  /**
   * In every run: a sleeping nextPeer that could go on will be woken. If a peer is queued, or a tracked
   * peer it did not find away is unknown, a signal is due or its channel is closed.
   */
  lemma SleeperIsWoken(steps: seq<Step>, s: State)
    requires Exec(Machine(), START, steps) == Some(s) && s.consumer.Sleeping?
    ensures s.queue != multiset{} ==> SignalDue(s)
    ensures !(s.tracked - s.away <= s.known) ==> SignalDue(s) || Next(s, WakeByTracker).Some?
    ensures SignalDue(s) ==> Next(s, WakeBySignal).Some? || (Next(s, Signal).Some? && Next(Next(s, Signal).value, WakeBySignal).Some?)
  {
    ReachableInv(steps);
  }

  /** In every run: waitPeers does not sleep on an open channel while a peer is tracked. */
  lemma WaiterIsWoken(steps: seq<Step>, s: State)
    requires Exec(Machine(), START, steps) == Some(s) && s.waiter.Sleeping?
    ensures s.tracked != {} ==> Next(s, WaiterWake).Some?
  {
    ReachableInv(steps);
  }

  // ---------------------------------------------------------------- what can always happen

  predicate At(steps: seq<Step>, s: State) {
    Exec(Machine(), START, steps) == Some(s)
  }

  lemma Then(steps: seq<Step>, s: State, step: Step)
    requires At(steps, s) && Next(s, step).Some?
    ensures At(steps + [step], Next(s, step).value)
  {
    ExecSnoc(Machine(), START, steps, step);
  }

  /** nextPeer and waitPeers have a step to take unless they sleep. */
  lemma NobodyIsStuck(steps: seq<Step>, s: State) returns (step: Step, waiterStep: Step)
    requires At(steps, s)
    ensures !s.consumer.Sleeping? ==> Next(s, step).Some? && Next(s, step).value.consumer != s.consumer
    ensures !s.waiter.Sleeping? ==> Next(s, waiterStep).Some? && Next(s, waiterStep).value.waiter != s.waiter
  {
    ReachableInv(steps);
    if s.queue != multiset{} && Popping(s.consumer) {
      var p :| p in s.queue;
      step := Pop(p);
    } else {
      step := match s.consumer
        case Ready => TakeCh
        case Listening(_) => PopEmpty([])
        case Adding(_, _) => Add
        case Retrying(_) => Sleep
        case Sleeping(_) => WakeBySignal;
    }
    waiterStep := if s.waiter.Ready? then WaiterTakeCh else if s.tracked == {} then WaiterSleep else WaiterReturn;
  }

  /** addPeers makes every peer of the list known, and queues those that were not, with a signal. */
  lemma BeginQueuesPeers(s: State, list: seq<Peer>)
    ensures Next(s, Begin(list)).Some?
    ensures var t := Next(s, Begin(list)).value;
            && t.known == s.known + (set p | p in list)
            && (forall p | p in list && p !in s.known :: p in t.queue && SignalDue(t))
            && s.queue <= t.queue
  {
    var added := Fresh(s.known, list);
    forall p | p in list && p !in s.known ensures p in multiset(added) && |added| > 0 {
      assert p in added;
    }
  }

  /** A sleeping consumer with a signal due gets to its loop again. */
  lemma WakesUp(steps: seq<Step>, s: State) returns (longer: seq<Step>, t: State)
    requires At(steps, s) && s.consumer.Sleeping? && SignalDue(s)
    ensures At(longer, t) && t == s.(consumer := Ready, havePeer := false, signals := t.signals)
  {
    if s.havePeer {
      Then(steps, s, WakeBySignal);
      return steps + [WakeBySignal], Next(s, WakeBySignal).value;
    }
    Then(steps, s, Signal);
    var signalled := Next(s, Signal).value;
    Then(steps + [Signal], signalled, WakeBySignal);
    return steps + [Signal] + [WakeBySignal], Next(signalled, WakeBySignal).value;
  }

  /** From every reached state, nextPeer can come to take any queued peer. */
  lemma QueuedPeerCanBeTaken(steps: seq<Step>, s: State, p: Peer) returns (longer: seq<Step>, t: State)
    requires At(steps, s) && p in s.queue
    ensures At(longer, t) && t.inFlight == s.inFlight + multiset{p}
    decreases if s.consumer.Sleeping? then 2 else if Popping(s.consumer) then 0 else 1
  {
    if s.consumer.Sleeping? {
      SleeperIsWoken(steps, s);
      var awake, u := WakesUp(steps, s);
      longer, t := QueuedPeerCanBeTaken(awake, u, p);
    } else {
      var step := if Popping(s.consumer) then Pop(p) else if s.consumer.Ready? then TakeCh else Add;
      Then(steps, s, step);
      longer, t := steps + [step], Next(s, step).value;
      if !Popping(s.consumer) {
        longer, t := QueuedPeerCanBeTaken(longer, t, p);
      }
    }
  }

  /** A look at the tracked peers takes the connected ones of the list, and remembers which were away. */
  lemma LookFindsConnected(s: State, list: seq<Peer>)
    requires s.consumer.Listening? && s.queue == multiset{} && forall p | p in list :: p in s.tracked
    ensures Next(s, PopEmpty(list)).Some?
    ensures var t := Next(s, PopEmpty(list)).value;
            t.consumer == Adding(s.consumer.gen, list) && forall p | p in s.tracked :: p in t.away <==> p !in list
  {
  }

  /** The tracked peers are looked at, and an unknown one that is connected is queued. */
  lemma LooksAndAdds(steps: seq<Step>, s: State, p: Peer) returns (longer: seq<Step>, t: State)
    requires At(steps, s) && s.consumer.Listening? && s.queue == multiset{} && p in s.tracked && p !in s.known
    ensures At(longer, t) && p in t.queue
  {
    LookFindsConnected(s, [p]);
    Then(steps, s, PopEmpty([p]));
    var u := Next(s, PopEmpty([p])).value;
    Then(steps + [PopEmpty([p])], u, Add);
    assert p in Fresh(u.known, [p]);
    longer, t := steps + [PopEmpty([p])] + [Add], Next(u, Add).value;
  }

  /** While it sleeps on an empty queue, a tracked peer it does not know and did not find away can be had. */
  lemma UnknownPeerCanBeTaken(steps: seq<Step>, s: State, p: Peer) returns (longer: seq<Step>, t: State)
    requires At(steps, s) && s.consumer.Sleeping? && s.queue == multiset{} && p in s.tracked - s.away - s.known
    ensures At(longer, t) && p in t.inFlight
  {
    SleeperIsWoken(steps, s);
    var u;
    if SignalDue(s) {
      longer, u := WakesUp(steps, s);
    } else {
      Then(steps, s, WakeByTracker);
      longer, u := steps + [WakeByTracker], Next(s, WakeByTracker).value;
    }
    Then(longer, u, TakeCh);
    longer, u := LooksAndAdds(longer + [TakeCh], Next(u, TakeCh).value, p);
    longer, t := QueuedPeerCanBeTaken(longer, u, p);
  }

  /** From every reached state in which a peer is tracked, waitPeers can come to return. */
  lemma WaiterCanReturn(steps: seq<Step>, s: State) returns (longer: seq<Step>, t: State)
    requires At(steps, s) && s.tracked != {} && !s.waiter.Ready?
    ensures At(longer, t) && t == s.(waiter := Ready)
    decreases if s.waiter.Sleeping? then 2 else 1
  {
    ReachableInv(steps);
    if s.waiter.Sleeping? {
      Then(steps, s, WaiterWake);
      return steps + [WaiterWake], Next(s, WaiterWake).value;
    }
    Then(steps, s, WaiterReturn);
    return steps + [WaiterReturn], Next(s, WaiterReturn).value;
  }
}
