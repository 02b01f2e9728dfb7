/** The sync loop's work (sync/syncer.go): pending ranges and network answers are merged into one gap-free chain. */
module Syncer {
  import opened Headers
  import R = Ranges
  import SS = SyncStore

  /** header.MaxRangeRequestSize. */
  const MAX_RANGE_REQUEST_SIZE: nat := 64

  /**
   * What the outside world answers, call by call: `fetch(k)` is the k-th answer of the getter,
   * `backend(k)` the wrapped store's side of the k-th append.
   */
  datatype World = World(fetch: nat -> Fetch, backend: nat -> SS.Backend)

  /** A function of the requested (from, to): the getter's headers, or an error. */
  type Fetch = (Header, nat) -> Option<seq<Header>>

  /** The getter's contract: headers of consecutive heights after `from`, none at or above `to`. */
  predicate KeepsContract(from: Header, to: nat, headers: seq<Header>) {
    R.Consecutive(headers) && (headers != [] ==> headers[0].height + |headers| <= to)
  }

  ghost predicate GetterOk(w: World) {
    forall k, from, to :: FetchOk(w, k, from, to)
  }

  predicate FetchOk(w: World, k: nat, from: Header, to: nat) {
    w.fetch(k)(from, to).Some? ==> KeepsContract(from, to, w.fetch(k)(from, to).value)
  }

  datatype SyncError = GetterFailed | EmptyAnswer | NonAdjacentAnswer | StoreFailed(err: SS.AppendError)

  /** The end of the range asked for from `from`, when the headers up to `to` are missing. */
  function ReqTo(from: nat, to: nat): nat
    requires from < to
  {
    from + (if to - from < MAX_RANGE_REQUEST_SIZE then to - from else MAX_RANGE_REQUEST_SIZE) + 1
  }

  /** Why an answer of the getter is refused. */
  predicate RefusedAs(head: Header, answer: Option<seq<Header>>, err: SyncError) {
    match err
    case GetterFailed => answer.None?
    case EmptyAnswer => answer == Some([])
    case NonAdjacentAnswer => answer.Some? && answer.value != [] && answer.value[0].height != head.height + 1
    case StoreFailed(_) => false
  }

  /** An answer that continues the head. */
  predicate Continues(w: World, k: nat, head: Header, reqTo: nat) {
    var answer := w.fetch(k)(head, reqTo);
    answer.Some? && answer.value != [] && answer.value[0].height == head.height + 1
  }

  predicate Stores(w: World, k: nat) {
    w.backend(k).locked && w.backend(k).writes
  }

  /** From the given calls on the getter continues the head of every range asked for, and the store always writes. */
  ghost predicate Works(w: World, fetches: nat, appends: nat) {
    && (forall k, head: Header, reqTo | fetches <= k && head.height + 1 < reqTo :: Continues(w, k, head, reqTo))
    && (forall k | appends <= k :: Stores(w, k))
  }

  /** Such a world exists: the contract of the getter and that of a working world agree. */
  lemma SomeWorldWorks() returns (w: World)
    ensures GetterOk(w) && Works(w, 0, 0)
  {
    w := World(k => (head: Header, to: nat) => if head.height + 1 < to then Some([Header("", head.height + 1, [], [], 0)]) else None,
               k => SS.Backend(true, SS.Empty, true));
    forall k, from, to ensures FetchOk(w, k, from, to) {
    }
    forall k, head: Header, reqTo | head.height + 1 < reqTo ensures Continues(w, k, head, reqTo) {
    }
  }

  /** Calls made, of the getter and of the store. */
  datatype Calls = Calls(fetches: nat, appends: nat)

  /** The last call between two points is the cause of the error: an answer refused, or a write that failed. */
  ghost predicate Causes(w: World, before: Calls, now: Calls, head: Header, err: SyncError) {
    match err
    case StoreFailed(_) => before.appends < now.appends && !Stores(w, now.appends - 1)
    case _ => before.fetches < now.fetches && Refused(w, now.fetches - 1, head, err)
  }

  ghost predicate Refused(w: World, k: nat, head: Header, err: SyncError) {
    exists to: nat :: RefusedCall(w, k, head, to, err)
  }

  predicate RefusedCall(w: World, k: nat, head: Header, to: nat, err: SyncError) {
    head.height < to && RefusedAs(head, w.fetch(k)(head, ReqTo(head.height, to)), err)
  }

  lemma CausesSince(w: World, before: Calls, later: Calls, now: Calls, head: Header, err: SyncError)
    requires Causes(w, later, now, head, err) && before.fetches <= later.fetches && before.appends <= later.appends
    ensures Causes(w, before, now, head, err)
  {
  }

  lemma WorkingWorldCausesNothing(w: World, before: Calls, now: Calls, head: Header, err: SyncError)
    requires Works(w, before.fetches, before.appends)
    ensures !Causes(w, before, now, head, err)
  {
    if before.fetches < now.fetches {
      var k := now.fetches - 1;
      forall to: nat ensures !RefusedCall(w, k, head, to, err) {
        if head.height < to {
          assert Continues(w, k, head, ReqTo(head.height, to));
        }
      }
    }
  }

  /** What one sync has stored: headers that continue `from` one by one, up to `head`. */
  predicate Stored(from: Header, stored: seq<Header>, head: Header) {
    SS.Follows(from, stored) && head == if stored == [] then from else R.Last(stored)
  }

  lemma StoredMore(from: Header, stored: seq<Header>, head: Header, more: seq<Header>)
    requires Stored(from, stored, head) && SS.Follows(head, more)
    ensures Stored(from, stored + more, if more == [] then head else R.Last(more))
    ensures head.height == from.height + |stored|
  {
  }

  class Syncer {
    const store: SS.SyncStore
    const pending: R.Ranges
    const world: World
    var fetches: nat
    var appends: nat

    constructor (store: SS.SyncStore, pending: R.Ranges, world: World)
      ensures this.store == store && this.pending == pending && this.world == world
    {
      this.store, this.pending, this.world := store, pending, world;
      fetches, appends := 0, 0;
    }

    /** One append of headers that continue the cached head: all of them are stored, or none. */
    method Append(headers: seq<Header>) returns (err: Option<SyncError>)
      requires store.head.Some? && headers != [] && SS.Follows(store.head.value, headers)
      modifies store, `appends
      ensures err.None? ==> store.head == Some(R.Last(headers)) && store.written == old(store.written) + headers
      ensures err.Some? ==> store.head == old(store.head) && store.written == old(store.written)
      ensures appends == old(appends) + 1 && (err.None? <==> Stores(world, old(appends))) && (err.Some? ==> err.value.StoreFailed?)
    {
      var e := store.Append(headers, world.backend(appends));
      appends := appends + 1;
      err := if e.None? then None else Some(StoreFailed(e.value));
    }

    ghost function Made(): Calls
      reads `fetches, `appends
    {
      Calls(fetches, appends)
    }

    /**
     * requestHeaders: (fromHead, to] in pieces, each as long as the getter makes it. It fails only by an
     * answer that does not continue the head it was asked from, or by a failed write.
     */
    method RequestHeaders(fromHead: Header, to: nat) returns (err: Option<SyncError>, ghost stored: seq<Header>)
      requires GetterOk(world) && store.head == Some(fromHead)
      modifies store, `fetches, `appends
      ensures store.head.Some? && Stored(fromHead, stored, store.head.value) && store.written == old(store.written) + stored
      ensures store.head.value.height <= to || stored == []
      ensures err.None? ==> store.head.value.height == if fromHead.height < to then to else fromHead.height
      ensures old(fetches) <= fetches && old(appends) <= appends
      ensures err.Some? ==> store.head.Some? && Causes(world, old(Made()), Made(), store.head.value, err.value)
      ensures old(Works(world, fetches, appends)) ==> err.None?
    {
      var head := fromHead;
      stored := [];
      while head.height < to
        invariant store.head == Some(head) && Stored(fromHead, stored, head) && store.written == old(store.written) + stored
        invariant head.height <= to || stored == []
        invariant old(fetches) <= fetches && old(appends) <= appends
        decreases if head.height < to then to - head.height else 0
      {
        var headers;
        err, headers := Fetch(head, to);
        if err.Some? {
          ghost var k := fetches - 1;
          assert RefusedCall(world, k, head, to, err.value);
          assert Refused(world, k, head, err.value);
          WorkingIsEnough(old(Made()), head, err.value);
          return;
        }
        err := Append(headers);
        if err.Some? {
          WorkingIsEnough(old(Made()), head, err.value);
          return;
        }
        StoredMore(fromHead, stored, head, headers);
        stored := stored + headers;
        head := headers[|headers| - 1];
      }
      err := None;
    }

    /** The request of one turn of requestHeaders, and the checks on its answer. */
    method Fetch(head: Header, to: nat) returns (err: Option<SyncError>, headers: seq<Header>)
      requires GetterOk(world) && head.height < to
      modifies `fetches
      ensures err.None? ==> headers != [] && SS.Follows(head, headers) && R.Last(headers).height <= to
                            && |headers| <= MAX_RANGE_REQUEST_SIZE
      ensures fetches == old(fetches) + 1
      ensures var answer := world.fetch(old(fetches))(head, ReqTo(head.height, to));
              if err.Some? then RefusedAs(head, answer, err.value) else answer == Some(headers)
    {
      var amount := to - head.height;
      var size := if amount < MAX_RANGE_REQUEST_SIZE then amount else MAX_RANGE_REQUEST_SIZE;
      var reqTo := head.height + size + 1;
      var answer := world.fetch(fetches)(head, reqTo);
      assert FetchOk(world, fetches, head, reqTo);
      fetches := fetches + 1;
      if answer.None? {
        return Some(GetterFailed), [];
      }
      headers := answer.value;
      if |headers| == 0 {
        return Some(EmptyAnswer), [];
      }
      if headers[0].height != head.height + 1 {
        return Some(NonAdjacentAnswer), [];
      }
      err := None;
    }

    lemma WorkingIsEnough(before: Calls, head: Header, err: SyncError)
      ensures Works(world, before.fetches, before.appends) ==> !Causes(world, before, Made(), head, err)
    {
      if Works(world, before.fetches, before.appends) {
        WorkingWorldCausesNothing(world, before, Made(), head, err);
      }
    }

    ghost function Pending(): seq<Header>
      reads pending, pending.ranges
    {
      R.Flat(pending.Lists())
    }

    /** The headers of the first pending range up to `to`; none when the loop is to end. */
    method FirstUpTo(to: nat) returns (headersRange: Option<R.HeaderRange>, headers: seq<Header>)
      requires pending.Valid()
      modifies pending
      ensures pending.Valid() && Pending() == old(Pending()) && forall i | 0 <= i < |pending.ranges| :: pending.ranges[i] in old(pending.ranges)
      ensures headers != [] ==> headersRange.Some? && pending.ranges != [] && headersRange.value == pending.ranges[0]
      ensures headers != [] ==> headers == headersRange.value.headers[..R.Count(headersRange.value.headers, to)]
      ensures headers != [] ==> R.Consecutive(headers) && headers <= Pending() && R.Last(headers).height <= to
      ensures headers == [] ==> StartsAbove(Pending(), to)
    {
      R.DropEmptyKeeps(pending.Lists());
      headersRange := pending.First();
      if headersRange.None? {
        return headersRange, [];
      }
      headers := headersRange.value.Get(to);
      assert pending.Lists()[0] == headersRange.value.headers;
      R.FlatAscends(pending.Lists());
    }

    /** Removing from the range what was taken out of it takes the same headers from the front of all pending ones. */
    method RemoveFromFirst(headersRange: R.HeaderRange, headers: seq<Header>, to: nat)
      requires pending.Valid() && pending.ranges != [] && headersRange == pending.ranges[0]
      requires headers == headersRange.headers[..R.Count(headersRange.headers, to)]
      modifies headersRange
      ensures pending.Valid() && headers <= old(Pending()) && Pending() == old(Pending())[|headers|..]
      ensures pending.ranges == old(pending.ranges)
    {
      ghost var before := pending.Lists();
      headersRange.Remove(to);
      assert pending.Lists() == before[0 := R.Above(before[0], to)];
      R.CutKeepsSeparated(before, R.Above(before[0], to));
      assert pending.Lists()[1..] == before[1..];
    }

    /** The middle of processHeaders: what is missing below a pending range is requested, then the range is stored. */
    method StoreRange(fromHead: Header, headers: seq<Header>) returns (err: Option<SyncError>, ghost stored: seq<Header>)
      requires GetterOk(world) && store.head == Some(fromHead)
      requires headers != [] && R.Consecutive(headers) && fromHead.height < headers[0].height
      modifies store, `fetches, `appends
      ensures store.head.Some? && Stored(fromHead, stored, store.head.value) && store.written == old(store.written) + stored
      ensures if err.None? then |headers| <= |stored| && stored[|stored| - |headers|..] == headers
              else store.head.value.height < headers[0].height
      ensures old(fetches) <= fetches && old(appends) <= appends
      ensures err.Some? ==> store.head.Some? && Causes(world, old(Made()), Made(), store.head.value, err.value)
    {
      stored := [];
      if fromHead.height + 1 != headers[0].height {
        err, stored := RequestHeaders(fromHead, headers[0].height - 1);
        if err.Some? {
          return;
        }
      }
      ghost var head := store.head.value;
      err := Append(headers);
      if err.None? {
        StoredMore(fromHead, stored, head, headers);
        stored := stored + headers;
      }
    }

    /** Where a sync stands: what it has stored so far, and what is left of the pending headers `all`. */
    ghost predicate Progress(from: Header, all: seq<Header>, stored: seq<Header>, to: nat)
      reads store`head, pending, pending.ranges
    {
      && pending.Valid() && store.head.Some? && Stored(from, stored, store.head.value) && store.head.value.height <= to
      && OnlyStoredLeft(all, Pending(), stored)
    }

    /** One turn of processHeaders. */
    method Turn(head: Header, to: nat, ghost from: Header, ghost all: seq<Header>, ghost before: seq<Header>)
      returns (err: Option<SyncError>, again: bool, ghost more: seq<Header>)
      requires GetterOk(world) && store.head == Some(head)
      requires Progress(from, all, before, to) && StartsAbove(Pending(), head.height)
      modifies store, `fetches, `appends, pending, pending.ranges
      ensures Progress(from, all, before + more, to) && store.written == old(store.written) + more
      ensures forall i | 0 <= i < |pending.ranges| :: pending.ranges[i] in old(pending.ranges)
      ensures again ==> err.None? && StartsAbove(Pending(), store.head.value.height) && |Pending()| < |old(Pending())|
      ensures err.None? && !again ==> StartsAbove(Pending(), to)
      ensures old(fetches) <= fetches && old(appends) <= appends
      ensures err.Some? ==> store.head.Some? && Causes(world, old(Made()), Made(), store.head.value, err.value)
    {
      var headersRange, headers := FirstUpTo(to);
      if |headers| == 0 {
        more := [];
        assert before + more == before;
        return None, false, more;
      }
      assert headersRange.value in old(pending.ranges);
      err, again, more := StoreFirst(head, headersRange.value, headers, to, from, all, before);
    }

    /** The rest of a turn: what is missing is requested, the range is stored and leaves the pending ones. */
    method StoreFirst(head: Header, headersRange: R.HeaderRange, headers: seq<Header>, to: nat,
                      ghost from: Header, ghost all: seq<Header>, ghost before: seq<Header>)
      returns (err: Option<SyncError>, again: bool, ghost more: seq<Header>)
      requires GetterOk(world) && store.head == Some(head)
      requires Progress(from, all, before, to) && StartsAbove(Pending(), head.height)
      requires pending.ranges != [] && headersRange == pending.ranges[0] && headers <= Pending()
      requires headers != [] && headers == headersRange.headers[..R.Count(headersRange.headers, to)]
      requires R.Consecutive(headers) && R.Last(headers).height <= to
      modifies store, `fetches, `appends, headersRange
      ensures Progress(from, all, before + more, to) && store.written == old(store.written) + more
      ensures again <==> err.None?
      ensures again ==> StartsAbove(Pending(), store.head.value.height) && |Pending()| < |old(Pending())|
      ensures old(fetches) <= fetches && old(appends) <= appends
      ensures err.Some? ==> store.head.Some? && Causes(world, old(Made()), Made(), store.head.value, err.value)
    {
      ghost var left := Pending();
      err, more := StoreRange(head, headers);
      StoredMore(from, before, head, more);
      if err.Some? {
        NothingLeaves(all, left, before, more);
        return err, false, more;
      }
      DropStored(headersRange, headers, to, all, before, more);
      again := true;
    }

    /** The end of a turn: what was just stored leaves its range. */
    method DropStored(headersRange: R.HeaderRange, headers: seq<Header>, to: nat,
                      ghost all: seq<Header>, ghost before: seq<Header>, ghost more: seq<Header>)
      requires pending.Valid() && pending.ranges != [] && headersRange == pending.ranges[0]
      requires headers != [] && headers == headersRange.headers[..R.Count(headersRange.headers, to)] && headers <= Pending()
      requires OnlyStoredLeft(all, Pending(), before) && |headers| <= |more| && more[|more| - |headers|..] == headers
      modifies headersRange
      ensures pending.Valid() && OnlyStoredLeft(all, Pending(), before + more)
      ensures StartsAbove(Pending(), R.Last(headers).height) && |Pending()| < |old(Pending())|
    {
      LeftMore(all, Pending(), before, more, |headers|);
      FlatRises(headers);
      RemoveFromFirst(headersRange, headers, to);
    }

    /** The last request of processHeaders. */
    method Finish(to: nat, ghost from: Header, ghost all: seq<Header>, ghost before: seq<Header>)
      returns (err: Option<SyncError>, ghost more: seq<Header>)
      requires GetterOk(world) && Progress(from, all, before, to)
      modifies store, `fetches, `appends
      ensures Progress(from, all, before + more, to) && store.written == old(store.written) + more
      ensures err.None? ==> store.head.value.height == to
      ensures old(fetches) <= fetches && old(appends) <= appends
      ensures err.Some? ==> store.head.Some? && Causes(world, old(Made()), Made(), store.head.value, err.value)
    {
      ghost var left, head := Pending(), store.head.value;
      err, more := RequestHeaders(store.head.value, to);
      StoredMore(from, before, head, more);
      NothingLeaves(all, left, before, more);
    }

    /** The loop of processHeaders: pending ranges are stored until none starts at or below `to`. */
    method ApplyPending(fromHead: Header, to: nat) returns (err: Option<SyncError>, ghost stored: seq<Header>)
      requires GetterOk(world) && store.head == Some(fromHead) && fromHead.height <= to
      requires pending.Valid() && StartsAbove(Pending(), fromHead.height)
      modifies store, `fetches, `appends, pending, pending.ranges
      ensures Progress(fromHead, old(Pending()), stored, to) && store.written == old(store.written) + stored
      ensures err.None? ==> StartsAbove(Pending(), to)
      ensures old(fetches) <= fetches && old(appends) <= appends
      ensures err.Some? ==> Causes(world, old(Made()), Made(), store.head.value, err.value)
    {
      ghost var all, was := Pending(), store.written;
      ghost var more;
      stored := [];
      var again := true;
      while again
        invariant Progress(fromHead, all, stored, to) && store.written == was + stored
        invariant if again then StartsAbove(Pending(), store.head.value.height) else StartsAbove(Pending(), to)
        invariant forall i | 0 <= i < |pending.ranges| :: pending.ranges[i] in old(pending.ranges)
        invariant old(fetches) <= fetches && old(appends) <= appends
        decreases again, |Pending()|
      {
        ghost var now := Made();
        err, again, more := Turn(store.head.value, to, fromHead, all, stored);
        Associative(was, stored, more);
        stored := stored + more;
        if err.Some? {
          CausesSince(world, old(Made()), now, Made(), store.head.value, err.value);
          return;
        }
      }
      err := None;
    }

    /**
     * processHeaders, alone: from the store's head, with pruned pending ranges. What is stored is
     * always gap-free; only stored headers leave the pending ranges. Success ends exactly at `to`, and
     * every pending header up to there was the one stored.
     */
    method ProcessHeaders(fromHead: Header, to: nat) returns (err: Option<SyncError>, ghost stored: seq<Header>)
      requires GetterOk(world) && store.head == Some(fromHead) && fromHead.height <= to
      requires pending.Valid() && StartsAbove(Pending(), fromHead.height)
      modifies store, `fetches, `appends, pending, pending.ranges
      ensures Progress(fromHead, old(Pending()), stored, to) && store.written == old(store.written) + stored
      ensures err.None? ==> store.head.value.height == to && StartsAbove(Pending(), to)
      ensures old(fetches) <= fetches && old(appends) <= appends
      ensures err.Some? ==> store.head.Some? && Causes(world, old(Made()), Made(), store.head.value, err.value)
      ensures old(Works(world, fetches, appends)) ==> err.None?
    {
      ghost var all, was := Pending(), store.written;
      err, stored := ApplyPending(fromHead, to);
      if err.None? {
        ghost var more, now := [], Made();
        err, more := Finish(to, fromHead, all, stored);
        Associative(was, stored, more);
        stored := stored + more;
        if err.Some? {
          CausesSince(world, old(Made()), now, Made(), store.head.value, err.value);
        }
      }
      if err.Some? {
        WorkingIsEnough(old(Made()), store.head.value, err.value);
      }
    }

    // ---------------------------------------------------------------- the subjective head

    /** The height of the highest header known: pending or stored. */
    ghost function Subjective(): nat
      requires store.head.Some?
      reads store`head, pending, pending.ranges
    {
      var pend := R.HeadOf(pending.Lists());
      if pend.Some? && pend.value.height > store.head.value.height then pend.value.height else store.head.value.height
    }

    /** localHead. */
    method LocalHead() returns (h: Header)
      requires pending.Valid() && store.head.Some?
      ensures h.height == Subjective()
    {
      var pendHead := pending.Head();
      h := if pendHead.Some? && pendHead.value.height > store.head.value.height then pendHead.value else store.head.value;
    }

    /**
     * sync, alone: a success stores exactly the headers up to the subjective head. Whether it
     * succeeds or fails, the subjective head does not go down.
     */
    method Sync() returns (err: Option<SyncError>, ghost stored: seq<Header>)
      requires GetterOk(world) && pending.Valid() && store.head.Some?
      modifies store, `fetches, `appends, pending, pending.ranges
      ensures pending.Valid() && store.head.Some? && Stored(old(store.head.value), stored, store.head.value)
      ensures store.written == old(store.written) + stored
      ensures err.None? ==> store.head.value.height == old(Subjective())
      ensures old(fetches) <= fetches && old(appends) <= appends
      ensures err.Some? ==> store.head.Some? && Causes(world, old(Made()), Made(), store.head.value, err.value)
      ensures old(Works(world, fetches, appends)) ==> err.None?
      ensures Subjective() >= old(Subjective())
    {
      var subjHead := LocalHead();
      var storeHead := store.head.value;
      PrunePending();
      if storeHead.height >= subjHead.height {
        return None, [];
      }
      ghost var pruned := Pending();
      SubjectiveIs();
      err, stored := ProcessHeaders(storeHead, subjHead.height);
      SubjectiveIs();
      TopIsKept(pruned, Pending(), storeHead, stored, store.head.value);
    }

    /** Pruning up to the stored head does not change the subjective head. */
    method PrunePending()
      requires pending.Valid() && store.head.Some?
      modifies pending, pending.ranges
      ensures pending.Valid() && StartsAbove(Pending(), store.head.value.height) && Subjective() == old(Subjective())
      ensures forall i | 0 <= i < |pending.ranges| :: pending.ranges[i] in old(pending.ranges)
    {
      SubjectiveIs();
      ghost var all := Pending();
      R.PruneDropsExactly(pending.Lists(), store.head.value.height);
      pending.Prune(store.head.value.height);
      SubjectiveIs();
      R.AboveKeepsTop(all, store.head.value.height);
    }

    lemma SubjectiveIs()
      requires pending.Valid() && store.head.Some?
      ensures Subjective() == R.Top(Pending(), store.head.value.height)
    {
      R.HeadIsTop(pending.Lists());
    }

    lemma FlatRises(headers: seq<Header>)
      requires pending.Valid() && headers != [] && headers <= Pending()
      ensures StartsAbove(Pending()[|headers|..], R.Last(headers).height)
    {
      R.FlatAscends(pending.Lists());
    }
  }

  lemma Associative(a: seq<Header>, b: seq<Header>, c: seq<Header>)
    ensures a + (b + c) == a + b + c
  {
  }

  predicate StartsAbove(hs: seq<Header>, height: nat) {
    hs != [] ==> hs[0].height > height
  }

  /** `left` is what remains at the end of `all`; everything before it is stored. */
  ghost predicate OnlyStoredLeft(all: seq<Header>, left: seq<Header>, stored: seq<Header>) {
    |left| <= |all| && left == all[|all| - |left|..] && forall i | 0 <= i < |all| - |left| :: all[i] in stored
  }

  /** The highest pending header is still pending, or it is stored. */
  lemma TopIsKept(all: seq<Header>, left: seq<Header>, from: Header, stored: seq<Header>, head: Header)
    requires OnlyStoredLeft(all, left, stored) && Stored(from, stored, head) && all != []
    ensures if left != [] then R.Last(left) == R.Last(all) else R.Last(all).height <= head.height
  {
    if left == [] {
      assert R.Last(all) in stored;
    }
  }

  lemma NothingLeaves(all: seq<Header>, left: seq<Header>, stored: seq<Header>, more: seq<Header>)
    requires OnlyStoredLeft(all, left, stored)
    ensures OnlyStoredLeft(all, left, stored + more)
  {
  }

  lemma LeftMore(all: seq<Header>, left: seq<Header>, stored: seq<Header>, more: seq<Header>, n: nat)
    requires OnlyStoredLeft(all, left, stored) && n <= |left| && n <= |more| && more[|more| - n..] == left[..n]
    ensures OnlyStoredLeft(all, left[n..], stored + more)
  {
    forall i | 0 <= i < |all| - |left| + n ensures all[i] in stored + more {
      if i >= |all| - |left| {
        assert all[i] == left[i - (|all| - |left|)] == more[|more| - n..][i - (|all| - |left|)];
      }
    }
  }
}
