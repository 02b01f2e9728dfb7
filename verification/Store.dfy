/**
 * The header store (store/store.go): a write-behind store whose head and tail pointers follow the
 * run of consecutive heights it holds.
 */
module Store {
  import opened Headers
  import opened Chains
  import opened StoreParts
  import StoreRuns

  class Store {
    const ds: Datastore
    const heightIndex: HeightIndexer
    const pending: Batch
    const writeBatchSize: nat
    const codec: Codec
    ghost const chain: Chain
    var cache: map<Hash, Header>
    var contiguousHead: Option<Header>
    var tailHeader: Option<Header>

    /** The datastore and the pending batch hold headers of the chain. */
    ghost predicate LayersOk()
      reads ds`headers, ds`index, pending
    {
      Canonical(chain) && RoundTrips(codec) && ds.Valid(chain) && pending.Valid(chain)
    }

    /** The caches repeat the datastore. */
    ghost predicate CachesOk()
      reads `cache, ds`headers, ds`index, heightIndex`cache
    {
      && heightIndex.ds == ds && heightIndex.Valid()
      && (forall hash | hash in cache :: hash in ds.headers && cache[hash] == ds.headers[hash])
    }

    ghost predicate ValidData()
      reads `cache, ds`headers, ds`index, heightIndex`cache, pending
    {
      LayersOk() && CachesOk()
    }

    /** The plain view of the store: the heights it can serve. */
    ghost function Present(): set<nat>
      reads ds`index, pending`headers
    {
      pending.headers.Keys + ds.index.Keys
    }

    ghost predicate Points(p: Option<Header>)
      reads ds`index, pending`headers
    {
      p.Some? ==> OnChain(chain, p.value) && p.value.height in Present()
    }

    /** The pointers are set together, to headers the store can serve. */
    ghost predicate PointersOk()
      reads `contiguousHead, `tailHeader, ds`index, pending`headers
    {
      && Points(contiguousHead) && Points(tailHeader)
      && contiguousHead.Some? == tailHeader.Some?
      && (contiguousHead.None? ==> pending.headers == map[])
    }

    ghost predicate Valid()
      reads `cache, `contiguousHead, `tailHeader, ds`headers, ds`index, heightIndex`cache, pending
    {
      ValidData() && PointersOk()
    }

    constructor (ds: Datastore, writeBatchSize: nat, codec: Codec, ghost chain: Chain)
      requires Canonical(chain) && RoundTrips(codec) && ds.Valid(chain)
      ensures Valid() && this.ds == ds && this.chain == chain && this.writeBatchSize == writeBatchSize && this.codec == codec
      ensures contiguousHead == tailHeader == None && pending.headers == map[]
      ensures fresh(pending) && fresh(heightIndex)
    {
      this.ds, this.writeBatchSize, this.codec, this.chain := ds, writeBatchSize, codec, chain;
      var p := new Batch();
      var hi := new HeightIndexer(ds);
      pending, heightIndex := p, hi;
      cache, contiguousHead, tailHeader := map[], None, None;
    }

    // ---------------------------------------------------------------- reads

    /** Get: by hash, through the cache, the pending batch and the datastore. */
    method Get(hash: Hash) returns (h: Option<Header>)
      requires ValidData()
      modifies `cache
      ensures ValidData()
      ensures h.Some? ==> h.value.hash == hash && h.value.height in Present() && OnChain(chain, h.value)
      ensures h.None? ==> forall n | n in Present() :: chain.at(n).hash != hash
    {
      HashesOnDisk(hash);
      if hash in cache {
        return Some(cache[hash]);
      }
      h := pending.Get(hash, chain);
      if h.Some? {
        PresentIsOnChain(h.value.height);
        return;
      }
      if hash !in ds.headers {
        return None;
      }
      h := Some(ds.headers[hash]);
      var kept :| kept <= cache.Keys;
      cache := (map k | k in kept :: cache[k])[hash := h.value];
    }

    /** The datastore has a header by its hash exactly when the hash is that of an indexed height. */
    lemma HashesOnDisk(hash: Hash)
      requires LayersOk()
      ensures hash in ds.headers ==>
                var h := ds.headers[hash];
                h.hash == hash && h.height in ds.index && OnChain(chain, h)
      ensures hash !in ds.headers ==> forall n | n in ds.index :: chain.at(n).hash != hash
    {
      assert ds.HeaderOk(chain, hash) && ds.IndexOk(chain, chain.heightOf(hash));
      assert forall n | n in ds.index :: ds.IndexOk(chain, n);
    }

    lemma PresentIsOnChain(n: nat)
      requires LayersOk() && n in Present()
      ensures OnChain(chain, chain.at(n)) && chain.at(n).height == n
      ensures n in pending.headers ==> pending.headers[n] == chain.at(n)
      ensures n in ds.index ==> ds.index[n] == chain.at(n).hash && ds.index[n] in ds.headers
    {
      assert pending.HeaderOk(chain, n) && ds.IndexOk(chain, n);
    }

    /** What getByHeight answers: the pointers first, then the plain view. */
    ghost function AtHeight(height: nat): Option<Header>
      reads `contiguousHead, `tailHeader, ds`index, pending`headers
    {
      if contiguousHead.Some? && contiguousHead.value.height == height then contiguousHead
      else if tailHeader.Some? && tailHeader.value.height == height then tailHeader
      else if height in Present() then Some(chain.at(height)) else None
    }

    /** getByHeight, without waiting. */
    method GetByHeight(height: nat) returns (h: Option<Header>)
      requires ValidData()
      modifies `cache, heightIndex`cache
      ensures ValidData() && h == AtHeight(height)
    {
      if contiguousHead.Some? && contiguousHead.value.height == height {
        return contiguousHead;
      }
      if tailHeader.Some? && tailHeader.value.height == height {
        return tailHeader;
      }
      if height in Present() {
        PresentIsOnChain(height);
      }
      h := pending.GetByHeight(height);
      if h.Some? {
        return;
      }
      var hash := heightIndex.HashByHeight(height, true);
      if hash.None? {
        return None;
      }
      h := Get(hash.value);
    }

    method HasHeaderAt(height: nat) returns (has: bool)
      requires ValidData()
      ensures has <==> height in Present()
    {
      var h := pending.GetByHeight(height);
      if h.Some? {
        return true;
      }
      has := heightIndex.Has(height);
    }

    /** Pointers, caches, pending batch and datastore answer like one plain map of heights. */
    lemma ReadsAgree(height: nat)
      requires Valid()
      ensures AtHeight(height) == if height in Present() then Some(chain.at(height)) else None
    {
    }

    ghost predicate Covers(from: nat, to: nat)
      reads ds`index, pending`headers
    {
      forall n: nat | from <= n < to :: n in Present()
    }

    /**
     * getRangeByHeight: the top header by height, the others by walking the hash links down. On a
     * hash-linked chain this gives the headers of [from, to) as reading them one by one would.
     */
    method GetRangeByHeight(from: nat, to: nat) returns (hs: Option<seq<Header>>)
      requires Valid() && HashLinked(chain)
      modifies `cache, heightIndex`cache
      ensures Valid()
      ensures hs.Some? <==> from < to && 1 < to && Covers(from, to)
      ensures hs.Some? ==> from < to && hs.value == Slice(chain, from, to)
    {
      if from >= to || to == 1 {
        return None;
      }
      var h := GetByHeight(to - 1);
      if h.None? {
        return None;
      }
      hs := WalkBack(h.value, from, to);
    }

    /** The loop of getRangeByHeight, from the header of height to - 1 down to `from`. */
    method WalkBack(top: Header, from: nat, to: nat) returns (hs: Option<seq<Header>>)
      requires ValidData() && HashLinked(chain) && from < to
      requires to - 1 in Present() && top == chain.at(to - 1)
      modifies `cache
      ensures ValidData()
      ensures hs.Some? <==> Covers(from, to)
      ensures hs.Some? ==> hs.value == Slice(chain, from, to)
    {
      var h := Some(top);
      var i := to - 1;
      assert Slice(chain, to, to) == [];
      var headers := [top];
      while i > from
        invariant from <= i < to && ValidData() && Covers(i, to)
        invariant h == Some(chain.at(i)) && headers == Slice(chain, i, to)
      {
        h := GetLast(h.value, i);
        if h.None? {
          return None;
        }
        i := i - 1;
        headers := [h.value] + headers;
      }
      return Some(headers);
    }

    /** Get by the hash a header names as its last one. */
    method GetLast(h: Header, height: nat) returns (last: Option<Header>)
      requires ValidData() && HashLinked(chain) && height > 0 && h == chain.at(height)
      modifies `cache
      ensures ValidData() && last == if height - 1 in Present() then Some(chain.at(height - 1)) else None
    {
      assert LinkedAt(chain, height);
      last := Get(h.lastHeader);
      if last.Some? {
        assert chain.heightOf(last.value.hash) == last.value.height;
        assert chain.heightOf(chain.at(height - 1).hash) == height - 1;
      }
    }

    // ---------------------------------------------------------------- the run

    /** nextHead: up from the head while headers are present. */
    method NextHead() returns (head: Header, changed: bool)
      requires Valid() && contiguousHead.Some?
      modifies `cache, heightIndex`cache
      ensures Valid() && OnChain(chain, head) && head.height in Present()
      ensures WalkedUp(Present(), contiguousHead.value.height, head.height)
      ensures changed == (head.height != contiguousHead.value.height)
    {
      head := contiguousHead.value;
      var boundary := HighBoundary(head.height);
      if boundary == head.height {
        return head, false;
      }
      ReadsAgree(boundary);
      var newHead := GetByHeight(boundary);
      return newHead.value, true;
    }

    /** The loop of nextHead. */
    method HighBoundary(start: nat) returns (boundary: nat)
      requires ValidData() && start in Present() && start <= MAX_UINT64
      ensures boundary <= MAX_UINT64 && boundary in Present() && WalkedUp(Present(), start, boundary)
    {
      boundary := start;
      while boundary != MAX_UINT64
        invariant start <= boundary <= MAX_UINT64 && boundary in Present()
        invariant forall n: nat | start < n <= boundary :: n in Present()
        decreases MAX_UINT64 - boundary
      {
        var has := HasHeaderAt(boundary + 1);
        if !has {
          break;
        }
        boundary := boundary + 1;
      }
    }

    /** nextTail: down from the tail while headers are present, to height 1 at most. */
    method NextTail() returns (tail: Header, changed: bool)
      requires Valid() && tailHeader.Some?
      modifies `cache, heightIndex`cache
      ensures Valid() && OnChain(chain, tail) && tail.height in Present()
      ensures WalkedDown(Present(), tailHeader.value.height, tail.height)
      ensures changed == (tail.height != tailHeader.value.height)
    {
      tail := tailHeader.value;
      var boundary := LowBoundary(tail.height);
      if boundary == tail.height {
        return tail, false;
      }
      ReadsAgree(boundary);
      var newTail := GetByHeight(boundary);
      return newTail.value, true;
    }

    /** The loop of nextTail. */
    method LowBoundary(start: nat) returns (boundary: nat)
      requires ValidData() && start in Present()
      ensures boundary in Present() && WalkedDown(Present(), start, boundary)
    {
      boundary := start;
      while boundary > 1
        invariant boundary <= start && boundary in Present() && (start >= 1 ==> boundary >= 1)
        invariant forall n: nat | boundary <= n < start :: n in Present()
      {
        var has := HasHeaderAt(boundary - 1);
        if !has {
          break;
        }
        boundary := boundary - 1;
      }
    }

    method AdvanceHead()
      requires Valid()
      modifies `cache, `contiguousHead, heightIndex`cache
      ensures Valid() && contiguousHead.Some? == old(contiguousHead.Some?)
      ensures contiguousHead.Some? ==> WalkedUp(Present(), old(contiguousHead.value.height), contiguousHead.value.height)
    {
      if contiguousHead.None? {
        return;
      }
      var newHead, changed := NextHead();
      if changed {
        contiguousHead := Some(newHead);
      }
    }

    method RecedeTail()
      requires Valid()
      modifies `cache, `tailHeader, heightIndex`cache
      ensures Valid() && tailHeader.Some? == old(tailHeader.Some?)
      ensures tailHeader.Some? ==> WalkedDown(Present(), old(tailHeader.value.height), tailHeader.value.height)
    {
      if tailHeader.None? {
        return;
      }
      var newTail, changed := NextTail();
      if changed {
        tailHeader := Some(newTail);
      }
    }

    // ---------------------------------------------------------------- writes

    /** The two pointers as a run, if both are set. */
    ghost function ServedRun(): Option<Run>
      reads `contiguousHead, `tailHeader
    {
      if contiguousHead.Some? && tailHeader.Some?
      then Some(Run(tailHeader.value.height, contiguousHead.value.height)) else None
    }

    /** The pointer keys of the datastore name headers that are on disk, or are both absent with nothing on disk. */
    ghost predicate SavedOk()
      reads ds`index, ds`headKey, ds`tailKey
    {
      if ds.headKey.None? then ds.tailKey.None? && ds.index == map[]
      else SavedRun().Some? && SavedAs(SavedRun().value)
    }

    ghost predicate SavedAs(r: Run)
      reads ds`index, ds`headKey, ds`tailKey
    {
      && r.tail in ds.index && r.head in ds.index
      && ds.tailKey == Some(codec.marshal(chain.at(r.tail).hash)) && ds.headKey == Some(codec.marshal(chain.at(r.head).hash))
    }

    /** The run the pointer keys name. */
    ghost function SavedRun(): Option<Run>
      reads ds`headKey, ds`tailKey
    {
      if ds.headKey.None? || ds.tailKey.None? then None
      else
        var head, tail := codec.unmarshal(ds.headKey.value), codec.unmarshal(ds.tailKey.value);
        if head.None? || tail.None? then None
        else Some(Run(chain.heightOf(tail.value), chain.heightOf(head.value)))
    }

    lemma SavedRunIs(r: Run)
      requires Canonical(chain) && RoundTrips(codec) && SavedAs(r)
      ensures SavedRun() == Some(r)
    {
    }

    /** The store as StoreRuns sees it. */
    ghost function Abs(): StoreRuns.State
      reads `contiguousHead, `tailHeader, ds`index, ds`headKey, ds`tailKey, pending`headers
    {
      StoreRuns.State(Present(), ServedRun(), ds.index.Keys, SavedRun())
    }

    method EnsureInit(headers: seq<Header>)
      modifies `contiguousHead, `tailHeader
      ensures contiguousHead == if old(contiguousHead).None? && headers != [] then Some(headers[|headers| - 1]) else old(contiguousHead)
      ensures tailHeader == if old(tailHeader).None? && headers != [] then Some(headers[0]) else old(tailHeader)
    {
      if |headers| == 0 {
        return;
      }
      if contiguousHead.None? {
        contiguousHead := Some(headers[|headers| - 1]);
      }
      if tailHeader.None? {
        tailHeader := Some(headers[0]);
      }
    }

    /**
     * flush: the headers and both pointers in one commit. Given all that is pending, every height is
     * on disk then, and the keys name the served run, whatever they named before.
     */
    method Flush(headers: seq<Header>)
      requires Valid() && contiguousHead.Some?
      requires AllOnChain(chain, headers) && HeightsOf(headers) == pending.headers.Keys
      modifies ds
      ensures ValidData() && ds.index.Keys == old(Present())
      ensures headers == [] ==> ds.index == old(ds.index) && ds.headKey == old(ds.headKey) && ds.tailKey == old(ds.tailKey)
      ensures headers != [] ==> SavedOk() && SavedRun() == ServedRun()
    {
      NoHeaders(headers);
      if |headers| == 0 {
        return;
      }
      ds.Commit(headers, codec.marshal(contiguousHead.value.hash), codec.marshal(tailHeader.value.hash), chain);
      KeysNameTheRun();
    }

    /** Flushing the pending batch and resetting it: no height appears or disappears. */
    method FlushPending()
      requires Valid() && contiguousHead.Some?
      modifies ds, pending
      ensures Valid() && StoreRuns.FlushStep(old(Abs()), Abs())
      ensures pending.headers == map[] && ds.index.Keys == Present()
      ensures old(pending.headers.Keys) == {} ==> SavedRun() == old(SavedRun()) && (old(SavedOk()) ==> SavedOk())
      ensures old(pending.headers.Keys) != {} ==> SavedOk() && SavedRun() == ServedRun()
    {
      ghost var before := Abs();
      var toFlush := pending.GetAll(chain);
      Flush(toFlush);
      assert ServedRun() == before.run && (SavedRun() == before.saved || SavedRun() == ServedRun());
      pending.Reset();
      assert Present() == ds.index.Keys == before.present;
    }

    /** The end of the flush closure: a commit if enough is pending or the store is stopping. */
    method FlushIfDue(stopping: bool)
      requires Valid()
      modifies ds, pending
      ensures Valid() && StoreRuns.FlushStep(old(Abs()), Abs()) && (old(SavedOk()) ==> SavedOk())
      ensures if stopping || |old(pending.headers.Keys)| >= writeBatchSize
              then pending.headers == map[] && ds.index.Keys == Present()
                   && (if old(pending.headers.Keys) == {} then SavedRun() == old(SavedRun()) else SavedOk() && SavedRun() == ServedRun())
              else Abs().disk == old(Abs()).disk && SavedRun() == old(SavedRun())
    {
      assert |pending.headers| == |pending.headers.Keys|;
      if !(|pending.headers| < writeBatchSize && !stopping) && contiguousHead.Some? {
        FlushPending();
      }
    }

    lemma KeysNameTheRun()
      requires LayersOk() && Points(contiguousHead) && Points(tailHeader) && contiguousHead.Some? && tailHeader.Some?
      requires Present() <= ds.index.Keys
      requires ds.headKey == Some(codec.marshal(contiguousHead.value.hash))
      requires ds.tailKey == Some(codec.marshal(tailHeader.value.hash))
      ensures SavedOk() && SavedRun() == ServedRun()
    {
      SavedRunIs(Run(tailHeader.value.height, contiguousHead.value.height));
    }

    /** The first steps of the flush closure: initialise the pointers, add the headers to the pending batch. */
    method AppendPending(headers: seq<Header>)
      requires Valid() && AllOnChain(chain, headers)
      modifies `contiguousHead, `tailHeader, pending
      ensures Valid()
      ensures pending.headers.Keys == old(pending.headers.Keys) + HeightsOf(headers)
      ensures headers == [] ==> Abs() == old(Abs())
      ensures headers != [] ==> StoreRuns.AppendStep(old(Abs()), Heights(headers), Abs())
    {
      ghost var before := Abs();
      EnsureInit(headers);
      if headers != [] {
        HeightIn(headers, 0);
        HeightIn(headers, |headers| - 1);
        assert ServedRun() == Some(StoreRuns.Base(before, Heights(headers)));
      }
      assert Abs() == before.(run := ServedRun());
      pending.Append(headers, chain);
      assert Present() == before.present + HeightsOf(headers);
      NoHeaders(headers);
    }

    method ExtendRun()
      requires Valid()
      modifies `cache, `contiguousHead, `tailHeader, heightIndex`cache
      ensures Valid() && (if ServedRun().None? then Abs() == old(Abs()) else StoreRuns.ExtendStep(old(Abs()), Abs()))
    {
      AdvanceHead();
      RecedeTail();
    }

    /** What is pending together with the headers is enough for a commit, or the store is stopping. */
    ghost predicate Commits(headers: seq<Header>)
      reads pending`headers
    {
      headers == [] || |pending.headers.Keys + HeightsOf(headers)| >= writeBatchSize
    }

    ghost predicate RunIsMaximal()
      reads `contiguousHead, `tailHeader, ds`index, pending`headers
    {
      ServedRun().Some? ==> IsMaximalRun(Present(), ServedRun().value)
    }

    /**
     * The flush closure of flushLoop. `headers` is one queued batch, or [] for the signal to stop.
     * Without a commit the disk stays as it is. With one everything is on disk, nothing is pending,
     * and if there was something to write the pointer keys name the served run, whatever they named
     * before. After a stop they also do if they named a maximal run before.
     */
    method HandleWrites(headers: seq<Header>)
      requires Valid() && AllOnChain(chain, headers)
      modifies `cache, `contiguousHead, `tailHeader, heightIndex`cache, pending, ds
      ensures Valid() && (old(SavedOk()) ==> SavedOk())
      ensures headers != [] ==> StoreRuns.BatchStep(old(Abs()), Heights(headers), Abs())
      ensures headers == [] ==> Present() == old(Present())
      ensures !old(Commits(headers)) ==> Abs().disk == old(Abs()).disk && Abs().saved == old(Abs()).saved
      ensures old(Commits(headers)) ==>
                && pending.headers == map[] && ds.index.Keys == Present()
                && (old(pending.headers.Keys) + HeightsOf(headers) != {} ==> SavedOk() && SavedRun() == ServedRun())
      ensures headers == [] && old(SavedRun() == ServedRun() && RunIsMaximal()) ==> SavedRun() == ServedRun()
    {
      ghost var start := Abs();
      AppendPending(headers);
      ghost var appended := Abs();
      ExtendRun();
      ghost var extended := Abs();
      NoHeaders(headers);
      StoreRuns.MaximalStays(appended, extended);
      assert extended.disk == start.disk && extended.saved == start.saved;
      assert pending.headers.Keys == old(pending.headers.Keys) + HeightsOf(headers);
      FlushIfDue(|headers| == 0);
      if headers != [] {
        StoreRuns.StepsCompose(start, Heights(headers), appended, extended, Abs());
      }
    }

    /**
     * A crash and a restart: what was only in memory is gone, and init works from the datastore alone.
     * If the keys named headers on disk, the last commit is served. Otherwise each pointer is set when
     * its key names a header on disk, and the store is left with one pointer when only one key does.
     */
    method Restart() returns (ok: bool)
      requires ValidData()
      modifies `cache, `contiguousHead, `tailHeader, heightIndex`cache, pending, ds`headKey, ds`tailKey
      ensures ValidData() && Present() == old(ds.index.Keys)
      ensures old(SavedOk()) ==> ok && Valid() && SavedOk() && StoreRuns.CrashStep(old(Abs()), Abs())
      ensures ok <==> old(Holds(ds.headKey)) && old(Holds(ds.tailKey))
      ensures ok ==> PointerIs(contiguousHead, old(ds.headKey)) && PointerIs(tailHeader, old(ds.tailKey))
      ensures ok ==> (Valid() <==> contiguousHead.Some? == tailHeader.Some?)
      ensures ok ==> ds.headKey == KeptKey(contiguousHead, old(ds.headKey)) && ds.tailKey == KeptKey(tailHeader, old(ds.tailKey))
    {
      Lose();
      ok := Init();
    }

    method Lose()
      requires ValidData()
      modifies `cache, `contiguousHead, `tailHeader, heightIndex`cache, pending
      ensures ValidData() && pending.headers == map[] && contiguousHead == tailHeader == None
    {
      pending.Reset();
      heightIndex.Purge();
      cache, contiguousHead, tailHeader := map[], None, None;
    }

    /** A pointer key that is absent or holds a hash. */
    ghost predicate Holds(key: Option<seq<byte>>) {
      key.Some? ==> codec.unmarshal(key.value).Some?
    }

    /** A pointer set to the header its key names, or not set because the key names none in the store. */
    ghost predicate PointerIs(p: Option<Header>, key: Option<seq<byte>>)
      reads ds`index, pending`headers
    {
      if p.Some? then Points(p) && Names(key, p.value.hash)
      else forall n | n in Present() :: !Names(key, chain.at(n).hash)
    }

    /** A key that names no header is deleted. */
    ghost function KeptKey(p: Option<Header>, key: Option<seq<byte>>): Option<seq<byte>> {
      if p.Some? then key else None
    }

    /** init: an error for a key that does not hold a hash; otherwise a pointer is set if its header is found. */
    method Init() returns (ok: bool)
      requires ValidData() && pending.headers == map[] && contiguousHead == tailHeader == None
      modifies `cache, `contiguousHead, `tailHeader, ds`headKey, ds`tailKey
      ensures ValidData()
      ensures ok <==> old(Holds(ds.headKey)) && old(Holds(ds.tailKey))
      ensures ok ==> PointerIs(contiguousHead, old(ds.headKey)) && PointerIs(tailHeader, old(ds.tailKey))
      ensures ok ==> ds.headKey == KeptKey(contiguousHead, old(ds.headKey)) && ds.tailKey == KeptKey(tailHeader, old(ds.tailKey))
      ensures old(SavedOk()) ==> ok && Valid() && SavedOk() && ServedRun() == SavedRun() == old(SavedRun())
    {
      ghost var saved := SavedRun();
      if SavedOk() {
        KeysReadBack();
      }
      var head := ReadByKey(HeadPointer);
      if head.Corrupt? {
        return false;
      }
      contiguousHead := if head.Read? then Some(head.header) else None;
      var tail := ReadByKey(TailPointer);
      if tail.Corrupt? {
        return false;
      }
      tailHeader := if tail.Read? then Some(tail.header) else None;
      return true;
    }

    ghost function KeyOf(p: Pointer): Option<seq<byte>>
      reads ds`headKey, ds`tailKey
    {
      if p.HeadPointer? then ds.headKey else ds.tailKey
    }

    /** What a pointer key holds when it is read. */
    ghost predicate Names(key: Option<seq<byte>>, hash: Hash) {
      key.Some? && codec.unmarshal(key.value) == Some(hash)
    }

    /**
     * readByKey: the header a pointer key names. A key that names no header in the store is deleted;
     * in every other case both keys stay.
     */
    method ReadByKey(p: Pointer) returns (r: KeyRead)
      requires ValidData()
      modifies `cache, ds`headKey, ds`tailKey
      ensures ValidData()
      ensures r.Corrupt? <==> old(KeyOf(p)).Some? && codec.unmarshal(old(KeyOf(p)).value).None?
      ensures r.Read? <==> exists n :: n in Present() && Names(old(KeyOf(p)), chain.at(n).hash)
      ensures r.Read? ==> Names(old(KeyOf(p)), r.header.hash) && r.header.height in Present() && OnChain(chain, r.header)
      ensures var dangling := old(KeyOf(p)).Some? && r.NotFound?;
              && ds.headKey == (if dangling && p.HeadPointer? then None else old(ds.headKey))
              && ds.tailKey == (if dangling && p.TailPointer? then None else old(ds.tailKey))
    {
      var key := if p.HeadPointer? then ds.headKey else ds.tailKey;
      if key.None? {
        return NotFound;
      }
      var hash := codec.unmarshal(key.value);
      if hash.None? {
        return Corrupt;
      }
      var h := Get(hash.value);
      if h.Some? {
        assert chain.at(h.value.height).hash == hash.value;
        return Read(h.value);
      }
      if p.HeadPointer? {
        ds.headKey := None;
      } else {
        ds.tailKey := None;
      }
      return NotFound;
    }

    /** Keys written with their headers name the headers of the saved run. */
    lemma KeysReadBack()
      requires LayersOk() && SavedOk()
      ensures ds.headKey.Some? ==>
                && SavedRun().Some? && SavedRun().value.head in Present() && SavedRun().value.tail in Present()
                && Names(ds.headKey, chain.at(SavedRun().value.head).hash) && Names(ds.tailKey, chain.at(SavedRun().value.tail).hash)
    {
    }
  }

  datatype Pointer = HeadPointer | TailPointer

  datatype KeyRead = NotFound | Corrupt | Read(header: Header)

  function Heights(hs: seq<Header>): (heights: seq<nat>)
    ensures |heights| == |hs| && StoreRuns.SetOf(heights) == HeightsOf(hs)
    ensures forall i | 0 <= i < |hs| :: heights[i] == hs[i].height
  {
    var heights := seq(|hs|, i requires 0 <= i < |hs| => hs[i].height);
    HeightsAre(hs, heights);
    heights
  }
}
