/** The layers under the header store: the pending batch, the datastore and the height index. */
module StoreParts {
  import opened Headers
  import opened Chains
  import HashText

  /** How a hash is kept under a pointer key. */
  datatype Codec = Codec(marshal: Hash -> seq<byte>, unmarshal: seq<byte> -> Option<Hash>)

  ghost predicate RoundTrips(codec: Codec) {
    forall hash :: codec.unmarshal(codec.marshal(hash)) == Some(hash)
  }

  /** Hash.MarshalJSON and Hash.UnmarshalJSON. */
  const JSON: Codec := Codec(hash => HashText.Json(hash), data => HashText.UnmarshalJSON(data))

  lemma JsonRoundTrips()
    ensures RoundTrips(JSON)
  {
    forall hash ensures JSON.unmarshal(JSON.marshal(hash)) == Some(hash) {
      HashText.JsonRoundTrip(hash);
    }
  }

  /** store/batch.go: headers by height, and heights by hash. */
  class Batch {
    var heights: map<Hash, nat>
    var headers: map<nat, Header>

    ghost predicate Valid(chain: Chain)
      reads this
    {
      (forall n :: HeaderOk(chain, n)) && (forall hash :: HashOk(chain, hash))
    }

    predicate HeaderOk(chain: Chain, n: nat)
      reads this
    {
      n in headers ==> headers[n] == chain.at(n) && n <= MAX_UINT64 && chain.at(n).hash in heights
    }

    predicate HashOk(chain: Chain, hash: Hash)
      reads this
    {
      hash in heights ==> heights[hash] == chain.heightOf(hash) && heights[hash] in headers && Named(chain, hash).hash == hash
    }

    constructor ()
      ensures headers == map[] && heights == map[]
    {
      heights, headers := map[], map[];
    }

    method Append(hs: seq<Header>, ghost chain: Chain)
      requires Canonical(chain) && Valid(chain) && AllOnChain(chain, hs)
      modifies this
      ensures Valid(chain) && headers.Keys == old(headers.Keys) + HeightsOf(hs)
    {
      for i := 0 to |hs|
        invariant Valid(chain) && headers.Keys == old(headers.Keys) + HeightsOf(hs[..i])
      {
        HeightsOfSnoc(hs, i);
        Put(hs[i], chain);
      }
      assert hs[..|hs|] == hs;
    }

    method Put(h: Header, ghost chain: Chain)
      requires Canonical(chain) && Valid(chain) && OnChain(chain, h)
      modifies this
      ensures Valid(chain) && headers == old(headers)[h.height := h]
    {
      headers := headers[h.height := h];
      heights := heights[h.hash := h.height];
      forall n ensures HeaderOk(chain, n) {
        assert old(HeaderOk(chain, n));
      }
      forall hash ensures HashOk(chain, hash) {
        assert old(HashOk(chain, hash));
      }
    }

    /** Get by hash. */
    method Get(hash: Hash, ghost chain: Chain) returns (h: Option<Header>)
      requires Canonical(chain) && Valid(chain)
      ensures h.Some? ==> h.value.hash == hash && h.value.height in headers && h.value == chain.at(h.value.height)
      ensures h.None? ==> forall n | n in headers :: chain.at(n).hash != hash
    {
      assert HashOk(chain, hash);
      h := if hash in heights then Some(headers[heights[hash]]) else None;
      if h.Some? {
        assert HeaderOk(chain, heights[hash]);
      }
      assert forall n | n in headers :: HeaderOk(chain, n);
    }

    method GetByHeight(height: nat) returns (h: Option<Header>)
      ensures h == if height in headers then Some(headers[height]) else None
    {
      h := if height in headers then Some(headers[height]) else None;
    }

    /** All headers, in any order. */
    method GetAll(ghost chain: Chain) returns (all: seq<Header>)
      requires Canonical(chain) && Valid(chain)
      ensures HeightsOf(all) == headers.Keys && AllOnChain(chain, all)
      ensures all == [] <==> headers.Keys == {}
    {
      all := [];
      var left := headers.Keys;
      while left != {}
        invariant left <= headers.Keys && HeightsOf(all) == headers.Keys - left && AllOnChain(chain, all)
        decreases |left|
      {
        var n :| n in left;
        assert HeaderOk(chain, n);
        AppendHeader(chain, all, headers[n]);
        all, left := all + [headers[n]], left - {n};
      }
      NoHeaders(all);
    }

    method DeleteRange(from: nat, to: nat, ghost chain: Chain)
      requires Canonical(chain) && Valid(chain)
      modifies this
      ensures Valid(chain) && headers == old(headers) - (set n | n in old(headers) && from <= n < to)
    {
      headers := map n | n in headers && !(from <= n < to) :: headers[n];
      heights := map hash | hash in heights && !(from <= heights[hash] < to) :: heights[hash];
      forall n ensures HeaderOk(chain, n) {
        assert old(HeaderOk(chain, n)) && old(HashOk(chain, chain.at(n).hash));
      }
      forall hash ensures HashOk(chain, hash) {
        assert old(HashOk(chain, hash));
      }
    }

    method Reset()
      modifies this
      ensures headers == map[] && heights == map[]
    {
      heights, headers := map[], map[];
    }
  }

  /** No entry is lost or changed. */
  ghost predicate Keeps<K(!new), V>(before: map<K, V>, after: map<K, V>) {
    forall k | k in before :: k in after && after[k] == before[k]
  }

  /** The datastore, its keys told apart by kind (module Keys shows that their names never collide). */
  class Datastore {
    var headers: map<Hash, Header>
    var index: map<nat, Hash>
    var headKey: Option<seq<byte>>
    var tailKey: Option<seq<byte>>

    ghost predicate Valid(chain: Chain)
      reads `headers, `index
    {
      (forall n :: IndexOk(chain, n)) && (forall hash :: HeaderOk(chain, hash))
    }

    predicate IndexOk(chain: Chain, n: nat)
      reads `headers, `index
    {
      n in index ==> n <= MAX_UINT64 && index[n] == chain.at(n).hash && index[n] in headers
    }

    predicate HeaderOk(chain: Chain, hash: Hash)
      reads `headers, `index
    {
      hash in headers ==> headers[hash] == Named(chain, hash) && Named(chain, hash).hash == hash && chain.heightOf(hash) in index
    }

    constructor ()
      ensures headers == map[] && index == map[] && headKey == tailKey == None
    {
      headers, index, headKey, tailKey := map[], map[], None, None;
    }

    /** One atomic commit of a batch of headers, their index entries and both pointers. */
    method Commit(hs: seq<Header>, head: seq<byte>, tail: seq<byte>, ghost chain: Chain)
      requires Canonical(chain) && Valid(chain) && AllOnChain(chain, hs)
      modifies this
      ensures Valid(chain) && index.Keys == old(index.Keys) + HeightsOf(hs)
      ensures Keeps(old(headers), headers) && Keeps(old(index), index)
      ensures headKey == Some(head) && tailKey == Some(tail)
    {
      for i := 0 to |hs|
        invariant Valid(chain) && index.Keys == old(index.Keys) + HeightsOf(hs[..i])
        invariant Keeps(old(headers), headers) && Keeps(old(index), index)
      {
        HeightsOfSnoc(hs, i);
        Put(hs[i], chain);
      }
      assert hs[..|hs|] == hs;
      headKey, tailKey := Some(head), Some(tail);
    }

    method Put(h: Header, ghost chain: Chain)
      requires Canonical(chain) && Valid(chain) && OnChain(chain, h)
      modifies this`headers, this`index
      ensures Valid(chain) && index.Keys == old(index.Keys) + {h.height}
      ensures Keeps(old(headers), headers) && Keeps(old(index), index)
    {
      assert IndexOk(chain, h.height) && HeaderOk(chain, h.hash);
      headers := headers[h.hash := h];
      index := index[h.height := h.hash];
      forall n ensures IndexOk(chain, n) {
        assert old(IndexOk(chain, n));
      }
      forall hash ensures HeaderOk(chain, hash) {
        assert old(HeaderOk(chain, hash));
      }
    }

    method Delete(height: nat, ghost chain: Chain)
      requires Canonical(chain) && Valid(chain) && height in index
      modifies this`headers, this`index
      ensures Valid(chain) && index == old(index) - {height} && headers == old(headers) - {chain.at(height).hash}
    {
      assert IndexOk(chain, height);
      headers := headers - {index[height]};
      index := index - {height};
      forall n ensures IndexOk(chain, n) {
        assert old(IndexOk(chain, n));
      }
      forall hash ensures HeaderOk(chain, hash) {
        assert old(HeaderOk(chain, hash));
      }
    }
  }

  /** store/height_indexer.go: hashes by height, read through a cache that may drop entries on every Add. */
  class HeightIndexer {
    const ds: Datastore
    var cache: map<nat, Hash>

    ghost predicate Valid()
      reads `cache, ds`index
    {
      forall n | n in cache :: n in ds.index && cache[n] == ds.index[n]
    }

    constructor (ds: Datastore)
      ensures this.ds == ds && cache == map[]
    {
      this.ds := ds;
      cache := map[];
    }

    method HashByHeight(height: nat, useCache: bool) returns (hash: Option<Hash>)
      requires Valid()
      modifies this`cache
      ensures Valid() && hash == if height in ds.index then Some(ds.index[height]) else None
    {
      if height in cache {
        return Some(cache[height]);
      }
      if height !in ds.index {
        return None;
      }
      var val := ds.index[height];
      if useCache {
        var kept :| kept <= cache.Keys;
        cache := (map n | n in kept :: cache[n])[height := val];
      }
      return Some(val);
    }

    method Has(height: nat) returns (has: bool)
      requires Valid()
      ensures has <==> height in ds.index
    {
      has := height in cache || height in ds.index;
    }

    method Forget(height: nat)
      modifies this`cache
      ensures cache == old(cache) - {height}
    {
      cache := cache - {height};
    }

    method Purge()
      modifies this`cache
      ensures cache == map[]
    {
      cache := map[];
    }
  }
}
