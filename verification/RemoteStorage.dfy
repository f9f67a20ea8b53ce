/** The cache-through view of the live chain. */
module RemoteStorage {
  import opened Wrappers
  import opened ByteStrings
  import opened Upstream
  import opened IntervalTable
  import opened ScanRecords
  import opened StorageCache
  import opened Scatter

  datatype RemoteError = Rpc(rpc: RpcError) | Cache(cache: CacheError)

  const DEFAULT_PREFETCH_PAGE_SIZE: nat := 1000
  const MIN_STORAGE_KEY_PREFIX_LEN: nat := 32

  class RemoteStorageLayer {
    const rpc: ForkRpcClient
    const cache: StorageCache

    constructor (rpc: ForkRpcClient, cache: StorageCache)
      ensures this.rpc == rpc && this.cache == cache
    {
      this.rpc, this.cache := rpc, cache;
    }

    /** Nothing in the mirror tables contradicts upstream. */
    ghost predicate Valid()
      reads cache`storage, cache`prefixScans, cache`blocks
    {
      && Transparent(rpc.upstream, cache.storage)
      && ScansSound(rpc.upstream, cache.storage, cache.prefixScans)
      && forall n :: n in cache.blocks ==> n in rpc.canonical && rpc.canonical[n] == cache.blocks[n]
    }

    /** The node can be reached, the database accepts writes and the block exists. */
    predicate Serves(hash: Hash) {
      rpc.reachable && cache.healthy && hash in rpc.upstream
    }

    /** `value` is what upstream holds at the key, and the cache now knows it. */
    ghost predicate Answered(hash: Hash, key: Bytes, value: Option<Bytes>)
      reads cache`storage
    {
      hash in rpc.upstream && value == Lookup(rpc.upstream[hash], key) && StorageId(hash, key) in cache.storage
    }

    // ---- Calls with one reconnect and one retry ----

    method FetchValue(hash: Hash, key: Bytes) returns (r: Result<Option<Bytes>, RpcError>)
      modifies rpc
      ensures rpc.reachable && hash in rpc.upstream ==> r.Success?
      ensures r.Success? ==> hash in rpc.upstream && r.value == Lookup(rpc.upstream[hash], key)
    {
      r := rpc.Storage(key, hash);
      if r.Failure? {
        var _ :- rpc.Reconnect();
        r := rpc.Storage(key, hash);
      }
    }

    method FetchValues(hash: Hash, keys: seq<Bytes>) returns (r: Result<seq<Entry>, RpcError>)
      modifies rpc
      ensures rpc.reachable && hash in rpc.upstream ==> r.Success?
      ensures r.Success? && keys != [] ==> hash in rpc.upstream && r.value == Fetched(rpc.upstream[hash], keys)
    {
      var values := rpc.StorageBatch(keys, hash);
      if values.Failure? {
        var _ :- rpc.Reconnect();
        values := rpc.StorageBatch(keys, hash);
      }
      var v :- values;
      return Success(seq(|keys|, i requires 0 <= i < |keys| => Entry(keys[i], v[i])));
    }

    method FetchPage(hash: Hash, prefix: Bytes, count: nat, start: Option<Bytes>)
      returns (r: Result<seq<Bytes>, RpcError>)
      modifies rpc
      ensures rpc.reachable && hash in rpc.upstream ==> r.Success?
      ensures r.Success? ==> hash in rpc.upstream && r.value == Page(rpc.upstream[hash], prefix, count, start)
      ensures r.Success? && count == 0 ==> r.value == []
    {
      r := rpc.StorageKeysPaged(prefix, count, start, hash);
      if r.Failure? {
        var _ :- rpc.Reconnect();
        r := rpc.StorageKeysPaged(prefix, count, start, hash);
      }
    }

    // ---- Point and batch reads ----

    /** A key of at least 32 bytes that is not cached, and whose 32-byte prefix has no scan on record. */
    ghost predicate Prefetches(hash: Hash, key: Bytes)
      reads this, cache
    {
      && StorageId(hash, key) !in cache.storage
      && 32 <= |key|
      && ScanId(hash, key[..32]) !in cache.prefixScans
    }

    /** Cache hit, hit after a speculative prefetch of the 32-byte prefix, or a single fetch: the answer is
        the upstream value, and the key is cached afterwards. */
    method Get(hash: Hash, key: Bytes) returns (r: Result<Option<Bytes>, RemoteError>)
      requires Valid()
      modifies rpc, cache`storage, cache`prefixScans
      ensures Valid() && old(cache.storage).Keys <= cache.storage.Keys
      ensures Serves(hash) || StorageId(hash, key) in old(cache.storage) ==> r.Success?
      ensures r.Success? ==> Answered(hash, key, r.value)
      ensures !old(Prefetches(hash, key)) ==>
        && cache.prefixScans == old(cache.prefixScans)
        && cache.storage.Keys <= old(cache.storage).Keys + {StorageId(hash, key)}
      ensures old(Prefetches(hash, key)) && Serves(hash) ==>
        var page := Page(rpc.upstream[hash], key[..32], 1000, None);
        && cache.prefixScans == WithPage(old(cache.prefixScans), ScanId(hash, key[..32]), None, page, 1000)
        && forall k :: k in page ==> StorageId(hash, k) in cache.storage
    {
      var cached := cache.GetStorage(hash, key);
      if cached.Some? {
        return Success(cached.value);
      }
      if |key| >= MIN_STORAGE_KEY_PREFIX_LEN {
        var prefix := key[..MIN_STORAGE_KEY_PREFIX_LEN];
        var progress := cache.GetPrefixScanProgress(hash, prefix);
        if progress.None? {
          var scanned := PrefetchPrefixSinglePage(hash, prefix, DEFAULT_PREFETCH_PAGE_SIZE);
          if scanned.Success? {
            cached := cache.GetStorage(hash, key);
            if cached.Some? {
              return Success(cached.value);
            }
          }
        }
      }
      var fetched := FetchValue(hash, key);
      if fetched.Failure? {
        return Failure(Rpc(fetched.error));
      }
      ghost var before := cache.storage;
      var stored := cache.SetStorage(hash, key, fetched.value);
      if stored.Failure? {
        return Failure(Cache(stored.error));
      }
      ScansSoundMonotone(rpc.upstream, before, cache.storage, cache.prefixScans);
      return Success(fetched.value);
    }

    /** Fetches values and caches them in one transaction. */
    method FetchAndCache(hash: Hash, keys: seq<Bytes>) returns (r: Result<seq<Option<Bytes>>, RemoteError>)
      requires Valid() && Distinct(keys) && keys != []
      modifies rpc, cache`storage
      ensures Valid() && old(cache.storage).Keys <= cache.storage.Keys
      ensures Serves(hash) ==> r.Success?
      ensures r.Success? ==>
        && hash in rpc.upstream
        && cache.storage == UpsertAll(old(cache.storage), hash, Fetched(rpc.upstream[hash], keys))
        && |r.value| == |keys| && forall i :: 0 <= i < |keys| ==> Answered(hash, keys[i], r.value[i])
      ensures r.Failure? ==> cache.storage == old(cache.storage)
    {
      var fetched := FetchValues(hash, keys);
      if fetched.Failure? {
        return Failure(Rpc(fetched.error));
      }
      ghost var before := cache.storage;
      assert KeysOf(fetched.value) == keys;
      var stored := cache.SetStorageBatch(hash, fetched.value);
      if stored.Failure? {
        return Failure(Cache(stored.error));
      }
      UpsertFetched(rpc.upstream, before, hash, keys);
      ScansSoundMonotone(rpc.upstream, before, cache.storage, cache.prefixScans);
      return Success(seq(|keys|, i requires 0 <= i < |keys| => fetched.value[i].value));
    }

    /** Values in input order, whatever mixture of cached and fetched keys they come from. */
    method GetBatch(hash: Hash, keys: seq<Bytes>) returns (r: Result<seq<Option<Bytes>>, RemoteError>)
      requires Valid()
      modifies rpc, cache`storage
      ensures Valid() && old(cache.storage).Keys <= cache.storage.Keys
      ensures Serves(hash) && Distinct(keys) ==> r.Success?
      ensures Distinct(keys) && (forall k :: k in keys ==> StorageId(hash, k) in old(cache.storage)) ==>
        r.Success? && cache.storage == old(cache.storage)
      ensures !Distinct(keys) ==> r == Failure(Cache(DuplicatedKeys))
      ensures r.Success? ==>
        |r.value| == |keys| && forall i :: 0 <= i < |keys| ==> Answered(hash, keys[i], r.value[i])
    {
      if keys == [] {
        return Success([]);
      }
      var cachedResults := cache.GetStorageBatch(hash, keys);
      if cachedResults.Failure? {
        return Failure(Cache(cachedResults.error));
      }
      var cached := cachedResults.value;
      var indices, uncached := OpenPositions(keys, cached);
      var results := seq(|cached|, i requires 0 <= i < |cached| => if cached[i].Some? then cached[i].value else None);
      if uncached == [] {
        forall i | 0 <= i < |keys| ensures Answered(hash, keys[i], results[i]) {
          assert i !in indices && cached[i] == cache.GetStorage(hash, keys[i]);
        }
        return Success(results);
      }
      assert exists k :: k in keys && StorageId(hash, k) !in cache.storage by {
        var i := indices[0];
        assert cached[i].None? && cached[i] == cache.GetStorage(hash, keys[i]);
      }
      var fetched := FetchAndCache(hash, uncached);
      if fetched.Failure? {
        return Failure(fetched.error);
      }
      results := WriteBack(results, indices, fetched.value);
      forall i | 0 <= i < |keys| ensures Answered(hash, keys[i], results[i]) {
        if i in indices {
          var j :| 0 <= j < |indices| && indices[j] == i;
          assert uncached[j] == keys[i];
        }
      }
      return Success(results);
    }

    // ---- Prefix scans ----

    /** Fetches the values of a page and caches them in one transaction. */
    method StorePage(hash: Hash, prefix: Bytes, pageSize: nat, ghost start: Option<Bytes>, keys: seq<Bytes>)
      returns (r: Result<(), RemoteError>)
      requires Valid() && hash in rpc.upstream && keys != []
      requires keys == Page(rpc.upstream[hash], prefix, pageSize, start)
      requires Covers(rpc.upstream, cache.storage, ScanId(hash, prefix), Progress(start, false))
      modifies rpc, cache`storage
      ensures Valid() && GrownByScan(rpc.upstream, old(cache.storage), cache.storage, ScanId(hash, prefix))
      ensures Serves(hash) ==> r.Success?
      ensures r.Success? ==>
        && cache.storage == UpsertAll(old(cache.storage), hash, Fetched(rpc.upstream[hash], keys))
        && Covers(rpc.upstream, cache.storage, ScanId(hash, prefix), AfterPage(keys, pageSize))
        && forall k :: k in keys ==> StorageId(hash, k) in cache.storage
    {
      ghost var before := cache.storage;
      assert Distinct(keys) by {
        PageSplits(rpc.upstream[hash], prefix, pageSize, start);
      }
      var fetched := FetchAndCache(hash, keys);
      if fetched.Failure? {
        return Failure(fetched.error);
      }
      CachingAPage(rpc.upstream, before, ScanId(hash, prefix), start, pageSize);
      return Success(());
    }

    /** Caches a page and then, in a second write, records the progress. */
    method CachePage(hash: Hash, prefix: Bytes, pageSize: nat, ghost start: Option<Bytes>, keys: seq<Bytes>)
      returns (r: Result<(), RemoteError>)
      requires Valid() && hash in rpc.upstream && keys != []
      requires keys == Page(rpc.upstream[hash], prefix, pageSize, start)
      requires Covers(rpc.upstream, cache.storage, ScanId(hash, prefix), Progress(start, false))
      modifies rpc, cache`storage, cache`prefixScans
      ensures Valid() && GrownByScan(rpc.upstream, old(cache.storage), cache.storage, ScanId(hash, prefix))
      ensures Serves(hash) ==> r.Success?
      ensures r.Failure? ==> cache.prefixScans == old(cache.prefixScans)
      ensures r.Success? ==>
        && cache.storage == UpsertAll(old(cache.storage), hash, Fetched(rpc.upstream[hash], keys))
        && cache.prefixScans == old(cache.prefixScans)[ScanId(hash, prefix) := AfterPage(keys, pageSize)]
        && Covers(rpc.upstream, cache.storage, ScanId(hash, prefix), AfterPage(keys, pageSize))
        && forall k :: k in keys ==> StorageId(hash, k) in cache.storage
    {
      r := StorePage(hash, prefix, pageSize, start, keys);
      if r.Success? {
        var recorded := cache.UpdatePrefixScan(hash, prefix, keys[|keys| - 1], |keys| < pageSize);
        if recorded.Failure? {
          return Failure(Cache(recorded.error));
        }
      }
    }

    /** An empty page ends a scan; only a scan that found nothing at all is marked as complete. */
    method FinishScan(hash: Hash, prefix: Bytes, pageSize: nat, start: Option<Bytes>)
      returns (r: Result<Option<Bytes>, RemoteError>)
      requires Valid() && Covers(rpc.upstream, cache.storage, ScanId(hash, prefix), Progress(start, false))
      requires Page(rpc.upstream[hash], prefix, pageSize, start) == []
      modifies cache`prefixScans
      ensures pageSize > 0 ==> Valid() && FullyCached(rpc.upstream, cache.storage, ScanId(hash, prefix))
      ensures cache.healthy ==> r.Success?
      ensures r.Success? ==> r.value.None?
      ensures r.Failure? ==> cache.prefixScans == old(cache.prefixScans)
      ensures r.Success? ==>
        cache.prefixScans == if start.Some? then old(cache.prefixScans)
                             else old(cache.prefixScans)[ScanId(hash, prefix) := Progress(Some(prefix), true)]
    {
      if pageSize > 0 {
        EmptyPageCompletes(rpc.upstream, cache.storage, ScanId(hash, prefix), start, pageSize);
      }
      if start.None? {
        var marked := cache.UpdatePrefixScan(hash, prefix, prefix, true);
        if marked.Failure? {
          return Failure(Cache(marked.error));
        }
      }
      return Success(None);
    }

    /** One round of a scan: the key to go on from, or None when the scan is over. */
    method ScanOnce(hash: Hash, prefix: Bytes, pageSize: nat, start: Option<Bytes>)
      returns (r: Result<Option<Bytes>, RemoteError>, ghost fetched: seq<Bytes>)
      requires Valid()
      requires hash in rpc.upstream ==>
          Covers(rpc.upstream, cache.storage, ScanId(hash, prefix), Progress(start, false))
      modifies rpc, cache`storage, cache`prefixScans
      ensures Transparent(rpc.upstream, cache.storage)
      ensures GrownByScan(rpc.upstream, old(cache.storage), cache.storage, ScanId(hash, prefix))
      ensures pageSize > 0 || (r.Success? && r.value.Some?) ==> Valid()
      ensures Serves(hash) ==> r.Success?
      ensures r.Success? && r.value.None? && pageSize > 0 ==>
        FullyCached(rpc.upstream, cache.storage, ScanId(hash, prefix))
      ensures r.Success? && r.value.Some? ==>
        Covers(rpc.upstream, cache.storage, ScanId(hash, prefix), Progress(r.value, false))
      ensures pageSize == 0 && start.Some? ==>
        && cache.storage == old(cache.storage) && cache.prefixScans == old(cache.prefixScans)
        && (r.Success? ==> r.value.None?)
      ensures r.Failure? ==> cache.prefixScans == old(cache.prefixScans)
      ensures r.Success? ==>
        && hash in rpc.upstream && fetched == Page(rpc.upstream[hash], prefix, pageSize, start)
        && r.value == (if fetched == [] || |fetched| < pageSize then None else Some(fetched[|fetched| - 1]))
        && cache.prefixScans == WithPage(old(cache.prefixScans), ScanId(hash, prefix), start, fetched, pageSize)
    {
      fetched := [];
      var page := FetchPage(hash, prefix, pageSize, start);
      if page.Failure? {
        return Failure(Rpc(page.error)), fetched;
      }
      var keys := page.value;
      fetched := keys;
      if keys == [] {
        r := FinishScan(hash, prefix, pageSize, start);
        return;
      }
      var done := CachePage(hash, prefix, pageSize, start, keys);
      if done.Failure? {
        return Failure(done.error), fetched;
      }
      if |keys| < pageSize {
        return Success(None), fetched;
      }
      return Success(Some(keys[|keys| - 1])), fetched;
    }

    /** A finished record answers at once, and so does an unfinished one with a page size of zero.
        Resumable: caches page after page until a page is short or empty. With a positive page size the
        loop leaves everything with the prefix cached, even when the last full page exhausts upstream and
        the record stays incomplete. */
    method PrefetchPrefix(hash: Hash, prefix: Bytes, pageSize: nat) returns (r: Result<nat, RemoteError>)
      requires Valid()
      modifies rpc, cache`storage, cache`prefixScans
      ensures Transparent(rpc.upstream, cache.storage)
      ensures GrownByScan(rpc.upstream, old(cache.storage), cache.storage, ScanId(hash, prefix))
      ensures pageSize > 0 ==> Valid()
      ensures Serves(hash) || ScanFinished(old(cache.prefixScans), ScanId(hash, prefix)) ==> r.Success?
      ensures r.Success? ==> r.value == |CachedKeys(cache.storage, hash, prefix)|
      ensures r.Success? && pageSize > 0 ==> FullyCached(rpc.upstream, cache.storage, ScanId(hash, prefix))
      ensures
        var known := if ScanId(hash, prefix) in old(cache.prefixScans)
            then Some(old(cache.prefixScans)[ScanId(hash, prefix)]) else None;
        known.Some? && (known.value.isComplete || (pageSize == 0 && known.value.lastScanned.Some?)) ==>
          cache.storage == old(cache.storage) && cache.prefixScans == old(cache.prefixScans)
      ensures cache.prefixScans - {ScanId(hash, prefix)} == old(cache.prefixScans) - {ScanId(hash, prefix)}
      ensures r.Success? && pageSize > 0 && !ScanFinished(old(cache.prefixScans), ScanId(hash, prefix)) ==>
        var id := ScanId(hash, prefix);
        var start := Reached(old(cache.prefixScans), id);
        && hash in rpc.upstream
        && ScanLeaves(old(cache.prefixScans), cache.prefixScans, id, KeysAfter(rpc.upstream[hash], prefix, start),
                      start.None?, pageSize)
    {
      ghost var id, scans := ScanId(hash, prefix), cache.prefixScans;
      var progress := cache.GetPrefixScanProgress(hash, prefix);
      if progress.Some? && progress.value.isComplete {
        var count := cache.CountKeysByPrefix(hash, prefix);
        return Success(count);
      }
      var start := if progress.Some? then progress.value.lastScanned else None;
      var over := false;
      ghost var stuck, first := pageSize == 0 && start.Some?, start;
      if pageSize > 0 && hash in rpc.upstream {
        ScanStarts(rpc.upstream[hash], id, pageSize, scans, first);
      }
      while !over
        invariant Transparent(rpc.upstream, cache.storage)
        invariant GrownByScan(rpc.upstream, old(cache.storage), cache.storage, ScanId(hash, prefix))
        invariant pageSize > 0 || !over ==> Valid()
        invariant !over && hash in rpc.upstream ==>
            Covers(rpc.upstream, cache.storage, ScanId(hash, prefix), Progress(start, false))
        invariant stuck ==>
          start.Some? && cache.storage == old(cache.storage) && cache.prefixScans == old(cache.prefixScans)
        invariant cache.prefixScans - {id} == scans - {id} && (over ==> hash in rpc.upstream)
        invariant pageSize > 0 && hash in rpc.upstream ==>
          ScanStands(rpc.upstream[hash], id, pageSize, scans, first, cache.prefixScans,
              if over then None else Some(start))
        invariant over && pageSize > 0 ==> FullyCached(rpc.upstream, cache.storage, ScanId(hash, prefix))
        decreases !over, if hash in rpc.upstream then KeysAfter(rpc.upstream[hash], prefix, start) else {}
      {
        ghost var before := cache.prefixScans;
        var next;
        ghost var page;
        next, page := ScanOnce(hash, prefix, pageSize, start);
        if next.Failure? {
          return Failure(next.error);
        }
        RoundDone(rpc.upstream[hash], id, pageSize, scans, first, before, start, page, next.value);
        if next.value.None? {
          over := true;
        } else {
          start := next.value;
        }
      }
      if pageSize > 0 {
        ScanEnds(rpc.upstream[hash], id, pageSize, scans, first, cache.prefixScans);
      }
      var count := cache.CountKeysByPrefix(hash, prefix);
      return Success(count);
    }

    /** The first page only, and only when no scan of the prefix was ever recorded. */
    method PrefetchPrefixSinglePage(hash: Hash, prefix: Bytes, pageSize: nat) returns (r: Result<nat, RemoteError>)
      requires Valid()
      modifies rpc, cache`storage, cache`prefixScans
      ensures Transparent(rpc.upstream, cache.storage)
      ensures GrownByScan(rpc.upstream, old(cache.storage), cache.storage, ScanId(hash, prefix))
      ensures pageSize > 0 ==> Valid()
      ensures Serves(hash) ==> r.Success?
      ensures ScanId(hash, prefix) in old(cache.prefixScans) ==>
        && cache.storage == old(cache.storage) && cache.prefixScans == old(cache.prefixScans)
        && r == Success(if cache.prefixScans[ScanId(hash, prefix)].isComplete
                        then |CachedKeys(cache.storage, hash, prefix)| else 0)
      ensures r.Success? && ScanId(hash, prefix) !in old(cache.prefixScans) ==>
        && hash in rpc.upstream
        && var page := Page(rpc.upstream[hash], prefix, pageSize, None);
        && r.value == |page|
        && cache.storage == UpsertAll(old(cache.storage), hash, Fetched(rpc.upstream[hash], page))
        && (forall k :: k in page ==> StorageId(hash, k) in cache.storage)
        && cache.prefixScans == old(cache.prefixScans)[ScanId(hash, prefix) :=
             if page == [] then Progress(Some(prefix), true) else AfterPage(page, pageSize)]
    {
      ghost var id := ScanId(hash, prefix);
      var progress := cache.GetPrefixScanProgress(hash, prefix);
      if progress.Some? {
        if progress.value.isComplete {
          var count := cache.CountKeysByPrefix(hash, prefix);
          return Success(count);
        }
        return Success(0);
      }
      var page := FetchPage(hash, prefix, pageSize, None);
      if page.Failure? {
        return Failure(Rpc(page.error));
      }
      var keys := page.value;
      if keys == [] {
        if pageSize > 0 {
          EmptyPageCompletes(rpc.upstream, cache.storage, id, None, pageSize);
        }
        var marked := cache.UpdatePrefixScan(hash, prefix, prefix, true);
        if marked.Failure? {
          return Failure(Cache(marked.error));
        }
        return Success(0);
      }
      PageSplits(rpc.upstream[hash], prefix, pageSize, None);
      var done := CachePage(hash, prefix, pageSize, None, keys);
      if done.Failure? {
        return Failure(done.error);
      }
      return Success(|keys|);
    }

    /** Upstream keys with the prefix, together with the keys cached as empty under it. */
    method GetKeys(hash: Hash, prefix: Bytes) returns (r: Result<seq<Bytes>, RemoteError>)
      requires Valid()
      modifies rpc, cache`storage, cache`prefixScans
      ensures Valid() && old(cache.storage).Keys <= cache.storage.Keys
      ensures CachedEmpty(cache.storage, hash, prefix) == CachedEmpty(old(cache.storage), hash, prefix)
      ensures Serves(hash) ==> r.Success?
      ensures r.Success? ==>
        && hash in rpc.upstream && Distinct(r.value)
        && forall k :: k in r.value <==>
             k in KeysAfter(rpc.upstream[hash], prefix, None) + CachedEmpty(old(cache.storage), hash, prefix)
      ensures r.Success? ==> FullyCached(rpc.upstream, cache.storage, ScanId(hash, prefix))
    {
      var scanned := PrefetchPrefix(hash, prefix, DEFAULT_PREFETCH_PAGE_SIZE);
      EmptiesUnchanged(rpc.upstream, old(cache.storage), cache.storage, ScanId(hash, prefix));
      if scanned.Failure? {
        return Failure(scanned.error);
      }
      var keys := cache.GetKeysByPrefix(hash, prefix);
      return Success(keys);
    }

    /** The least upstream key after `key` with the prefix, from the cache under a complete scan of the
        prefix or of its first 32 or 16 bytes, and from the node otherwise. */
    method NextKey(hash: Hash, prefix: Bytes, key: Bytes) returns (r: Result<Option<Bytes>, RemoteError>)
      requires Valid()
      modifies rpc
      ensures Serves(hash) ==> r.Success?
      ensures r.Success? ==> hash in rpc.upstream && r.value == Upstream.NextKey(rpc.upstream[hash], prefix, key)
      ensures ScanFinished(cache.prefixScans, ScanId(hash, prefix)) ==> r.Success?
      ensures |prefix| >= 32 && ScanFinished(cache.prefixScans, ScanId(hash, prefix[..32])) ==> r.Success?
      ensures |prefix| >= 16 && ScanFinished(cache.prefixScans, ScanId(hash, prefix[..16])) ==> r.Success?
    {
      var lengths := [|prefix|, 32, 16];
      assert prefix[..|prefix|] == prefix;
      for i := 0 to |lengths|
        invariant forall j :: 0 <= j < i && lengths[j] <= |prefix| ==>
          !ScanFinished(cache.prefixScans, ScanId(hash, prefix[..lengths[j]]))
      {
        if lengths[i] <= |prefix| {
          var candidate := prefix[..lengths[i]];
          var progress := cache.GetPrefixScanProgress(hash, candidate);
          if progress.Some? && progress.value.isComplete {
            CompleteScanAnswers(rpc.upstream, cache.storage, ScanId(hash, candidate), prefix, key);
            var next := cache.NextKeyFromCache(hash, prefix, key);
            return Success(next);
          }
        }
      }
      assert lengths[0] == |prefix| && lengths[1] == 32 && lengths[2] == 16;
      var page := FetchPage(hash, prefix, 1, Some(key));
      if page.Failure? {
        return Failure(Rpc(page.error));
      }
      PageOfOne(rpc.upstream[hash], prefix, key);
      return Success(if page.value == [] then None else Some(page.value[0]));
    }

    method FetchAndCacheBlockByNumber(number: nat) returns (r: Result<Option<Hash>, RemoteError>)
      requires Valid()
      modifies rpc, cache`blocks
      ensures Valid()
      ensures r.Success? ==> r.value == if number in rpc.canonical then Some(rpc.canonical[number]) else None
      ensures cache.blocks == if r.Success? && r.value.Some? then old(cache.blocks)[number := r.value.value]
                              else old(cache.blocks)
      ensures old(rpc.connected) && cache.healthy ==> r.Success?
    {
      var found := rpc.BlockHashAt(number);
      if found.Failure? {
        return Failure(Rpc(found.error));
      }
      if found.value.None? {
        return Success(None);
      }
      var stored := cache.CacheBlock(found.value.value, number);
      if stored.Failure? {
        return Failure(Cache(stored.error));
      }
      return Success(found.value);
    }
  }

  /** A scan caches only keys that upstream has, so it leaves the set of empty rows as it was. */
  lemma EmptiesUnchanged(chain: Chain, before: StorageTable, after: StorageTable, id: ScanId)
    requires Transparent(chain, before) && Transparent(chain, after) && GrownByScan(chain, before, after, id)
    ensures CachedEmpty(after, id.hash, id.prefix) == CachedEmpty(before, id.hash, id.prefix)
  {
    forall k | k in CachedEmpty(after, id.hash, id.prefix) ensures k in CachedEmpty(before, id.hash, id.prefix) {
      var row := StorageId(id.hash, k);
      assert row in after && row.key !in chain[id.hash];
    }
  }
}
