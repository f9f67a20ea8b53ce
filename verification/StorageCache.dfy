/** The SQLite cache: `storage` and `prefix_scans` mirror upstream, `local_keys` and `local_values` hold the
    history of the fork, `blocks` the canonical hashes that were looked up. */
module StorageCache {
  import opened Wrappers
  import opened ByteStrings
  import opened PrefixRange
  import opened Upstream
  import opened IntervalTable
  import opened ScanRecords

  datatype CacheError = Database | DuplicatedKeys

  method HasDuplicates(keys: seq<Bytes>) returns (dup: bool)
    ensures dup <==> !Distinct(keys)
  {
    var seen: set<Bytes> := {};
    for i := 0 to |keys|
      invariant seen == set j | 0 <= j < i :: keys[j]
      invariant forall j, k :: 0 <= j < k < i ==> keys[j] != keys[k]
    {
      if keys[i] in seen {
        return true;
      }
      seen := seen + {keys[i]};
    }
    return false;
  }

  function KeysOf(entries: seq<Entry>): (keys: seq<Bytes>)
    ensures |keys| == |entries|
  {
    seq(|entries|, i requires 0 <= i < |entries| => entries[i].key)
  }

  /** The value at the id of each key, moved out of the map as it is handed over. */
  method TakeRows(keys: seq<Bytes>, keyToId: map<Bytes, nat>, idToValue: map<nat, Option<Bytes>>)
    returns (results: seq<Option<Option<Bytes>>>)
    requires Distinct(keys)
    requires forall k, l :: k in keyToId && l in keyToId && keyToId[k] == keyToId[l] ==> k == l
    ensures |results| == |keys|
    ensures forall i :: 0 <= i < |keys| ==>
      results[i] == if keys[i] in keyToId && keyToId[keys[i]] in idToValue
                    then Some(idToValue[keyToId[keys[i]]]) else None
  {
    results := [];
    var left := idToValue;
    for i := 0 to |keys|
      invariant |results| == i
      invariant forall j :: 0 <= j < i ==>
        results[j] == if keys[j] in keyToId && keyToId[keys[j]] in idToValue
                      then Some(idToValue[keyToId[keys[j]]]) else None
      invariant forall id :: id in left ==> id in idToValue && left[id] == idToValue[id]
      invariant forall j :: i <= j < |keys| && keys[j] in keyToId && keyToId[keys[j]] in idToValue ==>
        keyToId[keys[j]] in left
    {
      if keys[i] in keyToId && keyToId[keys[i]] in left {
        var id := keyToId[keys[i]];
        results := results + [Some(left[id])];
        left := left - {id};
      } else {
        results := results + [None];
      }
    }
  }

  class StorageCache {
    /** False when the database may refuse writes. */
    const healthy: bool
    var storage: StorageTable
    var prefixScans: ScanTable
    var blocks: map<nat, Hash>
    var localKeys: map<Bytes, nat>
    var localValues: seq<ValueRow>
    var nextKeyId: nat

    constructor (healthy: bool)
      ensures this.healthy == healthy
      ensures storage == map[] && prefixScans == map[] && blocks == map[] && Local() == EMPTY_TABLES
    {
      this.healthy := healthy;
      storage, prefixScans, blocks := map[], map[], map[];
      localKeys, localValues, nextKeyId := map[], [], 1;
    }

    function Local(): Tables
      reads this`localKeys, this`localValues, this`nextKeyId
    {
      Tables(localKeys, localValues, nextKeyId)
    }

    /** The outer None means "not cached", Some(None) "cached as having no value". */
    function GetStorage(hash: Hash, key: Bytes): Option<Option<Bytes>>
      reads this`storage
    {
      var id := StorageId(hash, key);
      if id !in storage then None
      else if storage[id].isEmpty then Some(None)
      else Some(storage[id].value)
    }

    method SetStorage(hash: Hash, key: Bytes, value: Option<Bytes>) returns (r: Result<(), CacheError>)
      modifies this`storage
      ensures healthy ==> r.Success?
      ensures storage == if r.Success? then Upsert(old(storage), hash, Entry(key, value)) else old(storage)
    {
      var fails: bool := *;
      if fails && !healthy {
        return Failure(Database);
      }
      storage := storage[StorageId(hash, key) := StorageRow(value, value.None?)];
      return Success(());
    }

    method GetStorageBatch(hash: Hash, keys: seq<Bytes>) returns (r: Result<seq<Option<Option<Bytes>>>, CacheError>)
      ensures r.Success? <==> Distinct(keys)
      ensures r.Failure? ==> r.error == DuplicatedKeys
      ensures r.Success? ==>
        |r.value| == |keys| && forall i :: 0 <= i < |keys| ==> r.value[i] == GetStorage(hash, keys[i])
    {
      var dup := HasDuplicates(keys);
      if dup {
        return Failure(DuplicatedKeys);
      }
      var cached := map k | k in keys && StorageId(hash, k) in storage :: GetStorage(hash, k).value;
      var results := [];
      for i := 0 to |keys|
        invariant |results| == i
        invariant forall j :: 0 <= j < i ==> results[j] == GetStorage(hash, keys[j])
        invariant forall j :: i <= j < |keys| ==>
          (keys[j] in cached <==> StorageId(hash, keys[j]) in storage)
          && (keys[j] in cached ==> Some(cached[keys[j]]) == GetStorage(hash, keys[j]))
      {
        results := results + [if keys[i] in cached then Some(cached[keys[i]]) else None];
        cached := cached - {keys[i]};
      }
      return Success(results);
    }

    method SetStorageBatch(hash: Hash, entries: seq<Entry>) returns (r: Result<(), CacheError>)
      modifies this`storage
      ensures healthy && Distinct(KeysOf(entries)) ==> r.Success?
      ensures !Distinct(KeysOf(entries)) ==> r == Failure(DuplicatedKeys)
      ensures storage == if r.Success? then UpsertAll(old(storage), hash, entries) else old(storage)
    {
      if entries == [] {
        return Success(());
      }
      var dup := HasDuplicates(KeysOf(entries));
      if dup {
        return Failure(DuplicatedKeys);
      }
      var rows := storage;
      for i := 0 to |entries|
        invariant rows == UpsertAll(storage, hash, entries[..i])
      {
        assert entries[..i + 1][..i] == entries[..i];
        rows := rows[StorageId(hash, entries[i].key) := StorageRow(entries[i].value, entries[i].value.None?)];
      }
      assert entries[..|entries|] == entries;
      var fails: bool := *;
      if fails && !healthy {
        return Failure(Database);
      }
      storage := rows;
      return Success(());
    }

    // ---- Local history ----

    function GetLocalValueAtBlock(key: Bytes, block: nat): Option<Option<Bytes>>
      reads this`localKeys, this`localValues, this`nextKeyId
    {
      Read(Local(), key, block)
    }

    method LatestRows(ids: set<nat>, block: nat) returns (idToValue: map<nat, Option<Bytes>>)
      requires Disjoint(localValues)
      ensures forall id :: id in ids ==>
        FirstHit(localValues, id, block) == if id in idToValue then Some(idToValue[id]) else None
    {
      idToValue := map[];
      for i := 0 to |localValues|
        invariant forall id :: id in ids ==>
          FirstHit(localValues[..i], id, block) == if id in idToValue then Some(idToValue[id]) else None
      {
        var row := localValues[i];
        forall id | id in ids {
          FirstHitExtend(localValues, i, id, block);
        }
        if row.keyId in ids && row.Hit(row.keyId, block) {
          idToValue := idToValue[row.keyId := row.value];
        }
      }
      assert localValues[..|localValues|] == localValues;
    }

    /** The batch query keeps the last matching row of each key; `Disjoint` makes that the row a single
        lookup finds. */
    method GetLocalValuesAtBlockBatch(keys: seq<Bytes>, block: nat)
      returns (r: Result<seq<Option<Option<Bytes>>>, CacheError>)
      requires IdsSound(Local()) && Disjoint(localValues)
      ensures r.Success? <==> Distinct(keys)
      ensures r.Failure? ==> r.error == DuplicatedKeys
      ensures r.Success? ==>
        |r.value| == |keys| && forall i :: 0 <= i < |keys| ==> r.value[i] == GetLocalValueAtBlock(keys[i], block)
    {
      var dup := HasDuplicates(keys);
      if dup {
        return Failure(DuplicatedKeys);
      }
      var keyToId := map k | k in keys && k in localKeys :: localKeys[k];
      var ids := set k | k in keyToId :: keyToId[k];
      var idToValue := LatestRows(ids, block);
      var results := TakeRows(keys, keyToId, idToValue);
      forall i | 0 <= i < |keys| ensures results[i] == GetLocalValueAtBlock(keys[i], block) {
        if keys[i] in localKeys {
          assert keyToId[keys[i]] in ids;
        }
      }
      return Success(results);
    }

    method GetLocalKeysAtBlock(prefix: Bytes, block: nat) returns (keys: seq<Bytes>)
      requires Disjoint(localValues)
      ensures keys == Sorted(LiveKeys(Local(), prefix, block))
    {
      var bound := PrefixUpperBound(prefix);
      var found := set k | k in localKeys && InRange(k, prefix, bound)
        && exists i :: 0 <= i < |localValues| && localValues[i].Hit(localKeys[k], block) && localValues[i].value.Some?;
      forall k | k in localKeys ensures k in found <==> k in LiveKeys(Local(), prefix, block) {
        RowOf(k, block);
      }
      assert found == LiveKeys(Local(), prefix, block);
      return Sorted(found);
    }

    method GetLocalDeletedKeysAtBlock(prefix: Bytes, block: nat) returns (keys: seq<Bytes>)
      requires Disjoint(localValues)
      ensures keys == Sorted(DeletedKeys(Local(), prefix, block))
    {
      var bound := PrefixUpperBound(prefix);
      var found := set k | k in localKeys && InRange(k, prefix, bound)
        && exists i :: 0 <= i < |localValues| && localValues[i].Hit(localKeys[k], block) && localValues[i].value.None?;
      forall k | k in localKeys ensures k in found <==> k in DeletedKeys(Local(), prefix, block) {
        RowOf(k, block);
      }
      assert found == DeletedKeys(Local(), prefix, block);
      return Sorted(found);
    }

    lemma RowOf(key: Bytes, block: nat)
      requires Disjoint(localValues) && key in localKeys
      ensures forall i :: 0 <= i < |localValues| && localValues[i].Hit(localKeys[key], block) ==>
        Read(Local(), key, block) == Some(localValues[i].value)
    {
      forall i | 0 <= i < |localValues| && localValues[i].Hit(localKeys[key], block)
        ensures Read(Local(), key, block) == Some(localValues[i].value)
      {
        HitUnique(localValues, localKeys[key], block, i);
      }
    }

    /** One transaction: either every entry is applied in order or none is. */
    method CommitLocalChanges(entries: seq<Entry>, block: nat) returns (r: Result<(), CacheError>)
      modifies this`localKeys, this`localValues, this`nextKeyId
      ensures healthy ==> r.Success?
      ensures Local() == if r.Success? then CommitAll(old(Local()), entries, block) else old(Local())
    {
      if entries == [] {
        return Success(());
      }
      var keys, values, next := localKeys, localValues, nextKeyId;
      for i := 0 to |entries|
        invariant Tables(keys, values, next) == CommitAll(old(Local()), entries[..i], block)
      {
        assert entries[..i + 1][..i] == entries[..i];
        if entries[i].key !in keys {
          keys, next := keys[entries[i].key := next], next + 1;
        }
        var id := keys[entries[i].key];
        assert keys[entries[i].key := id] == keys;
        values := CloseOpen(values, id, block);
        values := values + [ValueRow(id, entries[i].value, block, None)];
      }
      assert entries[..|entries|] == entries;
      var fails: bool := *;
      if fails && !healthy {
        return Failure(Database);
      }
      localKeys, localValues, nextKeyId := keys, values, next;
      return Success(());
    }

    // ---- Mirror of upstream ----

    function GetPrefixScanProgress(hash: Hash, prefix: Bytes): Option<Progress>
      reads this`prefixScans
    {
      if ScanId(hash, prefix) in prefixScans then Some(prefixScans[ScanId(hash, prefix)]) else None
    }

    method UpdatePrefixScan(hash: Hash, prefix: Bytes, lastKey: Bytes, isComplete: bool)
      returns (r: Result<(), CacheError>)
      modifies this`prefixScans
      ensures healthy ==> r.Success?
      ensures prefixScans == if r.Success?
          then old(prefixScans)[ScanId(hash, prefix) := Progress(Some(lastKey), isComplete)]
                             else old(prefixScans)
    {
      var fails: bool := *;
      if fails && !healthy {
        return Failure(Database);
      }
      prefixScans := prefixScans[ScanId(hash, prefix) := Progress(Some(lastKey), isComplete)];
      return Success(());
    }

    /** Every cached key of the range, those cached as empty included; the query has no `ORDER BY`. */
    method GetKeysByPrefix(hash: Hash, prefix: Bytes) returns (keys: seq<Bytes>)
      ensures Distinct(keys)
      ensures forall k :: k in keys <==> k in CachedKeys(storage, hash, prefix)
    {
      var bound := IncrementPrefix(prefix);
      keys := InSomeOrder(set id | id in storage && id.hash == hash && InRange(id.key, prefix, bound) :: id.key);
    }

    method CountKeysByPrefix(hash: Hash, prefix: Bytes) returns (count: nat)
      ensures count == |CachedKeys(storage, hash, prefix)|
    {
      var bound := IncrementPrefix(prefix);
      var found := set id | id in storage && id.hash == hash && InRange(id.key, prefix, bound) :: id.key;
      assert found == CachedKeys(storage, hash, prefix);
      return |found|;
    }

    /** The least cached key after `key` with the prefix, skipping keys cached as empty. */
    method NextKeyFromCache(hash: Hash, prefix: Bytes, key: Bytes) returns (next: Option<Bytes>)
      ensures var after := CachedAfter(storage, hash, prefix, key);
              next == if after == {} then None else Some(Least(after))
    {
      var bound := IncrementPrefix(prefix);
      var found := set id | id in storage && id.hash == hash && Lt(key, id.key)
        && InRange(id.key, prefix, bound) && !storage[id].isEmpty :: id.key;
      assert found == CachedAfter(storage, hash, prefix, key);
      return if found == {} then None else Some(Least(found));
    }

    method ClearBlock(hash: Hash) returns (r: Result<(), CacheError>)
      modifies this`storage, this`prefixScans, this`blocks
      ensures healthy ==> r.Success?
      ensures r.Success? ==>
        && storage == (map id | id in old(storage) && id.hash != hash :: old(storage)[id])
        && prefixScans == (map id | id in old(prefixScans) && id.hash != hash :: old(prefixScans)[id])
        && blocks == (map n | n in old(blocks) && old(blocks)[n] != hash :: old(blocks)[n])
      ensures r.Failure? ==> storage == old(storage) && prefixScans == old(prefixScans) && blocks == old(blocks)
    {
      var fails: bool := *;
      if fails && !healthy {
        return Failure(Database);
      }
      storage := map id | id in storage && id.hash != hash :: storage[id];
      blocks := map n | n in blocks && blocks[n] != hash :: blocks[n];
      prefixScans := map id | id in prefixScans && id.hash != hash :: prefixScans[id];
      return Success(());
    }

    function GetBlockByNumber(number: nat): Option<Hash>
      reads this`blocks
    {
      if number in blocks then Some(blocks[number]) else None
    }

    method CacheBlock(hash: Hash, number: nat) returns (r: Result<(), CacheError>)
      modifies this`blocks
      ensures healthy ==> r.Success?
      ensures blocks == if r.Success? then old(blocks)[number := hash] else old(blocks)
    {
      var fails: bool := *;
      if fails && !healthy {
        return Failure(Database);
      }
      blocks := blocks[number := hash];
      return Success(());
    }
  }
}
