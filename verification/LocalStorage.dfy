/** The local layer: the latest write per key in memory, over the interval table, over the fork point. */
module LocalStorage {
  import opened Wrappers
  import opened ByteStrings
  import opened Upstream
  import opened IntervalTable
  import opened ScanRecords
  import opened StorageCache
  import opened RemoteStorage
  import opened Versioning
  import opened Enumeration
  import opened MetadataHistory
  import opened Scatter

  datatype LocalError = Remote(remote: RemoteError) | Arithmetic | MetadataNotFound

  function Flat(v: Option<SharedValue>): Option<Bytes> {
    if v.Some? then v.value.value else None
  }

  /** A value that came from the cache or from upstream; its block number is never looked at. */
  function Unversioned(value: Option<Bytes>): Option<SharedValue> {
    if value.Some? then Some(SharedValue(0, value)) else None
  }

  const CODE: Bytes := [58, 99, 111, 100, 101]   // ":code"

  lemma CodeSpelled()
    ensures |CODE| == |":code"| && forall i :: 0 <= i < |CODE| ==> CODE[i] as int == ":code"[i] as int
  {
  }

  /** The check for a runtime upgrade looks at the latest write only: a change of `:code` at `block` is seen
      until the next write of the key. An injected code counts as written just below the fork point. */
  ghost predicate CodeSeenAt(fork: nat, log: seq<Event>, block: nat) {
    match LastTouch(log, CODE)
    case Some(Wrote(b, _, _)) => b == block
    case Some(Injected(_, _)) => InitialVisibility(fork) == block
    case _ => false
  }

  /** The shared state as a value: what was written, the working state and the metadata history. */
  datatype Ledger = Ledger(log: seq<Event>, working: State, versions: Versions)

  /** What every clone of the layer shares. `log` records what was written, in order, and `working`
      is the state at the working block. */
  class SharedState {
    var modifications: map<Bytes, SharedValue>
    var deletedPrefixes: seq<Bytes>
    var metadataVersions: Versions
    ghost var log: seq<Event>
    ghost var working: State

    ghost function Snapshot(): Ledger
      reads this`log, this`working, this`metadataVersions
    {
      Ledger(log, working, metadataVersions)
    }

    function CodeWrittenAt(block: nat): bool
      reads this`modifications
    {
      CODE in modifications && modifications[CODE].lastModificationBlock == block
    }

    constructor (fork: nat, metadata: Metadata, ghost base: State)
      ensures modifications == map[] && deletedPrefixes == [] && log == [] && working == base
      ensures metadataVersions == map[fork := metadata]
    {
      modifications, deletedPrefixes, log, working := map[], [], [], base;
      metadataVersions := map[fork := metadata];
    }
  }

  class LocalStorageLayer {
    const parent: RemoteStorageLayer
    const forkHash: Hash
    const forkNumber: nat
    const shared: SharedState
    var currentBlockNumber: nat

    constructor (parent: RemoteStorageLayer, forkNumber: nat, forkHash: Hash, metadata: Metadata)
      requires parent.Valid() && parent.cache.Local() == EMPTY_TABLES
      ensures Valid() && fresh(shared) && this.parent == parent
      ensures this.forkNumber == forkNumber && this.forkHash == forkHash && currentBlockNumber == forkNumber + 1
      ensures shared.log == [] && shared.working == Base() && View() == Initial(forkNumber, Base())
      ensures shared.metadataVersions == map[forkNumber := metadata]
    {
      this.parent, this.forkNumber, this.forkHash := parent, forkNumber, forkHash;
      currentBlockNumber := forkNumber + 1;
      shared := new SharedState(forkNumber, metadata,
        if forkHash in parent.rpc.upstream then parent.rpc.upstream[forkHash] else map[]);
      new;
      InitialWorkingState(forkNumber, Base());
      InitialInv(forkNumber, Base());
    }

    /** A clone shares the modifications, the deleted prefixes and the metadata but has its own block number. */
    constructor Clone(of: LocalStorageLayer)
      ensures parent == of.parent && forkHash == of.forkHash && forkNumber == of.forkNumber && shared == of.shared
      ensures currentBlockNumber == of.currentBlockNumber
    {
      parent, forkHash, forkNumber, shared := of.parent, of.forkHash, of.forkNumber, of.shared;
      currentBlockNumber := of.currentBlockNumber;
    }

    /** The upstream state at the fork point. */
    function Base(): State {
      if forkHash in parent.rpc.upstream then parent.rpc.upstream[forkHash] else map[]
    }

    function View(): View
      reads this, shared, parent.cache`localKeys, parent.cache`localValues, parent.cache`nextKeyId
    {
      Versioning.View(forkNumber, currentBlockNumber, Base(), shared.modifications, shared.deletedPrefixes,
          parent.cache.Local())
    }

    /** Nothing has been written at the working block yet. */
    ghost predicate NothingPending()
      reads this, shared`log
    {
      DiffAt(shared.log, currentBlockNumber) == []
    }

    ghost predicate Consistent()
      reads this, shared, parent.cache
    {
      && parent.Valid()
      && Inv(View(), shared.log)
      && shared.working == WorkingState(View())
      && ValidVersions(shared.metadataVersions, forkNumber, currentBlockNumber)
    }

    /** Consistent, but behind a quantifier, so that a caller carries the invariant along without the
        solver looking inside. `Open` looks inside. */
    ghost predicate Valid()
      reads this, shared, parent.cache
    {
      forall door: nat :: Knock(door) ==> Consistent()
    }

    lemma Open()
      requires Valid()
      ensures Consistent()
    {
      assert Knock(0);
    }

    predicate Serves() {
      parent.Serves(forkHash)
    }

    lemma AfterForkPoint()
      requires Valid()
      ensures forkNumber < currentBlockNumber
    {
      Open();
    }

    lemma NothingAhead()
      requires Valid()
      ensures DiffAt(shared.log, currentBlockNumber + 1) == []
    {
      Open();
      NoDiff(shared.log, currentBlockNumber + 1);
    }

    /** What a read of the key at a fork-local block has to answer: for a key that was only ever written, the
        fork-point state with the diffs of all blocks up to it; `SeededRead` when it was injected first. */
    ghost predicate Meets(key: Bytes, block: nat, answer: Option<Bytes>)
      reads this, shared, parent.cache
    {
      && (ForkLocal(View(), block) ==> answer == Versioning.Get(View(), key, block))
      && (ForkLocal(View(), block) && Seeded(shared.log, key) ==> answer == SeededRead(shared.log, Base(), key, block))
      && (ForkLocal(View(), block) && Clean(shared.log, key) ==>
            answer == Lookup(StateAt(forkNumber, Base(), shared.log, block), key))
    }

    lemma GetMeets(key: Bytes, block: nat)
      requires Valid()
      ensures Meets(key, block, Versioning.Get(View(), key, block))
    {
      Open();
      if ForkLocal(View(), block) && Seeded(shared.log, key) {
        ReadsSeeded(View(), shared.log, key, block);
      }
      if ForkLocal(View(), block) && Clean(shared.log, key) {
        ReadsLastWrite(View(), shared.log, key, block);
        StateIsLastWrite(View(), shared.log, key, block);
      }
    }

    // ---- Writes ----

    method Set(key: Bytes, value: Option<Bytes>)
      requires Valid()
      modifies shared`modifications, shared`log, shared`working
      ensures Valid() && View() == Step(old(View()), Put(key, value))
      ensures shared.log == old(shared.log) + WroteAll(currentBlockNumber, [Entry(key, value)])
      ensures shared.working == Overlay(old(shared.working), [Entry(key, value)])
    {
      Open();
      PutWorkingState(View(), key, value);
      OverlayOne(shared.working, [], Entry(key, value));
      assert [] + [Entry(key, value)] == [Entry(key, value)];
      assert WroteAll(currentBlockNumber, [Entry(key, value)]) == [Wrote(currentBlockNumber, key, value)];
      EventKeepsInv(View(), shared.log, Put(key, value));
      shared.modifications := shared.modifications[key := SharedValue(currentBlockNumber, value)];
      shared.log := shared.log + WroteAll(currentBlockNumber, [Entry(key, value)]);
      shared.working := Overlay(shared.working, [Entry(key, value)]);
    }

    method SetBatch(entries: seq<Entry>)
      requires Valid()
      modifies shared`modifications, shared`log, shared`working
      ensures Valid() && View() == Run(old(View()), Puts(entries))
      ensures shared.log == old(shared.log) + WroteAll(currentBlockNumber, entries)
      ensures shared.working == Overlay(old(shared.working), entries)
    {
      Open();
      ghost var before := View();
      PutsKeepInv(before, shared.log, entries);
      PutsWorkingState(before, entries);
      for i := 0 to |entries|
        invariant View() == Run(before, Puts(entries[..i]))
        invariant shared.log == old(shared.log) && shared.working == old(shared.working)
      {
        assert Puts(entries[..i + 1])[..i] == Puts(entries[..i]);
        shared.modifications :=
            shared.modifications[entries[i].key := SharedValue(currentBlockNumber, entries[i].value)];
      }
      assert entries[..|entries|] == entries;
      shared.log := shared.log + WroteAll(currentBlockNumber, entries);
      shared.working := Overlay(shared.working, entries);
    }

    method SetInitial(key: Bytes, value: Option<Bytes>)
      requires Valid()
      modifies shared`modifications, shared`log, shared`working
      ensures Valid() && View() == Step(old(View()), Inject(key, value))
      ensures shared.log == old(shared.log) + [Injected(key, value)]
    {
      Open();
      EventKeepsInv(View(), shared.log, Inject(key, value));
      var visibility := if forkNumber == 0 then 0 else forkNumber - 1;
      shared.modifications := shared.modifications[key := SharedValue(visibility, value)];
      shared.log := shared.log + [Injected(key, value)];
      shared.working := WorkingState(View());
    }

    method SetBatchInitial(entries: seq<Entry>)
      requires Valid()
      modifies shared`modifications, shared`log, shared`working
      ensures Valid()
      ensures View() == Run(old(View()), Injects(entries))
    {
      Open();
      for i := 0 to |entries|
        invariant Valid() && View() == Run(old(View()), Injects(entries[..i]))
      {
        assert Injects(entries[..i + 1])[..i] == Injects(entries[..i]);
        SetInitial(entries[i].key, entries[i].value);
      }
      assert entries[..|entries|] == entries;
    }

    method DeletePrefix(prefix: Bytes)
      requires Valid()
      modifies shared`modifications, shared`deletedPrefixes, shared`log, shared`working
      ensures Valid() && View() == Step(old(View()), Op.DeletePrefix(prefix))
      ensures shared.log == old(shared.log) + [Erased(prefix)]
    {
      Open();
      EventKeepsInv(View(), shared.log, Op.DeletePrefix(prefix));
      shared.modifications := map k | k in shared.modifications && !StartsWith(k, prefix) :: shared.modifications[k];
      shared.deletedPrefixes := shared.deletedPrefixes + [prefix];
      shared.log := shared.log + [Erased(prefix)];
      shared.working := WorkingState(View());
    }

    /** The modifications made at the working block, in the order the map happens to yield them. */
    method EntriesToCommit() returns (entries: seq<Entry>, ghost order: seq<Bytes>)
      ensures Distinct(order) && forall k :: k in order <==> k in PendingKeys(View())
      ensures entries == Entries(View(), order)
    {
      var keys := InSomeOrder(shared.modifications.Keys);
      entries, order := [], [];
      for i := 0 to |keys|
        invariant Distinct(order) && entries == Entries(View(), order)
        invariant forall k :: k in order <==>
          k in keys[..i] && k in shared.modifications
              && shared.modifications[k].lastModificationBlock == currentBlockNumber
      {
        assert keys[..i + 1] == keys[..i] + [keys[i]];
        var value := shared.modifications[keys[i]];
        if value.lastModificationBlock == currentBlockNumber {
          entries := entries + [Entry(keys[i], value.value)];
          assert forall j :: 0 <= j < |order| ==> order[j] in keys[..i];
          order := order + [keys[i]];
        }
      }
      assert keys[..|keys|] == keys;
    }

    /** One transaction for everything written at the working block. */
    method StorePending() returns (r: Result<(), CacheError>, ghost order: seq<Bytes>)
      modifies parent.cache`localKeys, parent.cache`localValues, parent.cache`nextKeyId
      ensures parent.cache.healthy ==> r.Success?
      ensures currentBlockNumber < U32_MAX ==> Enabled(old(View()), Op.Commit(order))
      ensures parent.cache.Local()
          == if r.Success? then CommitAll(old(parent.cache.Local()), Entries(old(View()), order), currentBlockNumber)
                                      else old(parent.cache.Local())
    {
      var entries;
      entries, order := EntriesToCommit();
      r := parent.cache.CommitLocalChanges(entries, currentBlockNumber);
    }

    /** Commits what was written at the working block, in whatever order the map yields it, and moves on.
        A refused transaction changes nothing. */
    method Commit() returns (r: Result<(), LocalError>)
      requires Valid()
      modifies this`currentBlockNumber
      modifies parent.cache`localKeys, parent.cache`localValues, parent.cache`nextKeyId
      ensures Valid()
      ensures currentBlockNumber == old(currentBlockNumber) + if r.Success? then 1 else 0
      ensures r.Success? ==> exists order ::
        Enabled(old(View()), Op.Commit(order)) && View() == Step(old(View()), Op.Commit(order))
      ensures r.Failure? ==> View() == old(View())
      ensures parent.cache.healthy && old(currentBlockNumber) < U32_MAX ==> r.Success?
      ensures r.Success? ==> old(currentBlockNumber) < U32_MAX
      ensures r.Success? ==> NothingPending()
    {
      Open();
      if currentBlockNumber >= U32_MAX {
        return Failure(Arithmetic);
      }
      ghost var v := View();
      assert DiffAt(shared.log, currentBlockNumber + 1) == [] by {
        NothingAhead();
      }
      var stored, order := StorePending();
      if stored.Failure? {
        return Failure(Remote(Cache(stored.error)));
      }
      ghost var u := Step(v, Op.Commit(order));
      assert Inv(u, shared.log) by {
        CommitKeepsInv(v, shared.log, order);
      }
      assert WorkingState(u) == shared.working by {
        CommitWorkingState(v, order);
      }
      currentBlockNumber := currentBlockNumber + 1;
      assert View() == u;
      return Success(());
    }

    // ---- Point reads ----

    function GetLocalModification(key: Bytes, block: nat): (r: Option<Option<SharedValue>>)
      reads this, shared, parent.cache
      ensures LocalModification(View(), key, block) == if r.Some? then Some(Flat(r.value)) else None
    {
      if key in shared.modifications then
        var value := shared.modifications[key];
        if currentBlockNumber == block || value.lastModificationBlock < block then Some(Some(value)) else None
      else if IsDeleted(shared.deletedPrefixes, key) then Some(None)
      else None
    }

    method GetBlock(number: nat) returns (r: Result<Option<Hash>, LocalError>)
      requires Valid()
      modifies parent.rpc, parent.cache`blocks
      ensures Valid()
      ensures r.Success? ==>
        r.value == if number in parent.rpc.canonical then Some(parent.rpc.canonical[number]) else None
      ensures old(parent.rpc.connected) && parent.cache.healthy ==> r.Success?
    {
      Open();
      var cached := parent.cache.GetBlockByNumber(number);
      if cached.Some? {
        return Success(cached);
      }
      var fetched := parent.FetchAndCacheBlockByNumber(number);
      if fetched.Failure? {
        return Failure(Remote(fetched.error));
      }
      return Success(fetched.value);
    }

    /** The node can be reached, the database accepts writes, and the node has the state of the block if it is
        on the canonical chain. */
    predicate HasBlock(block: nat) {
      && parent.rpc.reachable && parent.cache.healthy
      && (block in parent.rpc.canonical ==> parent.rpc.canonical[block] in parent.rpc.upstream)
    }

    ghost predicate ForkedFromCanonical() {
      forkNumber in parent.rpc.canonical && parent.rpc.canonical[forkNumber] == forkHash
    }

    /** At the fork point, when the fork was taken from the canonical chain, a key never injected nor under a
        deleted prefix reads as the fork has it before the first block. */
    lemma ForkPointReads(key: Bytes, answer: Option<Bytes>)
      requires Valid() && Clean(shared.log, key)
      requires ForkedFromCanonical()
      requires if LocalModification(View(), key, forkNumber).Some? then Some(answer)
          == LocalModification(View(), key, forkNumber)
               else UpstreamAnswer(key, forkNumber, answer)
      ensures answer == Lookup(Base(), key)
    {
      Open();
      BeforeTheFork(View(), shared.log, key, forkNumber);
      TouchInLog(shared.log, key);
    }

    /** The canonical upstream value at a block that is not fork-local. */
    ghost predicate UpstreamAnswer(key: Bytes, block: nat, answer: Option<Bytes>) {
      if block in parent.rpc.canonical then
        var hash := parent.rpc.canonical[block];
        hash in parent.rpc.upstream && answer == Lookup(parent.rpc.upstream[hash], key)
      else answer.None?
    }

    method Get(block: nat, key: Bytes) returns (r: Result<Option<SharedValue>, LocalError>)
      requires Valid()
      modifies parent.rpc, parent.cache`storage, parent.cache`prefixScans, parent.cache`blocks
      ensures Valid()
      ensures Serves() && ForkLocal(View(), block) ==> r.Success?
      ensures r.Success? ==> Meets(key, block, Flat(r.value))
      ensures r.Success? && !ForkLocal(View(), block) ==>
        if LocalModification(View(), key, block).Some? then Some(Flat(r.value)) == LocalModification(View(), key, block)
        else UpstreamAnswer(key, block, Flat(r.value))
      ensures LocalModification(View(), key, block).Some? ==> r.Success?
      ensures forkNumber < block < currentBlockNumber && Read(parent.cache.Local(), key, block).Some? ==> r.Success?
      ensures !ForkLocal(View(), block) && old(parent.rpc.connected) && HasBlock(block) ==> r.Success?
    {
      Open();
      GetMeets(key, block);
      AfterForkPoint();
      var modification := GetLocalModification(key, block);
      if modification.Some? {
        return Success(modification.value);
      }
      if block == currentBlockNumber {
        var remote := parent.Get(forkHash, key);
        if remote.Failure? {
          return Failure(Remote(remote.error));
        }
        return Success(Unversioned(remote.value));
      }
      if forkNumber < block < currentBlockNumber {
        var local := parent.cache.GetLocalValueAtBlock(key, block);
        if local.Some? {
          return Success(Some(SharedValue(0, local.value)));
        }
        var remote := parent.Get(forkHash, key);
        if remote.Failure? {
          return Failure(Remote(remote.error));
        }
        return Success(Unversioned(remote.value));
      }
      var found := GetBlock(block);
      if found.Failure? {
        return Failure(found.error);
      }
      if found.value.None? {
        return Success(None);
      }
      Open();
      var remote := parent.Get(found.value.value, key);
      if remote.Failure? {
        return Failure(Remote(remote.error));
      }
      return Success(Unversioned(remote.value));
    }

    // ---- Batch reads ----

    method LocalAnswers(block: nat, keys: seq<Bytes>) returns (answers: seq<Option<Option<SharedValue>>>)
      ensures |answers| == |keys|
      ensures forall i :: 0 <= i < |keys| ==> answers[i] == GetLocalModification(keys[i], block)
    {
      answers := [];
      for i := 0 to |keys|
        invariant |answers| == i
        invariant forall j :: 0 <= j < i ==> answers[j] == GetLocalModification(keys[j], block)
      {
        answers := answers + [GetLocalModification(keys[i], block)];
      }
    }

    /** Asks upstream, key by key, for every position that has no value yet. */
    method FillFromUpstream(keys: seq<Bytes>, found: seq<Option<SharedValue>>)
      returns (r: Result<seq<Option<SharedValue>>, LocalError>)
      requires Valid() && |found| == |keys|
      modifies parent.rpc, parent.cache`storage, parent.cache`prefixScans
      ensures Valid()
      ensures Serves() ==> r.Success?
      ensures r.Success? ==> |r.value| == |keys| && forall i :: 0 <= i < |keys| ==>
        Flat(r.value[i]) == if found[i].Some? then found[i].value.value else Lookup(Base(), keys[i])
    {
      Open();
      var results := [];
      for i := 0 to |keys|
        invariant Valid() && |results| == i
        invariant forall j :: 0 <= j < i ==>
          Flat(results[j]) == if found[j].Some? then found[j].value.value else Lookup(Base(), keys[j])
      {
        if found[i].Some? {
          results := results + [found[i]];
        } else {
          Open();
          var remote := parent.Get(forkHash, keys[i]);
          if remote.Failure? {
            return Failure(Remote(remote.error));
          }
          results := results + [Unversioned(remote.value)];
        }
      }
      return Success(results);
    }

    method BatchAtWorkingBlock(keys: seq<Bytes>) returns (r: Result<seq<Option<SharedValue>>, LocalError>)
      requires Valid()
      modifies parent.rpc, parent.cache`storage
      ensures Valid()
      ensures Serves() && Distinct(keys) ==> r.Success?
      ensures r.Success? ==> |r.value| == |keys| && forall i :: 0 <= i < |keys| ==>
        Flat(r.value[i]) == Versioning.Get(View(), keys[i], currentBlockNumber)
    {
      Open();
      var local := LocalAnswers(currentBlockNumber, keys);
      var indices, nonLocal := OpenPositions(keys, local);
      var results := seq(|keys|, i requires 0 <= i < |keys| => if local[i].Some? then local[i].value else None);
      if nonLocal != [] {
        var remote := parent.GetBatch(forkHash, nonLocal);
        if remote.Failure? {
          return Failure(Remote(remote.error));
        }
        results := WriteBack(results, indices,
                             seq(|nonLocal|, j requires 0 <= j < |nonLocal| => Unversioned(remote.value[j])));
        forall i | 0 <= i < |keys| ensures Flat(results[i]) == Versioning.Get(View(), keys[i], currentBlockNumber) {
          if i in indices {
            var j :| 0 <= j < |indices| && indices[j] == i;
            assert nonLocal[j] == keys[i];
          }
        }
      }
      return Success(results);
    }

    /** Local modifications and table rows; None at a position that has to be asked upstream. */
    method LocalBatch(block: nat, keys: seq<Bytes>) returns (r: Result<seq<Option<SharedValue>>, CacheError>)
      requires Valid() && block < currentBlockNumber
      ensures Distinct(keys) ==> r.Success?
      ensures r.Success? ==> |r.value| == |keys| && forall i :: 0 <= i < |keys| ==>
        BatchAnswer(View(), keys[i], block)
            == if r.value[i].Some? then r.value[i].value.value else Lookup(Base(), keys[i])
    {
      Open();
      var local := LocalAnswers(block, keys);
      var indices, nonLocal := OpenPositions(keys, local);
      var results := seq(|keys|, i requires 0 <= i < |keys| => if local[i].Some? then local[i].value else None);
      if nonLocal != [] {
        var rows := parent.cache.GetLocalValuesAtBlockBatch(nonLocal, block);
        if rows.Failure? {
          return Failure(rows.error);
        }
        results := WriteBack(results, indices,
                             seq(|nonLocal|, j requires 0 <= j < |nonLocal| =>
                               if rows.value[j].Some? then Some(SharedValue(0, rows.value[j].value)) else None));
      }
      forall i | 0 <= i < |keys|
        ensures BatchAnswer(View(), keys[i], block)
            == if results[i].Some? then results[i].value.value else Lookup(Base(), keys[i])
      {
        if i in indices {
          var j :| 0 <= j < |indices| && indices[j] == i;
          assert nonLocal[j] == keys[i];
        }
      }
      return Success(results);
    }

    method BatchAtEarlierBlock(block: nat, keys: seq<Bytes>) returns (r: Result<seq<Option<SharedValue>>, LocalError>)
      requires Valid() && block < currentBlockNumber
      modifies parent.rpc, parent.cache`storage, parent.cache`prefixScans
      ensures Valid()
      ensures Serves() && Distinct(keys) ==> r.Success?
      ensures r.Success? ==> |r.value| == |keys| && forall i :: 0 <= i < |keys| ==>
        Flat(r.value[i]) == BatchAnswer(View(), keys[i], block)
    {
      var found := LocalBatch(block, keys);
      if found.Failure? {
        return Failure(Remote(Cache(found.error)));
      }
      r := FillFromUpstream(keys, found.value);
    }

    /** Answers in input order. At a fork-local block each is what `Get` answers, but for a deleted prefix
        that an earlier block forgets (see BatchAnswer). */
    method GetBatch(block: nat, keys: seq<Bytes>) returns (r: Result<seq<Option<SharedValue>>, LocalError>)
      requires Valid()
      modifies parent.rpc, parent.cache`storage, parent.cache`prefixScans, parent.cache`blocks
      ensures Valid()
      ensures Serves() && ForkLocal(View(), block) && Distinct(keys) ==> r.Success?
      ensures r.Success? ==> |r.value| == |keys|
      ensures r.Success? && ForkLocal(View(), block) ==>
        forall i :: 0 <= i < |keys| ==> Flat(r.value[i]) == BatchAnswer(View(), keys[i], block)
      ensures r.Success? && !ForkLocal(View(), block) ==>
        forall i :: 0 <= i < |keys| ==> UpstreamAnswer(keys[i], block, Flat(r.value[i]))
    {
      Open();
      AfterForkPoint();
      if keys == [] {
        return Success([]);
      }
      if block == currentBlockNumber {
        r := BatchAtWorkingBlock(keys);
        return;
      }
      if forkNumber < block < currentBlockNumber {
        r := BatchAtEarlierBlock(block, keys);
        return;
      }
      var found := GetBlock(block);
      if found.Failure? {
        return Failure(found.error);
      }
      if found.value.None? {
        return Success(seq(|keys|, _ => None));
      }
      Open();
      var remote := parent.GetBatch(found.value.value, keys);
      if remote.Failure? {
        return Failure(Remote(remote.error));
      }
      return Success(seq(|keys|, i requires 0 <= i < |keys| => Unversioned(remote.value[i])));
    }

    // ---- Enumeration ----

    /** The least upstream key after `key` with the prefix that no deleted prefix covers. */
    method NextKey(prefix: Bytes, key: Bytes) returns (r: Result<Option<Bytes>, LocalError>)
      requires Valid()
      modifies parent.rpc
      ensures Valid()
      ensures Serves() ==> r.Success?
      ensures r.Success? ==>
        r.value == if Visible(View(), prefix, key) == {} then None else Some(Least(Visible(View(), prefix, key)))
    {
      Open();
      var deleted := shared.deletedPrefixes;
      var current := key;
      while true
        invariant Valid() && Visible(View(), prefix, current) == Visible(View(), prefix, key)
        decreases KeysAfter(Base(), prefix, Some(current))
      {
        var next := parent.NextKey(forkHash, prefix, current);
        if next.Failure? {
          return Failure(Remote(next.error));
        }
        if next.value.None? {
          return Success(None);
        }
        SkipDeleted(View(), prefix, current);
        if !IsDeleted(deleted, next.value.value) {
          LeastUnique(next.value.value, Least(Visible(View(), prefix, key)), Visible(View(), prefix, key));
          return Success(next.value);
        }
        current := next.value.value;
      }
    }

    /** `merge_keys_with_cache`, fed by the two range queries over the interval table. */
    method MergeKeysWithCache(remote: set<Bytes>, prefix: Bytes, block: nat) returns (merged: set<Bytes>)
      requires Disjoint(parent.cache.localValues)
      ensures merged == MergeWithCache(View(), remote, prefix, block)
    {
      var live := parent.cache.GetLocalKeysAtBlock(prefix, block);
      var deleted := parent.cache.GetLocalDeletedKeysAtBlock(prefix, block);
      SortedElements(LiveKeys(parent.cache.Local(), prefix, block));
      SortedElements(DeletedKeys(parent.cache.Local(), prefix, block));
      merged := (remote - Elements(deleted)) + Elements(live);
    }

    /** What the cache wrongly holds for listed: keys it knows to be empty. */
    function Empties(prefix: Bytes): set<Bytes>
      reads parent.cache`storage
    {
      CachedEmpty(parent.cache.storage, forkHash, prefix)
    }

    /** The keys that exist under the prefix at a fork-local block, ascending and without duplicates, and
        with them any phantom: a key the cache holds as empty and no local record covers. */
    method KeysByPrefix(prefix: Bytes, block: nat) returns (r: Result<seq<Bytes>, LocalError>)
      requires Valid()
      modifies parent.rpc, parent.cache`storage, parent.cache`prefixScans
      ensures Valid() && Empties(prefix) == old(Empties(prefix))
      ensures Serves() ==> r.Success?
      ensures r.Success? ==> r.value == Sorted(KeysAt(View(), Empties(prefix), prefix, block))
      ensures ListingMeets(prefix, block)
    {
      r := MergeKeys(prefix, block);
      ListingAlwaysMeets(prefix, block);
    }

    /** The keys of the remote layer, merged with what memory holds at the working block and with the interval
        table before it. */
    method MergeKeys(prefix: Bytes, block: nat) returns (r: Result<seq<Bytes>, LocalError>)
      requires Valid()
      modifies parent.rpc, parent.cache`storage, parent.cache`prefixScans
      ensures Valid() && Empties(prefix) == old(Empties(prefix))
      ensures Serves() ==> r.Success?
      ensures r.Success? ==> r.value == Sorted(KeysAt(View(), Empties(prefix), prefix, block))
    {
      Open();
      var fetched := parent.GetKeys(forkHash, prefix);
      if fetched.Failure? {
        return Failure(Remote(fetched.error));
      }
      var remote := set k | k in fetched.value;
      assert remote == RemoteKeys(View(), Empties(prefix), prefix);
      if block >= currentBlockNumber {
        return Success(Sorted(MergeWithMemory(View(), remote, prefix)));
      }
      var merged := MergeKeysWithCache(remote, prefix, block);
      return Success(Sorted(merged));
    }

    /** What the listing at a fork-local block has, and when that is what reads answer, key by key. For a seeded
        key before the working block both have a simple form. */
    ghost predicate ListingMeets(prefix: Bytes, block: nat)
      reads this, shared, parent.cache
    {
      ForkLocal(View(), block) ==> forall k :: KeyMeets(prefix, k, block)
    }

    ghost predicate KeyMeets(prefix: Bytes, key: Bytes, block: nat)
      reads this, shared, parent.cache
    {
      var v, empties := View(), Empties(prefix);
      var listed := key in KeysAt(v, empties, prefix, block);
      && (listed <==> StartsWith(key, prefix) && Listed(v, empties, key, block))
      && (StartsWith(key, prefix) ==>
            ((listed <==> Versioning.Get(v, key, block).Some?) <==> Agrees(v, empties, key, block)))
      && (StartsWith(key, prefix) && Seeded(shared.log, key) && block < v.current ==>
            && (listed <==> match LastWrite(shared.log, key, block)
                            case Some(value) => value.Some?
                            case None => key in v.base || key in empties)
            && (Agrees(v, empties, key, block) <==>
                  match LastTouch(shared.log, key)
                  case Some(Injected(_, value)) => value.Some? <==> key in v.base || key in empties
                  case _ => !Phantom(v, empties, key, block)))
    }

    lemma ListingAlwaysMeets(prefix: Bytes, block: nat)
      requires Valid()
      ensures ListingMeets(prefix, block)
    {
      Open();
      assert AreEmpties(View(), Empties(prefix), prefix) by {
        forall k | k in Empties(prefix) ensures StartsWith(k, prefix) && k !in Base() {
          assert StorageId(forkHash, k) in parent.cache.storage;
        }
      }
      if ForkLocal(View(), block) {
        forall k ensures KeyMeets(prefix, k, block) {
          KeyAlwaysMeets(prefix, k, block);
        }
      }
    }

    lemma KeyAlwaysMeets(prefix: Bytes, key: Bytes, block: nat)
      requires Inv(View(), shared.log) && AreEmpties(View(), Empties(prefix), prefix) && ForkLocal(View(), block)
      ensures KeyMeets(prefix, key, block)
    {
      var v, empties := View(), Empties(prefix);
      KeyListed(v, empties, prefix, key, block);
      if StartsWith(key, prefix) {
        KeyAgrees(v, empties, prefix, key, block);
        if Seeded(shared.log, key) && block < v.current {
          HistoricalListing(v, shared.log, empties, prefix, key, block);
          SeededAgrees(v, shared.log, empties, prefix, key, block);
        }
      }
    }

    // ---- Metadata ----

    /** The block before the working block is fork-local or the fork point, and its metadata is known. */
    lemma MetadataKnown()
      requires Valid()
      ensures forkNumber <= currentBlockNumber - 1 && VersionAt(shared.metadataVersions, currentBlockNumber - 1).Some?
    {
      Open();
      AfterForkPoint();
      VersionsTotal(shared.metadataVersions, forkNumber, currentBlockNumber, currentBlockNumber - 1);
    }

    method MetadataAt(block: nat) returns (r: Result<Metadata, LocalError>)
      requires Valid()
      modifies parent.rpc
      ensures Valid()
      ensures block >= forkNumber ==> r.Success? && Some(r.value) == VersionAt(shared.metadataVersions, block)
      ensures r.Success? && block < forkNumber ==>
        && block in parent.rpc.canonical && parent.rpc.canonical[block] in parent.rpc.metadata
        && r.value == Metadata(parent.rpc.metadata[parent.rpc.canonical[block]])
    {
      Open();
      if block < forkNumber {
        var hash := parent.rpc.BlockHashAt(block);
        if hash.Failure? {
          return Failure(Remote(Rpc(hash.error)));
        }
        if hash.value.None? {
          return Failure(MetadataNotFound);
        }
        var fetched := parent.rpc.Metadata(hash.value.value);
        if fetched.Failure? {
          return Failure(Remote(Rpc(fetched.error)));
        }
        return Success(Metadata(fetched.value));
      }
      VersionsTotal(shared.metadataVersions, forkNumber, currentBlockNumber, block);
      return Success(VersionAt(shared.metadataVersions, block).value);
    }

    /** Called with the working block, it leaves the metadata of every earlier block as it was. */
    method RegisterMetadataVersion(block: nat, metadata: Metadata)
      requires Valid()
      modifies shared`metadataVersions
      ensures shared.metadataVersions == old(shared.metadataVersions)[block := metadata]
      ensures block == currentBlockNumber ==> Valid()
      ensures block == currentBlockNumber ==> forall b: nat ::
        VersionAt(shared.metadataVersions, b)
            == if b < block then VersionAt(old(shared.metadataVersions), b) else Some(metadata)
    {
      Open();
      if block == currentBlockNumber {
        AfterForkPoint();
        forall b: nat {
          RegisterAppends(shared.metadataVersions, forkNumber, currentBlockNumber, metadata, b);
        }
      }
      shared.metadataVersions := shared.metadataVersions[block := metadata];
    }

    function HasCodeChangedAt(block: nat): bool
      reads shared
    {
      shared.CodeWrittenAt(block)
    }

    lemma CodeChangeIsLastTouch(block: nat)
      requires Valid()
      ensures HasCodeChangedAt(block) <==> CodeSeenAt(forkNumber, shared.log, block)
    {
      Open();
      assert ModsMatch(View(), shared.log, CODE);
    }

    lemma WorkingReads(key: Bytes)
      requires Valid()
      ensures Lookup(shared.working, key)
           == match LastTouch(shared.log, key)
              case None => Lookup(Base(), key)
              case Some(Wrote(_, _, value)) => value
              case Some(Injected(_, value)) => value
              case Some(Erased(_)) => None
    {
      Open();
      WorkingReadsLastTouch(View(), shared.log, key);
      assert Lookup(WorkingState(View()), key) == Versioning.Get(View(), key, currentBlockNumber);
    }

    /** While nothing has been written at the working block, a read at the block before is a read of the
        working state. */
    lemma SettledReads(key: Bytes, block: nat, answer: Option<Bytes>)
      requires Valid() && currentBlockNumber == block + 1 && block > forkNumber && NothingPending()
          && Meets(key, block, answer)
      ensures Seeded(shared.log, key) ==> Lookup(shared.working, key) == answer
    {
      Open();
      GetMeets(key, currentBlockNumber);
      NoDiffNoWrite(shared.log, key, currentBlockNumber);
      assert Lookup(WorkingState(View()), key) == Versioning.Get(View(), key, currentBlockNumber);
    }
  }
}
