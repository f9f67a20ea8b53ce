/** Blocks of the fork and the chain they form through their parents. */
module Blocks {
  import opened Wrappers
  import opened ByteStrings
  import opened Upstream
  import opened IntervalTable
  import opened Versioning
  import opened MetadataHistory
  import opened LocalStorage
  import opened BlockBuilding

  datatype Block = Block(
    number: nat, hash: Hash, parentHash: Hash, header: Bytes, extrinsics: seq<Bytes>,
    storage: LocalStorageLayer, parent: Option<Block>)

  /** The block as the builds on it see it. */
  function AsParent(b: Block, metadata: Metadata): Parent {
    Parent(b.number, b.hash, b.parentHash, b.header, b.extrinsics, metadata)
  }

  /** Commits the parent's storage and puts a block on top of it. The child has its own clone of the layer. */
  method Child(parent: Block, hash: Hash, header: Bytes, extrinsics: seq<Bytes>) returns (r: Result<Block, LocalError>)
    requires parent.storage.Valid()
    modifies parent.storage`currentBlockNumber
    modifies parent.storage.parent.cache`localKeys, parent.storage.parent.cache`localValues,
        parent.storage.parent.cache`nextKeyId
    ensures parent.storage.Valid()
    ensures parent.storage.currentBlockNumber == old(parent.storage.currentBlockNumber) + if r.Success? then 1 else 0
    ensures parent.storage.parent.cache.healthy && old(parent.storage.currentBlockNumber) < U32_MAX ==> r.Success?
    ensures r.Success? ==> old(parent.storage.currentBlockNumber) < U32_MAX
    ensures r.Success? ==>
      && fresh(r.value.storage) && SameFork(r.value.storage, parent.storage)
      && r.value.storage.Valid() && r.value.storage.currentBlockNumber == parent.storage.currentBlockNumber
      && r.value.storage.NothingPending()
      && r.value == Block(parent.number + 1, hash, parent.hash, header, extrinsics, r.value.storage, Some(parent))
  {
    var committed := parent.storage.Commit();
    if committed.Failure? {
      return Failure(committed.error);
    }
    var storage := new LocalStorageLayer.Clone(parent.storage);
    return Success(Block(parent.number + 1, hash, parent.hash, header, extrinsics, storage, Some(parent)));
  }

  /** Two layers over one fork: everything but the block number is shared. */
  ghost predicate SameFork(a: LocalStorageLayer, b: LocalStorageLayer) {
    a.parent == b.parent && a.forkHash == b.forkHash && a.forkNumber == b.forkNumber && a.shared == b.shared
  }

  lemma CloneValid(a: LocalStorageLayer, b: LocalStorageLayer)
    requires SameFork(a, b) && a.currentBlockNumber == b.currentBlockNumber && a.Valid()
    ensures b.Valid()
  {
    a.Open();
  }

  // ---- The local chain ----

  /** Numbers and parent hashes line up from a block down to the fork point. */
  ghost predicate Linked(b: Block, fork: nat) {
    match b.parent
    case None => b.number == fork
    case Some(p) => b.number == p.number + 1 && b.parentHash == p.hash && Linked(p, fork)
  }

  ghost predicate HasHash(b: Block, hash: Hash) {
    b.hash == hash || (b.parent.Some? && HasHash(b.parent.value, hash))
  }

  ghost predicate DistinctHashes(b: Block) {
    b.parent.Some? ==> !HasHash(b.parent.value, b.hash) && DistinctHashes(b.parent.value)
  }

  function FindByNumber(b: Block, number: nat): Option<Block> {
    if b.number == number then Some(b)
    else if b.parent.None? then None
    else FindByNumber(b.parent.value, number)
  }

  function FindByHash(b: Block, hash: Hash): Option<Block> {
    if b.hash == hash then Some(b)
    else if b.parent.None? then None
    else FindByHash(b.parent.value, hash)
  }

  lemma {:induction false} FoundByHashIffPresent(b: Block, hash: Hash)
    ensures FindByHash(b, hash).Some? <==> HasHash(b, hash)
    ensures FindByHash(b, hash).Some? ==> FindByHash(b, hash).value.hash == hash
  {
    if b.parent.Some? {
      FoundByHashIffPresent(b.parent.value, hash);
    }
  }

  /** Every number from the fork point to the head names one local block, its hash finds that block again,
      and its parent hash is the hash one number below. */
  lemma {:induction false} LookupsInvert(b: Block, fork: nat, number: nat)
    requires Linked(b, fork) && DistinctHashes(b) && fork <= number <= b.number
    ensures var found := FindByNumber(b, number);
            && found.Some? && found.value.number == number
            && FindByHash(b, found.value.hash) == found
            && HasHash(b, found.value.hash)
            && (number > fork ==>
                  && FindByNumber(b, number - 1).Some?
                  && found.value.parentHash == FindByNumber(b, number - 1).value.hash)
  {
    LinkedAbove(b, fork);
    if number < b.number {
      LookupsInvert(b.parent.value, fork, number);
    } else if number > fork {
      assert FindByNumber(b, number - 1) == Some(b.parent.value);
    }
  }

  lemma {:induction false} FoundByNumber(b: Block, fork: nat, number: nat)
    requires Linked(b, fork) && fork <= number <= b.number
    ensures FindByNumber(b, number).Some? && FindByNumber(b, number).value.number == number
  {
    LinkedAbove(b, fork);
    if number < b.number {
      FoundByNumber(b.parent.value, fork, number);
    }
  }

  lemma {:induction false} LinkedAbove(b: Block, fork: nat)
    requires Linked(b, fork)
    ensures fork <= b.number && (b.number > fork <==> b.parent.Some?)
  {
    if b.parent.Some? {
      LinkedAbove(b.parent.value, fork);
    }
  }

  /** Below the fork point nothing is found locally. */
  lemma {:induction false} NothingBelowFork(b: Block, fork: nat, number: nat)
    requires Linked(b, fork) && number < fork
    ensures FindByNumber(b, number).None?
  {
    LinkedAbove(b, fork);
    if b.parent.Some? {
      NothingBelowFork(b.parent.value, fork, number);
    }
  }

  /** The number of the block with a hash finds that block again. */
  lemma {:induction false} NumbersFindBack(b: Block, fork: nat, hash: Hash)
    requires Linked(b, fork)
    ensures FindByHash(b, hash).Some? ==> FindByNumber(b, FindByHash(b, hash).value.number) == FindByHash(b, hash)
    ensures FindByHash(b, hash).Some? ==> FindByHash(b, hash).value.number <= b.number
  {
    LinkedAbove(b, fork);
    if b.hash != hash && b.parent.Some? {
      NumbersFindBack(b.parent.value, fork, hash);
    }
  }

  lemma {:induction false} FoundByNumberHasHash(b: Block, number: nat)
    requires FindByNumber(b, number).Some?
    ensures HasHash(b, FindByNumber(b, number).value.hash)
  {
    if b.number != number {
      FoundByNumberHasHash(b.parent.value, number);
    }
  }
}
