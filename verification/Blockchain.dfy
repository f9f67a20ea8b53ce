/** The fork as a whole: building on the head, and looking things up along the chain. */
module Blockchain {
  import opened Wrappers
  import opened ByteStrings
  import opened Upstream
  import opened IntervalTable
  import opened ScanRecords
  import opened RemoteStorage
  import opened Versioning
  import opened Enumeration
  import opened MetadataHistory
  import opened LocalStorage
  import opened BlockBuilding
  import opened Blocks
  import opened BlockBuilder
  import opened BuildHistory

  datatype BlockchainError =
    | Builder(builder: BuilderError) | Local(local: LocalError) | Node(rpc: RpcError) | ConcurrentBlockBuild

  // ---- Building on a captured head ----

  /** Initialization and inherents. */
  method RunPreparation(builder: BlockBuilder, ghost info: Parent)
    returns (r: Result<(), BuilderError>, ghost diff: seq<Entry>)
    requires builder.Valid() && builder.phase == Created && builder.extrinsics == []
    requires VersionAt(builder.parent.storage.shared.metadataVersions, builder.parent.number).Some?
        && info == builder.Info()
    modifies builder, builder.parent.storage.shared`modifications, builder.parent.storage.shared`log,
        builder.parent.storage.shared`working
    modifies builder.parent.storage.parent.rpc, builder.parent.storage.parent.cache`storage,
             builder.parent.storage.parent.cache`prefixScans, builder.parent.storage.parent.cache`blocks
    ensures builder.Valid()
    ensures builder.parent.storage.shared.log
        == old(builder.parent.storage.shared.log) + WroteAll(builder.parent.number + 1, diff)
    ensures builder.parent.storage.shared.working == Overlay(old(builder.parent.storage.shared.working), diff)
    ensures r.Success? ==>
      && builder.phase == InherentsApplied
      && Prepare(builder.host, builder.code, info, builder.header, old(builder.parent.storage.shared.working))
         == Some(Prepared(diff, builder.extrinsics))
    ensures builder.parent.storage.Serves() && r.Failure? ==>
      Prepare(builder.host, builder.code, info, builder.header, old(builder.parent.storage.shared.working)).None?
  {
    ghost var s, log, n := builder.parent.storage.shared.working, builder.parent.storage.shared.log,
        builder.parent.number + 1;
    diff := [];
    assert log + WroteAll(n, []) == log;
    var initialized := builder.Initialize();
    if initialized.Failure? {
      return Failure(initialized.error), diff;
    }
    ghost var s1 := builder.parent.storage.shared.working;
    ghost var inherents, more;
    r, inherents, more := builder.ApplyInherents();
    diff := initialized.value.diff + more;
    assert Overlay(s1, more) == Overlay(s, diff)
        && (log + WroteAll(n, initialized.value.diff)) + WroteAll(n, more) == log + WroteAll(n, diff) by {
      JoinLogs(log, n, initialized.value.diff, more);
      OverlayAppend(s, initialized.value.diff, more);
    }
    if r.Success? {
      assert builder.extrinsics == inherents;
      assert Prepare(builder.host, builder.code, info, builder.header, s) == Some(Prepared(diff, inherents)) by {
        PreparationSteps(builder.host, builder.code, info, builder.header, s, initialized.value, inherents,
                         InherentDiff(builder.host, builder.code, inherents, s1).value);
      }
    }
  }

  /** User extrinsics in the order they were given. */
  method RunExtrinsics(builder: BlockBuilder, extrinsics: seq<Bytes>)
    returns (r: Result<(seq<Bytes>, seq<FailedExtrinsic>), BuilderError>, ghost diff: seq<Entry>)
    requires builder.Valid() && builder.phase == InherentsApplied
    modifies builder`extrinsics, builder.parent.storage.shared`modifications, builder.parent.storage.shared`log,
        builder.parent.storage.shared`working
    modifies builder.parent.storage.parent.rpc, builder.parent.storage.parent.cache`storage,
             builder.parent.storage.parent.cache`prefixScans, builder.parent.storage.parent.cache`blocks
    ensures builder.Valid()
    ensures builder.parent.storage.shared.log
        == old(builder.parent.storage.shared.log) + WroteAll(builder.parent.number + 1, diff)
    ensures builder.parent.storage.shared.working == Overlay(old(builder.parent.storage.shared.working), diff)
    ensures r.Success? ==>
      && builder.extrinsics == old(builder.extrinsics) + r.value.0
      && ApplyAll(builder.host, builder.code, extrinsics, old(builder.parent.storage.shared.working))
         == Some(BlockBuilding.Applied(diff, r.value.0, r.value.1))
    ensures builder.parent.storage.Serves() && r.Failure? ==>
      ApplyAll(builder.host, builder.code, extrinsics, old(builder.parent.storage.shared.working)).None?
  {
    ghost var s, log := builder.parent.storage.shared.working, builder.parent.storage.shared.log;
    var included: seq<Bytes>, failed: seq<FailedExtrinsic> := [], [];
    diff := [];
    EmptyBatch(log, builder.parent.number + 1);
    assert extrinsics[0..] == extrinsics;
    PrependNothing(ApplyAll(builder.host, builder.code, extrinsics, s));
    for i := 0 to |extrinsics|
      invariant builder.Valid()
      invariant builder.parent.storage.shared.log == log + WroteAll(builder.parent.number + 1, diff)
          && builder.parent.storage.shared.working == Overlay(s, diff)
      invariant builder.extrinsics == old(builder.extrinsics) + included
      invariant ApplyAll(builder.host, builder.code, extrinsics, s)
        == Prepend(BlockBuilding.Applied(diff, included, failed),
            ApplyAll(builder.host, builder.code, extrinsics[i..], Overlay(s, diff)))
    {
      ApplyStep(builder.host, builder.code, extrinsics, i, s, BlockBuilding.Applied(diff, included, failed));
      ghost var result := builder.host.run(builder.code, ApplyExtrinsic(extrinsics[i]),
          builder.parent.storage.shared.working);
      var outcome := builder.ApplyUserExtrinsic(extrinsics[i]);
      if outcome.Failure? {
        return Failure(outcome.error), diff;
      }
      match outcome.value {
        case Included(_) =>
          JoinLogs(log, builder.parent.number + 1, diff, result.value.diff);
          OverlayAppend(s, diff, result.value.diff);
          diff := diff + result.value.diff;
          included := included + [extrinsics[i]];
        case DispatchFailed(error) =>
          failed := failed + [FailedExtrinsic(extrinsics[i], error)];
      }
    }
    PrependNothing(Some(BlockBuilding.Applied(diff, included, failed)));
    return Success((included, failed)), diff;
  }

  function OrNodeError<T>(r: Result<T, RpcError>): (mapped: Result<T, BlockchainError>)
    ensures mapped.Success? <==> r.Success?
    ensures r.Success? ==> mapped.value == r.value
  {
    match r
    case Success(value) => Success(value)
    case Failure(error) => Failure(Node(error))
  }

  /** Preparation, user extrinsics, and the check for an upgrade, which comes before finalization. */
  method RunBody(builder: BlockBuilder, ghost info: Parent, extrinsics: seq<Bytes>, ghost fork: nat,
                 ghost before: Ledger)
    returns (r: Result<(seq<Bytes>, seq<FailedExtrinsic>), BuilderError>, upgraded: bool, ghost diff: seq<Entry>,
             ghost prepared: Prepared, ghost applied: Applied)
    requires builder.Valid() && builder.phase == Created && builder.extrinsics == []
    requires VersionAt(builder.parent.storage.shared.metadataVersions, builder.parent.number).Some?
        && info == builder.Info()
    requires fork == builder.parent.storage.forkNumber && before == builder.parent.storage.shared.Snapshot()
    modifies builder, builder.parent.storage.shared`modifications, builder.parent.storage.shared`log,
        builder.parent.storage.shared`working
    modifies builder.parent.storage.parent.rpc, builder.parent.storage.parent.cache`storage,
             builder.parent.storage.parent.cache`prefixScans, builder.parent.storage.parent.cache`blocks
    ensures builder.Valid()
    ensures builder.parent.storage.shared.Snapshot()
        == Ledger(before.log + WroteAll(builder.parent.number + 1, diff), Overlay(before.working, diff),
            before.versions)
    ensures r.Success? ==>
      && builder.phase == InherentsApplied && diff == prepared.diff + applied.diff
      && BodyRan(builder.host, builder.code, info, builder.header, extrinsics, before.working, prepared, applied)
      && r.value == (applied.included, applied.failed)
      && builder.extrinsics == prepared.inherents + applied.included
      && (upgraded <==> CodeSeenAt(fork, builder.parent.storage.shared.Snapshot().log, builder.parent.number + 1))
    ensures builder.parent.storage.Serves() && r.Failure? ==> forall door: nat :: Knock(door) ==>
      NoBody(builder.host, builder.code, info, builder.header, extrinsics, before.working)
  {
    ghost var s, log, n := builder.parent.storage.shared.working, builder.parent.storage.shared.log,
        builder.parent.number + 1;
    ghost var more;
    upgraded := false;
    var prepare;
    prepare, diff := RunPreparation(builder, info);
    prepared, applied := Prepared(diff, builder.extrinsics), BlockBuilding.Applied([], [], []);
    if prepare.Failure? {
      return Failure(prepare.error), upgraded, diff, prepared, applied;
    }
    r, more := RunExtrinsics(builder, extrinsics);
    assert Overlay(Overlay(s, diff), more) == Overlay(s, diff + more)
        && (log + WroteAll(n, diff)) + WroteAll(n, more) == log + WroteAll(n, diff + more) by {
      JoinLogs(log, n, diff, more);
      OverlayAppend(s, diff, more);
    }
    diff := diff + more;
    if r.Success? {
      applied := BlockBuilding.Applied(more, r.value.0, r.value.1);
      upgraded := builder.RuntimeUpgraded();
    }
  }

  /** Finalization and commit. */
  method FinishBuild(builder: BlockBuilder, ghost fork: nat, ghost mid: Ledger)
    returns (r: Result<Block, BuilderError>, ghost final: seq<Entry>)
    requires builder.Valid() && builder.phase == InherentsApplied
    requires fork == builder.parent.storage.forkNumber && mid == builder.parent.storage.shared.Snapshot()
    modifies builder.parent.storage`currentBlockNumber
    modifies builder.parent.storage.shared, builder.parent.storage.parent.rpc, builder.parent.storage.parent.cache
    ensures builder.parent.storage.Valid()
    ensures builder.parent.storage.currentBlockNumber == builder.parent.number + if r.Success? then 2 else 1
    ensures r.Success? ==>
      ExtendsFork(builder.parent, r.value) && r.value.number == builder.parent.number + 1 && fresh(r.value.storage)
    ensures Ended(fork, builder.host, builder.code, builder.parent.storage.Serves(), builder.parent, builder.extrinsics,
                  mid, builder.parent.storage.shared.Snapshot(), final, if r.Success? then Some(r.value) else None)
  {
    r, final := builder.Finalize();
  }

  /** The child sits on the parent with a layer of its own that sees the same state, nothing written yet. */
  ghost predicate ExtendsFork(parent: Block, child: Block)
    reads parent.storage, parent.storage.shared, parent.storage.parent.cache
    reads child.storage, child.storage.shared, child.storage.parent.cache
  {
    && child.parentHash == parent.hash && child.parent == Some(parent)
    && SameFork(child.storage, parent.storage) && child.storage.Valid()
    && child.storage.currentBlockNumber == parent.storage.currentBlockNumber
    && child.storage.NothingPending()
  }

  /** What comes after the body of a build, and what the build comes to. */
  method CompleteBuild(builder: BlockBuilder, ghost host: Host, ghost code: Bytes, ghost header: Bytes,
                       ghost parent: Block,
                       included: seq<Bytes>, failed: seq<FailedExtrinsic>, ghost extrinsics: seq<Bytes>,
                           ghost upgraded: bool,
                       ghost fork: nat, ghost before: Ledger, ghost mid: Ledger, ghost prepared: Prepared,
                           ghost applied: Applied)
    returns (r: Result<BuildBlockResult, BuilderError>, ghost diff: seq<Entry>)
    requires builder.Valid() && builder.phase == InherentsApplied
    requires builder.host == host && builder.code == code && builder.parent == parent
    requires fork == parent.storage.forkNumber && mid == parent.storage.shared.Snapshot()
    requires BodyDone(fork, host, code, header, extrinsics, upgraded, parent, before, mid, builder.extrinsics,
        prepared, applied)
    requires (included, failed) == (applied.included, applied.failed)
    modifies parent.storage`currentBlockNumber
    modifies parent.storage.shared, parent.storage.parent.rpc, parent.storage.parent.cache
    ensures parent.storage.Valid()
    ensures parent.storage.currentBlockNumber == parent.number + if r.Success? then 2 else 1
    ensures Recorded(parent.number + 1, before, parent.storage.shared.Snapshot(), diff)
    ensures r.Success? ==>
      && Finished(fork, host, code, header, extrinsics, upgraded,
                  before, parent.storage.shared.Snapshot(), diff, r.value)
      && ExtendsFork(parent, r.value.block) && fresh(r.value.block.storage)
    ensures r.Success? ==> Buildable(fork, host, code, header, extrinsics, parent, before)
    ensures parent.storage.Serves() && r.Failure? ==>
      !Buildable(fork, host, code, header, extrinsics, parent, before)
  {
    ghost var body := builder.extrinsics;
    var block;
    ghost var final;
    block, final := FinishBuild(builder, fork, mid);
    BuildEnds(fork, host, code, header, extrinsics, upgraded, parent.storage.Serves(), parent, before, mid,
              parent.storage.shared.Snapshot(), body, prepared, applied, final,
              if block.Success? then Some(block.value) else None);
    diff := prepared.diff + applied.diff + final;
    if block.Failure? {
      return Failure(block.error), diff;
    }
    return Success(BuildBlockResult(block.value, included, failed)), diff;
  }

  /** The whole sequence of a build: preparation, user extrinsics, finalization and commit. */
  method RunBuild(parent: Block, host: Host, code: Bytes, ghost info: Parent, header: Bytes,
                  extrinsics: seq<Bytes>, ghost fork: nat, ghost before: Ledger)
    returns (r: Result<BuildBlockResult, BuilderError>, upgraded: bool, ghost diff: seq<Entry>)
    requires parent.storage.Valid() && parent.storage.currentBlockNumber == parent.number + 1
    requires VersionAt(parent.storage.shared.metadataVersions, parent.number).Some?
    requires info == AsParent(parent, VersionAt(parent.storage.shared.metadataVersions, parent.number).value)
    requires fork == parent.storage.forkNumber && before == parent.storage.shared.Snapshot()
    modifies parent.storage`currentBlockNumber
    modifies parent.storage.shared, parent.storage.parent.rpc, parent.storage.parent.cache
    ensures parent.storage.Valid()
    ensures parent.storage.currentBlockNumber == parent.number + if r.Success? then 2 else 1
    ensures Recorded(parent.number + 1, before, parent.storage.shared.Snapshot(), diff)
    ensures r.Success? ==>
      && Finished(fork, host, code, header, extrinsics, upgraded,
                  before, parent.storage.shared.Snapshot(), diff, r.value)
      && ExtendsFork(parent, r.value.block) && fresh(r.value.block.storage)
    ensures r.Success? ==> Buildable(fork, host, code, header, extrinsics, parent, before)
    ensures parent.storage.Serves() && r.Failure? ==>
      !Buildable(fork, host, code, header, extrinsics, parent, before)
  {
    var builder := new BlockBuilder(parent, code, header, host);
    ghost var prepared, applied;
    var body;
    body, upgraded, diff, prepared, applied := RunBody(builder, info, extrinsics, fork, before);
    if body.Failure? {
      PlainlyRecorded(before, parent.number + 1, diff);
      if parent.storage.Serves() {
        assert !Buildable(fork, host, code, header, extrinsics, parent, before) by {
          assert Knock(0);
          NoBodyNoBuild(host, code, info, header, extrinsics, before.working);
        }
      }
      return Failure(body.error), upgraded, diff;
    }
    ghost var mid, inherentsAndMore := parent.storage.shared.Snapshot(), builder.extrinsics;
    assert BodyDone(fork, host, code, header, extrinsics, upgraded, parent, before, mid, inherentsAndMore, prepared,
        applied) by {
      BodyIsDone(fork, host, code, info, header, extrinsics, upgraded, parent, before, mid, inherentsAndMore, diff,
          prepared, applied);
    }
    r, diff := CompleteBuild(builder, host, code, header, parent, body.value.0, body.value.1, extrinsics, upgraded,
        fork,
                             before, mid, prepared, applied);
  }

  class Blockchain {
    const host: Host
    const remote: RemoteStorageLayer
    const forkPointNumber: nat
    var head: Block
    /** The code the cached executor was compiled from. */
    var executor: Bytes

    constructor (host: Host, forkBlock: Block, executor: Bytes)
      requires forkBlock.storage.Valid() && forkBlock.storage.currentBlockNumber == forkBlock.number + 1
      requires forkBlock.storage.forkNumber == forkBlock.number && forkBlock.parent.None?
      ensures Valid() && head == forkBlock && this.host == host && this.executor == executor
      ensures forkPointNumber == forkBlock.number && remote == forkBlock.storage.parent
    {
      this.host, this.executor := host, executor;
      head, forkPointNumber, remote := forkBlock, forkBlock.number, forkBlock.storage.parent;
    }

    /** The block's layer works on the block after it, and the local chain below it is unbroken. */
    ghost predicate Installable(b: Block)
      reads b.storage, b.storage.shared, b.storage.parent.cache
    {
      && b.storage.Valid() && b.storage.currentBlockNumber == b.number + 1
      && b.storage.parent == remote && b.storage.forkNumber == forkPointNumber <= b.number
      && Linked(b, forkPointNumber)
    }

    ghost predicate Valid()
      reads this, head.storage, head.storage.shared, head.storage.parent.cache
    {
      Installable(head)
    }

    /** The state at a block of the fork, from the fork point and the diffs of the blocks above it. */
    ghost function StateOf(block: nat): State
      requires forkPointNumber <= block
      reads this, head.storage, head.storage.shared
    {
      StateAt(forkPointNumber, head.storage.Base(), head.storage.shared.log, block)
    }

    // ---- Building ----

    /** The optimistic check: the head is replaced only if it is still the one that was captured. */
    method CommitHead(block: Block, parentHash: Hash, newExecutor: Option<Bytes>) returns (committed: bool)
      modifies this`head, this`executor
      ensures committed <==> old(head).hash == parentHash
      ensures head == (if committed then block else old(head))
      ensures executor == if committed && newExecutor.Some? then newExecutor.value else old(executor)
    {
      if head.hash != parentHash {
        return false;
      }
      head := block;
      if newExecutor.Some? {
        executor := newExecutor.value;
      }
      return true;
    }

    /** After an upgrade in the block just built, the executor is recompiled from that block's code. Failing
        to read or compile it does not fail the build. */
    method PrepareExecutor(block: Block, upgraded: bool) returns (code: Option<Bytes>)
      requires block.storage.Valid() && block.storage.currentBlockNumber == block.number + 1
      requires block.storage.NothingPending() && block.number > block.storage.forkNumber
      modifies block.storage.parent.rpc, block.storage.parent.cache`storage,
               block.storage.parent.cache`prefixScans, block.storage.parent.cache`blocks
      ensures block.storage.Valid()
      ensures Recompiled(host, upgraded, block.storage.Serves(), block.storage.shared.Snapshot(), code)
    {
      if !upgraded {
        return None;
      }
      var read := block.storage.Get(block.number, CODE);
      if read.Failure? {
        return None;
      }
      var value := Flat(read.value);
      block.storage.SettledReads(CODE, block.number, value);
      return if value.Some? && host.compiles(value.value) then value else None;
    }

    /** Builds on a clone of the head's layer. The head itself does not move yet. */
    method BuildOnHead(extrinsics: seq<Bytes>, header: Bytes)
      returns (r: Result<BuildBlockResult, BuilderError>, upgraded: bool, ghost diff: seq<Entry>)
      requires Valid()
      modifies head.storage.shared, remote.rpc, remote.cache
      ensures r.Failure? ==> Valid()
      ensures Recorded(old(head.number) + 1, old(head.storage.shared.Snapshot()), head.storage.shared.Snapshot(), diff)
      ensures r.Success? ==>
        && Installable(r.value.block) && r.value.block.storage.NothingPending() && Follows(r.value.block, head)
        && Finished(forkPointNumber, host, executor, header, extrinsics, upgraded,
                    old(head.storage.shared.Snapshot()), head.storage.shared.Snapshot(), diff, r.value)
      ensures r.Success? ==>
        Buildable(forkPointNumber, host, executor, header, extrinsics, head, old(head.storage.shared.Snapshot()))
      ensures head.storage.Serves() && r.Failure? ==>
        !Buildable(forkPointNumber, host, executor, header, extrinsics, head, old(head.storage.shared.Snapshot()))
    {
      ghost var before := head.storage.shared.Snapshot();
      var parent := CaptureHead();
      assert parent.number == head.number;
      ghost var info := AsParent(parent, VersionAt(parent.storage.shared.metadataVersions, parent.number).value);
      r, upgraded, diff := RunBuild(parent, host, executor, info, header, extrinsics, forkPointNumber, before);
      BuildableOnCapture(forkPointNumber, host, executor, header, extrinsics, parent, head, before);
      if r.Success? {
        ChildExtends(parent, r.value.block);
      } else {
        CloneStands(parent.storage);
      }
    }

    /** A clone of the head block: the same block over the same fork, with a layer of its own. */
    method CaptureHead() returns (captured: Block)
      requires Valid()
      ensures Valid() && captured == head.(storage := captured.storage) && fresh(captured.storage)
      ensures SameFork(captured.storage, head.storage) && captured.storage.Valid()
      ensures captured.storage.currentBlockNumber == head.number + 1
      ensures VersionAt(captured.storage.shared.metadataVersions, head.number).Some?
    {
      var layer := new LocalStorageLayer.Clone(head.storage);
      CloneValid(head.storage, layer);
      layer.MetadataKnown();
      captured := head.(storage := layer);
    }

    /** The layer of an abandoned build and the head's own layer are in the same state. */
    lemma CloneStands(layer: LocalStorageLayer)
      requires SameFork(layer, head.storage) && layer.Valid()
          && layer.currentBlockNumber == head.storage.currentBlockNumber
      requires head.storage.currentBlockNumber == head.number + 1
      requires head.storage.parent == remote && head.storage.forkNumber == forkPointNumber <= head.number
      requires Linked(head, forkPointNumber)
      ensures Valid()
    {
      CloneValid(layer, head.storage);
    }

    lemma ChildExtends(parent: Block, child: Block)
      requires ExtendsFork(parent, child) && child.number == parent.number + 1
      requires parent.storage.currentBlockNumber == parent.number + 2
      requires parent == head.(storage := parent.storage) && SameFork(parent.storage, head.storage)
      requires head.storage.parent == remote && head.storage.forkNumber == forkPointNumber <= head.number
      requires Linked(head, forkPointNumber)
      ensures Installable(child) && child.storage.NothingPending() && Follows(child, head)
    {
      assert Linked(parent, forkPointNumber);
    }

    /** The block is the next one after `h`, over the same fork. */
    ghost predicate Follows(b: Block, h: Block) {
      && SameFork(b.storage, h.storage) && b.number == h.number + 1
      && b.parent.Some? && b.parent.value == h.(storage := b.parent.value.storage)
    }

    /** The new executor is prepared before the head moves, and both change together. */
    method Install(block: Block, upgraded: bool, parentHash: Hash) returns (committed: bool, ghost code: Option<Bytes>)
      requires Installable(block) && block.storage.NothingPending() && block.number > forkPointNumber
      modifies this`head, this`executor, remote.rpc, remote.cache`storage, remote.cache`prefixScans, remote.cache`blocks
      ensures committed <==> old(head).hash == parentHash
      ensures head == if committed then block else old(head)
      ensures Installable(block) && block.storage.NothingPending()
      ensures Recompiled(host, upgraded, block.storage.Serves(), block.storage.shared.Snapshot(), code)
      ensures executor == if committed && code.Some? then code.value else old(executor)
    {
      var newExecutor := PrepareExecutor(block, upgraded);
      code := newExecutor;
      committed := CommitHead(block, parentHash, newExecutor);
    }

    /** Builds on the head and installs the block. `header` is the encoded header handed to the runtime. */
    method BuildBlock(extrinsics: seq<Bytes>, header: Bytes)
      returns (r: Result<BuildBlockResult, BlockchainError>, ghost diff: seq<Entry>, ghost upgraded: bool,
          ghost code: Option<Bytes>)
      requires Valid()
      modifies this`head, this`executor, head.storage.shared, remote.rpc, remote.cache
      ensures Valid()
      ensures Recorded(old(head.number) + 1, old(head.storage.shared.Snapshot()), head.storage.shared.Snapshot(), diff)
      ensures r.Failure? ==> head == old(head) && executor == old(executor)
      ensures r.Success? ==>
        && r.value.block == head && head.storage.NothingPending() && Follows(head, old(head))
        && Finished(forkPointNumber, host, old(executor), header, extrinsics, upgraded,
                    old(head.storage.shared.Snapshot()), head.storage.shared.Snapshot(), diff, r.value)
        && Recompiled(host, upgraded, old(head.storage.Serves()), head.storage.shared.Snapshot(), code)
        && executor == if code.Some? then code.value else old(executor)
      ensures r.Success? ==> Buildable(forkPointNumber, host, old(executor), header, extrinsics, old(head),
                                       old(head.storage.shared.Snapshot()))
      ensures old(head.storage.Serves()) && r.Failure? ==>
        !Buildable(forkPointNumber, host, old(executor), header, extrinsics, old(head),
                   old(head.storage.shared.Snapshot()))
    {
      var parentHash := head.hash;
      var built, seen;
      built, seen, diff := BuildOnHead(extrinsics, header);
      upgraded, code := seen, None;
      ghost var shared := head.storage.shared;
      ghost var after := shared.Snapshot();
      if built.Failure? {
        return Failure(Builder(built.error)), diff, upgraded, code;
      }
      var committed;
      committed, code := Install(built.value.block, seen, parentHash);
      assert head.storage.shared == shared && shared.Snapshot() == after;
      r := if committed then Success(built.value) else Failure(ConcurrentBlockBuild);
    }

    // ---- Reads ----

    /** Reads at any block, with one reconnect and one retry: at a fork-local block what the layer reads there,
        elsewhere what memory answers by itself, and failing that what the canonical chain has. */
    method StorageAt(block: nat, key: Bytes) returns (r: Result<Option<Bytes>, BlockchainError>)
      requires Valid()
      modifies remote.rpc, remote.cache`storage, remote.cache`prefixScans, remote.cache`blocks
      ensures Valid()
      ensures head.storage.Serves() && forkPointNumber < block <= head.number + 1 ==> r.Success?
      ensures !(forkPointNumber < block <= head.number + 1) && head.storage.HasBlock(block) ==> r.Success?
      ensures r.Success? && forkPointNumber < block <= head.number + 1 ==>
        r.value == Versioning.Get(head.storage.View(), key, block)
      ensures r.Success? && !(forkPointNumber < block <= head.number + 1) ==>
        var local := LocalModification(head.storage.View(), key, block);
        if local.Some? then r.value == local.value
        else if block in remote.rpc.canonical then
          && remote.rpc.canonical[block] in remote.rpc.upstream
          && r.value == Lookup(remote.rpc.upstream[remote.rpc.canonical[block]], key)
        else r.value.None?
      ensures r.Success? && block == forkPointNumber && head.storage.ForkedFromCanonical() ==>
        (Clean(head.storage.shared.log, key) ==> r.value == Lookup(head.storage.Base(), key))
      ensures r.Success? && forkPointNumber < block <= head.number && Clean(head.storage.shared.log, key) ==>
        r.value == Lookup(StateOf(block), key)
      ensures r.Success? && forkPointNumber < block <= head.number && Seeded(head.storage.shared.log, key) ==>
        r.value == SeededRead(head.storage.shared.log, head.storage.Base(), key, block)
    {
      var read := head.storage.Get(block, key);
      if read.Failure? {
        var again := remote.rpc.Reconnect();
        if again.Failure? {
          return Failure(Local(read.error));
        }
        read := head.storage.Get(block, key);
        if read.Failure? {
          return Failure(Local(read.error));
        }
      }
      var value := Flat(read.value);
      if block == forkPointNumber && head.storage.ForkedFromCanonical() && Clean(head.storage.shared.log, key) {
        head.storage.ForkPointReads(key, value);
      }
      return Success(value);
    }

    // ---- Runs of builds ----

    /** No block was built and no build left anything behind; initial state may have been injected. */
    ghost predicate Fresh()
      reads this, head.storage, head.storage.shared
    {
      && head.number == forkPointNumber && OnlyInjected(head.storage.shared.log)
      && forall b :: b in head.storage.shared.metadataVersions ==> b <= forkPointNumber
    }

    lemma FreshStart(key: Bytes)
      requires Valid() && Fresh()
      ensures StartsFrom(head.storage.Base(), head.storage.shared.working, head.storage.shared.log, key)
    {
      head.storage.WorkingReads(key);
      NoInjectedWrites(head.storage.shared.log, key);
    }

    /** One build of a run, with the record of it. */
    method BuildNext(input: BlockInput, ghost n: nat, ghost before: Ledger, ghost serves: bool)
      returns (r: Result<(), BlockchainError>, ghost next: Option<BuildRecord>, ghost after: Ledger)
      requires Valid() && n == head.number && before == head.storage.shared.Snapshot()
          && serves == head.storage.Serves()
      modifies this`head, this`executor, head.storage.shared, remote.rpc, remote.cache
      ensures Valid() && SameFork(head.storage, old(head.storage))
      ensures r.Failure? ==> head == old(head) && executor == old(executor)
      ensures r.Success? ==>
        && next.Some?
        && var b := next.value;
        && BuiltNext(forkPointNumber, host, serves, n, before, after, b) && after == head.storage.shared.Snapshot()
        && b.code == old(executor) && executor == b.NextCode() && head.number == n + 1
        && b.extrinsics == input.extrinsics && b.header == input.header && b.result.block == head
        && IsParent(b.result.block.parent, old(head))
      ensures r.Success? ==>
          Buildable(forkPointNumber, host, old(executor), input.header, input.extrinsics, old(head), before)
      ensures serves && r.Failure? ==>
        !Buildable(forkPointNumber, host, old(executor), input.header, input.extrinsics, old(head), before)
    {
      ghost var code := executor;
      var built;
      ghost var diff, upgraded, compiled;
      built, diff, upgraded, compiled := BuildBlock(input.extrinsics, input.header);
      after := head.storage.shared.Snapshot();
      if built.Success? {
        next := Some(BuildRecord(code, input.header, input.extrinsics, upgraded, diff, built.value, compiled));
        assert next.value.NextCode() == executor;
        r := Success(());
      } else {
        r, next := Failure(built.error), None;
      }
    }

    /** A client that builds block after block on a fresh fork and stops at the first failure. The ledgers
        are what the shared state was before the first build and after each finished one. */
    method BuildBlocks(inputs: seq<BlockInput>)
      returns (r: Result<(), BlockchainError>, ghost ledgers: seq<Ledger>, ghost builds: seq<BuildRecord>)
      requires Valid() && Fresh()
      modifies this`head, this`executor, head.storage.shared, remote.rpc, remote.cache
      ensures Valid() && SameFork(head.storage, old(head.storage)) && |builds| <= |inputs|
      ensures head.number == forkPointNumber + |builds| && |ledgers| == |builds| + 1
      ensures RunOf(forkPointNumber, host, old(head.storage.Serves()), old(head.storage.shared.Snapshot()),
                    old(executor), inputs[..|builds|], ledgers, builds, executor)
      ensures r.Success? <==> |builds| == |inputs|
      ensures r.Success? ==> ledgers[|builds|] == head.storage.shared.Snapshot()
      ensures old(head.storage.Serves()) && r.Failure? ==>
        var next := inputs[|builds|];
        !Buildable(forkPointNumber, host, executor, next.header, next.extrinsics, head, ledgers[|builds|])
    {
      ghost var start, serves := head.storage.shared.Snapshot(), head.storage.Serves();
      ghost var code := executor;
      ledgers, builds := [start], [];
      NothingBuilt(forkPointNumber, host, serves, start, code);
      for i := 0 to |inputs|
        invariant Valid() && head.number == forkPointNumber + i && |builds| == i
        invariant SameFork(head.storage, old(head.storage))
        invariant i > 0 ==> builds[i - 1].result.block == head
        invariant |ledgers| == i + 1 && ledgers[i] == head.storage.shared.Snapshot()
        invariant RunOf(forkPointNumber, host, serves, start, code, inputs[..i], ledgers, builds, executor)
      {
        ghost var n, before := head.number, head.storage.shared.Snapshot();
        ghost var running, next, after := executor, None, before;
        r, next, after := BuildNext(inputs[i], n, before, serves);
        if r.Failure? {
          return r, ledgers, builds;
        }
        RunGoesOn(forkPointNumber, host, serves, start, code, inputs, i, ledgers, builds, n, before, running,
                  after, next.value);
        ledgers, builds := ledgers + [after], builds + [next.value];
      }
      assert inputs[..|inputs|] == inputs;
      r := Success(());
    }

    /** After such a run a block reads as its state in the final history, unless the key was injected and
        written only after that block. */
    method ReadBack(block: nat, key: Bytes, ghost start: State, ghost ledgers: seq<Ledger>,
                    ghost builds: seq<BuildRecord>)
      returns (r: Result<Option<Bytes>, BlockchainError>)
      requires Valid() && RecordedInSequence(forkPointNumber, start, ledgers, builds)
      requires StartsFrom(head.storage.Base(), start, ledgers[0].log, key)
      requires ledgers[|builds|] == head.storage.shared.Snapshot() && head.number == forkPointNumber + |builds|
      requires forkPointNumber < block <= head.number
      modifies remote.rpc, remote.cache`storage, remote.cache`prefixScans, remote.cache`blocks
      ensures Valid()
      ensures head.storage.Serves() ==> r.Success?
      ensures r.Success? ==> r.value == SeededRead(head.storage.shared.log, head.storage.Base(), key, block)
      ensures ReadsState(forkPointNumber, head.storage.Base(), start, head.storage.shared.log, key, block, head.number)
    {
      BlocksReadTheirState(forkPointNumber, head.storage.Base(), start, ledgers, builds, block, key);
      BuildsMakeRunLog(forkPointNumber, start, ledgers, builds, |builds|);
      RunLogSeeded(forkPointNumber, head.number, head.storage.shared.log, key);
      r := StorageAt(block, key);
    }

    // ---- Lookups along the chain ----

    /** Local from the fork point to the head, unknown above the head, the node's answer below. */
    method BlockHashAt(number: nat) returns (r: Result<Option<Hash>, BlockchainError>)
      requires Valid()
      modifies remote.rpc
      ensures forkPointNumber <= number <= head.number ==>
        FindByNumber(head, number).Some? && r == Success(Some(FindByNumber(head, number).value.hash))
      ensures number > head.number ==> r == Success(None)
      ensures number < forkPointNumber && r.Success? ==>
        r.value == if number in remote.rpc.canonical then Some(remote.rpc.canonical[number]) else None
      ensures number < forkPointNumber && remote.rpc.reachable ==> r.Success?
    {
      if head.number < number {
        return Success(None);
      }
      if forkPointNumber <= number {
        FoundByNumber(head, forkPointNumber, number);
      } else {
        NothingBelowFork(head, forkPointNumber, number);
      }
      var current := Some(head);
      while current.Some?
        invariant FindByNumber(head, number) == if current.Some? then FindByNumber(current.value, number) else None
        decreases current
      {
        if current.value.number == number {
          return Success(Some(current.value.hash));
        }
        current := current.value.parent;
      }
      var found := remote.rpc.BlockHashAt(number);
      if found.Failure? {
        var again := remote.rpc.Reconnect();
        if again.Failure? {
          return Failure(Node(found.error));
        }
        found := remote.rpc.BlockHashAt(number);
      }
      return OrNodeError(found);
    }

    method FindLocal(hash: Hash) returns (found: Option<Block>)
      ensures found == FindByHash(head, hash)
    {
      var current := Some(head);
      while current.Some?
        invariant FindByHash(head, hash) == if current.Some? then FindByHash(current.value, hash) else None
        decreases current
      {
        if current.value.hash == hash {
          return current;
        }
        current := current.value.parent;
      }
      return None;
    }

    method UpstreamHeader(hash: Hash) returns (r: Result<Option<ChainHeader>, BlockchainError>)
      modifies remote.rpc
      ensures remote.rpc.reachable ==> r.Success?
      ensures r.Success? ==> r.value == if hash in remote.rpc.headers then Some(remote.rpc.headers[hash]) else None
    {
      var found := remote.rpc.BlockByHash(hash);
      if found.Failure? {
        var again := remote.rpc.Reconnect();
        if again.Failure? {
          return Failure(Node(found.error));
        }
        found := remote.rpc.BlockByHash(hash);
      }
      return OrNodeError(found);
    }

    /** A local block answers before upstream does. */
    ghost function NumberOf(hash: Hash): Option<nat>
      reads this
    {
      var local := FindByHash(head, hash);
      if local.Some? then Some(local.value.number)
      else if hash in remote.rpc.headers then Some(remote.rpc.headers[hash].number)
      else None
    }

    method BlockNumberByHash(hash: Hash) returns (r: Result<Option<nat>, BlockchainError>)
      modifies remote.rpc
      ensures FindByHash(head, hash).Some? || remote.rpc.reachable ==> r.Success?
      ensures r.Success? ==> r.value == NumberOf(hash)
      ensures FindByHash(head, hash).Some? ==> r == Success(Some(FindByHash(head, hash).value.number))
      ensures FindByHash(head, hash).None? && r.Success? ==>
        r.value == if hash in remote.rpc.headers then Some(remote.rpc.headers[hash].number) else None
    {
      var local := FindLocal(hash);
      if local.Some? {
        return Success(Some(local.value.number));
      }
      var header := UpstreamHeader(hash);
      if header.Failure? {
        return Failure(header.error);
      }
      return Success(if header.value.Some? then Some(header.value.value.number) else None);
    }

    method BlockParentHash(hash: Hash) returns (r: Result<Option<Hash>, BlockchainError>)
      modifies remote.rpc
      ensures FindByHash(head, hash).Some? ==> r == Success(Some(FindByHash(head, hash).value.parentHash))
      ensures remote.rpc.reachable ==> r.Success?
      ensures FindByHash(head, hash).None? && r.Success? ==>
        r.value == if hash in remote.rpc.headers then Some(remote.rpc.headers[hash].parentHash) else None
    {
      var local := FindLocal(hash);
      if local.Some? {
        return Success(Some(local.value.parentHash));
      }
      var header := UpstreamHeader(hash);
      if header.Failure? {
        return Failure(header.error);
      }
      return Success(if header.value.Some? then Some(header.value.value.parentHash) else None);
    }

    // ---- Paged listings ----

    /** The block a listing is asked of: the head unless another one is named. */
    function Asked(at: Option<Hash>): (hash: Hash)
      reads this
      ensures at == Some(hash) || (at.None? && hash == head.hash)
    {
      if at.Some? then at.value else head.hash
    }

    /** The node or the fork numbers the block above the fork point, and so it is listed here. */
    ghost predicate ListedLocally(hash: Hash)
      reads this
    {
      NumberOf(hash).Some? && NumberOf(hash).value > forkPointNumber
    }

    /** What is listed for it. */
    ghost function Listing(prefix: Bytes, hash: Hash): (keys: seq<Bytes>)
      requires ListedLocally(hash)
      reads this, head.storage, head.storage.shared, head.storage.parent.cache
      ensures Ascending(keys)
    {
      Sorted(KeysAt(head.storage.View(), head.storage.Empties(prefix), prefix, NumberOf(hash).value))
    }

    /** The block listed is the block asked for exactly when the fork has that block. When only the node knows
        it, the listing is that of another local block with its number, or above the head that of the working
        block. */
    lemma ListedBlock(prefix: Bytes, hash: Hash)
      requires Valid() && ListedLocally(hash)
      ensures var n := NumberOf(hash).value;
              && (FindByHash(head, hash).Some?
                  <==> FindByNumber(head, n).Some? && FindByNumber(head, n).value.hash == hash)
              && (n <= head.number ==> FindByNumber(head, n).Some?)
              && (n > head.number ==>
                    FindByHash(head, hash).None? && Listing(prefix, hash)
                      == Sorted(KeysAt(head.storage.View(), head.storage.Empties(prefix), prefix, head.number + 1)))
    {
      var n := NumberOf(hash).value;
      NumbersFindBack(head, forkPointNumber, hash);
      if FindByNumber(head, n).Some? {
        FoundByNumberHasHash(head, n);
        FoundByHashIffPresent(head, hash);
      }
      if n <= head.number {
        FoundByNumber(head, forkPointNumber, n);
      }
    }

    /** At a block numbered after the fork point, a page of the merged listing of that block; otherwise
        upstream's own page. */
    method StorageKeysPaged(prefix: Bytes, count: nat, start: Option<Bytes>, at: Option<Hash>)
      returns (r: Result<seq<Bytes>, BlockchainError>)
      requires Valid()
      modifies remote.rpc, remote.cache`storage, remote.cache`prefixScans
      ensures Valid() && head.storage.Empties(prefix) == old(head.storage.Empties(prefix))
      ensures head.storage.Serves() && (ListedLocally(Asked(at)) || Asked(at) in remote.rpc.upstream) ==> r.Success?
      ensures r.Success? ==> |r.value| <= count
      ensures ListedLocally(Asked(at)) ==> Listing(prefix, Asked(at)) == old(Listing(prefix, Asked(at)))
      ensures r.Success? && ListedLocally(Asked(at)) ==> r.value == PageOf(Listing(prefix, Asked(at)), count, start)
      ensures r.Success? && (NumberOf(Asked(at)).None? || NumberOf(Asked(at)).value <= forkPointNumber) ==>
        Asked(at) in remote.rpc.upstream && r.value == Page(remote.rpc.upstream[Asked(at)], prefix, count, start)
    {
      var hash := Asked(at);
      var number := BlockNumberByHash(hash);
      if number.Failure? {
        return Failure(number.error);
      }
      if number.value.Some? && number.value.value > forkPointNumber {
        var all := head.storage.KeysByPrefix(prefix, number.value.value);
        if all.Failure? {
          return Failure(Local(all.error));
        }
        return Success(PageOf(all.value, count, start));
      }
      var page := remote.FetchPage(hash, prefix, count, start);
      if page.Failure? {
        return Failure(Node(page.error));
      }
      return Success(page.value);
    }

    /** The whole listing at once; below the fork point the keys the cache ends up with, in no promised order. */
    method StorageKeysByPrefix(prefix: Bytes, at: Hash) returns (r: Result<seq<Bytes>, BlockchainError>)
      requires Valid()
      modifies remote.rpc, remote.cache`storage, remote.cache`prefixScans
      ensures Valid()
      ensures head.storage.Serves() && (ListedLocally(at) || at in remote.rpc.upstream) ==> r.Success?
      ensures r.Success? && ListedLocally(at) ==> r.value == Listing(prefix, at) == old(Listing(prefix, at))
      ensures r.Success? && (NumberOf(at).None? || NumberOf(at).value <= forkPointNumber) ==>
        && at in remote.rpc.upstream && Distinct(r.value)
        && forall k :: k in r.value <==>
             k in KeysAfter(remote.rpc.upstream[at], prefix, None) + CachedEmpty(old(remote.cache.storage), at, prefix)
    {
      var number := BlockNumberByHash(at);
      if number.Failure? {
        return Failure(number.error);
      }
      if number.value.Some? && number.value.value > forkPointNumber {
        var all := head.storage.KeysByPrefix(prefix, number.value.value);
        return if all.Success? then Success(all.value) else Failure(Local(all.error));
      }
      head.storage.Open();
      var keys := remote.GetKeys(at, prefix);
      return if keys.Success? then Success(keys.value) else Failure(Local(Remote(keys.error)));
    }

    /** One call of a client that lists all keys page by page. */
    method NextPage(prefix: Bytes, count: nat, start: Option<Bytes>, at: Option<Hash>, keys: seq<Bytes>,
                    ghost all: seq<Bytes>)
      returns (r: Result<seq<Bytes>, BlockchainError>)
      requires Valid() && ListedLocally(Asked(at)) && all == Listing(prefix, Asked(at))
      requires count > 0 && Underway(all, count, start, keys)
      modifies remote.rpc, remote.cache`storage, remote.cache`prefixScans
      ensures Valid() && ListedLocally(Asked(at)) && all == Listing(prefix, Asked(at))
      ensures head.storage.Serves() ==> r.Success?
      ensures r.Success? ==>
        PageTaken(all, count, start, keys, r.value)
    {
      r := StorageKeysPaged(prefix, count, start, at);
      assert r.Success? ==> r.value == PageOf(all, count, start);
      NextPageUnderway(all, count, start, keys);
    }

    /** A client that asks for page after page from the last key it got, until a page is empty: the calls come to
        an end, and together they return the whole listing. */
    method ListAll(prefix: Bytes, count: nat, at: Option<Hash>) returns (r: Result<seq<Bytes>, BlockchainError>)
      requires Valid() && ListedLocally(Asked(at)) && count > 0
      modifies remote.rpc, remote.cache`storage, remote.cache`prefixScans
      ensures Valid()
      ensures head.storage.Serves() ==> r.Success?
      ensures r.Success? ==> ListedLocally(Asked(at)) && r.value == old(Listing(prefix, Asked(at)))
    {
      ghost var all := Listing(prefix, Asked(at));
      var start, keys := None, [];
      PaginationComplete(all, count);
      while true
        invariant Valid() && ListedLocally(Asked(at)) && all == Listing(prefix, Asked(at))
        invariant Underway(all, count, start, keys)
        decreases |After(all, start)|
      {
        var page := NextPage(prefix, count, start, at, keys, all);
        if page.Failure? || page.value == [] {
          return if page.Failure? then page else Success(keys);
        }
        keys, start := keys + page.value, Some(page.value[|page.value| - 1]);
      }
    }
  }
}
