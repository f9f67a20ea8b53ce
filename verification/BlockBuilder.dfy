/** The phase machine that builds a block on the storage of its parent. */
module BlockBuilder {
  import opened Wrappers
  import opened ByteStrings
  import opened Upstream
  import opened IntervalTable
  import opened Versioning
  import opened MetadataHistory
  import opened LocalStorage
  import opened BlockBuilding
  import opened Blocks

  datatype BuilderPhase = Created | Initialized | InherentsApplied

  datatype BuilderError =
    | AlreadyInitialized | NotInitialized | InherentsAlreadyApplied | InherentsNotApplied
    | Executor | InherentProvider | Codec | Storage(storage: LocalError)

  datatype ApplyExtrinsicResult = Included(storageChanges: nat) | DispatchFailed(error: Bytes)

  /** One runtime call on the working state. Which keys it reads on the way is up to the runtime; each read
      may warm the cache or fail. A call may also iterate over keys: it then sees those of the fork point, which
      `IterationMeetsWorkingState` compares with the working state. The fork point does not change while the
      fork lives, so `host.run` may depend on it. */
  method CallRuntime(host: Host, code: Bytes, call: Call, layer: LocalStorageLayer)
    returns (r: Result<CallResult, BuilderError>)
    requires layer.Valid()
    modifies layer.parent.rpc, layer.parent.cache`storage, layer.parent.cache`prefixScans, layer.parent.cache`blocks
    ensures layer.Valid()
    ensures r.Success? ==> host.run(code, call, layer.shared.working) == Some(r.value)
    ensures layer.Serves() ==> (r.Success? <==> host.run(code, call, layer.shared.working).Some?)
    ensures r.Failure? ==> r.error == Executor
  {
    var touched: seq<Bytes> := *;
    layer.AfterForkPoint();
    for i := 0 to |touched|
      invariant layer.Valid()
    {
      var read := layer.Get(layer.currentBlockNumber, touched[i]);
      if read.Failure? {
        return Failure(Executor);
      }
    }
    layer.Open();
    var result := host.run(code, call, WorkingState(layer.View()));
    return if result.Some? then Success(result.value) else Failure(Executor);
  }

  class BlockBuilder {
    const parent: Block
    const host: Host
    const code: Bytes
    const header: Bytes
    var extrinsics: seq<Bytes>
    var phase: BuilderPhase

    constructor (parent: Block, code: Bytes, header: Bytes, host: Host)
      ensures this.parent == parent && this.code == code && this.header == header && this.host == host
      ensures phase == Created && extrinsics == []
    {
      this.parent, this.code, this.header, this.host := parent, code, header, host;
      phase, extrinsics := Created, [];
    }

    /** The builder works on the block right after its parent. */
    ghost predicate Valid()
      reads parent.storage, parent.storage.shared, parent.storage.parent.cache
    {
      parent.storage.Valid() && parent.storage.currentBlockNumber == parent.number + 1
    }

    method Initialize() returns (r: Result<CallResult, BuilderError>)
      requires Valid()
      modifies this`phase, parent.storage.shared`modifications, parent.storage.shared`log, parent.storage.shared`working
      modifies parent.storage.parent.rpc, parent.storage.parent.cache`storage,
               parent.storage.parent.cache`prefixScans, parent.storage.parent.cache`blocks
      ensures Valid()
      ensures old(phase) != Created ==> r == Failure(AlreadyInitialized)
      ensures r.Failure? ==>
        && phase == old(phase) && parent.storage.shared.log == old(parent.storage.shared.log)
        && parent.storage.shared.working == old(parent.storage.shared.working)
      ensures r.Success? ==>
        && old(phase) == Created && phase == Initialized
        && host.run(code, InitializeBlock(header), old(parent.storage.shared.working)) == Some(r.value)
        && parent.storage.shared.log == old(parent.storage.shared.log) + WroteAll(parent.number + 1, r.value.diff)
        && parent.storage.shared.working == Overlay(old(parent.storage.shared.working), r.value.diff)
      ensures old(phase) == Created && parent.storage.Serves() ==>
        (r.Success? <==> host.run(code, InitializeBlock(header), old(parent.storage.shared.working)).Some?)
    {
      if phase != Created {
        return Failure(AlreadyInitialized);
      }
      r := CallRuntime(host, code, InitializeBlock(header), parent.storage);
      if r.Failure? {
        return;
      }
      parent.storage.SetBatch(r.value.diff);
      phase := Initialized;
    }

    /** The parent as the providers see it. */
    ghost function Info(): Parent
      requires VersionAt(parent.storage.shared.metadataVersions, parent.number).Some?
      reads parent.storage.shared`metadataVersions
    {
      AsParent(parent, VersionAt(parent.storage.shared.metadataVersions, parent.number).value)
    }

    /** Asks every provider before anything is applied. */
    method Collect() returns (inherents: Option<seq<Bytes>>)
      requires Valid()
      modifies parent.storage.parent.rpc
      ensures Valid() && VersionAt(parent.storage.shared.metadataVersions, parent.number).Some?
      ensures inherents == CollectInherents(host.providers, code, Info(), parent.storage.shared.working)
      ensures inherents.Some? <==> AllAnswer(host.providers, code, Info(), parent.storage.shared.working)
      ensures inherents.Some? ==> exists answers ::
        Answer(host.providers, code, Info(), parent.storage.shared.working, answers)
            && inherents.value == Flatten(answers)
    {
      parent.storage.AfterForkPoint();
      var metadata := parent.storage.MetadataAt(parent.number);
      var info := AsParent(parent, metadata.value);
      parent.storage.Open();
      var s := WorkingState(parent.storage.View());
      var all: seq<Bytes> := [];
      EveryProviderAsked(host.providers, code, info, s);
      assert host.providers[0..] == host.providers;
      for i := 0 to |host.providers|
        invariant CollectInherents(host.providers, code, info, s)
               == InFront(all, CollectInherents(host.providers[i..], code, info, s))
      {
        assert host.providers[i..][1..] == host.providers[i + 1..];
        var provided := host.providers[i](code, info, s);
        if provided.None? {
          return None;
        }
        InFrontJoins(all, provided.value, CollectInherents(host.providers[i + 1..], code, info, s));
        all := all + provided.value;
      }
      return Some(all);
    }

    /** Runs one inherent; unless it fails, its diff is written and it joins the body. */
    method ApplyInherent(x: Bytes) returns (r: Result<CallResult, BuilderError>)
      requires Valid()
      modifies this`extrinsics, parent.storage.shared`modifications, parent.storage.shared`log,
               parent.storage.shared`working
      modifies parent.storage.parent.rpc, parent.storage.parent.cache`storage,
               parent.storage.parent.cache`prefixScans, parent.storage.parent.cache`blocks
      ensures Valid()
      ensures r.Success? ==>
        && host.run(code, ApplyExtrinsic(x), old(parent.storage.shared.working)) == Some(r.value)
        && InherentOk(r.value.output)
        && parent.storage.shared.log == old(parent.storage.shared.log) + WroteAll(parent.number + 1, r.value.diff)
        && parent.storage.shared.working == Overlay(old(parent.storage.shared.working), r.value.diff)
        && extrinsics == old(extrinsics) + [x]
      ensures r.Failure? ==>
        && parent.storage.shared.log == old(parent.storage.shared.log)
        && parent.storage.shared.working == old(parent.storage.shared.working) && extrinsics == old(extrinsics)
      ensures parent.storage.Serves() && r.Failure? ==>
        var result := host.run(code, ApplyExtrinsic(x), old(parent.storage.shared.working));
        result.None? || !InherentOk(result.value.output)
    {
      r := CallRuntime(host, code, ApplyExtrinsic(x), parent.storage);
      if r.Failure? {
        return;
      }
      if !InherentOk(r.value.output) {
        return Failure(InherentProvider);
      }
      parent.storage.SetBatch(r.value.diff);
      extrinsics := extrinsics + [x];
    }

    /** Runs inherents on the working state until one fails. */
    method ApplyEachInherent(xs: seq<Bytes>) returns (r: Result<(), BuilderError>, ghost diff: seq<Entry>)
      requires Valid()
      modifies this`extrinsics, parent.storage.shared`modifications, parent.storage.shared`log,
               parent.storage.shared`working
      modifies parent.storage.parent.rpc, parent.storage.parent.cache`storage,
               parent.storage.parent.cache`prefixScans, parent.storage.parent.cache`blocks
      ensures Valid()
      ensures parent.storage.shared.log == old(parent.storage.shared.log) + WroteAll(parent.number + 1, diff)
      ensures parent.storage.shared.working == Overlay(old(parent.storage.shared.working), diff)
      ensures r.Success? ==>
        && extrinsics == old(extrinsics) + xs
        && InherentDiff(host, code, xs, old(parent.storage.shared.working)) == Some(diff)
      ensures parent.storage.Serves() && r.Failure? ==>
        InherentDiff(host, code, xs, old(parent.storage.shared.working)).None?
    {
      ghost var s, log, n := parent.storage.shared.working, parent.storage.shared.log, parent.number + 1;
      diff := [];
      assert log + WroteAll(n, []) == log;
      assert xs[0..] == xs;
      for i := 0 to |xs|
        invariant Valid()
        invariant parent.storage.shared.log == log + WroteAll(n, diff)
               && parent.storage.shared.working == Overlay(s, diff)
        invariant extrinsics == old(extrinsics) + xs[..i]
        invariant InherentDiff(host, code, xs, s) == InFront(diff, InherentDiff(host, code, xs[i..], Overlay(s, diff)))
      {
        var result := ApplyInherent(xs[i]);
        if result.Failure? {
          if parent.storage.Serves() {
            InherentStep(host, code, xs, i, s, diff);
          }
          return Failure(result.error), diff;
        }
        ghost var more := result.value.diff;
        assert InherentDiff(host, code, xs, s)
            == InFront(diff + more, InherentDiff(host, code, xs[i + 1..], Overlay(s, diff + more))) by {
          InherentStep(host, code, xs, i, s, diff);
        }
        assert Overlay(Overlay(s, diff), more) == Overlay(s, diff + more)
            && (log + WroteAll(n, diff)) + WroteAll(n, more) == log + WroteAll(n, diff + more) by {
          JoinLogs(log, n, diff, more);
          OverlayAppend(s, diff, more);
        }
        diff := diff + more;
        assert xs[..i + 1] == xs[..i] + [xs[i]];
      }
      assert xs[..|xs|] == xs && xs[|xs|..] == [];
      return Success(()), diff;
    }

    /** On a relay chain `ParaInherent::Included` is written directly; elsewhere nothing happens. */
    method MockRelayChainInherent() returns (ghost mock: seq<Entry>)
      requires Valid()
      modifies parent.storage.shared`modifications, parent.storage.shared`log, parent.storage.shared`working
      modifies parent.storage.parent.rpc
      ensures Valid()
      ensures VersionAt(parent.storage.shared.metadataVersions, parent.number).Some?
      ensures mock == RelayMock(host, VersionAt(parent.storage.shared.metadataVersions, parent.number).value)
      ensures parent.storage.shared.log == old(parent.storage.shared.log) + WroteAll(parent.number + 1, mock)
      ensures parent.storage.shared.working == Overlay(old(parent.storage.shared.working), mock)
      ensures var metadata := VersionAt(parent.storage.shared.metadataVersions, parent.number).value;
              forall key :: Lookup(parent.storage.shared.working, key)
                == if host.isRelayChain(metadata) && key == host.includedKey then Some([])
                   else Lookup(old(parent.storage.shared.working), key)
    {
      parent.storage.AfterForkPoint();
      var metadata := parent.storage.MetadataAt(parent.number);
      mock := RelayMock(host, metadata.value);
      EmptyBatch(parent.storage.shared.log, parent.number + 1);
      ghost var s := parent.storage.shared.working;
      if host.isRelayChain(metadata.value) {
        parent.storage.Set(host.includedKey, Some([]));
        OverlayOne(s, [], Entry(host.includedKey, Some([])));
        assert [] + [Entry(host.includedKey, Some([]))] == [Entry(host.includedKey, Some([]))];
      }
    }

    /** Any inherent that is not applied and dispatched successfully ends the build. */
    method ApplyInherents() returns (r: Result<(), BuilderError>, ghost inherents: seq<Bytes>, ghost diff: seq<Entry>)
      requires Valid()
      modifies this`phase, this`extrinsics, parent.storage.shared`modifications, parent.storage.shared`log,
               parent.storage.shared`working
      modifies parent.storage.parent.rpc, parent.storage.parent.cache`storage,
               parent.storage.parent.cache`prefixScans, parent.storage.parent.cache`blocks
      ensures Valid()
      ensures old(phase) == Created ==> r == Failure(NotInitialized)
      ensures old(phase) == InherentsApplied ==> r == Failure(InherentsAlreadyApplied)
      ensures old(phase) != Initialized ==> diff == []
      ensures VersionAt(parent.storage.shared.metadataVersions, parent.number).Some?
      ensures parent.storage.shared.log == old(parent.storage.shared.log) + WroteAll(parent.number + 1, diff)
      ensures parent.storage.shared.working == Overlay(old(parent.storage.shared.working), diff)
      ensures r.Failure? ==> phase == old(phase)
      ensures old(phase) == Initialized && parent.storage.Serves() && r.Failure? ==>
        var collected := CollectInherents(host.providers, code, Info(), old(parent.storage.shared.working));
        collected.None? || InherentDiff(host, code, collected.value, old(parent.storage.shared.working)).None?
      ensures r.Success? ==>
        && phase == InherentsApplied && extrinsics == old(extrinsics) + inherents
        && CollectInherents(host.providers, code, Info(), old(parent.storage.shared.working)) == Some(inherents)
        && InherentDiff(host, code, inherents, old(parent.storage.shared.working)).Some?
        && diff == InherentDiff(host, code, inherents, old(parent.storage.shared.working)).value
                   + RelayMock(host, VersionAt(parent.storage.shared.metadataVersions, parent.number).value)
    {
      ghost var s, log, n := parent.storage.shared.working, parent.storage.shared.log, parent.number + 1;
      parent.storage.MetadataKnown();
      inherents, diff := [], [];
      assert log + WroteAll(n, []) == log;
      if phase == Created {
        return Failure(NotInitialized), inherents, diff;
      } else if phase == InherentsApplied {
        return Failure(InherentsAlreadyApplied), inherents, diff;
      }
      var collected := Collect();
      if collected.None? {
        return Failure(InherentProvider), inherents, diff;
      }
      var xs := collected.value;
      inherents := xs;
      r, diff := ApplyEachInherent(xs);
      if r.Failure? {
        return;
      }
      ghost var mock := MockRelayChainInherent();
      assert Overlay(Overlay(s, diff), mock) == Overlay(s, diff + mock)
          && (log + WroteAll(n, diff)) + WroteAll(n, mock) == log + WroteAll(n, diff + mock) by {
        JoinLogs(log, n, diff, mock);
        OverlayAppend(s, diff, mock);
      }
      diff := diff + mock;
      phase := InherentsApplied;
    }

    /** An extrinsic whose outer result is `Ok` leaves its diff and joins the body; any other leaves nothing. */
    method ApplyUserExtrinsic(x: Bytes) returns (r: Result<ApplyExtrinsicResult, BuilderError>)
      requires Valid()
      modifies this`extrinsics, parent.storage.shared`modifications, parent.storage.shared`log,
               parent.storage.shared`working
      modifies parent.storage.parent.rpc, parent.storage.parent.cache`storage,
               parent.storage.parent.cache`prefixScans, parent.storage.parent.cache`blocks
      ensures Valid()
      ensures phase == Created ==> r == Failure(NotInitialized)
      ensures phase == Initialized ==> r == Failure(InherentsNotApplied)
      ensures r.Failure? ==>
        && parent.storage.shared.log == old(parent.storage.shared.log)
        && parent.storage.shared.working == old(parent.storage.shared.working) && extrinsics == old(extrinsics)
      ensures phase == InherentsApplied && parent.storage.Serves() ==>
        (r.Success? <==> host.run(code, ApplyExtrinsic(x), old(parent.storage.shared.working)).Some?)
      ensures r.Success? ==>
        && phase == InherentsApplied && host.run(code, ApplyExtrinsic(x), old(parent.storage.shared.working)).Some?
        && var result := host.run(code, ApplyExtrinsic(x), old(parent.storage.shared.working)).value;
           if OuterOk(result.output) then
             && r.value == ApplyExtrinsicResult.Included(|result.diff|) && extrinsics == old(extrinsics) + [x]
             && parent.storage.shared.log == old(parent.storage.shared.log) + WroteAll(parent.number + 1, result.diff)
             && parent.storage.shared.working == Overlay(old(parent.storage.shared.working), result.diff)
           else
             && r.value == DispatchFailed(result.output) && extrinsics == old(extrinsics)
             && parent.storage.shared.log == old(parent.storage.shared.log)
             && parent.storage.shared.working == old(parent.storage.shared.working)
      ensures r.Success? ==>
        (r.value.Included? <==>
          StartsWith(host.run(code, ApplyExtrinsic(x), old(parent.storage.shared.working)).value.output, [0]))
    {
      if phase == Created {
        return Failure(NotInitialized);
      } else if phase == Initialized {
        return Failure(InherentsNotApplied);
      }
      var called := CallRuntime(host, code, ApplyExtrinsic(x), parent.storage);
      if called.Failure? {
        return Failure(called.error);
      }
      if !OuterOk(called.value.output) {
        return Success(DispatchFailed(called.value.output));
      }
      parent.storage.SetBatch(called.value.diff);
      extrinsics := extrinsics + [x];
      return Success(ApplyExtrinsicResult.Included(|called.value.diff|));
    }

    /** Whether the block has written `:code` so far. */
    method RuntimeUpgraded() returns (upgraded: bool)
      requires Valid()
      ensures upgraded <==> CodeSeenAt(parent.storage.forkNumber, parent.storage.shared.log, parent.number + 1)
    {
      parent.storage.CodeChangeIsLastTouch(parent.storage.currentBlockNumber);
      upgraded := parent.storage.HasCodeChangedAt(parent.storage.currentBlockNumber);
    }

    method RegisterNewMetadata() returns (r: Result<(), BuilderError>)
      requires Valid()
      modifies parent.storage.shared`metadataVersions
      modifies parent.storage.parent.rpc, parent.storage.parent.cache`storage,
               parent.storage.parent.cache`prefixScans, parent.storage.parent.cache`blocks
      ensures Valid()
      ensures r.Failure? ==> parent.storage.shared.metadataVersions == old(parent.storage.shared.metadataVersions)
      ensures KeepsEarlier(old(parent.storage.shared.metadataVersions), parent.storage.shared.metadataVersions,
                           parent.number + 1)
      ensures r.Success? ==>
        Registers(host, code, parent.storage.shared.working, true, parent.number + 1,
                  old(parent.storage.shared.metadataVersions), parent.storage.shared.metadataVersions)
      ensures parent.storage.Serves() ==> (r.Success? <==> ReportsMetadata(host, code, parent.storage.shared.working))
    {
      var called := CallRuntime(host, code, GetMetadata, parent.storage);
      if called.Failure? {
        return Failure(called.error);
      }
      var decoded := host.decodeMetadata(called.value.output);
      if decoded.None? {
        return Failure(Codec);
      }
      parent.storage.RegisterMetadataVersion(parent.storage.currentBlockNumber, decoded.value);
      return Success(());
    }

    /** Runs the finalization and registers the metadata of a runtime that the parent block installed. */
    method RunFinalization() returns (r: Result<Bytes, BuilderError>, ghost diff: seq<Entry>)
      requires Valid()
      modifies parent.storage.shared
      modifies parent.storage.parent.rpc, parent.storage.parent.cache`storage,
               parent.storage.parent.cache`prefixScans, parent.storage.parent.cache`blocks
      ensures Valid()
      ensures parent.storage.shared.log == old(parent.storage.shared.log) + WroteAll(parent.number + 1, diff)
      ensures parent.storage.shared.working == Overlay(old(parent.storage.shared.working), diff)
      ensures KeepsEarlier(old(parent.storage.shared.metadataVersions), parent.storage.shared.metadataVersions,
                           parent.number + 1)
      ensures r.Success? ==>
        && host.run(code, FinalizeBlock, old(parent.storage.shared.working)) == Some(CallResult(r.value, diff))
        && Registers(host, code, parent.storage.shared.working,
                     CodeSeenAt(parent.storage.forkNumber, parent.storage.shared.log, parent.number), parent.number + 1,
                     old(parent.storage.shared.metadataVersions), parent.storage.shared.metadataVersions)
      ensures parent.storage.Serves() && r.Failure? ==>
        CannotFinalize(host, code, old(parent.storage.shared.working),
                       CodeSeenAt(parent.storage.forkNumber, parent.storage.shared.log, parent.number), diff,
                       parent.storage.shared.working)
    {
      diff := [];
      EmptyBatch(parent.storage.shared.log, parent.number + 1);
      var called := CallRuntime(host, code, FinalizeBlock, parent.storage);
      if called.Failure? {
        return Failure(called.error), diff;
      }
      parent.storage.SetBatch(called.value.diff);
      diff := called.value.diff;
      parent.storage.CodeChangeIsLastTouch(parent.number);
      if parent.storage.HasCodeChangedAt(parent.number) {
        var registered := RegisterNewMetadata();
        if registered.Failure? {
          return Failure(registered.error), diff;
        }
      }
      return Success(called.value.output), diff;
    }

    /** Finalizes and commits the block. */
    method Finalize() returns (r: Result<Block, BuilderError>, ghost diff: seq<Entry>)
      requires Valid()
      modifies parent.storage`currentBlockNumber
      modifies parent.storage.shared
      modifies parent.storage.parent.rpc, parent.storage.parent.cache
      ensures parent.storage.Valid()
      ensures phase == Created ==> r == Failure(NotInitialized)
      ensures phase == Initialized ==> r == Failure(InherentsNotApplied)
      ensures parent.storage.shared.log == old(parent.storage.shared.log) + WroteAll(parent.number + 1, diff)
      ensures parent.storage.shared.working == Overlay(old(parent.storage.shared.working), diff)
      ensures KeepsEarlier(old(parent.storage.shared.metadataVersions), parent.storage.shared.metadataVersions,
                           parent.number + 1)
      ensures parent.storage.currentBlockNumber == parent.number + if r.Success? then 2 else 1
      ensures r.Success? ==>
        && phase == InherentsApplied
        && host.run(code, FinalizeBlock, old(parent.storage.shared.working)) == Some(CallResult(r.value.header, diff))
        && Registers(host, code, parent.storage.shared.working,
                     CodeSeenAt(parent.storage.forkNumber, parent.storage.shared.log, parent.number), parent.number + 1,
                     old(parent.storage.shared.metadataVersions), parent.storage.shared.metadataVersions)
        && fresh(r.value.storage) && SameFork(r.value.storage, parent.storage)
        && r.value.storage.Valid() && r.value.storage.currentBlockNumber == parent.storage.currentBlockNumber
        && r.value.storage.NothingPending()
        && r.value == Block(parent.number + 1, host.hashOf(r.value.header), parent.hash, r.value.header, extrinsics,
                            r.value.storage, Some(parent))
      ensures r.Success? ==> parent.number + 1 < U32_MAX
      ensures phase == InherentsApplied && parent.storage.Serves() && r.Failure? ==>
        || parent.number + 1 >= U32_MAX
        || CannotFinalize(host, code, old(parent.storage.shared.working),
                       CodeSeenAt(parent.storage.forkNumber, parent.storage.shared.log, parent.number), diff,
                       parent.storage.shared.working)
    {
      diff := [];
      EmptyBatch(parent.storage.shared.log, parent.number + 1);
      if phase == Created {
        return Failure(NotInitialized), diff;
      } else if phase == Initialized {
        return Failure(InherentsNotApplied), diff;
      }
      var header;
      header, diff := RunFinalization();
      if header.Failure? {
        return Failure(header.error), diff;
      }
      var child := Child(parent, host.hashOf(header.value), header.value, extrinsics);
      if child.Failure? {
        return Failure(Storage(child.error)), diff;
      }
      return Success(child.value), diff;
    }
  }
}
