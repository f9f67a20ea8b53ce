/** What builds leave in the shared state, one build and one run of builds at a time. */
module BuildHistory {
  import opened Wrappers
  import opened ByteStrings
  import opened Upstream
  import opened IntervalTable
  import opened Versioning
  import opened MetadataHistory
  import opened LocalStorage
  import opened BlockBuilding
  import opened Blocks

  datatype BuildBlockResult = BuildBlockResult(block: Block, included: seq<Bytes>, failed: seq<FailedExtrinsic>)

  /** What any build at block `n` records, finished or abandoned. */
  ghost predicate Recorded(n: nat, before: Ledger, after: Ledger, diff: seq<Entry>) {
    && after.log == before.log + WroteAll(n, diff)
    && after.working == Overlay(before.working, diff)
    && KeepsEarlier(before.versions, after.versions, n)
  }

  /** What a build at block `n` means for the states of the fork: earlier blocks keep theirs, and block `n`
      gets the diff on top of what an abandoned build may have left there; when nothing was left, on top of
      the state of block `n - 1`. */
  ghost predicate StatesGrow(fork: nat, base: State, before: seq<Event>, after: seq<Event>, n: nat, diff: seq<Entry>) {
    fork < n ==>
      && (forall b: nat | fork <= b < n :: StateAt(fork, base, after, b) == StateAt(fork, base, before, b))
      && StateAt(fork, base, after, n) == Overlay(StateAt(fork, base, before, n), diff)
      && (DiffAt(before, n) == [] ==>
          StateAt(fork, base, after, n) == Overlay(StateAt(fork, base, before, n - 1), diff))
  }

  lemma RecordedStates(fork: nat, base: State, n: nat, before: Ledger, after: Ledger, diff: seq<Entry>)
    requires Recorded(n, before, after, diff)
    ensures StatesGrow(fork, base, before.log, after.log, n, diff)
  {
    assert DiffsGrow(before.log, after.log, n, diff) by {
      BatchGrowsDiff(before.log, n, diff);
    }
    if fork < n {
      GrownDiffOverlays(fork, base, before.log, after.log, n, diff);
    }
  }

  /** A block with the metadata it has in a ledger. */
  function InfoOf(b: Block, ledger: Ledger): Parent
    requires VersionAt(ledger.versions, b.number).Some?
  {
    AsParent(b, VersionAt(ledger.versions, b.number).value)
  }

  /** What a successful build did: it followed `Build` on the working state it found, moved the
      metadata history on, and noticed an upgrade that happened before finalization. */
  ghost predicate Finished(fork: nat, host: Host, code: Bytes, header: Bytes, extrinsics: seq<Bytes>, upgraded: bool,
                           before: Ledger, after: Ledger, diff: seq<Entry>, result: BuildBlockResult) {
    && result.block.parent.Some?
    && var parent := result.block.parent.value;
    && VersionAt(before.versions, parent.number).Some?
    && var built := Build(host, code, InfoOf(parent, before), header, extrinsics,
        before.working);
    && built.Some? && built.value.diff == diff && Yields(host, parent, built.value, result)
    && Registers(host, code, after.working, CodeSeenAt(fork, after.log, parent.number), parent.number + 1,
        before.versions, after.versions)
    && (upgraded <==> CodeSeenAt(fork, before.log + WroteAll(parent.number + 1, built.value.unfinalized),
        parent.number + 1))
  }

  /** The block that comes out of a build. */
  ghost predicate Yields(host: Host, parent: Block, built: Built, result: BuildBlockResult) {
    var block := result.block;
    && built.body == block.extrinsics && built.header == block.header
    && built.applied.included == result.included && built.applied.failed == result.failed
    && block.number == parent.number + 1 && block.hash == host.hashOf(block.header)
    && block.parentHash == parent.hash && block.parent == Some(parent)
  }

  /** What a build on block `n` needs to succeed while storage answers: a next block number of 32 bits, a
      `Build`, and, when it is the first block after an upgrade, a runtime that reports its metadata. */
  ghost predicate Buildable(fork: nat, host: Host, code: Bytes, header: Bytes, extrinsics: seq<Bytes>, parent: Block,
                            before: Ledger) {
    var n := parent.number;
    && n + 1 < U32_MAX && VersionAt(before.versions, n).Some?
    && var built := Build(host, code, InfoOf(parent, before), header, extrinsics, before.working);
    && built.Some?
    && (CodeSeenAt(fork, before.log + WroteAll(n + 1, built.value.diff), n) ==>
          ReportsMetadata(host, code, Overlay(before.working, built.value.diff)))
  }

  /** The block is prepared and the extrinsics are applied; `mid` is what that leaves of `before`. */
  ghost predicate BodyFacts(fork: nat, host: Host, code: Bytes, header: Bytes, extrinsics: seq<Bytes>, upgraded: bool,
                            parent: Block, before: Ledger, mid: Ledger, body: seq<Bytes>, prepared: Prepared,
                                applied: Applied) {
    var n, diff := parent.number, prepared.diff + applied.diff;
    && VersionAt(before.versions, n).Some?
    && mid == Ledger(before.log + WroteAll(n + 1, diff), Overlay(before.working, diff), before.versions)
    && Prepare(host, code, InfoOf(parent, before), header, before.working) == Some(prepared)
    && ApplyAll(host, code, extrinsics, Overlay(before.working, prepared.diff)) == Some(applied)
    && body == prepared.inherents + applied.included
    && (upgraded <==> CodeSeenAt(fork, mid.log, n + 1))
  }

  /** Finalization went from `mid` to `after`, and produced the block if there is one. */
  ghost predicate EndFacts(fork: nat, host: Host, code: Bytes, serves: bool, parent: Block, body: seq<Bytes>,
                           mid: Ledger, after: Ledger, final: seq<Entry>, block: Option<Block>) {
    var n, seen := parent.number + 1, CodeSeenAt(fork, after.log, parent.number);
    && Recorded(n, mid, after, final)
    && (block.Some? ==>
          var header := block.value.header;
          && n < U32_MAX && host.run(code, FinalizeBlock, mid.working) == Some(CallResult(header, final))
          && Registers(host, code, after.working, seen, n, mid.versions, after.versions)
          && block.value == Block(n, host.hashOf(header), parent.hash, header, body, block.value.storage, Some(parent)))
    && (serves && block.None? ==>
          n >= U32_MAX || CannotFinalize(host, code, mid.working, seen, final, after.working))
  }

  /** Both behind a quantifier, so that a method carries them to `BuildEnds` without the solver looking inside. */
  ghost predicate BodyDone(fork: nat, host: Host, code: Bytes, header: Bytes, extrinsics: seq<Bytes>, upgraded: bool,
                           parent: Block, before: Ledger, mid: Ledger, body: seq<Bytes>, prepared: Prepared,
                               applied: Applied) {
    forall door: nat :: Knock(door) ==>
      BodyFacts(fork, host, code, header, extrinsics, upgraded, parent, before, mid, body, prepared, applied)
  }

  ghost predicate Ended(fork: nat, host: Host, code: Bytes, serves: bool, parent: Block, body: seq<Bytes>,
                        mid: Ledger, after: Ledger, final: seq<Entry>, block: Option<Block>) {
    forall door: nat :: Knock(door) ==> EndFacts(fork, host, code, serves, parent, body, mid, after, final, block)
  }

  ghost predicate BodyRan(host: Host, code: Bytes, parent: Parent, header: Bytes, extrinsics: seq<Bytes>, s: State,
                          prepared: Prepared, applied: Applied) {
    forall door: nat :: Knock(door) ==> BodyRuns(host, code, parent, header, extrinsics, s, prepared, applied)
  }

  lemma BodyIsDone(fork: nat, host: Host, code: Bytes, info: Parent, header: Bytes, extrinsics: seq<Bytes>,
                   upgraded: bool,
                   parent: Block, before: Ledger, mid: Ledger, body: seq<Bytes>, diff: seq<Entry>,
                   prepared: Prepared, applied: Applied)
    requires VersionAt(before.versions, parent.number).Some? && info == InfoOf(parent, before)
    requires BodyRan(host, code, info, header, extrinsics, before.working, prepared, applied)
    requires diff == prepared.diff + applied.diff && body == prepared.inherents + applied.included
    requires mid == Ledger(before.log + WroteAll(parent.number + 1, diff), Overlay(before.working, diff),
        before.versions)
    requires upgraded <==> CodeSeenAt(fork, mid.log, parent.number + 1)
    ensures BodyDone(fork, host, code, header, extrinsics, upgraded, parent, before, mid, body, prepared, applied)
  {
    assert Knock(0);
  }

  lemma PlainlyRecorded(before: Ledger, n: nat, diff: seq<Entry>)
    ensures Recorded(n, before,
        Ledger(before.log + WroteAll(n, diff), Overlay(before.working, diff), before.versions), diff)
  {
  }

  /** What a build needs does not depend on the layer that the captured head got. */
  lemma BuildableOnCapture(fork: nat, host: Host, code: Bytes, header: Bytes, extrinsics: seq<Bytes>,
                           captured: Block, head: Block, before: Ledger)
    requires captured == head.(storage := captured.storage)
    ensures Buildable(fork, host, code, header, extrinsics, captured, before)
       <==> Buildable(fork, host, code, header, extrinsics, head, before)
  {
  }

  lemma EndRecorded(before: Ledger, mid: Ledger, after: Ledger, n: nat, diff: seq<Entry>, final: seq<Entry>)
    requires mid == Ledger(before.log + WroteAll(n, diff), Overlay(before.working, diff), before.versions)
    requires Recorded(n, mid, after, final)
    ensures Recorded(n, before, after, diff + final)
  {
    JoinLogs(before.log, n, diff, final);
    OverlayAppend(before.working, diff, final);
  }

  lemma EndFinishes(fork: nat, host: Host, code: Bytes, header: Bytes, extrinsics: seq<Bytes>, upgraded: bool,
                    serves: bool,
                    parent: Block, before: Ledger, mid: Ledger, after: Ledger, body: seq<Bytes>,
                    prepared: Prepared, applied: Applied, final: seq<Entry>, block: Option<Block>)
    requires BodyFacts(fork, host, code, header, extrinsics, upgraded, parent, before, mid, body, prepared, applied)
    requires EndFacts(fork, host, code, serves, parent, body, mid, after, final, block)
    requires block.Some?
    ensures Finished(fork, host, code, header, extrinsics, upgraded, before, after,
        prepared.diff + applied.diff + final,
                     BuildBlockResult(block.value, applied.included, applied.failed))
  {
    var result := BuildBlockResult(block.value, applied.included, applied.failed);
    EndRecorded(before, mid, after, parent.number + 1, prepared.diff + applied.diff, final);
    BuildSteps(fork, host, code, header, extrinsics, upgraded, before, after, prepared, applied, final, parent, result);
  }

  lemma EndBuildable(fork: nat, host: Host, code: Bytes, header: Bytes, extrinsics: seq<Bytes>, upgraded: bool,
                     serves: bool,
                     parent: Block, before: Ledger, mid: Ledger, after: Ledger, body: seq<Bytes>,
                     prepared: Prepared, applied: Applied, final: seq<Entry>, block: Option<Block>)
    requires BodyFacts(fork, host, code, header, extrinsics, upgraded, parent, before, mid, body, prepared, applied)
    requires EndFacts(fork, host, code, serves, parent, body, mid, after, final, block)
    requires block.Some?
    ensures Buildable(fork, host, code, header, extrinsics, parent, before)
  {
    var info, diff := InfoOf(parent, before), prepared.diff + applied.diff;
    assert after.log == before.log + WroteAll(parent.number + 1, diff + final)
        && after.working == Overlay(before.working, diff + final) by {
      EndRecorded(before, mid, after, parent.number + 1, diff, final);
    }
    assert Build(host, code, info, header, extrinsics, before.working)
        == Some(Built(diff + final, diff, body, block.value.header, applied)) by {
      OverlayAppend(before.working, prepared.diff, applied.diff);
      BuildComposes(host, code, info, header, extrinsics, before.working, prepared, applied,
                    CallResult(block.value.header, final));
    }
  }

  lemma EndFails(fork: nat, host: Host, code: Bytes, header: Bytes, extrinsics: seq<Bytes>, upgraded: bool,
                 serves: bool,
                 parent: Block, before: Ledger, mid: Ledger, after: Ledger, body: seq<Bytes>,
                 prepared: Prepared, applied: Applied, final: seq<Entry>, block: Option<Block>)
    requires BodyFacts(fork, host, code, header, extrinsics, upgraded, parent, before, mid, body, prepared, applied)
    requires EndFacts(fork, host, code, serves, parent, body, mid, after, final, block)
    requires serves && block.None?
    ensures !Buildable(fork, host, code, header, extrinsics, parent, before)
  {
    assert Recorded(parent.number + 1, before, after, prepared.diff + applied.diff + final) by {
      EndRecorded(before, mid, after, parent.number + 1, prepared.diff + applied.diff, final);
    }
    UnfinishedNotBuildable(fork, host, code, header, extrinsics, parent, before, prepared, applied, final, mid, after);
  }

  /** Body and finalization together make the build, or show why there is none. */
  lemma BuildEnds(fork: nat, host: Host, code: Bytes, header: Bytes, extrinsics: seq<Bytes>, upgraded: bool,
                  serves: bool,
                  parent: Block, before: Ledger, mid: Ledger, after: Ledger, body: seq<Bytes>,
                  prepared: Prepared, applied: Applied, final: seq<Entry>, block: Option<Block>)
    requires BodyDone(fork, host, code, header, extrinsics, upgraded, parent, before, mid, body, prepared, applied)
    requires Ended(fork, host, code, serves, parent, body, mid, after, final, block)
    ensures Recorded(parent.number + 1, before, after, prepared.diff + applied.diff + final)
    ensures block.Some? ==>
      && Finished(fork, host, code, header, extrinsics, upgraded, before, after, prepared.diff + applied.diff + final,
                  BuildBlockResult(block.value, applied.included, applied.failed))
      && Buildable(fork, host, code, header, extrinsics, parent, before)
    ensures serves && block.None? ==> !Buildable(fork, host, code, header, extrinsics, parent, before)
  {
    var diff := prepared.diff + applied.diff + final;
    assert Recorded(parent.number + 1, before, after, diff) by {
      assert Knock(0);
      EndRecorded(before, mid, after, parent.number + 1, prepared.diff + applied.diff, final);
    }
    assert block.Some? ==> Finished(fork, host, code, header, extrinsics, upgraded, before, after, diff,
                                    BuildBlockResult(block.value, applied.included, applied.failed)) by {
      assert Knock(0);
      if block.Some? {
        EndFinishes(fork, host, code, header, extrinsics, upgraded, serves, parent, before, mid, after, body,
                    prepared, applied, final, block);
      }
    }
    assert block.Some? ==> Buildable(fork, host, code, header, extrinsics, parent, before) by {
      assert Knock(0);
      if block.Some? {
        EndBuildable(fork, host, code, header, extrinsics, upgraded, serves, parent, before, mid, after, body,
                     prepared, applied, final, block);
      }
    }
    assert serves && block.None? ==> !Buildable(fork, host, code, header, extrinsics, parent, before) by {
      assert Knock(0);
      if serves && block.None? {
        EndFails(fork, host, code, header, extrinsics, upgraded, serves, parent, before, mid, after, body,
                 prepared, applied, final, block);
      }
    }
  }

  /** A build that fails once its body is done. */
  lemma UnfinishedNotBuildable(fork: nat, host: Host, code: Bytes, header: Bytes, extrinsics: seq<Bytes>, parent: Block,
                               before: Ledger, prepared: Prepared, applied: Applied, final: seq<Entry>,
                               mid: Ledger, after: Ledger)
    requires VersionAt(before.versions, parent.number).Some?
    requires Prepare(host, code, InfoOf(parent, before), header, before.working) == Some(prepared)
    requires ApplyAll(host, code, extrinsics, Overlay(before.working, prepared.diff)) == Some(applied)
    requires mid.working == Overlay(before.working, prepared.diff + applied.diff)
    requires Recorded(parent.number + 1, before, after, prepared.diff + applied.diff + final)
    requires parent.number + 1 >= U32_MAX
          || CannotFinalize(host, code, mid.working, CodeSeenAt(fork, after.log, parent.number), final, after.working)
    ensures !Buildable(fork, host, code, header, extrinsics, parent, before)
  {
    OverlayAppend(before.working, prepared.diff, applied.diff);
  }

  /** The executor that replaces the old one after a build: none unless an upgrade was noticed, and then,
      when storage answers, what `:code` now holds if that compiles. */
  ghost predicate Recompiled(host: Host, upgraded: bool, serves: bool, after: Ledger, code: Option<Bytes>) {
    && (!upgraded ==> code.None?)
    && (code.Some? ==> host.compiles(code.value))
    && (Seeded(after.log, CODE) ==>
          && (code.Some? ==> Lookup(after.working, CODE) == code)
          && (serves && upgraded && code.None? ==>
                Lookup(after.working, CODE).None? || !host.compiles(Lookup(after.working, CODE).value)))
  }

  /** The block is prepared, and the extrinsics are run on it. */
  ghost predicate BodyRuns(host: Host, code: Bytes, parent: Parent, header: Bytes, extrinsics: seq<Bytes>, s: State,
                           prepared: Prepared, applied: Applied) {
    && Prepare(host, code, parent, header, s) == Some(prepared)
    && ApplyAll(host, code, extrinsics, Overlay(s, prepared.diff)) == Some(applied)
  }

  /** The block cannot be prepared, or the extrinsics cannot all be run on it. */
  ghost predicate NoBody(host: Host, code: Bytes, parent: Parent, header: Bytes, extrinsics: seq<Bytes>, s: State) {
    var prepared := Prepare(host, code, parent, header, s);
    prepared.Some? ==> ApplyAll(host, code, extrinsics, Overlay(s, prepared.value.diff)).None?
  }

  lemma NoBodyNoBuild(host: Host, code: Bytes, parent: Parent, header: Bytes, extrinsics: seq<Bytes>, s: State)
    requires NoBody(host, code, parent, header, extrinsics, s)
    ensures Build(host, code, parent, header, extrinsics, s).None?
  {
  }

  lemma BuildComposes(host: Host, code: Bytes, parent: Parent, header: Bytes, extrinsics: seq<Bytes>, s: State,
                      prepared: Prepared, applied: Applied, final: CallResult)
    requires Prepare(host, code, parent, header, s) == Some(prepared)
    requires ApplyAll(host, code, extrinsics, Overlay(s, prepared.diff)) == Some(applied)
    requires host.run(code, FinalizeBlock, Overlay(Overlay(s, prepared.diff), applied.diff)) == Some(final)
    ensures Build(host, code, parent, header, extrinsics, s)
         == Some(Built(prepared.diff + applied.diff + final.diff, prepared.diff + applied.diff,
                       prepared.inherents + applied.included, final.output, applied))
  {
  }

  /** The phases of a build, run one after the other on the working state, make up `Build`. */
  lemma BuildSteps(fork: nat, host: Host, code: Bytes, header: Bytes, extrinsics: seq<Bytes>, upgraded: bool,
                   before: Ledger, after: Ledger, prepared: Prepared, applied: Applied, final: seq<Entry>,
                   parent: Block, result: BuildBlockResult)
    requires VersionAt(before.versions, parent.number).Some?
    requires Prepare(host, code, InfoOf(parent, before), header, before.working)
        == Some(prepared)
    requires ApplyAll(host, code, extrinsics, Overlay(before.working, prepared.diff)) == Some(applied)
    requires host.run(code, FinalizeBlock, Overlay(before.working, prepared.diff + applied.diff))
        == Some(CallResult(result.block.header, final))
    requires Registers(host, code, after.working, CodeSeenAt(fork, after.log, parent.number), parent.number + 1,
        before.versions, after.versions)
    requires upgraded <==> CodeSeenAt(fork, before.log + WroteAll(parent.number + 1, prepared.diff + applied.diff),
        parent.number + 1)
    requires Yields(host, parent, Built(prepared.diff + applied.diff + final, prepared.diff + applied.diff,
                                        prepared.inherents + applied.included, result.block.header, applied), result)
    ensures Finished(fork, host, code, header, extrinsics, upgraded, before, after,
        prepared.diff + applied.diff + final, result)
  {
    var info := InfoOf(parent, before);
    assert Build(host, code, info, header, extrinsics, before.working)
        == Some(Built(prepared.diff + applied.diff + final, prepared.diff + applied.diff,
                      prepared.inherents + applied.included, result.block.header, applied)) by {
      OverlayAppend(before.working, prepared.diff, applied.diff);
      BuildComposes(host, code, info, header, extrinsics, before.working, prepared, applied,
          CallResult(result.block.header, final));
    }
  }

  // ---- Runs of builds ----

  /** One build: the code it ran, what it was given, and the code the executor was then recompiled from. */
  datatype BuildRecord = BuildRecord(
    code: Bytes, header: Bytes, extrinsics: seq<Bytes>, upgraded: bool, diff: seq<Entry>, result: BuildBlockResult,
    compiled: Option<Bytes>)
  {
    /** The code of the next build. */
    function NextCode(): Bytes {
      if compiled.Some? then compiled.value else code
    }
  }

  /** Nothing was written on the fork yet; initial state may have been injected. */
  ghost predicate OnlyInjected(log: seq<Event>) {
    forall i :: 0 <= i < |log| ==> log[i].Injected?
  }

  /** Build `i` recorded its diff at block `fork + i + 1`. */
  ghost predicate RecordedAt(fork: nat, ledgers: seq<Ledger>, builds: seq<BuildRecord>, i: nat) {
    i < |builds| && i + 1 < |ledgers| ==> Recorded(fork + i + 1, ledgers[i], ledgers[i + 1], builds[i].diff)
  }

  /** From a fresh fork on, each build recorded its diff at the next block. The fork starts from `base`: the
      fork-point state with what was injected into it. */
  ghost predicate RecordedInSequence(fork: nat, base: State, ledgers: seq<Ledger>, builds: seq<BuildRecord>) {
    && |ledgers| == |builds| + 1 && OnlyInjected(ledgers[0].log) && ledgers[0].working == base
    && forall i: nat :: RecordedAt(fork, ledgers, builds, i)
  }

  /** Build `i` was a successful build on top of block `fork + i`. */
  ghost predicate FinishedAt(fork: nat, host: Host, ledgers: seq<Ledger>, builds: seq<BuildRecord>, i: nat) {
    i < |builds| && i + 1 < |ledgers| ==>
      var b := builds[i];
      && Finished(fork, host, b.code, b.header, b.extrinsics, b.upgraded, ledgers[i], ledgers[i + 1], b.diff, b.result)
      && b.result.block.parent.value.number == fork + i
  }

  ghost predicate FinishedInSequence(fork: nat, host: Host, ledgers: seq<Ledger>, builds: seq<BuildRecord>) {
    && |ledgers| == |builds| + 1 && (forall b :: b in ledgers[0].versions ==> b <= fork)
    && forall i: nat :: FinishedAt(fork, host, ledgers, builds, i)
  }

  /** A run goes on with the next build. */
  lemma RecordedExtends(fork: nat, base: State, ledgers: seq<Ledger>, builds: seq<BuildRecord>,
                        n: nat, before: Ledger, after: Ledger, b: BuildRecord)
    requires RecordedInSequence(fork, base, ledgers, builds)
    requires n == fork + |builds| && before == ledgers[|builds|] && Recorded(n + 1, before, after, b.diff)
    ensures RecordedInSequence(fork, base, ledgers + [after], builds + [b])
  {
    forall i: nat ensures RecordedAt(fork, ledgers + [after], builds + [b], i) {
      if i < |builds| {
        assert RecordedAt(fork, ledgers, builds, i);
      }
    }
  }

  lemma FinishedExtends(fork: nat, host: Host, ledgers: seq<Ledger>, builds: seq<BuildRecord>,
                        n: nat, before: Ledger, after: Ledger, b: BuildRecord)
    requires FinishedInSequence(fork, host, ledgers, builds)
    requires n == fork + |builds| && before == ledgers[|builds|]
    requires Finished(fork, host, b.code, b.header, b.extrinsics, b.upgraded, before, after, b.diff, b.result)
    requires b.result.block.parent.value.number == n
    ensures FinishedInSequence(fork, host, ledgers + [after], builds + [b])
  {
    forall i: nat ensures FinishedAt(fork, host, ledgers + [after], builds + [b], i) {
      if i < |builds| {
        assert FinishedAt(fork, host, ledgers, builds, i);
      }
    }
  }

  lemma BuildWorks(fork: nat, base: State, ledgers: seq<Ledger>, builds: seq<BuildRecord>, i: nat)
    requires RecordedInSequence(fork, base, ledgers, builds) && i < |builds|
    ensures ledgers[i + 1].working == Overlay(ledgers[i].working, builds[i].diff)
  {
    assert RecordedAt(fork, ledgers, builds, i);
  }

  /** A build keeps what there is at each earlier block. */
  lemma BuildKeeps(fork: nat, base: State, ledgers: seq<Ledger>, builds: seq<BuildRecord>, i: nat, block: nat)
    requires RecordedInSequence(fork, base, ledgers, builds) && i < |builds| && fork <= block <= fork + i
    ensures StateAt(fork, base, ledgers[i + 1].log, block) == StateAt(fork, base, ledgers[i].log, block)
    ensures VersionAt(ledgers[i + 1].versions, block) == VersionAt(ledgers[i].versions, block)
  {
    assert RecordedAt(fork, ledgers, builds, i);
    RecordedStates(fork, base, fork + i + 1, ledgers[i], ledgers[i + 1], builds[i].diff);
  }

  lemma BuildAdds(fork: nat, base: State, ledgers: seq<Ledger>, builds: seq<BuildRecord>, i: nat, block: nat)
    requires RecordedInSequence(fork, base, ledgers, builds) && i < |builds|
    ensures DiffAt(ledgers[i + 1].log, block)
         == DiffAt(ledgers[i].log, block) + if block == fork + i + 1 then builds[i].diff else []
  {
    assert RecordedAt(fork, ledgers, builds, i);
    BatchDiff(ledgers[i].log, fork + i + 1, builds[i].diff, block);
  }

  lemma {:induction false} NothingBeyond(fork: nat, base: State, ledgers: seq<Ledger>, builds: seq<BuildRecord>,
                                         i: nat, block: nat)
    requires RecordedInSequence(fork, base, ledgers, builds) && i <= |builds| && block > fork + i
    ensures DiffAt(ledgers[i].log, block) == []
  {
    if i == 0 {
      NoDiff(ledgers[0].log, block);
    } else {
      NothingBeyond(fork, base, ledgers, builds, i - 1, block);
      BuildAdds(fork, base, ledgers, builds, i - 1, block);
    }
  }

  lemma HeadDiff(fork: nat, base: State, ledgers: seq<Ledger>, builds: seq<BuildRecord>, i: nat)
    requires RecordedInSequence(fork, base, ledgers, builds) && i < |builds|
    ensures DiffAt(ledgers[i + 1].log, fork + i + 1) == builds[i].diff
  {
    var earlier := DiffAt(ledgers[i].log, fork + i + 1);
    assert earlier == [] by {
      NothingBeyond(fork, base, ledgers, builds, i, fork + i + 1);
    }
    assert DiffAt(ledgers[i + 1].log, fork + i + 1) == earlier + builds[i].diff by {
      BuildAdds(fork, base, ledgers, builds, i, fork + i + 1);
    }
  }

  /** The state of the head is the working state it was left with. */
  lemma {:induction false} HeadState(fork: nat, base: State, ledgers: seq<Ledger>, builds: seq<BuildRecord>, i: nat)
    requires RecordedInSequence(fork, base, ledgers, builds) && i <= |builds|
    ensures StateAt(fork, base, ledgers[i].log, fork + i) == ledgers[i].working
  {
    if i > 0 {
      var j := i - 1;
      assert StateAt(fork, base, ledgers[j].log, fork + j) == ledgers[j].working by {
        HeadState(fork, base, ledgers, builds, j);
      }
      NextHeadState(fork, base, ledgers, builds, j, i);
    }
  }

  lemma NextHeadState(fork: nat, base: State, ledgers: seq<Ledger>, builds: seq<BuildRecord>, j: nat, i: nat)
    requires RecordedInSequence(fork, base, ledgers, builds) && i <= |builds| && i == j + 1
    requires StateAt(fork, base, ledgers[j].log, fork + j) == ledgers[j].working
    ensures StateAt(fork, base, ledgers[i].log, fork + i) == ledgers[i].working
  {
    var log, s, diff := ledgers[i].log, ledgers[j].working, builds[j].diff;
    BuildWorks(fork, base, ledgers, builds, j);
    assert StateAt(fork, base, log, fork + j) == s by {
      BuildKeeps(fork, base, ledgers, builds, j, fork + j);
    }
    assert DiffAt(log, fork + i) == diff by {
      HeadDiff(fork, base, ledgers, builds, j);
    }
    NextState(fork, base, log, fork + j, fork + i, s, diff);
  }

  lemma NextState(fork: nat, base: State, log: seq<Event>, m: nat, n: nat, s: State, diff: seq<Entry>)
    requires fork <= m && n == m + 1 && StateAt(fork, base, log, m) == s && DiffAt(log, n) == diff
    ensures StateAt(fork, base, log, n) == Overlay(s, diff)
  {
  }

  lemma {:induction false} StateKept(fork: nat, base: State, ledgers: seq<Ledger>, builds: seq<BuildRecord>, i: nat,
                                     j: nat)
    requires RecordedInSequence(fork, base, ledgers, builds) && i <= j <= |builds|
    ensures StateAt(fork, base, ledgers[j].log, fork + i) == ledgers[i].working
    decreases j
  {
    if i == j {
      HeadState(fork, base, ledgers, builds, i);
    } else {
      var k := j - 1;
      StateKept(fork, base, ledgers, builds, i, k);
      BuildKeeps(fork, base, ledgers, builds, k, fork + i);
    }
  }

  lemma {:induction false} VersionKept(fork: nat, base: State, ledgers: seq<Ledger>, builds: seq<BuildRecord>, i: nat,
                                       j: nat)
    requires RecordedInSequence(fork, base, ledgers, builds) && i <= j <= |builds|
    ensures VersionAt(ledgers[j].versions, fork + i) == VersionAt(ledgers[i].versions, fork + i)
    decreases j
  {
    if i < j {
      var k := j - 1;
      VersionKept(fork, base, ledgers, builds, i, k);
      BuildKeeps(fork, base, ledgers, builds, k, fork + i);
    }
  }

  /** However many builds follow, block `fork + i` keeps the state and the metadata it had when it was the head. */
  lemma BlocksKept(fork: nat, base: State, ledgers: seq<Ledger>, builds: seq<BuildRecord>, i: nat)
    requires RecordedInSequence(fork, base, ledgers, builds) && i <= |builds|
    ensures StateAt(fork, base, ledgers[|builds|].log, fork + i) == ledgers[i].working
    ensures VersionAt(ledgers[|builds|].versions, fork + i) == VersionAt(ledgers[i].versions, fork + i)
  {
    StateKept(fork, base, ledgers, builds, i, |builds|);
    VersionKept(fork, base, ledgers, builds, i, |builds|);
  }

  /** `b` made block `number` by a build on exactly the state `s`, and left the state `next`. */
  ghost predicate RefinesBuild(host: Host, metadata: Option<Metadata>, number: nat, s: State, next: State,
                               b: BuildRecord) {
    && metadata.Some? && b.result.block.parent.Some?
    && var parent := AsParent(b.result.block.parent.value, metadata.value);
    && var built := Build(host, b.code, parent, b.header, b.extrinsics, s);
    && built.Some? && next == Overlay(s, built.value.diff)
    && b.result.block.number == number
    && b.result.block.extrinsics == built.value.body && b.result.block.header == built.value.header
    && b.result.included == built.value.applied.included && b.result.failed == built.value.applied.failed
  }

  lemma BuildRefined(fork: nat, base: State, host: Host, ledgers: seq<Ledger>, builds: seq<BuildRecord>, i: nat)
    requires RecordedInSequence(fork, base, ledgers, builds) && FinishedInSequence(fork, host, ledgers, builds)
        && i < |builds|
    ensures RefinesBuild(host, VersionAt(ledgers[i].versions, fork + i), fork + i + 1,
                         ledgers[i].working, ledgers[i + 1].working, builds[i])
  {
    assert ledgers[i + 1].working == Overlay(ledgers[i].working, builds[i].diff) by {
      BuildWorks(fork, base, ledgers, builds, i);
    }
    assert FinishedAt(fork, host, ledgers, builds, i);
  }

  /** End to end: in the final history the state of every block is the state of its parent overlaid with the
      diff of a build on exactly that state with the parent's metadata, starting from the fork point. */
  lemma BlocksRefineBuilds(fork: nat, base: State, host: Host, ledgers: seq<Ledger>, builds: seq<BuildRecord>, i: nat)
    requires RecordedInSequence(fork, base, ledgers, builds) && FinishedInSequence(fork, host, ledgers, builds)
        && i < |builds|
    ensures var last := ledgers[|builds|];
            && StateAt(fork, base, last.log, fork) == base
            && RefinesBuild(host, VersionAt(last.versions, fork + i), fork + i + 1,
                            StateAt(fork, base, last.log, fork + i), StateAt(fork, base, last.log, fork + (i + 1)),
                            builds[i])
  {
    var last, j := ledgers[|builds|], i + 1;
    BlocksKept(fork, base, ledgers, builds, i);
    BlocksKept(fork, base, ledgers, builds, j);
    assert RefinesBuild(host, VersionAt(last.versions, fork + i), fork + i + 1, ledgers[i].working,
        ledgers[j].working, builds[i]) by {
      BuildRefined(fork, base, host, ledgers, builds, i);
    }
  }

  // ---- Reads of the final history ----

  predicate Writes(diff: seq<Entry>, key: Bytes) {
    exists i :: 0 <= i < |diff| && diff[i].key == key
  }

  lemma {:induction false} TouchAfterBatch(log: seq<Event>, n: nat, diff: seq<Entry>, key: Bytes)
    ensures var touch := LastTouch(log + WroteAll(n, diff), key);
            if Writes(diff, key) then touch.Some? && touch.value.Wrote? && touch.value.block == n
            else touch == LastTouch(log, key)
  {
    if diff == [] {
      EmptyBatch(log, n);
    } else {
      var m := |diff| - 1;
      var e := Wrote(n, diff[m].key, diff[m].value);
      TouchAfterBatch(log, n, diff[..m], key);
      assert log + WroteAll(n, diff) == (log + WroteAll(n, diff[..m])) + [e];
      CleanPrefix(log + WroteAll(n, diff[..m]), e, key);
      assert Writes(diff, key) <==> Writes(diff[..m], key) || diff[m].key == key;
    }
  }

  /** The log of a run of builds: injections, then writes in the order of their blocks. */
  ghost predicate RunLog(fork: nat, top: nat, log: seq<Event>) {
    && (forall i :: 0 <= i < |log| ==> !log[i].Erased? && (log[i].Wrote? ==> fork < log[i].block <= top))
    && (forall i, j :: 0 <= i < j < |log| && log[i].Wrote? ==> log[j].Wrote? && log[i].block <= log[j].block)
  }

  lemma RunLogGrows(fork: nat, top: nat, log: seq<Event>, n: nat, diff: seq<Entry>)
    requires RunLog(fork, top, log) && fork <= top < n
    ensures RunLog(fork, n, log + WroteAll(n, diff))
  {
  }

  lemma {:induction false} BuildsMakeRunLog(fork: nat, base: State, ledgers: seq<Ledger>, builds: seq<BuildRecord>,
                                            i: nat)
    requires RecordedInSequence(fork, base, ledgers, builds) && i <= |builds|
    ensures RunLog(fork, fork + i, ledgers[i].log)
  {
    if i > 0 {
      var j := i - 1;
      BuildsMakeRunLog(fork, base, ledgers, builds, j);
      assert RecordedAt(fork, ledgers, builds, j);
      RunLogGrows(fork, fork + j, ledgers[j].log, fork + i, builds[j].diff);
    }
  }

  lemma RunLogSeeded(fork: nat, top: nat, log: seq<Event>, key: Bytes)
    requires RunLog(fork, top, log)
    ensures Seeded(log, key)
  {
  }

  lemma {:induction false} InjectionsStayLast(fork: nat, base: State, ledgers: seq<Ledger>, builds: seq<BuildRecord>,
                                              i: nat, key: Bytes)
    requires RecordedInSequence(fork, base, ledgers, builds) && i <= |builds|
    ensures var touch := LastTouch(ledgers[i].log, key);
            (touch.Some? && touch.value.Wrote?) || touch == LastTouch(ledgers[0].log, key)
  {
    if i > 0 {
      var j := i - 1;
      InjectionsStayLast(fork, base, ledgers, builds, j, key);
      assert RecordedAt(fork, ledgers, builds, j);
      TouchAfterBatch(ledgers[j].log, fork + i, builds[j].diff, key);
    }
  }

  /** `start` is the fork-point state `base` with the injections of the log. */
  ghost predicate StartsFrom(base: State, start: State, log: seq<Event>, key: Bytes) {
    Lookup(start, key) == match LastTouch(log, key) case Some(Injected(_, value)) => value case _ => Lookup(base, key)
  }

  /** The key reads at `block` as the state of the block has it, unless it was injected and is written only
      after that block: then it reads as the fork point has it, which may be the same. */
  ghost predicate ReadsState(fork: nat, base: State, start: State, log: seq<Event>, key: Bytes, block: nat, top: nat)
    requires fork <= block
  {
    SeededRead(log, base, key, block) == Lookup(StateAt(fork, start, log, block), key)
    <==> (LastWrite(log, key, block).Some? || LastWrite(log, key, top).None? || Lookup(base, key) == Lookup(start, key))
  }

  lemma RunLogReads(fork: nat, base: State, start: State, top: nat, log: seq<Event>, key: Bytes, block: nat)
    requires RunLog(fork, top, log) && fork <= block <= top
    requires StartsFrom(base, start, log, key) || (LastTouch(log, key).Some? && LastTouch(log, key).value.Wrote?)
    ensures ReadsState(fork, base, start, log, key, block, top)
  {
    RunLogMeans(fork, start, top, log, key, block);
    ReadOrStart(log, base, start, key, block, top);
  }

  lemma StillFromStart(fork: nat, base: State, start: State, ledgers: seq<Ledger>, builds: seq<BuildRecord>, key: Bytes)
    requires RecordedInSequence(fork, start, ledgers, builds) && StartsFrom(base, start, ledgers[0].log, key)
    ensures var log := ledgers[|builds|].log;
            StartsFrom(base, start, log, key) || (LastTouch(log, key).Some? && LastTouch(log, key).value.Wrote?)
  {
    InjectionsStayLast(fork, start, ledgers, builds, |builds|, key);
  }

  /** So every fork-local block reads once all builds are done. */
  lemma BlocksReadTheirState(fork: nat, base: State, start: State, ledgers: seq<Ledger>, builds: seq<BuildRecord>,
                             block: nat, key: Bytes)
    requires RecordedInSequence(fork, start, ledgers, builds) && fork <= block <= fork + |builds|
    requires StartsFrom(base, start, ledgers[0].log, key)
    ensures ReadsState(fork, base, start, ledgers[|builds|].log, key, block, fork + |builds|)
  {
    var n := |builds|;
    assert ReadsState(fork, base, start, ledgers[n].log, key, block, fork + n) by {
      BuildsMakeRunLog(fork, start, ledgers, builds, n);
      StillFromStart(fork, base, start, ledgers, builds, key);
      RunLogReads(fork, base, start, fork + n, ledgers[n].log, key, block);
    }
  }

  lemma RunLogMeans(fork: nat, start: State, top: nat, log: seq<Event>, key: Bytes, block: nat)
    requires RunLog(fork, top, log) && fork <= block
    ensures Seeded(log, key)
    ensures Lookup(StateAt(fork, start, log, block), key) == Or(LastWrite(log, key, block), Lookup(start, key))
    ensures LastTouch(log, key).Some? && LastTouch(log, key).value.Wrote? ==> LastTouch(log, key).value.block <= top
  {
    var v := Initial(fork, start).(current := top);
    RunLogSeeded(fork, top, log, key);
    TouchBounded(v, log, key);
    StateIsLastWrite(v, log, key, block);
  }

  lemma ReadOrStart(log: seq<Event>, base: State, start: State, key: Bytes, block: nat, top: nat)
    requires Seeded(log, key) && block <= top
    requires match LastTouch(log, key)
             case Some(Wrote(b, _, _)) => b <= top
             case Some(Injected(_, value)) => Lookup(start, key) == value
             case _ => Lookup(start, key) == Lookup(base, key)
    ensures SeededRead(log, base, key, block) == Or(LastWrite(log, key, block), Lookup(start, key))
       <==> (|| LastWrite(log, key, block).Some?
             || LastWrite(log, key, top).None?
             || Lookup(base, key) == Lookup(start, key))
  {
    LastTouchIsLastWrite(log, key, top);
    LastTouchIsLastWrite(log, key, block);
  }

  lemma {:induction false} NoInjectedWrites(log: seq<Event>, key: Bytes)
    requires OnlyInjected(log)
    ensures LastTouch(log, key).Some? ==> LastTouch(log, key).value.Injected?
  {
    if log != [] {
      NoInjectedWrites(log[..|log| - 1], key);
    }
  }

  // ---- Runtime upgrades ----

  predicate WritesCode(diff: seq<Entry>) {
    Writes(diff, CODE)
  }

  /** As long as no build from `i` up to `j` writes `:code`, its last touch stays where it was. */
  lemma {:induction false} CodeUntouched(fork: nat, base: State, ledgers: seq<Ledger>, builds: seq<BuildRecord>,
                                         i: nat, j: nat)
    requires RecordedInSequence(fork, base, ledgers, builds) && i <= j <= |builds|
    requires forall k :: i <= k < j ==> !WritesCode(builds[k].diff)
    ensures LastTouch(ledgers[j].log, CODE) == LastTouch(ledgers[i].log, CODE)
    decreases j
  {
    if i < j {
      CodeUntouched(fork, base, ledgers, builds, i, j - 1);
      CodeTouched(fork, base, ledgers, builds, j - 1);
    }
  }

  lemma CodeTouched(fork: nat, base: State, ledgers: seq<Ledger>, builds: seq<BuildRecord>, i: nat)
    requires RecordedInSequence(fork, base, ledgers, builds) && i < |builds|
    ensures var touch := LastTouch(ledgers[i + 1].log, CODE);
            if WritesCode(builds[i].diff) then touch.Some? && touch.value.Wrote? && touch.value.block == fork + i + 1
            else touch == LastTouch(ledgers[i].log, CODE)
  {
    assert RecordedAt(fork, ledgers, builds, i);
    TouchAfterBatch(ledgers[i].log, fork + i + 1, builds[i].diff, CODE);
  }

  ghost predicate RegisteredAt(fork: nat, host: Host, ledgers: seq<Ledger>, builds: seq<BuildRecord>, i: nat) {
    i < |builds| && i + 1 < |ledgers| ==>
      Registers(host, builds[i].code, ledgers[i + 1].working, CodeSeenAt(fork, ledgers[i + 1].log, fork + i),
                fork + i + 1, ledgers[i].versions, ledgers[i + 1].versions)
  }

  /** Every build kept the metadata history, or registered a version if the block before it had written the code. */
  ghost predicate RegisteredInSequence(fork: nat, host: Host, ledgers: seq<Ledger>, builds: seq<BuildRecord>) {
    && |ledgers| == |builds| + 1 && (forall b :: b in ledgers[0].versions ==> b <= fork)
    && forall i: nat :: RegisteredAt(fork, host, ledgers, builds, i)
  }

  lemma FinishedRegisters(fork: nat, host: Host, ledgers: seq<Ledger>, builds: seq<BuildRecord>)
    requires FinishedInSequence(fork, host, ledgers, builds)
    ensures RegisteredInSequence(fork, host, ledgers, builds)
  {
    forall i: nat ensures RegisteredAt(fork, host, ledgers, builds, i) {
      assert FinishedAt(fork, host, ledgers, builds, i);
    }
  }

  /** Versions are only registered at blocks that exist, so the newest one also answers for the next block. */
  lemma {:induction false} NoVersionAhead(fork: nat, host: Host, ledgers: seq<Ledger>, builds: seq<BuildRecord>, i: nat)
    requires RegisteredInSequence(fork, host, ledgers, builds) && i <= |builds|
    ensures forall b :: b in ledgers[i].versions ==> b <= fork + i
    ensures VersionAt(ledgers[i].versions, fork + i + 1) == VersionAt(ledgers[i].versions, fork + i)
  {
    if i > 0 {
      assert RegisteredAt(fork, host, ledgers, builds, i - 1);
      NoVersionAhead(fork, host, ledgers, builds, i - 1);
    }
  }

  /** After block `fork + i` wrote `:code`, the next block to leave it alone sees the change, and it is not
      seen again while the code stays. */
  lemma ChangeSeenOnce(fork: nat, base: State, ledgers: seq<Ledger>, builds: seq<BuildRecord>, i: nat, j: nat)
    requires RecordedInSequence(fork, base, ledgers, builds)
    requires 0 < i < j <= |builds| && WritesCode(builds[i - 1].diff) && !WritesCode(builds[i].diff)
    requires forall k :: i < k < j - 1 ==> !WritesCode(builds[k].diff)
    ensures CodeSeenAt(fork, ledgers[j].log, fork + j - 1) <==> j == i + 1
  {
    CodeTouched(fork, base, ledgers, builds, i - 1);
    CodeTouched(fork, base, ledgers, builds, j - 1);
    CodeUntouched(fork, base, ledgers, builds, i, j - 1);
  }

  /** Block `fork + i` writes `:code` and the next one does not: the next one registers the metadata it reads
      from the runtime, and that is what every block sees up to the first one after another write of `:code`. */
  lemma {:induction false} UpgradeRegisters(fork: nat, base: State, host: Host, ledgers: seq<Ledger>,
                                            builds: seq<BuildRecord>, i: nat, j: nat)
    requires RecordedInSequence(fork, base, ledgers, builds) && RegisteredInSequence(fork, host, ledgers, builds)
    requires 0 < i < j <= |builds| && WritesCode(builds[i - 1].diff) && !WritesCode(builds[i].diff)
    requires forall k :: i < k < j - 1 ==> !WritesCode(builds[k].diff)
    ensures var result := host.run(builds[i].code, GetMetadata, ledgers[i + 1].working);
            && result.Some? && host.decodeMetadata(result.value.output).Some?
            && VersionAt(ledgers[j].versions, fork + j) == host.decodeMetadata(result.value.output)
    decreases j
  {
    assert CodeSeenAt(fork, ledgers[j].log, fork + (j - 1)) <==> j == i + 1 by {
      ChangeSeenOnce(fork, base, ledgers, builds, i, j);
    }
    assert RegisteredAt(fork, host, ledgers, builds, j - 1);
    if i + 1 < j {
      UpgradeRegisters(fork, base, host, ledgers, builds, i, j - 1);
      NoVersionAhead(fork, host, ledgers, builds, j - 1);
      assert ledgers[j].versions == ledgers[j - 1].versions;
    }
  }

  /** The same of the final history. */
  lemma MetadataAfterUpgrade(fork: nat, base: State, host: Host, ledgers: seq<Ledger>, builds: seq<BuildRecord>,
                             i: nat, j: nat)
    requires RecordedInSequence(fork, base, ledgers, builds) && FinishedInSequence(fork, host, ledgers, builds)
    requires 0 < i < j <= |builds| && WritesCode(builds[i - 1].diff) && !WritesCode(builds[i].diff)
    requires forall k :: i < k < j - 1 ==> !WritesCode(builds[k].diff)
    ensures var last := ledgers[|builds|];
            var result := host.run(builds[i].code, GetMetadata, StateAt(fork, base, last.log, fork + i + 1));
            && result.Some? && host.decodeMetadata(result.value.output).Some?
            && VersionAt(last.versions, fork + j) == host.decodeMetadata(result.value.output)
  {
    assert RegisteredInSequence(fork, host, ledgers, builds) by {
      FinishedRegisters(fork, host, ledgers, builds);
    }
    UpgradeRegisters(fork, base, host, ledgers, builds, i, j);
    assert StateAt(fork, base, ledgers[|builds|].log, fork + (i + 1)) == ledgers[i + 1].working by {
      BlocksKept(fork, base, ledgers, builds, i + 1);
    }
    assert VersionAt(ledgers[|builds|].versions, fork + j) == VersionAt(ledgers[j].versions, fork + j) by {
      BlocksKept(fork, base, ledgers, builds, j);
    }
  }

  /** A build on a block that left `:code` alone so far notices exactly the writes made before finalization. */
  lemma UpgradeNoticed(fork: nat, host: Host, code: Bytes, header: Bytes, extrinsics: seq<Bytes>, upgraded: bool,
                       before: Ledger, after: Ledger, diff: seq<Entry>, result: BuildBlockResult)
    requires Finished(fork, host, code, header, extrinsics, upgraded, before, after, diff, result)
    requires !CodeSeenAt(fork, before.log, result.block.number)
    ensures var info := InfoOf(result.block.parent.value, before);
            upgraded <==> WritesCode(Build(host, code, info, header, extrinsics, before.working).value.unfinalized)
  {
    var info := InfoOf(result.block.parent.value, before);
    TouchAfterBatch(before.log, result.block.number,
        Build(host, code, info, header, extrinsics, before.working).value.unfinalized, CODE);
  }

  lemma {:induction false} CodeSurvives(s: State, diff: seq<Entry>)
    requires !WritesCode(diff)
    ensures Lookup(Overlay(s, diff), CODE) == Lookup(s, CODE)
  {
    if diff != [] {
      CodeSurvives(s, diff[..|diff| - 1]);
    }
  }

  /** One build on block `n`. */
  ghost predicate BuiltNext(fork: nat, host: Host, serves: bool, n: nat, before: Ledger, after: Ledger,
                            b: BuildRecord) {
    && Recorded(n + 1, before, after, b.diff)
    && Finished(fork, host, b.code, b.header, b.extrinsics, b.upgraded, before, after, b.diff, b.result)
    && b.result.block.parent.value.number == n
    && Recompiled(host, b.upgraded, serves, after, b.compiled)
  }

  /** The build left `:code` as it was, or wrote it before finalization and what it now holds compiles. */
  ghost predicate KeepsUp(host: Host, metadata: Option<Metadata>, b: BuildRecord, s: State, now: Option<Bytes>) {
    now == Lookup(s, CODE) || (WritesCodeEarly(host, metadata, b, s) && now.Some? && host.compiles(now.value))
  }

  /** The build writes `:code` before finalization. */
  ghost predicate WritesCodeEarly(host: Host, metadata: Option<Metadata>, b: BuildRecord, s: State) {
    && metadata.Some? && b.result.block.parent.Some?
    && var built := Build(host, b.code, AsParent(b.result.block.parent.value, metadata.value), b.header, b.extrinsics,
        s);
    && built.Some? && WritesCode(built.value.unfinalized)
  }

  lemma RecompiledKeepsUp(host: Host, early: bool, after: Ledger, compiled: Option<Bytes>, code: Bytes)
    requires Recompiled(host, early, true, after, compiled) && Seeded(after.log, CODE)
    ensures var now := Lookup(after.working, CODE);
            now == Some(if compiled.Some? then compiled.value else code)
            <==> (now == Some(code) || (early && now.Some? && host.compiles(now.value)))
  {
  }

  /** After a build on block `n`, with storage answering, the executor still runs what `:code` holds exactly
      when the build left the key as it was, or wrote it before finalization and the code compiles. A change
      made by finalization alone is missed. */
  lemma ExecutorKeepsUp(fork: nat, host: Host, n: nat, before: Ledger, after: Ledger, b: BuildRecord)
    requires BuiltNext(fork, host, true, n, before, after, b)
    requires Seeded(after.log, CODE) && !CodeSeenAt(fork, before.log, n + 1)
    requires Lookup(before.working, CODE) == Some(b.code)
    ensures var now := Lookup(after.working, CODE);
            && (now == Some(b.NextCode()) <==> KeepsUp(host, VersionAt(before.versions, n), b, before.working, now))
            && (!WritesCode(b.diff) ==> now == Some(b.code))
  {
    assert b.upgraded <==> WritesCodeEarly(host, VersionAt(before.versions, n), b, before.working) by {
      UpgradeNoticed(fork, host, b.code, b.header, b.extrinsics, b.upgraded, before, after, b.diff, b.result);
    }
    RecompiledKeepsUp(host, b.upgraded, after, b.compiled, b.code);
    if !WritesCode(b.diff) {
      CodeSurvives(before.working, b.diff);
    }
  }

  /** Along a run every build runs on the executor the one before it left. */
  ghost predicate ExecutorAt(host: Host, serves: bool, ledgers: seq<Ledger>, builds: seq<BuildRecord>, i: nat) {
    i < |builds| && i + 1 < |ledgers| ==>
      && Recompiled(host, builds[i].upgraded, serves, ledgers[i + 1], builds[i].compiled)
      && (i + 1 < |builds| ==> builds[i + 1].code == builds[i].NextCode())
  }

  ghost predicate ExecutorsInSequence(host: Host, serves: bool, ledgers: seq<Ledger>, builds: seq<BuildRecord>) {
    |ledgers| == |builds| + 1 && forall i: nat :: ExecutorAt(host, serves, ledgers, builds, i)
  }

  lemma ExecutorsExtend(host: Host, serves: bool, ledgers: seq<Ledger>, builds: seq<BuildRecord>, after: Ledger,
                        b: BuildRecord)
    requires ExecutorsInSequence(host, serves, ledgers, builds)
    requires Recompiled(host, b.upgraded, serves, after, b.compiled)
    requires builds != [] ==> b.code == builds[|builds| - 1].NextCode()
    ensures ExecutorsInSequence(host, serves, ledgers + [after], builds + [b])
  {
    forall i: nat ensures ExecutorAt(host, serves, ledgers + [after], builds + [b], i) {
      if i < |builds| {
        assert ExecutorAt(host, serves, ledgers, builds, i);
      }
    }
  }

  /** Everything a run of builds from a fresh fork leaves behind. */
  ghost predicate BuiltInSequence(fork: nat, base: State, host: Host, serves: bool, ledgers: seq<Ledger>,
                                  builds: seq<BuildRecord>) {
    && RecordedInSequence(fork, base, ledgers, builds) && FinishedInSequence(fork, host, ledgers, builds)
    && ExecutorsInSequence(host, serves, ledgers, builds) && ChainOfBlocks(builds)
  }

  /** The parent is the block, on a layer of its own. */
  ghost predicate IsParent(parent: Option<Block>, b: Block) {
    parent.Some? && parent.value == b.(storage := parent.value.storage)
  }

  /** Each build sits on the block of the one before, so what its inherent providers see is that block. */
  ghost predicate ChainOfBlocks(builds: seq<BuildRecord>) {
    forall i: nat :: ChainedAt(builds, i)
  }

  ghost predicate ChainedAt(builds: seq<BuildRecord>, i: nat) {
    i + 1 < |builds| ==> IsParent(builds[i + 1].result.block.parent, builds[i].result.block)
  }

  /** Spelled out. */
  lemma ParentSeen(builds: seq<BuildRecord>, i: nat, metadata: Metadata)
    requires ChainOfBlocks(builds) && i + 1 < |builds|
    ensures builds[i + 1].result.block.parent.Some?
    ensures var seen, b := AsParent(builds[i + 1].result.block.parent.value, metadata), builds[i].result.block;
            && seen.number == b.number && seen.hash == b.hash && seen.parentHash == b.parentHash
            && seen.header == b.header && seen.extrinsics == b.extrinsics && seen.metadata == metadata
  {
    assert ChainedAt(builds, i);
  }

  lemma ChainGrows(builds: seq<BuildRecord>, b: BuildRecord)
    requires ChainOfBlocks(builds)
    requires builds != [] ==> IsParent(b.result.block.parent, builds[|builds| - 1].result.block)
    ensures ChainOfBlocks(builds + [b])
  {
    forall i: nat ensures ChainedAt(builds + [b], i) {
      assert ChainedAt(builds, i);
    }
  }

  datatype BlockInput = BlockInput(extrinsics: seq<Bytes>, header: Bytes)

  /** The builds got `inputs`, in this order; the first ran `code`, and the next one would run `next`. */
  ghost predicate BuiltFrom(code: Bytes, inputs: seq<BlockInput>, builds: seq<BuildRecord>, next: Bytes) {
    && |builds| == |inputs|
    && (forall i :: 0 <= i < |builds| ==> BlockInput(builds[i].extrinsics, builds[i].header) == inputs[i])
    && (builds != [] ==> builds[0].code == code)
    && next == if builds == [] then code else builds[|builds| - 1].NextCode()
  }

  lemma BuiltFromOneMore(code: Bytes, inputs: seq<BlockInput>, i: nat, builds: seq<BuildRecord>, running: Bytes,
                         b: BuildRecord)
    requires i < |inputs| && BuiltFrom(code, inputs[..i], builds, running)
    requires b.code == running && BlockInput(b.extrinsics, b.header) == inputs[i]
    ensures BuiltFrom(code, inputs[..i + 1], builds + [b], b.NextCode())
  {
  }

  /** A run of builds from `start` and the executor's `code` to the executor's `next`. */
  ghost predicate RunFacts(fork: nat, host: Host, serves: bool, start: Ledger, code: Bytes, inputs: seq<BlockInput>,
                           ledgers: seq<Ledger>, builds: seq<BuildRecord>, next: Bytes) {
    && BuiltInSequence(fork, start.working, host, serves, ledgers, builds) && ledgers[0] == start
    && BuiltFrom(code, inputs, builds, next)
  }

  /** The same behind a quantifier, so that a loop carries it along unopened. */
  ghost predicate RunOf(fork: nat, host: Host, serves: bool, start: Ledger, code: Bytes, inputs: seq<BlockInput>,
                        ledgers: seq<Ledger>, builds: seq<BuildRecord>, next: Bytes) {
    forall door: nat :: Knock(door) ==> RunFacts(fork, host, serves, start, code, inputs, ledgers, builds, next)
  }

  lemma OpenRun(fork: nat, host: Host, serves: bool, start: Ledger, code: Bytes, inputs: seq<BlockInput>,
                ledgers: seq<Ledger>, builds: seq<BuildRecord>, next: Bytes)
    requires RunOf(fork, host, serves, start, code, inputs, ledgers, builds, next)
    ensures RunFacts(fork, host, serves, start, code, inputs, ledgers, builds, next)
  {
    assert Knock(0);
  }

  lemma NothingBuilt(fork: nat, host: Host, serves: bool, start: Ledger, code: Bytes)
    requires OnlyInjected(start.log) && forall b :: b in start.versions ==> b <= fork
    ensures RunOf(fork, host, serves, start, code, [], [start], [], code)
  {
  }

  /** A run goes on with the next build. */
  lemma RunGoesOn(fork: nat, host: Host, serves: bool, start: Ledger, code: Bytes, inputs: seq<BlockInput>, i: nat,
                  ledgers: seq<Ledger>, builds: seq<BuildRecord>, n: nat, before: Ledger, running: Bytes,
                  after: Ledger, b: BuildRecord)
    requires i < |inputs| && RunOf(fork, host, serves, start, code, inputs[..i], ledgers, builds, running)
    requires |builds| == i && |ledgers| == i + 1 && n == fork + i && before == ledgers[i] && b.code == running
    requires BuiltNext(fork, host, serves, n, before, after, b) && BlockInput(b.extrinsics, b.header) == inputs[i]
    requires builds != [] ==> IsParent(b.result.block.parent, builds[|builds| - 1].result.block)
    ensures RunOf(fork, host, serves, start, code, inputs[..i + 1], ledgers + [after], builds + [b], b.NextCode())
  {
    OpenRun(fork, host, serves, start, code, inputs[..i], ledgers, builds, running);
    assert BuiltInSequence(fork, start.working, host, serves, ledgers + [after], builds + [b]) by {
      SequenceGoesOn(fork, start.working, host, serves, ledgers, builds, n, before, after, b);
    }
    assert BuiltFrom(code, inputs[..i + 1], builds + [b], b.NextCode()) by {
      BuiltFromOneMore(code, inputs, i, builds, running, b);
    }
  }

  lemma SequenceGoesOn(fork: nat, base: State, host: Host, serves: bool, ledgers: seq<Ledger>, builds: seq<BuildRecord>,
                       n: nat, before: Ledger, after: Ledger, b: BuildRecord)
    requires BuiltInSequence(fork, base, host, serves, ledgers, builds)
    requires n == fork + |builds| && before == ledgers[|builds|]
    requires BuiltNext(fork, host, serves, n, before, after, b)
    requires builds != [] ==> b.code == builds[|builds| - 1].NextCode()
    requires builds != [] ==> IsParent(b.result.block.parent, builds[|builds| - 1].result.block)
    ensures BuiltInSequence(fork, base, host, serves, ledgers + [after], builds + [b])
  {
    assert RecordedInSequence(fork, base, ledgers + [after], builds + [b]) by {
      RecordedExtends(fork, base, ledgers, builds, n, before, after, b);
    }
    assert FinishedInSequence(fork, host, ledgers + [after], builds + [b]) by {
      FinishedExtends(fork, host, ledgers, builds, n, before, after, b);
    }
    assert ChainOfBlocks(builds + [b]) by {
      ChainGrows(builds, b);
    }
    assert ExecutorsInSequence(host, serves, ledgers + [after], builds + [b]) by {
      ExecutorsExtend(host, serves, ledgers, builds, after, b);
    }
  }

  /** The code build `i` runs, and past the last build the code the next one would run. */
  function Executor(builds: seq<BuildRecord>, i: nat): Bytes
    requires i <= |builds| && builds != []
  {
    if i < |builds| then builds[i].code else builds[i - 1].NextCode()
  }

  ghost predicate Followable(fork: nat, host: Host, ledgers: seq<Ledger>, builds: seq<BuildRecord>, i: nat)
    requires |ledgers| == |builds| + 1
  {
    i < |builds| ==>
      KeepsUp(host, VersionAt(ledgers[i].versions, fork + i), builds[i], ledgers[i].working,
              Lookup(ledgers[i + 1].working, CODE))
  }

  lemma CodeSeededButUnseen(fork: nat, base: State, ledgers: seq<Ledger>, builds: seq<BuildRecord>, i: nat)
    requires RecordedInSequence(fork, base, ledgers, builds) && i < |builds|
    ensures Seeded(ledgers[i + 1].log, CODE) && !CodeSeenAt(fork, ledgers[i].log, fork + i + 1)
  {
    var j := i + 1;
    assert Seeded(ledgers[j].log, CODE) by {
      BuildsMakeRunLog(fork, base, ledgers, builds, j);
      RunLogSeeded(fork, fork + j, ledgers[j].log, CODE);
    }
    BuildsMakeRunLog(fork, base, ledgers, builds, i);
    TouchBounded(Initial(fork, base).(current := fork + i), ledgers[i].log, CODE);
  }

  lemma BuiltAt(fork: nat, base: State, host: Host, ledgers: seq<Ledger>, builds: seq<BuildRecord>, i: nat)
    requires RecordedInSequence(fork, base, ledgers, builds) && FinishedInSequence(fork, host, ledgers, builds)
    requires ExecutorsInSequence(host, true, ledgers, builds) && i < |builds|
    ensures BuiltNext(fork, host, true, fork + i, ledgers[i], ledgers[i + 1], builds[i])
  {
    assert RecordedAt(fork, ledgers, builds, i) && FinishedAt(fork, host, ledgers, builds, i);
    assert ExecutorAt(host, true, ledgers, builds, i);
  }

  /** One build, as `ExecutorKeepsUp` has it. */
  lemma ExecutorStep(fork: nat, base: State, host: Host, ledgers: seq<Ledger>, builds: seq<BuildRecord>, i: nat)
    requires RecordedInSequence(fork, base, ledgers, builds) && FinishedInSequence(fork, host, ledgers, builds)
    requires ExecutorsInSequence(host, true, ledgers, builds) && i < |builds|
    requires Lookup(ledgers[i].working, CODE) == Some(builds[i].code)
    ensures var before, now := ledgers[i], Lookup(ledgers[i + 1].working, CODE);
            now == Some(builds[i].NextCode())
            <==> KeepsUp(host, VersionAt(before.versions, fork + i), builds[i], before.working, now)
  {
    var before, after, b := ledgers[i], ledgers[i + 1], builds[i];
    BuiltAt(fork, base, host, ledgers, builds, i);
    CodeSeededButUnseen(fork, base, ledgers, builds, i);
    ExecutorKeepsUp(fork, host, fork + i, before, after, b);
  }

  /** Over every run, with storage answering and an executor that starts on the `:code` of the fork: every
      block runs exactly the code its parent state holds, and so does what follows, if and only if no build
      changes `:code` in finalization alone or to something that does not compile. */
  lemma BlocksRunTheirCode(fork: nat, base: State, host: Host, ledgers: seq<Ledger>, builds: seq<BuildRecord>)
    requires RecordedInSequence(fork, base, ledgers, builds) && FinishedInSequence(fork, host, ledgers, builds)
    requires ExecutorsInSequence(host, true, ledgers, builds)
    requires builds != [] && Lookup(base, CODE) == Some(builds[0].code)
    ensures (forall i: nat :: i <= |builds| ==> Lookup(ledgers[i].working, CODE) == Some(Executor(builds, i)))
       <==> (forall i: nat :: i < |builds| ==> Followable(fork, host, ledgers, builds, i))
  {
    if forall i: nat :: i < |builds| ==> Followable(fork, host, ledgers, builds, i) {
      forall i: nat | i <= |builds| ensures Lookup(ledgers[i].working, CODE) == Some(Executor(builds, i)) {
        CodeFollowed(fork, base, host, ledgers, builds, i);
      }
    }
    if forall i: nat :: i <= |builds| ==> Lookup(ledgers[i].working, CODE) == Some(Executor(builds, i)) {
      forall i: nat | i < |builds| ensures Followable(fork, host, ledgers, builds, i) {
        assert Lookup(ledgers[i].working, CODE) == Some(Executor(builds, i));
        assert Lookup(ledgers[i + 1].working, CODE) == Some(Executor(builds, i + 1));
        assert ExecutorAt(host, true, ledgers, builds, i);
        ExecutorStep(fork, base, host, ledgers, builds, i);
      }
    }
  }

  lemma {:induction false} CodeFollowed(fork: nat, base: State, host: Host, ledgers: seq<Ledger>,
                                        builds: seq<BuildRecord>, i: nat)
    requires RecordedInSequence(fork, base, ledgers, builds) && FinishedInSequence(fork, host, ledgers, builds)
    requires ExecutorsInSequence(host, true, ledgers, builds) && i <= |builds|
    requires builds != [] && Lookup(base, CODE) == Some(builds[0].code)
    requires forall j: nat :: j < i ==> Followable(fork, host, ledgers, builds, j)
    ensures Lookup(ledgers[i].working, CODE) == Some(Executor(builds, i))
  {
    if i > 0 {
      var j := i - 1;
      CodeFollowed(fork, base, host, ledgers, builds, j);
      assert ExecutorAt(host, true, ledgers, builds, j);
      assert Followable(fork, host, ledgers, builds, j);
      ExecutorStep(fork, base, host, ledgers, builds, j);
    }
  }

  /** Then the final history says of each block that it was built with the code its parent state holds. */
  lemma BlocksRefineOwnCode(fork: nat, base: State, host: Host, ledgers: seq<Ledger>, builds: seq<BuildRecord>, i: nat)
    requires RecordedInSequence(fork, base, ledgers, builds) && FinishedInSequence(fork, host, ledgers, builds)
    requires ExecutorsInSequence(host, true, ledgers, builds)
    requires i < |builds| && Lookup(base, CODE) == Some(builds[0].code)
    requires forall j: nat :: j < |builds| ==> Followable(fork, host, ledgers, builds, j)
    ensures var last := ledgers[|builds|];
            var state := StateAt(fork, base, last.log, fork + i);
            && Lookup(state, CODE) == Some(builds[i].code)
            && RefinesBuild(host, VersionAt(last.versions, fork + i), fork + i + 1,
                            state, StateAt(fork, base, last.log, fork + (i + 1)), builds[i])
  {
    BlocksRefineBuilds(fork, base, host, ledgers, builds, i);
    BlocksKept(fork, base, ledgers, builds, i);
    CodeFollowed(fork, base, host, ledgers, builds, i);
  }

  function MigratingHost(code: Bytes): Host {
    Host((_, call: Call, _) => Some(CallResult([], if call.FinalizeBlock? then [Entry(CODE, Some(code))] else [])),
         [], _ => false, [], _ => None, _ => Hash([]), _ => true)
  }

  lemma MigratingBuild(running: Bytes, next: Bytes, parent: Parent)
    ensures Build(MigratingHost(next), running, parent, [], [], map[CODE := running])
         == Some(Built([Entry(CODE, Some(next))], [], [], [], Applied([], [], [])))
  {
    assert [] + [] + [Entry(CODE, Some(next))] == [Entry(CODE, Some(next))];
    var none: seq<Bytes> := [];
    assert none + none == none;
  }

  /** A runtime whose finalization installs new code: the build succeeds, `:code` holds the new code, and the
      executor stays on the old one, whatever the read of `:code` would give. */
  lemma UpgradeInFinalizationMissed(running: Bytes, next: Bytes, metadata: Metadata, parent: Block, fork: nat)
    requires running != next
    ensures var host, n := MigratingHost(next), parent.number + 1;
            var versions, diff := map[parent.number := metadata], [Entry(CODE, Some(next))];
            var before := Ledger([], map[CODE := running], versions);
            var after := Ledger(WroteAll(n, diff), map[CODE := next], versions);
            var block := Block(n, Hash([]), parent.hash, [], [], parent.storage, Some(parent));
            && Recorded(n, before, after, diff)
            && Finished(fork, host, running, [], [], false, before, after, diff, BuildBlockResult(block, [], []))
            && Lookup(before.working, CODE) == Some(running) && Lookup(after.working, CODE) == Some(next)
            && forall serves, code :: Recompiled(host, false, serves, after, code) ==> code.None?
  {
    var versions, diff := map[parent.number := metadata], [Entry(CODE, Some(next))];
    var n := parent.number + 1;
    MigratingBuild(running, next, AsParent(parent, metadata));
    OverlayOne(map[CODE := running], [], diff[0]);
    var log: seq<Event> := [];
    assert [] + diff == diff && log + WroteAll(n, diff) == WroteAll(n, diff) && log + WroteAll(n, []) == log;
    TouchAfterBatch(log, n, diff, CODE);
    assert diff[0].key == CODE;
  }
}
