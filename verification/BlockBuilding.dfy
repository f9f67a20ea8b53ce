/** What building a block does to the working state, as a function of the runtime. */
module BlockBuilding {
  import opened Wrappers
  import opened ByteStrings
  import opened Upstream
  import opened IntervalTable
  import opened Versioning
  import opened MetadataHistory

  datatype Call = InitializeBlock(header: Bytes) | ApplyExtrinsic(extrinsic: Bytes) | FinalizeBlock | GetMetadata

  datatype CallResult = CallResult(output: Bytes, diff: seq<Entry>)

  /** What can be known of the block a build sits on, beside the state. */
  datatype Parent = Parent(number: nat, hash: Hash, parentHash: Hash, header: Bytes, extrinsics: seq<Bytes>,
                           metadata: Metadata)

  /** An inherent provider looks at the parent block, and through the executor's code at the state. */
  type Provider = (Bytes, Parent, State) -> Option<seq<Bytes>>

  /** Everything foreign: the runtime as a function of its code, the call and the state it runs on, the
      inherent providers, and the pure helpers the builder uses. */
  datatype Host = Host(
    run: (Bytes, Call, State) -> Option<CallResult>,
    providers: seq<Provider>,
    isRelayChain: Metadata -> bool,
    includedKey: Bytes,
    decodeMetadata: Bytes -> Option<Metadata>,
    hashOf: Bytes -> Hash,
    compiles: Bytes -> bool)

  /** An inherent must be applied and dispatched successfully: output `Ok(Ok(()))`. */
  predicate InherentOk(output: Bytes): (ok: bool)
    ensures ok <==> StartsWith(output, [0, 0])
  {
    |output| >= 2 && output[0] == 0x00 && output[1] == 0x00
  }

  /** A user extrinsic counts as included as soon as the outer result is `Ok`. */
  predicate OuterOk(output: Bytes): (ok: bool)
    ensures ok <==> StartsWith(output, [0])
  {
    |output| >= 1 && output[0] == 0x00
  }

  /** What has been gathered so far in front of what the rest yields, if it yields anything. */
  function InFront<T>(done: seq<T>, rest: Option<seq<T>>): (r: Option<seq<T>>)
    ensures done == [] ==> r == rest
    ensures rest == Some([]) ==> r == Some(done)
  {
    if rest.None? then None
    else
      assert [] + rest.value == rest.value && done + [] == done;
      Some(done + rest.value)
  }

  lemma InFrontJoins<T>(a: seq<T>, b: seq<T>, rest: Option<seq<T>>)
    ensures InFront(a, InFront(b, rest)) == InFront(a + b, rest)
  {
    if rest.Some? {
      assert a + (b + rest.value) == (a + b) + rest.value;
    }
  }

  /** All providers are asked, in order, before any inherent is applied. */
  function CollectInherents(providers: seq<Provider>, code: Bytes, parent: Parent, s: State): Option<seq<Bytes>> {
    if providers == [] then Some([])
    else
      var first := providers[0](code, parent, s);
      if first.None? then None else InFront(first.value, CollectInherents(providers[1..], code, parent, s))
  }

  function Flatten<T>(parts: seq<seq<T>>): seq<T> {
    if parts == [] then [] else parts[0] + Flatten(parts[1..])
  }

  lemma {:induction false} FlattenAppend<T>(parts: seq<seq<T>>, more: seq<seq<T>>)
    ensures Flatten(parts + more) == Flatten(parts) + Flatten(more)
  {
    if parts == [] {
      assert parts + more == more;
    } else {
      assert (parts + more)[1..] == parts[1..] + more;
      FlattenAppend(parts[1..], more);
    }
  }

  lemma FlattenOne<T>(part: seq<T>)
    ensures Flatten([part]) == part
  {
    assert [part][1..] == [];
  }

  ghost predicate AllAnswer(providers: seq<Provider>, code: Bytes, parent: Parent, s: State) {
    forall i :: 0 <= i < |providers| ==> providers[i](code, parent, s).Some?
  }

  ghost predicate Answer(providers: seq<Provider>, code: Bytes, parent: Parent, s: State, answers: seq<seq<Bytes>>) {
    && |answers| == |providers|
    && forall i :: 0 <= i < |providers| ==> providers[i](code, parent, s) == Some(answers[i])
  }

  /** Inherents are collected when every provider answers: the answers one after the other, in the order of the
      providers, none left out. */
  lemma {:induction false} EveryProviderAsked(providers: seq<Provider>, code: Bytes, parent: Parent, s: State)
    ensures CollectInherents(providers, code, parent, s).Some? <==> AllAnswer(providers, code, parent, s)
    ensures AllAnswer(providers, code, parent, s) ==>
      exists answers :: Answer(providers, code, parent, s, answers)
        && CollectInherents(providers, code, parent, s) == Some(Flatten(answers))
  {
    if providers == [] {
      assert Answer(providers, code, parent, s, []);
    } else {
      var rest := providers[1..];
      EveryProviderAsked(rest, code, parent, s);
      FirstAndRest(providers, code, parent, s);
      if AllAnswer(providers, code, parent, s) {
        var later :| Answer(rest, code, parent, s, later)
            && CollectInherents(rest, code, parent, s) == Some(Flatten(later));
        var answers := [providers[0](code, parent, s).value] + later;
        assert answers[1..] == later;
        forall i | 0 <= i < |providers| ensures providers[i](code, parent, s) == Some(answers[i]) {
          if i > 0 {
            assert providers[i] == rest[i - 1];
          }
        }
        assert Answer(providers, code, parent, s, answers);
      }
    }
  }

  lemma FirstAndRest(providers: seq<Provider>, code: Bytes, parent: Parent, s: State)
    requires providers != []
    ensures AllAnswer(providers, code, parent, s)
       <==> providers[0](code, parent, s).Some? && AllAnswer(providers[1..], code, parent, s)
  {
    var rest := providers[1..];
    forall i | 0 <= i < |rest| ensures rest[i] == providers[i + 1] {
    }
    if providers[0](code, parent, s).Some? && AllAnswer(rest, code, parent, s) {
      forall i | 0 <= i < |providers| ensures providers[i](code, parent, s).Some? {
        if i > 0 {
          assert providers[i] == rest[i - 1];
        }
      }
    }
  }

  /** The concatenated diffs of the inherents, each run on what the ones before it left; None if any fails. */
  function InherentDiff(host: Host, code: Bytes, inherents: seq<Bytes>, s: State): Option<seq<Entry>> {
    if inherents == [] then Some([])
    else
      var result := host.run(code, ApplyExtrinsic(inherents[0]), s);
      if result.None? || !InherentOk(result.value.output) then None
      else
        InFront(result.value.diff, InherentDiff(host, code, inherents[1..], Overlay(s, result.value.diff)))
  }

  datatype FailedExtrinsic = FailedExtrinsic(extrinsic: Bytes, reason: Bytes)

  datatype Applied = Applied(diff: seq<Entry>, included: seq<Bytes>, failed: seq<FailedExtrinsic>)

  /** User extrinsics in order: an included one leaves its diff, a failed one leaves nothing. */
  function ApplyAll(host: Host, code: Bytes, extrinsics: seq<Bytes>, s: State): Option<Applied> {
    if extrinsics == [] then Some(Applied([], [], []))
    else
      var x := extrinsics[0];
      var result := host.run(code, ApplyExtrinsic(x), s);
      if result.None? then None
      else if OuterOk(result.value.output) then
        var rest := ApplyAll(host, code, extrinsics[1..], Overlay(s, result.value.diff));
        if rest.None? then None
        else Some(Applied(result.value.diff + rest.value.diff, [x] + rest.value.included, rest.value.failed))
      else
        var rest := ApplyAll(host, code, extrinsics[1..], s);
        if rest.None? then None
        else Some(rest.value.(failed := [FailedExtrinsic(x, result.value.output)] + rest.value.failed))
  }

  /** On a relay chain `ParaInherent::Included` is written directly, with the empty encoding of `()`. */
  function RelayMock(host: Host, metadata: Metadata): seq<Entry> {
    if host.isRelayChain(metadata) then [Entry(host.includedKey, Some([]))] else []
  }

  datatype Prepared = Prepared(diff: seq<Entry>, inherents: seq<Bytes>)

  /** Initialization and inherents. */
  function Prepare(host: Host, code: Bytes, parent: Parent, header: Bytes, s: State): Option<Prepared> {
    var initial := host.run(code, InitializeBlock(header), s);
    if initial.None? then None
    else
      var s1 := Overlay(s, initial.value.diff);
      var inherents := CollectInherents(host.providers, code, parent, s1);
      if inherents.None? then None
      else
        var diff := InherentDiff(host, code, inherents.value, s1);
        if diff.None? then None
        else Some(Prepared(initial.value.diff + (diff.value + RelayMock(host, parent.metadata)), inherents.value))
  }

  lemma PreparationSteps(host: Host, code: Bytes, parent: Parent, header: Bytes, s: State,
                         initial: CallResult, inherents: seq<Bytes>, diff: seq<Entry>)
    requires host.run(code, InitializeBlock(header), s) == Some(initial)
    requires CollectInherents(host.providers, code, parent, Overlay(s, initial.diff)) == Some(inherents)
    requires InherentDiff(host, code, inherents, Overlay(s, initial.diff)) == Some(diff)
    ensures Prepare(host, code, parent, header, s)
         == Some(Prepared(initial.diff + (diff + RelayMock(host, parent.metadata)), inherents))
  {
  }

  /** `unfinalized` is the part of the diff that was there before finalization. */
  datatype Built = Built(diff: seq<Entry>, unfinalized: seq<Entry>, body: seq<Bytes>, header: Bytes, applied: Applied)

  /** A whole build on the working state `s`. */
  function Build(host: Host, code: Bytes, parent: Parent, header: Bytes, extrinsics: seq<Bytes>,
                 s: State): Option<Built> {
    var prepared := Prepare(host, code, parent, header, s);
    if prepared.None? then None
    else
      var s1 := Overlay(s, prepared.value.diff);
      var applied := ApplyAll(host, code, extrinsics, s1);
      if applied.None? then None
      else
        var final := host.run(code, FinalizeBlock, Overlay(s1, applied.value.diff));
        if final.None? then None
        else Some(Built(prepared.value.diff + applied.value.diff + final.value.diff,
                        prepared.value.diff + applied.value.diff,
                        prepared.value.inherents + applied.value.included, final.value.output, applied.value))
  }

  /** The metadata history after building block `n`: when the previous block last wrote `:code`, the block
      being built is the first to run the new code and its metadata is registered for it. */
  ghost predicate Registers(host: Host, code: Bytes, s: State, codeChanged: bool, n: nat, before: Versions,
                            after: Versions) {
    if !codeChanged then after == before
    else
      var result := host.run(code, GetMetadata, s);
      && result.Some? && host.decodeMetadata(result.value.output).Some?
      && after == before[n := host.decodeMetadata(result.value.output).value]
  }

  /** The runtime reports metadata that decodes. */
  ghost predicate ReportsMetadata(host: Host, code: Bytes, s: State) {
    var result := host.run(code, GetMetadata, s);
    result.Some? && host.decodeMetadata(result.value.output).Some?
  }

  /** Why finalization on `s` fails while storage answers: the call itself, or an upgrade seen after it whose
      metadata cannot be had. */
  ghost predicate CannotFinalize(host: Host, code: Bytes, s: State, codeChanged: bool, diff: seq<Entry>, after: State) {
    var final := host.run(code, FinalizeBlock, s);
    final.None? || (diff == final.value.diff && codeChanged && !ReportsMetadata(host, code, after))
  }

  // ---- Failed extrinsics ----

  function ExtrinsicsOf(failed: seq<FailedExtrinsic>): (xs: seq<Bytes>)
    ensures |xs| == |failed|
  {
    seq(|failed|, i requires 0 <= i < |failed| => failed[i].extrinsic)
  }

  /** `a` and `b` split `all` between them, each in the order of `all`. */
  ghost predicate Splits(all: seq<Bytes>, a: seq<Bytes>, b: seq<Bytes>) {
    if all == [] then a == [] && b == []
    else
      || (a != [] && a[0] == all[0] && Splits(all[1..], a[1..], b))
      || (b != [] && b[0] == all[0] && Splits(all[1..], a, b[1..]))
  }

  /** The members of `all` at the positions that have the mark, in the order of `all`. */
  function Chosen(all: seq<Bytes>, marks: seq<bool>, mark: bool): seq<Bytes>
    requires |marks| == |all|
  {
    if all == [] then [] else (if marks[0] == mark then [all[0]] else []) + Chosen(all[1..], marks[1..], mark)
  }

  /** Spelled out: every position of `all` goes to one of the two. */
  lemma {:induction false} SplitMarks(all: seq<Bytes>, a: seq<Bytes>, b: seq<Bytes>) returns (marks: seq<bool>)
    requires Splits(all, a, b)
    ensures |marks| == |all| && a == Chosen(all, marks, true) && b == Chosen(all, marks, false)
  {
    marks := [];
    if all != [] {
      var first := a != [] && a[0] == all[0] && Splits(all[1..], a[1..], b);
      var rest;
      if first {
        rest := SplitMarks(all[1..], a[1..], b);
      } else {
        rest := SplitMarks(all[1..], a, b[1..]);
      }
      marks := [first] + rest;
      assert marks[1..] == rest;
    }
  }

  lemma {:induction false} FailedLeaveNoDiff(host: Host, code: Bytes, extrinsics: seq<Bytes>, s: State)
    requires ApplyAll(host, code, extrinsics, s).Some?
    ensures var applied := ApplyAll(host, code, extrinsics, s).value;
            && Splits(extrinsics, applied.included, ExtrinsicsOf(applied.failed))
            && ApplyAll(host, code, applied.included, s) == Some(applied.(failed := []))
  {
    if extrinsics != [] {
      var result := host.run(code, ApplyExtrinsic(extrinsics[0]), s).value;
      var applied := ApplyAll(host, code, extrinsics, s).value;
      if OuterOk(result.output) {
        FailedLeaveNoDiff(host, code, extrinsics[1..], Overlay(s, result.diff));
        assert applied.included[1..] == ApplyAll(host, code, extrinsics[1..], Overlay(s, result.diff)).value.included;
      } else {
        FailedLeaveNoDiff(host, code, extrinsics[1..], s);
        var rest := ApplyAll(host, code, extrinsics[1..], s).value;
        assert ExtrinsicsOf(applied.failed)[1..] == ExtrinsicsOf(rest.failed);
      }
    }
  }

  /** Dropping the failed extrinsics from the input gives the same block and the same storage. */
  lemma FailedLeaveNoTrace(host: Host, code: Bytes, parent: Parent, header: Bytes, extrinsics: seq<Bytes>, s: State)
    requires Build(host, code, parent, header, extrinsics, s).Some?
    ensures var built := Build(host, code, parent, header, extrinsics, s).value;
            && Splits(extrinsics, built.applied.included, ExtrinsicsOf(built.applied.failed))
            && built.body == Prepare(host, code, parent, header, s).value.inherents + built.applied.included
            && Build(host, code, parent, header, built.applied.included, s)
               == Some(built.(applied := built.applied.(failed := [])))
  {
    FailedLeaveNoDiff(host, code, extrinsics, Overlay(s, Prepare(host, code, parent, header, s).value.diff));
  }

  // ---- The loops, seen from the middle ----

  lemma {:induction false} InherentStep(host: Host, code: Bytes, inherents: seq<Bytes>, i: nat, s: State,
                                        done: seq<Entry>)
    requires i < |inherents|
    ensures var result := host.run(code, ApplyExtrinsic(inherents[i]), Overlay(s, done));
            var here := InherentDiff(host, code, inherents[i..], Overlay(s, done));
            if result.None? || !InherentOk(result.value.output) then here.None?
            else
              InFront(done, here) == InFront(done + result.value.diff,
                InherentDiff(host, code, inherents[i + 1..], Overlay(s, done + result.value.diff)))
  {
    var result := host.run(code, ApplyExtrinsic(inherents[i]), Overlay(s, done));
    assert inherents[i..][1..] == inherents[i + 1..];
    if result.Some? {
      var rest := InherentDiff(host, code, inherents[i + 1..], Overlay(s, done + result.value.diff));
      OverlayAppend(s, done, result.value.diff);
      InFrontJoins(done, result.value.diff, rest);
    }
  }

  function Prepend(done: Applied, rest: Option<Applied>): Option<Applied> {
    if rest.None? then None
    else Some(Applied(done.diff + rest.value.diff, done.included + rest.value.included,
                      done.failed + rest.value.failed))
  }

  lemma PrependNothing(rest: Option<Applied>)
    ensures Prepend(Applied([], [], []), rest) == rest
    ensures rest.Some? ==> Prepend(rest.value, Some(Applied([], [], []))) == rest
  {
    if rest.Some? {
      var a := rest.value;
      assert [] + a.diff == a.diff == a.diff + [];
      assert [] + a.included == a.included == a.included + [];
      assert [] + a.failed == a.failed == a.failed + [];
    }
  }

  /** Having applied some extrinsics, applying the next one and going on is going on from there. */
  lemma ApplyStep(host: Host, code: Bytes, extrinsics: seq<Bytes>, i: nat, s: State, done: Applied)
    requires i < |extrinsics|
    ensures var x := extrinsics[i];
            var result := host.run(code, ApplyExtrinsic(x), Overlay(s, done.diff));
            var here := Prepend(done, ApplyAll(host, code, extrinsics[i..], Overlay(s, done.diff)));
            if result.None? then here.None?
            else
              var next := if OuterOk(result.value.output)
                          then Applied(done.diff + result.value.diff, done.included + [x], done.failed)
                          else done.(failed := done.failed + [FailedExtrinsic(x, result.value.output)]);
              here == Prepend(next, ApplyAll(host, code, extrinsics[i + 1..], Overlay(s, next.diff)))
  {
    var x := extrinsics[i];
    var result := host.run(code, ApplyExtrinsic(x), Overlay(s, done.diff));
    assert extrinsics[i..][1..] == extrinsics[i + 1..];
    if result.Some? {
      OverlayAppend(s, done.diff, result.value.diff);
      if OuterOk(result.value.output) {
        var rest := ApplyAll(host, code, extrinsics[i + 1..], Overlay(s, done.diff + result.value.diff));
        if rest.Some? {
          assert done.diff + (result.value.diff + rest.value.diff) == (done.diff + result.value.diff) + rest.value.diff;
          assert done.included + ([x] + rest.value.included) == (done.included + [x]) + rest.value.included;
        }
      } else {
        var rest := ApplyAll(host, code, extrinsics[i + 1..], Overlay(s, done.diff));
        if rest.Some? {
          var f := FailedExtrinsic(x, result.value.output);
          assert done.failed + ([f] + rest.value.failed) == (done.failed + [f]) + rest.value.failed;
        }
      }
    }
  }

  lemma PrependJoins(a: Applied, b: Applied, rest: Option<Applied>)
    ensures Prepend(a, Prepend(b, rest)) == Prepend(Prepend(a, Some(b)).value, rest)
  {
    if rest.Some? {
      var c := rest.value;
      assert a.diff + (b.diff + c.diff) == (a.diff + b.diff) + c.diff;
      assert a.included + (b.included + c.included) == (a.included + b.included) + c.included;
      assert a.failed + (b.failed + c.failed) == (a.failed + b.failed) + c.failed;
    }
  }

  /** What one extrinsic adds. */
  function Outcome(x: Bytes, result: CallResult): Applied {
    if OuterOk(result.output) then Applied(result.diff, [x], [])
    else Applied([], [], [FailedExtrinsic(x, result.output)])
  }

  lemma ApplyFirst(host: Host, code: Bytes, xs: seq<Bytes>, s: State)
    requires xs != [] && host.run(code, ApplyExtrinsic(xs[0]), s).Some?
    ensures var first := Outcome(xs[0], host.run(code, ApplyExtrinsic(xs[0]), s).value);
            ApplyAll(host, code, xs, s) == Prepend(first, ApplyAll(host, code, xs[1..], Overlay(s, first.diff)))
  {
    var first := Outcome(xs[0], host.run(code, ApplyExtrinsic(xs[0]), s).value);
    var rest := ApplyAll(host, code, xs[1..], Overlay(s, first.diff));
    if rest.Some? {
      assert [] + rest.value.diff == rest.value.diff && [] + rest.value.included == rest.value.included
          && [] + rest.value.failed == rest.value.failed;
    }
  }

  /** Applying some extrinsics and then others is applying them all. */
  lemma {:induction false} ApplyAppend(host: Host, code: Bytes, xs: seq<Bytes>, ys: seq<Bytes>, s: State)
    ensures ApplyAll(host, code, xs + ys, s)
         == if ApplyAll(host, code, xs, s).None? then None
            else Prepend(ApplyAll(host, code, xs, s).value,
                         ApplyAll(host, code, ys, Overlay(s, ApplyAll(host, code, xs, s).value.diff)))
  {
    if ys == [] {
      assert xs + ys == xs;
      if ApplyAll(host, code, xs, s).Some? {
        PrependNothing(ApplyAll(host, code, xs, s));
      }
    } else if xs == [] {
      assert xs + ys == ys;
      PrependNothing(ApplyAll(host, code, ys, s));
    } else {
      var x := xs[0];
      var result := host.run(code, ApplyExtrinsic(x), s);
      assert (xs + ys)[0] == x && (xs + ys)[1..] == xs[1..] + ys;
      if result.Some? {
        var first := Outcome(x, result.value);
        var s1 := Overlay(s, first.diff);
        ApplyFirst(host, code, xs, s);
        ApplyFirst(host, code, xs + ys, s);
        ApplyAppend(host, code, xs[1..], ys, s1);
        var tail := ApplyAll(host, code, xs[1..], s1);
        if tail.Some? {
          OverlayAppend(s, first.diff, tail.value.diff);
          PrependJoins(first, tail.value, ApplyAll(host, code, ys, Overlay(s1, tail.value.diff)));
        }
      }
    }
  }

  /** Wherever it stands in the input, an extrinsic whose dispatch did not succeed is dropped exactly when the
      runtime does not wrap the error in an outer `Ok`; when it does, with an output that begins `[0, 1]`, the extrinsic
      is included and its diff is kept. The rest goes on from there. */
  lemma DispatchErrorDropped(host: Host, code: Bytes, extrinsics: seq<Bytes>, i: nat, s: State)
    requires i < |extrinsics| && ApplyAll(host, code, extrinsics[..i], s).Some?
    requires var before := ApplyAll(host, code, extrinsics[..i], s).value;
             var result := host.run(code, ApplyExtrinsic(extrinsics[i]), Overlay(s, before.diff));
             result.Some? && !StartsWith(result.value.output, [0, 0])
    ensures var x, before, after := extrinsics[i], ApplyAll(host, code, extrinsics[..i], s).value,
                                    ApplyAll(host, code, extrinsics[..i + 1], s);
            var result := host.run(code, ApplyExtrinsic(x), Overlay(s, before.diff)).value;
            && after.Some?
            && (after.value == before.(failed := before.failed + [FailedExtrinsic(x, result.output)])
                <==> !StartsWith(result.output, [0]))
            && (after.value == Applied(before.diff + result.diff, before.included + [x], before.failed)
                <==> StartsWith(result.output, [0]))
            && ApplyAll(host, code, extrinsics, s)
               == Prepend(after.value, ApplyAll(host, code, extrinsics[i + 1..], Overlay(s, after.value.diff)))
  {
    var x, before := extrinsics[i], ApplyAll(host, code, extrinsics[..i], s).value;
    var s1 := Overlay(s, before.diff);
    var result := host.run(code, ApplyExtrinsic(x), s1).value;
    assert extrinsics[..i + 1] == extrinsics[..i] + [x];
    ApplyAppend(host, code, extrinsics[..i], [x], s);
    assert ApplyAll(host, code, [x], s1) == Some(Outcome(x, result)) by {
      ApplyOne(host, code, x, s1);
    }
    assert extrinsics == extrinsics[..i + 1] + extrinsics[i + 1..];
    ApplyAppend(host, code, extrinsics[..i + 1], extrinsics[i + 1..], s);
    assert before.diff + [] == before.diff && before.included + [] == before.included
        && before.failed + [] == before.failed;
  }

  lemma ApplyOne(host: Host, code: Bytes, x: Bytes, s: State)
    requires host.run(code, ApplyExtrinsic(x), s).Some?
    ensures ApplyAll(host, code, [x], s) == Some(Outcome(x, host.run(code, ApplyExtrinsic(x), s).value))
  {
    var first := Outcome(x, host.run(code, ApplyExtrinsic(x), s).value);
    ApplyFirst(host, code, [x], s);
    assert ApplyAll(host, code, [], Overlay(s, first.diff)) == Some(Applied([], [], []));
    PrependNothing(Some(first));
  }
}
