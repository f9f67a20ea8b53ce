/** Concurrent `build_block` calls: capture the head, build without a lock, compare and commit. */
module HeadProtocol {
  import opened Upstream

  datatype HeadBlock = HeadBlock(number: nat, hash: Hash, parentHash: Hash)

  datatype Build =
    | Captured(parent: HeadBlock)
    | Finished(parent: HeadBlock, block: HeadBlock)
    | Committed(parent: HeadBlock, block: HeadBlock)
    | Ended(parent: HeadBlock)
  {
    predicate HasBlock() {
      Finished? || Committed?
    }
  }

  /** `heads` lists every head ever installed, the current one last; `used` the hashes handed out so far. */
  datatype System = System(heads: seq<HeadBlock>, builds: map<nat, Build>, used: set<Hash>)

  datatype Action = Capture(pid: nat) | Finish(pid: nat, hash: Hash) | Fail(pid: nat) | CompareAndCommit(pid: nat)

  function Head(s: System): HeadBlock
    requires s.heads != []
  {
    s.heads[|s.heads| - 1]
  }

  function Start(genesis: HeadBlock): System {
    System([genesis], map[], {genesis.hash})
  }

  function Step(s: System, a: Action): (t: System)
    requires s.heads != []
    ensures t.heads != []
  {
    match a
    case Capture(pid) =>
      if pid in s.builds then s else s.(builds := s.builds[pid := Captured(Head(s))])
    case Finish(pid, hash) =>
      if pid !in s.builds || !s.builds[pid].Captured? then s
      else
        var parent := s.builds[pid].parent;
        s.(builds := s.builds[pid := Finished(parent, HeadBlock(parent.number + 1, hash, parent.hash))],
           used := s.used + {hash})
    case Fail(pid) =>
      if pid !in s.builds || s.builds[pid].Committed? then s
      else s.(builds := s.builds[pid := Ended(s.builds[pid].parent)])
    case CompareAndCommit(pid) =>
      if pid !in s.builds || !s.builds[pid].Finished? then s
      else
        var b := s.builds[pid];
        if Head(s).hash != b.parent.hash then s.(builds := s.builds[pid := Ended(b.parent)])
        else s.(heads := s.heads + [b.block], builds := s.builds[pid := Committed(b.parent, b.block)])
  }

  function Run(genesis: HeadBlock, actions: seq<Action>): (s: System)
    ensures s.heads != []
  {
    if actions == [] then Start(genesis)
    else Step(Run(genesis, actions[..|actions| - 1]), actions[|actions| - 1])
  }

  /** New blocks get hashes that no block had before. */
  ghost predicate FreshHashes(genesis: HeadBlock, actions: seq<Action>) {
    forall i :: 0 <= i < |actions| && actions[i].Finish? ==> actions[i].hash !in Run(genesis, actions[..i]).used
  }

  ghost predicate Chained(heads: seq<HeadBlock>) {
    forall i :: 0 <= i < |heads| - 1 ==>
      heads[i + 1].number == heads[i].number + 1 && heads[i + 1].parentHash == heads[i].hash
  }

  ghost predicate DistinctHeads(heads: seq<HeadBlock>) {
    forall i, j :: 0 <= i < j < |heads| ==> heads[i].hash != heads[j].hash
  }

  ghost predicate InstalledAfter(heads: seq<HeadBlock>, parent: HeadBlock, block: HeadBlock) {
    exists i: nat :: InstalledAt(heads, parent, block, i)
  }

  ghost predicate InstalledAt(heads: seq<HeadBlock>, parent: HeadBlock, block: HeadBlock, i: nat) {
    i + 1 < |heads| && heads[i] == parent && heads[i + 1] == block
  }

  /** The captured head is or was the head; a committed block sits right after it. */
  ghost predicate BuildInv(s: System, b: Build) {
    && (exists i :: 0 <= i < |s.heads| && s.heads[i] == b.parent)
    && (b.HasBlock() ==>
          b.block.hash in s.used && b.block.number == b.parent.number + 1 && b.block.parentHash == b.parent.hash)
    && (b.Finished? ==> forall i :: 0 <= i < |s.heads| ==> s.heads[i].hash != b.block.hash)
    && (b.Committed? ==> InstalledAfter(s.heads, b.parent, b.block))
  }

  ghost predicate HeadsInv(s: System) {
    && s.heads != [] && Chained(s.heads) && DistinctHeads(s.heads)
    && forall i :: 0 <= i < |s.heads| ==> s.heads[i].hash in s.used
  }

  ghost predicate ApartFrom(builds: map<nat, Build>, pid: nat, b: Build) {
    b.HasBlock() ==>
      forall q :: q in builds && q != pid && builds[q].HasBlock() ==> builds[q].block.hash != b.block.hash
  }

  ghost predicate Inv(s: System) {
    && HeadsInv(s)
    && (forall pid :: pid in s.builds ==> BuildInv(s, s.builds[pid]))
    && (forall pid :: pid in s.builds ==> ApartFrom(s.builds, pid, s.builds[pid]))
  }

  lemma BuildInvGrows(s: System, t: System, b: Build)
    requires BuildInv(s, b) && s.heads <= t.heads && s.used <= t.used
    requires b.Finished? ==> forall i :: |s.heads| <= i < |t.heads| ==> t.heads[i].hash != b.block.hash
    ensures BuildInv(t, b)
  {
    var i :| 0 <= i < |s.heads| && s.heads[i] == b.parent;
    assert t.heads[i] == b.parent;
    if b.Committed? {
      var j: nat :| InstalledAt(s.heads, b.parent, b.block, j);
      assert InstalledAt(t.heads, b.parent, b.block, j);
    }
  }

  /** A step that replaces one build and adds at most that build's block to the heads. */
  lemma OneBuildChanges(s: System, t: System, pid: nat, b: Build)
    requires Inv(s) && HeadsInv(t) && BuildInv(t, b) && ApartFrom(s.builds, pid, b)
    requires t.builds == s.builds[pid := b] && s.used <= t.used
    requires t.heads == s.heads || (b.Committed? && t.heads == s.heads + [b.block])
    ensures Inv(t)
  {
    forall other | other in t.builds && other != pid ensures BuildInv(t, t.builds[other]) {
      var o := s.builds[other];
      assert BuildInv(s, o);
      assert o.Finished? && b.Committed? ==> o.block.hash != b.block.hash;
      BuildInvGrows(s, t, o);
    }
    forall other | other in t.builds ensures ApartFrom(t.builds, other, t.builds[other]) {
      StaysApart(s.builds, pid, b, other);
    }
  }

  lemma StaysApart(builds: map<nat, Build>, pid: nat, b: Build, other: nat)
    requires forall p :: p in builds ==> ApartFrom(builds, p, builds[p])
    requires ApartFrom(builds, pid, b) && other in builds[pid := b]
    ensures ApartFrom(builds[pid := b], other, builds[pid := b][other])
  {
    if other != pid {
      assert ApartFrom(builds, other, builds[other]);
    }
  }

  lemma SameHashSameHead(s: System, b: Build)
    requires HeadsInv(s) && BuildInv(s, b) && Head(s).hash == b.parent.hash
    ensures Head(s) == b.parent
  {
    assert forall j :: 0 <= j < |s.heads| - 1 ==> s.heads[j].hash != Head(s).hash;
    var i :| 0 <= i < |s.heads| && s.heads[i] == b.parent;
  }

  lemma ExtendHeads(s: System, t: System, b: Build)
    requires HeadsInv(s) && BuildInv(s, b) && b.Finished? && Head(s).hash == b.parent.hash
    requires t.heads == s.heads + [b.block] && t.used == s.used
    ensures HeadsInv(t) && BuildInv(t, Committed(b.parent, b.block))
  {
    SameHashSameHead(s, b);
    var n := |s.heads|;
    assert InstalledAt(t.heads, b.parent, b.block, n - 1);
  }

  lemma StepKeepsInv(s: System, a: Action)
    requires Inv(s) && (a.Finish? ==> a.hash !in s.used)
    ensures Inv(Step(s, a)) && s.heads <= Step(s, a).heads
  {
    var t := Step(s, a);
    if t != s {
      var b := t.builds[a.pid];
      if a.Capture? {
        assert t.heads[|t.heads| - 1] == b.parent;
      } else {
        assert BuildInv(s, s.builds[a.pid]) && ApartFrom(s.builds, a.pid, s.builds[a.pid]);
        if a.Finish? {
          FinishIsFresh(s, a.pid, a.hash);
        } else if b.Committed? {
          ExtendHeads(s, t, s.builds[a.pid]);
        }
      }
      OneBuildChanges(s, t, a.pid, b);
    }
  }

  lemma FinishIsFresh(s: System, pid: nat, hash: Hash)
    requires Inv(s) && pid in s.builds && s.builds[pid].Captured? && hash !in s.used
    ensures var t := Step(s, Finish(pid, hash)); BuildInv(t, t.builds[pid]) && ApartFrom(s.builds, pid, t.builds[pid])
  {
    var b := s.builds[pid];
    assert BuildInv(s, b);
    forall q | q in s.builds && q != pid && s.builds[q].HasBlock() ensures s.builds[q].block.hash != hash {
      assert BuildInv(s, s.builds[q]);
    }
    var t := Step(s, Finish(pid, hash));
    var i :| 0 <= i < |s.heads| && s.heads[i] == b.parent;
    assert t.heads[i] == t.builds[pid].parent;
  }

  lemma {:induction false} RunKeepsInv(genesis: HeadBlock, actions: seq<Action>)
    requires FreshHashes(genesis, actions)
    ensures Inv(Run(genesis, actions))
  {
    if actions != [] {
      var n := |actions| - 1;
      forall i | 0 <= i < n && actions[..n][i].Finish?
        ensures actions[..n][i].hash !in Run(genesis, actions[..n][..i]).used
      {
        assert actions[..n][..i] == actions[..i];
      }
      RunKeepsInv(genesis, actions[..n]);
      StepKeepsInv(Run(genesis, actions[..n]), actions[n]);
    }
  }

  /** In every interleaving the installed heads form one chain, each extending the one it replaced by one
      in number and by parent hash, and no hash ever comes back. */
  lemma HeadsFormOneChain(genesis: HeadBlock, actions: seq<Action>)
    requires FreshHashes(genesis, actions)
    ensures var heads := Run(genesis, actions).heads;
            && heads[0] == genesis && Chained(heads) && DistinctHeads(heads)
            && forall i :: 0 <= i < |heads| ==> heads[i].number == genesis.number + i
  {
    RunKeepsInv(genesis, actions);
    FirstHeadStays(genesis, actions);
    NumbersCount(Run(genesis, actions).heads, |Run(genesis, actions).heads| - 1);
  }

  lemma {:induction false} FirstHeadStays(genesis: HeadBlock, actions: seq<Action>)
    ensures Run(genesis, actions).heads[0] == genesis
  {
    if actions != [] {
      FirstHeadStays(genesis, actions[..|actions| - 1]);
    }
  }

  lemma {:induction false} NumbersCount(heads: seq<HeadBlock>, last: nat)
    requires Chained(heads) && last < |heads|
    ensures forall i :: 0 <= i <= last ==> heads[i].number == heads[0].number + i
  {
    if last > 0 {
      NumbersCount(heads, last - 1);
      assert heads[last - 1 + 1].number == heads[last - 1].number + 1;
    }
  }

  /** Of the builds that captured the same head at most one commits. */
  lemma AtMostOneCommits(genesis: HeadBlock, actions: seq<Action>, p: nat, q: nat)
    requires FreshHashes(genesis, actions)
    requires var builds := Run(genesis, actions).builds;
             p in builds && q in builds && p != q && builds[p].Committed? && builds[q].Committed?
    ensures var builds := Run(genesis, actions).builds; builds[p].parent.hash != builds[q].parent.hash
  {
    RunKeepsInv(genesis, actions);
    var s := Run(genesis, actions);
    assert ApartFrom(s.builds, p, s.builds[p]);
    assert BuildInv(s, s.builds[p]) && BuildInv(s, s.builds[q]);
    CommittedApart(s.heads, s.builds[p], s.builds[q]);
  }

  /** Different blocks that both became heads replaced different heads. */
  lemma CommittedApart(heads: seq<HeadBlock>, a: Build, b: Build)
    requires DistinctHeads(heads) && a.Committed? && b.Committed? && a.block.hash != b.block.hash
    requires InstalledAfter(heads, a.parent, a.block) && InstalledAfter(heads, b.parent, b.block)
    ensures a.parent.hash != b.parent.hash
  {
    var i: nat :| InstalledAt(heads, a.parent, a.block, i);
    var j: nat :| InstalledAt(heads, b.parent, b.block, j);
    DifferentHeads(heads, i, j);
  }

  lemma DifferentHeads(heads: seq<HeadBlock>, i: nat, j: nat)
    requires DistinctHeads(heads) && i < |heads| && j < |heads| && i != j
    ensures heads[i].hash != heads[j].hash
  {
    if i < j {
      assert heads[i].hash != heads[j].hash;
    }
  }

  lemma StepKeepsParent(s: System, a: Action, pid: nat)
    requires s.heads != [] && pid in s.builds
    ensures pid in Step(s, a).builds && Step(s, a).builds[pid].parent == s.builds[pid].parent
  {
  }

  /** What was installed stays, and a build keeps the head it captured. */
  lemma {:induction false} RunExtends(genesis: HeadBlock, actions: seq<Action>, more: seq<Action>, pid: nat)
    requires FreshHashes(genesis, actions + more)
    ensures Run(genesis, actions).heads <= Run(genesis, actions + more).heads
    ensures pid in Run(genesis, actions).builds ==>
      && pid in Run(genesis, actions + more).builds
      && Run(genesis, actions + more).builds[pid].parent == Run(genesis, actions).builds[pid].parent
  {
    if more == [] {
      assert actions + more == actions;
    } else {
      var n := |more| - 1;
      var before := actions + more[..n];
      assert (actions + more)[..|actions + more| - 1] == before && (actions + more)[|actions + more| - 1] == more[n];
      forall i | 0 <= i < |before| && before[i].Finish? ensures before[i].hash !in Run(genesis, before[..i]).used {
        assert before[..i] == (actions + more)[..i] && before[i] == (actions + more)[i];
      }
      RunExtends(genesis, actions, more[..n], pid);
      RunKeepsInv(genesis, before);
      StepKeepsInv(Run(genesis, before), more[n]);
      if pid in Run(genesis, before).builds {
        StepKeepsParent(Run(genesis, before), more[n], pid);
      }
    }
  }

  /** A finished build is rejected exactly when another one committed since it captured the head. */
  lemma UnopposedBuildCommits(genesis: HeadBlock, earlier: seq<Action>, pid: nat, since: seq<Action>)
    requires FreshHashes(genesis, earlier + ([Capture(pid)] + since))
    requires pid !in Run(genesis, earlier).builds
    requires var s := Run(genesis, earlier + ([Capture(pid)] + since)); pid in s.builds && s.builds[pid].Finished?
    ensures var s := Run(genesis, earlier + ([Capture(pid)] + since));
            Step(s, CompareAndCommit(pid)).builds[pid].Committed? <==> s.heads == Run(genesis, earlier).heads
  {
    var start, captured := Run(genesis, earlier), earlier + [Capture(pid)];
    var actions := earlier + ([Capture(pid)] + since);
    var s := Run(genesis, actions);
    assert captured + since == actions && captured[..|earlier|] == earlier;
    assert Run(genesis, captured) == Step(start, Capture(pid));
    RunExtends(genesis, captured, since, pid);
    RunKeepsInv(genesis, actions);
    assert s.builds[pid].parent == Head(start) && start.heads <= s.heads;
    if |s.heads| > |start.heads| {
      DifferentHeads(s.heads, |start.heads| - 1, |s.heads| - 1);
    }
  }

  /** A build that captures the head and finishes without another commit in between becomes the head: the next
      number, its own hash, and the captured block's hash as its parent. */
  lemma BuildAloneCommits(s: System, pid: nat, hash: Hash)
    requires s.heads != [] && pid !in s.builds
    ensures var t := Step(Step(Step(s, Capture(pid)), Finish(pid, hash)), CompareAndCommit(pid));
            && t.heads == s.heads + [HeadBlock(Head(s).number + 1, hash, Head(s).hash)]
            && t.builds[pid].Committed?
  {
  }
}
