/** The runtime metadata of each block: a version holds from the block it is registered at until the next. */
module MetadataHistory {
  import opened Wrappers
  import opened ByteStrings

  datatype Metadata = Metadata(bytes: Bytes)

  type Versions = map<nat, Metadata>

  /** `range(..=block).next_back()`: the version registered last at or before `block`. */
  function VersionAt(versions: Versions, block: nat): Option<Metadata> {
    if block in versions then Some(versions[block])
    else if block == 0 then None
    else VersionAt(versions, block - 1)
  }

  /** Spelled out. */
  lemma {:induction false} VersionIsLatest(versions: Versions, block: nat)
    ensures match VersionAt(versions, block)
            case Some(m) => exists b ::
              b in versions && b <= block && versions[b] == m && forall c :: b < c <= block ==> c !in versions
            case None => forall b :: b in versions ==> b > block
  {
    if block !in versions && block > 0 {
      VersionIsLatest(versions, block - 1);
    }
  }

  ghost predicate ValidVersions(versions: Versions, fork: nat, current: nat) {
    fork in versions && forall b :: b in versions ==> fork <= b <= current
  }

  /** Lookups succeed at every block from the fork point on. */
  lemma {:induction false} VersionsTotal(versions: Versions, fork: nat, current: nat, block: nat)
    requires ValidVersions(versions, fork, current) && fork <= block
    ensures VersionAt(versions, block).Some?
    decreases block
  {
    if block > fork {
      VersionsTotal(versions, fork, current, block - 1);
    }
  }

  /** Registering at the working block is append-only: earlier blocks keep their answer, the working block
      and every later one get the new version. */
  lemma {:induction false} RegisterAppends(versions: Versions, fork: nat, current: nat, m: Metadata, block: nat)
    requires ValidVersions(versions, fork, current)
    ensures VersionAt(versions[current := m], block) == if block < current then VersionAt(versions, block) else Some(m)
    decreases block
  {
    if block != 0 {
      RegisterAppends(versions, fork, current, m, block - 1);
    }
  }

  ghost predicate KeepsEarlier(before: Versions, after: Versions, n: nat) {
    forall b: nat :: b < n ==> VersionAt(after, b) == VersionAt(before, b)
  }
}
