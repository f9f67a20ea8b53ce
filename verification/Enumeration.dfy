/** Listing keys: what the two merges of `keys_by_prefix` return, against what point reads answer. */
module Enumeration {
  import opened Wrappers
  import opened ByteStrings
  import opened Upstream
  import opened IntervalTable
  import opened Versioning

  /** `merge_keys_with_in_memory`. */
  function MergeWithMemory(v: View, remote: set<Bytes>, prefix: Bytes): set<Bytes> {
    (set k | k in remote && !IsDeleted(v.deleted, k) && !(k in v.mods && v.mods[k].value.None?))
    + (set k | k in v.mods && StartsWith(k, prefix) && v.mods[k].value.Some?)
  }

  /** `merge_keys_with_cache`. */
  function MergeWithCache(v: View, remote: set<Bytes>, prefix: Bytes, block: nat): set<Bytes> {
    (remote - DeletedKeys(v.tables, prefix, block)) + LiveKeys(v.tables, prefix, block)
  }

  /** Every key the remote layer lists: upstream keys, and keys it has cached as having no value. */
  function RemoteKeys(v: View, empties: set<Bytes>, prefix: Bytes): set<Bytes> {
    KeysAfter(v.base, prefix, None) + empties
  }

  function KeysAt(v: View, empties: set<Bytes>, prefix: Bytes, block: nat): set<Bytes> {
    var remote := RemoteKeys(v, empties, prefix);
    if block >= v.current then MergeWithMemory(v, remote, prefix) else MergeWithCache(v, remote, prefix, block)
  }

  ghost predicate AreEmpties(v: View, empties: set<Bytes>, prefix: Bytes) {
    forall k :: k in empties ==> StartsWith(k, prefix) && k !in v.base
  }

  /** A key cached as empty that no local record covers: it is listed although it has no value. */
  predicate Phantom(v: View, empties: set<Bytes>, key: Bytes, block: nat) {
    && key in empties
    && if block >= v.current then key !in v.mods && !IsDeleted(v.deleted, key) else Read(v.tables, key, block).None?
  }

  /** Whether the listing at `block` has a key with its prefix. Before the working block it goes by the
      interval table, and by what the remote layer lists where the table has no row. */
  predicate Listed(v: View, empties: set<Bytes>, key: Bytes, block: nat) {
    if block >= v.current then Get(v, key, v.current).Some? || Phantom(v, empties, key, block)
    else
      var row := Read(v.tables, key, block);
      if row.Some? then row.value.Some? else key in v.base || key in empties
  }

  /** At the working block, after anything at all, the listing is the keys with a value and the phantoms. */
  lemma WorkingListing(v: View, empties: set<Bytes>, prefix: Bytes, key: Bytes)
    requires AreEmpties(v, empties, prefix)
    ensures key in KeysAt(v, empties, prefix, v.current)
       <==> StartsWith(key, prefix) && (Get(v, key, v.current).Some? || Phantom(v, empties, key, v.current))
  {
  }

  /** At every block, after anything at all. */
  lemma KeyListed(v: View, empties: set<Bytes>, prefix: Bytes, key: Bytes, block: nat)
    requires AreEmpties(v, empties, prefix)
    ensures key in KeysAt(v, empties, prefix, block) <==> StartsWith(key, prefix) && Listed(v, empties, key, block)
  {
    if block < v.current && StartsWith(key, prefix) {
      var row := Read(v.tables, key, block);
      assert key in LiveKeys(v.tables, prefix, block) <==> row.Some? && row.value.Some?;
      assert key in DeletedKeys(v.tables, prefix, block) <==> row == Some(None);
    }
  }

  /** At an earlier fork-local block a seeded key is listed by its last write at or before the block, and when
      there is none because the fork point has it or it is cached as empty: injections are not seen. */
  lemma HistoricalListing(v: View, log: seq<Event>, empties: set<Bytes>, prefix: Bytes, key: Bytes, block: nat)
    requires Inv(v, log) && Seeded(log, key) && AreEmpties(v, empties, prefix)
    requires v.fork < block < v.current
    ensures key in KeysAt(v, empties, prefix, block)
       <==> StartsWith(key, prefix)
            && match LastWrite(log, key, block) { case Some(value) => value.Some? case None => key in v.base
                || key in empties }
  {
    KeyListed(v, empties, prefix, key, block);
    assert TableMatches(v, log, key);
    assert Read(v.tables, key, block) == LastWrite(log, key, block);
  }

  /** The listing and the read of a key agree: where the read is answered in memory before the table is asked,
      the answer must be what the table and upstream have; anywhere else it takes a phantom to disagree. */
  predicate Agrees(v: View, empties: set<Bytes>, key: Bytes, block: nat) {
    var modified := LocalModification(v, key, block);
    if block >= v.current || modified.None? then !Phantom(v, empties, key, block)
    else
      var row := Read(v.tables, key, block);
      modified.value.Some? <==> if row.Some? then row.value.Some? else key in v.base || key in empties
  }

  /** At every fork-local block and after anything at all: the listing is exactly the keys with a value if and
      only if each key under the prefix agrees. */
  lemma ListingAgrees(v: View, empties: set<Bytes>, prefix: Bytes, block: nat)
    requires AreEmpties(v, empties, prefix) && ForkLocal(v, block)
    ensures (forall k :: k in KeysAt(v, empties, prefix, block) <==> StartsWith(k, prefix) && Get(v, k, block).Some?)
       <==> (forall k :: StartsWith(k, prefix) ==> Agrees(v, empties, k, block))
  {
    forall k | StartsWith(k, prefix)
      ensures (k in KeysAt(v, empties, prefix, block) <==> Get(v, k, block).Some?) <==> Agrees(v, empties, k, block)
    {
      KeyAgrees(v, empties, prefix, k, block);
    }
    forall k | !StartsWith(k, prefix) ensures k !in KeysAt(v, empties, prefix, block) {
      KeyListed(v, empties, prefix, k, block);
    }
  }

  lemma KeyAgrees(v: View, empties: set<Bytes>, prefix: Bytes, key: Bytes, block: nat)
    requires AreEmpties(v, empties, prefix) && ForkLocal(v, block) && StartsWith(key, prefix)
    ensures (key in KeysAt(v, empties, prefix, block) <==> Get(v, key, block).Some?) <==> Agrees(v, empties, key, block)
  {
    KeyListed(v, empties, prefix, key, block);
  }

  /** For a seeded key at an earlier fork-local block: one that was injected and never written agrees if and
      only if it was injected with a value just when the remote layer lists it; any other unless it is a phantom. */
  lemma SeededAgrees(v: View, log: seq<Event>, empties: set<Bytes>, prefix: Bytes, key: Bytes, block: nat)
    requires Inv(v, log) && Seeded(log, key) && AreEmpties(v, empties, prefix)
    requires v.fork < block < v.current && StartsWith(key, prefix)
    ensures Agrees(v, empties, key, block)
       <==> match LastTouch(log, key)
            case Some(Injected(_, value)) => value.Some? <==> key in v.base || key in empties
            case _ => !Phantom(v, empties, key, block)
  {
    assert Read(v.tables, key, block) == LastWrite(log, key, block) by {
      assert TableMatches(v, log, key);
    }
    assert ModsMatch(v, log, key);
    LastTouchIsLastWrite(log, key, block);
    TouchBounded(v, log, key);
  }

  /** A key under a deleted prefix reads as nothing, and agrees at an earlier fork-local block if and only if
      neither a row with a value nor, without a row, the remote layer still lists it. */
  lemma ErasedAgrees(v: View, log: seq<Event>, empties: set<Bytes>, prefix: Bytes, key: Bytes, block: nat)
    requires Inv(v, log) && LastTouch(log, key).Some? && LastTouch(log, key).value.Erased?
    requires AreEmpties(v, empties, prefix) && v.fork < block < v.current && StartsWith(key, prefix)
    ensures Get(v, key, block).None?
    ensures Agrees(v, empties, key, block)
       <==> match Read(v.tables, key, block)
            case Some(value) => value.None?
            case None => key !in v.base && key !in empties
  {
    assert ModsMatch(v, log, key);
  }

  // ---- Iteration ----

  /** The upstream keys `next_key` may still return. */
  function Visible(v: View, prefix: Bytes, key: Bytes): set<Bytes> {
    set k | k in KeysAfter(v.base, prefix, Some(key)) && !IsDeleted(v.deleted, k)
  }

  /** Skipping a deleted key loses nothing. */
  lemma SkipDeleted(v: View, prefix: Bytes, key: Bytes)
    requires NextKey(v.base, prefix, key).Some?
    ensures var next := NextKey(v.base, prefix, key).value;
            && KeysAfter(v.base, prefix, Some(next)) < KeysAfter(v.base, prefix, Some(key))
            && (IsDeleted(v.deleted, next) ==> Visible(v, prefix, next) == Visible(v, prefix, key))
            && (!IsDeleted(v.deleted, next) ==> IsLeast(next, Visible(v, prefix, key)))
  {
    var next := NextKey(v.base, prefix, key).value;
    LtIrreflexive(next);
    forall k | k in KeysAfter(v.base, prefix, Some(next)) ensures k in KeysAfter(v.base, prefix, Some(key)) {
      LtTransitive(key, next, k);
    }
    assert next !in KeysAfter(v.base, prefix, Some(next));
    forall k | k in Visible(v, prefix, key) && k != next ensures k in KeysAfter(v.base, prefix, Some(next)) {
      assert Le(next, k);
    }
  }

  /** What a running call can still iterate over. It ranges over the fork point, so it misses keys written on
      the fork and returns keys deleted one by one: it is the rest of the working state exactly when no local
      record in that range adds or removes a key. */
  lemma IterationMeetsWorkingState(v: View, prefix: Bytes, key: Bytes)
    ensures Visible(v, prefix, key) == KeysAfter(WorkingState(v), prefix, Some(key))
       <==> forall k :: k in v.mods && StartsWith(k, prefix) && Lt(key, k) ==>
              (v.mods[k].value.Some? <==> k in v.base && !IsDeleted(v.deleted, k))
  {
    var seen, there := Visible(v, prefix, key), KeysAfter(WorkingState(v), prefix, Some(key));
    forall k | StartsWith(k, prefix) && Lt(key, k)
      ensures k in seen <==> k in v.base && !IsDeleted(v.deleted, k)
      ensures k in there <==> Get(v, k, v.current).Some?
    {
      assert Lookup(WorkingState(v), k) == Get(v, k, v.current);
    }
    if forall k :: k in v.mods && StartsWith(k, prefix) && Lt(key, k) ==>
         (v.mods[k].value.Some? <==> k in v.base && !IsDeleted(v.deleted, k)) {
      forall k ensures k in seen <==> k in there {
      }
    }
  }

  // ---- Batches ----

  /** What `get_batch` answers: as `get`, except that before the working block a prefix deletion is
      forgotten and the fork-point value shows through. */
  function BatchAnswer(v: View, key: Bytes, block: nat): Option<Bytes> {
    if block != v.current && key !in v.mods && IsDeleted(v.deleted, key) then Lookup(v.base, key)
    else Get(v, key, block)
  }

  lemma BatchAgrees(v: View, key: Bytes, block: nat)
    requires ForkLocal(v, block)
    ensures BatchAnswer(v, key, block) == Get(v, key, block)
       <==> block == v.current || key in v.mods || !IsDeleted(v.deleted, key) || key !in v.base
  {
  }

  // ---- Pages of a listing ----

  /** `storage_keys_paged` at a fork-local block. */
  function PageOf(all: seq<Bytes>, count: nat, start: Option<Bytes>): (page: seq<Bytes>)
    ensures |page| <= count
  {
    var rest := After(all, start);
    if count <= |rest| then rest[..count] else rest
  }

  function After(all: seq<Bytes>, start: Option<Bytes>): seq<Bytes> {
    if all == [] then []
    else if start.None? || Lt(start.value, all[0]) then [all[0]] + After(all[1..], start)
    else After(all[1..], start)
  }

  /** A client that asks for page after page, each time from the last key it got. */
  function AllPages(all: seq<Bytes>, count: nat, start: Option<Bytes>): seq<Bytes>
    requires Ascending(all) && count > 0
    decreases |After(all, start)|
  {
    var page := PageOf(all, count, start);
    if page == [] then []
    else
      AfterLast(all, count, start);
      page + AllPages(all, count, Some(page[|page| - 1]))
  }

  lemma {:induction false} AfterNone(all: seq<Bytes>)
    ensures After(all, None) == all
  {
    if all != [] {
      AfterNone(all[1..]);
    }
  }

  /** In an ascending list the keys after a start key are a suffix. */
  lemma {:induction false} AfterIsSuffix(all: seq<Bytes>, start: Option<Bytes>) returns (i: nat)
    requires Ascending(all)
    ensures i <= |all| && After(all, start) == all[i..]
    ensures start.Some? ==> forall j :: 0 <= j < |all| ==> (Lt(start.value, all[j]) <==> i <= j)
  {
    if start.None? {
      AfterNone(all);
      i := 0;
    } else if all == [] {
      i := 0;
    } else if Lt(start.value, all[0]) {
      forall j | 0 <= j < |all| ensures Lt(start.value, all[j]) {
        if j > 0 { LtTransitive(start.value, all[0], all[j]); }
      }
      AfterAll(all, start.value);
      i := 0;
    } else {
      i := AfterIsSuffix(all[1..], start);
      i := i + 1;
      assert forall j :: 1 <= j < |all| ==> all[j] == all[1..][j - 1];
    }
  }

  lemma {:induction false} AfterAll(all: seq<Bytes>, start: Bytes)
    requires forall j :: 0 <= j < |all| ==> Lt(start, all[j])
    ensures After(all, Some(start)) == all
  {
    if all != [] {
      AfterAll(all[1..], start);
    }
  }

  lemma AfterLast(all: seq<Bytes>, count: nat, start: Option<Bytes>)
    requires Ascending(all) && PageOf(all, count, start) != []
    ensures var page := PageOf(all, count, start);
            After(all, start) == page + After(all, Some(page[|page| - 1]))
  {
    var page := PageOf(all, count, start);
    var i := AfterIsSuffix(all, start);
    var last := page[|page| - 1];
    var n := i + |page|;
    assert page == all[i..n] && last == all[n - 1];
    var m := AfterIsSuffix(all, Some(last));
    LtIrreflexive(last);
    if n < |all| {
      assert Lt(all[n - 1], all[n]);
    }
    assert m == n && all[i..] == all[i..n] + all[n..];
  }

  /** From any start key the pages concatenate to everything after it. */
  lemma {:induction false} PagesFrom(all: seq<Bytes>, count: nat, start: Option<Bytes>)
    requires Ascending(all) && count > 0
    ensures AllPages(all, count, start) == After(all, start)
    decreases |After(all, start)|
  {
    var page := PageOf(all, count, start);
    if page != [] {
      var last := Some(page[|page| - 1]);
      AfterLast(all, count, start);
      PagesFrom(all, count, last);
      assert AllPages(all, count, start) == page + AllPages(all, count, last);
    }
  }

  lemma SuffixKeys(all: seq<Bytes>, start: Option<Bytes>, i: nat, k: Bytes)
    requires i <= |all|
    requires if start.None? then i == 0 else forall j :: 0 <= j < |all| ==> (Lt(start.value, all[j]) <==> i <= j)
    ensures k in all[i..] <==> k in all && (start.None? || Lt(start.value, k))
  {
    if k in all && (start.None? || Lt(start.value, k)) {
      var j :| 0 <= j < |all| && all[j] == k;
      assert all[i..][j - i] == k;
    }
    if k in all[i..] {
      var j :| 0 <= j < |all[i..]| && all[i..][j] == k;
      assert all[i + j] == k;
    }
  }

  lemma AfterKeys(all: seq<Bytes>, start: Option<Bytes>)
    requires Ascending(all)
    ensures Ascending(After(all, start))
    ensures forall k :: k in After(all, start) <==> k in all && (start.None? || Lt(start.value, k))
  {
    var i := AfterIsSuffix(all, start);
    if start.None? {
      AfterNone(all);
      assert |all[i..]| == |all| - i;
    }
    forall k ensures k in all[i..] <==> k in all && (start.None? || Lt(start.value, k)) {
      SuffixKeys(all, start, i, k);
    }
  }

  lemma CutSplits(rest: seq<Bytes>, count: nat, page: seq<Bytes>, left: set<Bytes>)
    requires Ascending(rest) && forall k :: k in rest <==> k in left
    requires page == if count <= |rest| then rest[..count] else rest
    ensures Ascending(page) && InitialSegment(page, left) && (|page| < count ==> forall k :: k in left ==> k in page)
  {
    var n := if count <= |rest| then count else |rest|;
    assert rest[..|rest|] == rest;
    assert InitialSegment(rest[..n], left) by {
      FirstKeys(left, rest, n);
    }
  }

  /** A page has at most `count` keys: the first ones after the start key, and all of them if it is short. */
  lemma PageOfSplits(all: seq<Bytes>, count: nat, start: Option<Bytes>)
    requires Ascending(all)
    ensures var page := PageOf(all, count, start);
            var left := set k | k in all && (start.None? || Lt(start.value, k));
            && |page| <= count && Ascending(page) && InitialSegment(page, left)
            && (|page| < count ==> forall k :: k in left ==> k in page)
  {
    var page := PageOf(all, count, start);
    var left := set k | k in all && (start.None? || Lt(start.value, k));
    assert Ascending(page) && InitialSegment(page, left)
        && (|page| < count ==> forall k :: k in left ==> k in page) by {
      AfterKeys(all, start);
      CutSplits(After(all, start), count, page, left);
    }
  }

  /** A client that has `keys` so far and would get the rest of `all` from `start` on. */
  ghost predicate Underway(all: seq<Bytes>, count: nat, start: Option<Bytes>, keys: seq<Bytes>)
    requires Ascending(all) && count > 0
  {
    keys + AllPages(all, count, start) == all
  }

  /** An empty page says that `keys` is everything, and any other leaves less to get. */
  ghost predicate PageTaken(all: seq<Bytes>, count: nat, start: Option<Bytes>, keys: seq<Bytes>, page: seq<Bytes>)
    requires Ascending(all) && count > 0
  {
    if page == [] then keys == all
    else
      && Underway(all, count, Some(page[|page| - 1]), keys + page)
      && |After(all, Some(page[|page| - 1]))| < |After(all, start)|
  }

  lemma NextPageUnderway(all: seq<Bytes>, count: nat, start: Option<Bytes>, keys: seq<Bytes>)
    requires Ascending(all) && count > 0 && Underway(all, count, start, keys)
    ensures PageTaken(all, count, start, keys, PageOf(all, count, start))
  {
    var page := PageOf(all, count, start);
    if page != [] {
      AfterLast(all, count, start);
      var rest := AllPages(all, count, Some(page[|page| - 1]));
      assert keys + (page + rest) == (keys + page) + rest;
    }
  }

  /** The pages concatenate to the whole listing: nothing is lost and nothing comes twice. */
  lemma PaginationComplete(all: seq<Bytes>, count: nat)
    requires Ascending(all) && count > 0
    ensures AllPages(all, count, None) == all
  {
    PagesFrom(all, count, None);
    AfterNone(all);
  }
}
