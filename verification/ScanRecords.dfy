/** What the `storage` and `prefix_scans` tables must mean, and why every interleaving of scans keeps it so. */
module ScanRecords {
  import opened Wrappers
  import opened ByteStrings
  import opened Upstream
  import opened IntervalTable

  datatype StorageId = StorageId(hash: Hash, key: Bytes)
  datatype StorageRow = StorageRow(value: Option<Bytes>, isEmpty: bool)
  type StorageTable = map<StorageId, StorageRow>

  datatype ScanId = ScanId(hash: Hash, prefix: Bytes)
  datatype Progress = Progress(lastScanned: Option<Bytes>, isComplete: bool)
  type ScanTable = map<ScanId, Progress>

  type Chain = map<Hash, State>

  function CachedKeys(storage: StorageTable, hash: Hash, prefix: Bytes): (keys: set<Bytes>)
    ensures forall k :: k in keys <==> StorageId(hash, k) in storage && StartsWith(k, prefix)
  {
    set id | id in storage && id.hash == hash && StartsWith(id.key, prefix) :: id.key
  }

  /** Keys with the prefix whose cached row says that upstream has no value. */
  function CachedEmpty(storage: StorageTable, hash: Hash, prefix: Bytes): (keys: set<Bytes>)
    ensures forall k :: k in keys <==>
      StorageId(hash, k) in storage && StartsWith(k, prefix) && storage[StorageId(hash, k)].isEmpty
  {
    set id | id in storage && id.hash == hash && StartsWith(id.key, prefix) && storage[id].isEmpty :: id.key
  }

  function CachedAfter(storage: StorageTable, hash: Hash, prefix: Bytes, key: Bytes): set<Bytes> {
    set k | k in CachedKeys(storage, hash, prefix) - CachedEmpty(storage, hash, prefix) && Lt(key, k)
  }

  /** Every row repeats the upstream answer for its block and key. */
  ghost predicate Transparent(chain: Chain, storage: StorageTable) {
    forall id :: id in storage ==>
      && id.hash in chain
      && storage[id] == StorageRow(Lookup(chain[id.hash], id.key), id.key !in chain[id.hash])
  }

  /** Every key a record at `p` claims to have scanned is cached. */
  ghost predicate Covers(chain: Chain, storage: StorageTable, id: ScanId, p: Progress) {
    && id.hash in chain
    && forall k :: k in chain[id.hash] && StartsWith(k, id.prefix)
                   && (p.isComplete || (p.lastScanned.Some? && Le(k, p.lastScanned.value))) ==>
         StorageId(id.hash, k) in storage
  }

  ghost predicate ScansSound(chain: Chain, storage: StorageTable, scans: ScanTable) {
    forall id :: id in scans ==> Covers(chain, storage, id, scans[id])
  }

  /** Everything with the prefix is cached. */
  ghost predicate FullyCached(chain: Chain, storage: StorageTable, id: ScanId) {
    Covers(chain, storage, id, Progress(None, true))
  }

  /** What a scan may add to the cache: upstream keys with its prefix. */
  ghost predicate GrownByScan(chain: Chain, before: StorageTable, after: StorageTable, id: ScanId) {
    && before.Keys <= after.Keys
    && forall other :: other in after && other !in before ==>
         && other.hash == id.hash && StartsWith(other.key, id.prefix)
         && id.hash in chain && other.key in chain[id.hash]
  }

  function Upsert(storage: StorageTable, hash: Hash, e: Entry): StorageTable {
    storage[StorageId(hash, e.key) := StorageRow(e.value, e.value.None?)]
  }

  function UpsertAll(storage: StorageTable, hash: Hash, entries: seq<Entry>): StorageTable {
    if entries == [] then storage
    else Upsert(UpsertAll(storage, hash, entries[..|entries| - 1]), hash, entries[|entries| - 1])
  }

  /** `keys` paired with what upstream holds for them. */
  function Fetched(s: State, keys: seq<Bytes>): seq<Entry> {
    seq(|keys|, i requires 0 <= i < |keys| => Entry(keys[i], Lookup(s, keys[i])))
  }

  lemma {:induction false} UpsertFetched(chain: Chain, storage: StorageTable, hash: Hash, keys: seq<Bytes>)
    requires hash in chain && Transparent(chain, storage)
    ensures var after := UpsertAll(storage, hash, Fetched(chain[hash], keys));
            && Transparent(chain, after)
            && (forall id :: id in after <==> id in storage || (id.hash == hash && id.key in keys))
  {
    if keys != [] {
      var n := |keys| - 1;
      assert Fetched(chain[hash], keys)[..n] == Fetched(chain[hash], keys[..n]);
      UpsertFetched(chain, storage, hash, keys[..n]);
      assert keys == keys[..n] + [keys[n]];
    }
  }

  lemma ScansSoundMonotone(chain: Chain, storage: StorageTable, more: StorageTable, scans: ScanTable)
    requires ScansSound(chain, storage, scans) && storage.Keys <= more.Keys
    ensures ScansSound(chain, more, scans)
  {
  }

  /** What a scan knows once it has cached the page it fetched from `start`. */
  function AfterPage(page: seq<Bytes>, pageSize: nat): Progress
    requires page != []
  {
    Progress(Some(page[|page| - 1]), |page| < pageSize)
  }

  /** The records once a cached page is recorded; an empty one only when it was the first. */
  function WithPage(scans: ScanTable, id: ScanId, start: Option<Bytes>, page: seq<Bytes>, pageSize: nat): ScanTable {
    if page != [] then scans[id := AfterPage(page, pageSize)]
    else if start.None? then scans[id := Progress(Some(id.prefix), true)]
    else scans
  }

  predicate ScanFinished(scans: ScanTable, id: ScanId) {
    id in scans && scans[id].isComplete
  }

  /** Where the next scan goes on from. */
  function Reached(scans: ScanTable, id: ScanId): Option<Bytes> {
    if id in scans then scans[id].lastScanned else None
  }

  /** So many keys fill whole pages. */
  predicate FillsPages(n: nat, pageSize: nat)
    requires pageSize > 0
  {
    if n < pageSize then n == 0 else FillsPages(n - pageSize, pageSize)
  }

  /** That is: exactly the multiples of the page size. */
  lemma {:induction false} MultiplesFillPages(q: nat, pageSize: nat)
    requires pageSize > 0
    ensures FillsPages(q * pageSize, pageSize)
  {
    if q > 0 {
      MultiplesFillPages(q - 1, pageSize);
      assert q * pageSize - pageSize == (q - 1) * pageSize;
    }
  }

  lemma {:induction false} FullPagesAreMultiples(n: nat, pageSize: nat) returns (q: nat)
    requires pageSize > 0 && FillsPages(n, pageSize)
    ensures n == q * pageSize
  {
    q := 0;
    if n >= pageSize {
      q := FullPagesAreMultiples(n - pageSize, pageSize);
      assert q * pageSize + pageSize == (q + 1) * pageSize;
      q := q + 1;
    }
  }

  /** The greatest key of a set. */
  ghost predicate IsGreatest(m: Bytes, s: set<Bytes>) {
    m in s && forall x :: x in s ==> Le(x, m)
  }

  /** The records a successful scan leaves that started with the keys `left` still to fetch: the last of them,
      complete unless the last page was full; none of them to fetch is recorded only by a scan from the start. */
  ghost predicate ScanLeaves(before: ScanTable, after: ScanTable, id: ScanId, left: set<Bytes>, fromStart: bool,
                             pageSize: nat)
    requires pageSize > 0
  {
    if left == {} then after == if fromStart then before[id := Progress(Some(id.prefix), true)] else before
    else exists last ::
      IsGreatest(last, left) && after == before[id := Progress(Some(last), !FillsPages(|left|, pageSize))]
  }

  /** A full page in between: `last` was recorded, and `rest` is what is left after it. */
  ghost predicate FullPage(before: ScanTable, after: ScanTable, id: ScanId, left: set<Bytes>, last: Bytes,
                           rest: set<Bytes>, pageSize: nat) {
    && after == before[id := Progress(Some(last), false)]
    && last in left && rest <= left && |rest| + pageSize == |left|
    && forall k :: k in left ==> (k in rest <==> Lt(last, k))
  }

  lemma FullPageThenRest(before: ScanTable, mid: ScanTable, after: ScanTable, id: ScanId, left: set<Bytes>,
                         fromStart: bool,
                         last: Bytes, rest: set<Bytes>, pageSize: nat)
    requires pageSize > 0 && FullPage(before, mid, id, left, last, rest, pageSize)
    requires ScanLeaves(mid, after, id, rest, false, pageSize)
    ensures ScanLeaves(before, after, id, left, fromStart, pageSize)
  {
    assert FillsPages(|left|, pageSize) <==> FillsPages(|rest|, pageSize);
    forall k | k in left && k !in rest ensures Le(k, last) {
      LtTotal(k, last);
    }
    if rest == {} {
      assert IsGreatest(last, left) && after == before[id := Progress(Some(last), !FillsPages(|left|, pageSize))];
    } else {
      var greatest :| IsGreatest(greatest, rest)
          && after == mid[id := Progress(Some(greatest), !FillsPages(|rest|, pageSize))];
      forall k | k in left ensures Le(k, greatest) {
        if k !in rest && k != last {
          LtTransitive(k, last, greatest);
        }
      }
      assert IsGreatest(greatest, left)
          && after == before[id := Progress(Some(greatest), !FillsPages(|left|, pageSize))];
    }
  }

  lemma DistinctCount(page: seq<Bytes>)
    requires Distinct(page)
    ensures |Elements(page)| == |page|
    decreases |page|
  {
    if page == [] {
      assert Elements(page) == {};
    } else {
      var n := |page| - 1;
      DistinctCount(page[..n]);
      assert Elements(page) == Elements(page[..n]) + {page[n]};
    }
  }

  /** A short page has everything that was left. */
  lemma ShortPageLeaves(scans: ScanTable, id: ScanId, start: Option<Bytes>, page: seq<Bytes>, left: set<Bytes>,
                        pageSize: nat)
    requires InitialSegment(page, left) && |page| < pageSize && forall k :: k in left ==> k in page
    ensures ScanLeaves(scans, WithPage(scans, id, start, page, pageSize), id, left, start.None?, pageSize)
  {
    DistinctCount(page);
    assert Elements(page) == left;
    if page != [] {
      var last := page[|page| - 1];
      assert last in page;
      assert IsGreatest(last, left) && !FillsPages(|left|, pageSize);
    }
  }

  /** After a full page the keys greater than its last are left. */
  lemma FullPageLeaves(scans: ScanTable, id: ScanId, start: Option<Bytes>, page: seq<Bytes>, left: set<Bytes>,
                       rest: set<Bytes>, pageSize: nat)
    requires InitialSegment(page, left) && |page| == pageSize > 0
    requires rest <= left && forall k :: k in left ==> (k in rest <==> Lt(page[|page| - 1], k))
    ensures FullPage(scans, WithPage(scans, id, start, page, pageSize), id, left, page[|page| - 1], rest, pageSize)
  {
    var last := page[|page| - 1];
    assert last in page;
    DistinctCount(page);
    forall k | k in left ensures k in rest <==> k !in page {
      LtTotal(k, last);
      LtIrreflexive(last);
      if Lt(last, k) {
        LtAsymmetric(last, k);
      }
    }
    assert rest == left - Elements(page);
  }

  /** What one page of a positive size means for the records. */
  lemma PageLeaves(s: State, id: ScanId, start: Option<Bytes>, pageSize: nat, scans: ScanTable)
    requires pageSize > 0
    ensures var page := Page(s, id.prefix, pageSize, start);
            var left := KeysAfter(s, id.prefix, start);
            var after := WithPage(scans, id, start, page, pageSize);
            if |page| < pageSize then ScanLeaves(scans, after, id, left, start.None?, pageSize)
            else
              var last := page[|page| - 1];
              FullPage(scans, after, id, left, last, KeysAfter(s, id.prefix, Some(last)), pageSize)
  {
    var page, left := Page(s, id.prefix, pageSize, start), KeysAfter(s, id.prefix, start);
    assert InitialSegment(page, left) && |page| <= pageSize
        && (|page| < pageSize ==> forall k :: k in left ==> k in page) by {
      PageSplits(s, id.prefix, pageSize, start);
    }
    if |page| < pageSize {
      ShortPageLeaves(scans, id, start, page, left, pageSize);
    } else {
      assert KeysAfter(s, id.prefix, Some(page[|page| - 1])) <= left by {
        PageShrinks(s, id.prefix, pageSize, start);
      }
      FullPageLeaves(scans, id, start, page, left, KeysAfter(s, id.prefix, Some(page[|page| - 1])), pageSize);
    }
  }

  /** The records a scan leaves that goes on from `now` are what it leaves all in all. */
  ghost predicate LeadsOn(id: ScanId, pageSize: nat, before: ScanTable, all: set<Bytes>, fromStart: bool,
                          now: ScanTable, left: set<Bytes>, here: bool)
    requires pageSize > 0
  {
    forall after: ScanTable ::
      ScanLeaves(now, after, id, left, here, pageSize) ==> ScanLeaves(before, after, id, all, fromStart, pageSize)
  }

  lemma FullPageLeadsOn(id: ScanId, pageSize: nat, before: ScanTable, all: set<Bytes>, fromStart: bool,
                        now: ScanTable, left: set<Bytes>, here: bool, mid: ScanTable, last: Bytes, rest: set<Bytes>)
    requires pageSize > 0 && LeadsOn(id, pageSize, before, all, fromStart, now, left, here)
    requires FullPage(now, mid, id, left, last, rest, pageSize)
    ensures LeadsOn(id, pageSize, before, all, fromStart, mid, rest, false)
  {
    forall after: ScanTable | ScanLeaves(mid, after, id, rest, false, pageSize)
      ensures ScanLeaves(before, after, id, all, fromStart, pageSize)
    {
      FullPageThenRest(now, mid, after, id, left, here, last, rest, pageSize);
    }
  }

  /** How far a scan from `first` has come: it is over, or it goes on from `next`. */
  ghost predicate ScanStands(s: State, id: ScanId, pageSize: nat, before: ScanTable, first: Option<Bytes>,
                             now: ScanTable, next: Option<Option<Bytes>>)
    requires pageSize > 0
  {
    var all := KeysAfter(s, id.prefix, first);
    forall door: nat :: Knock(door) ==>
      if next.None? then ScanLeaves(before, now, id, all, first.None?, pageSize)
      else LeadsOn(id, pageSize, before, all, first.None?, now, KeysAfter(s, id.prefix, next.value), next.value.None?)
  }

  lemma ScanGoesOn(s: State, id: ScanId, pageSize: nat, before: ScanTable, first: Option<Bytes>, now: ScanTable,
                   next: Option<Bytes>)
    requires pageSize > 0
    requires LeadsOn(id, pageSize, before, KeysAfter(s, id.prefix, first), first.None?, now,
        KeysAfter(s, id.prefix, next), next.None?)
    ensures ScanStands(s, id, pageSize, before, first, now, Some(next))
  {
  }

  lemma ScanStarts(s: State, id: ScanId, pageSize: nat, scans: ScanTable, first: Option<Bytes>)
    requires pageSize > 0
    ensures ScanStands(s, id, pageSize, scans, first, scans, Some(first))
  {
  }

  lemma ScanEnds(s: State, id: ScanId, pageSize: nat, before: ScanTable, first: Option<Bytes>, now: ScanTable)
    requires pageSize > 0 && ScanStands(s, id, pageSize, before, first, now, None)
    ensures ScanLeaves(before, now, id, KeysAfter(s, id.prefix, first), first.None?, pageSize)
  {
    assert Knock(0);
  }

  lemma OthersKept(scans: ScanTable, id: ScanId, start: Option<Bytes>, page: seq<Bytes>, pageSize: nat)
    ensures WithPage(scans, id, start, page, pageSize) - {id} == scans - {id}
  {
  }

  /** One page takes it on. */
  lemma PageTakesOn(s: State, id: ScanId, pageSize: nat, before: ScanTable, first: Option<Bytes>,
                    now: ScanTable, start: Option<Bytes>)
    requires pageSize > 0 && ScanStands(s, id, pageSize, before, first, now, Some(start))
    ensures var page := Page(s, id.prefix, pageSize, start);
            ScanStands(s, id, pageSize, before, first, WithPage(now, id, start, page, pageSize),
                       if |page| < pageSize then None else Some(Some(page[|page| - 1])))
  {
    var page, all, left := Page(s, id.prefix, pageSize, start), KeysAfter(s, id.prefix, first),
        KeysAfter(s, id.prefix, start);
    var mid := WithPage(now, id, start, page, pageSize);
    assert LeadsOn(id, pageSize, before, all, first.None?, now, left, start.None?) by {
      assert Knock(0);
    }
    PageLeaves(s, id, start, pageSize, now);
    if |page| >= pageSize {
      var last := page[|page| - 1];
      var rest := KeysAfter(s, id.prefix, Some(last));
      assert LeadsOn(id, pageSize, before, all, first.None?, mid, rest, false) by {
        FullPageLeadsOn(id, pageSize, before, all, first.None?, now, left, start.None?, mid, last, rest);
      }
      ScanGoesOn(s, id, pageSize, before, first, mid, Some(last));
    }
  }

  /** One round of the scan, as the loop sees it: less is left, other records stay, and it is taken on. */
  lemma RoundDone(s: State, id: ScanId, pageSize: nat, before: ScanTable, first: Option<Bytes>, now: ScanTable,
                  start: Option<Bytes>, page: seq<Bytes>, next: Option<Bytes>)
    requires page == Page(s, id.prefix, pageSize, start)
    requires next == if page == [] || |page| < pageSize then None else Some(page[|page| - 1])
    requires pageSize > 0 ==> ScanStands(s, id, pageSize, before, first, now, Some(start))
    ensures next.Some? ==> KeysAfter(s, id.prefix, next) < KeysAfter(s, id.prefix, start)
    ensures WithPage(now, id, start, page, pageSize) - {id} == now - {id}
    ensures pageSize > 0 ==>
      ScanStands(s, id, pageSize, before, first, WithPage(now, id, start, page, pageSize),
          if next.None? then None else Some(next))
  {
    OthersKept(now, id, start, page, pageSize);
    if page != [] {
      PageShrinks(s, id.prefix, pageSize, start);
    }
    if pageSize > 0 {
      PageTakesOn(s, id, pageSize, before, first, now, start);
    }
  }

  lemma PageExtendsCoverage(chain: Chain, storage: StorageTable, id: ScanId, start: Option<Bytes>, pageSize: nat)
    requires Covers(chain, storage, id, Progress(start, false))
    requires Page(chain[id.hash], id.prefix, pageSize, start) != []
    requires forall k :: k in Page(chain[id.hash], id.prefix, pageSize, start) ==> StorageId(id.hash, k) in storage
    ensures Covers(chain, storage, id,
                   AfterPage(Page(chain[id.hash], id.prefix, pageSize, start), pageSize))
  {
    var s := chain[id.hash];
    var page := Page(s, id.prefix, pageSize, start);
    PageSplits(s, id.prefix, pageSize, start);
    var p := AfterPage(page, pageSize);
    forall k | k in s && StartsWith(k, id.prefix) && (p.isComplete || Le(k, p.lastScanned.value))
      ensures StorageId(id.hash, k) in storage
    {
      if k !in KeysAfter(s, id.prefix, start) {
        LtTotal(k, start.value);
      }
    }
  }

  /** Caching the next page: rows stay true and coverage moves to the end of the page. */
  lemma CachingAPage(chain: Chain, storage: StorageTable, id: ScanId, start: Option<Bytes>, pageSize: nat)
    requires Transparent(chain, storage) && Covers(chain, storage, id, Progress(start, false))
    requires Page(chain[id.hash], id.prefix, pageSize, start) != []
    ensures var page := Page(chain[id.hash], id.prefix, pageSize, start);
            var after := UpsertAll(storage, id.hash, Fetched(chain[id.hash], page));
            && Transparent(chain, after) && GrownByScan(chain, storage, after, id)
            && Covers(chain, after, id, AfterPage(page, pageSize))
  {
    var s := chain[id.hash];
    var page := Page(s, id.prefix, pageSize, start);
    var after := UpsertAll(storage, id.hash, Fetched(s, page));
    PageSplits(s, id.prefix, pageSize, start);
    UpsertFetched(chain, storage, id.hash, page);
    assert Covers(chain, after, id, Progress(start, false));
    PageExtendsCoverage(chain, after, id, start, pageSize);
  }

  /** A complete scan of the prefix, or of any shorter prefix of it, lets the cache answer `next_key`. */
  lemma CompleteScanAnswers(chain: Chain, storage: StorageTable, id: ScanId, prefix: Bytes, key: Bytes)
    requires Transparent(chain, storage) && FullyCached(chain, storage, id) && StartsWith(prefix, id.prefix)
    ensures CachedAfter(storage, id.hash, prefix, key) == KeysAfter(chain[id.hash], prefix, Some(key))
  {
    var s := chain[id.hash];
    forall k | k in KeysAfter(s, prefix, Some(key)) ensures k in CachedAfter(storage, id.hash, prefix, key) {
      assert StartsWith(k, id.prefix);
      assert StorageId(id.hash, k) in storage;
    }
    forall k | k in CachedAfter(storage, id.hash, prefix, key) ensures k in KeysAfter(s, prefix, Some(key)) {
      assert StorageId(id.hash, k) in storage;
    }
  }

  /** An empty page of a positive size means that nothing is left. */
  lemma EmptyPageCompletes(chain: Chain, storage: StorageTable, id: ScanId, start: Option<Bytes>, pageSize: nat)
    requires Covers(chain, storage, id, Progress(start, false)) && pageSize > 0
    requires Page(chain[id.hash], id.prefix, pageSize, start) == []
    ensures forall last :: Covers(chain, storage, id, Progress(last, true))
  {
    var s := chain[id.hash];
    PageSplits(s, id.prefix, pageSize, start);
    forall k | k in s && StartsWith(k, id.prefix) ensures StorageId(id.hash, k) in storage {
      if k !in KeysAfter(s, id.prefix, start) {
        LtTotal(k, start.value);
      }
    }
  }

  // ---- Interleaved scans ----

  /** Where a running scan stands between two of its awaits. */
  datatype Phase = Ready(start: Option<Bytes>)
                 | Holding(start: Option<Bytes>, page: seq<Bytes>)
                 | Cached(start: Option<Bytes>, page: seq<Bytes>)

  /** `whole` tells `prefetch_prefix` from `prefetch_prefix_single_page`. */
  datatype Scan = Scan(id: ScanId, pageSize: nat, whole: bool, phase: Phase)

  datatype World = World(storage: StorageTable, scans: ScanTable, running: map<nat, Scan>)

  datatype Action =
    | Begin(pid: nat, id: ScanId, pageSize: nat, whole: bool)
    | FetchPage(pid: nat)
    | CachePage(pid: nat)
    | RecordProgress(pid: nat)
    | Stop(pid: nat)
    | CacheKey(hash: Hash, key: Bytes)
    | ClearBlock(hash: Hash)

  function Advance(chain: Chain, w: World, a: Action): World {
    match a
    case Begin(pid, id, pageSize, whole) =>
      if pid in w.running || id.hash !in chain then w
      else if id !in w.scans then w.(running := w.running[pid := Scan(id, pageSize, whole, Ready(None))])
      else if w.scans[id].isComplete || !whole then w
      else w.(running := w.running[pid := Scan(id, pageSize, whole, Ready(w.scans[id].lastScanned))])
    case FetchPage(pid) =>
      if pid !in w.running || !w.running[pid].phase.Ready? then w
      else
        var scan := w.running[pid];
        if scan.id.hash !in chain then w
        else
          var page := Page(chain[scan.id.hash], scan.id.prefix, scan.pageSize, scan.phase.start);
          w.(running := w.running[pid := scan.(phase := Holding(scan.phase.start, page))])
    case CachePage(pid) =>
      if pid !in w.running || !w.running[pid].phase.Holding? then w
      else
        var scan := w.running[pid];
        if scan.id.hash !in chain then w
        else
          var storage := UpsertAll(w.storage, scan.id.hash, Fetched(chain[scan.id.hash], scan.phase.page));
          w.(storage := storage,
             running := w.running[pid := scan.(phase := Cached(scan.phase.start, scan.phase.page))])
    case RecordProgress(pid) =>
      if pid !in w.running || !w.running[pid].phase.Cached? then w
      else
        var scan := w.running[pid];
        var page := scan.phase.page;
        if page == [] then
          World(w.storage,
                if scan.phase.start.None? then w.scans[scan.id := Progress(Some(scan.id.prefix), true)] else w.scans,
                w.running - {pid})
        else
          var p := AfterPage(page, scan.pageSize);
          World(w.storage, w.scans[scan.id := p],
                if p.isComplete || !scan.whole then w.running - {pid}
                else w.running[pid := scan.(phase := Ready(p.lastScanned))])
    case Stop(pid) =>
      w.(running := w.running - {pid})
    case CacheKey(hash, key) =>
      if hash !in chain then w
      else w.(storage := UpsertAll(w.storage, hash, Fetched(chain[hash], [key])))
    case ClearBlock(hash) =>
      w.(storage := map id | id in w.storage && id.hash != hash :: w.storage[id],
         scans := map id | id in w.scans && id.hash != hash :: w.scans[id])
  }

  function RunActions(chain: Chain, actions: seq<Action>): World {
    if actions == [] then World(map[], map[], map[])
    else Advance(chain, RunActions(chain, actions[..|actions| - 1]), actions[|actions| - 1])
  }

  /** A positive page size, and no clearing of a block while a scan of it has progress to lose. */
  ghost predicate Allowed(w: World, a: Action) {
    match a
    case Begin(_, _, pageSize, _) => pageSize > 0
    case ClearBlock(hash) => forall pid :: pid in w.running && w.running[pid].id.hash == hash ==>
      !w.running[pid].phase.Cached? && w.running[pid].phase.start.None?
    case _ => true
  }

  ghost predicate AllowedRun(chain: Chain, actions: seq<Action>) {
    forall i :: 0 <= i < |actions| ==> Allowed(RunActions(chain, actions[..i]), actions[i])
  }

  /** A scan goes on from an upstream key with its prefix. */
  ghost predicate Anchored(chain: Chain, id: ScanId, start: Option<Bytes>) {
    start.Some? ==> id.hash in chain && start.value in chain[id.hash] && StartsWith(start.value, id.prefix)
  }

  /** What a running scan may rely on in each phase. */
  ghost predicate ScanInv(chain: Chain, storage: StorageTable, scan: Scan) {
    && scan.pageSize > 0 && Anchored(chain, scan.id, scan.phase.start)
    && Covers(chain, storage, scan.id, Progress(scan.phase.start, false))
    && (!scan.phase.Ready? ==>
          scan.phase.page == Page(chain[scan.id.hash], scan.id.prefix, scan.pageSize, scan.phase.start))
    && (scan.phase.Cached? ==> forall k :: k in scan.phase.page ==> StorageId(scan.id.hash, k) in storage)
  }

  ghost predicate WorldInv(chain: Chain, w: World) {
    && Transparent(chain, w.storage)
    && ScansSound(chain, w.storage, w.scans)
    && (forall id :: id in w.scans && !w.scans[id].isComplete ==> Anchored(chain, id, w.scans[id].lastScanned))
    && forall pid :: pid in w.running ==> ScanInv(chain, w.storage, w.running[pid])
  }

  lemma GrowingKeepsInv(chain: Chain, w: World, hash: Hash, keys: seq<Bytes>)
    requires WorldInv(chain, w) && hash in chain
    ensures WorldInv(chain, w.(storage := UpsertAll(w.storage, hash, Fetched(chain[hash], keys))))
    ensures forall k :: k in keys ==> StorageId(hash, k) in UpsertAll(w.storage, hash, Fetched(chain[hash], keys))
  {
    UpsertFetched(chain, w.storage, hash, keys);
  }

  /** What recording a cached page claims is so. */
  lemma PageRecordSound(chain: Chain, storage: StorageTable, scans: ScanTable, scan: Scan)
    requires ScansSound(chain, storage, scans) && ScanInv(chain, storage, scan) && scan.phase.Cached?
    requires forall id :: id in scans && !scans[id].isComplete ==> Anchored(chain, id, scans[id].lastScanned)
    ensures var after := WithPage(scans, scan.id, scan.phase.start, scan.phase.page, scan.pageSize);
            && ScansSound(chain, storage, after)
            && forall id :: id in after && !after[id].isComplete ==> Anchored(chain, id, after[id].lastScanned)
    ensures scan.phase.page != [] ==>
      var p := AfterPage(scan.phase.page, scan.pageSize);
      Covers(chain, storage, scan.id, p) && Anchored(chain, scan.id, p.lastScanned)
  {
    var page := scan.phase.page;
    if page == [] {
      EmptyPageCompletes(chain, storage, scan.id, scan.phase.start, scan.pageSize);
    } else {
      PageExtendsCoverage(chain, storage, scan.id, scan.phase.start, scan.pageSize);
      assert Anchored(chain, scan.id, Some(page[|page| - 1])) by {
        PageSplits(chain[scan.id.hash], scan.id.prefix, scan.pageSize, scan.phase.start);
        assert page[|page| - 1] in page;
      }
    }
  }

  lemma RecordKeepsInv(chain: Chain, w: World, pid: nat)
    requires WorldInv(chain, w) && pid in w.running && w.running[pid].phase.Cached?
    ensures WorldInv(chain, Advance(chain, w, RecordProgress(pid)))
  {
    var scan := w.running[pid];
    var after := Advance(chain, w, RecordProgress(pid));
    PageRecordSound(chain, w.storage, w.scans, scan);
    assert after.scans == WithPage(w.scans, scan.id, scan.phase.start, scan.phase.page, scan.pageSize);
    forall other | other in after.running ensures ScanInv(chain, after.storage, after.running[other]) {
      assert ScanInv(chain, w.storage, w.running[other]);
    }
  }

  lemma ClearKeepsInv(chain: Chain, w: World, hash: Hash)
    requires WorldInv(chain, w) && Allowed(w, ClearBlock(hash))
    ensures WorldInv(chain, Advance(chain, w, ClearBlock(hash)))
  {
    var after := Advance(chain, w, ClearBlock(hash));
    forall id | id in after.scans ensures Covers(chain, after.storage, id, after.scans[id]) {
      assert Covers(chain, w.storage, id, w.scans[id]);
    }
    forall pid | pid in after.running ensures ScanInv(chain, after.storage, after.running[pid]) {
      assert ScanInv(chain, w.storage, w.running[pid]);
    }
  }

  lemma StepKeepsInv(chain: Chain, w: World, a: Action)
    requires WorldInv(chain, w) && Allowed(w, a)
    ensures WorldInv(chain, Advance(chain, w, a))
  {
    match a
    case CachePage(pid) =>
      if pid in w.running && w.running[pid].phase.Holding? {
        GrowingKeepsInv(chain, w, w.running[pid].id.hash, w.running[pid].phase.page);
      }
    case RecordProgress(pid) =>
      if pid in w.running && w.running[pid].phase.Cached? {
        RecordKeepsInv(chain, w, pid);
      }
    case CacheKey(hash, key) =>
      if hash in chain {
        GrowingKeepsInv(chain, w, hash, [key]);
      }
    case ClearBlock(hash) => ClearKeepsInv(chain, w, hash);
    case _ =>
  }

  /** However scans interleave, fail or stop between two awaits, every row is the upstream value and every
      record speaks the truth about what is cached. */
  lemma {:induction false} RecordsAlwaysSound(chain: Chain, actions: seq<Action>)
    requires AllowedRun(chain, actions)
    ensures WorldInv(chain, RunActions(chain, actions))
  {
    if actions != [] {
      var n := |actions| - 1;
      forall i | 0 <= i < n ensures Allowed(RunActions(chain, actions[..n][..i]), actions[..n][i]) {
        assert actions[..n][..i] == actions[..i];
      }
      RecordsAlwaysSound(chain, actions[..n]);
      StepKeepsInv(chain, RunActions(chain, actions[..n]), actions[n]);
    }
  }

  // ---- Where the two conditions of `Allowed` come from ----

  /** With a page size of zero a fresh scan fetches nothing and records itself as complete. The record is
      true exactly when every key with the prefix had been cached already. */
  lemma PageSizeZero(chain: Chain, w: World, pid: nat, id: ScanId, whole: bool)
    requires WorldInv(chain, w) && pid !in w.running && id !in w.scans && id.hash in chain
    ensures var w1 := Advance(chain, w, Begin(pid, id, 0, whole));
            var w2 := Advance(chain, w1, FetchPage(pid));
            var w3 := Advance(chain, w2, CachePage(pid));
            var after := Advance(chain, w3, RecordProgress(pid));
            && after.storage == w.storage
            && (ScansSound(chain, after.storage, after.scans)
                <==> forall k :: k in chain[id.hash] && StartsWith(k, id.prefix) ==> StorageId(id.hash, k) in w.storage)
  {
    var w1 := Advance(chain, w, Begin(pid, id, 0, whole));
    var w2 := Advance(chain, w1, FetchPage(pid));
    assert w2.running[pid].phase == Holding(None, []);
    var w3 := Advance(chain, w2, CachePage(pid));
    var after := Advance(chain, w3, RecordProgress(pid));
    assert after.scans == w.scans[id := Progress(Some(id.prefix), true)];
    forall other | other in after.scans && other != id
      ensures Covers(chain, after.storage, other, after.scans[other])
    {
      assert other in w.scans;
    }
    assert Covers(chain, after.storage, id, after.scans[id])
      <==> forall k :: k in chain[id.hash] && StartsWith(k, id.prefix) ==> StorageId(id.hash, k) in w.storage;
  }

  /** Going on from an unfinished record with a page size of zero ends at once and changes nothing; then
      everything with the prefix is cached exactly when the keys after the recorded one were already. */
  lemma PageSizeZeroResumed(chain: Chain, w: World, pid: nat, id: ScanId)
    requires WorldInv(chain, w) && pid !in w.running && id.hash in chain
    requires id in w.scans && !w.scans[id].isComplete && w.scans[id].lastScanned.Some?
    ensures var w1 := Advance(chain, w, Begin(pid, id, 0, true));
            var w2 := Advance(chain, w1, FetchPage(pid));
            var w3 := Advance(chain, w2, CachePage(pid));
            var after := Advance(chain, w3, RecordProgress(pid));
            after.storage == w.storage && after.scans == w.scans && pid !in after.running
    ensures FullyCached(chain, w.storage, id)
       <==> forall k :: k in chain[id.hash] && StartsWith(k, id.prefix) && Lt(w.scans[id].lastScanned.value, k) ==>
              StorageId(id.hash, k) in w.storage
  {
    var last := w.scans[id].lastScanned;
    var w1 := Advance(chain, w, Begin(pid, id, 0, true));
    var w2 := Advance(chain, w1, FetchPage(pid));
    assert w2.running[pid].phase == Holding(last, []);
    var w3 := Advance(chain, w2, CachePage(pid));
    assert w3.running[pid].phase == Cached(last, []);
    AfterTheRecord(chain, w.storage, id, w.scans[id]);
  }

  lemma AfterTheRecord(chain: Chain, storage: StorageTable, id: ScanId, p: Progress)
    requires Covers(chain, storage, id, p) && !p.isComplete && p.lastScanned.Some?
    ensures FullyCached(chain, storage, id)
       <==> forall k :: k in chain[id.hash] && StartsWith(k, id.prefix) && Lt(p.lastScanned.value, k) ==>
              StorageId(id.hash, k) in storage
  {
    forall k | k in chain[id.hash] ensures Le(k, p.lastScanned.value) || Lt(p.lastScanned.value, k) {
      LtTotal(k, p.lastScanned.value);
    }
  }

  /** Clearing a block between caching a page and recording it leaves a record of keys that are gone, unless
      the page was empty. */
  lemma ClearDuringScanLies(chain: Chain, w: World, pid: nat)
    requires WorldInv(chain, w) && pid in w.running && w.running[pid].phase.Cached?
    ensures var after := Advance(chain, Advance(chain, w, ClearBlock(w.running[pid].id.hash)), RecordProgress(pid));
            ScansSound(chain, after.storage, after.scans) <==> w.running[pid].phase.page == []
  {
    var scan := w.running[pid];
    assert ScanInv(chain, w.storage, scan);
    var cleared := Advance(chain, w, ClearBlock(scan.id.hash));
    ClearKeepsRecords(chain, w, scan.id.hash);
    LostPage(chain, cleared.storage, cleared.scans, scan);
  }

  /** Recording a page where nothing of its block is cached or recorded. */
  lemma LostPage(chain: Chain, storage: StorageTable, scans: ScanTable, scan: Scan)
    requires ScansSound(chain, storage, scans) && scan.phase.Cached? && scan.id.hash in chain && scan.pageSize > 0
    requires scan.phase.page == Page(chain[scan.id.hash], scan.id.prefix, scan.pageSize, scan.phase.start)
    requires forall other :: other in storage ==> other.hash != scan.id.hash
    ensures var after := WithPage(scans, scan.id, scan.phase.start, scan.phase.page, scan.pageSize);
            ScansSound(chain, storage, after) <==> scan.phase.page == []
  {
    var page := scan.phase.page;
    if page == [] {
      NothingToCache(chain, scan.id, scan.phase.start, scan.pageSize, storage);
    } else {
      var last := page[|page| - 1];
      assert last in chain[scan.id.hash] && StartsWith(last, scan.id.prefix) by {
        PageSplits(chain[scan.id.hash], scan.id.prefix, scan.pageSize, scan.phase.start);
        assert last in page;
      }
      assert StorageId(scan.id.hash, last) !in storage;
      assert !Covers(chain, storage, scan.id, AfterPage(page, scan.pageSize));
      assert scan.id in WithPage(scans, scan.id, scan.phase.start, page, scan.pageSize);
    }
  }

  lemma ClearKeepsRecords(chain: Chain, w: World, hash: Hash)
    requires WorldInv(chain, w)
    ensures var cleared := Advance(chain, w, ClearBlock(hash));
            ScansSound(chain, cleared.storage, cleared.scans) && forall id :: id in cleared.scans ==> id.hash != hash
  {
    var cleared := Advance(chain, w, ClearBlock(hash));
    forall id | id in cleared.scans ensures Covers(chain, cleared.storage, id, cleared.scans[id]) {
      assert Covers(chain, w.storage, id, w.scans[id]);
    }
  }

  /** A first page of positive size that is empty leaves nothing to claim. */
  lemma NothingToCache(chain: Chain, id: ScanId, start: Option<Bytes>, pageSize: nat, storage: StorageTable)
    requires id.hash in chain && pageSize > 0 && Page(chain[id.hash], id.prefix, pageSize, start) == []
    ensures start.None? ==> Covers(chain, storage, id, Progress(Some(id.prefix), true))
  {
    PageSplits(chain[id.hash], id.prefix, pageSize, start);
    var left := KeysAfter(chain[id.hash], id.prefix, start);
    assert left == {};
    assert start.None? ==> forall k :: k in left <==> k in chain[id.hash] && StartsWith(k, id.prefix);
  }

  /** Clearing a block before the next page is cached does so too, when the scan goes on from an earlier
      page: its record will claim the keys of that page again. A scan at its first page is not harmed. */
  lemma ClearBeforeCaching(chain: Chain, w: World, pid: nat)
    requires WorldInv(chain, w) && pid in w.running && !w.running[pid].phase.Cached?
    ensures var scan := w.running[pid];
            var cleared := Advance(chain, w, ClearBlock(scan.id.hash));
            var cached := Advance(chain, Advance(chain, cleared, FetchPage(pid)), CachePage(pid));
            var after := Advance(chain, cached, RecordProgress(pid));
            var page := Page(chain[scan.id.hash], scan.id.prefix, scan.pageSize, scan.phase.start);
            ScansSound(chain, after.storage, after.scans) <==> (scan.phase.start.None? || page == [])
  {
    var scan := w.running[pid];
    assert ScanInv(chain, w.storage, scan);
    var cleared := Advance(chain, w, ClearBlock(scan.id.hash));
    PageStored(chain, cleared, pid);
    ClearKeepsRecords(chain, w, scan.id.hash);
    RecordedAfterClear(chain, cleared.storage, cleared.scans, scan.id, scan.phase.start, scan.pageSize);
  }

  /** The steps of one page: fetch it unless it is there already, cache it, record it. */
  lemma PageStored(chain: Chain, w: World, pid: nat)
    requires pid in w.running && !w.running[pid].phase.Cached? && w.running[pid].id.hash in chain
    requires var scan := w.running[pid];
      scan.phase.Holding? ==>
          scan.phase.page == Page(chain[scan.id.hash], scan.id.prefix, scan.pageSize, scan.phase.start)
    ensures var scan := w.running[pid];
            var page := Page(chain[scan.id.hash], scan.id.prefix, scan.pageSize, scan.phase.start);
            var cached := Advance(chain, Advance(chain, w, FetchPage(pid)), CachePage(pid));
            var after := Advance(chain, cached, RecordProgress(pid));
            && after.storage == UpsertAll(w.storage, scan.id.hash, Fetched(chain[scan.id.hash], page))
            && after.scans == WithPage(w.scans, scan.id, scan.phase.start, page, scan.pageSize)
  {
    var scan := w.running[pid];
    var page := Page(chain[scan.id.hash], scan.id.prefix, scan.pageSize, scan.phase.start);
    var fetched := Advance(chain, w, FetchPage(pid));
    assert fetched == w.(running := w.running[pid := scan.(phase := Holding(scan.phase.start, page))]);
    HeldPageStored(chain, fetched, pid);
  }

  lemma HeldPageStored(chain: Chain, w: World, pid: nat)
    requires pid in w.running && w.running[pid].phase.Holding? && w.running[pid].id.hash in chain
    ensures var scan, page := w.running[pid], w.running[pid].phase.page;
            var after := Advance(chain, Advance(chain, w, CachePage(pid)), RecordProgress(pid));
            && after.storage == UpsertAll(w.storage, scan.id.hash, Fetched(chain[scan.id.hash], page))
            && after.scans == WithPage(w.scans, scan.id, scan.phase.start, page, scan.pageSize)
  {
    var cached := Advance(chain, w, CachePage(pid));
    assert cached.running[pid]
        == w.running[pid].(phase := Cached(w.running[pid].phase.start, w.running[pid].phase.page));
  }

  /** Caching and recording one page where nothing of its block is cached or recorded. */
  lemma RecordedAfterClear(chain: Chain, storage: StorageTable, scans: ScanTable, id: ScanId, start: Option<Bytes>,
                           pageSize: nat)
    requires ScansSound(chain, storage, scans) && id.hash in chain && pageSize > 0 && Anchored(chain, id, start)
    requires forall other :: other in storage ==> other.hash != id.hash
    requires forall other :: other in scans ==> other.hash != id.hash
    ensures var page := Page(chain[id.hash], id.prefix, pageSize, start);
            var cached := UpsertAll(storage, id.hash, Fetched(chain[id.hash], page));
            ScansSound(chain, cached, WithPage(scans, id, start, page, pageSize)) <==> (start.None? || page == [])
  {
    var page := Page(chain[id.hash], id.prefix, pageSize, start);
    var after := UpsertAll(storage, id.hash, Fetched(chain[id.hash], page));
    CachedAfterClear(chain, storage, id.hash, page);
    ScansSoundMonotone(chain, storage, after, scans);
    if page == [] {
      NothingToCache(chain, id, start, pageSize, after);
    } else if start.None? {
      PageExtendsCoverage(chain, after, id, start, pageSize);
    } else {
      assert start.value !in page && Lt(start.value, page[|page| - 1]) by {
        PageSplits(chain[id.hash], id.prefix, pageSize, start);
        LtIrreflexive(start.value);
        assert page[|page| - 1] in page;
      }
      RecordClaimsStart(chain, id, start.value, page, pageSize, after);
      assert id in WithPage(scans, id, start, page, pageSize);
    }
  }

  lemma CachedAfterClear(chain: Chain, storage: StorageTable, hash: Hash, page: seq<Bytes>)
    requires hash in chain && forall id :: id in storage ==> id.hash != hash
    ensures var after := UpsertAll(storage, hash, Fetched(chain[hash], page));
            && storage.Keys <= after.Keys
            && forall k :: StorageId(hash, k) in after <==> k in page
  {
    var entries := Fetched(chain[hash], page);
    UpsertedKeys(storage, hash, entries);
    forall k ensures StorageId(hash, k) in UpsertAll(storage, hash, entries) <==> k in page {
      if k in page {
        var i :| 0 <= i < |page| && page[i] == k;
        assert entries[i].key == k;
      }
    }
  }

  lemma {:induction false} UpsertedKeys(storage: StorageTable, hash: Hash, entries: seq<Entry>)
    ensures forall id :: id in UpsertAll(storage, hash, entries) <==>
      id in storage || (id.hash == hash && exists i :: 0 <= i < |entries| && entries[i].key == id.key)
  {
    if entries != [] {
      var n := |entries| - 1;
      UpsertedKeys(storage, hash, entries[..n]);
      assert forall i :: 0 <= i < n ==> entries[..n][i] == entries[i];
    }
  }

  lemma RecordClaimsStart(chain: Chain, id: ScanId, start: Bytes, page: seq<Bytes>, pageSize: nat,
                          storage: StorageTable)
    requires Anchored(chain, id, Some(start)) && page != [] && start !in page && Lt(start, page[|page| - 1])
    requires forall k :: StorageId(id.hash, k) in storage <==> k in page
    ensures !Covers(chain, storage, id, AfterPage(page, pageSize))
  {
    assert StorageId(id.hash, start) !in storage;
  }
}
