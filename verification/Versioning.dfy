/** The state of the local layer as a value, the operations on it, and what its point reads mean. */
module Versioning {
  import opened Wrappers
  import opened ByteStrings
  import opened Upstream
  import opened IntervalTable

  const U32_MAX: nat := 0xFFFF_FFFF

  lemma BlockNumbersHave32Bits()
    ensures U32_MAX + 1 == 256 * 256 * 256 * 256
  {
  }

  datatype SharedValue = SharedValue(lastModificationBlock: nat, value: Option<Bytes>)

  /** `base` is the upstream state at the fork point, `current` the block being produced. */
  datatype View = View(
    fork: nat, current: nat, base: State,
    mods: map<Bytes, SharedValue>, deleted: seq<Bytes>, tables: Tables)

  function Initial(fork: nat, base: State): View {
    View(fork, fork + 1, base, map[], [], EMPTY_TABLES)
  }

  predicate IsDeleted(deleted: seq<Bytes>, key: Bytes) {
    exists i :: 0 <= i < |deleted| && StartsWith(key, deleted[i])
  }

  // ---- Reads, branch by branch ----

  /** `get_local_modification`: Some(None) is a local deletion, None no local answer for this block. */
  function LocalModification(v: View, key: Bytes, block: nat): Option<Option<Bytes>> {
    if key in v.mods then
      if v.current == block || v.mods[key].lastModificationBlock < block then Some(v.mods[key].value) else None
    else if IsDeleted(v.deleted, key) then Some(None)
    else None
  }

  /** `get` at a block after the fork point and up to the working block. */
  function Get(v: View, key: Bytes, block: nat): Option<Bytes> {
    var modified := LocalModification(v, key, block);
    if modified.Some? then modified.value
    else if block == v.current then Lookup(v.base, key)
    else
      var row := Read(v.tables, key, block);
      if row.Some? then row.value else Lookup(v.base, key)
  }

  predicate ForkLocal(v: View, block: nat) {
    v.fork < block <= v.current
  }

  // ---- Operations ----

  /** `Commit` names the order in which the modifications map happened to be iterated. */
  datatype Op =
    | Put(key: Bytes, value: Option<Bytes>)
    | Commit(order: seq<Bytes>)
    | DeletePrefix(prefix: Bytes)
    | Inject(key: Bytes, value: Option<Bytes>)

  function PendingKeys(v: View): set<Bytes> {
    set k | k in v.mods && v.mods[k].lastModificationBlock == v.current
  }

  function Entries(v: View, order: seq<Bytes>): seq<Entry> {
    seq(|order|, i requires 0 <= i < |order| =>
      Entry(order[i], if order[i] in v.mods then v.mods[order[i]].value else None))
  }

  function InitialVisibility(fork: nat): nat {
    if fork == 0 then 0 else fork - 1
  }

  function Step(v: View, op: Op): View {
    match op
    case Put(key, value) => v.(mods := v.mods[key := SharedValue(v.current, value)])
    case Commit(order) => v.(current := v.current + 1, tables := CommitAll(v.tables, Entries(v, order), v.current))
    case DeletePrefix(prefix) =>
      v.(mods := map k | k in v.mods && !StartsWith(k, prefix) :: v.mods[k], deleted := v.deleted + [prefix])
    case Inject(key, value) => v.(mods := v.mods[key := SharedValue(InitialVisibility(v.fork), value)])
  }

  ghost predicate Enabled(v: View, op: Op) {
    op.Commit? ==>
      && v.current < U32_MAX
      && Distinct(op.order) && forall k :: k in op.order <==> k in PendingKeys(v)
  }

  function Run(v: View, ops: seq<Op>): View {
    if ops == [] then v else Step(Run(v, ops[..|ops| - 1]), ops[|ops| - 1])
  }

  ghost predicate ValidRun(v: View, ops: seq<Op>) {
    ops != [] ==> ValidRun(v, ops[..|ops| - 1]) && Enabled(Run(v, ops[..|ops| - 1]), ops[|ops| - 1])
  }

  lemma {:induction false} RunAppend(v: View, ops: seq<Op>, more: seq<Op>)
    ensures Run(v, ops + more) == Run(Run(v, ops), more)
    ensures ValidRun(v, ops + more) <==> ValidRun(v, ops) && ValidRun(Run(v, ops), more)
  {
    if more == [] {
      assert ops + more == ops;
    } else {
      var n := |more| - 1;
      assert (ops + more)[..|ops + more| - 1] == ops + more[..n];
      RunAppend(v, ops, more[..n]);
    }
  }

  /** A batch of writes is the writes one by one. */
  function Puts(entries: seq<Entry>): seq<Op> {
    seq(|entries|, i requires 0 <= i < |entries| => Put(entries[i].key, entries[i].value))
  }

  function Injects(entries: seq<Entry>): seq<Op> {
    seq(|entries|, i requires 0 <= i < |entries| => Inject(entries[i].key, entries[i].value))
  }

  lemma {:induction false} PutsValid(v: View, entries: seq<Entry>)
    ensures ValidRun(v, Puts(entries))
    ensures var u := Run(v, Puts(entries)); u == v.(mods := u.mods)
  {
    if entries != [] {
      assert Puts(entries)[..|entries| - 1] == Puts(entries[..|entries| - 1]);
      PutsValid(v, entries[..|entries| - 1]);
    }
  }

  // ---- What a run wrote ----

  datatype Event =
    | Wrote(block: nat, key: Bytes, value: Option<Bytes>)
    | Erased(prefix: Bytes)
    | Injected(key: Bytes, value: Option<Bytes>)
  {
    predicate Touches(k: Bytes) {
      match this
      case Wrote(_, key, _) => key == k
      case Erased(prefix) => StartsWith(k, prefix)
      case Injected(key, _) => key == k
    }
  }

  function EventsOf(v: View, op: Op): seq<Event> {
    match op
    case Put(key, value) => [Wrote(v.current, key, value)]
    case Commit(_) => []
    case DeletePrefix(prefix) => [Erased(prefix)]
    case Inject(key, value) => [Injected(key, value)]
  }

  function Log(v: View, ops: seq<Op>): seq<Event> {
    if ops == [] then []
    else Log(v, ops[..|ops| - 1]) + EventsOf(Run(v, ops[..|ops| - 1]), ops[|ops| - 1])
  }

  /** The value of the last write to the key at a block <= `block`. */
  function LastWrite(log: seq<Event>, key: Bytes, block: nat): Option<Option<Bytes>> {
    if log == [] then None
    else
      var e := log[|log| - 1];
      if e.Wrote? && e.key == key && e.block <= block then Some(e.value)
      else LastWrite(log[..|log| - 1], key, block)
  }

  /** Spelled out: such a write is in the log, and no later one of the key is at or before the block. */
  lemma {:induction false} LastWriteIsLast(log: seq<Event>, key: Bytes, block: nat)
    ensures match LastWrite(log, key, block)
            case Some(value) =>
              exists i :: 0 <= i < |log| && WritesBy(log[i], key, block) && log[i].value == value
                && forall j :: i < j < |log| ==> !WritesBy(log[j], key, block)
            case None => forall i :: 0 <= i < |log| ==> !WritesBy(log[i], key, block)
  {
    if log != [] {
      var n := |log| - 1;
      LastWriteIsLast(log[..n], key, block);
      if !WritesBy(log[n], key, block) && LastWrite(log[..n], key, block).Some? {
        var i :| 0 <= i < n && WritesBy(log[..n][i], key, block)
            && log[..n][i].value == LastWrite(log, key, block).value
          && forall j :: i < j < n ==> !WritesBy(log[..n][j], key, block);
        assert WritesBy(log[i], key, block);
        forall j | i < j < |log| ensures !WritesBy(log[j], key, block) {
          if j < n {
            assert log[..n][j] == log[j];
          }
        }
      }
      if !WritesBy(log[n], key, block) && LastWrite(log[..n], key, block).None? {
        forall i | 0 <= i < n ensures !WritesBy(log[i], key, block) {
          assert log[..n][i] == log[i];
        }
      }
    }
  }

  predicate WritesBy(e: Event, key: Bytes, block: nat) {
    e.Wrote? && e.key == key && e.block <= block
  }

  function LastTouch(log: seq<Event>, key: Bytes): Option<Event> {
    if log == [] then None
    else if log[|log| - 1].Touches(key) then Some(log[|log| - 1])
    else LastTouch(log[..|log| - 1], key)
  }

  /** The key was only ever written: never under a deleted prefix, never injected. */
  ghost predicate Clean(log: seq<Event>, key: Bytes) {
    forall i :: 0 <= i < |log| && log[i].Touches(key) ==> log[i].Wrote?
  }

  /** The key never lay under a deleted prefix and was injected, if at all, before it was first written. */
  ghost predicate Seeded(log: seq<Event>, key: Bytes) {
    && (forall i :: 0 <= i < |log| && log[i].Touches(key) ==> !log[i].Erased?)
    && (forall i, j :: 0 <= i < j < |log| && log[i].Touches(key) && log[i].Wrote? && log[j].Touches(key) ==>
          log[j].Wrote?)
  }

  function Or(written: Option<Option<Bytes>>, upstream: Option<Bytes>): Option<Bytes> {
    if written.Some? then written.value else upstream
  }

  // ---- Invariant ----

  ghost predicate ModsMatch(v: View, log: seq<Event>, key: Bytes) {
    match LastTouch(log, key)
    case None => key !in v.mods && !IsDeleted(v.deleted, key)
    case Some(Wrote(block, _, value)) => key in v.mods && v.mods[key] == SharedValue(block, value)
    case Some(Injected(_, value)) => key in v.mods && v.mods[key] == SharedValue(InitialVisibility(v.fork), value)
    case Some(Erased(_)) => key !in v.mods && IsDeleted(v.deleted, key)
  }

  ghost predicate BlocksOrdered(v: View, log: seq<Event>) {
    && (forall i :: 0 <= i < |log| && log[i].Wrote? ==> v.fork < log[i].block <= v.current)
    && (forall i, j :: 0 <= i < j < |log| && log[i].Wrote? && log[j].Wrote? ==> log[i].block <= log[j].block)
  }

  function Min(a: nat, b: nat): nat {
    if a < b then a else b
  }

  /** The table knows every block before the working one; the open row also answers later blocks. */
  ghost predicate TableMatches(v: View, log: seq<Event>, key: Bytes)
    requires v.current > 0
  {
    forall b: nat :: Read(v.tables, key, b) == LastWrite(log, key, Min(b, v.current - 1))
  }

  ghost predicate Inv(v: View, log: seq<Event>) {
    && v.fork < v.current
    && WellFormed(v.tables, v.current - 1)
    && BlocksOrdered(v, log)
    && (forall k :: ModsMatch(v, log, k))
    && (forall k :: Seeded(log, k) ==> TableMatches(v, log, k))
  }

  lemma CleanPrefix(log: seq<Event>, e: Event, key: Bytes)
    ensures Clean(log + [e], key) ==> Clean(log, key)
    ensures Seeded(log + [e], key) ==> Seeded(log, key)
    ensures LastTouch(log + [e], key) == if e.Touches(key) then Some(e) else LastTouch(log, key)
    ensures forall b ::
      LastWrite(log + [e], key, b)
        == if e.Wrote? && e.key == key && e.block <= b then Some(e.value) else LastWrite(log, key, b)
  {
    assert (log + [e])[..|log|] == log;
    assert forall i :: 0 <= i < |log| ==> log[i] == (log + [e])[i];
  }

  lemma EventKeepsInv(v: View, log: seq<Event>, op: Op)
    requires Inv(v, log) && !op.Commit?
    ensures Inv(Step(v, op), log + EventsOf(v, op))
  {
    var u, e := Step(v, op), EventsOf(v, op)[0];
    forall k ensures ModsMatch(u, log + [e], k) {
      CleanPrefix(log, e, k);
      assert ModsMatch(v, log, k);
      if op.DeletePrefix? {
        DeletedAppend(v.deleted, op.prefix, k);
      }
    }
    forall k | Seeded(log + [e], k) ensures TableMatches(u, log + [e], k) {
      CleanPrefix(log, e, k);
      assert TableMatches(v, log, k);
    }
  }

  lemma DeletedAppend(deleted: seq<Bytes>, prefix: Bytes, key: Bytes)
    ensures IsDeleted(deleted + [prefix], key) <==> IsDeleted(deleted, key) || StartsWith(key, prefix)
  {
    if StartsWith(key, prefix) {
      assert StartsWith(key, (deleted + [prefix])[|deleted|]);
    }
    if i :| 0 <= i < |deleted| && StartsWith(key, deleted[i]) {
      assert StartsWith(key, (deleted + [prefix])[i]);
    }
  }

  /** Reads at or after the block of the last touch see it, when that touch is a write. */
  lemma {:induction false} LastTouchIsLastWrite(log: seq<Event>, key: Bytes, block: nat)
    requires Seeded(log, key)
    ensures match LastTouch(log, key)
            case Some(Wrote(b, k, value)) => k == key && (b <= block ==> LastWrite(log, key, block) == Some(value))
            case Some(Injected(k, _)) => k == key && LastWrite(log, key, block) == None
            case Some(Erased(_)) => false
            case None => LastWrite(log, key, block) == None
  {
    if log != [] {
      var n := |log| - 1;
      assert log == log[..n] + [log[n]];
      CleanPrefix(log[..n], log[n], key);
      LastTouchIsLastWrite(log[..n], key, block);
      if log[n].Touches(key) && log[n].Injected? {
        NoWriteBelow(log, key, n, n, block);
      }
    }
  }

  /** Before an injection of a seeded key there is no write of it. */
  lemma {:induction false} NoWriteBelow(log: seq<Event>, key: Bytes, n: nat, m: nat, block: nat)
    requires Seeded(log, key) && m <= n < |log| && log[n].Touches(key) && !log[n].Wrote?
    ensures LastWrite(log[..m], key, block) == None
  {
    if m > 0 {
      assert log[..m][..m - 1] == log[..m - 1];
      assert log[..m][m - 1] == log[m - 1];
      NoWriteBelow(log, key, n, m - 1, block);
    }
  }

  /** When the last write to a key came before block `c`, reading at `c` is reading at `c - 1`. */
  lemma {:induction false} NothingAt(v: View, log: seq<Event>, key: Bytes, c: nat)
    requires BlocksOrdered(v, log) && Seeded(log, key) && c > 0
    requires LastTouch(log, key).Some? && LastTouch(log, key).value.Wrote? ==> LastTouch(log, key).value.block < c
    ensures LastWrite(log, key, c) == LastWrite(log, key, c - 1)
  {
    LastTouchIsLastWrite(log, key, c);
    LastTouchIsLastWrite(log, key, c - 1);
  }

  lemma {:induction false} EntriesLast(v: View, order: seq<Bytes>, key: Bytes)
    requires forall k :: k in order ==> k in v.mods
    ensures LastEntry(Entries(v, order), key) == if key in order then Some(v.mods[key].value) else None
  {
    if order != [] {
      var n := |order| - 1;
      assert Entries(v, order)[..n] == Entries(v, order[..n]);
      assert order == order[..n] + [order[n]];
      EntriesLast(v, order[..n], key);
    }
  }

  /** The pending keys are the ones written at the working block. */
  lemma PendingIsLastWrite(v: View, log: seq<Event>, order: seq<Bytes>, key: Bytes)
    requires Inv(v, log) && Enabled(v, Commit(order)) && Seeded(log, key)
    ensures LastWrite(log, key, v.current)
        == if key in order then Some(v.mods[key].value) else LastWrite(log, key, v.current - 1)
  {
    assert ModsMatch(v, log, key);
    assert key in order <==> key in PendingKeys(v);
    LastTouchIsLastWrite(log, key, v.current);
    if key !in order {
      TouchBounded(v, log, key);
      NothingAt(v, log, key, v.current);
    }
  }

  lemma CommitReads(v: View, log: seq<Event>, order: seq<Bytes>, key: Bytes, b: nat)
    requires Inv(v, log) && Enabled(v, Commit(order))
    ensures Read(Step(v, Commit(order)).tables, key, b)
         == if v.current <= b && key in order then Some(v.mods[key].value) else Read(v.tables, key, b)
  {
    CommitAllRead(v.tables, v.current - 1, Entries(v, order), v.current, key, b);
    EntriesLast(v, order, key);
  }

  lemma CommitKeepsTable(v: View, log: seq<Event>, order: seq<Bytes>, key: Bytes)
    requires Inv(v, log) && Enabled(v, Commit(order)) && Seeded(log, key)
    ensures TableMatches(Step(v, Commit(order)), log, key)
  {
    var u := Step(v, Commit(order));
    assert TableMatches(v, log, key);
    PendingIsLastWrite(v, log, order, key);
    forall b: nat ensures Read(u.tables, key, b) == LastWrite(log, key, Min(b, u.current - 1)) {
      CommitReads(v, log, order, key, b);
    }
  }

  lemma {:induction false} TouchBounded(v: View, log: seq<Event>, key: Bytes)
    requires BlocksOrdered(v, log)
    ensures LastTouch(log, key).Some? && LastTouch(log, key).value.Wrote? ==>
      v.fork < LastTouch(log, key).value.block <= v.current
  {
    if log != [] && !log[|log| - 1].Touches(key) {
      TouchBounded(v, log[..|log| - 1], key);
    }
  }

  lemma CommitKeepsInv(v: View, log: seq<Event>, order: seq<Bytes>)
    requires Inv(v, log) && Enabled(v, Commit(order))
    ensures Inv(Step(v, Commit(order)), log)
  {
    var u := Step(v, Commit(order));
    CommitAllWellFormed(v.tables, v.current - 1, Entries(v, order), v.current);
    forall k ensures ModsMatch(u, log, k) {
      assert ModsMatch(v, log, k);
    }
    forall k | Seeded(log, k) ensures TableMatches(u, log, k) {
      CommitKeepsTable(v, log, order, k);
    }
  }

  lemma InitialInv(fork: nat, base: State)
    ensures Inv(Initial(fork, base), [])
  {
  }

  lemma {:induction false} RunKeepsInv(fork: nat, base: State, ops: seq<Op>)
    requires ValidRun(Initial(fork, base), ops)
    ensures Inv(Run(Initial(fork, base), ops), Log(Initial(fork, base), ops))
    ensures Run(Initial(fork, base), ops).fork == fork && Run(Initial(fork, base), ops).base == base
  {
    if ops != [] {
      var n := |ops| - 1;
      RunKeepsInv(fork, base, ops[..n]);
      var v, log := Run(Initial(fork, base), ops[..n]), Log(Initial(fork, base), ops[..n]);
      match ops[n] {
        case Commit(order) =>
          CommitKeepsInv(v, log, order);
          assert log + [] == log;
        case _ => EventKeepsInv(v, log, ops[n]);
      }
    }
  }

  // ---- What reads mean ----

  /** The last write at or before the block; failing that the injected value if the key was never written
      at all, and otherwise the fork-point value. */
  function SeededRead(log: seq<Event>, base: State, key: Bytes, block: nat): Option<Bytes> {
    if LastWrite(log, key, block).Some? then LastWrite(log, key, block).value
    else
      match LastTouch(log, key)
      case Some(Injected(_, value)) => value
      case _ => Lookup(base, key)
  }

  /** Whichever of the three places answers, this is what a seeded key reads as at a fork-local block. */
  lemma ReadsSeeded(v: View, log: seq<Event>, key: Bytes, block: nat)
    requires Inv(v, log) && Seeded(log, key) && ForkLocal(v, block)
    ensures Get(v, key, block) == SeededRead(log, v.base, key, block)
  {
    assert ModsMatch(v, log, key) && TableMatches(v, log, key);
    LastTouchIsLastWrite(log, key, block);
    TouchBounded(v, log, key);
  }

  lemma {:induction false} CleanRead(log: seq<Event>, base: State, key: Bytes, block: nat)
    requires Clean(log, key)
    ensures Seeded(log, key)
    ensures SeededRead(log, base, key, block) == Or(LastWrite(log, key, block), Lookup(base, key))
  {
    LastTouchIsLastWrite(log, key, block);
    TouchInLog(log, key);
  }

  lemma {:induction false} TouchInLog(log: seq<Event>, key: Bytes)
    ensures LastTouch(log, key).Some? ==>
      exists i :: 0 <= i < |log| && log[i] == LastTouch(log, key).value && log[i].Touches(key)
  {
    if log != [] && !log[|log| - 1].Touches(key) {
      var n := |log| - 1;
      TouchInLog(log[..n], key);
      assert forall i :: 0 <= i < n ==> log[..n][i] == log[i];
    }
  }

  /** A key that was only ever written reads at a fork-local block as its last write at or before that
      block, and as the fork-point value if there is none. */
  lemma ReadsLastWrite(v: View, log: seq<Event>, key: Bytes, block: nat)
    requires Inv(v, log) && Clean(log, key) && ForkLocal(v, block)
    ensures Get(v, key, block) == Or(LastWrite(log, key, block), Lookup(v.base, key))
  {
    CleanRead(log, v.base, key, block);
    ReadsSeeded(v, log, key, block);
  }

  /** What memory answers by itself, at every block: a deletion always, a write after its own block, an
      injection after the block below the fork point; and all of them at the working block. */
  lemma MemoryAnswers(v: View, log: seq<Event>, key: Bytes, block: nat)
    requires Inv(v, log)
    ensures LocalModification(v, key, block)
         == match LastTouch(log, key)
            case None => None
            case Some(Wrote(b, _, value)) => if block == v.current || b < block then Some(value) else None
            case Some(Injected(_, value)) => if block == v.current
                || (v.fork <= block && 0 < block) then Some(value) else None
            case Some(Erased(_)) => Some(None)
  {
    assert ModsMatch(v, log, key);
  }

  /** So nothing that was written on the fork is seen at or before the fork point, and what was injected not
      before it. */
  lemma BeforeTheFork(v: View, log: seq<Event>, key: Bytes, block: nat)
    requires Inv(v, log) && block <= v.fork
    ensures LocalModification(v, key, block)
         == match LastTouch(log, key)
            case Some(Injected(_, value)) => if block == v.fork && 0 < v.fork then Some(value) else None
            case Some(Erased(_)) => Some(None)
            case _ => None
  {
    MemoryAnswers(v, log, key, block);
    TouchBounded(v, log, key);
  }

  /** At the working block the last event that concerns the key decides, whatever it was. */
  lemma WorkingReadsLastTouch(v: View, log: seq<Event>, key: Bytes)
    requires Inv(v, log)
    ensures Get(v, key, v.current)
         == match LastTouch(log, key)
            case None => Lookup(v.base, key)
            case Some(Wrote(_, _, value)) => value
            case Some(Injected(_, value)) => value
            case Some(Erased(_)) => None
  {
    assert ModsMatch(v, log, key);
  }

  /** Multi-version reads over every run of writes, commits, prefix deletions and injections. */
  lemma RunReadsLastWrite(fork: nat, base: State, ops: seq<Op>, key: Bytes, block: nat)
    requires ValidRun(Initial(fork, base), ops)
    requires Clean(Log(Initial(fork, base), ops), key)
    requires ForkLocal(Run(Initial(fork, base), ops), block)
    ensures Get(Run(Initial(fork, base), ops), key, block)
         == Or(LastWrite(Log(Initial(fork, base), ops), key, block), Lookup(base, key))
  {
    RunKeepsInv(fork, base, ops);
    ReadsLastWrite(Run(Initial(fork, base), ops), Log(Initial(fork, base), ops), key, block);
  }

  /** The same with injections before the first write of the key. */
  lemma RunReadsSeeded(fork: nat, base: State, ops: seq<Op>, key: Bytes, block: nat)
    requires ValidRun(Initial(fork, base), ops)
    requires Seeded(Log(Initial(fork, base), ops), key)
    requires ForkLocal(Run(Initial(fork, base), ops), block)
    ensures Get(Run(Initial(fork, base), ops), key, block)
         == SeededRead(Log(Initial(fork, base), ops), base, key, block)
  {
    RunKeepsInv(fork, base, ops);
    ReadsSeeded(Run(Initial(fork, base), ops), Log(Initial(fork, base), ops), key, block);
  }

  lemma NextEventUnseen(v: View, log: seq<Event>, op: Op, key: Bytes, block: nat)
    requires block < v.current
    ensures LastWrite(log + EventsOf(v, op), key, block) == LastWrite(log, key, block)
    ensures Clean(log + EventsOf(v, op), key) ==> Clean(log, key)
  {
    if op.Commit? {
      assert log + EventsOf(v, op) == log;
    } else {
      CleanPrefix(log, EventsOf(v, op)[0], key);
    }
  }

  lemma {:induction false} LaterEventsUnseen(v: View, ops: seq<Op>, more: seq<Op>, key: Bytes, block: nat)
    requires block < Run(v, ops).current
    ensures Run(v, ops).current <= Run(v, ops + more).current
    ensures LastWrite(Log(v, ops + more), key, block) == LastWrite(Log(v, ops), key, block)
    ensures Clean(Log(v, ops + more), key) ==> Clean(Log(v, ops), key)
  {
    if more == [] {
      assert ops + more == ops;
    } else {
      var n := |more| - 1;
      assert ops + more == ops + more[..n] + [more[n]];
      LaterEventsUnseen(v, ops, more[..n], key, block);
      RunOne(v, ops + more[..n], more[n]);
      NextEventUnseen(Run(v, ops + more[..n]), Log(v, ops + more[..n]), more[n], key, block);
    }
  }

  /** What was committed stays: no later write, batch or commit, finished or abandoned, changes what an
      earlier fork-local block reads, although the map entry that answered may be gone. */
  lemma CommittedHistoryImmutable(fork: nat, base: State, ops: seq<Op>, more: seq<Op>, key: Bytes, block: nat)
    requires ValidRun(Initial(fork, base), ops + more)
    requires Clean(Log(Initial(fork, base), ops + more), key)
    requires fork < block < Run(Initial(fork, base), ops).current
    ensures Get(Run(Initial(fork, base), ops + more), key, block) == Get(Run(Initial(fork, base), ops), key, block)
  {
    RunAppend(Initial(fork, base), ops, more);
    LaterEventsUnseen(Initial(fork, base), ops, more, key, block);
    RunKeepsInv(fork, base, ops);
    RunKeepsInv(fork, base, ops + more);
    RunReadsLastWrite(fork, base, ops, key, block);
    RunReadsLastWrite(fork, base, ops + more, key, block);
  }

  /** A key with committed rows is in the latest-write map, and unless it was rewritten at the working
      block the map holds the value of its open row. */
  lemma OpenRowMirrored(v: View, log: seq<Event>, key: Bytes)
    requires Inv(v, log) && Seeded(log, key)
    requires Read(v.tables, key, v.current).Some?
    ensures key in v.mods
    ensures v.mods[key].lastModificationBlock == v.current || Some(v.mods[key].value) == Read(v.tables, key, v.current)
  {
    assert ModsMatch(v, log, key) && TableMatches(v, log, key);
    LastTouchIsLastWrite(log, key, v.current - 1);
    TouchBounded(v, log, key);
  }

  lemma RunOne(v: View, ops: seq<Op>, op: Op)
    ensures Run(v, ops + [op]) == Step(Run(v, ops), op)
    ensures ValidRun(v, ops + [op]) <==> ValidRun(v, ops) && Enabled(Run(v, ops), op)
    ensures Log(v, ops + [op]) == Log(v, ops) + EventsOf(Run(v, ops), op)
  {
    assert (ops + [op])[..|ops|] == ops;
  }

  // ---- Where prefix deletion and injection leave the multi-version rule ----

  /** `delete_prefix` has no block: it empties the keys it covers at every block, those before the fork point
      included, and leaves the local answer for other keys alone. */
  lemma DeletePrefixAnswers(v: View, prefix: Bytes, key: Bytes, block: nat)
    ensures LocalModification(Step(v, DeletePrefix(prefix)), key, block)
         == if StartsWith(key, prefix) then Some(None) else LocalModification(v, key, block)
  {
    DeletedAppend(v.deleted, prefix, key);
  }

  /** So it leaves a fork-local answer as it was exactly when that answer was already empty. */
  lemma DeletePrefixRewritesHistory(v: View, prefix: Bytes, key: Bytes, block: nat)
    requires ForkLocal(v, block)
    ensures Get(Step(v, DeletePrefix(prefix)), key, block)
        == if StartsWith(key, prefix) then None else Get(v, key, block)
    ensures Get(Step(v, DeletePrefix(prefix)), key, block) == Get(v, key, block)
       <==> (!StartsWith(key, prefix) || Get(v, key, block).None?)
  {
    DeletePrefixAnswers(v, prefix, key, block);
  }

  /** Whatever else happens, an injected value is read at every fork-local block until the key is touched again. */
  lemma InjectedEverywhere(v: View, log: seq<Event>, key: Bytes, value: Option<Bytes>, block: nat)
    requires Inv(v, log) && LastTouch(log, key) == Some(Injected(key, value)) && ForkLocal(v, block)
    ensures Get(v, key, block) == value
  {
    assert ModsMatch(v, log, key);
  }

  /** It is read at the fork point itself unless that is block 0. */
  lemma InjectedAtForkPoint(v: View, log: seq<Event>, key: Bytes, value: Option<Bytes>)
    requires Inv(v, log) && LastTouch(log, key) == Some(Injected(key, value))
    ensures LocalModification(v, key, v.fork) == Some(value) <==> v.fork > 0
  {
    assert ModsMatch(v, log, key);
  }

  function LastInjection(log: seq<Event>, key: Bytes): Option<Option<Bytes>> {
    if log == [] then None
    else if log[|log| - 1].Injected? && log[|log| - 1].key == key then Some(log[|log| - 1].value)
    else LastInjection(log[..|log| - 1], key)
  }

  lemma {:induction false} TouchedLastByInjection(log: seq<Event>, key: Bytes)
    requires LastTouch(log, key).Some? && LastTouch(log, key).value.Injected?
    ensures LastInjection(log, key) == Some(LastTouch(log, key).value.value)
  {
    if !log[|log| - 1].Touches(key) {
      TouchedLastByInjection(log[..|log| - 1], key);
    }
  }

  lemma {:induction false} InjectionTouches(log: seq<Event>, key: Bytes)
    requires LastInjection(log, key).Some?
    ensures LastTouch(log, key).Some?
  {
    if !log[|log| - 1].Touches(key) {
      InjectionTouches(log[..|log| - 1], key);
    }
  }

  /** Over every run: before the first write of an injected key a fork-local block still reads the injected
      value exactly when the key is never written afterwards, or the fork point happens to hold the same.
      A later write thus changes what earlier blocks read. */
  lemma InjectedThenWritten(fork: nat, base: State, ops: seq<Op>, key: Bytes, injected: Option<Bytes>, block: nat)
    requires ValidRun(Initial(fork, base), ops) && ForkLocal(Run(Initial(fork, base), ops), block)
    requires var log := Log(Initial(fork, base), ops);
             Seeded(log, key) && LastInjection(log, key) == Some(injected) && LastWrite(log, key, block).None?
    ensures var v, log := Run(Initial(fork, base), ops), Log(Initial(fork, base), ops);
            && Get(v, key, block) == (if LastWrite(log, key, v.current).None? then injected else Lookup(base, key))
            && (Get(v, key, block) == injected
                <==> (LastWrite(log, key, v.current).None? || Lookup(base, key) == injected))
  {
    var v, log := Run(Initial(fork, base), ops), Log(Initial(fork, base), ops);
    RunKeepsInv(fork, base, ops);
    ReadsSeeded(v, log, key, block);
    LastTouchIsLastWrite(log, key, v.current);
    TouchBounded(v, log, key);
    InjectionTouches(log, key);
    if LastTouch(log, key).value.Injected? {
      TouchedLastByInjection(log, key);
    }
  }

  // ---- States, block by block ----

  function Apply(s: State, e: Entry): State {
    if e.value.Some? then s[e.key := e.value.value] else s - {e.key}
  }

  /** A state with a diff applied in order. */
  function Overlay(s: State, diff: seq<Entry>): State {
    if diff == [] then s else Apply(Overlay(s, diff[..|diff| - 1]), diff[|diff| - 1])
  }

  lemma {:induction false} OverlayAppend(s: State, d: seq<Entry>, e: seq<Entry>)
    ensures Overlay(s, d + e) == Overlay(Overlay(s, d), e)
  {
    if e == [] {
      assert d + e == d;
    } else {
      assert (d + e)[..|d + e| - 1] == d + e[..|e| - 1];
      OverlayAppend(s, d, e[..|e| - 1]);
    }
  }

  lemma OverlayOne(s: State, d: seq<Entry>, e: Entry)
    ensures Overlay(s, d + [e]) == Apply(Overlay(s, d), e)
  {
    assert (d + [e])[..|d|] == d;
  }

  /** Everything written at `block`, in order. */
  function DiffAt(log: seq<Event>, block: nat): seq<Entry> {
    if log == [] then []
    else
      var e := log[|log| - 1];
      DiffAt(log[..|log| - 1], block) + if e.Wrote? && e.block == block then [Entry(e.key, e.value)] else []
  }

  /** The fork-point state with the diffs of blocks `fork + 1 ..= block` folded in order. */
  function StateAt(fork: nat, base: State, log: seq<Event>, block: nat): State
    requires fork <= block
    decreases block - fork
  {
    if block == fork then base
    else Overlay(StateAt(fork, base, log, block - 1), DiffAt(log, block))
  }

  lemma DiffAppend(log: seq<Event>, e: Event, block: nat)
    ensures DiffAt(log + [e], block)
         == DiffAt(log, block) + if e.Wrote? && e.block == block then [Entry(e.key, e.value)] else []
  {
    assert (log + [e])[..|log|] == log;
  }

  /** One more write adds to the state of its block and leaves the states of earlier blocks alone. */
  lemma {:induction false} StateAppend(fork: nat, base: State, log: seq<Event>, e: Event, block: nat)
    requires fork <= block && (e.Wrote? ==> block <= e.block && fork < e.block)
    ensures StateAt(fork, base, log + [e], block)
         == if e.Wrote? && e.block == block then Apply(StateAt(fork, base, log, block), Entry(e.key, e.value))
            else StateAt(fork, base, log, block)
    decreases block - fork
  {
    if block > fork {
      DiffAppend(log, e, block);
      StateAppend(fork, base, log, e, block - 1);
      var d := DiffAt(log, block);
      assert StateAt(fork, base, log + [e], block - 1) == StateAt(fork, base, log, block - 1);
      if e.Wrote? && e.block == block {
        assert DiffAt(log + [e], block) == d + [Entry(e.key, e.value)];
        OverlayOne(StateAt(fork, base, log, block - 1), d, Entry(e.key, e.value));
      } else {
        assert DiffAt(log + [e], block) == d;
      }
    }
  }

  /** Reading the folded state at a block is reading the last write up to that block. */
  lemma {:induction false} StateIsLastWrite(v: View, log: seq<Event>, key: Bytes, block: nat)
    requires BlocksOrdered(v, log) && v.fork <= block
    ensures Lookup(StateAt(v.fork, v.base, log, block), key) == Or(LastWrite(log, key, block), Lookup(v.base, key))
    decreases |log|
  {
    if log == [] {
      NoEventsNoChange(v.fork, v.base, block);
    } else {
      var n := |log| - 1;
      assert log == log[..n] + [log[n]];
      StateIsLastWrite(v, log[..n], key, block);
      NextEventInState(v, log[..n], log[n], key, block);
    }
  }

  lemma NextEventInState(v: View, log: seq<Event>, e: Event, key: Bytes, block: nat)
    requires BlocksOrdered(v, log + [e]) && v.fork <= block
    requires Lookup(StateAt(v.fork, v.base, log, block), key) == Or(LastWrite(log, key, block), Lookup(v.base, key))
    ensures Lookup(StateAt(v.fork, v.base, log + [e], block), key)
         == Or(LastWrite(log + [e], key, block), Lookup(v.base, key))
  {
    assert LastWrite(log + [e], key, block)
        == if e.Wrote? && e.key == key && e.block <= block then Some(e.value) else LastWrite(log, key, block) by {
      CleanPrefix(log, e, key);
    }
    StateWithNext(v, log, e, block);
    var s := StateAt(v.fork, v.base, log, block);
    if e.Wrote? && e.block <= block {
      LookupApplied(s, Entry(e.key, e.value), key);
    }
  }

  lemma LookupApplied(s: State, e: Entry, key: Bytes)
    ensures Lookup(Apply(s, e), key) == if e.key == key then e.value else Lookup(s, key)
  {
  }

  lemma StateWithNext(v: View, log: seq<Event>, e: Event, block: nat)
    requires BlocksOrdered(v, log + [e]) && v.fork <= block
    ensures StateAt(v.fork, v.base, log + [e], block)
         == if e.Wrote? && e.block <= block then Apply(StateAt(v.fork, v.base, log, block), Entry(e.key, e.value))
            else StateAt(v.fork, v.base, log, block)
  {
    if e.Wrote? && e.block <= block {
      LateWriteApplies(v, log, e, block);
    } else {
      assert (log + [e])[|log|] == e;
      StateAppend(v.fork, v.base, log, e, block);
    }
  }

  /** A write after all others applies to the state of its block and of every later one. */
  lemma LateWriteApplies(v: View, log: seq<Event>, e: Event, block: nat)
    requires BlocksOrdered(v, log + [e]) && e.Wrote? && e.block <= block
    ensures v.fork < e.block
    ensures StateAt(v.fork, v.base, log + [e], block)
         == Apply(StateAt(v.fork, v.base, log, block), Entry(e.key, e.value))
  {
    assert (log + [e])[|log|] == e;
    assert forall i :: 0 <= i < |log| ==> (log + [e])[i] == log[i];
    StateAppend(v.fork, v.base, log, e, e.block);
    QuietAfter(v, log + [e], e.block, block);
    QuietAfter(v, log, e.block, block);
  }

  lemma {:induction false} NoEventsNoChange(fork: nat, base: State, block: nat)
    requires fork <= block
    ensures StateAt(fork, base, [], block) == base
    decreases block - fork
  {
    if block > fork {
      NoEventsNoChange(fork, base, block - 1);
    }
  }

  lemma {:induction false} NoDiff(log: seq<Event>, block: nat)
    requires forall i :: 0 <= i < |log| && log[i].Wrote? ==> log[i].block != block
    ensures DiffAt(log, block) == []
  {
    if log != [] {
      NoDiff(log[..|log| - 1], block);
    }
  }

  lemma {:induction false} NoDiffNoWrite(log: seq<Event>, key: Bytes, block: nat)
    requires block > 0 && DiffAt(log, block) == []
    ensures LastWrite(log, key, block) == LastWrite(log, key, block - 1)
  {
    if log != [] {
      NoDiffNoWrite(log[..|log| - 1], key, block);
    }
  }

  /** With no writes after block `c`, the state stays what it was at `c`. */
  lemma {:induction false} QuietAfter(v: View, log: seq<Event>, c: nat, block: nat)
    requires v.fork <= c <= block
    requires forall i :: 0 <= i < |log| && log[i].Wrote? ==> log[i].block <= c
    ensures StateAt(v.fork, v.base, log, block) == StateAt(v.fork, v.base, log, c)
    decreases block
  {
    if c < block {
      NoDiff(log, block);
      QuietAfter(v, log, c, block - 1);
    }
  }

  /** The events of a batch of writes at one block. */
  function WroteAll(block: nat, entries: seq<Entry>): seq<Event> {
    seq(|entries|, i requires 0 <= i < |entries| => Wrote(block, entries[i].key, entries[i].value))
  }

  /** Two batches in a row at one block are one batch. */
  lemma JoinLogs(log: seq<Event>, block: nat, d: seq<Entry>, e: seq<Entry>)
    ensures (log + WroteAll(block, d)) + WroteAll(block, e) == log + WroteAll(block, d + e)
  {
    assert WroteAll(block, d) + WroteAll(block, e) == WroteAll(block, d + e);
  }

  lemma EmptyBatch(log: seq<Event>, block: nat)
    ensures log + WroteAll(block, []) == log
  {
  }

  lemma LastOfBatch(log: seq<Event>, block: nat, entries: seq<Entry>)
    requires entries != []
    ensures var n := |entries| - 1;
            && log + WroteAll(block, entries)
               == (log + WroteAll(block, entries[..n])) + [Wrote(block, entries[n].key, entries[n].value)]
            && entries[..n] + [Entry(entries[n].key, entries[n].value)] == entries
  {
  }

  lemma {:induction false} BatchDiff(log: seq<Event>, block: nat, entries: seq<Entry>, at: nat)
    ensures DiffAt(log + WroteAll(block, entries), at) == DiffAt(log, at) + if at == block then entries else []
  {
    if entries == [] {
      EmptyBatch(log, block);
    } else {
      var n := |entries| - 1;
      var before, e := log + WroteAll(block, entries[..n]), Entry(entries[n].key, entries[n].value);
      LastOfBatch(log, block, entries);
      DiffAppend(before, Wrote(block, e.key, e.value), at);
      BatchDiff(log, block, entries[..n], at);
      AppendOne(DiffAt(log, at), entries[..n], e);
    }
  }

  lemma AppendOne(d: seq<Entry>, entries: seq<Entry>, e: Entry)
    ensures (d + entries) + [e] == d + (entries + [e])
    ensures d + [] + [] == d + []
  {
  }

  lemma {:induction false} SameDiffsSameState(fork: nat, base: State, log: seq<Event>, more: seq<Event>, block: nat)
    requires fork <= block && forall b :: fork < b <= block ==> DiffAt(more, b) == DiffAt(log, b)
    ensures StateAt(fork, base, more, block) == StateAt(fork, base, log, block)
    decreases block
  {
    if fork < block {
      SameDiffsSameState(fork, base, log, more, block - 1);
    }
  }

  /** Between two logs the diff of one block grew at its end, and no other diff changed. */
  ghost predicate DiffsGrow(log: seq<Event>, more: seq<Event>, block: nat, entries: seq<Entry>) {
    && (forall b: nat :: b != block ==> DiffAt(more, b) == DiffAt(log, b))
    && DiffAt(more, block) == DiffAt(log, block) + entries
  }

  lemma BatchGrowsDiff(log: seq<Event>, block: nat, entries: seq<Entry>)
    ensures DiffsGrow(log, log + WroteAll(block, entries), block, entries)
  {
    forall b: nat
      ensures DiffAt(log + WroteAll(block, entries), b) == DiffAt(log, b) + if b == block then entries else []
    {
      BatchDiff(log, block, entries, b);
    }
    assert forall b: nat :: DiffAt(log, b) + [] == DiffAt(log, b);
  }

  /** Then the state of that block is overlaid with what was added, and every earlier state is kept. */
  lemma GrownDiffOverlays(fork: nat, base: State, log: seq<Event>, more: seq<Event>, block: nat, entries: seq<Entry>)
    requires fork < block && DiffsGrow(log, more, block, entries)
    ensures forall b: nat | fork <= b < block :: StateAt(fork, base, more, b) == StateAt(fork, base, log, b)
    ensures StateAt(fork, base, more, block) == Overlay(StateAt(fork, base, log, block), entries)
  {
    forall b: nat | fork <= b < block ensures StateAt(fork, base, more, b) == StateAt(fork, base, log, b) {
      SameDiffsSameState(fork, base, log, more, b);
    }
    OverlayAppend(StateAt(fork, base, log, block - 1), DiffAt(log, block), entries);
  }

  /** End to end over any run: a fork-local block reads as the fork-point state with every diff of the
      blocks up to it folded in order. */
  lemma RunReadsFoldedState(fork: nat, base: State, ops: seq<Op>, key: Bytes, block: nat)
    requires ValidRun(Initial(fork, base), ops)
    requires Clean(Log(Initial(fork, base), ops), key)
    requires fork < block <= Run(Initial(fork, base), ops).current
    ensures Get(Run(Initial(fork, base), ops), key, block)
         == Lookup(StateAt(fork, base, Log(Initial(fork, base), ops), block), key)
  {
    RunKeepsInv(fork, base, ops);
    RunReadsLastWrite(fork, base, ops, key, block);
    StateIsLastWrite(Run(Initial(fork, base), ops), Log(Initial(fork, base), ops), key, block);
  }

  /** A batch of writes keeps the invariant, event by event. */
  lemma {:induction false} PutsKeepInv(v: View, log: seq<Event>, entries: seq<Entry>)
    requires Inv(v, log)
    ensures Inv(Run(v, Puts(entries)), log + WroteAll(v.current, entries))
  {
    if entries == [] {
      EmptyBatch(log, v.current);
    } else {
      var n := |entries| - 1;
      PutsKeepInv(v, log, entries[..n]);
      PutsValid(v, entries[..n]);
      var u, before, e := Run(v, Puts(entries[..n])), log + WroteAll(v.current, entries[..n]), entries[n];
      EventKeepsInv(u, before, Put(e.key, e.value));
      assert Puts(entries)[..n] == Puts(entries[..n]);
      assert log + WroteAll(v.current, entries) == before + [Wrote(v.current, e.key, e.value)];
    }
  }

  // ---- The working state ----

  function WorkingState(v: View): (s: State)
    ensures forall k :: Lookup(s, k) == Get(v, k, v.current)
  {
    map k | k in v.base.Keys + v.mods.Keys && Get(v, k, v.current).Some? :: Get(v, k, v.current).value
  }

  lemma SameLookups(s: State, t: State)
    requires forall k :: Lookup(s, k) == Lookup(t, k)
    ensures s == t
  {
    forall k ensures k in s <==> k in t {
      assert Lookup(s, k) == Lookup(t, k);
    }
    forall k | k in s ensures s[k] == t[k] {
      assert Lookup(s, k) == Lookup(t, k);
    }
  }

  lemma InitialWorkingState(fork: nat, base: State)
    ensures WorkingState(Initial(fork, base)) == base
  {
    forall k ensures Lookup(WorkingState(Initial(fork, base)), k) == Lookup(base, k) {
      assert Get(Initial(fork, base), k, fork + 1) == Lookup(base, k);
    }
    SameLookups(WorkingState(Initial(fork, base)), base);
  }

  lemma PutWorkingState(v: View, key: Bytes, value: Option<Bytes>)
    ensures WorkingState(Step(v, Put(key, value))) == Apply(WorkingState(v), Entry(key, value))
  {
    var u := Step(v, Put(key, value));
    var s, t := WorkingState(u), Apply(WorkingState(v), Entry(key, value));
    forall k ensures Lookup(s, k) == Lookup(t, k) {
      assert Lookup(WorkingState(v), k) == Get(v, k, v.current);
    }
    SameLookups(s, t);
  }

  /** A batch of writes overlays the working state with its entries, a later one winning. */
  lemma {:induction false} PutsWorkingState(v: View, entries: seq<Entry>)
    ensures WorkingState(Run(v, Puts(entries))) == Overlay(WorkingState(v), entries)
  {
    if entries != [] {
      var n := |entries| - 1;
      assert Puts(entries)[..n] == Puts(entries[..n]);
      PutsWorkingState(v, entries[..n]);
      PutWorkingState(Run(v, Puts(entries[..n])), entries[n].key, entries[n].value);
    }
  }

  /** A commit moves to the next block and leaves the working state as it was. */
  lemma CommitWorkingState(v: View, order: seq<Bytes>)
    ensures WorkingState(Step(v, Commit(order))) == WorkingState(v)
  {
    forall k ensures Lookup(WorkingState(Step(v, Commit(order))), k) == Lookup(WorkingState(v), k) {
      assert Get(Step(v, Commit(order)), k, v.current + 1) == Get(v, k, v.current);
    }
    SameLookups(WorkingState(Step(v, Commit(order))), WorkingState(v));
  }
}
