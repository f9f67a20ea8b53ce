/** The `local_keys` / `local_values` tables: each row of `local_values` holds one value of one key for
    the blocks `validFrom <= b < validUntil`, or for every block from `validFrom` while it is open. */
module IntervalTable {
  import opened Wrappers
  import opened ByteStrings

  /** A NULL value (None) records that the key was deleted. */
  datatype ValueRow = ValueRow(keyId: nat, value: Option<Bytes>, validFrom: nat, validUntil: Option<nat>) {
    predicate Hit(id: nat, block: nat) {
      keyId == id && validFrom <= block && (validUntil.None? || block < validUntil.value)
    }
  }

  datatype Tables = Tables(keys: map<Bytes, nat>, values: seq<ValueRow>, nextId: nat)

  datatype Entry = Entry(key: Bytes, value: Option<Bytes>)

  const EMPTY_TABLES := Tables(map[], [], 1)

  /** `UPDATE local_values SET valid_until = block WHERE key_id = id AND valid_until IS NULL`. */
  function CloseOpen(values: seq<ValueRow>, id: nat, block: nat): (closed: seq<ValueRow>)
    ensures |closed| == |values|
  {
    seq(|values|, i requires 0 <= i < |values| =>
      if values[i].keyId == id && values[i].validUntil.None?
      then values[i].(validUntil := Some(block)) else values[i])
  }

  function CommitOne(t: Tables, e: Entry, block: nat): Tables {
    var isNew := e.key !in t.keys;
    var id := if isNew then t.nextId else t.keys[e.key];
    Tables(t.keys[e.key := id],
           CloseOpen(t.values, id, block) + [ValueRow(id, e.value, block, None)],
           if isNew then t.nextId + 1 else t.nextId)
  }

  function CommitAll(t: Tables, entries: seq<Entry>, block: nat): Tables {
    if entries == [] then t
    else CommitOne(CommitAll(t, entries[..|entries| - 1], block), entries[|entries| - 1], block)
  }

  /** The value of the first row that is visible at `block`: the outer None means that no row is. */
  function FirstHit(values: seq<ValueRow>, id: nat, block: nat): (r: Option<Option<Bytes>>)
    ensures r.None? <==> forall i :: 0 <= i < |values| ==> !values[i].Hit(id, block)
    ensures r.Some? ==> exists i :: 0 <= i < |values| && values[i].Hit(id, block) && values[i].value == r.value
  {
    if values == [] then None
    else if values[0].Hit(id, block) then Some(values[0].value)
    else
      var r := FirstHit(values[1..], id, block);
      assert forall i :: 1 <= i < |values| ==> values[i] == values[1..][i - 1];
      r
  }

  function Read(t: Tables, key: Bytes, block: nat): Option<Option<Bytes>> {
    if key !in t.keys then None else FirstHit(t.values, t.keys[key], block)
  }

  function LiveKeys(t: Tables, prefix: Bytes, block: nat): set<Bytes> {
    set k | k in t.keys && StartsWith(k, prefix) && Read(t, k, block).Some? && Read(t, k, block).value.Some?
  }

  function DeletedKeys(t: Tables, prefix: Bytes, block: nat): set<Bytes> {
    set k | k in t.keys && StartsWith(k, prefix) && Read(t, k, block) == Some(None)
  }

  // ---- Well-formedness ----

  ghost predicate HasKey(keys: map<Bytes, nat>, id: nat) {
    exists k :: k in keys && keys[k] == id
  }

  ghost predicate IdsSound(t: Tables) {
    && (forall k, l :: k in t.keys && l in t.keys && t.keys[k] == t.keys[l] ==> k == l)
    && (forall k :: k in t.keys ==> t.keys[k] < t.nextId)
    && (forall i :: 0 <= i < |t.values| ==> HasKey(t.keys, t.values[i].keyId))
  }

  /** Every row spans forwards in time and no row mentions a block after `top`. */
  ghost predicate RowsUpTo(values: seq<ValueRow>, top: nat) {
    forall i :: 0 <= i < |values| ==>
      && values[i].validFrom <= top
      && (values[i].validUntil.Some? ==> values[i].validFrom <= values[i].validUntil.value <= top)
  }

  /** Of two rows of one key the earlier is closed, no later than where the later one begins. */
  ghost predicate Disjoint(values: seq<ValueRow>) {
    forall i, j :: 0 <= i < j < |values| && values[i].keyId == values[j].keyId ==>
      values[i].validUntil.Some? && values[i].validUntil.value <= values[j].validFrom
  }

  ghost predicate WellFormed(t: Tables, top: nat) {
    IdsSound(t) && RowsUpTo(t.values, top) && Disjoint(t.values)
  }

  /** No block ever sees two rows of one key, so "first row" and "last row" are the same row. */
  lemma HitUnique(values: seq<ValueRow>, id: nat, block: nat, i: nat)
    requires Disjoint(values) && i < |values| && values[i].Hit(id, block)
    ensures forall j :: 0 <= j < |values| && values[j].Hit(id, block) ==> j == i
    ensures FirstHit(values, id, block) == Some(values[i].value)
  {
    assert forall a, b :: 0 <= a < b < |values| && values[a].keyId == values[b].keyId ==>
      !(values[a].Hit(id, block) && values[b].Hit(id, block));
  }

  lemma FirstHitExtend(values: seq<ValueRow>, i: nat, id: nat, block: nat)
    requires Disjoint(values) && i < |values|
    ensures FirstHit(values[..i + 1], id, block)
         == if values[i].Hit(id, block) then Some(values[i].value) else FirstHit(values[..i], id, block)
  {
    if values[i].Hit(id, block) {
      HitUnique(values[..i + 1], id, block, i);
    } else {
      FirstHitSame(values[..i], values[..i + 1], id, block);
    }
  }

  lemma CommitOneWellFormed(t: Tables, top: nat, e: Entry, block: nat)
    requires WellFormed(t, top) && top <= block
    ensures WellFormed(CommitOne(t, e, block), block)
  {
    var u := CommitOne(t, e, block);
    var id := u.keys[e.key];
    forall k, l | k in u.keys && l in u.keys && u.keys[k] == u.keys[l] ensures k == l {
    }
    forall i | 0 <= i < |u.values| ensures HasKey(u.keys, u.values[i].keyId) {
      if i < |t.values| {
        assert HasKey(t.keys, t.values[i].keyId);
        var k :| k in t.keys && t.keys[k] == t.values[i].keyId;
        assert k in u.keys && u.keys[k] == u.values[i].keyId;
      } else {
        assert e.key in u.keys && u.keys[e.key] == u.values[i].keyId;
      }
    }
    forall i, j | 0 <= i < j < |u.values| && u.values[i].keyId == u.values[j].keyId
      ensures u.values[i].validUntil.Some? && u.values[i].validUntil.value <= u.values[j].validFrom
    {
      if j < |t.values| {
        assert t.values[i].keyId == t.values[j].keyId;
      }
    }
  }

  lemma {:induction false} FirstHitSame(values: seq<ValueRow>, more: seq<ValueRow>, id: nat, at: nat)
    requires |values| <= |more|
    requires forall i :: 0 <= i < |values| ==>
      more[i].value == values[i].value && (more[i].Hit(id, at) <==> values[i].Hit(id, at))
    requires forall i :: |values| <= i < |more| ==> !more[i].Hit(id, at)
    ensures FirstHit(more, id, at) == FirstHit(values, id, at)
  {
    if values != [] {
      FirstHitSame(values[1..], more[1..], id, at);
    }
  }

  /** Committing one entry at `block` changes what is read of its key from `block` on, and nothing else. */
  lemma CommitOneRead(t: Tables, top: nat, e: Entry, block: nat, key: Bytes, at: nat)
    requires WellFormed(t, top) && top <= block
    ensures Read(CommitOne(t, e, block), key, at)
         == if key == e.key && block <= at then Some(e.value) else Read(t, key, at)
  {
    CommitOneWellFormed(t, top, e, block);
    var u := CommitOne(t, e, block);
    if key == e.key && block <= at {
      assert u.values[|t.values|].Hit(u.keys[key], at);
      HitUnique(u.values, u.keys[key], at, |t.values|);
    } else if key in t.keys {
      FirstHitSame(t.values, u.values, u.keys[key], at);
    } else if key == e.key {
      NewIdUnused(t, top, at);
      FirstHitSame(t.values, u.values, t.nextId, at);
    }
  }

  lemma NewIdUnused(t: Tables, top: nat, at: nat)
    requires WellFormed(t, top)
    ensures FirstHit(t.values, t.nextId, at) == None
  {
    forall i | 0 <= i < |t.values| ensures !t.values[i].Hit(t.nextId, at) {
      assert HasKey(t.keys, t.values[i].keyId);
    }
  }

  /** The value the last entry for `key` carries, if there is one. */
  function LastEntry(entries: seq<Entry>, key: Bytes): Option<Option<Bytes>> {
    if entries == [] then None
    else if entries[|entries| - 1].key == key then Some(entries[|entries| - 1].value)
    else LastEntry(entries[..|entries| - 1], key)
  }

  lemma {:induction false} CommitAllWellFormed(t: Tables, top: nat, entries: seq<Entry>, block: nat)
    requires WellFormed(t, top) && top <= block
    ensures WellFormed(CommitAll(t, entries, block), block)
  {
    if entries != [] {
      var n := |entries| - 1;
      CommitAllWellFormed(t, top, entries[..n], block);
      CommitOneWellFormed(CommitAll(t, entries[..n], block), block, entries[n], block);
    }
  }

  /** A committed batch is a versioned update: reads before `block` are untouched, reads from `block` on
      see the last entry for the key, or what was there when the batch has none. */
  lemma {:induction false} CommitAllRead(t: Tables, top: nat, entries: seq<Entry>, block: nat, key: Bytes, at: nat)
    requires WellFormed(t, top) && top <= block
    ensures Read(CommitAll(t, entries, block), key, at)
         == if block <= at && LastEntry(entries, key).Some? then LastEntry(entries, key) else Read(t, key, at)
  {
    if entries != [] {
      var n := |entries| - 1;
      CommitAllWellFormed(t, top, entries[..n], block);
      CommitAllRead(t, top, entries[..n], block, key, at);
      CommitOneRead(CommitAll(t, entries[..n], block), block, entries[n], block, key, at);
    }
  }

  // ---- Runs of commits ----

  datatype Batch = Batch(entries: seq<Entry>, block: nat)

  function CommitBatches(batches: seq<Batch>): Tables {
    if batches == [] then EMPTY_TABLES
    else
      var n := |batches| - 1;
      CommitAll(CommitBatches(batches[..n]), batches[n].entries, batches[n].block)
  }

  ghost predicate NonDecreasing(batches: seq<Batch>) {
    forall i, j :: 0 <= i < j < |batches| ==> batches[i].block <= batches[j].block
  }

  /** What the history means: the last entry for the key in the last batch at or before `at` that has one. */
  function LastCommitted(batches: seq<Batch>, key: Bytes, at: nat): Option<Option<Bytes>> {
    if batches == [] then None
    else
      var n := |batches| - 1;
      if batches[n].block <= at && LastEntry(batches[n].entries, key).Some?
      then LastEntry(batches[n].entries, key)
      else LastCommitted(batches[..n], key, at)
  }

  /** From empty tables and over any run of commits at non-decreasing blocks, the tables stay well formed
      and answer every (key, block) with the last committed entry. */
  lemma {:induction false} HistoryTable(batches: seq<Batch>, key: Bytes, at: nat)
    requires NonDecreasing(batches)
    ensures WellFormed(CommitBatches(batches), if batches == [] then 0 else batches[|batches| - 1].block)
    ensures Read(CommitBatches(batches), key, at) == LastCommitted(batches, key, at)
  {
    if batches != [] {
      var n := |batches| - 1;
      HistoryTable(batches[..n], key, at);
      var top := if n == 0 then 0 else batches[n - 1].block;
      CommitAllWellFormed(CommitBatches(batches[..n]), top, batches[n].entries, batches[n].block);
      CommitAllRead(CommitBatches(batches[..n]), top, batches[n].entries, batches[n].block, key, at);
    }
  }

  /** Spelled out: rows never end before they begin, a key has at most one open row, and no block lies in
      two rows of one key. */
  lemma IntervalsDisjoint(batches: seq<Batch>, i: nat, j: nat)
    requires NonDecreasing(batches)
    requires i < j < |CommitBatches(batches).values|
    ensures var rows := CommitBatches(batches).values;
            && (rows[i].validUntil.Some? ==> rows[i].validFrom <= rows[i].validUntil.value)
            && (rows[i].keyId == rows[j].keyId ==>
                  && !(rows[i].validUntil.None? && rows[j].validUntil.None?)
                  && forall id, b :: !(rows[i].Hit(id, b) && rows[j].Hit(id, b)))
  {
    HistoryTable(batches, [], 0);
  }
}
