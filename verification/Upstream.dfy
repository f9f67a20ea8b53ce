/** The live chain being forked: immutable states, and the node that serves them. */
module Upstream {
  import opened Wrappers
  import opened ByteStrings

  datatype Hash = Hash(bytes: Bytes)

  /** A whole key-value state. */
  type State = map<Bytes, Bytes>

  function Lookup(s: State, key: Bytes): Option<Bytes> {
    if key in s then Some(s[key]) else None
  }

  function KeysAfter(s: State, prefix: Bytes, start: Option<Bytes>): set<Bytes> {
    set k | k in s && StartsWith(k, prefix) && (start.None? || Lt(start.value, k))
  }

  /** `state_getKeysPaged`: in order, at most `count` keys with the prefix that come after `start`. */
  function Page(s: State, prefix: Bytes, count: nat, start: Option<Bytes>): (page: seq<Bytes>)
    ensures |page| <= count
  {
    var all := Sorted(KeysAfter(s, prefix, start));
    if count <= |all| then all[..count] else all
  }

  function NextKey(s: State, prefix: Bytes, key: Bytes): Option<Bytes> {
    var after := KeysAfter(s, prefix, Some(key));
    if after == {} then None else Some(Least(after))
  }

  lemma CutAscending(all: seq<Bytes>, n: nat, k: Bytes)
    requires Ascending(all) && 0 < n <= |all| && k in all
    ensures k in all[..n] <==> Le(k, all[n - 1])
  {
    var i :| 0 <= i < |all| && all[i] == k;
    if i < n {
      assert all[..n][i] == k;
    } else {
      LtAsymmetric(all[n - 1], k);
      AscendingDistinct(all);
    }
  }

  /** An initial segment: some of the keys, without duplicates, namely everything up to the last of them. */
  ghost predicate InitialSegment(page: seq<Bytes>, left: set<Bytes>) {
    && Distinct(page)
    && (forall k :: k in page ==> k in left)
    && (page != [] ==> forall k :: k in left ==> (k in page <==> Le(k, page[|page| - 1])))
  }

  lemma FirstKeys(left: set<Bytes>, all: seq<Bytes>, n: nat)
    requires Ascending(all) && n <= |all| && forall k :: k in all <==> k in left
    ensures InitialSegment(all[..n], left)
  {
    AscendingDistinct(all);
    if n > 0 {
      forall k | k in left ensures k in all[..n] <==> Le(k, all[n - 1]) {
        CutAscending(all, n, k);
      }
    }
  }

  /** A page is an initial segment of what is left, and everything if it is short. */
  lemma PageSplits(s: State, prefix: Bytes, count: nat, start: Option<Bytes>)
    ensures var page := Page(s, prefix, count, start);
            var left := KeysAfter(s, prefix, start);
            && |page| <= count && InitialSegment(page, left)
            && (|page| < count ==> forall k :: k in left ==> k in page)
  {
    var left := KeysAfter(s, prefix, start);
    var all := Sorted(left);
    FirstKeys(left, all, if count <= |all| then count else |all|);
    assert all[..|all|] == all;
  }

  /** Each page leaves strictly less to scan. */
  lemma PageShrinks(s: State, prefix: Bytes, count: nat, start: Option<Bytes>)
    requires Page(s, prefix, count, start) != []
    ensures var page := Page(s, prefix, count, start);
            KeysAfter(s, prefix, Some(page[|page| - 1])) < KeysAfter(s, prefix, start)
  {
    var page := Page(s, prefix, count, start);
    var last := page[|page| - 1];
    PageSplits(s, prefix, count, start);
    assert last in page;
    forall k | k in KeysAfter(s, prefix, Some(last)) ensures k in KeysAfter(s, prefix, start) {
      if start.Some? {
        LtTransitive(start.value, last, k);
      }
    }
    LtIrreflexive(last);
    assert last !in KeysAfter(s, prefix, Some(last));
  }

  lemma PageOfOne(s: State, prefix: Bytes, key: Bytes)
    ensures Page(s, prefix, 1, Some(key))
         == match NextKey(s, prefix, key) case Some(k) => [k] case None => []
  {
    var after := KeysAfter(s, prefix, Some(key));
    if after != {} {
      assert Sorted(after)[..1] == [Least(after)];
    }
  }

  datatype ChainHeader = ChainHeader(number: nat, parentHash: Hash)

  datatype RpcError = RequestFailed

  /** The RPC client. The connection may drop at any moment; `Reconnect` restores it exactly when the
      node can be reached at all. */
  class ForkRpcClient {
    const upstream: map<Hash, State>
    /** The canonical chain, by number. */
    const canonical: map<nat, Hash>
    const headers: map<Hash, ChainHeader>
    /** Decoded runtime metadata, by block. */
    const metadata: map<Hash, Bytes>
    const reachable: bool
    var connected: bool

    constructor (upstream: map<Hash, State>, canonical: map<nat, Hash>, headers: map<Hash, ChainHeader>,
                 metadata: map<Hash, Bytes>, reachable: bool)
      ensures this.upstream == upstream && this.canonical == canonical
      ensures this.headers == headers && this.metadata == metadata
      ensures this.reachable == reachable && connected == reachable
    {
      this.upstream, this.canonical, this.headers := upstream, canonical, headers;
      this.metadata, this.reachable := metadata, reachable;
      connected := reachable;
    }

    method Reconnect() returns (r: Result<(), RpcError>)
      modifies this
      ensures r.Success? <==> reachable
      ensures r.Success? ==> connected
    {
      connected := reachable;
      return if reachable then Success(()) else Failure(RequestFailed);
    }

    method Storage(key: Bytes, at: Hash) returns (r: Result<Option<Bytes>, RpcError>)
      modifies this
      ensures r.Success? <==> old(connected) && at in upstream
      ensures r.Success? ==> r.value == Lookup(upstream[at], key)
    {
      if !connected || at !in upstream {
        return Failure(RequestFailed);
      }
      connected := *;
      return Success(Lookup(upstream[at], key));
    }

    method StorageBatch(keys: seq<Bytes>, at: Hash) returns (r: Result<seq<Option<Bytes>>, RpcError>)
      modifies this
      ensures keys == [] ==> r == Success([])
      ensures keys != [] ==> (r.Success? <==> old(connected) && at in upstream)
      ensures r.Success? ==> |r.value| == |keys|
      ensures r.Success? && keys != [] ==>
        forall i :: 0 <= i < |keys| ==> r.value[i] == Lookup(upstream[at], keys[i])
    {
      if keys == [] {
        return Success([]);
      }
      if !connected || at !in upstream {
        return Failure(RequestFailed);
      }
      connected := *;
      return Success(seq(|keys|, i requires 0 <= i < |keys| => Lookup(upstream[at], keys[i])));
    }

    method StorageKeysPaged(prefix: Bytes, count: nat, start: Option<Bytes>, at: Hash)
      returns (r: Result<seq<Bytes>, RpcError>)
      modifies this
      ensures r.Success? <==> old(connected) && at in upstream
      ensures r.Success? ==> r.value == Page(upstream[at], prefix, count, start)
    {
      if !connected || at !in upstream {
        return Failure(RequestFailed);
      }
      connected := *;
      return Success(Page(upstream[at], prefix, count, start));
    }

    method Metadata(at: Hash) returns (r: Result<Bytes, RpcError>)
      modifies this
      ensures r.Success? <==> old(connected) && at in metadata
      ensures r.Success? ==> r.value == metadata[at]
    {
      if !connected || at !in metadata {
        return Failure(RequestFailed);
      }
      connected := *;
      return Success(metadata[at]);
    }

    method BlockByHash(hash: Hash) returns (r: Result<Option<ChainHeader>, RpcError>)
      modifies this
      ensures r.Success? <==> old(connected)
      ensures r.Success? ==> r.value == if hash in headers then Some(headers[hash]) else None
    {
      if !connected {
        return Failure(RequestFailed);
      }
      connected := *;
      return Success(if hash in headers then Some(headers[hash]) else None);
    }

    method BlockHashAt(number: nat) returns (r: Result<Option<Hash>, RpcError>)
      modifies this
      ensures r.Success? <==> old(connected)
      ensures r.Success? ==> r.value == if number in canonical then Some(canonical[number]) else None
    {
      if !connected {
        return Failure(RequestFailed);
      }
      connected := *;
      return Success(if number in canonical then Some(canonical[number]) else None);
    }
  }
}
