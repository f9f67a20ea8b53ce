/** The index loops of the two `get_batch` methods: collect the positions still open, then write the
    answers for them back in place. */
module Scatter {
  import opened Wrappers
  import opened ByteStrings

  ghost predicate Increasing(indices: seq<nat>, bound: nat) {
    && (forall j :: 0 <= j < |indices| ==> indices[j] < bound)
    && (forall j, k :: 0 <= j < k < |indices| ==> indices[j] < indices[k])
  }

  /** The positions without an answer, and the keys at those positions. */
  method OpenPositions<T>(keys: seq<Bytes>, answers: seq<Option<T>>) returns (indices: seq<nat>, open: seq<Bytes>)
    requires |answers| == |keys|
    ensures Increasing(indices, |keys|) && |open| == |indices|
    ensures forall j :: 0 <= j < |open| ==> open[j] == keys[indices[j]]
    ensures forall i :: 0 <= i < |keys| ==> (answers[i].None? <==> i in indices)
    ensures Distinct(keys) ==> Distinct(open)
  {
    indices, open := [], [];
    for i := 0 to |keys|
      invariant Increasing(indices, i) && |open| == |indices|
      invariant forall j :: 0 <= j < |open| ==> open[j] == keys[indices[j]]
      invariant forall j :: 0 <= j < i ==> (answers[j].None? <==> j in indices)
    {
      if answers[i].None? {
        indices := indices + [i];
        open := open + [keys[i]];
      }
    }
  }

  method WriteBack<T>(answers: seq<T>, indices: seq<nat>, values: seq<T>) returns (results: seq<T>)
    requires Increasing(indices, |answers|) && |values| == |indices|
    ensures |results| == |answers|
    ensures forall j :: 0 <= j < |indices| ==> results[indices[j]] == values[j]
    ensures forall i :: 0 <= i < |answers| && i !in indices ==> results[i] == answers[i]
  {
    results := answers;
    for n := 0 to |values|
      invariant |results| == |answers|
      invariant forall j :: 0 <= j < n ==> results[indices[j]] == values[j]
      invariant forall i :: 0 <= i < |answers| && i !in indices ==> results[i] == answers[i]
    {
      results := results[indices[n] := values[n]];
    }
  }
}
