/** The half-open key range that stands for "starts with this prefix" in every SQL query of the cache. */
module PrefixRange {
  import opened Wrappers
  import opened ByteStrings

  /** The exclusive upper end of the range of keys that start with `prefix`; None when there is none. */
  function UpperBound(prefix: Bytes): Option<Bytes> {
    if prefix == [] then None
    else match UpperBound(prefix[1..])
      case Some(rest) => Some([prefix[0]] + rest)
      case None => if prefix[0] < 255 then Some([prefix[0] + 1]) else None
  }

  predicate InRange(key: Bytes, prefix: Bytes, bound: Option<Bytes>) {
    Le(prefix, key) && (bound.None? || Lt(key, bound.value))
  }

  /** The range query is exact for every prefix: trailing 0xFF bytes, only 0xFF bytes, and no bytes at all. */
  lemma {:induction false} PrefixRangeExact(key: Bytes, prefix: Bytes)
    ensures StartsWith(key, prefix) <==> InRange(key, prefix, UpperBound(prefix))
  {
    if prefix != [] && key != [] {
      PrefixRangeExact(key[1..], prefix[1..]);
      var rest := UpperBound(prefix[1..]);
      if rest.Some? {
        assert ([prefix[0]] + rest.value)[1..] == rest.value;
      }
      if key[0] == prefix[0] {
        assert key == [key[0]] + key[1..] && prefix == [prefix[0]] + prefix[1..];
        assert StartsWith(key, prefix) <==> StartsWith(key[1..], prefix[1..]);
        assert Le(prefix, key) <==> Le(prefix[1..], key[1..]);
      } else if key[0] > prefix[0] {
        assert !StartsWith(key, prefix);
        var bound := UpperBound(prefix).value;
        assert bound[0] < key[0] || (bound[0] == key[0] && !Lt(key[1..], bound[1..]));
      } else {
        assert !StartsWith(key, prefix);
        assert !Le(prefix, key);
      }
    }
  }

  /** What both loops compute, one byte from the end at a time. */
  lemma {:induction false} UpperBoundFromEnd(prefix: Bytes)
    requires prefix != []
    ensures var n := |prefix| - 1;
            UpperBound(prefix) == if prefix[n] < 255 then Some(prefix[..n] + [prefix[n] + 1])
                                  else UpperBound(prefix[..n])
  {
    var n := |prefix| - 1;
    if n == 0 {
      assert prefix[..n] == [] && prefix[1..] == [];
      assert prefix[..n] + [prefix[n]] == prefix;
      assert forall x: Byte :: prefix[..n] + [x] == [x];
    } else {
      UpperBoundFromEnd(prefix[1..]);
      assert prefix[1..][..n - 1] == prefix[..n][1..];
      assert [prefix[0]] + prefix[..n][1..] == prefix[..n];
      if prefix[n] < 255 {
        assert [prefix[0]] + (prefix[1..][..n - 1] + [prefix[n] + 1]) == prefix[..n] + [prefix[n] + 1];
      }
    }
  }

  method PrefixUpperBound(prefix: Bytes) returns (bound: Option<Bytes>)
    ensures bound == UpperBound(prefix)
    ensures forall key :: StartsWith(key, prefix) <==> InRange(key, prefix, bound)
  {
    var upper := prefix;
    forall key: Bytes ensures StartsWith(key, prefix) <==> InRange(key, prefix, UpperBound(prefix)) {
      PrefixRangeExact(key, prefix);
    }
    while upper != []
      invariant UpperBound(upper) == UpperBound(prefix)
      decreases |upper|
    {
      UpperBoundFromEnd(upper);
      var last := upper[|upper| - 1];
      if last < 0xFF {
        assert upper[|upper| - 1 := last + 1] == upper[..|upper| - 1] + [last + 1];
        return Some(upper[|upper| - 1 := last + 1]);
      }
      upper := upper[..|upper| - 1];
    }
    return None;
  }

  method IncrementPrefix(prefix: Bytes) returns (bound: Option<Bytes>)
    ensures bound == UpperBound(prefix)
    ensures forall key :: StartsWith(key, prefix) <==> InRange(key, prefix, bound)
  {
    forall key: Bytes ensures StartsWith(key, prefix) <==> InRange(key, prefix, UpperBound(prefix)) {
      PrefixRangeExact(key, prefix);
    }
    assert prefix[..|prefix|] == prefix;
    for i := |prefix| downto 0
      invariant UpperBound(prefix[..i]) == UpperBound(prefix)
    {
      UpperBoundFromEnd(prefix[..i + 1]);
      assert prefix[..i + 1][..i] == prefix[..i];
      if prefix[i] < 0xFF {
        assert prefix[i := prefix[i] + 1][..i + 1] == prefix[..i] + [prefix[i] + 1];
        return Some(prefix[i := prefix[i] + 1][..i + 1]);
      }
    }
    return None;
  }
}
