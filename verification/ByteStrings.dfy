/** Byte strings under the order SQLite gives BLOBs and Rust gives `Vec<u8>`, and finite sets of
    them listed in that order. */
module ByteStrings {
  newtype Byte = x: int | 0 <= x < 256
  type Bytes = seq<Byte>

  predicate StartsWith(key: Bytes, prefix: Bytes) {
    prefix <= key
  }

  predicate Lt(a: Bytes, b: Bytes) {
    if b == [] then false
    else if a == [] then true
    else a[0] < b[0] || (a[0] == b[0] && Lt(a[1..], b[1..]))
  }

  predicate Le(a: Bytes, b: Bytes) {
    a == b || Lt(a, b)
  }

  lemma LtIrreflexive(a: Bytes)
    ensures !Lt(a, a)
  {
  }

  lemma {:induction false} LtTransitive(a: Bytes, b: Bytes, c: Bytes)
    requires Lt(a, b) && Lt(b, c)
    ensures Lt(a, c)
  {
    if a != [] && a[0] == b[0] == c[0] {
      LtTransitive(a[1..], b[1..], c[1..]);
    }
  }

  lemma {:induction false} LtTotal(a: Bytes, b: Bytes)
    ensures a == b || Lt(a, b) || Lt(b, a)
  {
    if a != [] && b != [] && a[0] == b[0] {
      LtTotal(a[1..], b[1..]);
      assert a == [a[0]] + a[1..] && b == [b[0]] + b[1..];
    }
  }

  lemma LtAsymmetric(a: Bytes, b: Bytes)
    requires Lt(a, b)
    ensures a != b && !Lt(b, a)
  {
    LtIrreflexive(a);
    if Lt(b, a) {
      LtTransitive(a, b, a);
    }
  }

  // ---- Sorted sequences and finite sets ----

  ghost predicate Ascending(q: seq<Bytes>) {
    forall i, j :: 0 <= i < j < |q| ==> Lt(q[i], q[j])
  }

  ghost predicate Distinct<T>(q: seq<T>) {
    forall i, j :: 0 <= i < j < |q| ==> q[i] != q[j]
  }

  predicate IsLeast(m: Bytes, s: set<Bytes>) {
    m in s && forall x :: x in s ==> Le(m, x)
  }

  lemma {:induction false} LeastExists(s: set<Bytes>)
    requires s != {}
    ensures exists m :: IsLeast(m, s)
    decreases |s|
  {
    var x :| x in s;
    var rest := s - {x};
    if rest == {} {
      assert s == {x};
      assert IsLeast(x, s);
    } else {
      LeastExists(rest);
      var m :| IsLeast(m, rest);
      LtTotal(x, m);
      if Lt(x, m) {
        forall y | y in s ensures Le(x, y) {
          if y != x {
            assert y in rest && Le(m, y);
            if y != m { LtTransitive(x, m, y); }
          }
        }
        assert IsLeast(x, s);
      } else {
        forall y | y in s ensures Le(m, y) {
          assert y == x || y in rest;
        }
        assert IsLeast(m, s);
      }
    }
  }

  lemma LeastUnique(m: Bytes, n: Bytes, s: set<Bytes>)
    requires IsLeast(m, s) && IsLeast(n, s)
    ensures m == n
  {
    if m != n {
      LtAsymmetric(m, n);
    }
  }

  function Least(s: set<Bytes>): (m: Bytes)
    requires s != {}
    ensures IsLeast(m, s)
  {
    LeastExists(s);
    assert forall m, n :: IsLeast(m, s) && IsLeast(n, s) ==> m == n by {
      forall m, n | IsLeast(m, s) && IsLeast(n, s) ensures m == n {
        LeastUnique(m, n, s);
      }
    }
    var m :| m in s && IsLeast(m, s);
    m
  }

  /** The elements of a set in ascending order: a `BTreeSet` read out, or `SELECT DISTINCT ... ORDER BY`. */
  function Sorted(s: set<Bytes>): (q: seq<Bytes>)
    ensures Ascending(q)
    ensures forall x :: x in q <==> x in s
    ensures |q| == |s|
    decreases |s|
  {
    if s == {} then []
    else
      var m := Least(s);
      var rest := Sorted(s - {m});
      assert forall x :: x in rest ==> x in s && x != m && Lt(m, x);
      assert forall i :: 0 <= i < |rest| ==> rest[i] in rest;
      [m] + rest
  }

  /** A set has only one ascending listing. */
  lemma {:induction false} AscendingUnique(p: seq<Bytes>, q: seq<Bytes>)
    requires Ascending(p) && Ascending(q)
    requires forall x :: x in p <==> x in q
    ensures p == q
  {
    assert p == [] <==> q == [] by {
      if p != [] { assert p[0] in q; }
      if q != [] { assert q[0] in p; }
    }
    if p != [] {
      HeadsAgree(p, q);
      TailElements(p);
      TailElements(q);
      AscendingUnique(p[1..], q[1..]);
      assert p == [p[0]] + p[1..] && q == [q[0]] + q[1..];
    }
  }

  lemma HeadsAgree(p: seq<Bytes>, q: seq<Bytes>)
    requires Ascending(p) && Ascending(q) && p != [] && q != []
    requires forall x :: x in p <==> x in q
    ensures p[0] == q[0]
  {
    assert p[0] in q && q[0] in p;
    var i :| 0 <= i < |q| && q[i] == p[0];
    var j :| 0 <= j < |p| && p[j] == q[0];
    LtTotal(p[0], q[0]);
    if Lt(p[0], q[0]) {
      LtAsymmetric(p[0], q[0]);
    } else if Lt(q[0], p[0]) {
      LtAsymmetric(q[0], p[0]);
    }
  }

  lemma TailElements(p: seq<Bytes>)
    requires Ascending(p) && p != []
    ensures Ascending(p[1..])
    ensures forall x :: x in p[1..] <==> x in p && x != p[0]
  {
    forall x | x in p[1..] ensures x != p[0] {
      var i :| 0 <= i < |p[1..]| && p[1..][i] == x;
      LtAsymmetric(p[0], p[i + 1]);
    }
  }

  lemma AscendingDistinct(q: seq<Bytes>)
    requires Ascending(q)
    ensures Distinct(q)
  {
    forall i, j | 0 <= i < j < |q| ensures q[i] != q[j] {
      LtAsymmetric(q[i], q[j]);
    }
  }

  /** A set read out in whatever order the container yields: `HashMap` iteration, or a query with no
      `ORDER BY`. */
  function Elements(q: seq<Bytes>): set<Bytes> {
    set x | x in q
  }

  lemma SortedElements(s: set<Bytes>)
    ensures Elements(Sorted(s)) == s
  {
  }

  method InSomeOrder(s: set<Bytes>) returns (q: seq<Bytes>)
    ensures Distinct(q)
    ensures forall x :: x in q <==> x in s
  {
    var rest := s;
    q := [];
    while rest != {}
      invariant rest <= s
      invariant Distinct(q)
      invariant forall x :: x in q <==> x in s - rest
      decreases rest
    {
      var x :| x in rest;
      assert forall i :: 0 <= i < |q| ==> q[i] in q;
      q := q + [x];
      rest := rest - {x};
    }
  }
}
