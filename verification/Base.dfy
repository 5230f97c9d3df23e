/** Small shared vocabulary: options, enumerations of finite sets, and sums over finite maps. */
module Base {

  datatype Option<+T> = None | Some(value: T)

  type Byte = n: int | 0 <= n < 0x100

  type Uid = n: int | 0 <= n < 0x1_0000_0000

  /** Go's `b & mask != 0` for a mask with a single bit set. */
  predicate Bit(b: Byte, mask: int)
    requires mask > 0
  {
    (b / mask) % 2 == 1
  }

  /** The order in which a Go `for range` over a map visits its keys is arbitrary;
      any duplicate-free listing of the keys is a possible order. */
  ghost predicate Enumerates<T(!new)>(order: seq<T>, keys: set<T>)
  {
    && (forall u :: u in order <==> u in keys)
    && NoDuplicates(order)
  }

  ghost predicate NoDuplicates<T>(s: seq<T>)
  {
    forall i, j :: 0 <= i < j < |s| ==> s[i] != s[j]
  }

  lemma EnumerationLength<T(!new)>(order: seq<T>, keys: set<T>)
    requires Enumerates(order, keys)
    ensures |order| == |keys|
    decreases order
  {
    if order == [] {
      assert keys == {};
    } else {
      var rest := order[1..];
      assert order[0] in order;
      assert forall u :: u in keys - {order[0]} ==> u in rest by {
        forall u | u in keys - {order[0]} ensures u in rest {
          var i :| 0 <= i < |order| && order[i] == u;
          assert rest[i - 1] == u;
        }
      }
      EnumerationLength(rest, keys - {order[0]});
    }
  }

  /** A duplicate-free sequence is determined, as a multiset, by its set of elements. */
  lemma NoDuplicatesMultiset<T>(s: seq<T>, x: T)
    requires NoDuplicates(s)
    ensures multiset(s)[x] == if x in s then 1 else 0
  {
    if s != [] {
      var rest := s[..|s| - 1];
      assert s == rest + [s[|s| - 1]];
      NoDuplicatesMultiset(rest, x);
    }
  }

  lemma SameElementsSameMultiset<T(!new)>(s: seq<T>, t: seq<T>)
    requires NoDuplicates(s) && NoDuplicates(t)
    requires forall x :: x in s <==> x in t
    ensures multiset(s) == multiset(t)
  {
    forall x ensures multiset(s)[x] == multiset(t)[x] {
      NoDuplicatesMultiset(s, x);
      NoDuplicatesMultiset(t, x);
    }
  }

  /** Sum of the values of a finite map. */
  ghost function Sum<K(!new)>(m: map<K, int>): int
    decreases |m|
  {
    if m == map[] then 0
    else
      var k :| k in m;
      assert (m - {k}).Keys == m.Keys - {k};
      m[k] + Sum(m - {k})
  }

  /** The sum does not depend on which key is taken out first. */
  lemma {:induction false} SumRemove<K(!new)>(m: map<K, int>, k: K)
    requires k in m
    ensures Sum(m) == m[k] + Sum(m - {k})
    decreases |m|
  {
    var j :| j in m && Sum(m) == m[j] + Sum(m - {j});
    if j != k {
      assert (m - {j}).Keys == m.Keys - {j};
      assert (m - {k}).Keys == m.Keys - {k};
      SumRemove(m - {j}, k);
      SumRemove(m - {k}, j);
      assert (m - {j}) - {k} == (m - {k}) - {j};
    }
  }

  lemma SumUpdate<K(!new)>(m: map<K, int>, k: K, v: int)
    requires k in m
    ensures Sum(m[k := v]) == Sum(m) - m[k] + v
  {
    SumRemove(m, k);
    SumRemove(m[k := v], k);
    assert m[k := v] - {k} == m - {k};
  }

  lemma SumAdd<K(!new)>(m: map<K, int>, k: K, v: int)
    requires k !in m
    ensures Sum(m[k := v]) == Sum(m) + v
  {
    SumRemove(m[k := v], k);
    assert m[k := v] - {k} == m;
  }

  /** Summing a map splits along any partition of its keys. */
  lemma {:induction false} SumParts<K(!new)>(m: map<K, int>, part: map<K, int>, rest: map<K, int>)
    requires m.Keys == part.Keys + rest.Keys && part.Keys !! rest.Keys
    requires forall k :: k in part ==> part[k] == m[k]
    requires forall k :: k in rest ==> rest[k] == m[k]
    ensures Sum(m) == Sum(part) + Sum(rest)
    decreases |rest|
  {
    if rest == map[] {
      assert m == part;
    } else {
      hide Sum;
      var k :| k in rest;
      var m', rest' := m - {k}, rest - {k};
      assert k !in part;
      assert rest'.Keys == rest.Keys - {k};
      assert m'.Keys == part.Keys + rest'.Keys;
      SumRemove(m, k);
      SumRemove(rest, k);
      assert |rest'.Keys| < |rest.Keys|;
      SumParts(m', part, rest');
    }
  }

  /** Pointwise bounds carry over to sums. */
  lemma {:induction false} SumBound<K(!new)>(m: map<K, int>, n: map<K, int>)
    requires m.Keys == n.Keys
    requires forall k :: k in m ==> m[k] <= n[k]
    ensures Sum(m) <= Sum(n)
    decreases |m|
  {
    if m != map[] {
      var k :| k in m;
      SumRemove(m, k);
      SumRemove(n, k);
      assert (m - {k}).Keys == m.Keys - {k};
      SumBound(m - {k}, n - {k});
    }
  }

  lemma {:induction false} SumConstant<K(!new)>(m: map<K, int>, c: int)
    requires forall k :: k in m ==> m[k] == c
    ensures Sum(m) == |m| * c
    decreases |m|
  {
    if m != map[] {
      var k :| k in m;
      SumRemove(m, k);
      assert (m - {k}).Keys == m.Keys - {k};
      SumConstant(m - {k}, c);
      var n := |m - {k}|;
      assert |m| == n + 1;
      assert (n + 1) * c == n * c + c;
    } else {
      assert 0 * c == 0;
    }
  }
}
