/** Facts about the sizes and keys of maps and sets. */
module Maps {

  lemma InsertSize<K, V>(m: map<K, V>, k: K, v: V)
    ensures |m[k := v]| == if k in m then |m| else |m| + 1
  {
    assert m[k := v].Keys == m.Keys + {k};
  }

  lemma RemoveSize<K, V>(m: map<K, V>, k: K)
    ensures |m - {k}| == if k in m then |m| - 1 else |m|
  {
    if k in m {
      assert (m - {k}).Keys == m.Keys - {k};
    } else {
      assert m - {k} == m;
    }
  }

  lemma AddThenRemove<K, V>(m: map<K, V>, k: K, v: V)
    requires k !in m
    ensures m[k := v] - {k} == m
  {
  }

  lemma SubsetSize<K>(a: set<K>, b: set<K>)
    requires a <= b
    ensures |a| <= |b|
  {
    assert b == a + (b - a);
  }

  lemma DifferenceSize<K>(a: set<K>, b: set<K>)
    requires a <= b
    ensures |b - a| == |b| - |a|
  {
    assert b == a + (b - a);
  }

  /** A union keeps its members when one element moves from its second part to the first. */
  lemma SameUnion<K>(all: set<K>, a: set<K>, b: set<K>, x: K)
    requires forall y :: y in all <==> y in a || y in b
    ensures forall y :: y in all + {x} <==> y in a + {x} || y in b - {x}
  {
  }

  lemma {:induction false} ListedSize<T>(xs: seq<T>, s: set<T>)
    requires (forall x :: x in xs <==> x in s) && forall i, j :: 0 <= i < j < |xs| ==> xs[i] != xs[j]
    ensures |xs| == |s|
  {
    if |xs| == 0 {
      assert s == {};
    } else {
      ListedSize(xs[1..], s - {xs[0]});
    }
  }
}
