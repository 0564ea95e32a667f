/** Lemmas about sequences, and about counting in finite sets, sequences and maps. */
module Finite {
  lemma Associates<T>(a: seq<T>, b: seq<T>, c: seq<T>)
    ensures (a + b) + c == a + (b + c)
  {
  }

  lemma FirstApart<T>(a: seq<T>, b: seq<T>, c: seq<T>, d: seq<T>)
    ensures a + b + c + d == a + (b + c + d)
  {
  }

  lemma OneMore<T>(prior: seq<T>, s: seq<T>, k: nat)
    requires k < |s|
    ensures prior + s[..k + 1] == prior + s[..k] + [s[k]]
    ensures k + 1 == |s| ==> s == s[..k] + [s[k]] && prior + s == prior + s[..k] + [s[k]]
  {
  }

  /** Pairwise distinct elements of a finite set are no more than the set holds. */
  lemma {:induction false} DistinctFits<T>(s: seq<T>, t: set<T>)
    requires forall i, j :: 0 <= i < j < |s| ==> s[i] != s[j]
    requires forall x :: x in s ==> x in t
    ensures |s| <= |t|
  {
    if s != [] {
      var last := s[|s| - 1];
      var rest := s[..|s| - 1];
      assert forall x :: x in rest ==> x in t - {last};
      DistinctFits(rest, t - {last});
    }
  }

  /** Of more distinct elements than a set holds, one is outside it. */
  lemma OneIsOutside<T>(tried: seq<T>, taken: set<T>) returns (i: nat)
    requires forall i, j :: 0 <= i < j < |tried| ==> tried[i] != tried[j]
    requires |tried| > |taken|
    ensures i < |tried| && tried[i] !in taken
  {
    if forall x :: x in tried ==> x in taken {
      DistinctFits(tried, taken);
    }
    i :| 0 <= i < |tried| && tried[i] !in taken;
  }

  lemma ValuesOfUpdate<K, V>(m: map<K, V>, k: K, v: V)
    requires k !in m
    ensures m[k := v].Values == m.Values + {v}
  {
    var u := m[k := v];
    assert forall x :: x in m ==> u[x] == m[x];
    assert u[k] == v;
    forall w | w in m.Values + {v} ensures w in u.Values {
      if w != v {
        var x :| x in m && m[x] == w;
        assert u[x] == w;
      }
    }
  }

  lemma {:induction false} ValuesNoMoreThanKeys<K, V>(m: map<K, V>)
    ensures |m.Values| <= |m.Keys|
    decreases |m.Keys|
  {
    if m.Keys == {} {
      assert m.Values == {};
    } else {
      var k :| k in m.Keys;
      var rest := m - {k};
      assert rest.Keys == m.Keys - {k};
      ValuesNoMoreThanKeys(rest);
      assert m.Values <= rest.Values + {m[k]} by {
        forall v | v in m.Values ensures v in rest.Values + {m[k]} {
          var x :| x in m && m[x] == v;
          assert x != k ==> rest[x] == v;
        }
      }
      SubsetSize(m.Values, rest.Values + {m[k]});
      UnionSize(rest.Values, {m[k]});
    }
  }

  lemma {:induction false} SubsetSize<T>(a: set<T>, b: set<T>)
    requires a <= b
    ensures |a| <= |b|
  {
    assert b == a + (b - a);
  }

  lemma UnionSize<T>(a: set<T>, b: set<T>)
    ensures |a + b| <= |a| + |b|
  {
    assert |a + b| == |a| + |b| - |a * b|;
  }

  lemma {:induction false} DistinctSize<T>(s: seq<T>)
    requires forall i, j :: 0 <= i < j < |s| ==> s[i] != s[j]
    ensures |set x | x in s| == |s|
  {
    if s != [] {
      var init, last := s[..|s| - 1], s[|s| - 1];
      DistinctSize(init);
      assert s == init + [last];
      assert (set x | x in s) == (set x | x in init) + {last};
    }
  }
}
