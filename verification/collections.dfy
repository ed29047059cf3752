/** Facts about filling a map from a list of entries, as a `HashMap` is
    filled by repeated `insert` (a later insert of a key overwrites an earlier
    one), and about the number of distinct elements of a list. */
module Collections {

  /** The map obtained from `m` by inserting the entries of `es` in order. */
  function InsertAll<K, V>(m: map<K, V>, es: seq<(K, V)>): map<K, V>
    decreases |es|
  {
    if es == [] then m else InsertAll(m[es[0].0 := es[0].1], es[1..])
  }

  /** Fills an empty map by inserting the entries of `es` one by one. */
  method InsertEach<K, V>(es: seq<(K, V)>) returns (m: map<K, V>)
    ensures m == InsertAll(map[], es)
  {
    m := map[];
    for i := 0 to |es|
      invariant m == InsertAll(map[], es[..i])
    {
      InsertAllSnoc(map[], es[..i], es[i]);
      assert es[..i + 1] == es[..i] + [es[i]];
      m := m[es[i].0 := es[i].1];
    }
    assert es[..|es|] == es;
  }

  /** The keys of a list of entries, in order. */
  function KeysOf<K, V>(es: seq<(K, V)>): (ks: seq<K>)
    ensures |ks| == |es|
    ensures forall i | 0 <= i < |es| :: ks[i] == es[i].0
  {
    seq(|es|, i requires 0 <= i < |es| => es[i].0)
  }

  function Last<T>(s: seq<T>): T
    requires s != []
  {
    s[|s| - 1]
  }

  predicate Distinct<T(==)>(s: seq<T>) {
    forall i, j | 0 <= i < j < |s| :: s[i] != s[j]
  }

  /** Inserting a list in two parts is inserting the first part, then the second. */
  lemma {:induction false} InsertAllAppend<K, V>(m: map<K, V>, a: seq<(K, V)>, b: seq<(K, V)>)
    ensures InsertAll(m, a + b) == InsertAll(InsertAll(m, a), b)
    decreases |a|
  {
    if a == [] {
      assert a + b == b;
    } else {
      assert (a + b)[0] == a[0];
      assert (a + b)[1..] == a[1..] + b;
      InsertAllAppend(m[a[0].0 := a[0].1], a[1..], b);
    }
  }

  /** Inserting one more entry at the end is a single map update. */
  lemma InsertAllSnoc<K, V>(m: map<K, V>, a: seq<(K, V)>, e: (K, V))
    ensures InsertAll(m, a + [e]) == InsertAll(m, a)[e.0 := e.1]
  {
    InsertAllAppend(m, a, [e]);
    assert [e][1..] == [];
  }

  /** The same entry inserted twice in a row leaves the same map as once. */
  lemma InsertAllRepeat<K, V>(m: map<K, V>, a: seq<(K, V)>, e: (K, V), b: seq<(K, V)>)
    ensures InsertAll(m, a + [e] + [e] + b) == InsertAll(m, a + [e] + b)
  {
    InsertAllAppend(m, a + [e] + [e], b);
    InsertAllAppend(m, a + [e], b);
    InsertAllSnoc(m, a + [e], e);
    InsertAllSnoc(m, a, e);
    var once := InsertAll(m, a)[e.0 := e.1];
    assert once[e.0 := e.1] == once;
  }

  /** With pairwise distinct keys every entry survives: the keys are exactly
      those of `m` and of the list, and each listed key maps to its value. */
  lemma {:induction false} InsertAllDistinct<K, V>(m: map<K, V>, es: seq<(K, V)>)
    requires Distinct(KeysOf(es))
    ensures InsertAll(m, es).Keys == m.Keys + set i | 0 <= i < |es| :: es[i].0
    ensures forall i | 0 <= i < |es| :: InsertAll(m, es)[es[i].0] == es[i].1
    ensures forall k | k in m && k !in KeysOf(es) :: InsertAll(m, es)[k] == m[k]
    decreases |es|
  {
    if es != [] {
      var m' := m[es[0].0 := es[0].1];
      var rest := es[1..];
      assert Distinct(KeysOf(rest)) by {
        forall i, j | 0 <= i < j < |rest| ensures KeysOf(rest)[i] != KeysOf(rest)[j] {
          assert KeysOf(es)[i + 1] != KeysOf(es)[j + 1];
        }
      }
      InsertAllDistinct(m', rest);
      var r := InsertAll(m, es);
      assert r == InsertAll(m', rest);
      var all := set i | 0 <= i < |es| :: es[i].0;
      var later := set i | 0 <= i < |rest| :: rest[i].0;
      assert all == {es[0].0} + later by {
        forall k | k in all ensures k in {es[0].0} + later {
          var i :| 0 <= i < |es| && es[i].0 == k;
          if i > 0 { assert rest[i - 1].0 == k; }
        }
        forall k | k in later ensures k in all {
          var i :| 0 <= i < |rest| && rest[i].0 == k;
          assert es[i + 1].0 == k;
        }
      }
      forall i | 0 <= i < |es| ensures r[es[i].0] == es[i].1 {
        if i == 0 {
          assert es[0].0 !in KeysOf(rest) by {
            forall j | 0 <= j < |rest| ensures KeysOf(rest)[j] != es[0].0 {
              assert KeysOf(es)[0] != KeysOf(es)[j + 1];
            }
          }
        } else {
          assert rest[i - 1] == es[i];
        }
      }
      forall k | k in m && k !in KeysOf(es) ensures r[k] == m[k] {
        assert k != KeysOf(es)[0];
        assert k !in KeysOf(rest) by {
          forall j | 0 <= j < |rest| ensures KeysOf(rest)[j] != k {
            assert KeysOf(rest)[j] == KeysOf(es)[j + 1];
          }
        }
      }
    }
  }

  /** A list has as many elements as its set of elements exactly when it
      repeats none, and more when it repeats one. */
  lemma {:induction false} SetOfSeqSize<T>(s: seq<T>)
    ensures |set x | x in s| <= |s|
    ensures Distinct(s) <==> |set x | x in s| == |s|
    decreases |s|
  {
    if s != [] {
      var init := s[..|s| - 1];
      var last := s[|s| - 1];
      SetOfSeqSize(init);
      assert s == init + [last];
      assert (set x | x in s) == (set x | x in init) + {last};
      if last in init {
        var j :| 0 <= j < |init| && init[j] == last;
        assert s[j] == s[|s| - 1];
        assert (set x | x in s) == (set x | x in init);
      } else if Distinct(init) {
        forall i, j | 0 <= i < j < |s| ensures s[i] != s[j] {
          if j < |s| - 1 { assert init[i] != init[j]; } else { assert init[i] != last; }
        }
      } else {
        var i, j :| 0 <= i < j < |init| && init[i] == init[j];
        assert s[i] == s[j];
      }
    }
  }

  /** The element set of `b` is contained in that of `a` exactly when every
      element of `b` occurs in `a`. */
  lemma ElementsSubset<T>(a: seq<T>, b: seq<T>)
    ensures (set t | t in b) <= (set t | t in a) <==> forall t | t in b :: t in a
  {
    var sa, sb := set t | t in a, set t | t in b;
    if sb <= sa {
      forall t | t in b ensures t in a {
        assert t in sb;
      }
    }
  }

  /** Two lists have the same element set exactly when each element of one
      occurs in the other. */
  lemma ElementsEqual<T>(a: seq<T>, b: seq<T>)
    ensures (set t | t in a) == (set t | t in b) <==> forall t :: t in a <==> t in b
  {
    ElementsSubset(a, b);
    ElementsSubset(b, a);
  }

  /** A subset is no larger than its superset, and equal to it when as large. */
  lemma {:induction false} SubsetSize<T>(x: set<T>, y: set<T>)
    requires x <= y
    ensures |x| <= |y|
    ensures |x| == |y| ==> x == y
    decreases |x|
  {
    if x != {} {
      var e :| e in x;
      SubsetSize(x - {e}, y - {e});
      assert x == (x - {e}) + {e};
      assert y == (y - {e}) + {e};
    }
  }
}
