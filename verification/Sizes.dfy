/** Sizes of sets, sequences and maps. */
module Sizes {

  lemma {:induction false} SubsetSize<T>(a: set<T>, b: set<T>)
    requires a <= b
    ensures |a| <= |b|
    decreases |a|
  {
    if a != {} {
      var x :| x in a;
      SubsetSize(a - {x}, b - {x});
    }
  }

  ghost function Elements<T>(s: seq<T>): set<T> {
    set x | x in s
  }

  lemma {:induction false} DistinctSize<T>(s: seq<T>)
    requires forall i, j :: 0 <= i < j < |s| ==> s[i] != s[j]
    ensures |Elements(s)| == |s|
    decreases |s|
  {
    if s == [] {
      assert Elements(s) == {};
    } else {
      DistinctSize(s[1..]);
      assert s[0] !in s[1..];
      assert Elements(s) == {s[0]} + Elements(s[1..]);
    }
  }

  lemma DropOne<K, V>(m: map<K, V>, key: K)
    requires key in m
    ensures (m - {key}).Keys == m.Keys - {key} && |m - {key}| == |m| - 1
  {
    assert |m.Keys - {key}| == |m.Keys| - 1;
    assert (m - {key}).Keys == m.Keys - {key};
  }

  lemma DropSome<K, V>(m: map<K, V>, keys: set<K>)
    ensures |m - keys| <= |m|
    ensures |m - keys| == |m| <==> m - keys == m
  {
    assert (m - keys).Keys == m.Keys - keys;
    assert |m.Keys - keys| == |m.Keys| - |m.Keys * keys|;
    if |m.Keys * keys| == 0 {
      forall k | k in m ensures k !in keys {
        assert k in m.Keys * keys <==> k in keys;
      }
      assert m - keys == m;
    }
  }

  lemma DropMore<K, V>(m: map<K, V>, keys: set<K>, key: K)
    ensures m - (keys + {key}) == m - keys - {key}
  {
  }
}
