/** What several modules need to know about integers, sequences, sets and maps. */
module Collections {

  function Max(a: int, b: int): (m: int)
    ensures m in {a, b} && a <= m && b <= m
  {
    if a >= b then a else b
  }

  function Min(a: int, b: int): (m: int)
    ensures m in {a, b} && m <= a && m <= b
  {
    if a <= b then a else b
  }

  predicate Distinct<T(==)>(s: seq<T>) {
    forall i, j :: 0 <= i < j < |s| ==> s[i] != s[j]
  }

  /** A dict in its iteration order has no key twice. */
  ghost predicate DistinctKeys<T>(list: seq<(int, T)>) {
    forall i, j :: 0 <= i < j < |list| ==> list[i].0 != list[j].0
  }

  function Keys<T(==)>(list: seq<(int, T)>): set<int> {
    set e | e in list :: e.0
  }

  lemma {:induction false} SubsetSize<T>(a: set<T>, b: set<T>)
    requires a <= b
    ensures |a| <= |b|
    decreases |a|
  {
    if a != {} {
      var x :| x in a;
      SubsetSize(a - {x}, b - {x});
    }
  }

  lemma SomeElement<T>(s: set<T>) returns (x: T)
    requires s != {}
    ensures x in s
  {
    x :| x in s;
  }

  lemma SomeKey<K, V>(m: map<K, V>) returns (k: K)
    requires m != map[]
    ensures k in m
  {
    assert m.Keys != {};
    k :| k in m.Keys;
  }
}
