// Small facts about finite maps, one per lemma so that each stays cheap to use.
module MapLemmas {

  /** Two parts with nothing in common that make up a whole. */
  ghost predicate Split<K, V>(whole: map<K, V>, a: map<K, V>, b: map<K, V>) {
    && a.Keys !! b.Keys
    && whole == a + b
  }

  ghost predicate Submap<K(!new), V>(part: map<K, V>, whole: map<K, V>) {
    forall k :: k in part ==> k in whole && part[k] == whole[k]
  }

  lemma SubmapSplit<K(!new), V>(part: map<K, V>, whole: map<K, V>)
    requires Submap(part, whole)
    ensures Split(whole, part, whole - part.Keys)
  {}

  lemma SubmapSize<K(!new), V>(part: map<K, V>, whole: map<K, V>)
    requires Submap(part, whole)
    ensures |whole - part.Keys| == |whole| - |part|
  {
    SubmapSplit(part, whole);
    SplitSize(whole, part, whole - part.Keys);
  }

  lemma SplitStart<K, V>(whole: map<K, V>)
    ensures Split(whole, map[], whole)
  {}

  lemma SplitEnd<K, V>(whole: map<K, V>, a: map<K, V>)
    requires Split(whole, a, map[])
    ensures a == whole
  {}

  lemma SplitRest<K, V>(whole: map<K, V>, a: map<K, V>, b: map<K, V>)
    requires Split(whole, a, b)
    ensures b == whole - a.Keys
  {}

  lemma SplitMove<K, V>(whole: map<K, V>, a: map<K, V>, b: map<K, V>, k: K)
    requires Split(whole, a, b) && k in b
    ensures Split(whole, a[k := b[k]], b - {k})
  {}

  lemma SizeRemove<K, V>(m: map<K, V>, k: K)
    requires k in m
    ensures |m - {k}| + 1 == |m|
  {
    assert m.Keys == (m - {k}).Keys + {k};
  }

  lemma SplitSize<K, V>(whole: map<K, V>, a: map<K, V>, b: map<K, V>)
    requires Split(whole, a, b)
    ensures |whole| == |a| + |b|
  {
    assert whole.Keys == a.Keys + b.Keys;
  }
}
