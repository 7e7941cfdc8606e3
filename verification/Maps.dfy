/** Maps whose values are objects. */
module Maps {
  /** No two keys share a value. */
  predicate Injective<K, V(==)>(m: map<K, V>) {
    forall p, q :: p in m && q in m && p != q ==> m[p] != m[q]
  }

  lemma EntryRemoved<K, V>(m: map<K, V>, p: K)
    requires Injective(m)
    ensures Injective(m - {p}) && (m - {p}).Values <= m.Values
  {
    forall v | v in (m - {p}).Values
      ensures v in m.Values
    {
      var q :| q in m - {p} && (m - {p})[q] == v;
      assert m[q] == v;
    }
  }
}
