/** Generic helpers on finite collections. */
module Collections {

  /** Some element of a non-empty set. */
  ghost function Element<T>(s: set<T>): (x: T)
    requires s != {}
    ensures x in s
  {
    var x :| x in s; x
  }

  /** Walks a set in an unspecified order (a hash set's iteration), listing each element once. */
  method Enumerate<T>(s: set<T>) returns (q: seq<T>)
    ensures multiset(q) == multiset(s)
  {
    q := [];
    var rest := s;
    while rest != {}
      invariant rest <= s
      invariant multiset(q) == multiset(s - rest)
      decreases rest
    {
      var x :| x in rest;
      ghost var before := rest;
      q := q + [x];
      rest := rest - {x};
      assert s - rest == (s - before) + {x} && x !in s - before;
    }
    assert s - rest == s;
  }

  /** A sequence whose elements, counted with multiplicity, fit inside a set lists no element twice. */
  lemma DistinctWhenBelowSet<T>(q: seq<T>, s: set<T>)
    requires multiset(q) <= multiset(s)
    ensures forall i, j :: 0 <= i < j < |q| ==> q[i] != q[j]
  {
    forall i, j | 0 <= i < j < |q| ensures q[i] != q[j] {
      assert q == q[..j] + q[j..];
      assert q[..j][i] == q[i] && q[j..][0] == q[j];
      assert multiset(q[..j])[q[i]] >= 1;
      assert multiset(q[j..])[q[i]] >= (if q[j] == q[i] then 1 else 0);
      assert multiset(s)[q[i]] <= 1;
    }
  }
}
