/** A map that iterates in insertion order: the keyed collection the TypeScript
    classes keep their records in, as a sequence of pairs with distinct keys. */
module OrderedMap {
  predicate Distinct<K(==), V>(m: seq<(K, V)>) {
    forall i, j :: 0 <= i < j < |m| ==> m[i].0 != m[j].0
  }

  predicate Has<K(==), V>(m: seq<(K, V)>, k: K) {
    exists i :: 0 <= i < |m| && m[i].0 == k
  }

  /** An existing key keeps its place and gets the new value; a new key goes last. */
  function Put<K(==), V>(m: seq<(K, V)>, k: K, v: V): seq<(K, V)> {
    if m == [] then [(k, v)]
    else if m[0].0 == k then [(k, v)] + m[1..]
    else [m[0]] + Put(m[1..], k, v)
  }

  function Drop<K(==), V>(m: seq<(K, V)>, k: K): seq<(K, V)> {
    if m == [] then []
    else if m[0].0 == k then m[1..]
    else [m[0]] + Drop(m[1..], k)
  }

  lemma HasCons<K, V>(p: (K, V), rest: seq<(K, V)>, k: K)
    ensures Has([p] + rest, k) <==> p.0 == k || Has(rest, k)
  {
    var w := [p] + rest;
    if p.0 == k { assert w[0].0 == k; }
    if i :| 0 <= i < |rest| && rest[i].0 == k { assert w[i + 1].0 == k; }
    if i :| 0 <= i < |w| && w[i].0 == k {
      if i > 0 { assert rest[i - 1].0 == k; }
    }
  }

  lemma DistinctTail<K, V>(p: (K, V), rest: seq<(K, V)>)
    requires Distinct([p] + rest)
    ensures Distinct(rest) && !Has(rest, p.0)
  {
    var w := [p] + rest;
    forall i | 0 <= i < |rest| ensures rest[i].0 != p.0 { assert w[0].0 != w[i + 1].0; }
    forall i, j | 0 <= i < j < |rest| ensures rest[i].0 != rest[j].0 { assert w[i + 1].0 != w[j + 1].0; }
  }

  lemma DistinctWith<K, V>(p: (K, V), rest: seq<(K, V)>)
    requires Distinct(rest) && !Has(rest, p.0)
    ensures Distinct([p] + rest)
  {
    var w := [p] + rest;
    forall i, j | 0 <= i < j < |w| ensures w[i].0 != w[j].0 { assert w[j] == rest[j - 1]; }
  }

  lemma DistinctCons<K, V>(p: (K, V), rest: seq<(K, V)>)
    ensures Distinct([p] + rest) <==> Distinct(rest) && !Has(rest, p.0)
  {
    hide Distinct, Has;
    if Distinct([p] + rest) { DistinctTail(p, rest); }
    if Distinct(rest) && !Has(rest, p.0) { DistinctWith(p, rest); }
  }

  lemma {:induction false} PutKeys<K, V>(m: seq<(K, V)>, k: K, v: V, key: K)
    requires Distinct(m)
    ensures Distinct(Put(m, k, v))
    ensures Has(Put(m, k, v), key) <==> Has(m, key) || key == k
  {
    if m == [] {
      HasCons((k, v), m, key);
      assert [(k, v)] + m == [(k, v)];
    } else {
      var rest := m[1..];
      assert m == [m[0]] + rest;
      DistinctCons(m[0], rest);
      HasCons(m[0], rest, key);
      if m[0].0 == k {
        DistinctCons((k, v), rest);
        HasCons((k, v), rest, key);
      } else {
        PutKeys(rest, k, v, key);
        PutKeys(rest, k, v, m[0].0);
        DistinctCons(m[0], Put(rest, k, v));
        HasCons(m[0], Put(rest, k, v), key);
      }
    }
  }

  lemma {:induction false} DropKeys<K, V>(m: seq<(K, V)>, k: K, key: K)
    requires Distinct(m)
    ensures Distinct(Drop(m, k))
    ensures Has(Drop(m, k), key) <==> Has(m, key) && key != k
  {
    if m == [] {
    } else {
      var rest := m[1..];
      assert m == [m[0]] + rest;
      DistinctCons(m[0], rest);
      HasCons(m[0], rest, key);
      if m[0].0 != k {
        DropKeys(rest, k, key);
        DropKeys(rest, k, m[0].0);
        DistinctCons(m[0], Drop(rest, k));
        HasCons(m[0], Drop(rest, k), key);
      }
    }
  }

  lemma {:induction false} PutMembers<K, V>(m: seq<(K, V)>, k: K, v: V)
    ensures forall p :: p in Put(m, k, v) ==> p in m || p == (k, v)
  {
    if m != [] { PutMembers(m[1..], k, v); }
  }

  lemma {:induction false} DropMembers<K, V>(m: seq<(K, V)>, k: K)
    ensures forall p :: p in Drop(m, k) ==> p in m
  {
    if m != [] { DropMembers(m[1..], k); }
  }

  lemma {:induction false} PutFresh<K, V>(m: seq<(K, V)>, k: K, v: V)
    requires !Has(m, k)
    ensures Put(m, k, v) == m + [(k, v)]
  {
    if m != [] {
      assert m == [m[0]] + m[1..];
      HasCons(m[0], m[1..], k);
      PutFresh(m[1..], k, v);
    }
  }

  lemma {:induction false} PutKnown<K, V>(m: seq<(K, V)>, k: K, v: V)
    requires Distinct(m) && Has(m, k)
    ensures |Put(m, k, v)| == |m|
    ensures forall i :: 0 <= i < |m| ==> Put(m, k, v)[i] == if m[i].0 == k then (k, v) else m[i]
  {
    assert m == [m[0]] + m[1..];
    HasCons(m[0], m[1..], k);
    DistinctTail(m[0], m[1..]);
    if m[0].0 == k {
      forall i | 0 <= i < |m[1..]| ensures m[1..][i].0 != k {}
    } else {
      PutKnown(m[1..], k, v);
    }
  }

  /** The pairs whose key is not in `gone`, in order. */
  function Without<K(==), V>(m: seq<(K, V)>, gone: set<K>): seq<(K, V)> {
    if m == [] then []
    else
      var rest := Without(m[..|m| - 1], gone);
      if m[|m| - 1].0 in gone then rest else rest + [m[|m| - 1]]
  }

  lemma {:induction false} WithoutConcat<K, V>(a: seq<(K, V)>, b: seq<(K, V)>, gone: set<K>)
    ensures Without(a + b, gone) == Without(a, gone) + Without(b, gone)
  {
    if b == [] {
      assert a + b == a;
    } else {
      assert (a + b)[..|a + b| - 1] == a + b[..|b| - 1];
      WithoutConcat(a, b[..|b| - 1], gone);
    }
  }

  lemma {:induction false} WithoutMember<K, V>(m: seq<(K, V)>, gone: set<K>, p: (K, V))
    ensures p in Without(m, gone) <==> p in m && p.0 !in gone
  {
    if m != [] {
      var front, z := m[..|m| - 1], m[|m| - 1];
      assert m == front + [z];
      WithoutMember(front, gone, p);
    }
  }

  lemma {:induction false} WithoutNone<K, V>(m: seq<(K, V)>, gone: set<K>)
    requires forall i :: 0 <= i < |m| ==> m[i].0 !in gone
    ensures Without(m, gone) == m
  {
    if m != [] { WithoutNone(m[..|m| - 1], gone); }
  }

  lemma {:induction false} DropIsWithout<K, V>(m: seq<(K, V)>, k: K)
    requires Distinct(m)
    ensures Drop(m, k) == Without(m, {k})
  {
    if m == [] {
    } else {
      var rest := m[1..];
      assert m == [m[0]] + rest;
      DistinctCons(m[0], rest);
      WithoutConcat([m[0]], rest, {k});
      assert [m[0]][..0] == [];
      assert Without([m[0]], {k}) == if m[0].0 == k then [] else [m[0]];
      if m[0].0 == k {
        forall i | 0 <= i < |rest| ensures rest[i].0 !in {k} {}
        WithoutNone(rest, {k});
        assert [] + rest == rest;
      } else {
        DropIsWithout(rest, k);
      }
    }
  }

  lemma {:induction false} WithoutTwice<K, V>(m: seq<(K, V)>, a: set<K>, b: set<K>)
    ensures Without(Without(m, a), b) == Without(m, a + b)
  {
    if m != [] {
      var front, z := m[..|m| - 1], m[|m| - 1];
      WithoutTwice(front, a, b);
      WithoutConcat(Without(front, a), if z.0 in a then [] else [z], b);
      assert [z][..0] == [];
    }
  }

  lemma {:induction false} WithoutDistinct<K, V>(m: seq<(K, V)>, gone: set<K>)
    requires Distinct(m)
    ensures Distinct(Without(m, gone))
  {
    if m != [] {
      var front, z := m[..|m| - 1], m[|m| - 1];
      WithoutDistinct(front, gone);
      var w := Without(front, gone);
      forall i | 0 <= i < |w| ensures w[i].0 != z.0 {
        WithoutMember(front, gone, w[i]);
        assert w[i] in front;
        var j :| 0 <= j < |front| && front[j] == w[i];
        assert m[j].0 != m[|m| - 1].0;
      }
    }
  }
}
