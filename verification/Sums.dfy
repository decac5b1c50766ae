/** Totals of integer maps over sets of keys. */
module Sums {
  ghost function Sum<K(!new)>(s: set<K>, f: map<K, int>): int
    requires s <= f.Keys
  {
    if s == {} then 0 else
      var x :| x in s;
      f[x] + Sum(s - {x}, f)
  }

  lemma {:induction false} SumRemove<K(!new)>(s: set<K>, f: map<K, int>, x: K)
    requires s <= f.Keys && x in s
    ensures Sum(s, f) == f[x] + Sum(s - {x}, f)
    decreases |s|
  {
    var y :| y in s && Sum(s, f) == f[y] + Sum(s - {y}, f);
    if y != x {
      SumRemove(s - {y}, f, x);
      SumRemove(s - {x}, f, y);
      assert s - {y} - {x} == s - {x} - {y};
    }
  }

  lemma SumAdd<K(!new)>(s: set<K>, f: map<K, int>, x: K)
    requires s + {x} <= f.Keys && x !in s
    ensures Sum(s + {x}, f) == Sum(s, f) + f[x]
  {
    SumRemove(s + {x}, f, x);
    assert s + {x} - {x} == s;
  }

  lemma {:induction false} SumAgree<K(!new)>(s: set<K>, f: map<K, int>, g: map<K, int>)
    requires s <= f.Keys && s <= g.Keys && forall x | x in s :: f[x] == g[x]
    ensures Sum(s, f) == Sum(s, g)
    decreases |s|
  {
    if s != {} {
      var x :| x in s;
      SumRemove(s, f, x);
      SumRemove(s, g, x);
      SumAgree(s - {x}, f, g);
    }
  }

  lemma {:induction false} SumNonNegative<K(!new)>(s: set<K>, f: map<K, int>)
    requires s <= f.Keys && forall x | x in s :: f[x] >= 0
    ensures Sum(s, f) >= 0
    decreases |s|
  {
    if s != {} {
      var x :| x in s;
      SumRemove(s, f, x);
      SumNonNegative(s - {x}, f);
    }
  }
}
