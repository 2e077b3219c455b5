/** Sums of integer functions over finite sets. */
module MapSums {

  ghost function Sum<K>(keys: set<K>, f: K -> int): int {
    if keys == {} then 0
    else
      var k :| k in keys;
      f(k) + Sum(keys - {k}, f)
  }

  /** The sum does not depend on the order in which keys are taken. */
  lemma {:induction false} SumRemove<K>(keys: set<K>, f: K -> int, k: K)
    requires k in keys
    ensures Sum(keys, f) == f(k) + Sum(keys - {k}, f)
    decreases |keys|
  {
    var c :| c in keys && Sum(keys, f) == f(c) + Sum(keys - {c}, f);
    if c != k {
      SumRemove(keys - {c}, f, k);
      SumRemove(keys - {k}, f, c);
      assert keys - {c} - {k} == keys - {k} - {c};
    }
  }

  lemma {:induction false} SumSame<K>(keys: set<K>, f: K -> int, g: K -> int)
    requires forall k | k in keys :: f(k) == g(k)
    ensures Sum(keys, f) == Sum(keys, g)
    decreases |keys|
  {
    if keys != {} {
      var k :| k in keys;
      SumRemove(keys, f, k);
      SumRemove(keys, g, k);
      SumSame(keys - {k}, f, g);
    }
  }

  /** Two functions that differ at one key, over key sets that differ at most by that key. */
  lemma SumChange<K>(keys: set<K>, keys': set<K>, f: K -> int, g: K -> int, k: K)
    requires keys' == keys + {k} && (k !in keys ==> f(k) == 0)
    requires forall x | x in keys && x != k :: f(x) == g(x)
    ensures Sum(keys', g) == Sum(keys, f) - f(k) + g(k)
  {
    SumRemove(keys', g, k);
    assert keys' - {k} == keys - {k};
    SumSame(keys - {k}, f, g);
    if k in keys {
      SumRemove(keys, f, k);
    } else {
      assert keys - {k} == keys;
    }
  }
}
