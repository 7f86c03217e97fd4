/** Sums over finite sets of keys, independent of the order in which storage is iterated. */
module MapSum {
  ghost function Sum<K(!new)>(keys: set<K>, f: K -> nat): nat {
    if keys == {} then 0
    else
      var k :| k in keys;
      f(k) + Sum(keys - {k}, f)
  }

  /** Any key may be taken out first. */
  lemma {:induction false} SumPick<K(!new)>(keys: set<K>, f: K -> nat, k: K)
    requires k in keys
    ensures Sum(keys, f) == f(k) + Sum(keys - {k}, f)
  {
    var first :| first in keys && Sum(keys, f) == f(first) + Sum(keys - {first}, f);
    if first != k {
      SumPick(keys - {first}, f, k);
      SumPick(keys - {k}, f, first);
      assert keys - {first} - {k} == keys - {k} - {first};
    }
  }

  lemma {:induction false} SumSame<K(!new)>(keys: set<K>, f: K -> nat, g: K -> nat)
    requires forall k | k in keys :: f(k) == g(k)
    ensures Sum(keys, f) == Sum(keys, g)
  {
    if keys != {} {
      var k :| k in keys;
      SumPick(keys, f, k);
      SumPick(keys, g, k);
      SumSame(keys - {k}, f, g);
    }
  }

  /** Keys that contribute nothing do not matter. */
  lemma {:induction false} SumWithout<K(!new)>(keys: set<K>, less: set<K>, f: K -> nat)
    requires less <= keys && forall k | k in keys - less :: f(k) == 0
    ensures Sum(keys, f) == Sum(less, f)
    decreases |keys|
  {
    if keys - less == {} {
      assert less == keys;
    } else {
      var k :| k in keys - less;
      SumPick(keys, f, k);
      SumWithout(keys - {k}, less, f);
    }
  }

  /** Changing one key's contribution changes the sum by the difference. */
  lemma SumChange<K(!new)>(keys: set<K>, f: K -> nat, g: K -> nat, k: K)
    requires k in keys && forall x | x in keys && x != k :: f(x) == g(x)
    ensures Sum(keys, f) + g(k) == Sum(keys, g) + f(k)
  {
    SumPick(keys, f, k);
    SumPick(keys, g, k);
    SumSame(keys - {k}, f, g);
  }
}
