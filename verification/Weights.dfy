/** Sums of weights over finite sets of names. Validator voting power and account
    balances are both finite maps from names to naturals, and both theories rest on
    how such a sum reacts to one update. */
module Weights {

  function Weight(m: map<string, nat>, key: string): nat {
    if key in m then m[key] else 0
  }

  ghost function Sum(m: map<string, nat>, keys: set<string>): nat
    decreases |keys|
  {
    if keys == {} then 0
    else
      var k :| k in keys;
      Weight(m, k) + Sum(m, keys - {k})
  }

  /** The sum of every entry of the map. */
  ghost function Total(m: map<string, nat>): nat {
    Sum(m, m.Keys)
  }

  /** The sum does not depend on the order in which the set is taken apart. */
  lemma {:induction false} SumRemove(m: map<string, nat>, keys: set<string>, key: string)
    requires key in keys
    ensures Sum(m, keys) == Weight(m, key) + Sum(m, keys - {key})
    decreases |keys|
  {
    var k :| k in keys && Sum(m, keys) == Weight(m, k) + Sum(m, keys - {k});
    if k != key {
      SumRemove(m, keys - {k}, key);
      SumRemove(m, keys - {key}, k);
      assert keys - {k} - {key} == keys - {key} - {k};
    }
  }

  lemma SumAdd(m: map<string, nat>, keys: set<string>, key: string)
    ensures Sum(m, keys + {key}) == Sum(m, keys) + (if key in keys then 0 else Weight(m, key))
  {
    if key in keys {
      assert keys + {key} == keys;
    } else {
      SumRemove(m, keys + {key}, key);
      assert keys + {key} - {key} == keys;
    }
  }

  lemma {:induction false} SumAgree(m: map<string, nat>, n: map<string, nat>, keys: set<string>)
    requires forall k :: k in keys ==> Weight(m, k) == Weight(n, k)
    ensures Sum(m, keys) == Sum(n, keys)
    decreases |keys|
  {
    if keys != {} {
      var k :| k in keys;
      SumRemove(m, keys, k);
      SumRemove(n, keys, k);
      SumAgree(m, n, keys - {k});
    }
  }

  lemma {:induction false} SumUnion(m: map<string, nat>, a: set<string>, b: set<string>)
    requires a !! b
    ensures Sum(m, a + b) == Sum(m, a) + Sum(m, b)
    decreases |a|
  {
    if a == {} {
      assert a + b == b;
    } else {
      var k :| k in a;
      SumRemove(m, a, k);
      SumRemove(m, a + b, k);
      assert a + b - {k} == (a - {k}) + b;
      SumUnion(m, a - {k}, b);
    }
  }

  lemma SumMonotone(m: map<string, nat>, a: set<string>, b: set<string>)
    requires a <= b
    ensures Sum(m, a) <= Sum(m, b)
  {
    assert a + (b - a) == b;
    SumUnion(m, a, b - a);
  }

  lemma {:induction false} SumInside(m: map<string, nat>, keys: set<string>)
    ensures Sum(m, keys) == Sum(m, keys * m.Keys)
    decreases |keys|
  {
    if keys != {} {
      var k :| k in keys;
      SumRemove(m, keys, k);
      SumInside(m, keys - {k});
      if k in m {
        SumRemove(m, keys * m.Keys, k);
        assert keys * m.Keys - {k} == (keys - {k}) * m.Keys;
      } else {
        assert keys * m.Keys == (keys - {k}) * m.Keys;
      }
    }
  }

  /** Names outside the map weigh nothing. */
  lemma SumOutside(m: map<string, nat>, keys: set<string>)
    ensures Sum(m, keys) == Sum(m, keys * m.Keys)
    ensures Sum(m, keys) <= Total(m)
  {
    SumInside(m, keys);
    SumMonotone(m, keys * m.Keys, m.Keys);
  }

  /** Inclusion and exclusion: what two subsets weigh beyond the whole, they share. */
  lemma SumOverlap(m: map<string, nat>, a: set<string>, b: set<string>)
    requires a <= m.Keys && b <= m.Keys
    ensures Sum(m, a) + Sum(m, b) <= Total(m) + Sum(m, a * b)
  {
    assert (a - b) + (a * b) == a;
    SumUnion(m, a - b, a * b);
    SumUnion(m, a - b, b);
    SumMonotone(m, (a - b) + b, m.Keys);
  }

  /** Writing one entry moves the total by exactly the change of that entry. */
  lemma TotalUpdate(m: map<string, nat>, key: string, value: nat)
    ensures Total(m[key := value]) + Weight(m, key) == Total(m) + value
  {
    var n := m[key := value];
    var rest := m.Keys - {key};
    assert n.Keys - {key} == rest;
    SumRemove(n, n.Keys, key);
    SumAgree(m, n, rest);
    if key in m {
      SumRemove(m, m.Keys, key);
    } else {
      assert rest == m.Keys;
    }
  }

  lemma EntryWithinTotal(m: map<string, nat>, key: string)
    ensures Weight(m, key) <= Total(m)
  {
    if key in m {
      SumRemove(m, m.Keys, key);
    }
  }
}
