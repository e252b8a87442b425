/** Finite maps into the naturals: greatest value, sum, and their independence of iteration order. */
module NatMaps {

  /** A key after hashing. The key hash is taken to be injective, so hashed keys stand for keys. */
  type Key = nat

  /** The value at a key, with Go's zero for an absent one. */
  function At(m: map<Key, nat>, k: Key): nat {
    if k in m then m[k] else 0
  }

  function Max(x: nat, y: nat): nat {
    if x < y then y else x
  }

  ghost predicate IsMax(m: map<Key, nat>, n: nat) {
    && (forall k :: k in m ==> m[k] <= n)
    && (n == 0 || exists k :: k in m && m[k] == n)
  }

  lemma MaxExists(m: map<Key, nat>)
    ensures exists n: nat :: IsMax(m, n)
    decreases |m|
  {
    if m == map[] {
      assert IsMax(m, 0);
    } else {
      var k :| k in m;
      var rest := m - {k};
      MaxExists(rest);
      var n: nat :| IsMax(rest, n);
      assert forall j :: j in m && j != k ==> j in rest;
      assert IsMax(m, Max(n, m[k]));
    }
  }

  /** The greatest value of the map, 0 for the empty map. */
  ghost function MaxOf(m: map<Key, nat>): (n: nat)
    ensures IsMax(m, n)
  {
    MaxExists(m);
    var n: nat :| IsMax(m, n);
    n
  }

  lemma MaxUnique(m: map<Key, nat>, n: nat)
    requires IsMax(m, n)
    ensures n == MaxOf(m)
  {}

  /** One step of a scan for the greatest value: `todo` is what the loop has yet to visit. */
  lemma MaxStep(m: map<Key, nat>, todo: set<Key>, k: Key, n: nat)
    requires k in todo && k in m && IsMax(m - todo, n)
    ensures IsMax(m - (todo - {k}), Max(n, m[k]))
  {
    var next := m - (todo - {k});
    assert k in next && next[k] == m[k];
    assert forall j :: j in next && j != k ==> j in m - todo;
    assert forall j :: j in m - todo ==> j in next && next[j] == m[j];
  }

  /** The sum of all values. */
  ghost function Sum(m: map<Key, nat>): nat
    decreases |m|
  {
    if m == map[] then 0 else
      var k :| k in m;
      m[k] + Sum(m - {k})
  }

  /** Any key may be summed first, so the sum does not depend on iteration order. */
  lemma {:induction false} SumRemove(m: map<Key, nat>, k: Key)
    requires k in m
    ensures Sum(m) == m[k] + Sum(m - {k})
    decreases |m|
  {
    var p :| p in m && Sum(m) == m[p] + Sum(m - {p});
    if p != k {
      SumRemove(m - {p}, k);
      SumRemove(m - {k}, p);
      assert m - {p} - {k} == m - {k} - {p};
    }
  }

  /** One step of a summing loop: `todo` is what the loop has yet to visit. */
  lemma SumStep(m: map<Key, nat>, todo: set<Key>, k: Key)
    requires k in todo && k in m
    ensures Sum(m - (todo - {k})) == m[k] + Sum(m - todo)
  {
    SumRemove(m - (todo - {k}), k);
    assert m - (todo - {k}) - {k} == m - todo;
  }

  /** `n` extends `m`: no value falls, and every new value is positive. */
  ghost predicate Grows(m: map<Key, nat>, n: map<Key, nat>) {
    && m.Keys <= n.Keys
    && (forall k :: k in m ==> m[k] <= n[k])
    && (forall k :: k in n && k !in m ==> 0 < n[k])
  }

  lemma SameButOne(m: map<Key, nat>, n: map<Key, nat>, k: Key)
    requires k in m && k in n && m[k] == n[k] && m - {k} == n - {k}
    ensures m == n
  {
    assert m == (m - {k})[k := m[k]] && n == (n - {k})[k := n[k]];
  }

  /** Growth never lowers the sum, and keeps it exactly when nothing changed. */
  lemma {:induction false} SumGrows(m: map<Key, nat>, n: map<Key, nat>)
    requires Grows(m, n)
    ensures Sum(m) <= Sum(n)
    ensures Sum(m) == Sum(n) <==> m == n
    decreases |n|
  {
    if n == map[] {
      assert m == map[];
    } else {
      var k :| k in n;
      SumRemove(n, k);
      if k in m {
        SumRemove(m, k);
        SumGrows(m - {k}, n - {k});
        if m[k] == n[k] && m - {k} == n - {k} {
          SameButOne(m, n, k);
        }
      } else {
        SumGrows(m, n - {k});
      }
    }
  }
}
