/** Sums of a natural-valued measure over the values of a finite map. */
module MapSums {

  ghost function AnyKey<K, V>(m: map<K, V>): (k: K)
    requires m.Keys != {}
    ensures k in m
  {
    var k :| k in m.Keys; k
  }

  ghost function MapSum<K, V>(m: map<K, V>, f: V -> nat): nat
    decreases |m|
  {
    if m.Keys == {} then 0
    else
      var k := AnyKey(m);
      assert (m - {k}).Keys == m.Keys - {k};
      f(m[k]) + MapSum(m - {k}, f)
  }

  /** The summation order does not matter: any key can be split off first. */
  lemma {:induction false} MapSumSplit<K, V>(m: map<K, V>, f: V -> nat, k: K)
    requires k in m
    ensures MapSum(m, f) == f(m[k]) + MapSum(m - {k}, f)
    decreases |m|
  {
    var j := AnyKey(m);
    if j != k {
      var mj, mk := m - {j}, m - {k};
      assert mj.Keys == m.Keys - {j} && mk.Keys == m.Keys - {k};
      assert mj - {k} == m - {j, k} == mk - {j};
      MapSumSplit(mj, f, k);
      MapSumSplit(mk, f, j);
    }
  }

  lemma MapSumInsert<K, V>(m: map<K, V>, f: V -> nat, k: K, v: V)
    requires k !in m
    ensures MapSum(m[k := v], f) == f(v) + MapSum(m, f)
  {
    MapSumSplit(m[k := v], f, k);
    assert m[k := v] - {k} == m;
  }

  lemma MapSumUpdate<K, V>(m: map<K, V>, f: V -> nat, k: K, v: V)
    requires k in m
    ensures MapSum(m[k := v], f) + f(m[k]) == MapSum(m, f) + f(v)
  {
    MapSumSplit(m, f, k);
    MapSumSplit(m[k := v], f, k);
    assert m[k := v] - {k} == m - {k};
  }

  lemma {:induction false} MapSumAtMost<K, V>(m: map<K, V>, f: V -> nat, bound: nat)
    requires forall k :: k in m ==> f(m[k]) <= bound
    ensures MapSum(m, f) <= |m| * bound
    decreases |m|
  {
    if m.Keys != {} {
      var k := AnyKey(m);
      assert (m - {k}).Keys == m.Keys - {k};
      MapSumAtMost(m - {k}, f, bound);
      assert |m| * bound == (|m| - 1) * bound + bound;
    }
  }

  lemma {:induction false} MapSumConstant<K, V>(m: map<K, V>, f: V -> nat, c: nat)
    requires forall k :: k in m ==> f(m[k]) == c
    ensures MapSum(m, f) == |m| * c
    decreases |m|
  {
    if m.Keys != {} {
      var k := AnyKey(m);
      assert (m - {k}).Keys == m.Keys - {k};
      MapSumConstant(m - {k}, f, c);
      assert |m| * c == (|m| - 1) * c + c;
    }
  }
}
