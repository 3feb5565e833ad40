/** The sum of the amounts held in a map of accounts. */
module MapSum {
  import opened Chain

  ghost function Get(m: map<Addr, Uint128>, a: Addr): Uint128 {
    if a in m then m[a] else 0
  }

  ghost function Pick(m: map<Addr, Uint128>): (k: Addr)
    requires m != map[]
    ensures k in m
  {
    var k :| k in m; k
  }

  ghost function Sum(m: map<Addr, Uint128>): nat {
    if m == map[] then 0 else m[Pick(m)] + Sum(m - {Pick(m)})
  }

  /** The sum does not depend on the order in which accounts are taken out. */
  lemma {:induction false} SumWithout(m: map<Addr, Uint128>, a: Addr)
    requires a in m
    ensures Sum(m) == m[a] + Sum(m - {a})
    decreases |m|
  {
    var k := Pick(m);
    if a != k {
      SumWithout(m - {k}, a);
      SumWithout(m - {a}, k);
      assert m - {k} - {a} == m - {a} - {k};
    }
  }

  /** Overwriting one account moves the sum by the difference of the two amounts. */
  lemma {:induction false} SumAfterUpdate(m: map<Addr, Uint128>, a: Addr, v: Uint128)
    ensures Sum(m[a := v]) == Sum(m) - Get(m, a) + v
  {
    var u := m[a := v];
    SumWithout(u, a);
    assert u - {a} == m - {a};
    if a in m {
      SumWithout(m, a);
    } else {
      assert m - {a} == m;
    }
  }

  lemma {:induction false} AccountAtMostSum(m: map<Addr, Uint128>, a: Addr)
    ensures Get(m, a) <= Sum(m)
  {
    if a in m { SumWithout(m, a); }
  }
}
