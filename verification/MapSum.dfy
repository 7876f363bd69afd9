/** The sum of the values of a finite map. */
module MapSum {

  ghost function Total(m: map<nat, int>): int {
    if m == map[] then 0
    else
      var k :| k in m;
      assert (m - {k}).Keys == m.Keys - {k};
      m[k] + Total(m - {k})
  }

  /** Any key may be taken out first. */
  lemma {:induction false} TotalPicks(m: map<nat, int>, k: nat)
    requires k in m
    ensures Total(m) == m[k] + Total(m - {k})
    decreases |m|
  {
    var p :| p in m && Total(m) == m[p] + Total(m - {p});
    if p != k {
      assert (m - {p}).Keys == m.Keys - {p};
      TotalPicks(m - {p}, k);
      assert (m - {k}).Keys == m.Keys - {k};
      TotalPicks(m - {k}, p);
      assert m - {p} - {k} == m - {k} - {p};
    }
  }

  lemma TotalUpdates(m: map<nat, int>, k: nat, v: int)
    ensures Total(m[k := v]) == Total(m) - (if k in m then m[k] else 0) + v
  {
    TotalPicks(m[k := v], k);
    if k in m {
      TotalPicks(m, k);
      assert m[k := v] - {k} == m - {k};
    } else {
      assert m[k := v] - {k} == m;
    }
  }

  lemma {:induction false} TotalIsNatural(m: map<nat, int>)
    requires forall k :: k in m ==> m[k] >= 0
    ensures Total(m) >= 0
    decreases |m|
  {
    if m != map[] {
      var k :| k in m && Total(m) == m[k] + Total(m - {k});
      assert (m - {k}).Keys == m.Keys - {k};
      TotalIsNatural(m - {k});
    }
  }

  lemma NoPartExceedsTheTotal(m: map<nat, int>, k: nat)
    requires k in m && forall j :: j in m ==> m[j] >= 0
    ensures m[k] <= Total(m)
  {
    TotalPicks(m, k);
    TotalIsNatural(m - {k});
  }
}
