/**
 * Sums over the values of a map: the order in which the values are added does not matter, and one
 * entry can be added or taken out at a time.
 */
module MapTotals {

  ghost function Total(m: map<string, nat>): nat {
    if m == map[] then 0
    else
      var k :| k in m;
      m[k] + Total(m - {k})
  }

  lemma {:induction false} TotalRemove(m: map<string, nat>, k: string)
    requires k in m
    ensures Total(m) == m[k] + Total(m - {k})
    decreases |m|
  {
    var x :| x in m && Total(m) == m[x] + Total(m - {x});
    if x != k {
      TotalRemove(m - {x}, k);
      TotalRemove(m - {k}, x);
      assert m - {x} - {k} == m - {k} - {x};
    }
  }

  lemma TotalAdd(m: map<string, nat>, k: string, n: nat)
    ensures Total(m[k := n]) == n + Total(m - {k})
    ensures k !in m ==> Total(m[k := n]) == n + Total(m)
  {
    TotalRemove(m[k := n], k);
    assert m[k := n] - {k} == m - {k};
    if k !in m {
      assert m - {k} == m;
    }
  }

  /** Removing keys never increases a total. */
  lemma {:induction false} TotalShrinks(m: map<string, nat>, gone: set<string>)
    ensures Total(m - gone) <= Total(m)
    decreases |gone|
  {
    if k :| k in gone {
      TotalShrinks(m, gone - {k});
      if k in m {
        TotalRemove(m - (gone - {k}), k);
        assert m - (gone - {k}) - {k} == m - gone;
      } else {
        assert m - (gone - {k}) == m - gone;
      }
    } else {
      assert m - gone == m;
    }
  }

  /** Removing keys keeps a total exactly when nothing was counted under them. */
  lemma {:induction false} TotalKept(m: map<string, nat>, gone: set<string>)
    ensures Total(m - gone) == Total(m) <==> forall k | k in gone && k in m :: m[k] == 0
    decreases |gone|
  {
    if k :| k in gone {
      var fewer := gone - {k};
      TotalKept(m, fewer);
      TotalShrinks(m, fewer);
      if k in m {
        TotalRemove(m - fewer, k);
        assert m - fewer - {k} == m - gone;
      } else {
        assert m - fewer == m - gone;
      }
    } else {
      assert m - gone == m;
    }
  }
}
