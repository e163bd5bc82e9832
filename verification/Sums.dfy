/** Sums over the values of a finite map; used for total balances and for packet counts. */
module Sums {

  ghost function Sum(f: map<string, int>): int
    decreases |f|
  {
    if f == map[] then 0
    else
      var k :| k in f;
      f[k] + Sum(f - {k})
  }

  /** Any key may be taken out first. */
  lemma {:induction false} SumTakeOut(f: map<string, int>, k: string)
    requires k in f
    ensures Sum(f) == f[k] + Sum(f - {k})
    decreases |f|
  {
    var j :| j in f && Sum(f) == f[j] + Sum(f - {j});
    if j != k {
      SumTakeOut(f - {j}, k);
      SumTakeOut(f - {k}, j);
      assert f - {j} - {k} == f - {k} - {j};
    }
  }

  lemma {:induction false} SumUpdate(f: map<string, int>, k: string, x: int)
    requires k in f
    ensures Sum(f[k := x]) == Sum(f) - f[k] + x
  {
    SumTakeOut(f, k);
    SumTakeOut(f[k := x], k);
    assert f[k := x] - {k} == f - {k};
  }

  lemma {:induction false} SumNonNegative(f: map<string, int>)
    requires forall k :: k in f ==> f[k] >= 0
    ensures Sum(f) >= 0
    decreases |f|
  {
    if f != map[] {
      var k :| k in f;
      SumTakeOut(f, k);
      SumNonNegative(f - {k});
    }
  }

  /** With no negative entry, no two entries together exceed the sum. */
  lemma {:induction false} SumBounds(f: map<string, int>, j: string, k: string)
    requires j in f && k in f
    requires forall i :: i in f ==> f[i] >= 0
    ensures f[j] <= Sum(f)
    ensures j != k ==> f[j] + f[k] <= Sum(f)
  {
    SumTakeOut(f, j);
    SumNonNegative(f - {j});
    if j != k {
      SumTakeOut(f - {j}, k);
      SumNonNegative(f - {j} - {k});
    }
  }
}
