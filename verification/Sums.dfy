/** Sums of a weight over the values of a finite map. */
module Sums {
  ghost function AnyKey<T>(m: map<nat, T>): (k: nat)
    requires |m| != 0
    ensures k in m
  {
    var k :| k in m;
    k
  }

  ghost function Total<T>(m: map<nat, T>, w: T -> nat): nat
    decreases |m|
  {
    if |m| == 0 then 0 else w(m[AnyKey(m)]) + Total(m - {AnyKey(m)}, w)
  }

  lemma Pick<T>(m: map<nat, T>, w: T -> nat) returns (j: nat)
    requires |m| != 0
    ensures j in m && |m - {j}| == |m| - 1
    ensures Total(m, w) == w(m[j]) + Total(m - {j}, w)
  {
    hide AnyKey;
    j := AnyKey(m);
    assert (m - {j}).Keys == m.Keys - {j};
  }

  /** Any one entry can be taken out of the sum. */
  lemma {:induction false} TotalSplit<T>(m: map<nat, T>, k: nat, w: T -> nat)
    requires k in m
    ensures Total(m, w) == w(m[k]) + Total(m - {k}, w)
    decreases |m|
  {
    hide Total;
    var j := Pick(m, w);
    if j != k {
      assert (m - {k}).Keys == m.Keys - {k};
      TotalSplit(m - {j}, k, w);
      TotalSplit(m - {k}, j, w);
      assert m - {j} - {k} == m - {k} - {j};
    }
  }

  lemma TotalReplace<T>(m: map<nat, T>, k: nat, v: T, w: T -> nat)
    requires k in m
    ensures Total(m[k := v], w) == Total(m, w) - w(m[k]) + w(v)
    ensures w(m[k]) <= Total(m, w)
  {
    hide Total;
    TotalSplit(m, k, w);
    TotalSplit(m[k := v], k, w);
    assert m[k := v] - {k} == m - {k};
  }

  lemma TotalInsert<T>(m: map<nat, T>, k: nat, v: T, w: T -> nat)
    requires k !in m
    ensures Total(m[k := v], w) == Total(m, w) + w(v)
  {
    hide Total;
    TotalSplit(m[k := v], k, w);
    assert m[k := v] - {k} == m;
  }

  lemma {:induction false} TotalZero<T>(m: map<nat, T>, w: T -> nat)
    requires forall k :: k in m ==> w(m[k]) == 0
    ensures Total(m, w) == 0
    decreases |m|
  {
    if |m| != 0 {
      var k := Pick(m, w);
      TotalZero(m - {k}, w);
    }
  }
}
