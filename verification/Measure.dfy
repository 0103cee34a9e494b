// Sums over finite maps, used to bound the length of runs.
module Measure {
  ghost function Sum(m: map<nat, nat>): nat
    decreases |m|
  {
    if m == map[] then 0
    else
      var t := Pick(m);
      m[t] + Sum(m - {t})
  }

  ghost function Pick(m: map<nat, nat>): (t: nat)
    requires m != map[]
    ensures t in m
  {
    var t :| t in m;
    t
  }

  lemma {:induction false} SumSplit(m: map<nat, nat>, t: nat)
    requires t in m
    ensures Sum(m) == m[t] + Sum(m - {t})
    decreases |m|
  {
    var l := Pick(m);
    if l != t {
      SumSplit(m - {l}, t);
      SumSplit(m - {t}, l);
      assert m - {l} - {t} == m - {t} - {l};
    }
  }

  // Lowering one summand lowers the sum.
  lemma SumDrops(m: map<nat, nat>, m': map<nat, nat>, t: nat)
    requires t in m && t in m' && m' - {t} == m - {t} && m'[t] < m[t]
    ensures Sum(m') < Sum(m)
  {
    SumSplit(m, t);
    SumSplit(m', t);
  }
}
