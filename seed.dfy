/** The generated sample catalogs: `initialCourses` in `App.jsx`, `sampleCourses` in `final.js` and `t.js`. */
module Seed {
  import opened Seqs

  /** Sixteen courses in `App.jsx`, twelve in `final.js` and `t.js`. */
  const AppCount: nat := 16
  const SampleCount: nat := 12

  /** Course number `i` (from 0) gets id `i + 1` in every variant. */
  function Ids(n: nat): seq<int> {
    seq(n, i => i + 1)
  }

  /** `i % 4 === 0 ? 0 : [299, 399, 499, 699][i % 4]` */
  function AppPrice(i: nat): nat {
    if i % 4 == 0 then 0 else [299, 399, 499, 699][i % 4]
  }

  /** `i % 3 === 0 ? 0 : 499` */
  function FinalPrice(i: nat): nat {
    if i % 3 == 0 then 0 else 499
  }

  /** `i % 3 === 0 ? 0 : 399` */
  function TPrice(i: nat): nat {
    if i % 3 == 0 then 0 else 399
  }

  /** Ids are 1 to n, increasing with generation order, hence distinct. */
  lemma IdsDistinct(n: nat)
    ensures |Ids(n)| == n && NoDup(Ids(n))
    ensures forall i, j :: 0 <= i < j < n ==> Ids(n)[i] < Ids(n)[j]
    ensures forall i :: 0 <= i < n ==> 1 <= Ids(n)[i] <= n
  {
  }

  /** Every fourth course is free; the others cost 399, 499 or 699, so the table's 299 is never charged. */
  lemma AppPrices(i: nat)
    ensures AppPrice(i) == 0 <==> i % 4 == 0
    ensures AppPrice(i) != 299
    ensures AppPrice(i) in {0, 399, 499, 699}
  {
  }

  /** Every third course is free, the others cost one flat price. */
  lemma SamplePrices(i: nat)
    ensures FinalPrice(i) == 0 <==> i % 3 == 0
    ensures FinalPrice(i) != 0 ==> FinalPrice(i) == 499
    ensures TPrice(i) == 0 <==> i % 3 == 0
    ensures TPrice(i) != 0 ==> TPrice(i) == 399
  {
  }
}
