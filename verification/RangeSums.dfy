// Sums of a function over intervals.
module RangeSums {

  function Sum(f: nat -> real, a: nat, k: nat): real {
    if k == 0 then 0.0 else Sum(f, a, k - 1) + f(a + (k - 1))
  }

  lemma {:induction false} SumSplit(f: nat -> real, a: nat, j: nat, k: nat)
    ensures Sum(f, a, j + k) == Sum(f, a, j) + Sum(f, a + j, k)
  {
    if k > 0 {
      SumSplit(f, a, j, k - 1);
      assert a + (j + k - 1) == a + j + (k - 1);
    }
  }

  lemma SumNext(f: nat -> real, a: nat, k: nat)
    ensures Sum(f, a, 0) == 0.0 && Sum(f, a, k + 1) == Sum(f, a, k) + f(a + k)
  {
  }
}
