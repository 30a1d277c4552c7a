// Quotients and remainders of products.
module Division {

  lemma Widen(a: nat, b: nat, w: nat)
    requires a <= b
    ensures a * w <= b * w
  {
  }

  lemma NextMultiple(a: nat, b: nat, w: nat)
    requires a < b
    ensures a * w + w <= b * w
  {
    assert (a + 1) * w == a * w + w;
    Widen(a + 1, b, w);
  }

  lemma DivMod(q: nat, r: nat, w: nat)
    requires r < w
    ensures (q * w + r) / w == q && (q * w + r) % w == r
  {
    var h, t := (q * w + r) / w, (q * w + r) % w;
    assert h * w + t == q * w + r;
    if h < q { NextMultiple(h, q, w); }
    if h > q { NextMultiple(q, h, w); }
  }

  lemma AddDivisor(i: nat, w: nat)
    requires w > 0
    ensures (i + w) % w == i % w && (i + w) / w == i / w + 1
  {
    assert i + w == (i / w + 1) * w + i % w by { assert (i / w + 1) * w == i / w * w + w; }
    DivMod(i / w + 1, i % w, w);
  }

  // Within one period no other index has the same remainder.
  lemma OtherRemainder(i: nat, k: nat, w: nat)
    requires w > 0 && i < k < i + w
    ensures k % w != i % w
  {
    var a, b := i / w, k / w;
    assert i == a * w + i % w && k == b * w + k % w;
    if k % w == i % w {
      if a < b { NextMultiple(a, b, w); } else { Widen(b, a, w); }
    }
  }
}
