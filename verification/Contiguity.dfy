// Contiguous tensors are flat (tools/ref/ggml.c, ggml_is_contiguous, ggml_unravel_index and
// ggml_nbytes).  A type stores its elements in blocks of blck.
module Contiguity {
  import opened Division
  import opened MixedRadix

  // Extents and byte strides of the four dimensions, and the size of an element.
  datatype Layout = Layout(ne: seq<nat>, nb: seq<nat>, size: nat)

  ghost predicate LayoutOk(t: Layout) {
    |t.ne| == 4 && |t.nb| == 4 && Positive(t.ne)
  }

  // The stride of each dimension is the extent of those below it, unless it has one entry.
  ghost predicate Contiguous(t: Layout)
    requires |t.ne| == 4 && |t.nb| == 4
  {
    forall k :: 0 <= k < 4 ==> t.ne[k] == 1 || t.nb[k] == t.size * Product(t.ne[..k])
  }

  // The same for blocks of blck elements along the fastest dimension, size bytes each.
  ghost predicate ContiguousBlocks(t: Layout, blck: nat)
    requires |t.ne| == 4 && |t.nb| == 4 && blck > 0
  {
    && (t.ne[0] == blck || t.nb[0] == t.size)
    && forall k :: 1 <= k < 4 ==> t.ne[k] == 1 || t.nb[k] == t.size * Product([t.ne[0] / blck] + t.ne[1..k])
  }

  lemma BlocksOfOne(t: Layout)
    requires |t.ne| == 4 && |t.nb| == 4
    ensures ContiguousBlocks(t, 1) <==> Contiguous(t)
  {
    assert t.ne[..0] == [];
    forall k | 1 <= k < 4 ensures [t.ne[0] / 1] + t.ne[1..k] == t.ne[..k] {
      assert t.ne[..k] == [t.ne[0]] + t.ne[1..k];
    }
  }

  // The source's loop, with m == 0 and n == 4.
  method IsContiguous(t: Layout, blck: nat) returns (r: bool)
    requires |t.ne| == 4 && |t.nb| == 4 && blck > 0
    ensures r <==> ContiguousBlocks(t, blck)
    ensures blck == 1 ==> (r <==> Contiguous(t))
  {
    BlocksOfOne(t);
    var nextNb := t.size;
    if t.ne[0] != blck && t.nb[0] != nextNb {
      return false;
    }
    nextNb := nextNb * (t.ne[0] / blck);
    FirstStride(t, blck);
    for i := 1 to 4
      invariant nextNb == t.size * Product([t.ne[0] / blck] + t.ne[1..i])
      invariant forall k :: 1 <= k < i ==> t.ne[k] == 1 || t.nb[k] == t.size * Product([t.ne[0] / blck] + t.ne[1..k])
    {
      if t.ne[i] != 1 && t.nb[i] != nextNb {
        return false;
      }
      NextStride(t, blck, i, nextNb);
      nextNb := nextNb * t.ne[i];
    }
    return true;
  }

  lemma FirstStride(t: Layout, blck: nat)
    requires |t.ne| == 4 && blck > 0
    ensures t.size * (t.ne[0] / blck) == t.size * Product([t.ne[0] / blck] + t.ne[1..1])
  {
    var first := [t.ne[0] / blck];
    assert first + t.ne[1..1] == first && first[1..] == [];
  }

  lemma NextStride(t: Layout, blck: nat, i: nat, nextNb: nat)
    requires 1 <= i < |t.ne| && blck > 0 && nextNb == t.size * Product([t.ne[0] / blck] + t.ne[1..i])
    ensures nextNb * t.ne[i] == t.size * Product([t.ne[0] / blck] + t.ne[1..i + 1])
  {
    var first: nat := t.ne[0] / blck;
    var below: seq<nat> := [first] + t.ne[1..i];
    assert [t.ne[0] / blck] + t.ne[1..i + 1] == below + [t.ne[i]];
    ProductSnoc(below, t.ne[i]);
    assert t.size * Product(below) * t.ne[i] == t.size * (Product(below) * t.ne[i]);
  }

  // ---- unravelling ---------------------------------------------------------------------------

  // ggml_unravel_index, by division and subtraction from the slowest dimension down.
  method Unravel(t: Layout, i: nat) returns (i0: int, i1: int, i2: int, i3: int)
    requires LayoutOk(t)
    ensures i < Product(t.ne) ==> [i0, i1, i2, i3] == Digits(i, t.ne)
  {
    var ne0, ne1, ne2 := t.ne[0], t.ne[1], t.ne[2];
    ProductsPositive(ne0, ne1, ne2);
    i3 := i / (ne2 * ne1 * ne0);
    i2 := (i - i3 * ne2 * ne1 * ne0) / (ne1 * ne0);
    i1 := (i - i3 * ne2 * ne1 * ne0 - i2 * ne1 * ne0) / ne0;
    i0 := i - i3 * ne2 * ne1 * ne0 - i2 * ne1 * ne0 - i1 * ne0;
    if i < Product(t.ne) { UnravelIsDigits(i, t.ne); }
  }

  lemma ProductsPositive(a: nat, b: nat, c: nat)
    requires a > 0 && b > 0 && c > 0
    ensures b * a > 0 && c * b * a > 0
  {
    PositiveProduct(b, a);
    PositiveProduct(c, b);
    PositiveProduct(c * b, a);
  }

  function UnravelFrom(i: int, ne0: nat, ne1: nat, ne2: nat): seq<int>
    requires ne0 > 0 && ne1 > 0 && ne2 > 0
  {
    ProductsPositive(ne0, ne1, ne2);
    var i3 := i / (ne2 * ne1 * ne0);
    var i2 := (i - i3 * ne2 * ne1 * ne0) / (ne1 * ne0);
    var i1 := (i - i3 * ne2 * ne1 * ne0 - i2 * ne1 * ne0) / ne0;
    var i0 := i - i3 * ne2 * ne1 * ne0 - i2 * ne1 * ne0 - i1 * ne0;
    [i0, i1, i2, i3]
  }

  lemma LastDigit(i: nat, p: nat)
    requires p > 0
    ensures i - i / p * p == i % p && 0 <= i % p < p
  {
    assert i == i / p * p + i % p;
  }

  lemma Remainder(i: nat, p: nat) returns (q: nat, r: nat)
    requires p > 0
    ensures q == i / p && r == i - q * p && r < p && i == q * p + r
  {
    q, r := i / p, i % p;
    LastDigit(i, p);
  }

  // Subtracting whole blocks leaves remainders.
  lemma UnravelParts(i: nat, a: nat, b: nat, c: nat) returns (i0: nat, i1: nat, i2: nat, i3: nat)
    requires a > 0 && b > 0 && c > 0
    ensures UnravelFrom(i, a, b, c) == [i0, i1, i2, i3]
    ensures i0 < a && i1 * a + i0 < b * a && i2 * (b * a) + (i1 * a + i0) < c * b * a
    ensures i == i3 * (c * b * a) + i2 * (b * a) + i1 * a + i0
  {
    ProductsPositive(a, b, c);
    var r3, r2;
    i3, r3 := Remainder(i, c * b * a);
    i2, r2 := Remainder(r3, b * a);
    i1, i0 := Remainder(r2, a);
    SameProducts(i3, i2, a, b, c);
  }

  lemma SameProducts(i3: nat, i2: nat, a: nat, b: nat, c: nat)
    ensures i3 * c * b * a == i3 * (c * b * a) && i2 * b * a == i2 * (b * a)
  {
  }

  lemma Below(q: nat, r: nat, w: nat, n: nat)
    requires q * w + r < n * w
    ensures q < n
  {
    if q >= n { Widen(n, q, w); }
  }

  lemma Nested(i0: nat, i1: nat, i2: nat, i3: nat, a: nat, b: nat, c: nat)
    ensures i3 * (c * b * a) + i2 * (b * a) + i1 * a + i0 == i0 + a * (i1 + b * (i2 + c * i3))
  {
    assert b * (i2 + c * i3) == b * i2 + b * (c * i3);
    assert a * (i1 + b * (i2 + c * i3)) == a * i1 + a * (b * i2 + b * (c * i3));
    assert a * (b * i2 + b * (c * i3)) == a * (b * i2) + a * (b * (c * i3));
    assert a * (b * i2) == i2 * (b * a);
    assert a * (b * (c * i3)) == i3 * (c * b * a);
  }

  lemma ComposeFour(d: seq<nat>, r: seq<nat>)
    requires |d| == 4 && |r| == 4
    ensures Compose(d, r) == d[0] + r[0] * (d[1] + r[1] * (d[2] + r[2] * d[3]))
  {
    var d1, r1 := d[1..], r[1..];
    var d2, r2 := d1[1..], r1[1..];
    var d3, r3 := d2[1..], r2[1..];
    assert Compose(d3, r3) == d3[0] + r3[0] * Compose(d3[1..], r3[1..]);
    assert d3[1..] == [] && r3[1..] == [];
    assert Compose(d3, r3) == d[3];
    assert Compose(d2, r2) == d[2] + r[2] * d[3];
    assert Compose(d1, r1) == d[1] + r[1] * (d[2] + r[2] * d[3]);
  }

  lemma ProductFour(r: seq<nat>)
    requires |r| == 4
    ensures Product(r) == r[0] * (r[1] * (r[2] * r[3]))
  {
    var r1 := r[1..];
    var r2 := r1[1..];
    var r3 := r2[1..];
    assert r3[1..] == [];
    assert r3[0] == r[3] && r2[0] == r[2] && r1[0] == r[1];
    assert Product(r3) == r3[0] * Product(r3[1..]);
    assert Product(r2) == r2[0] * Product(r3);
    assert Product(r1) == r1[0] * Product(r2);
  }

  lemma SlowestBelow(rest: nat, i3: nat, a: nat, b: nat, c: nat, d: nat)
    requires i3 * (c * b * a) + rest < a * (b * (c * d))
    ensures i3 < d
  {
    assert a * (b * (c * d)) == d * (c * b * a);
    Below(i3, rest, c * b * a, d);
  }

  // For every index of a tensor, the source's unravelling gives its mixed-radix digits.
  lemma UnravelIsDigits(i: nat, r: seq<nat>)
    requires |r| == 4 && Positive(r) && i < Product(r)
    ensures r[0] > 0 && r[1] > 0 && r[2] > 0 && UnravelFrom(i, r[0], r[1], r[2]) == Digits(i, r)
  {
    var a, b, c := r[0], r[1], r[2];
    var i0, i1, i2, i3 := UnravelParts(i, a, b, c);
    Below(i1, i0, a, b);
    Below(i2, i1 * a + i0, b * a, c);
    ProductFour(r);
    SlowestBelow(i2 * (b * a) + i1 * a + i0, i3, a, b, c, r[3]);
    Nested(i0, i1, i2, i3, a, b, c);
    var d: seq<nat> := [i0, i1, i2, i3];
    ComposeFour(d, r);
    DigitsCompose(d, r);
  }

  // ---- addresses ---------------------------------------------------------------------------------

  // The byte offset of the element at the given coordinates.
  function Offset(t: Layout, d: seq<nat>): nat
    requires |t.nb| == 4 && |d| == 4
  {
    d[0] * t.nb[0] + d[1] * t.nb[1] + d[2] * t.nb[2] + d[3] * t.nb[3]
  }

  lemma PrefixFour(r: seq<nat>)
    requires |r| == 4
    ensures Product(r[..0]) == 1 && Product(r[..1]) == r[0] && Product(r[..2]) == r[0] * r[1] && Product(r[..3]) == r[0] * r[1] * r[2]
  {
    assert r[..0] == [] && r[..1] == [] + [r[0]] && r[..2] == r[..1] + [r[1]] && r[..3] == r[..2] + [r[2]];
    ProductSnoc([], r[0]);
    ProductSnoc(r[..1], r[1]);
    ProductSnoc(r[..2], r[2]);
  }

  lemma TermIsScaled(x: nat, nb: nat, ne: nat, stride: nat)
    requires x < ne && (ne == 1 || nb == stride)
    ensures x * nb == x * stride
  {
  }

  lemma ScaledSum(size: nat, d0: nat, d1: nat, d2: nat, d3: nat, a: nat, b: nat, c: nat)
    ensures d0 * size + d1 * (size * a) + d2 * (size * (a * b)) + d3 * (size * (a * b * c)) == size * (d0 + a * (d1 + b * (d2 + c * d3)))
  {
    Nested(d0, d1, d2, d3, a, b, c);
    assert d1 * (size * a) == size * (d1 * a);
    assert d2 * (size * (a * b)) == size * (d2 * (b * a));
    assert d3 * (size * (a * b * c)) == size * (d3 * (c * b * a));
    assert size * (d3 * (c * b * a) + d2 * (b * a) + d1 * a + d0)
        == size * (d3 * (c * b * a)) + size * (d2 * (b * a)) + size * (d1 * a) + size * d0;
  }

  lemma OffsetScales(t: Layout, d: seq<nat>)
    requires LayoutOk(t) && Contiguous(t) && InRange(d, t.ne)
    ensures Offset(t, d) == t.size * Compose(d, t.ne)
  {
    PrefixFour(t.ne);
    ComposeFour(d, t.ne);
    TermIsScaled(d[0], t.nb[0], t.ne[0], t.size);
    TermIsScaled(d[1], t.nb[1], t.ne[1], t.size * t.ne[0]);
    TermIsScaled(d[2], t.nb[2], t.ne[2], t.size * (t.ne[0] * t.ne[1]));
    TermIsScaled(d[3], t.nb[3], t.ne[3], t.size * (t.ne[0] * t.ne[1] * t.ne[2]));
    ScaledSum(t.size, d[0], d[1], d[2], d[3], t.ne[0], t.ne[1], t.ne[2]);
  }

  // Element i lies at i times the element size.
  ghost predicate FlatAt(t: Layout, i: nat)
    requires LayoutOk(t)
  {
    Offset(t, Digits(i, t.ne)) == i * t.size
  }

  // The coordinates with one in dimension k.
  function Unit(k: nat): (d: seq<nat>)
    requires k < 4
    ensures |d| == 4
  {
    [0, 0, 0, 0][k := 1]
  }

  lemma UnitOffset(t: Layout, k: nat)
    requires |t.nb| == 4 && k < 4
    ensures Offset(t, Unit(k)) == t.nb[k]
  {
  }

  lemma UnitIndex(r: seq<nat>, k: nat)
    requires |r| == 4 && k < 4
    ensures Compose(Unit(k), r) == Product(r[..k])
  {
    ComposeFour(Unit(k), r);
    PrefixFour(r);
    UnitNested(k, r[0], r[1], r[2]);
  }

  lemma UnitNested(k: nat, a: nat, b: nat, c: nat)
    requires k < 4
    ensures var d := Unit(k); d[0] + a * (d[1] + b * (d[2] + c * d[3])) == if k == 0 then 1 else if k == 1 then a else if k == 2 then a * b else a * b * c
  {
    if k == 3 { assert a * (b * c) == a * b * c; }
  }

  lemma StrideForced(t: Layout, k: nat)
    requires LayoutOk(t) && k < 4 && t.ne[k] != 1 && forall i: nat :: i < Product(t.ne) ==> FlatAt(t, i)
    ensures t.nb[k] == t.size * Product(t.ne[..k])
  {
    DigitsCompose(Unit(k), t.ne);
    UnitIndex(t.ne, k);
    UnitOffset(t, k);
    assert FlatAt(t, Product(t.ne[..k]));
    assert t.size * Product(t.ne[..k]) == Product(t.ne[..k]) * t.size;
  }

  // A tensor passes the contiguity test exactly when every element lies at its index times the
  // element size; dimensions with one entry may have any stride.
  lemma ContiguousMeansFlat(t: Layout)
    requires LayoutOk(t)
    ensures Contiguous(t) <==> forall i: nat :: i < Product(t.ne) ==> FlatAt(t, i)
  {
    if Contiguous(t) {
      forall i: nat | i < Product(t.ne) ensures FlatAt(t, i) {
        DigitsInRange(i, t.ne);
        ComposeDigits(i, t.ne);
        OffsetScales(t, Digits(i, t.ne));
        assert t.size * i == i * t.size;
      }
    }
    if forall i: nat :: i < Product(t.ne) ==> FlatAt(t, i) {
      forall k | 0 <= k < 4 ensures t.ne[k] == 1 || t.nb[k] == t.size * Product(t.ne[..k]) {
        if t.ne[k] != 1 { StrideForced(t, k); }
      }
    }
  }

  // ---- sizes ------------------------------------------------------------------------------------------

  // Extents are signed; a tensor with an extent that is not positive has no bytes.
  method NBytes(ne: seq<int>, nb: seq<nat>, size: nat, blck: nat) returns (n: nat)
    requires |ne| == 4 && |nb| == 4 && blck > 0
    ensures (exists k :: 0 <= k < 4 && ne[k] <= 0) ==> n == 0
    ensures (forall k :: 0 <= k < 4 ==> ne[k] > 0) ==> n == Extent(Layout(ne, nb, size), blck)
  {
    for i := 0 to 4
      invariant forall k :: 0 <= k < i ==> ne[k] > 0
    {
      if ne[i] <= 0 {
        return 0;
      }
    }
    n := SumExtents(Layout(ne, nb, size), blck);
  }

  // Up to the end of the last element, or of the last row of blocks.
  function Extent(t: Layout, blck: nat): nat
    requires |t.ne| == 4 && |t.nb| == 4 && blck > 0
  {
    if blck == 1 then t.size + Offset(t, Last(t.ne)) else t.ne[0] * t.nb[0] / blck + Offset(t, Last(t.ne)[0 := 0])
  }

  method SumExtents(t: Layout, blck: nat) returns (n: nat)
    requires LayoutOk(t) && blck > 0
    ensures n == Extent(t, blck)
  {
    if blck == 1 {
      n := t.size;
      for i := 0 to 4
        invariant n == t.size + PartialOffset(t, Last(t.ne), i)
      {
        n := n + (t.ne[i] - 1) * t.nb[i];
      }
      PartialFour(t, Last(t.ne));
    } else {
      n := t.ne[0] * t.nb[0] / blck;
      ghost var d := Last(t.ne)[0 := 0];
      for i := 1 to 4
        invariant n == t.ne[0] * t.nb[0] / blck + PartialOffset(t, d, i)
      {
        n := n + (t.ne[i] - 1) * t.nb[i];
      }
      PartialFour(t, d);
    }
  }

  function PartialOffset(t: Layout, d: seq<nat>, n: nat): nat
    requires |t.nb| == 4 && |d| == 4 && n <= 4
  {
    if n == 0 then 0 else PartialOffset(t, d, n - 1) + d[n - 1] * t.nb[n - 1]
  }

  lemma PartialFour(t: Layout, d: seq<nat>)
    requires |t.nb| == 4 && |d| == 4
    ensures PartialOffset(t, d, 4) == Offset(t, d)
  {
    assert PartialOffset(t, d, 1) == PartialOffset(t, d, 0) + d[0] * t.nb[0];
    assert PartialOffset(t, d, 2) == PartialOffset(t, d, 1) + d[1] * t.nb[1];
    assert PartialOffset(t, d, 3) == PartialOffset(t, d, 2) + d[2] * t.nb[2];
  }

  // The coordinates of the last element.
  function Last(r: seq<nat>): (d: seq<nat>)
    ensures |d| == |r| && forall k :: 0 <= k < |r| ==> d[k] == if r[k] > 0 then r[k] - 1 else 0
  {
    seq(|r|, k requires 0 <= k < |r| => if r[k] > 0 then r[k] - 1 else 0)
  }

  lemma {:induction false} LastIndex(r: seq<nat>)
    requires Positive(r)
    ensures Compose(Last(r), r) + 1 == Product(r)
  {
    if r != [] {
      Tail(r);
      LastIndex(r[1..]);
      assert Last(r)[1..] == Last(r[1..]);
      WholePeriod(r[0], Compose(Last(r[1..]), r[1..]));
    }
  }

  lemma WholePeriod(a: nat, m: nat)
    requires a > 0
    ensures (a - 1) + a * m + 1 == a * (m + 1)
  {
  }

  // The bytes of a non-empty contiguous tensor are its elements' bytes.
  lemma ContiguousBytes(t: Layout)
    requires LayoutOk(t) && Contiguous(t)
    ensures t.size + Offset(t, Last(t.ne)) == Product(t.ne) * t.size
  {
    OffsetScales(t, Last(t.ne));
    LastIndex(t.ne);
    OneMore(t.size, Compose(Last(t.ne), t.ne), Product(t.ne), Offset(t, Last(t.ne)));
  }

  lemma OneMore(size: nat, m: nat, p: nat, offset: nat)
    requires p == m + 1 && offset == size * m
    ensures size + offset == p * size
  {
  }
}
