// Numbers in mixed radix, least significant digit first.
module MixedRadix {
  import opened Division

  ghost predicate Positive(r: seq<nat>) {
    forall k :: 0 <= k < |r| ==> r[k] > 0
  }

  function Product(r: seq<nat>): nat {
    if r == [] then 1 else r[0] * Product(r[1..])
  }

  function Digits(n: nat, r: seq<nat>): (d: seq<nat>)
    ensures |d| == |r|
    decreases |r|
  {
    if r == [] then [] else [Low(n, r[0])] + Digits(High(n, r[0]), r[1..])
  }

  function Low(n: nat, a: nat): nat {
    if a == 0 then 0 else n % a
  }

  function High(n: nat, a: nat): nat {
    if a == 0 then 0 else n / a
  }

  lemma Rebuild(n: nat, a: nat)
    requires a > 0
    ensures Low(n, a) < a && n == Low(n, a) + a * High(n, a)
  {
    assert n == n / a * a + n % a;
  }

  lemma {:induction false} DigitsInRange(n: nat, r: seq<nat>)
    requires Positive(r)
    ensures InRange(Digits(n, r), r)
    decreases |r|
  {
    if r != [] {
      Tail(r);
      Rebuild(n, r[0]);
      DigitsInRange(High(n, r[0]), r[1..]);
      var d := Digits(n, r);
      forall k | 0 <= k < |r| ensures d[k] < r[k] {
        if k > 0 { assert d[k] == Digits(High(n, r[0]), r[1..])[k - 1] && r[k] == r[1..][k - 1]; }
      }
    }
  }

  function Compose(d: seq<nat>, r: seq<nat>): nat
    requires |d| == |r|
  {
    if r == [] then 0 else d[0] + r[0] * Compose(d[1..], r[1..])
  }

  ghost predicate InRange(d: seq<nat>, r: seq<nat>) {
    |d| == |r| && forall k :: 0 <= k < |r| ==> d[k] < r[k]
  }

  lemma Tail(r: seq<nat>)
    requires r != [] && Positive(r)
    ensures r[0] > 0 && Positive(r[1..])
  {
  }

  lemma {:induction false} ProductSnoc(r: seq<nat>, x: nat)
    ensures Product(r + [x]) == Product(r) * x
  {
    if r == [] {
      assert [x][1..] == [];
    } else {
      assert (r + [x])[1..] == r[1..] + [x];
      ProductSnoc(r[1..], x);
      assert r[0] * (Product(r[1..]) * x) == r[0] * Product(r[1..]) * x;
    }
  }

  lemma PositiveProduct(a: nat, b: nat)
    requires a > 0 && b > 0
    ensures a * b > 0
  {
  }

  lemma DivideOnce(n: nat, a: nat, b: nat)
    requires a > 0 && n < a * b
    ensures High(n, a) < b
  {
    Rebuild(n, a);
    var q := High(n, a);
    if q >= b {
      Widen(b, q, a);
    }
  }

  lemma {:induction false} ComposeDigits(n: nat, r: seq<nat>)
    requires Positive(r) && n < Product(r)
    ensures Compose(Digits(n, r), r) == n
    decreases |r|
  {
    if r != [] {
      Tail(r);
      DivideOnce(n, r[0], Product(r[1..]));
      ComposeDigits(High(n, r[0]), r[1..]);
      Rebuild(n, r[0]);
      ComposeCons(Low(n, r[0]), Digits(High(n, r[0]), r[1..]), r, High(n, r[0]));
    }
  }

  lemma ComposeCons(x: nat, rest: seq<nat>, r: seq<nat>, m: nat)
    requires r != [] && |rest| == |r| - 1 && Compose(rest, r[1..]) == m
    ensures Compose([x] + rest, r) == x + r[0] * m
  {
    assert ([x] + rest)[1..] == rest;
  }

  lemma Bounded(d: nat, a: nat, m: nat, b: nat)
    requires d < a && m < b
    ensures d + a * m < a * b
  {
    NextMultiple(m, b, a);
    assert a * m == m * a && a * b == b * a;
  }

  lemma Parts(x: nat, m: nat, a: nat)
    requires x < a
    ensures Low(x + a * m, a) == x && High(x + a * m, a) == m
  {
    assert x + a * m == m * a + x;
    DivMod(m, x, a);
  }

  lemma {:induction false} DigitsCompose(d: seq<nat>, r: seq<nat>)
    requires Positive(r) && InRange(d, r)
    ensures Compose(d, r) < Product(r) && Digits(Compose(d, r), r) == d
  {
    if r != [] {
      Tail(r);
      assert forall k :: 0 <= k < |r[1..]| ==> d[1..][k] == d[k + 1] && r[1..][k] == r[k + 1];
      DigitsCompose(d[1..], r[1..]);
      var m := Compose(d[1..], r[1..]);
      Bounded(d[0], r[0], m, Product(r[1..]));
      Parts(d[0], m, r[0]);
      assert d == [d[0]] + d[1..];
    }
  }

  // ---- the digit formula ---------------------------------------------------------------------

  lemma DivideTwice(n: nat, a: nat, b: nat)
    requires a > 0 && b > 0
    ensures a * b > 0 && n / (a * b) == High(n, a) / b
  {
    PositiveProduct(a, b);
    var q, r := High(n, a), Low(n, a);
    var s, t := High(q, b), Low(q, b);
    Rebuild(n, a);
    Rebuild(q, b);
    Regroup(s, b, t, a, r);
    Bounded(r, a, t, b);
    DivMod(s, t * a + r, a * b);
  }

  lemma Regroup(s: nat, b: nat, t: nat, a: nat, r: nat)
    ensures r + a * (t + b * s) == s * (a * b) + (t * a + r) && t * a + r == r + a * t
  {
    assert a * (t + b * s) == a * t + a * (b * s);
    assert a * (b * s) == s * (a * b);
  }

  // Digit k is the number divided by the product of the radices before it.
  lemma {:induction false} DigitAt(n: nat, r: seq<nat>, k: nat)
    requires Positive(r) && k < |r|
    ensures Product(r[..k]) > 0 && Digits(n, r)[k] == n / Product(r[..k]) % r[k]
    decreases |r|
  {
    Tail(r);
    if k == 0 {
      assert r[..0] == [];
    } else {
      var q := High(n, r[0]);
      var p := Product(r[1..][..k - 1]);
      DigitAt(q, r[1..], k - 1);
      assert r[..k][1..] == r[1..][..k - 1];
      DivideTwice(n, r[0], p);
      assert Product(r[..k]) == r[0] * p;
      assert Digits(n, r)[k] == Digits(q, r[1..])[k - 1];
    }
  }
}
