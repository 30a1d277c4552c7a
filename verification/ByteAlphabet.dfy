// The reversible map from bytes to visible characters (python/xecuda/tokenizer.py, bytes_to_unicode).
module ByteAlphabet {

  const BYTES: nat := 256

  predicate Visible(b: nat) {
    33 <= b <= 126 || 161 <= b <= 172 || 174 <= b <= 255
  }

  // How many bytes below b are not visible.
  function Hidden(b: nat): (n: nat)
    ensures n <= b
  {
    if b == 0 then 0 else Hidden(b - 1) + if Visible(b - 1) then 0 else 1
  }

  function ByteChar(b: nat): nat {
    if Visible(b) then b else BYTES + Hidden(b)
  }

  lemma {:induction false} HiddenGrows(a: nat, b: nat)
    requires a <= b
    ensures Hidden(a) <= Hidden(b)
    ensures a < b && !Visible(a) ==> Hidden(a) < Hidden(b)
  {
    if a < b { HiddenGrows(a, b - 1); }
  }

  // Different bytes have different characters.
  lemma ByteCharInjective(a: nat, b: nat)
    requires a < BYTES && b < BYTES && ByteChar(a) == ByteChar(b)
    ensures a == b
  {
    if a < b { HiddenGrows(a, b); } else { HiddenGrows(b, a); }
  }

  // There are 68 hidden bytes, so no character lies past 323.
  lemma HiddenTotal(a: nat, b: nat, c: nat, d: nat, e: nat, f: nat)
    requires a == 33 && b == 127 && c == 161 && d == 173 && e == 174 && f == BYTES
    ensures Hidden(f) == 68
  {
    HiddenFlat(0, a, false);
    HiddenFlat(a, b, true);
    HiddenFlat(b, c, false);
    HiddenFlat(c, d, true);
    HiddenFlat(d, e, false);
    HiddenFlat(e, f, true);
  }

  lemma {:induction false} HiddenFlat(a: nat, b: nat, visible: bool)
    requires a <= b && forall k :: a <= k < b ==> (Visible(k) <==> visible)
    ensures Hidden(b) == Hidden(a) + if visible then 0 else b - a
  {
    if a < b { HiddenFlat(a, b - 1, visible); }
  }

  lemma HiddenLow(x: nat, y: nat)
    requires x == 33 && y == 127
    ensures Hidden(y) == 33
  {
    HiddenFlat(0, x, false);
    HiddenFlat(x, y, true);
  }

  lemma HiddenMiddle(y: nat, z: nat, e: nat)
    requires y == 127 && z == 161 && e == 173
    ensures Hidden(e) == 67
  {
    HiddenLow(33, y);
    HiddenFlat(y, z, false);
    HiddenFlat(z, e, true);
  }

  // The character of every byte: the hidden ones are numbered from 256 in order.
  lemma ByteCharTable(b: nat)
    requires b < BYTES
    ensures ByteChar(b) == if b <= 32 then 256 + b else if 127 <= b <= 160 then 289 + (b - 127) else if b == 173 then 323 else b
  {
    hide Hidden;
    if b <= 32 {
      HiddenFlat(0, b, false);
      NoneHidden(0);
    } else if 127 <= b <= 160 {
      HiddenLow(33, 127);
      HiddenFlat(127, b, false);
    } else if b == 173 {
      HiddenMiddle(127, 161, 173);
    }
  }

  lemma NoneHidden(b: nat)
    requires b == 0
    ensures Hidden(b) == 0
  {
  }

  // The characters that bytes can become.
  predicate InAlphabet(c: nat) {
    Visible(c) || BYTES <= c < BYTES + 68
  }

  lemma ByteCharInAlphabet(b: nat)
    requires b < BYTES
    ensures InAlphabet(ByteChar(b))
  {
    var end := BYTES;
    HiddenTotal(33, 127, 161, 173, 174, end);
    HiddenGrows(b, end);
  }

  function Interval(lo: nat, hi: nat): (r: seq<nat>)
    requires lo <= hi
    ensures |r| == hi - lo && forall k :: 0 <= k < |r| ==> r[k] == lo + k
  {
    seq(hi - lo, (k: nat) => lo + k)
  }

  // The lists that the source zips: bytes with their characters, one byte at a time.
  ghost predicate Listed(bs: seq<nat>, cs: seq<nat>, b: nat) {
    && |bs| == |cs|
    && (forall k :: 0 <= k < |bs| ==> bs[k] < BYTES && cs[k] == ByteChar(bs[k]))
    && (forall x: nat :: x < BYTES && (Visible(x) || x < b) ==> x in bs)
    && (forall k :: 0 <= k < |bs| ==> Visible(bs[k]) || bs[k] < b)
  }

  method BytesToUnicode() returns (m: map<nat, nat>)
    ensures forall b: nat :: b in m <==> b < BYTES
    ensures forall b: nat :: b < BYTES ==> m[b] == ByteChar(b)
  {
    var bs: seq<nat> := Interval(33, 127) + Interval(161, 173) + Interval(174, 256);
    VisibleListed(bs);
    var all, cs := AddHidden(bs, bs);
    m := Zip(all, cs);
  }

  // for b in range(256): if b not in bs: append it, with the next character
  method AddHidden(visible: seq<nat>, chars: seq<nat>) returns (bs: seq<nat>, cs: seq<nat>)
    requires Listed(visible, chars, 0)
    ensures Listed(bs, cs, BYTES)
  {
    bs, cs := visible, chars;
    var n := 0;
    for b := 0 to BYTES
      invariant n == Hidden(b) && Listed(bs, cs, b)
    {
      ListByte(bs, cs, b);
      if b !in bs {
        bs := bs + [b];
        cs := cs + [BYTES + n];
        n := n + 1;
      }
    }
  }

  lemma ListByte(bs: seq<nat>, cs: seq<nat>, b: nat)
    requires Listed(bs, cs, b) && b < BYTES
    ensures b in bs <==> Visible(b)
    ensures if b in bs then Listed(bs, cs, b + 1) else Listed(bs + [b], cs + [BYTES + Hidden(b)], b + 1)
  {
    if b !in bs {
      forall x: nat | x < BYTES && (Visible(x) || x < b + 1) ensures x in bs + [b] {
        if x != b { assert x in bs; }
      }
    }
  }

  lemma VisibleListed(bs: seq<nat>)
    requires bs == Interval(33, 127) + Interval(161, 173) + Interval(174, 256)
    ensures Listed(bs, bs, 0)
  {
    forall x: nat | x < BYTES && Visible(x) ensures x in bs {
      if x <= 126 { assert bs[x - 33] == x; }
      else if x <= 172 { assert bs[94 + (x - 161)] == x; }
      else { assert bs[106 + (x - 174)] == x; }
    }
  }

  method Zip(bs: seq<nat>, cs: seq<nat>) returns (m: map<nat, nat>)
    requires Listed(bs, cs, BYTES)
    ensures forall b: nat :: b in m <==> b < BYTES
    ensures forall b: nat :: b < BYTES ==> m[b] == ByteChar(b)
  {
    hide Hidden, ByteChar;
    m := map[];
    for k := 0 to |bs|
      invariant forall b :: b in m <==> b in bs[..k]
      invariant forall b :: b in m ==> b < BYTES && m[b] == ByteChar(b)
    {
      m := m[bs[k] := cs[k]];
    }
    assert bs[..|bs|] == bs;
  }

  // The inverse table.
  method Invert(m: map<nat, nat>) returns (d: map<nat, nat>)
    requires forall b: nat :: b in m <==> b < BYTES
    requires forall b: nat :: b < BYTES ==> m[b] == ByteChar(b)
    ensures forall b: nat :: b < BYTES ==> ByteChar(b) in d && d[ByteChar(b)] == b
    ensures forall c :: c in d ==> exists b: nat :: b < BYTES && ByteChar(b) == c
  {
    d := map[];
    for b := 0 to BYTES
      invariant forall a: nat :: a < b ==> ByteChar(a) in d && d[ByteChar(a)] == a
      invariant forall c :: c in d ==> exists a: nat :: a < b && ByteChar(a) == c
    {
      ghost var before := d;
      d := d[m[b] := b];
      forall a: nat | a < b + 1 ensures ByteChar(a) in d && d[ByteChar(a)] == a {
        if a < b && ByteChar(a) == ByteChar(b) { ByteCharInjective(a, b); }
      }
      forall c | c in d ensures exists a: nat :: a < b + 1 && ByteChar(a) == c {
        if c != ByteChar(b) { assert c in before; }
      }
    }
  }
}
