// UTF-8 as the tokenizer uses it: encoding the characters of a text (section 3 of RFC 3629), and
// decoding any bytes, where each ill-formed stretch becomes one replacement character.
module Utf8 {
  import opened Strings
  import opened ByteAlphabet

  const REPLACEMENT: nat := 0xFFFD

  predicate Scalar(c: nat) {
    c < 0xD800 || 0xE000 <= c < 0x110000
  }

  predicate IsText(t: Str) {
    forall i :: 0 <= i < |t| ==> Scalar(t[i])
  }

  function Units(c: nat): (b: Str)
    requires Scalar(c)
    ensures 1 <= |b| <= 4 && (|b| == 1 <==> c < 0x80)
  {
    if c < 0x80 then [c]
    else if c < 0x800 then [0xC0 + c / 64, 0x80 + c % 64]
    else if c < 0x10000 then [0xE0 + c / 4096, 0x80 + c / 64 % 64, 0x80 + c % 64]
    else [0xF0 + c / 262144, 0x80 + c / 4096 % 64, 0x80 + c / 64 % 64, 0x80 + c % 64]
  }

  function ToUtf8(t: Str): (b: Str)
    requires IsText(t)
  {
    if t == [] then [] else Units(t[0]) + ToUtf8(t[1..])
  }

  // ---- decoding ----------------------------------------------------------------------------------

  predicate Between(b: Str, j: nat, lo: nat, hi: nat) {
    j < |b| && lo <= b[j] <= hi
  }

  predicate Lead(x: nat) {
    0xC2 <= x <= 0xF4
  }

  // How many bytes a leading byte announces.
  function Announced(x: nat): nat {
    if x < 0xE0 then 1 else if x < 0xF0 then 2 else 3
  }

  // The bounds of the second byte exclude long forms, surrogates and what lies past the last character.
  function Low(x: nat): nat {
    if x == 0xE0 then 0xA0 else if x == 0xF0 then 0x90 else 0x80
  }

  function High(x: nat): nat {
    if x == 0xED then 0x9F else if x == 0xF4 then 0x8F else 0xBF
  }

  // How many of the announced bytes are there.
  function Follow(b: Str): (n: nat)
    requires b != []
    ensures n < |b| && n <= Announced(b[0])
  {
    var x := b[0];
    if !Between(b, 1, Low(x), High(x)) then 0
    else if x < 0xE0 || !Between(b, 2, 0x80, 0xBF) then 1
    else if x < 0xF0 || !Between(b, 3, 0x80, 0xBF) then 2
    else 3
  }

  function Value(b: Str, n: nat): nat
    requires 1 <= n <= 3 && n < |b| && b[0] >= 0xC0 && (n >= 2 ==> b[0] >= 0xE0) && (n == 3 ==> b[0] >= 0xF0)
    requires b[1] >= 0x80 && (n >= 2 ==> b[2] >= 0x80) && (n == 3 ==> b[3] >= 0x80)
  {
    if n == 1 then (b[0] - 0xC0) * 64 + (b[1] - 0x80)
    else if n == 2 then (b[0] - 0xE0) * 4096 + (b[1] - 0x80) * 64 + (b[2] - 0x80)
    else (b[0] - 0xF0) * 262144 + (b[1] - 0x80) * 4096 + (b[2] - 0x80) * 64 + (b[3] - 0x80)
  }

  datatype Step = Step(code: nat, size: nat)

  function Next(b: Str): (s: Step)
    requires b != []
    ensures 1 <= s.size <= |b|
    ensures s.size == 1 && s.code != REPLACEMENT ==> b[0] < 0x80 && s.code == b[0]
  {
    if b[0] < 0x80 then Step(b[0], 1)
    else if !Lead(b[0]) then Step(REPLACEMENT, 1)
    else if Follow(b) == Announced(b[0]) then Step(Value(b, Follow(b)), Follow(b) + 1)
    else Step(REPLACEMENT, Follow(b) + 1)
  }

  function FromUtf8(b: Str): (t: Str)
    decreases |b|
  {
    if b == [] then [] else [Next(b).code] + FromUtf8(b[Next(b).size..])
  }

  // A character starts the bytes, complete and in its only form.
  predicate Sound(b: Str)
    requires b != []
  {
    b[0] < 0x80 || (Lead(b[0]) && Follow(b) == Announced(b[0]))
  }

  // Nothing is replaced: decoding that stops at ill-formed bytes accepts them all.
  predicate WellFormed(b: Str)
    decreases |b|
  {
    b == [] || (Sound(b) && WellFormed(b[Next(b).size..]))
  }

  // ---- decoding undoes encoding ------------------------------------------------------------------

  lemma NextOfTwo(c: nat, rest: Str)
    requires 0x80 <= c < 0x800
    ensures Next(Units(c) + rest) == Step(c, 2)
  {
    var b := Units(c) + rest;
    assert b[0] == 0xC0 + c / 64 && b[1] == 0x80 + c % 64;
  }

  lemma NextOfThree(c: nat, rest: Str)
    requires 0x800 <= c < 0x10000 && Scalar(c)
    ensures Next(Units(c) + rest) == Step(c, 3)
  {
    var b := Units(c) + rest;
    var u, v := c / 4096, c / 64;
    assert b[0] == 0xE0 + u && b[1] == 0x80 + v % 64 && b[2] == 0x80 + c % 64;
    assert v / 64 == u;
    assert u * 64 + v % 64 == v;
    if u == 0 { assert v >= 32; }
    if u == 13 { assert v < 0x360; }
    assert Follow(b) == 2;
  }

  lemma NextOfFour(c: nat, rest: Str)
    requires 0x10000 <= c < 0x110000
    ensures Next(Units(c) + rest) == Step(c, 4)
  {
    var b := Units(c) + rest;
    var t, u, v := c / 262144, c / 4096, c / 64;
    assert b[0] == 0xF0 + t && b[1] == 0x80 + u % 64 && b[2] == 0x80 + v % 64 && b[3] == 0x80 + c % 64;
    assert v / 64 == u && u / 64 == t;
    assert t * 64 + u % 64 == u && u * 64 + v % 64 == v;
    if t == 0 { assert u >= 16; }
    if t == 4 { assert u < 0x110; }
    assert Follow(b) == 3;
  }

  lemma NextOfUnits(c: nat, rest: Str)
    requires Scalar(c)
    ensures Next(Units(c) + rest) == Step(c, |Units(c)|)
  {
    if c < 0x80 {
    } else if c < 0x800 {
      NextOfTwo(c, rest);
    } else if c < 0x10000 {
      NextOfThree(c, rest);
    } else {
      NextOfFour(c, rest);
    }
  }

  lemma DecodesUnits(c: nat, rest: Str)
    requires Scalar(c)
    ensures FromUtf8(Units(c) + rest) == [c] + FromUtf8(rest)
  {
    NextOfUnits(c, rest);
    assert (Units(c) + rest)[|Units(c)|..] == rest;
  }

  lemma Associates(a: Str, b: Str, c: Str)
    ensures a + b + c == a + (b + c)
  {
  }

  lemma {:induction false} DecodesText(t: Str, rest: Str)
    requires IsText(t)
    ensures FromUtf8(ToUtf8(t) + rest) == t + FromUtf8(rest)
  {
    if t == [] {
      assert ToUtf8(t) + rest == rest && t + FromUtf8(rest) == FromUtf8(rest);
    } else {
      Associates(Units(t[0]), ToUtf8(t[1..]), rest);
      DecodesUnits(t[0], ToUtf8(t[1..]) + rest);
      DecodesText(t[1..], rest);
      Associates([t[0]], t[1..], FromUtf8(rest));
      assert [t[0]] + t[1..] == t;
    }
  }

  // ---- ill-formed bytes stay apart from what follows ---------------------------------------------------

  // The bytes begin a character.
  predicate Starts(b: Str) {
    b == [] || b[0] < 0x80 || 0xC0 <= b[0]
  }

  lemma BetweenApart(b: Str, u: Str, j: nat, lo: nat, hi: nat)
    requires Starts(u) && j <= |b| && 0x80 <= lo && hi <= 0xBF
    ensures Between(b + u, j, lo, hi) == Between(b, j, lo, hi)
  {
  }

  lemma FollowApart(b: Str, u: Str)
    requires b != [] && Starts(u)
    ensures Follow(b + u) == Follow(b)
  {
    var x := b[0];
    BetweenApart(b, u, 1, Low(x), High(x));
    if |b| >= 2 { BetweenApart(b, u, 2, 0x80, 0xBF); }
    if |b| >= 3 { BetweenApart(b, u, 3, 0x80, 0xBF); }
  }

  lemma NextApart(b: Str, u: Str)
    requires b != [] && Starts(u)
    ensures Next(b + u) == Next(b)
  {
    FollowApart(b, u);
    assert forall j :: 0 <= j < |b| ==> (b + u)[j] == b[j];
  }

  lemma {:induction false} DecodesApart(b: Str, u: Str)
    requires Starts(u)
    ensures FromUtf8(b + u) == FromUtf8(b) + FromUtf8(u)
    decreases |b|
  {
    if b == [] {
      assert b + u == u;
    } else {
      NextApart(b, u);
      var n := Next(b).size;
      assert (b + u)[n..] == b[n..] + u;
      DecodesApart(b[n..], u);
      Associates([Next(b).code], FromUtf8(b[n..]), FromUtf8(u));
    }
  }

  lemma TextStarts(t: Str, rest: Str)
    requires IsText(t) && t != []
    ensures Starts(ToUtf8(t) + rest)
  {
    assert (ToUtf8(t) + rest)[0] == Units(t[0])[0];
  }

  // Bytes that end in the middle of a character do not disturb the text behind them.
  lemma DecodesAround(b: Str, t: Str, rest: Str)
    requires IsText(t) && t != []
    ensures FromUtf8(b + (ToUtf8(t) + rest)) == FromUtf8(b) + (t + FromUtf8(rest))
  {
    TextStarts(t, rest);
    DecodesApart(b, ToUtf8(t) + rest);
    DecodesText(t, rest);
  }

  // ---- lengths ---------------------------------------------------------------------------------------

  lemma {:induction false} DecodesNoLonger(b: Str)
    ensures |FromUtf8(b)| <= |b|
    decreases |b|
  {
    if b != [] { DecodesNoLonger(b[Next(b).size..]); }
  }

  // One character for each byte, none replaced: the bytes are ASCII.
  lemma {:induction false} OnePerByte(b: Str)
    requires |FromUtf8(b)| == |b| && REPLACEMENT !in FromUtf8(b)
    ensures FromUtf8(b) == b && forall i :: 0 <= i < |b| ==> b[i] < 0x80
    decreases |b|
  {
    if b != [] {
      var n := Next(b).size;
      DecodesNoLonger(b[n..]);
      assert FromUtf8(b)[0] == Next(b).code;
      assert forall i :: 0 <= i < |FromUtf8(b[n..])| ==> FromUtf8(b[n..])[i] == FromUtf8(b)[i + 1];
      OnePerByte(b[1..]);
    }
  }

  lemma {:induction false} EncodesNoShorter(t: Str)
    requires IsText(t)
    ensures |t| <= |ToUtf8(t)|
    ensures |t| == |ToUtf8(t)| ==> ToUtf8(t) == t && forall i :: 0 <= i < |t| ==> t[i] < 0x80
  {
    if t != [] {
      EncodesNoShorter(t[1..]);
      assert forall i :: 0 < i < |t| ==> t[i] == t[1..][i - 1];
    }
  }

  lemma {:induction false} AsciiEncodes(t: Str)
    requires forall i :: 0 <= i < |t| ==> t[i] < 0x80
    ensures IsText(t) && ToUtf8(t) == t
  {
    if t != [] { AsciiEncodes(t[1..]); }
  }

  lemma {:induction false} EncodesConcat(a: Str, b: Str)
    requires IsText(a) && IsText(b)
    ensures IsText(a + b) && ToUtf8(a + b) == ToUtf8(a) + ToUtf8(b)
  {
    if a == [] {
      assert a + b == b;
    } else {
      assert (a + b)[1..] == a[1..] + b;
      EncodesConcat(a[1..], b);
      assert Units(a[0]) + (ToUtf8(a[1..]) + ToUtf8(b)) == ToUtf8(a) + ToUtf8(b);
    }
  }

  lemma UnitsAreBytes(c: nat)
    requires Scalar(c)
    ensures forall i :: 0 <= i < |Units(c)| ==> Units(c)[i] < BYTES
  {
  }

  lemma {:induction false} EncodesBytes(t: Str)
    requires IsText(t)
    ensures forall i :: 0 <= i < |ToUtf8(t)| ==> ToUtf8(t)[i] < BYTES
  {
    if t != [] {
      UnitsAreBytes(t[0]);
      EncodesBytes(t[1..]);
    }
  }

  // ---- well-formed bytes ---------------------------------------------------------------------------

  lemma SoundUnits(c: nat, rest: Str)
    requires Scalar(c)
    ensures Sound(Units(c) + rest)
  {
    NextOfUnits(c, rest);
  }

  lemma {:induction false} EncodesWellFormed(t: Str)
    requires IsText(t)
    ensures WellFormed(ToUtf8(t))
  {
    if t != [] {
      var rest := ToUtf8(t[1..]);
      NextOfUnits(t[0], rest);
      SoundUnits(t[0], rest);
      assert (Units(t[0]) + rest)[|Units(t[0])|..] == rest;
      EncodesWellFormed(t[1..]);
    }
  }

  lemma TwoUnits(x: nat, y: nat)
    requires 0xC2 <= x < 0xE0 && 0x80 <= y <= 0xBF
    ensures var c := (x - 0xC0) * 64 + (y - 0x80); Scalar(c) && Units(c) == [x, y]
  {
  }

  lemma ThreeUnits(x: nat, y: nat, z: nat)
    requires 0xE0 <= x < 0xF0 && Low(x) <= y <= High(x) && 0x80 <= z <= 0xBF
    ensures var c := (x - 0xE0) * 4096 + (y - 0x80) * 64 + (z - 0x80); Scalar(c) && Units(c) == [x, y, z]
  {
    var u := (x - 0xE0) * 64 + (y - 0x80);
    assert (x - 0xE0) * 4096 + (y - 0x80) * 64 == u * 64;
  }

  lemma FourParts(c: nat)
    ensures c / 4096 == c / 64 / 64 && c / 262144 == c / 64 / 64 / 64
  {
  }

  lemma FourUnits(x: nat, y: nat, z: nat, w: nat)
    requires 0xF0 <= x <= 0xF4 && Low(x) <= y <= High(x) && 0x80 <= z <= 0xBF && 0x80 <= w <= 0xBF
    ensures var c := (x - 0xF0) * 262144 + (y - 0x80) * 4096 + (z - 0x80) * 64 + (w - 0x80); Scalar(c) && Units(c) == [x, y, z, w]
  {
    var t := (x - 0xF0) * 64 + (y - 0x80);
    var u := t * 64 + (z - 0x80);
    var c := u * 64 + (w - 0x80);
    assert c == (x - 0xF0) * 262144 + (y - 0x80) * 4096 + (z - 0x80) * 64 + (w - 0x80);
    assert c / 64 == u && u / 64 == t && t / 64 == x - 0xF0;
    FourParts(c);
  }

  lemma SoundScalar(b: Str)
    requires b != [] && Sound(b)
    ensures Scalar(Next(b).code) && Units(Next(b).code) == b[..Next(b).size]
  {
    if b[0] < 0x80 {
    } else if b[0] < 0xE0 {
      TwoUnits(b[0], b[1]);
      assert b[..2] == [b[0], b[1]];
    } else if b[0] < 0xF0 {
      ThreeUnits(b[0], b[1], b[2]);
      assert b[..3] == [b[0], b[1], b[2]];
    } else {
      FourUnits(b[0], b[1], b[2], b[3]);
      assert b[..4] == [b[0], b[1], b[2], b[3]];
    }
  }

  lemma {:induction false} WellFormedEncodes(b: Str)
    requires WellFormed(b)
    ensures IsText(FromUtf8(b)) && ToUtf8(FromUtf8(b)) == b
    decreases |b|
  {
    if b != [] {
      var s := Next(b);
      SoundScalar(b);
      WellFormedEncodes(b[s.size..]);
      assert FromUtf8(b)[1..] == FromUtf8(b[s.size..]);
      assert b == b[..s.size] + b[s.size..];
    }
  }

  // The well-formed bytes are those that encode some text, and decoding gives that text.
  lemma WellFormedExactly(b: Str)
    ensures WellFormed(b) <==> exists t :: IsText(t) && ToUtf8(t) == b
    ensures WellFormed(b) ==> IsText(FromUtf8(b)) && ToUtf8(FromUtf8(b)) == b
  {
    if WellFormed(b) { WellFormedEncodes(b); }
    forall t | IsText(t) && ToUtf8(t) == b ensures WellFormed(b) { EncodesWellFormed(t); }
  }

  // The bits of a character are shared out over its bytes, the highest first (section 3 of RFC 3629).
  lemma UnitsShareBits(c: nat)
    requires Scalar(c)
    ensures var u := Units(c);
            if c < 0x80 then u == [c]
            else if c < 0x800 then |u| == 2 && 0xC0 <= u[0] < 0xE0 && c == (u[0] - 0xC0) * 0x40 + (u[1] - 0x80)
            else if c < 0x10000 then |u| == 3 && 0xE0 <= u[0] < 0xF0 && c == (u[0] - 0xE0) * 0x1000 + (u[1] - 0x80) * 0x40 + (u[2] - 0x80)
            else |u| == 4 && 0xF0 <= u[0] < 0xF5 && c == (u[0] - 0xF0) * 0x40000 + (u[1] - 0x80) * 0x1000 + (u[2] - 0x80) * 0x40 + (u[3] - 0x80)
    ensures forall k :: 1 <= k < |Units(c)| ==> 0x80 <= Units(c)[k] <= 0xBF
  {
    FourParts(c);
  }

  // ---- what is replaced ------------------------------------------------------------------------------

  // The bytes begin the encoding of some character.
  ghost predicate BeginsCharacter(p: Str) {
    exists c :: Scalar(c) && p <= Units(c)
  }

  lemma UnitsAreSound(c: nat)
    requires Scalar(c)
    ensures Sound(Units(c))
  {
    SoundUnits(c, []);
    assert Units(c) + [] == Units(c);
  }

  // What begins a character has a leading byte and as many good bytes behind it as there are.
  lemma PrefixFollows(b: Str, n: nat, c: nat)
    requires b != [] && b[0] >= 0x80 && 1 <= n < |b| && Scalar(c) && b[..n + 1] <= Units(c)
    ensures Lead(b[0]) && Follow(b) >= n
  {
    var u := Units(c);
    UnitsAreSound(c);
    assert forall k :: 0 <= k <= n ==> u[k] == b[..n + 1][k] == b[k];
  }

  lemma Completed(b: Str, n: nat) returns (c: nat)
    requires b != [] && Lead(b[0]) && Follow(b) == n < Announced(b[0]) && 1 <= n
    ensures Scalar(c) && b[..n + 1] <= Units(c)
  {
    if b[0] < 0xF0 {
      ThreeUnits(b[0], b[1], 0x80);
      c := (b[0] - 0xE0) * 4096 + (b[1] - 0x80) * 64;
      assert b[..2] == [b[0], b[1]];
    } else {
      var z := if n == 2 then b[2] else 0x80;
      FourUnits(b[0], b[1], z, 0x80);
      c := (b[0] - 0xF0) * 262144 + (b[1] - 0x80) * 4096 + (z - 0x80) * 64;
      assert if n == 2 then b[..3] == [b[0], b[1], b[2]] else b[..2] == [b[0], b[1]];
    }
  }

  // Bytes that do not start with a whole character: one replacement stands for the longest
  // stretch that begins a character, or for a single byte.
  lemma ReplacesLongest(b: Str)
    requires b != [] && (forall c :: Scalar(c) ==> !(Units(c) <= b))
    ensures var s := Next(b); s.code == 0xFFFD && (s.size > 1 ==> BeginsCharacter(b[..s.size])) && (s.size < |b| ==> !BeginsCharacter(b[..s.size + 1]))
  {
    if Sound(b) { SoundScalar(b); }
    var s := Next(b);
    if s.size > 1 { var c := Completed(b, s.size - 1); }
    if s.size < |b| && BeginsCharacter(b[..s.size + 1]) {
      var c :| Scalar(c) && b[..s.size + 1] <= Units(c);
      PrefixFollows(b, s.size, c);
    }
  }
}
