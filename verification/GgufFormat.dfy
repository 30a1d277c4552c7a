// GGUF metadata: its layout as bytes, and reading it back (python/xecuda/gguf_reader.py), as
// functions of a file and a cursor.
module GgufFormat {
  import opened Strings
  import Utf8

  type Byte = b: int | 0 <= b < 256
  type Bytes = seq<Byte>

  // ---- reading ----------------------------------------------------------------------------------

  // Truncated is the EOFError; a string may not be UTF-8 (UnicodeDecodeError); BadMagic,
  // UnknownType and BadAlignment are the other errors.
  datatype Error = Truncated | BadText | BadMagic | UnknownType | BadAlignment

  datatype Parsed<+T> = Done(value: T, at: nat) | Fail(error: Error)

  // What the reader returns for a value.
  datatype Data = IntData(n: int) | FloatData(width: nat, bits: nat) | BoolData(b: bool) | StringData(s: Str) | ListData(items: seq<Data>)

  function Take(s: Bytes, i: nat, n: nat): (r: Parsed<Bytes>)
    ensures r.Done? ==> r.at == i + n <= |s|
  {
    if i + n > |s| then Fail(Truncated) else Done(s[i..i + n], i + n)
  }

  // Little-endian.
  function Unsigned(b: Bytes): nat {
    if b == [] then 0 else b[0] + 256 * Unsigned(b[1..])
  }

  function Power256(n: nat): nat {
    if n == 0 then 1 else 256 * Power256(n - 1)
  }

  // Two's complement.
  function Signed(b: Bytes): int {
    if 2 * Unsigned(b) >= Power256(|b|) then Unsigned(b) - Power256(|b|) else Unsigned(b)
  }

  function ReadUnsigned(s: Bytes, i: nat, n: nat): (r: Parsed<nat>)
    ensures r.Done? ==> r.at == i + n <= |s|
  {
    match Take(s, i, n)
    case Done(b, at) => Done(Unsigned(b), at)
    case Fail(e) => Fail(e)
  }

  // Strict decoding of the bytes taken.
  function Decoded(b: Parsed<Bytes>): Parsed<Str> {
    match b
    case Done(t, at) => if Utf8.WellFormed(t) then Done(Utf8.FromUtf8(t), at) else Fail(BadText)
    case Fail(e) => Fail(e)
  }

  function ReadString(s: Bytes, i: nat): (r: Parsed<Str>)
    ensures r.Done? ==> i + 8 <= r.at <= |s|
  {
    match ReadUnsigned(s, i, 8)
    case Done(n, at) => Decoded(Take(s, at, n))
    case Fail(e) => Fail(e)
  }

  const ARRAY := 9
  const STRING := 8
  const BOOL := 7

  // The width of a number type; 0 for other tags.
  function Width(tag: nat): nat {
    match tag
    case 0 => 1
    case 1 => 1
    case 2 => 2
    case 3 => 2
    case 4 => 4
    case 5 => 4
    case 6 => 4
    case 7 => 1
    case 10 => 8
    case 11 => 8
    case 12 => 8
    case _ => 0
  }

  function Number(tag: nat, b: Bytes): Data {
    if tag == 6 || tag == 12 then FloatData(|b|, Unsigned(b))
    else if tag == BOOL then BoolData(Unsigned(b) != 0)
    else if tag == 1 || tag == 3 || tag == 5 || tag == 11 then IntData(Signed(b))
    else IntData(Unsigned(b))
  }

  function ReadPrim(s: Bytes, i: nat, tag: nat): (r: Parsed<Data>)
    ensures r.Done? ==> i < r.at <= |s|
  {
    if Width(tag) > 0 then
      match Take(s, i, Width(tag))
      case Done(b, at) => Done(Number(tag, b), at)
      case Fail(e) => Fail(e)
    else if tag == STRING then
      match ReadString(s, i)
      case Done(b, at) => Done(StringData(b), at)
      case Fail(e) => Fail(e)
    else Fail(UnknownType)
  }

  function ReadValue(s: Bytes, i: nat, tag: nat): (r: Parsed<Data>)
    ensures r.Done? ==> i < r.at <= |s|
    decreases if i <= |s| then |s| - i else 0, 0, 0
  {
    if tag != ARRAY then ReadPrim(s, i, tag)
    else
      match ReadUnsigned(s, i, 4)
      case Fail(e) => Fail(e)
      case Done(et, at) =>
        match ReadUnsigned(s, at, 8)
        case Fail(e) => Fail(e)
        case Done(n, start) =>
          match ReadElements(s, start, et, n)
          case Fail(e) => Fail(e)
          case Done(items, end) => Done(ListData(items), end)
  }

  // The elements are themselves arrays when their type is.
  function ReadElements(s: Bytes, i: nat, et: nat, n: nat): (r: Parsed<seq<Data>>)
    requires i <= |s|
    ensures r.Done? ==> i <= r.at <= |s| && |r.value| == n
    decreases |s| - i, 1, n
  {
    if n == 0 then Done([], i)
    else
      match ReadValue(s, i, et)
      case Fail(e) => Fail(e)
      case Done(v, at) =>
        match ReadElements(s, at, et, n - 1)
        case Fail(e) => Fail(e)
        case Done(rest, end) => Done([v] + rest, end)
  }

  // ---- layout ------------------------------------------------------------------------------------------

  // A typed value as a file holds it; bits of a float are kept as they are.
  datatype Value =
    | Num(tag: nat, n: int)
    | Text(s: Str)
    | Arr(et: nat, items: seq<Value>)

  function Tag(v: Value): nat {
    match v
    case Num(tag, _) => tag
    case Text(_) => STRING
    case Arr(_, _) => ARRAY
  }

  predicate IsSigned(tag: nat) {
    tag == 1 || tag == 3 || tag == 5 || tag == 11
  }

  function Little(n: nat, w: nat): (b: Bytes)
    ensures |b| == w
  {
    if w == 0 then [] else [n % 256] + Little(n / 256, w - 1)
  }

  const WORD32: nat := 0x1_0000_0000
  const WORD64: nat := 0x1_0000_0000_0000_0000

  function TextBytes(t: Str): (b: Bytes)
    ensures Utf8.IsText(t) ==> b == Utf8.ToUtf8(t)
  {
    if Utf8.IsText(t) then
      Utf8.EncodesBytes(t);
      Utf8.ToUtf8(t)
    else []
  }

  function EncodeText(t: Str): Bytes {
    Little(|TextBytes(t)|, 8) + TextBytes(t)
  }

  predicate TextOk(t: Str) {
    Utf8.IsText(t) && |TextBytes(t)| < WORD64
  }

  ghost predicate ValueOk(v: Value) {
    match v
    case Num(tag, n) =>
      && Width(tag) > 0
      && (if IsSigned(tag) then 0 <= 2 * n + Power256(Width(tag)) && 2 * n < Power256(Width(tag)) else 0 <= n < Power256(Width(tag)))
      && (tag == BOOL ==> n < 2)
    case Text(s) => TextOk(s)
    case Arr(et, items) =>
      et < WORD32 && |items| < WORD64 && forall k :: 0 <= k < |items| ==> Tag(items[k]) == et && ValueOk(items[k])
  }

  function Encode(v: Value): Bytes
    decreases v
  {
    match v
    case Num(tag, n) => Little(if n < 0 then Complement(n, Width(tag)) else n, Width(tag))
    case Text(s) => EncodeText(s)
    case Arr(et, items) => Little(et, 4) + Little(|items|, 8) + EncodeAll(items)
  }

  function Complement(n: int, w: nat): nat {
    if n + Power256(w) >= 0 then n + Power256(w) else 0
  }

  function EncodeAll(items: seq<Value>): Bytes
    decreases items
  {
    if items == [] then [] else Encode(items[0]) + EncodeAll(items[1..])
  }

  // What the reader should return.
  function Meaning(v: Value): Data
    decreases v
  {
    match v
    case Num(tag, n) =>
      if tag == 6 || tag == 12 then FloatData(Width(tag), if n < 0 then 0 else n)
      else if tag == BOOL then BoolData(n != 0)
      else IntData(n)
    case Text(s) => StringData(s)
    case Arr(_, items) => ListData(MeaningAll(items))
  }

  function MeaningAll(items: seq<Value>): seq<Data>
    decreases items
  {
    if items == [] then [] else [Meaning(items[0])] + MeaningAll(items[1..])
  }

  // ---- numbers -----------------------------------------------------------------------------------------

  lemma {:induction false} UnsignedLittle(n: nat, w: nat)
    requires n < Power256(w)
    ensures Unsigned(Little(n, w)) == n
  {
    if w > 0 {
      DigitBelow(n, Power256(w - 1));
      UnsignedLittle(n / 256, w - 1);
      assert Little(n, w)[1..] == Little(n / 256, w - 1);
    }
  }

  lemma DigitBelow(n: nat, p: nat)
    requires n < 256 * p
    ensures n / 256 < p
  {
  }

  lemma WordPowers(w4: nat, w8: nat)
    requires w4 == 4 && w8 == 8
    ensures Power256(w4) == WORD32 && Power256(w8) == WORD64
  {
    FourMore(0);
    FourMore(4);
  }

  lemma FourMore(n: nat)
    ensures Power256(n + 4) == WORD32 * Power256(n)
  {
    assert Power256(n + 4) == 256 * Power256(n + 3);
    assert Power256(n + 3) == 256 * Power256(n + 2);
    assert Power256(n + 2) == 256 * Power256(n + 1);
  }

  // ---- a place in a file ---------------------------------------------------------------------------------

  ghost predicate Has(s: Bytes, i: nat, b: Bytes) {
    i + |b| <= |s| && s[i..i + |b|] == b
  }

  lemma HasSplit(s: Bytes, i: nat, a: Bytes, b: Bytes)
    requires Has(s, i, a + b)
    ensures Has(s, i, a) && Has(s, i + |a|, b)
  {
    assert s[i..i + |a|] == s[i..i + |a + b|][..|a|];
    assert s[i + |a|..i + |a| + |b|] == s[i..i + |a + b|][|a|..];
  }

  lemma ReadLittle(s: Bytes, i: nat, n: nat, w: nat)
    requires Has(s, i, Little(n, w)) && n < Power256(w)
    ensures ReadUnsigned(s, i, w) == Done(n, i + w)
  {
    UnsignedLittle(n, w);
  }

  // Counts and tags.
  lemma ReadWord(s: Bytes, i: nat, n: nat, w: nat)
    requires w == 4 || w == 8
    requires Has(s, i, Little(n, w)) && n < (if w == 4 then WORD32 else WORD64)
    ensures ReadUnsigned(s, i, w) == Done(n, i + w)
  {
    WordPowers(4, 8);
    ReadLittle(s, i, n, w);
  }

  lemma TextDecodes(t: Str, at: nat)
    requires Utf8.IsText(t)
    ensures Decoded(Done(TextBytes(t), at)) == Done(t, at)
  {
    Utf8.EncodesWellFormed(t);
    Utf8.DecodesText(t, []);
    assert Utf8.ToUtf8(t) + [] == Utf8.ToUtf8(t) && t + [] == t;
  }

  lemma ReadText(s: Bytes, i: nat, t: Str)
    requires Has(s, i, EncodeText(t)) && TextOk(t)
    ensures ReadString(s, i) == Done(t, i + |EncodeText(t)|)
  {
    var b := TextBytes(t);
    HasSplit(s, i, Little(|b|, 8), b);
    ReadWord(s, i, |b|, 8);
    TakeHas(s, i + 8, b);
    TextDecodes(t, i + 8 + |b|);
  }

  lemma TakeHas(s: Bytes, i: nat, b: Bytes)
    requires Has(s, i, b)
    ensures Take(s, i, |b|) == Done(b, i + |b|)
  {
  }

  // ---- reading inverts the layout ---------------------------------------------------------------------------

  lemma SignedLittle(n: int, w: nat)
    requires w > 0 && 0 <= 2 * n + Power256(w) && 2 * n < Power256(w)
    ensures Signed(Little(if n < 0 then Complement(n, w) else n, w)) == n
  {
    UnsignedLittle(if n < 0 then Complement(n, w) else n, w);
  }

  lemma ReadNumber(s: Bytes, i: nat, v: Value)
    requires v.Num? && ValueOk(v) && Has(s, i, Encode(v))
    ensures ReadPrim(s, i, v.tag) == Done(Meaning(v), i + |Encode(v)|)
  {
    var w := Width(v.tag);
    if IsSigned(v.tag) { SignedLittle(v.n, w); } else { UnsignedLittle(v.n, w); }
  }

  lemma {:induction false} ReadEncoded(s: Bytes, i: nat, v: Value)
    requires ValueOk(v) && Has(s, i, Encode(v))
    ensures ReadValue(s, i, Tag(v)) == Done(Meaning(v), i + |Encode(v)|)
    decreases v
  {
    hide EncodeText, TextOk, Has;
    match v
    case Num(tag, n) => ReadNumber(s, i, v);
    case Text(t) => ReadText(s, i, t);
    case Arr(et, items) =>
      HasSplit(s, i, Little(et, 4) + Little(|items|, 8), EncodeAll(items));
      HasSplit(s, i, Little(et, 4), Little(|items|, 8));
      ReadWord(s, i, et, 4);
      ReadWord(s, i + 4, |items|, 8);
      ReadAllEncoded(s, i + 12, et, items);
  }

  lemma ElementsRead(s: Bytes, i: nat, et: nat, items: seq<Value>, at: nat, end: nat)
    requires items != [] && i <= at <= |s| && ReadValue(s, i, et) == Done(Meaning(items[0]), at)
    requires ReadElements(s, at, et, |items| - 1) == Done(MeaningAll(items[1..]), end)
    ensures ReadElements(s, i, et, |items|) == Done(MeaningAll(items), end)
  {
  }

  lemma AllSplit(s: Bytes, i: nat, items: seq<Value>) returns (at: nat)
    requires items != [] && Has(s, i, EncodeAll(items))
    ensures at == i + |Encode(items[0])| && i <= at <= |s|
    ensures Has(s, i, Encode(items[0])) && Has(s, at, EncodeAll(items[1..]))
    ensures at + |EncodeAll(items[1..])| == i + |EncodeAll(items)|
  {
    HasSplit(s, i, Encode(items[0]), EncodeAll(items[1..]));
    at := i + |Encode(items[0])|;
  }

  lemma {:induction false} ReadAllEncoded(s: Bytes, i: nat, et: nat, items: seq<Value>)
    requires (forall k :: 0 <= k < |items| ==> Tag(items[k]) == et && ValueOk(items[k])) && Has(s, i, EncodeAll(items))
    ensures ReadElements(s, i, et, |items|) == Done(MeaningAll(items), i + |EncodeAll(items)|)
    decreases items
  {
    if items != [] {
      var at := AllSplit(s, i, items);
      ReadEncoded(s, i, items[0]);
      assert forall k :: 0 <= k < |items[1..]| ==> items[1..][k] == items[k + 1];
      ReadAllEncoded(s, at, et, items[1..]);
      ElementsRead(s, i, et, items, at, at + |EncodeAll(items[1..])|);
    }
  }

  // ---- truncated files ----------------------------------------------------------------------------------------

  // Reading the first k bytes of a file gives the same result if it ends by k, and else meets
  // the end of the file.
  ghost predicate CutTo<T>(full: Parsed<T>, cut: Parsed<T>, k: nat) {
    full.Done? ==> cut == if full.at <= k then full else Fail(Truncated)
  }

  lemma CutTake(s: Bytes, i: nat, n: nat, k: nat)
    requires k <= |s|
    ensures CutTo(Take(s, i, n), Take(s[..k], i, n), k)
  {
    if i + n <= k { assert s[..k][i..i + n] == s[i..i + n]; }
  }

  lemma CutUnsigned(s: Bytes, i: nat, n: nat, k: nat)
    requires k <= |s|
    ensures CutTo(ReadUnsigned(s, i, n), ReadUnsigned(s[..k], i, n), k)
  {
    CutTake(s, i, n, k);
  }

  lemma CutString(s: Bytes, i: nat, k: nat)
    requires k <= |s|
    ensures CutTo(ReadString(s, i), ReadString(s[..k], i), k)
  {
    CutUnsigned(s, i, 8, k);
    var n := ReadUnsigned(s, i, 8);
    if n.Done? { CutTake(s, n.at, n.value, k); }
  }

  lemma CutPrim(s: Bytes, i: nat, tag: nat, k: nat)
    requires k <= |s|
    ensures CutTo(ReadPrim(s, i, tag), ReadPrim(s[..k], i, tag), k)
  {
    CutTake(s, i, Width(tag), k);
    CutString(s, i, k);
  }

  lemma {:induction false} CutValue(s: Bytes, i: nat, tag: nat, k: nat)
    requires i <= k <= |s|
    ensures CutTo(ReadValue(s, i, tag), ReadValue(s[..k], i, tag), k)
    decreases |s| - i, 0, 0
  {
    if tag != ARRAY {
      CutPrim(s, i, tag, k);
    } else {
      CutUnsigned(s, i, 4, k);
      var et := ReadUnsigned(s, i, 4);
      if et.Done? && et.at <= k {
        CutUnsigned(s, et.at, 8, k);
        var n := ReadUnsigned(s, et.at, 8);
        if n.Done? && n.at <= k { CutElements(s, n.at, et.value, n.value, k); }
      }
    }
  }

  lemma {:induction false} CutElements(s: Bytes, i: nat, et: nat, n: nat, k: nat)
    requires i <= k <= |s|
    ensures CutTo(ReadElements(s, i, et, n), ReadElements(s[..k], i, et, n), k)
    decreases |s| - i, 1, n
  {
    if n > 0 {
      CutValue(s, i, et, k);
      var v := ReadValue(s, i, et);
      if v.Done? && v.at <= k { CutElements(s, v.at, et, n - 1, k); }
    }
  }
}
