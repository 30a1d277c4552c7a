// Where each field of a GGUF file stands and which bytes make its value
// (python/xecuda/gguf_reader.py), byte by byte.
module GgufBytes {
  import opened Division
  import opened GgufFormat
  import opened GgufFile
  import opened Strings
  import Utf8

  // ---- numbers -----------------------------------------------------------------------------------

  function Digit(s: Bytes, i: nat): nat
    requires i < |s|
  {
    s[i]
  }

  // The numbers at byte i, lowest byte first.
  function U16(s: Bytes, i: nat): nat
    requires i + 2 <= |s|
  {
    Digit(s, i) + 0x100 * Digit(s, i + 1)
  }

  function U32(s: Bytes, i: nat): (n: nat)
    requires i + 4 <= |s|
  {
    Digit(s, i) + 0x100 * Digit(s, i + 1) + 0x1_0000 * Digit(s, i + 2) + 0x100_0000 * Digit(s, i + 3)
  }

  function U64(s: Bytes, i: nat): nat
    requires i + 8 <= |s|
  {
    U32(s, i) + 0x1_0000_0000 * U32(s, i + 4)
  }

  // n as two's complement, size being the number of values.
  function Wrapped(n: nat, size: nat): int {
    if n < size / 2 then n else n - size
  }

  lemma OneByte(s: Bytes, i: nat)
    requires i + 1 <= |s|
    ensures Unsigned(s[i..i + 1]) == s[i] && Signed(s[i..i + 1]) == Wrapped(s[i], 0x100)
  {
    assert s[i..i + 1][1..] == [];
    assert Power256(1) == 256 * Power256(0);
  }

  lemma Tail(s: Bytes, i: nat, n: nat)
    requires n > 0 && i + n <= |s|
    ensures Unsigned(s[i..i + n]) == s[i] + 256 * Unsigned(s[i + 1..i + 1 + (n - 1)])
  {
    assert s[i..i + n][1..] == s[i + 1..i + 1 + (n - 1)];
  }

  lemma TwoBytes(s: Bytes, i: nat)
    requires i + 2 <= |s|
    ensures Unsigned(s[i..i + 2]) == U16(s, i)
  {
    Tail(s, i, 2);
    OneByte(s, i + 1);
  }

  lemma FourBytes(s: Bytes, i: nat)
    requires i + 4 <= |s|
    ensures Unsigned(s[i..i + 4]) == U32(s, i)
  {
    Tail(s, i, 4);
    Tail(s, i + 1, 3);
    TwoBytes(s, i + 2);
  }

  lemma EightBytes(s: Bytes, i: nat)
    requires i + 8 <= |s|
    ensures Unsigned(s[i..i + 8]) == U64(s, i)
  {
    Tail(s, i, 8);
    Tail(s, i + 1, 7);
    Tail(s, i + 2, 6);
    Tail(s, i + 3, 5);
    FourBytes(s, i + 4);
  }

  lemma WrapBytes(b: Bytes, size: nat)
    requires size == Power256(|b|) && size % 2 == 0
    ensures Signed(b) == Wrapped(Unsigned(b), size)
  {
  }

  // ---- single values -----------------------------------------------------------------------------


  // Bytes and booleans.
  lemma ByteNumbers(s: Bytes, i: nat)
    ensures i + 1 <= |s| ==> ReadValue(s, i, 0) == Done(IntData(s[i]), i + 1)
    ensures i + 1 <= |s| ==> ReadValue(s, i, 1) == Done(IntData(Wrapped(s[i], 0x100)), i + 1)
    ensures i + 1 <= |s| ==> ReadValue(s, i, 7) == Done(BoolData(s[i] != 0), i + 1)
  {
    hide Unsigned, Signed;
    if i + 1 <= |s| { OneByte(s, i); }
  }

  lemma ShortNumbers(s: Bytes, i: nat)
    ensures i + 2 <= |s| ==> ReadValue(s, i, 2) == Done(IntData(U16(s, i)), i + 2)
    ensures i + 2 <= |s| ==> ReadValue(s, i, 3) == Done(IntData(Wrapped(U16(s, i), 0x1_0000)), i + 2)
  {
    hide Unsigned, Signed, U16;
    if i + 2 <= |s| {
      TwoBytes(s, i);
      assert Power256(2) == 256 * Power256(1);
      WrapBytes(s[i..i + 2], 0x1_0000);
    }
  }

  lemma WideNumbers(s: Bytes, i: nat)
    ensures i + 4 <= |s| ==> ReadValue(s, i, 4) == Done(IntData(U32(s, i)), i + 4)
    ensures i + 4 <= |s| ==> ReadValue(s, i, 5) == Done(IntData(Wrapped(U32(s, i), 0x1_0000_0000)), i + 4)
    ensures i + 4 <= |s| ==> ReadValue(s, i, 6) == Done(FloatData(4, U32(s, i)), i + 4)
    ensures i + 8 <= |s| ==> ReadValue(s, i, 10) == Done(IntData(U64(s, i)), i + 8)
    ensures i + 8 <= |s| ==> ReadValue(s, i, 11) == Done(IntData(Wrapped(U64(s, i), 0x1_0000_0000_0000_0000)), i + 8)
    ensures i + 8 <= |s| ==> ReadValue(s, i, 12) == Done(FloatData(8, U64(s, i)), i + 8)
  {
    hide Power256, U32, U64, Unsigned, Signed;
    WordPowers(4, 8);
    if i + 4 <= |s| {
      FourBytes(s, i);
      WrapBytes(s[i..i + 4], 0x1_0000_0000);
    }
    if i + 8 <= |s| {
      EightBytes(s, i);
      WrapBytes(s[i..i + 8], 0x1_0000_0000_0000_0000);
    }
  }

  // Every number type meets the end of a file that is too short for it, and no other tag is known.
  lemma NumbersEnd(s: Bytes, i: nat, tag: nat)
    ensures (tag == 0 || tag == 1 || tag == 7) && i + 1 > |s| ==> ReadValue(s, i, tag) == Fail(Truncated)
    ensures (tag == 2 || tag == 3) && i + 2 > |s| ==> ReadValue(s, i, tag) == Fail(Truncated)
    ensures (tag == 4 || tag == 5 || tag == 6) && i + 4 > |s| ==> ReadValue(s, i, tag) == Fail(Truncated)
    ensures (tag == 10 || tag == 11 || tag == 12) && i + 8 > |s| ==> ReadValue(s, i, tag) == Fail(Truncated)
    ensures tag > 12 ==> ReadValue(s, i, tag) == Fail(UnknownType)
  {
  }

  // A string is its length in eight bytes and that many bytes of UTF-8.
  lemma StringBytes(s: Bytes, i: nat)
    ensures i + 8 > |s| ==> ReadString(s, i) == Fail(Truncated)
    ensures i + 8 <= |s| && i + 8 + U64(s, i) > |s| ==> ReadString(s, i) == Fail(Truncated)
    ensures i + 8 <= |s| && i + 8 + U64(s, i) <= |s| ==>
              var b := s[i + 8..i + 8 + U64(s, i)];
              ReadString(s, i) == if Utf8.WellFormed(b) then Done(Utf8.FromUtf8(b), i + 8 + |b|) else Fail(BadText)
    ensures ReadString(s, i).Done? ==> ReadValue(s, i, 8) == Done(StringData(ReadString(s, i).value), ReadString(s, i).at)
    ensures ReadString(s, i).Fail? ==> ReadValue(s, i, 8) == Fail(ReadString(s, i).error)
  {
    hide U64;
    if i + 8 <= |s| { EightBytes(s, i); }
  }

  lemma Number32(s: Bytes, i: nat)
    ensures ReadUnsigned(s, i, 4) == if i + 4 <= |s| then Done(U32(s, i), i + 4) else Fail(Truncated)
  {
    if i + 4 <= |s| { FourBytes(s, i); }
  }

  lemma Number64(s: Bytes, i: nat)
    ensures ReadUnsigned(s, i, 8) == if i + 8 <= |s| then Done(U64(s, i), i + 8) else Fail(Truncated)
  {
    if i + 8 <= |s| { EightBytes(s, i); }
  }

  // ---- one behind the other ----------------------------------------------------------------------------

  // Values of type et were read from place to place.
  ghost predicate Chained(s: Bytes, et: nat, items: seq<Data>, at: seq<nat>) {
    |at| == |items| + 1 && forall k :: 0 <= k < |items| ==> ReadValue(s, at[k], et) == Done(items[k], at[k + 1])
  }

  lemma ElementsUnfold(s: Bytes, i: nat, et: nat, n: nat) returns (v: Data, next: nat, rest: Parsed<seq<Data>>)
    requires i <= |s| && n > 0 && ReadElements(s, i, et, n).Done?
    ensures ReadValue(s, i, et) == Done(v, next) && next <= |s| && rest == ReadElements(s, next, et, n - 1)
    ensures rest.Done? && ReadElements(s, i, et, n) == Done([v] + rest.value, rest.at)
  {
    var r := ReadValue(s, i, et);
    v, next := r.value, r.at;
    rest := ReadElements(s, next, et, n - 1);
  }

  lemma {:induction false} ElementsChained(s: Bytes, i: nat, et: nat, n: nat) returns (at: seq<nat>)
    requires i <= |s| && ReadElements(s, i, et, n).Done?
    ensures var r := ReadElements(s, i, et, n); Chained(s, et, r.value, at) && at[0] == i && at[n] == r.at
    decreases n
  {
    if n == 0 {
      at := [i];
    } else {
      var v, next, rest := ElementsUnfold(s, i, et, n);
      hide ReadElements, ReadValue;
      var more := ElementsChained(s, next, et, n - 1);
      at := [i] + more;
    }
  }

  // Read one behind the other, the elements make the array.
  lemma {:induction false} ChainedRead(s: Bytes, et: nat, items: seq<Data>, at: seq<nat>)
    requires Chained(s, et, items, at) && at[0] <= |s|
    ensures ReadElements(s, at[0], et, |items|) == Done(items, at[|items|])
    decreases |items|
  {
    if items != [] {
      assert forall k :: 0 <= k < |items[1..]| ==> items[1..][k] == items[k + 1] && at[1..][k] == at[k + 1];
      assert [items[0]] + items[1..] == items;
      assert ReadValue(s, at[0], et) == Done(items[0], at[1]);
      ChainedRead(s, et, items[1..], at[1..]);
    }
  }

  // An array is its element type in four bytes, its length in eight, and its elements.
  lemma ArrayBytes(s: Bytes, i: nat, items: seq<Data>, end: nat) returns (at: seq<nat>)
    requires ReadValue(s, i, 9) == Done(ListData(items), end)
    ensures i + 12 <= |s| && |items| == U64(s, i + 4) && Chained(s, U32(s, i), items, at) && at[0] == i + 12 && at[|items|] == end
  {
    hide U32, U64;
    Number32(s, i);
    Number64(s, i + 4);
    at := ElementsChained(s, i + 12, U32(s, i), U64(s, i + 4));
  }

  // ---- keys and tensors ------------------------------------------------------------------------------------

  // A pair is a key, a type in four bytes and a value.
  lemma PairBytes(s: Bytes, i: nat, p: (Str, Data), end: nat) returns (a: nat)
    requires ReadPair(s, i) == Done(p, end)
    ensures ReadString(s, i) == Done(p.0, a) && a + 4 <= |s| && ReadValue(s, a + 4, U32(s, a)) == Done(p.1, end)
  {
    hide U32;
    a := ReadString(s, i).at;
    Number32(s, a);
  }

  ghost predicate PairsChained(s: Bytes, ps: seq<(Str, Data)>, at: seq<nat>) {
    |at| == |ps| + 1 && forall k :: 0 <= k < |ps| ==> ReadPair(s, at[k]) == Done(ps[k], at[k + 1])
  }

  predicate HasKey(ps: seq<(Str, Data)>, key: Str) {
    exists k :: 0 <= k < |ps| && ps[k].0 == key
  }

  // A key has the value of the last pair that names it, or else the one it had.
  ghost predicate LastWins(before: map<Str, Data>, ps: seq<(Str, Data)>, m: map<Str, Data>) {
    && (forall key :: key in m <==> key in before || HasKey(ps, key))
    && (forall k :: 0 <= k < |ps| && !HasKey(ps[k + 1..], ps[k].0) ==> ps[k].0 in m && m[ps[k].0] == ps[k].1)
    && (forall key :: key in before && !HasKey(ps, key) ==> key in m && m[key] == before[key])
  }

  lemma KeyOfCons(p: (Str, Data), ps: seq<(Str, Data)>, key: Str)
    ensures HasKey([p] + ps, key) <==> p.0 == key || HasKey(ps, key)
  {
    if HasKey(ps, key) {
      var k :| 0 <= k < |ps| && ps[k].0 == key;
      assert ([p] + ps)[k + 1].0 == key;
    }
    if p.0 == key { assert ([p] + ps)[0].0 == key; }
  }

  lemma LastWinsCons(before: map<Str, Data>, p: (Str, Data), ps: seq<(Str, Data)>, m: map<Str, Data>)
    requires LastWins(before[p.0 := p.1], ps, m)
    ensures LastWins(before, [p] + ps, m)
  {
    var all := [p] + ps;
    forall key ensures HasKey(all, key) <==> p.0 == key || HasKey(ps, key) { KeyOfCons(p, ps, key); }
    hide HasKey;
    forall k | 0 <= k < |all| && !HasKey(all[k + 1..], all[k].0) ensures all[k].0 in m && m[all[k].0] == all[k].1 {
      if k == 0 { assert all[1..] == ps; } else { assert all[k + 1..] == ps[k..] && all[k] == ps[k - 1]; }
    }
  }

  lemma PairsChainedCons(s: Bytes, p: (Str, Data), ps: seq<(Str, Data)>, i: nat, at: seq<nat>)
    requires PairsChained(s, ps, at) && ReadPair(s, i) == Done(p, at[0])
    ensures PairsChained(s, [p] + ps, [i] + at) && ([i] + at)[|ps| + 1] == at[|ps|]
  {
    hide ReadPair;
    forall k | 0 <= k < |ps| + 1 ensures ReadPair(s, ([i] + at)[k]) == Done(([p] + ps)[k], ([i] + at)[k + 1]) {
      assert k > 0 ==> ReadPair(s, at[k - 1]) == Done(ps[k - 1], at[k]);
    }
  }

  lemma PairsUnfold(s: Bytes, i: nat, n: nat, before: map<Str, Data>) returns (p: (Str, Data), next: nat)
    requires n > 0 && ReadPairs(s, i, n, before).Done?
    ensures ReadPair(s, i) == Done(p, next) && ReadPairs(s, i, n, before) == ReadPairs(s, next, n - 1, before[p.0 := p.1])
  {
    var r := ReadPair(s, i);
    p, next := r.value, r.at;
  }

  lemma {:induction false} PairsAreChained(s: Bytes, i: nat, n: nat, before: map<Str, Data>) returns (ps: seq<(Str, Data)>, at: seq<nat>)
    requires ReadPairs(s, i, n, before).Done?
    ensures var r := ReadPairs(s, i, n, before); |ps| == n && PairsChained(s, ps, at) && at[0] == i && at[n] == r.at && LastWins(before, ps, r.value)
    decreases n
  {
    hide ReadPair;
    if n == 0 {
      ps, at := [], [i];
    } else {
      var p, next := PairsUnfold(s, i, n, before);
      hide LastWins, ReadPairs, PairsChained;
      var more, places := PairsAreChained(s, next, n - 1, before[p.0 := p.1]);
      ps, at := [p] + more, [i] + places;
      PairsChainedCons(s, p, more, i, places);
      LastWinsCons(before, p, more, ReadPairs(s, i, n, before).value);
    }
  }

  lemma {:induction false} DimsBytes(s: Bytes, i: nat, n: nat)
    requires ReadDims(s, i, n).Done?
    ensures var r := ReadDims(s, i, n); |r.value| == n && r.at == i + 8 * n && (n > 0 ==> i + 8 * n <= |s|) && forall k :: 0 <= k < n ==> r.value[k] == U64(s, i + 8 * k)
    decreases n
  {
    hide U64;
    if n > 0 {
      Number64(s, i);
      DimsBytes(s, i + 8, n - 1);
      var r, rest := ReadDims(s, i, n), ReadDims(s, i + 8, n - 1);
      forall k | 0 <= k < n ensures r.value[k] == U64(s, i + 8 * k) {
        if k > 0 { assert i + 8 + 8 * (k - 1) == i + 8 * k; }
      }
    }
  }

  // A tensor is its name, the number of its dimensions in four bytes, the dimensions in eight
  // bytes each, innermost first, its type in four bytes and its offset in eight.
  lemma InfoBytes(s: Bytes, i: nat, t: TensorInfo, end: nat) returns (a: nat)
    requires ReadInfo(s, i) == Done(t, end)
    ensures ReadString(s, i) == Done(t.name, a) && a + 4 <= |s| && U32(s, a) == |t.shape|
    ensures end == a + 4 + 8 * |t.shape| + 12 <= |s|
    ensures forall k :: 0 <= k < |t.shape| ==> t.shape[|t.shape| - 1 - k] == U64(s, a + 4 + 8 * k)
    ensures t.kind == U32(s, end - 12) && t.offset == U64(s, end - 8)
  {
    hide U32, U64, ReadString, ReadDims, ReadUnsigned;
    a := ReadString(s, i).at;
    Number32(s, a);
    var nd := U32(s, a);
    DimsBytes(s, a + 4, nd);
    var c := a + 4 + 8 * nd;
    Number32(s, c);
    Number64(s, c + 4);
  }

  ghost predicate InfosChained(s: Bytes, ts: seq<TensorInfo>, at: seq<nat>) {
    |at| == |ts| + 1 && forall k :: 0 <= k < |ts| ==> ReadInfo(s, at[k]) == Done(ts[k], at[k + 1])
  }

  lemma InfosConsed(s: Bytes, t: TensorInfo, ts: seq<TensorInfo>, i: nat, at: seq<nat>) returns (all: seq<nat>)
    requires InfosChained(s, ts, at) && ReadInfo(s, i) == Done(t, at[0])
    ensures InfosChained(s, [t] + ts, all) && |all| == |ts| + 2 && all[0] == i && all[|ts| + 1] == at[|ts|]
  {
    all := [i] + at;
    hide ReadInfo;
    forall k | 0 <= k < |ts| + 1 ensures ReadInfo(s, ([i] + at)[k]) == Done(([t] + ts)[k], ([i] + at)[k + 1]) {
      assert k > 0 ==> ReadInfo(s, at[k - 1]) == Done(ts[k - 1], at[k]);
    }
  }

  lemma InfosUnfold(s: Bytes, i: nat, n: nat) returns (t: TensorInfo, next: nat, rest: Parsed<seq<TensorInfo>>)
    requires n > 0 && ReadInfos(s, i, n).Done?
    ensures ReadInfo(s, i) == Done(t, next) && rest == ReadInfos(s, next, n - 1)
    ensures rest.Done? && ReadInfos(s, i, n) == Done([t] + rest.value, rest.at)
  {
    var r := ReadInfo(s, i);
    t, next := r.value, r.at;
    rest := ReadInfos(s, next, n - 1);
  }

  lemma {:induction false} InfosAreChained(s: Bytes, i: nat, n: nat) returns (at: seq<nat>)
    requires ReadInfos(s, i, n).Done?
    ensures var r := ReadInfos(s, i, n); |r.value| == n && InfosChained(s, r.value, at) && at[0] == i && at[n] == r.at
    decreases n
  {
    hide ReadInfo;
    if n == 0 {
      at := [i];
    } else {
      var t, next, rest := InfosUnfold(s, i, n);
      hide ReadInfos, InfosChained;
      var more := InfosAreChained(s, next, n - 1);
      at := InfosConsed(s, t, rest.value, i, more);
    }
  }

  // ---- the whole file -----------------------------------------------------------------------------------------

  predicate StartsGguf(s: Bytes) {
    |s| >= 4 && s[0] == 0x47 && s[1] == 0x47 && s[2] == 0x55 && s[3] == 0x46
  }

  // "GGUF", the version, the number of tensors and the number of pairs.
  lemma HeaderBytes(s: Bytes)
    ensures ReadHeader(s) == if |s| < 4 then Fail(Truncated) else if !StartsGguf(s) then Fail(BadMagic) else if |s| < 24 then Fail(Truncated) else Done(Header(U32(s, 4), U64(s, 8), U64(s, 16)), 24)
  {
    hide U32, U64;
    if |s| >= 4 { assert s[0..4] == [s[0], s[1], s[2], s[3]]; }
    Number32(s, 4);
    Number64(s, 8);
    Number64(s, 16);
  }

  // Behind the header come all pairs and then all tensors.
  lemma FileBytes(s: Bytes, f: Meta, end: nat) returns (ps: seq<(Str, Data)>, at: seq<nat>, places: seq<nat>)
    requires ReadMeta(s) == Done(f, end)
    ensures StartsGguf(s) && |s| >= 24 && f.version == U32(s, 4)
    ensures |ps| == U64(s, 16) && PairsChained(s, ps, at) && at[0] == 24 && LastWins(map[], ps, f.metadata)
    ensures |f.tensors| == U64(s, 8) && InfosChained(s, f.tensors, places) && places[0] == at[|ps|] && places[|f.tensors|] == end
  {
    hide U32, U64, ReadPair, ReadInfo, LastWins;
    HeaderBytes(s);
    ps, at := PairsAreChained(s, 24, U64(s, 16), map[]);
    places := InfosAreChained(s, at[|ps|], U64(s, 8));
  }

  // ---- where the data starts -----------------------------------------------------------------------------------

  function Codes(t: string): (c: Str)
    ensures |c| == |t| && forall k :: 0 <= k < |t| ==> c[k] == t[k] as int
  {
    seq(|t|, i requires 0 <= i < |t| => t[i] as int)
  }

  lemma AlignmentName()
    ensures ALIGNMENT_KEY == Codes("general.alignment")
  {
  }

  ghost predicate GreatestMultiple(base: nat, cursor: nat, a: nat)
    requires a > 0
  {
    base % a == 0 && base <= cursor && forall x: nat :: x <= cursor && x % a == 0 ==> x <= base
  }

  // The data starts at the least multiple of the alignment not below the cursor, of 32 when the
  // file names none; for a negative alignment, at the greatest multiple not above it.
  lemma DataStarts(m: map<Str, Data>, cursor: nat)
    ensures var key := Codes("general.alignment");
            if key !in m then DataBase(m, cursor).Done? && LeastMultiple(DataBase(m, cursor).value, cursor, 32)
            else if !m[key].IntData? || m[key].n == 0 then DataBase(m, cursor) == if m[key] == BoolData(true) then Done(cursor, cursor) else Fail(BadAlignment)
            else DataBase(m, cursor).Done? && if m[key].n > 0 then LeastMultiple(DataBase(m, cursor).value, cursor, m[key].n) else GreatestMultiple(DataBase(m, cursor).value, cursor, -m[key].n)
  {
    hide LeastMultiple;
    AlignmentName();
    var key := Codes("general.alignment");
    if key !in m {
      BaseIsLeast(m, cursor, 32);
    } else if m[key].IntData? && m[key].n > 0 {
      BaseIsLeast(m, cursor, m[key].n);
    } else if m[key].IntData? && m[key].n < 0 {
      DownIsGreatest(cursor, -m[key].n);
    }
  }

  lemma DownIsGreatest(cursor: nat, b: int)
    requires b > 0
    ensures var base := cursor + PyMod(-b - PyMod(cursor, -b), -b); base >= 0 && GreatestMultiple(base, cursor, b)
  {
    NegativeStep(cursor, b);
    hide PyMod;
    var q: nat := cursor / b;
    assert cursor - cursor % b == q * b;
    DivMod(q, 0, b);
    forall x: nat | x <= cursor && x % b == 0 ensures x <= q * b {
      Divides(x, q, b, cursor);
    }
  }

  lemma Divides(x: nat, q: nat, b: int, cursor: nat)
    requires b > 0 && x <= cursor < q * b + b && x % b == 0
    ensures x <= q * b
  {
    var j: nat := x / b;
    assert x == j * b;
    if j > q { NextMultiple(q, j, b); }
  }

  lemma NegativeStep(cursor: nat, b: int)
    requires b > 0
    ensures PyMod(-b - PyMod(cursor, -b), -b) == -(cursor % b)
  {
    NegativeRemainder(cursor, b);
    var r := cursor % b;
    if r == 0 {
      DivMod(1, 0, b);
    } else {
      DivMod(0, r, b);
    }
  }

  // Rounded the other way.
  lemma NegativeRemainder(cursor: nat, b: int)
    requires b > 0
    ensures (0 - cursor) % b == if cursor % b == 0 then 0 else b - cursor % b
  {
    var q, r, t := cursor / b, cursor % b, (0 - cursor) % b;
    var h := (0 - cursor) / b;
    assert 0 - cursor == h * b + t && cursor == q * b + r;
    assert (h + q) * b == h * b + q * b == -(r + t);
    OnlyMultiple(h + q, b, r + t);
  }

  lemma OnlyMultiple(k: int, b: int, x: int)
    requires k * b == -x && 0 <= x < 2 * b
    ensures x == 0 || x == b
  {
    FarMultiples(k, b);
  }

  lemma FarMultiples(k: int, b: int)
    requires b > 0
    ensures k <= -2 ==> k * b <= -(2 * b)
    ensures k >= 1 ==> k * b >= b
  {
    if k <= -2 { Widen(2, -k, b); }
    if k >= 1 { Widen(1, k, b); }
  }
}
