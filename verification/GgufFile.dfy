// A whole GGUF file up to its tensor data: its layout, reading it back, and the alignment of the data.
module GgufFile {
  import opened Division
  import opened GgufFormat
  import opened Strings

  // ---- reading -----------------------------------------------------------------------------------

  datatype TensorInfo = TensorInfo(name: Str, kind: nat, shape: seq<nat>, offset: nat)
  datatype Meta = Meta(version: nat, metadata: map<Str, Data>, tensors: seq<TensorInfo>)

  const MAGIC: Bytes := [71, 71, 85, 70]

  // Later keys override earlier ones.
  function ReadPairs(s: Bytes, i: nat, n: nat, m: map<Str, Data>): (r: Parsed<map<Str, Data>>)
    ensures r.Done? && i <= |s| ==> i <= r.at <= |s|
    decreases n
  {
    if n == 0 then Done(m, i)
    else
      match ReadPair(s, i)
      case Fail(e) => Fail(e)
      case Done(p, at) => ReadPairs(s, at, n - 1, m[p.0 := p.1])
  }

  function ReadPair(s: Bytes, i: nat): (r: Parsed<(Str, Data)>)
    ensures r.Done? ==> i < r.at <= |s|
  {
    match ReadString(s, i)
    case Fail(e) => Fail(e)
    case Done(key, at) =>
      match ReadUnsigned(s, at, 4)
      case Fail(e) => Fail(e)
      case Done(tag, start) =>
        match ReadValue(s, start, tag)
        case Fail(e) => Fail(e)
        case Done(v, end) => Done((key, v), end)
  }

  function ReadDims(s: Bytes, i: nat, n: nat): (r: Parsed<seq<nat>>)
    ensures r.Done? && i <= |s| ==> i <= r.at <= |s|
    decreases n
  {
    if n == 0 then Done([], i)
    else
      match ReadUnsigned(s, i, 8)
      case Fail(e) => Fail(e)
      case Done(d, at) =>
        match ReadDims(s, at, n - 1)
        case Fail(e) => Fail(e)
        case Done(rest, end) => Done([d] + rest, end)
  }

  function Reversed(d: seq<nat>): (r: seq<nat>)
    ensures |r| == |d| && forall k :: 0 <= k < |d| ==> r[k] == d[|d| - 1 - k]
  {
    if d == [] then [] else Reversed(d[1..]) + [d[0]]
  }

  function ReadInfo(s: Bytes, i: nat): (r: Parsed<TensorInfo>)
    ensures r.Done? ==> i < r.at <= |s|
  {
    match ReadString(s, i)
    case Fail(e) => Fail(e)
    case Done(name, a) =>
      match ReadUnsigned(s, a, 4)
      case Fail(e) => Fail(e)
      case Done(nd, b) =>
        match ReadDims(s, b, nd)
        case Fail(e) => Fail(e)
        case Done(dims, c) => ReadTail(s, c, name, dims)
  }

  function ReadTail(s: Bytes, i: nat, name: Str, dims: seq<nat>): (r: Parsed<TensorInfo>)
    ensures r.Done? ==> r.at == i + 12 <= |s|
  {
    match ReadUnsigned(s, i, 4)
    case Fail(e) => Fail(e)
    case Done(kind, at) =>
      match ReadUnsigned(s, at, 8)
      case Fail(e) => Fail(e)
      case Done(offset, end) => Done(TensorInfo(name, kind, Reversed(dims), offset), end)
  }

  function ReadInfos(s: Bytes, i: nat, n: nat): (r: Parsed<seq<TensorInfo>>)
    ensures r.Done? && i <= |s| ==> i <= r.at <= |s|
    decreases n
  {
    if n == 0 then Done([], i)
    else
      match ReadInfo(s, i)
      case Fail(e) => Fail(e)
      case Done(info, at) =>
        match ReadInfos(s, at, n - 1)
        case Fail(e) => Fail(e)
        case Done(rest, end) => Done([info] + rest, end)
  }

  datatype Header = Header(version: nat, tensors: nat, pairs: nat)

  function ReadHeader(s: Bytes): (r: Parsed<Header>)
    ensures r.Done? ==> r.at == 24 <= |s|
  {
    match Take(s, 0, 4)
    case Fail(e) => Fail(e)
    case Done(magic, _) =>
      if magic != MAGIC then Fail(BadMagic)
      else
        match ReadUnsigned(s, 4, 4)
        case Fail(e) => Fail(e)
        case Done(version, _) =>
          match ReadUnsigned(s, 8, 8)
          case Fail(e) => Fail(e)
          case Done(tensors, _) =>
            match ReadUnsigned(s, 16, 8)
            case Fail(e) => Fail(e)
            case Done(pairs, at) => Done(Header(version, tensors, pairs), at)
  }

  // Everything up to the tensor data.
  function ReadMeta(s: Bytes): (r: Parsed<Meta>)
    ensures r.Done? ==> 24 <= r.at <= |s|
  {
    match ReadHeader(s)
    case Fail(e) => Fail(e)
    case Done(h, start) =>
      match ReadPairs(s, start, h.pairs, map[])
      case Fail(e) => Fail(e)
      case Done(m, at) =>
        match ReadInfos(s, at, h.tensors)
        case Fail(e) => Fail(e)
        case Done(infos, end) => Done(Meta(h.version, m, infos), end)
  }

  // ---- alignment --------------------------------------------------------------------------------------

  // "general.alignment"
  const ALIGNMENT_KEY: Str := [103, 101, 110, 101, 114, 97, 108, 46, 97, 108, 105, 103, 110, 109, 101, 110, 116]
  const DEFAULT_ALIGNMENT := 32

  // Python's remainder, which takes the sign of the divisor.
  function PyMod(a: int, b: int): int
    requires b != 0
  {
    if b > 0 then a % b else -((-a) % (-b))
  }

  // The alignment of the data; values that are no integer, zero and seeks before the start of
  // the file are errors.
  function DataBase(m: map<Str, Data>, cursor: nat): Parsed<nat> {
    if ALIGNMENT_KEY !in m then Done(AlignUp(cursor, DEFAULT_ALIGNMENT), cursor)
    else
      match m[ALIGNMENT_KEY]
      case IntData(a) =>
        if a == 0 then Fail(BadAlignment)
        else
          var base := cursor + PyMod(a - PyMod(cursor, a), a);
          if base < 0 then Fail(BadAlignment) else Done(base, cursor)
      case BoolData(b) => if b then Done(cursor, cursor) else Fail(BadAlignment)
      case _ => Fail(BadAlignment)
  }

  function AlignUp(cursor: nat, a: nat): nat
    requires a > 0
  {
    cursor + (a - cursor % a) % a
  }

  ghost predicate LeastMultiple(base: nat, cursor: nat, a: nat)
    requires a > 0
  {
    base % a == 0 && cursor <= base && forall x: nat :: cursor <= x && x % a == 0 ==> base <= x
  }

  lemma AlignUpIsLeast(cursor: nat, a: nat)
    requires a > 0
    ensures LeastMultiple(AlignUp(cursor, a), cursor, a)
  {
    var k := AlignedAt(cursor, a);
    DivMod(k, 0, a);
    hide AlignUp;
    forall x: nat | cursor <= x && x % a == 0 ensures AlignUp(cursor, a) <= x {
      NoneBelow(k, cursor, x, x / a, a);
    }
  }

  lemma AlignedAt(cursor: nat, a: nat) returns (k: nat)
    requires a > 0
    ensures AlignUp(cursor, a) == k * a && cursor <= k * a < cursor + a
  {
    var q, r := cursor / a, cursor % a;
    if r == 0 {
      DivMod(1, 0, a);
      k := q;
    } else {
      DivMod(0, a - r, a);
      k := q + 1;
      assert (q + 1) * a == q * a + a;
    }
  }

  lemma NoneBelow(k: nat, cursor: nat, x: nat, j: nat, a: nat)
    requires k * a < cursor + a && cursor <= x && x == j * a
    ensures k * a <= x
  {
    if j < k { NextMultiple(j, k, a); }
  }

  // For a positive alignment the data starts at the least multiple not below the cursor.
  lemma BaseIsLeast(m: map<Str, Data>, cursor: nat, a: nat)
    requires a > 0 && (if ALIGNMENT_KEY in m then m[ALIGNMENT_KEY] == IntData(a) else a == DEFAULT_ALIGNMENT)
    ensures DataBase(m, cursor).Done? && LeastMultiple(DataBase(m, cursor).value, cursor, a)
  {
    AlignUpIsLeast(cursor, a);
  }

  // ---- layout --------------------------------------------------------------------------------------------

  // Dimensions in the order the file stores them.
  datatype Info = Info(name: Str, dims: seq<nat>, kind: nat, offset: nat)
  datatype File = File(version: nat, pairs: seq<(Str, Value)>, infos: seq<Info>)

  ghost predicate InfoOk(t: Info) {
    && TextOk(t.name) && |t.dims| < WORD32 && t.kind < WORD32 && t.offset < WORD64
    && forall k :: 0 <= k < |t.dims| ==> t.dims[k] < WORD64
  }

  ghost predicate FileOk(f: File) {
    && f.version < WORD32 && |f.pairs| < WORD64 && |f.infos| < WORD64
    && PairsOk(f.pairs)
    && (forall k :: 0 <= k < |f.infos| ==> InfoOk(f.infos[k]))
  }

  ghost predicate PairsOk(ps: seq<(Str, Value)>) {
    ps == [] || (PairOk(ps[0]) && PairsOk(ps[1..]))
  }

  ghost predicate PairOk(p: (Str, Value)) {
    TextOk(p.0) && ValueOk(p.1)
  }

  function EncodePair(p: (Str, Value)): Bytes {
    EncodeText(p.0) + (Little(Tag(p.1), 4) + Encode(p.1))
  }

  function EncodePairs(ps: seq<(Str, Value)>): Bytes {
    if ps == [] then [] else EncodePair(ps[0]) + EncodePairs(ps[1..])
  }

  function EncodeDims(d: seq<nat>): Bytes {
    if d == [] then [] else Little(d[0], 8) + EncodeDims(d[1..])
  }

  function EncodeInfo(t: Info): Bytes {
    EncodeText(t.name) + (Little(|t.dims|, 4) + (EncodeDims(t.dims) + (Little(t.kind, 4) + Little(t.offset, 8))))
  }

  function EncodeInfos(ts: seq<Info>): Bytes {
    if ts == [] then [] else EncodeInfo(ts[0]) + EncodeInfos(ts[1..])
  }

  function EncodeHeader(f: File): (b: Bytes)
    ensures |b| == 24
  {
    MAGIC + (Little(f.version, 4) + (Little(|f.infos|, 8) + Little(|f.pairs|, 8)))
  }

  function Serialise(f: File): Bytes {
    EncodeHeader(f) + (EncodePairs(f.pairs) + EncodeInfos(f.infos))
  }

  // What the reader should hold.
  function MapOf(ps: seq<(Str, Value)>, m: map<Str, Data>): map<Str, Data> {
    if ps == [] then m else MapOf(ps[1..], m[ps[0].0 := Meaning(ps[0].1)])
  }

  function InfoOf(t: Info): TensorInfo {
    TensorInfo(t.name, t.kind, Reversed(t.dims), t.offset)
  }

  function InfosOf(ts: seq<Info>): (r: seq<TensorInfo>)
    ensures |r| == |ts| && forall k :: 0 <= k < |ts| ==> r[k] == InfoOf(ts[k])
  {
    if ts == [] then [] else [InfoOf(ts[0])] + InfosOf(ts[1..])
  }

  function MetaOf(f: File): Meta {
    Meta(f.version, MapOf(f.pairs, map[]), InfosOf(f.infos))
  }

  // ---- reading inverts the layout ------------------------------------------------------------------------

  lemma TagBelow(v: Value)
    requires ValueOk(v)
    ensures Tag(v) < WORD32
  {
  }

  lemma PairRead(s: Bytes, i: nat, p: (Str, Value))
    requires PairOk(p) && Has(s, i, EncodePair(p))
    ensures ReadPair(s, i) == Done((p.0, Meaning(p.1)), i + |EncodePair(p)|)
  {
    hide EncodeText, TextOk, Has, ReadString, ReadValue;
    HasSplit(s, i, EncodeText(p.0), Little(Tag(p.1), 4) + Encode(p.1));
    var at := i + |EncodeText(p.0)|;
    HasSplit(s, at, Little(Tag(p.1), 4), Encode(p.1));
    ReadText(s, i, p.0);
    TagBelow(p.1);
    ReadWord(s, at, Tag(p.1), 4);
    ReadEncoded(s, at + 4, p.1);
  }

  lemma PairsStep(s: Bytes, i: nat, n: nat, m: map<Str, Data>, p: (Str, Data), at: nat)
    requires n > 0 && ReadPair(s, i) == Done(p, at)
    ensures ReadPairs(s, i, n, m) == ReadPairs(s, at, n - 1, m[p.0 := p.1])
  {
  }

  lemma PairsSplit(s: Bytes, i: nat, ps: seq<(Str, Value)>) returns (at: nat)
    requires ps != [] && Has(s, i, EncodePairs(ps))
    ensures at == i + |EncodePair(ps[0])| && Has(s, i, EncodePair(ps[0])) && Has(s, at, EncodePairs(ps[1..]))
    ensures i + |EncodePairs(ps)| == at + |EncodePairs(ps[1..])|
  {
    HasSplit(s, i, EncodePair(ps[0]), EncodePairs(ps[1..]));
    at := i + |EncodePair(ps[0])|;
  }

  lemma FirstPairRead(s: Bytes, i: nat, ps: seq<(Str, Value)>, n: nat, m: map<Str, Data>, at: nat) returns (next: map<Str, Data>)
    requires ps != [] && n == |ps| && PairsOk(ps) && Has(s, i, EncodePair(ps[0])) && at == i + |EncodePair(ps[0])|
    ensures ReadPairs(s, i, n, m) == ReadPairs(s, at, n - 1, next) && MapOf(ps, m) == MapOf(ps[1..], next)
  {
    var p := (ps[0].0, Meaning(ps[0].1));
    PairRead(s, i, ps[0]);
    PairsStep(s, i, n, m, p, at);
    next := m[p.0 := p.1];
  }

  lemma {:induction false} PairsRead(s: Bytes, i: nat, ps: seq<(Str, Value)>, n: nat, m: map<Str, Data>, end: nat)
    requires PairsOk(ps) && n == |ps| && Has(s, i, EncodePairs(ps)) && end == i + |EncodePairs(ps)|
    ensures ReadPairs(s, i, n, m) == Done(MapOf(ps, m), end)
    decreases n
  {
    if n > 0 {
      var at := PairsSplit(s, i, ps);
      var next := FirstPairRead(s, i, ps, n, m, at);
      PairsRead(s, at, ps[1..], n - 1, next, end);
    }
  }

  lemma {:induction false} DimsRead(s: Bytes, i: nat, d: seq<nat>)
    requires (forall k :: 0 <= k < |d| ==> d[k] < WORD64) && Has(s, i, EncodeDims(d))
    ensures ReadDims(s, i, |d|) == Done(d, i + |EncodeDims(d)|)
    decreases |d|
  {
    if d != [] {
      HasSplit(s, i, Little(d[0], 8), EncodeDims(d[1..]));
      ReadWord(s, i, d[0], 8);
      assert forall k :: 0 <= k < |d[1..]| ==> d[1..][k] == d[k + 1];
      DimsRead(s, i + 8, d[1..]);
      assert [d[0]] + d[1..] == d;
    }
  }

  lemma TailRead(s: Bytes, i: nat, t: Info)
    requires InfoOk(t) && Has(s, i, Little(t.kind, 4) + Little(t.offset, 8))
    ensures ReadTail(s, i, t.name, t.dims) == Done(InfoOf(t), i + 12)
  {
    HasSplit(s, i, Little(t.kind, 4), Little(t.offset, 8));
    ReadWord(s, i, t.kind, 4);
    ReadWord(s, i + 4, t.offset, 8);
  }

  lemma InfoSteps(s: Bytes, i: nat, name: Str, a: nat, nd: nat, b: nat, dims: seq<nat>, c: nat)
    requires ReadString(s, i) == Done(name, a) && ReadUnsigned(s, a, 4) == Done(nd, b) && ReadDims(s, b, nd) == Done(dims, c)
    ensures ReadInfo(s, i) == ReadTail(s, c, name, dims)
  {
  }

  lemma InfoRead(s: Bytes, i: nat, t: Info)
    requires InfoOk(t) && Has(s, i, EncodeInfo(t))
    ensures ReadInfo(s, i) == Done(InfoOf(t), i + |EncodeInfo(t)|)
  {
    hide ReadInfo, ReadDims, ReadString, ReadTail, Has, EncodeDims;
    var tail := Little(t.kind, 4) + Little(t.offset, 8);
    var rest := EncodeDims(t.dims) + tail;
    HasSplit(s, i, EncodeText(t.name), Little(|t.dims|, 4) + rest);
    var a := i + |EncodeText(t.name)|;
    HasSplit(s, a, Little(|t.dims|, 4), rest);
    HasSplit(s, a + 4, EncodeDims(t.dims), tail);
    ReadText(s, i, t.name);
    ReadWord(s, a, |t.dims|, 4);
    DimsRead(s, a + 4, t.dims);
    InfoSteps(s, i, t.name, a, |t.dims|, a + 4, t.dims, a + 4 + |EncodeDims(t.dims)|);
    TailRead(s, a + 4 + |EncodeDims(t.dims)|, t);
  }

  lemma InfosNext(s: Bytes, i: nat, n: nat, t: TensorInfo, at: nat, rest: seq<TensorInfo>, end: nat)
    requires n > 0 && ReadInfo(s, i) == Done(t, at) && ReadInfos(s, at, n - 1) == Done(rest, end)
    ensures ReadInfos(s, i, n) == Done([t] + rest, end)
  {
  }

  lemma {:induction false} InfosRead(s: Bytes, i: nat, ts: seq<Info>, n: nat, end: nat)
    requires (forall k :: 0 <= k < |ts| ==> InfoOk(ts[k])) && n == |ts| && Has(s, i, EncodeInfos(ts)) && end == i + |EncodeInfos(ts)|
    ensures ReadInfos(s, i, n) == Done(InfosOf(ts), end)
    decreases n
  {
    if n > 0 {
      hide ReadInfo, EncodeInfo;
      HasSplit(s, i, EncodeInfo(ts[0]), EncodeInfos(ts[1..]));
      InfoRead(s, i, ts[0]);
      assert forall k :: 0 <= k < |ts[1..]| ==> ts[1..][k] == ts[k + 1];
      var at := i + |EncodeInfo(ts[0])|;
      InfosRead(s, at, ts[1..], n - 1, end);
      InfosNext(s, i, n, InfoOf(ts[0]), at, InfosOf(ts[1..]), end);
    }
  }

  lemma HeaderRead(s: Bytes, f: File)
    requires FileOk(f) && Has(s, 0, EncodeHeader(f))
    ensures ReadHeader(s) == Done(Header(f.version, |f.infos|, |f.pairs|), 24)
  {
    var rest := Little(|f.infos|, 8) + Little(|f.pairs|, 8);
    HasSplit(s, 0, MAGIC, Little(f.version, 4) + rest);
    HasSplit(s, 4, Little(f.version, 4), rest);
    HasSplit(s, 8, Little(|f.infos|, 8), Little(|f.pairs|, 8));
    ReadWord(s, 4, f.version, 4);
    ReadWord(s, 8, |f.infos|, 8);
    ReadWord(s, 16, |f.pairs|, 8);
    TakeHas(s, 0, MAGIC);
  }

  lemma HeaderThenRest(s: Bytes, h: Header, m: map<Str, Data>, infos: seq<TensorInfo>, at: nat, end: nat)
    requires ReadHeader(s) == Done(h, 24) && ReadPairs(s, 24, h.pairs, map[]) == Done(m, at) && ReadInfos(s, at, h.tensors) == Done(infos, end)
    ensures ReadMeta(s) == Done(Meta(h.version, m, infos), end)
  {
  }

  lemma Sections(s: Bytes, f: File) returns (at: nat, end: nat)
    requires Has(s, 0, Serialise(f))
    ensures Has(s, 0, EncodeHeader(f)) && Has(s, 24, EncodePairs(f.pairs)) && Has(s, at, EncodeInfos(f.infos))
    ensures at == 24 + |EncodePairs(f.pairs)| && end == at + |EncodeInfos(f.infos)| == |Serialise(f)|
  {
    HasSplit(s, 0, EncodeHeader(f), EncodePairs(f.pairs) + EncodeInfos(f.infos));
    HasSplit(s, 24, EncodePairs(f.pairs), EncodeInfos(f.infos));
    at := 24 + |EncodePairs(f.pairs)|;
    end := at + |EncodeInfos(f.infos)|;
  }

  lemma MetaRead(s: Bytes, f: File)
    requires FileOk(f) && Has(s, 0, Serialise(f))
    ensures ReadMeta(s) == Done(MetaOf(f), |Serialise(f)|)
  {
    hide ReadMeta, ReadHeader, ReadPairs, ReadInfos;
    var at, end := Sections(s, f);
    var h := Header(f.version, |f.infos|, |f.pairs|);
    HeaderRead(s, f);
    PairsRead(s, 24, f.pairs, h.pairs, map[], at);
    InfosRead(s, at, f.infos, h.tensors, end);
    HeaderThenRest(s, h, MapOf(f.pairs, map[]), InfosOf(f.infos), at, end);
  }

  // Whatever follows the metadata, reading recovers all of it and stops where it ends.
  lemma ReadInvertsLayout(f: File, rest: Bytes)
    requires FileOk(f)
    ensures ReadMeta(Serialise(f) + rest) == Done(MetaOf(f), |Serialise(f)|)
  {
    MetaRead(Serialise(f) + rest, f);
  }

  // ---- truncated files -------------------------------------------------------------------------------------

  lemma CutPair(s: Bytes, i: nat, k: nat)
    requires i <= k <= |s|
    ensures CutTo(ReadPair(s, i), ReadPair(s[..k], i), k)
  {
    CutString(s, i, k);
    var key := ReadString(s, i);
    if key.Done? && key.at <= k {
      CutUnsigned(s, key.at, 4, k);
      var tag := ReadUnsigned(s, key.at, 4);
      if tag.Done? && tag.at <= k { CutValue(s, tag.at, tag.value, k); }
    }
  }

  lemma PairsFail(s: Bytes, i: nat, n: nat, m: map<Str, Data>, e: Error)
    requires n > 0 && ReadPair(s, i) == Fail(e)
    ensures ReadPairs(s, i, n, m) == Fail(e)
  {
  }

  lemma {:induction false} CutAfterPair(s: Bytes, cut: Bytes, i: nat, n: nat, m: map<Str, Data>, k: nat, p: (Str, Data), at: nat, j: nat, x: map<Str, Data>)
    requires i <= at <= k <= |s| && cut == s[..k] && n == j + 1 && x == m[p.0 := p.1] && ReadPair(s, i) == Done(p, at) && ReadPair(cut, i) == Done(p, at)
    ensures CutTo(ReadPairs(s, i, n, m), ReadPairs(cut, i, n, m), k)
    decreases j, 1
  {
    hide ReadPair, ReadPairs;
    PairsStep(s, i, n, m, p, at);
    PairsStep(cut, i, n, m, p, at);
    CutPairs(s, cut, at, j, x, k);
  }

  lemma {:induction false} CutPairs(s: Bytes, cut: Bytes, i: nat, n: nat, m: map<Str, Data>, k: nat)
    requires i <= k <= |s| && cut == s[..k]
    ensures CutTo(ReadPairs(s, i, n, m), ReadPairs(cut, i, n, m), k)
    decreases n, 0
  {
    if n > 0 {
      CutPair(s, i, k);
      var p := ReadPair(s, i);
      if p.Fail? {
        PairsFail(s, i, n, m, p.error);
      } else if p.at <= k {
        CutAfterPair(s, cut, i, n, m, k, p.value, p.at, n - 1, m[p.value.0 := p.value.1]);
      } else {
        PairsStep(s, i, n, m, p.value, p.at);
        PairsFail(cut, i, n, m, Truncated);
      }
    }
  }

  lemma {:induction false} CutDims(s: Bytes, i: nat, n: nat, k: nat)
    requires i <= k <= |s|
    ensures CutTo(ReadDims(s, i, n), ReadDims(s[..k], i, n), k)
    decreases n
  {
    if n > 0 {
      CutUnsigned(s, i, 8, k);
      var d := ReadUnsigned(s, i, 8);
      if d.Done? && d.at <= k { CutDims(s, d.at, n - 1, k); }
    }
  }

  lemma CutTail(s: Bytes, i: nat, name: Str, dims: seq<nat>, k: nat)
    requires i <= k <= |s|
    ensures CutTo(ReadTail(s, i, name, dims), ReadTail(s[..k], i, name, dims), k)
  {
    CutUnsigned(s, i, 4, k);
    CutUnsigned(s, i + 4, 8, k);
  }

  lemma CutInfo(s: Bytes, i: nat, k: nat)
    requires i <= k <= |s|
    ensures CutTo(ReadInfo(s, i), ReadInfo(s[..k], i), k)
  {
    CutString(s, i, k);
    var name := ReadString(s, i);
    if name.Done? && name.at <= k {
      CutUnsigned(s, name.at, 4, k);
      var nd := ReadUnsigned(s, name.at, 4);
      if nd.Done? && nd.at <= k {
        CutDims(s, nd.at, nd.value, k);
        var dims := ReadDims(s, nd.at, nd.value);
        if dims.Done? && dims.at <= k { CutTail(s, dims.at, name.value, dims.value, k); }
      }
    }
  }

  lemma {:induction false} CutInfos(s: Bytes, i: nat, n: nat, k: nat)
    requires i <= k <= |s|
    ensures CutTo(ReadInfos(s, i, n), ReadInfos(s[..k], i, n), k)
    decreases n
  {
    if n > 0 {
      CutInfo(s, i, k);
      var t := ReadInfo(s, i);
      if t.Done? && t.at <= k { CutInfos(s, t.at, n - 1, k); }
    }
  }

  lemma CutHeader(s: Bytes, k: nat)
    requires k <= |s|
    ensures CutTo(ReadHeader(s), ReadHeader(s[..k]), k)
  {
    CutTake(s, 0, 4, k);
    CutUnsigned(s, 4, 4, k);
    CutUnsigned(s, 8, 8, k);
    CutUnsigned(s, 16, 8, k);
  }

  lemma CutMeta(s: Bytes, k: nat)
    requires k <= |s|
    ensures CutTo(ReadMeta(s), ReadMeta(s[..k]), k)
  {
    CutHeader(s, k);
    var h := ReadHeader(s);
    if h.Done? && h.at <= k {
      CutPairs(s, s[..k], h.at, h.value.pairs, map[], k);
      var m := ReadPairs(s, h.at, h.value.pairs, map[]);
      if m.Done? && m.at <= k { CutInfos(s, m.at, h.value.tensors, k); }
    }
  }

  // Reading any strict prefix of a file's metadata meets the end of the file.
  lemma TruncationIsFound(f: File, k: nat)
    requires FileOk(f) && k < |Serialise(f)|
    ensures ReadMeta(Serialise(f)[..k]) == Fail(Truncated)
  {
    ReadInvertsLayout(f, []);
    assert Serialise(f) + [] == Serialise(f);
    CutMeta(Serialise(f), k);
  }
}
