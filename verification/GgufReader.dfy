// The reader object: a cursor that advances through the file while the tables fill.
module GgufReader {
  import opened GgufFormat
  import opened GgufFile
  import opened Strings
  import Utf8

  function Prepend<T>(items: seq<T>, r: Parsed<seq<T>>): Parsed<seq<T>> {
    match r
    case Fail(e) => Fail(e)
    case Done(rest, at) => Done(items + rest, at)
  }

  lemma PrependNone<T>(items: seq<T>, r: Parsed<seq<T>>)
    ensures Prepend([], r) == r
    ensures r.Done? && r.value == [] ==> Prepend(items, r) == Done(items, r.at)
  {
    match r
    case Fail(e) =>
    case Done(rest, at) =>
      assert [] + rest == rest;
      assert items + [] == items;
  }

  lemma PrependMore<T>(items: seq<T>, x: T, r: Parsed<seq<T>>)
    ensures Prepend(items, Prepend([x], r)) == Prepend(items + [x], r)
  {
    if r.Done? { assert items + ([x] + r.value) == items + [x] + r.value; }
  }

  lemma ElementsStep(s: Bytes, i: nat, et: nat, n: nat, v: Data, at: nat)
    requires i <= |s| && n > 0 && ReadValue(s, i, et) == Done(v, at)
    ensures at <= |s| && ReadElements(s, i, et, n) == Prepend([v], ReadElements(s, at, et, n - 1))
  {
  }

  lemma ElementsFail(s: Bytes, i: nat, et: nat, n: nat, e: Error)
    requires i <= |s| && n > 0 && ReadValue(s, i, et) == Fail(e)
    ensures ReadElements(s, i, et, n) == Fail(e)
  {
  }

  lemma InfosStep(s: Bytes, i: nat, n: nat, t: TensorInfo, at: nat)
    requires n > 0 && ReadInfo(s, i) == Done(t, at)
    ensures ReadInfos(s, i, n) == Prepend([t], ReadInfos(s, at, n - 1))
  {
  }

  lemma InfosFail(s: Bytes, i: nat, n: nat, e: Error)
    requires n > 0 && ReadInfo(s, i) == Fail(e)
    ensures ReadInfos(s, i, n) == Fail(e)
  {
  }

  class Reader {
    const file: Bytes
    var pos: nat
    var metadata: map<Str, Data>
    var tensors: seq<TensorInfo>
    var version: nat
    var dataBase: nat

    constructor (file: Bytes)
      ensures this.file == file && pos == 0 && metadata == map[] && tensors == []
    {
      this.file := file;
      pos := 0;
      metadata := map[];
      tensors := [];
      version := 0;
      dataBase := 0;
    }

    method Blobs(n: nat) returns (r: Parsed<Bytes>)
      requires pos <= |file|
      modifies this`pos
      ensures pos <= |file| && r == Take(file, old(pos), n) && (r.Done? ==> pos == r.at)
    {
      if pos + n > |file| {
        return Fail(Truncated);
      }
      r := Done(file[pos..pos + n], pos + n);
      pos := pos + n;
    }

    method Number(n: nat) returns (r: Parsed<nat>)
      requires pos <= |file|
      modifies this`pos
      ensures pos <= |file| && r == ReadUnsigned(file, old(pos), n) && (r.Done? ==> pos == r.at)
    {
      var b := Blobs(n);
      if b.Fail? {
        return Fail(b.error);
      }
      return Done(Unsigned(b.value), b.at);
    }

    method String() returns (r: Parsed<Str>)
      requires pos <= |file|
      modifies this`pos
      ensures pos <= |file| && r == ReadString(file, old(pos)) && (r.Done? ==> pos == r.at)
    {
      var n := Number(8);
      if n.Fail? {
        return Fail(n.error);
      }
      var b := Blobs(n.value);
      if b.Fail? {
        return Fail(b.error);
      }
      if !Utf8.WellFormed(b.value) {
        return Fail(BadText);
      }
      return Done(Utf8.FromUtf8(b.value), b.at);
    }

    method Prim(tag: nat) returns (r: Parsed<Data>)
      requires pos <= |file|
      modifies this`pos
      ensures pos <= |file| && r == ReadPrim(file, old(pos), tag) && (r.Done? ==> pos == r.at)
    {
      if Width(tag) > 0 {
        var b := Blobs(Width(tag));
        if b.Fail? {
          return Fail(b.error);
        }
        return Done(GgufFormat.Number(tag, b.value), b.at);
      }
      if tag == STRING {
        var t := String();
        if t.Fail? {
          return Fail(t.error);
        }
        return Done(StringData(t.value), t.at);
      }
      return Fail(UnknownType);
    }

    method Value(tag: nat) returns (r: Parsed<Data>)
      requires pos <= |file|
      modifies this`pos
      ensures pos <= |file| && r == ReadValue(file, old(pos), tag) && (r.Done? ==> pos == r.at)
      decreases |file| - pos, 1
    {
      if tag != ARRAY {
        r := Prim(tag);
        return;
      }
      var et := Number(4);
      if et.Fail? {
        return Fail(et.error);
      }
      var n := Number(8);
      if n.Fail? {
        return Fail(n.error);
      }
      var items := Elements(et.value, n.value);
      if items.Fail? {
        return Fail(items.error);
      }
      return Done(ListData(items.value), items.at);
    }

    method Elements(et: nat, n: nat) returns (r: Parsed<seq<Data>>)
      requires pos <= |file|
      modifies this`pos
      ensures pos <= |file| && r == ReadElements(file, old(pos), et, n) && (r.Done? ==> pos == r.at)
      decreases |file| - pos, 2
    {
      ghost var want := ReadElements(file, pos, et, n);
      var items: seq<Data> := [];
      PrependNone(items, want);
      for k := 0 to n
        invariant old(pos) <= pos <= |file| && want == Prepend(items, ReadElements(file, pos, et, n - k))
      {
        ghost var i := pos;
        var v := Value(et);
        if v.Fail? {
          ElementsFail(file, i, et, n - k, v.error);
          return Fail(v.error);
        }
        ElementsStep(file, i, et, n - k, v.value, v.at);
        PrependMore(items, v.value, ReadElements(file, v.at, et, n - k - 1));
        items := items + [v.value];
      }
      PrependNone(items, ReadElements(file, pos, et, 0));
      return Done(items, pos);
    }

    method Pairs(n: nat) returns (r: Parsed<map<Str, Data>>)
      requires pos <= |file| && metadata == map[]
      modifies this`pos, this`metadata
      ensures pos <= |file| && r == ReadPairs(file, old(pos), n, map[]) && (r.Done? ==> pos == r.at && metadata == r.value)
    {
      ghost var want := ReadPairs(file, pos, n, map[]);
      for k := 0 to n
        invariant pos <= |file| && want == ReadPairs(file, pos, n - k, metadata)
      {
        var p := Pair();
        if p.Fail? {
          return Fail(p.error);
        }
        metadata := metadata[p.value.0 := p.value.1];
      }
      return Done(metadata, pos);
    }

    method Pair() returns (r: Parsed<(Str, Data)>)
      requires pos <= |file|
      modifies this`pos
      ensures pos <= |file| && r == ReadPair(file, old(pos)) && (r.Done? ==> pos == r.at)
    {
      var key := String();
      if key.Fail? {
        return Fail(key.error);
      }
      var tag := Number(4);
      if tag.Fail? {
        return Fail(tag.error);
      }
      var v := Value(tag.value);
      if v.Fail? {
        return Fail(v.error);
      }
      return Done((key.value, v.value), v.at);
    }

    method Dims(n: nat) returns (r: Parsed<seq<nat>>)
      requires pos <= |file|
      modifies this`pos
      ensures pos <= |file| && r == ReadDims(file, old(pos), n) && (r.Done? ==> pos == r.at)
    {
      ghost var want := ReadDims(file, pos, n);
      var dims: seq<nat> := [];
      PrependNone(dims, want);
      for k := 0 to n
        invariant pos <= |file| && want == Prepend(dims, ReadDims(file, pos, n - k))
      {
        ghost var i := pos;
        var d := Number(8);
        if d.Fail? {
          return Fail(d.error);
        }
        assert ReadDims(file, i, n - k) == Prepend([d.value], ReadDims(file, d.at, n - k - 1));
        PrependMore(dims, d.value, ReadDims(file, d.at, n - k - 1));
        dims := dims + [d.value];
      }
      PrependNone(dims, ReadDims(file, pos, 0));
      return Done(dims, pos);
    }

    method Info() returns (r: Parsed<TensorInfo>)
      requires pos <= |file|
      modifies this`pos
      ensures pos <= |file| && r == ReadInfo(file, old(pos)) && (r.Done? ==> pos == r.at)
    {
      var name := String();
      if name.Fail? {
        return Fail(name.error);
      }
      var nd := Number(4);
      if nd.Fail? {
        return Fail(nd.error);
      }
      var dims := Dims(nd.value);
      if dims.Fail? {
        return Fail(dims.error);
      }
      r := Tail(name.value, dims.value);
    }

    method Tail(name: Str, dims: seq<nat>) returns (r: Parsed<TensorInfo>)
      requires pos <= |file|
      modifies this`pos
      ensures pos <= |file| && r == ReadTail(file, old(pos), name, dims) && (r.Done? ==> pos == r.at)
    {
      var kind := Number(4);
      if kind.Fail? {
        return Fail(kind.error);
      }
      var offset := Number(8);
      if offset.Fail? {
        return Fail(offset.error);
      }
      return Done(TensorInfo(name, kind.value, Reversed(dims), offset.value), offset.at);
    }

    method Infos(n: nat) returns (r: Parsed<seq<TensorInfo>>)
      requires pos <= |file| && tensors == []
      modifies this`pos, this`tensors
      ensures pos <= |file| && r == ReadInfos(file, old(pos), n) && (r.Done? ==> pos == r.at && tensors == r.value)
    {
      ghost var want := ReadInfos(file, pos, n);
      PrependNone(tensors, want);
      for k := 0 to n
        invariant pos <= |file| && want == Prepend(tensors, ReadInfos(file, pos, n - k))
      {
        var e := NextInfo(n - k, want);
        if e.Fail? {
          return Fail(e.error);
        }
      }
      PrependNone(tensors, ReadInfos(file, pos, 0));
      return Done(tensors, pos);
    }

    // One more tensor, of the n still to be read.
    method NextInfo(ghost n: nat, ghost want: Parsed<seq<TensorInfo>>) returns (r: Parsed<TensorInfo>)
      requires pos <= |file| && n > 0 && want == Prepend(tensors, ReadInfos(file, pos, n))
      modifies this`pos, this`tensors
      ensures pos <= |file|
      ensures r.Fail? ==> want == Fail(r.error)
      ensures r.Done? ==> want == Prepend(tensors, ReadInfos(file, pos, n - 1))
    {
      ghost var i := pos;
      r := Info();
      if r.Fail? {
        InfosFail(file, i, n, r.error);
        return;
      }
      InfosStep(file, i, n, r.value, r.at);
      PrependMore(tensors, r.value, ReadInfos(file, r.at, n - 1));
      tensors := tensors + [r.value];
    }

    method HeaderFields() returns (r: Parsed<Header>)
      requires pos == 0
      modifies this`pos
      ensures pos <= |file| && r == ReadHeader(file) && (r.Done? ==> pos == r.at)
    {
      var magic := Blobs(4);
      if magic.Fail? {
        return Fail(magic.error);
      }
      if magic.value != MAGIC {
        return Fail(BadMagic);
      }
      var v := Number(4);
      if v.Fail? {
        return Fail(v.error);
      }
      var nTensors := Number(8);
      if nTensors.Fail? {
        return Fail(nTensors.error);
      }
      var nKv := Number(8);
      if nKv.Fail? {
        return Fail(nKv.error);
      }
      return Done(Header(v.value, nTensors.value, nKv.value), pos);
    }

    // The reader's constructor after opening the file: the tables, and where the data starts.
    method Load() returns (r: Parsed<nat>)
      requires pos == 0 && metadata == map[] && tensors == []
      modifies this
      ensures ReadMeta(file).Fail? ==> r == Fail(ReadMeta(file).error)
      ensures ReadMeta(file).Done? ==> Meta(version, metadata, tensors) == ReadMeta(file).value && r == DataBase(metadata, ReadMeta(file).at)
      ensures r.Done? ==> dataBase == r.value
    {
      var h := HeaderFields();
      if h.Fail? {
        return Fail(h.error);
      }
      version := h.value.version;
      var pairs := Pairs(h.value.pairs);
      if pairs.Fail? {
        return Fail(pairs.error);
      }
      var infos := Infos(h.value.tensors);
      if infos.Fail? {
        return Fail(infos.error);
      }
      r := DataBase(metadata, pos);
      if r.Done? {
        dataBase := r.value;
      }
    }
  }
}
