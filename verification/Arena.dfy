// The context's memory: object headers that live in the buffer and form a linked list.
module Arena {
  import opened Options
  import opened ArenaLayout

  // What is stored at the offset of a header.
  datatype Header = Header(offs: nat, size: nat, next: Option<nat>, kind: Kind)

  type Headers = map<nat, Header>

  // The header of object i is in place, and names the next one.
  ghost predicate LinkedIn(headers: Headers, objs: seq<Object>, i: nat)
    requires i < |objs|
  {
    && objs[i].at in headers
    && headers[objs[i].at] == Header(objs[i].offs, objs[i].size, if i + 1 < |objs| then Some(objs[i + 1].at) else None, objs[i].kind)
  }

  ghost predicate AllLinked(headers: Headers, objs: seq<Object>) {
    forall i :: 0 <= i < |objs| ==> LinkedIn(headers, objs, i)
  }

  ghost predicate Rising(objs: seq<Object>) {
    forall i, j :: 0 <= i < j < |objs| ==> objs[i].at < objs[j].at
  }

  lemma HeadersRise(c: Config, objs: seq<Object>)
    requires Packed(c, objs) && c.head > 0
    ensures Rising(objs)
  {
    forall i, j | 0 <= i < j < |objs| ensures objs[i].at < objs[j].at {
      EarlierEndsBefore(c, objs, i, j);
      assert InPlace(c, objs, i);
    }
  }

  // Writing a header past the others and naming it in the last one.
  lemma InsertLinks(headers: Headers, objs: seq<Object>, o: Object)
    requires AllLinked(headers, objs) && Rising(objs + [o])
    ensures AllLinked(Inserted(headers, objs, o), objs + [o])
  {
    var t := objs + [o];
    var last := |objs|;
    forall i | 0 <= i < |t| ensures LinkedIn(Inserted(headers, objs, o), t, i) {
      if i < last {
        assert LinkedIn(headers, objs, i) && t[i] == objs[i] && t[i].at < t[last].at;
        if i + 1 < last { assert t[i].at < t[last - 1].at && t[i + 1] == objs[i + 1]; }
      } else if last > 0 {
        assert t[last - 1].at < t[last].at;
      }
    }
  }

  ghost function Inserted(headers: Headers, objs: seq<Object>, o: Object): Headers
    requires AllLinked(headers, objs)
  {
    var h := headers[o.at := Header(o.offs, o.size, None, o.kind)];
    if objs == [] then h else
      assert LinkedIn(headers, objs, |objs| - 1);
      h[objs[|objs| - 1].at := h[objs[|objs| - 1].at].(next := Some(o.at))]
  }

  class Context {
    const config: Config
    // The headers written so far, by offset; those of earlier generations may linger.
    var headers: map<nat, Header>
    var objectsBegin: Option<nat>
    var objectsEnd: Option<nat>
    ghost var objs: seq<Object>

    ghost predicate Linked(i: nat)
      requires i < |objs|
      reads this
    {
      LinkedIn(headers, objs, i)
    }

    ghost predicate Valid()
      reads this
    {
      && ConfigOk(config) && Packed(config, objs)
      && objectsBegin == (if objs == [] then None else Some(objs[0].at))
      && objectsEnd == (if objs == [] then None else Some(objs[|objs| - 1].at))
      && AllLinked(headers, objs)
    }

    constructor (config: Config)
      requires ConfigOk(config)
      ensures Valid() && objs == [] && this.config == config
    {
      this.config := config;
      headers := map[];
      objectsBegin := None;
      objectsEnd := None;
      objs := [];
    }

    method Reset()
      requires Valid()
      modifies this`objectsBegin, this`objectsEnd, this`objs
      ensures Valid() && objs == []
    {
      objectsBegin := None;
      objectsEnd := None;
      objs := [];
    }

    method UsedMem() returns (n: nat)
      requires Valid()
      ensures n == Used(objs) == if objs == [] then 0 else objs[|objs| - 1].offs + objs[|objs| - 1].size
    {
      if objectsEnd == None {
        return 0;
      }
      assert Linked(|objs| - 1);
      n := headers[objectsEnd.value].offs + headers[objectsEnd.value].size;
    }

    // The offset of the new header, or none when there is not enough space.
    method NewObject(kind: Kind, size: nat) returns (at: Option<nat>)
      requires Valid() && size <= SIZE_MAX - (config.align - 1)
      modifies this
      ensures Valid() && objs == Do(config, old(objs), New(kind, size))
      ensures at == None <==> Used(old(objs)) + config.head + Pad(size, config.align) > config.memSize
      ensures at.Some? ==> at.value == Used(old(objs))
      ensures at.Some? ==> |objs| == |old(objs)| + 1 && var o := objs[|objs| - 1]; o.at == at.value && o.offs == o.at + config.head && o.kind == kind
      ensures at.Some? ==> |objs| > 0 && var o := objs[|objs| - 1]; size <= o.size < size + config.align && o.size % config.align == 0
    {
      PlaceExactly(config, objs, kind, size);
      DoPacked(config, objs, New(kind, size));
      PadCovers(size, config.align);
      if objectsEnd.Some? { assert Linked(|objs| - 1); }
      var curOffs := if objectsEnd == None then 0 else headers[objectsEnd.value].offs;
      var curSize := if objectsEnd == None then 0 else headers[objectsEnd.value].size;
      var curEnd := Add(curOffs, curSize);
      var needed := Pad(size, config.align);
      UsedIsEnd(config, objs);
      if curEnd > SIZE_MAX - needed {
        return None;
      }
      if Add(curEnd, needed) > SIZE_MAX - config.head {
        return None;
      }
      if Add(Add(curEnd, needed), config.head) > config.memSize {
        return None;
      }
      Insert(curEnd, Header(Add(curEnd, config.head), needed, None, kind));
      return Some(curEnd);
    }

    // Write the header and link it in at the end.
    method Insert(at: nat, h: Header)
      requires Valid() && at == Used(objs) && h.next == None
      requires Packed(config, objs + [Object(at, h.offs, h.size, h.kind)])
      modifies this
      ensures Valid() && objs == old(objs) + [Object(at, h.offs, h.size, h.kind)]
    {
      ghost var o := Object(at, h.offs, h.size, h.kind);
      HeadersRise(config, objs + [o]);
      InsertLinks(headers, objs, o);
      if objectsEnd.Some? { assert Linked(|objs| - 1); }
      headers := headers[at := h];
      if objectsEnd.Some? {
        headers := headers[objectsEnd.value := headers[objectsEnd.value].(next := Some(at))];
      } else {
        objectsBegin := Some(at);
      }
      objectsEnd := Some(at);
      objs := objs + [o];
    }

    // From an object on, the data of the first tensor object; i is the object's position.
    method ScanFrom(start: Option<nat>, ghost i: nat) returns (tensor: Option<nat>)
      requires Valid() && i <= |objs| && start == (if i == |objs| then None else Some(objs[i].at))
      ensures var j := NextTensor(objs, i); tensor == if j == |objs| then None else Some(objs[j].offs)
    {
      var obj := start;
      ghost var k := i;
      while obj.Some?
        invariant i <= k <= |objs| && obj == (if k == |objs| then None else Some(objs[k].at))
        invariant NextTensor(objs, k) == NextTensor(objs, i)
        decreases |objs| - k
      {
        assert Linked(k);
        if headers[obj.value].kind == TensorObject {
          return Some(headers[obj.value].offs);
        }
        obj := headers[obj.value].next;
        k := k + 1;
      }
      return None;
    }

    method GetFirstTensor() returns (tensor: Option<nat>)
      requires Valid()
      ensures var j := NextTensor(objs, 0); tensor == if j == |objs| then None else Some(objs[j].offs)
    {
      tensor := ScanFrom(objectsBegin, 0);
    }

    // The header of a tensor lies just before its data.
    method GetNextTensor(tensor: nat, ghost i: nat) returns (next: Option<nat>)
      requires Valid() && i < |objs| && objs[i].offs == tensor
      ensures var j := NextTensor(objs, i + 1); next == if j == |objs| then None else Some(objs[j].offs)
    {
      assert Linked(i) && InPlace(config, objs, i);
      next := ScanFrom(headers[tensor - config.head].next, i + 1);
    }

    // First and next visit exactly the tensors, in the order they were allocated.
    method AllTensors() returns (tensors: seq<nat>)
      requires Valid()
      ensures tensors == Tensors(objs, 0)
    {
      hide Valid;
      tensors := [];
      ghost var i := NextTensor(objs, 0);
      TensorsFromNext(objs, 0);
      var t := GetFirstTensor();
      while t.Some?
        invariant 0 <= i <= |objs| && t == (if i == |objs| then None else Some(objs[i].offs))
        invariant i < |objs| ==> objs[i].kind == TensorObject
        invariant tensors + Tensors(objs, i) == Tensors(objs, 0)
        decreases |objs| - i
      {
        tensors := tensors + [t.value];
        TensorsFromNext(objs, i + 1);
        t := GetNextTensor(t.value, i);
        i := NextTensor(objs, i + 1);
      }
    }
  }
}
