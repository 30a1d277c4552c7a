// The bump allocator of a context (tools/ref/ggml.c, ggml_new_object and ggml_reset), on values.
module ArenaLayout {
  import opened Options
  import opened Division

  const WORD: nat := 0x1_0000_0000_0000_0000
  const SIZE_MAX: nat := WORD - 1

  // Arithmetic on size_t wraps.
  function Add(a: nat, b: nat): nat {
    (a + b) % WORD
  }

  datatype Kind = TensorObject | GraphObject | WorkBuffer

  // at is the offset of the header, offs that of the data.
  datatype Object = Object(at: nat, offs: nat, size: nat, kind: Kind)

  // align is GGML_MEM_ALIGN and head GGML_OBJECT_SIZE, a multiple of it.
  datatype Config = Config(memSize: nat, align: nat, head: nat)

  predicate ConfigOk(c: Config) {
    c.memSize < WORD && 0 < c.align <= c.head < WORD && c.head % c.align == 0
  }

  function EndOf(o: Object): nat {
    o.offs + o.size
  }

  // ggml_used_mem
  function Used(objs: seq<Object>): nat {
    if objs == [] then 0 else EndOf(objs[|objs| - 1])
  }

  // Object i starts where the one before it ends, aligned.
  ghost predicate InPlace(c: Config, objs: seq<Object>, i: nat)
    requires i < |objs| && c.align > 0
  {
    && objs[i].at == (if i == 0 then 0 else EndOf(objs[i - 1]))
    && objs[i].offs == objs[i].at + c.head
    && objs[i].at % c.align == 0 && objs[i].offs % c.align == 0 && objs[i].size % c.align == 0
  }

  // Objects follow each other without gaps, aligned, from the start of the buffer.
  ghost predicate Packed(c: Config, objs: seq<Object>) {
    c.align > 0 && (forall i :: 0 <= i < |objs| ==> InPlace(c, objs, i)) && Used(objs) <= c.memSize
  }

  // GGML_PAD for a size that the preceding assertion admits.
  function Pad(size: nat, align: nat): nat
    requires align > 0
  {
    (size + align - 1) / align * align
  }

  // The checks and the placement of ggml_new_object, in wrapping arithmetic.
  function Place(c: Config, objs: seq<Object>, kind: Kind, size: nat): Option<Object>
    requires ConfigOk(c) && size <= SIZE_MAX - (c.align - 1)
  {
    var curEnd := if objs == [] then 0 else Add(objs[|objs| - 1].offs, objs[|objs| - 1].size);
    var needed := Pad(size, c.align);
    if curEnd > SIZE_MAX - needed then None
    else if Add(curEnd, needed) > SIZE_MAX - c.head then None
    else if Add(Add(curEnd, needed), c.head) > c.memSize then None
    else Some(Object(curEnd, Add(curEnd, c.head), needed, kind))
  }

  // ---- padding --------------------------------------------------------------------------------------

  lemma PadCovers(size: nat, align: nat)
    requires align > 0
    ensures size <= Pad(size, align) < size + align && Pad(size, align) % align == 0
  {
    var q, r := (size + align - 1) / align, (size + align - 1) % align;
    assert q * align + r == size + align - 1;
    DivMod(q, 0, align);
  }

  lemma SumOfMultiples(a: nat, b: nat, align: nat)
    requires align > 0 && a % align == 0 && b % align == 0
    ensures (a + b) % align == 0
  {
    var p, q := a / align, b / align;
    assert a == p * align && b == q * align;
    assert (p + q) * align == a + b;
    DivMod(p + q, 0, align);
  }

  // ---- placement ------------------------------------------------------------------------------------------

  lemma UsedIsEnd(c: Config, objs: seq<Object>)
    requires ConfigOk(c) && Packed(c, objs)
    ensures (if objs == [] then 0 else Add(objs[|objs| - 1].offs, objs[|objs| - 1].size)) == Used(objs)
    ensures Used(objs) % c.align == 0
  {
    if objs == [] {
      DivMod(0, 0, c.align);
    } else {
      var last := objs[|objs| - 1];
      assert InPlace(c, objs, |objs| - 1);
      SumOfMultiples(last.offs, last.size, c.align);
    }
  }

  // Nothing wraps: allocation fails exactly when the padded object does not fit.
  lemma PlaceExactly(c: Config, objs: seq<Object>, kind: Kind, size: nat)
    requires ConfigOk(c) && Packed(c, objs) && size <= SIZE_MAX - (c.align - 1)
    ensures Place(c, objs, kind, size) == None <==> Used(objs) + c.head + Pad(size, c.align) > c.memSize
    ensures Place(c, objs, kind, size).Some? ==>
              Place(c, objs, kind, size).value == Object(Used(objs), Used(objs) + c.head, Pad(size, c.align), kind)
  {
    UsedIsEnd(c, objs);
    PadCovers(size, c.align);
    NoWrap(Used(objs), Pad(size, c.align), c.head, c.memSize);
  }

  lemma NoWrap(end: nat, needed: nat, head: nat, memSize: nat)
    requires end <= memSize < WORD && needed < WORD && head < WORD
    ensures end <= SIZE_MAX - needed ==> Add(end, needed) == end + needed
    ensures end <= SIZE_MAX - needed && end + needed <= SIZE_MAX - head ==> Add(end + needed, head) == end + needed + head && Add(end, head) == end + head
  {
  }

  lemma AppendPacked(c: Config, objs: seq<Object>, o: Object)
    requires ConfigOk(c) && Packed(c, objs)
    requires o.at == Used(objs) && o.offs == o.at + c.head && o.size % c.align == 0 && EndOf(o) <= c.memSize
    ensures Packed(c, objs + [o])
  {
    UsedIsEnd(c, objs);
    SumOfMultiples(o.at, c.head, c.align);
    var t := objs + [o];
    forall i | 0 <= i < |t| ensures InPlace(c, t, i) {
      if i < |objs| { assert InPlace(c, objs, i); }
    }
  }

  // ---- whole runs --------------------------------------------------------------------------------------------

  datatype Command = New(kind: Kind, size: nat) | Reset

  function Do(c: Config, objs: seq<Object>, cmd: Command): seq<Object>
    requires ConfigOk(c) && (cmd.New? ==> cmd.size <= SIZE_MAX - (c.align - 1))
  {
    match cmd
    case Reset => []
    case New(kind, size) =>
      var o := Place(c, objs, kind, size);
      if o == None then objs else objs + [o.value]
  }

  ghost predicate Sized(c: Config, cmds: seq<Command>) {
    forall i :: 0 <= i < |cmds| && cmds[i].New? ==> cmds[i].size + c.align <= WORD
  }

  ghost function Run(c: Config, objs: seq<Object>, cmds: seq<Command>): seq<Object>
    requires ConfigOk(c) && Sized(c, cmds)
    decreases |cmds|
  {
    if cmds == [] then objs else
      assert cmds[0].New? ==> cmds[0].size + c.align <= WORD;
      Run(c, Do(c, objs, cmds[0]), cmds[1..])
  }

  lemma DoPacked(c: Config, objs: seq<Object>, cmd: Command)
    requires ConfigOk(c) && Packed(c, objs) && (cmd.New? ==> cmd.size <= SIZE_MAX - (c.align - 1))
    ensures Packed(c, Do(c, objs, cmd))
  {
    match cmd
    case Reset =>
    case New(kind, size) =>
      PlaceExactly(c, objs, kind, size);
      PadCovers(size, c.align);
      var o := Place(c, objs, kind, size);
      if o.Some? { AppendPacked(c, objs, o.value); }
  }

  lemma {:induction false} RunPacked(c: Config, objs: seq<Object>, cmds: seq<Command>)
    requires ConfigOk(c) && Sized(c, cmds) && Packed(c, objs)
    ensures Packed(c, Run(c, objs, cmds))
    decreases |cmds|
  {
    if cmds != [] {
      assert cmds[0].New? ==> cmds[0].size + c.align <= WORD;
      DoPacked(c, objs, cmds[0]);
      RunPacked(c, Do(c, objs, cmds[0]), cmds[1..]);
    }
  }

  // ---- regions --------------------------------------------------------------------------------------------------

  lemma {:induction false} EarlierEndsBefore(c: Config, objs: seq<Object>, i: nat, j: nat)
    requires Packed(c, objs) && i < j < |objs|
    ensures EndOf(objs[i]) <= objs[j].at
    decreases j
  {
    if i < j - 1 {
      EarlierEndsBefore(c, objs, i, j - 1);
      assert InPlace(c, objs, j - 1);
    }
    assert InPlace(c, objs, j);
  }

  lemma WithinBuffer(c: Config, objs: seq<Object>, i: nat)
    requires Packed(c, objs) && i < |objs|
    ensures EndOf(objs[i]) <= Used(objs) <= c.memSize
  {
    var last := |objs| - 1;
    if i < last {
      EarlierEndsBefore(c, objs, i, last);
      assert InPlace(c, objs, last);
    }
  }

  // After any run of allocations and resets the objects are aligned, inside the buffer, and
  // pairwise disjoint with their headers.
  lemma RegionsDisjoint(c: Config, cmds: seq<Command>, i: nat, j: nat)
    requires ConfigOk(c) && Sized(c, cmds)
    requires var objs := Run(c, [], cmds); i < j < |objs|
    ensures var objs := Run(c, [], cmds); objs[i].offs + objs[i].size <= objs[j].at && objs[j].offs + objs[j].size <= c.memSize
    ensures var objs := Run(c, [], cmds); objs[i].offs % c.align == 0 && objs[i].at + c.head == objs[i].offs && objs[j].at + c.head == objs[j].offs
  {
    RunPacked(c, [], cmds);
    var objs := Run(c, [], cmds);
    EarlierEndsBefore(c, objs, i, j);
    WithinBuffer(c, objs, j);
    assert InPlace(c, objs, i) && InPlace(c, objs, j);
  }

  // ---- the tensors of a context --------------------------------------------------------------------------------

  // The data offsets of the tensor objects from i on.
  function Tensors(objs: seq<Object>, i: nat): seq<nat>
    requires i <= |objs|
    decreases |objs| - i
  {
    if i == |objs| then []
    else if objs[i].kind == TensorObject then [objs[i].offs] + Tensors(objs, i + 1)
    else Tensors(objs, i + 1)
  }

  // The first tensor object from i on; |objs| when there is none.
  function NextTensor(objs: seq<Object>, i: nat): (j: nat)
    requires i <= |objs|
    ensures i <= j <= |objs| && (j < |objs| ==> objs[j].kind == TensorObject)
    ensures forall k :: i <= k < j ==> objs[k].kind != TensorObject
    decreases |objs| - i
  {
    if i == |objs| || objs[i].kind == TensorObject then i else NextTensor(objs, i + 1)
  }

  lemma {:induction false} TensorsFromNext(objs: seq<Object>, i: nat)
    requires i <= |objs|
    ensures var j := NextTensor(objs, i); Tensors(objs, i) == if j == |objs| then [] else [objs[j].offs] + Tensors(objs, j + 1)
    decreases |objs| - i
  {
    if i < |objs| && objs[i].kind != TensorObject { TensorsFromNext(objs, i + 1); }
  }
}
