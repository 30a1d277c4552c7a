// Saving and restoring state through a host buffer (tools/ref/llama-context.cpp): tensor copies
// are postponed to the end, and must come out as if they had been made at once.
module StateStream {
  import opened Options

  type Byte = b: int | 0 <= b < 256
  type Bytes = seq<Byte>
  type Tensors = seq<Bytes>

  // What is saved: bytes given directly, or a range of a tensor.
  datatype Item = Direct(data: Bytes) | Range(t: nat, offset: nat, size: nat)

  function Size(i: Item): nat {
    match i
    case Direct(data) => |data|
    case Range(_, _, size) => size
  }

  function TotalSize(items: seq<Item>): nat {
    if items == [] then 0 else TotalSize(items[..|items| - 1]) + Size(items[|items| - 1])
  }

  predicate InTensors(ts: Tensors, i: Item) {
    i.Range? ==> i.t < |ts| && i.offset + i.size <= |ts[i.t]|
  }

  ghost predicate AllIn(ts: Tensors, items: seq<Item>) {
    forall k :: 0 <= k < |items| ==> InTensors(ts, items[k])
  }

  function Content(ts: Tensors, i: Item): (b: Bytes)
    requires InTensors(ts, i)
    ensures |b| == Size(i)
  {
    match i
    case Direct(data) => data
    case Range(t, offset, size) => ts[t][offset..offset + size]
  }

  // Everything written at once, in order.
  ghost function Eager(ts: Tensors, items: seq<Item>): (b: Bytes)
    requires AllIn(ts, items)
    ensures |b| == TotalSize(items)
  {
    if items == [] then [] else Eager(ts, items[..|items| - 1]) + Content(ts, items[|items| - 1])
  }

  // ---- the deferring writer ---------------------------------------------------------------------

  // size bytes of tensor t from offset belong at position `at` of the buffer.
  datatype Copy = Copy(t: nat, at: nat, size: nat, offset: nat)

  // pos is where the pointer stands, room the rest of the buffer, and count n_bytes.
  datatype Writer = Writer(buf: Bytes, pos: nat, room: nat, count: nat, pending: seq<Copy>)

  function Fresh(buf: Bytes): Writer {
    Writer(buf, 0, |buf|, 0, [])
  }

  function Overwrite(buf: Bytes, at: nat, data: Bytes): (r: Bytes)
    requires at + |data| <= |buf|
    ensures |r| == |buf|
  {
    seq(|buf|, (i: nat) => if at <= i < at + |data| then data[i - at] else if i < |buf| then buf[i] else 0)
  }

  predicate WriterOk(w: Writer) {
    && w.pos + w.room == |w.buf| && w.count == w.pos
    && forall k :: 0 <= k < |w.pending| ==> w.pending[k].at + w.pending[k].size <= w.pos
  }

  // write and write_tensor; none is the error at the end of the buffer.
  function Put(w: Writer, i: Item): (r: Option<Writer>)
    requires WriterOk(w)
    ensures r.Some? ==> WriterOk(r.value) && |r.value.buf| == |w.buf|
  {
    if Size(i) > w.room then None
    else
      var moved := w.(pos := w.pos + Size(i), room := w.room - Size(i), count := w.count + Size(i));
      match i
      case Direct(data) => Some(moved.(buf := Overwrite(w.buf, w.pos, data)))
      case Range(t, offset, size) => Some(moved.(pending := w.pending + [Copy(t, w.pos, size, offset)]))
  }

  ghost predicate Fills(ts: Tensors, c: Copy, n: nat) {
    c.t < |ts| && c.offset + c.size <= |ts[c.t]| && c.at + c.size <= n
  }

  ghost predicate AllFill(ts: Tensors, cs: seq<Copy>, n: nat) {
    forall k :: 0 <= k < |cs| ==> Fills(ts, cs[k], n)
  }

  // The copies that the destructor makes, in the order they were asked for.
  ghost function Flush(ts: Tensors, buf: Bytes, cs: seq<Copy>): (r: Bytes)
    requires AllFill(ts, cs, |buf|)
    ensures |r| == |buf|
    decreases |cs|
  {
    if cs == [] then buf
    else
      var c := cs[|cs| - 1];
      Overwrite(Flush(ts, buf, cs[..|cs| - 1]), c.at, ts[c.t][c.offset..c.offset + c.size])
  }

  // Copies before a point leave what follows it alone.
  lemma {:induction false} FlushPrefix(ts: Tensors, pre: Bytes, rest: Bytes, cs: seq<Copy>)
    requires AllFill(ts, cs, |pre|)
    ensures AllFill(ts, cs, |pre + rest|) && Flush(ts, pre + rest, cs) == Flush(ts, pre, cs) + rest
    decreases |cs|
  {
    if cs != [] {
      var front, c := cs[..|cs| - 1], cs[|cs| - 1];
      FlushPrefix(ts, pre, rest, front);
      OverwriteWithin(Flush(ts, pre, front), rest, c.at, ts[c.t][c.offset..c.offset + c.size]);
    }
  }

  lemma OverwriteWithin(a: Bytes, rest: Bytes, at: nat, data: Bytes)
    requires at + |data| <= |a|
    ensures Overwrite(a + rest, at, data) == Overwrite(a, at, data) + rest
  {
  }

  // The first items have been put into a buffer that started as buf.
  ghost predicate Holds(w: Writer, buf: Bytes, items: seq<Item>) {
    && WriterOk(w) && |w.buf| == |buf| && w.pos == TotalSize(items) && w.buf[w.pos..] == buf[w.pos..]
    && forall ts: Tensors :: AllIn(ts, items) ==>
         AllFill(ts, w.pending, w.pos) && Flush(ts, w.buf[..w.pos], w.pending) == Eager(ts, items)
  }

  lemma EagerSnoc(ts: Tensors, items: seq<Item>, i: Item)
    requires AllIn(ts, items + [i])
    ensures AllIn(ts, items) && InTensors(ts, i) && Eager(ts, items + [i]) == Eager(ts, items) + Content(ts, i)
  {
    var all := items + [i];
    assert all[..|all| - 1] == items && all[|items|] == i;
    forall k | 0 <= k < |items| ensures InTensors(ts, items[k]) { assert items[k] == all[k]; }
  }

  lemma TotalSnoc(items: seq<Item>, i: Item)
    ensures TotalSize(items + [i]) == TotalSize(items) + Size(i)
  {
    assert (items + [i])[..|items|] == items;
  }

  lemma PutDirect(w: Writer, buf: Bytes, items: seq<Item>, data: Bytes)
    requires Holds(w, buf, items) && |data| <= w.room
    ensures Holds(Put(w, Direct(data)).value, buf, items + [Direct(data)])
  {
    var i := Direct(data);
    var x := Put(w, i).value;
    TotalSnoc(items, i);
    assert x.buf[x.pos..] == w.buf[w.pos..][|data|..] && buf[x.pos..] == buf[w.pos..][|data|..];
    assert x.buf[..x.pos] == w.buf[..w.pos] + data;
    forall ts: Tensors | AllIn(ts, items + [i])
      ensures AllFill(ts, x.pending, x.pos) && Flush(ts, x.buf[..x.pos], x.pending) == Eager(ts, items + [i])
    {
      EagerSnoc(ts, items, i);
      FlushPrefix(ts, w.buf[..w.pos], data, w.pending);
    }
  }

  lemma FlushLast(ts: Tensors, buf: Bytes, cs: seq<Copy>, c: Copy)
    requires AllFill(ts, cs, |buf|) && Fills(ts, c, |buf|)
    ensures AllFill(ts, cs + [c], |buf|)
    ensures Flush(ts, buf, cs + [c]) == Overwrite(Flush(ts, buf, cs), c.at, ts[c.t][c.offset..c.offset + c.size])
  {
    hide AllFill;
    var all := cs + [c];
    AllFillSnoc(ts, cs, c, |buf|);
    assert all[..|all| - 1] == cs && all[|all| - 1] == c;
  }

  lemma AllFillSnoc(ts: Tensors, cs: seq<Copy>, c: Copy, n: nat)
    requires AllFill(ts, cs, n) && Fills(ts, c, n)
    ensures AllFill(ts, cs + [c], n)
  {
    var all := cs + [c];
    forall k | 0 <= k < |all| ensures Fills(ts, all[k], n) {
      if k < |cs| { assert all[k] == cs[k]; }
    }
  }

  lemma CopiedContent(ts: Tensors, i: Item, c: Copy)
    requires i.Range? && InTensors(ts, i) && c.t == i.t && c.offset == i.offset && c.size == i.size
    ensures Content(ts, i) == ts[c.t][c.offset..c.offset + c.size]
  {
  }

  lemma OverwriteEnd(a: Bytes, was: Bytes, now: Bytes)
    requires |was| == |now|
    ensures Overwrite(a + was, |a|, now) == a + now
  {
  }

  lemma PutRangeFlush(ts: Tensors, items: seq<Item>, i: Item, pre: Bytes, whole: Bytes, cs: seq<Copy>, c: Copy)
    requires AllFill(ts, cs, |pre|) && AllIn(ts, items) && Flush(ts, pre, cs) == Eager(ts, items)
    requires pre <= whole && i.Range? && InTensors(ts, i) && |whole| == |pre| + i.size && c == Copy(i.t, |pre|, i.size, i.offset)
    ensures AllFill(ts, cs + [c], |whole|) && Flush(ts, whole, cs + [c]) == Eager(ts, items) + Content(ts, i)
  {
    var rest := whole[|pre|..];
    assert pre + rest == whole;
    FlushPrefix(ts, pre, rest, cs);
    FlushLast(ts, whole, cs, c);
    CopiedContent(ts, i, c);
    OverwriteEnd(Flush(ts, pre, cs), rest, Content(ts, i));
  }

  lemma PutRange(w: Writer, buf: Bytes, items: seq<Item>, t: nat, offset: nat, size: nat)
    requires Holds(w, buf, items) && size <= w.room
    ensures Holds(Put(w, Range(t, offset, size)).value, buf, items + [Range(t, offset, size)])
  {
    var i := Range(t, offset, size);
    var x := Put(w, i).value;
    TotalSnoc(items, i);
    assert x.buf[x.pos..] == w.buf[w.pos..][size..] && buf[x.pos..] == buf[w.pos..][size..];
    var rest := w.buf[w.pos..x.pos];
    assert x.buf[..x.pos] == w.buf[..w.pos] + rest;
    forall ts: Tensors | AllIn(ts, items + [i])
      ensures AllFill(ts, x.pending, x.pos) && Flush(ts, x.buf[..x.pos], x.pending) == Eager(ts, items + [i])
    {
      EagerSnoc(ts, items, i);
      PutRangeFlush(ts, items, i, w.buf[..w.pos], x.buf[..x.pos], w.pending, Copy(t, w.pos, size, offset));
    }
  }

  // ---- whole streams ---------------------------------------------------------------------------------

  function PutAll(w: Writer, items: seq<Item>): (r: Option<Writer>)
    requires WriterOk(w)
    ensures r.Some? ==> WriterOk(r.value) && |r.value.buf| == |w.buf|
    decreases |items|
  {
    if items == [] then Some(w)
    else
      var before := PutAll(w, items[..|items| - 1]);
      if before == None then None else Put(before.value, items[|items| - 1])
  }

  // Writing fails exactly when the items do not fit; otherwise every item is held.
  lemma {:induction false} PutAllExactly(buf: Bytes, items: seq<Item>)
    ensures PutAll(Fresh(buf), items).Some? <==> TotalSize(items) <= |buf|
    ensures PutAll(Fresh(buf), items).Some? ==> Holds(PutAll(Fresh(buf), items).value, buf, items)
    decreases |items|
  {
    if items == [] {
      assert buf[..0] == [];
    } else {
      var front, i := items[..|items| - 1], items[|items| - 1];
      PutAllExactly(buf, front);
      assert front + [i] == items;
      var w := PutAll(Fresh(buf), front);
      if w.Some? && Size(i) <= w.value.room {
        match i
        case Direct(data) => PutDirect(w.value, buf, front, data);
        case Range(t, offset, size) => PutRange(w.value, buf, front, t, offset, size);
      }
    }
  }

  // The flushed buffer is what writing everything eagerly from the tensors as they are at the
  // flush would have left, and nothing past it has changed.  So the deferred stream equals the
  // eager one exactly when the saved ranges have kept their bytes.
  lemma FlushedIsEager(buf: Bytes, items: seq<Item>, ts: Tensors)
    requires TotalSize(items) <= |buf| && AllIn(ts, items)
    ensures PutAll(Fresh(buf), items).Some?
    ensures var w := PutAll(Fresh(buf), items).value; AllFill(ts, w.pending, |w.buf|) && w.count == TotalSize(items) && Flush(ts, w.buf, w.pending) == Eager(ts, items) + buf[TotalSize(items)..]
  {
    PutAllExactly(buf, items);
    var w := PutAll(Fresh(buf), items).value;
    FlushPrefix(ts, w.buf[..w.pos], w.buf[w.pos..], w.pending);
    assert w.buf == w.buf[..w.pos] + w.buf[w.pos..];
  }

  lemma DeferredEqualsEagerExactly(buf: Bytes, items: seq<Item>, atWrite: Tensors, atFlush: Tensors)
    requires TotalSize(items) <= |buf| && AllIn(atWrite, items) && AllIn(atFlush, items)
    ensures PutAll(Fresh(buf), items).Some? && AllFill(atFlush, PutAll(Fresh(buf), items).value.pending, |buf|)
    ensures var w := PutAll(Fresh(buf), items).value; Flush(atFlush, w.buf, w.pending)[..TotalSize(items)] == Eager(atWrite, items) <==> SameContents(atWrite, atFlush, items)
  {
    FlushedIsEager(buf, items, atFlush);
    PutAllExactly(buf, items);
    EagerAgrees(atWrite, atFlush, items);
  }

  ghost predicate SameContents(a: Tensors, b: Tensors, items: seq<Item>)
    requires AllIn(a, items) && AllIn(b, items)
  {
    forall k :: 0 <= k < |items| ==> Content(a, items[k]) == Content(b, items[k])
  }

  lemma ContentsSplit(a: Tensors, b: Tensors, items: seq<Item>, i: Item)
    requires AllIn(a, items + [i]) && AllIn(b, items + [i])
    ensures AllIn(a, items) && AllIn(b, items) && InTensors(a, i) && InTensors(b, i)
    ensures SameContents(a, b, items + [i]) <==> SameContents(a, b, items) && Content(a, i) == Content(b, i)
  {
    EagerSnoc(a, items, i);
    EagerSnoc(b, items, i);
    assert (items + [i])[|items|] == i;
    assert forall k :: 0 <= k < |items| ==> (items + [i])[k] == items[k];
  }

  lemma {:induction false} EagerAgrees(a: Tensors, b: Tensors, items: seq<Item>)
    requires AllIn(a, items) && AllIn(b, items)
    ensures Eager(a, items) == Eager(b, items) <==> SameContents(a, b, items)
    decreases |items|
  {
    if items != [] {
      var front, i := items[..|items| - 1], items[|items| - 1];
      assert front + [i] == items;
      ContentsSplit(a, b, front, i);
      EagerAgrees(a, b, front);
      EagerSnoc(a, front, i);
      EagerSnoc(b, front, i);
      SplitEqual(Eager(a, front), Content(a, i), Eager(b, front), Content(b, i));
    }
  }

  lemma SplitEqual(a: Bytes, b: Bytes, c: Bytes, d: Bytes)
    requires |a| == |c|
    ensures a + b == c + d <==> a == c && b == d
  {
    if a + b == c + d {
      assert a == (a + b)[..|a|] && c == (c + d)[..|c|] && b == (a + b)[|a|..] && d == (c + d)[|c|..];
    }
  }

  // ---- counting ------------------------------------------------------------------------------------------

  // The dummy writer, which may skip tensors.
  function Counted(skip: bool, i: Item): nat {
    if i.Range? && skip then 0 else Size(i)
  }

  function Count(skip: bool, items: seq<Item>): nat {
    if items == [] then 0 else Count(skip, items[..|items| - 1]) + Counted(skip, items[|items| - 1])
  }

  function Lengths(values: seq<Bytes>): nat {
    if values == [] then 0 else Lengths(values[..|values| - 1]) + |values[|values| - 1]|
  }

  lemma LengthsSnoc(values: seq<Bytes>, b: Bytes)
    ensures Lengths(values + [b]) == Lengths(values) + |b|
  {
    assert (values + [b])[..|values|] == values;
  }

  // The dummy counts every byte of the stream, or those of the directly written values alone.
  lemma {:induction false} CountIsTotal(items: seq<Item>)
    ensures Count(false, items) == TotalSize(items)
    ensures Count(true, items) == Lengths(Directs(items))
    decreases |items|
  {
    if items != [] {
      var front, i := items[..|items| - 1], items[|items| - 1];
      CountIsTotal(front);
      LengthsSnoc(Directs(front), if i.Direct? then i.data else []);
      assert Directs(front) + [] == Directs(front);
    }
  }

  // Where the bytes of an item lie in the stream, and which they are.
  lemma {:induction false} EagerAt(ts: Tensors, items: seq<Item>, k: nat, x: nat)
    requires AllIn(ts, items) && k < |items| && x < Size(items[k])
    ensures TotalSize(items[..k]) + x < |Eager(ts, items)| && InTensors(ts, items[k])
    ensures Eager(ts, items)[TotalSize(items[..k]) + x] == ByteOf(ts, items[k], x)
    decreases |items|
  {
    hide ByteOf, InTensors, Eager, TotalSize, Content, Size;
    var front, i := items[..|items| - 1], items[|items| - 1];
    assert front + [i] == items;
    EagerSnoc(ts, front, i);
    if k < |front| {
      assert front[..k] == items[..k];
      EagerAt(ts, front, k, x);
    } else {
      assert items[..k] == front;
      ByteOfContent(ts, i, x);
    }
  }

  // Byte x of an item: of the value, or of the tensor from the offset on.
  function ByteOf(ts: Tensors, i: Item, x: nat): Byte
    requires InTensors(ts, i) && x < Size(i)
  {
    match i
    case Direct(data) => data[x]
    case Range(t, offset, _) => ts[t][offset + x]
  }

  lemma ByteOfContent(ts: Tensors, i: Item, x: nat)
    requires InTensors(ts, i) && x < Size(i)
    ensures Content(ts, i)[x] == ByteOf(ts, i, x)
  {
  }

  // ---- the deferring reader ---------------------------------------------------------------------------------

  // A request for a number of bytes, or for a range of a tensor to be filled.
  datatype Request = Want(size: nat) | Fill(t: nat, offset: nat, size: nat)

  function Wanted(r: Request): nat {
    r.size
  }

  datatype Reader = Reader(buf: Bytes, pos: nat, room: nat, count: nat, pending: seq<Copy>)

  predicate ReaderOk(r: Reader) {
    && r.pos + r.room == |r.buf| && r.count == r.pos
    && forall k :: 0 <= k < |r.pending| ==> r.pending[k].at + r.pending[k].size <= r.pos
  }

  datatype Got = Got(reader: Reader, data: Bytes)

  // read and read_tensor; a tensor read hands over no bytes yet.
  function Take(r: Reader, q: Request): (g: Option<Got>)
    requires ReaderOk(r)
    ensures g.Some? ==> ReaderOk(g.value.reader) && g.value.reader.buf == r.buf
  {
    if Wanted(q) > r.room then None
    else
      var moved := r.(pos := r.pos + Wanted(q), room := r.room - Wanted(q), count := r.count + Wanted(q));
      match q
      case Want(size) => Some(Got(moved, r.buf[r.pos..r.pos + size]))
      case Fill(t, offset, size) => Some(Got(moved.(pending := r.pending + [Copy(t, r.pos, size, offset)]), []))
  }

  function Shape(i: Item): Request {
    match i
    case Direct(data) => Want(|data|)
    case Range(t, offset, size) => Fill(t, offset, size)
  }

  // The directly written values, which reading returns.
  function Directs(items: seq<Item>): seq<Bytes> {
    if items == [] then []
    else
      var i := items[|items| - 1];
      Directs(items[..|items| - 1]) + if i.Direct? then [i.data] else []
  }

  datatype Outcome = Outcome(reader: Reader, values: seq<Bytes>)

  function TakeNext(o: Outcome, i: Item): (n: Option<Outcome>)
    requires ReaderOk(o.reader)
    ensures n.Some? ==> ReaderOk(n.value.reader) && n.value.reader.buf == o.reader.buf
  {
    var g := Take(o.reader, Shape(i));
    if g == None then None
    else Some(Outcome(g.value.reader, o.values + if i.Direct? then [g.value.data] else []))
  }

  // One request for each saved item, in the same order.
  function TakeAll(r: Reader, items: seq<Item>): (o: Option<Outcome>)
    requires ReaderOk(r)
    ensures o.Some? ==> ReaderOk(o.value.reader) && o.value.reader.buf == r.buf
    decreases |items|
  {
    if items == [] then Some(Outcome(r, []))
    else
      var before := TakeAll(r, items[..|items| - 1]);
      if before == None then None else TakeNext(before.value, items[|items| - 1])
  }

  // The copies made when the reader is destroyed.
  ghost function Restore(ts: Tensors, buf: Bytes, cs: seq<Copy>): (r: Tensors)
    requires AllFill(ts, cs, |buf|)
    ensures |r| == |ts| && forall t :: 0 <= t < |ts| ==> |r[t]| == |ts[t]|
    decreases |cs|
  {
    if cs == [] then ts
    else
      var c := cs[|cs| - 1];
      var before := Restore(ts, buf, cs[..|cs| - 1]);
      before[c.t := Overwrite(before[c.t], c.offset, buf[c.at..c.at + c.size])]
  }

  ghost predicate SameShapes(a: Tensors, b: Tensors) {
    |a| == |b| && forall t :: 0 <= t < |a| ==> |a[t]| == |b[t]|
  }

  // Byte j of tensor t lies in a saved range.
  ghost predicate Covered(items: seq<Item>, t: nat, j: nat) {
    exists k :: 0 <= k < |items| && items[k].Range? && items[k].t == t && items[k].offset <= j < items[k].offset + items[k].size
  }

  // Saved bytes are those of src, the others those of dst.
  ghost predicate Restored(src: Tensors, dst: Tensors, now: Tensors, items: seq<Item>) {
    && SameShapes(src, dst) && SameShapes(src, now)
    && forall t: nat, j: nat :: t < |src| && j < |src[t]| ==> now[t][j] == if Covered(items, t, j) then src[t][j] else dst[t][j]
  }

  lemma CoveredSnoc(items: seq<Item>, i: Item, t: nat, j: nat)
    ensures Covered(items + [i], t, j) <==> Covered(items, t, j) || (i.Range? && i.t == t && i.offset <= j < i.offset + i.size)
  {
    var all := items + [i];
    if Covered(items, t, j) {
      var k :| 0 <= k < |items| && items[k].Range? && items[k].t == t && items[k].offset <= j < items[k].offset + items[k].size;
      assert all[k] == items[k];
    }
    assert all[|items|] == i;
  }

  // The reader has taken the given items of a stream that begins with their eager bytes.
  ghost predicate Took(src: Tensors, dst: Tensors, o: Outcome, items: seq<Item>) {
    && ReaderOk(o.reader) && o.reader.pos == TotalSize(items) && o.values == Directs(items)
    && AllFill(dst, o.reader.pending, o.reader.pos) && AllFill(dst, o.reader.pending, |o.reader.buf|)
    && Restored(src, dst, Restore(dst, o.reader.buf, o.reader.pending), items)
  }

  lemma TakeDirect(src: Tensors, dst: Tensors, o: Outcome, items: seq<Item>, i: Item)
    requires Took(src, dst, o, items) && i.Direct? && Size(i) <= o.reader.room
    requires o.reader.buf[o.reader.pos..o.reader.pos + Size(i)] == i.data
    ensures TakeNext(o, i).Some? && Took(src, dst, TakeNext(o, i).value, items + [i])
  {
    TotalSnoc(items, i);
    assert (items + [i])[..|items|] == items;
    var now := Restore(dst, o.reader.buf, o.reader.pending);
    forall t: nat, j: nat | t < |src| && j < |src[t]|
      ensures now[t][j] == if Covered(items + [i], t, j) then src[t][j] else dst[t][j]
    {
      CoveredSnoc(items, i, t, j);
    }
  }

  lemma TakeRange(src: Tensors, dst: Tensors, o: Outcome, items: seq<Item>, i: Item)
    requires Took(src, dst, o, items) && i.Range? && Size(i) <= o.reader.room && InTensors(src, i)
    requires o.reader.buf[o.reader.pos..o.reader.pos + Size(i)] == Content(src, i)
    ensures TakeNext(o, i).Some? && Took(src, dst, TakeNext(o, i).value, items + [i])
  {
    TotalSnoc(items, i);
    assert (items + [i])[..|items|] == items;
    var r := o.reader;
    var c := Copy(i.t, r.pos, i.size, i.offset);
    var was := Restore(dst, r.buf, r.pending);
    assert (r.pending + [c])[..|r.pending|] == r.pending;
    var now := was[i.t := Overwrite(was[i.t], i.offset, r.buf[r.pos..r.pos + i.size])];
    RestoredStep(src, dst, was, now, items, i);
    assert Restore(dst, r.buf, r.pending + [c]) == now;
  }

  lemma RestoredStep(src: Tensors, dst: Tensors, was: Tensors, now: Tensors, items: seq<Item>, i: Item)
    requires Restored(src, dst, was, items) && i.Range? && InTensors(src, i)
    requires now == was[i.t := Overwrite(was[i.t], i.offset, Content(src, i))]
    ensures Restored(src, dst, now, items + [i])
  {
    forall t: nat, j: nat | t < |src| && j < |src[t]|
      ensures now[t][j] == if Covered(items + [i], t, j) then src[t][j] else dst[t][j]
    {
      CoveredSnoc(items, i, t, j);
    }
  }

  // The stream begins with the items' bytes.
  ghost predicate Carries(src: Tensors, stream: Bytes, items: seq<Item>) {
    AllIn(src, items) && TotalSize(items) <= |stream| && stream[..TotalSize(items)] == Eager(src, items)
  }

  lemma PrefixParts(s: Bytes, m: nat, a: Bytes, b: Bytes)
    requires m <= |s| && s[..m] == a + b
    ensures |a| + |b| == m && s[..|a|] == a && s[|a|..|a| + |b|] == b
  {
    assert s[..|a|] == s[..m][..|a|] && s[|a|..m] == s[..m][|a|..];
  }

  lemma CarriesFront(src: Tensors, stream: Bytes, items: seq<Item>, i: Item)
    requires Carries(src, stream, items + [i])
    ensures Carries(src, stream, items) && InTensors(src, i)
    ensures TotalSize(items) + Size(i) <= |stream| && stream[TotalSize(items)..TotalSize(items) + Size(i)] == Content(src, i)
  {
    EagerSnoc(src, items, i);
    TotalSnoc(items, i);
    PrefixParts(stream, TotalSize(items + [i]), Eager(src, items), Content(src, i));
  }

  lemma TakeNothing(src: Tensors, dst: Tensors, stream: Bytes)
    requires SameShapes(src, dst)
    ensures Took(src, dst, Outcome(Reader(stream, 0, |stream|, 0, []), []), [])
  {
  }

  lemma TakeAllSnoc(r: Reader, items: seq<Item>, i: Item)
    requires ReaderOk(r) && TakeAll(r, items).Some?
    ensures TakeAll(r, items + [i]) == TakeNext(TakeAll(r, items).value, i)
  {
    var all := items + [i];
    assert all[..|all| - 1] == items;
  }

  lemma TookNext(src: Tensors, dst: Tensors, o: Outcome, items: seq<Item>, i: Item)
    requires Took(src, dst, o, items) && Size(i) <= o.reader.room && InTensors(src, i)
    requires o.reader.buf[o.reader.pos..o.reader.pos + Size(i)] == Content(src, i)
    ensures TakeNext(o, i).Some? && Took(src, dst, TakeNext(o, i).value, items + [i])
  {
    if i.Direct? { TakeDirect(src, dst, o, items, i); } else { TakeRange(src, dst, o, items, i); }
  }

  lemma {:induction false} TakeAllRestores(src: Tensors, dst: Tensors, items: seq<Item>, stream: Bytes)
    requires Carries(src, stream, items) && SameShapes(src, dst)
    ensures var o := TakeAll(Reader(stream, 0, |stream|, 0, []), items); o.Some? && Took(src, dst, o.value, items)
    decreases |items|
  {
    if items == [] {
      TakeNothing(src, dst, stream);
    } else {
      var front, i := items[..|items| - 1], items[|items| - 1];
      assert front + [i] == items;
      CarriesFront(src, stream, front, i);
      TakeAllRestores(src, dst, front, stream);
      var r := Reader(stream, 0, |stream|, 0, []);
      TookNext(src, dst, TakeAll(r, front).value, front, i);
      TakeAllSnoc(r, front, i);
    }
  }

  // Saving and restoring with the same sequence of operations: every value comes back, every
  // saved byte of every tensor is restored and no other is touched, and both sides and the
  // dummy writer count the same bytes.
  lemma RoundTrip(buf: Bytes, items: seq<Item>, src: Tensors, dst: Tensors)
    requires TotalSize(items) <= |buf| && AllIn(src, items) && SameShapes(src, dst)
    ensures PutAll(Fresh(buf), items).Some? && AllFill(src, PutAll(Fresh(buf), items).value.pending, |buf|)
    ensures var w := PutAll(Fresh(buf), items).value; var saved := Flush(src, w.buf, w.pending); var o := TakeAll(Reader(saved, 0, |saved|, 0, []), items); o.Some? && o.value.values == Directs(items) && AllFill(dst, o.value.reader.pending, |saved|) && Restored(src, dst, Restore(dst, saved, o.value.reader.pending), items) && o.value.reader.count == w.count == Count(false, items)
  {
    FlushedIsEager(buf, items, src);
    var w := PutAll(Fresh(buf), items).value;
    TakeAllRestores(src, dst, items, Flush(src, w.buf, w.pending));
    CountIsTotal(items);
  }
}
