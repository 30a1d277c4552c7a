// The writers and the reader as objects: pointers that advance through a host buffer, and the
// tensor copies they keep for their destructors.
module StateIO {
  import opened Options
  import opened StateStream

  class WriteDummy {
    const skipTensors: bool
    var sizeWritten: nat
    ghost var items: seq<Item>

    constructor (skipTensors: bool)
      ensures sizeWritten == 0 && items == [] && this.skipTensors == skipTensors
    {
      this.skipTensors := skipTensors;
      sizeWritten := 0;
      items := [];
    }

    ghost predicate Valid()
      reads this
    {
      sizeWritten == Count(skipTensors, items)
    }

    method Write(src: Bytes)
      requires Valid()
      modifies this`sizeWritten, this`items
      ensures Valid() && items == old(items) + [Direct(src)]
    {
      items := items + [Direct(src)];
      sizeWritten := sizeWritten + |src|;
    }

    method WriteTensor(t: nat, offset: nat, size: nat)
      requires Valid()
      modifies this`sizeWritten, this`items
      ensures Valid() && items == old(items) + [Range(t, offset, size)]
    {
      items := items + [Range(t, offset, size)];
      if skipTensors {
        return;
      }
      sizeWritten := sizeWritten + size;
    }
  }

  class WriteHost {
    const buf: array<Byte>
    var pos: nat
    var bufSize: nat
    var sizeWritten: nat
    var winfos: seq<Copy>

    ghost function View(): Writer
      reads this, buf
    {
      Writer(buf[..], pos, bufSize, sizeWritten, winfos)
    }

    constructor (buf: array<Byte>)
      ensures this.buf == buf && View() == Fresh(buf[..]) && WriterOk(View())
    {
      this.buf := buf;
      pos := 0;
      bufSize := buf.Length;
      sizeWritten := 0;
      winfos := [];
    }

    // False stands for the error at the end of the buffer, which leaves the writer as it was.
    method Write(src: Bytes) returns (ok: bool)
      requires WriterOk(View())
      modifies this, buf
      ensures WriterOk(View())
      ensures if ok then Put(old(View()), Direct(src)) == Some(View()) else Put(old(View()), Direct(src)) == None && View() == old(View())
    {
      if |src| > bufSize {
        return false;
      }
      MemCopy(buf, pos, src);
      pos := pos + |src|;
      sizeWritten := sizeWritten + |src|;
      bufSize := bufSize - |src|;
      return true;
    }

    method WriteTensor(t: nat, offset: nat, size: nat) returns (ok: bool)
      requires WriterOk(View())
      modifies this
      ensures WriterOk(View())
      ensures if ok then Put(old(View()), Range(t, offset, size)) == Some(View()) else Put(old(View()), Range(t, offset, size)) == None && View() == old(View())
    {
      if size > bufSize {
        return false;
      }
      winfos := winfos + [Copy(t, pos, size, offset)];
      pos := pos + size;
      sizeWritten := sizeWritten + size;
      bufSize := bufSize - size;
      return true;
    }

    // The destructor.
    method Destroy(ts: Tensors)
      requires AllFill(ts, winfos, buf.Length)
      modifies buf
      ensures buf[..] == Flush(ts, old(buf[..]), winfos)
    {
      for k := 0 to |winfos|
        invariant AllFill(ts, winfos[..k], buf.Length) && buf[..] == Flush(ts, old(buf[..]), winfos[..k])
      {
        var c := winfos[k];
        assert Fills(ts, c, buf.Length);
        assert winfos[..k + 1][..k] == winfos[..k] && winfos[..k + 1][k] == c;
        MemCopy(buf, c.at, ts[c.t][c.offset..c.offset + c.size]);
      }
      assert winfos[..|winfos|] == winfos;
    }
  }

  method MemCopy(buf: array<Byte>, at: nat, src: Bytes)
    requires at + |src| <= buf.Length
    modifies buf
    ensures buf[..] == Overwrite(old(buf[..]), at, src)
  {
    for k := 0 to |src|
      invariant forall i :: 0 <= i < buf.Length ==> buf[i] == if at <= i < at + k then src[i - at] else old(buf[i])
    {
      buf[at + k] := src[k];
    }
  }

  class ReadHost {
    const buf: Bytes
    var pos: nat
    var bufSize: nat
    var sizeRead: nat
    var rinfos: seq<Copy>

    ghost function View(): Reader
      reads this
    {
      Reader(buf, pos, bufSize, sizeRead, rinfos)
    }

    constructor (buf: Bytes)
      ensures this.buf == buf && View() == Reader(buf, 0, |buf|, 0, []) && ReaderOk(View())
    {
      this.buf := buf;
      pos := 0;
      bufSize := |buf|;
      sizeRead := 0;
      rinfos := [];
    }

    method Read(size: nat) returns (data: Option<Bytes>)
      requires ReaderOk(View())
      modifies this
      ensures ReaderOk(View())
      ensures data == None ==> Take(old(View()), Want(size)) == None && View() == old(View())
      ensures data.Some? ==> Take(old(View()), Want(size)) == Some(Got(View(), data.value))
    {
      if size > bufSize {
        return None;
      }
      data := Some(buf[pos..pos + size]);
      pos := pos + size;
      sizeRead := sizeRead + size;
      bufSize := bufSize - size;
    }

    method ReadTensor(t: nat, offset: nat, size: nat) returns (ok: bool)
      requires ReaderOk(View())
      modifies this
      ensures ReaderOk(View())
      ensures if ok then Take(old(View()), Fill(t, offset, size)) == Some(Got(View(), [])) else Take(old(View()), Fill(t, offset, size)) == None && View() == old(View())
    {
      if size > bufSize {
        return false;
      }
      rinfos := rinfos + [Copy(t, pos, size, offset)];
      pos := pos + size;
      sizeRead := sizeRead + size;
      bufSize := bufSize - size;
      return true;
    }

    // The destructor: tensors are distinct arrays.
    method Destroy(tensors: seq<array<Byte>>)
      requires forall i, j :: 0 <= i < j < |tensors| ==> tensors[i] != tensors[j]
      requires AllFill(Contents(tensors), rinfos, |buf|)
      modifies tensors
      ensures Contents(tensors) == Restore(old(Contents(tensors)), buf, rinfos)
    {
      ghost var was := Contents(tensors);
      for k := 0 to |rinfos|
        invariant AllFill(was, rinfos[..k], |buf|) && Contents(tensors) == Restore(was, buf, rinfos[..k])
      {
        var c := rinfos[k];
        assert Fills(was, c, |buf|);
        assert rinfos[..k + 1][..k] == rinfos[..k] && rinfos[..k + 1][k] == c;
        TensorSet(tensors, c.t, c.offset, buf[c.at..c.at + c.size]);
      }
      assert rinfos[..|rinfos|] == rinfos;
    }
  }

  function Contents(tensors: seq<array<Byte>>): (ts: Tensors)
    reads tensors
    ensures |ts| == |tensors|
    decreases |tensors|
  {
    if tensors == [] then [] else Contents(tensors[..|tensors| - 1]) + [tensors[|tensors| - 1][..]]
  }

  lemma {:induction false} ContentsAt(tensors: seq<array<Byte>>, t: nat)
    requires t < |tensors|
    ensures Contents(tensors)[t] == tensors[t][..]
    decreases |tensors|
  {
    if t < |tensors| - 1 { ContentsAt(tensors[..|tensors| - 1], t); }
  }

  method TensorSet(tensors: seq<array<Byte>>, t: nat, offset: nat, data: Bytes)
    requires forall i, j :: 0 <= i < j < |tensors| ==> tensors[i] != tensors[j]
    requires t < |tensors| && offset + |data| <= |Contents(tensors)[t]|
    modifies tensors
    ensures Contents(tensors) == old(Contents(tensors))[t := Overwrite(old(Contents(tensors))[t], offset, data)]
  {
    ghost var was := Contents(tensors);
    forall i: nat | i < |tensors| ensures was[i] == tensors[i][..] { ContentsAt(tensors, i); }
    MemCopy(tensors[t], offset, data);
    forall i: nat | i < |tensors| ensures Contents(tensors)[i] == if i == t then Overwrite(was[t], offset, data) else was[i] {
      ContentsAt(tensors, i);
      if i != t { assert tensors[i] != tensors[t]; }
    }
  }
}
