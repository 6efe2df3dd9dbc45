/** The growable byte buffer of Buffer.h and Buffer.cpp. */
module Buffers {

  newtype byte = x: int | 0 <= x < 256

  const PREPEND: nat := 8
  const INIT_SIZE: nat := 1024
  const EXTRA_SIZE: nat := 65536

  /** What `readv` answers: an error, or the bytes it scattered over the two segments. */
  datatype ReadResult = ReadError | ReadBytes(bytes: seq<byte>)

  /** A buffer seen from outside: its capacity, where its readable region starts, and that region. */
  datatype View = View(size: nat, start: nat, bytes: seq<byte>) {
    ghost predicate Ok() {
      PREPEND <= start && start + |bytes| <= size
    }

    function Writable(): int {
      size - start - |bytes|
    }
  }

  /** Room for `len` more bytes: already there, or a larger vector, or the readable region moved left. */
  ghost function Roomed(v: View, len: nat): View {
    if len <= v.Writable() then
      v
    else if v.Writable() + v.start < len + PREPEND then
      v.(size := v.start + |v.bytes| + len)
    else
      v.(start := PREPEND)
  }

  ghost function Appended(v: View, bs: seq<byte>): View {
    Roomed(v, |bs|).(bytes := v.bytes + bs)
  }

  ghost function Filled(v: View, r: ReadResult): View
    requires v.Ok()
  {
    match r
    case ReadError => v
    case ReadBytes(bs) =>
      var room := v.Writable();
      if |bs| <= room then
        v.(bytes := v.bytes + bs)
      else
        Appended(v.(bytes := v.bytes + bs[..room]), bs[room..])
  }

  ghost function Dropped(v: View, n: nat): View {
    if n < |v.bytes| then View(v.size, v.start + n, v.bytes[n..]) else View(v.size, PREPEND, [])
  }

  class Buffer {
    var readIndex: nat
    var writeIndex: nat
    var data: seq<byte>

    ghost predicate Valid()
      reads this
    {
      PREPEND <= readIndex <= writeIndex <= |data|
    }

    /** The readable region, oldest byte first. */
    function Contents(): (s: seq<byte>)
      reads this
      requires Valid()
    {
      data[readIndex..writeIndex]
    }

    ghost function AsView(): (v: View)
      reads this
      requires Valid()
      ensures v.Ok()
    {
      View(|data|, readIndex, Contents())
    }

    /** Any size is accepted; the buffer is a sound one iff the prepend area fits. */
    constructor (initSize: nat := INIT_SIZE)
      ensures |data| == initSize && readIndex == writeIndex == PREPEND
      ensures Valid() <==> PREPEND <= initSize
      ensures PREPEND <= initSize ==> AsView() == View(initSize, PREPEND, [])
    {
      data := seq(initSize, _ => 0);
      readIndex := PREPEND;
      writeIndex := PREPEND;
    }

    function WritableSize(): (n: nat)
      reads this
      requires Valid()
    {
      |data| - writeIndex
    }

    function ReadableSize(): (n: nat)
      reads this
      requires Valid()
      ensures n == |Contents()|
    {
      writeIndex - readIndex
    }

    function PreSize(): nat
      reads this
    {
      readIndex
    }

    /** `std::copy` inside `data`: one element at a time, first to last. As in C++, the destination
        must not lie inside the source range. */
    method CopyWithin(first: nat, last: nat, dest: nat)
      requires first <= last <= |data|
      requires !(first <= dest < last)
      requires dest + (last - first) <= |data|
      modifies this`data
      ensures |data| == |old(data)|
      ensures forall k :: 0 <= k < |data| ==>
                data[k] == old(data)[if dest <= k < dest + (last - first) then first + (k - dest) else k]
    {
      var i := 0;
      while i < last - first
        invariant 0 <= i <= last - first
        invariant |data| == |old(data)|
        invariant forall k :: 0 <= k < |data| ==>
                    data[k] == old(data)[if dest <= k < dest + i then first + (k - dest) else k]
      {
        data := data[dest + i := data[first + i]];
        i := i + 1;
      }
    }

    /** `std::copy` from another object into `data`. */
    method CopyFrom(bs: seq<byte>, dest: nat)
      requires dest + |bs| <= |data|
      modifies this`data
      ensures data == old(data[..dest]) + bs + old(data[dest + |bs|..])
    {
      var i := 0;
      while i < |bs|
        invariant 0 <= i <= |bs|
        invariant data == old(data)[..dest] + bs[..i] + old(data)[dest + i..]
      {
        data := data[dest + i := bs[i]];
        i := i + 1;
      }
    }

    method HasWritten(len: nat)
      requires Valid() && len <= WritableSize()
      modifies this`writeIndex
      ensures Valid() && writeIndex == old(writeIndex) + len
    {
      writeIndex := writeIndex + len;
    }

    /** Called only when the room at the end is too small. */
    method MakeSpace(len: nat)
      requires Valid() && WritableSize() < len
      modifies this
      ensures Valid() && WritableSize() >= len
      ensures Contents() == old(Contents())
      ensures |old(data)| <= |data|
      ensures AsView() == Roomed(old(AsView()), len)
    {
      if WritableSize() + PreSize() < len + PREPEND {
        data := data + seq(writeIndex + len - |data|, _ => 0);
      } else {
        var readable := ReadableSize();
        // WritableSize() < len makes this a strict move to the left.
        assert PREPEND < readIndex;
        CopyWithin(readIndex, writeIndex, PREPEND);
        readIndex := PREPEND;
        writeIndex := readIndex + readable;
        assert readable == ReadableSize();
      }
    }

    method EnsureWritableSize(len: nat)
      requires Valid()
      modifies this
      ensures Valid() && WritableSize() >= len
      ensures Contents() == old(Contents())
      ensures |old(data)| <= |data|
      ensures AsView() == Roomed(old(AsView()), len)
    {
      if WritableSize() < len {
        MakeSpace(len);
      }
    }

    method Append(bs: seq<byte>)
      requires Valid()
      modifies this
      ensures Valid() && Contents() == old(Contents()) + bs
      ensures AsView() == Appended(old(AsView()), bs)
    {
      EnsureWritableSize(|bs|);
      CopyFrom(bs, writeIndex);
      HasWritten(|bs|);
    }

    /** `readv` with two segments: the room at the end of `data`, then `extra`. */
    method Readv(bs: seq<byte>, extra: array<byte>) returns (n: nat)
      requires Valid() && |bs| <= WritableSize() + extra.Length
      modifies this`data, extra
      ensures Valid() && n == |bs| && |data| == |old(data)|
      ensures data[..writeIndex] == old(data[..writeIndex])
      ensures if n <= WritableSize() then data[writeIndex..writeIndex + n] == bs
              else data[writeIndex..] + extra[..n - WritableSize()] == bs
    {
      var room := WritableSize();
      if |bs| <= room {
        CopyFrom(bs, writeIndex);
      } else {
        CopyFrom(bs[..room], writeIndex);
        var i := 0;
        while i < |bs| - room
          modifies extra
          invariant 0 <= i <= |bs| - room
          invariant extra[..i] == bs[room..room + i]
        {
          extra[i] := bs[room + i];
          i := i + 1;
        }
      }
      n := |bs|;
      assert n > room ==> bs == bs[..room] + bs[room..];
    }

    /** The result is what `readv` returned; `r` is the kernel's choice. */
    method ReadFd(r: ReadResult) returns (n: int)
      requires Valid()
      requires r.ReadBytes? ==> |r.bytes| <= WritableSize() + EXTRA_SIZE
      modifies this
      ensures Valid()
      ensures r.ReadError? ==> n == -1 && unchanged(this)
      ensures r.ReadBytes? ==> n == |r.bytes| && Contents() == old(Contents()) + r.bytes
      ensures AsView() == Filled(old(AsView()), r)
    {
      var extra := new byte[EXTRA_SIZE];
      var writable := WritableSize();
      if r.ReadError? {
        n := -1;
      } else {
        n := Readv(r.bytes, extra);
      }
      if n < 0 {
      } else if n <= writable {
        writeIndex := writeIndex + n;
      } else {
        writeIndex := |data|;
        assert extra[..n - writable] == r.bytes[writable..];
        assert Contents() == old(Contents()) + r.bytes[..writable];
        Append(extra[..n - writable]);
      }
    }

    method RetrieveAll()
      requires Valid()
      modifies this`readIndex, this`writeIndex
      ensures Valid() && AsView() == old(AsView()).(start := PREPEND, bytes := [])
    {
      readIndex := PREPEND;
      writeIndex := PREPEND;
    }

    method Retrieve(len: nat)
      requires Valid()
      modifies this`readIndex, this`writeIndex
      ensures Valid() && AsView() == Dropped(old(AsView()), len)
      ensures Contents() == if len <= |old(Contents())| then old(Contents())[len..] else []
    {
      if len < ReadableSize() {
        readIndex := readIndex + len;
      } else {
        RetrieveAll();
      }
    }

    method RetrieveAsString(len: nat) returns (s: seq<byte>)
      requires Valid() && len <= ReadableSize()
      modifies this`readIndex, this`writeIndex
      ensures Valid() && AsView() == Dropped(old(AsView()), len)
      ensures old(Contents()) == s + Contents() && |s| == len
    {
      s := data[readIndex..readIndex + len];
      Retrieve(len);
    }

    method RetrieveAllAsString() returns (s: seq<byte>)
      requires Valid()
      modifies this`readIndex, this`writeIndex
      ensures Valid() && AsView() == Dropped(old(AsView()), |old(Contents())|)
      ensures s == old(Contents()) && Contents() == []
    {
      s := RetrieveAsString(ReadableSize());
    }
  }
}
