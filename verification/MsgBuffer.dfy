/**
 The byte buffer of a connection (water/base/msg_buffer.cc). An array holds, from left to right,
 prepend space, the readable bytes, and writable space. Appends compact the array or replace it by a
 larger one; all of it refines a plain sequence of bytes.

 memcpy and std::copy become parallel assignments, which read everything before they write (memmove).
 */
module MsgBuffers {
  import opened Wrappers
  import opened WireIntegers

  const BUF_OFFSET := 8
  const EXT_BUFFER_SIZE := 65536
  const SIZE_MAX := 0xFFFF_FFFF_FFFF_FFFF

  // What readv did.
  datatype ReadvResult = Failed(errno: int) | Got(data: seq<byte>)

  class MsgBuffer {
    var buffer: array<byte>
    var readIndex: nat
    var writeIndex: nat
    var initCap: nat
    ghost var moved: nat  // history: the number of bytes that growth has copied

    // Note that it does not bound initCap from below. RetrieveAll says why that matters.
    predicate Shape()
      reads this
    {
      readIndex <= writeIndex <= buffer.Length == initCap + BUF_OFFSET
    }

    predicate Valid()
      reads this
    {
      Shape() && initCap >= BUF_OFFSET
    }

    // The readable bytes: the abstract value.
    ghost function Contents(): seq<byte>
      requires Shape()
      reads this, buffer
    {
      buffer[readIndex..writeIndex]
    }

    // Each buffer owns its storage.
    ghost predicate Apart(other: MsgBuffer)
      reads this, other
    {
      other == this || other.buffer != buffer
    }

    constructor (len: nat := 2048)
      ensures Shape() && fresh(buffer)
      ensures Contents() == []
      ensures initCap == len && readIndex == BUF_OFFSET && moved == 0
    {
      buffer := new byte[len + BUF_OFFSET];
      readIndex, writeIndex, initCap, moved := BUF_OFFSET, BUF_OFFSET, len, 0;
    }

    constructor Copy(other: MsgBuffer)
      requires other.Shape()
      ensures Shape() && fresh(buffer)
      ensures Contents() == other.Contents() && initCap == other.initCap
    {
      buffer := new byte[other.buffer.Length](i requires 0 <= i < other.buffer.Length reads other, other.buffer => other.buffer[i]);
      readIndex, writeIndex, initCap, moved := other.readIndex, other.writeIndex, other.initCap, 0;
    }

    function ReadableBytes(): nat
      requires Shape()
      reads this
    {
      writeIndex - readIndex
    }

    function WriteableBytes(): nat
      requires Shape()
      reads this
    {
      buffer.Length - writeIndex
    }

    // Swaps everything but the history.
    method Swap(other: MsgBuffer)
      modifies this, other
      ensures buffer == old(other.buffer) && other.buffer == old(buffer)
      ensures readIndex == old(other.readIndex) && other.readIndex == old(readIndex)
      ensures writeIndex == old(other.writeIndex) && other.writeIndex == old(writeIndex)
      ensures initCap == old(other.initCap) && other.initCap == old(initCap)
      ensures moved == old(moved) && other.moved == old(other.moved)
    {
      buffer, other.buffer := other.buffer, buffer;
      readIndex, other.readIndex := other.readIndex, readIndex;
      initCap, other.initCap := other.initCap, initCap;
      writeIndex, other.writeIndex := other.writeIndex, writeIndex;
    }

    // memcpy behind the readable bytes, into space that is there.
    method CopyToEnd(data: seq<byte>)
      requires Shape() && |data| <= WriteableBytes()
      modifies buffer, this`writeIndex
      ensures Shape() && Contents() == old(Contents()) + data
    {
      ghost var was := Contents();
      forall i | 0 <= i < |data| {
        buffer[writeIndex + i] := data[i];
      }
      assert buffer[readIndex..writeIndex] == was;
      assert buffer[writeIndex..writeIndex + |data|] == data;
      writeIndex := writeIndex + |data|;
    }

    // The array is no larger than it was, or than about twice what it has to hold.
    predicate Economical(was: nat, need: nat)
      reads this
    {
      buffer.Length <= was || buffer.Length <= 2 * need + 24
    }

    // The compaction in EnsureWriteableBytes: the readable bytes move left, over themselves.
    method Compact()
      requires Shape() && readIndex >= BUF_OFFSET
      modifies buffer, this`readIndex, this`writeIndex
      ensures Shape() && Contents() == old(Contents()) && readIndex == BUF_OFFSET
    {
      ghost var was := Contents();
      var n := writeIndex - readIndex;
      forall i | 0 <= i < n {
        buffer[BUF_OFFSET + i] := buffer[readIndex + i];
      }
      writeIndex := BUF_OFFSET + n;
      readIndex := BUF_OFFSET;
      assert Contents() == was;
    }

    // The growth in EnsureWriteableBytes.
    method Grow(len: nat)
      requires Shape()
      modifies this
      ensures Shape() && fresh(buffer) && Contents() == old(Contents())
      ensures WriteableBytes() >= len && readIndex == BUF_OFFSET
      ensures initCap >= 2 * old(buffer.Length)
      ensures buffer.Length <= 2 * old(buffer.Length) + BUF_OFFSET || buffer.Length <= |old(Contents())| + len + 2 * BUF_OFFSET
      ensures moved == old(moved) + |old(Contents())|
      decreases 1, 0
    {
      var newLen;
      if buffer.Length * 2 > BUF_OFFSET + ReadableBytes() + len {
        newLen := buffer.Length * 2;
      } else {
        newLen := BUF_OFFSET + ReadableBytes() + len;
      }
      ghost var copied := |Contents()|;
      var newBuf := new MsgBuffer(newLen);
      newBuf.AppendBuffer(this);
      Swap(newBuf);
      moved := moved + copied;
    }

    // Makes room, by doing nothing, by moving the readable bytes to the left, or by growing. It calls
    // Append, which calls it; the new buffer always has room, so that ends.
    method EnsureWriteableBytes(len: nat)
      requires Shape()
      modifies this, buffer
      ensures Shape() && Contents() == old(Contents())
      ensures WriteableBytes() >= len
      ensures buffer == old(buffer) || fresh(buffer)
      ensures initCap == old(initCap) || initCap >= 2 * old(buffer.Length)
      ensures moved == old(moved) + if initCap == old(initCap) then 0 else |old(Contents())|
      ensures old(WriteableBytes()) >= len ==> initCap == old(initCap) && buffer == old(buffer)
      ensures old(readIndex + WriteableBytes()) >= len + BUF_OFFSET ==> initCap == old(initCap)
      ensures Economical(old(buffer.Length), |old(Contents())| + len)
      ensures readIndex == old(readIndex) || readIndex == BUF_OFFSET
      decreases if buffer.Length >= writeIndex + len then 0 else 1, 1
    {
      if WriteableBytes() >= len {
        return;
      }
      if readIndex + WriteableBytes() >= len + BUF_OFFSET {
        Compact();
        return;
      }
      Grow(len);
    }

    // Append(const MsgBuffer&). The other buffer may be this one.
    method AppendBuffer(other: MsgBuffer)
      requires Shape() && other.Shape() && Apart(other)
      modifies this, buffer
      ensures Shape() && Contents() == old(Contents()) + old(other.Contents())
      ensures buffer == old(buffer) || fresh(buffer)
      ensures initCap == old(initCap) || initCap >= 2 * old(buffer.Length)
      ensures moved == old(moved) + if initCap == old(initCap) then 0 else |old(Contents())|
      ensures old(WriteableBytes()) >= old(other.ReadableBytes()) ==> initCap == old(initCap)
      ensures Economical(old(buffer.Length), |Contents()|)
      ensures readIndex == old(readIndex) || readIndex == BUF_OFFSET
      decreases if buffer.Length >= writeIndex + other.writeIndex - other.readIndex then 0 else 1, 2
    {
      EnsureWriteableBytes(other.ReadableBytes());
      CopyToEnd(other.buffer[other.readIndex..other.writeIndex]);
    }

    // Append(const char*, size_t), for bytes outside this buffer.
    method Append(data: seq<byte>)
      requires Shape()
      modifies this, buffer
      ensures Shape() && Contents() == old(Contents()) + data
      ensures buffer == old(buffer) || fresh(buffer)
      ensures initCap == old(initCap) || initCap >= 2 * old(buffer.Length)
      ensures moved == old(moved) + if initCap == old(initCap) then 0 else |old(Contents())|
      ensures old(WriteableBytes()) >= |data| ==> initCap == old(initCap)
      ensures Economical(old(buffer.Length), |Contents()|)
      ensures readIndex == old(readIndex) || readIndex == BUF_OFFSET
    {
      EnsureWriteableBytes(|data|);
      CopyToEnd(data);
    }

    // Append(const std::string&)
    method AppendString(data: seq<byte>)
      requires Shape()
      modifies this, buffer
      ensures Shape() && Contents() == old(Contents()) + data
      ensures buffer == old(buffer) || fresh(buffer)
      ensures initCap == old(initCap) || initCap >= 2 * old(buffer.Length)
      ensures moved == old(moved) + if initCap == old(initCap) then 0 else |old(Contents())|
      ensures old(WriteableBytes()) >= |data| ==> initCap == old(initCap)
      ensures Economical(old(buffer.Length), |Contents()|)
      ensures readIndex == old(readIndex) || readIndex == BUF_OFFSET
    {
      EnsureWriteableBytes(|data|);
      Append(data);
    }

    // std::copy of the readable bytes onto an overlapping place further right, with the meaning of memmove.
    method ShiftRight(len: nat)
      requires Shape() && len <= WriteableBytes()
      modifies buffer, this`writeIndex
      ensures Shape() && writeIndex == old(writeIndex) + len
      ensures buffer[readIndex + len..writeIndex] == old(Contents())
    {
      var n := ReadableBytes();
      forall i | 0 <= i < n {
        buffer[readIndex + len + i] := buffer[readIndex + i];
      }
      writeIndex := writeIndex + len;
    }

    // memcpy over the bytes before the readable ones.
    method CopyBefore(data: seq<byte>)
      requires Shape() && |data| <= readIndex
      modifies buffer, this`readIndex
      ensures Shape() && Contents() == data + old(Contents())
    {
      ghost var was := Contents();
      forall i | 0 <= i < |data| {
        buffer[readIndex - |data| + i] := data[i];
      }
      assert buffer[readIndex - |data|..readIndex] == data && buffer[readIndex..writeIndex] == was;
      readIndex := readIndex - |data|;
    }

    method CopyAfterShift(data: seq<byte>)
      requires Shape() && |data| <= WriteableBytes()
      modifies buffer, this`writeIndex
      ensures Shape() && Contents() == data + old(Contents())
    {
      ghost var was := Contents();
      ShiftRight(|data|);
      forall i | 0 <= i < |data| {
        buffer[readIndex + i] := data[i];
      }
      assert buffer[readIndex..readIndex + |data|] == data && buffer[readIndex + |data|..writeIndex] == was;
    }

    // The case of AddInFront that needs a larger array.
    method GrowInFront(data: seq<byte>)
      requires Shape()
      modifies this
      ensures Shape() && fresh(buffer) && Contents() == data + old(Contents())
      ensures initCap >= old(initCap)
      ensures Economical(old(buffer.Length), |Contents()|)
    {
      var newLen;
      if |data| + ReadableBytes() < initCap {
        newLen := initCap;
      } else {
        newLen := |data| + ReadableBytes();
      }
      var newBuf := new MsgBuffer(newLen);
      newBuf.Append(data);
      newBuf.AppendBuffer(this);
      Swap(newBuf);
    }

    // Uses the prepend space, shifts the readable bytes right over themselves, or grows.
    method AddInFront(data: seq<byte>)
      requires Shape()
      modifies this, buffer
      ensures Shape() && Contents() == data + old(Contents())
      ensures buffer == old(buffer) || fresh(buffer)
      ensures Economical(old(buffer.Length), |Contents()|)
      ensures initCap >= old(initCap)
    {
      if readIndex >= |data| {
        CopyBefore(data);
        return;
      }
      if |data| <= WriteableBytes() {
        CopyAfterShift(data);
        return;
      }
      GrowInFront(data);
    }

    // When the array is more than twice initCap it shrinks to initCap, which loses the prepend space.
    // That happens exactly when initCap < 8, and then the indices lie outside the array.
    method RetrieveAll()
      requires Shape()
      modifies this
      ensures readIndex == writeIndex == BUF_OFFSET && initCap == old(initCap)
      ensures Shape() <==> initCap >= BUF_OFFSET
      ensures initCap >= BUF_OFFSET ==> buffer == old(buffer) && Contents() == []
      ensures initCap < BUF_OFFSET ==> fresh(buffer) && buffer.Length == initCap
      ensures moved == old(moved)
    {
      if buffer.Length > initCap * 2 {
        buffer := new byte[initCap](i requires 0 <= i < initCap && Shape() reads this, buffer => buffer[i]);
      }
      writeIndex, readIndex := BUF_OFFSET, BUF_OFFSET;
    }

    method Retrieve(len: nat)
      requires Shape()
      modifies this
      ensures initCap == old(initCap) && moved == old(moved)
      ensures Shape() <==> initCap >= BUF_OFFSET || len < old(ReadableBytes())
      ensures Shape() ==> buffer == old(buffer)
      ensures Shape() ==> Contents() == if len >= |old(Contents())| then [] else old(Contents())[len..]
    {
      if len >= ReadableBytes() {
        RetrieveAll();
        return;
      }
      readIndex := readIndex + len;
    }

    // memcpy of the first n readable bytes.
    method Front(n: nat) returns (data: seq<byte>)
      requires Shape() && n <= ReadableBytes()
      ensures data == Contents()[..n]
    {
      data := buffer[readIndex..readIndex + n];
      assert |data| == n && forall i :: 0 <= i < n ==> data[i] == Contents()[i];
    }

    method Read(len: nat) returns (data: seq<byte>)
      requires Shape()
      modifies this
      ensures data == if len > |old(Contents())| then old(Contents()) else old(Contents())[..len]
      ensures initCap == old(initCap)
      ensures Shape() <==> initCap >= BUF_OFFSET || len < old(ReadableBytes())
      ensures Shape() ==> buffer == old(buffer) && data + Contents() == old(Contents())
      ensures Shape() ==> Contents() == if len >= |old(Contents())| then [] else old(Contents())[len..]
    {
      var n := len;
      if n > ReadableBytes() {
        n := ReadableBytes();
      }
      data := Front(n);
      Retrieve(n);
    }

    // How much readv can deliver: the writable space and, if that is small, the stack buffer.
    predicate LegalReadv(r: ReadvResult)
      requires Shape()
      reads this
    {
      r.Got? ==> |r.data| <= WriteableBytes() + if WriteableBytes() < EXT_BUFFER_SIZE then EXT_BUFFER_SIZE else 0
    }

    // A failed readv is returned as -1 converted to size_t.
    method ReadFd(r: ReadvResult) returns (n: nat, errno: Option<int>)
      requires Shape() && LegalReadv(r)
      modifies this, buffer
      ensures Shape() && Contents() == old(Contents()) + if r.Got? then r.data else []
      ensures buffer == old(buffer) || fresh(buffer)
      ensures Economical(old(buffer.Length), |Contents()|)
      ensures initCap >= old(initCap)
      ensures n == if r.Got? then |r.data| else SIZE_MAX
      ensures errno == if r.Got? then None else Some(r.errno)
    {
      var writeable := WriteableBytes();
      match r {
        case Failed(e) =>
          return SIZE_MAX, Some(e);
        case Got(data) =>
          if |data| <= writeable {
            CopyToEnd(data);
          } else {
            CopyToEnd(data[..writeable]);
            assert data == data[..writeable] + data[writeable..];
            Append(data[writeable..]);
          }
          return |data|, None;
      }
    }

    /* ---------- Integers ---------- */

    method AppendInt8(b: uint8)
      requires Shape()
      modifies this, buffer
      ensures Shape() && Contents() == old(Contents()) + [b as byte]
      ensures (buffer == old(buffer) || fresh(buffer)) && initCap >= old(initCap)
    {
      Append([b as byte]);
    }

    method AppendInt16(h: HostOrder, s: uint16)
      requires Shape()
      modifies this, buffer
      ensures Shape() && Contents() == old(Contents()) + NetworkBytes(s, 2)
      ensures (buffer == old(buffer) || fresh(buffer)) && initCap >= old(initCap)
    {
      StoredSwapIsNetworkOrder(h, s, 2);
      Append(Store(h, SwapToNetwork(h, s, 2), 2));
    }

    method AppendInt32(h: HostOrder, i: uint32)
      requires Shape()
      modifies this, buffer
      ensures Shape() && Contents() == old(Contents()) + NetworkBytes(i, 4)
      ensures (buffer == old(buffer) || fresh(buffer)) && initCap >= old(initCap)
    {
      StoredSwapIsNetworkOrder(h, i, 4);
      Append(Store(h, SwapToNetwork(h, i, 4), 4));
    }

    method AppendInt64(h: HostOrder, l: uint64)
      requires Shape()
      modifies this, buffer
      ensures Shape() && Contents() == old(Contents()) + Wire64(h, l)
      ensures (buffer == old(buffer) || fresh(buffer)) && initCap >= old(initCap)
    {
      Append(Store(h, Hton64(h, l), 8));
    }

    method PeekInt8() returns (v: nat)
      requires Shape() && ReadableBytes() >= 1
      ensures v == Contents()[0] as int
    {
      v := buffer[readIndex] as int;
    }

    method PeekInt16(h: HostOrder) returns (v: nat)
      requires Shape() && ReadableBytes() >= 2
      ensures v == NetworkValue(Contents()[..2])
    {
      var bs := Front(2);
      UnwireIsNetworkValue(h, bs);
      v := Unwire(h, bs);
    }

    method PeekInt32(h: HostOrder) returns (v: nat)
      requires Shape() && ReadableBytes() >= 4
      ensures v == NetworkValue(Contents()[..4])
    {
      var bs := Front(4);
      UnwireIsNetworkValue(h, bs);
      v := Unwire(h, bs);
    }

    method PeekInt64(h: HostOrder) returns (v: nat)
      requires Shape() && ReadableBytes() >= 8
      ensures v == Unwire64(h, Contents()[..8])
    {
      var bs := Front(8);
      LoadFits64(h, bs);
      v := Ntoh64(h, Load(h, bs));
    }

    method ReadInt8() returns (v: nat)
      requires Valid() && ReadableBytes() >= 1
      modifies this
      ensures Valid() && buffer == old(buffer)
      ensures v == old(Contents()[0]) as int && Contents() == old(Contents())[1..]
    {
      v := PeekInt8();
      Retrieve(1);
    }

    method ReadInt16(h: HostOrder) returns (v: nat)
      requires Valid() && ReadableBytes() >= 2
      modifies this
      ensures Valid() && buffer == old(buffer)
      ensures v == NetworkValue(old(Contents())[..2]) && Contents() == old(Contents())[2..]
    {
      v := PeekInt16(h);
      Retrieve(2);
    }

    method ReadInt32(h: HostOrder) returns (v: nat)
      requires Valid() && ReadableBytes() >= 4
      modifies this
      ensures Valid() && buffer == old(buffer)
      ensures v == NetworkValue(old(Contents())[..4]) && Contents() == old(Contents())[4..]
    {
      v := PeekInt32(h);
      Retrieve(4);
    }

    method ReadInt64(h: HostOrder) returns (v: nat)
      requires Valid() && ReadableBytes() >= 8
      modifies this
      ensures Valid() && buffer == old(buffer)
      ensures v == Unwire64(h, old(Contents())[..8]) && Contents() == old(Contents())[8..]
    {
      v := PeekInt64(h);
      Retrieve(8);
    }

    // The offset of the first CR LF among the readable bytes.
    function FindCRLF(): (r: Option<nat>)
      requires Shape()
      reads this, buffer
      ensures r.Some? ==> CRLFAt(Contents(), r.value)
      ensures forall j: nat :: (r.Some? ==> j < r.value) ==> !CRLFAt(Contents(), j)
    {
      SearchCRLF(buffer[readIndex..writeIndex], 0)
    }
  }

  predicate CRLFAt(s: seq<byte>, i: nat) {
    i + 1 < |s| && s[i] == 13 && s[i + 1] == 10
  }

  // std::search for the two bytes, from offset i on
  function SearchCRLF(s: seq<byte>, i: nat): (r: Option<nat>)
    ensures r.Some? ==> i <= r.value && CRLFAt(s, r.value)
    ensures forall j :: i <= j && (r.Some? ==> j < r.value) ==> !CRLFAt(s, j)
    decreases |s| - i
  {
    if i >= |s| then None else if CRLFAt(s, i) then Some(i) else SearchCRLF(s, i + 1)
  }
}
