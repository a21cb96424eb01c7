/**
 What MsgBuffer keeps over whole runs: the refinement of a plain sequence of bytes, the cost of
 growth, and the round trip of integers.
 */
module MsgBufferRuns {
  import opened WireIntegers
  import opened MsgBuffers

  /* ---------- Any sequence of operations refines sequences of bytes ---------- */

  // An operation on one of two buffers; the other one takes part where an operation has two.
  datatype Op =
    | OpAppend(data: seq<byte>)
    | OpAppendString(data: seq<byte>)
    | OpAppendSelf
    | OpAppendOther
    | OpAddInFront(data: seq<byte>)
    | OpRetrieve(len: nat)
    | OpRetrieveAll
    | OpRead(len: nat)
    | OpReadFd(r: ReadvResult)
    | OpSwap

  // Two plain sequences: the one an operation is called on, and the other one.
  datatype Pair = Pair(mine: seq<byte>, other: seq<byte>)

  // The same operations on plain sequences.
  function ApplyOp(p: Pair, op: Op): Pair {
    match op
    case OpAppend(data) => p.(mine := p.mine + data)
    case OpAppendString(data) => p.(mine := p.mine + data)
    case OpAppendSelf => p.(mine := p.mine + p.mine)
    case OpAppendOther => p.(mine := p.mine + p.other)
    case OpAddInFront(data) => p.(mine := data + p.mine)
    case OpRetrieve(len) => p.(mine := if len >= |p.mine| then [] else p.mine[len..])
    case OpRetrieveAll => p.(mine := [])
    case OpRead(len) => p.(mine := if len >= |p.mine| then [] else p.mine[len..])
    case OpReadFd(r) => p.(mine := p.mine + if r.Got? then r.data else [])
    case OpSwap => Pair(p.other, p.mine)
  }

  // What an operation returns as data.
  function ResultOf(p: Pair, op: Op): seq<seq<byte>> {
    if op.OpRead? then [if op.len > |p.mine| then p.mine else p.mine[..op.len]] else []
  }

  // A call on the first or on the second of the two buffers.
  datatype BufferCall = BufferCall(onFirst: bool, op: Op)

  function Turned(p: Pair): Pair {
    Pair(p.other, p.mine)
  }

  function ApplyCall(p: Pair, call: BufferCall): Pair {
    if call.onFirst then ApplyOp(p, call.op) else Turned(ApplyOp(Turned(p), call.op))
  }

  function ResultOfCall(p: Pair, call: BufferCall): seq<seq<byte>> {
    ResultOf(if call.onFirst then p else Turned(p), call.op)
  }

  function ApplyCalls(calls: seq<BufferCall>): Pair {
    if calls == [] then Pair([], []) else ApplyCall(ApplyCalls(calls[..|calls| - 1]), calls[|calls| - 1])
  }

  function Results(calls: seq<BufferCall>): seq<seq<byte>> {
    if calls == [] then []
    else Results(calls[..|calls| - 1]) + ResultOfCall(ApplyCalls(calls[..|calls| - 1]), calls[|calls| - 1])
  }

  ghost predicate TwoBuffers(a: MsgBuffer, b: MsgBuffer)
    reads a, b
  {
    a.Valid() && b.Valid() && a != b && a.buffer != b.buffer
  }

  ghost function Both(a: MsgBuffer, b: MsgBuffer): Pair
    requires a.Shape() && b.Shape()
    reads a, a.buffer, b, b.buffer
  {
    Pair(a.Contents(), b.Contents())
  }

  // The size of the larger array, and the length of the longer sequence.
  function Larger(a: MsgBuffer, b: MsgBuffer): nat
    reads a, b
  {
    if a.buffer.Length < b.buffer.Length then b.buffer.Length else a.buffer.Length
  }

  function Longer(p: Pair): nat {
    if |p.mine| < |p.other| then |p.other| else |p.mine|
  }

  // The most that either sequence holds in a run.
  function Peak(calls: seq<BufferCall>): nat {
    if calls == [] then 0
    else
      var before, now := Peak(calls[..|calls| - 1]), Longer(ApplyCalls(calls));
      if before < now then now else before
  }

  predicate AddsBytes(op: Op) {
    op.OpAppend? || op.OpAppendString? || op.OpAppendSelf? || op.OpAddInFront? || op.OpReadFd?
  }

  predicate TakesBytes(op: Op) {
    op.OpRetrieve? || op.OpRetrieveAll? || op.OpRead?
  }

  // An operation that only one buffer takes part in. A readv that delivers more than it may is not an
  // input of this model.
  method AddBytes(b: MsgBuffer, op: Op)
    requires b.Valid() && AddsBytes(op) && (op.OpReadFd? ==> b.LegalReadv(op.r))
    modifies b, b.buffer
    ensures b.Valid() && (b.buffer == old(b.buffer) || fresh(b.buffer))
    ensures b.Contents() == ApplyOp(Pair(old(b.Contents()), []), op).mine
    ensures b.Economical(old(b.buffer.Length), |b.Contents()|)
  {
    match op {
      case OpAppend(data) => b.Append(data);
      case OpAppendString(data) => b.AppendString(data);
      case OpAppendSelf => b.AppendBuffer(b);
      case OpAddInFront(data) => b.AddInFront(data);
      case OpReadFd(r) => var _, _ := b.ReadFd(r);
    }
  }

  method TakeBytes(b: MsgBuffer, op: Op) returns (read: seq<seq<byte>>)
    requires b.Valid() && TakesBytes(op)
    modifies b
    ensures b.Valid() && b.buffer == old(b.buffer)
    ensures b.Contents() == ApplyOp(Pair(old(b.Contents()), []), op).mine
    ensures read == ResultOf(Pair(old(b.Contents()), []), op)
  {
    read := [];
    match op {
      case OpRetrieve(len) => b.Retrieve(len);
      case OpRetrieveAll => b.RetrieveAll();
      case OpRead(len) =>
        var data := b.Read(len);
        read := [data];
    }
  }

  method Perform(mine: MsgBuffer, other: MsgBuffer, op: Op) returns (read: seq<seq<byte>>)
    requires TwoBuffers(mine, other) && (op.OpReadFd? ==> mine.LegalReadv(op.r))
    modifies mine, mine.buffer, other
    ensures TwoBuffers(mine, other)
    ensures fresh({mine.buffer, other.buffer} - old({mine.buffer, other.buffer}))
    ensures Both(mine, other) == ApplyOp(old(Both(mine, other)), op)
    ensures Larger(mine, other) <= old(Larger(mine, other)) || Larger(mine, other) <= 2 * Longer(Both(mine, other)) + 24
    ensures read == ResultOf(old(Both(mine, other)), op)
  {
    read := [];
    if op.OpAppendOther? {
      mine.AppendBuffer(other);
    } else if op.OpSwap? {
      mine.Swap(other);
    } else if TakesBytes(op) {
      read := TakeBytes(mine, op);
    } else {
      AddBytes(mine, op);
    }
  }

  predicate PossibleCall(a: MsgBuffer, b: MsgBuffer, call: BufferCall)
    requires a.Shape() && b.Shape()
    reads a, b
  {
    call.op.OpReadFd? ==> (if call.onFirst then a else b).LegalReadv(call.op.r)
  }

  method PerformCall(a: MsgBuffer, b: MsgBuffer, call: BufferCall) returns (read: seq<seq<byte>>)
    requires TwoBuffers(a, b) && PossibleCall(a, b, call)
    modifies a, a.buffer, b, b.buffer
    ensures TwoBuffers(a, b)
    ensures fresh({a.buffer, b.buffer} - old({a.buffer, b.buffer}))
    ensures Both(a, b) == ApplyCall(old(Both(a, b)), call)
    ensures Larger(a, b) <= old(Larger(a, b)) || Larger(a, b) <= 2 * Longer(Both(a, b)) + 24
    ensures read == ResultOfCall(old(Both(a, b)), call)
  {
    if call.onFirst {
      read := Perform(a, b, call.op);
    } else {
      read := Perform(b, a, call.op);
    }
  }

  lemma OneMoreCall(calls: seq<BufferCall>, call: BufferCall)
    ensures ApplyCalls(calls + [call]) == ApplyCall(ApplyCalls(calls), call)
    ensures Results(calls + [call]) == Results(calls) + ResultOfCall(ApplyCalls(calls), call)
    ensures Peak(calls) <= Peak(calls + [call]) && Longer(ApplyCalls(calls + [call])) <= Peak(calls + [call])
  {
    assert (calls + [call])[..|calls|] == calls;
  }

  // Two buffers, and what reading has returned, after some calls; limit: the larger of the first arrays.
  ghost predicate Refines(a: MsgBuffer, b: MsgBuffer, calls: seq<BufferCall>, results: seq<seq<byte>>, limit: nat)
    requires a.Shape() && b.Shape()
    reads a, a.buffer, b, b.buffer
  {
    && Both(a, b) == ApplyCalls(calls) && results == Results(calls)
    && (Larger(a, b) <= limit || Larger(a, b) <= 2 * Peak(calls) + 24)
  }

  method PerformNext(a: MsgBuffer, b: MsgBuffer, ghost calls: seq<BufferCall>, call: BufferCall,
                     results: seq<seq<byte>>, ghost limit: nat) returns (more: seq<seq<byte>>)
    requires TwoBuffers(a, b) && PossibleCall(a, b, call) && Refines(a, b, calls, results, limit)
    modifies a, a.buffer, b, b.buffer
    ensures TwoBuffers(a, b) && Refines(a, b, calls + [call], more, limit)
    ensures fresh({a.buffer, b.buffer} - old({a.buffer, b.buffer}))
  {
    OneMoreCall(calls, call);
    var read := PerformCall(a, b, call);
    more := results + read;
  }

  // From two buffers of any sizes from 8 on, through every compaction, shift and growth, and for every
  // sequence of operations on both up to the first readv that is not one: the buffers hold what two plain
  // sequences would, the reads return what those would, and however much passes through, the arrays stay
  // within twice the most that was in a buffer at once. done: how far that is.
  method PerformAll(len1: nat, len2: nat, calls: seq<BufferCall>)
      returns (a: MsgBuffer, b: MsgBuffer, results: seq<seq<byte>>, done: nat)
    requires len1 >= 8 && len2 >= 8
    ensures fresh(a) && fresh(b) && TwoBuffers(a, b) && done <= |calls|
    ensures Refines(a, b, calls[..done], results, if len1 < len2 then len2 + 8 else len1 + 8)
    ensures done < |calls| ==> !PossibleCall(a, b, calls[done])
  {
    a := new MsgBuffer(len1);
    b := new MsgBuffer(len2);
    results, done := [], 0;
    ghost var limit := if len1 < len2 then len2 + 8 else len1 + 8;
    while done < |calls| && PossibleCall(a, b, calls[done])
      invariant fresh(a) && fresh(b) && fresh({a.buffer, b.buffer}) && TwoBuffers(a, b) && done <= |calls|
      invariant Refines(a, b, calls[..done], results, limit)
    {
      assert calls[..done + 1] == calls[..done] + [calls[done]];
      results := PerformNext(a, b, calls[..done], calls[done], results, limit);
      done := done + 1;
    }
  }

  // Why the size must be at least 8: a smaller buffer loses its shape at the first RetrieveAll.
  method SmallBufferBreaks(len: nat) returns (b: MsgBuffer)
    requires len < 8
    ensures !b.Shape() && b.writeIndex > b.buffer.Length
  {
    b := new MsgBuffer(len);
    b.RetrieveAll();
  }

  /* ---------- The cost of growth ---------- */

  // What one append adds, by any of the overloads: bytes, a string, another buffer, or the buffer itself.
  datatype Chunk = Bytes(data: seq<byte>) | Text(data: seq<byte>) | Other(data: seq<byte>) | Itself

  function Added(was: seq<byte>, chunk: Chunk): seq<byte> {
    if chunk.Itself? then was else chunk.data
  }

  function Appended(chunks: seq<Chunk>): seq<byte> {
    if chunks == [] then []
    else
      var was := Appended(chunks[..|chunks| - 1]);
      was + Added(was, chunks[|chunks| - 1])
  }

  method BufferOf(data: seq<byte>) returns (b: MsgBuffer)
    ensures b.Valid() && b.Contents() == data
    ensures fresh(b) && fresh(b.buffer)
  {
    b := new MsgBuffer();
    b.Append(data);
  }

  // Growth at least doubles the array, and copies the bytes that were there.
  method AppendChunk(b: MsgBuffer, chunk: Chunk)
    requires b.Shape()
    modifies b, b.buffer
    ensures b.Shape() && (b.buffer == old(b.buffer) || fresh(b.buffer))
    ensures b.Contents() == old(b.Contents()) + Added(old(b.Contents()), chunk)
    ensures b.initCap == old(b.initCap) || b.initCap >= 2 * old(b.buffer.Length)
    ensures b.moved == old(b.moved) + if b.initCap == old(b.initCap) then 0 else |old(b.Contents())|
    ensures old(b.WriteableBytes()) >= |Added(old(b.Contents()), chunk)| ==> b.initCap == old(b.initCap)
    ensures b.readIndex == old(b.readIndex) || b.readIndex == BUF_OFFSET
  {
    match chunk {
      case Bytes(data) => b.Append(data);
      case Text(data) => b.AppendString(data);
      case Other(data) =>
        var other := BufferOf(data);
        b.AppendBuffer(other);
      case Itself => b.AppendBuffer(b);
    }
  }

  // In a run of appends of all kinds to a fresh buffer, of any size, the bytes copied by all reallocations
  // together stay below the size of the array and below a linear function of the bytes appended.
  method AppendAll(len: nat, chunks: seq<Chunk>) returns (b: MsgBuffer)
    ensures fresh(b) && b.Shape() && b.Contents() == Appended(chunks)
    ensures b.moved <= b.buffer.Length
    ensures b.moved <= 2 * |Appended(chunks)| + 24
  {
    b := new MsgBuffer(len);
    for i := 0 to |chunks|
      invariant fresh(b) && fresh(b.buffer) && b.Shape() && b.readIndex == BUF_OFFSET
      invariant b.Contents() == Appended(chunks[..i])
      invariant b.moved <= b.buffer.Length
      invariant b.moved <= 2 * |Appended(chunks[..i])| + 24
    {
      assert chunks[..i + 1][..i] == chunks[..i];
      AppendChunk(b, chunks[i]);
    }
    assert chunks[..|chunks|] == chunks;
  }

  /* ---------- Mixed integers come back ---------- */

  datatype Item = I8(v8: uint8) | I16(v16: uint16) | I32(v32: uint32) | I64(v64: uint64)

  function Wire(h: HostOrder, item: Item): (bs: seq<byte>)
    ensures |bs| >= 1
  {
    match item
    case I8(v) => [v as byte]
    case I16(v) => NetworkBytes(v, 2)
    case I32(v) => NetworkBytes(v, 4)
    case I64(v) => Wire64(h, v)
  }

  function WireAll(h: HostOrder, items: seq<Item>): seq<byte> {
    if items == [] then [] else Wire(h, items[0]) + WireAll(h, items[1..])
  }

  method AppendItem(b: MsgBuffer, h: HostOrder, item: Item)
    requires b.Valid()
    modifies b, b.buffer
    ensures b.Valid() && (b.buffer == old(b.buffer) || fresh(b.buffer))
    ensures b.Contents() == old(b.Contents()) + Wire(h, item)
  {
    match item {
      case I8(v) => b.AppendInt8(v);
      case I16(v) => b.AppendInt16(h, v);
      case I32(v) => b.AppendInt32(h, v);
      case I64(v) => b.AppendInt64(h, v);
    }
  }

  // What is read from the bytes of an item is its value.
  lemma WireReadsBack(h: HostOrder, item: Item)
    ensures var bs := Wire(h, item);
            match item
            case I8(v) => bs[0] as int == v
            case I16(v) => NetworkValue(bs) == v
            case I32(v) => NetworkValue(bs) == v
            case I64(v) => Unwire64(h, bs) == v
  {
    Powers();
    match item {
      case I8(v) =>
      case I16(v) => ValueOfBytes(v, 2);
      case I32(v) => ValueOfBytes(v, 4);
      case I64(v) => Wire64RoundTrip(h, v);
    }
  }

  // Reads an integer as wide as the one expected, and finds the expected value.
  method ReadItem(b: MsgBuffer, h: HostOrder, ghost expected: Item, width: nat, ghost rest: seq<byte>) returns (v: nat)
    requires b.Valid() && width == |Wire(h, expected)| && b.Contents() == Wire(h, expected) + rest
    modifies b
    ensures b.Valid() && b.buffer == old(b.buffer)
    ensures b.Contents() == rest
    ensures v == Value(expected)
  {
    ghost var bs := Wire(h, expected);
    assert b.Contents()[..width] == bs && b.Contents()[width..] == rest;
    WireReadsBack(h, expected);
    if width == 1 {
      assert b.Contents()[0] == bs[0];
      v := b.ReadInt8();
    } else if width == 2 {
      v := b.ReadInt16(h);
    } else if width == 4 {
      v := b.ReadInt32(h);
    } else {
      v := b.ReadInt64(h);
    }
  }

  function Value(item: Item): nat {
    match item
    case I8(v) => v
    case I16(v) => v
    case I32(v) => v
    case I64(v) => v
  }

  lemma {:induction false} WireAllAppend(h: HostOrder, items: seq<Item>, item: Item)
    ensures WireAll(h, items + [item]) == WireAll(h, items) + Wire(h, item)
  {
    if items == [] {
      assert items + [item] == [item] && WireAll(h, []) == [];
    } else {
      assert (items + [item])[1..] == items[1..] + [item];
      WireAllAppend(h, items[1..], item);
      assert Wire(h, items[0]) + (WireAll(h, items[1..]) + Wire(h, item)) ==
        (Wire(h, items[0]) + WireAll(h, items[1..])) + Wire(h, item);
    }
  }

  // An integer is appended, or one of a given width in bytes is read.
  datatype Exchange = Put(item: Item) | Take(width: nat)

  // left: the integers in the buffer, the oldest first. A read is possible when it finds one and asks
  // for its width.
  predicate Matches(h: HostOrder, left: seq<Item>, op: Exchange) {
    op.Take? ==> left != [] && op.width == |Wire(h, left[0])|
  }

  function Exchanged(left: seq<Item>, op: Exchange): seq<Item>
    requires op.Take? ==> left != []
  {
    if op.Put? then left + [op.item] else left[1..]
  }

  predicate AllMatch(h: HostOrder, left: seq<Item>, ops: seq<Exchange>)
    decreases ops
  {
    ops == [] || (Matches(h, left, ops[0]) && AllMatch(h, Exchanged(left, ops[0]), ops[1..]))
  }

  function Puts(ops: seq<Exchange>): seq<Item> {
    if ops == [] then [] else (if ops[0].Put? then [ops[0].item] else []) + Puts(ops[1..])
  }

  function Takes(ops: seq<Exchange>): nat {
    if ops == [] then 0 else (if ops[0].Take? then 1 else 0) + Takes(ops[1..])
  }

  function Values(items: seq<Item>): (values: seq<nat>)
    ensures |values| == |items| && forall i :: 0 <= i < |items| ==> values[i] == Value(items[i])
  {
    if items == [] then [] else [Value(items[0])] + Values(items[1..])
  }

  // One exchange of the buffer does what it does to a queue of integers.
  method ExchangeOne(b: MsgBuffer, h: HostOrder, ghost left: seq<Item>, op: Exchange) returns (read: seq<nat>)
    requires b.Valid() && b.Contents() == WireAll(h, left) && Matches(h, left, op)
    modifies b, b.buffer
    ensures b.Valid() && (b.buffer == old(b.buffer) || fresh(b.buffer))
    ensures read == if op.Take? then [Value(left[0])] else []
    ensures b.Contents() == WireAll(h, Exchanged(left, op))
  {
    match op {
      case Put(item) =>
        WireAllAppend(h, left, item);
        AppendItem(b, h, item);
        read := [];
      case Take(width) =>
        var v := ReadItem(b, h, left[0], width, WireAll(h, left[1..]));
        read := [v];
    }
  }

  // The integers there were and those appended: a read takes the first of them.
  lemma ExchangeTakesFirst(left: seq<Item>, ops: seq<Exchange>)
    requires ops != [] && (ops[0].Take? ==> left != [])
    ensures var all, rest := left + Puts(ops), Exchanged(left, ops[0]) + Puts(ops[1..]);
            all == if ops[0].Take? then [left[0]] + rest else rest
  {
    if ops[0].Put? {
      Regroup(left, [ops[0].item], Puts(ops[1..]));
    } else {
      assert left == [left[0]] + left[1..];
      assert Puts(ops) == [] + Puts(ops[1..]) == Puts(ops[1..]);
      Regroup([left[0]], left[1..], Puts(ops[1..]));
    }
  }

  lemma Regroup(a: seq<Item>, b: seq<Item>, c: seq<Item>)
    ensures a + (b + c) == (a + b) + c
  {
  }

  lemma ValuesOfOneMore(first: Item, rest: seq<Item>, n: nat)
    requires n <= |rest|
    ensures var all := [first] + rest;
            Values(all[..n + 1]) == [Value(first)] + Values(rest[..n]) && all[n + 1..] == rest[n..]
  {
    assert ([first] + rest)[..n + 1] == [first] + rest[..n];
  }

  // However appends and matching reads of integers of all widths are mixed, on a buffer that may hold
  // unread integers already: the reads return the integers in the order of their appends, and the buffer
  // holds exactly those that are left.
  method ExchangeAll(b: MsgBuffer, h: HostOrder, ghost left: seq<Item>, ops: seq<Exchange>) returns (values: seq<nat>)
    requires b.Valid() && b.Contents() == WireAll(h, left) && AllMatch(h, left, ops)
    modifies b, b.buffer
    ensures b.Valid() && (b.buffer == old(b.buffer) || fresh(b.buffer))
    ensures Takes(ops) <= |left| + |Puts(ops)|
    ensures values == Values((left + Puts(ops))[..Takes(ops)])
    ensures b.Contents() == WireAll(h, (left + Puts(ops))[Takes(ops)..])
    decreases |ops|
  {
    if ops == [] {
      assert (left + [])[0..] == left;
      values := [];
    } else {
      var read := ExchangeOne(b, h, left, ops[0]);
      var rest := ExchangeAll(b, h, Exchanged(left, ops[0]), ops[1..]);
      values := read + rest;
      ExchangeTakesFirst(left, ops);
      if ops[0].Take? {
        ValuesOfOneMore(left[0], Exchanged(left, ops[0]) + Puts(ops[1..]), Takes(ops[1..]));
      }
    }
  }
}
