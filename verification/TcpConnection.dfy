/**
 The output path and the half-close protocol of a connection (water/net/tcp_connection.cc). Each
 method is what runs in one go on the loop thread. The kernel's answers are parameters, and so is
 what the user's callbacks send. `state_` is taken to start at Connecting.
 */
module TcpConnections {
  import opened WireIntegers
  import opened MsgBuffers

  datatype ConnState = Disconnected | Connecting | Connected | Disconnecting

  // The result of write(2): a failure is -1, which the code turns into the largest size_t.
  datatype WriteResult = WriteFailed | Wrote(n: nat)

  // History: a CloseWrite, with all bytes given to SendInLoop and all bytes written up to then.
  datatype HalfClose = HalfClose(sent: seq<byte>, wire: seq<byte>, failed: bool)

  function Concat(messages: seq<seq<byte>>): seq<byte> {
    if messages == [] then [] else Concat(messages[..|messages| - 1]) + messages[|messages| - 1]
  }

  class TcpConnection {
    var state: ConnState
    var reading: bool         // the read bit in the event mask of the channel
    var writing: bool         // the write bit
    var registered: bool      // the channel is in the poller's map; changing the event mask puts it there
    const readBuffer: MsgBuffer
    const writeBuffer: MsgBuffer

    ghost var sent: seq<byte>       // history: the concatenation of all messages given to SendInLoop
    ghost var wire: seq<byte>       // history: the bytes the kernel has accepted
    ghost var failed: bool          // history: some write failed
    ghost var closes: seq<HalfClose>

    ghost function Storage(): set<object>
      reads this, readBuffer, writeBuffer
    {
      {this, readBuffer, readBuffer.buffer, writeBuffer, writeBuffer.buffer}
    }

    predicate Shape()
      reads this, readBuffer, writeBuffer
    {
      && readBuffer.Valid() && writeBuffer.Valid()
      && readBuffer != writeBuffer && readBuffer.buffer != writeBuffer.buffer
    }

    // Nothing sent is lost, repeated or reordered.
    ghost predicate Conserved()
      requires Shape()
      reads this, readBuffer, writeBuffer, writeBuffer.buffer
    {
      wire + writeBuffer.Contents() == sent
    }

    ghost predicate Valid()
      reads this, readBuffer, writeBuffer, writeBuffer.buffer
    {
      && Shape()
      && (if failed then |wire| + |writeBuffer.Contents()| < |sent| else Conserved())
      && (reading <==> state != Disconnected)
      && (reading || writing ==> registered)
      && (state != Disconnected && writeBuffer.Contents() != [] ==> writing)
      && (state == Disconnecting ==> writing || closes != [])
      && (forall i :: 0 <= i < |closes| ==> closes[i].failed || closes[i].wire == closes[i].sent)
    }

    constructor ()
      ensures Valid() && fresh(Storage())
      ensures state == Connecting && reading && !writing && registered
      ensures sent == [] && wire == [] && !failed && closes == []
      ensures readBuffer.Contents() == [] && writeBuffer.Contents() == []
    {
      state, reading, writing, registered := Connecting, true, false, true;
      readBuffer := new MsgBuffer();
      writeBuffer := new MsgBuffer();
      sent, wire, failed, closes := [], [], false, [];
    }

    // Only called when everything sent so far has left the buffer.
    method CloseWrite()
      requires Shape() && writeBuffer.Contents() == []
      modifies this`closes
      ensures closes == old(closes) + [HalfClose(sent, wire, failed)]
    {
      closes := closes + [HalfClose(sent, wire, failed)];
    }

    method ConnectionEstablished()
      requires Valid() && state == Connecting
      modifies this`state, this`reading
      ensures Valid() && state == Connected && reading
    {
      reading := true;
      state := Connected;
    }

    method SendInLoop(msg: seq<byte>)
      requires Valid()
      modifies this`sent, this`writing, this`registered, writeBuffer, writeBuffer.buffer
      ensures Valid() && (writeBuffer.buffer == old(writeBuffer.buffer) || fresh(writeBuffer.buffer))
      ensures sent == old(sent) + msg && writing && registered
      ensures writeBuffer.Contents() == old(writeBuffer.Contents()) + msg
    {
      writeBuffer.AppendString(msg);
      sent := sent + msg;
      if !writing {
        writing, registered := true, true;
      }
    }

    // One write(2) of everything readable. A failure discards the whole buffer.
    method WritePending(r: WriteResult)
      requires Valid() && writeBuffer.Contents() != []
      requires r.Wrote? ==> r.n <= |writeBuffer.Contents()|
      modifies this`wire, this`failed, writeBuffer
      ensures Valid() && writeBuffer.buffer == old(writeBuffer.buffer)
      ensures r.Wrote? ==> wire == old(wire) + old(writeBuffer.Contents())[..r.n]
      ensures r.Wrote? ==> writeBuffer.Contents() == old(writeBuffer.Contents())[r.n..]
      ensures r.WriteFailed? ==> wire == old(wire) && writeBuffer.Contents() == []
      ensures failed == (old(failed) || r.WriteFailed?)
    {
      ghost var pending := writeBuffer.Contents();
      match r {
        case Wrote(n) =>
          ghost var was, taken, left := wire, pending[..n], pending[n..];
          assert pending == taken + left;
          writeBuffer.Retrieve(n);
          assert writeBuffer.Contents() == left;
          wire := was + taken;
          assert wire + left == was + pending;
        case WriteFailed =>
          // -1 as a size_t is no less than the size of any buffer, so Retrieve takes it as "all".
          writeBuffer.Retrieve(writeBuffer.ReadableBytes());
          failed := true;
      }
    }

    // Writes what the kernel takes, or, when nothing is left, stops asking for the write event and
    // completes a pending half-close.
    method WriteCallback(r: WriteResult)
      requires Valid() && (r.Wrote? ==> r.n <= |writeBuffer.Contents()|)
      modifies this`wire, this`failed, this`writing, this`closes, writeBuffer
      ensures Valid() && writeBuffer.buffer == old(writeBuffer.buffer)
      ensures writing == (old(writing) && old(writeBuffer.Contents()) != [])
      ensures closes == if old(writing) && old(writeBuffer.Contents()) == [] && state == Disconnecting
                then old(closes) + [HalfClose(sent, old(wire), old(failed))] else old(closes)
      ensures if old(writing) && old(writeBuffer.Contents()) != [] then
          && wire == old(wire) + (if r.Wrote? then old(writeBuffer.Contents())[..r.n] else [])
          && writeBuffer.Contents() == (if r.Wrote? then old(writeBuffer.Contents())[r.n..] else [])
          && failed == (old(failed) || r.WriteFailed?)
        else
          wire == old(wire) && writeBuffer.Contents() == old(writeBuffer.Contents()) && failed == old(failed)
    {
      if writing {
        if writeBuffer.ReadableBytes() <= 0 {
          writing := false;
          if state == Disconnecting {
            CloseWrite();
          }
        } else {
          WritePending(r);
        }
      }
    }

    method Shutdown()
      requires Valid()
      modifies this`state, this`closes
      ensures Valid()
      ensures state == if old(state) == Connected then Disconnecting else old(state)
      ensures closes == if old(state) == Connected && !writing
                then old(closes) + [HalfClose(sent, wire, failed)] else old(closes)
    {
      if state == Connected {
        state := Disconnecting;
        if !writing {
          CloseWrite();
        }
      }
    }

    method HandleClose()
      requires Valid()
      modifies this`state, this`reading, this`writing, this`registered
      ensures Valid() && state == Disconnected && !reading && !writing && registered
    {
      state := Disconnected;
      reading, writing, registered := false, false, true;
    }

    // delivered: the receive callback is called. A failed read calls it too, because the count -1 has
    // become a large size_t; no byte is added then.
    method ReadCallback(r: ReadvResult) returns (delivered: bool)
      requires Valid() && readBuffer.LegalReadv(r)
      modifies this`state, this`reading, this`writing, this`registered, readBuffer, readBuffer.buffer
      ensures Valid() && (readBuffer.buffer == old(readBuffer.buffer) || fresh(readBuffer.buffer))
      ensures readBuffer.Contents() == old(readBuffer.Contents()) + if r.Got? then r.data else []
      ensures delivered <==> r.Failed? || r.data != []
      ensures state == if delivered then old(state) else Disconnected
      ensures writing == (delivered && old(writing)) && reading == (delivered && old(reading))
      ensures registered == (old(registered) || !delivered)
    {
      var n, _ := readBuffer.ReadFd(r);
      if n == 0 {
        HandleClose();
      }
      delivered := n > 0;
    }

    // What the connection callback sends while the connection is being destroyed.
    method SendAll(messages: seq<seq<byte>>)
      requires Valid()
      modifies this`sent, this`writing, this`registered, writeBuffer, writeBuffer.buffer
      ensures Valid() && (writeBuffer.buffer == old(writeBuffer.buffer) || fresh(writeBuffer.buffer))
      ensures writing == (old(writing) || messages != []) && registered == (old(registered) || writing)
      ensures sent == old(sent) + Concat(messages)
      ensures writeBuffer.Contents() == old(writeBuffer.Contents()) + Concat(messages)
      decreases |messages|
    {
      if messages != [] {
        var n := |messages| - 1;
        SendAll(messages[..n]);
        SendInLoop(messages[n]);
      }
    }

    // removed: the assertions in Channel::Remove, EventLoop::RemoveChannel and Poller::RemoveChannel hold,
    // that is, no event is enabled any more, the channel is not waiting for its turn, and it has not been
    // removed before. Otherwise the program aborts. messages: what the connection callback sends. listed:
    // the loop is handling the event of another channel, and this one is among the active channels.
    method ConnectionDestroy(messages: seq<seq<byte>>, listed: bool) returns (removed: bool)
      requires Valid()
      modifies this`state, this`reading, this`writing, this`registered, this`sent, writeBuffer, writeBuffer.buffer
      ensures Valid() && (writeBuffer.buffer == old(writeBuffer.buffer) || fresh(writeBuffer.buffer))
      ensures removed <==> !listed && old(CanBeRemoved(messages))
      ensures registered == (!removed && old(registered || state == Connected))
      ensures writing == if old(state) == Connected then messages != [] else old(writing)
      ensures state == if old(state) == Connected then Disconnected else old(state)
      ensures sent == old(sent) + if old(state) == Connected then Concat(messages) else []
      ensures writeBuffer.Contents() == old(writeBuffer.Contents()) + if old(state) == Connected then Concat(messages) else []
    {
      if state == Connected {
        state := Disconnected;
        reading, writing := false, false;
        SendAll(messages);
      }
      removed := !reading && !writing && !listed && registered;
      if removed {
        registered := false;
      }
    }

    // When destruction meets the assertions about the connection itself. It never does while the connection
    // is being set up or waits for its half-close, because reading is on then.
    predicate CanBeRemoved(messages: seq<seq<byte>>)
      reads this
    {
      || (state == Connected && messages == [])
      || (state == Disconnected && !writing && registered)
    }
  }

  /* ---------- Whole runs ---------- */

  datatype Step =
    | Establish
    | Send(msg: seq<byte>)
    | Writable(write: WriteResult)
    | Readable(read: ReadvResult)
    | DoShutdown
    | Close
    | Destroy(messages: seq<seq<byte>>, listed: bool)

  // A step the loop and the kernel can take in the present state.
  predicate Possible(c: TcpConnection, step: Step)
    requires c.Shape()
    reads c, c.readBuffer, c.writeBuffer
  {
    match step
    case Establish => c.state == Connecting
    case Writable(write) => write.Wrote? ==> write.n <= c.writeBuffer.ReadableBytes()
    case Readable(read) => c.readBuffer.LegalReadv(read)
    case _ => true
  }

  // A connection as a value: what the steps alone make of it. aborted: an assertion has failed.
  datatype Conn = Conn(
    state: ConnState, writing: bool, registered: bool, received: seq<byte>, pending: seq<byte>,
    sent: seq<byte>, wire: seq<byte>, failed: bool, closes: seq<HalfClose>, aborted: bool)

  ghost function View(c: TcpConnection, aborted: bool): Conn
    requires c.Shape()
    reads c, c.readBuffer, c.readBuffer.buffer, c.writeBuffer, c.writeBuffer.buffer
  {
    Conn(c.state, c.writing, c.registered, c.readBuffer.Contents(), c.writeBuffer.Contents(),
         c.sent, c.wire, c.failed, c.closes, aborted)
  }

  const Fresh := Conn(Connecting, false, true, [], [], [], [], false, [], false)

  function HalfClosed(c: Conn): Conn {
    c.(closes := c.closes + [HalfClose(c.sent, c.wire, c.failed)])
  }

  function Closed(c: Conn): Conn {
    c.(state := Disconnected, writing := false, registered := true)
  }

  function Written(c: Conn, r: WriteResult): Conn {
    if !c.writing then c
    else if c.pending == [] then
      var c1 := c.(writing := false);
      if c.state == Disconnecting then HalfClosed(c1) else c1
    else
      match r
      case WriteFailed => c.(pending := [], failed := true)
      case Wrote(n) =>
        var k := if n <= |c.pending| then n else |c.pending|;
        c.(pending := c.pending[k..], wire := c.wire + c.pending[..k])
  }

  function Destroyed(c: Conn, messages: seq<seq<byte>>, listed: bool): Conn {
    var c1 :=
      if c.state != Connected then c
      else
        Closed(c).(sent := c.sent + Concat(messages), pending := c.pending + Concat(messages), writing := messages != []);
    if c1.state == Disconnected && !c1.writing && c1.registered && !listed then c1.(registered := false) else c1.(aborted := true)
  }

  function Next(c: Conn, step: Step): Conn {
    match step
    case Establish => c.(state := Connected)
    case Send(msg) => c.(sent := c.sent + msg, pending := c.pending + msg, writing := true, registered := true)
    case Writable(write) => Written(c, write)
    case Readable(read) =>
      if read.Failed? then c
      else if read.data == [] then Closed(c)
      else c.(received := c.received + read.data)
    case DoShutdown =>
      if c.state != Connected then c
      else if c.writing then c.(state := Disconnecting)
      else HalfClosed(c.(state := Disconnecting))
    case Close => Closed(c)
    case Destroy(messages, listed) => Destroyed(c, messages, listed)
  }

  function After(steps: seq<Step>): Conn {
    if steps == [] then Fresh else Next(After(steps[..|steps| - 1]), steps[|steps| - 1])
  }

  // What a step gives to SendInLoop, in the given state of the connection.
  function SentBy(state: ConnState, step: Step): seq<byte> {
    match step
    case Send(msg) => msg
    case Destroy(messages, _) => if state == Connected then Concat(messages) else []
    case _ => []
  }

  function AllSent(steps: seq<Step>): seq<byte> {
    if steps == [] then []
    else
      var before := steps[..|steps| - 1];
      AllSent(before) + SentBy(After(before).state, steps[|steps| - 1])
  }

  predicate SomeWriteFailed(steps: seq<Step>) {
    steps != [] && (SomeWriteFailed(steps[..|steps| - 1]) || steps[|steps| - 1] == Writable(WriteFailed))
  }

  // No destruction comes while the channel waits for its turn, and every one finds a connection that is
  // connected and whose callback sends nothing, or one that is disconnected, asks for no events, and is not
  // destroyed already.
  predicate DestroyedInTime(steps: seq<Step>) {
    steps != [] ==>
      var before, last := steps[..|steps| - 1], steps[|steps| - 1];
      DestroyedInTime(before) && (last.Destroy? ==> MayBeDestroyed(After(before), last.messages, last.listed))
  }

  predicate MayBeDestroyed(c: Conn, messages: seq<seq<byte>>, listed: bool) {
    && !listed
    && ((c.state == Connected && messages == []) || (c.state == Disconnected && !c.writing && c.registered))
  }

  lemma DestroyedMeans(c: Conn, messages: seq<seq<byte>>, listed: bool)
    ensures var n := Destroyed(c, messages, listed);
            && n.sent == c.sent + (if c.state == Connected then Concat(messages) else [])
            && n.failed == c.failed
            && (n.aborted <==> c.aborted || !MayBeDestroyed(c, messages, listed))
  {
  }

  lemma NextMeans(c: Conn, step: Step)
    ensures var n := Next(c, step);
            && n.sent == c.sent + SentBy(c.state, step)
            && (n.failed ==> c.failed || step == Writable(WriteFailed))
            && (n.aborted <==> c.aborted || (step.Destroy? && !MayBeDestroyed(c, step.messages, step.listed)))
  {
    if step.Destroy? {
      DestroyedMeans(c, step.messages, step.listed);
    }
  }

  // What the steps alone say about sending, failing and destroying.
  lemma {:induction false} RunMeans(steps: seq<Step>)
    ensures After(steps).sent == AllSent(steps)
    ensures After(steps).failed ==> SomeWriteFailed(steps)
    ensures !After(steps).aborted <==> DestroyedInTime(steps)
  {
    if steps != [] {
      RunMeans(steps[..|steps| - 1]);
      NextMeans(After(steps[..|steps| - 1]), steps[|steps| - 1]);
    }
  }

  // A connection that is destroyed right after it was closed meets all assertions, unless it waits for its
  // turn. Closing may be the end of file, or asked for.
  lemma ClosedCanBeDestroyed(steps: seq<Step>, close: Step, messages: seq<seq<byte>>, listed: bool)
    requires close == Close || close == Readable(Got([]))
    ensures After(steps + [close] + [Destroy(messages, listed)]).aborted <==> After(steps).aborted || listed
    ensures !After(steps + [close] + [Destroy(messages, listed)]).registered <==> !listed
  {
    assert (steps + [close])[..|steps|] == steps;
    var all := steps + [close] + [Destroy(messages, listed)];
    assert all[..|all| - 1] == steps + [close];
    assert After(steps + [close]) == Closed(After(steps));
    DestroyedMeans(Closed(After(steps)), messages, listed);
  }

  // For example, a connection that is established and closed.
  lemma SomeRunDestroys()
    ensures var steps := [Establish] + [Close] + [Destroy([], false)];
            DestroyedInTime(steps) && !After(steps).aborted && !After(steps).registered
  {
    ClosedCanBeDestroyed([Establish], Close, [], false);
    assert [Establish][..0] == [];
    RunMeans([Establish] + [Close] + [Destroy([], false)]);
  }

  // A message sent to a closed connection enables writing, and so makes its destruction fail.
  lemma SentAfterClosePreventsDestruction(steps: seq<Step>, msg: seq<byte>, messages: seq<seq<byte>>, listed: bool)
    requires After(steps).state == Disconnected
    ensures After(steps + [Send(msg)] + [Destroy(messages, listed)]).aborted
  {
    assert (steps + [Send(msg)])[..|steps|] == steps;
    var all := steps + [Send(msg)] + [Destroy(messages, listed)];
    assert all[..|all| - 1] == steps + [Send(msg)];
    DestroyedMeans(After(steps + [Send(msg)]), messages, listed);
  }

  /* ---------- When a connection half-closes more than once ---------- */

  // The assertion in ConnectionEstablished.
  predicate EstablishedInTime(steps: seq<Step>) {
    steps != [] ==>
      var before, last := steps[..|steps| - 1], steps[|steps| - 1];
      EstablishedInTime(before) && (last.Establish? ==> After(before).state == Connecting)
  }

  // SendInLoop does not look at the state: a message is accepted although the half-close is done.
  predicate SendsClosed(c: Conn, step: Step) {
    step.Send? && c.state == Disconnecting && c.closes != []
  }

  // The write event finds everything written, and the half-close is done for it once more.
  predicate ClosesClosed(c: Conn, step: Step) {
    step.Writable? && c.state == Disconnecting && c.closes != [] && c.writing && c.pending == []
  }

  // At some moment a message is sent behind a half-close.
  predicate SentBehindClose(steps: seq<Step>) {
    steps != [] &&
    var before, last := steps[..|steps| - 1], steps[|steps| - 1];
    SentBehindClose(before) || SendsClosed(After(before), last)
  }

  // A message is sent behind a half-close, and later on the write event finds everything written.
  predicate ClosedAgain(steps: seq<Step>) {
    steps != [] &&
    var before, last := steps[..|steps| - 1], steps[|steps| - 1];
    ClosedAgain(before) || (SentBehindClose(before) && ClosesClosed(After(before), last))
  }

  // What a step does to the number of half-closes.
  lemma ClosesNext(c: Conn, step: Step)
    ensures var n := Next(c, step);
            |n.closes| == |c.closes| +
              if (step.DoShutdown? && c.state == Connected && !c.writing)
                 || (step.Writable? && c.state == Disconnecting && c.writing && c.pending == [])
              then 1 else 0
  {
  }

  // After a half-close the write event is asked for again only by a message that comes behind it.
  lemma {:induction false} WritingBehindClose(steps: seq<Step>)
    requires EstablishedInTime(steps)
    ensures var c := After(steps);
            && (c.state == Connecting || c.state == Connected ==> c.closes == [])
            && (c.state == Disconnecting && c.closes != [] && c.writing ==> SentBehindClose(steps))
  {
    if steps != [] {
      WritingBehindClose(steps[..|steps| - 1]);
      StepBehindClose(After(steps[..|steps| - 1]), steps[|steps| - 1]);
    }
  }

  lemma StepBehindClose(c: Conn, step: Step)
    requires c.state == Connecting || c.state == Connected ==> c.closes == []
    requires step.Establish? ==> c.state == Connecting
    ensures var n := Next(c, step);
            && (n.state == Connecting || n.state == Connected ==> n.closes == [])
            && (n.state == Disconnecting && n.closes != [] && n.writing ==>
                  SendsClosed(c, step) || (c.state == Disconnecting && c.closes != [] && c.writing))
  {
  }

  // A connection half-closes more than once if and only if a message is sent behind a half-close and the
  // write event finds it written before the connection is closed.
  lemma {:induction false} TwoClosesIff(steps: seq<Step>)
    requires EstablishedInTime(steps)
    ensures |After(steps).closes| >= 2 <==> ClosedAgain(steps)
  {
    if steps != [] {
      var before := steps[..|steps| - 1];
      TwoClosesIff(before);
      WritingBehindClose(before);
      ClosesNext(After(before), steps[|steps| - 1]);
    }
  }

  // Such a run, with an empty message.
  lemma SomeRunClosesTwice()
    ensures var steps := [Establish, DoShutdown, Send([]), Writable(Wrote(0))];
            EstablishedInTime(steps) && |After(steps).closes| == 2
  {
    var steps := [Establish, DoShutdown, Send([]), Writable(Wrote(0))];
    StepsOneByOne(steps);
    var c1 := Next(Fresh, Establish);
    var c2 := Next(c1, DoShutdown);
    assert c2.state == Disconnecting && |c2.closes| == 1 && c2.pending == [];
    var c3 := Next(c2, Send([]));
    assert c3.writing && c3.pending == [];
  }

  lemma StepsOneByOne(steps: seq<Step>)
    requires |steps| == 4 && !steps[1].Establish? && !steps[2].Establish? && !steps[3].Establish?
    ensures EstablishedInTime(steps)
    ensures After(steps) == Next(Next(Next(Next(Fresh, steps[0]), steps[1]), steps[2]), steps[3])
  {
    assert steps[..0] == [] && steps[..4] == steps;
    OneMoreStep(steps, 0);
    OneMoreStep(steps, 1);
    OneMoreStep(steps, 2);
    OneMoreStep(steps, 3);
  }

  method TakeWritable(c: TcpConnection, r: WriteResult)
    requires c.Valid() && Possible(c, Writable(r))
    modifies c, c.writeBuffer
    ensures c.Valid() && c.readBuffer.buffer == old(c.readBuffer.buffer) && c.writeBuffer.buffer == old(c.writeBuffer.buffer)
    ensures View(c, false) == Written(old(View(c, false)), r)
  {
    c.WriteCallback(r);
  }

  method TakeReadable(c: TcpConnection, r: ReadvResult)
    requires c.Valid() && Possible(c, Readable(r))
    modifies c, c.readBuffer, c.readBuffer.buffer
    ensures c.Valid() && c.writeBuffer.buffer == old(c.writeBuffer.buffer)
    ensures c.readBuffer.buffer == old(c.readBuffer.buffer) || fresh(c.readBuffer.buffer)
    ensures View(c, false) == Next(old(View(c, false)), Readable(r))
  {
    var _ := c.ReadCallback(r);
  }

  method TakeDestroy(c: TcpConnection, messages: seq<seq<byte>>, listed: bool) returns (aborted: bool)
    requires c.Valid()
    modifies c, c.writeBuffer, c.writeBuffer.buffer
    ensures c.Valid() && c.readBuffer.buffer == old(c.readBuffer.buffer)
    ensures c.writeBuffer.buffer == old(c.writeBuffer.buffer) || fresh(c.writeBuffer.buffer)
    ensures View(c, aborted) == Destroyed(old(View(c, false)), messages, listed)
  {
    var removed := c.ConnectionDestroy(messages, listed);
    aborted := !removed;
  }

  // The steps that neither the kernel nor the end of the connection is part of.
  method TakeOwn(c: TcpConnection, step: Step)
    requires c.Valid() && Possible(c, step)
    requires step.Establish? || step.Send? || step.DoShutdown? || step.Close?
    modifies c, c.writeBuffer, c.writeBuffer.buffer
    ensures c.Valid() && c.readBuffer.buffer == old(c.readBuffer.buffer)
    ensures c.writeBuffer.buffer == old(c.writeBuffer.buffer) || fresh(c.writeBuffer.buffer)
    ensures View(c, false) == Next(old(View(c, false)), step)
  {
    match step {
      case Establish => c.ConnectionEstablished();
      case Send(msg) => c.SendInLoop(msg);
      case DoShutdown => c.Shutdown();
      case Close => c.HandleClose();
    }
  }

  // Every step does to the connection what it does to the value.
  method Take(c: TcpConnection, step: Step) returns (aborted: bool)
    requires c.Valid() && Possible(c, step)
    modifies c, c.readBuffer, c.readBuffer.buffer, c.writeBuffer, c.writeBuffer.buffer
    ensures c.Valid() && fresh(c.Storage() - old(c.Storage()))
    ensures View(c, aborted) == Next(old(View(c, false)), step)
  {
    aborted := false;
    match step {
      case Writable(r) => TakeWritable(c, r);
      case Readable(r) => TakeReadable(c, r);
      case Destroy(messages, listed) => aborted := TakeDestroy(c, messages, listed);
      case _ => TakeOwn(c, step);
    }
  }

  lemma OneMoreStep(steps: seq<Step>, i: nat)
    requires i < |steps|
    ensures After(steps[..i + 1]) == Next(After(steps[..i]), steps[i])
    ensures EstablishedInTime(steps[..i + 1]) <==>
              EstablishedInTime(steps[..i]) && (steps[i].Establish? ==> After(steps[..i]).state == Connecting)
  {
    assert steps[..i + 1][..i] == steps[..i];
  }

  method RunSteps(steps: seq<Step>) returns (c: TcpConnection, done: nat, aborted: bool)
    ensures fresh(c.Storage()) && c.Valid() && done <= |steps|
    ensures View(c, aborted) == After(steps[..done])
    ensures done < |steps| && !aborted ==> !Possible(c, steps[done])
    ensures EstablishedInTime(steps[..done])
  {
    c := new TcpConnection();
    done, aborted := 0, false;
    while done < |steps| && !aborted && Possible(c, steps[done])
      invariant fresh(c) && fresh(c.Storage()) && c.Valid() && done <= |steps|
      invariant View(c, aborted) == After(steps[..done])
      invariant EstablishedInTime(steps[..done])
    {
      OneMoreStep(steps, done);
      aborted := Take(c, steps[done]);
      done := done + 1;
    }
  }

  // Over every run, up to the first step that is not possible, or to a destruction that fails its
  // assertions: the connection is what its steps make of it. If no write failed, what is on the wire and
  // what is in the buffer make up exactly what was sent; every half-close found everything sent before it
  // on the wire; a connection that asked for a half-close has had it or still waits for the write event;
  // no destruction went through on a connection that was being set up, waited for its half-close, sent
  // something in its callback, or waited for its turn; and a second half-close comes exactly after a message
  // sent behind the first one.
  method TakeAll(steps: seq<Step>) returns (c: TcpConnection, done: nat, aborted: bool)
    ensures fresh(c.Storage()) && c.Valid() && done <= |steps|
    ensures View(c, aborted) == After(steps[..done])
    ensures done < |steps| && !aborted ==> !Possible(c, steps[done])
    ensures c.sent == AllSent(steps[..done])
    ensures c.Conserved() <==> !c.failed
    ensures c.failed ==> SomeWriteFailed(steps[..done])
    ensures forall i :: 0 <= i < |c.closes| && !c.closes[i].failed ==> c.closes[i].wire == c.closes[i].sent
    ensures c.state == Disconnecting && c.closes == [] ==> c.writing
    ensures !aborted <==> DestroyedInTime(steps[..done])
    ensures |c.closes| >= 2 <==> ClosedAgain(steps[..done])
  {
    c, done, aborted := RunSteps(steps);
    RunMeans(steps[..done]);
    TwoClosesIff(steps[..done]);
  }
}
