/**
 The asynchronous file logger (water/base/async_file_logger.cc). Any number of threads call Output and
 Flush; one thread writes buffers to the file. Every action is one step: a critical section of `mut_`,
 or one statement that the log thread executes without the lock. Buffers are shared pointers, so the
 state keeps them in a heap and refers to them by identity.
 */
module AsyncFileLogger {
  import opened Wrappers
  import opened Numerals

  type Id = nat

  const MEM_BUFFER_SIZE: nat := 4 * 1024 * 1024
  const QUEUE_LIMIT := 25

  // What is appended to a log buffer: a message, or the note that stands for messages lost before it.
  // History: number is the place of the record among all accepted ones, so no two records are equal.
  datatype Record = Message(number: nat, text: string) | LostNote(number: nat, count: nat)

  function Text(r: Record): string {
    match r
    case Message(_, text) => text
    case LostNote(_, count) => Numeral(count, Ten) + " log information is lost\n"
  }

  // What became of a message given to Output.
  datatype Fate = Accepted | Counted | Ignored

  datatype Offer = Offer(text: string, fate: Fate)

  datatype Buffer = Buffer(records: seq<Record>, capacity: nat)

  function Size(rs: seq<Record>): nat {
    if rs == [] then 0 else Size(rs[..|rs| - 1]) + |Text(rs[|rs| - 1])|
  }

  // Where the log thread stands; held is tmp_ptr.
  datatype Pc =
    | Top                     // about to take the lock
    | Waiting                 // in wait_for, the lock released
    | Draining                // about to test write_buffers_.empty()
    | Popped(held: Id)
    | Written(held: Id)
    | Cleared(held: Id)

  datatype State = State(
    heap: map<Id, Buffer>,
    next: Id,                   // identities from here on are unused
    log: Id,                    // log_buffer_ptr_
    spare: seq<Id>,             // next_buffer_ptr_: at most one buffer
    writeQueue: seq<Id>,        // write_buffers_
    tmpQueue: seq<Id>,          // tmp_buffers_
    lost: nat,                  // lost_counter_
    pc: Pc,
    file: seq<Record>,          // what has been written to the file
    accepted: seq<Record>,      // history: everything appended to a log buffer, in order
    dropped: nat,               // history: the number of messages refused because the queue was full
    left: nat,                  // history: how much of write_buffers_ was there when the queues were swapped
    overtook: bool,             // history: some pop overtook what tmp_buffers_ holds
    offers: seq<Offer>          // history: all messages given to Output
  )

  datatype Action =
    | Output(text: string, slack: nat) // slack: how far a string grows beyond need when it must grow
    | Flush
    | Lock
    | Wake
    | TimeOut
    | TestEmpty
    | WriteFile
    | Clear
    | Recycle

  const Init := State(map[0 := Buffer([], MEM_BUFFER_SIZE), 1 := Buffer([], MEM_BUFFER_SIZE)], 2,
                      0, [1], [], [], 0, Top, [], [], 0, 0, false, [])

  predicate Enabled(s: State, a: Action) {
    match a
    case Output(_, _) => true
    case Flush => true
    case Lock => s.pc.Top?
    case Wake => s.pc.Waiting?
    case TimeOut => s.pc.Waiting?
    case TestEmpty => s.pc.Draining?
    case WriteFile => s.pc.Popped?
    case Clear => s.pc.Written?
    case Recycle => s.pc.Cleared?
  }

  // The buffer behind a pointer. Pointers in use always have one (see Ownership).
  function Get(heap: map<Id, Buffer>, id: Id): Buffer {
    if id in heap then heap[id] else Buffer([], 0)
  }

  function LogRecords(s: State): seq<Record> {
    Get(s.heap, s.log).records
  }

  function AppendRecord(b: Buffer, r: Record, slack: nat): Buffer {
    var need := Size(b.records) + |Text(r)|;
    Buffer(b.records + [r], if need <= b.capacity then b.capacity else need + slack)
  }

  function AppendToLog(s: State, r: Record, slack: nat): State {
    s.(heap := s.heap[s.log := AppendRecord(Get(s.heap, s.log), r, slack)], accepted := s.accepted + [r])
  }

  // The log buffer goes to the queue; the spare, or a new buffer, takes its place.
  function Rotate(s: State): State {
    var queue := s.writeQueue + [s.log];
    if s.spare != [] then s.(writeQueue := queue, log := s.spare[0], spare := [])
    else s.(writeQueue := queue, log := s.next, next := s.next + 1,
            heap := s.heap[s.next := Buffer([], MEM_BUFFER_SIZE)])
  }

  function ClearBuffer(s: State, id: Id): State {
    s.(heap := s.heap[id := Get(s.heap, id).(records := [])])
  }

  // SwapBuffer also clears a recycled buffer.
  function SwapBuffer(s: State): State {
    if s.spare != [] then ClearBuffer(Rotate(s), s.spare[0]) else Rotate(s)
  }

  function FlushLog(s: State): State {
    if Size(LogRecords(s)) > 0 then SwapBuffer(s) else s
  }

  function MakeRoom(s: State, len: nat): State {
    var b := Get(s.heap, s.log);
    if b.capacity - Size(b.records) < len then Rotate(s) else s
  }

  function ReportLosses(s: State, slack: nat): State {
    if s.lost > 0 then AppendToLog(s, LostNote(|s.accepted|, s.lost), slack).(lost := 0) else s
  }

  function CountLoss(s: State): State {
    s.(lost := s.lost + 1, dropped := s.dropped + 1)
  }

  function Accept(s: State, text: string, slack: nat): State {
    var s' := ReportLosses(s, slack);
    AppendToLog(s', Message(|s'.accepted|, text), slack)
  }

  // Output, behind the part that makes room.
  function AcceptOrCount(s: State, text: string, slack: nat): State {
    if |s.writeQueue| > QUEUE_LIMIT then CountLoss(s) else Accept(s, text, slack)
  }

  function DoOutput(s: State, text: string, slack: nat): State {
    if |text| > MEM_BUFFER_SIZE then s else AcceptOrCount(MakeRoom(s, |text|), text, slack)
  }

  // Which branch of Output a message takes.
  function FateOf(s: State, text: string): Fate {
    if |text| > MEM_BUFFER_SIZE then Ignored
    else if |MakeRoom(s, |text|).writeQueue| > QUEUE_LIMIT then Counted
    else Accepted
  }

  function SwapQueues(s: State): State {
    s.(writeQueue := s.tmpQueue, tmpQueue := s.writeQueue, pc := Draining, left := |s.tmpQueue|)
  }

  // The front buffer was queued after the swap, while older ones wait in tmp_buffers_.
  predicate Overtakes(s: State) {
    s.left == 0 && s.tmpQueue != []
  }

  function Apply(s: State, a: Action): State
    requires Enabled(s, a)
  {
    match a
    case Output(text, slack) => DoOutput(s, text, slack).(offers := s.offers + [Offer(text, FateOf(s, text))])
    case Flush => FlushLog(s)
    // Waits while nothing is queued; a notification or a spurious wake-up tests again.
    case Lock => if s.writeQueue == [] then s.(pc := Waiting) else SwapQueues(s)
    case Wake => if s.writeQueue == [] then s else SwapQueues(s)
    case TimeOut => SwapQueues(FlushLog(s))
    case TestEmpty =>
      if s.writeQueue == [] then s.(pc := Top)
      else s.(pc := Popped(s.writeQueue[0]), writeQueue := s.writeQueue[1..],
              left := if s.left > 0 then s.left - 1 else 0, overtook := s.overtook || Overtakes(s))
    case WriteFile => s.(file := s.file + Get(s.heap, s.pc.held).records, pc := Written(s.pc.held))
    case Clear => ClearBuffer(s, s.pc.held).(pc := Cleared(s.pc.held))
    case Recycle => s.(spare := [s.pc.held], pc := Draining)
  }

  predicate CanRun(s: State, acts: seq<Action>)
    decreases acts
  {
    acts == [] || (Enabled(s, acts[0]) && CanRun(Apply(s, acts[0]), acts[1..]))
  }

  function Run(s: State, acts: seq<Action>): State
    requires CanRun(s, acts)
    decreases acts
  {
    if acts == [] then s else Run(Apply(s, acts[0]), acts[1..])
  }

  /* ---------- Ownership: no buffer is in two places, and a spare one is empty ---------- */

  predicate HasHeld(s: State) {
    s.pc.Popped? || s.pc.Written? || s.pc.Cleared?
  }

  // All places a pointer can be in.
  function Owned(s: State): multiset<Id> {
    multiset(s.writeQueue) + multiset(s.tmpQueue) + multiset{s.log} + multiset(s.spare)
    + if HasHeld(s) then multiset{s.pc.held} else multiset{}
  }

  // Each owned buffer is in one place only, is not an unused one, and has room for any message.
  ghost predicate Sole(owned: multiset<Id>, heap: map<Id, Buffer>, next: Id) {
    forall id :: id in owned ==> owned[id] == 1 && id < next && Get(heap, id).capacity >= MEM_BUFFER_SIZE
  }

  ghost predicate Ownership(s: State) {
    && |s.spare| <= 1
    && Sole(Owned(s), s.heap, s.next)
    && (s.spare != [] ==> Get(s.heap, s.spare[0]).records == [])
    && (s.pc.Cleared? ==> Get(s.heap, s.pc.held).records == [])
  }

  lemma RotateToSpare(s: State)
    requires |s.spare| == 1
    ensures Owned(Rotate(s)) == Owned(s)
  {
    assert s.spare == [s.spare[0]];
  }

  lemma RotateToNew(s: State)
    requires s.spare == []
    ensures Owned(Rotate(s)) == Owned(s) + multiset{s.next}
  {
  }

  lemma RotateKeepsOwnership(s: State)
    requires Ownership(s)
    ensures Ownership(Rotate(s))
    ensures LogRecords(Rotate(s)) == []
  {
    if s.spare == [] {
      RotateToNewKeepsOwnership(s);
    } else {
      RotateToSpare(s);
    }
  }

  lemma RotateToNewKeepsOwnership(s: State)
    requires Ownership(s) && s.spare == []
    ensures Ownership(Rotate(s))
  {
    RotateToNew(s);
    assert s.next !in Owned(s);
    assert HasHeld(s) ==> s.pc.held in Owned(s);
  }

  // Clearing the recycled buffer changes nothing, because it is empty already.
  lemma SwapBufferIsRotate(s: State)
    requires Ownership(s)
    ensures SwapBuffer(s) == Rotate(s)
  {
    if s.spare != [] {
      var id := s.spare[0];
      assert id in multiset(s.spare) && id in Owned(s);
      assert Get(s.heap, id).capacity >= MEM_BUFFER_SIZE;
      assert s.heap[id := Get(s.heap, id)] == s.heap;
    }
  }

  // What is owned once is not among the others.
  lemma OwnedOnce(owned: multiset<Id>, id: Id, others: multiset<Id>)
    requires owned[id] == 1 && owned == others + multiset{id}
    ensures id !in others
  {
    assert owned[id] == others[id] + 1;
  }

  function HeldPart(s: State): multiset<Id> {
    if HasHeld(s) then multiset{s.pc.held} else multiset{}
  }

  // The log buffer is neither the spare nor the one the log thread holds.
  lemma LogIsApart(s: State)
    requires Ownership(s)
    ensures s.log in Owned(s)
    ensures s.spare != [] ==> s.log != s.spare[0]
    ensures HasHeld(s) ==> s.log != s.pc.held
    ensures s.log !in s.writeQueue && s.log !in s.tmpQueue
  {
    var others := multiset(s.writeQueue) + multiset(s.tmpQueue) + multiset(s.spare) + HeldPart(s);
    assert Owned(s) == others + multiset{s.log};
    assert s.log in Owned(s);
    OwnedOnce(Owned(s), s.log, others);
    assert s.spare != [] ==> s.spare[0] in multiset(s.spare);
  }

  lemma HeldIsApart(s: State)
    requires Ownership(s) && HasHeld(s)
    ensures s.pc.held !in s.writeQueue && s.pc.held !in s.tmpQueue && s.pc.held < s.next
  {
    var others := multiset(s.writeQueue) + multiset(s.tmpQueue) + multiset{s.log} + multiset(s.spare);
    assert Owned(s) == others + multiset{s.pc.held};
    assert s.pc.held in Owned(s);
    OwnedOnce(Owned(s), s.pc.held, others);
  }

  lemma SpareIsApart(s: State)
    requires Ownership(s) && s.spare != []
    ensures s.spare[0] !in s.writeQueue && s.spare[0] !in s.tmpQueue
    ensures HasHeld(s) ==> s.spare[0] != s.pc.held
  {
    assert s.spare == [s.spare[0]];
    var others := multiset(s.writeQueue) + multiset(s.tmpQueue) + multiset{s.log} + HeldPart(s);
    assert Owned(s) == others + multiset{s.spare[0]};
    assert s.spare[0] in Owned(s);
    OwnedOnce(Owned(s), s.spare[0], others);
  }

  lemma NextIsApart(s: State)
    requires Ownership(s)
    ensures s.next !in s.writeQueue && s.next !in s.tmpQueue && s.next != s.log
  {
    assert s.next !in Owned(s);
    assert s.log in Owned(s);
  }

  lemma AppendKeepsOwnership(s: State, r: Record, slack: nat)
    requires Ownership(s)
    ensures Ownership(AppendToLog(s, r, slack))
  {
    LogIsApart(s);
    assert Owned(AppendToLog(s, r, slack)) == Owned(s);
  }

  // Counters and histories do not matter to ownership.
  lemma SameBuffersKeepOwnership(s: State, s': State)
    requires Ownership(s)
    requires s' == s.(lost := s'.lost, dropped := s'.dropped, accepted := s'.accepted, offers := s'.offers)
    ensures Ownership(s')
  {
    assert Owned(s') == Owned(s);
  }

  lemma ReportKeepsOwnership(s: State, slack: nat)
    requires Ownership(s)
    ensures Ownership(ReportLosses(s, slack))
  {
    if s.lost > 0 {
      var note := LostNote(|s.accepted|, s.lost);
      AppendKeepsOwnership(s, note, slack);
      SameBuffersKeepOwnership(AppendToLog(s, note, slack), ReportLosses(s, slack));
    }
  }

  lemma MakeRoomKeepsOwnership(s: State, len: nat)
    requires Ownership(s)
    ensures Ownership(MakeRoom(s, len))
  {
    RotateKeepsOwnership(s);
  }

  lemma OutputKeepsOwnership(s: State, text: string, slack: nat)
    requires Ownership(s)
    ensures Ownership(DoOutput(s, text, slack))
  {
    if |text| <= MEM_BUFFER_SIZE {
      var s1 := MakeRoom(s, |text|);
      MakeRoomKeepsOwnership(s, |text|);
      if |s1.writeQueue| > QUEUE_LIMIT {
        SameBuffersKeepOwnership(s1, DoOutput(s, text, slack));
      } else {
        ReportKeepsOwnership(s1, slack);
        var s2 := ReportLosses(s1, slack);
        AppendKeepsOwnership(s2, Message(|s2.accepted|, text), slack);
      }
    }
  }

  lemma SwapQueuesKeepsOwnership(s: State)
    requires Ownership(s) && !HasHeld(s)
    ensures Ownership(SwapQueues(s))
  {
    assert Owned(SwapQueues(s)) == Owned(s);
  }

  lemma FrontOfQueue(queue: seq<Id>)
    requires queue != []
    ensures multiset(queue) == multiset{queue[0]} + multiset(queue[1..])
  {
    assert queue == [queue[0]] + queue[1..];
  }

  lemma PopMovesFront(s: State)
    requires s.pc.Draining? && s.writeQueue != []
    ensures Owned(Apply(s, TestEmpty)) == Owned(s)
  {
    FrontOfQueue(s.writeQueue);
    var s' := Apply(s, TestEmpty);
    forall id: Id
      ensures Owned(s')[id] == Owned(s)[id]
    {
      assert multiset(s.writeQueue)[id] == multiset{s.writeQueue[0]}[id] + multiset(s'.writeQueue)[id];
    }
  }

  lemma TestEmptyKeepsOwnership(s: State)
    requires Ownership(s) && s.pc.Draining?
    ensures Ownership(Apply(s, TestEmpty))
  {
    if s.writeQueue != [] {
      PopMovesFront(s);
    } else {
      assert Owned(Apply(s, TestEmpty)) == Owned(s);
    }
  }

  // An old spare buffer is released when a new one takes its place.
  lemma RecycleKeepsOwnership(s: State)
    requires Ownership(s) && s.pc.Cleared?
    ensures Ownership(Apply(s, Recycle))
  {
    var s' := Apply(s, Recycle);
    forall id | id in Owned(s')
      ensures Owned(s')[id] <= Owned(s)[id]
    {
      assert multiset([s.pc.held])[id] == multiset{s.pc.held}[id];
    }
  }

  lemma ClearKeepsOwnership(s: State)
    requires Ownership(s) && s.pc.Written?
    ensures Ownership(Apply(s, Clear))
  {
    assert Owned(Apply(s, Clear)) == Owned(s);
    assert s.pc.held in Owned(s);
  }

  lemma WriteFileKeepsOwnership(s: State)
    requires Ownership(s) && s.pc.Popped?
    ensures Ownership(Apply(s, WriteFile))
  {
    assert Owned(Apply(s, WriteFile)) == Owned(s);
  }

  lemma FlushKeepsOwnership(s: State)
    requires Ownership(s)
    ensures Ownership(FlushLog(s)) && FlushLog(s).pc == s.pc
  {
    SwapBufferIsRotate(s);
    RotateKeepsOwnership(s);
  }

  lemma StepKeepsOwnership(s: State, a: Action)
    requires Ownership(s) && Enabled(s, a)
    ensures Ownership(Apply(s, a))
  {
    match a {
      case Output(text, slack) =>
        OutputKeepsOwnership(s, text, slack);
        SameBuffersKeepOwnership(DoOutput(s, text, slack), Apply(s, a));
      case Flush => FlushKeepsOwnership(s);
      case Lock =>
        if s.writeQueue == [] {
          assert Owned(s.(pc := Waiting)) == Owned(s);
        } else {
          SwapQueuesKeepsOwnership(s);
        }
      case Wake =>
        if s.writeQueue != [] {
          SwapQueuesKeepsOwnership(s);
        }
      case TimeOut =>
        FlushKeepsOwnership(s);
        SwapQueuesKeepsOwnership(FlushLog(s));
      case TestEmpty => TestEmptyKeepsOwnership(s);
      case WriteFile => WriteFileKeepsOwnership(s);
      case Clear => ClearKeepsOwnership(s);
      case Recycle => RecycleKeepsOwnership(s);
    }
  }

  /* ---------- Back-pressure ---------- */

  // The limits depend on the phase: only the log thread's wait is entered with few buffers queued.
  ghost predicate Bounded(s: State) {
    var limit := if s.pc.Top? || s.pc.Waiting? then QUEUE_LIMIT + 1 else QUEUE_LIMIT + 2;
    && |s.tmpQueue| <= QUEUE_LIMIT + 1
    && |s.writeQueue| <= limit
    && (|s.writeQueue| == limit ==> Size(LogRecords(s)) == 0)
  }

  // A buffer that is empty has room for any message, so it is not rotated away.
  lemma EmptyLogStays(s: State, len: nat)
    requires Ownership(s) && Size(LogRecords(s)) == 0 && len <= MEM_BUFFER_SIZE
    ensures MakeRoom(s, len) == s
  {
    LogIsApart(s);
  }

  lemma MakeRoomKeepsBounds(s: State, len: nat)
    requires Ownership(s) && Bounded(s) && len <= MEM_BUFFER_SIZE
    ensures Bounded(MakeRoom(s, len))
  {
    if Size(LogRecords(s)) == 0 {
      EmptyLogStays(s, len);
    } else {
      RotateKeepsOwnership(s);
    }
  }

  lemma ReportKeepsQueues(s: State, slack: nat)
    ensures var s' := ReportLosses(s, slack);
            s'.writeQueue == s.writeQueue && s'.tmpQueue == s.tmpQueue && s'.pc == s.pc
  {
  }

  lemma OutputKeepsBounds(s: State, text: string, slack: nat)
    requires Ownership(s) && Bounded(s)
    ensures Bounded(DoOutput(s, text, slack))
  {
    if |text| <= MEM_BUFFER_SIZE {
      MakeRoomKeepsBounds(s, |text|);
      var s1 := MakeRoom(s, |text|);
      if |s1.writeQueue| > QUEUE_LIMIT {
        assert LogRecords(DoOutput(s, text, slack)) == LogRecords(s1);
      } else {
        ReportKeepsQueues(s1, slack);
      }
    }
  }

  lemma FlushKeepsBounds(s: State)
    requires Ownership(s) && Bounded(s)
    ensures Bounded(FlushLog(s))
  {
    RotateKeepsOwnership(s);
    SwapBufferIsRotate(s);
  }

  lemma DrainKeepsBounds(s: State)
    requires Bounded(s) && (s.pc.Top? || s.pc.Waiting?)
    ensures Bounded(SwapQueues(s))
  {
  }

  lemma LogThreadKeepsBounds(s: State, a: Action)
    requires Bounded(s) && Enabled(s, a)
    requires a.TestEmpty? || a.WriteFile? || a.Recycle?
    ensures Bounded(Apply(s, a))
  {
  }

  lemma ClearKeepsBounds(s: State)
    requires Ownership(s) && Bounded(s) && s.pc.Written?
    ensures Bounded(Apply(s, Clear))
  {
    LogIsApart(s);
  }

  lemma OfferKeepsBounds(s: State, offers: seq<Offer>)
    requires Bounded(s)
    ensures Bounded(s.(offers := offers))
  {
  }

  lemma StepKeepsBounds(s: State, a: Action)
    requires Ownership(s) && Bounded(s) && Enabled(s, a)
    ensures Bounded(Apply(s, a))
  {
    match a {
      case Output(text, slack) =>
        OutputKeepsBounds(s, text, slack);
        OfferKeepsBounds(DoOutput(s, text, slack), Apply(s, a).offers);
      case Flush => FlushKeepsBounds(s);
      case Lock => DrainKeepsBounds(s);
      case Wake => DrainKeepsBounds(s);
      case TimeOut =>
        FlushKeepsBounds(s);
        DrainKeepsBounds(FlushLog(s));
      case Clear => ClearKeepsBounds(s);
      case _ => LogThreadKeepsBounds(s, a);
    }
  }

  /* ---------- Conservation, and the order of the file ---------- */

  function Records(heap: map<Id, Buffer>, ids: seq<Id>): seq<Record> {
    if ids == [] then [] else Get(heap, ids[0]).records + Records(heap, ids[1..])
  }

  // What is in the file, and what the log thread is about to put there.
  function Out(s: State): seq<Record> {
    if s.pc.Popped? then s.file + Get(s.heap, s.pc.held).records else s.file
  }

  // How much of write_buffers_ is older than tmp_buffers_.
  predicate Split(s: State) {
    s.left <= |s.writeQueue| && (s.pc.Top? || s.pc.Waiting? ==> s.left == 0)
  }

  // The other records in memory that are still to be written, the oldest first.
  function Behind(s: State): seq<Record>
    requires Split(s)
  {
    Records(s.heap, s.writeQueue[..s.left]) + Records(s.heap, s.tmpQueue) + Records(s.heap, s.writeQueue[s.left..])
    + LogRecords(s)
  }

  // The messages that the notes in a sequence of records stand for.
  function NotedLosses(rs: seq<Record>): nat {
    if rs == [] then 0
    else NotedLosses(rs[..|rs| - 1]) + if rs[|rs| - 1].LostNote? then rs[|rs| - 1].count else 0
  }

  ghost predicate Numbered(rs: seq<Record>) {
    forall i :: 0 <= i < |rs| ==> rs[i].number == i
  }

  // The buffers in both queues are not empty.
  ghost predicate QueuesHold(s: State) {
    forall id :: id in s.writeQueue || id in s.tmpQueue ==> Get(s.heap, id).records != []
  }

  // All accepted records are out or behind, and, unless something overtook, out is where they start.
  ghost predicate Line(out: seq<Record>, behind: seq<Record>, accepted: seq<Record>, overtook: bool) {
    && Numbered(accepted)
    && multiset(accepted) == multiset(out) + multiset(behind)
    && (if overtook then !(out <= accepted) else out + behind == accepted)
  }

  ghost predicate Ledger(s: State) {
    && Split(s)
    && Line(Out(s), Behind(s), s.accepted, s.overtook)
    && s.dropped == s.lost + NotedLosses(s.accepted)
    && QueuesHold(s)
  }

  lemma LineAccepts(out: seq<Record>, behind: seq<Record>, accepted: seq<Record>, overtook: bool, r: Record)
    requires Line(out, behind, accepted, overtook) && r.number == |accepted|
    ensures Line(out, behind + [r], accepted + [r], overtook)
  {
    OutIsShorter(out, behind, accepted);
    assert out + (behind + [r]) == (out + behind) + [r];
    assert (accepted + [r])[..|out|] == accepted[..|out|];
  }

  lemma OutIsShorter(out: seq<Record>, behind: seq<Record>, accepted: seq<Record>)
    requires multiset(accepted) == multiset(out) + multiset(behind)
    ensures |out| <= |accepted|
  {
    assert |multiset(accepted)| == |accepted|;
    assert |multiset(out) + multiset(behind)| == |out| + |behind|;
  }

  // The oldest records go out.
  lemma LineMoves(out: seq<Record>, front: seq<Record>, rest: seq<Record>, accepted: seq<Record>, overtook: bool)
    requires Line(out, front + rest, accepted, overtook)
    ensures Line(out + front, rest, accepted, overtook)
  {
    assert (out + front) + rest == out + (front + rest);
    assert (out + front)[..|out|] == out;
  }

  // Newer records go out before older ones: a record is then in a place that is not its own, for good.
  lemma LineOvertakes(out: seq<Record>, behind: seq<Record>, out': seq<Record>, behind': seq<Record>,
                      older: seq<Record>, front: seq<Record>, rest: seq<Record>,
                      accepted: seq<Record>, overtook: bool)
    requires Line(out, behind, accepted, overtook)
    requires behind == older + (front + rest) && out' == out + front && behind' == older + rest
    requires older != [] && front != []
    ensures Line(out', behind', accepted, true)
  {
    assert out'[..|out|] == out;
    if !overtook {
      assert accepted[|out| + |older|] == front[0];
      assert out'[|out|] == front[0];
    }
  }

  lemma {:induction false} RecordsAppend(heap: map<Id, Buffer>, ids: seq<Id>, id: Id)
    ensures Records(heap, ids + [id]) == Records(heap, ids) + Get(heap, id).records
  {
    if ids == [] {
      assert ids + [id] == [id];
    } else {
      assert (ids + [id])[1..] == ids[1..] + [id];
      RecordsAppend(heap, ids[1..], id);
    }
  }

  lemma {:induction false} RecordsFrame(heap: map<Id, Buffer>, ids: seq<Id>, id: Id, b: Buffer)
    requires id !in ids
    ensures Records(heap[id := b], ids) == Records(heap, ids)
  {
    if ids != [] {
      RecordsFrame(heap, ids[1..], id, b);
    }
  }

  // A buffer outside the queues can change without any effect on them.
  lemma QueuesFrame(s: State, id: Id, b: Buffer)
    requires Split(s) && id !in s.writeQueue && id !in s.tmpQueue
    ensures var heap := s.heap[id := b];
            && Records(heap, s.writeQueue[..s.left]) == Records(s.heap, s.writeQueue[..s.left])
            && Records(heap, s.tmpQueue) == Records(s.heap, s.tmpQueue)
            && Records(heap, s.writeQueue[s.left..]) == Records(s.heap, s.writeQueue[s.left..])
  {
    RecordsFrame(s.heap, s.writeQueue[..s.left], id, b);
    RecordsFrame(s.heap, s.tmpQueue, id, b);
    RecordsFrame(s.heap, s.writeQueue[s.left..], id, b);
  }

  // Steps that accept nothing, and move records only from one place in memory to the next.
  lemma SameLineKeepsLedger(s: State, s': State)
    requires Ledger(s) && Split(s') && QueuesHold(s')
    requires Out(s') == Out(s) && Behind(s') == Behind(s)
    requires s'.accepted == s.accepted && s'.overtook == s.overtook
    requires s'.dropped - s'.lost == s.dropped - s.lost
    ensures Ledger(s')
  {
  }

  // The log buffer moves to the queue, and an empty one takes its place.
  lemma MovedLogKeepsBehind(s: State, log: Id)
    requires Split(s) && Get(s.heap, log).records == []
    ensures Behind(s.(writeQueue := s.writeQueue + [s.log], log := log)) == Behind(s)
  {
    var s' := s.(writeQueue := s.writeQueue + [s.log], log := log);
    assert s'.writeQueue[..s.left] == s.writeQueue[..s.left];
    assert s'.writeQueue[s.left..] == s.writeQueue[s.left..] + [s.log];
    RecordsAppend(s.heap, s.writeQueue[s.left..], s.log);
  }

  lemma RotateKeepsRecords(s: State)
    requires Ownership(s) && Split(s)
    ensures Split(Rotate(s)) && Behind(Rotate(s)) == Behind(s) && Out(Rotate(s)) == Out(s)
  {
    if s.spare == [] {
      NextIsApart(s);
      if HasHeld(s) {
        HeldIsApart(s);
      }
      QueuesFrame(s, s.next, Buffer([], MEM_BUFFER_SIZE));
      MovedLogKeepsBehind(s.(heap := s.heap[s.next := Buffer([], MEM_BUFFER_SIZE)]), s.next);
    } else {
      MovedLogKeepsBehind(s, s.spare[0]);
    }
  }

  lemma RotateKeepsQueuesHold(s: State)
    requires Ownership(s) && QueuesHold(s) && LogRecords(s) != []
    ensures QueuesHold(Rotate(s))
  {
    NextIsApart(s);
    var s' := Rotate(s);
    forall id | id in s'.writeQueue || id in s'.tmpQueue
      ensures Get(s'.heap, id).records != []
    {
      assert Get(s'.heap, id) == Get(s.heap, id);
    }
  }

  lemma RotateKeepsLedger(s: State)
    requires Ownership(s) && Ledger(s) && LogRecords(s) != []
    ensures Ledger(Rotate(s))
  {
    RotateKeepsRecords(s);
    RotateKeepsQueuesHold(s);
    SameLineKeepsLedger(s, Rotate(s));
  }

  lemma AppendAddsToBehind(s: State, r: Record, slack: nat)
    requires Ownership(s) && Split(s)
    ensures var s' := AppendToLog(s, r, slack);
            Split(s') && Behind(s') == Behind(s) + [r] && Out(s') == Out(s)
  {
    LogIsApart(s);
    QueuesFrame(s, s.log, AppendRecord(Get(s.heap, s.log), r, slack));
    var queued := Records(s.heap, s.writeQueue[..s.left]) + Records(s.heap, s.tmpQueue) + Records(s.heap, s.writeQueue[s.left..]);
    assert LogRecords(AppendToLog(s, r, slack)) == LogRecords(s) + [r];
    assert queued + (LogRecords(s) + [r]) == (queued + LogRecords(s)) + [r];
  }

  // One more record in the log buffer; only the count of losses may be out of balance.
  lemma AppendKeepsLine(s: State, r: Record, slack: nat)
    requires Ownership(s) && Ledger(s) && r.number == |s.accepted|
    ensures var s' := AppendToLog(s, r, slack);
            && Split(s') && Line(Out(s'), Behind(s'), s'.accepted, s'.overtook) && QueuesHold(s')
  {
    LogIsApart(s);
    AppendAddsToBehind(s, r, slack);
    LineAccepts(Out(s), Behind(s), s.accepted, s.overtook, r);
  }

  lemma NotedLossesNext(rs: seq<Record>, r: Record)
    ensures NotedLosses(rs + [r]) == NotedLosses(rs) + if r.LostNote? then r.count else 0
  {
    assert (rs + [r])[..|rs|] == rs;
  }

  lemma MessageKeepsLedger(s: State, text: string, slack: nat)
    requires Ownership(s) && Ledger(s)
    ensures Ledger(AppendToLog(s, Message(|s.accepted|, text), slack))
  {
    AppendKeepsLine(s, Message(|s.accepted|, text), slack);
    NotedLossesNext(s.accepted, Message(|s.accepted|, text));
  }

  lemma ReportKeepsLedger(s: State, slack: nat)
    requires Ownership(s) && Ledger(s)
    ensures Ledger(ReportLosses(s, slack))
  {
    if s.lost > 0 {
      var note := LostNote(|s.accepted|, s.lost);
      AppendKeepsLine(s, note, slack);
      NotedLossesNext(s.accepted, note);
      var s1 := AppendToLog(s, note, slack);
      assert Out(s1.(lost := 0)) == Out(s1) && Behind(s1.(lost := 0)) == Behind(s1);
    }
  }

  lemma MakeRoomKeepsLedger(s: State, len: nat)
    requires Ownership(s) && Ledger(s) && len <= MEM_BUFFER_SIZE
    ensures Ledger(MakeRoom(s, len))
  {
    if LogRecords(s) == [] {
      EmptyLogStays(s, len);
    } else {
      RotateKeepsLedger(s);
    }
  }

  lemma CountLossKeepsLedger(s: State)
    requires Ledger(s)
    ensures Ledger(CountLoss(s))
  {
    SameLineKeepsLedger(s, CountLoss(s));
  }

  lemma AcceptKeepsLedger(s: State, text: string, slack: nat)
    requires Ownership(s) && Ledger(s)
    ensures Ledger(Accept(s, text, slack))
  {
    var s' := ReportLosses(s, slack);
    ReportKeepsOwnership(s, slack);
    ReportKeepsLedger(s, slack);
    MessageKeepsLedger(s', text, slack);
    assert Accept(s, text, slack) == AppendToLog(s', Message(|s'.accepted|, text), slack);
  }

  lemma AcceptOrCountKeepsLedger(s: State, text: string, slack: nat)
    requires Ownership(s) && Ledger(s)
    ensures Ledger(AcceptOrCount(s, text, slack))
  {
    if |s.writeQueue| > QUEUE_LIMIT {
      CountLossKeepsLedger(s);
      assert AcceptOrCount(s, text, slack) == CountLoss(s);
    } else {
      AcceptKeepsLedger(s, text, slack);
      assert AcceptOrCount(s, text, slack) == Accept(s, text, slack);
    }
  }

  lemma OutputKeepsLedger(s: State, text: string, slack: nat)
    requires Ownership(s) && Ledger(s)
    ensures Ledger(DoOutput(s, text, slack))
  {
    if |text| <= MEM_BUFFER_SIZE {
      MakeRoomKeepsLedger(s, |text|);
      MakeRoomKeepsOwnership(s, |text|);
      AcceptOrCountKeepsLedger(MakeRoom(s, |text|), text, slack);
    }
  }

  lemma FlushKeepsLedger(s: State)
    requires Ownership(s) && Ledger(s)
    ensures Ledger(FlushLog(s))
  {
    SwapBufferIsRotate(s);
    if Size(LogRecords(s)) > 0 {
      RotateKeepsLedger(s);
    }
  }

  // The buffer the log thread holds is in no queue and is not the log buffer, so clearing it loses nothing.
  lemma ClearKeepsRecords(s: State)
    requires Ownership(s) && Split(s) && s.pc.Written?
    ensures var s' := Apply(s, Clear); Split(s') && Behind(s') == Behind(s) && Out(s') == Out(s)
  {
    LogIsApart(s);
    HeldIsApart(s);
    QueuesFrame(s, s.pc.held, Get(s.heap, s.pc.held).(records := []));
  }

  lemma QueuesStayFull(s: State, id: Id, b: Buffer)
    requires QueuesHold(s) && id !in s.writeQueue && id !in s.tmpQueue
    ensures QueuesHold(s.(heap := s.heap[id := b]))
  {
    forall other | other in s.writeQueue || other in s.tmpQueue
      ensures Get(s.heap[id := b], other).records != []
    {
      assert Get(s.heap[id := b], other) == Get(s.heap, other);
    }
  }

  lemma ClearKeepsQueuesHold(s: State)
    requires Ownership(s) && QueuesHold(s) && s.pc.Written?
    ensures QueuesHold(Apply(s, Clear))
  {
    HeldIsApart(s);
    var b := Get(s.heap, s.pc.held).(records := []);
    QueuesStayFull(s, s.pc.held, b);
    assert Apply(s, Clear).heap == s.heap[s.pc.held := b];
  }

  lemma ClearKeepsLedger(s: State)
    requires Ownership(s) && Ledger(s) && s.pc.Written?
    ensures Ledger(Apply(s, Clear))
  {
    ClearKeepsRecords(s);
    ClearKeepsQueuesHold(s);
    ClearTouchesNoHistory(s);
    SameLineKeepsLedger(s, Apply(s, Clear));
  }

  lemma ClearTouchesNoHistory(s: State)
    requires s.pc.Written?
    ensures var s' := Apply(s, Clear);
            s'.accepted == s.accepted && s'.overtook == s.overtook && s'.dropped == s.dropped && s'.lost == s.lost
  {
  }

  // Swapping the queues keeps the age of the buffers: those set aside are older than those queued since.
  lemma SwapQueuesKeepsBehind(s: State)
    requires Split(s) && (s.pc.Top? || s.pc.Waiting?)
    ensures Split(SwapQueues(s)) && Behind(SwapQueues(s)) == Behind(s) && Out(SwapQueues(s)) == Out(s)
  {
    var s' := SwapQueues(s);
    var tmp, queued, log := Records(s.heap, s.tmpQueue), Records(s.heap, s.writeQueue), LogRecords(s);
    assert s.writeQueue[..0] == [] && s.writeQueue[0..] == s.writeQueue;
    assert s'.writeQueue[..s'.left] == s.tmpQueue && s'.writeQueue[s'.left..] == [];
    assert Behind(s) == [] + tmp + queued + log;
    assert Behind(s') == tmp + queued + [] + log;
  }

  lemma SwapQueuesKeepsLedger(s: State)
    requires Ledger(s) && (s.pc.Top? || s.pc.Waiting?)
    ensures Ledger(SwapQueues(s))
  {
    SwapQueuesKeepsBehind(s);
    assert QueuesHold(SwapQueues(s));
    SameLineKeepsLedger(s, SwapQueues(s));
  }

  lemma PopOlder(s: State)
    requires Split(s) && s.pc.Draining? && s.writeQueue != [] && s.left > 0
    ensures var s' := Apply(s, TestEmpty);
            var front := Get(s.heap, s.writeQueue[0]).records;
            && Split(s') && Out(s) == s.file && Out(s') == s.file + front
            && Behind(s) == front + Behind(s')
  {
    var s' := Apply(s, TestEmpty);
    var front, older := Get(s.heap, s.writeQueue[0]).records, Records(s.heap, s'.writeQueue[..s'.left]);
    assert s.writeQueue[..s.left][1..] == s'.writeQueue[..s'.left];
    assert s.writeQueue[s.left..] == s'.writeQueue[s'.left..];
    var tmp, newer, log := Records(s.heap, s.tmpQueue), Records(s.heap, s'.writeQueue[s'.left..]), LogRecords(s);
    assert (front + older) + tmp + newer + log == front + (older + tmp + newer + log);
  }

  // Without anything older in write_buffers_, what is set aside comes first.
  lemma BehindWithoutOlder(s: State)
    requires Split(s) && s.left == 0
    ensures Behind(s) == Records(s.heap, s.tmpQueue) + (Records(s.heap, s.writeQueue) + LogRecords(s))
  {
    assert s.writeQueue[..0] == [] && s.writeQueue[0..] == s.writeQueue;
    var tmp, newer, log := Records(s.heap, s.tmpQueue), Records(s.heap, s.writeQueue), LogRecords(s);
    assert [] + tmp + newer + log == tmp + (newer + log);
  }

  lemma PopNewer(s: State)
    requires Split(s) && s.pc.Draining? && s.writeQueue != [] && s.left == 0
    ensures var s' := Apply(s, TestEmpty);
            var tmp, rest := Records(s.heap, s.tmpQueue), Records(s.heap, s'.writeQueue) + LogRecords(s);
            && Split(s') && Out(s) == s.file && Out(s') == s.file + Get(s.heap, s.writeQueue[0]).records
            && Behind(s) == tmp + (Get(s.heap, s.writeQueue[0]).records + rest)
            && Behind(s') == tmp + rest
  {
    BehindWithoutOlder(s);
    BehindWithoutOlder(Apply(s, TestEmpty));
    FirstOfRecords(s.heap, s.writeQueue, LogRecords(s));
  }

  lemma FirstOfRecords(heap: map<Id, Buffer>, ids: seq<Id>, log: seq<Record>)
    requires ids != []
    ensures Records(heap, ids) + log == Get(heap, ids[0]).records + (Records(heap, ids[1..]) + log)
  {
  }

  // Popping keeps everything but the line of records; that is looked at apart.
  lemma PopWithLine(s: State, out: seq<Record>, behind: seq<Record>)
    requires Ledger(s) && s.pc.Draining? && s.writeQueue != []
    requires var s' := Apply(s, TestEmpty); Split(s') && Out(s') == out && Behind(s') == behind
    requires Line(out, behind, s.accepted, s.overtook || Overtakes(s))
    ensures Ledger(Apply(s, TestEmpty))
  {
    assert QueuesHold(Apply(s, TestEmpty));
  }

  lemma QueueHolds(s: State, queue: seq<Id>)
    requires QueuesHold(s) && queue != [] && (queue == s.writeQueue || queue == s.tmpQueue)
    ensures Get(s.heap, queue[0]).records != [] && Records(s.heap, queue) != []
  {
    assert queue[0] in queue;
  }

  lemma PopOvertakingKeepsLedger(s: State)
    requires Ledger(s) && s.pc.Draining? && s.writeQueue != [] && Overtakes(s)
    ensures Ledger(Apply(s, TestEmpty))
  {
    PopNewer(s);
    var older, front := Records(s.heap, s.tmpQueue), Get(s.heap, s.writeQueue[0]).records;
    var rest := Records(s.heap, s.writeQueue[1..]) + LogRecords(s);
    QueueHolds(s, s.tmpQueue);
    QueueHolds(s, s.writeQueue);
    var s' := Apply(s, TestEmpty);
    LineOvertakes(Out(s), Behind(s), Out(s'), Behind(s'), older, front, rest, s.accepted, s.overtook);
    PopWithLine(s, Out(s'), Behind(s'));
  }

  // Nothing is set aside, so what was queued after the swap is the oldest.
  lemma PopNext(s: State)
    requires Split(s) && s.pc.Draining? && s.writeQueue != [] && s.left == 0 && s.tmpQueue == []
    ensures var s' := Apply(s, TestEmpty);
            var front := Get(s.heap, s.writeQueue[0]).records;
            && Split(s') && Out(s) == s.file && Out(s') == s.file + front
            && Behind(s) == front + Behind(s')
  {
    PopNewer(s);
    var front, rest := Get(s.heap, s.writeQueue[0]).records, Records(s.heap, s.writeQueue[1..]) + LogRecords(s);
    assert [] + (front + rest) == front + rest && [] + rest == rest;
  }

  // The oldest buffer is popped.
  lemma PopOldestKeepsLedger(s: State)
    requires Ledger(s) && s.pc.Draining? && s.writeQueue != [] && !Overtakes(s)
    ensures Ledger(Apply(s, TestEmpty))
  {
    if s.left > 0 {
      PopOlder(s);
    } else {
      PopNext(s);
    }
    var front, behind := Get(s.heap, s.writeQueue[0]).records, Behind(Apply(s, TestEmpty));
    LineMoves(Out(s), front, behind, s.accepted, s.overtook);
    PopWithLine(s, Out(s) + front, behind);
  }

  lemma PopKeepsLedger(s: State)
    requires Ledger(s) && s.pc.Draining? && s.writeQueue != []
    ensures Ledger(Apply(s, TestEmpty))
  {
    if Overtakes(s) {
      PopOvertakingKeepsLedger(s);
    } else {
      PopOldestKeepsLedger(s);
    }
  }

  lemma StartDrainKeepsLedger(s: State)
    requires Ledger(s) && (s.pc.Top? || s.pc.Waiting?)
    ensures Ledger(if s.writeQueue == [] then s.(pc := Waiting) else SwapQueues(s))
  {
    if s.writeQueue == [] {
      SameLineKeepsLedger(s, s.(pc := Waiting));
    } else {
      SwapQueuesKeepsLedger(s);
    }
  }

  lemma TimeOutKeepsLedger(s: State)
    requires Ownership(s) && Ledger(s) && s.pc.Waiting?
    ensures Ledger(SwapQueues(FlushLog(s)))
  {
    FlushKeepsLedger(s);
    SwapQueuesKeepsLedger(FlushLog(s));
  }

  lemma TestEmptyKeepsLedger(s: State)
    requires Ledger(s) && s.pc.Draining?
    ensures Ledger(Apply(s, TestEmpty))
  {
    if s.writeQueue == [] {
      SameLineKeepsLedger(s, Apply(s, TestEmpty));
    } else {
      PopKeepsLedger(s);
    }
  }

  lemma OfferKeepsLedger(s: State, offers: seq<Offer>)
    requires Ledger(s)
    ensures Ledger(s.(offers := offers))
  {
    SameLineKeepsLedger(s, s.(offers := offers));
  }

  lemma WriteFileKeepsLedger(s: State)
    requires Ledger(s) && s.pc.Popped?
    ensures Ledger(Apply(s, WriteFile))
  {
    SameLineKeepsLedger(s, Apply(s, WriteFile));
  }

  lemma RecycleKeepsLedger(s: State)
    requires Ledger(s) && s.pc.Cleared?
    ensures Ledger(Apply(s, Recycle))
  {
    SameLineKeepsLedger(s, Apply(s, Recycle));
  }

  lemma StepKeepsLedger(s: State, a: Action)
    requires Ownership(s) && Ledger(s) && Enabled(s, a)
    ensures Ledger(Apply(s, a))
  {
    match a {
      case Output(text, slack) =>
        OutputKeepsLedger(s, text, slack);
        OfferKeepsLedger(DoOutput(s, text, slack), Apply(s, a).offers);
      case Flush => FlushKeepsLedger(s);
      case Lock => StartDrainKeepsLedger(s);
      case Wake => StartDrainKeepsLedger(s);
      case TimeOut => TimeOutKeepsLedger(s);
      case TestEmpty => TestEmptyKeepsLedger(s);
      case WriteFile => WriteFileKeepsLedger(s);
      case Clear => ClearKeepsLedger(s);
      case Recycle => RecycleKeepsLedger(s);
    }
  }

  /* ---------- What becomes of the messages ---------- */

  function TextsOf(offers: seq<Offer>, fate: Fate): seq<string> {
    if offers == [] then []
    else
      var last := offers[|offers| - 1];
      TextsOf(offers[..|offers| - 1], fate) + if last.fate == fate then [last.text] else []
  }

  function MessageTexts(rs: seq<Record>): seq<string> {
    if rs == [] then []
    else
      var last := rs[|rs| - 1];
      MessageTexts(rs[..|rs| - 1]) + if last.Message? then [last.text] else []
  }

  // A message is ignored, without being counted, exactly when it is longer than a buffer. All others are
  // either accepted, and then among the records in the order in which they came, or counted as dropped.
  ghost predicate Accounted(s: State) {
    && (forall i :: 0 <= i < |s.offers| ==> (s.offers[i].fate == Ignored <==> |s.offers[i].text| > MEM_BUFFER_SIZE))
    && TextsOf(s.offers, Accepted) == MessageTexts(s.accepted)
    && |TextsOf(s.offers, Counted)| == s.dropped
  }

  lemma MessageTextsNext(rs: seq<Record>, r: Record)
    ensures MessageTexts(rs + [r]) == MessageTexts(rs) + if r.Message? then [r.text] else []
  {
    assert (rs + [r])[..|rs|] == rs;
  }

  lemma TextsOfNext(offers: seq<Offer>, o: Offer, fate: Fate)
    ensures TextsOf(offers + [o], fate) == TextsOf(offers, fate) + if o.fate == fate then [o.text] else []
  {
    assert (offers + [o])[..|offers|] == offers;
  }

  lemma ReportKeepsMessages(s: State, slack: nat)
    ensures MessageTexts(ReportLosses(s, slack).accepted) == MessageTexts(s.accepted)
    ensures ReportLosses(s, slack).dropped == s.dropped
  {
    MessageTextsNext(s.accepted, LostNote(|s.accepted|, s.lost));
  }

  lemma OutputDecidesFate(s: State, text: string, slack: nat)
    ensures var s', fate := DoOutput(s, text, slack), FateOf(s, text);
            && MessageTexts(s'.accepted) == MessageTexts(s.accepted) + (if fate == Accepted then [text] else [])
            && s'.dropped == s.dropped + (if fate == Counted then 1 else 0)
  {
    if FateOf(s, text) == Accepted {
      var s1 := MakeRoom(s, |text|);
      var s2 := ReportLosses(s1, slack);
      ReportKeepsMessages(s1, slack);
      MessageTextsNext(s2.accepted, Message(|s2.accepted|, text));
    }
  }

  lemma OthersAcceptNothing(s: State, a: Action)
    requires Enabled(s, a) && !a.Output?
    ensures var s' := Apply(s, a); s'.offers == s.offers && s'.accepted == s.accepted && s'.dropped == s.dropped
  {
  }

  lemma StepKeepsAccounted(s: State, a: Action)
    requires Accounted(s) && Enabled(s, a)
    ensures Accounted(Apply(s, a))
  {
    if a.Output? {
      var offer := Offer(a.text, FateOf(s, a.text));
      OutputDecidesFate(s, a.text, a.slack);
      TextsOfNext(s.offers, offer, Accepted);
      TextsOfNext(s.offers, offer, Counted);
    } else {
      OthersAcceptNothing(s, a);
    }
  }

  /* ---------- How large a buffer gets ---------- */

  ghost predicate WithinCapacity(b: Buffer) {
    Size(b.records) <= b.capacity
  }

  // No buffer, used or not, holds more than its capacity. As long as nothing is dropped, that is never
  // more than MEM_BUFFER_SIZE.
  ghost predicate Sized(s: State) {
    && (forall id :: id in s.heap ==> WithinCapacity(s.heap[id]))
    && (s.dropped == 0 ==> s.lost == 0 && forall id :: id in s.heap ==> s.heap[id].capacity == MEM_BUFFER_SIZE)
  }

  // All pointers in use have a buffer.
  lemma OwnedIsAllocated(s: State, id: Id)
    requires Ownership(s) && id in Owned(s)
    ensures id in s.heap
  {
    assert Get(s.heap, id).capacity >= MEM_BUFFER_SIZE;
  }

  lemma SizeNext(rs: seq<Record>, r: Record)
    ensures Size(rs + [r]) == Size(rs) + |Text(r)|
  {
    assert (rs + [r])[..|rs|] == rs;
  }

  lemma AppendRecordFits(b: Buffer, r: Record, slack: nat)
    ensures WithinCapacity(AppendRecord(b, r, slack))
    ensures b.capacity - Size(b.records) >= |Text(r)| ==> AppendRecord(b, r, slack).capacity == b.capacity
  {
    SizeNext(b.records, r);
  }

  // Making room leaves room for the message, in a buffer of the usual capacity or in a larger one.
  lemma MakeRoomMakesRoom(s: State, len: nat)
    requires Ownership(s) && len <= MEM_BUFFER_SIZE
    ensures var b := Get(MakeRoom(s, len).heap, MakeRoom(s, len).log); b.capacity - Size(b.records) >= len
  {
    RotateKeepsOwnership(s);
    LogIsApart(Rotate(s));
  }

  lemma RotateKeepsSized(s: State)
    requires Sized(s)
    ensures Sized(Rotate(s))
  {
  }

  lemma AppendKeepsSized(s: State, r: Record, slack: nat)
    requires Sized(s) && s.log in s.heap
    requires s.dropped == 0 ==> s.heap[s.log].capacity - Size(LogRecords(s)) >= |Text(r)|
    ensures Sized(AppendToLog(s, r, slack))
  {
    AppendRecordFits(s.heap[s.log], r, slack);
  }

  lemma ReportKeepsSized(s: State, slack: nat)
    requires Sized(s) && s.log in s.heap
    ensures Sized(ReportLosses(s, slack)) && ReportLosses(s, slack).log in ReportLosses(s, slack).heap
  {
    if s.lost > 0 {
      AppendKeepsSized(s, LostNote(|s.accepted|, s.lost), slack);
    }
  }

  lemma AcceptKeepsSized(s: State, text: string, slack: nat)
    requires Sized(s) && s.log in s.heap && s.heap[s.log].capacity - Size(LogRecords(s)) >= |text|
    ensures Sized(Accept(s, text, slack))
  {
    ReportKeepsSized(s, slack);
    var s' := ReportLosses(s, slack);
    AppendKeepsSized(s', Message(|s'.accepted|, text), slack);
  }

  lemma LogIsAllocated(s: State)
    requires Ownership(s)
    ensures s.log in s.heap
  {
    LogIsApart(s);
    OwnedIsAllocated(s, s.log);
  }

  lemma OutputKeepsSized(s: State, text: string, slack: nat)
    requires Ownership(s) && Sized(s)
    ensures Sized(DoOutput(s, text, slack))
  {
    if |text| <= MEM_BUFFER_SIZE {
      var s1 := MakeRoom(s, |text|);
      RotateKeepsSized(s);
      MakeRoomKeepsOwnership(s, |text|);
      LogIsAllocated(s1);
      MakeRoomMakesRoom(s, |text|);
      if |s1.writeQueue| <= QUEUE_LIMIT {
        AcceptKeepsSized(s1, text, slack);
      }
    }
  }

  lemma ClearKeepsSized(s: State, id: Id)
    requires Sized(s) && id in s.heap
    ensures Sized(ClearBuffer(s, id))
  {
  }

  lemma FlushKeepsSized(s: State)
    requires Ownership(s) && Sized(s)
    ensures Sized(FlushLog(s))
  {
    SwapBufferIsRotate(s);
    RotateKeepsSized(s);
  }

  lemma StepKeepsSized(s: State, a: Action)
    requires Ownership(s) && Sized(s) && Enabled(s, a)
    ensures Sized(Apply(s, a))
  {
    match a {
      case Output(text, slack) => OutputKeepsSized(s, text, slack);
      case Flush => FlushKeepsSized(s);
      case TimeOut => FlushKeepsSized(s);
      case Clear =>
        assert s.pc.held in Owned(s);
        OwnedIsAllocated(s, s.pc.held);
        ClearKeepsSized(s, s.pc.held);
      case _ =>
    }
  }

  // Behind making room, Output moves no buffer, and takes none away.
  lemma OutputMovesAsMakeRoom(s: State, text: string, slack: nat)
    ensures var e := Apply(s, Output(text, slack));
            var s1 := if |text| > MEM_BUFFER_SIZE then s else MakeRoom(s, |text|);
            && e.writeQueue == s1.writeQueue && e.tmpQueue == s1.tmpQueue && e.log == s1.log && e.spare == s1.spare
            && e.pc == s1.pc && s1.heap.Keys <= e.heap.Keys
  {
  }

  // Output hands the log buffer on exactly when the message does not fit into it.
  lemma OutputHandsOnIff(s: State, text: string, slack: nat)
    requires |text| <= 0x40_0000
    ensures var b := Get(s.heap, s.log);
            Apply(s, Output(text, slack)).writeQueue ==
              s.writeQueue + if Size(b.records) + |text| > b.capacity then [s.log] else []
  {
    OutputMovesAsMakeRoom(s, text, slack);
  }

  // The last record of a sequence is this one.
  predicate EndsWith(rs: seq<Record>, r: Record) {
    rs != [] && rs[|rs| - 1] == r
  }

  // A message is accepted exactly when it is no longer than a buffer and, once the log buffer is handed on
  // if it must be, no more than 25 buffers are queued. It is then the last record of the log buffer.
  lemma AcceptedIff(s: State, text: string, slack: nat)
    ensures var b, e := Get(s.heap, s.log), Apply(s, Output(text, slack));
            var queued := |s.writeQueue| + if Size(b.records) + |text| > b.capacity then 1 else 0;
            if |text| <= 0x40_0000 && queued <= 25 then
              var r := Message(|e.accepted| - 1, text);
              e.accepted != [] && EndsWith(e.accepted, r) && EndsWith(LogRecords(e), r)
            else e.accepted == s.accepted
  {
    if |text| <= MEM_BUFFER_SIZE {
      var s1 := MakeRoom(s, |text|);
      if |s1.writeQueue| <= QUEUE_LIMIT {
        AcceptAppends(s1, text, slack);
      }
    }
  }

  lemma AcceptAppends(s: State, text: string, slack: nat)
    ensures var e := Accept(s, text, slack);
            var r := Message(|e.accepted| - 1, text);
            e.accepted != [] && EndsWith(e.accepted, r) && EndsWith(LogRecords(e), r)
  {
  }

  // A buffer that has been written is kept, and is the next one to become the log buffer.
  lemma WrittenBufferIsReused(s: State)
    requires Ownership(s) && s.pc.Cleared?
    ensures var e := Rotate(Apply(s, Recycle)); e.log == s.pc.held && e.next == s.next && e.spare == []
  {
  }

  /* ---------- The text in the file ---------- */

  function TextOf(rs: seq<Record>): string {
    if rs == [] then "" else TextOf(rs[..|rs| - 1]) + Text(rs[|rs| - 1])
  }

  lemma {:induction false} TextHasSize(rs: seq<Record>)
    ensures |TextOf(rs)| == Size(rs)
  {
    if rs != [] {
      TextHasSize(rs[..|rs| - 1]);
    }
  }

  lemma {:induction false} TextConcat(a: seq<Record>, b: seq<Record>)
    ensures TextOf(a + b) == TextOf(a) + TextOf(b)
  {
    if b == [] {
      assert a + b == a;
    } else {
      var front, last := b[..|b| - 1], b[|b| - 1];
      assert (a + b)[..|a + b| - 1] == a + front && (a + b)[|a + b| - 1] == last;
      TextConcat(a, front);
      Rejoin(TextOf(a), TextOf(front), Text(last));
    }
  }

  lemma Rejoin<T>(a: seq<T>, b: seq<T>, c: seq<T>)
    ensures (a + b) + c == a + (b + c)
    ensures a + [] == a
  {
  }

  // Records are kept in the file as their text: a message as it came, a note as a line with its count.
  lemma MessageIsItsText(number: nat, text: string)
    ensures Text(Message(number, text)) == text
  {
  }

  lemma NoteReadsBack(number: nat, count: nat)
    ensures var text := Text(LostNote(number, count));
            && |text| >= 25 && text[|text| - 25..] == " log information is lost\n"
            && ParseNumeral(text[..|text| - 25], Ten) == Some(count)
  {
    NumeralRoundTrip(count, Ten);
    var text := Text(LostNote(number, count));
    assert text[..|text| - 25] == Numeral(count, Ten);
  }

  /* ---------- Over every run ---------- */

  ghost predicate Inv(s: State) {
    Ownership(s) && Bounded(s) && Ledger(s) && Accounted(s) && Sized(s)
  }

  lemma InitInv()
    ensures Inv(Init)
  {
    assert Owned(Init) == multiset{0, 1};
  }

  lemma {:induction false} RunKeepsInv(s: State, acts: seq<Action>)
    requires Inv(s) && CanRun(s, acts)
    ensures Inv(Run(s, acts))
    decreases acts
  {
    if acts != [] {
      StepKeepsOwnership(s, acts[0]);
      StepKeepsBounds(s, acts[0]);
      StepKeepsLedger(s, acts[0]);
      StepKeepsAccounted(s, acts[0]);
      StepKeepsSized(s, acts[0]);
      RunKeepsInv(Apply(s, acts[0]), acts[1..]);
    }
  }

  // However the log thread is delayed, the queues stay short.
  lemma MemoryIsBounded(acts: seq<Action>)
    requires CanRun(Init, acts)
    ensures var s := Run(Init, acts); |s.writeQueue| <= 27 && |s.tmpQueue| <= 26 && |Owned(s)| <= 56
    ensures var s := Run(Init, acts);
            forall id :: id in Owned(s) ==> id in s.heap && Size(s.heap[id].records) <= s.heap[id].capacity
    ensures var s := Run(Init, acts);
            s.dropped == 0 ==> s.lost == 0 && forall id :: id in Owned(s) ==> s.heap[id].capacity == 0x40_0000
  {
    InitInv();
    RunKeepsInv(Init, acts);
    OwnedCount(Run(Init, acts));
    var s := Run(Init, acts);
    forall id | id in Owned(s)
      ensures id in s.heap && Size(s.heap[id].records) <= s.heap[id].capacity
    {
      OwnedIsAllocated(s, id);
      assert WithinCapacity(s.heap[id]);
    }
  }

  lemma OwnedCount(s: State)
    ensures |Owned(s)| == |s.writeQueue| + |s.tmpQueue| + 1 + |s.spare| + if HasHeld(s) then 1 else 0
  {
  }

  // A buffer grows beyond its capacity only in an Output that also reports losses.
  lemma OnlyReportsGrowBuffers(acts: seq<Action>, a: Action, id: Id)
    requires CanRun(Init, acts) && Enabled(Run(Init, acts), a)
    requires id in Owned(Run(Init, acts))
    ensures var s := Run(Init, acts);
            Get(Apply(s, a).heap, id).capacity != Get(s.heap, id).capacity ==> a.Output? && s.lost > 0
  {
    InitInv();
    RunKeepsInv(Init, acts);
    OnlyReportsGrow(Run(Init, acts), a, id);
  }

  lemma OnlyReportsGrow(s: State, a: Action, id: Id)
    requires Ownership(s) && Enabled(s, a) && id in Owned(s)
    ensures Get(Apply(s, a).heap, id).capacity != Get(s.heap, id).capacity ==> a.Output? && s.lost > 0
  {
    OwnedIsAllocated(s, id);
    match a {
      case Output(text, slack) =>
        if s.lost == 0 && |text| <= MEM_BUFFER_SIZE {
          OutputKeepsCapacity(s, text, slack, id);
        }
      case Flush => FlushKeepsCapacity(s, id);
      case TimeOut => FlushKeepsCapacity(s, id);
      case _ =>
    }
  }

  lemma FlushKeepsCapacity(s: State, id: Id)
    requires Ownership(s) && id in Owned(s)
    ensures Get(FlushLog(s).heap, id).capacity == Get(s.heap, id).capacity
  {
    SwapBufferIsRotate(s);
  }

  lemma AppendKeepsCapacity(s: State, r: Record, slack: nat, id: Id)
    requires Get(s.heap, s.log).capacity - Size(LogRecords(s)) >= |Text(r)|
    ensures Get(AppendToLog(s, r, slack).heap, id).capacity == Get(s.heap, id).capacity
  {
    AppendRecordFits(Get(s.heap, s.log), r, slack);
  }

  lemma OutputKeepsCapacity(s: State, text: string, slack: nat, id: Id)
    requires Ownership(s) && id in Owned(s) && s.lost == 0 && |text| <= MEM_BUFFER_SIZE
    ensures Get(DoOutput(s, text, slack).heap, id).capacity == Get(s.heap, id).capacity
  {
    var s1 := MakeRoom(s, |text|);
    MakeRoomMakesRoom(s, |text|);
    assert Get(s1.heap, id).capacity == Get(s.heap, id).capacity;
    if |s1.writeQueue| <= QUEUE_LIMIT {
      assert ReportLosses(s1, slack) == s1;
      AppendKeepsCapacity(s1, Message(|s1.accepted|, text), slack, id);
    }
  }

  // The messages given to Output in a run are those accounted for, in order.
  lemma {:induction false} OffersAreOutputs(s: State, acts: seq<Action>)
    requires CanRun(s, acts)
    ensures OfferedTexts(Run(s, acts).offers) == OfferedTexts(s.offers) + OutputsOf(acts)
    decreases acts
  {
    if acts == [] {
      Rejoin(OfferedTexts(s.offers), [], []);
    } else {
      OffersNext(s, acts[0]);
      OffersAreOutputs(Apply(s, acts[0]), acts[1..]);
      Rejoin(OfferedTexts(s.offers), if acts[0].Output? then [acts[0].text] else [], OutputsOf(acts[1..]));
    }
  }

  lemma OffersNext(s: State, a: Action)
    requires Enabled(s, a)
    ensures OfferedTexts(Apply(s, a).offers) == OfferedTexts(s.offers) + if a.Output? then [a.text] else []
  {
    if a.Output? {
      var all := Apply(s, a).offers;
      assert all[..|all| - 1] == s.offers;
    } else {
      OthersAcceptNothing(s, a);
    }
  }

  function OfferedTexts(offers: seq<Offer>): seq<string> {
    if offers == [] then [] else OfferedTexts(offers[..|offers| - 1]) + [offers[|offers| - 1].text]
  }

  function OutputsOf(acts: seq<Action>): seq<string> {
    if acts == [] then [] else (if acts[0].Output? then [acts[0].text] else []) + OutputsOf(acts[1..])
  }

  // Without overtaking, the text of the file is a beginning of the text accepted.
  lemma TextOfFile(acts: seq<Action>)
    requires CanRun(Init, acts) && !Run(Init, acts).overtook
    ensures var s := Run(Init, acts); TextOf(s.file) <= TextOf(s.accepted)
  {
    FileInOrderIff(acts);
    var s := Run(Init, acts);
    assert s.accepted == s.file + s.accepted[|s.file|..];
    TextConcat(s.file, s.accepted[|s.file|..]);
  }

  // Of all messages given to Output, those longer than a buffer are ignored; every other one is accepted or
  // counted as dropped. Every accepted record is in the file or still in memory, once; every drop is in the
  // counter or in a note.
  lemma EveryMessageIsAccountedFor(acts: seq<Action>)
    requires CanRun(Init, acts)
    ensures var s := Run(Init, acts);
            && Split(s) && multiset(s.accepted) == multiset(Out(s)) + multiset(Behind(s))
            && (forall i, j :: 0 <= i < j < |s.accepted| ==> s.accepted[i] != s.accepted[j])
            && s.dropped == s.lost + NotedLosses(s.accepted)
            && Accounted(s)
  {
    InitInv();
    RunKeepsInv(Init, acts);
  }

  // The file, with what the log thread has popped for it, is in the order in which records were accepted
  // exactly as long as no pop overtakes: the log thread must not take a buffer that was queued after the
  // swap while tmp_buffers_ holds older ones. Outside of the moment between a pop and the write, that is
  // the file alone.
  lemma FileInOrderIff(acts: seq<Action>)
    requires CanRun(Init, acts)
    ensures var s := Run(Init, acts); Out(s) <= s.accepted <==> !s.overtook
    ensures var s := Run(Init, acts); !s.pc.Popped? ==> (s.file <= s.accepted <==> !s.overtook)
    ensures var s := Run(Init, acts); s.file <= s.accepted || s.overtook
  {
    InitInv();
    RunKeepsInv(Init, acts);
    OrderOfFile(Run(Init, acts));
  }

  lemma OrderOfFile(s: State)
    requires Ledger(s)
    ensures Out(s) <= s.accepted <==> !s.overtook
    ensures !s.pc.Popped? ==> (s.file <= s.accepted <==> !s.overtook)
    ensures s.file <= s.accepted || s.overtook
  {
    assert s.file <= Out(s);
    if !s.pc.Popped? {
      assert Out(s) == s.file;
    }
  }

  // The spare buffer is empty and nobody else uses it.
  lemma SpareIsEmptyAndUnshared(acts: seq<Action>)
    requires CanRun(Init, acts) && Run(Init, acts).spare != []
    ensures var s := Run(Init, acts); var id := s.spare[0];
            && Get(s.heap, id).records == []
            && id != s.log && id !in s.writeQueue && id !in s.tmpQueue
            && (HasHeld(s) ==> id != s.pc.held)
  {
    InitInv();
    RunKeepsInv(Init, acts);
    var s := Run(Init, acts);
    var id := s.spare[0];
    LogIsApart(s);
    SpareIsApart(s);
  }

  /* ---------- Progress of the log thread on its own ---------- */

  predicate OfLogThread(acts: seq<Action>) {
    forall i :: 0 <= i < |acts| ==> !acts[i].Output? && !acts[i].Flush?
  }

  // The log thread alone can come from s to e.
  ghost predicate CanReach(s: State, acts: seq<Action>, e: State) {
    OfLogThread(acts) && CanRun(s, acts) && Run(s, acts) == e
  }

  lemma ReachOne(s: State, a: Action)
    requires Enabled(s, a) && !a.Output? && !a.Flush?
    ensures CanReach(s, [a], Apply(s, a))
  {
    RunFirst(s, a, []);
    assert [a] + [] == [a];
  }

  lemma ReachOn(s: State, a: seq<Action>, m: State, b: seq<Action>, e: State)
    requires CanReach(s, a, m) && CanReach(m, b, e)
    ensures CanReach(s, a + b, e)
  {
    RunAppend(s, a, b);
  }

  // What a drain leaves as it is.
  ghost predicate SameBacklog(s: State, e: State) {
    e.tmpQueue == s.tmpQueue && e.log == s.log && LogRecords(e) == LogRecords(s) && e.accepted == s.accepted
  }

  // The popped buffer is written, cleared and kept.
  lemma FinishBuffer(s: State) returns (acts: seq<Action>, e: State)
    requires Ownership(s) && s.pc.Popped?
    ensures CanReach(s, acts, e) && Ownership(e) && e.pc.Draining?
    ensures e.writeQueue == s.writeQueue && SameBacklog(s, e)
  {
    var s1 := Apply(s, WriteFile);
    StepKeepsOwnership(s, WriteFile);
    ReachOne(s, WriteFile);
    var more;
    more, e := FinishWritten(s1);
    acts := [WriteFile] + more;
    ReachOn(s, [WriteFile], s1, more, e);
  }

  lemma FinishWritten(s: State) returns (acts: seq<Action>, e: State)
    requires Ownership(s) && s.pc.Written?
    ensures CanReach(s, acts, e) && Ownership(e) && e.pc.Draining?
    ensures e.writeQueue == s.writeQueue && SameBacklog(s, e)
  {
    LogIsApart(s);
    var s1 := Apply(s, Clear);
    StepKeepsOwnership(s, Clear);
    ReachOne(s, Clear);
    e := Apply(s1, Recycle);
    StepKeepsOwnership(s1, Recycle);
    ReachOne(s1, Recycle);
    acts := [Clear] + [Recycle];
    ReachOn(s, [Clear], s1, [Recycle], e);
  }

  // The queue is drained, and the log thread is back before the lock.
  lemma {:induction false} DrainQueue(s: State) returns (acts: seq<Action>, e: State)
    requires Ownership(s) && s.pc.Draining?
    ensures CanReach(s, acts, e) && Ownership(e) && e.pc.Top? && e.writeQueue == [] && SameBacklog(s, e)
    decreases |s.writeQueue|
  {
    var s1 := Apply(s, TestEmpty);
    StepKeepsOwnership(s, TestEmpty);
    ReachOne(s, TestEmpty);
    if s.writeQueue == [] {
      acts, e := [TestEmpty], s1;
    } else {
      var finish, s2 := FinishBuffer(s1);
      var rest;
      rest, e := DrainQueue(s2);
      ReachOn(s1, finish, s2, rest, e);
      ReachOn(s, [TestEmpty], s1, finish + rest, e);
      acts := [TestEmpty] + (finish + rest);
    }
  }

  // One round with an empty queue: the log thread waits, times out, swaps and drains. What was set aside
  // is written then, and the text of the log buffer is set aside.
  lemma RoundAlone(s: State) returns (acts: seq<Action>, e: State)
    requires Ownership(s) && s.pc.Top? && s.writeQueue == []
    ensures CanReach(s, acts, e) && Ownership(e) && e.pc.Top? && e.writeQueue == [] && e.accepted == s.accepted
    ensures Size(LogRecords(e)) == 0
    ensures Size(LogRecords(s)) == 0 ==> e.tmpQueue == []
  {
    var s1 := Apply(s, Lock);
    StepKeepsOwnership(s, Lock);
    ReachOne(s, Lock);
    var rest;
    rest, e := TimeOutAlone(s1);
    acts := [Lock] + rest;
    ReachOn(s, [Lock], s1, rest, e);
  }

  lemma TimeOutAlone(s: State) returns (acts: seq<Action>, e: State)
    requires Ownership(s) && s.pc.Waiting? && s.writeQueue == []
    ensures CanReach(s, acts, e) && Ownership(e) && e.pc.Top? && e.writeQueue == [] && e.accepted == s.accepted
    ensures Size(LogRecords(e)) == 0
    ensures Size(LogRecords(s)) == 0 ==> e.tmpQueue == []
  {
    SwapBufferIsRotate(s);
    RotateKeepsOwnership(s);
    var s1 := Apply(s, TimeOut);
    StepKeepsOwnership(s, TimeOut);
    ReachOne(s, TimeOut);
    var rest;
    rest, e := DrainQueue(s1);
    acts := [TimeOut] + rest;
    ReachOn(s, [TimeOut], s1, rest, e);
  }

  // From wherever it stands, the log thread comes back before the lock with an empty queue.
  lemma FinishRound(s: State) returns (acts: seq<Action>, e: State)
    requires Ownership(s)
    ensures CanReach(s, acts, e) && Ownership(e) && e.pc.Top? && e.writeQueue == [] && e.accepted == s.accepted
  {
    match s.pc {
      case Top =>
        if s.writeQueue == [] {
          acts, e := [], s;
        } else {
          acts, e := StepAndDrain(s, Lock);
        }
      case Waiting =>
        if s.writeQueue == [] {
          acts, e := TimeOutAlone(s);
        } else {
          acts, e := StepAndDrain(s, Wake);
        }
      case Draining => acts, e := DrainQueue(s);
      case Popped(_) =>
        var finish, m := FinishBuffer(s);
        var rest;
        rest, e := DrainQueue(m);
        acts := finish + rest;
        ReachOn(s, finish, m, rest, e);
      case Written(_) =>
        var finish, m := FinishWritten(s);
        var rest;
        rest, e := DrainQueue(m);
        acts := finish + rest;
        ReachOn(s, finish, m, rest, e);
      case Cleared(_) => acts, e := StepAndDrain(s, Recycle);
    }
  }

  lemma StepAndDrain(s: State, a: Action) returns (acts: seq<Action>, e: State)
    requires Ownership(s) && Enabled(s, a)
    requires (a.Lock? && s.writeQueue != []) || (a.Wake? && s.writeQueue != []) || a.Recycle?
    ensures CanReach(s, acts, e) && Ownership(e) && e.pc.Top? && e.writeQueue == [] && e.accepted == s.accepted
  {
    var s1 := Apply(s, a);
    StepKeepsOwnership(s, a);
    ReachOne(s, a);
    var rest;
    rest, e := DrainQueue(s1);
    acts := [a] + rest;
    ReachOn(s, [a], s1, rest, e);
  }

  // From every reachable state the log thread alone, when nobody logs any more, brings every accepted record
  // into the file: nothing is left in memory but messages without text.
  lemma LogThreadWritesAll(before: seq<Action>) returns (acts: seq<Action>)
    requires CanRun(Init, before)
    ensures OfLogThread(acts) && CanRun(Run(Init, before), acts)
    ensures var s, e := Run(Init, before), Run(Run(Init, before), acts);
            && e.accepted == s.accepted
            && multiset(e.accepted) == multiset(e.file) + multiset(LogRecords(e))
            && Size(LogRecords(e)) == 0
  {
    InitInv();
    RunKeepsInv(Init, before);
    var s := Run(Init, before);
    var a1, s1 := FinishRound(s);
    var a2, s2 := RoundAlone(s1);
    var a3, s3 := RoundAlone(s2);
    ReachOn(s, a1, s1, a2, s2);
    ReachOn(s, a1 + a2, s2, a3, s3);
    acts := a1 + a2 + a3;
    RunKeepsInv(s, acts);
    NothingBehind(s3);
  }

  lemma NothingBehind(s: State)
    requires Ledger(s) && s.pc.Top? && s.writeQueue == [] && s.tmpQueue == []
    ensures multiset(s.accepted) == multiset(s.file) + multiset(LogRecords(s))
  {
    assert Out(s) == s.file;
    assert Behind(s) == LogRecords(s);
  }

  /* ---------- What does not hold ---------- */

  lemma RunFirst(s: State, a: Action, rest: seq<Action>)
    requires Enabled(s, a) && CanRun(Apply(s, a), rest)
    ensures CanRun(s, [a] + rest) && Run(s, [a] + rest) == Run(Apply(s, a), rest)
  {
    assert ([a] + rest)[1..] == rest;
  }

  // A message is queued and set aside in tmp_buffers_; another one, accepted next, is queued and written first.
  const OVERTAKE: seq<Action> := [Flush, TestEmpty, WriteFile]

  ghost predicate FirstSetAside(s: State) {
    && s.pc == Draining && s.left == 0 && s.writeQueue == [] && s.tmpQueue == [0] && s.log == 1 && s.next == 2
    && s.spare == [] && s.lost == 0 && s.file == []
    && Get(s.heap, 0).records == [Message(0, "a")] && Get(s.heap, 1) == Buffer([], MEM_BUFFER_SIZE)
    && s.accepted == [Message(0, "a")]
  }

  ghost predicate AtStart(s: State) {
    && s.pc == Top && s.left == 0 && s.writeQueue == [] && s.tmpQueue == [] && s.log == 0 && s.next == 2
    && s.spare == [1] && s.lost == 0 && s.file == [] && s.accepted == []
    && Get(s.heap, 0) == Buffer([], MEM_BUFFER_SIZE) && Get(s.heap, 1) == Buffer([], MEM_BUFFER_SIZE)
  }

  ghost predicate FirstAccepted(s: State) {
    && s.pc == Top && s.left == 0 && s.writeQueue == [] && s.tmpQueue == [] && s.log == 0 && s.next == 2
    && s.spare == [1] && s.lost == 0 && s.file == [] && s.accepted == [Message(0, "a")]
    && Get(s.heap, 0).records == [Message(0, "a")] && Get(s.heap, 1) == Buffer([], MEM_BUFFER_SIZE)
  }

  lemma FirstIsAccepted(s: State)
    requires AtStart(s)
    ensures FirstAccepted(Apply(s, Output("a", 0)))
  {
    assert MakeRoom(s, 1) == s;
  }

  lemma FirstIsQueued(s: State)
    requires FirstAccepted(s)
    ensures CanRun(s, [Flush, Lock]) && FirstSetAside(Run(s, [Flush, Lock]))
  {
    assert Size(LogRecords(s)) == 1;
    var s1 := Apply(s, Flush);
    RunFirst(s1, Lock, []);
    RunFirst(s, Flush, [Lock]);
  }

  lemma FirstIsSetAside() returns (acts: seq<Action>)
    ensures CanRun(Init, acts) && FirstSetAside(Run(Init, acts))
  {
    assert AtStart(Init);
    FirstIsAccepted(Init);
    FirstIsQueued(Apply(Init, Output("a", 0)));
    RunFirst(Init, Output("a", 0), [Flush, Lock]);
    acts := [Output("a", 0)] + [Flush, Lock];
  }

  ghost predicate SecondAccepted(s: State) {
    && s.pc == Draining && s.left == 0 && s.writeQueue == [] && s.spare == [] && s.log == 1 && s.next == 2
    && Get(s.heap, 1).records == [Message(1, "b")] && s.file == []
    && s.accepted == [Message(0, "a"), Message(1, "b")]
  }

  lemma SecondIsAccepted(s: State)
    requires FirstSetAside(s)
    ensures SecondAccepted(Apply(s, Output("b", 0)))
  {
    assert MakeRoom(s, 1) == s;
  }

  lemma SecondOvertakes(s: State)
    requires SecondAccepted(s)
    ensures CanRun(s, OVERTAKE)
    ensures Run(s, OVERTAKE).accepted == s.accepted && Run(s, OVERTAKE).file == [Message(1, "b")]
  {
    assert Size(LogRecords(s)) == 1;
    var s1 := Apply(s, Flush);
    assert s1.writeQueue == [1] && Get(s1.heap, 1) == Get(s.heap, 1);
    var s2 := Apply(s1, TestEmpty);
    RunFirst(s2, WriteFile, []);
    RunFirst(s1, TestEmpty, [WriteFile]);
    RunFirst(s, Flush, [TestEmpty, WriteFile]);
  }

  // So the file can be out of order.
  lemma FileIsNotInOrder()
    ensures exists acts :: SecondIsWrittenFirst(acts)
  {
    var acts := FirstIsSetAside();
    SecondIsWrittenFirstAfter(acts);
  }

  lemma SecondIsWrittenFirstAfter(acts: seq<Action>)
    requires CanRun(Init, acts) && FirstSetAside(Run(Init, acts))
    ensures SecondIsWrittenFirst(acts + ([Output("b", 0)] + OVERTAKE))
  {
    var s := Run(Init, acts);
    SecondIsAccepted(s);
    SecondOvertakes(Apply(s, Output("b", 0)));
    RunFirst(s, Output("b", 0), OVERTAKE);
    RunAppend(Init, acts, [Output("b", 0)] + OVERTAKE);
  }

  ghost predicate SecondIsWrittenFirst(acts: seq<Action>) {
    CanRun(Init, acts) &&
    Run(Init, acts).accepted == [Message(0, "a"), Message(1, "b")] && Run(Init, acts).file == [Message(1, "b")]
  }

  lemma {:induction false} RunAppend(s: State, a: seq<Action>, b: seq<Action>)
    requires CanRun(s, a) && CanRun(Run(s, a), b)
    ensures CanRun(s, a + b) && Run(s, a + b) == Run(Run(s, a), b)
    decreases a
  {
    if a == [] {
      assert a + b == b;
    } else {
      assert (a + b)[1..] == a[1..] + b;
      RunAppend(Apply(s, a[0]), a[1..], b);
    }
  }
}
