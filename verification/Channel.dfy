/**
 Channels, and what callbacks and closures do to them (water/net/channel.h, water/net/channel.cc). The
 second half says on values, as a specification of the reactor, what any number of operations, callbacks
 and rounds of the loop come to, and when an assertion of the source stops the program.
 */
module Channels {

  // The event mask of a channel: POLLIN | POLLPRI, and POLLOUT.
  datatype Mask = Mask(read: bool, write: bool)

  const NONE_EVENT := Mask(false, false)

  // What epoll_wait reports about one descriptor: POLLNVAL or POLLERR; POLLIN, POLLPRI or POLLRDHUP; POLLOUT.
  datatype Revents = Revents(error: bool, readable: bool, writable: bool)

  // kNew, kAdded, kDeleted
  datatype Index = New | Added | Deleted

  class Channel {
    const fd: int
    var events: Mask
    var revents: Revents
    var index: Index

    constructor (fd: int)
      ensures this.fd == fd && events == NONE_EVENT && index == New
    {
      this.fd := fd;
      events := NONE_EVENT;
      revents := Revents(false, false, false);
      index := New;
    }
  }

  datatype Report = Report(fd: int, revents: Revents)

  datatype WaitResult = Events(reports: seq<Report>) | Timeout | WaitError

  function Reports(r: WaitResult): seq<Report> {
    if r.Events? then r.reports else []
  }

  // What a callback, or any code on the loop thread, can do to a channel.
  datatype ChannelOp =
    | EnableReading(chan: Channel)
    | DisableReading(chan: Channel)
    | EnableWriting(chan: Channel)
    | DisableWriting(chan: Channel)
    | DisableAll(chan: Channel)
    | Remove(chan: Channel)

  function NewMask(mask: Mask, op: ChannelOp): Mask {
    match op
    case EnableReading(_) => mask.(read := true)
    case DisableReading(_) => mask.(read := false)
    case EnableWriting(_) => mask.(write := true)
    case DisableWriting(_) => mask.(write := false)
    case DisableAll(_) => NONE_EVENT
    case Remove(_) => mask
  }

  datatype Callback = OnError | OnRead | OnWrite

  // History: a callback of the channel with this descriptor was called; inMap: the channel was in the
  // poller's map then.
  datatype Call = Call(fd: int, callback: Callback, inMap: bool)

  /* ---------- What operations do ---------- */

  datatype Entry = Entry(mask: Mask, index: Index)

  // The channels of a loop, and the poller's map. Epoll's interest set follows from them.
  datatype View = View(entries: map<Channel, Entry>, channels: map<int, Channel>)

  function EntryOf(v: View, c: Channel): Entry {
    if c in v.entries then v.entries[c] else Entry(NONE_EVENT, New)
  }

  predicate InMap(v: View, c: Channel) {
    EntryOf(v, c).index != New
  }

  // Whether the loop is dispatching events, and of which channels.
  datatype Context = Idle | Handling(active: seq<Channel>, current: Channel)

  // The assertions of Channel::Remove, EventLoop::RemoveChannel and Poller::UpdateChannel, for a
  // channel of this loop. Where one fails, the program aborts.
  predicate Allowed(v: View, ctx: Context, op: ChannelOp) {
    if op.Remove? then
      && EntryOf(v, op.chan).mask == NONE_EVENT
      && (ctx.Handling? ==> ctx.current == op.chan || op.chan !in ctx.active)
      && InMap(v, op.chan)
    else
      !InMap(v, op.chan) ==> op.chan.fd !in v.channels
  }

  function Effect(v: View, op: ChannelOp): View {
    var e := EntryOf(v, op.chan);
    if op.Remove? then
      View(v.entries[op.chan := e.(index := New)], v.channels - {op.chan.fd})
    else
      var mask := NewMask(e.mask, op);
      var index := if e.index == Added && mask == NONE_EVENT then Deleted else Added;
      View(v.entries[op.chan := Entry(mask, index)], v.channels[op.chan.fd := op.chan])
  }

  datatype Outcome = Outcome(view: View, calls: seq<Call>, aborted: bool)

  function AfterOp(o: Outcome, ctx: Context, op: ChannelOp): Outcome {
    if o.aborted then o
    else if Allowed(o.view, ctx, op) then o.(view := Effect(o.view, op))
    else o.(aborted := true)
  }

  function AfterOps(o: Outcome, ctx: Context, ops: seq<ChannelOp>): Outcome {
    if ops == [] then o else AfterOp(AfterOps(o, ctx, ops[..|ops| - 1]), ctx, ops[|ops| - 1])
  }

  /* ---------- What callbacks and rounds do ---------- */

  // One call of a callback, and what the callback does.
  datatype Turn = Turn(chan: Channel, callback: Callback, ops: seq<ChannelOp>)

  function AfterTurn(o: Outcome, active: seq<Channel>, turn: Turn): Outcome {
    if o.aborted then o
    else
      var call := Call(turn.chan.fd, turn.callback, InMap(o.view, turn.chan));
      AfterOps(o.(calls := o.calls + [call]), Handling(active, turn.chan), turn.ops)
  }

  function AfterTurns(o: Outcome, active: seq<Channel>, turns: seq<Turn>): Outcome {
    if turns == [] then o
    else AfterTurn(AfterTurns(o, active, turns[..|turns| - 1]), active, turns[|turns| - 1])
  }

  // What the callbacks of the active channels do: script(i, k) is for the callback of kind k of the
  // channel at position i.
  type Script = (nat, Callback) -> seq<ChannelOp>

  function TurnIf(reported: bool, chan: Channel, callback: Callback, ops: seq<ChannelOp>): seq<Turn> {
    if reported then [Turn(chan, callback, ops)] else []
  }

  // The callbacks that a report is for, in the order of HandleEventSafely.
  function TurnsFor(chan: Channel, r: Revents, i: nat, script: Script): seq<Turn> {
    TurnIf(r.error, chan, OnError, script(i, OnError))
    + TurnIf(r.readable, chan, OnRead, script(i, OnRead))
    + TurnIf(r.writable, chan, OnWrite, script(i, OnWrite))
  }

  function TurnsForAll(active: seq<Channel>, reports: seq<Report>, script: Script): seq<Turn>
    requires |active| == |reports|
  {
    if active == [] then []
    else
      var n := |active| - 1;
      TurnsForAll(active[..n], reports[..n], script) + TurnsFor(active[n], reports[n].revents, n, script)
  }

  // One round of Loop: what epoll_wait returns, what the callbacks do, and what the queued closures do.
  datatype Round = Round(wait: WaitResult, script: Script, closures: seq<ChannelOp>)

  predicate Known(channels: map<int, Channel>, reports: seq<Report>) {
    forall i :: 0 <= i < |reports| ==> reports[i].fd in channels
  }

  function ActiveIn(channels: map<int, Channel>, reports: seq<Report>): (active: seq<Channel>)
    requires Known(channels, reports)
    ensures |active| == |reports| && forall i :: 0 <= i < |active| ==> active[i] == channels[reports[i].fd]
  {
    seq(|reports|, i requires 0 <= i < |reports| => channels[reports[i].fd])
  }

  function AfterDispatch(o: Outcome, reports: seq<Report>, script: Script): Outcome
    requires Known(o.view.channels, reports)
  {
    var active := ActiveIn(o.view.channels, reports);
    AfterTurns(o, active, TurnsForAll(active, reports, script))
  }

  function AfterRound(o: Outcome, round: Round): Outcome
    requires Known(o.view.channels, Reports(round.wait))
  {
    AfterOps(AfterDispatch(o, Reports(round.wait), round.script), Idle, round.closures)
  }

  // All rounds, until one is reported that cannot be, or the program aborts.
  function AfterRounds(o: Outcome, rounds: seq<Round>): Outcome {
    if rounds == [] then o
    else
      var p := AfterRounds(o, rounds[..|rounds| - 1]);
      var round := rounds[|rounds| - 1];
      if p.aborted || !Known(p.view.channels, Reports(round.wait)) then p else AfterRound(p, round)
  }

  lemma {:induction false} AbortedStays(o: Outcome, ctx: Context, ops: seq<ChannelOp>)
    requires o.aborted
    ensures AfterOps(o, ctx, ops) == o
  {
    if ops != [] {
      AbortedStays(o, ctx, ops[..|ops| - 1]);
    }
  }

  lemma {:induction false} TurnsConcat(o: Outcome, active: seq<Channel>, a: seq<Turn>, b: seq<Turn>)
    ensures AfterTurns(o, active, a + b) == AfterTurns(AfterTurns(o, active, a), active, b)
  {
    if b == [] {
      assert a + b == a;
    } else {
      var front := b[..|b| - 1];
      assert (a + b)[..|a + b| - 1] == a + front;
      TurnsConcat(o, active, a, front);
    }
  }

  lemma OneTurn(o: Outcome, active: seq<Channel>, turn: Turn)
    ensures AfterTurns(o, active, [turn]) == AfterTurn(o, active, turn)
  {
    assert [turn][..0] == [];
  }

  lemma OneMoreOp(o: Outcome, ctx: Context, ops: seq<ChannelOp>, i: nat)
    requires i < |ops|
    ensures AfterOps(o, ctx, ops[..i + 1]) == AfterOp(AfterOps(o, ctx, ops[..i]), ctx, ops[i])
  {
    assert ops[..i + 1][..i] == ops[..i];
  }

  // Nothing happens behind a failed assertion.
  lemma {:induction false} AbortedForGood(o: Outcome, ctx: Context, ops: seq<ChannelOp>, i: nat)
    requires i <= |ops| && AfterOps(o, ctx, ops[..i]).aborted
    ensures AfterOps(o, ctx, ops) == AfterOps(o, ctx, ops[..i])
    decreases |ops|
  {
    if i < |ops| {
      assert ops[..|ops| - 1][..i] == ops[..i];
      AbortedForGood(o, ctx, ops[..|ops| - 1], i);
    } else {
      assert ops[..i] == ops;
    }
  }

  lemma NextTurns(active: seq<Channel>, reports: seq<Report>, script: Script, i: nat)
    requires |active| == |reports| && i < |active|
    ensures TurnsForAll(active[..i + 1], reports[..i + 1], script) ==
              TurnsForAll(active[..i], reports[..i], script) + TurnsFor(active[i], reports[i].revents, i, script)
  {
    assert active[..i + 1][..i] == active[..i] && reports[..i + 1][..i] == reports[..i];
  }

  // The turns of the first n active channels.
  function AfterReports(o: Outcome, active: seq<Channel>, reports: seq<Report>, script: Script, n: nat): Outcome
    requires |active| == |reports| && n <= |active|
  {
    AfterTurns(o, active, TurnsForAll(active[..n], reports[..n], script))
  }

  lemma NoReports(o: Outcome, active: seq<Channel>, reports: seq<Report>, script: Script)
    requires |active| == |reports|
    ensures AfterReports(o, active, reports, script, 0) == o
  {
  }

  lemma AllReports(o: Outcome, active: seq<Channel>, reports: seq<Report>, script: Script)
    requires |active| == |reports|
    ensures AfterReports(o, active, reports, script, |active|) == AfterTurns(o, active, TurnsForAll(active, reports, script))
  {
    assert active[..|active|] == active && reports[..|reports|] == reports;
  }

  lemma OneMoreReport(o: Outcome, active: seq<Channel>, reports: seq<Report>, script: Script, i: nat)
    requires |active| == |reports| && i < |active|
    ensures AfterReports(o, active, reports, script, i + 1) ==
              AfterTurns(AfterReports(o, active, reports, script, i), active, TurnsFor(active[i], reports[i].revents, i, script))
  {
    NextTurns(active, reports, script, i);
    TurnsConcat(o, active, TurnsForAll(active[..i], reports[..i], script), TurnsFor(active[i], reports[i].revents, i, script));
  }

  lemma {:induction false} AbortedTurns(o: Outcome, active: seq<Channel>, turns: seq<Turn>)
    requires o.aborted
    ensures AfterTurns(o, active, turns) == o
  {
    if turns != [] {
      AbortedTurns(o, active, turns[..|turns| - 1]);
    }
  }

  lemma {:induction false} AbortedDispatch(o: Outcome, active: seq<Channel>, reports: seq<Report>, script: Script, i: nat)
    requires |active| == |reports| && i <= |active|
    requires AfterReports(o, active, reports, script, i).aborted
    ensures AfterTurns(o, active, TurnsForAll(active, reports, script)) ==
              AfterReports(o, active, reports, script, i)
    decreases |active| - i
  {
    if i < |active| {
      OneMoreReport(o, active, reports, script, i);
      AbortedTurns(AfterReports(o, active, reports, script, i), active, TurnsFor(active[i], reports[i].revents, i, script));
      AbortedDispatch(o, active, reports, script, i + 1);
    } else {
      AllReports(o, active, reports, script);
    }
  }

  lemma DispatchIsTurns(o: Outcome, active: seq<Channel>, reports: seq<Report>, script: Script)
    requires Known(o.view.channels, reports) && active == ActiveIn(o.view.channels, reports)
    ensures AfterDispatch(o, reports, script) == AfterTurns(o, active, TurnsForAll(active, reports, script))
  {
  }

  /* ---------- When the program aborts ---------- */

  // The map holds channels of the loop that know that they are in it, each under its own descriptor.
  ghost predicate Consistent(v: View) {
    forall fd :: fd in v.channels ==> v.channels[fd].fd == fd && v.channels[fd] in v.entries && InMap(v, v.channels[fd])
  }

  ghost predicate DistinctFds(v: View) {
    forall c, d :: c in v.entries && d in v.entries && c.fd == d.fd ==> c == d
  }

  ghost predicate OfLoop(v: View, ops: seq<ChannelOp>) {
    forall i :: 0 <= i < |ops| ==> ops[i].chan in v.entries
  }

  // The operation at position i is the one that fails an assertion.
  ghost predicate FailsAt(o: Outcome, ctx: Context, ops: seq<ChannelOp>, i: nat) {
    && i < |ops|
    && !AfterOps(o, ctx, ops[..i]).aborted
    && !Allowed(AfterOps(o, ctx, ops[..i]).view, ctx, ops[i])
  }

  // The program aborts in exactly those runs in which some operation fails.
  lemma {:induction false} AbortsIff(o: Outcome, ctx: Context, ops: seq<ChannelOp>)
    requires !o.aborted
    ensures AfterOps(o, ctx, ops).aborted <==> exists i: nat :: FailsAt(o, ctx, ops, i)
  {
    if ops != [] {
      var n := |ops| - 1;
      AbortsIff(o, ctx, ops[..n]);
      forall i: nat | i < n
        ensures FailsAt(o, ctx, ops[..n], i) <==> FailsAt(o, ctx, ops, i)
      {
        assert ops[..n][..i] == ops[..i];
      }
      if AfterOps(o, ctx, ops[..n]).aborted {
        var i: nat :| FailsAt(o, ctx, ops[..n], i);
        assert FailsAt(o, ctx, ops, i);
      } else if !Allowed(AfterOps(o, ctx, ops[..n]).view, ctx, ops[n]) {
        assert FailsAt(o, ctx, ops, n);
      }
    }
  }

  lemma EffectKeepsConsistent(v: View, op: ChannelOp)
    requires Consistent(v) && op.chan in v.entries
    ensures Consistent(Effect(v, op)) && Effect(v, op).entries.Keys == v.entries.Keys
  {
    assert v.entries.Keys + {op.chan} == v.entries.Keys;
  }

  lemma {:induction false} OpsKeepConsistent(o: Outcome, ctx: Context, ops: seq<ChannelOp>)
    requires Consistent(o.view) && OfLoop(o.view, ops)
    ensures var v := AfterOps(o, ctx, ops).view; Consistent(v) && v.entries.Keys == o.view.entries.Keys
  {
    if ops != [] {
      var n := |ops| - 1;
      OpsKeepConsistent(o, ctx, ops[..n]);
      assert ops[n].chan in o.view.entries;
      EffectKeepsConsistent(AfterOps(o, ctx, ops[..n]).view, ops[n]);
    }
  }

  // With distinct descriptors no enabling or disabling ever fails. The only operation that can is the
  // removal of a channel that still asks for events, is not in the map, or waits for its turn.
  lemma OnlyRemovalsFail(o: Outcome, ctx: Context, ops: seq<ChannelOp>, i: nat)
    requires Consistent(o.view) && DistinctFds(o.view) && OfLoop(o.view, ops)
    requires FailsAt(o, ctx, ops, i)
    ensures var v := AfterOps(o, ctx, ops[..i]).view;
            && ops[i].Remove?
            && (|| EntryOf(v, ops[i].chan).mask != NONE_EVENT
                || !InMap(v, ops[i].chan)
                || (ctx.Handling? && ctx.current != ops[i].chan && ops[i].chan in ctx.active))
  {
    OpsKeepConsistent(o, ctx, ops[..i]);
    var v := AfterOps(o, ctx, ops[..i]).view;
    var c := ops[i].chan;
    assert c in v.entries;
    if c.fd in v.channels {
      assert v.channels[c.fd] == c;
    }
  }

  // Operations on channels of the loop, with no removal among them.
  ghost predicate Harmless(v: View, ops: seq<ChannelOp>) {
    OfLoop(v, ops) && forall i :: 0 <= i < |ops| ==> !ops[i].Remove?
  }

  ghost predicate Running(o: Outcome, universe: set<Channel>) {
    !o.aborted && Consistent(o.view) && DistinctFds(o.view) && o.view.entries.Keys == universe
  }

  lemma HarmlessOpsRun(o: Outcome, ctx: Context, ops: seq<ChannelOp>, universe: set<Channel>)
    requires Running(o, universe) && Harmless(o.view, ops)
    ensures Running(AfterOps(o, ctx, ops), universe)
  {
    OpsKeepConsistent(o, ctx, ops);
    AbortsIff(o, ctx, ops);
    if AfterOps(o, ctx, ops).aborted {
      var i: nat :| FailsAt(o, ctx, ops, i);
      OnlyRemovalsFail(o, ctx, ops, i);
      assert false;
    }
  }

  ghost predicate HarmlessTurns(v: View, turns: seq<Turn>) {
    forall i :: 0 <= i < |turns| ==> Harmless(v, turns[i].ops)
  }

  lemma {:induction false} HarmlessTurnsRun(o: Outcome, active: seq<Channel>, turns: seq<Turn>, universe: set<Channel>)
    requires Running(o, universe) && HarmlessTurns(o.view, turns)
    ensures Running(AfterTurns(o, active, turns), universe)
  {
    if turns != [] {
      var n := |turns| - 1;
      HarmlessTurnsRun(o, active, turns[..n], universe);
      var p := AfterTurns(o, active, turns[..n]);
      var call := Call(turns[n].chan.fd, turns[n].callback, InMap(p.view, turns[n].chan));
      assert Harmless(p.view, turns[n].ops);
      HarmlessOpsRun(p.(calls := p.calls + [call]), Handling(active, turns[n].chan), turns[n].ops, universe);
    }
  }

  ghost predicate HarmlessRound(v: View, round: Round) {
    (forall i: nat, k: Callback :: Harmless(v, round.script(i, k))) && Harmless(v, round.closures)
  }

  lemma {:induction false} HarmlessScript(v: View, active: seq<Channel>, reports: seq<Report>, script: Script)
    requires |active| == |reports| && forall i: nat, k: Callback :: Harmless(v, script(i, k))
    ensures HarmlessTurns(v, TurnsForAll(active, reports, script))
  {
    if active != [] {
      var n := |active| - 1;
      HarmlessScript(v, active[..n], reports[..n], script);
      assert HarmlessTurns(v, TurnsFor(active[n], reports[n].revents, n, script));
    }
  }

  // Without removals the program never aborts, whatever epoll_wait reports and the callbacks do.
  lemma {:induction false} HarmlessRoundsRun(o: Outcome, rounds: seq<Round>, universe: set<Channel>)
    requires Running(o, universe) && forall i :: 0 <= i < |rounds| ==> HarmlessRound(o.view, rounds[i])
    ensures Running(AfterRounds(o, rounds), universe)
  {
    if rounds != [] {
      var n := |rounds| - 1;
      HarmlessRoundsRun(o, rounds[..n], universe);
      var p, round := AfterRounds(o, rounds[..n]), rounds[n];
      assert HarmlessRound(p.view, round);
      if Known(p.view.channels, Reports(round.wait)) {
        var active := ActiveIn(p.view.channels, Reports(round.wait));
        HarmlessScript(p.view, active, Reports(round.wait), round.script);
        HarmlessTurnsRun(p, active, TurnsForAll(active, Reports(round.wait), round.script), universe);
        HarmlessOpsRun(AfterDispatch(p, Reports(round.wait), round.script), Idle, round.closures, universe);
      }
    }
  }

  // Distinct descriptors, and no removal anywhere.
  ghost predicate NothingRemoved(v: View, rounds: seq<Round>) {
    DistinctFds(v) && forall i :: 0 <= i < |rounds| ==> HarmlessRound(v, rounds[i])
  }

  lemma NothingRemovedRuns(o: Outcome, rounds: seq<Round>, n: nat)
    requires !o.aborted && Consistent(o.view) && n <= |rounds|
    ensures NothingRemoved(o.view, rounds) ==> !AfterRounds(o, rounds[..n]).aborted
  {
    if NothingRemoved(o.view, rounds) {
      HarmlessRoundsRun(o, rounds[..n], o.view.entries.Keys);
    }
  }

  /* ---------- Which channels are in the map when they are called ---------- */

  // An operation during dispatch takes no channel out of the map whose turn is still to come.
  lemma {:induction false} OpsKeepOthers(o: Outcome, active: seq<Channel>, current: Channel, ops: seq<ChannelOp>, c: Channel)
    requires c in active && c != current && InMap(o.view, c)
    ensures InMap(AfterOps(o, Handling(active, current), ops).view, c)
  {
    if ops != [] {
      OpsKeepOthers(o, active, current, ops[..|ops| - 1], c);
    }
  }

  predicate Spare(turns: seq<Turn>, c: Channel) {
    forall i :: 0 <= i < |turns| ==> turns[i].chan != c
  }

  lemma {:induction false} TurnsKeepOthers(o: Outcome, active: seq<Channel>, turns: seq<Turn>, c: Channel)
    requires c in active && InMap(o.view, c) && Spare(turns, c)
    ensures InMap(AfterTurns(o, active, turns).view, c)
  {
    if turns != [] {
      var n := |turns| - 1;
      TurnsKeepOthers(o, active, turns[..n], c);
      var p := AfterTurns(o, active, turns[..n]);
      if !p.aborted {
        var call := Call(turns[n].chan.fd, turns[n].callback, InMap(p.view, turns[n].chan));
        OpsKeepOthers(p.(calls := p.calls + [call]), active, turns[n].chan, turns[n].ops, c);
      }
    }
  }

  lemma {:induction false} TurnsAreOfActive(active: seq<Channel>, reports: seq<Report>, script: Script, c: Channel)
    requires |active| == |reports| && forall i :: 0 <= i < |active| ==> active[i] != c
    ensures Spare(TurnsForAll(active, reports, script), c)
  {
    if active != [] {
      var n := |active| - 1;
      TurnsAreOfActive(active[..n], reports[..n], script, c);
      assert Spare(TurnsFor(active[n], reports[n].revents, n, script), c);
    }
  }

  // Dispatch safety: when the turn of the i-th active channel comes, it is still in the map, whatever
  // earlier callbacks updated, added or removed.
  lemma DispatchSafety(o: Outcome, active: seq<Channel>, reports: seq<Report>, script: Script, i: nat)
    requires |active| == |reports| && i < |active|
    requires forall j :: 0 <= j < |active| ==> InMap(o.view, active[j])
    requires forall j, k :: 0 <= j < k < |active| ==> active[j] != active[k]
    ensures InMap(AfterReports(o, active, reports, script, i).view, active[i])
  {
    TurnsAreOfActive(active[..i], reports[..i], script, active[i]);
    TurnsKeepOthers(o, active, TurnsForAll(active[..i], reports[..i], script), active[i]);
  }

  // Whether c is in the map after some operations: the last one on c decides.
  function InMapAfter(was: bool, ops: seq<ChannelOp>, c: Channel): bool {
    if ops == [] then was
    else if ops[|ops| - 1].chan == c then !ops[|ops| - 1].Remove?
    else InMapAfter(was, ops[..|ops| - 1], c)
  }

  lemma {:induction false} OpsDecideMap(o: Outcome, ctx: Context, ops: seq<ChannelOp>, c: Channel)
    requires !AfterOps(o, ctx, ops).aborted
    ensures InMap(AfterOps(o, ctx, ops).view, c) == InMapAfter(InMap(o.view, c), ops, c)
  {
    if ops != [] {
      OpsDecideMap(o, ctx, ops[..|ops| - 1], c);
    }
  }

  lemma {:induction false} CallsGrow(o: Outcome, ctx: Context, ops: seq<ChannelOp>)
    ensures AfterOps(o, ctx, ops).calls == o.calls
  {
    if ops != [] {
      CallsGrow(o, ctx, ops[..|ops| - 1]);
    }
  }

  function OpsOf(turns: seq<Turn>): seq<ChannelOp> {
    if turns == [] then [] else OpsOf(turns[..|turns| - 1]) + turns[|turns| - 1].ops
  }

  lemma {:induction false} InMapAfterConcat(was: bool, a: seq<ChannelOp>, b: seq<ChannelOp>, c: Channel)
    ensures InMapAfter(was, a + b, c) == InMapAfter(InMapAfter(was, a, c), b, c)
  {
    if b == [] {
      assert a + b == a;
    } else {
      assert (a + b)[..|a + b| - 1] == a + b[..|b| - 1];
      InMapAfterConcat(was, a, b[..|b| - 1], c);
    }
  }

  lemma {:induction false} TurnsDecideMap(o: Outcome, active: seq<Channel>, turns: seq<Turn>, c: Channel)
    requires !AfterTurns(o, active, turns).aborted
    ensures InMap(AfterTurns(o, active, turns).view, c) == InMapAfter(InMap(o.view, c), OpsOf(turns), c)
  {
    if turns != [] {
      var n := |turns| - 1;
      TurnsDecideMap(o, active, turns[..n], c);
      var p := AfterTurns(o, active, turns[..n]);
      var call := Call(turns[n].chan.fd, turns[n].callback, InMap(p.view, turns[n].chan));
      OpsDecideMap(p.(calls := p.calls + [call]), Handling(active, turns[n].chan), turns[n].ops, c);
      InMapAfterConcat(InMap(o.view, c), OpsOf(turns[..n]), turns[n].ops, c);
    }
  }

  // A later callback of the same report is called also when an earlier one has removed the channel: it
  // finds its channel in the map if and only if the last thing that the earlier ones did to the channel is
  // not its removal.
  lemma LaterCallInMapIff(o: Outcome, active: seq<Channel>, earlier: seq<Turn>, turn: Turn)
    requires InMap(o.view, turn.chan) && !AfterTurns(o, active, earlier).aborted
    ensures var p := AfterTurns(o, active, earlier);
            AfterTurn(p, active, turn).calls ==
              p.calls + [Call(turn.chan.fd, turn.callback, InMapAfter(true, OpsOf(earlier), turn.chan))]
  {
    TurnsDecideMap(o, active, earlier, turn.chan);
    var p := AfterTurns(o, active, earlier);
    var call := Call(turn.chan.fd, turn.callback, InMap(p.view, turn.chan));
    CallsGrow(p.(calls := p.calls + [call]), Handling(active, turn.chan), turn.ops);
  }

  // That happens: a channel is reported readable and writable, and its read callback removes it.
  lemma RemovedChannelIsCalled(o: Outcome, c: Channel, i: nat, script: Script)
    requires !o.aborted && InMap(o.view, c)
    requires script(i, OnRead) == [DisableAll(c), Remove(c)] && script(i, OnWrite) == []
    ensures var p := AfterTurns(o, [c], TurnsFor(c, Revents(false, true, true), i, script));
            !p.aborted && p.calls == o.calls + [Call(c.fd, OnRead, true), Call(c.fd, OnWrite, false)]
  {
    var read, write := Turn(c, OnRead, [DisableAll(c), Remove(c)]), Turn(c, OnWrite, []);
    var o1 := o.(calls := o.calls + [Call(c.fd, OnRead, true)]);
    RemovingTakesOut(o1, Handling([c], c), c);
    var p := AfterTurn(o, [c], read);
    OneTurn(o, [c], read);
    OneTurn(p, [c], write);
    TurnsConcat(o, [c], [read], [write]);
    assert TurnsFor(c, Revents(false, true, true), i, script) == [read] + [write];
  }

  lemma RemovingTakesOut(o: Outcome, ctx: Context, c: Channel)
    requires !o.aborted && InMap(o.view, c) && (ctx.Handling? ==> ctx.current == c)
    ensures var p := AfterOps(o, ctx, [DisableAll(c), Remove(c)]);
            !p.aborted && !InMap(p.view, c) && p.calls == o.calls
  {
    var ops := [DisableAll(c), Remove(c)];
    OneMoreOp(o, ctx, ops, 0);
    OneMoreOp(o, ctx, ops, 1);
    assert ops[..0] == [] && ops[..2] == ops;
  }

  /* ---------- Which events a channel asks for ---------- */

  // The write bit of c after some operations: the last one that enables or disables writing decides.
  function WantsWrite(was: bool, ops: seq<ChannelOp>, c: Channel): bool {
    if ops == [] then was
    else
      var last := ops[|ops| - 1];
      if last == EnableWriting(c) then true
      else if last == DisableWriting(c) || last == DisableAll(c) then false
      else WantsWrite(was, ops[..|ops| - 1], c)
  }

  function WantsRead(was: bool, ops: seq<ChannelOp>, c: Channel): bool {
    if ops == [] then was
    else
      var last := ops[|ops| - 1];
      if last == EnableReading(c) then true
      else if last == DisableReading(c) || last == DisableAll(c) then false
      else WantsRead(was, ops[..|ops| - 1], c)
  }

  // After any operations, each of the two events is asked for as the last operation about it says; other
  // operations, on this channel or others, do not matter.
  lemma {:induction false} OpsDecideMask(o: Outcome, ctx: Context, ops: seq<ChannelOp>, c: Channel)
    requires !AfterOps(o, ctx, ops).aborted
    ensures var was, now := EntryOf(o.view, c).mask, EntryOf(AfterOps(o, ctx, ops).view, c).mask;
            now.write == WantsWrite(was.write, ops, c) && now.read == WantsRead(was.read, ops, c)
  {
    if ops != [] {
      OpsDecideMask(o, ctx, ops[..|ops| - 1], c);
    }
  }

  // A channel that is in the map but not watched by epoll asks for nothing.
  lemma {:induction false} UnwatchedAsksForNothing(o: Outcome, ctx: Context, ops: seq<ChannelOp>, c: Channel)
    requires EntryOf(o.view, c).index == Deleted ==> EntryOf(o.view, c).mask == NONE_EVENT
    ensures var e := EntryOf(AfterOps(o, ctx, ops).view, c);
            e.index == Deleted ==> e.mask == NONE_EVENT
  {
    if ops != [] {
      UnwatchedAsksForNothing(o, ctx, ops[..|ops| - 1], c);
    }
  }

  lemma {:induction false} WantsWriteConcat(was: bool, a: seq<ChannelOp>, b: seq<ChannelOp>, c: Channel)
    ensures WantsWrite(was, a + b, c) == WantsWrite(WantsWrite(was, a, c), b, c)
    ensures WantsRead(was, a + b, c) == WantsRead(WantsRead(was, a, c), b, c)
  {
    if b == [] {
      assert a + b == a;
    } else {
      assert (a + b)[..|a + b| - 1] == a + b[..|b| - 1];
      WantsWriteConcat(was, a, b[..|b| - 1], c);
    }
  }

  lemma {:induction false} TurnsDecideMask(o: Outcome, active: seq<Channel>, turns: seq<Turn>, c: Channel)
    requires !AfterTurns(o, active, turns).aborted
    ensures var was, now := EntryOf(o.view, c).mask, EntryOf(AfterTurns(o, active, turns).view, c).mask;
            && now.write == WantsWrite(was.write, OpsOf(turns), c)
            && now.read == WantsRead(was.read, OpsOf(turns), c)
  {
    if turns != [] {
      var n := |turns| - 1;
      var was := EntryOf(o.view, c).mask;
      TurnsDecideMask(o, active, turns[..n], c);
      var p := AfterTurns(o, active, turns[..n]);
      var call := Call(turns[n].chan.fd, turns[n].callback, InMap(p.view, turns[n].chan));
      OpsDecideMask(p.(calls := p.calls + [call]), Handling(active, turns[n].chan), turns[n].ops, c);
      WantsWriteConcat(was.write, OpsOf(turns[..n]), turns[n].ops, c);
      WantsWriteConcat(was.read, OpsOf(turns[..n]), turns[n].ops, c);
    }
  }

  // All operations of a round: those of the callbacks that are called, and those of the closures behind.
  function OpsOfRound(channels: map<int, Channel>, round: Round): seq<ChannelOp>
    requires Known(channels, Reports(round.wait))
  {
    OpsOf(TurnsForAll(ActiveIn(channels, Reports(round.wait)), Reports(round.wait), round.script)) + round.closures
  }

  // Everything that callbacks and closures of a round do to a channel takes effect, the closures last.
  lemma RoundDecides(o: Outcome, round: Round, c: Channel)
    requires Known(o.view.channels, Reports(round.wait)) && !AfterRound(o, round).aborted
    ensures var ops := OpsOfRound(o.view.channels, round);
            var was, now := EntryOf(o.view, c), EntryOf(AfterRound(o, round).view, c);
            && now.mask.write == WantsWrite(was.mask.write, ops, c)
            && now.mask.read == WantsRead(was.mask.read, ops, c)
            && InMap(AfterRound(o, round).view, c) == InMapAfter(InMap(o.view, c), ops, c)
  {
    var p := AfterDispatch(o, Reports(round.wait), round.script);
    if p.aborted {
      AbortedStays(p, Idle, round.closures);
      assert false;
    } else {
      var active := ActiveIn(o.view.channels, Reports(round.wait));
      var turns := TurnsForAll(active, Reports(round.wait), round.script);
      var was := EntryOf(o.view, c);
      TurnsDecideMask(o, active, turns, c);
      TurnsDecideMap(o, active, turns, c);
      OpsDecideMask(p, Idle, round.closures, c);
      OpsDecideMap(p, Idle, round.closures, c);
      WantsWriteConcat(was.mask.write, OpsOf(turns), round.closures, c);
      WantsWriteConcat(was.mask.read, OpsOf(turns), round.closures, c);
      InMapAfterConcat(InMap(o.view, c), OpsOf(turns), round.closures, c);
    }
  }

  /* ---------- Which callbacks a report is for ---------- */

  predicate IsReported(r: Revents, callback: Callback) {
    match callback
    case OnError => r.error
    case OnRead => r.readable
    case OnWrite => r.writable
  }

  // A callback gets a turn if and only if its event is reported; it does then what its script says, and
  // no callback gets two.
  lemma TurnsAreForReported(chan: Channel, r: Revents, i: nat, script: Script, callback: Callback)
    ensures var turns := TurnsFor(chan, r, i, script);
            && (Turn(chan, callback, script(i, callback)) in turns <==> IsReported(r, callback))
            && (forall k :: 0 <= k < |turns| ==>
                  turns[k] == Turn(chan, turns[k].callback, script(i, turns[k].callback)) && IsReported(r, turns[k].callback))
            && (forall j, k :: 0 <= j < k < |turns| ==> turns[j].callback != turns[k].callback)
  {
    var turns := TurnsFor(chan, r, i, script);
    var a, b := TurnIf(r.error, chan, OnError, script(i, OnError)), TurnIf(r.readable, chan, OnRead, script(i, OnRead));
    var c := TurnIf(r.writable, chan, OnWrite, script(i, OnWrite));
    assert turns == a + b + c;
    assert r.error ==> turns[0] == Turn(chan, OnError, script(i, OnError));
    assert r.readable ==> turns[|a|] == Turn(chan, OnRead, script(i, OnRead));
    assert r.writable ==> turns[|a| + |b|] == Turn(chan, OnWrite, script(i, OnWrite));
  }

  // The callbacks of the turns, and those of the calls made.
  function CallbacksOf(turns: seq<Turn>): seq<(int, Callback)> {
    if turns == [] then []
    else CallbacksOf(turns[..|turns| - 1]) + [(turns[|turns| - 1].chan.fd, turns[|turns| - 1].callback)]
  }

  function Called(calls: seq<Call>): seq<(int, Callback)> {
    if calls == [] then []
    else Called(calls[..|calls| - 1]) + [(calls[|calls| - 1].fd, calls[|calls| - 1].callback)]
  }

  // Every turn is a call, in the order of the turns, as long as nothing aborts.
  lemma {:induction false} EveryTurnIsCalled(o: Outcome, active: seq<Channel>, turns: seq<Turn>)
    requires !AfterTurns(o, active, turns).aborted
    ensures Called(AfterTurns(o, active, turns).calls) == Called(o.calls) + CallbacksOf(turns)
  {
    if turns == [] {
      assert Called(o.calls) + [] == Called(o.calls);
    } else {
      var n := |turns| - 1;
      EveryTurnIsCalled(o, active, turns[..n]);
      var p := AfterTurns(o, active, turns[..n]);
      var call := Call(turns[n].chan.fd, turns[n].callback, InMap(p.view, turns[n].chan));
      CallsGrow(p.(calls := p.calls + [call]), Handling(active, turns[n].chan), turns[n].ops);
      assert (p.calls + [call])[..|p.calls|] == p.calls;
      var named := [(turns[n].chan.fd, turns[n].callback)];
      assert Called(o.calls) + CallbacksOf(turns[..n]) + named == Called(o.calls) + (CallbacksOf(turns[..n]) + named);
    }
  }
}
