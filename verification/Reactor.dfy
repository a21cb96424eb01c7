/**
 The poller, and the dispatch of events (water/net/poller.cc, and Loop, UpdateChannel, RemoveChannel of
 water/net/event_loop.cc). epoll's interest set is a field of the poller; what epoll_wait reports is a
 parameter.
 */
module Reactor {
  import opened Channels

  datatype EpollOp = Add | Mod | Del

  // An entry of epoll's interest set: the mask, and the pointer in event.data.
  datatype Interest = Interest(mask: Mask, data: Channel)

  class Poller {
    var channels: map<int, Channel>     // channels_
    var interest: map<int, Interest>    // the kernel's side
    var capacity: nat                   // events_.size()
    ghost var rejected: nat             // history: the number of epoll_ctl calls that failed
    ghost const universe: set<Channel>  // the channels that belong to this loop

    // The cached state and the kernel agree. The mask of one channel may be out of date: the one
    // whose events_ has just changed.
    ghost predicate AgreesBut(stale: Channel?)
      reads this, universe
    {
      && (forall fd :: fd in channels ==>
            channels[fd] in universe && channels[fd].fd == fd && channels[fd].index != New)
      && (forall c :: c in universe && c.index != New ==> c.fd in channels && channels[c.fd] == c)
      && (forall fd :: fd in interest <==> fd in channels && channels[fd].index == Added)
      && (forall fd :: fd in interest ==>
            && interest[fd].data == channels[fd]
            && (channels[fd] != stale ==> interest[fd].mask == channels[fd].events))
    }

    ghost predicate Agrees()
      reads this, universe
    {
      AgreesBut(null) && capacity > 0
    }

    ghost function Snapshot(): View
      reads this`channels, universe`events, universe`index
    {
      View(map c | c in universe :: Entry(c.events, c.index), channels)
    }

    constructor (ghost universe: set<Channel>)
      requires forall c :: c in universe ==> c.index == New
      ensures Agrees() && this.universe == universe
      ensures channels == map[] && rejected == 0 && capacity == 16
    {
      channels, interest, capacity := map[], map[], 16;
      this.universe := universe;
      rejected := 0;
    }

    // epoll_ctl: adding a descriptor that is there fails, and so does changing or deleting one that is not.
    method Update(op: EpollOp, chan: Channel)
      modifies this`interest, this`rejected
      ensures if op == Add <==> chan.fd !in old(interest) then
          && rejected == old(rejected)
          && interest == if op == Del then old(interest) - {chan.fd}
                         else old(interest)[chan.fd := Interest(chan.events, chan)]
        else
          rejected == old(rejected) + 1 && interest == old(interest)
    {
      if (op == Add) == (chan.fd in interest) {
        rejected := rejected + 1;
      } else if op == Del {
        interest := interest - {chan.fd};
      } else {
        interest := interest[chan.fd := Interest(chan.events, chan)];
      }
    }

    // The case of a channel that epoll does not watch.
    method StartWatching(chan: Channel)
      requires AgreesBut(chan) && capacity > 0 && chan in universe && chan.index != Added
      requires chan.index == New ==> chan.fd !in channels
      modifies this`channels, this`interest, this`rejected, chan`index
      ensures Agrees() && rejected == old(rejected) && chan.index == Added
      ensures channels == old(channels)[chan.fd := chan]
      ensures interest == old(interest)[chan.fd := Interest(chan.events, chan)]
    {
      if chan.index == New {
        channels := channels[chan.fd := chan];
      } else {
        assert chan.fd in channels && channels[chan.fd] == chan;
      }
      chan.index := Added;
      Update(Add, chan);
    }

    // The case of a channel that epoll watches.
    method ChangeWatching(chan: Channel)
      requires AgreesBut(chan) && capacity > 0 && chan in universe && chan.index == Added
      modifies this`interest, this`rejected, chan`index
      ensures Agrees() && rejected == old(rejected)
      ensures chan.index == if chan.events == NONE_EVENT then Deleted else Added
      ensures interest == if chan.index == Deleted then old(interest) - {chan.fd}
                          else old(interest)[chan.fd := Interest(chan.events, chan)]
    {
      assert chan.fd in channels && channels[chan.fd] == chan;
      if chan.events == NONE_EVENT {
        Update(Del, chan);
        chan.index := Deleted;
      } else {
        Update(Mod, chan);
      }
    }

    // The assertion on a new channel is the only one the caller has to meet.
    method UpdateChannel(chan: Channel)
      requires AgreesBut(chan) && capacity > 0 && chan in universe
      requires chan.index == New ==> chan.fd !in channels
      modifies this`channels, this`interest, this`rejected, chan`index
      ensures Agrees() && rejected == old(rejected)
      ensures chan.index == if old(chan.index) == Added && chan.events == NONE_EVENT then Deleted else Added
      ensures channels == old(channels)[chan.fd := chan]
      ensures interest == if chan.index == Deleted then old(interest) - {chan.fd}
                          else old(interest)[chan.fd := Interest(chan.events, chan)]
    {
      if chan.index == New || chan.index == Deleted {
        StartWatching(chan);
      } else {
        ChangeWatching(chan);
      }
    }

    method RemoveChannel(chan: Channel)
      requires Agrees() && chan in universe && chan.index != New
      modifies this`channels, this`interest, this`rejected, chan`index
      ensures Agrees() && rejected == old(rejected)
      ensures chan.index == New
      ensures channels == old(channels) - {chan.fd}
      ensures interest == old(interest) - {chan.fd}
    {
      assert chan.fd in channels && channels[chan.fd] == chan;
      channels := channels - {chan.fd};
      if chan.index == Added {
        Update(Del, chan);
      }
      chan.index := New;
    }

    // What epoll_wait may report: each descriptor of the interest set at most once, as many as fit.
    predicate LegalWait(r: WaitResult)
      reads this
    {
      r.Events? ==>
        && |r.reports| <= capacity
        && (forall i :: 0 <= i < |r.reports| ==> r.reports[i].fd in interest)
        && (forall i, j :: 0 <= i < j < |r.reports| ==> r.reports[i].fd != r.reports[j].fd)
    }

    // The loop takes the channels from event.data; they are the ones in the map.
    method FillActiveChannels(reports: seq<Report>) returns (active: seq<Channel>)
      requires Agrees() && LegalWait(Events(reports))
      modifies universe`revents
      ensures Agrees()
      ensures |active| == |reports|
      ensures forall i :: 0 <= i < |active| ==>
                && reports[i].fd in channels && active[i] == channels[reports[i].fd]
                && active[i].revents == reports[i].revents
    {
      active := [];
      for i := 0 to |reports|
        invariant |active| == i
        invariant forall j :: 0 <= j < i ==>
          && reports[j].fd in channels && active[j] == channels[reports[j].fd]
          && active[j].revents == reports[j].revents
      {
        var chan := interest[reports[i].fd].data;
        assert chan.fd in channels && channels[chan.fd] == chan;
        chan.revents := reports[i].revents;
        active := active + [chan];
      }
    }

    method Poll(r: WaitResult) returns (active: seq<Channel>)
      requires Agrees() && LegalWait(r)
      modifies universe`revents, this`capacity
      ensures Agrees()
      ensures capacity == if r.Events? && |r.reports| == old(capacity) then 2 * old(capacity) else old(capacity)
      ensures |active| == |Reports(r)|
      ensures forall i :: 0 <= i < |active| ==>
                && Reports(r)[i].fd in channels && active[i] == channels[Reports(r)[i].fd]
                && active[i].revents == Reports(r)[i].revents
    {
      active := [];
      match r {
        case Events(reports) =>
          if |reports| > 0 {
            active := FillActiveChannels(reports);
            if |reports| == capacity {
              capacity := capacity * 2;
            }
          }
        case Timeout =>
        case WaitError =>
      }
    }
  }

  class EventLoop {
    const poller: Poller
    var active: seq<Channel>
    var current: Channel?
    var handling: bool
    ghost var calls: seq<Call>

    ghost predicate Valid()
      reads this, poller, poller.universe
    {
      && poller.Agrees()
      && (forall c :: c in active ==> c in poller.universe)
      && (current != null ==> current in poller.universe)
    }

    ghost function Now(aborted: bool): Outcome
      reads this`calls, poller`channels, poller.universe`events, poller.universe`index
    {
      Outcome(poller.Snapshot(), calls, aborted)
    }

    function Situation(): Context
      reads this
    {
      if handling && current != null then Handling(active, current) else Idle
    }

    // Operations on channels of this loop.
    ghost predicate OwnOps(ops: seq<ChannelOp>) {
      forall i :: 0 <= i < |ops| ==> ops[i].chan in poller.universe
    }

    ghost predicate OwnScript(script: Script) {
      forall i: nat, k: Callback :: OwnOps(script(i, k))
    }

    constructor (poller: Poller)
      requires poller.Agrees()
      ensures Valid() && this.poller == poller && active == [] && !handling && calls == []
    {
      this.poller := poller;
      active, current, handling, calls := [], null, false, [];
    }

    lemma StartIsConsistent()
      requires Valid()
      ensures Consistent(poller.Snapshot())
    {
    }

    method RemoveChannel(chan: Channel) returns (aborted: bool)
      requires Valid() && chan in poller.universe && (handling ==> current != null)
      modifies chan`index, poller
      ensures Valid() && poller.rejected == old(poller.rejected) && poller.capacity == old(poller.capacity)
      ensures Now(aborted) == AfterOp(old(Now(false)), Situation(), Remove(chan))
    {
      if chan.events != NONE_EVENT || (handling && current != chan && chan in active) || chan.index == New {
        return true;
      }
      poller.RemoveChannel(chan);
      return false;
    }

    // An enabling or a disabling whose assertion holds. The mask changes first, and then the poller is told.
    method ChangeMask(op: ChannelOp)
      requires Valid() && op.chan in poller.universe && !op.Remove?
      requires op.chan.index == New ==> op.chan.fd !in poller.channels
      modifies op.chan`events, op.chan`index, poller
      ensures Valid() && poller.rejected == old(poller.rejected) && poller.capacity == old(poller.capacity)
      ensures poller.Snapshot() == Effect(old(poller.Snapshot()), op)
    {
      ghost var was := poller.Snapshot();
      op.chan.events := NewMask(op.chan.events, op);
      poller.UpdateChannel(op.chan);
      assert poller.Snapshot().entries == was.entries[op.chan := Entry(op.chan.events, op.chan.index)];
      assert poller.Snapshot().channels == was.channels[op.chan.fd := op.chan];
    }

    method UpdateChannel(op: ChannelOp) returns (aborted: bool)
      requires Valid() && op.chan in poller.universe && !op.Remove?
      modifies op.chan`events, op.chan`index, poller
      ensures Valid() && poller.rejected == old(poller.rejected) && poller.capacity == old(poller.capacity)
      ensures Now(aborted) == AfterOp(old(Now(false)), Situation(), op)
    {
      aborted := op.chan.index == New && op.chan.fd in poller.channels;
      if !aborted {
        ChangeMask(op);
      }
    }

    // One operation, from a callback or from elsewhere on the loop thread.
    method Perform(op: ChannelOp) returns (aborted: bool)
      requires Valid() && op.chan in poller.universe && (handling ==> current != null)
      modifies op.chan`events, op.chan`index, poller
      ensures Valid() && poller.rejected == old(poller.rejected) && poller.capacity == old(poller.capacity)
      ensures Now(aborted) == AfterOp(old(Now(false)), Situation(), op)
    {
      if op.Remove? {
        aborted := RemoveChannel(op.chan);
      } else {
        aborted := UpdateChannel(op);
      }
    }

    // Any operations on any channels, up to the first that fails an assertion.
    method PerformAll(ops: seq<ChannelOp>) returns (aborted: bool)
      requires Valid() && (handling ==> current != null)
      requires OwnOps(ops)
      modifies poller.universe`events, poller.universe`index, poller
      ensures Valid() && poller.rejected == old(poller.rejected) && poller.capacity == old(poller.capacity)
      ensures Now(aborted) == AfterOps(old(Now(false)), Situation(), ops)
    {
      ghost var was := Now(false);
      aborted := false;
      var i := 0;
      while i < |ops|
        invariant i <= |ops| && !aborted
        invariant Valid() && poller.rejected == old(poller.rejected) && poller.capacity == old(poller.capacity)
        invariant Now(false) == AfterOps(was, Situation(), ops[..i])
      {
        aborted := Perform(ops[i]);
        OneMoreOp(was, Situation(), ops, i);
        i := i + 1;
        if aborted {
          AbortedForGood(was, Situation(), ops, i);
          return;
        }
      }
      assert ops[..|ops|] == ops;
    }

    // One callback of the current channel.
    method RunCallback(callback: Callback, ops: seq<ChannelOp>) returns (aborted: bool)
      requires Valid() && handling && current != null
      requires OwnOps(ops)
      modifies poller.universe`events, poller.universe`index, poller, this`calls
      ensures Valid() && poller.rejected == old(poller.rejected) && poller.capacity == old(poller.capacity)
      ensures Now(aborted) == AfterTurn(old(Now(false)), active, Turn(current, callback, ops))
    {
      calls := calls + [Call(current.fd, callback, current.index != New)];
      aborted := PerformAll(ops);
    }

    // One test in HandleEventSafely. stopped: the program has aborted in an earlier callback.
    method RunIfReported(reported: bool, callback: Callback, ops: seq<ChannelOp>, stopped: bool) returns (aborted: bool)
      requires Valid() && handling && current != null
      requires OwnOps(ops)
      modifies poller.universe`events, poller.universe`index, poller, this`calls
      ensures Valid() && poller.rejected == old(poller.rejected) && poller.capacity == old(poller.capacity)
      ensures Now(aborted) == AfterTurns(old(Now(stopped)), active, TurnIf(reported, current, callback, ops))
    {
      aborted := stopped;
      if reported {
        OneTurn(Now(stopped), active, Turn(current, callback, ops));
        if !stopped {
          aborted := RunCallback(callback, ops);
        }
      }
    }

    // To be called only for a channel that is in the poller's map.
    method HandleEvent(chan: Channel, i: nat, script: Script) returns (aborted: bool)
      requires Valid() && handling && current == chan && chan in poller.universe && InMap(poller.Snapshot(), chan)
      requires OwnScript(script)
      modifies poller.universe`events, poller.universe`index, poller, this`calls
      ensures Valid() && poller.rejected == old(poller.rejected) && poller.capacity == old(poller.capacity)
      ensures Now(aborted) == AfterTurns(old(Now(false)), active, TurnsFor(chan, chan.revents, i, script))
    {
      ghost var was, r := Now(false), chan.revents;
      ghost var first := TurnIf(r.error, chan, OnError, script(i, OnError));
      ghost var second := TurnIf(r.readable, chan, OnRead, script(i, OnRead));
      ghost var third := TurnIf(r.writable, chan, OnWrite, script(i, OnWrite));
      TurnsConcat(was, active, first, second);
      TurnsConcat(was, active, first + second, third);
      aborted := RunIfReported(chan.revents.error, OnError, script(i, OnError), false);
      aborted := RunIfReported(chan.revents.readable, OnRead, script(i, OnRead), aborted);
      aborted := RunIfReported(chan.revents.writable, OnWrite, script(i, OnWrite), aborted);
    }

    // The turn of the active channel at position i, which is in the map.
    method DispatchOne(i: nat, ghost reports: seq<Report>, script: Script) returns (aborted: bool)
      requires Valid() && handling && |active| == |reports| && i < |active| && OwnScript(script)
      requires HaveRevents(reports) && InMap(poller.Snapshot(), active[i])
      modifies poller.universe`events, poller.universe`index, poller, this`calls, this`current
      ensures Valid() && HaveRevents(reports) && poller.rejected == old(poller.rejected) && poller.capacity == old(poller.capacity)
      ensures Now(aborted) == AfterTurns(old(Now(false)), active, TurnsFor(active[i], reports[i].revents, i, script))
    {
      current := active[i];
      aborted := HandleEvent(current, i, script);
    }

    // At the start of the dispatch the active channels are different ones, and in the map.
    ghost predicate AllReady(o: Outcome)
      reads this
    {
      && (forall j :: 0 <= j < |active| ==> InMap(o.view, active[j]))
      && (forall j, k :: 0 <= j < k < |active| ==> active[j] != active[k])
    }

    ghost predicate HaveRevents(reports: seq<Report>)
      requires |active| == |reports|
      reads this, active
    {
      forall i :: 0 <= i < |active| ==> active[i].revents == reports[i].revents
    }

    // The loop over the active channels; done: how many had their turn.
    method DispatchLoop(ghost reports: seq<Report>, script: Script) returns (ghost done: nat, aborted: bool)
      requires Valid() && handling && |active| == |reports| && OwnScript(script)
      requires HaveRevents(reports) && AllReady(Now(false))
      modifies poller.universe`events, poller.universe`index, poller, this`calls, this`current
      ensures Valid() && poller.rejected == old(poller.rejected) && poller.capacity == old(poller.capacity)
      ensures done <= |active| && (!aborted ==> done == |active|)
      ensures Now(aborted) == AfterReports(old(Now(false)), active, reports, script, done)
    {
      ghost var was := Now(false);
      aborted := false;
      var i := 0;
      NoReports(was, active, reports, script);
      while i < |active| && !aborted
        invariant i <= |active|
        invariant Valid() && poller.rejected == old(poller.rejected) && poller.capacity == old(poller.capacity)
        invariant HaveRevents(reports)
        invariant Now(aborted) == AfterReports(was, active, reports, script, i)
      {
        ghost var before := Now(false);
        DispatchSafety(was, active, reports, script, i);
        aborted := DispatchOne(i, reports, script);
        OneMoreReport(was, active, reports, script, i);
        assert Now(aborted) == AfterTurns(before, active, TurnsFor(active[i], reports[i].revents, i, script));
        i := i + 1;
      }
      done := i;
    }

    // Every active channel gets its turn while it is in the map, until the program aborts.
    method DispatchAll(ghost reports: seq<Report>, script: Script) returns (aborted: bool)
      requires Valid() && handling && |active| == |reports| && OwnScript(script)
      requires HaveRevents(reports) && AllReady(Now(false))
      modifies poller.universe`events, poller.universe`index, poller, this`calls, this`current
      ensures Valid() && poller.rejected == old(poller.rejected) && poller.capacity == old(poller.capacity)
      ensures Now(aborted) == AfterTurns(old(Now(false)), active, TurnsForAll(active, reports, script))
    {
      ghost var was, done := Now(false), 0;
      done, aborted := DispatchLoop(reports, script);
      if aborted {
        AbortedDispatch(was, active, reports, script, done);
      } else {
        AllReports(was, active, reports, script);
      }
    }

    // The poll, which fills the list of active channels.
    method StartDispatch(r: WaitResult)
      requires Valid() && poller.LegalWait(r)
      modifies this`active, this`handling, poller`capacity, poller.universe`revents
      ensures Valid() && handling && Now(false) == old(Now(false))
      ensures Known(Now(false).view.channels, Reports(r)) && active == ActiveIn(Now(false).view.channels, Reports(r))
      ensures AllReady(Now(false)) && HaveRevents(Reports(r))
    {
      active := poller.Poll(r);
      handling := true;
      assert active == ActiveIn(poller.channels, Reports(r));
    }

    // One round of Loop up to the queued closures: poll and dispatch.
    method PollAndDispatch(r: WaitResult, script: Script) returns (aborted: bool)
      requires Valid() && !handling && poller.LegalWait(r)
      requires OwnScript(script)
      modifies this, poller, poller.universe
      ensures Valid() && poller.rejected == old(poller.rejected) && (!aborted ==> !handling)
      ensures Known(old(poller.Snapshot()).channels, Reports(r))
      ensures Now(aborted) == AfterDispatch(old(Now(false)), Reports(r), script)
    {
      StartDispatch(r);
      DispatchIsTurns(Now(false), active, Reports(r), script);
      aborted := DispatchAll(Reports(r), script);
      if !aborted {
        EndDispatch();
      }
    }

    method EndDispatch()
      requires Valid()
      modifies this`current, this`handling
      ensures Valid() && !handling && current == null
    {
      current := null;
      handling := false;
    }

    method OneRound(round: Round) returns (aborted: bool)
      requires Valid() && !handling && OfThisLoop([round]) && poller.LegalWait(round.wait)
      modifies this, poller, poller.universe
      ensures Valid() && poller.rejected == old(poller.rejected) && (!aborted ==> !handling)
      ensures Known(old(poller.Snapshot()).channels, Reports(round.wait))
      ensures Now(aborted) == AfterRound(old(Now(false)), round)
    {
      assert [round][0] == round;
      ghost var was := Now(false);
      aborted := PollAndDispatch(round.wait, round.script);
      if aborted {
        AbortedStays(AfterDispatch(was, Reports(round.wait), round.script), Idle, round.closures);
      } else {
        aborted := PerformAll(round.closures);
      }
    }

    ghost predicate OfThisLoop(rounds: seq<Round>) {
      forall i :: 0 <= i < |rounds| ==> OwnScript(rounds[i].script) && OwnOps(rounds[i].closures)
    }

    // Any number of rounds, up to the first report that epoll_wait cannot give, or to a failing assertion.
    // What callbacks were called, what the masks and indices are, and whether the program has aborted, is
    // exactly what the rounds come to; the poller and the kernel agree, and no epoll_ctl has failed. With
    // distinct descriptors only a removal can abort the program.
    method Loop(rounds: seq<Round>) returns (done: nat, aborted: bool)
      requires Valid() && !handling && OfThisLoop(rounds)
      modifies this, poller, poller.universe
      ensures Valid() && poller.rejected == old(poller.rejected) && done <= |rounds|
      ensures Now(aborted) == AfterRounds(old(Now(false)), rounds[..done])
      ensures !aborted && done < |rounds| ==> !poller.LegalWait(rounds[done].wait)
      ensures aborted ==> !NothingRemoved(old(Now(false)).view, rounds)
    {
      ghost var was := Now(false);
      StartIsConsistent();
      done, aborted := 0, false;
      while done < |rounds| && !aborted && poller.LegalWait(rounds[done].wait)
        invariant done <= |rounds| && (!aborted ==> !handling)
        invariant Valid() && poller.rejected == old(poller.rejected)
        invariant Now(aborted) == AfterRounds(was, rounds[..done])
      {
        assert rounds[..done + 1][..done] == rounds[..done];
        aborted := OneRound(rounds[done]);
        done := done + 1;
      }
      NothingRemovedRuns(was, rounds, done);
    }
  }
}
