/**
 Timers and the queue that fires them (water/net/timer.cc, water/net/timer_queue.cc).
 Times are microseconds since the epoch. The clock may show anything: it is a parameter where something
 depends on it, and what Now() returns elsewhere. So nothing below needs a clock that runs forward.
 */
module Dates {

  const MICROS_PER_SEC := 1000000

  // The conversion of a double to an integer in C++ rounds toward zero.
  function Trunc(x: real): int {
    if x >= 0.0 then x.Floor else -((-x).Floor)
  }

  // Date::After
  function After(micros: int, seconds: real): int {
    Trunc(micros as real + seconds * MICROS_PER_SEC as real)
  }

  lemma TruncIsMonotone(x: real, y: real)
    requires x <= y
    ensures Trunc(x) <= Trunc(y)
  {
  }

  // A whole number of microseconds past the rounded sum is past the exact sum.
  lemma PastAfterIsPastSum(micros: int, seconds: real, now: int)
    requires After(micros, seconds) < now
    ensures micros as real + seconds * MICROS_PER_SEC as real < now as real
  {
  }

  // The rounded sum is less than a microsecond off, on the side of the epoch.
  lemma AfterIsWithinOne(micros: int, seconds: real)
    ensures var sum, date := micros as real + seconds * MICROS_PER_SEC as real, After(micros, seconds) as real;
            if sum >= 0.0 then sum - 1.0 < date <= sum else sum <= date < sum + 1.0
  {
  }

  // A whole number of seconds is added exactly.
  lemma AfterAddsSeconds(micros: int, seconds: int)
    ensures After(micros, seconds as real) == micros + 1000000 * seconds
  {
    var sum := micros + 1000000 * seconds;
    assert micros as real + seconds as real * 1000000.0 == sum as real;
    assert Trunc(sum as real) == sum;
  }

  lemma AfterIsNotBefore(micros: int, seconds: real)
    requires seconds >= 0.0
    ensures micros <= After(micros, seconds)
  {
    assert Trunc(micros as real) == micros;
    TruncIsMonotone(micros as real, micros as real + seconds * MICROS_PER_SEC as real);
  }

  method Now() returns (micros: int)
  {
    micros := *;
  }
}

module TimerFd {
  import opened Dates
  import opened TruncatedDivision

  datatype Timespec = Timespec(sec: int, nsec: int)

  function HowMuchTimeFromNow(when: int, now: int): Timespec {
    var micros := when - now;
    var wait := if micros < 100 then 100 else micros;
    Timespec(TruncDiv(wait, MICROS_PER_SEC), TruncMod(wait, MICROS_PER_SEC) * 1000)
  }

  // The timespec handed to the kernel is normalised, never zero (a zero value would disarm the
  // timer), and stands for the time left, at least 100 microseconds.
  lemma TimespecIsTheWait(when: int, now: int)
    ensures var ts := HowMuchTimeFromNow(when, now);
            && ts.sec >= 0
            && 0 <= ts.nsec < 1000000000
            && ts != Timespec(0, 0)
            && ts.sec * 1000000000 + ts.nsec == 1000 * (if when - now > 100 then when - now else 100)
  {
    var wait := if when - now < 100 then 100 else when - now;
    assert wait == MICROS_PER_SEC * (wait / MICROS_PER_SEC) + wait % MICROS_PER_SEC;
  }
}

module TimerQueues {
  import opened Wrappers
  import opened Dates
  import opened TimerFd

  class Timer {
    var when: int
    const interval: real
    const repeat: bool
    ghost const requested: int  // the time the timer was created for

    constructor (when: int, interval: real)
      ensures this.when == when && this.interval == interval && this.requested == when
      ensures repeat <==> interval > 0.0000001
    {
      this.when := when;
      this.interval := interval;
      this.repeat := interval - 0.0 > 0.0000001;
      this.requested := when;
    }

    method Restart(now: int)
      modifies this`when
      ensures when == if repeat then After(now, interval) else 0
    {
      if repeat {
        when := After(now, interval);
      } else {
        when := 0;
      }
    }
  }

  // A timer some callback, or some code outside the timer queue, asks for.
  datatype Request = Request(when: int, interval: real)

  // The kernel timer: the expiration it was armed for, the clock reading at that moment, the wait.
  datatype Armed = Disarmed | Armed(expiration: int, readAt: int, wait: Timespec)

  // History: a timer ran its callback when the clock had read now; due was its when_.
  datatype Firing = Firing(timer: Timer, now: int, due: int)

  predicate IsEarliest(t: Timer, ts: set<Timer>)
    reads ts
  {
    t in ts && forall u :: u in ts ==> t.when <= u.when
  }

  lemma EarliestExists(ts: set<Timer>)
    requires ts != {}
    ensures exists t :: IsEarliest(t, ts)
    decreases |ts|
  {
    var t :| t in ts;
    if ts == {t} {
      assert IsEarliest(t, ts);
    } else {
      EarliestExists(ts - {t});
      var u :| IsEarliest(u, ts - {t});
      assert IsEarliest(if t.when < u.when then t else u, ts);
    }
  }

  /* ---------- The history of firings ---------- */

  // When t last fired.
  ghost function LastFired(fired: seq<Firing>, t: Timer): Option<int> {
    if fired == [] then None
    else
      var f := fired[|fired| - 1];
      if f.timer == t then Some(f.now) else LastFired(fired[..|fired| - 1], t)
  }

  // A firing is sound after the earlier ones: it is not before its time, which is the time asked for or,
  // when the timer has fired already, one interval after its last firing; and then it is a repeating one.
  ghost predicate SoundFiring(fired: seq<Firing>, f: Firing) {
    && f.timer.requested <= f.due < f.now
    && match LastFired(fired, f.timer) {
      case None => f.due == f.timer.requested
      case Some(last) => f.timer.repeat && f.timer.interval > 0.0 && f.due == After(last, f.timer.interval)
        && last as real + f.timer.interval * MICROS_PER_SEC as real < f.now as real
    }
  }

  ghost predicate SoundHistory(fired: seq<Firing>) {
    fired != [] ==>
      var earlier := fired[..|fired| - 1];
      SoundHistory(earlier) && SoundFiring(earlier, fired[|fired| - 1])
  }

  // What makes a next firing of t sound, if t is due at the given time.
  ghost predicate Ready(t: Timer, due: int, fired: seq<Firing>) {
    && t.requested <= due
    && (t.repeat ==> t.interval > 0.0)
    && match LastFired(fired, t) {
      case None => due == t.requested
      case Some(last) => t.repeat && due == After(last, t.interval)
    }
  }

  lemma LastFiredAppend(fired: seq<Firing>, f: Firing, t: Timer)
    ensures LastFired(fired + [f], t) == if f.timer == t then Some(f.now) else LastFired(fired, t)
  {
    assert (fired + [f])[..|fired|] == fired;
  }

  lemma {:induction false} NeverFired(fired: seq<Firing>, t: Timer)
    requires forall i :: 0 <= i < |fired| ==> fired[i].timer != t
    ensures LastFired(fired, t) == None
  {
    if fired != [] {
      NeverFired(fired[..|fired| - 1], t);
    }
  }

  // A batch of firings of different timers, each one ready and due before now.
  ghost predicate DueBatch(fired: seq<Firing>, batch: seq<Firing>, now: int) {
    && (forall i :: 0 <= i < |batch| ==>
          batch[i].due < batch[i].now == now && Ready(batch[i].timer, batch[i].due, fired))
    && (forall i, j :: 0 <= i < j < |batch| ==> batch[i].timer != batch[j].timer)
  }

  lemma {:induction false} NotFiredInBatch(fired: seq<Firing>, batch: seq<Firing>, t: Timer)
    requires forall i :: 0 <= i < |batch| ==> batch[i].timer != t
    ensures LastFired(fired + batch, t) == LastFired(fired, t)
  {
    if batch == [] {
      assert fired + batch == fired;
    } else {
      var front, f := batch[..|batch| - 1], batch[|batch| - 1];
      NotFiredInBatch(fired, front, t);
      assert fired + batch == fired + front + [f];
      LastFiredAppend(fired + front, f, t);
    }
  }

  lemma {:induction false} FiredInBatch(fired: seq<Firing>, batch: seq<Firing>, now: int, k: nat)
    requires k < |batch| && forall i :: 0 <= i < |batch| ==> batch[i].now == now
    ensures LastFired(fired + batch, batch[k].timer) == Some(now)
  {
    var front, f := batch[..|batch| - 1], batch[|batch| - 1];
    assert fired + batch == fired + front + [f];
    LastFiredAppend(fired + front, f, batch[k].timer);
    if k < |front| {
      FiredInBatch(fired, front, now, k);
    }
  }

  // A repeating timer restarted from the time of its firing is ready again.
  lemma RestartedIsReady(t: Timer, due: int, fired: seq<Firing>, batch: seq<Firing>, now: int, k: nat)
    requires Ready(t, due, fired) && due < now && t.repeat
    requires k < |batch| && batch[k].timer == t && forall i :: 0 <= i < |batch| ==> batch[i].now == now
    ensures Ready(t, After(now, t.interval), fired + batch)
  {
    FiredInBatch(fired, batch, now, k);
    AfterIsNotBefore(now, t.interval);
  }

  lemma OthersStayReady(t: Timer, due: int, fired: seq<Firing>, batch: seq<Firing>)
    requires Ready(t, due, fired) && forall i :: 0 <= i < |batch| ==> batch[i].timer != t
    ensures Ready(t, due, fired + batch)
  {
    NotFiredInBatch(fired, batch, t);
  }

  lemma {:induction false} DueBatchIsSound(fired: seq<Firing>, batch: seq<Firing>, now: int)
    requires SoundHistory(fired) && DueBatch(fired, batch, now)
    ensures SoundHistory(fired + batch)
  {
    if batch == [] {
      assert fired + batch == fired;
    } else {
      var front, f := batch[..|batch| - 1], batch[|batch| - 1];
      DueBatchIsSound(fired, front, now);
      NotFiredInBatch(fired, front, f.timer);
      if LastFired(fired, f.timer).Some? {
        PastAfterIsPastSum(LastFired(fired, f.timer).value, f.timer.interval, now);
      }
      assert (fired + batch)[..|fired + batch| - 1] == fired + front;
    }
  }

  lemma {:induction false} LastFiredIsLatest(fired: seq<Firing>, i: nat)
    requires SoundHistory(fired) && i < |fired|
    ensures LastFired(fired, fired[i].timer).Some?
    ensures fired[i].now <= LastFired(fired, fired[i].timer).value
  {
    var earlier := fired[..|fired| - 1];
    var last := fired[|fired| - 1];
    if i < |earlier| {
      LastFiredIsLatest(earlier, i);
    }
  }

  // What a sound history means: nothing fires before the time it was asked for; a timer that fires
  // twice is repeating, and any two of its firings are more than its interval apart.
  lemma {:induction false} SoundHistoryMeans(fired: seq<Firing>, i: nat, j: nat)
    requires SoundHistory(fired) && i <= j < |fired|
    ensures fired[i].timer.requested <= fired[i].due < fired[i].now
    ensures i < j && fired[i].timer == fired[j].timer ==>
              && fired[i].timer.repeat
              && fired[i].now as real + fired[i].timer.interval * MICROS_PER_SEC as real < fired[j].now as real
  {
    var earlier := fired[..|fired| - 1];
    if j < |earlier| {
      SoundHistoryMeans(earlier, i, j);
    } else if i < j {
      SoundHistoryMeans(earlier, i, i);
      LastFiredIsLatest(earlier, i);
    }
  }

  lemma RepeatingNext(ts: seq<Timer>, k: nat)
    requires k < |ts|
    ensures Repeating(ts[..k + 1]) == Repeating(ts[..k]) + if ts[k].repeat then {ts[k]} else {}
  {
    assert ts[..k + 1] == ts[..k] + [ts[k]];
  }

  // The requests of the first n callbacks, one after the other.
  function AllRequests(requests: nat -> seq<Request>, n: nat): seq<Request> {
    if n == 0 then [] else AllRequests(requests, n - 1) + requests(n - 1)
  }

  // Every callback's requests are among them, in their place.
  lemma {:induction false} RequestsOfEachCallback(requests: nat -> seq<Request>, n: nat, i: nat, j: nat)
    requires i < n && j < |requests(i)|
    ensures |AllRequests(requests, i)| + j < |AllRequests(requests, n)|
    ensures AllRequests(requests, n)[|AllRequests(requests, i)| + j] == requests(i)[j]
  {
    if i < n - 1 {
      RequestsOfEachCallback(requests, n - 1, i, j);
    }
  }

  // Different timers, created for these requests.
  ghost predicate CreatedFor(ts: seq<Timer>, requests: seq<Request>) {
    && |ts| == |requests|
    && (forall i :: 0 <= i < |ts| ==> ts[i].requested == requests[i].when && ts[i].interval == requests[i].interval)
    && (forall i, j :: 0 <= i < j < |ts| ==> ts[i] != ts[j])
  }

  lemma CreatedForConcat(a: seq<Timer>, ra: seq<Request>, b: seq<Timer>, rb: seq<Request>)
    requires CreatedFor(a, ra) && CreatedFor(b, rb) && Elements(a) !! Elements(b)
    ensures CreatedFor(a + b, ra + rb)
  {
    forall i, j | 0 <= i < |a| && 0 <= j < |b|
      ensures a[i] != b[j]
    {
      assert a[i] in Elements(a) && b[j] in Elements(b);
    }
  }

  ghost predicate JustCreated(t: Timer)
    reads t`when
  {
    t.when == t.requested && (t.repeat <==> t.interval > 0.0000001)
  }

  // Distinct timers, earliest first.
  ghost predicate InOrder(ts: seq<Timer>)
    reads ts
  {
    forall i, j :: 0 <= i < j < |ts| ==> ts[i] != ts[j] && ts[i].when <= ts[j].when
  }

  function Elements(ts: seq<Timer>): set<Timer> {
    set t | t in ts
  }

  function Repeating(ts: seq<Timer>): set<Timer> {
    set t | t in ts && t.repeat
  }

  // std::priority_queue keeps its elements in an order of its own; all it promises is that the top
  // is some earliest element. Here that choice is arbitrary at every push and pop.
  class TimerQueue {
    var members: set<Timer>
    var top: Timer?
    var calling: bool
    var armed: Armed
    ghost var fired: seq<Firing>

    ghost predicate Valid()
      reads this, members
    {
      && (if members == {} then top == null else top != null && IsEarliest(top, members))
      && (armed.Armed? ==> armed.wait == HowMuchTimeFromNow(armed.expiration, armed.readAt))
    }

    // The kernel timer stands for the earliest timer of the queue.
    ghost predicate Covered()
      reads this, members
    {
      members != {} ==> top in members && armed.Armed? && armed.expiration == top.when
    }

    // Every firing so far is sound, and so will be the next one of every timer in the queue.
    ghost predicate Sound()
      reads this, members
    {
      SoundHistory(fired) && forall t :: t in members ==> Ready(t, t.when, fired)
    }

    constructor ()
      ensures Valid() && Covered() && Sound()
      ensures members == {} && fired == [] && !calling
    {
      members, top, calling, armed, fired := {}, null, false, Disarmed, [];
    }

    method Push(t: Timer)
      requires Valid() && t !in members
      modifies this`members, this`top
      ensures Valid() && members == old(members) + {t}
    {
      members := members + {t};
      EarliestExists(members);
      var earliest :| earliest in members && IsEarliest(earliest, members);
      top := earliest;
    }

    method Pop()
      requires Valid() && members != {}
      modifies this`members, this`top
      ensures Valid() && members == old(members) - {old(top)}
    {
      members := members - {top};
      if members == {} {
        top := null;
      } else {
        EarliestExists(members);
        var earliest :| earliest in members && IsEarliest(earliest, members);
        top := earliest;
      }
    }

    method ResetTimerFd(expiration: int)
      modifies this`armed
      ensures armed.Armed? && armed.expiration == expiration
      ensures armed.wait == HowMuchTimeFromNow(armed.expiration, armed.readAt)
    {
      var now := Now();
      armed := Armed(expiration, now, HowMuchTimeFromNow(expiration, now));
    }

    method Insert(t: Timer) returns (earliestChanged: bool)
      requires Valid() && t !in members
      modifies this`members, this`top
      ensures Valid() && members == old(members) + {t}
      ensures earliestChanged <==> old(members) == {} || t.when < old(top.when)
      ensures top.when == if earliestChanged then t.when else old(top.when)
    {
      earliestChanged := members == {} || t.when < top.when;
      Push(t);
    }

    // Called from outside, it keeps the kernel timer right. Called from a timer callback, while
    // expired timers are out of the queue, it may find the kernel timer stale; then the new timer
    // mends it exactly when it is the earliest.
    method AddTimerInLoop(t: Timer)
      requires Valid() && t !in members
      modifies this`members, this`top, this`armed
      ensures Valid() && members == old(members) + {t}
      ensures Covered() <==> old(Covered()) || t.when < old(top.when)
    {
      var earliestChanged := Insert(t);
      if earliestChanged {
        ResetTimerFd(t.when);
      }
    }

    // AddTimer on the loop thread, where RunInLoop calls its closure directly.
    method AddTimer(when: int, interval: real) returns (t: Timer)
      requires Valid()
      modifies this`members, this`top, this`armed
      ensures Valid() && fresh(t) && JustCreated(t)
      ensures members == old(members) + {t}
      ensures t.when == when && t.interval == interval
      ensures Covered() <==> old(Covered()) || when < old(top.when)
    {
      t := new Timer(when, interval);
      AddTimerInLoop(t);
    }

    method GetExpired(now: int) returns (expired: seq<Timer>)
      requires Valid()
      modifies this`members, this`top
      ensures Valid()
      ensures forall t :: t in expired <==> t in old(members) && t.when < now
      ensures members == old(members) - Elements(expired)
      ensures InOrder(expired)
    {
      expired := [];
      while members != {}
        invariant Valid() && members <= old(members)
        invariant forall t :: t in expired <==> t in old(members) && t !in members
        invariant forall t :: t in expired ==> t.when < now
        invariant forall t, u :: t in expired && u in members ==> t.when <= u.when
        invariant InOrder(expired)
        decreases members
      {
        if top.when < now {
          expired := expired + [top];
          Pop();
        } else {
          break;
        }
      }
    }

    // The callback of one timer: it may add any timers at all.
    method RunCallback(requests: seq<Request>) returns (added: seq<Timer>)
      requires Valid()
      modifies this`members, this`top, this`armed
      ensures Valid() && fresh(Elements(added))
      ensures CreatedFor(added, requests) && forall t :: t in added ==> JustCreated(t)
      ensures members == old(members) + Elements(added)
    {
      added := [];
      for i := 0 to |requests|
        invariant Valid() && fresh(Elements(added))
        invariant CreatedFor(added, requests[..i]) && forall t :: t in added ==> JustCreated(t)
        invariant members == old(members) + Elements(added)
      {
        var t := AddTimer(requests[i].when, requests[i].interval);
        added := added + [t];
      }
      assert requests[..|requests|] == requests;
    }

    // One round of the loop in Reset.
    method Reinsert(t: Timer, now: int)
      requires Valid() && t !in members
      modifies this`members, this`top, t`when
      ensures Valid()
      ensures members == old(members) + if t.repeat then {t} else {}
      ensures t.when == if t.repeat then After(now, t.interval) else old(t.when)
    {
      if t.repeat {
        t.Restart(now);
        var _ := Insert(t);
      }
    }

    method Reset(expired: seq<Timer>, now: int)
      requires Valid() && InOrder(expired)
      requires forall t :: t in expired ==> t !in members
      modifies this`members, this`top, this`armed, expired`when
      ensures Valid() && Covered()
      ensures members == old(members) + Repeating(expired)
      ensures forall t :: t in expired ==> t.when == if t.repeat then After(now, t.interval) else old(t.when)
    {
      for k := 0 to |expired|
        invariant Valid() && armed == old(armed)
        invariant members == old(members) + Repeating(expired[..k])
        invariant forall t :: t in expired ==>
          t.when == if t in Repeating(expired[..k]) then After(now, t.interval) else old(t.when)
      {
        RepeatingNext(expired, k);
        assert expired[k] !in Repeating(expired[..k]);
        Reinsert(expired[k], now);
      }
      assert expired[..|expired|] == expired;
      if members != {} {
        ResetTimerFd(top.when);
      }
    }

    // One round of the loop in HandleRead; already: the timers that earlier rounds have added.
    method RunOne(t: Timer, now: int, requests: seq<Request>, ghost already: set<Timer>) returns (added: seq<Timer>)
      requires Valid() && already <= members
      modifies this`members, this`top, this`armed, this`fired
      ensures Valid() && fresh(Elements(added)) && already !! Elements(added)
      ensures CreatedFor(added, requests) && forall u :: u in added ==> JustCreated(u)
      ensures members == old(members) + Elements(added)
      ensures fired == old(fired) + [Firing(t, now, t.when)]
    {
      fired := fired + [Firing(t, now, t.when)];
      added := RunCallback(requests);
    }

    // The loop of HandleRead that runs the callbacks of the expired timers.
    method RunExpired(expired: seq<Timer>, now: int, requests: nat -> seq<Request>)
        returns (added: seq<Timer>, ghost batch: seq<Firing>)
      requires Valid()
      modifies this`members, this`top, this`armed, this`fired
      ensures Valid() && fresh(Elements(added))
      ensures CreatedFor(added, AllRequests(requests, |expired|)) && forall t :: t in added ==> JustCreated(t)
      ensures members == old(members) + Elements(added)
      ensures fired == old(fired) + batch && |batch| == |expired|
      ensures forall i :: 0 <= i < |batch| ==> batch[i] == Firing(expired[i], now, expired[i].when)
    {
      added, batch := [], [];
      ghost var were, earlier := members, fired;
      for i := 0 to |expired|
        invariant Valid() && fresh(Elements(added))
        invariant CreatedFor(added, AllRequests(requests, i)) && forall t :: t in added ==> JustCreated(t)
        invariant members == were + Elements(added)
        invariant fired == earlier + batch && |batch| == i
        invariant forall j :: 0 <= j < i ==> batch[j] == Firing(expired[j], now, expired[j].when)
      {
        batch := batch + [Firing(expired[i], now, expired[i].when)];
        var more := RunOne(expired[i], now, requests(i), Elements(added));
        CreatedForConcat(added, AllRequests(requests, i), more, requests(i));
        assert Elements(added + more) == Elements(added) + Elements(more);
        added := added + more;
      }
    }

    // HandleRead up to Reset: the expired timers are taken out and run; no timer changes.
    method FireExpired(now: int, requests: nat -> seq<Request>)
        returns (expired: seq<Timer>, added: seq<Timer>, ghost batch: seq<Firing>)
      requires Valid()
      modifies this
      ensures Valid() && !calling && fresh(Elements(added))
      ensures CreatedFor(added, AllRequests(requests, |expired|)) && forall t :: t in added ==> JustCreated(t)
      ensures forall t :: t in expired <==> t in old(members) && t.when < now
      ensures InOrder(expired)
      ensures fired == old(fired) + batch && |batch| == |expired|
      ensures forall i :: 0 <= i < |batch| ==> batch[i] == Firing(expired[i], now, expired[i].when)
      ensures members == old(members) - Elements(expired) + Elements(added)
    {
      expired := GetExpired(now);
      calling := true;
      added, batch := RunExpired(expired, now, requests);
      calling := false;
    }

    // now: what the clock shows. consumed: the kernel timer has run out, and is disarmed. requests(i):
    // what the callback of the i-th expired timer adds.
    method HandleRead(now: int, consumed: bool, requests: nat -> seq<Request>)
        returns (expired: seq<Timer>, added: seq<Timer>, ghost batch: seq<Firing>)
      requires Valid()
      modifies this, members`when
      ensures Valid() && Covered() && !calling && fresh(Elements(added))
      ensures CreatedFor(added, AllRequests(requests, |expired|)) && forall t :: t in added ==> JustCreated(t)
      ensures forall t :: t in expired <==> t in old(members) && old(t.when) < now
      ensures fired == old(fired) + batch && |batch| == |expired|
      ensures forall i :: 0 <= i < |batch| ==>
                var t := expired[i]; t in old(members) && batch[i] == Firing(t, now, old(t.when))
      ensures forall i, j :: 0 <= i < j < |batch| ==>
                batch[i].timer != batch[j].timer && batch[i].due <= batch[j].due
      ensures members == old(members) - Elements(expired) + Elements(added) + Repeating(expired)
      ensures forall t :: t in old(members) ==>
                t.when == if t in expired && t.repeat then After(now, t.interval) else old(t.when)
    {
      if consumed {
        armed := Disarmed;
      }
      expired, added, batch := FireExpired(now, requests);
      Reset(expired, now);
    }
  }

  // What can happen to a timer queue from outside: a timer is added, or its timerfd is readable.
  datatype Event = Add(request: Request) | Readable(now: int, consumed: bool, requests: nat -> seq<Request>)

  // History of one event: the timers in the queue with their times, before and after; the clock; what
  // fired; and what was created.
  datatype Round = Round(before: map<Timer, int>, after: map<Timer, int>, now: int, fired: seq<Firing>, added: seq<Timer>)

  ghost function Times(queue: TimerQueue): map<Timer, int>
    reads queue, queue.members
  {
    map t | t in queue.members :: t.when
  }

  function Due(r: Round): set<Timer> {
    set t | t in r.before && r.before[t] < r.now
  }

  // Exactly the timers that are due fire, each once, in the order of their times.
  ghost predicate FiresDue(r: Round) {
    && (forall i :: 0 <= i < |r.fired| ==>
          r.fired[i].timer in r.before && r.fired[i] == Firing(r.fired[i].timer, r.now, r.before[r.fired[i].timer]))
    && (forall i, j :: 0 <= i < j < |r.fired| ==> r.fired[i].timer != r.fired[j].timer && r.fired[i].due <= r.fired[j].due)
    && (set f | f in r.fired :: f.timer) == Due(r)
  }

  // The queue loses the timers that are due, and gains the new ones and the due ones that repeat, one
  // interval after now. All others keep their times.
  ghost predicate Requeues(r: Round) {
    && (forall t :: t in r.added ==> t !in r.before)
    && r.after.Keys == r.before.Keys - Due(r) + Elements(r.added) + (set t | t in Due(r) && t.repeat)
    && (forall t :: t in r.before && t in r.after ==>
          r.after[t] == if t in Due(r) then After(r.now, t.interval) else r.before[t])
    && (forall t :: t in r.added && t in r.after ==> r.after[t] == t.requested)
  }

  // The effect that an event must have.
  ghost predicate Matches(r: Round, event: Event) {
    match event
    case Add(request) =>
      && r.fired == [] && |r.added| == 1 && CreatedFor(r.added, [request])
      && r.added[0] !in r.before && r.after == r.before[r.added[0] := request.when]
    case Readable(now, _, requests) =>
      r.now == now && FiresDue(r) && Requeues(r) && CreatedFor(r.added, AllRequests(requests, |r.fired|))
  }

  lemma AddedIsQueued(r: Round, k: nat)
    requires Requeues(r) && k < |r.added|
    ensures r.added[k] in r.after && r.added[k] !in r.before && r.after[r.added[k]] == r.added[k].requested
  {
    assert r.added[k] in r.added;
    assert r.added[k] in Elements(r.added);
    assert r.added[k] in r.after.Keys;
  }

  // Every request of every callback of a timer event has a timer of its own in the queue, due when asked.
  lemma EveryRequestHasItsTimer(r: Round, now: int, consumed: bool, requests: nat -> seq<Request>, i: nat, j: nat)
    requires Matches(r, Readable(now, consumed, requests)) && i < |r.fired| && j < |requests(i)|
    ensures var k := |AllRequests(requests, i)| + j;
            k < |r.added| && RequestedTimer(r, r.added[k], requests(i)[j])
  {
    var k := |AllRequests(requests, i)| + j;
    RequestsOfEachCallback(requests, |r.fired|, i, j);
    AddedIsQueued(r, k);
  }

  ghost predicate RequestedTimer(r: Round, t: Timer, request: Request) {
    t in r.after && t !in r.before && r.after[t] == request.when && t.interval == request.interval
  }

  // What HandleRead promises, said of the times before and after.
  ghost predicate Handled(r: Round, expired: seq<Timer>, requests: nat -> seq<Request>) {
    && Elements(expired) == Due(r)
    && |r.fired| == |expired|
    && (forall i :: 0 <= i < |expired| ==>
          expired[i] in r.before && r.fired[i] == Firing(expired[i], r.now, r.before[expired[i]]))
    && (forall i, j :: 0 <= i < j < |r.fired| ==>
          r.fired[i].timer != r.fired[j].timer && r.fired[i].due <= r.fired[j].due)
    && r.after.Keys == r.before.Keys - Elements(expired) + Elements(r.added) + Repeating(expired)
    && (forall t :: t in r.before && t in r.after ==>
          r.after[t] == if t in expired && t.repeat then After(r.now, t.interval) else r.before[t])
    && (forall t :: t in r.added ==> t !in r.before && t in r.after && r.after[t] == t.requested)
    && CreatedFor(r.added, AllRequests(requests, |expired|))
  }

  lemma HandledMatches(r: Round, expired: seq<Timer>, now: int, consumed: bool, requests: nat -> seq<Request>)
    requires Handled(r, expired, requests) && r.now == now
    ensures Matches(r, Readable(now, consumed, requests))
  {
    HandledFiresDue(r, expired, requests);
    assert Repeating(expired) == set t | t in Due(r) && t.repeat;
  }

  lemma HandledFiresDue(r: Round, expired: seq<Timer>, requests: nat -> seq<Request>)
    requires Handled(r, expired, requests)
    ensures FiresDue(r)
  {
    forall t | t in Due(r)
      ensures t in (set f | f in r.fired :: f.timer)
    {
      assert t in Elements(expired);
      var i :| 0 <= i < |expired| && expired[i] == t;
      assert r.fired[i] in r.fired;
    }
  }

  // One HandleRead keeps the history sound and the timers ready. fired: the history before it.
  lemma HandledStaysSound(r: Round, expired: seq<Timer>, requests: nat -> seq<Request>, fired: seq<Firing>)
    requires Handled(r, expired, requests)
    requires SoundHistory(fired) && forall t :: t in r.before ==> Ready(t, r.before[t], fired)
    requires forall t :: t in r.added ==> LastFired(fired, t) == None && (t.repeat <==> t.interval > 0.0000001)
    ensures SoundHistory(fired + r.fired)
    ensures forall t :: t in r.after ==> Ready(t, r.after[t], fired + r.fired)
  {
    DueBatchIsSound(fired, r.fired, r.now);
    forall t | t in r.after
      ensures Ready(t, r.after[t], fired + r.fired)
    {
      if t in Elements(expired) {
        ExpiredIsReady(r, expired, requests, fired, t);
      } else {
        OthersStayReady(t, r.after[t], fired, r.fired);
      }
    }
  }

  lemma ExpiredIsReady(r: Round, expired: seq<Timer>, requests: nat -> seq<Request>, fired: seq<Firing>, t: Timer)
    requires Handled(r, expired, requests) && t in expired && t in r.after
    requires t in r.before ==> Ready(t, r.before[t], fired)
    ensures Ready(t, r.after[t], fired + r.fired)
  {
    var i :| 0 <= i < |expired| && expired[i] == t;
    assert t !in r.added;
    RestartedIsReady(t, r.before[t], fired, r.fired, r.now, i);
  }

  method HappenAdd(queue: TimerQueue, request: Request) returns (ghost round: Round)
    requires queue.Valid() && queue.Covered() && queue.Sound()
    modifies queue
    ensures queue.Valid() && queue.Covered() && queue.Sound()
    ensures fresh(queue.members - old(queue.members))
    ensures round.before == old(Times(queue)) && round.after == Times(queue)
    ensures queue.fired == old(queue.fired) + round.fired
    ensures Matches(round, Add(request))
  {
    ghost var before, fired := Times(queue), queue.fired;
    var t := queue.AddTimer(request.when, request.interval);
    NeverFired(queue.fired, t);
    round := Round(before, before[t := request.when], 0, [], [t]);
    assert fired + [] == fired;
  }

  // HandleRead, with its effect as a round.
  method HandleReadRound(queue: TimerQueue, now: int, consumed: bool, requests: nat -> seq<Request>)
      returns (ghost round: Round, ghost expired: seq<Timer>)
    requires queue.Valid()
    modifies queue, queue.members`when
    ensures queue.Valid() && queue.Covered()
    ensures fresh(queue.members - old(queue.members)) && fresh(Elements(round.added))
    ensures round.before == old(Times(queue)) && round.after == Times(queue)
    ensures queue.fired == old(queue.fired) + round.fired
    ensures Handled(round, expired, requests) && round.now == now
    ensures forall t :: t in round.added ==> (t.repeat <==> t.interval > 0.0000001)
  {
    ghost var before := Times(queue);
    var ts, added, batch := queue.HandleRead(now, consumed, requests);
    expired := ts;
    assert forall t :: t in added ==> t in Elements(added);
    round := Round(before, Times(queue), now, batch, added);
    assert Elements(expired) == Due(round);
  }

  method HappenReadable(queue: TimerQueue, now: int, consumed: bool, requests: nat -> seq<Request>) returns (ghost round: Round)
    requires queue.Valid() && queue.Covered() && queue.Sound()
    modifies queue, queue.members`when
    ensures queue.Valid() && queue.Covered() && queue.Sound()
    ensures fresh(queue.members - old(queue.members))
    ensures round.before == old(Times(queue)) && round.after == Times(queue)
    ensures queue.fired == old(queue.fired) + round.fired
    ensures Matches(round, Readable(now, consumed, requests))
  {
    ghost var fired, expired := queue.fired, [];
    round, expired := HandleReadRound(queue, now, consumed, requests);
    forall t | t in round.added
      ensures LastFired(fired, t) == None
    {
      assert t in Elements(round.added);
      NeverFired(fired, t);
    }
    HandledStaysSound(round, expired, requests, fired);
    assert forall t :: t in queue.members ==> t in round.after && round.after[t] == t.when;
    HandledMatches(round, expired, now, consumed, requests);
  }

  method Happen(queue: TimerQueue, event: Event) returns (ghost round: Round)
    requires queue.Valid() && queue.Covered() && queue.Sound()
    modifies queue, queue.members`when
    ensures queue.Valid() && queue.Covered() && queue.Sound()
    ensures fresh(queue.members - old(queue.members))
    ensures round.before == old(Times(queue)) && round.after == Times(queue)
    ensures queue.fired == old(queue.fired) + round.fired
    ensures Matches(round, event)
  {
    match event {
      case Add(request) => round := HappenAdd(queue, request);
      case Readable(now, consumed, requests) => round := HappenReadable(queue, now, consumed, requests);
    }
  }

  function TimesAfter(rounds: seq<Round>): map<Timer, int> {
    if rounds == [] then map[] else rounds[|rounds| - 1].after
  }

  function AllFired(rounds: seq<Round>): seq<Firing> {
    if rounds == [] then [] else AllFired(rounds[..|rounds| - 1]) + rounds[|rounds| - 1].fired
  }

  // One round for each event, each with the effect of its event on what the one before it left.
  ghost predicate Follows(rounds: seq<Round>, events: seq<Event>) {
    && |rounds| == |events|
    && (forall i :: 0 <= i < |rounds| ==> rounds[i].before == TimesAfter(rounds[..i]) && Matches(rounds[i], events[i]))
  }

  lemma FollowsNext(rounds: seq<Round>, events: seq<Event>, i: nat, round: Round)
    requires i < |events| && Follows(rounds, events[..i])
    requires round.before == TimesAfter(rounds) && Matches(round, events[i])
    ensures Follows(rounds + [round], events[..i + 1])
    ensures TimesAfter(rounds + [round]) == round.after
    ensures AllFired(rounds + [round]) == AllFired(rounds) + round.fired
  {
    var all := rounds + [round];
    assert all[..|rounds|] == rounds;
    forall k | 0 <= k < |all|
      ensures all[k].before == TimesAfter(all[..k]) && Matches(all[k], events[..i + 1][k])
    {
      if k < |rounds| {
        assert all[..k] == rounds[..k] && events[..i + 1][k] == events[..i][k];
      }
    }
  }

  // Over any run from a fresh queue, whatever the clock shows: every event has its effect, the kernel timer
  // stands for the earliest timer after every event, nothing fires before the time it was asked for, a
  // timer that fires twice is repeating and waits for more than its interval, and every timer in the queue
  // waits for the right time.
  method Drive(events: seq<Event>) returns (queue: TimerQueue, ghost rounds: seq<Round>)
    ensures fresh(queue) && queue.Valid() && queue.Covered() && queue.Sound()
    ensures Follows(rounds, events)
    ensures Times(queue) == TimesAfter(rounds) && queue.fired == AllFired(rounds)
    ensures SpacedOut(queue.fired) && OnSchedule(queue)
  {
    queue := new TimerQueue();
    rounds := [];
    for i := 0 to |events|
      invariant fresh(queue) && fresh(queue.members)
      invariant queue.Valid() && queue.Covered() && queue.Sound()
      invariant Follows(rounds, events[..i])
      invariant Times(queue) == TimesAfter(rounds) && queue.fired == AllFired(rounds)
    {
      var round := Happen(queue, events[i]);
      FollowsNext(rounds, events, i, round);
      rounds := rounds + [round];
    }
    assert events[..|events|] == events;
    SoundIsSpacedOut(queue.fired);
    SoundIsOnSchedule(queue);
  }

  // Every timer in the queue waits for the right time: the one asked for, or, when it has fired already,
  // one interval after its last firing, to less than a microsecond and no later.
  ghost predicate OnSchedule(queue: TimerQueue)
    reads queue, queue.members
  {
    forall t :: t in queue.members ==> IsScheduled(queue.fired, t, t.when)
  }

  ghost predicate IsScheduled(fired: seq<Firing>, t: Timer, when: int) {
    match LastFired(fired, t)
    case None => when == t.requested
    case Some(last) =>
      var sum := last as real + t.interval * 1000000.0;
      t.repeat && (if sum >= 0.0 then sum - 1.0 < when as real <= sum else sum <= when as real < sum + 1.0)
  }

  lemma SoundIsOnSchedule(queue: TimerQueue)
    requires queue.Sound()
    ensures OnSchedule(queue)
  {
    forall t | t in queue.members
      ensures IsScheduled(queue.fired, t, t.when)
    {
      if LastFired(queue.fired, t).Some? {
        AfterIsWithinOne(LastFired(queue.fired, t).value, t.interval);
      }
    }
  }

  // Nothing fires before the time it was asked for; a timer that fires twice is repeating, and any two of
  // its firings are more than its interval apart.
  ghost predicate SpacedOut(fired: seq<Firing>) {
    && (forall i :: 0 <= i < |fired| ==> fired[i].timer.requested < fired[i].now)
    && (forall i, j :: 0 <= i < j < |fired| && fired[i].timer == fired[j].timer ==>
          var t := fired[i].timer;
          t.repeat && fired[i].now as real + t.interval * MICROS_PER_SEC as real < fired[j].now as real)
  }

  lemma SoundIsSpacedOut(fired: seq<Firing>)
    requires SoundHistory(fired)
    ensures SpacedOut(fired)
  {
    forall i, j | 0 <= i <= j < |fired|
      ensures fired[i].timer.requested < fired[i].now
      ensures i < j && fired[i].timer == fired[j].timer ==>
                var t := fired[i].timer;
                t.repeat && fired[i].now as real + t.interval * MICROS_PER_SEC as real < fired[j].now as real
    {
      SoundHistoryMeans(fired, i, j);
    }
  }
}
