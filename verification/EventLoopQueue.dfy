/**
 The queue of closures that any thread hands to an event loop
 (water/net/event_loop.cc: QueueInLoop, Loop, DoRunInLoopFuncs, WakeUp, WakeUpRead).

 Threads interleave, so the queue is a state machine. Each action is one step that no other
 thread can see half done: a critical section of `funcs_mutex_`, one system call on the eventfd,
 or one assignment to a flag.
 */
module EventLoopQueue {

  type Thread = nat

  const LOOP: Thread := 0

  datatype Functor = Functor(owner: Thread, id: nat)

  // Where a thread stands inside QueueInLoop: behind its push and before the test that decides
  // whether to wake the loop, or behind that test and before the write to the eventfd.
  datatype QueuePc = Pushed | Waking

  // Where the loop thread stands.
  datatype LoopPc =
    | Outside                       // before Loop(), or after it returned
    | Entering                      // looping_ is set, quit_ not yet cleared
    | TestQuit                      // about to evaluate the loop condition
    | AtPoll                        // in epoll_wait
    | Dispatching(wakeReady: bool)  // in the event callbacks; wakeReady: WakeUpRead is still to come
    | BeforeSwap                    // calling_funcs_ is set, funcs_ not yet swapped
    | Running(inFunctor: bool)      // draining the swapped batch
    | Leaving                       // behind the loop, looping_ not yet cleared

  datatype State = State(
    funcs: seq<Functor>,            // funcs_
    batch: seq<Functor>,            // what is left of tmp_funcs
    counter: nat,                   // the eventfd
    looping: bool,
    calling: bool,
    quit: bool,
    pc: LoopPc,
    queueing: map<Thread, QueuePc>, // threads inside QueueInLoop
    pushed: seq<Functor>,           // history: every functor, in the order of the pushes
    executed: seq<Functor>,         // history: every functor started, in order
    swaps: nat                      // history: the number of swaps
  )

  datatype Action =
    | Push(t: Thread, id: nat)
    | TestWake(t: Thread)
    | Write(t: Thread)
    | SetQuit
    | EnterLoop
    | ClearQuit
    | TestLoop
    | PollReturns(wakeReady: bool)
    | WakeUpRead
    | EndDispatch
    | Swap
    | StartFunctor
    | FinishFunctor
    | EndRun
    | LeaveLoop

  const Init := State([], [], 0, false, false, false, Outside, map[], [], [], 0)

  // The loop thread can only call QueueInLoop from code that runs on it: before or after Loop(),
  // from an event callback, or from a functor.
  predicate LoopThreadMayCall(s: State) {
    s.pc.Outside? || s.pc.Dispatching? || s.pc == Running(true)
  }

  // The test behind the push in QueueInLoop.
  predicate MustWake(s: State, t: Thread) {
    t != LOOP || s.calling || !s.looping
  }

  predicate Enabled(s: State, a: Action) {
    match a
    case Push(t, _) => t !in s.queueing && (t == LOOP ==> LoopThreadMayCall(s))
    case TestWake(t) => t in s.queueing && s.queueing[t] == Pushed
    case Write(t) => t in s.queueing && s.queueing[t] == Waking
    case SetQuit => true
    case EnterLoop => s.pc == Outside && !s.looping && LOOP !in s.queueing
    case ClearQuit => s.pc == Entering
    case TestLoop => s.pc == TestQuit
    // epoll is level triggered: the wake-up channel is reported only while the counter is positive.
    // It may return for other channels, or on a timeout, at any moment.
    case PollReturns(wakeReady) => s.pc == AtPoll && (wakeReady ==> s.counter > 0)
    case WakeUpRead => s.pc == Dispatching(true) && LOOP !in s.queueing
    case EndDispatch => s.pc == Dispatching(false) && LOOP !in s.queueing
    case Swap => s.pc == BeforeSwap
    case StartFunctor => s.pc == Running(false) && s.batch != []
    case FinishFunctor => s.pc == Running(true) && LOOP !in s.queueing
    case EndRun => s.pc == Running(false) && s.batch == []
    case LeaveLoop => s.pc == Leaving
  }

  function Apply(s: State, a: Action): State
    requires Enabled(s, a)
  {
    match a
    case Push(t, id) =>
      var f := Functor(t, id);
      s.(funcs := s.funcs + [f], pushed := s.pushed + [f], queueing := s.queueing[t := Pushed])
    case TestWake(t) =>
      if MustWake(s, t) then s.(queueing := s.queueing[t := Waking]) else s.(queueing := s.queueing - {t})
    case Write(t) => s.(counter := s.counter + 1, queueing := s.queueing - {t})
    case SetQuit => s.(quit := true)
    case EnterLoop => s.(looping := true, pc := Entering)
    case ClearQuit => s.(quit := false, pc := TestQuit)
    case TestLoop => s.(pc := if s.quit then Leaving else AtPoll)
    case PollReturns(wakeReady) => s.(pc := Dispatching(wakeReady))
    case WakeUpRead => s.(counter := 0, pc := Dispatching(false))
    case EndDispatch => s.(calling := true, pc := BeforeSwap)
    case Swap => s.(batch := s.funcs, funcs := [], pc := Running(false), swaps := s.swaps + 1)
    case StartFunctor => s.(executed := s.executed + [s.batch[0]], batch := s.batch[1..], pc := Running(true))
    case FinishFunctor => s.(pc := Running(false))
    case EndRun => s.(calling := false, pc := TestQuit)
    case LeaveLoop => s.(looping := false, pc := Outside)
  }

  predicate CanRun(s: State, acts: seq<Action>)
    decreases acts
  {
    acts == [] || (Enabled(s, acts[0]) && CanRun(Apply(s, acts[0]), acts[1..]))
  }

  function Run(s: State, acts: seq<Action>): State
    requires CanRun(s, acts)
    decreases acts
  {
    if acts == [] then s else Run(Apply(s, acts[0]), acts[1..])
  }

  /* ---------- What every step keeps ---------- */

  // Some thread has pushed and is bound to write to the eventfd.
  ghost predicate WakeComing(s: State) {
    exists t :: WillWake(s, t)
  }

  ghost predicate WillWake(s: State, t: Thread) {
    t in s.queueing && (s.queueing[t] == Waking || MustWake(s, t))
  }

  // The loop will reach epoll_wait, or stay out of Loop(), before it swaps again.
  predicate PastSwap(s: State) {
    !s.pc.Dispatching? && !s.pc.BeforeSwap?
  }

  // Unless a swap is ahead, waiting closures need a wake-up.
  ghost predicate WakeupReady(s: State) {
    PastSwap(s) && s.funcs != [] ==> s.counter > 0 || WakeComing(s)
  }

  // The flags and the batch say where the loop thread stands.
  predicate Located(s: State) {
    && (s.looping <==> !s.pc.Outside?)
    && (s.calling <==> s.pc.BeforeSwap? || s.pc.Running?)
    && (LOOP in s.queueing ==> LoopThreadMayCall(s))
    && (s.batch != [] ==> s.pc.Running?)
  }

  ghost predicate Inv(s: State) {
    Located(s) && s.executed + s.batch + s.funcs == s.pushed && WakeupReady(s)
  }

  lemma StepKeepsWakeup(s: State, a: Action)
    requires Located(s) && WakeupReady(s) && Enabled(s, a)
    ensures WakeupReady(Apply(s, a))
  {
    var s' := Apply(s, a);
    if PastSwap(s') && s'.funcs != [] && s'.counter == 0 {
      var t: Thread := if a.Push? || a.TestWake? then a.t else LOOP;
      if a.Push? || (a.TestWake? && MustWake(s, t)) {
        assert WillWake(s', t);
      } else {
        assert WakeComing(s);
        var u :| WillWake(s, u);
        assert WillWake(s', u);
      }
    }
  }

  lemma StepKeepsOrder(s: State, a: Action)
    requires Located(s) && s.executed + s.batch + s.funcs == s.pushed && Enabled(s, a)
    ensures var s' := Apply(s, a); s'.executed + s'.batch + s'.funcs == s'.pushed
  {
    var s' := Apply(s, a);
    match a
    case Push(_, _) => assert s'.executed + s'.batch + s'.funcs == s.executed + s.batch + s.funcs + [Functor(a.t, a.id)];
    case StartFunctor => assert s.batch == [s.batch[0]] + s.batch[1..];
    case _ =>
  }

  lemma StepKeepsInv(s: State, a: Action)
    requires Inv(s) && Enabled(s, a)
    ensures Inv(Apply(s, a))
  {
    StepKeepsWakeup(s, a);
    StepKeepsOrder(s, a);
  }

  lemma {:induction false} RunKeepsInv(s: State, acts: seq<Action>)
    requires Inv(s) && CanRun(s, acts)
    ensures Inv(Run(s, acts))
    decreases acts
  {
    if acts != [] {
      StepKeepsInv(s, acts[0]);
      RunKeepsInv(Apply(s, acts[0]), acts[1..]);
    }
  }

  /* ---------- Main results, over every interleaving ---------- */

  // No lost wake-up: whenever closures wait while the loop is about to block, the eventfd is
  // readable or a thread is between its push and its write.
  lemma NoLostWakeup(acts: seq<Action>)
    requires CanRun(Init, acts)
    ensures var s := Run(Init, acts);
            PastSwap(s) && s.funcs != [] ==> s.counter > 0 || WakeComing(s)
  {
    RunKeepsInv(Init, acts);
  }

  // Hence the loop can only stay blocked when nothing is left to do.
  lemma BlockedMeansDrained(acts: seq<Action>)
    requires CanRun(Init, acts)
    ensures var s := Run(Init, acts);
            s.pc == AtPoll && s.counter == 0 && s.queueing == map[] ==> s.executed == s.pushed
  {
    RunKeepsInv(Init, acts);
  }

  // Exactly once, first in first out.
  lemma ExactlyOnceInOrder(acts: seq<Action>)
    requires CanRun(Init, acts)
    ensures var s := Run(Init, acts); s.executed + s.batch + s.funcs == s.pushed
  {
    RunKeepsInv(Init, acts);
  }

  function OwnedBy(fs: seq<Functor>, t: Thread): (r: seq<Functor>)
    ensures forall f :: f in r <==> f in fs && f.owner == t
  {
    if fs == [] then [] else (if fs[0].owner == t then [fs[0]] else []) + OwnedBy(fs[1..], t)
  }

  lemma {:induction false} OwnedByConcat(a: seq<Functor>, b: seq<Functor>, t: Thread)
    ensures OwnedBy(a + b, t) == OwnedBy(a, t) + OwnedBy(b, t)
  {
    if a == [] {
      assert a + b == b;
    } else {
      assert (a + b)[1..] == a[1..] + b && (a + b)[0] == a[0];
      OwnedByConcat(a[1..], b, t);
      var first := if a[0].owner == t then [a[0]] else [];
      assert first + (OwnedBy(a[1..], t) + OwnedBy(b, t)) == (first + OwnedBy(a[1..], t)) + OwnedBy(b, t);
    }
  }

  // Each thread's closures start in the order in which that thread queued them.
  lemma EachThreadInOrder(acts: seq<Action>, t: Thread)
    requires CanRun(Init, acts)
    ensures var s := Run(Init, acts); OwnedBy(s.executed, t) <= OwnedBy(s.pushed, t)
  {
    var s := Run(Init, acts);
    ExactlyOnceInOrder(acts);
    assert s.pushed == s.executed + (s.batch + s.funcs);
    OwnedByConcat(s.executed, s.batch + s.funcs, t);
  }

  /* ---------- How a batch and a pass behave, from any state a run can reach ---------- */

  lemma {:induction false} RunIsMonotone(s: State, acts: seq<Action>)
    requires CanRun(s, acts)
    ensures s.pushed <= Run(s, acts).pushed
    ensures s.executed <= Run(s, acts).executed
    ensures s.swaps <= Run(s, acts).swaps
    decreases acts
  {
    if acts != [] {
      RunIsMonotone(Apply(s, acts[0]), acts[1..]);
    }
  }

  // Between two swaps the batch only shrinks: closures queued meanwhile, even by the closures of
  // the batch themselves, never join it. So a batch always ends.
  lemma {:induction false} BatchIsFixed(s: State, acts: seq<Action>)
    requires CanRun(s, acts) && Run(s, acts).swaps == s.swaps
    ensures Run(s, acts).executed + Run(s, acts).batch == s.executed + s.batch
    decreases acts
  {
    if acts != [] {
      var s' := Apply(s, acts[0]);
      RunIsMonotone(s', acts[1..]);
      if acts[0].StartFunctor? {
        MoveFirst(s.executed, s.batch);
      }
      BatchIsFixed(s', acts[1..]);
    }
  }

  lemma MoveFirst(done: seq<Functor>, batch: seq<Functor>)
    requires batch != []
    ensures (done + [batch[0]]) + batch[1..] == done + batch
  {
  }

  // Once the loop has swapped after a moment s, everything queued before s is executed or in the batch.
  lemma {:induction false} SwapTakesAll(s: State, acts: seq<Action>, n: nat)
    requires Inv(s) && CanRun(s, acts)
    requires n <= |s.executed| + |s.batch| || (n <= |s.pushed| && Run(s, acts).swaps > s.swaps)
    ensures n <= |Run(s, acts).executed| + |Run(s, acts).batch|
    decreases acts
  {
    if acts != [] {
      StepKeepsInv(s, acts[0]);
      SwapTakesAll(Apply(s, acts[0]), acts[1..], n);
    }
  }

  // One swap is enough: when the loop is back at epoll_wait after a swap later than s, every closure
  // queued before s has been executed, in order.
  lemma PassExecutesEarlierPushes(before: seq<Action>, after: seq<Action>)
    requires CanRun(Init, before) && CanRun(Run(Init, before), after)
    ensures var s := Run(Init, before); var e := Run(s, after);
            e.swaps > s.swaps && e.pc == AtPoll ==> s.pushed <= e.executed
  {
    var s := Run(Init, before);
    var e := Run(s, after);
    RunKeepsInv(Init, before);
    RunKeepsInv(s, after);
    if e.swaps > s.swaps && e.pc == AtPoll {
      SwapTakesAll(s, after, |s.pushed|);
      RunIsMonotone(s, after);
      assert e.executed == e.pushed[..|e.executed|];
    }
  }

  /* ---------- Progress of the loop thread on its own ---------- */

  // What the loop thread does to finish a batch of n closures that queue nothing themselves.
  function DrainBatch(n: nat): seq<Action> {
    if n == 0 then [] else [StartFunctor] + ([FinishFunctor] + DrainBatch(n - 1))
  }

  lemma {:induction false} DrainBatchEmptiesBatch(s: State)
    requires s.pc == Running(false) && LOOP !in s.queueing
    ensures CanRun(s, DrainBatch(|s.batch|))
    ensures Run(s, DrainBatch(|s.batch|)) == s.(executed := s.executed + s.batch, batch := [])
    decreases |s.batch|
  {
    if s.batch == [] {
      assert s.executed + s.batch == s.executed;
    } else {
      var rest := DrainBatch(|s.batch| - 1);
      var s1 := Apply(s, StartFunctor);
      var s2 := Apply(s1, FinishFunctor);
      DrainBatchEmptiesBatch(s2);
      RunFirst(s1, FinishFunctor, rest);
      RunFirst(s, StartFunctor, [FinishFunctor] + rest);
      assert s2.executed + s2.batch == s.executed + s.batch;
    }
  }

  lemma RunFirst(s: State, a: Action, rest: seq<Action>)
    requires Enabled(s, a) && CanRun(Apply(s, a), rest)
    ensures CanRun(s, [a] + rest) && Run(s, [a] + rest) == Run(Apply(s, a), rest)
  {
    assert ([a] + rest)[1..] == rest;
  }

  // What the loop thread does from epoll_wait on until it has executed n waiting closures.
  function Pass(n: nat): seq<Action> {
    [PollReturns(true)] + ([WakeUpRead] + ([EndDispatch] + ([Swap] + DrainBatch(n))))
  }

  // A blocked loop with waiting closures is never stuck: once no thread is inside QueueInLoop,
  // epoll_wait can return and the loop thread alone executes everything that was queued.
  lemma WaitingClosuresCanAllRun(acts: seq<Action>)
    requires CanRun(Init, acts)
    requires Run(Init, acts).pc == AtPoll && Run(Init, acts).queueing == map[]
    requires Run(Init, acts).funcs != []
    ensures var s := Run(Init, acts);
            CanRun(s, Pass(|s.funcs|)) && Run(s, Pass(|s.funcs|)).executed == s.pushed
  {
    RunKeepsInv(Init, acts);
    PassExecutesAll(Run(Init, acts));
  }

  lemma SwapAndDrainExecuteAll(s: State)
    requires Inv(s) && s.pc == BeforeSwap && LOOP !in s.queueing
    ensures var rest := [Swap] + DrainBatch(|s.funcs|); CanRun(s, rest) && Run(s, rest).executed == s.pushed
  {
    var s1 := Apply(s, Swap);
    DrainBatchEmptiesBatch(s1);
    RunFirst(s, Swap, DrainBatch(|s.funcs|));
  }

  lemma PassExecutesAll(s: State)
    requires Inv(s) && s.pc == AtPoll && s.counter > 0 && LOOP !in s.queueing
    ensures CanRun(s, Pass(|s.funcs|)) && Run(s, Pass(|s.funcs|)).executed == s.pushed
  {
    StepKeepsInv(s, PollReturns(true));
    var s1 := Apply(s, PollReturns(true));
    StepKeepsInv(s1, WakeUpRead);
    var s2 := Apply(s1, WakeUpRead);
    StepKeepsInv(s2, EndDispatch);
    var s3 := Apply(s2, EndDispatch);
    var rest := [Swap] + DrainBatch(|s.funcs|);
    SwapAndDrainExecuteAll(s3);
    RunFirst(s2, EndDispatch, rest);
    RunFirst(s1, WakeUpRead, [EndDispatch] + rest);
    RunFirst(s, PollReturns(true), [WakeUpRead] + ([EndDispatch] + rest));
  }

  // After such a pass the loop blocks again: the read has taken the eventfd back to zero, so epoll_wait
  // does not return for it until somebody writes.
  lemma LoopBlocksAgain(s: State)
    requires Inv(s) && s.pc == AtPoll && s.counter > 0 && !s.quit && LOOP !in s.queueing
    ensures var acts := Pass(|s.funcs|) + [EndRun, TestLoop];
            && CanRun(s, acts) && Run(s, acts).pc == AtPoll && Run(s, acts).counter == 0
            && !Enabled(Run(s, acts), PollReturns(true))
            && Run(s, acts).executed == s.pushed
  {
    PassExecutesAll(s);
    PassLeavesNothing(s);
    var e := Run(s, Pass(|s.funcs|));
    RunFirst(Apply(e, EndRun), TestLoop, []);
    RunFirst(e, EndRun, [TestLoop]);
    RunAppend(s, Pass(|s.funcs|), [EndRun, TestLoop]);
  }

  lemma PassLeavesNothing(s: State)
    requires s.pc == AtPoll && s.counter > 0 && LOOP !in s.queueing && CanRun(s, Pass(|s.funcs|))
    ensures var e := Run(s, Pass(|s.funcs|));
            e.pc == Running(false) && e.batch == [] && e.counter == 0 && e.quit == s.quit
  {
    var s1 := Apply(s, PollReturns(true));
    var s2 := Apply(s1, WakeUpRead);
    var s3 := Apply(s2, EndDispatch);
    var s4 := Apply(s3, Swap);
    var rest := DrainBatch(|s.funcs|);
    DrainBatchEmptiesBatch(s4);
    RunFirst(s3, Swap, rest);
    RunFirst(s2, EndDispatch, [Swap] + rest);
    RunFirst(s1, WakeUpRead, [EndDispatch] + ([Swap] + rest));
    RunFirst(s, PollReturns(true), [WakeUpRead] + ([EndDispatch] + ([Swap] + rest)));
  }

  lemma {:induction false} RunAppend(s: State, a: seq<Action>, b: seq<Action>)
    requires CanRun(s, a) && CanRun(Run(s, a), b)
    ensures CanRun(s, a + b) && Run(s, a + b) == Run(Run(s, a), b)
    decreases a
  {
    if a == [] {
      assert a + b == b;
    } else {
      assert (a + b)[1..] == a[1..] + b;
      RunAppend(Apply(s, a[0]), a[1..], b);
    }
  }

  // From end to end: a thread queues a closure for a blocked loop, which wakes up and executes it.
  lemma QueuedClosureRuns(acts: seq<Action>, t: Thread, id: nat)
    requires CanRun(Init, acts) && t != LOOP
    requires Run(Init, acts).pc == AtPoll && Run(Init, acts).queueing == map[]
    ensures var s := Run(Init, acts);
            var more := [Push(t, id), TestWake(t), Write(t)] + Pass(|s.funcs| + 1);
            CanRun(s, more) && Run(s, more).executed == s.pushed + [Functor(t, id)]
  {
    RunKeepsInv(Init, acts);
    var s := Run(Init, acts);
    PushWakes(s, t, id);
    var e := Run(s, [Push(t, id), TestWake(t), Write(t)]);
    RunKeepsInv(s, [Push(t, id), TestWake(t), Write(t)]);
    PassExecutesAll(e);
    RunAppend(s, [Push(t, id), TestWake(t), Write(t)], Pass(|s.funcs| + 1));
  }

  lemma PushWakes(s: State, t: Thread, id: nat)
    requires t != LOOP && s.queueing == map[]
    ensures var acts := [Push(t, id), TestWake(t), Write(t)];
            && CanRun(s, acts)
            && Run(s, acts) == s.(funcs := s.funcs + [Functor(t, id)], pushed := s.pushed + [Functor(t, id)], counter := s.counter + 1)
  {
    var s1 := Apply(s, Push(t, id));
    var s2 := Apply(s1, TestWake(t));
    RunFirst(s2, Write(t), []);
    RunFirst(s1, TestWake(t), [Write(t)]);
    RunFirst(s, Push(t, id), [TestWake(t)] + [Write(t)]);
    assert [Push(t, id)] + ([TestWake(t)] + [Write(t)]) == [Push(t, id), TestWake(t), Write(t)];
    assert Apply(s2, Write(t)).queueing == map[];
  }

  // The loop thread itself can queue from an event callback, without waking itself, and the closure is
  // executed in the same pass.
  lemma CallbackClosureRunsInPass(s: State, id: nat)
    requires Inv(s) && s.pc == Dispatching(false) && LOOP !in s.queueing
    ensures var acts := [Push(LOOP, id)] + ([TestWake(LOOP)] + ([EndDispatch] + ([Swap] + DrainBatch(|s.funcs| + 1))));
            && CanRun(s, acts)
            && Run(s, acts).executed == s.pushed + [Functor(LOOP, id)] && Run(s, acts).counter == s.counter
  {
    var s1 := Apply(s, Push(LOOP, id));
    StepKeepsInv(s, Push(LOOP, id));
    var s2 := Apply(s1, TestWake(LOOP));
    StepKeepsInv(s1, TestWake(LOOP));
    var s3 := Apply(s2, EndDispatch);
    StepKeepsInv(s2, EndDispatch);
    var rest := [Swap] + DrainBatch(|s.funcs| + 1);
    SwapAndDrainExecuteAll(s3);
    SwapAndDrainWriteNothing(s3);
    RunFirst(s2, EndDispatch, rest);
    RunFirst(s1, TestWake(LOOP), [EndDispatch] + rest);
    RunFirst(s, Push(LOOP, id), [TestWake(LOOP)] + ([EndDispatch] + rest));
  }

  lemma SwapAndDrainWriteNothing(s: State)
    requires s.pc == BeforeSwap && LOOP !in s.queueing
    ensures var rest := [Swap] + DrainBatch(|s.funcs|); CanRun(s, rest) && Run(s, rest).counter == s.counter
  {
    DrainBatchEmptiesBatch(Apply(s, Swap));
    RunFirst(s, Swap, DrainBatch(|s.funcs|));
  }

  // From a functor, and outside Loop, it wakes itself, so that the next epoll_wait returns.
  lemma OwnClosureWakesLater(s: State, id: nat)
    requires Inv(s) && LOOP !in s.queueing && (s.pc == Running(true) || s.pc == Outside)
    ensures var acts := [Push(LOOP, id)] + ([TestWake(LOOP)] + [Write(LOOP)]);
            && CanRun(s, acts) && Run(s, acts).counter == s.counter + 1
            && Run(s, acts).funcs == s.funcs + [Functor(LOOP, id)] && Run(s, acts).pc == s.pc
  {
    var s1 := Apply(s, Push(LOOP, id));
    var s2 := Apply(s1, TestWake(LOOP));
    RunFirst(s2, Write(LOOP), []);
    RunFirst(s1, TestWake(LOOP), [Write(LOOP)]);
    RunFirst(s, Push(LOOP, id), [TestWake(LOOP)] + [Write(LOOP)]);
  }

  /* ---------- What the actions of a run say about its state ---------- */

  // The closures queued in a run, in order.
  function PushesOf(acts: seq<Action>): seq<Functor> {
    if acts == [] then []
    else (if acts[0].Push? then [Functor(acts[0].t, acts[0].id)] else []) + PushesOf(acts[1..])
  }

  // The writes to the eventfd since it was last read, on top of what was there.
  function WritesPending(was: nat, acts: seq<Action>): nat
    decreases acts
  {
    if acts == [] then was
    else
      WritesPending(if acts[0].Write? then was + 1 else if acts[0].WakeUpRead? then 0 else was, acts[1..])
  }

  // Nothing is queued, and no wake-up sent, but by QueueInLoop, and nothing of either is left out.
  lemma {:induction false} ActionsDecide(s: State, acts: seq<Action>)
    requires CanRun(s, acts)
    ensures Run(s, acts).pushed == s.pushed + PushesOf(acts)
    ensures Run(s, acts).counter == WritesPending(s.counter, acts)
    decreases acts
  {
    if acts == [] {
      assert s.pushed + [] == s.pushed;
    } else {
      var first := if acts[0].Push? then [Functor(acts[0].t, acts[0].id)] else [];
      ActionsDecide(Apply(s, acts[0]), acts[1..]);
      assert s.pushed + (first + PushesOf(acts[1..])) == (s.pushed + first) + PushesOf(acts[1..]);
      assert s.pushed + [] == s.pushed;
    }
  }

  // What is started in a run from the beginning is what was queued, in order.
  lemma ExecutedIsWhatWasQueued(acts: seq<Action>)
    requires CanRun(Init, acts)
    ensures Run(Init, acts).executed <= PushesOf(acts)
  {
    ExactlyOnceInOrder(acts);
    ActionsDecide(Init, acts);
    var s := Run(Init, acts);
    PrefixOfSum(s.executed, s.batch, s.funcs);
    NothingBefore(PushesOf(acts));
  }

  lemma PrefixOfSum(a: seq<Functor>, b: seq<Functor>, c: seq<Functor>)
    ensures a <= a + b + c
  {
  }

  lemma NothingBefore(fs: seq<Functor>)
    ensures [] + fs == fs
  {
  }

  // The loop thread writes to the eventfd only where nothing else would make it see the closure: outside
  // Loop, and from a functor. A closure queued by an event callback is run in the same pass anyway.
  lemma {:induction false} LoopWakesItselfOnlyIfNeeded(s: State, acts: seq<Action>)
    requires Inv(s) && CanRun(s, acts) && NeedsOwnWakeup(s)
    ensures NeedsOwnWakeup(Run(s, acts))
    decreases acts
  {
    if acts != [] {
      StepKeepsInv(s, acts[0]);
      LoopWakesItselfOnlyIfNeeded(Apply(s, acts[0]), acts[1..]);
    }
  }

  predicate NeedsOwnWakeup(s: State) {
    LOOP in s.queueing && s.queueing[LOOP] == Waking ==> s.pc.Outside? || s.pc == Running(true)
  }

  // A thread other than the loop's always wakes the loop.
  lemma OthersAlwaysWake(s: State, t: Thread)
    requires Enabled(s, TestWake(t))
    ensures var s' := Apply(s, TestWake(t));
            Enabled(s', Write(t)) <==> t != LOOP || s.calling || !s.looping
  {
  }

  /* ---------- Quitting ---------- */

  // As long as no call of Loop clears a pending quit, the loop polls no more: it is in epoll_wait only if
  // it was there when the quit came and has not returned from it.
  lemma {:induction false} QuitStopsPolling(s: State, acts: seq<Action>)
    requires CanRun(s, acts) && s.quit && ClearQuit !in acts
    ensures Run(s, acts).quit
    ensures Run(s, acts).pc == AtPoll <==> s.pc == AtPoll && forall a :: a in acts ==> !a.PollReturns?
    decreases acts
  {
    if acts != [] {
      assert acts[0] in acts;
      assert acts == [acts[0]] + acts[1..];
      QuitStopsPolling(Apply(s, acts[0]), acts[1..]);
    }
  }

  // The loop thread is in the while statement of Loop, its condition included.
  predicate InWhile(s: State) {
    !s.pc.Outside? && !s.pc.Entering? && !s.pc.Leaving?
  }

  // Until the loop condition is tested, a pending quit is cleared on the way into the while statement and
  // by nothing else.
  lemma {:induction false} QuitUntilTest(s: State, acts: seq<Action>)
    requires CanRun(s, acts) && TestLoop !in acts && SetQuit !in acts
    ensures var e := Run(s, acts);
            if InWhile(s) then InWhile(e) && e.quit == s.quit else InWhile(e) ==> !e.quit
    decreases acts
  {
    if acts != [] {
      assert acts[0] in acts;
      QuitUntilTest(Apply(s, acts[0]), acts[1..]);
    }
  }

  // A quit asked for at any moment ends the loop at the next test of its condition if and only if the loop
  // thread was in the while statement at that moment. That looping_ is set is not enough: a quit that
  // comes before Loop has cleared quit_ is lost, and so is one that comes behind the while statement.
  lemma QuitIsHonouredIff(before: seq<Action>, between: seq<Action>)
    requires CanRun(Init, before) && CanRun(Apply(Run(Init, before), SetQuit), between)
    requires TestLoop !in between && SetQuit !in between
    requires Enabled(Run(Apply(Run(Init, before), SetQuit), between), TestLoop)
    ensures var s := Run(Init, before); var e := Run(Apply(s, SetQuit), between);
            Apply(e, TestLoop).pc == Leaving <==> InWhile(s)
  {
    QuitUntilTest(Apply(Run(Init, before), SetQuit), between);
  }

  // The losing cases do occur. From every reachable state in which Loop can be called, a quit just before
  // the call is lost,
  lemma EarlyQuitIsLost(acts: seq<Action>)
    requires CanRun(Init, acts) && Enabled(Run(Init, acts), EnterLoop)
    ensures var s, more := Run(Init, acts), [SetQuit, EnterLoop, ClearQuit, TestLoop];
            CanRun(s, more) && Run(s, more).pc == AtPoll
  {
    EnterAndPoll(Apply(Run(Init, acts), SetQuit));
    RunFirst(Run(Init, acts), SetQuit, [EnterLoop] + [ClearQuit, TestLoop]);
    assert [SetQuit] + ([EnterLoop] + [ClearQuit, TestLoop]) == [SetQuit, EnterLoop, ClearQuit, TestLoop];
  }

  // a quit just behind its first assignment is lost although looping_ is set,
  lemma QuitOnEntryIsLost(acts: seq<Action>)
    requires CanRun(Init, acts) && Enabled(Run(Init, acts), EnterLoop)
    ensures var s, more := Run(Init, acts), [EnterLoop, SetQuit, ClearQuit, TestLoop];
            && CanRun(s, more) && Run(s, more).pc == AtPoll
            && Apply(s, EnterLoop).looping
  {
    var s1 := Apply(Run(Init, acts), EnterLoop);
    ClearAndPoll(Apply(s1, SetQuit));
    RunFirst(s1, SetQuit, [ClearQuit, TestLoop]);
    RunFirst(Run(Init, acts), EnterLoop, [SetQuit] + [ClearQuit, TestLoop]);
    assert [EnterLoop] + ([SetQuit] + [ClearQuit, TestLoop]) == [EnterLoop, SetQuit, ClearQuit, TestLoop];
  }

  // and a quit between the while statement and the last assignment is lost on the next call of Loop.
  lemma QuitOnExitIsLost(acts: seq<Action>)
    requires CanRun(Init, acts) && Run(Init, acts).pc == Leaving
    ensures var s, more := Run(Init, acts), [SetQuit, LeaveLoop, EnterLoop, ClearQuit, TestLoop];
            CanRun(s, more) && Run(s, more).pc == AtPoll
  {
    RunKeepsInv(Init, acts);
    var s1 := Apply(Run(Init, acts), SetQuit);
    EnterAndPoll(Apply(s1, LeaveLoop));
    RunFirst(s1, LeaveLoop, [EnterLoop] + [ClearQuit, TestLoop]);
    RunFirst(Run(Init, acts), SetQuit, [LeaveLoop] + ([EnterLoop] + [ClearQuit, TestLoop]));
    assert [SetQuit] + ([LeaveLoop] + ([EnterLoop] + [ClearQuit, TestLoop])) ==
      [SetQuit, LeaveLoop, EnterLoop, ClearQuit, TestLoop];
  }

  lemma ClearAndPoll(s: State)
    requires s.pc == Entering
    ensures CanRun(s, [ClearQuit, TestLoop]) && Run(s, [ClearQuit, TestLoop]).pc == AtPoll
  {
    RunFirst(Apply(s, ClearQuit), TestLoop, []);
    RunFirst(s, ClearQuit, [TestLoop]);
  }

  lemma EnterAndPoll(s: State)
    requires Enabled(s, EnterLoop)
    ensures var more := [EnterLoop] + [ClearQuit, TestLoop]; CanRun(s, more) && Run(s, more).pc == AtPoll
  {
    ClearAndPoll(Apply(s, EnterLoop));
    RunFirst(s, EnterLoop, [ClearQuit, TestLoop]);
  }
}
