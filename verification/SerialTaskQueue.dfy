/**
 The serial task queue and its barrier (water/base/serial_task_queue.cc, water/base/task_queue.h). Any
 number of threads submit tasks, one worker runs them. Every action is one step: a critical section of
 `task_mutex_` (waiting on the condition variable releases the lock in the same step), or the end of a
 part of a task. Tasks are numbered in the order of their submission.
 */
module SerialTaskQueue {

  type Thread = nat

  const WORKER: Thread := 0

  // A task given to RunTaskInQueue, or the wrapper that SyncTaskInQueue makes, with its promise.
  datatype Job = Plain | Sync(caller: Thread)

  datatype Pc =
    | Top                       // about to take the lock
    | Asleep(notified: bool)    // in task_cond_.wait
    | Running(task: nat)        // in the body of a task
    | Finishing(task: nat)      // behind the body; the promise of a Sync job has been set

  datatype State = State(
    submitted: seq<Job>,        // history: all tasks, in the order of submission
    queue: seq<nat>,            // task_queue_
    pc: Pc,
    completed: seq<nat>,        // history: finished tasks, in order
    promises: set<nat>,         // the Sync tasks whose promise has its value
    waiting: map<Thread, nat>   // each thread inside fut.get(), and what it waits for
  )

  datatype Action =
    | Submit(t: Thread)
    | SubmitSync(t: Thread)
    | Return(t: Thread)         // SyncTaskInQueue returns
    | Lock
    | WakeUp                    // notified, or for no reason
    | EndBody
    | EndTask

  const Init := State([], [], Top, [], {}, map[])

  // A thread can submit when it is not blocked; the worker only from the body of a task.
  predicate MaySubmit(s: State, t: Thread) {
    t !in s.waiting && (t == WORKER ==> s.pc.Running?)
  }

  predicate Enabled(s: State, a: Action) {
    match a
    case Submit(t) => MaySubmit(s, t)
    case SubmitSync(t) => MaySubmit(s, t)
    case Return(t) => t in s.waiting && s.waiting[t] in s.promises
    case Lock => s.pc.Top?
    case WakeUp => s.pc.Asleep?
    case EndBody => s.pc.Running? && WORKER !in s.waiting
    case EndTask => s.pc.Finishing?
  }

  // RunTaskInQueue: push and notify_one, under the lock.
  function Push(s: State, job: Job): State {
    s.(submitted := s.submitted + [job],
       queue := s.queue + [|s.submitted|],
       pc := if s.pc.Asleep? then Asleep(true) else s.pc)
  }

  // The worker, with the lock: take the front task, or wait.
  function TakeOrSleep(s: State): State {
    if s.queue == [] then s.(pc := Asleep(false)) else s.(pc := Running(s.queue[0]), queue := s.queue[1..])
  }

  function Apply(s: State, a: Action): State
    requires Enabled(s, a)
  {
    match a
    case Submit(t) => Push(s, Plain)
    case SubmitSync(t) => Push(s, Sync(t)).(waiting := s.waiting[t := |s.submitted|])
    case Return(t) => s.(waiting := s.waiting - {t})
    case Lock => TakeOrSleep(s)
    case WakeUp => TakeOrSleep(s)
    case EndBody =>
      var k := s.pc.task;
      s.(pc := Finishing(k),
         promises := s.promises + if k < |s.submitted| && s.submitted[k].Sync? then {k} else {})
    case EndTask => s.(pc := Top, completed := s.completed + [s.pc.task])
  }

  predicate CanRun(s: State, acts: seq<Action>)
    decreases acts
  {
    acts == [] || (Enabled(s, acts[0]) && CanRun(Apply(s, acts[0]), acts[1..]))
  }

  function Run(s: State, acts: seq<Action>): State
    requires CanRun(s, acts)
    decreases acts
  {
    if acts == [] then s else Run(Apply(s, acts[0]), acts[1..])
  }

  /* ---------- What every step keeps ---------- */

  function UpTo(n: nat): (ks: seq<nat>)
    ensures |ks| == n && forall i :: 0 <= i < n ==> ks[i] == i
  {
    if n == 0 then [] else UpTo(n - 1) + [n - 1]
  }

  function Current(s: State): seq<nat> {
    if s.pc.Running? || s.pc.Finishing? then [s.pc.task] else []
  }

  ghost predicate Inv(s: State) {
    && s.completed + Current(s) + s.queue == UpTo(|s.submitted|)
    && (forall k :: k in s.promises ==> k < |s.completed| || s.pc == Finishing(k))
    && (forall k :: 0 <= k < |s.submitted| && s.submitted[k].Sync? && (k < |s.completed| || s.pc == Finishing(k)) ==>
          k in s.promises)
    && (s.pc.Asleep? ==> (s.pc.notified <==> s.queue != []))
    && (forall t :: t in s.waiting ==> s.waiting[t] < |s.submitted| && s.submitted[s.waiting[t]] == Sync(t))
    && (WORKER in s.waiting ==> s.pc.Running? && s.pc.task < s.waiting[WORKER])
  }

  lemma CurrentIsNext(s: State)
    requires Inv(s) && Current(s) != []
    ensures Current(s) == [|s.completed|] && |s.completed| < |s.submitted|
  {
    assert UpTo(|s.submitted|)[|s.completed|] == (s.completed + Current(s) + s.queue)[|s.completed|];
  }

  lemma PushKeepsInv(s: State, job: Job)
    requires Inv(s)
    ensures Inv(Push(s, job))
  {
    var s' := Push(s, job);
    if Current(s) != [] {
      CurrentIsNext(s);
    }
    assert |s.completed| + |Current(s)| + |s.queue| == |UpTo(|s.submitted|)|;
    assert UpTo(|s.submitted| + 1) == UpTo(|s.submitted|) + [|s.submitted|];
    assert s'.completed + Current(s') + s'.queue == s.completed + Current(s) + s.queue + [|s.submitted|];
  }

  lemma TakeKeepsInv(s: State)
    requires Inv(s) && (s.pc.Top? || s.pc.Asleep?)
    ensures Inv(TakeOrSleep(s))
  {
    var s' := TakeOrSleep(s);
    if s.queue != [] {
      assert s.queue == [s.queue[0]] + s.queue[1..];
      assert s'.completed + Current(s') + s'.queue == s.completed + Current(s) + s.queue;
    }
  }

  lemma EndBodyKeepsInv(s: State)
    requires Inv(s) && Enabled(s, EndBody)
    ensures Inv(Apply(s, EndBody))
  {
    CurrentIsNext(s);
  }

  lemma EndTaskKeepsInv(s: State)
    requires Inv(s) && Enabled(s, EndTask)
    ensures Inv(Apply(s, EndTask))
  {
    CurrentIsNext(s);
  }

  lemma StepKeepsInv(s: State, a: Action)
    requires Inv(s) && Enabled(s, a)
    ensures Inv(Apply(s, a))
  {
    match a {
      case Submit(t) => PushKeepsInv(s, Plain);
      case SubmitSync(t) =>
        PushKeepsInv(s, Sync(t));
        if s.pc.Running? {
          CurrentIsNext(s);
        }
      case Lock => TakeKeepsInv(s);
      case WakeUp => TakeKeepsInv(s);
      case EndBody => EndBodyKeepsInv(s);
      case EndTask => EndTaskKeepsInv(s);
      case Return(t) =>
    }
  }

  lemma {:induction false} RunKeepsInv(s: State, acts: seq<Action>)
    requires Inv(s) && CanRun(s, acts)
    ensures Inv(Run(s, acts))
    decreases acts
  {
    if acts != [] {
      StepKeepsInv(s, acts[0]);
      RunKeepsInv(Apply(s, acts[0]), acts[1..]);
    }
  }

  /* ---------- Main results, over every interleaving ---------- */

  // Tasks run one at a time, each once, in the order of submission.
  lemma SerialInOrder(acts: seq<Action>)
    requires CanRun(Init, acts)
    ensures var s := Run(Init, acts);
            s.completed + Current(s) + s.queue == UpTo(|s.submitted|) && |Current(s)| <= 1
  {
    RunKeepsInv(Init, acts);
  }

  // When SyncTaskInQueue can return, every task submitted before its task has ended.
  lemma BarrierWaitsForEarlierTasks(acts: seq<Action>, t: Thread, k: nat)
    requires CanRun(Init, acts) && Enabled(Run(Init, acts), Return(t))
    requires k < Run(Init, acts).waiting[t]
    ensures k in Run(Init, acts).completed
  {
    RunKeepsInv(Init, acts);
    var s := Run(Init, acts);
    if s.pc.Finishing? {
      CurrentIsNext(s);
    }
    assert s.completed[k] == UpTo(|s.submitted|)[k];
  }

  // The worker sleeps without a notification only when there is nothing to do.
  lemma NoLostNotification(acts: seq<Action>)
    requires CanRun(Init, acts)
    ensures var s := Run(Init, acts); s.pc.Asleep? ==> (s.pc.notified <==> s.queue != [])
  {
    RunKeepsInv(Init, acts);
  }

  /* ---------- When the barrier can complete ---------- */

  // A task that calls SyncTaskInQueue on its own queue blocks the worker for good, and with it every
  // thread whose promise is not set yet.
  lemma {:induction false} BlockedWorkerStaysBlocked(s: State, acts: seq<Action>)
    requires Inv(s) && WORKER in s.waiting && CanRun(s, acts)
    ensures var e := Run(s, acts);
            && WORKER in e.waiting && e.completed == s.completed && e.promises == s.promises
            && forall t :: t in s.waiting && s.waiting[t] !in s.promises ==> t in e.waiting && e.waiting[t] == s.waiting[t]
    decreases acts
  {
    CurrentIsNext(s);
    assert s.waiting[WORKER] !in s.promises;
    if acts != [] {
      StepKeepsInv(s, acts[0]);
      BlockedWorkerStaysBlocked(Apply(s, acts[0]), acts[1..]);
    }
  }

  lemma RunFirst(s: State, a: Action, rest: seq<Action>)
    requires Enabled(s, a) && CanRun(Apply(s, a), rest)
    ensures CanRun(s, [a] + rest) && Run(s, [a] + rest) == Run(Apply(s, a), rest)
  {
    assert ([a] + rest)[1..] == rest;
  }

  // What the worker does on its own, from a state where it is not blocked, to run everything.
  function Drain(s: State): seq<Action>
    decreases |s.queue|, if s.pc.Running? then 3 else if s.pc.Finishing? then 2 else 1
  {
    match s.pc
    case Running(_) => if WORKER in s.waiting then [] else [EndBody] + Drain(Apply(s, EndBody))
    case Finishing(_) => [EndTask] + Drain(Apply(s, EndTask))
    case Top => if s.queue == [] then [] else [Lock] + Drain(Apply(s, Lock))
    case Asleep(_) => if s.queue == [] then [] else [WakeUp] + Drain(Apply(s, WakeUp))
  }

  lemma {:induction false} DrainCompletesAll(s: State)
    requires Inv(s) && WORKER !in s.waiting
    ensures CanRun(s, Drain(s))
    ensures var e := Run(s, Drain(s));
            Inv(e) && e.completed == UpTo(|s.submitted|) && e.submitted == s.submitted && e.waiting == s.waiting
    decreases |s.queue|, if s.pc.Running? then 3 else if s.pc.Finishing? then 2 else 1
  {
    if Drain(s) != [] {
      var a := Drain(s)[0];
      StepKeepsInv(s, a);
      DrainCompletesAll(Apply(s, a));
      RunFirst(s, a, Drain(Apply(s, a)));
    }
  }

  ghost predicate ReturnsAfter(s: State, more: seq<Action>, t: Thread) {
    CanRun(s, more) && Enabled(Run(s, more), Return(t))
  }

  // A thread in SyncTaskInQueue can still come back exactly when its promise is set already or the
  // worker is not itself inside SyncTaskInQueue.
  lemma BarrierCanCompleteIff(acts: seq<Action>, t: Thread)
    requires CanRun(Init, acts) && t in Run(Init, acts).waiting
    ensures var s := Run(Init, acts);
            (exists more :: ReturnsAfter(s, more, t)) <==> s.waiting[t] in s.promises || WORKER !in s.waiting
  {
    RunKeepsInv(Init, acts);
    var s := Run(Init, acts);
    if s.waiting[t] in s.promises {
      assert ReturnsAfter(s, [], t);
    } else if WORKER !in s.waiting {
      DrainCompletesAll(s);
      assert ReturnsAfter(s, Drain(s), t);
    } else {
      forall more | CanRun(s, more)
        ensures !ReturnsAfter(s, more, t)
      {
        BlockedWorkerStaysBlocked(s, more);
      }
    }
  }

  // Such a run: the worker runs a task that calls SyncTaskInQueue on its own queue, and never returns.
  lemma WorkerCanBlockItself(more: seq<Action>)
    ensures var acts := [Submit(1), Lock, SubmitSync(WORKER)];
            && CanRun(Init, acts) && WORKER in Run(Init, acts).waiting
            && !ReturnsAfter(Run(Init, acts), more, WORKER)
  {
    var s1 := Apply(Init, Submit(1));
    var s2 := Apply(s1, Lock);
    RunFirst(s2, SubmitSync(WORKER), []);
    RunFirst(s1, Lock, [SubmitSync(WORKER)]);
    RunFirst(Init, Submit(1), [Lock, SubmitSync(WORKER)]);
    BarrierCanCompleteIff([Submit(1), Lock, SubmitSync(WORKER)], WORKER);
  }

  /* ---------- Everybody comes back ---------- */

  lemma {:induction false} RunAppend(s: State, a: seq<Action>, b: seq<Action>)
    requires CanRun(s, a) && CanRun(Run(s, a), b)
    ensures CanRun(s, a + b) && Run(s, a + b) == Run(Run(s, a), b)
    decreases a
  {
    if a == [] {
      assert a + b == b;
    } else {
      assert (a + b)[1..] == a[1..] + b;
      RunAppend(Apply(s, a[0]), a[1..], b);
    }
  }

  // When every promise is set, the waiting threads can return one after the other.
  lemma {:induction false} AllReturn(s: State) returns (acts: seq<Action>)
    requires forall t :: t in s.waiting ==> s.waiting[t] in s.promises
    ensures CanRun(s, acts) && Run(s, acts) == s.(waiting := map[])
    decreases |s.waiting|
  {
    if s.waiting == map[] {
      acts := [];
    } else {
      var t :| t in s.waiting;
      var s' := Apply(s, Return(t));
      assert s'.waiting.Keys == s.waiting.Keys - {t};
      assert |s'.waiting| == |s'.waiting.Keys| < |s.waiting.Keys| == |s.waiting|;
      var rest := AllReturn(s');
      RunFirst(s, Return(t), rest);
      acts := [Return(t)] + rest;
    }
  }

  // From every reachable state in which the worker is not itself waiting, all tasks can be finished and all
  // threads come back from SyncTaskInQueue.
  lemma EverybodyCanReturn(before: seq<Action>) returns (acts: seq<Action>)
    requires CanRun(Init, before) && WORKER !in Run(Init, before).waiting
    ensures CanRun(Run(Init, before), acts)
    ensures var s, e := Run(Init, before), Run(Run(Init, before), acts);
            e.waiting == map[] && e.submitted == s.submitted && e.completed == UpTo(|s.submitted|)
  {
    RunKeepsInv(Init, before);
    var s := Run(Init, before);
    DrainCompletesAll(s);
    var e := Run(s, Drain(s));
    PromisesAreSet(e);
    var back := AllReturn(e);
    RunAppend(s, Drain(s), back);
    acts := Drain(s) + back;
  }

  lemma PromisesAreSet(s: State)
    requires Inv(s) && s.completed == UpTo(|s.submitted|)
    ensures forall t :: t in s.waiting ==> s.waiting[t] in s.promises
  {
  }

  /* ---------- An idle worker sleeps ---------- */

  // A worker that finds nothing goes to sleep, also after a wake-up for no reason, and sleeps until somebody
  // submits.
  lemma {:induction false} IdleWorkerSleeps(s: State, acts: seq<Action>)
    requires s.queue == [] && s.pc == Asleep(false) && CanRun(s, acts)
    requires forall i :: 0 <= i < |acts| ==> !acts[i].Submit? && !acts[i].SubmitSync?
    ensures Run(s, acts).pc == Asleep(false) && Run(s, acts).queue == []
    decreases acts
  {
    if acts != [] {
      IdleWorkerSleeps(Apply(s, acts[0]), acts[1..]);
    }
  }

  lemma WorkerFallsAsleep(s: State)
    requires Enabled(s, Lock)
    ensures Apply(s, Lock).pc == Asleep(false) <==> s.queue == []
  {
  }

  /* ---------- What the actions of a run say about its state ---------- */

  function JobsOf(acts: seq<Action>): seq<Job> {
    if acts == [] then []
    else
      (match acts[0]
       case Submit(_) => [Plain]
       case SubmitSync(t) => [Sync(t)]
       case _ => []) + JobsOf(acts[1..])
  }

  // What is submitted is what the threads gave to the queue, each job once and in order.
  lemma {:induction false} SubmittedAreJobs(s: State, acts: seq<Action>)
    requires CanRun(s, acts)
    ensures Run(s, acts).submitted == s.submitted + JobsOf(acts)
    decreases acts
  {
    if acts == [] {
      Regroup(s.submitted, [], []);
    } else {
      SubmittedAreJobs(Apply(s, acts[0]), acts[1..]);
      Regroup(s.submitted, JobsOf([acts[0]]), JobsOf(acts[1..]));
      FirstJob(acts);
      assert Apply(s, acts[0]).submitted == s.submitted + JobsOf([acts[0]]) by {
        Regroup(s.submitted, [], []);
      }
    }
  }

  lemma FirstJob(acts: seq<Action>)
    requires acts != []
    ensures JobsOf(acts) == JobsOf([acts[0]]) + JobsOf(acts[1..])
    ensures JobsOf([acts[0]]) == match acts[0] { case Submit(_) => [Plain] case SubmitSync(t) => [Sync(t)] case _ => [] }
  {
    assert [acts[0]][1..] == [];
  }

  lemma Regroup(a: seq<Job>, b: seq<Job>, c: seq<Job>)
    ensures (a + b) + c == a + (b + c) && a + [] == a
  {
  }
}
