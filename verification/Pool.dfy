// src/Utils/ThreadPool.cpp: a queue of tasks, a fixed set of workers and one condition
// variable. The pool is considered while it is not stopping.
module Pool {
  import opened Wrappers

  // A task is known by a number: the connection it serves.
  type Task = int

  // Checking: awake and about to look at the queue. Sleeping: parked in the wait.
  datatype Worker = Checking | Sleeping | Running(task: Task)

  // notifications: enqueues that have pushed and not yet called notify_one. enqueued and
  // started record the tasks pushed and popped so far.
  datatype PoolState = PoolState(tasks: seq<Task>, workers: seq<Worker>, notifications: nat,
                                 enqueued: seq<Task>, started: seq<Task>)

  datatype Step =
    | Push(task: Task)
    | Notify(woken: Option<nat>)
    | Look(worker: nat)
    | Finish(worker: nat)
    | Spurious(worker: nat)

  function FreshPool(size: nat): PoolState {
    PoolState([], seq(size, _ => Checking), 0, [], [])
  }

  predicate Is(p: PoolState, worker: nat, w: Worker) {
    worker < |p.workers| && p.workers[worker] == w
  }

  predicate Enabled(p: PoolState, step: Step) {
    match step
    case Push(_) => true
    // notify_one wakes some sleeping worker if there is one, and is lost otherwise.
    case Notify(woken) => p.notifications > 0 &&
                          if woken.Some? then Is(p, woken.value, Sleeping) else Sleeping !in p.workers
    case Look(worker) => Is(p, worker, Checking)
    case Finish(worker) => worker < |p.workers| && p.workers[worker].Running?
    case Spurious(worker) => Is(p, worker, Sleeping)
  }

  function After(p: PoolState, step: Step): PoolState
    requires Enabled(p, step)
  {
    match step
    case Push(task) =>
      p.(tasks := p.tasks + [task], enqueued := p.enqueued + [task], notifications := p.notifications + 1)
    case Notify(woken) =>
      p.(notifications := p.notifications - 1,
         workers := if woken.Some? then p.workers[woken.value := Checking] else p.workers)
    case Look(worker) =>
      if p.tasks == [] then p.(workers := p.workers[worker := Sleeping])
      else p.(workers := p.workers[worker := Running(p.tasks[0])], tasks := p.tasks[1..], started := p.started + [p.tasks[0]])
    case Finish(worker) => p.(workers := p.workers[worker := Checking])
    case Spurious(worker) => p.(workers := p.workers[worker := Checking])
  }

  ghost predicate IsRun(states: seq<PoolState>, steps: seq<Step>) {
    && |states| == |steps| + 1 && states[0] == FreshPool(|states[0].workers|)
    && forall i | 0 <= i < |steps| :: Enabled(states[i], steps[i]) && states[i + 1] == After(states[i], steps[i])
  }

  // ------------------------------------------------------------ work conservation

  // As long as somebody sleeps, every queued task has a notification on its way to the
  // sleepers or an awake worker on its way to the queue.
  ghost predicate WorkConserving(p: PoolState) {
    Sleeping in p.workers ==> |p.tasks| <= p.notifications + Count(p.workers, Checking)
  }

  // Tasks start in the order they were enqueued, each at most once.
  ghost predicate Fifo(p: PoolState) {
    p.enqueued == p.started + p.tasks
  }

  function Count(ws: seq<Worker>, w: Worker): nat {
    multiset(ws)[w]
  }

  lemma CountUpdate(ws: seq<Worker>, i: nat, w: Worker, x: Worker)
    requires i < |ws|
    ensures Count(ws[i := w], x) == Count(ws, x) - (if ws[i] == x then 1 else 0) + (if w == x then 1 else 0)
    ensures x in ws <==> Count(ws, x) > 0
    ensures x in ws[i := w] <==> Count(ws[i := w], x) > 0
  {
    assert multiset(ws[i := w]) == multiset(ws) - multiset{ws[i]} + multiset{w};
    assert x in ws <==> x in multiset(ws);
    assert x in ws[i := w] <==> x in multiset(ws[i := w]);
  }

  lemma StepConservesWork(p: PoolState, step: Step)
    requires WorkConserving(p) && Fifo(p) && Enabled(p, step)
    ensures WorkConserving(After(p, step)) && Fifo(After(p, step))
  {
    if !step.Push? && !(step.Notify? && step.woken.None?) {
      var i := if step.Notify? then step.woken.value else step.worker;
      var w := After(p, step).workers[i];
      CountUpdate(p.workers, i, w, Checking);
      CountUpdate(p.workers, i, w, Sleeping);
    }
    if step.Look? && p.tasks != [] {
      assert p.tasks == [p.tasks[0]] + p.tasks[1..];
    }
  }

  lemma {:induction false} AlwaysWorkConserving(states: seq<PoolState>, steps: seq<Step>, i: nat)
    requires IsRun(states, steps) && i < |states|
    ensures WorkConserving(states[i]) && Fifo(states[i])
    ensures |states[i].workers| == |states[0].workers|
  {
    if i > 0 {
      AlwaysWorkConserving(states, steps, i - 1);
      StepConservesWork(states[i - 1], steps[i - 1]);
    }
  }

  // When nobody is about to act, a task waits only behind workers that are all busy.
  lemma TasksWaitOnlyBehindBusyWorkers(states: seq<PoolState>, steps: seq<Step>, i: nat)
    requires IsRun(states, steps) && i < |states|
    requires states[i].tasks != [] && states[i].notifications == 0 && Checking !in states[i].workers
    ensures forall w | w in states[i].workers :: w.Running?
  {
    AlwaysWorkConserving(states, steps, i);
    assert Checking !in multiset(states[i].workers);
  }

  // ------------------------------------------------------- one worker for each task

  predicate Distinct(ts: seq<Task>) {
    forall i, j | 0 <= i < j < |ts| :: ts[i] != ts[j]
  }

  // A task is in the queue or with exactly one worker, never both.
  ghost predicate OneWorkerEach(p: PoolState) {
    && Fifo(p)
    && (forall w | 0 <= w < |p.workers| && p.workers[w].Running? :: p.workers[w].task in p.started)
    && (forall v, w | 0 <= v < w < |p.workers| && p.workers[v].Running? && p.workers[w].Running? ::
          p.workers[v].task != p.workers[w].task)
  }

  lemma StartedAreNotQueued(p: PoolState)
    requires Fifo(p) && Distinct(p.enqueued)
    ensures forall t | t in p.started :: t !in p.tasks
  {
    forall i, j | 0 <= i < |p.started| && 0 <= j < |p.tasks| ensures p.started[i] != p.tasks[j] {
      var e := p.enqueued;
      assert e[i] == p.started[i] && e[|p.started| + j] == p.tasks[j];
    }
  }

  lemma StepKeepsOneWorkerEach(p: PoolState, step: Step)
    requires OneWorkerEach(p) && Enabled(p, step) && Distinct(p.enqueued)
    ensures OneWorkerEach(After(p, step))
  {
    StartedAreNotQueued(p);
  }

  // ------------------------------------------------------------------- the object

  datatype Turn = Sleep | Quit | Run(task: Task)

  class ThreadPool {
    var tasks: seq<Task>
    var workers: seq<Worker>
    var stop: bool
    ghost var enqueued: seq<Task>
    ghost var started: seq<Task>

    ghost function View(): PoolState
      reads this
    {
      PoolState(tasks, workers, 0, enqueued, started)
    }

    constructor (numThreads: nat)
      ensures View() == FreshPool(numThreads) && !stop
    {
      workers := seq(numThreads, _ => Checking);
      tasks, stop := [], false;
      enqueued, started := [], [];
    }

    // Push under the mutex, then wake one sleeper.
    method Enqueue(task: Task) returns (woken: Option<nat>)
      modifies this
      ensures stop == old(stop) && tasks == old(tasks) + [task]
      ensures if woken.Some? then woken.value < |old(workers)| && old(workers)[woken.value] == Sleeping
                                  && workers == old(workers)[woken.value := Checking]
              else Sleeping !in old(workers) && workers == old(workers)
      ensures Enabled(After(old(View()), Push(task)), Notify(woken))
      ensures View() == After(After(old(View()), Push(task)), Notify(woken))
    {
      tasks := tasks + [task];
      enqueued := enqueued + [task];
      if k: nat :| k < |workers| && workers[k] == Sleeping {
        workers := workers[k := Checking];
        woken := Some(k);
      } else {
        woken := None;
      }
    }

    // One pass of workerThread through the critical section.
    method TakeTask(worker: nat) returns (turn: Turn)
      requires Is(View(), worker, Checking)
      modifies this
      ensures stop == old(stop)
      ensures turn == if old(tasks) != [] then Run(old(tasks)[0]) else if stop then Quit else Sleep
      ensures match turn
              case Run(task) => tasks == old(tasks)[1..] && workers == old(workers)[worker := Running(task)]
              case Sleep => tasks == [] && workers == old(workers)[worker := Sleeping]
              case Quit => tasks == [] && workers == old(workers)
      ensures View() == if turn == Quit then old(View()) else After(old(View()), Look(worker))
    {
      if !(stop || tasks != []) {
        workers := workers[worker := Sleeping];
        return Sleep;
      }
      if stop && tasks == [] {
        return Quit;
      }
      turn := Run(tasks[0]);
      workers := workers[worker := Running(tasks[0])];
      started := started + [tasks[0]];
      tasks := tasks[1..];
    }
  }
}
