// The condition-variable protocol of src/Server/Dispatcher.cpp: any number of producers
// in queueMessage, one consumer in run, callers of stop, and spurious wake-ups.
module DispatcherProtocol {
  import opened Dispatch

  // Where the consumer thread is.
  datatype Consumer =
    | LoopHead   // about to test running and the server status
    | Entering   // waiting for the mutex before the wait
    | Holding    // has the mutex, about to test the wait predicate
    | Parked     // asleep in the wait, not signalled
    | Woken      // out of the sleep, waiting for the mutex
    | Ready      // has the mutex, the wait predicate was true
    | Processing // has popped a message and released the mutex
    | Exited

  datatype Mutex = Free | HeldByConsumer | HeldByProducer

  // stopsToNotify: calls of stop that have cleared running and not yet called notify_all.
  datatype Protocol = Protocol(ledger: Ledger, running: bool, serverRunning: bool, consumer: Consumer,
                               mutex: Mutex, stopsToNotify: nat)

  datatype Step =
    | ProducerEnter(msg: Message)
    | ProducerNotify
    | StopEnter
    | StopNotify
    | ServerLeavesRunning
    | ConsumerLoop
    | ConsumerLock
    | ConsumerTest
    | ConsumerDecide
    | ConsumerSettle(fate: Fate)
    | SpuriousWakeup

  ghost predicate Initial(p: Protocol) {
    Conserved(p.ledger) && p.ledger == EmptyLedger(p.ledger.capacity, p.ledger.policy)
    && p.running && p.consumer == LoopHead && p.mutex == Free && p.stopsToNotify == 0
  }

  predicate Enabled(p: Protocol, step: Step) {
    match step
    case ProducerEnter(_) => p.mutex == Free
    case ProducerNotify => p.mutex == HeldByProducer
    case StopEnter => p.mutex == Free
    case StopNotify => p.stopsToNotify > 0
    case ServerLeavesRunning => true
    case ConsumerLoop => p.consumer == LoopHead
    case ConsumerLock => (p.consumer == Entering || p.consumer == Woken) && p.mutex == Free
    case ConsumerTest => p.consumer == Holding
    case ConsumerDecide => p.consumer == Ready
    case ConsumerSettle(fate) => p.consumer == Processing && fate != InFlight && fate != Dropped
                                 && p.ledger.flight.Some? && p.ledger.flight.value < |p.ledger.fates|
    case SpuriousWakeup => p.consumer == Parked
  }

  // notify_one and notify_all: there is at most one waiter.
  function Signalled(c: Consumer): Consumer {
    if c == Parked then Woken else c
  }

  function After(p: Protocol, step: Step): Protocol
    requires Enabled(p, step)
  {
    match step
    case ProducerEnter(msg) =>
      if Accepts(p.ledger) then p.(ledger := Offered(p.ledger, msg), mutex := HeldByProducer) else p
    case ProducerNotify => p.(consumer := Signalled(p.consumer), mutex := Free)
    case StopEnter => p.(running := false, stopsToNotify := p.stopsToNotify + 1)
    case StopNotify => p.(consumer := Signalled(p.consumer), stopsToNotify := p.stopsToNotify - 1)
    case ServerLeavesRunning => p.(serverRunning := false)
    case ConsumerLoop => p.(consumer := if p.running && p.serverRunning then Entering else Exited)
    case ConsumerLock => p.(consumer := Holding, mutex := HeldByConsumer)
    case ConsumerTest =>
      if p.ledger.queue != [] || !p.running || !p.serverRunning then p.(consumer := Ready)
      else p.(consumer := Parked, mutex := Free)
    case ConsumerDecide =>
      if !p.running || !p.serverRunning then p.(consumer := Exited, mutex := Free)
      else if p.ledger.queue == [] then p.(consumer := LoopHead, mutex := Free)
      else p.(ledger := Taken(p.ledger), consumer := Processing, mutex := Free)
    case ConsumerSettle(fate) => p.(ledger := Settled(p.ledger, fate), consumer := LoopHead)
    case SpuriousWakeup => p.(consumer := Woken)
  }

  ghost predicate IsRun(states: seq<Protocol>, steps: seq<Step>) {
    && |states| == |steps| + 1 && Initial(states[0])
    && forall i | 0 <= i < |steps| :: Enabled(states[i], steps[i]) && states[i + 1] == After(states[i], steps[i])
  }

  // ------------------------------------------------------------------- invariant

  // No wake-up is lost: while the consumer sleeps unsignalled, there is nothing to
  // deliver once the mutex is free, and a stop that it must see has yet to notify.
  ghost predicate NoLostWakeup(p: Protocol) {
    p.consumer == Parked ==>
      && (p.mutex == Free ==> p.ledger.queue == [])
      && (p.running || p.stopsToNotify > 0)
  }

  ghost predicate Inv(p: Protocol) {
    && Conserved(p.ledger)
    && (p.mutex == HeldByConsumer <==> p.consumer == Holding || p.consumer == Ready)
    && (p.ledger.flight.Some? <==> p.consumer == Processing)
    && (p.consumer == Exited ==> !p.running || !p.serverRunning)
    && NoLostWakeup(p)
  }

  lemma StepKeepsInv(p: Protocol, step: Step)
    requires Inv(p) && Enabled(p, step)
    ensures Inv(After(p, step))
  {
    match step
    case ProducerEnter(msg) => OfferConserves(p.ledger, msg);
    case ConsumerDecide =>
      if p.running && p.serverRunning && p.ledger.queue != [] { TakeConserves(p.ledger); }
    case ConsumerSettle(fate) => SettleConserves(p.ledger, fate);
    case _ =>
  }

  lemma {:induction false} InvAlways(states: seq<Protocol>, steps: seq<Step>, i: nat)
    requires IsRun(states, steps) && i < |states|
    ensures Inv(states[i])
  {
    if i > 0 {
      InvAlways(states, steps, i - 1);
      StepKeepsInv(states[i - 1], steps[i - 1]);
    }
  }

  // In every reachable state: the ledger balances, the queue fits, no wake-up is lost,
  // and when the loop has exited every popped message has got an outcome.
  lemma DispatcherSafety(states: seq<Protocol>, steps: seq<Step>, i: nat)
    requires IsRun(states, steps) && i < |states|
    ensures var l := states[i].ledger;
            && |l.fates| <= |l.accepted| && l.queue == l.accepted[|l.fates|..] && |l.queue| <= l.capacity
            && l.sent == multiset(l.fates)[Delivered]
            && (forall j, k | 0 <= j < k < |l.fates| :: !(l.fates[j] == InFlight && l.fates[k] == InFlight))
    ensures states[i].consumer == Parked && states[i].mutex == Free
            ==> states[i].ledger.queue == [] && (states[i].running || states[i].stopsToNotify > 0)
    ensures states[i].consumer == Exited ==> InFlight !in states[i].ledger.fates
  {
    InvAlways(states, steps, i);
  }

  // How many steps of its own the consumer is away from its next pop.
  function Distance(c: Consumer): nat {
    match c
    case Processing => 5
    case LoopHead => 4
    case Parked => 4
    case Entering => 3
    case Woken => 3
    case Holding => 2
    case Ready => 1
    case Exited => 0
  }

  predicate OwnStep(step: Step) {
    step.ConsumerLoop? || step.ConsumerLock? || step.ConsumerTest? || step.ConsumerDecide? || step.ConsumerSettle?
  }

  // While a message is queued and nothing is stopping, the consumer is never left waiting
  // for somebody else's next call: it can take a step of its own, or the producer holding
  // the mutex is about to notify it.
  lemma QueuedMessageIsServed(states: seq<Protocol>, steps: seq<Step>, i: nat)
    requires IsRun(states, steps) && i < |states|
    requires states[i].ledger.queue != [] && states[i].running && states[i].serverRunning
    ensures var p := states[i];
            || Enabled(p, ConsumerLoop) || Enabled(p, ConsumerLock) || Enabled(p, ConsumerTest)
            || Enabled(p, ConsumerDecide) || Enabled(p, ConsumerSettle(Delivered))
            || (Enabled(p, ProducerNotify) && (p.consumer == Parked ==> After(p, ProducerNotify).consumer == Woken))
  {
    InvAlways(states, steps, i);
  }

  // And then each of its own steps brings it one nearer to the pop, the fifth at the
  // latest being the pop itself, while no other thread sets it back or empties the queue.
  lemma EveryStepApproachesThePop(states: seq<Protocol>, steps: seq<Step>, i: nat, step: Step)
    requires IsRun(states, steps) && i < |states| && Enabled(states[i], step)
    requires states[i].ledger.queue != [] && states[i].running && states[i].serverRunning
    ensures var p, p' := states[i], After(states[i], step);
            if OwnStep(step) then
              if p.consumer == Ready then p'.consumer == Processing && p'.ledger == Taken(p.ledger)
              else p'.ledger.queue == p.ledger.queue && Distance(p'.consumer) == Distance(p.consumer) - 1
            else p'.ledger.queue != [] && Distance(p'.consumer) <= Distance(p.consumer)
  {
    InvAlways(states, steps, i);
    if step.ProducerEnter? { OfferConserves(states[i].ledger, step.msg); }
  }

  function ExitDistance(c: Consumer): nat {
    match c
    case Parked => 4
    case Entering => 3
    case Woken => 3
    case Holding => 2
    case Processing => 2
    case LoopHead => 1
    case Ready => 1
    case Exited => 0
  }

  // Once stopped, always stopped: each of its own steps brings the consumer one nearer to
  // leaving the loop, without another pop, and asleep it has a notification still to come.
  lemma StopEndsTheLoop(states: seq<Protocol>, steps: seq<Step>, i: nat, step: Step)
    requires IsRun(states, steps) && i < |states| && Enabled(states[i], step) && !states[i].running
    ensures var p, p' := states[i], After(states[i], step);
            && !p'.running && (p.consumer == Parked ==> p.stopsToNotify > 0)
            && (if OwnStep(step) then
                  ExitDistance(p'.consumer) == ExitDistance(p.consumer) - 1 && |p'.ledger.fates| == |p.ledger.fates|
                else ExitDistance(p'.consumer) <= ExitDistance(p.consumer))
  {
    InvAlways(states, steps, i);
  }

  // What is accepted stays accepted, in its place, and a fate once given is final.
  ghost predicate Extends(l: Ledger, l': Ledger) {
    && l.accepted <= l'.accepted && |l.fates| <= |l'.fates|
    && forall k | 0 <= k < |l.fates| && l.fates[k] != InFlight :: l'.fates[k] == l.fates[k]
  }

  lemma StepExtends(p: Protocol, step: Step)
    requires Inv(p) && Enabled(p, step)
    ensures Extends(p.ledger, After(p, step).ledger)
  {
    match step
    case ProducerEnter(msg) => OfferConserves(p.ledger, msg);
    case ConsumerSettle(fate) => SettleConserves(p.ledger, fate);
    case _ =>
  }

  lemma {:induction false} HistoryIsStable(states: seq<Protocol>, steps: seq<Step>, i: nat, j: nat)
    requires IsRun(states, steps) && i <= j < |states|
    ensures Extends(states[i].ledger, states[j].ledger)
    decreases j
  {
    hide Inv, Initial, Enabled, After, Conserved;
    if i < j {
      HistoryIsStable(states, steps, i, j - 1);
      InvAlways(states, steps, j - 1);
      StepExtends(states[j - 1], steps[j - 1]);
    }
  }
}
