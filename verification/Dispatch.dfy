// The queue of src/Server/Dispatcher.cpp as a ledger: what was accepted, what became of
// every message popped from the front, and what is still queued.
module Dispatch {
  import opened Wrappers

  datatype Message = Message(from: string, to: string, subject: string, body: string, timestamp: int)

  datatype QueueFullPolicy = REJECT | DROP_OLDEST | DROP_NEWEST

  // What became of a message that left the queue.
  datatype Fate = InFlight | Dropped | Delivered | Undeliverable | SendFailed

  // fates[i] is the fate of accepted[i]; flight is the message the consumer is working
  // on; sent is the server's totalMessagesSent.
  datatype Ledger = Ledger(capacity: int, policy: QueueFullPolicy, queue: seq<Message>,
                           accepted: seq<Message>, fates: seq<Fate>, flight: Option<nat>, sent: nat)

  function EmptyLedger(capacity: int, policy: QueueFullPolicy): Ledger {
    Ledger(capacity, policy, [], [], [], None, 0)
  }

  // Conservation: the accepted messages are the popped ones, each with its fate, followed
  // by the queue, in the order of acceptance.
  ghost predicate Conserved(l: Ledger) {
    && 1 <= l.capacity && |l.queue| <= l.capacity
    && |l.fates| <= |l.accepted| && l.queue == l.accepted[|l.fates|..]
    && (forall i | 0 <= i < |l.fates| :: l.fates[i] == InFlight <==> l.flight == Some(i))
    && (l.flight.Some? ==> l.flight.value < |l.fates|)
    && l.sent == multiset(l.fates)[Delivered]
  }

  // --------------------------------------------------------------- the operations

  predicate Full(l: Ledger) {
    |l.queue| >= l.capacity
  }

  predicate Accepts(l: Ledger) {
    !Full(l) || l.policy == DROP_OLDEST
  }

  // queueMessage
  function Offered(l: Ledger, m: Message): Ledger {
    if !Accepts(l) then l
    else
      var dropped := Full(l) && l.queue != [];
      l.(queue := (if dropped then l.queue[1..] else l.queue) + [m],
         fates := if dropped then l.fates + [Dropped] else l.fates,
         accepted := l.accepted + [m])
  }

  // run: front and pop
  function Taken(l: Ledger): Ledger
    requires l.queue != []
  {
    l.(queue := l.queue[1..], fates := l.fates + [InFlight], flight := Some(|l.fates|))
  }

  // run: the outcome of processing the popped message
  function Settled(l: Ledger, fate: Fate): Ledger
    requires l.flight.Some? && l.flight.value < |l.fates|
  {
    l.(fates := l.fates[l.flight.value := fate], flight := None, sent := if fate == Delivered then l.sent + 1 else l.sent)
  }

  // A new message goes to the end of the queue; no message already accepted is touched,
  // except that a full queue under DROP_OLDEST loses its oldest one.
  lemma OfferConserves(l: Ledger, m: Message)
    requires Conserved(l)
    ensures Conserved(Offered(l, m))
    ensures Offered(l, m).accepted == if Accepts(l) then l.accepted + [m] else l.accepted
    ensures Accepts(l) ==> Offered(l, m).queue != [] && Offered(l, m).queue[|Offered(l, m).queue| - 1] == m
    ensures Offered(l, m).fates == if Accepts(l) && Full(l) then l.fates + [Dropped] else l.fates
  {
    var l' := Offered(l, m);
    if Accepts(l) {
      assert l'.queue == l'.accepted[|l'.fates|..];
    }
  }

  // First in, first out: the message taken is the oldest one without a fate.
  lemma TakeConserves(l: Ledger)
    requires Conserved(l) && l.queue != [] && l.flight == None
    ensures Conserved(Taken(l)) && Taken(l).accepted == l.accepted
    ensures l.queue[0] == l.accepted[|l.fates|] && Taken(l).flight == Some(|l.fates|)
  {
    var l' := Taken(l);
    assert l'.queue == l'.accepted[|l'.fates|..];
  }

  lemma SettleConserves(l: Ledger, fate: Fate)
    requires Conserved(l) && l.flight.Some? && fate != InFlight
    ensures Conserved(Settled(l, fate))
    ensures Settled(l, fate).accepted == l.accepted && Settled(l, fate).queue == l.queue
    ensures Settled(l, fate).fates == l.fates[l.flight.value := fate]
  {
    var i := l.flight.value;
    assert l.fates[i] == InFlight;
    assert multiset(l.fates[i := fate]) == multiset(l.fates) - multiset{InFlight} + multiset{fate};
  }

  // -------------------------------------------------------------------- broadcast

  // One copy per recipient, identical except for the recipient.
  function Addressed(m: Message, recipients: seq<string>): (r: seq<Message>)
    ensures |r| == |recipients|
    ensures forall i | 0 <= i < |r| :: r[i] == m.(to := recipients[i])
  {
    seq(|recipients|, i requires 0 <= i < |recipients| => m.(to := recipients[i]))
  }

  // Every name but the sender's.
  function Others(names: seq<string>, from: string): seq<string> {
    if names == [] then []
    else if names[0] == from then Others(names[1..], from)
    else [names[0]] + Others(names[1..], from)
  }

  function OfferedAll(l: Ledger, ms: seq<Message>): Ledger
    decreases ms
  {
    if ms == [] then l else OfferedAll(Offered(l, ms[0]), ms[1..])
  }

  lemma {:induction false} OfferAllConserves(l: Ledger, ms: seq<Message>)
    requires Conserved(l)
    ensures Conserved(OfferedAll(l, ms))
    ensures OfferedAll(l, ms).capacity == l.capacity && OfferedAll(l, ms).policy == l.policy
    ensures OfferedAll(l, ms).flight == l.flight && OfferedAll(l, ms).sent == l.sent
    ensures l.accepted <= OfferedAll(l, ms).accepted
    ensures forall i | |l.accepted| <= i < |OfferedAll(l, ms).accepted| :: OfferedAll(l, ms).accepted[i] in ms
    decreases ms
  {
    if ms != [] {
      OfferConserves(l, ms[0]);
      OfferAllConserves(Offered(l, ms[0]), ms[1..]);
    }
  }

  lemma OfferRefusing(l: Ledger, m: Message)
    requires Conserved(l) && l.policy != DROP_OLDEST
    ensures Conserved(Offered(l, m)) && |l.queue| <= l.capacity
    ensures Offered(l, m) == if |l.queue| < l.capacity then l.(queue := l.queue + [m], accepted := l.accepted + [m]) else l
  {
    OfferConserves(l, m);
  }

  // With no pop in between, a refusing policy takes as many messages as there are free
  // slots, the first ones, and leaves the rest out; when they fit, all are taken.
  lemma {:induction false} OfferAllRefusing(l: Ledger, ms: seq<Message>)
    requires Conserved(l) && l.policy != DROP_OLDEST
    ensures var free := l.capacity - |l.queue|;
            var n := if |ms| < free then |ms| else free;
            0 <= n && OfferedAll(l, ms) == l.(queue := l.queue + ms[..n], accepted := l.accepted + ms[..n])
    decreases ms
  {
    hide Conserved, Offered;
    if ms == [] {
      CapacityHolds(l);
    } else {
      OfferRefusing(l, ms[0]);
      OfferAllRefusing(Offered(l, ms[0]), ms[1..]);
      var free := l.capacity - |l.queue|;
      var n := if |ms| < free then |ms| else free;
      if n > 0 {
        assert ms[..n] == [ms[0]] + ms[1..][..n - 1];
        SeqAssociates(l.queue, ms[0], ms[1..][..n - 1]);
        SeqAssociates(l.accepted, ms[0], ms[1..][..n - 1]);
      }
    }
  }

  lemma CapacityHolds(l: Ledger)
    requires Conserved(l)
    ensures |l.queue| <= l.capacity
    ensures Full(l) ==> |l.queue| == l.capacity && l.queue != []
  {
  }

  function Newest(ms: seq<Message>, n: nat): seq<Message> {
    if |ms| <= n then ms else ms[|ms| - n..]
  }

  lemma NewestOfNewest(a: seq<Message>, b: seq<Message>, n: nat)
    ensures Newest(Newest(a, n) + b, n) == Newest(a + b, n)
  {
  }

  lemma OfferDropping(l: Ledger, m: Message)
    requires Conserved(l) && l.policy == DROP_OLDEST
    ensures Conserved(Offered(l, m)) && Offered(l, m).policy == l.policy && Offered(l, m).capacity == l.capacity
    ensures Offered(l, m).accepted == l.accepted + [m]
    ensures Offered(l, m).queue == Newest(l.queue + [m], l.capacity)
  {
    hide Conserved;
    OfferConserves(l, m);
    CapacityHolds(l);
    if Full(l) {
      assert (l.queue + [m])[1..] == l.queue[1..] + [m];
    }
  }

  // DROP_OLDEST takes every message and keeps the newest capacity-many.
  lemma {:induction false} OfferAllDropping(l: Ledger, ms: seq<Message>)
    requires Conserved(l) && l.policy == DROP_OLDEST
    ensures OfferedAll(l, ms).accepted == l.accepted + ms
    ensures OfferedAll(l, ms).queue == Newest(l.queue + ms, l.capacity)
    decreases ms
  {
    if ms == [] {
      assert l.queue + ms == l.queue;
    } else {
      var m, rest := ms[0], ms[1..];
      assert ms == [m] + rest;
      OfferDropping(l, m);
      OfferAllDropping(Offered(l, m), rest);
      NewestOfNewest(l.queue + [m], rest, l.capacity);
      SeqAssociates(l.accepted, m, rest);
      SeqAssociates(l.queue, m, rest);
    }
  }

  lemma SeqAssociates(a: seq<Message>, m: Message, b: seq<Message>)
    ensures a + [m] + b == a + ([m] + b)
  {
  }

  predicate NoRepeats(names: seq<string>) {
    forall i, j | 0 <= i < j < |names| :: names[i] != names[j]
  }

  lemma {:induction false} OthersAre(names: seq<string>, from: string)
    ensures forall n :: n in Others(names, from) <==> n in names && n != from
  {
    if names != [] {
      OthersAre(names[1..], from);
    }
  }

  lemma {:induction false} OthersOf(names: seq<string>, from: string)
    requires NoRepeats(names)
    ensures NoRepeats(Others(names, from))
    ensures |Others(names, from)| == if from in names then |names| - 1 else |names|
  {
    if names != [] {
      var rest := names[1..];
      assert names[0] !in rest;
      OthersOf(rest, from);
      OthersAre(rest, from);
      var others := Others(rest, from);
      assert forall i | 0 <= i < |others| :: others[i] in others;
    }
  }

  // The broadcast of one message to every registered name but the sender's.
  lemma BroadcastFanOut(l: Ledger, m: Message, names: seq<string>)
    requires Conserved(l) && l.policy == REJECT && NoRepeats(names)
    ensures var others := Others(names, m.from);
            var l' := OfferedAll(l, Addressed(m, others));
            var free := l.capacity - |l.queue|;
            var n := if |others| < free then |others| else free;
            && l'.accepted == l.accepted + Addressed(m, others[..n])
            && l'.queue == l.queue + Addressed(m, others[..n])
            && l'.fates == l.fates
            && NoRepeats(others[..n])
            && (forall i | 0 <= i < n :: others[i] in names && others[i] != m.from)
            && (free >= |others| ==> forall r | r in names && r != m.from :: r in others[..n])
  {
    hide OfferedAll, Others, Offered;
    var others := Others(names, m.from);
    OthersOf(names, m.from);
    OthersAre(names, m.from);
    OfferAllRefusing(l, Addressed(m, others));
    var free := l.capacity - |l.queue|;
    var n := if |others| < free then |others| else free;
    assert Addressed(m, others)[..n] == Addressed(m, others[..n]);
    assert forall i | 0 <= i < n :: others[i] in others;
  }

  // ------------------------------------------------------------------- the object

  class Dispatcher {
    var messages: seq<Message>
    var running: bool
    const maxStoredMessages: int
    const queuePolicy: QueueFullPolicy
    ghost var accepted: seq<Message>
    ghost var fates: seq<Fate>
    ghost var flight: Option<nat>
    ghost var sent: nat

    ghost function View(): Ledger
      reads this
    {
      Ledger(maxStoredMessages, queuePolicy, messages, accepted, fates, flight, sent)
    }

    ghost predicate Valid()
      reads this
    {
      Conserved(View())
    }

    // The defaults of DispatcherConfig.
    constructor ()
      ensures Valid() && running && View() == EmptyLedger(10000, REJECT)
    {
      messages := [];
      running := true;
      maxStoredMessages := 10000;
      queuePolicy := REJECT;
      accepted, fates, flight, sent := [], [], None, 0;
    }

    method QueueMessage(msg: Message) returns (queued: bool)
      requires Valid()
      modifies this
      ensures Valid() && running == old(running) && sent == old(sent)
      ensures queued == Accepts(old(View())) && View() == Offered(old(View()), msg)
    {
      hide Conserved;
      OfferConserves(View(), msg);
      CapacityHolds(View());
      if |messages| >= maxStoredMessages {
        match queuePolicy {
          case REJECT => return false;
          case DROP_OLDEST =>
            messages := messages[1..];
            fates := fates + [Dropped];
          case DROP_NEWEST => return false;
        }
      }
      messages := messages + [msg];
      accepted := accepted + [msg];
      return true;
    }

    // The part of run under the mutex, once the wait is over: the message to deliver, or
    // None when the loop stops or goes round again.
    method TakeNext(serverRunning: bool) returns (msg: Option<Message>)
      requires Valid() && flight == None
      modifies this
      ensures Valid() && running == old(running)
      ensures msg.Some? == (running && serverRunning && old(messages) != [])
      ensures if msg.Some? then msg.value == old(messages)[0] && View() == Taken(old(View())) else View() == old(View())
    {
      if !running || !serverRunning {
        return None;
      }
      if messages == [] {
        return None;
      }
      TakeConserves(View());
      msg := Some(messages[0]);
      messages := messages[1..];
      flight := Some(|fates|);
      fates := fates + [InFlight];
    }

    ghost method Settle(fate: Fate)
      requires Valid() && flight.Some? && fate != InFlight
      modifies this
      ensures Valid() && running == old(running) && View() == Settled(old(View()), fate)
    {
      SettleConserves(View(), fate);
      fates := fates[flight.value := fate];
      flight := None;
      sent := if fate == Delivered then sent + 1 else sent;
    }

    method Stop()
      requires Valid()
      modifies this
      ensures Valid() && !running && View() == old(View())
    {
      running := false;
    }
  }
}
