// End to end: from the lines users send to the mailboxes of their recipients, over every
// interleaving of handlers, dispatcher, administrator and disconnections.
module Delivery {
  import opened Wrappers
  import opened Text
  import opened Codec
  import opened Config
  import opened Dispatch
  import opened Mailbox
  import opened Sessions
  import opened Forwarding
  import opened System
  import opened Safety
  import opened Service

  // -------------------------------------------------------- the ledger in every run

  ghost predicate MessagesOk(l: Ledger) {
    Conserved(l) && forall m | m in l.accepted :: Deliverable(m)
  }

  lemma FrameKeepsMessages(w: World, e: Event)
    requires MessagesOk(w.srv.ledger) && BansHold(w) && e.Frame? && Enabled(w, e)
    ensures MessagesOk(After(w, e).srv.ledger)
    ensures LedgerGrows(w.srv.ledger, After(w, e).srv.ledger)
  {
    hide Handled, Registers, RequestedName, Deliverable, Conserved;
    var s, s' := w.srv, Handled(w.srv, w.config, e.raw, e.conn, e.env);
    HandledLedger(w.srv, w.config, e.raw, e.conn, e.env);
    forall i | |s.ledger.accepted| <= i < |s'.ledger.accepted| ensures Deliverable(s'.ledger.accepted[i]) {
      HandledQueues(s, w.config, e.raw, e.conn, e.env, i);
      CausedIsDeliverable(s'.ledger.accepted[i], e.raw, s.clients, e.env);
    }
  }

  ghost predicate LedgerGrows(l: Ledger, l': Ledger) {
    && Conserved(l') && l.accepted <= l'.accepted && l'.flight == l.flight
    && l.fates <= l'.fates
    && forall i | |l.fates| <= i < |l'.fates| :: l'.fates[i] == Fate.Dropped
  }

  lemma {:induction false} OfferAllGrows(l: Ledger, ms: seq<Message>)
    requires Conserved(l)
    ensures LedgerGrows(l, OfferedAll(l, ms))
    decreases ms
  {
    if ms != [] {
      OfferConserves(l, ms[0]);
      OfferAllGrows(Offered(l, ms[0]), ms[1..]);
    }
  }

  lemma HandledLedger(s: State, c: Settings, raw: string, conn: int, env: Env)
    requires Conserved(s.ledger)
    ensures LedgerGrows(s.ledger, Handled(s, c, raw, conn, env).ledger)
  {
    hide Parsed, Line, Sanitized, ValidUsername, ValidSubject, Conserved, Offered, Accepts, Others, Addressed, Join;
    var p := Parsed(raw);
    if p.isValid && p.command == "SEND" {
      SubmittedLedger(s, c, [p.command] + p.arguments, conn, env);
    }
  }

  lemma SubmittedLedger(s: State, c: Settings, data: seq<string>, conn: int, env: Env)
    requires Conserved(s.ledger)
    ensures LedgerGrows(s.ledger, Submitted(s, c, data, conn, env).ledger)
  {
    hide Line, Sanitized, ValidSubject, Others, Addressed, LedgerGrows;
    LedgerStays(s.ledger);
    if |data| >= 4 && env.who != "" {
      var m := Message(env.who, Sanitized(data[1]), Sanitized(data[2]), Sanitized(data[3]), env.stamp);
      OfferAllGrows(s.ledger, Addressed(m, Others(env.order, m.from)));
      OfferGrows(s.ledger, m);
    }
  }

  lemma LedgerStays(l: Ledger)
    requires Conserved(l)
    ensures LedgerGrows(l, l)
  {
  }

  lemma OfferGrows(l: Ledger, m: Message)
    requires Conserved(l)
    ensures LedgerGrows(l, Offered(l, m))
  {
    OfferConserves(l, m);
  }

  // What the dispatcher makes of the message in flight.
  function FlightOutcome(s: State, sendOk: bool): Fate
    requires s.ledger.flight.Some? && s.ledger.flight.value < |s.ledger.fates| <= |s.ledger.accepted|
  {
    Outcome(s.clients, s.ledger.accepted[s.ledger.flight.value], sendOk)
  }

  lemma OtherLedger(w: World, e: Event)
    requires !e.Frame? && Enabled(w, e)
    ensures var l, l' := w.srv.ledger, After(w, e).srv.ledger;
            l' == match e
                  case DispatcherTake => Taken(l)
                  case DispatcherDeliver(sendOk) => Settled(l, FlightOutcome(w.srv, sendOk))
                  case _ => l
  {
    hide Line, AdminLine, RelayLine, Conserved;
  }

  lemma OtherKeepsMessages(w: World, e: Event)
    requires MessagesOk(w.srv.ledger) && !e.Frame? && Enabled(w, e)
    ensures MessagesOk(After(w, e).srv.ledger)
    ensures After(w, e).srv.ledger.accepted == w.srv.ledger.accepted
  {
    hide After, Deliverable, Conserved, Settled, Taken;
    OtherLedger(w, e);
    match e
    case DispatcherTake => TakeConserves(w.srv.ledger);
    case DispatcherDeliver(sendOk) => SettleConserves(w.srv.ledger, FlightOutcome(w.srv, sendOk));
    case _ =>
  }

  // In every reachable state of the server the dispatcher's ledger balances.
  lemma {:induction false} MessagesAlwaysOk(ws: seq<World>, es: seq<Event>, i: nat)
    requires IsRun(ws, es) && i < |ws|
    ensures MessagesOk(ws[i].srv.ledger)
    ensures i > 0 ==> ws[i - 1].srv.ledger.accepted <= ws[i].srv.ledger.accepted
  {
    hide Enabled, After, BansHold, Deliverable;
    if i > 0 {
      MessagesAlwaysOk(ws, es, i - 1);
      PlumbingAndBansAlways(ws, es, i - 1);
      if es[i - 1].Frame? {
        FrameKeepsMessages(ws[i - 1], es[i - 1]);
      } else {
        OtherKeepsMessages(ws[i - 1], es[i - 1]);
      }
    }
  }

  // Every accepted message goes back to one line of a registered client, which named
  // its sender and gave its sanitised subject and body; earlier messages to earlier lines.
  lemma {:induction false} AcceptedWasSent(ws: seq<World>, es: seq<Event>, i: nat, t: nat) returns (j: nat)
    requires IsRun(ws, es) && i < |ws| && t < |ws[i].srv.ledger.accepted|
    ensures j < i && es[j].Frame? && |ws[j].srv.ledger.accepted| <= t < |ws[j + 1].srv.ledger.accepted|
    ensures CausedBy(ws[i].srv.ledger.accepted[t], es[j].raw, ws[j].srv.clients, es[j].env)
    ensures NamesSocket(ws[j].srv.clients, es[j].conn, es[j].env.who) && es[j].env.who in ws[j].srv.clients
  {
    hide After, CausedBy, Deliverable, Conserved;
    if i == 0 {
      assert false;
    } else {
      MessagesAlwaysOk(ws, es, i);
      MessagesAlwaysOk(ws, es, i - 1);
      var e := es[i - 1];
      if t < |ws[i - 1].srv.ledger.accepted| {
        j := AcceptedWasSent(ws, es, i - 1, t);
      } else {
        j := i - 1;
        if e.Frame? {
          AfterFrame(ws[i - 1], e);
          HandledQueues(ws[i - 1].srv, ws[i - 1].config, e.raw, e.conn, e.env, t);
        } else {
          OtherKeepsMessages(ws[i - 1], e);
        }
      }
    }
  }

  lemma AfterFrame(w: World, e: Event)
    requires e.Frame? && Enabled(w, e)
    ensures After(w, e).srv == Handled(w.srv, w.config, e.raw, e.conn, e.env)
  {
  }

  // ------------------------------------------------- where the lines on a socket come from

  // A line on a socket is what its origin says: a relay carries the message accepted
  // under its index, to a name that the connection has registered, and that message counts
  // as delivered; an administrator's line shows the sender SERVER; a reply is no MESSAGE.
  ghost predicate TrueTo(w: World, e: Effect) {
    e.Sent? ==>
      match e.origin
      case Relay(k) =>
        && k < |w.srv.ledger.fates| <= |w.srv.ledger.accepted| && w.srv.ledger.fates[k] == Delivered
        && e.line == RelayLine(w.srv.ledger.accepted[k])
        && (e.socket, w.srv.ledger.accepted[k].to) in w.registered
      case Admin => IsMessage(e.line) && EventOf(e.line).value.args[0] == "SERVER"
      case Reply => !IsMessage(e.line)
  }

  ghost predicate IsRelay(e: Effect) {
    e.Sent? && e.origin.Relay?
  }

  // Relays go out in the order of acceptance, each message at most once.
  ghost predicate InOrder(s: State) {
    && (forall i, j | 0 <= i < j < |s.effects| && IsRelay(s.effects[i]) && IsRelay(s.effects[j]) ::
          s.effects[i].origin.index < s.effects[j].origin.index)
    && (forall i | 0 <= i < |s.effects| && IsRelay(s.effects[i]) ::
          s.effects[i].origin.index < |s.ledger.fates|
          && (s.ledger.flight.Some? ==> s.effects[i].origin.index < s.ledger.flight.value))
  }

  ghost predicate Recorded(w: World) {
    forall n | n in w.srv.clients :: (w.srv.clients[n].socket, n) in w.registered
  }

  ghost predicate Traced(w: World) {
    && MessagesOk(w.srv.ledger) && InOrder(w.srv) && Recorded(w)
    && forall e | e in w.srv.effects :: TrueTo(w, e)
  }

  // ------------------------------------------------------------------ a line received

  lemma FrameKeepsRecord(w: World, e: Event)
    requires Recorded(w) && e.Frame? && Enabled(w, e)
    ensures Recorded(After(w, e)) && w.registered <= After(w, e).registered
  {
    hide Handled, RequestedName, ChangeOf;
    HandledChange(w, e.raw, e.conn, e.env);
    ChangeNeedsRequest(w, e.raw, e.env);
  }

  lemma FrameReplies(w: World, e: Event)
    requires e.Frame? && Enabled(w, e)
    ensures var before, after := w.srv.effects, After(w, e).srv.effects;
            before <= after && forall x | x in after[|before|..] :: x.Sent? ==> x.origin == Reply && !IsMessage(x.line)
  {
    hide ChangeOf, Handled, RequestedName, Registers, IsMessage, Enabled;
    var before, after := w.srv.effects, Handled(w.srv, w.config, e.raw, e.conn, e.env).effects;
    var change := ChangeOf(w, e.raw, e.env);
    HandledChange(w, e.raw, e.conn, e.env);
    forall i | |before| <= i < |after| && after[i].Sent? ensures after[i].origin == Reply && !IsMessage(after[i].line) {
      if change.Refuse? || change.Leave? {
        assert after[i] == after[|before|..|after| - 1][i - |before|];
      } else {
        assert after[i] == after[|before|..][i - |before|];
      }
    }
    assert Enabled(w, e);
  }

  // A line that is either no MESSAGE or one that shows the sender SERVER.
  ghost predicate Honest(e: Effect)
    requires e.Sent?
  {
    || (e.origin == Reply && !IsMessage(e.line))
    || (e.origin == Admin && IsMessage(e.line) && EventOf(e.line).value.args[0] == "SERVER")
  }

  // Replies and closes behind the old effects, with the ledger only extended, keep the trace.
  lemma RepliesKeepTrace(w: World, w': World)
    requires MessagesOk(w.srv.ledger) && InOrder(w.srv) && (forall e | e in w.srv.effects :: TrueTo(w, e))
    requires LedgerGrows(w.srv.ledger, w'.srv.ledger) && w.srv.effects <= w'.srv.effects
    requires forall x | x in w'.srv.effects[|w.srv.effects|..] && x.Sent? ::
               Honest(x)
    requires w.registered <= w'.registered
    ensures InOrder(w'.srv) && forall e | e in w'.srv.effects :: TrueTo(w', e)
  {
    hide IsMessage, EventOf, RelayLine;
    var before, after := w.srv.effects, w'.srv.effects;
    forall i | |before| <= i < |after| ensures after[i] in after[|before|..] {
      assert after[i] == after[|before|..][i - |before|];
    }
    forall i | 0 <= i < |after| ensures TrueTo(w', after[i]) && (i >= |before| ==> !IsRelay(after[i])) {
      if i < |before| { assert TrueTo(w, before[i]); }
    }
  }

  lemma FrameKeepsTrace(w: World, e: Event)
    requires Traced(w) && BansHold(w) && e.Frame? && Enabled(w, e)
    ensures Traced(After(w, e))
  {
    hide After, Enabled, BansHold, InOrder, Recorded, TrueTo, IsMessage, EventOf;
    FrameKeepsMessages(w, e);
    FrameKeepsRecord(w, e);
    FrameReplies(w, e);
    RepliesKeepTrace(w, After(w, e));
  }

  // --------------------------------------------------------------- the other steps

  lemma OtherKeepsRecord(w: World, e: Event)
    requires Recorded(w) && !e.Frame? && Enabled(w, e)
    ensures Recorded(After(w, e)) && After(w, e).registered == w.registered
  {
    hide After, ClosedOnce, Enabled;
    OtherEffect(w, e);
    SameRecord(w, e);
  }

  lemma SameRecord(w: World, e: Event)
    requires !e.Frame? && Enabled(w, e)
    ensures After(w, e).registered == w.registered
  {
    hide Line, AdminLine, RelayLine;
  }

  ghost predicate AddsHonest(s: State, s': State) {
    s.effects <= s'.effects && forall x | x in s'.effects[|s.effects|..] && x.Sent? :: Honest(x)
  }

  lemma KickIsHonest(s: State, name: string, reason: string)
    ensures AddsHonest(s, Kicked(s, name, reason))
  {
    hide Line, IsMessage, EventOf;
    ReplyIsNoMessage("ERROR", [reason]);
  }

  lemma LineToAllIsHonest(s: State, order: seq<string>, line: string, origin: Origin)
    requires (forall n | n in order :: n in s.clients) && Honest(Sent(0, line, origin))
    ensures AddsHonest(s, SentToAll(s, order, line, origin))
  {
    hide IsMessage, EventOf;
  }

  // The lines of steps that are neither a client line nor a delivery.
  lemma NoticesAreHonest(w: World, e: Event)
    requires !e.Frame? && !e.DispatcherDeliver? && Enabled(w, e)
    ensures AddsHonest(w.srv, After(w, e).srv)
  {
    hide Line, AdminLine, IsMessage, EventOf, Kicked, SentToAll, Settled, Taken, AddsHonest;
    var s := w.srv;
    match e
    case KickUser(name) => KickIsHonest(s, name, "You have been disconnected by admin");
    case BanUser(name) => BanIsHonest(s, name);
    case Announce(order, text) =>
      AdminIsServer("Announcement", text);
      LineToAllIsHonest(s, order, AdminLine("Announcement", text), Admin);
    case AdminSend(name, text) => AdminSendIsHonest(s, name, text);
    case PingRound(order) =>
      PingIsNoMessage();
      LineToAllIsHonest(s, order, "PING\n", Reply);
    case Hangup(_, conn, who) => ClosingIsHonest(s, conn, who);
    case Evict(name, who) =>
      ClosingIsHonest(s, SocketOf(s.clients, name), who);
      NothingIsHonest(s, s);
    case Accept(_) => NothingIsHonest(s, s);
    case PoolStep(_) => NothingIsHonest(s, s);
    case UnbanUser(name) => NothingIsHonest(s, Unbanned(s, name));
    case DispatcherTake => NothingIsHonest(s, After(w, e).srv);
    case Configure(_) => NothingIsHonest(s, s);
    case _ =>
  }

  lemma BanIsHonest(s: State, name: string)
    ensures AddsHonest(s, Banned(s, name))
  {
    hide Kicked, Honest;
    KickIsHonest(s, name, "You have been banned by admin");
    NothingIsHonest(s, s);
  }

  lemma AdminSendIsHonest(s: State, name: string, text: string)
    ensures AddsHonest(s, AdminSent(s, name, text))
  {
    hide AdminLine, IsMessage, EventOf;
    AdminIsServer("Private Message", text);
  }

  lemma ClosingIsHonest(s: State, socket: int, who: string)
    ensures AddsHonest(s, Disconnected(s, socket, who))
  {
    hide IsMessage, EventOf;
  }

  lemma NothingIsHonest(s: State, s': State)
    requires s'.effects == s.effects
    ensures AddsHonest(s, s')
  {
  }

  lemma AdminIsServer(subject: string, text: string)
    requires subject == "Announcement" || subject == "Private Message"
    ensures IsMessage(AdminLine(subject, text)) && EventOf(AdminLine(subject, text)).value.args[0] == "SERVER"
  {
    hide IsMessage, EventOf, AdminLine, Find;
    FreeOfChar(subject, ';');
    AdminLineIsFromServer(subject, text);
  }

  lemma PingIsNoMessage()
    ensures !IsMessage("PING\n")
  {
    ReplyIsNoMessage("PING", []);
    PongLine();
  }

  lemma OtherLedgerGrows(w: World, e: Event)
    requires MessagesOk(w.srv.ledger) && !e.Frame? && !e.DispatcherDeliver? && !e.DispatcherTake? && Enabled(w, e)
    ensures LedgerGrows(w.srv.ledger, After(w, e).srv.ledger)
  {
    hide After, Conserved, Deliverable;
    OtherLedger(w, e);
  }

  lemma OtherKeepsTrace(w: World, e: Event)
    requires Traced(w) && !e.Frame? && !e.DispatcherDeliver? && !e.DispatcherTake? && Enabled(w, e)
    ensures Traced(After(w, e))
  {
    hide After, Enabled, InOrder, Recorded, TrueTo, IsMessage, EventOf;
    OtherKeepsMessages(w, e);
    OtherLedgerGrows(w, e);
    OtherKeepsRecord(w, e);
    NoticesAreHonest(w, e);
    RepliesKeepTrace(w, After(w, e));
  }

  lemma TakeKeepsTrace(w: World)
    requires Traced(w) && Enabled(w, DispatcherTake)
    ensures Traced(After(w, DispatcherTake))
  {
    hide IsMessage, EventOf, RelayLine, Deliverable;
    OtherKeepsMessages(w, DispatcherTake);
    forall e | e in w.srv.effects ensures TrueTo(After(w, DispatcherTake), e) {
      assert TrueTo(w, e);
    }
  }

  // The effects of a delivery: the relay, or, when the recipient is gone, a notice to the
  // sender if registered; a failed send leaves no trace but its fate.
  lemma DeliveryEffects(w: World, sendOk: bool)
    requires Enabled(w, DispatcherDeliver(sendOk))
    ensures var s, s', k := w.srv, Relayed(w.srv, sendOk), w.srv.ledger.flight.value;
            var m := s.ledger.accepted[k];
            && s'.clients == s.clients
            && match FlightOutcome(s, sendOk)
               case Delivered =>
                 m.to in s.clients && s'.effects == s.effects + [Sent(s.clients[m.to].socket, RelayLine(m), Relay(k))]
               case Undeliverable =>
                 if SocketOf(s.clients, m.from) <= 0 then s'.effects == s.effects
                 else
                   |s'.effects| == |s.effects| + 1 && s'.effects[..|s.effects|] == s.effects
                   && var x := s'.effects[|s.effects|];
                      x.Sent? && x.socket == SocketOf(s.clients, m.from) && x.origin == Reply && !IsMessage(x.line)
               case _ => s'.effects == s.effects
  {
    hide Line, RelayLine, IsMessage;
    var m := w.srv.ledger.accepted[w.srv.ledger.flight.value];
    ReplyIsNoMessage("ERROR", ["Message to '" + m.to + NOT_DELIVERED]);
  }

  lemma DeliverKeepsTrace(w: World, sendOk: bool)
    requires Traced(w) && Enabled(w, DispatcherDeliver(sendOk))
    ensures Traced(After(w, DispatcherDeliver(sendOk)))
  {
    hide IsMessage, EventOf, RelayLine, Conserved, Deliverable, Relayed, Recorded, InOrder;
    var w' := After(w, DispatcherDeliver(sendOk));
    var k := w.srv.ledger.flight.value;
    OtherKeepsMessages(w, DispatcherDeliver(sendOk));
    OtherLedger(w, DispatcherDeliver(sendOk));
    OtherKeepsRecord(w, DispatcherDeliver(sendOk));
    DeliveryEffects(w, sendOk);
    DeliveryInOrder(w.srv, w'.srv, k);
    RelaysBeforeFlight(w.srv, k);
    forall e | e in w.srv.effects ensures TrueTo(w', e) {
      assert TrueTo(w, e);
    }
    if FlightOutcome(w.srv, sendOk) == Delivered {
      RecordOf(w, w.srv.ledger.accepted[k].to);
    }
  }

  lemma RelaysBeforeFlight(s: State, k: nat)
    requires InOrder(s) && s.ledger.flight == Some(k)
    ensures forall e | e in s.effects && IsRelay(e) :: e.origin.index < k
  {
  }

  // At most one more effect, a relay of the message in flight or no relay.
  lemma DeliveryInOrder(s: State, s': State, k: nat)
    requires InOrder(s) && s.ledger.flight == Some(k) && s'.ledger.flight == None
    requires k < |s.ledger.fates| == |s'.ledger.fates|
    requires s'.effects == s.effects
          || (|s'.effects| == |s.effects| + 1 && s'.effects[..|s.effects|] == s.effects
              && (IsRelay(s'.effects[|s.effects|]) ==> s'.effects[|s.effects|].origin == Relay(k)))
    ensures InOrder(s')
  {
    assert forall i | 0 <= i < |s.effects| :: s'.effects[i] == s.effects[i];
  }

  lemma RecordOf(w: World, name: string)
    requires Recorded(w) && name in w.srv.clients
    ensures (w.srv.clients[name].socket, name) in w.registered
  {
  }

  // In every state of every run.
  lemma {:induction false} TracedAlways(ws: seq<World>, es: seq<Event>, i: nat)
    requires IsRun(ws, es) && i < |ws|
    ensures Traced(ws[i])
  {
    hide Enabled, After, BansHold, Plumbing;
    if i == 0 {
    } else {
      TracedAlways(ws, es, i - 1);
      PlumbingAndBansAlways(ws, es, i - 1);
      match es[i - 1] {
        case Frame(_, _, _, _) => FrameKeepsTrace(ws[i - 1], es[i - 1]);
        case DispatcherTake => TakeKeepsTrace(ws[i - 1]);
        case DispatcherDeliver(sendOk) => DeliverKeepsTrace(ws[i - 1], sendOk);
        case _ => OtherKeepsTrace(ws[i - 1], es[i - 1]);
      }
    }
  }

  // -------------------------------------------------------- the names of a connection

  // At step j the connection asked for the name and got it.
  ghost predicate GotName(w: World, e: Event, conn: int, name: string) {
    e.Frame? && e.conn == conn && Registers(w, e.raw) && RequestedName(w, e.raw) == Some(name)
  }

  // A name on the record of a connection is one it asked for and got.
  lemma {:induction false} RegisteredIffGot(ws: seq<World>, es: seq<Event>, i: nat, conn: int, name: string)
    requires IsRun(ws, es) && i < |ws|
    ensures (conn, name) in ws[i].registered <==> exists j :: 0 <= j < i && GotName(ws[j], es[j], conn, name)
  {
    hide GotName, Enabled, After;
    if i > 0 {
      RegisteredIffGot(ws, es, i - 1, conn, name);
      RecordStep(ws[i - 1], es[i - 1], conn, name);
    }
  }

  lemma RecordStep(w: World, e: Event, conn: int, name: string)
    requires Enabled(w, e)
    ensures (conn, name) in After(w, e).registered <==> (conn, name) in w.registered || GotName(w, e, conn, name)
  {
    hide Handled, RequestedName;
    if !e.Frame? { SameRecord(w, e); }
  }

  lemma GettingIsAnswered(w: World, e: Event, conn: int, name: string)
    requires GotName(w, e, conn, name)
    ensures AnsweredOn(w, e, conn)
  {
    hide RequestedName;
  }

  // With one answer to each connection, it has one name at most.
  lemma OneNameEach(ws: seq<World>, es: seq<Event>, i: nat, conn: int, m: string, n: string)
    requires IsRun(ws, es) && i < |ws| && OneAnswerEach(ws, es)
    requires (conn, m) in ws[i].registered && (conn, n) in ws[i].registered
    ensures m == n
  {
    hide AnsweredOn, GotName, Enabled, After, Initial;
    RegisteredIffGot(ws, es, i, conn, m);
    RegisteredIffGot(ws, es, i, conn, n);
    var j :| 0 <= j < i && GotName(ws[j], es[j], conn, m);
    var k :| 0 <= k < i && GotName(ws[k], es[k], conn, n);
    GettingIsAnswered(ws[j], es[j], conn, m);
    GettingIsAnswered(ws[k], es[k], conn, n);
    SameGot(ws[j], es[j], conn, m, n);
  }

  lemma SameGot(w: World, e: Event, conn: int, m: string, n: string)
    requires GotName(w, e, conn, m)
    ensures GotName(w, e, conn, n) ==> m == n
  {
    hide RequestedName;
  }
}
