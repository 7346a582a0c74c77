// The delivery theorem: what a mailbox holds from one sender.
module EndToEnd {
  import opened Wrappers
  import opened Dispatch
  import opened Framing
  import opened Mailbox
  import opened Sessions
  import opened Forwarding
  import opened System
  import opened Safety
  import opened Service
  import opened Delivery

  // The sends on one connection, in order.
  function SendsTo(effects: seq<Effect>, conn: int): (r: seq<Effect>)
    ensures AllSends(r)
  {
    if effects == [] then []
    else
      var last := effects[|effects| - 1];
      SendsTo(effects[..|effects| - 1], conn) + if last.Sent? && last.socket == conn then [last] else []
  }

  ghost predicate AllSends(sends: seq<Effect>) {
    forall e | e in sends :: e.Sent?
  }

  function LinesOf(sends: seq<Effect>): (r: seq<string>)
    requires AllSends(sends)
    ensures |r| == |sends|
  {
    seq(|sends|, i requires 0 <= i < |sends| => sends[i].line)
  }

  // A mailbox's log after reading some lines of the connection, from an empty start:
  // what MessageHandler.Listen leaves.
  function LogOf(lines: seq<string>, clock: nat -> int): seq<ReceivedMessage> {
    Numbered(AllFields(lines), 0, clock)
  }

  // The entries of one sender, by index.
  function EntriesFrom(log: seq<ReceivedMessage>, sender: string): seq<ReceivedMessage> {
    if log == [] then []
    else
      var last := log[|log| - 1];
      EntriesFrom(log[..|log| - 1], sender) + if last.from == sender then [last] else []
  }

  // An entry with the content of a message.
  predicate Carries(entry: ReceivedMessage, m: Message) {
    entry.from == m.from && entry.subject == m.subject && entry.body == m.body && entry.timestamp == m.timestamp
  }

  // entries are, in order and without repetition, messages of a list at given places.
  ghost predicate EmbedsAt(entries: seq<ReceivedMessage>, accepted: seq<Message>, places: seq<nat>) {
    && |places| == |entries|
    && (forall a, b | 0 <= a < b < |places| :: places[a] < places[b])
    && (forall a | 0 <= a < |places| :: places[a] < |accepted| && Carries(entries[a], accepted[places[a]]))
  }

  lemma {:induction false} SendsAreEffects(effects: seq<Effect>, conn: int)
    ensures forall e | e in SendsTo(effects, conn) :: e.Sent? && e.socket == conn && e in effects
  {
    if effects != [] {
      SendsAreEffects(effects[..|effects| - 1], conn);
    }
  }

  // Relays to one connection keep their order.
  ghost predicate Rising(sends: seq<Effect>) {
    forall a, b | 0 <= a < b < |sends| && IsRelay(sends[a]) && IsRelay(sends[b]) ::
      sends[a].origin.index < sends[b].origin.index
  }

  lemma {:induction false} SendsRise(effects: seq<Effect>, conn: int)
    requires forall i, j | 0 <= i < j < |effects| && IsRelay(effects[i]) && IsRelay(effects[j]) ::
               effects[i].origin.index < effects[j].origin.index
    ensures Rising(SendsTo(effects, conn))
  {
    if effects != [] {
      var before := effects[..|effects| - 1];
      SendsRise(before, conn);
      SendsAreEffects(before, conn);
    }
  }

  lemma NumberedSnoc(fields: seq<Fields>, f: Fields, clock: nat -> int)
    ensures Numbered(fields + [f], 0, clock) == Numbered(fields, 0, clock) + [Entry(f, |fields|, clock(|fields|))]
  {
    hide Entry;
  }

  lemma LogGrows(lines: seq<string>, line: string, clock: nat -> int)
    ensures !IsMessage(line) ==> LogOf(lines + [line], clock) == LogOf(lines, clock)
    ensures IsMessage(line) ==> var n := |AllFields(lines)|;
              LogOf(lines + [line], clock) == LogOf(lines, clock) + [Entry(EventOf(line).value.args, n, clock(n))]
  {
    hide EventOf, Entry, AllFields, Numbered;
    AllOfSnoc(lines, line, _ => true);
    if IsMessage(line) {
      NumberedSnoc(AllFields(lines), EventOf(line).value.args, clock);
    } else {
      assert AllFields(lines) + [] == AllFields(lines);
    }
  }

  lemma EntriesGrow(log: seq<ReceivedMessage>, entry: ReceivedMessage, sender: string)
    ensures EntriesFrom(log + [entry], sender) == EntriesFrom(log, sender) + if entry.from == sender then [entry] else []
  {
    assert (log + [entry])[..|log|] == log;
  }

  // What one more line adds to the entries of a sender other than SERVER: a relayed
  // message of that sender, or nothing.
  lemma OneMoreLine(w: World, lines: seq<string>, e: Effect, clock: nat -> int, sender: string)
    returns (place: Option<nat>, entry: ReceivedMessage)
    requires MessagesOk(w.srv.ledger) && e.Sent? && TrueTo(w, e) && sender != "SERVER"
    ensures var had, has := EntriesFrom(LogOf(lines, clock), sender), EntriesFrom(LogOf(lines + [e.line], clock), sender);
            match place
            case None => has == had && (IsRelay(e) ==> w.srv.ledger.accepted[e.origin.index].from != sender)
            case Some(k) =>
              && e.origin == Relay(k) && k < |w.srv.ledger.accepted| && w.srv.ledger.accepted[k].from == sender
              && has == had + [entry] && Carries(entry, w.srv.ledger.accepted[k])
  {
    hide EventOf, Entry, LogOf, RelayLine, Conserved, RelayFields, EntriesFrom, AllFields;
    LogGrows(lines, e.line, clock);
    place := None;
    var n := |AllFields(lines)|;
    entry := Entry(["", "", "", ""], n, clock(n));
    if IsRelay(e) {
      assert Deliverable(w.srv.ledger.accepted[e.origin.index]);
      RelayIsRead(w.srv.ledger.accepted[e.origin.index]);
    }
    if IsMessage(e.line) {
      entry := Entry(EventOf(e.line).value.args, n, clock(n));
      EntriesGrow(LogOf(lines, clock), entry, sender);
      EntryFrom(EventOf(e.line).value.args, n, clock(n));
      if e.origin.Relay? {
        var m := w.srv.ledger.accepted[e.origin.index];
        RelayIsStored(m, n, clock(n));
        if m.from == sender { place := Some(e.origin.index); }
      }
    }
  }

  lemma EntryFrom(args: Fields, index: int, now: int)
    ensures Entry(args, index, now).from == args[0]
  {
  }

  ghost predicate SentRelay(sends: seq<Effect>, place: nat) {
    exists i :: 0 <= i < |sends| && sends[i].Sent? && sends[i].origin == Relay(place)
  }

  ghost predicate SentAs(sends: seq<Effect>, places: seq<nat>) {
    forall a | 0 <= a < |places| :: SentRelay(sends, places[a])
  }

  lemma SentRelayMore(sends: seq<Effect>, place: nat) returns (i: nat)
    requires sends != [] && SentRelay(sends[..|sends| - 1], place)
    ensures SentRelay(sends, place)
    ensures i < |sends| - 1 && sends[i].Sent? && sends[i].origin == Relay(place)
  {
    var before := sends[..|sends| - 1];
    i :| 0 <= i < |before| && before[i].Sent? && before[i].origin == Relay(place);
    assert sends[i] == before[i];
  }

  lemma SentAsMore(sends: seq<Effect>, places: seq<nat>)
    requires sends != [] && SentAs(sends[..|sends| - 1], places)
    ensures SentAs(sends, places)
  {
    hide SentRelay;
    forall a | 0 <= a < |places| ensures SentRelay(sends, places[a]) {
      var _ := SentRelayMore(sends, places[a]);
    }
  }

  lemma PlacesRise(sends: seq<Effect>, places: seq<nat>, place: nat)
    requires sends != [] && sends[|sends| - 1].Sent? && sends[|sends| - 1].origin == Relay(place)
    requires Rising(sends) && SentAs(sends[..|sends| - 1], places)
    ensures SentAs(sends, places + [place])
    ensures forall a | 0 <= a < |places| :: places[a] < place
  {
    SentAsMore(sends, places);
    assert IsRelay(sends[|sends| - 1]) && SentRelay(sends, place);
    forall a | 0 <= a < |places| ensures places[a] < place {
      var i := SentRelayMore(sends, places[a]);
      assert IsRelay(sends[i]);
    }
  }

  lemma {:induction false} MailboxFromSends(w: World, sends: seq<Effect>, clock: nat -> int, sender: string)
    returns (places: seq<nat>)
    requires MessagesOk(w.srv.ledger) && sender != "SERVER"
    requires AllSends(sends) && Rising(sends) && forall e | e in sends :: TrueTo(w, e)
    ensures EmbedsAt(EntriesFrom(LogOf(LinesOf(sends), clock), sender), w.srv.ledger.accepted, places)
    ensures forall a | 0 <= a < |places| :: w.srv.ledger.accepted[places[a]].from == sender
    ensures SentAs(sends, places)
    ensures forall e | e in sends && IsRelay(e) :: e.origin.index < |w.srv.ledger.accepted|
              && (w.srv.ledger.accepted[e.origin.index].from == sender ==> e.origin.index in places)
  {
    hide TrueTo, MessagesOk, LogOf, EntriesFrom, SentAs, Rising, Carries;
    if sends == [] {
      places := [];
      NoLines(clock, sender);
      NoPlaces();
    } else {
      var before, e := sends[..|sends| - 1], sends[|sends| - 1];
      assert e in sends && forall x | x in before :: x in sends;
      RisingPrefix(sends);
      places := MailboxFromSends(w, before, clock, sender);
      assert LinesOf(sends) == LinesOf(before) + [e.line];
      var place, entry := OneMoreLine(w, LinesOf(before), e, clock, sender);
      if IsRelay(e) { RelayIsKnown(w, e); }
      assert forall x | x in sends :: x in before || x == e;
      if place.Some? {
        PlacesRise(sends, places, place.value);
        places := places + [place.value];
      } else {
        SentAsMore(sends, places);
      }
    }
  }

  lemma RelayIsKnown(w: World, e: Effect)
    requires TrueTo(w, e) && IsRelay(e)
    ensures e.origin.index < |w.srv.ledger.accepted|
  {
  }

  lemma RisingPrefix(sends: seq<Effect>)
    requires sends != [] && Rising(sends)
    ensures Rising(sends[..|sends| - 1])
  {
  }

  lemma NoPlaces()
    ensures SentAs([], [])
  {
  }

  lemma NoLines(clock: nat -> int, sender: string)
    ensures EntriesFrom(LogOf([], clock), sender) == []
  {
    AllOfNone();
  }

  // A message of that sender, to a name this connection had registered, that was delivered.
  ghost predicate DeliveredOn(w: World, conn: int, sender: string, place: nat) {
    var l := w.srv.ledger;
    && place < |l.fates| <= |l.accepted| && l.fates[place] == Delivered
    && l.accepted[place].from == sender
    && (conn, l.accepted[place].to) in w.registered
  }

  // The relays among some sends that carry a message of the sender are all at these places.
  ghost predicate NoneMissing(w: World, sends: seq<Effect>, sender: string, places: seq<nat>) {
    forall e | e in sends && IsRelay(e) ::
      e.origin.index < |w.srv.ledger.accepted|
      && (w.srv.ledger.accepted[e.origin.index].from == sender ==> e.origin.index in places)
  }

  // End-to-end order and integrity. Take any run, any connection, the first n lines sent on
  // it, and the mailbox of a client that has read them. The entries from one sender, in
  // index order, are messages that sender's lines got accepted, in the order of acceptance,
  // each at most once, with the same subject, body and timestamp, addressed to a name the
  // connection had asked for and got; and no message of the sender relayed among those
  // lines is missing. The name SERVER, which administrators' lines show too, is treated below.
  lemma EndToEndDelivery(ws: seq<World>, es: seq<Event>, i: nat, conn: int, n: nat, clock: nat -> int, sender: string)
    returns (places: seq<nat>)
    requires IsRun(ws, es) && i < |ws| && sender != "SERVER"
    requires n <= |SendsTo(ws[i].srv.effects, conn)|
    ensures var read := LinesOf(SendsTo(ws[i].srv.effects, conn))[..n];
            EmbedsAt(EntriesFrom(LogOf(read, clock), sender), ws[i].srv.ledger.accepted, places)
    ensures forall a | 0 <= a < |places| :: DeliveredOn(ws[i], conn, sender, places[a])
    ensures NoneMissing(ws[i], SendsTo(ws[i].srv.effects, conn)[..n], sender, places)
  {
    hide IsRun, EmbedsAt, LogOf, Traced, NoneMissing, DeliveredOn;
    TracedAlways(ws, es, i);
    places := MailboxOfPrefix(ws[i], conn, n, clock, sender);
  }

  // When no connection is answered twice, all of them are addressed to one name: two
  // messages delivered on a connection never name different recipients.
  lemma OneRecipient(ws: seq<World>, es: seq<Event>, i: nat, conn: int, a: string, j: nat, b: string, k: nat)
    requires IsRun(ws, es) && i < |ws| && OneAnswerEach(ws, es)
    requires DeliveredOn(ws[i], conn, a, j) && DeliveredOn(ws[i], conn, b, k)
    ensures ws[i].srv.ledger.accepted[j].to == ws[i].srv.ledger.accepted[k].to
  {
    hide IsRun, OneAnswerEach;
    var l := ws[i].srv.ledger;
    OneNameEach(ws, es, i, conn, l.accepted[j].to, l.accepted[k].to);
  }

  // The whole way, in bytes. The frames of those lines make up the byte stream of the
  // connection; a client that gets any first part of it, cut anywhere, and listens on it
  // ends up with such a mailbox.
  lemma BytesToMailbox(ws: seq<World>, es: seq<Event>, i: nat, conn: int, cut: nat, clock: nat -> int, sender: string)
    returns (places: seq<nat>)
    requires IsRun(ws, es) && i < |ws| && sender != "SERVER"
    requires forall line | line in LinesOf(SendsTo(ws[i].srv.effects, conn)) :: |line| < UINT32
    requires cut <= |EncodedAll(LinesOf(SendsTo(ws[i].srv.effects, conn)))|
    ensures var sends := SendsTo(ws[i].srv.effects, conn);
            var received := ReceivedAll(EncodedAll(LinesOf(sends))[..cut]);
            && EmbedsAt(EntriesFrom(LogOf(received, clock), sender), ws[i].srv.ledger.accepted, places)
            && |received| <= |sends| && NoneMissing(ws[i], sends[..|received|], sender, places)
    ensures forall a | 0 <= a < |places| :: DeliveredOn(ws[i], conn, sender, places[a])
  {
    hide IsRun, SendsTo, EmbedsAt, LogOf, DeliveredOn, NoneMissing;
    var lines := LinesOf(SendsTo(ws[i].srv.effects, conn));
    ReceivedIsPrefix(lines, cut);
    var received := ReceivedAll(EncodedAll(lines)[..cut]);
    assert lines[..|received|] == received;
    places := EndToEndDelivery(ws, es, i, conn, |received|, clock, sender);
  }

  // The same for one traced state.
  lemma MailboxOfPrefix(w: World, conn: int, n: nat, clock: nat -> int, sender: string) returns (places: seq<nat>)
    requires Traced(w) && sender != "SERVER"
    requires n <= |SendsTo(w.srv.effects, conn)|
    ensures EmbedsAt(EntriesFrom(LogOf(LinesOf(SendsTo(w.srv.effects, conn))[..n], clock), sender), w.srv.ledger.accepted, places)
    ensures forall a | 0 <= a < |places| :: DeliveredOn(w, conn, sender, places[a])
    ensures NoneMissing(w, SendsTo(w.srv.effects, conn)[..n], sender, places)
  {
    hide LogOf, EntriesFrom, Carries, IsMessage, RelayLine, Deliverable, SendsTo;
    var sends := SendsTo(w.srv.effects, conn);
    SendsAreEffects(w.srv.effects, conn);
    SendsRise(w.srv.effects, conn);
    places := MailboxFromSends(w, sends[..n], clock, sender);
    assert LinesOf(sends)[..n] == LinesOf(sends[..n]);
    forall a | 0 <= a < |places| ensures DeliveredOn(w, conn, sender, places[a]) {
      assert SentRelay(sends[..n], places[a]);
      var j :| 0 <= j < n && sends[..n][j].Sent? && sends[..n][j].origin == Relay(places[a]);
      assert sends[j] in sends && TrueTo(w, sends[j]);
    }
  }

  // --------------------------------------------------------------- the whole mailbox

  // The sends that are not replies: relays and administrators' lines.
  function MessageSends(sends: seq<Effect>): (r: seq<Effect>)
    requires AllSends(sends)
    ensures AllSends(r)
  {
    if sends == [] then []
    else
      var last := sends[|sends| - 1];
      MessageSends(sends[..|sends| - 1]) + if last.origin == Reply then [] else [last]
  }

  // What a send leaves in the mailbox: the relayed message, or an entry from SERVER with
  // the subject and text of the administrator's line.
  ghost predicate EntryOf(w: World, e: Effect, entry: ReceivedMessage)
    requires e.Sent?
  {
    match e.origin
    case Relay(k) => k < |w.srv.ledger.accepted| && Carries(entry, w.srv.ledger.accepted[k])
    case Admin =>
      IsMessage(e.line) && entry.from == EventOf(e.line).value.args[0] == "SERVER"
      && entry.subject == EventOf(e.line).value.args[1] && entry.body == EventOf(e.line).value.args[2]
    case Reply => false
  }

  ghost predicate LogIs(w: World, sends: seq<Effect>, log: seq<ReceivedMessage>)
    requires AllSends(sends)
  {
    |log| == |sends| && forall q | 0 <= q < |log| :: EntryOf(w, sends[q], log[q])
  }

  // The mailbox is exactly the relays and the administrators' lines, in the order they
  // were sent. A user may be called SERVER; the entries under that name are the relays of
  // such a user and the administrators' lines, and nothing in the entry tells them apart.
  lemma WholeMailbox(ws: seq<World>, es: seq<Event>, i: nat, conn: int, n: nat, clock: nat -> int)
    requires IsRun(ws, es) && i < |ws| && n <= |SendsTo(ws[i].srv.effects, conn)|
    ensures AllSends(SendsTo(ws[i].srv.effects, conn)[..n])
    ensures var sends := SendsTo(ws[i].srv.effects, conn)[..n];
            LogIs(ws[i], MessageSends(sends), LogOf(LinesOf(sends), clock))
  {
    hide IsRun, LogIs, LogOf, IsMessage, Deliverable, RelayLine;
    TracedAlways(ws, es, i);
    var sends := SendsTo(ws[i].srv.effects, conn);
    SendsAreEffects(ws[i].srv.effects, conn);
    assert forall e | e in sends[..n] :: e in sends;
    LogOfSends(ws[i], sends[..n], clock);
  }

  lemma {:induction false} LogOfSends(w: World, sends: seq<Effect>, clock: nat -> int)
    requires MessagesOk(w.srv.ledger) && AllSends(sends) && forall e | e in sends :: TrueTo(w, e)
    ensures LogIs(w, MessageSends(sends), LogOf(LinesOf(sends), clock))
  {
    hide TrueTo, MessagesOk, LogOf, EntryOf;
    if sends == [] {
      NoEntries(clock);
    } else {
      var before, e := sends[..|sends| - 1], sends[|sends| - 1];
      assert e in sends && forall x | x in before :: x in sends;
      LogOfSends(w, before, clock);
      assert LinesOf(sends) == LinesOf(before) + [e.line];
      OneMoreEntry(w, LinesOf(before), e, clock);
    }
  }

  lemma NoEntries(clock: nat -> int)
    ensures LogOf([], clock) == []
  {
    AllOfNone();
  }

  // One more line adds nothing to the log if it is a reply, and its entry otherwise.
  lemma OneMoreEntry(w: World, lines: seq<string>, e: Effect, clock: nat -> int)
    requires MessagesOk(w.srv.ledger) && e.Sent? && TrueTo(w, e)
    ensures var had, has := LogOf(lines, clock), LogOf(lines + [e.line], clock);
            if e.origin == Reply then has == had
            else |has| == |had| + 1 && has[..|had|] == had && EntryOf(w, e, has[|had|])
  {
    hide EventOf, LogOf, RelayLine, Conserved, AllFields, Deliverable, RelayFields, Carries;
    LogGrows(lines, e.line, clock);
    if e.origin.Relay? {
      var m := w.srv.ledger.accepted[e.origin.index];
      var n := |AllFields(lines)|;
      RelayIsRead(m);
      RelayIsStored(m, n, clock(n));
      StoredCarries(m, n, clock(n));
    }
  }

  lemma StoredCarries(m: Message, index: int, now: int)
    requires Deliverable(m)
    ensures Carries(Entry(RelayFields(m), index, now), m)
  {
    hide Entry, RelayFields;
    RelayIsStored(m, index, now);
  }

  // Counting as delivered means relayed: the line is among the sends of some connection.
  lemma {:induction false} DeliveredWasSent(ws: seq<World>, es: seq<Event>, i: nat, t: nat)
    requires IsRun(ws, es) && i < |ws|
    requires t < |ws[i].srv.ledger.fates| && ws[i].srv.ledger.fates[t] == Delivered
    ensures exists e :: e in ws[i].srv.effects && IsRelay(e) && e.origin.index == t
  {
    hide After, Enabled, BansHold, Deliverable, Conserved;
    if i == 0 {
      assert false;
    } else {
      var w, e := ws[i - 1], es[i - 1];
      MessagesAlwaysOk(ws, es, i - 1);
      PlumbingAndBansAlways(ws, es, i - 1);
      FateChange(w, e, t);
      if t < |w.srv.ledger.fates| && w.srv.ledger.fates[t] == Delivered {
        DeliveredWasSent(ws, es, i - 1, t);
        var x :| x in w.srv.effects && IsRelay(x) && x.origin.index == t;
        assert x in ws[i].srv.effects;
      }
    }
  }

  // A message becomes delivered only in the step that sends its relay; effects only grow.
  lemma FateChange(w: World, e: Event, t: nat)
    requires MessagesOk(w.srv.ledger) && BansHold(w) && Enabled(w, e)
    requires t < |After(w, e).srv.ledger.fates| && After(w, e).srv.ledger.fates[t] == Delivered
    ensures w.srv.effects <= After(w, e).srv.effects
    ensures (t < |w.srv.ledger.fates| && w.srv.ledger.fates[t] == Delivered)
         || (exists x :: x in After(w, e).srv.effects && IsRelay(x) && x.origin.index == t)
  {
    hide After, BansHold, Deliverable, Conserved, Relayed, Enabled;
    if e.Frame? {
      FrameKeepsMessages(w, e);
      FrameReplies(w, e);
    } else {
      OtherLedger(w, e);
      if e.DispatcherDeliver? {
        DeliverFate(w, e.sendOk, t);
      } else {
        NoticesAreHonest(w, e);
      }
    }
  }

  lemma DeliverFate(w: World, sendOk: bool, t: nat)
    requires MessagesOk(w.srv.ledger) && Enabled(w, DispatcherDeliver(sendOk))
    ensures w.srv.effects <= After(w, DispatcherDeliver(sendOk)).srv.effects
    ensures var l, l' := w.srv.ledger, After(w, DispatcherDeliver(sendOk)).srv.ledger;
            && |l'.fates| == |l.fates|
            && (t < |l'.fates| && l'.fates[t] == Delivered && l.fates[t] != Delivered
                ==> exists x :: x in After(w, DispatcherDeliver(sendOk)).srv.effects && IsRelay(x) && x.origin.index == t)
  {
    hide Relayed, Deliverable, RelayLine;
    DeliveryEffects(w, sendOk);
    OtherLedger(w, DispatcherDeliver(sendOk));
    var s' := Relayed(w.srv, sendOk);
    if FlightOutcome(w.srv, sendOk) == Delivered {
      var x := s'.effects[|s'.effects| - 1];
      assert x in s'.effects && IsRelay(x) && x.origin.index == w.srv.ledger.flight.value;
    }
  }
}
