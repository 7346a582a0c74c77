// What the server does on its own account: kicks, bans, announcements, the PING round, the
// notice of a failed delivery and the count of messages, on the state and over whole runs.
module Administration {
  import opened Wrappers
  import opened Text
  import opened Codec
  import opened Config
  import opened Dispatch
  import opened Mailbox
  import opened Sessions
  import opened Forwarding
  import opened System
  import opened Safety
  import opened Replies

  // ----------------------------------------------------------------- kick and ban

  predicate Online(s: State, name: string) {
    name in s.clients && s.clients[name].socket > 0
  }

  // One client, and nobody else, is told a reason and then loses registration and socket.
  ghost predicate ThrownOut(s: State, s': State, name: string, reason: string) {
    && Online(s, name) && s'.clients == s.clients - {name} && s'.ledger == s.ledger && s'.received == s.received
    && |s'.effects| == |s.effects| + 2 && s'.effects[..|s.effects|] == s.effects
    && ReadsAs(s'.effects[|s.effects|], s.clients[name].socket, ERROR_MSG, reason)
    && s'.effects[|s.effects| + 1] == Closed(s.clients[name].socket)
  }

  lemma KickThrowsOut(s: State, name: string, reason: string)
    requires Free(reason, DELIMITER)
    ensures if Online(s, name) then ThrownOut(s, Kicked(s, name, reason), name, reason) else Kicked(s, name, reason) == s
    ensures Kicked(s, name, reason).banned == s.banned
  {
    hide IsEvent, Line, Find;
    OneFieldIsRead(reason);
  }

  lemma KickStep(w: World, name: string)
    ensures var s' := After(w, KickUser(name)).srv;
            if Online(w.srv, name) then
              ThrownOut(w.srv, s', name, "You have been disconnected by admin") && s'.banned == w.srv.banned
            else s' == w.srv
  {
    hide Kicked, ThrownOut, Find;
    PlainTextIsFree("You have been disconnected by admin");
    KickThrowsOut(w.srv, name, "You have been disconnected by admin");
  }

  // A ban throws a client out and puts exactly its name on the list; without such a client
  // nothing happens.
  lemma BanStep(w: World, name: string)
    ensures var s' := After(w, BanUser(name)).srv;
            if Online(w.srv, name) then
              ThrownOut(w.srv, s', name, "You have been banned by admin") && s'.banned == w.srv.banned + {name}
            else s' == w.srv
  {
    hide Kicked, Find;
    PlainTextIsFree("You have been banned by admin");
    KickThrowsOut(w.srv, name, "You have been banned by admin");
  }

  lemma UnbanStep(w: World, name: string)
    ensures var s' := After(w, UnbanUser(name)).srv;
            name !in s'.banned && s' == w.srv.(banned := s'.banned) && s'.banned + {name} == w.srv.banned + {name}
  {
  }

  // Every other step leaves the ban list alone.
  lemma OnlyBansBan(w: World, e: Event)
    requires Enabled(w, e) && !e.BanUser? && !e.UnbanUser?
    ensures After(w, e).srv.banned == w.srv.banned
  {
    hide Handled, Registers, RequestedName, Line, RelayLine, Settled, AdminLine;
    if e.Frame? { FrameNames(w, e.raw, e.conn, e.env); }
  }

  lemma BanStays(w: World, e: Event, name: string)
    requires Enabled(w, e) && name in w.srv.banned && e != UnbanUser(name)
    ensures name in After(w, e).srv.banned
  {
    hide After, Enabled, ThrownOut;
    match e
    case BanUser(n) => BanStep(w, n);
    case UnbanUser(n) => UnbanStep(w, n);
    case _ => OnlyBansBan(w, e);
  }

  // Asking for a banned name: the ban notice, then the close.
  lemma BannedIsTurnedAway(w: World, e: Event)
    requires Enabled(w, e) && e.Frame? && RequestedName(w, e.raw).Some? && RequestedName(w, e.raw).value in w.srv.banned
    ensures TurnedAway(w.srv, After(w, e).srv, e.conn)
  {
    hide Handled, Parsed, ValidUsername, Sanitized, TurnedAway, Registers;
    ConnectIsAnswered(w.srv, w.config, e.raw, e.conn, e.env);
  }

  // From the ban of a client until its name is unbanned: the name is on the list, nobody
  // has it, and every line that asks for it is turned away.
  lemma {:induction false} BanHolds(ws: seq<World>, es: seq<Event>, i: nat, j: nat, name: string)
    requires IsRun(ws, es) && i < j < |ws| && es[i] == BanUser(name) && Online(ws[i].srv, name)
    requires forall k | i < k < j :: es[k] != UnbanUser(name)
    ensures name in ws[j].srv.banned && name !in ws[j].srv.clients
    ensures j < |es| && es[j].Frame? && RequestedName(ws[j], es[j].raw) == Some(name)
            ==> TurnedAway(ws[j].srv, ws[j + 1].srv, es[j].conn)
    decreases j
  {
    hide Initial, Enabled, After, RequestedName, TurnedAway, ThrownOut, Plumbing;
    if j == i + 1 {
      BanStep(ws[i], name);
    } else {
      BanHolds(ws, es, i, j - 1, name);
      BanStays(ws[j - 1], es[j - 1], name);
    }
    PlumbingAndBansAlways(ws, es, j);
    if j < |es| && es[j].Frame? && RequestedName(ws[j], es[j].raw) == Some(name) {
      BannedIsTurnedAway(ws[j], es[j]);
    }
  }

  // ------------------------------------------------------- administrators' messages

  predicate IsFromServer(line: string, subject: string, text: string) {
    EventOf(line) == Some(EventData(MESSAGE, "", ["SERVER", subject, text, "0"]))
  }

  lemma AdminLineIsRead(subject: string, text: string)
    requires Free(subject, DELIMITER) && Free(text, DELIMITER)
    ensures IsFromServer(AdminLine(subject, text), subject, text)
  {
    hide Find, EventOf, Line;
    PlainTextIsFree("SERVER");
    PlainTextIsFree("0");
    var args := ["SERVER", subject, text, "0"];
    MessageIsRead(args);
    assert args[..4] == args;
  }

  // Every registered client gets the announcement once, and nothing else happens.
  lemma AnnouncementReaches(w: World, order: seq<string>, text: string)
    requires Enabled(w, Announce(order, text)) && Free(text, DELIMITER)
    ensures var s, s' := w.srv, After(w, Announce(order, text)).srv;
            && s' == s.(effects := s'.effects) && |s'.effects| == |s.effects| + |order| && s'.effects[..|s.effects|] == s.effects
            && (forall n :: n in order <==> n in s.clients) && NoRepeats(order)
            && forall i | 0 <= i < |order| :: var x := s'.effects[|s.effects| + i];
                 x.Sent? && x.socket == s.clients[order[i]].socket && IsFromServer(x.line, "Announcement", text)
  {
    hide AdminLine, IsFromServer, Find;
    PlainTextIsFree("Announcement");
    AdminLineIsRead("Announcement", text);
  }

  // A private message goes to the one client named, if it is there.
  lemma PrivateMessageReaches(w: World, name: string, text: string)
    requires Free(text, DELIMITER)
    ensures var s, s' := w.srv, After(w, AdminSend(name, text)).srv;
            if !Online(s, name) then s' == s
            else
              && s' == s.(effects := s'.effects) && |s'.effects| == |s.effects| + 1 && s'.effects[..|s.effects|] == s.effects
              && var x := s'.effects[|s.effects|];
                 x.Sent? && x.socket == s.clients[name].socket && IsFromServer(x.line, "Private Message", text)
  {
    hide AdminLine, IsFromServer, Find;
    PlainTextIsFree("Private Message");
    AdminLineIsRead("Private Message", text);
  }

  // ----------------------------------------------------------------- the PING round

  // A round sends every registered client one line, a PING; nothing else happens.
  lemma RoundPingsEverybody(w: World, order: seq<string>)
    requires Enabled(w, PingRound(order))
    ensures var s, s' := w.srv, After(w, PingRound(order)).srv;
            && s' == s.(effects := s'.effects) && |s'.effects| == |s.effects| + |order| && s'.effects[..|s.effects|] == s.effects
            && (forall n :: n in order <==> n in s.clients) && NoRepeats(order)
            && forall i | 0 <= i < |order| :: var x := s'.effects[|s.effects| + i];
                 x.Sent? && x.socket == s.clients[order[i]].socket && IsPing(x.line)
  {
    hide IsPing, Find;
    PingIsRead();
  }

  lemma PingIsRead()
    ensures IsPing("PING\n")
  {
    hide Find, Line;
    BareCommandIsRead("PING");
    PongLine();
  }

  // The round and back: the client that listens to the line it got sends one line, and that
  // line, handled on its connection, sets its own last PONG and nothing else.
  lemma RoundIsAnswered(w: World, order: seq<string>, i: nat, c: Settings, env: Env)
    requires Enabled(w, PingRound(order)) && i < |order| && env.who == order[i] != ""
    ensures var s' := After(w, PingRound(order)).srv;
            var x := s'.effects[|w.srv.effects| + i];
            && x.Sent? && x.socket == w.srv.clients[env.who].socket
            && var pongs := AllPongs([x.line], _ => true);
               |pongs| == 1
               && Handled(s', c, pongs[0], x.socket, env)
                  == s'.(clients := s'.clients[env.who := s'.clients[env.who].(lastPong := env.now)])
  {
    hide Handled, IsPing, AllPongs;
    RoundPingsEverybody(w, order);
    var s' := After(w, PingRound(order)).srv;
    var x := s'.effects[|w.srv.effects| + i];
    assert order[i] in order;
    PingIsAnswered(s', c, x.socket, env);
    AnyPingGetsPong(x.line);
  }

  lemma AnyPingGetsPong(line: string)
    requires IsPing(line)
    ensures AllPongs([line], _ => true) == ["PONG\n"]
  {
    hide IsPing;
    PongLine();
    assert [line][..0] == [];
  }

  // ------------------------------------------------------------- a failed delivery

  // The recipient is gone: the sender, if still there, is told who could not be reached.
  lemma SenderIsTold(w: World, sendOk: bool)
    requires Enabled(w, DispatcherDeliver(sendOk))
    requires var m := w.srv.ledger.accepted[w.srv.ledger.flight.value];
             Deliverable(m) && !Online(w.srv, m.to) && Online(w.srv, m.from)
    ensures var s, s' := w.srv, After(w, DispatcherDeliver(sendOk)).srv;
            var m := s.ledger.accepted[s.ledger.flight.value];
            Says(s, s', s.clients[m.from].socket, ERROR_MSG, "Message to '" + m.to + NOT_DELIVERED)
  {
    hide IsEvent, Line, Find, Settled, Deliverable, RelayLine;
    var m := w.srv.ledger.accepted[w.srv.ledger.flight.value];
    RecipientIsFree(m);
    WrappedIsFree("Message to '", m.to, NOT_DELIVERED);
    OneFieldIsRead("Message to '" + m.to + NOT_DELIVERED);
  }

  lemma RecipientIsFree(m: Message)
    requires Deliverable(m)
    ensures Free(m.to, DELIMITER)
  {
    WordIsFree(m.to, DELIMITER_CHAR);
  }

  // ------------------------------------------------------------ messages received

  // A SEND line with its three fields from a registered connection.
  predicate Counts(e: Event) {
    e.Frame? && Parsed(e.raw).isValid && Parsed(e.raw).command == "SEND" && |Parsed(e.raw).arguments| >= 3 && e.env.who != ""
  }

  function Counted(es: seq<Event>): nat {
    if es == [] then 0 else Counted(es[..|es| - 1]) + if Counts(es[|es| - 1]) then 1 else 0
  }

  lemma FrameCounts(s: State, c: Settings, raw: string, conn: int, env: Env)
    ensures Handled(s, c, raw, conn, env).received
         == s.received + if Counts(Frame(0, conn, raw, env)) then 1 else 0
  {
    hide Parsed, Line, Submitted, Says, ValidUsername, ValidSubject, Sanitized, LogReply, RoutedAs;
    var p := Parsed(raw);
    if p.isValid && p.command == "SEND" {
      SendIsAnswered(s, c, raw, conn, env);
    }
  }

  lemma StepCounts(w: World, e: Event)
    requires Enabled(w, e)
    ensures After(w, e).srv.received == w.srv.received + if Counts(e) then 1 else 0
  {
    hide Handled, Registers, RequestedName, Line, RelayLine, AdminLine, Settled, Parsed;
    if e.Frame? { FrameCounts(w.srv, w.config, e.raw, e.conn, e.env); }
  }

  // totalMessagesReceived is the number of complete SEND lines from registered connections.
  lemma {:induction false} ReceivedIsCounted(ws: seq<World>, es: seq<Event>, i: nat)
    requires IsRun(ws, es) && i < |ws|
    ensures ws[i].srv.received == Counted(es[..i])
  {
    hide Enabled, After, Counts;
    if i > 0 {
      ReceivedIsCounted(ws, es, i - 1);
      StepCounts(ws[i - 1], es[i - 1]);
      assert es[..i][..i - 1] == es[..i - 1];
    }
  }
}
