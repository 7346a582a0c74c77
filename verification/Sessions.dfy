// The server's state and what every command does to it: the registry and ban list of
// src/Server/Server.cpp, the handlers of src/Server/CommandHandler.cpp and the commands
// of src/Server/AdminCommandHandler.cpp, as functions on values.
module Sessions {
  import opened Wrappers
  import opened Text
  import opened Codec
  import opened Numbers
  import opened Config
  import opened Dispatch

  datatype ClientInfo = ClientInfo(socket: int, lastPong: int)

  // Which call produced a line: a reply or notice, an administrator's message, or the
  // relay of accepted message number index.
  datatype Origin = Reply | Admin | Relay(index: nat)

  // The calls on sockets, in order.
  datatype Effect = Sent(socket: int, line: string, origin: Origin) | Closed(socket: int)

  type Clients = map<string, ClientInfo>

  datatype State = State(clients: Clients, banned: set<string>, ledger: Ledger, received: nat, effects: seq<Effect>)

  // What a handler reads besides its arguments: the name the registry scan finds for the
  // socket, the order in which a hash map is walked, the two clocks, the lines of the log
  // file (None when it cannot be opened).
  datatype Env = Env(who: string, order: seq<string>, now: int, stamp: int, log: Option<seq<string>>)

  // -------------------------------------------------------------------- registry

  // getUsernameBySocket: some name registered for the socket, or the empty string.
  predicate NamesSocket(clients: Clients, socket: int, who: string) {
    if who in clients then clients[who].socket == socket
    else who == "" && forall n | n in clients :: clients[n].socket != socket
  }

  // getUserSocket
  function SocketOf(clients: Clients, name: string): int {
    if name in clients then clients[name].socket else -1
  }

  // The keys of a hash map in the order some iteration meets them.
  ghost predicate Enumerates(order: seq<string>, names: set<string>) {
    NoRepeats(order) && forall n :: n in order <==> n in names
  }

  function Replied(s: State, socket: int, line: string): State {
    s.(effects := s.effects + [Sent(socket, line, Reply)])
  }

  function Erred(s: State, socket: int, text: string): State {
    Replied(s, socket, Line("ERROR", [text]))
  }

  // A registered client whose socket is closed.
  function Removed(s: State, name: string, socket: int): State {
    s.(clients := s.clients - {name}, effects := s.effects + [Closed(socket)])
  }

  // -------------------------------------------------------------------- handlers

  // handleConnect
  function Connected(s: State, c: Settings, data: seq<string>, socket: int, now: int): State {
    if |data| < 2 then s
    else
      var name := Sanitized(data[1]);
      if !ValidUsername(c, name) then Erred(s, socket, "Invalid username")
      else if name in s.banned then
        var s' := Erred(s, socket, "You are banned from this server");
        s'.(effects := s'.effects + [Closed(socket)])
      else if name in s.clients then Erred(s, socket, "Username already exists")
      else Replied(s.(clients := s.clients[name := ClientInfo(socket, now)]), socket, Line("OK", ["Connected as " + name]))
  }

  // handleDisconnect (the automatic stop is a constant false)
  function Disconnected(s: State, socket: int, who: string): State {
    if who == "" then s else Removed(s, who, socket)
  }

  const NOT_DELIVERED := "' could not be " + "delivered: user disconnected"
  const QUEUE_FULL := "Failed to send message: " + "queue full or dispatcher error"

  // handleSendMessage, from a valid message on: to everybody else or to one recipient.
  function Routed(s: State, m: Message, socket: int, order: seq<string>): State {
    if m.to == "all" then
      Replied(s.(ledger := OfferedAll(s.ledger, Addressed(m, Others(order, m.from)))), socket, Line("OK", ["Broadcast sent"]))
    else if SocketOf(s.clients, m.to) <= 0 then Erred(s, socket, "User '" + m.to + "' does not exist or is offline")
    else if Accepts(s.ledger) then Replied(s.(ledger := Offered(s.ledger, m)), socket, Line("OK", ["Message sent"]))
    else Erred(s, socket, QUEUE_FULL)
  }

  // handleSendMessage
  function Submitted(s: State, c: Settings, data: seq<string>, socket: int, env: Env): State {
    if |data| < 4 then Erred(s, socket, "Malformed message: missing fields")
    else if env.who == "" then Erred(s, socket, "Not authenticated")
    else
      var s := s.(received := s.received + 1);
      var m := Message(env.who, Sanitized(data[1]), Sanitized(data[2]), Sanitized(data[3]), env.stamp);
      if !ValidSubject(c, m.subject) then Erred(s, socket, "Subject too long (max 100 chars)")
      else if !ValidBody(m.body) then Erred(s, socket, "Body is empty")
      else Routed(s, m, socket, env.order)
  }

  // handlePong
  function Ponged(s: State, who: string, now: int): State {
    if who == "" || who !in s.clients then s
    else s.(clients := s.clients[who := s.clients[who].(lastPong := now)])
  }

  // handleListUsers
  function Listed(s: State, socket: int, order: seq<string>): State {
    Replied(s, socket, Line("USERS", [Join(order, ",")]))
  }

  // handleGetLog: the last 50 lines.
  function LogReply(log: Option<seq<string>>): string {
    match log
    case None => Line("ERROR", ["Log file not available"])
    case Some(lines) =>
      if lines == [] then Line("LOG", ["Log file is empty"])
      else Line("LOG", [TextOfLines(lines[LogStart(lines)..])])
  }

  function LogStart(lines: seq<string>): (start: nat)
    ensures start <= |lines|
  {
    if |lines| > 50 then |lines| - 50 else 0
  }

  // Each line with a newline behind it.
  function TextOfLines(lines: seq<string>): string {
    if lines == [] then "" else lines[0] + "\n" + TextOfLines(lines[1..])
  }

  lemma {:induction false} TextOfLinesSnoc(lines: seq<string>, line: string)
    ensures TextOfLines(lines + [line]) == TextOfLines(lines) + line + "\n"
  {
    if lines == [] {
      assert TextOfLines([line][1..]) == "";
    } else {
      assert (lines + [line])[1..] == lines[1..] + [line];
      TextOfLinesSnoc(lines[1..], line);
    }
  }

  // executeCommand
  function Executed(s: State, c: Settings, command: string, args: seq<string>, socket: int, env: Env): State {
    var data := [command] + args;
    if command == "CONNECT" then Connected(s, c, data, socket, env.now)
    else if command == "DISCONNECT" then Disconnected(s, socket, env.who)
    else if command == "SEND" then Submitted(s, c, data, socket, env)
    else if command == "PING" then Replied(s, socket, "PONG\n")
    else if command == "PONG" then Ponged(s, env.who, env.now)
    else if command == "LIST_USERS" then Listed(s, socket, env.order)
    else if command == "GET_LOG" then Replied(s, socket, LogReply(env.log))
    else Erred(s, socket, "Unknown command: " + command)
  }

  // One line received by handleClientMessages.
  function Handled(s: State, c: Settings, raw: string, socket: int, env: Env): State {
    var p := Parsed(raw);
    if p.isValid then Executed(s, c, p.command, p.arguments, socket, env) else s
  }

  // ---------------------------------------------------------------- administrator

  // disconnectUser
  function Kicked(s: State, name: string, reason: string): State {
    var socket := SocketOf(s.clients, name);
    if socket <= 0 then s else Removed(Erred(s, socket, reason), name, socket)
  }

  // cmdBan
  function Banned(s: State, name: string): State {
    if SocketOf(s.clients, name) <= 0 then s
    else
      var s' := Kicked(s, name, "You have been banned by admin");
      s'.(banned := s'.banned + {name})
  }

  // cmdUnban
  function Unbanned(s: State, name: string): State {
    s.(banned := s.banned - {name})
  }

  function AdminLine(subject: string, text: string): string {
    Line("MESSAGE", ["SERVER", subject, text, "0"])
  }

  // One line to every client of a list.
  function SentEach(clients: Clients, order: seq<string>, line: string, origin: Origin): (r: seq<Effect>)
    requires forall n | n in order :: n in clients
    ensures |r| == |order|
    ensures forall i | 0 <= i < |r| :: r[i] == Sent(clients[order[i]].socket, line, origin)
  {
    seq(|order|, i requires 0 <= i < |order| => Sent(clients[order[i]].socket, line, origin))
  }

  function SentToAll(s: State, order: seq<string>, line: string, origin: Origin): State
    requires forall n | n in order :: n in s.clients
  {
    s.(effects := s.effects + SentEach(s.clients, order, line, origin))
  }

  lemma SentEachSnoc(clients: Clients, order: seq<string>, name: string, line: string, origin: Origin)
    requires forall n | n in order + [name] :: n in clients
    ensures forall n | n in order :: n in clients
    ensures SentEach(clients, order + [name], line, origin)
         == SentEach(clients, order, line, origin) + [Sent(clients[name].socket, line, origin)]
  {
    assert forall n | n in order :: n in order + [name];
    assert name in order + [name];
  }

  // cmdBroadcast
  function Announced(s: State, order: seq<string>, text: string): State
    requires forall n | n in order :: n in s.clients
  {
    SentToAll(s, order, AdminLine("Announcement", text), Admin)
  }

  // cmdSend
  function AdminSent(s: State, name: string, text: string): State {
    var socket := SocketOf(s.clients, name);
    if socket <= 0 then s else s.(effects := s.effects + [Sent(socket, AdminLine("Private Message", text), Admin)])
  }

  // ------------------------------------------------------- heartbeat and dispatcher

  // The PING half of heartbeatLoop.
  function PingedAll(s: State, order: seq<string>): State
    requires forall n | n in order :: n in s.clients
  {
    SentToAll(s, order, "PING\n", Reply)
  }

  // One timed-out client of checkClientTimeouts.
  function Evicted(s: State, name: string, who: string): State {
    var socket := SocketOf(s.clients, name);
    if socket <= 0 then s else Disconnected(s, socket, who)
  }

  function RelayLine(m: Message): string {
    Line("MESSAGE", [m.from, m.subject, m.body, ToText(m.timestamp)])
  }

  // The dispatcher's delivery of the message in flight; sendOk is what ::send reports.
  function Relayed(s: State, sendOk: bool): State
    requires s.ledger.flight.Some? && s.ledger.flight.value < |s.ledger.fates| <= |s.ledger.accepted|
  {
    var index := s.ledger.flight.value;
    var m := s.ledger.accepted[index];
    var socket := SocketOf(s.clients, m.to);
    if socket <= 0 then
      var s' := s.(ledger := Settled(s.ledger, Undeliverable));
      var sender := SocketOf(s.clients, m.from);
      if sender > 0 then Erred(s', sender, "Message to '" + m.to + NOT_DELIVERED) else s'
    else if sendOk then
      s.(ledger := Settled(s.ledger, Delivered), effects := s.effects + [Sent(socket, RelayLine(m), Relay(index))])
    else s.(ledger := Settled(s.ledger, SendFailed))
  }

  // run, from a state with nothing in flight until the queue is empty; sendOk tells what
  // ::send reports for the k-th message handled.
  ghost function Drained(s: State, sendOk: nat -> bool, k: nat): State
    requires Conserved(s.ledger) && s.ledger.flight == None
    decreases |s.ledger.queue|
  {
    if s.ledger.queue == [] then s
    else
      TakeConserves(s.ledger);
      var taken := s.(ledger := Taken(s.ledger));
      RelayConserves(taken, sendOk(k));
      Drained(Relayed(taken, sendOk(k)), sendOk, k + 1)
  }

  lemma RelayConserves(s: State, sendOk: bool)
    requires Conserved(s.ledger) && s.ledger.flight.Some?
    ensures var l, l' := s.ledger, Relayed(s, sendOk).ledger;
            Conserved(l') && l'.flight == None && l'.queue == l.queue && l'.accepted == l.accepted && |l'.fates| == |l.fates|
  {
    SettleConserves(s.ledger, Undeliverable);
    SettleConserves(s.ledger, Delivered);
    SettleConserves(s.ledger, SendFailed);
  }

  // Draining leaves every accepted message with a final fate.
  lemma {:induction false} DrainedIsSettled(s: State, sendOk: nat -> bool, k: nat)
    requires Conserved(s.ledger) && s.ledger.flight == None
    ensures var l := Drained(s, sendOk, k).ledger;
            && Conserved(l) && l.queue == [] && l.flight == None && l.accepted == s.ledger.accepted
            && |l.fates| == |l.accepted| && InFlight !in l.fates
    decreases |s.ledger.queue|
  {
    hide Relayed;
    if s.ledger.queue != [] {
      TakeConserves(s.ledger);
      var taken := s.(ledger := Taken(s.ledger));
      RelayConserves(taken, sendOk(k));
      DrainedIsSettled(Relayed(taken, sendOk(k)), sendOk, k + 1);
    }
  }

  // What becomes of a message when it is its turn.
  function Outcome(clients: Clients, m: Message, sendOk: bool): Fate {
    if SocketOf(clients, m.to) <= 0 then Undeliverable else if sendOk then Delivered else SendFailed
  }

  // From s to s' each queued message got exactly the fate its recipient and its send give
  // it, and the delivered ones were relayed to their recipient's socket.
  ghost predicate Decided(s: State, s': State, sendOk: nat -> bool, k: nat) {
    var l := s.ledger;
    && s'.clients == s.clients && s.effects <= s'.effects
    && |l.fates| <= |s'.ledger.fates| == |l.accepted| && s'.ledger.fates[..|l.fates|] == l.fates
    && forall j | |l.fates| <= j < |l.accepted| ::
         && s'.ledger.fates[j] == Outcome(s.clients, l.accepted[j], sendOk(k + (j - |l.fates|)))
         && (s'.ledger.fates[j] == Delivered ==>
               Sent(SocketOf(s.clients, l.accepted[j].to), RelayLine(l.accepted[j]), Relay(j)) in s'.effects)
  }

  lemma {:induction false} DrainedAreDecided(s: State, sendOk: nat -> bool, k: nat)
    requires Conserved(s.ledger) && s.ledger.flight == None
    ensures Decided(s, Drained(s, sendOk, k), sendOk, k)
    decreases |s.ledger.queue|
  {
    hide Relayed, Decided;
    if s.ledger.queue == [] {
      NothingToDecide(s, sendOk, k);
    } else {
      TakeConserves(s.ledger);
      var taken := s.(ledger := Taken(s.ledger));
      RelayConserves(taken, sendOk(k));
      var next := Relayed(taken, sendOk(k));
      DrainedAreDecided(next, sendOk, k + 1);
      OneMoreDecided(s, next, Drained(next, sendOk, k + 1), sendOk, k);
    }
  }

  lemma NothingToDecide(s: State, sendOk: nat -> bool, k: nat)
    requires Conserved(s.ledger) && s.ledger.queue == []
    ensures Decided(s, s, sendOk, k)
  {
  }

  lemma OneMoreDecided(s: State, next: State, s': State, sendOk: nat -> bool, k: nat)
    requires Conserved(s.ledger) && s.ledger.flight == None && s.ledger.queue != []
    requires next == Relayed(s.(ledger := Taken(s.ledger)), sendOk(k))
    requires Decided(next, s', sendOk, k + 1)
    ensures Decided(s, s', sendOk, k)
  {
    hide Relayed, RelayLine, Outcome, SocketOf, Taken, Conserved;
    FrontIsDecided(s, sendOk(k));
    var n := |s.ledger.fates|;
    assert s'.ledger.fates[n] == s'.ledger.fates[..n + 1][n];
    assert s'.ledger.fates[..n] == s'.ledger.fates[..n + 1][..n];
  }

  // Taking and relaying the front of the queue decides it and nothing else.
  lemma FrontIsDecided(s: State, sendOk: bool)
    requires Conserved(s.ledger) && s.ledger.flight == None && s.ledger.queue != []
    ensures var l, next := s.ledger, Relayed(s.(ledger := Taken(s.ledger)), sendOk);
            var n := |l.fates|;
            && n < |l.accepted| && next.clients == s.clients && s.effects <= next.effects
            && next.ledger.accepted == l.accepted
            && next.ledger.fates == l.fates + [Outcome(s.clients, l.accepted[n], sendOk)]
            && (Outcome(s.clients, l.accepted[n], sendOk) == Delivered ==>
                  Sent(SocketOf(s.clients, l.accepted[n].to), RelayLine(l.accepted[n]), Relay(n)) in next.effects)
  {
    hide Relayed, RelayLine, Outcome, SocketOf, Conserved;
    var taken := s.(ledger := Taken(s.ledger));
    TakeConserves(s.ledger);
    FrontIsNext(s.ledger);
    RelayConserves(taken, sendOk);
    RelayedOutcome(taken, sendOk);
  }

  lemma FrontIsNext(l: Ledger)
    requires Conserved(l) && l.queue != []
    ensures |l.fates| < |l.accepted|
  {
  }

  lemma RelayedOutcome(s: State, sendOk: bool)
    requires Conserved(s.ledger) && s.ledger.flight.Some?
    ensures var i, s' := s.ledger.flight.value, Relayed(s, sendOk);
            var m := s.ledger.accepted[i];
            && s'.clients == s.clients && s.effects <= s'.effects
            && s'.ledger.fates == s.ledger.fates[i := Outcome(s.clients, m, sendOk)]
            && (Outcome(s.clients, m, sendOk) == Delivered ==>
                  Sent(SocketOf(s.clients, m.to), RelayLine(m), Relay(i)) in s'.effects)
  {
    hide Line, RelayLine, Conserved;
  }

  // ------------------------------------------------------------------ the ban file

  // saveBanlist, walking the set in some order.
  function BanFile(order: seq<string>): string {
    TextOfLines(order)
  }

  // The lines std::getline finds: a last line without newline counts, an empty rest does not.
  function FileLines(text: string): seq<string>
    decreases |text|
  {
    if text == "" then []
    else
      match Find(text, "\n", 0)
      case None => [text]
      case Some(k) => FoundFits(text, "\n", 0); [text[..k]] + FileLines(text[k + 1..])
  }

  // loadBanlist: the non-empty lines.
  function BansIn(text: string): set<string> {
    NonEmpty(FileLines(text))
  }

  function NonEmpty(lines: seq<string>): set<string> {
    set line | line in lines && line != ""
  }

  function Trimmed(ts: seq<string>): seq<string> {
    if ts != [] && ts[|ts| - 1] == "" then ts[..|ts| - 1] else ts
  }

  lemma TrimmedCons(t: string, ts: seq<string>)
    requires ts != []
    ensures Trimmed([t] + ts) == [t] + Trimmed(ts)
  {
  }

  // The lines are the pieces between newlines, but for an empty piece at the end.
  lemma {:induction false} LinesArePieces(text: string)
    ensures FileLines(text) == Trimmed(Pieces(text, "\n"))
    decreases |text|
  {
    hide Find, MatchesAt, Pieces, Trimmed;
    if text == "" {
      NoText();
    } else {
      match Find(text, "\n", 0)
      case None => OneLine(text);
      case Some(k) =>
        FoundChar(text, '\n');
        LinesArePieces(text[k + 1..]);
        PiecesAtMatch(text, "\n", k);
        TrimmedCons(text[..k], Pieces(text[k + 1..], "\n"));
    }
  }

  lemma OneLine(text: string)
    requires text != "" && Find(text, "\n", 0).None?
    ensures Trimmed(Pieces(text, "\n")) == [text]
  {
  }

  lemma NoText()
    ensures Trimmed(Pieces("", "\n")) == []
  {
  }

  // The bans in a file, also one edited by hand, are its non-empty lines.
  lemma BansAreTokens(text: string)
    ensures forall n :: n in BansIn(text) <==> n != "" && n in Tokens(text, "\n")
  {
    hide FileLines, Pieces, Trimmed, Find;
    LinesArePieces(text);
    NoText();
    forall n | n != "" ensures n in Trimmed(Pieces(text, "\n")) <==> n in Pieces(text, "\n") {
      TrimmedHolds(Pieces(text, "\n"), n);
    }
    if text == "" { assert FileLines(text) == []; }
  }

  lemma TrimmedHolds(ts: seq<string>, t: string)
    requires t != ""
    ensures t in Trimmed(ts) <==> t in ts
  {
    if ts != [] {
      assert ts == ts[..|ts| - 1] + [ts[|ts| - 1]];
    }
  }

  predicate PlainLine(name: string) {
    name != "" && '\n' !in name
  }

  lemma {:induction false} SavedLines(order: seq<string>)
    requires forall n | n in order :: PlainLine(n)
    ensures FileLines(BanFile(order)) == order
  {
    if order != [] {
      var name, rest := order[0], BanFile(order[1..]);
      var text := BanFile(order);
      assert PlainLine(name);
      assert text[..|name|] == name && text[|name|] == '\n' && text[|name| + 1..] == rest;
      FindChar(text, '\n', |name|);
      SavedLines(order[1..]);
      assert order == [name] + order[1..];
    }
  }

  lemma {:induction false} LinesArePlain(text: string)
    ensures forall l | l in FileLines(text) :: '\n' !in l
    decreases |text|
  {
    if text != "" {
      match Find(text, "\n", 0)
      case None => FreeOfChar(text, '\n');
      case Some(k) =>
        FoundChar(text, '\n');
        LinesArePlain(text[k + 1..]);
    }
  }

  // Loading what was saved restores exactly the sets whose names are non-empty lines,
  // in whatever order they were written.
  lemma BanListPersists(banned: set<string>, order: seq<string>)
    requires Enumerates(order, banned)
    ensures BansIn(BanFile(order)) == banned <==> forall n | n in banned :: PlainLine(n)
  {
    LinesArePlain(BanFile(order));
    if forall n | n in banned :: PlainLine(n) {
      SavedLines(order);
    }
  }
}
