// The command handlers working on a Server object: src/Server/CommandHandler.cpp,
// src/Server/AdminCommandHandler.cpp, and the loops of Server and Dispatcher that call them.
module Handlers {
  import opened Wrappers
  import opened Text
  import opened Codec
  import opened Config
  import opened Dispatch
  import opened Sessions
  import opened Safety
  import Numbers
  import opened ServerObjects
  import Heartbeat

  class CommandHandler {
    const server: Server

    constructor (server: Server)
      ensures this.server == server
    {
      this.server := server;
    }

    method SendError(socket: int, text: string)
      modifies server`effects
      ensures server.effects == old(server.effects) + [Sent(socket, Line("ERROR", [text]), Reply)]
    {
      var line := Build("ERROR", [text]);
      server.SendLine(socket, line, Reply);
    }

    method SendOK(socket: int, message: string)
      modifies server`effects
      ensures server.effects == old(server.effects) + [Sent(socket, Line("OK", [if message == "" then "OK" else message]), Reply)]
    {
      var msg := if message == "" then "OK" else message;
      var line := Build("OK", [msg]);
      server.SendLine(socket, line, Reply);
    }

    method HandleConnect(c: Settings, data: seq<string>, socket: int, now: int)
      requires server.Valid()
      modifies server`clients, server`effects
      ensures server.Valid() && server.View() == Connected(old(server.View()), c, data, socket, now)
    {
      hide Line, Limit;
      if |data| < 2 {
        return;
      }
      var username := Sanitize(data[1]);
      if !ValidUsername(c, username) {
        SendError(socket, "Invalid username");
        return;
      }
      var banned := server.IsBanned(username);
      if banned {
        SendError(socket, "You are banned from this server");
        server.Close(socket);
        return;
      }
      var taken := server.IsUsernameTaken(username);
      if taken {
        SendError(socket, "Username already exists");
        return;
      }
      server.RegisterClient(username, socket, now);
      SendOK(socket, "Connected as " + username);
    }

    method HandleDisconnect(socket: int) returns (ghost who: string)
      requires server.Valid()
      modifies server`clients, server`effects
      ensures NamesSocket(old(server.clients), socket, who)
      ensures server.Valid() && server.View() == Disconnected(old(server.View()), socket, who)
    {
      var username := server.GetUsernameBySocket(socket);
      who := username;
      if username == "" {
        return;
      }
      server.UnregisterClient(username);
      server.Close(socket);
    }

    method HandleSendMessage(c: Settings, data: seq<string>, socket: int, stamp: int)
      returns (ghost who: string, ghost order: seq<string>)
      requires server.Valid()
      modifies server`totalMessagesReceived, server`effects, server.dispatcher
      ensures NamesSocket(server.clients, socket, who) && Enumerates(order, server.clients.Keys)
      ensures server.Valid()
      ensures forall env: Env | env.who == who && env.order == order && env.stamp == stamp ::
                server.View() == Submitted(old(server.View()), c, data, socket, env)
    {
      hide Line, Limit, Conserved, Routed, Sanitized, NamesSocket, Enumerates;
      var names := server.GetAllClients();
      order := names;
      var from := server.GetUsernameBySocket(socket);
      who := from;
      if |data| < 4 {
        SendError(socket, "Malformed message: missing fields");
        return;
      }
      if from == "" {
        SendError(socket, "Not authenticated");
        return;
      }
      server.totalMessagesReceived := server.totalMessagesReceived + 1;
      var to := Sanitize(data[1]);
      var subject := Sanitize(data[2]);
      var body := Sanitize(data[3]);
      var msg := Message(from, to, subject, body, stamp);
      if !ValidSubject(c, msg.subject) {
        SendError(socket, "Subject too long (max 100 chars)");
        return;
      }
      if !ValidBody(msg.body) {
        SendError(socket, "Body is empty");
        return;
      }
      Route(msg, names, socket);
    }

    // handleSendMessage from the test for "all" on.
    method Route(msg: Message, names: seq<string>, socket: int)
      requires server.Valid()
      modifies server`effects, server.dispatcher
      ensures server.Valid() && server.View() == Routed(old(server.View()), msg, socket, names)
    {
      hide Line, Conserved, OfferedAll, Others, Addressed;
      if msg.to == "all" {
        Broadcast(msg, names);
        SendOK(socket, "Broadcast sent");
        return;
      }
      var recipientSocket := server.GetUserSocket(msg.to);
      if recipientSocket <= 0 {
        SendError(socket, "User '" + msg.to + "' does not exist or is offline");
        return;
      }
      var queued := server.dispatcher.QueueMessage(msg);
      if queued {
        SendOK(socket, "Message sent");
      } else {
        SendError(socket, QUEUE_FULL);
      }
    }

    // The broadcast loop of handleSendMessage.
    method Broadcast(msg: Message, names: seq<string>)
      requires server.dispatcher.Valid()
      modifies server.dispatcher
      ensures server.dispatcher.Valid() && server.dispatcher.sent == old(server.dispatcher.sent)
      ensures server.dispatcher.View() == OfferedAll(old(server.dispatcher.View()), Addressed(msg, Others(names, msg.from)))
    {
      hide Conserved, Offered, Accepts;
      ghost var ledger := server.dispatcher.View();
      for i := 0 to |names|
        invariant server.dispatcher.Valid()
        invariant server.dispatcher.View() == OfferedAll(ledger, Addressed(msg, Others(names[..i], msg.from)))
      {
        assert names[..i + 1] == names[..i] + [names[i]];
        BroadcastStep(ledger, msg, names[..i], names[i]);
        if names[i] != msg.from {
          var copy := msg.(to := names[i]);
          var _ := server.dispatcher.QueueMessage(copy);
        }
      }
      assert names[..|names|] == names;
      OfferAllConserves(ledger, Addressed(msg, Others(names, msg.from)));
    }

    method HandlePing(socket: int)
      modifies server`effects
      ensures server.effects == old(server.effects) + [Sent(socket, "PONG\n", Reply)]
    {
      server.SendLine(socket, "PONG\n", Reply);
    }

    method HandlePong(socket: int, now: int) returns (ghost who: string)
      requires server.Valid()
      modifies server`clients
      ensures NamesSocket(old(server.clients), socket, who)
      ensures server.Valid() && server.View() == Ponged(old(server.View()), who, now)
    {
      var username := server.GetUsernameBySocket(socket);
      who := username;
      if username == "" {
        return;
      }
      server.UpdateClientPong(username, now);
    }

    method HandleListUsers(socket: int) returns (ghost order: seq<string>)
      requires server.Valid()
      modifies server`effects
      ensures Enumerates(order, server.clients.Keys)
      ensures server.Valid() && server.View() == Listed(old(server.View()), socket, order)
    {
      hide Line;
      var names := server.GetAllClients();
      order := names;
      var userList := "";
      for i := 0 to |names|
        invariant server.effects == old(server.effects)
        invariant userList == if i == 0 then "" else Join(names[..i], ",") + ","
      {
        assert names[..i + 1] == names[..i] + [names[i]];
        if i > 0 { JoinSnoc(names[..i], names[i], ","); }
        userList := userList + names[i] + ",";
      }
      assert names[..|names|] == names;
      if userList != "" && userList[|userList| - 1] == ',' {
        userList := userList[..|userList| - 1];
      }
      assert userList == Join(names, ",");
      var line := Build("USERS", [userList]);
      server.SendLine(socket, line, Reply);
    }

    method HandleGetLog(socket: int, log: Option<seq<string>>)
      modifies server`effects
      ensures server.effects == old(server.effects) + [Sent(socket, LogReply(log), Reply)]
    {
      hide Line;
      if log.None? {
        SendError(socket, "Log file not available");
        return;
      }
      var lines := log.value;
      var line;
      if lines == [] {
        line := Build("LOG", ["Log file is empty"]);
        server.SendLine(socket, line, Reply);
        return;
      }
      var logContent := LastLines(lines);
      line := Build("LOG", [logContent]);
      server.SendLine(socket, line, Reply);
    }

    method LastLines(lines: seq<string>) returns (logContent: string)
      ensures logContent == TextOfLines(lines[LogStart(lines)..])
    {
      hide TextOfLines;
      var start := LogStart(lines);
      logContent := "";
      assert lines[start..start] == [] && TextOfLines([]) == "" by { NoLines(); }
      for i := start to |lines|
        invariant logContent == TextOfLines(lines[start..i])
      {
        TextOfLinesSnoc(lines[start..i], lines[i]);
        assert lines[start..i] + [lines[i]] == lines[start..i + 1];
        logContent := logContent + lines[i] + "\n";
      }
      assert lines[start..|lines|] == lines[start..];
    }

    // Server::executeCommand
    method ExecuteCommand(c: Settings, command: string, args: seq<string>, socket: int, now: int, stamp: int,
                          log: Option<seq<string>>)
      returns (ghost env: Env)
      requires server.Valid()
      modifies server`clients, server`totalMessagesReceived, server`effects, server.dispatcher
      ensures server.Valid()
      ensures NamesSocket(old(server.clients), socket, env.who) && Enumerates(env.order, old(server.clients.Keys))
      ensures env.now == now && env.stamp == stamp && env.log == log
      ensures server.View() == Executed(old(server.View()), c, command, args, socket, env)
    {
      hide Connected, Submitted, Disconnected, Ponged, Line, Conserved;
      var data := [command] + args;
      ghost var who := server.GetUsernameBySocket(socket);
      ghost var order := server.GetAllClients();
      if command == "CONNECT" {
        HandleConnect(c, data, socket, now);
      } else if command == "DISCONNECT" {
        who := HandleDisconnect(socket);
      } else if command == "SEND" {
        who, order := HandleSendMessage(c, data, socket, stamp);
      } else if command == "PING" {
        HandlePing(socket);
      } else if command == "PONG" {
        who := HandlePong(socket, now);
      } else if command == "LIST_USERS" {
        order := HandleListUsers(socket);
      } else if command == "GET_LOG" {
        HandleGetLog(socket, log);
      } else {
        SendError(socket, "Unknown command: " + command);
      }
      env := Env(who, order, now, stamp, log);
    }

    // One pass of Server::handleClientMessages: a received line, or the end of the stream.
    method HandleLine(c: Settings, message: Option<string>, socket: int, now: int, stamp: int, log: Option<seq<string>>)
      returns (ghost env: Env)
      requires server.Valid()
      modifies server`clients, server`totalMessagesReceived, server`effects, server.dispatcher
      ensures server.Valid()
      ensures NamesSocket(old(server.clients), socket, env.who) && Enumerates(env.order, old(server.clients.Keys))
      ensures env.now == now && env.stamp == stamp && env.log == log
      ensures server.View() == match message
                               case None => Disconnected(old(server.View()), socket, env.who)
                               case Some(raw) => Handled(old(server.View()), c, raw, socket, env)
    {
      hide Executed, Conserved;
      ghost var who := server.GetUsernameBySocket(socket);
      ghost var order := server.GetAllClients();
      env := Env(who, order, now, stamp, log);
      if message.None? {
        var username := server.GetUsernameBySocket(socket);
        env := env.(who := username);
        if username != "" {
          var found := HandleDisconnect(socket);
          env := env.(who := found);
        }
        return;
      }
      var parsed := Parse(message.value);
      if parsed.isValid {
        env := ExecuteCommand(c, parsed.command, parsed.arguments, socket, now, stamp, log);
      }
    }

    // ------------------------------------------------------------------ heartbeat

    // The first loop of Server::checkClientTimeouts.
    method FindTimedOut(now: int) returns (timedOut: seq<string>)
      ensures NoRepeats(timedOut)
      ensures forall n :: n in timedOut <==> n in server.clients && Heartbeat.TimedOut(server.clients[n].lastPong, now)
    {
      var names := server.GetAllClients();
      timedOut := [];
      for i := 0 to |names|
        invariant NoRepeats(timedOut)
        invariant forall n :: n in timedOut <==> n in names[..i] && Heartbeat.TimedOut(server.clients[n].lastPong, now)
      {
        assert names[i] !in names[..i];
        if Heartbeat.TimedOut(server.clients[names[i]].lastPong, now) {
          timedOut := timedOut + [names[i]];
        }
      }
      assert names[..|names|] == names;
    }

    // The second loop; whos are the names the registry scans find on the way.
    method EvictAll(names: seq<string>) returns (ghost whos: seq<string>)
      requires server.Valid()
      modifies server`clients, server`effects
      ensures server.Valid() && |whos| == |names|
      ensures ScansFind(old(server.View()), names, whos)
      ensures server.View() == EvictedEach(old(server.View()), names, whos)
    {
      hide NamesSocket, Evicted, Conserved, ScansFind, EvictedEach;
      ghost var start := server.View();
      whos := [];
      NobodyEvicted(start);
      for i := 0 to |names|
        invariant server.Valid() && |whos| == i
        invariant ScansFind(start, names[..i], whos)
        invariant server.View() == EvictedEach(start, names[..i], whos)
      {
        var who := EvictOne(names[i]);
        EvictStep(start, names[..i], whos, names[i], who);
        assert names[..i + 1] == names[..i] + [names[i]];
        whos := whos + [who];
      }
      assert names[..|names|] == names;
    }

    method EvictOne(name: string) returns (ghost who: string)
      requires server.Valid()
      modifies server`clients, server`effects
      ensures server.Valid()
      ensures NamesSocket(old(server.clients), SocketOf(old(server.clients), name), who)
      ensures server.View() == Evicted(old(server.View()), name, who)
    {
      hide Conserved;
      who := server.GetUsernameBySocket(SocketOf(server.clients, name));
      var socket := server.GetUserSocket(name);
      if socket > 0 {
        who := HandleDisconnect(socket);
      }
    }

    // Server::checkClientTimeouts: from a sound registry exactly the clients that have
    // timed out go, and each of their sockets is closed once.
    method CheckClientTimeouts(now: int) returns (ghost evicted: seq<string>, ghost whos: seq<string>)
      requires server.Valid()
      modifies server`clients, server`effects
      ensures server.Valid() && NoRepeats(evicted) && |whos| == |evicted|
      ensures forall n :: n in evicted <==> n in old(server.clients) && Heartbeat.TimedOut(old(server.clients)[n].lastPong, now)
      ensures ScansFind(old(server.View()), evicted, whos)
      ensures server.View() == EvictedEach(old(server.View()), evicted, whos)
      ensures old(Regular(server.clients)) ==>
                && server.clients == Remaining(old(server.clients), evicted)
                && server.effects == old(server.effects) + ClosedEach(old(server.clients), evicted)
    {
      ghost var start := server.View();
      var timedOut := FindTimedOut(now);
      evicted := timedOut;
      whos := EvictAll(timedOut);
      if Regular(start.clients) { EvictedAreGone(start, evicted, whos); }
    }

    // The PING half of Server::heartbeatLoop.
    method PingClients() returns (ghost order: seq<string>)
      requires server.Valid()
      modifies server`effects
      ensures Enumerates(order, server.clients.Keys)
      ensures server.effects == old(server.effects) + SentEach(server.clients, order, "PING\n", Reply)
      ensures server.Valid() && server.View() == PingedAll(old(server.View()), order)
    {
      var names := server.GetAllClients();
      order := names;
      for i := 0 to |names|
        invariant server.effects == old(server.effects) + SentEach(server.clients, names[..i], "PING\n", Reply)
      {
        assert names[..i + 1] == names[..i] + [names[i]];
        SentEachSnoc(server.clients, names[..i], names[i], "PING\n", Reply);
        server.SendLine(server.clients[names[i]].socket, "PING\n", Reply);
      }
      assert names[..|names|] == names;
    }

    // ----------------------------------------------------------------- dispatcher

    // Dispatcher::run after the pop: find the recipient, relay or tell the sender.
    method Deliver(msg: Message, sendOk: bool)
      requires server.Valid() && server.dispatcher.flight.Some?
      requires msg == server.dispatcher.accepted[server.dispatcher.flight.value]
      modifies server`totalMessagesSent, server`effects, server.dispatcher
      ensures server.Valid() && server.View() == Relayed(old(server.View()), sendOk)
      ensures server.dispatcher.running == old(server.dispatcher.running)
    {
      hide Line, Conserved;
      ghost var index := server.dispatcher.flight.value;
      SettledCounts(server.View().ledger);
      var recipientSocket := server.GetUserSocket(msg.to);
      if recipientSocket <= 0 {
        var senderSocket := server.GetUserSocket(msg.from);
        if senderSocket > 0 {
          SendError(senderSocket, "Message to '" + msg.to + NOT_DELIVERED);
        }
        server.dispatcher.Settle(Undeliverable);
        return;
      }
      var line := Build("MESSAGE", [msg.from, msg.subject, msg.body, Numbers.ToText(msg.timestamp)]);
      if sendOk {
        server.SendLine(recipientSocket, line, Relay(index));
        server.totalMessagesSent := server.totalMessagesSent + 1;
        server.dispatcher.Settle(Delivered);
      } else {
        server.dispatcher.Settle(SendFailed);
      }
    }

    // Dispatcher::run until it would go to sleep with nobody else acting: every queued
    // message is handled, in order.
    method RunDispatcher(sendOk: nat -> bool)
      requires server.Valid() && server.dispatcher.flight == None && server.dispatcher.running
      modifies server`totalMessagesSent, server`effects, server.dispatcher
      ensures server.Valid() && server.dispatcher.messages == [] && server.dispatcher.flight == None
      ensures server.View() == Drained(old(server.View()), sendOk, 0)
    {
      hide Conserved, Relayed;
      var k: nat := 0;
      ghost var start := server.View();
      while server.dispatcher.running && server.dispatcher.messages != []
        invariant server.Valid() && server.dispatcher.flight == None && server.dispatcher.running
        invariant Drained(server.View(), sendOk, k) == Drained(start, sendOk, 0)
        decreases |server.dispatcher.messages|
      {
        ghost var before := server.View();
        var msg := server.dispatcher.TakeNext(true);
        if msg.None? {
          break;
        }
        TakeConserves(before.ledger);
        RelayConserves(server.View(), sendOk(k));
        Deliver(msg.value, sendOk(k));
        k := k + 1;
      }
    }
  }

  lemma NoLines()
    ensures TextOfLines([]) == ""
  {
  }

  // A registry without some names.
  function Remaining(clients: Clients, names: seq<string>): (r: Clients)
    ensures forall n :: n in r <==> n in clients && n !in names
    ensures forall n | n in r :: r[n] == clients[n]
  {
    map n | n in clients && n !in names :: clients[n]
  }

  // One close for each of some registered names.
  function ClosedEach(clients: Clients, names: seq<string>): (r: seq<Effect>)
    ensures |r| == |names|
    ensures forall i | 0 <= i < |r| :: r[i] == Closed(SocketOf(clients, names[i]))
  {
    seq(|names|, i requires 0 <= i < |names| => Closed(SocketOf(clients, names[i])))
  }

  predicate Registered(clients: Clients, name: string) {
    name in clients && clients[name].socket > 0
  }

  // One name per socket, and real sockets only.
  ghost predicate Regular(clients: Clients) {
    Injective(clients) && forall n | n in clients :: clients[n].socket > 0
  }

  // One client after the other.
  function EvictedEach(s: State, names: seq<string>, whos: seq<string>): State
    requires |names| == |whos|
  {
    if names == [] then s
    else
      var k := |names| - 1;
      Evicted(EvictedEach(s, names[..k], whos[..k]), names[k], whos[k])
  }

  ghost predicate ScansFind(s: State, names: seq<string>, whos: seq<string>)
    requires |names| == |whos|
  {
    forall k | 0 <= k < |names| ::
      var clients := EvictedEach(s, names[..k], whos[..k]).clients;
      NamesSocket(clients, SocketOf(clients, names[k]), whos[k])
  }

  lemma EvictStep(s: State, names: seq<string>, whos: seq<string>, name: string, who: string)
    requires |names| == |whos| && ScansFind(s, names, whos)
    requires var clients := EvictedEach(s, names, whos).clients; NamesSocket(clients, SocketOf(clients, name), who)
    ensures ScansFind(s, names + [name], whos + [who])
    ensures EvictedEach(s, names + [name], whos + [who]) == Evicted(EvictedEach(s, names, whos), name, who)
  {
    hide NamesSocket, Evicted;
    var names', whos' := names + [name], whos + [who];
    forall k | 0 <= k < |names'| ensures names'[..k] == names[..k] && whos'[..k] == whos[..k] {}
    assert names[..|names|] == names && whos[..|whos|] == whos;
  }

  // From a regular registry every client of a list without repetition goes, its socket
  // closed once, and nobody else does.
  lemma {:induction false} EvictedAreGone(s: State, names: seq<string>, whos: seq<string>)
    requires |names| == |whos| && ScansFind(s, names, whos)
    requires Regular(s.clients) && NoRepeats(names) && forall n | n in names :: n in s.clients && n != ""
    ensures EvictedEach(s, names, whos)
         == s.(clients := Remaining(s.clients, names), effects := s.effects + ClosedEach(s.clients, names))
    ensures whos == names
  {
    hide Evicted, Regular, NamesSocket;
    if names == [] {
      assert s.effects + [] == s.effects;
      assert Remaining(s.clients, []) == s.clients;
    } else {
      var k := |names| - 1;
      ScansFindBefore(s, names, whos, k);
      EvictedAreGone(s, names[..k], whos[..k]);
      assert names == names[..k] + [names[k]] && whos == whos[..k] + [whos[k]];
      assert names[k] in names && names[k] !in names[..k];
      GoneStep(s, names[..k], names[k], whos[k]);
    }
  }

  lemma GoneStep(s: State, names: seq<string>, name: string, who: string)
    requires Regular(s.clients) && name in s.clients && name != "" && name !in names
    requires NamesSocket(Remaining(s.clients, names), s.clients[name].socket, who)
    ensures who == name
    ensures var s1 := s.(clients := Remaining(s.clients, names), effects := s.effects + ClosedEach(s.clients, names));
            Evicted(s1, name, who)
            == s.(clients := Remaining(s.clients, names + [name]), effects := s.effects + ClosedEach(s.clients, names + [name]))
  {
    assert name in Remaining(s.clients, names);
    assert Remaining(s.clients, names + [name]) == Remaining(s.clients, names) - {name};
    assert ClosedEach(s.clients, names + [name]) == ClosedEach(s.clients, names) + [Closed(s.clients[name].socket)];
  }

  lemma NobodyEvicted(s: State)
    ensures ScansFind(s, [], []) && EvictedEach(s, [], []) == s
  {
  }

  lemma ScansFindBefore(s: State, names: seq<string>, whos: seq<string>, k: nat)
    requires |names| == |whos| && ScansFind(s, names, whos) && k < |names|
    ensures ScansFind(s, names[..k], whos[..k])
  {
    hide NamesSocket, EvictedEach;
    forall j | 0 <= j < k ensures names[..k][..j] == names[..j] && whos[..k][..j] == whos[..j] {}
  }

  lemma SettledCounts(l: Ledger)
    requires Conserved(l) && l.flight.Some?
    ensures l.flight.value < |l.fates| <= |l.accepted|
  {
  }

  lemma BroadcastStep(l: Ledger, msg: Message, names: seq<string>, name: string)
    ensures OfferedAll(l, Addressed(msg, Others(names + [name], msg.from)))
         == if name == msg.from then OfferedAll(l, Addressed(msg, Others(names, msg.from)))
            else Offered(OfferedAll(l, Addressed(msg, Others(names, msg.from))), msg.(to := name))
  {
    hide Offered;
    OthersSnoc(names, name, msg.from);
    assert Others(names, msg.from) + [] == Others(names, msg.from);
    if name != msg.from {
      var copies := Addressed(msg, Others(names, msg.from));
      assert Addressed(msg, Others(names, msg.from) + [name]) == copies + [msg.(to := name)];
      OfferedAllSnoc(l, copies, msg.(to := name));
    }
  }

  lemma {:induction false} OthersSnoc(names: seq<string>, name: string, from: string)
    ensures Others(names + [name], from) == Others(names, from) + if name == from then [] else [name]
  {
    if names == [] {
      assert [] + [name] == [name] && [name][1..] == [];
    } else {
      assert (names + [name])[1..] == names[1..] + [name];
      OthersSnoc(names[1..], name, from);
    }
  }

  lemma {:induction false} OfferedAllSnoc(l: Ledger, ms: seq<Message>, m: Message)
    ensures OfferedAll(l, ms + [m]) == Offered(OfferedAll(l, ms), m)
    decreases ms
  {
    hide Offered;
    if ms == [] {
      assert [] + [m] == [m] && [m][1..] == [];
    } else {
      assert (ms + [m])[1..] == ms[1..] + [m];
      OfferedAllSnoc(Offered(l, ms[0]), ms[1..], m);
    }
  }

  // ---------------------------------------------------------------- administrator

  class AdminCommandHandler {
    const server: Server
    var running: bool

    constructor (server: Server)
      ensures this.server == server && running
    {
      this.server := server;
      running := true;
    }

    method DisconnectUser(name: string, reason: string) returns (found: bool)
      requires server.Valid()
      modifies server`clients, server`effects
      ensures found == (SocketOf(old(server.clients), name) > 0)
      ensures server.Valid() && server.View() == Kicked(old(server.View()), name, reason)
    {
      hide Line;
      var socket := server.GetUserSocket(name);
      if socket <= 0 {
        return false;
      }
      var line := Build("ERROR", [reason]);
      server.SendLine(socket, line, Reply);
      server.UnregisterClient(name);
      server.Close(socket);
      return true;
    }

    method CmdKick(args: seq<string>)
      requires server.Valid() && |args| >= 2
      modifies server`clients, server`effects
      ensures server.Valid() && server.View() == Kicked(old(server.View()), args[1], "You have been disconnected by admin")
      ensures if Registered(old(server.clients), args[1]) then server.clients == old(server.clients) - {args[1]}
              else server.View() == old(server.View())
    {
      var _ := DisconnectUser(args[1], "You have been disconnected by admin");
    }

    method CmdBan(args: seq<string>, writable: bool)
      requires server.Valid() && |args| >= 2
      modifies server`clients, server`effects, server`bannedUsers, server`banlistFile
      ensures server.Valid() && server.View() == Banned(old(server.View()), args[1])
      ensures if Registered(old(server.clients), args[1]) then
                server.bannedUsers == old(server.bannedUsers) + {args[1]} && server.clients == old(server.clients) - {args[1]}
              else server.View() == old(server.View())
      ensures if SocketOf(old(server.clients), args[1]) > 0 && writable then FileHolds(server.banlistFile, server.bannedUsers)
              else server.banlistFile == old(server.banlistFile)
    {
      hide Line;
      var found := DisconnectUser(args[1], "You have been banned by admin");
      if found {
        server.BanlistAdd(args[1], writable);
      }
    }

    method CmdUnban(args: seq<string>, writable: bool)
      requires server.Valid() && |args| >= 2
      modifies server`bannedUsers, server`banlistFile
      ensures server.Valid() && server.View() == Unbanned(old(server.View()), args[1])
      ensures server.bannedUsers == old(server.bannedUsers) - {args[1]} && server.clients == old(server.clients)
      ensures if args[1] in old(server.bannedUsers) && writable then FileHolds(server.banlistFile, server.bannedUsers)
              else server.banlistFile == old(server.banlistFile)
    {
      var _ := server.BanlistRemove(args[1], writable);
    }

    // The words from position first on, joined by single blanks.
    method JoinWords(args: seq<string>, first: nat) returns (message: string)
      requires first < |args|
      ensures message == Join(args[first..], " ")
    {
      message := "";
      var i := first;
      while i < |args|
        invariant first <= i <= |args|
        invariant message == Join(args[first..i], " ")
      {
        if i > first {
          JoinSnoc(args[first..i], args[i], " ");
          assert args[first..i] + [args[i]] == args[first..i + 1];
          message := message + " ";
        }
        message := message + args[i];
        i := i + 1;
      }
      assert args[first..|args|] == args[first..];
    }

    method CmdBroadcast(args: seq<string>) returns (ghost order: seq<string>)
      requires server.Valid() && |args| >= 2
      modifies server`effects
      ensures Enumerates(order, server.clients.Keys)
      ensures server.Valid() && server.View() == Announced(old(server.View()), order, Join(args[1..], " "))
    {
      hide Line;
      var message := JoinWords(args, 1);
      var names := server.GetAllClients();
      order := names;
      for i := 0 to |names|
        invariant server.effects == old(server.effects)
                  + SentEach(server.clients, names[..i], AdminLine("Announcement", message), Admin)
      {
        assert names[..i + 1] == names[..i] + [names[i]];
        SentEachSnoc(server.clients, names[..i], names[i], AdminLine("Announcement", message), Admin);
        var line := Build("MESSAGE", ["SERVER", "Announcement", message, "0"]);
        server.SendLine(server.clients[names[i]].socket, line, Admin);
      }
      assert names[..|names|] == names;
    }

    method CmdSend(args: seq<string>)
      requires server.Valid() && |args| >= 3
      modifies server`effects
      ensures server.Valid() && server.View() == AdminSent(old(server.View()), args[1], Join(args[2..], " "))
    {
      hide Line;
      var message := JoinWords(args, 2);
      var socket := server.GetUserSocket(args[1]);
      if socket <= 0 {
        return;
      }
      var line := Build("MESSAGE", ["SERVER", "Private Message", message, "0"]);
      server.SendLine(socket, line, Admin);
    }

    // commandLoop on one typed line: "/broadcast text" announces exactly the text.
    method TypedBroadcast(text: string) returns (ghost order: seq<string>)
      requires server.Valid()
      modifies server`effects
      ensures Enumerates(order, server.clients.Keys)
      ensures server.Valid() && server.View() == Announced(old(server.View()), order, text)
    {
      hide Line, Find;
      var line := "/broadcast " + text;
      FreeOfChar("broadcast", ' ');
      RejoinRest("broadcast", ' ', text);
      assert line[1..] == "broadcast" + [' '] + text;
      var parts := Split(line[1..], " ");
      assert |parts| >= 2;
      order := CmdBroadcast(parts);
    }
  }
}
