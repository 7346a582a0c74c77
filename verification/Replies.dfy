// What a client is told: every command of a client, from the line it sends to the event its
// own parser makes of the server's answer, and how the answer goes with what was done.
module Replies {
  import opened Wrappers
  import opened Text
  import opened Codec
  import opened Config
  import opened Dispatch
  import opened Mailbox
  import opened Sessions
  import opened Forwarding

  ghost predicate ReadsAs(e: Effect, socket: int, kind: ServerEvent, data: string) {
    e.Sent? && e.socket == socket && e.origin == Reply && IsEvent(e.line, kind, data)
  }

  // Exactly one call on a socket: a line back on the same connection, read as this event.
  ghost predicate Says(s: State, s': State, socket: int, kind: ServerEvent, data: string) {
    |s'.effects| == |s.effects| + 1 && s'.effects[..|s.effects|] == s.effects
    && ReadsAs(s'.effects[|s.effects|], socket, kind, data)
  }

  lemma WrappedIsFree(before: string, t: string, after: string)
    requires Free(t, DELIMITER) && ';' !in before && ';' !in after
    ensures Free(before + t + after, DELIMITER)
  {
    hide Find;
    FreeOfChar(t, DELIMITER_CHAR);
    FreeOfChar(before + t + after, DELIMITER_CHAR);
  }

  lemma ErredSays(s: State, socket: int, text: string)
    requires Free(text, DELIMITER)
    ensures Says(s, Erred(s, socket, text), socket, ERROR_MSG, text)
  {
    hide IsEvent, Line, Find;
    OneFieldIsRead(text);
  }

  lemma OkSays(s: State, socket: int, text: string)
    requires Free(text, DELIMITER)
    ensures Says(s, Replied(s, socket, Line("OK", [text])), socket, OK, text)
  {
    hide IsEvent, Line, Find;
    OneFieldIsRead(text);
  }

  lemma PlainTextIsFree(text: string)
    requires ';' !in text
    ensures Free(text, DELIMITER)
  {
    FreeOfChar(text, DELIMITER_CHAR);
  }

  // ------------------------------------------------------------------------- SEND

  const OFFLINE_BEFORE := "User '"
  const OFFLINE_AFTER := "' does not exist or is offline"

  predicate HasRoom(l: Ledger) {
    |l.queue| < l.capacity || l.policy == DROP_OLDEST
  }

  // A valid message to one recipient: OK says that it was accepted, ERROR that nothing was.
  ghost predicate RoutedAs(s: State, s': State, m: Message, socket: int) {
    if m.to == "all" then Says(s, s', socket, OK, "Broadcast sent")
    else if m.to !in s.clients || s.clients[m.to].socket <= 0 then
      Says(s, s', socket, ERROR_MSG, OFFLINE_BEFORE + m.to + OFFLINE_AFTER) && s'.ledger == s.ledger
    else if HasRoom(s.ledger) then
      Says(s, s', socket, OK, "Message sent") && s'.ledger.accepted == s.ledger.accepted + [m]
    else
      Says(s, s', socket, ERROR_MSG, QUEUE_FULL) && s'.ledger == s.ledger
  }

  lemma FailureIsFree()
    ensures Free(QUEUE_FULL, DELIMITER)
  {
    hide Find;
    PlainTextIsFree("queue full or dispatcher error");
    WrappedIsFree("Failed to send message: ", "queue full or dispatcher error", "");
    assert QUEUE_FULL + "" == QUEUE_FULL;
  }

  lemma RoutedSays(s: State, m: Message, socket: int, order: seq<string>)
    requires Free(m.to, DELIMITER)
    ensures RoutedAs(s, Routed(s, m, socket, order), m, socket)
  {
    hide IsEvent, Line, Find, OfferedAll, Others, Addressed;
    PlainTextIsFree("Broadcast sent");
    PlainTextIsFree("Message sent");
    FailureIsFree();
    WrappedIsFree(OFFLINE_BEFORE, m.to, OFFLINE_AFTER);
    OneFieldIsRead("Broadcast sent");
    OneFieldIsRead("Message sent");
    OneFieldIsRead(QUEUE_FULL);
    OneFieldIsRead(OFFLINE_BEFORE + m.to + OFFLINE_AFTER);
  }

  function SentMessage(a: seq<string>, env: Env): Message
    requires |a| >= 3
  {
    Message(env.who, Sanitized(a[0]), Sanitized(a[1]), Sanitized(a[2]), env.stamp)
  }

  // The answer to a SEND line with arguments a. The message counts as received once it has
  // its fields and a registered sender.
  ghost predicate SendAnswered(s: State, s': State, c: Settings, a: seq<string>, socket: int, env: Env) {
    if |a| < 3 then
      Says(s, s', socket, ERROR_MSG, "Malformed message: missing fields") && s'.ledger == s.ledger && s'.received == s.received
    else if env.who == "" then
      Says(s, s', socket, ERROR_MSG, "Not authenticated") && s'.ledger == s.ledger && s'.received == s.received
    else
      var m := SentMessage(a, env);
      && s'.received == s.received + 1
      && (if !ValidSubject(c, m.subject) then
            Says(s, s', socket, ERROR_MSG, "Subject too long (max 100 chars)") && s'.ledger == s.ledger
          else if m.body == "" then
            Says(s, s', socket, ERROR_MSG, "Body is empty") && s'.ledger == s.ledger
          else RoutedAs(s, s', m, socket))
  }

  lemma SubmittedSays(s: State, c: Settings, data: seq<string>, socket: int, env: Env)
    requires |data| >= 1 && forall d | d in data :: Free(d, DELIMITER)
    ensures SendAnswered(s, Submitted(s, c, data, socket, env), c, data[1..], socket, env)
  {
    hide IsEvent, Line, Find, Routed, Sanitized, ValidSubject, RoutedAs;
    ErrorTexts();
    ValidationTexts();
    if |data| >= 4 {
      var m := SentMessage(data[1..], env);
      SanitizedIsFree(data[1]);
      var counted := s.(received := s.received + 1);
      RoutedSays(counted, m, socket, env.order);
      RoutedCounts(s, Routed(counted, m, socket, env.order), m, socket);
      RoutedReceived(counted, m, socket, env.order);
    }
  }

  lemma ErrorIsRead(text: string)
    requires ';' !in text
    ensures IsEvent(Line("ERROR", [text]), ERROR_MSG, text)
  {
    hide IsEvent, Line, Find;
    PlainTextIsFree(text);
    OneFieldIsRead(text);
  }

  lemma ErrorTexts()
    ensures IsEvent(Line("ERROR", ["Malformed message: missing fields"]), ERROR_MSG, "Malformed message: missing fields")
    ensures IsEvent(Line("ERROR", ["Not authenticated"]), ERROR_MSG, "Not authenticated")
  {
    hide IsEvent, Line;
    ErrorIsRead("Malformed message: missing fields");
    ErrorIsRead("Not authenticated");
  }

  lemma ValidationTexts()
    ensures IsEvent(Line("ERROR", ["Subject too long (max 100 chars)"]), ERROR_MSG, "Subject too long (max 100 chars)")
    ensures IsEvent(Line("ERROR", ["Body is empty"]), ERROR_MSG, "Body is empty")
  {
    hide IsEvent, Line;
    ErrorIsRead("Subject too long (max 100 chars)");
    ErrorIsRead("Body is empty");
  }

  lemma RoutedCounts(s: State, s': State, m: Message, socket: int)
    requires RoutedAs(s.(received := s.received + 1), s', m, socket)
    ensures RoutedAs(s, s', m, socket)
  {
    hide IsEvent;
  }

  lemma RoutedReceived(s: State, m: Message, socket: int, order: seq<string>)
    ensures Routed(s, m, socket, order).received == s.received
  {
    hide Line, OfferedAll, Offered, Accepts;
  }

  lemma SendIsAnswered(s: State, c: Settings, raw: string, socket: int, env: Env)
    requires Parsed(raw).isValid && Parsed(raw).command == "SEND"
    ensures SendAnswered(s, Handled(s, c, raw, socket, env), c, Parsed(raw).arguments, socket, env)
  {
    hide Parsed, Submitted, SendAnswered, Find;
    var p := Parsed(raw);
    var data := [p.command] + p.arguments;
    ParsedFieldsAreFree(raw);
    SubmittedSays(s, c, data, socket, env);
    assert data[1..] == p.arguments;
  }

  ghost predicate LastReplyIs(s: State, s': State, socket: int, kind: ServerEvent) {
    |s'.effects| == |s.effects| + 1 && s'.effects[..|s.effects|] == s.effects
    && (var e := s'.effects[|s.effects|];
        e.Sent? && e.socket == socket && EventOf(e.line).Some? && EventOf(e.line).value.kind == kind)
  }

  // The sender of a message to one recipient is told OK exactly when the message has been
  // accepted, and ERROR exactly when the ledger is as it was.
  lemma AcknowledgedIffAccepted(s: State, c: Settings, raw: string, socket: int, env: Env)
    requires Parsed(raw).isValid && Parsed(raw).command == "SEND"
    requires |Parsed(raw).arguments| >= 1 ==> Sanitized(Parsed(raw).arguments[0]) != "all"
    ensures var s' := Handled(s, c, raw, socket, env);
            && (LastReplyIs(s, s', socket, OK) <==> |s'.ledger.accepted| == |s.ledger.accepted| + 1)
            && (LastReplyIs(s, s', socket, ERROR_MSG) <==> s'.ledger == s.ledger)
  {
    hide Parsed, EventOf, Handled, Sanitized, ValidSubject;
    SendIsAnswered(s, c, raw, socket, env);
  }

  // ---------------------------------------------------------------------- CONNECT

  // Told of the ban and closed, in this order.
  ghost predicate TurnedAway(s: State, s': State, socket: int) {
    && s'.clients == s.clients
    && |s'.effects| == |s.effects| + 2 && s'.effects[..|s.effects|] == s.effects
    && ReadsAs(s'.effects[|s.effects|], socket, ERROR_MSG, "You are banned from this server")
    && s'.effects[|s.effects| + 1] == Closed(socket)
  }

  ghost predicate ConnectAnswered(s: State, s': State, c: Settings, a: seq<string>, socket: int, env: Env) {
    if |a| == 0 then s' == s
    else
      var name := Sanitized(a[0]);
      if !ValidUsername(c, name) then Says(s, s', socket, ERROR_MSG, "Invalid username") && s'.clients == s.clients
      else if name in s.banned then TurnedAway(s, s', socket)
      else if name in s.clients then Says(s, s', socket, ERROR_MSG, "Username already exists") && s'.clients == s.clients
      else Says(s, s', socket, OK, "Connected as " + name) && s'.clients == s.clients[name := ClientInfo(socket, env.now)]
  }

  lemma ConnectedSays(s: State, c: Settings, data: seq<string>, socket: int, env: Env)
    requires |data| >= 1 && forall d | d in data :: Free(d, DELIMITER)
    ensures ConnectAnswered(s, Connected(s, c, data, socket, env.now), c, data[1..], socket, env)
  {
    hide IsEvent, Line, Find, Sanitized, ValidUsername;
    if |data| >= 2 {
      var name := Sanitized(data[1]);
      SanitizedIsFree(data[1]);
      WrappedIsFree("Connected as ", name, "");
      assert "Connected as " + name + "" == "Connected as " + name;
      PlainTextIsFree("Invalid username");
      PlainTextIsFree("You are banned from this server");
      PlainTextIsFree("Username already exists");
      OneFieldIsRead("Connected as " + name);
      OneFieldIsRead("Invalid username");
      OneFieldIsRead("You are banned from this server");
      OneFieldIsRead("Username already exists");
    }
  }

  lemma ConnectIsAnswered(s: State, c: Settings, raw: string, socket: int, env: Env)
    requires Parsed(raw).isValid && Parsed(raw).command == "CONNECT"
    ensures ConnectAnswered(s, Handled(s, c, raw, socket, env), c, Parsed(raw).arguments, socket, env)
  {
    hide Parsed, Connected, ConnectAnswered, Find;
    var p := Parsed(raw);
    var data := [p.command] + p.arguments;
    ParsedFieldsAreFree(raw);
    ConnectedSays(s, c, data, socket, env);
    assert data[1..] == p.arguments;
  }

  // A client that asks for a name is told OK exactly when the name is newly registered.
  lemma WelcomedIffRegistered(s: State, c: Settings, raw: string, socket: int, env: Env)
    requires Parsed(raw).isValid && Parsed(raw).command == "CONNECT" && |Parsed(raw).arguments| >= 1
    ensures var s' := Handled(s, c, raw, socket, env);
            var name := Sanitized(Parsed(raw).arguments[0]);
            && |s'.effects| > |s.effects| && s'.effects[..|s.effects|] == s.effects
            && (var reply := s'.effects[|s.effects|];
                && reply.Sent? && reply.socket == socket && EventOf(reply.line).Some?
                && EventOf(reply.line).value.kind in {OK, ERROR_MSG}
                && (EventOf(reply.line).value.kind == OK <==>
                      name !in s.clients && s'.clients == s.clients[name := ClientInfo(socket, env.now)]))
  {
    hide Parsed, EventOf, Handled, Sanitized, ValidUsername;
    ConnectIsAnswered(s, c, raw, socket, env);
  }

  // ---------------------------------------------------------------- other commands

  lemma ParsedCommandIsFree(raw: string)
    ensures Free("Unknown command: " + Parsed(raw).command, DELIMITER)
  {
    hide Parsed, Find;
    ParsedFieldsAreFree(raw);
    WrappedIsFree("Unknown command: ", Parsed(raw).command, "");
    assert "Unknown command: " + Parsed(raw).command + "" == "Unknown command: " + Parsed(raw).command;
  }

  // Nothing left of a line: it is ignored. A command nobody knows: the client is told which.
  lemma StrangeLineIsAnswered(s: State, c: Settings, raw: string, socket: int, env: Env)
    ensures raw == "" || raw == "\n" ==> Handled(s, c, raw, socket, env) == s
    ensures raw != "" && raw != "\n" && Parsed(raw).command !in
              {"CONNECT", "DISCONNECT", "SEND", "PING", "PONG", "LIST_USERS", "GET_LOG"} ==>
              var s' := Handled(s, c, raw, socket, env);
              Says(s, s', socket, ERROR_MSG, "Unknown command: " + Parsed(raw).command) && s' == s.(effects := s'.effects)
  {
    hide Parsed, IsEvent, Line, Find;
    BuildParse(raw);
    ParsedCommandIsFree(raw);
    OneFieldIsRead("Unknown command: " + Parsed(raw).command);
  }

  lemma QueryIsParsed(raw: string, command: string)
    requires command != "" && ';' !in command && raw == command + "\n"
    ensures Parsed(raw) == ParsedMessage(command, [], true)
  {
    hide Find, Pieces;
    FieldsAreRead(command, []);
    assert [command] + [] == [command];
  }

  // A PING line gets a PONG line; nothing else happens.
  lemma PingIsReturned(s: State, c: Settings, socket: int, env: Env)
    ensures Handled(s, c, "PING\n", socket, env) == s.(effects := s.effects + [Sent(socket, "PONG\n", Reply)])
  {
    hide Parsed;
    QueryIsParsed("PING\n", "PING");
  }

  // A LIST_USERS line gets one line, which the client splits into exactly the registered
  // names; nothing else happens.
  lemma UsersAreListed(s: State, c: Settings, socket: int, env: Env)
    requires NamesAreWords(s.clients) && Enumerates(env.order, s.clients.Keys)
    ensures var s' := Handled(s, c, "LIST_USERS\n", socket, env);
            && Says(s, s', socket, USERS, Join(env.order, ",")) && Tokens(Join(env.order, ","), ",") == env.order
            && s' == s.(effects := s'.effects)
  {
    hide Parsed, IsEvent, Line, Find, Tokens, Join;
    QueryIsParsed("LIST_USERS\n", "LIST_USERS");
    forall n | n in env.order ensures ';' !in n && IsWord(n) {
      WordIsFree(n, ';');
    }
    JoinIsFree(env.order, ",", ';');
    PlainTextIsFree(Join(env.order, ","));
    OneFieldIsRead(Join(env.order, ","));
    WordsSplit(env.order);
  }

  // A GET_LOG line: without a log file an error, for an empty one a notice, otherwise the
  // last lines, 50 at most. The client gets them whole when they are free of delimiters.
  lemma LogIsShown(s: State, c: Settings, socket: int, env: Env)
    ensures var s' := Handled(s, c, "GET_LOG\n", socket, env);
            && s' == s.(effects := s'.effects)
            && match env.log
               case None => Says(s, s', socket, ERROR_MSG, "Log file not available")
               case Some(lines) =>
                 if lines == [] then Says(s, s', socket, LOG, "Log file is empty")
                 else (forall l | l in lines :: PlainLine(l) && ';' !in l) ==> ShowsLast(s, s', socket, lines)
  {
    hide Parsed, Says, LogReply, PlainLine, ShowsLast;
    QueryIsParsed("GET_LOG\n", "GET_LOG");
    NoLogIsSaid(s, socket);
    if env.log.Some? && env.log.value != [] && forall l | l in env.log.value :: PlainLine(l) && ';' !in l {
      LastAreShown(s, Replied(s, socket, LogReply(env.log)), socket, env.log.value);
    }
  }

  lemma NoLogIsSaid(s: State, socket: int)
    ensures Says(s, Replied(s, socket, LogReply(None)), socket, ERROR_MSG, "Log file not available")
    ensures Says(s, Replied(s, socket, LogReply(Some([]))), socket, LOG, "Log file is empty")
  {
    hide IsEvent, Line, Find;
    ErrorIsRead("Log file not available");
    PlainTextIsFree("Log file is empty");
    OneFieldIsRead("Log file is empty");
  }

  ghost predicate ShowsLast(s: State, s': State, socket: int, lines: seq<string>) {
    exists text :: Says(s, s', socket, LOG, text) && FileLines(text) == if |lines| > 50 then lines[|lines| - 50..] else lines
  }

  lemma LastAreShown(s: State, s': State, socket: int, lines: seq<string>)
    requires lines != [] && (forall l | l in lines :: PlainLine(l) && ';' !in l)
    requires s' == Replied(s, socket, LogReply(Some(lines)))
    ensures ShowsLast(s, s', socket, lines)
  {
    hide IsEvent, Line, Find, FileLines, PlainLine, TextOfLines;
    var last := if |lines| > 50 then lines[|lines| - 50..] else lines;
    assert last == lines[LogStart(lines)..];
    assert forall l | l in last :: l in lines;
    var text := TextOfLines(last);
    TextIsFree(last);
    OneFieldIsRead(text);
    SavedLines(last);
    assert BanFile(last) == text;
    assert Says(s, s', socket, LOG, text);
  }

  lemma {:induction false} TextIsFree(lines: seq<string>)
    requires forall l | l in lines :: ';' !in l
    ensures ';' !in TextOfLines(lines) && Free(TextOfLines(lines), DELIMITER)
  {
    hide Find;
    if lines != [] {
      assert lines[0] in lines && forall l | l in lines[1..] :: l in lines;
      TextIsFree(lines[1..]);
    }
    FreeOfChar(TextOfLines(lines), DELIMITER_CHAR);
  }
}
