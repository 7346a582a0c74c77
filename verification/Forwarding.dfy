// From a line a client sends to the line its recipient reads: what survives, how long
// the forwarded line gets, and what the other server lines look like to a client.
module Forwarding {
  import opened Wrappers
  import opened Text
  import opened Codec
  import opened Framing
  import opened Numbers
  import opened Config
  import opened Dispatch
  import opened Mailbox
  import opened Sessions

  // --------------------------------------------------------- lines of the server

  // A message the server can hold: named by registered users, free of delimiters.
  ghost predicate Deliverable(m: Message) {
    && IsWord(m.from) && IsWord(m.to)
    && Free(m.subject, DELIMITER) && Free(m.body, DELIMITER)
    && LONG_LONG_MIN <= m.timestamp <= LONG_LONG_MAX
  }

  function RelayFields(m: Message): Fields {
    [m.from, m.subject, m.body, ToText(m.timestamp)]
  }

  // The client reads a relayed message as exactly its four fields.
  lemma RelayIsRead(m: Message)
    requires Deliverable(m)
    ensures EventOf(RelayLine(m)) == Some(EventData(MESSAGE, "", RelayFields(m)))
  {
    hide ToText, Find, Pieces;
    var fields := RelayFields(m);
    WordIsFree(m.from, DELIMITER_CHAR);
    ToTextChars(m.timestamp);
    FreeOfChar(fields[3], DELIMITER_CHAR);
    FreeOfChar("MESSAGE", DELIMITER_CHAR);
    assert forall f | f in fields :: Free(f, DELIMITER);
    ParseBuild("MESSAGE", fields);
    assert Line("MESSAGE", fields) == RelayLine(m);
  }

  // What the mailbox makes of it, with the timestamp read back as the number it was.
  lemma RelayIsStored(m: Message, index: int, now: int)
    requires Deliverable(m)
    ensures Entry(RelayFields(m), index, now)
         == ReceivedMessage(m.from, m.subject, m.body, m.timestamp, now, false, index)
  {
    hide ToText, ReadInt;
    ReadToText(m.timestamp, "", LONG_LONG_MIN, LONG_LONG_MAX);
    assert ToText(m.timestamp) + "" == ToText(m.timestamp);
  }

  // Whatever its fields, a line built with another command is not a MESSAGE.
  lemma OtherCommandIsNoMessage(command: string, args: seq<string>)
    requires command != "" && Free(command, DELIMITER) && command != "MESSAGE"
    ensures !IsMessage(Line(command, args))
  {
    BuiltFields(command, args);
  }

  lemma AdminPieces(subject: string, text: string)
    requires Free(subject, DELIMITER)
    ensures AllPieces(["SERVER", subject, text, "0"], DELIMITER)
         == ["SERVER", subject] + Pieces(text, DELIMITER) + Pieces("0", DELIMITER)
  {
    hide Find, Pieces;
    FreeOfChar("SERVER", DELIMITER_CHAR);
    AllPiecesCons("SERVER", [subject, text, "0"], DELIMITER);
    AllPiecesCons(subject, [text, "0"], DELIMITER);
    AllPiecesCons(text, ["0"], DELIMITER);
    AllPiecesCons("0", [], DELIMITER);
    assert ["SERVER", subject, text, "0"] == ["SERVER"] + [subject, text, "0"] && [subject, text, "0"] == [subject] + [text, "0"];
    assert [text, "0"] == [text] + ["0"] && ["0"] == ["0"] + [];
  }

  // An administrator's text may contain delimiters; the sender it shows is always SERVER.
  lemma AdminLineIsFromServer(subject: string, text: string)
    requires Free(subject, DELIMITER)
    ensures IsMessage(AdminLine(subject, text))
    ensures EventOf(AdminLine(subject, text)).value.args[0] == "SERVER"
    ensures EventOf(AdminLine(subject, text)).value.args[1] == subject
    ensures Free(text, DELIMITER) ==> EventOf(AdminLine(subject, text)).value.args[2] == text
  {
    hide Find, Pieces, AllPieces, Parsed;
    FreeOfChar("MESSAGE", DELIMITER_CHAR);
    BuiltFields("MESSAGE", ["SERVER", subject, text, "0"]);
    AdminPieces(subject, text);
    AllPiecesCons(text, [], DELIMITER);
  }

  // ---------------------------------------------------------------- the user list

  lemma {:induction false} JoinIsFree(names: seq<string>, separator: string, c: char)
    requires c !in separator && forall n | n in names :: c !in n
    ensures c !in Join(names, separator)
  {
    if |names| > 1 {
      JoinIsFree(names[1..], separator, c);
    }
  }

  // The reply to LIST_USERS, read by the client and split on commas, is the list of names
  // the server walked; an empty registry gives the empty list.
  lemma UserListRoundTrip(names: seq<string>)
    requires forall n | n in names :: IsWord(n)
    ensures var e := EventOf(Line("USERS", [Join(names, ",")]));
            e.Some? && e.value.kind == USERS && Tokens(e.value.data, ",") == names
  {
    hide Find, Pieces, Tokens, Parsed, Line, Join;
    var list := Join(names, ",");
    forall n | n in names ensures ';' !in n {
      WordIsFree(n, ';');
    }
    JoinIsFree(names, ",", ';');
    FreeOfChar(list, ';');
    FreeOfChar("USERS", DELIMITER_CHAR);
    ParseBuild("USERS", [list]);
    WordsSplit(names);
  }

  lemma WordsSplit(names: seq<string>)
    requires forall n | n in names :: IsWord(n)
    ensures Tokens(Join(names, ","), ",") == names
  {
    hide Find, Pieces, Tokens, Join;
    forall n | n in names ensures Free(n, [',']) {
      WordIsFree(n, ',');
    }
    assert "" in [""] && "" !in names;
    assert names != [""];
    SplitJoin(names, ',');
    assert [','] == ",";
  }

  // ------------------------------------------------------------------ the heartbeat

  lemma PingGetsPong()
    ensures AllPongs(["PING\n"], _ => true) == ["PONG\n"]
  {
    hide Find, Pieces;
    FreeOfChar("PING", DELIMITER_CHAR);
    BuiltFields("PING", []);
    assert ["PING"] + [] == ["PING"] && ["PONG"] + [] == ["PONG"];
    assert Line("PING", []) == "PING\n" && Line("PONG", []) == "PONG\n";
    assert ["PING\n"][..0] == [];
  }

  lemma PongIsParsed()
    ensures Parsed("PONG\n") == ParsedMessage("PONG", [], true)
  {
    hide Find, Pieces;
    FreeOfChar("PONG", DELIMITER_CHAR);
    BuiltFields("PONG", []);
    assert ["PONG"] + [] == ["PONG"];
    assert Line("PONG", []) == "PONG\n";
  }

  // The server's PING makes the client send a PONG, and that line, received from a
  // registered connection, sets the last-PONG time of its name and nothing else.
  lemma PingIsAnswered(s: State, c: Settings, socket: int, env: Env)
    requires env.who in s.clients && env.who != ""
    ensures AllPongs(["PING\n"], _ => true) == ["PONG\n"]
    ensures Handled(s, c, "PONG\n", socket, env)
         == s.(clients := s.clients[env.who := s.clients[env.who].(lastPong := env.now)])
  {
    hide Parsed, AllPongs;
    PingGetsPong();
    PongIsParsed();
  }

  // ------------------------------------------------------------ from raw to relay

  // Names in the registry are words.
  ghost predicate NamesAreWords(clients: Clients) {
    forall n | n in clients :: IsWord(n)
  }

  // What a raw line says about a message it causes to be queued.
  ghost predicate CausedBy(m: Message, raw: string, clients: Clients, env: Env) {
    var p := Parsed(raw);
    && p.isValid && p.command == "SEND" && |p.arguments| >= 3
    && m.from == env.who && m.timestamp == env.stamp
    && m.subject == Sanitized(p.arguments[1]) && m.body == Sanitized(p.arguments[2])
    && m.to in clients
    && (m.to == Sanitized(p.arguments[0]) || (Sanitized(p.arguments[0]) == "all" && m.to != m.from))
  }

  lemma SubmittedQueues(s: State, c: Settings, data: seq<string>, socket: int, env: Env, i: nat)
    requires Conserved(s.ledger) && NamesSocket(s.clients, socket, env.who) && Enumerates(env.order, s.clients.Keys)
    requires var l := Submitted(s, c, data, socket, env).ledger; |s.ledger.accepted| <= i < |l.accepted|
    ensures var m := Submitted(s, c, data, socket, env).ledger.accepted[i];
            && |data| >= 4 && m.from == env.who != "" && m.timestamp == env.stamp
            && m.subject == Sanitized(data[2]) && m.body == Sanitized(data[3]) && m.to in s.clients
            && (m.to == Sanitized(data[1]) || (Sanitized(data[1]) == "all" && m.to != m.from))
  {
    hide Sanitized, OfferedAll, Offered, Others, Addressed, Conserved, Accepts, Line, ValidSubject;
    if |data| >= 4 && env.who != "" {
      var m := Message(env.who, Sanitized(data[1]), Sanitized(data[2]), Sanitized(data[3]), env.stamp);
      if m.to == "all" {
        BroadcastQueues(s.ledger, m, env.order, i);
      } else {
        DirectQueues(s.ledger, m, i);
      }
    }
  }

  lemma BroadcastQueues(l: Ledger, m: Message, order: seq<string>, i: nat)
    requires Conserved(l)
    ensures var l' := OfferedAll(l, Addressed(m, Others(order, m.from)));
            |l.accepted| <= i < |l'.accepted| ==>
              l'.accepted[i].to in order && l'.accepted[i].to != m.from && l'.accepted[i] == m.(to := l'.accepted[i].to)
  {
    hide Conserved, Offered, Accepts, Others;
    var copies := Addressed(m, Others(order, m.from));
    OthersAre(order, m.from);
    OfferAllConserves(l, copies);
    assert forall k | 0 <= k < |copies| :: copies[k].to in Others(order, m.from);
  }

  lemma DirectQueues(l: Ledger, m: Message, i: nat)
    requires Conserved(l)
    ensures |l.accepted| <= i < |Offered(l, m).accepted| ==> Offered(l, m).accepted[i] == m
  {
    hide Conserved, Offered;
    OfferConserves(l, m);
  }

  // Only SEND queues, and what it queues comes from the line it was sent in.
  lemma HandledQueues(s: State, c: Settings, raw: string, socket: int, env: Env, i: nat)
    requires Conserved(s.ledger) && NamesSocket(s.clients, socket, env.who) && Enumerates(env.order, s.clients.Keys)
    requires |s.ledger.accepted| <= i < |Handled(s, c, raw, socket, env).ledger.accepted|
    ensures CausedBy(Handled(s, c, raw, socket, env).ledger.accepted[i], raw, s.clients, env)
    ensures env.who in s.clients
  {
    hide Tokens, Pieces, Submitted, Parsed, Line, Sanitized, Conserved, ValidUsername, Enumerates, LogReply;
    var p := Parsed(raw);
    var data := [p.command] + p.arguments;
    assert Handled(s, c, raw, socket, env).ledger == Submitted(s, c, data, socket, env).ledger;
    SubmittedQueues(s, c, data, socket, env, i);
    assert data[1..] == p.arguments;
  }

  lemma SanitizedIsFree(t: string)
    requires Free(t, DELIMITER)
    ensures Free(Sanitized(t), DELIMITER)
  {
    hide Find;
    FreeOfChar(t, DELIMITER_CHAR);
    FreeOfChar(Sanitized(t), DELIMITER_CHAR);
  }

  lemma CausedIsDeliverable(m: Message, raw: string, clients: Clients, env: Env)
    requires CausedBy(m, raw, clients, env) && NamesAreWords(clients) && env.who in clients
    requires LONG_LONG_MIN <= env.stamp <= LONG_LONG_MAX
    ensures Deliverable(m)
  {
    hide Find, Tokens;
    ParsedFieldsAreFree(raw);
    SanitizedIsFree(Parsed(raw).arguments[1]);
    SanitizedIsFree(Parsed(raw).arguments[2]);
  }

  lemma RelayLength(m: Message)
    ensures |RelayLine(m)| == 12 + |m.from| + |m.subject| + |m.body| + |ToText(m.timestamp)|
  {
    hide ToText;
    var ts := ToText(m.timestamp);
    var fields := ["MESSAGE"] + [m.from, m.subject, m.body, ts];
    assert fields == ["MESSAGE", m.from, m.subject, m.body, ts];
    JoinCons("MESSAGE", [m.from, m.subject, m.body, ts], DELIMITER);
    JoinCons(m.from, [m.subject, m.body, ts], DELIMITER);
    JoinCons(m.subject, [m.body, ts], DELIMITER);
    JoinCons(m.body, [ts], DELIMITER);
    assert [m.from, m.subject, m.body, ts] == [m.from] + [m.subject, m.body, ts];
    assert [m.subject, m.body, ts] == [m.subject] + [m.body, ts] && [m.body, ts] == [m.body] + [ts];
  }

  lemma RawLength(raw: string)
    requires Parsed(raw).isValid && Parsed(raw).command == "SEND" && |Parsed(raw).arguments| >= 3
    ensures var a := Parsed(raw).arguments; |raw| >= 7 + |a[0]| + |a[1]| + |a[2]|
  {
    hide Find, Pieces;
    var text, a := Chomped(raw), Parsed(raw).arguments;
    var ts := Tokens(text, DELIMITER);
    JoinTokens(text, DELIMITER);
    FieldsFit(ts, DELIMITER, 3);
    assert ts[..4] == ["SEND"] + [a[0], a[1], a[2]];
    JoinCons("SEND", [a[0], a[1], a[2]], DELIMITER);
    JoinCons(a[0], [a[1], a[2]], DELIMITER);
    JoinCons(a[1], [a[2]], DELIMITER);
    assert [a[0], a[1], a[2]] == [a[0]] + [a[1], a[2]] && [a[1], a[2]] == [a[1]] + [a[2]];
  }

  // Lossless forwarding: whatever line makes the server queue a message, the line relayed
  // for it reads at the other end as exactly the sender's registered name, the sanitised
  // subject and body and the timestamp, and it is at most |from| + |timestamp| + 4 bytes
  // longer than the line that came in.
  lemma LosslessForwarding(s: State, c: Settings, raw: string, socket: int, env: Env, i: nat)
    requires Conserved(s.ledger) && NamesAreWords(s.clients)
    requires NamesSocket(s.clients, socket, env.who) && Enumerates(env.order, s.clients.Keys)
    requires LONG_LONG_MIN <= env.stamp <= LONG_LONG_MAX
    requires |s.ledger.accepted| <= i < |Handled(s, c, raw, socket, env).ledger.accepted|
    ensures ForwardedFor(Handled(s, c, raw, socket, env).ledger.accepted[i], raw, env)
  {
    hide ForwardedFor, Handled, CausedBy;
    HandledQueues(s, c, raw, socket, env, i);
    CausedIsForwarded(Handled(s, c, raw, socket, env).ledger.accepted[i], raw, s.clients, env);
  }

  ghost predicate ForwardedFor(m: Message, raw: string, env: Env) {
    var a := Parsed(raw).arguments;
    && |a| >= 3 && Deliverable(m)
    && EventOf(RelayLine(m)) == Some(EventData(MESSAGE, "", [env.who, Sanitized(a[1]), Sanitized(a[2]), ToText(env.stamp)]))
    && |RelayLine(m)| <= |raw| + |env.who| + |ToText(env.stamp)| + 4
  }

  lemma CausedIsForwarded(m: Message, raw: string, clients: Clients, env: Env)
    requires CausedBy(m, raw, clients, env) && NamesAreWords(clients) && env.who in clients
    requires LONG_LONG_MIN <= env.stamp <= LONG_LONG_MAX
    ensures ForwardedFor(m, raw, env)
  {
    hide EventOf, Parsed, RelayLine, ToText, Sanitized;
    CausedIsDeliverable(m, raw, clients, env);
    RelayIsRead(m);
    RelayLength(m);
    RawLength(raw);
    RecipientIsNamed(m, raw, clients, env);
  }

  lemma RecipientIsNamed(m: Message, raw: string, clients: Clients, env: Env)
    requires CausedBy(m, raw, clients, env) && NamesAreWords(clients)
    ensures |Parsed(raw).arguments[0]| >= 1
  {
    hide Parsed;
    assert m.to == Sanitized(Parsed(raw).arguments[0]) ==> IsWord(m.to);
  }

  // ---------------------------------------------------------------- the size limit

  // The recipient's stream takes the relayed line exactly when the line fits.
  lemma RelayIsReceived(m: Message, rest: string)
    ensures Decoded(Encoded(RelayLine(m)) + rest) == Received(Some(RelayLine(m)), rest)
       <==> |m.from| + |m.subject| + |m.body| + |ToText(m.timestamp)| <= MAX_MESSAGE_SIZE - 12
  {
    hide RelayLine, ToText, Decoded, Encoded;
    RelayLength(m);
    DecodeEncoded(RelayLine(m), rest);
  }

  // The same on the fields of the line that came in: exactly when sender, subject, body and
  // timestamp fit, what the server makes of the line is received at the other end.
  lemma QueuedLineIsReceived(s: State, c: Settings, raw: string, socket: int, env: Env, i: nat, rest: string)
    requires Conserved(s.ledger)
    requires NamesSocket(s.clients, socket, env.who) && Enumerates(env.order, s.clients.Keys)
    requires |s.ledger.accepted| <= i < |Handled(s, c, raw, socket, env).ledger.accepted|
    ensures TakenIffFits(Handled(s, c, raw, socket, env).ledger.accepted[i], raw, env, rest)
  {
    hide Handled, CausedBy, TakenIffFits;
    HandledQueues(s, c, raw, socket, env, i);
    CausedIsReceived(Handled(s, c, raw, socket, env).ledger.accepted[i], raw, s.clients, env, rest);
  }

  ghost predicate TakenIffFits(m: Message, raw: string, env: Env, rest: string) {
    var a := Parsed(raw).arguments;
    && |a| >= 3
    && (Decoded(Encoded(RelayLine(m)) + rest) == Received(Some(RelayLine(m)), rest)
        <==> |env.who| + |a[1]| + |a[2]| + |ToText(env.stamp)| <= MAX_MESSAGE_SIZE - 12)
  }

  lemma CausedIsReceived(m: Message, raw: string, clients: Clients, env: Env, rest: string)
    requires CausedBy(m, raw, clients, env)
    ensures TakenIffFits(m, raw, env, rest)
  {
    hide Parsed, RelayLine, ToText, Decoded, Encoded;
    RelayIsReceived(m, rest);
  }

  // So a line that stays |from| + |timestamp| + 4 bytes below the limit is always
  // received at the other end.
  lemma RoomyLineIsReceived(s: State, c: Settings, raw: string, socket: int, env: Env, i: nat, rest: string)
    requires Conserved(s.ledger) && NamesAreWords(s.clients)
    requires NamesSocket(s.clients, socket, env.who) && Enumerates(env.order, s.clients.Keys)
    requires LONG_LONG_MIN <= env.stamp <= LONG_LONG_MAX
    requires |s.ledger.accepted| <= i < |Handled(s, c, raw, socket, env).ledger.accepted|
    requires |raw| + |env.who| + |ToText(env.stamp)| + 4 <= MAX_MESSAGE_SIZE
    ensures var line := RelayLine(Handled(s, c, raw, socket, env).ledger.accepted[i]);
            Decoded(Encoded(line) + rest) == Received(Some(line), rest)
  {
    hide Handled, RelayLine, ToText, EventOf, Decoded, Encoded, Parsed;
    var m := Handled(s, c, raw, socket, env).ledger.accepted[i];
    LosslessForwarding(s, c, raw, socket, env, i);
    RelayLength(m);
    DecodeEncoded(RelayLine(m), rest);
  }

  // Not every line that the server accepts can be forwarded. With alice and bob registered,
  // this line of alice's is within the limit and its message is queued for bob; relayed, it
  // ends bob's stream, with everything after it.
  lemma LongestLineBreaksTheRecipient(body: string, rest: string) returns (s: State, env: Env)
    requires |body| == MAX_MESSAGE_SIZE - 11 && Free(body, DELIMITER) && body[|body| - 1] != '\n'
    ensures Conserved(s.ledger) && NamesSocket(s.clients, 1, env.who) && Enumerates(env.order, s.clients.Keys)
    ensures s.clients.Keys == {"alice", "bob"} && env.who == "alice"
    ensures var raw := "SEND;bob;s;" + body;
            var l := Handled(s, Defaults(), raw, 1, env).ledger;
            && Sendable(raw)
            && l.accepted == l.queue == [Message("alice", "bob", "s", Sanitized(body), 0)]
            && ReceivedAll(Encoded(RelayLine(l.accepted[0])) + rest) == []
  {
    hide Encoded, ReceivedAll, Handled, Sanitized, RelayLine, ToText;
    s := State(map["alice" := ClientInfo(1, 0), "bob" := ClientInfo(2, 0)], {}, EmptyLedger(10000, REJECT), 0, []);
    env := Env("alice", ["alice", "bob"], 0, 0, None);
    var m := Message("alice", "bob", "s", Sanitized(body), 0);
    LongLineIsQueued(s, body, env);
    RelayLength(m);
    ZeroText();
    OversizedFrame(RelayLine(m), rest);
  }

  lemma ZeroText()
    ensures ToText(0) == "0"
  {
  }

  lemma LongLineIsQueued(s: State, body: string, env: Env)
    requires body != "" && Free(body, DELIMITER) && body[|body| - 1] != '\n'
    requires env.who == "alice" && "bob" in s.clients && s.clients["bob"].socket > 0 && Accepts(s.ledger)
    ensures Handled(s, Defaults(), "SEND;bob;s;" + body, 1, env).ledger
         == Offered(s.ledger, Message("alice", "bob", "s", Sanitized(body), env.stamp))
  {
    hide Find, Pieces, Offered, Accepts, Limit, Defaults, Line, Parsed;
    LongLineIsParsed(body);
    DefaultsAreReadable();
    LimitsDoNotWrap(Defaults());
    assert Sanitized("bob") == "bob" && Sanitized("s") == "s" && Sanitized(body) != "";
  }

  lemma LongLineIsParsed(body: string)
    requires body != "" && Free(body, DELIMITER) && body[|body| - 1] != '\n'
    ensures Parsed("SEND;bob;s;" + body) == ParsedMessage("SEND", ["bob", "s", body], true)
  {
    hide Find, Pieces;
    var raw := "SEND;bob;s;" + body;
    ShortSendLine(body);
    FreeOfChar("bob", DELIMITER_CHAR);
    FreeOfChar("s", DELIMITER_CHAR);
    FreeOfChar("SEND", DELIMITER_CHAR);
    FreeThree("bob", "s", body);
    ParseBuild("SEND", ["bob", "s", body]);
    assert raw[|raw| - 1] == body[|body| - 1];
    assert Chomped(raw) == raw && Chomped(raw + "\n") == raw;
  }

  lemma ShortSendLine(body: string)
    ensures SendLine("bob", "s", body) == "SEND;bob;s;" + body + "\n"
  {
    JoinCons("SEND", ["bob", "s", body], DELIMITER);
    JoinCons("bob", ["s", body], DELIMITER);
    JoinCons("s", [body], DELIMITER);
    assert ["bob", "s", body] == ["bob"] + ["s", body] && ["s", body] == ["s"] + [body];
    assert "SEND" + DELIMITER + ("bob" + DELIMITER + ("s" + DELIMITER + body)) == "SEND;bob;s;" + body;
  }

  // A frame over the limit ends the stream.
  lemma OversizedFrame(line: string, rest: string)
    requires MAX_MESSAGE_SIZE < |line| < UINT32
    ensures ReceivedAll(Encoded(line) + rest) == []
  {
    hide ReceivedAll, Encoded;
    var input := Encoded(line) + rest;
    FrameIsLong(line);
    UnsendableFrame(line, rest, |input|);
    assert input[..|input|] == input;
  }

  lemma FrameIsLong(line: string)
    ensures |Encoded(line)| == LENGTH_PREFIX_SIZE + |line|
  {
  }

  // ------------------------------------------------------------------ the broadcast

  lemma {:induction false} EnumerationSize(order: seq<string>, names: set<string>)
    requires Enumerates(order, names)
    ensures |order| == |names|
  {
    if order == [] {
      assert names == {};
    } else {
      var rest := order[1..];
      assert order[0] !in rest;
      EnumerationSize(rest, names - {order[0]});
    }
  }

  // A broadcast under REJECT, with f free slots and n other users registered, appends
  // min(f, n) messages: identical except for the recipient, no recipient twice, never the
  // sender; with room for all of them every other user gets exactly one.
  lemma BroadcastReaches(s: State, c: Settings, data: seq<string>, socket: int, env: Env)
    requires Conserved(s.ledger) && s.ledger.policy == REJECT && Enumerates(env.order, s.clients.Keys)
    requires |data| >= 4 && env.who in s.clients && env.who != ""
    requires Sanitized(data[1]) == "all" && ValidSubject(c, Sanitized(data[2])) && ValidBody(Sanitized(data[3]))
    ensures s.ledger.accepted <= Submitted(s, c, data, socket, env).ledger.accepted
    ensures var l, l' := s.ledger, Submitted(s, c, data, socket, env).ledger;
            var f, n := l.capacity - |l.queue|, |s.clients| - 1;
            var added := l'.accepted[|l.accepted|..];
            && |added| == (if f < n then f else n)
            && l'.queue == l.queue + added && l'.fates == l.fates
            && (forall i | 0 <= i < |added| ::
                  added[i] == Message(env.who, added[i].to, Sanitized(data[2]), Sanitized(data[3]), env.stamp)
                  && added[i].to in s.clients && added[i].to != env.who)
            && (forall i, j | 0 <= i < j < |added| :: added[i].to != added[j].to)
            && (f >= n ==> forall u | u in s.clients && u != env.who :: exists i :: 0 <= i < |added| && added[i].to == u)
  {
    hide ValidSubject, Sanitized, Line, Conserved, OfferedAll, Others, Addressed;
    var m := Message(env.who, "all", Sanitized(data[2]), Sanitized(data[3]), env.stamp);
    var others := Others(env.order, env.who);
    BroadcastFanOut(s.ledger, m, env.order);
    OthersOf(env.order, env.who);
    EnumerationSize(env.order, s.clients.Keys);
    assert |s.clients| == |s.clients.Keys|;
    CapacityHolds(s.ledger);
    var f := s.ledger.capacity - |s.ledger.queue|;
    var k := if |others| < f then |others| else f;
    BroadcastCopies(m, others[..k]);
    var l' := OfferedAll(s.ledger, Addressed(m, others));
    assert Submitted(s, c, data, socket, env).ledger == l';
    assert l'.accepted[|s.ledger.accepted|..] == Addressed(m, others[..k]);
    forall i | 0 <= i < k ensures others[..k][i] in s.clients && others[..k][i] != env.who {
      assert others[..k][i] == others[i];
    }
  }

  lemma BroadcastCopies(m: Message, recipients: seq<string>)
    requires NoRepeats(recipients)
    ensures var copies := Addressed(m, recipients);
            && |copies| == |recipients|
            && (forall i | 0 <= i < |copies| :: copies[i] == m.(to := recipients[i]))
            && (forall i, j | 0 <= i < j < |copies| :: copies[i].to != copies[j].to)
            && (forall u | u in recipients :: exists i :: 0 <= i < |copies| && copies[i].to == u)
  {
    forall u | u in recipients ensures exists i :: 0 <= i < |recipients| && Addressed(m, recipients)[i].to == u {
      var i :| 0 <= i < |recipients| && recipients[i] == u;
      assert Addressed(m, recipients)[i].to == u;
    }
  }
}
