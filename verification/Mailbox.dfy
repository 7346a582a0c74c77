// src/Client/MessageHandler.cpp: what the client makes of the server's lines, and the
// mailbox that keeps its messages in two vectors and a counter.
module Mailbox {
  import opened Wrappers
  import opened Text
  import opened Codec
  import opened Framing
  import opened Numbers
  import opened Config

  // ---------------------------------------------------------------------- events

  datatype ServerEvent = MESSAGE | OK | ERROR_MSG | USERS | LOG | PING
  datatype EventData = EventData(kind: ServerEvent, data: string, args: seq<string>)

  function FirstArg(p: ParsedMessage, fallback: string): string {
    if p.ArgCount() > 0 then p.Arg(0) else fallback
  }

  // parseMessage
  function EventOf(raw: string): (e: Option<EventData>)
    ensures e.Some? && e.value.kind == MESSAGE ==> |e.value.args| == 4
  {
    var p := Parsed(raw);
    if !p.isValid then None
    else if p.command == "MESSAGE" && p.ArgCount() >= 4 then Some(EventData(MESSAGE, "", [p.Arg(0), p.Arg(1), p.Arg(2), p.Arg(3)]))
    else if p.command == "OK" then Some(EventData(OK, FirstArg(p, "Operation successful"), []))
    else if p.command == "ERROR" then Some(EventData(ERROR_MSG, FirstArg(p, "Unknown error"), []))
    else if p.command == "USERS" && p.ArgCount() >= 1 then Some(EventData(USERS, p.Arg(0), []))
    else if p.command == "LOG" && p.ArgCount() >= 1 then Some(EventData(LOG, p.Arg(0), []))
    else if p.command == "PING" then Some(EventData(PING, "", []))
    else None
  }

  predicate IsEvent(raw: string, kind: ServerEvent, data: string) {
    EventOf(raw) == Some(EventData(kind, data, []))
  }

  // A line with one field free of delimiters reads as the event of its command with that
  // field as its data.
  lemma OneFieldIsRead(text: string)
    requires Free(text, DELIMITER)
    ensures IsEvent(Line("OK", [text]), OK, text)
    ensures IsEvent(Line("ERROR", [text]), ERROR_MSG, text)
    ensures IsEvent(Line("USERS", [text]), USERS, text)
    ensures IsEvent(Line("LOG", [text]), LOG, text)
  {
    hide Find, Pieces, Parsed, Line;
    FieldsAreRead("OK", [text]);
    FieldsAreRead("ERROR", [text]);
    FieldsAreRead("USERS", [text]);
    FieldsAreRead("LOG", [text]);
  }

  // Without a field: default texts, or no event; and only these six commands are events.
  lemma BareCommandIsRead(command: string)
    requires command != "" && ';' !in command
    ensures EventOf(Line(command, []))
         == match command
            case "OK" => Some(EventData(OK, "Operation successful", []))
            case "ERROR" => Some(EventData(ERROR_MSG, "Unknown error", []))
            case "PING" => Some(EventData(PING, "", []))
            case _ => None
  {
    hide Find, Pieces, Parsed, Line;
    FieldsAreRead(command, []);
  }

  lemma FieldsAreRead(command: string, args: seq<string>)
    requires command != "" && ';' !in command && forall a | a in args :: Free(a, DELIMITER)
    ensures Parsed(Line(command, args)) == ParsedMessage(command, args, true)
  {
    hide Find, Pieces;
    FreeOfChar(command, DELIMITER_CHAR);
    ParseBuild(command, args);
  }

  // A MESSAGE needs four fields, and what comes after them is ignored.
  lemma MessageIsRead(args: seq<string>)
    requires forall a | a in args :: Free(a, DELIMITER)
    ensures EventOf(Line("MESSAGE", args)) == if |args| < 4 then None else Some(EventData(MESSAGE, "", args[..4]))
  {
    hide Find, Pieces, Parsed, Line;
    FieldsAreRead("MESSAGE", args);
    if |args| >= 4 {
      assert args[..4] == [args[0], args[1], args[2], args[3]];
    }
  }

  predicate IsMessage(raw: string) {
    EventOf(raw).Some? && EventOf(raw).value.kind == MESSAGE
  }

  predicate IsPing(raw: string) {
    EventOf(raw).Some? && EventOf(raw).value.kind == PING
  }

  // ---------------------------------------------------------------- the two vectors

  datatype ReceivedMessage = ReceivedMessage(from: string, subject: string, body: string, timestamp: int,
                                             receivedAt: int, isRead: bool, index: int)

  datatype Box = Box(unread: seq<ReceivedMessage>, read: seq<ReceivedMessage>, counter: int)

  const EMPTY_BOX := Box([], [], 0)

  // A MESSAGE event as the entry stored at that moment; a timestamp that does not read
  // as a number becomes the current time.
  function Entry(args: seq<string>, index: int, now: int): ReceivedMessage
    requires |args| == 4
  {
    var t := Stoll(args[3]);
    ReceivedMessage(args[0], args[1], args[2], if t.Some? then t.value else now, now, false, index)
  }

  // A last field without any digit is no timestamp.
  lemma UnreadableTimestamp(args: seq<string>, index: int, now: int)
    requires |args| == 4 && forall i | 0 <= i < |args[3]| :: !IsDigit(args[3][i])
    ensures Entry(args, index, now) == ReceivedMessage(args[0], args[1], args[2], now, now, false, index)
  {
    NoDigitsNoNumber(args[3], LONG_LONG_MIN, LONG_LONG_MAX);
  }

  // The first position holding an index.
  function Position(box: seq<ReceivedMessage>, index: int): (r: Option<nat>)
    ensures r.Some? ==> r.value < |box| && box[r.value].index == index
    ensures r.None? ==> forall k | 0 <= k < |box| :: box[k].index != index
  {
    if box == [] then None
    else if box[0].index == index then Some(0)
    else
      var r := Position(box[1..], index);
      if r.Some? then Some(r.value + 1) else None
  }

  function Stored(b: Box, args: seq<string>, now: int): Box
    requires |args| == 4
  {
    b.(unread := b.unread + [Entry(args, b.counter, now)], counter := b.counter + 1)
  }

  function Without<T>(ts: seq<T>, k: nat): seq<T>
    requires k < |ts|
  {
    ts[..k] + ts[k + 1..]
  }

  // readMessageByIndex: the box afterwards and what the caller gets. The copy handed out
  // on the first read is taken before the message is marked.
  function ReadAt(b: Box, index: int): (Box, Option<ReceivedMessage>) {
    match Position(b.unread, index)
    case Some(k) =>
      (b.(unread := Without(b.unread, k), read := b.read + [b.unread[k].(isRead := true)]), Some(b.unread[k]))
    case None =>
      match Position(b.read, index)
      case Some(k) => (b, Some(b.read[k]))
      case None => (b, None)
  }

  function Lookup(b: Box, index: int): Option<ReceivedMessage> {
    match Position(b.unread, index)
    case Some(k) => Some(b.unread[k])
    case None =>
      match Position(b.read, index)
      case Some(k) => Some(b.read[k])
      case None => None
  }

  // ------------------------------------------------------------ refinement of a log

  predicate Holds(box: seq<ReceivedMessage>, index: int) {
    exists k | 0 <= k < |box| :: box[k].index == index
  }

  // Unread and read together hold every index below the counter exactly once, with its
  // original content; unread is in order of index, and isRead tells the two apart.
  ghost predicate Refines(b: Box, log: seq<ReceivedMessage>) {
    && b.counter == |log|
    && (forall i | 0 <= i < |log| :: log[i].index == i && !log[i].isRead)
    && (forall k | 0 <= k < |b.unread| :: 0 <= b.unread[k].index < |log| && b.unread[k] == log[b.unread[k].index])
    && (forall k | 0 <= k < |b.read| :: 0 <= b.read[k].index < |log| && b.read[k] == log[b.read[k].index].(isRead := true))
    && (forall j, k | 0 <= j < k < |b.unread| :: b.unread[j].index < b.unread[k].index)
    && (forall j, k | 0 <= j < k < |b.read| :: b.read[j].index != b.read[k].index)
    && (forall i | 0 <= i < |log| :: Holds(b.unread, i) <==> !Holds(b.read, i))
  }

  lemma StoreRefines(b: Box, log: seq<ReceivedMessage>, args: seq<string>, now: int)
    requires Refines(b, log) && |args| == 4
    ensures Refines(Stored(b, args, now), log + [Entry(args, |log|, now)])
  {
    var m := Entry(args, |log|, now);
    forall i | 0 <= i <= |log| ensures Holds(b.unread + [m], i) <==> !Holds(b.read, i) {
      HoldsSnoc(b.unread, m, i);
    }
  }

  // Reading succeeds exactly for the indices handed out, gives back the logged fields,
  // and moves the message to the read side.
  lemma ReadRefines(b: Box, log: seq<ReceivedMessage>, index: int)
    requires Refines(b, log)
    ensures var (b', out) := ReadAt(b, index);
            && Refines(b', log)
            && (out.Some? <==> 0 <= index < |log|)
            && (out.Some? ==> out.value == log[index].(isRead := Holds(b.read, index)))
            && (out.Some? ==> Holds(b'.read, index))
            && Lookup(b, index) == out
  {
    match Position(b.unread, index)
    case Some(k) => MoveRefines(b, log, k);
    case None =>
      match Position(b.read, index)
      case Some(k) => assert Holds(b.read, index);
      case None =>
        assert !Holds(b.unread, index) && !Holds(b.read, index);
  }

  lemma HoldsWithout(box: seq<ReceivedMessage>, k: nat, index: int)
    requires k < |box| && index != box[k].index
    ensures Holds(Without(box, k), index) <==> Holds(box, index)
  {
    var box' := Without(box, k);
    if Holds(box, index) {
      var j :| 0 <= j < |box| && box[j].index == index;
      assert box'[if j < k then j else j - 1].index == index;
    }
  }

  lemma HoldsSnoc(box: seq<ReceivedMessage>, m: ReceivedMessage, index: int)
    ensures Holds(box + [m], index) <==> Holds(box, index) || m.index == index
  {
    var box' := box + [m];
    assert box'[|box|] == m;
    if Holds(box, index) {
      var j :| 0 <= j < |box| && box[j].index == index;
      assert box'[j].index == index;
    }
  }

  lemma MoveRefines(b: Box, log: seq<ReceivedMessage>, k: nat)
    requires Refines(b, log) && k < |b.unread|
    ensures var b' := b.(unread := Without(b.unread, k), read := b.read + [b.unread[k].(isRead := true)]);
            Refines(b', log) && Holds(b'.read, b.unread[k].index) && !Holds(b.read, b.unread[k].index)
  {
    var m := b.unread[k];
    var unread', read' := Without(b.unread, k), b.read + [m.(isRead := true)];
    assert forall j | 0 <= j < |unread'| :: unread'[j] == b.unread[if j < k then j else j + 1];
    forall i | 0 <= i < |log| ensures Holds(unread', i) <==> !Holds(read', i) {
      HoldsSnoc(b.read, m.(isRead := true), i);
      if i == m.index {
        assert !Holds(unread', i);
      } else {
        HoldsWithout(b.unread, k, i);
      }
    }
    HoldsSnoc(b.read, m.(isRead := true), m.index);
    assert Holds(b.unread, m.index);
  }

  datatype BoxOp = Store(args: seq<string>, now: int) | Read(index: int)

  predicate FourFields(ops: seq<BoxOp>) {
    forall i | 0 <= i < |ops| && ops[i].Store? :: |ops[i].args| == 4
  }

  function BoxAfter(ops: seq<BoxOp>): Box
    requires FourFields(ops)
  {
    if ops == [] then EMPTY_BOX
    else
      var b := BoxAfter(ops[..|ops| - 1]);
      match ops[|ops| - 1]
      case Store(args, now) => Stored(b, args, now)
      case Read(index) => ReadAt(b, index).0
  }

  // The reference: messages in order of arrival, numbered from 0.
  function LogAfter(ops: seq<BoxOp>): seq<ReceivedMessage>
    requires FourFields(ops)
  {
    if ops == [] then []
    else
      var log := LogAfter(ops[..|ops| - 1]);
      match ops[|ops| - 1]
      case Store(args, now) => log + [Entry(args, |log|, now)]
      case Read(_) => log
  }

  // After any sequence of stores and reads the two vectors represent the log, and any
  // index can be read, as often as one likes, with the logged fields.
  lemma {:induction false} MailboxRefinesLog(ops: seq<BoxOp>)
    requires FourFields(ops)
    ensures Refines(BoxAfter(ops), LogAfter(ops))
    ensures forall index :: ReadAt(BoxAfter(ops), index).1.Some? <==> 0 <= index < |LogAfter(ops)|
    ensures forall index | 0 <= index < |LogAfter(ops)| ::
              ReadAt(BoxAfter(ops), index).1.value.(isRead := false) == LogAfter(ops)[index]
  {
    if ops != [] {
      var before := ops[..|ops| - 1];
      MailboxRefinesLog(before);
      match ops[|ops| - 1]
      case Store(args, now) => StoreRefines(BoxAfter(before), LogAfter(before), args, now);
      case Read(index) => ReadRefines(BoxAfter(before), LogAfter(before), index);
    }
    forall index ensures ReadAt(BoxAfter(ops), index).1.Some? <==> 0 <= index < |LogAfter(ops)| {
      ReadRefines(BoxAfter(ops), LogAfter(ops), index);
    }
    forall index | 0 <= index < |LogAfter(ops)|
      ensures ReadAt(BoxAfter(ops), index).1.value.(isRead := false) == LogAfter(ops)[index]
    {
      ReadRefines(BoxAfter(ops), LogAfter(ops), index);
    }
  }

  type Fields = f: seq<string> | |f| == 4 witness ["", "", "", ""]

  function FieldsOf(line: string): (r: seq<Fields>) {
    if IsMessage(line) then [EventOf(line).value.args] else []
  }

  function PongOf(line: string): seq<string> {
    if IsPing(line) then [Line("PONG", [])] else []
  }

  // The four fields of every MESSAGE in a stream of lines, in order.
  function AllFields(lines: seq<string>): seq<Fields> {
    if lines == [] then [] else AllFields(lines[..|lines| - 1]) + FieldsOf(lines[|lines| - 1])
  }

  // One PONG line for every PING in a stream of lines, provided the stream takes it:
  // taken(k) tells that for an answer to line k.
  function AllPongs(lines: seq<string>, taken: nat -> bool): seq<string> {
    if lines == [] then []
    else AllPongs(lines[..|lines| - 1], taken) + if taken(|lines| - 1) then PongOf(lines[|lines| - 1]) else []
  }

  function Pings(lines: seq<string>): nat {
    if lines == [] then 0 else Pings(lines[..|lines| - 1]) + if IsPing(lines[|lines| - 1]) then 1 else 0
  }

  // As many PONGs as PINGs, when all are taken, and nothing but PONGs.
  lemma {:induction false} OnePongEach(lines: seq<string>, taken: nat -> bool)
    requires forall k :: taken(k)
    ensures |AllPongs(lines, taken)| == Pings(lines)
    ensures forall k | 0 <= k < |AllPongs(lines, taken)| :: AllPongs(lines, taken)[k] == "PONG\n"
  {
    hide IsPing;
    if lines != [] {
      OnePongEach(lines[..|lines| - 1], taken);
      assert ["PONG"] + [] == ["PONG"];
      assert Line("PONG", []) == "PONG\n";
    }
  }

  // The entries that messages add to a log that already holds start many.
  function Numbered(fields: seq<Fields>, start: nat, clock: nat -> int): (r: seq<ReceivedMessage>)
    ensures |r| == |fields|
  {
    seq(|fields|, i requires 0 <= i < |fields| => Entry(fields[i], start + i, clock(start + i)))
  }

  lemma AllOfSnoc(lines: seq<string>, line: string, taken: nat -> bool)
    ensures AllFields(lines + [line]) == AllFields(lines) + FieldsOf(line)
    ensures AllPongs(lines + [line], taken) == AllPongs(lines, taken) + if taken(|lines|) then PongOf(line) else []
  {
    assert (lines + [line])[..|lines|] == lines;
  }

  lemma NumberedConcat(log: seq<ReceivedMessage>, a: seq<Fields>, b: seq<Fields>, clock: nat -> int, log': seq<ReceivedMessage>)
    requires log' == log + Numbered(a, |log|, clock) + Numbered(b, |log| + |a|, clock)
    ensures log' == log + Numbered(a + b, |log|, clock)
  {
  }

  lemma NumberedSmall(f: Fields, start: nat, clock: nat -> int)
    ensures Numbered([], start, clock) == []
    ensures Numbered([f], start, clock) == [Entry(f, start, clock(start))]
  {
  }

  lemma AllOfNone()
    ensures AllFields([]) == [] && forall taken :: AllPongs([], taken) == []
  {
  }

  // -------------------------------------------------------------------- sending

  function SendLine(to: string, subject: string, body: string): string {
    Line("SEND", [to, subject, body])
  }

  predicate MaySend(c: Settings, to: string, subject: string) {
    (ValidUsername(c, to) || to == "all") && ValidSubject(c, subject)
  }

  function ReplySubject(subject: string): string {
    if |subject| >= 4 && subject[..4] == "Re: " then subject else "Re: " + subject
  }

  // A reply keeps the subject, behind one prefix: replying to a reply does not stack it.
  lemma ReplySubjectOnce(subject: string)
    ensures var r := ReplySubject(subject);
            && |r| >= 4 && r[..4] == "Re: "
            && (if "Re: " <= subject then r == subject else r[4..] == subject)
            && ReplySubject(r) == r
  {
    assert ("Re: " + subject)[..4] == "Re: " && ("Re: " + subject)[4..] == subject;
  }

  // What the server reads of a reply: the prefixed subject and the body, as long as neither
  // contains the delimiter.
  lemma ReplyIsRead(to: string, subject: string, body: string)
    requires Free(to, DELIMITER) && Free(subject, DELIMITER) && Free(body, DELIMITER)
    ensures Parsed(SendLine(to, ReplySubject(subject), body))
         == ParsedMessage("SEND", [to, if "Re: " <= subject then subject else "Re: " + subject, body], true)
  {
    hide Find, Pieces, Parsed, SendLine;
    var r := ReplySubject(subject);
    ReplySubjectOnce(subject);
    assert r == if "Re: " <= subject then subject else "Re: " + subject;
    FreeOfChar(subject, DELIMITER_CHAR);
    FreeOfChar(r, DELIMITER_CHAR);
    SendLineFields(to, r, body);
    assert Pieces(r, DELIMITER) == [r] && Pieces(body, DELIMITER) == [body] by { OnePiece(r); OnePiece(body); }
    assert [to] + [r] + [body] == [to, r, body];
  }

  lemma OnePiece(s: string)
    requires Free(s, DELIMITER)
    ensures Pieces(s, DELIMITER) == [s]
  {
  }

  // A recipient that may be written to is a name or "all", never with a delimiter.
  lemma MaySendMeans(c: Settings, to: string, subject: string)
    requires Readable(c)
    ensures MaySend(c, to, subject) <==>
            && ((IsWord(to) && |to| <= IntSetting(c, "MAX_USERNAME_LENGTH").value) || to == "all")
            && 1 <= |subject| <= IntSetting(c, "MAX_SUBJECT_LENGTH").value
    ensures MaySend(c, to, subject) ==> Free(to, DELIMITER)
  {
    hide Readable, IntSetting, ValidUsername, ValidSubject, Find;
    ValidatorsMean(c, to, subject, "");
    if IsWord(to) { WordIsFree(to, DELIMITER_CHAR); }
    FreeOfChar("all", DELIMITER_CHAR);
  }

  // The server reads a SEND line as three arguments, the ones typed, exactly when
  // subject and body are free of the delimiter; in any case the command is SEND and the
  // recipient arrives intact.
  lemma SendLineFields(to: string, subject: string, body: string)
    requires Free(to, DELIMITER)
    ensures Parsed(SendLine(to, subject, body))
         == ParsedMessage("SEND", [to] + Pieces(subject, DELIMITER) + Pieces(body, DELIMITER), true)
    ensures Parsed(SendLine(to, subject, body)).arguments == [to, subject, body]
       <==> Free(subject, DELIMITER) && Free(body, DELIMITER)
  {
    FreeOfChar("SEND", DELIMITER_CHAR);
    BuiltFields("SEND", [to, subject, body]);
    PiecesOfThree(to, subject, body, DELIMITER);
    ParseBuild("SEND", [to, subject, body]);
    FreeThree(to, subject, body);
  }

  lemma PiecesOfThree(a: string, b: string, c: string, d: string)
    requires d != "" && Free(a, d)
    ensures AllPieces([a, b, c], d) == [a] + Pieces(b, d) + Pieces(c, d)
  {
    assert [a, b, c][1..] == [b, c] && [b, c][1..] == [c] && [c][1..] == [];
    assert AllPieces([c], d) == Pieces(c, d) + [];
  }

  lemma FreeThree(a: string, b: string, c: string)
    ensures (forall t | t in [a, b, c] :: Free(t, DELIMITER)) <==> Free(a, DELIMITER) && Free(b, DELIMITER) && Free(c, DELIMITER)
  {
    assert a in [a, b, c] && b in [a, b, c] && c in [a, b, c];
  }

  // ------------------------------------------------------------------- the object

  class MessageHandler {
    const socketFd: int
    const clock: nat -> int
    var currentUsername: string
    var unreadMessages: seq<ReceivedMessage>
    var readMessages: seq<ReceivedMessage>
    var messageCounter: int
    var sent: seq<string>
    ghost var log: seq<ReceivedMessage>

    ghost function View(): Box
      reads this
    {
      Box(unreadMessages, readMessages, messageCounter)
    }

    ghost predicate Valid()
      reads this
    {
      Refines(View(), log)
    }

    constructor (socketFd: int, clock: nat -> int)
      ensures Valid() && log == [] && sent == [] && this.socketFd == socketFd && this.clock == clock
    {
      this.socketFd := socketFd;
      this.clock := clock;
      currentUsername := "";
      unreadMessages, readMessages, messageCounter := [], [], 0;
      sent, log := [], [];
    }

    // accepted: whether the stream took the line.
    method SendCommand(command: string, accepted: bool) returns (ok: bool)
      modifies this`sent
      ensures ok == (socketFd >= 0 && accepted)
      ensures sent == if ok then old(sent) + [command] else old(sent)
    {
      var stream := new NetworkStream(socketFd, "");
      ok := stream.Send(command, accepted);
      if ok {
        sent := sent + [command];
      }
    }

    method SendMessage(c: Settings, to: string, subject: string, body: string, accepted: bool) returns (ok: bool)
      modifies this`sent
      ensures ok == (MaySend(c, to, subject) && socketFd >= 0 && accepted)
      ensures sent == if ok then old(sent) + [SendLine(to, subject, body)] else old(sent)
    {
      if !ValidUsername(c, to) && to != "all" {
        return false;
      }
      if !ValidSubject(c, subject) {
        return false;
      }
      var line := Build("SEND", [to, subject, body]);
      ok := SendCommand(line, accepted);
    }

    method StoreMessage(data: EventData)
      requires Valid() && |data.args| == 4
      modifies this`unreadMessages, this`messageCounter, this`log
      ensures Valid() && log == old(log) + [Entry(data.args, |old(log)|, clock(|old(log)|))]
      ensures View() == Stored(old(View()), data.args, clock(|old(log)|))
    {
      var now := clock(messageCounter as nat);
      var t := Stoll(data.args[3]);
      var timestamp := if t.Some? then t.value else now;
      var msg := ReceivedMessage(data.args[0], data.args[1], data.args[2], timestamp, now, false, messageCounter);
      StoreRefines(View(), log, data.args, now);
      messageCounter := messageCounter + 1;
      unreadMessages := unreadMessages + [msg];
      log := log + [msg];
    }

    method ReadMessageByIndex(index: int) returns (found: bool, out: Option<ReceivedMessage>)
      requires Valid()
      modifies this`unreadMessages, this`readMessages
      ensures Valid() && View() == ReadAt(old(View()), index).0 && out == ReadAt(old(View()), index).1
      ensures found == out.Some? == (0 <= index < |log|)
      ensures found ==> out.value.(isRead := false) == log[index]
    {
      ReadRefines(View(), log, index);
      var k := Find(unreadMessages, index);
      if k.Some? {
        out := Some(unreadMessages[k.value]);
        readMessages := readMessages + [unreadMessages[k.value].(isRead := true)];
        unreadMessages := unreadMessages[..k.value] + unreadMessages[k.value + 1..];
        return true, out;
      }
      k := Find(readMessages, index);
      if k.Some? {
        return true, Some(readMessages[k.value]);
      }
      return false, None;
    }

    // The search loop over either vector.
    method Find(box: seq<ReceivedMessage>, index: int) returns (k: Option<nat>)
      ensures k == Position(box, index)
    {
      for i := 0 to |box|
        invariant forall j | 0 <= j < i :: box[j].index != index
      {
        if box[i].index == index {
          FirstPosition(box, index, i);
          return Some(i);
        }
      }
      if Position(box, index).Some? {
        assert false;
      }
      return None;
    }

    method ReplyToMessage(c: Settings, originalIndex: int, body: string, accepted: bool) returns (ok: bool)
      requires Valid()
      modifies this`sent
      ensures Valid()
      ensures ok == (0 <= originalIndex < |log| && socketFd >= 0 && accepted
                     && MaySend(c, log[originalIndex].from, ReplySubject(log[originalIndex].subject)))
      ensures sent == if ok then old(sent) + [SendLine(log[originalIndex].from, ReplySubject(log[originalIndex].subject), body)]
                      else old(sent)
      ensures ok && Readable(c) && Free(log[originalIndex].subject, DELIMITER) && Free(body, DELIMITER) ==>
                var m := log[originalIndex];
                |sent| == |old(sent)| + 1
                && Parsed(sent[|old(sent)|])
                   == ParsedMessage("SEND", [m.from, if "Re: " <= m.subject then m.subject else "Re: " + m.subject, body], true)
    {
      hide SendLine, Parsed, Readable;
      ReadRefines(View(), log, originalIndex);
      var original;
      var k := Find(unreadMessages, originalIndex);
      if k.Some? {
        original := unreadMessages[k.value];
      } else {
        k := Find(readMessages, originalIndex);
        if k.None? {
          return false;
        }
        original := readMessages[k.value];
      }
      var replySubject := if |original.subject| >= 4 && original.subject[..4] == "Re: " then original.subject
                          else "Re: " + original.subject;
      ok := SendMessage(c, original.from, replySubject, body, accepted);
      if Readable(c) {
        MaySendMeans(c, original.from, replySubject);
        if ok && Free(original.subject, DELIMITER) && Free(body, DELIMITER) {
          ReplyIsRead(original.from, original.subject, body);
        }
      }
    }

    // The listening loop: every MESSAGE is stored in order of arrival, every PING is
    // answered, everything else is left to the callback.
    method Listen(stream: NetworkStream, taken: nat -> bool)
      requires Valid() && stream.connected && socketFd >= 0
      modifies this`unreadMessages, this`messageCounter, this`log, this`sent, stream
      ensures Valid() && !stream.connected
      ensures log == old(log) + Numbered(AllFields(ReceivedAll(old(stream.inbound))), |old(log)|, clock)
      ensures sent == old(sent) + AllPongs(ReceivedAll(old(stream.inbound)), taken)
      ensures readMessages == old(readMessages)
    {
      hide EventOf, FieldsOf, PongOf, AllFields, AllPongs, Numbered, Refines, Decoded, ReceivedAll, Heard;
      HeardNothing(taken);
      ghost var all := ReceivedAll(stream.inbound);
      ghost var done: seq<string> := [];
      var heard: nat := 0;
      while stream.connected
        invariant Valid() && readMessages == old(readMessages)
        invariant all == done + if stream.connected then ReceivedAll(stream.inbound) else []
        invariant Heard(done, taken, old(log), old(sent)) && heard == |done|
        decreases if stream.connected then |stream.inbound| + 1 else 0
      {
        var message := stream.Receive();
        if message.None? {
          assert all == done;
          break;
        }
        HandleLine(message.value, taken(heard), done, taken, old(log), old(sent));
        done := done + [message.value];
        heard := heard + 1;
      }
      assert all == done;
      assert Heard(done, taken, old(log), old(sent));
      WhatWasHeard(done, taken, old(log), old(sent));
    }

    lemma HeardNothing(taken: nat -> bool)
      ensures Heard([], taken, log, sent)
    {
      hide AllFields, AllPongs, Numbered;
      AllOfNone();
      NumberedSmall(["", "", "", ""], |log|, clock);
    }

    lemma WhatWasHeard(lines: seq<string>, taken: nat -> bool, log0: seq<ReceivedMessage>, sent0: seq<string>)
      requires Heard(lines, taken, log0, sent0)
      ensures log == log0 + Numbered(AllFields(lines), |log0|, clock) && sent == sent0 + AllPongs(lines, taken)
    {
    }

    // What the lines heard so far have done to the log and to the lines sent.
    ghost predicate Heard(lines: seq<string>, taken: nat -> bool, log0: seq<ReceivedMessage>, sent0: seq<string>)
      reads this
    {
      log == log0 + Numbered(AllFields(lines), |log0|, clock) && sent == sent0 + AllPongs(lines, taken)
    }

    method HandleLine(raw: string, accepted: bool, ghost done: seq<string>, ghost taken: nat -> bool,
                      ghost log0: seq<ReceivedMessage>, ghost sent0: seq<string>)
      requires Valid() && socketFd >= 0 && Heard(done, taken, log0, sent0) && accepted == taken(|done|)
      modifies this`unreadMessages, this`messageCounter, this`log, this`sent
      ensures Valid() && Heard(done + [raw], taken, log0, sent0)
    {
      hide EventOf, AllFields, AllPongs, Numbered, Entry, Refines;
      var event := ParseMessage(raw);
      AllOfSnoc(done, raw, taken);
      NumberedSmall(if IsMessage(raw) then event.value.args else ["", "", "", ""], |log|, clock);
      if event.Some? && event.value.kind == MESSAGE {
        StoreMessage(event.value);
      } else if event.Some? && event.value.kind == PING {
        var line := Build("PONG", []);
        var _ := SendCommand(line, accepted);
      }
      NumberedConcat(log0, AllFields(done), FieldsOf(raw), clock, log);
    }

    method ParseMessage(raw: string) returns (event: Option<EventData>)
      ensures event == EventOf(raw)
    {
      var parsed := Parse(raw);
      if !parsed.isValid {
        return None;
      }
      if parsed.command == "MESSAGE" && parsed.ArgCount() >= 4 {
        event := Some(EventData(MESSAGE, "", [parsed.Arg(0), parsed.Arg(1), parsed.Arg(2), parsed.Arg(3)]));
      } else if parsed.command == "OK" {
        event := Some(EventData(OK, if parsed.ArgCount() > 0 then parsed.Arg(0) else "Operation successful", []));
      } else if parsed.command == "ERROR" {
        event := Some(EventData(ERROR_MSG, if parsed.ArgCount() > 0 then parsed.Arg(0) else "Unknown error", []));
      } else if parsed.command == "USERS" && parsed.ArgCount() >= 1 {
        event := Some(EventData(USERS, parsed.Arg(0), []));
      } else if parsed.command == "LOG" && parsed.ArgCount() >= 1 {
        event := Some(EventData(LOG, parsed.Arg(0), []));
      } else if parsed.command == "PING" {
        event := Some(EventData(PING, "", []));
      } else {
        event := None;
      }
    }
  }

  lemma {:induction false} FirstPosition(box: seq<ReceivedMessage>, index: int, k: nat)
    requires k < |box| && box[k].index == index && forall j | 0 <= j < k :: box[j].index != index
    ensures Position(box, index) == Some(k)
  {
    if k > 0 {
      assert box[0].index != index;
      FirstPosition(box[1..], index, k - 1);
    }
  }
}
