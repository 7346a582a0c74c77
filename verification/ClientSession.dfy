// src/Client/Client.cpp: the client's connection state machine, and why a connection
// carries a single CONNECT line.
module ClientSession {
  import opened Wrappers
  import opened Text
  import opened Codec
  import opened Config
  import opened Mailbox
  import opened Replies
  import opened Sessions
  import opened System
  import opened Safety
  import opened Service

  // wire: the lines sent on every descriptor so far.
  datatype Session = Session(socket: int, connected: bool, username: string, wire: map<int, seq<string>>)

  const FRESH := Session(-1, false, "", map[])

  // What the system calls of one connect report.
  datatype Attempt = Attempt(address: string, fd: int, addressOk: bool, reached: bool, sendOk: bool, response: Option<string>)

  // ------------------------------------------------------------------- the machine

  // The error connect reports, or None when it succeeds.
  function Refusal(s: Session, a: Attempt): Option<string> {
    if s.connected then Some("Already connected")
    else if a.fd < 0 then Some("Socket creation failed")
    else if !a.addressOk then Some("Invalid address: " + a.address)
    else if !a.reached then Some("Cannot connect to server")
    else if !a.sendOk then Some("Failed to send connection request")
    else if a.response.None? then Some("No response from server")
    else
      var p := Parsed(a.response.value);
      if p.isValid && p.command == "OK" then None
      else if p.isValid && p.command == "ERROR" && p.ArgCount() > 0 then Some(p.Arg(0))
      else Some("Connection refused")
  }

  function Wired(wire: map<int, seq<string>>, fd: int, line: string): map<int, seq<string>> {
    wire[fd := (if fd in wire then wire[fd] else []) + [line]]
  }

  function AfterConnect(s: Session, username: string, a: Attempt): Session {
    if s.connected || a.fd < 0 then s
    else
      var asked := a.addressOk && a.reached && a.sendOk;
      var wire := if asked then Wired(s.wire, a.fd, Line("CONNECT", [username])) else s.wire;
      if Refusal(s, a).None? then Session(a.fd, true, username, wire) else s.(socket := -1, wire := wire)
  }

  function AfterDisconnect(s: Session, sendOk: bool): Session {
    if !s.connected then s
    else
      s.(socket := -1, connected := false,
         wire := if s.socket >= 0 && sendOk then Wired(s.wire, s.socket, Line("DISCONNECT", [])) else s.wire)
  }

  // What the user interface and the listener send once connected.
  datatype Request = SendRequest(to: string, subject: string, body: string) | ListRequest | LogRequest | PongRequest

  function RequestLine(r: Request): string {
    match r
    case SendRequest(to, subject, body) => SendLine(to, subject, body)
    case ListRequest => Line("LIST_USERS", [])
    case LogRequest => Line("GET_LOG", [])
    case PongRequest => Line("PONG", [])
  }

  function AfterRequest(s: Session, r: Request, sendOk: bool): Session {
    if s.connected && s.socket >= 0 && sendOk then s.(wire := Wired(s.wire, s.socket, RequestLine(r))) else s
  }

  datatype ClientOp =
    | ConnectOp(username: string, attempt: Attempt)
    | DisconnectOp(sendOk: bool)
    | RequestOp(request: Request, sendOk: bool)

  function AfterClientOp(s: Session, op: ClientOp): Session {
    match op
    case ConnectOp(username, attempt) => AfterConnect(s, username, attempt)
    case DisconnectOp(sendOk) => AfterDisconnect(s, sendOk)
    case RequestOp(request, sendOk) => AfterRequest(s, request, sendOk)
  }

  // A new socket is a descriptor not used before.
  predicate FreshFd(s: Session, op: ClientOp) {
    op.ConnectOp? ==> op.attempt.fd !in s.wire
  }

  function SessionAfter(ops: seq<ClientOp>): Session {
    if ops == [] then FRESH else AfterClientOp(SessionAfter(ops[..|ops| - 1]), ops[|ops| - 1])
  }

  ghost predicate FreshFds(ops: seq<ClientOp>) {
    forall k | 0 <= k < |ops| :: FreshFd(SessionAfter(ops[..k]), ops[k])
  }

  // ------------------------------------------------------------------- one CONNECT

  predicate IsConnectLine(line: string) {
    Parsed(line).isValid && Parsed(line).command == "CONNECT"
  }

  ghost predicate OnlyFirstConnects(lines: seq<string>) {
    forall k | 0 < k < |lines| :: !IsConnectLine(lines[k])
  }

  ghost predicate SessionOk(s: Session) {
    && (s.connected ==> s.socket >= 0 && s.socket in s.wire && s.wire[s.socket] != [])
    && (forall fd | fd in s.wire :: OnlyFirstConnects(s.wire[fd]))
  }

  // What the server parses of the requests.
  lemma RequestsAreUnderstood(to: string, subject: string, body: string)
    requires Free(to, DELIMITER) && Free(subject, DELIMITER) && Free(body, DELIMITER)
    ensures Parsed(RequestLine(SendRequest(to, subject, body))) == ParsedMessage("SEND", [to, subject, body], true)
    ensures Parsed(RequestLine(ListRequest)) == ParsedMessage("LIST_USERS", [], true)
    ensures Parsed(RequestLine(LogRequest)) == ParsedMessage("GET_LOG", [], true)
    ensures Parsed(RequestLine(PongRequest)) == ParsedMessage("PONG", [], true)
  {
    hide Parsed, Line, Find;
    FieldsAreRead("SEND", [to, subject, body]);
    FieldsAreRead("LIST_USERS", []);
    FieldsAreRead("GET_LOG", []);
    FieldsAreRead("PONG", []);
  }

  // However its fields were filled in, no request reads as a CONNECT.
  lemma RequestIsNoConnect(r: Request)
    ensures !IsConnectLine(RequestLine(r))
  {
    hide Find, Pieces;
    match r
    case SendRequest(to, subject, body) =>
      FreeOfChar("SEND", DELIMITER_CHAR);
      BuiltFields("SEND", [to, subject, body]);
    case ListRequest => FreeOfChar("LIST_USERS", DELIMITER_CHAR); BuiltFields("LIST_USERS", []);
    case LogRequest => FreeOfChar("GET_LOG", DELIMITER_CHAR); BuiltFields("GET_LOG", []);
    case PongRequest => FreeOfChar("PONG", DELIMITER_CHAR); BuiltFields("PONG", []);
  }

  lemma DisconnectIsNoConnect()
    ensures !IsConnectLine(Line("DISCONNECT", []))
  {
    hide Find, Pieces;
    FreeOfChar("DISCONNECT", DELIMITER_CHAR);
    BuiltFields("DISCONNECT", []);
  }

  lemma OpKeepsSession(s: Session, op: ClientOp)
    requires SessionOk(s) && FreshFd(s, op)
    ensures SessionOk(AfterClientOp(s, op))
  {
    hide IsConnectLine, Line, RequestLine, Parsed;
    DisconnectIsNoConnect();
    if op.RequestOp? { RequestIsNoConnect(op.request); }
  }

  // Over any use of the client, every connection it opened has carried at most one
  // CONNECT line, its first.
  lemma {:induction false} OneConnectPerSocket(ops: seq<ClientOp>)
    requires FreshFds(ops)
    ensures SessionOk(SessionAfter(ops))
  {
    hide SessionOk, AfterClientOp, FreshFd;
    if ops == [] {
      FreshSession();
    } else {
      var before := ops[..|ops| - 1];
      assert forall k | 0 <= k < |before| :: before[..k] == ops[..k];
      OneConnectPerSocket(before);
      assert FreshFd(SessionAfter(ops[..|ops| - 1]), ops[|ops| - 1]);
      OpKeepsSession(SessionAfter(before), ops[|ops| - 1]);
    }
  }

  lemma FreshSession()
    ensures SessionOk(FRESH)
  {
  }

  // ---------------------------------------------------------- and so for the server

  // The lines of a run that arrived on one connection.
  function LinesOn(es: seq<Event>, conn: int): seq<string> {
    if es == [] then []
    else
      var e := es[|es| - 1];
      LinesOn(es[..|es| - 1], conn) + if e.Frame? && e.conn == conn then [e.raw] else []
  }

  lemma {:induction false} LineAt(es: seq<Event>, conn: int, j: nat)
    requires j < |es| && es[j].Frame? && es[j].conn == conn
    ensures |LinesOn(es[..j], conn)| < |LinesOn(es, conn)|
    ensures LinesOn(es, conn)[|LinesOn(es[..j], conn)|] == es[j].raw
    decreases |es|
  {
    var before := es[..|es| - 1];
    if j < |before| {
      assert before[..j] == es[..j];
      LineAt(before, conn, j);
    }
  }

  // If a CONNECT line is only ever the first of its connection, there is one on each.
  lemma FirstIsOnly(es: seq<Event>)
    requires forall e | e in es && e.Frame? :: OnlyFirstConnects(LinesOn(es, e.conn))
    ensures OneConnectEach(es)
  {
    hide Parsed;
    forall i, j | 0 <= i < j < |es| && es[i].Frame? && IsConnectOn(es[i], es[i].conn)
      ensures !IsConnectOn(es[j], es[i].conn)
    {
      var conn := es[i].conn;
      if es[j].Frame? && es[j].conn == conn {
        assert es[i] in es;
        LineAt(es, conn, j);
        LineAt(es[..j], conn, i);
        assert es[..j][..i] == es[..i];
        assert !IsConnectLine(LinesOn(es, conn)[|LinesOn(es[..j], conn)|]);
      }
    }
  }

  // The lines that arrived on a connection are a first part of what some use of the client
  // wrote to one of its sockets.
  ghost predicate ComesFromClient(es: seq<Event>, conn: int, ops: seq<ClientOp>, fd: int) {
    FreshFds(ops) && fd in SessionAfter(ops).wire && LinesOn(es, conn) <= SessionAfter(ops).wire[fd]
  }

  lemma ClientLines(es: seq<Event>, conn: int, ops: seq<ClientOp>, fd: int)
    requires ComesFromClient(es, conn, ops, fd)
    ensures OnlyFirstConnects(LinesOn(es, conn))
  {
    hide IsConnectLine, FreshFds;
    OneConnectPerSocket(ops);
    var lines, wire := LinesOn(es, conn), SessionAfter(ops).wire[fd];
    assert OnlyFirstConnects(wire);
    forall k | 0 < k < |lines| ensures !IsConnectLine(lines[k]) {
      assert lines[k] == wire[k];
    }
  }

  // Client and server together: when every connection is opened by the repository's client,
  // whatever its users do, the registry stays sound, every client is served and the clients
  // fit the pool.
  lemma ClientsAreServed(ws: seq<World>, es: seq<Event>, i: nat, uses: map<int, seq<ClientOp>>, fds: map<int, int>)
    requires IsRun(ws, es) && i < |ws|
    requires forall e | e in es && e.Frame? ::
               e.conn in uses && e.conn in fds && ComesFromClient(es, e.conn, uses[e.conn], fds[e.conn])
    ensures OneConnectEach(es)
    ensures Sound(ws[i]) && Served(ws[i]) && |ws[i].srv.clients| <= |ws[0].pool.workers|
  {
    hide IsRun, OneConnectEach, OneAnswerEach, ComesFromClient, OnlyFirstConnects, Sound, Served;
    forall e | e in es && e.Frame? ensures OnlyFirstConnects(LinesOn(es, e.conn)) {
      ClientLines(es, e.conn, uses[e.conn], fds[e.conn]);
    }
    FirstIsOnly(es);
    RunLengths(ws, es);
    OneConnectIsOneAnswer(ws, es);
    UndisturbedService(ws, es, i);
  }

  // --------------------------------------------------------------- the handshake

  // A connect succeeds exactly when every call does and the answer is an OK; an ERROR's
  // text is handed on.
  lemma ConnectSucceeds(s: Session, a: Attempt)
    ensures Refusal(s, a).None? <==>
            && !s.connected && a.fd >= 0 && a.addressOk && a.reached && a.sendOk
            && a.response.Some? && Parsed(a.response.value).isValid && Parsed(a.response.value).command == "OK"
    ensures !s.connected && a.fd >= 0 && a.addressOk && a.reached && a.sendOk && a.response.Some?
            ==> forall text | Free(text, DELIMITER) && a.response.value == Line("ERROR", [text]) :: Refusal(s, a) == Some(text)
  {
    hide Parsed, Line, Find;
    forall text | Free(text, DELIMITER) && a.response == Some(Line("ERROR", [text]))
      ensures Parsed(a.response.value) == ParsedMessage("ERROR", [text], true)
    {
      FieldsAreRead("ERROR", [text]);
    }
  }

  // Client and server: given the line the server answers the client's CONNECT with, the
  // client is connected exactly when the server has registered it, and then under the very
  // name typed exactly when that is free of the delimiter.
  lemma Handshake(s: Session, a: Attempt, name: string, srv: State, c: Settings, conn: int, env: Env)
    requires !s.connected && a.fd >= 0 && a.addressOk && a.reached && a.sendOk && Readable(c)
    requires var srv' := Handled(srv, c, Line("CONNECT", [name]), conn, env);
             |srv'.effects| > |srv.effects| && srv'.effects[|srv.effects|].Sent?
             && a.response == Some(srv'.effects[|srv.effects|].line)
    ensures var srv' := Handled(srv, c, Line("CONNECT", [name]), conn, env);
            var asked := Sanitized(Pieces(name, DELIMITER)[0]);
            && (AfterConnect(s, name, a).connected <==>
                  asked !in srv.clients && srv'.clients == srv.clients[asked := ClientInfo(conn, env.now)])
            && (AfterConnect(s, name, a).connected ==> (asked == name <==> Free(name, DELIMITER)))
  {
    hide Handled, Parsed, Line, EventOf, Find, Pieces, Sanitized, ValidUsername, Readable;
    var raw := Line("CONNECT", [name]);
    ConnectLineIsParsed(name);
    WelcomedIffRegistered(srv, c, raw, conn, env);
    ConnectSucceeds(s, a);
    OkIsEvent(a.response.value);
    ConnectIsAnswered(srv, c, raw, conn, env);
    if AfterConnect(s, name, a).connected {
      var asked := Sanitized(Pieces(name, DELIMITER)[0]);
      assert ValidUsername(c, asked);
      ValidNameIsWord(c, asked);
      SanitizedWord(Pieces(name, DELIMITER)[0]);
      FirstPiece(name);
    }
  }

  lemma ConnectLineIsParsed(name: string)
    ensures Parsed(Line("CONNECT", [name])) == ParsedMessage("CONNECT", Pieces(name, DELIMITER), true)
  {
    hide Find, Pieces, Parsed, Line;
    FreeOfChar("CONNECT", DELIMITER_CHAR);
    BuiltFields("CONNECT", [name]);
    AllPiecesCons(name, [], DELIMITER);
    assert [name] + [] == [name] && Pieces(name, DELIMITER) + [] == Pieces(name, DELIMITER);
  }

  lemma OkIsEvent(line: string)
    requires EventOf(line).Some? && EventOf(line).value.kind in {OK, ERROR_MSG}
    ensures EventOf(line).value.kind == OK <==> Parsed(line).isValid && Parsed(line).command == "OK"
  {
    hide Parsed;
  }

  lemma FirstPiece(name: string)
    ensures Pieces(name, DELIMITER)[0] == name <==> Free(name, DELIMITER)
  {
    hide MatchesAt;
    if Find(name, DELIMITER, 0).Some? { FoundFits(name, DELIMITER, 0); }
  }

  // ------------------------------------------------------------------- the object

  class Client {
    var clientSocket: int
    var isConnected: bool
    var username: string
    ghost var wire: map<int, seq<string>>

    ghost function View(): Session
      reads this
    {
      Session(clientSocket, isConnected, username, wire)
    }

    constructor ()
      ensures View() == FRESH
    {
      clientSocket, isConnected, username := -1, false, "";
      wire := map[];
    }

    method Connect(name: string, a: Attempt) returns (ok: bool, outError: string)
      requires SessionOk(View()) && FreshFd(View(), ConnectOp(name, a))
      modifies this
      ensures SessionOk(View()) && View() == AfterConnect(old(View()), name, a)
      ensures wire == if !old(isConnected) && a.fd >= 0 && a.addressOk && a.reached && a.sendOk
                      then Wired(old(wire), a.fd, Line("CONNECT", [name])) else old(wire)
      ensures ok ==> isConnected && clientSocket == a.fd && username == name
      ensures !ok ==> isConnected == old(isConnected) && username == old(username)
                      && clientSocket == if old(isConnected) || a.fd < 0 then old(clientSocket) else -1
      ensures ok == Refusal(old(View()), a).None? && (!ok ==> Some(outError) == Refusal(old(View()), a))
    {
      hide Line, IsConnectLine;
      OpKeepsSession(View(), ConnectOp(name, a));
      outError := "";
      if isConnected {
        return false, "Already connected";
      }
      if a.fd < 0 {
        return false, "Socket creation failed";
      }
      clientSocket := a.fd;
      if !a.addressOk {
        clientSocket := -1;
        return false, "Invalid address: " + a.address;
      }
      if !a.reached {
        clientSocket := -1;
        return false, "Cannot connect to server";
      }
      var line := Build("CONNECT", [name]);
      if !a.sendOk {
        clientSocket := -1;
        return false, "Failed to send connection request";
      }
      wire := Wired(wire, a.fd, line);
      if a.response.None? {
        clientSocket := -1;
        return false, "No response from server";
      }
      var parsed := Parse(a.response.value);
      if !parsed.isValid || parsed.command != "OK" {
        outError := if parsed.isValid && parsed.command == "ERROR" && parsed.ArgCount() > 0 then parsed.Arg(0)
                    else "Connection refused";
        clientSocket := -1;
        return false, outError;
      }
      username := name;
      isConnected := true;
      return true, "";
    }

    method Disconnect(sendOk: bool)
      requires SessionOk(View())
      modifies this
      ensures SessionOk(View()) && View() == AfterDisconnect(old(View()), sendOk)
      ensures !isConnected && username == old(username)
      ensures if !old(isConnected) then View() == old(View())
              else clientSocket == -1
                   && wire == if sendOk then old(wire)[old(clientSocket) := old(wire)[old(clientSocket)] + [Line("DISCONNECT", [])]]
                              else old(wire)
    {
      OpKeepsSession(View(), DisconnectOp(sendOk));
      if !isConnected {
        return;
      }
      if clientSocket >= 0 && sendOk {
        var line := Build("DISCONNECT", []);
        wire := Wired(wire, clientSocket, line);
      }
      clientSocket := -1;
      isConnected := false;
    }
  }
}
