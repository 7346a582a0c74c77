// Runs of the whole server: connections, pool workers, client lines, administrator
// commands, the heartbeat, the dispatcher and the configuration, interleaved in any
// order. A handler call is one step.
module System {
  import opened Wrappers
  import opened Text
  import opened Codec
  import opened Numbers
  import opened Config
  import opened Dispatch
  import opened Mailbox
  import opened Sessions
  import opened Forwarding
  import Pool

  // pool.enqueued are the connections accepted so far; registered remembers which
  // connection ever registered which name.
  datatype World = World(srv: State, pool: Pool.PoolState, registered: set<(int, string)>, config: Settings)

  datatype Event =
    | Accept(conn: int)
    | PoolStep(step: Pool.Step)
    | Frame(worker: nat, conn: int, raw: string, env: Env)
    | Hangup(worker: nat, conn: int, who: string)
    | KickUser(name: string)
    | BanUser(name: string)
    | UnbanUser(name: string)
    | Announce(order: seq<string>, text: string)
    | AdminSend(name: string, text: string)
    | PingRound(order: seq<string>)
    | Evict(name: string, who: string)
    | DispatcherTake
    | DispatcherDeliver(sendOk: bool)
    | Configure(op: ConfigOp)

  // The server starts with the bans of its file and nobody connected.
  ghost predicate Initial(w: World) {
    && w.srv == State(map[], w.srv.banned, EmptyLedger(w.srv.ledger.capacity, w.srv.ledger.policy), 0, [])
    && w.srv.ledger.capacity >= 1
    && (forall n | n in w.srv.banned :: PlainLine(n))
    && w.pool == Pool.FreshPool(|w.pool.workers|)
    && w.registered == {} && w.config == Defaults()
  }

  ghost predicate IsClosed(s: State, conn: int) {
    Closed(conn) in s.effects
  }

  // A line is handled by the worker looping on its connection. It was received before, so
  // by now the connection may have been closed.
  ghost predicate Enabled(w: World, e: Event) {
    match e
    case Accept(conn) => conn > 0 && conn !in w.pool.enqueued
    case PoolStep(step) => (step.Notify? || step.Look? || step.Spurious?) && Pool.Enabled(w.pool, step)
    case Frame(worker, conn, raw, env) =>
      && Pool.Is(w.pool, worker, Pool.Running(conn))
      && NamesSocket(w.srv.clients, conn, env.who) && Enumerates(env.order, w.srv.clients.Keys)
      && LONG_LONG_MIN <= env.stamp <= LONG_LONG_MAX
    case Hangup(worker, conn, who) =>
      Pool.Is(w.pool, worker, Pool.Running(conn)) && NamesSocket(w.srv.clients, conn, who)
    case KickUser(_) => true
    case BanUser(_) => true
    case UnbanUser(_) => true
    case Announce(order, _) => Enumerates(order, w.srv.clients.Keys)
    case AdminSend(_, _) => true
    case PingRound(order) => Enumerates(order, w.srv.clients.Keys)
    case Evict(name, who) => name in w.srv.clients && NamesSocket(w.srv.clients, w.srv.clients[name].socket, who)
    case DispatcherTake => w.srv.ledger.queue != [] && w.srv.ledger.flight == None
    case DispatcherDeliver(_) =>
      w.srv.ledger.flight.Some? && w.srv.ledger.flight.value < |w.srv.ledger.fates| <= |w.srv.ledger.accepted|
    case Configure(_) => true
  }

  // The name a line asks to register, if it is a CONNECT with a valid one.
  function RequestedName(w: World, raw: string): Option<string> {
    var p := Parsed(raw);
    if p.isValid && p.command == "CONNECT" && |p.arguments| >= 1 && ValidUsername(w.config, Sanitized(p.arguments[0]))
    then Some(Sanitized(p.arguments[0])) else None
  }

  predicate Registers(w: World, raw: string) {
    var name := RequestedName(w, raw);
    name.Some? && name.value !in w.srv.banned && name.value !in w.srv.clients
  }

  ghost function After(w: World, e: Event): World
    requires Enabled(w, e)
  {
    match e
    case Accept(conn) => w.(pool := Pool.After(w.pool, Pool.Push(conn)))
    case PoolStep(step) => w.(pool := Pool.After(w.pool, step))
    case Frame(_, conn, raw, env) =>
      w.(srv := Handled(w.srv, w.config, raw, conn, env),
         registered := w.registered + if Registers(w, raw) then {(conn, RequestedName(w, raw).value)} else {})
    case Hangup(worker, conn, who) =>
      w.(srv := Disconnected(w.srv, conn, who), pool := Pool.After(w.pool, Pool.Finish(worker)))
    case KickUser(name) => w.(srv := Kicked(w.srv, name, "You have been disconnected by admin"))
    case BanUser(name) => w.(srv := Banned(w.srv, name))
    case UnbanUser(name) => w.(srv := Unbanned(w.srv, name))
    case Announce(order, text) => w.(srv := Announced(w.srv, order, text))
    case AdminSend(name, text) => w.(srv := AdminSent(w.srv, name, text))
    case PingRound(order) => w.(srv := PingedAll(w.srv, order))
    case Evict(name, who) => w.(srv := Evicted(w.srv, name, who))
    case DispatcherTake => w.(srv := w.srv.(ledger := Taken(w.srv.ledger)))
    case DispatcherDeliver(sendOk) => w.(srv := Relayed(w.srv, sendOk))
    case Configure(op) => w.(config := AfterOp(w.config, op))
  }

  ghost predicate IsRun(ws: seq<World>, es: seq<Event>) {
    && |ws| == |es| + 1 && Initial(ws[0])
    && forall i | 0 <= i < |es| :: Enabled(ws[i], es[i]) && ws[i + 1] == After(ws[i], es[i])
  }

  // ----------------------------------------------- what one line does to the registry

  datatype Change = Nothing | Register(name: string) | Refuse | Leave(who: string) | Beat(who: string)

  function ChangeOf(w: World, raw: string, env: Env): Change {
    var p := Parsed(raw);
    var name := RequestedName(w, raw);
    if !p.isValid then Nothing
    else if name.Some? then
      if name.value in w.srv.banned then Refuse
      else if name.value in w.srv.clients then Nothing
      else Register(name.value)
    else if p.command == "DISCONNECT" && env.who != "" then Leave(env.who)
    else if p.command == "PONG" && env.who != "" then Beat(env.who)
    else Nothing
  }

  ghost predicate Replies(effects: seq<Effect>, conn: int) {
    forall e | e in effects :: e.Sent? && e.socket == conn && e.origin == Reply && !IsMessage(e.line)
  }

  // The registry, the closes and the ledger after one line, by kind of change.
  ghost predicate ChangedBy(w: World, s': State, conn: int, env: Env, change: Change) {
    var s := w.srv;
    && s'.banned == s.banned
    && s'.clients == (match change
                      case Register(name) => s.clients[name := ClientInfo(conn, env.now)]
                      case Leave(who) => s.clients - {who}
                      case Beat(who) =>
                        if who in s.clients then s.clients[who := s.clients[who].(lastPong := env.now)] else s.clients
                      case _ => s.clients)
    && s.effects <= s'.effects
    && (if change.Refuse? || change.Leave? then
          |s'.effects| > |s.effects| && s'.effects[|s'.effects| - 1] == Closed(conn)
          && Replies(s'.effects[|s.effects|..|s'.effects| - 1], conn)
        else Replies(s'.effects[|s.effects|..], conn))
    && (!change.Nothing? ==> s'.ledger == s.ledger)
  }

  lemma ReplyIsNoMessage(command: string, args: seq<string>)
    requires command in {"OK", "ERROR", "USERS", "LOG", "PONG", "PING"}
    ensures !IsMessage(Line(command, args))
  {
    hide Line, IsMessage, Find;
    FreeOfChar(command, DELIMITER_CHAR);
    OtherCommandIsNoMessage(command, args);
  }

  lemma RoutedReplies(s: State, m: Message, socket: int, order: seq<string>)
    ensures var s' := Routed(s, m, socket, order);
            && s'.banned == s.banned && s'.clients == s.clients
            && s.effects <= s'.effects && Replies(s'.effects[|s.effects|..], socket)
  {
    hide Line, IsMessage, OfferedAll, Offered, Others, Addressed, SocketOf, Accepts;
    ReplyIsNoMessage("OK", ["Broadcast sent"]);
    ReplyIsNoMessage("OK", ["Message sent"]);
    ReplyIsNoMessage("ERROR", [QUEUE_FULL]);
    ReplyIsNoMessage("ERROR", ["User '" + m.to + "' does not exist or is offline"]);
  }

  lemma SubmittedReplies(s: State, c: Settings, data: seq<string>, socket: int, env: Env)
    ensures var s' := Submitted(s, c, data, socket, env);
            && s'.banned == s.banned && s'.clients == s.clients
            && s.effects <= s'.effects && Replies(s'.effects[|s.effects|..], socket)
  {
    hide Line, IsMessage, Sanitized, ValidSubject, Routed;
    ReplyIsNoMessage("ERROR", ["Malformed message: missing fields"]);
    ReplyIsNoMessage("ERROR", ["Not authenticated"]);
    ReplyIsNoMessage("ERROR", ["Subject too long (max 100 chars)"]);
    ReplyIsNoMessage("ERROR", ["Body is empty"]);
    if |data| >= 4 {
      var m := Message(env.who, Sanitized(data[1]), Sanitized(data[2]), Sanitized(data[3]), env.stamp);
      RoutedReplies(s.(received := s.received + 1), m, socket, env.order);
    }
  }

  lemma ConnectedChange(w: World, data: seq<string>, conn: int, env: Env)
    requires |data| >= 2
    ensures var name := Sanitized(data[1]);
            ChangedBy(w, Connected(w.srv, w.config, data, conn, env.now), conn, env,
              if !ValidUsername(w.config, name) then Nothing
              else if name in w.srv.banned then Refuse
              else if name in w.srv.clients then Nothing
              else Register(name))
  {
    hide Line, IsMessage, ValidUsername, Sanitized;
    ReplyIsNoMessage("ERROR", ["Invalid username"]);
    ReplyIsNoMessage("ERROR", ["You are banned from this server"]);
    ReplyIsNoMessage("ERROR", ["Username already exists"]);
    ReplyIsNoMessage("OK", ["Connected as " + Sanitized(data[1])]);
  }

  lemma HandledChange(w: World, raw: string, conn: int, env: Env)
    ensures ChangedBy(w, Handled(w.srv, w.config, raw, conn, env), conn, env, ChangeOf(w, raw, env))
  {
    hide Parsed, Line, IsMessage, ValidUsername, Connected, Submitted, LogReply;
    var p := Parsed(raw);
    var data := [p.command] + p.arguments;
    if p.isValid {
      if p.command == "CONNECT" {
        if |data| >= 2 {
          ConnectedChange(w, data, conn, env);
          assert data[1] == p.arguments[0];
        } else {
          assert Connected(w.srv, w.config, data, conn, env.now) == w.srv by { EmptyConnect(w, data, conn, env); }
        }
      } else if p.command == "SEND" {
        SubmittedReplies(w.srv, w.config, data, conn, env);
      } else {
        ReplyIsNoMessage("PONG", []);
        ReplyIsNoMessage("USERS", [Join(env.order, ",")]);
        LogIsNoMessage(env.log);
        ReplyIsNoMessage("ERROR", ["Unknown command: " + p.command]);
        PongLine();
      }
    }
  }

  lemma LogIsNoMessage(log: Option<seq<string>>)
    ensures !IsMessage(LogReply(log))
  {
    hide Line, IsMessage, TextOfLines;
    ReplyIsNoMessage("ERROR", ["Log file not available"]);
    ReplyIsNoMessage("LOG", ["Log file is empty"]);
    if log.Some? { ReplyIsNoMessage("LOG", [TextOfLines(log.value[LogStart(log.value)..])]); }
  }

  lemma EmptyConnect(w: World, data: seq<string>, conn: int, env: Env)
    requires |data| < 2
    ensures Connected(w.srv, w.config, data, conn, env.now) == w.srv
  {
  }

  lemma PongLine()
    ensures Line("PONG", []) == "PONG\n" && Line("PING", []) == "PING\n"
  {
    assert ["PONG"] + [] == ["PONG"] && ["PING"] + [] == ["PING"];
  }
}
