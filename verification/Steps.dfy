// The objects take the steps of module System: from the construction of the server on, each
// call of a handler is an enabled event, so what is proved about runs holds of the objects.
module Steps {
  import opened Wrappers
  import opened Numbers
  import opened Config
  import opened Dispatch
  import opened Sessions
  import opened System
  import opened Safety
  import opened ServerObjects
  import opened Handlers
  import Pool
  import Text

  // The object is in the last state of a run.
  ghost predicate Reached(server: Server, ws: seq<World>, es: seq<Event>)
    reads server, server.dispatcher
  {
    server.Valid() && IsRun(ws, es) && |ws| == |es| + 1 && ws[|es|].srv == server.View()
  }

  // The object is where one more event takes the run.
  ghost predicate Stepped(server: Server, ws: seq<World>, es: seq<Event>, e: Event)
    reads server, server.dispatcher
  {
    server.Valid() && |ws| == |es| + 1 && Enabled(ws[|es|], e) && After(ws[|es|], e).srv == server.View()
  }

  lemma SteppedIsReached(server: Server, ws: seq<World>, es: seq<Event>, e: Event)
    requires IsRun(ws, es) && Stepped(server, ws, es, e)
    ensures Reached(server, ws + [After(ws[|es|], e)], es + [e])
  {
    hide IsRun, Enabled, After;
    RunExtends(ws, es, e);
  }

  // So at any point of its life a server object has no registered name that is banned, and
  // its ban list survives being saved and loaded.
  lemma ReachedIsSafe(server: Server, ws: seq<World>, es: seq<Event>, order: seq<string>)
    requires Reached(server, ws, es) && Enumerates(order, server.bannedUsers)
    ensures forall n | n in server.clients :: n !in server.bannedUsers
    ensures BansIn(BanFile(order)) == server.bannedUsers
  {
    hide IsRun, BansIn, BanFile;
    BansPersist(ws, es, |es|, order);
  }

  // Construction and the first load of the ban file.
  method Start(file: Option<string>, workers: nat) returns (server: Server, ghost w: World)
    ensures fresh(server) && fresh(server.dispatcher) && server.Valid()
    ensures Initial(w) && w.srv == server.View() && |w.pool.workers| == workers
  {
    server := new Server();
    server.banlistFile := file;
    server.LoadBanlist();
    if file.Some? { LinesArePlain(file.value); }
    w := World(server.View(), Pool.FreshPool(workers), {}, Defaults());
  }

  // Accepting, scheduling and configuring leave the server object alone.
  lemma QuietStep(server: Server, ws: seq<World>, es: seq<Event>, e: Event)
    requires Reached(server, ws, es) && Enabled(ws[|es|], e) && (e.Accept? || e.PoolStep? || e.Configure?)
    ensures Stepped(server, ws, es, e)
  {
    hide IsRun;
  }

  method OnLine(h: CommandHandler, c: Settings, message: Option<string>, socket: int, now: int, stamp: int,
                log: Option<seq<string>>, ghost ws: seq<World>, ghost es: seq<Event>, ghost worker: nat) returns (ghost e: Event)
    requires Reached(h.server, ws, es) && c == ws[|es|].config
    requires Pool.Is(ws[|es|].pool, worker, Pool.Running(socket)) && LONG_LONG_MIN <= stamp <= LONG_LONG_MAX
    modifies h.server, h.server.dispatcher
    ensures Stepped(h.server, ws, es, e)
    ensures match message case None => e.Hangup? case Some(raw) => e.Frame? && e.raw == raw
    ensures (e.Hangup? || e.Frame?) && e.conn == socket && e.worker == worker
  {
    hide IsRun, Handled, Registers, RequestedName, Disconnected, Conserved;
    var env := h.HandleLine(c, message, socket, now, stamp, log);
    e := match message
         case None => Hangup(worker, socket, env.who)
         case Some(raw) => Frame(worker, socket, raw, env);
  }

  method OnKick(h: AdminCommandHandler, args: seq<string>, ghost ws: seq<World>, ghost es: seq<Event>)
    requires Reached(h.server, ws, es) && |args| >= 2
    modifies h.server
    ensures Stepped(h.server, ws, es, KickUser(args[1]))
  {
    hide IsRun, Kicked, Conserved;
    h.CmdKick(args);
  }

  method OnBan(h: AdminCommandHandler, args: seq<string>, writable: bool, ghost ws: seq<World>, ghost es: seq<Event>)
    requires Reached(h.server, ws, es) && |args| >= 2
    modifies h.server
    ensures Stepped(h.server, ws, es, BanUser(args[1]))
  {
    hide IsRun, Banned, Conserved;
    h.CmdBan(args, writable);
  }

  method OnUnban(h: AdminCommandHandler, args: seq<string>, writable: bool, ghost ws: seq<World>, ghost es: seq<Event>)
    requires Reached(h.server, ws, es) && |args| >= 2
    modifies h.server
    ensures Stepped(h.server, ws, es, UnbanUser(args[1]))
  {
    hide IsRun, Unbanned, Conserved;
    h.CmdUnban(args, writable);
  }

  method OnBroadcast(h: AdminCommandHandler, text: string, ghost ws: seq<World>, ghost es: seq<Event>) returns (ghost e: Event)
    requires Reached(h.server, ws, es)
    modifies h.server
    ensures Stepped(h.server, ws, es, e) && e.Announce? && e.text == text
  {
    hide IsRun, SentToAll, Conserved;
    var order := h.TypedBroadcast(text);
    e := Announce(order, text);
  }

  method OnSend(h: AdminCommandHandler, args: seq<string>, ghost ws: seq<World>, ghost es: seq<Event>) returns (ghost e: Event)
    requires Reached(h.server, ws, es) && |args| >= 3
    modifies h.server
    ensures Stepped(h.server, ws, es, e) && e.AdminSend? && e.name == args[1]
  {
    hide IsRun, AdminSent, Conserved;
    h.CmdSend(args);
    e := AdminSend(args[1], Text.Join(args[2..], " "));
  }

  method OnPings(h: CommandHandler, ghost ws: seq<World>, ghost es: seq<Event>) returns (ghost e: Event)
    requires Reached(h.server, ws, es)
    modifies h.server
    ensures Stepped(h.server, ws, es, e) && e.PingRound?
  {
    hide IsRun, SentToAll, Conserved;
    var order := h.PingClients();
    e := PingRound(order);
  }

  // One client of the eviction loop, if it is still registered.
  method OnEvict(h: CommandHandler, name: string, ghost ws: seq<World>, ghost es: seq<Event>) returns (ghost e: Event)
    requires Reached(h.server, ws, es) && name in h.server.clients
    modifies h.server
    ensures Stepped(h.server, ws, es, e) && e.Evict? && e.name == name
  {
    hide IsRun, Evicted, Conserved;
    var who := h.EvictOne(name);
    e := Evict(name, who);
  }

  // The two halves of the dispatcher's loop body.
  method OnTake(h: CommandHandler, ghost ws: seq<World>, ghost es: seq<Event>) returns (msg: Option<Message>)
    requires Reached(h.server, ws, es) && h.server.dispatcher.flight == None
    modifies h.server.dispatcher
    ensures msg.Some? ==> Stepped(h.server, ws, es, DispatcherTake)
    ensures msg.None? ==> Reached(h.server, ws, es)
    ensures msg.Some? ==> h.server.dispatcher.flight.Some? && InFlightIs(h.server, msg.value)
  {
    hide IsRun;
    msg := h.server.dispatcher.TakeNext(true);
  }

  ghost predicate InFlightIs(server: Server, msg: Message)
    reads server, server.dispatcher
  {
    var d := server.dispatcher;
    d.flight.Some? && d.flight.value < |d.accepted| && d.accepted[d.flight.value] == msg
  }

  method OnDeliver(h: CommandHandler, msg: Message, sendOk: bool, ghost ws: seq<World>, ghost es: seq<Event>)
    requires Reached(h.server, ws, es) && InFlightIs(h.server, msg)
    modifies h.server, h.server.dispatcher
    ensures Stepped(h.server, ws, es, DispatcherDeliver(sendOk))
  {
    hide IsRun, Relayed;
    h.Deliver(msg, sendOk);
  }
}
