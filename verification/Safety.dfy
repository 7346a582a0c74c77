// What every run of the server keeps: the registry, the connections, the workers and
// the bans; and exactly which step can break it.
module Safety {
  import opened Wrappers
  import opened Text
  import opened Codec
  import opened Config
  import opened Dispatch
  import opened Sessions
  import opened Forwarding
  import opened Replies
  import opened System
  import Mailbox
  import Pool

  // ------------------------------------------------------------------ definitions

  // getUserSocket and getUsernameBySocket undo each other.
  ghost predicate Injective(clients: Clients) {
    forall m, n | m in clients && n in clients && clients[m].socket == clients[n].socket :: m == n
  }

  ghost predicate OpenSockets(w: World) {
    forall n | n in w.srv.clients ::
      && w.srv.clients[n].socket > 0
      && w.srv.clients[n].socket in w.pool.enqueued
      && !IsClosed(w.srv, w.srv.clients[n].socket)
  }

  ghost predicate ClosedOnce(effects: seq<Effect>) {
    forall i, j | 0 <= i < j < |effects| && effects[i].Closed? :: effects[j] != effects[i]
  }

  // No two names share a socket, every registered socket is open, nothing is closed twice.
  ghost predicate Sound(w: World) {
    Injective(w.srv.clients) && OpenSockets(w) && ClosedOnce(w.srv.effects)
  }

  // A line that asks for a valid name which is banned or free: the server closes the
  // connection or registers the name for it.
  predicate Answered(w: World, e: Event) {
    e.Frame? && RequestedName(w, e.raw).Some?
    && (RequestedName(w, e.raw).value in w.srv.banned || RequestedName(w, e.raw).value !in w.srv.clients)
  }

  // The same on a connection that is registered already, or has been closed since the line
  // was received. The server has no guard against either.
  ghost predicate Disruptive(w: World, e: Event) {
    Answered(w, e) && (e.env.who in w.srv.clients || IsClosed(w.srv, e.conn))
  }

  // Connections are fresh and every one is queued, served by one worker, or done.
  ghost predicate Plumbing(w: World) {
    Pool.OneWorkerEach(w.pool) && Pool.Distinct(w.pool.enqueued) && forall c | c in w.pool.enqueued :: c > 0
  }

  // Some worker is looping on the socket.
  ghost predicate Served(w: World) {
    forall n | n in w.srv.clients :: exists k: nat :: Pool.Is(w.pool, k, Pool.Running(w.srv.clients[n].socket))
  }

  // Registered names are words and none of them is banned; banned names fit the ban file.
  ghost predicate NamesOk(names: set<string>, banned: set<string>) {
    && names !! banned
    && (forall n | n in names :: IsWord(n) && |n| <= 100)
    && (forall n | n in banned :: PlainLine(n))
  }

  ghost predicate BansHold(w: World) {
    NamesOk(w.srv.clients.Keys, w.srv.banned) && Readable(w.config)
  }

  // ------------------------------------------------------------- effects of a step

  lemma QuietEffects(before: seq<Effect>, after: seq<Effect>)
    requires before <= after && forall e | e in after[|before|..] :: e.Sent?
    ensures ClosedOnce(before) ==> ClosedOnce(after)
    ensures forall c :: Closed(c) in after <==> Closed(c) in before
  {
    forall i | |before| <= i < |after| ensures after[i].Sent? {
      assert after[i] == after[|before|..][i - |before|];
    }
  }

  lemma ClosingEffects(before: seq<Effect>, after: seq<Effect>, conn: int)
    requires before <= after && |after| > |before| && after[|after| - 1] == Closed(conn)
    requires forall e | e in after[|before|..|after| - 1] :: e.Sent?
    ensures ClosedOnce(before) && Closed(conn) !in before ==> ClosedOnce(after)
    ensures forall c :: Closed(c) in after <==> Closed(c) in before || c == conn
  {
    forall i | |before| <= i < |after| - 1 ensures after[i].Sent? {
      assert after[i] == after[|before|..|after| - 1][i - |before|];
    }
  }

  lemma FrameEffects(w: World, s': State, conn: int, env: Env, change: Change)
    requires ChangedBy(w, s', conn, env, change)
    ensures if change.Refuse? || change.Leave? then
              (forall c :: Closed(c) in s'.effects <==> Closed(c) in w.srv.effects || c == conn)
              && (ClosedOnce(w.srv.effects) && !IsClosed(w.srv, conn) ==> ClosedOnce(s'.effects))
            else
              (forall c :: Closed(c) in s'.effects <==> Closed(c) in w.srv.effects)
              && (ClosedOnce(w.srv.effects) ==> ClosedOnce(s'.effects))
  {
    if change.Refuse? || change.Leave? {
      ClosingEffects(w.srv.effects, s'.effects, conn);
    } else {
      QuietEffects(w.srv.effects, s'.effects);
    }
  }

  // Steps other than lines: what they do to the registry.
  ghost predicate ClientGone(s: State, s': State, name: string, socket: int) {
    && name in s.clients && s.clients[name].socket == socket
    && s'.clients == s.clients - {name}
    && (forall c :: Closed(c) in s'.effects <==> Closed(c) in s.effects || c == socket)
    && (ClosedOnce(s.effects) && !IsClosed(s, socket) ==> ClosedOnce(s'.effects))
  }

  ghost predicate ClientsKept(s: State, s': State) {
    && s'.clients == s.clients
    && (forall c :: Closed(c) in s'.effects <==> Closed(c) in s.effects)
    && (ClosedOnce(s.effects) ==> ClosedOnce(s'.effects))
  }

  lemma KickedEffect(s: State, name: string, reason: string)
    ensures if SocketOf(s.clients, name) > 0 then ClientGone(s, Kicked(s, name, reason), name, s.clients[name].socket)
            else Kicked(s, name, reason) == s
    ensures Kicked(s, name, reason).banned == s.banned && Kicked(s, name, reason).ledger == s.ledger
  {
    hide Line;
    if SocketOf(s.clients, name) > 0 {
      ClosingEffects(s.effects, Kicked(s, name, reason).effects, s.clients[name].socket);
    }
  }

  lemma DisconnectedEffect(s: State, socket: int, who: string)
    requires NamesSocket(s.clients, socket, who)
    ensures if who in s.clients && who != "" then ClientGone(s, Disconnected(s, socket, who), who, socket)
            else Disconnected(s, socket, who) == s
  {
    if who in s.clients && who != "" {
      ClosingEffects(s.effects, Disconnected(s, socket, who).effects, socket);
    }
  }

  lemma SentEffect(s: State, s': State)
    requires s'.clients == s.clients && s.effects <= s'.effects
    requires forall e | e in s'.effects[|s.effects|..] :: e.Sent?
    ensures ClientsKept(s, s')
  {
    QuietEffects(s.effects, s'.effects);
  }

  lemma RelayedEffect(s: State, sendOk: bool)
    requires s.ledger.flight.Some? && s.ledger.flight.value < |s.ledger.fates| <= |s.ledger.accepted|
    ensures ClientsKept(s, Relayed(s, sendOk)) && Relayed(s, sendOk).banned == s.banned
  {
    hide Line, RelayLine, ClosedOnce;
    SentEffect(s, Relayed(s, sendOk));
  }

  lemma SentToAllEffect(s: State, order: seq<string>, line: string, origin: Origin)
    requires forall n | n in order :: n in s.clients
    ensures ClientsKept(s, SentToAll(s, order, line, origin))
  {
    hide ClosedOnce;
    SentEffect(s, SentToAll(s, order, line, origin));
  }

  // Every event but a line or an accept, in one of two shapes.
  lemma OtherEffect(w: World, e: Event)
    requires Enabled(w, e) && !e.Frame?
    ensures var s, s' := w.srv, After(w, e).srv;
            || ClientsKept(s, s')
            || (exists name :: name in s.clients && ClientGone(s, s', name, s.clients[name].socket)
                               && (e.KickUser? || e.BanUser? || e.Hangup? || e.Evict?)
                               && (e.Hangup? ==> s.clients[name].socket == e.conn))
    ensures e.Hangup? && e.who != "" && e.who in w.srv.clients ==> e.who !in After(w, e).srv.clients
  {
    hide Line, ClosedOnce, SentToAll, Kicked, Relayed, Taken, AdminLine;
    var s := w.srv;
    match e
    case Hangup(_, conn, who) => DisconnectedEffect(s, conn, who);
    case KickUser(name) => KickedEffect(s, name, "You have been disconnected by admin");
    case BanUser(name) => KickedEffect(s, name, "You have been banned by admin");
    case Evict(name, who) => DisconnectedEffect(s, s.clients[name].socket, who);
    case Announce(order, text) => SentToAllEffect(s, order, AdminLine("Announcement", text), Admin);
    case AdminSend(name, text) => SentEffect(s, After(w, e).srv);
    case PingRound(order) => SentToAllEffect(s, order, "PING\n", Reply);
    case DispatcherDeliver(sendOk) => RelayedEffect(s, sendOk);
    case _ =>
  }

  // --------------------------------------------------------------- one sound step

  lemma WorkerConnIsKnown(w: World, worker: nat, conn: int)
    requires Plumbing(w) && Pool.Is(w.pool, worker, Pool.Running(conn))
    ensures conn > 0 && conn in w.pool.enqueued
  {
    assert conn in w.pool.started + w.pool.tasks;
  }

  lemma FrameKeepsSound(w: World, e: Event)
    requires Sound(w) && Plumbing(w) && e.Frame? && Enabled(w, e) && !Disruptive(w, e)
    ensures Sound(After(w, e))
  {
    hide ChangeOf, Handled, RequestedName, Registers, ClosedOnce;
    var change := ChangeOf(w, e.raw, e.env);
    var s' := Handled(w.srv, w.config, e.raw, e.conn, e.env);
    HandledChange(w, e.raw, e.conn, e.env);
    FrameEffects(w, s', e.conn, e.env, change);
    WorkerConnIsKnown(w, e.worker, e.conn);
    ChangeNeedsRequest(w, e.raw, e.env);
  }

  // Registering and refusing are what a non-disruptive line does only for a new connection.
  lemma ChangeNeedsRequest(w: World, raw: string, env: Env)
    ensures var change := ChangeOf(w, raw, env);
            && (change.Register? ==> RequestedName(w, raw) == Some(change.name) && change.name !in w.srv.clients
                                     && change.name !in w.srv.banned && Registers(w, raw))
            && (!change.Register? ==> !Registers(w, raw))
            && (change.Refuse? ==> RequestedName(w, raw).Some? && RequestedName(w, raw).value in w.srv.banned)
            && (RequestedName(w, raw).Some? && RequestedName(w, raw).value in w.srv.banned ==> change.Refuse?)
            && (Registers(w, raw) ==> change.Register?)
            && (change.Leave? ==> change.who == env.who != "")
            && (change.Beat? ==> change.who == env.who != "")
  {
    hide ValidUsername, Sanitized, Parsed;
  }

  lemma OtherKeepsSound(w: World, e: Event)
    requires Sound(w) && !e.Frame? && Enabled(w, e)
    ensures Sound(After(w, e))
  {
    hide ClosedOnce;
    OtherEffect(w, e);
    PoolGrows(w, e);
  }

  lemma PoolGrows(w: World, e: Event)
    requires Enabled(w, e)
    ensures w.pool.enqueued <= After(w, e).pool.enqueued
    ensures |After(w, e).pool.workers| == |w.pool.workers|
  {
    hide Handled, RequestedName, Registers;
  }

  // The step that breaks the registry: two names on one socket, a closed socket that is
  // registered, or a socket closed twice.
  lemma DisruptionBreaks(w: World, e: Event)
    requires Sound(w) && Enabled(w, e) && Disruptive(w, e)
    ensures !Sound(After(w, e))
  {
    hide Handled, RequestedName, Registers, ClosedOnce;
    var change := ChangeOf(w, e.raw, e.env);
    var s' := Handled(w.srv, w.config, e.raw, e.conn, e.env);
    HandledChange(w, e.raw, e.conn, e.env);
    FrameEffects(w, s', e.conn, e.env, change);
    ChangeNeedsRequest(w, e.raw, e.env);
    AnsweredRegistersOrRefuses(w, e);
    if change.Refuse? {
      if IsClosed(w.srv, e.conn) {
        ClosedTwice(w.srv.effects, s'.effects, e.conn);
      }
    } else if e.env.who in w.srv.clients {
      assert change.name != e.env.who && s'.clients[change.name].socket == s'.clients[e.env.who].socket;
    } else {
      assert s'.clients[change.name].socket == e.conn && IsClosed(s', e.conn);
    }
  }

  lemma ClosedTwice(before: seq<Effect>, after: seq<Effect>, conn: int)
    requires before < after && Closed(conn) in before && after[|after| - 1] == Closed(conn)
    ensures !ClosedOnce(after)
  {
    var i :| 0 <= i < |before| && before[i] == Closed(conn);
    assert after[i] == after[|after| - 1];
  }

  lemma AnsweredRegistersOrRefuses(w: World, e: Event)
    requires Answered(w, e)
    ensures ChangeOf(w, e.raw, e.env).Register? || ChangeOf(w, e.raw, e.env).Refuse?
  {
    hide ValidUsername, Sanitized, Parsed;
  }

  // ----------------------------------------------------------- invariants of all runs

  lemma StepKeepsPlumbing(w: World, e: Event)
    requires Plumbing(w) && Enabled(w, e)
    ensures Plumbing(After(w, e))
  {
    hide Handled, Registers, RequestedName;
    match e
    case Accept(conn) => Pool.StepKeepsOneWorkerEach(w.pool, Pool.Push(conn));
    case PoolStep(step) => Pool.StepKeepsOneWorkerEach(w.pool, step);
    case Hangup(worker, _, _) => Pool.StepKeepsOneWorkerEach(w.pool, Pool.Finish(worker));
    case _ =>
  }

  lemma FrameNames(w: World, raw: string, conn: int, env: Env)
    ensures var s' := Handled(w.srv, w.config, raw, conn, env);
            && s'.banned == w.srv.banned
            && s'.clients.Keys <= w.srv.clients.Keys + if Registers(w, raw) then {RequestedName(w, raw).value} else {}
  {
    hide Handled, RequestedName, ChangeOf;
    HandledChange(w, raw, conn, env);
    ChangeNeedsRequest(w, raw, env);
  }

  lemma FrameKeepsBans(w: World, raw: string, conn: int, env: Env)
    requires BansHold(w)
    ensures var s' := Handled(w.srv, w.config, raw, conn, env); NamesOk(s'.clients.Keys, s'.banned)
  {
    hide Handled, RequestedName, Readable, IsWord, PlainLine;
    FrameNames(w, raw, conn, env);
    if Registers(w, raw) { RequestedIsWord(w, raw); }
  }

  lemma BanKeepsNames(s: State, name: string)
    requires NamesOk(s.clients.Keys, s.banned)
    ensures NamesOk(Banned(s, name).clients.Keys, Banned(s, name).banned)
  {
    hide IsWord, PlainLine, Kicked;
    KickedEffect(s, name, "You have been banned by admin");
    if name in s.clients {
      WordIsPlain(name);
    }
  }

  lemma WordIsPlain(name: string)
    requires IsWord(name)
    ensures PlainLine(name)
  {
    WordIsFree(name, '\n');
  }

  lemma OtherBans(w: World, e: Event)
    requires !e.Frame? && !e.BanUser? && Enabled(w, e)
    ensures After(w, e).srv.banned <= w.srv.banned
  {
    hide Line, RelayLine, Settled, AdminLine;
  }

  lemma OtherKeepsNames(w: World, e: Event)
    requires NamesOk(w.srv.clients.Keys, w.srv.banned) && !e.Frame? && !e.BanUser? && Enabled(w, e)
    ensures NamesOk(After(w, e).srv.clients.Keys, After(w, e).srv.banned)
  {
    hide IsWord, PlainLine, After, Enabled;
    OtherBans(w, e);
    OtherEffect(w, e);
  }

  lemma StepKeepsBans(w: World, e: Event)
    requires BansHold(w) && Enabled(w, e)
    ensures BansHold(After(w, e))
  {
    hide NamesOk, Handled, Banned, Registers, RequestedName, Readable;
    match e
    case Frame(_, conn, raw, env) => FrameKeepsBans(w, raw, conn, env);
    case BanUser(name) => BanKeepsNames(w.srv, name);
    case Configure(op) => OpKeepsReadable(w.config, op); OtherKeepsNames(w, e);
    case _ => OtherKeepsNames(w, e);
  }

  lemma RequestedIsWord(w: World, raw: string)
    requires Readable(w.config) && RequestedName(w, raw).Some?
    ensures IsWord(RequestedName(w, raw).value) && |RequestedName(w, raw).value| <= 100
  {
    hide Parsed, Sanitized, Readable;
    ValidNameIsWord(w.config, RequestedName(w, raw).value);
  }

  lemma InitialHolds(w: World)
    requires Initial(w)
    ensures Sound(w) && Plumbing(w) && BansHold(w) && Served(w)
  {
    DefaultsAreReadable();
  }

  lemma {:induction false} PlumbingAndBansAlways(ws: seq<World>, es: seq<Event>, i: nat)
    requires IsRun(ws, es) && i < |ws|
    ensures Plumbing(ws[i]) && BansHold(ws[i])
  {
    hide Plumbing, BansHold, Initial;
    if i == 0 {
      InitialHolds(ws[0]);
    } else {
      PlumbingAndBansAlways(ws, es, i - 1);
      StepKeepsPlumbing(ws[i - 1], es[i - 1]);
      StepKeepsBans(ws[i - 1], es[i - 1]);
    }
  }

  // In every reachable state the ban list is what loading its file again would give.
  lemma BansPersist(ws: seq<World>, es: seq<Event>, i: nat, order: seq<string>)
    requires IsRun(ws, es) && i < |ws| && Enumerates(order, ws[i].srv.banned)
    ensures BansIn(BanFile(order)) == ws[i].srv.banned
    ensures forall n | n in ws[i].srv.clients :: n !in ws[i].srv.banned
  {
    PlumbingAndBansAlways(ws, es, i);
    BanListPersists(ws[i].srv.banned, order);
  }

  // In every reachable state a LIST_USERS line gets one line back, which the client splits
  // into exactly the registered names, each once.
  lemma UserListIsExact(ws: seq<World>, es: seq<Event>, i: nat, conn: int, env: Env)
    requires IsRun(ws, es) && i < |ws| && Enumerates(env.order, ws[i].srv.clients.Keys)
    ensures var s' := Handled(ws[i].srv, ws[i].config, "LIST_USERS\n", conn, env);
            && |s'.effects| == |ws[i].srv.effects| + 1 && s'.effects[..|ws[i].srv.effects|] == ws[i].srv.effects
            && (var reply := s'.effects[|ws[i].srv.effects|];
                && reply.Sent? && reply.socket == conn
                && (var e := Mailbox.EventOf(reply.line);
                    e.Some? && e.value.kind == Mailbox.USERS && Tokens(e.value.data, ",") == env.order))
    ensures NoRepeats(env.order) && forall n :: n in env.order <==> n in ws[i].srv.clients
  {
    hide IsRun, Plumbing, Handled, Tokens;
    PlumbingAndBansAlways(ws, es, i);
    UsersAreListed(ws[i].srv, ws[i].config, conn, env);
  }

  // ------------------------------------------------------------- exactly when sound

  // No step from sound on is disruptive if and only if every state of the run is sound.
  lemma SoundUpTo(ws: seq<World>, es: seq<Event>, i: nat)
    requires IsRun(ws, es) && i < |ws|
    requires forall j | 0 <= j < i :: !Disruptive(ws[j], es[j])
    ensures Sound(ws[i])
  {
    hide Sound, Plumbing, Disruptive, Initial, BansHold, Served;
    if i == 0 {
      InitialHolds(ws[0]);
    } else {
      SoundUpTo(ws, es, i - 1);
      PlumbingAndBansAlways(ws, es, i - 1);
      if es[i - 1].Frame? {
        FrameKeepsSound(ws[i - 1], es[i - 1]);
      } else {
        OtherKeepsSound(ws[i - 1], es[i - 1]);
      }
    }
  }

  lemma SoundIffNoDisruption(ws: seq<World>, es: seq<Event>)
    requires IsRun(ws, es)
    ensures (forall i | 0 <= i < |ws| :: Sound(ws[i])) <==> (forall i | 0 <= i < |es| :: !Disruptive(ws[i], es[i]))
  {
    hide Sound, Disruptive, Initial;
    if forall i | 0 <= i < |es| :: !Disruptive(ws[i], es[i]) {
      forall i | 0 <= i < |ws| ensures Sound(ws[i]) { SoundUpTo(ws, es, i); }
    }
    if forall i | 0 <= i < |ws| :: Sound(ws[i]) {
      forall i | 0 <= i < |es| ensures !Disruptive(ws[i], es[i]) {
        assert Sound(ws[i]) && Sound(ws[i + 1]);
        if Disruptive(ws[i], es[i]) { DisruptionBreaks(ws[i], es[i]); }
      }
    }
  }

  // In a sound state a registered name and its socket determine each other.
  lemma LookupsAreInverse(w: World, name: string, who: string)
    requires Sound(w) && name in w.srv.clients && NamesSocket(w.srv.clients, SocketOf(w.srv.clients, name), who)
    ensures who == name && SocketOf(w.srv.clients, who) == SocketOf(w.srv.clients, name)
  {
  }

  // A registration never takes over a name: who stays registered keeps the socket.
  lemma RegistrationIsKept(w: World, e: Event, name: string)
    requires Enabled(w, e) && name in w.srv.clients && name in After(w, e).srv.clients
    ensures After(w, e).srv.clients[name].socket == w.srv.clients[name].socket
  {
    hide Handled, RequestedName, ChangeOf, Registers, ClosedOnce;
    if e.Frame? {
      HandledChange(w, e.raw, e.conn, e.env);
      ChangeNeedsRequest(w, e.raw, e.env);
    } else {
      OtherEffect(w, e);
    }
  }

  // -------------------------------------------------------- a run that goes wrong

  function ConnectLine(name: string): string {
    "CONNECT;" + name + "\n"
  }

  lemma ConnectIsParsed(name: string)
    requires IsWord(name)
    ensures Parsed(ConnectLine(name)) == ParsedMessage("CONNECT", [name], true)
  {
    hide Find, Pieces, Tokens;
    WordIsFree(name, DELIMITER_CHAR);
    FreeOfChar("CONNECT", DELIMITER_CHAR);
    ParseBuild("CONNECT", [name]);
    JoinCons("CONNECT", [name], DELIMITER);
    assert ["CONNECT"] + [name] == ["CONNECT", name];
    assert Line("CONNECT", [name]) == ConnectLine(name);
  }

  lemma WordIsSanitized(name: string)
    requires IsWord(name)
    ensures Sanitized(name) == name
  {
    forall i | 0 <= i < |name| ensures Cleaned(name[i]) == name[i] {
      assert name[i] in name && IsWordChar(name[i]);
    }
  }

  // A short word is always a valid name to ask for.
  lemma ShortNameIsRequested(w: World, name: string)
    requires Readable(w.config) && IsWord(name) && |name| <= 3
    ensures RequestedName(w, ConnectLine(name)) == Some(name)
  {
    hide Parsed, Sanitized, ConnectLine, Readable, Limit;
    ConnectIsParsed(name);
    WordIsSanitized(name);
    LimitsDoNotWrap(w.config);
  }

  lemma NameIsRegistered(w: World, e: Event, name: string)
    requires Enabled(w, e) && e.Frame? && e.raw == ConnectLine(name)
    requires Readable(w.config) && IsWord(name) && |name| <= 3 && name !in w.srv.banned && name !in w.srv.clients
    ensures var w' := After(w, e);
            && w'.srv.clients == w.srv.clients[name := ClientInfo(e.conn, e.env.now)]
            && w'.srv.banned == w.srv.banned && w'.pool == w.pool && w'.config == w.config
            && (forall c :: IsClosed(w'.srv, c) <==> IsClosed(w.srv, c))
  {
    hide Handled, RequestedName, ChangeOf, Readable, IsWord, ClosedOnce, ConnectLine;
    ShortNameIsRequested(w, name);
    HandledChange(w, e.raw, e.conn, e.env);
    ChangeNeedsRequest(w, e.raw, e.env);
    FrameEffects(w, After(w, e).srv, e.conn, e.env, ChangeOf(w, e.raw, e.env));
    RequestDecides(w, e.raw, e.env, name);
  }

  lemma RequestDecides(w: World, raw: string, env: Env, name: string)
    requires RequestedName(w, raw) == Some(name) && name !in w.srv.banned && name !in w.srv.clients
    ensures ChangeOf(w, raw, env) == Register(name)
  {
    hide Parsed, ValidUsername, Sanitized;
  }

  lemma RunExtends(ws: seq<World>, es: seq<Event>, e: Event)
    requires IsRun(ws, es) && Enabled(ws[|es|], e)
    ensures IsRun(ws + [After(ws[|es|], e)], es + [e])
  {
    hide Initial, Enabled, After;
  }

  // One connection, one worker: the client registers as ann.
  lemma FirstRegistration() returns (ws: seq<World>, es: seq<Event>)
    ensures IsRun(ws, es) && |ws| == 4 && |es| == 3 && Sound(ws[3])
    ensures ws[3].srv.clients == map["ann" := ClientInfo(1, 0)] && ws[3].srv.banned == {}
    ensures Readable(ws[3].config) && Pool.Is(ws[3].pool, 0, Pool.Running(1))
  {
    hide Handled, Registers, RequestedName, Readable, Sound, ConnectLine;
    DefaultsAreReadable();
    var w0 := World(State(map[], {}, EmptyLedger(10000, REJECT), 0, []), Pool.FreshPool(1), {}, Defaults());
    var accept, look := Accept(1), PoolStep(Pool.Look(0));
    var ann := Frame(0, 1, ConnectLine("ann"), Env("", [], 0, 0, None));
    var w1 := After(w0, accept);
    var w2 := After(w1, look);
    NameIsRegistered(w2, ann, "ann");
    ws, es := [w0, w1, w2, After(w2, ann)], [accept, look, ann];
    NotDisruptive(ws, es);
    SoundUpTo(ws, es, 3);
  }

  lemma NotDisruptive(ws: seq<World>, es: seq<Event>)
    requires IsRun(ws, es) && |es| == 3 && !es[0].Frame? && !es[1].Frame?
    requires es[2].Frame? && ws[2].srv.clients == map[] && ws[2].srv.effects == []
    ensures forall j | 0 <= j < 3 :: !Disruptive(ws[j], es[j])
  {
    hide Initial, Enabled, After, RequestedName;
  }

  // A run of four steps: ann's connection asks for bob as well, and both names end up on
  // one socket.
  lemma SecondConnectRun() returns (ws: seq<World>, es: seq<Event>)
    ensures IsRun(ws, es) && |ws| == 5 && |es| == 4 && Sound(ws[3]) && !Sound(ws[4])
    ensures var clients := ws[4].srv.clients;
            "ann" in clients && "bob" in clients && clients["ann"].socket == clients["bob"].socket
  {
    hide Handled, Registers, RequestedName, Readable, IsRun, Sound, ConnectLine;
    ws, es := FirstRegistration();
    var w := ws[3];
    var bob := Frame(0, 1, ConnectLine("bob"), Env("ann", ["ann"], 0, 0, None));
    NameIsRegistered(w, bob, "bob");
    RunExtends(ws, es, bob);
    ws, es := ws + [After(w, bob)], es + [bob];
    SharedSocket(ws[4], "ann", "bob");
  }

  lemma SharedSocket(w: World, m: string, n: string)
    requires m in w.srv.clients && n in w.srv.clients && m != n && w.srv.clients[m].socket == w.srv.clients[n].socket
    ensures !Sound(w)
  {
  }

  // A run of five steps: ann's line asking for bob has been received when the administrator
  // kicks ann, and is handled afterwards. Bob is registered on a closed socket.
  lemma LateConnectRun() returns (ws: seq<World>, es: seq<Event>)
    ensures IsRun(ws, es) && |ws| == 6 && |es| == 5 && Sound(ws[4]) && !Sound(ws[5])
    ensures es[3] == KickUser("ann") && es[4].Frame? && es[4].env.who == ""
    ensures "bob" in ws[5].srv.clients && IsClosed(ws[5].srv, ws[5].srv.clients["bob"].socket)
  {
    hide Handled, Registers, RequestedName, Readable, IsRun, Sound, ConnectLine, Kicked;
    ws, es := FirstRegistration();
    var w, kick := ws[3], KickUser("ann");
    KickedEffect(w.srv, "ann", "You have been disconnected by admin");
    OtherKeepsSound(w, kick);
    RunExtends(ws, es, kick);
    ws, es := ws + [After(w, kick)], es + [kick];
    var w' := ws[4];
    var bob := Frame(0, 1, ConnectLine("bob"), Env("", [], 0, 0, None));
    NameIsRegistered(w', bob, "bob");
    RunExtends(ws, es, bob);
    ws, es := ws + [After(w', bob)], es + [bob];
    ClosedSocket(ws[5], "bob");
  }

  lemma ClosedSocket(w: World, name: string)
    requires name in w.srv.clients && IsClosed(w.srv, w.srv.clients[name].socket)
    ensures !Sound(w)
  {
  }
}
