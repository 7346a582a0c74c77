// Registered clients are served: the registry and the thread pool together, and what the
// behaviour of the repository's own client means for the server.
module Service {
  import opened Wrappers
  import opened Text
  import opened Codec
  import opened Config
  import opened Sessions
  import opened System
  import opened Safety
  import Pool

  // ------------------------------------------------------------ registered is served

  // The sockets registered after a line are the old ones and perhaps its own.
  lemma FrameSockets(w: World, raw: string, conn: int, env: Env, name: string)
    requires name in Handled(w.srv, w.config, raw, conn, env).clients
    ensures var s' := Handled(w.srv, w.config, raw, conn, env);
            || (name in w.srv.clients && s'.clients[name].socket == w.srv.clients[name].socket)
            || (s'.clients[name].socket == conn && RequestedName(w, raw) == Some(name))
  {
    hide Handled, RequestedName, ChangeOf;
    HandledChange(w, raw, conn, env);
    ChangeNeedsRequest(w, raw, env);
  }

  lemma FrameKeepsServed(w: World, e: Event)
    requires Served(w) && e.Frame? && Enabled(w, e)
    ensures Served(After(w, e))
  {
    hide Handled, RequestedName, Registers;
    var w' := After(w, e);
    forall n | n in w'.srv.clients ensures exists k: nat :: Pool.Is(w'.pool, k, Pool.Running(w'.srv.clients[n].socket)) {
      FrameSockets(w, e.raw, e.conn, e.env, n);
      assert Pool.Is(w'.pool, e.worker, Pool.Running(e.conn));
      if n in w.srv.clients {
        var k: nat :| Pool.Is(w.pool, k, Pool.Running(w.srv.clients[n].socket));
        assert Pool.Is(w'.pool, k, Pool.Running(w.srv.clients[n].socket));
      }
    }
  }

  // What a step other than a line leaves registered was registered before.
  lemma OtherSockets(w: World, e: Event, name: string)
    requires !e.Frame? && Enabled(w, e) && name in After(w, e).srv.clients
    ensures name in w.srv.clients && After(w, e).srv.clients[name] == w.srv.clients[name]
  {
    hide After;
    OtherEffect(w, e);
  }

  lemma OtherKeepsServed(w: World, e: Event)
    requires Sound(w) && BansHold(w) && Served(w) && !e.Frame? && Enabled(w, e)
    ensures Served(After(w, e))
  {
    var w' := After(w, e);
    OtherEffect(w, e);
    forall n | n in w'.srv.clients ensures exists k: nat :: Pool.Is(w'.pool, k, Pool.Running(w'.srv.clients[n].socket)) {
      OtherSockets(w, e, n);
      var c := w.srv.clients[n].socket;
      var k: nat :| Pool.Is(w.pool, k, Pool.Running(c));
      if e.Hangup? { HangupIsAnother(w, e, n); }
      RunnerStays(w, e, k, c);
    }
  }

  lemma HangupIsAnother(w: World, e: Event, name: string)
    requires Sound(w) && BansHold(w) && e.Hangup? && Enabled(w, e)
    requires name in w.srv.clients && name in After(w, e).srv.clients
    ensures w.srv.clients[name].socket != e.conn
  {
    OtherEffect(w, e);
  }

  lemma RunnerStays(w: World, e: Event, k: nat, c: int)
    requires Enabled(w, e) && Pool.Is(w.pool, k, Pool.Running(c)) && (e.Hangup? ==> c != e.conn)
    ensures Pool.Is(After(w, e).pool, k, Pool.Running(c))
  {
    hide Handled, Registers, RequestedName;
  }

  // While the run is undisturbed, every registered socket is the one that exactly one
  // worker is looping on.
  lemma {:induction false} RegisteredIsServed(ws: seq<World>, es: seq<Event>, i: nat)
    requires IsRun(ws, es) && i < |ws|
    requires forall j | 0 <= j < i :: !Disruptive(ws[j], es[j])
    ensures Served(ws[i]) && Sound(ws[i]) && Plumbing(ws[i]) && BansHold(ws[i])
  {
    hide Served, Sound, Plumbing, BansHold, Disruptive, Initial;
    SoundUpTo(ws, es, i);
    PlumbingAndBansAlways(ws, es, i);
    if i == 0 {
      InitialHolds(ws[0]);
    } else {
      RegisteredIsServed(ws, es, i - 1);
      if es[i - 1].Frame? {
        FrameKeepsServed(ws[i - 1], es[i - 1]);
      } else {
        OtherKeepsServed(ws[i - 1], es[i - 1]);
      }
    }
  }

  lemma ExactlyOneWorker(w: World, name: string)
    requires Served(w) && Plumbing(w) && name in w.srv.clients
    ensures exists k: nat :: Pool.Is(w.pool, k, Pool.Running(w.srv.clients[name].socket))
    ensures forall j, k: nat | Pool.Is(w.pool, j, Pool.Running(w.srv.clients[name].socket))
                              && Pool.Is(w.pool, k, Pool.Running(w.srv.clients[name].socket)) :: j == k
  {
  }

  // ------------------------------------------------------------------ the pool bound

  function Sockets(clients: Clients): set<int> {
    set n | n in clients :: clients[n].socket
  }

  function RunningTasks(workers: seq<Pool.Worker>): set<int> {
    if workers == [] then {}
    else RunningTasks(workers[1..]) + if workers[0].Running? then {workers[0].task} else {}
  }

  lemma {:induction false} AtMostOneTaskEach(workers: seq<Pool.Worker>)
    ensures |RunningTasks(workers)| <= |workers|
    ensures forall k | 0 <= k < |workers| && workers[k].Running? :: workers[k].task in RunningTasks(workers)
  {
    if workers != [] {
      AtMostOneTaskEach(workers[1..]);
      assert forall k | 1 <= k < |workers| :: workers[k] == workers[1..][k - 1];
    }
  }

  lemma {:induction false} AsManySocketsAsNames(clients: Clients)
    requires Injective(clients)
    ensures |Sockets(clients)| == |clients|
    decreases |clients|
  {
    if clients != map[] {
      var n :| n in clients;
      var rest := map m | m in clients && m != n :: clients[m];
      assert rest.Keys == clients.Keys - {n};
      AsManySocketsAsNames(rest);
      assert Sockets(clients) == Sockets(rest) + {clients[n].socket} by {
        forall c ensures c in Sockets(clients) <==> c in Sockets(rest) || c == clients[n].socket {
          if c in Sockets(clients) {
            var m :| m in clients && clients[m].socket == c;
            assert m == n || m in rest;
          }
        }
      }
      assert clients[n].socket !in Sockets(rest);
      assert |clients| == |clients.Keys| && |rest| == |rest.Keys|;
    }
  }

  lemma {:induction false} SmallerSet<T>(a: set<T>, b: set<T>)
    requires a <= b
    ensures |a| <= |b|
  {
    if a != {} {
      var x :| x in a;
      SmallerSet(a - {x}, b - {x});
    }
  }

  // Never more registered clients than workers, whatever the connection limit.
  lemma ClientsFitThePool(ws: seq<World>, es: seq<Event>, i: nat)
    requires IsRun(ws, es) && i < |ws|
    requires forall j | 0 <= j < i :: !Disruptive(ws[j], es[j])
    ensures |ws[i].srv.clients| <= |ws[i].pool.workers| == |ws[0].pool.workers|
  {
    hide Disruptive, Initial, Plumbing, BansHold;
    var w := ws[i];
    RegisteredIsServed(ws, es, i);
    SamePoolSize(ws, es, i);
    AsManySocketsAsNames(w.srv.clients);
    AtMostOneTaskEach(w.pool.workers);
    forall n | n in w.srv.clients ensures w.srv.clients[n].socket in RunningTasks(w.pool.workers) {
      var k: nat :| Pool.Is(w.pool, k, Pool.Running(w.srv.clients[n].socket));
    }
    SmallerSet(Sockets(w.srv.clients), RunningTasks(w.pool.workers));
  }

  lemma {:induction false} SamePoolSize(ws: seq<World>, es: seq<Event>, i: nat)
    requires IsRun(ws, es) && i < |ws|
    ensures |ws[i].pool.workers| == |ws[0].pool.workers|
  {
    hide Initial, Enabled, After;
    if i > 0 {
      SamePoolSize(ws, es, i - 1);
      PoolGrows(ws[i - 1], es[i - 1]);
    }
  }

  // ------------------------------------------------- which connections disturb nothing

  // Registered under some name, or closed.
  ghost predicate Tied(s: State, conn: int) {
    IsClosed(s, conn) || exists n :: n in s.clients && s.clients[n].socket == conn
  }

  predicate AnsweredOn(w: World, e: Event, conn: int) {
    Answered(w, e) && e.conn == conn
  }

  lemma DisruptiveIsTied(w: World, e: Event)
    requires Enabled(w, e) && e.Frame?
    ensures Disruptive(w, e) <==> AnsweredOn(w, e, e.conn) && Tied(w.srv, e.conn)
  {
    hide RequestedName;
  }

  // An answered request ties its connection, nothing else does, and a tie is never undone:
  // a registration ends by closing the socket.
  lemma TieStep(w: World, e: Event, conn: int)
    requires Enabled(w, e)
    ensures Tied(After(w, e).srv, conn) <==> Tied(w.srv, conn) || AnsweredOn(w, e, conn)
  {
    hide Tied, After, Enabled;
    if e.Frame? {
      FrameTies(w, e, conn);
    } else {
      OtherKeepsTies(w, e, conn);
    }
  }

  lemma FrameTies(w: World, e: Event, conn: int)
    requires e.Frame? && Enabled(w, e)
    ensures Tied(After(w, e).srv, conn) <==> Tied(w.srv, conn) || AnsweredOn(w, e, conn)
  {
    hide Handled, RequestedName, ChangeOf, Registers, ClosedOnce;
    var s', change := Handled(w.srv, w.config, e.raw, e.conn, e.env), ChangeOf(w, e.raw, e.env);
    HandledChange(w, e.raw, e.conn, e.env);
    FrameEffects(w, s', e.conn, e.env, change);
    ChangeNeedsRequest(w, e.raw, e.env);
    AnsweredIsChange(w, e);
    assert forall n | n in w.srv.clients && !(change.Leave? && n == change.who) ::
      n in s'.clients && s'.clients[n].socket == w.srv.clients[n].socket;
    if change.Register? {
      assert s'.clients[change.name].socket == e.conn;
    }
  }

  lemma AnsweredIsChange(w: World, e: Event)
    requires e.Frame?
    ensures Answered(w, e) <==> ChangeOf(w, e.raw, e.env).Register? || ChangeOf(w, e.raw, e.env).Refuse?
  {
    hide ValidUsername, Sanitized, Parsed;
  }

  lemma OtherKeepsTies(w: World, e: Event, conn: int)
    requires !e.Frame? && Enabled(w, e)
    ensures Tied(After(w, e).srv, conn) <==> Tied(w.srv, conn)
  {
    hide After, ClosedOnce;
    OtherEffect(w, e);
    var s, s' := w.srv, After(w, e).srv;
    forall n | n in s.clients && n !in s'.clients ensures IsClosed(s', s.clients[n].socket) {}
  }

  // A connection is tied exactly when one of its lines has been answered before.
  lemma {:induction false} TiedIffAnswered(ws: seq<World>, es: seq<Event>, i: nat, conn: int)
    requires IsRun(ws, es) && i < |ws|
    ensures Tied(ws[i].srv, conn) <==> exists j :: 0 <= j < i && AnsweredOn(ws[j], es[j], conn)
  {
    hide Tied, Answered, Enabled, After;
    if i == 0 {
      NothingIsTied(ws[0], conn);
    } else {
      TiedIffAnswered(ws, es, i - 1, conn);
      TieStep(ws[i - 1], es[i - 1], conn);
    }
  }

  lemma NothingIsTied(w: World, conn: int)
    requires Initial(w)
    ensures !Tied(w.srv, conn)
  {
  }

  // No two answered lines on one connection.
  ghost predicate OneAnswerEach(ws: seq<World>, es: seq<Event>)
    requires |ws| > |es|
  {
    forall i, j, conn | 0 <= i < j < |es| && AnsweredOn(ws[i], es[i], conn) :: !AnsweredOn(ws[j], es[j], conn)
  }

  lemma UndisturbedIffOneAnswer(ws: seq<World>, es: seq<Event>)
    requires IsRun(ws, es)
    ensures (forall j | 0 <= j < |es| :: !Disruptive(ws[j], es[j])) <==> OneAnswerEach(ws, es)
  {
    hide AnsweredOn, Disruptive, Enabled, After, Initial;
    forall j | 0 <= j < |es|
      ensures Disruptive(ws[j], es[j]) <==>
              exists i, conn :: 0 <= i < j && AnsweredOn(ws[i], es[i], conn) && AnsweredOn(ws[j], es[j], conn)
    {
      SecondAnswerDisrupts(ws, es, j);
    }
  }

  lemma SecondAnswerDisrupts(ws: seq<World>, es: seq<Event>, j: nat)
    requires IsRun(ws, es) && j < |es|
    ensures Disruptive(ws[j], es[j]) <==>
            exists i, conn :: 0 <= i < j && AnsweredOn(ws[i], es[i], conn) && AnsweredOn(ws[j], es[j], conn)
  {
    hide Tied, Answered, Enabled, After, Initial, Disruptive;
    AnsweredIsFrame(ws[j], es[j]);
    if es[j].Frame? {
      DisruptiveIsTied(ws[j], es[j]);
      TiedIffAnswered(ws, es, j, es[j].conn);
    }
  }

  lemma AnsweredIsFrame(w: World, e: Event)
    ensures Answered(w, e) || Disruptive(w, e) ==> e.Frame?
  {
    hide RequestedName;
  }

  // Every state of a run is sound if and only if no connection gets a second CONNECT that
  // the server answers with a registration or with the ban notice. Requests refused as
  // invalid or taken do not matter.
  lemma SoundIffOneAnswer(ws: seq<World>, es: seq<Event>)
    requires IsRun(ws, es)
    ensures (forall i | 0 <= i < |ws| :: Sound(ws[i])) <==> OneAnswerEach(ws, es)
  {
    hide Sound, Disruptive, OneAnswerEach, IsRun;
    SoundIffNoDisruption(ws, es);
    UndisturbedIffOneAnswer(ws, es);
  }

  // ------------------------------------------------------ one CONNECT per connection

  // A CONNECT line on a connection.
  predicate IsConnectOn(e: Event, conn: int) {
    e.Frame? && e.conn == conn && Parsed(e.raw).isValid && Parsed(e.raw).command == "CONNECT"
  }

  ghost predicate OneConnectEach(es: seq<Event>) {
    forall i, j | 0 <= i < j < |es| && es[i].Frame? && IsConnectOn(es[i], es[i].conn) :: !IsConnectOn(es[j], es[i].conn)
  }

  lemma AnsweredIsConnect(w: World, e: Event)
    requires Answered(w, e)
    ensures e.Frame? && IsConnectOn(e, e.conn)
  {
    hide Parsed, ValidUsername, Sanitized;
  }

  // If no connection carries two CONNECT lines, none gets two answers.
  lemma OneConnectIsOneAnswer(ws: seq<World>, es: seq<Event>)
    requires |ws| > |es| && OneConnectEach(es)
    ensures OneAnswerEach(ws, es)
  {
    hide IsConnectOn, Answered;
    forall i, j, conn | 0 <= i < j < |es| && AnsweredOn(ws[i], es[i], conn) ensures !AnsweredOn(ws[j], es[j], conn) {
      AnsweredIsConnect(ws[i], es[i]);
      if AnsweredOn(ws[j], es[j], conn) { AnsweredIsConnect(ws[j], es[j]); }
    }
  }

  // The registry theorem: with one answer to each connection, in every state the lookups
  // are inverse, registered sockets are open, nothing is closed twice, every registered
  // socket has its worker and the clients fit the pool.
  lemma UndisturbedService(ws: seq<World>, es: seq<Event>, i: nat)
    requires IsRun(ws, es) && i < |ws| && OneAnswerEach(ws, es)
    ensures Sound(ws[i]) && Served(ws[i])
    ensures |ws[i].srv.clients| <= |ws[0].pool.workers|
  {
    hide Disruptive, IsRun, OneAnswerEach, Sound, Served;
    UndisturbedIffOneAnswer(ws, es);
    RunLengths(ws, es);
    RegisteredIsServed(ws, es, i);
    ClientsFitThePool(ws, es, i);
  }

  lemma RunLengths(ws: seq<World>, es: seq<Event>)
    requires IsRun(ws, es)
    ensures |ws| == |es| + 1
  {
    hide Initial, Enabled, After;
  }
}
