// The Server object of src/Server/Server.cpp: registry, ban list and counters, changed in
// place; each method is proved to take the state where module Sessions says.
module ServerObjects {
  import opened Wrappers
  import opened Text
  import opened Dispatch
  import opened Sessions

  class Server {
    var clients: map<string, ClientInfo>
    var bannedUsers: set<string>
    var banlistFile: Option<string>
    var totalMessagesReceived: nat
    var totalMessagesSent: nat
    ghost var effects: seq<Effect> // the calls made on sockets
    const dispatcher: Dispatcher

    ghost function View(): State
      reads this, dispatcher
    {
      State(clients, bannedUsers, dispatcher.View(), totalMessagesReceived, effects)
    }

    // No registered name is empty: the scan by socket uses the empty string for nobody.
    ghost predicate Valid()
      reads this, dispatcher
    {
      dispatcher.Valid() && totalMessagesSent == dispatcher.sent && "" !in clients
    }

    constructor ()
      ensures Valid() && fresh(dispatcher) && dispatcher.running
      ensures View() == State(map[], {}, EmptyLedger(10000, REJECT), 0, [])
      ensures banlistFile == None
    {
      clients, bannedUsers, banlistFile := map[], {}, None;
      totalMessagesReceived, totalMessagesSent, effects := 0, 0, [];
      dispatcher := new Dispatcher();
    }

    // ------------------------------------------------------------------ registry

    method GetUsernameBySocket(socket: int) returns (who: string)
      requires Valid()
      ensures NamesSocket(clients, socket, who)
    {
      var names := clients.Keys;
      while names != {}
        invariant names <= clients.Keys
        invariant forall n | n in clients && n !in names :: clients[n].socket != socket
        decreases |names|
      {
        var name :| name in names;
        if clients[name].socket == socket {
          return name;
        }
        names := names - {name};
      }
      return "";
    }

    method GetUserSocket(name: string) returns (socket: int)
      ensures socket == SocketOf(clients, name)
      ensures socket == if name in clients then clients[name].socket else -1
    {
      if name in clients {
        return clients[name].socket;
      }
      return -1;
    }

    method IsUsernameTaken(name: string) returns (taken: bool)
      ensures taken == (name in clients)
    {
      return name in clients;
    }

    method RegisterClient(name: string, socket: int, now: int)
      modifies this`clients
      ensures clients == old(clients)[name := ClientInfo(socket, now)]
    {
      clients := clients[name := ClientInfo(socket, now)];
    }

    method UnregisterClient(name: string)
      modifies this`clients
      ensures clients == old(clients) - {name}
    {
      clients := clients - {name};
    }

    method UpdateClientPong(name: string, now: int)
      modifies this`clients
      ensures clients == if name in old(clients) then old(clients)[name := old(clients)[name].(lastPong := now)] else old(clients)
    {
      if name in clients {
        clients := clients[name := clients[name].(lastPong := now)];
      }
    }

    // getAllClients, as the order in which the caller walks the copy.
    method GetAllClients() returns (order: seq<string>)
      ensures Enumerates(order, clients.Keys)
    {
      order := [];
      var names := clients.Keys;
      while names != {}
        invariant names <= clients.Keys && NoRepeats(order)
        invariant forall n :: n in order <==> n in clients && n !in names
        decreases |names|
      {
        var name :| name in names;
        assert name !in order;
        order := order + [name];
        names := names - {name};
      }
    }

    // ------------------------------------------------------------------ ban list

    method IsBanned(name: string) returns (banned: bool)
      ensures banned == (name in bannedUsers)
    {
      return name in bannedUsers;
    }

    // writable: whether the file can be opened for writing.
    method BanlistAdd(name: string, writable: bool)
      modifies this`bannedUsers, this`banlistFile
      ensures bannedUsers == old(bannedUsers) + {name}
      ensures if writable then FileHolds(banlistFile, bannedUsers) else banlistFile == old(banlistFile)
    {
      bannedUsers := bannedUsers + {name};
      SaveBanlist(writable);
    }

    method BanlistRemove(name: string, writable: bool) returns (removed: bool)
      modifies this`bannedUsers, this`banlistFile
      ensures removed == (name in old(bannedUsers)) && bannedUsers == old(bannedUsers) - {name}
      ensures if removed && writable then FileHolds(banlistFile, bannedUsers) else banlistFile == old(banlistFile)
    {
      if name !in bannedUsers {
        return false;
      }
      bannedUsers := bannedUsers - {name};
      SaveBanlist(writable);
      return true;
    }

    method SaveBanlist(writable: bool)
      modifies this`banlistFile
      ensures if writable then FileHolds(banlistFile, bannedUsers) else banlistFile == old(banlistFile)
    {
      if !writable {
        return;
      }
      ghost var order := [];
      var text := "";
      var names := bannedUsers;
      while names != {}
        invariant names <= bannedUsers && NoRepeats(order)
        invariant forall n :: n in order <==> n in bannedUsers && n !in names
        invariant text == BanFile(order)
        decreases |names|
      {
        var name :| name in names;
        assert name !in order;
        TextOfLinesSnoc(order, name);
        order := order + [name];
        text := text + name + "\n";
        names := names - {name};
      }
      banlistFile := Some(text);
    }

    method LoadBanlist()
      modifies this`bannedUsers
      ensures bannedUsers == old(bannedUsers) + if banlistFile.Some? then BansIn(banlistFile.value) else {}
      ensures forall n :: n in bannedUsers <==>
                n in old(bannedUsers) || (banlistFile.Some? && n != "" && n in Tokens(banlistFile.value, "\n"))
    {
      if banlistFile.None? {
        return;
      }
      BansAreTokens(banlistFile.value);
      var rest := banlistFile.value;
      ghost var read: set<string> := {};
      while rest != ""
        invariant bannedUsers == old(bannedUsers) + read
        invariant read + BansIn(rest) == BansIn(banlistFile.value)
        decreases |rest|
      {
        var end := Find(rest, "\n", 0);
        var line;
        LinesStep(rest);
        if end.None? {
          line, rest := rest, "";
        } else {
          FoundFits(rest, "\n", 0);
          line, rest := rest[..end.value], rest[end.value + 1..];
        }
        if line != "" {
          bannedUsers := bannedUsers + {line};
          read := read + {line};
        }
      }
      assert BansIn("") == {};
    }

    // ------------------------------------------------------------- socket calls

    method SendLine(socket: int, line: string, ghost origin: Origin)
      modifies this`effects
      ensures effects == old(effects) + [Sent(socket, line, origin)]
    {
      effects := effects + [Sent(socket, line, origin)];
    }

    method Close(socket: int)
      modifies this`effects
      ensures effects == old(effects) + [Closed(socket)]
    {
      effects := effects + [Closed(socket)];
    }
  }

  // The file holds the names of a ban list, in some order.
  ghost predicate FileHolds(file: Option<string>, banned: set<string>) {
    exists order :: Enumerates(order, banned) && file == Some(BanFile(order))
  }

  lemma NonEmptyCons(line: string, lines: seq<string>)
    ensures NonEmpty([line] + lines) == NonEmpty(lines) + if line == "" then {} else {line}
  {
  }

  lemma LinesStep(text: string)
    requires text != ""
    ensures match Find(text, "\n", 0)
            case None => BansIn(text) == {text}
            case Some(k) => k < |text| && BansIn(text) == BansIn(text[k + 1..]) + if text[..k] == "" then {} else {text[..k]}
  {
    hide Find, NonEmpty, MatchesAt;
    match Find(text, "\n", 0)
    case None =>
      NonEmptyCons(text, []);
      assert FileLines(text) == [text] + [];
      assert NonEmpty([]) == {} by { NothingInNone(); }
    case Some(k) =>
      FoundChar(text, '\n');
      NonEmptyCons(text[..k], FileLines(text[k + 1..]));
  }

  lemma NothingInNone()
    ensures NonEmpty([]) == {}
  {
  }
}
