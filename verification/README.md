# SocketMessaging, verified

A Dafny model of SocketMessaging, a thread-pooled TCP chat server with a client mailbox, and proofs
about it. `dafny verify dfyconfig.toml` checks everything.

## What is modelled

The model is layered the way the program is.

| file | part of the program |
|---|---|
| `Text`, `Codec`, `Framing`, `Numbers` | the wire: split and sanitize, the `;` codec, length-prefixed frames, `to_string` and `stoi` |
| `Config` | run-time settings and the validators that read them |
| `Dispatch`, `DispatcherProtocol` | the bounded message queue, its three overflow policies and its condition variable |
| `Pool` | the worker threads and their task queue |
| `Mailbox`, `ClientSession` | the client: mailbox, event decoding, connection state machine |
| `Sessions` | the server's state and what every command does to it, as functions |
| `Server`, `Handlers` | the same as objects changed in place: `Server`, `CommandHandler`, `AdminCommandHandler` |
| `Forwarding` | one message from the line that brings it to the line that takes it on |
| `System`, `Safety`, `Service`, `Delivery`, `EndToEnd` | runs of the whole server, and what all of them keep |
| `Replies`, `Administration` | what clients are told: each command with its answer as the client reads it; kicks, bans, announcements, PING rounds |
| `Steps` | the objects take the steps of those runs |
| `Heartbeat` | the timing of PING, PONG and eviction |

The code changes objects step by step; so do the classes here. Each method is proved to compute a function of
the old state (`Offered`, `Submitted`, `Stored`, `Kicked`, ...), and the properties are proved about
those functions, without naming them where they say what a command does, and about every run built from them. A run of the server (`System.IsRun`) interleaves, in any order, accepted
connections, pool workers, lines of clients, hang-ups, administrator commands, PING rounds, evictions, the
dispatcher's two halves and configuration changes.

The main results:

* **Delivery, bytes to mailbox.** `EndToEnd.BytesToMailbox`: over every run, whatever the clients do, and for any cut of the
  byte stream of any connection, what the mailbox holds from one sender is an in-order selection of that sender's accepted
  messages to a name this connection had asked for and got; nothing twice, nothing invented, contents intact, and nothing
  relayed in those bytes missing. `Delivery.AcceptedWasSent` leads each accepted message back to the line that caused it, and
  `EndToEnd.WholeMailbox` says what the mailbox is as a whole.
* **Forwarding.** `Forwarding.LosslessForwarding` and the exact size limit `Forwarding.QueuedLineIsReceived`.
* **Registry.** `Safety.SoundIffNoDisruption` says exactly which steps break the registry, `Service.SoundIffOneAnswer`
  exactly which runs keep it, and `ClientSession.ClientsAreServed` that the repository's own client stays among them.
* **Answers.** `Replies.AcknowledgedIffAccepted` and `Replies.WelcomedIffRegistered`: a sender is told OK exactly when its
  message was accepted, a client exactly when its name was registered. `ClientSession.Handshake` joins the latter to the
  client's connect, `Administration.BanHolds` follows a ban over whole runs, `Administration.RoundIsAnswered` a PING and back.
* **Threads.** `DispatcherProtocol.DispatcherSafety`, `DispatcherProtocol.EveryStepApproachesThePop`,
  `Pool.AlwaysWorkConserving`, `Service.ExactlyOneWorker`, `Service.ClientsFitThePool`.
* **Mailbox and settings.** `Mailbox.MailboxRefinesLog`, `Config.AlwaysReadable`.
* **Time.** `Heartbeat.EvictedAge`, `Heartbeat.EvictedSilence`.

### What the proofs found

* The server has no guard against a CONNECT on a connection that is registered already, or that has been closed after the line
  was received and before it is handled (`src/Server/Server.cpp:393-407`, `src/Server/CommandHandler.cpp:31-61`). If such a line asks for
  a free name, one socket gets two names or a closed socket gets one; if it asks for a banned name, a registered socket is closed or a
  closed one closed again. Among whole-handler steps these are exactly the ones that break the registry (`Safety.SoundIffNoDisruption`);
  `Safety.SecondConnectRun` and `Safety.LateConnectRun` are runs of four and five steps that contain one. Seen from outside, the
  registry stays sound if and only if no connection gets a second CONNECT answered with OK or with the ban notice
  (`Service.SoundIffOneAnswer`); requests refused as invalid or taken may be repeated. "At most one *successful* CONNECT" would not
  be enough, because of the ban. The repository's client never sends a second CONNECT at all
  (`ClientSession.OneConnectPerSocket`).
* A line may be accepted by the server and still be too long once forwarded; the recipient's stream then fails and
  loses everything after it. `Forwarding.QueuedLineIsReceived` gives the exact condition on the line's fields,
  `Forwarding.LongestLineBreaksTheRecipient` an instance, and `Forwarding.RoomyLineIsReceived` the safe margin:
  |sender| + |timestamp| + 4 bytes.
* A user may register the name SERVER, which administrators' messages show as their sender; a mailbox entry does not
  tell the two apart (`EndToEnd.WholeMailbox`). The theorems about one sender therefore leave that name out.
* The copy handed out on the first read of a message says `isRead == false`, since it is taken before the message is marked
  (`src/Client/MessageHandler.cpp:140-142`). `Mailbox.ReadRefines` states it.
* `sendMessage` does not refuse a `;` in subject or body. The server then reads other fields
  than the ones typed: `Mailbox.SendLineFields`, as an if-and-only-if.
* A client that connects with a name containing `;` is registered under the part before it and believes in the whole
  (`ClientSession.Handshake`: the names agree if and only if the name is free of the delimiter). Only the user interface, which checks the name
  first (`src/Client/ClientUI.cpp:94`), stands in between.
* A client with exactly three unanswered PINGs survives the check only if its last answer came more than 19 seconds after its
  PING (`Heartbeat.EvictedSilence`). So answering one PING in three is enough when the answer is recorded before the check that
  follows the PING, five seconds later (`Heartbeat.FaithfulClientStays`), and in general not otherwise:
  `Heartbeat.OneInThreeIsEvicted` is a run in which the client is evicted before it can answer the fourth PING.

### Where code and documentation disagree

The model follows the code.

* `include/Utils/ThreadPool.hpp:30` promises that the destructor waits for the tasks; `src/Utils/ThreadPool.cpp:30` leaves the loop as soon
  as `stop` is set, queued tasks or not.
* The repository's README names settings such as `queue.policy` and `heartbeat.interval`. No such keys exist, and neither dispatcher nor
  heartbeat reads the run-time configuration: policy and capacity are the defaults of
  `include/Server/DispatcherConfig.hpp:28-29`, times are those of `include/Utils/Constants.hpp:22-24`.
* `src/Client/ClientUI.cpp:95` announces a maximum of 16 characters for a name; the validator's default is 32.

### Assumptions

* A string is a sequence of characters, one per byte; the theorems hold for all of them.
* A connection is a byte sequence to which each send appends one whole frame; the source treats a short `::send` as success
  too (`src/Utils/NetworkStream.cpp:22-29`). Replies, notices, PINGs and administrator's lines are recorded as sent;
  the dispatcher's send may fail at any time. What is recorded for a connection after its close never arrives; the
  theorems speak of any first part of it.
* Connection identifiers are positive and never reused.
* One handler call is one step; receiving the line it handles is not part of it. `handleConnect` takes its three locks separately, so two handlers racing for one name are not
  covered (`src/Server/CommandHandler.cpp:45-57`). The mutex and condition-variable steps of dispatcher and pool
  are modelled one by one.
* The server is running and the pool is not being destroyed; memory is sequentially consistent. Server shutdown ends the process.
* Sleeps last exactly as long as asked and processing takes no time (`Heartbeat` only).

## Model

| member | source | states |
|---|---|---|
| Text.Find | src/Utils/Utils.cpp:66-71 | the search `split` relies on: the least position at or after the start where the delimiter occurs, or no such position |
| Text.Split | src/Utils/Utils.cpp:58-76 | the loop returns the pieces between the occurrences of the delimiter, taken from the left; nothing for an empty string or delimiter |
| Text.FirstToken | src/Utils/Utils.cpp:61-76 | nothing comes out exactly for an empty string or delimiter; the first token ends at the first occurrence |
| Text.JoinTokens | src/Utils/Utils.cpp:58-76 | joining the tokens with any non-empty delimiter restores the string |
| Text.TokensAreFree | src/Utils/Utils.cpp:58-76 | no token contains the delimiter |
| Text.SplitJoin | src/Utils/Utils.cpp:58-76 | splitting a join restores the fields if and only if they are free of the one-character delimiter and are not [""] |
| Text.PiecesOfConcat | src/Utils/Utils.cpp:58-76 | around a one-character delimiter the two sides split independently |
| Text.RejoinRest | src/Server/AdminCommandHandler.cpp:52-88 | splitting a typed command on blanks and joining the words after the first restores the text, repeated blanks included |
| Text.Sanitize | src/Utils/Utils.cpp:43-56 | the loop maps every character by itself and keeps the length |
| Text.SanitizedIsClean | src/Utils/Utils.cpp:43-56 | control characters other than newline and tab become blanks, nothing else changes, and sanitizing again changes nothing |
| Text.SplitSanitized | src/Utils/Utils.cpp:43-76 | splitting on a printable delimiter commutes with sanitizing |
| Text.WordCodes | src/Utils/Utils.cpp:22-24 | a word is one or more characters with the codes of digits, letters and the underscore |
| Text.SanitizedWord | src/Server/CommandHandler.cpp:37-39 | what is a word after sanitizing was one before |
| Codec.Parse | src/Utils/MessageParser.cpp:8-31 | one trailing newline off, then command and arguments from the pieces; invalid when nothing is left |
| Codec.Build | src/Utils/MessageParser.cpp:33-44 | the loop writes command and arguments joined by the delimiter, and one newline |
| Codec.ParseBuild | src/Utils/MessageParser.cpp:8-44 | parse after build gives the fields back if and only if they are delimiter-free and not the empty command alone; newlines do not matter |
| Codec.BuiltFields | src/Utils/MessageParser.cpp:8-44 | with arbitrary arguments the command survives and each argument contributes its pieces |
| Codec.BuildParse | src/Utils/MessageParser.cpp:8-44 | a line is valid unless nothing is left of it; build after parse is the line with exactly one newline at its end, and parsing that changes nothing |
| Codec.ParsedFieldsAreFree | src/Utils/MessageParser.cpp:8-31 | no field of a parsed line contains the delimiter |
| Framing.Prefix | src/Utils/NetworkStream.cpp:52-58 | four bytes, the first worth 2^24, the last worth 1, that add up to the length; the reader gets it back |
| Framing.NetworkOrder | src/Utils/NetworkStream.cpp:54-75 | the bytes compare like the lengths, most significant first; below 256 three zero bytes come before the length |
| Framing.DecodeEncoded | src/Utils/NetworkStream.cpp:52-90 | decoding a frame gives the message and leaves the following bytes alone, exactly for lengths 1 to MAX_MESSAGE_SIZE |
| Framing.PrefixSafety | src/Utils/NetworkStream.cpp:32-90 | of a stream of sendable messages cut anywhere, exactly those whose frames lie wholly before the cut are received, in order |
| Framing.ReceivedIsPrefix | src/Utils/NetworkStream.cpp:32-90 | for arbitrary messages and any cut, what is received is a first part of what was sent |
| Framing.UniquelyDecodable | src/Utils/NetworkStream.cpp:52-90 | two lists of sendable messages with the same bytes are equal |
| Framing.NetworkStream.constructor | src/Utils/NetworkStream.cpp:11-14 | connected exactly for a non-negative descriptor |
| Framing.NetworkStream.Send | src/Utils/NetworkStream.cpp:16-30 | a whole frame is appended and true returned exactly when connected and taken; otherwise the stream is disconnected |
| Framing.NetworkStream.Receive | src/Utils/NetworkStream.cpp:32-46 | the next message of the stream, or failure, after which the stream stays disconnected |
| Framing.NetworkStream.EncodeMessage | src/Utils/NetworkStream.cpp:52-63 | the message behind its length in network byte order, cut to 32 bits |
| Framing.NetworkStream.DecodeMessage | src/Utils/NetworkStream.cpp:65-90 | what is read and what is left in every case: short prefix, zero, too long, short body, success |
| Framing.NetworkStream.ReceiveUntilClosed | src/Server/Server.cpp:389-410 | the receive loop gets exactly the messages of the stream up to the first failure and ends disconnected |
| Numbers.ReadToText | src/Utils/Utils.cpp:78-90 | `stoll` or `stoi` of what `to_string` wrote gives the number back, or out of range, whatever non-digit follows |
| Numbers.DigitsOfValue | src/Utils/Utils.cpp:78-81 | the text of a number is the decimal one without zeros in front: every such text is the text of its value |
| Numbers.NoLeadingZero | src/Utils/Utils.cpp:78-81 | `to_string` puts no zero in front |
| Numbers.NoDigitsNoNumber | src/Utils/Utils.cpp:83-90 | text without a digit is not read as a number |
| Numbers.ReadPadded | src/Utils/RuntimeConfig.cpp:36-47 | leading blanks and trailing non-digits are ignored, the sign counts, and out of range fails |
| Config.AlwaysReadable | src/Utils/RuntimeConfig.cpp:27-102 | after any settings and resets with arbitrary strings every integer setting reads back within its bounds and every flag reads back |
| Config.DefaultsAreReadable | src/Utils/RuntimeConfig.cpp:5-25 | every default passes its own validation |
| Config.NumberWithTail | src/Utils/RuntimeConfig.cpp:36-80 | text behind a number is accepted and the number before it is what is read, or nothing changes when it is out of bounds |
| Config.LimitsDoNotWrap | src/Utils/Utils.cpp:14-37 | in every readable configuration the casts to size_t keep the value: names are limited to 3 to 100, subjects to 10 to 500 |
| Config.ValidNameIsWord | src/Utils/Utils.cpp:9-25 | a valid name is 1 to 100 letters, digits and underscores |
| Config.RuntimeConfig.constructor | src/Utils/RuntimeConfig.cpp:5-10 | a new configuration holds the defaults |
| Config.RuntimeConfig.FillWithDefaults | src/Utils/RuntimeConfig.cpp:96-102 | the loop sets every defined key to its default |
| Config.RuntimeConfig.ValidateValue | src/Utils/RuntimeConfig.cpp:27-49 | true exactly for the four flag texts, or a number that `stoi` reads within the bounds |
| Config.RuntimeConfig.Set | src/Utils/RuntimeConfig.cpp:51-67 | stores exactly the acceptable values of defined keys and otherwise changes nothing |
| Config.RuntimeConfig.GetInt | src/Utils/RuntimeConfig.cpp:69-80 | what `stoi` reads; for integer keys always a number within the bounds |
| Config.RuntimeConfig.GetBool | src/Utils/RuntimeConfig.cpp:82-89 | nothing exactly for an unknown key; a flag key always reads as true or false: true exactly for "true" and "1", false exactly for "false" and "0" |
| Config.FlagRoundTrip | src/Utils/RuntimeConfig.cpp:27-89 | a flag set to one of the four accepted texts reads back as what the text means; any other text leaves it as it was |
| Config.SetTouchesOneKey | src/Utils/RuntimeConfig.cpp:51-67 | a setting changes no other key |
| Config.FreshTimes | src/Utils/RuntimeConfig.cpp:16-19 | defaults and bounds of the four times |
| Config.FreshSizes | src/Utils/RuntimeConfig.cpp:20-23 | defaults and bounds of queue, pool, name and subject |
| Config.FreshFlag | src/Utils/RuntimeConfig.cpp:24-24 | the flag is off, and there is no tenth key |
| Config.ValidatorsMean | src/Utils/Utils.cpp:9-41 | names are words within the length the administrator set, subjects one to that many characters, bodies not empty |
| Config.RuntimeConfig.Reset | src/Utils/RuntimeConfig.cpp:96-102 | back to the defaults |
| Dispatch.OfferConserves | src/Server/Dispatcher.cpp:17-40 | accepted = popped messages with their fates, then the queue: kept under every policy; a new message goes to the end, a full queue loses its oldest only under DROP_OLDEST |
| Dispatch.TakeConserves | src/Server/Dispatcher.cpp:63-66 | the message taken is the oldest without a fate, and the balance is kept |
| Dispatch.SettleConserves | src/Server/Dispatcher.cpp:73-108 | an outcome changes the fate of the message in flight only, and totalMessagesSent stays the number delivered |
| Dispatch.OfferAllRefusing | src/Server/Dispatcher.cpp:20-34 | REJECT and DROP_NEWEST take the first messages up to the free room and leave out the rest |
| Dispatch.OfferAllDropping | src/Server/Dispatcher.cpp:26-29 | DROP_OLDEST takes every message and keeps the newest capacity-many |
| Dispatch.BroadcastFanOut | src/Server/CommandHandler.cpp:119-132 | copies go to distinct registered names, never the sender, as many as there is room for, and to everyone else when all fit |
| Dispatch.Dispatcher.constructor | include/Server/DispatcherConfig.hpp:25-30 | an empty queue with room for 10000 under REJECT |
| Dispatch.Dispatcher.QueueMessage | src/Server/Dispatcher.cpp:17-40 | the in-place queue goes where the ledger says, and the result tells whether the message was accepted |
| Dispatch.Dispatcher.TakeNext | src/Server/Dispatcher.cpp:53-66 | the front of the queue exactly when running with a message queued, otherwise no change |
| Dispatch.Dispatcher.Stop | src/Server/Dispatcher.cpp:113-119 | running becomes false and no message is lost by it |
| DispatcherProtocol.StepKeepsInv | src/Server/Dispatcher.cpp:17-119 | every step of producers, consumer, stop and spurious wake-ups keeps balance, mutex ownership and "no lost wake-up" |
| DispatcherProtocol.DispatcherSafety | src/Server/Dispatcher.cpp:17-119 | in every reachable state: FIFO balance, queue within capacity, at most one message in flight; a parked consumer with the mutex free has an empty queue and a stop still to notify it, if any; after the loop nothing is left in flight |
| DispatcherProtocol.QueuedMessageIsServed | src/Server/Dispatcher.cpp:37-66 | with a message queued the consumer can step, or the producer holding the mutex is about to wake it |
| DispatcherProtocol.EveryStepApproachesThePop | src/Server/Dispatcher.cpp:45-66 | each of its own steps brings the consumer one nearer to the pop, at most five in all, and nobody else's step sets it back |
| DispatcherProtocol.StopEndsTheLoop | src/Server/Dispatcher.cpp:45-119 | once stopped, each of its own steps brings the consumer one nearer to leaving the loop, without another pop; asleep it is still to be notified |
| DispatcherProtocol.HistoryIsStable | src/Server/Dispatcher.cpp:17-108 | what is accepted stays accepted in its place, and a fate once given is final |
| Pool.StepConservesWork | src/Utils/ThreadPool.cpp:21-50 | each step keeps: while a worker sleeps, the queued tasks are at most the pending notifications plus the workers about to look; and FIFO start order |
| Pool.AlwaysWorkConserving | src/Utils/ThreadPool.cpp:21-50 | the same in every reachable state, spurious wake-ups included |
| Pool.TasksWaitOnlyBehindBusyWorkers | src/Utils/ThreadPool.cpp:21-50 | with nobody about to act, a task is queued only while every worker is running one |
| Pool.StepKeepsOneWorkerEach | src/Utils/ThreadPool.cpp:29-50 | of distinct tasks, each running one was started and no two workers run the same |
| Pool.ThreadPool.constructor | src/Utils/ThreadPool.cpp:4-8 | that many workers about to look at an empty queue |
| Pool.ThreadPool.Enqueue | src/Utils/ThreadPool.cpp:21-27 | push and then wake one sleeper if there is one: two steps of the protocol |
| Pool.ThreadPool.TakeTask | src/Utils/ThreadPool.cpp:33-45 | run the oldest task, quit when stopping with none left, sleep otherwise |
| Mailbox.EventOf | src/Client/MessageHandler.cpp:70-107 | a MESSAGE event always carries four fields |
| Mailbox.OneFieldIsRead | src/Client/MessageHandler.cpp:83-98 | OK, ERROR, USERS and LOG lines with one field free of delimiters are read as their event with that field |
| Mailbox.BareCommandIsRead | src/Client/MessageHandler.cpp:83-104 | without fields: the default texts, PING, or no event; no other command is an event |
| Mailbox.MessageIsRead | src/Client/MessageHandler.cpp:79-82 | a MESSAGE with fewer than four fields is no event, and fields after the fourth are ignored |
| Mailbox.UnreadableTimestamp | src/Client/MessageHandler.cpp:116-117 | a last field without digits becomes the current time |
| Mailbox.StoreRefines | src/Client/MessageHandler.cpp:109-123 | storing appends one entry to the log that the two vectors represent |
| Mailbox.ReadRefines | src/Client/MessageHandler.cpp:135-157 | reading succeeds exactly for indices below the counter, returns the logged fields, marks only from the second read on, and keeps the representation |
| Mailbox.MailboxRefinesLog | src/Client/MessageHandler.cpp:109-157 | after any stores and reads each index is in exactly one vector with its original content, unread in order, and readable as often as one likes |
| Mailbox.ReplySubjectOnce | src/Client/MessageHandler.cpp:175-177 | the subject is kept, behind exactly one "Re: ", and replying again does not stack it |
| Mailbox.ReplyIsRead | src/Client/MessageHandler.cpp:175-179 | the server reads recipient, prefixed subject and body of a reply as they are |
| Mailbox.MaySendMeans | src/Client/MessageHandler.cpp:18-26 | who may be written to: a word within the name limit or "all", with a subject within its limit |
| Mailbox.SendLineFields | src/Client/MessageHandler.cpp:17-29 | the server reads the three fields typed if and only if subject and body are free of the delimiter; recipient and command survive in any case |
| Mailbox.MessageHandler.constructor | src/Client/MessageHandler.cpp:13-15 | an empty mailbox |
| Mailbox.MessageHandler.SendCommand | src/Client/MessageHandler.cpp:31-38 | the line goes out exactly when the descriptor is valid and the stream takes it |
| Mailbox.MessageHandler.SendMessage | src/Client/MessageHandler.cpp:17-29 | a SEND line goes out exactly for a valid name or "all" and a valid subject |
| Mailbox.MessageHandler.StoreMessage | src/Client/MessageHandler.cpp:109-123 | the log grows by the entry; an unreadable timestamp becomes the current time |
| Mailbox.MessageHandler.ReadMessageByIndex | src/Client/MessageHandler.cpp:135-157 | the vectors change in place as specified and the logged fields come out, for exactly the indices handed out |
| Mailbox.MessageHandler.Find | src/Client/MessageHandler.cpp:164-171 | the first position holding an index, or none |
| Mailbox.MessageHandler.ReplyToMessage | src/Client/MessageHandler.cpp:159-180 | one line to the sender of the logged message, read or unread, which the server parses as that sender, the logged subject behind one prefix, and the body |
| Mailbox.MessageHandler.Listen | src/Client/MessageHandler.cpp:40-68 | of all bytes received, every MESSAGE is stored in order with consecutive indices and every PING is answered by one PONG, if the stream takes it |
| Mailbox.OnePongEach | src/Client/MessageHandler.cpp:57-61 | as many PONGs as PINGs, and nothing but PONGs |
| Mailbox.MessageHandler.ParseMessage | src/Client/MessageHandler.cpp:70-107 | the event of each kind of line, default texts included, or none |
| Sessions.RelayConserves | src/Server/Dispatcher.cpp:73-108 | each of the three outcomes settles the message in flight and touches no other |
| Sessions.DrainedIsSettled | src/Server/Dispatcher.cpp:42-111 | when the dispatcher has drained its queue every accepted message has a final fate |
| Sessions.DrainedAreDecided | src/Server/Dispatcher.cpp:63-108 | of the queued messages exactly those with a registered recipient and a successful send are delivered, each relayed to its recipient's socket; the others are undeliverable or failed, and earlier fates stand |
| Sessions.SavedLines | src/Server/Server.cpp:122-144 | the lines read back from a written list are the names in the order written |
| Sessions.BanListPersists | src/Server/Server.cpp:91-148 | loading what was saved restores the set if and only if its names are non-empty and without newline |
| Sessions.BansAreTokens | src/Server/Server.cpp:122-127 | the bans of any file, also one edited by hand, are its non-empty lines |
| ServerObjects.Server.constructor | src/Server/Server.cpp:21-25 | nobody registered or banned, an empty queue |
| ServerObjects.Server.GetUsernameBySocket | src/Server/Server.cpp:177-185 | a name registered for the socket, or the empty string when there is none |
| ServerObjects.Server.GetUserSocket | src/Server/Server.cpp:187-191 | the socket of a registered name, -1 otherwise |
| ServerObjects.Server.RegisterClient | src/Server/Server.cpp:198-201 | the name maps to the socket with a fresh last PONG; other names are untouched |
| ServerObjects.Server.UnregisterClient | src/Server/Server.cpp:203-206 | exactly that name is gone |
| ServerObjects.Server.UpdateClientPong | src/Server/Server.cpp:208-216 | only the last PONG of a registered name changes |
| ServerObjects.Server.GetAllClients | src/Server/Server.cpp:417-424 | every registered name exactly once, in some order |
| ServerObjects.Server.BanlistAdd | src/Server/Server.cpp:91-95 | the name is banned, and the file holds the new list or, if it cannot be opened, what it held before |
| ServerObjects.Server.BanlistRemove | src/Server/Server.cpp:97-106 | the name is no longer banned; the file is written only when it was and can be opened |
| ServerObjects.Server.SaveBanlist | src/Server/Server.cpp:133-148 | the loop writes every banned name on a line of its own, unless the file cannot be opened |
| ServerObjects.Server.LoadBanlist | src/Server/Server.cpp:113-131 | the line loop adds exactly the non-empty lines of the file |
| Handlers.CommandHandler.SendOK | src/Server/CommandHandler.cpp:22-25 | one OK line, its text "OK" when empty |
| Handlers.CommandHandler.HandleConnect | src/Server/CommandHandler.cpp:31-61 | each refusal with its reply, the close on a ban, or the registration: the whole new state |
| Handlers.CommandHandler.HandleDisconnect | src/Server/CommandHandler.cpp:63-81 | the name found for the socket is unregistered and the socket closed; nothing for an unknown socket |
| Handlers.CommandHandler.HandleSendMessage | src/Server/CommandHandler.cpp:83-155 | every refusal, the broadcast and the direct message: replies, counter and queue |
| Handlers.CommandHandler.Route | src/Server/CommandHandler.cpp:119-154 | a valid message goes to everybody else, to its recipient, or back as the fitting error |
| Handlers.CommandHandler.Broadcast | src/Server/CommandHandler.cpp:123-132 | the loop offers one copy to every other name in order |
| Handlers.CommandHandler.HandlePing | src/Server/CommandHandler.cpp:157-161 | one PONG line |
| Handlers.CommandHandler.HandlePong | src/Server/CommandHandler.cpp:163-173 | the last PONG of the name found for the socket, and nothing else |
| Handlers.CommandHandler.HandleListUsers | src/Server/CommandHandler.cpp:175-190 | the loop and the trimmed comma give the names joined by commas |
| Handlers.CommandHandler.HandleGetLog | src/Server/CommandHandler.cpp:192-223 | the last 50 lines, or the texts for a missing or an empty file |
| Handlers.CommandHandler.ExecuteCommand | src/Server/Server.cpp:309-326 | the handler of the command's name with the command put first, or the error naming it |
| Handlers.CommandHandler.HandleLine | src/Server/Server.cpp:389-410 | an invalid line changes nothing, the end of the stream disconnects a registered client |
| Handlers.CommandHandler.FindTimedOut | src/Server/Server.cpp:252-270 | exactly the clients whose silence in whole seconds exceeds the limit |
| Handlers.CommandHandler.EvictAll | src/Server/Server.cpp:272-279 | the clients of the list are disconnected one after the other, each through the socket it has by then |
| Handlers.CommandHandler.EvictOne | src/Server/Server.cpp:272-279 | one listed client is disconnected through its socket, if it still has one |
| Handlers.CommandHandler.CheckClientTimeouts | src/Server/Server.cpp:252-280 | from a registry with one name per socket exactly the timed-out clients go and each of their sockets is closed once |
| Handlers.EvictedAreGone | src/Server/Server.cpp:272-279 | with one name per socket, scanning back from the socket finds the listed name every time, so no other client is hit |
| Handlers.CommandHandler.PingClients | src/Server/Server.cpp:232-241 | the line "PING" to every registered socket |
| Handlers.CommandHandler.Deliver | src/Server/Dispatcher.cpp:73-108 | relay and count, notify the sender of a missing recipient, or only log a failed send |
| Handlers.CommandHandler.RunDispatcher | src/Server/Dispatcher.cpp:42-111 | the loop handles every queued message in order and leaves the queue empty |
| Handlers.AdminCommandHandler.DisconnectUser | src/Server/AdminCommandHandler.cpp:251-265 | the reason is sent, the name unregistered and its socket closed; false and no change for an unknown name |
| Handlers.AdminCommandHandler.CmdKick | src/Server/AdminCommandHandler.cpp:148-154 | the named client is disconnected |
| Handlers.AdminCommandHandler.CmdBan | src/Server/AdminCommandHandler.cpp:156-163 | a registered name leaves the registry, joins bannedUsers and, if it can be written, the file; for an unknown one nothing changes |
| Handlers.AdminCommandHandler.CmdUnban | src/Server/AdminCommandHandler.cpp:165-173 | exactly that name is no longer banned |
| Handlers.AdminCommandHandler.JoinWords | src/Server/AdminCommandHandler.cpp:111-116 | the loop joins the words from a position on by single blanks |
| Handlers.AdminCommandHandler.CmdBroadcast | src/Server/AdminCommandHandler.cpp:83-106 | one announcement line to every registered socket |
| Handlers.AdminCommandHandler.CmdSend | src/Server/AdminCommandHandler.cpp:108-131 | one private line to the named client, nothing for an unknown one |
| Handlers.AdminCommandHandler.TypedBroadcast | src/Server/AdminCommandHandler.cpp:52-88 | a typed "/broadcast text" announces exactly the text |
| Forwarding.RelayIsRead | src/Server/Dispatcher.cpp:92-101 | the client reads a relayed line as exactly sender, subject, body and timestamp |
| Forwarding.RelayIsStored | src/Client/MessageHandler.cpp:112-119 | the stored entry has the message's fields and its timestamp as the number it was |
| Forwarding.OtherCommandIsNoMessage | src/Client/MessageHandler.cpp:79-104 | whatever its fields, a line of another command is never taken for a MESSAGE |
| Forwarding.AdminLineIsFromServer | src/Server/AdminCommandHandler.cpp:97-125 | an administrator's line always shows SERVER as its sender, even with delimiters in the text |
| Forwarding.UserListRoundTrip | src/Server/CommandHandler.cpp:175-190 | the client's split of the USERS reply on commas gives the names listed, and the empty list for none |
| Forwarding.PingIsAnswered | src/Client/MessageHandler.cpp:57-61 | the server's PING makes the client send the line that sets its own last PONG and nothing else |
| Forwarding.HandledQueues | src/Server/CommandHandler.cpp:91-148 | whatever a line queues is a SEND's: the sender is the registered name, subject and body the sanitised arguments, the recipient registered |
| Forwarding.CausedIsForwarded | src/Server/Dispatcher.cpp:92-101 | a message caused by a line reads at the other end as sender, sanitised subject and body, timestamp, within that length |
| Forwarding.LosslessForwarding | src/Server/CommandHandler.cpp:100-105 | for any line that queues a message the recipient reads exactly sender, sanitised subject and body, timestamp; at most sender + timestamp + 4 bytes longer |
| Forwarding.RelayIsReceived | src/Utils/NetworkStream.cpp:75-79 | the recipient's stream takes the relayed line if and only if its four fields fit in MAX_MESSAGE_SIZE - 12 bytes |
| Forwarding.RoomyLineIsReceived | src/Utils/NetworkStream.cpp:75-79 | a line that far below the limit is always received at the other end |
| Forwarding.QueuedLineIsReceived | src/Utils/NetworkStream.cpp:75-79 | what the server makes of a line is received by its recipient if and only if sender, subject, body and timestamp of the line fit in MAX_MESSAGE_SIZE - 12 bytes |
| Forwarding.LongestLineBreaksTheRecipient | src/Server/CommandHandler.cpp:100-148 | with alice and bob registered, a line of alice's within the limit whose message is queued and, relayed, ends bob's stream |
| Forwarding.BroadcastReaches | src/Server/CommandHandler.cpp:119-136 | under REJECT with f free slots and n other users exactly min(f, n) copies are queued, distinct recipients, never the sender, equal but for the recipient; everyone when f >= n |
| Replies.SendIsAnswered | src/Server/CommandHandler.cpp:83-155 | each case of a SEND line: the one line its sender gets, as its client reads it, with what happened to queue and counter |
| Replies.AcknowledgedIffAccepted | src/Server/CommandHandler.cpp:138-154 | for a message to one recipient the sender reads OK if and only if it was accepted, and ERROR if and only if the ledger is as it was |
| Replies.ConnectIsAnswered | src/Server/CommandHandler.cpp:31-61 | each case of a CONNECT line: what the client reads, with what happened to registry and connection |
| Replies.WelcomedIffRegistered | src/Server/CommandHandler.cpp:31-61 | the client reads OK if and only if the name is newly registered for its connection |
| Replies.StrangeLineIsAnswered | src/Server/Server.cpp:309-326 | an empty line is ignored; an unknown command is named to the client and changes nothing |
| Replies.PingIsReturned | src/Server/CommandHandler.cpp:157-161 | a PING line gets a PONG line and changes nothing |
| Replies.UsersAreListed | src/Server/CommandHandler.cpp:175-190 | a LIST_USERS line gets one line that the client splits into exactly the registered names, and changes nothing |
| Replies.LogIsShown | src/Server/CommandHandler.cpp:192-223 | a GET_LOG line gets the error, the notice, or the last 50 lines, which the client gets whole when they are free of delimiters |
| Administration.KickStep | src/Server/AdminCommandHandler.cpp:148-154 | the client named, and nobody else, reads the reason and loses registration and socket; for an unknown name nothing happens |
| Administration.BanStep | src/Server/AdminCommandHandler.cpp:156-163 | the same with the ban's reason, and exactly that name joins the ban list |
| Administration.UnbanStep | src/Server/AdminCommandHandler.cpp:165-173 | exactly that name leaves the ban list and nothing else changes |
| Administration.BannedIsTurnedAway | src/Server/CommandHandler.cpp:45-50 | a line asking for a banned name gets the ban notice and then the close |
| Administration.BanHolds | src/Server/CommandHandler.cpp:45-50 | in every run, from the ban of a client until its name is unbanned, the name is banned, nobody has it, and every line asking for it is turned away |
| Administration.AnnouncementReaches | src/Server/AdminCommandHandler.cpp:90-102 | every registered client reads the announcement once, from SERVER |
| Administration.PrivateMessageReaches | src/Server/AdminCommandHandler.cpp:118-125 | the client named reads the private message, from SERVER; nobody else gets anything |
| Administration.RoundPingsEverybody | src/Server/Server.cpp:232-241 | a heartbeat round sends every registered client one line, which it reads as a PING |
| Administration.RoundIsAnswered | src/Server/Server.cpp:232-241 | the line sent in answer to the one received sets that client's last PONG and nothing else |
| Administration.SenderIsTold | src/Server/Dispatcher.cpp:76-90 | when the recipient is gone the sender reads who could not be reached |
| Administration.ReceivedIsCounted | src/Server/CommandHandler.cpp:83-98 | totalMessagesReceived is the number of complete SEND lines from registered connections |
| System.HandledChange | src/Server/Server.cpp:309-326 | a received line registers, refuses, disconnects or marks a PONG and nothing else, and its replies go to its own connection and are no MESSAGE |
| Safety.FrameKeepsSound | src/Server/CommandHandler.cpp:31-81 | a line other than a disruptive one, even handled after its connection was closed, keeps: one name per socket, registered sockets open, nothing closed twice |
| Safety.OtherKeepsSound | src/Server/AdminCommandHandler.cpp:251-265 | so do kicks, bans, evictions, hang-ups, deliveries and all other steps |
| Safety.DisruptionBreaks | src/Server/CommandHandler.cpp:45-57 | a disruptive line always breaks it |
| Safety.SoundIffNoDisruption | src/Server/CommandHandler.cpp:31-75 | every state of a run is sound if and only if none of its lines is disruptive |
| Safety.SecondConnectRun | src/Server/CommandHandler.cpp:31-61 | a run of four steps after which two names share one socket |
| Safety.LateConnectRun | src/Server/Server.cpp:393-407 | a run of five steps in which a line received before a kick is handled after it and registers a closed socket |
| Safety.LookupsAreInverse | src/Server/Server.cpp:177-191 | in a sound state the lookups by name and by socket undo each other |
| Safety.RegistrationIsKept | src/Server/Server.cpp:193-201 | no step gives a registered name another socket |
| Safety.PlumbingAndBansAlways | src/Server/CommandHandler.cpp:39-57 | in every run: no registered name is banned, registered names are words, each connection is with at most one worker |
| Safety.BansPersist | src/Server/Server.cpp:91-148 | for every reachable ban list, loading what was saved restores exactly it |
| Safety.UserListIsExact | src/Server/CommandHandler.cpp:175-190 | in every reachable state the answer to LIST_USERS, read by the client, lists exactly the registered names without repetition |
| Service.RegisteredIsServed | src/Server/Server.cpp:376-410 | in an undisturbed run every registered socket has a worker looping on it |
| Service.ExactlyOneWorker | src/Utils/ThreadPool.cpp:41-49 | and only one |
| Service.ClientsFitThePool | src/Server/Server.cpp:376-410 | there are never more registered clients than workers, whatever the connection limit |
| Service.TieStep | src/Server/CommandHandler.cpp:31-81 | a step ties a connection (registers or closes it) only by answering its CONNECT, and a tie is never undone: every registration ends by closing the socket |
| Service.TiedIffAnswered | src/Server/CommandHandler.cpp:45-60 | in every run a connection is registered or closed if and only if one of its lines was answered with OK or with the ban notice |
| Service.UndisturbedIffOneAnswer | src/Server/CommandHandler.cpp:31-61 | no line of a run is disruptive if and only if no connection gets two such answers |
| Service.SoundIffOneAnswer | src/Server/CommandHandler.cpp:31-75 | every state of a run is sound if and only if no connection gets two such answers |
| Service.OneConnectIsOneAnswer | src/Server/CommandHandler.cpp:31-61 | one CONNECT line on each connection is enough for that |
| Service.UndisturbedService | src/Server/Server.cpp:389-410 | then every state is sound, every client is served and the clients fit the pool |
| Delivery.MessagesAlwaysOk | src/Server/Dispatcher.cpp:17-108 | in every state of every run of the whole server the dispatcher's ledger balances and every accepted message can be relayed faithfully |
| Delivery.AcceptedWasSent | src/Server/CommandHandler.cpp:91-148 | every accepted message leads back to one line of its registered sender with its sanitised subject and body |
| Delivery.TracedAlways | src/Server/Dispatcher.cpp:73-108 | in every run every line on every socket is what its origin says: relays carry delivered messages, in the order of acceptance, to a name the connection has registered; other MESSAGE lines are from SERVER |
| Delivery.RegisteredIffGot | src/Server/CommandHandler.cpp:37-60 | a connection has a name on record if and only if one of its lines asked for it and got it |
| Delivery.OneNameEach | src/Server/CommandHandler.cpp:37-60 | with one answer to each connection it has one name at most |
| EndToEnd.EndToEndDelivery | src/Client/MessageHandler.cpp:40-123 | in every run, what a mailbox holds from one sender is, by index, an in-order selection without repetition of that sender's delivered messages to names this connection had, same contents; none relayed so far is missing |
| EndToEnd.OneRecipient | src/Server/CommandHandler.cpp:37-60 | with one answer to each connection, all messages delivered on it are addressed to one name |
| EndToEnd.BytesToMailbox | src/Utils/NetworkStream.cpp:32-90 | the same, none missing included, for any first part of the connection's bytes, cut anywhere |
| EndToEnd.WholeMailbox | src/Client/MessageHandler.cpp:109-123 | the mailbox is exactly the relays and the administrators' lines, in the order sent, one entry each with its contents |
| EndToEnd.DeliveredWasSent | src/Server/Dispatcher.cpp:103-108 | a message counts as delivered only when its relay went out |
| Heartbeat.StepKeepsInv | src/Server/Server.cpp:220-280 | where the last PONG of each client can lie between PINGs and checks, kept by every step |
| Heartbeat.RhythmAlways | src/Server/Server.cpp:220-280 | at no time has a registered client been silent for 126 seconds |
| Heartbeat.EvictedAge | src/Server/Server.cpp:252-280 | a check evicts exactly the clients silent for at least 91 seconds, none older than 126 |
| Heartbeat.EvictedSilence | src/Server/Server.cpp:220-280 | in PINGs: exactly those with four unanswered, or with three and a last answer at most 19 seconds after its PING |
| Heartbeat.OnlyChecksEvict | src/Server/Server.cpp:264-279 | no other step removes a client that does not leave by itself |
| Heartbeat.FaithfulClientStays | src/Server/Server.cpp:220-280 | a client at most two PINGs behind at every check is never evicted |
| Heartbeat.OneInThreeIsEvicted | src/Server/Server.cpp:243-246 | a run in which a client that answers the first PING at once and not the next two is evicted five seconds after the fourth |
| ClientSession.RequestIsNoConnect | src/Client/MessageHandler.cpp:17-38 | however its fields are filled in, no request of a connected client reads as a CONNECT |
| ClientSession.RequestsAreUnderstood | src/Client/ClientUI.cpp:191-200 | what the server parses of each request |
| ClientSession.OneConnectPerSocket | src/Client/Client.cpp:28-106 | over any use of the client every connection carries at most one CONNECT line, its first |
| ClientSession.ConnectSucceeds | src/Client/Client.cpp:28-88 | a connect succeeds if and only if every call does and the answer is an OK; the text of an ERROR is handed on |
| ClientSession.Handshake | src/Client/Client.cpp:61-82 | given the server's answer to its CONNECT, the client is connected if and only if the server has registered it, under the name typed if and only if that is free of the delimiter |
| ClientSession.ClientsAreServed | src/Client/Client.cpp:28-106 | when the lines of every connection come from some use of this client, the registry is sound, every client is served and the clients fit the pool |
| ClientSession.Client.constructor | src/Client/Client.cpp:14-17 | not connected, no socket |
| ClientSession.Client.Connect | src/Client/Client.cpp:28-88 | success exactly when every call succeeds and the reply is OK; otherwise the error text of the first failure and a closed socket |
| ClientSession.Client.Disconnect | src/Client/Client.cpp:90-106 | a connected client says DISCONNECT on a valid socket and closes it; otherwise nothing |
| Steps.Start | src/Server/Server.cpp:75-83 | a server with its ban file loaded is the initial state of a run |
| Steps.OnLine | src/Server/Server.cpp:389-410 | handling a line, or the end of the stream, is an enabled step of the run and takes the object to its state |
| Steps.OnKick | src/Server/AdminCommandHandler.cpp:148-154 | so is a kick |
| Steps.OnBan | src/Server/AdminCommandHandler.cpp:156-163 | so is a ban |
| Steps.OnUnban | src/Server/AdminCommandHandler.cpp:165-173 | so is an unban |
| Steps.OnBroadcast | src/Server/AdminCommandHandler.cpp:83-106 | so is an announcement, with the text typed |
| Steps.OnSend | src/Server/AdminCommandHandler.cpp:108-131 | so is a private message |
| Steps.OnPings | src/Server/Server.cpp:232-241 | so is a round of PINGs |
| Steps.OnEvict | src/Server/Server.cpp:272-279 | so is one eviction |
| Steps.OnTake | src/Server/Dispatcher.cpp:53-66 | so is the dispatcher's pop, which leaves the message it returns in flight |
| Steps.OnDeliver | src/Server/Dispatcher.cpp:73-108 | so is its delivery |
| Steps.SteppedIsReached | src/Server/Server.cpp:309-326 | such steps, one after the other, make up a run |
| Steps.ReachedIsSafe | src/Server/Server.cpp:91-148 | so no server object ever has a registered name that is banned, and its ban list survives being saved and loaded |

## Left out

- Sockets: bind, listen, accept, partial writes and descriptor reuse are calls into the system (see Assumptions).
- `Server::start`, `Server::stop`, destructors and signals: shutdown ends the process, so nothing is proved about draining or joining.
- Data races on plain fields and the pool's unlocked `stop = true`: sequentially consistent steps are assumed.
- Logger, ClientUI, the printing commands of the administrator (`cmdStats`, `cmdList`, `cmdHelp`, `cmdConfig`) and `formatTimestamp`: output only.
- The table of administrator commands with its argument counts (`src/Server/AdminCommandHandler.cpp:64-67`): it appears as the `requires` of the commands.
- `waitingForPong` and `CLIENT_TIMEOUT_S`: written or defined, never read.
- The delay between two messages (`delayBetweenMessages`): a sleep without effect on the order.
- `messageCounter` is a mathematical integer: more than 2^31 messages in one mailbox are not modelled.
- Handlers.CommandHandler.HandleGetLog: the lines of the log file are a parameter; reading the file is not modelled, and no round trip is claimed since log text may contain the delimiter.
- Mailbox.MessageHandler.Listen: reads by another thread between two stores are covered by `Mailbox.MailboxRefinesLog`, not by this method.
- Mailbox.MessageHandler.StoreMessage: the current time is a function of the message's number.
- Pool.ThreadPool.Enqueue: push and notification run without a gap; the interleavings between them are covered by `Pool.StepConservesWork`.
- Dispatch.Dispatcher.QueueMessage: the notification has no effect in the object; it is a step of its own in `DispatcherProtocol`.
- Handlers.CommandHandler.RunDispatcher: runs until the queue is empty instead of going to sleep; the sleep is part of `DispatcherProtocol`.
- Handlers.CommandHandler.CheckClientTimeouts: the whole check is one call here; in runs of the server each eviction is a step of its own.
- ClientSession.Client.Connect: a MESSAGE relayed between the server's registration and its OK would be taken for the reply and refused; the model shows the refusal, and such a client's mailbox never exists.
- EndToEnd.EndToEndDelivery: speaks of messages relayed; that a queued message is relayed at all depends on the recipient still being registered and the send succeeding, as in the source.
- EndToEnd.BytesToMailbox: lines of 4 GiB and more are excluded, whose 32-bit length would wrap.
