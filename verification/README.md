# The update protocol of net-pixeld, modelled and proved in Dafny

net-pixeld is a small game server and client. The server keeps accounts in a JSON file, gives every
connection an 8-bit id, binds a connection to an account when its login succeeds, and once a second
grants every logged-in connection 10 of each resource and tells it so. Messages are single-line JSON
objects over TCP; the client accepts only consecutively numbered messages of a type and shows the
resources of its own account. This project models all of that, from the bytes to the account file, and
proves what the parts guarantee together.

## How it is organised

Three layers describe the same system.

*Values.* Each callback is a function from state to state: `Json`, `Protocol`, `Framing`, `Uuid` (the
wire and its text), `Accounts` (the table, its JSON tree, the two files), `WriteQueue` (one session's
strand, queue and wire), `ServerSpec` (the server), `Filter` and `ClientSpec` (the client).

*Objects.* The classes `JsonDB`, `Session`, `Server`, `NetworkClient` and `Application` have the fields
and the loops of the source. Every method is proved to do to its object's `View()` exactly what the
function of the value layer says, so all that is proved about the functions holds of the methods.

*Runs.* `Worlds` puts one server process after another, all sessions they ever accepted, and a client at
the other end of each into one transition system. An event is one atomic step of the environment or the
program: an accept, bytes read (any bytes: a peer may send whatever it likes), a line handled, end of
file, a strand task, part of a write, a write's completion or failure, a tick in any iteration order, a
crash at any moment (also in the middle of a tick), a restart, a client's read of any number of bytes, a
line queued, a message polled, a frame's end. `Invariant` and `Preservation` hold the inductive
invariant; `Theorems`, `Delivered`, `Notices`, `CatchingUp`, `Conservation` and `Playing` hold what follows from it
for every reachable state and every run. `Runs` builds runs from pieces, and `Failures` uses it to show runs
in which an expectation fails.

| file | content |
|---|---|
| Prelude, Text | integer widths, options, sequences, the order of object keys |
| Json, Protocol, Grammar, WireText | printer and reader, message envelope, round trip, the grammar the reader accepts, the text of what is sent |
| Framing | newline framing, independence of how a stream is cut |
| Uuid, Accounts, JsonDB | uuid text, account table, save and load, crash consistency, the class |
| WriteQueue, Session | outgoing queue and strand, the class |
| ServerSpec, Ticks, Server | server callbacks, the tick as a whole, the class |
| Filter, ClientSpec, NetworkClient, Application | sequence filter, scenes, receive loop, frame loop |
| Connections, Worlds, Invariant, Preservation | the transition system and its invariant |
| Theorems, Delivered, Notices, CatchingUp, Conservation, Playing | the guarantees |
| Runs, Failures | pieces of runs, and the runs that show where the guarantees end |

## What was found

Some expected properties do not hold of the code as it stands. Each comes with its exact condition, and
with a reachable state or run, without a crash and from an empty database, in which it fails.

- *The process can end by itself.* `getSession` makes a null entry for an id nobody is filed under, and
  the login handler dereferences it. Besides a crash this is the only way a server process ends
  (`Theorems.EndsOnlyByNullLogin`). It happens when a failed write has disconnected a session that is
  still read from, and a valid login arrives on it (`Failures.NullLoginRun`). Among the first 256 sessions
  it cannot happen before a write of that session has failed (`Theorems.FirstSessionsAreSafe`).
- *Updates can be filtered away.* A reused id goes on from the counter of its predecessor
  (`Theorems.ReusedIdInherits`, `Theorems.RoundToRound`), and the new client's filter drops updates until
  the 32-bit counter comes round. `Theorems.Delivery` gives the exact window of updates that pass and the
  condition under which none is dropped; in `Failures.UpdateFilteredAway` the 257th connection receives an
  update and drops it.
- *The numbers run out.* After 2^32 - 1 updates a client takes no more, because the wrapped number is not
  above the last one (`Filter.WrappedNeverAccepted`). A client comes to that point exactly as
  `Filter.RunsOutIff` says, and can come to it (`Failures.NumbersRunOut`).
- *Client and session can disagree on the account.* Every login result carries sequence 1, so only the
  first counts for the client, while the server rebinds the session each time. They agree exactly when the
  last result names the account of the first (`Theorems.ClientIdentity`, `Failures.IdentitiesPart`).
- *A client's own update can be lost at the login scene.* It is used up by the filter and never shown
  (`Theorems.ShowsLatestOwnUpdate`, `Failures.UpdateNeverShown`).
- *A disconnect can unfile another session.* It does exactly when 256 sessions have been accepted since
  and the id is filed (`Delivered.DisconnectRemoves`, `Failures.OtherSessionUnfiled`).
- *A login can bind another session.* The one that sent it is bound and answered exactly when its id is
  filed and no 256 sessions have been accepted since (`Theorems.LoginReaches`,
  `Failures.OtherSessionBound`).
- *Resources can shrink.* They do exactly when a grant to that account wraps around 2^64
  (`Theorems.FileNeverShrinksIff`, `Failures.ResourcesShrink`); this is the one condition of the theorems
  about what a client shows.

## Assumptions

The strand runs its tasks in the order they were posted; TCP delivers bytes in order and unchanged; a
mutex makes a section atomic; `rename` is atomic and the temp file is complete before it; the single
thread in `run` makes a callback atomic. A newly generated uuid is one no account has. The first process
starts from a file that loads, whose non-empty uuids are distinct ASCII strings. What a hash table
iterates over in which order is a free choice everywhere (`order`, `rehash`), and so is every cut of a
stream into reads. A crash inside a callback is the crash before it, with the temp file in any state,
when the rename has not happened (`Accounts.CrashDuringSave`), and else the callback followed by a crash:
what it posted is never written. `ended` stands for a process that is over, by a crash, a null dereference or
an uncaught exception; `alive` becomes false where an exception leaves the client's `Update`.

JSON values are objects, ASCII strings and 64-bit integers. `get<uintN_t>` truncates to the width as the
JSON library does.

## Model

| member | source | states |
|---|---|---|
| Json.ParsePrint | common/Protocol.hpp:32-37 | reading the compact text of any wire value, with every escape and any integer of 64 bits, gives the value back |
| Json.PrintOneLine | common/Protocol.hpp:26-33 | the compact text of a wire value is ASCII and has no newline, whatever its strings contain |
| Json.ParsedIsWire | common/Protocol.hpp:35-37 | whatever is read from any text is a value the wire can carry |
| Grammar.ParsesGrammar | common/Protocol.hpp:35-37 | a text parses, to a value, if and only if the grammar of RFC 8259 (sections 2, 4, 6 and 7, for the subset) derives the text and gives it that value; white space, escapes and repeated keys included |
| Text.LeqMeaning | common/Protocol.hpp:28-32 | names are ordered as byte strings: a prefix first, else the smaller byte at the first difference |
| WireText.PlainQuoted | common/Protocol.hpp:33 | text without quotes, backslashes and control characters stands in quotes as it is |
| WireText.PrintBodyAppend | common/Protocol.hpp:33 | a string is printed character by character |
| WireText.Escapes | common/Protocol.hpp:33 | any other character is printed with its one-letter escape, or without one as four lower-case hex digits |
| WireText.IntText | common/Protocol.hpp:33 | an integer is printed in decimal without leading zeros, with a minus exactly when negative |
| WireText.SerializeText | common/Protocol.hpp:26-33 | the exact bytes of any message: payload, sequence, type in this order, no white space, and a newline |
| WireText.HandshakeText | server/src/Server.cpp:54-58 | the exact bytes of the handshake |
| WireText.LoginResultText | server/src/main.cpp:36-41 | the exact bytes of a login result |
| WireText.ResourceUpdateText | server/src/Server.cpp:93-100 | the exact bytes of a resource update |
| Protocol.RoundTrip | common/Protocol.hpp:26-42 | parsing a serialized message without its last newline gives the message back, for every type, 32-bit sequence and payload; that newline is the only one, and no carriage return precedes it |
| Protocol.SerializeInjective | common/Protocol.hpp:26-33 | two messages with the same text are the same message |
| Protocol.ParsedMessagesTravel | common/Protocol.hpp:35-42 | a message parsed from any text can be serialized and parsed again unchanged |
| Protocol.ParseMeans | common/Protocol.hpp:35-42 | a text is a message if and only if it is an object with a string type, a number as sequence, taken modulo 2^32, and a payload |
| Framing.LinesSplit | server/src/Session.cpp:34-38 | the lines and the tail of a byte stream put together are the stream, and neither contains a newline of its own |
| Framing.SplitUnique | server/src/Session.cpp:34-38 | there is only one way to split a stream so |
| Framing.LinesAppend | server/src/Session.cpp:26-36 | the lines of a longer stream are those of the first part, then those of the kept tail with the rest |
| Framing.RunFramed | client/src/network/NetworkClient.cpp:47-72 | after any interleaving of reads and takes, lines taken and lines still buffered are the lines of everything received, and the tail is the stream's |
| Framing.ChunkingIrrelevant | server/src/Session.cpp:23-52 | however a stream is cut into reads, a reader that has taken all it can has taken exactly its lines, in order, and keeps exactly the rest |
| Framing.MessageFirst | client/src/network/NetworkClient.cpp:56-65 | a stream that starts with a serialized message hands over exactly that message and leaves the rest |
| Framing.CrLfRead | server/src/Session.cpp:37-38 | a message whose line ends in a carriage return and a newline is read as well |
| Framing.PartialMessage | client/src/network/NetworkClient.cpp:52-54 | a proper prefix of a serialized message holds no complete line |
| Framing.StreamDecodes | client/src/network/NetworkClient.cpp:47-72 | a concatenation of serialized messages, followed by part of one, decodes to exactly those messages |
| Uuid.FormatRecovers | server/inc/JsonDB.hpp:207-217 | a uuid has 32 lower-case hex digits, and both 64-bit numbers can be read back, leading zeros included |
| Uuid.FormatInjective | server/inc/JsonDB.hpp:207-217 | two pairs of numbers have the same uuid exactly when they are the same pair |
| Accounts.SaveLoadRoundTrip | server/inc/JsonDB.hpp:136-196 | decoding the tree saved for any table gives back every password, uuid, resource and camp level |
| Accounts.NormalizingIsStable | server/inc/JsonDB.hpp:144-196 | loading, saving and loading any file that loads is the same as loading it, whatever members it lacks |
| Accounts.FileLayout | server/inc/JsonDB.hpp:147-166 | where a file written by anyone is looked into, and what each member becomes, numbers truncated to their width |
| Accounts.MissingIsDefault | server/inc/JsonDB.hpp:149-159 | an account without a password, uuid, resources or camp levels is read like one with the empty text or object there |
| Accounts.MissingIsNone | server/inc/JsonDB.hpp:153-157 | a missing resource is read as 0 |
| Accounts.EmptyAccount | server/inc/JsonDB.hpp:144-169 | an empty account has nothing, and a file without accounts is an empty table |
| Accounts.UnreadableIff | server/inc/JsonDB.hpp:142-169 | a file fails to load if and only if some value it is looked into for has another type |
| Accounts.SavedMembers | server/inc/JsonDB.hpp:174-196 | a save writes exactly these members, for exactly the accounts and camps of the table |
| Accounts.CrashDuringSave | server/inc/JsonDB.hpp:198-204 | a crash at any step that save goes through, with any stale temp file, leaves a file that loads to the table before the operation, or after the rename to the one after it |
| Accounts.SavedSound | server/inc/JsonDB.hpp:172-205 | a save keeps memory equal to what the file decodes to, and every account the history ever had |
| Accounts.UpdateResourcesSound | server/inc/JsonDB.hpp:74-87 | updating resources keeps the database sound: coherent, typed, distinct uuids, file equal to memory, accounts permanent |
| Accounts.SetCampLevelSound | server/inc/JsonDB.hpp:106-121 | so does setting a camp level |
| Accounts.CampLevelSet | server/inc/JsonDB.hpp:106-121 | after setting a level the account has that level, its other camps and everything else it had, and every other account is as before |
| Accounts.AddUserSound | server/inc/JsonDB.hpp:51-63 | so does adding a user with a uuid nobody has |
| Accounts.BootSound | server/inc/JsonDB.hpp:19-23 | a restart from the files gives back exactly the table that was in memory |
| Accounts.OwnerFound | server/inc/JsonDB.hpp:68-71 | with distinct uuids the linear scan finds the one owner in any iteration order |
| Accounts.OwnerIsFirst | server/inc/JsonDB.hpp:77-80 | where several accounts have one uuid, the scan finds the first in iteration order |
| Accounts.OwnerRow | server/inc/JsonDB.hpp:65-87 | reading and writing by uuid reach the owner's row and no other |
| Accounts.OrderIrrelevant | server/inc/JsonDB.hpp:65-87 | the hash table's iteration order does not influence what is read or written by uuid |
| JsonDBs.LevelsTree | server/inc/JsonDB.hpp:187-192 | the loop builds the tree of all camp levels |
| JsonDBs.TreeOf | server/inc/JsonDB.hpp:178-192 | an account becomes its tree |
| JsonDBs.LevelsOf | server/inc/JsonDB.hpp:160-166 | the loop reads back every camp level, or throws when one is no number |
| JsonDBs.AccountOf | server/inc/JsonDB.hpp:147-166 | an account is read with defaults for missing members; a member of another type throws |
| JsonDBs.TableOf | server/inc/JsonDB.hpp:144-169 | the loop reads every account, or throws when one does |
| JsonDBs.JsonDB.Open | server/inc/JsonDB.hpp:19-23 | opening gives the table the file decodes to, an empty one without a file, and fails exactly when the file does not load |
| JsonDBs.JsonDB.UserExists | server/inc/JsonDB.hpp:25-29 | true exactly for a registered name |
| JsonDBs.JsonDB.VerifyUser | server/inc/JsonDB.hpp:31-37 | true exactly for a registered name with its password |
| JsonDBs.JsonDB.GetUser | server/inc/JsonDB.hpp:39-49 | the account's uuid, or the exception of an unknown name or a wrong password |
| JsonDBs.JsonDB.Find | server/inc/JsonDB.hpp:77-80 | the scan stops at the first account with the uuid in iteration order |
| JsonDBs.JsonDB.GetResources | server/inc/JsonDB.hpp:65-72 | the owner's resources, or the exception |
| JsonDBs.JsonDB.GetCampLevels | server/inc/JsonDB.hpp:89-96 | the owner's camp levels, or the exception |
| JsonDBs.JsonDB.GetCampLevel | server/inc/JsonDB.hpp:98-104 | one camp's level, 0 when it was never set |
| JsonDBs.JsonDB.UpdateResources | server/inc/JsonDB.hpp:74-87 | the owner's resources are replaced and the table saved; without an owner nothing changes |
| JsonDBs.JsonDB.SetCampLevel | server/inc/JsonDB.hpp:106-121 | one level of the owner is replaced and the table saved; without an owner nothing changes |
| JsonDBs.JsonDB.AddUser | server/inc/JsonDB.hpp:51-63 | a new account with the drawn uuid and no resources is added and saved; an existing name changes nothing |
| JsonDBs.JsonDB.Save | server/inc/JsonDB.hpp:172-205 | afterwards the file holds the tree of the whole table and no temp file is left; on the way the disk goes through exactly the steps of `SaveSteps` |
| WriteQueue.StepOrderly | server/src/Session.cpp:54-84 | every step keeps: at most one write in flight, until a failure one exactly when the queue is not empty, and texts sent equal completed, queued and posted texts in order |
| WriteQueue.WireIsPrefix | server/src/Session.cpp:54-84 | the bytes written are a prefix of the texts of everything sent, in send order |
| WriteQueue.WireGrows | server/src/Session.cpp:69-84 | no step takes a byte back, and after a failed write none adds one |
| WriteQueue.RunOrderly | server/src/Session.cpp:54-84 | over any run the queue stays orderly and the wire only grows, and once a write has failed it never changes |
| WriteQueue.WorkDecreases | server/src/Session.cpp:59-83 | every strand task, part of a write and completion decreases a measure that is never negative |
| WriteQueue.QueueDrains | server/src/Session.cpp:59-83 | without new sends and failures only finitely many steps are possible, and when none is left every text has been written |
| ServerSession.Session.constructor | server/src/Session.cpp:3-9 | a new session has its id, no uuid, empty queues and no operation armed |
| ServerSession.Session.SetUUID | server/inc/Session.hpp:34 | binds the session to a uuid and changes nothing else |
| ServerSession.Session.Start | server/src/Session.cpp:18-21 | arms the first read |
| ServerSession.Session.GetLine | server/src/Session.cpp:34-36 | takes the first line out of the buffer and leaves the bytes after its newline |
| ServerSession.Session.OnRead | server/src/Session.cpp:29-51 | one line is taken, stripped of one carriage return and parsed, and the next read armed; an error arms none |
| ServerSession.Session.Send | server/src/Session.cpp:54-67 | posts the message's text to the strand; the queue is untouched until the strand gets to it |
| ServerSession.Session.RunPosted | server/src/Session.cpp:60-66 | the first posted text joins the queue and starts a write only if the queue was empty |
| ServerSession.Session.DoWrite | server/src/Session.cpp:69-75 | one more write is in flight, on the front text |
| ServerSession.Session.OnWritten | server/src/Session.cpp:76-83 | success pops the front and starts the next write; failure pops nothing and starts none |
| Ticks.TickOneGrants | server/src/Server.cpp:83-106 | one loop iteration adds 10 of everything to the session's account and to no other |
| Ticks.TickPerAccount | server/src/Server.cpp:83-107 | after a tick each account has grown by 10 times the number of sessions bound to it, modulo 2^64, and nothing else about any account has changed |
| Ticks.TickOrderIrrelevant | server/src/Server.cpp:83-107 | the table after a tick is the same for every iteration order of the sessions and of the accounts |
| Ticks.TickEndsIff | server/src/Server.cpp:83-107 | the tick ends the process exactly when an entry is null or its session is bound to an unknown uuid |
| Ticks.TickFailsAt | server/src/Server.cpp:83-107 | at such an entry the loop stops: the entries before it had their grants, and nothing else has happened |
| Servers.Server.OnAccept | server/src/Server.cpp:30-65 | the next id, wrapping at 256, a session filed under it, the handshake posted and the read armed; an error changes nothing; the next accept is armed either way |
| Servers.Server.NextId | server/src/Server.cpp:38 | the old value of the 8-bit counter, which wraps |
| Servers.Server.SendToClient | server/src/Server.cpp:112-119 | the message goes to the session filed under the id, or nowhere |
| Servers.Server.GetSession | server/src/Server.cpp:121-124 | the filed session; an unknown id gets a null entry |
| Servers.Server.OnClientDisconnect | server/src/Server.cpp:126-130 | the entry of the id is removed, its counters stay |
| Servers.Server.NextSequence | server/src/Server.cpp:95 | the counter of the id and type goes up by one, modulo 2^32, from 0 when it was never used |
| Servers.Server.TickEntry | server/src/Server.cpp:85-106 | the body of the tick loop on one entry, including its failure on a null session or an unknown uuid |
| Servers.Server.TickEntries | server/src/Server.cpp:83-107 | the loop visits every entry until one fails |
| Servers.Server.OnResourceTick | server/src/Server.cpp:75-110 | the loop runs and the timer is armed again, unless the process ended; a cancelled timer changes nothing and stays unarmed |
| Servers.Server.Bind | server/src/main.cpp:34-41 | the session filed under the id is bound and sent the result with sequence 1; without one the process ends |
| Servers.Server.OnLogin | server/src/main.cpp:8-42 | register or verify, then bind and reply; a missing field or a wrong password changes nothing |
| Servers.Server.RegisterHandler | server/src/Server.cpp:16-19 | the type leads to the handler from now on, other types as before |
| Servers.Server.SetUp | server/src/main.cpp:6-44 | the login handler is registered for its type and no other, and an accept is armed |
| Servers.Server.OnClientMessage | server/src/Server.cpp:132-145 | a message goes to the handler registered for its type; without one it changes nothing |
| Servers.Server.OnSessionRead | server/src/Session.cpp:29-51 | a completed read hands its line to the server under the session's id; a failed one disconnects |
| Servers.Server.OnSessionTask | server/src/Session.cpp:60-66 | a strand task changes its own session only |
| Servers.Server.OnSessionWritten | server/src/Session.cpp:76-83 | a completed write goes on with the queue; a failed one disconnects the id |
| Filter.OneTypeAtATime | client/src/app/Application.cpp:35-48 | the filter's entry of a type depends on the messages of that type only |
| Filter.LastIsLongestCount | client/src/app/Application.cpp:35-48 | after any messages, lastSeq of a type is the largest k such that 1, 2, ..., k is a subsequence of that type's numbers |
| Filter.WrappedNeverAccepted | client/src/app/Application.cpp:39-42 | once 2^32 - 1 has passed, nothing of that type ever passes again |
| Filter.NumberedPass | client/src/app/Application.cpp:35-48 | of messages numbered consecutively from any base, exactly one window passes: those from the first 1 on, up to 2^32 - 1 of them |
| Filter.RunsOutIff | client/src/app/Application.cpp:39-48 | the filter comes to 2^32 - 1 if and only if the first 1 and all numbers after it up to there have come |
| Network.NetworkClient.ReadUntil | client/src/network/NetworkClient.cpp:52-54 | reads until the buffer holds a line, losing no byte; an error exactly when the stream ends without one |
| Network.NetworkClient.TakeLine | client/src/network/NetworkClient.cpp:56-72 | the first line leaves the buffer, and the queue gains its message if it parses |
| Network.NetworkClient.RecvLoop | client/src/network/NetworkClient.cpp:47-74 | up to the round in which the loop is stopped, exactly the lines of the whole stream are taken and their messages queued, however it was cut; all other bytes are still in the buffer or the socket |
| Network.NetworkClient.PollMessage | client/src/network/NetworkClient.cpp:83-91 | messages leave the queue first in, first out |
| Network.NetworkClient.SendMessage | client/src/network/NetworkClient.cpp:76-81 | whoever reads the stream of sent bytes, after whole messages so far, gets exactly one more message out of it, the one sent, with no byte left over |
| Network.NetworkClient.Shutdown | client/src/network/NetworkClient.cpp:18-27 | a running loop is stopped and the socket closed; after a loop that has ended by itself the socket is left open |
| Application.Application.constructor | client/src/app/Application.cpp:3-18 | a client starts at the login scene with an empty filter, no uuid and no resources |
| Application.Application.LoginHandleMessage | client/src/scenes/LoginScene.cpp:72-83 | a login result sets the uuid, or throws without one; other messages change nothing |
| Application.Application.GameHandleMessage | client/src/scenes/GameScene.cpp:25-40 | an update for the client's uuid replaces all three resources, one for another uuid nothing |
| Theorems.GameIsForGood | client/src/app/Application.cpp:65-68 | over a whole run a client is at the game scene only with a uuid, and never leaves it |
| Application.Application.Handle | client/src/app/Application.cpp:37-62 | one polled message: filter, then client id or scene; the filter's entry is made even for a dropped message |
| Application.Application.Update | client/src/app/Application.cpp:31-71 | a frame handles in order every message that is queued when it looks, also those that arrive meanwhile, until one throws; otherwise it ends with an empty queue, in the game exactly when the uuid is known or it was there before |
| ClientSpec.TakesInExactly | client/src/app/Application.cpp:35-63 | a frame takes note of the arrivals up to the first look that finds the queue empty, all of them if there is none, and does what it does when these are queued from the start |
| ClientSpec.FrameTakesIn | client/src/app/Application.cpp:31-71 | a frame nothing throws out of leaves the queue empty, the filter over exactly the queued messages and those arrivals, and the scene the game exactly when the uuid is known or it was before |
| ClientSpec.ArrivalTimeIrrelevant | client/src/network/NetworkClient.cpp:64-66 | also when something throws, the loop does what it does when some first part of the arrivals is queued from the start |
| ClientSpec.ThrowsIff | client/src/app/Application.cpp:50-58 | a message makes the client throw if and only if it passes the filter, is for the handshake or the present scene, and lacks what is read from it |
| ClientSpec.PollMeans | client/src/app/Application.cpp:48-58 | a message that passes changes one thing, to what it says, with numbers truncated to their width: the client id, the uuid at the login scene, or the resources in the game when they are for its uuid |
| Connections.LineIsNextMessage | client/src/network/NetworkClient.cpp:52-67 | whatever part of the wire a client has read, its next complete line is exactly the next message its session was given |
| Connections.LineTaken | client/src/network/NetworkClient.cpp:56-67 | taking a line keeps queue and polled messages a prefix of what was sent, and the buffer the start of the next |
| Connections.LoginHandled | client/src/scenes/LoginScene.cpp:72-80 | a client handles a login result only if it is its first, and then at the login scene |
| Invariant.TickOneWell | server/src/Server.cpp:83-107 | one iteration of the tick keeps the invariant of the whole system and does not fail |
| Preservation.ConnectWell | server/src/Server.cpp:30-65 | an accept keeps the invariant, also when it takes over a reused id |
| Preservation.DisconnectWell | server/src/Server.cpp:126-130 | a disconnect callback from either side, first or second, keeps the invariant |
| Preservation.QueueWell | server/src/Session.cpp:59-84 | every strand task, write step, completion and failure keeps the invariant |
| Preservation.LoginWell | server/src/main.cpp:8-42 | a login of any payload on any id keeps the invariant |
| Preservation.LineWell | server/src/Session.cpp:29-51 | handling any line any peer sent keeps the invariant |
| Preservation.TickWell | server/src/Server.cpp:75-110 | a tick over any sessions in any order keeps the invariant and does not end the process |
| Preservation.RestartWell | server/inc/JsonDB.hpp:136-170 | a restart from the files keeps the invariant; clients of the ended process stay as they were |
| Preservation.ClientEventWell | client/src/app/Application.cpp:31-71 | every step of any client keeps the invariant and leaves the server alone |
| Preservation.EventWell | server/src/Server.cpp:10-14 | every event of the system keeps the invariant, and the file's history only grows |
| Preservation.BehaviorWell | server/src/Server.cpp:10-14 | the invariant holds in every state of every run |
| Theorems.Delivery | server/src/Server.cpp:83-107 | what a client has polled and queued is a prefix of what its session was sent; the updates that passed its filter are one window of them; none was dropped if and only if none came, or the id's counter started at 0 and fewer than 2^32 came |
| Theorems.FreshIdDelivery | server/src/Server.cpp:38-51 | a session among the first 256 of its process has a fresh id: its client's filter drops none of its first 2^32 - 1 updates |
| Theorems.DurableBeforeVisible | server/src/Server.cpp:88-105 | every update queued, on the wire or received carries values the account file has held for its uuid, crashes included; the file always decodes to the table in memory |
| Theorems.NeverAheadOfFile | server/inc/JsonDB.hpp:74-87 | unless a grant to the account concerned wrapped, no update exceeds what the file holds now for its uuid |
| Theorems.ShownNeverAheadOfFile | client/src/scenes/GameScene.cpp:27-33 | unless a grant to its account wrapped, a client that shows resources shows its own account's, and never more than the file holds |
| Theorems.ShowsLatestOwnUpdate | client/src/app/Application.cpp:35-58 | a client shows exactly the last update for its uuid that passed its filter since it entered the game |
| Theorems.FileNeverShrinksIff | server/src/Server.cpp:88-91 | the resources of an account never decrease from one table of the file to the next if and only if no grant to it wrapped |
| Theorems.ShownNeverDecreases | client/src/scenes/GameScene.cpp:27-33 | over a whole run, restarts and repeated logins included, no resource a client shows ever decreases unless a grant to its own account wrapped, and a known uuid never changes |
| Theorems.HistoryGrowsOver | server/inc/JsonDB.hpp:172-205 | over a whole run the tables the file has held are only added to |
| Theorems.AccountsArePermanent | server/inc/JsonDB.hpp:51-63 | over a whole run, restarts included, a registered name keeps its password and uuid, uuids stay distinct, and the file holds the table |
| Theorems.LoginAnswers | server/src/main.cpp:16-41 | a registered name with its password is answered with its uuid and bound to it; with another password nothing changes |
| Theorems.LoginsAgree | server/src/main.cpp:16-41 | over a whole run, restarts included, every login of a name that is not refused had the password, and is answered with the uuid, that the name had at any earlier time |
| Theorems.LoginReaches | server/src/main.cpp:34-41 | a valid login read from a session binds and answers the latest session of its id, if that is filed: the session itself if and only if no 256 sessions were accepted since; with none filed the process ends |
| Theorems.LineIgnoredIff | server/src/Session.cpp:40-50 | in a reachable state a line has no effect but to be gone if and only if it is no message, no login, lacks a field or has a wrong password; no line of any kind changes which sessions are read from or takes an entry out |
| Theorems.LoginAccounts | server/src/main.cpp:16-34 | a valid login leaves every account as it was and adds the one it names if that is new, also when the process ends for want of a filed session |
| Theorems.RegistrationAnswers | server/src/main.cpp:28-41 | a new name is registered, saved, bound and answered with the drawn uuid; other sessions and accounts are untouched |
| Theorems.LoginRefusedIff | server/src/main.cpp:11-22 | a login has no effect if and only if a field is missing or the name is registered with another password |
| Theorems.RestartRestores | server/inc/JsonDB.hpp:136-170 | a restart after a crash at any moment gives back the table as it was; ids, entries and counters start anew, and clients stay as they were |
| Theorems.ClientIdentity | client/src/scenes/LoginScene.cpp:72-80 | a client's uuid is empty until it has seen a login result and then the first one's for ever; it is the session's uuid if and only if the last result names the same, and so when all do; its id is its session's |
| Theorems.ClientsNeverThrow | client/src/app/Application.cpp:50-58 | no message of the server ever makes a client throw |
| Theorems.EndsOnlyByNullLogin | server/src/main.cpp:34 | in a reachable state an event ends the process if and only if it is a crash, or a valid login on a session whose id nobody is filed under; a tick never does |
| Theorems.FirstSessionsAreSafe | server/src/Server.cpp:121-130 | while ids have not come round, a session whose writes have not failed is the one filed under its id, and no line it sends ends the process |
| Theorems.IdsGoRound | server/src/Server.cpp:38 | the n-th accept, from 0, gets id (n + 1) mod 256, and two sessions share an id exactly when a multiple of 256 apart |
| Theorems.ReusedIdInherits | server/src/Server.cpp:126-130 | the accept after 256 others takes over the id of the session 256 before it and starts from what that one started from plus every update it was sent, modulo 2^32, disconnected or not |
| Theorems.RoundToRound | server/src/Server.cpp:126-130 | of two sessions one round of ids apart, the first update of the later carries one more than what the earlier started from plus every update the earlier was ever sent |
| Theorems.FirstNumberAfterBase | server/src/Server.cpp:95 | a session's first update carries one more than the inherited counter, modulo 2^32 |
| Theorems.WiresAreOrderly | server/src/Session.cpp:54-84 | in every reachable state each session has at most one write in flight and a wire that is a prefix of its sends |
| Delivered.LinesDelivered | client/src/network/NetworkClient.cpp:47-72 | in every reachable state, at both ends of every connection, lines taken and buffered are exactly the lines of all bytes read |
| Delivered.EverythingArrives | client/src/network/NetworkClient.cpp:47-91 | once a session's queue has drained and its client has taken every line, the client has been given every message ever sent to it, in order, with no byte left over |
| CatchingUp.CatchUp | server/src/Session.cpp:59-83 | from every state that keeps the invariant, strand, writes, reads and polls of one connection alone lead, in finitely many steps, to a state in which its client has polled everything sent on it; nothing else changes |
| CatchingUp.CanAlwaysCatchUp | client/src/network/NetworkClient.cpp:47-91 | so in every reachable state of a running server, for every connection whose writes have not failed: no message is ever stuck |
| Playing.FrameEnds | client/src/app/Application.cpp:65-68 | the end of a frame puts the client into the game if and only if its uuid is known or it was there, and changes nothing else |
| Playing.FrameIsPath | client/src/app/Application.cpp:31-71 | a frame during which nothing arrives is one poll event for each queued message and then the frame's end |
| Playing.CanEnterGame | client/src/app/Application.cpp:65-68 | a client whose session was answered with a uuid can always get into the game, by its own connection's steps and the end of a frame |
| Playing.ShowsTwenty | client/src/scenes/GameScene.cpp:27-33 | there is a reachable state in which a client in the game shows twenty of everything, as the file has it |
| Delivered.DisconnectRemoves | server/src/Server.cpp:126-130 | a disconnect takes out the entry of the session's id and no other, and changes nothing else but that session; what it finds there is another session if and only if the id is filed and 256 sessions were accepted since, and then a later one |
| Delivered.SecondDisconnectIdle | server/src/Session.cpp:31-32 | the second of two disconnects of one session finds nothing to take out, as long as its id was not given again |
| Conservation.GrantsAreUpdates | server/src/Server.cpp:88-105 | in every reachable state, crashes and restarts included, an account holds what it had at first plus ten of everything for each update all sessions were ever given for its uuid, modulo 2^64 |
| Conservation.EventBooked | server/src/Server.cpp:10-14 | every event keeps these books |
| Notices.TickPosts | server/src/Server.cpp:93-105 | the tick posts to a filed, logged-in session one update, with the next number of its id and the account's resources after it and the sessions of that account before it had their grant |
| Notices.TickSilent | server/src/Server.cpp:83-86 | it posts nothing to any other session |
| Notices.TickNotifies | server/src/Server.cpp:83-107 | in every reachable state: each filed and logged-in session gets exactly that one update, every other session, past or present, nothing |
| Failures.RegistrationEnds | server/src/main.cpp:34 | wherever a session is still read from and nobody is filed under its id, one registration on it ends the process, with the account registered |
| Failures.NullLoginRun | server/src/Session.cpp:78-79 | there is a run without a crash, from an empty database, that ends so |
| Runs.ConnectOne | server/src/Server.cpp:38-61 | an accept makes one session, filed under the next id, read from and given the handshake, and changes nothing else |
| Runs.ConnectMany | server/src/Server.cpp:38-51 | any number of accepts in a row can follow any reachable state; the last gets the id its number gives and starts from that id's counter |
| Runs.LogIn | server/src/main.cpp:8-42 | on any session that is read from, a login with a new name or with the registered password can be read, and binds the session filed under its id to the account |
| Runs.TickMany | server/src/Server.cpp:75-110 | any number of ticks can follow any reachable state, each with one update for an open, logged-in session |
| Runs.Receive | client/src/network/NetworkClient.cpp:47-91 | the client of an open session can poll everything sent to it before its frame ends |
| Failures.UpdateFilteredAway | client/src/app/Application.cpp:39-47 | there is a reachable state in which a logged-in connection has received its only update and its filter has not passed it |
| Failures.NumbersRunOut | client/src/app/Application.cpp:39-48 | there is a reachable state in which a client with a fresh id has received 2^32 updates and its filter has not passed the last |
| Failures.IdentitiesPart | client/src/app/Application.cpp:39-48 | there is a reachable state in which a client and its session are bound to different accounts |
| Failures.UpdateNeverShown | client/src/scenes/LoginScene.cpp:74-82 | there is a reachable state in which a client's own update of ten of everything has passed its filter and it shows nothing |
| Failures.ResourcesShrink | server/src/Server.cpp:88-91 | there is a reachable state in which a tick takes the only account from 2^64 - 6 to 4 of everything |
| Failures.OtherSessionUnfiled | server/src/Server.cpp:126-130 | there is a reachable state in which the end of file of one session unfiles another that is live |
| Failures.OtherSessionBound | server/src/main.cpp:34-41 | there is a run in which a login read from one session binds and answers another |

## Left out

- Sockets, the resolver, timers and threads: they are the environment's choices of events.
- Full JSON: arrays, `null`, booleans, floating-point numbers, non-ASCII text and integers beyond 64 bits make a text unparsable in the model, while the JSON library accepts them.
- The layout of the account file: it is a JSON tree here, and the text written with `dump(2)` is not modelled; a file that is not JSON is `Partial`.
- Failures of the file system, and `save` throwing: the rename always succeeds.
- Random numbers: the two draws of a uuid are parameters.
- Accounts.CrashDuringSave: in `Worlds` a save is one step with its callback, and a crash leaves the temp file in any state.
- ServerSession.Session.OnRead: arms the next read before the message is handed on, the source after; both are in one callback, which always arms it, unless the process ends.
- ServerSession.Session.constructor: the destructor, which closes the socket when the last reference is gone, is not part of this model; a session stays in the history.
- Servers.Server.RegisterHandler: the only function that can be registered is the login handler, the only one that ever is.
- Servers.Server.OnResourceTick: the iteration order is a parameter; in `Worlds` an armed accept or timer completes whenever the environment chooses.
- Network.NetworkClient.RecvLoop: the other thread's clearing of the flag is a number of rounds; a stop while a read is blocked is a stream that ends there.
- Application.Application.Update: the scene's own update and drawing are left out; in `Worlds` a frame's rounds and its end are events of their own.
- Application.Application.ChangeScene: the scene objects and their factories are not modelled, only which scene is current.
- The login scene's text boxes and its sending of a request: a peer may send any bytes at any time.
- Rendering, fonts, the window, logging and the build files: no part in the protocol. What a client "shows" is what `Player` holds; `GameScene::Draw` (client/src/scenes/GameScene.cpp:20-22) prints these 64-bit values with `%u`.
