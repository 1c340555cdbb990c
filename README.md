# terminal-chat in Dafny

This is a model of the core of terminal-chat, a chat program for the terminal. The same program runs as a server or as a client; the two talk over TCP, one line per message.

- **Sockets** (`tcp_socket.dfy`). A `TcpSocket` turns a byte stream into lines. It appends what `recv` delivers to an input buffer, takes at most one line per `process` call, and keeps in-band control lines apart from data. A control line is byte 0x08 followed by a command byte: `p` for ping, `a` for ack. A ping is sent 0.1 s after the last time mark. With a ping pending, a connected socket times out after 10 s.
- **Network helpers** (`network.dfy`). These split `host`, `host:port`, `[v6]` and `[v6]:port` addresses, handle the `::ffff:` IPv4-mapped prefix, and choose among resolver answers.
- **Server** (`server.dfy`). A `User` wraps one accepted socket. Its first non-empty line becomes its name; it queues join, chat, timeout and leave events. The `Server` accepts pending connections, then visits the users in order. Each event a user produced is written to every user in the list, the sender included. A user no longer connected after its visit is erased.
- **Client** (`client.dfy`). A `Client` connects and sends its name as the first line. It queues every non-empty line it receives. The session ends on a timeout, with "Connection has been lost", or on a lost connection, with "The server has been closed".
- **Command line** (`arguments.dfy`). `Arguments` looks up flags written `/name` or `-name`, and the value that follows a flag.
- **Line editor** (`terminal.dfy`). A `Terminal` edits the typed line with keys from standard input: Backspace or DEL erases, Enter queues, ESC asks to exit. Control bytes other than these read as "no key".

The operating system is an environment passed in as parameters:
- An `Env` per socket and call. It holds the chunks `recv` delivered, whether the receive loop ended with a failed `recv`, and whether sends succeed.
- Booleans for the outcomes of bind, listen, the `inet_pton` literal check, connect and accept.
- The number of connections waiting at the listener.
- An integer millisecond clock `now`.

A socket records each line it sends successfully in `sent`, so properties can speak about the wire.

Each stateful class has a value-level counterpart (`SocketState`, `UserState`, `ClientState`, `EditorState`). Functions say what each operation leaves behind (`AfterProcess`, `AfterUserProcess`, `Sweep`, `AfterTick`, `AfterKeys`). The methods of the classes work on fields and are proved to end in exactly those states. Lemmas in the `*_props.dfy` files state what the program promises about those functions.

## Model

| member | source | states |
|---|---|---|
| Text.IndexOf | source/tcp-socket.cpp:269 | the result is the first index holding the character, and None exactly when it does not occur |
| Text.FirstIndex | source/tcp-socket.cpp:113 | an occurrence with none before it is the index `find` reports |
| Text.LastIndexOf | source/network.cpp:192 | the result is the last index holding the character, and None exactly when it does not occur |
| Text.SingleOccurrence | source/network.cpp:194 | `find(':') == rfind(':')` with a match holds exactly when ':' occurs once |
| Text.CString | source/tcp-socket.cpp:266 | a received chunk contributes the prefix before its first NUL: no NUL in it, and a NUL right after it when it is shorter |
| Text.LeadingDigits | source/network.cpp:184-186 | the longest all-digit prefix, followed by a non-digit or nothing |
| Text.Decimal | source/tcp-socket.cpp:101 | `std::to_string` of a non-negative number is a non-empty run of digits |
| Text.DecimalValue | source/tcp-socket.cpp:101 | reading the digits of a printed number gives the number back |
| Text.LeadingDigitsOfDecimal | source/tcp-socket.cpp:101 | a printed number followed by a non-digit is read back in full |
| Text.SkipSpace | source/network.cpp:184-186 | the white space an extraction skips: every skipped character is white space, what is left does not start with white space, and it is empty exactly when the text is all white space |
| Text.SkipSpaceSuffix | source/network.cpp:184-186 | what is left after skipping is the end of the text |
| Text.StreamUShort | source/network.cpp:184-186 | `stream >> port` into an unsigned short that held `prior`: below 65536; leading white space is skipped; a blank text keeps `prior`; a non-blank text without leading digits gives 0; the digits' value when it fits, 65535 when it does not |
| Text.AtoiUShort | source/tcp-socket.cpp:119 | `static_cast<unsigned short>(atoi(...))`: below 65536; leading white space is skipped; the digits' value when it fits, and congruent to it modulo 65536 otherwise |
| Text.NonEmpty | source/client.cpp:76-84 | the filter of `processMessage`: keeps exactly the non-empty lines and never grows the list |
| Text.NonEmptyIdempotent | source/client.cpp:76-84 | filtering twice is filtering once |
| Text.NonEmptyAppend | source/client.cpp:95-98 | filtering lines drained in two runs equals filtering them at once |
| Network.SplitAddress | source/network.cpp:161-207 | the port is always an unsigned short; it starts at the default port 1024 and is read with `stream >> port`, so a blank port text keeps 1024 |
| Network.BracketHost | source/network.cpp:166-174 | in the bracket form the host is the text between '[' and the first ']' |
| Network.BracketPort | source/network.cpp:175-188 | after "]" a port is read only when the last ':' of the rest is its first byte; otherwise the default port |
| Network.BracketUnclosed | source/network.cpp:168-172 | '[' without ']' leaves the whole text as host, on the default port |
| Network.PlainSplit | source/network.cpp:190-203 | without a leading '[', a text with exactly one ':' is split at it |
| Network.PlainUnsplit | source/network.cpp:190-206 | without a leading '[', zero or several colons leave the text whole, on the default port |
| Network.PortTextValue | source/network.cpp:184-186 | a printed port below 65536 is read back by `stream >> port` |
| Network.SplitRoundTrip | source/network.cpp:161-207 | splitting "host:port" gives back the host and the port |
| Network.BracketSplit | source/network.cpp:166-189 | "[host]" plus a remainder splits as the bracket form describes |
| Network.BracketRoundTrip | source/network.cpp:166-189 | splitting "[host]:port" gives back the host and the port |
| Network.BracketDefaultPort | source/network.cpp:166-189 | "[host]" alone is the host on port 1024 |
| Network.PlainBlankPort | source/network.cpp:190-203 | "host:" followed by nothing or only white space is the host on port 1024 |
| Network.BracketBlankPort | source/network.cpp:166-189 | "[host]:" followed by nothing or only white space is the host on port 1024 |
| Network.MapIPv4 | source/network.cpp:209-212 | the result is "::ffff:" followed by the address |
| Network.UnmapIPv4 | source/network.cpp:214-233 | the result is the argument, or a colon-free dotted text whose mapped form is the argument |
| Network.UnmapChanges | source/network.cpp:214-233 | unmapping changes the text exactly when it is "::ffff:" followed by a colon-free text holding a '.' |
| Network.MapRoundTrip | source/network.cpp:209-233 | unmapping a mapped dotted IPv4 address gives it back |
| Network.MapNotUndone | source/network.cpp:209-233 | a mapped text holding a ':' is left mapped by unmapIPv4 |
| Network.UnmapIdempotent | source/network.cpp:214-233 | unmapping twice is unmapping once |
| Network.ResolveHostAddresses | source/network.cpp:110-123 | every IPv6 answer comes first, then every IPv4 answer, nothing else |
| Network.FirstOrEmpty | source/network.cpp:125-135 | the first answer, or "" when there is none |
| Network.ResolveHostIPv4 | source/network.cpp:125-135 | the first IPv4 answer, or "" when there is none |
| Network.ResolveHostIPv6 | source/network.cpp:137-147 | the first IPv6 answer, or "" when there is none |
| Network.ResolveHost | source/network.cpp:149-159 | the first IPv6 answer; without one the first IPv4 answer; without either "" |
| Network.ResolvePrefersIPv6 | source/network.cpp:149-159 | resolveHost answers the first IPv6 result when there is one, else the first IPv4 result, and the answer is one of the combined results |
| Sockets.Received | source/tcp-socket.cpp:253-267 | receiving only appends to the input buffer |
| Sockets.FirstLine | source/tcp-socket.cpp:269-274 | the line is the text before the first newline; None exactly when the buffer has no newline |
| Sockets.AfterClose | source/tcp-socket.cpp:233-247 | the state close() leaves: handle invalid, every flag clear, buffer, lines and sent lines kept; no contract of its own, stated through CloseIdempotent and TcpSocket.Close |
| Sockets.AfterWriteLine | source/tcp-socket.cpp:220-231 | the state writeLine leaves: nothing on an invalid handle, the line and a newline recorded on a successful send, the socket closed on a failed one; stated through WireRoundTrip and WriteKeepsLink |
| Sockets.AfterCommand | source/tcp-socket.cpp:308-339 | the state processCmd leaves for a command line: a ping is answered with an ack, an ack clears the pending ping and restarts the time mark, any other command does nothing; stated through PingAnswered, AckClearsPing and CommandNeverQueued |
| Sockets.AfterDataLine | source/tcp-socket.cpp:341-347 | the state processLine leaves: a non-empty line queued, an empty one dropped; stated through ProcessTakesFirstLine |
| Sockets.AfterReceive | source/tcp-socket.cpp:253-267 | the state the receive loop leaves: the chunks appended to the buffer, each up to its NUL, and the socket closed after a failed recv; stated through ChunkCutAtNul and ReceivedWhole |
| Sockets.AfterFrame | source/tcp-socket.cpp:269-281 | the state the framing step leaves: the first line taken off the buffer and given to processCmd or processLine, nothing without a newline; stated through FrameTakesFirstLine |
| Sockets.HeartbeatDue | source/tcp-socket.cpp:283-289 | a ping is due on a connected socket with none pending once 0.1 s have passed since the time mark; stated through HeartbeatSendsPing |
| Sockets.AfterHeartbeat | source/tcp-socket.cpp:283-297 | the state the heartbeat step leaves: a due ping sent, marked pending and the time mark set to now; stated through HeartbeatSendsPing |
| Sockets.AfterProcess | source/tcp-socket.cpp:249-299 | the state process() leaves: receive, frame one line, heartbeat, nothing on an invalid handle; stated through ProcessTakesFirstLine, ProcessWithoutNewline and ProcessWhenClosed |
| Sockets.TimedOut | source/tcp-socket.cpp:130-145 | connected, a ping pending, and 10 s or more since the time mark; stated through TimedOutMonotone and TimeoutWindowStartsAtPing |
| Sockets.TargetText | source/tcp-socket.cpp:101 | the "ip:port" text of a connect error; stated through ConnectTargetRoundTrip |
| Sockets.ConnectTarget | source/tcp-socket.cpp:108-123 | the host holds no ':' and the port is an unsigned short |
| Sockets.TcpSocket.constructor | source/tcp-socket.cpp:20-32 | a valid, unbound, unconnected socket with no ping pending, clock at now |
| Sockets.TcpSocket.Accepted | source/tcp-socket.cpp:34-37 | an accepted socket is valid and connected, with its clock at the epoch |
| Sockets.TcpSocket.HasLine | source/tcp-socket.cpp:201-204 | true exactly when a decoded line is queued |
| Sockets.TcpSocket.HasTimedOut | source/tcp-socket.cpp:130-145 | connected, a ping pending, and at least 10 s since the time mark |
| Sockets.TcpSocket.Bind | source/tcp-socket.cpp:44-63 | a failed bind closes the socket and reports the port; a successful one marks it bound; an invalid socket is left alone |
| Sockets.TcpSocket.Listen | source/tcp-socket.cpp:70-81 | a failed listen closes the socket and reports it; otherwise nothing changes |
| Sockets.TcpSocket.ConnectTo | source/tcp-socket.cpp:83-106 | a rejected literal fails without closing; a failed connect closes and reports "ip:port"; a success marks the socket connected |
| Sockets.TcpSocket.Connect | source/tcp-socket.cpp:108-123 | the same outcomes for the host and port split off at the first ':' |
| Sockets.TcpSocket.Accept | source/tcp-socket.cpp:172-199 | on success a fresh connected socket; a failed accept closes the listener and yields null |
| Sockets.TcpSocket.ReadLine | source/tcp-socket.cpp:206-218 | pops the oldest line, or returns "" and changes nothing |
| Sockets.TcpSocket.WriteLine | source/tcp-socket.cpp:220-231 | on a valid socket a send records line + "\n", and a failed send closes it |
| Sockets.TcpSocket.Close | source/tcp-socket.cpp:233-247 | the handle is invalid and every flag clear; buffer and lines stay |
| Sockets.TcpSocket.WriteCmd | source/tcp-socket.cpp:301-306 | writes the line made of the control byte and the command byte |
| Sockets.TcpSocket.ProcessCmd | source/tcp-socket.cpp:308-339 | reports a command exactly for lines longer than one byte that start with 0x08; a ping is acked, an ack clears the pending ping and resets the time mark |
| Sockets.TcpSocket.ProcessLine | source/tcp-socket.cpp:341-347 | a non-empty data line is queued, an empty one dropped |
| Sockets.TcpSocket.Receive | source/tcp-socket.cpp:253-267 | the buffer ends as the chunks appended in order, each cut at its NUL; a failed recv closes the socket |
| Sockets.TcpSocket.FrameLine | source/tcp-socket.cpp:269-281 | the first line leaves the buffer and goes to processCmd or processLine |
| Sockets.TcpSocket.Heartbeat | source/tcp-socket.cpp:283-297 | a due ping is sent, marked pending and the time mark set to now |
| Sockets.TcpSocket.Process | source/tcp-socket.cpp:249-299 | receive, frame one line, heartbeat, all skipped on an invalid handle |
| SocketProperties.FirstLineOf | source/tcp-socket.cpp:269-274 | a buffer starting with a newline-free line then "\n" yields that line |
| SocketProperties.ProcessTakesFirstLine | source/tcp-socket.cpp:249-281 | process removes exactly the first line; it is queued unless empty or a command |
| SocketProperties.FrameTakesFirstLine | source/tcp-socket.cpp:269-281 | the framing step alone removes and dispatches exactly the first line |
| SocketProperties.ProcessWithoutNewline | source/tcp-socket.cpp:249-281 | without a newline nothing is queued and the buffer only grows |
| SocketProperties.ProcessWhenClosed | source/tcp-socket.cpp:251 | process on an invalid handle changes nothing |
| SocketProperties.ChunkCutAtNul | source/tcp-socket.cpp:266 | what follows a NUL in a chunk is lost |
| SocketProperties.ReceivedWhole | source/tcp-socket.cpp:253-267 | NUL-free chunks are appended whole, in order |
| SocketProperties.PingAnswered | source/tcp-socket.cpp:318-323 | a received ping is answered with an ack and queues nothing |
| SocketProperties.AckClearsPing | source/tcp-socket.cpp:324-331 | a received ack clears the pending ping, resets the time mark to now and sends nothing |
| SocketProperties.PingKeepsTimer | source/tcp-socket.cpp:318-323 | a ping changes neither the time mark nor, when the ack goes out, the pending flag |
| SocketProperties.CommandNeverQueued | source/tcp-socket.cpp:308-339 | a command line is never queued as data, and an unknown command does nothing |
| SocketProperties.LoneControlIsData | source/tcp-socket.cpp:310 | a lone 0x08 is queued as data |
| SocketProperties.HeartbeatSendsPing | source/tcp-socket.cpp:283-297 | exactly when due, one ping is sent and the timer reset; otherwise nothing |
| SocketProperties.TimeoutWindowStartsAtPing | source/tcp-socket.cpp:130-145 | after a ping is sent, timing out means 10 s have passed since that send |
| SocketProperties.TimeoutPersists | source/tcp-socket.cpp:130-145 | a timed-out socket stays timed out after a process that brings no ack |
| SocketProperties.TimedOutMonotone | source/tcp-socket.cpp:130-145 | a timeout needs a connection and a pending ping, and persists at later times |
| SocketProperties.CloseIdempotent | source/tcp-socket.cpp:233-247 | closing twice is closing once; buffer and queue are kept |
| SocketProperties.ReceiveFailureStillFrames | source/tcp-socket.cpp:258-281 | after a failed recv the buffered line is still framed in the same call |
| SocketProperties.WireRoundTrip | source/tcp-socket.cpp:220-231 | a data line written by one socket is decoded as that line by a socket with an empty buffer |
| SocketProperties.HeartbeatExchange | source/tcp-socket.cpp:283-331 | a ping from one socket and the ack back from the peer leave the first with no ping pending |
| SocketProperties.ConnectSplitsAtFirstColon | source/tcp-socket.cpp:113-120 | connect(address) takes the host before the first ':' and atoi of the rest |
| SocketProperties.ConnectWithoutColon | source/tcp-socket.cpp:110-122 | without a ':' the whole text is the host, on port 1024 |
| SocketProperties.ConnectTargetRoundTrip | source/tcp-socket.cpp:101 | the "ip:port" of a connect error splits back into the same ip and port |
| Chat.WriteAll | source/server.cpp:147-158 | one entry per user |
| Chat.Fanout | source/server.cpp:174-177 | one entry per user |
| Chat.Visit | source/server.cpp:168-184 | the user list keeps its length |
| Chat.Sweep | source/server.cpp:160-189 | the final list, and for each user visited from the start index its keep decision, its state after its visit and the events it produced; what they are is stated by PassVisits, PassRemaining, PassFromStart, FinishedState and ErasedUserMissesLaterEvents |
| Chat.StatesOf | source/server.cpp:166 | entry j is the state of user j |
| Chat.AfterMessage | source/server.cpp:99-114 | the state processMessage leaves; stated through NamedMessages, UnnamedMessages and EmptyLinesIgnored |
| Chat.AfterMessages | source/server.cpp:78-81 | processMessage over the decoded lines, oldest first; stated through MessagesEvents and NameNeverChanges |
| Chat.AfterUserProcess | source/server.cpp:72-97 | the state User::process leaves; stated through UserProcessOutcome, TimedOutUserLeavesOffline and NullUserInert |
| Chat.AfterGetMessage | source/server.cpp:50-62 | the oldest event and the rest, or "" and nothing changed; stated through GetMessageFifo and GetMessageEmpty |
| Chat.AfterSend | source/server.cpp:64-70 | the state sendMessage leaves: the line written to the socket, if there is one; stated through SendsAppend and SendsToDead |
| Chat.AfterSends | source/server.cpp:174-177 | sendMessage of each event in turn; stated through SendsAppend, SendsFailing, SendsToDead and SendsCompose |
| Chat.AfterAccept | source/server.cpp:137-145 | the listener and user list acceptUser leaves; stated through AcceptAppends and AcceptOnClosedListener |
| Chat.Select | source/server.cpp:179-184 | the users that survive the erase calls, in order; stated through SelectCount and SelectCons |
| Chat.User.constructor | source/server.cpp:20-23 | holds the given socket, with no name and no events |
| Chat.User.IsConnected | source/server.cpp:25-33 | holds a socket and that socket is connected |
| Chat.User.GetMessage | source/server.cpp:50-62 | pops the oldest event, or "" when there is none |
| Chat.User.SendMessage | source/server.cpp:64-70 | writes the line to the socket, if there is a socket |
| Chat.User.ProcessMessage | source/server.cpp:99-114 | the first non-empty line names the user and queues a join event; later lines queue "name: line" |
| Chat.User.Drain | source/server.cpp:78-81 | every decoded line goes through processMessage, oldest first, and the socket's queue ends empty |
| Chat.User.Process | source/server.cpp:72-97 | pump, drain every line, then for a named user a timeout event with a close, or a leave event |
| Chat.Server.constructor | source/server.cpp:116-125 | a server around the listener, with no users |
| Chat.Server.AcceptUser | source/server.cpp:137-145 | each pending connection becomes a new unnamed user at the end; a failed accept adds a user without a socket and closes the listener |
| Chat.Server.AddUser | source/server.cpp:143 | appends one user around the accepted socket, keeping the others |
| Chat.Server.WriteMessage | source/server.cpp:147-158 | every user in the list is written the message |
| Chat.Server.PumpUser | source/server.cpp:172 | only the visited user changes |
| Chat.Server.TakeMessage | source/server.cpp:176 | pops the oldest event of the user at the index; no other user changes |
| Chat.Server.Relay | source/server.cpp:176 | the oldest event of the user is written to everyone |
| Chat.Server.Broadcast | source/server.cpp:174-177 | every event of the user, oldest first, is written to everyone, and its queue is emptied |
| Chat.Server.VisitUser | source/server.cpp:168-179 | the list after one visit, and whether the user is still connected |
| Chat.Server.Erase | source/server.cpp:181 | removes exactly the user at the index; the erased user is no longer in the list and its socket belongs to no user left |
| Chat.Server.Step | source/server.cpp:168-187 | visits one user and erases it when it is disconnected; an erased user keeps the state its visit gave it, and users erased before stay untouched |
| Chat.Server.ProcessUsers | source/server.cpp:160-189 | the users end as the sweep says, the list keeps exactly the users flagged kept, in order, and each erased user ends in the state its own visit gave it |
| Chat.Server.Tick | source/server.cpp:191-205 | one loop round: accept, then process the users; the list keeps exactly the kept users of the accepted list, and each erased user ends in the state its own visit gave it |
| Chat.Host | source/server.cpp:116-125 | a failed bind or listen is reported instead of a server; otherwise a bound listener with no users |
| ChatProperties.ChatTexts | source/server.cpp:111 | one chat event per line |
| ChatProperties.Framed | source/tcp-socket.cpp:224 | one framed line per event |
| ChatProperties.NamedMessages | source/server.cpp:99-114 | a named user queues "name: line" for each non-empty line, in order, and keeps its name |
| ChatProperties.UnnamedMessages | source/server.cpp:99-114 | the first non-empty line names an unnamed user and is announced; the later ones are chat from that name |
| ChatProperties.MessagesEvents | source/server.cpp:99-114 | processMessage over lines matches the reference definition of name and events |
| ChatProperties.NameNeverChanges | source/server.cpp:103-112 | once set, the name never changes |
| ChatProperties.EmptyLinesIgnored | source/server.cpp:101 | empty lines produce nothing |
| ChatProperties.UserProcessOutcome | source/server.cpp:72-97 | all four outcomes of User::process: unnamed, timed out, left, still online |
| ChatProperties.TimedOutUserLeavesOffline | source/server.cpp:85-90 | a named user that timed out is offline, and its last event is the timeout |
| ChatProperties.NullUserInert | source/server.cpp:74 | a user without a socket is never pumped and never online |
| ChatProperties.GetMessageFifo | source/server.cpp:50-62 | events come out first in, first out |
| ChatProperties.GetMessageEmpty | source/server.cpp:50-62 | an empty queue yields "" and changes nothing |
| ChatProperties.AcceptAppends | source/server.cpp:137-145 | users keep their places; pending connections are appended as new users; a failure adds one user without a socket and closes the listener |
| ChatProperties.AcceptOnClosedListener | source/tcp-socket.cpp:172-199 | a closed listener accepts nobody |
| ChatProperties.SendsAppend | source/tcp-socket.cpp:220-231 | writes to a live socket whose sends succeed record each event framed, in order |
| ChatProperties.SendsToDead | source/server.cpp:64-70 | writing to a closed socket, or to a user without one, changes nothing |
| ChatProperties.SendsFailing | source/tcp-socket.cpp:226-229 | the first failed send closes the socket and nothing is recorded |
| ChatProperties.WriteReachesEveryone | source/server.cpp:147-158 | writeMessage reaches every live user, names and queues unchanged |
| ChatProperties.VisitDelivers | source/server.cpp:168-177 | every event of the visited user goes to every user, itself included |
| ChatProperties.VisitKeepsOnline | source/server.cpp:179-184 | a user is kept after its visit exactly when it is still connected |
| ChatProperties.CountTrue | source/server.cpp:160-189 | at most one kept user per decision |
| ChatProperties.SweepLength | source/server.cpp:160-189 | the final list holds the users before the start index plus one per kept user |
| ChatProperties.NullUserErased | source/server.cpp:170-184 | a user without a socket is erased at its first visit |
| ChatProperties.SelectCount | source/server.cpp:181 | erasing keeps exactly the kept users, none added |
| ChatProperties.SendsCompose | source/server.cpp:174-177 | writing two runs of events is writing them as one run |
| ChatProperties.SelectCons | source/server.cpp:179-187 | a user in front is kept ahead of the others exactly when it is flagged kept |
| ChatProperties.FlattenAppend | source/server.cpp:166-188 | the events of two runs of visits, joined, are the first run's events followed by the second's |
| ChatProperties.VisitWrites | source/server.cpp:168-177 | one visit writes the visited user's events to every user, to the visited one after its queue is emptied |
| ChatProperties.PassVisits | source/server.cpp:160-189 | each user visited has been written exactly the events of the users visited before it, in order, is then pumped and written its own events, and is kept exactly when still connected |
| ChatProperties.PassRemaining | source/server.cpp:160-189 | from any index: the users in front get every event of the pass; each kept user follows, in order, with the events of every later visit written to it |
| ChatProperties.PassFromStart | source/server.cpp:160-189 | over a whole pass the final list is the kept users, in order, each with the events of the later visits written after its own visit |
| ChatProperties.FinishedState | source/server.cpp:160-189 | the user at position t gets the earlier visits' events, is pumped, then gets its own and every later visit's events, in visit order |
| ChatProperties.ErasedUserMissesLaterEvents | source/server.cpp:168-184 | before its turn an erased user with a live socket was written exactly the framed events of the users visited before it; its state after its visit, which ProcessUsers says is its final state, adds only its own events, and it is no longer connected |
| ChatClient.AfterGetMessage | source/client.cpp:53-67 | the oldest message and the rest, or "" and nothing changed |
| ChatClient.AfterTick | source/client.cpp:86-118 | the state one loop iteration leaves; stated through TickOrder, TimeoutWins, ServerClosed, RunsWhileConnected and TickKeepsSession |
| ChatClient.Client.constructor | source/client.cpp:20-29 | the name is written as the first line, then the loop runs |
| ChatClient.Client.IsClosed | source/client.cpp:41-44 | true exactly when the loop has stopped |
| ChatClient.Client.HasMessage | source/client.cpp:46-51 | true exactly when a message is queued |
| ChatClient.Client.GetMessage | source/client.cpp:53-67 | pops the oldest message, or "" when there is none |
| ChatClient.Client.SendMessage | source/client.cpp:69-74 | writes the line to the socket |
| ChatClient.Client.ProcessMessage | source/client.cpp:76-84 | a non-empty line is queued, an empty one dropped |
| ChatClient.Client.Drain | source/client.cpp:95-98 | every decoded line is read off, and the non-empty ones are queued in order |
| ChatClient.Client.Tick | source/client.cpp:86-118 | one loop iteration: pump, drain, then end the session on a timeout or a lost connection |
| ChatClient.Open | source/client.cpp:20-29 | a failed connect is reported instead of a client; otherwise the socket is connected and the name sent |
| ClientProperties.TickOrder | source/client.cpp:93-113 | the tick's non-empty lines are queued in order after the old ones; one more message follows exactly when the loop stops |
| ClientProperties.TimeoutWins | source/client.cpp:100-107 | a timeout closes the socket, stops the loop, and ends with "Connection has been lost" |
| ClientProperties.ServerClosed | source/client.cpp:108-113 | a lost connection without a timeout ends with "The server has been closed" |
| ClientProperties.RunsWhileConnected | source/client.cpp:100-113 | the loop goes on exactly while it is connected and not timed out |
| ClientProperties.StoppedClientInert | source/client.cpp:88 | a stopped client is unchanged by later ticks |
| ClientProperties.WriteKeepsLink | source/tcp-socket.cpp:220-231 | writing keeps an open handle exactly while connected, and never takes back a sent line |
| ClientProperties.FrameKeepsLink | source/tcp-socket.cpp:269-281 | the framing step keeps the handle open exactly while connected, and keeps what was sent |
| ClientProperties.HeartbeatKeepsLink | source/tcp-socket.cpp:283-297 | the heartbeat step keeps the handle open exactly while connected, and keeps what was sent |
| ClientProperties.ProcessKeepsLink | source/tcp-socket.cpp:249-299 | process keeps the same link invariant and never takes back a sent line |
| ClientProperties.TickKeepsSession | source/client.cpp:86-118 | every tick keeps the session invariant: a stopped client has no connection |
| ClientProperties.OpenStartsSession | source/client.cpp:20-29 | a new client starts a session whose only line sent is its name |
| ClientProperties.StoppedSendsNothing | source/client.cpp:69-74 | a stopped client's sendMessage changes nothing |
| ClientProperties.GetMessageFifo | source/client.cpp:53-67 | messages come out first in, first out |
| CommandLine.MatchIndex | source/arguments.cpp:43-57 | the first index before the last position naming the flag, or None when there is none |
| CommandLine.HasMatch | source/arguments.cpp:30-41 | some argument is `/flag` or `-flag`; stated through Arguments.HasArg and ArgValueImpliesHasArg |
| CommandLine.ArgValue | source/arguments.cpp:43-57 | the argument after the first match before the last position, or ""; stated through ArgValueFollowsFirstMatch, ArgValueEmpty and TrailingFlagHasNoValue |
| CommandLine.Arguments.constructor | source/arguments.cpp:20-28 | no arguments stored |
| CommandLine.Arguments.SetArgs | source/arguments.cpp:20-28 | the stored arguments are argv[0..argc) |
| CommandLine.Arguments.HasArg | source/arguments.cpp:30-41 | true exactly when some argument is `/flag` or `-flag` |
| CommandLine.Arguments.GetArg | source/arguments.cpp:43-57 | the argument after the first flag found before the last position, or "" |
| CommandLine.ArgValueFollowsFirstMatch | source/arguments.cpp:43-57 | the value is the argument right after the first match |
| CommandLine.ArgValueEmpty | source/arguments.cpp:43-57 | with no match before the last position the value is "" |
| CommandLine.ArgValueImpliesHasArg | source/arguments.cpp:30-57 | a non-empty value implies hasArg |
| CommandLine.TrailingFlagHasNoValue | source/arguments.cpp:30-57 | a flag only in last position is present but has no value |
| CommandLine.FlagValueMayBeFlag | source/arguments.cpp:43-57 | a value that looks like the flag is still returned |
| LineEditor.FilterKey | source/terminal.cpp:362-367 | a byte passes unchanged or reads as no key, and reads as no key exactly for NUL and the control bytes that are not editing keys |
| LineEditor.FirstBlocked | source/terminal.cpp:393 | the index of the first byte that reads as no key |
| LineEditor.AfterKey | source/terminal.cpp:395-441 | the state one key leaves; stated through EraseDropsLast, EnterQueuesLine, EscapeAndTyping, DisabledIgnoresKeys and KeyKeepsClean |
| LineEditor.AfterKeys | source/terminal.cpp:391-442 | the keys taken one by one; stated through KeysAppend, TypingAppends and KeysKeepClean |
| LineEditor.AfterEnable | source/terminal.cpp:88-117 | enableInput and disableInput: disabling drops the typed line; stated through EnableInputEffects |
| LineEditor.AfterGetLine | source/terminal.cpp:126-140 | the oldest queued line and the rest, or "" and nothing changed |
| LineEditor.Terminal.constructor | source/terminal.cpp:30-62 | input disabled, nothing typed or queued |
| LineEditor.Terminal.ProcessKey | source/terminal.cpp:395-441 | one key through the switch |
| LineEditor.Terminal.ProcessKeys | source/terminal.cpp:384-448 | one pass of the inner loop takes keys up to the first no key and reports how many bytes it read |
| LineEditor.Terminal.EnableInput | source/terminal.cpp:88-117 | disabling drops the typed line and keeps the queue; enabling changes only the flag |
| LineEditor.Terminal.HasLine | source/terminal.cpp:119-124 | true exactly when a line is queued |
| LineEditor.Terminal.ShouldExit | source/terminal.cpp:161-164 | true exactly when the exit flag is set |
| LineEditor.Terminal.HandleSignal | source/terminal.cpp:450-453 | sets the exit flag and nothing else |
| LineEditor.Terminal.GetLine | source/terminal.cpp:126-140 | pops the oldest queued line, or "" when there is none |
| EditorProperties.FilterPassesEditingKeys | source/terminal.cpp:362-367 | every byte from 0x20 up and every editing key passes; other control bytes read as no key |
| EditorProperties.EraseDropsLast | source/terminal.cpp:399-409 | Backspace and DEL drop the last character, or do nothing on an empty line |
| EditorProperties.EnterQueuesLine | source/terminal.cpp:411-424 | Enter queues and clears a non-empty line; on an empty line it does nothing |
| EditorProperties.EscapeAndTyping | source/terminal.cpp:425-440 | ESC only sets exit; a printable key is appended |
| EditorProperties.DisabledIgnoresKeys | source/terminal.cpp:395 | while input is disabled every key is consumed without effect |
| EditorProperties.KeysAppend | source/terminal.cpp:391-442 | two runs of keys compose |
| EditorProperties.TypingAppends | source/terminal.cpp:431-440 | typing printable characters appends them in order |
| EditorProperties.TypeLineThenEnter | source/terminal.cpp:411-440 | typing a printable line and pressing Enter queues exactly that line |
| EditorProperties.KeyKeepsClean | source/terminal.cpp:391-442 | a key getchar lets through keeps every typed and queued character printable and every queued line non-empty |
| EditorProperties.KeysKeepClean | source/terminal.cpp:391-442 | a run of such keys keeps that invariant |
| EditorProperties.PassKeepsClean | source/terminal.cpp:384-448 | one pass of the input loop keeps that invariant |
| EditorProperties.EnableInputEffects | source/terminal.cpp:88-112 | the effect of enabling and disabling, and that both keep the invariant |
| EditorProperties.GetLineFifo | source/terminal.cpp:126-140 | lines come out first in, first out |
| EditorProperties.TypedLineCrossesWire | source/terminal.cpp:411-424 | a typed line sent with writeLine is decoded intact by the peer and queued as data |

## Left out

- OS sockets: `socket`, `bind`, `listen`, `connect`, `accept`, `send` and `recv` are reduced to their outcomes, which are parameters. `isAvailable` (`select`) becomes the list of chunks and the number of pending connections.
- Socket creation failure (tcp-socket.cpp:26-31) is not modelled: `TcpSocket(now)` always yields a valid handle.
- Winsock `startup`/`cleanup` and the TcpSocket destructor are not modelled; they have no observable state here.
- The chunk size of `recv` (1023 bytes) is not modelled: a chunk is whatever one `recv` delivered.
- `inet_pton`, `getaddrinfo` and `inet_ntop` are not modelled: the literal check is a boolean, and the per-family resolver answers are input lists. The per-family helpers `resolveHostAddressesIPv4/IPv6` compare with `=` where `==` was meant (network.cpp:45, network.cpp:86); since their results are inputs here, that slip is not modelled.
- Time is an integer millisecond clock passed in as `now`, not float seconds read from a high-resolution clock. Each operation reads one `now`, where the source reads the clock several times in one call.
- Sockets.TcpSocket.Process: one `sendOk` covers every send in one call (the ack and the ping).
- Text.StreamUShort: a leading '+' or '-' sign is not modelled (it reads as no digits), and neither is the failed stream state after an overflow (the value is capped at 65535).
- Text.AtoiUShort: a leading sign is not modelled, and atoi's result is undefined when the digits denote more than INT_MAX; the model takes the digits' value modulo 65536 in every case.
- Threads, mutexes, sleeps and the `run` loops of Server, Client and Terminal are not modelled. One loop iteration is a `Tick` (or one `ProcessKeys` pass); destructors that stop and join threads are left out.
- `terminal-chat.cpp` (argument handling and the main loops wiring Terminal to Client or Server) is not part of this model.
- Terminal rendering is not modelled: `erase`, `print`, the label, `setLabel`, `printLine`, cursor queries, `checkForNewline`, and the termios/console modes set by the constructor and destructor.
- `disableInput` is `EnableInput(false)`.
- `Terminal::exit` is a static flag shared by all terminals; here it is a field of the one terminal.
- Arguments `args` is static in the source; here it is a field of one `Arguments` object.
- `User::getName` is not a separate member: the name is a field of the user's state.
- `Chat.Server.Tick` takes one environment per user of the list after accepting. Users are erased during the pass, so their environments are dropped with them.
- Chat.Sweep: each user has one `sendOk` for the whole pass. It decides every send to that user: the ack and ping inside its own `User::process`, and every event `writeMessage` writes to it. A user whose early sends succeed and a later send fails in the same pass (a peer that drops mid-pass) is not modelled.
- Chat.Server.ProcessUsers: the same single `sendOk` per user covers every send to that user during the pass.
- Chat.Server.Tick: the same single `sendOk` per user covers every send to that user during the pass.
- Chat.WriteAll: the same single `sendOk` per user is used for every message it writes.
- Chat.Fanout: the same single `sendOk` per user is used for every message it writes.
- Chat.Visit: the same single `sendOk` per user is used for every message it writes.
- ChatProperties.SelectCount states that the kept users are drawn from the old list and counted. It does not state that they keep their relative order beyond what `Select` defines.
