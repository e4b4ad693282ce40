# Replicated routing tables and summing servers, verified

A Dafny model of two programs of the repository, with proofs.

**The table service (`nhap/ip`).** A server owns a routing table and a MAC list. It turns the
operator's command lines into messages, applies each message to its own tables and broadcasts it.
A new client first gets a snapshot: every entry is printed as a command, parsed back into a message
and sent. Clients replay messages with the same code. `Protocol` is the whole system as a
transition system (one server, any number of clients, one FIFO channel each), up to and beyond the
end of the server. `Steps` says what each of its steps does in terms of what is typed and of what
arrives, and `History` what its signals do and whom they go to. What holds on every run is proved in
`Replication` and `Runs` (the tables), `Flags` and `Agreement` (the flags that tell a client that it
is up to date) and `Shutdown` (the end); `Failures` are runs that go wrong, on the command lines of
`Lines`. Below it, `Tokens`, `Message`, `Snapshot` and `Table` say what bytes, command lines and
messages mean. `LinkedList`, `Slots`, `Sync`, `Store`, `Parser`, `ServerProcess`, `ClientProcess` and
`MainLoop` are the programs themselves: heap nodes, byte buffers and loops, each proved against the
functions that the transition system is made of.

**The summing servers (`linux-inter-process-communication/unix-domain-socket`).** `Summing` proves
that the server that multiplexes clients over a slot array sends every client what the server for
one client at a time would send it.

## Where the code does not do what it is for

The code is modelled as it is. Some of its promises hold only under a condition, which is proved to
be exact.

* **Snapshot.** `update_new_client` reuses one message, and the parser copies words into it without
  a terminator, so a word that is shorter than its predecessor in the same field keeps the end of
  that predecessor. A new client's routing table is right if and only if, going down the server's
  table, no destination, gateway or interface name gets shorter (`Widening`). Otherwise entries
  change or disappear: `SnapshotLosesRoute`. MAC entries always survive, because they are all 17
  characters long and the byte behind them is the high byte of a mask in the union. `LosingRun` is
  a run with such tables.
* **Flush and tables.** FLUSH empties clients by a signal, which overtakes the messages under way.
  It keeps a client in step if and only if every addition still under way to it is followed by a
  deletion of the same key (and no long name, below, kills it); and since process ids are recorded in an array that is never cleaned
  up, a client whose id found no place is not reached, which is harmless only if there is nothing
  to flush (`FlushSoundFor`). `FlushOvertakes` is a run that goes wrong.
* **Flush and flags.** A flag under way was right for the tables the client had. It stays right for
  a client that is emptied if, before it, all that the client held of that table is dropped, and
  only then unless a key is added again that the client holds (`FlagsByKeys`). `FlushLies` is a run
  in which a client reads that a wrong routing table is up to date; in `SoundButUntrue` it does so
  although it is in step with the server in every state.
* **A client that has gone.** Nobody catches SIGPIPE, and a client that closes its socket keeps its
  slot until the server gets round to reading its farewell. A broadcast, or the loop that tells the
  clients of a shutdown, kills the server at the first such slot, and the clients in later slots
  hear nothing. It goes through if and only if no registered client has gone (`NoneGone`,
  `SurvivesIff`). `InterruptFails` and `BroadcastFails` are runs that go wrong. A client that goes
  before its welcome is written kills the server as well (`Lost`), and so does, in the summing
  servers, a client that goes before its answer is written.
* **Bad lines.** The header comment of `create_sync_message` promises -1 on any failure. On the lines
  of `Breaks` C gives no meaning to the call: no mask word after an IP address (a null pointer is
  read), a mask above `INT_MAX` (`atoi`), an interface name of more than 32 characters (the copy
  overruns its field). The model takes the server down there: `LineFails`.
* **Long names.** A name of exactly 32 characters fills its field and has no terminator. Parsing it
  is fine; to read it is not, and a message is read when it creates a route that is new, or updates
  one that is there (`ReadsName`). The server crashes on such a line (`LongNameFails`), and passes
  the line on if it does not need to read it. A client that is emptied by a flush before it gets
  there does read it, and is killed: `LongNameKills`, with the exact condition in `SmoothExact`.
* **The end.** A client keeps the server's tables, and stops, if and only if SIGINT reached its slot.
  Every other client takes the end of file for an empty message, which is a CREATE of the route
  without destination, adds that and reads on for ever (`KeepsIff`).

On every run the server is up and the replicas are in step throughout exactly when every step met
its condition (`RunReplicates`), and the same holds for the flags (`RunTruthful`).

Two comments in the code are wrong, and the model follows the code: line 434 of the table server
says that slots 0 and 1 belong to stdin and stdout, but slot 1 holds the master socket; line 269 of
the multiplexing server says that the loop goes back to `select` after a reply, but it goes on to
the next slot.

## Conventions

* A `char` is a byte. The body of a message is its 66 bytes, with the two entry structures laid
  over each other and the mask stored little-endian.
* `inet_pton`, `strtok`, `strcspn`, `atoi` and `%u` are functions with the meaning the C and POSIX
  standards give them. Whether `store_IP` succeeds is the parameter `stored`.
* A process that does something to which C gives no meaning ends there, and its sockets are closed.
* A free slot holds -1, and both servers evaluate `FD_ISSET` on it (`nhap/ip/server.c:447`, and line
  232 of the multiplexing server), to which C gives no meaning. The model skips free slots.
* An accepted descriptor is one that is not open. A read yields one written message. `select`
  is a free choice, and so is the order of deliveries. Only a client that leaves writes to the
  server, and what it writes is 1. `peers` are the clients whose sockets are open.
* `Sent.stamp` is history: the server's tables when the packet was written.

## Model

| member | source | states |
|---|---|---|
| Runs.RunReplicates | nhap/ip/server.c:372-466 | On every run: in every state the server has not crashed and the undelivered messages of every registered client lead to exactly the server's two ordered tables, if and only if every step met its guard |
| Replication.StepReplicates | nhap/ip/server.c:390-465 | One step (connect, command, delivery, end of file, departure, dismissal, shutdown) keeps the service up and all registered clients in step if and only if its guard holds |
| Replication.ConnectReplicates | nhap/ip/server.c:391-410 | The same for a connection: the guard is a full slot array or a widening routing table |
| Replication.MessageReplicates | nhap/ip/server.c:420-442 | The same for an update and its broadcast: the guard is that no registered client has gone |
| Replication.FlushReplicates | nhap/ip/server.c:182-191 | The same for FLUSH: the guard looks, besides, at the packets under way and the recorded process ids |
| Replication.InterruptReplicates | nhap/ip/server.c:263-287 | The same for SIGINT: the guard is that no registered client has gone |
| Replication.CancelledExact | nhap/ip/client.c:37-43 | A client that is emptied while messages are under way ends up empty if and only if every addition among them is followed by a deletion of its key |
| Replication.SmoothExact | nhap/ip/sync/sync.c:16-36 | An emptied client lives through the queue if and only if no unterminated name in it belongs to a CREATE of a route that does not stand by then, or to an UPDATE of one that does |
| Replication.RoutesCancelledExact | nhap/ip/client.c:37-43 | The same for its routing table alone |
| Runs.RunSafety | nhap/ip/server.c:49-79 | On every run, with no condition: slot 0 holds stdin, slot 1 the given master socket until that is closed, no descriptor is held twice, every slot from 2 on is an open socket, tables hold well-formed entries and no key twice, and every string under way but an interface name ends inside its field |
| Runs.RunReady | nhap/ip/server.c:249-252 | And interface names too, on every run without a line whose name fills its field |
| Steps.LineMeans | nhap/ip/server.c:411-442 | A line whose words mean a change makes that change in the server's table and nowhere else, and every client that the loop gets to is sent exactly one packet: the change, the flag 1 if it is about routes and 2 if it is about MAC addresses, and the loop flag 1; or the server cannot process it (`Stumbles`) and ends |
| Steps.MeaningTable | nhap/ip/server.c:418-431 | A change of a route never has the flag 2, a change of an address always |
| Steps.LineFlushes | nhap/ip/server.c:182-191 | A line with the verb F empties the server's tables and exactly those clients whose process is recorded, and announces an empty routing table with the flag 1 |
| Steps.LineFails | nhap/ip/server.c:163-260 | Every other line does nothing at all, or ends the server if it cannot be parsed |
| Steps.ConnectMeans | nhap/ip/server.c:391-410 | A connection fills the first free slot and the first free place for a process id, and sends the new client, and nobody else, a welcome: every route as it will be read with the flag 0, their end with 1, every MAC address with 1, the end with 2 |
| Steps.DoneMeans | nhap/ip/server.c:451-455 | A dismissal frees exactly the slot of that client and closes its socket, so that the descriptor can be accepted again; nothing else changes |
| Steps.InterruptMeans | nhap/ip/server.c:263-287 | SIGINT sends exactly one packet, with the flags 0 and 0 and no effect, to every client that the loop gets to, and frees slot 1 if that is all of them |
| Steps.DeliverMeans | nhap/ip/client.c:102-127 | A delivery takes the first packet off the channel of that client; it changes its tables and loop flag as the packet says, or is killed exactly by a long name that it reads; nobody else is touched |
| Steps.EndOfFileMeans | nhap/ip/client.c:99-120 | At the end of file a client gains the route without destination unless it has it already, and goes on |
| Steps.LostMeans | nhap/ip/server.c:391-410 | A client that has gone before its welcome leaves its descriptor and its process id behind, and the server ends |
| History.SignalEmpties | nhap/ip/server.c:104-112 | A command empties a client if and only if its process is in a set that the command signals |
| History.RunSignals | nhap/ip/server.c:60-68 | On every run each flush signals exactly the first 32 processes that ever announced themselves on it, whatever has become of them |
| History.RunHasPasses | nhap/ip/server.c:372-466 | Every run of the protocol is made by passes of the program, so nothing is proved of runs that it cannot make |
| Protocol.StepInv | nhap/ip/server.c:372-466 | Every step keeps the structural invariant behind this |
| Flags.RunTruthful | nhap/ip/client.c:47-69 | On every run, crashes included: in every state every flag under way will be true when it is read, with the registered clients in step, if and only if every step was candid |
| Flags.StepTruthful | nhap/ip/server.c:418-441 | The same for one step, whatever it is |
| Flags.FlushTruthful | nhap/ip/server.c:182-191 | The same for FLUSH: the flags under way must be true from empty tables on, nothing under way may kill an emptied client, and the routes under way must be cancelled where the packet of the flush itself arrives |
| Flags.FlagsTruthful | nhap/ip/client.c:122-127 | So on every candid run no client is killed by what it reads, and one that finishes a packet flagged RT or ML has the routing table or MAC list that the server had when it wrote the packet |
| Flags.FalseFlagShows | nhap/ip/client.c:99-127 | And if a flag under way will not be true, the client that reads on reads it, or is killed before; without long names it reads it |
| Failures.DifferenceShows | nhap/ip/server.c:176-181 | Flags are where a wrong replica comes out: after SHOW and an update of a MAC address, which change nothing, a registered client that does not follow the server reads a false flag or is killed |
| Flags.WelcomeTruthful | nhap/ip/server.c:307-320 | The flags of a snapshot, including RT on the MAC entries, are truthful if and only if the routing table is widening |
| Flags.StampIsNow | nhap/ip/server.c:433-441 | What a step appends to a channel is stamped with the server's tables after that step, and nothing already under way changes |
| Agreement.FlagsByKeys | nhap/ip/client.c:37-43 | True flags stay true for an emptied client if before each flag every key it held of that table is dropped, and only then unless a held key is added again |
| Agreement.AgreeExact | nhap/ip/sync/sync.c:15-47 | The same changes to a table and to nothing give the same table if they drop every key held at first, and only then unless a held key is added again |
| Agreement.AgreeOutside | nhap/ip/sync/sync.c:15-47 | At all times the two agree, order included, on all keys but those held at first and not dropped yet |
| Shutdown.KeepsIff | nhap/ip/client.c:99-128 | After a sound run the server goes down by whatever step, and anything that can still happen happens: a client that comes to an end has the server's tables, and has stopped, if and only if the packet of SIGINT was written to it |
| Shutdown.Exhausts | nhap/ip/client.c:99-128 | And every client can read on to an end, its last packet or the end of file, or, exactly if a long name is in the way, is killed by reading on |
| Shutdown.ShutdownDrains | nhap/ip/server.c:263-287 | After SIGINT on a sound run every client can read on, and it stops with the tables of the server if and only if the loop over the slots got to it, whatever the uninitialized message holds; if no registered client has gone, all registered clients do |
| Shutdown.ShutdownAgreement | nhap/ip/client.c:99-128 | On every sound run, a registered client with nothing under way to it has the server's tables; one that has left its loop has drained its channel, after a shutdown |
| Shutdown.CommandCrashes | nhap/ip/server.c:411-443 | A line takes the server down if and only if it cannot be parsed (`Breaks`), or has a long name that the server reads (`Stumbles`), or leads to a broadcast when a registered client has gone |
| Shutdown.StumblesExact | nhap/ip/sync/sync.c:16-36 | Which accepted lines the server cannot process: those with a name of 32 characters that create a route not in its table, or update one that is, stated on the words |
| Shutdown.InterruptStops | nhap/ip/server.c:263-287 | SIGINT stops the server in order if and only if no registered client has gone |
| Slots.SurvivesIff | nhap/ip/server.c:434-441 | A loop that writes to all clients goes through if and only if no registered client has gone, and then it reaches them all |
| Slots.ReachedIff | nhap/ip/server.c:270-277 | It reaches a client if and only if no slot up to its own holds one that has gone |
| Failures.FlushOvertakes | nhap/ip/server.c:182-191 | For every line that adds a MAC address: connect, type it, flush before it is delivered; that run breaks the replica |
| Failures.FlushLies | nhap/ip/server.c:182-191 | For every line that adds a route: connect, type it, flush; the client then reads that its routing table is up to date when it is not |
| Failures.SoundButUntrue | nhap/ip/server.c:176-191 | For every line that adds a route: connect, type it, have all delivered, SHOW, flush; every step meets its guard for the tables, but the client reads a false flag |
| Failures.LongNameKills | nhap/ip/sync/sync.c:16-25 | Connect, add a route, have all delivered, repeat it with a name of 32 characters, flush: the server stays up, and the next read kills the client |
| Failures.LongNameFails | nhap/ip/sync/sync.c:18-23 | A new route with a name of 32 characters takes the server down |
| Failures.SnapshotFails | nhap/ip/server.c:290-321 | For any lines that add two routes of which the second is shorter somewhere: type them, and a client that connects does not get the routing table |
| Failures.LosingRun | nhap/ip/server.c:290-321 | The concrete tables of `SnapshotLosesRoute` come about |
| Lines.AddRouteCommand | nhap/ip/server.c:300 | The printed form of any route that a line can name, with a line break, is such a line |
| Lines.LineEnds | nhap/ip/server.c:414 | What is read is cut at its first CR, LF or terminator, whatever follows |
| Lines.LineIsAll | nhap/ip/server.c:414 | And taken whole if it has none |
| Lines.Entered | nhap/ip/server.c:412-417 | A line with its line break is parsed as the line without it |
| Lines.FlushCommand | nhap/ip/server.c:182-191 | F and a line break is a flush |
| Failures.InterruptFails | nhap/ip/server.c:270-277 | Two clients connect, the first leaves, SIGINT: the server crashes, and the second client is not told |
| Failures.BroadcastFails | nhap/ip/server.c:434-441 | The same with any accepted line in place of SIGINT |
| Failures.LostFails | nhap/ip/server.c:391-410 | One client that goes before its welcome takes the server down |
| Failures.LineFails | nhap/ip/server.c:229-231 | In any state, a deletion of any IP address without a mask takes the server down with nobody told |
| Snapshot.RoutesExact | nhap/ip/server.c:290-321 | The first phase replayed from an empty routing table gives the server's table, in order, if and only if the table is widening; the MAC list is not touched |
| Snapshot.SeenExact | nhap/ip/server.c:294-313 | The routes read out of the reused message are the entries if and only if each field is at least as long as what it overwrites |
| Snapshot.AddAllLength | nhap/ip/sync/sync.c:16-25 | Replayed additions give all entries in order exactly when none was dropped as a duplicate |
| Snapshot.MacStreamReplays | nhap/ip/server.c:302-312 | The second phase adds exactly the MAC entries, in order, whatever routes the message held before |
| Snapshot.PrefixIsLost | nhap/ip/server.c:300-308 | Of two routes with one mask, the second of which has a beginning of the first destination as its own, a new client learns only the first |
| Snapshot.SnapshotLosesRoute | nhap/ip/server.c:290-321 | Concrete tables with that effect |
| Replication.WelcomeReplays | nhap/ip/server.c:408-409 | Both phases: the MAC list always arrives, the routing table if and only if it is widening |
| Snapshot.ReparseRoute | nhap/ip/server.c:299-306 | Printing any valid route and parsing the line into a message in any state is accepted and yields the route overlaid on the text it held |
| Snapshot.RouteRoundTrip | nhap/ip/server.c:299-306 | On a blank message that is a round trip |
| Snapshot.ReparseMac | nhap/ip/server.c:302-306 | The round trip of a MAC entry, over the remains of any route |
| Snapshot.PrintFits | nhap/ip/server.c:300 | The printed route fits the command buffer and splits into its five words |
| Message.ParseMeaning | nhap/ip/server.c:163-260 | A line parsed into a blank message is accepted with a given meaning if and only if the operator's grammar, stated on its words alone, gives it that meaning |
| Message.BreaksExact | nhap/ip/server.c:163-260 | Which lines have no meaning in C, stated on their words alone, from any state of the message |
| Message.ParseReady | nhap/ip/server.c:202-252 | An accepted line leaves only strings that end inside their fields, except for an interface name exactly if that has 32 characters |
| Parser.CreateSyncMessage | nhap/ip/server.c:164-260 | The message in memory becomes what `Parse` says, on every line, from every state of the message, in every outcome |
| Tokens.SplitAppend | nhap/ip/server.c:165 | For all texts: the words of two texts with a blank between them are the words of the first and then those of the second, so a run of blanks counts as one |
| Tokens.SplitWord | nhap/ip/server.c:202 | A text without a blank is one word, never less |
| Tokens.SplitOnly | nhap/ip/server.c:165-202 | No other function has these two properties and no words in the empty text |
| Tokens.SplitKeepsText | nhap/ip/server.c:165 | The words of a line, put together, are the line without its blanks |
| Tokens.SplitJoin | nhap/ip/server.c:300 | Splitting words joined by single blanks gives the words back |
| Address.IsValidMac | nhap/ip/server.c:137-148 | The loop accepts exactly `XX:XX:XX:XX:XX:XX` with hexadecimal digits, and never reads past the terminator |
| Address.DigitsOnly | nhap/ip/server.c:115-122 | The loop accepts exactly the strings of digits |
| Address.IpIsNotMac | nhap/ip/server.c:203-223 | No text is both an IP and a MAC address, so the choice of the table is unambiguous |
| Address.IpIsFourOctets | nhap/ip/server.c:125-128 | A valid address is four octets with dots between them, and nothing else is |
| Address.OctetIsByte | nhap/ip/server.c:125-128 | A number in decimal is an octet if and only if it is below 256 |
| Address.MacIsSixPairs | nhap/ip/server.c:137-148 | A MAC address is six pairs of hexadecimal digits with colons between them, and nothing else is |
| Address.IpShape | nhap/ip/server.c:205 | It consists of digits and dots and fits its field with the terminator |
| CString.PutReads | nhap/ip/server.c:205 | A copy without terminator into a clean buffer reads as the new text and what sticks out of the old one |
| Table.LookupAfter | nhap/ip/sync/sync.c:15-47 | Looking up any key after any message: CREATE counts only for an absent key, UPDATE only for a present one, one DELETE makes the key absent, nothing else changes |
| Table.KeysAfter | nhap/ip/sync/sync.c:15-47 | New keys go to the end, a deletion takes out one place, and nothing else moves |
| Table.MacsAfter | nhap/ip/sync/sync.c:49-80 | The same for the MAC list |
| LinkedList.Dll.Append | nhap/ip/dll/dll.c:18-30 | The circular list stays proper in both directions, and the datum is added at the end in a new node |
| LinkedList.Dll.Del | nhap/ip/dll/dll.c:33-40 | Exactly the given node is unlinked |
| LinkedList.Dll.Deinit | nhap/ip/dll/dll.c:43-51 | The loop over the changing list terminates with only the dummy left |
| LinkedList.Dll.Forward | nhap/ip/dll/main.c:17-24 | Following `next` from the head yields the data once each, in order |
| LinkedList.Dll.Backward | nhap/ip/dll/main.c:26-33 | Following `prev` from the tail yields the reverse |
| Store.EntryList.FindRoutingTableEntry | nhap/ip/routing-table/routing-table.c:21-31 | The walk returns the node of the first entry with the key, and the dummy exactly when the key is absent |
| Store.EntryList.FindMacEntry | nhap/ip/mac-list/mac-list.c:30-40 | The same for the MAC list |
| Store.EntryList.Overwrite | nhap/ip/routing-table/routing-table.c:34-40 | The bytes of one entry are overwritten in place, those of all others stay: no two nodes share a buffer |
| Sync.OverwrittenReads | nhap/ip/routing-table/routing-table.c:36-39 | Clearing and copying leaves exactly the new gateway and interface, and the rest of the entry |
| Store.EntryList.ProcessSyncMesg | nhap/ip/sync/sync.c:11-81 | The list in memory, read as an ordered keyed table, follows `Apply` for every message; only the buffer of the message and new nodes enter its memory |
| Slots.AddClient | nhap/ip/server.c:49-57 | A new client gets a slot from 2 on, or nothing happens when all are taken; the permanent slots and distinctness stay |
| Slots.RemoveClient | nhap/ip/server.c:71-79 | Exactly that client loses its slot |
| Slots.AddToMonitoredFdSet | nhap/ip/server.c:49-57 | The loop fills the first free slot, or leaves a full array alone |
| Slots.RemoveFromMonitoredFdSet | nhap/ip/server.c:71-79 | The loop frees the first slot with the descriptor |
| Slots.RefreshFdSet | nhap/ip/server.c:93-101 | The set built for `select` is exactly the set of registered descriptors |
| Slots.GetMaxFd | nhap/ip/server.c:151-161 | The maximum of the registered descriptors, or -1 |
| MainLoop.RunServer | nhap/ip/server.c:323-467 | The program in memory, from its start and over any sequence of passes each of which the outside world can cause in the state it comes in: what it makes is a legal run of the protocol, its memory is the server of the state that this leads to, and the processes it signals are those that the flushes of the run signal |
| MainLoop.TraceLegal | nhap/ip/server.c:372-466 | Whatever passes are possible one after the other, their steps are a legal run |
| MainLoop.Perform | nhap/ip/server.c:372-466 | One pass, from any state of a run, with the requirements of the handlers discharged |
| MainLoop.HearLegal | nhap/ip/server.c:444-465 | A pass over the clients is a legal sequence of dismissals |
| ServerProcess.Server.HandleCommand | nhap/ip/server.c:411-443 | The server in memory (lists, slots, sockets) makes the step `OnCommand` of the protocol, and signals the recorded processes exactly on a flush |
| ServerProcess.FlushClients | nhap/ip/server.c:104-112 | The loop signals exactly the recorded process ids |
| ServerProcess.Server.HandleConnect | nhap/ip/server.c:391-410 | It makes the step `OnConnect` (slot, process id, and both phases of the snapshot), or `OnLost` if the client has gone |
| ServerProcess.Server.HandleClients | nhap/ip/server.c:444-465 | Of the ready clients, exactly those that said 1 lose slot and socket, in the order of the slots |
| ServerProcess.GoneAre | nhap/ip/server.c:446-454 | Which these are: the registered clients that are ready and said 1, each once |
| ServerProcess.Server.HandleInterrupt | nhap/ip/server.c:263-287 | It makes the step `OnInterrupt`, and if that stops the server both lists are empty |
| ServerProcess.Server.Broadcast | nhap/ip/server.c:434-441 | The loop from slot 2 writes the packet exactly once to every registered client before the first that has gone, and says whether there was none |
| ServerProcess.OverwritesIsStream | nhap/ip/server.c:294-320 | The chain of overwritten messages that the loop writes is the stream of the protocol |
| ServerProcess.AllFit | nhap/ip/server.c:373 | On valid tables every printed entry fits the command buffer |
| ClientProcess.RunClient | nhap/ip/client.c:71-130 | The client program, from its start and on any legal run, while the server is up and after: shown the packets, signals and end of file that a client of the run sees, its memory is that client at the end of the run, killed, stopped or alive |
| ClientProcess.RunLife | nhap/ip/client.c:99-128 | The protocol's client is, at any point of a run, what those events make of it |
| ClientProcess.Client.Run | nhap/ip/client.c:99-128 | The loop processes the packets in order up to the first that stops or kills it, with the signals between its passes, and the empty message for ever at the end of file |
| ClientProcess.Client.HandleFlush | nhap/ip/client.c:37-43 | The handler leaves two new empty lists |
| ClientProcess.Client.Receive | nhap/ip/client.c:102-127 | One pass of the loop applies one message to the right table and takes over the loop flag, or kills the process |
| ClientProcess.ReadingIsReplay | nhap/ip/client.c:99-128 | Reading what is under way is `Replay` of it, if `Smooth` |
| Summing.RunRefinesSingle | linux-inter-process-communication/unix-domain-socket/multiplexed-client-server/server.c:190-276 | On every run, for any interleaving and any reuse of slots, the numbers sent are those that the single-client server sends to the same clients one by one |
| Summing.RunConserves | linux-inter-process-communication/unix-domain-socket/multiplexed-client-server/server.c:244-271 | On every run, the sum of all values read is the sum of all replies and all live slots |
| Summing.ReadSlotInv | linux-inter-process-communication/unix-domain-socket/multiplexed-client-server/server.c:232-272 | Serving a slot keeps the invariant of both arrays, whether a value comes, the session ends or the client has gone |
| Summing.RunAnswersOnce | linux-inter-process-communication/unix-domain-socket/multiplexed-client-server/server.c:207-270 | On every run every client that has connected has either been answered exactly once or is still open, and nobody else is answered |
| Summing.RunAccumulates | linux-inter-process-communication/unix-domain-socket/multiplexed-client-server/server.c:207-273 | In every reachable state a free slot holds 0, an occupied one the sum of what its present client has sent, and slot 0 the given master socket |
| Summing.ConnectSeats | linux-inter-process-communication/unix-domain-socket/multiplexed-client-server/server.c:207-222 | A client that connects while a slot is free gets the first one, with all its values still to come |
| Summing.IsAnswered | linux-inter-process-communication/unix-domain-socket/multiplexed-client-server/server.c:190-276 | A run that begins with a connection while a slot is free: once the client has been ready more often than it has values, and the server is alive, it has waited and got its answer, which stays |
| Summing.Unseated | linux-inter-process-communication/unix-domain-socket/multiplexed-client-server/server.c:221-273 | A client without a slot is never read on any run |
| Summing.AcceptInv | linux-inter-process-communication/unix-domain-socket/multiplexed-client-server/server.c:207-222 | A new client with a fresh descriptor keeps the invariant of both arrays, whether or not a slot is left |
| Summing.Completes | linux-inter-process-communication/unix-domain-socket/multiplexed-client-server/server.c:252-270 | In any run, with any other clients: a client in a slot that has been ready more often than it has values left, while the server is alive, has waited for its answer and got it the last of these times, and its slot was free and zero then |
| Summing.StillServed | linux-inter-process-communication/unix-domain-socket/multiplexed-client-server/server.c:232-272 | And before that it is still in its slot, with that many values fewer to send |
| Summing.RepliesStay | linux-inter-process-communication/unix-domain-socket/multiplexed-client-server/server.c:252-270 | No reply is ever taken back |
| Summing.RunSurvives | linux-inter-process-communication/unix-domain-socket/multiplexed-client-server/server.c:190-276 | A run leaves the server alive if and only if in none of its events a client is ready that has gone and has nothing left to read |
| Summing.EventSurvives | linux-inter-process-communication/unix-domain-socket/multiplexed-client-server/server.c:230-273 | The same for one event, on the state before it |
| Summing.LeavingKills | linux-inter-process-communication/unix-domain-socket/multiplexed-client-server/server.c:252-264 | One client that connects, sends nothing and goes takes the server down |
| Summing.ServeAll | linux-inter-process-communication/unix-domain-socket/single-client-server/server.c:78-131 | The loops of the single-client server send every client the sum of its values before the first 0 or the end of its stream, up to the first client that has gone before its answer |
| Summing.MuxServer.ServeReady | linux-inter-process-communication/unix-domain-socket/multiplexed-client-server/server.c:230-273 | The loop over the two arrays makes the passes of the model |
| Summing.RunMux | linux-inter-process-communication/unix-domain-socket/multiplexed-client-server/server.c:190-276 | The program in memory makes, on any sequence of events, the run that they are |

## Left out

- HandleCommand: the address that the operator is asked for when a MAC entry is created is not modelled, only whether storing it succeeded.
- CreateSyncMessage: on `F` it reports `Flushed`; the emptying of the lists is done by its caller `HandleCommand`.
- AgreeExact: as `FlagsByKeys`, it says nothing in one direction when a held key is added again; the two tables can then agree by chance, if the same routes come in the same order.
- FlagsByKeys: for a key that is added again to a client that holds it, the second half says nothing; there the guard of `FlushCandid`, on the packets under way, is the exact one.
- Signals are delivered between passes of the main loops. A SIGINT in the middle of a broadcast or snapshot, and a SIGUSR1 in the middle of processing a message, are not modelled.
- A client sends its process id (`nhap/ip/client.c:94`) before it installs its handlers (lines 96-97); a flush in between kills it. In the model a client has its handlers when it connects.
- What the server makes of the end of file of a client that died without its farewell: it looks at an uninitialized number.
- At the end of file a client also reads an uninitialized flag for the display; only the tables and the loop are modelled.
- A read of a socket returns one written record; partial reads and writes, failing system calls other than writes to closed sockets, and the start-up of the sockets are left out.
- `remove_from_client_pid_set` is never called in the repository and is left out; so are memory exhaustion, `free`, and the size passed to `calloc` for the dummy node.
- The sums are unbounded integers; overflow of the 32-bit accumulators is not modelled.
- Printing, prompts and the optional display of tables.
- The shared memory in which IP addresses of MAC entries are kept (`nhap/ip/shm_ip.c`).
- The device drivers, chat and copy programs and other exercises of the repository, which have nothing to do with these two protocols.
