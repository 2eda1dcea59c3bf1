# GNUnet: the core service, ATS, the data cache and chat flooding

This project models the most stateful parts of GNUnet and proves what their code keeps.

**The core service** (`CoreTypes`, `TypeMap`, `Registry`, `Link`, `ReplayWindow`, `KeyExchange`, `Service`,
`Delivery`).
`Registry.Tables` is the client table together with the part of the session table that clients see: type maps,
and queues of transmission requests that a client and a session share. `Transmission.Link` is the way of a message
to one peer: the plaintext queue of the session, batching, encryption, and the neighbour's queue towards the
transport service, whose functions call each other recursively. `KeyExchange.KeyExchange` is the automaton of one
neighbour with its timers, deferred messages and window over sequence numbers. `CoreService.Service` puts them
together. Everything that can happen to it (transport and client events, messages, timers, callbacks) is an
`Event`; `Step` handles one, with the effect that `Effect` says for each, and `Run` any sequence of them, so what
`Valid` says holds in every reachable state, and none of the code's assertions about its tables, queues and tasks can
fail in one. `Delivery` joins the sender's
numbering with the receiver's window.

**ATS** (`Mlp`, `MlpMeaning`, `MlpShape`, `MlpBuilder`, `MlpPeers`, `Addresses`, `SessionIds`). The builder of the
linear program is a compiler from an address table to rows, columns and a sparse matrix; the feasible points of its
output are shown to be exactly the intended assignments. `Addresses.Table` is the address table of the service with
the equal shares of SIMPLE mode. `SessionIds` is the protocol by which the scheduling library and the service agree
on session IDs, over two FIFO channels, for every run.

**The data cache** (`DataCache`): index, expiry heap, filter and quota loop agree, even when a new entry is evicted
before it was counted.

**Chat** (`Chat`, `Flood`): numbered messages flooded over an arbitrary graph, under loss, delay, reordering and
duplication.

Where the code does less than one might expect, the code is followed:

- the window over sequence numbers does not mark the number that was newest when a newer one arrives, so a number can
  be accepted twice, once as newest and once late (`ReplayWindow.ReplayIff` says exactly when);
- an exchange that is up and receives the key of a peer that is not up answers with no key, although a comment says
  it does, and cancels its own rekeying; so does a lookup that fails late. An exchange that is up is going to rekey
  exactly if neither happened since it came up (`CoreService.Service.RekeyIff`, `KeyExchange.ForgottenRekey`), and
  does not remember before its session ends (`CoreService.HandlePeer`);
- counters of registered types have 8 bits; the bit of a type is wrong exactly after a withdrawal at 257, 513, ...
  registrations (`TypeMap.BitExactIff`);
- the relativity rows of the linear program bound from below, although the comment asks for equality
  (`MlpMeaning.FeasibleIff`), and all but one of the rows added for utilization stay free and empty
  (`MlpBuilder.Builder.AddUtilization`);
- the matrix has room for two quality metrics, not more (`MlpShape.FitsIff`);
- an address added to the service is not told to the linear program before it is updated, used or loses its session,
  but its destruction and every rebuild take it for known: adding and destroying an address, or adding two and
  updating one, fails an assertion in MLP mode (`MlpPeers.AddDestroyFails`, `MlpPeers.UnlistedDestroyFails`,
  `MlpPeers.EnterFails`; `MlpPeers.NoFailureIff` says exactly which runs do not fail);
- a client may ask for and be granted a message of exactly 63 * 1024 bytes, on which an assertion fails, and a larger
  message stops everything behind it (`Transmission.GrantedFatal`, `Transmission.StuckStays`,
  `Transmission.SendableIff`);
- the equal share of a quota is cut to 32 bits, so that part of a larger one stays unused
  (`Addresses.Table.QuotaUsedIff`);
- destroying an address without a session also deactivates the peer's other addresses without a session
  (`Addresses.Hit`, in the contract of `Addresses.Table.Destroy`);
- a session destroyed under another address than it was added with leaves its ID in the service's table
  (`SessionIds.DestroyedIff`, `SessionIds.Misnamed`);
- a session said to be used before it was added gets an ID without an addition, cannot be added any more, and makes
  the service drop the connection (`SessionIds.UsedNotAdded`, `SessionIds.UnaddedRefused`, `SessionIds.UsedFirst`);
- a put can fail on its own accounting; `DataCache.PutFailsIff` says exactly when;
- the number of a chat message is recorded in the entry of the sending client, but looked for in the first entry of
  the member, so that a member with two clients at one peer can have its messages taken for new when they come back
  (`Chat.EchoIff`, `Flood.TwoRoomsEcho`);
- a client that sends before it ever asked makes the core service look into a request map that does not exist
  (`src/core/gnunet-service-core_clients.c:464-465`); the precondition of `Registry.Tables.SendBegin` excludes it;
- fifteen anonymous chat messages are remembered, one less than the constant says (`Chat.RemembersFifteen`).

What callers are assumed to do: core clients send only after a matching SEND_READY, as the client library does
(`src/core/core_api.c:621-631`, `src/core/core_api.c:1011-1026`); `Registry.UnaskedSend` shows that this is exactly
what is needed. No message given to a session has exactly 63 * 1024 bytes, as the assertion in
`src/core/gnunet-service-core_sessions.c:485` demands. Chat members transmit through their first entry at a peer, in
increasing order; the client library numbers the messages of each room by itself (`src/chat/chat.c:806`), so this
holds for a member that is in one room at a time. A session of the ATS library is destroyed under the address it was
added with, or under the empty address of the same plugin.

What the code learns from outside is an input: messages carry the outcome of the checks that are going to be made on
them, a neighbour comes with the answers of the transport service to its requests and with the readings of the clock
(`Transmission.World`), and timers say whether the peer was silent. So contracts say what happens in each case, for
all answers. Only the false positives of the Bloom filter are arbitrary. Requests are shared by two tables through handles into a heap, so that
a dangling handle or a double release would show.

## Model

| member | source | states |
|---|---|---|
| CoreService.Service.Run | src/core/gnunet-service-core_clients.c:264-618 | Every state that any sequence of events can reach keeps the invariant of the whole service, so none of the assertions about clients, sessions, requests, queues and tasks can fail; its clients and neighbours are exactly those that came and did not leave since. |
| CoreService.Service.Step | src/core/gnunet-service-core_neighbours.c:305-426 | Every event keeps the invariant of the service and has its effect: neighbours and clients come and go; the exchange of a peer makes its move and says what it has to; a client's request is refused, granted, or outstanding unless late; what a client sends is accepted in order; clients that stay are only ever told more. |
| CoreService.FirstDelivery | src/core/gnunet-service-core_kx.c:705-1683 | A run from the start: a client registers, a peer connects, its key and PONG arrive, the session is up, and a message is delivered to the client after it was told of the peer. |
| CoreService.FirstTraffic | src/core/gnunet-service-core_clients.c:805-847 | The first message of its type makes the peer known to a client that handles the type, which then gets the full copy and no header. |
| CoreService.Service.NothingSkipped | src/core/gnunet-service-core_neighbours.c:207-292 | In every reachable state, whatever was queued for a neighbour has left the queue in order, refused exactly if the transport service did not accept the request for it, or is still queued, in order. |
| CoreService.LoopedInOrder | src/core/gnunet-service-core_clients.c:509-555 | Of the messages that are sent to ourselves, every client gets, message by message, the outbound copy it wants and then the inbound copy it wants. |
| CoreService.Service.ConnectionsExact | src/core/gnunet-service-core_clients.c:688-762 | In every reachable state a client's connection map is exactly our own identity and the peers whose key exchange is live and whose type map matches the client's types. |
| CoreService.Service.SessionIffLive | src/core/gnunet-service-core_kx.c:1292-1338 | A session exists exactly while the key exchange is UP, REKEY or REKEY_SENT, and keep-alives are pending exactly then. |
| CoreService.Service.ExchangeProgresses | src/core/gnunet-service-core_kx.c:648-764 | Without a public key the status is DOWN and exactly one of lookup and retry is pending; with one it is never DOWN, our own key exists, every state but UP has a retry pending, and the rekey trigger is pending only in UP. |
| CoreService.Service.RekeyIff | src/core/gnunet-service-core_kx.c:1176-1210 | An exchange that is up has its rekey trigger pending if and only if, since it came up, no key of a peer that is behind was installed and no lookup failed. |
| CoreService.Service.NoLostWakeUp | src/core/gnunet-service-core_sessions.c:468-540 | A ready session with queued messages, the first of which is not too large ever to be sent, has a cork task, a session that is not ready has a non-empty neighbour queue or its first type-map task pending, and a transport request is pending exactly while the neighbour's queue is not empty. |
| CoreService.Service.MessagesConserved | src/core/gnunet-service-core_sessions.c:612-632 | In every reachable state the client messages accepted for a session are those encrypted and those still queued, once each and in order of acceptance, and batches are numbered consecutively. |
| CoreService.Service.WindowIsHistory | src/core/gnunet-service-core_kx.c:1571-1620 | In every reachable state bit i of an exchange's bitmap is set exactly when number newest-1-i was accepted late under the current key. |
| CoreService.Service.NoticesInOrder | src/core/gnunet-service-core_clients.c:688-762 | Connect and disconnect notices about a peer strictly alternate, starting with a connect, and add up to the connection map. |
| CoreService.Service.TrafficWhileConnected | src/core/gnunet-service-core_clients.c:220-254 | A message queued for a client that handles its type lies inside a connected interval of its peer. |
| CoreService.Service.RequestQueued | src/core/gnunet-service-core_clients.c:333-407 | A client's request to another peer sits in the queue of that peer's session and in no other; queues have no duplicates. |
| CoreService.Service.QueuedRequested | src/core/gnunet-service-core_sessions.c:332-442 | Every queued request is in the request map of the client that owns it, under that peer. |
| CoreService.Service.OwnMapExact | src/core/gnunet-service-core_typemap.c:161-201 | Our type map is exactly the set of types that connected clients list, unless a type was ever registered more than 256 times at once. |
| CoreService.Service.OnPeer | src/core/gnunet-service-core_kx.c:671-1683 | Whatever happens in the exchange with one neighbour has the effect that belongs to it, keeps the whole service in order and leaves the exchanges and sessions of all other peers. |
| CoreService.HandlePeer | src/core/gnunet-service-core_kx.c:648-1683 | Every message, timer and callback of one exchange keeps its invariant and makes exactly its move: status, tasks, deferred messages, epoch, what is said to the peer, what is passed on to clients, what leaves the queue; sessions of other peers stay; an exchange that lost its rekey trigger stays so until its session ends. |
| CoreService.MishapsExact | src/core/gnunet-service-core_kx.c:671-949 | The record of lost rekey triggers is cleared exactly on coming up, and grows exactly by failed lookups and by installed keys of peers that are behind. |
| CoreService.Service.Connect | src/core/gnunet-service-core_neighbours.c:305-336 | A transport connection starts a key exchange, unless it is with ourselves or a duplicate. |
| CoreService.Service.Disconnect | src/core/gnunet-service-core_neighbours.c:143-184 | A lost transport connection ends the session and forgets the neighbour; nothing of other peers changes. |
| CoreService.Service.Broadcast | src/core/gnunet-service-core_sessions.c:551-581 | Every session, and each once, gets our type map. |
| CoreService.Service.Arrive | src/core/gnunet-service-core_clients.c:264-323 | A new client is registered with its types and options and its types are counted; every session gets our type map exactly if it changed. |
| CoreService.Service.Leave | src/core/gnunet-service-core_clients.c:589-618 | A client is removed and its types withdrawn; every session gets our type map exactly if it changed. |
| CoreService.Service.Ask | src/core/gnunet-service-core_clients.c:333-407 | A request for ourselves is granted at once; one for a peer out of reach or of more than the maximum size leaves none; any other is queued and listed unless its deadline has passed by some reading of the clock, and granted at once if the session was waiting for something to send; no client or session comes or goes. |
| CoreService.Service.Send | src/core/gnunet-service-core_clients.c:436-496 | The messages of a permitted send are accepted by the peer's session, all and in order, or looped back; the request is freed; without a request nothing happens. |
| CoreService.Service.SendOne | src/core/gnunet-service-core_clients.c:509-555 | One message is offered to watching clients and accepted by the session, or looped back to our own clients in all four forms. |
| CoreService.AllTypesMember | src/core/gnunet-service-core_clients.c:307-310 | A type is counted exactly when some connected client lists it. |
| Registry.Tables.NotifyClient | src/core/gnunet-service-core_clients.c:688-762 | A client is told of a connect or disconnect exactly when the match of its types changes; its map changes alike, and the assertions about the map hold. |
| Registry.Tables.NotifyClients | src/core/gnunet-service-core_clients.c:776-789 | Every client is told, each by its own types. |
| Registry.Tables.SessionCreate | src/core/gnunet-service-core_sessions.c:250-274 | A new session has an empty type map and queue, and exactly the clients that match it are told; the invariant is kept. |
| Registry.Tables.SessionEnd | src/core/gnunet-service-core_sessions.c:169-212 | The session is gone, with all its requests; clients connected to the peer get one disconnect; nothing else changes. |
| Registry.Tables.SetTypemap | src/core/gnunet-service-core_sessions.c:727-747 | A new type map replaces the old one and clients are told of the difference; malformed maps and missing sessions change nothing. |
| Registry.Tables.AddToTypemap | src/core/gnunet-service-core_sessions.c:758-776 | The type map gains a type, and clients that match because of it are told before the message reaches them. |
| Registry.Tables.TypeMatch | src/core/gnunet-service-core_clients.c:195-207 | A client without handlers handles every type, another those it lists. |
| Registry.Tables.SendToAll | src/core/gnunet-service-core_clients.c:220-254 | Every client gets exactly the copies that its options and types ask for. |
| Registry.Tables.DeliverMessage | src/core/gnunet-service-core_clients.c:805-847 | Delivery of a copy equals a scan of all clients, whatever the shortcut over the combined options does. |
| Registry.Tables.DeliverInbound | src/core/gnunet-service-core_kx.c:1663-1683 | An inbound message is offered in full, then by header, and clients that gain the peer through its type are told first. |
| Registry.Tables.DeliverOutbound | src/core/gnunet-service-core_clients.c:537-547 | An outbound message is offered to watching clients in full, then by header. |
| Registry.NobodyWants | src/core/gnunet-service-core_clients.c:805-847 | The shortcut over the combined options never suppresses a copy that the full scan would send. |
| Registry.AtMostOneCopy | src/core/gnunet-service-core_clients.c:220-254 | Over the whole delivery of a message, with the type map extended in between, a client is sent exactly the full copy if it asked for it or handles the type, else the header if it asked for that, else nothing; alike for outbound messages. |
| Registry.NoticesAlternate | src/core/gnunet-service-core_clients.c:724-756 | In any sequence of notices that were each in order, connects and disconnects of a peer alternate. |
| Registry.Tables.ClientInit | src/core/gnunet-service-core_clients.c:264-323 | A new client gets the reply first, and a connect for exactly the sessions that match; a second introduction is refused. |
| Registry.Tables.ClientDisconnect | src/core/gnunet-service-core_clients.c:566-618 | All requests of the client leave their queues; no other client and no type map changes; the combined options are recalculated. |
| Registry.Tables.RecalculateOptions | src/core/gnunet-service-core_clients.c:614-617 | The combined options are exactly those that some client has. |
| Registry.Tables.SendRequest | src/core/gnunet-service-core_clients.c:333-407 | A request replaces the client's earlier one to that peer and heads the queue; loopback is granted at once; without a connection nothing changes; too large a request is dropped. |
| Registry.Tables.QueueRequest | src/core/gnunet-service-core_sessions.c:332-357 | A request of at most the maximum size heads the queue of its session; a larger one is rejected and leaves no trace. |
| Registry.Tables.DequeueRequest | src/core/gnunet-service-core_sessions.c:366-379 | A request leaves its target's queue, which exists; loopback requests are in none. |
| Registry.Tables.RejectRequest | src/core/gnunet-service-core_clients.c:664-673 | A rejected request is in its client's map, leaves it, and is freed. |
| Registry.Tables.SolicitRequest | src/core/gnunet-service-core_clients.c:628-655 | The client is told to send, or, if the peer is out of its reach, the request is dropped from map, queue and heap. |
| Registry.Tables.DiscardExpired | src/core/gnunet-service-core_sessions.c:387-413 | Exactly the requests past their deadline and not yet solicited leave the queue, in place; the others keep their order. |
| Registry.Tables.SolicitMessages | src/core/gnunet-service-core_sessions.c:421-442 | After expiry, exactly the longest prefix of the queue that fits into one encrypted message is considered: requests out of their client's reach and not granted before are dropped, exactly they leave the queue and the heap, the others are granted, and exactly the clients newly granted are told, once each. |
| Registry.GrantedIff | src/core/gnunet-service-core_sessions.c:421-442 | Of the requests considered, a request stays queued, listed by its client and granted if and only if its peer is in its client's reach or it was granted before; its client is told exactly if it is granted now. |
| Registry.HeadGranted | src/core/gnunet-service-core_clients.c:628-655 | An unexpired request at the head of the queue whose peer is in reach is granted at once and its client told. |
| Registry.AffordableLongest | src/core/gnunet-service-core_sessions.c:433-437 | The requests considered head the queue, fit together into one message, and the next one does not fit with them. |
| Registry.UnexpiredIff | src/core/gnunet-service-core_sessions.c:397-412 | Exactly the requests past their deadline that were not solicited are discarded. |
| Registry.RequestStays | src/core/gnunet-service-core_sessions.c:387-442 | However transmission goes on, a request within reach stays queued and listed unless its deadline has passed by some reading of the clock. |
| Registry.Tables.SendBegin | src/core/gnunet-service-core_clients.c:452-478 | The request passes from the client's map, which exists because the client asked before, to the send handler, still queued; without a request to that peer the message is discarded. |
| Registry.Tables.SendEnd | src/core/gnunet-service-core_clients.c:487-496 | The held request leaves its queue and is freed; nothing else changes, and the tables are in order again. |
| Registry.UnaskedSend | src/core/gnunet-service-core_clients.c:470-478 | While a send handler holds a request, expiry finds every expired request in its client's map if and only if the held one had been solicited. |
| Registry.TmapStep | src/core/gnunet-service-core_sessions.c:727-776 | A change of one peer's type map, with all clients notified, keeps every part of the invariant. |
| Registry.DroppedStep | src/core/gnunet-service-core_clients.c:566-580 | Dropping a request from map, queue and heap keeps the invariant, so that no later drop can miss its entry. |
| Transmission.Link.MeasureReady | src/core/gnunet-service-core_sessions.c:478-491 | The measured prefix is the longest that fits, its size is the sum, and the minimum deadline is attained; the assertion on sizes fails if and only if the first message has exactly the maximum size. |
| Transmission.Link.TakeBatch | src/core/gnunet-service-core_sessions.c:513-520 | The second loop removes exactly the prefix that the first one measured. |
| Transmission.Link.DueNow | src/core/gnunet-service-core_sessions.c:492-495 | It is time to transmit if and only if there is something and the batch is at least half the maximum or one of its deadlines has come by the clock. |
| Transmission.Link.TryTransmission | src/core/gnunet-service-core_sessions.c:468-540 | If the session is ready, the whole fitting prefix is sealed under the next sequence number exactly if it is ripe; otherwise it waits, with a cork task set, and clients are solicited, each affordable request of a client in reach being granted and its client told; nothing is lost, no wake-up is missed, and the recursion ends. |
| Transmission.Link.Solicit | src/core/gnunet-service-core_sessions.c:591-601 | When the neighbour's queue is empty, the session becomes ready and its fitting prefix is sealed exactly if it is ripe, or waits with a cork task while clients are solicited. |
| Transmission.Link.ProcessQueue | src/core/gnunet-service-core_neighbours.c:259-292 | A non-empty queue ends with a transport request pending; exactly the messages at its head that the transport service refuses are discarded; if the queue ends empty, the session is ready and its clients are solicited; the recursion with the session's functions ends. |
| Transmission.Link.RemoveHead | src/core/gnunet-service-core_neighbours.c:287-291 | The head leaves the queue with its fate, and every message ever queued is still either gone or queued, in order. |
| Transmission.Link.Enqueue | src/core/gnunet-service-core_neighbours.c:436-458 | A message goes to the end of the neighbour's queue; everything queued earlier stays before it or, refused by the transport service, is discarded in order. |
| Transmission.Link.EncryptAndTransmit | src/core/gnunet-service-core_kx.c:1437-1475 | A batch is sealed under the next 32-bit sequence number and queued; its client messages move from waiting to encrypted. |
| Transmission.Link.TransmitReady | src/core/gnunet-service-core_neighbours.c:207-249 | The head of a queue that is not empty is handed over, or dropped because its request timed out, and nothing else leaves the queue but messages that are refused; the rest goes on. |
| Transmission.Link.PopCork | src/core/gnunet-service-core_sessions.c:452-459 | If the session is ready, the fitting prefix is sealed or waits again; otherwise nothing changes. |
| Transmission.Link.TransmitTypemap | src/core/gnunet-service-core_sessions.c:222-241 | Our type map is sealed by itself under the next number, ahead of the queue; client messages are untouched. |
| Transmission.Link.PushTypemap | src/core/gnunet-service-core_sessions.c:551-566 | A broadcast type map enters at the head and, if the session is ready, is sealed or waits with the batch; client messages keep their order. |
| Transmission.Link.Transmit | src/core/gnunet-service-core_sessions.c:612-632 | A client's message of any size but the maximum is accepted at the end of the session's queue; over the session, encrypted and waiting messages are the accepted ones, once each and in order. |
| Transmission.Link.SendControl | src/core/gnunet-service-core_neighbours.c:436-458 | A handshake message is queued exactly once, whatever else the recursion sends. |
| Transmission.Link.NothingWaitsForever | src/core/gnunet-service-core_sessions.c:492-509 | As long as messages wait in a session behind one that can be sent, a cork task, a transport request or the first type-map task is pending. |
| Transmission.SendableIff | src/core/gnunet-service-core_sessions.c:478-495 | Every message of a queue gets its turn without a failing assertion or a standstill if and only if all are below the maximum size. |
| Transmission.StuckStays | src/core/gnunet-service-core_sessions.c:478-509 | Behind a message above the maximum size nothing is ever sent, whatever is appended; a type map at the head goes alone. |
| Transmission.GrantedFatal | src/core/gnunet-service-core_sessions.c:346-346 | A request for exactly the maximum size is granted, and a message of that size fails the assertion. |
| Delivery.ArrivesOnce | src/core/gnunet-service-core_kx.c:1571-1620 | Of all batches a link ever sealed, below 2^32, let any part arrive in any order and none twice: a batch is accepted, once, if and only if no batch sealed more than 32 numbers later arrived before it. |
| Delivery.AcceptedUnlessOvertaken | src/core/gnunet-service-core_kx.c:1571-1620 | In a run without repetition a number is accepted if and only if none that arrived before it is more than 32 ahead. |
| Transmission.NumbersDiffer | src/core/gnunet-service-core_kx.c:1453-1453 | In everything ever emitted, no sequence number occurs twice within 2^32 - 1 batches, and numbers strictly grow until they wrap. |
| Transmission.NextSeq | src/core/gnunet-service-core_kx.c:1453-1453 | Sequence numbers grow by one and wrap at 32 bits. |
| ReplayWindow.BitmapExact | src/core/gnunet-service-core_kx.c:1596-1620 | In every run within a key epoch, bit i of the bitmap is set exactly when number newest-1-i was accepted late. |
| ReplayWindow.AcceptedIff | src/core/gnunet-service-core_kx.c:1571-1620 | A number is accepted exactly when it is newer than the newest, or at most 32 behind it and not accepted late before. |
| ReplayWindow.NewestIncrease | src/core/gnunet-service-core_kx.c:1610-1620 | Numbers accepted as newest strictly increase. |
| ReplayWindow.LateOnce | src/core/gnunet-service-core_kx.c:1596-1609 | A number accepted late is never accepted again. |
| ReplayWindow.AtMostTwice | src/core/gnunet-service-core_kx.c:1571-1620 | No number is accepted more than twice in a key epoch, and at most once late. |
| ReplayWindow.ReplayIff | src/core/gnunet-service-core_kx.c:1610-1620 | The number that was newest can be accepted a second time exactly while it is at most 32 behind and was not accepted late since. |
| ReplayWindow.ReplayExample | src/core/gnunet-service-core_kx.c:1610-1620 | A run in which a number is accepted twice. |
| KeyExchange.KeyExchange.CheckSequence | src/core/gnunet-service-core_kx.c:1571-1620 | The in-place checks give the verdict of the window specification, and the window stays that of the whole epoch. |
| KeyExchange.KeyExchange.constructor | src/core/gnunet-service-core_kx.c:745-764 | A new exchange looks up the public key and waits for nothing else. |
| KeyExchange.KeyExchange.SendKey | src/core/gnunet-service-core_kx.c:1347-1427 | Status moves DOWN to KEY_SENT and REKEY to REKEY_SENT; a key and a PING go out with a retry set, unless up or without public key; then a lookup runs. |
| KeyExchange.KeyExchange.SendKeyAndPing | src/core/gnunet-service-core_kx.c:1407-1423 | The status told to the peer is KEY_SENT or KEY_RECEIVED, never that we are up or rekeying; the key precedes the PING. |
| KeyExchange.KeyExchange.HelloFound | src/core/gnunet-service-core_kx.c:705-735 | A usable HELLO sends our key and a PING, then processes a deferred SET_KEY and, with it, a deferred PING, each answered as if it had just arrived; the assertion that no retry is pending holds; a second HELLO changes nothing. |
| KeyExchange.KeyExchange.HelloError | src/core/gnunet-service-core_kx.c:679-690 | A failed lookup is replaced by a retry. |
| KeyExchange.KeyExchange.HelloEnd | src/core/gnunet-service-core_kx.c:691-708 | A finished lookup is replaced by a retry unless the key was found. |
| KeyExchange.KeyExchange.HandleSetKey | src/core/gnunet-service-core_kx.c:808-949 | Kept for later without public key; ignored if malformed, for another peer, wrongly signed, stale or not decryptable; any other key is installed: the status moves on, a new creation time, and only that, starts a new epoch, deferred PING and PONG are processed, and exactly the due answers are sent. |
| KeyExchange.AnyOrder | src/core/gnunet-service-core_kx.c:808-1339 | In whatever order the peer's key, PING and PONG arrive at an exchange that sent its key, it comes up with its rekey trigger set and answers with exactly one PONG. |
| KeyExchange.KeyedSteps | src/core/gnunet-service-core_kx.c:901-949 | Installing a key, then moving the status, then processing a deferred PING and PONG amounts to the one move of the exchange. |
| KeyExchange.KeyExchange.KeyInstalled | src/core/gnunet-service-core_kx.c:903-949 | The DOWN branch is unreachable; deferred PING and PONG are processed; only a rekeying exchange answers with its key; an exchange that is up loses its rekey trigger exactly if the peer is behind. |
| KeyExchange.ForgottenRekey | src/core/gnunet-service-core_kx.c:903-934 | A run from the start to an exchange that is up, without its rekey trigger. |
| KeyExchange.KeyExchange.InstallKey | src/core/gnunet-service-core_kx.c:893-900 | The window and its epoch restart exactly when the creation time differs. |
| KeyExchange.KeyExchange.HandlePing | src/core/gnunet-service-core_kx.c:959-1033 | A PING is kept in states without the peer's key, otherwise answered by one PONG if it decrypts to our identity, and by nothing if not. |
| KeyExchange.KeyExchange.HandlePong | src/core/gnunet-service-core_kx.c:1219-1339 | A right PONG moves KEY_RECEIVED and REKEY_SENT, and nothing else, to UP, with the rekey trigger set; from KEY_RECEIVED the session is created and a deferred message is delivered if it passes; in KEY_SENT it is kept, a wrong one changes nothing. |
| KeyExchange.KeyExchange.Establish | src/core/gnunet-service-core_kx.c:1298-1322 | The session is created where none was, its clients are told, no keep-alive was pending, a deferred message is delivered exactly if it passes all checks, and the exchange is up. |
| KeyExchange.KeyExchange.HandleEncrypted | src/core/gnunet-service-core_kx.c:1510-1651 | In UP and REKEY_SENT the messages inside are passed on, all and in order, if and only if the checksum is right, the sequence number is accepted and the time stamp recent, and the number counts as judged exactly if the checksum is right; in KEY_RECEIVED the message is kept; otherwise it is dropped. |
| KeyExchange.KeyExchange.DeliverAll | src/core/gnunet-service-core_kx.c:1663-1683 | Type maps and messages for clients take effect one after the other, and always find their session. |
| KeyExchange.ReceivedInOrder | src/core/gnunet-service-core_kx.c:1663-1683 | After any messages inside an encrypted one, the peer's type map is the last one announced with the types used since, and every client got, in order, one copy of each message that it wants. |
| KeyExchange.KeyExchange.RetryTimer | src/core/gnunet-service-core_kx.c:648-657 | A retry repeats the lookup, or the key and PING; only REKEY moves on. |
| KeyExchange.KeyExchange.RekeyTimer | src/core/gnunet-service-core_kx.c:1176-1188 | The trigger fires only in UP, which becomes REKEY with a retry pending. |
| KeyExchange.KeyExchange.KeepAliveTimer | src/core/gnunet-service-core_kx.c:1113-1147 | If the peer was not silent too long a PING is sent and the timer set again; otherwise the session ends and the exchange starts over with KEY_SENT. |
| TypeMap.TestMatch | src/core/gnunet-service-core_typemap.c:213-227 | No types match every map, a missing map matches nothing, otherwise one listed type must be in the map. |
| TypeMap.Extend | src/core/gnunet-service-core_typemap.c:238-251 | A fresh map with exactly the old and the new types. |
| TypeMap.CounterWraps | src/core/gnunet-service-core_typemap.c:161-201 | In every run the 8-bit counter is the number of registrations modulo 256. |
| TypeMap.BitExactIff | src/core/gnunet-service-core_typemap.c:161-201 | The bit is right throughout a run if and only if no withdrawal happens at 257, 513, ... registrations. |
| TypeMap.AtMost256 | src/core/gnunet-service-core_typemap.c:161-201 | It is right if the type is never registered more than 256 times at once. |
| TypeMap.WrapExample | src/core/gnunet-service-core_typemap.c:184-201 | After 257 registrations and one withdrawal the bit is cleared although 256 registrations remain. |
| TypeMap.OwnTypes.Add | src/core/gnunet-service-core_typemap.c:161-178 | Types are counted with multiplicity, and a broadcast is asked for exactly when the set of types changed. |
| TypeMap.OwnTypes.Remove | src/core/gnunet-service-core_typemap.c:184-201 | Types are withdrawn with multiplicity, and a broadcast is asked for exactly when the set of types changed. |
| TypeMap.OwnTypes.MapExact | src/core/gnunet-service-core_typemap.c:161-201 | Within the bound the map is exactly the set of registered types. |
| MlpMeaning.FeasibleIff | src/ats/gnunet-service-ats_addresses_mlp.c:377-622 | A point is feasible for the emitted rows, columns and matrix if and only if it satisfies the constraints as they are meant. |
| MlpMeaning.OneAddressPerPeer | src/ats/gnunet-service-ats_addresses_mlp.c:526-585 | At a feasible point each peer uses exactly one address, with bandwidth between the minimum and M, and its other addresses have none. |
| MlpMeaning.DiversityIsPeers | src/ats/gnunet-service-ats_addresses_mlp.c:472-505 | At a feasible point the diversity variable is the number of peers, and the bandwidth in each network is within its quota. |
| MlpMeaning.RowMeaning | src/ats/gnunet-service-ats_addresses_mlp.c:238-338 | Every single row is met exactly when the constraint it stands for holds. |
| MlpMeaning.ColumnMeaning | src/ats/gnunet-service-ats_addresses_mlp.c:643-675 | Usage columns admit exactly 0 and 1, all others every non-negative value. |
| MlpMeaning.RowValue | src/ats/gnunet-service-ats_addresses_mlp.c:459-621 | The value of each row of the whole matrix, as sums over addresses, peers and metrics. |
| MlpShape.MatrixSize | src/ats/gnunet-service-ats_addresses_mlp.c:439-453 | The exact number of entries. |
| MlpShape.FitsIff | src/ats/gnunet-service-ats_addresses_mlp.c:439-453 | The entries fit into the arrays if and only if the addresses with a known network type and the metrics leave room. |
| MlpShape.TwoMetricsFit | src/ats/gnunet-service-ats_addresses_mlp.c:439-453 | With at most two metrics they always fit, and with two metrics and all networks known the allocation is exact. |
| MlpShape.MatrixShape | src/ats/gnunet-service-ats_addresses_mlp.c:522-621 | All row and column numbers exist, and no position is written twice. |
| MlpBuilder.Builder.CreateProblem | src/ats/gnunet-service-ats_addresses_mlp.c:687-763 | The in-place construction never overruns the arrays and produces exactly the specified rows, columns and matrix. |
| MlpBuilder.Builder.AddConstraints | src/ats/gnunet-service-ats_addresses_mlp.c:377-622 | The construction of rows and entries, from the running index 1 on, yields the specified matrix. |
| MlpBuilder.Builder.AddAddress | src/ats/gnunet-service-ats_addresses_mlp.c:238-338 | One address adds two rows, and six entries or, if its network type has a quota, seven. |
| MlpBuilder.Builder.AddPeer | src/ats/gnunet-service-ats_addresses_mlp.c:528-585 | One peer adds its rows for selection and relativity, and three entries for each of its addresses. |
| MlpBuilder.Builder.AddMetric | src/ats/gnunet-service-ats_addresses_mlp.c:588-621 | One metric adds a row with an entry for every address of every peer. |
| MlpBuilder.Builder.AddUtilization | src/ats/gnunet-service-ats_addresses_mlp.c:516-525 | One bounded row for utilization; the other rows added with it stay unbounded and empty. |
| MlpBuilder.Builder.CreateColumns | src/ats/gnunet-service-ats_addresses_mlp.c:701-755 | Columns for d, u, r, the metrics and two for each address, in that order, and every address knows its own. |
| MlpBuilder.Sparse.Emit | src/ats/gnunet-service-ats_addresses_mlp.c:262-270 | One entry is written at the running index, inside the arrays, and no earlier one changes. |
| MlpPeers.NoFailureIff | src/ats/gnunet-service-ats_addresses_mlp.c:1513-1664 | Over every run of additions, updates and destructions no assertion fails if and only if each address first enters the linear program when all others of the map have entered, and is destroyed when it has entered and, unless it was the last that had, so have all others. |
| MlpPeers.SafeIff | src/ats/gnunet-service-ats_addresses_mlp.c:1513-1664 | The same for one step, from what the code looks up to what the callers did. |
| MlpPeers.StepKeeps | src/ats/gnunet-service-ats_addresses_mlp.c:1513-1664 | As long as no assertion fails, the peer lists partition the addresses that have entered, each in the list of its peer. |
| MlpPeers.RebuildWellFormed | src/ats/gnunet-service-ats_addresses_mlp.c:687-763 | Whenever the problem is rebuilt without a failure, the peer lists partition the address map, however it is iterated, so what is built from them is well formed. |
| MlpPeers.AddDestroyFails | src/ats/gnunet-service-ats_addresses_mlp.c:1632-1634 | An address that is added and destroyed fails the assertion that its peer is known. |
| MlpPeers.UnlistedDestroyFails | src/ats/gnunet-service-ats_addresses_mlp.c:1632-1638 | If the peer is known by another address, the address is not in its list. |
| MlpPeers.EnterFails | src/ats/gnunet-service-ats_addresses_mlp.c:245-249 | Two addresses are added and one is updated: the rebuild meets the other. |
| MlpPeers.PeerTable.AddToMap | src/ats/gnunet-service-ats_addresses.c:434-470 | An addition changes the address map and leaves the linear program alone. |
| MlpPeers.PeerTable.AddressUpdate | src/ats/gnunet-service-ats_addresses_mlp.c:1513-1600 | An update enters a new address into the list of its peer, a new one if need be, and rebuilds; it succeeds exactly if all addresses of the map have entered then. |
| MlpPeers.PeerTable.DestroyAddress | src/ats/gnunet-service-ats_addresses_mlp.c:1614-1664 | A destroyed address leaves the map and the list of its peer, a peer without addresses is forgotten, and the problem is rebuilt if addresses and peers remain; it succeeds exactly if the assertions on the way hold. |
| MlpPeers.PeerTable.Rebuild | src/ats/gnunet-service-ats_addresses_mlp.c:687-763 | A rebuild from the tables yields the specified rows, columns and matrix. |
| MlpPeers.Buildable | src/ats/gnunet-service-ats_addresses_mlp.c:1586-1594 | If all addresses of the map have entered, the input of the builder is well formed. |
| Addresses.FindSpec | src/ats/gnunet-service-ats_addresses.c:252-351 | What is found matches by address or session; an exact match is preferred; nothing that matches is missed. |
| Addresses.Table.FindAddress | src/ats/gnunet-service-ats_addresses.c:252-351 | The iteration finds what the specification says. |
| Addresses.Table.Add | src/ats/gnunet-service-ats_addresses.c:434-495 | A new address is added, or an address without session gets the session; the shares of the active ones stand. |
| Addresses.Table.Recalculate | src/ats/gnunet-service-ats_addresses.c:131-166 | Every active address holds the quota divided by their number, as 32 bits, nothing else changes, and exactly the active ones are suggested; the count is positive when it is divided by. |
| Addresses.Table.DestroyAddress | src/ats/gnunet-service-ats_addresses.c:213-238 | The address is gone and the counter still counts the active ones. |
| Addresses.Table.EndSession | src/ats/gnunet-service-ats_addresses.c:600-618 | The address loses its session and its share; the others get theirs and are told of them. |
| Addresses.Table.SweepOne | src/ats/gnunet-service-ats_addresses.c:577-636 | One address is removed, loses its session, or stays, by the branches of the iterator; if it was active, all that still are get told of their new shares. |
| Addresses.Table.Destroy | src/ats/gnunet-service-ats_addresses.c:639-668 | All addresses of the peer are swept if the named one is known; shares and counter are exact afterwards; only addresses in the table are suggested. |
| Addresses.Table.DestroyAll | src/ats/gnunet-service-ats_addresses.c:1060-1069 | All addresses are gone, and the assertion that none is active holds. |
| Addresses.Table.Request | src/ats/gnunet-service-ats_addresses.c:681-887 | Among the peer's addresses that were not suggested lately, one becomes active and is suggested that no later one beats by being inbound, in use, nearer or faster, with all shares recalculated if it was not active; if there is none nothing changes. |
| Addresses.Table.Choose | src/ats/gnunet-service-ats_addresses.c:681-757 | The address chosen is an unblocked one of the peer that no later one beats, and either the first of them or better than an earlier one; none is chosen exactly if all are blocked. |
| Addresses.Table.SetInUse | src/ats/gnunet-service-ats_addresses.c:761-803 | An address is marked used or unused, or the message is refused because the address is unknown or is marked so already; nothing else changes. |
| Addresses.LookupIff | src/ats/gnunet-service-ats_addresses.c:354-388 | A lookup succeeds exactly if some address of the peer matches with the session asked for. |
| Addresses.Table.QuotaKept | src/ats/gnunet-service-ats_addresses.c:131-146 | The bandwidth assigned over all active addresses never exceeds the quota, in either direction. |
| Addresses.Table.QuotaUsedIff | src/ats/gnunet-service-ats_addresses.c:131-146 | The quota is used up, but for less than one unit for each active address, if and only if an equal share of it fits into the 32 bits it is stored in. |
| SessionIds.RunSafe | src/ats/ats_api_scheduling.c:1111-1125 | In every run of calls and messages, over any number of connections, no assertion fails, the library never asks for a reconnect because the sides fell out of step, and a suggestion resolves to the session it was meant for, or to none. |
| SessionIds.StepKeeps | src/ats/gnunet-service-ats_scheduling.c:463-473 | Every call, message and reconnect keeps the invariant: at most one DESTROYED or RELEASE is under way for an ID (exactly one, before any connection was lost), only for a removed slot, and after a RELEASE nothing refers to its ID. |
| SessionIds.StepSafe | src/ats/ats_api_scheduling.c:466-532 | The assertions on removal and release hold. |
| SessionIds.SuggestionRight | src/ats/ats_api_scheduling.c:317-366 | A suggestion under way resolves to the session that was meant when its address was added, or to none. |
| SessionIds.AssignedUnused | src/ats/ats_api_scheduling.c:377-415 | An ID is assigned only when no message and no table entry refers to it any more. |
| SessionIds.RefusedIff | src/ats/gnunet-service-ats_scheduling.c:390-406 | The service refuses a usage message, and drops the connection, if and only if no address of the peer matches with the session named, or the one found is marked so already. |
| SessionIds.UnaddedRefused | src/ats/gnunet-service-ats_addresses.c:761-803 | Usage of an ID that was assigned without an addition is always refused. |
| SessionIds.UsedNotAdded | src/ats/ats_api_scheduling.c:1283-1303 | A session whose first call says that it is used gets an ID without an addition, and its addition is taken for a duplicate from then on. |
| SessionIds.UsedFirst | src/ats/ats_api_scheduling.c:1283-1303 | A run from the start in which the service drops the connection. |
| SessionIds.SlotTable.AddressAdd | src/ats/ats_api_scheduling.c:1073-1154 | The call assigns an ID to a session that has none and sends an addition under it; for a known session it does nothing. |
| SessionIds.SlotTable.AddressDestroyed | src/ats/ats_api_scheduling.c:1339-1403 | The call sends a destruction under the session's ID and removes the session from its slot; the assertions on removal hold. |
| SessionIds.SlotTable.AddressInUse | src/ats/ats_api_scheduling.c:1258-1330 | The call sends the usage under the session's ID; an unknown session gets an ID if it is used, and nothing is sent if it is not. |
| SessionIds.DestroyedIff | src/ats/gnunet-service-ats_addresses.c:639-668 | A session leaves the service's table if and only if it is destroyed under the address it has, or under the empty address of the same plugin. |
| SessionIds.Misnamed | src/ats/ats_api_scheduling.c:1371-1402 | A run in which a session is destroyed under another address and a later suggestion reaches the wrong session. |
| SessionIds.SlotTable.FindSessionId | src/ats/ats_api_scheduling.c:426-455 | The index of the session's slot, 0 if there is none or it is for another peer. |
| SessionIds.SlotTable.FindEmptySlot | src/ats/ats_api_scheduling.c:377-415 | The first unused slot, never slot 0, is taken; a full table doubles and keeps its slots. |
| SessionIds.SlotTable.RemoveSession | src/ats/ats_api_scheduling.c:466-491 | The session leaves its slot, which stays reserved. |
| SessionIds.SlotTable.ReleaseSession | src/ats/ats_api_scheduling.c:502-532 | A removed slot becomes vacant, or a mismatch asks for a reconnect. |
| SessionIds.SlotTable.FindSession | src/ats/ats_api_scheduling.c:317-366 | An ID stands for the session in its slot, if the peer matches. |
| DataCache.Cache.Put | src/datacache/datacache.c:240-276 | After every put the utilization is the sum of what is stored and within the quota; duplicates are refreshed; only entries that expire no later than all kept ones are evicted, no more than needed, possibly the new one itself; deletion does not fail and the accounting does not underflow. |
| DataCache.Cache.MakeRoom | src/datacache/datacache.c:272-275 | Unless some order of eviction can fail, the quota loop ends with exact accounting although the new entry is counted only after it. |
| DataCache.Cache.Delete | src/datacache/plugin_datacache_heap.c:361-380 | The entry with the lowest discard time leaves heap and index and is accounted for; it fails only on an empty cache. |
| DataCache.Cache.DeleteNotify | src/datacache/datacache.c:105-119 | The utilization never underflows, and the key leaves the filter once. |
| DataCache.Cache.PluginPut | src/datacache/plugin_datacache_heap.c:211-255 | An equal entry is refreshed to the later discard time and the new path; otherwise a new one enters index and heap. |
| DataCache.Cache.FindSame | src/datacache/plugin_datacache_heap.c:161-194 | The entry equal in type and data under the key, if there is one. |
| DataCache.Cache.Get | src/datacache/datacache.c:290-311 | A lookup finds exactly the entries with the key and type, with or without the filter. |
| DataCache.Cache.PluginGet | src/datacache/plugin_datacache_heap.c:295-350 | The unfiltered lookup. |
| DataCache.PutFailsIff | src/datacache/datacache.c:270-275 | Some order of eviction makes the quota loop of a put fail if and only if something that may be left beside the new entry (all that expires later, some of what expires with it) is too much for it to stay and less than it costs; so the precondition of a put is exact. |
| DataCache.AlwaysSafeIff | src/datacache/datacache.c:272-275 | An entry can be put whatever is stored within the quota if and only if two of it fit, up to one byte, or it is empty and fits at all. |
| DataCache.TooLarge | src/datacache/datacache.c:272-275 | An entry larger than the quota fails in an empty cache. |
| DataCache.TiedExample | src/datacache/datacache.c:272-275 | Entries that expire together may be safe in every order of eviction although they do not fit together and nothing expires later. |
| Chat.Node.HandleText | src/chat/gnunet-service-chat.c:1186-1324 | A message is delivered to its audience and passed on to all peers, if its number is beyond the last one of its sender (or, anonymous, if it is not remembered); otherwise nothing happens. |
| Chat.AudienceExact | src/chat/gnunet-service-chat.c:1295-1310 | The audience of a message is, in the order of the list and once for each entry, exactly the clients (but for the sending one) whose entries are in the room, are the target if there is one, and allow all options of the message. |
| Chat.TextHeard | src/chat/gnunet-service-chat.c:1295-1310 | A text of a member elsewhere reaches the one client in its room. |
| Chat.Node.HandleReceipt | src/chat/gnunet-service-chat.c:1381-1490 | A receipt is passed on at most once per number, unless its author is unknown or local; a local author gets it exactly if its signature is valid. |
| Chat.Node.HandleTransmit | src/chat/gnunet-service-chat.c:279-475 | A message is accepted exactly if the client is listed and a private message has a listed target; it goes to its audience among the other local members and to all peers; its number is recorded in the client's entry in any case. |
| Chat.Node.HandleAcknowledge | src/chat/gnunet-service-chat.c:743-836 | A receipt of a local client goes to the author's client exactly if its signature is valid, or, if the author is elsewhere, under the next 32-bit number of its target to all peers. |
| Chat.EchoIff | src/chat/gnunet-service-chat.c:335-349 | After a client's message, its own peer takes the echo for new if and only if another entry of the same member comes first and has a lower number. |
| Chat.Node.Remember | src/chat/gnunet-service-chat.c:161-188 | The newest hash is remembered and the oldest dropped when the list is full. |
| Chat.Node.Lookup | src/chat/gnunet-service-chat.c:191-204 | Whether a hash is remembered. |
| Chat.RemembersFifteen | src/chat/gnunet-service-chat.c:161-188 | After any run exactly the last fifteen hashes are remembered, newest first. |
| Flood.AtMostOnce | src/chat/gnunet-service-chat.c:1246-1321 | In every run in which members transmit through their first entry and in increasing order, under loss, reordering and duplication, a peer accepts each number of a stream at most once and in increasing order, and passes it on at most once to each peer. |
| Flood.StepKeeps | src/chat/gnunet-service-chat.c:347-359 | Messages, receipts, deliveries, duplicates and losses all keep the history of every peer in order. |
| Flood.FirstEntryIff | src/chat/gnunet-service-chat.c:335-349 | For a number beyond the last one, the history of a peer stays in order if and only if the member transmits through its first entry there. |
| Flood.TwoRoomsEcho | src/chat/gnunet-service-chat.c:335-349 | A run in which a member with two clients at one peer transmits through the second, and the peer passes its message on twice. |
| Flood.GoingBack | src/chat/gnunet-service-chat.c:347-349 | After a member's message n and another one numbered m, its own peer takes the echo of the first for new if and only if m is below n; so increasing numbers are needed. |
| Flood.FloodEnds | src/chat/gnunet-service-chat.c:1246-1321 | On any graph every event but a duplication by the network decreases the measure. |
| Flood.RunBounded | src/chat/gnunet-service-chat.c:1246-1321 | A run without duplication, new messages included, is no longer than the measure of its start. |
| Flood.FloodReaches | src/chat/gnunet-service-chat.c:1258-1321 | Without loss, once nothing is under way, every peer reachable over peers that know the member has accepted each message or a later one of that member. |

## Left out

- Cryptography, HMAC, signatures and key derivation: their outcomes are inputs.
- The compressed wire form of type maps (`src/core/gnunet-service-core_typemap.c:60-138`): a type map message is a set of types.
- Message parsing and byte order, statistics, logging and configuration.
- Requests that iterate connected peers for a client (`src/core/gnunet-service-core_sessions.c:645-720`): they only read.
- Shutdown of the core service; neighbours that time out in plaintext retries, which the code no longer starts.
- CoreService.Service.Arrive: the types are counted and broadcast before the client is listed, as in the code; the combined options are widened after the broadcast instead of before it, which nothing in between reads.
- CoreService.Service.Leave: the combined options are recalculated before the broadcast instead of after it, which nothing in between reads.
- Registry.Tables.SendRequest: priority and request number, which the service only stores and echoes, are not modelled.
- The order in which hash maps and the client list are iterated is arbitrary or that of insertion; doubly linked lists are sequences.
- KeyExchange.KeyExchange.KeepAliveTimer: whether the peer was silent for too long is an input; the times themselves are not modelled.
- KeyExchange.KeyExchange.SendKey: retry intervals and their doubling are not modelled, only that a retry is pending.
- Numbers of neighbours, clients and request handles are unbounded.
- Solving the linear program, its objective function and the averaging of quality metrics: only feasibility is modelled. Coefficients are real numbers.
- Preference changes and resource limits of the linear program, which the code does not implement.
- Addresses.Table.Choose: which addresses are blocked after an earlier suggestion is an input; the growth of the block interval is not modelled.
- Bandwidth reservations and notifications of performance clients.
- Timing of reconnects of the ATS library: a connection may be lost at any time, with whatever was under way.
- Address updates sent to the ATS service, which change performance data only.
- Transmission.Link.Transmit: a message of exactly 63 * 1024 bytes, on which the code's assertion fails (`Transmission.SendableIff`), is not accepted by the model.
- DataCache.Cache.Get: the caller's callback is taken to ask for all results.
- DataCache.Cache.Put: the size of a record is that of a 64-bit machine.
- The data cache plugins for databases.
- Chat encryption and receipt signatures, joins and leaves, and members that rejoin with fresh counters.
- Flood.FloodReaches: streams of receipts, which stop at the author's peer, and numbers skipped by anonymous messages of the member are not covered.
- The consensus and ARM services.
