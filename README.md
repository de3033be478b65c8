# Rhizome: the websocket client, the namespace tree and the blob relay, in Dafny

Rhizome relays OSC messages between desktop applications (Pd, Processing, …) and web
pages. This project models three parts of it and proves what each promises.

- **The websocket client** (`lib/websockets/Client.js`). It runs `start`, `stop`,
  `send` and `status` against a socket that connects, opens, errors and closes.
  - The server answers the handshake with a connection status: accepted with an id, or
    full.
  - A lost connection is retried after the reconnect delay.
  - `ClientModel` states each event as a function on a `ClientState` value. In that
    value, every event emitter is the list of listeners registered on it, and what the
    user observes (callbacks called, events emitted, throws) is a log.
  - `WebSocketClient.Client` is the client as an object whose fields its methods update
    in place. Each method is proved to do what the `ClientModel` function says, and the
    public ones to keep the invariant `ClientProps.Inv`.
  - `ClientProps` proves the protocol's properties: the handshake, queueing, refusal,
    stop, connection loss and reconnection. It also proves the quirks of the source: a
    `start` that goes on after reporting an unsupported environment, a reconnect that
    survives `stop`, and a socket error after open that always throws.
- **The namespace tree of the server's connection registry** (`NsTree`, `Connections`).
  The code of the registry is not part of this model. Its behaviour is the one
  `test/lib/core/server-tests.js` fixes:
  - an address is normalised segment by segment, so a trailing slash is dropped;
  - `subscribe` registers a connection at one node and acknowledges at
    `/sys/subscribed`;
  - `send` stores the last argument list at the exact node, then delivers it;
  - `resend` answers with that stored list.
  - `Connections.Registry` is the registry as an object. The test scenarios are replayed
    on it.
- **Delivery to ancestors and the blob relay** (`NsTree.DeliverySet`, `Blobs`), as
  `test/desktop-client/client-tests.js` fixes them:
  - a send reaches the subscribers of every level from the root down to the address;
  - inbound blobs are written to a file and forwarded as its path;
  - blobs go to web pages in a `{command: 'blob', address, filePath}` envelope;
  - a file is read back only when its path lies inside the blobs directory.

The files are:

| file | contents |
|---|---|
| `results.dfy` | `Option`, `Result` |
| `messages.dfy` | bytes, OSC arguments, messages |
| `address.dfy` | address normalisation |
| `nstree.dfy` | the namespace tree, delivery sets |
| `connections.dfy` | the registry class, the server test scenarios |
| `blobs.dfy` | the blob relay and the containment check |
| `blob_scenarios.dfy` | the desktop-client test scenarios |
| `client_model.dfy` | the client's state machine |
| `client_props.dfy` | its invariant and properties |
| `client.dfy` | the client class and runs of it |

## Model

| member | source | states |
|---|---|---|
| ClientModel.WithDefaults | lib/websockets/Client.js:222-227 | a missing `reconnect`, `queueIfFull`, `cookieName` or `useCookies` becomes 1000, true, 'rhizome', true; a given one is kept |
| ClientModel.ValidateConfig | lib/websockets/Client.js:200-205 | the configuration is valid if and only if the port lies in 0..65535 |
| ClientModel.StatusOf | lib/websockets/Client.js:125-130 | started if and only if there is a socket, it is OPEN and an id is assigned; CONNECTING, CLOSING and CLOSED map to stopped |
| ClientModel.Initial | lib/websockets/Client.js:41-52 | a new client is stopped, has logged nothing and has no reconnect pending |
| ClientModel.Complete | lib/websockets/Client.js:79-83 | calling an attempt's callback changes neither the socket, the id nor the armed handshake listeners |
| ClientModel.Clean | lib/websockets/Client.js:192-198 | after `_clean` the socket, the id and the rhizome emitter are gone; it throws exactly when there is no socket emitter |
| ClientModel.Connect | lib/websockets/Client.js:140-176 | a new socket is connecting, with only the attempt's once-open and once-error handlers armed |
| ClientModel.RemoveLast | lib/websockets/Client.js:95 | `removeListener` drops one registration when there is one, and changes nothing otherwise |
| ClientModel.RemoveLastCount | lib/websockets/Client.js:95 | it removes exactly one occurrence of the listener and keeps all others |
| ClientModel.Persistent | lib/websockets/Client.js:165-175 | after an 'error' emit only the `_onSocketError` route stays registered; once-listeners are gone |
| ClientModel.Convert | lib/websockets/Client.js:113-117 | an ArrayBuffer argument becomes a byte buffer with the same bytes; any other argument is unchanged |
| ClientModel.ConvertAll | lib/websockets/Client.js:111-118 | the arguments are converted one by one, in order |
| ClientModel.OnOpen | lib/websockets/Client.js:165-170 | the open handler replaces the once-error handler by the `_onSocketError` route and arms the wait for the connection status; it throws exactly when the rhizome emitter is gone; the socket and its close listeners are untouched |
| ClientModel.OnStatus | lib/websockets/Client.js:236-264 | status 0 takes the server's id, arms connection-lost and never throws; status 1 either re-arms the wait (queueing) or arms the refusal on close and closes the socket, throwing only without a socket; any other status changes nothing |
| ClientModel.OnLost | lib/websockets/Client.js:230-234 | 'connection lost' is emitted first; it throws exactly without a rhizome emitter; otherwise the status wait is dropped and one reconnect is scheduled exactly when `reconnect` is not 0 |
| ClientModel.Invoke | lib/websockets/Client.js:266-271 | a socket error routed to `_onSocketError` always throws, since `err` is undefined when it is logged; the failing once-error handler never throws and disarms the open handler; no listener changes the configuration or what was written, and the log only grows |
| ClientModel.Emit | lib/websockets/Client.js:157-160 | an emit never changes the configuration or what was written and only adds to the log; the open listeners are left as they were or all gone; with no listener nothing changes |
| ClientModel.Start | lib/websockets/Client.js:60-86 | without `done`, an unsupported environment throws and only the throw is logged; with no `WebSocket` and a `done`, no socket is left; a socket left by a `start` that did not throw is a fresh connecting one |
| ClientModel.Validated | lib/websockets/Client.js:72-84 | a configuration error goes to `done` (a throw without one) and makes no socket; otherwise the rhizome emitter is fresh, and the socket is connecting unless there is no `WebSocket`, where it throws |
| ClientModel.Stop | lib/websockets/Client.js:89-106 | `stop` never throws and never schedules a reconnect; an open socket is left closing with the stop handler armed and nothing logged yet; otherwise `done(null)` is called at once |
| ClientModel.SocketOpen | lib/websockets/Client.js:160 | after `_clean` the event throws and changes nothing else; otherwise no once-open listener is left |
| ClientModel.SocketErrored | lib/websockets/Client.js:157 | after `_clean` the event throws; with no 'error' listener the emit throws; neither changes anything else |
| ClientModel.SocketClosed | lib/websockets/Client.js:159 | after `_clean` the close event throws and changes nothing else, so the client stays without a socket |
| ClientModel.ConnectionStatus | lib/websockets/Client.js:273-280 | after `_clean` the message throws; without a rhizome emitter it throws; with nobody waiting it changes nothing |
| ClientModel.ReconnectFires | lib/websockets/Client.js:178-190 | the timer uses up one pending reconnect and starts a connecting attempt with the reconnect callback; nothing is logged |
| ClientModel.Send | lib/websockets/Client.js:109-122 | without a socket nothing is written; a written message has the given address and the converted arguments |
| ClientModel.AfterSend | lib/websockets/Client.js:109-122 | a failed send writes nothing; a successful one appends its message and logs nothing |
| ClientProps.InvokeInv | lib/websockets/Client.js:165-175 | a listener run in its context keeps the invariant: no listener without a socket, no status wait without a rhizome emitter, at most one open and one error handler |
| ClientProps.EmitInv | lib/websockets/Client.js:157-160 | an emit to the listeners of one event keeps the invariant |
| ClientProps.InitialInv | lib/websockets/Client.js:41-52 | a new client satisfies the invariant |
| ClientProps.StartInv | lib/websockets/Client.js:60-86 | `start` keeps the invariant |
| ClientProps.StopInv | lib/websockets/Client.js:89-106 | `stop` keeps the invariant |
| ClientProps.SocketOpenInv | lib/websockets/Client.js:160-170 | the socket's open event keeps the invariant |
| ClientProps.SocketErroredInv | lib/websockets/Client.js:157-175 | the socket's error event keeps the invariant |
| ClientProps.SocketClosedInv | lib/websockets/Client.js:159 | the socket's close event keeps the invariant |
| ClientProps.ConnectionStatusInv | lib/websockets/Client.js:273-280 | a connection-status message keeps the invariant |
| ClientProps.ReconnectFiresInv | lib/websockets/Client.js:178-190 | the reconnect timer keeps the invariant |
| ClientProps.EmitOne | lib/websockets/Client.js:157-160 | emitting to one listener runs exactly that listener |
| ClientProps.EmitStops | lib/websockets/Client.js:157-160 | once a listener throws, the listeners after it do not run |
| ClientProps.EmitStep | lib/websockets/Client.js:157-160 | each further listener runs on the state the previous ones left, unless one threw |
| ClientProps.ErrorBeforeOpen | lib/websockets/Client.js:172-175 | a socket error before open fails the attempt with 'socket error' and disarms the open handler; 'connected' is not emitted; a reconnect attempt schedules another |
| ClientProps.ErrorAfterOpen | lib/websockets/Client.js:165-170 | once open, the error route replaces the failing handler and the status wait is armed; a later error is re-emitted when the user listens and then always throws in `_onSocketError` |
| ClientProps.AcceptedEmit | lib/websockets/Client.js:240-245 | status 0 given to the one waiting attempt sets the id, arms connection-lost and completes the attempt without error |
| ClientProps.Accepted | lib/websockets/Client.js:240-245 | status 0 sets the id to the server's, arms connection-lost, calls `done()` and then emits 'connected'; the client is started |
| ClientProps.QueuedWhenFull | lib/websockets/Client.js:247-255 | status 1 with `queueIfFull` emits 'queued', does not call `done` and re-arms the status wait |
| ClientProps.RefusedWhenFull | lib/websockets/Client.js:256-262 | status 1 without `queueIfFull` closes the socket; `done` gets the server's reason only when the close event comes, and a reconnect schedules another |
| ClientProps.OtherStatusIgnored | lib/websockets/Client.js:236-263 | any other status changes nothing but ending the wait |
| ClientProps.StopOpen | lib/websockets/Client.js:92-100 | stop on an open socket disarms connection-lost; the close then cleans, calls `done(null)` and never emits 'connection lost' or schedules a reconnect |
| ClientProps.StopDisarms | lib/websockets/Client.js:95 | stop on an open socket removes one connection-lost registration, if there is one |
| ClientProps.StopNotOpen | lib/websockets/Client.js:101-105 | stop on a socket that is not open cleans and calls `done(null)` at once; without a socket it only calls `done(null)` |
| ClientProps.ConnectionLostReconnects | lib/websockets/Client.js:230-234 | a lost connection emits 'connection lost', drops the status wait and schedules a reconnect if and only if `reconnect` is not 0 |
| ClientProps.FailedReconnectReschedules | lib/websockets/Client.js:178-190 | a reconnect that fails before open schedules exactly one more and emits nothing |
| ClientProps.ReconnectSucceeds | lib/websockets/Client.js:178-190 | a reconnect that is accepted emits 'connected' only, and the client is started |
| ClientProps.UnsupportedFallsThrough | lib/websockets/Client.js:62-66 | where `WebSocket` exists but its `CLOSING` is not 2, `done` gets the error, yet the client goes on and connects |
| ClientProps.NoWebSocketThrows | lib/websockets/Client.js:153 | where there is no `WebSocket`, `done` gets the error, the client goes on and `new WebSocket` throws: no socket is made, but the rhizome emitter is fresh |
| ClientProps.StartInvalidConfig | lib/websockets/Client.js:73 | an invalid configuration goes to `done`, or throws without one; no socket is made |
| ClientProps.StartConnects | lib/websockets/Client.js:68-86 | a valid `start` drops the old socket's listeners, makes a fresh rhizome emitter and starts one connect attempt; in a browser the id comes from the cookie |
| ClientProps.QueuedThenAccepted | lib/websockets/Client.js:247-255 | start, open, 'full', then accepted: the user sees 'queued', then `done()`, then 'connected' |
| ClientProps.ReconnectAfterStop | lib/websockets/Client.js:89-106 | `stop` does not cancel a pending reconnect; when it fires, the new socket's open handler throws on the missing rhizome emitter |
| ClientProps.StopWhileConnecting | lib/websockets/Client.js:101-105 | stop on a connecting socket cleans at once; that socket's close event then throws, the client stays without a socket and a later `send` fails |
| ClientProps.ConnectedThenStopped | lib/websockets/Client.js:89-100 | a fresh client that connects, is accepted and is stopped sees `done()`, 'connected', then `done(null)`; it is stopped with no reconnect pending |
| ClientProps.SendWrites | lib/websockets/Client.js:109-122 | arguments default to []; ArrayBuffers are converted and the rest kept; a message is written if and only if address and arguments validate and a socket exists; validation errors come first |
| ClientProps.OpenWithoutIdIsStopped | lib/websockets/Client.js:127 | an open socket without an id reports stopped |
| WebSocketClient.Client.constructor | lib/websockets/Client.js:41-52 | the fields are those of a new client with the configuration defaults filled in, which satisfies the invariant |
| WebSocketClient.Client.Status | lib/websockets/Client.js:125-130 | `status()`: started if and only if the socket is OPEN and an id is assigned |
| WebSocketClient.Client.Note | lib/websockets/Client.js:80-83 | a callback or emit is appended to the log |
| WebSocketClient.Client.Throw | lib/websockets/Client.js:65 | a throw is logged and ends the handler |
| WebSocketClient.Client.Complete | lib/websockets/Client.js:79-83 | the attempt's callback updates the fields as `ClientModel.Complete` says |
| WebSocketClient.Client.Clean | lib/websockets/Client.js:192-198 | `_clean` on the fields, as `ClientModel.Clean` says |
| WebSocketClient.Client.Connect | lib/websockets/Client.js:140-176 | `_connect` on the fields, as `ClientModel.Connect` says |
| WebSocketClient.Client.OnOpen | lib/websockets/Client.js:165-170 | the open handler on the fields, as `ClientModel.OnOpen` says |
| WebSocketClient.Client.OnStatus | lib/websockets/Client.js:236-264 | `_doRhizomeConnection` on the fields, as `ClientModel.OnStatus` says |
| WebSocketClient.Client.OnLost | lib/websockets/Client.js:230-234 | `_onConnectionLost` on the fields, as `ClientModel.OnLost` says |
| WebSocketClient.Client.Invoke | lib/websockets/Client.js:165-175 | one listener runs, as `ClientModel.Invoke` says |
| WebSocketClient.Client.Emit | lib/websockets/Client.js:157-160 | the loop over a snapshot of the listeners ends in the state of `ClientModel.Emit`, stopping at the first throw |
| WebSocketClient.Client.Start | lib/websockets/Client.js:60-86 | `start` updates the fields as `ClientModel.Start` says and keeps the invariant |
| WebSocketClient.Client.Validated | lib/websockets/Client.js:72-84 | the validation callback updates the fields as `ClientModel.Validated` says |
| WebSocketClient.Client.Stop | lib/websockets/Client.js:89-106 | `stop` updates the fields as `ClientModel.Stop` says and keeps the invariant |
| WebSocketClient.Client.Send | lib/websockets/Client.js:109-122 | the loop converts the arguments; the result and the new fields are those of `ClientModel.Send` |
| WebSocketClient.Client.SocketOpen | lib/websockets/Client.js:160-170 | the open event, as `ClientModel.SocketOpen` says, keeping the invariant |
| WebSocketClient.Client.SocketError | lib/websockets/Client.js:157-175 | the error event, as `ClientModel.SocketErrored` says (it throws without a socket, and after open always), keeping the invariant |
| WebSocketClient.Client.SocketClose | lib/websockets/Client.js:159 | the close event, as `ClientModel.SocketClosed` says (it throws without a socket), keeping the invariant |
| WebSocketClient.Client.ConnectionStatus | lib/websockets/Client.js:273-280 | a connection-status message, as `ClientModel.ConnectionStatus` says, keeping the invariant |
| WebSocketClient.Client.ReconnectTimerFires | lib/websockets/Client.js:178-190 | the reconnect timeout starts a new attempt and keeps the invariant |
| WebSocketClient.SocketErrorRun | lib/websockets/Client.js:172-175 | a fresh client whose socket errors before open sees only `done('socket error')` and stays stopped |
| WebSocketClient.StopRun | lib/websockets/Client.js:89-100 | a client that connects and is then stopped sees `done()`, 'connected', then `done(null)` after the close; it is stopped with no reconnect pending |
| Address.Flush | test/lib/core/server-tests.js:34-35 | a segment is closed at '/' or at the end; an empty one is dropped and a non-empty one kept whole |
| Address.SegmentsFrom | test/lib/core/server-tests.js:34-35 | splitting never yields an empty segment |
| Address.Canonical | test/lib/core/server-tests.js:34-36 | a path written as an address is absolute |
| Address.SegmentsFromWellFormed | test/lib/core/server-tests.js:34-35 | splitting yields only non-empty segments free of '/' |
| Address.Segments | test/lib/core/server-tests.js:34-35 | every normalised address consists of proper segments: non-empty and free of '/' |
| Address.SegmentsFromAppend | test/lib/core/server-tests.js:34-35 | splitting at a '/' concatenates the segments of both sides |
| Address.SegmentsFromPlain | test/lib/core/server-tests.js:34 | text without '/' is a single segment |
| Address.TrailingSlash | test/lib/core/server-tests.js:34-43 | `a + "/"` names the same node as `a` |
| Address.SegmentsJoin | test/lib/core/server-tests.js:34-36 | splitting a joined path gives the path back |
| Address.SegmentsCanonical | test/lib/core/server-tests.js:34-36 | a path written as an address normalises back to itself |
| Address.NormaliseIdempotent | test/lib/core/server-tests.js:34-43 | normalising twice is normalising once |
| Address.SegmentsChild | test/lib/core/server-tests.js:63-70 | appending `/name` adds exactly one segment |
| Address.SegmentsOf | test/lib/core/server-tests.js:34-36 | the canonical address of a path, with or without a trailing slash, normalises to the path |
| NsTree.Resolve | test/lib/core/server-tests.js:43-44 | getting a node keeps existing nodes and creates only the missing ancestors, each empty |
| NsTree.ResolveValid | test/lib/core/server-tests.js:43-44 | creating nodes keeps the tree valid |
| NsTree.ResolvePrefixClosed | test/lib/core/server-tests.js:43-44 | every node's ancestors exist |
| NsTree.UpdateValid | test/lib/core/server-tests.js:43-44 | replacing a node by one without duplicate connections keeps the tree valid |
| NsTree.SubsAt | test/lib/core/server-tests.js:43-44 | an address with no node has no subscribers |
| NsTree.Retained | test/lib/core/server-tests.js:75-81 | an address with no node resends `[]` |
| NsTree.AddConnection | test/lib/core/server-tests.js:34-44 | the node lists the subscriber once: a new one is appended after the earlier ones, a known one changes nothing |
| NsTree.Subscribe | test/lib/core/server-tests.js:34-44 | subscribing keeps the tree valid and creates the node |
| NsTree.SubscribeEffect | test/lib/core/server-tests.js:34-44 | the subscriber is listed once at the exact node only; other nodes and every retained list are unchanged; subscribing twice changes nothing |
| NsTree.Retain | test/lib/core/server-tests.js:63-82 | a send replaces the last list at its exact node only, and changes no subscriptions |
| NsTree.DeliverySet | test/desktop-client/client-tests.js:121-124 | the root's subscribers and the address's own subscribers are among the recipients of every send |
| NsTree.UptoMember | test/desktop-client/client-tests.js:121-143 | a connection is among the first n levels' subscribers if and only if it is subscribed at one of them |
| NsTree.DeliveryMember | test/desktop-client/client-tests.js:121-143 | a send reaches a connection if and only if it is subscribed at the root, the address or a level between |
| NsTree.NoDupsCount | test/lib/core/server-tests.js:43-44 | a node lists each connection at most once |
| NsTree.UptoCount | test/desktop-client/client-tests.js:108-143 | among the first n levels, a connection is counted once per level it is subscribed at |
| NsTree.DeliveryCount | test/desktop-client/client-tests.js:108-143 | a connection gets a send once per level on the way at which it is subscribed |
| NsTree.RetainKeepsDelivery | test/lib/core/server-tests.js:63-82 | storing a message never changes who receives sends |
| NsTree.UptoSame | test/lib/core/server-tests.js:63-82 | trees with the same subscriptions deliver to the same connections |
| NsTree.InitialEmpty | test/lib/core/server-tests.js:60-81 | a fresh registry has no subscriptions and nothing retained |
| NsTree.UptoEmpty | test/lib/core/server-tests.js:60-82 | without subscribers no level has a recipient |
| NsTree.UnsubscribedNotDelivered | test/lib/core/server-tests.js:60-82 | a connection subscribed nowhere receives none of the sends |
| NsTree.NoSubscribersNoDelivery | test/lib/core/server-tests.js:60-82 | in a tree where nobody is subscribed, a send reaches no one |
| NsTree.RetainNoSubscribers | test/lib/core/server-tests.js:63-70 | sends create no subscriptions |
| Connections.Fanout | test/desktop-client/client-tests.js:121-143 | the same message goes to each recipient, in order |
| Connections.FanoutAppend | test/desktop-client/client-tests.js:121-143 | fanning out to two lists is fanning out to each in turn |
| Connections.Registry.constructor | test/lib/core/server-tests.js:12 | a started registry has only the root, no connections and has sent nothing |
| Connections.Registry.Open | test/lib/core/server-tests.js:29-31 | opening registers the connection and subscribes it nowhere |
| Connections.Registry.Subscribe | test/lib/core/server-tests.js:34-42 | the connection is subscribed at the normalised node and gets exactly one acknowledgement carrying the address as written |
| Connections.Registry.Resend | test/lib/core/server-tests.js:72-82 | the requester alone gets the last list sent to that exact address, or [], at that address; the tree is unchanged |
| Connections.Registry.Send | test/lib/core/server-tests.js:63-70 | the list is retained at the node, then delivered to every subscriber from the root down |
| Connections.Registry.Deliver | test/desktop-client/client-tests.js:121-143 | the loop over levels and subscribers hands the message to exactly `DeliverySet`, in order |
| Connections.SubscribeTestPaths | test/lib/core/server-tests.js:34-36 | `/bla` and `/bla/` are the same node; `/` is the root |
| Connections.SubscribeTree | test/lib/core/server-tests.js:43-44 | after the three subscribes `/bla` holds two connections and `/` one |
| Connections.SubscribeSteps | test/lib/core/server-tests.js:34-42 | the three subscribes send one acknowledgement each, to the subscriber, in order |
| Connections.SubscribeScenario | test/lib/core/server-tests.js:19-47 | the subscribe test: acknowledgements with the addresses as written; 2 at `/bla`, 1 at `/` |
| Connections.ResendTestPaths | test/lib/core/server-tests.js:63-75 | the addresses of the resend test normalise to their segments |
| Connections.SendUnheard | test/lib/core/server-tests.js:60-70 | with nobody subscribed a send only retains its list |
| Connections.ResendRetainedAt | test/lib/core/server-tests.js:63-81 | after the eight sends each node holds the last list sent to it: last write wins, nothing accumulates, children do not leak |
| Connections.ResendRetained | test/lib/core/server-tests.js:63-81 | the same at the addresses of the test |
| Connections.ResendSends | test/lib/core/server-tests.js:63-70 | the eight sends reach nobody |
| Connections.ResendReplies | test/lib/core/server-tests.js:72-82 | the four resends answer the requester with the retained lists |
| Connections.ResendSteps | test/lib/core/server-tests.js:60-82 | the sends and resends of the test, on any registry nobody subscribed to |
| Connections.ResendScenario | test/lib/core/server-tests.js:53-85 | the resend test: exactly the four expected replies, `[]` for `/bli` and `/neverSeenBefore` |
| Connections.ResendAfterSubscribeScenario | test/lib/core/server-tests.js:87-106 | a node made by a subscribe only resends `[]`, after the acknowledgement |
| Blobs.Normalize | test/desktop-client/client-tests.js:147-156 | a normalised path has no `.` or `..` and is no longer than the original |
| Blobs.Walk | test/desktop-client/client-tests.js:147-156 | one component either climbs (never above the root), stays, or descends by exactly that name, and keeps a normal path normal |
| Blobs.Contained | test/desktop-client/client-tests.js:147-156 | a contained path is absolute and is not the directory itself |
| Blobs.NormalizeNormal | test/desktop-client/client-tests.js:147-156 | a normal path is left as it is |
| Blobs.NormalizeIdempotent | test/desktop-client/client-tests.js:147-156 | normalising twice is normalising once |
| Blobs.ReadBlob | test/desktop-client/client-tests.js:147-156 | a file is read if and only if its normalised path lies strictly inside the directory and exists; outside paths are refused |
| Blobs.ReadBlobConfined | test/desktop-client/client-tests.js:147-156 | no read depends on a file outside the directory |
| Blobs.ReceiveBlob | test/desktop-client/client-tests.js:92-94 | an inbound message is accepted if and only if it is `[address, bytes, flag]` |
| Blobs.ReceiveBlobSaves | test/desktop-client/client-tests.js:65-95 | one message goes on at the address as written, with a path inside the directory whose file reads back the bytes, then the flag; no other file changes |
| Blobs.ReceiveBlobKeeps | test/desktop-client/client-tests.js:65-95 | receiving a blob leaves every other file readable as before |
| Blobs.GimmeBlob | test/desktop-client/client-tests.js:147-156 | the file is pushed if and only if the request is well formed and the path is readable inside the directory |
| Blobs.GimmeBlobRefusesOutside | test/desktop-client/client-tests.js:147-156 | a path outside the directory is reported as such whatever the store holds |
| Blobs.RelayToWeb | test/desktop-client/client-tests.js:101-145 | refused if and only if the file lies outside the directory; otherwise one `{command: 'blob', address, filePath}` envelope per recipient, with the address as sent |
| Blobs.Recipients | test/desktop-client/client-tests.js:101-145 | the recipients of the envelopes, in order |
| Blobs.RelayToWebReaches | test/desktop-client/client-tests.js:121-143 | a connection gets the blob if and only if it is subscribed at some level on the way, once per such level |
| BlobScenarios.ThreeSegments | test/desktop-client/client-tests.js:92-93 | a three-component address normalises to its three components |
| BlobScenarios.SecretFileRefused | test/desktop-client/client-tests.js:147-156 | `/home/spiq/secret_file` with `/tmp` as the directory is answered with an error, never with the file |
| BlobScenarios.TraversalRefused | test/desktop-client/client-tests.js:147-156 | `/tmp/../passwd` is outside `/tmp` and refused |
| BlobScenarios.ReceiveBlobScenario | test/desktop-client/client-tests.js:65-95 | three messages go on at the addresses as written with flags 0, 0, 1, and each path reads back its own bytes from the final store |
| BlobScenarios.SendBlobTreeExists | test/desktop-client/client-tests.js:132-133 | the test's listeners at `/bla` and `/` arise from two subscribes |
| BlobScenarios.SendBlobPath1 | test/desktop-client/client-tests.js:141 | `/bla/bli/blob` normalises to three segments |
| BlobScenarios.SendBlobPaths23 | test/desktop-client/client-tests.js:142-143 | `/blob/` and `/BLO/blob/` normalise segment-wise, case kept |
| BlobScenarios.SendBlobFiles | test/desktop-client/client-tests.js:136-138 | the test's files lie inside `/tmp` |
| BlobScenarios.DeliveryBelowBla | test/desktop-client/client-tests.js:121-122 | below `/bla` both listeners are reached, the root's first |
| BlobScenarios.DeliveryOffBla | test/desktop-client/client-tests.js:123-124 | off `/bla` only the root listener is reached |
| BlobScenarios.SendBlobSteps | test/desktop-client/client-tests.js:141-143 | the three relays for any addresses that normalise as the test's do |
| BlobScenarios.SendBlobScenario | test/desktop-client/client-tests.js:101-145 | the send-blob test: four envelopes, two for `/bla/bli/blob` and one each for `/blob/` and `/BLO/blob/`, addresses exactly as sent |

## Left out

- The URL and query string `_connect` builds, the `navigator` metadata, and the socket's
  `binaryType`. The socket is an abstract ready state. Events from a socket that has been
  replaced are not modelled: each event goes to the current socket.
- The `WebSocket` the module finds (a proper one, one whose `CLOSING` is not 2, or
  none), whether the client runs in a browser, and the value of the id cookie are
  inputs of `start`. Writing the cookie on status 0 is left out: it is browser
  storage.
- The `setTimeout` delay of `_reconnect` is not modelled as time. A pending reconnect is
  a count, and a timer fires as the event `ReconnectTimerFires`.
- `log()` is a no-op in the source and is left out.
- The osc-min codec is not modelled. A message is sent as an address and its arguments,
  and an inbound connection-status message arrives already decoded as `[status, payload]`.
- `coreMessages.validateAddressForSend` and `validateArgs` are not part of this model.
  They become the parameters `checkAddress` and `checkArgs` of `send`.
- The validation mixin that applies `configDefaults` is not part of this model. Here
  the defaults are filled in when the client is constructed. No field that has a
  default is read before `start` validates the configuration.
- The chai validator is not part of this model either. Only its port range check is
  modelled. The type checks on the fields are carried by Dafny's types.
- Non-array `args` in `send` are not modelled: the arguments are a list or absent.
- Other inbound messages, which the client re-emits to its users as 'message', are left
  out.
- Writing to a socket that exists but is not open is modelled as a write. The `ws`
  library's own behaviour there is not part of this model.
- The registry's `close`, unsubscribe and node pruning do not appear in the tests and are
  not modelled.
- The literal addresses for subscribe, resend, fromWebBlob, gimmeBlob and errors are not
  shown. Only `/sys/subscribed` appears, in server-tests.js:100. The others are
  operations and reply kinds, without literals.
- Files are an abstract map from normalised paths to bytes. Reading and writing them on
  disk is not modelled, and neither is how new file names are generated: each name is a
  parameter.
- `Contained` rejects relative paths and the directory itself. The source of the check
  is not part of this model. A file's path must be absolute and lie strictly inside the
  directory after POSIX normalisation.
- Blobs.RelayToWeb: the envelope carries `filePath`, as the web side receives it in the
  send-blob test. Reading the blob's contents is not modelled.
