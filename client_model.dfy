/**
 * The websocket client's connect / handshake / reconnect protocol, as a pure state
 * machine. The socket is its ready state; each event emitter is the list of listeners
 * currently registered on it, in registration order; the callbacks a user sees and the
 * events the client emits are appended to `log`; what is written to the socket is
 * appended to `outbox`; a pending `setTimeout` of the reconnect delay is a count.
 *
 * An event reaches the listeners registered when it is emitted, in order (an emitter
 * works on a copy of its list). A `once` listener is removed when it is called, before
 * its own code runs, so the list left after the emit no longer holds it. A listener that
 * throws stops the emit: the listeners after it do not run.
 */
module ClientModel {
  import opened Results
  import opened Messages

  datatype ReadyState = Connecting | Open | Closing | Closed

  /**
   * The `WebSocket` the module finds: a proper one, one whose `CLOSING` constant is not
   * 2, or none at all. `isSupported()` holds for the first only.
   */
  datatype Env = Supported | OtherWebSocket | NoWebSocket

  /** What `status()` reports. */
  datatype Status = Started | Stopped

  /** The client's configuration once the defaults are filled in. */
  datatype Config = Config(
    hostname: string, port: int, reconnect: int, queueIfFull: bool,
    cookieName: string, useCookies: bool)

  /** A configuration as the user writes it: the fields that have defaults may be missing. */
  datatype UserConfig = UserConfig(
    hostname: string, port: int, reconnect: Option<int>, queueIfFull: Option<bool>,
    cookieName: Option<string>, useCookies: Option<bool>)

  /** The error a `done` callback of `start` receives. */
  datatype ConnectError =
    | Unsupported               // 'the current browser is not supported'
    | InvalidConfig(reason: string)
    | SocketError               // 'socket error', before the socket opened
    | Refused(reason: string)   // the server is full and the client does not queue

  /** What made a handler throw. */
  datatype Fault =
    | NotSupported              // `start` without `done` in an unsupported environment
    | NoDoneCallback            // `done(err)` with `done` undefined
    | NoRhizomeEmitter          // `_rhizomeEmitter` is null
    | NoSocket                  // `_socket` (or its emitter) is null
    | UnhandledError            // an 'error' emitted with no listener
    | NoErrorValue              // `err.toString()` on the undefined `err` of a socket error
    | NoConstructor             // `new WebSocket` with no `WebSocket`
    | InvalidMessage(reason: string)

  /** What the user observes: callbacks called and events emitted, in order. */
  datatype Event =
    | StartDone(err: Option<ConnectError>)
    | StopDone
    | Connected
    | Queued
    | ConnectionLost
    | ErrorEmitted
    | Threw(fault: Fault)

  /** The callback handed to `_connect`: the one built by `start`, or the one of `_reconnect`. */
  datatype Attempt = FromStart(hasDone: bool) | FromReconnect

  /** Listeners of the socket's 'error' event. */
  datatype ErrorListener = FailConnect(attempt: Attempt) | RouteError

  /** Listeners of the socket's 'close' event. */
  datatype CloseListener =
    | OnConnectionLost
    | FailOnClose(attempt: Attempt, reason: string)
    | FinishStop(hasDone: bool)

  datatype ClientState = ClientState(
    config: Config,
    socket: Option<ReadyState>,       // `_socket`, and with it `_socketEmitter`
    id: Option<string>,
    hasRhizome: bool,                 // `_rhizomeEmitter` is not null
    openLs: seq<Attempt>,             // 'open' listeners of the socket emitter
    errorLs: seq<ErrorListener>,
    closeLs: seq<CloseListener>,
    statusLs: seq<Attempt>,           // connection-status listeners of the rhizome emitter
    reconnects: nat,                  // reconnect timers pending
    log: seq<Event>,
    outbox: seq<Message>)

  /** The state a run of handlers ends in, and whether one of them threw. */
  datatype Run = Run(s: ClientState, thrown: bool)

  /** One listener called with the data of the event being emitted. */
  datatype Call =
    | CallOpen(attempt: Attempt)
    | CallError(errorListener: ErrorListener, userListens: bool)
    | CallClose(closeListener: CloseListener)
    | CallStatus(attempt: Attempt, status: int, payload: string)

  // ----------------------------------------------------------------------------------
  // Configuration

  const DefaultReconnect := 1000
  const DefaultQueueIfFull := true
  const DefaultCookieName := "rhizome"
  const DefaultUseCookies := true

  function Or<T>(o: Option<T>, d: T): T {
    if o.Some? then o.value else d
  }

  /** Fills in `configDefaults` for the fields the user left out. */
  function WithDefaults(u: UserConfig): (c: Config)
    ensures c.hostname == u.hostname && c.port == u.port
    ensures u.reconnect.None? ==> c.reconnect == 1000
    ensures u.queueIfFull.None? ==> c.queueIfFull
    ensures u.cookieName.None? ==> c.cookieName == "rhizome"
    ensures u.useCookies.None? ==> c.useCookies
    ensures u.reconnect.Some? ==> c.reconnect == u.reconnect.value
    ensures u.queueIfFull.Some? ==> c.queueIfFull == u.queueIfFull.value
    ensures u.cookieName.Some? ==> c.cookieName == u.cookieName.value
    ensures u.useCookies.Some? ==> c.useCookies == u.useCookies.value
  {
    Config(u.hostname, u.port, Or(u.reconnect, DefaultReconnect), Or(u.queueIfFull, DefaultQueueIfFull),
      Or(u.cookieName, DefaultCookieName), Or(u.useCookies, DefaultUseCookies))
  }

  /** The configuration check: the only constraint beyond the field types is the port range. */
  function ValidateConfig(c: Config): (err: Option<string>)
    ensures err.None? <==> 0 <= c.port <= 65535
  {
    if 0 <= c.port <= 65535 then None else Some("port")
  }

  // ----------------------------------------------------------------------------------
  // Queries

  /** `status()`: started only with an open socket and an id assigned by the server. */
  function StatusOf(s: ClientState): (r: Status)
    ensures r == Started <==> s.socket == Some(Open) && s.id.Some?
  {
    if s.socket.None? then Stopped
    else if s.id.None? then Stopped
    else if s.socket.value == Open then Started
    else Stopped
  }

  /** A client as constructed: nothing open, nothing armed. */
  function Initial(config: Config): (s: ClientState)
    ensures StatusOf(s) == Stopped && s.log == [] && s.reconnects == 0
  {
    ClientState(config, None, None, false, [], [], [], [], 0, [], [])
  }

  // ----------------------------------------------------------------------------------
  // Building blocks

  /**
   * Handlers only add to what the user has observed, and never change the configuration
   * or what has been written to the socket.
   */
  predicate Extends(s: ClientState, r: ClientState) {
    r.config == s.config && r.outbox == s.outbox && s.log <= r.log
  }

  function Note(s: ClientState, e: Event): ClientState {
    s.(log := s.log + [e])
  }

  function NoteIf(s: ClientState, b: bool, e: Event): ClientState {
    if b then Note(s, e) else s
  }

  function Throw(s: ClientState, f: Fault): Run {
    Run(Note(s, Threw(f)), true)
  }

  /**
   * The callback of a connect attempt, called with `err`. From `start`: the user's
   * `done(err)` if there is one, then 'connected' unless there was an error. From
   * `_reconnect`: another reconnect is scheduled on error, 'connected' is emitted
   * otherwise.
   */
  function Complete(s: ClientState, a: Attempt, err: Option<ConnectError>): (r: ClientState)
    ensures r.socket == s.socket && r.id == s.id && r.statusLs == s.statusLs && r.closeLs == s.closeLs
    ensures r.openLs == s.openLs && Extends(s, r)
  {
    match a
    case FromStart(hasDone) => NoteIf(NoteIf(s, hasDone, StartDone(err)), err.None?, Connected)
    case FromReconnect =>
      if err.Some? then s.(reconnects := s.reconnects + 1) else Note(s, Connected)
  }

  /** `_clean`: forgets the id, every socket listener, the rhizome emitter and the socket. */
  function Clean(s: ClientState): (r: Run)
    ensures !r.thrown ==> r.s.socket.None? && r.s.id.None? && !r.s.hasRhizome
    ensures r.thrown <==> s.socket.None?
    ensures Extends(s, r.s) && (r.s.openLs == s.openLs || r.s.openLs == [])
  {
    if s.socket.None? then Throw(s.(id := None), NoSocket)
    else Run(s.(id := None, openLs := [], errorLs := [], closeLs := [], hasRhizome := false,
                statusLs := [], socket := None), false)
  }

  /** `_connect`: a new socket, connecting, with the open and error handlers of attempt `a`. */
  function Connect(s: ClientState, a: Attempt): (r: ClientState)
    ensures r.socket == Some(Connecting) && r.openLs == [a] && r.errorLs == [FailConnect(a)] && r.closeLs == []
  {
    s.(socket := Some(Connecting), openLs := [a], errorLs := [FailConnect(a)], closeLs := [])
  }

  /** `socket.close()`: an open or connecting socket starts closing. */
  function AfterClose(r: ReadyState): ReadyState {
    if r == Connecting || r == Open then Closing else r
  }

  /** Removes the last occurrence of `x`, as `removeListener` does. */
  function RemoveLast<T(==)>(ls: seq<T>, x: T): (r: seq<T>)
    ensures x in ls ==> |r| == |ls| - 1
    ensures x !in ls ==> r == ls
  {
    if ls == [] then []
    else if ls[|ls| - 1] == x then ls[..|ls| - 1]
    else
      assert x in ls ==> x in ls[..|ls| - 1] by {
        assert ls == ls[..|ls| - 1] + [ls[|ls| - 1]];
      }
      RemoveLast(ls[..|ls| - 1], x) + [ls[|ls| - 1]]
  }

  /** `removeListener` takes away one registration of `x` and nothing else. */
  lemma {:induction false} RemoveLastCount<T>(ls: seq<T>, x: T)
    ensures multiset(RemoveLast(ls, x)) == multiset(ls) - multiset{x}
    decreases |ls|
  {
    if ls != [] {
      var init, last := ls[..|ls| - 1], ls[|ls| - 1];
      assert ls == init + [last];
      if last != x {
        RemoveLastCount(init, x);
      }
    }
  }

  /** The socket's open handler of attempt `a`: route errors, then wait for the connection status. */
  function OnOpen(s: ClientState, a: Attempt): (r: Run)
    ensures r.s.errorLs == [RouteError] && (r.thrown <==> !s.hasRhizome)
    ensures !r.thrown ==> r.s.statusLs == s.statusLs + [a]
    ensures r.s.socket == s.socket && r.s.openLs == s.openLs && r.s.closeLs == s.closeLs
    ensures Extends(s, r.s)
  {
    var s1 := s.(errorLs := [RouteError]);
    if !s1.hasRhizome then Throw(s1, NoRhizomeEmitter)
    else Run(s1.(statusLs := s1.statusLs + [a]), false)
  }

  /** `_doRhizomeConnection(done, [status, payload])`. */
  function OnStatus(s: ClientState, a: Attempt, status: int, payload: string): (r: Run)
    ensures status == 0 ==>
      !r.thrown && r.s.id == Some(payload) && r.s.closeLs == s.closeLs + [OnConnectionLost]
    ensures status == 1 && s.config.queueIfFull ==> !r.thrown && r.s.statusLs == s.statusLs + [a]
    ensures status == 1 && !s.config.queueIfFull ==>
      r.s.closeLs == s.closeLs + [FailOnClose(a, payload)] && (r.thrown <==> s.socket.None?)
    ensures status != 0 && status != 1 ==> r == Run(s, false)
    ensures r.s.openLs == s.openLs && Extends(s, r.s)
  {
    if status == 0 then
      var s1 := s.(id := Some(payload), closeLs := s.closeLs + [OnConnectionLost]);
      Run(Complete(s1, a, None), false)
    else if status == 1 then
      if s.config.queueIfFull then
        Run(Note(s, Queued).(statusLs := s.statusLs + [a]), false)
      else
        var s1 := s.(closeLs := s.closeLs + [FailOnClose(a, payload)]);
        if s1.socket.None? then Throw(s1, NoSocket)
        else Run(s1.(socket := Some(AfterClose(s1.socket.value))), false)
    else Run(s, false)
  }

  /** `_onConnectionLost`. */
  function OnLost(s: ClientState): (r: Run)
    ensures |r.s.log| > |s.log| && r.s.log[|s.log|] == ConnectionLost
    ensures r.thrown <==> !s.hasRhizome
    ensures !r.thrown ==> r.s.statusLs == []
    ensures !r.thrown ==> r.s.reconnects == s.reconnects + (if s.config.reconnect != 0 then 1 else 0)
    ensures r.s.openLs == s.openLs && r.s.closeLs == s.closeLs && Extends(s, r.s)
  {
    var s1 := Note(s, ConnectionLost);
    if !s1.hasRhizome then Throw(s1, NoRhizomeEmitter)
    else
      var s2 := s1.(statusLs := []);
      Run(if s2.config.reconnect != 0 then s2.(reconnects := s2.reconnects + 1) else s2, false)
  }

  /** Runs one listener. */
  function Invoke(s: ClientState, c: Call): (r: Run)
    ensures c.CallError? && c.errorListener.RouteError? ==> r.thrown
    ensures c.CallError? && c.errorListener.FailConnect? ==> !r.thrown && r.s.openLs == []
    ensures Extends(s, r.s) && (r.s.openLs == s.openLs || r.s.openLs == [])
  {
    match c
    case CallOpen(a) => OnOpen(s, a)
    case CallError(FailConnect(a), _) =>
      Run(Complete(s.(openLs := []), a, Some(SocketError)), false)
    case CallError(RouteError, userListens) =>
      // the user's listener, if any, gets the error; logging it then reads `err.toString()`
      Throw(NoteIf(s, userListens, ErrorEmitted), NoErrorValue)
    case CallClose(OnConnectionLost) => OnLost(s)
    case CallClose(FailOnClose(a, reason)) => Run(Complete(s, a, Some(Refused(reason))), false)
    case CallClose(FinishStop(hasDone)) =>
      var r := Clean(s);
      if r.thrown then r else Run(NoteIf(r.s, hasDone, StopDone), false)
    case CallStatus(a, status, payload) => OnStatus(s, a, status, payload)
  }

  /** Runs the listeners `cs` in order, stopping at the first that throws. */
  function Emit(s: ClientState, cs: seq<Call>): (r: Run)
    ensures Extends(s, r.s) && (r.s.openLs == s.openLs || r.s.openLs == [])
    ensures cs == [] ==> r == Run(s, false)
    decreases |cs|
  {
    if cs == [] then Run(s, false)
    else
      var r := Emit(s, cs[..|cs| - 1]);
      if r.thrown then r else Invoke(r.s, cs[|cs| - 1])
  }

  function OpenCalls(ls: seq<Attempt>): (cs: seq<Call>)
    ensures |cs| == |ls| && forall i :: 0 <= i < |ls| ==> cs[i] == CallOpen(ls[i])
  {
    seq(|ls|, i requires 0 <= i < |ls| => CallOpen(ls[i]))
  }

  function ErrorCalls(ls: seq<ErrorListener>, userListens: bool): (cs: seq<Call>)
    ensures |cs| == |ls| && forall i :: 0 <= i < |ls| ==> cs[i] == CallError(ls[i], userListens)
  {
    seq(|ls|, i requires 0 <= i < |ls| => CallError(ls[i], userListens))
  }

  function CloseCalls(ls: seq<CloseListener>): (cs: seq<Call>)
    ensures |cs| == |ls| && forall i :: 0 <= i < |ls| ==> cs[i] == CallClose(ls[i])
  {
    seq(|ls|, i requires 0 <= i < |ls| => CallClose(ls[i]))
  }

  function StatusCalls(ls: seq<Attempt>, status: int, payload: string): (cs: seq<Call>)
    ensures |cs| == |ls| && forall i :: 0 <= i < |ls| ==> cs[i] == CallStatus(ls[i], status, payload)
  {
    seq(|ls|, i requires 0 <= i < |ls| => CallStatus(ls[i], status, payload))
  }

  /** The 'error' listeners that stay after an emit: `once` ones are gone. */
  function Persistent(ls: seq<ErrorListener>): (r: seq<ErrorListener>)
    ensures forall l :: l in r <==> l in ls && l == RouteError
  {
    if ls == [] then []
    else (if ls[0] == RouteError then [RouteError] else []) + Persistent(ls[1..])
  }

  // ----------------------------------------------------------------------------------
  // Events: the public API, the socket's events, the reconnect timer

  /**
   * `start(done)` where the module found `env`; `isBrowser` is whether the client runs
   * in a browser and `cookieId` the id stored in its cookie.
   */
  function Start(s: ClientState, env: Env, hasDone: bool, isBrowser: bool, cookieId: Option<string>): (r: Run)
    ensures env != Supported && !hasDone ==> r == Run(Note(s, Threw(NotSupported)), true)
    ensures env == NoWebSocket && hasDone ==> r.s.socket.None?
    ensures !r.thrown && r.s.socket.Some? ==> r.s.socket == Some(Connecting) && env != NoWebSocket
    ensures Extends(s, r.s)
  {
    var supported := env == Supported;
    if !supported && !hasDone then Throw(s, NotSupported)
    else
      var s0 := NoteIf(s, !supported, StartDone(Some(Unsupported)));
      var s1 := if s0.socket.Some? then Clean(s0.(socket := Some(AfterClose(s0.socket.value)))).s else s0;
      Validated(s1, env, hasDone, isBrowser, cookieId)
  }

  /**
   * The callback `start` hands to `_validateConfig`: a configuration error goes to
   * `done`; otherwise the id is read from the cookie, a fresh rhizome emitter made and
   * the socket created.
   */
  function Validated(s: ClientState, env: Env, hasDone: bool, isBrowser: bool, cookieId: Option<string>): (r: Run)
    ensures ValidateConfig(s.config).Some? ==> r.s.socket == s.socket && r.thrown == !hasDone
    ensures ValidateConfig(s.config).None? ==> r.s.hasRhizome && r.s.statusLs == [] && (r.thrown <==> env == NoWebSocket)
    ensures ValidateConfig(s.config).None? && env != NoWebSocket ==> r.s.socket == Some(Connecting)
    ensures ValidateConfig(s.config).None? && env == NoWebSocket ==> r.s.socket == s.socket
    ensures Extends(s, r.s)
  {
    match ValidateConfig(s.config)
    case Some(e) =>
      if hasDone then Run(Note(s, StartDone(Some(InvalidConfig(e)))), false) else Throw(s, NoDoneCallback)
    case None =>
      var s2 := s.(id := if isBrowser then cookieId else s.id, hasRhizome := true, statusLs := []);
      if env == NoWebSocket then Throw(s2, NoConstructor)
      else Run(Connect(s2, FromStart(hasDone)), false)
  }

  /** `stop(done)`. */
  function Stop(s: ClientState, hasDone: bool): (r: Run)
    ensures !r.thrown && r.s.reconnects == s.reconnects
    ensures r.s.socket.None? || r.s.socket == Some(Closing)
    ensures s.socket != Some(Open) ==> r.s.log == s.log + (if hasDone then [StopDone] else [])
    ensures s.socket == Some(Open) ==> r.s.log == s.log && FinishStop(hasDone) in r.s.closeLs
    ensures Extends(s, r.s)
  {
    if s.socket.None? then Run(NoteIf(s, hasDone, StopDone), false)
    else if s.socket.value == Open then
      Run(s.(closeLs := RemoveLast(s.closeLs, OnConnectionLost) + [FinishStop(hasDone)],
             socket := Some(Closing)), false)
    else
      var r := Clean(s);
      Run(NoteIf(r.s, hasDone, StopDone), false)
  }

  /*
   * The socket's own handlers forward each event to `_socketEmitter`. Once `_clean` has
   * set it to null, an event from the socket throws there and reaches no listener.
   */

  /** The socket opens. */
  function SocketOpen(s: ClientState): (r: Run)
    ensures s.socket.None? ==> r == Throw(s, NoSocket)
    ensures s.socket.Some? ==> r.s.openLs == []
    ensures Extends(s, r.s)
  {
    if s.socket.None? then Throw(s, NoSocket)
    else Emit(s.(socket := Some(Open), openLs := []), OpenCalls(s.openLs))
  }

  /** The socket reports an error; `userListens` is whether the user listens to 'error'. */
  function SocketErrored(s: ClientState, userListens: bool): (r: Run)
    ensures s.socket.None? ==> r == Throw(s, NoSocket)
    ensures s.socket.Some? && s.errorLs == [] ==> r == Throw(s, UnhandledError)
    ensures Extends(s, r.s)
  {
    if s.socket.None? then Throw(s, NoSocket)
    else if s.errorLs == [] then Throw(s, UnhandledError)
    else Emit(s.(errorLs := Persistent(s.errorLs)), ErrorCalls(s.errorLs, userListens))
  }

  /** The socket closes. */
  function SocketClosed(s: ClientState): (r: Run)
    ensures s.socket.None? ==> r == Throw(s, NoSocket)
    ensures Extends(s, r.s)
  {
    if s.socket.None? then Throw(s, NoSocket)
    else Emit(s.(socket := Some(Closed), closeLs := []), CloseCalls(s.closeLs))
  }

  /** A message at the connection-status address, `[status, payload]`. */
  function ConnectionStatus(s: ClientState, status: int, payload: string): (r: Run)
    ensures s.socket.None? ==> r == Throw(s, NoSocket)
    ensures s.socket.Some? && !s.hasRhizome ==> r == Throw(s, NoRhizomeEmitter)
    ensures s.socket.Some? && s.hasRhizome && s.statusLs == [] ==> r == Run(s, false)
    ensures Extends(s, r.s)
  {
    if s.socket.None? then Throw(s, NoSocket)
    else if !s.hasRhizome then Throw(s, NoRhizomeEmitter)
    else Emit(s.(statusLs := []), StatusCalls(s.statusLs, status, payload))
  }

  /** A reconnect timer fires. */
  function ReconnectFires(s: ClientState): (r: ClientState)
    requires s.reconnects > 0
    ensures r.reconnects + 1 == s.reconnects && r.socket == Some(Connecting)
    ensures r.openLs == [FromReconnect] && r.errorLs == [FailConnect(FromReconnect)]
    ensures r.log == s.log && r.config == s.config
  {
    Connect(s.(reconnects := s.reconnects - 1), FromReconnect)
  }

  /** An argument as it goes to the encoder: an ArrayBuffer becomes a byte buffer. */
  function Convert(a: Arg): (r: Arg)
    ensures a.ArrayBuffer? ==> r == Blob(a.raw)
    ensures !a.ArrayBuffer? ==> r == a
  {
    if a.ArrayBuffer? then Blob(a.raw) else a
  }

  function ConvertAll(args: seq<Arg>): (r: seq<Arg>)
    ensures |r| == |args| && forall i :: 0 <= i < |args| ==> r[i] == Convert(args[i])
  {
    seq(|args|, i requires 0 <= i < |args| => Convert(args[i]))
  }

  /**
   * `send(address, args)`: `args` defaults to `[]`, ArrayBuffers are converted, the
   * address and the arguments are validated (`checkAddress` and `checkArgs` give the
   * error message, if any), and only then is the message written to the socket.
   */
  function Send(s: ClientState, address: string, args: Option<seq<Arg>>,
                checkAddress: string -> Option<string>, checkArgs: seq<Arg> -> Option<string>): (r: Result<Message, Fault>)
    ensures s.socket.None? ==> r.Err?
    ensures r.Ok? ==> r.value.address == address && r.value.args == ConvertAll(if args.Some? then args.value else [])
  {
    var converted := ConvertAll(if args.Some? then args.value else []);
    if checkAddress(address).Some? then Err(InvalidMessage(checkAddress(address).value))
    else if checkArgs(converted).Some? then Err(InvalidMessage(checkArgs(converted).value))
    else if s.socket.None? then Err(NoSocket)
    else Ok(Message(address, converted))
  }

  /** The state after `send`: the message written, or nothing changed when it threw. */
  function AfterSend(s: ClientState, out: Result<Message, Fault>): (r: ClientState)
    ensures r.config == s.config && r.socket == s.socket && s.log <= r.log && s.outbox <= r.outbox
    ensures out.Err? ==> r.outbox == s.outbox
    ensures out.Ok? ==> r.log == s.log && r.outbox == s.outbox + [out.value]
  {
    if out.Ok? then s.(outbox := s.outbox + [out.value]) else Note(s, Threw(out.error))
  }
}
