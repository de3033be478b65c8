/**
 * What the client's protocol guarantees, proved on the state machine of `ClientModel`.
 */
module ClientProps {
  import opened Results
  import opened Messages
  import opened ClientModel

  // ----------------------------------------------------------------------------------
  // The invariant every event keeps

  /**
   * Without a socket no socket listener is armed, without a rhizome emitter no
   * connection-status listener is, and at most one open and one error listener are.
   */
  predicate Inv(s: ClientState) {
    && (s.socket.None? ==> s.openLs == [] && s.errorLs == [] && s.closeLs == [])
    && (!s.hasRhizome ==> s.statusLs == [])
    && |s.openLs| <= 1 && |s.errorLs| <= 1
  }

  /** Open and status listeners run with a socket; status ones also with a rhizome emitter. */
  predicate Fits(s: ClientState, c: Call) {
    && (c.CallOpen? ==> s.socket.Some?)
    && (c.CallStatus? ==> s.socket.Some? && s.hasRhizome)
  }

  lemma InvokeInv(s: ClientState, c: Call)
    requires Inv(s) && Fits(s, c)
    ensures Inv(Invoke(s, c).s)
    ensures !c.CallClose? ==> Invoke(s, c).s.socket.Some? == s.socket.Some?
    ensures !c.CallClose? && s.hasRhizome ==> Invoke(s, c).s.hasRhizome
  {
  }

  /** An emit keeps the invariant: all its listeners listen to the same event. */
  lemma {:induction false} EmitInv(s: ClientState, cs: seq<Call>)
    requires Inv(s) && forall i :: 0 <= i < |cs| ==> Fits(s, cs[i])
    requires (forall i :: 0 <= i < |cs| ==> cs[i].CallClose?) || (forall i :: 0 <= i < |cs| ==> !cs[i].CallClose?)
    ensures Inv(Emit(s, cs).s)
    ensures (forall i :: 0 <= i < |cs| ==> !cs[i].CallClose?) ==>
      Emit(s, cs).s.socket.Some? == s.socket.Some? && (s.hasRhizome ==> Emit(s, cs).s.hasRhizome)
    decreases |cs|
  {
    if cs != [] {
      var init := cs[..|cs| - 1];
      assert forall i :: 0 <= i < |init| ==> init[i] == cs[i];
      EmitInv(s, init);
      var r := Emit(s, init);
      if !r.thrown {
        var c := cs[|cs| - 1];
        if c.CallClose? {
          InvokeInv(r.s, c);
        } else {
          assert Fits(r.s, c) by { assert Fits(s, c); }
          InvokeInv(r.s, c);
        }
      }
    }
  }

  lemma InitialInv(config: Config)
    ensures Inv(Initial(config))
  {
  }

  lemma StartInv(s: ClientState, env: Env, hasDone: bool, isBrowser: bool, cookieId: Option<string>)
    requires Inv(s)
    ensures Inv(Start(s, env, hasDone, isBrowser, cookieId).s)
  {
  }

  lemma StopInv(s: ClientState, hasDone: bool)
    requires Inv(s)
    ensures Inv(Stop(s, hasDone).s)
  {
  }

  lemma SocketOpenInv(s: ClientState)
    requires Inv(s)
    ensures Inv(SocketOpen(s).s)
  {
    if s.socket.Some? {
      EmitInv(s.(socket := Some(Open), openLs := []), OpenCalls(s.openLs));
    }
  }

  lemma SocketErroredInv(s: ClientState, userListens: bool)
    requires Inv(s)
    ensures Inv(SocketErrored(s, userListens).s)
  {
    if s.socket.Some? && s.errorLs != [] {
      var cs := ErrorCalls(s.errorLs, userListens);
      var s1 := s.(errorLs := Persistent(s.errorLs));
      assert |Persistent(s.errorLs)| <= 1 by {
        var l := s.errorLs[0];
        assert s.errorLs == [l];
        assert Persistent(s.errorLs) == (if l == RouteError then [RouteError] else []) + Persistent([]);
      }
      EmitInv(s1, cs);
    }
  }

  lemma SocketClosedInv(s: ClientState)
    requires Inv(s)
    ensures Inv(SocketClosed(s).s)
  {
    if s.socket.Some? {
      EmitInv(s.(socket := Some(Closed), closeLs := []), CloseCalls(s.closeLs));
    }
  }

  lemma ConnectionStatusInv(s: ClientState, status: int, payload: string)
    requires Inv(s)
    ensures Inv(ConnectionStatus(s, status, payload).s)
  {
    if s.socket.Some? && s.hasRhizome {
      EmitInv(s.(statusLs := []), StatusCalls(s.statusLs, status, payload));
    }
  }

  lemma ReconnectFiresInv(s: ClientState)
    requires Inv(s) && s.reconnects > 0
    ensures Inv(ReconnectFires(s))
  {
  }

  // ----------------------------------------------------------------------------------
  // Emits of one listener

  lemma EmitOne(s: ClientState, c: Call)
    ensures Emit(s, [c]) == Invoke(s, c)
  {
    assert [c][..0] == [];
  }

  /** Once a listener has thrown, the listeners after it do not run. */
  lemma {:induction false} EmitStops(s: ClientState, cs: seq<Call>, i: nat)
    requires i <= |cs| && Emit(s, cs[..i]).thrown
    ensures Emit(s, cs) == Emit(s, cs[..i])
    decreases |cs|
  {
    if i < |cs| {
      var init := cs[..|cs| - 1];
      assert init[..i] == cs[..i];
      EmitStops(s, init, i);
    } else {
      assert cs[..i] == cs;
    }
  }

  /** One more listener: the emit so far, then that listener unless one has thrown. */
  lemma EmitStep(s: ClientState, cs: seq<Call>, i: nat)
    requires i < |cs|
    ensures Emit(s, cs[..i + 1]) ==
      (var r := Emit(s, cs[..i]); if r.thrown then r else Invoke(r.s, cs[i]))
  {
    assert cs[..i + 1][..i] == cs[..i];
  }

  // ----------------------------------------------------------------------------------
  // The handshake

  /**
   * A socket error before the socket opened fails the connect attempt with 'socket
   * error' and disarms the open handler: `start`'s `done` gets the error and
   * 'connected' is not emitted, and a reconnect attempt schedules the next one.
   */
  lemma ErrorBeforeOpen(s: ClientState, a: Attempt, userListens: bool)
    ensures var c := Connect(s, a);
      var r := SocketErrored(c, userListens);
      && !r.thrown && r.s.socket == Some(Connecting) && r.s.openLs == [] && r.s.errorLs == []
      && r.s.statusLs == s.statusLs
      && (a == FromStart(true) ==> r.s.log == s.log + [StartDone(Some(SocketError))])
      && (a == FromStart(false) ==> r.s.log == s.log)
      && (a == FromReconnect ==> r.s.log == s.log && r.s.reconnects == s.reconnects + 1)
      && Connected !in r.s.log[|s.log|..]
  {
    var c := Connect(s, a);
    assert Persistent([FailConnect(a)]) == [] + Persistent([]);
    assert ErrorCalls(c.errorLs, userListens) == [CallError(FailConnect(a), userListens)];
    EmitOne(c.(errorLs := []), CallError(FailConnect(a), userListens));
  }

  /** A socket connecting for attempt `a`, with only that attempt's handlers armed on it. */
  predicate Attempting(c: ClientState, a: Attempt) {
    c.socket == Some(Connecting) && c.openLs == [a] && c.errorLs == [FailConnect(a)]
  }

  /**
   * Once the socket is open, its open handler has routed errors away from the connect
   * attempt and armed the wait for the connection status. A later socket error is
   * re-emitted to the user when someone listens, and then always throws: the socket's
   * handler emits 'error' without a value, and `_onSocketError` logs `err.toString()`.
   */
  lemma ErrorAfterOpen(c: ClientState, a: Attempt, userListens: bool)
    requires Attempting(c, a) && c.hasRhizome
    ensures var o := SocketOpen(c);
      && !o.thrown && o.s.socket == Some(Open) && o.s.openLs == []
      && o.s.errorLs == [RouteError] && o.s.statusLs == c.statusLs + [a]
      && o.s.log == c.log && o.s.config == c.config && o.s.reconnects == c.reconnects
      && o.s.closeLs == c.closeLs && o.s.id == c.id
      && SocketErrored(o.s, userListens) == Throw(NoteIf(o.s, userListens, ErrorEmitted), NoErrorValue)
  {
    assert OpenCalls(c.openLs) == [CallOpen(a)];
    EmitOne(c.(socket := Some(Open), openLs := []), CallOpen(a));
    var o := SocketOpen(c).s;
    assert Persistent([RouteError]) == [RouteError] + Persistent([]);
    assert ErrorCalls(o.errorLs, userListens) == [CallError(RouteError, userListens)];
    assert o.(errorLs := Persistent(o.errorLs)) == o;
    EmitOne(o, CallError(RouteError, userListens));
  }

  /** A status of 0 sent to the one waiting attempt. */
  lemma {:induction false} AcceptedEmit(s: ClientState, a: Attempt, id: string)
    requires s.socket.Some? && s.hasRhizome && s.statusLs == [a]
    ensures ConnectionStatus(s, 0, id) ==
      Run(Complete(s.(statusLs := [], id := Some(id), closeLs := s.closeLs + [OnConnectionLost]), a, None), false)
  {
    EmitOne(s.(statusLs := []), CallStatus(a, 0, id));
  }

  /**
   * Connection status 0: the id is the one the server sent, the connection-lost
   * watcher is armed, and the attempt completes without error: `start`'s `done()`
   * runs first and 'connected' is emitted after it; a reconnect emits 'connected'.
   * The client is then started.
   */
  lemma Accepted(s: ClientState, a: Attempt, id: string)
    requires s.socket == Some(Open) && s.hasRhizome && s.statusLs == [a]
    ensures var r := ConnectionStatus(s, 0, id);
      && !r.thrown && r.s.id == Some(id) && r.s.socket == Some(Open)
      && r.s.closeLs == s.closeLs + [OnConnectionLost] && r.s.statusLs == []
      && r.s.reconnects == s.reconnects
      && (a == FromStart(true) ==> r.s.log == s.log + [StartDone(None), Connected])
      && (a != FromStart(true) ==> r.s.log == s.log + [Connected])
      && StatusOf(r.s) == Started
  {
    AcceptedEmit(s, a, id);
  }

  /**
   * Connection status 1 with `queueIfFull`: 'queued' is emitted, `done` is not called,
   * and the same attempt waits for the next connection status.
   */
  lemma QueuedWhenFull(s: ClientState, a: Attempt, reason: string)
    requires s.socket.Some? && s.hasRhizome && s.statusLs == [a] && s.config.queueIfFull
    ensures var r := ConnectionStatus(s, 1, reason);
      && !r.thrown && r.s.log == s.log + [Queued] && r.s.statusLs == [a]
      && r.s.socket == s.socket && r.s.id == s.id && r.s.closeLs == s.closeLs
      && r.s.reconnects == s.reconnects && r.s.hasRhizome && r.s.config == s.config
  {
    EmitOne(s.(statusLs := []), CallStatus(a, 1, reason));
  }

  /**
   * Connection status 1 without `queueIfFull`: the socket is closed and `done` is not
   * called yet; it receives the server's reason once the close event comes.
   */
  lemma RefusedWhenFull(s: ClientState, a: Attempt, reason: string)
    requires s.socket == Some(Open) && s.hasRhizome && s.statusLs == [a] && !s.config.queueIfFull
    requires s.closeLs == []
    ensures var r := ConnectionStatus(s, 1, reason);
      && !r.thrown && r.s.log == s.log && r.s.socket == Some(Closing)
      && r.s.closeLs == [FailOnClose(a, reason)] && r.s.statusLs == []
    ensures var c := SocketClosed(ConnectionStatus(s, 1, reason).s);
      && !c.thrown && c.s.socket == Some(Closed)
      && (a == FromStart(true) ==> c.s.log == s.log + [StartDone(Some(Refused(reason)))])
      && (a == FromReconnect ==> c.s.log == s.log && c.s.reconnects == s.reconnects + 1)
  {
    EmitOne(s.(statusLs := []), CallStatus(a, 1, reason));
    var r := ConnectionStatus(s, 1, reason).s;
    EmitOne(r.(socket := Some(Closed), closeLs := []), CallClose(FailOnClose(a, reason)));
  }

  /** Any other connection status is ignored, and the attempt stops waiting. */
  lemma OtherStatusIgnored(s: ClientState, a: Attempt, status: int, payload: string)
    requires s.socket.Some? && s.hasRhizome && s.statusLs == [a] && status != 0 && status != 1
    ensures ConnectionStatus(s, status, payload) == Run(s.(statusLs := []), false)
  {
    EmitOne(s.(statusLs := []), CallStatus(a, status, payload));
  }

  // ----------------------------------------------------------------------------------
  // Stop

  /**
   * `stop` on an open socket takes the connection-lost watcher off before closing: the
   * close that follows cleans the client and calls `done(null)`, and never emits
   * 'connection lost' or schedules a reconnect.
   */
  lemma StopOpen(s: ClientState, hasDone: bool)
    requires s.socket == Some(Open)
    requires s.closeLs == [] || s.closeLs == [OnConnectionLost]
    ensures var r := Stop(s, hasDone);
      && !r.thrown && r.s.socket == Some(Closing) && r.s.log == s.log
      && r.s.closeLs == [FinishStop(hasDone)]
    ensures var c := SocketClosed(Stop(s, hasDone).s);
      && !c.thrown && c.s.socket.None? && c.s.id.None? && !c.s.hasRhizome
      && c.s.reconnects == s.reconnects
      && c.s.log == s.log + (if hasDone then [StopDone] else [])
  {
    var r := Stop(s, hasDone).s;
    assert RemoveLast(s.closeLs, OnConnectionLost) == [];
    EmitOne(r.(socket := Some(Closed), closeLs := []), CallClose(FinishStop(hasDone)));
  }

  /** Whatever else is armed, `stop` on an open socket takes off one connection-lost watcher. */
  lemma StopDisarms(s: ClientState, hasDone: bool)
    requires s.socket == Some(Open)
    ensures var r := Stop(s, hasDone).s;
      multiset(r.closeLs)[OnConnectionLost] + 1 == multiset(s.closeLs)[OnConnectionLost] ||
      (OnConnectionLost !in s.closeLs && OnConnectionLost !in r.closeLs)
  {
    RemoveLastCount(s.closeLs, OnConnectionLost);
  }

  /**
   * `stop` on a socket that is not open cleans at once and calls `done(null)` at once;
   * without a socket it only calls `done(null)`.
   */
  lemma StopNotOpen(s: ClientState, hasDone: bool)
    requires s.socket != Some(Open)
    ensures var r := Stop(s, hasDone);
      && !r.thrown && r.s.socket.None? && r.s.id == (if s.socket.None? then s.id else None)
      && r.s.log == s.log + (if hasDone then [StopDone] else [])
      && r.s.reconnects == s.reconnects
      && (s.socket.Some? ==> r.s.openLs == [] && r.s.errorLs == [] && r.s.closeLs == []
                             && r.s.statusLs == [] && !r.s.hasRhizome)
  {
  }

  // ----------------------------------------------------------------------------------
  // Connection loss and reconnection

  /**
   * The close of a connected socket: 'connection lost' is emitted, the handshake
   * listeners are dropped, and a reconnect is scheduled if and only if `reconnect` is
   * not 0.
   */
  lemma ConnectionLostReconnects(s: ClientState)
    requires s.socket.Some? && s.closeLs == [OnConnectionLost] && s.hasRhizome
    ensures var r := SocketClosed(s);
      && !r.thrown && r.s.log == s.log + [ConnectionLost] && r.s.statusLs == []
      && r.s.socket == Some(Closed) && r.s.closeLs == []
      && (r.s.reconnects == s.reconnects + 1 <==> s.config.reconnect != 0)
      && (r.s.reconnects == s.reconnects <==> s.config.reconnect == 0)
  {
    EmitOne(s.(socket := Some(Closed), closeLs := []), CallClose(OnConnectionLost));
  }

  /**
   * A reconnect that fails before the socket opens schedules the next one, with
   * nothing emitted: the number of pending reconnects is back where it was.
   */
  lemma FailedReconnectReschedules(s: ClientState, userListens: bool)
    requires s.reconnects > 0
    ensures var r := SocketErrored(ReconnectFires(s), userListens);
      && !r.thrown && r.s.reconnects == s.reconnects && r.s.log == s.log
      && r.s.socket == Some(Connecting) && r.s.openLs == [] && r.s.errorLs == []
  {
    ErrorBeforeOpen(s.(reconnects := s.reconnects - 1), FromReconnect, userListens);
  }

  /** A reconnect that opens and is accepted emits 'connected' and nothing else. */
  lemma ReconnectSucceeds(s: ClientState, id: string)
    requires s.reconnects > 0 && s.hasRhizome && s.statusLs == []
    ensures var o := SocketOpen(ReconnectFires(s));
      var r := ConnectionStatus(o.s, 0, id);
      && !o.thrown && !r.thrown && r.s.log == s.log + [Connected]
      && r.s.id == Some(id) && StatusOf(r.s) == Started && r.s.reconnects + 1 == s.reconnects
  {
    ErrorAfterOpen(ReconnectFires(s), FromReconnect, false);
    var o := SocketOpen(ReconnectFires(s)).s;
    assert o.statusLs == [FromReconnect];
    Accepted(o, FromReconnect, id);
  }

  // ----------------------------------------------------------------------------------
  // Start

  /**
   * `start` with a `done` where `WebSocket` exists but its `CLOSING` is not 2: `done`
   * gets the error, and since nothing returns after it, the client goes on and connects
   * all the same.
   */
  lemma UnsupportedFallsThrough(s: ClientState, isBrowser: bool, cookieId: Option<string>)
    requires s.socket.None? && 0 <= s.config.port <= 65535
    ensures var r := Start(s, OtherWebSocket, true, isBrowser, cookieId);
      && !r.thrown && r.s.log == s.log + [StartDone(Some(Unsupported))]
      && r.s.socket == Some(Connecting) && r.s.openLs == [FromStart(true)]
  {
  }

  /**
   * `start` with a `done` where there is no `WebSocket` at all: `done` gets the error,
   * the client falls through the same way, and `_connect` throws at `new WebSocket`. No
   * socket is made, but the rhizome emitter has been created by then.
   */
  lemma NoWebSocketThrows(s: ClientState, isBrowser: bool, cookieId: Option<string>)
    requires s.socket.None? && 0 <= s.config.port <= 65535
    ensures var r := Start(s, NoWebSocket, true, isBrowser, cookieId);
      && r.thrown && r.s.log == s.log + [StartDone(Some(Unsupported)), Threw(NoConstructor)]
      && r.s.socket.None? && r.s.hasRhizome && r.s.statusLs == []
      && r.s.openLs == s.openLs && r.s.errorLs == s.errorLs && r.s.closeLs == s.closeLs
  {
  }

  /** An invalid configuration goes to `done`, or is thrown when there is none; no socket is made. */
  lemma StartInvalidConfig(s: ClientState, hasDone: bool, isBrowser: bool, cookieId: Option<string>)
    requires s.socket.None? && !(0 <= s.config.port <= 65535)
    ensures var r := Start(s, Supported, hasDone, isBrowser, cookieId);
      && r.s.socket.None? && r.thrown == !hasDone
      && r.s.log == s.log + [if hasDone then StartDone(Some(InvalidConfig("port"))) else Threw(NoDoneCallback)]
  {
  }

  /**
   * A supported `start` with a valid configuration drops whatever the previous socket
   * had armed and starts a fresh attempt: a connecting socket with only the attempt's
   * open and error handlers, a fresh rhizome emitter, and the cookie's id in a browser.
   */
  lemma StartConnects(s: ClientState, hasDone: bool, isBrowser: bool, cookieId: Option<string>)
    requires 0 <= s.config.port <= 65535
    ensures var r := Start(s, Supported, hasDone, isBrowser, cookieId);
      && !r.thrown && r.s.socket == Some(Connecting) && r.s.hasRhizome
      && r.s.openLs == [FromStart(hasDone)] && r.s.errorLs == [FailConnect(FromStart(hasDone))]
      && r.s.closeLs == [] && r.s.statusLs == [] && r.s.log == s.log
      && r.s.id == (if isBrowser then cookieId else if s.socket.Some? then None else s.id)
      && r.s.config == s.config && r.s.reconnects == s.reconnects
  {
  }

  /**
   * The whole handshake of `start(done)` when the server is full and the client queues:
   * open, 'queued', then accepted; `done()` is called once, after 'queued', and
   * 'connected' follows it.
   */
  lemma QueuedThenAccepted(s: ClientState, id: string)
    requires s.socket.None? && 0 <= s.config.port <= 65535 && s.config.queueIfFull
    ensures var st := Start(s, Supported, true, false, None).s;
      var o := SocketOpen(st).s;
      var q := ConnectionStatus(o, 1, "full").s;
      var r := ConnectionStatus(q, 0, id);
      && !r.thrown && r.s.log == s.log + [Queued, StartDone(None), Connected]
      && StatusOf(r.s) == Started
  {
    StartConnects(s, true, false, None);
    var st := Start(s, Supported, true, false, None).s;
    ErrorAfterOpen(st, FromStart(true), false);
    var o := SocketOpen(st).s;
    QueuedWhenFull(o, FromStart(true), "full");
    var q := ConnectionStatus(o, 1, "full").s;
    Accepted(q, FromStart(true), id);
  }

  /**
   * A fresh client that connects, is accepted and is then stopped: `done()`,
   * 'connected', and `done(null)` once the socket has closed; no reconnect is pending.
   */
  lemma ConnectedThenStopped(config: Config, id: string)
    requires 0 <= config.port <= 65535
    ensures var st := Start(Initial(config), Supported, true, false, None).s;
      var o := SocketOpen(st).s;
      var a := ConnectionStatus(o, 0, id).s;
      var c := SocketClosed(Stop(a, true).s);
      && !c.thrown && c.s.log == [StartDone(None), Connected, StopDone]
      && StatusOf(c.s) == Stopped && c.s.reconnects == 0
  {
    var s := Initial(config);
    StartConnects(s, true, false, None);
    var st := Start(s, Supported, true, false, None).s;
    ErrorAfterOpen(st, FromStart(true), false);
    var o := SocketOpen(st).s;
    Accepted(o, FromStart(true), id);
    StopOpen(ConnectionStatus(o, 0, id).s, true);
  }

  /**
   * `stop` while the socket is still connecting cleans at once. When that socket's close
   * event comes, its handler finds no emitter and throws; the client stays without a
   * socket, so a later `send` still fails.
   */
  lemma StopWhileConnecting(s: ClientState, hasDone: bool, address: string,
                            checkAddress: string -> Option<string>, checkArgs: seq<Arg> -> Option<string>)
    requires s.socket == Some(Connecting)
    ensures var st := Stop(s, hasDone).s;
      var c := SocketClosed(st);
      && c.thrown && c.s.socket.None? && c.s.log == s.log + (if hasDone then [StopDone] else []) + [Threw(NoSocket)]
      && Send(c.s, address, None, checkAddress, checkArgs).Err?
  {
  }

  /**
   * `stop` does not cancel a reconnect that is already scheduled: after the connection
   * is lost and the client stopped, the reconnect timer still fires and opens a socket,
   * and its open handler throws on the rhizome emitter that `stop` cleared.
   */
  lemma ReconnectAfterStop(s: ClientState)
    requires s.socket == Some(Open) && s.hasRhizome && s.closeLs == [OnConnectionLost]
    requires s.config.reconnect != 0
    ensures var lost := SocketClosed(s).s;
      var stopped := Stop(lost, true).s;
      && stopped.reconnects > 0 && stopped.socket.None?
      && var o := SocketOpen(ReconnectFires(stopped));
      && o.thrown && o.s.log == stopped.log + [Threw(NoRhizomeEmitter)]
  {
    ConnectionLostReconnects(s);
    var lost := SocketClosed(s).s;
    var stopped := Stop(lost, true).s;
    var f := ReconnectFires(stopped);
    assert OpenCalls(f.openLs) == [CallOpen(FromReconnect)];
    EmitOne(f.(socket := Some(Open), openLs := []), CallOpen(FromReconnect));
  }

  // ----------------------------------------------------------------------------------
  // Send and status

  /**
   * `send`: the arguments default to `[]`; each ArrayBuffer becomes a byte buffer with
   * the same bytes and every other argument is kept; a message is written only when
   * the address and the converted arguments are valid, and validation comes first.
   */
  lemma SendWrites(s: ClientState, address: string, args: Option<seq<Arg>>,
                   checkAddress: string -> Option<string>, checkArgs: seq<Arg> -> Option<string>)
    ensures var out := Send(s, address, args, checkAddress, checkArgs);
      var given := if args.Some? then args.value else [];
      && (out.Ok? <==> checkAddress(address).None? && checkArgs(ConvertAll(given)).None? && s.socket.Some?)
      && (checkAddress(address).Some? ==> out == Err(InvalidMessage(checkAddress(address).value)))
      && (out.Ok? ==> out.value.address == address && |out.value.args| == |given|)
      && (out.Ok? ==> forall i :: 0 <= i < |given| ==>
            && !out.value.args[i].ArrayBuffer?
            && (given[i].ArrayBuffer? ==> out.value.args[i] == Blob(given[i].raw))
            && (!given[i].ArrayBuffer? ==> out.value.args[i] == given[i]))
      && (args.None? && out.Ok? ==> out.value.args == [])
      && (out.Err? ==> AfterSend(s, out).outbox == s.outbox)
  {
  }

  /** `status()` says stopped while the socket is open but the server has not given an id. */
  lemma OpenWithoutIdIsStopped(s: ClientState)
    requires s.socket == Some(Open) && s.id.None?
    ensures StatusOf(s) == Stopped
  {
  }
}
