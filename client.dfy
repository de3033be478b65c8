/**
 * The websocket client as an object whose handlers update its fields in place. Every
 * method is proved to do what the matching function of `ClientModel` says, and the
 * public ones to keep the invariant `ClientProps.Inv`.
 */
module WebSocketClient {
  import opened Results
  import opened Messages
  import opened ClientModel
  import ClientProps

  class Client {
    var config: Config
    var socket: Option<ReadyState>
    var id: Option<string>
    var hasRhizome: bool
    var openLs: seq<Attempt>
    var errorLs: seq<ErrorListener>
    var closeLs: seq<CloseListener>
    var statusLs: seq<Attempt>
    var reconnects: nat
    var log: seq<Event>
    var outbox: seq<Message>

    /** The client's fields as a value of the model. */
    function State(): ClientState
      reads this
    {
      ClientState(config, socket, id, hasRhizome, openLs, errorLs, closeLs, statusLs, reconnects, log, outbox)
    }

    /** A client for the configuration `u`, with the defaults filled in. */
    constructor(u: UserConfig)
      ensures State() == Initial(WithDefaults(u)) && ClientProps.Inv(State())
    {
      config := WithDefaults(u);
      socket := None;
      id := None;
      hasRhizome := false;
      openLs, errorLs, closeLs, statusLs := [], [], [], [];
      reconnects := 0;
      log, outbox := [], [];
    }

    /** `status()`. */
    function Status(): (r: Status)
      reads this
      ensures r == Started <==> socket == Some(Open) && id.Some?
    {
      StatusOf(State())
    }

    // --------------------------------------------------------------------------------
    // Handlers

    method Note(e: Event)
      modifies this
      ensures State() == ClientModel.Note(old(State()), e)
    {
      log := log + [e];
    }

    method Throw(f: Fault) returns (thrown: bool)
      modifies this
      ensures Run(State(), thrown) == ClientModel.Throw(old(State()), f)
    {
      Note(Threw(f));
      thrown := true;
    }

    /** The callback of connect attempt `a`, called with `err`. */
    method Complete(a: Attempt, err: Option<ConnectError>)
      modifies this
      ensures State() == ClientModel.Complete(old(State()), a, err)
    {
      match a
      case FromStart(hasDone) =>
        if hasDone {
          Note(StartDone(err));
        }
        if err.None? {
          Note(Connected);
        }
      case FromReconnect =>
        if err.Some? {
          reconnects := reconnects + 1;
        } else {
          Note(Connected);
        }
    }

    /** `_clean`. */
    method Clean() returns (thrown: bool)
      modifies this
      ensures Run(State(), thrown) == ClientModel.Clean(old(State()))
    {
      id := None;
      if socket.None? {
        thrown := Throw(NoSocket);
        return;
      }
      openLs, errorLs, closeLs := [], [], [];
      hasRhizome := false;
      statusLs := [];
      socket := None;
      thrown := false;
    }

    /** `_connect`. */
    method Connect(a: Attempt)
      modifies this
      ensures State() == ClientModel.Connect(old(State()), a)
    {
      socket := Some(Connecting);
      openLs := [a];
      errorLs := [FailConnect(a)];
      closeLs := [];
    }

    method OnOpen(a: Attempt) returns (thrown: bool)
      modifies this
      ensures Run(State(), thrown) == ClientModel.OnOpen(old(State()), a)
    {
      errorLs := [RouteError];
      if !hasRhizome {
        thrown := Throw(NoRhizomeEmitter);
        return;
      }
      statusLs := statusLs + [a];
      thrown := false;
    }

    /** `_doRhizomeConnection`. */
    method OnStatus(a: Attempt, status: int, payload: string) returns (thrown: bool)
      modifies this
      ensures Run(State(), thrown) == ClientModel.OnStatus(old(State()), a, status, payload)
    {
      thrown := false;
      if status == 0 {
        id := Some(payload);
        closeLs := closeLs + [OnConnectionLost];
        Complete(a, None);
      } else if status == 1 {
        if config.queueIfFull {
          Note(Queued);
          statusLs := statusLs + [a];
        } else {
          closeLs := closeLs + [FailOnClose(a, payload)];
          if socket.None? {
            thrown := Throw(NoSocket);
          } else {
            socket := Some(AfterClose(socket.value));
          }
        }
      }
    }

    /** `_onConnectionLost`. */
    method OnLost() returns (thrown: bool)
      modifies this
      ensures Run(State(), thrown) == ClientModel.OnLost(old(State()))
    {
      Note(ConnectionLost);
      if !hasRhizome {
        thrown := Throw(NoRhizomeEmitter);
        return;
      }
      statusLs := [];
      if config.reconnect != 0 {
        reconnects := reconnects + 1;
      }
      thrown := false;
    }

    method Invoke(c: Call) returns (thrown: bool)
      modifies this
      ensures Run(State(), thrown) == ClientModel.Invoke(old(State()), c)
    {
      match c
      case CallOpen(a) =>
        thrown := OnOpen(a);
      case CallError(FailConnect(a), _) =>
        openLs := [];
        Complete(a, Some(ConnectError.SocketError));
        thrown := false;
      case CallError(RouteError, userListens) =>
        if userListens {
          Note(ErrorEmitted);
        }
        thrown := Throw(NoErrorValue);
      case CallClose(OnConnectionLost) =>
        thrown := OnLost();
      case CallClose(FailOnClose(a, reason)) =>
        Complete(a, Some(Refused(reason)));
        thrown := false;
      case CallClose(FinishStop(hasDone)) =>
        thrown := Clean();
        if !thrown && hasDone {
          Note(StopDone);
        }
      case CallStatus(a, status, payload) =>
        thrown := OnStatus(a, status, payload);
    }

    /** Calls the listeners `cs` in order until one throws. */
    method Emit(cs: seq<Call>) returns (thrown: bool)
      modifies this
      ensures Run(State(), thrown) == ClientModel.Emit(old(State()), cs)
    {
      thrown := false;
      var i := 0;
      while i < |cs| && !thrown
        invariant 0 <= i <= |cs|
        invariant Run(State(), thrown) == ClientModel.Emit(old(State()), cs[..i])
      {
        ClientProps.EmitStep(old(State()), cs, i);
        thrown := Invoke(cs[i]);
        i := i + 1;
      }
      if thrown {
        ClientProps.EmitStops(old(State()), cs, i);
      } else {
        assert cs[..i] == cs;
      }
    }

    // --------------------------------------------------------------------------------
    // The public API

    /** `start(done)`. */
    method Start(env: Env, hasDone: bool, isBrowser: bool, cookieId: Option<string>) returns (thrown: bool)
      requires ClientProps.Inv(State())
      modifies this
      ensures Run(State(), thrown) == ClientModel.Start(old(State()), env, hasDone, isBrowser, cookieId)
      ensures ClientProps.Inv(State())
    {
      ClientProps.StartInv(State(), env, hasDone, isBrowser, cookieId);
      if env != Supported {
        if !hasDone {
          thrown := Throw(NotSupported);
          return;
        }
        Note(StartDone(Some(Unsupported)));
      }
      if socket.Some? {
        socket := Some(AfterClose(socket.value));
        var _ := Clean();
      }
      thrown := Validated(env, hasDone, isBrowser, cookieId);
    }

    /** The callback `start` hands to `_validateConfig`. */
    method Validated(env: Env, hasDone: bool, isBrowser: bool, cookieId: Option<string>) returns (thrown: bool)
      modifies this
      ensures Run(State(), thrown) == ClientModel.Validated(old(State()), env, hasDone, isBrowser, cookieId)
    {
      var err := ValidateConfig(config);
      if err.Some? {
        if hasDone {
          Note(StartDone(Some(InvalidConfig(err.value))));
          thrown := false;
        } else {
          thrown := Throw(NoDoneCallback);
        }
        return;
      }
      if isBrowser {
        id := cookieId;
      }
      hasRhizome := true;
      statusLs := [];
      if env == NoWebSocket {
        thrown := Throw(NoConstructor);
      } else {
        Connect(FromStart(hasDone));
        thrown := false;
      }
    }

    /** `stop(done)`. */
    method Stop(hasDone: bool) returns (thrown: bool)
      requires ClientProps.Inv(State())
      modifies this
      ensures Run(State(), thrown) == ClientModel.Stop(old(State()), hasDone)
      ensures ClientProps.Inv(State())
    {
      ClientProps.StopInv(State(), hasDone);
      thrown := false;
      if socket.None? {
        if hasDone {
          Note(StopDone);
        }
      } else if socket.value == Open {
        closeLs := RemoveLast(closeLs, OnConnectionLost);
        socket := Some(Closing);
        closeLs := closeLs + [FinishStop(hasDone)];
      } else {
        var _ := Clean();
        if hasDone {
          Note(StopDone);
        }
      }
    }

    /** `send(address, args)`: the message written to the socket, or what was thrown instead. */
    method Send(address: string, args: Option<seq<Arg>>,
                checkAddress: string -> Option<string>, checkArgs: seq<Arg> -> Option<string>)
      returns (out: Result<Message, Fault>)
      requires ClientProps.Inv(State())
      modifies this
      ensures out == ClientModel.Send(old(State()), address, args, checkAddress, checkArgs)
      ensures State() == AfterSend(old(State()), out)
      ensures ClientProps.Inv(State())
    {
      var given := if args.Some? then args.value else [];
      var converted: seq<Arg> := [];
      var i := 0;
      while i < |given|
        invariant 0 <= i <= |given|
        invariant converted == ConvertAll(given[..i])
      {
        converted := converted + [Convert(given[i])];
        i := i + 1;
      }
      assert given[..i] == given;
      if checkAddress(address).Some? {
        out := Err(InvalidMessage(checkAddress(address).value));
      } else if checkArgs(converted).Some? {
        out := Err(InvalidMessage(checkArgs(converted).value));
      } else if socket.None? {
        out := Err(NoSocket);
      } else {
        out := Ok(Message(address, converted));
      }
      if out.Ok? {
        outbox := outbox + [out.value];
      } else {
        Note(Threw(out.error));
      }
    }

    // --------------------------------------------------------------------------------
    // The socket's events and the reconnect timer

    method SocketOpen() returns (thrown: bool)
      requires ClientProps.Inv(State())
      modifies this
      ensures Run(State(), thrown) == ClientModel.SocketOpen(old(State()))
      ensures ClientProps.Inv(State())
    {
      ClientProps.SocketOpenInv(State());
      if socket.None? {
        thrown := Throw(NoSocket);
        return;
      }
      var cs := OpenCalls(openLs);
      socket := Some(Open);
      openLs := [];
      thrown := Emit(cs);
    }

    method SocketError(userListens: bool) returns (thrown: bool)
      requires ClientProps.Inv(State())
      modifies this
      ensures Run(State(), thrown) == ClientModel.SocketErrored(old(State()), userListens)
      ensures ClientProps.Inv(State())
    {
      ClientProps.SocketErroredInv(State(), userListens);
      if socket.None? {
        thrown := Throw(NoSocket);
        return;
      }
      if errorLs == [] {
        thrown := Throw(UnhandledError);
        return;
      }
      var cs := ErrorCalls(errorLs, userListens);
      errorLs := Persistent(errorLs);
      thrown := Emit(cs);
    }

    method SocketClose() returns (thrown: bool)
      requires ClientProps.Inv(State())
      modifies this
      ensures Run(State(), thrown) == ClientModel.SocketClosed(old(State()))
      ensures ClientProps.Inv(State())
    {
      ClientProps.SocketClosedInv(State());
      if socket.None? {
        thrown := Throw(NoSocket);
        return;
      }
      var cs := CloseCalls(closeLs);
      socket := Some(Closed);
      closeLs := [];
      thrown := Emit(cs);
    }

    /** `_onSocketMessage` for a message at the connection-status address. */
    method ConnectionStatus(status: int, payload: string) returns (thrown: bool)
      requires ClientProps.Inv(State())
      modifies this
      ensures Run(State(), thrown) == ClientModel.ConnectionStatus(old(State()), status, payload)
      ensures ClientProps.Inv(State())
    {
      ClientProps.ConnectionStatusInv(State(), status, payload);
      if socket.None? {
        thrown := Throw(NoSocket);
        return;
      }
      if !hasRhizome {
        thrown := Throw(NoRhizomeEmitter);
        return;
      }
      var cs := StatusCalls(statusLs, status, payload);
      statusLs := [];
      thrown := Emit(cs);
    }

    /** The timeout set by `_reconnect` fires. */
    method ReconnectTimerFires()
      requires ClientProps.Inv(State()) && reconnects > 0
      modifies this
      ensures State() == ReconnectFires(old(State()))
      ensures ClientProps.Inv(State())
    {
      ClientProps.ReconnectFiresInv(State());
      reconnects := reconnects - 1;
      Connect(FromReconnect);
    }
  }

  // ----------------------------------------------------------------------------------
  // Runs of a fresh client

  /**
   * A fresh client whose socket errors before it opens: `done` gets 'socket error', and
   * 'connected' is never emitted.
   */
  method SocketErrorRun(config: UserConfig) returns (seen: seq<Event>, status: Status)
    requires 0 <= config.port <= 65535
    ensures seen == [StartDone(Some(ConnectError.SocketError))] && status == Stopped
  {
    var c := new Client(config);
    var thrown := c.Start(Supported, true, false, None);
    ClientProps.ErrorBeforeOpen(c.State().(socket := None, openLs := [], errorLs := [], closeLs := []), FromStart(true), false);
    thrown := c.SocketError(false);
    seen, status := c.log, c.Status();
  }

  /**
   * A connected client that is stopped: `done(null)` comes once the socket has closed,
   * the client is stopped, and no reconnect is pending.
   */
  method StopRun(config: UserConfig, serverId: string) returns (seen: seq<Event>, status: Status, pending: nat)
    requires 0 <= config.port <= 65535
    ensures seen == [StartDone(None), Connected, StopDone] && status == Stopped && pending == 0
  {
    var c := new Client(config);
    ClientProps.ConnectedThenStopped(c.config, serverId);
    var thrown := c.Start(Supported, true, false, None);
    thrown := c.SocketOpen();
    thrown := c.ConnectionStatus(0, serverId);
    thrown := c.Stop(true);
    thrown := c.SocketClose();
    seen, status, pending := c.log, c.Status(), c.reconnects;
  }
}
