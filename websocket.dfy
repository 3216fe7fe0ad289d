/** The browser-side connection manager (`WebSocketService`): one socket,
    the reconnect policy, the outbound `send`, and a registry of message
    handlers keyed by message type.

    Socket events (open, message, close) and the firing of a reconnect
    timer are explicit method calls; handlers are identified by number, and
    the registry records which were invoked with which payload. A handler
    that throws is modelled by the `throwing` set passed to each dispatch:
    the `forEach` stops at the first such handler. */
module WebSocket {
  import opened Wrappers

  /** `maxReconnectAttempts` and `reconnectTimeout` (milliseconds). */
  const MaxReconnectAttempts: nat := 10
  const ReconnectTimeoutMs: nat := 3000

  /** Close codes of section 7.4.1 of RFC 6455 that stop reconnection:
      protocol error, abnormal closure, policy violation. */
  const ProtocolError: int := 1002
  const AbnormalClosure: int := 1006
  const PolicyViolation: int := 1008

  /** The `readyState` of a browser WebSocket. */
  datatype ReadyState = Connecting | Open | Closing | Closed

  /** The `ws` field: no socket (null) or the current socket's state. */
  datatype Socket = NoSocket | Live(state: ReadyState)

  /** A registered callback, by identity. */
  type HandlerId = nat

  /** A message payload: absent (`undefined`) or a JSON value, kept as text. */
  datatype Payload = NoPayload | Json(text: string)

  /** A protocol message `{type, payload}`. */
  datatype Message = Message(msgType: string, payload: Payload)

  /** An inbound socket frame: a text frame with the outcome of
      `JSON.parse` (None when it throws), or a binary frame. */
  datatype Frame = Text(parsed: Option<Message>) | Binary

  /** One invocation of a handler with a payload. */
  datatype Call = Call(handler: HandlerId, payload: Payload)

  /** The close codes after which the service gives up reconnecting. */
  predicate StopsReconnect(code: int) {
    code == AbnormalClosure || code == PolicyViolation || code == ProtocolError
  }

  /** The invocations of `handlers`, in order, all with `payload`. */
  function CallsOf(handlers: seq<HandlerId>, payload: Payload): (r: seq<Call>)
    ensures |r| == |handlers|
    ensures forall j :: 0 <= j < |r| ==> r[j] == Call(handlers[j], payload)
  {
    seq(|handlers|, j requires 0 <= j < |handlers| => Call(handlers[j], payload))
  }

  /** The number of handlers `forEach` reaches before one throws: the index
      of the first throwing handler, or all of them. */
  function Reached(handlers: seq<HandlerId>, throwing: set<HandlerId>): (k: nat)
    ensures k <= |handlers|
    ensures forall j :: 0 <= j < k ==> handlers[j] !in throwing
    ensures k < |handlers| ==> handlers[k] in throwing
    decreases |handlers|
  {
    if handlers == [] || handlers[0] in throwing then 0
    else 1 + Reached(handlers[1..], throwing)
  }

  /** The invocations `handlers.forEach(h => h(payload))` makes: every
      handler up to and including the first one that throws. */
  function Dispatched(handlers: seq<HandlerId>, payload: Payload, throwing: set<HandlerId>): seq<Call> {
    var k := Reached(handlers, throwing);
    CallsOf(handlers[..if k < |handlers| then k + 1 else k], payload)
  }

  /** When no handler throws, every handler is called once, in
      registration order, with the payload; otherwise the handlers after the
      first throwing one are not called at all. */
  lemma DispatchedOrder(handlers: seq<HandlerId>, payload: Payload, throwing: set<HandlerId>)
    ensures (forall j :: 0 <= j < |handlers| ==> handlers[j] !in throwing) ==>
      Dispatched(handlers, payload, throwing) == CallsOf(handlers, payload)
    ensures forall j :: 0 <= j < |handlers| && handlers[j] in throwing ==>
      |Dispatched(handlers, payload, throwing)| <= j + 1
  {
    var k := Reached(handlers, throwing);
    if forall j :: 0 <= j < |handlers| ==> handlers[j] !in throwing {
      assert k == |handlers|;
      assert handlers[..k] == handlers;
    }
  }

  /** The position of the first occurrence of `h` (`indexOf`), or -1. */
  function IndexOf(s: seq<HandlerId>, h: HandlerId): (i: int)
    ensures -1 <= i < |s|
    ensures i == -1 <==> h !in s
    ensures i >= 0 ==> s[i] == h && forall j :: 0 <= j < i ==> s[j] != h
    decreases |s|
  {
    if s == [] then -1
    else if s[0] == h then 0
    else
      var i := IndexOf(s[1..], h);
      if i == -1 then -1 else i + 1
  }

  /** `off`'s edit of one handler list: `splice(indexOf(h), 1)` when `h` is
      registered, no change otherwise. */
  function RemoveFirst(s: seq<HandlerId>, h: HandlerId): (r: seq<HandlerId>)
    ensures h !in s ==> r == s
    ensures h in s ==> |r| == |s| - 1
    ensures multiset(r) == multiset(s) - multiset{h}
  {
    var i := IndexOf(s, h);
    if i < 0 then s
    else
      assert s == s[..i] + [h] + s[i + 1..];
      s[..i] + s[i + 1..]
  }

  /** Removing the first occurrence keeps every other handler in its order:
      the part before it is unchanged, the part after it moves up by one. */
  lemma {:induction false} RemoveFirstKeepsOrder(s: seq<HandlerId>, h: HandlerId)
    requires h in s
    ensures var i := IndexOf(s, h); var r := RemoveFirst(s, h);
      && (forall j :: 0 <= j < i ==> r[j] == s[j])
      && (forall j :: i <= j < |r| ==> r[j] == s[j + 1])
  {
    var i := IndexOf(s, h);
    var r := RemoveFirst(s, h);
    assert r == s[..i] + s[i + 1..];
    assert forall j :: i <= j < |r| ==> r[j] == s[i + 1..][j - i];
  }

  class WebSocketService {
    /** `ws`: the current socket, if any. */
    var ws: Socket
    var reconnectAttempts: nat
    var shouldReconnect: bool
    /** `messageHandlers`: the handler list of each type, in registration order. */
    var messageHandlers: map<string, seq<HandlerId>>
    /** Reconnect timers scheduled by `onclose` that have not fired yet. */
    var pendingTimers: nat
    /** Every message written to a socket, in order. */
    var sent: seq<Message>
    /** Every handler invocation, in order. */
    var calls: seq<Call>

    /** A fresh service: no socket, reconnection allowed, no handlers. */
    constructor ()
      ensures ws == NoSocket && reconnectAttempts == 0 && shouldReconnect
      ensures messageHandlers == map[] && pendingTimers == 0
      ensures sent == [] && calls == []
    {
      ws := NoSocket;
      reconnectAttempts := 0;
      shouldReconnect := true;
      messageHandlers := map[];
      pendingTimers := 0;
      sent := [];
      calls := [];
    }

    /** The handlers of type `t` (`messageHandlers.get(t) || []`). */
    function HandlersFor(t: string): seq<HandlerId>
      reads this
    {
      if t in messageHandlers then messageHandlers[t] else []
    }

    /** `isConnected()`: the current socket is open. */
    function IsConnected(): (r: bool)
      reads this
      ensures r <==> ws.Live? && ws.state == Open
    {
      ws == Live(Open)
    }

    /** `connect()`: nothing while a socket is connecting or open; otherwise
        re-enables reconnection, resets the attempt counter and opens a new
        socket. */
    method Connect()
      modifies this
      ensures old(ws) == Live(Open) || old(ws) == Live(Connecting) ==>
        ws == old(ws) && shouldReconnect == old(shouldReconnect)
        && reconnectAttempts == old(reconnectAttempts)
      ensures old(ws) != Live(Open) && old(ws) != Live(Connecting) ==>
        ws == Live(Connecting) && shouldReconnect && reconnectAttempts == 0
      ensures messageHandlers == old(messageHandlers) && pendingTimers == old(pendingTimers)
      ensures sent == old(sent) && calls == old(calls)
    {
      if ws == Live(Open) || ws == Live(Connecting) {
        return;
      }
      shouldReconnect := true;
      reconnectAttempts := 0;
      ws := Live(Connecting);
    }

    /** `trigger(t, payload)`: runs the handlers of `t` in order with the
        payload; a throwing handler ends the loop and the exception escapes
        (`threw`). */
    method Trigger(t: string, payload: Payload, throwing: set<HandlerId>) returns (threw: bool)
      modifies this
      ensures calls == old(calls) + Dispatched(HandlersFor(t), payload, throwing)
      ensures threw <==> exists j :: 0 <= j < |HandlersFor(t)| && HandlersFor(t)[j] in throwing
      ensures ws == old(ws) && reconnectAttempts == old(reconnectAttempts)
      ensures shouldReconnect == old(shouldReconnect) && pendingTimers == old(pendingTimers)
      ensures messageHandlers == old(messageHandlers) && sent == old(sent)
    {
      var handlers := HandlersFor(t);
      ghost var k := Reached(handlers, throwing);
      var i := 0;
      threw := false;
      while i < |handlers|
        invariant 0 <= i <= k
        invariant !threw
        invariant calls == old(calls) + CallsOf(handlers[..i], payload)
        invariant ws == old(ws) && reconnectAttempts == old(reconnectAttempts)
        invariant shouldReconnect == old(shouldReconnect) && pendingTimers == old(pendingTimers)
        invariant messageHandlers == old(messageHandlers) && sent == old(sent)
      {
        assert handlers[..i + 1] == handlers[..i] + [handlers[i]];
        calls := calls + [Call(handlers[i], payload)];
        if handlers[i] in throwing {
          threw := true;
          assert i == k;
          return;
        }
        i := i + 1;
      }
      assert handlers[..i] == handlers;
    }

    /** `handleMessage(message)`: dispatch to the handlers of its type. */
    method HandleMessage(message: Message, throwing: set<HandlerId>) returns (threw: bool)
      modifies this
      ensures calls == old(calls) + Dispatched(HandlersFor(message.msgType), message.payload, throwing)
      ensures ws == old(ws) && reconnectAttempts == old(reconnectAttempts)
      ensures shouldReconnect == old(shouldReconnect) && pendingTimers == old(pendingTimers)
      ensures messageHandlers == old(messageHandlers) && sent == old(sent)
    {
      threw := Trigger(message.msgType, message.payload, throwing);
    }

    /** `onopen`: the handshake of the connecting socket completed; resets
        the attempt counter and fires the 'open' handlers. */
    method OnOpen(throwing: set<HandlerId>)
      requires ws == Live(Connecting)
      modifies this
      ensures ws == Live(Open) && reconnectAttempts == 0
      ensures calls == old(calls) + Dispatched(HandlersFor("open"), NoPayload, throwing)
      ensures shouldReconnect == old(shouldReconnect) && pendingTimers == old(pendingTimers)
      ensures messageHandlers == old(messageHandlers) && sent == old(sent)
    {
      ws := Live(Open);
      reconnectAttempts := 0;
      var _ := Trigger("open", NoPayload, throwing);
    }

    /** The browser starts the closing handshake of the current socket. */
    method OnClosing()
      requires ws.Live?
      modifies this
      ensures ws == Live(Closing)
      ensures reconnectAttempts == old(reconnectAttempts) && shouldReconnect == old(shouldReconnect)
      ensures messageHandlers == old(messageHandlers) && pendingTimers == old(pendingTimers)
      ensures sent == old(sent) && calls == old(calls)
    {
      ws := Live(Closing);
    }

    /** `onmessage`: a text frame that parses is dispatched by type (an
        exception from a handler is caught and logged); a frame that does
        not parse and a binary frame dispatch nothing. The connection state
        is never touched. */
    method OnMessage(frame: Frame, throwing: set<HandlerId>)
      modifies this
      ensures frame.Text? && frame.parsed.Some? ==>
        calls == old(calls) + Dispatched(HandlersFor(frame.parsed.value.msgType),
                                         frame.parsed.value.payload, throwing)
      ensures !(frame.Text? && frame.parsed.Some?) ==> calls == old(calls)
      ensures ws == old(ws) && reconnectAttempts == old(reconnectAttempts)
      ensures shouldReconnect == old(shouldReconnect) && pendingTimers == old(pendingTimers)
      ensures messageHandlers == old(messageHandlers) && sent == old(sent)
    {
      match frame
      case Text(Some(message)) =>
        var _ := HandleMessage(message, throwing);
      case Text(None) =>
      case Binary =>
    }

    /** `onclose(code)`: forgets the socket, gives up reconnecting for codes
        1002, 1006 and 1008, fires the 'close' handlers, and then schedules
        one reconnect timer if reconnection is still wanted and fewer than
        ten attempts were counted. A throwing 'close' handler aborts the
        handler before the timer is scheduled. */
    method OnClose(code: int, throwing: set<HandlerId>) returns (scheduled: bool)
      modifies this
      ensures ws == NoSocket
      ensures shouldReconnect == (old(shouldReconnect) && !StopsReconnect(code))
      ensures calls == old(calls) + Dispatched(HandlersFor("close"), NoPayload, throwing)
      ensures scheduled <==>
        (forall j :: 0 <= j < |HandlersFor("close")| ==> HandlersFor("close")[j] !in throwing)
        && shouldReconnect && reconnectAttempts < MaxReconnectAttempts
      ensures pendingTimers == old(pendingTimers) + (if scheduled then 1 else 0)
      ensures reconnectAttempts == old(reconnectAttempts)
      ensures messageHandlers == old(messageHandlers) && sent == old(sent)
    {
      ws := NoSocket;
      if code == AbnormalClosure || code == PolicyViolation || code == ProtocolError {
        shouldReconnect := false;
      }
      var threw := Trigger("close", NoPayload, throwing);
      scheduled := false;
      if threw {
        return;
      }
      if shouldReconnect && reconnectAttempts < MaxReconnectAttempts {
        pendingTimers := pendingTimers + 1;
        scheduled := true;
      }
    }

    /** A reconnect timer fires after `ReconnectTimeoutMs`: it counts the
        attempt and calls `connect()`, which resets the count again unless a
        socket is already connecting or open. */
    method FireReconnectTimer()
      requires pendingTimers > 0
      modifies this
      ensures pendingTimers == old(pendingTimers) - 1
      ensures old(ws) == Live(Open) || old(ws) == Live(Connecting) ==>
        ws == old(ws) && reconnectAttempts == old(reconnectAttempts) + 1
        && shouldReconnect == old(shouldReconnect)
      ensures old(ws) != Live(Open) && old(ws) != Live(Connecting) ==>
        ws == Live(Connecting) && reconnectAttempts == 0 && shouldReconnect
      ensures messageHandlers == old(messageHandlers) && sent == old(sent) && calls == old(calls)
    {
      pendingTimers := pendingTimers - 1;
      reconnectAttempts := reconnectAttempts + 1;
      Connect();
    }

    /** `on(t, h)`: appends `h` to the handlers of `t`. */
    method On(t: string, h: HandlerId)
      modifies this
      ensures messageHandlers == old(messageHandlers)[t := old(HandlersFor(t)) + [h]]
      ensures ws == old(ws) && reconnectAttempts == old(reconnectAttempts)
      ensures shouldReconnect == old(shouldReconnect) && pendingTimers == old(pendingTimers)
      ensures sent == old(sent) && calls == old(calls)
    {
      if t !in messageHandlers {
        messageHandlers := messageHandlers[t := []];
      }
      messageHandlers := messageHandlers[t := messageHandlers[t] + [h]];
    }

    /** `off(t, h)`: removes the first registration of `h` under `t`; no
        change when `h` is not registered there. */
    method Off(t: string, h: HandlerId)
      modifies this
      ensures h !in old(HandlersFor(t)) ==> messageHandlers == old(messageHandlers)
      ensures h in old(HandlersFor(t)) ==>
        messageHandlers == old(messageHandlers)[t := RemoveFirst(old(HandlersFor(t)), h)]
      ensures ws == old(ws) && reconnectAttempts == old(reconnectAttempts)
      ensures shouldReconnect == old(shouldReconnect) && pendingTimers == old(pendingTimers)
      ensures sent == old(sent) && calls == old(calls)
    {
      var handlers := HandlersFor(t);
      var index := IndexOf(handlers, h);
      if index > -1 {
        messageHandlers := messageHandlers[t := handlers[..index] + handlers[index + 1..]];
      }
    }

    /** `send(t, payload)`: writes `{type, payload}` when the socket is
        open; otherwise nothing is sent or queued. */
    method Send(t: string, payload: Payload)
      modifies this
      ensures sent == old(sent) + (if old(IsConnected()) then [Message(t, payload)] else [])
      ensures ws == old(ws) && reconnectAttempts == old(reconnectAttempts)
      ensures shouldReconnect == old(shouldReconnect) && pendingTimers == old(pendingTimers)
      ensures messageHandlers == old(messageHandlers) && calls == old(calls)
    {
      if ws == Live(Open) {
        sent := sent + [Message(t, payload)];
      }
    }

    /** `disconnect()`: stops reconnection and closes and forgets the
        socket. Timers already scheduled are not cancelled. */
    method Disconnect()
      modifies this
      ensures !shouldReconnect && ws == NoSocket
      ensures reconnectAttempts == old(reconnectAttempts) && pendingTimers == old(pendingTimers)
      ensures messageHandlers == old(messageHandlers) && sent == old(sent) && calls == old(calls)
    {
      shouldReconnect := false;
      if ws.Live? {
        ws := NoSocket;
      }
    }

    /** `reconnectAfterAuth()`: nothing when open; otherwise re-enables
        reconnection, resets the counter and calls `connect()` (which does
        nothing more when a socket is still connecting). */
    method ReconnectAfterAuth()
      modifies this
      ensures old(IsConnected()) ==>
        ws == old(ws) && shouldReconnect == old(shouldReconnect)
        && reconnectAttempts == old(reconnectAttempts)
      ensures !old(IsConnected()) ==>
        ws == Live(Connecting) && shouldReconnect && reconnectAttempts == 0
      ensures messageHandlers == old(messageHandlers) && pendingTimers == old(pendingTimers)
      ensures sent == old(sent) && calls == old(calls)
    {
      if !IsConnected() {
        shouldReconnect := true;
        reconnectAttempts := 0;
        Connect();
      }
    }
  }

  /** A policy-violation close of an open connection stops reconnection
      for good: no timer is scheduled, and later closes schedule none
      either until `connect()` is called again. */
  method PolicyViolationScenario() returns (scheduled: bool, stillStopped: bool)
    ensures !scheduled && stillStopped
  {
    var service := new WebSocketService();
    service.Connect();
    service.OnOpen({});
    scheduled := service.OnClose(PolicyViolation, {});
    assert service.pendingTimers == 0;
    var again := service.OnClose(1000, {});
    stillStopped := !again && !service.shouldReconnect && service.pendingTimers == 0;
  }

  /** The attempt cap is never reached on the timer path: the timer counts
      the attempt, but the `connect()` it calls resets the counter, so
      after `n` failed reconnects (each socket closing with code 1000
      before it opens) a new timer is scheduled every time. */
  method ReconnectCycles(n: nat) returns (scheduledTimers: nat)
    ensures scheduledTimers == n
  {
    var service := new WebSocketService();
    service.Connect();
    scheduledTimers := 0;
    var i := 0;
    while i < n
      invariant 0 <= i <= n
      invariant scheduledTimers == i
      invariant service.ws == Live(Connecting)
      invariant service.reconnectAttempts == 0 && service.shouldReconnect
      invariant service.pendingTimers == 0
      invariant service.messageHandlers == map[]
    {
      var scheduled := service.OnClose(1000, {});
      if scheduled {
        scheduledTimers := scheduledTimers + 1;
      }
      service.FireReconnectTimer();
      i := i + 1;
    }
  }
}
