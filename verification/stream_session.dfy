/**
 * The live-stream connection of a replay session, as written twice in the
 * source: the details page's panel (src/components/sessions/SessionStreamPanel.tsx)
 * and the stand-alone hook (src/components/sessions/stream/useSessionStream.ts).
 * Both keep the same state and handle the same inputs; the differences are
 * named where they occur, through `Variant`.
 *
 * Component state, the socket and handler refs and the world of sockets
 * form one record. User actions, prop changes, unmounting and transport
 * events are inputs; a step returns the next record and what the component
 * emits (toasts, candles passed to the page, counter resets).
 */
module StreamSession {
  import opened Wrappers
  import opened JsValues
  import opened Text
  import opened WsEnvelope
  import opened WsRequest
  import opened Sockets

  datatype Variant = Panel | Hook

  /** ConnectionState. */
  datatype Conn = Idle | Connecting | Connected | Closed | Error

  datatype Output =
    | ErrorToast(text: string)
    | WarningToast(text: string)
    | KlineOut(kline: Kline)
    | CountersReset

  /** The props the component reads, and whether it is mounted. */
  datatype Props = Props(sessionId: string, enabled: bool, streams: string, mounted: bool)

  /** The component's React state. */
  datatype ViewState = ViewState(
    conn: Conn,
    isConnecting: bool,
    connections: Option<real>,
    consumedUrl: Option<string>,
    consumedQuery: Option<string>,
    activeStream: Option<string>,
    lastKline: Option<Kline>,
    closeMessage: Option<string>,
    errorMessage: Option<string>)

  /**
   * The refs: `socket` is socketRef, `handlers` names the socket whose
   * listeners handlersRef holds, `listened` the sockets that currently carry
   * the component's listeners, `closingManually` closingManuallyRef.
   */
  datatype Refs = Refs(socket: Option<nat>, handlers: Option<nat>, listened: set<nat>, closingManually: bool)

  datatype Stream = Stream(variant: Variant, props: Props, view: ViewState, refs: Refs, world: World)

  datatype Input =
    | Connect(construction: Construction)
    | Disconnect
    | SetEnabled(enabled: bool)
    | SetStreams(streams: string)
    | ChangeSession(sessionId: string)
    | Unmount
    | Transport(handle: nat, event: TransportEvent)

  const MsgClosed: string := "Conexión cerrada"
  const MsgClosedByUser: string := "Conexión cerrada por el usuario"
  const MsgSocketError: string := "Error en la conexión de WebSocket"
  const MsgConnectFailed: string := "No se pudo conectar al stream"
  const MsgBlankStreams: string := "Ingresá un stream válido"
  const MsgDisabled: string := "La sesión está deshabilitada"

  /** The component as first rendered. */
  function Mount(variant: Variant, sessionId: string, enabled: bool, streams: string, world: World): Stream {
    Stream(variant, Props(sessionId, enabled, streams, true),
           ViewState(Idle, false, None, None, None, None, None, None, None),
           Refs(None, None, {}, false), world)
  }

  /** The text of an abnormal close: the code, with the reason after " - " when there is one. */
  function InterruptedMessage(info: CloseInfo): string {
    var detail := if info.reason != "" then NatToString(info.code) + " - " + info.reason else NatToString(info.code);
    "Conexión interrumpida (" + detail + ")"
  }

  /** The warning toast; only the wording of the skipped count differs between the copies. */
  function WarningText(rt: Runtime, variant: Variant, stream: Option<string>, w: Warning): string {
    var streamLabel := if stream.Some? && stream.value != "" then " (" + stream.value + ")" else "";
    var noun := if variant == Panel then " — velas omitidas: " else " — eventos omitidos: ";
    var skipped := if w.skipped.Some? then noun + rt.numberToString(w.skipped.value) else "";
    "Aviso del stream" + streamLabel + ": " + w.kind + skipped
  }

  /** The ready state of the held socket, if any. */
  predicate HoldsLive(s: Stream) {
    s.refs.socket.Some? && IsLive(StateOf(s.world, s.refs.socket.value))
  }

  /** cleanupSocket: listeners come off the held socket when the handlers are its own; both refs are cleared. */
  function Cleanup(r: Refs): Refs {
    var listened := if r.socket.Some? && r.handlers == r.socket then r.listened - {r.socket.value} else r.listened;
    r.(socket := None, handlers := None, listened := listened)
  }

  /** resetRuntimeState, whose call to the page's reset is the emitted `CountersReset`. */
  function ResetRuntime(v: ViewState): ViewState {
    v.(connections := None, lastKline := None)
  }

  /** handleDisconnect / disconnect. The catch around `close(1000, …)` is unreachable: that call never throws. */
  function OnDisconnect(s: Stream): (Stream, seq<Output>) {
    match s.refs.socket
    case None =>
      var v := ResetRuntime(s.view).(conn := Closed, closeMessage := Some(MsgClosed), errorMessage := None);
      var v' := if s.variant == Hook then v.(activeStream := None, isConnecting := false) else v;
      (s.(view := v', refs := Cleanup(s.refs)), [CountersReset])
    case Some(k) =>
      if !IsLive(StateOf(s.world, k)) then (s, [])
      else (s.(refs := s.refs.(closingManually := true), world := Close(s.world, k)), [])
  }

  /** The view once a connect has passed its guards, before the socket is built. */
  function Starting(ep: Endpoint, s: Stream, t: string): ViewState {
    var req := BuildWsRequest(ep.base, ep.path, s.props.sessionId, t);
    ViewState(Connecting, true, None, Some(req.url), Some(req.query), Some(t), None, None, None)
  }

  /** The connect's catch: an error with the thrown message (the hook also forgets the stream). */
  function Failing(s: Stream, started: ViewState, msg: string): ViewState {
    var v := started.(isConnecting := false, conn := Error, errorMessage := Some(msg), closeMessage := None);
    if s.variant == Hook then v.(activeStream := None) else v
  }

  /** A connect's socket built: held, listened to, with the next handle, and the manual-close flag clear. */
  function Launch(s: Stream, started: ViewState): Stream {
    var k := |s.world|;
    Stream(s.variant, s.props, started, Refs(Some(k), Some(k), s.refs.listened + {k}, false), Construct(s.world))
  }

  /** handleConnect / connect. */
  function OnConnect(ep: Endpoint, s: Stream, c: Construction): (Stream, seq<Output>) {
    if s.view.isConnecting || s.view.conn == Connected || HoldsLive(s) then (s, [])
    else
      var t := Trim(s.props.streams);
      if t == "" then (s, [ErrorToast(MsgBlankStreams)])
      else if !s.props.enabled then (s, [ErrorToast(MsgDisabled)])
      else
        var started := Starting(ep, s, t);
        match c
        case Constructed => (Launch(s, started), [CountersReset])
        case Threw(m) =>
          var msg := m.OrElse(MsgConnectFailed);
          (s.(view := Failing(s, started, msg)), [CountersReset, CountersReset, ErrorToast(msg)])
  }

  /** The cleanup of the mount effect: close the held socket unless it is CLOSED, then clean up. */
  function Dispose(s: Stream): (r: Stream)
    ensures r.refs.socket.None? && r.view == s.view && r.props == s.props
  {
    if s.refs.socket.Some? && StateOf(s.world, s.refs.socket.value) != CLOSED then
      s.(refs := Cleanup(s.refs).(closingManually := true), world := Close(s.world, s.refs.socket.value))
    else s.(refs := Cleanup(s.refs))
  }

  /** The `enabled` prop changing; the effect disconnects when it turned false while a socket is held. */
  function OnSetEnabled(s: Stream, b: bool): (Stream, seq<Output>) {
    var s1 := s.(props := s.props.(enabled := b));
    if b == s.props.enabled then (s, [])
    else if !b && s.refs.socket.Some? then OnDisconnect(s1)
    else (s1, [])
  }

  /** A different session id re-runs the mount effect: its cleanup, then nothing else that acts. */
  function OnChangeSession(s: Stream, id: string): (Stream, seq<Output>) {
    if id == s.props.sessionId then (s, [])
    else
      var d := Dispose(s);
      (d.(props := d.props.(sessionId := id)), [])
  }

  /** handleOpen. */
  function OnOpen(v: ViewState): ViewState {
    v.(isConnecting := false, conn := Connected)
  }

  /** handleError. */
  function OnError(v: ViewState): ViewState {
    v.(isConnecting := false, conn := Error, errorMessage := Some(MsgSocketError))
  }

  /** handleClose: a normal close (1000) is `Closed`, any other code is `Error`. */
  function OnClose(s: Stream, info: CloseInfo): (Stream, seq<Output>) {
    var v := ResetRuntime(s.view).(isConnecting := false, activeStream := None);
    var refs := Cleanup(s.refs).(closingManually := false);
    if info.code == 1000 then
      var closed := v.(closeMessage := Some(if s.refs.closingManually then MsgClosedByUser else MsgClosed),
                       errorMessage := None, conn := Closed);
      (s.(view := closed, refs := refs), [CountersReset])
    else
      var m := InterruptedMessage(info);
      (s.(view := v.(errorMessage := Some(m), closeMessage := None, conn := Error), refs := refs),
       [CountersReset, ErrorToast(m)])
  }

  /** handleMessage. The hook has no branch for candles; the trade branch it has is never taken. */
  function OnMessage(rt: Runtime, s: Stream, data: WireData): (Stream, seq<Output>) {
    match ParseEventData(rt, data)
    case None => (s, [])
    case Some(env) =>
      match env.event
      case KlineEvent(k) =>
        if s.variant == Panel then (s.(view := s.view.(lastKline := Some(k))), [KlineOut(k)]) else (s, [])
      case StatsEvent(c) => (s.(view := s.view.(connections := Some(c))), [])
      case WarningEvent(w) => (s, [WarningToast(WarningText(rt, s.variant, env.stream, w))])
  }

  /** A transport event: the world advances; the handlers run when the socket carries the listeners. */
  function OnTransport(rt: Runtime, s: Stream, k: nat, e: TransportEvent): (Stream, seq<Output>) {
    if !Admissible(s.world, k, e) then (s, [])
    else
      var s1 := s.(world := Advance(s.world, k, e));
      if k !in s.refs.listened then (s1, [])
      else match e
        case Opened => (s1.(view := OnOpen(s1.view)), [])
        case ClosingHandshake => (s1, [])
        case Delivered(data) => OnMessage(rt, s1, data)
        case ConnectionClosed(info, failed) => OnClose(if failed then s1.(view := OnError(s1.view)) else s1, info)
  }

  /** One input. Once unmounted, only the transport still acts. */
  function Step(rt: Runtime, ep: Endpoint, s: Stream, i: Input): (Stream, seq<Output>) {
    if !s.props.mounted && !i.Transport? then (s, [])
    else match i
      case Connect(c) => OnConnect(ep, s, c)
      case Disconnect => OnDisconnect(s)
      case SetEnabled(b) => OnSetEnabled(s, b)
      case SetStreams(v) => (s.(props := s.props.(streams := v)), [])
      case ChangeSession(id) => OnChangeSession(s, id)
      case Unmount =>
        var d := Dispose(s);
        (d.(props := d.props.(mounted := false)), [])
      case Transport(k, e) => OnTransport(rt, s, k, e)
  }

  function Run(rt: Runtime, ep: Endpoint, s: Stream, inputs: seq<Input>): Stream
    decreases |inputs|
  {
    if |inputs| == 0 then s else Step(rt, ep, Run(rt, ep, s, inputs[..|inputs| - 1]), inputs[|inputs| - 1]).0
  }

  // Invariant.

  /** The held socket, if any, carries the listeners and is not CLOSED, and the view is connecting or connected. */
  predicate HeldSocketOk(s: Stream) {
    match s.refs.socket
    case None => s.refs.listened == {}
    case Some(k) =>
      k < |s.world| && s.world[k] != CLOSED && s.refs.handlers == s.refs.socket && s.refs.listened == {k}
      && (s.view.isConnecting || s.view.conn == Connected)
  }

  /** Only the held socket can be live. */
  predicate OnlyHeldLive(w: World, socket: Option<nat>) {
    forall j :: 0 <= j < |w| && IsLive(w[j]) ==> socket == Some(j)
  }

  predicate Inv(s: Stream) {
    HeldSocketOk(s) && OnlyHeldLive(s.world, s.refs.socket) && (!s.props.mounted ==> s.refs.socket.None?)
  }

  lemma MountInv(variant: Variant, sessionId: string, enabled: bool, streams: string, world: World)
    requires forall j :: 0 <= j < |world| ==> !IsLive(world[j])
    ensures Inv(Mount(variant, sessionId, enabled, streams, world))
  {
  }

  /** Under the invariant there is at most one live socket, and none once unmounted. */
  lemma AtMostOneLive(s: Stream)
    requires Inv(s)
    ensures forall i, j :: 0 <= i < |s.world| && 0 <= j < |s.world| && IsLive(s.world[i]) && IsLive(s.world[j]) ==> i == j
    ensures !s.props.mounted ==> forall j :: 0 <= j < |s.world| ==> !IsLive(s.world[j])
  {
  }

  /** Under the invariant the readyState guard adds nothing: a live held socket means connecting or connected. */
  lemma ReadyStateGuardSubsumed(s: Stream)
    requires Inv(s)
    ensures HoldsLive(s) ==> s.view.isConnecting || s.view.conn == Connected
    ensures !s.view.isConnecting && s.view.conn != Connected ==> s.refs.socket.None?
  {
  }

  /** A new socket in a world with no live socket is the only live one. */
  lemma ConstructOnlyLive(w: World)
    requires OnlyHeldLive(w, None)
    ensures OnlyHeldLive(Construct(w), Some(|w|))
  {
    var r := Construct(w);
    assert forall j :: 0 <= j < |w| ==> r[j] == w[j];
  }

  lemma ConnectKeepsInv(ep: Endpoint, s: Stream, c: Construction)
    requires Inv(s) && s.props.mounted
    ensures Inv(OnConnect(ep, s, c).0)
  {
    if !(s.view.isConnecting || s.view.conn == Connected || HoldsLive(s)) {
      assert s.refs.socket.None?;
      if c.Constructed? {
        ConstructOnlyLive(s.world);
      }
    }
  }

  lemma DisconnectKeepsInv(s: Stream)
    requires Inv(s)
    ensures Inv(OnDisconnect(s).0)
  {
  }

  lemma DisposeKeepsInv(s: Stream)
    requires Inv(s)
    ensures Inv(Dispose(s))
  {
  }

  /** A transport event on a socket without the listeners changes only the world, and no socket comes alive. */
  lemma UnheardKeepsInv(s: Stream, k: nat, e: TransportEvent)
    requires Inv(s) && Admissible(s.world, k, e) && k !in s.refs.listened
    ensures Inv(s.(world := Advance(s.world, k, e)))
  {
    var w := Advance(s.world, k, e);
    assert !IsLive(s.world[k]);
  }

  lemma HeardKeepsInv(rt: Runtime, s: Stream, k: nat, e: TransportEvent)
    requires Inv(s) && Admissible(s.world, k, e) && k in s.refs.listened
    ensures Inv(OnTransport(rt, s, k, e).0)
  {
    assert s.refs.socket == Some(k);
    var s1 := s.(world := Advance(s.world, k, e));
    if e.Delivered? {
      MessageKeepsSocket(rt, s1, e.data);
    }
  }

  /** A message changes only the view. */
  lemma MessageKeepsSocket(rt: Runtime, s: Stream, data: WireData)
    ensures var r := OnMessage(rt, s, data).0; r.refs == s.refs && r.world == s.world && r.props == s.props
  {
  }

  lemma TransportKeepsInv(rt: Runtime, s: Stream, k: nat, e: TransportEvent)
    requires Inv(s)
    ensures Inv(OnTransport(rt, s, k, e).0)
  {
    if Admissible(s.world, k, e) {
      if k in s.refs.listened {
        HeardKeepsInv(rt, s, k, e);
      } else {
        UnheardKeepsInv(s, k, e);
      }
    }
  }

  /** Every input keeps the invariant. */
  lemma StepKeepsInv(rt: Runtime, ep: Endpoint, s: Stream, i: Input)
    requires Inv(s)
    ensures Inv(Step(rt, ep, s, i).0)
  {
    if s.props.mounted || i.Transport? {
      match i {
        case Connect(c) => ConnectKeepsInv(ep, s, c);
        case Disconnect => DisconnectKeepsInv(s);
        case SetEnabled(b) => DisconnectKeepsInv(s.(props := s.props.(enabled := b)));
        case SetStreams(v) =>
        case ChangeSession(id) => DisposeKeepsInv(s);
        case Unmount => DisposeKeepsInv(s);
        case Transport(k, e) => TransportKeepsInv(rt, s, k, e);
      }
    }
  }

  /**
   * Whatever the inputs, from a state satisfying the invariant (a freshly
   * mounted component in a world with no live socket does): at most one
   * socket is live, it is the held one, and after unmounting none is.
   */
  lemma {:induction false} RunKeepsInv(rt: Runtime, ep: Endpoint, s: Stream, inputs: seq<Input>)
    requires Inv(s)
    ensures Inv(Run(rt, ep, s, inputs))
  {
    if |inputs| > 0 {
      RunKeepsInv(rt, ep, s, inputs[..|inputs| - 1]);
      StepKeepsInv(rt, ep, Run(rt, ep, s, inputs[..|inputs| - 1]), inputs[|inputs| - 1]);
    }
  }

  // The handlers, one by one.

  /** The connect button's `canConnect`. */
  predicate CanConnect(s: Stream) {
    s.props.enabled && !s.view.isConnecting && s.view.conn != Connected && !HoldsLive(s)
    && Trim(s.props.streams) != ""
  }

  /** `showRetry`. */
  predicate ShowRetry(s: Stream) {
    s.view.conn == Error && !s.view.isConnecting && s.props.enabled && Trim(s.props.streams) != ""
  }

  /** A connect opens a socket, with the next handle, exactly when `canConnect` holds. */
  lemma ConnectOpensIffCanConnect(ep: Endpoint, s: Stream)
    requires s.refs.socket.Some? ==> s.refs.socket.value < |s.world|
    ensures OnConnect(ep, s, Constructed).0.refs.socket == Some(|s.world|) <==> CanConnect(s)
  {
  }

  /**
   * A connect that passes the guards: the new socket is CONNECTING, held and
   * listened to, the view is connecting with no message and no runtime
   * data, the manual-close flag is clear, the counters are reset, and the
   * consumed URL and query are the ones the request builder gives for the
   * trimmed descriptor.
   */
  lemma ConnectStarts(ep: Endpoint, s: Stream)
    requires CanConnect(s)
    ensures var r := OnConnect(ep, s, Constructed);
      var req := BuildWsRequest(ep.base, ep.path, s.props.sessionId, Trim(s.props.streams));
      && r.0.world == s.world + [CONNECTING]
      && r.0.refs == Refs(Some(|s.world|), Some(|s.world|), s.refs.listened + {|s.world|}, false)
      && r.0.view == ViewState(Connecting, true, None, Some(req.url), Some(req.query), Some(Trim(s.props.streams)), None, None, None)
      && r.1 == [CountersReset]
  {
  }

  /**
   * A connect while connecting, connected or holding a live socket changes
   * nothing; past those guards, a blank descriptor or a disabled session
   * only shows an error.
   */
  lemma ConnectGuards(ep: Endpoint, s: Stream, c: Construction)
    ensures s.view.isConnecting || s.view.conn == Connected || HoldsLive(s) ==> OnConnect(ep, s, c) == (s, [])
    ensures !s.view.isConnecting && s.view.conn != Connected && !HoldsLive(s) && Trim(s.props.streams) == "" ==>
      OnConnect(ep, s, c) == (s, [ErrorToast(MsgBlankStreams)])
    ensures (!s.view.isConnecting && s.view.conn != Connected && !HoldsLive(s) && Trim(s.props.streams) != ""
             && !s.props.enabled) ==>
      OnConnect(ep, s, c) == (s, [ErrorToast(MsgDisabled)])
  {
  }

  /** When the socket cannot be built the view is an error with the thrown message, and the refs and world stay. */
  lemma ConnectThrows(ep: Endpoint, s: Stream, m: Option<string>)
    requires CanConnect(s)
    ensures var r := OnConnect(ep, s, Threw(m));
      && r.0.refs == s.refs && r.0.world == s.world
      && r.0.view.conn == Error && !r.0.view.isConnecting
      && r.0.view.errorMessage == Some(m.OrElse(MsgConnectFailed)) && r.0.view.closeMessage.None?
      && (r.0.view.activeStream.None? <==> s.variant == Hook)
      && r.1 == [CountersReset, CountersReset, ErrorToast(m.OrElse(MsgConnectFailed))]
  {
  }

  /** Under the invariant a shown retry button always leads to a socket. */
  lemma RetryCanConnect(s: Stream)
    requires Inv(s) && ShowRetry(s)
    ensures CanConnect(s)
  {
  }

  /**
   * The held socket closing: the refs and listeners are cleared, and the
   * outcome depends on the code alone: 1000 is a close, whose message says
   * whether the user asked for it, and any other code is an error naming the
   * code and reason. The manual flag is reset either way.
   */
  lemma CloseClassified(rt: Runtime, s: Stream, info: CloseInfo, failed: bool)
    requires Inv(s) && s.refs.socket.Some?
    ensures var r := OnTransport(rt, s, s.refs.socket.value, ConnectionClosed(info, failed)).0;
      && r.refs == Refs(None, None, {}, false) && r.world[s.refs.socket.value] == CLOSED
      && !r.view.isConnecting && r.view.activeStream.None?
      && (info.code == 1000 ==>
            && r.view.conn == Closed && r.view.errorMessage.None?
            && r.view.closeMessage == Some(if s.refs.closingManually then MsgClosedByUser else MsgClosed))
      && (info.code != 1000 ==>
            && r.view.conn == Error && r.view.closeMessage.None?
            && r.view.errorMessage == Some(InterruptedMessage(info)))
  {
  }

  /** handleOpen on the held socket: connected, no longer connecting. */
  lemma OpenConnects(rt: Runtime, s: Stream)
    requires Inv(s) && s.refs.socket.Some? && s.world[s.refs.socket.value] == CONNECTING
    ensures var r := OnTransport(rt, s, s.refs.socket.value, Opened).0;
      r.view.conn == Connected && !r.view.isConnecting && r.world[s.refs.socket.value] == OPEN && r.refs == s.refs
  {
  }

  /**
   * handleDisconnect: with no socket it settles on closed (the hook also
   * clears the stream and the connecting flag); with a socket already
   * closing or closed it does nothing; otherwise it marks the close as the
   * user's and starts closing the socket, leaving the rest to the close
   * handler.
   */
  lemma DisconnectCases(s: Stream)
    ensures s.refs.socket.None? ==>
      var r := OnDisconnect(s).0;
      && r.view.conn == Closed && r.view.closeMessage == Some(MsgClosed) && r.view.errorMessage.None?
      && (s.variant == Hook ==> r.view.activeStream.None? && !r.view.isConnecting)
      && (s.variant == Panel ==> r.view.activeStream == s.view.activeStream && r.view.isConnecting == s.view.isConnecting)
    ensures s.refs.socket.Some? && !HoldsLive(s) ==> OnDisconnect(s) == (s, [])
    ensures HoldsLive(s) ==>
      OnDisconnect(s) == (s.(refs := s.refs.(closingManually := true), world := s.world[s.refs.socket.value := CLOSING]), [])
  {
  }

  /** The session turning disabled while a live socket is held starts a user close. */
  lemma DisableDisconnects(rt: Runtime, ep: Endpoint, s: Stream)
    requires s.props.mounted && s.props.enabled && HoldsLive(s)
    ensures var r := Step(rt, ep, s, SetEnabled(false)).0;
      !r.props.enabled && r.refs.closingManually && r.world[s.refs.socket.value] == CLOSING && r.refs.socket == s.refs.socket
  {
  }

  /**
   * Unmounting closes the held socket unless it is CLOSED and drops the
   * refs and listeners; from then on no input but the transport has any
   * effect, and the transport never calls the component's handlers.
   */
  lemma UnmountReleases(rt: Runtime, ep: Endpoint, s: Stream, i: Input)
    requires Inv(s)
    ensures var r := Step(rt, ep, s, Unmount).0;
      s.props.mounted ==>
        && !r.props.mounted && r.refs.socket.None? && r.refs.listened == {}
        && (s.refs.socket.Some? ==> r.world[s.refs.socket.value] == CLOSING)
    ensures !s.props.mounted && !i.Transport? ==> Step(rt, ep, s, i) == (s, [])
    ensures !s.props.mounted && i.Transport? ==> Step(rt, ep, s, i).1 == [] && Step(rt, ep, s, i).0.view == s.view
  {
  }

  /**
   * A message on the held socket: a candle is recorded as the last one and
   * reaches the page only from the panel, stats set the connection count, a
   * warning shows a toast, and an unparseable message changes nothing.
   * Nothing else changes in any case.
   */
  lemma MessageRouting(rt: Runtime, s: Stream, data: WireData)
    requires Inv(s) && s.refs.socket.Some? && s.world[s.refs.socket.value] == OPEN
    ensures var r := OnTransport(rt, s, s.refs.socket.value, Delivered(data));
      match ParseEventData(rt, data)
      case None => r == (s, [])
      case Some(env) =>
        match env.event
        case KlineEvent(k) =>
          r == (if s.variant == Panel then (s.(view := s.view.(lastKline := Some(k))), [KlineOut(k)]) else (s, []))
        case StatsEvent(c) => r == (s.(view := s.view.(connections := Some(c))), [])
        case WarningEvent(w) => r.0 == s && r.1 == [WarningToast(WarningText(rt, s.variant, env.stream, w))]
  {
  }

  /**
   * A session change while a socket is still connecting leaves the
   * connecting flag set with no socket to clear it. The panel's disconnect
   * keeps it set, so its connect stays refused; the hook's disconnect
   * clears it.
   */
  lemma SessionChangeWhileConnecting(ep: Endpoint, s: Stream, id: string, c: Construction)
    requires Inv(s) && s.props.mounted && s.view.isConnecting && s.refs.socket.Some? && id != s.props.sessionId
    ensures var r := OnChangeSession(s, id).0;
      && r.view.isConnecting && r.refs.socket.None?
      && OnConnect(ep, r, c).0 == r
      && OnDisconnect(r).0.view.isConnecting == (s.variant == Panel)
  {
  }
}
