/**
 * The stream controls of the session page (src/components/WsControls.tsx):
 * a single toggle that connects or disconnects, an optional
 * `ensureSessionRunning` step awaited before the socket is built, a
 * close-code table, and effects that disconnect when the session turns
 * disabled or the descriptor changes while connected.
 *
 * `AsWritten` follows `WsControls` as it stands. `Corrected` differs in two
 * places: the `finally` of the toggle leaves `isConnecting` set once a
 * socket has been built (the open and close listeners clear it), and a
 * disconnect discards any connect still waiting on `ensureSessionRunning`,
 * so that a connect can neither overlap a socket that is still connecting
 * nor finish after unmounting. The two findings these correct are proved below.
 */
module WsControls {
  import opened Wrappers
  import opened JsValues
  import opened Text
  import opened WsEnvelope
  import opened WsRequest
  import opened Sockets

  datatype Variant = AsWritten | Corrected

  /** lastConnectionState. */
  datatype LastState = LastIdle | LastClosed | LastError

  datatype ToastLevel = ToastSuccess | ToastInfo | ToastWarning | ToastError

  /** What the component emits: toasts and calls of the parent's callbacks. */
  datatype Output =
    | Toast(level: ToastLevel, text: string)
    | KlineOut(kline: Kline)
    | StatsOut(connections: Option<real>)
    | ConnectionChanged(connected: bool)

  /** The props, whether `ensureSessionRunning` was given, and whether the component is mounted. */
  datatype Props = Props(sessionId: string, streams: string, disabled: bool, hasEnsure: bool, mounted: bool)

  datatype ViewState = ViewState(
    isConnecting: bool,
    connected: bool,
    connections: Option<real>,
    messageCount: nat,
    consumed: Option<Captured>,
    noDataHint: bool,
    last: LastState)

  /** The refs; `timerArmed` says whether the no-data timer is scheduled. */
  datatype Refs = Refs(socket: Option<nat>, closingManually: bool, timerArmed: bool, prevSessionId: string, prevStreams: string)

  /** A toggle waiting on `ensureSessionRunning`, with the values its closure captured. */
  datatype Captured = Captured(sessionId: string, streams: string)

  /**
   * The component. Every socket in `world` was built by it and keeps its
   * listeners for good: `WsControls` never removes them.
   */
  datatype Controls = Controls(variant: Variant, props: Props, view: ViewState, refs: Refs, pending: seq<Captured>, world: World)

  /** How the awaited `ensureSessionRunning()` settles, and then what building the socket does. */
  datatype Settlement = Resolved(construction: Construction) | Rejected(message: Option<string>)

  datatype Input =
    | Toggle(construction: Construction)
    | EnsureSettled(index: nat, settlement: Settlement)
    | SetDisabled(disabled: bool)
    | SetStreams(streams: string)
    | SetSession(sessionId: string)
    | CallbacksChanged
    | Unmount
    | NoDataTimeout
    | Transport(handle: nat, event: TransportEvent)

  const MsgBlankStreams: string := "Ingresá un stream válido"
  const MsgConnectFailed: string := "No se pudo conectar al stream"
  const MsgSocketError: string := "Error en la conexión de WebSocket"
  const MsgConnected: string := "Stream conectado"

  function Mount(variant: Variant, sessionId: string, streams: string, disabled: bool, hasEnsure: bool): Controls {
    Controls(variant, Props(sessionId, streams, disabled, hasEnsure, true),
             ViewState(false, false, None, 0, None, false, LastIdle),
             Refs(None, false, false, sessionId, streams), [], [])
  }

  // The close-code table.

  /** Whether a close is reported as closed rather than as an error. */
  predicate ClosesCleanly(info: CloseInfo) {
    info.code == 1000 || info.code == 1001 || (info.code != 1006 && info.code != 1011 && info.wasClean)
  }

  /** The close listener's table: the state to record and the toast to show. */
  function CloseOutcome(info: CloseInfo): (LastState, Output) {
    var reasonText := if info.reason != "" then " - " + info.reason else "";
    var detail := if info.reason != "" then " (" + NatToString(info.code) + ") " + info.reason
                  else " (" + NatToString(info.code) + ")";
    if info.code == 1000 then (LastClosed, Toast(ToastInfo, "Stream cerrado (1000)"))
    else if info.code == 1001 then (LastClosed, Toast(ToastWarning, "Stream cerrado (1001" + reasonText + ")"))
    else if info.code == 1006 then (LastError, Toast(ToastError, MsgSocketError + " (1006" + reasonText + ")"))
    else if info.code == 1011 then
      (LastError, Toast(ToastError, "Keepalive timeout o error del servidor (1011" + reasonText + ")"))
    else if info.wasClean then (LastClosed, Toast(ToastInfo, "Stream cerrado" + detail))
    else (LastError, Toast(ToastError, MsgSocketError + detail))
  }

  /**
   * The table records closed exactly for 1000 and 1001 and for a clean
   * close with a code other than 1006 and 1011, error otherwise; closes are
   * shown as information or warning and errors as errors.
   */
  lemma CloseTable(info: CloseInfo)
    ensures CloseOutcome(info).0 == (if ClosesCleanly(info) then LastClosed else LastError)
    ensures CloseOutcome(info).1.Toast?
    ensures CloseOutcome(info).1.level == ToastError <==> !ClosesCleanly(info)
  {
  }

  /**
   * The request the view shows (`consumedUrl`, `consumedQuery`,
   * `consumedStreams`), rebuilt from the descriptor the last attempt
   * captured: `WsControls` stores the three strings `buildWsRequest` made.
   */
  function ConsumedRequest(ep: Endpoint, v: ViewState): (r: Option<WsRequestInfo>)
    ensures r.Some? <==> v.consumed.Some?
    ensures r.Some? ==> r.value.url == ep.base + ep.path + "?" + r.value.query
  {
    match v.consumed
    case None => None
    case Some(cap) => Some(BuildWsRequest(ep.base, ep.path, cap.sessionId, cap.streams))
  }

  // Handlers.

  /** cleanupAfterSocket. */
  function CleanupAfterSocket(s: Controls, next: LastState): (Controls, seq<Output>) {
    (s.(refs := s.refs.(socket := None, timerArmed := false),
        view := s.view.(connected := false, isConnecting := false, connections := None, messageCount := 0,
                        noDataHint := false, last := next)),
     [StatsOut(None), ConnectionChanged(false)])
  }

  /**
   * handleDisconnect. The catch around `close(1000, …)` is unreachable. The
   * corrected component also discards connects still waiting.
   */
  function HandleDisconnect(s: Controls): (Controls, seq<Output>) {
    var s0 := if s.variant == Corrected then s.(pending := []) else s;
    match s.refs.socket
    case None => CleanupAfterSocket(s0, LastClosed)
    case Some(k) => (s0.(refs := s0.refs.(closingManually := true), world := Close(s0.world, k)), [])
  }

  /** The toggle button is disabled. */
  predicate IsToggleDisabled(s: Controls) {
    s.view.isConnecting || (!s.view.connected && (s.props.disabled || Trim(s.props.streams) == ""))
  }

  /** The retry button is shown. */
  predicate ShowRetryButton(s: Controls) {
    !s.view.connected && !s.view.isConnecting && !s.props.disabled && s.view.last != LastIdle
  }

  /** Some button that runs the toggle handler can be clicked. */
  predicate CanToggle(s: Controls) {
    !IsToggleDisabled(s) || ShowRetryButton(s)
  }

  /** The toggle's catch: an error toast, a disconnect, and the error state. */
  function ConnectFailed(s: Controls, m: Option<string>): (Controls, seq<Output>) {
    var msg := m.OrElse(MsgConnectFailed);
    var d := HandleDisconnect(s);
    (d.0.(view := d.0.view.(last := LastError, isConnecting := false)), [Toast(ToastError, msg)] + d.1)
  }

  /**
   * The part of the toggle after `ensureSessionRunning` (or without it): build
   * the request and the socket. The `finally` clears `isConnecting`; the
   * corrected component clears it only when no socket was built.
   */
  function Proceed(s: Controls, cap: Captured, st: Settlement): (Controls, seq<Output>) {
    match st
    case Rejected(m) => ConnectFailed(s, m)
    case Resolved(c) =>
      var s1 := s.(view := s.view.(consumed := Some(cap)));
      match c
      case Threw(m) => ConnectFailed(s1, m)
      case Constructed =>
        var k := |s.world|;
        (s1.(world := Construct(s.world), refs := s1.refs.(socket := Some(k), closingManually := false),
             view := s1.view.(messageCount := 0, noDataHint := false,
                              isConnecting := s.variant == Corrected && s.view.isConnecting)),
         [])
  }

  /** handleToggle, up to its await. */
  function HandleToggle(s: Controls, c: Construction): (Controls, seq<Output>) {
    if s.view.connected then HandleDisconnect(s)
    else
      var t := Trim(s.props.streams);
      if t == "" then (s, [Toast(ToastError, MsgBlankStreams)])
      else
        var s1 := s.(view := s.view.(isConnecting := true, last := LastIdle));
        var cap := Captured(s.props.sessionId, t);
        if s.props.hasEnsure && !s.props.disabled then (s1.(pending := s1.pending + [cap]), [])
        else Proceed(s1, cap, Resolved(c))
  }

  /** A waiting toggle resumes. The corrected component drops it when it was discarded or the component is gone. */
  function OnEnsureSettled(s: Controls, i: nat, st: Settlement): (Controls, seq<Output>) {
    if i >= |s.pending| then (s, [])
    else
      var cap := s.pending[i];
      var s1 := s.(pending := s.pending[..i] + s.pending[i + 1..]);
      if s.variant == Corrected && !s.props.mounted then (s1, [])
      else Proceed(s1, cap, st)
  }

  /** The message listener. */
  function OnMessage(rt: Runtime, s: Controls, data: WireData): (Controls, seq<Output>) {
    match ParseEventData(rt, data)
    case None => (s, if data.Text? then [Toast(ToastError, MsgSocketError + ": " + data.text)] else [])
    case Some(env) =>
      match env.event
      case KlineEvent(k) =>
        (s.(view := s.view.(messageCount := s.view.messageCount + 1, noDataHint := false),
            refs := s.refs.(timerArmed := true)),
         [KlineOut(k)])
      case StatsEvent(c) => (s.(view := s.view.(connections := Some(c))), [StatsOut(Some(c))])
      case WarningEvent(_) => (s, [])
  }

  /** The open listener. */
  function OnOpen(s: Controls): (Controls, seq<Output>) {
    (s.(view := s.view.(isConnecting := false, connected := true, last := LastIdle), refs := s.refs.(timerArmed := true)),
     [Toast(ToastSuccess, MsgConnected), ConnectionChanged(true)])
  }

  /** The error listener, then the close listener, as the transport dispatches them. */
  function OnClosed(s: Controls, info: CloseInfo, failed: bool): (Controls, seq<Output>) {
    var s1 := if failed then s.(view := s.view.(last := LastError)) else s;
    var errorToast := if failed then [Toast(ToastError, MsgSocketError)] else [];
    var outcome := CloseOutcome(info);
    var c := CleanupAfterSocket(s1.(refs := s1.refs.(closingManually := false)), outcome.0);
    (c.0, errorToast + [outcome.1] + c.1)
  }

  /** A transport event: every socket carries the listeners. */
  function OnTransport(rt: Runtime, s: Controls, k: nat, e: TransportEvent): (Controls, seq<Output>) {
    if !Admissible(s.world, k, e) then (s, [])
    else
      var s1 := s.(world := Advance(s.world, k, e));
      match e
      case Opened => OnOpen(s1)
      case ClosingHandshake => (s1, [])
      case Delivered(data) => OnMessage(rt, s1, data)
      case ConnectionClosed(info, failed) => OnClosed(s1, info, failed)
  }

  // Effects.

  /**
   * The descriptor effect, with the values of the render it belongs to:
   * while disconnected it records the descriptor; while connected it
   * disconnects when the descriptor differs from the recorded one, then
   * records it.
   */
  function DescriptorEffect(render: Controls, s: Controls): (Controls, seq<Output>) {
    var changed := render.refs.prevSessionId != render.props.sessionId || render.refs.prevStreams != render.props.streams;
    var d := if render.view.connected && changed then HandleDisconnect(s) else (s, []);
    (d.0.(refs := d.0.refs.(prevSessionId := render.props.sessionId, prevStreams := render.props.streams)), d.1)
  }

  /** The disabled effect: disconnect when disabled while connected. */
  function DisabledEffect(render: Controls, s: Controls): (Controls, seq<Output>) {
    if render.props.disabled && render.view.connected then HandleDisconnect(s) else (s, [])
  }

  /**
   * The effects after a render, given the render before it: each runs when
   * one of its dependencies changed (`always` when handleDisconnect itself
   * is new). An effect can only turn `connected` off; the render that
   * follows then re-runs the descriptor effect, which only records.
   */
  function Effects(before: Controls, s: Controls, always: bool): (Controls, seq<Output>) {
    if !s.props.mounted then (s, [])
    else
      var r1 :=
        if always || before.view.connected != s.view.connected || before.props.disabled != s.props.disabled
        then DisabledEffect(s, s) else (s, []);
      var descriptorRuns := always || before.view.connected != s.view.connected
        || before.props.sessionId != s.props.sessionId || before.props.streams != s.props.streams;
      var r2 := if descriptorRuns then DescriptorEffect(s, r1.0) else (r1.0, []);
      if r2.0.view.connected == s.view.connected then (r2.0, r1.1 + r2.1)
      else (r2.0.(refs := r2.0.refs.(prevSessionId := r2.0.props.sessionId, prevStreams := r2.0.props.streams)),
            r1.1 + r2.1)
  }

  /** The handler or prop change an input stands for, before effects. */
  function Handle(rt: Runtime, s: Controls, i: Input): (Controls, seq<Output>) {
    match i
    case Toggle(c) => if s.props.mounted && CanToggle(s) then HandleToggle(s, c) else (s, [])
    case EnsureSettled(j, st) => OnEnsureSettled(s, j, st)
    case SetDisabled(b) => if s.props.mounted then (s.(props := s.props.(disabled := b)), []) else (s, [])
    case SetStreams(v) => if s.props.mounted then (s.(props := s.props.(streams := v)), []) else (s, [])
    case SetSession(id) => if s.props.mounted then (s.(props := s.props.(sessionId := id)), []) else (s, [])
    case CallbacksChanged => if s.props.mounted then HandleDisconnect(s) else (s, [])
    case Unmount =>
      if s.props.mounted then
        var d := HandleDisconnect(s);
        (d.0.(props := d.0.props.(mounted := false)), d.1)
      else (s, [])
    case NoDataTimeout =>
      if s.refs.timerArmed then (s.(view := s.view.(noDataHint := true), refs := s.refs.(timerArmed := false)), [])
      else (s, [])
    case Transport(k, e) => OnTransport(rt, s, k, e)
  }

  /** One input: the handler, then the effects of the render it causes. */
  function Step(rt: Runtime, s: Controls, i: Input): (Controls, seq<Output>) {
    var h := Handle(rt, s, i);
    var e := Effects(s, h.0, i.CallbacksChanged? && s.props.mounted);
    (e.0, h.1 + e.1)
  }

  function Run(rt: Runtime, s: Controls, inputs: seq<Input>): Controls
    decreases |inputs|
  {
    if |inputs| == 0 then s else Step(rt, Run(rt, s, inputs[..|inputs| - 1]), inputs[|inputs| - 1]).0
  }

  // Properties of the handlers (both variants).

  /** The toggle disconnects while connected and opens nothing for a blank descriptor. */
  lemma ToggleCases(s: Controls, c: Construction)
    ensures s.view.connected ==> HandleToggle(s, c) == HandleDisconnect(s)
    ensures !s.view.connected && Trim(s.props.streams) == "" ==>
      HandleToggle(s, c) == (s, [Toast(ToastError, MsgBlankStreams)])
  {
  }

  /**
   * With `ensureSessionRunning` given and the session enabled, the toggle
   * builds nothing before it settles; when it rejects, no socket is built and
   * the state is an error.
   */
  lemma EnsureComesFirst(s: Controls, c: Construction, m: Option<string>)
    requires !s.view.connected && Trim(s.props.streams) != "" && s.props.hasEnsure && !s.props.disabled
    ensures var r := HandleToggle(s, c).0;
      && r.world == s.world && r.refs.socket == s.refs.socket && r.view.isConnecting
      && r.pending == s.pending + [Captured(s.props.sessionId, Trim(s.props.streams))]
    ensures var r := HandleToggle(s, c).0;
      var f := OnEnsureSettled(r, |s.pending|, Rejected(m)).0;
      (s.variant == AsWritten || s.props.mounted) ==>
        |f.world| == |s.world| && f.view.last == LastError && !f.view.isConnecting
  {
    var r := HandleToggle(s, c).0;
    assert r.pending[|s.pending|] == Captured(s.props.sessionId, Trim(s.props.streams));
  }

  /**
   * A toggle that gets as far as building the socket records the session id
   * and the trimmed descriptor it captured, whether or not construction
   * throws.
   */
  lemma ToggleRecordsRequest(s: Controls, c: Construction)
    requires !s.view.connected && Trim(s.props.streams) != "" && !(s.props.hasEnsure && !s.props.disabled)
    ensures HandleToggle(s, c).0.view.consumed == Some(Captured(s.props.sessionId, Trim(s.props.streams)))
  {
    var t := Trim(s.props.streams);
    var s1 := s.(view := s.view.(isConnecting := true, last := LastIdle));
    var cap := Captured(s.props.sessionId, t);
    assert HandleToggle(s, c) == Proceed(s1, cap, Resolved(c));
    if c.Threw? {
      ConnectFailedKeepsConsumed(s1.(view := s1.view.(consumed := Some(cap))), c.message);
    }
  }

  /** The toggle's catch leaves the recorded request as it was. */
  lemma ConnectFailedKeepsConsumed(s: Controls, m: Option<string>)
    ensures ConnectFailed(s, m).0.view.consumed == s.view.consumed
  {
  }

  /** Each candle counts once and re-arms the no-data timer; stats are recorded and passed on. */
  lemma MessageEffects(rt: Runtime, s: Controls, data: WireData)
    ensures match ParseEventData(rt, data)
      case Some(Envelope(KlineEvent(k), _)) =>
        var r := OnMessage(rt, s, data);
        r.0.view.messageCount == s.view.messageCount + 1 && !r.0.view.noDataHint && r.0.refs.timerArmed
        && r.1 == [KlineOut(k)]
      case Some(Envelope(StatsEvent(c), _)) => OnMessage(rt, s, data).1 == [StatsOut(Some(c))]
      case Some(Envelope(WarningEvent(_), _)) => OnMessage(rt, s, data) == (s, [])
      case None => OnMessage(rt, s, data).0 == s && (|OnMessage(rt, s, data).1| == 1 <==> data.Text?)
  {
  }

  /**
   * Every close resets the socket ref, the flags, the connection count, the
   * message count and the hint, and records the table's state.
   */
  lemma CloseResets(rt: Runtime, s: Controls, k: nat, info: CloseInfo, failed: bool)
    requires k < |s.world| && s.world[k] != CLOSED
    ensures var r := OnTransport(rt, s, k, ConnectionClosed(info, failed)).0;
      && r.refs.socket.None? && !r.view.connected && !r.view.isConnecting && r.view.connections.None?
      && r.view.messageCount == 0 && !r.view.noDataHint && !r.refs.closingManually
      && r.view.last == CloseOutcome(info).0 && r.world[k] == CLOSED
  {
  }

  /** While connected, a change of session or descriptor starts a user close of the held socket. */
  lemma DescriptorChangeDisconnects(rt: Runtime, s: Controls, v: string, k: nat)
    requires s.props.mounted && s.view.connected && s.refs.socket == Some(k) && k < |s.world| && IsLive(s.world[k])
    requires s.refs.prevStreams == s.props.streams && v != s.props.streams
    ensures var r := Step(rt, s, SetStreams(v)).0;
      r.refs.closingManually && r.world[k] == CLOSING && r.refs.prevStreams == v
  {
  }

  /** While disconnected, a descriptor change is only recorded. */
  lemma DescriptorChangeRecorded(rt: Runtime, s: Controls, v: string)
    requires s.props.mounted && !s.view.connected && v != s.props.streams
    ensures var r := Step(rt, s, SetStreams(v)).0;
      r.world == s.world && r.refs.socket == s.refs.socket && r.refs.prevStreams == v && r.props.streams == v
  {
  }

  /** The session turning disabled while connected starts a user close of the held socket. */
  lemma DisableDisconnects(rt: Runtime, s: Controls, k: nat)
    requires s.props.mounted && s.view.connected && !s.props.disabled
    requires s.refs.socket == Some(k) && k < |s.world| && IsLive(s.world[k])
    ensures var r := Step(rt, s, SetDisabled(true)).0;
      r.refs.closingManually && r.world[k] == CLOSING && r.props.disabled
  {
  }

  /** Unmounting starts a user close of the held socket and of no other. */
  lemma UnmountClosesHeld(rt: Runtime, s: Controls, k: nat)
    requires s.props.mounted && s.refs.socket == Some(k) && k < |s.world| && IsLive(s.world[k])
    ensures var r := Step(rt, s, Unmount).0;
      !r.props.mounted && r.world == s.world[k := CLOSING] && r.refs.closingManually
  {
  }

  /** After unmounting, a connecting socket can still open: its listeners are never removed. */
  lemma OpenedOpens(rt: Runtime, s: Controls, k: nat)
    requires !s.props.mounted && k < |s.world| && s.world[k] == CONNECTING
    ensures var r := Step(rt, s, Transport(k, Opened));
      r.0.world == s.world[k := OPEN] && r.1 == [Toast(ToastSuccess, MsgConnected), ConnectionChanged(true)]
  {
  }

  /** The retry button is shown only when the toggle would also connect rather than disconnect. */
  lemma RetryOnlyWhenDisconnected(s: Controls)
    ensures ShowRetryButton(s) ==> !s.view.connected && !s.view.isConnecting
    ensures !IsToggleDisabled(s) && !s.view.connected ==> Trim(s.props.streams) != "" && !s.props.disabled
  {
  }

  // Finding 1: `isConnecting` is cleared before the socket opens.

  /**
   * A mounted, enabled, disconnected component of the given variant whose
   * toggle would start connecting, with or without `ensureSessionRunning`.
   */
  predicate ReadyToToggle(s: Controls, v: Variant, ensure: bool) {
    s.variant == v && s.props.mounted && !s.view.connected && !s.view.isConnecting && !s.props.disabled
    && s.props.hasEnsure == ensure && Trim(s.props.streams) != ""
  }

  predicate AsWrittenIdle(s: Controls) {
    ReadyToToggle(s, AsWritten, false)
  }

  /**
   * As written, once the toggle has built a socket, the toggle is enabled
   * again although the socket is still connecting.
   */
  lemma AsWrittenToggleBuilds(rt: Runtime, s: Controls)
    requires AsWrittenIdle(s)
    ensures var r := Step(rt, s, Toggle(Constructed)).0;
      && r.world == s.world + [CONNECTING] && r.refs.socket == Some(|s.world|)
      && AsWrittenIdle(r) && CanToggle(r)
  {
    var h := Handle(rt, s, Toggle(Constructed));
    AsWrittenHandleToggle(s);
    EffectsQuiet(s, h.0);
  }

  lemma AsWrittenHandleToggle(s: Controls)
    requires AsWrittenIdle(s)
    ensures var r := HandleToggle(s, Constructed).0;
      && r.world == s.world + [CONNECTING] && r.refs.socket == Some(|s.world|)
      && AsWrittenIdle(r) && r.props == s.props
  {
  }

  /** When neither `connected` nor a prop an effect depends on changed, no effect runs. */
  lemma EffectsQuiet(before: Controls, s: Controls)
    requires before.view.connected == s.view.connected && before.props == s.props
    ensures Effects(before, s, false) == (s, [])
  {
    if s.props.mounted {
      var r1: (Controls, seq<Output>) := (s, []);
      assert r1.1 + [] == [];
    }
  }

  lemma TwoTogglesTwoSockets(rt: Runtime, s: Controls, s1: Controls, s2: Controls, s3: Controls, s4: Controls)
    requires AsWrittenIdle(s)
    requires s1 == Step(rt, s, Toggle(Constructed)).0 && s2 == Step(rt, s1, Toggle(Constructed)).0
    requires s3 == Step(rt, s2, Unmount).0 && s4 == Step(rt, s3, Transport(|s.world|, Opened)).0
    ensures CanToggle(s1) && s2.world == s.world + [CONNECTING, CONNECTING]
    ensures !s3.props.mounted && s3.world == s.world + [CONNECTING, CLOSING]
    ensures s4.world == s.world + [OPEN, CLOSING]
  {
    var n := |s.world|;
    AsWrittenToggleBuilds(rt, s);
    AsWrittenToggleBuilds(rt, s1);
    TwoSockets(s.world);
    UnmountClosesHeld(rt, s2, n + 1);
    OpenedOpens(rt, s3, n);
  }

  /** The worlds of the two-click trace. */
  lemma TwoSockets(w: World)
    ensures w + [CONNECTING] + [CONNECTING] == w + [CONNECTING, CONNECTING]
    ensures (w + [CONNECTING, CONNECTING])[|w| + 1 := CLOSING] == w + [CONNECTING, CLOSING]
    ensures (w + [CONNECTING, CLOSING])[|w| := OPEN] == w + [OPEN, CLOSING]
  {
  }

  /** A freshly mounted component with a usable descriptor is ready to toggle. */
  lemma MountReady(v: Variant, sessionId: string, streams: string, ensure: bool)
    requires Trim(streams) != ""
    ensures var s := Mount(v, sessionId, streams, false, ensure);
      ReadyToToggle(s, v, ensure) && s.refs.socket.None? && s.pending == [] && s.world == []
  {
  }

  /** Corrected, the toggle is refused while the socket it built is connecting. */
  lemma CorrectedSecondToggleRefused(rt: Runtime, s: Controls)
    requires ReadyToToggle(s, Corrected, false)
    ensures var s1 := Step(rt, s, Toggle(Constructed)).0;
      && s1.world == s.world + [CONNECTING] && s1.view.isConnecting && !CanToggle(s1)
      && Step(rt, s1, Toggle(Constructed)) == (s1, [])
  {
    var h := HandleToggle(s, Constructed).0;
    assert h.props == s.props && h.view.connected == s.view.connected;
    EffectsQuiet(s, h);
  }

  // Finding 2: the awaited step resumes after unmounting.

  /** With `ensureSessionRunning`, the toggle only records the waiting attempt. */
  lemma ToggleWaits(rt: Runtime, s: Controls, v: Variant, c: Construction)
    requires ReadyToToggle(s, v, true) && s.pending == []
    ensures var r := Step(rt, s, Toggle(c)).0;
      && r.world == s.world && r.variant == v && r.refs.socket == s.refs.socket && r.props == s.props
      && r.pending == [Captured(s.props.sessionId, Trim(s.props.streams))]
  {
    var h := HandleToggle(s, c).0;
    EffectsQuiet(s, h);
  }

  /** Unmounting with no socket held builds and closes nothing; the corrected component drops waiting attempts. */
  lemma UnmountWithoutSocket(rt: Runtime, s: Controls)
    requires s.props.mounted && s.refs.socket.None?
    ensures var r := Step(rt, s, Unmount).0;
      && !r.props.mounted && r.world == s.world && r.variant == s.variant && r.refs.socket.None?
      && r.pending == (if s.variant == Corrected then [] else s.pending)
  {
  }

  /**
   * An attempt that settles after unmounting: as written it builds a
   * socket that the component holds although it is gone; corrected, nothing
   * happens.
   */
  lemma SettleAfterUnmount(rt: Runtime, s: Controls)
    requires !s.props.mounted && |s.pending| == 1
    ensures var r := Step(rt, s, EnsureSettled(0, Resolved(Constructed))).0;
      && (s.variant == AsWritten ==> r.world == s.world + [CONNECTING] && r.refs.socket == Some(|s.world|))
      && (s.variant == Corrected ==> r.world == s.world)
  {
  }

  /**
   * As written, a toggle waiting on `ensureSessionRunning` that settles after
   * unmounting still builds a socket, which nothing will ever close.
   */
  lemma SocketAfterUnmount(rt: Runtime, s: Controls, s1: Controls, s2: Controls, s3: Controls)
    requires ReadyToToggle(s, AsWritten, true) && s.refs.socket.None? && s.pending == []
    requires s1 == Step(rt, s, Toggle(Constructed)).0 && s2 == Step(rt, s1, Unmount).0
    requires s3 == Step(rt, s2, EnsureSettled(0, Resolved(Constructed))).0
    ensures s1.world == s.world && |s1.pending| == 1 && !s2.props.mounted
    ensures !s3.props.mounted && s3.world == s.world + [CONNECTING] && s3.refs.socket == Some(|s.world|)
  {
    ToggleWaits(rt, s, AsWritten, Constructed);
    UnmountWithoutSocket(rt, s1);
    SettleAfterUnmount(rt, s2);
  }

  /** Corrected, the unmount discards the waiting toggle and no socket is built. */
  lemma CorrectedNoSocketAfterUnmount(rt: Runtime, s: Controls, s1: Controls, s2: Controls, s3: Controls)
    requires ReadyToToggle(s, Corrected, true) && s.refs.socket.None? && s.pending == []
    requires s1 == Step(rt, s, Toggle(Constructed)).0 && s2 == Step(rt, s1, Unmount).0
    requires s3 == Step(rt, s2, EnsureSettled(0, Resolved(Constructed))).0
    ensures |s1.pending| == 1 && s2.pending == [] && s3.world == s.world
  {
    ToggleWaits(rt, s, Corrected, Constructed);
    UnmountWithoutSocket(rt, s1);
  }

  // The corrected component's invariant.

  /** Every socket but the held one is CLOSED. */
  predicate OthersClosed(s: Controls) {
    forall j :: 0 <= j < |s.world| && s.refs.socket != Some(j) ==> s.world[j] == CLOSED
  }

  predicate CInv(s: Controls) {
    && s.variant == Corrected
    && OthersClosed(s)
    && (s.refs.socket.Some? ==> s.refs.socket.value < |s.world|)
    && (s.props.mounted && !s.view.connected && !s.view.isConnecting ==> s.refs.socket.None?)
    && (|s.pending| > 0 ==> |s.pending| == 1 && s.props.mounted && s.refs.socket.None? && s.view.isConnecting && !s.view.connected)
    && (!s.props.mounted ==> s.pending == [] && (s.refs.socket.Some? ==> !IsLive(s.world[s.refs.socket.value])))
  }

  lemma MountCInv(sessionId: string, streams: string, disabled: bool, hasEnsure: bool)
    ensures CInv(Mount(Corrected, sessionId, streams, disabled, hasEnsure))
  {
  }

  /** At most one socket of the world is live. */
  predicate OneLive(w: World) {
    forall i, j :: 0 <= i < |w| && 0 <= j < |w| && IsLive(w[i]) && IsLive(w[j]) ==> i == j
  }

  /** Under the invariant at most one socket is live, and none once unmounted. */
  lemma CInvOneLive(s: Controls)
    requires CInv(s)
    ensures OneLive(s.world)
    ensures !s.props.mounted ==> forall j :: 0 <= j < |s.world| ==> !IsLive(s.world[j])
  {
  }

  lemma DisconnectKeepsCInv(s: Controls)
    requires CInv(s)
    ensures CInv(HandleDisconnect(s).0)
  {
  }

  lemma DisabledEffectKeepsCInv(render: Controls, s: Controls)
    requires CInv(s)
    ensures CInv(DisabledEffect(render, s).0)
  {
    if render.props.disabled && render.view.connected {
      DisconnectKeepsCInv(s);
    }
  }

  lemma DescriptorEffectKeepsCInv(render: Controls, s: Controls)
    requires CInv(s)
    ensures CInv(DescriptorEffect(render, s).0)
  {
    if render.view.connected {
      DisconnectKeepsCInv(s);
    }
  }

  lemma EffectsKeepCInv(before: Controls, s: Controls, always: bool)
    requires CInv(s)
    ensures CInv(Effects(before, s, always).0)
  {
    if s.props.mounted {
      DisabledEffectKeepsCInv(s, s);
      var r1 :=
        if always || before.view.connected != s.view.connected || before.props.disabled != s.props.disabled
        then DisabledEffect(s, s) else (s, []);
      DescriptorEffectKeepsCInv(s, r1.0);
    }
  }

  /** The corrected toggle resuming: every socket is CLOSED and none is held. */
  predicate ReadyToBuild(s: Controls) {
    && s.variant == Corrected && s.props.mounted && s.refs.socket.None? && s.pending == []
    && (forall j :: 0 <= j < |s.world| ==> s.world[j] == CLOSED)
    && s.view.isConnecting && !s.view.connected
  }

  lemma BuildKeepsCInv(s: Controls, cap: Captured)
    requires ReadyToBuild(s)
    ensures CInv(Proceed(s, cap, Resolved(Constructed)).0)
  {
    var r := Proceed(s, cap, Resolved(Constructed)).0;
    assert r.world == s.world + [CONNECTING];
    assert forall j :: 0 <= j < |s.world| ==> r.world[j] == s.world[j];
  }

  lemma ProceedKeepsCInv(s: Controls, cap: Captured, st: Settlement)
    requires ReadyToBuild(s)
    ensures CInv(Proceed(s, cap, st).0)
  {
    match st {
      case Rejected(m) =>
        DisconnectKeepsCInv(s);
      case Resolved(c) =>
        var s1 := s.(view := s.view.(consumed := Some(cap)));
        if c.Threw? {
          DisconnectKeepsCInv(s1);
        } else {
          BuildKeepsCInv(s, cap);
        }
    }
  }

  lemma ToggleKeepsCInv(s: Controls, c: Construction)
    requires CInv(s) && s.props.mounted && CanToggle(s)
    ensures CInv(HandleToggle(s, c).0)
  {
    if s.view.connected {
      DisconnectKeepsCInv(s);
    } else if Trim(s.props.streams) != "" {
      var s1 := s.(view := s.view.(isConnecting := true, last := LastIdle));
      if !(s.props.hasEnsure && !s.props.disabled) {
        ProceedKeepsCInv(s1, Captured(s.props.sessionId, Trim(s.props.streams)), Resolved(c));
      }
    }
  }

  lemma SettleKeepsCInv(s: Controls, i: nat, st: Settlement)
    requires CInv(s)
    ensures CInv(OnEnsureSettled(s, i, st).0)
  {
    if i < |s.pending| {
      var s1 := s.(pending := s.pending[..i] + s.pending[i + 1..]);
      ProceedKeepsCInv(s1, s.pending[i], st);
    }
  }

  lemma TransportKeepsCInv(rt: Runtime, s: Controls, k: nat, e: TransportEvent)
    requires CInv(s)
    ensures CInv(OnTransport(rt, s, k, e).0)
  {
    if Admissible(s.world, k, e) {
      assert s.refs.socket == Some(k);
      var w := Advance(s.world, k, e);
      assert forall j :: 0 <= j < |w| && j != k ==> w[j] == s.world[j];
    }
  }

  lemma HandleKeepsCInv(rt: Runtime, s: Controls, i: Input)
    requires CInv(s)
    ensures CInv(Handle(rt, s, i).0)
  {
    match i {
      case Toggle(c) =>
        if s.props.mounted && CanToggle(s) {
          ToggleKeepsCInv(s, c);
        }
      case EnsureSettled(j, st) => SettleKeepsCInv(s, j, st);
      case SetDisabled(b) =>
      case SetStreams(v) =>
      case SetSession(id) =>
      case CallbacksChanged => DisconnectKeepsCInv(s);
      case Unmount => DisconnectKeepsCInv(s);
      case NoDataTimeout =>
      case Transport(k, e) => TransportKeepsCInv(rt, s, k, e);
    }
  }

  /** Every input keeps the corrected component's invariant. */
  lemma StepKeepsCInv(rt: Runtime, s: Controls, i: Input)
    requires CInv(s)
    ensures CInv(Step(rt, s, i).0)
  {
    HandleKeepsCInv(rt, s, i);
    EffectsKeepCInv(s, Handle(rt, s, i).0, i.CallbacksChanged? && s.props.mounted);
  }

  /**
   * Corrected, whatever the inputs after mounting: at most one socket is
   * live, and once unmounted none is.
   */
  lemma {:induction false} CorrectedRunOneLive(rt: Runtime, s: Controls, inputs: seq<Input>)
    requires CInv(s)
    ensures CInv(Run(rt, s, inputs))
    ensures OneLive(Run(rt, s, inputs).world)
  {
    if |inputs| > 0 {
      CorrectedRunOneLive(rt, s, inputs[..|inputs| - 1]);
      StepKeepsCInv(rt, Run(rt, s, inputs[..|inputs| - 1]), inputs[|inputs| - 1]);
    }
    CInvOneLive(Run(rt, s, inputs));
  }
}
