/**
 * The dataset-ingest watcher (src/hooks/useDatasetIngest.ts): it loads a
 * dataset's detail, then follows the ingest through a server-sent event
 * channel, falls back to polling every `PollingIntervalMs` when the channel
 * fails before the ingest is over, and keeps a log capped at `MaxLogLines`
 * lines.
 *
 * Asynchrony is made explicit: a request in flight is an entry of
 * `fetches` (or `cancels`) until an input settles it, a timer tick and each
 * event of a channel are inputs, and every input is followed by the effect
 * that copies the dataset's status into `statusRef`. Every channel the
 * watcher opened stays in `channels`, open or closed.
 *
 * `AsWritten` follows `useDatasetIngest` as it stands. `Corrected` differs
 * in one place: the channel's `onerror` handler falls back to polling only
 * while the channel is still the one held, so that a server-sent `error`
 * event, which the `error` listener has already treated as final, does not
 * start polling.
 */
module IngestWatcher {
  import opened Wrappers
  import opened JsValues

  datatype Variant = AsWritten | Corrected

  /** The polling period; ticks are inputs, so the period is not otherwise modelled. */
  const PollingIntervalMs: nat := 2000
  const MaxLogLines: nat := 200
  const FinalStatuses: seq<string> := ["Ready", "Failed", "Canceled"]
  /** The event types the channel has a listener for. */
  const ListenedTypes: seq<string> := ["status", "progress", "log", "done", "error"]
  const MsgFetchFailed: string := "No se pudo obtener el estado del dataset"

  /** isFinalStatus: a status that ends the ingest. */
  predicate IsFinalStatus(v: Value) {
    v.Defined? && v.json.JString? && v.json.s in FinalStatuses
  }

  /** The number `x` as a field value. */
  function Num(x: real): Value {
    Defined(JNumber(Finite(x)))
  }

  /** `s.slice(-200)`: the newest `MaxLogLines` entries, in order. */
  function Last200<T>(s: seq<T>): (r: seq<T>)
    ensures |r| <= MaxLogLines && |r| <= |s|
    ensures |r| == if |s| > MaxLogLines then MaxLogLines else |s|
    ensures s[|s| - |r|..] == r
  {
    if |s| > MaxLogLines then s[|s| - MaxLogLines..] else s
  }

  /**
   * Appending a line to a capped log keeps every line while there is room,
   * and otherwise drops exactly the oldest one: the newest lines stay, in
   * arrival order.
   */
  lemma AppendKeepsNewest(logs: seq<string>, line: string)
    requires |logs| <= MaxLogLines
    ensures Last200(logs + [line]) == if |logs| < MaxLogLines then logs + [line] else logs[1..] + [line]
  {
    if |logs| == MaxLogLines {
      assert (logs + [line])[1..] == logs[1..] + [line];
    }
  }

  /** The dataset as the watcher holds it (the fields it reads or merges). */
  datatype Detail = Detail(status: Value, progress: Value, lastMessage: Value, updatedAt: Value, logs: seq<string>)

  /** A detail as the server returns it; a missing log list is `None`. */
  datatype Response = Response(status: Value, progress: Value, lastMessage: Value, updatedAt: Value, logs: Option<seq<string>>)

  /** A partial detail; a key the patch does not set reads as `Undefined`. */
  datatype Patch = Patch(status: Value, progress: Value, lastMessage: Value, updatedAt: Value, logs: Option<seq<string>>)

  /** applyPatch: merge a patch and an optional log line into the held detail. */
  function ApplyPatch(prev: Option<Detail>, patch: Patch, appendLog: Option<string>): (r: Option<Detail>)
    ensures r.Some? <==> prev.Some?
    ensures r.Some? && (patch.logs.Some? || (appendLog.Some? && appendLog.value != "")) ==> |r.value.logs| <= MaxLogLines
  {
    match prev
    case None => None
    case Some(p) =>
      var logs0 := if patch.logs.Some? then Last200(patch.logs.value) else p.logs;
      var logs := if appendLog.Some? && appendLog.value != "" then Last200(logs0 + [appendLog.value]) else logs0;
      Some(Detail(Coalesce(patch.status, p.status), Coalesce(patch.progress, Coalesce(p.progress, Num(0.0))),
                  Coalesce(patch.lastMessage, p.lastMessage), Coalesce(patch.updatedAt, p.updatedAt), logs))
  }

  /**
   * A patch changes only the fields it sets: an absent (nullish) field
   * keeps its previous value, with a progress of 0 when there was none; a
   * set field replaces it. The log is the previous one unless the patch
   * brings one, and an appended line lands at the end of the newest 200.
   */
  lemma PatchKeepsAbsentFields(p: Detail, patch: Patch, appendLog: Option<string>)
    ensures var r := ApplyPatch(Some(p), patch, appendLog).value;
      && r.status == (if IsNullish(patch.status) then p.status else patch.status)
      && r.lastMessage == (if IsNullish(patch.lastMessage) then p.lastMessage else patch.lastMessage)
      && r.updatedAt == (if IsNullish(patch.updatedAt) then p.updatedAt else patch.updatedAt)
      && r.progress == (if !IsNullish(patch.progress) then patch.progress
                        else if !IsNullish(p.progress) then p.progress else Num(0.0))
    ensures var r := ApplyPatch(Some(p), patch, appendLog).value;
      && (patch.logs.None? && (appendLog.None? || appendLog.value == "") ==> r.logs == p.logs)
      && (patch.logs.None? && appendLog.Some? && appendLog.value != "" ==> r.logs == Last200(p.logs + [appendLog.value]))
    ensures ApplyPatch(None, patch, appendLog) == None
  {
  }

  /**
   * fetchDetail's merge: the server's detail replaces the held one, except
   * that a missing progress, last message or log list falls back to the held
   * value (progress to 0), and the log is capped.
   */
  function MergeFetched(prev: Option<Detail>, d: Response): (r: Detail)
    ensures |r.logs| <= MaxLogLines
  {
    var prevLogs := if prev.Some? then prev.value.logs else [];
    var prevProgress := if prev.Some? then prev.value.progress else Undefined;
    var prevMessage := if prev.Some? then prev.value.lastMessage else Undefined;
    Detail(d.status, Coalesce(d.progress, Coalesce(prevProgress, Num(0.0))), Coalesce(d.lastMessage, prevMessage),
           d.updatedAt, Last200(if d.logs.Some? then d.logs.value else prevLogs))
  }

  /**
   * The server's status and update time always win, even when absent; its
   * logs win when present and otherwise the held logs stay (newest 200).
   */
  lemma FetchedWins(prev: Option<Detail>, d: Response)
    ensures var r := MergeFetched(prev, d);
      && r.status == d.status && r.updatedAt == d.updatedAt
      && (d.logs.Some? ==> r.logs == Last200(d.logs.value))
      && (d.logs.None? && prev.Some? ==> r.logs == Last200(prev.value.logs))
      && (d.logs.None? && prev.None? ==> r.logs == [])
      && (!IsNullish(d.progress) ==> r.progress == d.progress)
      && (IsNullish(d.progress) && prev.Some? && !IsNullish(prev.value.progress) ==> r.progress == prev.value.progress)
      && (IsNullish(d.progress) && (prev.None? || IsNullish(prev.value.progress)) ==> r.progress == Num(0.0))
      && (IsNullish(d.lastMessage) && prev.Some? ==> r.lastMessage == prev.value.lastMessage)
  {
  }

  // The watcher.

  /** A server-sent event channel: whether it is open, and the effect run that attached it. */
  datatype Channel = Channel(open: bool, run: nat)

  /** A detail request in flight: the id asked for, whether it shows loading, and the run to attach a channel for. */
  datatype Fetch = Fetch(id: string, showLoading: bool, attachRun: Option<nat>)

  /** How a detail request settles: a detail, or an exception (with its message when it is an Error). */
  datatype FetchOutcome = Got(detail: Response) | Threw(message: Option<string>)

  /** The hook's arguments, and whether the component using it is mounted. */
  datatype Props = Props(id: string, optEnabled: Option<bool>, mounted: bool)

  /** The state the hook returns, apart from the memoised `lastEvent` (see `Refs`). */
  datatype Shown = Shown(data: Option<Detail>, isLoading: bool, error: Option<string>, isPolling: bool)

  /**
   * The refs: the rendered status, whether the polling timer exists, the
   * held channel, every channel opened, the current effect run (with
   * whether it was an enabled run, which set up a cleanup), and the type of
   * the last event handled, which is written without causing a render.
   */
  datatype Refs = Refs(statusRef: Value, timer: bool, source: Option<nat>, channels: seq<Channel>, run: nat, runEnabled: bool,
                       lastEvent: Value)

  datatype Watcher = Watcher(variant: Variant, props: Props, shown: Shown, refs: Refs, fetches: seq<Fetch>, cancels: seq<string>)

  /** `Boolean(id) && (options.enabled ?? true)`. */
  predicate Enabled(p: Props) {
    p.id != "" && p.optEnabled.OrElse(true)
  }

  /** Whether the closures of effect run `r` have been cancelled by its cleanup. */
  predicate Cancelled(s: Watcher, r: nat) {
    !s.props.mounted || r != s.refs.run
  }

  /** `data?.status`. */
  function StatusOf(data: Option<Detail>): Value {
    if data.Some? then data.value.status else Undefined
  }

  /** stopPolling. */
  function StopPolling(s: Watcher): Watcher {
    s.(refs := s.refs.(timer := false), shown := s.shown.(isPolling := false))
  }

  /** stopEventSource. */
  function StopEventSource(s: Watcher): Watcher {
    match s.refs.source
    case None => s
    case Some(k) =>
      var cs := s.refs.channels;
      s.(refs := s.refs.(channels := if k < |cs| then cs[k := cs[k].(open := false)] else cs, source := None))
  }

  /** Both, as the terminal events, the effect's cleanup and disabling do. */
  function StopBoth(s: Watcher): Watcher {
    StopPolling(StopEventSource(s))
  }

  /** startPolling of a run that is not cancelled. */
  function StartPolling(s: Watcher): Watcher {
    var s1 := StopEventSource(s);
    if s1.refs.timer then s1 else s1.(refs := s1.refs.(timer := true), shown := s1.shown.(isPolling := true))
  }

  /** fetchDetail with the `enabled` and `id` its closure captured: issue the request. */
  function FetchDetail(s: Watcher, id: string, enabled: bool, showLoading: bool, attachRun: Option<nat>): Watcher {
    if !enabled then s
    else s.(shown := s.shown.(isLoading := s.shown.isLoading || showLoading),
            fetches := s.fetches + [Fetch(id, showLoading, attachRun)])
  }

  /** The watcher's effect, run on mounting and whenever `enabled` or `id` changes. */
  function EffectRun(s: Watcher): Watcher {
    var s0 := s.(refs := s.refs.(run := s.refs.run + 1, runEnabled := Enabled(s.props)));
    if !Enabled(s.props) then
      var s1 := StopBoth(s0);
      s1.(shown := s1.shown.(data := None, error := None, isLoading := false))
    else FetchDetail(s0, s.props.id, true, true, Some(s0.refs.run))
  }

  /** The effect's cleanup, when the run set one up. */
  function Cleanup(s: Watcher): Watcher {
    if s.refs.runEnabled then StopBoth(s) else s
  }

  function Mount(variant: Variant, id: string, optEnabled: Option<bool>): Watcher {
    EffectRun(Watcher(variant, Props(id, optEnabled, true), Shown(None, false, None, false),
                      Refs(Undefined, false, None, [], 0, false, Undefined), [], []))
  }

  /** The `.finally` after the effect's first fetch: attach a channel for the run. */
  function Attach(s: Watcher): Watcher {
    s.(refs := s.refs.(channels := s.refs.channels + [Channel(true, s.refs.run)], source := Some(|s.refs.channels|)))
  }

  /** The merge of a settled request into the returned state. */
  function Settle(sh: Shown, f: Fetch, outcome: FetchOutcome): Shown {
    var sh1 := match outcome
      case Got(d) => sh.(data := Some(MergeFetched(sh.data, d)), error := None)
      case Threw(m) => sh.(error := Some(m.OrElse(MsgFetchFailed)));
    if f.showLoading then sh1.(isLoading := false) else sh1
  }

  /** A detail request settles; the effect's first one then attaches the run's channel unless the run is cancelled. */
  function OnFetchSettled(s: Watcher, i: nat, outcome: FetchOutcome): Watcher {
    if i >= |s.fetches| then s
    else
      var f := s.fetches[i];
      var s1 := s.(fetches := s.fetches[..i] + s.fetches[i + 1..], shown := Settle(s.shown, f, outcome));
      if f.attachRun.Some? && !Cancelled(s1, f.attachRun.value) then Attach(s1) else s1
  }

  /** handleEvent: one event's JSON payload, with the type its listener names (if any). */
  function HandleEvent(rt: Runtime, s: Watcher, text: string, explicitType: Option<string>): Watcher {
    match rt.parseJson(text)
    case None => s
    case Some(payload) =>
      if payload.JNull? && explicitType.None? then s
      else
        var ty := if explicitType.Some? then Defined(JString(explicitType.value)) else Get(Defined(payload), "type");
        if !Truthy(ty) then s
        else
          var s1 := s.(refs := s.refs.(lastEvent := ty));
          // Every listened-for branch first reads a field of the payload, which throws on null.
          if payload.JNull? then s1
          else Dispatch(rt, s1, ty, Defined(payload))
  }

  /** The patch each event type applies, and the line a log event appends. */
  function EventPatch(rt: Runtime, ty: Value, p: Value): Option<(Patch, Option<string>)> {
    if ty == Defined(JString("status")) then
      Some((Patch(Get(p, "status"), Undefined, Undefined, Get(p, "updatedAt"), None), None))
    else if ty == Defined(JString("progress")) then
      Some((Patch(Undefined, Get(p, "progress"), Get(p, "lastMessage"), Get(p, "updatedAt"), None), None))
    else if ty == Defined(JString("log")) then
      var line := Get(p, "line");
      if Truthy(line) && line.json.JString? then
        var ts := Get(p, "ts");
        var formatted := if Truthy(ts) then "[" + rt.timeText(ts.json) + "] " + line.json.s else line.json.s;
        Some((Patch(Undefined, Undefined, Undefined, Undefined, None), Some(formatted)))
      else None
    else if ty == Defined(JString("done")) then
      Some((Patch(Get(p, "status"), Num(100.0), Undefined, Get(p, "updatedAt"), None), None))
    else if ty == Defined(JString("error")) then
      Some((Patch(Get(p, "status"), Undefined, Get(p, "lastMessage"), Get(p, "updatedAt"), None), None))
    else None
  }

  /** Whether an event type ends the push feed. */
  predicate Terminal(ty: Value) {
    ty == Defined(JString("done")) || ty == Defined(JString("error"))
  }

  /** The switch of handleEvent on a non-null payload: apply the patch, then stop both on a terminal event. */
  function Dispatch(rt: Runtime, s: Watcher, ty: Value, p: Value): Watcher {
    match EventPatch(rt, ty, p)
    case None => s
    case Some((patch, line)) =>
      var s1 := s.(shown := s.shown.(data := ApplyPatch(s.shown.data, patch, line)));
      if Terminal(ty) then StopBoth(s1) else s1
  }

  /**
   * The channel's `onerror` handler: unless its run is cancelled, close the
   * channel and poll while the last rendered status is not final. The
   * corrected handler also does nothing once the channel is no longer held.
   */
  function OnError(s: Watcher, k: nat): Watcher
    requires k < |s.refs.channels|
  {
    if Cancelled(s, s.refs.channels[k].run) then s
    else if s.variant == Corrected && s.refs.source != Some(k) then s
    else
      var s1 := StopEventSource(s);
      if !IsFinalStatus(s1.refs.statusRef) then StartPolling(s1) else s1
  }

  /** What can happen on a channel: an event of a given type, or a connection error. */
  datatype ChannelEvent = Message(eventType: string, data: string) | ConnectionLost

  /**
   * An event on an open channel reaches its listeners in the order they were
   * added: the typed listener, then the `on…` handler of the same type. A
   * connection error reaches the `error` listener with no data, which fails
   * to parse, and then `onerror`.
   */
  function OnChannel(rt: Runtime, s: Watcher, k: nat, e: ChannelEvent): Watcher {
    if k >= |s.refs.channels| || !s.refs.channels[k].open then s
    else
      match e
      case ConnectionLost => OnError(s, k)
      case Message(t, d) =>
        if t == "message" then HandleEvent(rt, s, d, None)
        else if t in ListenedTypes then
          var s1 := HandleEvent(rt, s, d, Some(t));
          if t == "error" then OnError(s1, k) else s1
        else s
  }

  datatype Input =
    | SetProps(id: string, optEnabled: Option<bool>)
    | Refetch
    | Cancel
    | CancelSettled(index: nat, ok: bool)
    | FetchSettled(index: nat, outcome: FetchOutcome)
    | Tick
    | OnChannelEvent(handle: nat, event: ChannelEvent)
    | Unmount

  /** New arguments: the effect re-runs (after its cleanup) when `enabled` or `id` changed. */
  function OnProps(s: Watcher, id: string, opt: Option<bool>): Watcher {
    var s1 := s.(props := s.props.(id := id, optEnabled := opt));
    if Enabled(s1.props) != Enabled(s.props) || id != s.props.id then EffectRun(Cleanup(s1)) else s1
  }

  /** A cancel request settles; on success the closure's fetchDetail runs. */
  function OnCancelSettled(s: Watcher, j: nat, ok: bool): Watcher {
    if j >= |s.cancels| then s
    else
      var s1 := s.(cancels := s.cancels[..j] + s.cancels[j + 1..]);
      if ok then FetchDetail(s1, s.cancels[j], true, true, None) else s1
  }

  function Handle(rt: Runtime, s: Watcher, i: Input): Watcher {
    match i
    case SetProps(id, opt) => OnProps(s, id, opt)
    case Refetch => FetchDetail(s, s.props.id, Enabled(s.props), true, None)
    case Cancel => if Enabled(s.props) then s.(cancels := s.cancels + [s.props.id]) else s
    case CancelSettled(j, ok) => OnCancelSettled(s, j, ok)
    case FetchSettled(j, outcome) => OnFetchSettled(s, j, outcome)
    case Tick => if s.refs.timer then FetchDetail(s, s.props.id, true, false, None) else s
    case OnChannelEvent(k, e) => OnChannel(rt, s, k, e)
    case Unmount =>
      var c := Cleanup(s);
      c.(props := c.props.(mounted := false))
  }

  /**
   * One input, then the status effect. After unmounting nothing the
   * watcher does is observable: state updates are dropped, the run is
   * cancelled and every channel and timer is stopped.
   */
  function Step(rt: Runtime, s: Watcher, i: Input): Watcher {
    if !s.props.mounted then s
    else
      var r := Handle(rt, s, i);
      r.(refs := r.refs.(statusRef := StatusOf(r.shown.data)))
  }

  function Run(rt: Runtime, s: Watcher, inputs: seq<Input>): Watcher
    decreases |inputs|
  {
    if |inputs| == 0 then s else Step(rt, Run(rt, s, inputs[..|inputs| - 1]), inputs[|inputs| - 1])
  }

  // The invariant.

  /**
   * At most one channel is open, and it is the held one, of the current
   * run; a channel of the current run exists only when that run is enabled.
   */
  predicate ChannelsOk(r: Refs) {
    && (r.source.Some? ==> r.source.value < |r.channels| && r.channels[r.source.value].open
                           && r.channels[r.source.value].run == r.run)
    && (forall k :: 0 <= k < |r.channels| && r.channels[k].open ==> r.source == Some(k))
    && (forall k :: 0 <= k < |r.channels| ==> r.channels[k].run <= r.run)
    && (forall k :: 0 <= k < |r.channels| && r.channels[k].run == r.run ==> r.runEnabled)
  }

  /** The fetch at `i` is the current run's first, which will attach its channel. */
  predicate Attaching(fetches: seq<Fetch>, run: nat, i: int) {
    0 <= i < |fetches| && fetches[i].attachRun == Some(run)
  }

  /**
   * Only the current run's first fetch can still attach, and while it is in
   * flight the run has no channel and no timer.
   */
  predicate AttachOk(fetches: seq<Fetch>, r: Refs, mounted: bool) {
    && (forall i :: 0 <= i < |fetches| && fetches[i].attachRun.Some? ==> fetches[i].attachRun.value <= r.run)
    && (forall i, j :: (0 <= i < |fetches| && 0 <= j < |fetches| && Attaching(fetches, r.run, i)
          && Attaching(fetches, r.run, j)) ==> i == j)
    && (forall i :: 0 <= i < |fetches| && Attaching(fetches, r.run, i) && mounted ==>
          r.source.None? && !r.timer && r.runEnabled)
    && (forall i, k :: 0 <= i < |fetches| && Attaching(fetches, r.run, i) && 0 <= k < |r.channels| ==>
          r.channels[k].run != r.run)
  }

  /** The refs and the requests in flight agree. */
  predicate RefsOk(r: Refs, fetches: seq<Fetch>, mounted: bool) {
    && !(r.source.Some? && r.timer)
    && ChannelsOk(r)
    && AttachOk(fetches, r, mounted)
    && (!mounted || !r.runEnabled ==> r.source.None? && !r.timer)
  }

  /** The returned state agrees with the refs, and the log is capped. */
  predicate ShownOk(sh: Shown, r: Refs) {
    && sh.isPolling == r.timer
    && (sh.data.Some? ==> |sh.data.value.logs| <= MaxLogLines)
  }

  /** Everything but the link between the current run and the arguments. */
  predicate Core(s: Watcher) {
    RefsOk(s.refs, s.fetches, s.props.mounted) && ShownOk(s.shown, s.refs)
  }

  predicate Inv(s: Watcher) {
    Core(s) && (s.props.mounted ==> s.refs.runEnabled == Enabled(s.props))
  }

  lemma MountInv(variant: Variant, id: string, optEnabled: Option<bool>)
    ensures Inv(Mount(variant, id, optEnabled))
  {
  }

  /** Under the invariant the push channel and polling are never both active, and a disabled watcher runs neither. */
  lemma InvExclusive(s: Watcher)
    requires Inv(s)
    ensures !(s.refs.source.Some? && s.shown.isPolling)
    ensures forall k, j :: (0 <= k < |s.refs.channels| && 0 <= j < |s.refs.channels| && s.refs.channels[k].open
      && s.refs.channels[j].open) ==> k == j
    ensures s.props.mounted && !Enabled(s.props) ==> s.refs.source.None? && !s.shown.isPolling
  {
  }

  /** Stopping both leaves no channel open and no timer, and keeps every run number. */
  lemma StopBothStops(s: Watcher)
    requires ChannelsOk(s.refs)
    ensures var r := StopBoth(s);
      && r.refs.source.None? && !r.refs.timer && !r.shown.isPolling
      && (forall k :: 0 <= k < |r.refs.channels| ==> !r.refs.channels[k].open)
      && |r.refs.channels| == |s.refs.channels|
      && (forall k :: 0 <= k < |r.refs.channels| ==> r.refs.channels[k].run == s.refs.channels[k].run)
      && r.fetches == s.fetches && r.props == s.props && r.refs.run == s.refs.run
      && r.refs.runEnabled == s.refs.runEnabled && r.shown.data == s.shown.data && r.variant == s.variant
      && r.refs.statusRef == s.refs.statusRef
  {
  }

  lemma StopKeepsCore(s: Watcher)
    requires Core(s)
    ensures Core(StopBoth(s))
  {
    StopBothStops(s);
    var r := StopBoth(s);
    assert ChannelsOk(r.refs);
    assert AttachOk(r.fetches, r.refs, r.props.mounted);
  }

  lemma EffectRunKeepsInv(s: Watcher)
    requires Core(s) && s.props.mounted && s.refs.source.None? && !s.refs.timer
    ensures Inv(EffectRun(s))
  {
    var s0 := s.(refs := s.refs.(run := s.refs.run + 1, runEnabled := Enabled(s.props)));
    assert forall k :: 0 <= k < |s.refs.channels| ==> !s.refs.channels[k].open;
    assert forall i :: 0 <= i < |s.fetches| ==> !Attaching(s.fetches, s0.refs.run, i);
    if Enabled(s.props) {
      var r := EffectRun(s);
      assert r.fetches == s.fetches + [Fetch(s.props.id, true, Some(s0.refs.run))];
      assert forall i :: 0 <= i < |s.fetches| ==> r.fetches[i] == s.fetches[i];
      assert RefsOk(r.refs, r.fetches, r.props.mounted);
    } else {
      StopBothStops(s0);
    }
  }

  lemma PropsKeepInv(s: Watcher, id: string, opt: Option<bool>)
    requires Inv(s) && s.props.mounted
    ensures Inv(OnProps(s, id, opt))
  {
    var s1 := s.(props := s.props.(id := id, optEnabled := opt));
    if Enabled(s1.props) != Enabled(s.props) || id != s.props.id {
      assert Core(s1);
      if s1.refs.runEnabled {
        StopKeepsCore(s1);
        StopBothStops(s1);
      }
      EffectRunKeepsInv(Cleanup(s1));
    }
  }

  /** A request that attaches nothing keeps the refs' agreement with the requests in flight. */
  lemma AppendFetchKeepsRefs(r: Refs, fetches: seq<Fetch>, mounted: bool, f: Fetch)
    requires RefsOk(r, fetches, mounted) && f.attachRun.None?
    ensures RefsOk(r, fetches + [f], mounted)
  {
    var fs := fetches + [f];
    assert forall i :: 0 <= i < |fetches| ==> fs[i] == fetches[i];
    assert forall i :: 0 <= i < |fs| && Attaching(fs, r.run, i) ==> Attaching(fetches, r.run, i);
  }

  lemma FetchKeepsInv(s: Watcher, id: string, enabled: bool, showLoading: bool)
    requires Inv(s)
    ensures Inv(FetchDetail(s, id, enabled, showLoading, None))
  {
    if enabled {
      AppendFetchKeepsRefs(s.refs, s.fetches, s.props.mounted, Fetch(id, showLoading, None));
    }
  }

  /** Removing a request keeps the refs' agreement with the requests in flight. */
  lemma RemoveFetchKeepsRefs(r: Refs, fetches: seq<Fetch>, mounted: bool, i: nat, fs: seq<Fetch>)
    requires RefsOk(r, fetches, mounted) && i < |fetches| && fs == fetches[..i] + fetches[i + 1..]
    ensures RefsOk(r, fs, mounted)
    ensures Attaching(fetches, r.run, i) ==> forall j :: 0 <= j < |fs| ==> !Attaching(fs, r.run, j)
  {
    assert forall j :: 0 <= j < |fs| ==> fs[j] == fetches[if j < i then j else j + 1];
    assert forall j :: 0 <= j < |fs| && Attaching(fs, r.run, j) ==> Attaching(fetches, r.run, if j < i then j else j + 1);
  }

  lemma SettleKeepsInv(s: Watcher, i: nat, outcome: FetchOutcome)
    requires Inv(s)
    ensures Inv(OnFetchSettled(s, i, outcome))
  {
    if i < |s.fetches| {
      var f := s.fetches[i];
      var s1 := s.(fetches := s.fetches[..i] + s.fetches[i + 1..], shown := Settle(s.shown, f, outcome));
      RemoveFetchKeepsRefs(s.refs, s.fetches, s.props.mounted, i, s1.fetches);
      assert Inv(s1);
      if f.attachRun.Some? && !Cancelled(s1, f.attachRun.value) {
        assert Attaching(s.fetches, s.refs.run, i);
        AttachKeepsInv(s1);
      }
    }
  }

  lemma AttachKeepsInv(s: Watcher)
    requires Inv(s) && s.props.mounted && s.refs.runEnabled && s.refs.source.None? && !s.refs.timer
    requires forall j :: 0 <= j < |s.fetches| ==> !Attaching(s.fetches, s.refs.run, j)
    ensures Inv(Attach(s))
  {
    var r := Attach(s);
    assert forall k :: 0 <= k < |s.refs.channels| ==> r.refs.channels[k] == s.refs.channels[k];
    assert ChannelsOk(r.refs);
    assert AttachOk(r.fetches, r.refs, r.props.mounted);
  }

  /** Replacing the data by a patched one keeps the invariant. */
  lemma PatchKeepsInv(s: Watcher, patch: Patch, line: Option<string>)
    requires Inv(s) && patch.logs.None?
    ensures Inv(s.(shown := s.shown.(data := ApplyPatch(s.shown.data, patch, line))))
  {
  }

  lemma DispatchKeepsInv(rt: Runtime, s: Watcher, ty: Value, p: Value)
    requires Inv(s)
    ensures Inv(Dispatch(rt, s, ty, p))
  {
    match EventPatch(rt, ty, p) {
      case None =>
      case Some((patch, line)) =>
        var d := ApplyPatch(s.shown.data, patch, line);
        PatchKeepsInv(s, patch, line);
        SetDataKeepsInv(s, d);
    }
  }

  /** Holding new data with a bounded log keeps the invariant, and so does stopping both transports after. */
  lemma SetDataKeepsInv(s: Watcher, d: Option<Detail>)
    requires Inv(s) && Inv(s.(shown := s.shown.(data := d)))
    ensures Inv(StopBoth(s.(shown := s.shown.(data := d))))
  {
    var s1 := s.(shown := s.shown.(data := d));
    StopKeepsCore(s1);
    StopBothStops(s1);
  }

  lemma HandleEventKeepsInv(rt: Runtime, s: Watcher, text: string, explicitType: Option<string>)
    requires Inv(s)
    ensures Inv(HandleEvent(rt, s, text, explicitType))
  {
    match rt.parseJson(text) {
      case None =>
      case Some(payload) =>
        if !(payload.JNull? && explicitType.None?) {
          var ty := if explicitType.Some? then Defined(JString(explicitType.value)) else Get(Defined(payload), "type");
          if Truthy(ty) && !payload.JNull? {
            var s1 := s.(refs := s.refs.(lastEvent := ty));
            assert Inv(s1);
            DispatchKeepsInv(rt, s1, ty, Defined(payload));
          }
        }
    }
  }

  /** Polling starting once the held channel is closed keeps the invariant. */
  lemma FallbackKeepsInv(s: Watcher)
    requires Inv(s) && s.props.mounted && s.refs.runEnabled
    requires forall i :: 0 <= i < |s.fetches| ==> !Attaching(s.fetches, s.refs.run, i)
    ensures Inv(StartPolling(StopEventSource(s)))
    ensures Inv(StopEventSource(s))
  {
    var s1 := StopEventSource(s);
    assert forall j :: 0 <= j < |s1.refs.channels| ==> !s1.refs.channels[j].open;
    assert forall j :: 0 <= j < |s1.refs.channels| ==> s1.refs.channels[j].run == s.refs.channels[j].run;
    assert RefsOk(s1.refs, s1.fetches, true);
    var s2 := StartPolling(s1);
    assert RefsOk(s2.refs, s2.fetches, true);
  }

  lemma OnErrorKeepsInv(s: Watcher, k: nat)
    requires Inv(s) && k < |s.refs.channels|
    ensures Inv(OnError(s, k))
  {
    if !Cancelled(s, s.refs.channels[k].run) && !(s.variant == Corrected && s.refs.source != Some(k)) {
      assert s.refs.runEnabled;
      assert forall i :: 0 <= i < |s.fetches| ==> !Attaching(s.fetches, s.refs.run, i);
      FallbackKeepsInv(s);
    }
  }

  lemma ChannelKeepsInv(rt: Runtime, s: Watcher, k: nat, e: ChannelEvent)
    requires Inv(s)
    ensures Inv(OnChannel(rt, s, k, e))
  {
    if k < |s.refs.channels| && s.refs.channels[k].open {
      match e {
        case ConnectionLost => OnErrorKeepsInv(s, k);
        case Message(t, d) =>
          if t == "message" {
            HandleEventKeepsInv(rt, s, d, None);
          } else if t in ListenedTypes {
            HandleEventKeepsInv(rt, s, d, Some(t));
            if t == "error" {
              OnErrorKeepsInv(HandleEvent(rt, s, d, Some(t)), k);
            }
          }
      }
    }
  }

  lemma UnmountKeepsInv(rt: Runtime, s: Watcher)
    requires Inv(s)
    ensures Inv(Handle(rt, s, Unmount))
  {
    var c := Cleanup(s);
    if s.refs.runEnabled {
      StopKeepsCore(s);
      StopBothStops(s);
    }
    assert Core(c);
    assert RefsOk(c.refs, c.fetches, false);
  }

  lemma CancelSettledKeepsInv(s: Watcher, j: nat, ok: bool)
    requires Inv(s)
    ensures Inv(OnCancelSettled(s, j, ok))
  {
    if j < |s.cancels| {
      var s1 := s.(cancels := s.cancels[..j] + s.cancels[j + 1..]);
      assert Inv(s1);
      FetchKeepsInv(s1, s.cancels[j], ok, true);
    }
  }

  lemma StepKeepsInv(rt: Runtime, s: Watcher, i: Input)
    requires Inv(s)
    ensures Inv(Step(rt, s, i))
  {
    if s.props.mounted {
      match i {
        case SetProps(id, opt) => PropsKeepInv(s, id, opt);
        case Refetch => FetchKeepsInv(s, s.props.id, Enabled(s.props), true);
        case Cancel =>
        case CancelSettled(j, ok) => CancelSettledKeepsInv(s, j, ok);
        case FetchSettled(j, outcome) => SettleKeepsInv(s, j, outcome);
        case Tick => FetchKeepsInv(s, s.props.id, s.refs.timer, false);
        case OnChannelEvent(k, e) => ChannelKeepsInv(rt, s, k, e);
        case Unmount => UnmountKeepsInv(rt, s);
      }
      StatusEffectKeepsInv(Handle(rt, s, i));
    }
  }

  /** The status effect touches only `statusRef`. */
  lemma StatusEffectKeepsInv(r: Watcher)
    requires Inv(r)
    ensures Inv(r.(refs := r.refs.(statusRef := StatusOf(r.shown.data))))
  {
    var r1 := r.(refs := r.refs.(statusRef := StatusOf(r.shown.data)));
    assert ChannelsOk(r1.refs);
    assert AttachOk(r1.fetches, r1.refs, r1.props.mounted);
  }

  /**
   * Whatever happens after mounting, the push channel and polling are never
   * active together, at most one channel is open, and a disabled watcher
   * runs neither.
   */
  lemma {:induction false} RunExclusive(rt: Runtime, s: Watcher, inputs: seq<Input>)
    requires Inv(s)
    ensures Inv(Run(rt, s, inputs))
    ensures !(Run(rt, s, inputs).refs.source.Some? && Run(rt, s, inputs).shown.isPolling)
  {
    if |inputs| > 0 {
      RunExclusive(rt, s, inputs[..|inputs| - 1]);
      StepKeepsInv(rt, Run(rt, s, inputs[..|inputs| - 1]), inputs[|inputs| - 1]);
    }
  }

  // Behaviour.

  /** Disabling the watcher (or clearing the id) stops both channels and clears the data, the error and loading. */
  lemma DisableStopsAll(rt: Runtime, s: Watcher, id: string, opt: Option<bool>)
    requires Inv(s) && s.props.mounted && Enabled(s.props)
    requires id == "" || opt == Some(false)
    ensures var r := Step(rt, s, SetProps(id, opt));
      && r.refs.source.None? && !r.refs.timer && !r.shown.isPolling
      && r.shown.data.None? && r.shown.error.None? && !r.shown.isLoading
      && forall k :: 0 <= k < |r.refs.channels| ==> !r.refs.channels[k].open
  {
    var s1 := s.(props := s.props.(id := id, optEnabled := opt));
    StopBothStops(s1);
    var c := StopBoth(s1);
    StopBothStops(c.(refs := c.refs.(run := c.refs.run + 1, runEnabled := false)));
  }

  /** A channel failure closes the channel and polls exactly when the rendered status is not final. */
  lemma ConnectionLostFallsBack(rt: Runtime, s: Watcher, k: nat)
    requires Inv(s) && s.props.mounted && s.refs.source == Some(k)
    ensures var r := Step(rt, s, OnChannelEvent(k, ConnectionLost));
      && r.refs.source.None? && !r.refs.channels[k].open
      && (r.refs.timer <==> !IsFinalStatus(s.refs.statusRef))
      && r.shown.isPolling == r.refs.timer
  {
  }

  /** A `done` event sets the status and a progress of 100, and stops both channels, in both variants. */
  lemma DoneStopsBoth(rt: Runtime, s: Watcher, k: nat, text: string)
    requires Inv(s) && s.props.mounted && s.refs.source == Some(k) && s.shown.data.Some?
    requires rt.parseJson(text).Some? && rt.parseJson(text).value.JObject?
    ensures var r := Step(rt, s, OnChannelEvent(k, Message("done", text)));
      var payload := Defined(rt.parseJson(text).value);
      && r.refs.source.None? && !r.refs.timer && !r.shown.isPolling
      && r.shown.data.Some? && r.shown.data.value.progress == Num(100.0)
      && (!IsNullish(Get(payload, "status")) ==> r.shown.data.value.status == Get(payload, "status"))
  {
  }

  /** Events without a usable type, log events without a line, and unparseable payloads change nothing but the `lastEvent` ref. */
  lemma IgnoredEvents(rt: Runtime, s: Watcher, text: string, explicitType: Option<string>)
    ensures rt.parseJson(text).None? ==> HandleEvent(rt, s, text, explicitType) == s
    ensures explicitType.None? && rt.parseJson(text).Some? && !Truthy(Get(Defined(rt.parseJson(text).value), "type"))
      ==> HandleEvent(rt, s, text, explicitType) == s
    ensures explicitType == Some("log") && rt.parseJson(text).Some?
      && !Truthy(Get(Defined(rt.parseJson(text).value), "line"))
      ==> HandleEvent(rt, s, text, explicitType) == s.(refs := s.refs.(lastEvent := Defined(JString("log"))))
  {
  }

  /** A log event appends its line, prefixed by the formatted time when there is one. */
  lemma LogAppends(rt: Runtime, s: Watcher, text: string, line: string)
    requires s.shown.data.Some? && line != ""
    requires rt.parseJson(text).Some? && rt.parseJson(text).value.JObject?
    requires Get(Defined(rt.parseJson(text).value), "line") == Defined(JString(line))
    ensures var ts := Get(Defined(rt.parseJson(text).value), "ts");
      var formatted := if Truthy(ts) then "[" + rt.timeText(ts.json) + "] " + line else line;
      HandleEvent(rt, s, text, Some("log")).shown.data.value.logs == Last200(s.shown.data.value.logs + [formatted])
  {
    var p := Defined(rt.parseJson(text).value);
    var ty := Defined(JString("log"));
    var ts := Get(p, "ts");
    var formatted := if Truthy(ts) then "[" + rt.timeText(ts.json) + "] " + line else line;
    var s1 := s.(refs := s.refs.(lastEvent := ty));
    assert HandleEvent(rt, s, text, Some("log")) == Dispatch(rt, s1, ty, p);
    assert EventPatch(rt, ty, p) == Some((Patch(Undefined, Undefined, Undefined, Undefined, None), Some(formatted)));
  }

  /**
   * A poll that returns a final status does not stop polling: only the
   * push channel's terminal events and disabling stop the timer.
   */
  lemma PollingOutlivesFinalStatus(rt: Runtime, s: Watcher, i: nat, d: Response)
    requires Inv(s) && s.props.mounted && s.refs.timer && i < |s.fetches| && IsFinalStatus(d.status)
    ensures var r := Step(rt, s, FetchSettled(i, Got(d)));
      r.refs.timer && r.shown.isPolling && IsFinalStatus(r.refs.statusRef)
  {
  }

  /**
   * A detail request still in flight when the watcher is disabled fills the
   * data again when it settles: the effect's cleanup does not cancel it.
   */
  lemma LateFetchRefills(rt: Runtime, s: Watcher, i: nat, d: Response)
    requires s.props.mounted && !Enabled(s.props) && i < |s.fetches|
    ensures Step(rt, s, FetchSettled(i, Got(d))).shown.data.Some?
  {
  }

  /** A successful cancel request is followed by a detail request that shows loading. */
  lemma CancelRefetches(rt: Runtime, s: Watcher, j: nat)
    requires s.props.mounted && j < |s.cancels|
    ensures var r := Step(rt, s, CancelSettled(j, true));
      r.shown.isLoading && |r.fetches| == |s.fetches| + 1 && r.fetches[|s.fetches|] == Fetch(s.cancels[j], true, None)
  {
  }

  // Finding: a server-sent `error` event reaches `onerror` too.

  /**
   * As written, a server-sent `error` event on the held channel, while the
   * rendered status is not final, stops both channels in the listener and
   * then starts polling in `onerror`, which reads the status of the last
   * render; and polling then never stops by itself.
   */
  lemma ErrorEventStartsPolling(rt: Runtime, s: Watcher, k: nat, text: string)
    requires Inv(s) && s.variant == AsWritten && s.props.mounted && s.refs.source == Some(k)
    requires !IsFinalStatus(s.refs.statusRef)
    requires rt.parseJson(text).Some? && rt.parseJson(text).value.JObject?
    ensures var r := Step(rt, s, OnChannelEvent(k, Message("error", text)));
      r.refs.source.None? && r.refs.timer && r.shown.isPolling
  {
    var s1 := HandleEvent(rt, s, text, Some("error"));
    assert s1.refs.source.None? && !s1.refs.timer && s1.refs.statusRef == s.refs.statusRef;
    assert s1.refs.channels[k].run == s.refs.run;
  }

  /** Corrected, the `done` and `error` events leave neither the channel nor polling running. */
  lemma CorrectedTerminalEventsStopBoth(rt: Runtime, s: Watcher, k: nat, t: string, text: string)
    requires Inv(s) && s.variant == Corrected && s.props.mounted && s.refs.source == Some(k)
    requires t == "done" || t == "error"
    requires rt.parseJson(text).Some? && rt.parseJson(text).value.JObject?
    ensures var r := Step(rt, s, OnChannelEvent(k, Message(t, text)));
      r.refs.source.None? && !r.refs.timer && !r.shown.isPolling
  {
    var s1 := HandleEvent(rt, s, text, Some(t));
    assert s1.refs.source.None? && !s1.refs.timer;
  }
}
