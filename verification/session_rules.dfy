/**
 * The rules that decide which actions a replay session admits: the status
 * flags, the guarded handlers of the session control card, its button
 * predicates, and the per-row buttons of the session list.
 */
module SessionRules {
  import opened Wrappers
  import opened JsValues
  import opened Text

  /** A session as the dashboard receives it. */
  datatype Session = Session(id: string, enabled: bool, status: string)

  /** The flags derived from a session's status text. */
  datatype StatusFlags = StatusFlags(isRunning: bool, isPaused: bool, isEnded: bool, isTerminal: bool)

  /** A request to the backend. */
  datatype Mutation =
    | Start(id: string)
    | Pause(id: string)
    | Resume(id: string)
    | Seek(id: string, timestamp: JsNumber)
    | Enable(id: string)
    | Disable(id: string)
    | Delete(id: string)

  /** What a click does: an error toast and nothing else, or one request. */
  datatype Outcome = Refused(message: string) | Issue(mutation: Mutation)

  const MsgDisabled := "La sesión está deshabilitada"
  const MsgAlreadyRunning := "La sesión ya está en ejecución"
  const MsgNotRunning := "La sesión no está en ejecución"
  const MsgNotPaused := "La sesión no está pausada"
  const MsgNoTimestamp := "Ingresá un timestamp"
  const MsgSeekNeedsRunning := "La sesión debe estar en ejecución para hacer seek"
  const MsgNoMoreMoves := "La sesión no admite más movimientos"
  const MsgBadTimestamp := "Timestamp inválido"

  /**
   * Reference definition: `status` spells the lower-case `name` in any mix
   * of ASCII cases.
   */
  predicate SameIgnoringCase(status: string, name: string) {
    |status| == |name| && forall i :: 0 <= i < |name| ==> LowerChar(status[i]) == name[i]
  }

  /** Lower-casing then comparing is the case-insensitive comparison. */
  lemma LowerEqualsIff(status: string, name: string)
    ensures ToLower(status) == name <==> SameIgnoringCase(status, name)
  {
    if SameIgnoringCase(status, name) {
      assert forall i :: 0 <= i < |name| ==> ToLower(status)[i] == name[i];
    }
  }

  /**
   * The status flags: running, paused and ended are case-insensitive
   * matches, and a session is terminal when its status is completed, ended
   * or failed. A running session is never terminal nor paused.
   */
  function NormalizeSessionStatus(status: string): (r: StatusFlags)
    ensures r.isRunning <==> SameIgnoringCase(status, "running")
    ensures r.isPaused <==> SameIgnoringCase(status, "paused")
    ensures r.isEnded <==> SameIgnoringCase(status, "ended")
    ensures r.isTerminal <==> (SameIgnoringCase(status, "completed") || SameIgnoringCase(status, "ended")
      || SameIgnoringCase(status, "failed"))
    ensures !(r.isRunning && r.isTerminal) && !(r.isRunning && r.isPaused) && !(r.isPaused && r.isTerminal)
    ensures r.isEnded ==> r.isTerminal
  {
    LowerEqualsIff(status, "running");
    LowerEqualsIff(status, "paused");
    LowerEqualsIff(status, "ended");
    LowerEqualsIff(status, "completed");
    LowerEqualsIff(status, "failed");
    var n := ToLower(status);
    StatusFlags(n == "running", n == "paused", n == "ended", n == "completed" || n == "ended" || n == "failed")
  }

  /** The status flags depend on the letters only, not on their case. */
  lemma StatusCaseInsensitive(a: string, b: string)
    requires ToLower(a) == ToLower(b)
    ensures NormalizeSessionStatus(a) == NormalizeSessionStatus(b)
  {
  }

  // The control card.

  /** The Start handler: refused for a disabled or running session, allowed from any other status. */
  function HandleStart(s: Session): (r: Outcome)
    ensures r.Issue? <==> s.enabled && !SameIgnoringCase(s.status, "running")
    ensures r.Issue? ==> r.mutation == Start(s.id)
    ensures !s.enabled ==> r == Refused(MsgDisabled)
  {
    if !s.enabled then Refused(MsgDisabled)
    else if NormalizeSessionStatus(s.status).isRunning then Refused(MsgAlreadyRunning)
    else Issue(Start(s.id))
  }

  /** The Pause handler: needs an enabled, running session. */
  function HandlePause(s: Session): (r: Outcome)
    ensures r.Issue? <==> s.enabled && SameIgnoringCase(s.status, "running")
    ensures r.Issue? ==> r.mutation == Pause(s.id)
    ensures !s.enabled ==> r == Refused(MsgDisabled)
  {
    if !s.enabled then Refused(MsgDisabled)
    else if !NormalizeSessionStatus(s.status).isRunning then Refused(MsgNotRunning)
    else Issue(Pause(s.id))
  }

  /** The Resume handler: needs an enabled, paused session. */
  function HandleResume(s: Session): (r: Outcome)
    ensures r.Issue? <==> s.enabled && SameIgnoringCase(s.status, "paused")
    ensures r.Issue? ==> r.mutation == Resume(s.id)
    ensures !s.enabled ==> r == Refused(MsgDisabled)
  {
    if !s.enabled then Refused(MsgDisabled)
    else if !NormalizeSessionStatus(s.status).isPaused then Refused(MsgNotPaused)
    else Issue(Resume(s.id))
  }

  /**
   * The Seek handler. Its checks run in a fixed order: a value was typed,
   * the session is enabled, it is running, it is not terminal, and the value
   * is a number; the request goes out only when all of them pass.
   */
  function HandleSeek(rt: Runtime, s: Session, seekValue: string): (r: Outcome)
    ensures r.Issue? <==> (seekValue != "" && s.enabled && SameIgnoringCase(s.status, "running")
      && rt.stringToNumber(seekValue) != NaN)
    ensures r.Issue? ==> r.mutation == Seek(s.id, rt.stringToNumber(seekValue))
    ensures seekValue == "" ==> r == Refused(MsgNoTimestamp)
    ensures seekValue != "" && !s.enabled ==> r == Refused(MsgDisabled)
    ensures (seekValue != "" && s.enabled && !SameIgnoringCase(s.status, "running")) ==> r == Refused(MsgSeekNeedsRunning)
    ensures (seekValue != "" && s.enabled && SameIgnoringCase(s.status, "running")
      && rt.stringToNumber(seekValue) == NaN) ==> r == Refused(MsgBadTimestamp)
  {
    var flags := NormalizeSessionStatus(s.status);
    if seekValue == "" then Refused(MsgNoTimestamp)
    else if !s.enabled then Refused(MsgDisabled)
    else if !flags.isRunning then Refused(MsgSeekNeedsRunning)
    else if flags.isTerminal then Refused(MsgNoMoreMoves)
    else
      var timestamp := rt.stringToNumber(seekValue);
      if timestamp == NaN then Refused(MsgBadTimestamp) else Issue(Seek(s.id, timestamp))
  }

  /** Seek's terminal guard can never fire: a session that passed the running guard is not terminal. */
  lemma SeekTerminalGuardUnreachable(rt: Runtime, s: Session, seekValue: string)
    ensures HandleSeek(rt, s, seekValue) != Refused(MsgNoMoreMoves)
  {
  }

  /** The enable/disable button disables an enabled session and enables a disabled one. */
  function HandleToggleEnabled(s: Session): (r: Mutation)
    ensures r.id == s.id
    ensures r.Disable? <==> s.enabled
    ensures r.Enable? <==> !s.enabled
  {
    if s.enabled then Disable(s.id) else Enable(s.id)
  }

  /** Delete goes out only once the user has confirmed. */
  function HandleDelete(s: Session, confirmed: bool): (r: Option<Mutation>)
    ensures r.Some? <==> confirmed
    ensures r.Some? ==> r.value == Delete(s.id)
  {
    if confirmed then Some(Delete(s.id)) else None
  }

  predicate StartButtonDisabled(pending: bool, s: Session) {
    pending || NormalizeSessionStatus(s.status).isRunning || !s.enabled
  }

  predicate PauseButtonDisabled(pending: bool, s: Session) {
    pending || !NormalizeSessionStatus(s.status).isRunning || !s.enabled
  }

  predicate ResumeButtonDisabled(pending: bool, s: Session) {
    pending || !NormalizeSessionStatus(s.status).isPaused || !s.enabled
  }

  predicate SeekButtonDisabled(pending: bool, s: Session) {
    var flags := NormalizeSessionStatus(s.status);
    pending || !s.enabled || flags.isTerminal || !flags.isRunning
  }

  /** The enable/disable button is disabled while any enable, disable or delete request is pending. */
  predicate ToggleEnabledDisabled(enabling: bool, disabling: bool, deleting: bool) {
    enabling || disabling || deleting
  }

  /**
   * Each button of the card is clickable exactly when no request of its kind
   * is pending and its handler's guards pass; the seek button, when the
   * guards that do not look at the typed value pass.
   */
  lemma ControlButtonsMatchHandlers(rt: Runtime, pending: bool, s: Session)
    ensures !StartButtonDisabled(pending, s) <==> !pending && HandleStart(s).Issue?
    ensures !PauseButtonDisabled(pending, s) <==> !pending && HandlePause(s).Issue?
    ensures !ResumeButtonDisabled(pending, s) <==> !pending && HandleResume(s).Issue?
    ensures !SeekButtonDisabled(pending, s) <==> !pending && s.enabled && SameIgnoringCase(s.status, "running")
    ensures forall v :: !SeekButtonDisabled(pending, s) && v != "" && rt.stringToNumber(v) != NaN ==>
      HandleSeek(rt, s, v).Issue?
  {
  }

  // The session list rows.

  /** A row's Start button: disabled while starting, and for a running or finished session. */
  predicate RowStartDisabled(starting: bool, status: string) {
    var flags := NormalizeSessionStatus(status);
    starting || flags.isRunning || flags.isTerminal
  }

  /** A row's Pause button: enabled only for a running session that is not finished. */
  predicate RowPauseDisabled(pausing: bool, status: string) {
    var flags := NormalizeSessionStatus(status);
    pausing || !flags.isRunning || flags.isTerminal
  }

  /** A row's Resume button: enabled only for a paused session that is not finished. */
  predicate RowResumeDisabled(resuming: bool, status: string) {
    var flags := NormalizeSessionStatus(status);
    resuming || !flags.isPaused || flags.isTerminal
  }

  /**
   * The rows' "not finished" conditions on Pause and Resume are redundant:
   * the buttons depend only on the pending flag and on the session running
   * (resp. being paused).
   */
  lemma RowButtonsReduce(pending: bool, status: string)
    ensures RowPauseDisabled(pending, status) <==> pending || !SameIgnoringCase(status, "running")
    ensures RowResumeDisabled(pending, status) <==> pending || !SameIgnoringCase(status, "paused")
    ensures RowStartDisabled(pending, status) <==> (pending || SameIgnoringCase(status, "running")
      || SameIgnoringCase(status, "completed") || SameIgnoringCase(status, "ended") || SameIgnoringCase(status, "failed"))
  {
  }

  /**
   * The rows and the control card disagree on finished sessions: the card
   * lets an enabled "ended" session start again, a row does not. Elsewhere
   * the card's Start is clickable whenever a row's is, for an enabled session.
   */
  lemma RowAndCardStart(pending: bool, id: string, status: string)
    ensures !RowStartDisabled(pending, status) ==> !StartButtonDisabled(pending, Session(id, true, status))
    ensures RowStartDisabled(false, "ended") && !StartButtonDisabled(false, Session(id, true, "ended"))
  {
    assert SameIgnoringCase("ended", "ended");
    assert !SameIgnoringCase("ended", "running") by {
      assert LowerChar("ended"[0]) != "running"[0];
    }
  }
}
