/**
 * The session-creation form: its field-error map and `clearErrors`, the
 * clamp of the chosen times into the dataset's available range, the resets
 * a field change causes, the creation schema and the submit checks.
 *
 * Date-time text conversion is a browser built-in and is supplied as a
 * `DateCodec`; nothing here assumes that formatting and parsing invert each
 * other.
 */
module SessionForm {
  import opened Wrappers
  import opened JsValues

  /** Field name to error message. */
  type Errors = map<string, string>

  /** A React state update: keep the previous value (no re-render), or replace it. */
  datatype Update<T> = Keep | Replace(next: T)

  function Apply<T>(u: Update<T>, prev: T): T {
    if u.Keep? then prev else u.next
  }

  /**
   * `clearErrors(...keys)`: the same map when none of the keys carries an
   * error, and otherwise the map without exactly those keys.
   */
  function ClearErrors(prev: Errors, keys: seq<string>): (r: Update<Errors>)
    ensures r.Keep? <==> forall k :: k in keys ==> k !in prev
    ensures r.Replace? ==> r.next.Keys == prev.Keys - (set k | k in keys)
    ensures r.Replace? ==> forall k :: k in r.next ==> r.next[k] == prev[k]
  {
    if |keys| == 0 then Keep
    else if forall k :: k in keys ==> k !in prev then Keep
    else Replace(prev - (set k | k in keys))
  }

  /** After `clearErrors`, none of the keys carries an error, and clearing again keeps the map. */
  lemma ClearErrorsClears(prev: Errors, keys: seq<string>)
    ensures forall k :: k in keys ==> k !in Apply(ClearErrors(prev, keys), prev)
    ensures forall k :: k in prev && k !in keys ==> k in Apply(ClearErrors(prev, keys), prev)
    ensures ClearErrors(Apply(ClearErrors(prev, keys), prev), keys).Keep?
  {
  }

  /** `new Date(text).getTime()` and `new Date(ms).toISOString().slice(0, 16)`. */
  datatype DateCodec = DateCodec(
    /** The instant a date-time text denotes; `None` when it is NaN. */
    fromText: string -> Option<int>,
    /** The date-time text shown for an instant. */
    toText: int -> string
  )

  /** `parseDatetimeLocal`: NaN for the empty text, otherwise the parsed instant. */
  function ParseDatetimeLocal(dc: DateCodec, text: string): (r: Option<int>)
    ensures text == "" ==> r.None?
    ensures text != "" ==> r == dc.fromText(text)
  {
    if text == "" then None else dc.fromText(text)
  }

  /** The first open time and last close time of a dataset, in milliseconds. */
  datatype Range = Range(firstOpenTime: int, lastCloseTime: int)

  predicate InRange(ms: int, range: Range) {
    range.firstOpenTime <= ms <= range.lastCloseTime
  }

  /** A time field the range effect keeps: non-empty, parseable and inside the range. */
  predicate KeepsTime(dc: DateCodec, text: string, range: Range) {
    text != "" && ParseDatetimeLocal(dc, text).Some? && InRange(ParseDatetimeLocal(dc, text).value, range)
  }

  datatype FormState = FormState(symbol: string, interval: string, startTime: string, endTime: string,
                                 speed: string, seed: string)

  const InitialForm := FormState("", "", "", "", "1", "123")

  /**
   * The range effect's state update: a start or end that is empty,
   * unparseable or outside the range is replaced by the range's own bound,
   * and the state is kept as it is when both are valid.
   */
  function ClampToRange(dc: DateCodec, prev: FormState, range: Range): (r: Update<FormState>)
    ensures r.Keep? <==> KeepsTime(dc, prev.startTime, range) && KeepsTime(dc, prev.endTime, range)
    ensures var f := Apply(r, prev);
      && f.symbol == prev.symbol && f.interval == prev.interval && f.speed == prev.speed && f.seed == prev.seed
      && f.startTime == (if KeepsTime(dc, prev.startTime, range) then prev.startTime else dc.toText(range.firstOpenTime))
      && f.endTime == (if KeepsTime(dc, prev.endTime, range) then prev.endTime else dc.toText(range.lastCloseTime))
  {
    var startOk := KeepsTime(dc, prev.startTime, range);
    var endOk := KeepsTime(dc, prev.endTime, range);
    if startOk && endOk then Keep
    else Replace(prev.(startTime := if startOk then prev.startTime else dc.toText(range.firstOpenTime),
                       endTime := if endOk then prev.endTime else dc.toText(range.lastCloseTime)))
  }

  /** A codec whose text for each bound of the range parses back to an instant inside it. */
  predicate BoundsRoundTrip(dc: DateCodec, range: Range) {
    && KeepsTime(dc, dc.toText(range.firstOpenTime), range)
    && KeepsTime(dc, dc.toText(range.lastCloseTime), range)
  }

  /**
   * When the bounds' texts parse back inside the range, the clamp settles:
   * both times are then valid and a second clamp keeps the state.
   */
  lemma ClampSettles(dc: DateCodec, prev: FormState, range: Range)
    requires BoundsRoundTrip(dc, range)
    ensures var f := Apply(ClampToRange(dc, prev, range), prev);
      KeepsTime(dc, f.startTime, range) && KeepsTime(dc, f.endTime, range) && ClampToRange(dc, f, range).Keep?
  {
  }

  /** The form's state: the field texts and the field errors. */
  datatype Form = Form(state: FormState, errors: Errors)

  /** The range effect: nothing without a range; otherwise clear the range errors and clamp. */
  function OnRange(dc: DateCodec, f: Form, range: Option<Range>): (r: Form)
    ensures range.None? ==> r == f
    ensures range.Some? ==> "range" !in r.errors && "startTime" !in r.errors && "endTime" !in r.errors
    ensures forall k :: k in r.errors ==> k in f.errors && r.errors[k] == f.errors[k]
    ensures forall k :: k in f.errors && k !in ["range", "startTime", "endTime"] ==> k in r.errors
    ensures range.Some? ==> r.state == Apply(ClampToRange(dc, f.state, range.value), f.state)
  {
    match range
    case None => f
    case Some(rg) =>
      var keys := ["range", "startTime", "endTime"];
      ClearErrorsClears(f.errors, keys);
      Form(Apply(ClampToRange(dc, f.state, rg), f.state), Apply(ClearErrors(f.errors, keys), f.errors))
  }

  /** An edit of one field. */
  datatype FieldChange =
    | SymbolChanged(value: string)
    | IntervalChanged(value: string)
    | StartChanged(value: string)
    | EndChanged(value: string)
    | SpeedChanged(value: string)
    | SeedChanged(value: string)

  /** The error keys an edit clears: the field's own, and those of the fields it resets. */
  function ClearedBy(c: FieldChange): seq<string> {
    match c
    case SymbolChanged(_) => ["symbol", "interval", "startTime", "endTime", "range"]
    case IntervalChanged(_) => ["interval", "startTime", "endTime", "range"]
    case StartChanged(_) => ["startTime", "range"]
    case EndChanged(_) => ["endTime", "range"]
    case SpeedChanged(_) => ["speed"]
    case SeedChanged(_) => ["seed"]
  }

  /**
   * A field edit: a new symbol empties interval and both times, a new
   * interval empties both times, and every other edit touches its own field
   * only; the errors of the edited and the emptied fields go away.
   */
  function OnFieldChange(f: Form, c: FieldChange): (r: Form)
    ensures forall k :: k in ClearedBy(c) ==> k !in r.errors
    ensures forall k :: k in f.errors && k !in ClearedBy(c) ==> k in r.errors && r.errors[k] == f.errors[k]
    ensures r.errors.Keys <= f.errors.Keys
    ensures c.SymbolChanged? ==> r.state == f.state.(symbol := c.value, interval := "", startTime := "", endTime := "")
    ensures c.IntervalChanged? ==> r.state == f.state.(interval := c.value, startTime := "", endTime := "")
    ensures c.StartChanged? ==> r.state == f.state.(startTime := c.value)
    ensures c.EndChanged? ==> r.state == f.state.(endTime := c.value)
    ensures c.SpeedChanged? ==> r.state == f.state.(speed := c.value)
    ensures c.SeedChanged? ==> r.state == f.state.(seed := c.value)
  {
    var st := f.state;
    var next := match c
      case SymbolChanged(v) => st.(symbol := v, interval := "", startTime := "", endTime := "")
      case IntervalChanged(v) => st.(interval := v, startTime := "", endTime := "")
      case StartChanged(v) => st.(startTime := v)
      case EndChanged(v) => st.(endTime := v)
      case SpeedChanged(v) => st.(speed := v)
      case SeedChanged(v) => st.(seed := v);
    ClearErrorsClears(f.errors, ClearedBy(c));
    Form(next, Apply(ClearErrors(f.errors, ClearedBy(c)), f.errors))
  }

  /** The submit button is disabled while creating, and until a symbol, an interval and a range are known. */
  predicate SubmitDisabled(pending: bool, st: FormState, range: Option<Range>) {
    pending || st.symbol == "" || st.interval == "" || range.None?
  }

  /** After choosing a new symbol, or emptying the interval, the form cannot be submitted until an interval is chosen again. */
  lemma SymbolChangeDisablesSubmit(f: Form, v: string, pending: bool, range: Option<Range>)
    ensures SubmitDisabled(pending, OnFieldChange(f, SymbolChanged(v)).state, range)
    ensures v == "" ==> SubmitDisabled(pending, OnFieldChange(f, IntervalChanged(v)).state, range)
  {
  }

  // The creation schema.

  /** The values the schema is given: the times as parsed instants, speed and seed as `Number(text)`. */
  datatype SchemaInput = SchemaInput(symbol: string, interval: string, startTime: Option<int>, endTime: Option<int>,
                                     speed: JsNumber, seed: JsNumber)

  /** `z.coerce.number().positive()`: a number greater than zero; infinity passes. */
  predicate Positive(n: JsNumber) {
    (n.Finite? && n.v > 0.0) || n.PosInfinity?
  }

  /**
   * The refinement on the times runs only when no field has a type error:
   * both times and the coerced speed and seed are numbers.
   */
  predicate RefinementRuns(x: SchemaInput) {
    x.startTime.Some? && x.endTime.Some? && x.speed != NaN && x.seed != NaN
  }

  /** The fields the schema reports an issue on; the order of the times is reported on `endTime`. */
  function SchemaIssues(x: SchemaInput): (r: set<string>)
    ensures r <= {"symbol", "interval", "startTime", "endTime", "speed", "seed"}
    ensures "symbol" in r <==> x.symbol == ""
    ensures "interval" in r <==> x.interval == ""
    ensures "startTime" in r <==> x.startTime.None?
    ensures "speed" in r <==> !Positive(x.speed)
    ensures "seed" in r <==> !IsInteger(x.seed)
    ensures "endTime" in r <==> x.endTime.None? || (RefinementRuns(x) && x.endTime.value <= x.startTime.value)
  {
    (if x.symbol == "" then {"symbol"} else {})
    + (if x.interval == "" then {"interval"} else {})
    + (if x.startTime.None? then {"startTime"} else {})
    + (if x.endTime.None? then {"endTime"} else {})
    + (if !Positive(x.speed) then {"speed"} else {})
    + (if !IsInteger(x.seed) then {"seed"} else {})
    + (if RefinementRuns(x) && x.endTime.value <= x.startTime.value then {"endTime"} else {})
  }

  /** The values a successful parse yields. */
  datatype SessionData = SessionData(symbol: string, interval: string, startTime: int, endTime: int,
                                     speed: JsNumber, seed: JsNumber)

  /** `sessionSchema.safeParse`. */
  function ParseSession(x: SchemaInput): (r: Result<SessionData, set<string>>)
    ensures r.Success? <==> (x.symbol != "" && x.interval != "" && x.startTime.Some? && x.endTime.Some?
      && x.startTime.value < x.endTime.value && Positive(x.speed) && IsInteger(x.seed))
    ensures r.Success? ==> r.value == SessionData(x.symbol, x.interval, x.startTime.value, x.endTime.value, x.speed, x.seed)
    ensures r.Failure? ==> r.error == SchemaIssues(x) && r.error != {}
  {
    var issues := SchemaIssues(x);
    if issues == {} then Success(SessionData(x.symbol, x.interval, x.startTime.value, x.endTime.value, x.speed, x.seed))
    else
      assert !(x.symbol != "" && x.interval != "" && x.startTime.Some? && x.endTime.Some?
        && x.startTime.value < x.endTime.value && Positive(x.speed) && IsInteger(x.seed)) by {
        if x.symbol != "" && x.interval != "" && x.startTime.Some? && x.endTime.Some? && Positive(x.speed) && IsInteger(x.seed) {
          assert RefinementRuns(x);
        }
      }
      Failure(issues)
  }

  /** The times a parsed session has outside the range. */
  function RangeIssues(d: SessionData, range: Range): (r: set<string>)
    ensures "startTime" in r <==> !InRange(d.startTime, range)
    ensures "endTime" in r <==> !InRange(d.endTime, range)
    ensures r <= {"startTime", "endTime"}
  {
    (if InRange(d.startTime, range) then {} else {"startTime"})
    + (if InRange(d.endTime, range) then {} else {"endTime"})
  }

  /** The request body of a session creation. */
  datatype Payload = Payload(symbols: seq<string>, interval: string, startTime: int, endTime: int,
                             speed: JsNumber, seed: JsNumber)

  /** What a submit does: set these field errors, or send this creation request. */
  datatype SubmitOutcome = Invalid(errors: set<string>) | Create(payload: Payload)

  /** The schema input a submit builds from the field texts. */
  function InputOf(rt: Runtime, dc: DateCodec, st: FormState): SchemaInput {
    SchemaInput(st.symbol, st.interval, ParseDatetimeLocal(dc, st.startTime), ParseDatetimeLocal(dc, st.endTime),
                rt.stringToNumber(st.speed), rt.stringToNumber(st.seed))
  }

  /**
   * `handleSubmit`: schema issues first; then a missing range, or a start
   * or end outside it; only then the creation request, whose symbol list is
   * the chosen symbol alone.
   */
  function Submit(rt: Runtime, dc: DateCodec, st: FormState, range: Option<Range>): (r: SubmitOutcome)
    ensures ParseSession(InputOf(rt, dc, st)).Failure? ==> r == Invalid(ParseSession(InputOf(rt, dc, st)).error)
    ensures ParseSession(InputOf(rt, dc, st)).Success? && range.None? ==> r == Invalid({"range"})
    ensures r.Invalid? ==> r.errors != {}
    ensures r.Create? <==> (ParseSession(InputOf(rt, dc, st)).Success? && range.Some?
      && InRange(ParseSession(InputOf(rt, dc, st)).value.startTime, range.value)
      && InRange(ParseSession(InputOf(rt, dc, st)).value.endTime, range.value))
    ensures r.Create? ==> (r.payload.symbols == [st.symbol] && r.payload.interval == st.interval
      && r.payload.speed == rt.stringToNumber(st.speed) && r.payload.seed == rt.stringToNumber(st.seed))
    ensures r.Create? ==> (r.payload.startTime == ParseSession(InputOf(rt, dc, st)).value.startTime
      && r.payload.endTime == ParseSession(InputOf(rt, dc, st)).value.endTime)
    ensures ParseSession(InputOf(rt, dc, st)).Success? && range.Some? && !r.Create? ==>
      r == Invalid(RangeIssues(ParseSession(InputOf(rt, dc, st)).value, range.value))
  {
    match ParseSession(InputOf(rt, dc, st))
    case Failure(issues) => Invalid(issues)
    case Success(d) =>
      var errors := if range.None? then {"range"} else RangeIssues(d, range.value);
      if errors != {} then Invalid(errors)
      else Create(Payload([d.symbol], d.interval, d.startTime, d.endTime, d.speed, d.seed))
  }

  /**
   * A creation request always describes a valid session: one non-empty
   * symbol, a non-empty interval, a start strictly before the end, both
   * inside the dataset's range, a positive speed and an integer seed.
   */
  lemma CreatedSessionIsValid(rt: Runtime, dc: DateCodec, st: FormState, range: Option<Range>)
    requires Submit(rt, dc, st, range).Create?
    ensures var p := Submit(rt, dc, st, range).payload;
      && |p.symbols| == 1 && p.symbols[0] != "" && p.interval != ""
      && p.startTime < p.endTime && range.Some? && InRange(p.startTime, range.value) && InRange(p.endTime, range.value)
      && Positive(p.speed) && IsInteger(p.seed)
  {
    var d := ParseSession(InputOf(rt, dc, st)).value;
    assert Submit(rt, dc, st, range).payload == Payload([d.symbol], d.interval, d.startTime, d.endTime, d.speed, d.seed);
  }
}
