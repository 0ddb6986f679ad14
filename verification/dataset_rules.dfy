/**
 * The dataset page's rules: the registration schema and submit, which row
 * actions are offered, how the ingest watcher's data is merged into the
 * cached list, when the list is refetched, and how the selected dataset
 * (whose ingest the drawer follows) changes.
 */
module DatasetRules {
  import opened Wrappers
  import opened JsValues
  import SessionForm
  import IngestWatcher

  /** The fifteen kline intervals the registration form accepts. */
  const IntervalValues: seq<string> :=
    ["1m", "3m", "5m", "15m", "30m", "1h", "2h", "4h", "6h", "8h", "12h", "1d", "3d", "1w", "1M"]

  /** The statuses from which an ingest can be (re)started. */
  const IngestableStatuses: seq<string> := ["Registered", "Failed", "Canceled"]

  // Registration.

  /** The registration form's fields. */
  datatype DatasetForm = DatasetForm(symbol: string, interval: string, startLocal: string, endLocal: string)

  /** `toMs`: 0 for the empty text, otherwise the instant it denotes (`None` for NaN). */
  function ToMs(dc: SessionForm.DateCodec, local: string): (r: Option<int>)
    ensures local == "" ==> r == Some(0)
    ensures local != "" ==> r == dc.fromText(local)
  {
    if local == "" then Some(0) else dc.fromText(local)
  }

  /** `a || b` on texts. */
  function OrText(a: string, b: string): string {
    if a != "" then a else b
  }

  /** The values the schema is given; the name is always `symbol-interval`. */
  datatype DatasetInput = DatasetInput(symbol: string, interval: string, startTime: Option<int>, endTime: Option<int>,
                                       name: string)

  /**
   * The submit's input: a time left empty falls back to the range's bound
   * (as the field displays it) and, without a range, to 0.
   */
  function InputOf(dc: SessionForm.DateCodec, f: DatasetForm, range: Option<SessionForm.Range>): (r: DatasetInput)
    ensures r.name == f.symbol + "-" + f.interval
    ensures r.symbol == f.symbol && r.interval == f.interval
    ensures f.startLocal != "" ==> r.startTime == dc.fromText(f.startLocal)
    ensures f.endLocal != "" ==> r.endTime == dc.fromText(f.endLocal)
    ensures f.startLocal == "" && range.Some? ==> r.startTime == ToMs(dc, dc.toText(range.value.firstOpenTime))
    ensures f.endLocal == "" && range.Some? ==> r.endTime == ToMs(dc, dc.toText(range.value.lastCloseTime))
    ensures f.startLocal == "" && range.None? ==> r.startTime == Some(0)
    ensures f.endLocal == "" && range.None? ==> r.endTime == Some(0)
  {
    var minLocal := if range.Some? then dc.toText(range.value.firstOpenTime) else "";
    var maxLocal := if range.Some? then dc.toText(range.value.lastCloseTime) else "";
    DatasetInput(f.symbol, f.interval, ToMs(dc, OrText(f.startLocal, minLocal)), ToMs(dc, OrText(f.endLocal, maxLocal)),
                 f.symbol + "-" + f.interval)
  }

  /** A time the schema accepts: a number that is a non-negative integer. */
  predicate TimeOk(t: Option<int>) {
    t.Some? && t.value >= 0
  }

  /** The refinement on the times runs only when no field has a type error. */
  predicate DatasetRefinementRuns(x: DatasetInput) {
    x.interval in IntervalValues && x.startTime.Some? && x.endTime.Some?
  }

  /** The fields `datasetSchema` reports an issue on; the order of the times is reported on `endTime`. */
  function DatasetIssues(x: DatasetInput): (r: set<string>)
    ensures r <= {"symbol", "interval", "startTime", "endTime", "name"}
    ensures "symbol" in r <==> x.symbol == ""
    ensures "interval" in r <==> x.interval !in IntervalValues
    ensures "startTime" in r <==> !TimeOk(x.startTime)
    ensures "name" in r <==> x.name == ""
    ensures "endTime" in r <==> !TimeOk(x.endTime) || (DatasetRefinementRuns(x) && x.endTime.value <= x.startTime.value)
  {
    (if x.symbol == "" then {"symbol"} else {})
    + (if x.interval !in IntervalValues then {"interval"} else {})
    + (if !TimeOk(x.startTime) then {"startTime"} else {})
    + (if !TimeOk(x.endTime) then {"endTime"} else {})
    + (if x.name == "" then {"name"} else {})
    + (if DatasetRefinementRuns(x) && x.endTime.value <= x.startTime.value then {"endTime"} else {})
  }

  /** The registration request. */
  datatype DatasetPayload = DatasetPayload(symbol: string, interval: string, startTime: int, endTime: int, name: string)

  datatype DatasetSubmit = Invalid(errors: set<string>) | Register(payload: DatasetPayload)

  /**
   * `handleSubmit`: the schema's issues, or the registration request, which
   * carries the form's symbol and interval and the submitted input's times.
   */
  function SubmitDataset(dc: SessionForm.DateCodec, f: DatasetForm, range: Option<SessionForm.Range>): (r: DatasetSubmit)
    ensures r.Invalid? <==> DatasetIssues(InputOf(dc, f, range)) != {}
    ensures r.Invalid? ==> r.errors == DatasetIssues(InputOf(dc, f, range))
    ensures r.Register? ==>
      && r.payload.symbol == f.symbol && r.payload.interval == f.interval
      && InputOf(dc, f, range).startTime == Some(r.payload.startTime)
      && InputOf(dc, f, range).endTime == Some(r.payload.endTime)
  {
    var x := InputOf(dc, f, range);
    if DatasetIssues(x) != {} then Invalid(DatasetIssues(x))
    else Register(DatasetPayload(x.symbol, x.interval, x.startTime.value, x.endTime.value, x.name))
  }

  /**
   * A registration request always names the dataset `symbol-interval`, has
   * a non-empty symbol, one of the fifteen intervals, and non-negative times
   * with the start strictly before the end; the name check never fails.
   */
  lemma RegisteredDatasetIsValid(dc: SessionForm.DateCodec, f: DatasetForm, range: Option<SessionForm.Range>)
    ensures "name" !in DatasetIssues(InputOf(dc, f, range))
    ensures var r := SubmitDataset(dc, f, range);
      r.Register? ==> (r.payload.name == f.symbol + "-" + f.interval && r.payload.symbol == f.symbol != ""
        && r.payload.interval == f.interval && r.payload.interval in IntervalValues
        && 0 <= r.payload.startTime < r.payload.endTime)
  {
    var x := InputOf(dc, f, range);
    assert |x.name| > 0 by { assert |x.name| == |f.symbol| + 1 + |f.interval|; }
  }

  /** Without a range, submitting with both times left empty is refused on the end time. */
  lemma NoRangeNoTimesRefused(dc: SessionForm.DateCodec, f: DatasetForm)
    requires f.startLocal == "" && f.endLocal == "" && f.interval in IntervalValues
    ensures SubmitDataset(dc, f, None).Invalid? && "endTime" in SubmitDataset(dc, f, None).errors
  {
  }

  /** The submit button is disabled while registering, or until a symbol and an interval are chosen. */
  predicate SubmitDisabled(pending: bool, f: DatasetForm) {
    pending || f.symbol == "" || f.interval == ""
  }

  /** A new symbol empties both times but keeps the interval; a new interval empties both times. */
  function OnSymbolChosen(f: DatasetForm, v: string): (r: DatasetForm)
    ensures r.symbol == v && r.interval == f.interval && r.startLocal == "" && r.endLocal == ""
  {
    f.(symbol := v, startLocal := "", endLocal := "")
  }

  function OnIntervalChosen(f: DatasetForm, v: string): (r: DatasetForm)
    ensures r.symbol == f.symbol && r.interval == v && r.startLocal == "" && r.endLocal == ""
  {
    f.(interval := v, startLocal := "", endLocal := "")
  }

  // The list.

  /** A dataset row as cached: property name to value. */
  type Row = map<string, Value>

  function Field(row: Row, key: string): Value {
    if key in row then row[key] else Undefined
  }

  /** The row's status when it is a string. */
  function StatusText(row: Row): Option<string> {
    StringOf(Field(row, "status"))
  }

  /** The Ingestar button is shown for a registered, failed or cancelled dataset. */
  predicate IngestOffered(row: Row) {
    StatusText(row).Some? && StatusText(row).value in IngestableStatuses
  }

  /** The Cancelar button is shown for a dataset being ingested. */
  predicate CancelOffered(row: Row) {
    StatusText(row) == Some("Ingesting")
  }

  /** The deletion the delete button asks to confirm. */
  datatype Confirm = Confirm(id: Value, force: bool)

  /** The delete button asks to confirm a deletion that is forced exactly when the dataset is being ingested. */
  function AskDelete(row: Row): (r: Confirm)
    ensures r.force <==> CancelOffered(row)
    ensures r.id == Field(row, "id")
  {
    Confirm(Field(row, "id"), StatusText(row) == Some("Ingesting"))
  }

  /**
   * Ingest and cancel are never offered together; a ready dataset offers
   * neither, and a forced deletion is offered exactly where cancel is.
   */
  lemma RowActionsExclusive(row: Row)
    ensures !(IngestOffered(row) && CancelOffered(row))
    ensures StatusText(row) == Some("Ready") ==> !IngestOffered(row) && !CancelOffered(row)
    ensures AskDelete(row).force ==> !IngestOffered(row)
  {
  }

  /**
   * The effect on new ingest data: in the cached list, the entry whose id
   * equals the data's takes the data's properties over its own, and every
   * other entry stays as it was; an uncached list stays uncached.
   */
  function MergeIngestData(prev: Option<seq<Row>>, data: Row): (r: Option<seq<Row>>)
    ensures r.None? <==> prev.None?
    ensures r.Some? ==> |r.value| == |prev.value|
    ensures r.Some? ==> forall i :: 0 <= i < |r.value| ==>
      r.value[i] == (if Field(prev.value[i], "id") == Field(data, "id") then prev.value[i] + data else prev.value[i])
  {
    match prev
    case None => None
    case Some(rows) =>
      Some(seq(|rows|, i requires 0 <= i < |rows| =>
        if Field(rows[i], "id") == Field(data, "id") then rows[i] + data else rows[i]))
  }

  /**
   * Merging touches only the matching entries, each of which then shows
   * every property of the data, and merging the same data again changes
   * nothing.
   */
  lemma MergeOnlyMatching(prev: seq<Row>, data: Row)
    ensures var r := MergeIngestData(Some(prev), data).value;
      && (forall i :: 0 <= i < |r| && Field(prev[i], "id") != Field(data, "id") ==> r[i] == prev[i])
      && (forall i, k :: 0 <= i < |r| && Field(prev[i], "id") == Field(data, "id") && k in data ==>
            Field(r[i], k) == data[k])
      && MergeIngestData(Some(r), data) == Some(r)
  {
    var r := MergeIngestData(Some(prev), data).value;
    forall i | 0 <= i < |r| && Field(prev[i], "id") == Field(data, "id")
      ensures Field(r[i], "id") == Field(data, "id")
    {
      if "id" in data {
        assert r[i]["id"] == data["id"];
      } else {
        assert Field(prev[i], "id") == Undefined;
        assert "id" !in prev[i] || prev[i]["id"] == Undefined;
      }
    }
    var r2 := MergeIngestData(Some(r), data).value;
    forall i | 0 <= i < |r|
      ensures r2[i] == r[i]
    {
      if Field(prev[i], "id") == Field(data, "id") {
        assert r[i] + data == r[i];
      }
    }
    assert r2 == r;
  }

  // Refetching the list when the ingest ends.

  /** The effect's memory: the last status it saw, and how many refetches it has triggered. */
  datatype StatusWatch = StatusWatch(previous: Value, refetches: nat)

  /**
   * One run of the status effect: an absent (falsy) status is skipped;
   * otherwise the list is refetched when the status is final and differs
   * from the previous one, and the status is remembered.
   */
  function StatusStep(w: StatusWatch, status: Value): (r: StatusWatch)
    ensures r.previous == (if Truthy(status) then status else w.previous)
    ensures r.refetches == w.refetches + (if IngestWatcher.IsFinalStatus(status) && status != w.previous then 1 else 0)
  {
    if !Truthy(status) then w
    else StatusWatch(status, w.refetches + (if status != w.previous && IngestWatcher.IsFinalStatus(status) then 1 else 0))
  }

  /** The status effect run once per status in turn. */
  function StatusRun(w: StatusWatch, statuses: seq<Value>): StatusWatch
    decreases |statuses|
  {
    if |statuses| == 0 then w else StatusStep(StatusRun(w, statuses[..|statuses| - 1]), statuses[|statuses| - 1])
  }

  /** Statuses that never reach a final one never refetch. */
  lemma {:induction false} NoFinalNoRefetch(w: StatusWatch, statuses: seq<Value>)
    requires forall i :: 0 <= i < |statuses| ==> !IngestWatcher.IsFinalStatus(statuses[i])
    ensures StatusRun(w, statuses).refetches == w.refetches
    decreases |statuses|
  {
    if |statuses| > 0 {
      NoFinalNoRefetch(w, statuses[..|statuses| - 1]);
    }
  }

  /**
   * A final status that repeats refetches once, on its first appearance,
   * and not at all if it was already the previous status.
   */
  lemma {:induction false} RepeatedFinalRefetchesOnce(w: StatusWatch, statuses: seq<Value>, f: Value)
    requires IngestWatcher.IsFinalStatus(f) && |statuses| > 0
    requires forall i :: 0 <= i < |statuses| ==> statuses[i] == f
    ensures StatusRun(w, statuses).previous == f
    ensures StatusRun(w, statuses).refetches == w.refetches + (if w.previous == f then 0 else 1)
    decreases |statuses|
  {
    if |statuses| > 1 {
      RepeatedFinalRefetchesOnce(w, statuses[..|statuses| - 1], f);
    }
  }

  // The selection, which the ingest drawer and watcher follow.

  /** The page's selection and pending deletion. */
  datatype Selection = Selection(selected: Option<string>, confirm: Option<Confirm>)

  datatype PageInput =
    | IngestStarted(id: string)
    | Deleted(id: string)
    | LogsClicked(id: string)
    | DrawerClosed
    | DeleteClicked(row: Row)
    | DeleteDismissed

  /**
   * The selection's transitions: a started ingest and the Logs button select
   * their dataset, a completed deletion clears the pending confirmation and
   * the selection when it was the deleted dataset, and closing the drawer
   * clears the selection.
   */
  function OnPage(s: Selection, i: PageInput): (r: Selection)
    ensures i.IngestStarted? ==> r.selected == Some(i.id)
    ensures i.LogsClicked? ==> r.selected == Some(i.id)
    ensures i.Deleted? ==> r.confirm.None? && r.selected == (if s.selected == Some(i.id) then None else s.selected)
    ensures i.DrawerClosed? ==> r.selected.None?
    ensures i.DeleteClicked? ==> r.selected == s.selected && r.confirm == Some(AskDelete(i.row))
  {
    match i
    case IngestStarted(id) => s.(selected := Some(id))
    case Deleted(id) => Selection(if s.selected == Some(id) then None else s.selected, None)
    case LogsClicked(id) => s.(selected := Some(id))
    case DrawerClosed => s.(selected := None)
    case DeleteClicked(row) => s.(confirm := Some(AskDelete(row)))
    case DeleteDismissed => s.(confirm := None)
  }

  /** The ingest watcher's arguments: the selected id (or ""), enabled when an id is selected. */
  function WatcherProps(s: Selection): IngestWatcher.Props {
    var id := if s.selected.Some? then s.selected.value else "";
    IngestWatcher.Props(id, Some(id != ""), true)
  }

  /**
   * The watcher runs exactly while a non-empty id is selected: deleting the
   * selected dataset or closing the drawer stops it, starting an ingest
   * starts it on that dataset.
   */
  lemma WatcherFollowsSelection(s: Selection, i: PageInput)
    ensures IngestWatcher.Enabled(WatcherProps(s)) <==> s.selected.Some? && s.selected.value != ""
    ensures (i.DrawerClosed? || (i.Deleted? && s.selected == Some(i.id))) ==>
      !IngestWatcher.Enabled(WatcherProps(OnPage(s, i)))
    ensures i.IngestStarted? && i.id != "" ==>
      IngestWatcher.Enabled(WatcherProps(OnPage(s, i))) && WatcherProps(OnPage(s, i)).id == i.id
  {
  }
}
