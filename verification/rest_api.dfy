/**
 * The REST client (src/lib/api.ts): the message a failed request reports,
 * the query of the klines request, the decoding of the klines response,
 * and the newest-first order in which the klines table shows them
 * (src/lib/hooks.ts).
 *
 * The transport (ky, fetch, HTTP) is not modelled: a request is given by
 * how it settled.
 */
module RestApi {
  import opened Wrappers
  import opened JsValues
  import FormEncoding
  import Ordering

  // unwrap

  /** What a request rejects with. */
  datatype Failure =
      /** An HTTP error status: the response body as JSON (`None` when it does not parse) and the error's own message. */
    | HttpFailure(body: Option<Json>, ownMessage: string)
      /** `new Error(message)`, as the client rethrows an HTTP failure. */
    | MessageFailure(message: Value)
      /** Anything else: a network failure, a timeout, an exception in a caller's code. */
    | OtherFailure(description: string)

  datatype Settled<T> = Resolved(value: T) | Rejected(failure: Failure)

  /** The body's field `name` is present and not null. */
  predicate HasField(body: Option<Json>, name: string) {
    body.Some? && body.value.JObject? && name in body.value.fields && body.value.fields[name] != JNull
  }

  /**
   * The message reported for an HTTP failure: the body's `error` field when
   * present and not null, else its `message` field when present and not
   * null, else the error's own message.
   */
  function ErrorMessage(body: Option<Json>, ownMessage: string): (r: Value)
    ensures HasField(body, "error") ==> r == Defined(body.value.fields["error"])
    ensures !HasField(body, "error") && HasField(body, "message") ==> r == Defined(body.value.fields["message"])
    ensures !HasField(body, "error") && !HasField(body, "message") ==> r == Defined(JString(ownMessage))
    ensures !IsNullish(r)
  {
    var data := if body.Some? then Defined(body.value) else Defined(JNull);
    Coalesce(Coalesce(Get(data, "error"), Get(data, "message")), Defined(JString(ownMessage)))
  }

  /**
   * `unwrap`: a resolved request passes through; an HTTP failure becomes an
   * error carrying the body's message; any other failure is rethrown as it is.
   */
  function Unwrap<T>(s: Settled<T>): (r: Settled<T>)
    ensures s.Resolved? ==> r == s
    ensures s.Rejected? && !s.failure.HttpFailure? ==> r == s
    ensures s.Rejected? && s.failure.HttpFailure? ==>
      r == Rejected(MessageFailure(ErrorMessage(s.failure.body, s.failure.ownMessage)))
    ensures !(r.Rejected? && r.failure.HttpFailure?)
  {
    match s
    case Rejected(HttpFailure(body, ownMessage)) => Rejected(MessageFailure(ErrorMessage(body, ownMessage)))
    case _ => s
  }

  /** Unwrapping an unwrapped request changes nothing more. */
  lemma UnwrapIdempotent<T>(s: Settled<T>)
    ensures Unwrap(Unwrap(s)) == Unwrap(s)
  {
  }

  // The klines query.

  /** The klines request's parameters; the optional ones are absent or a number. */
  datatype KlineParams = KlineParams(
    symbol: string,
    interval: string,
    startTime: Option<JsNumber>,
    endTime: Option<JsNumber>,
    limit: Option<JsNumber>)

  /** An optional number is sent when present and truthy: not 0 and not NaN. */
  predicate Sent(n: Option<JsNumber>) {
    n.Some? && Truthy(Defined(JNumber(n.value)))
  }

  /** `String(n)`. */
  function NumberText(rt: Runtime, n: JsNumber): string {
    match n
    case Finite(v) => rt.numberToString(v)
    case NaN => "NaN"
    case PosInfinity => "Infinity"
    case NegInfinity => "-Infinity"
  }

  /** The value of the first pair named `name`. */
  function Lookup(pairs: seq<(string, string)>, name: string): (r: Option<string>)
    ensures r.Some? <==> exists i :: 0 <= i < |pairs| && pairs[i].0 == name
  {
    if |pairs| == 0 then None
    else if pairs[0].0 == name then Some(pairs[0].1)
    else Lookup(pairs[1..], name)
  }

  /** A lookup in a concatenation finds the first part's pair before the second's. */
  lemma {:induction false} LookupAppend(a: seq<(string, string)>, b: seq<(string, string)>, name: string)
    ensures Lookup(a + b, name) == if Lookup(a, name).Some? then Lookup(a, name) else Lookup(b, name)
  {
    if |a| > 0 {
      assert (a + b)[1..] == a[1..] + b;
      LookupAppend(a[1..], b, name);
    } else {
      assert a + b == b;
    }
  }

  function OptionalParam(rt: Runtime, name: string, n: Option<JsNumber>): seq<(string, string)> {
    if Sent(n) then [(name, NumberText(rt, n.value))] else []
  }

  /** The names of the optional parameters. */
  predicate OptionalName(n: string) {
    n == "startTime" || n == "endTime" || n == "limit"
  }

  /** Where an optional parameter goes relative to the others. */
  function ParamRank(n: string): nat {
    if n == "startTime" then 0 else if n == "endTime" then 1 else 2
  }

  /** Optional parameters only, each at most once, in the order startTime, endTime, limit. */
  predicate Ranked(q: seq<(string, string)>) {
    && (forall i :: 0 <= i < |q| ==> OptionalName(q[i].0))
    && (forall i, j :: 0 <= i < j < |q| ==> ParamRank(q[i].0) < ParamRank(q[j].0))
  }

  /** At most one parameter of each name, concatenated in rank order, is ranked. */
  lemma PiecesRanked(a: seq<(string, string)>, b: seq<(string, string)>, c: seq<(string, string)>)
    requires |a| <= 1 && |b| <= 1 && |c| <= 1
    requires forall i :: 0 <= i < |a| ==> a[i].0 == "startTime"
    requires forall i :: 0 <= i < |b| ==> b[i].0 == "endTime"
    requires forall i :: 0 <= i < |c| ==> c[i].0 == "limit"
    ensures Ranked(a + b + c)
  {
    var q := a + b + c;
    forall i | 0 <= i < |q|
      ensures OptionalName(q[i].0) && ParamRank(q[i].0) == (if i < |a| then 0 else if i < |a| + |b| then 1 else 2)
    {
      if i < |a| { assert q[i] == a[i]; }
      else if i < |a| + |b| { assert q[i] == b[i - |a|]; }
      else { assert q[i] == c[i - |a| - |b|]; }
    }
  }

  /** The three optional parameters, in order, and where each is found. */
  function OptionalParams(rt: Runtime, p: KlineParams): (r: seq<(string, string)>)
    ensures |r| <= 3
    ensures Ranked(r)
    ensures Lookup(r, "startTime") == if Sent(p.startTime) then Some(NumberText(rt, p.startTime.value)) else None
    ensures Lookup(r, "endTime") == if Sent(p.endTime) then Some(NumberText(rt, p.endTime.value)) else None
    ensures Lookup(r, "limit") == if Sent(p.limit) then Some(NumberText(rt, p.limit.value)) else None
  {
    var start, end := OptionalParam(rt, "startTime", p.startTime), OptionalParam(rt, "endTime", p.endTime);
    var limit := OptionalParam(rt, "limit", p.limit);
    PiecesLookup(rt, p, "startTime");
    PiecesLookup(rt, p, "endTime");
    PiecesLookup(rt, p, "limit");
    PiecesRanked(start, end, limit);
    start + end + limit
  }

  /** A parameter's own piece holds its value when sent and nothing under any other name. */
  lemma PieceLookup(rt: Runtime, name: string, n: Option<JsNumber>, other: string)
    ensures Lookup(OptionalParam(rt, name, n), other) == if other == name && Sent(n) then Some(NumberText(rt, n.value)) else None
  {
  }

  /** Each optional name is found in its own piece only. */
  lemma PiecesLookup(rt: Runtime, p: KlineParams, name: string)
    requires OptionalName(name)
    ensures var q := OptionalParam(rt, "startTime", p.startTime) + OptionalParam(rt, "endTime", p.endTime)
                     + OptionalParam(rt, "limit", p.limit);
      Lookup(q, name) ==
        if name == "startTime" then (if Sent(p.startTime) then Some(NumberText(rt, p.startTime.value)) else None)
        else if name == "endTime" then (if Sent(p.endTime) then Some(NumberText(rt, p.endTime.value)) else None)
        else (if Sent(p.limit) then Some(NumberText(rt, p.limit.value)) else None)
  {
    var start, end := OptionalParam(rt, "startTime", p.startTime), OptionalParam(rt, "endTime", p.endTime);
    var limit := OptionalParam(rt, "limit", p.limit);
    PieceLookup(rt, "startTime", p.startTime, name);
    PieceLookup(rt, "endTime", p.endTime, name);
    PieceLookup(rt, "limit", p.limit, name);
    LookupAppend(start + end, limit, name);
    LookupAppend(start, end, name);
  }

  /**
   * The query of the klines request, in order: symbol and interval always,
   * then startTime, endTime and limit each only when sent, each name once.
   */
  function KlineQuery(rt: Runtime, p: KlineParams): (r: seq<(string, string)>)
    ensures 2 <= |r| <= 5
    ensures r[0] == ("symbol", p.symbol) && r[1] == ("interval", p.interval)
    ensures Ranked(r[2..])
    ensures forall i, j :: 0 <= i < j < |r| ==> r[i].0 != r[j].0
    ensures Lookup(r, "startTime").Some? <==> Sent(p.startTime)
    ensures Lookup(r, "endTime").Some? <==> Sent(p.endTime)
    ensures Lookup(r, "limit").Some? <==> Sent(p.limit)
    ensures Sent(p.startTime) ==> Lookup(r, "startTime") == Some(NumberText(rt, p.startTime.value))
    ensures Sent(p.endTime) ==> Lookup(r, "endTime") == Some(NumberText(rt, p.endTime.value))
    ensures Sent(p.limit) ==> Lookup(r, "limit") == Some(NumberText(rt, p.limit.value))
  {
    var head := [("symbol", p.symbol), ("interval", p.interval)];
    var tail := OptionalParams(rt, p);
    LookupAppend(head, tail, "startTime");
    LookupAppend(head, tail, "endTime");
    LookupAppend(head, tail, "limit");
    assert (head + tail)[2..] == tail;
    RankedAfterHeadDistinct(head, tail);
    head + tail
  }

  /** Symbol and interval followed by ranked parameters repeat no name. */
  lemma RankedAfterHeadDistinct(head: seq<(string, string)>, tail: seq<(string, string)>)
    requires |head| == 2 && head[0].0 == "symbol" && head[1].0 == "interval" && Ranked(tail)
    ensures forall i, j :: 0 <= i < j < |head + tail| ==> (head + tail)[i].0 != (head + tail)[j].0
  {
    var q := head + tail;
    forall i, j | 0 <= i < j < |q| ensures q[i].0 != q[j].0 {
      if j >= 2 {
        assert q[j] == tail[j - 2];
        if i >= 2 {
          assert q[i] == tail[i - 2];
        }
      }
    }
  }

  /** A zero bound or limit is dropped: the query is the same as without it. */
  lemma ZeroOmitted(rt: Runtime, p: KlineParams)
    ensures KlineQuery(rt, p.(startTime := Some(Finite(0.0)))) == KlineQuery(rt, p.(startTime := None))
    ensures KlineQuery(rt, p.(endTime := Some(Finite(0.0)))) == KlineQuery(rt, p.(endTime := None))
    ensures KlineQuery(rt, p.(limit := Some(Finite(0.0)))) == KlineQuery(rt, p.(limit := None))
  {
  }

  /**
   * Reading the serialised query back gives every parameter as sent: the
   * symbol and interval as given, and each optional one exactly when sent.
   */
  lemma KlineQueryReadBack(rt: Runtime, p: KlineParams)
    ensures var parsed := FormEncoding.Parse(FormEncoding.Serialize(KlineQuery(rt, p)));
      && parsed.Some?
      && Lookup(parsed.value, "symbol") == Some(p.symbol)
      && Lookup(parsed.value, "interval") == Some(p.interval)
      && (Lookup(parsed.value, "startTime").Some? <==> Sent(p.startTime))
      && (Lookup(parsed.value, "endTime").Some? <==> Sent(p.endTime))
      && (Lookup(parsed.value, "limit").Some? <==> Sent(p.limit))
  {
    FormEncoding.SerializeRoundTrip(KlineQuery(rt, p));
    var q := KlineQuery(rt, p);
    assert q[1..][0] == q[1];
  }

  // Decoding the klines response.

  /** A kline as the client returns it; the fields hold whatever the response held. */
  datatype RestKline = RestKline(
    openTime: Value,
    open: Value,
    high: Value,
    low: Value,
    close: Value,
    volume: Value,
    closeTime: Value)

  const MsgUnexpectedShape := "Unexpected kline response shape"

  /** Array destructuring: a missing position reads as `undefined`. */
  function At(items: seq<Json>, i: nat): Value {
    if i < |items| then Defined(items[i]) else Undefined
  }

  /** A kline from the positions 0..6 of an entry. */
  function DecodeEntry(items: seq<Json>): RestKline {
    RestKline(At(items, 0), At(items, 1), At(items, 2), At(items, 3), At(items, 4), At(items, 5), At(items, 6))
  }

  /**
   * The klines of the response's entries, in order, when every entry is an
   * array; the shape error otherwise.
   */
  function DecodeEntries(entries: seq<Json>): (r: Result<seq<RestKline>, string>)
    ensures r.Success? <==> forall i :: 0 <= i < |entries| ==> entries[i].JArray?
    ensures r.Success? ==> |r.value| == |entries|
    ensures r.Success? ==> forall i :: 0 <= i < |entries| ==> r.value[i] == DecodeEntry(entries[i].items)
    ensures r.Failure? ==> r.error == MsgUnexpectedShape
  {
    if |entries| == 0 then Success([])
    else if !entries[0].JArray? then Failure(MsgUnexpectedShape)
    else
      match DecodeEntries(entries[1..])
      case Failure(e) => Failure(e)
      case Success(rest) => Success([DecodeEntry(entries[0].items)] + rest)
  }

  /** Why a klines request fails. */
  datatype KlinesError = RequestFailed(failure: Failure) | NotAList | BadEntry(message: string)

  /**
   * `getKlines` once its request has settled: the unwrapped failure, the
   * error of mapping over a response that is not an array, or the decoded
   * entries.
   */
  function GetKlines(response: Settled<Json>): (r: Result<seq<RestKline>, KlinesError>)
    ensures response.Rejected? ==> r == Failure(RequestFailed(Unwrap(response).failure))
    ensures response.Resolved? && !response.value.JArray? ==> r == Failure(NotAList)
    ensures response.Resolved? && response.value.JArray? ==>
      (r.Success? <==> forall i :: 0 <= i < |response.value.items| ==> response.value.items[i].JArray?)
    ensures r.Success? ==> response.Resolved? && |r.value| == |response.value.items|
    ensures r.Success? ==> forall i :: 0 <= i < |r.value| ==>
      response.value.items[i].JArray? && r.value[i] == DecodeEntry(response.value.items[i].items)
    ensures response.Resolved? && response.value.JArray? && !r.Success? ==> r == Failure(BadEntry(MsgUnexpectedShape))
  {
    match Unwrap(response)
    case Rejected(f) => Failure(RequestFailed(f))
    case Resolved(raw) =>
      if !raw.JArray? then Failure(NotAList)
      else
        match DecodeEntries(raw.items)
        case Failure(message) => Failure(BadEntry(message))
        case Success(klines) => Success(klines)
  }

  /** The entry a kline is read from, when every field was present. */
  function EncodeEntry(k: RestKline): seq<Json>
    requires k.openTime.Defined? && k.open.Defined? && k.high.Defined? && k.low.Defined?
    requires k.close.Defined? && k.volume.Defined? && k.closeTime.Defined?
  {
    [k.openTime.json, k.open.json, k.high.json, k.low.json, k.close.json, k.volume.json, k.closeTime.json]
  }

  /** Positions 0..6 are the seven fields in order: decoding an entry built from a kline gives the kline back. */
  lemma DecodeEncodedEntry(k: RestKline)
    requires k.openTime.Defined? && k.open.Defined? && k.high.Defined? && k.low.Defined?
    requires k.close.Defined? && k.volume.Defined? && k.closeTime.Defined?
    ensures DecodeEntry(EncodeEntry(k)) == k
  {
  }

  /** Positions past the seventh are ignored. */
  lemma ExtraPositionsIgnored(items: seq<Json>, extra: seq<Json>)
    requires |items| >= 7
    ensures DecodeEntry(items + extra) == DecodeEntry(items)
  {
  }

  // The klines table.

  /** The sort key: a kline's close time. */
  function CloseTimeKey(k: RestKline): real {
    match FiniteOf(k.closeTime)
    case Some(t) => t
    case None => 0.0
  }

  /** Every kline's close time is a finite number. */
  predicate FiniteCloseTimes(klines: seq<RestKline>) {
    forall i :: 0 <= i < |klines| ==> FiniteOf(klines[i].closeTime).Some?
  }

  /**
   * `useKlineTableData`: the same klines, newest close time first, klines
   * with equal close times keeping their order.
   */
  function KlineTableData(klines: seq<RestKline>): (r: seq<RestKline>)
    requires FiniteCloseTimes(klines)
    ensures multiset(r) == multiset(klines)
    ensures FiniteCloseTimes(r)
    ensures forall i, j :: 0 <= i < j < |r| ==>
      FiniteOf(r[i].closeTime).value >= FiniteOf(r[j].closeTime).value
    ensures Ordering.KeepsEqualKeyOrder(klines, r, CloseTimeKey)
  {
    var r := Ordering.SortDesc(klines, CloseTimeKey);
    forall i | 0 <= i < |r| ensures FiniteOf(r[i].closeTime).Some? {
      assert r[i] in multiset(klines);
    }
    r
  }

  /** Ordering the table a second time changes nothing. */
  lemma KlineTableIdempotent(klines: seq<RestKline>)
    requires FiniteCloseTimes(klines)
    ensures FiniteCloseTimes(KlineTableData(klines))
    ensures KlineTableData(KlineTableData(klines)) == KlineTableData(klines)
  {
    var r := KlineTableData(klines);
    forall i | 0 <= i < |r| ensures FiniteOf(r[i].closeTime).Some? {
      assert r[i] in multiset(klines);
    }
    Ordering.SortDescOfSorted(r, CloseTimeKey);
  }
}
