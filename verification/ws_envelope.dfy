/**
 * Decoding of the replay stream's WebSocket frames (src/lib/ws.ts).
 *
 * A frame is JSON text (or bytes holding UTF-8 JSON text) encoding an
 * envelope `{event, data, stream?}`. Three events are understood: a closed
 * candle (`kline`), a connection count (`stats`) and a server warning
 * (`warning`). Anything else, and anything malformed, decodes to `None`;
 * decoding never fails in any other way.
 */
module WsEnvelope {
  import opened Wrappers
  import opened JsValues

  /** One candle of the stream; prices and volume keep their textual form. */
  datatype Kline = Kline(
    symbol: string,
    interval: string,
    openTime: real,
    closeTime: real,
    open: string,
    high: string,
    low: string,
    close: string,
    volume: string)

  /** A server warning, e.g. candles skipped because the client fell behind. */
  datatype Warning = Warning(kind: string, skipped: Option<real>)

  /** The payload of an understood envelope. */
  datatype FeedEvent =
    | KlineEvent(kline: Kline)
    | StatsEvent(connections: real)
    | WarningEvent(warning: Warning)

  /** A decoded envelope: the event and the stream name it came from, when given as a string. */
  datatype Envelope = Envelope(event: FeedEvent, stream: Option<string>)

  /** The data of a WebSocket message event. */
  datatype WireData =
    | Text(text: string)
    /** An ArrayBuffer. */
    | Bytes(buffer: seq<bv8>)
    /** An ArrayBuffer view: a window `offset, length` onto `buffer`. */
    | View(buffer: seq<bv8>, offset: nat, length: nat)
    /** A Blob or any other kind of data. */
    | OtherData

  /** The names of the five textual price/volume fields of a candle. */
  const PriceFields: seq<string> := ["open", "high", "low", "close", "volume"]

  /** toStringValue: strings as they are, finite numbers printed, anything else absent. */
  function ToStringValue(rt: Runtime, v: Value): Option<string> {
    if v.Defined? && v.json.JString? then Some(v.json.s)
    else if v.Defined? && v.json.JNumber? && v.json.n.Finite? then Some(rt.numberToString(v.json.n.v))
    else None
  }

  /** A non-empty string, i.e. a truthy `string | null`. */
  predicate NonEmpty(o: Option<string>) {
    o.Some? && o.value != ""
  }

  /**
   * parseWsKlineData: a candle is accepted exactly when it is well formed,
   * and then every field of the result is the converted field of the payload.
   */
  function ParseKline(rt: Runtime, v: Value): (r: Option<Kline>)
    ensures r.Some? <==> WellFormedKline(rt, v)
    ensures r.Some? ==>
      && r.value.symbol == Get(v, "symbol").json.s && r.value.interval == Get(v, "interval").json.s
      && Finite(r.value.openTime) == ToNumber(rt, Get(v, "openTime"))
      && Finite(r.value.closeTime) == ToNumber(rt, Get(v, "closeTime"))
      && Some(r.value.open) == ToStringValue(rt, Get(v, "open"))
      && Some(r.value.high) == ToStringValue(rt, Get(v, "high"))
      && Some(r.value.low) == ToStringValue(rt, Get(v, "low"))
      && Some(r.value.close) == ToStringValue(rt, Get(v, "close"))
      && Some(r.value.volume) == ToStringValue(rt, Get(v, "volume"))
  {
    if !IsRecord(v) then None
    else
      assert (forall i :: 0 <= i < |PriceFields| ==> HasText(rt, v, PriceFields[i]))
        <==> HasText(rt, v, "open") && HasText(rt, v, "high") && HasText(rt, v, "low")
             && HasText(rt, v, "close") && HasText(rt, v, "volume") by {
        PriceFieldsEach(rt, v);
      }
      var symbol := StringOf(Get(v, "symbol"));
      var interval := StringOf(Get(v, "interval"));
      var openTime := ToNumber(rt, Get(v, "openTime"));
      var closeTime := ToNumber(rt, Get(v, "closeTime"));
      var open := ToStringValue(rt, Get(v, "open"));
      var high := ToStringValue(rt, Get(v, "high"));
      var low := ToStringValue(rt, Get(v, "low"));
      var close := ToStringValue(rt, Get(v, "close"));
      var volume := ToStringValue(rt, Get(v, "volume"));
      if !NonEmpty(symbol) || !NonEmpty(interval) then None
      else if !openTime.Finite? || !closeTime.Finite? then None
      else if !NonEmpty(open) || !NonEmpty(high) || !NonEmpty(low) || !NonEmpty(close) || !NonEmpty(volume) then None
      else Some(Kline(symbol.value, interval.value, openTime.v, closeTime.v,
                      open.value, high.value, low.value, close.value, volume.value))
  }

  /** parseWsStatsData: accepted exactly when `connections` converts to a finite number. */
  function ParseStats(rt: Runtime, v: Value): (r: Option<real>)
    ensures r.Some? <==> IsRecord(v) && HasFiniteNumber(rt, v, "connections")
    ensures r.Some? ==> Finite(r.value) == ToNumber(rt, Get(v, "connections"))
  {
    if !IsRecord(v) then None
    else
      var connections := ToNumber(rt, Get(v, "connections"));
      if connections.Finite? then Some(connections.v) else None
  }

  /**
   * parseWsWarningData: accepted exactly when `type` is a non-empty string;
   * the skipped count is kept exactly when it converts to a finite number, so
   * a missing count stays absent while `null` counts as zero.
   */
  function ParseWarning(rt: Runtime, v: Value): (r: Option<Warning>)
    ensures r.Some? <==> IsRecord(v) && HasName(v, "type")
    ensures r.Some? ==>
      && r.value.kind == Get(v, "type").json.s
      && (r.value.skipped.Some? <==> HasFiniteNumber(rt, v, "skipped"))
      && (r.value.skipped.Some? ==> Finite(r.value.skipped.value) == ToNumber(rt, Get(v, "skipped")))
      && (Get(v, "skipped") == Undefined ==> r.value.skipped == None)
      && (Get(v, "skipped") == Defined(JNull) ==> r.value.skipped == Some(0.0))
  {
    if !IsRecord(v) then None
    else
      var kind := StringOf(Get(v, "type"));
      if !NonEmpty(kind) then None
      else
        var skipped := ToNumber(rt, Get(v, "skipped"));
        Some(Warning(kind.value, if skipped.Finite? then Some(skipped.v) else None))
  }

  /**
   * parseWsEnvelope: accepted exactly when the input is an object whose
   * `event` names one of the three understood events and whose `data` that
   * event's parser accepts; the stream name is kept exactly when it is a string.
   */
  function ParseEnvelope(rt: Runtime, raw: Value): (r: Option<Envelope>)
    ensures r.Some? <==>
      && IsRecord(raw)
      && ((Get(raw, "event") == Defined(JString("kline")) && WellFormedKline(rt, Get(raw, "data")))
          || (Get(raw, "event") == Defined(JString("stats")) && HasFiniteNumber(rt, Get(raw, "data"), "connections")
              && IsRecord(Get(raw, "data")))
          || (Get(raw, "event") == Defined(JString("warning")) && HasName(Get(raw, "data"), "type")
              && IsRecord(Get(raw, "data"))))
    ensures r.Some? ==>
      && r.value.stream == StringOf(Get(raw, "stream"))
      && (r.value.event.KlineEvent? <==> Get(raw, "event") == Defined(JString("kline")))
      && (r.value.event.StatsEvent? <==> Get(raw, "event") == Defined(JString("stats")))
      && (r.value.event.WarningEvent? <==> Get(raw, "event") == Defined(JString("warning")))
      && (r.value.event.KlineEvent? ==> ParseKline(rt, Get(raw, "data")) == Some(r.value.event.kline))
      && (r.value.event.StatsEvent? ==> ParseStats(rt, Get(raw, "data")) == Some(r.value.event.connections))
      && (r.value.event.WarningEvent? ==> ParseWarning(rt, Get(raw, "data")) == Some(r.value.event.warning))
  {
    if !IsRecord(raw) then None
    else
      var event := Get(raw, "event");
      var data := Get(raw, "data");
      var stream := StringOf(Get(raw, "stream"));
      if event == Defined(JString("kline")) then
        match ParseKline(rt, data)
        case Some(k) => Some(Envelope(KlineEvent(k), stream))
        case None => None
      else if event == Defined(JString("stats")) then
        match ParseStats(rt, data)
        case Some(c) => Some(Envelope(StatsEvent(c), stream))
        case None => None
      else if event == Defined(JString("warning")) then
        match ParseWarning(rt, data)
        case Some(w) => Some(Envelope(WarningEvent(w), stream))
        case None => None
      else None
  }

  /** The frame text JSON-parsed and read as an envelope; nothing when JSON.parse throws. */
  function ParseText(rt: Runtime, text: string): (r: Option<Envelope>)
    ensures rt.parseJson(text).None? ==> r.None?
    ensures rt.parseJson(text).Some? ==> r == ParseEnvelope(rt, Defined(rt.parseJson(text).value))
  {
    match rt.parseJson(text)
    case None => None
    case Some(payload) => ParseEnvelope(rt, Defined(payload))
  }

  /**
   * parseWsEventData: text is parsed as it is, bytes are decoded as UTF-8
   * first, a view reads exactly its window, and a frame of any other kind
   * decodes to nothing.
   */
  function ParseEventData(rt: Runtime, data: WireData): (r: Option<Envelope>)
    ensures data.OtherData? ==> r.None?
    ensures data.Text? ==> r == ParseText(rt, data.text)
    ensures data.Bytes? ==> r == ParseText(rt, rt.decodeUtf8(data.buffer))
    ensures data.View? && data.offset + data.length <= |data.buffer| ==>
      r == ParseText(rt, rt.decodeUtf8(data.buffer[data.offset..data.offset + data.length]))
    ensures data.View? && data.offset + data.length > |data.buffer| ==> r.None?
  {
    match data
    case Text(s) => ParseText(rt, s)
    case Bytes(b) => ParseText(rt, rt.decodeUtf8(b))
    case View(b, offset, length) =>
      if offset + length <= |b| then ParseText(rt, rt.decodeUtf8(b[offset..offset + length])) else None
    case OtherData => None
  }

  // Acceptance conditions, stated field by field.

  /** The field `name` of `v` renders as a non-empty string. */
  predicate HasText(rt: Runtime, v: Value, name: string) {
    NonEmpty(ToStringValue(rt, Get(v, name)))
  }

  /** The field `name` of `v` holds a non-empty string. */
  predicate HasName(v: Value, name: string) {
    Get(v, name).Defined? && Get(v, name).json.JString? && Get(v, name).json.s != ""
  }

  /** The field `name` of `v` converts to a finite number. */
  predicate HasFiniteNumber(rt: Runtime, v: Value, name: string) {
    ToNumber(rt, Get(v, name)).Finite?
  }

  /** The price-field condition of WellFormedKline, one field at a time. */
  lemma PriceFieldsEach(rt: Runtime, v: Value)
    ensures (forall i :: 0 <= i < |PriceFields| ==> HasText(rt, v, PriceFields[i]))
      <==> HasText(rt, v, "open") && HasText(rt, v, "high") && HasText(rt, v, "low")
           && HasText(rt, v, "close") && HasText(rt, v, "volume")
  {
    if HasText(rt, v, "open") && HasText(rt, v, "high") && HasText(rt, v, "low")
       && HasText(rt, v, "close") && HasText(rt, v, "volume")
    {
      forall i | 0 <= i < |PriceFields| ensures HasText(rt, v, PriceFields[i]) {
        if i == 0 {} else if i == 1 {} else if i == 2 {} else if i == 3 {} else {}
      }
    }
    assert PriceFields[0] == "open" && PriceFields[1] == "high" && PriceFields[2] == "low";
    assert PriceFields[3] == "close" && PriceFields[4] == "volume";
  }

  /** What a candle payload must satisfy to be accepted. */
  predicate WellFormedKline(rt: Runtime, v: Value) {
    && IsRecord(v)
    && HasName(v, "symbol") && HasName(v, "interval")
    && HasFiniteNumber(rt, v, "openTime") && HasFiniteNumber(rt, v, "closeTime")
    && (forall i :: 0 <= i < |PriceFields| ==> HasText(rt, v, PriceFields[i]))
  }

  /** A payload whose prices are already non-empty strings keeps them verbatim. */
  lemma TextualPricesKept(rt: Runtime, v: Value, k: Kline)
    requires ParseKline(rt, v) == Some(k)
    requires forall i :: 0 <= i < |PriceFields| ==> StringOf(Get(v, PriceFields[i])).Some?
    ensures [k.open, k.high, k.low, k.close, k.volume]
         == seq(5, i requires 0 <= i < 5 => StringOf(Get(v, PriceFields[i])).value)
  {
    assert StringOf(Get(v, PriceFields[0])).Some? && StringOf(Get(v, PriceFields[1])).Some?
      && StringOf(Get(v, PriceFields[2])).Some? && StringOf(Get(v, PriceFields[3])).Some?
      && StringOf(Get(v, PriceFields[4])).Some?;
  }
}
