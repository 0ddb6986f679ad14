/**
 * The state of the session details page
 * (src/components/sessions/SessionDetailsPage.tsx): the stream descriptor,
 * the `streams` search parameter of the page URL, the candle rows and the
 * count of candles received.
 *
 * React effects are folded into the event that triggers them: setting
 * `streams` to a different value also runs the reset effect that depends on
 * it, and a router update of the URL also runs the effect that copies the
 * search parameter back into `streams`.
 */
module DetailsPage {
  import opened Wrappers
  import opened Text
  import opened WsEnvelope
  import opened KlineBuffer

  const KlinePrefix: string := "kline@"

  /**
   * buildDefaultStream: empty when the session has no first symbol (or it is
   * empty), otherwise `kline@<interval>:<symbol>`.
   */
  function DefaultStream(symbols: seq<string>, interval: string): string {
    var symbol := if |symbols| > 0 then symbols[0] else "";
    if symbol == "" then "" else KlinePrefix + interval + ":" + symbol
  }

  /** The index of the first `c` in `s`, if any. */
  function IndexOf(s: string, c: char): (r: Option<nat>)
    ensures r.Some? ==> r.value < |s| && s[r.value] == c
    ensures r.Some? ==> forall i :: 0 <= i < r.value ==> s[i] != c
    ensures r.None? ==> forall i :: 0 <= i < |s| ==> s[i] != c
  {
    if |s| == 0 then None
    else if s[0] == c then Some(0)
    else match IndexOf(s[1..], c) {
      case None => None
      case Some(i) => Some(i + 1)
    }
  }

  /** Reads a single-candle descriptor back: its interval and symbol. */
  function ParseKlineDescriptor(s: string): Option<(string, string)> {
    if !StartsWith(s, KlinePrefix) then None
    else
      var rest := s[|KlinePrefix|..];
      match IndexOf(rest, ':') {
        case None => None
        case Some(i) => Some((rest[..i], rest[i + 1..]))
      }
  }

  /**
   * The default descriptor is empty exactly when there is no usable first
   * symbol, and otherwise reads back as the session's interval and first
   * symbol (an interval never contains ':').
   */
  lemma DefaultStreamRoundTrip(symbols: seq<string>, interval: string)
    requires forall i :: 0 <= i < |interval| ==> interval[i] != ':'
    ensures DefaultStream(symbols, interval) == "" <==> |symbols| == 0 || symbols[0] == ""
    ensures DefaultStream(symbols, interval) != "" ==>
      ParseKlineDescriptor(DefaultStream(symbols, interval)) == Some((interval, symbols[0]))
  {
    var d := DefaultStream(symbols, interval);
    if d != "" {
      var rest := interval + ":" + symbols[0];
      assert d == KlinePrefix + rest;
      assert d[|KlinePrefix|..] == rest;
      assert rest[|interval|] == ':';
      assert forall i :: 0 <= i < |interval| ==> rest[i] == interval[i];
      assert rest[..|interval|] == interval;
      assert rest[|interval| + 1..] == symbols[0];
    }
  }

  /** The page state. `url` is the `streams` search parameter, absent when not in the URL. */
  datatype Page = Page(streams: string, url: Option<string>, rows: seq<Kline>, received: nat)

  /** The page as first rendered: `streams` is read from the URL, no rows, nothing received. */
  function Mount(url: Option<string>): Page {
    Page(url.OrElse(""), url, [], 0)
  }

  /** setStreams plus the reset effect, which runs only when the value changes. */
  function SetStreams(p: Page, v: string): (r: Page)
    ensures r.streams == v && r.url == p.url
    ensures v == p.streams ==> r == p
    ensures v != p.streams ==> r.rows == [] && r.received == 0
  {
    if v == p.streams then p else p.(streams := v, rows := [], received := 0)
  }

  /** updateQuery's effect on the `streams` parameter: set when non-empty, deleted otherwise. */
  function QueryParam(v: string): (r: Option<string>)
    ensures r.OrElse("") == v
    ensures r.Some? <==> v != ""
  {
    if v != "" then Some(v) else None
  }

  /** handleStreamsChange: the state and the URL both take the new descriptor. */
  function ChangeStreams(p: Page, v: string): Page {
    SetStreams(p, v).(url := QueryParam(v))
  }

  /** The search-parameters effect, on an outside navigation. */
  function Navigate(p: Page, url: Option<string>): Page {
    SetStreams(p, url.OrElse("")).(url := url)
  }

  /**
   * The default-stream effect: with a loaded session and an empty
   * descriptor, a non-empty default descriptor is adopted and written to the
   * URL; otherwise nothing happens.
   */
  function ApplyDefault(p: Page, session: Option<(seq<string>, string)>): Page {
    if session.None? || p.streams != "" then p
    else
      var d := DefaultStream(session.value.0, session.value.1);
      if d == "" then p else ChangeStreams(p, d)
  }

  /** handleKline: one more candle received, rows merged. */
  function OnKline(p: Page, k: Kline): Page {
    p.(received := p.received + 1, rows := HandleKline(p.rows, k))
  }

  /** handleResetCounters. */
  function ResetCounters(p: Page): Page {
    p.(received := 0)
  }

  datatype Event =
    | StreamsEdited(value: string)
    | Navigated(url: Option<string>)
    | SessionLoaded(session: Option<(seq<string>, string)>)
    | KlineReceived(kline: Kline)
    | CountersReset

  function Step(p: Page, e: Event): Page {
    match e
    case StreamsEdited(v) => ChangeStreams(p, v)
    case Navigated(url) => Navigate(p, url)
    case SessionLoaded(s) => ApplyDefault(p, s)
    case KlineReceived(k) => OnKline(p, k)
    case CountersReset => ResetCounters(p)
  }

  function Run(p: Page, es: seq<Event>): Page
    decreases |es|
  {
    if |es| == 0 then p else Step(Run(p, es[..|es| - 1]), es[|es| - 1])
  }

  /** The URL and the descriptor state agree: the parameter, read as the page reads it, is the descriptor. */
  predicate InSync(p: Page) {
    p.url.OrElse("") == p.streams
  }

  lemma MountInSync(url: Option<string>)
    ensures InSync(Mount(url)) && Mount(url).rows == [] && Mount(url).received == 0
  {
  }

  /** Every event keeps the URL and the descriptor in agreement. */
  lemma StepKeepsSync(p: Page, e: Event)
    requires InSync(p)
    ensures InSync(Step(p, e))
  {
    match e {
      case StreamsEdited(v) => assert QueryParam(v).OrElse("") == v;
      case Navigated(url) =>
      case SessionLoaded(s) =>
        if s.Some? && p.streams == "" {
          var d := DefaultStream(s.value.0, s.value.1);
          assert QueryParam(d).OrElse("") == d;
        }
      case KlineReceived(k) =>
      case CountersReset =>
    }
  }

  /**
   * What the page shows, computed from the events alone: the descriptor,
   * the candles received since it last changed, and the number received
   * since it last changed or the counters were last reset.
   */
  datatype Window = Window(streams: string, klines: seq<Kline>, count: nat)

  function WindowOf(w: Window, e: Event): Window {
    var next := match e
      case StreamsEdited(v) => v
      case Navigated(url) => url.OrElse("")
      case SessionLoaded(s) =>
        if s.None? || w.streams != "" || DefaultStream(s.value.0, s.value.1) == "" then w.streams
        else DefaultStream(s.value.0, s.value.1)
      case _ => w.streams;
    if next != w.streams then Window(next, [], 0)
    else match e
      case KlineReceived(k) => Window(w.streams, w.klines + [k], w.count + 1)
      case CountersReset => w.(count := 0)
      case _ => w
  }

  function Windows(w: Window, es: seq<Event>): Window
    decreases |es|
  {
    if |es| == 0 then w else WindowOf(Windows(w, es[..|es| - 1]), es[|es| - 1])
  }

  /** The page agrees with a window: same descriptor, rows replayed from its candles, same count. */
  predicate Shows(p: Page, w: Window) {
    p.streams == w.streams && p.rows == Replay(w.klines) && p.received == w.count && w.count <= |w.klines|
  }

  lemma {:induction false} StepShows(p: Page, w: Window, e: Event)
    requires Shows(p, w)
    ensures Shows(Step(p, e), WindowOf(w, e))
  {
    match e {
      case KlineReceived(k) => KlineShows(p, w, k);
      case StreamsEdited(v) =>
      case Navigated(url) =>
      case SessionLoaded(s) => DefaultShows(p, w, s);
      case CountersReset =>
    }
  }

  /** A candle on a page that agrees with its window extends both by that candle. */
  lemma {:induction false} KlineShows(p: Page, w: Window, k: Kline)
    requires Shows(p, w)
    ensures Shows(OnKline(p, k), WindowOf(w, KlineReceived(k)))
  {
    ReplaySnoc(w.klines, k);
  }

  lemma DefaultShows(p: Page, w: Window, s: Option<(seq<string>, string)>)
    requires Shows(p, w)
    ensures Shows(ApplyDefault(p, s), WindowOf(w, SessionLoaded(s)))
  {
  }

  /**
   * After any sequence of events from mount, the rows are exactly the
   * buffer replayed from the candles received since the descriptor last
   * changed, the counter is the number of candles received since the
   * descriptor changed or the counters were reset, and the URL still agrees
   * with the descriptor.
   */
  lemma {:induction false} RunShows(url: Option<string>, es: seq<Event>)
    ensures Shows(Run(Mount(url), es), Windows(Window(url.OrElse(""), [], 0), es))
    ensures InSync(Run(Mount(url), es))
  {
    if |es| > 0 {
      RunShows(url, es[..|es| - 1]);
      StepShows(Run(Mount(url), es[..|es| - 1]), Windows(Window(url.OrElse(""), [], 0), es[..|es| - 1]), es[|es| - 1]);
      StepKeepsSync(Run(Mount(url), es[..|es| - 1]), es[|es| - 1]);
    }
  }

  /**
   * Hence the rows after any events are strictly newest first, at most
   * `MaxRows` long, and each is the latest candle with its close time among
   * those received since the descriptor last changed.
   */
  lemma RowsAlwaysValid(url: Option<string>, es: seq<Event>)
    ensures NewestFirst(Run(Mount(url), es).rows)
    ensures |Run(Mount(url), es).rows| <= MaxRows
    ensures forall x :: x in Run(Mount(url), es).rows ==>
      LatestFor(Windows(Window(url.OrElse(""), [], 0), es).klines, x.closeTime) == Some(x)
  {
    RunShows(url, es);
    var ks := Windows(Window(url.OrElse(""), [], 0), es).klines;
    ReplaySpec(ks);
    ReplayIsCappedFull(ks);
  }

  /** A candle adds exactly one to the counter, even when it only replaces a row. */
  lemma KlineCountsOnce(p: Page, k: Kline)
    ensures Step(p, KlineReceived(k)).received == p.received + 1
    ensures Step(p, KlineReceived(k)).streams == p.streams
  {
  }

  /** Resetting the counters zeroes the count and leaves the rows and descriptor untouched. */
  lemma ResetKeepsRows(p: Page)
    ensures Step(p, CountersReset) == p.(received := 0)
  {
  }

  /** Changing the descriptor empties the rows and the count; re-entering the same descriptor changes nothing. */
  lemma StreamsChangeResets(p: Page, v: string)
    requires InSync(p)
    ensures v != p.streams ==> Step(p, StreamsEdited(v)).rows == [] && Step(p, StreamsEdited(v)).received == 0
    ensures v == p.streams ==> Step(p, StreamsEdited(v)) == p.(url := QueryParam(v))
    ensures Step(p, StreamsEdited(v)).url == QueryParam(v)
  {
  }

  /** A loaded session fills an empty descriptor with its default one, and never overrides a chosen one. */
  lemma DefaultOnlyWhenEmpty(p: Page, symbols: seq<string>, interval: string)
    ensures p.streams != "" ==> Step(p, SessionLoaded(Some((symbols, interval)))) == p
    ensures p.streams == "" && DefaultStream(symbols, interval) != "" ==>
      Step(p, SessionLoaded(Some((symbols, interval)))).streams == DefaultStream(symbols, interval)
      && Step(p, SessionLoaded(Some((symbols, interval)))).url == Some(DefaultStream(symbols, interval))
  {
  }
}
