/**
 * The browser's WebSocket objects as far as the stream components can
 * observe them: a world of sockets, each with a ready state, advanced by the
 * component's own calls (construct, close) and by transport events. A
 * handle is the socket's index in the world.
 *
 * The ready states and their transitions follow the WebSocket interface of
 * the WHATWG WebSockets Standard: a new socket is
 * CONNECTING; `close()` moves a CONNECTING or OPEN socket to CLOSING and
 * does nothing to a CLOSING or CLOSED one; the connection becoming
 * established makes it OPEN; the closing handshake starting makes it
 * CLOSING; the connection closing makes it CLOSED and dispatches, in one
 * task, an `error` event when it failed and then the `close` event.
 */
module Sockets {
  import opened Wrappers
  import opened WsEnvelope

  datatype ReadyState = CONNECTING | OPEN | CLOSING | CLOSED

  /** The sockets the page has constructed, by handle. */
  type World = seq<ReadyState>

  predicate IsLive(r: ReadyState) {
    r == CONNECTING || r == OPEN
  }

  /** The ready state of a handle; a handle never constructed reads as CLOSED. */
  function StateOf(w: World, k: nat): ReadyState {
    if k < |w| then w[k] else CLOSED
  }

  /** What `new WebSocket(url)` does: return a socket or throw (with an Error's message, if it is one). */
  datatype Construction = Constructed | Threw(message: Option<string>)

  /** `new WebSocket(url)`: a CONNECTING socket with the next handle. */
  function Construct(w: World): (r: World)
    ensures |r| == |w| + 1 && r[..|w|] == w && r[|w|] == CONNECTING
  {
    w + [CONNECTING]
  }

  /** `socket.close(...)`. */
  function Close(w: World, k: nat): (r: World)
    ensures |r| == |w|
    ensures forall j :: 0 <= j < |w| && j != k ==> r[j] == w[j]
    ensures k < |w| && IsLive(w[k]) ==> r[k] == CLOSING
    ensures k < |w| && !IsLive(w[k]) ==> r[k] == w[k]
  {
    if k < |w| && IsLive(w[k]) then w[k := CLOSING] else w
  }

  datatype CloseInfo = CloseInfo(code: nat, reason: string, wasClean: bool)

  /** What the transport can do to one socket. */
  datatype TransportEvent =
    | Opened
    | ClosingHandshake
    | ConnectionClosed(info: CloseInfo, failed: bool)
    | Delivered(data: WireData)

  /** Whether the transport can produce the event for the socket in its current state. */
  predicate Admissible(w: World, k: nat, e: TransportEvent) {
    k < |w| &&
    match e
    case Opened => w[k] == CONNECTING
    case ClosingHandshake => w[k] == OPEN
    case ConnectionClosed(_, _) => w[k] != CLOSED
    case Delivered(_) => w[k] == OPEN
  }

  /** The world after an admissible transport event. */
  function Advance(w: World, k: nat, e: TransportEvent): (r: World)
    requires Admissible(w, k, e)
    ensures |r| == |w|
    ensures forall j :: 0 <= j < |w| && j != k ==> r[j] == w[j]
    ensures e.Opened? ==> r[k] == OPEN
    ensures e.ConnectionClosed? ==> r[k] == CLOSED
    ensures e.ClosingHandshake? ==> r[k] == CLOSING
    ensures e.Delivered? ==> r == w
  {
    match e
    case Opened => w[k := OPEN]
    case ClosingHandshake => w[k := CLOSING]
    case ConnectionClosed(_, _) => w[k := CLOSED]
    case Delivered(_) => w
  }

  /** No transport event brings a socket back to life: a socket that is not live stays not live. */
  lemma AdvanceNeverRevives(w: World, k: nat, e: TransportEvent, j: nat)
    requires Admissible(w, k, e) && j < |w| && !IsLive(w[j])
    ensures !IsLive(Advance(w, k, e)[j])
  {
  }
}
