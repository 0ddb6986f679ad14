/**
 * The connection request for the replay stream (buildWsRequest in
 * src/lib/ws.ts): base URL, path, and a query carrying the session id and the
 * stream descriptor.
 */
module WsRequest {
  import opened Wrappers
  import opened FormEncoding

  /** Where sockets connect: the resolved base URL and path. */
  datatype Endpoint = Endpoint(base: string, path: string)

  /** What the request builder returns. */
  datatype WsRequestInfo = WsRequestInfo(base: string, path: string, query: string, url: string)

  /** The query's name-value pairs, in the order the builder lists them. */
  function QueryPairs(sessionId: string, streams: string): seq<(string, string)> {
    [("sessionId", sessionId), ("streams", streams)]
  }

  /**
   * buildWsRequest. The base URL and path are inputs: `src/lib/env.ts`, which
   * `src/lib/ws.ts` reads `WS_BASE_URL` from, does not export it, so the caller's
   * choice is kept explicit. The URL is base, path, "?" and the query, and the
   * query is the form serialisation of the two pairs, which the standard's
   * parser reads back exactly, whatever characters the id or the descriptor
   * contain.
   */
  function BuildWsRequest(base: string, path: string, sessionId: string, streams: string): (r: WsRequestInfo)
    ensures r.base == base && r.path == path
    ensures r.url == base + path + "?" + r.query
    ensures Parse(r.query) == Some(QueryPairs(sessionId, streams))
  {
    var query := Serialize(QueryPairs(sessionId, streams));
    SerializeRoundTrip(QueryPairs(sessionId, streams));
    WsRequestInfo(base, path, query, base + path + "?" + query)
  }

  /**
   * The query never contains '?' or '#', so the URL's query component is
   * exactly the built query and the URL has no fragment.
   */
  lemma QueryStaysInQueryComponent(base: string, path: string, sessionId: string, streams: string)
    ensures var q := BuildWsRequest(base, path, sessionId, streams).query;
      forall i :: 0 <= i < |q| ==> q[i] != '?' && q[i] != '#'
  {
    NoDelimiters(QueryPairs(sessionId, streams));
  }

  lemma NoDelimiters(pairs: seq<(string, string)>)
    ensures forall i :: 0 <= i < |Serialize(pairs)| ==> Serialize(pairs)[i] != '?' && Serialize(pairs)[i] != '#'
  {
    SerializeAlphabet(pairs);
  }
}
