/**
 * The proxy handler (ProxyServer.ProxyRequest): preflight short-circuit, translation of
 * the inbound request, dispatch, and the mapping of every outcome to a response.
 */
module Proxy {
  import opened Wrappers
  import opened Text
  import opened Http
  import PathRewrite
  import QueryRewrite
  import RequestHeaders
  import opened ResponseRelay

  const StatusOK := 200
  const StatusInternalError := 500
  const StatusBadGateway := 502
  /** The proxy's own error codes: the request could not be made or sent, or the answer could not be read. */
  const RequestErrorCode := -1000
  const ReadErrorCode := -1001

  /** What one call of the handler did: the request it sent upstream, if any, and the response it left. */
  datatype Exchange = Exchange(sent: Option<Outbound>, reply: Reply)

  /** The preflight answer's headers: the three CORS headers and a max-age of one hour. */
  function Preflight(h: Fields): Fields {
    Put(WithCors(h), MaxAge, MaxAgeSeconds)
  }

  /** The upstream request built from an inbound one. */
  function OutboundFor(base: string, req: Inbound, world: World): Outbound {
    var query := QueryRewrite.RewriteSymbols(req.query);
    Outbound(req.verb, PathRewrite.TargetUrl(base, req.path, query, world.encode), RequestHeaders.OutboundHeaders(req.header), req.body)
  }

  /** A failure of the proxy itself: the status and the error envelope's code. */
  function Failed(start: Reply, status: int, code: int): Reply {
    Reply(status, PutIfAbsent(start.header, "Content-Type", JsonErrorContentType), Envelope(code))
  }

  /** The handler, as a function of the request, its collaborators and the response state it starts from. */
  function Handle(base: string, req: Inbound, world: World, start: Reply): Exchange {
    if req.verb == "OPTIONS" then
      Exchange(None, start.(status := StatusOK, header := Preflight(start.header)))
    else
      var out := OutboundFor(base, req, world);
      if !world.accepts(req.verb, out.url) then
        Exchange(None, Failed(start, StatusInternalError, RequestErrorCode))
      else
        match world.dispatch(out)
        case Unreachable => Exchange(Some(out), Failed(start, StatusBadGateway, RequestErrorCode))
        case Answered(status, header, body) =>
          match body
          case None => Exchange(Some(out), Failed(start, StatusInternalError, ReadErrorCode))
          case Some(bytes) => Exchange(Some(out), Relayed(start.header, status, header, bytes, world))
  }

  /** ProxyServer.ProxyRequest: `w` is the gin response writer, `base` the configured upstream URL. */
  method ProxyRequest(w: ResponseWriter, base: string, req: Inbound, world: World) returns (sent: Option<Outbound>)
    modifies w
    ensures Exchange(sent, w.State()) == Handle(base, req, world, old(w.State()))
  {
    if req.verb == "OPTIONS" {
      w.Header(AllowOrigin, AnyOrigin);
      w.Header(AllowMethods, MethodList);
      w.Header(AllowHeaders, HeaderList);
      w.Header(MaxAge, MaxAgeSeconds);
      w.Status(StatusOK);
      return None;
    }

    var path := req.path;
    if HasPrefix(path, PathRewrite.ApiPrefix) {
      path := TrimPrefix(path, PathRewrite.ApiPrefix);
    }
    if !HasPrefix(path, "/") {
      path := "/" + path;
    }
    var targetUrl := base + path;

    var queryParams := QueryRewrite.NormalizeSymbols(req.query);
    if |queryParams| > 0 {
      targetUrl := targetUrl + "?" + world.encode(queryParams);
    }
    assert targetUrl == OutboundFor(base, req, world).url;

    if !world.accepts(req.verb, targetUrl) {
      w.Json(StatusInternalError, RequestErrorCode);
      return None;
    }

    var header := RequestHeaders.FilterRequestHeaders(req.header);
    var out := Outbound(req.verb, targetUrl, header, req.body);
    sent := Some(out);
    match world.dispatch(out) {
      case Unreachable =>
        w.Json(StatusBadGateway, RequestErrorCode);
      case Answered(status, upstreamHeader, body) =>
        match body {
          case None =>
            w.Json(StatusInternalError, ReadErrorCode);
          case Some(bytes) =>
            Relay(w, status, upstreamHeader, bytes, world);
        }
    }
  }

  /**
   * An OPTIONS request sends nothing upstream and answers 200 with the CORS headers and
   * the max-age; the other headers and the body are left as they were.
   */
  lemma PreflightShortCircuit(base: string, req: Inbound, world: World, start: Reply)
    requires req.verb == "OPTIONS"
    ensures var x := Handle(base, req, world, start);
      && x.sent == None
      && x.reply.status == StatusOK
      && x.reply.payload == start.payload
      && x.reply.header[AllowOrigin] == AnyOrigin
      && x.reply.header[AllowMethods] == MethodList
      && x.reply.header[AllowHeaders] == HeaderList
      && x.reply.header[MaxAge] == MaxAgeSeconds
      && forall k :: k != AllowOrigin && k != AllowMethods && k != AllowHeaders && k != MaxAge ==>
           (k in x.reply.header <==> k in start.header) && (k in start.header ==> x.reply.header[k] == start.header[k])
  {
  }

  /** A request that http.NewRequest refuses is answered 500 with code -1000 and never sent. */
  lemma ConstructionFailure(base: string, req: Inbound, world: World, start: Reply)
    requires req.verb != "OPTIONS" && !world.accepts(req.verb, OutboundFor(base, req, world).url)
    ensures var x := Handle(base, req, world, start);
      x.sent == None && x.reply.status == StatusInternalError && x.reply.payload == Envelope(RequestErrorCode)
  {
  }

  /** A failure of the one HTTP client call is answered 502 with code -1000. */
  lemma TransportFailure(base: string, req: Inbound, world: World, start: Reply)
    requires req.verb != "OPTIONS"
    requires var out := OutboundFor(base, req, world); world.accepts(req.verb, out.url) && world.dispatch(out).Unreachable?
    ensures var x := Handle(base, req, world, start);
      x.sent == Some(OutboundFor(base, req, world))
      && x.reply.status == StatusBadGateway && x.reply.payload == Envelope(RequestErrorCode)
  {
  }

  /** An answer whose body cannot be read is answered 500 with code -1001. */
  lemma BodyReadFailure(base: string, req: Inbound, world: World, start: Reply)
    requires req.verb != "OPTIONS"
    requires var out := OutboundFor(base, req, world);
      world.accepts(req.verb, out.url) && world.dispatch(out).Answered? && world.dispatch(out).body.None?
    ensures var x := Handle(base, req, world, start);
      x.sent == Some(OutboundFor(base, req, world))
      && x.reply.status == StatusInternalError && x.reply.payload == Envelope(ReadErrorCode)
  {
  }

  /**
   * A readable answer is relayed with the upstream status unchanged (error statuses
   * included) and the body chosen by the decoding decision.
   */
  lemma UpstreamStatusRelayed(base: string, req: Inbound, world: World, start: Reply)
    requires req.verb != "OPTIONS"
    requires var out := OutboundFor(base, req, world);
      world.accepts(req.verb, out.url) && world.dispatch(out).Answered? && world.dispatch(out).body.Some?
    ensures var x := Handle(base, req, world, start);
      var answer := world.dispatch(OutboundFor(base, req, world));
      && x.sent == Some(OutboundFor(base, req, world))
      && x.reply.status == answer.status
      && x.reply.payload == Raw(SendBody(answer.body.value, answer.header, world.gunzip))
      && x.reply.header == RelayedHeaders(start.header, answer.header, SendBody(answer.body.value, answer.header, world.gunzip),
           ContentTypeFor(answer.header, SendBody(answer.body.value, answer.header, world.gunzip), world.isJson))
  {
  }
}
