/** `proxyRadio` (server/subsonic/radio.go lines 160-247): validate the `url` parameter, probe
    the stream with HEAD, open it with GET, forward the metadata headers and
    relay the body. Everything the network, the URL parser and the request
    context would decide is an input. */
module ProxyRadio {
  import opened Base
  import opened Params
  import opened Headers
  import opened Events
  import opened Relay

  const StatusBadRequest: int := 400
  const StatusInternalServerError: int := 500

  /** An upstream reply. Its status code is carried but never looked at. */
  datatype Reply = Reply(status: int, headers: HeaderMap)

  /** What the outside world does during one request. */
  datatype Upstream = Upstream(
    unescape: string -> Option<string>,  // url.QueryUnescape: None when it fails
    requestBuilt: bool,                  // whether NewRequestWithContext accepts the URL
    head: Option<Reply>,                 // the HEAD probe; None for a transport failure
    get: Option<Reply>,                  // the GET; None for a transport failure
    body: seq<Iteration>)                // what each pass of the copy loop observes

  /** Both upstream requests ask for in-stream metadata. */
  function IcyRequest(verb: string, url: string): Request {
    Request(verb, url, map["Icy-Metadata" := "1"])
  }

  function HeaderEvents(writes: seq<HeaderWrite>): (t: seq<Event>)
    ensures |t| == |writes|
    ensures forall i :: 0 <= i < |t| ==> t[i] == SetHeader(writes[i])
    ensures forall e :: e in t ==> e.SetHeader?
  {
    seq(|writes|, i requires 0 <= i < |writes| => SetHeader(writes[i]))
  }

  /** The whole handler, as the trace of its effects. */
  function Proxy(q: QueryParams, u: Upstream): seq<Event> {
    match StringParam(q, "url")
    case Err(_) => [ErrorReply(StatusBadRequest)]
    case Ok(requested) =>
      match u.unescape(requested)
      case None => [ErrorReply(StatusBadRequest)]
      case Some(url) =>
        if !u.requestBuilt then [ErrorReply(StatusInternalServerError)]
        else
          match u.head
          case None => [Fetch(IcyRequest("HEAD", url)), ErrorReply(StatusInternalServerError)]
          case Some(probe) =>
            match u.get
            case None =>
              [Fetch(IcyRequest("HEAD", url)), Fetch(IcyRequest("GET", url)), ErrorReply(StatusInternalServerError)]
            case Some(stream) => Opening(url, probe, stream) + RelayLoop(u.body).trace
  }

  /** Everything before the copy loop on the streaming path: both requests,
      then the header writes. */
  function Opening(url: string, probe: Reply, stream: Reply): (t: seq<Event>)
    ensures forall e :: e in t ==> e.Fetch? || e.SetHeader?
  {
    [Fetch(IcyRequest("HEAD", url)), Fetch(IcyRequest("GET", url))]
    + HeaderEvents(OutboundWrites(probe.headers, stream.headers))
  }

  /** The `url` parameter is missing or does not unescape. */
  predicate UrlRejected(q: QueryParams, u: Upstream) {
    !Has(q, "url") || u.unescape(q["url"]).None?
  }

  /** The URL is fine but building the request, the probe or the GET fails. */
  predicate UpstreamFailed(q: QueryParams, u: Upstream) {
    !UrlRejected(q, u) && (!u.requestBuilt || u.head.None? || u.get.None?)
  }

  /** Both upstream requests answered: the handler reaches the copy loop. */
  predicate Streams(q: QueryParams, u: Upstream) {
    !UrlRejected(q, u) && !UpstreamFailed(q, u)
  }

  /** The streaming path: the opening requests and header writes, then the
      copy loop. */
  lemma StreamingOpening(q: QueryParams, u: Upstream)
    requires Streams(q, u)
    ensures Proxy(q, u) == Opening(u.unescape(q["url"]).value, u.head.value, u.get.value) + RelayLoop(u.body).trace
  {
  }

  /** A 400 reply happens exactly when the `url` parameter is missing or does
      not unescape, and then it is the only effect: no upstream request. */
  lemma BadRequestIffUrlRejected(q: QueryParams, u: Upstream)
    ensures ErrorReply(StatusBadRequest) in Proxy(q, u) <==> UrlRejected(q, u)
    ensures UrlRejected(q, u) ==> Proxy(q, u) == [ErrorReply(StatusBadRequest)]
  {
    if Streams(q, u) {
      StreamingOpening(q, u);
      assert ErrorReply(StatusBadRequest) !in RelayLoop(u.body).trace;
    }
  }

  /** A 500 reply happens exactly when building the request, the probe or the
      GET fails; the reply is the last effect and no header or body byte is
      written, nor is the upstream body read. */
  lemma ServerErrorIffUpstreamFailed(q: QueryParams, u: Upstream)
    ensures ErrorReply(StatusInternalServerError) in Proxy(q, u) <==> UpstreamFailed(q, u)
    ensures UpstreamFailed(q, u) ==>
      var t := Proxy(q, u);
      && t[|t| - 1] == ErrorReply(StatusInternalServerError)
      && forall e :: e in t ==> e.Fetch? || e.ErrorReply?
  {
    if Streams(q, u) {
      StreamingOpening(q, u);
      assert ErrorReply(StatusInternalServerError) !in RelayLoop(u.body).trace;
    }
  }

  /** Upstream requests: at most two, the HEAD probe first and the GET right
      after it, both for the unescaped URL and both asking for Icy metadata.
      A failed probe means no GET, a GET always has the probe before it, and
      once the URL is accepted and the request built, the probe is sent. */
  lemma ProbeBeforeStream(q: QueryParams, u: Upstream)
    ensures var t := Proxy(q, u);
      forall j :: 0 <= j < |t| && t[j].Fetch? ==>
        && !UrlRejected(q, u) && u.requestBuilt
        && j < 2
        && t[j].request == IcyRequest(if j == 0 then "HEAD" else "GET", u.unescape(q["url"]).value)
    ensures u.head.None? ==> forall e :: e in Proxy(q, u) && e.Fetch? ==> e.request.verb == "HEAD"
    ensures var t := Proxy(q, u);
      (exists j :: 0 <= j < |t| && t[j].Fetch? && t[j].request.verb == "GET") ==>
        t[0] == Fetch(IcyRequest("HEAD", u.unescape(q["url"]).value))
    ensures !UrlRejected(q, u) && u.requestBuilt ==>
      Proxy(q, u)[0] == Fetch(IcyRequest("HEAD", u.unescape(q["url"]).value))
  {
    if Streams(q, u) {
      StreamingLayout(q, u);
    }
  }

  /** Where each kind of event sits in the streaming trace: the two requests,
      then the header writes, then the copy loop's reads and writes. */
  lemma StreamingLayout(q: QueryParams, u: Upstream)
    requires Streams(q, u)
    ensures var t, writes := Proxy(q, u), OutboundWrites(u.head.value.headers, u.get.value.headers);
      && |t| == 2 + |writes| + |RelayLoop(u.body).trace|
      && t[0].Fetch? && t[1].Fetch?
      && (forall i :: 2 <= i < 2 + |writes| ==> t[i] == SetHeader(writes[i - 2]))
      && (forall i :: 2 + |writes| <= i < |t| ==> t[i].UpstreamRead? || t[i].BodyWrite?)
  {
    var t := Proxy(q, u);
    StreamingOpening(q, u);
    var writes := OutboundWrites(u.head.value.headers, u.get.value.headers);
    var headers := HeaderEvents(writes);
    var loop := RelayLoop(u.body).trace;
    forall i | 2 + |writes| <= i < |t|
      ensures t[i].UpstreamRead? || t[i].BodyWrite?
    {
      assert t[i] == loop[i - 2 - |writes|];
      assert loop[i - 2 - |writes|] in loop;
    }
  }

  /** Every header write precedes every body write. */
  lemma HeadersPrecedeBody(q: QueryParams, u: Upstream)
    ensures var t := Proxy(q, u);
      forall i, j :: 0 <= i < |t| && 0 <= j < |t| && t[i].SetHeader? && t[j].BodyWrite? ==> i < j
  {
    if Streams(q, u) {
      StreamingLayout(q, u);
    }
  }

  lemma HeaderEventsMembership(writes: seq<HeaderWrite>, w: HeaderWrite)
    ensures SetHeader(w) in HeaderEvents(writes) <==> w in writes
  {
    var t := HeaderEvents(writes);
    if SetHeader(w) in t {
      var i :| 0 <= i < |t| && t[i] == SetHeader(w);
      assert writes[i] == w;
    }
    if w in writes {
      var i :| 0 <= i < |writes| && writes[i] == w;
      assert t[i] == SetHeader(w);
    }
  }

  lemma OutboundWritesMembership(probe: HeaderMap, stream: HeaderMap, n: string, v: string)
    ensures HeaderWrite(n, v) in OutboundWrites(probe, stream) <==>
      (n in Allowlist && v != "" && v == Get(probe, n)) || (n == ContentType && v == Get(stream, ContentType))
  {
    var forwarded := ForwardFrom(Allowlist, probe);
    assert OutboundWrites(probe, stream) == forwarded + [HeaderWrite(ContentType, Get(stream, ContentType))];
  }

  /** On the streaming path the header writes are exactly: one per allowlisted
      name whose probe value is non-empty, carrying that value, and one
      Content-Type carrying the GET response's value, even when it is empty. */
  lemma ForwardedHeadersExactly(q: QueryParams, u: Upstream, n: string, v: string)
    requires Streams(q, u)
    ensures var probe, stream := u.head.value.headers, u.get.value.headers;
      SetHeader(HeaderWrite(n, v)) in Proxy(q, u) <==>
        (n in Allowlist && v != "" && v == Get(probe, n)) || (n == ContentType && v == Get(stream, ContentType))
  {
    var url, probe, stream := u.unescape(q["url"]).value, u.head.value, u.get.value;
    StreamingOpening(q, u);
    OpeningHeaders(url, probe, stream, n, v);
    assert SetHeader(HeaderWrite(n, v)) !in RelayLoop(u.body).trace;
  }

  lemma OpeningHeaders(url: string, probe: Reply, stream: Reply, n: string, v: string)
    ensures SetHeader(HeaderWrite(n, v)) in Opening(url, probe, stream) <==>
      (n in Allowlist && v != "" && v == Get(probe.headers, n)) || (n == ContentType && v == Get(stream.headers, ContentType))
  {
    var writes := OutboundWrites(probe.headers, stream.headers);
    var fetches := [Fetch(IcyRequest("HEAD", url)), Fetch(IcyRequest("GET", url))];
    assert Opening(url, probe, stream) == fetches + HeaderEvents(writes);
    assert SetHeader(HeaderWrite(n, v)) !in fetches;
    HeaderEventsMembership(writes, HeaderWrite(n, v));
    OutboundWritesMembership(probe.headers, stream.headers, n, v);
  }

  /** The body the caller receives is the chunks read before the loop stopped,
      in order and unmodified (plus the chunk whose write failed, if that is
      how it stopped); the trace ends with the stopping iteration. */
  lemma RelayedBody(q: QueryParams, u: Upstream)
    requires Streams(q, u)
    ensures var t, k, stop := Proxy(q, u), StopIndex(u.body), RelayLoop(u.body).stop;
      && BodyBytes(t) == ChunksBefore(u.body, k) + (if stop == WriteFailed then At(u.body, k).chunk else [])
      && Decide(At(u.body, k)) == Some(stop)
      && t[|t| - 1] == (if stop == WriteFailed then BodyWrite(At(u.body, k).chunk) else UpstreamRead)
  {
    StreamingOpening(q, u);
    LoopAfterPrefix(Opening(u.unescape(q["url"]).value, u.head.value, u.get.value), u.body);
  }

  /** The copy loop's part of a trace that starts with effects writing no body. */
  lemma LoopAfterPrefix(prefix: seq<Event>, steps: seq<Iteration>)
    requires forall e :: e in prefix ==> !e.BodyWrite?
    ensures var t, k, stop := prefix + RelayLoop(steps).trace, StopIndex(steps), RelayLoop(steps).stop;
      && BodyBytes(t) == ChunksBefore(steps, k) + (if stop == WriteFailed then At(steps, k).chunk else [])
      && Decide(At(steps, k)) == Some(stop)
      && t[|t| - 1] == (if stop == WriteFailed then BodyWrite(At(steps, k).chunk) else UpstreamRead)
  {
    var loop := RelayLoop(steps).trace;
    NoBodyBytes(prefix);
    BodyBytesConcat(prefix, loop);
    RunEnds(steps);
    RunWrites(steps, 0);
    assert (prefix + loop)[|prefix + loop| - 1] == loop[|loop| - 1];
  }

  lemma {:induction false} NoBodyBytes(t: seq<Event>)
    requires forall e :: e in t ==> !e.BodyWrite?
    ensures BodyBytes(t) == []
    decreases |t|
  {
    if t != [] {
      assert t[0] in t;
      assert forall e :: e in t[1..] ==> e in t;
      NoBodyBytes(t[1..]);
    }
  }

  function WithStatus(r: Option<Reply>, status: int): Option<Reply> {
    match r
    case None => None
    case Some(reply) => Some(reply.(status := status))
  }

  /** Neither reply's status code is inspected: a 404 or 503 from upstream is
      relayed like a 200. */
  lemma StatusCodesIgnored(q: QueryParams, u: Upstream, headStatus: int, getStatus: int)
    ensures Proxy(q, u) == Proxy(q, u.(head := WithStatus(u.head, headStatus), get := WithStatus(u.get, getStatus)))
  {
  }

  /** Emitting the header writes as events and applying those events sets the
      same headers as the writes themselves. */
  lemma {:induction false} HeaderEventsApply(h: HeaderMap, writes: seq<HeaderWrite>)
    ensures ApplyHeaders(h, HeaderEvents(writes)) == SetAll(h, writes)
    decreases |writes|
  {
    if writes != [] {
      var t := HeaderEvents(writes);
      assert t[0] == SetHeader(writes[0]);
      assert t[1..] == HeaderEvents(writes[1..]);
      HeaderEventsApply(h[writes[0].name := writes[0].value], writes[1..]);
    }
  }

  /** The response headers the handler leaves behind: on the streaming path,
      exactly `Outbound` of what the writer held, the probe and the GET reply;
      on every refused or failed path, what `http.Error` makes of what the
      writer held, since the handler sets no header of its own there. */
  lemma ResponseHeaders(q: QueryParams, u: Upstream, initial: HeaderMap)
    ensures Streams(q, u) ==>
      ApplyHeaders(initial, Proxy(q, u)) == Outbound(initial, u.head.value.headers, u.get.value.headers)
    ensures !Streams(q, u) ==> ApplyHeaders(initial, Proxy(q, u)) == ErrorHeaders(initial)
  {
    if Streams(q, u) {
      StreamingHeaders(q, u, initial);
    } else {
      RefusedHeaders(q, u, initial);
    }
  }

  lemma StreamingHeaders(q: QueryParams, u: Upstream, initial: HeaderMap)
    requires Streams(q, u)
    ensures ApplyHeaders(initial, Proxy(q, u)) == SetAll(initial, OutboundWrites(u.head.value.headers, u.get.value.headers))
  {
    var url := u.unescape(q["url"]).value;
    var fetches := [Fetch(IcyRequest("HEAD", url)), Fetch(IcyRequest("GET", url))];
    var writes := OutboundWrites(u.head.value.headers, u.get.value.headers);
    StreamingOpening(q, u);
    assert Opening(url, u.head.value, u.get.value) == fetches + HeaderEvents(writes);
    WritesBetween(initial, fetches, writes, RelayLoop(u.body).trace);
  }

  lemma RefusedHeaders(q: QueryParams, u: Upstream, initial: HeaderMap)
    requires !Streams(q, u)
    ensures ApplyHeaders(initial, Proxy(q, u)) == ErrorHeaders(initial)
  {
    if UrlRejected(q, u) {
      BadRequestIffUrlRejected(q, u);
      assert Proxy(q, u) == [] + [ErrorReply(StatusBadRequest)];
      FetchesThenError(initial, [], StatusBadRequest);
    } else {
      var url := u.unescape(q["url"]).value;
      var head, get := Fetch(IcyRequest("HEAD", url)), Fetch(IcyRequest("GET", url));
      var before := if !u.requestBuilt then [] else if u.head.None? then [head] else [head, get];
      assert Proxy(q, u) == before + [ErrorReply(StatusInternalServerError)];
      FetchesThenError(initial, before, StatusInternalServerError);
    }
  }

  /** Requests followed by an error reply: only `http.Error` touches the headers. */
  lemma FetchesThenError(initial: HeaderMap, before: seq<Event>, status: int)
    requires forall e :: e in before ==> e.Fetch?
    ensures ApplyHeaders(initial, before + [ErrorReply(status)]) == ErrorHeaders(initial)
  {
    ApplyHeadersConcat(initial, before, [ErrorReply(status)]);
    ApplyHeadersNone(initial, before);
    assert [ErrorReply(status)][1..] == [];
  }

  /** Header writes between events that neither set a header nor reply with an
      error: only the writes count. */
  lemma WritesBetween(initial: HeaderMap, before: seq<Event>, writes: seq<HeaderWrite>, after: seq<Event>)
    requires forall e :: e in before ==> e.Fetch?
    requires forall e :: e in after ==> e.UpstreamRead? || e.BodyWrite?
    ensures ApplyHeaders(initial, before + HeaderEvents(writes) + after) == SetAll(initial, writes)
  {
    var headers := HeaderEvents(writes);
    ApplyHeadersConcat(initial, before + headers, after);
    ApplyHeadersConcat(initial, before, headers);
    ApplyHeadersNone(initial, before);
    HeaderEventsApply(initial, writes);
    ApplyHeadersNone(SetAll(initial, writes), after);
  }

  /** The probe matters only through the ten allowlisted names: probe replies
      that agree on those give the same trace, whatever else they carry,
      including their own Content-Type. */
  lemma ProbeOnlyAllowlistMatters(q: QueryParams, u: Upstream, other: HeaderMap)
    requires u.head.Some?
    requires forall n :: n in Allowlist ==> Get(other, n) == Get(u.head.value.headers, n)
    ensures Proxy(q, u) == Proxy(q, u.(head := Some(u.head.value.(headers := other))))
  {
    ForwardFromOnlyReadsNames(Allowlist, other, u.head.value.headers);
  }
}
