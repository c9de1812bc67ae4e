/** What the relay does to the outside world, as one ordered trace: requests
    to the upstream server, reads of its body, header writes and body writes
    on the caller's response, and error replies. */
module Events {
  import opened Base
  import Headers

  /** An upstream request as handed to `client.Do`. */
  datatype Request = Request(verb: string, url: string, headers: Headers.HeaderMap)

  datatype Event =
    | Fetch(request: Request)                  // client.Do(req)
    | UpstreamRead                             // reader.Read(buf)
    | SetHeader(write: Headers.HeaderWrite)    // w.Header().Set(name, value)
    | BodyWrite(data: seq<Byte>)               // w.Write(buf[0:count])
    | ErrorReply(status: int)                  // http.Error(w, msg, status)

  /** What one event does to the caller's response headers: a header write
      sets its name, an error reply makes `http.Error`'s changes, and nothing
      else touches them. */
  function HeaderEffect(h: Headers.HeaderMap, e: Event): Headers.HeaderMap {
    match e
    case SetHeader(w) => h[w.name := w.value]
    case ErrorReply(_) => Headers.ErrorHeaders(h)
    case _ => h
  }

  /** The caller's response headers after the events of a trace, applied in
      order to `h`. */
  function ApplyHeaders(h: Headers.HeaderMap, t: seq<Event>): Headers.HeaderMap
    decreases |t|
  {
    if t == [] then h
    else ApplyHeaders(HeaderEffect(h, t[0]), t[1..])
  }

  lemma {:induction false} ApplyHeadersConcat(h: Headers.HeaderMap, a: seq<Event>, b: seq<Event>)
    ensures ApplyHeaders(h, a + b) == ApplyHeaders(ApplyHeaders(h, a), b)
    decreases |a|
  {
    if a == [] {
      assert a + b == b;
    } else {
      assert (a + b)[0] == a[0];
      assert (a + b)[1..] == a[1..] + b;
      ApplyHeadersConcat(HeaderEffect(h, a[0]), a[1..], b);
    }
  }

  /** A trace without header writes or error replies leaves the response
      headers alone. */
  lemma {:induction false} ApplyHeadersNone(h: Headers.HeaderMap, t: seq<Event>)
    requires forall e :: e in t ==> !e.SetHeader? && !e.ErrorReply?
    ensures ApplyHeaders(h, t) == h
    decreases |t|
  {
    if t != [] {
      assert t[0] in t;
      assert forall e :: e in t[1..] ==> e in t;
      ApplyHeadersNone(h, t[1..]);
    }
  }

  /** Everything handed to `w.Write`, in order. */
  function BodyBytes(t: seq<Event>): seq<Byte>
    decreases |t|
  {
    if t == [] then []
    else (if t[0].BodyWrite? then t[0].data else []) + BodyBytes(t[1..])
  }

  lemma {:induction false} BodyBytesConcat(a: seq<Event>, b: seq<Event>)
    ensures BodyBytes(a + b) == BodyBytes(a) + BodyBytes(b)
    decreases |a|
  {
    if a == [] {
      assert a + b == b;
    } else {
      assert (a + b)[0] == a[0];
      assert (a + b)[1..] == a[1..] + b;
      BodyBytesConcat(a[1..], b);
    }
  }
}
