/** The header allowlist of radio.go and the outbound header writes the relay
    makes before its first body byte. Maps are keyed by the spellings radio.go
    uses and names are compared verbatim; the canonicalisation net/http applies
    to stored names (so that `content-type` and `Content-Type` are one key) is
    not modelled. */
module Headers {

  /** A header map with one value per name; `Get` answers "" for a missing name,
      as `http.Header.Get` does. */
  type HeaderMap = map<string, string>

  function Get(h: HeaderMap, name: string): string {
    if name in h then h[name] else ""
  }

  /** The ten Icecast/Shoutcast metadata headers the relay forwards. */
  const Allowlist: seq<string> :=
    ["ice-audio-info", "icy-br", "icy-description", "icy-genre", "icy-name",
     "icy-pub", "icy-sr", "icy-url", "icy-vbr", "icy-metaint"]

  const ContentType: string := "Content-Type"
  const ContentLength: string := "Content-Length"
  const ContentTypeOptions: string := "X-Content-Type-Options"
  const PlainText: string := "text/plain; charset=utf-8"

  /** The headers `http.Error` leaves before it replies: Content-Length removed,
      a plain-text Content-Type and `X-Content-Type-Options: nosniff` set,
      every other name as it was. */
  function ErrorHeaders(h: HeaderMap): (r: HeaderMap)
    ensures ContentLength !in r
    ensures ContentType in r && r[ContentType] == PlainText
    ensures ContentTypeOptions in r && r[ContentTypeOptions] == "nosniff"
    ensures forall n :: n != ContentLength && n != ContentType && n != ContentTypeOptions ==>
              (n in r <==> n in h) && Get(r, n) == Get(h, n)
  {
    assert ContentLength[8] != ContentType[8] && ContentLength[0] != ContentTypeOptions[0];
    (h - {ContentLength})[ContentType := PlainText][ContentTypeOptions := "nosniff"]
  }

  /** One `w.Header().Set(name, value)` call. */
  datatype HeaderWrite = HeaderWrite(name: string, value: string)

  /** The loop over `names`: one write per name whose probe value is non-empty,
      in the order of `names`, carrying that value. */
  function ForwardFrom(names: seq<string>, probe: HeaderMap): (w: seq<HeaderWrite>)
    ensures |w| <= |names|
    ensures forall x :: x in w ==> x.name in names && x.value != "" && x.value == Get(probe, x.name)
    ensures forall n :: n in names && Get(probe, n) != "" ==> HeaderWrite(n, Get(probe, n)) in w
  {
    if names == [] then []
    else
      var value := Get(probe, names[0]);
      (if value != "" then [HeaderWrite(names[0], value)] else []) + ForwardFrom(names[1..], probe)
  }

  /** Every header write of the relay, in order: the allowlisted probe headers,
      then the content type of the streaming (GET) response. */
  function OutboundWrites(probe: HeaderMap, stream: HeaderMap): seq<HeaderWrite> {
    ForwardFrom(Allowlist, probe) + [HeaderWrite(ContentType, Get(stream, ContentType))]
  }

  /** Successive `Set` calls on a header map: a later write to a name wins. */
  function SetAll(h: HeaderMap, writes: seq<HeaderWrite>): HeaderMap
    decreases |writes|
  {
    if writes == [] then h
    else SetAll(h[writes[0].name := writes[0].value], writes[1..])
  }

  /** `r` is `h` with every name of `names` that has a non-empty probe value
      replaced by that value: the intended effect of the forwarding loop. */
  ghost predicate Overlays(r: HeaderMap, h: HeaderMap, names: seq<string>, probe: HeaderMap) {
    forall n :: (n in r <==> n in h || (n in names && Get(probe, n) != "")) &&
                Get(r, n) == (if n in names && Get(probe, n) != "" then Get(probe, n) else Get(h, n))
  }

  lemma {:induction false} SetAllForwardFrom(h: HeaderMap, names: seq<string>, probe: HeaderMap)
    ensures Overlays(SetAll(h, ForwardFrom(names, probe)), h, names, probe)
    decreases |names|
  {
    if names != [] {
      var a, rest := names[0], names[1..];
      assert names == [a] + rest;
      var value := Get(probe, a);
      var w := ForwardFrom(names, probe);
      if value != "" {
        assert w == [HeaderWrite(a, value)] + ForwardFrom(rest, probe);
        assert w[1..] == ForwardFrom(rest, probe);
        SetAllForwardFrom(h[a := value], rest, probe);
      } else {
        assert w == ForwardFrom(rest, probe);
        SetAllForwardFrom(h, rest, probe);
      }
    }
  }

  /** The response headers after lines 208-215, starting from whatever the
      response writer already held: allowlisted names with a non-empty probe
      value carry that value, Content-Type carries the streaming response's
      value (also when it is empty, and whatever the probe said), and every
      other name keeps what it had. */
  function Outbound(initial: HeaderMap, probe: HeaderMap, stream: HeaderMap): (h: HeaderMap)
    ensures ContentType in h && h[ContentType] == Get(stream, ContentType)
    ensures forall n :: n in Allowlist && Get(probe, n) != "" ==> n in h && h[n] == Get(probe, n)
    ensures forall n :: n != ContentType && (n !in Allowlist || Get(probe, n) == "") ==>
              (n in h <==> n in initial) && Get(h, n) == Get(initial, n)
  {
    var ct := HeaderWrite(ContentType, Get(stream, ContentType));
    var forwarded := ForwardFrom(Allowlist, probe);
    SetAllForwardFrom(initial, Allowlist, probe);
    SetAllConcat(initial, forwarded, [ct]);
    ContentTypeNotForwarded();
    SetAll(initial, OutboundWrites(probe, stream))
  }

  /** Content-Type is not one of the forwarded names, so the probe's own
      Content-Type never reaches the caller. */
  lemma ContentTypeNotForwarded()
    ensures ContentType !in Allowlist
  {
    forall n | n in Allowlist
      ensures n[0] == 'i'
    {
    }
  }

  lemma {:induction false} SetAllConcat(h: HeaderMap, a: seq<HeaderWrite>, b: seq<HeaderWrite>)
    ensures SetAll(h, a + b) == SetAll(SetAll(h, a), b)
    decreases |a|
  {
    if a == [] {
      assert a + b == b;
    } else {
      assert (a + b)[0] == a[0];
      assert (a + b)[1..] == a[1..] + b;
      SetAllConcat(h[a[0].name := a[0].value], a[1..], b);
    }
  }

  /** The forwarded headers depend on the probe only through the values of the
      names being forwarded: headers outside that list cannot leak out. */
  lemma {:induction false} ForwardFromOnlyReadsNames(names: seq<string>, p1: HeaderMap, p2: HeaderMap)
    requires forall n :: n in names ==> Get(p1, n) == Get(p2, n)
    ensures ForwardFrom(names, p1) == ForwardFrom(names, p2)
    decreases |names|
  {
    if names != [] {
      assert names[0] in names;
      assert forall n :: n in names[1..] ==> n in names;
      ForwardFromOnlyReadsNames(names[1..], p1, p2);
    }
  }
}
