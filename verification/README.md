# Internet-radio relay of the Subsonic API, modelled in Dafny

This project models `server/subsonic/radio.go` of the Navidrome media server:
the `proxyRadio` endpoint that relays a remote Icecast/Shoutcast stream to a
client, and the four Subsonic endpoints that create, list, update and delete
internet-radio stations.

`proxyRadio` (radio.go lines 160-247) is modelled as the pure function
`ProxyRadio.Proxy` from the query parameters and an `Upstream` record to the
ordered trace of its effects (`Events.Event`):
upstream requests, upstream body reads, response-header writes, body writes
and error replies. The `Upstream` record holds what the outside world decides:
the outcome of `url.QueryUnescape`, whether the HEAD request could be built,
the HEAD and GET replies (or their transport failure), and, for every pass of
the copy loop, the chunk and error of the read, the value of the `done` flag
right after the read, and whether the write fails. Which of the copy loop's
three `break`s fires on a pass (lines 231-245) is `Relay.Decide`; every
`ProxyRadio` and `Relay` lemma below is about these two functions. The
response headers a trace leaves behind are `Events.ApplyHeaders`: a header
write sets its name, and an error reply makes the changes `http.Error` makes
(Content-Length removed, `Content-Type: text/plain; charset=utf-8` and
`X-Content-Type-Options: nosniff` set).

Modules:

- `Base`: `Option`, `Result`, `Byte`.
- `Params`: the `url`/`id`/`name`/... parameter lookup (`p.String`).
- `Headers`: the ten-name allowlist, the forwarding loop, `w.Header().Set`.
- `Events`: the effect trace and the bytes it writes.
- `Relay`: the copy loop, both as a recursive function (`RelayLoop`) and as
  the imperative loop (`CopyLoop`) whose invariant ties the bytes written so
  far to the chunks read so far.
- `ProxyRadio`: the validation ladder and the composition of the above.
- `RadioApi`: the four CRUD handlers in front of an abstract repository.

Points where the relay's behaviour is easy to misread; the model follows the
code:

- `done` is looked at right after a read (line 231), not before the next one:
  after cancellation one more read is made and its chunk is thrown away.
- A read that returns zero bytes ends the loop silently even when it also
  returns an error; only a read error that comes with bytes is logged.
- A chunk that arrives together with a read error is dropped, not written.
- Neither upstream reply's status code is looked at: a 404 from the probe
  does not stop the relay.

## Model

| member | source | states |
|---|---|---|
| Headers.ForwardFrom | server/subsonic/radio.go:208-213 | a header write is produced for a name exactly when the name is in the list and its probe value is non-empty, and it carries that value unchanged |
| Headers.SetAllForwardFrom | server/subsonic/radio.go:208-213 | applying the forwarding writes to any header map overrides exactly the listed names with non-empty probe values and leaves every other name as it was |
| Headers.Outbound | server/subsonic/radio.go:157-215 | the final response headers: allowlisted names with a non-empty probe value carry it, Content-Type carries the GET reply's value even when empty, every other name keeps its prior value |
| Headers.ForwardFromOnlyReadsNames | server/subsonic/radio.go:208-213 | two probe replies that agree on the forwarded names produce identical header writes |
| Relay.FirstStopFrom | server/subsonic/radio.go:228-246 | the stopping pass is the first one at or after the start whose read returns no bytes, sees `done`, fails, or whose write fails; every pass before it continues |
| Relay.RunFrom | server/subsonic/radio.go:228-246 | the copy loop only reads upstream and writes to the response |
| Relay.RunShape | server/subsonic/radio.go:228-246 | every pass before the stopping one reads then writes exactly the chunk it read; the stopping pass reads and writes only if its write is the one that fails; nothing follows the stop |
| Relay.RunWrites | server/subsonic/radio.go:219-246 | the bytes handed to the writer are the in-order concatenation of the chunks read before the stop (each at most 8192 bytes), plus the failing chunk only on a write error |
| Relay.RunEnds | server/subsonic/radio.go:228-246 | the stop reason is the `break` that fires in the stopping pass, and the trace ends with that pass's read, or with its write when that write is what fails |
| Relay.CancellationHonoured | server/subsonic/radio.go:221-233 | once `done` is seen after the read of pass j, the loop stops there at the latest: the trace is at most j read/write pairs followed by one read (2j+1 events), and if pass j stops it, its chunk is discarded and nothing follows its read |
| Relay.CopyLoop | server/subsonic/radio.go:219-246 | the imperative loop produces the same trace and stop reason as the recursive model, and the bytes successfully written are exactly the chunks read before the stop |
| ProxyRadio.BadRequestIffUrlRejected | server/subsonic/radio.go:161-178 | a 400 reply happens exactly when the `url` parameter is missing or does not unescape, and then nothing else happens: no upstream request |
| ProxyRadio.ServerErrorIffUpstreamFailed | server/subsonic/radio.go:180-206 | a 500 reply happens exactly when building the request, the HEAD or the GET fails; it is the last effect and no header, body byte or upstream read precedes it |
| ProxyRadio.ProbeBeforeStream | server/subsonic/radio.go:180-206 | at most two upstream requests: the HEAD first and the GET second, both for the unescaped URL with `Icy-Metadata: 1`; a failed HEAD means no GET; a GET is always preceded by the HEAD; once the URL is accepted and the request built, the HEAD is the first effect |
| ProxyRadio.HeadersPrecedeBody | server/subsonic/radio.go:208-246 | every header write comes before every body write |
| ProxyRadio.ForwardedHeadersExactly | server/subsonic/radio.go:208-215 | on the streaming path the header writes are exactly the allowlisted names with non-empty probe values and the GET reply's Content-Type |
| ProxyRadio.ResponseHeaders | server/subsonic/radio.go:160-215 | the headers the caller ends up with: on the streaming path, applying the trace to whatever the writer held yields exactly `Headers.Outbound` of that map, the probe's and the GET reply's headers; on every refused or failed path the handler sets no header of its own, so the only change is the one `http.Error` makes |
| ProxyRadio.RelayedBody | server/subsonic/radio.go:217-246 | the body sent to the client is the chunks read before the loop stopped, unmodified and in order, and the trace ends with the stopping pass |
| ProxyRadio.StatusCodesIgnored | server/subsonic/radio.go:188-206 | changing either upstream reply's status code changes nothing |
| ProxyRadio.ProbeOnlyAllowlistMatters | server/subsonic/radio.go:208-215 | probe headers outside the allowlist, its Content-Type included, have no effect on the trace |
| RadioApi.CreateInternetRadio | server/subsonic/radio.go:15-41 | `Put` is called exactly when `streamUrl` and `name` are given, with a radio built from them and the optional `homepageUrl`; the first missing one is reported; a repository error is passed through |
| RadioApi.UpdateInternetRadio | server/subsonic/radio.go:83-115 | as Create, with `id` required first and stored in the radio |
| RadioApi.UpdateIsCreateWithId | server/subsonic/radio.go:83-115 | given an id, Update answers as Create and stores the same radio under that id |
| RadioApi.DeleteInternetRadio | server/subsonic/radio.go:43-56 | `Delete(id)` is called exactly when `id` is given; a missing id or a repository error is reported |
| RadioApi.GetInternetRadios | server/subsonic/radio.go:58-81 | the repository is asked for all radios sorted by name; the answer has one entry per radio, in the repository's order, copying id, name, stream URL and homepage URL; a repository error is passed through |
| RadioApi.ListingIsFaithful | server/subsonic/radio.go:65-73 | two repositories give the same listing exactly when they hold radios with the same id, name, stream URL and homepage URL, in the same order |

## Left out

- `proxyIcon` (server/subsonic/radio.go:120-154): a plain copy of the icon reply, with nothing beyond what the relay already shows.
- The goroutine that sets `done` (server/subsonic/radio.go:223-226): `done` is an input per loop pass; its unsynchronised access (a data race) and any timing are not modelled.
- Network I/O, `http.Client`, `bufio.Reader` and `http.ResponseWriter`: replaced by the observed outcomes in `Upstream` and `Relay.Iteration`.
- `url.QueryUnescape` and `http.NewRequestWithContext`: their outcomes are inputs; URL syntax is not modelled.
- The error of the second `NewRequestWithContext` (server/subsonic/radio.go:198) is ignored by the code; the model treats that call as always succeeding, since the same URL was accepted at line 180.
- The closing of both upstream bodies and the request context passed to upstream requests: resource release is not modelled.
- Logging: the stop reasons `ReadFailed` and `WriteFailed` mark the two logged exits; the log records themselves are not modelled, nor the text of error replies.
- `http.Error` (`net/http`) is not part of this model beyond its header changes, which follow current `net/http`; older releases did not remove Content-Length. The status line and the reply text are carried only as the `ErrorReply` status.
- Header-name canonicalisation and multi-valued headers of `net/http`: a header has one value and names are compared as written.
- Relay.CopyLoop: only finite sessions are modelled; once the observed passes run out, every read returns no bytes with end-of-file. A write that fails is recorded as attempted, but how many of its bytes reached the client is not modelled.
- The radio repository (`api.ds.Radio`): its answers are inputs; sorting by name and storage are not modelled, and only the four fields the handlers touch are kept in `Radio`.
- `utils/req` (the parameter helper) is not part of this model: a parameter counts as given when it is present with a non-empty value.
- The UI player, its notifications helper and the persistence test fixtures are not part of this model.
