# sse-pubsub in Dafny

A model of the publish/subscribe relay in `main.go`: a process-wide **bus**
maps each channel name (the request path) to the set of subscriber
endpoints currently registered on it; a GET subscribes to its path and
streams each published payload as a server-sent-events frame
(`data: ` + payload + `\n\n`, WHATWG HTML Living Standard, section 9.2
"Server-sent events"); a POST reads its body and publishes it to its path.

Files:

- `wrappers.dfy` — `Option`, `Result`, and the byte type `Octets.Bytes`.
- `frame.dfy` — module `Frame`: the event framing and its inverse.
- `bus.dfy` — module `Bus`: the registry, `Subscribe`, `Release` (the
  closure subscribe returns), `Publish`, and sequences of these operations.
- `server.dfy` — module `Server`: `Handler`, `Get`, `Post`, and the stream
  loop `Pump`.

The registry is an immutable value `Bus(subs, next)`. `subs` is the Go map
`map[string]map[chan []byte]bool`, with the inner map as a set. A Go
endpoint is a `chan []byte` from `make`, which is always new; here it is a
natural number taken from the allocator `next`, which every subscribe
advances. Statements that the registry is "restored" are therefore about
`subs`: the allocator never goes back. `Bus.Valid` holds the invariants:
a channel key is present only with a non-empty set, every registered
endpoint was allocated, and an endpoint is on at most one channel.

Publishing returns the set of `(endpoint, payload)` deliveries rather than
blocking on each endpoint. It is a set because Go does not specify the order
in which a map is iterated. `Bus.PublishLoop` models the loop itself: it
visits the endpoints in an arbitrary order.

## Model

| member | source | states |
|---|---|---|
| Frame.Encode | main.go:63-66 | the event for payload p has length \|p\| + 8 and consists of the bytes of "data: ", then p unchanged, then "\n\n" |
| Frame.DecodeEncode | main.go:12-13 | removing the 6-byte prefix and the 2-byte suffix from an event recovers the payload exactly |
| Frame.EncodeDecode | main.go:12-13 | any byte string that decodes to p is exactly the event written for p, so decoding accepts only well-formed events |
| Frame.EncodeInjective | main.go:63-66 | different payloads produce different events |
| Bus.Subscribe | main.go:21-31 | the new endpoint is the next unused one and the allocator advances past it; the channel key becomes present; the channel's set gains the new endpoint and nothing else; every other channel is unchanged; the endpoint was on no channel before; the registry invariants are preserved |
| Bus.Release | main.go:31-39 | the channel's set loses exactly this endpoint; the key stays only if the set is still non-empty; every other channel keeps its presence and its subscribers; the invariants are preserved |
| Bus.Publish | main.go:42-49 | each endpoint registered on the channel gets exactly one delivery of the payload, and no one else gets any |
| Bus.PublishLoop | main.go:46-48 | visiting the channel's endpoints in any order sends the payload to each endpoint once, with no repeats; the deliveries match Publish and there is one per subscriber |
| Bus.PresentIffSubscribed | main.go:26-38 | in a valid registry, a channel key is present if and only if the channel has at least one subscriber |
| Bus.SubscribeThenRelease | main.go:21-39 | releasing a subscription straight after making it restores the original channel map |
| Bus.ReleaseAbsent | main.go:35-38 | releasing an endpoint that is not registered on its channel leaves the registry unchanged |
| Bus.ReleaseIdempotent | main.go:35-38 | a second release leaves the registry as the first one did |
| Bus.PublishExactlyOnce | main.go:46-48 | a publish makes as many deliveries as the channel has subscribers |
| Bus.PublishToAbsent | main.go:46-48 | publishing to a channel with no entry delivers nothing |
| Bus.Step | main.go:42-49 | a publish leaves the registry unchanged; a subscribe strictly advances the allocator, and no operation lowers it |
| Bus.SubscribeNeverReissues | main.go:25 | whatever operations follow a subscribe, a later subscribe creates a different endpoint, so no endpoint is issued twice |
| Bus.RunValid | main.go:21-49 | every sequence of subscribes, releases and publishes keeps the registry invariants |
| Bus.RunKeepsReleased | main.go:25-38 | once an endpoint has been released, later operations never put it back on its channel |
| Bus.RunKeepsRegistered | main.go:25-38 | a registered endpoint stays on its channel through any sequence of operations that does not include its own release |
| Bus.RunPublishesOnly | main.go:42-49 | any sequence of publishes leaves the registry exactly as it was |
| Bus.ReleaseIdempotentAfter | main.go:31-39 | a second release changes nothing, even when other subscribes, releases and publishes happened after the first |
| Server.Handler | main.go:85-96 | every response carries Access-Control-Allow-Origin: \*; a GET gets the event-stream headers and registers an endpoint on the path; that endpoint was on no channel before, and every other channel is unchanged; a POST whose body read fails gets 400, makes no delivery and leaves the registry unchanged; a POST that reads its body delivers it to exactly the path's subscribers, leaves the registry unchanged and gets 200; any other method gets 404 with no effect; the invariants are preserved |
| Server.Get | main.go:55-60 | adds Cache-Control: no-cache and Content-Type: text/event-stream, then registers on the request path an endpoint that was on no channel before; every other channel is unchanged |
| Server.Post | main.go:74-83 | a failed body read gives 400 and no deliveries; a successful read gives 200 and one delivery of the body to each subscriber of the path; the registry is never changed |
| Server.Pump | main.go:62-71 | writes one event per received payload, in order; each event is the framing of its payload and decodes back to it; the loop stops at the first failed write and reports that the stream broke |
| Server.GetThenCloseRestores | main.go:59-69 | when only publishes ran between the GET and its release, the GET's deferred release restores the channel map to what it was before the GET |
| Server.OtherVerbNoEffect | main.go:93-94 | a method other than GET or POST gets 404 and leaves every channel's subscribers unchanged |
| Server.RoomScenario | main.go:74-83 | a POST of "hello" to /room1 delivers to the one /room1 subscriber only, and its event is the bytes "data: hello\n\n"; a POST to /room2 delivers nothing |

## Left out

- Locking (`sync.RWMutex`) and one goroutine per connection. Each registry operation is modelled as one atomic step, so interleavings are modelled only as sequences of operations (`Bus.Run`).
- The blocking, unbuffered `sub <- data` handoff and the `range sub` receive. Delivery is modelled as a value that the publish returns. As a result, the model does not capture that a publish waits for the slowest subscriber.
- `http.Flusher.Flush` and the bytes on the wire. A write is either accepted or fails, and `Server.Pump` receives, as an input, the number of writes the sink will accept.
- Server.Pump: the received payloads form a finite sequence, so the model stops when it runs out, while the Go loop keeps waiting. The Go loop also ends if the endpoint is closed, but nothing ever closes one, so that exit is not modelled.
- `ioutil.ReadAll` is modelled as an input `Result` that holds either the body or an error.
- Server.Get: the 200 status is stated explicitly. In Go it is set implicitly by the first write to the response.
- Header names are used exactly as the source spells them; Go's canonicalisation of header keys is not modelled.
- `main`: reading `PORT` from the environment, `http.ListenAndServe`, and logging.
- Deliveries are not logged across publishes, so the model does not state that two identical publishes produce two separate frames. Each publish is described on its own.
